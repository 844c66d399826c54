/** The relay's wire framing (relay/udprelay/protocol.go). */
module RelayFrames {
  import opened Basics

  const FRAME_BIND: byte := 1
  const FRAME_BIND_ACK: byte := 2
  const FRAME_DATA: byte := 3
  const FRAME_KEEPALIVE: byte := 4
  const FRAME_ERROR: byte := 5

  /** The frame type and the sixteen identifier bytes. */
  const HEADER_LEN: int := 1 + 16

  const MAX_PACKET_SIZE: int := 1500 + HEADER_LEN

  /** How BIND and DATA frames lay out an identifier and what follows it. */
  function Layout(kind: byte, id: Uuid, rest: seq<byte>): seq<byte> {
    [kind] + id + rest
  }

  function Decode(kind: byte, frame: seq<byte>): Option<(Uuid, seq<byte>)> {
    if |frame| < HEADER_LEN || frame[0] != kind then None
    else Some((frame[1..HEADER_LEN], frame[HEADER_LEN..]))
  }

  function DecodeBind(frame: seq<byte>): Option<(Uuid, seq<byte>)> {
    Decode(FRAME_BIND, frame)
  }

  function DecodeData(frame: seq<byte>): Option<(Uuid, seq<byte>)> {
    Decode(FRAME_DATA, frame)
  }

  /** Decoding accepts exactly the laid-out frames and is the inverse of the layout. */
  lemma DecodeInvertsLayout(kind: byte, frame: seq<byte>, id: Uuid, rest: seq<byte>)
    ensures Decode(kind, frame) == Some((id, rest)) <==> frame == Layout(kind, id, rest)
  {
    var built := Layout(kind, id, rest);
    assert built[1..HEADER_LEN] == id && built[HEADER_LEN..] == rest;
    if |frame| >= HEADER_LEN {
      assert frame == [frame[0]] + frame[1..HEADER_LEN] + frame[HEADER_LEN..];
    }
  }

  /** What the receiver sees of a datagram read into a fixed buffer. */
  function ReadInto(capacity: nat, datagram: seq<byte>): seq<byte> {
    if |datagram| <= capacity then datagram else datagram[..capacity]
  }

  /** Go's `copy` into the buffer at an offset, for a source that fits. */
  method CopyAt(buf: array<byte>, offset: nat, src: seq<byte>)
    requires offset + |src| <= buf.Length
    modifies buf
    ensures buf[..] == old(buf[..offset]) + src + old(buf[offset + |src|..])
  {
    forall i | 0 <= i < |src| {
      buf[offset + i] := src[i];
    }
  }

  method EncodeData(peer: Uuid, payload: seq<byte>) returns (buf: array<byte>)
    ensures fresh(buf) && buf[..] == Layout(FRAME_DATA, peer, payload)
  {
    buf := new byte[HEADER_LEN + |payload|];
    buf[0] := FRAME_DATA;
    CopyAt(buf, 1, peer);
    CopyAt(buf, HEADER_LEN, payload);
  }

  /** Stamps the sender over the addressee in the first `n` bytes of the read buffer. */
  method RewriteDataPeer(buf: array<byte>, n: nat, sender: Uuid)
    requires HEADER_LEN <= n <= buf.Length
    modifies buf
    ensures buf[..n] == [old(buf[0])] + sender + old(buf[HEADER_LEN..n])
    ensures buf[n..] == old(buf[n..])
  {
    CopyAt(buf, 1, sender);
  }
}
