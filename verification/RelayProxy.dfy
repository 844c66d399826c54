/**
 The client's side of the relay: its own copy of the framing
 (client/internal/relayproxy/protocol.go) and the two pumps of a proxy
 (client/internal/relayproxy/relayproxy.go), and the path of one WireGuard
 datagram from the sending client through the relay to the receiving one.
 */
module RelayProxy {
  import opened Basics
  import opened SessionTable
  import F = RelayFrames
  import R = RelayServer

  const HEADER_LEN: int := 1 + 16
  const MAX_PACKET_SIZE: int := 1500 + HEADER_LEN

  /** What decoding a frame of the client's own framing yields. */
  function DecodeData(frame: seq<byte>): Option<(Uuid, seq<byte>)> {
    if |frame| < HEADER_LEN || frame[0] != 3 then None
    else Some((frame[1..HEADER_LEN], frame[HEADER_LEN..]))
  }

  function DataFrame(peer: Uuid, payload: seq<byte>): seq<byte> {
    [3] + peer + payload
  }

  method EncodeData(peer: Uuid, payload: seq<byte>) returns (frame: array<byte>)
    ensures fresh(frame) && frame[..] == DataFrame(peer, payload)
  {
    frame := new byte[HEADER_LEN + |payload|];
    frame[0] := 3;
    F.CopyAt(frame, 1, peer);
    F.CopyAt(frame, HEADER_LEN, payload);
  }

  /** A proxy carrying one peer's traffic. */
  class Proxy {
    const self: Uuid
    const peer: Uuid
    const token: seq<byte>
    /** Where the WireGuard engine sends from, once it has sent anything. */
    var wgAddr: Option<Addr>
    var bound: bool
    var bytesSent: uint64
    var bytesRecv: uint64

    constructor (self: Uuid, peer: Uuid, token: seq<byte>)
      ensures this.self == self && this.peer == peer && this.token == token
      ensures wgAddr == None && !bound && bytesSent == bytesRecv == 0
    {
      this.self, this.peer, this.token := self, peer, token;
      wgAddr, bound, bytesSent, bytesRecv := None, false, 0, 0;
    }

    /** One turn of the outgoing pump: what goes to the relay for a datagram from WireGuard. */
    method PumpLocalToRelay(datagram: seq<byte>, src: Addr, writable: bool) returns (out: Option<seq<byte>>)
      modifies this`wgAddr, this`bytesSent
      ensures out == if datagram == [] || !writable then None
                     else Some(DataFrame(peer, F.ReadInto(MAX_PACKET_SIZE, datagram)))
      ensures wgAddr == if datagram == [] then old(wgAddr) else Some(src)
      ensures bytesSent == if out.None? then old(bytesSent)
                           else (old(bytesSent) + Min(|datagram|, MAX_PACKET_SIZE)) % TWO_64
    {
      var payload := F.ReadInto(MAX_PACKET_SIZE, datagram);
      if |payload| == 0 {
        return None;
      }
      wgAddr := Some(src);
      var frame := EncodeData(peer, payload);
      if !writable {
        return None;
      }
      bytesSent := (bytesSent + |payload|) % TWO_64;
      out := Some(frame[..]);
    }

    /**
     One turn of the incoming pump: what WireGuard is handed for a datagram from the
     relay, and whether the proxy announces itself again.
     */
    method PumpRelayToLocal(datagram: seq<byte>, writable: bool)
      returns (delivered: Option<(seq<byte>, Addr)>, rebind: bool)
      modifies this`bound, this`bytesRecv
      ensures var frame := F.ReadInto(MAX_PACKET_SIZE, datagram);
        && (delivered.Some? <==> DecodeData(frame).Some? && wgAddr.Some? && writable)
        && (delivered.Some? ==> delivered.value == (DecodeData(frame).value.1, wgAddr.value))
        && (rebind <==> frame != [] && frame[0] == F.FRAME_ERROR)
        && bound == if frame == [] then old(bound)
                    else if frame[0] == F.FRAME_BIND_ACK then true
                    else if frame[0] == F.FRAME_ERROR then false else old(bound)
      ensures bytesRecv == if delivered.None? then old(bytesRecv)
                           else (old(bytesRecv) + |delivered.value.0|) % TWO_64
    {
      delivered, rebind := None, false;
      var frame := F.ReadInto(MAX_PACKET_SIZE, datagram);
      if |frame| == 0 {
        return;
      }
      if frame[0] == F.FRAME_BIND_ACK {
        bound := true;
      } else if frame[0] == 3 {
        var decoded := DecodeData(frame);
        if decoded.Some? && wgAddr.Some? && writable {
          bytesRecv := (bytesRecv + |decoded.value.1|) % TWO_64;
          delivered := Some((decoded.value.1, wgAddr.value));
        }
      } else if frame[0] == F.FRAME_ERROR {
        bound := false;
        rebind := true;
      }
    }
  }

  /** The two copies of the framing read and write the same frames. */
  lemma FramingsAgree(frame: seq<byte>, peer: Uuid, payload: seq<byte>)
    ensures DataFrame(peer, payload) == F.Layout(F.FRAME_DATA, peer, payload)
    ensures DecodeData(frame) == F.DecodeData(frame)
    ensures DecodeData(frame) == Some((peer, payload)) <==> frame == DataFrame(peer, payload)
  {
    F.DecodeInvertsLayout(F.FRAME_DATA, frame, peer, payload);
  }

  /** What survives of a payload: the relay's read buffer holds 1500 bytes beside the header. */
  function Carried(payload: seq<byte>): seq<byte> {
    payload[..Min(|payload|, 1500)]
  }

  lemma ThreeReads(peer: Uuid, payload: seq<byte>)
    ensures var wire := DataFrame(peer, F.ReadInto(MAX_PACKET_SIZE, payload));
      F.ReadInto(F.MAX_PACKET_SIZE, wire) == F.Layout(F.FRAME_DATA, peer, Carried(payload))
    ensures F.ReadInto(MAX_PACKET_SIZE, F.Layout(F.FRAME_DATA, peer, Carried(payload))) ==
            DataFrame(peer, Carried(payload))
  {
  }

  /** Janitor passes, none of which finds either device idle or expired. */
  ghost predicate Sparing(n: R.Node, limits: Limits, passes: seq<R.Step>, a: Owner, b: Owner) {
    forall s | s in passes ::
      && s.Janitor?
      && (Bound(n.table, a) ==> Survives(At(n.table, a), limits.idleTimeout, s.now))
      && (Bound(n.table, b) ==> Survives(At(n.table, b), limits.idleTimeout, s.now))
  }

  lemma {:induction false} PassesSpare(n: R.Node, limits: Limits, passes: seq<R.Step>, a: Owner, b: Owner)
    requires Bound(n.table, a) && Bound(n.table, b) && Sparing(n, limits, passes, a, b)
    ensures var n' := R.Resume(n, limits, passes);
      && n' == n.(table := n'.table)
      && Bound(n'.table, a) && At(n'.table, a) == At(n.table, a)
      && Bound(n'.table, b) && At(n'.table, b) == At(n.table, b)
  {
    if passes != [] {
      var front, last := passes[..|passes| - 1], passes[|passes| - 1];
      PassesSpare(n, limits, front, a, b);
      assert last in passes;
      EvictEffect(R.Resume(n, limits, front).table, limits.idleTimeout, last.now);
    }
  }

  /** The steps of one DATA frame at the relay, with janitor passes between its two sections. */
  function Handling(arrived: seq<byte>, from: Addr, verdict: Option<R.Claims>, now: int, passes: seq<R.Step>,
                    later: int): seq<R.Step>
  {
    [R.Receive(arrived, from, verdict, now)] + passes + [R.FinishData(later, true)]
  }

  /** The sender is bound where the frame comes from, the addressee in its network, and neither expires meanwhile. */
  ghost predicate Served(n: R.Node, limits: Limits, sender: Owner, peer: Owner, from: Addr, passes: seq<R.Step>,
                         later: int) {
    && n.reader.Waiting?
    && Lookup(n.table, from) == Some(sender) && peer.network == sender.network
    && Bound(n.table, sender) && !Expired(At(n.table, sender), later)
    && Bound(n.table, peer) && !Expired(At(n.table, peer), later)
    && Sparing(n, limits, passes, sender, peer)
  }

  /** The relay's part: the frame goes to the addressee, stamped with the sender. */
  lemma ThroughRelay(limits: Limits, n: R.Node, sender: Owner, peer: Owner, from: Addr, payload: seq<byte>,
                     verdict: Option<R.Claims>, now: int, passes: seq<R.Step>, later: int)
    requires Served(n, limits, sender, peer, from, passes, later)
    ensures var steps := Handling(F.Layout(F.FRAME_DATA, peer.device, payload), from, verdict, now, passes, later);
      R.Resume(n, limits, steps).sent ==
      n.sent + [R.Forwarded(from, At(n.table, peer).addr, F.Layout(F.FRAME_DATA, sender.device, payload), sender,
                            peer.device)]
  {
    var arrived := F.Layout(F.FRAME_DATA, peer.device, payload);
    F.DecodeInvertsLayout(F.FRAME_DATA, arrived, peer.device, payload);
    var first, last := R.Receive(arrived, from, verdict, now), R.FinishData(later, true);
    var n1 := R.Next(n, limits, first);
    assert n1 == n.(handled := n.handled + 1, reader := R.DataLooked(from, sender, peer.device, payload));
    assert [first][..0] == [] && R.Resume(n, limits, [first]) == n1;
    PassesSpare(n1, limits, passes, sender, peer);
    R.ResumeConcat(n, limits, [first], passes);
    var n2 := R.Resume(n1, limits, passes);
    assert ([first] + passes + [last])[..|passes| + 1] == [first] + passes;
    RefreshEffect(n2.table, sender, later);
    assert R.Next(n2, limits, last).sent ==
      n.sent + [R.Forwarded(from, At(n.table, peer).addr, F.Layout(F.FRAME_DATA, sender.device, payload), sender,
                            peer.device)];
  }

  /**
   End to end: for every non-empty datagram WireGuard hands to the proxy of a bound device, addressed
   to a device bound in the same network, and whatever janitor passes run meanwhile that evict
   neither, the relay sends one datagram to the addressee's address, and the receiving proxy decodes
   it to the sender's identifier and the first 1500 bytes of the original.
   */
  lemma EndToEnd(limits: Limits, n: R.Node, sender: Owner, peer: Owner, from: Addr, payload: seq<byte>,
                 verdict: Option<R.Claims>, now: int, passes: seq<R.Step>, later: int)
    requires payload != [] && Served(n, limits, sender, peer, from, passes, later)
    ensures var wire := DataFrame(peer.device, F.ReadInto(MAX_PACKET_SIZE, payload));
      var arrived := F.ReadInto(F.MAX_PACKET_SIZE, wire);
      var n' := R.Resume(n, limits, Handling(arrived, from, verdict, now, passes, later));
      && |n'.sent| == |n.sent| + 1
      && n'.sent[|n.sent|].dest == At(n.table, peer).addr
      && DecodeData(F.ReadInto(MAX_PACKET_SIZE, n'.sent[|n.sent|].frame)) == Some((sender.device, Carried(payload)))
  {
    ThreeReads(peer.device, payload);
    ThroughRelay(limits, n, sender, peer, from, Carried(payload), verdict, now, passes, later);
    ThreeReads(sender.device, payload);
    FramingsAgree(DataFrame(sender.device, Carried(payload)), sender.device, Carried(payload));
  }

  /** The whole way, from one WireGuard to the other. */
  method Traverse(a: Proxy, b: Proxy, datagram: seq<byte>, src: Addr, limits: Limits, n: R.Node, ghost sender: Owner,
                  ghost peer: Owner, from: Addr, verdict: Option<R.Claims>, now: int, passes: seq<R.Step>, later: int)
    returns (delivered: Option<(seq<byte>, Addr)>)
    requires a != b && a.peer == peer.device && b.wgAddr.Some? && datagram != []
    requires Served(n, limits, sender, peer, from, passes, later)
    modifies a`wgAddr, a`bytesSent, b`bound, b`bytesRecv
    ensures delivered == Some((Carried(datagram), b.wgAddr.value))
  {
    var out := a.PumpLocalToRelay(datagram, src, true);
    var arrived := F.ReadInto(F.MAX_PACKET_SIZE, out.value);
    EndToEnd(limits, n, sender, peer, from, datagram, verdict, now, passes, later);
    var n' := R.Resume(n, limits, Handling(arrived, from, verdict, now, passes, later));
    var rebind;
    delivered, rebind := b.PumpRelayToLocal(n'.sent[|n.sent|].frame, true);
  }
}
