/**
 Discovery packets that share WireGuard's socket: their encoding
 (client/internal/disco/disco.go) and the filter that takes them out of a received batch
 (client/internal/disco/bind.go).
 */
module Disco {
  import opened Basics

  /** The letters NXdisc. */
  const MAGIC: seq<byte> := [0x4E, 0x58, 0x64, 0x69, 0x73, 0x63]

  const TYPE_PING: byte := 1
  const TYPE_PONG: byte := 2

  const PACKET_LEN: int := 6 + 1 + 8 + 16

  type TxID = b: seq<byte> | |b| == 8 witness [0, 0, 0, 0, 0, 0, 0, 0]

  datatype Message = Message(kind: byte, txID: TxID, sender: Uuid)

  predicate IsDisco(b: seq<byte>) {
    MAGIC <= b
  }

  function Encode(m: Message): seq<byte> {
    MAGIC + [m.kind] + m.txID + m.sender
  }

  function Decode(b: seq<byte>): Option<Message> {
    if !IsDisco(b) || |b| < PACKET_LEN || (b[6] != TYPE_PING && b[6] != TYPE_PONG) then None
    else Some(Message(b[6], b[7..15], b[15..31]))
  }

  /** Decoding accepts exactly the pings and pongs, with or without trailing bytes, and inverts encoding. */
  lemma DecodeInvertsEncode(b: seq<byte>, m: Message)
    ensures Decode(b) == Some(m) <==> Encode(m) <= b && m.kind in {TYPE_PING, TYPE_PONG}
  {
    var e := Encode(m);
    assert e[..6] == MAGIC && e[6] == m.kind && e[7..15] == m.txID && e[15..31] == m.sender;
    if Encode(m) <= b {
      assert b[..31] == e && b[7..15] == b[..31][7..15] && b[15..31] == b[..31][15..31];
    }
    if Decode(b) == Some(m) {
      assert b[..31] == b[..6] + [b[6]] + b[7..15] + b[15..31];
    }
  }

  /** The wire format: a packet is disco by its first six bytes, and where its fields are. */
  lemma WireFormat(b: seq<byte>, m: Message)
    ensures IsDisco(b) <==>
      (|b| >= 6 && b[0] == 0x4E && b[1] == 0x58 && b[2] == 0x64 && b[3] == 0x69 && b[4] == 0x73 && b[5] == 0x63)
    ensures |Encode(m)| == 31 && IsDisco(Encode(m))
    ensures Encode(m)[6] == m.kind && Encode(m)[7..15] == m.txID && Encode(m)[15..] == m.sender
  {
  }

  /** Where a packet came from. */
  type Endpoint = string

  datatype Packet = Packet(bytes: seq<byte>, from: Endpoint)

  /** The packets WireGuard gets to see of a batch, in order. */
  function Passed(batch: seq<Packet>): seq<Packet> {
    if batch == [] then []
    else
      var n := |batch| - 1;
      if IsDisco(batch[n].bytes) then Passed(batch[..n]) else Passed(batch[..n]) + [batch[n]]
  }

  /** The handler's call for one disco packet, if it is well formed and there is a handler. */
  function Dispatched(p: Packet, hasHandler: bool): seq<(Message, Endpoint)> {
    var msg := Decode(p.bytes);
    if msg.Some? && hasHandler then [(msg.value, p.from)] else []
  }

  /** The handler's calls for a batch, in order. */
  function Delivered(batch: seq<Packet>, hasHandler: bool): seq<(Message, Endpoint)> {
    if batch == [] then []
    else Delivered(batch[..|batch| - 1], hasHandler) + Dispatched(batch[|batch| - 1], hasHandler)
  }

  lemma OneMore(batch: seq<Packet>, i: nat, hasHandler: bool)
    requires i < |batch|
    ensures Passed(batch[..i + 1]) ==
            if IsDisco(batch[i].bytes) then Passed(batch[..i]) else Passed(batch[..i]) + [batch[i]]
    ensures Delivered(batch[..i + 1], hasHandler) ==
            if IsDisco(batch[i].bytes) then Delivered(batch[..i], hasHandler) + Dispatched(batch[i], hasHandler)
            else Delivered(batch[..i], hasHandler)
  {
    assert batch[..i + 1][..i] == batch[..i];
  }

  /** The positions of the packets that pass, and of those that are delivered, in order. */
  function Positions(batch: seq<Packet>, deliver: bool): (at: seq<nat>)
    ensures forall k | 0 <= k < |at| :: at[k] < |batch| && Chosen(batch[at[k]], deliver)
    ensures forall k, l | 0 <= k < l < |at| :: at[k] < at[l]
    ensures forall i | 0 <= i < |batch| && Chosen(batch[i], deliver) :: i in at
  {
    if batch == [] then []
    else
      var n := |batch| - 1;
      var at := Positions(batch[..n], deliver);
      if Chosen(batch[n], deliver) then at + [n] else at
  }

  predicate Chosen(p: Packet, deliver: bool) {
    if deliver then Decode(p.bytes).Some? else !IsDisco(p.bytes)
  }

  /**
   What passes is the in-order subsequence of packets that are not disco, and what is
   delivered is the in-order subsequence of well-formed disco packets, each once.
   */
  lemma {:induction false} FilterIsSubsequence(batch: seq<Packet>)
    ensures var stay, go := Positions(batch, false), Positions(batch, true);
      && |Passed(batch)| == |stay| && (forall k | 0 <= k < |stay| :: Passed(batch)[k] == batch[stay[k]])
      && |Delivered(batch, true)| == |go|
      && (forall k | 0 <= k < |go| ::
            Delivered(batch, true)[k] == (Decode(batch[go[k]].bytes).value, batch[go[k]].from))
  {
    if batch != [] {
      FilterIsSubsequence(batch[..|batch| - 1]);
    }
  }

  lemma WireGuardIsNotDisco(b: seq<byte>)
    requires b != [] && b[0] != MAGIC[0]
    ensures !IsDisco(b)
  {
  }

  /** No WireGuard packet, which starts with a message type of 1 to 4, is ever taken out. */
  lemma WireGuardPacketsStay(batch: seq<Packet>, i: nat)
    requires i < |batch| && batch[i].bytes != [] && 1 <= batch[i].bytes[0] <= 4
    ensures exists k :: 0 <= k < |Positions(batch, false)| && Positions(batch, false)[k] == i
                        && k < |Passed(batch)| && Passed(batch)[k] == batch[i]
  {
    WireGuardIsNotDisco(batch[i].bytes);
    FilterIsSubsequence(batch);
    assert i in Positions(batch, false);
  }

  /** Go's `copy`: as much of the source as the destination has room for. */
  method CopyInto(dst: array<byte>, src: seq<byte>)
    modifies dst
    ensures |src| <= dst.Length ==> dst[..|src|] == src
  {
    var m := Min(|src|, dst.Length);
    forall i | 0 <= i < m {
      dst[i] := src[i];
    }
  }

  /** The packets in the first `n` entries of a batch: buffers, the bytes used of each, and senders. */
  ghost function Batch(packets: seq<array<byte>>, sizes: array<nat>, eps: array<Endpoint>, n: nat): (batch: seq<Packet>)
    requires n <= |packets| && n <= sizes.Length && n <= eps.Length
    requires forall i | 0 <= i < n :: sizes[i] <= packets[i].Length
    reads sizes, eps, packets
    ensures |batch| == n
    ensures forall i | 0 <= i < n :: batch[i] == Packet(packets[i][..sizes[i]], eps[i])
  {
    if n == 0 then []
    else Batch(packets, sizes, eps, n - 1) + [Packet(packets[n - 1][..sizes[n - 1]], eps[n - 1])]
  }

  /** Every buffer of the batch has room for every packet in it. */
  ghost predicate Roomy(packets: seq<array<byte>>, batch: seq<Packet>)
    requires |batch| <= |packets|
  {
    forall i, j | 0 <= i < |batch| && 0 <= j < |batch| :: |batch[i].bytes| <= packets[j].Length
  }

  /** Entry `k` of the batch now is this packet. */
  ghost predicate Holds(packets: seq<array<byte>>, sizes: array<nat>, eps: array<Endpoint>, k: nat, p: Packet)
    requires k < |packets| && k < sizes.Length && k < eps.Length
    reads sizes, eps, packets[k]
  {
    sizes[k] == |p.bytes| <= packets[k].Length && packets[k][..sizes[k]] == p.bytes && eps[k] == p.from
  }

  /** Moves a packet down over the gap left by the disco packets before it. */
  method MoveDown(packets: seq<array<byte>>, sizes: array<nat>, eps: array<Endpoint>, kept: nat, i: nat,
                  ghost p: Packet)
    requires kept < i < |packets| && i < sizes.Length && i < eps.Length
    requires packets[kept] != packets[i] && packets[kept] as object != sizes && packets[i] as object != sizes
    requires Holds(packets, sizes, eps, i, p)
    modifies sizes, eps, packets[kept]
    ensures |p.bytes| <= packets[kept].Length ==> Holds(packets, sizes, eps, kept, p)
    ensures forall j | 0 <= j < sizes.Length && j != kept :: sizes[j] == old(sizes[j])
    ensures forall j | 0 <= j < eps.Length && j != kept :: eps[j] == old(eps[j])
  {
    CopyInto(packets[kept], packets[i][..sizes[i]]);
    sizes[kept] := sizes[i];
    eps[kept] := eps[i];
  }

  /** The loop's state before entry `i`: what is kept so far and what is still to come. */
  ghost predicate Compacting(packets: seq<array<byte>>, sizes: array<nat>, eps: array<Endpoint>,
                             batch: seq<Packet>, passed: seq<Packet>, i: nat)
    requires |batch| <= |packets| && |batch| <= sizes.Length && |batch| <= eps.Length && |passed| <= i <= |batch|
    reads sizes, eps, packets
  {
    && (forall j | i <= j < |batch| :: Holds(packets, sizes, eps, j, batch[j]))
    && (Roomy(packets, batch) ==> forall k | 0 <= k < |passed| :: Holds(packets, sizes, eps, k, passed[k]))
  }

  /** Keeps entry `i`, moving it down if there is a gap. */
  method Keep(packets: seq<array<byte>>, sizes: array<nat>, eps: array<Endpoint>, kept: nat, i: nat,
              ghost batch: seq<Packet>, ghost passed: seq<Packet>)
    requires |batch| == |packets| <= sizes.Length && |batch| <= eps.Length && Separate(packets, sizes)
    requires kept == |passed| <= i < |batch| && Compacting(packets, sizes, eps, batch, passed, i)
    modifies sizes, eps, packets[kept]
    ensures Compacting(packets, sizes, eps, batch, passed + [batch[i]], i + 1)
  {
    if kept != i {
      MoveDown(packets, sizes, eps, kept, i, batch[i]);
    }
  }

  method ReadPacket(packets: seq<array<byte>>, sizes: array<nat>, eps: array<Endpoint>, i: nat, ghost p: Packet)
    returns (pkt: seq<byte>)
    requires i < |packets| && i < sizes.Length && i < eps.Length && Holds(packets, sizes, eps, i, p)
    ensures Packet(pkt, eps[i]) == p
  {
    pkt := packets[i][..sizes[i]];
  }

  method Dispatch(pkt: seq<byte>, ep: Endpoint, hasHandler: bool) returns (calls: seq<(Message, Endpoint)>)
    ensures calls == Dispatched(Packet(pkt, ep), hasHandler)
  {
    var msg := Decode(pkt);
    if msg.None? || !hasHandler {
      return [];
    }
    calls := [(msg.value, ep)];
  }

  /** Distinct buffers, none of which is the array of sizes. */
  ghost predicate Separate(packets: seq<array<byte>>, sizes: array<nat>) {
    && (forall a, b | 0 <= a < b < |packets| :: packets[a] != packets[b])
    && (forall a | 0 <= a < |packets| :: packets[a] as object != sizes)
  }

  /** The loop's state before entry `i`, as a function of the batch. */
  ghost predicate Filtered(packets: seq<array<byte>>, sizes: array<nat>, eps: array<Endpoint>, batch: seq<Packet>,
                           kept: nat, i: nat)
    requires |batch| == |packets| <= sizes.Length && |batch| <= eps.Length && i <= |batch|
    reads sizes, eps, packets
  {
    kept == |Passed(batch[..i])| <= i && Compacting(packets, sizes, eps, batch, Passed(batch[..i]), i)
  }

  /** The loop's body: one packet, either handled or kept. */
  method Sort(packets: seq<array<byte>>, sizes: array<nat>, eps: array<Endpoint>, kept: nat, i: nat, hasHandler: bool,
              ghost batch: seq<Packet>)
    returns (next: nat, calls: seq<(Message, Endpoint)>)
    requires |batch| == |packets| <= sizes.Length && |batch| <= eps.Length && Separate(packets, sizes)
    requires i < |batch| && Filtered(packets, sizes, eps, batch, kept, i)
    modifies sizes, eps, packets[kept]
    ensures Filtered(packets, sizes, eps, batch, next, i + 1)
    ensures Delivered(batch[..i + 1], hasHandler) == Delivered(batch[..i], hasHandler) + calls
  {
    OneMore(batch, i, hasHandler);
    var pkt := ReadPacket(packets, sizes, eps, i, batch[i]);
    next, calls := kept, [];
    if IsDisco(pkt) {
      calls := Dispatch(pkt, eps[i], hasHandler);
    } else {
      Keep(packets, sizes, eps, kept, i, batch, Passed(batch[..i]));
      next := kept + 1;
    }
  }

  /** The loop over a batch that fills its buffers. */
  method Compact(packets: seq<array<byte>>, sizes: array<nat>, eps: array<Endpoint>, hasHandler: bool,
                 ghost batch: seq<Packet>)
    returns (kept: nat, handled: seq<(Message, Endpoint)>)
    requires |batch| == |packets| <= sizes.Length && |batch| <= eps.Length && Separate(packets, sizes)
    requires Filtered(packets, sizes, eps, batch, 0, 0)
    modifies sizes, eps, packets
    ensures Filtered(packets, sizes, eps, batch, kept, |batch|)
    ensures handled == Delivered(batch[..|batch|], hasHandler)
  {
    kept, handled := 0, [];
    for i := 0 to |packets|
      invariant Filtered(packets, sizes, eps, batch, kept, i)
      invariant handled == Delivered(batch[..i], hasHandler)
    {
      var calls;
      kept, calls := Sort(packets, sizes, eps, kept, i, hasHandler, batch);
      handled := handled + calls;
    }
  }

  /**
   Takes the disco packets out of a received batch of `n`, handing the well-formed ones to
   the handler and moving the rest down over the gaps, in place.
   */
  method Intercept(packets: seq<array<byte>>, sizes: array<nat>, eps: array<Endpoint>, n: nat, hasHandler: bool)
    returns (kept: nat, handled: seq<(Message, Endpoint)>)
    requires n <= |packets| && n <= sizes.Length && n <= eps.Length
    requires forall i | 0 <= i < n :: sizes[i] <= packets[i].Length
    requires forall i, j | 0 <= i < j < n :: packets[i] != packets[j]
    requires forall i | 0 <= i < n :: packets[i] as object != sizes
    modifies sizes, eps, packets[..n]
    ensures var batch := old(Batch(packets, sizes, eps, n));
      && kept == |Passed(batch)| <= n
      && (Roomy(packets, batch) ==> forall k | 0 <= k < kept :: Holds(packets, sizes, eps, k, Passed(batch)[k]))
      && handled == Delivered(batch, hasHandler)
  {
    ghost var batch := Batch(packets, sizes, eps, n);
    var used := packets[..n];
    assert batch[..0] == [] && batch[..n] == batch;
    assert Filtered(used, sizes, eps, batch, 0, 0);
    kept, handled := Compact(used, sizes, eps, hasHandler, batch);
    if Roomy(packets, batch) {
      assert Roomy(used, batch);
      forall k | 0 <= k < kept ensures Holds(packets, sizes, eps, k, Passed(batch)[k]) {
        assert Holds(used, sizes, eps, k, Passed(batch)[k]) && used[k] == packets[k];
      }
    }
  }
}
