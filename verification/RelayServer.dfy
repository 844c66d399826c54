/**
 The relay's packet handler (relay/udprelay/server.go) as a state machine.

 One reader handles datagrams one after the other, but a DATA frame takes the
 table's lock twice and a KEEPALIVE takes it twice, so a janitor pass can run in
 between. A step is one locked section with the code around it.
 */
module RelayServer {
  import opened Basics
  import opened SessionTable
  import opened RelayFrames

  /**
   What a verified session token says. `device` is the identifier its text
   denotes, if it is the canonical text of one.
   */
  datatype Claims = Claims(device: Option<Uuid>, network: string, expiresAt: Option<int>)

  /** Where the reader stands between two locked sections. */
  datatype Reader =
    | Waiting
    | DataLooked(from: Addr, sender: Owner, peer: Uuid, payload: seq<byte>)
    | KeepaliveLooked(owner: Owner)

  datatype Counters = Counters(bytesRelayed: uint64, packetsRelayed: uint64, packetsDropped: uint64)

  /** A datagram the node forwarded: from where, to where, and as whom. */
  datatype Forwarded = Forwarded(from: Addr, dest: Addr, frame: seq<byte>, sender: Owner, peer: Uuid)

  /**
   The node: its table, its reader and its counters, and the record of the run so
   far (accepted BINDs, forwarded datagrams, and how many datagrams met each fate).
   */
  datatype Node = Node(
    table: Table,
    reader: Reader,
    counters: Counters,
    history: seq<Accepted>,
    sent: seq<Forwarded>,
    handled: nat,
    drops: nat,
    keepalives: nat)

  const START: Node := Node(EMPTY, Waiting, Counters(0, 0, 0), [], [], 0, 0, 0)

  /** `verdict` is what the token verifier answers about the token in the frame. */
  datatype Step =
    | Receive(frame: seq<byte>, from: Addr, verdict: Option<Claims>, now: int)
    | FinishData(now: int, written: bool)
    | FinishKeepalive(now: int)
    | Janitor(now: int)

  function Dropped(n: Node): Node {
    n.(reader := Waiting,
       drops := n.drops + 1,
       counters := n.counters.(packetsDropped := (n.counters.packetsDropped + 1) % TWO_64))
  }

  function Relayed(n: Node, f: Forwarded): Node {
    n.(reader := Waiting,
       sent := n.sent + [f],
       counters := n.counters.(bytesRelayed := (n.counters.bytesRelayed + |f.frame|) % TWO_64,
                               packetsRelayed := (n.counters.packetsRelayed + 1) % TWO_64))
  }

  function HandleBind(n: Node, limits: Limits, frame: seq<byte>, from: Addr, verdict: Option<Claims>, now: int): Node {
    var decoded := DecodeBind(frame);
    if decoded.None? || verdict.None? || verdict.value.device != Some(decoded.value.0) then Dropped(n)
    else
      var o := Owner(verdict.value.network, decoded.value.0);
      if !HasRoom(n.table, limits, o.network) then Dropped(n)
      else n.(table := Bind(n.table, o, from, verdict.value.expiresAt, now),
              history := n.history + [Accepted(o, from, verdict.value.expiresAt)])
  }

  function HandleDataLookup(n: Node, frame: seq<byte>, from: Addr): Node {
    var owner, decoded := Lookup(n.table, from), DecodeData(frame);
    if owner.None? || decoded.None? then Dropped(n)
    else n.(reader := DataLooked(from, owner.value, decoded.value.0, decoded.value.1))
  }

  function HandleKeepaliveLookup(n: Node, from: Addr): Node {
    var owner := Lookup(n.table, from);
    if owner.None? then Dropped(n) else n.(reader := KeepaliveLooked(owner.value))
  }

  function HandlePacket(n: Node, limits: Limits, frame: seq<byte>, from: Addr, verdict: Option<Claims>, now: int): Node
    requires frame != []
  {
    if frame[0] == FRAME_BIND then HandleBind(n, limits, frame, from, verdict, now)
    else if frame[0] == FRAME_DATA then HandleDataLookup(n, frame, from)
    else if frame[0] == FRAME_KEEPALIVE then HandleKeepaliveLookup(n, from)
    else Dropped(n)
  }

  function HandleDataRoute(n: Node, now: int, written: bool): Node
    requires n.reader.DataLooked?
  {
    var r := n.reader;
    var (table, dest) := Route(n.table, r.sender, r.peer, now);
    var n1 := n.(table := table);
    if dest.None? || !written then Dropped(n1)
    else Relayed(n1, Forwarded(r.from, dest.value, Layout(FRAME_DATA, r.sender.device, r.payload), r.sender, r.peer))
  }

  /** One step; a step that is not enabled changes nothing. Empty datagrams are ignored. */
  function Next(n: Node, limits: Limits, step: Step): Node {
    match step
    case Receive(frame, from, verdict, now) =>
      if !n.reader.Waiting? || frame == [] then n
      else HandlePacket(n.(handled := n.handled + 1), limits, frame, from, verdict, now)
    case FinishData(now, written) =>
      if n.reader.DataLooked? then HandleDataRoute(n, now, written) else n
    case FinishKeepalive(now) =>
      if n.reader.KeepaliveLooked?
      then n.(reader := Waiting, table := Touch(n.table, n.reader.owner, now), keepalives := n.keepalives + 1) else n
    case Janitor(now) => n.(table := Evict(n.table, limits.idleTimeout, now))
  }

  function Resume(n: Node, limits: Limits, steps: seq<Step>): Node {
    if steps == [] then n
    else Next(Resume(n, limits, steps[..|steps| - 1]), limits, steps[|steps| - 1])
  }

  /** The node after any run of steps, from start-up. */
  function Run(limits: Limits, steps: seq<Step>): Node {
    Resume(START, limits, steps)
  }

  // ---------------------------------------------------------- what a frame does

  /**
   A datagram binds its sender exactly when it is a BIND, laid out for a device, with a verified
   token for that device, and the network has a session or there is room for one. Then the device is
   bound where the datagram came from, until its token expires.
   */
  lemma BindIff(n: Node, limits: Limits, frame: seq<byte>, from: Addr, verdict: Option<Claims>, now: int)
    requires n.reader.Waiting? && frame != []
    ensures var n' := Next(n, limits, Receive(frame, from, verdict, now));
      && (|n'.history| > |n.history| <==>
            (exists device, token :: frame == Layout(FRAME_BIND, device, token)
               && verdict.Some? && verdict.value.device == Some(device)
               && (verdict.value.network in n.table.sessions || limits.maxSessions <= 0
                   || |n.table.sessions| < limits.maxSessions)))
      && (|n'.history| > |n.history| ==>
            && verdict.Some? && verdict.value.device.Some?
            && var o := Owner(verdict.value.network, verdict.value.device.value);
            && n'.table == Bind(n.table, o, from, verdict.value.expiresAt, now)
            && n'.history == n.history + [Accepted(o, from, verdict.value.expiresAt)])
      && (|n'.history| <= |n.history| ==> n'.table == n.table && n'.history == n.history)
  {
    if DecodeBind(frame).Some? {
      var (device, token) := DecodeBind(frame).value;
      DecodeInvertsLayout(FRAME_BIND, frame, device, token);
    }
    forall device, token | frame == Layout(FRAME_BIND, device, token)
      ensures frame[0] == FRAME_BIND && DecodeBind(frame) == Some((device, token))
    {
      DecodeInvertsLayout(FRAME_BIND, frame, device, token);
    }
  }

  /**
   Any other datagram waits for its second section exactly when it is a KEEPALIVE, or a DATA frame
   laid out for a peer, from an address in the index; all the rest are dropped.
   */
  lemma LooksUpIff(n: Node, limits: Limits, frame: seq<byte>, from: Addr, verdict: Option<Claims>, now: int)
    requires n.reader.Waiting? && frame != [] && frame[0] != FRAME_BIND
    ensures var n', o := Next(n, limits, Receive(frame, from, verdict, now)), Lookup(n.table, from);
      && (n'.reader.KeepaliveLooked? <==> frame[0] == FRAME_KEEPALIVE && o.Some?)
      && (n'.reader.KeepaliveLooked? ==> n'.reader.owner == o.value)
      && (n'.reader.DataLooked? <==> o.Some? && exists peer, payload :: frame == Layout(FRAME_DATA, peer, payload))
      && (n'.reader.DataLooked? ==>
            && n'.reader.from == from && n'.reader.sender == o.value
            && frame == Layout(FRAME_DATA, n'.reader.peer, n'.reader.payload))
      && n'.drops == n.drops + (if n'.reader.Waiting? then 1 else 0)
      && n'.table == n.table && n'.history == n.history && n'.sent == n.sent
  {
    if DecodeData(frame).Some? {
      var (peer, payload) := DecodeData(frame).value;
      DecodeInvertsLayout(FRAME_DATA, frame, peer, payload);
    }
    forall peer, payload | frame == Layout(FRAME_DATA, peer, payload)
      ensures frame[0] == FRAME_DATA && DecodeData(frame) == Some((peer, payload))
    {
      DecodeInvertsLayout(FRAME_DATA, frame, peer, payload);
    }
  }

  lemma {:induction false} ResumeConcat(n: Node, limits: Limits, a: seq<Step>, b: seq<Step>)
    ensures Resume(n, limits, a + b) == Resume(Resume(n, limits, a), limits, b)
  {
    if b == [] {
      assert a + b == a;
    } else {
      var front := b[..|b| - 1];
      assert (a + b)[..|a + b| - 1] == a + front;
      ResumeConcat(n, limits, a, front);
    }
  }

  // ------------------------------------------------------------------- invariant

  /** A device looked up from an address is either still bound exactly there or no longer bound at all. */
  ghost predicate LookupFresh(n: Node) {
    n.reader.DataLooked? ==>
      && (Bound(n.table, n.reader.sender) ==> At(n.table, n.reader.sender).addr == n.reader.from)
      && LastFrom(n.history, n.reader.from) == Some(n.reader.sender)
  }

  function Pending(r: Reader): nat {
    if r.Waiting? then 0 else 1
  }

  function TotalBytes(sent: seq<Forwarded>): nat {
    if sent == [] then 0 else TotalBytes(sent[..|sent| - 1]) + |sent[|sent| - 1].frame|
  }

  ghost predicate Accounts(n: Node, pending: nat) {
    && n.handled == |n.sent| + n.drops + |n.history| + n.keepalives + pending
    && n.counters.packetsRelayed == |n.sent| % TWO_64
    && n.counters.packetsDropped == n.drops % TWO_64
    && n.counters.bytesRelayed == TotalBytes(n.sent) % TWO_64
  }

  /** Every datagram met exactly one fate, and the exported counters show it modulo 2^64. */
  ghost predicate Balanced(n: Node) {
    Accounts(n, Pending(n.reader))
  }

  ghost predicate Invariant(n: Node) {
    Sound(n.table, n.history) && LookupFresh(n) && Balanced(n)
  }

  lemma ReceiveKeepsSound(n: Node, limits: Limits, frame: seq<byte>, from: Addr, verdict: Option<Claims>, now: int)
    requires frame != [] && n.reader.Waiting? && Sound(n.table, n.history)
    ensures var n' := HandlePacket(n, limits, frame, from, verdict, now); Sound(n'.table, n'.history) && LookupFresh(n')
  {
    if frame[0] == FRAME_BIND {
      if DecodeBind(frame).Some? && verdict.Some? {
        var o := Owner(verdict.value.network, DecodeBind(frame).value.0);
        BindKeepsSound(n.table, n.history, o, from, verdict.value.expiresAt, now);
      }
    } else if frame[0] == FRAME_DATA && from in n.table.index && DecodeData(frame).Some? {
      assert EntryGood(n.table, n.history, from);
    }
  }

  lemma FinishDataKeepsSound(n: Node, now: int, written: bool)
    requires n.reader.DataLooked? && Sound(n.table, n.history)
    ensures var n' := HandleDataRoute(n, now, written); Sound(n'.table, n'.history) && LookupFresh(n')
  {
    RouteKeepsSound(n.table, n.history, n.reader.sender, n.reader.peer, now);
  }

  lemma JanitorKeepsSound(n: Node, limits: Limits, now: int)
    requires Sound(n.table, n.history) && LookupFresh(n)
    ensures var n' := Next(n, limits, Janitor(now)); Sound(n'.table, n'.history) && LookupFresh(n')
  {
    EvictKeepsSound(n.table, n.history, limits.idleTimeout, now);
    EvictEffect(n.table, limits.idleTimeout, now);
  }

  lemma DroppedBalances(n: Node)
    requires Accounts(n, 1)
    ensures Balanced(Dropped(n))
  {
  }

  lemma RelayedBalances(n: Node, f: Forwarded)
    requires Accounts(n, 1)
    ensures Balanced(Relayed(n, f))
  {
    assert (n.sent + [f])[..|n.sent|] == n.sent;
    ModAdd(|n.sent|, 1);
    ModAdd(TotalBytes(n.sent), |f.frame|);
  }

  lemma ModAdd(a: nat, b: nat)
    ensures (a % TWO_64 + b) % TWO_64 == (a + b) % TWO_64
  {
  }

  lemma NextBalances(n: Node, limits: Limits, step: Step)
    requires Balanced(n)
    ensures Balanced(Next(n, limits, step))
  {
    match step
    case Receive(frame, from, verdict, now) =>
      if n.reader.Waiting? && frame != [] {
        DroppedBalances(n.(handled := n.handled + 1));
      }
    case FinishData(now, written) =>
      if n.reader.DataLooked? {
        var r := n.reader;
        var (table, dest) := Route(n.table, r.sender, r.peer, now);
        DroppedBalances(n.(table := table));
        if dest.Some? {
          var frame := Layout(FRAME_DATA, r.sender.device, r.payload);
          RelayedBalances(n.(table := table), Forwarded(r.from, dest.value, frame, r.sender, r.peer));
        }
      }
    case _ =>
  }

  lemma NextKeepsInvariant(n: Node, limits: Limits, step: Step)
    requires Invariant(n)
    ensures Invariant(Next(n, limits, step))
  {
    NextBalances(n, limits, step);
    match step
    case Receive(frame, from, verdict, now) =>
      if n.reader.Waiting? && frame != [] {
        ReceiveKeepsSound(n.(handled := n.handled + 1), limits, frame, from, verdict, now);
      }
    case FinishData(now, written) =>
      if n.reader.DataLooked? {
        FinishDataKeepsSound(n, now, written);
      }
    case FinishKeepalive(now) =>
      if n.reader.KeepaliveLooked? {
        TouchKeepsSound(n.table, n.history, n.reader.owner, now);
      }
    case Janitor(now) => JanitorKeepsSound(n, limits, now);
  }

  lemma {:induction false} RunKeepsInvariant(limits: Limits, steps: seq<Step>)
    ensures Invariant(Run(limits, steps))
  {
    if steps != [] {
      RunKeepsInvariant(limits, steps[..|steps| - 1]);
      NextKeepsInvariant(Run(limits, steps[..|steps| - 1]), limits, steps[|steps| - 1]);
    }
  }

  // ---------------------------------------------------------- forwarding is safe

  /** The run received a BIND from this address, for this device, whose verified token says exactly this. */
  ghost predicate Vouched(steps: seq<Step>, a: Accepted) {
    exists j :: 0 <= j < |steps| && steps[j].Receive? && steps[j].from == a.addr
      && DecodeBind(steps[j].frame).Some? && DecodeBind(steps[j].frame).value.0 == a.owner.device
      && steps[j].verdict == Some(Claims(Some(a.owner.device), a.owner.network, a.expiresAt))
  }

  ghost predicate Received(steps: seq<Step>, from: Addr, peer: Uuid, payload: seq<byte>) {
    exists j :: 0 <= j < |steps| && steps[j].Receive? && steps[j].from == from
      && steps[j].frame == Layout(FRAME_DATA, peer, payload)
  }

  /** What the node remembers was really received. */
  ghost predicate Grounded(n: Node, steps: seq<Step>) {
    && (forall i | 0 <= i < |n.history| :: Vouched(steps, n.history[i]))
    && (n.reader.DataLooked? ==> Received(steps, n.reader.from, n.reader.peer, n.reader.payload))
  }

  lemma {:induction false} RunIsGrounded(limits: Limits, steps: seq<Step>)
    ensures Grounded(Run(limits, steps), steps)
  {
    if steps != [] {
      var front, step := steps[..|steps| - 1], steps[|steps| - 1];
      var n := Run(limits, front);
      RunIsGrounded(limits, front);
      assert steps[|steps| - 1] == step;
      assert forall a | Vouched(front, a) :: Vouched(steps, a);
      assert forall from, peer, payload | Received(front, from, peer, payload) :: Received(steps, from, peer, payload);
      if step.Receive? && n.reader.Waiting? && step.frame != [] && step.frame[0] == FRAME_DATA
         && DecodeData(step.frame).Some? {
        var (peer, payload) := DecodeData(step.frame).value;
        DecodeInvertsLayout(FRAME_DATA, step.frame, peer, payload);
        assert Received(steps, step.from, peer, payload);
      }
    }
  }

  lemma LastOfIsInHistory(h: seq<Accepted>, o: Owner)
    requires LastOf(h, o).Some?
    ensures LastOf(h, o).value in h && LastOf(h, o).value.owner == o
  {
  }

  /**
   The device is bound at this address when the clock reads `now`, on the strength
   of a verified token that names it and its network and has not expired.
   */
  ghost predicate Live(n: Node, steps: seq<Step>, o: Owner, addr: Addr, now: int) {
    && Bound(n.table, o)
    && At(n.table, o).addr == addr
    && !Expired(At(n.table, o), now)
    && LastOf(n.history, o) == Some(Accepted(o, addr, At(n.table, o).expiresAt))
    && Vouched(steps, Accepted(o, addr, At(n.table, o).expiresAt))
  }

  lemma BoundIsLive(n: Node, steps: seq<Step>, o: Owner, now: int)
    requires Sound(n.table, n.history) && Grounded(n, steps)
    requires Bound(n.table, o) && !Expired(At(n.table, o), now)
    ensures Live(n, steps, o, At(n.table, o).addr, now)
  {
    LastOfIsInHistory(n.history, o);
  }

  /** Step `k` of the run forwards `f`, and rightly so. */
  ghost predicate Authentic(limits: Limits, steps: seq<Step>, k: nat, f: Forwarded) {
    k < |steps| && steps[k].FinishData? && (
      var before, n, now := steps[..k], Run(limits, steps[..k]), steps[k].now;
      && Live(n, before, f.sender, f.from, now)
      && Live(n, before, Owner(f.sender.network, f.peer), f.dest, now)
      && LastFrom(n.history, f.from) == Some(f.sender)
      && exists payload :: f.frame == Layout(FRAME_DATA, f.sender.device, payload)
                           && Received(before, f.from, f.peer, payload))
  }

  lemma ForwardIsAuthentic(limits: Limits, before: seq<Step>, now: int)
    requires var n := Run(limits, before);
      n.reader.DataLooked? && Route(n.table, n.reader.sender, n.reader.peer, now).1.Some?
    ensures var n := Run(limits, before);
      var n' := Next(n, limits, FinishData(now, true));
      |n'.sent| == |n.sent| + 1
      && Authentic(limits, before + [FinishData(now, true)], |before|, n'.sent[|n.sent|])
  {
    var n := Run(limits, before);
    RunKeepsInvariant(limits, before);
    RunIsGrounded(limits, before);
    assert (before + [FinishData(now, true)])[..|before|] == before;
    RefreshEffect(n.table, n.reader.sender, now);
    BoundIsLive(n, before, n.reader.sender, now);
    BoundIsLive(n, before, Owner(n.reader.sender.network, n.reader.peer), now);
  }

  lemma AuthenticStays(limits: Limits, front: seq<Step>, step: Step, k: nat, f: Forwarded)
    requires Authentic(limits, front, k, f)
    ensures Authentic(limits, front + [step], k, f)
  {
    assert front[..k] == (front + [step])[..k];
  }

  /**
   A step sends nothing, or one more datagram: exactly when it finishes a DATA frame whose route is
   answered and whose datagram is written. A frame that is finished and not sent is dropped.
   */
  lemma SentGrows(n: Node, limits: Limits, step: Step)
    ensures n.sent <= Next(n, limits, step).sent && |Next(n, limits, step).sent| <= |n.sent| + 1
    ensures |Next(n, limits, step).sent| > |n.sent| <==>
      (step.FinishData? && step.written && n.reader.DataLooked?
       && Route(n.table, n.reader.sender, n.reader.peer, step.now).1.Some?)
    ensures step.FinishData? && n.reader.DataLooked? ==>
      var n' := Next(n, limits, step);
      && n'.reader.Waiting? && n'.table == Route(n.table, n.reader.sender, n.reader.peer, step.now).0
      && n'.drops == n.drops + (if |n'.sent| > |n.sent| then 0 else 1)
  {
  }

  /**
   In every run, whatever janitor passes slip in between the two locked sections of
   a DATA frame, each forwarded datagram came from the address of the live binding
   of the device stamped on it, and goes to a live binding in the same network.
   */
  lemma {:induction false} EveryForwardIsAuthentic(limits: Limits, steps: seq<Step>, i: nat)
    requires i < |Run(limits, steps).sent|
    ensures exists k: nat :: Authentic(limits, steps, k, Run(limits, steps).sent[i])
  {
    var front, step := steps[..|steps| - 1], steps[|steps| - 1];
    assert front + [step] == steps;
    var n := Run(limits, front);
    SentGrows(n, limits, step);
    if i < |n.sent| {
      EveryForwardIsAuthentic(limits, front, i);
      var k: nat :| Authentic(limits, front, k, n.sent[i]);
      AuthenticStays(limits, front, step, k, n.sent[i]);
    } else {
      ForwardIsAuthentic(limits, front, step.now);
    }
  }

  /** The accounting identity, in the exported counters' own arithmetic. */
  lemma CountersAddUp(limits: Limits, steps: seq<Step>)
    ensures var n := Run(limits, steps);
      && n.handled % TWO_64 == (n.counters.packetsRelayed + n.counters.packetsDropped
                                + |n.history| + n.keepalives + Pending(n.reader)) % TWO_64
      && n.counters.bytesRelayed == TotalBytes(n.sent) % TWO_64
  {
    RunKeepsInvariant(limits, steps);
    var n := Run(limits, steps);
    var rest := |n.history| + n.keepalives + Pending(n.reader);
    ModAdd(|n.sent|, n.drops % TWO_64 + rest);
    ModAdd(n.drops, |n.sent| + rest);
  }

  // ---------------------------------------------------------- the table's own run

  /** The locked section of the table that a step goes through, if any. */
  function EventOf(n: Node, step: Step): Option<Event> {
    match step
    case Receive(frame, from, verdict, now) =>
      if n.reader.Waiting? && frame != [] && frame[0] == FRAME_BIND && DecodeBind(frame).Some? && verdict.Some?
         && verdict.value.device == Some(DecodeBind(frame).value.0)
      then Some(BindEvent(Owner(verdict.value.network, DecodeBind(frame).value.0), from, verdict.value.expiresAt, now))
      else None
    case FinishData(now, _) =>
      if n.reader.DataLooked? then Some(RouteEvent(n.reader.sender, n.reader.peer, now)) else None
    case FinishKeepalive(now) => if n.reader.KeepaliveLooked? then Some(TouchEvent(n.reader.owner, now)) else None
    case Janitor(now) => Some(EvictEvent(now))
  }

  /** The run of the table inside a run of the relay. */
  function Events(limits: Limits, steps: seq<Step>): seq<Event> {
    if steps == [] then []
    else
      var front := steps[..|steps| - 1];
      var e := EventOf(Run(limits, front), steps[|steps| - 1]);
      Events(limits, front) + if e.Some? then [e.value] else []
  }

  lemma StepIsEvent(n: Node, limits: Limits, step: Step)
    ensures var e, n' := EventOf(n, step), Next(n, limits, step);
      if e.None? then n'.table == n.table && n'.history == n.history
      else
        && n'.table == Apply(n.table, limits, e.value)
        && n'.history == if Accepts(n.table, limits, e.value)
                         then n.history + [Accepted(e.value.owner, e.value.addr, e.value.expiresAt)] else n.history
  {
  }

  /** The relay's table and history are those of its table's own run. */
  lemma {:induction false} RunIsReplay(limits: Limits, steps: seq<Step>)
    ensures Run(limits, steps).table == Replay(limits, Events(limits, steps))
    ensures Run(limits, steps).history == History(limits, Events(limits, steps))
  {
    if steps != [] {
      var front, step := steps[..|steps| - 1], steps[|steps| - 1];
      RunIsReplay(limits, front);
      StepIsEvent(Run(limits, front), limits, step);
      var e := EventOf(Run(limits, front), step);
      if e.Some? {
        assert (Events(limits, front) + [e.value])[..|Events(limits, front)|] == Events(limits, front);
      } else {
        assert Events(limits, front) + [] == Events(limits, front);
      }
    }
  }

  /** A step whose clock reads between the two, and which does not bind the device with a shorter token. */
  predicate StepWithin(step: Step, o: Owner, since: int, until: int) {
    && since <= step.now <= until
    && (step.Receive? && step.verdict.Some? && step.verdict.value.device == Some(o.device)
        && step.verdict.value.network == o.network ==>
          step.verdict.value.expiresAt.None? || until <= step.verdict.value.expiresAt.value)
  }

  lemma {:induction false} RunKeepsAlive(n: Node, limits: Limits, steps: seq<Step>, o: Owner, since: int, until: int)
    requires Alive(n.table, o, since, until) && until - since <= limits.idleTimeout
    requires forall s | s in steps :: StepWithin(s, o, since, until)
    ensures Alive(Resume(n, limits, steps).table, o, since, until)
  {
    if steps != [] {
      var front, step := steps[..|steps| - 1], steps[|steps| - 1];
      assert StepWithin(step, o, since, until);
      RunKeepsAlive(n, limits, front, o, since, until);
      var m := Resume(n, limits, front);
      StepIsEvent(m, limits, step);
      if EventOf(m, step).Some? {
        EventKeepsAlive(m.table, limits, EventOf(m, step).value, o, since, until);
      }
    }
  }

  /**
   A keepalive keeps its device: once handled at `now`, the device stays bound through whatever
   datagrams and janitor passes follow, for as long as the idle timeout and its token last.
   */
  lemma KeepaliveHolds(n: Node, limits: Limits, frame: seq<byte>, from: Addr, verdict: Option<Claims>, at: int,
                       now: int, more: seq<Step>, o: Owner, until: int)
    requires n.reader.Waiting? && frame != [] && frame[0] == FRAME_KEEPALIVE && Lookup(n.table, from) == Some(o)
    requires Bound(n.table, o) && (At(n.table, o).expiresAt.None? || until <= At(n.table, o).expiresAt.value)
    requires until - now <= limits.idleTimeout && forall s | s in more :: StepWithin(s, o, now, until)
    ensures Bound(Resume(n, limits, [Receive(frame, from, verdict, at), FinishKeepalive(now)] + more).table, o)
  {
    var first, second := Receive(frame, from, verdict, at), FinishKeepalive(now);
    LooksUpIff(n, limits, frame, from, verdict, at);
    var n1 := Next(n, limits, first);
    var n2 := Next(n1, limits, second);
    TouchEffect(n1.table, o, now);
    assert Alive(n2.table, o, now, until);
    assert [first, second][..1] == [first] && [first][..0] == [];
    assert Resume(n, limits, [first]) == n1 && Resume(n, limits, [first, second]) == n2;
    ResumeConcat(n, limits, [first, second], more);
    RunKeepsAlive(n2, limits, more, o, now, until);
  }

  /** The index is the exact inverse of the bindings after every step of the run. */
  ghost predicate AlwaysExact(limits: Limits, steps: seq<Step>) {
    Exact(Run(limits, steps).table) && (steps == [] || AlwaysExact(limits, steps[..|steps| - 1]))
  }

  lemma {:induction false} AlwaysExactIsThroughout(limits: Limits, steps: seq<Step>)
    ensures AlwaysExact(limits, steps) <==> ExactThroughout(limits, Events(limits, steps))
  {
    RunIsReplay(limits, steps);
    if steps != [] {
      var front := steps[..|steps| - 1];
      AlwaysExactIsThroughout(limits, front);
      var e := EventOf(Run(limits, front), steps[|steps| - 1]);
      if e.Some? {
        assert (Events(limits, front) + [e.value])[..|Events(limits, front)|] == Events(limits, front);
      } else {
        assert Events(limits, front) + [] == Events(limits, front);
      }
    }
  }

  /**
   In every run of the relay the index is the exact inverse of the bindings throughout if and only
   if no BIND it accepts reuses an address on record for another device.
   */
  lemma RunIsExactIff(limits: Limits, steps: seq<Step>)
    ensures AlwaysExact(limits, steps) <==> !ReusesSomewhere(limits, Events(limits, steps))
  {
    AlwaysExactIsThroughout(limits, steps);
    ExactThroughoutIff(limits, Events(limits, steps));
  }

  /** With a cap set, the node never holds more sessions than the cap. */
  lemma RunRespectsCapacity(limits: Limits, steps: seq<Step>)
    requires limits.maxSessions > 0
    ensures |Run(limits, steps).table.sessions| <= limits.maxSessions
  {
    RunIsReplay(limits, steps);
    CapacityRespected(limits, Events(limits, steps));
  }
}
