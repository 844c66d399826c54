/**
 Which peers are present (client/internal/tunnel/tunnel.go): a peer that has moved the
 receive counter lately is there, one that has not is offline.
 */
module Presence {
  import opened Basics
  import P = PeerPaths

  const OBSERVE_INTERVAL: int := 2 * SECOND
  const KEEPALIVE: int := 25 * SECOND
  const PEER_SILENT_AFTER: int := 75 * SECOND

  /** What the observer reads and writes of a peer. `lastRxMove == None`: nothing has ever arrived. */
  datatype View = View(lastRx: nat, lastRxMove: Option<int>, path: P.Peer)

  const NEW_PEER: View := View(0, None, P.Peer(P.Connecting, None))

  predicate Present(v: View, now: int) {
    v.lastRxMove.Some? && now - v.lastRxMove.value < PEER_SILENT_AFTER
  }

  /** One peer of one pass, with what the receive counter reads. */
  function Observe(v: View, now: int, rx: nat): View {
    var v1 := if rx != v.lastRx then v.(lastRx := rx, lastRxMove := Some(now)) else v;
    v1.(path := v1.path.(mode := P.Observed(v1.path, Present(v1, now))))
  }

  /** One peer of one pass; a peer whose counter cannot be read is left alone. */
  function Passed(v: View, now: int, reading: Option<nat>): View {
    if reading.Some? then Observe(v, now, reading.value) else v
  }

  class Peer {
    var lastRx: nat
    var lastRxMove: Option<int>
    var mode: P.Mode
    var proxy: Option<nat>

    function Value(): View
      reads this
    {
      View(lastRx, lastRxMove, P.Peer(mode, proxy))
    }

    constructor ()
      ensures Value() == NEW_PEER
    {
      lastRx, lastRxMove, mode, proxy := 0, None, P.Connecting, None;
    }

    /** The locked section of a pass. */
    method Update(now: int, rx: nat)
      modifies this`lastRx, this`lastRxMove, this`mode
      ensures Value() == Observe(old(Value()), now, rx)
    {
      if rx != lastRx {
        lastRx := rx;
        lastRxMove := Some(now);
      }
      var present := lastRxMove.Some? && now - lastRxMove.value < PEER_SILENT_AFTER;
      if present && mode == P.Offline {
        if proxy.Some? {
          mode := P.Relay;
        } else {
          mode := P.Direct;
        }
      } else if !present && mode != P.Offline && mode != P.Connecting {
        mode := P.Offline;
      }
    }
  }

  /** One pass over the peers. */
  method ObservePeerModes(peers: seq<Peer>, now: int, readings: seq<Option<nat>>)
    requires |readings| == |peers|
    requires forall i, j | 0 <= i < j < |peers| :: peers[i] != peers[j]
    modifies peers
    ensures forall i | 0 <= i < |peers| :: peers[i].Value() == Passed(old(peers[i].Value()), now, readings[i])
  {
    for k := 0 to |peers|
      invariant forall i | 0 <= i < k :: peers[i].Value() == Passed(old(peers[i].Value()), now, readings[i])
      invariant forall i | k <= i < |peers| :: peers[i].Value() == old(peers[i].Value())
    {
      if readings[k].None? {
        continue;
      }
      peers[k].Update(now, readings[k].value);
    }
  }

  // ---------------------------------------------------------------- over whole runs

  /**
   A pass and what happened to the peer since the one before: negotiations may have set its
   mode and proxy any number of times, of which only the last counts.
   */
  datatype Round = Round(settled: Option<P.Peer>, now: int, reading: Option<nat>)

  function Settle(v: View, settled: Option<P.Peer>): View {
    if settled.Some? then v.(path := settled.value) else v
  }

  function After(rounds: seq<Round>): View {
    if rounds == [] then NEW_PEER
    else
      var r := rounds[|rounds| - 1];
      Passed(Settle(After(rounds[..|rounds| - 1]), r.settled), r.now, r.reading)
  }

  /** The last reading before round `k`, zero if there was none. */
  function Before(rounds: seq<Round>, k: nat): nat
    requires k <= |rounds|
  {
    if k == 0 then 0
    else if rounds[k - 1].reading.Some? then rounds[k - 1].reading.value
    else Before(rounds, k - 1)
  }

  /** The counter reads differently in round `k` than it did before. */
  predicate Moves(rounds: seq<Round>, k: nat)
    requires k < |rounds|
  {
    rounds[k].reading.Some? && rounds[k].reading.value != Before(rounds, k)
  }

  lemma {:induction false} BeforePrefix(rounds: seq<Round>, n: nat, k: nat)
    requires k <= n <= |rounds|
    ensures Before(rounds[..n], k) == Before(rounds, k)
  {
    if k > 0 {
      BeforePrefix(rounds, n, k - 1);
    }
  }

  lemma MovesPrefix(rounds: seq<Round>, n: nat, k: nat)
    requires k < n <= |rounds|
    ensures Moves(rounds[..n], k) <==> Moves(rounds, k)
  {
    BeforePrefix(rounds, n, k);
  }

  lemma {:induction false} LastReading(rounds: seq<Round>)
    ensures After(rounds).lastRx == Before(rounds, |rounds|)
  {
    if rounds != [] {
      LastReading(rounds[..|rounds| - 1]);
      BeforePrefix(rounds, |rounds| - 1, |rounds| - 1);
    }
  }

  lemma OneMoreRound(rounds: seq<Round>)
    requires rounds != []
    ensures After(rounds).lastRxMove == if Moves(rounds, |rounds| - 1) then Some(rounds[|rounds| - 1].now)
                                        else After(rounds[..|rounds| - 1]).lastRxMove
  {
    LastReading(rounds[..|rounds| - 1]);
    BeforePrefix(rounds, |rounds| - 1, |rounds| - 1);
  }

  ghost predicate Steady(rounds: seq<Round>, from: int) {
    forall j | 0 <= j < |rounds| && from < j :: !Moves(rounds, j)
  }

  /** Round k is the last one in which the counter moved. */
  ghost predicate LastMove(rounds: seq<Round>, k: int) {
    0 <= k < |rounds| && Moves(rounds, k) && Steady(rounds, k)
  }

  lemma SteadyPrefix(rounds: seq<Round>, n: nat, from: int)
    requires n <= |rounds| && Steady(rounds, from)
    ensures Steady(rounds[..n], from)
  {
    forall j | 0 <= j < n && from < j ensures !Moves(rounds[..n], j) {
      MovesPrefix(rounds, n, j);
    }
  }

  lemma {:induction false} NeverMoved(rounds: seq<Round>)
    requires Steady(rounds, -1)
    ensures After(rounds).lastRxMove == None
  {
    if rounds != [] {
      SteadyPrefix(rounds, |rounds| - 1, -1);
      NeverMoved(rounds[..|rounds| - 1]);
      OneMoreRound(rounds);
    }
  }

  lemma {:induction false} LastMoved(rounds: seq<Round>, k: int)
    requires LastMove(rounds, k)
    ensures After(rounds).lastRxMove == Some(rounds[k].now)
  {
    var n := |rounds| - 1;
    OneMoreRound(rounds);
    if k < n {
      MovesPrefix(rounds, n, k);
      SteadyPrefix(rounds, n, k);
      LastMoved(rounds[..n], k);
    }
  }

  /** `lastRxMove` is the time of the last pass whose reading differed from the one before it. */
  lemma MoveIsLastChange(rounds: seq<Round>)
    ensures After(rounds).lastRx == Before(rounds, |rounds|)
    ensures Steady(rounds, -1) ==> After(rounds).lastRxMove == None
    ensures forall k | LastMove(rounds, k) :: After(rounds).lastRxMove == Some(rounds[k].now)
  {
    LastReading(rounds);
    if Steady(rounds, -1) {
      NeverMoved(rounds);
    }
    forall k | LastMove(rounds, k) ensures After(rounds).lastRxMove == Some(rounds[k].now) {
      LastMoved(rounds, k);
    }
  }

  /** The path on which the last pass finds the peer. */
  function FoundOn(rounds: seq<Round>): P.Peer
    requires rounds != []
  {
    if rounds[|rounds| - 1].settled.Some? then rounds[|rounds| - 1].settled.value
    else After(rounds[..|rounds| - 1]).path
  }

  function Found(rounds: seq<Round>): P.Mode
    requires rounds != []
  {
    FoundOn(rounds).mode
  }

  /**
   After a pass that read the counter, a peer whose counter moved less than 75 seconds ago keeps its
   mode, or is back on the path it has if it was offline, and any other is offline unless connecting.
   Its proxy is left alone.
   */
  lemma PassDecides(rounds: seq<Round>)
    requires rounds != [] && rounds[|rounds| - 1].reading.Some?
    ensures var mode, moved := After(rounds).path.mode, After(rounds).lastRxMove;
      if moved.Some? && rounds[|rounds| - 1].now - moved.value < 75 * SECOND then
        mode == if Found(rounds) != P.Offline then Found(rounds)
                else if FoundOn(rounds).proxy.Some? then P.Relay else P.Direct
      else mode == if Found(rounds) == P.Connecting then P.Connecting else P.Offline
    ensures After(rounds).path.proxy == FoundOn(rounds).proxy
  {
  }

  /** Every pass reads the counter's true value at its time, and passes come at most an interval apart. */
  ghost predicate Sampled(rounds: seq<Round>, rx: int -> nat) {
    && (forall i | 0 <= i < |rounds| :: rounds[i].reading == Some(rx(rounds[i].now)))
    && (forall i | 0 < i < |rounds| :: rounds[i - 1].now <= rounds[i].now <= rounds[i - 1].now + OBSERVE_INTERVAL)
  }

  lemma {:induction false} SampledOrder(rounds: seq<Round>, rx: int -> nat, i: nat, j: nat)
    requires Sampled(rounds, rx) && i <= j < |rounds|
    ensures rounds[i].now <= rounds[j].now
  {
    if i < j {
      SampledOrder(rounds, rx, i, j - 1);
    }
  }

  lemma LastRound(rounds: seq<Round>, rx: int -> nat)
    requires rounds != [] && Sampled(rounds, rx)
    ensures var front, now := rounds[..|rounds| - 1], rounds[|rounds| - 1].now;
      && Sampled(front, rx)
      && After(rounds).lastRx == rx(now)
      && After(rounds).lastRxMove == if rx(now) != After(front).lastRx then Some(now) else After(front).lastRxMove
  {
  }

  /** The counter has read the same in every round since it last moved. */
  lemma {:induction false} SteadySinceMove(rounds: seq<Round>, rx: int -> nat) returns (m: nat)
    requires Sampled(rounds, rx) && After(rounds).lastRxMove.Some?
    ensures m < |rounds| && After(rounds).lastRxMove == Some(rounds[m].now)
    ensures forall i | m <= i < |rounds| :: rx(rounds[i].now) == After(rounds).lastRx
  {
    var n := |rounds| - 1;
    LastRound(rounds, rx);
    if rx(rounds[n].now) != After(rounds[..n]).lastRx {
      m := n;
    } else {
      m := SteadySinceMove(rounds[..n], rx);
      assert forall i | m <= i < n :: rounds[..n][i] == rounds[i];
    }
  }

  /**
   A peer whose counter moves at least every keepalive interval, from before the first pass on, is
   never left offline by a pass, once anything has arrived from it.
   */
  lemma KeepaliveStaysPresent(rounds: seq<Round>, rx: int -> nat, start: int)
    requires rounds != [] && Sampled(rounds, rx) && start <= rounds[0].now
    requires forall t, u | start <= t && t + KEEPALIVE <= u :: rx(t) < rx(u)
    requires After(rounds).lastRxMove.Some?
    ensures Present(After(rounds), rounds[|rounds| - 1].now)
    ensures After(rounds).path.mode != P.Offline
  {
    var m := SteadySinceMove(rounds, rx);
    SampledOrder(rounds, rx, 0, m);
    assert rx(rounds[m].now) == rx(rounds[|rounds| - 1].now);
    PassDecides(rounds);
  }

  /** Such counters and passes exist: one that counts the time, read twice. */
  lemma KeepaliveHappens() returns (rounds: seq<Round>, rx: int -> nat)
    ensures rounds != [] && Sampled(rounds, rx) && 0 <= rounds[0].now && After(rounds).lastRxMove.Some?
    ensures forall t, u | 0 <= t && t + KEEPALIVE <= u :: rx(t) < rx(u)
  {
    rx := t => if t < 0 then 0 else t;
    rounds := [Round(None, 1, Some(1))];
    LastRound(rounds, rx);
  }

  /** Once the counter has stopped, later passes do not move `lastRxMove`. */
  lemma {:induction false} StoppedNeverMoves(rounds: seq<Round>, rx: int -> nat, stopped: int, k: nat)
    requires Sampled(rounds, rx) && k < |rounds| && stopped <= rounds[k].now
    requires forall t | t >= stopped :: rx(t) == rx(stopped)
    ensures After(rounds).lastRx == rx(stopped)
    ensures After(rounds).lastRxMove.Some? ==> After(rounds).lastRxMove.value <= rounds[k].now
    decreases |rounds|
  {
    var n := |rounds| - 1;
    LastRound(rounds, rx);
    SampledOrder(rounds, rx, k, n);
    assert rx(rounds[n].now) == rx(stopped);
    if k < n {
      StoppedNeverMoves(rounds[..n], rx, stopped, k);
    } else {
      MovesInThePast(rounds, rx);
    }
  }

  lemma {:induction false} MovesInThePast(rounds: seq<Round>, rx: int -> nat)
    requires rounds != [] && Sampled(rounds, rx)
    ensures After(rounds).lastRxMove.Some? ==> After(rounds).lastRxMove.value <= rounds[|rounds| - 1].now
  {
    if After(rounds).lastRxMove.Some? {
      var m := SteadySinceMove(rounds, rx);
      SampledOrder(rounds, rx, m, |rounds| - 1);
    }
  }

  /** With passes an interval apart, some pass falls in every window that long. */
  lemma {:induction false} SomePassIn(rounds: seq<Round>, rx: int -> nat, from: int) returns (k: nat)
    requires rounds != [] && Sampled(rounds, rx)
    requires rounds[0].now <= from + OBSERVE_INTERVAL && from <= rounds[|rounds| - 1].now
    ensures k < |rounds| && from <= rounds[k].now <= from + OBSERVE_INTERVAL
  {
    var n := |rounds| - 1;
    if n == 0 || rounds[n - 1].now < from {
      k := n;
    } else {
      k := SomePassIn(rounds[..n], rx, from);
    }
  }

  /** Pass k leaves the peer offline, unless it finds it connecting. */
  predicate LeftOffline(rounds: seq<Round>, k: nat)
    requires k < |rounds|
  {
    After(rounds[..k + 1]).path.mode == if Found(rounds[..k + 1]) == P.Connecting then P.Connecting else P.Offline
  }

  /** A pass this long after a stopped counter's first steady reading finds the peer absent. */
  lemma SilentAt(rounds: seq<Round>, rx: int -> nat, stopped: int, first: nat)
    requires Sampled(rounds, rx) && first < |rounds| && stopped <= rounds[first].now
    requires forall t | t >= stopped :: rx(t) == rx(stopped)
    requires rounds[first].now + PEER_SILENT_AFTER <= rounds[|rounds| - 1].now
    ensures After(rounds).path.mode == if Found(rounds) == P.Connecting then P.Connecting else P.Offline
  {
    StoppedNeverMoves(rounds, rx, stopped, first);
    PassDecides(rounds);
  }

  /**
   Every pass from 77 seconds after a peer's counter stopped leaves it offline, unless it finds it
   connecting.
   */
  lemma StoppedStaysOffline(rounds: seq<Round>, rx: int -> nat, stopped: int, k: nat)
    requires Sampled(rounds, rx) && k < |rounds|
    requires forall t | t >= stopped :: rx(t) == rx(stopped)
    requires rounds[0].now <= stopped && stopped + 77 * SECOND <= rounds[k].now
    ensures LeftOffline(rounds, k)
  {
    var prefix := rounds[..k + 1];
    var first := SomePassIn(prefix, rx, stopped);
    SilentAt(prefix, rx, stopped, first);
  }

  /**
   A peer whose counter stops is offline, unless found connecting, by a pass within 79 seconds, the
   silence limit and one observation interval on either side, and after every pass from then on.
   */
  lemma StoppedGoesOffline(rounds: seq<Round>, rx: int -> nat, stopped: int) returns (first: nat)
    requires rounds != [] && Sampled(rounds, rx)
    requires forall t | t >= stopped :: rx(t) == rx(stopped)
    requires rounds[0].now <= stopped && stopped + 79 * SECOND <= rounds[|rounds| - 1].now
    ensures first < |rounds| && stopped < rounds[first].now <= stopped + 79 * SECOND
    ensures forall k | first <= k < |rounds| :: LeftOffline(rounds, k)
  {
    first := SomePassIn(rounds, rx, stopped + 77 * SECOND);
    forall k | first <= k < |rounds| ensures LeftOffline(rounds, k) {
      SampledOrder(rounds, rx, first, k);
      StoppedStaysOffline(rounds, rx, stopped, k);
    }
  }
}
