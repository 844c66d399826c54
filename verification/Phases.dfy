/**
 The tunnel's connection phase (client/internal/tunnel/state.go) over the life of a
 tunnel (client/internal/tunnel/tunnel.go).
 */
module Phases {
  import opened Basics
  import P = PeerPaths

  datatype Phase = Idle | Handshaking | Active | Dropped

  predicate Reachable(exit: Uuid, peers: map<Uuid, P.Mode>) {
    exit in peers && (peers[exit] == P.Direct || peers[exit] == P.Relay)
  }

  /** The phase a health observation leaves, with `exit` the peer carrying the default route. */
  function Observed(phase: Phase, exit: Option<Uuid>, peers: map<Uuid, P.Mode>): Phase {
    if exit.None? then (if phase == Handshaking then Active else phase)
    else if Reachable(exit.value, peers) then Active
    else if phase == Active then Dropped
    else phase
  }

  class Status {
    var state: Phase
    var activeSince: int
    /** Every phase the tunnel has been in, in order, and when each was entered. */
    ghost var log: seq<Phase>
    ghost var times: seq<int>

    ghost predicate Valid()
      reads this
    {
      && log != [] && log[|log| - 1] == state && |times| == |log|
      && (state == Active ==> activeSince == times[|log| - 1])
    }

    constructor ()
      ensures Valid() && state == Idle && log == [Idle]
    {
      state, activeSince, log, times := Idle, 0, [Idle], [0];
    }

    method SetState(next: Phase, now: int)
      requires Valid()
      modifies this
      ensures Valid() && state == next && log == Entered(old(log), next)
      ensures times == if log == old(log) then old(times) else old(times) + [now]
    {
      if state == next {
        return;
      }
      state := next;
      log, times := log + [next], times + [now];
      if next == Active {
        activeSince := now;
      }
    }

    /** When the phase the tunnel is in was entered, if that phase is Active; nothing observed since has changed it. */
    method ActiveSince() returns (since: Option<int>)
      requires Valid()
      ensures since.Some? <==> log[|log| - 1] == Active
      ensures since.Some? ==> since.value == times[|log| - 1]
    {
      since := if state == Active then Some(activeSince) else None;
    }

    /** `order` is the order in which the peers are visited. */
    method ObserveHealth(exit: Option<Uuid>, peers: map<Uuid, P.Mode>, order: seq<Uuid>, now: int)
      requires Valid() && (forall d :: d in order <==> d in peers)
      modifies this
      ensures Valid() && log == Entered(old(log), Observed(old(state), exit, peers))
      ensures exit.Some? && exit.value in peers && (peers[exit.value] == P.Direct || peers[exit.value] == P.Relay) ==>
        state == Active
      ensures exit.Some? && (exit.value in peers ==>
                              peers[exit.value] == P.Connecting || peers[exit.value] == P.Offline) ==>
        state == if old(state) == Active then Dropped else old(state)
      ensures exit.None? ==> state == if old(state) == Handshaking then Active else old(state)
      ensures times == if log == old(log) then old(times) else old(times) + [now]
    {
      if exit.None? {
        if state == Handshaking {
          SetState(Active, now);
        }
        return;
      }
      if |order| == 0 {
        if state == Active {
          SetState(Dropped, now);
        }
        return;
      }
      var reachable := false;
      for i := 0 to |order|
        invariant !reachable && exit.value !in order[..i]
      {
        if order[i] != exit.value {
          continue;
        }
        if peers[order[i]] == P.Direct || peers[order[i]] == P.Relay {
          reachable := true;
        }
        break;
      }
      assert order[..|order|] == order;
      if reachable {
        SetState(Active, now);
      } else if state == Active {
        SetState(Dropped, now);
      }
    }
  }

  /** The log once a phase has been set: setting the current phase again is no transition. */
  function Entered(log: seq<Phase>, next: Phase): seq<Phase> {
    if log != [] && log[|log| - 1] == next then log else log + [next]
  }

  // ---------------------------------------------------------------- over whole runs

  /** Where `Start` is: it runs at most once, and only it runs the monitor. */
  datatype Stage = Before | Running | Over

  datatype Life = Life(stage: Stage, log: seq<Phase>)

  const BORN: Life := Life(Before, [Idle])

  datatype Step =
    | Start
    | RegisterFailed
    | Observe(exit: Option<Uuid>, peers: map<Uuid, P.Mode>)
    | Stop

  function Current(l: Life): Phase {
    if l.log == [] then Idle else l.log[|l.log| - 1]
  }

  /** One step; the monitor observes only while the tunnel runs, and a second start is refused. */
  function Next(l: Life, step: Step): Life {
    match step
    case Start => if l.stage == Before then Life(Running, Entered(l.log, Handshaking)) else l
    case RegisterFailed => if l.stage == Running && Current(l) == Handshaking then l.(stage := Over) else l
    case Observe(exit, peers) =>
      if l.stage == Running then l.(log := Entered(l.log, Observed(Current(l), exit, peers))) else l
    case Stop => if l.stage == Running then Life(Over, Entered(l.log, Idle)) else l
  }

  function Run(steps: seq<Step>): Life {
    if steps == [] then BORN else Next(Run(steps[..|steps| - 1]), steps[|steps| - 1])
  }

  /** From one phase to the next, where `last` says nothing follows. */
  predicate Follows(from: Phase, to: Phase, last: bool) {
    || (from == Idle && to == Handshaking)
    || (from == Handshaking && to == Active)
    || (from == Active && to == Dropped)
    || (from == Dropped && to == Active)
    || (from != Idle && to == Idle && last)
  }

  /** A prefix of: idle, handshaking, active and dropped in turns, idle. */
  ghost predicate Lawful(log: seq<Phase>) {
    && log != [] && log[0] == Idle
    && forall i | 0 < i < |log| :: Follows(log[i - 1], log[i], i == |log| - 1)
  }

  ghost predicate Coherent(l: Life) {
    && Lawful(l.log)
    && (l.stage == Before ==> l.log == [Idle])
    && (l.stage == Running ==> Current(l) != Idle)
  }

  lemma LawfulSnoc(log: seq<Phase>, next: Phase)
    requires Lawful(log) && (|log| > 1 ==> log[|log| - 1] != Idle)
    requires next == log[|log| - 1] || Follows(log[|log| - 1], next, true)
    ensures Lawful(Entered(log, next))
  {
    var log' := Entered(log, next);
    forall i | 0 < i < |log'| ensures Follows(log'[i - 1], log'[i], i == |log'| - 1) {
      if i < |log| {
        assert Follows(log[i - 1], log[i], i == |log| - 1);
      }
    }
  }

  lemma NextKeepsCoherent(l: Life, step: Step)
    requires Coherent(l)
    ensures Coherent(Next(l, step))
  {
    match step
    case Start => if l.stage == Before { LawfulSnoc(l.log, Handshaking); }
    case RegisterFailed =>
    case Observe(exit, peers) =>
      if l.stage == Running { LawfulSnoc(l.log, Observed(Current(l), exit, peers)); }
    case Stop => if l.stage == Running { LawfulSnoc(l.log, Idle); }
  }

  /** Every run's phases are idle, handshaking, active and dropped in turns, idle, or a prefix of that. */
  lemma {:induction false} RunIsLawful(steps: seq<Step>)
    ensures Coherent(Run(steps))
  {
    if steps != [] {
      RunIsLawful(steps[..|steps| - 1]);
      NextKeepsCoherent(Run(steps[..|steps| - 1]), steps[|steps| - 1]);
    }
  }

  /** A drop is always a tunnel that was up, with an exit node that is missing or unreachable. */
  ghost predicate Justified(l: Life, step: Step) {
    && Current(l) == Active && step.Observe? && step.exit.Some?
    && (step.exit.value !in step.peers
        || (step.peers[step.exit.value] != P.Direct && step.peers[step.exit.value] != P.Relay))
  }

  /** Every `Dropped` in a run's phases was entered by a step that justifies it. */
  lemma {:induction false} DropsAreJustified(steps: seq<Step>, i: nat)
    requires i < |Run(steps).log| && Run(steps).log[i] == Dropped
    ensures exists k :: 0 <= k < |steps| && Justified(Run(steps[..k]), steps[k])
                        && |Run(steps[..k]).log| == i
  {
    if steps != [] {
      var n := |steps| - 1;
      var l := Run(steps[..n]);
      RunIsLawful(steps[..n]);
      if i < |l.log| {
        DropsAreJustified(steps[..n], i);
        var k :| 0 <= k < n && Justified(Run(steps[..n][..k]), steps[..n][k]) && |Run(steps[..n][..k]).log| == i;
        assert steps[..n][..k] == steps[..k];
      }
    }
  }

  /**
   After an observation of a running tunnel its last phase is Dropped if and only if the exit node
   is missing or unreachable and it was Active or Dropped, or there is no exit node and it was
   Dropped. It is Active if and only if the exit node is reachable, or there is none and it was not
   Dropped.
   */
  lemma ObservationDecides(steps: seq<Step>, exit: Option<Uuid>, peers: map<Uuid, P.Mode>)
    requires Run(steps).stage == Running
    ensures var before, after := Current(Run(steps)), Current(Run(steps + [Observe(exit, peers)]));
      var carried := exit.Some? && exit.value in peers && peers[exit.value] in {P.Direct, P.Relay};
      && (after == Dropped <==> !carried && (before == Dropped || (exit.Some? && before == Active)))
      && (after == Active <==> carried || (exit.None? && before != Dropped))
      && (after == Handshaking <==> exit.Some? && !carried && before == Handshaking)
  {
    assert (steps + [Observe(exit, peers)])[..|steps|] == steps;
    RunIsLawful(steps);
  }

  /**
   A tunnel is handshaking once it has started, and idle once it has stopped; one that could not
   register stays handshaking for good.
   */
  lemma StartAndStopDecide(steps: seq<Step>)
    ensures Run(steps).stage == Before ==> Run(steps + [Start]) == Life(Running, [Idle, Handshaking])
    ensures Run(steps).stage == Running ==>
      Run(steps + [Stop]).stage == Over && Run(steps + [Stop]).log == Run(steps).log + [Idle]
    ensures Run(steps).stage == Running && Current(Run(steps)) == Handshaking ==>
      Run(steps + [RegisterFailed]) == Life(Over, Run(steps).log)
  {
    assert (steps + [Start])[..|steps|] == steps && (steps + [Stop])[..|steps|] == steps;
    assert (steps + [RegisterFailed])[..|steps|] == steps;
    RunIsLawful(steps);
  }

  /** A run that never has an exit node never drops. */
  lemma NoExitNeverDrops(steps: seq<Step>)
    requires forall k | 0 <= k < |steps| && steps[k].Observe? :: steps[k].exit.None?
    ensures Dropped !in Run(steps).log
  {
    if Dropped in Run(steps).log {
      var i :| 0 <= i < |Run(steps).log| && Run(steps).log[i] == Dropped;
      DropsAreJustified(steps, i);
    }
  }
}
