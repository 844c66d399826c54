/**
 Whether relay proxies are closed in the end (client/internal/tunnel/peer.go and
 client/internal/tunnel/tunnel.go). Removing a peer and shutting down are to release its
 resources. They do, except that a negotiation in flight may install a proxy afterwards.
 */
module ProxyLifetimes {
  import opened Basics
  import opened PeerPaths

  /** Step k installs a proxy in this peer's slot. */
  predicate Fills(steps: seq<Step>, k: int, p: nat) {
    && 0 <= k < |steps| && steps[k].Installed? && Enabled(Run(steps[..k]), steps[k])
    && Run(steps[..k]).tasks[steps[k].task].peer == p
  }

  /** Step k takes what is in this peer's slot out because the peer has left the tunnel's map. */
  predicate Releases(steps: seq<Step>, k: int, p: nat) {
    && 0 <= k < |steps| && steps[k].Released? && Enabled(Run(steps[..k]), steps[k])
    && Run(steps[..k]).tasks[steps[k].task].rest[0] == p
  }

  /** Step k finds a direct path to this peer, which makes any proxy redundant. */
  predicate Punches(steps: seq<Step>, k: int, p: nat) {
    && 0 <= k < |steps| && steps[k].Punched? && Enabled(Run(steps[..k]), steps[k])
    && Run(steps[..k]).tasks[steps[k].task].peer == p
  }

  predicate Empties(steps: seq<Step>, k: int, p: nat) {
    Releases(steps, k, p) || Punches(steps, k, p)
  }

  /** Step k installs a proxy, and nothing after it empties the slot. */
  ghost predicate LeftFull(steps: seq<Step>, k: int, p: nat) {
    Fills(steps, k, p) && forall j | k < j < |steps| :: !Empties(steps, j, p)
  }

  /** Step k installs a proxy in a peer that step j has released already, and no direct path is found after. */
  ghost predicate TooLate(steps: seq<Step>, j: int, k: int, p: nat) {
    Releases(steps, j, p) && j < k && LeftFull(steps, k, p)
  }

  // ------------------------------------------------------------- what fills a slot

  lemma SlotMoves(s: State, step: Step, p: nat)
    requires Enabled(s, step)
    ensures SlotOf(Next(s, step), p) ==
      if step.Installed? && s.tasks[step.task].peer == p then Some(s.tasks[step.task].proxy)
      else if step.Punched? && s.tasks[step.task].peer == p then None
      else if step.Released? && s.tasks[step.task].rest[0] == p then None
      else SlotOf(s, p)
  {
  }

  /** What a step is depends on the steps before it alone. */
  lemma SameInPrefix(steps: seq<Step>, n: nat, k: int, p: nat)
    requires k < n <= |steps|
    ensures Fills(steps[..n], k, p) <==> Fills(steps, k, p)
    ensures Releases(steps[..n], k, p) <==> Releases(steps, k, p)
    ensures Punches(steps[..n], k, p) <==> Punches(steps, k, p)
  {
    if k >= 0 {
      assert steps[..n][..k] == steps[..k];
    }
  }

  lemma LeftFullInPrefix(steps: seq<Step>, k: int, p: nat)
    requires steps != [] && k < |steps| - 1 && !Empties(steps, |steps| - 1, p)
    ensures LeftFull(steps, k, p) <==> LeftFull(steps[..|steps| - 1], k, p)
  {
    var n := |steps| - 1;
    SameInPrefix(steps, n, k, p);
    forall j | k < j < n ensures Empties(steps[..n], j, p) <==> Empties(steps, j, p) {
      SameInPrefix(steps, n, j, p);
    }
  }

  /** A slot is full if and only if its last filling has not been emptied. */
  lemma {:induction false} FullIff(steps: seq<Step>, p: nat)
    ensures SlotOf(Run(steps), p).Some? <==> exists k :: LeftFull(steps, k, p)
  {
    if steps != [] {
      var n := |steps| - 1;
      FullIff(steps[..n], p);
      if Enabled(Run(steps[..n]), steps[n]) {
        SlotMoves(Run(steps[..n]), steps[n], p);
      }
      if Fills(steps, n, p) {
        assert LeftFull(steps, n, p);
      } else if !Empties(steps, n, p) {
        forall k | k < n ensures LeftFull(steps, k, p) <==> LeftFull(steps[..n], k, p) {
          LeftFullInPrefix(steps, k, p);
        }
      }
    }
  }

  // ------------------------------------------------------ who is still to be released

  predicate InMap(s: State, p: nat) {
    p in s.live.Values
  }

  predicate Pending(s: State, p: nat) {
    exists t | t in s.tasks :: p in ToRelease(s.tasks[t])
  }

  /** A peer leaves the map by being put up for release, and that list only by being released. */
  lemma LeavingIsReleasing(s: State, step: Step, p: nat)
    requires Enabled(s, step) && (InMap(s, p) || Pending(s, p))
    requires !(step.Released? && s.tasks[step.task].rest[0] == p)
    ensures InMap(Next(s, step), p) || Pending(Next(s, step), p)
  {
    var s' := Next(s, step);
    if InMap(s, p) {
      var d :| d in s.live && s.live[d] == p;
      if step.Shutdown? {
        assert p in (set q | q in step.order);
        assert step.task in s'.tasks && p in ToRelease(s'.tasks[step.task]);
      } else if step.Remove? && step.device == d {
        assert step.task in s'.tasks && p in ToRelease(s'.tasks[step.task]);
      } else {
        assert d in s'.live && s'.live[d] == p;
      }
    } else {
      var t :| t in s.tasks && p in ToRelease(s.tasks[t]);
      StaysPending(s, step, t, p);
    }
  }

  lemma StaysPending(s: State, step: Step, t: nat, p: nat)
    requires Enabled(s, step) && t in s.tasks && p in ToRelease(s.tasks[t])
    requires !(step.Released? && s.tasks[step.task].rest[0] == p)
    ensures t in Next(s, step).tasks && p in ToRelease(Next(s, step).tasks[t])
  {
    if step.Released? && step.task == t {
      assert p in s.tasks[t].rest[1..];
    }
  }

  /** Every peer ever made is in the map, up for release, or has been released. */
  lemma {:induction false} EveryPeerIsReleased(steps: seq<Step>, p: nat)
    requires p in Run(steps).peers
    ensures InMap(Run(steps), p) || Pending(Run(steps), p) || exists j :: Releases(steps, j, p)
  {
    var n := |steps| - 1;
    var s, step := Run(steps[..n]), steps[n];
    if Releases(steps, n, p) {
    } else if p !in s.peers {
      assert step.Add? && Run(steps).live[step.device] == p;
    } else {
      EveryPeerIsReleased(steps[..n], p);
      if j :| Releases(steps[..n], j, p) {
        SameInPrefix(steps, n, j, p);
      } else if Enabled(s, step) {
        LeavingIsReleasing(s, step, p);
      }
    }
  }

  // -------------------------------------------------------------- what stays open

  /** With no goroutine left, a proxy is open if and only if it is in a slot. */
  lemma OpenIffInSlot(steps: seq<Step>, x: nat)
    requires Run(steps).tasks == map[] && x in Run(steps).closes
    ensures Run(steps).closes[x] == 1 <==> forall p :: SlotOf(Run(steps), p) != Some(x)
  {
    RunKeepsPaths(steps);
    var s := Run(steps);
    var at: map<nat, Place> :| Located(s, at);
    if at[x].InSlot? {
      assert SlotOf(s, at[x].peer) == Some(x);
    }
  }

  /**
   Once every peer is out of the map and every goroutine has ended, each proxy ever built has been
   closed, exactly once, if and only if no negotiation installed one in a peer that had been released
   before, without a direct path being found to it after.
   */
  lemma AllClosedIff(steps: seq<Step>)
    requires Run(steps).live == map[] && Run(steps).tasks == map[]
    ensures (forall x | x in Run(steps).closes :: Run(steps).closes[x] == 1) <==>
            !exists j, k, p :: TooLate(steps, j, k, p)
  {
    var s := Run(steps);
    if j, k, p :| TooLate(steps, j, k, p) {
      FullIff(steps, p);
      SlotIsKnown(steps, p);
      OpenIffInSlot(steps, SlotOf(s, p).value);
    } else {
      forall x | x in s.closes ensures s.closes[x] == 1 {
        if p :| SlotOf(s, p) == Some(x) {
          FullIff(steps, p);
          var k :| LeftFull(steps, k, p);
          EveryPeerIsReleased(steps, p);
          var j :| Releases(steps, j, p);
          assert Empties(steps, j, p);
          assert TooLate(steps, j, k, p);
        }
        OpenIffInSlot(steps, x);
      }
    }
  }

  lemma SlotIsKnown(steps: seq<Step>, p: nat)
    requires SlotOf(Run(steps), p).Some?
    ensures SlotOf(Run(steps), p).value in Run(steps).closes
  {
    RunKeepsPaths(steps);
    var at: map<nat, Place> :| Located(Run(steps), at);
  }

  /** A run in which a peer is removed and released while a proxy is being set up for it. */
  function LateRun(d: Uuid): seq<Step> {
    [Add(d, 0, 0, true), Built(0, 0), Remove(d, 1), Released(1), Installed(0)]
  }

  lemma OneStep(steps: seq<Step>, n: nat, s: State)
    requires n < |steps| && Run(steps[..n]) == s && Enabled(s, steps[n])
    ensures Run(steps[..n + 1]) == Next(s, steps[n])
  {
    assert steps[..n + 1][..n] == steps[..n];
  }

  lemma LateSetup(d: Uuid)
    ensures Run(LateRun(d)[..2]) ==
            State(map[0 := Peer(Connecting, None)], map[d := 0], map[0 := Install(0, 0)], map[0 := 0])
  {
    OneStep(LateRun(d), 0, START);
    OneStep(LateRun(d), 1, State(map[0 := Peer(Connecting, None)], map[d := 0], map[0 := Negotiate(0)], map[]));
  }

  lemma LateRelease(d: Uuid)
    ensures var tasks := map[0 := Install(0, 0), 1 := Release([0])];
      Run(LateRun(d)[..3]) == State(map[0 := Peer(Connecting, None)], map[], tasks, map[0 := 0])
    ensures Run(LateRun(d)[..4]) == State(map[0 := Peer(Connecting, None)], map[], map[0 := Install(0, 0)], map[0 := 0])
  {
    LateSetup(d);
    OneStep(LateRun(d), 2, Run(LateRun(d)[..2]));
    OneStep(LateRun(d), 3, Run(LateRun(d)[..3]));
  }

  /** It leaves that proxy open. */
  lemma LateProxyStaysOpen(d: Uuid)
    ensures TooLate(LateRun(d), 3, 4, 0)
    ensures Run(LateRun(d)) == State(map[0 := Peer(Relay, Some(0))], map[], map[], map[0 := 0])
  {
    LateRelease(d);
    OneStep(LateRun(d), 4, Run(LateRun(d)[..4]));
    assert LateRun(d)[..5] == LateRun(d);
  }
}
