/**
 The tunnel's peers and their relay proxies (client/internal/tunnel/peer.go and
 client/internal/tunnel/tunnel.go) as a state machine.

 Several goroutines change a peer's mode and proxy under its lock: negotiations, the
 observer, removals and shutdown. A step is one locked section, or one call that creates
 or closes a proxy, of one goroutine; steps of different goroutines interleave freely.
 */
module PeerPaths {
  import opened Basics

  datatype Mode = Connecting | Direct | Relay | Offline

  /** A peer object. `proxy` names the relay proxy in its slot. */
  datatype Peer = Peer(mode: Mode, proxy: Option<nat>)

  /** What a goroutine still has to do, and the proxy it holds in a local variable meanwhile. */
  datatype Task =
    | Negotiate(peer: nat)
    | Install(peer: nat, proxy: nat)
    | Discard(peer: nat, proxy: nat, thenOffline: bool)
    | MarkOffline(peer: nat)
    | Close(proxy: nat, rest: seq<nat>)
    | Release(rest: seq<nat>)

  function Held(t: Task): Option<nat> {
    if t.Install? || t.Discard? || t.Close? then Some(t.proxy) else None
  }

  /**
   `peers` are all peer objects ever made, `live` the tunnel's map from devices to them,
   `closes` how often each proxy ever made has been closed.
   */
  datatype State = State(
    peers: map<nat, Peer>,
    live: map<Uuid, nat>,
    tasks: map<nat, Task>,
    closes: map<nat, nat>)

  const START: State := State(map[], map[], map[], map[])

  datatype Step =
    | Add(device: Uuid, peer: nat, task: nat, installed: bool)  // addPeer; WireGuard may refuse the peer
    | Renegotiate(peer: nat, task: nat)                         // health check, endpoint change or probe
    | GiveUp(task: nat)                                         // throttled, or the context is done
    | Punched(task: nat)                                        // tryDirect succeeded
    | NoRelay(task: nat)                                        // no relay could be allocated or set up
    | Built(task: nat, proxy: nat)                              // relayproxy.New
    | Refused(task: nat, thenOffline: bool)                     // starting it or repointing WireGuard failed
    | Installed(task: nat)                                      // fallBackToRelay succeeded
    | Marked(task: nat)                                         // setMode(Offline)
    | Closed(task: nat)                                         // proxy.Close
    | Observe(peer: nat, present: bool)                         // one peer of an observer pass
    | Remove(device: Uuid, task: nat)                           // removePeer
    | Shutdown(task: nat, order: seq<nat>)                      // shutdownPeers
    | Released(task: nat)                                       // the locked half of peer.close

  /** The mode an observer pass leaves, given whether the peer has been heard from lately. */
  function Observed(p: Peer, present: bool): Mode {
    if present && p.mode == Offline then (if p.proxy.Some? then Relay else Direct)
    else if !present && p.mode != Offline && p.mode != Connecting then Offline
    else p.mode
  }

  function SetPeer(s: State, p: nat, peer: Peer): State {
    s.(peers := s.peers[p := peer])
  }

  function SetTask(s: State, t: nat, task: Task): State {
    s.(tasks := s.tasks[t := task])
  }

  function EndTask(s: State, t: nat): State {
    s.(tasks := s.tasks - {t})
  }

  /** What is left to do with a proxy taken out of a slot, with more peers to release after it. */
  function CloseThen(s: State, t: nat, former: Option<nat>, rest: seq<nat>): State {
    if former.Some? then SetTask(s, t, Close(former.value, rest))
    else if rest == [] then EndTask(s, t)
    else SetTask(s, t, Release(rest))
  }

  predicate Enabled(s: State, step: Step) {
    match step
    case Add(device, peer, task, _) => device in s.live || (peer !in s.peers && task !in s.tasks)
    case Renegotiate(peer, task) => peer in s.peers && task !in s.tasks
    case GiveUp(task) => task in s.tasks && s.tasks[task].Negotiate?
    case Punched(task) => task in s.tasks && s.tasks[task].Negotiate? && s.tasks[task].peer in s.peers
    case NoRelay(task) => task in s.tasks && s.tasks[task].Negotiate?
    case Built(task, proxy) => task in s.tasks && s.tasks[task].Negotiate? && proxy !in s.closes
    case Refused(task, _) => task in s.tasks && s.tasks[task].Install?
    case Installed(task) => task in s.tasks && s.tasks[task].Install? && s.tasks[task].peer in s.peers
    case Marked(task) => task in s.tasks && s.tasks[task].MarkOffline? && s.tasks[task].peer in s.peers
    case Closed(task) => task in s.tasks && Held(s.tasks[task]).Some? && !s.tasks[task].Install?
                         && Held(s.tasks[task]).value in s.closes
    case Observe(peer, _) => peer in s.peers
    case Remove(device, task) => device in s.live && task !in s.tasks
    case Shutdown(task, order) => task !in s.tasks && (set p | p in order) == s.live.Values
    case Released(task) => task in s.tasks && s.tasks[task].Release? && s.tasks[task].rest != []
                           && s.tasks[task].rest[0] in s.peers
  }

  function Next(s: State, step: Step): State
    requires Enabled(s, step)
  {
    match step
    case Add(device, peer, task, installed) =>
      if device in s.live then s
      else
        var s1 := SetPeer(s, peer, Peer(Connecting, None)).(live := s.live[device := peer]);
        if installed then SetTask(s1, task, Negotiate(peer)) else s1
    case Renegotiate(peer, task) => SetTask(s, task, Negotiate(peer))
    case GiveUp(task) => EndTask(s, task)
    case Punched(task) =>
      var p := s.tasks[task].peer;
      CloseThen(SetPeer(s, p, Peer(Direct, None)), task, s.peers[p].proxy, [])
    case NoRelay(task) => SetTask(s, task, MarkOffline(s.tasks[task].peer))
    case Built(task, proxy) =>
      SetTask(s, task, Install(s.tasks[task].peer, proxy)).(closes := s.closes[proxy := 0])
    case Refused(task, thenOffline) =>
      SetTask(s, task, Discard(s.tasks[task].peer, s.tasks[task].proxy, thenOffline))
    case Installed(task) =>
      var Install(p, x) := s.tasks[task];
      CloseThen(SetPeer(s, p, Peer(Relay, Some(x))), task, s.peers[p].proxy, [])
    case Marked(task) =>
      var p := s.tasks[task].peer;
      EndTask(SetPeer(s, p, s.peers[p].(mode := Offline)), task)
    case Closed(task) =>
      var t := s.tasks[task];
      var s1 := s.(closes := s.closes[t.proxy := s.closes[t.proxy] + 1]);
      if t.Discard? then (if t.thenOffline then SetTask(s1, task, MarkOffline(t.peer)) else EndTask(s1, task))
      else CloseThen(s1, task, None, t.rest)
    case Observe(peer, present) =>
      SetPeer(s, peer, s.peers[peer].(mode := Observed(s.peers[peer], present)))
    case Remove(device, task) =>
      SetTask(s, task, Release([s.live[device]])).(live := s.live - {device})
    case Shutdown(task, order) => CloseThen(s, task, None, order).(live := map[])
    case Released(task) =>
      var p, rest := s.tasks[task].rest[0], s.tasks[task].rest[1..];
      CloseThen(SetPeer(s, p, s.peers[p].(proxy := None)), task, s.peers[p].proxy, rest)
  }

  /** The state after a run; steps that are not enabled when their turn comes are skipped. */
  function Run(steps: seq<Step>): State {
    if steps == [] then START
    else
      var s, step := Run(steps[..|steps| - 1]), steps[|steps| - 1];
      if Enabled(s, step) then Next(s, step) else s
  }

  // ------------------------------------------------------------- modes and slots

  /** A relayed peer has a proxy; a direct or connecting one has none. */
  predicate Consistent(p: Peer) {
    (p.mode == Relay ==> p.proxy.Some?) && (p.mode == Direct || p.mode == Connecting ==> p.proxy.None?)
  }

  /** The peers a goroutine still has to release. */
  function ToRelease(t: Task): seq<nat> {
    if t.Release? || t.Close? then t.rest else []
  }

  ghost predicate Retired(s: State, p: nat) {
    p in s.peers && forall d | d in s.live :: s.live[d] != p
  }

  /** Every peer in the tunnel's map is consistent; nothing in the map is about to be released. */
  ghost predicate ModesMatchSlots(s: State) {
    && (forall d | d in s.live :: s.live[d] in s.peers && Consistent(s.peers[s.live[d]]))
    && (forall d, e | d in s.live && e in s.live && s.live[d] == s.live[e] :: d == e)
    && (forall t | t in s.tasks :: forall p | p in ToRelease(s.tasks[t]) :: Retired(s, p))
  }

  /** Releasing a peer touches none that is in the map. */
  lemma ReleaseKeepsConsistent(s: State, step: Step)
    requires ModesMatchSlots(s) && Enabled(s, step) && step.Released?
    ensures var s' := Next(s, step);
      forall d | d in s'.live :: s'.live[d] in s'.peers && Consistent(s'.peers[s'.live[d]])
  {
    var t := s.tasks[step.task];
    assert t.rest[0] in ToRelease(t);
    assert Retired(s, t.rest[0]);
  }

  lemma NextKeepsConsistent(s: State, step: Step)
    requires ModesMatchSlots(s) && Enabled(s, step)
    ensures var s' := Next(s, step);
      forall d | d in s'.live :: s'.live[d] in s'.peers && Consistent(s'.peers[s'.live[d]])
  {
    if step.Released? {
      ReleaseKeepsConsistent(s, step);
    } else {
      var s' := Next(s, step);
      forall d | d in s'.live ensures s'.live[d] in s'.peers && Consistent(s'.peers[s'.live[d]]) {
        assert d in s.live ==> Consistent(s.peers[s.live[d]]);
      }
    }
  }

  /** The steps that take peers out of the tunnel's map. */
  lemma RetiringKeepsRetired(s: State, step: Step)
    requires ModesMatchSlots(s) && Enabled(s, step) && (step.Remove? || step.Shutdown?)
    ensures var s' := Next(s, step);
      forall t | t in s'.tasks :: forall p | p in ToRelease(s'.tasks[t]) :: Retired(s', p)
  {
    var s' := Next(s, step);
    assert forall p | Retired(s, p) :: Retired(s', p);
    if step.Remove? {
      assert forall d | d in s'.live :: d != step.device && s'.live[d] == s.live[d];
      assert Retired(s', s.live[step.device]);
    } else {
      forall p | p in step.order ensures Retired(s', p) {
        assert p in (set q | q in step.order) && p in s.live.Values;
        var d :| d in s.live && s.live[d] == p;
      }
    }
  }

  lemma RetiredStays(s: State, step: Step, p: nat)
    requires Enabled(s, step) && Retired(s, p)
    ensures Retired(Next(s, step), p)
  {
  }

  /** Other steps give no goroutine more to release. */
  lemma ReleasesNoMore(s: State, step: Step, t: nat, p: nat)
    requires Enabled(s, step) && !step.Remove? && !step.Shutdown?
    requires t in Next(s, step).tasks && p in ToRelease(Next(s, step).tasks[t])
    ensures t in s.tasks && p in ToRelease(s.tasks[t])
  {
  }

  lemma NextKeepsRetired(s: State, step: Step)
    requires ModesMatchSlots(s) && Enabled(s, step) && !step.Remove? && !step.Shutdown?
    ensures var s' := Next(s, step);
      forall t | t in s'.tasks :: forall p | p in ToRelease(s'.tasks[t]) :: Retired(s', p)
  {
    var s' := Next(s, step);
    forall t, p | t in s'.tasks && p in ToRelease(s'.tasks[t]) ensures Retired(s', p) {
      ReleasesNoMore(s, step, t, p);
      assert Retired(s, p);
      RetiredStays(s, step, p);
    }
  }

  lemma NextKeepsModes(s: State, step: Step)
    requires ModesMatchSlots(s) && Enabled(s, step)
    ensures ModesMatchSlots(Next(s, step))
  {
    NextKeepsConsistent(s, step);
    if step.Remove? || step.Shutdown? {
      RetiringKeepsRetired(s, step);
    } else {
      NextKeepsRetired(s, step);
    }
  }

  // ------------------------------------------------------------ where proxies are

  datatype Place = InTask(task: nat) | InSlot(peer: nat) | Gone

  function HeldBy(s: State, t: nat): Option<nat> {
    if t in s.tasks then Held(s.tasks[t]) else None
  }

  function SlotOf(s: State, p: nat): Option<nat> {
    if p in s.peers then s.peers[p].proxy else None
  }

  /**
   `at` puts every proxy ever made in exactly one place, and the state agrees: a goroutine
   holds it, or a peer's slot does, or it has been closed, and then exactly once.
   */
  ghost predicate Located(s: State, at: map<nat, Place>) {
    && at.Keys == s.closes.Keys
    && (forall t | HeldBy(s, t).Some? :: HeldBy(s, t).value in at && at[HeldBy(s, t).value] == InTask(t))
    && (forall x | x in at && at[x].InTask? :: HeldBy(s, at[x].task) == Some(x))
    && (forall p | SlotOf(s, p).Some? :: SlotOf(s, p).value in at && at[SlotOf(s, p).value] == InSlot(p))
    && (forall x | x in at && at[x].InSlot? :: SlotOf(s, at[x].peer) == Some(x))
    && (forall x | x in at :: s.closes[x] == if at[x].Gone? then 1 else 0)
  }

  /** Where the proxies are after a step. */
  ghost function Moved(s: State, step: Step, at: map<nat, Place>): map<nat, Place>
    requires Enabled(s, step)
  {
    match step
    case Punched(task) =>
      var former := s.peers[s.tasks[task].peer].proxy;
      if former.Some? then at[former.value := InTask(task)] else at
    case Built(task, proxy) => at[proxy := InTask(task)]
    case Installed(task) =>
      var Install(p, x) := s.tasks[task];
      var former := s.peers[p].proxy;
      if former.Some? then at[former.value := InTask(task)][x := InSlot(p)] else at[x := InSlot(p)]
    case Closed(task) => at[s.tasks[task].proxy := Gone]
    case Released(task) =>
      var former := s.peers[s.tasks[task].rest[0]].proxy;
      if former.Some? then at[former.value := InTask(task)] else at
    case _ => at
  }

  /** Taking whatever is in a slot into the hands of a goroutine that holds nothing. */
  lemma TakeKeepsLocated(s: State, s': State, t: nat, p: nat, at: map<nat, Place>)
    requires Located(s, at) && p in s.peers && HeldBy(s, t) == None && s'.closes == s.closes
    requires forall u :: HeldBy(s', u) == if u == t then SlotOf(s, p) else HeldBy(s, u)
    requires forall q :: SlotOf(s', q) == if q == p then None else SlotOf(s, q)
    ensures Located(s', if SlotOf(s, p).Some? then at[SlotOf(s, p).value := InTask(t)] else at)
  {
    if SlotOf(s, p).Some? {
      var y := SlotOf(s, p).value;
      var at' := at[y := InTask(t)];
      assert at[y] == InSlot(p) && at'.Keys == at.Keys;
      forall z | z in at' && z != y ensures at'[z] == at[z] && at[z] != InTask(t) && at[z] != InSlot(p) {
      }
    }
  }

  lemma TakeStep(s: State, t: nat, p: nat, mode: Mode, rest: seq<nat>, at: map<nat, Place>)
    requires Located(s, at) && p in s.peers && HeldBy(s, t) == None
    ensures Located(CloseThen(SetPeer(s, p, Peer(mode, None)), t, s.peers[p].proxy, rest),
                    if s.peers[p].proxy.Some? then at[s.peers[p].proxy.value := InTask(t)] else at)
  {
    TakeKeepsLocated(s, CloseThen(SetPeer(s, p, Peer(mode, None)), t, s.peers[p].proxy, rest), t, p, at);
  }

  /** Swapping a held proxy with whatever is in a slot. */
  lemma SwapKeepsLocated(s: State, t: nat, p: nat, x: nat, at: map<nat, Place>)
    requires Located(s, at) && p in s.peers && HeldBy(s, t) == Some(x)
    ensures var former := s.peers[p].proxy;
      Located(CloseThen(SetPeer(s, p, Peer(Relay, Some(x))), t, former, []),
              if former.Some? then at[former.value := InTask(t)][x := InSlot(p)] else at[x := InSlot(p)])
  {
    var former := s.peers[p].proxy;
    var s' := CloseThen(SetPeer(s, p, Peer(Relay, Some(x))), t, former, []);
    assert forall u :: HeldBy(s', u) == if u == t then former else HeldBy(s, u);
    assert forall q :: SlotOf(s', q) == if q == p then Some(x) else SlotOf(s, q);
    assert at[x] == InTask(t) && SlotOf(s, p) == former;
    if former.Some? {
      var y := former.value;
      var at' := at[y := InTask(t)][x := InSlot(p)];
      assert at[y] == InSlot(p) && x != y && at'.Keys == at.Keys;
      forall z | z in at' && z != x && z != y ensures at'[z] == at[z] && at[z] != InTask(t) && at[z] != InSlot(p) {
      }
    }
  }

  lemma CloseKeepsLocated(s: State, s': State, t: nat, x: nat, at: map<nat, Place>)
    requires Located(s, at) && HeldBy(s, t) == Some(x) && x in s.closes
    requires s'.closes == s.closes[x := s.closes[x] + 1] && s'.peers == s.peers
    requires forall u :: HeldBy(s', u) == if u == t then None else HeldBy(s, u)
    ensures Located(s', at[x := Gone])
  {
    assert forall q :: SlotOf(s', q) == SlotOf(s, q);
    assert at[x] == InTask(t);
  }

  /** The steps that neither create, move nor close a proxy. */
  lemma QuietKeepsLocated(s: State, step: Step, at: map<nat, Place>)
    requires Located(s, at) && Enabled(s, step)
    requires !step.Punched? && !step.Built? && !step.Installed? && !step.Closed? && !step.Released?
    ensures Located(Next(s, step), at)
  {
    var s' := Next(s, step);
    assert s'.closes == s.closes;
    assert forall u :: HeldBy(s', u) == HeldBy(s, u);
    assert forall q :: SlotOf(s', q) == SlotOf(s, q);
  }

  lemma BuildKeepsLocated(s: State, step: Step, at: map<nat, Place>)
    requires Located(s, at) && Enabled(s, step) && step.Built?
    ensures Located(Next(s, step), at[step.proxy := InTask(step.task)])
  {
    var s' := Next(s, step);
    assert forall u :: HeldBy(s', u) == if u == step.task then Some(step.proxy) else HeldBy(s, u);
    assert forall q :: SlotOf(s', q) == SlotOf(s, q);
  }

  /** The steps that take a proxy out of a slot or close one. */
  lemma MovingKeepsLocated(s: State, step: Step, at: map<nat, Place>)
    requires Located(s, at) && Enabled(s, step) && (step.Punched? || step.Released? || step.Installed? || step.Closed?)
    ensures Located(Next(s, step), Moved(s, step, at))
  {
    var t := s.tasks[step.task];
    if step.Punched? {
      TakeStep(s, step.task, t.peer, Direct, [], at);
    } else if step.Released? {
      TakeStep(s, step.task, t.rest[0], s.peers[t.rest[0]].mode, t.rest[1..], at);
    } else if step.Installed? {
      SwapKeepsLocated(s, step.task, t.peer, t.proxy, at);
    } else {
      CloseKeepsLocated(s, Next(s, step), step.task, t.proxy, at);
    }
  }

  lemma NextKeepsLocated(s: State, step: Step, at: map<nat, Place>)
    requires Located(s, at) && Enabled(s, step)
    ensures Located(Next(s, step), Moved(s, step, at))
  {
    if step.Punched? || step.Released? || step.Installed? || step.Closed? {
      MovingKeepsLocated(s, step, at);
    } else if step.Built? {
      BuildKeepsLocated(s, step, at);
    } else {
      QuietKeepsLocated(s, step, at);
    }
  }

  /**
   How a negotiation settles a peer: direct and without a proxy when punching succeeded, relayed
   through the proxy it built when that was installed, and offline when no relay could be had. No
   other peer is touched.
   */
  lemma NegotiationSettles(s: State, step: Step, p: nat)
    requires Enabled(s, step) && (step.Punched? || step.Installed? || step.Marked?) && p in s.peers
    ensures var t := s.tasks[step.task];
      p in Next(s, step).peers && Next(s, step).peers[p] ==
      if p != t.peer then s.peers[p]
      else if step.Punched? then Peer(Direct, None)
      else if step.Installed? then Peer(Relay, Some(t.proxy))
      else Peer(Offline, s.peers[p].proxy)
  {
  }

  /**
   A negotiation that finds no relay goes on to mark its peer offline. One whose proxy is refused goes on to
   close that proxy, and then marks its peer, unless the peer's own address was malformed. No peer changes yet.
   */
  lemma FailureGoesOn(s: State, step: Step)
    requires Enabled(s, step)
    ensures step.NoRelay? || step.Refused? ==> Next(s, step).peers == s.peers && Next(s, step).closes == s.closes
    ensures step.NoRelay? ==> Next(s, step).tasks == s.tasks[step.task := MarkOffline(s.tasks[step.task].peer)]
    ensures step.Refused? ==>
      var t := s.tasks[step.task];
      Next(s, step).tasks == s.tasks[step.task := Discard(t.peer, t.proxy, step.thenOffline)]
    ensures step.Closed? && s.tasks[step.task].Discard? ==>
      var t := s.tasks[step.task];
      && Next(s, step).peers == s.peers
      && Next(s, step).tasks == if t.thenOffline then s.tasks[step.task := MarkOffline(t.peer)]
                                else s.tasks - {step.task}
  {
  }

  /** A new device gets a peer that is connecting, and a negotiation if WireGuard took it; a known one gets nothing. */
  lemma AddingStarts(s: State, step: Step)
    requires Enabled(s, step) && step.Add?
    ensures var s' := Next(s, step);
      if step.device in s.live then s' == s
      else
        && s'.live == s.live[step.device := step.peer] && s'.peers == s.peers[step.peer := Peer(Connecting, None)]
        && s'.tasks == (if step.installed then s.tasks[step.task := Negotiate(step.peer)] else s.tasks)
        && s'.closes == s.closes
  {
  }

  /** Removing a peer, or shutting down, takes it out of the map; its slot is to be emptied and its proxy closed. */
  lemma RetiringReleases(s: State, step: Step)
    requires Enabled(s, step)
    ensures step.Remove? ==>
      var s' := Next(s, step);
      && s'.live == s.live - {step.device}
      && step.task in s'.tasks && ToRelease(s'.tasks[step.task]) == [s.live[step.device]]
    ensures step.Shutdown? && step.order != [] ==>
      var s' := Next(s, step);
      s'.live == map[] && step.task in s'.tasks && ToRelease(s'.tasks[step.task]) == step.order
    ensures step.Released? ==>
      var s', p := Next(s, step), s.tasks[step.task].rest[0];
      && s'.peers[p] == s.peers[p].(proxy := None)
      && HeldBy(s', step.task) == s.peers[p].proxy
      && (step.task in s'.tasks ==> ToRelease(s'.tasks[step.task]) == s.tasks[step.task].rest[1..])
      && (step.task !in s'.tasks ==> s.tasks[step.task].rest[1..] == [])
    ensures step.Closed? ==>
      var s', x := Next(s, step), s.tasks[step.task].proxy;
      s'.closes == s.closes[x := s.closes[x] + 1] && HeldBy(s', step.task) == None
  {
  }

  /** In every run, a relayed peer in the map has a proxy in its slot that nobody has closed and no other peer has. */
  lemma RelayedProxyIsOpen(steps: seq<Step>, d: Uuid)
    requires d in Run(steps).live && Run(steps).live[d] in Run(steps).peers
    requires Run(steps).peers[Run(steps).live[d]].mode == Relay
    ensures var s := Run(steps);
      var mine := s.peers[s.live[d]].proxy;
      && mine.Some? && mine.value in s.closes && s.closes[mine.value] == 0
      && (forall t | t in s.tasks :: Held(s.tasks[t]) != mine)
      && (forall p | p in s.peers && p != s.live[d] :: s.peers[p].proxy != mine)
  {
    RunKeepsPaths(steps);
    var s := Run(steps);
    var at :| Located(s, at);
    var p := s.live[d];
    assert SlotOf(s, p) == s.peers[p].proxy;
    forall t | t in s.tasks ensures Held(s.tasks[t]) != s.peers[p].proxy {
      assert HeldBy(s, t) == Held(s.tasks[t]);
    }
    forall q | q in s.peers && q != p ensures s.peers[q].proxy != s.peers[p].proxy {
      assert SlotOf(s, q) == s.peers[q].proxy;
    }
  }

  /**
   Under every interleaving of negotiations, observer passes, removals and shutdown, every
   peer in the map is consistent, and every relay proxy is in exactly one place and closed at
   most once.
   */
  lemma {:induction false} RunKeepsPaths(steps: seq<Step>)
    ensures ModesMatchSlots(Run(steps)) && exists at :: Located(Run(steps), at)
  {
    if steps == [] {
      assert Located(START, map[]);
    } else {
      var front, step := steps[..|steps| - 1], steps[|steps| - 1];
      var s := Run(front);
      RunKeepsPaths(front);
      var at :| Located(s, at);
      if Enabled(s, step) {
        NextKeepsModes(s, step);
        NextKeepsLocated(s, step, at);
      }
    }
  }
}
