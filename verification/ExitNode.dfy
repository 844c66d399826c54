/**
 Exit-node mode (client/internal/tunnel/exit.go): routing all of a machine's traffic
 through one peer, and undoing it.

 Every host command may fail. The router's trace records the table after each command,
 so that what holds "at every intermediate step" is a statement about the trace.
 */
module ExitNode {
  import opened Basics
  import opened Routes
  import opened Transport
  import opened LinuxRouter
  import K = KillSwitch

  function Elements(ips: seq<IP>): set<IP> {
    set ip | ip in ips
  }

  /** The table has no route that exit-node mode would overwrite: no /1 and no host route to an endpoint. */
  predicate Clean(base: Table, endpoints: set<IP>) {
    base.Keys !! endpoints + ALL_HALVES
  }

  predicate LeadsTo(hop: Option<Hop>, iface: string) {
    hop.Some? && hop.value.dev == iface
  }

  /** No route of the table for an address leads to the device. */
  ghost predicate Apart(t: Table, a: IP, iface: string) {
    forall p | p in t && Matches(p, a) :: t[p].dev != iface
  }

  /**
   No endpoint is looked up into the tunnel, unless the host itself had a route for it that
   leads there. On a clean host every endpoint is looked up where it was before the change, or
   through the default route that was in place before it.
   */
  ghost predicate SafeTable(t: Table, g: Goal) {
    forall e | e in g.endpoints ::
      && (g.via.dev != g.iface && Apart(g.base, e, g.iface) ==> !LeadsTo(Lookup(t, e), g.iface))
      && (Clean(g.base, g.endpoints) ==> Lookup(t, e) == Lookup(g.base, e) || Lookup(t, e) == Some(g.via))
  }

  /** A half of the default route was left with the tunnel: not released, or captured without the other. */
  predicate Stopped(m: Moment) {
    !m.ok && match m.command
             case Delete(p, _) => p in ALL_HALVES && p in m.table && m.table[p].dev == m.goal.iface
             case Replace(p, _) => p == HIGH_V4
             case Show => false
             case ListNetworks(_) => false
             case Lock(_) => false
             case Unlock => false
  }

  ghost predicate Broken(trace: seq<Moment>, change: nat) {
    exists m | m in trace :: m.goal.change == change && Stopped(m)
  }

  predicate Unpins(m: Moment) {
    m.command.Delete? && m.command.prefix in m.goal.endpoints
  }

  /**
   Every command left a safe table, except that an endpoint may be unpinned after a command of
   the same change has left a half of the default route with the tunnel.
   */
  ghost predicate AllSafe(trace: seq<Moment>) {
    forall i | 0 <= i < |trace| ::
      SafeTable(trace[i].table, trace[i].goal) || (Unpins(trace[i]) && Broken(trace[..i], trace[i].goal.change))
  }

  lemma AllSafeSnoc(trace: seq<Moment>, m: Moment)
    requires AllSafe(trace)
    requires SafeTable(m.table, m.goal) || (Unpins(m) && Broken(trace, m.goal.change))
    ensures AllSafe(trace + [m])
  {
    forall i | 0 <= i < |trace + [m]|
      ensures (trace + [m])[..i] == if i < |trace| then trace[..i] else trace
    {
    }
  }

  lemma {:induction false} AllSafeConcat(trace: seq<Moment>, ms: seq<Moment>)
    requires AllSafe(trace) && forall m | m in ms :: SafeTable(m.table, m.goal)
    ensures AllSafe(trace + ms)
  {
    if ms == [] {
      assert trace + ms == trace;
    } else {
      var front := ms[..|ms| - 1];
      AllSafeConcat(trace, front);
      AllSafeSnoc(trace + front, ms[|ms| - 1]);
      assert trace + ms == trace + front + [ms[|ms| - 1]];
    }
  }

  /**
   If a command ever leaves an endpoint looked up into the tunnel, then an earlier command of the
   same change had left a half of the default route there.
   */
  lemma SwallowedOnlyWhenBroken(trace: seq<Moment>, i: nat, e: IP)
    requires AllSafe(trace) && i < |trace| && e in trace[i].goal.endpoints
    requires trace[i].goal.via.dev != trace[i].goal.iface && Apart(trace[i].goal.base, e, trace[i].goal.iface)
    requires LeadsTo(Lookup(trace[i].table, e), trace[i].goal.iface)
    ensures exists j :: 0 <= j < i && trace[j].goal.change == trace[i].goal.change && Stopped(trace[j])
  {
    var m :| m in trace[..i] && m.goal.change == trace[i].goal.change && Stopped(m);
    var j :| 0 <= j < i && trace[..i][j] == m;
    assert trace[j] == m;
  }

  // -------------------------------------------------------------- laws of shapes

  lemma ShapeStart(base: Table, via: Hop, tun: Hop)
    ensures Shape(base, {}, {}, via, {}, tun) == base
  {
  }

  lemma ShapePin(base: Table, touched: set<Prefix>, pins: set<Prefix>, via: Hop, tun: Hop, p: Prefix)
    ensures Shape(base, touched, pins, via, {}, tun)[p := via] == Shape(base, touched + {p}, pins + {p}, via, {}, tun)
  {
  }

  lemma ShapeCapture(base: Table, touched: set<Prefix>, pins: set<Prefix>, via: Hop, tun: Hop, s: set<Prefix>)
    ensures Shape(base, touched, pins, via, {}, tun) + Leads(s, tun) == Shape(base, touched + s, pins, via, s, tun)
  {
  }

  lemma ShapeDelete(base: Table, touched: set<Prefix>, pins: set<Prefix>, via: Hop, halves: set<Prefix>, tun: Hop,
                    s: set<Prefix>)
    ensures Shape(base, touched, pins, via, halves, tun) - s ==
            Shape(base, touched + s, pins - s, via, halves - s, tun)
  {
  }

  lemma {:induction false} UnhalvedLookupFrom(base: Table, touched: set<Prefix>, pins: set<IP>, via: Hop, tun: Hop,
                                              iface: string, e: IP, k: nat)
    requires k <= |e.bits| && via.dev != iface && Apart(base, e, iface)
    ensures !LeadsTo(LookupFrom(Shape(base, touched, pins, via, {}, tun), e, k), iface)
  {
    assert Matches(Leading(e, k), e);
    if k > 0 {
      UnhalvedLookupFrom(base, touched, pins, via, tun, iface, e, k - 1);
    }
  }

  /**
   On any host: as long as nothing is captured, or every endpoint is pinned, no endpoint is looked
   up into the tunnel that the host had no route into it for.
   */
  lemma NeverSwallowed(base: Table, touched: set<Prefix>, pins: set<IP>, via: Hop, halves: set<Prefix>, tun: Hop,
                       iface: string, e: IP)
    requires halves <= ALL_HALVES && (halves == {} || e in pins)
    requires via.dev != iface && Apart(base, e, iface)
    ensures !LeadsTo(Lookup(Shape(base, touched, pins, via, halves, tun), e), iface)
  {
    if e in pins {
      assert Leading(e, |e.bits|) == e && e !in ALL_HALVES;
    } else {
      UnhalvedLookupFrom(base, touched, pins, via, tun, iface, e, |e.bits|);
    }
  }

  lemma ShapeSafe(g: Goal, touched: set<Prefix>, pins: set<IP>, halves: set<Prefix>, tun: Hop)
    requires pins <= g.endpoints && halves <= ALL_HALVES && touched <= g.endpoints + ALL_HALVES
    requires halves == {} || g.endpoints <= pins
    ensures SafeTable(Shape(g.base, touched, pins, g.via, halves, tun), g)
  {
    var t := Shape(g.base, touched, pins, g.via, halves, tun);
    forall e | e in g.endpoints && g.via.dev != g.iface && Apart(g.base, e, g.iface)
      ensures !LeadsTo(Lookup(t, e), g.iface)
    {
      NeverSwallowed(g.base, touched, pins, g.via, halves, tun, g.iface, e);
    }
    forall e | e in g.endpoints && Clean(g.base, g.endpoints)
      ensures Lookup(t, e) == Lookup(g.base, e) || Lookup(t, e) == Some(g.via)
    {
      ShapeLookup(g.base, touched, pins, g.via, halves, tun, e);
    }
  }

  /** The table has a route for the address that is longer than a half, of at most k bits. */
  ghost predicate Finer(t: Table, a: IP, k: nat)
    requires k <= |a.bits|
  {
    exists j :: 2 <= j <= k && Leading(a, j) in t
  }

  lemma {:induction false} EngagedLookupFrom(base: Table, endpoints: set<IP>, via: Hop, taken: set<Prefix>, tun: Hop,
                                             a: IP, k: nat)
    requires k <= |a.bits| && a !in endpoints && taken <= ALL_HALVES
    ensures LookupFrom(Shape(base, endpoints + taken, endpoints, via, taken, tun), a, k) ==
      if k >= 1 && !Finer(base, a, k) && HalfOf(a) in taken then Some(tun) else LookupFrom(base, a, k)
  {
    var s := Shape(base, endpoints + taken, endpoints, via, taken, tun);
    var p := Leading(a, k);
    assert p !in endpoints by {
      assert k == |a.bits| ==> p == a;
    }
    if k > 0 {
      EngagedLookupFrom(base, endpoints, via, taken, tun, a, k - 1);
      assert Finer(base, a, k) <==> (k >= 2 && p in base) || Finer(base, a, k - 1);
    }
    if k == 1 {
      assert p == HalfOf(a);
    }
  }

  /**
   While an exit node is engaged, on any host, endpoints leave through the old default route, and
   every other address in a captured half goes to the tunnel unless the host has a route for it
   that is longer than a half.
   */
  lemma EngagedLookup(base: Table, endpoints: set<IP>, via: Hop, taken: set<Prefix>, tun: Hop, a: IP)
    requires taken <= ALL_HALVES
    ensures Lookup(Shape(base, endpoints + taken, endpoints, via, taken, tun), a) ==
      if a in endpoints then Some(via)
      else if !Finer(base, a, |a.bits|) && HalfOf(a) in taken then Some(tun)
      else Lookup(base, a)
  {
    if a in endpoints {
      assert Leading(a, |a.bits|) == a && a !in ALL_HALVES;
    } else {
      EngagedLookupFrom(base, endpoints, via, taken, tun, a, |a.bits|);
    }
  }

  /**
   What is left of a change gives back the original table exactly when nothing of it remains
   and it overwrote nothing.
   */
  lemma RestoredIff(base: Table, touched: set<Prefix>, left: set<Prefix>, via: Hop, halves: set<Prefix>, tun: Hop)
    requires left + halves <= touched
    ensures touched !! base.Keys ==>
      (Shape(base, touched, left, via, halves, tun) == base <==> left == {} && halves == {})
    ensures left == {} && halves == {} ==>
      (Shape(base, touched, left, via, halves, tun) == base <==> touched !! base.Keys)
  {
    var s := Shape(base, touched, left, via, halves, tun);
    assert s.Keys == (base.Keys - touched) + left + halves;
    if touched !! base.Keys && left == {} && halves == {} {
      assert s == base;
    }
    if p :| p in left + halves {
      assert p in s;
    }
    if p :| p in touched * base.Keys {
      assert left == {} && halves == {} ==> p !in s;
    }
  }

  /**
   A half that stays captured once the pins are gone swallows the endpoints in it: this is
   what a capture that fails on its second half, or a release that fails on one, leads to.
   */
  lemma LeftoverHalfSwallows(base: Table, touched: set<Prefix>, endpoints: set<IP>, left: set<IP>, via: Hop,
                             halves: set<Prefix>, tun: Hop, e: IP)
    requires Clean(base, endpoints) && e in endpoints && left <= endpoints
    requires halves <= ALL_HALVES && touched <= endpoints + ALL_HALVES
    ensures Lookup(Shape(base, touched, left, via, halves, tun), e) ==
      if e in left then Some(via)
      else if !Covered(base, e, |e.bits|) && HalfOf(e) in halves then Some(tun)
      else Lookup(base, e)
  {
    ShapeLookup(base, touched, left, via, halves, tun, e);
  }

  // ------------------------------------------------------------------ the tunnel

  datatype SetResult =
    | Engaged
    | EngagedUnlocked  // the route is up but the kill switch did not engage
    | NoRouter
    | NotAPeer
    | TeardownFailed
    | NoDefaultRoute
    | WidenFailed
    | PinFailed
    | CaptureFailed(halfway: bool)

  /** The half that a failed attempt leaves captured: the first, when the second could not be. */
  function LeftCaptured(r: SetResult): set<Prefix> {
    if r == CaptureFailed(true) then {LOW_V4} else {}
  }

  /** What the routing half of an attempt came to. */
  function Routed(r: SetResult): SetResult {
    if r.EngagedUnlocked? then Engaged else r
  }

  datatype Op = Set(device: Uuid, killSwitch: bool, allowLAN: bool) | Clear | Learn(peers: map<Uuid, PeerPath>)

  /** A write of a peer's AllowedIPs, wide or narrow, with its outcome; or one not made to a peer that has left. */
  datatype Write = Wrote(device: Uuid, wide: bool, ok: bool) | Absent(device: Uuid)

  /** The widened peers after one more write. */
  function Rewritten(widened: set<Uuid>, w: Write): set<Uuid> {
    if w.Absent? || !w.ok then widened else if w.wide then widened + {w.device} else widened - {w.device}
  }

  /** A peer is narrowed if it is known. */
  predicate NarrowOf(w: Write, device: Uuid, known: bool) {
    if known then w.Wrote? && w.device == device && !w.wide else w == Absent(device)
  }

  predicate NotNarrowed(w: Write) {
    w.Absent? || (!w.wide && !w.ok)
  }

  /** The peers whose narrowing failed, or that had left before it. */
  function Unnarrowed(ws: seq<Write>): set<Uuid> {
    set w | w in ws && NotNarrowed(w) :: w.device
  }

  /** A failed attempt tries to narrow the peer again. */
  predicate NarrowsIfFailed(r: SetResult, device: Uuid, ws: seq<Write>) {
    if r.Engaged? then ws == [] else ws == [Wrote(device, false, true)] || ws == [Wrote(device, false, false)]
  }

  /** The writes of one attempt to set an exit node. */
  predicate WritesOf(r: SetResult, device: Uuid, ws: seq<Write>) {
    match r
    case Engaged => ws == [Wrote(device, true, true)]
    case WidenFailed => ws == [Wrote(device, true, false)]
    case PinFailed => ws == [Wrote(device, true, true), Wrote(device, false, true)]
                      || ws == [Wrote(device, true, true), Wrote(device, false, false)]
    case CaptureFailed(_) => ws == [Wrote(device, true, true), Wrote(device, false, true)]
                             || ws == [Wrote(device, true, true), Wrote(device, false, false)]
    case _ => ws == []
  }

  /** Which of its commands were refused, by the result of an attempt. */
  predicate RefusedBy(r: SetResult, refused: set<Prefix>, endpoints: set<IP>) {
    match r
    case Engaged => refused <= {LOW_V6, HIGH_V6}
    case PinFailed => refused <= endpoints && refused != {}
    case CaptureFailed(halfway) => refused == if halfway then {HIGH_V4} else {LOW_V4}
    case _ => refused == {}
  }

  /**
   What an attempt's commands come to. Engaged, the endpoints are pinned and the halves captured;
   otherwise exactly the pins that a command failed to delete are left, and the first half if the
   second could not be captured.
   */
  ghost predicate Attempted(r: SetResult, base: Table, t: Table, endpoints: set<IP>, via: Hop, halves: set<Prefix>,
                            did: Outcome, tun: Hop) {
    && RefusedBy(r, did.refused, endpoints)
    && if r.Engaged? then
         && {LOW_V4, HIGH_V4} <= halves <= ALL_HALVES
         && did == Outcome(endpoints + halves, did.refused, {})
         && t == Shape(base, endpoints + halves, endpoints, via, halves, tun)
       else
         && halves == LeftCaptured(r)
         && halves + did.failures <= did.installed <= endpoints + halves && did.failures <= endpoints
         && t == Shape(base, did.installed, did.failures, via, halves, tun)
  }

  /** A clear first releases the kill switch, exactly if it was engaged, and then only deletes routes. */
  predicate UnlocksFirst(locked: bool, ms: seq<Moment>) {
    if locked then ms != [] && ms[0].command == Unlock && forall m | m in ms[1..] :: m.command.Delete?
    else forall m | m in ms :: m.command.Delete?
  }

  predicate Unlocked(locked: bool, ms: seq<Moment>) {
    locked && ms != [] && ms[0].command == Unlock && ms[0].ok
  }

  /** The failures that a clear reports: of the release, of an IPv4 half, or of the narrowing. */
  predicate Reported(locked: bool, ms: seq<Moment>, narrow: Write) {
    || (locked && !Unlocked(locked, ms))
    || LOW_V4 in Failures(ms) || HIGH_V4 in Failures(ms)
    || (narrow.Wrote? && !narrow.ok)
  }

  /**
   The firewall is locked by asking for the local networks, if they are to stay reachable, and then
   for a policy that covers the peers; it succeeds exactly if what is asked for does.
   */
  ghost predicate LockedBy(ok: bool, ms: seq<Moment>, available: bool, allowLAN: bool, iface: string,
                           peers: map<Uuid, PeerPath>) {
    if !available then ms == [] && !ok
    else if allowLAN then
      && ms != [] && ms[0].command.ListNetworks?
      && if !ms[0].ok then |ms| == 1 && !ok
         else |ms| == 2 && LocksWith(ok, ms[1], ms[0].command.found, true, iface, peers)
    else |ms| == 1 && LocksWith(ok, ms[0], [], false, iface, peers)
  }

  ghost predicate LocksWith(ok: bool, m: Moment, nets: seq<Option<Prefix>>, allowLAN: bool, iface: string,
                            peers: map<Uuid, PeerPath>) {
    && m.command.Lock? && m.ok == ok
    && m.command.policy == K.Policy(iface, m.command.policy.endpoints, nets, allowLAN)
    && K.Covers(m.command.policy, peers)
  }

  /** An attempt that changed nothing. */
  lemma NothingAttempted(r: SetResult, base: Table, via: Hop, tun: Hop)
    requires r in {TeardownFailed, NoDefaultRoute, WidenFailed}
    ensures Attempted(r, base, base, {}, via, {}, Outcome({}, {}, {}), tun)
  {
    ShapeStart(base, via, tun);
  }

  /** What an undo's commands come to: exactly what one failed to delete is left. */
  ghost predicate Undone(base: Table, t: Table, pins: set<IP>, via: Hop, taken: set<Prefix>, touched: set<Prefix>,
                         did: Outcome, tun: Hop) {
    && did.installed == {} && did.failures <= pins + ALL_HALVES
    && pins + taken <= touched <= pins + ALL_HALVES
    && t == Shape(base, touched, did.failures - ALL_HALVES, via, taken * did.failures, tun)
  }

  lemma UndoneIff(base: Table, t: Table, pins: set<IP>, via: Hop, taken: set<Prefix>, touched: set<Prefix>,
                  did: Outcome, tun: Hop)
    requires Undone(base, t, pins, via, taken, touched, did, tun) && taken <= ALL_HALVES
    ensures Clean(base, pins) ==> (t == base <==> did.failures * (pins + taken) == {})
  {
    HostsAreNoHalves(pins);
    RestoredIff(base, touched, did.failures - ALL_HALVES, via, taken * did.failures, tun);
  }

  /** An attempt that did not come about gives back the table unless something of it is left. */
  lemma RolledBackIff(r: SetResult, base: Table, t: Table, endpoints: set<IP>, via: Hop, halves: set<Prefix>,
                      did: Outcome, tun: Hop)
    requires Attempted(r, base, t, endpoints, via, halves, did, tun) && !r.Engaged? && Clean(base, endpoints)
    ensures t == base <==> did.failures * did.installed == {} && r != CaptureFailed(true)
  {
    assert did.failures * did.installed == did.failures;
    RestoredIff(base, did.installed, did.failures, via, halves, tun);
  }

  predicate Begins(done: seq<IP>, all: seq<IP>) {
    && |done| <= |all| && Distinct(done) && Elements(done) <= Elements(all)
    && forall i | 0 <= i < |done| :: done[i] == all[i]
  }

  lemma BeginsMore(done: seq<IP>, all: seq<IP>)
    requires Distinct(all) && Begins(done, all) && |done| < |all|
    ensures Begins(done + [all[|done|]], all) && all[|done|] in Elements(all)
    ensures Elements(done + [all[|done|]]) == Elements(done) + {all[|done|]}
  {
  }

  lemma BeginsAll(done: seq<IP>, all: seq<IP>)
    requires Begins(done, all) && |done| == |all|
    ensures done == all
  {
  }

  /** Some pins have been dealt with, of which `left` stay; `pins` are those still there. */
  predicate Unpinning(ips: seq<IP>, i: nat, pins: set<IP>, left: set<IP>) {
    i <= |ips| && left <= Elements(ips[..i]) && pins == left + Elements(ips[i..]) && pins <= Elements(ips)
  }

  lemma UnpinningStep(ips: seq<IP>, i: nat, pins: set<IP>, left: set<IP>)
    requires Distinct(ips) && i < |ips| && Unpinning(ips, i, pins, left)
    ensures ips[i] in pins
    ensures Unpinning(ips, i + 1, pins - {ips[i]}, left) && Unpinning(ips, i + 1, pins, left + {ips[i]})
  {
    DistinctSplit(ips, i);
  }

  lemma UnpinningDone(ips: seq<IP>, pins: set<IP>, left: set<IP>)
    requires Unpinning(ips, |ips|, pins, left)
    ensures pins == left <= Elements(ips)
  {
    assert ips[..|ips|] == ips && ips[|ips|..] == [];
  }

  lemma UnpinningStart(ips: seq<IP>)
    ensures Unpinning(ips, 0, Elements(ips), {})
  {
    assert ips[0..] == ips;
  }

  class Tunnel {
    const router: Router
    const iface: string
    const hasRouter: bool
    const hasKillSwitch: bool
    var peers: map<Uuid, PeerPath>
    /** The peers whose WireGuard entry carries the whole address space. */
    var widened: set<Uuid>
    /** What the host firewall lets out, while it is locked. */
    var firewall: Option<K.Policy>

    // exitState
    var deviceID: Uuid
    var priorDefault: Hop
    var pinned: seq<IP>
    var captured: bool
    var locked: bool

    /** The table before the current exit node was set, and the halves taken from it. */
    ghost var base: Table
    ghost var taken: set<Prefix>
    /** Every write of AllowedIPs. */
    ghost var log: seq<Write>

    ghost function Tun(): Hop {
      Hop(None, iface)
    }

    /** The router's record is in order: every command was safe or excused, and changes are numbered upwards. */
    ghost predicate Recorded()
      reads this, router
    {
      && router.goal.iface == iface
      && AllSafe(router.trace)
      && forall m | m in router.trace :: m.goal.change <= router.goal.change
    }

    ghost predicate Valid()
      reads this, router
    {
      && Recorded()
      && (captured ==>
            && hasRouter
            && Distinct(pinned)
            && {LOW_V4, HIGH_V4} <= taken <= ALL_HALVES
            && router.table == Shape(base, Elements(pinned) + taken, Elements(pinned), priorDefault, taken, Tun())
            && router.goal == Goal(router.goal.change, base, priorDefault, Elements(pinned), iface))
      && (!captured ==> deviceID == NIL_UUID && pinned == [] && !locked)
      && (locked ==> hasKillSwitch && firewall.Some?)
      && widened <= (if captured then {deviceID} else {}) + Unnarrowed(log)
    }

    constructor (table: Table, iface: string, hasRouter: bool, hasKillSwitch: bool)
      ensures Valid() && !captured && router.table == table && router.trace == []
      ensures fresh(router) && this.iface == iface && widened == {} && log == [] && firewall == None
    {
      router := new Router(table, iface);
      this.iface, this.hasRouter, this.hasKillSwitch := iface, hasRouter, hasKillSwitch;
      peers, widened, firewall := map[], {}, None;
      deviceID, priorDefault, pinned, captured, locked := NIL_UUID, Hop(None, ""), [], false, false;
      base, taken, log := table, {}, [];
    }

    /** Writes a peer's AllowedIPs to the WireGuard device: the whole space, or its own address. */
    method UpdateAllowedIPs(device: Uuid, wide: bool) returns (ok: bool)
      modifies this`widened, this`log
      ensures log == old(log) + [Wrote(device, wide, ok)]
      ensures widened == Rewritten(old(widened), Wrote(device, wide, ok))
    {
      ok := *;
      if ok {
        widened := if wide then widened + {device} else widened - {device};
      }
      log := log + [Wrote(device, wide, ok)];
    }

    /** Puts a peer that is still known back to its own address. */
    method Narrow(device: Uuid) returns (ok: bool, ghost w: Write)
      modifies this`widened, this`log
      ensures NarrowOf(w, device, device != NIL_UUID && device in peers)
      ensures log == old(log) + [w] && widened == Rewritten(old(widened), w)
      ensures ok <==> w.Absent? || w.ok
    {
      ok, w := true, Absent(device);
      if device != NIL_UUID && device in peers {
        ok := UpdateAllowedIPs(device, false);
        w := Wrote(device, false, ok);
      } else {
        log := log + [w];
      }
    }

    /** Removes one pin of several, or leaves it. */
    method UnpinOne(ip: IP, ghost touched: set<Prefix>, ghost pins: set<IP>, ghost halves: set<Prefix>)
      returns (ok: bool, ghost m: Moment)
      requires Recorded() && halves <= ALL_HALVES && ip in pins
      requires halves == {} || Broken(router.trace, router.goal.change)
      requires var g := router.goal;
        && pins <= g.endpoints && pins <= touched <= g.endpoints + ALL_HALVES
        && router.table == Shape(g.base, touched, pins, g.via, halves, Tun())
      modifies router`table, router`trace
      ensures Recorded()
      ensures m == Moment(Delete(HostPrefix(ip), None), ok, router.table, router.goal)
      ensures router.trace == old(router.trace) + [m]
      ensures var g := router.goal;
        router.table == Shape(g.base, touched, if ok then pins - {ip} else pins, g.via, halves, Tun())
    {
      UnpinStep(router.goal, touched, pins, halves, Tun(), ip);
      ok := router.UnpinEndpoint(ip);
      m := Moment(Delete(HostPrefix(ip), None), ok, router.table, router.goal);
      AllSafeSnoc(old(router.trace), m);
    }

    /** Removes pins, logging and ignoring failures: exactly those whose removal failed stay. */
    method UnpinAll(ips: seq<IP>, ghost touched: set<Prefix>, ghost halves: set<Prefix>) returns (ghost ms: seq<Moment>)
      requires Recorded() && Distinct(ips) && halves <= ALL_HALVES
      requires halves == {} || Broken(router.trace, router.goal.change)
      requires var g := router.goal;
        && Elements(ips) <= g.endpoints && Elements(ips) <= touched <= g.endpoints + ALL_HALVES
        && router.table == Shape(g.base, touched, Elements(ips), g.via, halves, Tun())
      modifies router`table, router`trace
      ensures Recorded() && router.trace == old(router.trace) + ms
      ensures Summary(ms) == Outcome({}, {}, Failures(ms)) && Failures(ms) <= Elements(ips)
      ensures forall m | m in ms :: m.command.Delete?
      ensures router.table == Shape(router.goal.base, touched, Failures(ms), router.goal.via, halves, Tun())
    {
      ghost var g := router.goal;
      ghost var pins, left: set<IP> := Elements(ips), {};
      ms := [];
      UnpinningStart(ips);
      for i := 0 to |ips|
        invariant Recorded() && router.trace == old(router.trace) + ms
        invariant Summary(ms) == Outcome({}, {}, left) && Unpinning(ips, i, pins, left)
        invariant forall m | m in ms :: m.command.Delete?
        invariant router.table == Shape(g.base, touched, pins, g.via, halves, Tun())
      {
        UnpinningStep(ips, i, pins, left);
        var ok;
        ghost var m;
        ghost var before := ms;
        ok, m := UnpinOne(ips[i], touched, pins, halves);
        ms := ms + [m];
        OneMore(before, m);
        pins := if ok then pins - {ips[i]} else pins;
        left := if ok then left else left + {ips[i]};
      }
      UnpinningDone(ips, pins, left);
    }

    /** Pins endpoints one by one until a command fails. */
    method PinAll(endpoints: seq<IP>, via: Hop) returns (ok: bool, done: seq<IP>, ghost ms: seq<Moment>)
      requires Recorded() && Distinct(endpoints) && Usable(via)
      requires router.goal == Goal(router.goal.change, router.table, via, Elements(endpoints), iface)
      modifies router`table, router`trace
      ensures Recorded() && router.trace == old(router.trace) + ms
      ensures Begins(done, endpoints) && (ok <==> |done| == |endpoints|)
      ensures Summary(ms) == Outcome(Elements(done), if ok then {} else {endpoints[|done|]}, {})
      ensures router.table == Shape(router.goal.base, Elements(done), Elements(done), via, {}, Tun())
    {
      ghost var g := router.goal;
      ghost var pins: set<IP> := {};
      done, ms := [], [];
      ShapeStart(g.base, via, Tun());
      for i := 0 to |endpoints|
        invariant Recorded() && router.trace == old(router.trace) + ms
        invariant |done| == i && Begins(done, endpoints) && pins == Elements(done) && pins <= g.endpoints
        invariant Summary(ms) == Outcome(pins, {}, {})
        invariant router.table == Shape(g.base, pins, pins, via, {}, Tun())
      {
        BeginsMore(done, endpoints);
        ghost var m;
        ghost var before := ms;
        ok, m := PinOne(endpoints[i], via, pins);
        ms := ms + [m];
        OneMore(before, m);
        if !ok {
          return;
        }
        done := done + [endpoints[i]];
        pins := pins + {endpoints[i]};
      }
      ok := true;
    }

    method PinOne(ip: IP, via: Hop, ghost pins: set<IP>) returns (ok: bool, ghost m: Moment)
      requires Recorded() && Usable(via) && router.goal.via == via && pins <= router.goal.endpoints
      requires ip in router.goal.endpoints && router.table == Shape(router.goal.base, pins, pins, via, {}, Tun())
      modifies router`table, router`trace
      ensures Recorded()
      ensures m == Moment(Replace(HostPrefix(ip), via), ok, router.table, router.goal)
      ensures router.trace == old(router.trace) + [m]
      ensures var all := if ok then pins + {ip} else pins;
        router.table == Shape(router.goal.base, all, all, via, {}, Tun())
    {
      PinStep(router.goal, pins, Tun(), ip);
      ghost var ms;
      ok, ms := router.PinEndpoint(ip, via);
      m := ms[0];
      AllSafeSnoc(old(router.trace), m);
    }

    /** A half that was not released is recorded as left with the tunnel. */
    lemma NotReleased(g: Goal, start: Table, ms: seq<Moment>, p: Prefix)
      requires g.iface == iface && p in HalvesVia(start, iface) && p in Failures(ms)
      requires OnlyRemoves(ms, g, start, HalvesVia(start, iface) - Failures(ms))
      ensures Broken(ms, g.change)
    {
      var m := FailureOf(ms, p);
      assert Stopped(m);
    }

    /** Releases the default route and then removes the pins: exactly what a command failed to delete stays. */
    method UndoRoutes(pins: seq<IP>, ghost taken: set<Prefix>)
      returns (ok: bool, ghost touched: set<Prefix>, ghost ms: seq<Moment>)
      requires Recorded() && Distinct(pins) && taken <= ALL_HALVES && router.goal.endpoints == Elements(pins)
      requires var g := router.goal;
        router.table == Shape(g.base, Elements(pins) + taken, Elements(pins), g.via, taken, Tun())
      modifies router`table, router`trace
      ensures Recorded() && router.trace == old(router.trace) + ms
      ensures var g := router.goal;
        Undone(g.base, router.table, Elements(pins), g.via, taken, touched, Summary(ms), Tun())
      ensures ok <==> LOW_V4 !in Failures(ms) && HIGH_V4 !in Failures(ms)
      ensures forall m | m in ms :: m.command.Delete?
    {
      ghost var start := router.table;
      ghost var first, second;
      ok, first := Release(pins, taken);
      touched := Elements(pins) + taken + (HalvesVia(start, iface) - Failures(first));
      second := UnpinAll(pins, touched, taken * Failures(first));
      ms := first + second;
      Together(first, second);
      UndoAddsUp(Elements(pins), taken, Failures(first), Failures(second));
    }

    method Release(pins: seq<IP>, ghost taken: set<Prefix>) returns (ok: bool, ghost ms: seq<Moment>)
      requires Recorded() && taken <= ALL_HALVES && router.goal.endpoints == Elements(pins)
      requires var g := router.goal;
        router.table == Shape(g.base, Elements(pins) + taken, Elements(pins), g.via, taken, Tun())
      modifies router`table, router`trace
      ensures Recorded() && router.trace == old(router.trace) + ms
      ensures Installed(ms) == {} && Failures(ms) <= ALL_HALVES
      ensures ok <==> LOW_V4 !in Failures(ms) && HIGH_V4 !in Failures(ms)
      ensures var g, gone := router.goal, HalvesVia(old(router.table), iface) - Failures(ms);
        router.table ==
        Shape(g.base, Elements(pins) + taken + gone, Elements(pins), g.via, taken * Failures(ms), Tun())
      ensures taken * Failures(ms) != {} ==> Broken(router.trace, router.goal.change)
      ensures forall m | m in ms :: m.command.Delete?
    {
      ghost var g, start := router.goal, router.table;
      ok, ms := router.ReleaseDefault(iface);
      ghost var gone := HalvesVia(start, iface) - Failures(ms);
      ReleaseSteps(g, Elements(pins), taken, Tun(), gone);
      AllSafeConcat(old(router.trace), ms);
      assert taken <= HalvesVia(start, iface) && taken - gone == taken * Failures(ms);
      if p :| p in taken * Failures(ms) {
        NotReleased(g, start, ms, p);
      }
    }

    /** Issues the release, which unlocks the firewall if it succeeds. */
    method ReleaseKillSwitch() returns (ok: bool, ghost m: Moment)
      requires Recorded() && SafeTable(router.table, router.goal)
      modifies this`firewall, router`trace
      ensures Recorded() && router.trace == old(router.trace) + [m]
      ensures m == Moment(Unlock, ok, router.table, router.goal)
      ensures firewall == if ok then None else old(firewall)
    {
      ok := *;
      if ok {
        firewall := None;
      }
      m := Moment(Unlock, ok, router.table, router.goal);
      router.trace := router.trace + [m];
      AllSafeSnoc(old(router.trace), m);
    }

    /** Undoes the routes and then the widening. */
    method Restore(device: Uuid, pins: seq<IP>, ghost taken: set<Prefix>)
      returns (ok: bool, ghost touched: set<Prefix>, ghost ms: seq<Moment>, ghost w: Write)
      requires Recorded() && Distinct(pins) && taken <= ALL_HALVES && router.goal.endpoints == Elements(pins)
      requires var g := router.goal;
        router.table == Shape(g.base, Elements(pins) + taken, Elements(pins), g.via, taken, Tun())
      modifies this`widened, this`log, router`table, router`trace
      ensures Recorded() && router.trace == old(router.trace) + ms
      ensures var g := router.goal;
        Undone(g.base, router.table, Elements(pins), g.via, taken, touched, Summary(ms), Tun())
      ensures NarrowOf(w, device, device != NIL_UUID && device in peers)
      ensures log == old(log) + [w] && widened == Rewritten(old(widened), w)
      ensures ok <==> LOW_V4 !in Failures(ms) && HIGH_V4 !in Failures(ms) && (w.Absent? || w.ok)
      ensures forall m | m in ms :: m.command.Delete?
    {
      ok, touched, ms := UndoRoutes(pins, taken);
      var narrowed;
      narrowed, w := Narrow(device);
      ok := ok && narrowed;
    }

    /** Releases the kill switch first, if it is engaged, and then undoes the rest, trying every step. */
    method TearDown(device: Uuid, pins: seq<IP>, lock: bool, ghost taken: set<Prefix>)
      returns (ok: bool, ghost touched: set<Prefix>, ghost ms: seq<Moment>, ghost w: Write)
      requires Recorded() && Distinct(pins) && taken <= ALL_HALVES && router.goal.endpoints == Elements(pins)
      requires lock ==> hasKillSwitch
      requires var g := router.goal;
        router.table == Shape(g.base, Elements(pins) + taken, Elements(pins), g.via, taken, Tun())
      modifies this`widened, this`log, this`firewall, router`table, router`trace
      ensures Recorded() && router.trace == old(router.trace) + ms
      ensures var g := router.goal;
        Undone(g.base, router.table, Elements(pins), g.via, taken, touched, Summary(ms), Tun())
      ensures Clean(router.goal.base, Elements(pins)) ==>
        (router.table == router.goal.base <==> Failures(ms) * (Elements(pins) + taken) == {})
      ensures NarrowOf(w, device, device != NIL_UUID && device in peers)
      ensures log == old(log) + [w] && widened == Rewritten(old(widened), w)
      ensures UnlocksFirst(lock, ms) && firewall == if Unlocked(lock, ms) then None else old(firewall)
      ensures ok <==> !Reported(lock, ms, w)
    {
      var unlocked;
      ghost var unlock;
      unlocked, unlock := UnlockIf(lock, pins, taken);
      ok, touched, ms, w := Restore(device, pins, taken);
      ClearAddsUp(lock, unlock, ms, w);
      Regroup(old(router.trace), unlock, ms);
      ok, ms := unlocked && ok, unlock + ms;
      UndoneIff(router.goal.base, router.table, Elements(pins), router.goal.via, taken, touched, Summary(ms), Tun());
    }

    method UnlockIf(lock: bool, ghost pins: seq<IP>, ghost taken: set<Prefix>) returns (ok: bool, ghost ms: seq<Moment>)
      requires Recorded() && taken <= ALL_HALVES && router.goal.endpoints == Elements(pins) && (lock ==> hasKillSwitch)
      requires var g := router.goal;
        router.table == Shape(g.base, Elements(pins) + taken, Elements(pins), g.via, taken, Tun())
      modifies this`firewall, router`trace
      ensures Recorded() && router.trace == old(router.trace) + ms
      ensures if lock then |ms| == 1 && ms[0].command == Unlock && ms[0].ok == ok else ms == [] && ok
      ensures firewall == if lock && ok then None else old(firewall)
    {
      ok, ms := true, [];
      if lock && hasKillSwitch {
        ShapeSafe(router.goal, Elements(pins) + taken, Elements(pins), taken, Tun());
        ghost var m;
        ok, m := ReleaseKillSwitch();
        ms := [m];
      }
    }

    /**
     Restores ordinary routing, trying every step. On a host with no routes of its own for what
     was changed, the table is what it was before the exit node was set if and only if no command
     failed to delete something of it.
     */
    method ClearExitNode() returns (ok: bool, ghost touched: set<Prefix>, ghost ms: seq<Moment>, ghost ws: seq<Write>)
      requires Valid()
      modifies this`deviceID, this`pinned, this`captured, this`locked, this`widened, this`firewall, this`log,
               router`table, router`trace
      ensures Valid() && !captured
      ensures router.trace == old(router.trace) + ms && log == old(log) + ws
      ensures !old(captured) ==> ok && ms == [] && ws == [] && router.table == old(router.table)
                                 && widened == old(widened) && firewall == old(firewall)
      ensures old(captured) ==>
        Undone(old(base), router.table, Elements(old(pinned)), old(priorDefault), old(taken), touched, Summary(ms),
               Tun())
      ensures old(captured) && Clean(old(base), Elements(old(pinned))) ==>
        (router.table == old(base) <==> Failures(ms) * (Elements(old(pinned)) + old(taken)) == {})
      ensures old(captured) ==>
        && |ws| == 1 && NarrowOf(ws[0], old(deviceID), old(deviceID) != NIL_UUID && old(deviceID) in peers)
        && widened == Rewritten(old(widened), ws[0])
        && UnlocksFirst(old(locked), ms) && firewall == (if Unlocked(old(locked), ms) then None else old(firewall))
        && (ok <==> !Reported(old(locked), ms, ws[0]))
    {
      ok, touched, ms, ws := true, {}, [], [];
      var device, pins, held, lock := deviceID, pinned, captured, locked;
      deviceID, pinned, captured, locked := NIL_UUID, [], false, false;
      if device == NIL_UUID && !held && !lock {
        return;
      }
      ghost var w;
      ok, touched, ms, w := TearDown(device, pins, lock, taken);
      ws := [w];
      UnnarrowedSnoc(old(log), w);
    }

    /**
     Undoes the pins and the widening of a change that did not come about, after the commands `did`:
     exactly the pins whose removal fails stay, and the half that is left captured.
     */
    method Rollback(r: SetResult, done: seq<IP>, device: Uuid, ghost did: seq<Moment>)
      returns (ghost ms: seq<Moment>, ghost ok: bool)
      requires Recorded() && Distinct(done) && r in {PinFailed, CaptureFailed(false), CaptureFailed(true)}
      requires LeftCaptured(r) == {} || Broken(router.trace, router.goal.change)
      requires Elements(done) <= router.goal.endpoints && RefusedBy(r, Refused(did), router.goal.endpoints)
      requires Summary(did) == Outcome(Elements(done) + LeftCaptured(r), Refused(did), {})
      requires var g := router.goal;
        router.table == Shape(g.base, Installed(did), Elements(done), g.via, LeftCaptured(r), Tun())
      modifies this`widened, this`log, router`table, router`trace
      ensures Recorded() && router.trace == old(router.trace) + ms
      ensures var g := router.goal;
        Attempted(r, g.base, router.table, g.endpoints, g.via, LeftCaptured(r), Summary(did + ms), Tun())
      ensures log == old(log) + [Wrote(device, false, ok)]
      ensures widened == Rewritten(old(widened), Wrote(device, false, ok))
    {
      ms := UnpinAll(done, Installed(did), LeftCaptured(r));
      RollbackAddsUp(r, router.goal, router.table, Elements(done), did, ms, Tun());
      var narrowed := UpdateAllowedIPs(device, false);
      ok := narrowed;
    }

    method Capture(endpoints: seq<IP>) returns (err: Option<Prefix>, ghost ms: seq<Moment>)
      requires Recorded() && router.goal.endpoints == Elements(endpoints)
      requires var g := router.goal;
        router.table == Shape(g.base, g.endpoints, g.endpoints, g.via, {}, Tun())
      modifies router`table, router`trace
      ensures Recorded() && router.trace == old(router.trace) + ms
      ensures Failures(ms) == {} && Installed(ms) <= ALL_HALVES
      ensures var g := router.goal;
        router.table == Shape(g.base, g.endpoints + Installed(ms), g.endpoints, g.via, Installed(ms), Tun())
      ensures err.None? ==> {LOW_V4, HIGH_V4} <= Installed(ms) && Refused(ms) <= {LOW_V6, HIGH_V6}
      ensures err.Some? ==> err.value in {LOW_V4, HIGH_V4} && Refused(ms) == {err.value}
                            && Installed(ms) == if err.value == HIGH_V4 then {LOW_V4} else {}
      ensures err == Some(HIGH_V4) ==> Broken(router.trace, router.goal.change)
    {
      ghost var g := router.goal;
      CaptureSteps(g, Tun());
      err, ms := router.CaptureDefault(iface);
      AllSafeConcat(old(router.trace), ms);
      if err == Some(HIGH_V4) {
        var m := RefusalOf(ms, HIGH_V4);
        assert Stopped(m);
      }
    }

    /** Pins every endpoint, or undoes the pins it made. */
    method PinOrRollback(endpoints: seq<IP>, via: Hop, device: Uuid)
      returns (ok: bool, ghost ms: seq<Moment>, ghost ws: seq<Write>)
      requires Recorded() && Distinct(endpoints) && Usable(via)
      requires router.goal == Goal(router.goal.change, router.table, via, Elements(endpoints), iface)
      modifies this`widened, this`log, router`table, router`trace
      ensures Recorded() && router.trace == old(router.trace) + ms && log == old(log) + ws
      ensures var g := router.goal;
        if ok then
          && Summary(ms) == Outcome(g.endpoints, {}, {}) && ws == [] && widened == old(widened)
          && router.table == Shape(g.base, g.endpoints, g.endpoints, via, {}, Tun())
        else
          && Attempted(PinFailed, g.base, router.table, g.endpoints, via, {}, Summary(ms), Tun())
          && NarrowsIfFailed(PinFailed, device, ws) && widened == Rewritten(old(widened), ws[0])
    {
      var done;
      ghost var back, narrowed;
      ok, done, ms := PinAll(endpoints, via);
      ws := [];
      if ok {
        BeginsAll(done, endpoints);
      } else {
        assert Elements(done) + LeftCaptured(PinFailed) == Elements(done);
        back, narrowed := Rollback(PinFailed, done, device, ms);
        ms, ws := ms + back, [Wrote(device, false, narrowed)];
      }
    }

    /** With every endpoint pinned, captures the default route, or undoes the pins. */
    method CaptureOrRollback(endpoints: seq<IP>, device: Uuid, ghost did: seq<Moment>)
      returns (r: SetResult, ghost halves: set<Prefix>, ghost ms: seq<Moment>, ghost ws: seq<Write>)
      requires Recorded() && Distinct(endpoints) && router.goal.endpoints == Elements(endpoints)
      requires Summary(did) == Outcome(Elements(endpoints), {}, {})
      requires var g := router.goal; router.table == Shape(g.base, g.endpoints, g.endpoints, g.via, {}, Tun())
      modifies this`widened, this`log, router`table, router`trace
      ensures r in {Engaged, CaptureFailed(false), CaptureFailed(true)}
      ensures Recorded() && router.trace == old(router.trace) + ms && log == old(log) + ws
      ensures var g := router.goal;
        Attempted(r, g.base, router.table, g.endpoints, g.via, halves, Summary(did + ms), Tun())
      ensures NarrowsIfFailed(r, device, ws)
      ensures widened == if ws == [] then old(widened) else Rewritten(old(widened), ws[0])
    {
      var err;
      ghost var back, narrowed;
      err, ms := Capture(endpoints);
      Together(did, ms);
      halves, ws := Installed(ms), [];
      if err.None? {
        return Engaged, halves, ms, ws;
      }
      r := CaptureFailed(err.value == HIGH_V4);
      back, narrowed := Rollback(r, endpoints, device, did + ms);
      assert did + ms + back == did + (ms + back);
      ms, ws := ms + back, [Wrote(device, false, narrowed)];
    }

    /** Pins every endpoint and then captures the default route, or undoes what it did. */
    method InstallRoutes(endpoints: seq<IP>, via: Hop, device: Uuid)
      returns (r: SetResult, ghost halves: set<Prefix>, ghost ms: seq<Moment>, ghost ws: seq<Write>)
      requires Recorded() && Distinct(endpoints) && Usable(via)
      requires router.goal == Goal(router.goal.change, router.table, via, Elements(endpoints), iface)
      modifies this`widened, this`log, router`table, router`trace
      ensures r in {Engaged, PinFailed, CaptureFailed(false), CaptureFailed(true)}
      ensures Recorded() && router.trace == old(router.trace) + ms && log == old(log) + ws
      ensures Attempted(r, router.goal.base, router.table, Elements(endpoints), via, halves, Summary(ms), Tun())
      ensures NarrowsIfFailed(r, device, ws)
      ensures widened == if ws == [] then old(widened) else Rewritten(old(widened), ws[0])
    {
      var ok;
      ghost var second;
      ok, ms, ws := PinOrRollback(endpoints, via, device);
      r, halves := PinFailed, {};
      if ok {
        r, halves, second, ws := CaptureOrRollback(endpoints, device, ms);
        ms := ms + second;
      }
    }

    /** Asks for something of the host that changes no route. */
    method Ask(command: Command) returns (ok: bool, ghost m: Moment)
      requires Recorded() && SafeTable(router.table, router.goal)
      modifies router`trace
      ensures Recorded() && router.trace == old(router.trace) + [m]
      ensures m == Moment(command, ok, router.table, router.goal)
    {
      ok := *;
      m := Moment(command, ok, router.table, router.goal);
      router.trace := router.trace + [m];
      AllSafeSnoc(old(router.trace), m);
    }

    /** Locks the firewall around the tunnel and the addresses its peers are reached at. */
    method EngageKillSwitch(allowLAN: bool) returns (ok: bool, ghost ms: seq<Moment>)
      requires Valid() && captured
      modifies this`firewall, this`locked, router`trace
      ensures Valid() && router.trace == old(router.trace) + ms
      ensures LockedBy(ok, ms, hasKillSwitch, allowLAN, iface, peers) && forall m | m in ms :: Quiet(m)
      ensures locked == (ok || old(locked))
      ensures firewall == if ok then Some(ms[|ms| - 1].command.policy) else old(firewall)
    {
      ms := [];
      if !hasKillSwitch {
        return false, ms;
      }
      ShapeSafe(router.goal, Elements(pinned) + taken, Elements(pinned), taken, Tun());
      var targets := TransportAddrPorts(peers);
      var policy := K.Policy(iface, K.AllValid(targets), [], allowLAN);
      ghost var m;
      if allowLAN {
        var nets: seq<Option<Prefix>> := *;
        ok, m := Ask(ListNetworks(nets));
        ms := [m];
        if !ok {
          return;
        }
        policy := policy.(localNetworks := nets);
      }
      ok, m := Ask(Lock(policy));
      ms := ms + [m];
      if ok {
        firewall := Some(policy);
        locked := true;
      }
    }

    /** Starts the next change, about a table that is as yet untouched. */
    ghost method Begin(via: Hop, endpoints: set<IP>)
      requires Recorded()
      modifies router`goal
      ensures Recorded() && router.goal == Goal(old(router.goal.change) + 1, router.table, via, endpoints, iface)
    {
      router.goal := Goal(router.goal.change + 1, router.table, via, endpoints, iface);
    }

    /** Reads the default route. */
    method ReadDefault() returns (prior: Option<Hop>, ghost m: Moment)
      requires Recorded()
      modifies router`goal, router`trace
      ensures Recorded() && router.trace == old(router.trace) + [m] && m.command == Show
      ensures prior.Some? <==> m.ok && DEFAULT_ROUTE in router.table && Usable(router.table[DEFAULT_ROUTE])
      ensures prior.Some? ==> prior.value == router.table[DEFAULT_ROUTE]
    {
      Begin(Hop(None, ""), {});
      ghost var ok;
      prior, ok := router.Snapshot();
      m := Moment(Show, ok, router.table, router.goal);
      AllSafeSnoc(old(router.trace), m);
    }

    /** Installs the routes around exactly the addresses that the peers are reached at. */
    method InstallAround(via: Hop, device: Uuid)
      returns (r: SetResult, endpoints: seq<IP>, ghost halves: set<Prefix>, ghost ms: seq<Moment>, ghost ws: seq<Write>)
      requires Recorded() && Usable(via)
      modifies this`widened, this`log, router
      ensures r in {Engaged, PinFailed, CaptureFailed(false), CaptureFailed(true)}
      ensures Recorded() && router.trace == old(router.trace) + ms && log == old(log) + ws
      ensures Distinct(endpoints) && forall ip :: ip in endpoints <==> ContactsHost(peers, ip)
      ensures router.goal == Goal(router.goal.change, old(router.table), via, Elements(endpoints), iface)
      ensures Attempted(r, old(router.table), router.table, Elements(endpoints), via, halves, Summary(ms), Tun())
      ensures NarrowsIfFailed(r, device, ws)
      ensures widened == if ws == [] then old(widened) else Rewritten(old(widened), ws[0])
    {
      endpoints := TransportEndpoints(peers);
      Begin(via, Elements(endpoints));
      r, halves, ms, ws := InstallRoutes(endpoints, via, device);
    }

    /** Widens the peer and installs the routes. */
    method WidenAndInstall(via: Hop, device: Uuid)
      returns (r: SetResult, endpoints: seq<IP>, ghost halves: set<Prefix>, ghost ms: seq<Moment>, ghost ws: seq<Write>)
      requires Recorded() && Usable(via)
      modifies this`widened, this`log, router
      ensures r in {Engaged, WidenFailed, PinFailed, CaptureFailed(false), CaptureFailed(true)}
      ensures Recorded() && router.trace == old(router.trace) + ms && log == old(log) + ws
      ensures WritesOf(r, device, ws) && widened == WidenedAfter(old(widened), device, ws)
      ensures Distinct(endpoints)
      ensures Attempted(r, old(router.table), router.table, Elements(endpoints), via, halves, Summary(ms), Tun())
      ensures if r.WidenFailed? then endpoints == []
              else
                && (forall ip :: ip in endpoints <==> ContactsHost(peers, ip))
                && router.goal == Goal(router.goal.change, old(router.table), via, Elements(endpoints), iface)
    {
      endpoints, halves, ms := [], {}, [];
      var wide := UpdateAllowedIPs(device, true);
      ws := [Wrote(device, true, wide)];
      if !wide {
        r := WidenFailed;
        NothingAttempted(r, router.table, via, Tun());
        return;
      }
      ghost var narrow;
      r, endpoints, halves, ms, narrow := InstallAround(via, device);
      ws := ws + narrow;
    }

    /** Reads the default route, widens the peer, and installs the routes around its endpoints. */
    method Install(device: Uuid)
      returns (r: SetResult, via: Hop, endpoints: seq<IP>, ghost halves: set<Prefix>, ghost ms: seq<Moment>,
               ghost ws: seq<Write>)
      requires Recorded()
      modifies this`widened, this`log, router
      ensures r in {Engaged, NoDefaultRoute, WidenFailed, PinFailed, CaptureFailed(false), CaptureFailed(true)}
      ensures Recorded() && router.trace == old(router.trace) + ms && log == old(log) + ws
      ensures WritesOf(r, device, ws) && widened == WidenedAfter(old(widened), device, ws)
      ensures Distinct(endpoints)
      ensures Attempted(r, old(router.table), router.table, Elements(endpoints), via, halves, Summary(ms), Tun())
      ensures r in {NoDefaultRoute, WidenFailed} ==> endpoints == []
      ensures r.NoDefaultRoute? ==> |ms| == 1 && (ms[0].ok ==>
                DEFAULT_ROUTE !in old(router.table) || !Usable(old(router.table)[DEFAULT_ROUTE]))
      ensures r !in {NoDefaultRoute, WidenFailed} ==>
        && (forall ip :: ip in endpoints <==> ContactsHost(peers, ip))
        && DEFAULT_ROUTE in old(router.table) && via == old(router.table)[DEFAULT_ROUTE]
        && router.goal == Goal(router.goal.change, old(router.table), via, Elements(endpoints), iface)
    {
      via, endpoints, halves, ws := Hop(None, ""), [], {}, [];
      ghost var m, rest;
      var prior;
      prior, m := ReadDefault();
      if prior.None? {
        r, ms := NoDefaultRoute, [m];
        OnlyShown(m);
        NothingAttempted(r, router.table, via, Tun());
        return;
      }
      via := prior.value;
      r, endpoints, halves, rest, ws := WidenAndInstall(via, device);
      ShownThen(m, rest);
      ms := [m] + rest;
    }

    /** Remembers what has been installed, so that it can be undone. */
    method Record(device: Uuid, via: Hop, pins: seq<IP>, ghost mid: Table, ghost halves: set<Prefix>)
      requires Recorded() && hasRouter && Distinct(pins) && {LOW_V4, HIGH_V4} <= halves <= ALL_HALVES && !locked
      requires router.table == Shape(mid, Elements(pins) + halves, Elements(pins), via, halves, Tun())
      requires router.goal == Goal(router.goal.change, mid, via, Elements(pins), iface)
      requires widened <= {device} + Unnarrowed(log)
      modifies this`deviceID, this`priorDefault, this`pinned, this`captured, this`base, this`taken
      ensures Valid() && captured && deviceID == device && pinned == pins && priorDefault == via && base == mid
      ensures taken == halves
    {
      deviceID, priorDefault, pinned, captured := device, via, pins, true;
      base, taken := mid, halves;
    }

    /** The routing half of setting an exit node, once any earlier one is torn down. */
    method Engage(device: Uuid)
      returns (r: SetResult, ghost endpoints: set<IP>, ghost via: Hop, ghost halves: set<Prefix>, ghost ms: seq<Moment>,
               ghost ws: seq<Write>)
      requires Valid() && !captured && hasRouter
      modifies this`deviceID, this`priorDefault, this`pinned, this`captured, this`widened, this`base, this`taken,
               this`log, router
      ensures Valid() && !locked
      ensures r !in {EngagedUnlocked, NoRouter, NotAPeer, TeardownFailed} && (captured <==> r.Engaged?)
      ensures router.trace == old(router.trace) + ms && log == old(log) + ws
      ensures WritesOf(r, device, ws) && widened == WidenedAfter(old(widened), device, ws)
      ensures Attempted(r, old(router.table), router.table, endpoints, via, halves, Summary(ms), Tun())
      ensures if r in {NoDefaultRoute, WidenFailed} then endpoints == {}
              else forall ip :: ip in endpoints <==> ContactsHost(peers, ip)
      ensures captured ==>
        && deviceID == device && base == old(router.table) && Elements(pinned) == endpoints && taken == halves
        && DEFAULT_ROUTE in base && priorDefault == via == base[DEFAULT_ROUTE]
    {
      ghost var mid := router.table;
      var hop, pins;
      r, hop, pins, halves, ms, ws := Install(device);
      endpoints, via := Elements(pins), hop;
      UnnarrowedConcat(old(log), ws);
      if r.Engaged? {
        Record(device, hop, pins, mid, halves);
      } else if |ws| == 2 {
        assert ws[1] in ws;
      }
    }

    /** Engages, and then, by the commands `lock`, locks the firewall if asked to. */
    method EngageLocked(device: Uuid, killSwitch: bool, allowLAN: bool)
      returns (r: SetResult, ghost endpoints: set<IP>, ghost via: Hop, ghost halves: set<Prefix>, ghost ms: seq<Moment>,
               ghost lock: seq<Moment>, ghost ws: seq<Write>)
      requires Valid() && !captured && hasRouter
      modifies this`deviceID, this`priorDefault, this`pinned, this`captured, this`locked, this`widened, this`firewall,
               this`base, this`taken, this`log, router
      ensures Valid()
      ensures r !in {NoRouter, NotAPeer, TeardownFailed} && (captured <==> Routed(r).Engaged?)
      ensures router.trace == old(router.trace) + ms + lock && log == old(log) + ws
      ensures WritesOf(Routed(r), device, ws) && widened == WidenedAfter(old(widened), device, ws)
      ensures Attempted(Routed(r), old(router.table), router.table, endpoints, via, halves, Summary(ms), Tun())
      ensures if r in {NoDefaultRoute, WidenFailed} then endpoints == {}
              else forall ip :: ip in endpoints <==> ContactsHost(peers, ip)
      ensures captured ==> IsSet(device, old(router.table), endpoints, via, halves)
      ensures Locking(captured && killSwitch, allowLAN, lock, r, old(firewall))
    {
      lock := [];
      r, endpoints, via, halves, ms, ws := Engage(device);
      assert router.trace + [] == router.trace;
      if r.Engaged? && killSwitch {
        var engaged;
        engaged, lock := EngageKillSwitch(allowLAN);
        if !engaged {
          r := EngagedUnlocked;
        }
      }
    }

    /** Tears down any earlier exit node, by the commands `undo` and the write `narrow`, and sets this one. */
    method SwitchTo(device: Uuid, killSwitch: bool, allowLAN: bool)
      returns (r: SetResult, ghost mid: Table, ghost endpoints: set<IP>, ghost via: Hop, ghost halves: set<Prefix>,
               ghost undo: seq<Moment>, ghost ms: seq<Moment>, ghost lock: seq<Moment>, ghost narrow: seq<Write>,
               ghost ws: seq<Write>)
      requires Valid() && hasRouter
      modifies this`deviceID, this`priorDefault, this`pinned, this`captured, this`locked, this`widened, this`firewall,
               this`base, this`taken, this`log, router
      ensures Valid()
      ensures router.trace == old(router.trace) + undo + ms + lock && log == old(log) + narrow + ws
      ensures !r.NoRouter? && !r.NotAPeer? && (captured <==> Routed(r).Engaged?)
      ensures !old(captured) ==>
        && mid == old(router.table) && undo == [] && narrow == [] && widened == WidenedAfter(old(widened), device, ws)
      ensures old(captured) ==>
        && |narrow| == 1 && NarrowOf(narrow[0], old(deviceID), old(deviceID) != NIL_UUID && old(deviceID) in peers)
        && UnlocksFirst(old(locked), undo)
      ensures Locking(captured && killSwitch, allowLAN, lock, r,
                      if Unlocked(old(locked), undo) then None else old(firewall))
      ensures r.TeardownFailed? <==> old(captured) && Reported(old(locked), undo, narrow[0])
      ensures old(captured) && Clean(old(base), Elements(old(pinned))) ==>
        (mid == old(base) <==> Failures(undo) * (Elements(old(pinned)) + old(taken)) == {})
      ensures WritesOf(Routed(r), device, ws)
      ensures if r in {TeardownFailed, NoDefaultRoute, WidenFailed} then endpoints == {}
              else forall ip :: ip in endpoints <==> ContactsHost(peers, ip)
      ensures Attempted(Routed(r), mid, router.table, endpoints, via, halves, Summary(ms), Tun())
      ensures captured ==> IsSet(device, mid, endpoints, via, halves)
    {
      endpoints, via, halves, ms, lock, ws := {}, Hop(None, ""), {}, [], [], [];
      var cleared;
      ghost var touched;
      cleared, touched, undo, narrow := ClearExitNode();
      mid := router.table;
      if !cleared {
        r := TeardownFailed;
        NothingAttempted(r, mid, via, Tun());
        assert router.trace == old(router.trace) + undo + ms + lock && log == old(log) + narrow + ws;
        return;
      }
      r, endpoints, via, halves, ms, lock, ws := EngageLocked(device, killSwitch, allowLAN);
    }

    /** What is recorded of an exit node that has been set. */
    ghost predicate IsSet(device: Uuid, mid: Table, endpoints: set<IP>, via: Hop, halves: set<Prefix>)
      reads this
    {
      && deviceID == device && base == mid && Elements(pinned) == endpoints && taken == halves
      && DEFAULT_ROUTE in mid && priorDefault == via == mid[DEFAULT_ROUTE]
    }

    /** The firewall is locked by the commands `lock` if it is to be, and left as it was otherwise. */
    ghost predicate Locking(wanted: bool, allowLAN: bool, lock: seq<Moment>, r: SetResult, before: Option<K.Policy>)
      reads this
    {
      && (forall m | m in lock :: Quiet(m))
      && if wanted then
           && LockedBy(locked, lock, hasKillSwitch, allowLAN, iface, peers) && (r.Engaged? <==> locked)
           && firewall == (if locked then Some(lock[|lock| - 1].command.policy) else before)
         else lock == [] && !locked && !r.EngagedUnlocked? && firewall == before
    }

    /**
     Routes everything through one peer. `mid` is the table once any earlier exit node is torn down,
     by the commands `undo`; `ms` are the route commands after that, and `lock` those to the firewall.
     */
    method SetExitNode(device: Uuid, killSwitch: bool, allowLAN: bool)
      returns (r: SetResult, ghost mid: Table, ghost endpoints: set<IP>, ghost via: Hop, ghost halves: set<Prefix>,
               ghost undo: seq<Moment>, ghost ms: seq<Moment>, ghost lock: seq<Moment>, ghost narrow: seq<Write>,
               ghost ws: seq<Write>)
      requires Valid()
      modifies this`deviceID, this`priorDefault, this`pinned, this`captured, this`locked, this`widened, this`firewall,
               this`base, this`taken, this`log, router
      ensures Valid()
      ensures router.trace == old(router.trace) + undo + ms + lock && log == old(log) + narrow + ws
      ensures (r.NoRouter? <==> !hasRouter) && (r.NotAPeer? <==> hasRouter && device !in peers)
      ensures r.NoRouter? || r.NotAPeer? ==> unchanged(this) && unchanged(router)
      ensures !r.NoRouter? && !r.NotAPeer? ==>
        && (captured <==> Routed(r).Engaged?)
        && Attempted(Routed(r), mid, router.table, endpoints, via, halves, Summary(ms), Tun())
        && WritesOf(Routed(r), device, ws)
        && (r.TeardownFailed? <==> old(captured) && |narrow| == 1 && Reported(old(locked), undo, narrow[0]))
      ensures !old(captured) ==>
        && mid == old(router.table) && undo == [] && narrow == [] && widened == WidenedAfter(old(widened), device, ws)
      ensures !r.NoRouter? && !r.NotAPeer? ==>
        Locking(captured && killSwitch, allowLAN, lock, r, if Unlocked(old(locked), undo) then None else old(firewall))
      ensures old(captured) && !r.NoRouter? && !r.NotAPeer? ==>
        && |narrow| == 1 && NarrowOf(narrow[0], old(deviceID), old(deviceID) != NIL_UUID && old(deviceID) in peers)
        && UnlocksFirst(old(locked), undo)
        && (Clean(old(base), Elements(old(pinned))) ==>
              (mid == old(base) <==> Failures(undo) * (Elements(old(pinned)) + old(taken)) == {}))
      ensures if r in {NoRouter, NotAPeer, TeardownFailed, NoDefaultRoute, WidenFailed} then endpoints == {}
              else forall ip :: ip in endpoints <==> ContactsHost(peers, ip)
      ensures Routed(r).Engaged? ==> IsSet(device, mid, endpoints, via, halves)
    {
      mid, endpoints, via, halves, undo, ms, lock := router.table, {}, Hop(None, ""), {}, [], [], [];
      narrow, ws := [], [];
      if !hasRouter {
        r := NoRouter;
      } else if device !in peers {
        r := NotAPeer;
      } else {
        r, mid, endpoints, via, halves, undo, ms, lock, narrow, ws := SwitchTo(device, killSwitch, allowLAN);
      }
    }

    /** Clears the exit node that the commands `did` have engaged. */
    method ClearEngaged(r: SetResult, ghost did: seq<Moment>, ghost before: set<Uuid>)
      returns (ghost ms: seq<Moment>, ghost ws: seq<Write>)
      requires Valid() && captured && r != CaptureFailed(true)
      requires Summary(did) == Outcome(Elements(pinned) + taken, Refused(did), {}) && widened == before + {deviceID}
      modifies this`deviceID, this`pinned, this`captured, this`locked, this`widened, this`firewall, this`log,
               router`table, router`trace
      ensures Valid() && !captured
      ensures router.trace == old(router.trace) + ms && log == old(log) + ws
      ensures RestoredUnless(old(base), router.table, Elements(old(pinned)), r, Summary(did + ms))
      ensures NarrowedUnless(before, widened, old(deviceID), [Wrote(old(deviceID), true, true)] + ws)
      ensures UnlocksFirst(old(locked), ms)
      ensures old(locked) || old(firewall).None? ==>
        (firewall.Some? <==> ms != [] && ms[0].command == Unlock && !ms[0].ok)
    {
      var ok;
      ghost var touched;
      ok, touched, ms, ws := ClearExitNode();
      ThereAndBack(r, base, router.table, Elements(old(pinned)), priorDefault, taken, touched, did, ms, Tun());
      WidenedAndBack(before, old(deviceID), Wrote(old(deviceID), true, true), ws[0]);
      assert ws == [ws[0]];
    }

    /**
     Setting an exit node, by the commands `ms`, and clearing it again, by the commands `clear`, or
     failing to set it; `ws` are the writes. On a host with no routes of its own for what is changed,
     the table is what it was before if and only if no command failed to delete something that was
     installed and the capture did not stop on its second half. A peer that was not widened before is
     left widened if and only if a write failed to narrow it, or it has the nil identifier. A firewall
     that was open before is left locked if and only if the clear's first command failed to release it.
     */
    method SetThenClear(device: Uuid, killSwitch: bool, allowLAN: bool)
      returns (r: SetResult, ghost endpoints: set<IP>, ghost ms: seq<Moment>, ghost clear: seq<Moment>,
               ghost ws: seq<Write>)
      requires Valid() && !captured
      modifies this`deviceID, this`priorDefault, this`pinned, this`captured, this`locked, this`widened, this`firewall,
               this`base, this`taken, this`log, router
      ensures Valid() && !captured
      ensures router.trace == old(router.trace) + ms + clear && log == old(log) + ws
      ensures if r in {NoRouter, NotAPeer, NoDefaultRoute, WidenFailed} then endpoints == {}
              else forall ip :: ip in endpoints <==> ContactsHost(peers, ip)
      ensures RestoredUnless(old(router.table), router.table, endpoints, r, Summary(ms + clear))
      ensures NarrowedUnless(old(widened), widened, device, ws)
      ensures old(firewall).None? ==>
        (firewall.Some? <==> clear != [] && clear[0].command == Unlock && !clear[0].ok)
    {
      ghost var mid, via, halves, undo, lock, narrow;
      r, mid, endpoints, via, halves, undo, ms, lock, narrow, ws := SetExitNode(device, killSwitch, allowLAN);
      clear := [];
      assert old(router.trace) + [] == old(router.trace) && old(log) + [] == old(log);
      if captured {
        ghost var narrowed;
        QuietAfter(ms, lock);
        Regroup(old(router.trace), ms, lock);
        ms := ms + lock;
        clear, narrowed := ClearEngaged(r, ms, old(widened));
        ws := ws + narrowed;
      } else {
        assert ms + clear == ms;
        Regroup(old(router.trace), ms, clear);
        if !r.NoRouter? && !r.NotAPeer? {
          RolledBack(r, mid, router.table, endpoints, via, halves, Summary(ms), Tun());
        }
        NotWidened(r, old(widened), device, ws);
      }
    }

    /**
     Any sequence of sets, clears and peer changes. The record of every command is in order, so no
     endpoint is ever looked up into the tunnel unless an earlier command of the same change left a
     half of the default route there; and the exit device is set exactly while the default is ours.
     */
    method RunAll(ops: seq<Op>)
      requires Valid() && (captured ==> deviceID != NIL_UUID)
      requires forall op | op in ops && op.Set? :: op.device != NIL_UUID
      modifies this, router
      ensures Valid() && (captured <==> deviceID != NIL_UUID) && (locked ==> captured)
      ensures AllSafe(router.trace)
    {
      for i := 0 to |ops|
        invariant Valid() && (captured ==> deviceID != NIL_UUID)
      {
        match ops[i] {
          case Set(device, killSwitch, allowLAN) =>
            assert ops[i] in ops;
            var _, _, _, _, _, _, _, _, _, _ := SetExitNode(device, killSwitch, allowLAN);
          case Clear =>
            var _, _, _, _ := ClearExitNode();
          case Learn(known) =>
            peers := known;
        }
      }
    }
  }

  lemma Regroup<T>(a: seq<T>, b: seq<T>, c: seq<T>)
    ensures a + b + c == a + (b + c)
  {
  }

  /** The widened peers after the writes of one attempt. */
  function WidenedAfter(widened: set<Uuid>, device: Uuid, ws: seq<Write>): set<Uuid> {
    if |ws| == 0 || !ws[0].Wrote? || !ws[0].ok then widened
    else if |ws| == 1 then widened + {device}
    else Rewritten(widened + {device}, ws[1])
  }

  /**
   On a host with no routes of its own for what is changed, the table is the original if and only if
   no command failed to delete something that was installed and the capture did not stop half way.
   */
  ghost predicate RestoredUnless(base: Table, t: Table, endpoints: set<IP>, r: SetResult, did: Outcome) {
    Clean(base, endpoints) ==> (t == base <==> did.failures * did.installed == {} && r != CaptureFailed(true))
  }

  /**
   No other peer is affected, and a peer that was not widened before is left widened if and only if
   a write failed to narrow it, or none was made to it.
   */
  ghost predicate NarrowedUnless(before: set<Uuid>, after: set<Uuid>, device: Uuid, ws: seq<Write>) {
    && (forall d | d != device :: d in after <==> d in before)
    && (device !in before ==> (device in after <==> device in Unnarrowed(ws)))
  }

  /** The commands of an engaged exit node and of its undoing together. */
  lemma ThereAndBack(r: SetResult, base: Table, t: Table, endpoints: set<IP>, via: Hop, halves: set<Prefix>,
                     touched: set<Prefix>, there: seq<Moment>, back: seq<Moment>, tun: Hop)
    requires Summary(there) == Outcome(endpoints + halves, Refused(there), {}) && halves <= ALL_HALVES
    requires Undone(base, t, endpoints, via, halves, touched, Summary(back), tun) && r != CaptureFailed(true)
    ensures RestoredUnless(base, t, endpoints, r, Summary(there + back))
  {
    Together(there, back);
    UndoneIff(base, t, endpoints, via, halves, touched, Summary(back), tun);
  }

  lemma RolledBack(r: SetResult, base: Table, t: Table, endpoints: set<IP>, via: Hop, halves: set<Prefix>,
                   did: Outcome, tun: Hop)
    requires Attempted(r, base, t, endpoints, via, halves, did, tun) && !r.Engaged?
    ensures RestoredUnless(base, t, endpoints, r, did)
  {
    if Clean(base, endpoints) {
      RolledBackIff(r, base, t, endpoints, via, halves, did, tun);
    }
  }

  /** A peer that was widened and then cleared stays widened if it is not narrowed. */
  lemma WidenedAndBack(before: set<Uuid>, device: Uuid, wide: Write, narrow: Write)
    requires wide == Wrote(device, true, true) && narrow.device == device && (narrow.Wrote? ==> !narrow.wide)
    ensures NarrowedUnless(before, Rewritten(before + {device}, narrow), device, [wide] + [narrow])
  {
    UnnarrowedSnoc([wide], narrow);
  }

  lemma NotWidened(r: SetResult, before: set<Uuid>, device: Uuid, ws: seq<Write>)
    requires WritesOf(r, device, ws) && !r.Engaged?
    ensures NarrowedUnless(before, WidenedAfter(before, device, ws), device, ws)
  {
    if |ws| == 2 {
      WidenedAndBack(before, device, ws[0], ws[1]);
      assert ws == [ws[0]] + [ws[1]];
    }
  }

  lemma UnnarrowedSnoc(ws: seq<Write>, w: Write)
    ensures Unnarrowed(ws + [w]) == Unnarrowed(ws) + if NotNarrowed(w) then {w.device} else {}
  {
    UnnarrowedConcat(ws, [w]);
    assert w in [w];
  }

  lemma UnnarrowedConcat(a: seq<Write>, b: seq<Write>)
    ensures Unnarrowed(a + b) == Unnarrowed(a) + Unnarrowed(b)
  {
  }

  /** A command that is about no route. */
  predicate Quiet(m: Moment) {
    !m.command.Replace? && !m.command.Delete?
  }

  lemma OnlyShown(m: Moment)
    requires Quiet(m)
    ensures Summary([m]) == Outcome({}, {}, {})
  {
    OneMore([], m);
    assert [] + [m] == [m];
  }

  lemma ShownThen(m: Moment, ms: seq<Moment>)
    requires Quiet(m)
    ensures Summary([m] + ms) == Summary(ms)
  {
    OnlyShown(m);
    Together([m], ms);
  }

  lemma {:induction false} QuietAfter(ms: seq<Moment>, more: seq<Moment>)
    requires forall m | m in more :: Quiet(m)
    ensures Summary(ms + more) == Summary(ms)
  {
    if more == [] {
      assert ms + more == ms;
    } else {
      var front, last := more[..|more| - 1], more[|more| - 1];
      QuietAfter(ms, front);
      assert last in more;
      assert ms + more == (ms + front) + [last];
      OneMore(ms + front, last);
    }
  }

  lemma RollbackAddsUp(r: SetResult, g: Goal, t: Table, done: set<IP>, did: seq<Moment>, ms: seq<Moment>, tun: Hop)
    requires r in {PinFailed, CaptureFailed(false), CaptureFailed(true)}
    requires done <= g.endpoints && RefusedBy(r, Refused(did), g.endpoints)
    requires Summary(did) == Outcome(done + LeftCaptured(r), Refused(did), {})
    requires Summary(ms) == Outcome({}, {}, Failures(ms)) && Failures(ms) <= done
    requires t == Shape(g.base, Installed(did), Failures(ms), g.via, LeftCaptured(r), tun)
    ensures Attempted(r, g.base, t, g.endpoints, g.via, LeftCaptured(r), Summary(did + ms), tun)
  {
    Together(did, ms);
  }

  lemma ClearAddsUp(locked: bool, unlock: seq<Moment>, ms: seq<Moment>, w: Write)
    requires if locked then |unlock| == 1 && unlock[0].command == Unlock else unlock == []
    requires forall m | m in ms :: m.command.Delete?
    ensures Summary(unlock + ms) == Summary(ms) && UnlocksFirst(locked, unlock + ms)
    ensures Unlocked(locked, unlock + ms) <==> locked && unlock[0].ok
    ensures Reported(locked, unlock + ms, w) <==> Reported(false, ms, w) || (locked && !unlock[0].ok)
  {
    if locked {
      assert unlock == [unlock[0]];
      ShownThen(unlock[0], ms);
      assert (unlock + ms)[1..] == ms;
    } else {
      assert unlock + ms == ms;
    }
  }

  lemma UndoAddsUp(pins: set<IP>, taken: set<Prefix>, first: set<Prefix>, second: set<Prefix>)
    requires first <= ALL_HALVES && second <= pins && taken <= ALL_HALVES
    ensures (first + second) - ALL_HALVES == second && taken * (first + second) == taken * first
    ensures LOW_V4 !in second && HIGH_V4 !in second
  {
    HostsAreNoHalves(pins);
  }

  lemma HostsAreNoHalves(ips: set<IP>)
    ensures ips !! ALL_HALVES
  {
  }

  /** Every step of a capture leaves a shape with all endpoints pinned. */
  lemma CaptureSteps(g: Goal, tun: Hop)
    ensures forall s | s <= ALL_HALVES ::
      var t := Shape(g.base, g.endpoints, g.endpoints, g.via, {}, tun) + Leads(s, tun);
      t == Shape(g.base, g.endpoints + s, g.endpoints, g.via, s, tun) && SafeTable(t, g)
  {
    forall s | s <= ALL_HALVES
      ensures var t := Shape(g.base, g.endpoints, g.endpoints, g.via, {}, tun) + Leads(s, tun);
        t == Shape(g.base, g.endpoints + s, g.endpoints, g.via, s, tun) && SafeTable(t, g)
    {
      ShapeCapture(g.base, g.endpoints, g.endpoints, g.via, tun, s);
      ShapeSafe(g, g.endpoints + s, g.endpoints, s, tun);
    }
  }

  lemma PinStep(g: Goal, pins: set<IP>, tun: Hop, ip: IP)
    requires pins <= g.endpoints && ip in g.endpoints
    ensures Shape(g.base, pins, pins, g.via, {}, tun)[HostPrefix(ip) := g.via] ==
            Shape(g.base, pins + {ip}, pins + {ip}, g.via, {}, tun)
    ensures SafeTable(Shape(g.base, pins, pins, g.via, {}, tun), g)
    ensures SafeTable(Shape(g.base, pins + {ip}, pins + {ip}, g.via, {}, tun), g)
  {
    ShapePin(g.base, pins, pins, g.via, tun, HostPrefix(ip));
    ShapeSafe(g, pins, pins, {}, tun);
    ShapeSafe(g, pins + {ip}, pins + {ip}, {}, tun);
  }

  /** Every step of a release leaves a shape with all endpoints pinned. */
  lemma ReleaseSteps(g: Goal, pins: set<IP>, taken: set<Prefix>, tun: Hop, most: set<Prefix>)
    requires pins == g.endpoints && taken <= ALL_HALVES && most <= ALL_HALVES
    ensures forall s | s <= most ::
      var t := Shape(g.base, pins + taken, pins, g.via, taken, tun) - s;
      t == Shape(g.base, pins + taken + s, pins, g.via, taken - s, tun) && SafeTable(t, g)
  {
    forall s | s <= most
      ensures var t := Shape(g.base, pins + taken, pins, g.via, taken, tun) - s;
        t == Shape(g.base, pins + taken + s, pins, g.via, taken - s, tun) && SafeTable(t, g)
    {
      ShapeDelete(g.base, pins + taken, pins, g.via, taken, tun, s);
      HostsAreNoHalves(pins);
      assert pins - s == pins;
      ShapeSafe(g, pins + taken + s, pins, taken - s, tun);
    }
  }

  lemma DistinctSplit(ips: seq<IP>, i: nat)
    requires Distinct(ips) && i < |ips|
    ensures Elements(ips[i..]) == {ips[i]} + Elements(ips[i + 1..]) && ips[i] !in Elements(ips[i + 1..])
    ensures ips[..i + 1] == ips[..i] + [ips[i]]
    ensures Elements(ips[..i + 1]) == Elements(ips[..i]) + {ips[i]} && ips[i] !in Elements(ips[..i])
  {
    assert ips[i..] == [ips[i]] + ips[i + 1..];
    assert ips[..i + 1] == ips[..i] + [ips[i]];
  }

  lemma UnpinStep(g: Goal, touched: set<Prefix>, pins: set<IP>, halves: set<Prefix>, tun: Hop, ip: IP)
    requires pins <= g.endpoints && halves <= ALL_HALVES && pins <= touched <= g.endpoints + ALL_HALVES
    requires ip in pins
    ensures Shape(g.base, touched, pins, g.via, halves, tun) - {HostPrefix(ip)} ==
            Shape(g.base, touched, pins - {ip}, g.via, halves, tun)
    ensures halves == {} ==> SafeTable(Shape(g.base, touched, pins, g.via, halves, tun), g)
    ensures halves == {} ==> SafeTable(Shape(g.base, touched, pins - {ip}, g.via, halves, tun), g)
  {
    ShapeDelete(g.base, touched, pins, g.via, halves, tun, {HostPrefix(ip)});
    assert touched + {HostPrefix(ip)} == touched && halves - {HostPrefix(ip)} == halves;
    if halves == {} {
      ShapeSafe(g, touched, pins, halves, tun);
      ShapeSafe(g, touched, pins - {ip}, halves, tun);
    }
  }
}
