/**
 The Linux router (client/internal/netroute/netroute_linux.go): route changes made by
 running `ip route`, any of which may fail and then changes nothing.
 */
module LinuxRouter {
  import opened Basics
  import opened Routes
  import K = KillSwitch

  const DEFAULT_ROUTE: Prefix := Bits(false, [])

  /**
   What an exit-node change is about: its number, the table it started from, the tunnel's
   device, and the endpoints that must stay reachable through the old default.
   */
  datatype Goal = Goal(change: nat, base: Table, via: Hop, endpoints: set<IP>, iface: string)

  /** What is asked of the host: route commands, the list of local networks, and the firewall. */
  datatype Command =
    | Show
    | Replace(prefix: Prefix, hop: Hop)
    | Delete(prefix: Prefix, dev: Option<string>)
    | ListNetworks(found: seq<Option<Prefix>>)
    | Lock(policy: K.Policy)
    | Unlock

  /** One command with its outcome, the table after it, and the change it was part of. */
  datatype Moment = Moment(command: Command, ok: bool, table: Table, goal: Goal)

  /** What commands did: the prefixes put into the table, those refused, and those not deleted. */
  datatype Outcome = Outcome(installed: set<Prefix>, refused: set<Prefix>, failures: set<Prefix>)

  function After(o: Outcome, m: Moment): Outcome {
    match m.command
    case Show => o
    case ListNetworks(_) => o
    case Lock(_) => o
    case Unlock => o
    case Replace(p, _) => if m.ok then o.(installed := o.installed + {p}) else o.(refused := o.refused + {p})
    case Delete(p, _) => if m.ok then o else o.(failures := o.failures + {p})
  }

  function Summary(ms: seq<Moment>): Outcome {
    if ms == [] then Outcome({}, {}, {}) else After(Summary(ms[..|ms| - 1]), ms[|ms| - 1])
  }

  function Installed(ms: seq<Moment>): set<Prefix> {
    Summary(ms).installed
  }

  /** The prefixes that commands failed to put into the table. */
  function Refused(ms: seq<Moment>): set<Prefix> {
    Summary(ms).refused
  }

  /** The prefixes that commands failed to delete. */
  function Failures(ms: seq<Moment>): set<Prefix> {
    Summary(ms).failures
  }

  lemma OneMore(ms: seq<Moment>, m: Moment)
    ensures Summary(ms + [m]) == After(Summary(ms), m)
  {
    assert (ms + [m])[..|ms|] == ms;
  }

  lemma {:induction false} Together(a: seq<Moment>, b: seq<Moment>)
    ensures Installed(a + b) == Installed(a) + Installed(b)
    ensures Refused(a + b) == Refused(a) + Refused(b)
    ensures Failures(a + b) == Failures(a) + Failures(b)
  {
    if b == [] {
      assert a + b == a;
    } else {
      Together(a, b[..|b| - 1]);
      assert (a + b)[..|a + b| - 1] == a + b[..|b| - 1];
    }
  }

  /** A failure is that of some command. */
  lemma {:induction false} FailureOf(ms: seq<Moment>, p: Prefix) returns (m: Moment)
    requires p in Failures(ms)
    ensures m in ms && m.command.Delete? && m.command.prefix == p && !m.ok
  {
    m := ms[|ms| - 1];
    if !(m.command.Delete? && m.command.prefix == p && !m.ok) {
      m := FailureOf(ms[..|ms| - 1], p);
    }
  }

  /** So is a refusal. */
  lemma {:induction false} RefusalOf(ms: seq<Moment>, p: Prefix) returns (m: Moment)
    requires p in Refused(ms)
    ensures m in ms && m.command.Replace? && m.command.prefix == p && !m.ok
  {
    m := ms[|ms| - 1];
    if !(m.command.Replace? && m.command.prefix == p && !m.ok) {
      m := RefusalOf(ms[..|ms| - 1], p);
    }
  }

  datatype Deletion = Deleted | NoSuchRoute | DeleteFailed

  /** The halves that come before the i-th in the order of installation. */
  function Earlier(i: nat): (s: set<Prefix>)
    requires i <= 4
    ensures s <= ALL_HALVES && (i < 4 ==> HALVES[i] in ALL_HALVES - s && Earlier(i + 1) == s + {HALVES[i]})
    decreases 4 - i
  {
    if i == 0 then {} else if i == 1 then {LOW_V4} else if i == 2 then {LOW_V4, HIGH_V4}
    else if i == 3 then {LOW_V4, HIGH_V4, LOW_V6} else ALL_HALVES
  }

  /** A route that endpoints can be pinned to. */
  predicate Usable(hop: Hop) {
    hop.gateway.Some? && hop.dev != ""
  }

  function Leads(halves: set<Prefix>, tun: Hop): Table {
    map p | p in halves :: tun
  }

  /** The halves of the address space that lead to a device. */
  function HalvesVia(t: Table, iface: string): set<Prefix> {
    set p | p in ALL_HALVES && p in t && t[p].dev == iface
  }

  /** Each command left `start` with some of the halves in `most` added. */
  ghost predicate OnlyAdds(ms: seq<Moment>, goal: Goal, start: Table, most: set<Prefix>, tun: Hop) {
    forall m | m in ms :: m.goal == goal && !m.command.Delete?
                          && exists s :: s <= most && m.table == start + Leads(s, tun)
  }

  /** Each command deleted a half, or tried to, and left `start` without some of those in `most`. */
  ghost predicate OnlyRemoves(ms: seq<Moment>, goal: Goal, start: Table, most: set<Prefix>) {
    forall m | m in ms :: m.goal == goal && m.command.Delete? && m.command.prefix in ALL_HALVES
                          && exists s :: s <= most && m.table == start - s
  }

  lemma AddStep(ms: seq<Moment>, goal: Goal, start: Table, s: set<Prefix>, tun: Hop, p: Prefix, ok: bool, t: Table)
    requires OnlyAdds(ms, goal, start, s, tun)
    requires t == if ok then (start + Leads(s, tun))[p := tun] else start + Leads(s, tun)
    ensures var s' := if ok then s + {p} else s;
      t == start + Leads(s', tun) && OnlyAdds(ms + [Moment(Replace(p, tun), ok, t, goal)], goal, start, s', tun)
  {
    var s' := if ok then s + {p} else s;
    assert t == start + Leads(s', tun);
    forall m | m in ms ensures exists r :: r <= s' && m.table == start + Leads(r, tun) {
      var r :| r <= s && m.table == start + Leads(r, tun);
      assert r <= s';
    }
  }

  lemma RemoveStep(ms: seq<Moment>, goal: Goal, start: Table, s: set<Prefix>, s': set<Prefix>, m: Moment)
    requires OnlyRemoves(ms, goal, start, s) && s <= s'
    requires m.goal == goal && m.command.Delete? && m.command.prefix in ALL_HALVES && m.table == start - s'
    ensures OnlyRemoves(ms + [m], goal, start, s')
  {
    forall o | o in ms ensures exists r :: r <= s' && o.table == start - r {
      var r :| r <= s && o.table == start - r;
      assert r <= s';
    }
  }

  class Router {
    var table: Table
    ghost var goal: Goal
    ghost var trace: seq<Moment>

    constructor (table: Table, ghost iface: string)
      ensures this.table == table && trace == [] && goal == Goal(0, table, Hop(None, ""), {}, iface)
    {
      this.table := table;
      goal := Goal(0, table, Hop(None, ""), {}, iface);
      trace := [];
    }

    method RunReplace(p: Prefix, hop: Hop) returns (ok: bool)
      modifies this`table, this`trace
      ensures table == if ok then old(table)[p := hop] else old(table)
      ensures trace == old(trace) + [Moment(Replace(p, hop), ok, table, goal)]
    {
      ok := *;
      if ok {
        table := table[p := hop];
      }
      trace := trace + [Moment(Replace(p, hop), ok, table, goal)];
    }

    method RunDelete(p: Prefix, dev: Option<string>) returns (r: Deletion)
      modifies this`table, this`trace
      ensures r.Deleted? ==> p in old(table) && (dev.Some? ==> old(table)[p].dev == dev.value)
      ensures r.NoSuchRoute? ==> p !in old(table) || (dev.Some? && old(table)[p].dev != dev.value)
      ensures table == if r.Deleted? then old(table) - {p} else old(table)
      ensures trace == old(trace) + [Moment(Delete(p, dev), !r.DeleteFailed?, table, goal)]
    {
      var fails: bool := *;
      if fails {
        r := DeleteFailed;
      } else if p in table && (dev.Some? ==> table[p].dev == dev.value) {
        table := table - {p};
        r := Deleted;
      } else {
        r := NoSuchRoute;
      }
      trace := trace + [Moment(Delete(p, dev), !r.DeleteFailed?, table, goal)];
    }

    /** The IPv4 default route, if it can be read and has a gateway and a device. */
    method Snapshot() returns (prior: Option<Hop>, ghost ok: bool)
      modifies this`trace
      ensures trace == old(trace) + [Moment(Show, ok, table, goal)]
      ensures prior.Some? <==> ok && DEFAULT_ROUTE in table && Usable(table[DEFAULT_ROUTE])
      ensures prior.Some? <==>
        ok && DEFAULT_ROUTE in table && table[DEFAULT_ROUTE].gateway.Some? && table[DEFAULT_ROUTE].dev != ""
      ensures prior.Some? ==> prior.value == table[DEFAULT_ROUTE]
    {
      var read: bool := *;
      ok := read;
      trace := trace + [Moment(Show, read, table, goal)];
      prior := if read && DEFAULT_ROUTE in table && Usable(table[DEFAULT_ROUTE]) then Some(table[DEFAULT_ROUTE])
               else None;
    }

    /** A failure is a failed command, unless there is no gateway or device to route through. */
    method PinEndpoint(ip: IP, via: Hop) returns (ok: bool, ghost ms: seq<Moment>)
      modifies this`table, this`trace
      ensures table == if ok then old(table)[HostPrefix(ip) := via] else old(table)
      ensures trace == old(trace) + ms
      ensures ms == if Usable(via) then [Moment(Replace(HostPrefix(ip), via), ok, table, goal)] else []
      ensures ok ==> Usable(via)
    {
      if via.gateway.None? || via.dev == "" {
        return false, [];
      }
      ok := RunReplace(HostPrefix(ip), via);
      ms := [Moment(Replace(HostPrefix(ip), via), ok, table, goal)];
    }

    /** A pin that is already gone counts as removed. */
    method UnpinEndpoint(ip: IP) returns (ok: bool)
      modifies this`table, this`trace
      ensures table == if ok then old(table) - {HostPrefix(ip)} else old(table)
      ensures trace == old(trace) + [Moment(Delete(HostPrefix(ip), None), ok, table, goal)]
    {
      var r := RunDelete(HostPrefix(ip), None);
      ok := !r.DeleteFailed?;
    }

    /**
     Points the halves of the address space at the tunnel. A failure on an IPv6 half is
     ignored; a failure on an IPv4 half ends the call, names that half in its error, and
     leaves behind what went before.
     */
    method CaptureDefault(iface: string) returns (err: Option<Prefix>, ghost ms: seq<Moment>)
      modifies this`table, this`trace
      ensures trace == old(trace) + ms && Installed(ms) <= ALL_HALVES && Failures(ms) == {}
      ensures table == old(table) + Leads(Installed(ms), Hop(None, iface))
      ensures err.None? ==> {LOW_V4, HIGH_V4} <= Installed(ms) && Refused(ms) <= {LOW_V6, HIGH_V6}
      ensures err.Some? ==> err.value in {LOW_V4, HIGH_V4} && Refused(ms) == {err.value}
                            && Installed(ms) == if err.value == HIGH_V4 then {LOW_V4} else {}
      ensures OnlyAdds(ms, goal, old(table), Installed(ms), Hop(None, iface))
    {
      ghost var tun := Hop(None, iface);
      ghost var done := Outcome({}, {}, {});
      ms := [];
      for i := 0 to |HALVES|
        invariant trace == old(trace) + ms && Summary(ms) == done && done.failures == {}
        invariant Earlier(if i < 2 then i else 2) <= done.installed <= Earlier(i)
        invariant done.refused <= {LOW_V6, HIGH_V6} && (i < 2 ==> done.refused == {})
        invariant table == old(table) + Leads(done.installed, tun)
        invariant OnlyAdds(ms, goal, old(table), done.installed, tun)
      {
        var p := HALVES[i];
        ghost var before := ms;
        var ok := RunReplace(p, Hop(None, iface));
        ghost var m := Moment(Replace(p, tun), ok, table, goal);
        ms := ms + [m];
        OneMore(before, m);
        AddStep(before, goal, old(table), done.installed, tun, p, ok, table);
        done := After(done, m);
        if !ok && !p.v6 {
          return Some(p), ms;
        }
      }
      err := None;
    }

    /** Removes the halves that lead to the tunnel, trying every one. Only an IPv4 failure is reported. */
    method ReleaseDefault(iface: string) returns (ok: bool, ghost ms: seq<Moment>)
      modifies this`table, this`trace
      ensures trace == old(trace) + ms && Failures(ms) <= ALL_HALVES && Installed(ms) == {}
      ensures ok <==> LOW_V4 !in Failures(ms) && HIGH_V4 !in Failures(ms)
      ensures table == old(table) - (HalvesVia(old(table), iface) - Failures(ms))
      ensures OnlyRemoves(ms, goal, old(table), HalvesVia(old(table), iface) - Failures(ms))
    {
      ok := true;
      ms := [];
      ghost var gone: set<Prefix>, failed: set<Prefix> := {}, {};
      for i := 0 to |HALVES|
        invariant trace == old(trace) + ms && Summary(ms) == Outcome({}, {}, failed) && failed <= Earlier(i)
        invariant ok <==> LOW_V4 !in failed && HIGH_V4 !in failed
        invariant gone == HalvesVia(old(table), iface) * Earlier(i) - failed
        invariant table == old(table) - gone
        invariant OnlyRemoves(ms, goal, old(table), gone)
      {
        var p := HALVES[i];
        ghost var before, was := ms, gone;
        var r := RunDelete(p, Some(iface));
        ghost var m := Moment(Delete(p, Some(iface)), !r.DeleteFailed?, table, goal);
        ms := ms + [m];
        OneMore(before, m);
        gone := if r.Deleted? then gone + {p} else gone;
        failed := if r.DeleteFailed? then failed + {p} else failed;
        assert table == old(table) - gone;
        RemoveStep(before, goal, old(table), was, gone, m);
        if r.DeleteFailed? && !p.v6 {
          ok := false;
        }
      }
      assert gone == HalvesVia(old(table), iface) - failed;
    }
  }
}
