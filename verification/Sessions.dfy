/**
 The object the relay shares between its reader and its janitor. Each method is
 one section under the table's lock, proved against the functions of SessionTable.
 */
module Sessions {
  import opened Basics
  import opened SessionTable
  import T = SessionTable

  class SessionStore {
    var sessions: map<string, Session>
    var addrIndex: map<Addr, Owner>
    const limits: Limits

    var bytesRelayed: uint64
    var packetsRelayed: uint64
    var packetsDropped: uint64

    function Contents(): Table
      reads this
    {
      Table(sessions, addrIndex)
    }

    constructor (idleTimeout: int, maxSessions: int)
      ensures Contents() == EMPTY
      ensures limits == Limits(if idleTimeout <= 0 then 300 * SECOND else idleTimeout, maxSessions)
      ensures bytesRelayed == packetsRelayed == packetsDropped == 0
    {
      sessions, addrIndex := map[], map[];
      limits := Limits(if idleTimeout <= 0 then 300 * SECOND else idleTimeout, maxSessions);
      bytesRelayed, packetsRelayed, packetsDropped := 0, 0, 0;
    }

    method Bind(o: Owner, addr: Addr, expiresAt: Option<int>, now: int) returns (ok: bool)
      modifies this`sessions, this`addrIndex
      ensures ok <==> o.network in old(sessions) || limits.maxSessions <= 0 || |old(sessions)| < limits.maxSessions
      ensures Contents() == if ok then T.Bind(old(Contents()), o, addr, expiresAt, now)
                            else old(Contents())
    {
      var s := Session(map[], 0);
      if o.network in sessions {
        s := sessions[o.network];
      } else if limits.maxSessions > 0 && |sessions| >= limits.maxSessions {
        return false;
      }
      if o.device in s.bindings && s.bindings[o.device].addr != addr {
        addrIndex := addrIndex - {s.bindings[o.device].addr};
      }
      s := Session(s.bindings[o.device := Binding(addr, now, expiresAt)], now);
      sessions := sessions[o.network := s];
      addrIndex := addrIndex[addr := o];
      ok := true;
    }

    method Lookup(addr: Addr) returns (o: Option<Owner>)
      ensures o == T.Lookup(Contents(), addr)
    {
      if addr in addrIndex {
        o := Some(addrIndex[addr]);
      } else {
        o := None;
      }
    }

    method Remove(o: Owner)
      requires Bound(Contents(), o)
      modifies this`sessions, this`addrIndex
      ensures Contents() == Drop(old(Contents()), o)
    {
      var s := sessions[o.network];
      addrIndex := addrIndex - {s.bindings[o.device].addr};
      sessions := sessions[o.network := s.(bindings := s.bindings - {o.device})];
    }

    method Route(sender: Owner, peer: Uuid, now: int) returns (dest: Option<Addr>)
      modifies this`sessions, this`addrIndex
      ensures (Contents(), dest) == T.Route(old(Contents()), sender, peer, now)
    {
      if sender.network !in sessions || sender.device !in sessions[sender.network].bindings {
        return None;
      }
      var s := sessions[sender.network];
      var b := s.bindings[sender.device];
      if Expired(b, now) {
        Remove(sender);
        return None;
      }
      s := Session(s.bindings[sender.device := b.(lastSeen := now)], now);
      sessions := sessions[sender.network := s];
      if peer !in s.bindings {
        return None;
      }
      if Expired(s.bindings[peer], now) {
        Remove(Owner(sender.network, peer));
        return None;
      }
      dest := Some(s.bindings[peer].addr);
    }

    method Touch(o: Owner, now: int)
      modifies this`sessions
      ensures Contents() == T.Touch(old(Contents()), o, now)
      ensures Bound(Contents(), o) <==> Bound(old(Contents()), o)
      ensures Bound(Contents(), o) ==> At(Contents(), o) == At(old(Contents()), o).(lastSeen := now)
    {
      if o.network !in sessions {
        return;
      }
      var s := sessions[o.network];
      if o.device in s.bindings {
        s := s.(bindings := s.bindings[o.device := s.bindings[o.device].(lastSeen := now)]);
      }
      sessions := sessions[o.network := s.(lastActive := now)];
    }

    method RecordRelayed(n: nat)
      modifies this`bytesRelayed, this`packetsRelayed
      ensures bytesRelayed == (old(bytesRelayed) + n) % TWO_64
      ensures packetsRelayed == (old(packetsRelayed) + 1) % TWO_64
    {
      bytesRelayed := (bytesRelayed + n) % TWO_64;
      packetsRelayed := (packetsRelayed + 1) % TWO_64;
    }

    method RecordDropped()
      modifies this`packetsDropped
      ensures packetsDropped == (old(packetsDropped) + 1) % TWO_64
    {
      packetsDropped := (packetsDropped + 1) % TWO_64;
    }

    /** The inner loop of an eviction pass: one session, its devices in any order. */
    method SweepSession(s: Session, now: int) returns (kept: map<Uuid, Binding>)
      modifies this`addrIndex
      ensures kept == Survivors(s, limits.idleTimeout, now)
      ensures addrIndex == old(addrIndex) - Lost(s, limits.idleTimeout, now)
    {
      kept := s.bindings;
      var todo := s.bindings.Keys;
      while todo != {}
        invariant todo <= s.bindings.Keys
        invariant forall d :: d in kept <==>
          d in s.bindings && (d in todo || Survives(s.bindings[d], limits.idleTimeout, now))
        invariant forall d | d in kept :: kept[d] == s.bindings[d]
        invariant addrIndex == old(addrIndex) -
          set d | d in s.bindings && d !in todo && !Survives(s.bindings[d], limits.idleTimeout, now) ::
            s.bindings[d].addr
      {
        var d :| d in todo;
        todo := todo - {d};
        var b := s.bindings[d];
        if now - b.lastSeen > limits.idleTimeout || Expired(b, now) {
          addrIndex := addrIndex - {b.addr};
          kept := kept - {d};
        }
      }
    }

    /** The outer loop's body: sweeps one session and drops it when nothing is left. */
    method SweepOne(network: string, now: int) returns (emptied: bool)
      requires network in sessions
      modifies this`sessions, this`addrIndex
      ensures Contents() == Swept(old(Contents()), network, limits.idleTimeout, now)
      ensures emptied == Emptied(old(sessions)[network], limits.idleTimeout, now)
    {
      var kept := SweepSession(sessions[network], now);
      emptied := |kept| == 0;
      if emptied {
        sessions := sessions - {network};
      } else {
        sessions := sessions[network := sessions[network].(bindings := kept)];
      }
    }

    /** One janitor pass, visiting sessions and devices in any order. */
    method EvictIdle(now: int) returns (removed: nat)
      modifies this`sessions, this`addrIndex
      ensures Contents() == Evict(old(Contents()), limits.idleTimeout, now)
      ensures removed == |Removed(old(Contents()), limits.idleTimeout, now)|
      ensures sessions.Keys <= old(sessions).Keys && removed == |old(sessions).Keys - sessions.Keys|
    {
      ghost var t := Contents();
      removed := 0;
      ghost var done: set<string> := {};
      var todo := sessions.Keys;
      NothingSwept(t, limits.idleTimeout, now);
      while todo != {}
        invariant todo !! done && todo + done == t.sessions.Keys
        invariant Contents() == EvictSome(t, done, limits.idleTimeout, now)
        invariant removed == |RemovedFrom(t, done, limits.idleTimeout, now)|
      {
        var n :| n in todo;
        SweepExtends(t, done, n, limits.idleTimeout, now);
        var emptied := SweepOne(n, now);
        if emptied {
          removed := removed + 1;
        }
        todo, done := todo - {n}, done + {n};
      }
      AllSwept(t, limits.idleTimeout, now);
      assert t.sessions.Keys - sessions.Keys == Removed(t, limits.idleTimeout, now);
    }
  }

  /** What an eviction pass has done once it has visited `done`. */
  function EvictSome(t: Table, done: set<string>, idleTimeout: int, now: int): Table {
    Table(
      map n | n in t.sessions && !(n in done && Emptied(t.sessions[n], idleTimeout, now))
        :: if n in done then t.sessions[n].(bindings := Survivors(t.sessions[n], idleTimeout, now)) else t.sessions[n],
      map a | a in t.index && !LostSoFar(t, done, idleTimeout, now, a) :: t.index[a])
  }

  predicate LostSoFar(t: Table, done: set<string>, idleTimeout: int, now: int, addr: Addr) {
    exists n :: n in done && n in t.sessions && addr in Lost(t.sessions[n], idleTimeout, now)
  }

  function RemovedFrom(t: Table, done: set<string>, idleTimeout: int, now: int): set<string> {
    set n | n in done && n in t.sessions && Emptied(t.sessions[n], idleTimeout, now)
  }

  function Swept(t: Table, network: string, idleTimeout: int, now: int): Table
    requires network in t.sessions
  {
    var s := t.sessions[network];
    Table(
      if Emptied(s, idleTimeout, now) then t.sessions - {network}
      else t.sessions[network := s.(bindings := Survivors(s, idleTimeout, now))],
      t.index - Lost(s, idleTimeout, now))
  }

  lemma NothingSwept(t: Table, idleTimeout: int, now: int)
    ensures EvictSome(t, {}, idleTimeout, now) == t
    ensures RemovedFrom(t, {}, idleTimeout, now) == {}
  {
  }

  lemma SweepExtends(t: Table, done: set<string>, n: string, idleTimeout: int, now: int)
    requires n in t.sessions && n !in done
    ensures n in EvictSome(t, done, idleTimeout, now).sessions
    ensures EvictSome(t, done, idleTimeout, now).sessions[n] == t.sessions[n]
    ensures EvictSome(t, done + {n}, idleTimeout, now) ==
            Swept(EvictSome(t, done, idleTimeout, now), n, idleTimeout, now)
    ensures |RemovedFrom(t, done + {n}, idleTimeout, now)| ==
            |RemovedFrom(t, done, idleTimeout, now)| + if Emptied(t.sessions[n], idleTimeout, now) then 1 else 0
  {
    SweepExtendsSessions(t, done, n, idleTimeout, now);
    SweepExtendsIndex(t, done, n, idleTimeout, now);
    assert RemovedFrom(t, done + {n}, idleTimeout, now) ==
           RemovedFrom(t, done, idleTimeout, now) + if Emptied(t.sessions[n], idleTimeout, now) then {n} else {};
  }

  lemma SweepExtendsSessions(t: Table, done: set<string>, n: string, idleTimeout: int, now: int)
    requires n in t.sessions && n !in done
    ensures n in EvictSome(t, done, idleTimeout, now).sessions
    ensures EvictSome(t, done, idleTimeout, now).sessions[n] == t.sessions[n]
    ensures EvictSome(t, done + {n}, idleTimeout, now).sessions ==
            Swept(EvictSome(t, done, idleTimeout, now), n, idleTimeout, now).sessions
  {
  }

  lemma SweepExtendsIndex(t: Table, done: set<string>, n: string, idleTimeout: int, now: int)
    requires n in t.sessions && n !in done
    ensures EvictSome(t, done + {n}, idleTimeout, now).index ==
            EvictSome(t, done, idleTimeout, now).index - Lost(t.sessions[n], idleTimeout, now)
  {
    forall a ensures LostSoFar(t, done + {n}, idleTimeout, now, a) <==>
                     LostSoFar(t, done, idleTimeout, now, a) || a in Lost(t.sessions[n], idleTimeout, now)
    {
    }
  }

  lemma AllSwept(t: Table, idleTimeout: int, now: int)
    ensures EvictSome(t, t.sessions.Keys, idleTimeout, now) == Evict(t, idleTimeout, now)
    ensures RemovedFrom(t, t.sessions.Keys, idleTimeout, now) == Removed(t, idleTimeout, now)
  {
    forall a ensures LostSoFar(t, t.sessions.Keys, idleTimeout, now, a) <==> Loses(t, idleTimeout, now, a) {
    }
  }
}
