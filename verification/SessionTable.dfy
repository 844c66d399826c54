/**
 The relay's session table (relay/udprelay/session.go): for each network the
 devices bound through this node, and an index from a UDP address back to the
 binding that was made from it.

 `Table` is the value of the table and the functions on it say what each locked
 section does; module Sessions holds the object that runs them.
 */
module SessionTable {
  import opened Basics

  /** The printed form of a UDP address, which is what the index is keyed on. */
  type Addr = string

  /** `expiresAt == None` is a token without an expiry. */
  datatype Binding = Binding(addr: Addr, lastSeen: int, expiresAt: Option<int>)

  datatype Session = Session(bindings: map<Uuid, Binding>, lastActive: int)

  /** One device on one network: what an index entry points at. */
  datatype Owner = Owner(network: string, device: Uuid)

  datatype Table = Table(sessions: map<string, Session>, index: map<Addr, Owner>)

  datatype Limits = Limits(idleTimeout: int, maxSessions: int)

  const EMPTY: Table := Table(map[], map[])

  predicate Bound(t: Table, o: Owner) {
    o.network in t.sessions && o.device in t.sessions[o.network].bindings
  }

  function At(t: Table, o: Owner): Binding
    requires Bound(t, o)
  {
    t.sessions[o.network].bindings[o.device]
  }

  predicate Expired(b: Binding, now: int) {
    b.expiresAt.Some? && now > b.expiresAt.value
  }

  predicate Survives(b: Binding, idleTimeout: int, now: int) {
    now - b.lastSeen <= idleTimeout && !Expired(b, now)
  }

  // ---------------------------------------------------------------- operations

  predicate HasRoom(t: Table, limits: Limits, network: string) {
    network in t.sessions || limits.maxSessions <= 0 || |t.sessions| < limits.maxSessions
  }

  function SessionOf(t: Table, network: string): Session {
    if network in t.sessions then t.sessions[network] else Session(map[], 0)
  }

  /** `Bind` when the node has room: the device's old address leaves the index. */
  function Bind(t: Table, o: Owner, addr: Addr, expiresAt: Option<int>, now: int): Table {
    var s := SessionOf(t, o.network);
    var index :=
      if o.device in s.bindings && s.bindings[o.device].addr != addr
      then t.index - {s.bindings[o.device].addr} else t.index;
    Table(t.sessions[o.network := Session(s.bindings[o.device := Binding(addr, now, expiresAt)], now)],
          index[addr := o])
  }

  function Lookup(t: Table, addr: Addr): Option<Owner> {
    if addr in t.index then Some(t.index[addr]) else None
  }

  /** Removes one binding and whatever the index says about its address. */
  function Drop(t: Table, o: Owner): Table
    requires Bound(t, o)
  {
    var s := t.sessions[o.network];
    Table(t.sessions[o.network := s.(bindings := s.bindings - {o.device})], t.index - {At(t, o).addr})
  }

  /** Marks a bound device as heard from. */
  function Refresh(t: Table, o: Owner, now: int): Table
    requires Bound(t, o)
  {
    var s := t.sessions[o.network];
    t.(sessions := t.sessions[o.network :=
      Session(s.bindings[o.device := s.bindings[o.device].(lastSeen := now)], now)])
  }

  function Route(t: Table, sender: Owner, peer: Uuid, now: int): (Table, Option<Addr>) {
    var dest := Owner(sender.network, peer);
    if !Bound(t, sender) then (t, None)
    else if Expired(At(t, sender), now) then (Drop(t, sender), None)
    else
      var t1 := Refresh(t, sender, now);
      if !Bound(t1, dest) then (t1, None)
      else if Expired(At(t1, dest), now) then (Drop(t1, dest), None)
      else (t1, Some(At(t1, dest).addr))
  }

  function Touch(t: Table, o: Owner, now: int): Table {
    if o.network !in t.sessions then t
    else if Bound(t, o) then Refresh(t, o, now)
    else t.(sessions := t.sessions[o.network := t.sessions[o.network].(lastActive := now)])
  }

  function Survivors(s: Session, idleTimeout: int, now: int): map<Uuid, Binding> {
    map d | d in s.bindings && Survives(s.bindings[d], idleTimeout, now) :: s.bindings[d]
  }

  /** The addresses of the bindings of one session that an eviction pass removes. */
  function Lost(s: Session, idleTimeout: int, now: int): set<Addr> {
    set d | d in s.bindings && !Survives(s.bindings[d], idleTimeout, now) :: s.bindings[d].addr
  }

  predicate Emptied(s: Session, idleTimeout: int, now: int) {
    Survivors(s, idleTimeout, now) == map[]
  }

  predicate Loses(t: Table, idleTimeout: int, now: int, addr: Addr) {
    exists n :: n in t.sessions && addr in Lost(t.sessions[n], idleTimeout, now)
  }

  function Evict(t: Table, idleTimeout: int, now: int): Table {
    Table(
      map n | n in t.sessions && !Emptied(t.sessions[n], idleTimeout, now)
        :: t.sessions[n].(bindings := Survivors(t.sessions[n], idleTimeout, now)),
      map a | a in t.index && !Loses(t, idleTimeout, now, a) :: t.index[a])
  }

  /** The networks whose sessions an eviction pass removes. */
  function Removed(t: Table, idleTimeout: int, now: int): set<string> {
    set n | n in t.sessions && Emptied(t.sessions[n], idleTimeout, now)
  }

  // --------------------------------------------------- what each operation means

  /** After a bind exactly one more device is bound, at the given address, and nothing else moved. */
  lemma BindEffect(t: Table, o: Owner, addr: Addr, expiresAt: Option<int>, now: int)
    ensures var t' := Bind(t, o, addr, expiresAt, now);
      && (forall p :: Bound(t', p) <==> p == o || Bound(t, p))
      && At(t', o) == Binding(addr, now, expiresAt)
      && (forall p | Bound(t, p) && p != o :: At(t', p) == At(t, p))
      && Lookup(t', addr) == Some(o)
      && (forall a | a != addr :: Lookup(t', a) ==
            if Bound(t, o) && At(t, o).addr == a then None else Lookup(t, a))
  {
  }

  lemma DropEffect(t: Table, o: Owner)
    requires Bound(t, o)
    ensures var t' := Drop(t, o);
      && (forall p :: Bound(t', p) <==> p != o && Bound(t, p))
      && (forall p | Bound(t', p) :: At(t', p) == At(t, p))
      && (forall a :: Lookup(t', a) == if a == At(t, o).addr then None else Lookup(t, a))
  {
  }

  lemma RefreshEffect(t: Table, o: Owner, now: int)
    requires Bound(t, o)
    ensures var t' := Refresh(t, o, now);
      && t'.index == t.index
      && (forall p :: Bound(t', p) <==> Bound(t, p))
      && (forall p | Bound(t', p) :: At(t', p) == if p == o then At(t, p).(lastSeen := now) else At(t, p))
  {
  }

  /** A keepalive moves the time its device was last heard from, if it is bound, and no binding or index entry else. */
  lemma TouchEffect(t: Table, o: Owner, now: int)
    ensures var t' := Touch(t, o, now);
      && (forall p :: Bound(t', p) <==> Bound(t, p))
      && (forall p | Bound(t', p) :: At(t', p) == if p == o then At(t, p).(lastSeen := now) else At(t, p))
      && (forall a :: Lookup(t', a) == Lookup(t, a))
      && t'.sessions.Keys == t.sessions.Keys
      && (o.network in t.sessions ==> t'.sessions[o.network].lastActive == now)
  {
  }

  /** The binding that routing a frame drops: the sender's if it has expired, or else the addressee's if that has. */
  ghost predicate DroppedByRoute(t: Table, sender: Owner, peer: Owner, now: int, p: Owner) {
    && Bound(t, sender) && Bound(t, p) && At(t, p).expiresAt.Some? && now > At(t, p).expiresAt.value
    && (p == sender || (p == peer && (At(t, sender).expiresAt.None? || now <= At(t, sender).expiresAt.value)))
  }

  /**
   Routing answers the addressee's address exactly when sender and addressee are bound and neither
   has expired. It drops exactly the expired one it meets first, and marks an unexpired sender as
   heard from, whether or not the addressee is there.
   */
  lemma RouteEffect(t: Table, sender: Owner, peer: Uuid, now: int)
    ensures var dest := Owner(sender.network, peer);
      var (t', answer) := Route(t, sender, peer, now);
      && (answer.Some? <==>
            Bound(t, sender) && Bound(t, dest) && forall p :: !DroppedByRoute(t, sender, dest, now, p))
      && (answer.Some? ==> answer.value == At(t, dest).addr)
      && (forall p :: Bound(t', p) <==> Bound(t, p) && !DroppedByRoute(t, sender, dest, now, p))
      && (forall p | Bound(t', p) :: At(t', p) == if p == sender then At(t, p).(lastSeen := now) else At(t, p))
      && (forall a :: Lookup(t', a) ==
            if exists p :: DroppedByRoute(t, sender, dest, now, p) && At(t, p).addr == a then None else Lookup(t, a))
  {
    var dest := Owner(sender.network, peer);
    if Bound(t, sender) {
      if At(t, sender).expiresAt.Some? && now > At(t, sender).expiresAt.value {
        DropEffect(t, sender);
        assert DroppedByRoute(t, sender, dest, now, sender);
      } else {
        RefreshEffect(t, sender, now);
        var t1 := Refresh(t, sender, now);
        if Bound(t1, dest) && At(t1, dest).expiresAt.Some? && now > At(t1, dest).expiresAt.value {
          DropEffect(t1, dest);
          assert DroppedByRoute(t, sender, dest, now, dest);
        }
      }
    }
  }

  /** Some binding that the pass removes was made from this address. */
  ghost predicate EvictedFrom(t: Table, idleTimeout: int, now: int, addr: Addr) {
    exists p :: Bound(t, p) && At(t, p).addr == addr
                && (now - At(t, p).lastSeen > idleTimeout
                    || (At(t, p).expiresAt.Some? && now > At(t, p).expiresAt.value))
  }

  /**
   An eviction pass keeps exactly the bindings that are neither idle nor expired,
   takes exactly the removed bindings' addresses out of the index, and leaves no
   session empty.
   */
  lemma EvictEffect(t: Table, idleTimeout: int, now: int)
    ensures var t' := Evict(t, idleTimeout, now);
      && (forall p :: Bound(t', p) <==>
            (Bound(t, p) && now - At(t, p).lastSeen <= idleTimeout
             && (At(t, p).expiresAt.None? || now <= At(t, p).expiresAt.value)))
      && (forall p | Bound(t', p) :: At(t', p) == At(t, p))
      && (forall n | n in t'.sessions :: t'.sessions[n].bindings != map[])
      && (forall a :: Lookup(t', a) == if EvictedFrom(t, idleTimeout, now, a) then None else Lookup(t, a))
  {
    var t' := Evict(t, idleTimeout, now);
    forall p ensures Bound(t', p) <==> Bound(t, p) && Survives(At(t, p), idleTimeout, now) {
      if Bound(t, p) && Survives(At(t, p), idleTimeout, now) {
        assert p.device in Survivors(t.sessions[p.network], idleTimeout, now);
      }
    }
    forall a ensures Loses(t, idleTimeout, now, a) <==> EvictedFrom(t, idleTimeout, now, a) {
      if n :| n in t.sessions && a in Lost(t.sessions[n], idleTimeout, now) {
        var d :| d in t.sessions[n].bindings && !Survives(t.sessions[n].bindings[d], idleTimeout, now)
                 && t.sessions[n].bindings[d].addr == a;
        assert Bound(t, Owner(n, d)) && At(t, Owner(n, d)).addr == a;
      }
      if p :| Bound(t, p) && At(t, p).addr == a && !Survives(At(t, p), idleTimeout, now) {
        assert a in Lost(t.sessions[p.network], idleTimeout, now);
      }
    }
  }

  // ------------------------------------------------------- the index and history

  /** A BIND the node accepted. */
  datatype Accepted = Accepted(owner: Owner, addr: Addr, expiresAt: Option<int>)

  function LastFrom(h: seq<Accepted>, addr: Addr): Option<Owner> {
    if h == [] then None
    else if h[|h| - 1].addr == addr then Some(h[|h| - 1].owner)
    else LastFrom(h[..|h| - 1], addr)
  }

  function LastOf(h: seq<Accepted>, o: Owner): Option<Accepted> {
    if h == [] then None
    else if h[|h| - 1].owner == o then Some(h[|h| - 1])
    else LastOf(h[..|h| - 1], o)
  }

  lemma LastOfSnoc(h: seq<Accepted>, e: Accepted)
    ensures forall a :: LastFrom(h + [e], a) == if e.addr == a then Some(e.owner) else LastFrom(h, a)
    ensures forall o :: LastOf(h + [e], o) == if e.owner == o then Some(e) else LastOf(h, o)
  {
    assert (h + [e])[..|h|] == h;
  }

  ghost predicate BindingsRecorded(t: Table, h: seq<Accepted>) {
    forall o | Bound(t, o) :: LastOf(h, o) == Some(Accepted(o, At(t, o).addr, At(t, o).expiresAt))
  }

  ghost predicate EntryGood(t: Table, h: seq<Accepted>, addr: Addr)
    requires addr in t.index
  {
    var o := t.index[addr];
    Bound(t, o) && At(t, o).addr == addr && LastFrom(h, addr) == Some(o)
  }

  /**
   The index agrees with the history of accepted BINDs: an entry names a device
   bound at exactly that address, made by the last BIND from there; and a binding
   is what the device's own last BIND asked for.
   */
  ghost predicate Sound(t: Table, h: seq<Accepted>) {
    && BindingsRecorded(t, h)
    && forall addr | addr in t.index :: EntryGood(t, h, addr)
  }

  lemma BindKeepsSound(t: Table, h: seq<Accepted>, o: Owner, addr: Addr, expiresAt: Option<int>, now: int)
    requires Sound(t, h)
    ensures Sound(Bind(t, o, addr, expiresAt, now), h + [Accepted(o, addr, expiresAt)])
  {
    BindEffect(t, o, addr, expiresAt, now);
    LastOfSnoc(h, Accepted(o, addr, expiresAt));
    var t' := Bind(t, o, addr, expiresAt, now);
    forall a | a in t'.index ensures EntryGood(t', h + [Accepted(o, addr, expiresAt)], a) {
      assert Lookup(t', a) == Some(t'.index[a]);
    }
  }

  /** Losing bindings together with the index entries of their addresses never breaks the index. */
  lemma ShrinkKeepsSound(t: Table, t': Table, h: seq<Accepted>)
    requires Sound(t, h)
    requires forall o | Bound(t', o) :: Bound(t, o) && At(t', o).addr == At(t, o).addr
                                        && At(t', o).expiresAt == At(t, o).expiresAt
    requires forall a | a in t'.index :: a in t.index && t'.index[a] == t.index[a]
    requires forall o | Bound(t, o) && !Bound(t', o) :: At(t, o).addr !in t'.index
    ensures Sound(t', h)
  {
    forall a | a in t'.index ensures EntryGood(t', h, a) {
      assert EntryGood(t, h, a);
    }
  }

  lemma RouteKeepsSound(t: Table, h: seq<Accepted>, sender: Owner, peer: Uuid, now: int)
    requires Sound(t, h)
    ensures Sound(Route(t, sender, peer, now).0, h)
  {
    var dest := Owner(sender.network, peer);
    if Bound(t, sender) {
      if Expired(At(t, sender), now) {
        DropEffect(t, sender);
        ShrinkKeepsSound(t, Drop(t, sender), h);
      } else {
        var t1 := Refresh(t, sender, now);
        RefreshEffect(t, sender, now);
        ShrinkKeepsSound(t, t1, h);
        if Bound(t1, dest) && Expired(At(t1, dest), now) {
          DropEffect(t1, dest);
          ShrinkKeepsSound(t1, Drop(t1, dest), h);
        }
      }
    }
  }

  lemma TouchKeepsSound(t: Table, h: seq<Accepted>, o: Owner, now: int)
    requires Sound(t, h)
    ensures Sound(Touch(t, o, now), h)
  {
    if Bound(t, o) {
      RefreshEffect(t, o, now);
    }
    ShrinkKeepsSound(t, Touch(t, o, now), h);
  }

  lemma EvictKeepsSound(t: Table, h: seq<Accepted>, idleTimeout: int, now: int)
    requires Sound(t, h)
    ensures Sound(Evict(t, idleTimeout, now), h)
  {
    EvictEffect(t, idleTimeout, now);
    var t' := Evict(t, idleTimeout, now);
    forall o | Bound(t, o) && !Bound(t', o) ensures At(t, o).addr !in t'.index {
      assert Lookup(t', At(t, o).addr) == None;
    }
    ShrinkKeepsSound(t, t', h);
  }

  // ------------------------------------------------------------ when it is exact

  /** The index is the exact inverse of the bindings. */
  ghost predicate Exact(t: Table) {
    forall a, o :: Lookup(t, a) == Some(o) <==> Bound(t, o) && At(t, o).addr == a
  }

  /** The address is on record for some other device: the test a caller can make before binding. */
  predicate Reuses(t: Table, o: Owner, addr: Addr) {
    addr in t.index && t.index[addr] != o
  }

  /** From an exact table, a bind keeps it exact precisely when it does not reuse an address. */
  lemma BindExactIff(t: Table, o: Owner, addr: Addr, expiresAt: Option<int>, now: int)
    requires Exact(t)
    ensures Exact(Bind(t, o, addr, expiresAt, now)) <==> !Reuses(t, o, addr)
  {
    BindEffect(t, o, addr, expiresAt, now);
    var t' := Bind(t, o, addr, expiresAt, now);
    if Reuses(t, o, addr) {
      var other := t.index[addr];
      assert Lookup(t, addr) == Some(other);
      assert Bound(t', other) && At(t', other).addr == addr;
      assert Lookup(t', addr) != Some(other);
    } else {
      forall a, p ensures Lookup(t', a) == Some(p) <==> Bound(t', p) && At(t', p).addr == a {
        assert Lookup(t, a) == Some(p) <==> Bound(t, p) && At(t, p).addr == a;
      }
    }
  }

  lemma DropKeepsExact(t: Table, o: Owner)
    requires Bound(t, o) && Exact(t)
    ensures Exact(Drop(t, o))
  {
    DropEffect(t, o);
    assert Lookup(t, At(t, o).addr) == Some(o);
  }

  lemma RouteKeepsExact(t: Table, sender: Owner, peer: Uuid, now: int)
    requires Exact(t)
    ensures Exact(Route(t, sender, peer, now).0)
  {
    if Bound(t, sender) {
      if Expired(At(t, sender), now) {
        DropKeepsExact(t, sender);
      } else {
        var t1 := Refresh(t, sender, now);
        RefreshEffect(t, sender, now);
        assert Exact(t1) by {
          forall a, o ensures Lookup(t1, a) == Some(o) <==> Bound(t1, o) && At(t1, o).addr == a {
            assert Lookup(t, a) == Some(o) <==> Bound(t, o) && At(t, o).addr == a;
          }
        }
        var dest := Owner(sender.network, peer);
        if Bound(t1, dest) && Expired(At(t1, dest), now) {
          DropKeepsExact(t1, dest);
        }
      }
    }
  }

  lemma TouchKeepsExact(t: Table, o: Owner, now: int)
    requires Exact(t)
    ensures Exact(Touch(t, o, now))
  {
    var t' := Touch(t, o, now);
    forall a, p ensures Lookup(t', a) == Some(p) <==> Bound(t', p) && At(t', p).addr == a {
      assert Lookup(t, a) == Some(p) <==> Bound(t, p) && At(t, p).addr == a;
    }
  }

  lemma EvictKeepsExact(t: Table, idleTimeout: int, now: int)
    requires Exact(t)
    ensures Exact(Evict(t, idleTimeout, now))
  {
    EvictEffect(t, idleTimeout, now);
    var t' := Evict(t, idleTimeout, now);
    forall a, p ensures Lookup(t', a) == Some(p) <==> Bound(t', p) && At(t', p).addr == a {
      assert Lookup(t, a) == Some(p) <==> Bound(t, p) && At(t, p).addr == a;
    }
  }

  // --------------------------------------------------------------- over whole runs

  datatype Event =
    | BindEvent(owner: Owner, addr: Addr, expiresAt: Option<int>, now: int)
    | RouteEvent(sender: Owner, peer: Uuid, now: int)
    | TouchEvent(owner: Owner, now: int)
    | EvictEvent(now: int)

  predicate Accepts(t: Table, limits: Limits, e: Event) {
    e.BindEvent? && HasRoom(t, limits, e.owner.network)
  }

  function Apply(t: Table, limits: Limits, e: Event): Table {
    match e
    case BindEvent(o, addr, expiresAt, now) => if Accepts(t, limits, e) then Bind(t, o, addr, expiresAt, now) else t
    case RouteEvent(sender, peer, now) => Route(t, sender, peer, now).0
    case TouchEvent(o, now) => Touch(t, o, now)
    case EvictEvent(now) => Evict(t, limits.idleTimeout, now)
  }

  /** The table after a run of locked sections that starts from nothing. */
  function Replay(limits: Limits, es: seq<Event>): Table {
    if es == [] then EMPTY else Apply(Replay(limits, es[..|es| - 1]), limits, es[|es| - 1])
  }

  /** The BINDs the run accepted, in order. */
  function History(limits: Limits, es: seq<Event>): seq<Accepted> {
    if es == [] then []
    else
      var e, h := es[|es| - 1], History(limits, es[..|es| - 1]);
      if Accepts(Replay(limits, es[..|es| - 1]), limits, e) then h + [Accepted(e.owner, e.addr, e.expiresAt)] else h
  }

  lemma ApplyKeepsSound(t: Table, limits: Limits, e: Event, h: seq<Accepted>)
    requires Sound(t, h)
    ensures Sound(Apply(t, limits, e),
                  if Accepts(t, limits, e) then h + [Accepted(e.owner, e.addr, e.expiresAt)] else h)
  {
    match e
    case BindEvent(o, addr, expiresAt, now) => BindKeepsSound(t, h, o, addr, expiresAt, now);
    case RouteEvent(sender, peer, now) => RouteKeepsSound(t, h, sender, peer, now);
    case TouchEvent(o, now) => TouchKeepsSound(t, h, o, now);
    case EvictEvent(now) => EvictKeepsSound(t, h, limits.idleTimeout, now);
  }

  /** In every run the index refines the history of accepted BINDs. */
  lemma {:induction false} IndexRefinesHistory(limits: Limits, es: seq<Event>)
    ensures Sound(Replay(limits, es), History(limits, es))
  {
    if es != [] {
      IndexRefinesHistory(limits, es[..|es| - 1]);
      ApplyKeepsSound(Replay(limits, es[..|es| - 1]), limits, es[|es| - 1], History(limits, es[..|es| - 1]));
    }
  }

  lemma ApplyExactIff(t: Table, limits: Limits, e: Event)
    requires Exact(t)
    ensures Exact(Apply(t, limits, e)) <==> !(Accepts(t, limits, e) && Reuses(t, e.owner, e.addr))
  {
    match e
    case BindEvent(o, addr, expiresAt, now) => BindExactIff(t, o, addr, expiresAt, now);
    case RouteEvent(sender, peer, now) => RouteKeepsExact(t, sender, peer, now);
    case TouchEvent(o, now) => TouchKeepsExact(t, o, now);
    case EvictEvent(now) => EvictKeepsExact(t, limits.idleTimeout, now);
  }

  /** The index is exact after every section of the run. */
  ghost predicate ExactThroughout(limits: Limits, es: seq<Event>) {
    Exact(Replay(limits, es)) && (es == [] || ExactThroughout(limits, es[..|es| - 1]))
  }

  /** Some section of the run binds a device at an address on record for another. */
  predicate ReusesSomewhere(limits: Limits, es: seq<Event>) {
    es != [] && (
      var t, e := Replay(limits, es[..|es| - 1]), es[|es| - 1];
      (Accepts(t, limits, e) && Reuses(t, e.owner, e.addr)) || ReusesSomewhere(limits, es[..|es| - 1]))
  }

  /**
   The index is the exact inverse of the bindings at every point of a run if and
   only if no accepted BIND in it reuses an address on record for another device.
   */
  lemma {:induction false} ExactThroughoutIff(limits: Limits, es: seq<Event>)
    ensures ExactThroughout(limits, es) <==> !ReusesSomewhere(limits, es)
  {
    if es != [] {
      var front := es[..|es| - 1];
      ExactThroughoutIff(limits, front);
      if Exact(Replay(limits, front)) {
        ApplyExactIff(Replay(limits, front), limits, es[|es| - 1]);
      }
    }
  }

  /**
   Without that condition the index forgets a live device: when two devices share
   an address and the first one moves, the second is still bound but its packets
   no longer find it.
   */
  lemma SharerForgotten(limits: Limits, first: Owner, second: Owner, shared: Addr, elsewhere: Addr, now: int)
    requires first != second && shared != elsewhere && first.network == second.network
    ensures var es := [BindEvent(first, shared, None, now), BindEvent(second, shared, None, now),
                       BindEvent(first, elsewhere, None, now)];
      var t := Replay(limits, es);
      Bound(t, second) && At(t, second).addr == shared && Lookup(t, shared) == None
  {
    var e1, e2, e3 := BindEvent(first, shared, None, now), BindEvent(second, shared, None, now),
                      BindEvent(first, elsewhere, None, now);
    assert [e1, e2, e3][..2] == [e1, e2] && [e1, e2][..1] == [e1] && [e1][..0] == [];
    BindEffect(EMPTY, first, shared, None, now);
    var t1 := Bind(EMPTY, first, shared, None, now);
    assert Replay(limits, [e1]) == Apply(Replay(limits, []), limits, e1) == t1;
    BindEffect(t1, second, shared, None, now);
    var t2 := Bind(t1, second, shared, None, now);
    assert Replay(limits, [e1, e2]) == Apply(t1, limits, e2) == t2;
    BindEffect(t2, first, elsewhere, None, now);
  }

  // -------------------------------------------------------------- staying bound

  /** A binding heard from no earlier than `since`, whose token lasts to `until`. */
  predicate Alive(t: Table, o: Owner, since: int, until: int) {
    && Bound(t, o) && since <= At(t, o).lastSeen
    && (At(t, o).expiresAt.None? || until <= At(t, o).expiresAt.value)
  }

  /** A section whose clock reads between the two, and which binds the device with no shorter token. */
  predicate Within(e: Event, o: Owner, since: int, until: int) {
    && since <= e.now <= until
    && (e.BindEvent? && e.owner == o ==> e.expiresAt.None? || until <= e.expiresAt.value)
  }

  lemma EventKeepsAlive(t: Table, limits: Limits, e: Event, o: Owner, since: int, until: int)
    requires Alive(t, o, since, until) && Within(e, o, since, until) && until - since <= limits.idleTimeout
    ensures Alive(Apply(t, limits, e), o, since, until)
  {
    match e
    case BindEvent(p, addr, expiresAt, now) => BindEffect(t, p, addr, expiresAt, now);
    case RouteEvent(sender, peer, now) => RouteEffect(t, sender, peer, now);
    case TouchEvent(p, now) => TouchEffect(t, p, now);
    case EvictEvent(now) => EvictEffect(t, limits.idleTimeout, now);
  }

  /** With a cap set, no run ever holds more sessions than the cap. */
  lemma {:induction false} CapacityRespected(limits: Limits, es: seq<Event>)
    requires limits.maxSessions > 0
    ensures |Replay(limits, es).sessions| <= limits.maxSessions
  {
    if es != [] {
      CapacityRespected(limits, es[..|es| - 1]);
      ApplyKeepsCapacity(Replay(limits, es[..|es| - 1]), limits, es[|es| - 1]);
    }
  }

  lemma ApplyKeepsCapacity(t: Table, limits: Limits, e: Event)
    requires limits.maxSessions > 0 && |t.sessions| <= limits.maxSessions
    ensures |Apply(t, limits, e).sessions| <= limits.maxSessions
  {
    var t' := Apply(t, limits, e);
    if Accepts(t, limits, e) {
      assert t'.sessions.Keys == t.sessions.Keys + {e.owner.network};
    } else if e.EvictEvent? {
      SubsetSize(t'.sessions.Keys, t.sessions.Keys);
      assert |t'.sessions.Keys| == |t'.sessions|;
    } else {
      assert t'.sessions.Keys == t.sessions.Keys;
      assert |t'.sessions| == |t'.sessions.Keys| && |t.sessions| == |t.sessions.Keys|;
    }
  }

  lemma SubsetSize<T>(a: set<T>, b: set<T>)
    requires a <= b
    ensures |a| <= |b|
  {
    assert b == a + (b - a);
  }
}
