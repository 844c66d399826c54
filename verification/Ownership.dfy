/**
 Who owns and administers a network (backend/internal/usecase/network_service.go).

 Each operation is a few repository calls with no transaction around them.  Here every repository
 call is a step of its own, and any number of operations are under way at once.
 */
module Ownership {
  import opened Basics

  datatype Role = Owner | Admin | Member

  datatype Row = Row(creator: string, name: string, code: string, enabled: bool, expires: Option<int>)

  datatype Seat = Seat(network: string, user: string)

  /** What an operation has read so far and what it will do next. */
  datatype Task =
    | OwnerSeat(network: string, user: string)
    | Joining(network: string, user: string)
    | JoinSeat(network: string, user: string)
    | RoleCaller(network: string, caller: string, target: string, role: Role, callerRole: Role)
    | RoleWrite(network: string, caller: string, target: string, role: Role, callerRole: Role, targetRole: Role)
    | DropCaller(network: string, caller: string, target: string, callerRole: Role)
    | DropWrite(network: string, caller: string, target: string, callerRole: Role, targetRole: Role)
    | DeleteWrite(network: string, caller: string)
    | UpdateRead(network: string, name: string)
    | UpdateWrite(network: string, row: Row)
    | RotateWrite(network: string, code: string)

  datatype Request =
    | Create(network: string, user: string, name: string, code: string)
    | Join(network: string, user: string, code: string, now: int)
    | UpdateMemberRole(network: string, caller: string, target: string, role: Role)
    | RemoveMember(network: string, caller: string, target: string)
    | Delete(network: string, caller: string)
    | Update(network: string, caller: string, name: string)
    | RotateInvite(network: string, caller: string, code: string)

  /**
   The two tables and the operations under way.  As history: who created each network there ever
   was, and for which of them the owner's row was written.
   */
  datatype State = State(networks: map<string, Row>, members: map<Seat, Role>, tasks: map<nat, Task>,
                         created: map<string, string>, seated: set<string>)

  const EMPTY: State := State(map[], map[], map[], map[], {})

  predicate Manages(r: Role) {
    r == Owner || r == Admin
  }

  predicate Invites(row: Row, code: string, now: int) {
    row.code == code && row.enabled && (row.expires.Some? ==> now <= row.expires.value)
  }

  /** The checks between reading the caller's and the target's row and changing the role. */
  predicate MaySetRole(callerRole: Role, targetRole: Role, role: Role) {
    && role != Owner
    && targetRole != Owner
    && (if role == Admin || targetRole == Admin then callerRole == Owner else Manages(callerRole))
  }

  predicate MayRemove(caller: string, target: string, callerRole: Role, targetRole: Role) {
    && targetRole != Owner
    && (caller != target ==> Manages(callerRole) && (targetRole == Admin ==> callerRole == Owner))
  }

  /** An operation's first reads. */
  function First(s: State, r: Request): Option<Task> {
    match r
    case Create(n, u, _, _) => Some(OwnerSeat(n, u))
    case Join(n, u, code, now) =>
      if n in s.networks && Invites(s.networks[n], code, now) then Some(Joining(n, u)) else None
    case UpdateMemberRole(n, c, t, role) =>
      if Seat(n, c) in s.members && role != Owner then Some(RoleCaller(n, c, t, role, s.members[Seat(n, c)])) else None
    case RemoveMember(n, c, t) =>
      if Seat(n, c) in s.members then Some(DropCaller(n, c, t, s.members[Seat(n, c)])) else None
    case Delete(n, c) =>
      if Seat(n, c) in s.members && s.members[Seat(n, c)] == Owner then Some(DeleteWrite(n, c)) else None
    case Update(n, c, name) =>
      if Seat(n, c) in s.members && Manages(s.members[Seat(n, c)]) then Some(UpdateRead(n, name)) else None
    case RotateInvite(n, c, code) =>
      if Seat(n, c) in s.members && Manages(s.members[Seat(n, c)]) then Some(RotateWrite(n, code)) else None
  }

  /** An operation's next reads, if it has more to read. */
  function Following(s: State, t: Task): Option<Task> {
    match t
    case Joining(n, u) => if Seat(n, u) in s.members then None else Some(JoinSeat(n, u))
    case RoleCaller(n, c, u, role, callerRole) =>
      if Seat(n, u) in s.members && MaySetRole(callerRole, s.members[Seat(n, u)], role)
      then Some(RoleWrite(n, c, u, role, callerRole, s.members[Seat(n, u)])) else None
    case DropCaller(n, c, u, callerRole) =>
      if Seat(n, u) in s.members && MayRemove(c, u, callerRole, s.members[Seat(n, u)])
      then Some(DropWrite(n, c, u, callerRole, s.members[Seat(n, u)])) else None
    case UpdateRead(n, name) => if n in s.networks then Some(UpdateWrite(n, s.networks[n].(name := name))) else None
    case OwnerSeat(_, _) => None
    case JoinSeat(_, _) => None
    case RoleWrite(_, _, _, _, _, _) => None
    case DropWrite(_, _, _, _, _) => None
    case DeleteWrite(_, _) => None
    case UpdateWrite(_, _) => None
    case RotateWrite(_, _) => None
  }

  /** What an operation writes.  A row that is not there, or there already, makes the write fail. */
  function Written(s: State, t: Task): State {
    match t
    case OwnerSeat(n, u) =>
      if Seat(n, u) in s.members then s
      else s.(members := s.members[Seat(n, u) := Owner], seated := s.seated + {n})
    case JoinSeat(n, u) => if Seat(n, u) in s.members then s else s.(members := s.members[Seat(n, u) := Member])
    case RoleWrite(n, _, u, role, _, _) =>
      if Seat(n, u) in s.members then s.(members := s.members[Seat(n, u) := role]) else s
    case DropWrite(n, _, u, _, _) => s.(members := s.members - {Seat(n, u)})
    case DeleteWrite(n, _) =>
      if n !in s.networks then s
      else s.(networks := s.networks - {n},
              members := map seat | seat in s.members && seat.network != n :: s.members[seat])
    case UpdateWrite(n, row) => if n in s.networks then s.(networks := s.networks[n := row]) else s
    case RotateWrite(n, code) =>
      if n in s.networks then s.(networks := s.networks[n := s.networks[n].(code := code, expires := None)]) else s
    case Joining(_, _) => s
    case RoleCaller(_, _, _, _, _) => s
    case DropCaller(_, _, _, _) => s
    case UpdateRead(_, _) => s
  }

  datatype Step = Begin(op: nat, request: Request) | Continue(op: nat, ok: bool)

  predicate BeingCreated(s: State, n: string) {
    exists op | op in s.tasks :: s.tasks[op].OwnerSeat? && s.tasks[op].network == n
  }

  /** Network ids are fresh, and nobody can name a network before its creation has returned. */
  predicate Enabled(s: State, step: Step) {
    match step
    case Begin(op, r) => op !in s.tasks && if r.Create? then r.network !in s.created else !BeingCreated(s, r.network)
    case Continue(op, _) => op in s.tasks
  }

  function Created(s: State, r: Request): State {
    if r.Create? then
      s.(networks := s.networks[r.network := Row(r.user, r.name, r.code, true, None)],
         created := s.created[r.network := r.user])
    else s
  }

  function Scheduled(s: State, op: nat, t: Option<Task>): State {
    s.(tasks := if t.Some? then s.tasks[op := t.value] else s.tasks - {op})
  }

  /** What comes after a call. One that fails ends the operation, except for the membership read of a join. */
  function Upcoming(s: State, t: Task, ok: bool): Option<Task> {
    if ok then Following(s, t) else if t.Joining? then Some(JoinSeat(t.network, t.user)) else None
  }

  /** Any repository call can fail. */
  function Next(s: State, step: Step): State
    requires Enabled(s, step)
  {
    match step
    case Begin(op, r) => Scheduled(Created(s, r), op, First(s, r))
    case Continue(op, ok) =>
      var t := s.tasks[op];
      Scheduled(if ok then Written(s, t) else s, op, Upcoming(s, t, ok))
  }

  predicate CanRun(steps: seq<Step>)
    decreases |steps|, 0
  {
    steps == [] || (CanRun(steps[..|steps| - 1]) && Enabled(Run(steps[..|steps| - 1]), steps[|steps| - 1]))
  }

  function Run(steps: seq<Step>): State
    requires CanRun(steps)
    decreases |steps|, 1
  {
    if steps == [] then EMPTY else Next(Run(steps[..|steps| - 1]), steps[|steps| - 1])
  }

  // ---------------------------------------------------------------------- invariant

  /** Owner rows belong to creators, and the creator of an existing, seated network has one. */
  ghost predicate Owned(s: State) {
    && (forall n | n in s.networks :: n in s.created && s.networks[n].creator == s.created[n])
    && (forall n | n in s.seated :: n in s.created)
    && (forall seat | seat in s.members :: seat.network in s.created)
    && (forall seat | seat in s.members && s.members[seat] == Owner ::
          && seat.network in s.seated && seat.network in s.networks
          && seat.user == s.created[seat.network])
    && (forall n | n in s.seated && n in s.networks ::
          Seat(n, s.created[n]) in s.members && s.members[Seat(n, s.created[n])] == Owner)
  }

  /** What an operation carries agrees with what it was allowed to read. */
  predicate Proper(s: State, t: Task) {
    && t.network in s.created
    && match t
      case OwnerSeat(n, u) => s.created[n] == u && n !in s.seated && n in s.networks
      case RoleCaller(n, c, _, role, callerRole) => role != Owner && (callerRole == Owner ==> c == s.created[n])
      case DropCaller(n, c, _, callerRole) => callerRole == Owner ==> c == s.created[n]
      case RoleWrite(n, c, u, role, callerRole, targetRole) =>
        && MaySetRole(callerRole, targetRole, role)
        && (callerRole == Owner ==> c == s.created[n])
        && (n in s.networks && n in s.seated ==> u != s.created[n])
      case DropWrite(n, c, u, callerRole, targetRole) =>
        && MayRemove(c, u, callerRole, targetRole)
        && (callerRole == Owner ==> c == s.created[n])
        && (n in s.networks && n in s.seated ==> u != s.created[n])
      case DeleteWrite(n, c) => c == s.created[n]
      case UpdateWrite(n, row) => row.creator == s.created[n]
      case Joining(_, _) => true
      case JoinSeat(_, _) => true
      case UpdateRead(_, _) => true
      case RotateWrite(_, _) => true
  }

  ghost predicate AllProper(s: State) {
    forall op | op in s.tasks :: Proper(s, s.tasks[op])
  }

  /** While a network is being created nobody has a seat on it and nothing else happens to it. */
  ghost predicate Private(s: State) {
    forall op | op in s.tasks && s.tasks[op].OwnerSeat? ::
      && (forall seat | seat in s.members :: seat.network != s.tasks[op].network)
      && (forall other | other in s.tasks && other != op :: s.tasks[other].network != s.tasks[op].network)
  }

  ghost predicate Invariant(s: State) {
    Owned(s) && AllProper(s) && Private(s)
  }

  lemma FirstIsProper(s: State, r: Request)
    requires Owned(s) && First(s, r).Some? && !r.Create?
    ensures Proper(s, First(s, r).value) && First(s, r).value.network == r.network
  {
  }

  lemma CreateKeepsInvariant(s: State, op: nat, r: Request)
    requires Invariant(s) && Enabled(s, Begin(op, r)) && r.Create?
    ensures Invariant(Next(s, Begin(op, r)))
  {
    var t := Next(s, Begin(op, r));
    forall o | o in t.tasks ensures Proper(t, t.tasks[o]) {
      assert o != op ==> Proper(s, s.tasks[o]);
    }
  }

  lemma BeginKeepsInvariant(s: State, op: nat, r: Request)
    requires Invariant(s) && Enabled(s, Begin(op, r))
    ensures Invariant(Next(s, Begin(op, r)))
  {
    var t := Next(s, Begin(op, r));
    if r.Create? {
      CreateKeepsInvariant(s, op, r);
    } else if First(s, r).Some? {
      FirstIsProper(s, r);
      forall o | o in t.tasks ensures Proper(t, t.tasks[o]) {
        assert o != op ==> Proper(s, s.tasks[o]);
      }
    } else {
      assert t.tasks == s.tasks;
    }
  }

  lemma UpcomingIsProper(s: State, t: Task, ok: bool)
    requires Owned(s) && Proper(s, t) && Upcoming(s, t, ok).Some?
    ensures Proper(s, Upcoming(s, t, ok).value) && Upcoming(s, t, ok).value.network == t.network
    ensures Written(s, t) == s && !Upcoming(s, t, ok).value.OwnerSeat? && !t.OwnerSeat?
  {
  }

  lemma WriteKeepsOwned(s: State, t: Task)
    requires Owned(s) && Proper(s, t)
    ensures Owned(Written(s, t))
  {
  }

  lemma WriteKeepsProper(s: State, t: Task, other: Task)
    requires Owned(s) && Proper(s, t) && Proper(s, other)
    requires t.OwnerSeat? || other.OwnerSeat? ==> other.network != t.network
    ensures Proper(Written(s, t), other)
  {
  }

  lemma WriteKeepsPrivate(s: State, op: nat)
    requires Invariant(s) && op in s.tasks
    ensures Private(Scheduled(Written(s, s.tasks[op]), op, None))
  {
  }

  /** Ending an operation, or letting it read on, disturbs no other. */
  lemma EndKeepsInvariant(s: State, op: nat)
    requires Invariant(s)
    ensures Invariant(Scheduled(s, op, None))
  {
    var next := Scheduled(s, op, None);
    forall o | o in next.tasks ensures Proper(next, next.tasks[o]) {
      assert Proper(s, s.tasks[o]);
    }
  }

  lemma ReadKeepsInvariant(s: State, op: nat, ok: bool)
    requires Invariant(s) && op in s.tasks && Upcoming(s, s.tasks[op], ok).Some?
    ensures Invariant(Scheduled(s, op, Upcoming(s, s.tasks[op], ok)))
  {
    var next := Scheduled(s, op, Upcoming(s, s.tasks[op], ok));
    UpcomingIsProper(s, s.tasks[op], ok);
    forall o | o in next.tasks ensures Proper(next, next.tasks[o]) {
      assert o != op ==> Proper(s, s.tasks[o]);
    }
  }

  lemma WriteKeepsAllProper(s: State, op: nat)
    requires Invariant(s) && op in s.tasks
    ensures AllProper(Scheduled(Written(s, s.tasks[op]), op, None))
  {
    var w := Written(s, s.tasks[op]);
    forall o | o in s.tasks && o != op ensures Proper(w, s.tasks[o]) {
      WriteKeepsProper(s, s.tasks[op], s.tasks[o]);
    }
    assert w.tasks == s.tasks;
  }

  lemma WriteKeepsInvariant(s: State, op: nat)
    requires Invariant(s) && op in s.tasks
    ensures Invariant(Scheduled(Written(s, s.tasks[op]), op, None))
  {
    WriteKeepsOwned(s, s.tasks[op]);
    WriteKeepsPrivate(s, op);
    WriteKeepsAllProper(s, op);
  }

  lemma ContinueKeepsInvariant(s: State, op: nat, ok: bool)
    requires Invariant(s) && op in s.tasks
    ensures Invariant(Next(s, Continue(op, ok)))
  {
    if Upcoming(s, s.tasks[op], ok).Some? {
      UpcomingIsProper(s, s.tasks[op], ok);
      ReadKeepsInvariant(s, op, ok);
    } else if ok {
      WriteKeepsInvariant(s, op);
    } else {
      EndKeepsInvariant(s, op);
    }
  }

  lemma {:induction false} RunKeepsInvariant(steps: seq<Step>)
    requires CanRun(steps)
    ensures Invariant(Run(steps))
  {
    if steps != [] {
      var front, step := steps[..|steps| - 1], steps[|steps| - 1];
      RunKeepsInvariant(front);
      match step
      case Begin(op, r) => BeginKeepsInvariant(Run(front), op, r);
      case Continue(op, ok) => ContinueKeepsInvariant(Run(front), op, ok);
    }
  }

  // -------------------------------------------------------------------------- owners

  ghost predicate Owns(s: State, n: string, u: string) {
    Seat(n, u) in s.members && s.members[Seat(n, u)] == Owner
  }

  /**
   However operations interleave, an existing network has an owner if and only if the second write
   of its creation succeeded, and then its one owner is its creator.
   */
  lemma OneOwnerIff(steps: seq<Step>, n: string, u: string)
    requires CanRun(steps) && n in Run(steps).networks
    ensures n in Run(steps).created && Run(steps).networks[n].creator == Run(steps).created[n]
    ensures Owns(Run(steps), n, u) <==> n in Run(steps).seated && u == Run(steps).created[n]
  {
    RunKeepsInvariant(steps);
  }

  /** The step at position k is the second write of the creation of n. */
  ghost predicate Seats(steps: seq<Step>, k: int, n: string)
    requires CanRun(steps)
  {
    && 0 <= k < |steps|
    && CanRun(steps[..k])
    && steps[k].Continue? && steps[k].ok && steps[k].op in Run(steps[..k]).tasks
    && Run(steps[..k]).tasks[steps[k].op].OwnerSeat? && Run(steps[..k]).tasks[steps[k].op].network == n
  }

  lemma SeatedByStep(s: State, step: Step, n: string)
    requires Invariant(s) && Enabled(s, step)
    ensures n in Next(s, step).seated <==>
      (n in s.seated || (step.Continue? && step.ok && s.tasks[step.op].OwnerSeat? && s.tasks[step.op].network == n))
    ensures step.Continue? && s.tasks[step.op].OwnerSeat? && s.tasks[step.op].network == n ==> n !in s.seated
  {
    assert step.Continue? ==> Proper(s, s.tasks[step.op]);
  }

  lemma SeatsPrefix(steps: seq<Step>, k: nat, n: string)
    requires CanRun(steps) && k < |steps| - 1
    ensures Seats(steps, k, n) <==> Seats(steps[..|steps| - 1], k, n)
  {
    assert steps[..k] == steps[..|steps| - 1][..k];
  }

  /** A network counts as seated exactly when that write has been made. */
  lemma {:induction false} SeatedIff(steps: seq<Step>, n: string)
    requires CanRun(steps)
    ensures n in Run(steps).seated <==> exists k :: Seats(steps, k, n)
  {
    if steps != [] {
      var front, last := steps[..|steps| - 1], |steps| - 1;
      SeatedIff(front, n);
      RunKeepsInvariant(front);
      SeatedByStep(Run(front), steps[last], n);
      assert Seats(steps, last, n) <==> n in Run(steps).seated && n !in Run(front).seated;
      forall k | 0 <= k < last ensures Seats(steps, k, n) <==> Seats(front, k, n) {
        SeatsPrefix(steps, k, n);
      }
    }
  }

  lemma HistoryStays(s: State, step: Step, n: string)
    requires Enabled(s, step) && n in s.created
    ensures n in Next(s, step).created && Next(s, step).created[n] == s.created[n]
    ensures n in s.seated ==> n in Next(s, step).seated
  {
  }

  lemma {:induction false} HistoryIsPermanent(steps: seq<Step>, more: seq<Step>, n: string)
    requires CanRun(steps) && CanRun(steps + more) && n in Run(steps).created
    ensures n in Run(steps + more).created && Run(steps + more).created[n] == Run(steps).created[n]
    ensures n in Run(steps).seated ==> n in Run(steps + more).seated
    decreases |more|
  {
    if more == [] {
      assert steps + more == steps;
    } else {
      var front := more[..|more| - 1];
      assert (steps + more)[..|steps + more| - 1] == steps + front;
      HistoryIsPermanent(steps, front, n);
      HistoryStays(Run(steps + front), more[|more| - 1], n);
    }
  }

  /** Whatever happens after, an owner stays the owner of a network if and only if the network stays. */
  lemma OwnershipIsPermanent(steps: seq<Step>, more: seq<Step>, n: string, u: string)
    requires CanRun(steps) && CanRun(steps + more) && Owns(Run(steps), n, u)
    ensures Owns(Run(steps + more), n, u) <==> n in Run(steps + more).networks
  {
    RunKeepsInvariant(steps);
    RunKeepsInvariant(steps + more);
    HistoryIsPermanent(steps, more, n);
  }

  // -------------------------------------------------------------------------- admins

  ghost predicate Administers(s: State, n: string, u: string) {
    Seat(n, u) in s.members && s.members[Seat(n, u)] == Admin
  }

  /** The write lands on a row that is no longer what its operation read. */
  predicate Raced(s: State, t: Task) {
    && (t.RoleWrite? || t.DropWrite?)
    && Seat(t.network, t.target) in s.members
    && s.members[Seat(t.network, t.target)] != t.targetRole
  }

  /** The write that makes or unmakes an administrator of n. */
  predicate ByTheOwner(s: State, t: Task, u: string) {
    && t.network in s.created
    && (t.DeleteWrite? || ((t.RoleWrite? || t.DropWrite?) && t.target == u))
    && t.caller == s.created[t.network]
  }

  predicate BySelf(t: Task, u: string) {
    t.DropWrite? && t.caller == u && t.target == u
  }

  /** Who administers n changes with the step. */
  ghost predicate Changes(s: State, step: Step, n: string, u: string)
    requires Enabled(s, step)
  {
    Administers(s, n, u) != Administers(Next(s, step), n, u)
  }

  /**
   However operations interleave, who administers a network changes only with a write; and a write
   that is neither its owner's action nor an administrator leaving changes it if and only if it
   lands on a row that has changed since it was read.
   */
  lemma AdminChangeIff(steps: seq<Step>, step: Step, n: string, u: string)
    requires CanRun(steps) && Enabled(Run(steps), step)
    ensures Changes(Run(steps), step, n, u) ==> step.Continue? && step.ok
    ensures step.Continue? && step.ok ==>
      var s := Run(steps);
      var t := s.tasks[step.op];
      ByTheOwner(s, t, u) || BySelf(t, u) ||
      (Changes(s, step, n, u) <==> t.network == n && Raced(s, t) && t.target == u)
  {
    RunKeepsInvariant(steps);
    var s := Run(steps);
    if step.Continue? && step.ok {
      assert Proper(s, s.tasks[step.op]);
    }
  }

  // ------------------------------------------------------------------- members

  predicate HasCaller(t: Task) {
    t.RoleCaller? || t.RoleWrite? || t.DropCaller? || t.DropWrite?
  }

  /** Step j began the operation, and the caller's row then had the role that the operation goes by. */
  ghost predicate ReadBy(steps: seq<Step>, j: int, op: nat, t: Task)
    requires HasCaller(t)
  {
    && 0 <= j < |steps| && CanRun(steps[..j]) && steps[j].Begin? && steps[j].op == op
    && Seat(t.network, t.caller) in Run(steps[..j]).members
    && Run(steps[..j]).members[Seat(t.network, t.caller)] == t.callerRole
  }

  /** An operation goes on with the caller it read, and with whom it is about. */
  lemma TaskGoesOn(s: State, step: Step, op: nat)
    requires Enabled(s, step) && op in Next(s, step).tasks && !(step.Begin? && step.op == op)
    ensures op in s.tasks && Next(s, step).tasks[op].network == s.tasks[op].network
    ensures var t, t' := s.tasks[op], Next(s, step).tasks[op];
      && (HasCaller(t') ==> HasCaller(t) && t'.caller == t.caller && t'.callerRole == t.callerRole)
      && (t'.Joining? || t'.JoinSeat? ==> (t.Joining? || t.JoinSeat?) && t'.user == t.user)
  {
  }

  lemma {:induction false} CallerWasRead(steps: seq<Step>, op: nat) returns (j: nat)
    requires CanRun(steps) && op in Run(steps).tasks && HasCaller(Run(steps).tasks[op])
    ensures ReadBy(steps, j, op, Run(steps).tasks[op])
  {
    var front, step := steps[..|steps| - 1], steps[|steps| - 1];
    if step.Begin? && step.op == op {
      j := |front|;
    } else {
      TaskGoesOn(Run(front), step, op);
      j := CallerWasRead(front, op);
      assert front[..j] == steps[..j];
    }
  }

  /** Step j began the operation with a code that the network invited with, unexpired, at the time. */
  ghost predicate InvitedBy(steps: seq<Step>, j: int, op: nat, n: string, u: string) {
    && 0 <= j < |steps| && CanRun(steps[..j]) && steps[j].Begin? && steps[j].op == op
    && steps[j].request.Join? && steps[j].request.network == n && steps[j].request.user == u
    && n in Run(steps[..j]).networks
    && var row, r := Run(steps[..j]).networks[n], steps[j].request;
      row.enabled && row.code == r.code && (row.expires.None? || r.now <= row.expires.value)
  }

  lemma {:induction false} JoinerWasInvited(steps: seq<Step>, op: nat) returns (j: nat)
    requires CanRun(steps) && op in Run(steps).tasks
    requires Run(steps).tasks[op].Joining? || Run(steps).tasks[op].JoinSeat?
    ensures InvitedBy(steps, j, op, Run(steps).tasks[op].network, Run(steps).tasks[op].user)
  {
    var front, step := steps[..|steps| - 1], steps[|steps| - 1];
    if step.Begin? && step.op == op {
      j := |front|;
    } else {
      TaskGoesOn(Run(front), step, op);
      j := JoinerWasInvited(front, op);
      assert front[..j] == steps[..j];
    }
  }

  /**
   However operations interleave, a member's row disappears only with its network, by its owner's
   hand, or because the member leaves, or by an operation that found its caller an owner or an
   administrator.
   */
  lemma MemberLossIsAuthorised(steps: seq<Step>, step: Step, n: string, u: string) returns (j: nat)
    requires CanRun(steps) && Enabled(Run(steps), step)
    requires Seat(n, u) in Run(steps).members && Run(steps).members[Seat(n, u)] == Member
    requires Seat(n, u) !in Next(Run(steps), step).members
    ensures step.Continue? && step.ok
    ensures
      var s := Run(steps);
      var t := s.tasks[step.op];
      t.network == n &&
      ((t.DeleteWrite? && n in s.created && t.caller == s.created[n])
       || (t.DropWrite? && t.target == u
           && (t.caller == u || ((t.callerRole == Owner || t.callerRole == Admin) && ReadBy(steps, j, step.op, t)))))
  {
    RunKeepsInvariant(steps);
    var s := Run(steps);
    var t := s.tasks[step.op];
    assert Proper(s, t);
    j := 0;
    if t.DropWrite? {
      j := CallerWasRead(steps, step.op);
    }
  }

  /** A row appears only as the owner's, at the network's creation, or as a member's that was invited. */
  lemma NewRowIsInvited(steps: seq<Step>, step: Step, n: string, u: string) returns (j: nat)
    requires CanRun(steps) && Enabled(Run(steps), step)
    requires Seat(n, u) !in Run(steps).members && Seat(n, u) in Next(Run(steps), step).members
    ensures step.Continue? && step.ok
    ensures
      var s := Run(steps);
      var t := s.tasks[step.op];
      var role := Next(s, step).members[Seat(n, u)];
      || (t == OwnerSeat(n, u) && role == Owner && n in s.created && u == s.created[n])
      || (t == JoinSeat(n, u) && role == Member && InvitedBy(steps, j, step.op, n, u))
  {
    RunKeepsInvariant(steps);
    var s := Run(steps);
    var t := s.tasks[step.op];
    assert Proper(s, t);
    j := 0;
    if t.JoinSeat? {
      j := JoinerWasInvited(steps, step.op);
    }
  }

  // ------------------------------------------------------------------------ exceptions

  ghost predicate Reachable(s: State) {
    exists steps :: CanRun(steps) && Run(steps) == s
  }

  lemma Reach(s: State, step: Step) returns (t: State)
    requires Reachable(s) && Enabled(s, step)
    ensures t == Next(s, step) && Reachable(t)
  {
    var steps :| CanRun(steps) && Run(steps) == s;
    assert (steps + [step])[..|steps|] == steps;
    assert CanRun(steps + [step]);
    t := Next(s, step);
    assert Run(steps + [step]) == t;
  }

  lemma Start()
    ensures Reachable(EMPTY)
  {
    assert CanRun([]) && Run([]) == EMPTY;
  }

  /** A creation whose second write fails leaves a network that nobody owns. */
  lemma OrphanIsReachable(n: string, user: string, name: string, code: string)
    ensures exists s :: Reachable(s) && n in s.networks && forall u :: !Owns(s, n, u)
  {
    Start();
    var s := Reach(EMPTY, Begin(0, Create(n, user, name, code)));
    var t := Reach(s, Continue(0, false));
    assert n in t.networks && t.members == map[];
  }

  /** A network with its owner and two ordinary members. */
  lemma Populated(n: string, o: string, a: string, b: string, code: string) returns (s: State)
    requires o != a && o != b && a != b
    ensures Reachable(s) && s.tasks == map[]
    ensures s.members == map[Seat(n, o) := Owner, Seat(n, a) := Member, Seat(n, b) := Member]
  {
    Start();
    s := Reach(EMPTY, Begin(0, Create(n, o, "", code)));
    s := Reach(s, Continue(0, true));
    s := Joined(s, n, a, code);
    s := Joined(s, n, b, code);
  }

  lemma Joined(s: State, n: string, u: string, code: string) returns (t: State)
    requires Reachable(s) && s.tasks == map[] && n in s.networks && Invites(s.networks[n], code, 0)
    requires Seat(n, u) !in s.members
    ensures Reachable(t) && t == s.(members := s.members[Seat(n, u) := Member])
  {
    t := Reach(s, Begin(0, Join(n, u, code, 0)));
    t := Reach(t, Continue(0, true));
    t := Reach(t, Continue(0, true));
    assert t.tasks == map[];
  }

  /** The owner gives a member another role, while other operations wait. */
  lemma Promoted(s: State, op: nat, n: string, o: string, u: string) returns (t: State)
    requires Reachable(s) && op !in s.tasks && !BeingCreated(s, n)
    requires Owns(s, n, o) && Seat(n, u) in s.members && s.members[Seat(n, u)] == Member
    ensures Reachable(t) && t == s.(members := s.members[Seat(n, u) := Admin])
  {
    t := Reach(s, Begin(op, UpdateMemberRole(n, o, u, Admin)));
    t := Reach(t, Continue(op, true));
    t := Reach(t, Continue(op, true));
    assert t.tasks == s.tasks;
  }

  /** Administrator a is about to write the role of member b, having read both rows. */
  lemma WaitingDemotion(n: string, o: string, a: string, b: string, code: string) returns (s: State)
    requires o != a && o != b && a != b
    ensures Reachable(s) && s.tasks == map[1 := RoleWrite(n, a, b, Member, Admin, Member)]
    ensures Owns(s, n, o) && Seat(n, b) in s.members && s.members[Seat(n, b)] == Member
  {
    s := Populated(n, o, a, b, code);
    s := Promoted(s, 0, n, o, a);
    s := Checked(s, n, a, b);
  }

  /** An administrator's change to a member, checked and not yet written. */
  lemma Checked(s: State, n: string, a: string, b: string) returns (t: State)
    requires Reachable(s) && s.tasks == map[] && Administers(s, n, a)
    requires Seat(n, b) in s.members && s.members[Seat(n, b)] == Member
    ensures Reachable(t) && t == s.(tasks := map[1 := RoleWrite(n, a, b, Member, Admin, Member)])
  {
    t := Reach(s, Begin(1, UpdateMemberRole(n, a, b, Member)));
    t := Reach(t, Continue(1, true));
  }

  /**
   Authority alone does not decide: an administrator's change to a member, checked before the owner
   promotes that member and written after, takes the promotion back.
   */
  lemma RacedDemotionIsReachable(n: string, o: string, a: string, b: string, code: string)
    requires o != a && o != b && a != b
    ensures exists s, op ::
      && Reachable(s) && op in s.tasks
      && Administers(s, n, b) && !Administers(Next(s, Continue(op, true)), n, b)
      && !ByTheOwner(s, s.tasks[op], b) && !BySelf(s.tasks[op], b)
  {
    var s := WaitingDemotion(n, o, a, b, code);
    ReachableIsOwned(s);
    s := Promoted(s, 0, n, o, b);
    ReachableIsOwned(s);
    assert s.created[n] == o;
    assert Administers(s, n, b) && !Administers(Next(s, Continue(1, true)), n, b);
  }

  lemma ReachableIsOwned(s: State)
    requires Reachable(s)
    ensures Invariant(s)
  {
    var steps :| CanRun(steps) && Run(steps) == s;
    RunKeepsInvariant(steps);
  }

  // --------------------------------------------------------------- one at a time

  function Done(s: State, t: Option<Task>, ok: bool): State {
    if t.Some? && ok then Written(s, t.value) else s
  }

  function Then(s: State, t: Option<Task>, ok: bool): Option<Task> {
    if t.Some? then Upcoming(s, t.value, ok) else None
  }

  /** A whole operation with nothing in between; after its first call it makes at most two. */
  function Alone(s: State, r: Request, second: bool, third: bool): State {
    var t := First(s, r);
    Done(Done(Created(s, r), t, second), Then(Created(s, r), t, second), third)
  }

  lemma DoneKeepsOwned(s: State, t: Option<Task>, ok: bool)
    requires Owned(s) && (t.Some? ==> Proper(s, t.value))
    ensures Owned(Done(s, t, ok)) && (Then(s, t, ok).Some? ==> Proper(Done(s, t, ok), Then(s, t, ok).value))
  {
    if t.Some? {
      WriteKeepsOwned(s, t.value);
      if Upcoming(s, t.value, ok).Some? {
        UpcomingIsProper(s, t.value, ok);
      }
    }
  }

  /** Run one at a time, operations keep every owner. */
  lemma AloneKeepsOwned(s: State, r: Request, second: bool, third: bool)
    requires Owned(s) && (r.Create? ==> r.network !in s.created)
    ensures Owned(Alone(s, r, second, third))
  {
    var t, c := First(s, r), Created(s, r);
    if t.Some? && !r.Create? {
      FirstIsProper(s, r);
    }
    DoneKeepsOwned(c, t, second);
    DoneKeepsOwned(Done(c, t, second), Then(c, t, second), third);
  }

  /** Operations that change no role leave the administrators alone. */
  lemma AloneKeepsAdmins(s: State, r: Request, second: bool, third: bool, n: string, u: string)
    requires Owned(s) && (r.Create? ==> r.network !in s.created)
    requires r.Create? || r.Join? || r.Update? || r.RotateInvite?
    ensures Administers(s, n, u) <==> Administers(Alone(s, r, second, third), n, u)
  {
  }

  /** Run one at a time, only the owner changes administrators, or one of them leaving. */
  lemma AloneAdminChange(s: State, r: Request, second: bool, third: bool, n: string, u: string)
    requires Owned(s) && (r.Create? ==> r.network !in s.created)
    requires Administers(s, n, u) != Administers(Alone(s, r, second, third), n, u)
    ensures r.network == n && (r.UpdateMemberRole? || r.RemoveMember? || r.Delete?)
    ensures Owns(s, n, r.caller) || (r.RemoveMember? && r.caller == u && r.target == u)
  {
    if r.Create? || r.Join? || r.Update? || r.RotateInvite? {
      AloneKeepsAdmins(s, r, second, third, n, u);
    }
  }

  lemma UpdateAlone(s: State, n: string, caller: string, name: string, read: bool, write: bool)
    ensures Alone(s, Update(n, caller, name), read, write) ==
      if Seat(n, caller) in s.members && Manages(s.members[Seat(n, caller)]) && read && n in s.networks && write
      then s.(networks := s.networks[n := s.networks[n].(name := name)]) else s
  {
  }

  lemma UpdateRoleAlone(s: State, n: string, caller: string, target: string, role: Role, read: bool, write: bool)
    ensures Alone(s, UpdateMemberRole(n, caller, target, role), read, write) ==
      if Seat(n, caller) in s.members && Seat(n, target) in s.members && read && write
         && MaySetRole(s.members[Seat(n, caller)], s.members[Seat(n, target)], role)
      then s.(members := s.members[Seat(n, target) := role]) else s
  {
  }
}

/** The service as an object over its two tables. */
module Networks {
  import opened Basics
  import opened Ownership

  datatype Fault = Invalid | Forbidden | NotFound | LastOwner | InviteInvalid | Exists | Backend

  class NetworkService {
    var networks: map<string, Row>
    var members: map<Seat, Role>
    ghost var created: map<string, string>
    ghost var seated: set<string>

    ghost function Tables(): State
      reads this
    {
      State(networks, members, map[], created, seated)
    }

    constructor ()
      ensures Tables() == EMPTY
    {
      networks, members := map[], map[];
      created, seated := map[], {};
    }

    method Create(n: string, user: string, name: string, code: string, valid: bool, first: bool, second: bool)
      returns (err: Option<Fault>)
      requires n !in created && Owned(Tables())
      modifies this
      ensures Owned(Tables())
      ensures err.None? <==> valid && first && second
      ensures valid && first ==> networks == old(networks)[n := Row(user, name, code, true, None)]
      ensures members == if err.None? then old(members)[Seat(n, user) := Owner] else old(members)
      ensures Tables() == if !(valid && first) then old(Tables())
                          else Alone(old(Tables()), Ownership.Create(n, user, name, code), second, false)
    {
      AloneKeepsOwned(Tables(), Ownership.Create(n, user, name, code), second, false);
      if !valid {
        return Some(Invalid);
      }
      if !first {
        return Some(Backend);
      }
      networks := networks[n := Row(user, name, code, true, None)];
      created := created[n := user];
      if !second {
        return Some(Backend);
      }
      members := members[Seat(n, user) := Owner];
      seated := seated + {n};
      err := None;
    }

    method Join(n: string, user: string, code: string, now: int, read: bool, write: bool) returns (err: Option<Fault>)
      requires Owned(Tables())
      modifies this
      ensures Owned(Tables())
      ensures Tables() == Alone(old(Tables()), Ownership.Join(n, user, code, now), read, write)
      ensures err.None? <==>
        (n in networks && networks[n].code == code && networks[n].enabled
         && (networks[n].expires.None? || now <= networks[n].expires.value)
         && (if Seat(n, user) in old(members) then read else write))
      ensures networks == old(networks)
      ensures members == if err.None? && Seat(n, user) !in old(members) then old(members)[Seat(n, user) := Member]
                         else old(members)
    {
      AloneKeepsOwned(Tables(), Ownership.Join(n, user, code, now), read, write);
      if n !in networks || networks[n].code != code || !networks[n].enabled {
        return Some(InviteInvalid);
      }
      if networks[n].expires.Some? && now > networks[n].expires.value {
        return Some(InviteInvalid);
      }
      if read && Seat(n, user) in members {
        return None;
      }
      if !write {
        return Some(Backend);
      }
      if Seat(n, user) in members {
        return Some(Exists);
      }
      members := members[Seat(n, user) := Member];
      err := None;
    }

    method UpdateMemberRole(n: string, caller: string, target: string, role: Role, read: bool, write: bool)
      returns (err: Option<Fault>)
      requires Owned(Tables())
      modifies this
      ensures Owned(Tables())
      ensures Tables() == Alone(old(Tables()), Ownership.UpdateMemberRole(n, caller, target, role), read, write)
      ensures err.Some? ==> Tables() == old(Tables())
      ensures err.None? <==>
        (Seat(n, caller) in old(members) && Seat(n, target) in old(members) && read && write
         && role != Owner && old(members)[Seat(n, target)] != Owner
         && (old(members)[Seat(n, caller)] == Owner
             || (old(members)[Seat(n, caller)] == Admin && role == Member && old(members)[Seat(n, target)] == Member)))
      ensures err.None? ==> members == old(members)[Seat(n, target) := role] && networks == old(networks)
    {
      AloneKeepsOwned(Tables(), Ownership.UpdateMemberRole(n, caller, target, role), read, write);
      UpdateRoleAlone(Tables(), n, caller, target, role, read, write);
      if Seat(n, caller) !in members {
        return Some(Forbidden);
      }
      var callerRole := members[Seat(n, caller)];
      if role != Admin && role != Member {
        return Some(Invalid);
      }
      if !read {
        return Some(Backend);
      }
      if Seat(n, target) !in members {
        return Some(NotFound);
      }
      var targetRole := members[Seat(n, target)];
      if targetRole == Owner {
        return Some(LastOwner);
      }
      if role == Admin || targetRole == Admin {
        if callerRole != Owner {
          return Some(Forbidden);
        }
      } else if callerRole != Owner && callerRole != Admin {
        return Some(Forbidden);
      }
      if !write {
        return Some(Backend);
      }
      members := members[Seat(n, target) := role];
      err := None;
    }

    method RemoveMember(n: string, caller: string, target: string, read: bool, write: bool) returns (err: Option<Fault>)
      requires Owned(Tables())
      modifies this
      ensures Owned(Tables())
      ensures Tables() == Alone(old(Tables()), Ownership.RemoveMember(n, caller, target), read, write)
      ensures err.Some? ==> Tables() == old(Tables())
      ensures err.None? <==>
        (Seat(n, caller) in old(members) && Seat(n, target) in old(members) && read && write
         && old(members)[Seat(n, target)] != Owner
         && (caller == target || old(members)[Seat(n, caller)] == Owner
             || (old(members)[Seat(n, caller)] == Admin && old(members)[Seat(n, target)] == Member)))
      ensures err.None? ==> members == old(members) - {Seat(n, target)} && networks == old(networks)
    {
      AloneKeepsOwned(Tables(), Ownership.RemoveMember(n, caller, target), read, write);
      if Seat(n, caller) !in members {
        return Some(Forbidden);
      }
      if !read {
        return Some(Backend);
      }
      if Seat(n, target) !in members {
        return Some(NotFound);
      }
      var callerRole, targetRole := members[Seat(n, caller)], members[Seat(n, target)];
      if targetRole == Owner {
        return Some(LastOwner);
      }
      if caller != target {
        if callerRole != Owner && callerRole != Admin {
          return Some(Forbidden);
        }
        if targetRole == Admin && callerRole != Owner {
          return Some(Forbidden);
        }
      }
      if !write {
        return Some(Backend);
      }
      members := members - {Seat(n, target)};
      err := None;
    }

    /** An update reads the whole row and writes it back changed. */
    method Update(n: string, caller: string, name: string, valid: bool, read: bool, write: bool)
      returns (err: Option<Fault>)
      requires Owned(Tables())
      modifies this
      ensures Owned(Tables())
      ensures Tables() == Alone(old(Tables()), Ownership.Update(n, caller, name), read, valid && write)
      ensures err.Some? ==> Tables() == old(Tables())
      ensures err.None? <==>
        (Seat(n, caller) in old(members)
         && (old(members)[Seat(n, caller)] == Owner || old(members)[Seat(n, caller)] == Admin)
         && n in old(networks) && valid && read && write)
      ensures err.None? ==>
        networks == old(networks)[n := old(networks)[n].(name := name)] && members == old(members)
    {
      AloneKeepsOwned(Tables(), Ownership.Update(n, caller, name), read, valid && write);
      UpdateAlone(Tables(), n, caller, name, read, valid && write);
      if Seat(n, caller) !in members || !Manages(members[Seat(n, caller)]) {
        return Some(Forbidden);
      }
      if !read {
        return Some(Backend);
      }
      if n !in networks {
        return Some(NotFound);
      }
      var row := networks[n].(name := name);
      if !valid {
        return Some(Invalid);
      }
      if !write {
        return Some(Backend);
      }
      networks := networks[n := row];
      err := None;
    }

    /** A new code has no expiry. */
    method RotateInvite(n: string, caller: string, code: string, write: bool) returns (err: Option<Fault>)
      requires Owned(Tables())
      modifies this
      ensures Owned(Tables())
      ensures Tables() == Alone(old(Tables()), Ownership.RotateInvite(n, caller, code), write, false)
      ensures err.Some? ==> Tables() == old(Tables())
      ensures err.None? <==>
        (Seat(n, caller) in old(members)
         && (old(members)[Seat(n, caller)] == Owner || old(members)[Seat(n, caller)] == Admin)
         && n in old(networks) && write)
      ensures err.None? ==>
        && networks == old(networks)[n := old(networks)[n].(code := code, expires := None)]
        && members == old(members)
    {
      AloneKeepsOwned(Tables(), Ownership.RotateInvite(n, caller, code), write, false);
      if Seat(n, caller) !in members || !Manages(members[Seat(n, caller)]) {
        return Some(Forbidden);
      }
      if !write {
        return Some(Backend);
      }
      if n !in networks {
        return Some(NotFound);
      }
      networks := networks[n := networks[n].(code := code, expires := None)];
      err := None;
    }

    method DropMembers(n: string)
      modifies this`members
      ensures members == map seat | seat in old(members) && seat.network != n :: old(members)[seat]
    {
      var todo := members.Keys;
      while todo != {}
        invariant todo <= members.Keys <= old(members).Keys
        invariant forall seat | seat in members :: members[seat] == old(members)[seat]
        invariant forall seat | seat in old(members) && seat !in todo :: seat in members <==> seat.network != n
        decreases |todo|
      {
        var seat :| seat in todo;
        todo := todo - {seat};
        if seat.network == n {
          members := members - {seat};
        }
      }
    }

    /** Deleting a network takes its members with it. */
    method Delete(n: string, caller: string, write: bool) returns (err: Option<Fault>)
      requires Owned(Tables())
      modifies this
      ensures Owned(Tables())
      ensures Tables() == Alone(old(Tables()), Ownership.Delete(n, caller), write, false)
      ensures err.None? <==>
        (Seat(n, caller) in old(members) && old(members)[Seat(n, caller)] == Owner && write && n in old(networks))
      ensures err.Some? ==> Tables() == old(Tables())
      ensures err.None? ==>
        && networks == old(networks) - {n}
        && (forall seat :: seat in members <==> seat in old(members) && seat.network != n)
        && (forall seat | seat in members :: members[seat] == old(members)[seat])
    {
      AloneKeepsOwned(Tables(), Ownership.Delete(n, caller), write, false);
      if Seat(n, caller) !in members || members[Seat(n, caller)] != Owner {
        return Some(Forbidden);
      }
      if !write {
        return Some(Backend);
      }
      if n !in networks {
        return Some(NotFound);
      }
      networks := networks - {n};
      DropMembers(n);
      err := None;
    }
  }
}
