/**
 Single-use pairing tokens (backend/internal/auth/pairing.go).

 A call to Consume checks the token at one clock reading and spends it, under the lock, at a
 later one.  Other calls run in between, so the two halves are separate steps here.
 */
module Pairing {
  import opened Basics

  /** The signed content of a token that concerns spending it.  Times are in nanoseconds. */
  datatype Claims = Claims(id: string, userId: string, networkId: string, exp: Option<int>)

  const MINUTE: int := 60 * SECOND

  function LifetimeFor(ttl: int): (r: int)
    ensures r >= SECOND
    ensures ttl >= SECOND ==> r == ttl
  {
    if ttl <= 0 then 5 * MINUTE else if ttl < SECOND then SECOND else ttl
  }

  /** A time as a token writes it: in whole seconds. */
  function WholeSeconds(t: int): int {
    t / SECOND * SECOND
  }

  function ExpiryFrom(now: int, ttl: int): int {
    WholeSeconds(now + ttl)
  }

  /** A token is alive whenever it is issued if and only if it lives for a second at least. */
  lemma AliveWhenIssuedIff(ttl: int)
    requires ttl > 0
    ensures (forall now :: now < ExpiryFrom(now, ttl)) <==> ttl >= SECOND
  {
    assert ttl < SECOND ==> ExpiryFrom(0, ttl) == 0;
  }

  /** Section 4.1.4 of RFC 7519: a token is not accepted on or after its expiry. */
  predicate Current(c: Claims, now: int) {
    c.exp.None? || now < c.exp.value
  }

  function RememberUntil(c: Claims, now: int, ttl: int): int {
    if c.exp.Some? then c.exp.value else now + ttl
  }

  /** The ids still worth remembering. */
  function Swept(used: map<string, int>, now: int): map<string, int> {
    map id | id in used && now <= used[id] :: used[id]
  }

  // ------------------------------------------------------------------ interleavings

  /** A call that has passed the check and waits for the lock. */
  datatype Call = Call(claims: Claims, remember: int)

  datatype Acceptance = Acceptance(id: string, remember: int, at: int)

  /** The genuine tokens by id, the remembered ids, the calls under way and what was accepted. */
  datatype State = State(now: int, ttl: int, tokens: map<string, Claims>, used: map<string, int>,
                         calls: map<nat, Call>, log: seq<Acceptance>)

  datatype Step =
    | Sign(claims: Claims)
    | Issue(now: int, id: string, userId: string, networkId: string)
    | Check(now: int, later: int, call: nat, presented: Option<Claims>)
    | Spend(now: int, call: nat)

  function Init(ttl: int): State {
    State(0, LifetimeFor(ttl), map[], map[], map[], [])
  }

  /** Clocks do not run backwards, ids are fresh and signatures cannot be forged. */
  predicate Enabled(s: State, step: Step) {
    match step
    case Sign(claims) => claims.id == "" || claims.id !in s.tokens
    case Issue(now, id, _, _) => s.now <= now && id != "" && id !in s.tokens
    case Check(now, later, call, presented) =>
      && s.now <= now <= later
      && call !in s.calls
      && (presented.Some? && presented.value.id != "" ==>
            presented.value.id in s.tokens && s.tokens[presented.value.id] == presented.value)
    case Spend(now, call) => s.now <= now && call in s.calls
  }

  function IssuedClaims(s: State, now: int, id: string, userId: string, networkId: string): Claims {
    Claims(id, userId, networkId, Some(ExpiryFrom(now, s.ttl)))
  }

  predicate Passes(presented: Option<Claims>, now: int) {
    presented.Some? && Current(presented.value, now) && presented.value.id != ""
  }

  function SpendCall(s: State, now: int, call: nat): State
    requires call in s.calls
  {
    var c := s.calls[call];
    var kept := Swept(s.used, now);
    var rest := s.(now := now, used := kept, calls := s.calls - {call});
    if c.claims.id in kept then rest
    else rest.(used := kept[c.claims.id := c.remember],
               log := s.log + [Acceptance(c.claims.id, c.remember, now)])
  }

  function Next(s: State, step: Step): State
    requires Enabled(s, step)
  {
    match step
    case Sign(claims) => s.(tokens := s.tokens[claims.id := claims])
    case Issue(now, id, userId, networkId) =>
      s.(now := now, tokens := s.tokens[id := IssuedClaims(s, now, id, userId, networkId)])
    case Check(now, later, call, presented) =>
      if Passes(presented, now) then
        s.(now := later,
           calls := s.calls[call := Call(presented.value, RememberUntil(presented.value, later, s.ttl))])
      else s.(now := later)
    case Spend(now, call) => SpendCall(s, now, call)
  }

  predicate CanRun(ttl: int, steps: seq<Step>)
    decreases |steps|, 0
  {
    steps == [] ||
    (CanRun(ttl, steps[..|steps| - 1]) && Enabled(Run(ttl, steps[..|steps| - 1]), steps[|steps| - 1]))
  }

  function Run(ttl: int, steps: seq<Step>): State
    requires CanRun(ttl, steps)
    decreases |steps|, 1
  {
    if steps == [] then Init(ttl) else Next(Run(ttl, steps[..|steps| - 1]), steps[|steps| - 1])
  }

  // ---------------------------------------------------------------------- invariant

  /** How often an id was accepted. */
  function Times(log: seq<Acceptance>, id: string): nat {
    if log == [] then 0
    else Times(log[..|log| - 1], id) + if log[|log| - 1].id == id then 1 else 0
  }

  /** Until when the latest acceptance of an id was to be remembered. */
  function Memory(log: seq<Acceptance>, id: string): int
    requires Times(log, id) > 0
  {
    if log[|log| - 1].id == id then log[|log| - 1].remember else Memory(log[..|log| - 1], id)
  }

  /** Exactly the accepted ids whose time has not been seen to pass are remembered. */
  ghost predicate Remembers(s: State) {
    && (forall id | id in s.used :: Times(s.log, id) > 0 && s.used[id] == Memory(s.log, id))
    && (forall id | Times(s.log, id) > 0 :: id in s.used || Memory(s.log, id) < s.now)
  }

  predicate Faithful(tokens: map<string, Claims>, id: string, remember: int) {
    id != "" && id in tokens && (tokens[id].exp.Some? ==> remember == tokens[id].exp.value)
  }

  ghost predicate Genuine(s: State) {
    && (forall c | c in s.calls :: Faithful(s.tokens, s.calls[c].claims.id, s.calls[c].remember))
    && (forall id | id != "" && Times(s.log, id) > 0 :: Faithful(s.tokens, id, Memory(s.log, id)))
  }

  lemma Accepting(log: seq<Acceptance>, a: Acceptance, id: string)
    ensures Times(log + [a], id) == Times(log, id) + if a.id == id then 1 else 0
    ensures Times(log + [a], id) > 0 ==> Memory(log + [a], id) == if a.id == id then a.remember else Memory(log, id)
  {
    assert (log + [a])[..|log|] == log;
  }

  lemma SpendKeepsRemembers(s: State, now: int, call: nat)
    requires Remembers(s) && call in s.calls && s.now <= now
    ensures Remembers(SpendCall(s, now, call))
  {
    var t := SpendCall(s, now, call);
    var c := s.calls[call];
    var a := Acceptance(c.claims.id, c.remember, now);
    forall id {
      Accepting(s.log, a, id);
    }
  }

  lemma SpendKeepsGenuine(s: State, now: int, call: nat)
    requires Genuine(s) && call in s.calls
    ensures Genuine(SpendCall(s, now, call))
  {
    var c := s.calls[call];
    var a := Acceptance(c.claims.id, c.remember, now);
    forall id {
      Accepting(s.log, a, id);
    }
  }

  lemma NextKeepsInvariant(s: State, step: Step)
    requires Remembers(s) && Genuine(s) && Enabled(s, step)
    ensures Remembers(Next(s, step)) && Genuine(Next(s, step))
  {
    match step
    case Sign(_) =>
    case Issue(_, _, _, _) =>
    case Check(_, _, _, _) =>
    case Spend(now, call) =>
      SpendKeepsRemembers(s, now, call);
      SpendKeepsGenuine(s, now, call);
  }

  lemma {:induction false} RunKeepsInvariant(ttl: int, steps: seq<Step>)
    requires CanRun(ttl, steps)
    ensures Remembers(Run(ttl, steps)) && Genuine(Run(ttl, steps))
  {
    if steps != [] {
      RunKeepsInvariant(ttl, steps[..|steps| - 1]);
      NextKeepsInvariant(Run(ttl, steps[..|steps| - 1]), steps[|steps| - 1]);
    }
  }

  // ------------------------------------------------------------------- single use

  /** Whether spending a call accepts its token. */
  predicate Accepts(s: State, now: int, call: nat)
    requires call in s.calls
  {
    |SpendCall(s, now, call).log| > |s.log|
  }

  /**
   After any run, a call is accepted unless its id was accepted before and the time until which
   that was to be remembered has not passed when the lock is held.
   */
  lemma AcceptedIff(ttl: int, steps: seq<Step>, now: int, call: nat)
    requires CanRun(ttl, steps) && Enabled(Run(ttl, steps), Spend(now, call))
    ensures
      var s := Run(ttl, steps);
      var id := s.calls[call].claims.id;
      Accepts(s, now, call) <==> (Times(s.log, id) == 0 || Memory(s.log, id) < now)
  {
    RunKeepsInvariant(ttl, steps);
  }

  /** Step j checked these claims for a call, before they expired. */
  predicate CheckedAt(steps: seq<Step>, j: int, call: nat, claims: Claims) {
    && 0 <= j < |steps| && steps[j].Check? && steps[j].call == call && steps[j].presented == Some(claims)
    && claims.id != "" && (claims.exp.None? || steps[j].now < claims.exp.value)
  }

  /** Every call that waits for the lock was checked by an earlier step. */
  lemma {:induction false} CallsWereChecked(ttl: int, steps: seq<Step>, call: nat) returns (j: nat)
    requires CanRun(ttl, steps) && call in Run(ttl, steps).calls
    ensures CheckedAt(steps, j, call, Run(ttl, steps).calls[call].claims)
  {
    var front, step := steps[..|steps| - 1], steps[|steps| - 1];
    if step.Check? && step.call == call {
      j := |front|;
    } else {
      j := CallsWereChecked(ttl, front, call);
    }
  }

  /** Step k spends a call that step j checked, and that is this acceptance. */
  ghost predicate Explains(steps: seq<Step>, j: int, k: int, claims: Claims, a: Acceptance) {
    && 0 <= j < k < |steps| && steps[k].Spend? && CheckedAt(steps, j, steps[k].call, claims)
    && a.id == claims.id && a.at == steps[k].now
  }

  /** Every acceptance is of a token that was checked, before its expiry, by an earlier step of the same call. */
  lemma {:induction false} AcceptancesWereChecked(ttl: int, steps: seq<Step>, i: nat)
    returns (j: nat, k: nat, claims: Claims)
    requires CanRun(ttl, steps) && i < |Run(ttl, steps).log|
    ensures Explains(steps, j, k, claims, Run(ttl, steps).log[i])
  {
    var front, step := steps[..|steps| - 1], steps[|steps| - 1];
    if i < |Run(ttl, front).log| {
      j, k, claims := AcceptancesWereChecked(ttl, front, i);
    } else {
      k, claims := |front|, Run(ttl, front).calls[step.call].claims;
      j := CallsWereChecked(ttl, front, step.call);
    }
  }

  /** The step at position k spends an accepted token again, after its expiry. */
  ghost predicate Straddles(ttl: int, steps: seq<Step>, id: string, exp: int, k: int)
    requires CanRun(ttl, steps)
  {
    && 0 <= k < |steps|
    && steps[k].Spend?
    && CanRun(ttl, steps[..k])
    && var s := Run(ttl, steps[..k]);
      && steps[k].call in s.calls
      && s.calls[steps[k].call].claims.id == id
      && Times(s.log, id) > 0
      && exp < steps[k].now
  }

  /** A token with this id, if there is one yet, expires at this time. */
  predicate ExpiresAt(s: State, id: string, exp: int) {
    id in s.tokens ==> s.tokens[id].exp == Some(exp)
  }

  lemma OneMoreStep(ttl: int, steps: seq<Step>, id: string, exp: int)
    requires CanRun(ttl, steps) && steps != [] && id != "" && ExpiresAt(Run(ttl, steps), id, exp)
    ensures ExpiresAt(Run(ttl, steps[..|steps| - 1]), id, exp)
    ensures
      var before, after := Run(ttl, steps[..|steps| - 1]).log, Run(ttl, steps).log;
      && Times(before, id) <= Times(after, id) <= Times(before, id) + 1
      && (Times(before, id) == 0 ==> !Straddles(ttl, steps, id, exp, |steps| - 1))
      && (Times(before, id) > 0 ==>
            (Times(after, id) > Times(before, id) <==> Straddles(ttl, steps, id, exp, |steps| - 1)))
  {
    var front, step := steps[..|steps| - 1], steps[|steps| - 1];
    var s := Run(ttl, front);
    RunKeepsInvariant(ttl, front);
    if step.Spend? {
      var c := s.calls[step.call];
      Accepting(s.log, Acceptance(c.claims.id, c.remember, step.now), id);
      AcceptedIff(ttl, front, step.now, step.call);
    }
  }

  lemma StraddlesPrefix(ttl: int, steps: seq<Step>, id: string, exp: int, k: int)
    requires CanRun(ttl, steps) && 0 <= k < |steps| - 1
    ensures Straddles(ttl, steps, id, exp, k) <==> Straddles(ttl, steps[..|steps| - 1], id, exp, k)
  {
    assert steps[..k] == steps[..|steps| - 1][..k];
  }

  /** Some step of the run straddles. */
  ghost predicate StraddledBy(ttl: int, steps: seq<Step>, id: string, exp: int)
    requires CanRun(ttl, steps)
  {
    exists k :: Straddles(ttl, steps, id, exp, k)
  }

  lemma StraddledSnoc(ttl: int, steps: seq<Step>, id: string, exp: int)
    requires CanRun(ttl, steps) && steps != []
    ensures StraddledBy(ttl, steps, id, exp) <==>
      (StraddledBy(ttl, steps[..|steps| - 1], id, exp) || Straddles(ttl, steps, id, exp, |steps| - 1))
  {
    var front := steps[..|steps| - 1];
    if StraddledBy(ttl, front, id, exp) {
      var k :| Straddles(ttl, front, id, exp, k);
      StraddlesPrefix(ttl, steps, id, exp, k);
    }
    if StraddledBy(ttl, steps, id, exp) && !Straddles(ttl, steps, id, exp, |steps| - 1) {
      var k :| Straddles(ttl, steps, id, exp, k);
      StraddlesPrefix(ttl, steps, id, exp, k);
    }
  }

  lemma {:induction false} NeverAccepted(ttl: int, steps: seq<Step>, id: string, exp: int)
    requires CanRun(ttl, steps) && id != "" && ExpiresAt(Run(ttl, steps), id, exp)
    requires Times(Run(ttl, steps).log, id) == 0
    ensures !StraddledBy(ttl, steps, id, exp)
  {
    if steps != [] {
      OneMoreStep(ttl, steps, id, exp);
      NeverAccepted(ttl, steps[..|steps| - 1], id, exp);
      StraddledSnoc(ttl, steps, id, exp);
    }
  }

  /**
   Over any run a token that expires is accepted at most once, if and only if no call spends it
   again at a clock reading past its expiry.  Such a call passed its check before the expiry.
   */
  lemma {:induction false} AtMostOnceIff(ttl: int, steps: seq<Step>, id: string, exp: int)
    requires CanRun(ttl, steps) && id != "" && ExpiresAt(Run(ttl, steps), id, exp)
    ensures Times(Run(ttl, steps).log, id) <= 1 <==> !StraddledBy(ttl, steps, id, exp)
  {
    if steps != [] {
      var front := steps[..|steps| - 1];
      OneMoreStep(ttl, steps, id, exp);
      AtMostOnceIff(ttl, front, id, exp);
      StraddledSnoc(ttl, steps, id, exp);
      if Times(Run(ttl, front).log, id) == 0 {
        NeverAccepted(ttl, front, id, exp);
      }
    }
  }

  /**
   After an accepted call exactly the accepted ids that the sweep's clock reading has not passed
   are remembered, beside the call's own; and all of them are unexpired at that reading if and only
   if the call's token is.
   */
  lemma RememberedAfterIff(ttl: int, steps: seq<Step>, now: int, call: nat)
    requires CanRun(ttl, steps) && Enabled(Run(ttl, steps), Spend(now, call)) && Accepts(Run(ttl, steps), now, call)
    ensures
      var s := Run(ttl, steps);
      var c, after := s.calls[call], SpendCall(s, now, call);
      && (forall id :: id in after.used <==>
            id == c.claims.id || (Times(after.log, id) > 0 && now <= Memory(after.log, id)))
      && ((forall id | id in after.used :: now <= after.used[id]) <==> now <= c.remember)
  {
    var s := Run(ttl, steps);
    var c, after := s.calls[call], SpendCall(s, now, call);
    RunKeepsInvariant(ttl, steps);
    NextKeepsInvariant(s, Spend(now, call));
    assert after.used[c.claims.id] == c.remember;
  }

  // A run in which one token is accepted twice.

  const TOKEN: Claims := Claims("a", "u", "n", Some(SECOND))

  const TWICE: seq<Step> := [
    Issue(0, "a", "u", "n"),
    Check(0, 0, 1, Some(TOKEN)),
    Spend(SECOND / 2, 1),
    Check(SECOND - 1, SECOND - 1, 2, Some(TOKEN)),
    Spend(SECOND + 1, 2)
  ]

  lemma Extend(ttl: int, steps: seq<Step>, step: Step)
    requires CanRun(ttl, steps) && Enabled(Run(ttl, steps), step)
    ensures CanRun(ttl, steps + [step]) && Run(ttl, steps + [step]) == Next(Run(ttl, steps), step)
  {
    assert (steps + [step])[..|steps|] == steps;
  }

  /** The second call passes its check just before the expiry and takes the lock just after it. */
  lemma AcceptedTwice()
    ensures CanRun(SECOND, TWICE) && Times(Run(SECOND, TWICE).log, "a") == 2
  {
    var s0: seq<Step> := [];
    Extend(SECOND, s0, TWICE[0]);
    var s1 := s0 + [TWICE[0]];
    Extend(SECOND, s1, TWICE[1]);
    var s2 := s1 + [TWICE[1]];
    Extend(SECOND, s2, TWICE[2]);
    var s3 := s2 + [TWICE[2]];
    var first := Acceptance("a", SECOND, SECOND / 2);
    assert Run(SECOND, s3).used == map["a" := SECOND];
    assert Run(SECOND, s3).log == [first];
    Extend(SECOND, s3, TWICE[3]);
    var s4 := s3 + [TWICE[3]];
    Extend(SECOND, s4, TWICE[4]);
    assert s4 + [TWICE[4]] == TWICE;
    Accepting([], first, "a");
    assert [] + [first] == [first];
    Accepting([first], Acceptance("a", SECOND, SECOND + 1), "a");
  }

  // ------------------------------------------------------------------------ class

  class PairingManager {
    const ttl: int
    var used: map<string, int>

    predicate Valid() {
      ttl >= SECOND
    }

    constructor (lifetime: int)
      ensures Valid() && ttl == LifetimeFor(lifetime) && used == map[]
      ensures ttl == if lifetime <= 0 then 300 * SECOND else if lifetime < SECOND then SECOND else lifetime
    {
      ttl := LifetimeFor(lifetime);
      used := map[];
    }

    /** A fresh token, and the time the caller is shown: not the one written in the token. */
    method Issue(now: int, id: string, userId: string, networkId: string) returns (claims: Claims, expires: int)
      requires Valid()
      ensures claims.id == id && claims.userId == userId && claims.networkId == networkId && claims.exp.Some?
      ensures claims.exp == Some(ExpiryFrom(now, ttl)) && claims.exp.value % SECOND == 0
      ensures expires == now + ttl && now < claims.exp.value && expires - SECOND < claims.exp.value <= expires
    {
      expires := now + ttl;
      claims := Claims(id, userId, networkId, Some(WholeSeconds(expires)));
    }

    method Sweep(now: int)
      modifies this
      ensures used == Swept(old(used), now)
      ensures forall id :: id in used <==> id in old(used) && now <= old(used)[id]
      ensures forall id | id in used :: used[id] == old(used)[id]
    {
      var todo := used.Keys;
      while todo != {}
        invariant todo <= used.Keys <= old(used).Keys
        invariant forall id | id in used :: used[id] == old(used)[id]
        invariant forall id | id in old(used) && id !in todo :: id in used <==> now <= old(used)[id]
        decreases |todo|
      {
        var id :| id in todo;
        todo := todo - {id};
        if now > used[id] {
          used := used - {id};
        }
      }
    }

    /** The check, then the locked section, each at its own clock reading. */
    method Consume(presented: Option<Claims>, checked: int, later: int, locked: int) returns (out: Option<Claims>)
      requires checked <= later <= locked
      modifies this
      ensures out.Some? <==>
        (presented.Some? && presented.value.id != ""
         && (presented.value.exp.None? || checked < presented.value.exp.value)
         && (presented.value.id !in old(used) || locked > old(used)[presented.value.id]))
      ensures out.Some? ==>
        && out == presented
        && used.Keys == (set id | id in old(used) && locked <= old(used)[id]) + {presented.value.id}
        && (forall id | id in used && id != presented.value.id :: used[id] == old(used)[id])
        && used[presented.value.id] ==
           if presented.value.exp.Some? then presented.value.exp.value else later + ttl
      ensures !Passes(presented, checked) ==> out == None && used == old(used)
      ensures Passes(presented, checked) ==>
        forall s: State, call: nat
          | s.used == old(used) && call in s.calls
            && s.calls[call] == Call(presented.value, RememberUntil(presented.value, later, ttl)) ::
          && used == SpendCall(s, locked, call).used
          && out == if Accepts(s, locked, call) then presented else None
    {
      if presented.None? || !Current(presented.value, checked) || presented.value.id == "" {
        return None;
      }
      var claims := presented.value;
      var expires := later + ttl;
      if claims.exp.Some? {
        expires := claims.exp.value;
      }
      Sweep(locked);
      if claims.id in used {
        return None;
      }
      used := used[claims.id := expires];
      out := presented;
    }
  }
}
