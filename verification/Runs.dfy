/** Velocity caps over whole runs, and what a permission says about the raw figures behind
    the counters. */
module Runs {
  import opened Common
  import opened Json
  import R = Request
  import opened Policy
  import opened Evaluation
  import opened Extension
  import Invariance
  import opened Payments

  // ---------------------------------------------------------------------------
  // What one permission guarantees
  // ---------------------------------------------------------------------------

  /** The units of `token` a permitted operation adds to the counters: decoded totals for an
      extension call, the op's own amount for any other. */
  function Adds(op: Op, token: string): nat {
    if op.IsExtensionCall() then
      if op.body.Body? then (if token == NATIVE then NativeSpent(op.body.req) else 0) + UnitsMoved(token, op.body.req)
      else 0
    else if op.Amount().Some? && op.Token() == token then ParseOr(op.Amount().value, 0)
    else 0
  }

  function CapFor(policy: Policy, w: Window, token: string): Option<u128> {
    if policy.rules.Some? && policy.rules.value.limits.Some? && Caps(policy.rules.value.limits.value, w).Some? then
      LookupLimit(Caps(policy.rules.value.limits.value, w).value, token)
    else None
  }

  /** The operation moves no fungible token of a contract that is itself named `native`. */
  predicate NoTokenNamedNative(op: Op) {
    op.IsExtensionCall() && op.body.Body? ==> !TokenMoved(NATIVE, op.body.req)
  }

  lemma {:induction false} NoUnits(token: string, receiver: string, actions: seq<R.Action>)
    requires forall a :: a in actions ==> !MovesFungibly(token, receiver, a)
    ensures Sum(UnitsOfAction(token, receiver), actions) == 0
  {
    hide MovesFungibly;
    if actions != [] {
      assert actions[|actions| - 1] in actions;
      assert forall a :: a in actions[..|actions| - 1] ==> a in actions;
      NoUnits(token, receiver, actions[..|actions| - 1]);
    }
  }

  lemma {:induction false} NoUnitsAnywhere(token: string, ps: seq<R.NearPromise>)
    requires forall p :: p in ps ==> !PromiseMoves(token, p)
    ensures Sum(PromiseUnits(token), ps) == 0
  {
    hide MovesFungibly;
    if ps != [] {
      var init, last := ps[..|ps| - 1], ps[|ps| - 1];
      assert last in ps;
      assert forall p :: p in init ==> p in ps;
      NoUnitsAnywhere(token, init);
      NoUnits(token, last.receiver, last.actions);
    }
  }

  lemma NotMovedIsNoUnits(token: string, req: R.Request)
    requires !TokenMoved(token, req)
    ensures UnitsMoved(token, req) == 0
  {
    hide PromiseMoves, Sum;
    NoUnitsAnywhere(token, req.external);
  }

  /** A permitted extension call passed its door. */
  lemma PermittedDoor(policy: Policy, op: Op, usage: Option<Usage>, now: nat)
    requires op.IsExtensionCall() && Evaluate(policy, op, usage, now).Permits()
    ensures op.body.Body? && RequestPermitted(policy.rules, op.body.req, usage)
  {
    hide ExtensionStage, StandardStage, TailStage, LimitsReadable, RequestPermitted;
    Invariance.DoorDenies(policy.rules, op.body, usage);
    BodyPresent(policy.rules, op.body, usage);
    DoorIsExact(policy.rules, op.body.req, op.body.size, usage);
  }

  lemma BodyPresent(rules: Option<Rules>, body: CallBody, usage: Option<Usage>)
    ensures ExtensionStage(rules, body, usage).None? ==> body.Body?
  {
  }

  /** A permitted operation passed the limits on its own amount. */
  lemma PermittedAmount(policy: Policy, op: Op, usage: Option<Usage>, now: nat)
    requires op.Amount().Some? && Evaluate(policy, op, usage, now).Permits()
    ensures ParseU128(op.Amount().value).Some?
    ensures ScalarLimitStage(policy.rules, op, ParseU128(op.Amount().value).value, usage).None?
  {
    hide TypeRefuses, TokenRefuses, DestinationStage, ScalarLimitStage, TailStage, LimitsReadable, RateRefuses, ParseU128,
         ExtensionStage;
    ScalarDenies(policy.rules, op, ParseOr(op.Amount().value, 0), usage);
    DestinationDenies(policy.rules, op);
    if op.IsExtensionCall() {
      Invariance.DoorDenies(policy.rules, op.body, usage);
    }
  }

  lemma ScalarDenies(rules: Option<Rules>, op: Op, amount: u128, usage: Option<Usage>)
    ensures ScalarLimitStage(rules, op, amount, usage).Some? ==>
      ScalarLimitStage(rules, op, amount, usage).value.Deny?
  {
  }

  lemma DestinationDenies(rules: Option<Rules>, op: Op)
    ensures DestinationStage(rules, op).Some? ==> DestinationStage(rules, op).value.Deny?
  {
  }

  /** The counter of `token` is one the operation is measured against: the token of its own
      amount, or one that its decoded promises move. */
  predicate Measured(op: Op, token: string) {
    || (op.Amount().Some? && op.Token() == token)
    || (op.IsExtensionCall() && op.body.Body? && TokenMoved(token, op.body.req))
  }

  lemma UnmeasuredAddsNothing(op: Op, token: string)
    requires !Measured(op, token)
    ensures Adds(op, token) == 0
  {
    hide TokenMoved, UnitsMoved, NativeSpent, ParseU128;
    if op.IsExtensionCall() && op.body.Body? {
      NotMovedIsNoUnits(token, op.body.req);
    }
  }

  /** The cap bounds what the decoder's totals add: a contract that is itself named `native`
      is metered apart from the yocto, and only a cap of zero bounds the two together. */
  predicate CapBinds(cap: u128, op: Op, token: string) {
    cap < U128_MAX && (token == NATIVE && cap > 0 ==> NoTokenNamedNative(op))
  }

  /** The operation's own amount against one counter. */
  lemma AmountMeasured(policy: Policy, w: Window, op: Op, usage: Usage, now: nat)
    requires Evaluate(policy, op, Some(usage), now).Permits() && op.Amount().Some?
    requires CapFor(policy, w, op.Token()).Some?
    ensures !usage.CounterUnreadable(w, op.Token()) && ParseU128(op.Amount().value).Some?
    ensures CapFor(policy, w, op.Token()).value < U128_MAX ==>
      usage.Spent(w, op.Token()) + ParseU128(op.Amount().value).value <= CapFor(policy, w, op.Token()).value
  {
    hide LookupLimit, ParseU128, Evaluate;
    PermittedAmount(policy, op, Some(usage), now);
    var amount := ParseU128(op.Amount().value).value;
    var limits := policy.rules.value.limits.value;
    assert !WindowRefuses(Caps(limits, w), w, usage, op.Token(), amount) by {
      match w {
        case Daily =>
        case Hourly =>
        case Monthly =>
      }
    }
    SaturatedTests(amount, usage.Spent(w, op.Token()), CapFor(policy, w, op.Token()).value);
  }

  /** What a permission with counters says of every capped counter it is measured against:
      it could be read, and it stays within its cap. */
  lemma PermittedWithinCap(policy: Policy, w: Window, op: Op, usage: Usage, now: nat, token: string)
    requires Evaluate(policy, op, Some(usage), now).Permits()
    requires CapFor(policy, w, token).Some? && Measured(op, token)
    ensures !usage.CounterUnreadable(w, token)
    ensures CapBinds(CapFor(policy, w, token).value, op, token) ==>
      usage.Spent(w, token) + Adds(op, token) <= CapFor(policy, w, token).value
  {
    hide LookupLimit, UnitsMoved, NativeSpent, TokenMoved, ParseU128, Evaluate, RequestPermitted;
    if op.Amount().Some? && op.Token() == token {
      AmountMeasured(policy, w, op, usage, now);
    }
    if op.IsExtensionCall() {
      PermittedDoor(policy, op, Some(usage), now);
      PermittedSums(policy, w, op.body.req, usage);
      if !TokenMoved(token, op.body.req) {
        NotMovedIsNoUnits(token, op.body.req);
      }
    }
  }

  lemma PermittedSums(policy: Policy, w: Window, req: R.Request, usage: Usage)
    requires RequestPermitted(policy.rules, req, Some(usage))
    requires policy.rules.Some? && policy.rules.value.limits.Some?
    ensures WindowMet(policy.rules.value.limits.value, w, usage, req)
  {
  }

  // ---------------------------------------------------------------------------
  // Runs
  // ---------------------------------------------------------------------------

  /** One request of a run: what is asked, the counters it is judged with, and when. */
  datatype Event = Event(op: Op, usage: Usage, now: nat)

  /** The counter of one token after one request, in a window that does not reset: a
      permitted one adds what it moves. */
  function After(policy: Policy, e: Event, token: string, spent: nat): nat {
    if Evaluate(policy, e.op, Some(e.usage), e.now).Permits() then spent + Adds(e.op, token) else spent
  }

  function AfterAll(policy: Policy, events: seq<Event>, token: string, spent: nat): nat
    decreases |events|
  {
    if events == [] then spent else AfterAll(policy, events[1..], token, After(policy, events[0], token, spent))
  }

  /** Every request of the run is judged with this counter as it stands. Nothing is asked of
      the others: a token without a cap is not tracked. */
  predicate JudgedOneAtATime(policy: Policy, w: Window, events: seq<Event>, token: string, spent: nat)
    decreases |events|
  {
    events != [] ==>
      && events[0].usage.Spent(w, token) == spent
      && JudgedOneAtATime(policy, w, events[1..], token, After(policy, events[0], token, spent))
  }

  /** Over every run judged one request at a time, no counter passes its configured cap. */
  lemma {:induction false} CapsHoldOverRuns(policy: Policy, w: Window, events: seq<Event>, token: string, spent: nat)
    requires CapFor(policy, w, token).Some? && spent <= CapFor(policy, w, token).value
    requires forall e :: e in events ==> CapBinds(CapFor(policy, w, token).value, e.op, token)
    requires JudgedOneAtATime(policy, w, events, token, spent)
    ensures AfterAll(policy, events, token, spent) <= CapFor(policy, w, token).value
    decreases |events|
  {
    hide Evaluate, CapFor, Adds, Measured, CapBinds;
    if events != [] {
      var e := events[0];
      if !Measured(e.op, token) {
        UnmeasuredAddsNothing(e.op, token);
      } else if Evaluate(policy, e.op, Some(e.usage), e.now).Permits() {
        PermittedWithinCap(policy, w, e.op, e.usage, e.now, token);
      }
      assert forall x :: x in events[1..] ==> x in events;
      CapsHoldOverRuns(policy, w, events[1..], token, After(policy, e, token, spent));
    }
  }

  // ---------------------------------------------------------------------------
  // Where the two conditions come from
  // ---------------------------------------------------------------------------

  function LimitsIn(w: Window, cap: u128): Limits {
    var caps := Some(map[NATIVE := ToDecimal(cap)]);
    match w
    case Daily => Limits(None, caps, None, None, None)
    case Hourly => Limits(None, None, caps, None, None)
    case Monthly => Limits(None, None, None, caps, None)
  }

  /** A policy with one rule: a native cap in one window. */
  function OnlyCap(w: Window, cap: u128): Policy {
    Policy(false, Some(Rules(None, None, None, Some(LimitsIn(w, cap)), None, None)), None, None)
  }

  function OnlyDailyCap(cap: u128): Policy { OnlyCap(Daily, cap) }

  function SpentToday(n: u128): Usage {
    NO_USAGE.(daily := map[NATIVE := n])
  }

  function Pay(n: u128): Op { Transfer("a.near", ToDecimal(n)) }

  lemma OnlyCapIs(w: Window, cap: u128)
    ensures CapFor(OnlyCap(w, cap), w, NATIVE) == Some(cap)
    ensures LimitsReadable(OnlyCap(w, cap).rules)
  {
    hide ToDecimal, ParseU128;
    DecimalRoundTrip(cap);
  }

  /** Under that policy a payment is allowed when its counter reads and the saturated sum is
      within the cap. */
  lemma PayIsAllowed(w: Window, cap: u128, usage: Usage, n: u128)
    requires !usage.CounterUnreadable(w, NATIVE) && SatAdd(usage.Spent(w, NATIVE), n) <= cap
    ensures Evaluate(OnlyCap(w, cap), Pay(n), Some(usage), 0) == Allow
    ensures Adds(Pay(n), NATIVE) == n
  {
    hide ToDecimal, ParseU128, SatAdd, LimitsReadable, ModeOf, NormalizeType, LookupLimit;
    DecimalRoundTrip(n);
    OnlyCapIs(w, cap);
  }

  /** With the largest amount as the cap, paying it and then one yocto more is allowed. */
  lemma TopCapIsPassed() returns (events: seq<Event>)
    ensures JudgedOneAtATime(OnlyDailyCap(U128_MAX), Daily, events, NATIVE, 0)
    ensures forall e :: e in events ==> NoTokenNamedNative(e.op)
    ensures AfterAll(OnlyDailyCap(U128_MAX), events, NATIVE, 0) > U128_MAX
  {
    hide Evaluate, OnlyCap, ToDecimal, Adds;
    var policy := OnlyDailyCap(U128_MAX);
    var first := Event(Pay(U128_MAX), SpentToday(0), 0);
    var second := Event(Pay(1), SpentToday(U128_MAX), 0);
    PayIsAllowed(Daily, U128_MAX, SpentToday(0), U128_MAX);
    PayIsAllowed(Daily, U128_MAX, SpentToday(U128_MAX), 1);
    events := [first, second];
    assert events[1..] == [second] && [second][1..] == [];
    assert JudgedOneAtATime(policy, Daily, [second], NATIVE, U128_MAX);
    assert AfterAll(policy, [second], NATIVE, U128_MAX) == AfterAll(policy, [second][1..], NATIVE, U128_MAX + 1);
  }

  predicate HoldsOver(cap: u128, events: seq<Event>) {
    JudgedOneAtATime(OnlyDailyCap(cap), Daily, events, NATIVE, 0) ==>
      AfterAll(OnlyDailyCap(cap), events, NATIVE, 0) <= cap
  }

  /** A daily native cap holds over every run that moves no token named `native` exactly when
      it is below the largest amount, and over every run at all exactly when it is zero. */
  lemma DailyCapHoldsExactly(cap: u128)
    ensures
      (forall events: seq<Event> :: (forall e: Event :: e in events ==> NoTokenNamedNative(e.op)) ==> HoldsOver(cap, events))
      <==> cap < U128_MAX
    ensures (forall events: seq<Event> :: HoldsOver(cap, events)) <==> cap == 0
  {
    hide JudgedOneAtATime, AfterAll, OnlyCap, NoTokenNamedNative, CapFor;
    OnlyCapIs(Daily, cap);
    forall events: seq<Event> | cap == 0 || (cap < U128_MAX && forall e: Event :: e in events ==> NoTokenNamedNative(e.op))
      ensures HoldsOver(cap, events)
    {
      if JudgedOneAtATime(OnlyDailyCap(cap), Daily, events, NATIVE, 0) {
        CapsHoldOverRuns(OnlyDailyCap(cap), Daily, events, NATIVE, 0);
      }
    }
    if cap == U128_MAX {
      var events := TopCapIsPassed();
      assert !HoldsOver(cap, events);
    }
    if cap > 0 {
      NamesakePassesTheCap(cap);
      assert !HoldsOver(cap, [Event(NamesakeOp(cap), SpentToday(0), 0)]);
    }
  }

  // ---------------------------------------------------------------------------
  // A token named like the native one
  // ---------------------------------------------------------------------------

  /** One token transfer of `n` units of a contract that is itself named `native`. */
  function PayNamesake(n: u128): R.Request { R.Request([], [PaysToken(NATIVE, "a.near", n)]) }

  function NamesakeOp(n: u128): Op {
    Call("a.near", "w_execute_extension", Body(PayNamesake(n), 0), "0", ToDecimal(1))
  }

  lemma NamesakeTotals(n: u128)
    ensures NativeSpent(PayNamesake(n)) == 1
    ensures UnitsMoved(NATIVE, PayNamesake(n)) == n
    ensures forall token :: TokenMoved(token, PayNamesake(n)) <==> token == NATIVE
  {
    hide ToDecimal, R.ReadFt, FtBytes, ParseU128, Sum;
    FtBytesRead("a.near", n);
    DecimalRoundTrip(n);
    DecimalRoundTrip(1);
    var p := PaysToken(NATIVE, "a.near", n);
    var a := p.actions[0];
    SumOne(NativeOfPromise(), p);
    SumOne(NativeOfAction(), a);
    SumOne(PromiseUnits(NATIVE), p);
    SumOne(UnitsOfAction(NATIVE, NATIVE), a);
    assert a in p.actions && p in PayNamesake(n).external;
    assert MovesFungibly(NATIVE, NATIVE, a);
  }

  lemma SumOne<A>(f: A -> nat, x: A)
    ensures Sum(f, [x]) == f(x)
  {
  }

  lemma NamesakePermitted(cap: u128)
    requires 1 <= cap
    ensures RequestPermitted(OnlyDailyCap(cap).rules, PayNamesake(cap), Some(SpentToday(0)))
  {
    hide ToDecimal, R.ReadFt, FtBytes, ParseU128, UnitsMoved, NativeSpent, TokenMoved, LookupLimit;
    var p := PaysToken(NATIVE, "a.near", cap);
    FtBytesRead("a.near", cap);
    DecimalRoundTrip(cap);
    DecimalRoundTrip(1);
    NamesakeTotals(cap);
    OnlyCapIs(Daily, cap);
    ZeroParses();
  }

  lemma ZeroParses()
    ensures ParseU64("0") == Some(0)
  {
  }

  lemma NamesakeAllowed(cap: u128)
    requires 1 <= cap
    ensures Evaluate(OnlyDailyCap(cap), NamesakeOp(cap), Some(SpentToday(0)), 0) == Allow
  {
    hide ToDecimal, ParseU128, LimitsReadable, ExtensionStage, RequestPermitted, PayNamesake, ModeOf, NormalizeType,
         LookupLimit, SatAdd, IsIntentsContract;
    NamesakePermitted(cap);
    DoorIsExact(OnlyDailyCap(cap).rules, PayNamesake(cap), 0, Some(SpentToday(0)));
    DecimalRoundTrip(1);
    OnlyCapIs(Daily, cap);
    NamesakeStaysOut(cap);
    OneFits(cap);
  }

  lemma OneFits(cap: u128)
    requires 1 <= cap
    ensures SatAdd(0, 1) <= cap
  {
  }

  lemma NamesakeStaysOut(cap: u128)
    ensures !ExtensionReachesIntents(Body(PayNamesake(cap), 0))
    ensures !IsIntentsContract("a.near")
  {
  }

  /** A token contract named `native` slips past a daily native cap: its units and the
      request's own yocto are each compared alone, and together they pass it. */
  lemma NamesakePassesTheCap(cap: u128)
    requires 1 <= cap
    ensures
      var e := Event(NamesakeOp(cap), SpentToday(0), 0);
      && JudgedOneAtATime(OnlyDailyCap(cap), Daily, [e], NATIVE, 0)
      && AfterAll(OnlyDailyCap(cap), [e], NATIVE, 0) == cap + 1
  {
    hide Evaluate, OnlyDailyCap, NativeSpent, UnitsMoved, ToDecimal, PayNamesake;
    var e := Event(NamesakeOp(cap), SpentToday(0), 0);
    NamesakeAllowed(cap);
    NamesakeTotals(cap);
    assert After(OnlyDailyCap(cap), e, NATIVE, 0) == cap + 1;
    assert [e][1..] == [];
  }
}
