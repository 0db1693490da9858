/** Rewriting a request without changing what it does does not change its answer: promises
    and actions in another order, one payment in two pieces. */
module Invariance {
  import opened Common
  import opened Request
  import P = Policy
  import opened Evaluation
  import opened Extension

  predicate PromiseReadable(p: NearPromise) {
    forall a :: a in p.actions ==> FiguresReadable(a)
  }

  predicate AllReadable(ps: seq<NearPromise>) {
    forall p :: p in ps ==> PromiseReadable(p)
  }

  predicate AllFine(f: Fence, ps: seq<NearPromise>) {
    forall p :: p in ps ==> PromiseFine(f, p)
  }

  predicate Reaches(ps: seq<NearPromise>) {
    exists p :: p in ps && P.IsIntentsContract(p.receiver)
  }

  /** The two requests read, fence and move alike. */
  ghost predicate SameUses(a: Request, b: Request) {
    && (a.internal == [] <==> b.internal == [])
    && (AllReadable(a.external) <==> AllReadable(b.external))
    && (Reaches(a.external) <==> Reaches(b.external))
    && (forall f :: AllFine(f, a.external) <==> AllFine(f, b.external))
    && (forall token :: UnitsMoved(token, a) == UnitsMoved(token, b))
    && (forall token :: TokenMoved(token, a) <==> TokenMoved(token, b))
  }

  /** They also spend alike: totals at or past the largest amount are one. */
  ghost predicate SameEconomics(a: Request, b: Request) {
    SameUses(a, b) && Saturate(NativeSpent(a)) == Saturate(NativeSpent(b))
  }

  lemma ReadableByMember(req: Request)
    ensures RequestReadable(req) <==> AllReadable(req.external)
  {
    hide FiguresReadable;
    if RequestReadable(req) {
      forall p | p in req.external
        ensures PromiseReadable(p)
      {
        var i :| 0 <= i < |req.external| && req.external[i] == p;
        forall a | a in p.actions
          ensures FiguresReadable(a)
        {
          var k :| 0 <= k < |p.actions| && p.actions[k] == a;
          assert FiguresReadable(req.external[i].actions[k]);
        }
      }
    }
    if AllReadable(req.external) {
      forall i, k | 0 <= i < |req.external| && 0 <= k < |req.external[i].actions|
        ensures FiguresReadable(req.external[i].actions[k])
      {
        assert req.external[i] in req.external;
        assert req.external[i].actions[k] in req.external[i].actions;
      }
    }
  }

  lemma ReachesByMember(req: Request, size: nat)
    requires RequestReadable(req)
    ensures ExtensionReachesIntents(P.Body(req, size)) <==> Reaches(req.external)
  {
  }

  lemma SaturatedWithin(limits: P.Limits, token: string, x: nat, y: nat)
    requires Saturate(x) == Saturate(y)
    ensures x > 0 <==> y > 0
    ensures WithinPerTransaction(limits.perTransaction, token, x) <==> WithinPerTransaction(limits.perTransaction, token, y)
    ensures forall w, u :: WithinWindow(limits, w, u, token, x) <==> WithinWindow(limits, w, u, token, y)
  {
    hide LookupLimit;
  }

  lemma SameSums(limits: P.Limits, usage: Option<P.Usage>, a: Request, b: Request)
    requires SameEconomics(a, b)
    ensures SumsMeet(limits, usage, a) <==> SumsMeet(limits, usage, b)
  {
    hide WithinPerTransaction, WithinWindow, UnitsMoved, TokenMoved, NativeSpent, AllFine, AllReadable, Reaches, Saturate;
    SaturatedWithin(limits, P.NATIVE, NativeSpent(a), NativeSpent(b));
    forall w, u
      ensures WindowMet(limits, w, u, a) <==> WindowMet(limits, w, u, b)
    {
    }
  }

  lemma SamePermission(rules: Option<P.Rules>, usage: Option<P.Usage>, a: Request, b: Request)
    requires SameEconomics(a, b)
    ensures RequestPermitted(rules, a, usage) <==> RequestPermitted(rules, b, usage)
  {
    hide SumsMeet, UnitsMoved, TokenMoved, NativeSpent, PromiseFine, AllReadable, Reaches, RequestReadable, Saturate;
    ReadableByMember(a);
    ReadableByMember(b);
    assert AllFine(FenceOf(rules), a.external) <==> AllFine(FenceOf(rules), b.external);
    if rules.Some? && rules.value.limits.Some? {
      SameSums(rules.value.limits.value, usage, a, b);
    }
  }

  /** Two extension calls that differ only in such a rewriting get the same decision, or
      are both denied. */
  lemma SameDecision(policy: P.Policy, op: P.Op, a: Request, b: Request, sizeA: nat, sizeB: nat,
                     usage: Option<P.Usage>, now: nat)
    requires op.IsExtensionCall() && SameEconomics(a, b)
    ensures
      var decisionA := Evaluate(policy, op.(body := P.Body(a, sizeA)), usage, now);
      var decisionB := Evaluate(policy, op.(body := P.Body(b, sizeB)), usage, now);
      decisionA == decisionB || (decisionA.Deny? && decisionB.Deny?)
  {
    hide ExtensionStage, StandardStage, TailStage, LimitsReadable, SameEconomics, Reaches, RequestPermitted;
    var x, y := op.(body := P.Body(a, sizeA)), op.(body := P.Body(b, sizeB));
    DoorIsExact(policy.rules, a, sizeA, usage);
    DoorIsExact(policy.rules, b, sizeB, usage);
    SamePermission(policy.rules, usage, a, b);
    DoorDenies(policy.rules, x.body, usage);
    DoorDenies(policy.rules, y.body, usage);
    SameStandard(policy.rules, x, y, usage);
    if RequestPermitted(policy.rules, a, usage) {
      SameTail(policy, x, y, a, b, sizeA, sizeB, usage, now);
    }
  }

  lemma StagesDeny(rules: Option<P.Rules>, fx: Effects.EffectsSet, usage: Option<P.Usage>)
    ensures AddressStage(rules, fx).Some? ==> AddressStage(rules, fx).value.Deny?
    ensures TokenStage(rules, fx).Some? ==> TokenStage(rules, fx).value.Deny?
    ensures LimitStage(rules, fx, usage).Some? ==> LimitStage(rules, fx, usage).value.Deny?
  {
  }

  lemma DoorDenies(rules: Option<P.Rules>, body: P.CallBody, usage: Option<P.Usage>)
    ensures ExtensionStage(rules, body, usage).Some? ==> ExtensionStage(rules, body, usage).value.Deny?
  {
    hide AddressStage, TokenStage, LimitStage, FiguresReadable;
    if body.Body? {
      StagesDeny(rules, Effects.EffectsOf(body.req, body.size), usage);
    }
  }

  lemma SameStandard(rules: Option<P.Rules>, x: P.Op, y: P.Op, usage: Option<P.Usage>)
    requires x.Call? && y.Call? && y == x.(body := y.body)
    ensures StandardStage(rules, x, usage) == StandardStage(rules, y, usage)
  {
    hide ModeOf, ModeAllows, PerTransactionRefuses, WindowRefuses, RateRefuses, ParseU128, NormalizeType;
  }

  lemma SameTail(policy: P.Policy, x: P.Op, y: P.Op, a: Request, b: Request, sizeA: nat, sizeB: nat,
                 usage: Option<P.Usage>, now: nat)
    requires x.Call? && x.body == P.Body(a, sizeA) && y == x.(body := P.Body(b, sizeB))
    requires SameEconomics(a, b) && RequestPermitted(policy.rules, a, usage) && RequestPermitted(policy.rules, b, usage)
    ensures TailStage(policy, x, now) == TailStage(policy, y, now)
  {
    hide TimeRefuses, P.IsIntentsContract, ExtensionReachesIntents, AllFine, AllReadable, UnitsMoved, TokenMoved,
         NativeSpent, SumsMeet, PromiseFine, FiguresReadable, Reaches, IntentsCallStage;
    ReachesByMember(a, sizeA);
    ReachesByMember(b, sizeB);
    assert x.TypeAliases() == y.TypeAliases();
    assert ReachesIntents(x) <==> ReachesIntents(y);
    assert ApprovalStage(policy.approval, x) == ApprovalStage(policy.approval, y);
  }

  // ---------------------------------------------------------------------------
  // Order
  // ---------------------------------------------------------------------------

  lemma SameMembers<A>(xs: seq<A>, ys: seq<A>)
    requires multiset(xs) == multiset(ys)
    ensures forall x :: x in xs <==> x in ys
  {
    forall x
      ensures x in xs <==> x in ys
    {
      assert x in xs <==> x in multiset(xs);
      assert x in ys <==> x in multiset(ys);
    }
  }

  /** Promises in another order. */
  lemma PromisesPermute(a: Request, b: Request)
    requires a.internal == b.internal && multiset(a.external) == multiset(b.external)
    ensures SameEconomics(a, b)
  {
    hide PromiseFine, PromiseReadable, P.IsIntentsContract, PromiseMoves;
    SameMembers(a.external, b.external);
    SumPermutes(NativeOfPromise(), a.external, b.external);
    forall token
      ensures UnitsMoved(token, a) == UnitsMoved(token, b)
    {
      SumPermutes(PromiseUnits(token), a.external, b.external);
    }
  }

  /** The two promises read, fence and move alike. */
  ghost predicate SamePromise(p: NearPromise, q: NearPromise) {
    && p.receiver == q.receiver
    && (PromiseReadable(p) <==> PromiseReadable(q))
    && (forall f :: PromiseFine(f, p) <==> PromiseFine(f, q))
    && (forall token :: Sum(UnitsOfAction(token, p.receiver), p.actions)
                     == Sum(UnitsOfAction(token, q.receiver), q.actions))
    && (forall token :: PromiseMoves(token, p) <==> PromiseMoves(token, q))
  }

  lemma SumReplaced(f: NearPromise -> nat, ps: seq<NearPromise>, i: nat, q: NearPromise)
    requires i < |ps| && f(ps[i]) == f(q)
    ensures Sum(f, ps[i := q]) == Sum(f, ps)
  {
    assert ps == ps[..i] + [ps[i]] + ps[i + 1..];
    assert ps[i := q] == ps[..i] + [q] + ps[i + 1..];
    SumAppend(f, ps[..i] + [ps[i]], ps[i + 1..]);
    SumAppend(f, ps[..i] + [q], ps[i + 1..]);
    SumSnoc(f, ps[..i], ps[i]);
    SumSnoc(f, ps[..i], q);
  }

  lemma ReplacedMembers(ps: seq<NearPromise>, i: nat, q: NearPromise, qs: seq<NearPromise>)
    requires i < |ps| && qs == ps[i := q]
    ensures forall p :: p in qs <==> p in ps[..i] || p == q || p in ps[i + 1..]
  {
    assert qs == ps[..i] + [q] + ps[i + 1..];
  }

  /** Two requests whose promises are the same but for one. */
  lemma AlikeButOne(a: Request, b: Request, l: seq<NearPromise>, r: seq<NearPromise>, p: NearPromise, q: NearPromise)
    requires forall x :: x in a.external <==> x in l || x == p || x in r
    requires forall x :: x in b.external <==> x in l || x == q || x in r
    requires SamePromise(p, q)
    ensures AllReadable(a.external) <==> AllReadable(b.external)
    ensures Reaches(a.external) <==> Reaches(b.external)
    ensures forall f :: AllFine(f, a.external) <==> AllFine(f, b.external)
    ensures forall token :: TokenMoved(token, a) <==> TokenMoved(token, b)
  {
    hide PromiseFine, PromiseReadable, P.IsIntentsContract, PromiseMoves, Sum;
  }

  /** One promise replaced by one that does the same. */
  lemma PromiseReplaced(a: Request, i: nat, q: NearPromise)
    requires i < |a.external| && SamePromise(a.external[i], q)
    ensures SameUses(a, a.(external := a.external[i := q]))
    ensures Sum(NativeOfAction(), a.external[i].actions) == Sum(NativeOfAction(), q.actions) ==>
      SameEconomics(a, a.(external := a.external[i := q]))
  {
    hide PromiseFine, PromiseReadable, PromiseMoves, Sum, AllReadable, Reaches, AllFine, TokenMoved;
    var ps, qs := a.external, a.external[i := q];
    var b := a.(external := qs);
    ReplacedMembers(ps, i, q, b.external);
    ReplacedMembers(ps, i, ps[i], a.external);
    AlikeButOne(a, b, ps[..i], ps[i + 1..], ps[i], q);
    if Sum(NativeOfAction(), ps[i].actions) == Sum(NativeOfAction(), q.actions) {
      SumReplaced(NativeOfPromise(), ps, i, q);
    }
    forall token
      ensures UnitsMoved(token, a) == UnitsMoved(token, b)
    {
      SumReplaced(PromiseUnits(token), ps, i, q);
    }
  }

  /** Actions of one promise in another order. */
  lemma ActionsPermute(a: Request, i: nat, actions: seq<Action>)
    requires i < |a.external| && multiset(a.external[i].actions) == multiset(actions)
    ensures SameEconomics(a, a.(external := a.external[i := a.external[i].(actions := actions)]))
  {
    hide ActionFine, FiguresReadable, MovesFungibly, Payable, Sum;
    var p := a.external[i];
    var q := p.(actions := actions);
    SameMembers(p.actions, actions);
    SumPermutes(NativeOfAction(), p.actions, actions);
    forall token
      ensures Sum(UnitsOfAction(token, p.receiver), p.actions) == Sum(UnitsOfAction(token, q.receiver), q.actions)
    {
      SumPermutes(UnitsOfAction(token, p.receiver), p.actions, actions);
    }
    hide SameEconomics, SameUses;
    PromiseReplaced(a, i, q);
  }

  // ---------------------------------------------------------------------------
  // Pieces
  // ---------------------------------------------------------------------------

  /** `b` and `c` together read, fence and move as `a` does. */
  ghost predicate DividesInto(receiver: string, a: Action, b: Action, c: Action) {
    && (FiguresReadable(a) <==> FiguresReadable(b) && FiguresReadable(c))
    && (forall f :: ActionFine(f, receiver, a) <==> ActionFine(f, receiver, b) && ActionFine(f, receiver, c))
    && (forall token :: ActionUnits(token, receiver, a)
                     == ActionUnits(token, receiver, b) + ActionUnits(token, receiver, c))
    && (forall token :: MovesFungibly(token, receiver, a)
                   <==> MovesFungibly(token, receiver, b) || MovesFungibly(token, receiver, c))
  }

  /** `b` and `c` together do what `a` does. */
  ghost predicate SplitsInto(receiver: string, a: Action, b: Action, c: Action) {
    DividesInto(receiver, a, b, c) && NativeOf(a) == NativeOf(b) + NativeOf(c)
  }

  function Split(actions: seq<Action>, k: nat, b: Action, c: Action): seq<Action>
    requires k < |actions|
  {
    actions[..k] + [b, c] + actions[k + 1..]
  }

  lemma SumAround(f: Action -> nat, l: seq<Action>, mid: seq<Action>, r: seq<Action>)
    ensures Sum(f, l + mid + r) == Sum(f, l) + Sum(f, mid) + Sum(f, r)
  {
    hide Sum;
    SumAppend(f, l + mid, r);
    SumAppend(f, l, mid);
  }

  lemma SumOfTwo(f: Action -> nat, b: Action, c: Action)
    ensures Sum(f, [b]) == f(b) && Sum(f, [b, c]) == f(b) + f(c)
  {
  }

  lemma SumTwoForOne(f: Action -> nat, actions: seq<Action>, k: nat, b: Action, c: Action)
    requires k < |actions|
    ensures Sum(f, Split(actions, k, b, c)) + f(actions[k]) == Sum(f, actions) + f(b) + f(c)
  {
    hide Sum;
    var l, r := actions[..k], actions[k + 1..];
    assert actions == l + [actions[k]] + r;
    SumAround(f, l, [actions[k]], r);
    SumAround(f, l, [b, c], r);
    SumOfTwo(f, actions[k], c);
    SumOfTwo(f, b, c);
  }

  lemma SplitMembers(actions: seq<Action>, k: nat, b: Action, c: Action)
    requires k < |actions|
    ensures forall x :: x in Split(actions, k, b, c) <==> x in actions[..k] || x == b || x == c || x in actions[k + 1..]
    ensures forall x :: x in actions <==> x in actions[..k] || x == actions[k] || x in actions[k + 1..]
  {
  }

  /** One action replaced by two that together do what it did. */
  lemma ActionSplit(a: Request, i: nat, k: nat, b: Action, c: Action)
    requires i < |a.external| && k < |a.external[i].actions|
    requires DividesInto(a.external[i].receiver, a.external[i].actions[k], b, c)
    ensures
      var p := a.external[i];
      var split := a.(external := a.external[i := p.(actions := Split(p.actions, k, b, c))]);
      && SameUses(a, split)
      && (SplitsInto(p.receiver, p.actions[k], b, c) ==> SameEconomics(a, split))
  {
    hide ActionFine, FiguresReadable, MovesFungibly, ActionUnits, NativeOf, Payable, Sum, Split;
    var p := a.external[i];
    var q := p.(actions := Split(p.actions, k, b, c));
    SplitMembers(p.actions, k, b, c);
    SumTwoForOne(NativeOfAction(), p.actions, k, b, c);
    forall token
      ensures Sum(UnitsOfAction(token, p.receiver), p.actions) == Sum(UnitsOfAction(token, q.receiver), q.actions)
    {
      SumTwoForOne(UnitsOfAction(token, p.receiver), p.actions, k, b, c);
    }
    hide SameEconomics, SameUses;
    PromiseReplaced(a, i, q);
  }

  /** A plain transfer of a + b as transfers of a and of b. */
  lemma TransferSplits(receiver: string, whole: string, first: string, second: string)
    requires ParseU128(whole).Some? && ParseU128(first).Some? && ParseU128(second).Some?
    requires ParseU128(whole).value == ParseU128(first).value + ParseU128(second).value
    ensures SplitsInto(receiver, Transfer(whole), Transfer(first), Transfer(second))
  {
    hide ParseU128;
  }

  predicate ReadsAsFt(fc: FunctionCall) {
    && fc.methodName == "ft_transfer" && ReadFt(fc.args).Some? && ParseU128(ReadFt(fc.args).value.amount).Some?
    && FiguresReadable(Call(fc))
  }

  function Units(fc: FunctionCall): nat
    requires ReadsAsFt(fc)
  {
    ParseU128(ReadFt(fc.args).value.amount).value
  }

  /** An `ft_transfer` of a + b as transfers of a and of b to the same recipient, the
      attached deposit divided between them. */
  lemma FtTransferSplits(receiver: string, whole: FunctionCall, first: FunctionCall, second: FunctionCall)
    requires ReadsAsFt(whole) && ReadsAsFt(first) && ReadsAsFt(second)
    requires ReadFt(first.args).value.receiver == ReadFt(whole.args).value.receiver
    requires ReadFt(second.args).value.receiver == ReadFt(whole.args).value.receiver
    requires Units(whole) == Units(first) + Units(second)
    ensures DividesInto(receiver, Call(whole), Call(first), Call(second))
    ensures NativeOf(Call(whole)) == NativeOf(Call(first)) + NativeOf(Call(second)) ==>
      SplitsInto(receiver, Call(whole), Call(first), Call(second))
  {
    hide ParseU128, ReadFt, ReadNft, ReadStorage, Payable, Movable;
  }

  // ---------------------------------------------------------------------------
  // When splitting an ft_transfer matters
  // ---------------------------------------------------------------------------

  /** The request with one of its calls made in two pieces. */
  function InPieces(a: Request, i: nat, k: nat, first: FunctionCall, second: FunctionCall): Request
    requires i < |a.external| && k < |a.external[i].actions|
  {
    var p := a.external[i];
    a.(external := a.external[i := p.(actions := Split(p.actions, k, Call(first), Call(second)))])
  }

  /** Pieces of one token payment: same recipient, the same units in all. */
  predicate PaysInPieces(whole: FunctionCall, first: FunctionCall, second: FunctionCall) {
    && ReadsAsFt(whole) && ReadsAsFt(first) && ReadsAsFt(second)
    && ReadFt(first.args).value.receiver == ReadFt(whole.args).value.receiver
    && ReadFt(second.args).value.receiver == ReadFt(whole.args).value.receiver
    && Units(whole) == Units(first) + Units(second)
  }

  const NO_FENCE := Fence(None, None)

  /** A request every rule can read, moving no token of a contract named like the native one. */
  predicate Plain(req: Request) {
    RequestReadable(req) && req.internal == [] && AllFine(NO_FENCE, req.external) && !TokenMoved(P.NATIVE, req)
  }

  /** Only a native cap per transaction. */
  function OnlyNativeCap(cap: u128): P.Rules {
    P.Rules(None, None, None, Some(P.Limits(Some(map[P.NATIVE := ToDecimal(cap)]), None, None, None, None)), None, None)
  }

  lemma NativeCapDecides(req: Request, cap: u128)
    requires Plain(req) && cap < U128_MAX
    ensures RequestPermitted(Some(OnlyNativeCap(cap)), req, None) <==> NativeSpent(req) <= cap
  {
    hide NativeSpent, TokenMoved, UnitsMoved, RequestReadable, PromiseFine, ToDecimal, ParseU128;
    DecimalRoundTrip(cap);
    var limits := OnlyNativeCap(cap).limits.value;
    assert FenceOf(Some(OnlyNativeCap(cap))) == NO_FENCE;
    forall token | token != P.NATIVE
      ensures WithinPerTransaction(limits.perTransaction, token, UnitsMoved(token, req))
    {
      assert token !in limits.perTransaction.value;
      NoWildcard();
    }
  }

  lemma NoWildcard()
    ensures "*" != P.NATIVE
  {
  }

  /** Replacing an action changes the native total by what the actions differ in. */
  lemma NativeInPieces(a: Request, i: nat, k: nat, first: FunctionCall, second: FunctionCall)
    requires i < |a.external| && k < |a.external[i].actions|
    ensures NativeSpent(InPieces(a, i, k, first, second)) + NativeOf(a.external[i].actions[k])
         == NativeSpent(a) + NativeOf(Call(first)) + NativeOf(Call(second))
  {
    hide NativeOf, Sum, Split;
    var p, ps := a.external[i], a.external;
    var q := p.(actions := Split(p.actions, k, Call(first), Call(second)));
    SumTwoForOne(NativeOfAction(), p.actions, k, Call(first), Call(second));
    var l, r := ps[..i], ps[i + 1..];
    assert ps == l + [p] + r;
    assert ps[i := q] == l + [q] + r;
    SumAppend(NativeOfPromise(), l + [p], r);
    SumAppend(NativeOfPromise(), l + [q], r);
    SumSnoc(NativeOfPromise(), l, p);
    SumSnoc(NativeOfPromise(), l, q);
  }

  /** The pieces attach together what the whole attached, or the request spends past every
      cap either way. */
  predicate SpendsAlike(a: Request, i: nat, k: nat, first: FunctionCall, second: FunctionCall)
    requires i < |a.external| && k < |a.external[i].actions|
  {
    || NativeOf(a.external[i].actions[k]) == NativeOf(Call(first)) + NativeOf(Call(second))
    || (NativeSpent(a) >= U128_MAX && NativeSpent(InPieces(a, i, k, first, second)) >= U128_MAX)
  }

  /** Splitting a token payment is invisible to every policy exactly when the pieces attach
      together what the whole attached: each piece is a call, and its deposit is metered.
      Totals past the largest amount are not told apart. */
  lemma FtSplitExactly(a: Request, i: nat, k: nat, first: FunctionCall, second: FunctionCall)
    requires i < |a.external| && k < |a.external[i].actions| && a.external[i].actions[k].Call?
    requires PaysInPieces(a.external[i].actions[k].fc, first, second)
    requires Plain(a) && Plain(InPieces(a, i, k, first, second))
    ensures
      (forall rules, usage ::
         RequestPermitted(rules, a, usage) <==> RequestPermitted(rules, InPieces(a, i, k, first, second), usage))
      <==> SpendsAlike(a, i, k, first, second)
  {
    hide NativeOf, RequestPermitted, NativeSpent, Plain, DividesInto, SameUses, ReadsAsFt;
    var whole := a.external[i].actions[k];
    var b := InPieces(a, i, k, first, second);
    NativeInPieces(a, i, k, first, second);
    if SpendsAlike(a, i, k, first, second) {
      FtTransferSplits(a.external[i].receiver, whole.fc, first, second);
      ActionSplit(a, i, k, Call(first), Call(second));
      forall rules, usage
        ensures RequestPermitted(rules, a, usage) <==> RequestPermitted(rules, b, usage)
      {
        SamePermission(rules, usage, a, b);
      }
    } else {
      var cap: u128 := if NativeSpent(a) <= NativeSpent(b) then NativeSpent(a) else NativeSpent(b);
      NativeCapDecides(a, cap);
      NativeCapDecides(b, cap);
      assert RequestPermitted(Some(OnlyNativeCap(cap)), a, None) != RequestPermitted(Some(OnlyNativeCap(cap)), b, None);
    }
  }

  // ---------------------------------------------------------------------------
  // Over two promises
  // ---------------------------------------------------------------------------

  /** The request with promise `i` cut in two before its action `k`: same receiver, same
      refund target. */
  function Cut(a: Request, i: nat, k: nat): Request
    requires i < |a.external| && k <= |a.external[i].actions|
  {
    var p := a.external[i];
    a.(external := a.external[..i] + [p.(actions := p.actions[..k]), p.(actions := p.actions[k..])] + a.external[i + 1..])
  }

  lemma SumCut(f: NearPromise -> nat, ps: seq<NearPromise>, i: nat, q: NearPromise, r: NearPromise)
    requires i < |ps| && f(ps[i]) == f(q) + f(r)
    ensures Sum(f, ps[..i] + [q, r] + ps[i + 1..]) == Sum(f, ps)
  {
    hide Sum;
    var before, after := ps[..i], ps[i + 1..];
    assert ps == before + [ps[i]] + after;
    assert before + [q, r] == before + [q] + [r];
    SumAppend(f, before + [ps[i]], after);
    SumAppend(f, before + [q, r], after);
    SumSnoc(f, before, ps[i]);
    SumSnoc(f, before, q);
    SumSnoc(f, before + [q], r);
  }

  lemma CutPromise(p: NearPromise, k: nat)
    requires k <= |p.actions|
    ensures
      var q, r := p.(actions := p.actions[..k]), p.(actions := p.actions[k..]);
      && (PromiseReadable(p) <==> PromiseReadable(q) && PromiseReadable(r))
      && (forall f :: PromiseFine(f, p) <==> PromiseFine(f, q) && PromiseFine(f, r))
      && (forall token :: PromiseMoves(token, p) <==> PromiseMoves(token, q) || PromiseMoves(token, r))
      && NativeOfPromise()(p) == NativeOfPromise()(q) + NativeOfPromise()(r)
      && (forall token :: PromiseUnits(token)(p) == PromiseUnits(token)(q) + PromiseUnits(token)(r))
  {
    hide FiguresReadable, ActionFine, MovesFungibly, Payable, Sum;
    var l, r := p.actions[..k], p.actions[k..];
    assert p.actions == l + r;
    assert forall a :: a in p.actions <==> a in l || a in r;
    SumAppend(NativeOfAction(), l, r);
    forall token
      ensures PromiseUnits(token)(p)
           == PromiseUnits(token)(p.(actions := l)) + PromiseUnits(token)(p.(actions := r))
    {
      SumAppend(UnitsOfAction(token, p.receiver), l, r);
    }
  }

  /** Two requests whose promises are the same but for one that two share. */
  lemma AlikeButTwo(a: Request, b: Request, l: seq<NearPromise>, r: seq<NearPromise>, p: NearPromise, q: NearPromise,
                    s: NearPromise)
    requires forall x :: x in a.external <==> x in l || x == p || x in r
    requires forall x :: x in b.external <==> x in l || x == q || x == s || x in r
    requires p.receiver == q.receiver == s.receiver
    requires PromiseReadable(p) <==> PromiseReadable(q) && PromiseReadable(s)
    requires forall f :: PromiseFine(f, p) <==> PromiseFine(f, q) && PromiseFine(f, s)
    requires forall token :: PromiseMoves(token, p) <==> PromiseMoves(token, q) || PromiseMoves(token, s)
    ensures AllReadable(a.external) <==> AllReadable(b.external)
    ensures Reaches(a.external) <==> Reaches(b.external)
    ensures forall f :: AllFine(f, a.external) <==> AllFine(f, b.external)
    ensures forall token :: TokenMoved(token, a) <==> TokenMoved(token, b)
  {
    hide PromiseFine, PromiseReadable, P.IsIntentsContract, PromiseMoves;
  }

  lemma CutMembers(ps: seq<NearPromise>, i: nat, q: NearPromise, s: NearPromise)
    requires i < |ps|
    ensures forall x :: x in ps[..i] + [q, s] + ps[i + 1..] <==> x in ps[..i] || x == q || x == s || x in ps[i + 1..]
    ensures forall x :: x in ps <==> x in ps[..i] || x == ps[i] || x in ps[i + 1..]
  {
    assert ps == ps[..i] + [ps[i]] + ps[i + 1..];
  }

  /** A promise cut in two does what it did. */
  lemma PromiseCut(a: Request, i: nat, k: nat)
    requires i < |a.external| && k <= |a.external[i].actions|
    ensures SameEconomics(a, Cut(a, i, k))
  {
    hide PromiseFine, PromiseReadable, PromiseMoves, Sum, NativeOfPromise, PromiseUnits, AllReadable, Reaches, AllFine,
         TokenMoved;
    var ps, b := a.external, Cut(a, i, k);
    var p := ps[i];
    var q, r := p.(actions := p.actions[..k]), p.(actions := p.actions[k..]);
    CutPromise(p, k);
    CutMembers(ps, i, q, r);
    AlikeButTwo(a, b, ps[..i], ps[i + 1..], p, q, r);
    SumCut(NativeOfPromise(), ps, i, q, r);
    forall token
      ensures UnitsMoved(token, a) == UnitsMoved(token, b)
    {
      SumCut(PromiseUnits(token), ps, i, q, r);
    }
  }

  /** `FtSplitExactly` with the pieces in two promises to the token, as a leased account's
      calls must stand. */
  lemma FtSplitOverPromises(a: Request, i: nat, k: nat, first: FunctionCall, second: FunctionCall)
    requires i < |a.external| && k < |a.external[i].actions| && a.external[i].actions[k].Call?
    requires PaysInPieces(a.external[i].actions[k].fc, first, second)
    requires Plain(a) && Plain(InPieces(a, i, k, first, second))
    ensures
      (forall rules, usage ::
         RequestPermitted(rules, a, usage)
         <==> RequestPermitted(rules, Cut(InPieces(a, i, k, first, second), i, k + 1), usage))
      <==> SpendsAlike(a, i, k, first, second)
  {
    hide RequestPermitted, Plain, PaysInPieces, SpendsAlike, SameEconomics, Cut;
    var b := InPieces(a, i, k, first, second);
    FtSplitExactly(a, i, k, first, second);
    PromiseCut(b, i, k + 1);
    forall rules, usage
      ensures RequestPermitted(rules, b, usage) <==> RequestPermitted(rules, Cut(b, i, k + 1), usage)
    {
      SamePermission(rules, usage, b, Cut(b, i, k + 1));
    }
  }
}
