/** The verdict refines the charging pass: refusals collected by category and sorted agree
    with a pass that stops at its first failing step. */
module Refinement {
  import opened Common
  import opened Request
  import opened Effects
  import opened Violations
  import opened Hos
  import opened Binding
  import opened Charging
  import opened Payments

  // ---------------------------------------------------------------------------
  // Refusals of a fragment
  // ---------------------------------------------------------------------------

  function FragmentViolations(g: SpendGrant, f: Fragment): seq<Violation> {
    FlatMap(FactRule(), f.facts)
    + FlatMap(UnknownRule(), f.unknowns)
    + FlatMap(RegistrationRule(), f.registrations)
    + FlatMap(InitRule(), f.inits)
    + FlatMap(MoveRule(g), f.moves)
  }

  lemma FlatMapAppend<A>(f: A -> seq<Violation>, xs: seq<A>, ys: seq<A>, v: Violation)
    ensures v in FlatMap(f, xs + ys) <==> v in FlatMap(f, xs) || v in FlatMap(f, ys)
  {
    FlatMapMember(f, xs + ys, v);
    FlatMapMember(f, xs, v);
    FlatMapMember(f, ys, v);
  }

  lemma FragmentViolationsJoin(g: SpendGrant, a: Fragment, b: Fragment, v: Violation)
    ensures v in FragmentViolations(g, Join(a, b)) <==> v in FragmentViolations(g, a) || v in FragmentViolations(g, b)
  {
    hide FlatMap;
    FlatMapAppend(FactRule(), a.facts, b.facts, v);
    FlatMapAppend(UnknownRule(), a.unknowns, b.unknowns, v);
    FlatMapAppend(RegistrationRule(), a.registrations, b.registrations, v);
    FlatMapAppend(InitRule(), a.inits, b.inits, v);
    FlatMapAppend(MoveRule(g), a.moves, b.moves, v);
  }

  /** The refusals one call gives rise to. */
  predicate CallRefusal(g: SpendGrant, c: CallSite, v: Violation) {
    || (!c.alone && v == AtShape(c.i, 2, CallMustStandAlone))
    || (c.deposit != 1 && v == AtShape(c.i, 3, CallDeposit))
    || (c.effect.Registers? && v == AtShape(c.i, 5, MethodNotAllowed))
    || (c.effect.Unstatable?
        && v == UnknownViolation(UnknownCall(c.i, c.receiver, c.methodName, c.deposit, c.effect.reason)))
    || (c.effect.Moves? && c.effect.extraFields != [] && v == AtShape(c.i, 6, ArgsUnreadable))
    || (c.effect.Moves? && c.effect.approvalSet && v == AtShape(c.i, 7, ApprovalNotAllowed))
    || (c.effect.Moves? && v in MoveViolations(g, MoveOf(c)))
  }

  lemma {:induction false} ExtraFieldRefusals(i: nat, fields: seq<string>, v: Violation)
    ensures v in FlatMap(FactRule(), ExtraFieldFacts(i, fields)) <==> fields != [] && v == AtShape(i, 6, ArgsUnreadable)
  {
    FlatMapMember(FactRule(), ExtraFieldFacts(i, fields), v);
    var facts := ExtraFieldFacts(i, fields);
    if fields != [] {
      assert facts[0] in facts && v == AtShape(i, 6, ArgsUnreadable) ==> v in FactRule()(facts[0]);
    }
  }

  lemma FlatMapOne<A>(f: A -> seq<Violation>, x: A)
    ensures FlatMap(f, [x]) == f(x)
  {
  }

  lemma FlatMapNone<A>(f: A -> seq<Violation>)
    ensures FlatMap(f, []) == []
  {
  }

  lemma FactRefusals(c: CallSite, v: Violation)
    ensures v in FlatMap(FactRule(), CallFacts(c)) <==>
      || (!c.alone && v == AtShape(c.i, 2, CallMustStandAlone))
      || (c.deposit != 1 && v == AtShape(c.i, 3, CallDeposit))
      || (c.effect.Moves? && c.effect.approvalSet && v == AtShape(c.i, 7, ApprovalNotAllowed))
      || (c.effect.Moves? && c.effect.extraFields != [] && v == AtShape(c.i, 6, ArgsUnreadable))
  {
    hide FlatMap, ExtraFieldFacts;
    var a := if !c.alone then [CallNotStandalone(c.i)] else [];
    var b := if c.deposit != 1 then [CallDepositNotOneYocto(c.i, c.deposit)] else [];
    var d := if c.effect.Moves? && c.effect.approvalSet then [NftApprovalIdSet(c.i)] else [];
    var e := if c.effect.Moves? then ExtraFieldFacts(c.i, c.effect.extraFields) else [];
    FlatMapAppend(FactRule(), a + b + d, e, v);
    FlatMapAppend(FactRule(), a + b, d, v);
    FlatMapAppend(FactRule(), a, b, v);
    FlatMapNone(FactRule());
    FlatMapOne(FactRule(), CallNotStandalone(c.i));
    FlatMapOne(FactRule(), CallDepositNotOneYocto(c.i, c.deposit));
    FlatMapOne(FactRule(), NftApprovalIdSet(c.i));
    if c.effect.Moves? {
      ExtraFieldRefusals(c.i, c.effect.extraFields, v);
    }
  }

  lemma CallRefusals(g: SpendGrant, c: CallSite, v: Violation)
    ensures v in FragmentViolations(g, CallFragment(c)) <==> CallRefusal(g, c, v)
  {
    hide FlatMap, MoveViolations, CallFacts, UnknownViolation;
    var f := CallFragment(c);
    FactRefusals(c, v);
    FlatMapNone(InitRule());
    if c.effect.Unstatable? {
      FlatMapOne(UnknownRule(), f.unknowns[0]);
      FlatMapNone(RegistrationRule());
      FlatMapNone(MoveRule(g));
    } else if c.effect.Registers? {
      FlatMapNone(UnknownRule());
      FlatMapOne(RegistrationRule(), f.registrations[0]);
      FlatMapNone(MoveRule(g));
    } else {
      FlatMapNone(UnknownRule());
      FlatMapNone(RegistrationRule());
      FlatMapOne(MoveRule(g), f.moves[0]);
    }
  }

  /** The refusals one action gives rise to. */
  predicate ActionRefusal(g: SpendGrant, i: nat, p: NearPromise, k: nat, v: Violation)
    requires k < |p.actions|
  {
    match p.actions[k]
    case Transfer(_) => false
    case StateInit(_) => v == AtShape(i, 3, ActionNotAllowed)
    case Call(_) => CallRefusal(g, SiteOf(i, p, k), v)
  }

  lemma NothingRefuses(g: SpendGrant, v: Violation)
    ensures v !in FragmentViolations(g, NOTHING)
  {
  }

  lemma ActionRefusals(g: SpendGrant, i: nat, p: NearPromise, k: nat, v: Violation)
    requires k < |p.actions|
    ensures v in FragmentViolations(g, ActionFragment(i, p, k)) <==> ActionRefusal(g, i, p, k, v)
  {
    hide FlatMap, CallRefusal, CallFragment, SiteOf, NativeOf;
    if p.actions[k].Call? {
      CallRefusals(g, SiteOf(i, p, k), v);
    } else {
      FlatMapNone(FactRule());
      FlatMapNone(UnknownRule());
      FlatMapNone(RegistrationRule());
      FlatMapNone(MoveRule(g));
      FlatMapNone(InitRule());
      FlatMapOne(InitRule(), i);
    }
  }

  lemma {:induction false} ActionsRefusals(g: SpendGrant, i: nat, p: NearPromise, k: nat, v: Violation)
    requires k <= |p.actions|
    ensures v in FragmentViolations(g, ActionsFragment(i, p, k))
       <==> exists j :: 0 <= j < k && ActionRefusal(g, i, p, j, v)
  {
    hide FragmentViolations, ActionFragment, ActionRefusal, Join;
    if k == 0 {
      NothingRefuses(g, v);
    } else {
      ActionsRefusals(g, i, p, k - 1, v);
      ActionRefusals(g, i, p, k - 1, v);
      FragmentViolationsJoin(g, ActionsFragment(i, p, k - 1), ActionFragment(i, p, k - 1), v);
    }
  }

  lemma HeadRefusals(g: SpendGrant, i: nat, p: NearPromise, v: Violation)
    ensures v in FragmentViolations(g, HeadFragment(i, p))
       <==> p.refundTo.Some? && v == AtShape(i, 1, RefundTargetNotAllowed)
  {
    hide FlatMap;
    FlatMapNone(FactRule());
    FlatMapOne(FactRule(), RefundToSet(i));
    FlatMapNone(UnknownRule());
    FlatMapNone(RegistrationRule());
    FlatMapNone(MoveRule(g));
    FlatMapNone(InitRule());
  }

  /** The refusals of promise `i`, its native charge included: `breached` says the running
      spend passes the budget here. */
  predicate PromiseRefusal(g: SpendGrant, own: Option<string>, i: nat, p: NearPromise, breached: bool, v: Violation) {
    || (p.refundTo.Some? && v == AtShape(i, 1, RefundTargetNotAllowed))
    || (exists k :: 0 <= k < |p.actions| && ActionRefusal(g, i, p, k, v))
    || (HasCall(p) && own == Some(p.receiver) && v == AtRung(i, 4, OwnCollectionRefused))
    || (!HasCall(p) && p.receiver !in g.receivers && v == AtRung(i, 2, ReceiverNotGranted))
    || (breached && v == AtRung(i, 4, GrantExhausted))
  }

  lemma PromiseFragmentRefusals(g: SpendGrant, i: nat, p: NearPromise, v: Violation)
    ensures v in FragmentViolations(g, PromiseFragment(i, p))
       <==> || (p.refundTo.Some? && v == AtShape(i, 1, RefundTargetNotAllowed))
            || (exists k :: 0 <= k < |p.actions| && ActionRefusal(g, i, p, k, v))
  {
    hide FragmentViolations, ActionRefusal, Join, HeadFragment, ActionsFragment;
    HeadRefusals(g, i, p, v);
    ActionsRefusals(g, i, p, |p.actions|, v);
    FragmentViolationsJoin(g, HeadFragment(i, p), ActionsFragment(i, p, |p.actions|), v);
  }

  lemma {:induction false} PromisesRefusals(g: SpendGrant, ps: seq<NearPromise>, n: nat, v: Violation)
    requires n <= |ps|
    ensures v in FragmentViolations(g, PromisesFragment(ps, n))
       <==> exists i :: 0 <= i < n && v in FragmentViolations(g, PromiseFragment(i, ps[i]))
  {
    hide FragmentViolations, Join, PromiseFragment;
    if n == 0 {
      NothingRefuses(g, v);
    } else {
      PromisesRefusals(g, ps, n - 1, v);
      FragmentViolationsJoin(g, PromisesFragment(ps, n - 1), PromiseFragment(n - 1, ps[n - 1]), v);
    }
  }

  lemma {:induction false} ReceiverRefusals(g: SpendGrant, receivers: seq<string>, calls: seq<nat>, n: nat, v: Violation)
    requires n <= |receivers|
    ensures v in ReceiverViolations(g, receivers, calls, n)
       <==> exists i :: 0 <= i < n && i !in calls && receivers[i] !in g.receivers && v == AtRung(i, 2, ReceiverNotGranted)
  {
    if n > 0 {
      ReceiverRefusals(g, receivers, calls, n - 1, v);
    }
  }

  lemma OwnRefusals(fx: EffectsSet, own: string, v: Violation)
    ensures v in OwnCollectionOf(fx, own)
       <==> exists i :: i in fx.callPromises && i < |fx.receivers| && fx.receivers[i] == own
                        && v == AtRung(i, 4, OwnCollectionRefused)
  {
    FlatMapMember(OwnCollectionRule(fx.receivers, own), fx.callPromises, v);
  }

  // ---------------------------------------------------------------------------
  // One promise: the ladder of refusals against the charging step
  // ---------------------------------------------------------------------------

  /** The rung a class sits at on the ladder of a promise with a call, and of one without. */
  function RungOf(call: bool, why: Class): nat {
    match why.subcode
    case Some(sub) =>
      (match sub
       case RefundTargetNotAllowed => 1
       case CallMustStandAlone => 2
       case CallDeposit => 3
       case ActionNotAllowed => 3
       case MethodNotAllowed => 5
       case ArgsUnreadable => 6
       case ApprovalNotAllowed => 7)
    case None =>
      match why.rule
      case OwnCollectionRefused => 4
      case GrantExhausted => 4
      case ReceiverNotGranted => if call then 8 else 2
      case TokenNotGranted => 9
      case CollectionNotGranted => 9
      case _ => 10
  }

  /** `v` is a refusal of promise `i` that the pass would not reach before `why`. */
  predicate NotAhead(i: nat, call: bool, why: Class, v: Violation) {
    && v.promiseIndex == Some(i)
    && v.stage.Promise?
    && (RungOf(call, why) < v.stage.rung || (RungOf(call, why) == v.stage.rung && v.class_ == why))
  }

  function Leading(i: nat, call: bool, why: Class): Violation {
    Violation(Some(i), Promise(RungOf(call, why)), why)
  }

  predicate SiteRefusal(g: SpendGrant, own: Option<string>, c: CallSite, v: Violation) {
    CallRefusal(g, c, v) || (own == Some(c.receiver) && v == AtRung(c.i, 4, OwnCollectionRefused))
  }

  predicate SiteFor(c: CallSite, fc: FunctionCall) {
    c.alone && c.methodName == fc.methodName && c.deposit == ParseOr(fc.deposit, 0) && c.effect == Classify(fc)
  }

  lemma UndecodedReadsAsNothing(args: CallArgs)
    requires args.NotBase64?
    ensures ReadFt(args) == None && ReadNft(args) == None
  {
  }

  /** What the pass trips on leads the refusals of the call; it passes when there are none. */
  ghost predicate Leads(g: SpendGrant, own: Option<string>, c: CallSite, tripped: Option<Class>) {
    match tripped
    case None => forall v :: !SiteRefusal(g, own, c, v)
    case Some(why) =>
      && SiteRefusal(g, own, c, Leading(c.i, true, why))
      && forall v :: SiteRefusal(g, own, c, v) ==> NotAhead(c.i, true, why, v)
  }

  lemma FungibleEffect(fc: FunctionCall)
    requires fc.methodName == "ft_transfer"
    ensures
      var args := ReadFt(fc.args);
      if args.None? || ParseU128(args.value.amount).None? then Classify(fc).Unstatable?
      else Classify(fc) == Moves(args.value.receiver, Fungible(ParseU128(args.value.amount).value), false,
                                 UnknownFields(fc.args, FT_FIELDS))
  {
    hide ParseU128;
    if fc.args.NotBase64? {
      UndecodedReadsAsNothing(fc.args);
    }
  }

  lemma ItemEffect(fc: FunctionCall)
    requires fc.methodName == "nft_transfer"
    ensures
      var args := ReadNft(fc.args);
      if args.None? then Classify(fc).Unstatable?
      else Classify(fc) == Moves(args.value.receiver, Item(args.value.tokenId), args.value.approvalSet,
                                 UnknownFields(fc.args, NFT_FIELDS))
  {
    if fc.args.NotBase64? {
      UndecodedReadsAsNothing(fc.args);
    }
  }

  lemma FungibleLadder(g: SpendGrant, own: Option<string>, c: CallSite, fc: FunctionCall)
    requires SiteFor(c, fc) && fc.methodName == "ft_transfer" && c.deposit == 1 && own != Some(c.receiver)
    ensures Leads(g, own, c, ChargeFungible(g, c.receiver, fc.args))
  {
    hide ReadFt, UnknownFields, ParseU128, TokenRemaining, Classify;
    FungibleEffect(fc);
  }

  lemma ItemLadder(g: SpendGrant, own: Option<string>, c: CallSite, fc: FunctionCall)
    requires SiteFor(c, fc) && fc.methodName == "nft_transfer" && c.deposit == 1 && own != Some(c.receiver)
    ensures Leads(g, own, c, ChargeItem(g, c.receiver, fc.args))
  {
    hide ReadNft, UnknownFields, ParseU128, Classify;
    ItemEffect(fc);
  }

  /** A call standing alone: what the pass trips on is refused, and nothing refused at this
      promise sits ahead of it. */
  lemma CallLadder(g: SpendGrant, own: Option<string>, c: CallSite, fc: FunctionCall)
    requires SiteFor(c, fc)
    ensures
      match ChargeTokenCall(g, own, c.receiver, fc)
      case None => forall v :: !SiteRefusal(g, own, c, v)
      case Some(why) =>
        && SiteRefusal(g, own, c, Leading(c.i, true, why))
        && forall v :: SiteRefusal(g, own, c, v) ==> NotAhead(c.i, true, why, v)
  {
    hide ReadFt, ReadNft, ReadStorage, UnknownFields, ParseU128, TokenRemaining, ChargeFungible, ChargeItem;
    if c.deposit == 1 && own != Some(c.receiver) {
      if fc.methodName == "ft_transfer" {
        FungibleLadder(g, own, c, fc);
      } else if fc.methodName == "nft_transfer" {
        ItemLadder(g, own, c, fc);
      }
    }
  }

  /** A promise without a call. */
  lemma TransferLadder(g: SpendGrant, own: Option<string>, i: nat, p: NearPromise, left: nat, breached: bool)
    requires !HasCall(p) && p.refundTo.None?
    requires breached <==> PromiseNative(p) > left
    ensures
      match ChargeTransfer(g, left, p)
      case Charged(rest) =>
        && rest == left - PromiseNative(p)
        && forall v :: !PromiseRefusal(g, own, i, p, breached, v)
      case Tripped(why) =>
        && PromiseRefusal(g, own, i, p, breached, Leading(i, false, why))
        && forall v :: PromiseRefusal(g, own, i, p, breached, v) ==> NotAhead(i, false, why, v)
  {
    hide PromiseNative, CallRefusal, SiteOf;
    var acts := exists k :: 0 <= k < |p.actions| && !p.actions[k].Transfer?;
    if p.receiver in g.receivers && acts {
      var k :| 0 <= k < |p.actions| && !p.actions[k].Transfer?;
      assert ActionRefusal(g, i, p, k, Leading(i, false, Shape(ActionNotAllowed)));
    }
  }

  /** No action refuses ahead of rung 2, and at rung 2 only a call that shares its promise. */
  lemma ActionRungs(g: SpendGrant, i: nat, p: NearPromise, k: nat, v: Violation)
    requires k < |p.actions| && ActionRefusal(g, i, p, k, v)
    ensures v.promiseIndex == Some(i) && v.stage.Promise? && 2 <= v.stage.rung <= 10
    ensures v.class_ != Plain(GrantExhausted)
    ensures v.stage.rung == 2 ==> v.class_ == Shape(CallMustStandAlone)
  {
    hide NativeOf, Classify, TokenRemaining;
  }

  /** A promise whose call shares it with something else. */
  lemma BundledLadder(g: SpendGrant, own: Option<string>, i: nat, p: NearPromise)
    requires HasCall(p) && |p.actions| != 1 && p.refundTo.None?
    ensures PromiseRefusal(g, own, i, p, false, Leading(i, true, Shape(CallMustStandAlone)))
    ensures forall v :: PromiseRefusal(g, own, i, p, false, v) ==> NotAhead(i, true, Shape(CallMustStandAlone), v)
  {
    hide NativeOf, Classify, MoveViolations;
    var k :| 0 <= k < |p.actions| && p.actions[k].Call?;
    assert ActionRefusal(g, i, p, k, Leading(i, true, Shape(CallMustStandAlone)));
    hide ActionRefusal;
    forall v | PromiseRefusal(g, own, i, p, false, v)
      ensures NotAhead(i, true, Shape(CallMustStandAlone), v)
    {
      if j :| 0 <= j < |p.actions| && ActionRefusal(g, i, p, j, v) {
        ActionRungs(g, i, p, j, v);
      }
    }
  }

  /** A promise that redirects its refunds. */
  lemma RefundLadder(g: SpendGrant, own: Option<string>, i: nat, p: NearPromise, breached: bool)
    requires p.refundTo.Some?
    ensures PromiseRefusal(g, own, i, p, breached, Leading(i, HasCall(p), Shape(RefundTargetNotAllowed)))
    ensures forall v :: PromiseRefusal(g, own, i, p, breached, v)
              ==> NotAhead(i, HasCall(p), Shape(RefundTargetNotAllowed), v)
  {
    hide ActionRefusal;
    forall v | PromiseRefusal(g, own, i, p, breached, v)
      ensures NotAhead(i, HasCall(p), Shape(RefundTargetNotAllowed), v)
    {
      if j :| 0 <= j < |p.actions| && ActionRefusal(g, i, p, j, v) {
        ActionRungs(g, i, p, j, v);
      }
    }
  }

  /** A promise whose call stands alone. */
  lemma StandaloneLadder(g: SpendGrant, own: Option<string>, i: nat, p: NearPromise)
    requires HasCall(p) && |p.actions| == 1 && p.refundTo.None?
    ensures
      match ChargeTokenCall(g, own, p.receiver, p.actions[0].fc)
      case None => forall v :: !PromiseRefusal(g, own, i, p, false, v)
      case Some(why) =>
        && PromiseRefusal(g, own, i, p, false, Leading(i, true, why))
        && forall v :: PromiseRefusal(g, own, i, p, false, v) ==> NotAhead(i, true, why, v)
  {
    hide ChargeTokenCall, CallRefusal, Classify, ParseU128, NotAhead, Leading;
    var c := SiteOf(i, p, 0);
    CallLadder(g, own, c, p.actions[0].fc);
    forall v
      ensures PromiseRefusal(g, own, i, p, false, v) <==> SiteRefusal(g, own, c, v)
    {
      assert ActionRefusal(g, i, p, 0, v) <==> CallRefusal(g, c, v);
    }
  }

  /** Charging one promise trips on the class its leading refusal carries, and charges it
      exactly when nothing about it is refused. */
  lemma PromiseLadder(g: SpendGrant, own: Option<string>, i: nat, p: NearPromise, left: nat, breached: bool)
    requires breached <==> !HasCall(p) && PromiseNative(p) > left
    ensures
      match ChargePromise(g, own, left, p)
      case Charged(rest) =>
        && rest == (if HasCall(p) then left else left - PromiseNative(p))
        && forall v :: !PromiseRefusal(g, own, i, p, breached, v)
      case Tripped(why) =>
        && PromiseRefusal(g, own, i, p, breached, Leading(i, HasCall(p), why))
        && forall v :: PromiseRefusal(g, own, i, p, breached, v) ==> NotAhead(i, HasCall(p), why, v)
  {
    hide PromiseNative, ChargeTokenCall, ChargeTransfer, PromiseRefusal, NotAhead;
    if p.refundTo.Some? {
      RefundLadder(g, own, i, p, breached);
    } else if !HasCall(p) {
      TransferLadder(g, own, i, p, left, breached);
    } else if |p.actions| != 1 {
      BundledLadder(g, own, i, p);
    } else {
      StandaloneLadder(g, own, i, p);
    }
  }

  // ---------------------------------------------------------------------------
  // All promises: the collected list against the pass
  // ---------------------------------------------------------------------------

  /** The budget breach is a single refusal at rung 4 of a promise not before `from`. */
  lemma {:induction false} BreachShape(native: seq<u128>, calls: seq<nat>, remaining: u128, running: u128, from: nat)
    requires from <= |native|
    ensures
      var breach := BudgetBreach(native, calls, remaining, running, from);
      breach == [] || exists i :: from <= i < |native| && i !in calls && breach == [AtRung(i, 4, GrantExhausted)]
    decreases |native| - from
  {
    hide SatAdd;
    if from < |native| && (from in calls || SatAdd(running, native[from]) <= remaining) {
      BreachShape(native, calls, remaining, if from in calls then running else SatAdd(running, native[from]), from + 1);
    }
  }

  /** What one request's collected refusals are about, read off the request. `breach` is the
      promise at which the running native spend first passes the budget. */
  predicate RequestRefusal(g: SpendGrant, own: Option<string>, ps: seq<NearPromise>, breach: seq<Violation>, v: Violation) {
    exists i :: 0 <= i < |ps| && PromiseRefusal(g, own, i, ps[i], AtRung(i, 4, GrantExhausted) in breach, v)
  }

  function BreachOf(g: SpendGrant, req: Request, size: nat): seq<Violation> {
    var fx := EffectsOf(req, size);
    BudgetBreach(fx.nativePerPromise, fx.callPromises, Remaining(g), 0, 0)
  }

  function Collected(g: SpendGrant, own: Option<string>, fx: EffectsSet): seq<Violation> {
    GrantedViolations(fx, g) + (if own.Some? then OwnCollectionOf(fx, own.value) else [])
  }

  /** Every collected refusal is about one promise, and every refusal about a promise is collected. */
  lemma CollectedExactly(g: SpendGrant, own: Option<string>, req: Request, size: nat, v: Violation)
    ensures v in Collected(g, own, EffectsOf(req, size))
       <==> RequestRefusal(g, own, req.external, BreachOf(g, req, size), v)
  {
    hide FlatMap, ActionRefusal, BudgetBreach, ReceiverViolations, PromisesFragment, PromiseFragment, HasCall;
    var ps, n := req.external, |req.external|;
    var fx := EffectsOf(req, size);
    var breach := BreachOf(g, req, size);
    PromisesRefusals(g, ps, n, v);
    forall i | 0 <= i < n
      ensures i in fx.callPromises <==> HasCall(ps[i])
      ensures v in FragmentViolations(g, PromiseFragment(i, ps[i]))
         <==> || (ps[i].refundTo.Some? && v == AtShape(i, 1, RefundTargetNotAllowed))
              || (exists k :: 0 <= k < |ps[i].actions| && ActionRefusal(g, i, ps[i], k, v))
    {
      CallPromisesAre(ps, n, i);
      PromiseFragmentRefusals(g, i, ps[i], v);
    }
    ReceiverRefusals(g, fx.receivers, fx.callPromises, n, v);
    if own.Some? {
      OwnRefusals(fx, own.value, v);
    }
    BreachShape(fx.nativePerPromise, fx.callPromises, Remaining(g), 0, 0);
    Regroup(g, own, fx, PromisesFragment(ps, n), breach, v);
  }

  /** Membership in the collected list, category by category. */
  lemma Regroup(g: SpendGrant, own: Option<string>, fx: EffectsSet, f: Fragment, breach: seq<Violation>, v: Violation)
    requires fx.shapeFacts == f.facts && fx.unknownFundMoving == f.unknowns
    requires fx.storageRegistrations == f.registrations && fx.stateInits == f.inits && fx.tokenMoves == f.moves
    requires breach == BudgetBreach(fx.nativePerPromise, fx.callPromises, Remaining(g), 0, 0)
    ensures v in Collected(g, own, fx) <==>
      || v in FragmentViolations(g, f)
      || v in breach
      || v in ReceiverViolations(g, fx.receivers, fx.callPromises, |fx.receivers|)
      || (own.Some? && v in OwnCollectionOf(fx, own.value))
  {
  }

  lemma RefusalPlace(g: SpendGrant, own: Option<string>, i: nat, p: NearPromise, breached: bool, v: Violation)
    requires PromiseRefusal(g, own, i, p, breached, v)
    ensures v.promiseIndex == Some(i) && v.stage.Promise? && v.stage.rung <= 10
    ensures v.class_ == Plain(GrantExhausted) ==> breached
  {
    hide ActionRefusal;
    if k :| 0 <= k < |p.actions| && ActionRefusal(g, i, p, k, v) {
      ActionRungs(g, i, p, k, v);
    }
  }

  /** The native meter of the pass can be kept without a ceiling: either it cannot reach the
      largest amount, or no promise without a call ever gets as far as being metered. */
  predicate MeterIsExact(g: SpendGrant) {
    Remaining(g) < U128_MAX || g.receivers == []
  }

  predicate StopsAtBudget(outcome: Outcome) {
    outcome.Refused? && outcome.why == Plain(GrantExhausted)
  }

  predicate Ahead(i: nat, call: bool, why: Class, v: Violation) {
    v.promiseIndex.Some? && v.stage.Promise? && (i < v.promiseIndex.value || NotAhead(i, call, why, v))
  }

  /** Whether promise `i` is the one the collected budget refusal names. */
  lemma BreachAt(g: SpendGrant, req: Request, size: nat, i: nat, left: nat, running: u128)
    requires i < |req.external|
    requires running + left == Remaining(g)
    requires BreachOf(g, req, size)
          == BudgetBreach(EffectsOf(req, size).nativePerPromise, EffectsOf(req, size).callPromises, Remaining(g), running, i)
    ensures
      var p := req.external[i];
      var fx := EffectsOf(req, size);
      var breach := BreachOf(g, req, size);
      var breached := AtRung(i, 4, GrantExhausted) in breach;
      var meter := if HasCall(p) then running else running + PromiseNative(p);
      && (HasCall(p) ==> !breached)
      && (Remaining(g) < U128_MAX && !HasCall(p) ==> (breached <==> PromiseNative(p) > left))
      && (Remaining(g) == U128_MAX ==> !breached)
      && (HasCall(p) || PromiseNative(p) <= left ==>
            breach == BudgetBreach(fx.nativePerPromise, fx.callPromises, Remaining(g), meter, i + 1))
  {
    hide PromiseNative, HasCall, Remaining, PromisesFragment;
    var fx := EffectsOf(req, size);
    CallPromisesAre(req.external, |req.external|, i);
    BreachShape(fx.nativePerPromise, fx.callPromises, Remaining(g), running, i + 1);
    BreachShape(fx.nativePerPromise, fx.callPromises, Remaining(g), SatAdd(running, fx.nativePerPromise[i]), i + 1);
  }

  /** From promise `i` on, with nothing refused before it: the pass accepts exactly when
      nothing is refused, and otherwise trips on the leading refusal. */
  lemma {:induction false} PassAgrees(g: SpendGrant, own: Option<string>, req: Request, size: nat, i: nat, left: nat,
                                      running: u128)
    requires i <= |req.external|
    requires running + left == Remaining(g)
    requires MeterIsExact(g) || !StopsAtBudget(ChargeFrom(g, own, req.external, i, left))
    requires BreachOf(g, req, size)
          == BudgetBreach(EffectsOf(req, size).nativePerPromise, EffectsOf(req, size).callPromises, Remaining(g), running, i)
    requires forall j, v :: 0 <= j < i ==>
      !PromiseRefusal(g, own, j, req.external[j], AtRung(j, 4, GrantExhausted) in BreachOf(g, req, size), v)
    ensures
      var ps := req.external;
      var breach := BreachOf(g, req, size);
      match ChargeFrom(g, own, ps, i, left)
      case Accepted => forall v :: !RequestRefusal(g, own, ps, breach, v)
      case Refused(at, why) =>
        && at.Some? && at.value < |ps|
        && RequestRefusal(g, own, ps, breach, Leading(at.value, HasCall(ps[at.value]), why))
        && forall v :: RequestRefusal(g, own, ps, breach, v) ==> Ahead(at.value, HasCall(ps[at.value]), why, v)
    decreases |req.external| - i
  {
    hide PromiseRefusal, ChargePromise, BudgetBreach, BreachOf, NotAhead, Remaining, PromiseNative, EffectsOf, HasCall;
    if i < |req.external| {
      var p := req.external[i];
      var breach := BreachOf(g, req, size);
      var breached := AtRung(i, 4, GrantExhausted) in breach;
      BreachAt(g, req, size, i, left, running);
      StepAgrees(g, own, i, p, left, breached);
      match ChargePromise(g, own, left, p) {
        case Charged(rest) =>
          PassAgrees(g, own, req, size, i + 1, rest, Remaining(g) - rest);
        case Tripped(why) =>
          assert RequestRefusal(g, own, req.external, breach, Leading(i, HasCall(p), why));
          forall v | RequestRefusal(g, own, req.external, breach, v)
            ensures Ahead(i, HasCall(p), why, v)
          {
            var j :| 0 <= j < |req.external|
                  && PromiseRefusal(g, own, j, req.external[j], AtRung(j, 4, GrantExhausted) in breach, v);
            RefusalPlace(g, own, j, req.external[j], AtRung(j, 4, GrantExhausted) in breach, v);
          }
      }
    }
  }

  /** `PromiseLadder` under a grant whose meter is exact, or where the meter is not what trips. */
  lemma StepAgrees(g: SpendGrant, own: Option<string>, i: nat, p: NearPromise, left: nat, breached: bool)
    requires MeterIsExact(g) || ChargePromise(g, own, left, p) != Tripped(Plain(GrantExhausted))
    requires HasCall(p) ==> !breached
    requires Remaining(g) < U128_MAX && !HasCall(p) ==> (breached <==> PromiseNative(p) > left)
    requires Remaining(g) == U128_MAX ==> !breached
    ensures
      match ChargePromise(g, own, left, p)
      case Charged(rest) =>
        && rest == (if HasCall(p) then left else left - PromiseNative(p))
        && forall v :: !PromiseRefusal(g, own, i, p, breached, v)
      case Tripped(why) =>
        && PromiseRefusal(g, own, i, p, breached, Leading(i, HasCall(p), why))
        && forall v :: PromiseRefusal(g, own, i, p, breached, v) ==> NotAhead(i, HasCall(p), why, v)
  {
    hide PromiseRefusal, NotAhead, HasCall, Remaining, ChargeTokenCall, PromiseNative;
    if Remaining(g) < U128_MAX || HasCall(p) {
      PromiseLadder(g, own, i, p, left, breached);
    } else {
      // Whatever the meter says of this promise, it is not what decides.
      PromiseLadder(g, own, i, p, PromiseNative(p), breached);
    }
  }

  // ---------------------------------------------------------------------------
  // The whole verdict
  // ---------------------------------------------------------------------------

  /** The verdict as the pre-flight assembles it from one status, one balance and one
      own-collection id. */
  function Preflight(status: AgentStatusView, nowNs: u64, own: Option<string>, balance: Option<u128>, fx: EffectsSet)
    : seq<Violation>
  {
    var reserve := if balance.Some? then CheckReserve(fx, status, balance.value) else None;
    VerdictOf(HosLease, fx, AdmissionFor(HosLease, fx, LeaseState(status), nowNs), own, reserve)
  }

  /** The first violation reported is the one the pass stopped at; none is reported exactly
      when the pass accepted. */
  predicate Reports(verdict: seq<Violation>, outcome: Outcome) {
    match outcome
    case Accepted => verdict == []
    case Refused(at, why) => verdict != [] && verdict[0].promiseIndex == at && verdict[0].class_ == why
  }

  predicate Agrees(status: AgentStatusView, nowNs: u64, own: Option<string>, balance: Option<u128>, req: Request, size: nat) {
    Reports(Preflight(status, nowNs, own, balance, EffectsOf(req, size)), ChargeRequest(status, nowNs, own, balance, req))
  }

  /** What the sorted list starts with, given a leading refusal in it. */
  lemma LeadingIsFirst(all: seq<Violation>, at: nat, call: bool, why: Class)
    requires at < ISIZE_MAX && RungOf(call, why) <= 10
    requires Leading(at, call, why) in all
    requires forall v :: v in all ==> Ahead(at, call, why, v) || v.stage.Reserve?
    ensures StableSort(all) != []
    ensures StableSort(all)[0].promiseIndex == Some(at) && StableSort(all)[0].class_ == why
  {
    FirstReported(all);
    var first := StableSort(all)[0];
    assert !KeyLess(OrderKey(Leading(at, call, why)), OrderKey(first));
  }

  /** Behind an open door the verdict is the sorted list of everything collected. */
  lemma OpenDoorVerdict(status: AgentStatusView, nowNs: u64, own: Option<string>, balance: Option<u128>, req: Request,
                        size: nat)
    requires DoorRefusal(status, nowNs).None?
    ensures
      var g := ReadGrant(status.grant.value).value;
      var fx := EffectsOf(req, size);
      var reserve := if balance.Some? then CheckReserve(fx, status, balance.value) else None;
      Preflight(status, nowNs, own, balance, fx)
      == StableSort(Assembled(HosLease, fx, GrantedViolations(fx, g), own, reserve))
  {
    hide EffectsOf, GrantedViolations, ReadGrant, OwnCollectionOf, Assembled, CheckReserve, StableSort;
    AllAre(ReadGrant(status.grant.value).value, own, req, size, None);
  }

  lemma SomeMember(vs: seq<Violation>) returns (v: Violation)
    requires vs != []
    ensures v in vs
  {
    v := vs[0];
  }

  lemma WithoutMembers(vs: seq<Violation>)
    requires forall v :: v !in vs
    ensures vs == []
  {
    if vs != [] {
      var v := SomeMember(vs);
      assert false;
    }
  }

  /** What the pass charged before it stopped nobody refuses, the native meter apart. */
  lemma {:induction false} ChargedIsUnrefused(g: SpendGrant, own: Option<string>, ps: seq<NearPromise>, i: nat, left: nat,
                                              j: nat, v: Violation)
    requires i <= j < |ps|
    requires ChargeFrom(g, own, ps, i, left).Refused? ==>
      ChargeFrom(g, own, ps, i, left).at.Some? && j < ChargeFrom(g, own, ps, i, left).at.value
    ensures !PromiseRefusal(g, own, j, ps[j], false, v)
    decreases j - i
  {
    hide ChargePromise, PromiseRefusal, PromiseNative, HasCall;
    match ChargePromise(g, own, left, ps[i]) {
      case Charged(rest) =>
        if i < j {
          ChargedIsUnrefused(g, own, ps, i + 1, rest, j, v);
        } else {
          ChargedFits(g, own, left, ps[i]);
          PromiseLadder(g, own, i, ps[i], left, false);
        }
    }
  }

  lemma ChargedFits(g: SpendGrant, own: Option<string>, left: nat, p: NearPromise)
    requires ChargePromise(g, own, left, p).Charged?
    ensures HasCall(p) || PromiseNative(p) <= left
  {
    hide PromiseNative, HasCall, ChargeTokenCall;
  }

  /** Sorting the collected list against the pass, the floor included. */
  lemma SortedAgrees(g: SpendGrant, own: Option<string>, req: Request, size: nat, reserve: Option<Violation>)
    requires |req.external| <= ISIZE_MAX
    requires MeterIsExact(g) || !StopsAtBudget(ChargeFrom(g, own, req.external, 0, Remaining(g)))
    requires reserve.Some? ==> reserve.value == Violation(None, Reserve, Plain(InsufficientVsReserve))
    ensures
      var fx := EffectsOf(req, size);
      var verdict := StableSort(Assembled(HosLease, fx, GrantedViolations(fx, g), own, reserve));
      match ChargeFrom(g, own, req.external, 0, Remaining(g))
      case Refused(at, why) => verdict != [] && verdict[0].promiseIndex == at && verdict[0].class_ == why
      case Accepted => if reserve.Some? then verdict != [] && verdict[0] == reserve.value else verdict == []
  {
    hide EffectsOf, RequestRefusal, Remaining, GrantedViolations, BreachOf, ChargeFrom, Assembled, HasCall, RungOf;
    var all := Assembled(HosLease, EffectsOf(req, size), GrantedViolations(EffectsOf(req, size), g), own, reserve);
    AllAre(g, own, req, size, reserve);
    PassFromStart(g, own, req, size);
    match ChargeFrom(g, own, req.external, 0, Remaining(g)) {
      case Refused(at, why) =>
        LeadingIsFirst(all, at.value, HasCall(req.external[at.value]), why);
      case Accepted =>
        if reserve.Some? {
          assert reserve.value in all;
          FirstReported(all);
        } else {
          WithoutMembers(all);
        }
    }
  }

  lemma OpenDoorAgrees(status: AgentStatusView, nowNs: u64, own: Option<string>, balance: Option<u128>, req: Request,
                       size: nat)
    requires |req.external| <= ISIZE_MAX
    requires DoorRefusal(status, nowNs).None?
    requires
      var g := ReadGrant(status.grant.value).value;
      MeterIsExact(g) || !StopsAtBudget(ChargeFrom(g, own, req.external, 0, Remaining(g)))
    ensures Agrees(status, nowNs, own, balance, req, size)
  {
    hide EffectsOf, Remaining, GrantedViolations, ReadGrant, ChargeFrom, Assembled, StableSort, Preflight,
         MeterIsExact;
    var g := ReadGrant(status.grant.value).value;
    var reserve := if balance.Some? then CheckReserve(EffectsOf(req, size), status, balance.value) else None;
    OpenDoorVerdict(status, nowNs, own, balance, req, size);
    SortedAgrees(g, own, req, size, reserve);
    if balance.Some? {
      ReserveIsExact(req, size, status, balance.value);
    }
  }

  /** Who is in the assembled list. */
  lemma AllAre(g: SpendGrant, own: Option<string>, req: Request, size: nat, reserve: Option<Violation>)
    ensures
      var all := Assembled(HosLease, EffectsOf(req, size), GrantedViolations(EffectsOf(req, size), g), own, reserve);
      forall v :: v in all <==>
        RequestRefusal(g, own, req.external, BreachOf(g, req, size), v) || (reserve.Some? && v == reserve.value)
    ensures forall v :: v in GrantedViolations(EffectsOf(req, size), g) ==> v.stage.Promise?
  {
    hide EffectsOf, GrantedViolations, OwnCollectionOf, BreachOf, PromiseRefusal;
    var fx := EffectsOf(req, size);
    forall v
      ensures v in Collected(g, own, fx) <==> RequestRefusal(g, own, req.external, BreachOf(g, req, size), v)
      ensures v in GrantedViolations(fx, g) ==> v.stage.Promise?
    {
      CollectedExactly(g, own, req, size, v);
      var breach := BreachOf(g, req, size);
      if RequestRefusal(g, own, req.external, breach, v) {
        var i :| 0 <= i < |req.external|
              && PromiseRefusal(g, own, i, req.external[i], AtRung(i, 4, GrantExhausted) in breach, v);
        RefusalPlace(g, own, i, req.external[i], AtRung(i, 4, GrantExhausted) in breach, v);
      }
    }
  }

  lemma PassFromStart(g: SpendGrant, own: Option<string>, req: Request, size: nat)
    requires MeterIsExact(g) || !StopsAtBudget(ChargeFrom(g, own, req.external, 0, Remaining(g)))
    ensures
      var ps := req.external;
      var breach := BreachOf(g, req, size);
      match ChargeFrom(g, own, ps, 0, Remaining(g))
      case Accepted => forall v :: !RequestRefusal(g, own, ps, breach, v)
      case Refused(at, why) =>
        && at.Some? && at.value < |ps| && RungOf(HasCall(ps[at.value]), why) <= 10
        && RequestRefusal(g, own, ps, breach, Leading(at.value, HasCall(ps[at.value]), why))
        && forall v :: RequestRefusal(g, own, ps, breach, v) ==> Ahead(at.value, HasCall(ps[at.value]), why, v)
  {
    hide PromiseRefusal, ChargePromise, BudgetBreach, NotAhead, Remaining, HasCall, EffectsOf, RungOf, ChargeFrom,
         RequestRefusal;
    PassAgrees(g, own, req, size, 0, Remaining(g), 0);
    forall call, why
      ensures RungOf(call, why) <= 10
    {
      RungBound(call, why);
    }
  }

  lemma RungBound(call: bool, why: Class)
    ensures RungOf(call, why) <= 10
  {
  }

  /** A refused door is the whole answer on both sides. */
  lemma ClosedDoorAgrees(status: AgentStatusView, nowNs: u64, own: Option<string>, balance: Option<u128>, req: Request,
                         size: nat)
    requires DoorRefusal(status, nowNs).Some?
    ensures Agrees(status, nowNs, own, balance, req, size)
    ensures |Preflight(status, nowNs, own, balance, EffectsOf(req, size))| == 1
  {
    hide EffectsOf, ReadGrant;
  }

  // ---------------------------------------------------------------------------
  // The exact condition
  // ---------------------------------------------------------------------------

  /** The largest amount and then one yocto more, to the same receiver. */
  function OverTheTop(receiver: string): Request {
    Request([], [Pays(receiver, U128_MAX), Pays(receiver, 1)])
  }

  lemma OverTheTopReads(receiver: string)
    ensures RequestReadable(OverTheTop(receiver)) && |OverTheTop(receiver).external| == 2
    ensures forall p :: p in OverTheTop(receiver).external ==> !HasCall(p)
  {
    hide ToDecimal, ParseU128;
    DecimalRoundTrip(U128_MAX);
    DecimalRoundTrip(1);
  }

  /** With the largest amount left, the pass trips on the second promise of `OverTheTop`. */
  lemma PassTripsOverTheTop(g: SpendGrant, own: Option<string>)
    requires !MeterIsExact(g)
    ensures ChargeFrom(g, own, OverTheTop(g.receivers[0]).external, 0, Remaining(g))
         == Refused(Some(1), Plain(GrantExhausted))
  {
    hide ToDecimal, PromiseNative, HasCall, Remaining;
    var ps := OverTheTop(g.receivers[0]).external;
    PaysExactly(g.receivers[0], U128_MAX);
    PaysExactly(g.receivers[0], 1);
    assert ChargePromise(g, own, Remaining(g), ps[0]) == Charged(0);
    assert ChargePromise(g, own, 0, ps[1]) == Tripped(Plain(GrantExhausted));
    assert ChargeFrom(g, own, ps, 1, 0) == Refused(Some(1), Plain(GrantExhausted));
  }

  lemma {:induction false} NoBreachAtTheTop(native: seq<u128>, calls: seq<nat>, running: u128, from: nat)
    requires from <= |native|
    ensures BudgetBreach(native, calls, U128_MAX, running, from) == []
    decreases |native| - from
  {
    hide SatAdd;
    if from < |native| {
      NoBreachAtTheTop(native, calls, if from in calls then running else SatAdd(running, native[from]), from + 1);
    }
  }

  predicate Metered(status: AgentStatusView, nowNs: u64) {
    DoorRefusal(status, nowNs).Some? || MeterIsExact(ReadGrant(status.grant.value).value)
  }

  /** The native meter decides nothing it could get wrong: it is exact, or the pass does not
      stop at it. */
  predicate MeterSuffices(status: AgentStatusView, nowNs: u64, own: Option<string>, balance: Option<u128>, req: Request) {
    Metered(status, nowNs) || !StopsAtBudget(ChargeRequest(status, nowNs, own, balance, req))
  }

  /** The verdict's first violation is what the charging pass stops at. */
  lemma VerdictIsTheChargingPass(status: AgentStatusView, nowNs: u64, own: Option<string>, balance: Option<u128>,
                                 req: Request, size: nat)
    requires MeterSuffices(status, nowNs, own, balance, req) && |req.external| <= ISIZE_MAX
    ensures Agrees(status, nowNs, own, balance, req, size)
  {
    hide Agrees, ReadGrant, MeterIsExact, ChargeFrom;
    if DoorRefusal(status, nowNs).Some? {
      ClosedDoorAgrees(status, nowNs, own, balance, req, size);
    } else {
      OpenDoorAgrees(status, nowNs, own, balance, req, size);
    }
  }

  /** With an inexact meter no verdict names the native budget. */
  lemma NothingExhausted(status: AgentStatusView, nowNs: u64, own: Option<string>, balance: Option<u128>, req: Request,
                         size: nat)
    requires !Metered(status, nowNs)
    ensures
      var g := ReadGrant(status.grant.value).value;
      var verdict := Preflight(status, nowNs, own, balance, EffectsOf(req, size));
      verdict != [] ==>
        && verdict[0].class_ != Plain(GrantExhausted)
        && (verdict[0].promiseIndex.Some? ==>
              && verdict[0].promiseIndex.value < |req.external|
              && PromiseRefusal(g, own, verdict[0].promiseIndex.value, req.external[verdict[0].promiseIndex.value], false,
                                verdict[0]))
  {
    hide ReadGrant, Remaining, EffectsOf, GrantedViolations, Assembled, Preflight, PromiseRefusal, BudgetBreach;
    var g := ReadGrant(status.grant.value).value;
    var fx := EffectsOf(req, size);
    var reserve := if balance.Some? then CheckReserve(fx, status, balance.value) else None;
    var all := Assembled(HosLease, fx, GrantedViolations(fx, g), own, reserve);
    OpenDoorVerdict(status, nowNs, own, balance, req, size);
    AllAre(g, own, req, size, reserve);
    NoBreachAtTheTop(fx.nativePerPromise, fx.callPromises, 0, 0);
    if StableSort(all) != [] {
      StableSortIsStable(all);
      var first := StableSort(all)[0];
      assert first in multiset(StableSort(all));
      assert BreachOf(g, req, size) == [];
      if RequestRefusal(g, own, req.external, [], first) {
        var i :| 0 <= i < |req.external| && PromiseRefusal(g, own, i, req.external[i], false, first);
        RefusalPlace(g, own, i, req.external[i], false, first);
      }
    }
  }

  /** For every request memory can hold: verdict and pass agree on it exactly when the native
      meter is exact or is not what the pass stops at. */
  lemma AgreesExactly(status: AgentStatusView, nowNs: u64, own: Option<string>, balance: Option<u128>, req: Request,
                      size: nat)
    requires |req.external| <= ISIZE_MAX
    ensures Agrees(status, nowNs, own, balance, req, size) <==> MeterSuffices(status, nowNs, own, balance, req)
  {
    hide Preflight, ReadGrant, ChargeRequest, Metered;
    if MeterSuffices(status, nowNs, own, balance, req) {
      VerdictIsTheChargingPass(status, nowNs, own, balance, req, size);
    } else {
      NothingExhausted(status, nowNs, own, balance, req, size);
    }
  }

  /** From evidence to verdict, in either mode: evidence that was admitted for a kind is of that
      kind; a plain account's request meets no refusal of the profile, a leased one's first
      refusal is what the pass stops at, if and only if the native meter suffices. */
  lemma AdmittedIsJudged(kind: BindingKind, observation: ChainObservation, nowNs: u64, own: Option<string>,
                         balance: Option<u128>, req: Request, size: nat)
    requires |req.external| <= ISIZE_MAX && Admit(kind, observation, nowNs).Ok?
    ensures
      var st := Admit(kind, observation, nowNs).value;
      var fx := EffectsOf(req, size);
      match observation
      case PersonalEvidence(_) =>
        kind.PersonalAccount? && VerdictOf(kind, fx, AdmissionFor(kind, fx, st, nowNs), own, None) == []
      case LeaseEvidence(status) =>
        var reserve := if balance.Some? then CheckReserve(fx, status, balance.value) else None;
        && kind.HosLease?
        && (Reports(VerdictOf(kind, fx, AdmissionFor(kind, fx, st, nowNs), own, reserve),
                    ChargeRequest(status, nowNs, own, balance, req))
            <==> MeterSuffices(status, nowNs, own, balance, req))
  {
    hide EffectsOf, VerdictOf, AdmissionOf, CheckReserve, ChargeRequest, MeterSuffices, Reports, ReadGrant;
    var st := Admit(kind, observation, nowNs).value;
    ModesNeverMix(kind, observation, st, EffectsOf(req, size), own, nowNs);
    if observation.LeaseEvidence? {
      AgreesExactly(observation.lease, nowNs, own, balance, req, size);
    }
  }

  /** The pre-flight as it runs: decode, admit, check the floor, assemble. An undecodable
      request has no verdict; any other is answered with what the pass would stop at, if and
      only if the native meter suffices. */
  method RunPreflight(status: AgentStatusView, nowNs: u64, own: Option<string>, balance: Option<u128>, req: Request,
                      size: nat) returns (r: Result<seq<Violation>, DecodeError>)
    requires |req.external| <= ISIZE_MAX
    ensures r.Ok? <==> RequestReadable(req)
    ensures r.Ok? ==> r.value == Preflight(status, nowNs, own, balance, EffectsOf(req, size))
    ensures r.Ok? ==>
      (Reports(r.value, ChargeRequest(status, nowNs, own, balance, req))
       <==> MeterSuffices(status, nowNs, own, balance, req))
  {
    hide MeterSuffices, Metered, RequestReadable, ChargeRequest, EffectsOf, AdmissionOf, VerdictOf;
    var decoded := Effects.Effects(req, size);
    if decoded.Err? {
      return Err(decoded.error);
    }
    var fx := decoded.value;
    var admitted := Hos.Admission(fx, status, nowNs);
    var reserve := if balance.Some? then CheckReserve(fx, status, balance.value) else None;
    var verdict := Binding.Verdict(HosLease, fx, admitted, own, reserve);
    AgreesExactly(status, nowNs, own, balance, req, size);
    return Ok(verdict);
  }

  /** Verdict and pass agree on every request memory can hold exactly when the door is
      closed, nobody is granted as a receiver, or less than the largest amount is left of
      the native budget. */
  lemma AgreementExactly(status: AgentStatusView, nowNs: u64, own: Option<string>, balance: Option<u128>, size: nat)
    ensures (forall req: Request :: |req.external| <= ISIZE_MAX ==> Agrees(status, nowNs, own, balance, req, size))
       <==> Metered(status, nowNs)
  {
    hide Agrees, ReadGrant, Remaining, DoorRefusal, OverTheTop;
    if Metered(status, nowNs) {
      hide Metered;
      forall req: Request | |req.external| <= ISIZE_MAX
        ensures Agrees(status, nowNs, own, balance, req, size)
      {
        VerdictIsTheChargingPass(status, nowNs, own, balance, req, size);
      }
    } else {
      var req := DisagreesOverTheTop(status, nowNs, own, balance, size);
    }
  }

  /** A request on which verdict and pass part, whenever the meter is not exact. */
  lemma DisagreesOverTheTop(status: AgentStatusView, nowNs: u64, own: Option<string>, balance: Option<u128>, size: nat)
    returns (req: Request)
    requires !Metered(status, nowNs)
    ensures |req.external| == 2 && RequestReadable(req) && forall p :: p in req.external ==> !HasCall(p)
    ensures !Agrees(status, nowNs, own, balance, req, size)
  {
    hide ReadGrant, Remaining, ChargeFrom, Agrees, OverTheTop, HasCall;
    var g := ReadGrant(status.grant.value).value;
    req := OverTheTop(g.receivers[0]);
    OverTheTopReads(g.receivers[0]);
    PassTripsOverTheTop(g, own);
    AgreesExactly(status, nowNs, own, balance, req, size);
  }
}
