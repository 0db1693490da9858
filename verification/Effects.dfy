/** Deriving the effects of a decoded request: one flat record of everything it does. */
module Effects {
  import opened Common
  import opened Request

  datatype TokenAmount = Fungible(units: u128) | Item(id: string)

  datatype TokenMove = TokenMove(promiseIndex: nat, token: string, recipient: string, amount: TokenAmount,
                                 methodName: string)

  datatype StorageRegistration = StorageRegistration(promiseIndex: nat, tokenContract: string,
                                                     account: Option<string>, deposit: u128)

  datatype Unstated = BadBase64 | FtAmount | FtArguments | NftArguments | StorageArguments | ForwardsValue | NoSemantics

  datatype UnknownCall = UnknownCall(promiseIndex: nat, contract: string, methodName: string, deposit: u128,
                                     reason: Unstated)

  datatype ShapeFact =
    | RefundToSet(promiseIndex: nat)
    | CallNotStandalone(promiseIndex: nat)
    | CallDepositNotOneYocto(promiseIndex: nat, deposit: u128)
    | NftApprovalIdSet(promiseIndex: nat)
    | TokenArgsUnknownField(promiseIndex: nat, field: string)

  datatype EffectsSet = EffectsSet(
    receivers: seq<string>,
    refundTos: seq<(nat, string)>,
    nativeTotal: u128,
    nativePerPromise: seq<u128>,
    tokenMoves: seq<TokenMove>,
    plainTransfers: seq<(nat, u128)>,
    callPromises: seq<nat>,
    storageRegistrations: seq<StorageRegistration>,
    unknownFundMoving: seq<UnknownCall>,
    stateInits: seq<nat>,
    hasInternal: bool,
    internalOps: seq<string>,
    totalGas: u64,
    actionCount: nat,
    requestSize: nat,
    shapeFacts: seq<ShapeFact>)

  /** The promise whose figure could not be read. */
  datatype DecodeError = UnreadableFigure(promiseIndex: nat)

  // ---------------------------------------------------------------------------
  // What one call does
  // ---------------------------------------------------------------------------

  datatype CallEffect =
    | Moves(recipient: string, amount: TokenAmount, approvalSet: bool, extraFields: seq<string>)
    | Registers(account: Option<string>)
    | Unstatable(reason: Unstated)

  function Classify(fc: FunctionCall): CallEffect {
    if fc.args.NotBase64? then Unstatable(BadBase64)
    else if fc.methodName == "ft_transfer" then
      match ReadFt(fc.args) {
        case None => Unstatable(FtArguments)
        case Some(args) =>
          match ParseU128(args.amount)
          case None => Unstatable(FtAmount)
          case Some(units) => Moves(args.receiver, Fungible(units), false, UnknownFields(fc.args, FT_FIELDS))
      }
    else if fc.methodName == "nft_transfer" then
      match ReadNft(fc.args) {
        case None => Unstatable(NftArguments)
        case Some(args) =>
          Moves(args.receiver, Item(args.tokenId), args.approvalSet, UnknownFields(fc.args, NFT_FIELDS))
      }
    else if fc.methodName == "storage_deposit" then
      match ReadStorage(fc.args) {
        case None => Unstatable(StorageArguments)
        case Some(account) => Registers(account)
      }
    else if fc.methodName == "ft_transfer_call" then Unstatable(ForwardsValue)
    else Unstatable(NoSemantics)
  }

  // ---------------------------------------------------------------------------
  // The specification: fragments that join
  // ---------------------------------------------------------------------------

  /** What a part of a request contributes. Sums are exact, without a ceiling. */
  datatype Fragment = Fragment(
    refunds: seq<(nat, string)>,
    facts: seq<ShapeFact>,
    transfers: seq<(nat, u128)>,
    inits: seq<nat>,
    calls: seq<nat>,
    moves: seq<TokenMove>,
    registrations: seq<StorageRegistration>,
    unknowns: seq<UnknownCall>,
    native: nat,
    gas: nat)

  const NOTHING := Fragment([], [], [], [], [], [], [], [], 0, 0)

  function Join(a: Fragment, b: Fragment): Fragment {
    Fragment(a.refunds + b.refunds, a.facts + b.facts, a.transfers + b.transfers, a.inits + b.inits,
             a.calls + b.calls, a.moves + b.moves, a.registrations + b.registrations,
             a.unknowns + b.unknowns, a.native + b.native, a.gas + b.gas)
  }

  function ExtraFieldFacts(i: nat, fields: seq<string>): seq<ShapeFact> {
    seq(|fields|, k requires 0 <= k < |fields| => TokenArgsUnknownField(i, fields[k]))
  }

  /** One call seen from promise `i`: whether it shares the promise, whether it is the
      promise's first call, and what `Classify` says it does. */
  datatype CallSite = CallSite(i: nat, receiver: string, alone: bool, first: bool, methodName: string,
                               deposit: u128, gas: u64, effect: CallEffect)

  function SiteOf(i: nat, p: NearPromise, k: nat): CallSite
    requires k < |p.actions| && p.actions[k].Call?
  {
    var a := p.actions[k];
    CallSite(i, p.receiver, |p.actions| == 1, !CallBefore(p, k), a.fc.methodName, NativeOf(a), GasOf(a),
             Classify(a.fc))
  }

  /** Facts about the form of the call. */
  function CallFacts(c: CallSite): seq<ShapeFact> {
    (if !c.alone then [CallNotStandalone(c.i)] else [])
    + (if c.deposit != 1 then [CallDepositNotOneYocto(c.i, c.deposit)] else [])
    + (if c.effect.Moves? && c.effect.approvalSet then [NftApprovalIdSet(c.i)] else [])
    + (if c.effect.Moves? then ExtraFieldFacts(c.i, c.effect.extraFields) else [])
  }

  function MoveOf(c: CallSite): TokenMove
    requires c.effect.Moves?
  {
    TokenMove(c.i, c.receiver, c.effect.recipient, c.effect.amount, c.methodName)
  }

  function CallFragment(c: CallSite): Fragment {
    NOTHING.(
      facts := CallFacts(c),
      calls := if c.first then [c.i] else [],
      moves := if c.effect.Moves? then [MoveOf(c)] else [],
      registrations :=
        if c.effect.Registers? then [StorageRegistration(c.i, c.receiver, c.effect.account, c.deposit)] else [],
      unknowns :=
        if c.effect.Unstatable? then [UnknownCall(c.i, c.receiver, c.methodName, c.deposit, c.effect.reason)] else [],
      native := c.deposit,
      gas := c.gas)
  }

  function ActionFragment(i: nat, p: NearPromise, k: nat): Fragment
    requires k < |p.actions|
  {
    var a := p.actions[k];
    match a
    case Transfer(_) => NOTHING.(transfers := [(i, NativeOf(a))], native := NativeOf(a))
    case StateInit(_) => NOTHING.(inits := [i], native := NativeOf(a))
    case Call(_) => CallFragment(SiteOf(i, p, k))
  }

  function ActionsFragment(i: nat, p: NearPromise, k: nat): Fragment
    requires k <= |p.actions|
  {
    if k == 0 then NOTHING else Join(ActionsFragment(i, p, k - 1), ActionFragment(i, p, k - 1))
  }

  function HeadFragment(i: nat, p: NearPromise): Fragment {
    match p.refundTo
    case None => NOTHING
    case Some(refundTo) => NOTHING.(refunds := [(i, refundTo)], facts := [RefundToSet(i)])
  }

  function PromiseFragment(i: nat, p: NearPromise): Fragment {
    Join(HeadFragment(i, p), ActionsFragment(i, p, |p.actions|))
  }

  function PromisesFragment(ps: seq<NearPromise>, n: nat): Fragment
    requires n <= |ps|
  {
    if n == 0 then NOTHING else Join(PromisesFragment(ps, n - 1), PromiseFragment(n - 1, ps[n - 1]))
  }

  function ActionCount(ps: seq<NearPromise>, n: nat): nat
    requires n <= |ps|
  {
    if n == 0 then 0 else ActionCount(ps, n - 1) + |ps[n - 1].actions|
  }

  function Receivers(ps: seq<NearPromise>, n: nat): (rs: seq<string>)
    requires n <= |ps|
    ensures |rs| == n && forall i :: 0 <= i < n ==> rs[i] == ps[i].receiver
  {
    if n == 0 then [] else Receivers(ps, n - 1) + [ps[n - 1].receiver]
  }

  function NativePerPromise(ps: seq<NearPromise>, n: nat): (ns: seq<u128>)
    requires n <= |ps|
    ensures |ns| == n && forall i :: 0 <= i < n ==> ns[i] == Saturate(PromiseNative(ps[i]))
  {
    if n == 0 then [] else NativePerPromise(ps, n - 1) + [Saturate(PromiseNative(ps[n - 1]))]
  }

  function OpNames(ops: seq<WalletOp>, n: nat): (names: seq<string>)
    requires n <= |ops|
    ensures |names| == n && forall i :: 0 <= i < n ==> names[i] == ops[i].Name()
  {
    if n == 0 then [] else OpNames(ops, n - 1) + [ops[n - 1].Name()]
  }

  /** The record that belongs to the first `n` promises. */
  function EffectsUpTo(req: Request, n: nat, size: nat): EffectsSet
    requires n <= |req.external|
  {
    var ps := req.external;
    var f := PromisesFragment(ps, n);
    EffectsSet(
      Receivers(ps, n),
      f.refunds,
      Saturate(f.native),
      NativePerPromise(ps, n),
      f.moves, f.transfers, f.calls, f.registrations, f.unknowns, f.inits,
      |req.internal| > 0,
      OpNames(req.internal, |req.internal|),
      Saturate64(f.gas),
      ActionCount(ps, n),
      size,
      f.facts)
  }

  function EffectsOf(req: Request, size: nat): EffectsSet {
    EffectsUpTo(req, |req.external|, size)
  }

  /** The first promise holding a figure that does not read, if there is one. */
  predicate FirstUnreadable(req: Request, at: nat) {
    && at < |req.external|
    && (exists k :: 0 <= k < |req.external[at].actions| && !FiguresReadable(req.external[at].actions[k]))
    && (forall i, k :: 0 <= i < at && 0 <= k < |req.external[i].actions| ==>
          FiguresReadable(req.external[i].actions[k]))
  }

  lemma {:induction false} FragmentNative(i: nat, p: NearPromise, k: nat)
    requires k <= |p.actions|
    ensures ActionsFragment(i, p, k).native == NativeUpTo(p.actions, k)
  {
    hide ParseU128, ParseU64, Classify;
    if k > 0 {
      FragmentNative(i, p, k - 1);
    }
  }

  lemma PromiseFragmentNative(i: nat, p: NearPromise)
    ensures PromiseFragment(i, p).native == PromiseNative(p)
  {
    hide ActionFragment, NativeOf;
    FragmentNative(i, p, |p.actions|);
  }

  lemma {:induction false} FragmentsNative(ps: seq<NearPromise>, n: nat)
    requires n <= |ps|
    ensures PromisesFragment(ps, n).native == RequestNative(ps, n)
  {
    hide PromiseFragment, PromiseNative;
    if n > 0 {
      FragmentsNative(ps, n - 1);
      PromiseFragmentNative(n - 1, ps[n - 1]);
    }
  }

  // ---------------------------------------------------------------------------
  // The decoder
  // ---------------------------------------------------------------------------

  /** `fx` extended by what `f` adds to its lists, the native totals left alone. */
  function Extended(fx: EffectsSet, f: Fragment): EffectsSet {
    fx.(refundTos := fx.refundTos + f.refunds,
        shapeFacts := fx.shapeFacts + f.facts,
        plainTransfers := fx.plainTransfers + f.transfers,
        stateInits := fx.stateInits + f.inits,
        callPromises := fx.callPromises + f.calls,
        tokenMoves := fx.tokenMoves + f.moves,
        storageRegistrations := fx.storageRegistrations + f.registrations,
        unknownFundMoving := fx.unknownFundMoving + f.unknowns,
        totalGas := Saturate64(fx.totalGas + f.gas))
  }

  lemma ExtendedJoin(fx: EffectsSet, a: Fragment, b: Fragment)
    ensures Extended(Extended(fx, a), b) == Extended(fx, Join(a, b))
  {
  }

  lemma ExtendedByNothing(fx: EffectsSet)
    ensures Extended(fx, NOTHING) == fx
  {
  }

  lemma ExtendedByHead(fx: EffectsSet, i: nat, p: NearPromise)
    ensures Extended(fx, HeadFragment(i, p)) ==
      if p.refundTo.None? then fx
      else fx.(refundTos := fx.refundTos + [(i, p.refundTo.value)], shapeFacts := fx.shapeFacts + [RefundToSet(i)])
  {
  }

  /** Push the facts about one call's form. */
  method PushCallFacts(facts0: seq<ShapeFact>, c: CallSite) returns (facts: seq<ShapeFact>)
    ensures facts == facts0 + CallFacts(c)
  {
    facts := facts0;
    if !c.alone {
      facts := facts + [CallNotStandalone(c.i)];
    }
    if c.deposit != 1 {
      facts := facts + [CallDepositNotOneYocto(c.i, c.deposit)];
    }
    if c.effect.Moves? {
      if c.effect.approvalSet {
        facts := facts + [NftApprovalIdSet(c.i)];
      }
      facts := PushExtraFields(facts, c.i, c.effect.extraFields);
    }
  }

  method PushExtraFields(facts0: seq<ShapeFact>, i: nat, fields: seq<string>) returns (facts: seq<ShapeFact>)
    ensures facts == facts0 + ExtraFieldFacts(i, fields)
  {
    facts := facts0;
    for j := 0 to |fields|
      invariant facts == facts0 + ExtraFieldFacts(i, fields)[..j]
    {
      facts := facts + [TokenArgsUnknownField(i, fields[j])];
    }
  }

  /** The part of the loop body that handles one call: its form facts, then the one list
      its effect belongs to. */
  method RecordCall(fx0: EffectsSet, c: CallSite) returns (fx: EffectsSet)
    requires c.first <==> c.i !in fx0.callPromises
    ensures fx == Extended(fx0, CallFragment(c))
  {
    var facts := PushCallFacts(fx0.shapeFacts, c);
    fx := fx0.(
      callPromises := if c.i !in fx0.callPromises then fx0.callPromises + [c.i] else fx0.callPromises,
      totalGas := SatAdd64(fx0.totalGas, c.gas),
      shapeFacts := facts);
    match c.effect {
      case Unstatable(reason) =>
        fx := fx.(unknownFundMoving :=
          fx.unknownFundMoving + [UnknownCall(c.i, c.receiver, c.methodName, c.deposit, reason)]);
      case Registers(account) =>
        fx := fx.(storageRegistrations :=
          fx.storageRegistrations + [StorageRegistration(c.i, c.receiver, account, c.deposit)]);
      case Moves(_, _, _, _) =>
        fx := fx.(tokenMoves := fx.tokenMoves + [MoveOf(c)]);
    }
  }

  /** One action: its native amount joins the promise's, the rest goes to its list. */
  method RecordAction(fx0: EffectsSet, native0: u128, i: nat, p: NearPromise, k: nat)
    returns (fx: EffectsSet, native: u128)
    requires k < |p.actions| && FiguresReadable(p.actions[k])
    requires i in fx0.callPromises <==> CallBefore(p, k)
    ensures fx == Extended(fx0, ActionFragment(i, p, k))
    ensures native == SatAdd(native0, NativeOf(p.actions[k]))
  {
    match p.actions[k] {
      case Transfer(amount) =>
        var v := ParseU128(amount).value;
        native := SatAdd(native0, v);
        fx := fx0.(plainTransfers := fx0.plainTransfers + [(i, v)]);
      case StateInit(deposit) =>
        native := SatAdd(native0, ParseU128(deposit).value);
        fx := fx0.(stateInits := fx0.stateInits + [i]);
      case Call(fc) =>
        native := SatAdd(native0, ParseU128(fc.deposit).value);
        fx := RecordCall(fx0, SiteOf(i, p, k));
    }
  }

  lemma CallsOfAction(i: nat, p: NearPromise, k: nat)
    requires k < |p.actions|
    ensures ActionFragment(i, p, k).calls == if CallBefore(p, k + 1) && !CallBefore(p, k) then [i] else []
    ensures CallBefore(p, k) ==> CallBefore(p, k + 1)
  {
  }

  /** The inner loop: every action of promise `i`, stopping at a figure that does not read. */
  method RecordActions(headed: EffectsSet, i: nat, p: NearPromise) returns (ok: bool, fx: EffectsSet, native: u128)
    requires i !in headed.callPromises
    ensures ok <==> forall k :: 0 <= k < |p.actions| ==> FiguresReadable(p.actions[k])
    ensures ok ==> fx == Extended(headed, ActionsFragment(i, p, |p.actions|)) && native == Saturate(PromiseNative(p))
  {
    hide NativeOf, FiguresReadable, ActionFragment, Saturate64;
    fx, native := headed, 0;
    ExtendedByNothing(headed);
    for k := 0 to |p.actions|
      invariant fx == Extended(headed, ActionsFragment(i, p, k))
      invariant native == Saturate(NativeUpTo(p.actions, k))
      invariant forall j :: 0 <= j < k ==> FiguresReadable(p.actions[j])
      invariant i in fx.callPromises <==> CallBefore(p, k)
    {
      if !FiguresReadable(p.actions[k]) {
        return false, fx, native;
      }
      CallsOfAction(i, p, k);
      ExtendedJoin(headed, ActionsFragment(i, p, k), ActionFragment(i, p, k));
      fx, native := RecordAction(fx, native, i, p, k);
    }
    ok := true;
  }

  /** The body of the outer loop for promise `i`, after its receiver was pushed. */
  method RecordPromise(fx0: EffectsSet, i: nat, p: NearPromise)
    returns (r: Result<EffectsSet, DecodeError>)
    requires i !in fx0.callPromises
    ensures r.Ok? <==> forall k :: 0 <= k < |p.actions| ==> FiguresReadable(p.actions[k])
    ensures r.Err? ==> r.error == UnreadableFigure(i)
    ensures r.Ok? ==>
      var fx := Extended(fx0, PromiseFragment(i, p));
      && r.value == fx.(actionCount := fx.actionCount + |p.actions|,
                        nativePerPromise := fx.nativePerPromise + [Saturate(PromiseNative(p))],
                        nativeTotal := SatAdd(fx.nativeTotal, Saturate(PromiseNative(p))))
  {
    hide FiguresReadable, ActionsFragment, Extended, PromiseNative, Saturate, SatAdd;
    var headed := fx0;
    if p.refundTo.Some? {
      headed := headed.(refundTos := headed.refundTos + [(i, p.refundTo.value)],
                        shapeFacts := headed.shapeFacts + [RefundToSet(i)]);
    }
    ExtendedByHead(fx0, i, p);
    var ok, fx, promiseNative := RecordActions(headed, i, p);
    if !ok {
      return Err(UnreadableFigure(i));
    }
    ExtendedJoin(fx0, HeadFragment(i, p), ActionsFragment(i, p, |p.actions|));
    return Ok(fx.(actionCount := fx.actionCount + |p.actions|,
                  nativePerPromise := fx.nativePerPromise + [promiseNative],
                  nativeTotal := SatAdd(fx.nativeTotal, promiseNative)));
  }

  lemma {:induction false} CallsBelow(ps: seq<NearPromise>, n: nat)
    requires n <= |ps|
    ensures forall c :: c in PromisesFragment(ps, n).calls ==> c < n
  {
    hide PromiseFragment, HasCall;
    if n > 0 {
      CallsBelow(ps, n - 1);
      PromiseCalls(n - 1, ps[n - 1]);
    }
  }

  lemma {:induction false} ActionCallsAre(i: nat, p: NearPromise, k: nat)
    requires k <= |p.actions|
    ensures ActionsFragment(i, p, k).calls == if CallBefore(p, k) then [i] else []
  {
    hide ActionFragment;
    if k > 0 {
      hide CallBefore;
      ActionCallsAre(i, p, k - 1);
      CallsOfAction(i, p, k - 1);
    }
  }

  lemma NoPromise(req: Request, size: nat)
    ensures EffectsUpTo(req, 0, size)
         == EffectsSet([], [], 0, [], [], [], [], [], [], [], |req.internal| > 0,
                       OpNames(req.internal, |req.internal|), 0, 0, size, [])
  {
  }

  lemma {:induction false} CallPromisesAre(ps: seq<NearPromise>, n: nat, i: nat)
    requires n <= |ps|
    ensures i in PromisesFragment(ps, n).calls <==> i < n && HasCall(ps[i])
  {
    hide HasCall, ActionsFragment;
    if n > 0 {
      CallPromisesAre(ps, n - 1, i);
      PromiseCalls(n - 1, ps[n - 1]);
    }
  }

  lemma PromiseCalls(i: nat, p: NearPromise)
    ensures PromiseFragment(i, p).calls == if HasCall(p) then [i] else []
  {
    hide ActionsFragment;
    ActionCallsAre(i, p, |p.actions|);
  }

  /** Going one promise further extends the record by that promise's fragment. */
  lemma NextPromise(req: Request, i: nat, size: nat)
    requires i < |req.external|
    ensures
      var p := req.external[i];
      var was := EffectsUpTo(req, i, size);
      var fx := Extended(was.(receivers := was.receivers + [p.receiver]), PromiseFragment(i, p));
      EffectsUpTo(req, i + 1, size)
      == fx.(actionCount := fx.actionCount + |p.actions|,
             nativePerPromise := fx.nativePerPromise + [Saturate(PromiseNative(p))],
             nativeTotal := SatAdd(fx.nativeTotal, Saturate(PromiseNative(p))))
  {
    hide PromiseFragment, PromiseNative, Saturate, SatAdd, Saturate64;
    var f, g := PromisesFragment(req.external, i), PromiseFragment(i, req.external[i]);
    PromiseFragmentNative(i, req.external[i]);
    SaturatedSums(f.native, g.native);
    SaturatedSums(f.gas, g.gas);
  }

  /** Every figure of the request is read; anything unreadable refuses the whole request,
      anything unstatable is recorded for the caller to refuse. */
  method Effects(req: Request, size: nat) returns (r: Result<EffectsSet, DecodeError>)
    ensures r.Ok? <==> RequestReadable(req)
    ensures r.Ok? ==> r.value == EffectsOf(req, size)
    ensures r.Err? ==> FirstUnreadable(req, r.error.promiseIndex)
  {
    hide FiguresReadable, PromiseFragment, PromiseNative, Saturate, SatAdd, Saturate64, Extended;
    var internalOps := [];
    for j := 0 to |req.internal|
      invariant internalOps == OpNames(req.internal, j)
    {
      internalOps := internalOps + [req.internal[j].Name()];
    }
    var fx := EffectsSet([], [], 0, [], [], [], [], [], [], [], |req.internal| > 0, internalOps, 0, 0, size, []);
    NoPromise(req, size);
    for i := 0 to |req.external|
      invariant fx == EffectsUpTo(req, i, size)
      invariant forall j, k :: 0 <= j < i && 0 <= k < |req.external[j].actions| ==>
                  FiguresReadable(req.external[j].actions[k])
    {
      CallsBelow(req.external, i);
      NextPromise(req, i, size);
      var step := RecordPromise(fx.(receivers := fx.receivers + [req.external[i].receiver]), i, req.external[i]);
      if step.Err? {
        return Err(step.error);
      }
      fx := step.value;
    }
    return Ok(fx);
  }
}
