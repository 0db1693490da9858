/** What the extension door permits, stated over the request itself, and what does not
    change its answer. */
module Extension {
  import opened Common
  import opened Request
  import opened Effects
  import Json
  import P = Policy
  import opened Evaluation

  // ---------------------------------------------------------------------------
  // The rule over the request
  // ---------------------------------------------------------------------------

  /** Who may be paid and which tokens may move, as the owner wrote it. */
  datatype Fence = Fence(addresses: Option<P.Addresses>, tokens: Option<seq<string>>)

  function FenceOf(rules: Option<P.Rules>): Fence {
    if rules.None? then Fence(None, None) else Fence(rules.value.addresses, rules.value.allowedTokens)
  }

  predicate ModeReads(f: Fence) {
    f.addresses.Some? ==> ModeOf(f.addresses.value).Some?
  }

  predicate Payable(f: Fence, dest: string) {
    f.addresses.Some? ==>
      ModeOf(f.addresses.value).Some? && ModeAllows(f.addresses.value, ModeOf(f.addresses.value).value, dest)
  }

  predicate Movable(f: Fence, token: string) {
    f.tokens.Some? ==> "*" in f.tokens.value || token in f.tokens.value
  }

  /** A call the rules can read: a token transfer or a storage registration with readable
      arguments, its destinations payable and its token movable. */
  predicate CallFine(f: Fence, receiver: string, fc: FunctionCall) {
    || (&& fc.methodName == "ft_transfer" && ReadFt(fc.args).Some? && ParseU128(ReadFt(fc.args).value.amount).Some?
        && Payable(f, ReadFt(fc.args).value.receiver) && Movable(f, receiver))
    || (&& fc.methodName == "nft_transfer" && ReadNft(fc.args).Some?
        && Payable(f, ReadNft(fc.args).value.receiver) && Movable(f, receiver))
    || (&& fc.methodName == "storage_deposit" && ReadStorage(fc.args).Some?
        && (ReadStorage(fc.args).value.Some? ==> Payable(f, ReadStorage(fc.args).value.value)))
  }

  predicate ActionFine(f: Fence, receiver: string, a: Action) {
    a.Call? ==> CallFine(f, receiver, a.fc)
  }

  predicate PromiseFine(f: Fence, p: NearPromise) {
    && Payable(f, p.receiver)
    && (p.refundTo.Some? ==> Payable(f, p.refundTo.value))
    && forall a :: a in p.actions ==> ActionFine(f, p.receiver, a)
  }

  /** The units of `token` one action of a promise to `receiver` moves. */
  function ActionUnits(token: string, receiver: string, a: Action): nat {
    if MovesFungibly(token, receiver, a) then ParseU128(ReadFt(a.fc.args).value.amount).value else 0
  }

  predicate MovesFungibly(token: string, receiver: string, a: Action) {
    && a.Call? && receiver == token && a.fc.methodName == "ft_transfer"
    && ReadFt(a.fc.args).Some? && ParseU128(ReadFt(a.fc.args).value.amount).Some?
  }

  function UnitsOfAction(token: string, receiver: string): Action -> nat {
    (a: Action) => ActionUnits(token, receiver, a)
  }

  function PromiseUnits(token: string): NearPromise -> nat {
    (p: NearPromise) => Sum(UnitsOfAction(token, p.receiver), p.actions)
  }

  function NativeOfAction(): Action -> nat { (a: Action) => NativeOf(a) }

  function NativeOfPromise(): NearPromise -> nat { (p: NearPromise) => Sum(NativeOfAction(), p.actions) }

  /** Exact, unsaturated totals of a request. */
  function UnitsMoved(token: string, req: Request): nat { Sum(PromiseUnits(token), req.external) }

  function NativeSpent(req: Request): nat { Sum(NativeOfPromise(), req.external) }

  predicate TokenMoved(token: string, req: Request) {
    exists p :: p in req.external && PromiseMoves(token, p)
  }

  predicate PromiseMoves(token: string, p: NearPromise) {
    exists a :: a in p.actions && MovesFungibly(token, p.receiver, a)
  }

  /** A limit at the largest amount bounds nothing. */
  predicate WithinCap(amount: nat, cap: u128) {
    amount <= cap || cap == U128_MAX
  }

  predicate WithinPerTransaction(caps: Option<map<string, string>>, token: string, amount: nat) {
    caps.Some? && LookupLimit(caps.value, token).Some? ==> WithinCap(amount, LookupLimit(caps.value, token).value)
  }

  predicate WithinWindow(limits: P.Limits, w: P.Window, usage: P.Usage, token: string, amount: nat) {
    var caps := P.Caps(limits, w);
    caps.Some? && LookupLimit(caps.value, token).Some? ==>
      && !usage.CounterUnreadable(w, token)
      && WithinCap(usage.Spent(w, token) + amount, LookupLimit(caps.value, token).value)
  }

  ghost predicate SumsMeet(limits: P.Limits, usage: Option<P.Usage>, req: Request) {
    && WithinPerTransaction(limits.perTransaction, P.NATIVE, NativeSpent(req))
    && (forall token :: TokenMoved(token, req) ==> WithinPerTransaction(limits.perTransaction, token, UnitsMoved(token, req)))
    && (usage.Some? ==> forall w :: WindowMet(limits, w, usage.value, req))
  }

  ghost predicate WindowMet(limits: P.Limits, w: P.Window, usage: P.Usage, req: Request) {
    && (NativeSpent(req) > 0 ==> WithinWindow(limits, w, usage, P.NATIVE, NativeSpent(req)))
    && forall token :: TokenMoved(token, req) ==> WithinWindow(limits, w, usage, token, UnitsMoved(token, req))
  }

  /** The whole rule, over the request. */
  ghost predicate RequestPermitted(rules: Option<P.Rules>, req: Request, usage: Option<P.Usage>) {
    && RequestReadable(req)
    && req.internal == []
    && ModeReads(FenceOf(rules))
    && (forall p :: p in req.external ==> PromiseFine(FenceOf(rules), p))
    && (rules.Some? && rules.value.limits.Some? ==> SumsMeet(rules.value.limits.value, usage, req))
  }

  // ---------------------------------------------------------------------------
  // Fragments: fences
  // ---------------------------------------------------------------------------

  predicate FragmentFine(f: Fence, g: Fragment) {
    && g.unknowns == []
    && (forall r :: r in g.refunds ==> Payable(f, r.1))
    && (forall m :: m in g.moves ==> Payable(f, m.recipient) && Movable(f, m.token))
    && (forall s :: s in g.registrations && s.account.Some? ==> Payable(f, s.account.value))
  }

  lemma FineJoin(f: Fence, a: Fragment, b: Fragment)
    ensures FragmentFine(f, Join(a, b)) <==> FragmentFine(f, a) && FragmentFine(f, b)
  {
  }

  lemma FineCall(f: Fence, receiver: string, fc: FunctionCall)
    ensures CallFine(f, receiver, fc) <==>
      match Classify(fc)
      case Unstatable(_) => false
      case Registers(account) => account.Some? ==> Payable(f, account.value)
      case Moves(recipient, _, _, _) => Payable(f, recipient) && Movable(f, receiver)
  {
    hide Payable, Movable, ParseU128, Json.StructShape, Json.Field;
  }

  lemma FineAction(f: Fence, i: nat, p: NearPromise, k: nat)
    requires k < |p.actions|
    ensures FragmentFine(f, ActionFragment(i, p, k)) <==> ActionFine(f, p.receiver, p.actions[k])
  {
    hide Payable, Movable, Classify, CallFacts, CallFine, NativeOf, GasOf;
    if p.actions[k].Call? {
      FineCall(f, p.receiver, p.actions[k].fc);
    }
  }

  lemma {:induction false} FineActions(f: Fence, i: nat, p: NearPromise, k: nat)
    requires k <= |p.actions|
    ensures FragmentFine(f, ActionsFragment(i, p, k)) <==> forall j :: 0 <= j < k ==> ActionFine(f, p.receiver, p.actions[j])
  {
    hide ActionFragment, ActionFine, Join;
    if k > 0 {
      FineActions(f, i, p, k - 1);
      FineAction(f, i, p, k - 1);
      FineJoin(f, ActionsFragment(i, p, k - 1), ActionFragment(i, p, k - 1));
    }
  }

  lemma FinePromise(f: Fence, i: nat, p: NearPromise)
    ensures Payable(f, p.receiver) && FragmentFine(f, PromiseFragment(i, p)) <==> PromiseFine(f, p)
  {
    hide ActionsFragment, ActionFine, Join, Payable;
    FineJoin(f, HeadFragment(i, p), ActionsFragment(i, p, |p.actions|));
    FineActions(f, i, p, |p.actions|);
  }

  lemma {:induction false} FinePromises(f: Fence, ps: seq<NearPromise>, n: nat)
    requires n <= |ps|
    ensures (forall i :: 0 <= i < n ==> Payable(f, ps[i].receiver)) && FragmentFine(f, PromisesFragment(ps, n))
       <==> forall i :: 0 <= i < n ==> PromiseFine(f, ps[i])
  {
    hide PromiseFragment, PromiseFine, Join, Payable;
    if n > 0 {
      FinePromises(f, ps, n - 1);
      FinePromise(f, n - 1, ps[n - 1]);
      FineJoin(f, PromisesFragment(ps, n - 1), PromiseFragment(n - 1, ps[n - 1]));
    }
  }

  // ---------------------------------------------------------------------------
  // Fragments: totals
  // ---------------------------------------------------------------------------

  function MoveUnits(token: string): TokenMove -> nat {
    (m: TokenMove) => if m.amount.Fungible? && m.token == token then m.amount.units else 0
  }

  lemma {:induction false} TotalIsSaturatedSum(moves: seq<TokenMove>, token: string)
    ensures TokenTotal(moves, token) == Saturate(Sum(MoveUnits(token), moves))
  {
    if moves != [] {
      TotalIsSaturatedSum(moves[..|moves| - 1], token);
      var last := moves[|moves| - 1];
      assert MoveUnits(token)(last) == if last.amount.Fungible? && last.token == token then last.amount.units else 0;
    }
  }

  lemma UnitsOfCall(token: string, i: nat, p: NearPromise, k: nat)
    requires k < |p.actions|
    ensures Sum(MoveUnits(token), ActionFragment(i, p, k).moves) == ActionUnits(token, p.receiver, p.actions[k])
    ensures AnyMove(token, ActionFragment(i, p, k).moves) <==> MovesFungibly(token, p.receiver, p.actions[k])
  {
    hide CallFacts, NativeOf, GasOf, ParseU128, Json.StructShape, Json.Field, ReadNft, ReadStorage, Sum;
    var g := ActionFragment(i, p, k);
    SumSnoc(MoveUnits(token), [], MoveWitness(g));
    SumNothing(MoveUnits(token));
    assert [] + [MoveWitness(g)] == [MoveWitness(g)];
    if p.actions[k].Call? && p.actions[k].fc.args.NotBase64? {
      UndecodedArgs(p.actions[k].fc.args);
    }
  }

  function MoveWitness(g: Fragment): TokenMove {
    if g.moves == [] then TokenMove(0, "", "", Item(""), "") else g.moves[0]
  }

  lemma UndecodedArgs(args: CallArgs)
    requires args.NotBase64?
    ensures ReadFt(args).None?
  {
  }

  predicate AnyMove(token: string, moves: seq<TokenMove>) {
    exists m :: m in moves && m.amount.Fungible? && m.token == token
  }

  lemma AnyMoveAppend(token: string, a: seq<TokenMove>, b: seq<TokenMove>)
    ensures AnyMove(token, a + b) <==> AnyMove(token, a) || AnyMove(token, b)
  {
  }

  lemma {:induction false} UnitsOfActions(token: string, i: nat, p: NearPromise, k: nat)
    requires k <= |p.actions|
    ensures Sum(MoveUnits(token), ActionsFragment(i, p, k).moves) == Sum(UnitsOfAction(token, p.receiver), p.actions[..k])
    ensures AnyMove(token, ActionsFragment(i, p, k).moves)
       <==> exists j :: 0 <= j < k && MovesFungibly(token, p.receiver, p.actions[j])
  {
    hide ActionFragment, MovesFungibly, ActionUnits, Sum, AnyMove;
    if k == 0 {
      SumNothing(MoveUnits(token));
      SumNothing(UnitsOfAction(token, p.receiver));
      AnyMoveAppend(token, [], []);
      NoMove(token);
    } else {
      UnitsOfActions(token, i, p, k - 1);
      UnitsOfCall(token, i, p, k - 1);
      var before, here := ActionsFragment(i, p, k - 1).moves, ActionFragment(i, p, k - 1).moves;
      SumAppend(MoveUnits(token), before, here);
      assert p.actions[..k] == p.actions[..k - 1] + [p.actions[k - 1]];
      SumSnoc(UnitsOfAction(token, p.receiver), p.actions[..k - 1], p.actions[k - 1]);
      AnyMoveAppend(token, before, here);
    }
  }

  lemma NoMove(token: string)
    ensures !AnyMove(token, [])
  {
  }

  lemma PromiseMovesIndexed(token: string, p: NearPromise)
    ensures PromiseMoves(token, p) <==> exists j :: 0 <= j < |p.actions| && MovesFungibly(token, p.receiver, p.actions[j])
  {
    hide MovesFungibly;
    if j :| 0 <= j < |p.actions| && MovesFungibly(token, p.receiver, p.actions[j]) {
      assert p.actions[j] in p.actions;
    }
  }

  lemma UnitsOfPromise(token: string, i: nat, p: NearPromise)
    ensures Sum(MoveUnits(token), PromiseFragment(i, p).moves) == PromiseUnits(token)(p)
    ensures AnyMove(token, PromiseFragment(i, p).moves) <==> PromiseMoves(token, p)
  {
    hide ActionsFragment, MovesFungibly, Sum, AnyMove, PromiseMoves, MoveUnits;
    UnitsOfActions(token, i, p, |p.actions|);
    PromiseMovesIndexed(token, p);
    PromiseMovesAre(i, p);
    assert p.actions[..|p.actions|] == p.actions;
  }

  lemma {:induction false} UnitsOfPromises(token: string, ps: seq<NearPromise>, n: nat)
    requires n <= |ps|
    ensures Sum(MoveUnits(token), PromisesFragment(ps, n).moves) == Sum(PromiseUnits(token), ps[..n])
    ensures AnyMove(token, PromisesFragment(ps, n).moves) <==> exists i :: 0 <= i < n && PromiseMoves(token, ps[i])
  {
    hide PromiseFragment, Sum, AnyMove, PromiseMoves, MoveUnits, PromiseUnits;
    if n == 0 {
      SumNothing(MoveUnits(token));
      SumNothing(PromiseUnits(token));
      NoMove(token);
    } else {
      var p := ps[n - 1];
      UnitsOfPromises(token, ps, n - 1);
      UnitsOfPromise(token, n - 1, p);
      var before, here := PromisesFragment(ps, n - 1).moves, PromiseFragment(n - 1, p).moves;
      SumAppend(MoveUnits(token), before, here);
      assert ps[..n] == ps[..n - 1] + [p];
      SumSnoc(PromiseUnits(token), ps[..n - 1], p);
      AnyMoveAppend(token, before, here);
    }
  }

  lemma PromiseMovesAre(i: nat, p: NearPromise)
    ensures PromiseFragment(i, p).moves == ActionsFragment(i, p, |p.actions|).moves
  {
    hide ActionsFragment;
  }

  lemma {:induction false} NativeOfActions(actions: seq<Action>, k: nat)
    requires k <= |actions|
    ensures NativeUpTo(actions, k) == Sum(NativeOfAction(), actions[..k])
  {
    hide NativeOf;
    if k > 0 {
      NativeOfActions(actions, k - 1);
      assert actions[..k] == actions[..k - 1] + [actions[k - 1]];
      SumSnoc(NativeOfAction(), actions[..k - 1], actions[k - 1]);
    }
  }

  lemma {:induction false} NativeOfPromises(ps: seq<NearPromise>, n: nat)
    requires n <= |ps|
    ensures RequestNative(ps, n) == Sum(NativeOfPromise(), ps[..n])
  {
    hide NativeOf;
    if n > 0 {
      var p := ps[n - 1];
      NativeOfPromises(ps, n - 1);
      NativeOfActions(p.actions, |p.actions|);
      assert p.actions[..|p.actions|] == p.actions;
      assert ps[..n] == ps[..n - 1] + [p];
      SumSnoc(NativeOfPromise(), ps[..n - 1], p);
    }
  }

  // ---------------------------------------------------------------------------
  // The stages over the effects against the rule over the request
  // ---------------------------------------------------------------------------

  lemma {:induction false} NoAddressRefused(a: P.Addresses, mode: Mode, touched: seq<(nat, string)>)
    ensures FirstRefusedAddress(a, mode, touched).None? <==> forall t :: t in touched ==> ModeAllows(a, mode, t.1)
  {
    hide ModeAllows;
    if touched != [] {
      NoAddressRefused(a, mode, touched[1..]);
      assert forall t :: t in touched <==> t == touched[0] || t in touched[1..];
    }
  }

  lemma {:induction false} NoTokenRefused(allowed: seq<string>, moves: seq<TokenMove>)
    ensures FirstRefusedToken(allowed, moves).None? <==> forall m :: m in moves ==> m.token in allowed
  {
    if moves != [] {
      NoTokenRefused(allowed, moves[1..]);
      assert forall m :: m in moves <==> m == moves[0] || m in moves[1..];
    }
  }

  lemma {:induction false} BeneficiariesPayable(f: Fence, regs: seq<StorageRegistration>)
    ensures (forall t :: t in Beneficiaries(regs) ==> Payable(f, t.1))
       <==> forall s :: s in regs && s.account.Some? ==> Payable(f, s.account.value)
  {
    hide Payable;
    if regs != [] {
      var init, last := regs[..|regs| - 1], regs[|regs| - 1];
      BeneficiariesPayable(f, init);
      assert forall s :: s in regs <==> s in init || s == last;
      var here := if last.account.Some? then [(last.promiseIndex, last.account.value)] else [];
      assert forall t :: t in Beneficiaries(regs) <==> t in Beneficiaries(init) || t in here;
      if last.account.Some? {
        assert here[0] in here;
      }
    }
  }

  lemma TouchedPayable(f: Fence, fx: EffectsSet)
    ensures (forall t :: t in Touched(fx) ==> Payable(f, t.1)) <==>
      && (forall i :: 0 <= i < |fx.receivers| ==> Payable(f, fx.receivers[i]))
      && (forall r :: r in fx.refundTos ==> Payable(f, r.1))
      && (forall m :: m in fx.tokenMoves ==> Payable(f, m.recipient))
      && (forall s :: s in fx.storageRegistrations && s.account.Some? ==> Payable(f, s.account.value))
  {
    hide Payable;
    hide Beneficiaries;
    var a, b, c := Numbered(fx.receivers), Recipients(fx.tokenMoves), Beneficiaries(fx.storageRegistrations);
    BeneficiariesPayable(f, fx.storageRegistrations);
    assert forall t :: t in Touched(fx) <==> t in a || t in fx.refundTos || t in b || t in c;
    if forall t :: t in Touched(fx) ==> Payable(f, t.1) {
      forall i | 0 <= i < |fx.receivers|
        ensures Payable(f, fx.receivers[i])
      {
        assert a[i] in a;
      }
      forall m | m in fx.tokenMoves
        ensures Payable(f, m.recipient)
      {
        var j :| 0 <= j < |fx.tokenMoves| && fx.tokenMoves[j] == m;
        assert b[j] in b;
      }
    }
  }

  lemma AddressStagePasses(rules: Option<P.Rules>, fx: EffectsSet)
    ensures AddressStage(rules, fx).None? <==>
      ModeReads(FenceOf(rules)) && forall t :: t in Touched(fx) ==> Payable(FenceOf(rules), t.1)
  {
    hide Touched, ModeOf, ModeAllows, FirstRefusedAddress;
    if rules.Some? && rules.value.addresses.Some? && ModeOf(rules.value.addresses.value).Some? {
      NoAddressRefused(rules.value.addresses.value, ModeOf(rules.value.addresses.value).value, Touched(fx));
    }
  }

  lemma TokenStagePasses(rules: Option<P.Rules>, fx: EffectsSet)
    ensures TokenStage(rules, fx).None? <==> forall m :: m in fx.tokenMoves ==> Movable(FenceOf(rules), m.token)
  {
    hide FirstRefusedToken;
    if rules.Some? && rules.value.allowedTokens.Some? {
      NoTokenRefused(rules.value.allowedTokens.value, fx.tokenMoves);
    }
  }

  lemma FencesPass(rules: Option<P.Rules>, req: Request, size: nat)
    ensures
      var fx := EffectsOf(req, size);
      fx.unknownFundMoving == [] && AddressStage(rules, fx).None? && TokenStage(rules, fx).None?
      <==> ModeReads(FenceOf(rules)) && forall p :: p in req.external ==> PromiseFine(FenceOf(rules), p)
  {
    hide AddressStage, TokenStage, Touched, Payable, Movable, PromisesFragment, PromiseFine, FenceOf, ModeReads;
    var fx, f := EffectsOf(req, size), FenceOf(rules);
    AddressStagePasses(rules, fx);
    TokenStagePasses(rules, fx);
    TouchedPayable(f, fx);
    FinePromises(f, req.external, |req.external|);
  }

  /** Testing the saturated total against a cap is testing the exact total, and a cap at the
      largest amount tests nothing. */
  lemma SaturatedTests(exact: nat, spent: u128, cap: u128)
    ensures Saturate(exact) > cap <==> !WithinCap(exact, cap)
    ensures SatAdd(spent, Saturate(exact)) > cap <==> !WithinCap(spent + exact, cap)
    ensures Saturate(exact) > 0 <==> exact > 0
  {
  }

  lemma PerTransactionTest(caps: Option<map<string, string>>, token: string, exact: nat)
    ensures PerTransactionRefuses(caps, token, Saturate(exact)) <==> !WithinPerTransaction(caps, token, exact)
  {
  }

  lemma WindowTest(limits: P.Limits, w: P.Window, usage: P.Usage, token: string, exact: nat)
    ensures WindowRefuses(P.Caps(limits, w), w, usage, token, Saturate(exact))
       <==> !WithinWindow(limits, w, usage, token, exact)
  {
  }

  /** The decoded totals are the exact ones, saturated, and the totals map has a key for
      every token the request moves. */
  lemma DecodedTotals(req: Request, size: nat, token: string)
    ensures EffectsOf(req, size).nativeTotal == Saturate(NativeSpent(req))
    ensures TokenTotal(EffectsOf(req, size).tokenMoves, token) == Saturate(UnitsMoved(token, req))
    ensures token in MovedTokens(EffectsOf(req, size).tokenMoves) <==> TokenMoved(token, req)
  {
    hide Sum, PromisesFragment, TokenTotal, PromiseMoves, Saturate;
    var ps := req.external;
    FragmentsNative(ps, |ps|);
    NativeOfPromises(ps, |ps|);
    UnitsOfPromises(token, ps, |ps|);
    TotalIsSaturatedSum(EffectsOf(req, size).tokenMoves, token);
    assert ps[..|ps|] == ps;
    if i :| 0 <= i < |ps| && PromiseMoves(token, ps[i]) {
      assert ps[i] in ps;
    }
  }

  lemma DecodedWindowTest(limits: P.Limits, w: P.Window, usage: P.Usage, req: Request, size: nat)
    ensures !DecodedWindowRefuses(limits, w, usage, EffectsOf(req, size)) <==> WindowMet(limits, w, usage, req)
  {
    hide WindowRefuses, WithinWindow, TokenMoved, UnitsMoved, NativeSpent, EffectsOf, TokenTotal, MovedTokens, Saturate;
    DecodedTotals(req, size, P.NATIVE);
    WindowTest(limits, w, usage, P.NATIVE, NativeSpent(req));
    SaturatedTests(NativeSpent(req), 0, 0);
    forall token
      ensures token in MovedTokens(EffectsOf(req, size).tokenMoves) <==> TokenMoved(token, req)
      ensures WindowRefuses(P.Caps(limits, w), w, usage, token, TokenTotal(EffectsOf(req, size).tokenMoves, token))
         <==> !WithinWindow(limits, w, usage, token, UnitsMoved(token, req))
    {
      DecodedTotals(req, size, token);
      WindowTest(limits, w, usage, token, UnitsMoved(token, req));
    }
  }

  lemma DecodedPerTransactionTest(limits: P.Limits, req: Request, size: nat)
    ensures !DecodedPerTransactionRefuses(limits, EffectsOf(req, size)) <==>
      && WithinPerTransaction(limits.perTransaction, P.NATIVE, NativeSpent(req))
      && forall token :: TokenMoved(token, req) ==>
           WithinPerTransaction(limits.perTransaction, token, UnitsMoved(token, req))
  {
    hide PerTransactionRefuses, WithinPerTransaction, TokenMoved, UnitsMoved, NativeSpent, EffectsOf, TokenTotal,
         MovedTokens, Saturate;
    DecodedTotals(req, size, P.NATIVE);
    PerTransactionTest(limits.perTransaction, P.NATIVE, NativeSpent(req));
    forall token
      ensures token in MovedTokens(EffectsOf(req, size).tokenMoves) <==> TokenMoved(token, req)
      ensures PerTransactionRefuses(limits.perTransaction, token, TokenTotal(EffectsOf(req, size).tokenMoves, token))
         <==> !WithinPerTransaction(limits.perTransaction, token, UnitsMoved(token, req))
    {
      DecodedTotals(req, size, token);
      PerTransactionTest(limits.perTransaction, token, UnitsMoved(token, req));
    }
  }

  lemma LimitsPass(limits: P.Limits, rules: P.Rules, usage: Option<P.Usage>, req: Request, size: nat)
    requires rules.limits == Some(limits)
    ensures LimitStage(Some(rules), EffectsOf(req, size), usage).None? <==> SumsMeet(limits, usage, req)
  {
    hide DecodedPerTransactionRefuses, DecodedWindowRefuses, WithinPerTransaction, WindowMet, EffectsOf, TokenMoved,
         UnitsMoved, NativeSpent;
    DecodedPerTransactionTest(limits, req, size);
    if usage.Some? {
      DecodedWindowTest(limits, P.Daily, usage.value, req, size);
      DecodedWindowTest(limits, P.Hourly, usage.value, req, size);
      DecodedWindowTest(limits, P.Monthly, usage.value, req, size);
      forall w | WindowMet(limits, P.Daily, usage.value, req) && WindowMet(limits, P.Hourly, usage.value, req)
                 && WindowMet(limits, P.Monthly, usage.value, req)
        ensures WindowMet(limits, w, usage.value, req)
      {
        match w {
          case Daily =>
          case Hourly =>
          case Monthly =>
        }
      }
    }
  }

  /** The door lets a call through exactly when its request meets the rule. */
  lemma DoorIsExact(rules: Option<P.Rules>, req: Request, size: nat, usage: Option<P.Usage>)
    ensures ExtensionStage(rules, P.Body(req, size), usage).None? <==> RequestPermitted(rules, req, usage)
  {
    hide AddressStage, TokenStage, LimitStage, PromiseFine, SumsMeet, PromisesFragment, RequestReadable;
    FencesPass(rules, req, size);
    if rules.Some? && rules.value.limits.Some? {
      LimitsPass(rules.value.limits.value, rules.value, usage, req, size);
    } else {
      NoLimits(rules, EffectsOf(req, size), usage);
    }
  }

  lemma NoLimits(rules: Option<P.Rules>, fx: EffectsSet, usage: Option<P.Usage>)
    requires rules.None? || rules.value.limits.None?
    ensures LimitStage(rules, fx, usage).None?
  {
  }
}
