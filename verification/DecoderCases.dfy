/** What the decoder's record says of requests spelled out field by field. Nothing here goes
    through the readings and sums the record is specified with. */
module DecoderCases {
  import opened Common
  import opened Json
  import opened Request
  import opened Effects
  import Extension

  // ---------------------------------------------------------------------------
  // Totals, one action at a time
  // ---------------------------------------------------------------------------

  function Capped(n: nat): nat {
    if n > 340282366920938463463374607431768211455 then 340282366920938463463374607431768211455 else n
  }

  function Capped64(n: nat): nat {
    if n > 18446744073709551615 then 18446744073709551615 else n
  }

  /** An action that carries `n` yocto and `g` gas, as spelled. */
  predicate Spells(a: Action, n: u128, g: u64) {
    match a
    case Transfer(amount) => amount == ToDecimal(n) && g == 0
    case StateInit(deposit) => deposit == ToDecimal(n) && g == 0
    case Call(fc) => fc.deposit == ToDecimal(n) && fc.gas == ToDecimal(g)
  }

  function GasUpTo(actions: seq<Action>, k: nat): nat
    requires k <= |actions|
  {
    if k == 0 then 0 else GasUpTo(actions, k - 1) + GasOf(actions[k - 1])
  }

  lemma {:induction false} FragmentGas(i: nat, p: NearPromise, k: nat)
    requires k <= |p.actions|
    ensures ActionsFragment(i, p, k).gas == GasUpTo(p.actions, k)
  {
    hide NativeOf, Classify;
    if k > 0 {
      FragmentGas(i, p, k - 1);
    }
  }

  lemma {:induction false} SamePrefix(actions: seq<Action>, a: Action, k: nat)
    requires k <= |actions|
    ensures NativeUpTo(actions + [a], k) == NativeUpTo(actions, k)
    ensures GasUpTo(actions + [a], k) == GasUpTo(actions, k)
  {
    hide NativeOf, GasOf;
    if k > 0 {
      SamePrefix(actions, a, k - 1);
    }
  }

  lemma {:induction false} SamePromises(ps: seq<NearPromise>, p: NearPromise, n: nat)
    requires n <= |ps|
    ensures PromisesFragment(ps + [p], n) == PromisesFragment(ps, n)
  {
    hide PromiseFragment, Join;
    if n > 0 {
      SamePromises(ps, p, n - 1);
    }
  }

  lemma FragmentTotals(i: nat, p: NearPromise)
    ensures PromiseFragment(i, p).native == PromiseNative(p)
    ensures PromiseFragment(i, p).gas == GasUpTo(p.actions, |p.actions|)
  {
    hide ActionsFragment;
    PromiseFragmentNative(i, p);
    FragmentGas(i, p, |p.actions|);
  }

  /** The totals of a request with one promise more. */
  lemma LastPromise(ops: seq<WalletOp>, ps: seq<NearPromise>, p: NearPromise, size: nat)
    ensures
      var f, fx := PromisesFragment(ps, |ps|), EffectsOf(Request(ops, ps + [p]), size);
      && fx.nativeTotal == Capped(f.native + PromiseNative(p))
      && fx.totalGas == Capped64(f.gas + GasUpTo(p.actions, |p.actions|))
      && |fx.nativePerPromise| == |ps| + 1
      && fx.nativePerPromise[|ps|] == Capped(PromiseNative(p))
      && forall i :: 0 <= i < |ps| ==> fx.nativePerPromise[i] == Capped(PromiseNative(ps[i]))
  {
    hide PromiseFragment, PromiseNative, GasUpTo;
    SamePromises(ps, p, |ps|);
    FragmentTotals(|ps|, p);
  }

  lemma SpelledFigures(a: Action, n: u128, g: u64)
    requires Spells(a, n, g)
    ensures NativeOf(a) == n && GasOf(a) == g
  {
    hide ToDecimal, ParseU128, ParseU64;
    DecimalRoundTrip(n);
    DecimalRoundTrip64(g);
  }

  /** One action more, be it a transfer, a state init or a call, adds the yocto and the gas it
      spells to its promise and to the request, up to the largest figures. */
  lemma NextActionAdds(ops: seq<WalletOp>, ps: seq<NearPromise>, p: NearPromise, a: Action, n: u128, g: u64, size: nat)
    requires Spells(a, n, g)
    ensures
      var was := EffectsOf(Request(ops, ps + [p]), size);
      var fx := EffectsOf(Request(ops, ps + [p.(actions := p.actions + [a])]), size);
      && |was.nativePerPromise| == |ps| + 1
      && fx.nativeTotal == Capped(was.nativeTotal + n)
      && fx.nativePerPromise == was.nativePerPromise[|ps| := Capped(was.nativePerPromise[|ps|] + n)]
      && fx.totalGas == Capped64(was.totalGas + g)
  {
    hide EffectsOf, PromisesFragment, Spells, NativeOf, GasOf;
    SpelledFigures(a, n, g);
    LastPromise(ops, ps, p, size);
    LastPromise(ops, ps, p.(actions := p.actions + [a]), size);
    SamePrefix(p.actions, a, |p.actions|);
  }

  /** A promise without actions adds nothing; no promises carry nothing. */
  lemma EmptyPromiseAdds(ops: seq<WalletOp>, ps: seq<NearPromise>, receiver: string, refundTo: Option<string>, size: nat)
    ensures
      var was := EffectsOf(Request(ops, ps), size);
      var fx := EffectsOf(Request(ops, ps + [NearPromise(receiver, refundTo, [])]), size);
      && fx.nativeTotal == was.nativeTotal && fx.totalGas == was.totalGas
      && fx.nativePerPromise == was.nativePerPromise + [0]
    ensures
      var fx := EffectsOf(Request(ops, []), size);
      fx.nativeTotal == 0 && fx.totalGas == 0 && fx.nativePerPromise == []
  {
    hide PromiseFragment;
    SamePromises(ps, NearPromise(receiver, refundTo, []), |ps|);
    FragmentTotals(|ps|, NearPromise(receiver, refundTo, []));
  }

  /** A state init alone carries its deposit. */
  lemma StateInitIsSpent(receiver: string, n: u128, size: nat)
    ensures EffectsOf(Request([], [NearPromise(receiver, None, [StateInit(ToDecimal(n))])]), size).nativeTotal == n
  {
    hide EffectsOf, ToDecimal;
    EmptyPromiseAdds([], [], receiver, None, size);
    NextActionAdds([], [], NearPromise(receiver, None, []), StateInit(ToDecimal(n)), n, 0, size);
    assert [] + [StateInit(ToDecimal(n))] == [StateInit(ToDecimal(n))];
    assert [] + [NearPromise(receiver, None, [])] == [NearPromise(receiver, None, [])];
    assert [] + [NearPromise(receiver, None, [StateInit(ToDecimal(n))])]
        == [NearPromise(receiver, None, [StateInit(ToDecimal(n))])];
  }

  // ---------------------------------------------------------------------------
  // Where the calls are, and what does not read
  // ---------------------------------------------------------------------------

  /** The call promises are the promises with a call anywhere among their actions. */
  lemma CallPromisesHoldCalls(req: Request, size: nat, i: nat)
    ensures i in EffectsOf(req, size).callPromises
       <==> i < |req.external| && exists k :: 0 <= k < |req.external[i].actions| && req.external[i].actions[k].Call?
  {
    hide PromisesFragment;
    CallPromisesAre(req.external, |req.external|, i);
  }

  /** A request reads when every amount, deposit and gas figure in it does. */
  lemma EveryFigureReads(req: Request)
    ensures RequestReadable(req) <==>
      forall i, k :: 0 <= i < |req.external| && 0 <= k < |req.external[i].actions| ==>
        match req.external[i].actions[k]
        case Transfer(amount) => ParseU128(amount).Some?
        case StateInit(deposit) => ParseU128(deposit).Some?
        case Call(fc) => ParseU128(fc.deposit).Some? && ParseU64(fc.gas).Some?
  {
    hide ParseU128, ParseU64;
  }

  /** Control operations are recorded by their wire names. */
  lemma ControlOpsAreNamed(added: string, removed: string, enable: bool, ps: seq<NearPromise>, size: nat)
    ensures
      var fx := EffectsOf(Request([SetSignatureMode(enable), AddExtension(added), RemoveExtension(removed)], ps), size);
      fx.hasInternal && fx.internalOps == ["set_signature_mode", "add_extension", "remove_extension"]
    ensures !EffectsOf(Request([], ps), size).hasInternal && EffectsOf(Request([], ps), size).requestSize == size
  {
    hide PromisesFragment;
  }

  // ---------------------------------------------------------------------------
  // One call
  // ---------------------------------------------------------------------------

  function OneCall(receiver: string, name: string, args: CallArgs, d: u128, g: u64): Request {
    Request([], [NearPromise(receiver, None, [Call(FunctionCall(name, args, ToDecimal(d), ToDecimal(g)))])])
  }

  /** The record of one call standing alone, but for what its arguments say. */
  predicate RecordsOneCall(fx: EffectsSet, receiver: string, d: u128, g: u64) {
    && fx.receivers == [receiver] && fx.callPromises == [0] && fx.actionCount == 1
    && fx.nativeTotal == d && fx.nativePerPromise == [d] && fx.totalGas == g
    && fx.refundTos == [] && fx.plainTransfers == [] && fx.stateInits == [] && fx.internalOps == []
    && CallNotStandalone(0) !in fx.shapeFacts
    && (CallDepositNotOneYocto(0, d) in fx.shapeFacts <==> d != 1)
  }

  lemma NothingJoined(f: Fragment)
    ensures Join(NOTHING, f) == f
  {
  }

  /** A request of one promise with one action contributes that action's fragment. */
  lemma OneActionFragment(p: NearPromise)
    requires |p.actions| == 1 && p.refundTo.None?
    ensures PromisesFragment([p], 1) == ActionFragment(0, p, 0)
  {
    hide ActionFragment, Join;
    NothingJoined(NOTHING);
    NothingJoined(ActionFragment(0, p, 0));
    assert ActionsFragment(0, p, 0) == NOTHING;
    assert ActionsFragment(0, p, 1) == Join(NOTHING, ActionFragment(0, p, 0));
    assert PromisesFragment([p], 0) == NOTHING;
    assert PromisesFragment([p], 1) == Join(NOTHING, PromiseFragment(0, p));
  }

  lemma OneCallSite(receiver: string, name: string, args: CallArgs, d: u128, g: u64)
    ensures
      var p := OneCall(receiver, name, args, d, g).external[0];
      SiteOf(0, p, 0) == CallSite(0, receiver, true, true, name, d, g, Classify(p.actions[0].fc))
  {
    hide ToDecimal, ParseU128, ParseU64, Classify;
    SpelledFigures(OneCall(receiver, name, args, d, g).external[0].actions[0], d, g);
  }

  lemma OneCallFacts(c: CallSite)
    requires c.alone && c.i == 0
    ensures CallNotStandalone(0) !in CallFacts(c)
    ensures CallDepositNotOneYocto(0, c.deposit) in CallFacts(c) <==> c.deposit != 1
  {
  }

  lemma OnePromiseRecord(p: NearPromise, size: nat)
    requires |p.actions| == 1
    ensures
      var fx, f := EffectsOf(Request([], [p]), size), PromisesFragment([p], 1);
      && fx.receivers == [p.receiver] && fx.actionCount == 1 && fx.internalOps == []
      && fx.nativeTotal == Saturate(f.native) && fx.nativePerPromise == [Saturate(PromiseNative(p))]
      && fx.totalGas == Saturate64(f.gas)
      && fx.refundTos == f.refunds && fx.plainTransfers == f.transfers && fx.stateInits == f.inits
      && fx.callPromises == f.calls && fx.shapeFacts == f.facts
      && fx.tokenMoves == f.moves && fx.storageRegistrations == f.registrations && fx.unknownFundMoving == f.unknowns
  {
    hide PromisesFragment, PromiseNative, Saturate, Saturate64;
    var req := Request([], [p]);
    assert Receivers(req.external, 1) == [p.receiver];
    assert ActionCount(req.external, 0) == 0;
  }

  lemma OneCallRecord(receiver: string, name: string, args: CallArgs, d: u128, g: u64, size: nat)
    ensures
      var req := OneCall(receiver, name, args, d, g);
      var fx, p := EffectsOf(req, size), req.external[0];
      var f := CallFragment(SiteOf(0, p, 0));
      && RecordsOneCall(fx, receiver, d, g)
      && fx.tokenMoves == f.moves && fx.storageRegistrations == f.registrations && fx.unknownFundMoving == f.unknowns
      && fx.shapeFacts == f.facts
      && SiteOf(0, p, 0) == CallSite(0, receiver, true, true, name, d, g, Classify(p.actions[0].fc))
  {
    hide ToDecimal, ParseU128, ParseU64, Classify, CallFacts, PromisesFragment, EffectsOf, SiteOf;
    var p := OneCall(receiver, name, args, d, g).external[0];
    OneCallSite(receiver, name, args, d, g);
    OneCallFacts(SiteOf(0, p, 0));
    OneActionFragment(p);
    OnePromiseRecord(p, size);
    SpelledFigures(p.actions[0], d, g);
    assert NativeUpTo(p.actions, 0) == 0;
  }

  lemma {:induction false} KeysOutsideAre(entries: seq<Entry>, known: seq<string>, k: string)
    ensures k in KeysOutside(entries, known) <==> k !in known && exists e :: e in entries && e.key == k
  {
    if entries != [] {
      KeysOutsideAre(entries[1..], known, k);
      assert forall e :: e in entries <==> e == entries[0] || e in entries[1..];
    }
  }

  /** The record names a key that the token standards do not know. */
  predicate NamesExtra(fx: EffectsSet, k: string) {
    TokenArgsUnknownField(0, k) in fx.shapeFacts
  }

  lemma ExtrasAre(fx: EffectsSet, fields: seq<string>, facts: seq<ShapeFact>, k: string)
    requires fx.shapeFacts == facts + ExtraFieldFacts(0, fields)
    requires forall x :: x in facts ==> !x.TokenArgsUnknownField?
    ensures NamesExtra(fx, k) <==> k in fields
  {
    if k in fields {
      var j :| 0 <= j < |fields| && fields[j] == k;
      assert ExtraFieldFacts(0, fields)[j] == TokenArgsUnknownField(0, k);
    }
  }

  /** An `ft_transfer` moves the named units to the named receiver; a memo is known, any other
      key is not. */
  lemma FtTransferRecorded(token: string, entries: seq<Entry>, recipient: string, n: u128, d: u128, g: u64, size: nat,
                           k: string)
    requires Once(entries, "receiver_id", Str(recipient)) && Once(entries, "amount", Str(ToDecimal(n)))
    ensures
      var fx := EffectsOf(OneCall(token, "ft_transfer", Parsed(Obj(entries)), d, g), size);
      && RecordsOneCall(fx, token, d, g)
      && fx.tokenMoves == [TokenMove(0, token, recipient, Fungible(n), "ft_transfer")]
      && fx.storageRegistrations == [] && fx.unknownFundMoving == []
      && NftApprovalIdSet(0) !in fx.shapeFacts
      && (NamesExtra(fx, k) <==> k !in {"receiver_id", "amount", "memo"} && exists e :: e in entries && e.key == k)
  {
    hide ToDecimal, ParseU128, Lookup, Occurrences, KeysOutside, SiteOf, EffectsOf, RecordsOneCall, Once, NamesExtra;
    OnceReads(entries, "receiver_id", Str(recipient));
    OnceReads(entries, "amount", Str(ToDecimal(n)));
    DecimalRoundTrip(n);
    OneCallRecord(token, "ft_transfer", Parsed(Obj(entries)), d, g, size);
    KeysOutsideAre(entries, FT_FIELDS, k);
    var fx := EffectsOf(OneCall(token, "ft_transfer", Parsed(Obj(entries)), d, g), size);
    var facts := if d != 1 then [CallDepositNotOneYocto(0, d)] else [];
    assert [] + facts + [] == facts;
    ExtrasAre(fx, KeysOutside(entries, FT_FIELDS), facts, k);
  }

  /** An `nft_transfer` moves the named item; an approval is set when it is there and not null. */
  lemma NftTransferRecorded(token: string, entries: seq<Entry>, recipient: string, id: string, d: u128, g: u64, size: nat,
                            k: string)
    requires Once(entries, "receiver_id", Str(recipient)) && Once(entries, "token_id", Str(id))
    requires Lacks(entries, "approval_id") || exists v :: Once(entries, "approval_id", v)
    ensures
      var fx := EffectsOf(OneCall(token, "nft_transfer", Parsed(Obj(entries)), d, g), size);
      && RecordsOneCall(fx, token, d, g)
      && fx.tokenMoves == [TokenMove(0, token, recipient, Item(id), "nft_transfer")]
      && fx.storageRegistrations == [] && fx.unknownFundMoving == []
      && (NftApprovalIdSet(0) in fx.shapeFacts <==> exists e :: e in entries && e.key == "approval_id" && e.value != Null)
      && (NamesExtra(fx, k) <==>
            k !in {"receiver_id", "token_id", "approval_id", "memo"} && exists e :: e in entries && e.key == k)
  {
    hide ToDecimal, ParseU128, Lookup, Occurrences, KeysOutside, SiteOf, EffectsOf, RecordsOneCall, NamesExtra, Once, Lacks;
    OnceReads(entries, "receiver_id", Str(recipient));
    OnceReads(entries, "token_id", Str(id));
    ApprovalReads(entries);
    OneCallRecord(token, "nft_transfer", Parsed(Obj(entries)), d, g, size);
    KeysOutsideAre(entries, NFT_FIELDS, k);
    var fx := EffectsOf(OneCall(token, "nft_transfer", Parsed(Obj(entries)), d, g), size);
    var set_ := exists e :: e in entries && e.key == "approval_id" && e.value != Null;
    var facts := (if d != 1 then [CallDepositNotOneYocto(0, d)] else []) + (if set_ then [NftApprovalIdSet(0)] else []);
    assert fx.shapeFacts == facts + ExtraFieldFacts(0, KeysOutside(entries, NFT_FIELDS));
    ExtrasAre(fx, KeysOutside(entries, NFT_FIELDS), facts, k);
  }

  lemma ApprovalReads(entries: seq<Entry>)
    requires Lacks(entries, "approval_id") || exists v :: Once(entries, "approval_id", v)
    ensures Occurrences(entries, "approval_id") <= 1
    ensures (Lookup(entries, "approval_id").Some? && Lookup(entries, "approval_id").value != Null)
       <==> exists e :: e in entries && e.key == "approval_id" && e.value != Null
  {
    hide Lookup, Occurrences;
    LackingReads(entries, "approval_id");
    if v :| Once(entries, "approval_id", v) {
      OnceReads(entries, "approval_id", v);
    }
  }

  /** A `storage_deposit` registers whom it names, and the caller when it names nobody. */
  lemma StorageDepositRecorded(token: string, entries: seq<Entry>, account: string, d: u128, g: u64, size: nat)
    ensures
      var named := EffectsOf(OneCall(token, "storage_deposit", Parsed(Obj(entries)), d, g), size);
      && RecordsOneCall(named, token, d, g) && named.tokenMoves == []
      && (Once(entries, "account_id", Str(account)) ==>
            named.storageRegistrations == [StorageRegistration(0, token, Some(account), d)] && named.unknownFundMoving == [])
      && (Once(entries, "account_id", Null) || Lacks(entries, "account_id") ==>
            named.storageRegistrations == [StorageRegistration(0, token, None, d)] && named.unknownFundMoving == [])
    ensures
      var bare := EffectsOf(OneCall(token, "storage_deposit", NoBytes, d, g), size);
      && RecordsOneCall(bare, token, d, g) && bare.tokenMoves == [] && bare.unknownFundMoving == []
      && bare.storageRegistrations == [StorageRegistration(0, token, None, d)]
  {
    hide ToDecimal, ParseU128, Lookup, Occurrences, KeysOutside, SiteOf, EffectsOf, RecordsOneCall, Once, Lacks;
    OneCallRecord(token, "storage_deposit", Parsed(Obj(entries)), d, g, size);
    OneCallRecord(token, "storage_deposit", NoBytes, d, g, size);
    LackingReads(entries, "account_id");
    if Once(entries, "account_id", Str(account)) {
      OnceReads(entries, "account_id", Str(account));
    }
    if Once(entries, "account_id", Null) {
      OnceReads(entries, "account_id", Null);
    }
  }

  /** Every other call cannot be stated: one that forwards value, one of no known meaning, one
      whose arguments did not decode, lack a field, hold it twice or hold no amount. */
  lemma UnstatableRecorded(token: string, name: string, args: CallArgs, d: u128, g: u64, size: nat)
    requires
      || args.NotBase64?
      || name !in {"ft_transfer", "nft_transfer", "storage_deposit"}
      || (name != "storage_deposit" && (args.NoBytes? || args.NotJson?))
      || (args.Parsed? && args.value.Obj? && name == "ft_transfer"
          && (Lacks(args.value.entries, "receiver_id") || Lacks(args.value.entries, "amount")))
      || (args.Parsed? && args.value.Obj? && name == "nft_transfer"
          && (Lacks(args.value.entries, "receiver_id") || Lacks(args.value.entries, "token_id")))
    ensures
      var fx := EffectsOf(OneCall(token, name, args, d, g), size);
      && RecordsOneCall(fx, token, d, g) && fx.tokenMoves == [] && fx.storageRegistrations == []
      && fx.unknownFundMoving
         == [UnknownCall(0, token, name, d,
                         if args.NotBase64? then BadBase64
                         else if name == "ft_transfer" then FtArguments
                         else if name == "nft_transfer" then NftArguments
                         else if name == "ft_transfer_call" then ForwardsValue else NoSemantics)]
  {
    hide ToDecimal, ParseU128, Lookup, Occurrences, KeysOutside, SiteOf, EffectsOf, RecordsOneCall, Lacks;
    OneCallRecord(token, name, args, d, g, size);
    if args.Parsed? && args.value.Obj? {
      LackingReads(args.value.entries, "receiver_id");
      LackingReads(args.value.entries, "amount");
      LackingReads(args.value.entries, "token_id");
    }
    assert Classify(FunctionCall(name, args, ToDecimal(d), ToDecimal(g))).Unstatable?;
  }

  /** An `ft_transfer` whose amount is no figure cannot be stated for its amount. */
  lemma UnreadAmountRecorded(token: string, entries: seq<Entry>, recipient: string, amount: string, d: u128, g: u64,
                             size: nat)
    requires Once(entries, "receiver_id", Str(recipient)) && Once(entries, "amount", Str(amount)) && ParseU128(amount).None?
    ensures EffectsOf(OneCall(token, "ft_transfer", Parsed(Obj(entries)), d, g), size).unknownFundMoving
         == [UnknownCall(0, token, "ft_transfer", d, FtAmount)]
  {
    hide ToDecimal, ParseU128, Lookup, Occurrences, KeysOutside, SiteOf, EffectsOf, RecordsOneCall, Once;
    OnceReads(entries, "receiver_id", Str(recipient));
    OnceReads(entries, "amount", Str(amount));
    OneCallRecord(token, "ft_transfer", Parsed(Obj(entries)), d, g, size);
  }

  /** One transfer and one state init, each recorded as what it is; a refund target is recorded
      with its promise. */
  lemma PlainActionsRecorded(receiver: string, n: u128, size: nat)
    ensures
      var fx := EffectsOf(Request([], [NearPromise(receiver, None, [Transfer(ToDecimal(n))])]), size);
      && fx.receivers == [receiver] && fx.plainTransfers == [(0, n)] && fx.stateInits == [] && fx.callPromises == []
      && fx.refundTos == [] && fx.shapeFacts == [] && fx.tokenMoves == [] && fx.actionCount == 1
    ensures
      var fx := EffectsOf(Request([], [NearPromise(receiver, None, [StateInit(ToDecimal(n))])]), size);
      && fx.receivers == [receiver] && fx.plainTransfers == [] && fx.stateInits == [0] && fx.callPromises == []
      && fx.refundTos == [] && fx.shapeFacts == [] && fx.tokenMoves == [] && fx.actionCount == 1
  {
    hide ToDecimal, ParseU128, EffectsOf, PromisesFragment;
    var paid, made := NearPromise(receiver, None, [Transfer(ToDecimal(n))]), NearPromise(receiver, None, [StateInit(ToDecimal(n))]);
    DecimalRoundTrip(n);
    OneActionFragment(paid);
    OneActionFragment(made);
    OnePromiseRecord(paid, size);
    OnePromiseRecord(made, size);
  }

  lemma RefundRecorded(receiver: string, refundTo: string, size: nat)
    ensures
      var fx := EffectsOf(Request([], [NearPromise(receiver, Some(refundTo), [])]), size);
      fx.refundTos == [(0, refundTo)] && fx.shapeFacts == [RefundToSet(0)]
  {
    var ps := [NearPromise(receiver, Some(refundTo), [])];
    assert PromisesFragment(ps, 0) == NOTHING;
    assert ActionsFragment(0, ps[0], 0) == NOTHING;
    assert PromisesFragment(ps, 1) == Join(NOTHING, PromiseFragment(0, ps[0]));
  }

  /** A field spelled twice leaves the arguments unread. */
  lemma RepeatedFieldIsUnread(entries: seq<Entry>, i: nat, j: nat)
    requires i < j < |entries| && entries[i].key == entries[j].key
    ensures entries[i].key in {"receiver_id", "amount"} ==> ReadFt(Parsed(Obj(entries))).None?
    ensures entries[i].key in {"receiver_id", "token_id", "approval_id"} ==> ReadNft(Parsed(Obj(entries))).None?
    ensures entries[i].key == "account_id" ==> ReadStorage(Parsed(Obj(entries))).None?
  {
    hide Occurrences, Lookup;
    TwiceCounts(entries, entries[i].key, i, j);
  }
}
