/** What the extension door makes of one call or one promise under one rule, by the arguments'
    own fields. */
module ExtensionCases {
  import opened Common
  import opened Json
  import opened Request
  import P = Policy
  import opened Evaluation
  import opened Extension
  import opened OperationCases
  import opened DecoderCases
  import Invariance

  /** The door's answer to a request under these rules alone. */
  predicate LetsThrough(rules: P.Rules, req: Request, size: nat, usage: Option<P.Usage>) {
    ExtensionStage(Some(rules), P.Body(req, size), usage) == None
  }

  /** What the door does not let through it denies. */
  lemma TheDoorDenies(rules: P.Rules, req: Request, size: nat, usage: Option<P.Usage>)
    ensures !LetsThrough(rules, req, size, usage) ==>
      exists gate :: ExtensionStage(Some(rules), P.Body(req, size), usage) == Some(Deny(gate))
  {
    hide ExtensionStage;
    Invariance.DoorDenies(Some(rules), P.Body(req, size), usage);
    if !LetsThrough(rules, req, size, usage) {
      var decision := ExtensionStage(Some(rules), P.Body(req, size), usage).value;
      assert ExtensionStage(Some(rules), P.Body(req, size), usage) == Some(Deny(decision.gate));
    }
  }

  function OnlyAddresses(a: P.Addresses): P.Rules { NO_RULES.(addresses := Some(a)) }

  function OnlyTokens(tokens: seq<string>): P.Rules { NO_RULES.(allowedTokens := Some(tokens)) }

  lemma OnePromisePasses(rules: P.Rules, p: NearPromise, size: nat, usage: Option<P.Usage>)
    requires rules.limits.None?
    ensures LetsThrough(rules, Request([], [p]), size, usage) <==>
      && RequestReadable(Request([], [p])) && ModeReads(FenceOf(Some(rules))) && PromiseFine(FenceOf(Some(rules)), p)
  {
    hide ExtensionStage, PromiseFine, RequestReadable;
    DoorIsExact(Some(rules), Request([], [p]), size, usage);
  }

  lemma PayableIsTaken(a: P.Addresses, dest: string)
    ensures ModeReads(FenceOf(Some(OnlyAddresses(a)))) && Payable(FenceOf(Some(OnlyAddresses(a))), dest) <==> Takes(a, dest)
  {
    hide Takes, ModeAllows, ModeOf;
    TakesAre(a, dest);
  }

  lemma OneCallReads(receiver: string, name: string, args: CallArgs, d: u128, g: u64)
    ensures RequestReadable(OneCall(receiver, name, args, d, g))
    ensures OneCall(receiver, name, args, d, g).external[0].refundTo.None?
  {
    hide ToDecimal, ParseU128, ParseU64;
    DecimalRoundTrip(d);
    DecimalRoundTrip64(g);
  }

  lemma OneCallIsFine(f: Fence, receiver: string, name: string, args: CallArgs, d: u128, g: u64)
    ensures
      var req := OneCall(receiver, name, args, d, g);
      PromiseFine(f, req.external[0])
      <==> Payable(f, receiver) && CallFine(f, receiver, FunctionCall(name, args, ToDecimal(d), ToDecimal(g)))
  {
    hide CallFine, Payable;
    var p := OneCall(receiver, name, args, d, g).external[0];
    assert p.actions[0] in p.actions;
  }

  /** A storage registration pays whom it names: the addresses must take the contract and the
      named account both. */
  lemma BeneficiaryIsPaid(a: P.Addresses, token: string, entries: seq<Entry>, account: string, d: u128, g: u64, size: nat,
                          usage: Option<P.Usage>)
    requires Once(entries, "account_id", Str(account))
    ensures LetsThrough(OnlyAddresses(a), OneCall(token, "storage_deposit", Parsed(Obj(entries)), d, g), size, usage)
       <==> Takes(a, token) && Takes(a, account)
  {
    hide Takes, LetsThrough, OneCall, PromiseFine, RequestReadable, Payable, ModeReads, Lookup, Occurrences, Once,
         OnlyAddresses;
    OnceReads(entries, "account_id", Str(account));
    OneCallPasses(a, token, "storage_deposit", Parsed(Obj(entries)), d, g, size, usage);
    PayableIsTaken(a, token);
    PayableIsTaken(a, account);
  }

  lemma OneCallPasses(a: P.Addresses, token: string, name: string, args: CallArgs, d: u128, g: u64, size: nat,
                      usage: Option<P.Usage>)
    ensures
      var f := FenceOf(Some(OnlyAddresses(a)));
      LetsThrough(OnlyAddresses(a), OneCall(token, name, args, d, g), size, usage) <==>
        ModeReads(f) && Payable(f, token) && CallFine(f, token, FunctionCall(name, args, ToDecimal(d), ToDecimal(g)))
    ensures FenceOf(Some(OnlyAddresses(a))).tokens.None?
  {
    hide LetsThrough, PromiseFine, RequestReadable, Payable, ModeReads, CallFine;
    var p := OneCall(token, name, args, d, g).external[0];
    OneCallReads(token, name, args, d, g);
    OnePromisePasses(OnlyAddresses(a), p, size, usage);
    OneCallIsFine(FenceOf(Some(OnlyAddresses(a))), token, name, args, d, g);
  }

  /** The beneficiary case spelled out: a whitelist that holds the contract and not the named
      account denies the registration. */
  lemma UnlistedBeneficiaryIsDenied(list: seq<string>, token: string, entries: seq<Entry>, account: string, d: u128, g: u64,
                                    size: nat, usage: Option<P.Usage>)
    requires Once(entries, "account_id", Str(account)) && token in list && account !in list && !EvmShaped(account)
    ensures exists gate ::
      ExtensionStage(Some(OnlyAddresses(P.Addresses(Some("whitelist"), list))),
                     P.Body(OneCall(token, "storage_deposit", Parsed(Obj(entries)), d, g), size), usage) == Some(Deny(gate))
  {
    hide LetsThrough, OneCall, Once, EvmShaped, ExtensionStage;
    var a := P.Addresses(Some("whitelist"), list);
    BeneficiaryIsPaid(a, token, entries, account, d, g, size, usage);
    assert !Takes(a, account);
    TheDoorDenies(OnlyAddresses(a), OneCall(token, "storage_deposit", Parsed(Obj(entries)), d, g), size, usage);
  }

  /** A token transfer pays its decoded recipient, and the contract it calls. */
  lemma RecipientIsPaid(a: P.Addresses, token: string, entries: seq<Entry>, recipient: string, n: u128, id: string, d: u128,
                        g: u64, size: nat, usage: Option<P.Usage>)
    requires Once(entries, "receiver_id", Str(recipient))
    ensures Once(entries, "amount", Str(ToDecimal(n))) ==>
      (LetsThrough(OnlyAddresses(a), OneCall(token, "ft_transfer", Parsed(Obj(entries)), d, g), size, usage)
       <==> Takes(a, token) && Takes(a, recipient))
    ensures Once(entries, "token_id", Str(id)) && Lacks(entries, "approval_id") ==>
      (LetsThrough(OnlyAddresses(a), OneCall(token, "nft_transfer", Parsed(Obj(entries)), d, g), size, usage)
       <==> Takes(a, token) && Takes(a, recipient))
  {
    hide Takes, LetsThrough, OneCall, Payable, ModeReads, Lookup, Occurrences, Once, Lacks, OnlyAddresses, ToDecimal, ParseU128;
    DecimalRoundTrip(n);
    OnceReads(entries, "receiver_id", Str(recipient));
    LackingReads(entries, "approval_id");
    if Once(entries, "amount", Str(ToDecimal(n))) {
      OnceReads(entries, "amount", Str(ToDecimal(n)));
    }
    if Once(entries, "token_id", Str(id)) {
      OnceReads(entries, "token_id", Str(id));
    }
    OneCallPasses(a, token, "ft_transfer", Parsed(Obj(entries)), d, g, size, usage);
    OneCallPasses(a, token, "nft_transfer", Parsed(Obj(entries)), d, g, size, usage);
    PayableIsTaken(a, token);
    PayableIsTaken(a, recipient);
  }

  /** A promise without calls pays its receiver, and its refund target when it names one. */
  lemma ReceiverIsPaid(a: P.Addresses, receiver: string, refundTo: Option<string>, n: u128, size: nat,
                       usage: Option<P.Usage>)
    ensures LetsThrough(OnlyAddresses(a), Request([], [NearPromise(receiver, refundTo, [Transfer(ToDecimal(n))])]), size, usage)
       <==> Takes(a, receiver) && (refundTo.Some? ==> Takes(a, refundTo.value))
    ensures LetsThrough(OnlyAddresses(a), Request([], [NearPromise(receiver, refundTo, [StateInit(ToDecimal(n))])]), size, usage)
       <==> Takes(a, receiver) && (refundTo.Some? ==> Takes(a, refundTo.value))
  {
    hide Takes, LetsThrough, Payable, ModeReads, OnlyAddresses, ToDecimal, ParseU128;
    OnlyAddressesLimits(a);
    DecimalRoundTrip(n);
    OnePromisePasses(OnlyAddresses(a), NearPromise(receiver, refundTo, [Transfer(ToDecimal(n))]), size, usage);
    OnePromisePasses(OnlyAddresses(a), NearPromise(receiver, refundTo, [StateInit(ToDecimal(n))]), size, usage);
    PayableIsTaken(a, receiver);
    if refundTo.Some? {
      PayableIsTaken(a, refundTo.value);
    }
  }

  lemma OnlyAddressesLimits(a: P.Addresses)
    ensures OnlyAddresses(a).limits.None?
  {
  }

  lemma {:induction false} FirstRefusedOf(a: P.Addresses, mode: Mode, xs: seq<(nat, string)>, ys: seq<(nat, string)>)
    ensures FirstRefusedAddress(a, mode, xs + ys)
         == if FirstRefusedAddress(a, mode, xs).Some? then FirstRefusedAddress(a, mode, xs)
            else FirstRefusedAddress(a, mode, ys)
  {
    hide ModeAllows;
    if xs == [] {
      assert xs + ys == ys;
    } else {
      FirstRefusedOf(a, mode, xs[1..], ys);
      assert (xs + ys)[1..] == xs[1..] + ys;
    }
  }

  lemma {:induction false} FirstRefusedIs(a: P.Addresses, mode: Mode, xs: seq<(nat, string)>, k: nat)
    requires k < |xs| && !ModeAllows(a, mode, xs[k].1) && forall j :: 0 <= j < k ==> ModeAllows(a, mode, xs[j].1)
    ensures FirstRefusedAddress(a, mode, xs) == Some(xs[k].0)
  {
    hide ModeAllows;
    if k > 0 {
      FirstRefusedIs(a, mode, xs[1..], k - 1);
    }
  }

  /** The denial names the first receiver the addresses do not take, whatever else they do not
      take, and behind that the first refund target. */
  lemma FirstRefusedIsNamed(a: P.Addresses, req: Request, size: nat, usage: Option<P.Usage>, k: nat, r: nat)
    requires RequestReadable(req) && req.internal == [] && Effects.EffectsOf(req, size).unknownFundMoving == []
    requires ModeOf(a).Some?
    ensures
      && k < |req.external| && !Takes(a, req.external[k].receiver)
      && (forall j :: 0 <= j < k ==> Takes(a, req.external[j].receiver)) ==>
        ExtensionStage(Some(OnlyAddresses(a)), P.Body(req, size), usage) == Some(Deny(DecodedAddress(k)))
    ensures
      var refunds := Effects.EffectsOf(req, size).refundTos;
      && (forall p :: p in req.external ==> Takes(a, p.receiver))
      && r < |refunds| && !Takes(a, refunds[r].1) && (forall j :: 0 <= j < r ==> Takes(a, refunds[j].1)) ==>
        ExtensionStage(Some(OnlyAddresses(a)), P.Body(req, size), usage) == Some(Deny(DecodedAddress(refunds[r].0)))
  {
    hide RequestReadable, Takes, ModeAllows, FirstRefusedAddress, LimitStage, TokenStage, Recipients, Beneficiaries;
    hide Effects.PromisesFragment;
    var fx, mode := Effects.EffectsOf(req, size), ModeOf(a).value;
    forall dest
      ensures Takes(a, dest) <==> ModeAllows(a, mode, dest)
    {
      TakesAre(a, dest);
    }
    FirstRefusedOf(a, mode, Numbered(fx.receivers) + fx.refundTos + Recipients(fx.tokenMoves), Beneficiaries(fx.storageRegistrations));
    FirstRefusedOf(a, mode, Numbered(fx.receivers) + fx.refundTos, Recipients(fx.tokenMoves));
    FirstRefusedOf(a, mode, Numbered(fx.receivers), fx.refundTos);
    if k < |req.external| && !Takes(a, req.external[k].receiver) && forall j :: 0 <= j < k ==> Takes(a, req.external[j].receiver) {
      FirstRefusedIs(a, mode, Numbered(fx.receivers), k);
    }
    if (forall p :: p in req.external ==> Takes(a, p.receiver))
       && r < |fx.refundTos| && !Takes(a, fx.refundTos[r].1) && forall j :: 0 <= j < r ==> Takes(a, fx.refundTos[j].1)
    {
      NoAddressRefused(a, mode, Numbered(fx.receivers));
      forall t | t in Numbered(fx.receivers)
        ensures ModeAllows(a, mode, t.1)
      {
        assert t.1 == req.external[t.0].receiver && req.external[t.0] in req.external;
      }
      FirstRefusedIs(a, mode, fx.refundTos, r);
    }
  }

  /** A token list is about the contract a token transfer calls, and about nothing else. */
  lemma MovedTokenIsListed(tokens: seq<string>, token: string, entries: seq<Entry>, recipient: string, n: u128, d: u128,
                           g: u64, size: nat, usage: Option<P.Usage>)
    requires Once(entries, "receiver_id", Str(recipient)) && Once(entries, "amount", Str(ToDecimal(n)))
    ensures LetsThrough(OnlyTokens(tokens), OneCall(token, "ft_transfer", Parsed(Obj(entries)), d, g), size, usage)
       <==> "*" in tokens || token in tokens
    ensures LetsThrough(OnlyTokens(tokens), OneCall(token, "storage_deposit", NoBytes, d, g), size, usage)
  {
    hide LetsThrough, Lookup, Occurrences, Once, ToDecimal, ParseU128, PromiseFine, RequestReadable;
    DecimalRoundTrip(n);
    OnceReads(entries, "receiver_id", Str(recipient));
    OnceReads(entries, "amount", Str(ToDecimal(n)));
    OneCallReads(token, "ft_transfer", Parsed(Obj(entries)), d, g);
    OneCallReads(token, "storage_deposit", NoBytes, d, g);
    OnePromisePasses(OnlyTokens(tokens), OneCall(token, "ft_transfer", Parsed(Obj(entries)), d, g).external[0], size, usage);
    OnePromisePasses(OnlyTokens(tokens), OneCall(token, "storage_deposit", NoBytes, d, g).external[0], size, usage);
    OneCallIsFine(FenceOf(Some(OnlyTokens(tokens))), token, "ft_transfer", Parsed(Obj(entries)), d, g);
    OneCallIsFine(FenceOf(Some(OnlyTokens(tokens))), token, "storage_deposit", NoBytes, d, g);
  }

  /** Control operations and calls that cannot be stated are never let through. */
  lemma ControlAndUnstatableAreDenied(rules: P.Rules, op: WalletOp, ps: seq<NearPromise>, token: string, name: string,
                                      args: CallArgs, d: u128, g: u64, size: nat, usage: Option<P.Usage>)
    ensures !LetsThrough(rules, Request([op], ps), size, usage)
    ensures name !in {"ft_transfer", "nft_transfer", "storage_deposit"} || args.NotBase64? ==>
      !LetsThrough(rules, OneCall(token, name, args, d, g), size, usage)
  {
    hide ExtensionStage, RequestReadable, SumsMeet, Payable, Movable, ToDecimal;
    DoorIsExact(Some(rules), Request([op], ps), size, usage);
    DoorIsExact(Some(rules), OneCall(token, name, args, d, g), size, usage);
    var p := OneCall(token, name, args, d, g).external[0];
    assert p in OneCall(token, name, args, d, g).external && p.actions[0] in p.actions;
  }

  // ---------------------------------------------------------------------------
  // Limits on what a request spends and moves
  // ---------------------------------------------------------------------------

  /** Every cap on `n` of a token is kept: per transaction, and with counters in each window. */
  predicate KeepsAll(limits: P.Limits, usage: Option<P.Usage>, token: string, n: nat) {
    && KeepsOne(limits.perTransaction, token, n)
    && (usage.Some? ==>
          && Keeps(limits.daily, usage.value.daily, "daily", usage.value, token, n)
          && Keeps(limits.hourly, usage.value.hourly, "hourly", usage.value, token, n)
          && Keeps(limits.monthly, usage.value.monthly, "monthly", usage.value, token, n))
  }

  predicate KeepsOne(caps: Option<map<string, string>>, token: string, n: nat) {
    forall c: u128 :: Caps(caps, token, c) && c < U128_MAX ==> n <= c
  }

  predicate Keeps(caps: Option<map<string, string>>, counters: map<string, u128>, key: string, u: P.Usage, token: string,
                  n: nat)
  {
    forall c: u128 :: Caps(caps, token, c) ==>
      && !u.allUnreadable && key + ":" + token !in u.unreadable
      && (c < U128_MAX ==> (if token in counters then counters[token] else 0) + n <= c)
  }

  lemma CapsAre(caps: Option<map<string, string>>, token: string)
    ensures forall c: u128 :: Caps(caps, token, c) <==> caps.Some? && LookupLimit(caps.value, token) == Some(c)
  {
    hide ParseU128;
  }

  lemma WithinIsKept(limits: P.Limits, usage: Option<P.Usage>, token: string, n: nat)
    ensures KeepsAll(limits, usage, token, n) <==>
      && WithinPerTransaction(limits.perTransaction, token, n)
      && (usage.Some? ==> forall w :: WithinWindow(limits, w, usage.value, token, n))
  {
    hide LookupLimit, Caps;
    CapsAre(limits.perTransaction, token);
    CapsAre(limits.daily, token);
    CapsAre(limits.hourly, token);
    CapsAre(limits.monthly, token);
    if usage.Some? {
      var u := usage.value;
      assert WithinWindow(limits, P.Daily, u, token, n) <==> Keeps(limits.daily, u.daily, "daily", u, token, n);
      assert WithinWindow(limits, P.Hourly, u, token, n) <==> Keeps(limits.hourly, u.hourly, "hourly", u, token, n);
      assert WithinWindow(limits, P.Monthly, u, token, n) <==> Keeps(limits.monthly, u.monthly, "monthly", u, token, n);
      forall w | Keeps(limits.daily, u.daily, "daily", u, token, n) && Keeps(limits.hourly, u.hourly, "hourly", u, token, n)
                 && Keeps(limits.monthly, u.monthly, "monthly", u, token, n)
        ensures WithinWindow(limits, w, u, token, n)
      {
        match w {
          case Daily =>
          case Hourly =>
          case Monthly =>
        }
      }
    }
  }

  function OnlyLimits(limits: P.Limits): P.Rules { NO_RULES.(limits := Some(limits)) }

  lemma SumOfOne<A>(f: A -> nat, x: A)
    ensures Sum(f, [x]) == f(x)
  {
    assert [x][..0] == [];
  }

  lemma SumsOfOnePromise(p: NearPromise, token: string)
    requires |p.actions| == 1
    ensures NativeSpent(Request([], [p])) == NativeOf(p.actions[0])
    ensures UnitsMoved(token, Request([], [p])) == ActionUnits(token, p.receiver, p.actions[0])
    ensures TokenMoved(token, Request([], [p])) <==> MovesFungibly(token, p.receiver, p.actions[0])
  {
    hide Sum, NativeOf, ActionUnits, MovesFungibly;
    SumOfOne(NativeOfPromise(), p);
    SumOfOne(NativeOfAction(), p.actions[0]);
    SumOfOne(PromiseUnits(token), p);
    SumOfOne(UnitsOfAction(token, p.receiver), p.actions[0]);
    assert p.actions == [p.actions[0]];
    assert p in Request([], [p]).external && p.actions[0] in p.actions;
  }

  /** What limits alone ask of a request of one promise. */
  lemma LimitsAsk(limits: P.Limits, p: NearPromise, size: nat, usage: Option<P.Usage>, native: nat, token: string, units: nat)
    requires |p.actions| == 1 && RequestReadable(Request([], [p])) && PromiseFine(Fence(None, None), p)
    requires NativeOf(p.actions[0]) == native
    requires forall t :: MovesFungibly(t, p.receiver, p.actions[0]) <==> t == token && p.actions[0].Call?
    requires p.actions[0].Call? ==> ActionUnits(token, p.receiver, p.actions[0]) == units
    ensures LetsThrough(OnlyLimits(limits), Request([], [p]), size, usage) <==>
      && KeepsOne(limits.perTransaction, "native", native)
      && (native > 0 ==> KeepsAll(limits, usage, "native", native))
      && (p.actions[0].Call? ==> KeepsAll(limits, usage, token, units))
  {
    hide ExtensionStage, PromiseFine, RequestReadable, NativeOf, MovesFungibly, ActionUnits, SumsMeet, KeepsAll, KeepsOne;
    DoorIsExact(Some(OnlyLimits(limits)), Request([], [p]), size, usage);
    SumsAsk(limits, p, usage, native, token, units);
  }

  lemma SumsAsk(limits: P.Limits, p: NearPromise, usage: Option<P.Usage>, native: nat, token: string, units: nat)
    requires |p.actions| == 1 && NativeOf(p.actions[0]) == native
    requires forall t :: MovesFungibly(t, p.receiver, p.actions[0]) <==> t == token && p.actions[0].Call?
    requires p.actions[0].Call? ==> ActionUnits(token, p.receiver, p.actions[0]) == units
    ensures SumsMeet(limits, usage, Request([], [p])) <==>
      && KeepsOne(limits.perTransaction, "native", native)
      && (native > 0 ==> KeepsAll(limits, usage, "native", native))
      && (p.actions[0].Call? ==> KeepsAll(limits, usage, token, units))
  {
    hide NativeOf, MovesFungibly, ActionUnits, KeepsAll, KeepsOne, WithinPerTransaction, WithinWindow, NativeSpent, UnitsMoved,
         TokenMoved;
    var req := Request([], [p]);
    SumsOfOnePromise(p, token);
    forall t
      ensures TokenMoved(t, req) <==> t == token && p.actions[0].Call?
    {
      SumsOfOnePromise(p, t);
    }
    WithinIsKept(limits, usage, "native", native);
    WithinIsKept(limits, usage, token, units);
    PerTransactionKept(limits.perTransaction, "native", native);
    if usage.Some? && SumsMeet(limits, usage, req) {
      forall w
        ensures native > 0 ==> WithinWindow(limits, w, usage.value, "native", native)
        ensures p.actions[0].Call? ==> WithinWindow(limits, w, usage.value, token, units)
      {
        assert WindowMet(limits, w, usage.value, req);
        assert p.actions[0].Call? ==> TokenMoved(token, req);
      }
    }
  }

  lemma PerTransactionKept(caps: Option<map<string, string>>, token: string, n: nat)
    ensures WithinPerTransaction(caps, token, n) <==> KeepsOne(caps, token, n)
  {
    hide ParseU128;
    if caps.Some? && LookupLimit(caps.value, token).Some? {
      assert Caps(caps, token, LookupLimit(caps.value, token).value);
    }
  }

  /** Limits on one token transfer: its deposit against the native caps, its units against the
      caps on the contract it calls. */
  lemma TransferKeepsLimits(limits: P.Limits, token: string, entries: seq<Entry>, recipient: string, n: u128, d: u128, g: u64,
                            size: nat, usage: Option<P.Usage>)
    requires Once(entries, "receiver_id", Str(recipient)) && Once(entries, "amount", Str(ToDecimal(n)))
    ensures LetsThrough(OnlyLimits(limits), OneCall(token, "ft_transfer", Parsed(Obj(entries)), d, g), size, usage) <==>
      && KeepsOne(limits.perTransaction, "native", d)
      && (d > 0 ==> KeepsAll(limits, usage, "native", d))
      && KeepsAll(limits, usage, token, n)
  {
    hide LetsThrough, Lookup, Occurrences, Once, ToDecimal, ParseU128, ParseU64, RequestReadable, KeepsAll, KeepsOne;
    DecimalRoundTrip(n);
    DecimalRoundTrip(d);
    OnceReads(entries, "receiver_id", Str(recipient));
    OnceReads(entries, "amount", Str(ToDecimal(n)));
    OneCallReads(token, "ft_transfer", Parsed(Obj(entries)), d, g);
    OneCallIsFine(Fence(None, None), token, "ft_transfer", Parsed(Obj(entries)), d, g);
    var p := OneCall(token, "ft_transfer", Parsed(Obj(entries)), d, g).external[0];
    LimitsAsk(limits, p, size, usage, d, token, n);
  }

  /** Limits on one transfer or one state init: what it carries against the native caps. */
  lemma SpendKeepsLimits(limits: P.Limits, receiver: string, n: u128, size: nat, usage: Option<P.Usage>, init: bool)
    ensures
      var action := if init then StateInit(ToDecimal(n)) else Transfer(ToDecimal(n));
      LetsThrough(OnlyLimits(limits), Request([], [NearPromise(receiver, None, [action])]), size, usage) <==>
        && KeepsOne(limits.perTransaction, "native", n)
        && (n > 0 ==> KeepsAll(limits, usage, "native", n))
  {
    hide LetsThrough, ToDecimal, ParseU128, KeepsAll, KeepsOne;
    DecimalRoundTrip(n);
    var action := if init then StateInit(ToDecimal(n)) else Transfer(ToDecimal(n));
    LimitsAsk(limits, NearPromise(receiver, None, [action]), size, usage, n, "", 0);
  }
}
