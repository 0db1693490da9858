/** What the rules make of each kind of operation, by the kind's own fields. Nothing here goes
    through the accessors the ladder reads an operation with. */
module OperationCases {
  import opened Common
  import opened Policy
  import opened Evaluation
  import Invariance
  import Runs

  // ---------------------------------------------------------------------------
  // Every kind that carries an amount is metered
  // ---------------------------------------------------------------------------

  /** The cap on `token`: its own entry, or the wildcard's when it has none. */
  predicate Caps(caps: Option<map<string, string>>, token: string, c: u128) {
    && caps.Some?
    && (if token in caps.value then ParseU128(caps.value[token]) == Some(c)
        else "*" in caps.value && ParseU128(caps.value["*"]) == Some(c))
  }

  predicate AllRead(caps: Option<map<string, string>>) {
    caps.Some? ==> forall t :: t in caps.value ==> ParseU128(caps.value[t]).Some?
  }

  /** One window's cap on `token` was measured against a counter that reads, and `n` more is
      within it. */
  predicate KeepsWindow(caps: Option<map<string, string>>, counters: map<string, u128>, key: string, u: Usage, token: string,
                        n: u128)
  {
    forall c: u128 :: Caps(caps, token, c) ==>
      && !u.allUnreadable && key + ":" + token !in u.unreadable
      && (c < U128_MAX ==> (if token in counters then counters[token] else 0) + n <= c)
  }

  predicate KeepsPerTransaction(caps: Option<map<string, string>>, token: string, n: u128) {
    forall c: u128 :: Caps(caps, token, c) ==> n <= c
  }

  predicate KeepsLimits(limits: Limits, u: Usage, token: string, n: u128) {
    && AllRead(limits.perTransaction) && AllRead(limits.daily) && AllRead(limits.hourly) && AllRead(limits.monthly)
    && KeepsPerTransaction(limits.perTransaction, token, n)
    && KeepsWindow(limits.daily, u.daily, "daily", u, token, n)
    && KeepsWindow(limits.hourly, u.hourly, "hourly", u, token, n)
    && KeepsWindow(limits.monthly, u.monthly, "monthly", u, token, n)
  }

  /** The amount reads, and every cap on the token is kept. */
  predicate Keeps(policy: Policy, u: Usage, token: string, amount: string) {
    && ParseU128(amount).Some?
    && (policy.rules.Some? && policy.rules.value.limits.Some? ==>
          KeepsLimits(policy.rules.value.limits.value, u, token, ParseU128(amount).value))
  }

  lemma WindowIsKept(caps: Option<map<string, string>>, w: Window, u: Usage, token: string, n: u128)
    ensures w.Daily? ==> (KeepsWindow(caps, u.daily, "daily", u, token, n) <==> !WindowRefuses(caps, w, u, token, n))
    ensures w.Hourly? ==> (KeepsWindow(caps, u.hourly, "hourly", u, token, n) <==> !WindowRefuses(caps, w, u, token, n))
    ensures w.Monthly? ==> (KeepsWindow(caps, u.monthly, "monthly", u, token, n) <==> !WindowRefuses(caps, w, u, token, n))
  {
    hide ParseU128;
    if caps.Some? && LookupLimit(caps.value, token).Some? {
      assert Caps(caps, token, LookupLimit(caps.value, token).value);
    }
  }

  lemma PerTransactionIsKept(caps: Option<map<string, string>>, token: string, n: u128)
    ensures KeepsPerTransaction(caps, token, n) <==> !PerTransactionRefuses(caps, token, n)
  {
    hide ParseU128;
    if caps.Some? && LookupLimit(caps.value, token).Some? {
      assert Caps(caps, token, LookupLimit(caps.value, token).value);
    }
  }

  lemma PermittedReads(policy: Policy, op: Op, u: Usage, now: nat)
    requires op.Amount().Some? && Evaluate(policy, op, Some(u), now).Permits()
    ensures LimitsReadable(policy.rules)
  {
    hide ExtensionStage, StandardStage, TailStage, LimitsReadable;
  }

  /** What an operation's own amount and token come to. */
  lemma Metered(policy: Policy, op: Op, u: Usage, now: nat)
    requires op.Amount().Some? && Evaluate(policy, op, Some(u), now).Permits()
    ensures Keeps(policy, u, op.Token(), op.Amount().value)
  {
    hide Evaluate, ParseU128, WindowRefuses, PerTransactionRefuses, KeepsWindow, KeepsPerTransaction;
    PermittedReads(policy, op, u, now);
    Runs.PermittedAmount(policy, op, Some(u), now);
    if policy.rules.Some? && policy.rules.value.limits.Some? {
      var limits, n := policy.rules.value.limits.value, ParseU128(op.Amount().value).value;
      PerTransactionIsKept(limits.perTransaction, op.Token(), n);
      WindowIsKept(limits.daily, Daily, u, op.Token(), n);
      WindowIsKept(limits.hourly, Hourly, u, op.Token(), n);
      WindowIsKept(limits.monthly, Monthly, u, op.Token(), n);
    }
  }

  predicate PermitsNow(policy: Policy, op: Op, u: Usage, now: nat) {
    Evaluate(policy, op, Some(u), now).Permits()
  }

  /** A permission with counters means, for each of the ten kinds that carry an amount, that the
      amount reads and keeps every cap, per transaction and in every window, on the token the
      kind moves. */
  lemma EveryAmountIsMetered(policy: Policy, u: Usage, now: nat, to: string, x: string, t: string, s: string, o: Option<string>,
                             body: CallBody, k: RecipientType)
    ensures PermitsNow(policy, Transfer(to, x), u, now) ==> Keeps(policy, u, "native", x)
    ensures PermitsNow(policy, Call(to, s, body, t, x), u, now) ==> Keeps(policy, u, "native", x)
    ensures PermitsNow(policy, Withdraw(to, x, t), u, now) ==> Keeps(policy, u, t, x)
    ensures PermitsNow(policy, IntentsTransfer(to, x, t), u, now) ==> Keeps(policy, u, t, x)
    ensures PermitsNow(policy, IntentsStorageDeposit(to, s, x), u, now) ==> Keeps(policy, u, "nep141:wrap.near", x)
    ensures PermitsNow(policy, Swap(t, x, to, s), u, now) ==> Keeps(policy, u, t, x)
    ensures PermitsNow(policy, Confidential(s, o, x, t), u, now) ==> Keeps(policy, u, t, x)
    ensures PermitsNow(policy, CrossChainWithdraw(to, x, t, s), u, now) ==> Keeps(policy, u, t, x)
    ensures PermitsNow(policy, LimitOrder(to, k, x, t, s, to), u, now) ==> Keeps(policy, u, t, x)
    ensures PermitsNow(policy, PaymentCheck(x, t), u, now) ==> Keeps(policy, u, t, x)
  {
    hide Keeps, Evaluate;
    MeteredIf(policy, Transfer(to, x), u, now);
    MeteredIf(policy, Call(to, s, body, t, x), u, now);
    MeteredIf(policy, Withdraw(to, x, t), u, now);
    MeteredIf(policy, IntentsTransfer(to, x, t), u, now);
    MeteredIf(policy, IntentsStorageDeposit(to, s, x), u, now);
    MeteredIf(policy, Swap(t, x, to, s), u, now);
    MeteredIf(policy, Confidential(s, o, x, t), u, now);
    MeteredIf(policy, CrossChainWithdraw(to, x, t, s), u, now);
    MeteredIf(policy, LimitOrder(to, k, x, t, s, to), u, now);
    MeteredIf(policy, PaymentCheck(x, t), u, now);
  }

  lemma MeteredIf(policy: Policy, op: Op, u: Usage, now: nat)
    requires op.Amount().Some?
    ensures PermitsNow(policy, op, u, now) ==> Keeps(policy, u, op.Token(), op.Amount().value)
  {
    hide Evaluate, Keeps;
    if PermitsNow(policy, op, u, now) {
      Metered(policy, op, u, now);
    }
  }

  // ---------------------------------------------------------------------------
  // What each kind is
  // ---------------------------------------------------------------------------

  /** The type names a kind is listed under, the token and amount it moves, whom it pays, and
      whether a threshold makes it wait for votes. */
  datatype Facts = Facts(names: set<string>, token: string, amount: Option<string>, pays: Option<string>, votes: bool)

  /** Each kind by its own fields. */
  function FactsOf(op: Op): Facts {
    match op
    case Transfer(to, amount) => Facts({"transfer"}, "native", Some(amount), Some(to), true)
    case Call(to, _, _, _, deposit) =>
      Facts({"call", "intents_deposit", "storage_deposit", "cross_chain_deposit"}, "native", Some(deposit), Some(to), true)
    case Delete(beneficiary) => Facts({"delete"}, "native", None, Some(beneficiary), true)
    case Withdraw(to, amount, token) => Facts({"withdraw", "intents_withdraw"}, token, Some(amount), Some(to), true)
    case IntentsTransfer(to, amount, token) => Facts({"intents_transfer"}, token, Some(amount), Some(to), true)
    case IntentsStorageDeposit(contractId, _, amount) =>
      Facts({"intents_storage_deposit"}, "nep141:wrap.near", Some(amount), Some(contractId), true)
    case Raw(_, _) => Facts({"raw"}, "native", None, None, false)
    case SignMessage(_, _) => Facts({"sign_message"}, "native", None, None, false)
    case Swap(tokenIn, amountIn, _, _) => Facts({"swap", "intents_swap"}, tokenIn, Some(amountIn), None, true)
    case Confidential(_, to, amount, token) => Facts({"confidential"}, token, Some(amount), to, true)
    case CrossChainWithdraw(to, amount, token, _) => Facts({"cross_chain_withdraw"}, token, Some(amount), Some(to), true)
    case LimitOrder(to, _, amount, token, _, _) => Facts({"limit_order"}, token, Some(amount), Some(to), true)
    case PaymentCheck(amount, token) => Facts({"payment_check"}, token, Some(amount), None, true)
    case Auth(_, _) => Facts({"auth"}, "native", None, None, false)
    case PolicyUpdate(_, _, _, _, _) => Facts({"policy_update"}, "native", None, None, false)
  }

  const ON: Option<Capability> := Some(Capability(Some(true), None, None))

  /** Every capability is on, and nothing but these rules applies. */
  function Under(rules: Rules): Policy {
    Policy(false, Some(rules), None, Some(Capabilities(ON, ON, ON, ON, ON, ON, ON, ON)))
  }

  const NO_RULES := Rules(None, None, None, None, None, None)

  /** What the rules of the engine apply to: no identity proof, no policy update, no extension
      call, no raw signature on near. */
  predicate Ordinary(op: Op) {
    && !op.Auth? && !op.PolicyUpdate?
    && !(op.Call? && op.methodName == "w_execute_extension")
    && (op.Raw? ==> !NamesNear(op.chain))
    && (FactsOf(op).amount.Some? ==> ParseU128(FactsOf(op).amount.value).Some?)
  }

  lemma NameIs(op: Op, s: string)
    ensures NormalizeType(s) in op.TypeAliases() <==> s in FactsOf(op).names
    ensures s in op.TypeAliases() <==> s in (if op.Call? then {"call"} else FactsOf(op).names)
  {
  }

  lemma NamesAre(op: Op)
    ensures forall s :: NormalizeType(s) in op.TypeAliases() <==> s in FactsOf(op).names
    ensures forall s :: s in op.TypeAliases() <==> s in (if op.Call? then {"call"} else FactsOf(op).names)
  {
    hide NormalizeType, Op.TypeAliases, FactsOf;
    forall s
      ensures NormalizeType(s) in op.TypeAliases() <==> s in FactsOf(op).names
      ensures s in op.TypeAliases() <==> s in (if op.Call? then {"call"} else FactsOf(op).names)
    {
      NameIs(op, s);
    }
  }

  lemma FactsAre(op: Op)
    ensures FactsOf(op).token == op.Token() && FactsOf(op).amount == op.Amount() && FactsOf(op).pays == op.Destination()
    ensures FactsOf(op).votes <==> op.TriggersApproval()
  {
  }

  lemma AllOn(op: Op)
    requires Ordinary(op)
    ensures CheckCapabilities(Under(NO_RULES).capabilities, None, op).None?
  {
    hide NamesNear, ReachesIntents, ParseU128;
  }

  /** Under rules alone, an ordinary operation is allowed unless a standard gate refuses. */
  lemma UnderRules(rules: Rules, op: Op, usage: Option<Usage>, now: nat)
    requires Ordinary(op) && rules.timeRestrictions.None? && LimitsReadable(Some(rules))
    ensures Evaluate(Under(rules), op, usage, now)
         == if StandardStage(Some(rules), op, usage).Some? then StandardStage(Some(rules), op, usage).value else Allow
  {
    hide StandardStage, CheckCapabilities, LimitsReadable, NamesNear, ParseU128;
    AllOn(op);
  }

  // ---------------------------------------------------------------------------
  // One rule at a time
  // ---------------------------------------------------------------------------

  /** A list of types lets through exactly the kinds listed under one of their names; message
      signing is not listed. */
  lemma TypesDecide(types: seq<string>, op: Op, usage: Option<Usage>, now: nat)
    requires Ordinary(op)
    ensures Evaluate(Under(NO_RULES.(transactionTypes := Some(types))), op, usage, now) == Allow
       <==> op.SignMessage? || exists s :: s in types && s in FactsOf(op).names
  {
    hide Evaluate, NormalizeType, Op.TypeAliases, FactsOf, Ordinary;
    NamesAre(op);
    var rules := NO_RULES.(transactionTypes := Some(types));
    UnderRules(rules, op, usage, now);
    NothingElseRefuses(rules, op, usage);
  }

  /** Without addresses, limits and a rate the other standard gates pass. */
  lemma NothingElseRefuses(rules: Rules, op: Op, usage: Option<Usage>)
    requires Ordinary(op) && rules.addresses.None? && rules.limits.None? && rules.maxPerHour.None?
    ensures DestinationStage(Some(rules), op).None? && AmountStage(Some(rules), op, usage).None?
    ensures usage.Some? ==> !RateRefuses(Some(rules), usage.value)
  {
    hide ParseU128, Op.Amount, FactsOf;
    FactsAre(op);
  }

  /** A list of tokens lets through exactly the kinds that move a listed token, or any with the
      wildcard. */
  lemma TokensDecide(tokens: seq<string>, op: Op, usage: Option<Usage>, now: nat)
    requires Ordinary(op)
    ensures Evaluate(Under(NO_RULES.(allowedTokens := Some(tokens))), op, usage, now) == Allow
       <==> op.SignMessage? || "*" in tokens || FactsOf(op).token in tokens
  {
    hide Evaluate, NormalizeType, Op.TypeAliases, FactsOf, Ordinary;
    FactsAre(op);
    var rules := NO_RULES.(allowedTokens := Some(tokens));
    UnderRules(rules, op, usage, now);
    NothingElseRefuses(rules, op, usage);
  }

  predicate SameLetter(c: char, d: char) {
    || c == d
    || ('a' <= c <= 'z' && d as int == c as int - 32)
    || ('A' <= c <= 'Z' && d as int == c as int + 32)
  }

  predicate EvmShaped(s: string) {
    |s| == 42 && s[0] == '0' && s[1] == 'x'
    && forall i :: 2 <= i < 42 ==> '0' <= s[i] <= '9' || 'a' <= s[i] <= 'f' || 'A' <= s[i] <= 'F'
  }

  /** One address: the same text, or two 20-byte hex addresses that differ in case only. */
  predicate OneAddress(x: string, y: string) {
    x == y || (EvmShaped(x) && EvmShaped(y) && forall i :: 2 <= i < 42 ==> SameLetter(x[i], y[i]))
  }

  /** A whitelist takes whom it lists, a blacklist whom it does not, `none` takes anybody; no
      mode is a whitelist, and an unknown mode takes nobody. */
  predicate Takes(a: Addresses, dest: string) {
    var listed := exists s :: s in a.list && OneAddress(s, dest);
    || ((a.mode == None || a.mode == Some("whitelist")) && listed)
    || (a.mode == Some("blacklist") && !listed)
    || a.mode == Some("none")
  }

  lemma LowerLetters(x: string, y: string)
    requires |x| == |y|
    ensures Lower(x) == Lower(y) <==> forall i :: 0 <= i < |x| ==> SameLetter(x[i], y[i])
  {
    if Lower(x) == Lower(y) {
      forall i | 0 <= i < |x|
        ensures SameLetter(x[i], y[i])
      {
        assert Lower(x)[i] == Lower(y)[i];
      }
    }
  }

  lemma AddressesAreOne(x: string, y: string)
    ensures OneAddress(x, y) <==> SameAddress(x, y)
  {
    hide Lower, SameLetter;
    EvmShapes(x);
    EvmShapes(y);
    if IsEvm(x) && IsEvm(y) {
      LowerLetters(x, y);
      SameItself('0');
      SameItself('x');
      if x == y {
        assert Lower(x) == Lower(y);
      }
    }
  }

  lemma SameItself(c: char)
    ensures SameLetter(c, c)
  {
  }

  lemma EvmShapes(s: string)
    ensures EvmShaped(s) <==> IsEvm(s)
  {
    if |s| == 42 {
      assert s[..2] == [s[0], s[1]];
    }
  }

  /** Addresses let through exactly the kinds that pay nobody, or whom the list takes. */
  lemma AddressesDecide(a: Addresses, op: Op, usage: Option<Usage>, now: nat)
    requires Ordinary(op)
    ensures Evaluate(Under(NO_RULES.(addresses := Some(a))), op, usage, now) == Allow
       <==> FactsOf(op).pays.None? || FactsOf(op).pays.value == "" || Takes(a, FactsOf(op).pays.value)
  {
    hide Evaluate, FactsOf, Ordinary, OneAddress, SameAddress, Op.Amount, ParseU128;
    FactsAre(op);
    var rules := NO_RULES.(addresses := Some(a));
    UnderRules(rules, op, usage, now);
    AmountAlone(rules, op, usage);
    if FactsOf(op).pays.Some? {
      TakesAre(a, FactsOf(op).pays.value);
    }
  }

  lemma AmountAlone(rules: Rules, op: Op, usage: Option<Usage>)
    requires Ordinary(op) && rules.limits.None? && rules.maxPerHour.None?
    ensures AmountStage(Some(rules), op, usage).None?
    ensures usage.Some? ==> !RateRefuses(Some(rules), usage.value)
  {
    hide ParseU128, Op.Amount, FactsOf;
    FactsAre(op);
  }

  lemma TakesAre(a: Addresses, dest: string)
    ensures Takes(a, dest) <==> ModeOf(a).Some? && ModeAllows(a, ModeOf(a).value, dest)
  {
    hide OneAddress, SameAddress;
    forall s
      ensures OneAddress(s, dest) <==> SameAddress(s, dest)
    {
      AddressesAreOne(s, dest);
    }
    assert Listed(a, dest) <==> exists s :: s in a.list && OneAddress(s, dest) by {
      if Listed(a, dest) {
        var i :| 0 <= i < |a.list| && SameAddress(a.list[i], dest);
        assert a.list[i] in a.list;
      }
    }
  }

  /** Limits let through exactly the amounts that keep them, the windows only with counters. */
  lemma LimitsDecide(limits: Limits, op: Op, usage: Option<Usage>, now: nat)
    requires Ordinary(op) && limits.hourlyTxCount.None? && FactsOf(op).amount.Some?
    requires AllRead(limits.perTransaction) && AllRead(limits.daily) && AllRead(limits.hourly) && AllRead(limits.monthly)
    ensures
      var token, n := FactsOf(op).token, ParseU128(FactsOf(op).amount.value).value;
      Evaluate(Under(NO_RULES.(limits := Some(limits))), op, usage, now) == Allow <==>
        && KeepsPerTransaction(limits.perTransaction, token, n)
        && (usage.Some? ==> KeepsLimits(limits, usage.value, token, n))
  {
    hide Evaluate, FactsOf, ParseU128, WindowRefuses, PerTransactionRefuses, KeepsWindow, KeepsPerTransaction, Op.Amount,
         Op.Token;
    FactsAre(op);
    var rules := NO_RULES.(limits := Some(limits));
    var token, n := op.Token(), ParseU128(op.Amount().value).value;
    UnderRules(rules, op, usage, now);
    PerTransactionIsKept(limits.perTransaction, token, n);
    if usage.Some? {
      WindowIsKept(limits.daily, Daily, usage.value, token, n);
      WindowIsKept(limits.hourly, Hourly, usage.value, token, n);
      WindowIsKept(limits.monthly, Monthly, usage.value, token, n);
    }
  }

  /** A limit that does not read refuses every kind that carries an amount, whatever the token,
      and an amount that does not read is refused. */
  lemma UnreadableRefuses(policy: Policy, op: Op, usage: Option<Usage>, now: nat)
    requires FactsOf(op).amount.Some? && Evaluate(policy, op, usage, now).Permits()
    ensures ParseU128(FactsOf(op).amount.value).Some?
    ensures policy.rules.Some? && policy.rules.value.limits.Some? ==>
      var limits := policy.rules.value.limits.value;
      AllRead(limits.perTransaction) && AllRead(limits.daily) && AllRead(limits.hourly) && AllRead(limits.monthly)
  {
    hide ExtensionStage, StandardStage, TailStage, LimitsReadable, FactsOf, Op.Amount, Evaluate;
    FactsAre(op);
    Runs.PermittedAmount(policy, op, usage, now);
    EvaluateReads(policy, op, usage, now);
    if policy.rules.Some? && policy.rules.value.limits.Some? {
      LimitsAllRead(policy.rules);
    }
  }

  lemma EvaluateReads(policy: Policy, op: Op, usage: Option<Usage>, now: nat)
    requires op.Amount().Some? && Evaluate(policy, op, usage, now).Permits()
    ensures LimitsReadable(policy.rules)
  {
    hide ExtensionStage, StandardStage, TailStage, LimitsReadable;
  }

  lemma LimitsAllRead(rules: Option<Rules>)
    requires LimitsReadable(rules) && rules.Some? && rules.value.limits.Some?
    ensures
      var limits := rules.value.limits.value;
      AllRead(limits.perTransaction) && AllRead(limits.daily) && AllRead(limits.hourly) && AllRead(limits.monthly)
  {
  }
}
