/** What the leased mode makes of grants, meters, floors and leases spelled out field by field. */
module DoorCases {
  import opened Common
  import opened Json
  import opened Request
  import opened Effects
  import opened Hos
  import opened Violations
  import opened Binding
  import opened Charging
  import opened Payments
  import opened Refinement
  import opened Losses
  import Grants
  import Ledger

  // ---------------------------------------------------------------------------
  // The door
  // ---------------------------------------------------------------------------

  lemma GrantedAreStaged(fx: EffectsSet, g: SpendGrant, v: Violation)
    requires v in GrantedViolations(fx, g)
    ensures v.stage.Promise?
  {
    hide FlatMap, BudgetBreach, ReceiverViolations, Remaining, TokenRemaining;
    FlatMapMember(FactRule(), fx.shapeFacts, v);
    FlatMapMember(UnknownRule(), fx.unknownFundMoving, v);
    FlatMapMember(RegistrationRule(), fx.storageRegistrations, v);
    FlatMapMember(InitRule(), fx.stateInits, v);
    FlatMapMember(MoveRule(g), fx.tokenMoves, v);
    BreachShape(fx.nativePerPromise, fx.callPromises, Remaining(g), 0, 0);
    ReceiverRefusals(g, fx.receivers, fx.callPromises, |fx.receivers|, v);
  }

  /** A readable grant is refused as expired, and alone, exactly when its hour is not past now
      or its figure does not read. */
  lemma ExpiryDecides(fx: EffectsSet, status: AgentStatusView, nowNs: u64, e: u64)
    requires status.grant.Some? && ReadGrant(status.grant.value).Some?
    ensures ReadGrant(status.grant.value).value.expiresAt == ToDecimal(e) ==>
      (AdmissionOf(fx, status, nowNs) == [Violation(None, Door, Class(GrantExpired, None))] <==> e <= nowNs)
    ensures ParseU64(ReadGrant(status.grant.value).value.expiresAt).None? ==>
      AdmissionOf(fx, status, nowNs) == [Violation(None, Door, Class(GrantExpired, None))]
  {
    hide ReadGrant, GrantedViolations, ToDecimal, ParseU64;
    DecimalRoundTrip64(e);
    var g := ReadGrant(status.grant.value).value;
    var expired := Violation(None, Door, Class(GrantExpired, None));
    if GrantedViolations(fx, g) == [expired] {
      assert expired in GrantedViolations(fx, g);
      GrantedAreStaged(fx, g, expired);
    }
  }

  /** No grant and one that does not read are refused by their own names, and alone. */
  lemma NoGrantIsNamed(fx: EffectsSet, status: AgentStatusView, nowNs: u64)
    ensures status.grant == None ==>
      AdmissionOf(fx, status, nowNs) == [Violation(None, Door, Class(GrantMissing, None))]
    ensures status.grant.Some? && ReadGrant(status.grant.value).None? ==>
      AdmissionOf(fx, status, nowNs) == [Violation(None, Door, Class(GrantUnreadable, None))]
  {
    hide ReadGrant;
  }

  // ---------------------------------------------------------------------------
  // The documents
  // ---------------------------------------------------------------------------

  function Strings(texts: seq<string>): seq<Value> {
    seq(|texts|, i requires 0 <= i < |texts| => Str(texts[i]))
  }

  lemma {:induction false} StringsRead(texts: seq<string>)
    ensures ReadStrings(Strings(texts)) == Some(texts)
  {
    if texts != [] {
      StringsRead(texts[1..]);
      assert Strings(texts)[1..] == Strings(texts[1..]);
      assert [texts[0]] + texts[1..] == texts;
    }
  }

  lemma OneBudgetReads(token: string, entries: seq<Entry>, budget: string, spent: string)
    requires Once(entries, "budget", Str(budget)) && Once(entries, "spent", Str(spent))
    ensures ReadTokens(Some(Obj([Entry(token, Obj(entries))]))) == Some(map[token := TokenBudget(budget, spent)])
  {
    hide Lookup, Occurrences, Once;
    OnceReads(entries, "budget", Str(budget));
    OnceReads(entries, "spent", Str(spent));
    var tokens := [Entry(token, Obj(entries))];
    assert tokens[..0] == [];
    assert ReadBudgets([]) == Some(map[]);
    assert ReadBudget(Obj(entries)) == Some(TokenBudget(budget, spent));
  }

  lemma OneFenceReads(collection: string, ids: seq<string>)
    ensures ReadItems(Some(Obj([Entry(collection, Arr(Strings(ids)))]))) == Some(map[collection := ids])
  {
    hide Strings, ReadStrings;
    StringsRead(ids);
    var fences := [Entry(collection, Arr(Strings(ids)))];
    assert fences[..0] == [];
    assert ReadFences([]) == Some(map[]);
  }

  /** A grant document is read by these names. */
  lemma GrantIsReadByName(entries: seq<Entry>, receivers: seq<string>, budget: string, spent: string, token: string,
                          entry: seq<Entry>, tokenBudget: string, tokenSpent: string, collection: string,
                          ids: seq<string>, expires: string)
    requires Once(entries, "receivers", Arr(Strings(receivers)))
    requires Once(entries, "budget_yocto", Str(budget)) && Once(entries, "spent_yocto", Str(spent))
    requires Once(entries, "tokens", Obj([Entry(token, Obj(entry))]))
    requires Once(entry, "budget", Str(tokenBudget)) && Once(entry, "spent", Str(tokenSpent))
    requires Once(entries, "items", Obj([Entry(collection, Arr(Strings(ids)))]))
    requires Once(entries, "expires_at", Str(expires))
    ensures ReadGrant(Obj(entries))
         == Some(SpendGrant(receivers, budget, spent, map[token := TokenBudget(tokenBudget, tokenSpent)],
                            map[collection := ids], expires))
  {
    hide Lookup, Occurrences, Once, Strings, ReadStrings, ReadTokens, ReadItems;
    OnceReads(entries, "receivers", Arr(Strings(receivers)));
    OnceReads(entries, "budget_yocto", Str(budget));
    OnceReads(entries, "spent_yocto", Str(spent));
    OnceReads(entries, "tokens", Obj([Entry(token, Obj(entry))]));
    OnceReads(entries, "items", Obj([Entry(collection, Arr(Strings(ids)))]));
    OnceReads(entries, "expires_at", Str(expires));
    StringsRead(receivers);
    OneBudgetReads(token, entry, tokenBudget, tokenSpent);
    OneFenceReads(collection, ids);
  }

  /** A status document is read by these names; `null` is no grant. */
  lemma StatusIsReadByName(entries: seq<Entry>, enabled: bool, grant: Value, state: string, frozen: string, lease: string,
                           reserve: string, version: u64)
    requires Once(entries, "extension_enabled", Bool(enabled)) && Once(entries, "grant", grant)
    requires Once(entries, "state", Str(state)) && Once(entries, "frozen", Str(frozen))
    requires Once(entries, "lease_until_ns", Str(lease)) && Once(entries, "reserve_yocto", Str(reserve))
    requires Once(entries, "impl_version", Num(PosInt(version))) && version < 0x1_0000_0000
    ensures ReadStatus(Obj(entries))
         == Some(AgentStatusView(enabled, if grant == Null then None else Some(grant), state, frozen, lease, reserve))
  {
    hide Lookup, Occurrences, Once;
    OnceReads(entries, "extension_enabled", Bool(enabled));
    OnceReads(entries, "grant", grant);
    OnceReads(entries, "state", Str(state));
    OnceReads(entries, "frozen", Str(frozen));
    OnceReads(entries, "lease_until_ns", Str(lease));
    OnceReads(entries, "reserve_yocto", Str(reserve));
    OnceReads(entries, "impl_version", Num(PosInt(version)));
  }

  // ---------------------------------------------------------------------------
  // Meters and floors
  // ---------------------------------------------------------------------------

  /** `n` more is left of a budget on which so much was spent; nothing is left of a budget or a
      meter that does not read. */
  predicate Left(budget: string, spent: string, n: u128) {
    n == 0
    || (ParseU128(budget).Some? && ParseU128(spent).Some? && ParseU128(spent).value + n <= ParseU128(budget).value)
  }

  predicate OpenGrant(status: AgentStatusView, g: SpendGrant, nowNs: u64) {
    && status.grant.Some? && ReadGrant(status.grant.value) == Some(g)
    && ParseU64(g.expiresAt).Some? && nowNs < ParseU64(g.expiresAt).value
  }

  lemma PassesOne(status: AgentStatusView, g: SpendGrant, nowNs: u64, own: Option<string>, p: NearPromise, size: nat)
    requires OpenGrant(status, g, nowNs) && PromiseNative(p) <= U128_MAX
    ensures Passes(status, nowNs, own, None, Request([], [p]), size) <==> ChargePromise(g, own, Remaining(g), p).Charged?
  {
    hide ReadGrant, Preflight, EffectsOf, Collected, ChargePromise, PromiseNative, ParseU64;
    NothingReported(status, nowNs, own, None, Request([], [p]), size);
    Grants.OnePromise(g, own, p, size);
  }

  /** A payment passes exactly when its receiver is granted and so much is left of the budget. */
  lemma NativeBudgetDecides(status: AgentStatusView, g: SpendGrant, nowNs: u64, own: Option<string>, receiver: string,
                            n: u128, size: nat)
    requires OpenGrant(status, g, nowNs)
    ensures Passes(status, nowNs, own, None, Request([], [NearPromise(receiver, None, [Transfer(ToDecimal(n))])]), size)
       <==> receiver in g.receivers && Left(g.budgetYocto, g.spentYocto, n)
  {
    hide ReadGrant, Passes, ChargePromise, PromiseNative, ToDecimal, ParseU128, OpenGrant;
    Grants.PaysCharged(g, own, receiver, n);
    PassesOne(status, g, nowNs, own, Pays(receiver, n), size);
  }

  /** A token payment passes exactly when its recipient and its token are granted and so much is
      left of that token's budget. */
  lemma TokenBudgetDecides(status: AgentStatusView, g: SpendGrant, nowNs: u64, own: Option<string>, token: string,
                           recipient: string, n: u128, size: nat)
    requires OpenGrant(status, g, nowNs) && own != Some(token)
    ensures Passes(status, nowNs, own, None, Request([], [PaysToken(token, recipient, n)]), size)
       <==> recipient in g.receivers && token in g.tokens && Left(g.tokens[token].budget, g.tokens[token].spent, n)
  {
    hide ReadGrant, Passes, ChargePromise, PromiseNative, ToDecimal, ParseU128, OpenGrant, PaysToken;
    Ledger.PaysTokenCharged(g, own, Remaining(g), token, recipient, n);
    Grants.PaysTokenYocto(token, recipient, n);
    PassesOne(status, g, nowNs, own, PaysToken(token, recipient, n), size);
  }

  /** The floor refuses a payment exactly when there is one and the balance does not cover both;
      a floor that does not read is the largest amount. */
  lemma FloorDecides(status: AgentStatusView, receiver: string, n: u128, balance: u128, size: nat)
    ensures
      var fx := EffectsOf(Request([], [NearPromise(receiver, None, [Transfer(ToDecimal(n))])]), size);
      var floor := if ParseU128(status.reserveYocto).Some? then ParseU128(status.reserveYocto).value
                   else 340282366920938463463374607431768211455;
      CheckReserve(fx, status, balance).Some? <==> floor > 0 && balance < n + floor
  {
    hide EffectsOf, ToDecimal, ParseU128, CheckReserve, PromiseNative;
    var req := Request([], [Pays(receiver, n)]);
    ReserveIsExact(req, size, status, balance);
    PaysExactly(receiver, n);
    assert RequestNative(req.external, 0) == 0;
    assert RequestNative(req.external, 1) == n;
  }

  // ---------------------------------------------------------------------------
  // The lane
  // ---------------------------------------------------------------------------

  /** Each fault is about the fact it names, and the facts are read in this order. */
  lemma FaultsNameTheFact(status: AgentStatusView, nowNs: u64)
    ensures !status.extensionEnabled ==> VerifyLease(status, nowNs) == Err(ExtensionDisabled)
    ensures status.extensionEnabled && status.frozen != "Unfrozen" ==> VerifyLease(status, nowNs) == Err(Frozen(status.frozen))
    ensures status.extensionEnabled && status.frozen == "Unfrozen" && status.state != "Active" ==>
      VerifyLease(status, nowNs) == Err(if status.state == "Expired" then StateExpired else StateNotActive(status.state))
    ensures status.extensionEnabled && status.frozen == "Unfrozen" && status.state == "Active" ==>
      match ParseU64(status.leaseUntilNs)
      case None => VerifyLease(status, nowNs) == Err(Malformed(status.leaseUntilNs))
      case Some(until) => VerifyLease(status, nowNs) == if nowNs < until then Ok(LeaseState(status)) else Err(LeaseExpired)
  {
  }

  /** A plain account with other code is refused for its code, whatever its extension. */
  lemma PlainFaults(status: PlainStatus, nowNs: u64)
    ensures Admit(PersonalAccount, PersonalEvidence(status), nowNs)
         == if !status.codeRecognized then Err(CodeHashUnknown(status.codeHash))
            else if status.extensionEnabled then Ok(PersonalState(status.codeHash)) else Err(ExtensionDisabled)
    ensures Admit(HosLease, PersonalEvidence(status), nowNs) == Err(EvidenceOfOtherMode)
  {
  }
}
