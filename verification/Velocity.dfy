/** What the stateful clauses add, over one evaluation and over whole runs. */
module Velocity {
  import opened Common
  import Json
  import R = Request
  import opened Policy
  import opened Evaluation
  import opened Extension
  import Invariance

  // ---------------------------------------------------------------------------
  // With and without counters
  // ---------------------------------------------------------------------------

  lemma LimitStageWithCounters(rules: Option<Rules>, fx: Effects.EffectsSet, usage: Usage)
    ensures
      var bare := LimitStage(rules, fx, None);
      var full := LimitStage(rules, fx, Some(usage));
      full == bare || (bare.None? && full.Some? && full.value.Deny?)
  {
  }

  lemma DoorWithCounters(rules: Option<Rules>, body: CallBody, usage: Usage)
    ensures
      var bare := ExtensionStage(rules, body, None);
      var full := ExtensionStage(rules, body, Some(usage));
      full == bare || (bare.None? && full.Some? && full.value.Deny?)
  {
    hide AddressStage, TokenStage, LimitStage, R.FiguresReadable;
    if body.Body? {
      LimitStageWithCounters(rules, Effects.EffectsOf(body.req, body.size), usage);
    }
  }

  lemma StandardWithCounters(rules: Option<Rules>, op: Op, usage: Usage)
    ensures
      var bare := StandardStage(rules, op, None);
      var full := StandardStage(rules, op, Some(usage));
      full == bare || (bare.None? && full.Some? && full.value.Deny?)
  {
  }

  /** The keystore, which judges without counters, never refuses what the coordinator,
      which judges with them, would allow: counters only turn decisions into refusals. */
  lemma KeystoreNeverStricter(policy: Policy, op: Op, usage: Usage, now: nat)
    ensures
      var coordinator := Evaluate(policy, op, Some(usage), now);
      coordinator == Evaluate(policy, op, None, now) || coordinator.Deny?
  {
    hide ExtensionStage, StandardStage, TailStage, LimitsReadable;
    StandardWithCounters(policy.rules, op, usage);
    if op.IsExtensionCall() {
      DoorWithCounters(policy.rules, op.body, usage);
    }
  }

  // ---------------------------------------------------------------------------
  // Smaller counters, higher caps
  // ---------------------------------------------------------------------------

  /** Nothing about `v` is worse than about `u`. */
  ghost predicate Eased(u: Usage, v: Usage) {
    && (forall w: Window, token: string :: v.Spent(w, token) <= u.Spent(w, token))
    && (forall w: Window, token: string :: v.CounterUnreadable(w, token) ==> u.CounterUnreadable(w, token))
    && v.hourlyTxCount <= u.hourlyTxCount
    && (v.allUnreadable ==> u.allUnreadable)
  }

  ghost predicate EasedOrAbsent(u: Option<Usage>, v: Option<Usage>) {
    v.Some? ==> u.Some? && Eased(u.value, v.value)
  }

  /** The same keys, every readable figure still readable and no smaller. */
  predicate CapsRaised(a: Option<map<string, string>>, b: Option<map<string, string>>) {
    && (a.Some? <==> b.Some?)
    && (a.Some? ==>
          && a.value.Keys == b.value.Keys
          && forall token :: token in a.value && ParseU128(a.value[token]).Some? ==>
               && ParseU128(b.value[token]).Some?
               && ParseU128(a.value[token]).value <= ParseU128(b.value[token]).value)
  }

  predicate CountRaised(a: Option<int>, b: Option<int>) {
    b.Some? ==> a.Some? && a.value <= b.value
  }

  predicate LimitsRaised(a: Option<Limits>, b: Option<Limits>) {
    && (a.Some? <==> b.Some?)
    && (a.Some? ==>
          && CapsRaised(a.value.perTransaction, b.value.perTransaction)
          && CapsRaised(a.value.daily, b.value.daily)
          && CapsRaised(a.value.hourly, b.value.hourly)
          && CapsRaised(a.value.monthly, b.value.monthly)
          && CountRaised(a.value.hourlyTxCount, b.value.hourlyTxCount))
  }

  predicate RulesRaised(a: Option<Rules>, b: Option<Rules>) {
    && (a.Some? <==> b.Some?)
    && (a.Some? ==>
          && LimitsRaised(a.value.limits, b.value.limits)
          && CountRaised(a.value.maxPerHour, b.value.maxPerHour)
          && b.value == a.value.(limits := b.value.limits, maxPerHour := b.value.maxPerHour))
  }

  predicate Raised(a: Policy, b: Policy) {
    b == a.(rules := b.rules) && RulesRaised(a.rules, b.rules)
  }

  lemma PerTransactionEased(a: Option<map<string, string>>, b: Option<map<string, string>>, token: string, amount: u128)
    requires CapsRaised(a, b) && CapsReadable(a) && !PerTransactionRefuses(a, token, amount)
    ensures !PerTransactionRefuses(b, token, amount)
  {
  }

  lemma WindowEased(a: Option<map<string, string>>, b: Option<map<string, string>>, w: Window, u: Usage, v: Usage,
                    token: string, amount: u128)
    requires CapsRaised(a, b) && CapsReadable(a) && Eased(u, v) && !WindowRefuses(a, w, u, token, amount)
    ensures !WindowRefuses(b, w, v, token, amount)
  {
  }

  lemma DecodedWindowEased(a: Limits, b: Limits, w: Window, u: Usage, v: Usage, fx: Effects.EffectsSet)
    requires CapsRaised(Caps(a, w), Caps(b, w)) && CapsReadable(Caps(a, w)) && Eased(u, v)
    requires !DecodedWindowRefuses(a, w, u, fx)
    ensures !DecodedWindowRefuses(b, w, v, fx)
  {
    hide CapsRaised, CapsReadable, WindowRefuses, TokenTotal, MovedTokens, Eased;
    if fx.nativeTotal > 0 {
      WindowEased(Caps(a, w), Caps(b, w), w, u, v, NATIVE, fx.nativeTotal);
    }
    forall token | token in MovedTokens(fx.tokenMoves)
      ensures !WindowRefuses(Caps(b, w), w, v, token, TokenTotal(fx.tokenMoves, token))
    {
      WindowEased(Caps(a, w), Caps(b, w), w, u, v, token, TokenTotal(fx.tokenMoves, token));
    }
  }

  lemma LimitStageEased(a: Option<Rules>, b: Option<Rules>, fx: Effects.EffectsSet, u: Option<Usage>, v: Option<Usage>)
    requires RulesRaised(a, b) && LimitsReadable(a) && EasedOrAbsent(u, v)
    requires LimitStage(a, fx, u).None?
    ensures LimitStage(b, fx, v).None?
  {
    hide CapsRaised, CapsReadable, WindowRefuses, PerTransactionRefuses, DecodedWindowRefuses, TokenTotal, MovedTokens,
         Eased, CountRaised;
    if a.Some? && a.value.limits.Some? {
      var x, y := a.value.limits.value, b.value.limits.value;
      PerTransactionEased(x.perTransaction, y.perTransaction, NATIVE, fx.nativeTotal);
      forall token | token in MovedTokens(fx.tokenMoves)
        ensures !PerTransactionRefuses(y.perTransaction, token, TokenTotal(fx.tokenMoves, token))
      {
        PerTransactionEased(x.perTransaction, y.perTransaction, token, TokenTotal(fx.tokenMoves, token));
      }
      if v.Some? {
        DecodedWindowEased(x, y, Daily, u.value, v.value, fx);
        DecodedWindowEased(x, y, Hourly, u.value, v.value, fx);
        DecodedWindowEased(x, y, Monthly, u.value, v.value, fx);
      }
    }
  }

  lemma FencesUnchanged(a: Option<Rules>, b: Option<Rules>, fx: Effects.EffectsSet)
    requires RulesRaised(a, b)
    ensures AddressStage(a, fx) == AddressStage(b, fx) && TokenStage(a, fx) == TokenStage(b, fx)
  {
  }

  lemma DoorEased(a: Option<Rules>, b: Option<Rules>, body: CallBody, u: Option<Usage>, v: Option<Usage>)
    requires RulesRaised(a, b) && LimitsReadable(a) && EasedOrAbsent(u, v)
    requires ExtensionStage(a, body, u).None?
    ensures ExtensionStage(b, body, v).None?
  {
    hide AddressStage, TokenStage, LimitStage, R.FiguresReadable, RulesRaised, LimitsReadable, EasedOrAbsent;
    var fx := Effects.EffectsOf(body.req, body.size);
    FencesUnchanged(a, b, fx);
    LimitStageEased(a, b, fx, u, v);
  }

  lemma ScalarEased(a: Option<Rules>, b: Option<Rules>, op: Op, amount: u128, u: Option<Usage>, v: Option<Usage>)
    requires RulesRaised(a, b) && LimitsReadable(a) && EasedOrAbsent(u, v)
    requires ScalarLimitStage(a, op, amount, u).None?
    ensures ScalarLimitStage(b, op, amount, v).None?
  {
    hide CapsRaised, CapsReadable, WindowRefuses, PerTransactionRefuses, Eased, CountRaised;
    if a.Some? && a.value.limits.Some? {
      var x, y := a.value.limits.value, b.value.limits.value;
      PerTransactionEased(x.perTransaction, y.perTransaction, op.Token(), amount);
      if v.Some? {
        WindowEased(x.daily, y.daily, Daily, u.value, v.value, op.Token(), amount);
        WindowEased(x.hourly, y.hourly, Hourly, u.value, v.value, op.Token(), amount);
        WindowEased(x.monthly, y.monthly, Monthly, u.value, v.value, op.Token(), amount);
      }
    }
  }

  lemma RateEased(a: Option<Rules>, b: Option<Rules>, u: Usage, v: Usage)
    requires RulesRaised(a, b) && Eased(u, v) && !RateRefuses(a, u)
    ensures !RateRefuses(b, v)
  {
  }

  lemma StandardEased(a: Option<Rules>, b: Option<Rules>, op: Op, u: Option<Usage>, v: Option<Usage>)
    requires RulesRaised(a, b) && EasedOrAbsent(u, v) && (op.Amount().Some? ==> LimitsReadable(a))
    requires StandardStage(a, op, u).None?
    ensures StandardStage(b, op, v).None?
  {
    hide ScalarLimitStage, RateRefuses, LimitsRaised, CountRaised, ModeOf, ModeAllows, ParseU128, NormalizeType,
         LimitsReadable, Eased;
    if op.Amount().Some? {
      ScalarEased(a, b, op, ParseU128(op.Amount().value).value, u, v);
    }
    if v.Some? {
      RateEased(a, b, u.value, v.value);
    }
  }

  lemma ReadableEased(a: Option<Rules>, b: Option<Rules>)
    requires RulesRaised(a, b) && LimitsReadable(a)
    ensures LimitsReadable(b)
  {
  }

  /** What is permitted stays permitted, with the same decision, under smaller counters (or
      none) and higher caps on the same keys. */
  lemma PermissionIsMonotone(a: Policy, b: Policy, op: Op, u: Option<Usage>, v: Option<Usage>, now: nat)
    requires Raised(a, b) && EasedOrAbsent(u, v)
    requires Evaluate(a, op, u, now).Permits()
    ensures Evaluate(b, op, v, now) == Evaluate(a, op, u, now)
  {
    hide ExtensionStage, StandardStage, TailStage, LimitsReadable, EasedOrAbsent, RulesRaised;
    if !(op.Auth? || a.frozen) {
      if op.Amount().Some? {
        ReadableEased(a.rules, b.rules);
      }
      if op.IsExtensionCall() {
        Invariance.DoorDenies(a.rules, op.body, u);
        DoorEased(a.rules, b.rules, op.body, u, v);
      }
      StandardDenies(a.rules, op, u);
      StandardEased(a.rules, b.rules, op, u, v);
      SameTail(a, b, op, now);
    }
  }

  lemma SameTail(a: Policy, b: Policy, op: Op, now: nat)
    requires Raised(a, b)
    ensures TailStage(a, op, now) == TailStage(b, op, now)
  {
  }
}
