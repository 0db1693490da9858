/** The decision ladder read without its order: when an operation is permitted at all, and
    when its permission waits for votes. */
module Ladder {
  import opened Common
  import opened Policy
  import opened Evaluation
  import opened Extension
  import Invariance

  // ---------------------------------------------------------------------------
  // What each rule asks, on its own
  // ---------------------------------------------------------------------------

  /** The owner listed the operation's type, under any of its names. */
  predicate TypeListed(rules: Option<Rules>, op: Op) {
    rules.Some? && rules.value.transactionTypes.Some? && !op.SignMessage? ==>
      exists t :: t in rules.value.transactionTypes.value && NormalizeType(t) in op.TypeAliases()
  }

  predicate TokenListed(rules: Option<Rules>, op: Op) {
    op.SignMessage? || Movable(FenceOf(rules), op.Token())
  }

  predicate DestinationPayable(rules: Option<Rules>, op: Op) {
    op.Destination().Some? && op.Destination().value != "" ==> Payable(FenceOf(rules), op.Destination().value)
  }

  /** The amount reads, and it fits every cap that applies to its token. */
  ghost predicate AmountFits(rules: Option<Rules>, op: Op, usage: Option<Usage>) {
    op.Amount().Some? ==>
      && ParseU128(op.Amount().value).Some?
      && (rules.Some? && rules.value.limits.Some? ==>
            var amount := ParseU128(op.Amount().value).value;
            var limits := rules.value.limits.value;
            && WithinPerTransaction(limits.perTransaction, op.Token(), amount)
            && (usage.Some? ==> forall w :: WithinWindow(limits, w, usage.value, op.Token(), amount)))
  }

  /** The hourly count is known and below every cap on it. */
  predicate CountFits(rules: Option<Rules>, usage: Option<Usage>) {
    rules.Some? && usage.Some? ==>
      && CountBelow(rules.value.maxPerHour, usage.value)
      && (rules.value.limits.Some? ==> CountBelow(rules.value.limits.value.hourlyTxCount, usage.value))
  }

  predicate CountBelow(cap: Option<int>, usage: Usage) {
    cap.Some? ==> !usage.allUnreadable && usage.hourlyTxCount < cap.value
  }

  predicate InHours(rules: Option<Rules>, now: nat) {
    rules.Some? && rules.value.timeRestrictions.Some? ==> !TimeRefuses(rules.value.timeRestrictions.value, now)
  }

  /** Every capability an operation answers to, by name. */
  datatype Power = RawSign | Confidentiality | Messages | Checks | Swaps | CrossChain | Orders | IntentsCalls

  function PowerCap(caps: Option<Capabilities>, power: Power): Option<Capability> {
    if caps.None? then None
    else match power
      case RawSign => caps.value.rawSign
      case Confidentiality => caps.value.confidential
      case Messages => caps.value.signMessage
      case Checks => caps.value.paymentCheck
      case Swaps => caps.value.swap
      case CrossChain => caps.value.crossChainWithdraw
      case Orders => caps.value.limitOrder
      case IntentsCalls => caps.value.intentsCall
  }

  predicate AnswersTo(op: Op, power: Power) {
    match power
    case RawSign => op.Raw?
    case Confidentiality => op.Confidential? || (op.LimitOrder? && op.toType.ConfidentialIntents?)
    case Messages => op.SignMessage?
    case Checks => op.PaymentCheck?
    case Swaps => op.Swap?
    case CrossChain => op.CrossChainWithdraw?
    case Orders => op.LimitOrder?
    case IntentsCalls => ReachesIntents(op)
  }

  /** On only when the owner said so; message signing is on unless the owner said not. */
  predicate PowerOn(caps: Option<Capabilities>, power: Power) {
    var cap := PowerCap(caps, power);
    if power == Messages then !(cap.Some? && cap.value.allowed == Some(false))
    else cap.Some? && cap.value.allowed == Some(true)
  }

  /** A raw signature is for a chain the owner listed; without a list, for any but near. */
  predicate ChainOpen(caps: Option<Capabilities>, op: Op) {
    op.Raw? ==>
      var cap := PowerCap(caps, RawSign);
      if cap.Some? && cap.value.chains.Some? then op.chain in cap.value.chains.value else !NamesNear(op.chain)
  }

  predicate PowerWantsVotes(caps: Option<Capabilities>, op: Op) {
    exists power :: AnswersTo(op, power) && NeedsApproval(PowerCap(caps, power))
  }

  predicate HasThreshold(policy: Policy) {
    policy.approval.Some? && policy.approval.value.threshold.Some?
  }

  predicate PowersGranted(policy: Policy, op: Op) {
    && (forall power :: AnswersTo(op, power) ==> PowerOn(policy.capabilities, power))
    && ChainOpen(policy.capabilities, op)
    && (PowerWantsVotes(policy.capabilities, op) ==> HasThreshold(policy))
  }

  /** The permission waits for votes: a power asks for them, or the op moves funds under a
      threshold it is not excluded from. */
  predicate WaitsForVotes(policy: Policy, op: Op) {
    || PowerWantsVotes(policy.capabilities, op)
    || (op.TriggersApproval() && HasThreshold(policy) && !Excluded(policy.approval.value, op))
  }

  /** Every rule at once. */
  ghost predicate EveryRulePasses(policy: Policy, op: Op, usage: Option<Usage>, now: nat) {
    && !op.PolicyUpdate?
    && !(Locked(policy.approval) && op.Raw? && Lower(op.chain) == "near")
    && (op.Amount().Some? ==> LimitsReadable(policy.rules))
    && (op.IsExtensionCall() ==> op.body.Body? && RequestPermitted(policy.rules, op.body.req, usage))
    && TypeListed(policy.rules, op)
    && TokenListed(policy.rules, op)
    && DestinationPayable(policy.rules, op)
    && AmountFits(policy.rules, op, usage)
    && CountFits(policy.rules, usage)
    && InHours(policy.rules, now)
    && PowersGranted(policy, op)
  }

  // ---------------------------------------------------------------------------
  // Rung by rung
  // ---------------------------------------------------------------------------

  lemma TypeRung(rules: Option<Rules>, op: Op)
    ensures TypeRefuses(rules, op) <==> !TypeListed(rules, op)
  {
  }

  lemma DestinationRung(rules: Option<Rules>, op: Op)
    ensures DestinationStage(rules, op).None? <==> DestinationPayable(rules, op)
    ensures DestinationStage(rules, op).Some? ==> DestinationStage(rules, op).value.Deny?
  {
  }

  lemma AmountRung(rules: Option<Rules>, op: Op, usage: Option<Usage>)
    ensures AmountStage(rules, op, usage).None? <==> AmountFits(rules, op, usage)
    ensures AmountStage(rules, op, usage).Some? ==> AmountStage(rules, op, usage).value.Deny?
  {
    hide ParseU128, PerTransactionRefuses, WindowRefuses, WithinPerTransaction, WithinWindow, Op.Token, Op.Amount, Saturate;
    if op.Amount().Some? && ParseU128(op.Amount().value).Some? && rules.Some? && rules.value.limits.Some? {
      var amount, limits := ParseU128(op.Amount().value).value, rules.value.limits.value;
      AmountIsItself(amount);
      PerTransactionTest(limits.perTransaction, op.Token(), amount);
      if usage.Some? {
        WindowTest(limits, Daily, usage.value, op.Token(), amount);
        WindowTest(limits, Hourly, usage.value, op.Token(), amount);
        WindowTest(limits, Monthly, usage.value, op.Token(), amount);
        forall w | WithinWindow(limits, Daily, usage.value, op.Token(), amount)
                   && WithinWindow(limits, Hourly, usage.value, op.Token(), amount)
                   && WithinWindow(limits, Monthly, usage.value, op.Token(), amount)
          ensures WithinWindow(limits, w, usage.value, op.Token(), amount)
        {
          match w {
            case Daily =>
            case Hourly =>
            case Monthly =>
          }
        }
      }
    }
  }

  lemma AmountIsItself(amount: u128)
    ensures Saturate(amount) == amount
  {
  }

  lemma CountRung(rules: Option<Rules>, usage: Option<Usage>)
    ensures !(usage.Some? && RateRefuses(rules, usage.value)) <==> CountFits(rules, usage)
  {
  }

  lemma StandardRungs(rules: Option<Rules>, op: Op, usage: Option<Usage>)
    ensures StandardStage(rules, op, usage).None? <==>
      && TypeListed(rules, op) && TokenListed(rules, op) && DestinationPayable(rules, op)
      && AmountFits(rules, op, usage) && CountFits(rules, usage)
    ensures StandardStage(rules, op, usage).Some? ==> StandardStage(rules, op, usage).value.Deny?
  {
    hide TypeRefuses, DestinationStage, AmountStage, RateRefuses, TypeListed, DestinationPayable, AmountFits, CountFits;
    StandardDenies(rules, op, usage);
    TypeRung(rules, op);
    DestinationRung(rules, op);
    AmountRung(rules, op, usage);
    CountRung(rules, usage);
  }

  /** The power a non-call operation's own capability is. */
  lemma OwnPower(caps: Option<Capabilities>, op: Op, power: Power)
    requires !op.Call? && AnswersTo(op, power) && !(power == Confidentiality && op.LimitOrder?)
    ensures CapabilityOf(caps, op) == Some((PowerCap(caps, power), power == Messages))
  {
  }

  lemma NoPower(caps: Option<Capabilities>, op: Op)
    requires !op.Call? && forall power :: !AnswersTo(op, power)
    ensures CapabilityOf(caps, op).None?
  {
    assert AnswersTo(op, RawSign) || AnswersTo(op, Confidentiality) || AnswersTo(op, Messages) || AnswersTo(op, Checks)
           || AnswersTo(op, Swaps) || AnswersTo(op, CrossChain) || AnswersTo(op, Orders) || CapabilityOf(caps, op).None?;
  }

  lemma OnlyCallsReach(op: Op)
    ensures ReachesIntents(op) ==> op.Call?
  {
  }

  lemma PowerCases(power: Power)
    ensures power in {RawSign, Confidentiality, Messages, Checks, Swaps, CrossChain, Orders, IntentsCalls}
  {
  }

  /** What the capability rung answers: nothing it answers to is off, and votes are asked
      for exactly when some power asks for them. */
  lemma CapabilityRung(policy: Policy, op: Op)
    ensures
      match CheckCapabilities(policy.capabilities, policy.approval, op)
      case Some(Deny(_)) => !PowersGranted(policy, op)
      case Some(decision) =>
        && PowersGranted(policy, op) && PowerWantsVotes(policy.capabilities, op)
        && decision == RequiresApproval(policy.approval.value.threshold.value.Required())
      case None => PowersGranted(policy, op) && !PowerWantsVotes(policy.capabilities, op)
  {
    hide NamesNear, ReachesIntents, Threshold.Required;
    var caps := policy.capabilities;
    OnlyCallsReach(op);
    if op.Call? {
      forall power
        ensures AnswersTo(op, power) <==> power == IntentsCalls && ReachesIntents(op)
      {
        PowerCases(power);
      }
      assert AnswersTo(op, IntentsCalls) <==> ReachesIntents(op);
    } else if op.LimitOrder? {
      forall power
        ensures AnswersTo(op, power) <==> power == Orders || (power == Confidentiality && op.toType.ConfidentialIntents?)
      {
        PowerCases(power);
      }
      assert AnswersTo(op, Orders);
      assert AnswersTo(op, Confidentiality) <==> op.toType.ConfidentialIntents?;
    } else if power :| AnswersTo(op, power) {
      OwnPower(caps, op, power);
      forall other
        ensures AnswersTo(op, other) ==> other == power
      {
        PowerCases(other);
        PowerCases(power);
      }
    } else {
      NoPower(caps, op);
    }
  }

  /** The whole ladder. An operation is permitted exactly when every rule passes, apart from
      identity proofs, which any wallet that is not frozen may sign, and the one that
      survives a freeze; and its permission waits for votes exactly when a rule asks. */
  lemma EvaluateExactly(policy: Policy, op: Op, usage: Option<Usage>, now: nat)
    ensures Evaluate(policy, op, usage, now).Permits() <==>
      || (op.Auth? && (!policy.frozen || SurvivesAFreeze(op)))
      || (!op.Auth? && !policy.frozen && EveryRulePasses(policy, op, usage, now))
    ensures Evaluate(policy, op, usage, now).Permits() ==>
      Evaluate(policy, op, usage, now)
      == if !op.Auth? && WaitsForVotes(policy, op)
         then RequiresApproval(policy.approval.value.threshold.value.Required()) else Allow
  {
    hide ExtensionStage, StandardStage, CheckCapabilities, LimitsReadable, TypeListed, TokenListed, DestinationPayable,
         AmountFits, CountFits, PowersGranted, RequestPermitted, TimeRefuses, Excluded, PowerWantsVotes, Threshold.Required;
    StandardRungs(policy.rules, op, usage);
    CapabilityRung(policy, op);
    VotesNeedAThreshold(policy, op);
    if op.IsExtensionCall() {
      Invariance.DoorDenies(policy.rules, op.body, usage);
      DoorOfBody(policy.rules, op.body, usage);
    }
  }

  /** Where the standard gates refuse, the refusal names the first rule that fails: type, token,
      address, amount and caps, hourly count, then the time of day. */
  lemma RefusalsAreInOrder(policy: Policy, op: Op, usage: Option<Usage>, now: nat)
    requires !policy.frozen && !op.Auth? && !op.PolicyUpdate? && !op.IsExtensionCall() && !op.Raw?
    requires op.Amount().Some? ==> LimitsReadable(policy.rules)
    ensures
      var decision := Evaluate(policy, op, usage, now);
      if !TypeListed(policy.rules, op) then decision == Deny(TransactionType)
      else if !TokenListed(policy.rules, op) then decision == Deny(TokenNotAllowed)
      else if !DestinationPayable(policy.rules, op) then decision == Deny(AddressMode) || decision == Deny(Address)
      else if op.Amount().Some? && ParseU128(op.Amount().value).None? then decision == Deny(AmountUnreadable)
      else if !AmountFits(policy.rules, op, usage) then
        decision == Deny(PerTransaction) || decision == Deny(Velocity(Daily)) || decision == Deny(Velocity(Hourly))
        || decision == Deny(Velocity(Monthly))
      else if !CountFits(policy.rules, usage) then decision == Deny(RateLimit)
      else if !InHours(policy.rules, now) then decision == Deny(Time)
      else decision == (match CheckCapabilities(policy.capabilities, policy.approval, op)
                        case Some(demand) => demand
                        case None => ApprovalStage(policy.approval, op))
  {
    hide AmountStage, CheckCapabilities, LimitsReadable, TypeListed, TokenListed, DestinationPayable, TypeRefuses, TokenRefuses,
         DestinationStage, RateRefuses, AmountFits, CountFits, TimeRefuses, ApprovalStage, ParseU128;
    TypeRung(policy.rules, op);
    TokenRung(policy.rules, op);
    DestinationRung(policy.rules, op);
    DestinationGate(policy.rules, op);
    AmountRung(policy.rules, op, usage);
    AmountGate(policy.rules, op, usage);
    CountRung(policy.rules, usage);
  }

  lemma TokenRung(rules: Option<Rules>, op: Op)
    ensures TokenRefuses(rules, op) <==> !TokenListed(rules, op)
  {
  }

  lemma DestinationGate(rules: Option<Rules>, op: Op)
    ensures DestinationStage(rules, op).Some? ==> DestinationStage(rules, op).value in {Deny(AddressMode), Deny(Address)}
  {
  }

  lemma AmountGate(rules: Option<Rules>, op: Op, usage: Option<Usage>)
    ensures AmountStage(rules, op, usage).Some? ==> op.Amount().Some?
    ensures AmountStage(rules, op, usage).Some? ==>
      if ParseU128(op.Amount().value).None? then AmountStage(rules, op, usage) == Some(Deny(AmountUnreadable))
      else AmountStage(rules, op, usage).value
           in {Deny(PerTransaction), Deny(Velocity(Daily)), Deny(Velocity(Hourly)), Deny(Velocity(Monthly))}
    ensures op.Amount().Some? && ParseU128(op.Amount().value).None? ==> AmountStage(rules, op, usage).Some?
  {
    hide PerTransactionRefuses, WindowRefuses, ParseU128;
  }

  lemma VotesNeedAThreshold(policy: Policy, op: Op)
    ensures PowersGranted(policy, op) && PowerWantsVotes(policy.capabilities, op) ==> HasThreshold(policy)
  {
  }

  lemma DoorOfBody(rules: Option<Rules>, body: CallBody, usage: Option<Usage>)
    ensures ExtensionStage(rules, body, usage).None? <==> body.Body? && RequestPermitted(rules, body.req, usage)
  {
    if body.Body? {
      hide ExtensionStage, RequestPermitted;
      DoorIsExact(rules, body.req, body.size, usage);
    }
  }
}
