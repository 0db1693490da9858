/** Evaluating a policy against an operation: one decision ladder, its stateful rungs on
    only when counters are supplied. */
module Evaluation {
  import opened Common
  import opened Effects
  import opened Policy
  import R = Request

  /** Which rule refused. Sentences are not modelled. */
  datatype Gate =
    | NotSignedHere
    | LockedNear
    | LimitUnreadable
    | Undecodable
    | ControlOps
    | UnstatableCall(at: nat)
    | AddressMode
    | DecodedAddress(at: nat)
    | DecodedToken(at: nat)
    | DecodedPerTransaction
    | DecodedVelocity(w: Window)
    | TransactionType
    | TokenNotAllowed
    | Address
    | AmountUnreadable
    | PerTransaction
    | Velocity(w: Window)
    | RateLimit
    | Time
    | CapabilityOff
    | RawNear
    | RawChain
    | IntentsCall
    | NoThreshold

  datatype Decision = Allow | Deny(gate: Gate) | RequiresApproval(threshold: int) | Frozen
  {
    predicate Permits() {
      Allow? || RequiresApproval?
    }
  }

  // ---------------------------------------------------------------------------
  // Addresses
  // ---------------------------------------------------------------------------

  datatype Mode = Whitelist | Blacklist | Unfiltered

  function ModeOf(a: Addresses): Option<Mode> {
    var mode := if a.mode.Some? then a.mode.value else "whitelist";
    if mode == "whitelist" then Some(Whitelist)
    else if mode == "blacklist" then Some(Blacklist)
    else if mode == "none" then Some(Unfiltered)
    else None
  }

  predicate IsEvm(s: string) {
    |s| == 42 && s[..2] == "0x" && forall i :: 2 <= i < 42 ==> IsHexDigit(s[i])
  }

  predicate SameAddress(listed: string, dest: string) {
    if IsEvm(listed) && IsEvm(dest) then Lower(listed) == Lower(dest) else listed == dest
  }

  predicate Listed(a: Addresses, dest: string) {
    exists i :: 0 <= i < |a.list| && SameAddress(a.list[i], dest)
  }

  predicate ModeAllows(a: Addresses, mode: Mode, dest: string) {
    match mode
    case Whitelist => Listed(a, dest)
    case Blacklist => !Listed(a, dest)
    case Unfiltered => true
  }

  // ---------------------------------------------------------------------------
  // Limits
  // ---------------------------------------------------------------------------

  /** The token's own cap, else the wildcard's. */
  function LookupLimit(caps: map<string, string>, token: string): Option<u128> {
    if token in caps then ParseU128(caps[token])
    else if "*" in caps then ParseU128(caps["*"])
    else None
  }

  predicate CapsReadable(caps: Option<map<string, string>>) {
    caps.Some? ==> forall token :: token in caps.value ==> ParseU128(caps.value[token]).Some?
  }

  predicate LimitsReadable(rules: Option<Rules>) {
    rules.Some? && rules.value.limits.Some? ==>
      var limits := rules.value.limits.value;
      && CapsReadable(limits.perTransaction)
      && CapsReadable(limits.daily) && CapsReadable(limits.hourly) && CapsReadable(limits.monthly)
  }

  /** Spending `amount` of `token` passes the cap of one window, or cannot be measured. */
  predicate WindowRefuses(caps: Option<map<string, string>>, w: Window, usage: Usage, token: string, amount: u128) {
    && caps.Some?
    && LookupLimit(caps.value, token).Some?
    && (usage.CounterUnreadable(w, token)
        || SatAdd(usage.Spent(w, token), amount) > LookupLimit(caps.value, token).value)
  }

  predicate PerTransactionRefuses(caps: Option<map<string, string>>, token: string, amount: u128) {
    && caps.Some?
    && LookupLimit(caps.value, token).Some?
    && amount > LookupLimit(caps.value, token).value
  }

  /** The stricter of the two places an hourly count may be capped. */
  function CountCap(rules: Rules): Option<int> {
    var a := if rules.limits.Some? then rules.limits.value.hourlyTxCount else None;
    match (a, rules.maxPerHour)
    case (Some(x), Some(y)) => Some(if x <= y then x else y)
    case (Some(x), None) => Some(x)
    case (None, m) => m
  }

  predicate RateRefuses(rules: Option<Rules>, usage: Usage) {
    && rules.Some? && CountCap(rules.value).Some?
    && (usage.allUnreadable || usage.hourlyTxCount >= CountCap(rules.value).value)
  }

  // ---------------------------------------------------------------------------
  // The extension door
  // ---------------------------------------------------------------------------

  /** Fungible total of one token over the moves, saturating as it goes. */
  function TokenTotal(moves: seq<TokenMove>, token: string): u128 {
    if moves == [] then 0
    else
      var last := moves[|moves| - 1];
      var before := TokenTotal(moves[..|moves| - 1], token);
      if last.amount.Fungible? && last.token == token then SatAdd(before, last.amount.units) else before
  }

  /** The tokens with at least one fungible move: the keys of the totals map. */
  function MovedTokens(moves: seq<TokenMove>): set<string> {
    set m | m in moves && m.amount.Fungible? :: m.token
  }

  function Numbered(receivers: seq<string>): seq<(nat, string)> {
    seq(|receivers|, i requires 0 <= i < |receivers| => (i, receivers[i]))
  }

  function Recipients(moves: seq<TokenMove>): seq<(nat, string)> {
    seq(|moves|, j requires 0 <= j < |moves| => (moves[j].promiseIndex, moves[j].recipient))
  }

  function Touched(fx: EffectsSet): seq<(nat, string)> {
    Numbered(fx.receivers) + fx.refundTos + Recipients(fx.tokenMoves) + Beneficiaries(fx.storageRegistrations)
  }

  function Beneficiaries(regs: seq<StorageRegistration>): seq<(nat, string)> {
    if regs == [] then []
    else
      var last := regs[|regs| - 1];
      Beneficiaries(regs[..|regs| - 1])
      + (if last.account.Some? then [(last.promiseIndex, last.account.value)] else [])
  }

  function FirstRefusedAddress(a: Addresses, mode: Mode, touched: seq<(nat, string)>): Option<nat> {
    if touched == [] then None
    else if !ModeAllows(a, mode, touched[0].1) then Some(touched[0].0)
    else FirstRefusedAddress(a, mode, touched[1..])
  }

  function FirstRefusedToken(allowed: seq<string>, moves: seq<TokenMove>): Option<nat> {
    if moves == [] then None
    else if moves[0].token !in allowed then Some(moves[0].promiseIndex)
    else FirstRefusedToken(allowed, moves[1..])
  }

  function AddressStage(rules: Option<Rules>, fx: EffectsSet): Option<Decision> {
    if rules.None? || rules.value.addresses.None? then None
    else
      var a := rules.value.addresses.value;
      match ModeOf(a)
      case None => Some(Deny(AddressMode))
      case Some(mode) =>
        match FirstRefusedAddress(a, mode, Touched(fx))
        case Some(at) => Some(Deny(DecodedAddress(at)))
        case None => None
  }

  function TokenStage(rules: Option<Rules>, fx: EffectsSet): Option<Decision> {
    if rules.None? || rules.value.allowedTokens.None? || "*" in rules.value.allowedTokens.value then None
    else match FirstRefusedToken(rules.value.allowedTokens.value, fx.tokenMoves)
      case Some(at) => Some(Deny(DecodedToken(at)))
      case None => None
  }

  predicate DecodedPerTransactionRefuses(limits: Limits, fx: EffectsSet) {
    || PerTransactionRefuses(limits.perTransaction, NATIVE, fx.nativeTotal)
    || exists token :: token in MovedTokens(fx.tokenMoves)
         && PerTransactionRefuses(limits.perTransaction, token, TokenTotal(fx.tokenMoves, token))
  }

  predicate DecodedWindowRefuses(limits: Limits, w: Window, usage: Usage, fx: EffectsSet) {
    || (fx.nativeTotal > 0 && WindowRefuses(Caps(limits, w), w, usage, NATIVE, fx.nativeTotal))
    || exists token :: token in MovedTokens(fx.tokenMoves)
         && WindowRefuses(Caps(limits, w), w, usage, token, TokenTotal(fx.tokenMoves, token))
  }

  function LimitStage(rules: Option<Rules>, fx: EffectsSet, usage: Option<Usage>): Option<Decision> {
    if rules.None? || rules.value.limits.None? then None
    else
      var limits := rules.value.limits.value;
      if DecodedPerTransactionRefuses(limits, fx) then Some(Deny(DecodedPerTransaction))
      else if usage.None? then None
      else if DecodedWindowRefuses(limits, Daily, usage.value, fx) then Some(Deny(DecodedVelocity(Daily)))
      else if DecodedWindowRefuses(limits, Hourly, usage.value, fx) then Some(Deny(DecodedVelocity(Hourly)))
      else if DecodedWindowRefuses(limits, Monthly, usage.value, fx) then Some(Deny(DecodedVelocity(Monthly)))
      else None
  }

  /** The decoded effects against the owner's rules; `None` lets the call through to the
      standard gates. */
  function EffectsStage(rules: Option<Rules>, fx: EffectsSet, usage: Option<Usage>): Option<Decision> {
    if fx.hasInternal then Some(Deny(ControlOps))
    else if fx.unknownFundMoving != [] then Some(Deny(UnstatableCall(fx.unknownFundMoving[0].promiseIndex)))
    else
      var address := AddressStage(rules, fx);
      if address.Some? then address
      else
        var token := TokenStage(rules, fx);
        if token.Some? then token else LimitStage(rules, fx, usage)
  }

  function ExtensionStage(rules: Option<Rules>, body: CallBody, usage: Option<Usage>): Option<Decision> {
    if !body.Body? || !R.RequestReadable(body.req) then Some(Deny(Undecodable))
    else EffectsStage(rules, EffectsOf(body.req, body.size), usage)
  }

  // ---------------------------------------------------------------------------
  // Time
  // ---------------------------------------------------------------------------

  predicate TimeRefuses(tr: TimeRestrictions, now: nat) {
    var hour := now % 86_400 / 3_600;
    var weekday := (now / 86_400 + 3) % 7 + 1;
    || (tr.timezone.Some? && tr.timezone.value != "UTC")
    || (tr.allowedHours.Some? && HoursRefuse(tr.allowedHours.value, hour))
    || (tr.allowedDays.Some? && weekday !in tr.allowedDays.value)
  }

  predicate HoursRefuse(hours: seq<nat>, hour: nat) {
    if |hours| != 2 || hours[0] >= 24 || hours[1] >= 24 then true
    else if hours[0] <= hours[1] then !(hours[0] <= hour < hours[1])
    else !(hours[0] <= hour || hour < hours[1])
  }

  // ---------------------------------------------------------------------------
  // Capabilities
  // ---------------------------------------------------------------------------

  function Cap(caps: Option<Capabilities>, field: Capabilities -> Option<Capability>): Option<Capability> {
    if caps.Some? then field(caps.value) else None
  }

  function ApprovalDemand(approval: Option<Approval>): Decision {
    if approval.Some? && approval.value.threshold.Some? then RequiresApproval(approval.value.threshold.value.Required())
    else Deny(NoThreshold)
  }

  predicate ExtensionReachesIntents(body: CallBody) {
    && body.Body? && R.RequestReadable(body.req)
    && exists i :: 0 <= i < |body.req.external| && IsIntentsContract(body.req.external[i].receiver)
  }

  /** An operation that would act as the wallet's own intents account. */
  predicate ReachesIntents(op: Op) {
    && op.Call?
    && (IsFencedIntentsCall(op.to, op.methodName) || (op.IsExtensionCall() && ExtensionReachesIntents(op.body)))
  }

  function IntentsCallStage(caps: Option<Capabilities>, approval: Option<Approval>): Option<Decision> {
    var cap := Cap(caps, (c: Capabilities) => c.intentsCall);
    if !Allowed(cap, false) then Some(Deny(IntentsCall))
    else if NeedsApproval(cap) then Some(ApprovalDemand(approval))
    else None
  }

  /** The capability an op other than a call answers to, and whether it is on by default. */
  function CapabilityOf(caps: Option<Capabilities>, op: Op): Option<(Option<Capability>, bool)> {
    match op
    case Raw(_, _) => Some((Cap(caps, (c: Capabilities) => c.rawSign), false))
    case Confidential(_, _, _, _) => Some((Cap(caps, (c: Capabilities) => c.confidential), false))
    case SignMessage(_, _) => Some((Cap(caps, (c: Capabilities) => c.signMessage), true))
    case PaymentCheck(_, _) => Some((Cap(caps, (c: Capabilities) => c.paymentCheck), false))
    case Swap(_, _, _, _) => Some((Cap(caps, (c: Capabilities) => c.swap), false))
    case CrossChainWithdraw(_, _, _, _) => Some((Cap(caps, (c: Capabilities) => c.crossChainWithdraw), false))
    case LimitOrder(_, _, _, _, _, _) => Some((Cap(caps, (c: Capabilities) => c.limitOrder), false))
    case _ => None
  }

  function RawChainStage(cap: Option<Capability>, chain: string): Option<Decision> {
    var chains := if cap.Some? then cap.value.chains else None;
    if NamesNear(chain) && chains.None? then Some(Deny(RawNear))
    else if chains.Some? && chain !in chains.value then Some(Deny(RawChain))
    else None
  }

  /** The capability the op itself answers to, given what the confidential shard demands. */
  function OwnCapabilityStage(caps: Option<Capabilities>, approval: Option<Approval>, op: Op, demand: Option<Decision>)
    : Option<Decision>
  {
    if op.Call? then (if ReachesIntents(op) then IntentsCallStage(caps, approval) else None)
    else match CapabilityOf(caps, op)
      case None => None
      case Some((cap, default)) =>
        if !Allowed(cap, default) then Some(Deny(CapabilityOff))
        else
          var raw := if op.Raw? then RawChainStage(cap, op.chain) else None;
          if raw.Some? then raw
          else if NeedsApproval(cap) then Some(ApprovalDemand(approval))
          else demand
  }

  function CheckCapabilities(caps: Option<Capabilities>, approval: Option<Approval>, op: Op): Option<Decision> {
    if op.LimitOrder? && op.toType.ConfidentialIntents? then
      var cap := Cap(caps, (c: Capabilities) => c.confidential);
      if !Allowed(cap, false) then Some(Deny(CapabilityOff))
      else if NeedsApproval(cap) then
        var demand := ApprovalDemand(approval);
        if demand.Deny? then Some(demand) else OwnCapabilityStage(caps, approval, op, Some(demand))
      else OwnCapabilityStage(caps, approval, op, None)
    else OwnCapabilityStage(caps, approval, op, None)
  }

  // ---------------------------------------------------------------------------
  // The ladder
  // ---------------------------------------------------------------------------

  predicate SurvivesAFreeze(op: Op) {
    op.Auth? && op.purpose == "jwt"
  }

  predicate Locked(approval: Option<Approval>) {
    approval.Some? && Flag(approval.value.locked, false)
  }

  function NormalizeType(t: string): string {
    if t == "intents_deposit" || t == "storage_deposit" || t == "cross_chain_deposit" then "call" else t
  }

  predicate TypeRefuses(rules: Option<Rules>, op: Op) {
    && rules.Some? && rules.value.transactionTypes.Some? && !op.SignMessage?
    && forall i :: 0 <= i < |rules.value.transactionTypes.value| ==>
         NormalizeType(rules.value.transactionTypes.value[i]) !in op.TypeAliases()
  }

  predicate TokenRefuses(rules: Option<Rules>, op: Op) {
    && rules.Some? && rules.value.allowedTokens.Some? && !op.SignMessage?
    && "*" !in rules.value.allowedTokens.value
    && op.Token() !in rules.value.allowedTokens.value
  }

  function DestinationStage(rules: Option<Rules>, op: Op): Option<Decision> {
    if rules.None? || rules.value.addresses.None? || op.Destination().None? || op.Destination().value == "" then None
    else match ModeOf(rules.value.addresses.value)
      case None => Some(Deny(AddressMode))
      case Some(mode) =>
        if ModeAllows(rules.value.addresses.value, mode, op.Destination().value) then None else Some(Deny(Address))
  }

  function ScalarLimitStage(rules: Option<Rules>, op: Op, amount: u128, usage: Option<Usage>): Option<Decision> {
    if rules.None? || rules.value.limits.None? then None
    else
      var limits := rules.value.limits.value;
      if PerTransactionRefuses(limits.perTransaction, op.Token(), amount) then Some(Deny(PerTransaction))
      else if usage.None? then None
      else if WindowRefuses(limits.daily, Daily, usage.value, op.Token(), amount) then Some(Deny(Velocity(Daily)))
      else if WindowRefuses(limits.hourly, Hourly, usage.value, op.Token(), amount) then Some(Deny(Velocity(Hourly)))
      else if WindowRefuses(limits.monthly, Monthly, usage.value, op.Token(), amount) then Some(Deny(Velocity(Monthly)))
      else None
  }

  function AmountStage(rules: Option<Rules>, op: Op, usage: Option<Usage>): Option<Decision> {
    match op.Amount()
    case None => None
    case Some(text) =>
      match ParseU128(text)
      case None => Some(Deny(AmountUnreadable))
      case Some(amount) => ScalarLimitStage(rules, op, amount, usage)
  }

  function ApprovalStage(approval: Option<Approval>, op: Op): Decision {
    if op.TriggersApproval() && approval.Some? && approval.value.threshold.Some? && !Excluded(approval.value, op) then
      RequiresApproval(approval.value.threshold.value.Required())
    else Allow
  }

  predicate Excluded(approval: Approval, op: Op) {
    && approval.excludedTypes.Some?
    && exists i :: 0 <= i < |op.TypeAliases()| && op.TypeAliases()[i] in approval.excludedTypes.value
  }

  /** From the time restrictions down: nothing here reads a counter. */
  function TailStage(policy: Policy, op: Op, now: nat): Decision {
    if policy.rules.Some? && policy.rules.value.timeRestrictions.Some?
       && TimeRefuses(policy.rules.value.timeRestrictions.value, now)
    then Deny(Time)
    else match CheckCapabilities(policy.capabilities, policy.approval, op)
      case Some(decision) => decision
      case None => ApprovalStage(policy.approval, op)
  }

  /** Rungs 3 to 7: types, tokens, addresses, amounts, limits and the hourly count. */
  function StandardStage(rules: Option<Rules>, op: Op, usage: Option<Usage>): Option<Decision> {
    if TypeRefuses(rules, op) then Some(Deny(TransactionType))
    else if TokenRefuses(rules, op) then Some(Deny(TokenNotAllowed))
    else
      var destination := DestinationStage(rules, op);
      if destination.Some? then destination
      else
        var amount := AmountStage(rules, op, usage);
        if amount.Some? then amount
        else if usage.Some? && RateRefuses(rules, usage.value) then Some(Deny(RateLimit))
        else None
  }

  lemma StandardDenies(rules: Option<Rules>, op: Op, usage: Option<Usage>)
    ensures StandardStage(rules, op, usage).Some? ==> StandardStage(rules, op, usage).value.Deny?
  {
  }

  function Evaluate(policy: Policy, op: Op, usage: Option<Usage>, now: nat): Decision {
    if op.PolicyUpdate? then Deny(NotSignedHere)
    else if Locked(policy.approval) && op.Raw? && Lower(op.chain) == "near" then Deny(LockedNear)
    else if policy.frozen then (if SurvivesAFreeze(op) then Allow else Frozen)
    else if op.Auth? then Allow
    else if op.Amount().Some? && !LimitsReadable(policy.rules) then Deny(LimitUnreadable)
    else
      var extension := if op.IsExtensionCall() then ExtensionStage(policy.rules, op.body, usage) else None;
      if extension.Some? then extension.value
      else match StandardStage(policy.rules, op, usage)
        case Some(decision) => decision
        case None => TailStage(policy, op, now)
  }

  // ---------------------------------------------------------------------------
  // The door as the source runs it
  // ---------------------------------------------------------------------------

  method EvaluateExtensionCall(rules: Option<Rules>, body: CallBody, usage: Option<Usage>)
    returns (decision: Option<Decision>)
    ensures decision == ExtensionStage(rules, body, usage)
  {
    hide AddressStage, TokenStage, LimitStage, EffectsOf;
    if !body.Body? {
      return Some(Deny(Undecodable));
    }
    var decoded := Effects.Effects(body.req, body.size);
    if decoded.Err? {
      return Some(Deny(Undecodable));
    }
    var fx := decoded.value;
    if fx.hasInternal {
      return Some(Deny(ControlOps));
    }
    if fx.unknownFundMoving != [] {
      return Some(Deny(UnstatableCall(fx.unknownFundMoving[0].promiseIndex)));
    }
    decision := CheckAddresses(rules, fx);
    if decision.Some? {
      return;
    }
    decision := CheckTokens(rules, fx);
    if decision.Some? {
      return;
    }
    decision := CheckLimits(rules, fx, usage);
  }

  /** Every account the request touches, in the order the door judges them. */
  method CollectTouched(fx: EffectsSet) returns (touched: seq<(nat, string)>)
    ensures touched == Touched(fx)
  {
    touched := [];
    for i := 0 to |fx.receivers|
      invariant touched == Numbered(fx.receivers)[..i]
    {
      touched := touched + [(i, fx.receivers[i])];
    }
    touched := touched + fx.refundTos;
    ghost var before := touched;
    for j := 0 to |fx.tokenMoves|
      invariant touched == before + Recipients(fx.tokenMoves)[..j]
    {
      touched := touched + [(fx.tokenMoves[j].promiseIndex, fx.tokenMoves[j].recipient)];
    }
    var beneficiaries := CollectBeneficiaries(fx.storageRegistrations);
    touched := touched + beneficiaries;
  }

  method CollectBeneficiaries(regs: seq<StorageRegistration>) returns (touched: seq<(nat, string)>)
    ensures touched == Beneficiaries(regs)
  {
    touched := [];
    for j := 0 to |regs|
      invariant touched == Beneficiaries(regs[..j])
    {
      assert regs[..j + 1][..j] == regs[..j];
      if regs[j].account.Some? {
        touched := touched + [(regs[j].promiseIndex, regs[j].account.value)];
      }
    }
    assert regs[..|regs|] == regs;
  }

  /** Collect every account the request touches, then judge them in that order. */
  method CheckAddresses(rules: Option<Rules>, fx: EffectsSet) returns (decision: Option<Decision>)
    ensures decision == AddressStage(rules, fx)
  {
    hide Touched, FirstRefusedAddress, ModeOf;
    if rules.None? || rules.value.addresses.None? {
      return None;
    }
    var a := rules.value.addresses.value;
    var mode := ModeOf(a);
    if mode.None? {
      return Some(Deny(AddressMode));
    }
    var touched := CollectTouched(fx);
    decision := FirstAddress(a, mode.value, touched);
  }

  method FirstAddress(a: Addresses, mode: Mode, touched: seq<(nat, string)>) returns (decision: Option<Decision>)
    ensures decision ==
      match FirstRefusedAddress(a, mode, touched)
      case Some(at) => Some(Deny(DecodedAddress(at)))
      case None => None
  {
    for j := 0 to |touched|
      invariant FirstRefusedAddress(a, mode, touched) == FirstRefusedAddress(a, mode, touched[j..])
    {
      if !ModeAllows(a, mode, touched[j].1) {
        return Some(Deny(DecodedAddress(touched[j].0)));
      }
    }
    return None;
  }

  method CheckTokens(rules: Option<Rules>, fx: EffectsSet) returns (decision: Option<Decision>)
    ensures decision == TokenStage(rules, fx)
  {
    if rules.None? || rules.value.allowedTokens.None? || "*" in rules.value.allowedTokens.value {
      return None;
    }
    var allowed := rules.value.allowedTokens.value;
    for j := 0 to |fx.tokenMoves|
      invariant FirstRefusedToken(allowed, fx.tokenMoves) == FirstRefusedToken(allowed, fx.tokenMoves[j..])
    {
      if fx.tokenMoves[j].token !in allowed {
        return Some(Deny(DecodedToken(fx.tokenMoves[j].promiseIndex)));
      }
    }
    return None;
  }

  /** The totals map of the door: one saturating entry per moved token. */
  method TokenTotals(moves: seq<TokenMove>) returns (totals: map<string, u128>)
    ensures totals.Keys == MovedTokens(moves)
    ensures forall token :: token in totals ==> totals[token] == TokenTotal(moves, token)
  {
    totals := map[];
    for j := 0 to |moves|
      invariant totals.Keys == MovedTokens(moves[..j])
      invariant forall token :: token in totals ==> totals[token] == TokenTotal(moves[..j], token)
    {
      var m := moves[j];
      assert moves[..j + 1][..j] == moves[..j];
      assert moves[..j + 1] == moves[..j] + [m];
      if m.amount.Fungible? {
        if m.token !in totals {
          NothingMoved(moves[..j], m.token);
        }
        var entry := if m.token in totals then totals[m.token] else 0;
        totals := totals[m.token := SatAdd(entry, m.amount.units)];
      }
    }
    assert moves[..|moves|] == moves;
  }

  lemma {:induction false} NothingMoved(moves: seq<TokenMove>, token: string)
    requires token !in MovedTokens(moves)
    ensures TokenTotal(moves, token) == 0
  {
    if moves != [] {
      var init, last := moves[..|moves| - 1], moves[|moves| - 1];
      assert last in moves;
      assert forall m :: m in init ==> m in moves;
      NothingMoved(init, token);
    }
  }

  method CheckLimits(rules: Option<Rules>, fx: EffectsSet, usage: Option<Usage>) returns (decision: Option<Decision>)
    ensures decision == LimitStage(rules, fx, usage)
  {
    hide TokenTotal, LookupLimit, MovedTokens;
    var totals := TokenTotals(fx.tokenMoves);
    if rules.None? || rules.value.limits.None? {
      return None;
    }
    var limits := rules.value.limits.value;
    if PerTransactionRefuses(limits.perTransaction, NATIVE, fx.nativeTotal) {
      return Some(Deny(DecodedPerTransaction));
    }
    var tokens := totals.Keys;
    while tokens != {}
      invariant tokens <= totals.Keys
      invariant forall token :: token in totals.Keys - tokens ==>
                  !PerTransactionRefuses(limits.perTransaction, token, totals[token])
      decreases tokens
    {
      var token :| token in tokens;
      if PerTransactionRefuses(limits.perTransaction, token, totals[token]) {
        return Some(Deny(DecodedPerTransaction));
      }
      tokens := tokens - {token};
    }
    if usage.None? {
      return None;
    }
    var refused := CheckWindow(limits, Daily, usage.value, fx, totals);
    if refused {
      return Some(Deny(DecodedVelocity(Daily)));
    }
    refused := CheckWindow(limits, Hourly, usage.value, fx, totals);
    if refused {
      return Some(Deny(DecodedVelocity(Hourly)));
    }
    refused := CheckWindow(limits, Monthly, usage.value, fx, totals);
    return if refused then Some(Deny(DecodedVelocity(Monthly))) else None;
  }

  method CheckWindow(limits: Limits, w: Window, usage: Usage, fx: EffectsSet, totals: map<string, u128>)
    returns (refused: bool)
    requires totals.Keys == MovedTokens(fx.tokenMoves)
    requires forall token :: token in totals ==> totals[token] == TokenTotal(fx.tokenMoves, token)
    ensures refused <==> DecodedWindowRefuses(limits, w, usage, fx)
  {
    hide TokenTotal, WindowRefuses, MovedTokens;
    if fx.nativeTotal > 0 && WindowRefuses(Caps(limits, w), w, usage, NATIVE, fx.nativeTotal) {
      return true;
    }
    var tokens := totals.Keys;
    while tokens != {}
      invariant tokens <= totals.Keys
      invariant forall token :: token in totals.Keys - tokens ==>
                  !WindowRefuses(Caps(limits, w), w, usage, token, totals[token])
      decreases tokens
    {
      var token :| token in tokens;
      if WindowRefuses(Caps(limits, w), w, usage, token, totals[token]) {
        return true;
      }
      tokens := tokens - {token};
    }
    return false;
  }
}
