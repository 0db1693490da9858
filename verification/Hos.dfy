/** The `hos_lease` profile: the leased mode's chain status, its spend grant, and the
    refusals its contract would raise over decoded effects. */
module Hos {
  import opened Common
  import opened Json
  import opened Effects
  import opened Violations

  datatype TokenBudget = TokenBudget(budget: string, spent: string)

  datatype SpendGrant = SpendGrant(
    receivers: seq<string>,
    budgetYocto: string,
    spentYocto: string,
    tokens: map<string, TokenBudget>,
    items: map<string, seq<string>>,
    expiresAt: string)

  datatype AgentStatusView = AgentStatusView(
    extensionEnabled: bool,
    grant: Option<Value>,
    state: string,
    frozen: string,
    leaseUntilNs: string,
    reserveYocto: string)

  // ---------------------------------------------------------------------------
  // Reading a grant, absent fields defaulting to the empty grant
  // ---------------------------------------------------------------------------

  const GRANT_FIELDS: seq<string> :=
    ["receivers", "budget_yocto", "spent_yocto", "tokens", "items", "expires_at"]
  const BUDGET_FIELDS: seq<string> := ["budget", "spent"]

  function ReadString(v: Option<Value>, default: string): Option<string> {
    match v
    case None => Some(default)
    case Some(Str(s)) => Some(s)
    case _ => None
  }

  function ReadStrings(items: seq<Value>): Option<seq<string>> {
    if items == [] then Some([])
    else match (items[0], ReadStrings(items[1..]))
      case (Str(s), Some(rest)) => Some([s] + rest)
      case _ => None
  }

  function ReadStringList(v: Option<Value>): Option<seq<string>> {
    match v
    case None => Some([])
    case Some(Arr(items)) => ReadStrings(items)
    case _ => None
  }

  function ReadBudget(v: Value): Option<TokenBudget> {
    if !StructShape(v, BUDGET_FIELDS) then None
    else match (ReadString(Field(v, BUDGET_FIELDS, 0), "0"), ReadString(Field(v, BUDGET_FIELDS, 1), "0"))
      case (Some(budget), Some(spent)) => Some(TokenBudget(budget, spent))
      case _ => None
  }

  function ReadBudgets(entries: seq<Entry>): Option<map<string, TokenBudget>> {
    if entries == [] then Some(map[])
    else match (ReadBudgets(entries[..|entries| - 1]), ReadBudget(entries[|entries| - 1].value))
      case (Some(before), Some(budget)) => Some(before[entries[|entries| - 1].key := budget])
      case _ => None
  }

  function ReadTokens(v: Option<Value>): Option<map<string, TokenBudget>> {
    match v
    case None => Some(map[])
    case Some(Obj(entries)) => ReadBudgets(entries)
    case _ => None
  }

  function ReadFences(entries: seq<Entry>): Option<map<string, seq<string>>> {
    if entries == [] then Some(map[])
    else match (ReadFences(entries[..|entries| - 1]), ReadStringList(Some(entries[|entries| - 1].value)))
      case (Some(before), Some(ids)) => Some(before[entries[|entries| - 1].key := ids])
      case _ => None
  }

  function ReadItems(v: Option<Value>): Option<map<string, seq<string>>> {
    match v
    case None => Some(map[])
    case Some(Obj(entries)) => ReadFences(entries)
    case _ => None
  }

  function ReadGrant(v: Value): Option<SpendGrant> {
    if !StructShape(v, GRANT_FIELDS) then None
    else
      var receivers := ReadStringList(Field(v, GRANT_FIELDS, 0));
      var budget := ReadString(Field(v, GRANT_FIELDS, 1), "0");
      var spent := ReadString(Field(v, GRANT_FIELDS, 2), "0");
      var tokens := ReadTokens(Field(v, GRANT_FIELDS, 3));
      var items := ReadItems(Field(v, GRANT_FIELDS, 4));
      var expires := ReadString(Field(v, GRANT_FIELDS, 5), "0");
      if receivers.Some? && budget.Some? && spent.Some? && tokens.Some? && items.Some? && expires.Some? then
        Some(SpendGrant(receivers.value, budget.value, spent.value, tokens.value, items.value, expires.value))
      else None
  }

  // ---------------------------------------------------------------------------
  // Reading a status, absent fields defaulting to what fails verification
  // ---------------------------------------------------------------------------

  const STATUS_FIELDS: seq<string> :=
    ["extension_enabled", "grant", "state", "frozen", "lease_until_ns", "reserve_yocto", "impl_version"]

  function ReadFlag(v: Option<Value>): Option<bool> {
    match v
    case None => Some(false)
    case Some(Bool(b)) => Some(b)
    case _ => None
  }

  /** `null` is no grant. */
  function ReadOpaque(v: Option<Value>): Option<Value> {
    if v == Some(Null) then None else v
  }

  /** A version is a 32-bit number; nothing here judges it. */
  predicate ReadsAsVersion(v: Option<Value>) {
    v.Some? ==> v.value.Num? && v.value.n.PosInt? && v.value.n.u <= 0xFFFF_FFFF
  }

  function ReadStatus(v: Value): Option<AgentStatusView> {
    if !StructShape(v, STATUS_FIELDS) then None
    else
      var enabled := ReadFlag(Field(v, STATUS_FIELDS, 0));
      var state := ReadString(Field(v, STATUS_FIELDS, 2), "");
      var frozen := ReadString(Field(v, STATUS_FIELDS, 3), "");
      var lease := ReadString(Field(v, STATUS_FIELDS, 4), "0");
      var reserve := ReadString(Field(v, STATUS_FIELDS, 5), "0");
      if enabled.Some? && state.Some? && frozen.Some? && lease.Some? && reserve.Some?
         && ReadsAsVersion(Field(v, STATUS_FIELDS, 6))
      then
        Some(AgentStatusView(enabled.value, ReadOpaque(Field(v, STATUS_FIELDS, 1)), state.value, frozen.value, lease.value,
                             reserve.value))
      else None
  }

  /** What is left of the native budget. */
  function Remaining(g: SpendGrant): u128 {
    SatSub(ParseOr(g.budgetYocto, 0), ParseOr(g.spentYocto, U128_MAX))
  }

  /** What is left of one token's budget. */
  function TokenRemaining(b: TokenBudget): u128 {
    SatSub(ParseOr(b.budget, 0), ParseOr(b.spent, U128_MAX))
  }

  predicate Unexpired(g: SpendGrant, nowNs: u64) {
    ParseU64(g.expiresAt).Some? && ParseU64(g.expiresAt).value > nowNs
  }

  // ---------------------------------------------------------------------------
  // Refusals, one rule at a time
  // ---------------------------------------------------------------------------

  function AtDoor(rule: Rule): Violation {
    Violation(None, Door, Class(rule, None))
  }

  function AtRung(i: nat, rung: nat, rule: Rule): Violation {
    Violation(Some(i), Promise(rung), Class(rule, None))
  }

  function AtShape(i: nat, rung: nat, sub: Subcode): Violation {
    Violation(Some(i), Promise(rung), Class(GrantShape, Some(sub)))
  }

  function FactViolation(f: ShapeFact): Violation {
    match f
    case RefundToSet(i) => AtShape(i, 1, RefundTargetNotAllowed)
    case CallNotStandalone(i) => AtShape(i, 2, CallMustStandAlone)
    case CallDepositNotOneYocto(i, _) => AtShape(i, 3, CallDeposit)
    case NftApprovalIdSet(i) => AtShape(i, 7, ApprovalNotAllowed)
    case TokenArgsUnknownField(i, _) => AtShape(i, 6, ArgsUnreadable)
  }

  function UnknownViolation(u: UnknownCall): Violation {
    if u.methodName == "ft_transfer" || u.methodName == "nft_transfer" then AtShape(u.promiseIndex, 6, ArgsUnreadable)
    else AtShape(u.promiseIndex, 5, MethodNotAllowed)
  }

  function MoveViolations(g: SpendGrant, m: TokenMove): seq<Violation> {
    (if m.recipient !in g.receivers then [AtRung(m.promiseIndex, 8, ReceiverNotGranted)] else [])
    + match m.amount
      case Fungible(units) =>
        if m.token !in g.tokens then [AtRung(m.promiseIndex, 9, TokenNotGranted)]
        else if units > TokenRemaining(g.tokens[m.token]) then [AtRung(m.promiseIndex, 10, TokenBudgetExceeded)]
        else []
      case Item(id) =>
        if m.token !in g.items then [AtRung(m.promiseIndex, 9, CollectionNotGranted)]
        else if id !in g.items[m.token] then [AtRung(m.promiseIndex, 10, ItemNotGranted)]
        else []
  }

  function FactRule(): ShapeFact -> seq<Violation> { (f: ShapeFact) => [FactViolation(f)] }

  function UnknownRule(): UnknownCall -> seq<Violation> { (u: UnknownCall) => [UnknownViolation(u)] }

  function RegistrationRule(): StorageRegistration -> seq<Violation> {
    (s: StorageRegistration) => [AtShape(s.promiseIndex, 5, MethodNotAllowed)]
  }

  function InitRule(): nat -> seq<Violation> { (i: nat) => [AtShape(i, 3, ActionNotAllowed)] }

  function MoveRule(g: SpendGrant): TokenMove -> seq<Violation> { (m: TokenMove) => MoveViolations(g, m) }

  /** The first promise without a call at which the running spend passes what is left. */
  function BudgetBreach(native: seq<u128>, calls: seq<nat>, remaining: u128, running: u128, from: nat): seq<Violation>
    requires from <= |native|
    decreases |native| - from
  {
    if from == |native| then []
    else if from in calls then BudgetBreach(native, calls, remaining, running, from + 1)
    else if SatAdd(running, native[from]) > remaining then [AtRung(from, 4, GrantExhausted)]
    else BudgetBreach(native, calls, remaining, SatAdd(running, native[from]), from + 1)
  }

  /** Receivers outside the grant among the first `n` promises, those with a call left out. */
  function ReceiverViolations(g: SpendGrant, receivers: seq<string>, calls: seq<nat>, n: nat): seq<Violation>
    requires n <= |receivers|
  {
    if n == 0 then []
    else ReceiverViolations(g, receivers, calls, n - 1)
         + (if n - 1 !in calls && receivers[n - 1] !in g.receivers then [AtRung(n - 1, 2, ReceiverNotGranted)] else [])
  }

  function GrantedViolations(fx: EffectsSet, g: SpendGrant): seq<Violation> {
    FlatMap(FactRule(), fx.shapeFacts)
    + FlatMap(UnknownRule(), fx.unknownFundMoving)
    + FlatMap(RegistrationRule(), fx.storageRegistrations)
    + FlatMap(InitRule(), fx.stateInits)
    + BudgetBreach(fx.nativePerPromise, fx.callPromises, Remaining(g), 0, 0)
    + ReceiverViolations(g, fx.receivers, fx.callPromises, |fx.receivers|)
    + FlatMap(MoveRule(g), fx.tokenMoves)
  }

  /** The door: a missing, unreadable or expired grant. */
  function DoorRefusal(status: AgentStatusView, nowNs: u64): Option<Rule> {
    if status.grant.None? then Some(GrantMissing)
    else if ReadGrant(status.grant.value).None? then Some(GrantUnreadable)
    else if !Unexpired(ReadGrant(status.grant.value).value, nowNs) then Some(GrantExpired)
    else None
  }

  /** Every refusal of the leased mode over decoded effects, in the order it collects them. */
  function AdmissionOf(fx: EffectsSet, status: AgentStatusView, nowNs: u64): seq<Violation> {
    match DoorRefusal(status, nowNs)
    case Some(rule) => [AtDoor(rule)]
    case None => GrantedViolations(fx, ReadGrant(status.grant.value).value)
  }

  method PushAll<A>(violations0: seq<Violation>, rule: A -> seq<Violation>, xs: seq<A>)
    returns (violations: seq<Violation>)
    ensures violations == violations0 + FlatMap(rule, xs)
  {
    violations := violations0;
    for j := 0 to |xs|
      invariant violations == violations0 + FlatMap(rule, xs[..j])
    {
      assert xs[..j + 1] == xs[..j] + [xs[j]];
      FlatMapSnoc(rule, xs[..j], xs[j]);
      violations := violations + rule(xs[j]);
    }
    assert xs[..|xs|] == xs;
  }

  method Admission(fx: EffectsSet, status: AgentStatusView, nowNs: u64) returns (violations: seq<Violation>)
    ensures violations == AdmissionOf(fx, status, nowNs)
  {
    hide FlatMap, BudgetBreach, ReceiverViolations, ReadGrant, Remaining, Unexpired;
    if status.grant.None? {
      return [AtDoor(GrantMissing)];
    }
    var reading := ReadGrant(status.grant.value);
    if reading.None? {
      return [AtDoor(GrantUnreadable)];
    }
    var grant := reading.value;
    if !Unexpired(grant, nowNs) {
      return [AtDoor(GrantExpired)];
    }
    violations := [];
    violations := PushAll(violations, FactRule(), fx.shapeFacts);
    violations := PushAll(violations, UnknownRule(), fx.unknownFundMoving);
    violations := PushAll(violations, RegistrationRule(), fx.storageRegistrations);
    violations := PushAll(violations, InitRule(), fx.stateInits);
    violations := ChargeNative(violations, fx, Remaining(grant));
    violations := CheckReceivers(violations, fx, grant);
    violations := PushAll(violations, MoveRule(grant), fx.tokenMoves);
  }

  /** The native ceiling, promise by promise, stopping at the first breach. */
  method ChargeNative(violations0: seq<Violation>, fx: EffectsSet, remaining: u128)
    returns (violations: seq<Violation>)
    ensures violations == violations0 + BudgetBreach(fx.nativePerPromise, fx.callPromises, remaining, 0, 0)
  {
    violations := violations0;
    var running: u128 := 0;
    ghost var whole := BudgetBreach(fx.nativePerPromise, fx.callPromises, remaining, 0, 0);
    var i := 0;
    while i < |fx.nativePerPromise|
      invariant 0 <= i <= |fx.nativePerPromise|
      invariant violations == violations0
      invariant whole == BudgetBreach(fx.nativePerPromise, fx.callPromises, remaining, running, i)
    {
      if i !in fx.callPromises {
        running := SatAdd(running, fx.nativePerPromise[i]);
        if running > remaining {
          violations := violations + [AtRung(i, 4, GrantExhausted)];
          return;
        }
      }
      i := i + 1;
    }
  }

  method CheckReceivers(violations0: seq<Violation>, fx: EffectsSet, grant: SpendGrant)
    returns (violations: seq<Violation>)
    ensures violations
         == violations0 + ReceiverViolations(grant, fx.receivers, fx.callPromises, |fx.receivers|)
  {
    violations := violations0;
    for i := 0 to |fx.receivers|
      invariant violations == violations0 + ReceiverViolations(grant, fx.receivers, fx.callPromises, i)
    {
      if i !in fx.callPromises && fx.receivers[i] !in grant.receivers {
        violations := violations + [AtRung(i, 2, ReceiverNotGranted)];
      }
    }
  }

  // ---------------------------------------------------------------------------
  // The two rules that need a second view
  // ---------------------------------------------------------------------------

  function OwnCollectionRule(receivers: seq<string>, collection: string): nat -> seq<Violation> {
    (i: nat) =>
      if i < |receivers| && receivers[i] == collection then [AtRung(i, 4, OwnCollectionRefused)] else []
  }

  function OwnCollectionOf(fx: EffectsSet, collection: string): seq<Violation> {
    FlatMap(OwnCollectionRule(fx.receivers, collection), fx.callPromises)
  }

  method CheckOwnCollection(fx: EffectsSet, collection: string) returns (violations: seq<Violation>)
    ensures violations == OwnCollectionOf(fx, collection)
  {
    violations := PushAll([], OwnCollectionRule(fx.receivers, collection), fx.callPromises);
  }

  function CheckReserve(fx: EffectsSet, status: AgentStatusView, balance: u128): Option<Violation> {
    if SatSub(balance, fx.nativeTotal) < ParseOr(status.reserveYocto, U128_MAX) then
      Some(Violation(None, Reserve, Class(InsufficientVsReserve, None)))
    else None
  }

  /** The floor refuses exactly when there is one and the balance does not cover it plus
      the exact, unsaturated spend. */
  lemma ReserveIsExact(req: Request.Request, size: nat, status: AgentStatusView, balance: u128)
    ensures
      var reserve := ParseOr(status.reserveYocto, U128_MAX);
      var spend := Request.RequestNative(req.external, |req.external|);
      CheckReserve(EffectsOf(req, size), status, balance).Some? <==> reserve > 0 && balance < spend + reserve
  {
    FragmentsNative(req.external, |req.external|);
  }
}
