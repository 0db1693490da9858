/** The canonical signable operation, the wallet policy it is judged by, and the spend
    counters the coordinator supplies. */
module Policy {
  import opened Common
  import opened Json
  import R = Request

  // ---------------------------------------------------------------------------
  // Text
  // ---------------------------------------------------------------------------

  function LowerChar(c: char): char {
    if 'A' <= c <= 'Z' then (c as int + 32) as char else c
  }

  /** `to_ascii_lowercase`. */
  function Lower(s: string): (r: string)
    ensures |r| == |s|
  {
    seq(|s|, i requires 0 <= i < |s| => LowerChar(s[i]))
  }

  /** Unicode White_Space. */
  predicate IsSpace(c: char) {
    || '\U{0009}' <= c <= '\U{000D}' || c == ' ' || c == '\U{0085}' || c == '\U{00A0}' || c == '\U{1680}'
    || '\U{2000}' <= c <= '\U{200A}' || c == '\U{2028}' || c == '\U{2029}' || c == '\U{202F}' || c == '\U{205F}'
    || c == '\U{3000}'
  }

  function TrimStart(s: string): string {
    if s != "" && IsSpace(s[0]) then TrimStart(s[1..]) else s
  }

  function TrimEnd(s: string): string {
    if s != "" && IsSpace(s[|s| - 1]) then TrimEnd(s[..|s| - 1]) else s
  }

  function Trim(s: string): string {
    TrimEnd(TrimStart(s))
  }

  predicate IsHexDigit(c: char) {
    IsDigit(c) || 'a' <= c <= 'f' || 'A' <= c <= 'F'
  }

  // ---------------------------------------------------------------------------
  // Operations
  // ---------------------------------------------------------------------------

  datatype RecipientType = Intents | ConfidentialIntents | DestinationChain

  /** The `args_base64` of a call, as far as the extension door reads it. */
  datatype CallBody = BodyNotBase64 | BodyNotRequest | Body(req: R.Request, size: nat)

  datatype Op =
    | Transfer(to: string, amount: string)
    | Call(to: string, methodName: string, body: CallBody, gas: string, deposit: string)
    | Delete(beneficiary: string)
    | Withdraw(to: string, amount: string, token: string)
    | IntentsTransfer(to: string, amount: string, token: string)
    | IntentsStorageDeposit(contractId: string, accountId: string, amount: string)
    | Raw(chain: string, payloadHash: string)
    | SignMessage(messageHash: string, recipient: string)
    | Swap(tokenIn: string, amountIn: string, tokenOut: string, minOut: string)
    | Confidential(flow: string, toOpt: Option<string>, amount: string, token: string)
    | CrossChainWithdraw(to: string, amount: string, token: string, chain: string)
    | LimitOrder(to: string, toType: RecipientType, amount: string, token: string, tokenOut: string, minOut: string)
    | PaymentCheck(amount: string, token: string)
    | Auth(purpose: string, seed: string)
    | PolicyUpdate(walletKey: string, policyHash: string, version: u64, locked: bool, caller: string)
  {
    function TypeAliases(): seq<string> {
      match this
      case Transfer(_, _) => ["transfer"]
      case Call(_, _, _, _, _) => ["call"]
      case Delete(_) => ["delete"]
      case Withdraw(_, _, _) => ["withdraw", "intents_withdraw"]
      case IntentsTransfer(_, _, _) => ["intents_transfer"]
      case IntentsStorageDeposit(_, _, _) => ["intents_storage_deposit"]
      case CrossChainWithdraw(_, _, _, _) => ["cross_chain_withdraw"]
      case LimitOrder(_, _, _, _, _, _) => ["limit_order"]
      case PaymentCheck(_, _) => ["payment_check"]
      case Swap(_, _, _, _) => ["swap", "intents_swap"]
      case Confidential(_, _, _, _) => ["confidential"]
      case Raw(_, _) => ["raw"]
      case SignMessage(_, _) => ["sign_message"]
      case Auth(_, _) => ["auth"]
      case PolicyUpdate(_, _, _, _, _) => ["policy_update"]
    }

    function Token(): string {
      match this
      case Withdraw(_, _, token) => token
      case IntentsTransfer(_, _, token) => token
      case Confidential(_, _, _, token) => token
      case CrossChainWithdraw(_, _, token, _) => token
      case LimitOrder(_, _, _, token, _, _) => token
      case PaymentCheck(_, token) => token
      case IntentsStorageDeposit(_, _, _) => "nep141:wrap.near"
      case Swap(tokenIn, _, _, _) => tokenIn
      case _ => NATIVE
    }

    function Amount(): Option<string> {
      match this
      case Transfer(_, amount) => Some(amount)
      case Withdraw(_, amount, _) => Some(amount)
      case IntentsTransfer(_, amount, _) => Some(amount)
      case IntentsStorageDeposit(_, _, amount) => Some(amount)
      case Confidential(_, _, amount, _) => Some(amount)
      case CrossChainWithdraw(_, amount, _, _) => Some(amount)
      case LimitOrder(_, _, amount, _, _, _) => Some(amount)
      case PaymentCheck(amount, _) => Some(amount)
      case Call(_, _, _, _, deposit) => Some(deposit)
      case Swap(_, amountIn, _, _) => Some(amountIn)
      case _ => None
    }

    function Destination(): Option<string> {
      match this
      case Transfer(to, _) => Some(to)
      case Withdraw(to, _, _) => Some(to)
      case IntentsTransfer(to, _, _) => Some(to)
      case CrossChainWithdraw(to, _, _, _) => Some(to)
      case LimitOrder(to, _, _, _, _, _) => Some(to)
      case Call(to, _, _, _, _) => Some(to)
      case IntentsStorageDeposit(contractId, _, _) => Some(contractId)
      case Delete(beneficiary) => Some(beneficiary)
      case Confidential(_, to, _, _) => to
      case _ => None
    }

    predicate TriggersApproval() {
      !(Raw? || SignMessage? || Auth? || PolicyUpdate?)
    }

    predicate IsExtensionCall() {
      Call? && methodName == "w_execute_extension"
    }
  }

  const NATIVE: string := "native"

  const INTENTS_CONTRACTS: seq<string> := ["intents.near", "intents.far"]
  const GATE_ONLY_INTENTS_METHODS: seq<string> := ["cross_chain_deposit"]

  predicate IsIntentsContract(account: string) {
    Lower(Trim(account)) in INTENTS_CONTRACTS
  }

  predicate IsFencedIntentsCall(to: string, methodName: string) {
    IsIntentsContract(to) && methodName !in GATE_ONLY_INTENTS_METHODS
  }

  predicate NamesNear(chain: string) {
    Lower(Trim(chain)) == "near"
  }

  // ---------------------------------------------------------------------------
  // Policy
  // ---------------------------------------------------------------------------

  datatype Addresses = Addresses(mode: Option<string>, list: seq<string>)

  datatype Limits = Limits(
    perTransaction: Option<map<string, string>>,
    daily: Option<map<string, string>>,
    hourly: Option<map<string, string>>,
    monthly: Option<map<string, string>>,
    hourlyTxCount: Option<int>)

  datatype TimeRestrictions = TimeRestrictions(timezone: Option<string>, allowedHours: Option<seq<nat>>,
                                               allowedDays: Option<seq<nat>>)

  datatype Rules = Rules(
    transactionTypes: Option<seq<string>>,
    allowedTokens: Option<seq<string>>,
    addresses: Option<Addresses>,
    limits: Option<Limits>,
    maxPerHour: Option<int>,
    timeRestrictions: Option<TimeRestrictions>)

  datatype Threshold = Number(n: int) | Object(required: Option<int>)
  {
    function Required(): int {
      match this
      case Number(n) => n
      case Object(required) => if required.Some? then required.value else 2
    }
  }

  datatype Approver = Approver(id: Option<string>, pubkey: Option<string>)

  datatype Approval = Approval(
    threshold: Option<Threshold>,
    approvers: Option<seq<Approver>>,
    locked: Option<bool>,
    excludedTypes: Option<seq<string>>)

  datatype Capability = Capability(allowed: Option<bool>, requiresApproval: Option<bool>, chains: Option<seq<string>>)

  datatype Capabilities = Capabilities(
    rawSign: Option<Capability>,
    confidential: Option<Capability>,
    signMessage: Option<Capability>,
    paymentCheck: Option<Capability>,
    swap: Option<Capability>,
    crossChainWithdraw: Option<Capability>,
    limitOrder: Option<Capability>,
    intentsCall: Option<Capability>)

  datatype Policy = Policy(frozen: bool, rules: Option<Rules>, approval: Option<Approval>,
                           capabilities: Option<Capabilities>)

  function Flag(b: Option<bool>, default: bool): bool {
    if b.Some? then b.value else default
  }

  predicate Allowed(cap: Option<Capability>, default: bool) {
    if cap.Some? then Flag(cap.value.allowed, default) else default
  }

  predicate NeedsApproval(cap: Option<Capability>) {
    cap.Some? && Flag(cap.value.requiresApproval, false)
  }

  /** Whether `raw_sign.chains` names near. */
  predicate RawSignNamesNear(cap: Capability) {
    cap.chains.Some? && exists i :: 0 <= i < |cap.chains.value| && NamesNear(cap.chains.value[i])
  }

  // ---------------------------------------------------------------------------
  // Counters
  // ---------------------------------------------------------------------------

  datatype Window = Daily | Hourly | Monthly
  {
    function Key(): string {
      match this
      case Daily => "daily"
      case Hourly => "hourly"
      case Monthly => "monthly"
    }
  }

  datatype Usage = Usage(
    daily: map<string, u128>,
    hourly: map<string, u128>,
    monthly: map<string, u128>,
    hourlyTxCount: int,
    unreadable: set<string>,
    allUnreadable: bool)
  {
    function Counters(w: Window): map<string, u128> {
      match w
      case Daily => daily
      case Hourly => hourly
      case Monthly => monthly
    }

    /** What the counter says was spent; an absent counter says nothing was. */
    function Spent(w: Window, token: string): u128 {
      if token in Counters(w) then Counters(w)[token] else 0
    }

    predicate CounterUnreadable(w: Window, token: string) {
      allUnreadable || w.Key() + ":" + token in unreadable
    }
  }

  function Caps(limits: Limits, w: Window): Option<map<string, string>> {
    match w
    case Daily => limits.daily
    case Hourly => limits.hourly
    case Monthly => limits.monthly
  }

  const NO_USAGE := Usage(map[], map[], map[], 0, {}, false)

  /** Whether the entry holds a figure the engine can read: a string that is an amount. */
  function EntryAmount(v: Value): Option<u128> {
    if v.Str? then ParseU128(v.s) else None
  }

  function ReadCounters(entries: seq<Entry>, n: nat): map<string, u128>
    requires n <= |entries|
  {
    if n == 0 then map[]
    else
      var before := ReadCounters(entries, n - 1);
      match EntryAmount(entries[n - 1].value)
      case Some(amount) => before[entries[n - 1].key := amount]
      case None => before
  }

  function UnreadCounters(window: Window, entries: seq<Entry>, n: nat): set<string>
    requires n <= |entries|
  {
    if n == 0 then {}
    else
      UnreadCounters(window, entries, n - 1)
      + (if EntryAmount(entries[n - 1].value).None? then {window.Key() + ":" + entries[n - 1].key} else {})
  }

  function WindowEntries(v: Value, window: Window): seq<Entry> {
    match Get(v, window.Key())
    case Some(Obj(entries)) => entries
    case _ => []
  }

  /** `Usage::from_current_usage`. A document naming none of the windows is unreadable whole. */
  function UsageFrom(v: Value): Usage {
    if Get(v, "daily").None? && Get(v, "hourly").None? && Get(v, "monthly").None? then
      NO_USAGE.(allUnreadable := true)
    else
      var d, h, m := WindowEntries(v, Daily), WindowEntries(v, Hourly), WindowEntries(v, Monthly);
      Usage(ReadCounters(d, |d|), ReadCounters(h, |h|), ReadCounters(m, |m|), TxCount(Get(v, "hourly_tx_count")),
            UnreadCounters(Daily, d, |d|) + UnreadCounters(Hourly, h, |h|) + UnreadCounters(Monthly, m, |m|), false)
  }

  /** `as_i64().unwrap_or(0)`. */
  function TxCount(v: Option<Value>): int {
    match v
    case Some(Num(PosInt(u))) => if u <= 0x7FFF_FFFF_FFFF_FFFF then u else 0
    case Some(Num(NegInt(i))) => i
    case _ => 0
  }

  method ParseMap(window: Window, entries: seq<Entry>, unreadable0: set<string>)
    returns (counters: map<string, u128>, unreadable: set<string>)
    ensures counters == ReadCounters(entries, |entries|)
    ensures unreadable == unreadable0 + UnreadCounters(window, entries, |entries|)
  {
    hide ParseU128;
    counters, unreadable := map[], unreadable0;
    for i := 0 to |entries|
      invariant counters == ReadCounters(entries, i)
      invariant unreadable == unreadable0 + UnreadCounters(window, entries, i)
    {
      match EntryAmount(entries[i].value) {
        case Some(amount) => counters := counters[entries[i].key := amount];
        case None => unreadable := unreadable + {window.Key() + ":" + entries[i].key};
      }
    }
  }

  method FromCurrentUsage(v: Value) returns (usage: Usage)
    ensures usage == UsageFrom(v)
  {
    hide ReadCounters, UnreadCounters;
    if Get(v, "daily").None? && Get(v, "hourly").None? && Get(v, "monthly").None? {
      return NO_USAGE.(allUnreadable := true);
    }
    var unreadable: set<string> := {};
    var daily, hourly, monthly;
    daily, unreadable := ParseMap(Daily, WindowEntries(v, Daily), unreadable);
    hourly, unreadable := ParseMap(Hourly, WindowEntries(v, Hourly), unreadable);
    monthly, unreadable := ParseMap(Monthly, WindowEntries(v, Monthly), unreadable);
    usage := Usage(daily, hourly, monthly, TxCount(Get(v, "hourly_tx_count")), unreadable, false);
  }
}
