/** The reference: the leased account's own pass over a request. It charges promise after
    promise, carries the native meter from one to the next, and stops at the first rule it
    trips. It reads the request, never the decoded effects. */
module Charging {
  import opened Common
  import opened Request
  import opened Hos
  import opened Violations

  datatype Step = Charged(left: nat) | Tripped(why: Class)

  datatype Outcome = Accepted | Refused(at: Option<nat>, why: Class)

  function Shape(sub: Subcode): Class { Class(GrantShape, Some(sub)) }

  function Plain(rule: Rule): Class { Class(rule, None) }

  function ChargeFungible(g: SpendGrant, token: string, args: CallArgs): Option<Class> {
    match ReadFt(args)
    case None => Some(Shape(ArgsUnreadable))
    case Some(ft) =>
      if UnknownFields(args, FT_FIELDS) != [] || ParseU128(ft.amount).None? then Some(Shape(ArgsUnreadable))
      else if ft.receiver !in g.receivers then Some(Plain(ReceiverNotGranted))
      else if token !in g.tokens then Some(Plain(TokenNotGranted))
      else if ParseU128(ft.amount).value > TokenRemaining(g.tokens[token]) then Some(Plain(TokenBudgetExceeded))
      else None
  }

  function ChargeItem(g: SpendGrant, collection: string, args: CallArgs): Option<Class> {
    match ReadNft(args)
    case None => Some(Shape(ArgsUnreadable))
    case Some(nft) =>
      if UnknownFields(args, NFT_FIELDS) != [] then Some(Shape(ArgsUnreadable))
      else if nft.approvalSet then Some(Shape(ApprovalNotAllowed))
      else if nft.receiver !in g.receivers then Some(Plain(ReceiverNotGranted))
      else if collection !in g.items then Some(Plain(CollectionNotGranted))
      else if nft.tokenId !in g.items[collection] then Some(Plain(ItemNotGranted))
      else None
  }

  function ChargeTokenCall(g: SpendGrant, own: Option<string>, receiver: string, fc: FunctionCall): Option<Class> {
    if ParseOr(fc.deposit, 0) != 1 then Some(Shape(CallDeposit))
    else if own == Some(receiver) then Some(Plain(OwnCollectionRefused))
    else if fc.methodName == "ft_transfer" then ChargeFungible(g, receiver, fc.args)
    else if fc.methodName == "nft_transfer" then ChargeItem(g, receiver, fc.args)
    else Some(Shape(MethodNotAllowed))
  }

  function ChargeTransfer(g: SpendGrant, left: nat, p: NearPromise): Step {
    if p.receiver !in g.receivers then Tripped(Plain(ReceiverNotGranted))
    else if exists k :: 0 <= k < |p.actions| && !p.actions[k].Transfer? then Tripped(Shape(ActionNotAllowed))
    else if PromiseNative(p) > left then Tripped(Plain(GrantExhausted))
    else Charged(left - PromiseNative(p))
  }

  function ChargePromise(g: SpendGrant, own: Option<string>, left: nat, p: NearPromise): Step {
    if p.refundTo.Some? then Tripped(Shape(RefundTargetNotAllowed))
    else if HasCall(p) then
      if |p.actions| != 1 then Tripped(Shape(CallMustStandAlone))
      else match ChargeTokenCall(g, own, p.receiver, p.actions[0].fc)
        case Some(why) => Tripped(why)
        case None => Charged(left)
    else ChargeTransfer(g, left, p)
  }

  /** Charge the promises from `i` on with `left` yocto remaining. */
  function ChargeFrom(g: SpendGrant, own: Option<string>, ps: seq<NearPromise>, i: nat, left: nat): Outcome
    requires i <= |ps|
    decreases |ps| - i
  {
    if i == |ps| then Accepted
    else match ChargePromise(g, own, left, ps[i])
      case Tripped(why) => Refused(Some(i), why)
      case Charged(rest) => ChargeFrom(g, own, ps, i + 1, rest)
  }

  /** What follows the promises: a pass that tripped stands, one that did not meets the
      balance floor. An unknown balance leaves the floor out. */
  function ThenReserve(charged: Outcome, status: AgentStatusView, balance: Option<u128>, req: Request): Outcome {
    var reserve := ParseOr(status.reserveYocto, U128_MAX);
    if charged.Accepted? && balance.Some? && reserve > 0
       && balance.value < RequestNative(req.external, |req.external|) + reserve
    then Refused(None, Plain(InsufficientVsReserve))
    else charged
  }

  /** The whole pass: the door, every promise, then the balance floor. An unknown own
      collection leaves that rule out. */
  function ChargeRequest(status: AgentStatusView, nowNs: u64, own: Option<string>, balance: Option<u128>,
                         req: Request): Outcome
  {
    match DoorRefusal(status, nowNs)
    case Some(rule) => Refused(None, Plain(rule))
    case None =>
      var g := ReadGrant(status.grant.value).value;
      ThenReserve(ChargeFrom(g, own, req.external, 0, Remaining(g)), status, balance, req)
  }
}
