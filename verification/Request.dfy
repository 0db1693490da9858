/** The frozen wire structs of one `w_execute_extension` request, already typed, and what
    one function call's inner arguments say. */
module Request {
  import opened Common
  import opened Json

  /** The base64 `args` of a function call after decoding. */
  datatype CallArgs =
    | NotBase64
    | NoBytes
    | NotJson
    | Parsed(value: Value)

  datatype FunctionCall = FunctionCall(methodName: string, args: CallArgs, deposit: string, gas: string)

  datatype Action =
    | Call(fc: FunctionCall)
    | Transfer(amount: string)
    | StateInit(deposit: string)

  datatype NearPromise = NearPromise(receiver: string, refundTo: Option<string>, actions: seq<Action>)

  datatype WalletOp =
    | SetSignatureMode(enable: bool)
    | AddExtension(added: string)
    | RemoveExtension(removed: string)
  {
    function Name(): string {
      match this
      case SetSignatureMode(_) => "set_signature_mode"
      case AddExtension(_) => "add_extension"
      case RemoveExtension(_) => "remove_extension"
    }
  }

  datatype Request = Request(internal: seq<WalletOp>, external: seq<NearPromise>)

  // ---------------------------------------------------------------------------
  // Inner arguments
  // ---------------------------------------------------------------------------

  const FT_READ: seq<string> := ["receiver_id", "amount"]
  const FT_FIELDS: seq<string> := ["receiver_id", "amount", "memo"]
  const NFT_READ: seq<string> := ["receiver_id", "token_id", "approval_id"]
  const NFT_FIELDS: seq<string> := ["receiver_id", "token_id", "approval_id", "memo"]
  const STORAGE_READ: seq<string> := ["account_id"]

  datatype FtArgs = FtArgs(receiver: string, amount: string)
  datatype NftArgs = NftArgs(receiver: string, tokenId: string, approvalSet: bool)

  function ReadFt(args: CallArgs): Option<FtArgs> {
    if args.Parsed? && StructShape(args.value, FT_READ) then
      match (Field(args.value, FT_READ, 0), Field(args.value, FT_READ, 1))
      case (Some(Str(receiver)), Some(Str(amount))) => Some(FtArgs(receiver, amount))
      case _ => None
    else None
  }

  function ReadNft(args: CallArgs): Option<NftArgs> {
    if args.Parsed? && StructShape(args.value, NFT_READ) then
      match (Field(args.value, NFT_READ, 0), Field(args.value, NFT_READ, 1))
      case (Some(Str(receiver)), Some(Str(tokenId))) =>
        var approval := Field(args.value, NFT_READ, 2);
        Some(NftArgs(receiver, tokenId, approval.Some? && approval.value != Null))
      case _ => None
    else None
  }

  /** `Some(None)` is a self-registration; no bytes at all read as `{}`. */
  function ReadStorage(args: CallArgs): Option<Option<string>> {
    if args.NoBytes? then Some(None)
    else if args.Parsed? && StructShape(args.value, STORAGE_READ) then
      match Field(args.value, STORAGE_READ, 0)
      case None => Some(None)
      case Some(Null) => Some(None)
      case Some(Str(account)) => Some(Some(account))
      case _ => None
    else None
  }

  function KeysOutside(entries: seq<Entry>, known: seq<string>): seq<string> {
    if entries == [] then []
    else (if entries[0].key in known then [] else [entries[0].key]) + KeysOutside(entries[1..], known)
  }

  /** Argument keys outside the standard's own set. */
  function UnknownFields(args: CallArgs, known: seq<string>): seq<string> {
    if args.Parsed? && args.value.Obj? then KeysOutside(args.value.entries, known) else []
  }

  // ---------------------------------------------------------------------------
  // Figures
  // ---------------------------------------------------------------------------

  /** The native amount an action carries; an unreadable one counts as nothing here
      because a request holding one is refused whole. */
  function NativeOf(a: Action): u128 {
    match a
    case Call(fc) => ParseOr(fc.deposit, 0)
    case Transfer(amount) => ParseOr(amount, 0)
    case StateInit(deposit) => ParseOr(deposit, 0)
  }

  function GasOf(a: Action): u64 {
    if a.Call? && ParseU64(a.fc.gas).Some? then ParseU64(a.fc.gas).value else 0
  }

  /** Every figure of the action reads as the number it should be. */
  predicate FiguresReadable(a: Action) {
    match a
    case Call(fc) => ParseU128(fc.deposit).Some? && ParseU64(fc.gas).Some?
    case Transfer(amount) => ParseU128(amount).Some?
    case StateInit(deposit) => ParseU128(deposit).Some?
  }

  predicate RequestReadable(req: Request) {
    forall i, k :: 0 <= i < |req.external| && 0 <= k < |req.external[i].actions| ==>
      FiguresReadable(req.external[i].actions[k])
  }

  predicate CallBefore(p: NearPromise, k: nat)
    requires k <= |p.actions|
  {
    exists j :: 0 <= j < k && p.actions[j].Call?
  }

  predicate HasCall(p: NearPromise) {
    CallBefore(p, |p.actions|)
  }

  /** What the first `k` actions carry in yocto, counted without a ceiling. */
  function NativeUpTo(actions: seq<Action>, k: nat): nat
    requires k <= |actions|
  {
    if k == 0 then 0 else NativeUpTo(actions, k - 1) + NativeOf(actions[k - 1])
  }

  function PromiseNative(p: NearPromise): nat {
    NativeUpTo(p.actions, |p.actions|)
  }

  /** What the first `n` promises carry in yocto, counted without a ceiling. */
  function RequestNative(ps: seq<NearPromise>, n: nat): nat
    requires n <= |ps|
  {
    if n == 0 then 0 else RequestNative(ps, n - 1) + PromiseNative(ps[n - 1])
  }
}
