/** Multisig votes: what a vote signs, who may vote, and the bounded exchange that settles
    the vote of a contract wallet. */
module ContractVote {
  import opened Common
  import opened Json
  import P = Policy

  // ---------------------------------------------------------------------------
  // The message a vote signs
  // ---------------------------------------------------------------------------

  datatype VoteVerb = Approve | Reject
  {
    function AsStr(): string {
      match this
      case Approve => "approve"
      case Reject => "reject"
    }
  }

  function VoteMessage(verb: VoteVerb, approvalId: string, walletKey: string, requestHash: string): string {
    verb.AsStr() + ":" + approvalId + ":" + walletKey + ":" + requestHash
  }

  /** Two colon-free words in front of a colon are read off the front. */
  lemma FrontWord(a: string, x: string, b: string, y: string)
    requires ':' !in a && ':' !in b && a + ":" + x == b + ":" + y
    ensures a == b && x == y
  {
    var s := a + ":" + x;
    assert s == b + ":" + y;
    assert s[|a|] == ':' && s[..|a|] == a && s[|a| + 1..] == x;
    assert s[|b|] == ':' && s[..|b|] == b && s[|b| + 1..] == y;
    assert forall i :: 0 <= i < |a| ==> s[i] == a[i];
    assert forall i :: 0 <= i < |b| ==> s[i] == b[i];
    assert |a| == |b|;
  }

  /** Likewise off the back. */
  lemma BackWord(x: string, a: string, y: string, b: string)
    requires ':' !in a && ':' !in b && x + ":" + a == y + ":" + b
    ensures x == y && a == b
  {
    var s := x + ":" + a;
    assert s == y + ":" + b;
    assert s[|x|] == ':' && s[..|x|] == x && s[|x| + 1..] == a;
    assert s[|y|] == ':' && s[..|y|] == y && s[|y| + 1..] == b;
    assert forall i :: |x| < i < |s| ==> s[i] == a[i - |x| - 1];
    assert forall i :: |y| < i < |s| ==> s[i] == b[i - |y| - 1];
    assert |x| == |y|;
  }

  /** A vote message names one verb, one approval, one wallet and one request, as long as
      approval ids and request hashes hold no colon; wallet keys may. */
  lemma VoteMessageInjective(verb: VoteVerb, id: string, key: string, hash: string,
                             verb': VoteVerb, id': string, key': string, hash': string)
    requires ':' !in id && ':' !in id' && ':' !in hash && ':' !in hash'
    requires VoteMessage(verb, id, key, hash) == VoteMessage(verb', id', key', hash')
    ensures verb == verb' && id == id' && key == key' && hash == hash'
  {
    BackWord(verb.AsStr() + ":" + id + ":" + key, hash, verb'.AsStr() + ":" + id' + ":" + key', hash');
    assert verb.AsStr() + ":" + id + ":" + key == verb.AsStr() + ":" + (id + ":" + key);
    assert verb'.AsStr() + ":" + id' + ":" + key' == verb'.AsStr() + ":" + (id' + ":" + key');
    FrontWord(verb.AsStr(), id + ":" + key, verb'.AsStr(), id' + ":" + key');
    FrontWord(id, key, id', key');
  }

  // ---------------------------------------------------------------------------
  // Who may vote
  // ---------------------------------------------------------------------------

  datatype Standing = NotListed | Unpinned | Pinned(keys: seq<string>)
  {
    predicate AdmitsKey(key: string) {
      Unpinned? || (Pinned? && key in keys)
    }

    predicate AdmitsContractVote() {
      Unpinned?
    }
  }

  function ApproversOf(policy: P.Policy): seq<P.Approver> {
    if policy.approval.Some? && policy.approval.value.approvers.Some? then policy.approval.value.approvers.value else []
  }

  /** The pins of the first `n` entries naming `id`, in order. */
  function PinsOf(approvers: seq<P.Approver>, id: string, n: nat): seq<string>
    requires n <= |approvers|
  {
    if n == 0 then []
    else
      var a := approvers[n - 1];
      PinsOf(approvers, id, n - 1) + (if a.id == Some(id) && a.pubkey.Some? then [a.pubkey.value] else [])
  }

  /** Over every entry naming the account: one without a pin lets any key vote, as long as no
      entry pins; once any does, only pinned keys vote. */
  predicate KeyMayVote(approvers: seq<P.Approver>, id: string, key: string) {
    && (exists a :: a in approvers && a.id == Some(id))
    && ((exists a :: a in approvers && a.id == Some(id) && a.pubkey.Some?) ==>
          exists a :: a in approvers && a.id == Some(id) && a.pubkey == Some(key))
  }

  lemma {:induction false} PinsAre(approvers: seq<P.Approver>, id: string, n: nat, key: string)
    requires n <= |approvers|
    ensures key in PinsOf(approvers, id, n)
       <==> exists j :: 0 <= j < n && approvers[j].id == Some(id) && approvers[j].pubkey == Some(key)
    ensures PinsOf(approvers, id, n) == []
       <==> forall j :: 0 <= j < n && approvers[j].id == Some(id) ==> approvers[j].pubkey.None?
  {
    if n > 0 {
      PinsAre(approvers, id, n - 1, key);
    }
  }

  lemma StandingDecides(approvers: seq<P.Approver>, id: string, key: string)
    ensures KeyMayVote(approvers, id, key) <==>
      && (exists j :: 0 <= j < |approvers| && approvers[j].id == Some(id))
      && (PinsOf(approvers, id, |approvers|) == [] || key in PinsOf(approvers, id, |approvers|))
  {
    hide PinsOf;
    PinsAre(approvers, id, |approvers|, key);
    var n := |approvers|;
    if exists j :: 0 <= j < n && approvers[j].id == Some(id) && approvers[j].pubkey == Some(key) {
      var j :| 0 <= j < n && approvers[j].id == Some(id) && approvers[j].pubkey == Some(key);
      assert approvers[j] in approvers;
    }
    if exists j :: 0 <= j < n && approvers[j].id == Some(id) {
      var j :| 0 <= j < n && approvers[j].id == Some(id);
      assert approvers[j] in approvers;
    }
    if PinsOf(approvers, id, n) != [] {
      var j :| 0 <= j < n && approvers[j].id == Some(id) && approvers[j].pubkey.Some?;
      assert approvers[j] in approvers;
    }
  }

  method ApproverStanding(policy: P.Policy, id: string) returns (standing: Standing)
    ensures standing.NotListed? <==> forall a :: a in ApproversOf(policy) ==> a.id != Some(id)
    ensures standing.AdmitsContractVote() <==>
      && (exists a :: a in ApproversOf(policy) && a.id == Some(id))
      && (forall a :: a in ApproversOf(policy) && a.id == Some(id) ==> a.pubkey.None?)
    ensures standing.Pinned? ==> standing.keys == PinsOf(ApproversOf(policy), id, |ApproversOf(policy)|)
    ensures forall key :: standing.AdmitsKey(key) <==> KeyMayVote(ApproversOf(policy), id, key)
  {
    var approvers := ApproversOf(policy);
    var listed := false;
    var pins: seq<string> := [];
    for i := 0 to |approvers|
      invariant listed <==> exists j :: 0 <= j < i && approvers[j].id == Some(id)
      invariant pins == PinsOf(approvers, id, i)
      invariant !listed ==> pins == []
    {
      if approvers[i].id == Some(id) {
        listed := true;
        if approvers[i].pubkey.Some? {
          pins := pins + [approvers[i].pubkey.value];
        }
      }
    }
    standing := if !listed then NotListed else if pins == [] then Unpinned else Pinned(pins);
    forall key
      ensures standing.AdmitsKey(key) <==> KeyMayVote(approvers, id, key)
    {
      StandingDecides(approvers, id, key);
    }
    PinsAre(approvers, id, |approvers|, "");
  }

  // ---------------------------------------------------------------------------
  // Answers
  // ---------------------------------------------------------------------------

  datatype Shape = Eip712 | Nep641

  datatype CallAnswer = Answered(bytes: seq<byte>, block: string) | AccountRefused | Unreachable

  datatype NotCounted =
    | SignaturesDisabled
    | RefusedByContract
    | NotResolved
    | PayloadMismatch
    | PendingSubAuthorization
    | Malformed

  const ACCOUNT_FACT_ERRORS: seq<string> :=
    ["UNKNOWN_ACCOUNT", "NO_CONTRACT_CODE", "CONTRACT_EXECUTION_ERROR", "INVALID_ACCOUNT"]

  const RESOLUTION_MAX_BYTES := 4096

  function StrIn(v: Option<Value>, key: string): Option<string> {
    if v.Some? then
      match Get(v.value, key)
      case Some(Str(s)) => Some(s)
      case _ => None
    else None
  }

  predicate Contains(s: string, part: string) {
    exists i :: 0 <= i <= |s| && part <= s[i..]
  }

  /** A JSON number that is a byte. */
  function ByteOf(v: Value): Option<byte> {
    match v
    case Num(PosInt(u)) => if u <= 255 then Some(u) else None
    case _ => None
  }

  function BytesOf(items: seq<Value>, n: nat): Option<seq<byte>>
    requires n <= |items|
  {
    if n == 0 then Some([])
    else match (BytesOf(items, n - 1), ByteOf(items[n - 1]))
      case (Some(before), Some(b)) => Some(before + [b])
      case _ => None
  }

  function ErrorName(error: Value): Option<string> {
    var cause := StrIn(Get(error, "cause"), "name");
    if cause.Some? then cause else StrIn(Some(error), "name")
  }

  function ClassifyResult(result: Value): CallAnswer {
    var vm := StrIn(Some(result), "error");
    if vm.Some? then (if Contains(vm.value, "wasm execution failed") then AccountRefused else Unreachable)
    else
      var block := StrIn(Some(result), "block_hash");
      if block.None? || block.value == "" then Unreachable
      else match Get(result, "result")
        case Some(Arr(items)) =>
          (match BytesOf(items, |items|)
           case Some(bytes) => Answered(bytes, block.value)
           case None => Unreachable)
        case _ => Unreachable
  }

  function ClassifyOf(response: Value): CallAnswer {
    match Get(response, "error")
    case Some(error) =>
      var name := ErrorName(error);
      if name.Some? && name.value in ACCOUNT_FACT_ERRORS then AccountRefused else Unreachable
    case None =>
      match Get(response, "result")
      case None => Unreachable
      case Some(result) => ClassifyResult(result)
  }

  lemma {:induction false} BytesAre(items: seq<Value>, n: nat, bytes: seq<byte>)
    requires n <= |items|
    ensures BytesOf(items, n) == Some(bytes)
       <==> |bytes| == n && forall i :: 0 <= i < n ==> ByteOf(items[i]) == Some(bytes[i])
  {
    hide ByteOf;
    if n > 0 {
      if BytesOf(items, n - 1).Some? {
        BytesAre(items, n - 1, BytesOf(items, n - 1).value);
      }
      if |bytes| == n {
        BytesAre(items, n - 1, bytes[..n - 1]);
        assert bytes == bytes[..n - 1] + [bytes[n - 1]];
      }
    }
  }

  /** An answer is one exactly when the node reports no error of its own or the VM's, names
      the block it read, and every result item is a byte. */
  lemma AnsweredExactly(response: Value, bytes: seq<byte>, block: string)
    ensures ClassifyOf(response) == Answered(bytes, block) <==>
      && Get(response, "error").None?
      && Get(response, "result").Some?
      && StrIn(Get(response, "result"), "error").None?
      && block != "" && StrIn(Get(response, "result"), "block_hash") == Some(block)
      && (var raw := Get(Get(response, "result").value, "result");
          && raw.Some? && raw.value.Arr? && |bytes| == |raw.value.items|
          && forall i :: 0 <= i < |bytes| ==> ByteOf(raw.value.items[i]) == Some(bytes[i]))
  {
    hide Get, StrIn, BytesOf, ByteOf, Contains, ErrorName;
    if Get(response, "result").Some? {
      var raw := Get(Get(response, "result").value, "result");
      if raw.Some? && raw.value.Arr? {
        BytesAre(raw.value.items, |raw.value.items|, bytes);
      }
    }
  }

  lemma {:induction false} BytesStop(items: seq<Value>, n: nat, m: nat)
    requires n <= m <= |items| && BytesOf(items, n).None?
    ensures BytesOf(items, m).None?
  {
    if n < m {
      BytesStop(items, n, m - 1);
    }
  }

  method ClassifyCall(response: Value) returns (answer: CallAnswer)
    ensures answer == ClassifyOf(response)
  {
    hide ErrorName, Contains;
    var error := Get(response, "error");
    if error.Some? {
      var name := ErrorName(error.value);
      return if name.Some? && name.value in ACCOUNT_FACT_ERRORS then AccountRefused else Unreachable;
    }
    var result := Get(response, "result");
    if result.None? {
      return Unreachable;
    }
    var vm := StrIn(result, "error");
    if vm.Some? {
      return if Contains(vm.value, "wasm execution failed") then AccountRefused else Unreachable;
    }
    var block := StrIn(result, "block_hash");
    if block.None? || block.value == "" {
      return Unreachable;
    }
    var raw := Get(result.value, "result");
    if raw.None? || !raw.value.Arr? {
      return Unreachable;
    }
    var items := raw.value.items;
    var bytes: seq<byte> := [];
    for i := 0 to |items|
      invariant BytesOf(items, i) == Some(bytes)
    {
      var b := ByteOf(items[i]);
      if b.None? {
        BytesStop(items, i + 1, |items|);
        return Unreachable;
      }
      bytes := bytes + [b.value];
    }
    return Answered(bytes, block.value);
  }

  /** JSON text to value, as the library reads it. */
  type Parser = seq<byte> -> Option<Value>

  function JudgeSignatureAllowed(parse: Parser, bytes: seq<byte>): Option<NotCounted> {
    match parse(bytes)
    case Some(Bool(b)) => if b then None else Some(SignaturesDisabled)
    case _ => Some(Malformed)
  }

  function JudgeStatus(shape: Shape, v: Value): Option<NotCounted> {
    match shape
    case Eip712 =>
      (match StrIn(Some(v), "status")
       case None => Some(Malformed)
       case Some(status) => if status == "RESOLVED" then None else Some(NotResolved))
    case Nep641 =>
      match Get(v, "pending")
      case None => None
      case Some(Null) => None
      case Some(Arr(items)) => if items == [] then None else Some(PendingSubAuthorization)
      case _ => Some(Malformed)
  }

  function JudgeResolution(parse: Parser, shape: Shape, bytes: seq<byte>, expected: string): Option<NotCounted> {
    if |bytes| > RESOLUTION_MAX_BYTES then Some(Malformed)
    else match parse(bytes)
      case Some(Obj(entries)) =>
        var v := Obj(entries);
        var status := JudgeStatus(shape, v);
        if status.Some? then status
        else
          (match StrIn(Some(v), "payload")
           case None => Some(Malformed)
           case Some(payload) => if payload == expected then None else Some(PayloadMismatch))
      case _ => Some(Malformed)
  }

  // ---------------------------------------------------------------------------
  // The exchange
  // ---------------------------------------------------------------------------

  datatype At = Final | Block(hash: string)

  datatype Query = Query(account: string, methodName: string, args: Value, at: At)

  /** One query and what came back; `None` is a transport failure. */
  datatype Exchange = Exchange(query: Query, answer: Option<Value>)

  /** An arbitrary node: what it answers to the n-th query. */
  type Rpc = (nat, Query) -> Option<Value>

  /** One vote to settle. */
  datatype Vote = Vote(approver: string, shape: Shape, recipient: string, authorization: string, expected: string)

  datatype Verdict = Counts | DoesNotCount(why: NotCounted) | NotConcluded

  function ResolveArgs(v: Vote): Value {
    match v.shape
    case Eip712 => Obj([Entry("purpose", Str("PROVE_OWNERSHIP")), Entry("recipient", Str(v.recipient)),
                        Entry("authorization", Str(v.authorization))])
    case Nep641 => Obj([Entry("path", Arr([])), Entry("authorization", Str(v.authorization))])
  }

  function FlagQuery(v: Vote, at: At): Query {
    Query(v.approver, "w_is_signature_allowed", Obj([]), at)
  }

  function ResolverQuery(v: Vote, block: string): Query {
    Query(v.approver, "w_resolve_auth", ResolveArgs(v), Block(block))
  }

  predicate NamesUnknownBlock(response: Value) {
    var error := Get(response, "error");
    error.Some?
    && (StrIn(Get(error.value, "cause"), "name") == Some("UNKNOWN_BLOCK")
        || StrIn(error, "name") == Some("UNKNOWN_BLOCK"))
  }

  datatype PairResult = Settled(verdict: Verdict) | BlockUnknown

  /** One flag read and, when it says `true`, one resolution pinned to its block. */
  method ResolvePair(rpc: Rpc, parse: Parser, v: Vote, at: At, trace0: seq<Exchange>)
    returns (r: PairResult, trace: seq<Exchange>)
    ensures trace0 <= trace && |trace| <= |trace0| + 2
    ensures forall k :: |trace0| <= k < |trace| ==> trace[k].answer == rpc(k, trace[k].query)
    ensures PairTrace(parse, v, at, trace[|trace0|..])
    ensures r == PairVerdict(parse, v, trace[|trace0|..])
  {
    hide ClassifyOf, JudgeResolution, JudgeSignatureAllowed, NamesUnknownBlock, ResolveArgs;
    var flag := FlagQuery(v, at);
    var allowed := rpc(|trace0|, flag);
    trace := trace0 + [Exchange(flag, allowed)];
    assert trace[|trace0|..] == [Exchange(flag, allowed)];
    if allowed.None? {
      return Settled(NotConcluded), trace;
    }
    var answer := ClassifyCall(allowed.value);
    if answer.Unreachable? {
      return Settled(NotConcluded), trace;
    }
    if answer.AccountRefused? {
      return Settled(DoesNotCount(RefusedByContract)), trace;
    }
    var not := JudgeSignatureAllowed(parse, answer.bytes);
    if not.Some? {
      return Settled(DoesNotCount(not.value)), trace;
    }
    var resolver := ResolverQuery(v, answer.block);
    var resolved := rpc(|trace|, resolver);
    trace := trace + [Exchange(resolver, resolved)];
    assert trace[|trace0|..] == [Exchange(flag, allowed), Exchange(resolver, resolved)];
    if resolved.None? {
      return Settled(NotConcluded), trace;
    }
    if NamesUnknownBlock(resolved.value) {
      return BlockUnknown, trace;
    }
    var answer2 := ClassifyCall(resolved.value);
    if answer2.Unreachable? {
      return Settled(NotConcluded), trace;
    }
    if answer2.AccountRefused? {
      return Settled(DoesNotCount(RefusedByContract)), trace;
    }
    var not2 := JudgeResolution(parse, v.shape, answer2.bytes, v.expected);
    return Settled(if not2.None? then Counts else DoesNotCount(not2.value)), trace;
  }

  /** The block a flag read answered `true` at. */
  function TrueAt(parse: Parser, x: Exchange): Option<string> {
    if x.answer.Some? && ClassifyOf(x.answer.value).Answered?
       && JudgeSignatureAllowed(parse, ClassifyOf(x.answer.value).bytes).None?
    then Some(ClassifyOf(x.answer.value).block)
    else None
  }

  /** The queries of one pair: the flag at `at`; the resolver only after a `true`, pinned to
      the block that answered it. */
  predicate PairTrace(parse: Parser, v: Vote, at: At, t: seq<Exchange>) {
    && 1 <= |t| <= 2
    && t[0].query == FlagQuery(v, at)
    && (|t| == 2 <==> TrueAt(parse, t[0]).Some?)
    && (|t| == 2 ==> t[1].query == ResolverQuery(v, TrueAt(parse, t[0]).value))
  }

  /** What the answers of one pair amount to. */
  function PairVerdict(parse: Parser, v: Vote, t: seq<Exchange>): PairResult
    requires 1 <= |t| <= 2
  {
    var last := t[|t| - 1].answer;
    if last.None? then Settled(NotConcluded)
    else if |t| == 2 && NamesUnknownBlock(last.value) then BlockUnknown
    else match ClassifyOf(last.value)
      case Unreachable => Settled(NotConcluded)
      case AccountRefused => Settled(DoesNotCount(RefusedByContract))
      case Answered(bytes, _) =>
        var not := if |t| == 1 then JudgeSignatureAllowed(parse, bytes)
                   else JudgeResolution(parse, v.shape, bytes, v.expected);
        Settled(if not.None? then Counts else DoesNotCount(not.value))
  }

  /** Start of the last pair of a run. */
  predicate LastPair(parse: Parser, v: Vote, at: At, trace: seq<Exchange>, start: nat) {
    start < |trace| && PairTrace(parse, v, at, trace[start..])
  }

  /** Settle one vote: a pair of reads, read once more when the first read chose the block
      and the pinned read met a node without it. */
  method ResolveContractVote(rpc: Rpc, parse: Parser, v: Vote, at: At)
    returns (verdict: Verdict, trace: seq<Exchange>, start: nat)
    ensures |trace| <= if at.Final? then 4 else 2
    ensures forall k :: 0 <= k < |trace| ==> trace[k].answer == rpc(k, trace[k].query)
    ensures start == 0 || start == 2
    ensures LastPair(parse, v, at, trace, start)
    // Read again only on a pinned read that did not know the block.
    ensures start == 2 ==>
      && at.Final?
      && PairTrace(parse, v, at, trace[..2]) && PairVerdict(parse, v, trace[..2]) == BlockUnknown
    // The verdict is the last pair's.
    ensures
      match PairVerdict(parse, v, trace[start..])
      case Settled(settled) => verdict == settled
      case BlockUnknown => verdict == NotConcluded && (at.Final? ==> start == 2)
    // A counted vote was asked at one block: its flag, then its resolution.
    ensures verdict == Counts ==>
      && |trace| == start + 2
      && TrueAt(parse, trace[start]).Some?
      && trace[start + 1].query == ResolverQuery(v, TrueAt(parse, trace[start]).value)
      && trace[start + 1].answer.Some? && ClassifyOf(trace[start + 1].answer.value).Answered?
      && AuthorizesExactly(parse, v, ClassifyOf(trace[start + 1].answer.value).bytes)
    // A pinned read that did not know the block is read again from final, and concludes nothing
    // at a block the caller named.
    ensures FirstPinUnknown(rpc, parse, v, at) ==>
      if at.Final? then start == 2 && trace[2].query == Query(v.approver, "w_is_signature_allowed", Obj([]), Final)
      else |trace| == 2 && verdict == NotConcluded
    // A node that honours pins also answered from that block.
    ensures verdict == Counts && HonoursPins(rpc) ==> OneBlock(parse, trace[start..])
  {
    FirstPinMeansUnknown(rpc, parse, v, at);
    hide FirstPinUnknown;
    hide PairVerdict, PairTrace, OneBlock, HonoursPins, TrueAt, ClassifyOf, AuthorizesExactly, NamesUnknownBlock, ResolverQuery;
    var attempts := if at == Final then 2 else 1;
    var attempt := 1;
    trace, start := [], 0;
    while true
      invariant 1 <= attempt <= attempts
      invariant start == |trace| && start == 2 * (attempt - 1)
      invariant forall k :: 0 <= k < |trace| ==> trace[k].answer == rpc(k, trace[k].query)
      invariant attempt == 2 ==>
        PairTrace(parse, v, at, trace[..2]) && PairVerdict(parse, v, trace[..2]) == BlockUnknown
      decreases attempts - attempt
    {
      ghost var before := trace;
      var r;
      r, trace := ResolvePair(rpc, parse, v, at, trace);
      PairSize(parse, v, at, trace[start..]);
      match r {
        case Settled(settled) =>
          assert attempt == 2 ==> trace[..2] == before[..2];
          CountedVoteIsOneBlock(parse, v, at, trace[start..]);
          assert start == 0 ==> trace[start..] == trace && FollowsFrom(rpc, trace);
          FlagIsAsked(parse, v, at, trace[start..]);
          assert start == 2 ==> trace[2] == trace[start..][0];
          if settled == Counts && HonoursPins(rpc) {
            PinnedAnswersOneBlock(rpc, parse, v, at, trace, start);
          }
          return settled, trace, start;
        case BlockUnknown =>
          FlagIsAsked(parse, v, at, trace[start..]);
          assert start == 2 ==> trace[2] == trace[start..][0];
          if attempt == attempts {
            assert attempt == 2 ==> trace[..2] == before[..2];
            return NotConcluded, trace, start;
          }
          BothRead(parse, v, trace[start..]);
          assert trace[..2] == trace[start..];
          start := |trace|;
          attempt := attempt + 1;
      }
    }
  }

  /** The response is an error whose cause, or which itself, is named UNKNOWN_BLOCK. */
  ghost predicate SaysUnknownBlock(response: Value) {
    response.Obj? && exists error :: Once(response.entries, "error", Obj(error)) && SaysUnknown(error)
  }

  ghost predicate SaysUnknown(error: seq<Entry>) {
    || Once(error, "name", Str("UNKNOWN_BLOCK"))
    || exists cause :: Once(error, "cause", Obj(cause)) && Once(cause, "name", Str("UNKNOWN_BLOCK"))
  }

  /** The node answers the first flag `true` from a block, and says of the query pinned to that
      block that it does not know it. */
  ghost predicate FirstPinUnknown(rpc: Rpc, parse: Parser, v: Vote, at: At) {
    var flag := rpc(0, Query(v.approver, "w_is_signature_allowed", Obj([]), at));
    && flag.Some? && ClassifyOf(flag.value).Answered?
    && parse(ClassifyOf(flag.value).bytes) == Some(Bool(true))
    && var pinned := rpc(1, Query(v.approver, "w_resolve_auth", ResolveArgs(v), Block(ClassifyOf(flag.value).block)));
       pinned.Some? && SaysUnknownBlock(pinned.value)
  }

  lemma UnknownBlockIsSeen(response: Value)
    requires SaysUnknownBlock(response)
    ensures NamesUnknownBlock(response)
  {
    hide Lookup, Once;
    var error :| Once(response.entries, "error", Obj(error)) && SaysUnknown(error);
    OnceReads(response.entries, "error", Obj(error));
    if Once(error, "name", Str("UNKNOWN_BLOCK")) {
      OnceReads(error, "name", Str("UNKNOWN_BLOCK"));
    } else {
      var cause :| Once(error, "cause", Obj(cause)) && Once(cause, "name", Str("UNKNOWN_BLOCK"));
      OnceReads(error, "cause", Obj(cause));
      OnceReads(cause, "name", Str("UNKNOWN_BLOCK"));
    }
  }

  /** Whatever a run's first pair is, the node decides it: a pin it does not know leaves both
      reads made and the block unknown. */
  lemma FirstPinMeansUnknown(rpc: Rpc, parse: Parser, v: Vote, at: At)
    ensures FirstPinUnknown(rpc, parse, v, at) ==>
      forall t :: PairTrace(parse, v, at, t) && FollowsFrom(rpc, t) ==> |t| == 2 && PairVerdict(parse, v, t) == BlockUnknown
  {
    hide ClassifyOf, NamesUnknownBlock, ResolveArgs, SaysUnknownBlock;
    if FirstPinUnknown(rpc, parse, v, at) {
      var flag := rpc(0, Query(v.approver, "w_is_signature_allowed", Obj([]), at));
      UnknownBlockIsSeen(rpc(1, ResolverQuery(v, ClassifyOf(flag.value).block)).value);
    }
  }

  /** The exchanges are the first ones of a run. */
  predicate FollowsFrom(rpc: Rpc, t: seq<Exchange>) {
    forall k :: 0 <= k < |t| ==> t[k].answer == rpc(k, t[k].query)
  }

  lemma FlagIsAsked(parse: Parser, v: Vote, at: At, t: seq<Exchange>)
    requires PairTrace(parse, v, at, t)
    ensures t[0].query == Query(v.approver, "w_is_signature_allowed", Obj([]), at)
  {
  }

  lemma PairSize(parse: Parser, v: Vote, at: At, t: seq<Exchange>)
    requires PairTrace(parse, v, at, t)
    ensures 1 <= |t| <= 2
  {
  }

  lemma BothRead(parse: Parser, v: Vote, t: seq<Exchange>)
    requires 1 <= |t| <= 2 && PairVerdict(parse, v, t) == BlockUnknown
    ensures |t| == 2
  {
  }

  /** A vote counts exactly on a pair of reads asked at one block: the flag read `true` at some
      block, the resolution was asked at that very block, and what it authorizes is, byte for
      byte, the expected message. The block the second answer names is not looked at. */
  lemma CountedVoteIsOneBlock(parse: Parser, v: Vote, at: At, t: seq<Exchange>)
    requires PairTrace(parse, v, at, t)
    ensures PairVerdict(parse, v, t) == Settled(Counts) <==>
      && |t| == 2
      && TrueAt(parse, t[0]).Some?
      && t[1].query == ResolverQuery(v, TrueAt(parse, t[0]).value)
      && t[1].answer.Some? && !NamesUnknownBlock(t[1].answer.value)
      && ClassifyOf(t[1].answer.value).Answered?
      && AuthorizesExactly(parse, v, ClassifyOf(t[1].answer.value).bytes)
  {
    hide ClassifyOf, NamesUnknownBlock, ResolveArgs, Lookup;
  }

  /** Whatever answers a pinned query answers it from the block it was pinned to. */
  ghost predicate HonoursPins(rpc: Rpc) {
    forall n: nat, q: Query :: q.at.Block? && rpc(n, q).Some? && ClassifyOf(rpc(n, q).value).Answered? ==>
      ClassifyOf(rpc(n, q).value).block == q.at.hash
  }

  /** Both answers of the pair name the block the flag was read at. */
  predicate OneBlock(parse: Parser, t: seq<Exchange>) {
    && |t| == 2 && TrueAt(parse, t[0]).Some? && t[1].answer.Some? && ClassifyOf(t[1].answer.value).Answered?
    && ClassifyOf(t[1].answer.value).block == TrueAt(parse, t[0]).value
  }

  /** With a node that honours pins a counted pair describes one state of the wallet. */
  lemma PinnedAnswersOneBlock(rpc: Rpc, parse: Parser, v: Vote, at: At, trace: seq<Exchange>, start: nat)
    requires HonoursPins(rpc) && LastPair(parse, v, at, trace, start)
    requires forall k :: 0 <= k < |trace| ==> trace[k].answer == rpc(k, trace[k].query)
    requires PairVerdict(parse, v, trace[start..]) == Settled(Counts)
    ensures OneBlock(parse, trace[start..])
  {
    hide ClassifyOf, NamesUnknownBlock, ResolveArgs, AuthorizesExactly, TrueAt, PairVerdict, PairTrace;
    CountedVoteIsOneBlock(parse, v, at, trace[start..]);
    var last := trace[start + 1];
    assert trace[start..][1] == last;
    assert last.answer == rpc(start + 1, last.query);
    assert last.query.at == Block(TrueAt(parse, trace[start..][0]).value);
  }

  lemma LookupOfTwo(a: Entry, b: Entry, key: string)
    ensures Lookup([a, b], key)
         == if a.key == key then Some(a.value) else if b.key == key then Some(b.value) else None
    ensures Lookup([a], key) == if a.key == key then Some(a.value) else None
  {
    assert [a, b][1..] == [b] && [b][1..] == [] && [a][1..] == [];
    assert Lookup([], key).None?;
    assert Lookup([b], key) == if b.key == key then Some(b.value) else None;
  }

  function Answer(item: u64, block: string): Value {
    Obj([Entry("result", Obj([Entry("block_hash", Str(block)), Entry("result", Arr([Num(PosInt(item))]))]))])
  }

  lemma AnswerReads(item: u64, block: string)
    requires item < 256 && block != ""
    ensures ClassifyOf(Answer(item, block)) == Answered([item], block)
    ensures !NamesUnknownBlock(Answer(item, block))
  {
    hide Lookup;
    var hash, list := Entry("block_hash", Str(block)), Entry("result", Arr([Num(PosInt(item))]));
    var result := Entry("result", Obj([hash, list]));
    assert "block_hash"[0] != "result"[0] && "block_hash"[0] != "error"[0] && "result"[0] != "error"[0];
    LookupOfTwo(result, result, "error");
    LookupOfTwo(result, result, "result");
    LookupOfTwo(hash, list, "error");
    LookupOfTwo(hash, list, "block_hash");
    LookupOfTwo(hash, list, "result");
    assert BytesOf(list.value.items, 0) == Some([]);
  }

  function Resolution(expected: string): Value {
    Obj([Entry("status", Str("RESOLVED")), Entry("payload", Str(expected))])
  }

  lemma ResolutionReads(v: Vote)
    ensures Resolution(v.expected).Obj? && JudgeStatus(v.shape, Resolution(v.expected)).None?
    ensures StrIn(Some(Resolution(v.expected)), "payload") == Some(v.expected)
  {
    hide Lookup;
    var status, payload := Entry("status", Str("RESOLVED")), Entry("payload", Str(v.expected));
    assert "status"[0] != "payload"[0] && "pending"[1] != "payload"[1] && "status"[0] != "pending"[0];
    LookupOfTwo(status, payload, "status");
    LookupOfTwo(status, payload, "payload");
    LookupOfTwo(status, payload, "pending");
  }

  /** The failing input: a node that answers the flag from one block and the pinned query from
      another has its vote counted. */
  lemma UnpinnedAnswerCounts(v: Vote) returns (parse: Parser, t: seq<Exchange>)
    ensures PairTrace(parse, v, Final, t) && PairVerdict(parse, v, t) == Settled(Counts)
    ensures !OneBlock(parse, t)
  {
    hide ClassifyOf, NamesUnknownBlock, Answer, Resolution, JudgeStatus, StrIn, ResolveArgs;
    parse := (bytes: seq<byte>) => Some(if bytes == [1] then Bool(true) else Resolution(v.expected));
    AnswerReads(1, "A");
    AnswerReads(0, "B");
    ResolutionReads(v);
    t := [Exchange(FlagQuery(v, Final), Some(Answer(1, "A"))), Exchange(ResolverQuery(v, "A"), Some(Answer(0, "B")))];
  }

  /** The exchanges of one pair whose first query is the node's `n`-th. */
  function Asked(rpc: Rpc, parse: Parser, v: Vote, at: At, n: nat): seq<Exchange> {
    var flag := Exchange(FlagQuery(v, at), rpc(n, FlagQuery(v, at)));
    match TrueAt(parse, flag)
    case None => [flag]
    case Some(block) => [flag, Exchange(ResolverQuery(v, block), rpc(n + 1, ResolverQuery(v, block)))]
  }

  /** When the node answers the flag from a block and then the query pinned to it, with bytes
      that could be a resolution, the second answer names that block too. */
  predicate PinHonoured(rpc: Rpc, v: Vote, at: At, n: nat) {
    var flag := rpc(n, FlagQuery(v, at));
    flag.Some? && ClassifyOf(flag.value).Answered? ==>
      var first := ClassifyOf(flag.value);
      var pinned := rpc(n + 1, ResolverQuery(v, first.block));
      pinned.Some? && ClassifyOf(pinned.value).Answered?
      && ClassifyOf(pinned.value).bytes != first.bytes && |ClassifyOf(pinned.value).bytes| <= RESOLUTION_MAX_BYTES ==>
        ClassifyOf(pinned.value).block == first.block
  }

  lemma AnsweredHasNoError(response: Value)
    requires ClassifyOf(response).Answered?
    ensures !NamesUnknownBlock(response)
  {
    hide ClassifyResult, ErrorName;
  }

  /** A pair that counts, whatever its bytes are read as, comes from one block exactly when the
      node honours the pin. */
  lemma OneBlockExactly(rpc: Rpc, v: Vote, at: At, n: nat)
    ensures
      (forall parse: Parser :: PairVerdict(parse, v, Asked(rpc, parse, v, at, n)) == Settled(Counts) ==>
         OneBlock(parse, Asked(rpc, parse, v, at, n)))
      <==> PinHonoured(rpc, v, at, n)
  {
    hide ClassifyOf, NamesUnknownBlock, ResolveArgs, Resolution, JudgeStatus, StrIn;
    if PinHonoured(rpc, v, at, n) {
      forall parse: Parser | PairVerdict(parse, v, Asked(rpc, parse, v, at, n)) == Settled(Counts)
        ensures OneBlock(parse, Asked(rpc, parse, v, at, n))
      {
        CountedVoteIsOneBlock(parse, v, at, Asked(rpc, parse, v, at, n));
      }
    } else {
      var first := ClassifyOf(rpc(n, FlagQuery(v, at)).value);
      var parse: Parser := (bytes: seq<byte>) => Some(if bytes == first.bytes then Bool(true) else Resolution(v.expected));
      ResolutionReads(v);
      AnsweredHasNoError(rpc(n + 1, ResolverQuery(v, first.block)).value);
      assert PairVerdict(parse, v, Asked(rpc, parse, v, at, n)) == Settled(Counts);
      assert !OneBlock(parse, Asked(rpc, parse, v, at, n));
    }
  }

  /** The resolver's answer is a small object, settled for its shape, whose payload is the
      expected message. */
  predicate AuthorizesExactly(parse: Parser, v: Vote, bytes: seq<byte>) {
    && |bytes| <= RESOLUTION_MAX_BYTES
    && parse(bytes).Some? && parse(bytes).value.Obj?
    && (v.shape.Eip712? ==> StrIn(parse(bytes), "status") == Some("RESOLVED"))
    && (v.shape.Nep641? ==> Get(parse(bytes).value, "pending") in {None, Some(Null), Some(Arr([]))})
    && StrIn(parse(bytes), "payload") == Some(v.expected)
  }
}
