/** What contract votes come to on responses spelled out field by field. */
module VoteCases {
  import opened Common
  import opened Json
  import opened ContractVote

  /** A vote message spells its verb in words. */
  lemma VerbsAreSpelled(id: string, key: string, hash: string)
    ensures VoteMessage(Approve, id, key, hash) == "approve:" + id + ":" + key + ":" + hash
    ensures VoteMessage(Reject, id, key, hash) == "reject:" + id + ":" + key + ":" + hash
  {
    assert "approve" + ":" == "approve:" && "reject" + ":" == "reject:";
  }

  // ---------------------------------------------------------------------------
  // Responses
  // ---------------------------------------------------------------------------

  /** An error named `name`: by its cause, or by itself when it gives no cause. */
  predicate ErrorNamed(error: seq<Entry>, name: string, cause: seq<Entry>) {
    || (Once(error, "cause", Obj(cause)) && Once(cause, "name", Str(name)))
    || (Lacks(error, "cause") && Once(error, "name", Str(name)))
  }

  /** Of all errors four are the account's own; any other leaves the account unreached. */
  lemma ErrorsClassified(response: seq<Entry>, error: seq<Entry>, name: string, cause: seq<Entry>)
    requires Once(response, "error", Obj(error)) && ErrorNamed(error, name, cause)
    ensures ClassifyOf(Obj(response))
         == if name in {"UNKNOWN_ACCOUNT", "NO_CONTRACT_CODE", "CONTRACT_EXECUTION_ERROR", "INVALID_ACCOUNT"}
            then AccountRefused else Unreachable
  {
    hide Lookup, Once, Lacks;
    OnceReads(response, "error", Obj(error));
    LackingReads(error, "cause");
    if Once(error, "cause", Obj(cause)) && Once(cause, "name", Str(name)) {
      OnceReads(error, "cause", Obj(cause));
      OnceReads(cause, "name", Str(name));
    } else {
      OnceReads(error, "name", Str(name));
    }
  }

  /** Of errors that name themselves and their cause at most once, exactly those are a block the
      node does not know that say so there. */
  lemma OnlyUnknownBlocksAreSeen(response: seq<Entry>, error: seq<Entry>, cause: seq<Entry>, causeName: string, name: string)
    requires Once(response, "error", Obj(error))
    requires Lacks(error, "name") || Once(error, "name", Str(name))
    requires Lacks(error, "cause") || (Once(error, "cause", Obj(cause)) && Once(cause, "name", Str(causeName)))
    ensures NamesUnknownBlock(Obj(response)) <==>
      || (!Lacks(error, "name") && name == "UNKNOWN_BLOCK")
      || (!Lacks(error, "cause") && causeName == "UNKNOWN_BLOCK")
  {
    hide Lookup, Once, Lacks;
    OnceReads(response, "error", Obj(error));
    LackingReads(error, "name");
    LackingReads(error, "cause");
    if !Lacks(error, "name") {
      OnceReads(error, "name", Str(name));
    }
    if !Lacks(error, "cause") {
      OnceReads(error, "cause", Obj(cause));
      OnceReads(cause, "name", Str(causeName));
    }
  }

  /** A response without an error: a contract that trapped refused, one that answered bytes at a
      block answered. */
  lemma ResultsClassified(response: seq<Entry>, result: seq<Entry>, block: string, items: seq<Value>, bytes: seq<byte>,
                          trap: string)
    requires Lacks(response, "error") && Once(response, "result", Obj(result))
    ensures Once(result, "error", Str(trap)) ==>
      ClassifyOf(Obj(response))
      == if exists i :: 0 <= i <= |trap| && "wasm execution failed" <= trap[i..] then AccountRefused else Unreachable
    ensures
      && Lacks(result, "error") && Once(result, "block_hash", Str(block)) && block != "" && Once(result, "result", Arr(items))
      && |items| == |bytes| && (forall i :: 0 <= i < |items| ==> items[i] == Num(PosInt(bytes[i]))) ==>
        ClassifyOf(Obj(response)) == Answered(bytes, block)
    ensures Lacks(result, "error") && Lacks(result, "block_hash") ==> ClassifyOf(Obj(response)) == Unreachable
  {
    hide Lookup, Once, Lacks, BytesOf;
    LackingReads(response, "error");
    OnceReads(response, "result", Obj(result));
    LackingReads(result, "error");
    LackingReads(result, "block_hash");
    if Once(result, "error", Str(trap)) {
      OnceReads(result, "error", Str(trap));
    }
    if Once(result, "block_hash", Str(block)) {
      OnceReads(result, "block_hash", Str(block));
    }
    if Once(result, "result", Arr(items)) {
      OnceReads(result, "result", Arr(items));
      if |items| == |bytes| && forall i :: 0 <= i < |items| ==> items[i] == Num(PosInt(bytes[i])) {
        BytesAre(items, |items|, bytes);
      }
    }
  }

  /** Exactly the integers from 0 to 255 are bytes. */
  lemma BytesAreSmall(n: Number)
    ensures ByteOf(Num(n)).Some? <==> n.PosInt? && n.u < 256
    ensures n.PosInt? && n.u < 256 ==> ByteOf(Num(n)) == Some(n.u)
  {
  }

  // ---------------------------------------------------------------------------
  // Queries and judgements
  // ---------------------------------------------------------------------------

  /** What a pair asks: the flag without arguments, then the resolver with the shape's own. */
  lemma PairAsks(parse: Parser, v: Vote, at: At, t: seq<Exchange>)
    requires PairTrace(parse, v, at, t)
    ensures t[0].query == Query(v.approver, "w_is_signature_allowed", Obj([]), at)
    ensures |t| == 2 ==>
      && t[0].answer.Some? && ClassifyOf(t[0].answer.value).Answered?
      && parse(ClassifyOf(t[0].answer.value).bytes) == Some(Bool(true))
      && t[1].query.account == v.approver && t[1].query.methodName == "w_resolve_auth"
      && t[1].query.at == Block(ClassifyOf(t[0].answer.value).block)
      && t[1].query.args
         == if v.shape.Eip712? then
              Obj([Entry("purpose", Str("PROVE_OWNERSHIP")), Entry("recipient", Str(v.recipient)),
                   Entry("authorization", Str(v.authorization))])
            else Obj([Entry("path", Arr([])), Entry("authorization", Str(v.authorization))])
  {
    hide ClassifyOf;
  }

  /** What one flag answer comes to: `true` is followed by the resolver, `false` does not count,
      and neither does anything else. */
  lemma FlagsJudged(parse: Parser, v: Vote, at: At, response: Value, bytes: seq<byte>, block: string)
    requires ClassifyOf(response) == Answered(bytes, block)
    ensures
      var t := [Exchange(FlagQuery(v, at), Some(response))];
      if parse(bytes) == Some(Bool(true)) then !PairTrace(parse, v, at, t)
      else
        && PairTrace(parse, v, at, t)
        && PairVerdict(parse, v, t)
           == Settled(DoesNotCount(if parse(bytes) == Some(Bool(false)) then SignaturesDisabled else Malformed))
  {
    hide ClassifyOf;
  }

  /** A flag the account refused, or nobody answered. */
  lemma UnansweredFlags(parse: Parser, v: Vote, at: At, answer: Option<Value>)
    requires answer.Some? ==> !ClassifyOf(answer.value).Answered?
    ensures
      var t := [Exchange(FlagQuery(v, at), answer)];
      && PairTrace(parse, v, at, t)
      && PairVerdict(parse, v, t)
         == Settled(if answer.Some? && ClassifyOf(answer.value).AccountRefused? then DoesNotCount(RefusedByContract)
                    else NotConcluded)
  {
    hide ClassifyOf, NamesUnknownBlock;
  }

  /** Each resolution by its own fields: its size, its status or pending list, its payload. */
  lemma ResolutionsJudged(parse: Parser, v: Vote, bytes: seq<byte>, entries: seq<Entry>, status: string, pending: seq<Value>,
                          payload: string)
    requires parse(bytes) == Some(Obj(entries))
    ensures |bytes| > 4096 ==> JudgeResolution(parse, v.shape, bytes, v.expected) == Some(Malformed)
    ensures |bytes| <= 4096 && v.shape.Eip712? && Once(entries, "status", Str(status)) && Once(entries, "payload", Str(payload)) ==>
      JudgeResolution(parse, v.shape, bytes, v.expected)
      == if status != "RESOLVED" then Some(NotResolved) else if payload != v.expected then Some(PayloadMismatch) else None
    ensures |bytes| <= 4096 && v.shape.Nep641? && Once(entries, "payload", Str(payload)) ==>
      && (Lacks(entries, "pending") || Once(entries, "pending", Null) ==>
            JudgeResolution(parse, v.shape, bytes, v.expected) == if payload != v.expected then Some(PayloadMismatch) else None)
      && (Once(entries, "pending", Arr(pending)) ==>
            JudgeResolution(parse, v.shape, bytes, v.expected)
            == if pending != [] then Some(PendingSubAuthorization)
               else if payload != v.expected then Some(PayloadMismatch) else None)
    ensures |bytes| <= 4096 && v.shape.Eip712? && Lacks(entries, "status") ==>
      JudgeResolution(parse, v.shape, bytes, v.expected) == Some(Malformed)
  {
    hide Lookup, Once, Lacks;
    LackingReads(entries, "pending");
    LackingReads(entries, "status");
    if Once(entries, "status", Str(status)) {
      OnceReads(entries, "status", Str(status));
    }
    if Once(entries, "payload", Str(payload)) {
      OnceReads(entries, "payload", Str(payload));
    }
    if Once(entries, "pending", Null) {
      OnceReads(entries, "pending", Null);
    }
    if Once(entries, "pending", Arr(pending)) {
      OnceReads(entries, "pending", Arr(pending));
    }
  }
}
