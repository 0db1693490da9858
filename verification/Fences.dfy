/** Fences no rule opens by accident: the intents contract, raw signing on near, and the
    lock on the policy itself. */
module Fences {
  import opened Common
  import R = Request
  import opened Policy
  import opened Evaluation
  import Extension
  import Invariance
  import Runs
  import ContractVote
  import AccountId

  // ---------------------------------------------------------------------------
  // The intents contract and the near key
  // ---------------------------------------------------------------------------

  /** Past the freeze and the identity proofs, a permission went through the capabilities. */
  lemma PermittedCapabilities(policy: Policy, op: Op, usage: Option<Usage>, now: nat)
    requires Evaluate(policy, op, usage, now).Permits() && !op.Auth?
    ensures !op.PolicyUpdate? && !policy.frozen
    ensures CheckCapabilities(policy.capabilities, policy.approval, op).Some? ==>
      CheckCapabilities(policy.capabilities, policy.approval, op).value.Permits()
  {
    hide ExtensionStage, StandardStage, CheckCapabilities, LimitsReadable, TimeRefuses;
    StandardDenies(policy.rules, op, usage);
    Invariance.DoorDenies(policy.rules, if op.Call? then op.body else BodyNotBase64, usage);
  }

  predicate IntentsCallOpened(policy: Policy) {
    && policy.capabilities.Some? && policy.capabilities.value.intentsCall.Some?
    && policy.capabilities.value.intentsCall.value.allowed == Some(true)
  }

  /** An extension call with a promise aimed at the intents contract, as decoded. */
  predicate AimsAtIntents(op: Op) {
    op.IsExtensionCall() && op.body.Body?
    && exists p :: p in op.body.req.external && IsIntentsContract(p.receiver)
  }

  /** Whatever the policy, the counters and the time: a permitted call to the intents
      contract, direct or as a promise of the bound account, was opened by name. */
  lemma IntentsFenceHolds(policy: Policy, op: Op, usage: Option<Usage>, now: nat)
    requires Evaluate(policy, op, usage, now).Permits()
    requires (op.Call? && IsFencedIntentsCall(op.to, op.methodName)) || AimsAtIntents(op)
    ensures IntentsCallOpened(policy)
  {
    hide Evaluate, IsIntentsContract, R.RequestReadable, ApprovalDemand, GATE_ONLY_INTENTS_METHODS;
    PermittedCapabilities(policy, op, usage, now);
    if AimsAtIntents(op) {
      DecodedAlike(policy, op, usage, now);
    }
    assert CheckCapabilities(policy.capabilities, policy.approval, op) == IntentsCallStage(policy.capabilities, policy.approval);
  }

  /** A permitted extension call decoded at the door, so the fence reads the same promises. */
  lemma DecodedAlike(policy: Policy, op: Op, usage: Option<Usage>, now: nat)
    requires Evaluate(policy, op, usage, now).Permits() && AimsAtIntents(op)
    ensures ExtensionReachesIntents(op.body)
  {
    hide Evaluate, IsIntentsContract, R.FiguresReadable, Extension.SumsMeet, Extension.PromiseFine;
    Runs.PermittedDoor(policy, op, usage, now);
    var p :| p in op.body.req.external && IsIntentsContract(p.receiver);
    var i :| 0 <= i < |op.body.req.external| && op.body.req.external[i] == p;
  }

  function RawSign(policy: Policy): Option<Capability> {
    if policy.capabilities.Some? then policy.capabilities.value.rawSign else None
  }

  predicate RawNearOpened(policy: Policy) {
    RawSign(policy).Some? && RawSign(policy).value.allowed == Some(true) && RawSignNamesNear(RawSign(policy).value)
  }

  /** A permitted raw signature on any spelling of near was opened by naming near. */
  lemma NearFenceHolds(policy: Policy, op: Op, usage: Option<Usage>, now: nat)
    requires Evaluate(policy, op, usage, now).Permits()
    requires op.Raw? && NamesNear(op.chain)
    ensures RawNearOpened(policy)
  {
    hide Evaluate, NamesNear, ApprovalDemand;
    PermittedCapabilities(policy, op, usage, now);
    var chains := RawSign(policy).value.chains.value;
    var i :| 0 <= i < |chains| && chains[i] == op.chain;
  }

  // ---------------------------------------------------------------------------
  // The lock
  // ---------------------------------------------------------------------------

  datatype LockFault = RawNearOpen | ThresholdMissing | ThresholdBelowOne | NobodyNamed | QuorumUnreachable

  predicate RawSigningOnNearIsOpen(policy: Policy) {
    RawSign(policy).Some? && Flag(RawSign(policy).value.allowed, false) && RawSignNamesNear(RawSign(policy).value)
  }

  /** The distinct trimmed ids of approvers that have one. */
  function NamedIds(policy: Policy): set<string> {
    set a | a in ContractVote.ApproversOf(policy) && a.id.Some? && Trim(a.id.value) != "" :: Trim(a.id.value)
  }

  function LockVerdict(policy: Policy): Result<(), LockFault> {
    if !Locked(policy.approval) then Ok(())
    else if RawSigningOnNearIsOpen(policy) then Err(RawNearOpen)
    else if policy.approval.value.threshold.None? then Err(ThresholdMissing)
    else
      var threshold := policy.approval.value.threshold.value.Required();
      if threshold < 1 then Err(ThresholdBelowOne)
      else if NamedIds(policy) == {} then Err(NobodyNamed)
      else if threshold > |NamedIds(policy)| then Err(QuorumUnreachable)
      else Ok(())
  }

  /** The lock is accepted exactly when a quorum exists among the trimmed ids and the near
      key is not open to raw signing. */
  lemma LockExactly(policy: Policy)
    ensures LockVerdict(policy).Ok? <==>
      Locked(policy.approval) ==>
        && !RawNearOpened(policy)
        && policy.approval.value.threshold.Some?
        && 1 <= policy.approval.value.threshold.value.Required() <= |NamedIds(policy)|
  {
    hide Trim, RawSignNamesNear;
  }

  /** The raw ids an approver can vote under. */
  function VotingIds(policy: Policy): set<string> {
    set a | a in ContractVote.ApproversOf(policy) && a.id.Some? && Trim(a.id.value) != "" :: a.id.value
  }

  /** An image is no larger than what it is an image of. */
  lemma {:induction false} TrimmedNoMore(raw: set<string>, trimmed: set<string>)
    requires forall t :: t in trimmed ==> exists r :: r in raw && Trim(r) == t
    ensures |trimmed| <= |raw|
    decreases |trimmed|
  {
    hide Trim;
    if trimmed != {} {
      var t :| t in trimmed;
      var r :| r in raw && Trim(r) == t;
      TrimmedNoMore(raw - {r}, trimmed - {t});
    }
  }

  /** Under a lock that was accepted at least `threshold` distinct ids are listed as approvers:
      counting trimmed ones never overcounts. */
  lemma AcceptedLockIsReachable(policy: Policy)
    requires LockVerdict(policy).Ok? && Locked(policy.approval)
    ensures policy.approval.value.threshold.Some?
    ensures 1 <= policy.approval.value.threshold.value.Required() <= |VotingIds(policy)|
    ensures forall id :: id in VotingIds(policy) ==>
      exists a :: a in ContractVote.ApproversOf(policy) && a.id == Some(id)
  {
    hide Trim, RawSignNamesNear, LockVerdict;
    LockExactly(policy);
    forall t | t in NamedIds(policy)
      ensures exists r :: r in VotingIds(policy) && Trim(r) == t
    {
      var a :| a in ContractVote.ApproversOf(policy) && a.id.Some? && Trim(a.id.value) == t && Trim(a.id.value) != "";
      assert a.id.value in VotingIds(policy);
    }
    TrimmedNoMore(VotingIds(policy), NamedIds(policy));
  }

  /** Under an accepted lock nothing is permitted that could step around it. */
  lemma AcceptedLockHolds(policy: Policy, op: Op, usage: Option<Usage>, now: nat)
    requires LockVerdict(policy).Ok? && Locked(policy.approval)
    requires op.PolicyUpdate? || (op.Raw? && NamesNear(op.chain))
    ensures !Evaluate(policy, op, usage, now).Permits()
  {
    hide Trim, RawSignNamesNear, ExtensionStage, StandardStage, TailStage, LimitsReadable;
    if op.Raw? && Evaluate(policy, op, usage, now).Permits() {
      NearFenceHolds(policy, op, usage, now);
    }
  }

  // ---------------------------------------------------------------------------
  // When an accepted lock can be lifted
  // ---------------------------------------------------------------------------

  /** An account that could cast a vote that counts. */
  ghost predicate CanVote(policy: Policy, id: string) {
    AccountId.NamesAccount(id) && exists key :: ContractVote.KeyMayVote(ContractVote.ApproversOf(policy), id, key)
  }

  ghost predicate AllCanVote(policy: Policy, voters: set<string>) {
    forall id :: id in voters ==> CanVote(policy, id)
  }

  /** Enough accounts could vote. */
  ghost predicate Liftable(policy: Policy, threshold: int) {
    exists voters :: AllCanVote(policy, voters) && |voters| >= threshold
  }

  /** The listed ids, as written, that an account can have. */
  ghost function AccountIds(policy: Policy): set<string> {
    set a | a in ContractVote.ApproversOf(policy) && a.id.Some? && AccountId.NamesAccount(a.id.value) :: a.id.value
  }

  lemma VotersAre(policy: Policy, id: string)
    ensures CanVote(policy, id) <==> id in AccountIds(policy)
  {
    hide AccountId.NamesAccount;
    var approvers := ContractVote.ApproversOf(policy);
    if id in AccountIds(policy) {
      if a :| a in approvers && a.id == Some(id) && a.pubkey.Some? {
        assert ContractVote.KeyMayVote(approvers, id, a.pubkey.value);
      } else {
        assert ContractVote.KeyMayVote(approvers, id, "");
      }
    }
  }

  lemma {:induction false} NoLarger(a: set<string>, b: set<string>)
    requires a <= b
    ensures |a| <= |b|
  {
    if a != {} {
      var x :| x in a;
      NoLarger(a - {x}, b - {x});
    }
  }

  /** A lock can be lifted exactly when its threshold is no more than the number of distinct
      listed ids that an account can have: trimmed ids are counted when the lock is accepted,
      while votes are matched against the ids as written. */
  lemma LiftableExactly(policy: Policy, threshold: int)
    ensures Liftable(policy, threshold) <==> threshold <= |AccountIds(policy)|
  {
    hide CanVote;
    var ids := AccountIds(policy);
    forall id: string
      ensures CanVote(policy, id) <==> id in ids
    {
      VotersAre(policy, id);
    }
    assert AllCanVote(policy, ids);
    if Liftable(policy, threshold) {
      var voters :| AllCanVote(policy, voters) && |voters| >= threshold;
      NoLarger(voters, ids);
    }
  }

  /** An accepted lock whose approvers all carry ids an account can have can be lifted. */
  lemma AcceptedLockIsLiftable(policy: Policy)
    requires LockVerdict(policy).Ok? && Locked(policy.approval)
    requires forall id :: id in VotingIds(policy) ==> AccountId.NamesAccount(id)
    ensures policy.approval.value.threshold.Some?
    ensures Liftable(policy, policy.approval.value.threshold.value.Required())
  {
    hide Trim, AccountId.NamesAccount, LockVerdict, Liftable;
    AcceptedLockIsReachable(policy);
    LiftableExactly(policy, policy.approval.value.threshold.value.Required());
    NoLarger(VotingIds(policy), AccountIds(policy));
  }

  /** A locked policy whose only approver is written with a space in front. */
  const PADDED_APPROVER := Policy(
    false, None, Some(Approval(Some(Number(1)), Some([Approver(Some(" al"), None)]), Some(true), None)), None)

  /** The failing input: the lock is accepted and nobody can lift it. */
  lemma PaddedApproverLocks()
    ensures LockVerdict(PADDED_APPROVER).Ok? && Locked(PADDED_APPROVER.approval)
    ensures !Liftable(PADDED_APPROVER, 1)
  {
    hide AccountId.Decomposes, Liftable;
    var approver := Approver(Some(" al"), None);
    var policy := PADDED_APPROVER;
    assert ContractVote.ApproversOf(policy) == [approver];
    assert " al"[1..] == "al";
    assert Trim(" al") == "al";
    assert approver in ContractVote.ApproversOf(policy);
    assert NamedIds(policy) == {"al"};
    var bytes := AccountId.Bytes(" al");
    assert bytes[0] == ' ' as int;
    AccountId.SpacedExactly(bytes);
    assert !AccountId.NamesAccount(" al");
    assert AccountIds(policy) == {};
    LiftableExactly(policy, 1);
  }

  // ---------------------------------------------------------------------------
  // A lock that was stored without being accepted
  // ---------------------------------------------------------------------------

  /** The capability lists a spelling of near that is more than its letters in some case. */
  predicate PaddedNearListed(cap: Capability) {
    cap.chains.Some?
    && exists i :: 0 <= i < |cap.chains.value| && NamesNear(cap.chains.value[i]) && Lower(cap.chains.value[i]) != "near"
  }

  /** What a lock alone promises of one raw signature: near stays closed. */
  predicate NearKept(policy: Policy, cap: Option<Capability>, chain: string, hash: string, usage: Option<Usage>, now: nat) {
    Locked(policy.approval) && RawSign(policy) == cap && NamesNear(chain) ==>
      !Evaluate(policy, Raw(chain, hash), usage, now).Permits()
  }

  /** A locked policy with nothing but this capability. */
  function OnlyLocked(cap: Option<Capability>): Policy {
    Policy(false, None, Some(Approval(Some(Number(1)), None, Some(true), None)),
           Some(Capabilities(cap, None, None, None, None, None, None, None)))
  }

  lemma LockedNearPermitted(cap: Capability, i: nat)
    requires cap.chains.Some? && i < |cap.chains.value| && Flag(cap.allowed, false)
    requires NamesNear(cap.chains.value[i]) && Lower(cap.chains.value[i]) != "near"
    ensures Evaluate(OnlyLocked(Some(cap)), Raw(cap.chains.value[i], ""), None, 0).Permits()
  {
    hide NamesNear, Lower;
  }

  /** The failing input: a chain list holding near with a space in front. */
  lemma PaddedNear()
    ensures
      var cap := Capability(Some(true), None, Some([" near"]));
      && PaddedNearListed(cap) && NamesNear(" near")
      && Evaluate(OnlyLocked(Some(cap)), Raw(" near", ""), None, 0).Permits()
  {
    hide Evaluate;
    assert " near"[1..] == "near";
    assert Trim(" near") == "near";
    assert Lower("near") == "near";
    assert |Lower(" near")| == 5;
    assert [" near"][0] == " near";
    LockedNearPermitted(Capability(Some(true), None, Some([" near"])), 0);
  }

  /** Under every locked policy with this raw-sign capability, accepted or not, raw signing is
      refused on every spelling of near, exactly when the capability is off or lists no padded
      spelling: the lock itself does not trim. */
  lemma LockedNearExactly(cap: Option<Capability>)
    ensures (forall policy, chain, hash, usage, now :: NearKept(policy, cap, chain, hash, usage, now))
       <==> !(cap.Some? && Flag(cap.value.allowed, false) && PaddedNearListed(cap.value))
  {
    hide Evaluate, NamesNear, Lower;
    if cap.Some? && Flag(cap.value.allowed, false) && PaddedNearListed(cap.value) {
      var chains := cap.value.chains.value;
      var i :| 0 <= i < |chains| && NamesNear(chains[i]) && Lower(chains[i]) != "near";
      LockedNearPermitted(cap.value, i);
      assert !NearKept(OnlyLocked(cap), cap, chains[i], "", None, 0);
    } else {
      forall policy, chain, hash, usage, now
        ensures NearKept(policy, cap, chain, hash, usage, now)
      {
        if Locked(policy.approval) && RawSign(policy) == cap && NamesNear(chain)
           && Evaluate(policy, Raw(chain, hash), usage, now).Permits()
        {
          LockedChain(policy, chain, hash, usage, now);
        }
      }
    }
  }

  /** What a raw signature on near that a locked policy permits was spelled like. */
  lemma LockedChain(policy: Policy, chain: string, hash: string, usage: Option<Usage>, now: nat)
    requires Locked(policy.approval) && NamesNear(chain)
    requires Evaluate(policy, Raw(chain, hash), usage, now).Permits()
    ensures RawSign(policy).Some? && Flag(RawSign(policy).value.allowed, false) && PaddedNearListed(RawSign(policy).value)
  {
    hide NamesNear, Lower, ApprovalDemand, StandardStage, TailStage, LimitsReadable;
    PermittedCapabilities(policy, Raw(chain, hash), usage, now);
    var chains := RawSign(policy).value.chains.value;
    var i :| 0 <= i < |chains| && chains[i] == chain;
  }
}
