/** The two binding modes: which evidence each one accepts, the single dispatch, and the
    verdict assembled in the order the chain would have reached it. */
module Binding {
  import opened Common
  import opened Effects
  import opened Violations
  import opened Hos

  datatype BindingKind = HosLease | PersonalAccount

  datatype PlainStatus = PlainStatus(extensionEnabled: bool, codeHash: string, codeRecognized: bool)

  datatype ChainObservation = LeaseEvidence(lease: AgentStatusView) | PersonalEvidence(plain: PlainStatus)

  datatype VerifiedState = LeaseState(status: AgentStatusView) | PersonalState(codeHash: string)

  datatype BindingFault =
    | ExtensionDisabled
    | CodeHashUnknown(hash: string)
    | LeaseExpired
    | StateExpired
    | Frozen(freeze: string)
    | StateNotActive(state: string)
    | EvidenceOfOtherMode
    | Malformed(figure: string)

  function VerifyLease(status: AgentStatusView, nowNs: u64): Result<VerifiedState, BindingFault> {
    if !status.extensionEnabled then Err(ExtensionDisabled)
    else if status.frozen != "Unfrozen" then Err(Frozen(status.frozen))
    else if status.state == "Expired" then Err(StateExpired)
    else if status.state != "Active" then Err(StateNotActive(status.state))
    else match ParseU64(status.leaseUntilNs)
      case None => Err(Malformed(status.leaseUntilNs))
      case Some(until) => if until <= nowNs then Err(LeaseExpired) else Ok(LeaseState(status))
  }

  function VerifyPersonal(status: PlainStatus): Result<VerifiedState, BindingFault> {
    if !status.codeRecognized then Err(CodeHashUnknown(status.codeHash))
    else if !status.extensionEnabled then Err(ExtensionDisabled)
    else Ok(PersonalState(status.codeHash))
  }

  /** The dispatch: evidence of the other mode is refused, never reinterpreted. */
  function Admit(kind: BindingKind, observation: ChainObservation, nowNs: u64): Result<VerifiedState, BindingFault> {
    match (kind, observation)
    case (HosLease, LeaseEvidence(status)) => VerifyLease(status, nowNs)
    case (PersonalAccount, PersonalEvidence(status)) => VerifyPersonal(status)
    case _ => Err(EvidenceOfOtherMode)
  }

  /** Each mode's own refusals; a state verified by the other mode is itself refused. */
  function AdmissionFor(kind: BindingKind, fx: EffectsSet, st: VerifiedState, nowNs: u64): seq<Violation> {
    match (kind, st)
    case (HosLease, LeaseState(status)) => AdmissionOf(fx, status, nowNs)
    case (PersonalAccount, PersonalState(_)) => []
    case _ => [AtDoor(EvidenceMismatch)]
  }

  function OptionSeq<T>(o: Option<T>): seq<T> {
    if o.Some? then [o.value] else []
  }

  function Assembled(kind: BindingKind, fx: EffectsSet, admitted: seq<Violation>, collection: Option<string>,
                     reserve: Option<Violation>): seq<Violation>
  {
    admitted
    + (if kind.HosLease? && collection.Some? then OwnCollectionOf(fx, collection.value) else [])
    + OptionSeq(reserve)
  }

  function VerdictOf(kind: BindingKind, fx: EffectsSet, admitted: seq<Violation>, collection: Option<string>,
                     reserve: Option<Violation>): seq<Violation>
  {
    if admitted != [] && admitted[0].AnswersAlone() then admitted
    else StableSort(Assembled(kind, fx, admitted, collection, reserve))
  }

  method Verdict(kind: BindingKind, fx: EffectsSet, admitted: seq<Violation>, collection: Option<string>,
                 reserve: Option<Violation>) returns (all: seq<Violation>)
    ensures all == VerdictOf(kind, fx, admitted, collection, reserve)
  {
    if admitted != [] && admitted[0].AnswersAlone() {
      return admitted;
    }
    all := admitted;
    if kind.HosLease? && collection.Some? {
      var own := CheckOwnCollection(fx, collection.value);
      all := all + own;
    }
    if reserve.Some? {
      all := all + [reserve.value];
    }
    assert all == Assembled(kind, fx, admitted, collection, reserve);
    all := StableSort(all);
  }

  /** The lane is live exactly when every fact about it holds at once. */
  lemma AdmittedExactly(kind: BindingKind, observation: ChainObservation, nowNs: u64)
    ensures Admit(kind, observation, nowNs).Ok? <==>
      || (&& kind.HosLease? && observation.LeaseEvidence?
          && observation.lease.extensionEnabled
          && observation.lease.frozen == "Unfrozen" && observation.lease.state == "Active"
          && ParseU64(observation.lease.leaseUntilNs).Some?
          && nowNs < ParseU64(observation.lease.leaseUntilNs).value)
      || (&& kind.PersonalAccount? && observation.PersonalEvidence?
          && observation.plain.codeRecognized && observation.plain.extensionEnabled)
  {
  }

  predicate StateOfKind(kind: BindingKind, st: VerifiedState) {
    kind.HosLease? <==> st.LeaseState?
  }

  /** A profile never answers for the other mode: foreign evidence is not admitted, what is
      admitted belongs to the claimed kind, and foreign state is refused alone at the door.
      The personal mode adds no refusal of its own. */
  lemma ModesNeverMix(kind: BindingKind, observation: ChainObservation, st: VerifiedState, fx: EffectsSet,
                      collection: Option<string>, nowNs: u64)
    ensures Admit(kind, observation, nowNs).Ok? ==> StateOfKind(kind, Admit(kind, observation, nowNs).value)
    ensures !StateOfKind(kind, st) ==>
      VerdictOf(kind, fx, AdmissionFor(kind, fx, st, nowNs), collection, None) == [AtDoor(EvidenceMismatch)]
    ensures kind.PersonalAccount? && StateOfKind(kind, st) ==>
      VerdictOf(kind, fx, AdmissionFor(kind, fx, st, nowNs), collection, None) == []
  {
    hide AdmissionOf;
  }

  /** A door refusal comes back alone. Otherwise the verdict holds exactly the admitted,
      the own-collection and the reserve refusals, ordered by key, ties as emitted. */
  lemma VerdictOnlyAdds(kind: BindingKind, fx: EffectsSet, admitted: seq<Violation>, collection: Option<string>,
                        reserve: Option<Violation>)
    ensures
      var all := Assembled(kind, fx, admitted, collection, reserve);
      var verdict := VerdictOf(kind, fx, admitted, collection, reserve);
      if admitted != [] && admitted[0].stage.Door? then verdict == admitted
      else
        && multiset(verdict) == multiset(all)
        && Sorted(verdict)
        && (forall key :: AtKey(verdict, key) == AtKey(all, key))
  {
    StableSortIsStable(Assembled(kind, fx, admitted, collection, reserve));
  }

  /** The balance floor is reported behind every rule about a promise, one that names no
      promise included. */
  lemma ReserveComesLast(vs: seq<Violation>, r: nat, v: nat)
    requires r < |StableSort(vs)| && v < |StableSort(vs)|
    requires StableSort(vs)[r].stage.Reserve?
    requires StableSort(vs)[v].stage.Promise?
    requires
      match StableSort(vs)[v].promiseIndex
      case Some(i) => i < ISIZE_MAX
      case None => StableSort(vs)[v].stage.rung < U8_MAX
    ensures v < r
  {
    StableSortIsStable(vs);
  }
}
