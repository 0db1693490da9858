/** A status that lost fields on the way: what it reads as, and when it can only refuse more. */
module Losses {
  import opened Common
  import opened Json
  import opened Request
  import opened Effects
  import opened Hos
  import opened Violations
  import opened Binding
  import opened Refinement
  import opened Grants

  /** The names that did not arrive: of the status, of its grant, of each token's budget. */
  datatype Loss = Loss(status: set<string>, grant: set<string>, budgets: map<string, set<string>>)
  {
    function Of(token: string): set<string> {
      if token in budgets then budgets[token] else {}
    }
  }

  // ---------------------------------------------------------------------------
  // The documents after the loss
  // ---------------------------------------------------------------------------

  /** The entries whose key is not lost, `f` applied to what each holds. */
  function Pruned(entries: seq<Entry>, lost: set<string>, f: (string, Value) -> Value): seq<Entry> {
    if entries == [] then []
    else
      (if entries[0].key in lost then [] else [Entry(entries[0].key, f(entries[0].key, entries[0].value))])
      + Pruned(entries[1..], lost, f)
  }

  function AsIs(): (string, Value) -> Value { (k: string, v: Value) => v }

  function PrunedBudget(loss: Loss): (string, Value) -> Value {
    (token: string, v: Value) => if v.Obj? then Obj(Pruned(v.entries, loss.Of(token), AsIs())) else v
  }

  function PrunedTokens(loss: Loss): (string, Value) -> Value {
    (k: string, v: Value) =>
      if k == GRANT_FIELDS[3] && v.Obj? then Obj(Pruned(v.entries, {}, PrunedBudget(loss))) else v
  }

  function PrunedGrant(loss: Loss): (string, Value) -> Value {
    (k: string, v: Value) =>
      if k == STATUS_FIELDS[1] && v.Obj? then Obj(Pruned(v.entries, loss.grant, PrunedTokens(loss))) else v
  }

  function Shrunken(entries: seq<Entry>, loss: Loss): seq<Entry> {
    Pruned(entries, loss.status, PrunedGrant(loss))
  }

  /** The grant and its budgets are spelled by name, so that names can be lost from them. */
  predicate ByName(v: Value) {
    v.Obj?
    && (Lookup(v.entries, GRANT_FIELDS[3]).Some? && Lookup(v.entries, GRANT_FIELDS[3]).value.Obj? ==>
          forall e :: e in Lookup(v.entries, GRANT_FIELDS[3]).value.entries ==> e.value.Obj?)
  }

  // ---------------------------------------------------------------------------
  // What they read as
  // ---------------------------------------------------------------------------

  function Kept(field: string, lost: set<string>, value: string, default: string): string {
    if field in lost then default else value
  }

  function BudgetDefaulted(b: TokenBudget, lost: set<string>): TokenBudget {
    TokenBudget(Kept("budget", lost, b.budget, "0"), Kept("spent", lost, b.spent, "0"))
  }

  /** The grant with every lost field at its default. */
  function Defaulted(g: SpendGrant, loss: Loss): SpendGrant {
    SpendGrant(
      if "receivers" in loss.grant then [] else g.receivers,
      Kept("budget_yocto", loss.grant, g.budgetYocto, "0"),
      Kept("spent_yocto", loss.grant, g.spentYocto, "0"),
      if "tokens" in loss.grant then map[] else map t | t in g.tokens :: BudgetDefaulted(g.tokens[t], loss.Of(t)),
      if "items" in loss.grant then map[] else g.items,
      Kept("expires_at", loss.grant, g.expiresAt, "0"))
  }

  /** The status with every lost field at its default. */
  function StatusDefaulted(status: AgentStatusView, loss: Loss): AgentStatusView {
    AgentStatusView(
      "extension_enabled" !in loss.status && status.extensionEnabled,
      if "grant" in loss.status || status.grant.None? then None
      else Some(PrunedGrant(loss)("grant", status.grant.value)),
      Kept("state", loss.status, status.state, ""),
      Kept("frozen", loss.status, status.frozen, ""),
      Kept("lease_until_ns", loss.status, status.leaseUntilNs, "0"),
      Kept("reserve_yocto", loss.status, status.reserveYocto, "0"))
  }

  lemma {:induction false} PrunedLookup(entries: seq<Entry>, lost: set<string>, f: (string, Value) -> Value, k: string)
    ensures Lookup(Pruned(entries, lost, f), k)
         == if k in lost || Lookup(entries, k).None? then None else Some(f(k, Lookup(entries, k).value))
    ensures Occurrences(Pruned(entries, lost, f), k) == if k in lost then 0 else Occurrences(entries, k)
  {
    if entries != [] {
      PrunedLookup(entries[1..], lost, f, k);
      var rest := Pruned(entries[1..], lost, f);
      if entries[0].key in lost {
        assert Pruned(entries, lost, f) == rest;
      } else {
        assert Pruned(entries, lost, f)[1..] == rest;
      }
    }
  }

  /** Field by field, an object that lost names. */
  lemma PrunedFields(entries: seq<Entry>, lost: set<string>, f: (string, Value) -> Value, fields: seq<string>)
    requires StructShape(Obj(entries), fields)
    ensures StructShape(Obj(Pruned(entries, lost, f)), fields)
    ensures forall i :: 0 <= i < |fields| ==>
      Field(Obj(Pruned(entries, lost, f)), fields, i)
      == if fields[i] in lost || Field(Obj(entries), fields, i).None? then None
         else Some(f(fields[i], Field(Obj(entries), fields, i).value))
  {
    hide Lookup, Occurrences, Pruned;
    forall i | 0 <= i < |fields|
      ensures Lookup(Pruned(entries, lost, f), fields[i])
           == if fields[i] in lost || Lookup(entries, fields[i]).None? then None
              else Some(f(fields[i], Lookup(entries, fields[i]).value))
      ensures Occurrences(Pruned(entries, lost, f), fields[i]) <= Occurrences(entries, fields[i])
    {
      PrunedLookup(entries, lost, f, fields[i]);
    }
  }

  lemma BudgetReads(token: string, v: Value, loss: Loss)
    requires v.Obj? && ReadBudget(v).Some?
    ensures ReadBudget(PrunedBudget(loss)(token, v)) == Some(BudgetDefaulted(ReadBudget(v).value, loss.Of(token)))
  {
    hide Pruned, StructShape, Field;
    PrunedFields(v.entries, loss.Of(token), AsIs(), BUDGET_FIELDS);
  }

  lemma {:induction false} PrunedSnoc(entries: seq<Entry>, last: Entry, f: (string, Value) -> Value)
    ensures Pruned(entries + [last], {}, f) == Pruned(entries, {}, f) + [Entry(last.key, f(last.key, last.value))]
  {
    if entries == [] {
      assert ([] + [last])[1..] == [];
    } else {
      PrunedSnoc(entries[1..], last, f);
      assert (entries + [last])[1..] == entries[1..] + [last];
    }
  }

  lemma {:induction false} BudgetsRead(entries: seq<Entry>, loss: Loss)
    requires ReadBudgets(entries).Some? && forall e :: e in entries ==> e.value.Obj?
    ensures
      var read := ReadBudgets(entries).value;
      ReadBudgets(Pruned(entries, {}, PrunedBudget(loss)))
      == Some(map t | t in read :: BudgetDefaulted(read[t], loss.Of(t)))
  {
    hide ReadBudget, BudgetDefaulted, PrunedBudget, Pruned, Loss.Of;
    if entries == [] {
      NothingPruned(PrunedBudget(loss));
    } else {
      var init, last := entries[..|entries| - 1], entries[|entries| - 1];
      assert entries == init + [last];
      assert last in entries;
      assert forall e :: e in init ==> e in entries;
      BudgetsRead(init, loss);
      BudgetReads(last.key, last.value, loss);
      PrunedSnoc(init, last, PrunedBudget(loss));
      var pruned := Pruned(entries, {}, PrunedBudget(loss));
      assert pruned[..|pruned| - 1] == Pruned(init, {}, PrunedBudget(loss));
      var before, read := ReadBudgets(init).value, ReadBudgets(entries).value;
      assert read == before[last.key := ReadBudget(last.value).value];
      assert (map t | t in read :: BudgetDefaulted(read[t], loss.Of(t)))
          == (map t | t in before :: BudgetDefaulted(before[t], loss.Of(t)))
             [last.key := BudgetDefaulted(ReadBudget(last.value).value, loss.Of(last.key))];
    }
  }

  lemma NothingPruned(f: (string, Value) -> Value)
    ensures Pruned([], {}, f) == []
  {
  }

  lemma TokensRead(v: Value, loss: Loss)
    requires ReadTokens(Some(v)).Some? && (v.Obj? ==> forall e :: e in v.entries ==> e.value.Obj?)
    ensures
      var read := ReadTokens(Some(v)).value;
      ReadTokens(Some(PrunedTokens(loss)(GRANT_FIELDS[3], v))) == Some(map t | t in read :: BudgetDefaulted(read[t], loss.Of(t)))
  {
    hide ReadBudgets, Pruned, BudgetDefaulted, PrunedBudget;
    BudgetsRead(v.entries, loss);
  }

  lemma FieldNamesDiffer()
    ensures forall i :: 0 <= i < 6 && i != 3 ==> GRANT_FIELDS[i] != GRANT_FIELDS[3]
    ensures forall i :: 0 <= i < 7 && i != 1 ==> STATUS_FIELDS[i] != STATUS_FIELDS[1]
  {
  }

  /** A grant that lost names reads as that grant with the defaults in their place. */
  lemma LostGrantReads(v: Value, loss: Loss)
    requires ByName(v) && ReadGrant(v).Some?
    ensures ReadGrant(PrunedGrant(loss)(STATUS_FIELDS[1], v)) == Some(Defaulted(ReadGrant(v).value, loss))
  {
    hide Pruned, StructShape, ReadStringList, ReadString, ReadTokens, ReadItems, BudgetDefaulted, PrunedTokens, Loss.Of;
    PrunedFields(v.entries, loss.grant, PrunedTokens(loss), GRANT_FIELDS);
    FieldNamesDiffer();
    OtherFieldsKept(loss);
    AbsentReads();
    var tokens := Field(v, GRANT_FIELDS, 3);
    if tokens.Some? {
      TokensRead(tokens.value, loss);
    }
  }

  lemma OtherFieldsKept(loss: Loss)
    ensures forall k, x :: k != GRANT_FIELDS[3] ==> PrunedTokens(loss)(k, x) == x
    ensures forall k, x :: k != STATUS_FIELDS[1] ==> PrunedGrant(loss)(k, x) == x
  {
  }

  lemma AbsentReads()
    ensures ReadStringList(None) == Some([]) && ReadString(None, "0") == Some("0") && ReadString(None, "") == Some("")
    ensures ReadTokens(None) == Some(map[]) && ReadItems(None) == Some(map[])
  {
  }

  /** A status document that lost names, at any depth, reads as that status with the defaults
      in their place. */
  lemma LostStatusReads(entries: seq<Entry>, loss: Loss)
    requires ReadStatus(Obj(entries)).Some?
    ensures ReadStatus(Obj(Shrunken(entries, loss))) == Some(StatusDefaulted(ReadStatus(Obj(entries)).value, loss))
  {
    hide Pruned, StructShape, ReadString, ReadFlag, ReadsAsVersion, PrunedGrant;
    PrunedFields(entries, loss.status, PrunedGrant(loss), STATUS_FIELDS);
    FieldNamesDiffer();
    OtherFieldsKept(loss);
    AbsentReads();
    AbsentStatusReads();
    NullKept(loss);
  }

  lemma AbsentStatusReads()
    ensures ReadFlag(None) == Some(false) && ReadsAsVersion(None)
  {
  }

  lemma NullKept(loss: Loss)
    ensures forall v :: PrunedGrant(loss)(STATUS_FIELDS[1], v) == Null <==> v == Null
  {
  }

  // ---------------------------------------------------------------------------
  // Identity: what is lost fails verification
  // ---------------------------------------------------------------------------

  const IDENTITY: set<string> := {"extension_enabled", "state", "frozen", "lease_until_ns"}

  lemma ZeroReads()
    ensures ParseU128("0") == Some(0) && ParseU64("0") == Some(0)
  {
  }

  /** A status that lost names is admitted exactly when the whole one is and none of the lost
      names is about identity. */
  lemma LostIdentityExactly(status: AgentStatusView, loss: Loss, nowNs: u64)
    ensures VerifyLease(StatusDefaulted(status, loss), nowNs).Ok?
       <==> VerifyLease(status, nowNs).Ok? && loss.status !! IDENTITY
  {
    hide VerifyLease, ParseU64, PrunedGrant;
    ZeroReads();
    AdmittedExactly(HosLease, LeaseEvidence(status), nowNs);
    AdmittedExactly(HosLease, LeaseEvidence(StatusDefaulted(status, loss)), nowNs);
    assert "" != "Unfrozen" && "" != "Active";
    assert loss.status !! IDENTITY <==>
      && "extension_enabled" !in loss.status && "state" !in loss.status
      && "frozen" !in loss.status && "lease_until_ns" !in loss.status;
  }

  // ---------------------------------------------------------------------------
  // Spend: when a shrunken answer only refuses more
  // ---------------------------------------------------------------------------

  /** The loss forgets no meter that could be read: nobody can be paid, or each meter that is
      lost had nothing on it, or its budget is lost with it. */
  predicate Harmless(g: SpendGrant, own: Option<string>, loss: Loss) {
    || g.receivers == [] || "receivers" in loss.grant
    || (&& ("spent_yocto" in loss.grant && "budget_yocto" !in loss.grant ==> Remaining(g) == ParseOr(g.budgetYocto, 0))
        && ("tokens" !in loss.grant ==>
              forall t :: t in g.tokens && own != Some(t) && "spent" in loss.Of(t) && "budget" !in loss.Of(t) ==>
                TokenRemaining(g.tokens[t]) == ParseOr(g.tokens[t].budget, 0)))
  }

  lemma LossLeaves(g: SpendGrant, loss: Loss)
    ensures
      Remaining(Defaulted(g, loss))
      == if "budget_yocto" in loss.grant then 0
         else if "spent_yocto" in loss.grant then ParseOr(g.budgetYocto, 0) else Remaining(g)
    ensures forall t :: t in g.tokens ==>
      TokenRemaining(BudgetDefaulted(g.tokens[t], loss.Of(t)))
      == if "budget" in loss.Of(t) then 0
         else if "spent" in loss.Of(t) then ParseOr(g.tokens[t].budget, 0) else TokenRemaining(g.tokens[t])
    ensures Remaining(g) <= ParseOr(g.budgetYocto, 0)
    ensures forall t :: t in g.tokens ==> TokenRemaining(g.tokens[t]) <= ParseOr(g.tokens[t].budget, 0)
  {
    hide ParseU128, Loss.Of;
    ZeroReads();
  }

  lemma HarmlessExactly(g: SpendGrant, own: Option<string>, loss: Loss)
    ensures Within(Defaulted(g, loss), g, own) <==> Harmless(g, own, loss)
  {
    hide Remaining, TokenRemaining, BudgetDefaulted, ParseOr, Loss.Of, Kept;
    LossLeaves(g, loss);
    var h := Defaulted(g, loss);
    assert forall t :: t in h.tokens ==> t in g.tokens && h.tokens[t] == BudgetDefaulted(g.tokens[t], loss.Of(t));
    if "tokens" !in loss.grant {
      assert forall t :: t in g.tokens ==> t in h.tokens;
    }
  }

  /** What a request with an open door must get past. */
  lemma NothingReported(status: AgentStatusView, nowNs: u64, own: Option<string>, balance: Option<u128>, req: Request,
                        size: nat)
    requires DoorRefusal(status, nowNs).None?
    ensures
      var g := ReadGrant(status.grant.value).value;
      var fx := EffectsOf(req, size);
      Preflight(status, nowNs, own, balance, fx) == [] <==>
        && Collected(g, own, fx) == []
        && (balance.Some? ==> CheckReserve(fx, status, balance.value).None?)
  {
    hide EffectsOf, ReadGrant, GrantedViolations, OwnCollectionOf, CheckReserve, StableSort, Preflight;
    OpenDoorVerdict(status, nowNs, own, balance, req, size);
    var g, fx := ReadGrant(status.grant.value).value, EffectsOf(req, size);
    var reserve := if balance.Some? then CheckReserve(fx, status, balance.value) else None;
    var all := Assembled(HosLease, fx, GrantedViolations(fx, g), own, reserve);
    StableSortIsStable(all);
    assert |multiset(StableSort(all))| == |multiset(all)|;
  }

  predicate Passes(status: AgentStatusView, nowNs: u64, own: Option<string>, balance: Option<u128>, req: Request,
                   size: nat)
  {
    Preflight(status, nowNs, own, balance, EffectsOf(req, size)) == []
  }

  /** A readable grant is spelled by name. */
  predicate GrantByName(status: AgentStatusView) {
    status.grant.Some? && ReadGrant(status.grant.value).Some? ==> ByName(status.grant.value)
  }

  /** What losing names does to the door: only a grant that did not read can open by it. */
  lemma ShrunkenDoor(status: AgentStatusView, loss: Loss, nowNs: u64)
    requires GrantByName(status)
    requires DoorRefusal(StatusDefaulted(status, loss), nowNs).None? && DoorRefusal(status, nowNs) != Some(GrantUnreadable)
    ensures DoorRefusal(status, nowNs).None?
    ensures ReadGrant(StatusDefaulted(status, loss).grant.value)
         == Some(Defaulted(ReadGrant(status.grant.value).value, loss))
  {
    hide ReadGrant, PrunedGrant, ByName, BudgetDefaulted, ParseU64;
    ZeroReads();
    LostGrantReads(status.grant.value, loss);
  }

  /** Nothing that was lost could have refused: the door is open with the whole grant as well,
      and no readable meter is forgotten. */
  predicate GrantKept(status: AgentStatusView, nowNs: u64, own: Option<string>, loss: Loss) {
    DoorRefusal(status, nowNs).None? && Harmless(ReadGrant(status.grant.value).value, own, loss)
  }

  /** The floor did arrive, or there is none. */
  predicate FloorKept(status: AgentStatusView, loss: Loss) {
    "reserve_yocto" in loss.status ==> ParseOr(status.reserveYocto, U128_MAX) == 0
  }

  lemma EmptyCollects(g: SpendGrant, own: Option<string>, size: nat)
    ensures Collected(g, own, EffectsOf(Request([], []), size)) == []
  {
    hide EffectsOf, Collected, PromiseRefusal;
    var req := Request([], []);
    if Collected(g, own, EffectsOf(req, size)) != [] {
      CollectedExactly(g, own, req, size, Collected(g, own, EffectsOf(req, size))[0]);
    }
  }

  /** What the floor says under the shrunken status and under the whole one. */
  lemma FloorsAre(status: AgentStatusView, loss: Loss, req: Request, size: nat, balance: u128)
    ensures
      var floor := ParseOr(status.reserveYocto, U128_MAX);
      var spend := RequestNative(req.external, |req.external|);
      && (CheckReserve(EffectsOf(req, size), status, balance).None? <==> floor == 0 || spend + floor <= balance)
      && (CheckReserve(EffectsOf(req, size), StatusDefaulted(status, loss), balance).None?
          <==> "reserve_yocto" in loss.status || floor == 0 || spend + floor <= balance)
  {
    hide EffectsOf, CheckReserve, RequestNative, ParseU128, PrunedGrant;
    ZeroReads();
    ReserveIsExact(req, size, status, balance);
    ReserveIsExact(req, size, StatusDefaulted(status, loss), balance);
  }

  /** For one request and one balance, with no meter forgotten: what passes under the shrunken
      status passes under the whole one exactly when the balance is unknown, the floor did
      arrive or is none, or the balance covers the spend and the floor. */
  lemma LostFloorExactly(status: AgentStatusView, loss: Loss, nowNs: u64, own: Option<string>, balance: Option<u128>,
                         req: Request, size: nat)
    requires GrantByName(status) && GrantKept(status, nowNs, own, loss)
    requires Passes(StatusDefaulted(status, loss), nowNs, own, balance, req, size)
    ensures Passes(status, nowNs, own, balance, req, size) <==>
      || balance.None? || FloorKept(status, loss)
      || RequestNative(req.external, |req.external|) + ParseOr(status.reserveYocto, U128_MAX) <= balance.value
  {
    hide EffectsOf, Preflight, ReadGrant, StatusDefaulted, Collected, CheckReserve, RequestNative, Harmless, Within, Defaulted,
         ParseOr, GrantByName;
    var lost := StatusDefaulted(status, loss);
    if DoorRefusal(lost, nowNs).Some? {
      ClosedDoorAgrees(lost, nowNs, own, balance, req, size);
    }
    ShrunkenDoor(status, loss, nowNs);
    var g := ReadGrant(status.grant.value).value;
    HarmlessExactly(g, own, loss);
    NothingReported(lost, nowNs, own, balance, req, size);
    NothingReported(status, nowNs, own, balance, req, size);
    WithinRefusesMore(Defaulted(g, loss), g, own, req, size);
    if balance.Some? {
      FloorsAre(status, loss, req, size, balance.value);
    }
  }

  /** The failing inputs: a request that passes under the shrunken status and not under the
      whole one, with an unknown balance or, for a lost floor, with none at all. */
  lemma ShrunkenPermitsMore(status: AgentStatusView, loss: Loss, nowNs: u64, own: Option<string>, size: nat)
    returns (req: Request, balance: Option<u128>)
    requires GrantByName(status) && DoorRefusal(StatusDefaulted(status, loss), nowNs).None?
    requires !(GrantKept(status, nowNs, own, loss) && FloorKept(status, loss))
    ensures !GrantKept(status, nowNs, own, loss) ==> balance.None?
    ensures |req.external| <= 1
    ensures Passes(StatusDefaulted(status, loss), nowNs, own, balance, req, size)
    ensures !Passes(status, nowNs, own, balance, req, size)
  {
    hide EffectsOf, Preflight, ReadGrant, StatusDefaulted, Collected, CheckReserve, Harmless, Within, Defaulted,
         ParseOr, GrantByName;
    var lost := StatusDefaulted(status, loss);
    req, balance := Request([], []), None;
    if DoorRefusal(status, nowNs).Some? {
      ClosedDoorAgrees(status, nowNs, own, balance, req, size);
      EmptyCollects(ReadGrant(lost.grant.value).value, own, size);
      NothingReported(lost, nowNs, own, balance, req, size);
    } else {
      ShrunkenDoor(status, loss, nowNs);
      var g := ReadGrant(status.grant.value).value;
      var h := Defaulted(g, loss);
      if Harmless(g, own, loss) {
        balance := Some(0);
        EmptyCollects(h, own, size);
        FloorsAre(status, loss, req, size, 0);
      } else {
        HarmlessExactly(g, own, loss);
        var p := Separates(h, g, own);
        req := Request([], [p]);
        OnePromise(h, own, p, size);
        OnePromise(g, own, p, size);
      }
      NothingReported(lost, nowNs, own, balance, req, size);
      NothingReported(status, nowNs, own, balance, req, size);
    }
  }

  /** A shrunken answer can only refuse more, whatever names it lost at whatever depth: with
      the balance unknown exactly when the door is closed by the loss or nothing the grant
      lost could have refused; over every balance exactly when the floor is kept as well. */
  lemma ShrunkenExactly(status: AgentStatusView, loss: Loss, nowNs: u64, own: Option<string>, size: nat)
    requires GrantByName(status)
    ensures
      (forall req: Request :: Passes(StatusDefaulted(status, loss), nowNs, own, None, req, size) ==>
         Passes(status, nowNs, own, None, req, size))
      <==> DoorRefusal(StatusDefaulted(status, loss), nowNs).Some? || GrantKept(status, nowNs, own, loss)
    ensures
      (forall req: Request, balance: Option<u128> ::
         Passes(StatusDefaulted(status, loss), nowNs, own, balance, req, size) ==>
           Passes(status, nowNs, own, balance, req, size))
      <==> || DoorRefusal(StatusDefaulted(status, loss), nowNs).Some?
           || (GrantKept(status, nowNs, own, loss) && FloorKept(status, loss))
  {
    hide EffectsOf, ReadGrant, StatusDefaulted, DoorRefusal, Passes, GrantKept, FloorKept, GrantByName;
    var lost := StatusDefaulted(status, loss);
    var closed, grant, floor :=
      DoorRefusal(lost, nowNs).Some?, GrantKept(status, nowNs, own, loss), FloorKept(status, loss);
    forall req: Request, balance: Option<u128>
      | Passes(lost, nowNs, own, balance, req, size) && (closed || (grant && (floor || balance.None?)))
      ensures Passes(status, nowNs, own, balance, req, size)
    {
      if closed {
        ClosedNeverPasses(lost, nowNs, own, balance, req, size);
      } else {
        LostFloorExactly(status, loss, nowNs, own, balance, req, size);
      }
    }
    if !closed && !(grant && floor) {
      var req, balance := ShrunkenPermitsMore(status, loss, nowNs, own, size);
      assert Passes(lost, nowNs, own, balance, req, size) && !Passes(status, nowNs, own, balance, req, size);
    }
  }

  lemma ClosedNeverPasses(status: AgentStatusView, nowNs: u64, own: Option<string>, balance: Option<u128>, req: Request,
                          size: nat)
    requires DoorRefusal(status, nowNs).Some?
    ensures !Passes(status, nowNs, own, balance, req, size)
  {
    hide EffectsOf, Preflight, ReadGrant;
    ClosedDoorAgrees(status, nowNs, own, balance, req, size);
  }
}
