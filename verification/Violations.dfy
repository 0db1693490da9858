/** Profile refusals and the order a list of them is reported in. */
module Violations {
  import opened Common

  /** Where a rule sits in the contract's pass over the request. */
  datatype Stage = Door | Promise(rung: nat) | Reserve

  datatype Rule =
    | EvidenceMismatch
    | GrantMissing
    | GrantUnreadable
    | GrantExpired
    | GrantShape
    | GrantExhausted
    | ReceiverNotGranted
    | TokenNotGranted
    | TokenBudgetExceeded
    | CollectionNotGranted
    | ItemNotGranted
    | OwnCollectionRefused
    | InsufficientVsReserve

  datatype Subcode =
    | RefundTargetNotAllowed
    | CallMustStandAlone
    | CallDeposit
    | ApprovalNotAllowed
    | ArgsUnreadable
    | MethodNotAllowed
    | ActionNotAllowed

  /** The class an API answers with. */
  datatype Class = Class(rule: Rule, subcode: Option<Subcode>)

  datatype Violation = Violation(promiseIndex: Option<nat>, stage: Stage, class_: Class)
  {
    predicate AnswersAlone() {
      stage.Door?
    }
  }

  /** The largest `usize` and `u8` of the target. */
  const USIZE_MAX: nat := 0xFFFF_FFFF_FFFF_FFFF
  const U8_MAX: nat := 0xFF

  /** No list in memory is longer than this. */
  const ISIZE_MAX: nat := 0x7FFF_FFFF_FFFF_FFFF

  function OrderKey(v: Violation): (nat, nat) {
    match v.stage
    case Door => (0, 0)
    case Promise(rung) => (if v.promiseIndex.Some? then v.promiseIndex.value + 1 else USIZE_MAX, rung)
    case Reserve => (USIZE_MAX, U8_MAX)
  }

  predicate KeyLess(a: (nat, nat), b: (nat, nat)) {
    a.0 < b.0 || (a.0 == b.0 && a.1 < b.1)
  }

  predicate Sorted(vs: seq<Violation>) {
    forall i, j :: 0 <= i < j < |vs| ==> !KeyLess(OrderKey(vs[j]), OrderKey(vs[i]))
  }

  /** Put `v` behind everything whose key is not larger. */
  function Insert(vs: seq<Violation>, v: Violation): seq<Violation> {
    if vs == [] || !KeyLess(OrderKey(v), OrderKey(vs[|vs| - 1])) then vs + [v]
    else Insert(vs[..|vs| - 1], v) + [vs[|vs| - 1]]
  }

  /** `sort_by_key(order_key)`: stable. */
  function StableSort(vs: seq<Violation>): seq<Violation> {
    if vs == [] then [] else Insert(StableSort(vs[..|vs| - 1]), vs[|vs| - 1])
  }

  /** The violations of `vs` that sort at `key`, in order. */
  function AtKey(vs: seq<Violation>, key: (nat, nat)): seq<Violation> {
    if vs == [] then []
    else AtKey(vs[..|vs| - 1], key) + (if OrderKey(vs[|vs| - 1]) == key then [vs[|vs| - 1]] else [])
  }

  lemma AtKeySnoc(vs: seq<Violation>, v: Violation, key: (nat, nat))
    ensures AtKey(vs + [v], key) == AtKey(vs, key) + (if OrderKey(v) == key then [v] else [])
  {
  }

  lemma {:induction false} InsertMembers(vs: seq<Violation>, v: Violation)
    ensures multiset(Insert(vs, v)) == multiset(vs) + multiset{v}
  {
    if vs == [] || !KeyLess(OrderKey(v), OrderKey(vs[|vs| - 1])) {
    } else {
      InsertMembers(vs[..|vs| - 1], v);
      assert vs == vs[..|vs| - 1] + [vs[|vs| - 1]];
    }
  }

  lemma {:induction false} InsertSorts(vs: seq<Violation>, v: Violation)
    requires Sorted(vs)
    ensures Sorted(Insert(vs, v))
  {
    if vs == [] || !KeyLess(OrderKey(v), OrderKey(vs[|vs| - 1])) {
    } else {
      var init, last := vs[..|vs| - 1], vs[|vs| - 1];
      InsertSorts(init, v);
      InsertMembers(init, v);
      forall i | 0 <= i < |Insert(init, v)|
        ensures !KeyLess(OrderKey(last), OrderKey(Insert(init, v)[i]))
      {
        assert Insert(init, v)[i] in multiset(init) + multiset{v};
        assert Insert(init, v)[i] in init || Insert(init, v)[i] == v;
      }
    }
  }

  lemma {:induction false} InsertKeepsTies(vs: seq<Violation>, v: Violation, key: (nat, nat))
    requires Sorted(vs)
    ensures AtKey(Insert(vs, v), key) == AtKey(vs, key) + (if OrderKey(v) == key then [v] else [])
  {
    if vs == [] || !KeyLess(OrderKey(v), OrderKey(vs[|vs| - 1])) {
      AtKeySnoc(vs, v, key);
    } else {
      var init, last := vs[..|vs| - 1], vs[|vs| - 1];
      InsertKeepsTies(init, v, key);
      AtKeySnoc(Insert(init, v), last, key);
    }
  }

  /** The sort orders by key, loses and invents nothing, and keeps the order in which
      violations of the same key were emitted. */
  lemma {:induction false} StableSortIsStable(vs: seq<Violation>)
    ensures Sorted(StableSort(vs))
    ensures multiset(StableSort(vs)) == multiset(vs)
    ensures forall key :: AtKey(StableSort(vs), key) == AtKey(vs, key)
  {
    if vs != [] {
      var init, last := vs[..|vs| - 1], vs[|vs| - 1];
      StableSortIsStable(init);
      InsertSorts(StableSort(init), last);
      InsertMembers(StableSort(init), last);
      assert vs == init + [last];
      forall key
        ensures AtKey(StableSort(vs), key) == AtKey(vs, key)
      {
        InsertKeepsTies(StableSort(init), last, key);
      }
    }
  }

  /** Head of the sorted list: a violation of the list, none of which sorts before it. */
  lemma FirstReported(vs: seq<Violation>)
    requires vs != []
    ensures StableSort(vs) != []
    ensures StableSort(vs)[0] in vs
    ensures forall v :: v in vs ==> !KeyLess(OrderKey(v), OrderKey(StableSort(vs)[0]))
  {
    StableSortIsStable(vs);
    var sorted := StableSort(vs);
    assert |multiset(sorted)| == |multiset(vs)|;
    assert sorted[0] in multiset(sorted);
    forall v | v in vs
      ensures !KeyLess(OrderKey(v), OrderKey(sorted[0]))
    {
      assert v in multiset(sorted);
      var i :| 0 <= i < |sorted| && sorted[i] == v;
    }
  }
}
