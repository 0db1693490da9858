/** The canonical form a request hash is taken of: every object's keys sorted, at every
    depth. */
module Canonical {
  import opened Common
  import opened Json

  // ---------------------------------------------------------------------------
  // Key order
  // ---------------------------------------------------------------------------

  /** Lexicographic order by code point, which is the byte order of UTF-8. */
  predicate KeyLess(a: string, b: string) {
    if b == "" then false
    else if a == "" then true
    else a[0] < b[0] || (a[0] == b[0] && KeyLess(a[1..], b[1..]))
  }

  lemma {:induction false} KeyLessTotal(a: string, b: string)
    ensures a == b || KeyLess(a, b) || KeyLess(b, a)
    ensures KeyLess(a, b) ==> !KeyLess(b, a) && a != b
  {
    if a != "" && b != "" {
      KeyLessTotal(a[1..], b[1..]);
      assert a == [a[0]] + a[1..] && b == [b[0]] + b[1..];
    }
  }

  lemma {:induction false} KeyLessTransitive(a: string, b: string, c: string)
    requires KeyLess(a, b) && KeyLess(b, c)
    ensures KeyLess(a, c)
  {
    if a != "" && a[0] == b[0] && b[0] == c[0] {
      KeyLessTransitive(a[1..], b[1..], c[1..]);
    }
  }

  // ---------------------------------------------------------------------------
  // Sorting entries
  // ---------------------------------------------------------------------------

  predicate SortedKeys(entries: seq<Entry>) {
    forall i, j :: 0 <= i < j < |entries| ==> KeyLess(entries[i].key, entries[j].key)
  }

  function Insert(entries: seq<Entry>, e: Entry): seq<Entry> {
    if entries == [] || KeyLess(e.key, entries[0].key) then [e] + entries
    else [entries[0]] + Insert(entries[1..], e)
  }

  function SortEntries(entries: seq<Entry>): seq<Entry> {
    if entries == [] then [] else Insert(SortEntries(entries[1..]), entries[0])
  }

  lemma {:induction false} InsertMembers(entries: seq<Entry>, e: Entry)
    ensures |Insert(entries, e)| == |entries| + 1
    ensures forall x :: x in Insert(entries, e) <==> x == e || x in entries
  {
    hide KeyLess;
    if !(entries == [] || KeyLess(e.key, entries[0].key)) {
      InsertMembers(entries[1..], e);
      assert entries == [entries[0]] + entries[1..];
    }
  }

  lemma {:induction false} InsertSorts(entries: seq<Entry>, e: Entry)
    requires SortedKeys(entries)
    requires forall x :: x in entries ==> x.key != e.key
    ensures SortedKeys(Insert(entries, e))
  {
    hide KeyLess;
    if entries == [] {
    } else if KeyLess(e.key, entries[0].key) {
      forall j | 0 < j < |entries|
        ensures KeyLess(e.key, entries[j].key)
      {
        KeyLessTransitive(e.key, entries[0].key, entries[j].key);
      }
    } else {
      assert entries[0] in entries;
      assert forall x :: x in entries[1..] ==> x in entries;
      InsertSorts(entries[1..], e);
      InsertMembers(entries[1..], e);
      KeyLessTotal(e.key, entries[0].key);
      var tail := Insert(entries[1..], e);
      forall j | 0 <= j < |tail|
        ensures KeyLess(entries[0].key, tail[j].key)
      {
        assert tail[j] in tail;
      }
    }
  }

  lemma {:induction false} SortsEntries(entries: seq<Entry>)
    requires DistinctKeys(entries)
    ensures SortedKeys(SortEntries(entries))
    ensures |SortEntries(entries)| == |entries|
    ensures forall x :: x in SortEntries(entries) <==> x in entries
  {
    hide KeyLess;
    if entries != [] {
      var rest := entries[1..];
      SortsEntries(rest);
      forall x | x in SortEntries(rest)
        ensures x.key != entries[0].key
      {
        var i :| 0 <= i < |rest| && rest[i] == x;
        assert rest[i] == entries[i + 1];
      }
      InsertSorts(SortEntries(rest), entries[0]);
      InsertMembers(SortEntries(rest), entries[0]);
      assert entries == [entries[0]] + rest;
    }
  }

  /** There is one way to write a set of entries in key order. */
  lemma {:induction false} OneSortedForm(a: seq<Entry>, b: seq<Entry>)
    requires SortedKeys(a) && SortedKeys(b)
    requires forall x :: x in a <==> x in b
    ensures a == b
  {
    hide KeyLess;
    assert b != [] ==> b[0] in b;
    if a != [] {
      assert a[0] in a;
      assert a[0] in b;
      assert b != [];
      assert b[0] in b;
      assert b[0] in a;
      SortedHead(a, b[0]);
      SortedHead(b, a[0]);
      KeyLessTotal(a[0].key, b[0].key);
      assert a[0] == b[0];
      forall x
        ensures x in a[1..] <==> x in b[1..]
      {
        TailMembers(a, x);
        TailMembers(b, x);
      }
      OneSortedForm(a[1..], b[1..]);
      assert a == [a[0]] + a[1..] && b == [b[0]] + b[1..];
    }
  }

  lemma SortedHead(a: seq<Entry>, x: Entry)
    requires SortedKeys(a) && x in a
    ensures x == a[0] || KeyLess(a[0].key, x.key)
  {
  }

  lemma TailMembers(a: seq<Entry>, x: Entry)
    requires SortedKeys(a) && a != []
    ensures x in a[1..] <==> x in a && x != a[0]
  {
    hide KeyLess;
    if x in a[1..] {
      var i :| 0 <= i < |a[1..]| && a[1..][i] == x;
      assert a[i + 1] == x;
      KeyLessTotal(a[0].key, x.key);
    }
    if x in a && x != a[0] {
      var i :| 0 <= i < |a| && a[i] == x;
      assert a[1..][i - 1] == x;
    }
  }

  // ---------------------------------------------------------------------------
  // The canonical form
  // ---------------------------------------------------------------------------

  /** No object at any depth repeats a key. */
  predicate WellFormed(v: Value) {
    match v
    case Arr(items) => forall i :: 0 <= i < |items| ==> WellFormed(items[i])
    case Obj(entries) => DistinctKeys(entries) && forall i :: 0 <= i < |entries| ==> WellFormed(entries[i].value)
    case _ => true
  }

  function CanonicalEntries(entries: seq<Entry>): seq<Entry>
    decreases entries
  {
    if entries == [] then []
    else [Entry(entries[0].key, Canonicalize(entries[0].value))] + CanonicalEntries(entries[1..])
  }

  function CanonicalItems(items: seq<Value>): seq<Value>
    decreases items
  {
    if items == [] then [] else [Canonicalize(items[0])] + CanonicalItems(items[1..])
  }

  function Canonicalize(v: Value): Value
    decreases v
  {
    match v
    case Obj(entries) => Obj(SortEntries(CanonicalEntries(entries)))
    case Arr(items) => Arr(CanonicalItems(items))
    case _ => v
  }

  lemma {:induction false} ItemsAre(items: seq<Value>)
    ensures |CanonicalItems(items)| == |items|
    ensures forall i :: 0 <= i < |items| ==> CanonicalItems(items)[i] == Canonicalize(items[i])
    decreases items
  {
    hide Canonicalize;
    if items != [] {
      ItemsAre(items[1..]);
    }
  }

  lemma {:induction false} EntriesAre(entries: seq<Entry>)
    ensures |CanonicalEntries(entries)| == |entries|
    ensures forall i :: 0 <= i < |entries| ==>
      CanonicalEntries(entries)[i] == Entry(entries[i].key, Canonicalize(entries[i].value))
    decreases entries
  {
    hide Canonicalize;
    if entries != [] {
      EntriesAre(entries[1..]);
    }
  }

  predicate HasKey(entries: seq<Entry>, key: string) {
    exists i :: 0 <= i < |entries| && entries[i].key == key
  }

  /** The value an object holds under a key. */
  function At(entries: seq<Entry>, key: string): Value
    requires HasKey(entries, key)
  {
    if entries[0].key == key then entries[0].value
    else
      assert HasKey(entries[1..], key) by {
        var i :| 0 <= i < |entries| && entries[i].key == key;
        assert entries[1..][i - 1] == entries[i];
      }
      At(entries[1..], key)
  }

  lemma {:induction false} AtIndex(entries: seq<Entry>, key: string) returns (i: nat)
    requires HasKey(entries, key)
    ensures i < |entries| && entries[i].key == key && entries[i].value == At(entries, key)
  {
    if entries[0].key == key {
      i := 0;
    } else {
      assert HasKey(entries[1..], key) by {
        var k :| 0 <= k < |entries| && entries[k].key == key;
        assert entries[1..][k - 1] == entries[k];
      }
      i := AtIndex(entries[1..], key);
      i := i + 1;
    }
  }

  lemma AtIs(entries: seq<Entry>, i: nat)
    requires DistinctKeys(entries) && i < |entries|
    ensures HasKey(entries, entries[i].key) && At(entries, entries[i].key) == entries[i].value
  {
    hide At;
    var j := AtIndex(entries, entries[i].key);
  }

  /** Equal up to the order of keys, at every depth: objects as unordered collections. */
  ghost predicate Equivalent(a: Value, b: Value)
    decreases a
  {
    match (a, b)
    case (Obj(x), Obj(y)) =>
      && (forall i :: 0 <= i < |x| ==> HasKey(y, x[i].key) && Equivalent(x[i].value, At(y, x[i].key)))
      && (forall j :: 0 <= j < |y| ==> HasKey(x, y[j].key))
    case (Arr(x), Arr(y)) => |x| == |y| && forall i :: 0 <= i < |x| ==> Equivalent(x[i], y[i])
    case _ => a == b
  }

  lemma CanonicalEntriesDistinct(entries: seq<Entry>)
    requires DistinctKeys(entries)
    ensures DistinctKeys(CanonicalEntries(entries))
  {
    hide Canonicalize;
    EntriesAre(entries);
  }

  /** Two objects hold the same canonical values under the same keys. */
  ghost predicate SameHoldings(x: seq<Entry>, y: seq<Entry>) {
    && (forall i :: 0 <= i < |x| ==> HasKey(y, x[i].key) && Canonicalize(x[i].value) == Canonicalize(At(y, x[i].key)))
    && (forall j :: 0 <= j < |y| ==> HasKey(x, y[j].key))
  }

  lemma HeldBy(x: seq<Entry>, y: seq<Entry>, e: Entry)
    requires SameHoldings(x, y) && e in CanonicalEntries(x)
    ensures e in CanonicalEntries(y)
  {
    hide Canonicalize, CanonicalEntries, At, HasKey;
    EntriesAre(x);
    EntriesAre(y);
    var i :| 0 <= i < |x| && CanonicalEntries(x)[i] == e;
    var j := AtIndex(y, x[i].key);
    assert CanonicalEntries(y)[j] == e;
  }

  lemma HoldingsAreSymmetric(x: seq<Entry>, y: seq<Entry>)
    requires DistinctKeys(y) && SameHoldings(x, y)
    ensures SameHoldings(y, x)
  {
    hide Canonicalize, At;
    forall j | 0 <= j < |y|
      ensures HasKey(x, y[j].key) && Canonicalize(y[j].value) == Canonicalize(At(x, y[j].key))
    {
      var i := AtIndex(x, y[j].key);
      AtIs(y, j);
    }
  }

  /** Objects with the same holdings sort to the same entries, and only they do. */
  lemma HoldingsDecide(x: seq<Entry>, y: seq<Entry>)
    requires DistinctKeys(x) && DistinctKeys(y)
    ensures SortEntries(CanonicalEntries(x)) == SortEntries(CanonicalEntries(y)) <==> SameHoldings(x, y)
  {
    hide Canonicalize, SortEntries, CanonicalEntries, SameHoldings, SortedKeys, DistinctKeys;
    var cx, cy := CanonicalEntries(x), CanonicalEntries(y);
    CanonicalEntriesDistinct(x);
    CanonicalEntriesDistinct(y);
    SortsEntries(cx);
    SortsEntries(cy);
    if SameHoldings(x, y) {
      HoldingsAreSymmetric(x, y);
      forall e
        ensures e in cx <==> e in cy
      {
        if e in cx {
          HeldBy(x, y, e);
        }
        if e in cy {
          HeldBy(y, x, e);
        }
      }
      OneSortedForm(SortEntries(cx), SortEntries(cy));
    }
    if SortEntries(cx) == SortEntries(cy) {
      SharedEntries(x, y);
    }
  }

  lemma SharedEntries(x: seq<Entry>, y: seq<Entry>)
    requires DistinctKeys(x) && DistinctKeys(y)
    requires forall e :: e in CanonicalEntries(x) <==> e in CanonicalEntries(y)
    ensures SameHoldings(x, y)
  {
    hide Canonicalize, CanonicalEntries, At;
    EntriesAre(x);
    EntriesAre(y);
    forall i | 0 <= i < |x|
      ensures HasKey(y, x[i].key) && Canonicalize(x[i].value) == Canonicalize(At(y, x[i].key))
    {
      assert CanonicalEntries(x)[i] in CanonicalEntries(x);
      var j :| 0 <= j < |y| && CanonicalEntries(y)[j] == CanonicalEntries(x)[i];
      AtIs(y, j);
    }
    forall j | 0 <= j < |y|
      ensures HasKey(x, y[j].key)
    {
      assert CanonicalEntries(y)[j] in CanonicalEntries(y);
      var i :| 0 <= i < |x| && CanonicalEntries(x)[i] == CanonicalEntries(y)[j];
    }
  }

  lemma WellFormedHolding(entries: seq<Entry>, key: string)
    requires HasKey(entries, key) && forall i :: 0 <= i < |entries| ==> WellFormed(entries[i].value)
    ensures WellFormed(At(entries, key))
  {
  }

  lemma EquivalentObjects(x: seq<Entry>, y: seq<Entry>)
    ensures Equivalent(Obj(x), Obj(y)) <==>
      && (forall i :: 0 <= i < |x| ==> HasKey(y, x[i].key) && Equivalent(x[i].value, At(y, x[i].key)))
      && (forall j :: 0 <= j < |y| ==> HasKey(x, y[j].key))
  {
  }

  lemma CanonicalObjects(x: seq<Entry>, y: seq<Entry>)
    requires DistinctKeys(x) && DistinctKeys(y)
    ensures Canonicalize(Obj(x)) == Canonicalize(Obj(y)) <==> SameHoldings(x, y)
  {
    hide SortEntries, CanonicalEntries, SameHoldings;
    HoldingsDecide(x, y);
  }

  lemma CanonicalArrays(x: seq<Value>, y: seq<Value>)
    ensures Canonicalize(Arr(x)) == Canonicalize(Arr(y))
       <==> |x| == |y| && forall i :: 0 <= i < |x| ==> Canonicalize(x[i]) == Canonicalize(y[i])
  {
    ItemsAre(x);
    ItemsAre(y);
    hide CanonicalItems;
    var cx, cy := CanonicalItems(x), CanonicalItems(y);
    if |x| == |y| && forall i :: 0 <= i < |x| ==> Canonicalize(x[i]) == Canonicalize(y[i]) {
      assert cx == cy;
    }
    if cx == cy {
      forall i | 0 <= i < |x|
        ensures Canonicalize(x[i]) == Canonicalize(y[i])
      {
        assert cx[i] == cy[i];
      }
    }
  }

  lemma KindsKept(a: Value, b: Value)
    requires !(a.Obj? && b.Obj?) && !(a.Arr? && b.Arr?)
    ensures Canonicalize(a) == Canonicalize(b) <==> a == b
    ensures Equivalent(a, b) <==> a == b
  {
  }

  /** The canonical form is a complete invariant: two values share it exactly when they are
      equal up to key order. */
  lemma {:induction false} CanonicalFormIsComplete(a: Value, b: Value)
    requires WellFormed(a) && WellFormed(b)
    ensures Canonicalize(a) == Canonicalize(b) <==> Equivalent(a, b)
    decreases a
  {
    if a.Obj? && b.Obj? {
      var x, y := a.entries, b.entries;
      CanonicalObjects(x, y);
      EquivalentObjects(x, y);
      hide Canonicalize, Equivalent, At, HasKey;
      forall i | 0 <= i < |x| && HasKey(y, x[i].key)
        ensures Canonicalize(x[i].value) == Canonicalize(At(y, x[i].key)) <==> Equivalent(x[i].value, At(y, x[i].key))
      {
        WellFormedHolding(y, x[i].key);
        CanonicalFormIsComplete(x[i].value, At(y, x[i].key));
      }
    } else if a.Arr? && b.Arr? {
      CanonicalArrays(a.items, b.items);
      if |a.items| == |b.items| {
        forall i | 0 <= i < |a.items|
          ensures Canonicalize(a.items[i]) == Canonicalize(b.items[i]) <==> Equivalent(a.items[i], b.items[i])
        {
          CanonicalFormIsComplete(a.items[i], b.items[i]);
        }
      }
      hide Canonicalize;
    } else {
      KindsKept(a, b);
    }
  }

  lemma SortedObjectIsSame(x: seq<Entry>)
    requires DistinctKeys(x)
    ensures
      var y := SortEntries(CanonicalEntries(x));
      && DistinctKeys(y)
      && (forall j :: 0 <= j < |y| ==> y[j] in CanonicalEntries(x))
      && (forall i :: 0 <= i < |x| ==> HasKey(y, x[i].key) && At(y, x[i].key) == Canonicalize(x[i].value))
      && (forall j :: 0 <= j < |y| ==> HasKey(x, y[j].key))
  {
    hide Canonicalize, SortEntries, CanonicalEntries, KeyLess, At;
    var c := CanonicalEntries(x);
    EntriesAre(x);
    CanonicalEntriesDistinct(x);
    SortsEntries(c);
    var y := SortEntries(c);
    forall i, j | 0 <= i < j < |y|
      ensures y[i].key != y[j].key
    {
      KeyLessTotal(y[i].key, y[j].key);
    }
    forall j | 0 <= j < |y|
      ensures y[j] in c && HasKey(x, y[j].key)
    {
      assert y[j] in y;
      var i :| 0 <= i < |c| && c[i] == y[j];
      assert x[i].key == y[j].key;
    }
    forall i | 0 <= i < |x|
      ensures HasKey(y, x[i].key) && At(y, x[i].key) == Canonicalize(x[i].value)
    {
      assert c[i] in y;
      var j :| 0 <= j < |y| && y[j] == c[i];
      AtIs(y, j);
    }
  }

  lemma CanonicalArray(x: seq<Value>)
    requires forall i :: 0 <= i < |x| ==> WellFormed(Canonicalize(x[i])) && Equivalent(x[i], Canonicalize(x[i]))
    ensures WellFormed(Canonicalize(Arr(x))) && Equivalent(Arr(x), Canonicalize(Arr(x)))
  {
    ItemsAre(x);
    var c := CanonicalItems(x);
    assert Canonicalize(Arr(x)) == Arr(c);
    hide Canonicalize, CanonicalItems;
  }

  lemma CanonicalObject(x: seq<Entry>)
    requires DistinctKeys(x)
    requires forall i :: 0 <= i < |x| ==>
      WellFormed(Canonicalize(x[i].value)) && Equivalent(x[i].value, Canonicalize(x[i].value))
    ensures WellFormed(Canonicalize(Obj(x))) && Equivalent(Obj(x), Canonicalize(Obj(x)))
  {
    SortedObjectIsSame(x);
    EntriesAre(x);
    var y := SortEntries(CanonicalEntries(x));
    assert Canonicalize(Obj(x)) == Obj(y);
    EquivalentObjects(x, y);
    hide Canonicalize, SortEntries, CanonicalEntries, At, HasKey, Equivalent;
    forall j | 0 <= j < |y|
      ensures WellFormed(y[j].value)
    {
      var i :| 0 <= i < |x| && CanonicalEntries(x)[i] == y[j];
    }
  }

  /** A value and its canonical form differ in key order only. */
  lemma {:induction false} CanonicalIsEquivalent(a: Value)
    requires WellFormed(a)
    ensures WellFormed(Canonicalize(a)) && Equivalent(a, Canonicalize(a))
    decreases a
  {
    match a {
      case Arr(x) =>
        hide Canonicalize, Equivalent;
        forall i | 0 <= i < |x|
          ensures WellFormed(Canonicalize(x[i])) && Equivalent(x[i], Canonicalize(x[i]))
        {
          CanonicalIsEquivalent(x[i]);
        }
        CanonicalArray(x);
      case Obj(x) =>
        hide Canonicalize, Equivalent;
        forall i | 0 <= i < |x|
          ensures WellFormed(Canonicalize(x[i].value)) && Equivalent(x[i].value, Canonicalize(x[i].value))
        {
          CanonicalIsEquivalent(x[i].value);
        }
        CanonicalObject(x);
      case _ =>
    }
  }

  /** Canonicalizing a canonical form changes nothing. */
  lemma CanonicalIsIdempotent(a: Value)
    requires WellFormed(a)
    ensures Canonicalize(Canonicalize(a)) == Canonicalize(a)
  {
    hide Canonicalize, WellFormed, Equivalent;
    CanonicalIsEquivalent(a);
    CanonicalFormIsComplete(a, Canonicalize(a));
  }

  // ---------------------------------------------------------------------------
  // Building it
  // ---------------------------------------------------------------------------

  lemma {:induction false} SortKeepsMembers(entries: seq<Entry>)
    ensures forall x :: x in SortEntries(entries) <==> x in entries
  {
    hide KeyLess;
    if entries != [] {
      SortKeepsMembers(entries[1..]);
      InsertMembers(SortEntries(entries[1..]), entries[0]);
      assert entries == [entries[0]] + entries[1..];
    }
  }

  function CanonicalEntry(e: Entry): Entry {
    Entry(e.key, Canonicalize(e.value))
  }

  lemma CanonicalCons(e: Entry, rest: seq<Entry>)
    ensures CanonicalEntries([e] + rest) == [CanonicalEntry(e)] + CanonicalEntries(rest)
  {
  }

  lemma {:induction false} InsertCommutes(entries: seq<Entry>, e: Entry)
    ensures CanonicalEntries(Insert(entries, e)) == Insert(CanonicalEntries(entries), CanonicalEntry(e))
  {
    hide KeyLess, Canonicalize;
    if entries == [] || KeyLess(e.key, entries[0].key) {
      CanonicalCons(e, entries);
    } else {
      InsertCommutes(entries[1..], e);
      CanonicalCons(entries[0], Insert(entries[1..], e));
      assert CanonicalEntries(entries)[1..] == CanonicalEntries(entries[1..]);
    }
  }

  /** Sorting by key and canonicalizing the values commute. */
  lemma {:induction false} SortCommutes(entries: seq<Entry>)
    ensures CanonicalEntries(SortEntries(entries)) == SortEntries(CanonicalEntries(entries))
  {
    hide KeyLess, Canonicalize, Insert;
    if entries != [] {
      SortCommutes(entries[1..]);
      InsertCommutes(SortEntries(entries[1..]), entries[0]);
      assert CanonicalEntries(entries)[1..] == CanonicalEntries(entries[1..]);
    }
  }

  lemma CanonicalSnoc(entries: seq<Entry>, n: nat)
    requires n < |entries|
    ensures CanonicalEntries(entries[..n + 1]) == CanonicalEntries(entries[..n]) + [CanonicalEntry(entries[n])]
  {
    hide Canonicalize;
    EntriesAre(entries[..n + 1]);
    EntriesAre(entries[..n]);
  }

  /** Visit an object's keys in order, each value made canonical before it is stored. */
  method CanonicalizeValue(v: Value) returns (c: Value)
    ensures c == Canonicalize(v)
    decreases v
  {
    hide SortEntries, CanonicalEntry;
    match v {
      case Obj(entries) =>
        var inOrder := SortEntries(entries);
        SortKeepsMembers(entries);
        var sorted: seq<Entry> := [];
        for i := 0 to |inOrder|
          invariant sorted == CanonicalEntries(inOrder[..i])
        {
          var e := inOrder[i];
          assert e in entries;
          var value := CanonicalizeValue(e.value);
          CanonicalSnoc(inOrder, i);
          sorted := sorted + [Entry(e.key, value)];
          assert Entry(e.key, value) == CanonicalEntry(e) by { IsCanonicalEntry(e); }
        }
        assert inOrder[..|inOrder|] == inOrder;
        SortCommutes(entries);
        c := Obj(sorted);
      case Arr(items) =>
        ItemsAre(items);
        var canonical: seq<Value> := [];
        for i := 0 to |items|
          invariant |canonical| == i
          invariant forall k :: 0 <= k < i ==> canonical[k] == Canonicalize(items[k])
        {
          var item := CanonicalizeValue(items[i]);
          canonical := canonical + [item];
        }
        assert canonical == CanonicalItems(items);
        c := Arr(canonical);
      case _ =>
        c := v;
    }
  }

  lemma IsCanonicalEntry(e: Entry)
    ensures CanonicalEntry(e) == Entry(e.key, Canonicalize(e.value))
  {
  }
}
