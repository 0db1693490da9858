/** JSON values as `serde_json` holds them, and how a serde struct reads its fields. */
module Json {
  import opened Common

  datatype Number = PosInt(u: u64) | NegInt(i: int) | Float(bits: nat)

  datatype Value =
    | Null
    | Bool(b: bool)
    | Num(n: Number)
    | Str(s: string)
    | Arr(items: seq<Value>)
    | Obj(entries: seq<Entry>)

  datatype Entry = Entry(key: string, value: Value)

  /** A JSON object as a map library holds it never repeats a key. */
  predicate DistinctKeys(entries: seq<Entry>) {
    forall i, j :: 0 <= i < j < |entries| ==> entries[i].key != entries[j].key
  }

  /** How many entries carry `key`. */
  function Occurrences(entries: seq<Entry>, key: string): nat {
    if entries == [] then 0
    else (if entries[0].key == key then 1 else 0) + Occurrences(entries[1..], key)
  }

  function Lookup(entries: seq<Entry>, key: string): Option<Value> {
    if entries == [] then None
    else if entries[0].key == key then Some(entries[0].value)
    else Lookup(entries[1..], key)
  }

  /** The object holds `v` under `key`, once. */
  predicate Once(entries: seq<Entry>, key: string, v: Value) {
    exists i :: 0 <= i < |entries| && entries[i] == Entry(key, v)
      && forall j :: 0 <= j < |entries| && j != i ==> entries[j].key != key
  }

  predicate Lacks(entries: seq<Entry>, key: string) {
    forall j :: 0 <= j < |entries| ==> entries[j].key != key
  }

  lemma {:induction false} LackingReads(entries: seq<Entry>, key: string)
    ensures Lacks(entries, key) <==> Lookup(entries, key).None?
    ensures Lacks(entries, key) <==> Occurrences(entries, key) == 0
  {
    if entries != [] {
      LackingReads(entries[1..], key);
      assert forall j :: 0 < j < |entries| ==> entries[j] == entries[1..][j - 1];
    }
  }

  /** What is held once is found, and counted once. */
  lemma {:induction false} OnceReads(entries: seq<Entry>, key: string, v: Value)
    requires Once(entries, key, v)
    ensures Lookup(entries, key) == Some(v) && Occurrences(entries, key) == 1
  {
    var rest := entries[1..];
    var i :| 0 <= i < |entries| && entries[i] == Entry(key, v)
          && forall j :: 0 <= j < |entries| && j != i ==> entries[j].key != key;
    assert forall j :: 0 < j < |entries| ==> entries[j] == rest[j - 1];
    if i == 0 {
      LackingReads(rest, key);
    } else {
      assert rest[i - 1] == Entry(key, v);
      OnceReads(rest, key, v);
    }
  }

  /** What is held twice is counted twice. */
  lemma {:induction false} TwiceCounts(entries: seq<Entry>, key: string, i: nat, j: nat)
    requires i < j < |entries| && entries[i].key == entries[j].key == key
    ensures Occurrences(entries, key) >= 2
  {
    var rest := entries[1..];
    if i == 0 {
      assert rest[j - 1].key == key;
      LackingReads(rest, key);
    } else {
      TwiceCounts(rest, key, i - 1, j - 1);
    }
  }

  /** `value.get(key)`: only objects have members. */
  function Get(v: Value, key: string): Option<Value> {
    if v.Obj? then Lookup(v.entries, key) else None
  }

  /** Whether a derived struct with these fields, in this order, can be read from `v` as
      far as its outer shape goes: an object naming no field twice, or the positional
      array spelling with no more items than fields. */
  predicate StructShape(v: Value, fields: seq<string>) {
    match v
    case Obj(entries) => forall i :: 0 <= i < |fields| ==> Occurrences(entries, fields[i]) <= 1
    case Arr(items) => |items| <= |fields|
    case _ => false
  }

  /** Field `fields[i]` of a struct read from `v`, if it is there. */
  function Field(v: Value, fields: seq<string>, i: nat): Option<Value>
    requires i < |fields|
  {
    match v
    case Obj(entries) => Lookup(entries, fields[i])
    case Arr(items) => if i < |items| then Some(items[i]) else None
    case _ => None
  }
}
