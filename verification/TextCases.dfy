/** Key order, canonical objects and account ids on texts spelled out character by character. */
module TextCases {
  import opened Common
  import opened Json
  import opened Canonical
  import opened AccountId

  // ---------------------------------------------------------------------------
  // Key order
  // ---------------------------------------------------------------------------

  /** Behind a common start the first characters that differ decide, the smaller code point
      first, and a start comes before what it starts. */
  lemma {:induction false} FirstDifferenceDecides(start: string, c: char, d: char, s: string, t: string)
    requires c != d
    ensures KeyLess(start + [c] + s, start + [d] + t) <==> c as int < d as int
    ensures KeyLess(start, start + [c] + s) && !KeyLess(start + [c] + s, start)
  {
    var a, b := start + [c] + s, start + [d] + t;
    if start == "" {
      assert a[0] == c && b[0] == d;
    } else {
      FirstDifferenceDecides(start[1..], c, d, s, t);
      assert a[1..] == start[1..] + [c] + s && b[1..] == start[1..] + [d] + t;
      assert a[0] == b[0] == start[0];
    }
  }

  /** An object's keys come out in that order, whichever way they went in. */
  lemma TwoKeysAreSorted(start: string, c: char, d: char, x: string, y: string)
    requires c as int < d as int
    ensures
      var first, second := Entry(start + [c], Str(x)), Entry(start + [d], Str(y));
      && Canonicalize(Obj([first, second])) == Obj([first, second])
      && Canonicalize(Obj([second, first])) == Obj([first, second])
  {
    hide KeyLess;
    FirstDifferenceDecides(start, c, d, "", "");
    FirstDifferenceDecides(start, d, c, "", "");
    assert start + [c] + "" == start + [c] && start + [d] + "" == start + [d];
    var first, second := Entry(start + [c], Str(x)), Entry(start + [d], Str(y));
    TwoEntries(first, second);
    TwoEntries(second, first);
  }

  lemma TwoEntries(a: Entry, b: Entry)
    requires a.value.Str? && b.value.Str? && (KeyLess(a.key, b.key) <==> !KeyLess(b.key, a.key))
    ensures Canonicalize(Obj([a, b])) == Obj(if KeyLess(a.key, b.key) then [a, b] else [b, a])
  {
    hide KeyLess;
    var es := [a, b];
    assert es[1..] == [b] && [b][1..] == [];
    assert CanonicalEntries([b]) == [b];
    assert CanonicalEntries(es) == [a, b];
    assert SortEntries([]) == [];
    assert SortEntries([b]) == Insert([], b) == [b];
    assert SortEntries(es) == Insert([b], a);
    assert [b][1..] == [] && Insert([b], a) == if KeyLess(a.key, b.key) then [a, b] else [b] + Insert([], a);
  }

  // ---------------------------------------------------------------------------
  // Account ids
  // ---------------------------------------------------------------------------

  /** Between two letters stands exactly a small letter, a digit or one of three separators. */
  lemma MiddleDecides(c: char)
    ensures NamesAccount(['a', c, 'b']) <==> 'a' <= c <= 'z' || '0' <= c <= '9' || c == '_' || c == '-' || c == '.'
  {
    hide Decomposes;
    var s := ['a', c, 'b'];
    assert s[1] == c;
    if IsAscii(s) {
      var id := Bytes(s);
      assert id[0] == 'a' as int && id[1] == c as int && id[2] == 'b' as int;
      SpacedExactly(id);
    }
  }

  /** A separator stands neither first, nor last, nor beside another. */
  lemma SeparatorsStandAlone(x: char, y: char)
    requires x in {'_', '-', '.'} && y in {'_', '-', '.'}
    ensures !NamesAccount([x, 'a', 'b']) && !NamesAccount(['a', 'b', x]) && !NamesAccount(['a', x, y, 'b'])
  {
    hide Decomposes;
    SpacedExactly(Bytes([x, 'a', 'b']));
    SpacedExactly(Bytes(['a', 'b', x]));
    SpacedExactly(Bytes(['a', x, y, 'b']));
    assert Bytes([x, 'a', 'b'])[0] == x as int;
    assert Bytes(['a', 'b', x])[2] == x as int;
    assert Bytes(['a', x, y, 'b'])[1] == x as int && Bytes(['a', x, y, 'b'])[2] == y as int;
  }

  /** From 2 to 64 characters, and no other length. */
  lemma LengthDecides(n: nat)
    ensures NamesAccount(seq(n, i => 'a')) <==> 2 <= n <= 64
  {
    hide Decomposes;
    if n > 0 {
      SpacedExactly(Bytes(seq(n, i => 'a')));
    }
  }
}
