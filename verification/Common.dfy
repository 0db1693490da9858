/** Values every component shares: options and results, 128-bit amounts, decimal
    figures, and the few sequence facts the proofs need. */
module Common {

  datatype Option<+T> = None | Some(value: T)

  datatype Result<+T, +E> = Ok(value: T) | Err(error: E)

  const U128_MAX: nat := 0xFFFF_FFFF_FFFF_FFFF_FFFF_FFFF_FFFF_FFFF
  const U64_MAX: nat := 0xFFFF_FFFF_FFFF_FFFF

  type u128 = n: nat | n <= U128_MAX
  type u64 = n: nat | n <= U64_MAX
  type byte = n: nat | n < 256

  // ---------------------------------------------------------------------------
  // Saturating arithmetic
  // ---------------------------------------------------------------------------

  /** The nearest amount a `u128` can hold. */
  function Saturate(n: nat): u128 {
    if n > U128_MAX then U128_MAX else n
  }

  /** `u128::saturating_add`. */
  function SatAdd(a: u128, b: u128): u128 {
    Saturate(a + b)
  }

  /** `u128::saturating_sub`. */
  function SatSub(a: u128, b: u128): u128 {
    if a < b then 0 else a - b
  }

  /** `u64::saturating_add`, for gas. */
  function SatAdd64(a: u64, b: u64): u64 {
    if a + b > U64_MAX then U64_MAX else a + b
  }

  function Saturate64(n: nat): u64 {
    if n > U64_MAX then U64_MAX else n
  }

  /** Saturating along the way gives what saturating once at the end gives. */
  lemma SaturatedSums(a: nat, b: nat)
    ensures SatAdd(Saturate(a), Saturate(b)) == Saturate(a + b)
    ensures Saturate64(Saturate64(a) + b) == Saturate64(a + b)
  {
  }

  /** A "greater than the limit" test on a saturated sum is the exact test for every
      pair of addends exactly when the limit is below the largest amount. */
  lemma LimitTestIsExact(limit: u128)
    ensures (forall spent: u128, amount: u128 :: SatAdd(spent, amount) > limit <==> spent + amount > limit)
            <==> limit < U128_MAX
  {
    if limit == U128_MAX {
      var spent: u128, amount: u128 := U128_MAX, 1;
      assert spent + amount > limit && !(SatAdd(spent, amount) > limit);
    }
  }

  // ---------------------------------------------------------------------------
  // Decimal figures
  // ---------------------------------------------------------------------------

  predicate IsDigit(c: char) {
    '0' <= c <= '9'
  }

  predicate AllDigits(s: string) {
    forall i :: 0 <= i < |s| ==> IsDigit(s[i])
  }

  function DigitsValue(s: string): nat
    requires AllDigits(s)
  {
    if s == "" then 0 else 10 * DigitsValue(s[..|s| - 1]) + (s[|s| - 1] as int - '0' as int)
  }

  /** Rust's `str::parse` for an unsigned type: one optional `+`, at least one digit,
      nothing else, and a value the type can hold. */
  function ParseUnsigned(s: string, max: nat): Option<nat> {
    var digits := if |s| > 0 && s[0] == '+' then s[1..] else s;
    if digits == "" || !AllDigits(digits) || DigitsValue(digits) > max then None
    else Some(DigitsValue(digits))
  }

  function ParseU128(s: string): (r: Option<u128>) {
    match ParseUnsigned(s, U128_MAX)
    case None => None
    case Some(v) => Some(v)
  }

  function ParseU64(s: string): (r: Option<u64>) {
    match ParseUnsigned(s, U64_MAX)
    case None => None
    case Some(v) => Some(v)
  }

  /** `parse().unwrap_or(default)`. */
  function ParseOr(s: string, default: u128): u128 {
    match ParseU128(s)
    case None => default
    case Some(v) => v
  }

  function DigitChar(n: nat): char
    requires n < 10
  {
    ['0', '1', '2', '3', '4', '5', '6', '7', '8', '9'][n]
  }

  function ToDecimal(n: nat): string {
    if n < 10 then [DigitChar(n)] else ToDecimal(n / 10) + [DigitChar(n % 10)]
  }

  lemma {:induction false} ToDecimalDigits(n: nat)
    ensures ToDecimal(n) != "" && AllDigits(ToDecimal(n)) && DigitsValue(ToDecimal(n)) == n
  {
    var s := ToDecimal(n);
    if n < 10 {
      assert s[..|s| - 1] == "";
    } else {
      ToDecimalDigits(n / 10);
      assert s[..|s| - 1] == ToDecimal(n / 10);
    }
  }

  /** Every amount has a decimal spelling that reads back as itself. */
  lemma DecimalRoundTrip(n: u128)
    ensures ParseU128(ToDecimal(n)) == Some(n)
  {
    ToDecimalDigits(n);
    assert IsDigit(ToDecimal(n)[0]);
  }

  lemma DecimalRoundTrip64(n: u64)
    ensures ParseU64(ToDecimal(n)) == Some(n)
  {
    ToDecimalDigits(n);
    assert IsDigit(ToDecimal(n)[0]);
  }

  /** One digit reads as what it says. */
  lemma DigitReads(c: char)
    requires '0' <= c <= '9'
    ensures ParseU128([c]) == Some(c as int - '0' as int) && ParseU64([c]) == Some(c as int - '0' as int)
  {
    var s := [c];
    assert s[0] == c && s != "";
    assert AllDigits(s);
    assert s[..|s| - 1] == "";
    assert DigitsValue(s) == 10 * DigitsValue("") + (c as int - '0' as int);
  }

  lemma NextDigitIn(s: string, c: char, max: nat)
    requires s != "" && '0' <= c <= '9' && ParseUnsigned(s, max).Some?
    ensures
      var v := 10 * ParseUnsigned(s, max).value + (c as int - '0' as int);
      ParseUnsigned(s + [c], max) == if v <= max then Some(v) else None
  {
    var digits := if s[0] == '+' then s[1..] else s;
    var more := digits + [c];
    assert (s + [c])[0] == s[0];
    assert more == if s[0] == '+' then (s + [c])[1..] else s + [c];
    assert more[..|more| - 1] == digits;
    assert AllDigits(more);
    assert DigitsValue(more) == 10 * DigitsValue(digits) + (c as int - '0' as int);
  }

  /** One digit more is ten times the figure and that digit, up to the largest the type holds. */
  lemma NextDigitReads(s: string, c: char)
    requires s != "" && '0' <= c <= '9'
    ensures ParseU128(s).Some? ==>
      var v := 10 * ParseU128(s).value + (c as int - '0' as int);
      ParseU128(s + [c]) == if v <= 340282366920938463463374607431768211455 then Some(v) else None
    ensures ParseU64(s).Some? ==>
      var v := 10 * ParseU64(s).value + (c as int - '0' as int);
      ParseU64(s + [c]) == if v <= 18446744073709551615 then Some(v) else None
  {
    hide ParseUnsigned;
    if ParseU128(s).Some? {
      NextDigitIn(s, c, U128_MAX);
    }
    if ParseU64(s).Some? {
      NextDigitIn(s, c, U64_MAX);
    }
  }

  /** Nothing else reads: no empty text, no sign but one plus in front of digits, no other
      character anywhere. */
  lemma OnlyFiguresRead(s: string)
    requires ParseU128(s).Some? || ParseU64(s).Some?
    ensures s != "" && s != "+"
    ensures forall i :: 0 <= i < |s| ==> '0' <= s[i] <= '9' || (i == 0 && s[i] == '+')
  {
    if s[0] == '+' {
      assert forall i :: 0 < i < |s| ==> s[i] == s[1..][i - 1];
    }
  }

  lemma PlusReads(s: string)
    requires s != "" && s[0] != '+'
    ensures ParseU128("+" + s) == ParseU128(s) && ParseU64("+" + s) == ParseU64(s)
  {
    assert ("+" + s)[1..] == s;
  }

  // ---------------------------------------------------------------------------
  // Sequences
  // ---------------------------------------------------------------------------

  /** Every `f(x)` in order, concatenated. */
  function FlatMap<A, B>(f: A -> seq<B>, xs: seq<A>): seq<B> {
    if xs == [] then [] else FlatMap(f, xs[..|xs| - 1]) + f(xs[|xs| - 1])
  }

  lemma {:induction false} FlatMapMember<A, B>(f: A -> seq<B>, xs: seq<A>, y: B)
    ensures y in FlatMap(f, xs) <==> exists x :: x in xs && y in f(x)
  {
    if xs != [] {
      var init, last := xs[..|xs| - 1], xs[|xs| - 1];
      assert xs == init + [last];
      FlatMapMember(f, init, y);
    }
  }

  lemma FlatMapSnoc<A, B>(f: A -> seq<B>, xs: seq<A>, x: A)
    ensures FlatMap(f, xs + [x]) == FlatMap(f, xs) + f(x)
  {
  }

  /** The sum of `f` over `xs`. */
  function Sum<A>(f: A -> nat, xs: seq<A>): nat {
    if xs == [] then 0 else Sum(f, xs[..|xs| - 1]) + f(xs[|xs| - 1])
  }

  lemma SumNothing<A>(f: A -> nat)
    ensures Sum(f, []) == 0
  {
  }

  lemma SumSnoc<A>(f: A -> nat, xs: seq<A>, x: A)
    ensures Sum(f, xs + [x]) == Sum(f, xs) + f(x)
  {
  }

  lemma {:induction false} SumAppend<A>(f: A -> nat, xs: seq<A>, ys: seq<A>)
    ensures Sum(f, xs + ys) == Sum(f, xs) + Sum(f, ys)
  {
    if ys == [] {
      assert xs + ys == xs;
    } else {
      SumAppend(f, xs, ys[..|ys| - 1]);
      assert (xs + ys)[..|xs + ys| - 1] == xs + ys[..|ys| - 1];
    }
  }

  lemma OneLess<A>(init: seq<A>, a: seq<A>, b: seq<A>, x: A)
    requires multiset(init + [x]) == multiset(a + [x] + b)
    ensures multiset(init) == multiset(a + b)
  {
    assert multiset(init + [x]) - multiset{x} == multiset(init);
    assert multiset(a + [x] + b) == multiset(a) + multiset{x} + multiset(b);
    assert multiset(a + b) == multiset(a) + multiset(b);
    assert multiset(a) + multiset{x} + multiset(b) - multiset{x} == multiset(a) + multiset(b);
  }

  /** A sum does not depend on the order of its terms. */
  lemma {:induction false} SumPermutes<A>(f: A -> nat, xs: seq<A>, ys: seq<A>)
    requires multiset(xs) == multiset(ys)
    ensures Sum(f, xs) == Sum(f, ys)
  {
    if xs == [] {
      assert |multiset(ys)| == 0;
    } else {
      var init, last := xs[..|xs| - 1], xs[|xs| - 1];
      assert xs == init + [last];
      assert last in multiset(ys);
      var j :| 0 <= j < |ys| && ys[j] == last;
      var a, b := ys[..j], ys[j + 1..];
      assert ys == a + [last] + b;
      OneLess(init, a, b, last);
      SumPermutes(f, init, a + b);
      SumAppend(f, a, b);
      SumAppend(f, a + [last], b);
      SumSnoc(f, a, last);
    }
  }
}
