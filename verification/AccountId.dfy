/** The account-id scanner: one pass over the bytes. */
module AccountId {
  import opened Common

  predicate IsSeparator(b: byte) {
    b == '_' as int || b == '-' as int || b == '.' as int
  }

  predicate IsRunByte(b: byte) {
    'a' as int <= b <= 'z' as int || '0' as int <= b <= '9' as int
  }

  predicate IsRun(s: seq<byte>) {
    s != [] && forall i :: 0 <= i < |s| ==> IsRunByte(s[i])
  }

  /** Runs joined by single separators. */
  function Joined(runs: seq<seq<byte>>, separators: seq<byte>): seq<byte>
    requires |runs| == |separators| + 1
  {
    var n := |separators|;
    if n == 0 then runs[0]
    else Joined(runs[..n], separators[..n - 1]) + [separators[n - 1]] + runs[n]
  }

  predicate WellParted(runs: seq<seq<byte>>, separators: seq<byte>) {
    && |runs| == |separators| + 1
    && (forall i :: 0 <= i < |runs| ==> IsRun(runs[i]))
    && (forall i :: 0 <= i < |separators| ==> IsSeparator(separators[i]))
  }

  predicate PartsOf(runs: seq<seq<byte>>, separators: seq<byte>, id: seq<byte>) {
    WellParted(runs, separators) && Joined(runs, separators) == id
  }

  /** Non-empty runs of lowercase letters or digits, single separators between them. */
  ghost predicate Decomposes(id: seq<byte>) {
    exists runs, separators :: PartsOf(runs, separators, id)
  }

  /** What the scan sees: allowed bytes, no separator first, last or after another. */
  predicate WellSpaced(id: seq<byte>) {
    && id != []
    && (forall i :: 0 <= i < |id| ==> IsSeparator(id[i]) || IsRunByte(id[i]))
    && (forall i :: 0 <= i < |id| && IsSeparator(id[i]) ==> 0 < i < |id| - 1 && !IsSeparator(id[i - 1]))
  }

  lemma {:induction false} PartsAreSpaced(runs: seq<seq<byte>>, separators: seq<byte>)
    requires WellParted(runs, separators)
    ensures WellSpaced(Joined(runs, separators))
    ensures !IsSeparator(Joined(runs, separators)[|Joined(runs, separators)| - 1])
  {
    var n := |separators|;
    if n > 0 {
      PartsAreSpaced(runs[..n], separators[..n - 1]);
      assert IsRun(runs[n]);
    } else {
      assert IsRun(runs[0]);
    }
  }

  lemma LastSeparator(id: seq<byte>) returns (k: int)
    ensures -1 <= k < |id|
    ensures k >= 0 ==> IsSeparator(id[k])
    ensures forall i :: k < i < |id| ==> !IsSeparator(id[i])
  {
    k := |id| - 1;
    while k >= 0 && !IsSeparator(id[k])
      invariant -1 <= k < |id|
      invariant forall i :: k < i < |id| ==> !IsSeparator(id[i])
    {
      k := k - 1;
    }
  }

  lemma {:induction false} SpacedHasParts(id: seq<byte>) returns (runs: seq<seq<byte>>, separators: seq<byte>)
    requires WellSpaced(id)
    ensures WellParted(runs, separators) && Joined(runs, separators) == id
    decreases |id|
  {
    var k := LastSeparator(id);
    if k < 0 {
      runs, separators := [id], [];
    } else {
      var before, behind := SpacedHasParts(id[..k]);
      var last := id[k + 1..];
      runs, separators := before + [last], behind + [id[k]];
      assert IsRun(last);
      assert runs[..|separators|] == before && separators[..|separators| - 1] == behind;
      assert id == id[..k] + [id[k]] + last;
    }
  }

  lemma SpacedExactly(id: seq<byte>)
    ensures WellSpaced(id) <==> Decomposes(id)
  {
    hide WellSpaced;
    if WellSpaced(id) {
      var runs, separators := SpacedHasParts(id);
      assert PartsOf(runs, separators, id);
    }
    if Decomposes(id) {
      var runs, separators :| PartsOf(runs, separators, id);
      PartsAreSpaced(runs, separators);
    }
  }

  predicate IsAscii(s: string) {
    forall i :: 0 <= i < |s| ==> s[i] as int < 128
  }

  function Bytes(s: string): seq<byte>
    requires IsAscii(s)
  {
    seq(|s|, i requires 0 <= i < |s| => s[i] as int)
  }

  /** A name an account can have: any other character spells bytes no account id holds. */
  ghost predicate NamesAccount(s: string) {
    2 <= |s| <= 64 && IsAscii(s) && Decomposes(Bytes(s))
  }

  /** Accepts exactly the ids of 2 to 64 bytes that decompose. */
  method AccountIdIsWellFormed(id: seq<byte>) returns (ok: bool)
    ensures ok <==> 2 <= |id| <= 64 && Decomposes(id)
  {
    hide Decomposes;
    SpacedExactly(id);
    if !(2 <= |id| <= 64) {
      return false;
    }
    var previousWasSeparator := true;
    for i := 0 to |id|
      invariant forall j :: 0 <= j < i ==> IsSeparator(id[j]) || IsRunByte(id[j])
      invariant forall j :: 0 <= j < i && IsSeparator(id[j]) ==> 0 < j && !IsSeparator(id[j - 1])
      invariant previousWasSeparator <==> i == 0 || IsSeparator(id[i - 1])
    {
      var separator := IsSeparator(id[i]);
      if !(separator || IsRunByte(id[i])) {
        return false;
      }
      if separator && previousWasSeparator {
        return false;
      }
      previousWasSeparator := separator;
    }
    return !previousWasSeparator;
  }
}
