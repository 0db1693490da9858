/** Fail-closed metering: what a permission says about the raw usage document. */
module Metering {
  import opened Common
  import opened Json
  import R = Request
  import opened Policy
  import opened Evaluation
  import opened Extension
  import Runs
  import Invariance

  /** No window of the document repeats a token. */
  predicate WellFormed(doc: Value) {
    forall w: Window :: DistinctKeys(WindowEntries(doc, w))
  }

  predicate NamesAWindow(doc: Value) {
    Get(doc, "daily").Some? || Get(doc, "hourly").Some? || Get(doc, "monthly").Some?
  }

  /** The document leaves the window out or holds an object of figures under its name. */
  predicate WindowReads(doc: Value, w: Window) {
    Get(doc, w.Key()).Some? ==> Get(doc, w.Key()).value.Obj?
  }

  const I64_MAX: nat := 0x7FFF_FFFF_FFFF_FFFF

  predicate IsCount(v: Value) {
    v.Num? && (v.n.NegInt? || (v.n.PosInt? && v.n.u <= I64_MAX))
  }

  /** The document leaves the hourly count out or holds a 64-bit integer. */
  predicate CountReads(doc: Value) {
    Get(doc, "hourly_tx_count").Some? ==> IsCount(Get(doc, "hourly_tx_count").value)
  }

  function StoredCount(doc: Value): int
    requires CountReads(doc)
  {
    match Get(doc, "hourly_tx_count")
    case None => 0
    case Some(v) => if v.n.PosInt? then v.n.u else v.n.i
  }

  /** What the document stores for a token in a window. */
  function Stored(doc: Value, w: Window, token: string): Option<Value> {
    Lookup(WindowEntries(doc, w), token)
  }

  lemma {:induction false} LookupIn(entries: seq<Entry>, token: string)
    requires DistinctKeys(entries)
    ensures Lookup(entries, token).None? <==> forall i :: 0 <= i < |entries| ==> entries[i].key != token
    ensures forall i :: 0 <= i < |entries| && entries[i].key == token ==> Lookup(entries, token) == Some(entries[i].value)
  {
    if entries != [] {
      var rest := entries[1..];
      LookupIn(rest, token);
      assert forall i :: 0 < i < |entries| ==> entries[i] == rest[i - 1];
    }
  }

  lemma {:induction false} CountersRead(entries: seq<Entry>, n: nat, token: string)
    requires DistinctKeys(entries) && n <= |entries|
    ensures token in ReadCounters(entries, n)
       <==> exists i :: 0 <= i < n && entries[i].key == token && EntryAmount(entries[i].value).Some?
    ensures forall i :: 0 <= i < n && entries[i].key == token && EntryAmount(entries[i].value).Some?
              ==> ReadCounters(entries, n)[token] == EntryAmount(entries[i].value).value
  {
    hide EntryAmount;
    if n > 0 {
      CountersRead(entries, n - 1, token);
    }
  }

  /** Names of unreadable counters do not collide across windows or tokens. */
  lemma CounterNames(w: Window, v: Window, t: string, u: string)
    ensures w.Key() + ":" + t == v.Key() + ":" + u ==> w == v && t == u
  {
    var a, b := w.Key() + ":", v.Key() + ":";
    if a + t == b + u {
      assert (a + t)[0] == a[0] && (b + u)[0] == b[0];
      assert w == v;
      assert (a + t)[|a|..] == t && (b + u)[|b|..] == u;
    }
  }

  lemma {:induction false} UnreadNames(w: Window, entries: seq<Entry>, n: nat, v: Window, token: string)
    requires n <= |entries|
    ensures v.Key() + ":" + token in UnreadCounters(w, entries, n)
       <==> w == v && exists i :: 0 <= i < n && entries[i].key == token && EntryAmount(entries[i].value).None?
  {
    hide EntryAmount;
    if n > 0 {
      UnreadNames(w, entries, n - 1, v, token);
      CounterNames(w, v, entries[n - 1].key, token);
    }
  }

  lemma CountIsStored(doc: Value)
    ensures TxCount(Get(doc, "hourly_tx_count")) == if CountReads(doc) then StoredCount(doc) else 0
  {
    hide Get;
  }

  lemma NoObjectStoresNothing(doc: Value, w: Window, token: string)
    ensures !WindowReads(doc, w) ==> NamesAWindow(doc) && Stored(doc, w, token).None?
  {
    hide Get;
  }

  /** The counter the engine reads is the stored figure; it is unreadable exactly when the
      document names no window, or stores something that is not an amount. Nothing is stored
      in a window that is no object, and a count that is no 64-bit integer reads as zero. */
  lemma CounterIsStored(doc: Value, w: Window, token: string)
    requires WellFormed(doc)
    ensures
      var usage := UsageFrom(doc);
      var stored := Stored(doc, w, token);
      && (usage.CounterUnreadable(w, token) <==> !NamesAWindow(doc) || (stored.Some? && EntryAmount(stored.value).None?))
      && (NamesAWindow(doc) && stored.None? ==> usage.Spent(w, token) == 0)
      && (NamesAWindow(doc) && stored.Some? && EntryAmount(stored.value).Some? ==>
            usage.Spent(w, token) == EntryAmount(stored.value).value)
      && (!WindowReads(doc, w) ==> NamesAWindow(doc) && stored.None?)
      && (NamesAWindow(doc) ==> usage.hourlyTxCount == if CountReads(doc) then StoredCount(doc) else 0)
      && (usage.allUnreadable <==> !NamesAWindow(doc))
  {
    hide EntryAmount, WindowEntries, ReadCounters, UnreadCounters, TxCount, Lookup, WindowReads, CountReads;
    CountIsStored(doc);
    NoObjectStoresNothing(doc, w, token);
    if NamesAWindow(doc) {
      var entries := WindowEntries(doc, w);
      assert DistinctKeys(entries);
      LookupIn(entries, token);
      CountersRead(entries, |entries|, token);
      UnreadNames(Daily, WindowEntries(doc, Daily), |WindowEntries(doc, Daily)|, w, token);
      UnreadNames(Hourly, WindowEntries(doc, Hourly), |WindowEntries(doc, Hourly)|, w, token);
      UnreadNames(Monthly, WindowEntries(doc, Monthly), |WindowEntries(doc, Monthly)|, w, token);
    }
  }

  /** The raw cap of a token: its own entry, else the wildcard's. */
  function RawCap(policy: Policy, w: Window, token: string): Option<string> {
    if policy.rules.None? || policy.rules.value.limits.None? then None
    else match Caps(policy.rules.value.limits.value, w)
      case None => None
      case Some(caps) =>
        if token in caps then Some(caps[token]) else if "*" in caps then Some(caps["*"]) else None
  }

  lemma CapIsRead(policy: Policy, w: Window, token: string)
    ensures Runs.CapFor(policy, w, token)
         == match RawCap(policy, w, token) case None => None case Some(raw) => ParseU128(raw)
  {
  }

  lemma PermittedReadsLimits(policy: Policy, op: Op, usage: Option<Usage>, now: nat)
    requires op.Amount().Some? && Evaluate(policy, op, usage, now).Permits()
    ensures LimitsReadable(policy.rules)
  {
    hide ExtensionStage, StandardStage, TailStage, LimitsReadable;
  }

  lemma CapParses(policy: Policy, w: Window, token: string)
    requires LimitsReadable(policy.rules) && RawCap(policy, w, token).Some?
    ensures ParseU128(RawCap(policy, w, token).value).Some?
  {
  }

  // ---------------------------------------------------------------------------
  // The hourly count
  // ---------------------------------------------------------------------------

  /** The operation is one a count cap of the policy applies to. */
  predicate CountMeasured(policy: Policy, op: Op) {
    !op.Auth? && policy.rules.Some? && CountCap(policy.rules.value).Some?
  }

  /** The stored count reads and is below both places the owner may cap it. */
  predicate CountBelow(doc: Value, rules: Rules) {
    && CountReads(doc)
    && (rules.limits.Some? && rules.limits.value.hourlyTxCount.Some? ==>
          StoredCount(doc) < rules.limits.value.hourlyTxCount.value)
    && (rules.maxPerHour.Some? ==> StoredCount(doc) < rules.maxPerHour.value)
  }

  /** A permission under a count cap means the document names a window, and a count that reads
      is below every cap. */
  lemma CountFailsClosed(policy: Policy, op: Op, doc: Value, now: nat)
    requires CountMeasured(policy, op) && Evaluate(policy, op, Some(UsageFrom(doc)), now).Permits()
    ensures NamesAWindow(doc)
    ensures CountReads(doc) ==> CountBelow(doc, policy.rules.value)
  {
    hide ExtensionStage, TailStage, LimitsReadable, TypeRefuses, TokenRefuses, DestinationStage, AmountStage, WindowEntries,
         ReadCounters, UnreadCounters;
    StandardDenies(policy.rules, op, Some(UsageFrom(doc)));
    Invariance.DoorDenies(policy.rules, if op.Call? then op.body else BodyNotBase64, Some(UsageFrom(doc)));
    assert !RateRefuses(policy.rules, UsageFrom(doc));
  }

  /** A policy with one rule: so many transactions an hour. */
  function OnlyRate(max: int): Policy {
    Policy(false, Some(Rules(None, None, None, None, Some(max), None)), None, None)
  }

  /** The failing input: a stored count that does not read lifts any rate cap above zero. */
  lemma UnreadCountPermits(doc: Value, max: int)
    requires NamesAWindow(doc) && !CountReads(doc) && max >= 1
    ensures Evaluate(OnlyRate(max), Runs.Pay(1), Some(UsageFrom(doc)), 0) == Allow
    ensures CountMeasured(OnlyRate(max), Runs.Pay(1)) && !CountBelow(doc, OnlyRate(max).rules.value)
  {
    hide ToDecimal, ParseU128, WindowEntries, ReadCounters, UnreadCounters;
    DecimalRoundTrip(1);
  }

  predicate CountKept(policy: Policy, op: Op, doc: Value, now: nat) {
    CountMeasured(policy, op) && Evaluate(policy, op, Some(UsageFrom(doc)), now).Permits() ==>
      CountBelow(doc, policy.rules.value)
  }

  /** For every document: under every policy with a count cap a permission means a stored count
      that is absent or an integer and below every cap, exactly when the document names no
      window or holds no other kind of count. */
  lemma CountExactly(doc: Value)
    ensures (forall policy, op, now :: CountKept(policy, op, doc, now)) <==> !NamesAWindow(doc) || CountReads(doc)
  {
    hide Evaluate, UsageFrom, CountMeasured, CountBelow, CountReads, NamesAWindow;
    if !NamesAWindow(doc) || CountReads(doc) {
      forall policy, op, now
        ensures CountKept(policy, op, doc, now)
      {
        if CountMeasured(policy, op) && Evaluate(policy, op, Some(UsageFrom(doc)), now).Permits() {
          CountFailsClosed(policy, op, doc, now);
        }
      }
    } else {
      UnreadCountPermits(doc, 1);
      assert !CountKept(OnlyRate(1), Runs.Pay(1), doc, 0);
    }
  }

  // ---------------------------------------------------------------------------
  // The windows
  // ---------------------------------------------------------------------------

  /** If an operation is permitted against a raw usage document, then for
      every window and token it is measured against: the configured cap is a readable figure,
      the document is one, what it stores for that counter is absent or readable, and stored
      plus added is within the cap wherever the cap binds. A count that reads is below every
      count cap. */
  lemma MeteringFailsClosed(policy: Policy, op: Op, doc: Value, now: nat, w: Window, token: string)
    requires WellFormed(doc)
    requires Evaluate(policy, op, Some(UsageFrom(doc)), now).Permits()
    requires RawCap(policy, w, token).Some? && Runs.Measured(op, token)
    ensures LimitsReadable(policy.rules)
    ensures ParseU128(RawCap(policy, w, token).value).Some?
    ensures NamesAWindow(doc)
    ensures
      var cap := ParseU128(RawCap(policy, w, token).value).value;
      var stored := Stored(doc, w, token);
      && (stored.Some? ==> EntryAmount(stored.value).Some?)
      && (Runs.CapBinds(cap, op, token) ==>
            (if stored.Some? then EntryAmount(stored.value).value else 0) + Runs.Adds(op, token) <= cap)
    ensures CountCap(policy.rules.value).Some? && CountReads(doc) ==> CountBelow(doc, policy.rules.value)
  {
    hide CountBelow, CountReads, CountCap, Evaluate, LimitsReadable, ParseU128, Runs.Adds, Extension.TokenMoved, Runs.CapBinds, UsageFrom, Stored,
         EntryAmount, Runs.CapFor, WellFormed, NamesAWindow;
    if policy.rules.Some? && CountCap(policy.rules.value).Some? {
      CountFailsClosed(policy, op, doc, now);
    }
    PermittedReadsLimits(policy, op, Some(UsageFrom(doc)), now);
    CapParses(policy, w, token);
    CapIsRead(policy, w, token);
    Runs.PermittedWithinCap(policy, w, op, UsageFrom(doc), now, token);
    CounterIsStored(doc, w, token);
  }

  /** The document says what the counter is, and the operation keeps it within its cap. */
  predicate Accounted(policy: Policy, op: Op, doc: Value, w: Window, token: string) {
    && NamesAWindow(doc) && WindowReads(doc, w)
    && RawCap(policy, w, token).Some? && ParseU128(RawCap(policy, w, token).value).Some?
    && (Stored(doc, w, token).Some? ==> EntryAmount(Stored(doc, w, token).value).Some?)
    && (Runs.CapBinds(ParseU128(RawCap(policy, w, token).value).value, op, token) ==>
          (if Stored(doc, w, token).Some? then EntryAmount(Stored(doc, w, token).value).value else 0)
          + Runs.Adds(op, token) <= ParseU128(RawCap(policy, w, token).value).value)
  }

  predicate WindowKept(policy: Policy, op: Op, doc: Value, now: nat, w: Window, token: string) {
    && RawCap(policy, w, token).Some? && Runs.Measured(op, token)
    && Evaluate(policy, op, Some(UsageFrom(doc)), now).Permits() ==>
      Accounted(policy, op, doc, w, token)
  }

  /** The failing input: a window that is there and is no object reads as nothing spent, and
      any cap can be spent whole against it. */
  lemma UnreadWindowPermits(doc: Value, w: Window, cap: u128)
    requires WellFormed(doc) && !WindowReads(doc, w)
    ensures Evaluate(Runs.OnlyCap(w, cap), Runs.Pay(cap), Some(UsageFrom(doc)), 0) == Allow
    ensures Runs.Measured(Runs.Pay(cap), NATIVE) && RawCap(Runs.OnlyCap(w, cap), w, NATIVE).Some?
  {
    hide Evaluate, UsageFrom, EntryAmount, ToDecimal, WellFormed, NamesAWindow, WindowReads;
    CounterIsStored(doc, w, NATIVE);
    Runs.PayIsAllowed(w, cap, UsageFrom(doc), cap);
  }

  /** For every document and window: under every policy, operation and token a permission
      means an accounted counter, exactly when the document names no window at all, or leaves
      this one out, or holds an object there. */
  lemma WindowExactly(doc: Value, w: Window)
    requires WellFormed(doc)
    ensures (forall policy, op, now, token :: WindowKept(policy, op, doc, now, w, token))
       <==> !NamesAWindow(doc) || WindowReads(doc, w)
  {
    hide Evaluate, UsageFrom, RawCap, WindowReads, NamesAWindow, Runs.Measured, Runs.CapBinds, Runs.Adds, EntryAmount,
         Stored, ParseU128, WellFormed;
    if !NamesAWindow(doc) || WindowReads(doc, w) {
      forall policy, op, now, token
        ensures WindowKept(policy, op, doc, now, w, token)
      {
        if RawCap(policy, w, token).Some? && Runs.Measured(op, token)
           && Evaluate(policy, op, Some(UsageFrom(doc)), now).Permits()
        {
          MeteringFailsClosed(policy, op, doc, now, w, token);
        }
      }
    } else {
      UnreadWindowPermits(doc, w, 1);
      assert !WindowKept(Runs.OnlyCap(w, 1), Runs.Pay(1), doc, 0, w, NATIVE);
    }
  }
}
