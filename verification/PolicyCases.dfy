/** What a policy's other clauses come to on spelled-out inputs: names in every spelling,
    counts, hours, votes, freezes and locks, and the usage document. */
module PolicyCases {
  import opened Common
  import opened Json
  import opened Policy
  import opened Evaluation
  import opened OperationCases
  import Fences
  import Runs
  import Metering

  // ---------------------------------------------------------------------------
  // Names in every spelling
  // ---------------------------------------------------------------------------

  /** Unicode white space, by code point. */
  predicate Blank(c: char) {
    var n := c as int;
    || 0x09 <= n <= 0x0D || n == 0x20 || n == 0x85 || n == 0xA0 || n == 0x1680 || 0x2000 <= n <= 0x200A
    || n == 0x2028 || n == 0x2029 || n == 0x202F || n == 0x205F || n == 0x3000
  }

  predicate AllBlank(s: string) {
    forall i :: 0 <= i < |s| ==> Blank(s[i])
  }

  /** The letters of `word`, each in either case. */
  predicate Spells(s: string, word: string) {
    |s| == |word| && forall i :: 0 <= i < |s| ==> SameLetter(s[i], word[i])
  }

  predicate PadsTo(s: string, pre: string, mid: string, post: string, word: string) {
    s == pre + mid + post && AllBlank(pre) && AllBlank(post) && Spells(mid, word)
  }

  /** `word` in any case, with any blanks around it. */
  ghost predicate Names(s: string, word: string) {
    exists pre, mid, post :: PadsTo(s, pre, mid, post, word)
  }

  lemma {:induction false} StartTrimmed(s: string) returns (pre: string)
    ensures s == pre + TrimStart(s) && AllBlank(pre)
  {
    if s != "" && IsSpace(s[0]) {
      var rest := StartTrimmed(s[1..]);
      pre := [s[0]] + rest;
    } else {
      pre := "";
    }
  }

  lemma {:induction false} EndTrimmed(s: string) returns (post: string)
    ensures s == TrimEnd(s) + post && AllBlank(post)
  {
    if s != "" && IsSpace(s[|s| - 1]) {
      var rest := EndTrimmed(s[..|s| - 1]);
      post := rest + [s[|s| - 1]];
    } else {
      post := "";
    }
  }

  lemma {:induction false} BlanksGo(pre: string, s: string)
    requires AllBlank(pre) && s != "" && !Blank(s[0])
    ensures TrimStart(pre + s) == s
  {
    if pre == "" {
      assert pre + s == s;
    } else {
      assert (pre + s)[1..] == pre[1..] + s;
      BlanksGo(pre[1..], s);
    }
  }

  lemma {:induction false} TrailingBlanksGo(s: string, post: string)
    requires AllBlank(post) && s != "" && !Blank(s[|s| - 1])
    ensures TrimEnd(s + post) == s
  {
    if post == "" {
      assert s + post == s;
    } else {
      assert (s + post)[..|s + post| - 1] == s + post[..|post| - 1];
      TrailingBlanksGo(s, post[..|post| - 1]);
    }
  }

  /** A word of small letters, digits and dots. */
  predicate Plain(word: string) {
    word != "" && forall i :: 0 <= i < |word| ==> 'a' <= word[i] <= 'z' || word[i] == '.'
  }

  lemma SpellingIsLowered(s: string, word: string)
    requires Plain(word)
    ensures Lower(s) == word <==> Spells(s, word)
  {
    assert Lower(word) == word;
    if |s| == |word| {
      LowerLetters(s, word);
    }
  }

  lemma NamesExactly(s: string, word: string)
    requires Plain(word)
    ensures Lower(Trim(s)) == word <==> Names(s, word)
  {
    hide TrimStart, TrimEnd, Lower, Blank;
    SpellingIsLowered(Trim(s), word);
    if Lower(Trim(s)) == word {
      var pre := StartTrimmed(s);
      var post := EndTrimmed(TrimStart(s));
      assert s == pre + Trim(s) + post;
      assert PadsTo(s, pre, Trim(s), post, word);
    }
    if pre, mid, post :| PadsTo(s, pre, mid, post, word) {
      EndsShow(mid, word);
      assert s == pre + (mid + post);
      assert (mid + post)[0] == mid[0];
      BlanksGo(pre, mid + post);
      TrailingBlanksGo(mid, post);
    }
  }

  lemma EndsShow(mid: string, word: string)
    requires Plain(word) && Spells(mid, word)
    ensures mid != "" && !Blank(mid[0]) && !Blank(mid[|mid| - 1])
  {
  }

  /** Near is near in any case and with any blanks around it, and nothing else is. */
  lemma NearIsNamed(chain: string)
    ensures NamesNear(chain) <==> Names(chain, "near")
  {
    hide Lower, Trim, Names;
    NamesExactly(chain, "near");
  }

  lemma BareNearIsNear(chain: string)
    ensures Lower(chain) == "near" ==> NamesNear(chain)
  {
    hide Lower, Trim;
    SpellingIsLowered(chain, "near");
    NearIsNamed(chain);
    assert chain == "" + chain + "";
    assert Spells(chain, "near") ==> PadsTo(chain, "", chain, "", "near");
  }

  /** The intents contracts are these two, in any case and with any blanks around them. */
  lemma IntentsAreNamed(account: string)
    ensures IsIntentsContract(account) <==> Names(account, "intents.near") || Names(account, "intents.far")
  {
    hide Lower, Trim, Names;
    NamesExactly(account, "intents.near");
    NamesExactly(account, "intents.far");
  }

  /** A permitted call to an intents contract, under any spelling of either and any method but
      the one that only deposits, was opened by name. */
  lemma IntentsCallsAreOpened(policy: Policy, to: string, name: string, body: CallBody, gas: string, deposit: string,
                              usage: Option<Usage>, now: nat)
    requires Names(to, "intents.near") || Names(to, "intents.far")
    requires name != "cross_chain_deposit"
    requires Evaluate(policy, Call(to, name, body, gas, deposit), usage, now).Permits()
    ensures policy.capabilities.Some? && policy.capabilities.value.intentsCall.Some?
    ensures policy.capabilities.value.intentsCall.value.allowed == Some(true)
  {
    hide Evaluate, IsIntentsContract, Names;
    IntentsAreNamed(to);
    Fences.IntentsFenceHolds(policy, Call(to, name, body, gas, deposit), usage, now);
  }

  const NOTHING_SAID := Policy(false, None, None, None)

  /** Without a word from the owner every other call is allowed. */
  lemma OtherCallsAreOpen(to: string, name: string, body: CallBody, gas: string, deposit: string, usage: Option<Usage>,
                          now: nat)
    requires name != "w_execute_extension" && ParseU128(deposit).Some?
    requires name == "cross_chain_deposit" || !(Names(to, "intents.near") || Names(to, "intents.far"))
    ensures Evaluate(NOTHING_SAID, Call(to, name, body, gas, deposit), usage, now) == Allow
  {
    hide IsIntentsContract, Names, ParseU128, NormalizeType;
    IntentsAreNamed(to);
  }

  // ---------------------------------------------------------------------------
  // Counts and hours
  // ---------------------------------------------------------------------------

  /** Both places for an hourly cap bind; without counters neither does. */
  lemma CountsDecide(a: Option<int>, b: Option<int>, op: Op, usage: Option<Usage>, now: nat)
    requires Ordinary(op)
    ensures
      var limits := Limits(None, None, None, None, a);
      Evaluate(Under(NO_RULES.(limits := Some(limits), maxPerHour := b)), op, usage, now) == Allow <==>
        && (usage.Some? && a.Some? ==> !usage.value.allUnreadable && usage.value.hourlyTxCount < a.value)
        && (usage.Some? && b.Some? ==> !usage.value.allUnreadable && usage.value.hourlyTxCount < b.value)
  {
    hide Evaluate, FactsOf, ParseU128, Op.Amount, Op.Token;
    FactsAre(op);
    UnderRules(NO_RULES.(limits := Some(Limits(None, None, None, None, a)), maxPerHour := b), op, usage, now);
  }

  /** The hour of the day and the day of the week, Monday first; the first day of 1970 was a
      Thursday. */
  predicate InTime(t: TimeRestrictions, now: nat) {
    && (t.timezone.None? || t.timezone.value == "UTC")
    && (t.allowedHours.Some? ==>
          && |t.allowedHours.value| == 2
          && var from, to, hour := t.allowedHours.value[0], t.allowedHours.value[1], now / 3600 % 24;
             && from < 24 && to < 24
             && (if from <= to then from <= hour < to else from <= hour || hour < to))
    && (t.allowedDays.Some? ==>
          exists d :: d in t.allowedDays.value && 1 <= d <= 7 && (now / 86400 + 4) % 7 == d % 7)
  }

  lemma HourOfDay(now: nat)
    ensures now % 86_400 / 3_600 == now / 3600 % 24
  {
    var q, r := now / 86400, now % 86400;
    assert now == 3600 * (24 * q + r / 3600) + r % 3600;
    assert now / 3600 == 24 * q + r / 3600;
  }

  lemma HoursDecide(t: TimeRestrictions, now: nat)
    ensures TimeRefuses(t, now) <==> !InTime(t, now)
  {
    HourOfDay(now);
    var weekday := (now / 86_400 + 3) % 7 + 1;
    assert 1 <= weekday <= 7 && (now / 86400 + 4) % 7 == weekday % 7;
    if t.allowedDays.Some? {
      forall d | d in t.allowedDays.value && 1 <= d <= 7 && (now / 86400 + 4) % 7 == d % 7
        ensures d == weekday
      {
      }
    }
  }

  /** Time restrictions let through exactly what falls in their hours and days. */
  lemma TimeDecides(t: TimeRestrictions, op: Op, usage: Option<Usage>, now: nat)
    requires Ordinary(op)
    ensures Evaluate(Under(NO_RULES.(timeRestrictions := Some(t))), op, usage, now) == Allow <==> InTime(t, now)
  {
    hide FactsOf, ParseU128, Op.Amount, CheckCapabilities, TimeRefuses, InTime, NamesNear, Op.TypeAliases;
    HoursDecide(t, now);
    AllOn(op);
    FactsAre(op);
  }

  // ---------------------------------------------------------------------------
  // Votes, freezes and locks
  // ---------------------------------------------------------------------------

  function Wanted(threshold: Threshold): int {
    match threshold
    case Number(n) => n
    case Object(Some(n)) => n
    case Object(None) => 2
  }

  /** A threshold makes the kinds that move funds wait for that many votes, two when it does not
      say, unless one of their own names is excluded. */
  lemma VotesDecide(approval: Approval, op: Op, usage: Option<Usage>, now: nat)
    requires Ordinary(op)
    ensures
      var names := if op.Call? then {"call"} else FactsOf(op).names;
      var excluded := approval.excludedTypes.Some? && exists s :: s in approval.excludedTypes.value && s in names;
      Evaluate(Under(NO_RULES).(approval := Some(approval)), op, usage, now)
      == if FactsOf(op).votes && approval.threshold.Some? && !excluded then RequiresApproval(Wanted(approval.threshold.value))
         else Allow
  {
    hide FactsOf, ParseU128, Op.Amount, CheckCapabilities, NamesNear, Op.TypeAliases, Lower;
    FactsAre(op);
    NamesAre(op);
    AllOnVoting(approval, op);
    ExcludedAre(approval, op);
    if op.Raw? {
      BareNearIsNear(op.chain);
    }
  }

  lemma ExcludedAre(approval: Approval, op: Op)
    ensures
      var names := if op.Call? then {"call"} else FactsOf(op).names;
      Excluded(approval, op) <==>
        approval.excludedTypes.Some? && exists s :: s in approval.excludedTypes.value && s in names
  {
    hide FactsOf;
    NamesAre(op);
    if s :| approval.excludedTypes.Some? && s in approval.excludedTypes.value && s in op.TypeAliases() {
      var i :| 0 <= i < |op.TypeAliases()| && op.TypeAliases()[i] == s;
    }
  }

  lemma AllOnVoting(approval: Approval, op: Op)
    requires Ordinary(op)
    ensures CheckCapabilities(Under(NO_RULES).capabilities, Some(approval), op).None?
  {
    hide NamesNear, ReachesIntents, ParseU128;
  }

  /** A capability that asks for votes makes its operation wait for them; one that says nothing
      of votes does not. */
  lemma CapabilityAsksVotes(asks: Option<bool>, k: int, hash: string)
    ensures
      var caps := Capabilities(Some(Capability(Some(true), asks, Some(["ethereum"]))), None, None, None, None, None, None, None);
      var approval := Approval(Some(Number(k)), None, None, None);
      Evaluate(Policy(false, None, Some(approval), Some(caps)), Raw("ethereum", hash), None, 0)
      == if asks == Some(true) then RequiresApproval(k) else Allow
  {
    assert ["ethereum"][0] == "ethereum";
  }

  /** A frozen wallet signs nothing but the login that cancels a resting order. */
  lemma FrozenSignsNothing(policy: Policy, op: Op, usage: Option<Usage>, now: nat)
    requires policy.frozen
    ensures Evaluate(policy, op, usage, now).Permits() <==> exists seed :: op == Auth("jwt", seed)
  {
  }

  /** An identity proof of a wallet that is not frozen is always signed, a policy update never. */
  lemma ProofsAndUpdates(policy: Policy, purpose: string, seed: string, key: string, hash: string, version: u64, locked: bool,
                         caller: string, usage: Option<Usage>, now: nat)
    ensures !policy.frozen ==> Evaluate(policy, Auth(purpose, seed), usage, now) == Allow
    ensures !Evaluate(policy, PolicyUpdate(key, hash, version, locked, caller), usage, now).Permits()
  {
  }

  /** A locked policy refuses raw signing on near in any case, whatever else it says. */
  lemma LockedNearIsRefused(policy: Policy, chain: string, hash: string, usage: Option<Usage>, now: nat)
    requires policy.approval.Some? && policy.approval.value.locked == Some(true) && Spells(chain, "near")
    ensures Evaluate(policy, Raw(chain, hash), usage, now) == Deny(LockedNear)
  {
    hide StandardStage, TailStage, ExtensionStage, Lower;
    SpellingIsLowered(chain, "near");
  }

  /** A policy that does not say it is locked is not: it is stored as it is, and signs raw on a
      chain it lists, near included. */
  lemma UnsaidIsUnlocked(approval: Option<Approval>, chain: string, hash: string)
    requires approval.Some? ==> approval.value.locked != Some(true)
    ensures
      var caps := Capabilities(Some(Capability(Some(true), None, Some([chain]))), None, None, None, None, None, None, None);
      var policy := Policy(false, None, approval, Some(caps));
      Fences.LockVerdict(policy).Ok? && Evaluate(policy, Raw(chain, hash), None, 0) == Allow
  {
    hide Lower, NamesNear;
    assert [chain][0] == chain;
  }

  /** A locked policy is accepted exactly when raw signing lists no spelling of near or is off,
      and its threshold is between one and the number of distinct ids, blanks around them
      apart. */
  lemma LocksAccepted(capability: Option<Capability>, threshold: Option<Threshold>, ids: seq<string>)
    ensures
      var approvers := seq(|ids|, i requires 0 <= i < |ids| => Approver(Some(ids[i]), None));
      var caps := Capabilities(capability, None, None, None, None, None, None, None);
      var policy := Policy(false, None, Some(Approval(threshold, Some(approvers), Some(true), None)), Some(caps));
      var trimmed := set id | id in ids && Trim(id) != "" :: Trim(id);
      Fences.LockVerdict(policy).Ok? <==>
        && !(capability.Some? && capability.value.allowed == Some(true) && capability.value.chains.Some?
             && exists c :: c in capability.value.chains.value && Names(c, "near"))
        && threshold.Some? && 1 <= Wanted(threshold.value) <= |trimmed|
  {
    hide Trim, NamesNear, Names;
    var approvers := seq(|ids|, i requires 0 <= i < |ids| => Approver(Some(ids[i]), None));
    var caps := Capabilities(capability, None, None, None, None, None, None, None);
    var policy := Policy(false, None, Some(Approval(threshold, Some(approvers), Some(true), None)), Some(caps));
    Fences.LockExactly(policy);
    IdsAre(policy, ids);
    forall c
      ensures NamesNear(c) <==> Names(c, "near")
    {
      NearIsNamed(c);
    }
    if capability.Some? && capability.value.chains.Some? {
      var chains := capability.value.chains.value;
      assert (exists i :: 0 <= i < |chains| && NamesNear(chains[i])) <==> exists c :: c in chains && Names(c, "near") by {
        if c :| c in chains && Names(c, "near") {
          var i :| 0 <= i < |chains| && chains[i] == c;
        }
        if i :| 0 <= i < |chains| && NamesNear(chains[i]) {
          assert chains[i] in chains;
        }
      }
    }
  }

  lemma IdsAre(policy: Policy, ids: seq<string>)
    requires policy.approval.Some?
    requires policy.approval.value.approvers == Some(seq(|ids|, i requires 0 <= i < |ids| => Approver(Some(ids[i]), None)))
    ensures Fences.NamedIds(policy) == set id | id in ids && Trim(id) != "" :: Trim(id)
  {
    hide Trim;
    var approvers := policy.approval.value.approvers.value;
    forall id | id in ids
      ensures Approver(Some(id), None) in approvers
    {
      var i :| 0 <= i < |ids| && ids[i] == id;
      assert approvers[i] == Approver(Some(id), None);
    }
  }

  // ---------------------------------------------------------------------------
  // The usage document
  // ---------------------------------------------------------------------------

  /** What a window's object stores for a token: an amount is its counter, anything else makes
      the counter unreadable under the window's own name. */
  ghost predicate ReadsInto(stored: seq<Entry>, token: string, counters: map<string, u128>, name: string, unreadable: set<string>) {
    && (Lacks(stored, token) ==> token !in counters && name !in unreadable)
    && (forall x, n: u128 :: Once(stored, token, Str(x)) && ParseU128(x) == Some(n) ==>
          token in counters && counters[token] == n && name !in unreadable)
    && (forall v :: Once(stored, token, v) && (v.Str? ==> ParseU128(v.s).None?) ==> name in unreadable)
  }

  lemma ReadOne(entries: seq<Entry>, w: Window, stored: seq<Entry>, token: string)
    requires Metering.WellFormed(Obj(entries)) && Once(entries, w.Key(), Obj(stored))
    ensures ReadsInto(stored, token, UsageFrom(Obj(entries)).Counters(w), w.Key() + ":" + token,
                      UsageFrom(Obj(entries)).unreadable)
    ensures !UsageFrom(Obj(entries)).allUnreadable
  {
    hide ParseU128, UsageFrom, Metering.WellFormed, Occurrences, Once, Lacks;
    var doc := Obj(entries);
    OnceReads(entries, w.Key(), Obj(stored));
    NamedOne(doc, w);
    Metering.CounterIsStored(doc, w, token);
    LackingReads(stored, token);
    forall v | Once(stored, token, v)
      ensures Lookup(stored, token) == Some(v)
    {
      OnceReads(stored, token, v);
    }
    CountersHold(doc, w, token);
  }

  lemma NamedOne(doc: Value, w: Window)
    requires Get(doc, w.Key()).Some?
    ensures Metering.NamesAWindow(doc)
  {
  }

  lemma CountersHold(doc: Value, w: Window, token: string)
    requires Metering.WellFormed(doc) && Metering.NamesAWindow(doc)
    ensures token in UsageFrom(doc).Counters(w) <==>
      Metering.Stored(doc, w, token).Some? && EntryAmount(Metering.Stored(doc, w, token).value).Some?
  {
    hide EntryAmount, WindowEntries, ReadCounters, UnreadCounters, TxCount, Lookup;
    var entries := WindowEntries(doc, w);
    assert DistinctKeys(entries);
    Metering.LookupIn(entries, token);
    Metering.CountersRead(entries, |entries|, token);
  }

  /** The document's "daily", "hourly" and "monthly" objects become the daily, hourly and monthly
      counters. */
  lemma DocumentReads(entries: seq<Entry>, stored: seq<Entry>, token: string)
    requires Metering.WellFormed(Obj(entries))
    ensures
      var usage := UsageFrom(Obj(entries));
      && (Once(entries, "daily", Obj(stored)) ==> ReadsInto(stored, token, usage.daily, "daily:" + token, usage.unreadable))
      && (Once(entries, "hourly", Obj(stored)) ==> ReadsInto(stored, token, usage.hourly, "hourly:" + token, usage.unreadable))
      && (Once(entries, "monthly", Obj(stored)) ==>
            ReadsInto(stored, token, usage.monthly, "monthly:" + token, usage.unreadable))
      && (usage.allUnreadable <==> Lacks(entries, "daily") && Lacks(entries, "hourly") && Lacks(entries, "monthly"))
  {
    hide ParseU128, UsageFrom, Metering.WellFormed, Lookup, Occurrences, ReadsInto, Once, Lacks;
    assert "daily" + ":" + token == "daily:" + token;
    assert "hourly" + ":" + token == "hourly:" + token;
    assert "monthly" + ":" + token == "monthly:" + token;
    if Once(entries, "daily", Obj(stored)) {
      ReadOne(entries, Daily, stored, token);
    }
    if Once(entries, "hourly", Obj(stored)) {
      ReadOne(entries, Hourly, stored, token);
    }
    if Once(entries, "monthly", Obj(stored)) {
      ReadOne(entries, Monthly, stored, token);
    }
    Metering.CounterIsStored(Obj(entries), Daily, token);
    LackingReads(entries, "daily");
    LackingReads(entries, "hourly");
    LackingReads(entries, "monthly");
  }
}
