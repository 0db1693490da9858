/** A charging pass that also writes token spend back between promises, as the leased
    account's stored meters do, against the verdict, which compares each move on its own. */
module Ledger {
  import opened Common
  import opened Request
  import opened Hos
  import opened Violations
  import opened Charging
  import opened Payments
  import opened Refinement
  import Effects

  /** The promise is one readable `ft_transfer`. */
  predicate PaysFungible(p: NearPromise) {
    && |p.actions| == 1 && p.actions[0].Call? && p.actions[0].fc.methodName == "ft_transfer"
    && ReadFt(p.actions[0].fc.args).Some? && ParseU128(ReadFt(p.actions[0].fc.args).value.amount).Some?
  }

  function UnitsPaid(p: NearPromise): u128
    requires PaysFungible(p)
  {
    ParseU128(ReadFt(p.actions[0].fc.args).value.amount).value
  }

  /** The grant after a charged promise: its token's meter moved on. */
  function Debited(g: SpendGrant, p: NearPromise): SpendGrant {
    if PaysFungible(p) && p.receiver in g.tokens then
      var b := g.tokens[p.receiver];
      g.(tokens := g.tokens[p.receiver :=
        TokenBudget(b.budget, ToDecimal(SatAdd(ParseOr(b.spent, U128_MAX), UnitsPaid(p))))])
    else g
  }

  /** `ChargeFrom` with the token meters written back as well. */
  function ChargeWriting(g: SpendGrant, own: Option<string>, ps: seq<NearPromise>, i: nat, left: nat): Outcome
    requires i <= |ps|
    decreases |ps| - i
  {
    if i == |ps| then Accepted
    else match ChargePromise(g, own, left, ps[i])
      case Tripped(why) => Refused(Some(i), why)
      case Charged(rest) => ChargeWriting(Debited(g, ps[i]), own, ps, i + 1, rest)
  }

  /** The whole pass with token meters written back. */
  function WritingRequest(status: AgentStatusView, nowNs: u64, own: Option<string>, balance: Option<u128>, req: Request)
    : Outcome
  {
    match DoorRefusal(status, nowNs)
    case Some(rule) => Refused(None, Plain(rule))
    case None =>
      var g := ReadGrant(status.grant.value).value;
      ThenReserve(ChargeWriting(g, own, req.external, 0, Remaining(g)), status, balance, req)
  }

  // ---------------------------------------------------------------------------
  // What a run of payments leaves of the meters
  // ---------------------------------------------------------------------------

  /** The units of `token` the first `n` promises pay. */
  function Paid(ps: seq<NearPromise>, n: nat, token: string): nat
    requires n <= |ps|
  {
    if n == 0 then 0
    else Paid(ps, n - 1, token)
         + (if PaysFungible(ps[n - 1]) && ps[n - 1].receiver == token then UnitsPaid(ps[n - 1]) else 0)
  }

  /** What the first `n` promises pay in all is left of every granted token. */
  predicate WithinMeters(g: SpendGrant, ps: seq<NearPromise>, n: nat)
    requires n <= |ps|
  {
    forall t :: t in g.tokens ==> Paid(ps, n, t) <= TokenRemaining(g.tokens[t])
  }

  /** Promise `j` is the first whose payment passes a meter together with those before it. */
  predicate OverrunAt(g: SpendGrant, ps: seq<NearPromise>, j: nat) {
    j < |ps| && WithinMeters(g, ps, j) && !WithinMeters(g, ps, j + 1)
  }

  lemma {:induction false} PaidGrows(ps: seq<NearPromise>, m: nat, n: nat, token: string)
    requires m <= n <= |ps|
    ensures Paid(ps, m, token) <= Paid(ps, n, token)
  {
    hide PaysFungible, UnitsPaid;
    if m < n {
      PaidGrows(ps, m, n - 1, token);
    }
  }

  lemma MetersGrow(g: SpendGrant, ps: seq<NearPromise>, m: nat, n: nat)
    requires m <= n <= |ps| && WithinMeters(g, ps, n)
    ensures WithinMeters(g, ps, m)
  {
    hide Paid, TokenRemaining;
    forall t | t in g.tokens
      ensures Paid(ps, m, t) <= TokenRemaining(g.tokens[t])
    {
      PaidGrows(ps, m, n, t);
    }
  }

  /** `h` is `g` with what the first `n` promises pay taken off its meters. */
  predicate Tracks(g: SpendGrant, h: SpendGrant, ps: seq<NearPromise>, n: nat)
    requires n <= |ps|
  {
    && h.receivers == g.receivers && h.items == g.items && h.tokens.Keys == g.tokens.Keys
    && forall t :: t in g.tokens ==>
         Paid(ps, n, t) + TokenRemaining(h.tokens[t]) == TokenRemaining(g.tokens[t])
  }

  /** Charging a promise under moved meters: only a token payment can come out otherwise,
      and only by finding too little left. */
  lemma MovedMeters(g: SpendGrant, h: SpendGrant, ps: seq<NearPromise>, n: nat, own: Option<string>, left: nat,
                    p: NearPromise)
    requires n <= |ps| && Tracks(g, h, ps, n)
    ensures
      ChargePromise(h, own, left, p)
      == if ChargePromise(g, own, left, p).Charged? && PaysFungible(p) && p.receiver in g.tokens
            && UnitsPaid(p) > TokenRemaining(h.tokens[p.receiver])
         then Tripped(Plain(TokenBudgetExceeded)) else ChargePromise(g, own, left, p)
  {
    hide TokenRemaining, ReadFt, ReadNft, UnknownFields, ParseU128, PromiseNative, Paid;
    if HasCall(p) && |p.actions| == 1 {
      assert p.actions[0].Call?;
    }
    if PaysFungible(p) {
      assert HasCall(p);
    }
  }

  /** A charged token payment was granted and fits the meter; it leaves the rest. */
  lemma DebitLeaves(g: SpendGrant, own: Option<string>, left: nat, p: NearPromise)
    requires ChargePromise(g, own, left, p).Charged? && PaysFungible(p)
    ensures p.receiver in g.tokens && UnitsPaid(p) <= TokenRemaining(g.tokens[p.receiver])
    ensures g.receivers != [] && own != Some(p.receiver)
    ensures TokenRemaining(Debited(g, p).tokens[p.receiver])
         == TokenRemaining(g.tokens[p.receiver]) - UnitsPaid(p)
  {
    hide ToDecimal, ReadFt, UnknownFields, ParseU128, ReadNft;
    assert HasCall(p);
    var b := g.tokens[p.receiver];
    DecimalRoundTrip(SatAdd(ParseOr(b.spent, U128_MAX), UnitsPaid(p)));
  }

  lemma DebitTracks(g: SpendGrant, h: SpendGrant, ps: seq<NearPromise>, i: nat, own: Option<string>, left: nat)
    requires i < |ps| && Tracks(g, h, ps, i) && ChargePromise(h, own, left, ps[i]).Charged?
    ensures Tracks(g, Debited(h, ps[i]), ps, i + 1)
  {
    hide TokenRemaining, ChargePromise, ToDecimal;
    if PaysFungible(ps[i]) {
      DebitLeaves(h, own, left, ps[i]);
    }
  }

  /** The promises ahead of the one named. */
  function Before(at: Option<nat>, n: nat): nat {
    if at.Some? && at.value < n then at.value else n
  }

  function StoppedAt(outcome: Outcome): Option<nat> {
    if outcome.Refused? then outcome.at else None
  }

  /** The writing pass stopped short of promise `stop`, at the first payment to pass a meter. */
  predicate StopsShort(g: SpendGrant, ps: seq<NearPromise>, stop: nat, writing: Outcome) {
    && writing.Refused? && writing.at.Some? && writing.at.value < stop
    && OverrunAt(g, ps, writing.at.value)
    && writing.why == Plain(TokenBudgetExceeded)
  }

  /** One outcome when all the payments that are charged fit the meters together, otherwise
      the writing pass stops short, at the first that does not. */
  predicate WritesLike(g: SpendGrant, ps: seq<NearPromise>, charged: Outcome, writing: Outcome) {
    var stop := Before(StoppedAt(charged), |ps|);
    if WithinMeters(g, ps, stop) then writing == charged else StopsShort(g, ps, stop, writing)
  }

  predicate StopsFrom(ps: seq<NearPromise>, i: nat, charged: Outcome) {
    charged.Refused? ==> charged.at.Some? && i <= charged.at.value < |ps|
  }

  /** Both passes from promise `i` on, the meters moved by the promises before it. */
  lemma {:induction false} WritingPass(g: SpendGrant, h: SpendGrant, own: Option<string>, ps: seq<NearPromise>, i: nat,
                                       left: nat)
    requires i <= |ps| && Tracks(g, h, ps, i) && WithinMeters(g, ps, i)
    ensures WritesLike(g, ps, ChargeFrom(g, own, ps, i, left), ChargeWriting(h, own, ps, i, left))
    decreases |ps| - i
  {
    hide Tracks, PaysFungible, ChargePromise, Debited, WithinMeters, UnitsPaid;
    if i < |ps| {
      match ChargePromise(g, own, left, ps[i]) {
        case Tripped(_) =>
          MovedMeters(g, h, ps, i, own, left, ps[i]);
        case Charged(rest) =>
          OverrunHere(g, h, own, ps, i, left);
          if WithinMeters(g, ps, i + 1) {
            DebitTracks(g, h, ps, i, own, left);
            WritingPass(g, Debited(h, ps[i]), own, ps, i + 1, rest);
          } else {
            StopsLater(g, own, ps, i + 1, rest);
            var stop := Before(StoppedAt(ChargeFrom(g, own, ps, i + 1, rest)), |ps|);
            if WithinMeters(g, ps, stop) {
              MetersGrow(g, ps, i + 1, stop);
            }
          }
      }
    }
  }

  /** Under moved meters a payment is charged exactly when it still fits them. */
  lemma OverrunHere(g: SpendGrant, h: SpendGrant, own: Option<string>, ps: seq<NearPromise>, i: nat, left: nat)
    requires i < |ps| && Tracks(g, h, ps, i) && WithinMeters(g, ps, i) && ChargePromise(g, own, left, ps[i]).Charged?
    ensures ChargePromise(h, own, left, ps[i])
         == if WithinMeters(g, ps, i + 1) then ChargePromise(g, own, left, ps[i])
            else Tripped(Plain(TokenBudgetExceeded))
  {
    hide TokenRemaining, ChargePromise, Debited, PaysFungible, UnitsPaid;
    MovedMeters(g, h, ps, i, own, left, ps[i]);
    if PaysFungible(ps[i]) {
      DebitLeaves(g, own, left, ps[i]);
    }
  }

  lemma {:induction false} StopsLater(g: SpendGrant, own: Option<string>, ps: seq<NearPromise>, i: nat, left: nat)
    requires i <= |ps|
    ensures StopsFrom(ps, i, ChargeFrom(g, own, ps, i, left))
    decreases |ps| - i
  {
    hide ChargePromise;
    if i < |ps| && ChargePromise(g, own, left, ps[i]).Charged? {
      StopsLater(g, own, ps, i + 1, ChargePromise(g, own, left, ps[i]).left);
    }
  }

  // ---------------------------------------------------------------------------
  // The verdict against the writing pass
  // ---------------------------------------------------------------------------

  function FirstPlace(verdict: seq<Violation>): Option<nat> {
    if verdict == [] then None else verdict[0].promiseIndex
  }

  /** Behind an open door: what is paid ahead of the place the verdict names first, all of
      it taken together, is left of every granted token. */
  predicate MetersHold(status: AgentStatusView, nowNs: u64, req: Request, verdict: seq<Violation>) {
    DoorRefusal(status, nowNs).None? ==>
      WithinMeters(ReadGrant(status.grant.value).value, req.external, Before(FirstPlace(verdict), |req.external|))
  }

  /** For every request: the verdict's first violation is also what the pass with
      written-back token meters stops at exactly when the native meter suffices and the
      payments ahead of it fit the token meters together; when only those do not fit, that
      pass stops at the first that does not. */
  lemma WritingPassExactly(status: AgentStatusView, nowNs: u64, own: Option<string>, balance: Option<u128>,
                           req: Request, size: nat)
    requires |req.external| <= ISIZE_MAX
    ensures
      var verdict := Preflight(status, nowNs, own, balance, Effects.EffectsOf(req, size));
      var outcome := WritingRequest(status, nowNs, own, balance, req);
      && (Reports(verdict, outcome) <==>
            MeterSuffices(status, nowNs, own, balance, req) && MetersHold(status, nowNs, req, verdict))
      && (MeterSuffices(status, nowNs, own, balance, req) && !MetersHold(status, nowNs, req, verdict) ==>
            StopsShort(ReadGrant(status.grant.value).value, req.external, Before(FirstPlace(verdict), |req.external|),
                       outcome))
  {
    hide Preflight, Metered, ReadGrant, ChargeFrom, ChargeWriting, Remaining, Effects.EffectsOf, WithinMeters, OverrunAt,
         PromiseRefusal;
    AgreesExactly(status, nowNs, own, balance, req, size);
    if DoorRefusal(status, nowNs).None? {
      var g := ReadGrant(status.grant.value).value;
      NothingPaidYet(g, req.external);
      StopsLater(g, own, req.external, 0, Remaining(g));
      WritingPass(g, g, own, req.external, 0, Remaining(g));
      if !MeterSuffices(status, nowNs, own, balance, req) {
        var verdict := Preflight(status, nowNs, own, balance, Effects.EffectsOf(req, size));
        NothingExhausted(status, nowNs, own, balance, req, size);
        if Reports(verdict, WritingRequest(status, nowNs, own, balance, req)) {
          ChargedIsUnrefused(g, own, req.external, 0, Remaining(g), verdict[0].promiseIndex.value, verdict[0]);
        }
      }
    }
  }

  lemma NothingPaidYet(g: SpendGrant, ps: seq<NearPromise>)
    ensures Tracks(g, g, ps, 0) && WithinMeters(g, ps, 0)
  {
  }

  // ---------------------------------------------------------------------------
  // When no payment can pass a meter
  // ---------------------------------------------------------------------------

  /** No token is paid by two promises. */
  predicate PaidOnce(ps: seq<NearPromise>) {
    forall i, j :: 0 <= i < j < |ps| && PaysFungible(ps[i]) && PaysFungible(ps[j]) ==> ps[i].receiver != ps[j].receiver
  }

  /** No token payment the pass would charge can move a meter. */
  predicate NothingToMeter(g: SpendGrant, own: Option<string>) {
    || g.receivers == []
    || forall t :: t in g.tokens ==> TokenRemaining(g.tokens[t]) == 0 || own == Some(t)
  }

  lemma {:induction false} NotPaidBefore(ps: seq<NearPromise>, n: nat, i: nat)
    requires n <= i < |ps| && PaidOnce(ps) && PaysFungible(ps[i])
    ensures Paid(ps, n, ps[i].receiver) == 0
  {
    hide PaysFungible, UnitsPaid;
    if n > 0 {
      NotPaidBefore(ps, n - 1, i);
    }
  }

  lemma PaymentFits(g: SpendGrant, own: Option<string>, ps: seq<NearPromise>, i: nat, left: nat)
    requires i < |ps| && WithinMeters(g, ps, i) && ChargePromise(g, own, left, ps[i]).Charged?
    requires PaidOnce(ps) || NothingToMeter(g, own)
    ensures WithinMeters(g, ps, i + 1)
  {
    hide TokenRemaining, ChargePromise, Debited, PaysFungible, UnitsPaid, PaidOnce;
    if PaysFungible(ps[i]) {
      DebitLeaves(g, own, left, ps[i]);
      if PaidOnce(ps) {
        NotPaidBefore(ps, i, i);
      }
    }
  }

  lemma {:induction false} PaymentsFit(g: SpendGrant, own: Option<string>, ps: seq<NearPromise>, i: nat, left: nat)
    requires i <= |ps| && WithinMeters(g, ps, i) && (PaidOnce(ps) || NothingToMeter(g, own))
    ensures WithinMeters(g, ps, Before(StoppedAt(ChargeFrom(g, own, ps, i, left)), |ps|))
    decreases |ps| - i
  {
    hide ChargePromise, WithinMeters, PaidOnce, NothingToMeter;
    if i < |ps| && ChargePromise(g, own, left, ps[i]).Charged? {
      PaymentFits(g, own, ps, i, left);
      PaymentsFit(g, own, ps, i + 1, ChargePromise(g, own, left, ps[i]).left);
    }
  }

  /** On requests that pay each token once, and on requests whose token payments all fit
      their meters together, verdict and writing pass agree. */
  lemma VerdictIsTheWritingPass(status: AgentStatusView, nowNs: u64, own: Option<string>, balance: Option<u128>,
                                req: Request, size: nat)
    requires MeterSuffices(status, nowNs, own, balance, req) && |req.external| <= ISIZE_MAX
    requires DoorRefusal(status, nowNs).None? ==>
      var g := ReadGrant(status.grant.value).value;
      PaidOnce(req.external) || NothingToMeter(g, own) || WithinMeters(g, req.external, |req.external|)
    ensures Reports(Preflight(status, nowNs, own, balance, Effects.EffectsOf(req, size)),
                    WritingRequest(status, nowNs, own, balance, req))
  {
    hide Preflight, Metered, ReadGrant, ChargeFrom, Remaining, Effects.EffectsOf, WithinMeters, WritingRequest,
         PaidOnce, NothingToMeter;
    var verdict := Preflight(status, nowNs, own, balance, Effects.EffectsOf(req, size));
    WritingPassExactly(status, nowNs, own, balance, req, size);
    VerdictIsTheChargingPass(status, nowNs, own, balance, req, size);
    if DoorRefusal(status, nowNs).None? {
      var g := ReadGrant(status.grant.value).value;
      NothingPaidYet(g, req.external);
      StopsLater(g, own, req.external, 0, Remaining(g));
      if PaidOnce(req.external) || NothingToMeter(g, own) {
        PaymentsFit(g, own, req.external, 0, Remaining(g));
      } else {
        MetersGrow(g, req.external, Before(FirstPlace(verdict), |req.external|), |req.external|);
      }
    }
  }

  // ---------------------------------------------------------------------------
  // When paying twice is told apart
  // ---------------------------------------------------------------------------

  lemma PaysTokenReads(token: string, recipient: string, n: u128)
    ensures PaysFungible(PaysToken(token, recipient, n)) && UnitsPaid(PaysToken(token, recipient, n)) == n
    ensures HasCall(PaysToken(token, recipient, n))
  {
    hide ReadFt, UnknownFields, ToDecimal, ParseU128, FtBytes;
    FtBytesRead(recipient, n);
    DecimalRoundTrip(n);
    assert PaysToken(token, recipient, n).actions[0].Call?;
  }

  /** What charging one token payment comes to. */
  lemma PaysTokenCharged(g: SpendGrant, own: Option<string>, left: nat, token: string, recipient: string, n: u128)
    requires own != Some(token)
    ensures ChargePromise(g, own, left, PaysToken(token, recipient, n))
         == if recipient !in g.receivers then Tripped(Plain(ReceiverNotGranted))
            else if token !in g.tokens then Tripped(Plain(TokenNotGranted))
            else if n > TokenRemaining(g.tokens[token]) then Tripped(Plain(TokenBudgetExceeded))
            else Charged(left)
  {
    hide ReadFt, UnknownFields, ToDecimal, ParseU128, FtBytes, TokenRemaining;
    FtBytesRead(recipient, n);
    DecimalRoundTrip(n);
    DecimalRoundTrip(1);
    PaysTokenReads(token, recipient, n);
  }

  /** All that is left of a token, paid twice to a granted receiver. */
  function PaidTwice(g: SpendGrant, token: string): Request
    requires g.receivers != [] && token in g.tokens
  {
    var p := PaysToken(token, g.receivers[0], TokenRemaining(g.tokens[token]));
    Request([], [p, p])
  }

  lemma PaidTwiceIsCharged(g: SpendGrant, own: Option<string>, left: nat, token: string)
    requires g.receivers != [] && token in g.tokens && own != Some(token) && TokenRemaining(g.tokens[token]) > 0
    ensures
      var ps := PaidTwice(g, token).external;
      ChargeFrom(g, own, ps, 0, left) == Accepted && !WithinMeters(g, ps, 2) && WithinMeters(g, ps, 1)
  {
    hide PaysToken, TokenRemaining, ChargePromise, PaysFungible, UnitsPaid;
    var n := TokenRemaining(g.tokens[token]);
    var ps := PaidTwice(g, token).external;
    PaysTokenCharged(g, own, left, token, g.receivers[0], n);
    PaysTokenReads(token, g.receivers[0], n);
    assert ChargeFrom(g, own, ps, 2, left) == Accepted;
    assert ChargeFrom(g, own, ps, 1, left) == Accepted;
    PaysTo(token, g.receivers[0], n);
    assert forall t :: Paid(ps, 0, t) == 0;
    assert forall t :: Paid(ps, 1, t) == if t == token then n else 0;
    assert Paid(ps, 2, token) > n;
  }

  lemma PaysTo(token: string, recipient: string, n: u128)
    ensures PaysToken(token, recipient, n).receiver == token
  {
  }

  /** The failing input: the verdict finds nothing, the pass with written-back meters stops
      at the second payment. */
  lemma PaidTwiceParts(status: AgentStatusView, nowNs: u64, own: Option<string>, balance: Option<u128>, token: string,
                       size: nat)
    requires Metered(status, nowNs) && DoorRefusal(status, nowNs).None?
    requires
      var g := ReadGrant(status.grant.value).value;
      g.receivers != [] && token in g.tokens && own != Some(token) && TokenRemaining(g.tokens[token]) > 0
    ensures
      var req := PaidTwice(ReadGrant(status.grant.value).value, token);
      var verdict := Preflight(status, nowNs, own, balance, Effects.EffectsOf(req, size));
      && (balance.None? ==> verdict == [])
      && !Reports(verdict, WritingRequest(status, nowNs, own, balance, req))
      && WritingRequest(status, nowNs, own, balance, req) == Refused(Some(1), Plain(TokenBudgetExceeded))
  {
    hide Preflight, Metered, ReadGrant, ChargeFrom, Remaining, Effects.EffectsOf, WithinMeters, WritingRequest,
         PaidTwice, TokenRemaining;
    var g := ReadGrant(status.grant.value).value;
    var req := PaidTwice(g, token);
    PaidTwiceLength(g, token);
    PaidTwiceIsCharged(g, own, Remaining(g), token);
    VerdictIsTheChargingPass(status, nowNs, own, balance, req, size);
    WritingPassExactly(status, nowNs, own, balance, req, size);
  }

  lemma PaidTwiceLength(g: SpendGrant, token: string)
    requires g.receivers != [] && token in g.tokens
    ensures |PaidTwice(g, token).external| == 2
  {
  }

  lemma {:induction false} NoCallsPayNothing(ps: seq<NearPromise>, n: nat, token: string)
    requires n <= |ps| && forall p :: p in ps ==> !HasCall(p)
    ensures Paid(ps, n, token) == 0
  {
    hide UnitsPaid, ReadFt, ParseU128;
    if n > 0 {
      NoCallsPayNothing(ps, n - 1, token);
      var p := ps[n - 1];
      assert p in ps;
      assert PaysFungible(p) ==> HasCall(p);
    }
  }

  lemma WithoutCalls(status: AgentStatusView, nowNs: u64, own: Option<string>, balance: Option<u128>, req: Request)
    requires forall p :: p in req.external ==> !HasCall(p)
    ensures WritingRequest(status, nowNs, own, balance, req) == ChargeRequest(status, nowNs, own, balance, req)
  {
    hide ReadGrant, ChargeFrom, ChargeWriting, Remaining, HasCall, Paid, TokenRemaining;
    if DoorRefusal(status, nowNs).None? {
      var g, ps := ReadGrant(status.grant.value).value, req.external;
      NothingPaidYet(g, ps);
      forall n, t | 0 <= n <= |ps|
        ensures Paid(ps, n, t) == 0
      {
        NoCallsPayNothing(ps, n, t);
      }
      WritingPass(g, g, own, ps, 0, Remaining(g));
    }
  }

  /** Verdict and writing pass agree on every request memory can hold exactly when the door
      is closed, or the native meter is exact and no token payment could move a meter:
      nobody is granted as a receiver, or nothing is left of any token but the own
      collection. */
  lemma PerMoveExactly(status: AgentStatusView, nowNs: u64, own: Option<string>, balance: Option<u128>, size: nat)
    ensures
      (forall req: Request :: |req.external| <= ISIZE_MAX ==>
         Reports(Preflight(status, nowNs, own, balance, Effects.EffectsOf(req, size)),
                 WritingRequest(status, nowNs, own, balance, req)))
      <==> (DoorRefusal(status, nowNs).None? ==>
              var g := ReadGrant(status.grant.value).value; MeterIsExact(g) && NothingToMeter(g, own))
  {
    hide Preflight, ReadGrant, Remaining, Effects.EffectsOf, WritingRequest, TokenRemaining, PaidTwice;
    if !Metered(status, nowNs) {
      var req := DisagreesOverTheTop(status, nowNs, own, balance, size);
      WithoutCalls(status, nowNs, own, balance, req);
    } else if DoorRefusal(status, nowNs).Some? || NothingToMeter(ReadGrant(status.grant.value).value, own) {
      forall req: Request | |req.external| <= ISIZE_MAX
        ensures Reports(Preflight(status, nowNs, own, balance, Effects.EffectsOf(req, size)),
                        WritingRequest(status, nowNs, own, balance, req))
      {
        VerdictIsTheWritingPass(status, nowNs, own, balance, req, size);
      }
    } else {
      var g := ReadGrant(status.grant.value).value;
      var token :| token in g.tokens && TokenRemaining(g.tokens[token]) != 0 && own != Some(token);
      PaidTwiceLength(g, token);
      PaidTwiceParts(status, nowNs, own, balance, token, size);
    }
  }
}
