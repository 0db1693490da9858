/** When one grant permits no more than another. */
module Grants {
  import opened Common
  import opened Request
  import opened Effects
  import opened Hos
  import opened Violations
  import opened Binding
  import opened Charging
  import opened Payments
  import opened Refinement
  import Ledger

  predicate TokenWithin(h: SpendGrant, g: SpendGrant, t: string)
    requires t in h.tokens
  {
    t in g.tokens && TokenRemaining(h.tokens[t]) <= TokenRemaining(g.tokens[t])
  }

  /** Nobody can be paid under `h`, or whatever `h` grants, `g` grants at least; what the own
      collection is granted is never read. */
  predicate Within(h: SpendGrant, g: SpendGrant, own: Option<string>) {
    || h.receivers == []
    || (&& (forall r :: r in h.receivers ==> r in g.receivers)
        && Remaining(h) <= Remaining(g)
        && (forall t :: t in h.tokens && own != Some(t) ==> TokenWithin(h, g, t))
        && (forall c, id :: c in h.items && own != Some(c) && id in h.items[c] ==> c in g.items && id in g.items[c]))
  }

  // ---------------------------------------------------------------------------
  // A grant within another refuses all that the other refuses
  // ---------------------------------------------------------------------------

  lemma {:induction false} BreachEases(native: seq<u128>, calls: seq<nat>, remaining: u128, more: u128, running: u128,
                                       from: nat)
    requires from <= |native| && remaining <= more
    requires BudgetBreach(native, calls, remaining, running, from) == []
    ensures BudgetBreach(native, calls, more, running, from) == []
    decreases |native| - from
  {
    hide SatAdd;
    if from < |native| {
      BreachEases(native, calls, remaining, more, if from in calls then running else SatAdd(running, native[from]), from + 1);
    }
  }

  /** Where nobody is granted, every promise is refused. */
  lemma NobodyPaid(h: SpendGrant, own: Option<string>, i: nat, p: NearPromise)
    requires h.receivers == []
    ensures exists v :: PromiseRefusal(h, own, i, p, false, v)
  {
    hide NativeOf, Classify, TokenRemaining;
    if HasCall(p) {
      var k :| 0 <= k < |p.actions| && p.actions[k].Call?;
      var c := SiteOf(i, p, k);
      var v := match c.effect
        case Moves(_, _, _, _) => AtRung(i, 8, ReceiverNotGranted)
        case Registers(_) => AtShape(i, 5, MethodNotAllowed)
        case Unstatable(reason) => UnknownViolation(UnknownCall(i, c.receiver, c.methodName, c.deposit, reason));
      assert ActionRefusal(h, i, p, k, v);
      assert PromiseRefusal(h, own, i, p, false, v);
    } else {
      assert PromiseRefusal(h, own, i, p, false, AtRung(i, 2, ReceiverNotGranted));
    }
  }

  lemma MoveRefused(h: SpendGrant, g: SpendGrant, own: Option<string>, m: TokenMove, v: Violation)
    requires Within(h, g, own) && h.receivers != [] && own != Some(m.token) && v in MoveViolations(g, m)
    ensures exists u :: u in MoveViolations(h, m)
  {
    hide TokenRemaining, Remaining;
    assert |MoveViolations(h, m)| > 0;
    assert MoveViolations(h, m)[0] in MoveViolations(h, m);
  }

  /** An action refused under `g` makes its promise refused under a grant within `g`. */
  lemma ActionRefused(h: SpendGrant, g: SpendGrant, own: Option<string>, i: nat, p: NearPromise, k: nat, v: Violation)
    requires Within(h, g, own) && h.receivers != [] && k < |p.actions| && ActionRefusal(g, i, p, k, v)
    ensures exists u :: PromiseRefusal(h, own, i, p, false, u)
  {
    hide NativeOf, Classify, MoveViolations, Within;
    if own == Some(p.receiver) && p.actions[k].Call? {
      assert HasCall(p);
      assert PromiseRefusal(h, own, i, p, false, AtRung(i, 4, OwnCollectionRefused));
    } else if p.actions[k].Call? && SiteOf(i, p, k).effect.Moves? && v in MoveViolations(g, MoveOf(SiteOf(i, p, k))) {
      MoveRefused(h, g, own, MoveOf(SiteOf(i, p, k)), v);
      var u :| u in MoveViolations(h, MoveOf(SiteOf(i, p, k)));
      assert ActionRefusal(h, i, p, k, u);
      assert PromiseRefusal(h, own, i, p, false, u);
    } else {
      assert ActionRefusal(h, i, p, k, v);
      assert PromiseRefusal(h, own, i, p, false, v);
    }
  }

  lemma PromiseRefused(h: SpendGrant, g: SpendGrant, own: Option<string>, i: nat, p: NearPromise, v: Violation)
    requires Within(h, g, own) && PromiseRefusal(g, own, i, p, false, v)
    ensures exists u :: PromiseRefusal(h, own, i, p, false, u)
  {
    hide ActionRefusal, Remaining, TokenRemaining;
    if h.receivers == [] {
      NobodyPaid(h, own, i, p);
    } else if k :| 0 <= k < |p.actions| && ActionRefusal(g, i, p, k, v) {
      ActionRefused(h, g, own, i, p, k, v);
    } else {
      assert PromiseRefusal(h, own, i, p, false, v);
    }
  }

  lemma Unbreached(g: SpendGrant, own: Option<string>, i: nat, p: NearPromise, breached: bool, v: Violation)
    ensures PromiseRefusal(g, own, i, p, breached, v)
       <==> PromiseRefusal(g, own, i, p, false, v) || (breached && v == AtRung(i, 4, GrantExhausted))
  {
    hide ActionRefusal;
  }

  lemma BreachCollected(g: SpendGrant, own: Option<string>, req: Request, size: nat)
    requires Collected(g, own, EffectsOf(req, size)) == []
    ensures BreachOf(g, req, size) == []
  {
    hide EffectsOf, FlatMap, BudgetBreach, ReceiverViolations;
  }

  /** A request that a grant within `g` finds nothing to refuse in, `g` finds nothing in. */
  lemma WithinRefusesMore(h: SpendGrant, g: SpendGrant, own: Option<string>, req: Request, size: nat)
    requires Within(h, g, own) && Collected(h, own, EffectsOf(req, size)) == []
    ensures Collected(g, own, EffectsOf(req, size)) == []
  {
    hide EffectsOf, Collected, PromiseRefusal, BudgetBreach, BreachOf;
    var fx := EffectsOf(req, size);
    if Collected(g, own, fx) != [] {
      var v := Collected(g, own, fx)[0];
      CollectedExactly(g, own, req, size, v);
      var i :| 0 <= i < |req.external|
            && PromiseRefusal(g, own, i, req.external[i], AtRung(i, 4, GrantExhausted) in BreachOf(g, req, size), v);
      Unbreached(g, own, i, req.external[i], AtRung(i, 4, GrantExhausted) in BreachOf(g, req, size), v);
      if PromiseRefusal(g, own, i, req.external[i], false, v) {
        PromiseRefused(h, g, own, i, req.external[i], v);
        RefusedIsCollected(h, own, req, size, i);
      } else {
        BreachFromStart(g, req, size);
        BreachFromStart(h, req, size);
        BreachCollected(h, own, req, size);
        if h.receivers == [] {
          NobodyPaid(h, own, i, req.external[i]);
          RefusedIsCollected(h, own, req, size, i);
        } else {
          BreachEases(fx.nativePerPromise, fx.callPromises, Remaining(h), Remaining(g), 0, 0);
        }
      }
    }
  }

  lemma RefusedIsCollected(h: SpendGrant, own: Option<string>, req: Request, size: nat, i: nat)
    requires i < |req.external| && exists u :: PromiseRefusal(h, own, i, req.external[i], false, u)
    ensures Collected(h, own, EffectsOf(req, size)) != []
  {
    hide EffectsOf, Collected, PromiseRefusal, BreachOf;
    var u :| PromiseRefusal(h, own, i, req.external[i], false, u);
    Unbreached(h, own, i, req.external[i], AtRung(i, 4, GrantExhausted) in BreachOf(h, req, size), u);
    CollectedExactly(h, own, req, size, u);
  }

  lemma BreachFromStart(g: SpendGrant, req: Request, size: nat)
    ensures BreachOf(g, req, size)
         == BudgetBreach(EffectsOf(req, size).nativePerPromise, EffectsOf(req, size).callPromises, Remaining(g), 0, 0)
  {
  }

  // ---------------------------------------------------------------------------
  // A grant not within another permits something the other refuses
  // ---------------------------------------------------------------------------

  /** A request of one promise: nothing is collected exactly when the promise is charged. */
  lemma OnePromise(g: SpendGrant, own: Option<string>, p: NearPromise, size: nat)
    requires PromiseNative(p) <= U128_MAX
    ensures Collected(g, own, EffectsOf(Request([], [p]), size)) == [] <==> ChargePromise(g, own, Remaining(g), p).Charged?
  {
    hide EffectsOf, Collected, PromiseRefusal, BudgetBreach, ChargePromise, Remaining, PromiseNative, HasCall, Leading,
         NotAhead, BreachOf;
    var req := Request([], [p]);
    BreachFromStart(g, req, size);
    BreachAt(g, req, size, 0, Remaining(g), 0);
    var breached := AtRung(0, 4, GrantExhausted) in BreachOf(g, req, size);
    PromiseLadder(g, own, 0, p, Remaining(g), breached);
    forall v
      ensures v in Collected(g, own, EffectsOf(req, size)) <==> PromiseRefusal(g, own, 0, p, breached, v)
    {
      CollectedExactly(g, own, req, size, v);
    }
    if Collected(g, own, EffectsOf(req, size)) != [] {
      assert Collected(g, own, EffectsOf(req, size))[0] in Collected(g, own, EffectsOf(req, size));
    }
  }

  lemma PaysCharged(g: SpendGrant, own: Option<string>, receiver: string, n: u128)
    ensures PromiseNative(Pays(receiver, n)) <= U128_MAX
    ensures ChargePromise(g, own, Remaining(g), Pays(receiver, n)).Charged? <==> receiver in g.receivers && n <= Remaining(g)
  {
    hide ToDecimal, ParseU128, PromiseNative, HasCall, Remaining;
    PaysExactly(receiver, n);
  }

  lemma OneYocto(p: NearPromise)
    requires p.actions != [] && |p.actions| == 1 && p.actions[0].Call? && p.actions[0].fc.deposit == ToDecimal(1)
    ensures PromiseNative(p) == 1
  {
    hide ToDecimal, ParseU128;
    DecimalRoundTrip(1);
    assert NativeUpTo(p.actions, 0) == 0;
  }

  lemma SendsItemCharged(g: SpendGrant, own: Option<string>, left: nat, collection: string, recipient: string, id: string)
    requires own != Some(collection)
    ensures PromiseNative(SendsItem(collection, recipient, id)) <= U128_MAX
    ensures ChargePromise(g, own, left, SendsItem(collection, recipient, id)).Charged?
       <==> recipient in g.receivers && collection in g.items && id in g.items[collection]
  {
    hide ReadNft, UnknownFields, ToDecimal, ParseU128, NftBytes, PromiseNative;
    NftBytesRead(recipient, id);
    DecimalRoundTrip(1);
    OneYocto(SendsItem(collection, recipient, id));
    assert SendsItem(collection, recipient, id).actions[0].Call?;
  }

  /** A promise charged under `h` and not under `g`. */
  lemma Separates(h: SpendGrant, g: SpendGrant, own: Option<string>) returns (p: NearPromise)
    requires !Within(h, g, own)
    ensures PromiseNative(p) <= U128_MAX
    ensures ChargePromise(h, own, Remaining(h), p).Charged? && !ChargePromise(g, own, Remaining(g), p).Charged?
  {
    hide ChargePromise, PromiseNative, Remaining, TokenRemaining, Pays, PaysToken, SendsItem;
    var r := h.receivers[0];
    if x :| x in h.receivers && x !in g.receivers {
      p := Pays(x, 0);
      PaysCharged(h, own, x, 0);
      PaysCharged(g, own, x, 0);
    } else if Remaining(h) > Remaining(g) {
      p := Pays(r, Remaining(h));
      PaysCharged(h, own, r, Remaining(h));
      PaysCharged(g, own, r, Remaining(h));
    } else if t :| t in h.tokens && own != Some(t) && !TokenWithin(h, g, t) {
      p := PaysToken(t, r, TokenRemaining(h.tokens[t]));
      PaysTokenYocto(t, r, TokenRemaining(h.tokens[t]));
      Ledger.PaysTokenCharged(h, own, Remaining(h), t, r, TokenRemaining(h.tokens[t]));
      Ledger.PaysTokenCharged(g, own, Remaining(g), t, r, TokenRemaining(h.tokens[t]));
    } else {
      var c, id :| c in h.items && own != Some(c) && id in h.items[c] && !(c in g.items && id in g.items[c]);
      p := SendsItem(c, r, id);
      SendsItemCharged(h, own, Remaining(h), c, r, id);
      SendsItemCharged(g, own, Remaining(g), c, r, id);
    }
  }

  lemma PaysTokenYocto(token: string, recipient: string, n: u128)
    ensures PromiseNative(PaysToken(token, recipient, n)) == 1
  {
    hide ToDecimal, FtBytes, PromiseNative;
    OneYocto(PaysToken(token, recipient, n));
  }

  /** Every request `h` finds nothing to refuse in, `g` finds nothing in, exactly when `h` is
      within `g`: the rules over effects grant no more and no less than the grant says. */
  lemma GrantsExactly(h: SpendGrant, g: SpendGrant, own: Option<string>, size: nat)
    ensures
      (forall req: Request :: Collected(h, own, EffectsOf(req, size)) == [] ==> Collected(g, own, EffectsOf(req, size)) == [])
      <==> Within(h, g, own)
  {
    hide EffectsOf, Collected, ChargePromise, Within, PromiseNative;
    if Within(h, g, own) {
      forall req: Request | Collected(h, own, EffectsOf(req, size)) == []
        ensures Collected(g, own, EffectsOf(req, size)) == []
      {
        WithinRefusesMore(h, g, own, req, size);
      }
    } else {
      var p := Separates(h, g, own);
      OnePromise(h, own, p, size);
      OnePromise(g, own, p, size);
    }
  }
}
