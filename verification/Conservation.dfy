/** The effects record loses and invents no action, and says where each one was. */
module Conservation {
  import opened Common
  import opened Request
  import opened Effects

  // ---------------------------------------------------------------------------
  // Every action is recorded once
  // ---------------------------------------------------------------------------

  function IsCall(): Action -> nat { (a: Action) => if a.Call? then 1 else 0 }

  function CallsIn(): NearPromise -> nat { (p: NearPromise) => Sum(IsCall(), p.actions) }

  /** How many function calls the request holds. */
  function CallCount(req: Request): nat { Sum(CallsIn(), req.external) }

  function Effected(f: Fragment): nat { |f.moves| + |f.registrations| + |f.unknowns| }

  function Recorded(f: Fragment): nat { Effected(f) + |f.transfers| + |f.inits| }

  lemma OneAction(i: nat, p: NearPromise, k: nat)
    requires k < |p.actions|
    ensures Recorded(ActionFragment(i, p, k)) == 1
    ensures Effected(ActionFragment(i, p, k)) == IsCall()(p.actions[k])
  {
  }

  lemma JoinRecorded(a: Fragment, b: Fragment)
    ensures Effected(Join(a, b)) == Effected(a) + Effected(b)
    ensures Recorded(Join(a, b)) == Recorded(a) + Recorded(b)
  {
  }

  lemma NothingEffected()
    ensures Effected(NOTHING) == Recorded(NOTHING) == 0
  {
  }

  lemma {:induction false} ActionsRecorded(i: nat, p: NearPromise, k: nat)
    requires k <= |p.actions|
    ensures Recorded(ActionsFragment(i, p, k)) == k
    ensures Effected(ActionsFragment(i, p, k)) == Sum(IsCall(), p.actions[..k])
  {
    hide ActionFragment, Effected, Recorded, Join, IsCall;
    NothingEffected();
    if k > 0 {
      ActionsRecorded(i, p, k - 1);
      OneAction(i, p, k - 1);
      JoinRecorded(ActionsFragment(i, p, k - 1), ActionFragment(i, p, k - 1));
      assert p.actions[..k] == p.actions[..k - 1] + [p.actions[k - 1]];
      SumSnoc(IsCall(), p.actions[..k - 1], p.actions[k - 1]);
    }
  }

  lemma PromiseRecorded(i: nat, p: NearPromise)
    ensures Recorded(PromiseFragment(i, p)) == |p.actions|
    ensures Effected(PromiseFragment(i, p)) == CallsIn()(p)
  {
    hide ActionsFragment;
    ActionsRecorded(i, p, |p.actions|);
    assert p.actions[..|p.actions|] == p.actions;
  }

  lemma {:induction false} PromisesRecorded(ps: seq<NearPromise>, n: nat)
    requires n <= |ps|
    ensures Recorded(PromisesFragment(ps, n)) == ActionCount(ps, n)
    ensures Effected(PromisesFragment(ps, n)) == Sum(CallsIn(), ps[..n])
  {
    hide PromiseFragment, Effected, Recorded, Join, CallsIn;
    NothingEffected();
    if n > 0 {
      PromisesRecorded(ps, n - 1);
      PromiseRecorded(n - 1, ps[n - 1]);
      JoinRecorded(PromisesFragment(ps, n - 1), PromiseFragment(n - 1, ps[n - 1]));
      assert ps[..n] == ps[..n - 1] + [ps[n - 1]];
      SumSnoc(CallsIn(), ps[..n - 1], ps[n - 1]);
    }
  }

  /** How many entries of `xs` carry index `i`. */
  function HowMany<T>(at: T -> nat, i: nat, xs: seq<T>): nat {
    Sum((x: T) => if at(x) == i then 1 else 0, xs)
  }

  lemma HowManyAppend<T>(at: T -> nat, i: nat, xs: seq<T>, ys: seq<T>)
    ensures HowMany(at, i, xs + ys) == HowMany(at, i, xs) + HowMany(at, i, ys)
  {
    SumAppend((x: T) => if at(x) == i then 1 else 0, xs, ys);
  }

  lemma {:induction false} HowManyHere<T>(at: T -> nat, i: nat, xs: seq<T>, here: nat)
    requires forall x :: x in xs ==> at(x) == here
    ensures HowMany(at, i, xs) == if i == here then |xs| else 0
  {
    if xs != [] {
      assert xs[|xs| - 1] in xs;
      HowManyHere(at, i, xs[..|xs| - 1], here);
    }
  }

  function EffectedAt(f: Fragment, i: nat): nat {
    HowMany(MoveAt(), i, f.moves) + HowMany(RegistrationAt(), i, f.registrations) + HowMany(UnknownAt(), i, f.unknowns)
  }

  function RecordedAt(f: Fragment, i: nat): nat {
    EffectedAt(f, i) + HowMany(TransferAt(), i, f.transfers) + HowMany(Itself(), i, f.inits)
  }

  lemma RecordedJoin(a: Fragment, b: Fragment, i: nat)
    ensures EffectedAt(Join(a, b), i) == EffectedAt(a, i) + EffectedAt(b, i)
    ensures RecordedAt(Join(a, b), i) == RecordedAt(a, i) + RecordedAt(b, i)
  {
    hide HowMany;
    HowManyAppend(MoveAt(), i, a.moves, b.moves);
    HowManyAppend(RegistrationAt(), i, a.registrations, b.registrations);
    HowManyAppend(UnknownAt(), i, a.unknowns, b.unknowns);
    HowManyAppend(TransferAt(), i, a.transfers, b.transfers);
    HowManyAppend(Itself(), i, a.inits, b.inits);
  }

  lemma RecordedHere(f: Fragment, i: nat, here: nat)
    requires AllAt(f, here)
    ensures EffectedAt(f, i) == if i == here then Effected(f) else 0
    ensures RecordedAt(f, i) == if i == here then Recorded(f) else 0
  {
    hide HowMany;
    HowManyHere(MoveAt(), i, f.moves, here);
    HowManyHere(RegistrationAt(), i, f.registrations, here);
    HowManyHere(UnknownAt(), i, f.unknowns, here);
    HowManyHere(TransferAt(), i, f.transfers, here);
    HowManyHere(Itself(), i, f.inits, here);
  }

  lemma {:induction false} PromisesRecordedAt(ps: seq<NearPromise>, n: nat, i: nat)
    requires n <= |ps| && i < |ps|
    ensures EffectedAt(PromisesFragment(ps, n), i) == if i < n then CallsIn()(ps[i]) else 0
    ensures RecordedAt(PromisesFragment(ps, n), i) == if i < n then |ps[i].actions| else 0
  {
    hide PromiseFragment, EffectedAt, RecordedAt, Effected, Recorded, Join, CallsIn;
    if n == 0 {
      NothingRecorded(i);
    } else {
      PromisesRecordedAt(ps, n - 1, i);
      PromiseAllAt(n - 1, ps[n - 1]);
      PromiseRecorded(n - 1, ps[n - 1]);
      RecordedHere(PromiseFragment(n - 1, ps[n - 1]), i, n - 1);
      RecordedJoin(PromisesFragment(ps, n - 1), PromiseFragment(n - 1, ps[n - 1]), i);
    }
  }

  lemma NothingRecorded(i: nat)
    ensures EffectedAt(NOTHING, i) == 0 && RecordedAt(NOTHING, i) == 0
  {
  }

  /** Every function call lands in exactly one of the three effect lists, and calls, plain
      transfers and state inits together are all the actions there are: over the whole
      request, and of each promise at that promise's index. */
  lemma ActionsAreConserved(req: Request, size: nat)
    ensures
      var fx := EffectsOf(req, size);
      forall i :: 0 <= i < |req.external| ==>
        && HowMany(MoveAt(), i, fx.tokenMoves) + HowMany(RegistrationAt(), i, fx.storageRegistrations)
           + HowMany(UnknownAt(), i, fx.unknownFundMoving) == CallsIn()(req.external[i])
        && CallsIn()(req.external[i]) + HowMany(TransferAt(), i, fx.plainTransfers) + HowMany(Itself(), i, fx.stateInits)
           == |req.external[i].actions|
    ensures
      var fx := EffectsOf(req, size);
      && |fx.tokenMoves| + |fx.storageRegistrations| + |fx.unknownFundMoving| == CallCount(req)
      && CallCount(req) + |fx.plainTransfers| + |fx.stateInits| == fx.actionCount
      && |fx.receivers| == |fx.nativePerPromise| == |req.external|
  {
    hide PromisesFragment, Sum, HowMany, CallsIn;
    PromisesRecorded(req.external, |req.external|);
    assert req.external[..|req.external|] == req.external;
    forall i | 0 <= i < |req.external|
      ensures EffectedAt(PromisesFragment(req.external, |req.external|), i) == CallsIn()(req.external[i])
      ensures RecordedAt(PromisesFragment(req.external, |req.external|), i) == |req.external[i].actions|
    {
      PromisesRecordedAt(req.external, |req.external|, i);
    }
  }

  // ---------------------------------------------------------------------------
  // Every record is in its place
  // ---------------------------------------------------------------------------

  /** The indexes `at` reads off `xs` run upwards within `lo..hi`. */
  predicate InOrder<T>(at: T -> nat, xs: seq<T>, lo: nat, hi: nat) {
    && (forall k :: 0 <= k < |xs| ==> lo <= at(xs[k]) < hi)
    && (forall j, k :: 0 <= j < k < |xs| ==> at(xs[j]) <= at(xs[k]))
  }

  lemma InOrderAppend<T>(at: T -> nat, xs: seq<T>, ys: seq<T>, lo: nat, mid: nat, hi: nat)
    requires InOrder(at, xs, lo, mid) && InOrder(at, ys, mid, hi) && lo <= mid <= hi
    ensures InOrder(at, xs + ys, lo, hi)
  {
  }

  function RefundAt(): ((nat, string)) -> nat { (r: (nat, string)) => r.0 }
  function TransferAt(): ((nat, u128)) -> nat { (t: (nat, u128)) => t.0 }
  function FactAt(): ShapeFact -> nat { (f: ShapeFact) => f.promiseIndex }
  function MoveAt(): TokenMove -> nat { (m: TokenMove) => m.promiseIndex }
  function RegistrationAt(): StorageRegistration -> nat { (s: StorageRegistration) => s.promiseIndex }
  function UnknownAt(): UnknownCall -> nat { (u: UnknownCall) => u.promiseIndex }
  function Itself(): nat -> nat { (i: nat) => i }

  predicate Placed(f: Fragment, lo: nat, hi: nat) {
    && InOrder(RefundAt(), f.refunds, lo, hi)
    && InOrder(FactAt(), f.facts, lo, hi)
    && InOrder(TransferAt(), f.transfers, lo, hi)
    && InOrder(Itself(), f.inits, lo, hi)
    && InOrder(MoveAt(), f.moves, lo, hi)
    && InOrder(RegistrationAt(), f.registrations, lo, hi)
    && InOrder(UnknownAt(), f.unknowns, lo, hi)
  }

  lemma PlacedJoin(a: Fragment, b: Fragment, lo: nat, mid: nat, hi: nat)
    requires Placed(a, lo, mid) && Placed(b, mid, hi) && lo <= mid <= hi
    ensures Placed(Join(a, b), lo, hi)
  {
    hide InOrder;
    InOrderAppend(RefundAt(), a.refunds, b.refunds, lo, mid, hi);
    InOrderAppend(FactAt(), a.facts, b.facts, lo, mid, hi);
    InOrderAppend(TransferAt(), a.transfers, b.transfers, lo, mid, hi);
    InOrderAppend(Itself(), a.inits, b.inits, lo, mid, hi);
    InOrderAppend(MoveAt(), a.moves, b.moves, lo, mid, hi);
    InOrderAppend(RegistrationAt(), a.registrations, b.registrations, lo, mid, hi);
    InOrderAppend(UnknownAt(), a.unknowns, b.unknowns, lo, mid, hi);
  }

  /** Everything one promise contributes carries its index. */
  predicate AllAt(f: Fragment, i: nat) {
    && (forall r :: r in f.refunds ==> r.0 == i)
    && (forall x :: x in f.facts ==> x.promiseIndex == i)
    && (forall t :: t in f.transfers ==> t.0 == i)
    && (forall n :: n in f.inits ==> n == i)
    && (forall m :: m in f.moves ==> m.promiseIndex == i)
    && (forall s :: s in f.registrations ==> s.promiseIndex == i)
    && (forall u :: u in f.unknowns ==> u.promiseIndex == i)
  }

  lemma AllAtJoin(a: Fragment, b: Fragment, i: nat)
    requires AllAt(a, i) && AllAt(b, i)
    ensures AllAt(Join(a, b), i)
  {
  }

  lemma ActionAllAt(i: nat, p: NearPromise, k: nat)
    requires k < |p.actions|
    ensures AllAt(ActionFragment(i, p, k), i)
  {
    hide NativeOf, GasOf, Classify;
  }

  lemma {:induction false} ActionsAllAt(i: nat, p: NearPromise, k: nat)
    requires k <= |p.actions|
    ensures AllAt(ActionsFragment(i, p, k), i)
  {
    hide ActionFragment, AllAt, Join;
    if k == 0 {
      NothingAllAt(i);
    } else {
      ActionsAllAt(i, p, k - 1);
      ActionAllAt(i, p, k - 1);
      AllAtJoin(ActionsFragment(i, p, k - 1), ActionFragment(i, p, k - 1), i);
    }
  }

  lemma NothingAllAt(i: nat)
    ensures AllAt(NOTHING, i)
  {
  }

  lemma PromiseAllAt(i: nat, p: NearPromise)
    ensures AllAt(PromiseFragment(i, p), i)
  {
    hide ActionsFragment;
    ActionsAllAt(i, p, |p.actions|);
    AllAtJoin(HeadFragment(i, p), ActionsFragment(i, p, |p.actions|), i);
  }

  lemma AllAtIsPlaced(f: Fragment, i: nat)
    requires AllAt(f, i)
    ensures Placed(f, i, i + 1)
  {
    hide InOrder;
    AtOneIndex(RefundAt(), f.refunds, i);
    AtOneIndex(FactAt(), f.facts, i);
    AtOneIndex(TransferAt(), f.transfers, i);
    AtOneIndex(Itself(), f.inits, i);
    AtOneIndex(MoveAt(), f.moves, i);
    AtOneIndex(RegistrationAt(), f.registrations, i);
    AtOneIndex(UnknownAt(), f.unknowns, i);
  }

  lemma AtOneIndex<T>(at: T -> nat, xs: seq<T>, i: nat)
    requires forall x :: x in xs ==> at(x) == i
    ensures InOrder(at, xs, i, i + 1)
  {
  }

  lemma {:induction false} PromisesPlaced(ps: seq<NearPromise>, n: nat)
    requires n <= |ps|
    ensures Placed(PromisesFragment(ps, n), 0, n)
  {
    hide PromiseFragment, Placed, Join;
    if n == 0 {
      NothingPlaced();
    } else {
      PromisesPlaced(ps, n - 1);
      PromiseAllAt(n - 1, ps[n - 1]);
      AllAtIsPlaced(PromiseFragment(n - 1, ps[n - 1]), n - 1);
      PlacedJoin(PromisesFragment(ps, n - 1), PromiseFragment(n - 1, ps[n - 1]), 0, n - 1, n);
    }
  }

  lemma NothingPlaced()
    ensures Placed(NOTHING, 0, 0)
  {
  }

  lemma {:induction false} CallPromisesAscend(ps: seq<NearPromise>, n: nat)
    requires n <= |ps|
    ensures forall j, k :: 0 <= j < k < |PromisesFragment(ps, n).calls| ==>
      PromisesFragment(ps, n).calls[j] < PromisesFragment(ps, n).calls[k]
    ensures forall i :: i in PromisesFragment(ps, n).calls <==> 0 <= i < n && HasCall(ps[i])
  {
    hide PromiseFragment, HasCall;
    if n > 0 {
      CallPromisesAscend(ps, n - 1);
      PromiseCalls(n - 1, ps[n - 1]);
      var before, here := PromisesFragment(ps, n - 1).calls, PromiseFragment(n - 1, ps[n - 1]).calls;
      assert PromisesFragment(ps, n).calls == before + here;
      assert forall j :: 0 <= j < |before| ==> before[j] in before;
    }
  }

  /** Every recorded index names a promise of the request, each list runs in promise order,
      and the call promises are exactly the promises with a call, each once. */
  lemma RecordsAreInOrder(req: Request, size: nat)
    ensures
      var fx := EffectsOf(req, size);
      var n := |req.external|;
      && InOrder(RefundAt(), fx.refundTos, 0, n)
      && InOrder(FactAt(), fx.shapeFacts, 0, n)
      && InOrder(TransferAt(), fx.plainTransfers, 0, n)
      && InOrder(Itself(), fx.stateInits, 0, n)
      && InOrder(MoveAt(), fx.tokenMoves, 0, n)
      && InOrder(RegistrationAt(), fx.storageRegistrations, 0, n)
      && InOrder(UnknownAt(), fx.unknownFundMoving, 0, n)
      && (forall j, k :: 0 <= j < k < |fx.callPromises| ==> fx.callPromises[j] < fx.callPromises[k])
      && (forall i :: i in fx.callPromises <==> 0 <= i < n && HasCall(req.external[i]))
  {
    hide InOrder, PromisesFragment, HasCall;
    PromisesPlaced(req.external, |req.external|);
    CallPromisesAscend(req.external, |req.external|);
  }

  /** The totals are the exact sums, saturated once: native per promise and in all. */
  lemma TotalsAreSaturatedSums(req: Request, size: nat)
    ensures
      var fx := EffectsOf(req, size);
      && fx.nativeTotal == Saturate(RequestNative(req.external, |req.external|))
      && forall i :: 0 <= i < |req.external| ==> fx.nativePerPromise[i] == Saturate(PromiseNative(req.external[i]))
  {
    hide PromisesFragment, PromiseNative, Saturate;
    FragmentsNative(req.external, |req.external|);
  }
}
