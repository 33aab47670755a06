/** Conservation in the course of a lawful history. */
module RunConservation {
  import opened Wrappers
  import opened Schedule
  import opened Conservation

  // ---------------------------------------------------------------- every run

  /** A hierarchy of at most `n` levels with which a run can begin. */
  predicate StartsRun(ds: Hierarchy, n: nat) {
    1 <= |ds| <= n && SoundFrom(ds, 0)
  }

  lemma NothingYet(ds: Hierarchy, n: nat)
    requires StartsRun(ds, n)
    ensures Invariant(ds, Marks([], n)) && forall k | 0 <= k < n :: !Marks([], n)[k].owed
  {
    forall k | 0 <= k < n
      ensures !Marks([], n)[k].owed
    {
      assert Marks([], n)[k] == MarkOf([], k);
    }
  }

  /** In the course of a lawful history, at every time, the levels agree, and the settled contents of every cell of
      level zero have changed by what has passed its faces on the finest level there. */
  lemma {:induction false} RunKeeps(h: History, r: Rules, run: seq<Hierarchy>, i: nat)
    requires Lawful(h, r) && IsRun(h, run) && StartsRun(run[0], r.levels) && i <= |h|
    ensures Invariant(run[i], Marks(h[..i], r.levels))
    ensures Balanced(run[0][0], Latest(run[0][0]), run[i][0], Settled(run[i][0], Pending(h[..i], 0)))
    decreases i
  {
    if i == 0 {
      NothingYet(run[0], r.levels);
      BalancedSame(run[0][0], Latest(run[0][0]));
    } else {
      var j := i - 1;
      RunKeeps(h, r, run, j);
      LawfulPrefix(h, r, j);
      assert h[..i] == h[..j] + [h[j]];
      MarksAfterEvent(h[..j], h[j], r.levels);
      EventKeeps(run[j], Marks(h[..j], r.levels), h[j], run[i], Marks(h[..i], r.levels));
      BalancedTwice(run[0][0], Latest(run[0][0]), run[j][0], Settled(run[j][0], Pending(h[..j], 0)),
                    run[i][0], Settled(run[i][0], Pending(h[..i], 0)));
    }
  }

  lemma BalancedTwice(d: CellData, u: seq<real>, d': CellData, u': seq<real>, d'': CellData, u'': seq<real>)
    requires Balanced(d, u, d', u') && Balanced(d', u', d'', u'')
    ensures Balanced(d, u, d'', u'')
  {
  }

  /** When nothing is owed, the levels are nested and synchronized. */
  lemma NothingOwed(ds: Hierarchy, m: seq<Mark>)
    requires Invariant(ds, m) && forall k | 0 <= k < |m| :: !m[k].owed
    ensures SoundFrom(ds, 0)
  {
    hide OwedFirst, Fits, Averaged;
    forall k: nat | k + 1 < |ds|
      ensures Fits(ds[k], ds[k + 1]) && Averaged(Latest(ds[k]), ds[k + 1].boxes, ds[k + 1].ratio, Latest(ds[k + 1]))
    {
      assert PairOk(ds, m, k);
    }
    AllLevelsOk(ds);
  }

  lemma AllLevelsOk(ds: Hierarchy)
    requires |ds| > 0 && LevelOk(ds[0]) && forall k | 0 <= k && k + 1 < |ds| :: Fits(ds[k], ds[k + 1])
    ensures forall k | 0 <= k < |ds| :: LevelOk(ds[k])
  {
    forall k | 0 <= k < |ds|
      ensures LevelOk(ds[k])
    {
      if k > 0 {
        assert Fits(ds[k - 1], ds[k - 1 + 1]);
      }
    }
  }

  // ---------------------------------------------------------------- conservation

  /** The sum over those of the first `n` cells that belong to the level, and are not covered by `finer`. */
  function PartSum(ratio: nat, boxes: seq<Box>, finer: seq<Box>, u: seq<real>, n: nat): real
    requires n <= |u|
  {
    if n == 0 then 0.0
    else PartSum(ratio, boxes, finer, u, n - 1) +
         if InRegion(ratio, boxes, n - 1) && !Covered(finer, n - 1) then u[n - 1] else 0.0
  }

  /** The sum over those of the first `n` cells that are covered. */
  function CoveredSum(finer: seq<Box>, u: seq<real>, n: nat): real
    requires n <= |u|
  {
    if n == 0 then 0.0 else CoveredSum(finer, u, n - 1) + if Covered(finer, n - 1) then u[n - 1] else 0.0
  }

  /** What the levels from `k` on hold, counting every part of the domain on its finest level. */
  function Mass(ds: Hierarchy, k: nat): real
    decreases |ds| - k
  {
    if k >= |ds| then 0.0
    else
      var u := Latest(ds[k]);
      PartSum(ds[k].ratio, ds[k].boxes, if k + 1 < |ds| then ds[k + 1].boxes else [], u, |u|) + Mass(ds, k + 1)
  }

  /** A level is made of its covered and its other cells. */
  lemma {:induction false} PartsAdd(ratio: nat, boxes: seq<Box>, finer: seq<Box>, u: seq<real>, n: nat)
    requires n <= |u|
    requires forall i | 0 <= i < |u| && Covered(finer, i) :: InRegion(ratio, boxes, i)
    ensures PartSum(ratio, boxes, [], u, n) == PartSum(ratio, boxes, finer, u, n) + CoveredSum(finer, u, n)
  {
    if n > 0 {
      PartsAdd(ratio, boxes, finer, u, n - 1);
    }
  }

  /** The fine cells of one coarse cell, all or none of which belong to the level. */
  lemma {:induction false} BlockSum(ratio: nat, boxes: seq<Box>, fine: seq<real>, a: nat, b: nat, belongs: bool)
    requires a <= b <= |fine| && forall k | a <= k < b :: InRegion(ratio, boxes, k) == belongs
    ensures PartSum(ratio, boxes, [], fine, b) ==
            PartSum(ratio, boxes, [], fine, a) + if belongs then Sum(fine, a, b) else 0.0
  {
    if a < b {
      BlockSum(ratio, boxes, fine, a, b - 1, belongs);
    }
  }

  /** The fine cells under the first `n` coarse cells hold what those hold where they are covered. */
  lemma {:induction false} FineSum(u: seq<real>, boxes: seq<Box>, ratio: nat, fine: seq<real>, n: nat)
    requires n <= |u| && |fine| == Refine(ratio, |u|) && Averaged(u, boxes, ratio, fine)
    ensures Refine(ratio, n) <= |fine|
    ensures PartSum(ratio, boxes, [], fine, Refine(ratio, n)) == CoveredSum(boxes, u, n)
    decreases n
  {
    RefineMonotone(ratio, n, |u|);
    if n > 0 {
      FineSum(u, boxes, ratio, fine, n - 1);
      CellsOfBlock(ratio, boxes, n - 1);
      BlockSum(ratio, boxes, fine, Refine(ratio, n - 1), Refine(ratio, n), Covered(boxes, n - 1));
    }
  }

  /** In a synchronized hierarchy, what is held on the finest levels is what the level itself holds. */
  lemma {:induction false} MassIsOnLevel(ds: Hierarchy, k: nat)
    requires SoundFrom(ds, 0) && k < |ds|
    ensures Mass(ds, k) == PartSum(ds[k].ratio, ds[k].boxes, [], Latest(ds[k]), |Latest(ds[k])|)
    decreases |ds| - k
  {
    if k + 1 < |ds| {
      var d, f, n := ds[k], ds[k + 1], |Latest(ds[k])|;
      assert Fits(d, f);
      MassIsOnLevel(ds, k + 1);
      FineSum(Latest(d), f.boxes, f.ratio, Latest(f), n);
      PartsAdd(d.ratio, d.boxes, f.boxes, Latest(d), n);
    }
  }

  lemma {:induction false} WholeSum(ratio: nat, boxes: seq<Box>, u: seq<real>, n: nat)
    requires n <= |u| && forall k | 0 <= k < |u| :: InRegion(ratio, boxes, k)
    ensures PartSum(ratio, boxes, [], u, n) == Sum(u, 0, n)
  {
    if n > 0 {
      WholeSum(ratio, boxes, u, n - 1);
    }
  }

  lemma MassOfDomain(ds: Hierarchy)
    requires SoundFrom(ds, 0) && |ds| > 0 && WholeDomain(ds[0])
    ensures |Latest(ds[0])| == |ds[0].current|
    ensures Mass(ds, 0) == Sum(Latest(ds[0]), 0, |Latest(ds[0])|)
  {
    MassIsOnLevel(ds, 0);
    WholeSum(ds[0].ratio, ds[0].boxes, Latest(ds[0]), |Latest(ds[0])|);
  }

  /** From the first to the last hierarchy of the run, every cell of level zero changes by what passes its faces on the
      finest level there, and what the hierarchy holds changes only by what passes the ends of the domain. */
  predicate Conserves(run: seq<Hierarchy>) {
    && |run| > 0 && |run[0]| > 0 && |run[|run| - 1]| > 0
    && var a, b, n := run[0], run[|run| - 1], |run[0][0].current|;
       && SoundFrom(b, 0) && |b[0].current| == n && Balanced(a[0], Latest(a[0]), b[0], Latest(b[0]))
       && Mass(b, 0) == Mass(a, 0) - (Outflow(b[0], 0, n) - Outflow(a[0], 0, n))
  }

  /** Discrete conservation: every lawful history that owes nothing conserves, whatever the fluxes, the number and
      size of steps, the depth of the hierarchy, and the regrids. */
  lemma {:induction false} LawfulRunConserves(h: History, r: Rules, run: seq<Hierarchy>)
    requires Lawful(h, r) && (forall l | 0 <= l < r.levels :: !Pending(h, l))
    requires IsRun(h, run) && StartsRun(run[0], r.levels) && WholeDomain(run[0][0])
    ensures Conserves(run)
  {
    hide IsRun, Lawful, SoundFrom, WholeDomain, Balanced;
    RunEnds(h, r, run);
    LevelZeroConserves(run[0], run[|run| - 1]);
  }

  lemma RunEnds(h: History, r: Rules, run: seq<Hierarchy>)
    requires Lawful(h, r) && (forall l | 0 <= l < r.levels :: !Pending(h, l))
    requires IsRun(h, run) && StartsRun(run[0], r.levels)
    ensures |run| > 0 && |run[0]| > 0 && |run[|run| - 1]| > 0 && SoundFrom(run[|run| - 1], 0)
    ensures Balanced(run[0][0], Latest(run[0][0]), run[|run| - 1][0], Latest(run[|run| - 1][0]))
  {
    hide Lawful, SoundFrom, Balanced, Invariant;
    assert h[..|h|] == h;
    RunKeeps(h, r, run, |h|);
    NothingOwed(run[|h|], Marks(h, r.levels));
  }

  lemma LevelZeroConserves(a: Hierarchy, b: Hierarchy)
    requires |a| > 0 && |b| > 0 && SoundFrom(a, 0) && SoundFrom(b, 0) && WholeDomain(a[0])
    requires Balanced(a[0], Latest(a[0]), b[0], Latest(b[0]))
    ensures var n := |a[0].current|;
            |b[0].current| == n && Mass(b, 0) == Mass(a, 0) - (Outflow(b[0], 0, n) - Outflow(a[0], 0, n))
  {
    assert |Latest(a[0])| == |a[0].current| && |Latest(b[0])| == |b[0].current|;
    MassOfDomain(a);
    MassOfDomain(b);
    SumBalanced(a[0], Latest(a[0]), b[0], Latest(b[0]), 0, |a[0].current|);
  }

  // ---------------------------------------------------------------- closed domains

  predicate ZeroEnds(f: seq<real>, n: nat) {
    At(f, 0) == 0.0 && At(f, n) == 0.0
  }

  /** If the event is a step, nothing passes the ends of the domain in it. */
  predicate IsClosed(e: Event) {
    e.Step? && e.flux != [] ==> ZeroEnds(e.flux, |e.flux| - 1)
  }

  /** No step of the history has a flux through the ends of the domain. */
  predicate AllClosed(h: History) {
    forall i | 0 <= i < |h| :: IsClosed(h[i])
  }

  /** A level that owes a synchronization has no flux through the ends of the domain, and while the next coarser level
      owes one, nothing has passed them. */
  predicate EndsClosed(d: CellData, owed: bool, coarserOwed: bool) {
    && (owed ==> ZeroEnds(d.flux, |d.current|))
    && (coarserOwed ==> ZeroEnds(d.passed, |d.current|))
  }

  predicate LevelClosed(ds: Hierarchy, m: seq<Mark>, k: nat)
    requires k < |ds| <= |m|
  {
    EndsClosed(ds[k], m[k].owed, k > 0 && m[k - 1].owed)
  }

  predicate AllEndsClosed(ds: Hierarchy, m: seq<Mark>) {
    |ds| <= |m| && forall k | 0 <= k < |ds| :: LevelClosed(ds, m, k)
  }

  /** What has passed the ends of the domain does not change. */
  predicate EndsStay(d: CellData, d': CellData) {
    && |d'.current| == |d.current| && At(d'.passed, 0) == At(d.passed, 0)
    && At(d'.passed, |d.current|) == At(d.passed, |d.current|)
  }

  ghost predicate StaysClosed(ds: Hierarchy, ds': Hierarchy, m': seq<Mark>) {
    |ds| > 0 && |ds'| > 0 && AllEndsClosed(ds', m') && EndsStay(ds[0], ds'[0])
  }

  lemma StepStaysClosed(ds: Hierarchy, m: seq<Mark>, e: Event, m': seq<Mark>)
    requires AllEndsClosed(ds, m) && |ds| > 0 && e.Step? && e.level < |ds| && Allowed(m, e) && MarksChange(m, e, m')
    requires OwedFirst(m, |ds|) && |e.flux| == |ds[e.level].current| + 1 && IsClosed(e)
    ensures StaysClosed(ds, AfterStep(ds, e.level, e.first, e.flux), m')
  {
    hide Difference;
    var ds' := AfterStep(ds, e.level, e.first, e.flux);
    forall k | 0 <= k < |ds'|
      ensures LevelClosed(ds', m', k)
    {
      assert LevelClosed(ds, m, k);
    }
  }

  lemma SyncedStaysClosed(d: CellData, finer: CellData, coarserOwed: bool)
    requires Fits(d, finer) && |d.flux| == |d.current| + 1
    requires EndsClosed(d, true, coarserOwed) && EndsClosed(finer, false, true)
    ensures EndsClosed(SyncedWith(d, finer), false, coarserOwed) && EndsStay(d, SyncedWith(d, finer))
  {
  }

  lemma SyncOneStaysClosed(ds: Hierarchy, m: seq<Mark>, f: nat, m': seq<Mark>)
    requires Invariant(ds, m) && 0 < f < |ds| && CanSync(m, f - 1, f) && Settles(m, f - 1, f, m')
    requires AllEndsClosed(ds, m)
    ensures StaysClosed(ds, ds[f - 1 := SyncedWith(ds[f - 1], ds[f])], m')
  {
    hide EndsClosed, SyncedWith, Recorded, Flowed, Fits;
    var ds' := ds[f - 1 := SyncedWith(ds[f - 1], ds[f])];
    assert PairOk(ds, m, f - 1) && LevelClosed(ds, m, f - 1) && LevelClosed(ds, m, f);
    SyncedStaysClosed(ds[f - 1], ds[f], f - 1 > 0 && m[f - 2].owed);
    NoLongerOwed(ds[f], false);
    forall k | 0 <= k < |ds'|
      ensures LevelClosed(ds', m', k)
    {
      assert LevelClosed(ds, m, k);
    }
  }

  lemma NoLongerOwed(d: CellData, owed: bool)
    requires EndsClosed(d, owed, true)
    ensures EndsClosed(d, owed, false)
  {
  }

  lemma {:induction false} SyncStaysClosed(ds: Hierarchy, m: seq<Mark>, c: nat, f: nat, m': seq<Mark>)
    requires Invariant(ds, m) && c <= f < |ds| && CanSync(m, c, f) && Settles(m, c, f, m') && AllEndsClosed(ds, m)
    ensures StaysClosed(ds, AfterSync(ds, c, f), m')
    decreases f
  {
    if c == f {
      assert m' == m;
    } else {
      var ds1, m1 := ds[f - 1 := SyncedWith(ds[f - 1], ds[f])], m[f - 1 := m[f - 1].(owed := false)];
      SyncOneKeeps(ds, m, f, m1);
      SyncOneStaysClosed(ds, m, f, m1);
      SyncStaysClosed(ds1, m1, c, f - 1, m');
    }
  }

  lemma RegridStaysClosed(ds: Hierarchy, m: seq<Mark>, l: nat, ds': Hierarchy, m': seq<Mark>)
    requires AllEndsClosed(ds, m) && l < |ds| && (forall i | l <= i < |m| :: !m[i].owed) && SameFlow(m, m')
    requires l < |ds'| <= |m| && ds'[..l + 1] == ds[..l + 1]
    ensures StaysClosed(ds, ds', m')
  {
    assert forall k | 0 <= k <= l :: ds'[k] == ds'[..l + 1][k] == ds[..l + 1][k] == ds[k];
    forall k | 0 <= k < |ds'|
      ensures LevelClosed(ds', m', k)
    {
      assert k <= l ==> LevelClosed(ds, m, k);
    }
  }

  lemma ResetStaysClosed(ds: Hierarchy, m: seq<Mark>, l: nat)
    requires Invariant(ds, m) && AllEndsClosed(ds, m) && l < |ds|
    ensures StaysClosed(ds, AfterReset(ds, l), m)
  {
    assert l > 0 ==> PairOk(ds, m, l - 1);
    assert LevelOk(ds[l]);
    forall k | 0 <= k < |ds|
      ensures LevelClosed(AfterReset(ds, l), m, k)
    {
      assert LevelClosed(ds, m, k);
    }
  }

  lemma EventStaysClosed(ds: Hierarchy, m: seq<Mark>, e: Event, ds': Hierarchy, m': seq<Mark>)
    requires Invariant(ds, m) && Allowed(m, e) && MarksChange(m, e, m') && Next(ds, e, ds')
    requires AllEndsClosed(ds, m) && IsClosed(e)
    ensures StaysClosed(ds, ds', m')
  {
    hide StaysClosed, AllEndsClosed, AfterStep, AfterSync, AfterReset, SoundFrom, PairOk, IsClosed, SameFlow;
    FlowStays(m, e, m');
    match e
    case Step(_, _, _, _, _, _, _, _, _, _, _) =>
      StepStaysClosed(ds, m, e, m');
    case Sync(c, f, _, _, _) =>
      SyncIsAllowed(m, e);
      SyncStaysClosed(ds, m, c, f, m');
    case Reset(l, _, _) =>
      ResetStaysClosed(ds, m, l);
    case Regrid(l, _, _, _) =>
      RegridStaysClosed(ds, m, l, ds', m');
    case NewDt(_, _) =>
      RegridStaysClosed(ds, m, |ds| - 1, ds', m');
  }

  lemma {:induction false} RunStaysClosed(h: History, r: Rules, run: seq<Hierarchy>, i: nat)
    requires Lawful(h, r) && IsRun(h, run) && StartsRun(run[0], r.levels) && AllClosed(h) && i <= |h|
    ensures StaysClosed(run[0], run[i], Marks(h[..i], r.levels))
    decreases i
  {
    if i == 0 {
      NothingYet(run[0], r.levels);
    } else {
      var j := i - 1;
      RunStaysClosed(h, r, run, j);
      RunKeeps(h, r, run, j);
      LawfulPrefix(h, r, j);
      assert h[..i] == h[..j] + [h[j]];
      MarksAfterEvent(h[..j], h[j], r.levels);
      EventStaysClosed(run[j], Marks(h[..j], r.levels), h[j], run[i], Marks(h[..i], r.levels));
    }
  }

  /** From the first to the last hierarchy of the run, what is held has not changed at all. */
  predicate KeepsMass(run: seq<Hierarchy>) {
    |run| > 0 && Mass(run[|run| - 1], 0) == Mass(run[0], 0)
  }

  /** If no step has a flux through the ends of the domain, what the hierarchy holds does not change at all. */
  lemma {:induction false} ClosedRunConserves(h: History, r: Rules, run: seq<Hierarchy>)
    requires Lawful(h, r) && (forall l | 0 <= l < r.levels :: !Pending(h, l)) && AllClosed(h)
    requires IsRun(h, run) && StartsRun(run[0], r.levels) && WholeDomain(run[0][0])
    ensures KeepsMass(run)
  {
    hide Lawful, SoundFrom, WholeDomain, Mass, AllClosed, AllEndsClosed;
    LawfulRunConserves(h, r, run);
    assert h[..|h|] == h;
    RunStaysClosed(h, r, run, |h|);
  }
}
