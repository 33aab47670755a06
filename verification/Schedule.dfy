/** The history of level operations that a run of the time integrator issues, and what it means for
    that history to follow the Berger-Colella schedule. */
module Schedule {
  import opened Wrappers

  datatype Event =
      /** One non-regrid advanceLevel call.  `finer` says whether a finer level existed at that time;
          `hadNew`, `hadFlux` and `hadFluxSum` say which storage was already live on entry, and `dtNext` is the
          time increment that the call returned. */
    | Step(level: nat, from: real, to: real, first: bool, finer: bool, flux: seq<real>, dataTime: real,
           hadNew: bool, hadFlux: bool, hadFluxSum: bool, dtNext: real)
      /** One standardLevelSynchronization call, with the NEW times of the levels in its range and the
          flux sums of the levels `coarsest + 1 .. finest` that it coarsened. */
    | Sync(coarsest: nat, finest: nat, time: real, newTimes: seq<Option<real>>, fluxSums: seq<Option<seq<real>>>)
      /** One resetTimeDependentData call, with the time of the NEW data that became CURRENT. */
    | Reset(level: nat, stamp: real, data: Option<real>)
      /** One regridAllFinerLevels call, with the numbers of the finest level before and after. */
    | Regrid(level: nat, time: real, oldFinest: nat, finest: nat)
      /** The maximum time increment of a level has been computed anew from the last step of the next coarser one. */
    | NewDt(level: nat, dt: real)

  type History = seq<Event>

  /** The parameters of a run that the schedule depends on: the number of levels there may be, the regrid interval and
      the refinement ratio of each, and the part of the remaining time that planning may drop. */
  datatype Rules = Rules(levels: nat, intervals: seq<int>, ratios: seq<int>, tolerance: real)

  // ---- flux integrals at the faces of a level

  function At(f: seq<real>, j: int): real {
    if 0 <= j < |f| then f[j] else 0.0
  }

  function Plus(f: seq<real>, g: seq<real>): (r: seq<real>)
    ensures |r| == |g| && forall j | 0 <= j < |r| :: r[j] == At(f, j) + g[j]
  {
    seq(|g|, j requires 0 <= j < |g| => At(f, j) + g[j])
  }

  function Last(h: History): Event
    requires h != []
  {
    h[|h| - 1]
  }

  function Front(h: History): History
    requires h != []
  {
    h[..|h| - 1]
  }

  predicate StepsOn(e: Event, l: nat) {
    e.Step? && e.level == l
  }

  predicate Covers(e: Event, l: nat) {
    e.Sync? && e.coarsest <= l < e.finest
  }

  predicate Touches(e: Event, l: nat) {
    StepsOn(e, l) || Covers(e, l)
  }

  /** A regrid that removes level `l`, or creates it. */
  predicate Renews(e: Event, l: nat) {
    e.Regrid? && l > e.level && (l > e.oldFinest || l > e.finest)
  }

  predicate SetsDt(e: Event, l: nat) {
    e.NewDt? && e.level == l
  }

  /** The maximum time increment of level `l` has been computed since the level was created. */
  predicate DtKnown(h: History, l: nat) {
    if h == [] then false
    else if SetsDt(Last(h), l) then true
    else !Renews(Last(h), l) && DtKnown(Front(h), l)
  }

  /** The last step on level `l` had a finer level and has not been synchronized with it yet. */
  predicate Pending(h: History, l: nat) {
    if h == [] then false
    else if StepsOn(Last(h), l) then Last(h).finer
    else !Covers(Last(h), l) && Pending(Front(h), l)
  }

  /** The time interval of the last step on level `l`. */
  function Interval(h: History, l: nat): Option<(real, real)> {
    if h == [] then None
    else if StepsOn(Last(h), l) then Some((Last(h).from, Last(h).to))
    else Interval(Front(h), l)
  }

  /** The steps taken on level `l` since the last step on the next coarser level. */
  function Substeps(h: History, l: nat): History {
    if h == [] then []
    else if StepsOn(Last(h), l) then Substeps(Front(h), l) + [Last(h)]
    else if l > 0 && StepsOn(Last(h), l - 1) then []
    else Substeps(Front(h), l)
  }

  /** The latest bound on the time increment of level `l`: what its last step returned, or what has been computed
      anew since. */
  function Limit(h: History, l: nat): real {
    if h == [] then 0.0
    else if StepsOn(Last(h), l) then Last(h).dtNext
    else if SetsDt(Last(h), l) then Last(h).dt
    else Limit(Front(h), l)
  }

  /** The levels finer than `l` are replaced. */
  predicate Regrids(e: Event, l: nat) {
    e.Regrid? && e.level <= l
  }

  /** Level `l` or a coarser one has regridded since the last step on level `l`. */
  predicate Regridded(h: History, l: nat) {
    if h == [] then false
    else if StepsOn(Last(h), l) then false
    else Regrids(Last(h), l) || Regridded(Front(h), l)
  }

  /** After that many steps in its sequence, level `l` has to be regridded: the steps fill whole regrid intervals, and
      the level can be refined. */
  predicate Due(r: Rules, l: nat, steps: nat) {
    && l + 1 < r.levels && l < |r.intervals| && r.intervals[l] > 0
    && steps > 0 && steps % r.intervals[l] == 0
  }

  /** A regrid of level `l` is due after the last step on it, and neither this level nor a coarser one has done it. */
  predicate RegridOwed(h: History, r: Rules, l: nat) {
    Due(r, l, |Substeps(h, l)|) && !Regridded(h, l)
  }

  predicate AllSteps(h: History) {
    forall i | 0 <= i < |h| :: h[i].Step?
  }

  /** Steps that partition the interval from `a` to `b`: contiguous, non-overlapping, none backwards. */
  predicate Partition(steps: History, a: real, b: real) {
    && steps != []
    && AllSteps(steps)
    && steps[0].from == a
    && Last(steps).to == b
    && (forall i | 0 <= i < |steps| :: steps[i].from <= steps[i].to)
    && (forall i | 0 < i < |steps| :: steps[i - 1].to == steps[i].from)
  }

  /** The flux integrals of all these steps, added up face by face. */
  function TotalFlux(steps: History): seq<real>
    requires AllSteps(steps)
  {
    if steps == [] then [] else Plus(TotalFlux(Front(steps)), Last(steps).flux)
  }

  lemma {:induction false} SubstepsAreSteps(h: History, l: nat)
    ensures AllSteps(Substeps(h, l))
    ensures forall i | 0 <= i < |Substeps(h, l)| :: StepsOn(Substeps(h, l)[i], l)
  {
    if h != [] {
      SubstepsAreSteps(Front(h), l);
    }
  }

  /** The flux integrals of the steps on `l` since the last step on the next coarser level, added up. */
  function SubstepFlux(h: History, l: nat): seq<real> {
    SubstepsAreSteps(h, l);
    TotalFlux(Substeps(h, l))
  }

  /** The stretch of time that a sequence of steps partitions. */
  datatype Cover = Nothing | Covering(from: real, to: real) | Broken

  ghost function CoverOf(steps: History): Cover
    requires AllSteps(steps)
  {
    if steps == [] then Nothing
    else if Partition(steps, steps[0].from, Last(steps).to) then Covering(steps[0].from, Last(steps).to)
    else Broken
  }

  /** What the history says about one level: whether its last step owes a synchronization, the interval of
      that step, the time covered and the flux summed by the steps since its parent's last step, whether its
      time increment is known and what bounds it, the number of those steps, and whether it has been regridded
      since the last one. */
  datatype Mark = Mark(owed: bool, interval: Option<(real, real)>, cover: Cover, flux: seq<real>, dtKnown: bool,
                       limit: real, steps: nat, regridded: bool)

  ghost function MarkOf(h: History, l: nat): Mark {
    SubstepsAreSteps(h, l);
    Mark(Pending(h, l), Interval(h, l), CoverOf(Substeps(h, l)), SubstepFlux(h, l), DtKnown(h, l),
         Limit(h, l), |Substeps(h, l)|, Regridded(h, l))
  }

  ghost function Marks(h: History, n: nat): (m: seq<Mark>)
    ensures |m| == n
    ensures forall k | 0 <= k < n :: m[k] == MarkOf(h, k)
  {
    seq(n, k requires 0 <= k < n => MarkOf(h, k))
  }

  /** Level `l` and the finer one are ready to be synchronized at `time`: level `l` stands at the end of an
      unsynchronized step, the substeps of l + 1 partition exactly that step, and the flux sum carried by
      l + 1 is the sum of the fluxes of exactly those substeps. */
  ghost predicate PairReady(m: seq<Mark>, l: nat, time: real, fluxSum: Option<seq<real>>)
    requires l + 1 < |m|
  {
    && m[l].owed
    && m[l].interval.Some?
    && m[l].interval.value.1 == time
    && m[l + 1].cover == Covering(m[l].interval.value.0, time)
    && fluxSum == Some(m[l + 1].flux)
  }

  /** Event `e` is allowed when the history so far says `m` about the levels. */
  ghost predicate Allowed(m: seq<Mark>, e: Event) {
    match e
    case Step(l, from, to, first, finer, _, dataTime, hadNew, hadFlux, hadFluxSum, _) =>
      && l < |m|
      && (from < to || (from == to && l == 0 && !finer))
      && dataTime == from
      && !hadNew
      && !m[l].owed
      && (l > 0 ==> m[l - 1].owed && m[l].dtKnown)
      && (l > 0 ==> (first <==> m[l].cover.Nothing?))
      && (l == 0 ==> first)
      && (l > 0 && first ==> !hadFlux && !hadFluxSum)
    case Sync(c, f, time, newTimes, fluxSums) =>
      && c < f < |m| && !m[f].owed
      && |newTimes| == f - c + 1
      && |fluxSums| == f - c
      && (forall i | 0 <= i < |newTimes| :: newTimes[i] == Some(time))
      && (forall i | 0 <= i < |fluxSums| :: PairReady(m, c + i, time, fluxSums[i]))
    case Reset(l, stamp, data) =>
      && l < |m|
      && data == Some(stamp)
      && !m[l].owed
    case Regrid(l, _, _, finest) =>
      l <= finest < |m| && forall k | l <= k < |m| :: !m[k].owed
    case NewDt(l, dt) =>
      0 < l < |m| && 0.0 < dt
  }

  /** The new maximum time increment `dt` of level `l` is the largest one that, times the refinement ratio, is no
      more than the increment `coarse` of the next coarser level, and, if the level can be refined, leaves time for
      a regrid interval of steps. */
  predicate IsFreshDt(r: Rules, l: nat, coarse: real, dt: real) {
    && l < |r.ratios| && l < |r.intervals|
    && dt * r.ratios[l] as real <= coarse
    && (l + 1 < r.levels ==> dt * r.intervals[l] as real <= coarse)
    && (dt * r.ratios[l] as real == coarse || (l + 1 < r.levels && dt * r.intervals[l] as real == coarse))
  }

  /** No regrid is due on level `l` or a finer one that has not been done. */
  ghost predicate RegridsDone(r: Rules, m: seq<Mark>, l: nat) {
    forall k | l <= k < |m| :: Due(r, k, m[k].steps) ==> m[k].regridded
  }

  /** Event `e` does not come too early or too late: a step waits until all regrids are done that are due on its level
      and the finer ones, and above level zero it exceeds the bound on its time increment at most by the tolerance;
      a level regrids only when that is due; and a new increment fits into the last step of the next coarser level. */
  ghost predicate Timely(r: Rules, m: seq<Mark>, e: Event) {
    match e
    case Step(l, from, to, _, _, _, _, _, _, _, _) =>
      RegridsDone(r, m, l) && (0 < l < |m| ==> (to - from) * (1.0 - r.tolerance) <= m[l].limit)
    case Regrid(l, _, _, _) => l < |m| && Due(r, l, m[l].steps)
    case NewDt(l, dt) =>
      0 < l < |m| ==>
        var interval := m[l - 1].interval;
        interval.Some? && IsFreshDt(r, l, interval.value.1 - interval.value.0, dt)
    case _ => true
  }

  ghost predicate AllowedAt(h: History, r: Rules, i: nat)
    requires i < |h|
  {
    Allowed(Marks(h[..i], r.levels), h[i]) && Timely(r, Marks(h[..i], r.levels), h[i])
  }

  /** Every event of the history was allowed when it happened, and came in time. */
  ghost predicate Lawful(h: History, r: Rules) {
    forall i | 0 <= i < |h| :: AllowedAt(h, r, i)
  }

  lemma ExtendLaw(h: History, e: Event, r: Rules)
    ensures Lawful(h + [e], r) <==>
            Lawful(h, r) && Allowed(Marks(h, r.levels), e) && Timely(r, Marks(h, r.levels), e)
  {
    hide Allowed, Timely;
    var h' := h + [e];
    assert h'[..|h|] == h;
    assert AllowedAt(h', r, |h|) <==> Allowed(Marks(h, r.levels), e) && Timely(r, Marks(h, r.levels), e);
    forall i | 0 <= i < |h|
      ensures AllowedAt(h', r, i) <==> AllowedAt(h, r, i)
    {
      assert h'[..i] == h[..i];
    }
  }

  function Extended(c: Cover, from: real, to: real): Cover {
    if from <= to && c.Nothing? then Covering(from, to)
    else if from <= to && c.Covering? && c.to == from then Covering(c.from, to)
    else Broken
  }

  /** How one more event changes the mark of level `k`. */
  function MarkAfter(m: Mark, e: Event, k: nat): Mark {
    if StepsOn(e, k) then Mark(e.finer, Some((e.from, e.to)), Extended(m.cover, e.from, e.to), Plus(m.flux, e.flux),
                               m.dtKnown, e.dtNext, m.steps + 1, false)
    else if k > 0 && StepsOn(e, k - 1) then m.(cover := Nothing, flux := [], steps := 0)
    else if Covers(e, k) then m.(owed := false)
    else if SetsDt(e, k) then m.(dtKnown := true, limit := e.dt)
    else m.(dtKnown := m.dtKnown && !Renews(e, k), regridded := m.regridded || Regrids(e, k))
  }

  lemma {:induction false} CoverExtended(steps: History, e: Event)
    requires AllSteps(steps) && e.Step?
    ensures CoverOf(steps + [e]) == Extended(CoverOf(steps), e.from, e.to)
    ensures TotalFlux(steps + [e]) == Plus(TotalFlux(steps), e.flux)
  {
    var s := steps + [e];
    assert Front(s) == steps && Last(s) == e;
    if steps != [] {
      var a := steps[0].from;
      assert s[0].from == a;
      assert forall i | 0 <= i < |steps| :: s[i] == steps[i];
      if Partition(s, a, e.to) {
        assert s[|steps| - 1].to == s[|steps|].from;
        assert Partition(steps, a, e.from);
      }
    }
  }

  /** The marks can be kept up to date event by event. */
  lemma MarkAfterEvent(h: History, e: Event, k: nat)
    ensures MarkOf(h + [e], k) == MarkAfter(MarkOf(h, k), e, k)
  {
    assert Front(h + [e]) == h;
    assert Last(h + [e]) == e;
    SubstepsAreSteps(h, k);
    SubstepsAreSteps(h + [e], k);
    if StepsOn(e, k) {
      assert Substeps(h + [e], k) == Substeps(h, k) + [e];
      CoverExtended(Substeps(h, k), e);
    }
  }

  lemma MarksAfterEvent(h: History, e: Event, n: nat)
    ensures forall k | 0 <= k < n :: Marks(h + [e], n)[k] == MarkAfter(Marks(h, n)[k], e, k)
  {
    forall k | 0 <= k < n
      ensures Marks(h + [e], n)[k] == MarkAfter(Marks(h, n)[k], e, k)
    {
      MarkAfterEvent(h, e, k);
    }
  }

  lemma LawfulPrefix(h: History, r: Rules, n: nat)
    requires Lawful(h, r) && n < |h|
    ensures Lawful(h[..n], r) && Allowed(Marks(h[..n], r.levels), h[n]) && Timely(r, Marks(h[..n], r.levels), h[n])
  {
    hide Allowed, Timely;
    assert AllowedAt(h, r, n);
    forall i | 0 <= i < n
      ensures AllowedAt(h[..n], r, i)
    {
      assert AllowedAt(h, r, i);
      assert h[..n][..i] == h[..i];
    }
  }

  /** An unsynchronized step on `l` was the last touch of the pair, and its interval is remembered. */
  lemma {:induction false} PendingStep(h: History, l: nat) returns (i: nat)
    requires Pending(h, l)
    ensures i < |h| && StepsOn(h[i], l) && h[i].finer
    ensures forall m | i < m < |h| :: !Touches(h[m], l)
    ensures Interval(h, l) == Some((h[i].from, h[i].to))
  {
    if StepsOn(Last(h), l) {
      i := |h| - 1;
    } else {
      i := PendingStep(Front(h), l);
    }
  }

  lemma {:induction false} StillPending(h: History, l: nat, i: nat)
    requires i < |h| && StepsOn(h[i], l) && h[i].finer
    requires forall m | i < m < |h| :: !Touches(h[m], l)
    ensures Pending(h, l)
  {
    if i < |h| - 1 {
      assert !Touches(Last(h), l);
      StillPending(Front(h), l, i);
    }
  }

  /** The first event after the step at position `i` that touches the pair (l, l + 1) is a synchronization. */
  lemma {:induction false} NextTouchIsSync(h: History, r: Rules, l: nat, i: nat) returns (j: nat)
    requires Lawful(h, r) && !Pending(h, l)
    requires i < |h| && StepsOn(h[i], l) && h[i].finer
    ensures i < j < |h| && Covers(h[j], l)
    ensures forall m | i < m < j :: !Touches(h[m], l)
  {
    j := i + 1;
    while j < |h| && !Touches(h[j], l)
      invariant i < j <= |h|
      invariant forall m | i < m < j :: !Touches(h[m], l)
    {
      j := j + 1;
    }
    StillPending(h[..j], l, i);
    assert h[..|h|] == h;
    assert j < |h|;
    LawfulPrefix(h, r, j);
  }

  /** Two synchronizations of the pair (l, l + 1) have a step on `l` between them. */
  lemma {:induction false} SyncsAreSeparated(h: History, r: Rules, l: nat, j: nat, m: nat)
    requires Lawful(h, r) && j < m < |h| && Covers(h[j], l) && Covers(h[m], l)
    ensures exists n :: j < n < m && StepsOn(h[n], l)
  {
    hide Lawful, Timely, DtKnown, Limit, Regridded;
    LawfulPrefix(h, r, m);
    var i := l - h[m].coarsest;
    assert PairReady(Marks(h[..m], r.levels), h[m].coarsest + i, h[m].time, h[m].fluxSums[i]);
    var n := PendingStep(h[..m], l);
    assert h[..m][j] == h[j] && h[..m][n] == h[n];
  }

  /** The steps on level `l` in the order they occur. */
  function StepsIn(h: History, l: nat): History {
    if h == [] then []
    else if StepsOn(Last(h), l) then StepsIn(Front(h), l) + [Last(h)]
    else StepsIn(Front(h), l)
  }

  lemma {:induction false} StepsInOccur(h: History, l: nat, k: nat) returns (n: nat)
    requires k < |StepsIn(h, l)|
    ensures n < |h| && h[n] == StepsIn(h, l)[k] && StepsOn(h[n], l)
  {
    if StepsOn(Last(h), l) && k == |StepsIn(h, l)| - 1 {
      n := |h| - 1;
    } else {
      n := StepsInOccur(Front(h), l, k);
    }
  }

  predicate AllPositive(steps: History) {
    forall k | 0 <= k < |steps| :: steps[k].Step? && steps[k].from < steps[k].to
  }

  /** Above level zero every step of a lawful history has positive length. */
  lemma PositiveSteps(h: History, r: Rules, l: nat, a: nat, b: nat)
    requires Lawful(h, r) && l > 0 && a <= b <= |h|
    ensures AllPositive(StepsIn(h[a..b], l))
  {
    var steps := StepsIn(h[a..b], l);
    forall k: nat | k < |steps|
      ensures steps[k].Step? && steps[k].from < steps[k].to
    {
      var n := StepsInOccur(h[a..b], l, k);
      assert h[a..b][n] == h[a + n];
      LawfulPrefix(h, r, a + n);
    }
  }

  lemma {:induction false} SubstepsSinceParent(h: History, l: nat, i: nat)
    requires i < |h| && StepsOn(h[i], l)
    requires forall m | i < m < |h| :: !StepsOn(h[m], l)
    ensures Substeps(h, l + 1) == StepsIn(h[i + 1..], l + 1)
  {
    if i < |h| - 1 {
      SubstepsSinceParent(Front(h), l, i);
      assert Front(h)[i + 1..] == Front(h[i + 1..]);
    }
  }

  lemma {:induction false} DtComputed(h: History, l: nat) returns (n: nat)
    requires DtKnown(h, l)
    ensures n < |h| && SetsDt(h[n], l) && forall m | n < m < |h| :: !Renews(h[m], l)
  {
    n := |h| - 1;
    if !SetsDt(Last(h), l) {
      n := DtComputed(Front(h), l);
    }
  }

  /** The last step on level `l`. */
  lemma {:induction false} LastStepOn(h: History, l: nat) returns (i: nat)
    requires Interval(h, l).Some?
    ensures i < |h| && StepsOn(h[i], l) && Interval(h, l) == Some((h[i].from, h[i].to))
    ensures forall m | i < m < |h| :: !StepsOn(h[m], l)
  {
    if StepsOn(Last(h), l) {
      i := |h| - 1;
    } else {
      i := LastStepOn(Front(h), l);
    }
  }

  /** A level that a regrid has created, at position `g`, gets a new maximum time increment before its first step,
      whatever regrids happen in between; and the increment is the largest one that fits into the last step of the
      next coarser level, at position `c`. */
  lemma {:induction false} NewLevelGetsNewDt(h: History, r: Rules, l: nat, g: nat, i: nat) returns (n: nat, c: nat)
    requires Lawful(h, r) && l > 0 && g < i < |h| && Renews(h[g], l) && StepsOn(h[i], l)
    ensures g < n < i && SetsDt(h[n], l) && forall m | n < m < i :: !Renews(h[m], l)
    ensures c < n && StepsOn(h[c], l - 1) && forall m | c < m < n :: !StepsOn(h[m], l - 1)
    ensures h[n].dt > 0.0 && IsFreshDt(r, l, h[c].to - h[c].from, h[n].dt)
  {
    hide Lawful, CoverOf, Pending, Substeps, IsFreshDt;
    LawfulPrefix(h, r, i);
    n := DtComputed(h[..i], l);
    PrefixOfPrefix(h, n, i);
    assert h[..i][n] == h[n] && h[..i][g] == h[g];
    LawfulPrefix(h, r, n);
    assert Marks(h[..n], r.levels)[l - 1] == MarkOf(h[..n], l - 1);
    c := LastStepOn(h[..n], l - 1);
    assert h[..n][c] == h[c];
  }

  /** Where the bound on the time increment of level `l` comes from. */
  lemma {:induction false} LimitComputed(h: History, l: nat) returns (n: nat)
    requires DtKnown(h, l)
    ensures n < |h| && (StepsOn(h[n], l) || SetsDt(h[n], l))
    ensures Limit(h, l) == if StepsOn(h[n], l) then h[n].dtNext else h[n].dt
    ensures forall m | n < m < |h| :: !StepsOn(h[m], l) && !SetsDt(h[m], l) && !Renews(h[m], l)
  {
    n := |h| - 1;
    if !SetsDt(Last(h), l) && !StepsOn(Last(h), l) {
      n := LimitComputed(Front(h), l);
    }
  }

  /** Above level zero every step is limited: by the time increment that the last advance of the level returned, or by
      the one that has been computed anew since, because a regrid had created the level.  It is exceeded at most by
      the tolerance. */
  lemma {:induction false} EveryStepIsLimited(h: History, r: Rules, l: nat, j: nat) returns (n: nat)
    requires Lawful(h, r) && l > 0 && j < |h| && StepsOn(h[j], l)
    ensures n < j && (StepsOn(h[n], l) || SetsDt(h[n], l))
    ensures forall m | n < m < j :: !StepsOn(h[m], l) && !SetsDt(h[m], l) && !Renews(h[m], l)
    ensures (h[j].to - h[j].from) * (1.0 - r.tolerance) <= if StepsOn(h[n], l) then h[n].dtNext else h[n].dt
  {
    LawfulPrefix(h, r, j);
    n := LimitComputed(h[..j], l);
    assert h[..j][n] == h[n];
  }

  /** On level zero the bound is what the last step has returned. */
  lemma {:induction false} LimitOfZero(h: History, r: Rules)
    requires Lawful(h, r) && Substeps(h, 0) != []
    ensures StepsOn(Last(Substeps(h, 0)), 0) && Limit(h, 0) == Last(Substeps(h, 0)).dtNext
  {
    SubstepsAreSteps(h, 0);
    if !StepsOn(Last(h), 0) {
      LawfulPrefix(h, r, |h| - 1);
      LimitOfZero(Front(h), r);
    }
  }

  /** A level regrids only after steps in its sequence that fill whole regrid intervals, and only if it can be
      refined.  The sequence of level zero begins with the run. */
  lemma RegridsAreDue(h: History, r: Rules, i: nat)
    requires Lawful(h, r) && i < |h| && h[i].Regrid?
    ensures var l, steps := h[i].level, |Substeps(h[..i], h[i].level)|;
            l + 1 < r.levels && l < |r.intervals| && r.intervals[l] > 0 && steps > 0 && steps % r.intervals[l] == 0
  {
    LawfulPrefix(h, r, i);
  }

  lemma {:induction false} RegriddedSince(h: History, l: nat, i: nat) returns (g: nat)
    requires i < |h| && StepsOn(h[i], l) && Regridded(h, l)
    ensures i < g < |h| && Regrids(h[g], l)
  {
    if Regrids(Last(h), l) {
      g := |h| - 1;
    } else {
      g := RegriddedSince(Front(h), l, i);
    }
  }

  lemma {:induction false} CountStays(h: History, l: nat, i: nat)
    requires i < |h| && forall m | i < m < |h| :: !(h[m].Step? && h[m].level <= l)
    ensures Substeps(h, l) == Substeps(h[..i + 1], l)
  {
    if i < |h| - 1 {
      assert !(Last(h).Step? && Last(h).level <= l);
      CountStays(Front(h), l, i);
      assert Front(h)[..i + 1] == h[..i + 1];
    } else {
      assert h[..i + 1] == h;
    }
  }

  lemma PrefixOfPrefix(h: History, i: nat, j: nat)
    requires i <= j <= |h|
    ensures h[..j][..i] == h[..i]
  {
  }

  /** Conversely, whenever the steps of a sequence fill whole regrid intervals, the level or a coarser one regrids
      before the next step on any of these levels; or before the end of a history that owes no regrid. */
  lemma DueLevelsAreRegridded(h: History, r: Rules, l: nat, i: nat, j: nat) returns (g: nat)
    requires Lawful(h, r) && l + 1 < r.levels && l < |r.intervals| && i < j <= |h| && StepsOn(h[i], l)
    requires r.intervals[l] > 0 && |Substeps(h[..i + 1], l)| % r.intervals[l] == 0
    requires forall m | i < m < j :: !(h[m].Step? && h[m].level <= l)
    requires if j < |h| then h[j].Step? && h[j].level <= l else !RegridOwed(h, r, l)
    ensures i < g < j && h[g].Regrid? && h[g].level <= l
  {
    hide Lawful, Allowed, Pending, DtKnown, Limit, Interval;
    var p := h[..j];
    CountStays(p, l, i);
    PrefixOfPrefix(h, i + 1, j);
    assert Last(h[..i + 1]) == h[i] && p[i] == h[i];
    assert |Substeps(p, l)| > 0 && Due(r, l, |Substeps(p, l)|);
    if j < |h| {
      LawfulPrefix(h, r, j);
      assert Marks(p, r.levels)[l] == MarkOf(p, l);
      assert RegridsDone(r, Marks(p, r.levels), h[j].level);
    } else {
      assert p == h;
    }
    g := RegriddedSince(p, l, i);
    assert p[g] == h[g];
  }

  /** The next synchronization after the step at position `i`, at position `j`, is that of exactly this step. */
  lemma SyncDelivers(h: History, r: Rules, l: nat, i: nat, j: nat)
    requires Lawful(h, r) && i < j < |h| && StepsOn(h[i], l) && h[i].finer && Covers(h[j], l)
    requires forall m | i < m < j :: !Touches(h[m], l)
    ensures h[j].time == h[i].to
    ensures |h[j].newTimes| == h[j].finest - h[j].coarsest + 1
    ensures forall k | 0 <= k < |h[j].newTimes| :: h[j].newTimes[k] == Some(h[i].to)
    ensures AllSteps(StepsIn(h[i + 1..j], l + 1))
    ensures Partition(StepsIn(h[i + 1..j], l + 1), h[i].from, h[i].to)
    ensures |h[j].fluxSums| == h[j].finest - h[j].coarsest
    ensures h[j].fluxSums[l - h[j].coarsest] == Some(TotalFlux(StepsIn(h[i + 1..j], l + 1)))
  {
    var p := h[..j];
    LawfulPrefix(h, r, j);
    assert PairReady(Marks(p, r.levels), h[j].coarsest + (l - h[j].coarsest), h[j].time,
                     h[j].fluxSums[l - h[j].coarsest]);
    var k := PendingStep(p, l);
    assert p[i] == h[i] && p[k] == h[k];
    assert k == i;
    SubstepsSinceParent(p, l, i);
    SubstepsAreSteps(p, l + 1);
    assert p[i + 1..] == h[i + 1..j];
  }

  /** The Berger-Colella schedule, for every lawful history that owes nothing on level `l`: a step on `l`
      that had a finer level is followed, before the next step on `l`, by exactly one synchronization that
      covers the pair (l, l + 1); it happens at the end time of the step, every level in its range has NEW
      data at that time, the steps taken on l + 1 in between have positive length and partition exactly the
      interval of the step, and the flux sum that level l + 1 delivers is, at every face, the sum of the fluxes of
      exactly those steps. */
  lemma EveryStepIsSynchronized(h: History, r: Rules, l: nat, i: nat) returns (j: nat)
    requires Lawful(h, r) && !Pending(h, l)
    requires i < |h| && StepsOn(h[i], l) && h[i].finer
    ensures i < j < |h| && Covers(h[j], l)
    ensures forall m | i < m < j :: !Touches(h[m], l)
    ensures forall m | j < m < |h| && Covers(h[m], l) :: exists n :: j < n < m && StepsOn(h[n], l)
    ensures h[j].time == h[i].to
    ensures |h[j].newTimes| == h[j].finest - h[j].coarsest + 1
    ensures forall k | 0 <= k < |h[j].newTimes| :: h[j].newTimes[k] == Some(h[i].to)
    ensures AllSteps(StepsIn(h[i + 1..j], l + 1))
    ensures Partition(StepsIn(h[i + 1..j], l + 1), h[i].from, h[i].to)
    ensures AllPositive(StepsIn(h[i + 1..j], l + 1))
    ensures |h[j].fluxSums| == h[j].finest - h[j].coarsest
    ensures h[j].fluxSums[l - h[j].coarsest] == Some(TotalFlux(StepsIn(h[i + 1..j], l + 1)))
  {
    j := NextTouchIsSync(h, r, l, i);
    forall m | j < m < |h| && Covers(h[m], l)
      ensures exists n :: j < n < m && StepsOn(h[n], l)
    {
      SyncsAreSeparated(h, r, l, j, m);
    }
    SyncDelivers(h, r, l, i, j);
    PositiveSteps(h, r, l + 1, i + 1, j);
  }
}
