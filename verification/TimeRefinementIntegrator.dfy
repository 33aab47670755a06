/** The recursive time stepping protocol of the time refinement integrator. */
module TimeRefinement {
  import opened Wrappers
  import opened Schedule
  import opened LevelIntegration
  import opened StepSize
  import Conservation
  import RunConservation

  /** The integrator's per-level members: the time before the last step, the simulation time, the maximum
      and actual time increment, the steps taken and planned in the current sequence. */
  datatype Clock = Clock(oldTime: real, simTime: real, dtMax: real, dtActual: real, step: int, maxSteps: int)

  /** The state of a run at one moment: the integrator's members and the level data it drives. */
  datatype State = State(
    levels: seq<LevelData>, marks: seq<Mark>, fluxZero: bool,
    clocks: seq<Clock>,
    integratorTime: real, justRegridded: bool, zeroAdvanced: bool, hierarchyAdvanced: bool, lastFinest: int)

  class TimeRefinementIntegrator {
    const maxLevels: nat
    const regridInterval: seq<int>
    /** Largest component of the refinement ratio to the next coarser level. */
    const ratio: seq<int>
    const growDt: real
    /** Square root of the machine epsilon. */
    const sqrtEps: real
    const hli: HyperbolicLevelIntegrator
    const startTime: real

    var integratorTime: real
    var justRegridded: bool
    var lastFinestLevel: int
    var clocks: seq<Clock>
    var levelZeroAdvanced: bool
    var hierarchyAdvanced: bool

    // ---------------------------------------------------------------- configuration and state

    constructor (maxLevels: nat, regridInterval: seq<int>, ratio: seq<int>, growDt: real, sqrtEps: real,
                 hli: HyperbolicLevelIntegrator, startTime: real)
      requires 1 <= maxLevels == |regridInterval| == |ratio|
      ensures this.maxLevels == maxLevels && this.regridInterval == regridInterval && this.ratio == ratio
      ensures this.growDt == growDt && this.sqrtEps == sqrtEps && this.hli == hli && this.startTime == startTime
      ensures integratorTime == startTime && lastFinestLevel == 0
      ensures |clocks| == maxLevels && clocks[0].step == 0
      ensures !justRegridded && !levelZeroAdvanced && !hierarchyAdvanced
    {
      this.maxLevels, this.regridInterval, this.ratio := maxLevels, regridInterval, ratio;
      this.growDt, this.sqrtEps, this.hli, this.startTime := growDt, sqrtEps, hli, startTime;
      integratorTime, lastFinestLevel := startTime, 0;
      justRegridded, levelZeroAdvanced, hierarchyAdvanced := false, false, false;
      clocks := seq(maxLevels, _ => Clock(0.0, 0.0, 0.0, 0.0, 0, 0));
    }

    /** The parameters are those that the source accepts. */
    ghost predicate Parameters() {
      && 1 <= maxLevels == |regridInterval| == |ratio|
      && (forall k | 0 <= k < maxLevels :: regridInterval[k] >= 1 && ratio[k] >= 1)
      && growDt > 0.0
      && 0.0 < sqrtEps < 1.0
    }

    /** Parameters with which the recursion ends. */
    ghost predicate Configured() {
      Parameters() && growDt >= 1.0 && hli.minDt > 0.0
    }

    predicate LevelCanBeRefined(l: int) {
      l < maxLevels - 1
    }

    ghost function Now(): State
      reads this, hli
    {
      State(hli.levels, Marks(hli.history, maxLevels), hli.haveFluxOnLevelZero,
            clocks, integratorTime, justRegridded, levelZeroAdvanced, hierarchyAdvanced, lastFinestLevel)
    }

    function ScheduleRules(): Rules {
      Rules(maxLevels, regridInterval, ratio, sqrtEps)
    }

    /** The history of level operations is lawful, and the cell data go with it. */
    ghost predicate Obeys()
      reads hli
    {
      Lawful(hli.history, ScheduleRules()) && hli.Tracked() && |hli.run[0]| <= maxLevels
    }

    ghost predicate Shape(v: State) {
      && 1 <= |v.levels| <= maxLevels
      && |v.clocks| == |v.marks| == maxLevels
      && v.clocks[0].step >= 0
    }

    // ---------------------------------------------------------------- queries

    predicate StepsRemaining(l: nat)
      requires l < |clocks|
      reads this
    {
      if l == 0 then !levelZeroAdvanced else clocks[l].step < clocks[l].maxSteps
    }

    predicate FirstLevelStep(l: nat)
      requires l < |clocks|
      reads this
    {
      if l == 0 then !levelZeroAdvanced else clocks[l].step <= 0
    }

    predicate LastLevelStep(l: nat)
      requires l < |clocks|
      reads this
    {
      if l == 0 then levelZeroAdvanced else clocks[l].step >= clocks[l].maxSteps
    }

    /** Whether a level whose step counter is `step` can be regridded.  The counter of level zero lags by one
        while the hierarchy is being advanced. */
    predicate RegridDue(l: nat, step: int, wholeHierarchyAdvanced: bool)
      requires Parameters() && l < maxLevels
    {
      var stepNumber := if l == 0 && !wholeHierarchyAdvanced then step + 1 else step;
      stepNumber > 0 && LevelCanBeRefined(l) && stepNumber % regridInterval[l] == 0
    }

    predicate AtRegridPoint(l: nat)
      requires Parameters() && l < |clocks| <= maxLevels
      reads this
    {
      RegridDue(l, clocks[l].step, hierarchyAdvanced)
    }

    predicate CoarserLevelRegridsToo(l: nat)
      requires Parameters() && l < |clocks| <= maxLevels
      reads this
    {
      if l > 0 then AtRegridPoint(l - 1) else false
    }

    /** The answer of AtRegridPoint in state `v`. */
    ghost predicate RegridPoint(v: State, l: nat)
      requires Configured() && l < |v.clocks| <= maxLevels
    {
      RegridDue(l, v.clocks[l].step, v.hierarchyAdvanced)
    }

    ghost predicate AtLastStep(v: State, l: nat)
      requires l < |v.clocks|
    {
      if l == 0 then v.zeroAdvanced else v.clocks[l].step >= v.clocks[l].maxSteps
    }

    /** The level regrids now, and does not hand the regrid over to the next coarser level. */
    ghost predicate RegridsNow(v: State, l: nat)
      requires Configured() && l < |v.clocks| <= maxLevels
    {
      RegridPoint(v, l) && (!AtLastStep(v, l) || l == 0 || !RegridPoint(v, l - 1))
    }

    // ---------------------------------------------------------------- what holds of levels

    /** Levels from `l` on hold CURRENT data at `t` and nothing else, and owe no synchronization and no regrid. */
    ghost predicate CleanFrom(v: State, l: nat, t: real) {
      && (forall k | l <= k < |v.levels| :: v.levels[k] == Fresh(t))
      && (forall k | l <= k < |v.marks| :: !v.marks[k].owed)
      && RegridsDone(ScheduleRules(), v.marks, l)
    }

    /** The flux sum of level `l` covers exactly the time from `from` to `to`. */
    ghost predicate Summed(v: State, l: nat, from: real, to: real)
      requires l < |v.levels| && l < |v.marks|
    {
      && v.marks[l].cover == Covering(from, to)
      && v.levels[l].fluxSum == Some(v.marks[l].flux)
    }

    /** Time goes on.  Only level zero may stay where it is, if there is no finer level. */
    ghost predicate Onward(v: State, l: nat, from: real, to: real) {
      from < to || (from == to && l == 0 && |v.levels| == 1)
    }

    /** Level `l` has NEW data at `t`, from a step that began at its CURRENT time. */
    ghost predicate HasStepped(v: State, l: nat, t: real)
      requires Shape(v) && l < |v.levels|
    {
      && v.levels[l].next == Some(t)
      && Onward(v, l, v.levels[l].current, t)
      && v.clocks[l].oldTime == v.levels[l].current
      && v.marks[l].interval == Some((v.levels[l].current, t))
    }

    /** Level `k` has reached `t` and its fluxes are ready to be synchronized with its parent's. */
    ghost predicate Waiting(v: State, k: nat, t: real)
      requires Shape(v) && 0 < k < |v.levels|
    {
      && HasStepped(v, k, t)
      && v.levels[k].flux
      && v.clocks[k].simTime == t
      && Summed(v, k, v.levels[k - 1].current, t)
    }

    /** Levels from `l` on have reached `t` and wait to be synchronized by a coarser level. */
    ghost predicate WaitingFrom(v: State, l: nat, t: real)
      requires Shape(v) && l > 0
    {
      && (forall k | l <= k < |v.levels| :: Waiting(v, k, t))
      && (forall k | l <= k < |v.marks| :: v.marks[k].owed <==> k + 1 < |v.levels|)
      && |v.levels| - 1 <= v.lastFinest
      && RegridsDone(ScheduleRules(), v.marks, |v.levels|)
    }

    /** On levels that cannot be refined no regrid is due. */
    lemma NoneDueFrom(m: seq<Mark>, l: nat)
      requires !LevelCanBeRefined(l)
      ensures RegridsDone(ScheduleRules(), m, l)
    {
    }

    lemma RegridsStayDone(m: seq<Mark>, m': seq<Mark>, l: nat, f: nat)
      requires |m'| == |m| && l <= f
      requires forall k | f <= k < |m| :: m'[k].steps == m[k].steps && m'[k].regridded == m[k].regridded
      ensures RegridsDone(ScheduleRules(), m, l) ==> RegridsDone(ScheduleRules(), m', f)
    {
    }

    /** The steps on level zero partition the time from the start of the run to `t`. */
    ghost predicate CoveredUpTo(v: State, t: real)
      requires |v.marks| > 0
    {
      v.marks[0].cover == Covering(startTime, t) || (v.marks[0].cover.Nothing? && t == startTime)
    }

    /** Level zero between two advances of the hierarchy, or before its own step. */
    ghost predicate ZeroIdle(v: State, t: real)
      requires |v.levels| > 0 && |v.marks| > 0 && |v.clocks| > 0
    {
      && startTime <= t && CoveredUpTo(v, t)
      && v.levels[0] == LevelData(t, None, v.fluxZero, None)
      && !v.marks[0].owed
      && v.marks[0].steps == v.clocks[0].step && RegridsDone(ScheduleRules(), v.marks, 0)
    }

    /** The maximum step sizes of the levels up to the last finest one have been computed since those levels were
        created, and keep to what the last advance of the level has allowed. */
    ghost predicate DtsKnown(v: State, l: nat)
      requires Shape(v)
    {
      forall k | l <= k < |v.levels| && k <= v.lastFinest ::
        v.clocks[k].dtMax > 0.0 && (k > 0 ==> v.marks[k].dtKnown && v.clocks[k].dtMax <= v.marks[k].limit)
    }

    /** The maximum step sizes between the step of level `l` and its new plan, which has yet to regard what the step
        has allowed. */
    ghost predicate DtsStepped(v: State, l: nat)
      requires Shape(v) && l < |v.levels|
    {
      l <= v.lastFinest && v.clocks[l].dtMax > 0.0 && (l > 0 ==> v.marks[l].dtKnown) && DtsKnown(v, l + 1)
    }

    /** The maximum step size of level zero is the smaller one of what its last advance has allowed, and what it was in
        state `u`, grown; it is the next increment. */
    ghost predicate ZeroPlanned(u: State, v: State)
      requires |u.clocks| > 0 && |v.clocks| > 0 && |v.marks| > 0
    {
      && v.clocks[0].dtMax == MinReal(v.marks[0].limit, u.clocks[0].dtMax * growDt)
      && v.clocks[0].dtActual == v.clocks[0].dtMax
    }

    /** Nothing that belongs to levels coarser than `l` has changed, except the level data of l - 1. */
    ghost predicate CoarserUnchanged(u: State, v: State, l: nat)
      requires Shape(u) && Shape(v) && l <= |u.levels| && l <= |v.levels|
    {
      && v.integratorTime == u.integratorTime
      && (forall k | 0 <= k < l :: v.clocks[k] == u.clocks[k])
      && (forall k | 0 <= k < l - 1 :: v.levels[k] == u.levels[k])
      && (forall k | 0 <= k < l - 1 :: v.marks[k] == u.marks[k])
      && (l > 0 ==> v.zeroAdvanced == u.zeroAdvanced && v.hierarchyAdvanced == u.hierarchyAdvanced)
    }

    /** Level l - 1 has not been touched. */
    ghost predicate ParentUnchanged(u: State, v: State, l: nat)
      requires Shape(u) && Shape(v) && 0 < l <= |u.levels| && l <= |v.levels|
    {
      && v.levels[l - 1] == u.levels[l - 1]
      && v.fluxZero == u.fluxZero
      && v.marks[l - 1] == u.marks[l - 1]
    }

    /** Level l - 1 has been synchronized with level l, as the coarsest level of its range. */
    ghost predicate ParentSynchronized(u: State, v: State, l: nat)
      requires Shape(u) && Shape(v) && 0 < l <= |u.levels| && l <= |v.levels|
    {
      && v.levels[l - 1] == u.levels[l - 1].(flux := l > 1 && u.levels[l - 1].flux)
      && v.fluxZero == (l > 1 && u.fluxZero)
      && v.marks[l - 1] == u.marks[l - 1].(owed := false)
    }

    // ---------------------------------------------------------------- the recursion

    /** When level `l` is asked to advance to `end`. */
    ghost predicate Before(v: State, l: nat, end: real) {
      && Shape(v) && l < |v.levels|
      && DtsKnown(v, l) && l - 1 <= v.lastFinest
      && CleanFrom(v, if l == 0 then 1 else l, v.clocks[if l == 0 then 0 else l - 1].simTime)
      && v.integratorTime <= v.clocks[if l == 0 then 0 else l - 1].simTime
      && Onward(v, l, v.clocks[if l == 0 then 0 else l - 1].simTime, end)
      && (l == 0 ==> ZeroIdle(v, v.clocks[0].simTime) && v.lastFinest >= 0)
      && (l > 0 ==>
            && v.zeroAdvanced && !v.hierarchyAdvanced
            && HasStepped(v, l - 1, end)
            && v.clocks[l - 1].simTime == v.levels[l - 1].current
            && v.levels[l - 1].flux
            && v.clocks[l - 1].dtActual == end - v.clocks[l - 1].simTime
            && v.marks[l - 1].owed
            && v.marks[l].cover.Nothing? && v.marks[l].flux == [] && v.marks[l].steps == 0)
    }

    /** When it returns. */
    ghost predicate After(u: State, v: State, l: nat, end: real)
      requires Configured() && Shape(u) && l < |u.levels|
    {
      && Shape(v) && l < |v.levels|
      && CoarserUnchanged(u, v, l)
      && v.clocks[l].simTime == end
      && l <= v.lastFinest && DtsKnown(v, l)
      && (l == 0 ==>
            && ZeroIdle(v, end) && CleanFrom(v, 1, end) && v.marks[0].cover == Covering(startTime, end)
            && v.zeroAdvanced && v.hierarchyAdvanced && v.clocks[0].step == u.clocks[0].step + 1
            && ZeroPlanned(u, v)
            && (v.fluxZero <==> |u.levels| == 1))
      && (l > 0 ==>
            && (v.justRegridded <==> LevelCanBeRefined(l) && !RegridPoint(u, l - 1))
            && (v.justRegridded ==> ParentSynchronized(u, v, l) && CleanFrom(v, l, end))
            && (!v.justRegridded ==> ParentUnchanged(u, v, l) && WaitingFrom(v, l, end)))
    }

    /** Level `l`, which began its sequence in state `u`, is about to take a step. */
    ghost predicate InSequence(u: State, v: State, l: nat, end: real)
      requires Configured() && Shape(u) && l < |u.levels|
    {
      && Shape(v) && l < |v.levels|
      && CoarserUnchanged(u, v, l)
      && l <= v.lastFinest && DtsKnown(v, l)
      && v.integratorTime <= v.clocks[l].simTime && Onward(v, l, v.clocks[l].simTime, end)
      && Onward(v, l, 0.0, v.clocks[l].dtActual)
      && v.levels[l].current == v.clocks[l].simTime && v.levels[l].next == None
      && CleanFrom(v, l + 1, v.clocks[l].simTime) && !v.marks[l].owed
      && RegridsDone(ScheduleRules(), v.marks, l) && v.marks[l].steps == v.clocks[l].step
      && (l == 0 ==>
            && ZeroIdle(v, v.clocks[0].simTime)
            && !v.zeroAdvanced && !v.hierarchyAdvanced && v.clocks[0].step == u.clocks[0].step
            && v.clocks[0].dtMax == u.clocks[0].dtMax
            && |v.levels| == |u.levels|)
      && (l > 0 ==>
            && ParentUnchanged(u, v, l)
            && 0 <= v.clocks[l].step < v.clocks[l].maxSteps
            && (LevelCanBeRefined(l) ==> v.clocks[l].maxSteps % regridInterval[l] == 0)
            && (v.clocks[l].step == 0 <==> v.marks[l].cover.Nothing?)
            && (v.clocks[l].step == 0 ==>
                  && v.clocks[l].simTime == v.clocks[l - 1].simTime
                  && !v.levels[l].flux && v.levels[l].fluxSum == None && v.marks[l].flux == [])
            && (v.clocks[l].step > 0 ==>
                  v.levels[l].flux && Summed(v, l, v.clocks[l - 1].simTime, v.clocks[l].simTime))
            && (v.clocks[l].maxSteps - v.clocks[l].step >= 2 ==> v.clocks[l].simTime + v.clocks[l].dtActual < end))
    }

    /** Level `l` has stepped from `t` to `t'` and all finer levels have followed. */
    ghost predicate Followed(u: State, v: State, l: nat, t: real, t': real)
      requires Configured() && Shape(u) && l < |u.levels|
    {
      && Shape(v) && l < |v.levels|
      && CoarserUnchanged(u, v, l)
      && DtsStepped(v, l)
      && v.clocks[l].simTime == t == v.levels[l].current
      && HasStepped(v, l, t')
      && v.marks[l].steps == v.clocks[l].step
      && (l == 0 ==>
            && startTime <= t' && v.marks[0].cover == Covering(startTime, t')
            && v.levels[0].fluxSum == None && v.clocks[0].dtMax == u.clocks[0].dtMax
            && v.zeroAdvanced && v.hierarchyAdvanced && v.clocks[0].step == u.clocks[0].step + 1
            && (|v.levels| == 1 <==> |u.levels| == 1))
      && (l > 0 ==>
            && ParentUnchanged(u, v, l)
            && 0 < v.clocks[l].step <= v.clocks[l].maxSteps
            && (LevelCanBeRefined(l) ==> v.clocks[l].maxSteps % regridInterval[l] == 0)
            && Summed(v, l, v.clocks[l - 1].simTime, t'))
      && (v.justRegridded ==>
            && l + 1 < |v.levels| && !RegridPoint(v, l)
            && CleanFrom(v, l + 1, t') && !v.marks[l].owed
            && v.levels[l].flux == (l > 0) && v.fluxZero == (l > 0 && u.fluxZero))
      && (!v.justRegridded ==>
            && v.levels[l].flux && (l == 0 ==> v.fluxZero)
            && (v.marks[l].owed <==> l + 1 < |v.levels|)
            && WaitingFrom(v, l + 1, t')
            && (l + 1 < |v.levels| ==> RegridPoint(v, l) || !LevelCanBeRefined(l + 1)))
    }

    /** Level `l` and the finer ones have been synchronized as far as this level is in charge of it. */
    ghost predicate Synchronized(u: State, v: State, l: nat, t: real, t': real)
      requires Configured() && Shape(u) && l < |u.levels|
    {
      && Shape(v) && l < |v.levels|
      && CoarserUnchanged(u, v, l)
      && v.levels[l].next == Some(t')
      && v.marks[l].steps == v.clocks[l].step
      && (l > 0 && !(RegridsNow(v, l) && AtLastStep(v, l)) ==> ParentUnchanged(u, v, l))
      && (l > 0 && RegridsNow(v, l) && AtLastStep(v, l) ==>
            ParentSynchronized(u, v, l) && !v.levels[l].flux && v.levels[l].fluxSum == None)
      && (l > 0 && !AtLastStep(v, l) ==> v.levels[l].flux && Summed(v, l, v.clocks[l - 1].simTime, t'))
      && (l == 0 ==>
            && startTime <= t' && v.marks[0].cover == Covering(startTime, t')
            && v.levels[0].flux == v.fluxZero && v.levels[0].fluxSum == None
            && (v.fluxZero <==> |u.levels| == 1))
      && (RegridsNow(v, l) ==>
            && |v.levels| - 1 <= v.lastFinest
            && (forall k | l <= k < |v.marks| :: !v.marks[k].owed)
            && (forall k | l < k < |v.levels| ::
                  v.clocks[k].simTime == t' && v.levels[k].next == Some(t')
                  && !v.levels[k].flux && v.levels[k].fluxSum == None))
      && (!RegridsNow(v, l) && (!AtLastStep(v, l) || l == 0) ==>
            CleanFrom(v, l + 1, t') && !v.marks[l].owed)
      && (!RegridsNow(v, l) && AtLastStep(v, l) && l > 0 ==> Followed(u, v, l, t, t') && !v.justRegridded)
    }

    // ---------------------------------------------------------------- time increments

    /** Chooses the next time increment of level `l` and plans the steps of its sequence anew.  The result
        says whether the next step is the last one; there is none if no steps are left for the remaining
        time, which the source reports as an error. */
    method FindNextDtAndStepsRemaining(l: nat, timeRemaining: real, dtBound: real) returns (r: Option<bool>)
      requires Parameters() && l < |clocks| == maxLevels
      requires timeRemaining >= 0.0 && dtBound > 0.0 && clocks[l].dtMax > 0.0
      requires l > 0 ==> clocks[l].step >= 0
      requires l > 0 && StepsRemaining(l) ==> timeRemaining > 0.0 || LevelCanBeRefined(l)
      modifies this`clocks
      ensures |clocks| == maxLevels && forall k | 0 <= k < maxLevels && k != l :: clocks[k] == old(clocks)[k]
      ensures clocks[l] == old(clocks)[l].(dtMax := clocks[l].dtMax, dtActual := clocks[l].dtActual,
                                           maxSteps := clocks[l].maxSteps)
      ensures 0.0 < clocks[l].dtMax <= dtBound && clocks[l].dtMax <= old(clocks)[l].dtMax * growDt
      ensures clocks[l].dtMax == dtBound || clocks[l].dtMax == old(clocks)[l].dtMax * growDt
      ensures growDt >= 1.0 ==> clocks[l].dtMax >= MinReal(dtBound, old(clocks)[l].dtMax)
      ensures r == None <==> l > 0 && old(StepsRemaining(l)) && LevelCanBeRefined(l)
                             && timeRemaining == 0.0 && clocks[l].step >= regridInterval[l]
                             && clocks[l].step % regridInterval[l] == 0
      ensures r.Some? ==> r.value == (l == 0 || clocks[l].maxSteps - clocks[l].step <= 1)
      ensures r.Some? && old(StepsRemaining(l)) && l > 0 ==>
        && Some(clocks[l].maxSteps) == Replan(timeRemaining, clocks[l].dtMax, sqrtEps, clocks[l].step,
                                              LevelCanBeRefined(l), regridInterval[l])
        && clocks[l].dtActual == timeRemaining / (clocks[l].maxSteps - clocks[l].step) as real
      ensures old(StepsRemaining(l)) && l == 0 ==> clocks[0].dtActual == timeRemaining
      ensures !old(StepsRemaining(l)) ==> clocks[l].dtActual == clocks[l].dtMax
      ensures l == 0 || !old(StepsRemaining(l)) ==> clocks[l].maxSteps == old(clocks)[l].maxSteps
      ensures r.Some? ==>
        (clocks[l].dtActual <= dtBound && clocks[l].dtActual <= timeRemaining
         <==> KeepsPromise(l == 0, old(StepsRemaining(l)), timeRemaining, dtBound, clocks[l].dtMax, sqrtEps,
                           clocks[l].step, LevelCanBeRefined(l), regridInterval[l]))
    {
      hide KeepsPromise, PlannedSteps, StepsToCover;
      var d := GrownDt(dtBound, clocks[l].dtMax, growDt);
      ghost var steps, left: int := StepsRemaining(l), 1;
      clocks := clocks[l := clocks[l].(dtMax := d)];
      if StepsRemaining(l) {
        if l == 0 {
          clocks := clocks[l := clocks[l].(dtActual := timeRemaining)];
        } else {
          var plan := Replan(timeRemaining, d, sqrtEps, clocks[l].step, LevelCanBeRefined(l), regridInterval[l]);
          if plan == None {
            return None;
          }
          left := plan.value - clocks[l].step;
          clocks := clocks[l := clocks[l].(maxSteps := plan.value,
                                           dtActual := timeRemaining / (plan.value - clocks[l].step) as real)];
        }
      } else {
        clocks := clocks[l := clocks[l].(dtActual := d)];
      }
      PromiseKeptIff(l == 0, steps, timeRemaining, dtBound, d, sqrtEps, clocks[l].step, LevelCanBeRefined(l),
                     regridInterval[l], left, clocks[l].dtActual);
      if l == 0 {
        return Some(true);
      } else {
        return Some(clocks[l].maxSteps - clocks[l].step <= 1);
      }
    }

    /** The plan made by FindNextDtAndStepsRemaining for the rest of the sequence of level `l`. */
    ghost predicate Planned(c: Clock, l: nat, end: real)
      requires Configured() && l < maxLevels
    {
      && c.dtMax > 0.0
      && (if l == 0 then c.dtActual == end - c.simTime else
            && c.step >= 0
            && c.maxSteps == PlannedSteps(c.step, StepsToCover(end - c.simTime, c.dtMax, sqrtEps),
                                          LevelCanBeRefined(l), regridInterval[l])
            && c.maxSteps > c.step
            && c.dtActual == (end - c.simTime) / (c.maxSteps - c.step) as real)
    }

    lemma PlanFacts(c: Clock, l: nat, end: real)
      requires Configured() && l < maxLevels && Planned(c, l, end) && (c.simTime < end || l == 0)
      ensures if l == 0 then c.dtActual == end - c.simTime else c.dtActual > 0.0
      ensures l > 0 && c.maxSteps - c.step >= 2 ==> c.simTime + c.dtActual < end
      ensures l > 0 && LevelCanBeRefined(l) ==> c.maxSteps % regridInterval[l] == 0
    {
      if l > 0 {
        var t, left := end - c.simTime, c.maxSteps - c.step;
        PositiveQuotient(t, left as real);
        if left >= 2 {
          PartOfRest(t, left);
        }
        PlanLeavesSteps(t, c.dtMax, sqrtEps, c.step, LevelCanBeRefined(l), regridInterval[l]);
      }
    }

    /** The maximum step size of a level that did not exist before the last regrid: the largest one that respects the
        refinement ratio and leaves time for one regrid interval of steps. */
    function FreshDt(l: nat, coarseDt: real, timeRemaining: real): (dt: real)
      requires Configured() && 0 < l < maxLevels
      requires coarseDt > 0.0 && timeRemaining > 0.0
      ensures 0.0 < dt <= coarseDt && dt * ratio[l] as real <= coarseDt
      ensures LevelCanBeRefined(l) ==> dt * regridInterval[l] as real <= timeRemaining
      ensures dt * ratio[l] as real == coarseDt
              || (LevelCanBeRefined(l) && dt * regridInterval[l] as real == timeRemaining)
    {
      PositiveQuotient(coarseDt, ratio[l] as real);
      PositiveQuotient(timeRemaining, regridInterval[l] as real);
      var dt := MinReal(coarseDt, coarseDt / ratio[l] as real);
      if LevelCanBeRefined(l) then MinReal(dt, timeRemaining / regridInterval[l] as real) else dt
    }

    /** Computes the maximum step size of level `l` anew, during a step of the next coarser level. */
    method SetFreshDt(l: nat, timeRemaining: real)
      requires Configured() && 0 < l < maxLevels && |clocks| == maxLevels && Obeys()
      requires clocks[l - 1].dtActual == timeRemaining > 0.0
      requires var interval := MarkOf(hli.history, l - 1).interval;
               interval.Some? && interval.value.1 - interval.value.0 == timeRemaining
      modifies this`clocks, this`lastFinestLevel, hli`history, hli`run
      ensures clocks == old(clocks)[l := old(clocks)[l].(dtMax :=
                          FreshDt(l, old(clocks)[l - 1].dtActual, timeRemaining))]
      ensures lastFinestLevel == l && Obeys()
      ensures forall k | 0 <= k < maxLevels && k != l :: MarkOf(hli.history, k) == MarkOf(old(hli.history), k)
      ensures MarkOf(hli.history, l) == MarkOf(old(hli.history), l).(dtKnown := true, limit := clocks[l].dtMax)
    {
      hide Obeys, MarkOf;
      clocks := clocks[l := clocks[l].(dtMax := FreshDt(l, clocks[l - 1].dtActual, timeRemaining))];
      lastFinestLevel := l;
      RecordDt(l, clocks[l].dtMax);
    }

    /** Initializes the step sequence of level `l`, and the maximum step size of a level that the last
        regrid created. */
    method BeginSequence(l: nat, end: real) returns (timeRemaining: real)
      requires Configured() && Before(Now(), l, end) && Obeys()
      modifies this`clocks, this`levelZeroAdvanced, this`hierarchyAdvanced, this`lastFinestLevel
      modifies hli`history, hli`data, hli`run
      ensures l < |clocks| == maxLevels && timeRemaining == end - clocks[l].simTime && clocks[l].dtMax > 0.0
      ensures Onward(Now(), l, 0.0, timeRemaining)
      ensures l == 0 ==> Now() == old(Now()).(zeroAdvanced := false, hierarchyAdvanced := false)
      ensures Obeys()
      ensures l > 0 ==>
        && Now() == old(Now()).(clocks := clocks, lastFinest := Max(old(lastFinestLevel), l), marks := Now().marks)
        && DtMarked(old(Now()), Now(), l)
        && (forall k | 0 <= k < maxLevels && k != l :: clocks[k] == old(clocks)[k])
        && clocks[l].step == 0 && clocks[l].maxSteps == 1
        && clocks[l].simTime == clocks[l - 1].simTime
        && clocks[l].dtMax == if old(lastFinestLevel) < l
                              then FreshDt(l, clocks[l - 1].dtActual, timeRemaining)
                              else old(clocks)[l].dtMax
    {
      hide HyperbolicLevelIntegrator.Tracked, Obeys, MarkOf, CleanFrom, RegridsDone, CoveredUpTo;
      if l > 0 {
        clocks := clocks[l := clocks[l].(step := 0, maxSteps := 1)];
      } else {
        levelZeroAdvanced := false;
        hierarchyAdvanced := false;
      }
      timeRemaining := 0.0;
      if l > 0 {
        clocks := clocks[l := clocks[l].(simTime := clocks[l - 1].simTime)];
        timeRemaining := end - clocks[l].simTime;
        if lastFinestLevel < l {
          SetFreshDt(l, timeRemaining);
        }
      } else {
        timeRemaining := end - clocks[l].simTime;
      }
    }

    /** The maximum time increment of level `l` is known now. */
    ghost predicate DtMarked(v: State, w: State, l: nat) {
      && |w.marks| == |v.marks|
      && (forall k | 0 <= k < |v.marks| && k != l :: w.marks[k] == v.marks[k])
      && l < |w.clocks|
      && (l < |v.marks| ==>
            w.marks[l] == if v.lastFinest < l then v.marks[l].(dtKnown := true, limit := w.clocks[l].dtMax)
                          else v.marks[l])
    }

    ghost method RecordDt(l: nat, dt: real)
      requires 0 < l < maxLevels && 0.0 < dt && Obeys()
      requires var interval := MarkOf(hli.history, l - 1).interval;
               interval.Some? && IsFreshDt(ScheduleRules(), l, interval.value.1 - interval.value.0, dt)
      modifies hli`history, hli`run
      ensures Obeys()
      ensures forall k | 0 <= k < maxLevels && k != l :: MarkOf(hli.history, k) == MarkOf(old(hli.history), k)
      ensures MarkOf(hli.history, l) == MarkOf(old(hli.history), l).(dtKnown := true, limit := dt)
    {
      hide HyperbolicLevelIntegrator.Tracked, MarkOf, Lawful;
      var h, e := hli.history, NewDt(l, dt);
      hli.NoteDt(e);
      ExtendLaw(h, e, ScheduleRules());
      MarksAfterEvent(h, e, maxLevels);
      forall k: nat | k < maxLevels
        ensures MarkOf(h + [e], k) == MarkAfter(MarkOf(h, k), e, k)
      {
        MarkAfterEvent(h, e, k);
      }
    }

    /** State `v` differs from `u` by what BeginSequence changes for level `l`. */
    ghost predicate Begun(u: State, v: State, l: nat)
      requires Shape(u) && l < |u.levels| && Shape(v)
    {
      && (l == 0 ==> v == u.(zeroAdvanced := false, hierarchyAdvanced := false))
      && (l > 0 ==>
            && v == u.(clocks := v.clocks, lastFinest := Max(u.lastFinest, l), marks := v.marks) && DtMarked(u, v, l)
            && v.clocks[l].step == 0 && v.clocks[l].simTime == u.clocks[l - 1].simTime
            && (u.lastFinest >= l ==> v.clocks[l].dtMax == u.clocks[l].dtMax)
            && (forall k | 0 <= k < maxLevels && k != l :: v.clocks[k] == u.clocks[k]))
    }

    lemma SequenceBegins(u: State, v: State, w: State, l: nat, end: real)
      requires Configured() && Before(u, l, end) && Shape(v) && Begun(u, v, l)
      requires FirstPlanned(v, w, l) && Planned(w.clocks[l], l, end)
      ensures SequenceState(u, w, l, end)
    {
      hide After, RegridsDone, PlannedSteps, StepsToCover, DtsKnown, CoarserUnchanged, ParentUnchanged;
      SequenceBeginsAlone(u, v, w, l, end);
      RegridsStayDone(u.marks, w.marks, l, l);
      RegridsStayDone(u.marks, w.marks, l, l + 1);
      PlanFacts(w.clocks[l], l, end);
    }

    /** The beginning of a sequence changes nothing on coarser levels. */
    lemma SequenceBeginsAlone(u: State, v: State, w: State, l: nat, end: real)
      requires Configured() && Before(u, l, end) && Shape(v) && Begun(u, v, l) && FirstPlanned(v, w, l)
      requires w.clocks[l].dtMax > 0.0
      ensures Shape(w) && DtsKnown(w, l) && CoarserUnchanged(u, w, l) && (l > 0 ==> ParentUnchanged(u, w, l))
    {
      hide CleanFrom, ZeroIdle, RegridsDone, HasStepped;
    }

    /** State `w` differs from `v` by what FindNextDtAndStepsRemaining changes for level `l`. */
    ghost predicate FirstPlanned(v: State, w: State, l: nat)
      requires l < |v.clocks|
    {
      && |w.clocks| == |v.clocks|
      && w == v.(clocks := w.clocks)
      && (forall k | 0 <= k < |v.clocks| && k != l :: w.clocks[k] == v.clocks[k])
      && w.clocks[l] == v.clocks[l].(dtActual := w.clocks[l].dtActual, maxSteps := w.clocks[l].maxSteps)
    }

    // ---------------------------------------------------------------- one step

    /** Level `l` has stepped from `t` to `t'`; the finer levels are still at `t`. */
    ghost predicate Advanced(u: State, v: State, l: nat, t: real, t': real)
      requires Configured() && Shape(u) && l < |u.levels|
    {
      && Shape(v) && l < |v.levels|
      && CoarserUnchanged(u, v, l)
      && DtsStepped(v, l)
      && v.integratorTime <= v.clocks[l].simTime
      && v.clocks[l].dtActual == t' - t
      && v.clocks[l].simTime == t == v.levels[l].current
      && HasStepped(v, l, t')
      && v.levels[l].flux
      && !v.justRegridded
      && CleanFrom(v, l + 1, t)
      && (v.marks[l].owed <==> l + 1 < |v.levels|)
      && (l + 1 < |v.levels| ==>
            v.marks[l + 1].cover.Nothing? && v.marks[l + 1].flux == [] && v.marks[l + 1].steps == 0)
      && v.zeroAdvanced && !v.hierarchyAdvanced
      && v.marks[l].steps == v.clocks[l].step + (if l == 0 then 1 else 0)
      && (l == 0 ==>
            && v.clocks[0].dtMax == u.clocks[0].dtMax
            && startTime <= t' && v.marks[0].cover == Covering(startTime, t')
            && v.levels[0].fluxSum == None && v.fluxZero && v.clocks[0].step == u.clocks[0].step
            && |v.levels| == |u.levels|)
      && (l > 0 ==>
            && ParentUnchanged(u, v, l)
            && 0 < v.clocks[l].step <= v.clocks[l].maxSteps
            && (LevelCanBeRefined(l) ==> v.clocks[l].maxSteps % regridInterval[l] == 0)
            && Summed(v, l, v.clocks[l - 1].simTime, t'))
    }

    /** The marks of `w` are those of `v` after event `e`. */
    ghost predicate Marked(v: State, w: State, e: Event) {
      |w.marks| == |v.marks| && forall k | 0 <= k < |v.marks| :: w.marks[k] == MarkAfter(v.marks[k], e, k)
    }

    /** What one call of advanceLevel and its bookkeeping change. */
    ghost predicate StepEffect(v: State, w: State, l: nat, t': real, first: bool, flux: seq<real>, dtNew: real)
      requires Shape(v) && l < |v.levels|
    {
      && |w.levels| == |v.levels|
      && (forall k | 0 <= k < |w.levels| && k != l :: w.levels[k] == v.levels[k])
      && w.levels[l].current == v.levels[l].current && w.levels[l].next == Some(t') && w.levels[l].flux
      && (l > 0 && !first ==> v.levels[l].fluxSum.Some?)
      && w.levels[l].fluxSum == (if l == 0 then v.levels[l].fluxSum
                                 else if first then Some(Plus([], flux))
                                 else Some(Plus(v.levels[l].fluxSum.value, flux)))
      && Marked(v, w, StepEvent(v.levels, l, v.clocks[l].simTime, t', first, flux, dtNew))
      && w == v.(levels := w.levels, marks := w.marks, fluxZero := v.fluxZero || l == 0,
                 justRegridded := false, zeroAdvanced := v.zeroAdvanced || l == 0, clocks := w.clocks)
      && |w.clocks| == |v.clocks|
      && (forall k | 0 <= k < |w.clocks| && k != l :: w.clocks[k] == v.clocks[k])
      && w.clocks[l] == v.clocks[l].(oldTime := v.clocks[l].simTime,
                                     step := v.clocks[l].step + if l == 0 then 0 else 1)
    }

    /** A step that a plan provides exceeds the maximum step size at most by the tolerance. */
    lemma PlannedStepIsLimited(c: Clock, l: nat, end: real, t': real)
      requires Configured() && 0 < l < maxLevels && Planned(c, l, end) && c.simTime < end
      requires t' == if c.maxSteps - c.step <= 1 then end else c.simTime + c.dtActual
      ensures (t' - c.simTime) * (1.0 - sqrtEps) <= c.dtMax && t' - c.simTime == c.dtActual
    {
      StepSizeBound(end - c.simTime, c.dtMax, sqrtEps, c.step, LevelCanBeRefined(l), regridInterval[l]);
      assert t' - c.simTime == c.dtActual;
      MulMonotone(c.dtActual, c.dtMax / (1.0 - sqrtEps), 1.0 - sqrtEps);
    }

    /** The step of level `l` to `t'` is the planned one, and keeps to the bound on its time increment. */
    ghost predicate WithinLimit(v: State, l: nat, t': real)
      requires l < |v.clocks| && l < |v.marks|
    {
      && t' - v.clocks[l].simTime == v.clocks[l].dtActual
      && (l > 0 ==> (t' - v.clocks[l].simTime) * (1.0 - sqrtEps) <= v.marks[l].limit)
    }

    lemma StepTaken(u: State, v: State, w: State, l: nat, end: real, t': real, first: bool, flux: seq<real>,
                    dtNew: real)
      requires Configured() && Before(u, l, end) && InSequence(u, v, l, end)
      requires Onward(v, l, v.clocks[l].simTime, t') && first == (l == 0 || v.clocks[l].step <= 0)
      requires StepEffect(v, w, l, t', first, flux, dtNew) && WithinLimit(v, l, t')
      ensures Allowed(v.marks, StepEvent(v.levels, l, v.clocks[l].simTime, t', first, flux, dtNew))
      ensures Timely(ScheduleRules(), v.marks, StepEvent(v.levels, l, v.clocks[l].simTime, t', first, flux, dtNew))
      ensures Advanced(u, w, l, v.clocks[l].simTime, t') && w.marks[l].limit == dtNew
    {
      StepIsAllowed(u, v, l, end, t', first, flux, dtNew);
      StepLeavesAdvanced(u, v, w, l, end, t', first, flux, dtNew);
    }

    lemma StepIsAllowed(u: State, v: State, l: nat, end: real, t': real, first: bool, flux: seq<real>, dtNew: real)
      requires Configured() && Before(u, l, end) && InSequence(u, v, l, end)
      requires Onward(v, l, v.clocks[l].simTime, t') && first == (l == 0 || v.clocks[l].step <= 0)
      ensures Allowed(v.marks, StepEvent(v.levels, l, v.clocks[l].simTime, t', first, flux, dtNew))
    {
    }

    lemma StepLeavesAdvanced(u: State, v: State, w: State, l: nat, end: real, t': real, first: bool, flux: seq<real>,
                             dtNew: real)
      requires Configured() && Before(u, l, end) && InSequence(u, v, l, end)
      requires Onward(v, l, v.clocks[l].simTime, t') && first == (l == 0 || v.clocks[l].step <= 0)
      requires StepEffect(v, w, l, t', first, flux, dtNew) && WithinLimit(v, l, t')
      ensures Advanced(u, w, l, v.clocks[l].simTime, t') && w.marks[l].limit == dtNew
    {
      hide CoarserUnchanged, ParentUnchanged, DtsKnown, DtsStepped, RegridsDone;
      StepKeepsCoarser(u, v, w, l, t', first, flux, dtNew);
      StepKeepsRegrids(v, w, l, t', first, flux, dtNew);
    }

    lemma StepKeepsCoarser(u: State, v: State, w: State, l: nat, t': real, first: bool, flux: seq<real>, dtNew: real)
      requires Shape(u) && Shape(v) && Shape(w) && l < |u.levels| && l < |v.levels|
      requires StepEffect(v, w, l, t', first, flux, dtNew)
      requires CoarserUnchanged(u, v, l) && l <= v.lastFinest && DtsKnown(v, l) && (l > 0 ==> ParentUnchanged(u, v, l))
      ensures CoarserUnchanged(u, w, l) && DtsStepped(w, l) && (l > 0 ==> ParentUnchanged(u, w, l))
    {
    }

    /** A step begins a new sequence on the next finer level, and changes nothing on the levels beyond. */
    lemma StepKeepsRegrids(v: State, w: State, l: nat, t': real, first: bool, flux: seq<real>, dtNew: real)
      requires Shape(v) && l < |v.levels| && StepEffect(v, w, l, t', first, flux, dtNew)
      requires RegridsDone(ScheduleRules(), v.marks, l)
      ensures RegridsDone(ScheduleRules(), w.marks, l + 1)
    {
    }

    lemma FinerMayStart(u: State, w: State, l: nat, t: real, t': real)
      requires Configured() && Shape(u) && l < |u.levels| && Advanced(u, w, l, t, t')
      requires l + 1 < |w.levels|
      ensures Before(w, l + 1, t')
    {
    }

    /** While the finer levels advance, and after they have, a level gives the same answer about its regrid. */
    lemma SameRegridAnswer(w: State, x: State, y: State, l: nat)
      requires Configured() && Shape(w) && Shape(x) && l + 1 <= |w.levels| && l + 1 <= |x.levels|
      requires CoarserUnchanged(w, x, l + 1) && !w.hierarchyAdvanced
      requires y == if l == 0
               then x.(clocks := x.clocks[0 := x.clocks[0].(step := x.clocks[0].step + 1)],
                       hierarchyAdvanced := true) else x
      ensures RegridPoint(y, l) <==> RegridPoint(w, l)
    {
    }

    /** When the last step of the sequence of a refinable level has been taken, the level is at a regrid point: it
        has taken exactly the planned steps, and they fill whole regrid intervals. */
    lemma SequenceEndsAtRegridPoint(u: State, v: State, l: nat, t: real, t': real)
      requires Configured() && Shape(u) && 0 < l < |u.levels| && Followed(u, v, l, t, t')
      requires LevelCanBeRefined(l) && AtLastStep(v, l)
      ensures v.clocks[l].step == v.clocks[l].maxSteps && v.clocks[l].step % regridInterval[l] == 0
      ensures RegridPoint(v, l)
    {
    }

    lemma WaitingUnaffected(x: State, y: State, l: nat, t: real)
      requires Shape(x) && Shape(y) && l > 0 && WaitingFrom(x, l, t)
      requires y.levels == x.levels && y.marks == x.marks && y.lastFinest == x.lastFinest
      requires forall k | l <= k < maxLevels :: y.clocks[k] == x.clocks[k]
      ensures WaitingFrom(y, l, t)
    {
      forall k | l <= k < |y.levels|
        ensures Waiting(y, k, t)
      {
        assert Waiting(x, k, t);
      }
    }

    lemma FinerFollowed(u: State, w: State, x: State, y: State, l: nat, t: real, t': real)
      requires Configured() && Shape(u) && l < |u.levels| && Advanced(u, w, l, t, t')
      requires if l + 1 < |w.levels| then After(w, x, l + 1, t') else x == w
      requires y == if l == 0
               then x.(clocks := x.clocks[0 := x.clocks[0].(step := x.clocks[0].step + 1)],
                       hierarchyAdvanced := true) else x
      ensures Followed(u, y, l, t, t')
      ensures |y.clocks| == maxLevels && (l == 0 ==> y.zeroAdvanced)
      ensures y.clocks[l] == w.clocks[l].(step := w.clocks[l].step + if l == 0 then 1 else 0)
      ensures y.marks[l].limit == w.marks[l].limit
    {
      if l + 1 < |w.levels| {
        SameRegridAnswer(w, x, y, l);
        if !x.justRegridded {
          WaitingUnaffected(x, y, l + 1, t');
        }
      }
    }

    /** A synchronization touches neither the clocks nor the number of levels nor the CURRENT data of `l`, and makes
        no time increment known or unknown. */
    ghost predicate Carried(v: State, w: State, l: nat)
      requires l < |v.levels|
    {
      && |w.levels| == |v.levels| && w.levels[l].current == v.levels[l].current
      && w == v.(levels := w.levels, marks := w.marks, fluxZero := w.fluxZero)
      && |w.marks| == |v.marks| && (forall k | 0 <= k < |v.marks| :: OnlySettled(v.marks[k], w.marks[k]))
    }

    /** Nothing about a level has changed but that it may owe no synchronization any more. */
    ghost predicate OnlySettled(m: Mark, m': Mark) {
      m' == m.(owed := m'.owed)
    }

    /** What a synchronization of levels `c` to the finest leaves behind. */
    ghost predicate SyncEffect(v: State, w: State, c: nat, t': real) {
      var f := |v.levels| - 1;
      && c < f
      && |w.levels| == |v.levels|
      && (forall k | 0 <= k < c :: w.levels[k] == v.levels[k])
      && (forall k | c < k < |w.levels| :: w.levels[k] == v.levels[k].(flux := false, fluxSum := None))
      && w.levels[c] == v.levels[c].(flux := c != 0 && v.levels[c].flux)
      && Marked(v, w, SyncEvent(v.levels, c, f, t'))
      && w == v.(levels := w.levels, marks := w.marks, fluxZero := v.fluxZero && c != 0)
    }

    lemma SyncCarries(v: State, w: State, c: nat, l: nat, t': real)
      requires l < |v.levels| && SyncEffect(v, w, c, t')
      ensures Carried(v, w, l)
    {
      forall k | 0 <= k < |v.marks|
        ensures OnlySettled(v.marks[k], w.marks[k])
      {
        assert w.marks[k] == MarkAfter(v.marks[k], SyncEvent(v.levels, c, |v.levels| - 1, t'), k);
      }
    }

    lemma ResetCarries(v: State, w: State, x: State, l: nat, t': real)
      requires l < |v.levels| - 1 && SyncEffect(v, w, l, t') && ResetEffect(w, x, t')
      ensures Carried(v, x, l)
    {
      SyncCarries(v, w, l, l, t');
      forall k | 0 <= k < |v.marks|
        ensures OnlySettled(v.marks[k], x.marks[k])
      {
        assert x.marks[k] == MarkAfter(w.marks[k], Reset(|w.levels| - 1, t', Some(t')), k);
      }
    }

    /** The parent of level `l` has stepped to `t'` and waits for the synchronization. */
    ghost predicate ParentReady(u: State, l: nat, t': real)
      requires Shape(u) && 0 < l < |u.levels|
    {
      && u.levels[l - 1].flux && u.clocks[l - 1].simTime == u.levels[l - 1].current
      && u.marks[l - 1].owed && HasStepped(u, l - 1, t')
    }

    /** Level `k` stands at `t'` with its storage live; above `c` its fluxes cover its parent's step. */
    ghost predicate SyncReady(v: State, c: nat, k: nat, t': real)
      requires Shape(v) && k < |v.levels|
    {
      && HasStepped(v, k, t') && v.levels[k].flux
      && (k > c ==> Summed(v, k, v.levels[k - 1].current, t'))
      && (v.marks[k].owed <==> k + 1 < |v.levels|)
    }

    lemma FollowedIsSyncReady(u: State, v: State, l: nat, c: nat, t: real, t': real)
      requires Configured() && Shape(u) && l < |u.levels| && Followed(u, v, l, t, t') && !v.justRegridded
      requires c == l || (l > 0 && c == l - 1 && ParentReady(u, l, t'))
      ensures forall k | c <= k < |v.levels| :: SyncReady(v, c, k, t')
    {
      forall k | l < k < |v.levels|
        ensures SyncReady(v, c, k, t')
      {
        assert Waiting(v, k, t');
      }
    }

    lemma SyncAllowed(v: State, c: nat, t': real)
      requires Shape(v) && c < |v.levels| - 1
      requires forall k | c <= k < |v.levels| :: SyncReady(v, c, k, t')
      ensures Allowed(v.marks, SyncEvent(v.levels, c, |v.levels| - 1, t'))
      ensures Timely(ScheduleRules(), v.marks, SyncEvent(v.levels, c, |v.levels| - 1, t'))
      ensures forall k | c <= k < |v.levels| :: t' > v.clocks[k].oldTime
      ensures forall k | c <= k < |v.levels| :: v.levels[k].next == Some(t') && v.levels[k].flux
      ensures forall k | c < k < |v.levels| :: v.levels[k].fluxSum.Some?
    {
      var e := SyncEvent(v.levels, c, |v.levels| - 1, t');
      assert SyncReady(v, c, |v.levels| - 1, t');
      forall k | c <= k < |v.levels|
        ensures t' > v.clocks[k].oldTime && v.levels[k].next == Some(t') && v.levels[k].flux
        ensures k > c ==> v.levels[k].fluxSum.Some?
      {
        assert SyncReady(v, c, k, t');
      }
      forall i | 0 <= i < |e.fluxSums|
        ensures PairReady(v.marks, c + i, t', e.fluxSums[i])
      {
        assert SyncReady(v, c, c + i, t') && SyncReady(v, c, c + i + 1, t');
      }
    }

    lemma SyncCarriesAll(v: State, w: State, c: nat, t': real)
      requires SyncEffect(v, w, c, t')
      ensures |w.marks| == |v.marks| && forall k | 0 <= k < |v.marks| :: OnlySettled(v.marks[k], w.marks[k])
    {
      SyncCarries(v, w, c, 0, t');
    }

    lemma SyncForRegrid(u: State, v: State, w: State, l: nat, c: nat, t: real, t': real)
      requires Configured() && Shape(u) && l < |u.levels| && Followed(u, v, l, t, t')
      requires RegridsNow(v, l) && !v.justRegridded && c == if l > 0 && AtLastStep(v, l) then l - 1 else l
      requires SyncEffect(v, w, c, t')
      ensures Synchronized(u, w, l, t, t')
    {
      hide CoarserUnchanged, ParentUnchanged, ParentSynchronized, DtsKnown, DtsStepped, CleanFrom, RegridsDone;
      hide CoveredUpTo, Waiting, Marked;
      assert RegridsNow(w, l) && AtLastStep(w, l) == AtLastStep(v, l);
      SyncCarriesAll(v, w, c, t');
      SyncEffectCoarser(u, v, w, l, c, t');
      SyncEffectFiner(v, w, l, c, t');
    }

    lemma SyncEffectCoarser(u: State, v: State, w: State, l: nat, c: nat, t': real)
      requires Configured() && Shape(u) && l < |u.levels| && Shape(v) && l < |v.levels|
      requires CoarserUnchanged(u, v, l) && (l > 0 ==> ParentUnchanged(u, v, l))
      requires l - 1 <= c <= l && SyncEffect(v, w, c, t')
      ensures Shape(w) && CoarserUnchanged(u, w, l)
      ensures l > 0 && c == l ==> ParentUnchanged(u, w, l)
      ensures l > 0 && c == l - 1 ==> ParentSynchronized(u, w, l)
    {
    }

    lemma SyncEffectFiner(v: State, w: State, l: nat, c: nat, t': real)
      requires Configured() && Shape(v) && l < |v.levels| && WaitingFrom(v, l + 1, t')
      requires v.marks[l].owed <==> l + 1 < |v.levels|
      requires l - 1 <= c <= l && SyncEffect(v, w, c, t')
      ensures forall k | l < k < |w.levels| ::
                w.clocks[k].simTime == t' && w.levels[k].next == Some(t')
                && !w.levels[k].flux && w.levels[k].fluxSum == None
      ensures forall k | c <= k < |w.marks| :: !w.marks[k].owed
    {
      forall k | l < k < |w.levels|
        ensures w.clocks[k].simTime == t' && w.levels[k].next == Some(t')
      {
        assert Waiting(v, k, t');
      }
      forall k | c <= k < |w.marks|
        ensures !w.marks[k].owed
      {
        assert w.marks[k] == MarkAfter(v.marks[k], SyncEvent(v.levels, c, |v.levels| - 1, t'), k);
      }
    }

    /** What resetting the finest level, which stands at `t'`, changes. */
    ghost predicate ResetEffect(w: State, x: State, t': real) {
      var f := |w.levels| - 1;
      && f >= 0 && w.levels[f].next == Some(t')
      && x == w.(levels := w.levels[f := w.levels[f].(current := t', next := None)], marks := x.marks)
      && Marked(w, x, Reset(f, t', Some(t')))
    }

    lemma SyncThenReset(u: State, v: State, w: State, x: State, l: nat, t: real, t': real)
      requires Configured() && Shape(u) && l < |u.levels| && Followed(u, v, l, t, t')
      requires !RegridPoint(v, l) && !v.justRegridded && (!AtLastStep(v, l) || l == 0)
      requires SyncEffect(v, w, l, t') && ResetEffect(w, x, t')
      ensures Synchronized(u, x, l, t, t')
    {
      hide CoarserUnchanged, ParentUnchanged, DtsKnown, DtsStepped, ParentSynchronized, RegridsDone;
      hide WaitingFrom, CleanFrom, CoveredUpTo;
      FinestIsClean(v, w, x, l, t');
      SyncEffectCoarser(u, v, w, l, l, t');
      ResetKeepsCoarser(u, w, x, l, t');
    }

    /** The only finer level, which cannot be refined, after it has been synchronized and reset. */
    lemma FinestIsClean(v: State, w: State, x: State, l: nat, t': real)
      requires Configured() && Shape(v) && l < |v.levels| - 1 && !LevelCanBeRefined(l + 1)
      requires WaitingFrom(v, l + 1, t') && SyncEffect(v, w, l, t') && ResetEffect(w, x, t')
      ensures CleanFrom(x, l + 1, t') && !x.marks[l].owed
    {
      hide RegridsDone;
      assert Waiting(v, l + 1, t');
      NoneDueFrom(x.marks, l + 1);
    }

    lemma ResetKeepsCoarser(u: State, w: State, x: State, l: nat, t': real)
      requires Shape(u) && Shape(w) && Shape(x) && l < |u.levels| && l < |w.levels| - 1 && ResetEffect(w, x, t')
      requires CoarserUnchanged(u, w, l) && (l > 0 ==> ParentUnchanged(u, w, l))
      ensures CoarserUnchanged(u, x, l) && (l > 0 ==> ParentUnchanged(u, x, l))
    {
    }

    /** One call of advanceLevel for level `l`. */
    method StepAlone(l: nat, newTime: real) returns (dtNew: real, ghost first: bool, ghost flux: seq<real>)
      requires Shape(Now()) && l < |hli.levels| && clocks[l].simTime <= newTime
      requires hli.CanAdvance(l, FirstLevelStep(l), false)
      modifies this`clocks, this`justRegridded, this`levelZeroAdvanced, hli
      ensures first == old(FirstLevelStep(l))
      ensures StepEffect(old(Now()), Now(), l, newTime, first, flux, dtNew)
      ensures hli.history == old(hli.history) +
                             [StepEvent(old(hli.levels), l, old(clocks)[l].simTime, newTime, first, flux, dtNew)]
      ensures dtNew >= hli.minDt
      ensures old(hli.Tracked()) ==> hli.Tracked() && hli.run[0] == old(hli.run)[0]
    {
      ghost var h, ls, t := hli.history, hli.levels, clocks[l].simTime;
      clocks := clocks[l := clocks[l].(oldTime := clocks[l].simTime)];
      justRegridded := false;
      var fluxes := hli.ComputeFluxes(l);
      first, flux := FirstLevelStep(l), fluxes;
      dtNew := hli.AdvanceLevel(l, clocks[l].simTime, newTime, FirstLevelStep(l), false, fluxes);
      if l == 0 {
        levelZeroAdvanced := true;
      } else {
        clocks := clocks[l := clocks[l].(step := clocks[l].step + 1)];
      }
      MarksAfterEvent(h, StepEvent(ls, l, t, newTime, first, flux, dtNew), maxLevels);
    }

    /** The advance of all levels finer than `l`, which has just stepped from `t` to `newTime`. */
    method AdvanceFinerLevels(l: nat, newTime: real, ghost u: State, ghost w: State, ghost t: real)
      returns (ghost f: State)
      requires w == Now() && Configured() && Shape(u) && l < |u.levels| && Advanced(u, w, l, t, newTime)
      requires Obeys()
      requires |w.clocks| == maxLevels
      modifies this, hli
      ensures f == Now() && Followed(u, f, l, t, newTime)
      ensures Obeys()
      ensures |f.clocks| == maxLevels
      ensures f.clocks[l] == w.clocks[l].(step := w.clocks[l].step + if l == 0 then 1 else 0)
      ensures f.marks[l].limit == w.marks[l].limit
      ensures l == 0 ==> f.zeroAdvanced
      decreases maxLevels - l, 0
    {
      hide Obeys;
      hide Before, After, Followed, Advanced;
      ghost var x := w;
      if l + 1 < |hli.levels| {
        FinerMayStart(u, w, l, t, newTime);
        x := AdvanceRecursivelyForRefinedTimestepping(l + 1, newTime, w);
      }
      if l == 0 {
        clocks := clocks[l := clocks[l].(step := clocks[l].step + 1)];
        hierarchyAdvanced := true;
      }
      f := Now();
      FinerFollowed(u, w, x, f, l, t, newTime);
    }

    /** One lawful step of level `l`, to `newTime`. */
    method StepLawfully(l: nat, newTime: real, end: real, ghost u: State, ghost v: State)
      returns (dtNew: real, ghost w: State)
      requires v == Now() && Configured() && Before(u, l, end) && InSequence(u, v, l, end)
      requires Obeys() && Onward(v, l, v.clocks[l].simTime, newTime) && WithinLimit(v, l, newTime)
      modifies this, hli
      ensures w == Now() && Advanced(u, w, l, v.clocks[l].simTime, newTime)
      ensures Obeys()
      ensures |w.clocks| == maxLevels
      ensures w.clocks[l] ==
              v.clocks[l].(oldTime := v.clocks[l].simTime, step := v.clocks[l].step + if l == 0 then 0 else 1)
      ensures dtNew >= hli.minDt && w.marks[l].limit == dtNew
    {
      hide WaitingFrom, DtsKnown, DtsStepped, CoarserUnchanged, ParentUnchanged, HasStepped, CoveredUpTo;
      hide RegridsDone, WithinLimit, Allowed, Timely;
      hide HyperbolicLevelIntegrator.Tracked;
      ghost var h := hli.history;
      ghost var first, flux;
      dtNew, first, flux := StepAlone(l, newTime);
      w := Now();
      StepTaken(u, v, w, l, end, newTime, first, flux, dtNew);
      ExtendLaw(h, StepEvent(v.levels, l, v.clocks[l].simTime, newTime, first, flux, dtNew), ScheduleRules());
    }

    lemma PlanIsWithinLimit(u: State, v: State, l: nat, end: real, t': real)
      requires Configured() && Shape(u) && l < |u.levels| && InSequence(u, v, l, end) && Planned(v.clocks[l], l, end)
      requires t' == if l == 0 || v.clocks[l].maxSteps - v.clocks[l].step <= 1 then end
                     else v.clocks[l].simTime + v.clocks[l].dtActual
      ensures WithinLimit(v, l, t')
    {
      hide CleanFrom, CoarserUnchanged, ParentUnchanged, Summed, ZeroIdle, RegridsDone, PlannedSteps, StepsToCover;
      if l > 0 {
        PlannedStepIsLimited(v.clocks[l], l, end, t');
      }
    }

    /** One step of level `l`, followed by the advance of all finer levels to the same time. */
    method TakeStep(l: nat, end: real, sync: bool, ghost u: State, ghost v: State)
      returns (newTime: real, dtNew: real, ghost f: State)
      requires v == Now() && Configured() && Before(u, l, end) && InSequence(u, v, l, end)
      requires Obeys()
      requires sync == (l == 0 || v.clocks[l].maxSteps - v.clocks[l].step <= 1) && Planned(v.clocks[l], l, end)
      modifies this, hli
      ensures newTime == (if sync then end else v.clocks[l].simTime + v.clocks[l].dtActual) <= end
      ensures Onward(v, l, v.clocks[l].simTime, newTime)
      ensures f == Now() && Followed(u, f, l, v.clocks[l].simTime, newTime) && |f.clocks| == maxLevels
      ensures if AtLastStep(f, l) then newTime == end else newTime < end && l > 0
      ensures Obeys()
      ensures f.clocks[l] == v.clocks[l].(oldTime := v.clocks[l].simTime, step := v.clocks[l].step + 1)
      ensures dtNew >= hli.minDt && f.marks[l].limit == dtNew
      decreases maxLevels - l, 1
    {
      hide Obeys;
      hide Followed, Advanced, WaitingFrom, DtsKnown, CleanFrom, CoarserUnchanged, ParentUnchanged;
      newTime := if sync then end else clocks[l].simTime + clocks[l].dtActual;
      PlanIsWithinLimit(u, v, l, end, newTime);
      ghost var w;
      dtNew, w := StepLawfully(l, newTime, end, u, v);
      f := AdvanceFinerLevels(l, newTime, u, w, v.clocks[l].simTime);
    }

    function OldTimes(): (t: seq<real>)
      reads this
      ensures |t| == |clocks| && forall k | 0 <= k < |t| :: t[k] == clocks[k].oldTime
    {
      var c := clocks;
      seq(|c|, k requires 0 <= k < |c| => c[k].oldTime)
    }

    /** Synchronizes levels `c` to the finest, which all stand at `newTime`. */
    method SynchronizeDownTo(c: nat, newTime: real, ghost v: State)
      requires v == Now() && Shape(v) && c < |hli.levels| - 1
      requires Obeys()
      requires forall k | c <= k < |v.levels| :: SyncReady(v, c, k, newTime)
      modifies hli
      ensures SyncEffect(v, Now(), c, newTime)
      ensures Obeys()
    {
      hide HyperbolicLevelIntegrator.Tracked, MarkOf, Lawful;
      hide SyncReady, Allowed, Timely, SyncEvent;
      ghost var h, e := hli.history, SyncEvent(v.levels, c, |v.levels| - 1, newTime);
      SyncAllowed(v, c, newTime);
      hli.StandardLevelSynchronization(c, |hli.levels| - 1, newTime, OldTimes());
      assert hli.history == h + [e];
      MarksAfterEvent(h, e, maxLevels);
      ExtendLaw(h, e, ScheduleRules());
    }

    /** Resets the finest level, which stands at `newTime`. */
    method ResetFinest(newTime: real, ghost x: State) returns (ghost w: State)
      requires x == Now() && Shape(x) && x.levels[|x.levels| - 1].next == Some(newTime)
      requires Obeys() && !x.marks[|x.levels| - 1].owed
      modifies hli`levels, hli`history, hli`data, hli`run
      ensures w == Now() && ResetEffect(x, w, newTime)
      ensures Obeys()
    {
      hide HyperbolicLevelIntegrator.Tracked, MarkOf, Lawful;
      ghost var h, e := hli.history, Reset(|hli.levels| - 1, newTime, Some(newTime));
      hli.ResetTimeDependentData(|hli.levels| - 1, newTime);
      MarksAfterEvent(h, e, maxLevels);
      ExtendLaw(h, e, ScheduleRules());
      w := Now();
    }

    /** Nothing is done when a coarser level takes over, when the finer levels have been synchronized by
        their own regrid, or when there are none. */
    lemma NothingToSynchronize(u: State, v: State, l: nat, t: real, t': real)
      requires Configured() && Shape(u) && l < |u.levels| && Followed(u, v, l, t, t')
      requires RegridPoint(v, l) && RegridsNow(v, l) ==>
                 |v.levels| - 1 <= if l > 0 && AtLastStep(v, l) then l - 1 else l
      requires !RegridPoint(v, l) ==> |v.levels| - 1 <= l || (AtLastStep(v, l) && l > 0) || v.justRegridded
      ensures Synchronized(u, v, l, t, t')
    {
    }

    /** At a regrid point of which level `l` is in charge, synchronizes `l` and the finer levels, and the next
        coarser level too if this was the last step of the sequence. */
    method SynchronizeForRegrid(l: nat, newTime: real, ghost u: State, ghost v: State, ghost t: real)
      returns (ghost w: State)
      requires v == Now() && Configured() && Shape(u) && l < |u.levels| && Followed(u, v, l, t, newTime)
      requires RegridsNow(v, l) && !v.justRegridded
      requires l > 0 && AtLastStep(v, l) ==> ParentReady(u, l, newTime)
      requires Obeys()
      modifies hli
      ensures w == Now() && Carried(v, w, l) && Synchronized(u, w, l, t, newTime)
      ensures Obeys()
    {
      hide Obeys;
      var coarsestSyncLevel := if l > 0 && LastLevelStep(l) then l - 1 else l;
      if coarsestSyncLevel < |hli.levels| - 1 {
        FollowedIsSyncReady(u, v, l, coarsestSyncLevel, t, newTime);
        SynchronizeDownTo(coarsestSyncLevel, newTime, v);
        w := Now();
        SyncForRegrid(u, v, w, l, coarsestSyncLevel, t, newTime);
        SyncCarries(v, w, coarsestSyncLevel, l, newTime);
      } else {
        w := v;
        NothingToSynchronize(u, v, l, t, newTime);
      }
    }

    /** Away from a regrid point, synchronizes level `l` with the only finer level and resets that one. */
    method SynchronizeAndResetFinest(l: nat, newTime: real, ghost u: State, ghost v: State, ghost t: real)
      returns (ghost w: State)
      requires v == Now() && Configured() && Shape(u) && l < |u.levels| && Followed(u, v, l, t, newTime)
      requires !RegridPoint(v, l) && l < |v.levels| - 1 && (!AtLastStep(v, l) || l == 0) && !v.justRegridded
      requires Obeys()
      modifies hli
      ensures w == Now() && Carried(v, w, l) && Synchronized(u, w, l, t, newTime)
      ensures Obeys()
    {
      hide Obeys;
      hide CoarserUnchanged, ParentUnchanged, CleanFrom, DtsKnown, WaitingFrom, Summed, Synchronized;
      FollowedIsSyncReady(u, v, l, l, t, newTime);
      SynchronizeDownTo(l, newTime, v);
      ghost var x := Now();
      FinestIsReset(u, v, x, l, t, newTime);
      w := ResetFinest(newTime, x);
      SyncThenReset(u, v, x, w, l, t, newTime);
      ResetCarries(v, x, w, l, newTime);
    }

    /** The synchronization part of a step. */
    method SynchronizeAfterStep(l: nat, newTime: real, ghost u: State, ghost v: State, ghost t: real)
      returns (ghost w: State)
      requires v == Now() && Configured() && Shape(u) && l < |u.levels| && Followed(u, v, l, t, newTime)
      requires l > 0 && AtLastStep(v, l) ==> ParentReady(u, l, newTime)
      requires Obeys()
      modifies hli
      ensures w == Now() && Carried(v, w, l) && Synchronized(u, w, l, t, newTime)
      ensures Obeys()
    {
      hide Obeys;
      if AtRegridPoint(l) {
        if !LastLevelStep(l) || !CoarserLevelRegridsToo(l) {
          w := SynchronizeForRegrid(l, newTime, u, v, t);
        } else {
          w := v;
          NothingToSynchronize(u, v, l, t, newTime);
        }
      } else if l < |hli.levels| - 1 && (!LastLevelStep(l) || l == 0) && !justRegridded {
        w := SynchronizeAndResetFinest(l, newTime, u, v, t);
      } else {
        w := v;
        NothingToSynchronize(u, v, l, t, newTime);
      }
    }

    lemma FinestIsReset(u: State, v: State, w: State, l: nat, t: real, t': real)
      requires Configured() && Shape(u) && l < |u.levels| && Followed(u, v, l, t, t')
      requires l < |v.levels| - 1 && !v.justRegridded && SyncEffect(v, w, l, t')
      ensures Shape(w) && w.levels[|w.levels| - 1].next == Some(t') && !w.marks[|w.levels| - 1].owed
    {
      assert Waiting(v, |v.levels| - 1, t');
    }

    /** Resets the data of level `l`, which stands at `t` and owes no synchronization. */
    method ResetLevel(l: nat, t: real)
      requires l < |hli.levels| <= maxLevels && hli.levels[l].next == Some(t)
      requires Obeys() && !MarkOf(hli.history, l).owed
      modifies hli`levels, hli`history, hli`data, hli`run
      ensures hli.levels == old(hli.levels)[l := old(hli.levels)[l].(current := t, next := None)]
      ensures Obeys()
      ensures forall k | 0 <= k < maxLevels :: MarkOf(hli.history, k) == MarkOf(old(hli.history), k)
    {
      hide HyperbolicLevelIntegrator.Tracked, MarkOf, Lawful;
      ghost var h, e := hli.history, Reset(l, t, Some(t));
      hli.ResetTimeDependentData(l, t);
      ExtendLaw(h, e, ScheduleRules());
      forall k | 0 <= k < maxLevels
        ensures MarkOf(hli.history, k) == MarkOf(h, k)
      {
        MarkAfterEvent(h, e, k);
      }
    }

    /** What a regrid from level `l`, with `n` levels before and `n'` after it, means for level `k`: the time
        increment of a level that was not there before, or is not there any more, is not known, and no regrid is due
        on the levels from `l` on. */
    ghost function AfterRegrid(m: Mark, l: nat, n: int, n': int, k: nat): Mark {
      m.(dtKnown := m.dtKnown && (k <= l || (k < n && k < n')), regridded := m.regridded || l <= k)
    }

    /** A regrid that is due is allowed when nothing is owed. */
    lemma RegridIsAllowed(z: State, l: nat, t: real, f: nat, f': nat)
      requires |z.marks| == maxLevels && l <= f' < maxLevels && l <= f
      requires (forall k | l <= k < maxLevels :: !z.marks[k].owed) && Due(ScheduleRules(), l, z.marks[l].steps)
      ensures Allowed(z.marks, Regrid(l, t, f, f')) && Timely(ScheduleRules(), z.marks, Regrid(l, t, f, f'))
      ensures forall m, k: nat :: MarkAfter(m, Regrid(l, t, f, f'), k) == AfterRegrid(m, l, f + 1, f' + 1, k)
    {
    }

    /** Replaces the levels finer than `l` by an arbitrary number of new ones. */
    method RegridFinerLevels(l: nat, t: real, ghost z: State) returns (ghost y: State)
      requires z == Now() && Configured() && l < |z.levels| <= maxLevels && LevelCanBeRefined(l)
      requires Obeys()
      requires forall k | l <= k < maxLevels :: !z.marks[k].owed
      requires Due(ScheduleRules(), l, z.marks[l].steps)
      modifies hli`levels, hli`history, hli`data, hli`run
      ensures y == Now() == z.(levels := y.levels, marks := y.marks)
      ensures l < |y.levels| <= maxLevels
      ensures forall k | 0 <= k <= l :: y.levels[k] == z.levels[k]
      ensures forall k | l < k < |y.levels| :: y.levels[k] == Fresh(t)
      ensures Obeys()
      ensures |y.marks| == |z.marks|
      ensures forall k | 0 <= k < |z.marks| :: y.marks[k] == AfterRegrid(z.marks[k], l, |z.levels|, |y.levels|, k)
    {
      hide HyperbolicLevelIntegrator.Tracked, MarkOf, Lawful, Due, Allowed, Timely, MarkAfter, AfterRegrid;
      var newFinest: int := *;
      if newFinest < l || maxLevels <= newFinest {
        newFinest := l;
      }
      ghost var h, e := hli.history, Regrid(l, t, |hli.levels| - 1, newFinest);
      RegridIsAllowed(z, l, t, |hli.levels| - 1, newFinest);
      hli.RegridAllFinerLevels(l, t, newFinest - l);
      ExtendLaw(h, e, ScheduleRules());
      MarksAfterEvent(h, e, maxLevels);
      y := Now();
    }

    /** What the end of a step does to the level data: a regrid resets level `l` and replaces the finer
        levels; otherwise only level `l` is reset, unless a coarser level will do that. */
    ghost predicate RegridEffect(x: State, y: State, l: nat, t: real)
      requires Configured() && Shape(x) && l < |x.levels|
    {
      && |y.marks| == |x.marks|
      && (forall k | 0 <= k < |x.marks| ::
            y.marks[k] == if RegridsNow(x, l) then AfterRegrid(x.marks[k], l, |x.levels|, |y.levels|, k)
              else x.marks[k])
      && y == x.(levels := y.levels, marks := y.marks, justRegridded := x.justRegridded || RegridsNow(x, l),
                 lastFinest := if RegridsNow(x, l) then |x.levels| - 1 else x.lastFinest)
      && l < |y.levels| <= maxLevels
      && (forall k | 0 <= k < l :: y.levels[k] == x.levels[k])
      && y.levels[l] == (if RegridsNow(x, l) || !AtLastStep(x, l) || l == 0
                         then x.levels[l].(current := t, next := None) else x.levels[l])
      && (if RegridsNow(x, l) then forall k | l < k < |y.levels| :: y.levels[k] == Fresh(t)
          else |y.levels| == |x.levels| && forall k | l < k < |y.levels| :: y.levels[k] == x.levels[k])
    }

    /** Resets levels `l` to the finest, each at its own simulation time. */
    method ResetFrom(l: nat, ghost x: State)
      requires x == Now() && Shape(x) && l < |x.levels|
      requires Obeys()
      requires forall k | l <= k < |x.levels| :: !x.marks[k].owed && x.levels[k].next == Some(x.clocks[k].simTime)
      modifies hli`levels, hli`history, hli`data, hli`run
      ensures |hli.levels| == |x.levels|
      ensures forall k | 0 <= k < l :: hli.levels[k] == x.levels[k]
      ensures hli.levels[l] == x.levels[l].(current := x.clocks[l].simTime, next := None)
      ensures Obeys()
      ensures forall k | 0 <= k < maxLevels :: MarkOf(hli.history, k) == x.marks[k]
    {
      hide Obeys;
      var ln: nat := l;
      while ln < |hli.levels|
        invariant l <= ln <= |hli.levels| == |x.levels|
        invariant forall k | 0 <= k < |x.levels| && !(l <= k < ln) :: hli.levels[k] == x.levels[k]
        invariant ln > l ==> hli.levels[l] == x.levels[l].(current := x.clocks[l].simTime, next := None)
        invariant Obeys()
        invariant forall k | 0 <= k < maxLevels :: MarkOf(hli.history, k) == x.marks[k]
      {
        ResetLevel(ln, clocks[ln].simTime);
        ln := ln + 1;
      }
    }

    /** State `y` after the finer levels have been replaced in state `z`, in which all levels from `l` on have been
        reset. */
    lemma RegridIsDone(x: State, z: State, y: State, l: nat, t: real)
      requires Configured() && Shape(x) && l < |x.levels| && RegridsNow(x, l)
      requires |z.levels| == |x.levels| && forall k | 0 <= k < l :: z.levels[k] == x.levels[k]
      requires z.levels[l] == x.levels[l].(current := t, next := None)
      requires |z.marks| == |x.marks| && forall k | 0 <= k < |x.marks| :: z.marks[k] == x.marks[k]
      requires l < |y.levels| <= maxLevels && forall k | 0 <= k <= l :: y.levels[k] == z.levels[k]
      requires forall k | l < k < |y.levels| :: y.levels[k] == Fresh(t)
      requires |y.marks| == |z.marks|
      requires forall k | 0 <= k < |z.marks| :: y.marks[k] == AfterRegrid(z.marks[k], l, |z.levels|, |y.levels|, k)
      requires y == x.(levels := y.levels, marks := y.marks, justRegridded := true, lastFinest := |x.levels| - 1)
      ensures RegridEffect(x, y, l, t)
    {
      hide RegridsNow, AfterRegrid, Configured;
    }

    /** Resets level `l` and the finer levels, and replaces the finer levels. */
    method RegridFrom(l: nat, ghost x: State)
      requires x == Now() && Configured() && Shape(x) && l < |x.levels| && RegridsNow(x, l)
      requires Obeys()
      requires forall k | l <= k < maxLevels :: !x.marks[k].owed
      requires forall k | l <= k < |x.levels| :: x.levels[k].next == Some(x.clocks[k].simTime)
      requires Due(ScheduleRules(), l, x.marks[l].steps)
      modifies this`justRegridded, this`lastFinestLevel, hli`levels, hli`history, hli`data, hli`run
      ensures RegridEffect(x, Now(), l, x.clocks[l].simTime)
      ensures Obeys()
    {
      assert LevelCanBeRefined(l);
      hide Obeys, RegridsNow, RegridEffect, Due, MarkOf, AfterRegrid;
      ResetFrom(l, x);
      lastFinestLevel := |hli.levels| - 1;
      justRegridded := true;
      ghost var z := Now();
      ghost var y := RegridFinerLevels(l, clocks[l].simTime, z);
      RegridIsDone(x, z, y, l, x.clocks[l].simTime);
      if l < |hli.levels| - 1 {
        hli.SynchronizeNewLevels(l, |hli.levels| - 1);
      }
    }

    /** The regridding part of a step. */
    method RegridOrReset(l: nat, ghost x: State) returns (ghost y: State)
      requires x == Now() && Configured() && Shape(x) && l < |x.levels|
      requires Obeys()
      requires RegridsNow(x, l) || !AtLastStep(x, l) || l == 0 ==>
                 x.levels[l].next == Some(x.clocks[l].simTime) && !x.marks[l].owed
      requires RegridsNow(x, l) ==>
                 && (forall k | l <= k < maxLevels :: !x.marks[k].owed)
                 && (forall k | l <= k < |x.levels| :: x.levels[k].next == Some(x.clocks[k].simTime))
                 && Due(ScheduleRules(), l, x.marks[l].steps)
      requires x.justRegridded ==> l + 1 < |x.levels|
      modifies this`justRegridded, this`lastFinestLevel, hli`levels, hli`history, hli`data, hli`run
      ensures y == Now() && RegridEffect(x, y, l, x.clocks[l].simTime)
      ensures Obeys()
    {
      hide Obeys, Due;
      if AtRegridPoint(l) {
        if !LastLevelStep(l) || !CoarserLevelRegridsToo(l) {
          RegridFrom(l, x);
        }
      } else {
        if !LastLevelStep(l) || l == 0 {
          ResetLevel(l, clocks[l].simTime);
        }
        if justRegridded {
          hli.SynchronizeNewLevels(l, |hli.levels| - 1);
        }
      }
      y := Now();
    }

    /** State `w` after synchronization, `x` after the time and the plan have been updated, and `y` at the end
        of the step. */
    ghost predicate StepCompleted(u: State, w: State, x: State, y: State, l: nat, t: real, t': real)
      requires Configured() && Shape(u) && l < |u.levels|
    {
      && Synchronized(u, w, l, t, t')
      && x == w.(clocks := x.clocks) && |x.clocks| == maxLevels
      && (forall k | 0 <= k < maxLevels && k != l :: x.clocks[k] == w.clocks[k])
      && x.clocks[l] == w.clocks[l].(simTime := t', dtMax := x.clocks[l].dtMax, dtActual := x.clocks[l].dtActual,
                                     maxSteps := x.clocks[l].maxSteps)
      && 0.0 < x.clocks[l].dtMax <= w.marks[l].limit
      && RegridEffect(x, y, l, t')
      && AtLastStep(x, l) == AtLastStep(w, l)
      && w.clocks[l].oldTime == w.levels[l].current == t && DtsStepped(w, l)
    }

    /** The step was not the last one: the sequence goes on. */
    lemma StepGoesOn(u: State, w: State, x: State, y: State, l: nat, t: real, t': real, end: real)
      requires Configured() && Before(u, l, end) && StepCompleted(u, w, x, y, l, t, t')
      requires l > 0 && !AtLastStep(w, l) && w.clocks[l].step > 0 && u.integratorTime <= t' < end
      requires Planned(x.clocks[l], l, end)
      ensures InSequence(u, y, l, end)
    {
      hide PlannedSteps, StepsToCover, WaitingFrom, HasStepped, CoveredUpTo;
      PlanFacts(x.clocks[l], l, end);
    }

    lemma ZeroStepEnds(u: State, w: State, x: State, y: State, t: real, end: real)
      requires Configured() && Before(u, 0, end) && StepCompleted(u, w, x, y, 0, t, end)
      requires w.clocks[0].step == u.clocks[0].step + 1 && w.zeroAdvanced && w.hierarchyAdvanced && ZeroPlanned(u, x)
      ensures After(u, y, 0, end)
    {
    }

    /** The last step of a sequence, after which level `l` regrids. */
    lemma SequenceEndsRegridding(u: State, w: State, x: State, y: State, l: nat, t: real, end: real)
      requires Configured() && Before(u, l, end) && StepCompleted(u, w, x, y, l, t, end)
      requires l > 0 && AtLastStep(w, l) && RegridsNow(w, l)
      ensures After(u, y, l, end)
    {
    }

    /** The last step of a sequence on a level that cannot be refined or hands its regrid over. */
    lemma SequenceEndsWaiting(u: State, w: State, x: State, y: State, l: nat, t: real, end: real)
      requires Configured() && Before(u, l, end) && StepCompleted(u, w, x, y, l, t, end)
      requires l > 0 && AtLastStep(w, l) && !RegridsNow(w, l)
      ensures After(u, y, l, end)
    {
      forall k | l <= k < |y.levels|
        ensures Waiting(y, k, end)
      {
        if k > l {
          assert Waiting(w, k, end);
        }
      }
    }

    /** The clock of level `l` after the step to `t'` and the new plan.  The maximum step size is the smaller one of
        what the step has allowed, and what it was before, grown. */
    ghost predicate Replanned(c: Clock, c': Clock, l: nat, last: bool, t': real, end: real, dtNew: real)
      requires Configured() && l < maxLevels
    {
      && c' == c.(simTime := t', dtMax := c'.dtMax, dtActual := c'.dtActual, maxSteps := c'.maxSteps)
      && c'.dtMax > 0.0 && c'.dtMax == MinReal(dtNew, c.dtMax * growDt)
      && (last ==> c'.maxSteps == c.maxSteps && c'.dtActual == c'.dtMax)
      && (!last && l > 0 ==> Planned(c', l, end))
    }

    /** State `x` differs from `w` by the new time and the new plan of level `l`. */
    ghost predicate Updated(w: State, x: State, l: nat, t': real, end: real)
      requires Configured() && Shape(w) && l < maxLevels
    {
      && x == w.(clocks := x.clocks) && |x.clocks| == maxLevels
      && (forall k | 0 <= k < maxLevels && k != l :: x.clocks[k] == w.clocks[k])
      && Replanned(w.clocks[l], x.clocks[l], l, AtLastStep(w, l), t', end, w.marks[l].limit)
    }

    lemma StepIsCompleted(u: State, f: State, w: State, x: State, y: State, l: nat, t: real, t': real, end: real)
      requires Configured() && Shape(u) && l < |u.levels| && Followed(u, f, l, t, t')
      requires Carried(f, w, l) && Synchronized(u, w, l, t, t')
      requires Updated(w, x, l, t', end)
      requires RegridEffect(x, y, l, t')
      ensures StepCompleted(u, w, x, y, l, t, t')
    {
    }

    lemma RegridMayStart(u: State, f: State, w: State, x: State, l: nat, t: real, t': real, end: real)
      requires Configured() && Shape(u) && l < |u.levels| && Followed(u, f, l, t, t')
      requires Carried(f, w, l) && Synchronized(u, w, l, t, t')
      requires Updated(w, x, l, t', end)
      ensures Shape(x) && AtLastStep(x, l) == AtLastStep(w, l)
      ensures RegridsNow(x, l) <==> RegridsNow(w, l)
      ensures RegridsNow(x, l) || !AtLastStep(x, l) || l == 0 ==> x.levels[l].next == Some(t') && !x.marks[l].owed
      ensures RegridsNow(x, l) ==>
                && (forall k | l <= k < maxLevels :: !x.marks[k].owed)
                && (forall k | l <= k < |x.levels| :: x.levels[k].next == Some(x.clocks[k].simTime))
                && Due(ScheduleRules(), l, x.marks[l].steps)
      ensures x.justRegridded ==> l + 1 < |x.levels|
    {
    }

    /** Moves the time of level `l` to `newTime` and plans the rest of its sequence. */
    method UpdatePlan(l: nat, newTime: real, end: real, dtNew: real, ghost m: real) returns (r: Option<bool>)
      requires Configured() && l < |clocks| == maxLevels
      requires newTime <= end && 0.0 < m <= dtNew && m <= clocks[l].dtMax
      requires if LastLevelStep(l) then newTime == end else newTime < end && l > 0
      requires l > 0 ==> clocks[l].step >= 0
      modifies this`clocks
      ensures r.Some? && |clocks| == maxLevels
      ensures forall k | 0 <= k < maxLevels && k != l :: clocks[k] == old(clocks)[k]
      ensures Replanned(old(clocks)[l], clocks[l], l, old(LastLevelStep(l)), newTime, end, dtNew)
      ensures 0.0 < clocks[l].dtMax <= dtNew && clocks[l].dtMax <= old(clocks)[l].dtMax * growDt
      ensures clocks[l].dtMax == dtNew || clocks[l].dtMax == old(clocks)[l].dtMax * growDt
      ensures r.value == (l == 0 || clocks[l].maxSteps - clocks[l].step <= 1)
      ensures clocks[l].dtMax >= m
    {
      hide KeepsPromise, StepsToCover, PlannedSteps, Replan;
      ghost var d := clocks[l].dtMax;
      clocks := clocks[l := clocks[l].(simTime := newTime)];
      SameProduct(clocks[l].dtMax, d, growDt);
      r := FindNextDtAndStepsRemaining(l, end - newTime, dtNew);
      assert r.Some?;
      if l > 0 && newTime < end {
        ReplanIsPlan(end - newTime, clocks[l].dtMax, sqrtEps, clocks[l].step, LevelCanBeRefined(l), regridInterval[l]);
      }
    }

    method UpdateFrom(l: nat, newTime: real, end: real, dtNew: real, ghost m: real, ghost w: State)
      returns (r: Option<bool>, ghost x: State)
      requires Configured() && w == Now() && Shape(w) && l < maxLevels && dtNew == w.marks[l].limit
      requires newTime <= end && 0.0 < m <= dtNew && m <= w.clocks[l].dtMax
      requires if AtLastStep(w, l) then newTime == end else newTime < end && l > 0
      requires l > 0 ==> w.clocks[l].step >= 0
      modifies this`clocks
      ensures x == Now() && Updated(w, x, l, newTime, end)
      ensures r == Some(l == 0 || x.clocks[l].maxSteps - x.clocks[l].step <= 1)
      ensures x.clocks[l].dtMax >= m
    {
      hide Replanned;
      r := UpdatePlan(l, newTime, end, dtNew, m);
      x := Now();
    }

    lemma StepConcludes(u: State, f: State, w: State, x: State, y: State, l: nat, t: real, t': real, end: real)
      requires Configured() && Before(u, l, end) && Followed(u, f, l, t, t')
      requires Carried(f, w, l) && Synchronized(u, w, l, t, t')
      requires Updated(w, x, l, t', end)
      requires RegridEffect(x, y, l, t')
      requires if AtLastStep(f, l) then t' == end else l > 0 && t' < end
      requires u.integratorTime <= t'
      ensures SequenceState(u, y, l, end)
      ensures Replanned(f.clocks[l], y.clocks[l], l, AtLastStep(f, l), t', end, f.marks[l].limit)
      ensures AtLastStep(y, l) == AtLastStep(f, l) && y.zeroAdvanced == f.zeroAdvanced
      ensures y.clocks == x.clocks && |y.clocks| == maxLevels
    {
      hide StepCompleted, After, InSequence, Synchronized, CleanFrom, WaitingFrom, DtsStepped, CoarserUnchanged;
      hide ParentUnchanged, HasStepped, Planned;
      StepIsCompleted(u, f, w, x, y, l, t, t', end);
      if l == 0 {
        ZeroStepEnds(u, w, x, y, t, end);
      } else if !AtLastStep(w, l) {
        StepGoesOn(u, w, x, y, l, t, t', end);
      } else if RegridsNow(w, l) {
        SequenceEndsRegridding(u, w, x, y, l, t, end);
      } else {
        SequenceEndsWaiting(u, w, x, y, l, t, end);
      }
    }

    /** After a pass through the loop level `l` has either completed its sequence or goes on. */
    ghost predicate SequenceState(u: State, v: State, l: nat, end: real)
      requires Configured() && Shape(u) && l < |u.levels|
    {
      && |v.clocks| == maxLevels
      && if AtLastStep(v, l) then After(u, v, l, end) else InSequence(u, v, l, end) && Planned(v.clocks[l], l, end)
    }

    lemma SequenceGoesOn(u: State, v: State, l: nat, end: real)
      requires Configured() && Shape(u) && l < |u.levels| && SequenceState(u, v, l, end) && !AtLastStep(v, l)
      ensures InSequence(u, v, l, end) && Planned(v.clocks[l], l, end)
    {
    }

    lemma SequenceIsDone(u: State, v: State, l: nat, end: real)
      requires Configured() && Shape(u) && l < |u.levels| && SequenceState(u, v, l, end) && AtLastStep(v, l)
      ensures After(u, v, l, end)
    {
    }

    lemma ReplanMayStart(u: State, f: State, l: nat, t: real, t': real, end: real)
      requires Configured() && Before(u, l, end) && Followed(u, f, l, t, t')
      requires if AtLastStep(f, l) then t' == end else l > 0
      ensures l > 0 && AtLastStep(f, l) ==> ParentReady(u, l, t')
      ensures Shape(u) && l < |u.levels| && Shape(f) && l < |f.levels| && (l > 0 ==> f.clocks[l].step >= 0)
    {
    }

    /** The middle of a step: synchronization and new plan. */
    method SynchronizeAndReplan(l: nat, newTime: real, end: real, dtNew: real, ghost u: State, ghost f: State,
                                ghost t: real, ghost m: real)
      returns (r: Option<bool>, ghost w: State, ghost x: State)
      requires f == Now() && Configured() && Before(u, l, end) && Followed(u, f, l, t, newTime)
      requires Obeys()
      requires if AtLastStep(f, l) then newTime == end else newTime < end && l > 0
      requires 0.0 < m <= dtNew == f.marks[l].limit && m <= f.clocks[l].dtMax
      modifies this`clocks, hli
      ensures x == Now() && Carried(f, w, l) && Synchronized(u, w, l, t, newTime) && Updated(w, x, l, newTime, end)
      ensures Obeys()
      ensures r == Some(l == 0 || x.clocks[l].maxSteps - x.clocks[l].step <= 1)
      ensures x.clocks[l].dtMax >= m
    {
      ReplanMayStart(u, f, l, t, newTime, end);
      hide Obeys, Synchronized, Followed, Before;
      w := SynchronizeAfterStep(l, newTime, u, f, t);
      r, x := UpdateFrom(l, newTime, end, dtNew, m, w);
    }

    /** The rest of a step, after all finer levels have followed: synchronization, new plan, regrid or reset. */
    method FinishStep(l: nat, newTime: real, end: real, dtNew: real, ghost u: State, ghost f: State, ghost t: real,
                      ghost m: real)
      returns (r: Option<bool>, ghost y: State)
      requires f == Now() && Configured() && Before(u, l, end) && Followed(u, f, l, t, newTime)
      requires Obeys()
      requires if AtLastStep(f, l) then newTime == end else newTime < end && l > 0
      requires u.integratorTime <= newTime && 0.0 < m <= dtNew == f.marks[l].limit && m <= f.clocks[l].dtMax
      modifies this, hli
      ensures y == Now() && SequenceState(u, y, l, end) && |y.clocks| == maxLevels
      ensures Obeys()
      ensures Replanned(f.clocks[l], y.clocks[l], l, AtLastStep(f, l), newTime, end, dtNew)
      ensures AtLastStep(y, l) == AtLastStep(f, l) && y.zeroAdvanced == f.zeroAdvanced
      ensures r == Some(l == 0 || y.clocks[l].maxSteps - y.clocks[l].step <= 1)
      ensures y.clocks[l].dtMax >= m
    {
      hide Obeys;
      hide SequenceState, WaitingFrom, Synchronized, RegridEffect, CleanFrom, DtsKnown, ParentUnchanged,
        CoarserUnchanged;
      ghost var w, x;
      r, w, x := SynchronizeAndReplan(l, newTime, end, dtNew, u, f, t, m);
      RegridMayStart(u, f, w, x, l, t, newTime, end);
      y := RegridOrReset(l, x);
      StepConcludes(u, f, w, x, y, l, t, newTime, end);
    }

    /** The termination measure of a sequence: the remaining time in quanta, and the steps left. */
    ghost predicate Progress(c: Clock, c': Clock, l: nat, m: real, end: real)
      requires Configured() && l < maxLevels && m > 0.0
    {
      var q, q' := Quanta(end - c.simTime, m, regridInterval[l]), Quanta(end - c'.simTime, m, regridInterval[l]);
      0 <= q' < q || (0 <= q' == q && 0 <= c'.maxSteps - c'.step < c.maxSteps - c.step)
    }

    /** Every step makes progress, although the number of steps is estimated anew after each of them. */
    lemma StepMakesProgress(c: Clock, c': Clock, l: nat, m: real, end: real)
      requires Configured() && l < maxLevels && Planned(c, l, end) && c.simTime < end
      requires 0.0 < m <= c.dtMax && m <= c'.dtMax
      requires l > 0 && c'.step == c.step + 1
      requires var last := c.maxSteps - c.step <= 1;
               && c'.simTime == (if last then end else c.simTime + c.dtActual)
               && (if last then c'.maxSteps == c.maxSteps else Planned(c', l, end))
      ensures Progress(c, c', l, m, end)
    {
      var t, left := end - c.simTime, c.maxSteps - c.step;
      if left <= 1 {
        QuantaMonotone(0.0, t, m, regridInterval[l]);
      } else {
        PlanShrinks(t, end - c'.simTime, c.dtMax, c'.dtMax, m, sqrtEps, c.step, LevelCanBeRefined(l),
                    regridInterval[l], left);
      }
    }

    ghost function StepsLeft(v: State, l: nat): int
      requires l < |v.clocks|
    {
      if l == 0 then (if v.zeroAdvanced then 0 else 1) else v.clocks[l].maxSteps - v.clocks[l].step
    }

    /** The first plan of a sequence does not change the maximum step size. */
    method FirstPlan(l: nat, end: real, timeRemaining: real, ghost v: State) returns (r: Option<bool>, ghost w: State)
      requires v == Now() && Configured() && l < |clocks| == maxLevels && clocks[l].dtMax > 0.0
      requires timeRemaining == end - clocks[l].simTime && (timeRemaining > 0.0 || (l == 0 && timeRemaining == 0.0))
      requires StepsRemaining(l) && (l > 0 ==> clocks[l].step == 0)
      modifies this`clocks
      ensures w == Now() && |w.clocks| == maxLevels
      ensures FirstPlanned(v, w, l) && Planned(w.clocks[l], l, end)
      ensures r == Some(l == 0 || w.clocks[l].maxSteps - w.clocks[l].step <= 1)
    {
      hide KeepsPromise, StepsToCover, PlannedSteps, Replan;
      r := FindNextDtAndStepsRemaining(l, timeRemaining, clocks[l].dtMax);
      w := Now();
      assert w.clocks[l].dtMax == v.clocks[l].dtMax;
      if l > 0 {
        assert r.Some? && w.clocks[l].step == 0;
        ReplanIsPlan(timeRemaining, w.clocks[l].dtMax, sqrtEps, 0, LevelCanBeRefined(l), regridInterval[l]);
      }
    }

    /** The part of a sequence before its loop: its first plan. */
    method StartSequence(l: nat, end: real, ghost u: State) returns (r: Option<bool>, ghost v: State)
      requires u == Now() && Configured() && Before(u, l, end) && Obeys()
      modifies this`clocks, this`levelZeroAdvanced, this`hierarchyAdvanced, this`lastFinestLevel
      modifies hli`history, hli`data, hli`run
      ensures Obeys()
      ensures v == Now() && SequenceState(u, v, l, end) && |v.clocks| == maxLevels && v.clocks[l].dtMax > 0.0
      ensures r == Some(l == 0 || v.clocks[l].maxSteps - v.clocks[l].step <= 1)
    {
      hide Obeys;
      hide CoarserUnchanged, ParentUnchanged, ZeroIdle, CleanFrom, HasStepped, Summed, KeepsPromise, RegridsDone;
      hide InSequence, After, SequenceState, DtsKnown, StepsToCover;
      var timeRemaining := BeginSequence(l, end);
      ghost var b := Now();
      r, v := FirstPlan(l, end, timeRemaining, b);
      SequenceBegins(u, b, v, l, end);
    }

    /** One pass through the loop of a sequence. */
    method OneStep(l: nat, end: real, sync: bool, ghost u: State, ghost v: State, ghost m: real)
      returns (r: Option<bool>, ghost y: State)
      requires v == Now() && Configured() && Before(u, l, end)
      requires SequenceState(u, v, l, end) && |v.clocks| == maxLevels && !AtLastStep(v, l)
      requires Obeys()
      requires sync == (l == 0 || v.clocks[l].maxSteps - v.clocks[l].step <= 1)
      requires 0.0 < m <= hli.minDt && m <= v.clocks[l].dtMax
      modifies this, hli
      ensures y == Now() && SequenceState(u, y, l, end) && |y.clocks| == maxLevels
      ensures Obeys()
      ensures r == Some(l == 0 || y.clocks[l].maxSteps - y.clocks[l].step <= 1)
      ensures y.clocks[l].dtMax >= m
      ensures l == 0 ==> y.zeroAdvanced
      ensures l > 0 ==> Progress(v.clocks[l], y.clocks[l], l, m, end)
      decreases maxLevels - l, 2
    {
      hide Obeys;
      hide Followed, SequenceState, CleanFrom, DtsKnown, ParentUnchanged;
      SequenceGoesOn(u, v, l, end);
      var newTime, dtNew;
      ghost var f;
      newTime, dtNew, f := TakeStep(l, end, sync, u, v);
      r, y := FinishStep(l, newTime, end, dtNew, u, f, v.clocks[l].simTime, m);
      if l > 0 {
        StepMakesProgress(v.clocks[l], y.clocks[l], l, m, end);
      }
    }

    /** Advances level `l` and all finer levels to `end`. */
    method AdvanceRecursivelyForRefinedTimestepping(l: nat, end: real, ghost u: State) returns (ghost v: State)
      requires u == Now() && Configured() && Before(u, l, end)
      requires Obeys()
      modifies this, hli
      ensures v == Now() && After(u, v, l, end) && |v.clocks| == maxLevels
      ensures Obeys()
      decreases maxLevels - l, 3
    {
      hide Obeys;
      hide InSequence, After, SequenceState, CleanFrom, DtsKnown, ZeroIdle, HasStepped;
      var r;
      r, v := StartSequence(l, end, u);
      ghost var m := MinReal(v.clocks[l].dtMax, hli.minDt);
      while !LastLevelStep(l)
        invariant v == Now() && SequenceState(u, v, l, end) && |v.clocks| == maxLevels
        invariant Obeys()
        invariant r == Some(l == 0 || v.clocks[l].maxSteps - v.clocks[l].step <= 1)
        invariant 0.0 < m <= hli.minDt && m <= v.clocks[l].dtMax
        decreases if l == 0 then 0 else Quanta(end - v.clocks[l].simTime, m, regridInterval[l]), StepsLeft(v, l)
      {
        r, v := OneStep(l, end, r.value, u, v, m);
      }
      SequenceIsDone(u, v, l, end);
    }

    // ---------------------------------------------------------------- the hierarchy

    /** Between two advances of the hierarchy. */
    ghost predicate Ready(v: State) {
      && Configured() && Shape(v)
      && v.integratorTime >= startTime
      && ZeroIdle(v, v.integratorTime) && CleanFrom(v, 1, v.integratorTime)
      && v.lastFinest >= 0 && DtsKnown(v, 0)
      && v.zeroAdvanced && v.hierarchyAdvanced
    }

    /** Advances all levels by `dt`, which may be zero if there is one level.  Rebalancing level zero needs the flag for
        its FLUX storage to be down, which it is before the first advance, and after an advance exactly if that began
        with more than one level. */
    method AdvanceHierarchy(dt: real, rebalanceCoarsest: bool, endTime: real) returns (dtNew: real)
      requires Ready(Now()) && Obeys()
      requires dt > 0.0 || (dt == 0.0 && |hli.levels| == 1)
      requires rebalanceCoarsest ==> !hli.haveFluxOnLevelZero
      modifies this, hli
      ensures Ready(Now()) && Obeys()
      ensures integratorTime == old(integratorTime) + dt
      ensures clocks[0].step == old(clocks)[0].step + 1
      ensures forall l | 0 <= l < maxLevels :: !Pending(hli.history, l)
      ensures forall l | 0 <= l < maxLevels :: !RegridOwed(hli.history, ScheduleRules(), l)
      ensures AllSteps(Substeps(hli.history, 0)) && Partition(Substeps(hli.history, 0), startTime, integratorTime)
      ensures var allowed, grown := Last(Substeps(hli.history, 0)).dtNext, old(clocks)[0].dtMax * growDt;
              && clocks[0].dtMax <= allowed && clocks[0].dtMax <= grown
              && (clocks[0].dtMax == allowed || clocks[0].dtMax == grown)
      ensures dtNew <= clocks[0].dtMax && dtNew <= endTime - integratorTime
      ensures dtNew == clocks[0].dtMax || dtNew == endTime - integratorTime
      ensures hli.haveFluxOnLevelZero <==> old(|hli.levels|) == 1
      ensures RunConservation.Conserves(hli.run)
      ensures RunConservation.AllClosed(hli.history) ==> RunConservation.KeepsMass(hli.run)
    {
      hide Obeys, Before, After, ZeroIdle, CleanFrom, DtsKnown;
      hide RunConservation.Conserves, RunConservation.AllClosed, RunConservation.KeepsMass;
      hide Pending, Partition, AllSteps;
      hide RegridOwed, Substeps;
      ghost var end := integratorTime + dt;
      ghost var u := PrepareAdvance(dt, rebalanceCoarsest);
      ghost var v := AdvanceRecursivelyForRefinedTimestepping(0, clocks[0].simTime + dt, u);
      HierarchyIsAdvanced(u, v, end);
      integratorTime := integratorTime + dt;
      dtNew := MinReal(clocks[0].dtActual, endTime - integratorTime);
      ObeysTheLaw();
      AllSettled(hli.history, v, integratorTime);
      DataConserved();
    }

    /** Sets the time of level zero, and rebalances it if that is asked for. */
    method PrepareAdvance(dt: real, rebalanceCoarsest: bool) returns (ghost u: State)
      requires Ready(Now()) && Obeys()
      requires dt > 0.0 || (dt == 0.0 && |hli.levels| == 1)
      requires rebalanceCoarsest ==> !hli.haveFluxOnLevelZero
      modifies this`clocks, hli`levels, hli`data, hli`run
      ensures u == Now() && Before(u, 0, integratorTime + dt) && Shape(u) && Obeys()
      ensures |u.levels| == |old(hli.levels)|
      ensures clocks[0].simTime == integratorTime && clocks[0].step == old(clocks)[0].step
      ensures clocks[0].dtMax == old(clocks)[0].dtMax
    {
      hide Before;
      ghost var z := Now();
      clocks := clocks[0 := clocks[0].(simTime := integratorTime)];
      if rebalanceCoarsest {
        hli.MakeCoarsestLevel(clocks[0].simTime);
      }
      u := Now();
      MayAdvance(z, u, integratorTime + dt);
    }

    /** The cell data have changed as conservation demands. */
    lemma DataConserved()
      requires Obeys() && forall l | 0 <= l < maxLevels :: !Pending(hli.history, l)
      ensures RunConservation.Conserves(hli.run)
      ensures RunConservation.AllClosed(hli.history) ==> RunConservation.KeepsMass(hli.run)
    {
      hide Conservation.SoundFrom, Conservation.WholeDomain, RunConservation.Mass, Lawful;
      RunConservation.LawfulRunConserves(hli.history, ScheduleRules(), hli.run);
      if RunConservation.AllClosed(hli.history) {
        RunConservation.ClosedRunConserves(hli.history, ScheduleRules(), hli.run);
      }
    }

    /** When a hierarchy with finer levels is advanced by `dt`, may level zero be synchronized after its step?  The
        synchronization insists on a time later than that before the step, and gets one exactly if `dt` is positive. */
    method MayBeSynchronized(dt: real) returns (may: bool)
      requires Ready(Now()) && Obeys() && dt >= 0.0 && |hli.levels| > 1
      modifies this, hli
      ensures |OldTimes()| > 0 && (may <==> integratorTime + dt > OldTimes()[0])
      ensures may <==> dt > 0.0
    {
      clocks := clocks[0 := clocks[0].(simTime := integratorTime)];
      levelZeroAdvanced, hierarchyAdvanced := false, false;
      var dtNew;
      ghost var first, flux;
      dtNew, first, flux := StepAlone(0, integratorTime + dt);
      may := integratorTime + dt > OldTimes()[0];
    }

    /** The state in which an advance of the hierarchy calls the recursion. */
    lemma MayAdvance(z: State, u: State, end: real)
      requires Ready(z) && Onward(z, 0, z.integratorTime, end)
      requires u.levels == z.levels || (!z.fluxZero && u.levels == [Fresh(z.integratorTime)] + z.levels[1..])
      requires u == z.(levels := u.levels, clocks := z.clocks[0 := z.clocks[0].(simTime := z.integratorTime)])
      ensures Before(u, 0, end) && Shape(u) && |u.levels| == |z.levels|
    {
    }

    /** The state that the recursion leaves. */
    lemma HierarchyIsAdvanced(u: State, v: State, end: real)
      requires Configured() && Shape(u) && After(u, v, 0, end) && end >= startTime
      ensures Ready(v.(integratorTime := end)) && ZeroIdle(v, end) && CleanFrom(v, 1, end) && Shape(v)
      ensures v.marks[0].cover == Covering(startTime, end)
      ensures v.clocks[0].step == u.clocks[0].step + 1 && v.integratorTime == u.integratorTime
      ensures v.fluxZero <==> |u.levels| == 1
      ensures ZeroPlanned(u, v)
    {
    }

    /** What happens when level zero is rebalanced after an advance: the next advance finds storage for the fluxes
        of level zero if and only if the hierarchy had a finer level when the advance began. */
    method RebalanceAfterAdvance(dt: real, endTime: real) returns (dtNew: real)
      requires Ready(Now()) && Obeys() && dt > 0.0
      modifies this, hli
      ensures |hli.levels| > 0
      ensures forall first: bool :: hli.CanAdvance(0, first, false) <==> old(|hli.levels|) > 1
      ensures hli.FluxFlagExact() <==> old(|hli.levels|) > 1
    {
      dtNew := AdvanceHierarchy(dt, false, endTime);
      hli.MakeCoarsestLevel(integratorTime);
    }

    lemma AllSettled(h: History, v: State, t: real)
      requires Shape(v) && v.marks == Marks(h, maxLevels) && ZeroIdle(v, t) && CleanFrom(v, 1, t)
      requires v.marks[0].cover == Covering(startTime, t) && Lawful(h, ScheduleRules())
      ensures forall l | 0 <= l < maxLevels :: !Pending(h, l)
      ensures forall l | 0 <= l < maxLevels :: !RegridOwed(h, ScheduleRules(), l)
      ensures AllSteps(Substeps(h, 0)) && Partition(Substeps(h, 0), startTime, t)
      ensures v.marks[0].limit == Last(Substeps(h, 0)).dtNext
    {
      hide Lawful, Due;
      SubstepsAreSteps(h, 0);
      forall l | 0 <= l < maxLevels
        ensures !Pending(h, l) && !RegridOwed(h, ScheduleRules(), l)
      {
        assert v.marks[l] == MarkOf(h, l);
      }
      assert v.marks[0] == MarkOf(h, 0);
      LimitOfZero(h, ScheduleRules());
    }

    /** Creates the hierarchy at the start time; `dts` are the increments that the level strategy finds stable. */
    method InitializeHierarchy() returns (dt: real, ghost dts: seq<real>)
      requires Configured() && |clocks| == maxLevels && clocks[0].step == 0
      requires hli.levels == [] && !hli.haveFluxOnLevelZero && hli.history == []
      requires integratorTime == startTime && lastFinestLevel == 0
      modifies this, hli
      ensures Ready(Now()) && Obeys() && hli.history == []
      ensures integratorTime == startTime
      ensures dt == clocks[0].dtMax > 0.0
      ensures |dts| == |hli.levels| && forall k | 0 <= k < |dts| :: InitialDt(k, dts[k])
      ensures !hli.haveFluxOnLevelZero
    {
      hide MarkOf, Lawful;
      hli.MakeCoarsestLevel(startTime);
      dts := InitializeRefinedTimesteppingLevelData(0, []);
      if |hli.levels| > 1 {
        hli.SynchronizeNewLevels(0, |hli.levels| - 1);
      }
      levelZeroAdvanced := true;
      hierarchyAdvanced := true;
      dt := clocks[0].dtMax;
      NoHistory();
    }

    lemma ObeysTheLaw()
      requires Obeys()
      ensures Lawful(hli.history, ScheduleRules())
    {
    }

    /** Nothing has happened, so nothing is owed. */
    lemma NothingPending()
      requires hli.history == []
      ensures forall l | 0 <= l < maxLevels :: !Pending(hli.history, l)
      ensures forall l | 0 <= l < maxLevels :: !RegridOwed(hli.history, ScheduleRules(), l)
    {
    }

    lemma NoHistory()
      ensures Lawful([], ScheduleRules())
      ensures forall k | 0 <= k < maxLevels ::
                Marks([], maxLevels)[k] == Mark(false, None, Nothing, [], false, 0.0, 0, false)
    {
      forall k: nat | k < maxLevels
        ensures MarkOf([], k) == Mark(false, None, Nothing, [], false, 0.0, 0, false)
      {
      }
    }

    /** The first increment of level `k`: the one that the level strategy finds stable, `stable`; but on a finer
        level no more than what, times the refinement ratio, makes an increment of the next coarser one. */
    ghost predicate InitialDt(k: nat, stable: real)
      requires |ratio| == |clocks| && k < |clocks|
      reads this
    {
      && clocks[k].dtActual == clocks[k].dtMax <= stable
      && (k == 0 ==> clocks[k].dtMax == stable)
      && (k > 0 ==>
            var scaled := clocks[k].dtMax * ratio[k] as real;
            scaled <= clocks[k - 1].dtActual && (clocks[k].dtMax == stable || scaled == clocks[k - 1].dtActual))
    }

    /** Sets the time step data of level `l`; `stable` is the increment that the level strategy finds stable. */
    method InitializeTimeStep(l: nat) returns (ghost stable: real)
      requires Configured() && |clocks| == maxLevels && |hli.levels| == l + 1 <= maxLevels
      requires l > 0 ==> clocks[l - 1].dtActual > 0.0
      modifies this`clocks
      ensures |clocks| == maxLevels && clocks[l].dtMax > 0.0 && InitialDt(l, stable)
      ensures forall k | 0 <= k < maxLevels && k != l :: clocks[k] == old(clocks)[k]
      ensures l == 0 ==> clocks[0].step == old(clocks)[0].step
    {
      if l > 0 {
        clocks := clocks[l := clocks[l].(step := 0, maxSteps := 1)];
      }
      clocks := clocks[l := clocks[l].(simTime := startTime)];
      var dt := hli.GetLevelDt(l);
      stable := dt;
      if l > 0 {
        var bound := clocks[l - 1].dtActual / ratio[l] as real;
        PositiveQuotient(clocks[l - 1].dtActual, ratio[l] as real);
        dt := MinReal(dt, bound);
        MulMonotone(dt, bound, ratio[l] as real);
      }
      clocks := clocks[l := clocks[l].(dtMax := dt, dtActual := dt)];
    }

    /** Sets the time step data of level `l`, and builds the finer levels. */
    method InitializeRefinedTimesteppingLevelData(l: nat, ghost coarser: seq<real>) returns (ghost dts: seq<real>)
      requires Configured() && |clocks| == maxLevels && |hli.levels| == l + 1 <= maxLevels && |coarser| == l
      requires forall k | 0 <= k < l :: clocks[k].dtMax > 0.0
      requires l > 0 ==> clocks[l - 1].dtActual > 0.0
      requires hli.history == [] && hli.Tracked()
      modifies this`clocks, hli`levels, hli`data, hli`run
      ensures hli.Tracked()
      ensures |clocks| == maxLevels && l < |hli.levels| <= maxLevels
      ensures hli.levels[..l + 1] == old(hli.levels)
      ensures forall k | l < k < |hli.levels| :: hli.levels[k] == Fresh(startTime)
      ensures forall k | 0 <= k < l :: clocks[k] == old(clocks)[k]
      ensures forall k | 0 <= k < |hli.levels| :: clocks[k].dtMax > 0.0
      ensures l == 0 ==> clocks[0].step == old(clocks)[0].step
      ensures |dts| == |hli.levels| && dts[..l] == coarser
      ensures forall k | l <= k < |dts| :: InitialDt(k, dts[k])
      decreases maxLevels - l
    {
      hide HyperbolicLevelIntegrator.Tracked;
      ghost var stable := InitializeTimeStep(l);
      dts := coarser + [stable];
      if LevelCanBeRefined(l) {
        var makeFiner: bool := *;
        if makeFiner {
          ghost var levels, known := hli.levels, dts;
          hli.MakeFinerLevel(startTime);
          ghost var finer := hli.levels;
          dts := InitializeRefinedTimesteppingLevelData(l + 1, dts);
          assert dts[l] == dts[..l + 1][l] == known[l];
          assert dts[..l] == dts[..l + 1][..l];
          assert hli.levels[..l + 2] == finer && finer[..l + 1] == levels && finer[l + 1] == Fresh(startTime);
          assert hli.levels[..l + 1] == hli.levels[..l + 2][..l + 1];
          assert hli.levels[l + 1] == hli.levels[..l + 2][l + 1];
        }
      }
    }
  }

  /** The regrid interval of a level with refinement ratio `r` to the next coarser level, if there is one. */
  function IntervalFor(r: int): Option<int> {
    if r % 2 == 0 || r == 1 then Some(2)
    else if r % 3 == 0 then Some(3)
    else None
  }

  /** A regrid interval suits a refinement ratio: two suits a ratio of one, and every other ratio is suited by its least
      divisor above one. */
  predicate Suits(interval: int, r: int) {
    if r == 1 then interval == 2
    else interval > 1 && r % interval == 0 && forall d | 1 < d < interval :: r % d != 0
  }

  /** Regrid intervals for refined timestepping; nothing if a ratio admits none, which the source reports as
      an error.  Level zero gets the interval of the next level. */
  method RegridIntervals(maxLevels: nat, ratio: seq<int>) returns (r: Option<seq<int>>)
    requires 1 <= maxLevels == |ratio|
    ensures r.Some? <==> forall k | 1 <= k < maxLevels :: ratio[k] == 1 || ratio[k] % 2 == 0 || ratio[k] % 3 == 0
    ensures r.Some? ==>
      && |r.value| == maxLevels
      && (forall k | 1 <= k < maxLevels :: Suits(r.value[k], ratio[k]))
      && r.value[0] == (if maxLevels > 1 then r.value[1] else 1)
  {
    if maxLevels == 1 {
      return Some([1]);
    }
    var intervals: seq<int> := seq(maxLevels, _ => 0);
    var l := 1;
    while l < maxLevels
      invariant 1 <= l <= maxLevels == |intervals|
      invariant forall k | 1 <= k < l :: Suits(intervals[k], ratio[k])
      invariant forall k | 1 <= k < l :: ratio[k] == 1 || ratio[k] % 2 == 0 || ratio[k] % 3 == 0
    {
      var interval := IntervalFor(ratio[l]);
      if interval == None {
        return None;
      }
      intervals := intervals[l := interval.value];
      l := l + 1;
    }
    return Some(intervals[0 := intervals[1]]);
  }

  function Total(dts: seq<real>): real {
    if dts == [] then 0.0 else Total(dts[..|dts| - 1]) + dts[|dts| - 1]
  }

  /** A whole run: the hierarchy is made and advanced by the given increments, and level zero is rebalanced where that
      is wanted, if the previous advance began with more than one level or there was none. */
  method Simulate(maxLevels: nat, regridInterval: seq<int>, ratio: seq<int>, growDt: real, sqrtEps: real, minDt: real,
                  startTime: real, endTime: real, dts: seq<real>, wanted: seq<bool>)
    returns (integrator: TimeRefinementIntegrator)
    requires 1 <= maxLevels == |regridInterval| == |ratio| && |wanted| == |dts|
    requires forall k | 0 <= k < maxLevels :: regridInterval[k] >= 1 && ratio[k] >= 1
    requires growDt >= 1.0 && 0.0 < sqrtEps < 1.0 && minDt > 0.0
    requires forall i | 0 <= i < |dts| :: dts[i] > 0.0
    ensures fresh(integrator) && fresh(integrator.hli) && integrator.maxLevels == maxLevels
    ensures integrator.Ready(integrator.Now()) && integrator.integratorTime == startTime + Total(dts)
    ensures Lawful(integrator.hli.history, Rules(maxLevels, regridInterval, ratio, sqrtEps))
    ensures forall l | 0 <= l < maxLevels :: !Pending(integrator.hli.history, l)
    ensures forall l | 0 <= l < maxLevels ::
              !RegridOwed(integrator.hli.history, Rules(maxLevels, regridInterval, ratio, sqrtEps), l)
    ensures RunConservation.Conserves(integrator.hli.run)
    ensures RunConservation.AllClosed(integrator.hli.history) ==> RunConservation.KeepsMass(integrator.hli.run)
  {
    hide TimeRefinementIntegrator.Ready, TimeRefinementIntegrator.Obeys, Pending, Partition, AllSteps, RegridOwed;
    hide RunConservation.Conserves, RunConservation.AllClosed, RunConservation.KeepsMass;
    var hli := new HyperbolicLevelIntegrator(minDt);
    integrator := new TimeRefinementIntegrator(maxLevels, regridInterval, ratio, growDt, sqrtEps, hli, startTime);
    ghost var rules := integrator.ScheduleRules();
    var dt;
    ghost var stable;
    dt, stable := integrator.InitializeHierarchy();
    integrator.NothingPending();
    integrator.DataConserved();
    var mayRebalance, i := true, 0;
    while i < |dts|
      invariant 0 <= i <= |dts| && fresh(integrator) && fresh(integrator.hli) && integrator.hli == hli
      invariant integrator.Ready(integrator.Now()) && integrator.Obeys()
      invariant integrator.integratorTime == startTime + Total(dts[..i])
      invariant mayRebalance ==> !hli.haveFluxOnLevelZero
      invariant forall l | 0 <= l < maxLevels :: !Pending(hli.history, l)
      invariant forall l | 0 <= l < maxLevels :: !RegridOwed(hli.history, rules, l)
      invariant RunConservation.Conserves(hli.run)
      invariant RunConservation.AllClosed(hli.history) ==> RunConservation.KeepsMass(hli.run)
    {
      var several := |hli.levels| > 1;
      dt := integrator.AdvanceHierarchy(dts[i], wanted[i] && mayRebalance, endTime);
      mayRebalance := several;
      assert dts[..i + 1][..i] == dts[..i];
      i := i + 1;
    }
    assert dts[..|dts|] == dts;
    integrator.ObeysTheLaw();
  }
}
