/** Storage and flux state machine of the hyperbolic level integrator: which of the CURRENT, NEW, FLUX and
    flux-sum data exist on each level of the hierarchy, and at which times; and the cell data that go with it. */
module LevelIntegration {
  import opened Wrappers
  import opened Schedule
  import Conservation

  /** Patch data of one level.  `current` is the time of the CURRENT data, `next` the time of the NEW data
      if it is allocated, `flux` says whether FLUX storage is allocated, and `fluxSum` holds the accumulated
      flux integrals at the faces if its storage is allocated. */
  datatype LevelData = LevelData(current: real, next: Option<real>, flux: bool, fluxSum: Option<seq<real>>)

  /** A level as it is created by the gridding algorithm: only CURRENT data exists. */
  function Fresh(time: real): LevelData {
    LevelData(time, None, false, None)
  }

  class HyperbolicLevelIntegrator {
    /** The environment's promise about the time increments that advanceLevel returns. */
    const minDt: real
    var levels: seq<LevelData>
    var haveFluxOnLevelZero: bool
    /** The cell data of all levels. */
    var data: Conservation.Hierarchy
    ghost var history: History
    /** The cell data at the beginning and after each event of the history. */
    ghost var run: seq<Conservation.Hierarchy>

    /** The cell data go with the history and with the storage. */
    ghost predicate Tracked()
      reads this
    {
      Follows(history, run, data, levels)
    }

    constructor (minDt: real)
      ensures this.minDt == minDt
      ensures levels == [] && !haveFluxOnLevelZero && history == []
    {
      this.minDt := minDt;
      levels, haveFluxOnLevelZero, data, history, run := [], false, [], [], [[]];
    }

    /** What the next advance of level `l` finds: storage for the fluxes it computes, and for the sum it
        adds them to. */
    predicate CanAdvance(l: nat, firstStep: bool, regridAdvance: bool)
      requires l < |levels|
      reads this
    {
      if regridAdvance then firstStep || levels[l].flux
      else if l == 0 then !haveFluxOnLevelZero || levels[0].flux
      else firstStep || (levels[l].flux && levels[l].fluxSum.Some?)
    }

    /** The flux integrals of a step of level `l`, which the patch strategy computes: any numbers, one for each face. */
    method ComputeFluxes(l: nat) returns (fluxes: seq<real>)
      ensures l < |data| ==> |fluxes| == |data[l].current| + 1
    {
      fluxes := [];
      if l < |data| {
        while |fluxes| < |data[l].current| + 1
          invariant |fluxes| <= |data[l].current| + 1
        {
          var flux: real := *;
          fluxes := fluxes + [flux];
        }
      }
    }

    /** A time increment that the patch strategy allows for the next step: any number not below `minDt`. */
    method AllowedDt() returns (dt: real)
      ensures dt >= minDt
    {
      dt := *;
      if dt < minDt {
        dt := minDt;
      }
    }

    /** Integrates level `l` from `currentTime` to `newTime`, with the given flux integrals. */
    method AdvanceLevel(l: nat, currentTime: real, newTime: real, firstStep: bool, regridAdvance: bool,
                        fluxes: seq<real>)
      returns (dtNext: real)
      requires l < |levels| && currentTime <= newTime
      requires CanAdvance(l, firstStep, regridAdvance)
      modifies this
      ensures |levels| == |old(levels)|
      ensures forall k | 0 <= k < |levels| && k != l :: levels[k] == old(levels)[k]
      ensures levels[l].current == old(levels)[l].current && levels[l].next == Some(newTime)
      ensures levels[l].flux == if regridAdvance && firstStep then false else true
      ensures levels[l].fluxSum ==
              if regridAdvance || l == 0 then old(levels)[l].fluxSum
              else if firstStep then Some(Plus([], fluxes))
              else Some(Plus(old(levels)[l].fluxSum.value, fluxes))
      ensures haveFluxOnLevelZero == (old(haveFluxOnLevelZero) || (l == 0 && !regridAdvance))
      ensures history ==
              if regridAdvance then old(history)
              else old(history) + [StepEvent(old(levels), l, currentTime, newTime, firstStep, fluxes, dtNext)]
      ensures dtNext >= minDt
      ensures !regridAdvance && old(Tracked()) && |fluxes| == |old(data)[l].current| + 1 ==>
                Tracked() && run[0] == old(run)[0]
    {
      hide Follows;
      dtNext := AllowedDt();
      ghost var was, e := levels, StepEvent(levels, l, currentTime, newTime, firstStep, fluxes, dtNext);
      ghost var tracked := !regridAdvance && Tracked() && l < |data| && |fluxes| == |data[l].current| + 1;
      if Tracked() {
        FollowsShape(history, run, data, levels);
      }
      levels := levels[l := levels[l].(next := Some(newTime))];
      PreprocessFluxData(l, regridAdvance, firstStep);
      assert levels[l].flux;
      PostprocessFluxData(l, regridAdvance, firstStep, fluxes);
      if !regridAdvance {
        StepData(l, firstStep, fluxes, was, e, tracked);
      }
    }

    /** The cell data take the step too. */
    method StepData(l: nat, firstStep: bool, fluxes: seq<real>, ghost was: seq<LevelData>, ghost e: Event,
                    ghost tracked: bool)
      requires e.Step? && e.level == l && e.first == firstStep && e.flux == fluxes
      requires tracked ==> Follows(history, run, data, was)
      requires tracked ==>
        && l < |was| == |levels| == |data| && |run| == |history| + 1 && |fluxes| == |data[l].current| + 1
        && e == StepEvent(was, l, e.from, e.to, firstStep, fluxes, e.dtNext)
        && (forall k | 0 <= k < |was| && k != l :: levels[k] == was[k]) && levels[l].next.Some?
        && (if l == 0 then levels[0].fluxSum == was[0].fluxSum
            else if firstStep then levels[l].fluxSum == Some(Plus([], fluxes))
            else was[l].fluxSum.Some? && levels[l].fluxSum == Some(Plus(was[l].fluxSum.value, fluxes)))
      modifies this`data, this`history, this`run
      ensures history == old(history) + [e]
      ensures tracked ==> Tracked() && run[0] == old(run)[0]
    {
      hide Follows;
      if tracked {
        StepFollows(history, run, data, was, e, levels);
      }
      if l < |data| {
        data := Conservation.AfterStep(data, l, firstStep, fluxes);
      }
      history, run := history + [e], run + [data];
    }

    method PreprocessFluxData(l: nat, regridAdvance: bool, firstStep: bool)
      requires l < |levels|
      modifies this`levels, this`haveFluxOnLevelZero
      ensures |levels| == |old(levels)|
      ensures forall k | 0 <= k < |levels| && k != l :: levels[k] == old(levels)[k]
      ensures levels[l].current == old(levels)[l].current && levels[l].next == old(levels)[l].next
      ensures levels[l].flux ==
              (old(levels)[l].flux ||
               if regridAdvance || l > 0 then firstStep else !old(haveFluxOnLevelZero))
      ensures levels[l].fluxSum == if !regridAdvance && l > 0 && firstStep then Some([]) else old(levels)[l].fluxSum
      ensures haveFluxOnLevelZero == (old(haveFluxOnLevelZero) || (l == 0 && !regridAdvance))
    {
      if !regridAdvance {
        if (l > 0 && firstStep) || (l == 0 && !haveFluxOnLevelZero) {
          levels := levels[l := levels[l].(flux := true)];
          if l == 0 {
            haveFluxOnLevelZero := true;
          }
        }
      } else {
        if firstStep {
          levels := levels[l := levels[l].(flux := true)];
        }
      }
      if !regridAdvance && l > 0 {
        if firstStep {
          levels := levels[l := levels[l].(fluxSum := Some([]))];
        }
      }
    }

    method PostprocessFluxData(l: nat, regridAdvance: bool, firstStep: bool, fluxes: seq<real>)
      requires l < |levels|
      requires !regridAdvance && l > 0 ==> levels[l].flux && levels[l].fluxSum.Some?
      modifies this`levels
      ensures |levels| == |old(levels)|
      ensures forall k | 0 <= k < |levels| && k != l :: levels[k] == old(levels)[k]
      ensures levels[l].current == old(levels)[l].current && levels[l].next == old(levels)[l].next
      ensures levels[l].flux == (old(levels)[l].flux && !(regridAdvance && firstStep))
      ensures levels[l].fluxSum == if !regridAdvance && l > 0 then Some(Plus(old(levels)[l].fluxSum.value, fluxes))
                                   else old(levels)[l].fluxSum
    {
      if regridAdvance && firstStep {
        levels := levels[l := levels[l].(flux := false)];
      }
      if !regridAdvance && l > 0 {
        levels := levels[l := levels[l].(fluxSum := Some(Plus(levels[l].fluxSum.value, fluxes)))];
      }
    }

    /** Synchronizes levels `finest` down to `coarsest` at `syncTime`.  Each finer level gives up its flux
        sum and its FLUX storage; the FLUX storage of `coarsest` is kept unless it is level zero. */
    method StandardLevelSynchronization(coarsest: nat, finest: nat, syncTime: real, oldTimes: seq<real>)
      requires coarsest < finest < |levels| && finest <= |oldTimes|
      requires forall k | coarsest <= k < finest :: syncTime > oldTimes[k]
      requires forall k | coarsest <= k <= finest :: levels[k].next.Some?
      requires forall k | coarsest <= k < finest :: levels[k].flux
      requires forall k | coarsest < k <= finest :: levels[k].fluxSum.Some?
      modifies this
      ensures |levels| == |old(levels)|
      ensures forall k | 0 <= k < |levels| && !(coarsest <= k <= finest) :: levels[k] == old(levels)[k]
      ensures forall k | coarsest < k <= finest :: levels[k] == old(levels)[k].(flux := false, fluxSum := None)
      ensures levels[coarsest] ==
              old(levels)[coarsest].(flux := if coarsest == 0 then false else old(levels)[coarsest].flux)
      ensures haveFluxOnLevelZero == (old(haveFluxOnLevelZero) && coarsest != 0)
      ensures history == old(history) + [SyncEvent(old(levels), coarsest, finest, syncTime)]
      ensures old(Tracked()) ==> Tracked() && run[0] == old(run)[0]
    {
      hide Follows;
      ghost var was, tracked := levels, Tracked();
      if tracked {
        FollowsShape(history, run, data, levels);
      }
      var fine := finest;
      while fine > coarsest
        invariant coarsest <= fine <= finest
        invariant |levels| == |old(levels)|
        invariant forall k | 0 <= k < |levels| && !(coarsest <= k <= finest) :: levels[k] == old(levels)[k]
        invariant forall k | coarsest <= k < fine :: levels[k] == old(levels)[k]
        invariant forall k | fine < k <= finest :: levels[k] == old(levels)[k].(flux := false, fluxSum := None)
        invariant levels[fine] == old(levels)[fine].(flux :=
                    if fine == finest then old(levels)[fine].flux
                    else if fine > coarsest then false
                    else old(levels)[fine].flux && coarsest != 0)
        invariant haveFluxOnLevelZero == (old(haveFluxOnLevelZero) && (fine > 0 || coarsest != 0))
        invariant history == old(history) && run == old(run) && data == old(data)
      {
        var coarse := fine - 1;
        SynchronizeLevelWithCoarser(fine, coarse, syncTime, oldTimes[coarse]);
        ReleaseFluxData(fine, coarse, coarsest);
        fine := fine - 1;
      }
      SyncData(coarsest, finest, syncTime, was, tracked);
    }

    /** The cell data are synchronized too. */
    method SyncData(coarsest: nat, finest: nat, ghost syncTime: real, ghost was: seq<LevelData>, ghost tracked: bool)
      requires coarsest < finest < |was| == |levels|
      requires forall k | coarsest <= k <= finest :: was[k].next.Some?
      requires forall k | 0 <= k < |was| :: levels[k].next == was[k].next
      requires forall k | 0 <= k < |was| :: levels[k].fluxSum == None || levels[k].fluxSum == was[k].fluxSum
      requires tracked ==> Follows(history, run, data, was) && |data| == |levels| && |run| == |history| + 1
      modifies this`data, this`history, this`run
      ensures history == old(history) + [SyncEvent(was, coarsest, finest, syncTime)]
      ensures tracked ==> Tracked() && run[0] == old(run)[0]
    {
      hide Follows;
      if tracked {
        SyncFollows(history, run, data, was, coarsest, finest, syncTime, levels);
      }
      if finest < |data| {
        data := Conservation.AfterSync(data, coarsest, finest);
      }
      history, run := history + [SyncEvent(was, coarsest, finest, syncTime)], run + [data];
    }

    /** What is released after two levels have been synchronized. */
    method ReleaseFluxData(fine: nat, coarse: nat, coarsest: nat)
      requires coarsest <= coarse < fine < |levels|
      modifies this`levels, this`haveFluxOnLevelZero
      ensures levels == old(levels)[fine := old(levels)[fine].(fluxSum := None, flux := false)]
                                   [coarse := old(levels)[coarse].(flux :=
                                      old(levels)[coarse].flux && coarse == coarsest && coarsest != 0)]
      ensures haveFluxOnLevelZero == (old(haveFluxOnLevelZero) && !(coarse == coarsest == 0))
    {
      levels := levels[fine := levels[fine].(fluxSum := None, flux := false)];
      if coarse > coarsest {
        levels := levels[coarse := levels[coarse].(flux := false)];
      } else {
        if coarsest == 0 {
          levels := levels[coarse := levels[coarse].(flux := false)];
          haveFluxOnLevelZero := false;
        }
      }
    }

    /** Storage that correcting the fluxes of `coarse` and repeating its conservative difference touches.
        The values themselves are the subject of module Refluxing. */
    method SynchronizeLevelWithCoarser(fine: nat, coarse: nat, syncTime: real, coarseSimTime: real)
      requires fine < |levels| && coarse == fine - 1
      requires syncTime > coarseSimTime
      requires levels[fine].fluxSum.Some? && levels[coarse].flux
      requires levels[fine].next.Some? && levels[coarse].next.Some?
    {
    }

    /** Replaces CURRENT by NEW. */
    method ResetTimeDependentData(l: nat, newTime: real)
      requires l < |levels| && levels[l].next.Some?
      modifies this`levels, this`data, this`history, this`run
      ensures levels == old(levels)[l := old(levels)[l].(current := newTime, next := None)]
      ensures history == old(history) + [Reset(l, newTime, old(levels)[l].next)]
      ensures old(Tracked()) ==> Tracked() && run[0] == old(run)[0]
    {
      hide Follows;
      ghost var e := Reset(l, newTime, levels[l].next);
      if Tracked() {
        FollowsShape(history, run, data, levels);
        ResetFollows(history, run, data, levels, l, newTime);
      }
      if l < |data| {
        data := Conservation.AfterReset(data, l);
      }
      history, run := history + [e], run + [data];
      levels := levels[l := levels[l].(current := newTime, next := None)];
    }

    /** The gridding algorithm replaces every level finer than `l` by `count` new ones. */
    method RegridAllFinerLevels(l: nat, time: real, count: nat)
      requires l < |levels|
      modifies this`levels, this`data, this`history, this`run
      ensures levels == old(levels)[..l + 1] + seq(count, _ => Fresh(time))
      ensures history == old(history) + [Regrid(l, time, |old(levels)| - 1, l + count)]
      ensures old(Tracked()) ==> Tracked() && run[0] == old(run)[0]
    {
      hide Follows;
      ghost var e := Regrid(l, time, |levels| - 1, l + count);
      var finer := AnyFinerLevels(l, count);
      if Tracked() {
        FollowsShape(history, run, data, levels);
        RegridFollows(history, run, data, levels, l, time, count, finer);
      }
      data := finer;
      history, run := history + [e], run + [data];
      levels := levels[..l + 1] + seq(count, _ => Fresh(time));
    }

    /** Cell data after a regrid: any finer levels that are nested and averaged. */
    method AnyFinerLevels(l: nat, count: nat) returns (ds: Conservation.Hierarchy)
      ensures l < |data| && Conservation.LevelOk(data[l]) ==> Conservation.IsRegrid(data, l, count, ds)
    {
      ds := *;
      if l < |data| && !Conservation.IsRegrid(data, l, count, ds) {
        ds := Conservation.BareFiner(data, l, count);
        if Conservation.LevelOk(data[l]) {
          Conservation.RegridExists(data, l, count);
        }
      }
    }

    /** Notes that the maximum time increment of a level has been computed anew. */
    ghost method NoteDt(e: Event)
      requires e.NewDt?
      modifies this`history, this`run
      ensures history == old(history) + [e] && (old(Tracked()) ==> Tracked() && run[0] == old(run)[0])
    {
      if Tracked() {
        Conservation.RunGoesOn(history, run, e, data);
      }
      history, run := history + [e], run + [data];
    }

    /** FLUX storage of level zero is there exactly when the flag says so. */
    predicate FluxFlagExact()
      reads this
    {
      |levels| > 0 && haveFluxOnLevelZero == levels[0].flux
    }

    /** The gridding algorithm makes level zero, or replaces it by a rebalanced one.  The new level has no
        FLUX storage, but the flag is not touched: the next advance of level zero finds storage for its
        fluxes if and only if the flag was down. */
    method MakeCoarsestLevel(time: real)
      modifies this`levels, this`data, this`run
      ensures levels == [Fresh(time)] + if old(levels) == [] then [] else old(levels)[1..]
      ensures FluxFlagExact() <==> !haveFluxOnLevelZero
      ensures forall first: bool :: CanAdvance(0, first, false) <==> !haveFluxOnLevelZero
      ensures old(levels) == [] && history == [] ==> Tracked()
      ensures old(Tracked()) && old(levels)[0].next == None ==> Tracked() && run == old(run) && data == old(data)
    {
      if levels == [] {
        var d := AnyCoarsestLevel();
        data := [d];
        run := [data];
      }
      levels := [Fresh(time)] + if levels == [] then [] else levels[1..];
    }

    /** The gridding algorithm adds a level to the hierarchy under construction. */
    method MakeFinerLevel(time: real)
      modifies this`levels, this`data, this`run
      ensures levels == old(levels) + [Fresh(time)]
      ensures history == [] && old(Tracked()) ==> Tracked()
    {
      hide Conservation.SoundFrom, Conservation.WholeDomain;
      ghost var was := data;
      if |data| > 0 {
        data := AnyFinerLevel();
      }
      if history == [] {
        if Tracked() {
          assert forall k | 0 <= k < |was| :: data[k] == data[..|was|][k];
        }
        run := [data];
      }
      levels := levels + [Fresh(time)];
    }

    /** The data of level zero, which covers the domain. */
    method AnyCoarsestLevel() returns (d: Conservation.CellData)
      ensures Conservation.LevelOk(d) && Conservation.WholeDomain(d) && d.next == None
    {
      d := *;
      if !(Conservation.LevelOk(d) && Conservation.WholeDomain(d) && d.next == None) {
        d := Conservation.CellData(1, [], [], None, [], [], []);
      }
    }

    /** The data with one more level, nested and averaged. */
    method AnyFinerLevel() returns (ds: Conservation.Hierarchy)
      requires |data| > 0
      ensures |ds| == |data| + 1 && ds[..|data|] == data && ds[|data|].next == None
      ensures Conservation.SoundFrom(data, 0) ==> Conservation.SoundFrom(ds, 0)
    {
      var f: Conservation.CellData := *;
      if !(Conservation.SoundFrom(data + [f], 0) && f.next == None) {
        f := Conservation.Bare(|data[|data| - 1].current|);
        if Conservation.SoundFrom(data, 0) {
          Conservation.BareFits(data, 0);
        }
      }
      ds := data + [f];
    }

    /** The stable time increment of a level at the initial time. */
    method GetLevelDt(l: nat) returns (dt: real)
      requires l < |levels|
      ensures dt >= minDt
    {
      dt := AllowedDt();
    }

    /** Does nothing after the initial time, but insists on a non-empty range of levels. */
    method SynchronizeNewLevels(coarsest: nat, finest: nat)
      requires coarsest < finest < |levels|
    {
    }
  }

  /** The data are those of a hierarchy in the course of the history, and fit to the levels. */
  ghost predicate Follows(h: History, run: seq<Conservation.Hierarchy>, data: Conservation.Hierarchy,
                          levels: seq<LevelData>) {
    && |levels| > 0 && Conservation.IsRun(h, run) && run[|h|] == data
    && |run[0]| > 0 && Conservation.SoundFrom(run[0], 0) && Conservation.WholeDomain(run[0][0])
    && Conservation.AllOk(data) && Matches(data, levels)
  }

  /** The same levels have NEW data, and the flux sums are those of the data. */
  predicate Matches(ds: Conservation.Hierarchy, levels: seq<LevelData>) {
    |ds| == |levels| && forall k | 0 <= k < |ds| :: LevelMatches(ds[k], levels[k], k == 0)
  }

  predicate LevelMatches(d: Conservation.CellData, l: LevelData, coarsest: bool) {
    && (d.next.Some? <==> l.next.Some?)
    && (l.fluxSum.Some? ==> !coarsest && l.fluxSum.value == d.sums)
  }

  lemma FollowsShape(h: History, run: seq<Conservation.Hierarchy>, data: Conservation.Hierarchy,
                     levels: seq<LevelData>)
    requires Follows(h, run, data, levels)
    ensures |data| == |levels| && |run| == |h| + 1
  {
  }

  lemma StepFollows(h: History, run: seq<Conservation.Hierarchy>, data: Conservation.Hierarchy, levels: seq<LevelData>,
                    e: Event, levels': seq<LevelData>)
    requires Follows(h, run, data, levels) && e.Step? && e.level < |levels| == |levels'|
    requires e == StepEvent(levels, e.level, e.from, e.to, e.first, e.flux, e.dtNext)
    requires |e.flux| == |data[e.level].current| + 1
    requires forall k | 0 <= k < |levels| && k != e.level :: levels'[k] == levels[k]
    requires levels'[e.level].next.Some?
    requires if e.level == 0 then levels'[0].fluxSum == levels[0].fluxSum
             else if e.first then levels'[e.level].fluxSum == Some(Plus([], e.flux))
             else levels[e.level].fluxSum.Some? &&
                  levels'[e.level].fluxSum == Some(Plus(levels[e.level].fluxSum.value, e.flux))
    ensures var data' := Conservation.AfterStep(data, e.level, e.first, e.flux);
            Follows(h + [e], run + [data'], data', levels')
  {
    hide Conservation.Next, Conservation.AllOk, Conservation.SoundFrom, Conservation.WholeDomain;
    var data' := Conservation.AfterStep(data, e.level, e.first, e.flux);
    assert LevelMatches(data[e.level], levels[e.level], e.level == 0);
    Conservation.StepFlags(data, e);
    Conservation.RunGoesOn(h, run, e, data');
    assert Plus([], e.flux) == e.flux;
    forall k | 0 <= k < |data'|
      ensures LevelMatches(data'[k], levels'[k], k == 0)
    {
      assert LevelMatches(data[k], levels[k], k == 0);
    }
  }

  lemma SyncFollows(h: History, run: seq<Conservation.Hierarchy>, data: Conservation.Hierarchy, levels: seq<LevelData>,
                    c: nat, f: nat, t: real, levels': seq<LevelData>)
    requires Follows(h, run, data, levels) && c < f < |levels| == |levels'|
    requires forall k | c <= k <= f :: levels[k].next.Some?
    requires forall k | 0 <= k < |levels| :: levels'[k].next == levels[k].next
    requires forall k | 0 <= k < |levels| :: levels'[k].fluxSum == None || levels'[k].fluxSum == levels[k].fluxSum
    ensures var data' := Conservation.AfterSync(data, c, f);
            Follows(h + [SyncEvent(levels, c, f, t)], run + [data'], data', levels')
  {
    hide Conservation.AllOk, Conservation.SoundFrom, Conservation.WholeDomain, Conservation.AfterSync, LevelMatches;
    var data', e := Conservation.AfterSync(data, c, f), SyncEvent(levels, c, f, t);
    Conservation.SyncFlags(data, c, f);
    forall k | 0 <= k < |data'|
      ensures LevelMatches(data'[k], levels'[k], k == 0)
      ensures data[k].next.Some? <==> levels[k].next.Some?
      ensures levels[k].fluxSum.Some? ==> levels[k].fluxSum.value == data[k].sums
    {
      StillMatches(data[k], levels[k], k == 0, data'[k], levels'[k]);
    }
    Conservation.RunGoesOn(h, run, e, data');
  }

  lemma StillMatches(d: Conservation.CellData, l: LevelData, coarsest: bool, d': Conservation.CellData, l': LevelData)
    requires LevelMatches(d, l, coarsest) && d'.sums == d.sums
    requires (d.next.Some? ==> d'.next.Some?) && (d'.next.Some? ==> d.next.Some? || l.next.Some?) && l'.next == l.next
    requires l'.fluxSum == None || l'.fluxSum == l.fluxSum
    ensures LevelMatches(d', l', coarsest)
    ensures d.next.Some? <==> l.next.Some?
    ensures l.fluxSum.Some? ==> l.fluxSum.value == d.sums
  {
  }

  lemma ResetFollows(h: History, run: seq<Conservation.Hierarchy>, data: Conservation.Hierarchy,
                     levels: seq<LevelData>, l: nat, t: real)
    requires Follows(h, run, data, levels) && l < |levels| && levels[l].next.Some?
    ensures var data' := Conservation.AfterReset(data, l);
            Follows(h + [Reset(l, t, levels[l].next)], run + [data'], data',
                    levels[l := levels[l].(current := t, next := None)])
  {
    assert LevelMatches(data[l], levels[l], l == 0);
    Conservation.RunGoesOn(h, run, Reset(l, t, levels[l].next), Conservation.AfterReset(data, l));
  }

  lemma RegridFollows(h: History, run: seq<Conservation.Hierarchy>, data: Conservation.Hierarchy,
                      levels: seq<LevelData>, l: nat, t: real, count: nat, data': Conservation.Hierarchy)
    requires Follows(h, run, data, levels) && l < |levels| == |data|
    requires Conservation.LevelOk(data[l]) ==> Conservation.IsRegrid(data, l, count, data')
    ensures Follows(h + [Regrid(l, t, |levels| - 1, l + count)], run + [data'], data',
                    levels[..l + 1] + seq(count, _ => Fresh(t)))
  {
    assert Conservation.LevelOk(data[l]);
    assert forall k | 0 <= k <= l :: data'[k] == data'[..l + 1][k] == data[..l + 1][k] == data[k];
    Conservation.RunGoesOn(h, run, Regrid(l, t, |levels| - 1, l + count), data');
  }

  ghost function StepEvent(levels: seq<LevelData>, l: nat, from: real, to: real, first: bool, flux: seq<real>,
                           dtNext: real): Event
    requires l < |levels|
  {
    Step(l, from, to, first, l + 1 < |levels|, flux, levels[l].current,
         levels[l].next.Some?, levels[l].flux, levels[l].fluxSum.Some?, dtNext)
  }

  ghost function SyncEvent(levels: seq<LevelData>, coarsest: nat, finest: nat, time: real): Event
    requires coarsest < finest < |levels|
  {
    Sync(coarsest, finest, time,
         seq(finest - coarsest + 1, i requires 0 <= i <= finest - coarsest => levels[coarsest + i].next),
         seq(finest - coarsest, i requires 0 <= i < finest - coarsest => levels[coarsest + 1 + i].fluxSum))
  }
}
