/** The flux data and cell data of a level as the level integrator keeps them, in arrays, and its operations on them:
    advancing a level, synchronizing it with the next coarser one, and resetting it.  They refine the events in module
    Conservation. */
module Refluxing {
  import opened Wrappers
  import opened Schedule
  import opened Conservation
  import opened FluxCorrection

  /** The contents of cells of width `h` with the given values. */
  function Contents(u: seq<real>, h: real): (c: seq<real>)
    ensures |c| == |u| && forall k | 0 <= k < |u| :: c[k] == u[k] * h
  {
    seq(|u|, k requires 0 <= k < |u| => u[k] * h)
  }

  lemma ContentChanges(u: real, d: real, h: real)
    requires h > 0.0
    ensures (u - d / h) * h == u * h - d
  {
    assert d / h * h == d;
  }

  /** What the new value of a cell is. */
  function NewValue(u: seq<real>, flux: seq<real>, h: real, k: nat): (v: real)
    requires h > 0.0 && |flux| == |u| + 1 && k < |u|
    ensures v * h == u[k] * h - (flux[k + 1] - flux[k])
  {
    ContentChanges(u[k], flux[k + 1] - flux[k], h);
    u[k] - (flux[k + 1] - flux[k]) / h
  }

  lemma CellOfDifference(ratio: nat, boxes: seq<Box>, u: seq<real>, flux: seq<real>, h: real, u': seq<real>, k: nat)
    requires h > 0.0 && |u'| == |u| && |flux| == |u| + 1 && k < |u|
    requires u'[k] == if InRegion(ratio, boxes, k) then NewValue(u, flux, h, k) else u[k]
    ensures Contents(u', h)[k] == Difference(ratio, boxes, Contents(u, h), flux)[k]
  {
  }

  /** A conservative difference of values, on cells of width `h`, is one of contents. */
  lemma DifferenceOfContents(ratio: nat, boxes: seq<Box>, u: seq<real>, flux: seq<real>, h: real, u': seq<real>)
    requires h > 0.0 && |u'| == |u| && |flux| == |u| + 1
    requires forall k | 0 <= k < |u| :: u'[k] == if InRegion(ratio, boxes, k) then NewValue(u, flux, h, k) else u[k]
    ensures Contents(u', h) == Difference(ratio, boxes, Contents(u, h), flux)
  {
    forall k | 0 <= k < |u|
      ensures Contents(u', h)[k] == Difference(ratio, boxes, Contents(u, h), flux)[k]
    {
      CellOfDifference(ratio, boxes, u, flux, h, u', k);
    }
  }

  class Level {
    const ratio: nat
    const boxes: seq<Box>
    const current: array<real>
    const next: array<real>
    const flux: array<real>
    const lowerSum: array<real>
    const upperSum: array<real>

    ghost function Arrays(): set<object> {
      {current, next, flux, lowerSum, upperSum}
    }

    ghost function SyncArrays(): set<object> {
      {next, flux}
    }

    ghost predicate Valid() {
      && ratio > 0
      && (forall p | 0 <= p < |boxes| :: boxes[p].lo < boxes[p].hi && Refine(ratio, boxes[p].hi) <= current.Length)
      && current.Length == next.Length && flux.Length == current.Length + 1
      && lowerSum.Length == upperSum.Length == |boxes|
      && current !in {next, flux, lowerSum, upperSum} && next !in {flux, lowerSum, upperSum}
      && flux !in {lowerSum, upperSum} && lowerSum != upperSum
    }

    constructor (ratio: nat, boxes: seq<Box>, u: seq<real>)
      requires ratio > 0
      requires forall p | 0 <= p < |boxes| :: boxes[p].lo < boxes[p].hi && Refine(ratio, boxes[p].hi) <= |u|
      ensures Valid() && fresh(Arrays()) && this.ratio == ratio && this.boxes == boxes && current[..] == u
    {
      this.ratio, this.boxes := ratio, boxes;
      current := new real[|u|](k requires 0 <= k < |u| => u[k]);
      next := new real[|u|];
      flux := new real[|u| + 1];
      lowerSum := new real[|boxes|];
      upperSum := new real[|boxes|];
    }

    /** The ends of the boxes are faces of the domain. */
    lemma EndsAreFaces()
      requires Valid()
      ensures forall p | 0 <= p < |boxes| :: Refine(ratio, boxes[p].lo) <= Refine(ratio, boxes[p].hi) < flux.Length
    {
      forall p | 0 <= p < |boxes|
        ensures Refine(ratio, boxes[p].lo) <= Refine(ratio, boxes[p].hi)
      {
        RefineMonotone(ratio, boxes[p].lo, boxes[p].hi);
      }
    }

    /** The conservative difference on the cells of one box. */
    method DifferenceOnPatch(b: Box, h: real)
      requires Valid() && h > 0.0 && b.lo < b.hi && Refine(ratio, b.hi) <= current.Length
      modifies next
      ensures forall k | 0 <= k < next.Length ::
                next[k] == if Refine(ratio, b.lo) <= k < Refine(ratio, b.hi)
                  then NewValue(current[..], flux[..], h, k) else old(next[k])
    {
      RefineMonotone(ratio, b.lo, b.hi);
      var k := Refine(ratio, b.lo);
      while k < Refine(ratio, b.hi)
        invariant Refine(ratio, b.lo) <= k <= Refine(ratio, b.hi)
        invariant forall i | 0 <= i < next.Length ::
                    next[i] == if Refine(ratio, b.lo) <= i < k then NewValue(current[..], flux[..], h, i)
                      else old(next[i])
      {
        next[k] := current[k] - (flux[k + 1] - flux[k]) / h;
        k := k + 1;
      }
    }

    /** The conservative difference on all boxes, from the current data. */
    method DifferenceOnPatches(h: real)
      requires Valid() && h > 0.0
      modifies next
      ensures forall k | 0 <= k < next.Length ::
                next[k] == if InRegion(ratio, boxes, k) then NewValue(current[..], flux[..], h, k) else current[k]
    {
      CopyArray(current, next);
      var p := 0;
      while p < |boxes|
        invariant 0 <= p <= |boxes|
        invariant forall k | 0 <= k < next.Length ::
                    next[k] == if InRegion(ratio, boxes[..p], k) then NewValue(current[..], flux[..], h, k)
                      else current[k]
      {
        DifferenceOnPatch(boxes[p], h);
        RegionGrows(ratio, boxes, p);
        p := p + 1;
      }
      assert boxes[..|boxes|] == boxes;
    }

    method ConservativeDifference(h: real)
      requires Valid() && h > 0.0
      modifies next
      ensures Contents(next[..], h) == Difference(ratio, boxes, Contents(current[..], h), flux[..])
    {
      DifferenceOnPatches(h);
      DifferenceOfContents(ratio, boxes, current[..], flux[..], h, next[..]);
    }

    /** The flux sums are the given ones at the ends of the boxes; elsewhere none are kept. */
    ghost predicate Sums(sums: seq<real>)
      requires Valid()
      reads lowerSum, upperSum
    {
      forall p | 0 <= p < |boxes| ::
        && lowerSum[p] == At(sums, Refine(ratio, boxes[p].lo))
        && upperSum[p] == At(sums, Refine(ratio, boxes[p].hi))
    }

    /** The arrays hold the given data of a level with cells of width `h`.  The coarsest level keeps no flux sums. */
    ghost predicate Holds(d: CellData, h: real, coarsest: bool)
      requires Valid()
      reads current, next, flux, lowerSum, upperSum
    {
      && d.ratio == ratio && d.boxes == boxes
      && d.current == Contents(current[..], h) && (d.next.Some? ==> d.next.value == Contents(next[..], h))
      && d.flux == flux[..] && (!coarsest ==> Sums(d.sums))
    }

    /** Zeroes the flux sums on the first step of a level that is not the coarsest. */
    method PreprocessFluxData(coarsest: bool, firstStep: bool)
      requires Valid()
      modifies lowerSum, upperSum
      ensures !coarsest && firstStep ==> Sums([])
      ensures coarsest || !firstStep ==> lowerSum[..] == old(lowerSum[..]) && upperSum[..] == old(upperSum[..])
    {
      if !coarsest && firstStep {
        var p := 0;
        while p < |boxes|
          invariant 0 <= p <= |boxes|
          invariant forall q | 0 <= q < p :: lowerSum[q] == 0.0 && upperSum[q] == 0.0
        {
          lowerSum[p] := 0.0;
          upperSum[p] := 0.0;
          p := p + 1;
        }
      }
    }

    /** Adds the fluxes at the ends of the boxes to the flux sums. */
    method PostprocessFluxData(coarsest: bool, ghost sums: seq<real>)
      requires Valid() && (!coarsest ==> Sums(sums))
      modifies lowerSum, upperSum
      ensures !coarsest ==> Sums(Plus(sums, flux[..]))
    {
      EndsAreFaces();
      if !coarsest {
        var p := 0;
        while p < |boxes|
          invariant 0 <= p <= |boxes|
          invariant forall q | 0 <= q < |boxes| ::
                      && lowerSum[q] == old(lowerSum[q]) + (if q < p then flux[Refine(ratio, boxes[q].lo)] else 0.0)
                      && upperSum[q] == old(upperSum[q]) + (if q < p then flux[Refine(ratio, boxes[q].hi)] else 0.0)
        {
          lowerSum[p] := lowerSum[p] + flux[Refine(ratio, boxes[p].lo)];
          upperSum[p] := upperSum[p] + flux[Refine(ratio, boxes[p].hi)];
          p := p + 1;
        }
      }
    }

    /** The flux integrals of a step, which the user computes. */
    method SetFluxes(fluxes: seq<real>)
      requires Valid() && |fluxes| == flux.Length
      modifies flux
      ensures flux[..] == fluxes
    {
      var j := 0;
      while j < flux.Length
        invariant 0 <= j <= flux.Length && flux[..j] == fluxes[..j]
      {
        flux[j] := fluxes[j];
        j := j + 1;
      }
    }

    /** Advances the level by one step with the given flux integrals. */
    method AdvanceLevel(fluxes: seq<real>, h: real, coarsest: bool, firstStep: bool, ghost d: CellData,
                        ghost finest: bool)
      requires Valid() && h > 0.0 && |fluxes| == flux.Length && Holds(d, h, coarsest)
      modifies next, flux, lowerSum, upperSum
      ensures Holds(Stepped(d, firstStep, finest, fluxes), h, coarsest)
    {
      PreprocessFluxData(coarsest, firstStep);
      SetFluxes(fluxes);
      ConservativeDifference(h);
      PostprocessFluxData(coarsest, if firstStep then [] else d.sums);
      assert firstStep ==> Plus([], fluxes) == fluxes;
    }

    /** The new data become the current ones. */
    method ResetTimeDependentData(ghost d: CellData, ghost h: real, ghost coarsest: bool)
      requires Valid() && Holds(d, h, coarsest) && d.next.Some?
      modifies current
      ensures Holds(d.(current := Latest(d), next := None), h, coarsest)
    {
      CopyArray(next, current);
    }
  }

  method CopyArray(from: array<real>, to: array<real>)
    requires from.Length == to.Length && from != to
    modifies to
    ensures to[..] == from[..]
  {
    var k := 0;
    while k < to.Length
      invariant 0 <= k <= to.Length && to[..k] == from[..k]
    {
      to[k] := from[k];
      k := k + 1;
    }
  }

  /** One box more. */
  lemma RegionGrows(ratio: nat, boxes: seq<Box>, p: nat)
    requires p < |boxes|
    ensures forall k :: InRegion(ratio, boxes[..p + 1], k) <==>
              InRegion(ratio, boxes[..p], k) || Refine(ratio, boxes[p].lo) <= k < Refine(ratio, boxes[p].hi)
  {
    var less, more := boxes[..p], boxes[..p + 1];
    forall k
      ensures InRegion(ratio, more, k) <==>
                InRegion(ratio, less, k) || Refine(ratio, boxes[p].lo) <= k < Refine(ratio, boxes[p].hi)
    {
      if InRegion(ratio, less, k) {
        var q :| 0 <= q < |less| && Refine(ratio, less[q].lo) <= k < Refine(ratio, less[q].hi);
        assert more[q] == less[q];
      }
      if InRegion(ratio, more, k) {
        var q :| 0 <= q < |more| && Refine(ratio, more[q].lo) <= k < Refine(ratio, more[q].hi);
        assert q < p ==> less[q] == more[q];
      }
      assert more[p] == boxes[p];
    }
  }

  lemma EndsGrow(boxes: seq<Box>, p: nat)
    requires p < |boxes|
    ensures forall j :: Ends(boxes[..p + 1], j) <==> Ends(boxes[..p], j) || boxes[p].lo == j || boxes[p].hi == j
  {
    var less, more := boxes[..p], boxes[..p + 1];
    forall j
      ensures Ends(more, j) <==> Ends(less, j) || boxes[p].lo == j || boxes[p].hi == j
    {
      if Ends(less, j) {
        var q :| 0 <= q < |less| && (less[q].lo == j || less[q].hi == j);
        assert more[q] == less[q];
      }
      if Ends(more, j) {
        var q :| 0 <= q < |more| && (more[q].lo == j || more[q].hi == j);
        assert q < p ==> less[q] == more[q];
      }
      assert more[p] == boxes[p];
    }
  }

  lemma CoversGrow(boxes: seq<Box>, p: nat)
    requires p < |boxes|
    ensures forall i :: Covered(boxes[..p + 1], i) <==> Covered(boxes[..p], i) || boxes[p].lo <= i < boxes[p].hi
  {
    var less, more := boxes[..p], boxes[..p + 1];
    forall i
      ensures Covered(more, i) <==> Covered(less, i) || boxes[p].lo <= i < boxes[p].hi
    {
      if Covered(less, i) {
        var q :| 0 <= q < |less| && less[q].lo <= i < less[q].hi;
        assert more[q] == less[q];
      }
      if Covered(more, i) {
        var q :| 0 <= q < |more| && more[q].lo <= i < more[q].hi;
        assert q < p ==> less[q] == more[q];
      }
      assert more[p] == boxes[p];
    }
  }

  /** Two successive levels, on which synchronization works. */
  ghost predicate Pair(coarse: Level, fine: Level) {
    && coarse.Valid() && fine.Valid() && coarse.Arrays() !! fine.Arrays()
    && fine.current.Length == Refine(fine.ratio, coarse.current.Length)
    && forall p | 0 <= p < |fine.boxes| :: fine.boxes[p].hi <= coarse.current.Length
  }

  /** Replaces the coarse fluxes at the ends of the fine boxes by the fine flux sums. */
  method CoarsenFluxSums(fine: Level, coarse: Level, ghost finer: CellData)
    requires Pair(coarse, fine) && finer.ratio == fine.ratio && finer.boxes == fine.boxes && fine.Sums(finer.sums)
    modifies coarse.flux
    ensures coarse.flux[..] == Corrected(old(coarse.flux[..]), finer)
  {
    var p := 0;
    while p < |fine.boxes|
      invariant 0 <= p <= |fine.boxes| && fine.Sums(finer.sums)
      invariant forall j | 0 <= j < coarse.flux.Length ::
                  coarse.flux[j] ==
                  if Ends(fine.boxes[..p], j) then At(finer.sums, Refine(fine.ratio, j)) else old(coarse.flux[j])
    {
      coarse.flux[fine.boxes[p].lo] := fine.lowerSum[p];
      coarse.flux[fine.boxes[p].hi] := fine.upperSum[p];
      EndsGrow(fine.boxes, p);
      p := p + 1;
    }
    assert fine.boxes[..|fine.boxes|] == fine.boxes;
  }

  /** The new value of a coarse cell, weighted by the widths of fine and coarse cells. */
  method WeightedAverage(fine: Level, i: nat, hf: real, h: real) returns (v: real)
    requires fine.Valid() && hf > 0.0 && h > 0.0 && Refine(fine.ratio, i + 1) <= fine.current.Length
    ensures v * h == FromFiner(Contents(fine.next[..], hf), fine.ratio, i)
  {
    ghost var c := Contents(fine.next[..], hf);
    var k := Refine(fine.ratio, i);
    var sum := 0.0;
    while k < Refine(fine.ratio, i + 1)
      invariant Refine(fine.ratio, i) <= k <= Refine(fine.ratio, i + 1)
      invariant sum == Sum(c, Refine(fine.ratio, i), k)
    {
      assert c[k] == fine.next[k] * hf;
      sum := sum + fine.next[k] * hf;
      k := k + 1;
    }
    v := sum / h;
    assert v * h == sum;
  }

  /** Coarsens the new fine data to the new coarse data. */
  method CoarsenData(fine: Level, coarse: Level, hf: real, h: real)
    requires Pair(coarse, fine) && hf > 0.0 && h > 0.0
    modifies coarse.next
    ensures Contents(coarse.next[..], h) ==
            Coarsened(Contents(old(coarse.next[..]), h), fine.boxes, fine.ratio, Contents(fine.next[..], hf))
  {
    ghost var was, c := Contents(coarse.next[..], h), Contents(fine.next[..], hf);
    var p := 0;
    while p < |fine.boxes|
      invariant 0 <= p <= |fine.boxes|
      invariant Contents(coarse.next[..], h) == Coarsened(was, fine.boxes[..p], fine.ratio, c)
    {
      CoarsenPatch(fine, coarse, fine.boxes[p], hf, h, fine.boxes[..p], was);
      CoversGrow(fine.boxes, p);
      assert Contents(coarse.next[..], h) == Coarsened(was, fine.boxes[..p + 1], fine.ratio, c);
      p := p + 1;
    }
    assert fine.boxes[..|fine.boxes|] == fine.boxes;
  }

  /** Coarsens the cells of one box; `done` are the boxes that have been coarsened before. */
  method CoarsenPatch(fine: Level, coarse: Level, b: Box, hf: real, h: real, ghost done: seq<Box>, ghost was: seq<real>)
    requires Pair(coarse, fine) && hf > 0.0 && h > 0.0 && b.lo < b.hi <= coarse.current.Length
    requires Contents(coarse.next[..], h) == Coarsened(was, done, fine.ratio, Contents(fine.next[..], hf))
    modifies coarse.next
    ensures |was| == coarse.next.Length
    ensures forall i | 0 <= i < |was| ::
              Contents(coarse.next[..], h)[i] ==
              if b.lo <= i < b.hi || Covered(done, i) then FromFiner(Contents(fine.next[..], hf), fine.ratio, i)
                else was[i]
  {
    ghost var c, d := Contents(fine.next[..], hf), Contents(coarse.next[..], h);
    var i := b.lo;
    while i < b.hi
      invariant b.lo <= i <= b.hi
      invariant Contents(coarse.next[..], h) == d && |d| == |was|
      invariant forall j | 0 <= j < |was| ::
                  d[j] == if b.lo <= j < i || Covered(done, j) then FromFiner(c, fine.ratio, j) else was[j]
    {
      CoarsenCell(fine, coarse, i, hf, h);
      d := d[i := FromFiner(c, fine.ratio, i)];
      i := i + 1;
    }
  }

  method CoarsenCell(fine: Level, coarse: Level, i: nat, hf: real, h: real)
    requires Pair(coarse, fine) && hf > 0.0 && h > 0.0 && i < coarse.current.Length
    modifies coarse.next
    ensures Contents(coarse.next[..], h) ==
            Contents(old(coarse.next[..]), h)[i := FromFiner(Contents(fine.next[..], hf), fine.ratio, i)]
  {
    RefineMonotone(fine.ratio, i + 1, coarse.current.Length);
    var v := WeightedAverage(fine, i, hf, h);
    coarse.next[i] := v;
    assert coarse.next[..] == old(coarse.next[..])[i := v];
    ContentsUpdate(old(coarse.next[..]), h, i, v);
  }

  lemma ContentsUpdate(u: seq<real>, h: real, i: nat, v: real)
    requires i < |u|
    ensures Contents(u[i := v], h) == Contents(u, h)[i := v * h]
  {
    var c, d := Contents(u[i := v], h), Contents(u, h)[i := v * h];
    assert forall k | 0 <= k < |u| :: c[k] == d[k];
  }

  /** Synchronizes the new data of a level with those of the next finer one. */
  method SynchronizeLevelWithCoarser(fine: Level, coarse: Level, hf: real, h: real, useFluxCorrection: bool,
                                     ghost finer: CellData, ghost d: CellData, ghost coarsest: bool)
    requires Pair(coarse, fine) && hf > 0.0 && h > 0.0
    requires fine.Holds(finer, hf, false) && finer.next.Some? && coarse.Holds(d, h, coarsest)
    modifies coarse.flux, coarse.next
    ensures useFluxCorrection ==> coarse.Holds(SyncedWith(d, finer), h, coarsest)
    ensures !useFluxCorrection && d.next == Some(Difference(d.ratio, d.boxes, d.current, d.flux)) ==>
              coarse.Holds(d.(next := Some(Uncorrected(d, finer))), h, coarsest)
  {
    if useFluxCorrection {
      CoarsenFluxSums(fine, coarse, finer);
      coarse.ConservativeDifference(h);
    }
    CoarsenData(fine, coarse, hf, h);
  }

  ghost function ArraysOf(levels: seq<Level>): (r: set<object>)
    ensures forall k | 0 <= k < |levels| :: levels[k].Arrays() <= r
  {
    set k, o | 0 <= k < |levels| && o in levels[k].Arrays() :: o
  }

  /** The arrays that a synchronization of these levels changes. */
  ghost function SyncArraysOf(levels: seq<Level>): (r: set<object>)
    ensures forall k | 0 <= k < |levels| :: levels[k].SyncArrays() <= r
  {
    set k, o | 0 <= k < |levels| && o in levels[k].SyncArrays() :: o
  }

  /** Successive levels fit together, and the arrays of all levels are different. */
  ghost predicate Apart(levels: seq<Level>) {
    && (forall k | 0 <= k && k + 1 < |levels| :: Pair(levels[k], levels[k + 1]))
    && (forall i, k | 0 <= i < k < |levels| :: levels[i].Arrays() !! levels[k].Arrays())
  }

  ghost predicate LevelHolds(l: Level, h: real, d: CellData, coarsest: bool)
    reads l.Arrays()
  {
    l.Valid() && h > 0.0 && l.Holds(d, h, coarsest)
  }

  /** The levels of a hierarchy hold the given data. */
  ghost predicate AllHold(levels: seq<Level>, widths: seq<real>, ds: Hierarchy)
    reads ArraysOf(levels)
  {
    && |levels| == |widths| == |ds| && Apart(levels)
    && forall k | 0 <= k < |levels| :: LevelHolds(levels[k], widths[k], ds[k], k == 0)
  }

  /** Level `l` takes a step. */
  method AdvanceLevel(levels: seq<Level>, widths: seq<real>, l: nat, fluxes: seq<real>, firstStep: bool,
                      ghost ds: Hierarchy)
    requires AllHold(levels, widths, ds) && l < |levels| && |fluxes| == |ds[l].current| + 1
    modifies levels[l].Arrays()
    ensures AllHold(levels, widths, AfterStep(ds, l, firstStep, fluxes))
  {
    assert LevelHolds(levels[l], widths[l], ds[l], l == 0);
    assert forall k | 0 <= k < |levels| && k != l :: levels[k].Arrays() !! levels[l].Arrays();
    levels[l].AdvanceLevel(fluxes, widths[l], l == 0, firstStep, ds[l], l + 1 == |ds|);
    forall k | 0 <= k < |levels|
      ensures LevelHolds(levels[k], widths[k], AfterStep(ds, l, firstStep, fluxes)[k], k == 0)
    {
      assert k != l ==> old(LevelHolds(levels[k], widths[k], ds[k], k == 0));
    }
  }

  /** The new data of level `l` become the current ones. */
  method ResetTimeDependentData(levels: seq<Level>, widths: seq<real>, l: nat, ghost ds: Hierarchy)
    requires AllHold(levels, widths, ds) && l < |levels| && ds[l].next.Some?
    modifies levels[l].current
    ensures AllHold(levels, widths, AfterReset(ds, l))
  {
    assert LevelHolds(levels[l], widths[l], ds[l], l == 0);
    assert forall k | 0 <= k < |levels| && k != l :: levels[k].Arrays() !! levels[l].Arrays();
    levels[l].ResetTimeDependentData(ds[l], widths[l], l == 0);
    forall k | 0 <= k < |levels|
      ensures LevelHolds(levels[k], widths[k], AfterReset(ds, l)[k], k == 0)
    {
      assert k != l ==> old(LevelHolds(levels[k], widths[k], ds[k], k == 0));
    }
  }

  /** A level that has stepped and has not been synchronized. */
  predicate JustStepped(d: CellData) {
    d.next == Some(Difference(d.ratio, d.boxes, d.current, d.flux))
  }

  /** The level after synchronization with the next finer one, with or without flux correction. */
  function SyncedBy(d: CellData, finer: CellData, useFluxCorrection: bool): CellData {
    if useFluxCorrection then SyncedWith(d, finer) else d.(next := Some(Uncorrected(d, finer)))
  }

  /** The levels after synchronization from `finest` down to `coarsest`. */
  function AfterSyncBy(ds: Hierarchy, coarsest: nat, finest: nat, useFluxCorrection: bool): (r: Hierarchy)
    requires coarsest <= finest < |ds|
    ensures |r| == |ds|
    decreases finest
  {
    if coarsest == finest then ds
    else AfterSyncBy(SyncedOne(ds, finest, useFluxCorrection), coarsest, finest - 1, useFluxCorrection)
  }

  function SyncedOne(ds: Hierarchy, fine: nat, useFluxCorrection: bool): (r: Hierarchy)
    requires 0 < fine < |ds|
    ensures |r| == |ds| && forall k | 0 <= k < |ds| && k != fine - 1 :: r[k] == ds[k]
    ensures r[fine - 1].next.Some?
  {
    ds[fine - 1 := SyncedBy(ds[fine - 1], ds[fine], useFluxCorrection)]
  }

  /** With flux correction it is the synchronization event. */
  lemma {:induction false} CorrectedSyncIsEvent(ds: Hierarchy, coarsest: nat, finest: nat)
    requires coarsest <= finest < |ds|
    ensures AfterSyncBy(ds, coarsest, finest, true) == AfterSync(ds, coarsest, finest)
    decreases finest
  {
    hide SyncedWith, Uncorrected;
    if coarsest < finest {
      CorrectedSyncIsEvent(SyncedOne(ds, finest, true), coarsest, finest - 1);
    }
  }

  /** Synchronizes level `fine` with the next coarser one. */
  method SynchronizeLevels(levels: seq<Level>, widths: seq<real>, fine: nat, useFluxCorrection: bool,
                           ghost ds: Hierarchy)
    requires AllHold(levels, widths, ds) && 0 < fine < |levels| && ds[fine].next.Some?
    requires useFluxCorrection || JustStepped(ds[fine - 1])
    modifies levels[fine - 1].SyncArrays()
    ensures AllHold(levels, widths, SyncedOne(ds, fine, useFluxCorrection))
  {
    hide SyncedWith, Uncorrected;
    var coarse := fine - 1;
    assert Pair(levels[coarse], levels[coarse + 1]);
    assert LevelHolds(levels[coarse], widths[coarse], ds[coarse], coarse == 0);
    assert LevelHolds(levels[fine], widths[fine], ds[fine], fine == 0);
    assert forall k | 0 <= k < |levels| && k != coarse :: levels[k].Arrays() !! levels[coarse].SyncArrays();
    SynchronizeLevelWithCoarser(levels[fine], levels[coarse], widths[fine], widths[coarse], useFluxCorrection,
                                ds[fine], ds[coarse], coarse == 0);
  }

  lemma AfterSyncNext(ds: Hierarchy, coarsest: nat, finest: nat, useFluxCorrection: bool)
    requires coarsest < finest < |ds|
    ensures AfterSyncBy(ds, coarsest, finest, useFluxCorrection) ==
            AfterSyncBy(SyncedOne(ds, finest, useFluxCorrection), coarsest, finest - 1, useFluxCorrection)
  {
  }

  lemma AfterSyncEnds(ds: Hierarchy, coarsest: nat, useFluxCorrection: bool)
    requires coarsest < |ds|
    ensures AfterSyncBy(ds, coarsest, coarsest, useFluxCorrection) == ds
  {
  }

  lemma InRange(levels: seq<Level>, coarsest: nat, finest: nat, k: nat)
    requires coarsest <= k < finest <= |levels|
    ensures levels[k].SyncArrays() <= SyncArraysOf(levels[coarsest..finest])
  {
    assert levels[coarsest..finest][k - coarsest] == levels[k];
  }

  /** Synchronizes levels `finest` down to `coarsest`. */
  method StandardLevelSynchronization(levels: seq<Level>, widths: seq<real>, coarsest: nat, finest: nat,
                                      useFluxCorrection: bool, ghost ds: Hierarchy)
    requires AllHold(levels, widths, ds) && coarsest <= finest < |levels| && ds[finest].next.Some?
    requires useFluxCorrection || forall k | coarsest <= k < finest :: JustStepped(ds[k])
    modifies SyncArraysOf(levels[coarsest..finest])
    ensures AllHold(levels, widths, AfterSyncBy(ds, coarsest, finest, useFluxCorrection))
    ensures useFluxCorrection ==> AllHold(levels, widths, AfterSync(ds, coarsest, finest))
  {
    hide Apart, LevelHolds, SyncedOne, AfterSyncBy, AfterSync, SyncArraysOf, JustStepped;
    var fine := finest;
    ghost var now := ds;
    while fine > coarsest
      invariant coarsest <= fine <= finest && AllHold(levels, widths, now) && |now| == |ds| && now[fine].next.Some?
      invariant forall k | coarsest <= k < fine :: now[k] == ds[k]
      invariant AfterSyncBy(now, coarsest, fine, useFluxCorrection) ==
                AfterSyncBy(ds, coarsest, finest, useFluxCorrection)
    {
      InRange(levels, coarsest, finest, fine - 1);
      AfterSyncNext(now, coarsest, fine, useFluxCorrection);
      SynchronizeLevels(levels, widths, fine, useFluxCorrection, now);
      now := SyncedOne(now, fine, useFluxCorrection);
      fine := fine - 1;
    }
    AfterSyncEnds(now, coarsest, useFluxCorrection);
    if useFluxCorrection {
      CorrectedSyncIsEvent(ds, coarsest, finest);
    }
  }
}
