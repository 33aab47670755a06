/** The data of a hierarchy in one dimension, how the events of a history change them, and what every
    event keeps.

    The cells of all levels lie over the same domain; a level consists of boxes, given in the index space of
    the next coarser level.  A cell is represented by its content, that is, its value times its width, and a
    face by its flux integral over a step, so that a conservative difference subtracts fluxes from contents and
    averaging adds contents. */
module Conservation {
  import opened Wrappers
  import opened Schedule

  // ---------------------------------------------------------------- grids

  /** The cells from `lo` up to but not including `hi`. */
  datatype Box = Box(lo: nat, hi: nat)

  /** The data of a level: its ratio to the next coarser level, its boxes, the CURRENT and, if they exist, the NEW
      contents of the cells of the domain, which mean something in its boxes only, the flux integrals of its last
      step, and the flux sums.  The program does not store what has `passed` the faces, according to the finest
      level there, in those steps since the last step of the next coarser level that have been synchronized with all
      finer levels; on level zero, since the beginning. */
  datatype CellData = CellData(ratio: nat, boxes: seq<Box>, current: seq<real>, next: Option<seq<real>>,
                               flux: seq<real>, sums: seq<real>, passed: seq<real>)

  type Hierarchy = seq<CellData>

  /** The first fine cell in coarse cell `i`, and the fine face at coarse face `i`: `ratio` times `i`. */
  function Refine(ratio: nat, i: nat): nat {
    if i == 0 then 0 else Refine(ratio, i - 1) + ratio
  }

  lemma {:induction false} RefineIsProduct(ratio: nat, i: nat)
    ensures Refine(ratio, i) == ratio * i
  {
    if i > 0 {
      RefineIsProduct(ratio, i - 1);
    }
  }

  lemma {:induction false} RefineMonotone(ratio: nat, i: nat, j: nat)
    requires i <= j
    ensures Refine(ratio, i) <= Refine(ratio, j)
  {
    if i < j {
      RefineMonotone(ratio, i, j - 1);
    }
  }

  /** Cell `i`, in the index space of the boxes, is in a box. */
  predicate Covered(boxes: seq<Box>, i: int) {
    exists p | 0 <= p < |boxes| :: boxes[p].lo <= i < boxes[p].hi
  }

  /** Face `j` bounds a box. */
  predicate Ends(boxes: seq<Box>, j: int) {
    exists p | 0 <= p < |boxes| :: boxes[p].lo == j || boxes[p].hi == j
  }

  /** Face `j` bounds a cell that is in a box. */
  predicate AtCovered(boxes: seq<Box>, j: int) {
    Covered(boxes, j - 1) || Covered(boxes, j)
  }

  /** Cell `k` belongs to the level with the given boxes. */
  predicate InRegion(ratio: nat, boxes: seq<Box>, k: int) {
    exists p | 0 <= p < |boxes| :: Refine(ratio, boxes[p].lo) <= k < Refine(ratio, boxes[p].hi)
  }

  /** The sum of the contents of the cells from `a` up to `b`. */
  function Sum(u: seq<real>, a: nat, b: nat): real
    requires a <= b <= |u|
  {
    if a == b then 0.0 else Sum(u, a, b - 1) + u[b - 1]
  }

  /** What coarse cell `i` gets from the fine cells in it. */
  function FromFiner(fine: seq<real>, ratio: nat, i: nat): real {
    var a, b := Refine(ratio, i), Refine(ratio, i + 1);
    if b <= |fine| then Sum(fine, a, b) else 0.0
  }

  /** Shape of a level: its boxes lie in the domain. */
  predicate LevelOk(d: CellData) {
    && d.ratio > 0 && (d.next.Some? ==> |d.next.value| == |d.current|)
    && forall p | 0 <= p < |d.boxes| :: d.boxes[p].lo < d.boxes[p].hi && Refine(d.ratio, d.boxes[p].hi) <= |d.current|
  }

  /** The finer level is properly nested: the cells it covers, and their neighbours, belong to the level. */
  predicate Nested(d: CellData, finer: CellData) {
    forall i | 0 <= i < |d.current| && Covered(finer.boxes, i) ::
      && InRegion(d.ratio, d.boxes, i)
      && (i > 0 ==> InRegion(d.ratio, d.boxes, i - 1))
      && (i + 1 < |d.current| ==> InRegion(d.ratio, d.boxes, i + 1))
  }

  /** Two successive levels fit together. */
  predicate Fits(d: CellData, finer: CellData) {
    LevelOk(d) && LevelOk(finer) && |finer.current| == Refine(finer.ratio, |d.current|) && Nested(d, finer)
  }

  /** Where a level is covered by a finer one, it holds what the finer one holds. */
  predicate Averaged(u: seq<real>, boxes: seq<Box>, ratio: nat, fine: seq<real>) {
    forall i | 0 <= i < |u| && Covered(boxes, i) :: u[i] == FromFiner(fine, ratio, i)
  }

  /** The newest data of a level. */
  function Latest(d: CellData): seq<real> {
    if d.next.Some? then d.next.value else d.current
  }

  /** The levels from `l` on are properly nested, and synchronized. */
  predicate SoundFrom(ds: Hierarchy, l: nat) {
    && (forall k | l <= k < |ds| :: LevelOk(ds[k]))
    && (forall k | l <= k && k + 1 < |ds| ::
          Fits(ds[k], ds[k + 1]) && Averaged(Latest(ds[k]), ds[k + 1].boxes, ds[k + 1].ratio, Latest(ds[k + 1])))
  }

  /** All cells of the domain belong to the level, as for the coarsest one. */
  predicate WholeDomain(d: CellData) {
    forall k | 0 <= k < |d.current| :: InRegion(d.ratio, d.boxes, k)
  }

  // ---------------------------------------------------------------- events

  /** The conservative difference, on the cells of the level. */
  function Difference(ratio: nat, boxes: seq<Box>, u: seq<real>, flux: seq<real>): (r: seq<real>)
    ensures |r| == |u|
    ensures forall k | 0 <= k < |r| ::
              r[k] == if InRegion(ratio, boxes, k) then u[k] - (At(flux, k + 1) - At(flux, k)) else u[k]
  {
    seq(|u|, k requires 0 <= k < |u| =>
      if InRegion(ratio, boxes, k) then u[k] - (At(flux, k + 1) - At(flux, k)) else u[k])
  }

  /** The fluxes of a level, replaced at the ends of the finer boxes by the finer flux sums. */
  function Corrected(flux: seq<real>, finer: CellData): (r: seq<real>)
    ensures |r| == |flux|
    ensures forall j | 0 <= j < |r| ::
              r[j] == if Ends(finer.boxes, j) then At(finer.sums, Refine(finer.ratio, j)) else flux[j]
  {
    seq(|flux|, j requires 0 <= j < |flux| =>
      if Ends(finer.boxes, j) then At(finer.sums, Refine(finer.ratio, j)) else flux[j])
  }

  /** The contents of a level, replaced under the finer boxes by what the finer cells hold. */
  function Coarsened(u: seq<real>, boxes: seq<Box>, ratio: nat, fine: seq<real>): (r: seq<real>)
    ensures |r| == |u| && Averaged(r, boxes, ratio, fine)
    ensures forall i | 0 <= i < |r| && !Covered(boxes, i) :: r[i] == u[i]
  {
    seq(|u|, i requires 0 <= i < |u| => if Covered(boxes, i) then FromFiner(fine, ratio, i) else u[i])
  }

  /** What passes the faces of a level during a step with the given fluxes, according to the finest level there. */
  function Through(flux: seq<real>, finer: CellData): (r: seq<real>)
    ensures |r| == |flux|
    ensures forall j | 0 <= j < |r| ::
              r[j] == if AtCovered(finer.boxes, j) then At(finer.passed, Refine(finer.ratio, j)) else flux[j]
  {
    seq(|flux|, j requires 0 <= j < |flux| =>
      if AtCovered(finer.boxes, j) then At(finer.passed, Refine(finer.ratio, j)) else flux[j])
  }

  /** A level after a step with the given fluxes. */
  function Stepped(d: CellData, first: bool, finest: bool, flux: seq<real>): CellData {
    d.(next := Some(Difference(d.ratio, d.boxes, d.current, flux)), flux := flux,
       sums := if first then flux else Plus(d.sums, flux),
       passed := if finest then Plus(d.passed, flux) else d.passed)
  }

  /** Level `l` takes a step with the given fluxes. */
  function AfterStep(ds: Hierarchy, l: nat, first: bool, flux: seq<real>): (r: Hierarchy)
    requires l < |ds|
    ensures |r| == |ds|
  {
    var stepped := ds[l := Stepped(ds[l], first, l + 1 == |ds|, flux)];
    if l + 1 == |ds| then stepped else stepped[l + 1 := ds[l + 1].(passed := [])]
  }

  /** The new contents of a level after synchronization with the next finer one: the conservative difference is
      repeated, from the contents before the step, with corrected fluxes, and the finer contents are coarsened. */
  function SyncedContents(d: CellData, finer: CellData): (u: seq<real>)
    ensures |u| == |d.current|
  {
    Coarsened(Difference(d.ratio, d.boxes, d.current, Corrected(d.flux, finer)), finer.boxes, finer.ratio,
              Latest(finer))
  }

  function SyncedWith(d: CellData, finer: CellData): CellData {
    d.(next := Some(SyncedContents(d, finer)), flux := Corrected(d.flux, finer),
       passed := Plus(d.passed, Through(d.flux, finer)))
  }

  /** The levels from `finest` down to `coarsest` are synchronized, the finest ones first. */
  function AfterSync(ds: Hierarchy, coarsest: nat, finest: nat): (r: Hierarchy)
    requires coarsest <= finest < |ds|
    ensures |r| == |ds|
    decreases finest
  {
    if coarsest == finest then ds
    else AfterSync(ds[finest - 1 := SyncedWith(ds[finest - 1], ds[finest])], coarsest, finest - 1)
  }

  function AfterReset(ds: Hierarchy, l: nat): (r: Hierarchy)
    requires l < |ds|
    ensures |r| == |ds|
  {
    ds[l := ds[l].(current := Latest(ds[l]), next := None)]
  }

  /** A step in figures: every cell of the level loses the difference of the fluxes at its faces, which are added to
      the flux sums, or start them; on the finest level they have passed the faces.  The other levels keep their
      data, but on the next finer one nothing has passed yet. */
  lemma StepInFigures(ds: Hierarchy, l: nat, first: bool, flux: seq<real>)
    requires l < |ds| && |flux| == |ds[l].current| + 1
    ensures var d, d' := ds[l], AfterStep(ds, l, first, flux)[l];
            && d' == d.(next := d'.next, flux := flux, sums := d'.sums, passed := d'.passed)
            && d'.next.Some? && |d'.next.value| == |d.current|
            && (forall k | 0 <= k < |d.current| :: d'.next.value[k] ==
                  d.current[k] - if InRegion(d.ratio, d.boxes, k) then flux[k + 1] - flux[k] else 0.0)
            && |d'.sums| == |flux|
            && (forall j | 0 <= j < |flux| :: d'.sums[j] == flux[j] + if first then 0.0 else At(d.sums, j))
            && (forall j | 0 <= j < |flux| ::
                  At(d'.passed, j) == At(d.passed, j) + if l + 1 == |ds| then flux[j] else 0.0)
    ensures forall k | 0 <= k < |ds| && k != l ::
              AfterStep(ds, l, first, flux)[k] == if k == l + 1 then ds[k].(passed := []) else ds[k]
  {
  }

  /** The synchronization of two levels in figures, where the corrected flux at a face is the finer flux sum if the
      face is at the end of a finer box, and the flux of the level otherwise: a covered cell gets what the finer
      cells hold, and every other cell of the level, from its content before the step, loses the difference of the
      corrected fluxes. */
  lemma SyncInFigures(d: CellData, finer: CellData)
    requires |d.flux| == |d.current| + 1
    ensures var d' := SyncedWith(d, finer);
            && d' == d.(next := d'.next, flux := d'.flux, passed := d'.passed)
            && |d'.flux| == |d.flux| && d'.next.Some? && |d'.next.value| == |d.current|
            && (forall j | 0 <= j < |d.flux| ::
                  d'.flux[j] == if Ends(finer.boxes, j) then At(finer.sums, Refine(finer.ratio, j)) else d.flux[j])
            && (forall k | 0 <= k < |d.current| :: d'.next.value[k] ==
                  if Covered(finer.boxes, k) then FromFiner(Latest(finer), finer.ratio, k)
                  else d.current[k] - if InRegion(d.ratio, d.boxes, k) then d'.flux[k + 1] - d'.flux[k] else 0.0)
            && (forall j | 0 <= j < |d.flux| ::
                  At(d'.passed, j) == At(d.passed, j) + if AtCovered(finer.boxes, j)
                    then At(finer.passed, Refine(finer.ratio, j)) else d.flux[j])
  {
  }

  /** Synchronizing a range of levels synchronizes each but the finest with the next finer one, as it is then. */
  lemma {:induction false} SyncRange(ds: Hierarchy, coarsest: nat, finest: nat)
    requires coarsest <= finest < |ds|
    ensures var r := AfterSync(ds, coarsest, finest);
            && (forall k | 0 <= k < |ds| && !(coarsest <= k < finest) :: r[k] == ds[k])
            && forall k | coarsest <= k < finest :: r[k] == SyncedWith(ds[k], r[k + 1])
    decreases finest
  {
    hide SyncedWith;
    if coarsest < finest {
      SyncRange(ds[finest - 1 := SyncedWith(ds[finest - 1], ds[finest])], coarsest, finest - 1);
    }
  }

  /** The event is that of a hierarchy with these data, and changes them in this way: a step by its fluxes, a regrid by
      any finer levels that are nested and averaged. */
  ghost predicate Next(ds: Hierarchy, e: Event, ds': Hierarchy) {
    match e
    case Step(l, _, _, first, finer, flux, _, hadNew, _, _, _) =>
      && l < |ds| && (finer <==> l + 1 < |ds|) && (hadNew <==> ds[l].next.Some?)
      && |flux| == |ds[l].current| + 1 && ds' == AfterStep(ds, l, first, flux)
    case Sync(c, f, _, newTimes, fluxSums) =>
      && c <= f < |ds| && |newTimes| == f - c + 1 && |fluxSums| == f - c
      && (forall i | 0 <= i < |newTimes| :: newTimes[i].Some? <==> ds[c + i].next.Some?)
      && (forall i | 0 <= i < |fluxSums| :: fluxSums[i].Some? ==> fluxSums[i].value == ds[c + 1 + i].sums)
      && ds' == AfterSync(ds, c, f)
    case Reset(l, _, data) =>
      l < |ds| && (data.Some? <==> ds[l].next.Some?) && ds' == AfterReset(ds, l)
    case Regrid(l, _, oldFinest, finest) =>
      && l < |ds| == oldFinest + 1 && l <= finest && |ds'| == finest + 1 && ds'[..l + 1] == ds[..l + 1]
      && (forall k | l < k < |ds'| :: ds'[k].next == None) && SoundFrom(ds', l)
    case NewDt(_, _) =>
      ds' == ds
  }

  /** The data of a hierarchy in the course of a history. */
  ghost predicate IsRun(h: History, run: seq<Hierarchy>) {
    |run| == |h| + 1 && forall i | 0 <= i < |h| :: Next(run[i], h[i], run[i + 1])
  }

  // ---------------------------------------------------------------- the invariant

  /** The contents of a level as far as it is settled: before its last step, if that has not been synchronized with the
      next finer level yet, and otherwise the newest. */
  function Settled(d: CellData, owed: bool): seq<real> {
    if owed then d.current else Latest(d)
  }

  /** What has left cells `a` up to `b` through the faces at both ends. */
  function Outflow(d: CellData, a: int, b: int): real {
    At(d.passed, b) - At(d.passed, a)
  }

  /** During a step of a level, where it is covered, its contents before the step are what the finer level holds and
      what has left the cell since. */
  predicate Flowed(u: seq<real>, finer: CellData, fine: seq<real>) {
    forall i | 0 <= i < |u| && Covered(finer.boxes, i) ::
      u[i] == FromFiner(fine, finer.ratio, i) + Outflow(finer, Refine(finer.ratio, i), Refine(finer.ratio, i + 1))
  }

  /** Face `j` is between a cell of the level and one outside of it. */
  predicate IsOuter(d: CellData, j: int) {
    0 < j < |d.current| && InRegion(d.ratio, d.boxes, j - 1) != InRegion(d.ratio, d.boxes, j)
  }

  /** At the faces around a level, the flux sum is what has passed since the last step of the next coarser level, and
      what passes in the step that has not been synchronized. */
  ghost predicate Recorded(d: CellData, m: Mark) {
    && (m.cover.Nothing? ==> m.flux == [] && forall j :: At(d.passed, j) == 0.0)
    && (!m.cover.Nothing? ==> d.sums == m.flux && forall j | IsOuter(d, j) ::
          At(d.sums, j) == At(d.passed, j) + if m.owed then At(d.flux, j) else 0.0)
  }

  /** A step that has not been synchronized has a finer level, and happens during one of the next coarser level that has
      not been synchronized either. */
  predicate OwedFirst(m: seq<Mark>, levels: nat) {
    && (forall k | 0 < k < |m| :: m[k].owed ==> m[k - 1].owed)
    && (forall k | 0 <= k < |m| :: m[k].owed ==> k + 1 < levels && !m[k].cover.Nothing?)
  }

  /** A level and the next finer one at any time; `m` is the mark of the finer one. */
  ghost predicate Together(d: CellData, finer: CellData, owed: bool, m: Mark) {
    && Fits(d, finer)
    && if owed then
         |d.flux| == |d.current| + 1 && Recorded(finer, m) && Flowed(d.current, finer, Settled(finer, m.owed))
       else
         Averaged(Latest(d), finer.boxes, finer.ratio, Latest(finer))
  }

  /** Levels `k` and `k + 1` at any time. */
  ghost predicate PairOk(ds: Hierarchy, m: seq<Mark>, k: nat)
    requires k + 1 < |ds| <= |m|
  {
    Together(ds[k], ds[k + 1], m[k].owed, m[k + 1])
  }

  /** What holds of the data after every event of a lawful history, whose marks are `m`. */
  ghost predicate Invariant(ds: Hierarchy, m: seq<Mark>) {
    && 1 <= |ds| <= |m| && OwedFirst(m, |ds|) && LevelOk(ds[0])
    && forall k | 0 <= k && k + 1 < |ds| :: PairOk(ds, m, k)
  }

  /** The levels from `l` on owe nothing, if level `l` does not. */
  lemma {:induction false} NothingOwedFrom(m: seq<Mark>, levels: nat, l: nat, k: nat)
    requires OwedFirst(m, levels) && l <= k < |m| && !m[l].owed
    ensures !m[k].owed
  {
    if l < k {
      NothingOwedFrom(m, levels, l, k - 1);
    }
  }

  // ---------------------------------------------------------------- cells change by what passes their faces

  /** Every cell of the level has changed by what has passed its faces in the meantime. */
  predicate Balanced(d: CellData, u: seq<real>, d': CellData, u': seq<real>) {
    && d'.ratio == d.ratio && d'.boxes == d.boxes && |u'| == |u|
    && forall k | 0 <= k < |u| && InRegion(d.ratio, d.boxes, k) ::
         u'[k] + Outflow(d', k, k + 1) == u[k] + Outflow(d, k, k + 1)
  }

  /** The sum over consecutive cells changes by what has passed the outer faces. */
  lemma {:induction false} SumBalanced(d: CellData, u: seq<real>, d': CellData, u': seq<real>, a: nat, b: nat)
    requires Balanced(d, u, d', u') && a <= b <= |u| && forall k | a <= k < b :: InRegion(d.ratio, d.boxes, k)
    ensures Sum(u', a, b) + Outflow(d', a, b) == Sum(u, a, b) + Outflow(d, a, b)
  {
    if a < b {
      SumBalanced(d, u, d', u', a, b - 1);
    }
  }

  /** The fine cells in coarse cell `i` belong to the level if the coarse cell is covered, and do not otherwise. */
  lemma CellsOfBlock(ratio: nat, boxes: seq<Box>, i: nat)
    ensures forall k | Refine(ratio, i) <= k < Refine(ratio, i + 1) :: InRegion(ratio, boxes, k) == Covered(boxes, i)
  {
    forall p | 0 <= p < |boxes|
      ensures boxes[p].lo <= i ==> Refine(ratio, boxes[p].lo) <= Refine(ratio, i)
      ensures i < boxes[p].lo ==> Refine(ratio, i + 1) <= Refine(ratio, boxes[p].lo)
      ensures boxes[p].hi <= i ==> Refine(ratio, boxes[p].hi) <= Refine(ratio, i)
      ensures i < boxes[p].hi ==> Refine(ratio, i + 1) <= Refine(ratio, boxes[p].hi)
    {
      if boxes[p].lo <= i {
        RefineMonotone(ratio, boxes[p].lo, i);
      } else {
        RefineMonotone(ratio, i + 1, boxes[p].lo);
      }
      if boxes[p].hi <= i {
        RefineMonotone(ratio, boxes[p].hi, i);
      } else {
        RefineMonotone(ratio, i + 1, boxes[p].hi);
      }
    }
  }

  /** Covered cells are cells of the domain. */
  lemma InDomain(d: CellData, finer: CellData)
    requires Fits(d, finer)
    ensures forall i | Covered(finer.boxes, i) :: 0 <= i < |d.current|
  {
    forall p | 0 <= p < |finer.boxes|
      ensures finer.boxes[p].hi <= |d.current|
    {
      if finer.boxes[p].hi > |d.current| {
        RefineMonotone(finer.ratio, |d.current| + 1, finer.boxes[p].hi);
      }
    }
  }

  /** Also of the cells under one coarse cell that is covered. */
  lemma BlockBalanced(f: CellData, fine: seq<real>, f': CellData, fine': seq<real>, i: nat, n: nat)
    requires Balanced(f, fine, f', fine') && Covered(f.boxes, i) && i < n && |fine| == Refine(f.ratio, n)
    ensures var a, b := Refine(f.ratio, i), Refine(f.ratio, i + 1);
            FromFiner(fine', f.ratio, i) + Outflow(f', a, b) == FromFiner(fine, f.ratio, i) + Outflow(f, a, b)
  {
    CellsOfBlock(f.ratio, f.boxes, i);
    RefineMonotone(f.ratio, i + 1, n);
    RefineMonotone(f.ratio, i, i + 1);
    SumBalanced(f, fine, f', fine', Refine(f.ratio, i), Refine(f.ratio, i + 1));
  }

  /** If the finer level changes by what passes its faces, what the covered cells have to hold does not change. */
  lemma BalancedFlows(d: CellData, u: seq<real>, f: CellData, fine: seq<real>, f': CellData, fine': seq<real>)
    requires Fits(d, f) && |u| == |d.current| && |fine| == |f.current| && Balanced(f, fine, f', fine')
    requires Flowed(u, f, fine)
    ensures Flowed(u, f', fine')
  {
    hide Covered, FromFiner, Outflow;
    forall i | 0 <= i < |u| && Covered(f.boxes, i)
      ensures u[i] == FromFiner(fine', f.ratio, i) + Outflow(f', Refine(f.ratio, i), Refine(f.ratio, i + 1))
    {
      BlockBalanced(f, fine, f', fine', i, |u|);
    }
  }

  // ---------------------------------------------------------------- faces

  /** A face between a cell of the level and one outside of it is not at a cell covered by a yet finer level. */
  lemma OuterFace(d: CellData, finer: CellData, j: int)
    requires Fits(d, finer) && IsOuter(d, j)
    ensures !AtCovered(finer.boxes, j)
  {
    assert Nested(d, finer);
  }

  /** The fine cells on both sides of coarse face `j`. */
  lemma CellsAtFace(ratio: nat, boxes: seq<Box>, j: nat, n: nat)
    requires ratio > 0 && 0 < j < n
    ensures 0 < Refine(ratio, j) < Refine(ratio, n)
    ensures InRegion(ratio, boxes, Refine(ratio, j)) == Covered(boxes, j)
    ensures InRegion(ratio, boxes, Refine(ratio, j) - 1) == Covered(boxes, j - 1)
  {
    RefineMonotone(ratio, j + 1, n);
    CellsOfBlock(ratio, boxes, j);
    CellsOfBlock(ratio, boxes, j - 1);
  }

  lemma EndsAtCovered(boxes: seq<Box>, j: int)
    requires forall p | 0 <= p < |boxes| :: boxes[p].lo < boxes[p].hi
    ensures Ends(boxes, j) ==> AtCovered(boxes, j)
    ensures AtCovered(boxes, j) && !(Covered(boxes, j - 1) && Covered(boxes, j)) ==> Ends(boxes, j)
  {
    if Ends(boxes, j) {
      var p :| 0 <= p < |boxes| && (boxes[p].lo == j || boxes[p].hi == j);
      assert boxes[p].lo <= j - 1 < boxes[p].hi || boxes[p].lo <= j < boxes[p].hi;
    }
  }

  /** The corrected flux at a face of an uncovered cell is what passes it. */
  lemma FaceOfUncoveredCell(d: CellData, finer: CellData, m: Mark, j: nat)
    requires Fits(d, finer) && |d.flux| == |d.current| + 1 && Recorded(finer, m) && !m.owed && !m.cover.Nothing?
    requires !(Covered(finer.boxes, j - 1) && Covered(finer.boxes, j))
    requires 0 < j < |d.current| || !AtCovered(finer.boxes, j)
    ensures At(Corrected(d.flux, finer), j) == At(Through(d.flux, finer), j)
  {
    EndsAtCovered(finer.boxes, j);
    if AtCovered(finer.boxes, j) {
      CellsAtFace(finer.ratio, finer.boxes, j, |d.current|);
      assert IsOuter(finer, Refine(finer.ratio, j));
    }
  }

  // ---------------------------------------------------------------- synchronization of two levels

  /** A cell of the level that is covered. */
  lemma CoveredCell(d: CellData, finer: CellData, i: nat)
    requires Fits(d, finer) && |d.flux| == |d.current| + 1 && Flowed(d.current, finer, Latest(finer))
    requires i < |d.current| && Covered(finer.boxes, i)
    ensures SyncedContents(d, finer)[i] ==
            d.current[i] - (At(Through(d.flux, finer), i + 1) - At(Through(d.flux, finer), i))
  {
  }

  /** A cell of the level that is not covered. */
  lemma UncoveredCell(d: CellData, finer: CellData, m: Mark, i: nat)
    requires Fits(d, finer) && |d.flux| == |d.current| + 1 && Recorded(finer, m) && !m.owed && !m.cover.Nothing?
    requires i < |d.current| && !Covered(finer.boxes, i) && InRegion(d.ratio, d.boxes, i)
    ensures SyncedContents(d, finer)[i] ==
            d.current[i] - (At(Through(d.flux, finer), i + 1) - At(Through(d.flux, finer), i))
  {
    InDomain(d, finer);
    FaceOfUncoveredCell(d, finer, m, i);
    FaceOfUncoveredCell(d, finer, m, i + 1);
  }

  /** Synchronization makes every cell of the level one that has changed by what has passed its faces on the finest
      level there, whether it is covered or not. */
  lemma {:induction false} SynchronizationBalances(d: CellData, finer: CellData, m: Mark)
    requires Fits(d, finer) && |d.flux| == |d.current| + 1 && Recorded(finer, m) && !m.owed && !m.cover.Nothing?
    requires Flowed(d.current, finer, Latest(finer))
    ensures Balanced(d, d.current, SyncedWith(d, finer), SyncedContents(d, finer))
  {
    var d', u := SyncedWith(d, finer), SyncedContents(d, finer);
    forall k | 0 <= k < |u| && InRegion(d.ratio, d.boxes, k)
      ensures u[k] + Outflow(d', k, k + 1) == d.current[k] + Outflow(d, k, k + 1)
    {
      if Covered(finer.boxes, k) {
        CoveredCell(d, finer, k);
      } else {
        UncoveredCell(d, finer, m, k);
      }
    }
  }

  // ---------------------------------------------------------------- every event

  /** The marks after an event. */
  ghost predicate MarksChange(m: seq<Mark>, e: Event, m': seq<Mark>) {
    |m'| == |m| && forall k | 0 <= k < |m| :: m'[k] == MarkAfter(m[k], e, k)
  }

  /** The event keeps the invariant, and every cell of level zero changes by what passes its faces. */
  ghost predicate Kept(ds: Hierarchy, m: seq<Mark>, ds': Hierarchy, m': seq<Mark>) {
    && Invariant(ds, m) && Invariant(ds', m')
    && Balanced(ds[0], Settled(ds[0], m[0].owed), ds'[0], Settled(ds'[0], m'[0].owed))
  }

  /** A step of the finest level. */
  lemma StepBalances(d: CellData, first: bool, flux: seq<real>)
    requires LevelOk(d) && |flux| == |d.current| + 1
    ensures var d' := Stepped(d, first, true, flux); LevelOk(d') && Balanced(d, d.current, d', Latest(d'))
  {
  }

  /** The fluxes of a step are added to the e.flux sums, or start them. */
  lemma StepRecords(d: CellData, m: Mark, e: Event, l: nat)
    requires Recorded(d, m) && !m.owed && StepsOn(e, l) && (e.first <==> m.cover.Nothing?)
    requires |e.flux| == |d.current| + 1
    ensures Recorded(Stepped(d, e.first, !e.finer, e.flux), MarkAfter(m, e, l))
  {
    var d' := Stepped(d, e.first, !e.finer, e.flux);
    forall j | IsOuter(d', j)
      ensures At(d'.sums, j) == At(d'.passed, j) + if e.finer then At(d'.flux, j) else 0.0
    {
      assert IsOuter(d, j);
    }
  }

  /** The step seen from the next coarser level. */
  lemma StepOfFiner(d: CellData, f: CellData, m: Mark, e: Event, l: nat)
    requires Together(d, f, true, m) && !m.owed && f.next == None
    requires StepsOn(e, l) && (e.first <==> m.cover.Nothing?) && |e.flux| == |f.current| + 1
    ensures Together(d, Stepped(f, e.first, !e.finer, e.flux), true, MarkAfter(m, e, l))
  {
    hide Recorded;
    var f' := Stepped(f, e.first, !e.finer, e.flux);
    StepRecords(f, m, e, l);
    if e.finer {
      StillFlows(d.current, f, f.current, f');
    } else {
      StepBalances(f, e.first, e.flux);
      BalancedFlows(d, d.current, f, f.current, f', Latest(f'));
    }
  }

  lemma StillFlows(u: seq<real>, f: CellData, fine: seq<real>, f': CellData)
    requires Flowed(u, f, fine) && f'.ratio == f.ratio && f'.boxes == f.boxes && f'.passed == f.passed
    ensures Flowed(u, f', fine)
  {
  }

  /** The step seen from the next finer level, for which a new sequence begins. */
  lemma StepOfCoarser(d: CellData, f: CellData, m: Mark, first: bool, flux: seq<real>)
    requires Together(d, f, false, m) && !m.owed && d.next == None && |flux| == |d.current| + 1
    ensures Together(Stepped(d, first, false, flux), f.(passed := []), true,
                     m.(cover := Nothing, flux := [], steps := 0))
  {
    hide Difference, Plus, FromFiner;
  }

  lemma StepSeenAbove(ds: Hierarchy, m: seq<Mark>, e: Event, m': seq<Mark>)
    requires Invariant(ds, m) && e.Step? && 0 < e.level < |ds| && Allowed(m, e) && MarksChange(m, e, m')
    requires (e.finer <==> e.level + 1 < |ds|) && ds[e.level].next == None && |e.flux| == |ds[e.level].current| + 1
    ensures PairOk(AfterStep(ds, e.level, e.first, e.flux), m', e.level - 1)
  {
    hide Together, Stepped;
    var l := e.level;
    assert PairOk(ds, m, l - 1);
    StepOfFiner(ds[l - 1], ds[l], m[l], e, l);
  }

  lemma StepSeenBelow(ds: Hierarchy, m: seq<Mark>, e: Event, m': seq<Mark>)
    requires Invariant(ds, m) && e.Step? && e.level + 1 < |ds| && Allowed(m, e) && MarksChange(m, e, m') && e.finer
    requires ds[e.level].next == None && |e.flux| == |ds[e.level].current| + 1
    ensures PairOk(AfterStep(ds, e.level, e.first, e.flux), m', e.level)
  {
    hide Together, Stepped;
    var l := e.level;
    assert PairOk(ds, m, l);
    NothingOwedFrom(m, |ds|, l, l + 1);
    StepOfCoarser(ds[l], ds[l + 1], m[l + 1], e.first, e.flux);
  }

  /** Two levels whose data have not changed, but for what has passed the faces of the coarser one. */
  lemma PairStays(ds: Hierarchy, m: seq<Mark>, ds': Hierarchy, m': seq<Mark>, k: nat)
    requires k + 1 < |ds| <= |m| && k + 1 < |ds'| <= |m'| && PairOk(ds, m, k)
    requires ds'[k] == ds[k].(passed := ds'[k].passed) && ds'[k + 1] == ds[k + 1]
    requires m'[k].owed == m[k].owed && m'[k + 1].owed == m[k + 1].owed && m'[k + 1].cover == m[k + 1].cover
             && m'[k + 1].flux == m[k + 1].flux
    ensures PairOk(ds', m', k)
  {
  }

  lemma StepKeepsPair(ds: Hierarchy, m: seq<Mark>, e: Event, m': seq<Mark>, k: nat)
    requires Invariant(ds, m) && e.Step? && e.level < |ds| && Allowed(m, e) && MarksChange(m, e, m')
    requires (e.finer <==> e.level + 1 < |ds|) && ds[e.level].next == None && |e.flux| == |ds[e.level].current| + 1
    requires k + 1 < |ds|
    ensures PairOk(AfterStep(ds, e.level, e.first, e.flux), m', k)
  {
    hide PairOk, OwedFirst, LevelOk, Stepped;
    if k + 1 == e.level {
      StepSeenAbove(ds, m, e, m');
    } else if k == e.level {
      StepSeenBelow(ds, m, e, m');
    } else {
      assert PairOk(ds, m, k);
      PairStays(ds, m, AfterStep(ds, e.level, e.first, e.flux), m', k);
    }
  }

  lemma StepBalancesZero(ds: Hierarchy, m: seq<Mark>, e: Event, m': seq<Mark>)
    requires Invariant(ds, m) && e.Step? && e.level < |ds| && Allowed(m, e) && MarksChange(m, e, m')
    requires (e.finer <==> e.level + 1 < |ds|) && ds[e.level].next == None && |e.flux| == |ds[e.level].current| + 1
    ensures var ds' := AfterStep(ds, e.level, e.first, e.flux);
            LevelOk(ds'[0]) && Balanced(ds[0], Settled(ds[0], m[0].owed), ds'[0], Settled(ds'[0], m'[0].owed))
  {
    if |ds| == 1 {
      StepBalances(ds[0], e.first, e.flux);
    }
  }

  lemma StepKeeps(ds: Hierarchy, m: seq<Mark>, e: Event, m': seq<Mark>)
    requires Invariant(ds, m) && e.Step? && e.level < |ds| && Allowed(m, e) && MarksChange(m, e, m')
    requires (e.finer <==> e.level + 1 < |ds|) && ds[e.level].next == None && |e.flux| == |ds[e.level].current| + 1
    ensures Kept(ds, m, AfterStep(ds, e.level, e.first, e.flux), m')
  {
    hide PairOk, OwedFirst, LevelOk, Balanced, Allowed, AfterStep, Settled;
    forall k: nat | k + 1 < |ds|
      ensures PairOk(AfterStep(ds, e.level, e.first, e.flux), m', k)
    {
      StepKeepsPair(ds, m, e, m', k);
    }
    StepBalancesZero(ds, m, e, m');
    StepKeepsOrder(ds, m, e, m');
  }

  lemma StepKeepsOrder(ds: Hierarchy, m: seq<Mark>, e: Event, m': seq<Mark>)
    requires OwedFirst(m, |ds|) && e.Step? && e.level < |ds| <= |m| && Allowed(m, e) && MarksChange(m, e, m')
    requires e.finer <==> e.level + 1 < |ds|
    ensures OwedFirst(m', |ds|)
  {
  }

  // ---- synchronization

  /** The marks when levels `c` up to `f` owe nothing any more. */
  predicate Settles(m: seq<Mark>, c: nat, f: nat, m': seq<Mark>) {
    |m'| == |m| && forall k | 0 <= k < |m| :: m'[k] == if c <= k < f then m[k].(owed := false) else m[k]
  }

  /** The levels from `f` down to `c` can be synchronized. */
  predicate CanSync(m: seq<Mark>, c: nat, f: nat) {
    && c <= f < |m| && !m[f].owed && (forall k | c <= k < f :: m[k].owed)
    && (forall k | c < k <= f :: !m[k].cover.Nothing?)
  }

  /** The flux sums of a level that has been synchronized are what has passed. */
  lemma SyncRecords(d: CellData, finer: CellData, m: Mark)
    requires Fits(d, finer) && |d.flux| == |d.current| + 1 && Recorded(d, m) && m.owed && !m.cover.Nothing?
    ensures Recorded(SyncedWith(d, finer), m.(owed := false))
  {
    var d' := SyncedWith(d, finer);
    forall j | IsOuter(d', j)
      ensures At(d'.sums, j) == At(d'.passed, j)
    {
      assert IsOuter(d, j);
      OuterFace(d, finer, j);
    }
  }

  /** The synchronization of levels `f - 1` and `f` seen from the level above them. */
  lemma SyncSeenAbove(ds: Hierarchy, m: seq<Mark>, f: nat, m': seq<Mark>)
    requires Invariant(ds, m) && 1 < f < |ds| && CanSync(m, f - 1, f) && Settles(m, f - 1, f, m')
    ensures PairOk(ds[f - 1 := SyncedWith(ds[f - 1], ds[f])], m', f - 2)
  {
    assert PairOk(ds, m, f - 2) && PairOk(ds, m, f - 1);
    SyncRecords(ds[f - 1], ds[f], m[f - 1]);
    SynchronizationBalances(ds[f - 1], ds[f], m[f]);
    BalancedFlows(ds[f - 2], ds[f - 2].current, ds[f - 1], ds[f - 1].current,
                   SyncedWith(ds[f - 1], ds[f]), SyncedContents(ds[f - 1], ds[f]));
  }

  lemma SyncKeepsPair(ds: Hierarchy, m: seq<Mark>, f: nat, m': seq<Mark>, k: nat)
    requires Invariant(ds, m) && 0 < f < |ds| && CanSync(m, f - 1, f) && Settles(m, f - 1, f, m') && k + 1 < |ds|
    ensures PairOk(ds[f - 1 := SyncedWith(ds[f - 1], ds[f])], m', k)
  {
    hide Fits, Recorded, OwedFirst, Flowed, LevelOk;
    assert PairOk(ds, m, k);
    if k + 2 == f {
      SyncSeenAbove(ds, m, f, m');
    } else if k + 1 == f {
      SyncKeepsFit(ds[k], ds[f], m[f]);
    } else {
      PairStays(ds, m, ds[f - 1 := SyncedWith(ds[f - 1], ds[f])], m', k);
    }
  }

  lemma SyncKeepsFit(d: CellData, finer: CellData, m: Mark)
    requires Fits(d, finer) && |d.flux| == |d.current| + 1 && Recorded(finer, m) && !m.owed && !m.cover.Nothing?
    requires Flowed(d.current, finer, Latest(finer))
    ensures Fits(SyncedWith(d, finer), finer) && LevelOk(SyncedWith(d, finer))
    ensures Balanced(d, d.current, SyncedWith(d, finer), SyncedContents(d, finer))
  {
    SynchronizationBalances(d, finer, m);
  }

  /** One level is synchronized with the next finer one. */
  lemma SyncOneKeeps(ds: Hierarchy, m: seq<Mark>, f: nat, m': seq<Mark>)
    requires Invariant(ds, m) && 0 < f < |ds| && CanSync(m, f - 1, f) && Settles(m, f - 1, f, m')
    ensures Kept(ds, m, ds[f - 1 := SyncedWith(ds[f - 1], ds[f])], m')
  {
    hide Fits, Recorded, Flowed, LevelOk, Balanced, SyncedWith;
    var ds' := ds[f - 1 := SyncedWith(ds[f - 1], ds[f])];
    forall k: nat | k + 1 < |ds|
      ensures PairOk(ds', m', k)
    {
      SyncKeepsPair(ds, m, f, m', k);
    }
    assert PairOk(ds, m, f - 1);
    SyncKeepsFit(ds[f - 1], ds[f], m[f]);
    SyncSettles(ds[f - 1], ds[f]);
    BalancedSame(ds[0], Settled(ds[0], m[0].owed));
  }

  lemma SyncSettles(d: CellData, finer: CellData)
    ensures Latest(SyncedWith(d, finer)) == SyncedContents(d, finer)
  {
  }

  lemma BalancedSame(d: CellData, u: seq<real>)
    ensures Balanced(d, u, d, u)
  {
  }

  lemma KeptTwice(ds: Hierarchy, m: seq<Mark>, ds1: Hierarchy, m1: seq<Mark>, ds2: Hierarchy, m2: seq<Mark>)
    requires Kept(ds, m, ds1, m1) && Kept(ds1, m1, ds2, m2)
    ensures Kept(ds, m, ds2, m2)
  {
    hide PairOk, OwedFirst, LevelOk, Settled, Outflow, InRegion;
  }

  /** The levels from `f` down to `c` are synchronized. */
  lemma {:induction false} SyncKeeps(ds: Hierarchy, m: seq<Mark>, c: nat, f: nat, m': seq<Mark>)
    requires Invariant(ds, m) && c <= f < |ds| && CanSync(m, c, f) && Settles(m, c, f, m')
    ensures Kept(ds, m, AfterSync(ds, c, f), m')
    decreases f
  {
    if c == f {
      assert m' == m;
      BalancedSame(ds[0], Settled(ds[0], m[0].owed));
    } else {
      var ds1, m1 := ds[f - 1 := SyncedWith(ds[f - 1], ds[f])], m[f - 1 := m[f - 1].(owed := false)];
      SyncOneKeeps(ds, m, f, m1);
      SyncKeeps(ds1, m1, c, f - 1, m');
      KeptTwice(ds, m, ds1, m1, AfterSync(ds, c, f), m');
    }
  }

  // ---- the other events

  lemma ResetKeepsPair(ds: Hierarchy, m: seq<Mark>, l: nat, k: nat)
    requires l < |ds| <= |m| && !m[l].owed && k + 1 < |ds| && PairOk(ds, m, k)
    ensures PairOk(AfterReset(ds, l), m, k)
  {
    var ds' := AfterReset(ds, l);
    if k != l && k + 1 != l {
      PairStays(ds, m, ds', m, k);
    }
  }

  lemma ResetKeeps(ds: Hierarchy, m: seq<Mark>, l: nat)
    requires Invariant(ds, m) && l < |ds| && !m[l].owed
    ensures Kept(ds, m, AfterReset(ds, l), m)
  {
    hide PairOk, OwedFirst;
    forall k: nat | k + 1 < |ds|
      ensures PairOk(AfterReset(ds, l), m, k)
    {
      ResetKeepsPair(ds, m, l, k);
    }
    BalancedSame(ds[0], Settled(ds[0], m[0].owed));
  }

  /** Only what is known of time increments and regrids changes. */
  predicate SameFlow(m: seq<Mark>, m': seq<Mark>) {
    |m'| == |m| && forall k | 0 <= k < |m| ::
      m'[k] == m[k].(dtKnown := m'[k].dtKnown, limit := m'[k].limit, regridded := m'[k].regridded)
  }

  /** Resets, regrids and new increments change nothing about what is owed and has flowed. */
  lemma FlowStays(m: seq<Mark>, e: Event, m': seq<Mark>)
    requires MarksChange(m, e, m')
    ensures e.Regrid? || e.NewDt? ==> SameFlow(m, m')
    ensures e.Reset? ==> m' == m
  {
  }

  lemma RegridKeepsPair(ds: Hierarchy, m: seq<Mark>, l: nat, ds': Hierarchy, m': seq<Mark>, k: nat)
    requires Invariant(ds, m) && l < |ds| && (forall i | l <= i < |m| :: !m[i].owed) && SameFlow(m, m')
    requires l < |ds'| <= |m| && ds'[..l + 1] == ds[..l + 1] && SoundFrom(ds', l) && k + 1 < |ds'|
    ensures PairOk(ds', m', k)
  {
    if k < l {
      assert ds'[k] == ds'[..l + 1][k] && ds'[k + 1] == ds'[..l + 1][k + 1];
      assert PairOk(ds, m, k);
      PairStays(ds, m, ds', m', k);
    }
  }

  lemma RegridKeeps(ds: Hierarchy, m: seq<Mark>, l: nat, ds': Hierarchy, m': seq<Mark>)
    requires Invariant(ds, m) && l < |ds| && (forall i | l <= i < |m| :: !m[i].owed) && SameFlow(m, m')
    requires l < |ds'| <= |m| && ds'[..l + 1] == ds[..l + 1] && SoundFrom(ds', l)
    ensures Kept(ds, m, ds', m')
  {
    hide PairOk, LevelOk;
    forall k: nat | k + 1 < |ds'|
      ensures PairOk(ds', m', k)
    {
      RegridKeepsPair(ds, m, l, ds', m', k);
    }
    assert ds'[0] == ds'[..l + 1][0] == ds[0];
    BalancedSame(ds[0], Settled(ds[0], m[0].owed));
  }

  lemma NewDtKeeps(ds: Hierarchy, m: seq<Mark>, m': seq<Mark>)
    requires Invariant(ds, m) && SameFlow(m, m')
    ensures Kept(ds, m, ds, m')
  {
    hide LevelOk;
    forall k: nat | k + 1 < |ds|
      ensures PairOk(ds, m', k)
    {
      assert PairOk(ds, m, k);
      PairStays(ds, m, ds, m', k);
    }
    BalancedSame(ds[0], Settled(ds[0], m[0].owed));
  }

  lemma SyncIsAllowed(m: seq<Mark>, e: Event)
    requires e.Sync? && Allowed(m, e)
    ensures CanSync(m, e.coarsest, e.finest)
  {
    var c, f := e.coarsest, e.finest;
    forall k | c <= k < f
      ensures m[k].owed
    {
      assert PairReady(m, c + (k - c), e.time, e.fluxSums[k - c]);
    }
    forall k | c < k <= f
      ensures !m[k].cover.Nothing?
    {
      assert PairReady(m, c + (k - 1 - c), e.time, e.fluxSums[k - 1 - c]);
    }
  }

  /** Every allowed event keeps the invariant. */
  lemma EventKeeps(ds: Hierarchy, m: seq<Mark>, e: Event, ds': Hierarchy, m': seq<Mark>)
    requires Invariant(ds, m) && Allowed(m, e) && MarksChange(m, e, m') && Next(ds, e, ds')
    ensures Kept(ds, m, ds', m')
  {
    hide Invariant, Kept, AfterStep, AfterSync, AfterReset, SoundFrom, SameFlow;
    FlowStays(m, e, m');
    match e
    case Step(l, _, _, first, _, _, _, _, _, _, _) =>
      StepKeeps(ds, m, e, m');
    case Sync(c, f, _, _, _) =>
      SyncIsAllowed(m, e);
      SyncKeeps(ds, m, c, f, m');
    case Reset(l, _, _) =>
      ResetKeeps(ds, m, l);
    case Regrid(l, _, _, _) =>
      RegridKeeps(ds, m, l, ds', m');
    case NewDt(_, _) =>
      NewDtKeeps(ds, m, m');
  }

  // ---------------------------------------------------------------- runs go on

  lemma RunGoesOn(h: History, run: seq<Hierarchy>, e: Event, ds': Hierarchy)
    requires IsRun(h, run) && Next(run[|h|], e, ds')
    ensures IsRun(h + [e], run + [ds'])
  {
    hide Next;
    var h', run' := h + [e], run + [ds'];
    forall i | 0 <= i < |h'|
      ensures Next(run'[i], h'[i], run'[i + 1])
    {
      if i < |h| {
        assert run'[i] == run[i] && run'[i + 1] == run[i + 1] && h'[i] == h[i];
      }
    }
  }

  predicate AllOk(ds: Hierarchy) {
    forall k | 0 <= k < |ds| :: LevelOk(ds[k])
  }

  /** A step by any fluxes is one of the hierarchy, after which its level has NEW data. */
  lemma StepFlags(ds: Hierarchy, e: Event)
    requires AllOk(ds) && e.Step? && e.level < |ds| && |e.flux| == |ds[e.level].current| + 1
    requires (e.finer <==> e.level + 1 < |ds|) && (e.hadNew <==> ds[e.level].next.Some?)
    ensures var r := AfterStep(ds, e.level, e.first, e.flux);
            && Next(ds, e, r) && AllOk(r)
            && forall k | 0 <= k < |ds| :: r[k].next.Some? <==> ds[k].next.Some? || k == e.level
  {
    assert LevelOk(Stepped(ds[e.level], e.first, e.level + 1 == |ds|, e.flux));
  }

  lemma SyncOneFlags(ds: Hierarchy, f: nat)
    requires 0 < f < |ds| && AllOk(ds)
    ensures var r := ds[f - 1 := SyncedWith(ds[f - 1], ds[f])];
            && AllOk(r) && (forall k | 0 <= k < |ds| :: r[k].next.Some? <==> ds[k].next.Some? || k == f - 1)
            && forall k | 0 <= k < |ds| :: r[k].sums == ds[k].sums
  {
    assert LevelOk(SyncedWith(ds[f - 1], ds[f]));
  }

  /** Which levels have NEW data after a synchronization, which leaves the flux sums alone. */
  lemma {:induction false} SyncFlags(ds: Hierarchy, c: nat, f: nat)
    requires c <= f < |ds| && AllOk(ds)
    ensures var r := AfterSync(ds, c, f);
            && AllOk(r) && (forall k | 0 <= k < |ds| :: r[k].next.Some? <==> ds[k].next.Some? || c <= k < f)
            && forall k | 0 <= k < |ds| :: r[k].sums == ds[k].sums
    decreases f
  {
    hide AllOk, SyncedWith;
    if c < f {
      SyncOneFlags(ds, f);
      SyncFlags(ds[f - 1 := SyncedWith(ds[f - 1], ds[f])], c, f - 1);
    }
  }

  /** A level on the same cells as the next coarser one that has no boxes. */
  function Bare(cells: nat): CellData {
    CellData(1, [], seq(cells, _ => 0.0), None, [], [], [])
  }

  /** At least this level can be the next finer one. */
  lemma BareFits(ds: Hierarchy, l: nat)
    requires SoundFrom(ds, l) && l < |ds|
    ensures SoundFrom(ds + [Bare(|ds[|ds| - 1].current|)], l)
  {
    var n := |ds| - 1;
    var d, f := ds[n], Bare(|ds[n].current|);
    RefineIsProduct(1, |d.current|);
    assert forall i :: !Covered(f.boxes, i);
    assert Fits(d, f) && Averaged(Latest(d), f.boxes, f.ratio, Latest(f));
    var ds' := ds + [f];
    forall k | l <= k && k + 1 < |ds'|
      ensures Fits(ds'[k], ds'[k + 1])
      ensures Averaged(Latest(ds'[k]), ds'[k + 1].boxes, ds'[k + 1].ratio, Latest(ds'[k + 1]))
    {
      if k < n {
        assert ds'[k] == ds[k] && ds'[k + 1] == ds[k + 1];
      }
    }
  }

  /** The finer levels of `ds` have been replaced by `count` levels that are nested and averaged. */
  predicate IsRegrid(ds: Hierarchy, l: nat, count: nat, ds': Hierarchy)
    requires l < |ds|
  {
    && |ds'| == l + count + 1 && ds'[..l + 1] == ds[..l + 1] && SoundFrom(ds', l)
    && forall k | l < k < |ds'| :: ds'[k].next == None
  }

  /** Any number of finer levels is possible. */
  function BareFiner(ds: Hierarchy, l: nat, count: nat): (ds': Hierarchy)
    requires l < |ds|
    ensures |ds'| == l + count + 1 && ds'[..l + 1] == ds[..l + 1]
  {
    if count == 0 then ds[..l + 1]
    else
      var front := BareFiner(ds, l, count - 1);
      front + [Bare(|front[|front| - 1].current|)]
  }

  lemma {:induction false} RegridExists(ds: Hierarchy, l: nat, count: nat)
    requires l < |ds| && LevelOk(ds[l])
    ensures IsRegrid(ds, l, count, BareFiner(ds, l, count))
  {
    if count > 0 {
      var m := count - 1;
      RegridExists(ds, l, m);
      OneMoreBare(ds, l, m, BareFiner(ds, l, m), BareFiner(ds, l, count));
    }
  }

  lemma OneMoreBare(ds: Hierarchy, l: nat, m: nat, front: Hierarchy, ds': Hierarchy)
    requires l < |ds| && IsRegrid(ds, l, m, front) && ds' == front + [Bare(|front[|front| - 1].current|)]
    ensures IsRegrid(ds, l, m + 1, ds')
  {
    hide SoundFrom;
    BareFits(front, l);
    assert ds'[..l + 1] == front[..l + 1];
  }
}
