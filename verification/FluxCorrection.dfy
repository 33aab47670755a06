/** What a synchronization without flux correction does to the content of a level, and when it conserves. */
module FluxCorrection {
  import opened Wrappers
  import opened Schedule
  import opened Conservation
  import opened RunConservation

  /** The new contents of a level after synchronization without flux correction. */
  function Uncorrected(d: CellData, finer: CellData): (u: seq<real>)
    ensures |u| == |d.current|
  {
    Coarsened(Difference(d.ratio, d.boxes, d.current, d.flux), finer.boxes, finer.ratio, Latest(finer))
  }

  /** A cell of the domain that is not covered. */
  predicate Plain(d: CellData, finer: CellData, k: int) {
    0 <= k < |d.current| && !Covered(finer.boxes, k)
  }

  /** Face `j` separates a covered cell from one that is not. */
  predicate IsInterface(d: CellData, finer: CellData, j: int) {
    (Plain(d, finer, j - 1) && Covered(finer.boxes, j)) || (Covered(finer.boxes, j - 1) && Plain(d, finer, j))
  }

  /** By how much correction changes the flux at face `j`. */
  function Correction(d: CellData, finer: CellData, j: int): real {
    At(Corrected(d.flux, finer), j) - At(d.flux, j)
  }

  /** At a face between a covered and an uncovered cell, by how much the fine flux sum exceeds the coarse flux, if
      the covered cell is above the face, and the contrary if it is below. */
  function FaceMismatch(d: CellData, finer: CellData, j: nat): real {
    var c := At(finer.sums, Refine(finer.ratio, j)) - At(d.flux, j);
    if Plain(d, finer, j - 1) && Covered(finer.boxes, j) then c
    else if Covered(finer.boxes, j - 1) && Plain(d, finer, j) then -c
    else 0.0
  }

  /** The sum of the mismatches at the first `n` faces. */
  function Mismatch(d: CellData, finer: CellData, n: nat): real {
    if n == 0 then 0.0 else Mismatch(d, finer, n - 1) + FaceMismatch(d, finer, n - 1)
  }

  lemma MismatchOfFace(d: CellData, finer: CellData, j: nat)
    requires Fits(d, finer) && |d.flux| == |d.current| + 1 && j <= |d.current|
    ensures var c := Correction(d, finer, j);
            FaceMismatch(d, finer, j) ==
              (if Plain(d, finer, j - 1) then c else 0.0) - (if Plain(d, finer, j) then c else 0.0)
  {
    InDomain(d, finer);
    EndsAtCovered(finer.boxes, j);
  }

  /** By how much a cell differs without correction. */
  lemma UncorrectedCell(d: CellData, finer: CellData, k: nat)
    requires Fits(d, finer) && |d.flux| == |d.current| + 1 && k < |d.current|
    ensures var gain := if Plain(d, finer, k) then Correction(d, finer, k + 1) - Correction(d, finer, k) else 0.0;
            && Uncorrected(d, finer)[k] == SyncedContents(d, finer)[k] + gain
            && (!InRegion(d.ratio, d.boxes, k) ==> gain == 0.0)
  {
    EndsAtCovered(finer.boxes, k);
    EndsAtCovered(finer.boxes, k + 1);
    InDomain(d, finer);
  }

  lemma NoCellBelow(d: CellData, finer: CellData)
    ensures !Plain(d, finer, -1)
  {
  }

  lemma {:induction false} UncorrectedSum(d: CellData, finer: CellData, n: nat)
    requires Fits(d, finer) && |d.flux| == |d.current| + 1 && n <= |d.current|
    ensures PartSum(d.ratio, d.boxes, [], Uncorrected(d, finer), n) ==
            PartSum(d.ratio, d.boxes, [], SyncedContents(d, finer), n) + Mismatch(d, finer, n) +
            if Plain(d, finer, n - 1) then Correction(d, finer, n) else 0.0
  {
    hide Uncorrected, SyncedContents, Plain, Correction, FaceMismatch, Fits, InRegion;
    if n == 0 {
      NoCellBelow(d, finer);
    } else {
      UncorrectedSum(d, finer, n - 1);
      MismatchOfFace(d, finer, n - 1);
      UncorrectedCell(d, finer, n - 1);
    }
  }

  /** Without flux correction a level gains, in a synchronization with the next finer one, the sum of the mismatches
      at the faces between covered and uncovered cells. */
  lemma UncorrectedGains(d: CellData, finer: CellData)
    requires Fits(d, finer) && |d.flux| == |d.current| + 1
    ensures var n := |d.current|;
            PartSum(d.ratio, d.boxes, [], Uncorrected(d, finer), n) ==
            PartSum(d.ratio, d.boxes, [], SyncedContents(d, finer), n) + Mismatch(d, finer, n + 1)
  {
    UncorrectedSum(d, finer, |d.current|);
    MismatchOfFace(d, finer, |d.current|);
  }

  /** Synchronization without flux correction conserves, with these fluxes and flux sums, what it should. */
  predicate ConservesUncorrected(d: CellData, finer: CellData, flux: seq<real>, sums: seq<real>) {
    var c, f, n := d.(flux := flux), finer.(sums := sums), |d.current|;
    PartSum(d.ratio, d.boxes, [], Uncorrected(c, f), n) == PartSum(d.ratio, d.boxes, [], SyncedContents(c, f), n)
  }

  lemma {:induction false} NoMismatch(d: CellData, finer: CellData, n: nat)
    requires forall j | 0 <= j < n :: !IsInterface(d, finer, j)
    ensures Mismatch(d, finer, n) == 0.0
  {
    if n > 0 {
      NoMismatch(d, finer, n - 1);
      assert !IsInterface(d, finer, n - 1);
    }
  }

  /** No flux, and one unit in the flux sum at fine face `f`. */
  function Unit(f: nat): (sums: seq<real>)
    ensures forall j: nat :: At(sums, j) == if j == f then 1.0 else 0.0
  {
    seq(f + 1, j => if j == f then 1.0 else 0.0)
  }

  lemma RefineDiffers(ratio: nat, i: nat, j: nat)
    requires ratio > 0 && i != j
    ensures Refine(ratio, i) != Refine(ratio, j)
  {
    if i < j {
      RefineMonotone(ratio, i + 1, j);
    } else {
      RefineMonotone(ratio, j + 1, i);
    }
  }

  lemma {:induction false} UnitMismatch(d: CellData, finer: CellData, i: nat, n: nat)
    requires finer.ratio > 0 && IsInterface(d, finer, i) && (forall j: nat :: At(d.flux, j) == 0.0)
    requires finer.sums == Unit(Refine(finer.ratio, i))
    ensures Mismatch(d, finer, n) == if i < n then FaceMismatch(d, finer, i) else 0.0
    ensures FaceMismatch(d, finer, i) != 0.0
  {
    if n > 0 {
      UnitMismatch(d, finer, i, n - 1);
      if n - 1 != i {
        RefineDiffers(finer.ratio, i, n - 1);
      }
    }
  }

  lemma SameFit(d: CellData, finer: CellData, flux: seq<real>, sums: seq<real>)
    requires Fits(d, finer)
    ensures Fits(d.(flux := flux), finer.(sums := sums)) && finer.ratio > 0
  {
  }

  lemma SameInterface(d: CellData, finer: CellData, flux: seq<real>, sums: seq<real>, i: nat)
    ensures IsInterface(d.(flux := flux), finer.(sums := sums), i) == IsInterface(d, finer, i)
  {
  }

  lemma InterfaceGains(d: CellData, finer: CellData, i: nat)
    requires Fits(d, finer) && i <= |d.current| && IsInterface(d, finer, i)
    ensures !ConservesUncorrected(d, finer, seq(|d.current| + 1, _ => 0.0), Unit(Refine(finer.ratio, i)))
  {
    hide Uncorrected, SyncedContents, PartSum, Mismatch, Unit, Fits, IsInterface, FaceMismatch;
    var flux: seq<real>, sums := seq(|d.current| + 1, _ => 0.0), Unit(Refine(finer.ratio, i));
    var c, f := d.(flux := flux), finer.(sums := sums);
    SameInterface(d, finer, flux, sums, i);
    SameFit(d, finer, flux, sums);
    UncorrectedGains(c, f);
    UnitMismatch(c, f, i, |d.current| + 1);
  }

  lemma NoInterfaceConserves(d: CellData, finer: CellData, flux: seq<real>, sums: seq<real>)
    requires Fits(d, finer) && |flux| == |d.current| + 1
    requires forall j | 0 <= j <= |d.current| :: !IsInterface(d, finer, j)
    ensures ConservesUncorrected(d, finer, flux, sums)
  {
    hide Uncorrected, SyncedContents, PartSum, Mismatch;
    var c, f := d.(flux := flux), finer.(sums := sums);
    SameFit(d, finer, flux, sums);
    assert forall j | 0 <= j <= |d.current| :: IsInterface(c, f, j) == IsInterface(d, finer, j);
    UncorrectedGains(c, f);
    NoMismatch(c, f, |d.current| + 1);
  }

  /** Without flux correction, a synchronization conserves whatever the fluxes are if and only if no face separates a
      covered cell from one that is not. */
  lemma UncorrectedConservesIff(d: CellData, finer: CellData)
    requires Fits(d, finer)
    ensures (forall flux, sums | |flux| == |d.current| + 1 :: ConservesUncorrected(d, finer, flux, sums))
            <==> forall j | 0 <= j <= |d.current| :: !IsInterface(d, finer, j)
  {
    hide ConservesUncorrected, IsInterface, Fits;
    if i: nat :| i <= |d.current| && IsInterface(d, finer, i) {
      InterfaceGains(d, finer, i);
    } else {
      forall flux, sums | |flux| == |d.current| + 1
        ensures ConservesUncorrected(d, finer, flux, sums)
      {
        NoInterfaceConserves(d, finer, flux, sums);
      }
    }
  }
}
