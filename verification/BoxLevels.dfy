/** Redistribution of the boxes of one level: the box-level databases of the input files are merged into one
    output file, or the one of a single input file is split over several output files. */
module BoxLevels {
  import opened Wrappers
  import opened Renumbering

  datatype Extents = Extents(lower: seq<int>, upper: seq<int>)

  datatype MappedBox = MappedBox(localIndex: int, rank: int, periodicId: int, blockId: int, extents: Extents)

  /** The boxes of one file as they are stored: a count and five parallel arrays. */
  datatype BoxArrays = BoxArrays(size: nat, localIndices: seq<int>, ranks: seq<int>, periodicIds: seq<int>,
                                 blockIds: seq<int>, boxes: seq<Extents>)

  predicate Aligned(d: BoxArrays) {
    d.size == |d.localIndices| == |d.ranks| == |d.periodicIds| == |d.blockIds| == |d.boxes|
  }

  function BoxAt(d: BoxArrays, k: nat): MappedBox
    requires Aligned(d) && k < d.size
  {
    MappedBox(d.localIndices[k], d.ranks[k], d.periodicIds[k], d.blockIds[k], d.boxes[k])
  }

  function BoxesOf(d: BoxArrays): (bs: seq<MappedBox>)
    requires Aligned(d)
    ensures |bs| == d.size && forall k | 0 <= k < d.size :: bs[k] == BoxAt(d, k)
  {
    seq(d.size, k requires 0 <= k < d.size => BoxAt(d, k))
  }

  /** A box-level database in an output file. */
  datatype BoxLevelFile = BoxLevelFile(nproc: int, rank: int, mapped: BoxArrays)

  // ---------------------------------------------------------------- routing

  const INT_MAX: int := 0x7fff_ffff

  function MaxIndex(indices: seq<int>): (m: int)
    ensures m >= 0 && forall k | 0 <= k < |indices| :: indices[k] <= m
    ensures m == 0 || m in indices
  {
    if indices == [] then 0 else Max(MaxIndex(indices[..|indices| - 1]), indices[|indices| - 1])
  }

  function MinIndex(indices: seq<int>): (m: int)
    ensures m <= INT_MAX && forall k | 0 <= k < |indices| :: m <= indices[k]
    ensures m == INT_MAX || m in indices
  {
    if indices == [] then INT_MAX
    else if indices[|indices| - 1] < MinIndex(indices[..|indices| - 1]) then indices[|indices| - 1]
    else MinIndex(indices[..|indices| - 1])
  }

  /** Division that truncates toward zero. */
  function Quotient(a: int, b: int): int
    requires b > 0
  {
    if a >= 0 then a / b else -(-a / b)
  }

  function Cutoff(indices: seq<int>, outSize: int, j: int): int
    requires outSize > 0
  {
    MinIndex(indices) + j * Quotient(MaxIndex(indices) - MinIndex(indices), outSize)
  }

  /** The last of the first `n` outputs whose cutoff the index `x` exceeds, or the first output. */
  function OutputUpTo(indices: seq<int>, outSize: int, x: int, n: nat): (out: nat)
    requires outSize > 0
    ensures out < n || out == 0
  {
    if n <= 1 then 0
    else if x > Cutoff(indices, outSize, n - 1) then n - 1
    else OutputUpTo(indices, outSize, x, n - 1)
  }

  /** Where a box with local index `x` goes, in a file with the given local indices. */
  function OutputOf(indices: seq<int>, outSize: int, x: int): (out: nat)
    requires outSize > 0
    ensures out < outSize
  {
    OutputUpTo(indices, outSize, x, outSize)
  }

  lemma {:induction false} OutputUpToMonotone(indices: seq<int>, outSize: int, x: int, y: int, n: nat)
    requires outSize > 0 && x <= y
    ensures OutputUpTo(indices, outSize, x, n) <= OutputUpTo(indices, outSize, y, n)
  {
    if n > 1 {
      OutputUpToMonotone(indices, outSize, x, y, n - 1);
    }
  }

  /** The least and the largest index of a file, as the tool finds them, starting from INT_MAX and zero; and the
      share of each of `outSize` outputs in the range from one to the other, rounded down. */
  predicate Shares(indices: seq<int>, outSize: int, least: int, largest: int, share: int) {
    && (least in indices || least == INT_MAX) && (largest in indices || largest == 0)
    && least <= INT_MAX && largest >= 0 && (forall k | 0 <= k < |indices| :: least <= indices[k] <= largest)
    && outSize * share <= largest - least < outSize * share + outSize
  }

  /** Output `j` takes the indices of the `j`-th share, which begins above its lower bound and ends at the upper
      one; but the first output also takes the least index, and the last one all that is left. */
  predicate InShare(outSize: int, least: int, share: int, x: int, j: int) {
    && (j > 0 ==> least + j * share < x)
    && (j < outSize - 1 ==> x <= least + (j + 1) * share)
  }

  /** In a file with boxes, whose indices are what an `int` holds and not negative, they are indices of the file. */
  lemma BoundsAreAttained(indices: seq<int>)
    requires indices != [] && forall k | 0 <= k < |indices| :: 0 <= indices[k] <= INT_MAX
    ensures MinIndex(indices) in indices && MaxIndex(indices) in indices
    ensures forall k | 0 <= k < |indices| :: MinIndex(indices) <= indices[k] <= MaxIndex(indices)
  {
    assert indices[0] in indices;
  }

  lemma QuotientIsShare(range: int, outSize: int, share: int)
    requires outSize > 0 && range >= 0 && outSize * share <= range < outSize * share + outSize
    ensures Quotient(range, outSize) == share >= 0
  {
    var q := range / outSize;
    assert range == outSize * q + range % outSize;
    var d := share - q;
    assert outSize * share - outSize * q == outSize * d;
    if d > 0 {
      MulAtLeast(d, outSize);
    } else if d < 0 {
      MulAtLeast(-d, outSize);
    }
    if q < 0 {
      MulAtLeast(-q, outSize);
    }
  }

  lemma MulAtLeast(a: int, b: int)
    requires a >= 1 && b > 0
    ensures b * a >= b && b * -a <= -b
  {
    assert b * -a == -(b * a);
  }

  lemma CutoffIsShare(indices: seq<int>, outSize: int, least: int, largest: int, share: int, j: int)
    requires outSize > 0 && indices != [] && Shares(indices, outSize, least, largest, share)
    ensures Cutoff(indices, outSize, j) == least + j * share && share >= 0
  {
    assert MinIndex(indices) == least && MaxIndex(indices) == largest && least <= indices[0] <= largest;
    QuotientIsShare(largest - least, outSize, share);
  }

  /** Among the first `n` outputs the index goes to the last one whose lower bound it exceeds. */
  lemma {:induction false} LastExceeded(indices: seq<int>, outSize: int, x: int, n: nat)
    requires outSize > 0 && n > 0
    ensures var out := OutputUpTo(indices, outSize, x, n);
            && out < n && (out > 0 ==> x > Cutoff(indices, outSize, out))
            && forall j | out < j < n :: x <= Cutoff(indices, outSize, j)
  {
    hide Cutoff;
    if n > 1 && x <= Cutoff(indices, outSize, n - 1) {
      LastExceeded(indices, outSize, x, n - 1);
    }
  }

  lemma SharesGrow(share: int, i: int, j: int)
    requires share >= 0 && i <= j
    ensures i * share <= j * share
  {
  }

  /** The index goes to the output that takes it, */
  lemma SplitIntoShare(indices: seq<int>, outSize: int, least: int, largest: int, share: int, x: int)
    requires outSize > 0 && indices != [] && Shares(indices, outSize, least, largest, share)
    ensures InShare(outSize, least, share, x, OutputOf(indices, outSize, x))
  {
    hide Cutoff, Shares;
    var out := OutputOf(indices, outSize, x);
    LastExceeded(indices, outSize, x, outSize);
    CutoffIsShare(indices, outSize, least, largest, share, out);
    CutoffIsShare(indices, outSize, least, largest, share, out + 1);
  }

  /** and it is in no share above, */
  lemma NotAbove(indices: seq<int>, outSize: int, least: int, largest: int, share: int, x: int, j: int)
    requires outSize > 0 && indices != [] && Shares(indices, outSize, least, largest, share)
    requires OutputOf(indices, outSize, x) < j < outSize
    ensures x <= least + j * share
  {
    hide Cutoff, Shares;
    LastExceeded(indices, outSize, x, outSize);
    CutoffIsShare(indices, outSize, least, largest, share, j);
  }

  /** nor below. */
  lemma NotBelow(outSize: int, least: int, share: int, x: int, out: int, j: int)
    requires 0 <= j < out < outSize && share >= 0 && InShare(outSize, least, share, x, out)
    ensures !InShare(outSize, least, share, x, j)
  {
    SharesGrow(share, j + 1, out);
  }

  /** The least index goes to the first output, the largest one to the last; without shares the last output takes all
      but the least one. */
  lemma SplitAtTheEnds(outSize: int, least: int, largest: int, share: int, x: int, out: int)
    requires 0 <= out < outSize && least <= x <= largest && share >= 0 && outSize * share <= largest - least
    requires out > 0 ==> least + out * share < x
    requires out < outSize - 1 ==> x <= least + (outSize - 1) * share
    ensures x == least ==> out == 0
    ensures x == largest > least ==> out == outSize - 1
    ensures share == 0 ==> out == if x > least then outSize - 1 else 0
  {
    SharesGrow(share, 0, out);
    assert (outSize - 1) * share == outSize * share - share;
  }

  /** When a file is split, a box goes to the output in whose share of the range of indices its index is.  If the range
      is too small for shares, all boxes but those with the least index go to the last output. */
  lemma SplitByShares(indices: seq<int>, outSize: int, least: int, largest: int, share: int, k: nat)
    requires outSize > 0 && indices != [] && Shares(indices, outSize, least, largest, share) && k < |indices|
    ensures var x, out := indices[k], OutputIds(indices, outSize)[k];
            && 0 <= out < outSize
            && InShare(outSize, least, share, x, out)
            && (share > 0 ==> forall j | 0 <= j < outSize && j != out :: !InShare(outSize, least, share, x, j))
            && (share == 0 ==> out == if x > least then outSize - 1 else 0)
            && (x == least ==> out == 0)
            && (x == largest > least ==> out == outSize - 1)
  {
    hide Cutoff, OutputOf;
    var x, out := indices[k], OutputIds(indices, outSize)[k];
    CutoffIsShare(indices, outSize, least, largest, share, 0);
    SplitIntoShare(indices, outSize, least, largest, share, x);
    if out < outSize - 1 {
      NotAbove(indices, outSize, least, largest, share, x, outSize - 1);
    }
    SplitAtTheEnds(outSize, least, largest, share, x, out);
    hide InShare, Shares;
    forall j | 0 <= j < outSize && j != out && share > 0
      ensures !InShare(outSize, least, share, x, j)
    {
      if j < out {
        NotBelow(outSize, least, share, x, out, j);
      } else {
        NotAbove(indices, outSize, least, largest, share, x, j);
        ShareNeedsMore(outSize, least, share, x, j);
      }
    }
  }

  lemma ShareNeedsMore(outSize: int, least: int, share: int, x: int, j: int)
    requires j > 0 && x <= least + j * share
    ensures !InShare(outSize, least, share, x, j)
  {
  }

  /** When a file is split, its boxes are distributed in the order of their local indices: a larger index
      never goes to an earlier output, and equal indices go to the same one. */
  lemma SplitIsMonotone(indices: seq<int>, outSize: int)
    requires outSize > 0
    ensures forall a, b | 0 <= a < |indices| && 0 <= b < |indices| && indices[a] <= indices[b] ::
              OutputOf(indices, outSize, indices[a]) <= OutputOf(indices, outSize, indices[b])
  {
    forall a, b | 0 <= a < |indices| && 0 <= b < |indices| && indices[a] <= indices[b]
      ensures OutputOf(indices, outSize, indices[a]) <= OutputOf(indices, outSize, indices[b])
    {
      OutputUpToMonotone(indices, outSize, indices[a], indices[b], outSize);
    }
  }

  // ---------------------------------------------------------------- specification

  /** The output of every box of a file. */
  function OutputIds(indices: seq<int>, outSize: int): (outs: seq<nat>)
    requires outSize > 0
    ensures |outs| == |indices|
    ensures forall k | 0 <= k < |outs| :: outs[k] == OutputOf(indices, outSize, indices[k]) < outSize
  {
    seq(|indices|, k requires 0 <= k < |indices| => OutputOf(indices, outSize, indices[k]))
  }

  /** A new local index and an output for every box of a file. */
  predicate HasRoutes(d: BoxArrays, indices: seq<int>, outs: seq<nat>) {
    Aligned(d) && |indices| == |outs| == d.size
  }

  /** Box `k` of a file, as it is written: new local index, and the number of the output file as its rank. */
  function Written(d: BoxArrays, indices: seq<int>, outs: seq<nat>, firstFile: int, k: nat): MappedBox
    requires HasRoutes(d, indices, outs) && k < d.size
  {
    BoxAt(d, k).(localIndex := indices[k], rank := firstFile + outs[k])
  }

  /** Those of the first `n` boxes of a file that go to output `j`, in order. */
  function Routed(d: BoxArrays, indices: seq<int>, outs: seq<nat>, firstFile: int, j: nat, n: nat): seq<MappedBox>
    requires HasRoutes(d, indices, outs) && n <= d.size
  {
    if n == 0 then []
    else Routed(d, indices, outs, firstFile, j, n - 1) +
         if outs[n - 1] == j then [Written(d, indices, outs, firstFile, n - 1)] else []
  }

  predicate AllAligned(inputs: seq<BoxArrays>) {
    forall i | 0 <= i < |inputs| :: Aligned(inputs[i])
  }

  function IndicesOf(inputs: seq<BoxArrays>): (s: seq<seq<int>>)
    ensures |s| == |inputs| && forall i | 0 <= i < |s| :: s[i] == inputs[i].localIndices
  {
    seq(|inputs|, i requires 0 <= i < |inputs| => inputs[i].localIndices)
  }

  lemma {:induction false} MergeLengths(files: seq<seq<int>>)
    ensures forall i | 0 <= i < |files| :: |Merge(files).files[i]| == |files[i]|
  {
    if files != [] {
      var front, last, m := files[..|files| - 1], files[|files| - 1], Merge(files[..|files| - 1]);
      MergeLengths(front);
      EnterAllLength(Pool(last, m.used, m.maxUsed), Distinct(last));
      forall i | 0 <= i < |files|
        ensures |Merge(files).files[i]| == |files[i]|
      {
        if i < |front| {
          assert Merge(files).files[i] == m.files[i] && front[i] == files[i];
        }
      }
    }
  }

  lemma {:induction false} EnterAllLength(p: Pool, xs: seq<int>)
    ensures |EnterAll(p, xs).indices| == |p.indices|
    decreases |xs|
  {
    if xs != [] {
      EnterAllLength(Enter(p, xs[0]), xs[1..]);
    }
  }

  /** The new local indices of all boxes: renumbered if the files are merged, unchanged if one is split. */
  function NewIndices(inputs: seq<BoxArrays>, outSize: int): (s: seq<seq<int>>)
    ensures |s| == |inputs| && forall i | 0 <= i < |s| :: |s[i]| == |inputs[i].localIndices|
  {
    MergeLengths(IndicesOf(inputs));
    if outSize == 1 then Merge(IndicesOf(inputs)).files else IndicesOf(inputs)
  }

  function NewOutputs(inputs: seq<BoxArrays>, outSize: int): (s: seq<seq<nat>>)
    requires outSize > 0
    ensures |s| == |inputs|
    ensures forall i | 0 <= i < |s| :: s[i] == OutputIds(NewIndices(inputs, outSize)[i], outSize)
  {
    var indices := NewIndices(inputs, outSize);
    seq(|inputs|, i requires 0 <= i < |inputs| => OutputIds(indices[i], outSize))
  }

  predicate AllFit(inputs: seq<BoxArrays>, indices: seq<seq<int>>, outs: seq<seq<nat>>) {
    |indices| == |outs| == |inputs| && forall i | 0 <= i < |inputs| :: HasRoutes(inputs[i], indices[i], outs[i])
  }

  /** The boxes of the first `n` input files that go to output `j`, in order. */
  function RoutedFiles(inputs: seq<BoxArrays>, indices: seq<seq<int>>, outs: seq<seq<nat>>, firstFile: int, j: nat,
                       n: nat)
    : seq<MappedBox>
    requires AllFit(inputs, indices, outs) && n <= |inputs|
  {
    if n == 0 then []
    else RoutedFiles(inputs, indices, outs, firstFile, j, n - 1) +
         Routed(inputs[n - 1], indices[n - 1], outs[n - 1], firstFile, j, inputs[n - 1].size)
  }

  /** All boxes of output `j`. */
  function OutputBoxes(inputs: seq<BoxArrays>, outSize: int, firstFile: int, j: nat): seq<MappedBox>
    requires AllAligned(inputs) && outSize > 0
  {
    RoutedFiles(inputs, NewIndices(inputs, outSize), NewOutputs(inputs, outSize), firstFile, j, |inputs|)
  }

  // ---------------------------------------------------------------- the order of boxes in an output

  /** Box number `box` of input file number `file`. */
  datatype Origin = Origin(file: nat, box: nat)

  predicate Precedes(o: Origin, o': Origin) {
    o.file < o'.file || (o.file == o'.file && o.box < o'.box)
  }

  /** This is one of the boxes of the first `n` files, and goes to output `j`. */
  predicate GoesTo(inputs: seq<BoxArrays>, indices: seq<seq<int>>, outs: seq<seq<nat>>, j: nat, n: nat, o: Origin)
    requires AllFit(inputs, indices, outs) && n <= |inputs|
  {
    o.file < n && o.box < inputs[o.file].size && outs[o.file][o.box] == j
  }

  /** Origin `o` of box `b`. */
  predicate IsOrigin(inputs: seq<BoxArrays>, indices: seq<seq<int>>, outs: seq<seq<nat>>, firstFile: int, j: nat,
                     n: nat, o: Origin, b: MappedBox)
    requires AllFit(inputs, indices, outs) && n <= |inputs|
  {
    && GoesTo(inputs, indices, outs, j, n, o)
    && b == Written(inputs[o.file], indices[o.file], outs[o.file], firstFile, o.box)
  }

  /** The boxes `bs` come from the origins `from`, one from each; these are just the boxes of the first `n` files
      that go to output `j`, in the order of the files and, in each of them, in their order there. */
  ghost predicate InOrder(inputs: seq<BoxArrays>, indices: seq<seq<int>>, outs: seq<seq<nat>>, firstFile: int, j: nat,
                          n: nat, bs: seq<MappedBox>, from: seq<Origin>)
    requires AllFit(inputs, indices, outs) && n <= |inputs|
  {
    && |from| == |bs|
    && (forall p | 0 <= p < |bs| :: IsOrigin(inputs, indices, outs, firstFile, j, n, from[p], bs[p]))
    && (forall p, q | 0 <= p < q < |from| :: Precedes(from[p], from[q]))
    && (forall o | GoesTo(inputs, indices, outs, j, n, o) :: o in from)
  }

  /** Of the first `n` boxes of file `i`, those that go to output `j`, in their order. */
  ghost predicate FileInOrder(d: BoxArrays, indices: seq<int>, outs: seq<nat>, firstFile: int, j: nat, n: nat, i: nat,
                              bs: seq<MappedBox>, from: seq<Origin>)
    requires HasRoutes(d, indices, outs) && n <= d.size
  {
    && |from| == |bs|
    && (forall p | 0 <= p < |bs| ::
          && from[p].file == i && from[p].box < n && outs[from[p].box] == j
          && bs[p] == Written(d, indices, outs, firstFile, from[p].box))
    && (forall p, q | 0 <= p < q < |from| :: Precedes(from[p], from[q]))
    && (forall k: nat | k < n && outs[k] == j :: Origin(i, k) in from)
  }

  lemma FileInOrderNext(d: BoxArrays, indices: seq<int>, outs: seq<nat>, firstFile: int, j: nat, m: nat, n: nat, i: nat,
                        bs: seq<MappedBox>, from: seq<Origin>)
    requires HasRoutes(d, indices, outs) && n == m + 1 <= d.size
    requires FileInOrder(d, indices, outs, firstFile, j, m, i, bs, from)
    ensures outs[m] != j ==> FileInOrder(d, indices, outs, firstFile, j, n, i, bs, from)
    ensures outs[m] == j ==> FileInOrder(d, indices, outs, firstFile, j, n, i,
                                         bs + [Written(d, indices, outs, firstFile, m)], from + [Origin(i, m)])
  {
    hide Written;
    var all := from + [Origin(i, m)];
    assert all[|from|] == Origin(i, m);
    forall k: nat | k < n && outs[k] == j
      ensures Origin(i, k) in all
    {
      if k < m {
        assert Origin(i, k) in from;
      }
    }
  }

  lemma {:induction false} RoutedInOrder(d: BoxArrays, indices: seq<int>, outs: seq<nat>, firstFile: int, j: nat,
                                         n: nat, i: nat)
    returns (from: seq<Origin>)
    requires HasRoutes(d, indices, outs) && n <= d.size
    ensures FileInOrder(d, indices, outs, firstFile, j, n, i, Routed(d, indices, outs, firstFile, j, n), from)
    decreases n
  {
    from := [];
    if n > 0 {
      hide FileInOrder;
      var m := n - 1;
      var bs := Routed(d, indices, outs, firstFile, j, m);
      from := RoutedInOrder(d, indices, outs, firstFile, j, m, i);
      FileInOrderNext(d, indices, outs, firstFile, j, m, n, i, bs, from);
      if outs[m] == j {
        from := from + [Origin(i, m)];
      } else {
        assert bs + [] == bs;
      }
    }
  }

  /** One file more: all boxes that go to output `j`, */
  lemma AllFromNext(inputs: seq<BoxArrays>, indices: seq<seq<int>>, outs: seq<seq<nat>>, j: nat, m: nat, n: nat,
                    from: seq<Origin>, last: seq<Origin>)
    requires AllFit(inputs, indices, outs) && n == m + 1 <= |inputs|
    requires forall o | GoesTo(inputs, indices, outs, j, m, o) :: o in from
    requires forall k: nat | k < inputs[m].size && outs[m][k] == j :: Origin(m, k) in last
    ensures forall o | GoesTo(inputs, indices, outs, j, n, o) :: o in from + last
  {
    forall o | GoesTo(inputs, indices, outs, j, n, o)
      ensures o in from + last
    {
      if o.file == m {
        assert o == Origin(m, o.box) && o in last;
      } else {
        assert GoesTo(inputs, indices, outs, j, m, o);
      }
    }
  }

  /** in order. */
  lemma OrderNext(from: seq<Origin>, last: seq<Origin>, m: nat)
    requires forall p | 0 <= p < |from| :: from[p].file < m
    requires forall p | 0 <= p < |last| :: last[p].file == m
    requires forall p, q | 0 <= p < q < |from| :: Precedes(from[p], from[q])
    requires forall p, q | 0 <= p < q < |last| :: Precedes(last[p], last[q])
    ensures forall p, q | 0 <= p < q < |from + last| :: Precedes((from + last)[p], (from + last)[q])
  {
  }

  lemma OriginsNext(inputs: seq<BoxArrays>, indices: seq<seq<int>>, outs: seq<seq<nat>>, firstFile: int, j: nat,
                    m: nat, n: nat, o: Origin, b: MappedBox)
    requires AllFit(inputs, indices, outs) && n == m + 1 <= |inputs|
    requires IsOrigin(inputs, indices, outs, firstFile, j, m, o, b)
    ensures IsOrigin(inputs, indices, outs, firstFile, j, n, o, b) && o.file < m
  {
  }

  lemma OriginsOfFile(inputs: seq<BoxArrays>, indices: seq<seq<int>>, outs: seq<seq<nat>>, firstFile: int, j: nat,
                      m: nat, n: nat, last: seq<MappedBox>, from: seq<Origin>)
    requires AllFit(inputs, indices, outs) && n == m + 1 <= |inputs|
    requires FileInOrder(inputs[m], indices[m], outs[m], firstFile, j, inputs[m].size, m, last, from)
    ensures forall p | 0 <= p < |last| ::
              IsOrigin(inputs, indices, outs, firstFile, j, n, from[p], last[p]) && from[p].file == m
  {
    hide Written, Precedes, HasRoutes;
  }

  lemma InOrderNext(inputs: seq<BoxArrays>, indices: seq<seq<int>>, outs: seq<seq<nat>>, firstFile: int, j: nat,
                    m: nat, n: nat, bs: seq<MappedBox>, from: seq<Origin>, last: seq<MappedBox>, lastFrom: seq<Origin>)
    requires AllFit(inputs, indices, outs) && n == m + 1 <= |inputs|
    requires InOrder(inputs, indices, outs, firstFile, j, m, bs, from)
    requires FileInOrder(inputs[m], indices[m], outs[m], firstFile, j, inputs[m].size, m, last, lastFrom)
    ensures InOrder(inputs, indices, outs, firstFile, j, n, bs + last, from + lastFrom)
  {
    hide Written, Precedes, GoesTo, IsOrigin, HasRoutes, AllFit;
    AllFromNext(inputs, indices, outs, j, m, n, from, lastFrom);
    OriginsOfFile(inputs, indices, outs, firstFile, j, m, n, last, lastFrom);
    forall p | 0 <= p < |from|
      ensures IsOrigin(inputs, indices, outs, firstFile, j, n, from[p], bs[p]) && from[p].file < m
    {
      OriginsNext(inputs, indices, outs, firstFile, j, m, n, from[p], bs[p]);
    }
    OrderNext(from, lastFrom, m);
  }

  /** An output holds just the boxes that go there, each once, in the order of the files and of the boxes in them. */
  lemma {:induction false} OutputInOrder(inputs: seq<BoxArrays>, indices: seq<seq<int>>, outs: seq<seq<nat>>,
                                         firstFile: int, j: nat, n: nat)
    returns (from: seq<Origin>)
    requires AllFit(inputs, indices, outs) && n <= |inputs|
    ensures InOrder(inputs, indices, outs, firstFile, j, n, RoutedFiles(inputs, indices, outs, firstFile, j, n), from)
    decreases n
  {
    from := [];
    if n > 0 {
      hide InOrder, FileInOrder;
      var m := n - 1;
      from := OutputInOrder(inputs, indices, outs, firstFile, j, m);
      var last := RoutedInOrder(inputs[m], indices[m], outs[m], firstFile, j, inputs[m].size, m);
      InOrderNext(inputs, indices, outs, firstFile, j, m, n, RoutedFiles(inputs, indices, outs, firstFile, j, m), from,
                  Routed(inputs[m], indices[m], outs[m], firstFile, j, inputs[m].size), last);
      from := from + last;
    }
  }

  // ---------------------------------------------------------------- nothing is lost or duplicated

  /** What must not change about a box. */
  datatype Payload = Payload(periodicId: int, blockId: int, extents: Extents)

  function PayloadOf(b: MappedBox): Payload {
    Payload(b.periodicId, b.blockId, b.extents)
  }

  /** How often payload `p` occurs among the boxes. */
  function Count(bs: seq<MappedBox>, p: Payload): nat {
    if bs == [] then 0 else Count(bs[..|bs| - 1], p) + if PayloadOf(bs[|bs| - 1]) == p then 1 else 0
  }

  lemma {:induction false} CountConcat(a: seq<MappedBox>, b: seq<MappedBox>, p: Payload)
    ensures Count(a + b, p) == Count(a, p) + Count(b, p)
  {
    if b == [] {
      assert a + b == a;
    } else {
      assert (a + b)[..|a + b| - 1] == a + b[..|b| - 1];
      CountConcat(a, b[..|b| - 1], p);
    }
  }

  lemma CountOne(a: seq<MappedBox>, b: MappedBox, p: Payload)
    ensures Count(a + [b], p) == Count(a, p) + if PayloadOf(b) == p then 1 else 0
  {
    assert (a + [b])[..|a|] == a;
  }

  /** The sum of some counts. */
  function Total(counts: seq<nat>): nat {
    if counts == [] then 0 else Total(counts[..|counts| - 1]) + counts[|counts| - 1]
  }

  lemma {:induction false} TotalOfSums(a: seq<nat>, b: seq<nat>, c: seq<nat>)
    requires |a| == |b| == |c| && forall j | 0 <= j < |c| :: c[j] == a[j] + b[j]
    ensures Total(c) == Total(a) + Total(b)
  {
    if c != [] {
      var n := |c| - 1;
      TotalOfSums(a[..n], b[..n], c[..n]);
    }
  }

  lemma {:induction false} TotalOfOne(a: seq<nat>, x: nat, one: nat)
    requires forall j | 0 <= j < |a| :: a[j] == if j == x then one else 0
    ensures Total(a) == if x < |a| then one else 0
  {
    if a != [] {
      TotalOfOne(a[..|a| - 1], x, one);
    }
  }

  lemma {:induction false} TotalConcat(a: seq<nat>, b: seq<nat>)
    ensures Total(a + b) == Total(a) + Total(b)
  {
    if b == [] {
      assert a + b == a;
    } else {
      assert (a + b)[..|a + b| - 1] == a + b[..|b| - 1];
      TotalConcat(a, b[..|b| - 1]);
    }
  }

  /** How often `p` occurs, for each output, among those of the first `n` boxes of a file that go there. */
  function RoutedCounts(d: BoxArrays, indices: seq<int>, outs: seq<nat>, firstFile: int, outSize: nat, n: nat,
                        p: Payload)
    : (c: seq<nat>)
    requires HasRoutes(d, indices, outs) && n <= d.size
    ensures |c| == outSize && forall j | 0 <= j < outSize :: c[j] == Count(Routed(d, indices, outs, firstFile, j, n), p)
  {
    seq<nat>(outSize, j requires 0 <= j < outSize => Count(Routed(d, indices, outs, firstFile, j, n), p))
  }

  lemma RoutedStep(d: BoxArrays, indices: seq<int>, outs: seq<nat>, firstFile: int, j: nat, n: nat, p: Payload)
    requires HasRoutes(d, indices, outs) && n < d.size
    ensures Count(Routed(d, indices, outs, firstFile, j, n + 1), p) ==
            Count(Routed(d, indices, outs, firstFile, j, n), p) +
            if j == outs[n] && PayloadOf(BoxAt(d, n)) == p then 1 else 0
  {
    var front := Routed(d, indices, outs, firstFile, j, n);
    if outs[n] == j {
      CountOne(front, Written(d, indices, outs, firstFile, n), p);
    } else {
      assert front + [] == front;
    }
  }

  /** Box `n` goes to exactly one output. */
  lemma BoxRouted(d: BoxArrays, indices: seq<int>, outs: seq<nat>, firstFile: int, outSize: nat, n: nat, m: nat,
                  p: Payload)
    requires HasRoutes(d, indices, outs) && n < d.size && outs[n] < outSize && m == n + 1
    ensures Total(RoutedCounts(d, indices, outs, firstFile, outSize, m, p)) ==
            Total(RoutedCounts(d, indices, outs, firstFile, outSize, n, p)) +
            if PayloadOf(BoxAt(d, n)) == p then 1 else 0
  {
    var one: nat := if PayloadOf(BoxAt(d, n)) == p then 1 else 0;
    var before := RoutedCounts(d, indices, outs, firstFile, outSize, n, p);
    var after := RoutedCounts(d, indices, outs, firstFile, outSize, m, p);
    var gain: seq<nat> := seq(outSize, j => if j == outs[n] then one else 0);
    forall j | 0 <= j < outSize
      ensures after[j] == before[j] + gain[j]
    {
      RoutedStep(d, indices, outs, firstFile, j, n, p);
    }
    TotalOfSums(before, gain, after);
    TotalOfOne(gain, outs[n], one);
  }

  lemma CountNext(d: BoxArrays, n: nat, m: nat, p: Payload)
    requires Aligned(d) && n < d.size && m == n + 1
    ensures Count(BoxesOf(d)[..m], p) == Count(BoxesOf(d)[..n], p) + if PayloadOf(BoxAt(d, n)) == p then 1 else 0
  {
    assert BoxesOf(d)[..m] == BoxesOf(d)[..n] + [BoxAt(d, n)];
    CountOne(BoxesOf(d)[..n], BoxAt(d, n), p);
  }

  /** Every box of a file goes to exactly one output. */
  lemma {:induction false} RoutedAll(d: BoxArrays, indices: seq<int>, outs: seq<nat>, firstFile: int, outSize: nat,
                                     n: nat, p: Payload)
    requires HasRoutes(d, indices, outs) && n <= d.size && forall k | 0 <= k < d.size :: outs[k] < outSize
    ensures Total(RoutedCounts(d, indices, outs, firstFile, outSize, n, p)) == Count(BoxesOf(d)[..n], p)
  {
    if n == 0 {
      TotalOfOne(RoutedCounts(d, indices, outs, firstFile, outSize, 0, p), outSize, 0);
    } else {
      var m := n - 1;
      RoutedAll(d, indices, outs, firstFile, outSize, m, p);
      BoxRouted(d, indices, outs, firstFile, outSize, m, n, p);
      CountNext(d, m, n, p);
    }
  }

  /** How often `p` occurs in the first `n` input files. */
  function InputCount(inputs: seq<BoxArrays>, n: nat, p: Payload): nat
    requires AllAligned(inputs) && n <= |inputs|
  {
    if n == 0 then 0 else InputCount(inputs, n - 1, p) + Count(BoxesOf(inputs[n - 1]), p)
  }

  lemma InputCountNext(inputs: seq<BoxArrays>, n: nat, m: nat, p: Payload)
    requires AllAligned(inputs) && n < |inputs| && m == n + 1
    ensures InputCount(inputs, m, p) == InputCount(inputs, n, p) + Count(BoxesOf(inputs[n]), p)
  {
  }

  /** How often `p` occurs, for each output, among the boxes of the first `n` files that go there. */
  function FilesCounts(inputs: seq<BoxArrays>, indices: seq<seq<int>>, outs: seq<seq<nat>>, firstFile: int,
                       outSize: nat,
                       n: nat, p: Payload): (c: seq<nat>)
    requires AllFit(inputs, indices, outs) && n <= |inputs|
    ensures |c| == outSize
    ensures forall j | 0 <= j < outSize :: c[j] == Count(RoutedFiles(inputs, indices, outs, firstFile, j, n), p)
  {
    seq<nat>(outSize, j requires 0 <= j < outSize => Count(RoutedFiles(inputs, indices, outs, firstFile, j, n), p))
  }

  /** The boxes of input file `n` go to the outputs. */
  lemma FileRouted(inputs: seq<BoxArrays>, indices: seq<seq<int>>, outs: seq<seq<nat>>, firstFile: int, outSize: nat,
                   n: nat, m: nat, p: Payload)
    requires AllFit(inputs, indices, outs) && n < |inputs| && AllBelow(outs[n], outSize) && m == n + 1
    ensures Total(FilesCounts(inputs, indices, outs, firstFile, outSize, m, p)) ==
            Total(FilesCounts(inputs, indices, outs, firstFile, outSize, n, p)) + Count(BoxesOf(inputs[n]), p)
  {
    var d, before := inputs[n], FilesCounts(inputs, indices, outs, firstFile, outSize, n, p);
    var gain := RoutedCounts(d, indices[n], outs[n], firstFile, outSize, d.size, p);
    var after := FilesCounts(inputs, indices, outs, firstFile, outSize, m, p);
    forall j | 0 <= j < outSize
      ensures after[j] == before[j] + gain[j]
    {
      CountConcat(RoutedFiles(inputs, indices, outs, firstFile, j, n),
                  Routed(d, indices[n], outs[n], firstFile, j, d.size), p);
    }
    TotalOfSums(before, gain, after);
    RoutedAll(d, indices[n], outs[n], firstFile, outSize, d.size, p);
    assert BoxesOf(d)[..d.size] == BoxesOf(d);
  }

  lemma NothingRouted(inputs: seq<BoxArrays>, indices: seq<seq<int>>, outs: seq<seq<nat>>, firstFile: int,
                      outSize: nat, p: Payload)
    requires AllFit(inputs, indices, outs)
    ensures Total(FilesCounts(inputs, indices, outs, firstFile, outSize, 0, p)) == 0
  {
    TotalOfOne(FilesCounts(inputs, indices, outs, firstFile, outSize, 0, p), outSize, 0);
  }

  predicate AllBelow(outs: seq<nat>, outSize: nat) {
    forall k | 0 <= k < |outs| :: outs[k] < outSize
  }

  /** Every box of the first `n` files goes to exactly one output. */
  lemma {:induction false} FilesAll(inputs: seq<BoxArrays>, indices: seq<seq<int>>, outs: seq<seq<nat>>, firstFile: int,
                                    outSize: nat, n: nat, p: Payload)
    requires AllFit(inputs, indices, outs) && n <= |inputs| && forall i | 0 <= i < |outs| :: AllBelow(outs[i], outSize)
    ensures Total(FilesCounts(inputs, indices, outs, firstFile, outSize, n, p)) == InputCount(inputs, n, p)
    decreases n
  {
    if n == 0 {
      NothingRouted(inputs, indices, outs, firstFile, outSize, p);
    } else {
      var m := n - 1;
      FilesAll(inputs, indices, outs, firstFile, outSize, m, p);
      FileRouted(inputs, indices, outs, firstFile, outSize, m, n, p);
      InputCountNext(inputs, m, n, p);
    }
  }

  /** How often `p` occurs in each output of one redistribution. */
  function OutputCounts(inputs: seq<BoxArrays>, outSize: nat, firstFile: int, p: Payload): (c: seq<nat>)
    requires AllAligned(inputs) && outSize > 0
    ensures |c| == outSize && forall j | 0 <= j < outSize ::
              c[j] == Count(OutputBoxes(inputs, outSize, firstFile, j), p)
  {
    seq<nat>(outSize, j requires 0 <= j < outSize => Count(OutputBoxes(inputs, outSize, firstFile, j), p))
  }

  /** Merging or splitting loses no box, duplicates none, and changes neither its periodic id, its block nor
      its extents: what a box carries occurs as often in the outputs as in the inputs. */
  lemma BoxesAreConserved(inputs: seq<BoxArrays>, outSize: nat, firstFile: int, p: Payload)
    requires AllAligned(inputs) && outSize > 0
    ensures Total(OutputCounts(inputs, outSize, firstFile, p)) == InputCount(inputs, |inputs|, p)
  {
    var indices, outs := NewIndices(inputs, outSize), NewOutputs(inputs, outSize);
    FilesAll(inputs, indices, outs, firstFile, outSize, |inputs|, p);
    assert OutputCounts(inputs, outSize, firstFile, p) ==
           FilesCounts(inputs, indices, outs, firstFile, outSize, |inputs|, p);
  }

  // ---------------------------------------------------------------- the loops of the tool

  /** Lists the different indices of a file. */
  method ListIndices(localIndices: seq<int>) returns (newIndices: seq<int>)
    ensures newIndices == Distinct(localIndices)
  {
    newIndices := [];
    var k := 0;
    while k < |localIndices|
      invariant 0 <= k <= |localIndices|
      invariant newIndices == Distinct(localIndices[..k])
    {
      assert localIndices[..k + 1][..k] == localIndices[..k];
      if localIndices[k] !in newIndices {
        newIndices := [localIndices[k]] + newIndices;
      }
      k := k + 1;
    }
    assert localIndices[..|localIndices|] == localIndices;
  }

  /** Nothing has been used yet: all indices are kept. */
  method UseIndices(newIndices: seq<int>, maxUsed: int, ghost indices: seq<int>)
    returns (used': seq<int>, maxUsed': int)
    requires forall i, j | 0 <= i < j < |newIndices| :: newIndices[i] != newIndices[j]
    ensures EnterAll(Pool(indices, [], maxUsed), newIndices) == Pool(indices, used', maxUsed')
  {
    used', maxUsed' := [], maxUsed;
    var n := 0;
    while n < |newIndices|
      invariant 0 <= n <= |newIndices|
      invariant forall k | n <= k < |newIndices| :: newIndices[k] !in used'
      invariant EnterAll(Pool(indices, used', maxUsed'), newIndices[n..]) ==
                EnterAll(Pool(indices, [], maxUsed), newIndices)
    {
      EnterNext(Pool(indices, used', maxUsed'), newIndices, n);
      used' := [newIndices[n]] + used';
      maxUsed' := Max(maxUsed', newIndices[n]);
      n := n + 1;
    }
  }

  /** Enters one index more. */
  lemma EnterNext(p: Pool, xs: seq<int>, n: nat)
    requires n < |xs|
    ensures EnterAll(p, xs[n..]) == EnterAll(Enter(p, xs[n]), xs[n + 1..])
  {
    assert xs[n..][1..] == xs[n + 1..];
  }

  /** The renumbering loop for the boxes of one more input file. */
  method RenumberBoxes(localIndices: seq<int>, used: seq<int>, maxUsed: int)
    returns (indices: seq<int>, used': seq<int>, maxUsed': int)
    ensures Pool(indices, used', maxUsed') == Renumber(localIndices, used, maxUsed)
  {
    indices, used', maxUsed' := localIndices, used, maxUsed;
    var newIndices := ListIndices(localIndices);
    if |used'| == 0 {
      used', maxUsed' := UseIndices(newIndices, maxUsed, localIndices);
    } else {
      var n := 0;
      while n < |newIndices|
        invariant 0 <= n <= |newIndices|
        invariant EnterAll(Pool(indices, used', maxUsed'), newIndices[n..]) == Renumber(localIndices, used, maxUsed)
      {
        EnterNext(Pool(indices, used', maxUsed'), newIndices, n);
        if newIndices[n] in used' {
          var newValue := maxUsed' + 1;
          indices := ReplaceAll(indices, newIndices[n], newValue);
          used' := [newValue] + used';
          maxUsed' := newValue;
        } else {
          used' := [newIndices[n]] + used';
          maxUsed' := Max(maxUsed', newIndices[n]);
        }
        n := n + 1;
      }
    }
  }

  method ReplaceAll(indices: seq<int>, x: int, y: int) returns (r: seq<int>)
    ensures r == Replace(indices, x, y)
  {
    r := indices;
    var a := 0;
    while a < |indices|
      invariant 0 <= a <= |indices| == |r|
      invariant forall b | 0 <= b < |indices| :: r[b] == if b < a && indices[b] == x then y else indices[b]
    {
      if r[a] == x {
        r := r[a := y];
      }
      a := a + 1;
    }
  }

  method IndexBounds(localIndices: seq<int>) returns (minLocalIndices: int, maxLocalIndices: int)
    ensures minLocalIndices == MinIndex(localIndices) && maxLocalIndices == MaxIndex(localIndices)
  {
    maxLocalIndices, minLocalIndices := 0, INT_MAX;
    var j := 0;
    while j < |localIndices|
      invariant 0 <= j <= |localIndices|
      invariant maxLocalIndices == MaxIndex(localIndices[..j])
      invariant minLocalIndices == MinIndex(localIndices[..j])
    {
      assert localIndices[..j + 1][..j] == localIndices[..j];
      maxLocalIndices := Max(maxLocalIndices, localIndices[j]);
      minLocalIndices := if localIndices[j] < minLocalIndices then localIndices[j] else minLocalIndices;
      j := j + 1;
    }
    assert localIndices[..|localIndices|] == localIndices;
  }

  /** The output of one box, by the cutoffs of all outputs. */
  method ChooseOutput(x: int, cutoff: seq<int>, ghost indices: seq<int>) returns (id: nat)
    requires |cutoff| > 0
    requires forall a | 0 <= a < |cutoff| :: cutoff[a] == Cutoff(indices, |cutoff|, a)
    ensures id == OutputOf(indices, |cutoff|, x)
  {
    id := 0;
    var a := 1;
    while a < |cutoff|
      invariant 1 <= a <= |cutoff|
      invariant id == OutputUpTo(indices, |cutoff|, x, a)
    {
      if x > cutoff[a] {
        id := a;
      }
      a := a + 1;
    }
  }

  /** The cutoff loop: the output of every box. */
  method ComputeOutputIds(localIndices: seq<int>, outSize: nat) returns (outputIds: seq<nat>)
    requires outSize > 0
    ensures outputIds == OutputIds(localIndices, outSize)
  {
    var minLocalIndices, maxLocalIndices := IndexBounds(localIndices);
    var indicesRange := maxLocalIndices - minLocalIndices;
    var share := Quotient(indicesRange, outSize);
    var cutoff: seq<int> := seq(outSize, a => minLocalIndices + a * share);
    outputIds := [];
    var k := 0;
    while k < |localIndices|
      invariant 0 <= k <= |localIndices| && |outputIds| == k
      invariant forall a | 0 <= a < k :: outputIds[a] == OutputOf(localIndices, outSize, localIndices[a])
    {
      var id := ChooseOutput(localIndices[k], cutoff, localIndices);
      outputIds := outputIds + [id];
      k := k + 1;
    }
  }

  function Push(d: BoxArrays, b: MappedBox): (d': BoxArrays)
    requires Aligned(d)
    ensures Aligned(d') && BoxesOf(d') == BoxesOf(d) + [b]
  {
    BoxArrays(d.size + 1, d.localIndices + [b.localIndex], d.ranks + [b.rank], d.periodicIds + [b.periodicId],
              d.blockIds + [b.blockId], d.boxes + [b.extents])
  }

  /** Appends those boxes of one input file that go to output `j`. */
  method AppendRouted(d: BoxArrays, indices: seq<int>, outputIds: seq<nat>, firstFile: int, j: nat, out: BoxArrays)
    returns (out': BoxArrays)
    requires HasRoutes(d, indices, outputIds) && Aligned(out)
    ensures Aligned(out')
    ensures BoxesOf(out') == BoxesOf(out) + Routed(d, indices, outputIds, firstFile, j, d.size)
  {
    out' := out;
    var k := 0;
    while k < d.size
      invariant 0 <= k <= d.size && Aligned(out')
      invariant BoxesOf(out') == BoxesOf(out) + Routed(d, indices, outputIds, firstFile, j, k)
    {
      if outputIds[k] == j {
        var outputRank := firstFile + outputIds[k];
        out' := Push(out', MappedBox(indices[k], outputRank, d.periodicIds[k], d.blockIds[k], d.boxes[k]));
      }
      k := k + 1;
    }
  }

  /** An output file that holds the given boxes and names itself `rank`. */
  predicate FileHolds(f: BoxLevelFile, nproc: int, rank: int, boxes: seq<MappedBox>) {
    f.nproc == nproc && f.rank == rank && Aligned(f.mapped) && BoxesOf(f.mapped) == boxes
  }

  /** Appends the boxes of input file `i` to the outputs they go to. */
  method RouteFile(inputs: seq<BoxArrays>, ghost indices: seq<seq<int>>, ghost outs: seq<seq<nat>>, i: nat,
                   localIndices: seq<int>, outputIds: seq<nat>, firstFile: int, nproc: int, files: seq<BoxLevelFile>)
    returns (files': seq<BoxLevelFile>)
    requires AllFit(inputs, indices, outs) && i < |inputs|
    requires localIndices == indices[i] && outputIds == outs[i]
    requires forall j | 0 <= j < |files| ::
               FileHolds(files[j], nproc, firstFile + j, RoutedFiles(inputs, indices, outs, firstFile, j, i))
    ensures |files'| == |files|
    ensures forall j | 0 <= j < |files'| ::
              FileHolds(files'[j], nproc, firstFile + j, RoutedFiles(inputs, indices, outs, firstFile, j, i + 1))
  {
    files' := files;
    var j := 0;
    while j < |files|
      invariant 0 <= j <= |files| == |files'|
      invariant forall k | j <= k < |files| :: files'[k] == files[k]
      invariant forall k | 0 <= k < j ::
                  FileHolds(files'[k], nproc, firstFile + k, RoutedFiles(inputs, indices, outs, firstFile, k, i + 1))
    {
      var out := AppendRouted(inputs[i], localIndices, outputIds, firstFile, j, files[j].mapped);
      files' := files'[j := files[j].(mapped := out)];
      j := j + 1;
    }
  }

  /** The state of the renumbering when the first `i` input files have been merged. */
  ghost predicate MergedSoFar(inputs: seq<BoxArrays>, outSize: nat, i: nat, used: seq<int>, maxUsed: int)
    requires i <= |inputs|
  {
    outSize == 1 ==> used == Merge(IndicesOf(inputs)[..i]).used && maxUsed == Merge(IndicesOf(inputs)[..i]).maxUsed
  }

  /** The new local indices of input file `i`. */
  method NextIndices(inputs: seq<BoxArrays>, outSize: nat, i: nat, used: seq<int>, maxUsed: int)
    returns (localIndices: seq<int>, used': seq<int>, maxUsed': int)
    requires i < |inputs| && MergedSoFar(inputs, outSize, i, used, maxUsed)
    ensures localIndices == NewIndices(inputs, outSize)[i]
    ensures MergedSoFar(inputs, outSize, i + 1, used', maxUsed')
  {
    localIndices, used', maxUsed' := inputs[i].localIndices, used, maxUsed;
    if outSize == 1 {
      MergedIndices(inputs, i);
      localIndices, used', maxUsed' := RenumberBoxes(localIndices, used, maxUsed);
    }
  }

  /** The state of the box loop when the first `i` input files are done. */
  ghost predicate BoxProgress(inputs: seq<BoxArrays>, outSize: nat, firstFile: int, nproc: int, i: nat, used: seq<int>,
                              maxUsed: int, files: seq<BoxLevelFile>)
  {
    && AllAligned(inputs) && i <= |inputs| && outSize > 0 && |files| == outSize
    && MergedSoFar(inputs, outSize, i, used, maxUsed)
    && forall j | 0 <= j < outSize :: FileHolds(files[j], nproc, firstFile + j,
         RoutedFiles(inputs, NewIndices(inputs, outSize), NewOutputs(inputs, outSize), firstFile, j, i))
  }

  function NoBoxes(outSize: nat, firstFile: int, nproc: int): (files: seq<BoxLevelFile>)
    ensures |files| == outSize && forall j | 0 <= j < outSize :: FileHolds(files[j], nproc, firstFile + j, [])
  {
    seq(outSize, j => BoxLevelFile(nproc, firstFile + j, BoxArrays(0, [], [], [], [], [])))
  }

  lemma BoxProgressStarts(inputs: seq<BoxArrays>, outSize: nat, firstFile: int, nproc: int)
    requires AllAligned(inputs) && outSize > 0
    ensures BoxProgress(inputs, outSize, firstFile, nproc, 0, [], 0, NoBoxes(outSize, firstFile, nproc))
  {
    assert IndicesOf(inputs)[..0] == [];
  }

  /** Renumbers and routes the boxes of input file `i`. */
  method RedistributeBoxes(inputs: seq<BoxArrays>, outSize: nat, firstFile: int, nproc: int, i: nat, used: seq<int>,
                           maxUsed: int, files: seq<BoxLevelFile>)
    returns (used': seq<int>, maxUsed': int, files': seq<BoxLevelFile>)
    requires BoxProgress(inputs, outSize, firstFile, nproc, i, used, maxUsed, files) && i < |inputs|
    ensures BoxProgress(inputs, outSize, firstFile, nproc, i + 1, used', maxUsed', files')
  {
    var localIndices;
    localIndices, used', maxUsed' := NextIndices(inputs, outSize, i, used, maxUsed);
    var outputIds := ComputeOutputIds(localIndices, outSize);
    files' := RouteFile(inputs, NewIndices(inputs, outSize), NewOutputs(inputs, outSize), i, localIndices, outputIds,
                        firstFile, nproc, files);
  }

  /** Redistributes the box level of the input files over `outSize` output files, the first of which has
      number `firstFile`. */
  method ReadAndWriteBoxLevel(inputs: seq<BoxArrays>, outSize: nat, firstFile: int, totalOutputFiles: int)
    returns (files: seq<BoxLevelFile>)
    requires AllAligned(inputs) && 1 <= |inputs| && 1 <= outSize && (|inputs| == 1 || outSize == 1)
    ensures |files| == outSize
    ensures forall j | 0 <= j < outSize ::
              FileHolds(files[j], totalOutputFiles, firstFile + j, OutputBoxes(inputs, outSize, firstFile, j))
  {
    files := NoBoxes(outSize, firstFile, totalOutputFiles);
    var used, maxUsed := [], 0;
    BoxProgressStarts(inputs, outSize, firstFile, totalOutputFiles);
    var i := 0;
    while i < |inputs|
      invariant 0 <= i <= |inputs|
      invariant BoxProgress(inputs, outSize, firstFile, totalOutputFiles, i, used, maxUsed, files)
    {
      used, maxUsed, files := RedistributeBoxes(inputs, outSize, firstFile, totalOutputFiles, i, used, maxUsed, files);
      i := i + 1;
    }
  }

  lemma MergedIndices(inputs: seq<BoxArrays>, i: nat)
    requires i < |inputs|
    ensures var m := Merge(IndicesOf(inputs)[..i]);
            var p := Renumber(inputs[i].localIndices, m.used, m.maxUsed);
            && p.indices == NewIndices(inputs, 1)[i]
            && p.used == Merge(IndicesOf(inputs)[..i + 1]).used
            && p.maxUsed == Merge(IndicesOf(inputs)[..i + 1]).maxUsed
  {
    var files := IndicesOf(inputs);
    MergePrefix(files, i + 1);
    assert files[..i + 1][..i] == files[..i];
    assert Merge(files).files[i] == Merge(files).files[..i + 1][i];
  }
}