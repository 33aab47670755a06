/** Redistribution of the patches of one level, and its agreement with the redistribution of the boxes. */
module PatchLevels {
  import opened Wrappers
  import opened Renumbering
  import opened BoxLevels

  /** A patch database is found under its local index and its block. */
  datatype PatchName = PatchName(number: int, block: int)

  /** A patch database: its owner, and everything else that is stored in it. */
  datatype Patch = Patch(owner: int, data: int)

  datatype LevelFile = LevelFile(boxes: BoxArrays, patches: map<PatchName, Patch>)

  datatype OutputLevel = OutputLevel(patches: map<PatchName, Patch>, boxLevel: BoxLevelFile)

  // ---------------------------------------------------------------- first occurrences

  /** The positions where an index occurs for the first time, the last such position first. */
  function FirstPositions(s: seq<int>): (f: seq<nat>)
    ensures forall n | 0 <= n < |f| :: f[n] < |s|
  {
    if s == [] then []
    else if s[|s| - 1] in s[..|s| - 1] then FirstPositions(s[..|s| - 1])
    else [|s| - 1] + FirstPositions(s[..|s| - 1])
  }

  /** These are just the first positions, in reverse order. */
  lemma {:induction false} FirstPositionsAreFirst(s: seq<int>)
    ensures forall a, b | 0 <= a < b < |FirstPositions(s)| :: FirstPositions(s)[a] > FirstPositions(s)[b]
    ensures forall k :: k in FirstPositions(s) <==> OccursFirst(s, k)
  {
    if s != [] {
      var t := s[..|s| - 1];
      FirstPositionsAreFirst(t);
      forall k: nat
        ensures OccursFirst(s, k) <==> OccursFirst(t, k) || (k == |s| - 1 && s[k] !in t)
      {
        assert forall c | 0 <= c < |t| :: t[c] == s[c];
      }
    }
  }

  function Pick(s: seq<int>, f: seq<nat>): (r: seq<int>)
    requires forall n | 0 <= n < |f| :: f[n] < |s|
    ensures |r| == |f| && forall n | 0 <= n < |f| :: r[n] == s[f[n]]
  {
    seq(|f|, n requires 0 <= n < |f| => s[f[n]])
  }

  lemma {:induction false} DistinctIsPick(s: seq<int>)
    ensures Distinct(s) == Pick(s, FirstPositions(s))
  {
    if s != [] {
      var t := s[..|s| - 1];
      DistinctIsPick(t);
      assert Pick(s, FirstPositions(t)) == Pick(t, FirstPositions(t));
    }
  }

  /** If the boxes keep apart, the same boxes are the first ones with their index before and after. */
  lemma {:induction false} SameFirstPositions(s: seq<int>, t: seq<int>)
    requires KeepsApart(s, t)
    ensures FirstPositions(s) == FirstPositions(t)
  {
    if s != [] {
      var n := |s| - 1;
      SameFirstPositions(s[..n], t[..n]);
      if s[n] in s[..n] {
        var a :| 0 <= a < n && s[..n][a] == s[n];
        assert t[..n][a] == t[n];
      }
      if t[n] in t[..n] {
        var a :| 0 <= a < n && t[..n][a] == t[n];
        assert s[..n][a] == s[n];
      }
    }
  }

  /** The position where the index at position `k` occurs for the first time. */
  lemma {:induction false} FirstPositionOf(s: seq<int>, k: nat) returns (n: nat)
    requires k < |s|
    ensures n < |FirstPositions(s)| && FirstPositions(s)[n] <= k && s[FirstPositions(s)[n]] == s[k]
  {
    var m := |s| - 1;
    if k < m {
      n := FirstPositionOf(s[..m], k);
      if s[m] !in s[..m] {
        n := n + 1;
      }
    } else if s[m] in s[..m] {
      var a :| 0 <= a < m && s[..m][a] == s[m];
      n := FirstPositionOf(s[..m], a);
    } else {
      n := 0;
    }
  }

  lemma {:induction false} FirstPositionsDiffer(s: seq<int>)
    ensures forall a, b | 0 <= a < b < |FirstPositions(s)| :: s[FirstPositions(s)[a]] != s[FirstPositions(s)[b]]
  {
    DistinctIsPick(s);
    var f, d := FirstPositions(s), Distinct(s);
    forall a, b | 0 <= a < b < |f|
      ensures s[f[a]] != s[f[b]]
    {
      assert d[a] == s[f[a]] && d[b] == s[f[b]];
    }
  }

  // ---------------------------------------------------------------- specification

  /** One patch is copied to output `out` under the name `name`. */
  datatype Copy = Copy(out: nat, name: PatchName, patch: Patch)

  /** Every index of the file has its patch, under the block of the first box with this index. */
  predicate Complete(d: LevelFile) {
    Aligned(d.boxes) && forall n | 0 <= n < |FirstPositions(d.boxes.localIndices)| ::
      NameAt(d, d.boxes.localIndices, FirstPositions(d.boxes.localIndices)[n]) in d.patches
  }

  predicate AllComplete(inputs: seq<LevelFile>) {
    forall i | 0 <= i < |inputs| :: Complete(inputs[i])
  }

  /** The name of the patch at box position `k` when the boxes have the given local indices. */
  function NameAt(d: LevelFile, indices: seq<int>, k: nat): PatchName
    requires Aligned(d.boxes) && |indices| == d.boxes.size && k < d.boxes.size
  {
    PatchName(indices[k], d.boxes.blockIds[k])
  }

  /** The copy of the patch that belongs to box position `k`. */
  function CopyAt(d: LevelFile, indices: seq<int>, outs: seq<nat>, firstFile: int, k: nat): Copy
    requires HasRoutes(d.boxes, indices, outs) && k < d.boxes.size
    requires NameAt(d, d.boxes.localIndices, k) in d.patches
  {
    Copy(outs[k], NameAt(d, indices, k), d.patches[NameAt(d, d.boxes.localIndices, k)].(owner := firstFile + outs[k]))
  }

  function CopiesOf(d: LevelFile, indices: seq<int>, outs: seq<nat>, firstFile: int): (c: seq<Copy>)
    requires Complete(d) && HasRoutes(d.boxes, indices, outs)
    ensures |c| == |FirstPositions(d.boxes.localIndices)|
    ensures forall n | 0 <= n < |c| ::
              c[n] == CopyAt(d, indices, outs, firstFile, FirstPositions(d.boxes.localIndices)[n])
  {
    var f := FirstPositions(d.boxes.localIndices);
    seq(|f|, n requires 0 <= n < |f| => CopyAt(d, indices, outs, firstFile, f[n]))
  }

  function BoxesOfAll(inputs: seq<LevelFile>): (b: seq<BoxArrays>)
    ensures |b| == |inputs| && forall i | 0 <= i < |b| :: b[i] == inputs[i].boxes
  {
    seq(|inputs|, i requires 0 <= i < |inputs| => inputs[i].boxes)
  }

  /** All copies made for the first `n` input files. */
  function AllCopies(inputs: seq<LevelFile>, indices: seq<seq<int>>, outs: seq<seq<nat>>, firstFile: int,
                     n: nat): seq<Copy>
    requires AllComplete(inputs) && AllFit(BoxesOfAll(inputs), indices, outs) && n <= |inputs|
  {
    if n == 0 then []
    else AllCopies(inputs, indices, outs, firstFile, n - 1) +
         CopiesOf(inputs[n - 1], indices[n - 1], outs[n - 1], firstFile)
  }

  function Empty(outSize: nat): (dbs: seq<map<PatchName, Patch>>)
    ensures |dbs| == outSize && forall j | 0 <= j < outSize :: dbs[j] == map[]
  {
    seq(outSize, _ => map[])
  }

  /** The output databases after the copies have been made. */
  function Store(outSize: nat, copies: seq<Copy>): (dbs: seq<map<PatchName, Patch>>)
    requires forall c | 0 <= c < |copies| :: copies[c].out < outSize
    ensures |dbs| == outSize
  {
    if copies == [] then Empty(outSize)
    else
      var c, dbs := copies[|copies| - 1], Store(outSize, copies[..|copies| - 1]);
      dbs[c.out := dbs[c.out][c.name := c.patch]]
  }

  /** No two copies have the same number. */
  predicate AllDiffer(copies: seq<Copy>) {
    forall a, b | 0 <= a < b < |copies| :: copies[a].name.number != copies[b].name.number
  }

  predicate DifferFrom(front: seq<Copy>, last: seq<Copy>) {
    forall a, b | 0 <= a < |front| && 0 <= b < |last| :: front[a].name.number != last[b].name.number
  }

  lemma AllDifferConcat(front: seq<Copy>, last: seq<Copy>)
    requires AllDiffer(front) && AllDiffer(last) && DifferFrom(front, last)
    ensures AllDiffer(front + last)
  {
  }

  lemma StoreOneMore(outSize: nat, front: seq<Copy>, c: Copy)
    requires c.out < outSize && forall k | 0 <= k < |front| :: front[k].out < outSize
    ensures var dbs := Store(outSize, front); Store(outSize, front + [c]) == dbs[c.out := dbs[c.out][c.name := c.patch]]
  {
    assert (front + [c])[..|front|] == front;
  }

  /** If no two copies have the same number, every copy is found where it was put, */
  lemma {:induction false} StoreKeepsAll(outSize: nat, copies: seq<Copy>)
    requires forall c | 0 <= c < |copies| :: copies[c].out < outSize
    requires AllDiffer(copies)
    ensures var dbs := Store(outSize, copies); forall c | 0 <= c < |copies| ::
              copies[c].name in dbs[copies[c].out] && dbs[copies[c].out][copies[c].name] == copies[c].patch
  {
    if copies != [] {
      StoreKeepsAll(outSize, copies[..|copies| - 1]);
    }
  }

  /** and nothing else is. */
  lemma {:induction false} StoreInventsNothing(outSize: nat, copies: seq<Copy>, j: nat, name: PatchName)
    returns (c: nat)
    requires forall c | 0 <= c < |copies| :: copies[c].out < outSize
    requires j < outSize && name in Store(outSize, copies)[j]
    ensures c < |copies| && copies[c].out == j && copies[c].name == name
  {
    c := |copies| - 1;
    if copies[c].out != j || copies[c].name != name {
      c := StoreInventsNothing(outSize, copies[..c], j, name);
    }
  }

  /** What the patch databases of the outputs are to be. */
  function PatchOutputs(inputs: seq<LevelFile>, outSize: nat, firstFile: int): seq<map<PatchName, Patch>>
    requires AllComplete(inputs) && outSize > 0
  {
    var bs := BoxesOfAll(inputs);
    CopiesInRange(inputs, NewIndices(bs, outSize), NewOutputs(bs, outSize), firstFile, outSize, |inputs|);
    Store(outSize, AllCopies(inputs, NewIndices(bs, outSize), NewOutputs(bs, outSize), firstFile, |inputs|))
  }

  lemma {:induction false} CopiesInRange(inputs: seq<LevelFile>, indices: seq<seq<int>>, outs: seq<seq<nat>>,
                                         firstFile: int,
                                         outSize: nat, n: nat)
    requires AllComplete(inputs) && AllFit(BoxesOfAll(inputs), indices, outs) && n <= |inputs|
    requires forall i, k | 0 <= i < |outs| && 0 <= k < |outs[i]| :: outs[i][k] < outSize
    ensures forall c | 0 <= c < |AllCopies(inputs, indices, outs, firstFile, n)| ::
              AllCopies(inputs, indices, outs, firstFile, n)[c].out < outSize
  {
    if n > 0 {
      CopiesInRange(inputs, indices, outs, firstFile, outSize, n - 1);
    }
  }

  // ---------------------------------------------------------------- patches follow boxes

  /** Boxes share a new index exactly if they are in the same file and shared an index there. */
  predicate Separate(inputs: seq<BoxArrays>, indices: seq<seq<int>>, outs: seq<seq<nat>>) {
    && AllFit(inputs, indices, outs)
    && (forall i | 0 <= i < |inputs| :: KeepsApart(inputs[i].localIndices, indices[i]))
    && (forall i, j, a, b | 0 <= i < j < |inputs| && 0 <= a < inputs[i].size && 0 <= b < inputs[j].size ::
          indices[i][a] != indices[j][b])
  }

  /** Boxes with the same new index go to the same output. */
  predicate RoutedByIndex(inputs: seq<BoxArrays>, indices: seq<seq<int>>, outs: seq<seq<nat>>)
    requires AllFit(inputs, indices, outs)
  {
    forall i, a, b | 0 <= i < |inputs| && 0 <= a < inputs[i].size && 0 <= b < inputs[i].size
      && indices[i][a] == indices[i][b] ::
      outs[i][a] == outs[i][b]
  }

  /** Copy `c` is that of the patch at position `k` of input file `i`. */
  predicate IsCopyOf(inputs: seq<LevelFile>, indices: seq<seq<int>>, outs: seq<seq<nat>>, firstFile: int, i: nat,
                     n: nat, c: Copy)
    requires AllComplete(inputs) && AllFit(BoxesOfAll(inputs), indices, outs) && i < |inputs|
  {
    var d := inputs[i];
    && n < |FirstPositions(d.boxes.localIndices)|
    && c == CopyAt(d, indices[i], outs[i], firstFile, FirstPositions(d.boxes.localIndices)[n])
  }

  /** Every patch of the first `n` files is copied. */
  lemma {:induction false} HasCopy(inputs: seq<LevelFile>, indices: seq<seq<int>>, outs: seq<seq<nat>>, firstFile: int,
                                   n: nat, i: nat, m: nat) returns (c: nat)
    requires AllComplete(inputs) && AllFit(BoxesOfAll(inputs), indices, outs) && i < n <= |inputs|
    requires m < |FirstPositions(inputs[i].boxes.localIndices)|
    ensures c < |AllCopies(inputs, indices, outs, firstFile, n)|
    ensures IsCopyOf(inputs, indices, outs, firstFile, i, m, AllCopies(inputs, indices, outs, firstFile, n)[c])
  {
    if i == n - 1 {
      c := |AllCopies(inputs, indices, outs, firstFile, n - 1)| + m;
    } else {
      c := HasCopy(inputs, indices, outs, firstFile, n - 1, i, m);
    }
  }

  /** Every copy is that of a patch. */
  lemma {:induction false} CopyFrom(inputs: seq<LevelFile>, indices: seq<seq<int>>, outs: seq<seq<nat>>, firstFile: int,
                                    n: nat, c: nat) returns (i: nat, m: nat)
    requires AllComplete(inputs) && AllFit(BoxesOfAll(inputs), indices, outs) && n <= |inputs|
    requires c < |AllCopies(inputs, indices, outs, firstFile, n)|
    ensures i < n && IsCopyOf(inputs, indices, outs, firstFile, i, m, AllCopies(inputs, indices, outs, firstFile, n)[c])
  {
    var front := AllCopies(inputs, indices, outs, firstFile, n - 1);
    if c < |front| {
      i, m := CopyFrom(inputs, indices, outs, firstFile, n - 1, c);
    } else {
      i, m := n - 1, c - |front|;
    }
  }

  /** The copies of two different patches have different numbers. */
  lemma TwoCopiesDiffer(inputs: seq<LevelFile>, indices: seq<seq<int>>, outs: seq<seq<nat>>, firstFile: int,
                        i: nat, m: nat, a: Copy, j: nat, n: nat, b: Copy)
    requires AllComplete(inputs) && Separate(BoxesOfAll(inputs), indices, outs) && i <= j < |inputs|
             && (i == j ==> m != n)
    requires IsCopyOf(inputs, indices, outs, firstFile, i, m, a) && IsCopyOf(inputs, indices, outs, firstFile, j, n, b)
    ensures a.name.number != b.name.number
  {
    var bs := BoxesOfAll(inputs);
    var s, t := bs[i].localIndices, bs[j].localIndices;
    assert a.name.number == indices[i][FirstPositions(s)[m]];
    assert b.name.number == indices[j][FirstPositions(t)[n]];
    if i == j {
      FirstPositionsDiffer(s);
      assert KeepsApart(s, indices[i]);
      assert s[FirstPositions(s)[m]] != s[FirstPositions(s)[n]];
    }
  }

  lemma CopiesOfOneDiffer(inputs: seq<LevelFile>, indices: seq<seq<int>>, outs: seq<seq<nat>>, firstFile: int, i: nat)
    requires AllComplete(inputs) && Separate(BoxesOfAll(inputs), indices, outs) && i < |inputs|
    ensures AllDiffer(CopiesOf(inputs[i], indices[i], outs[i], firstFile))
  {
    var last := CopiesOf(inputs[i], indices[i], outs[i], firstFile);
    forall a: nat, b: nat | a < b < |last|
      ensures last[a].name.number != last[b].name.number
    {
      TwoCopiesDiffer(inputs, indices, outs, firstFile, i, a, last[a], i, b, last[b]);
    }
  }

  lemma CopiesOfTwoDiffer(inputs: seq<LevelFile>, indices: seq<seq<int>>, outs: seq<seq<nat>>, firstFile: int, n: nat,
                          front: seq<Copy>, last: seq<Copy>)
    requires AllComplete(inputs) && Separate(BoxesOfAll(inputs), indices, outs) && n < |inputs|
    requires front == AllCopies(inputs, indices, outs, firstFile, n)
    requires last == CopiesOf(inputs[n], indices[n], outs[n], firstFile)
    ensures DifferFrom(front, last)
  {
    forall a: nat, b: nat | a < |front| && b < |last|
      ensures front[a].name.number != last[b].name.number
    {
      var i, m := CopyFrom(inputs, indices, outs, firstFile, n, a);
      TwoCopiesDiffer(inputs, indices, outs, firstFile, i, m, front[a], n, b, last[b]);
    }
  }

  lemma CopiesDifferNext(inputs: seq<LevelFile>, indices: seq<seq<int>>, outs: seq<seq<nat>>, firstFile: int, n: nat,
                         next: nat)
    requires AllComplete(inputs) && Separate(BoxesOfAll(inputs), indices, outs) && next == n + 1 <= |inputs|
    requires AllDiffer(AllCopies(inputs, indices, outs, firstFile, n))
    ensures AllDiffer(AllCopies(inputs, indices, outs, firstFile, next))
  {
    var front := AllCopies(inputs, indices, outs, firstFile, n);
    var last := CopiesOf(inputs[n], indices[n], outs[n], firstFile);
    CopiesOfOneDiffer(inputs, indices, outs, firstFile, n);
    CopiesOfTwoDiffer(inputs, indices, outs, firstFile, n, front, last);
    AllDifferConcat(front, last);
  }

  lemma {:induction false} CopiesDiffer(inputs: seq<LevelFile>, indices: seq<seq<int>>, outs: seq<seq<nat>>,
                                        firstFile: int, n: nat)
    requires AllComplete(inputs) && Separate(BoxesOfAll(inputs), indices, outs) && n <= |inputs|
    ensures AllDiffer(AllCopies(inputs, indices, outs, firstFile, n))
    decreases n
  {
    if n > 0 {
      hide AllDiffer, AllComplete, Separate;
      CopiesDiffer(inputs, indices, outs, firstFile, n - 1);
      CopiesDifferNext(inputs, indices, outs, firstFile, n - 1, n);
    }
  }

  // ---- membership of boxes

  lemma {:induction false} RoutedHas(d: BoxArrays, indices: seq<int>, outs: seq<nat>, firstFile: int, n: nat, k: nat)
    requires HasRoutes(d, indices, outs) && k < n <= d.size
    ensures Written(d, indices, outs, firstFile, k) in Routed(d, indices, outs, firstFile, outs[k], n)
  {
    if k < n - 1 {
      RoutedHas(d, indices, outs, firstFile, n - 1, k);
    }
  }

  lemma {:induction false} RoutedFrom(d: BoxArrays, indices: seq<int>, outs: seq<nat>, firstFile: int, j: nat, n: nat,
                                      b: MappedBox) returns (k: nat)
    requires HasRoutes(d, indices, outs) && n <= d.size && b in Routed(d, indices, outs, firstFile, j, n)
    ensures k < n && outs[k] == j && b == Written(d, indices, outs, firstFile, k)
  {
    if b in Routed(d, indices, outs, firstFile, j, n - 1) {
      k := RoutedFrom(d, indices, outs, firstFile, j, n - 1, b);
    } else {
      k := n - 1;
    }
  }

  /** Every box is written to its output. */
  lemma {:induction false} OutputHasBox(inputs: seq<BoxArrays>, indices: seq<seq<int>>, outs: seq<seq<nat>>,
                                        firstFile: int,
                                        n: nat, i: nat, k: nat)
    requires AllFit(inputs, indices, outs) && i < n <= |inputs| && k < inputs[i].size
    ensures Written(inputs[i], indices[i], outs[i], firstFile, k) in
            RoutedFiles(inputs, indices, outs, firstFile, outs[i][k], n)
  {
    if i < n - 1 {
      OutputHasBox(inputs, indices, outs, firstFile, n - 1, i, k);
    } else {
      RoutedHas(inputs[i], indices[i], outs[i], firstFile, inputs[i].size, k);
    }
  }

  /** Every box of an output comes from an input file. */
  lemma {:induction false} OutputBoxFrom(inputs: seq<BoxArrays>, indices: seq<seq<int>>, outs: seq<seq<nat>>,
                                         firstFile: int,
                                         j: nat, n: nat, b: MappedBox) returns (i: nat, k: nat)
    requires AllFit(inputs, indices, outs) && n <= |inputs| && b in RoutedFiles(inputs, indices, outs, firstFile, j, n)
    ensures i < n && k < inputs[i].size && outs[i][k] == j && b == Written(inputs[i], indices[i], outs[i], firstFile, k)
  {
    if b in RoutedFiles(inputs, indices, outs, firstFile, j, n - 1) {
      i, k := OutputBoxFrom(inputs, indices, outs, firstFile, j, n - 1, b);
    } else {
      i := n - 1;
      k := RoutedFrom(inputs[i], indices[i], outs[i], firstFile, j, inputs[i].size, b);
    }
  }

  // ---- the agreement

  /** The databases of one redistributed level: patches and boxes of every output. */
  ghost predicate Distributed(inputs: seq<LevelFile>, indices: seq<seq<int>>, outs: seq<seq<nat>>, firstFile: int,
                              outSize: nat,
                              dbs: seq<map<PatchName, Patch>>)
  {
    && AllComplete(inputs) && Separate(BoxesOfAll(inputs), indices, outs)
    && RoutedByIndex(BoxesOfAll(inputs), indices, outs)
    && (forall i, k | 0 <= i < |outs| && 0 <= k < |outs[i]| :: outs[i][k] < outSize)
    && (forall c | 0 <= c < |AllCopies(inputs, indices, outs, firstFile, |inputs|)| ::
          AllCopies(inputs, indices, outs, firstFile, |inputs|)[c].out < outSize)
    && dbs == Store(outSize, AllCopies(inputs, indices, outs, firstFile, |inputs|))
  }

  /** The patch of box `k` of file `i`, which is stored under the block of the first box with this index, at `q`, is
      in the output to which the box is written, under the new index of the box. */
  predicate PatchGoesWithBox(inputs: seq<LevelFile>, indices: seq<seq<int>>, outs: seq<seq<nat>>, firstFile: int,
                             dbs: seq<map<PatchName, Patch>>, i: nat, k: nat, q: nat)
    requires AllComplete(inputs) && AllFit(BoxesOfAll(inputs), indices, outs) && i < |inputs|
             && k < inputs[i].boxes.size
  {
    var d, j := inputs[i], outs[i][k];
    && OccursFirst(d.boxes.localIndices, q) && d.boxes.localIndices[q] == d.boxes.localIndices[k] && j < |dbs|
    && PatchName(d.boxes.localIndices[k], d.boxes.blockIds[q]) in d.patches
    && PatchName(indices[i][k], d.boxes.blockIds[q]) in dbs[j]
    && dbs[j][PatchName(indices[i][k], d.boxes.blockIds[q])] ==
       d.patches[PatchName(d.boxes.localIndices[k], d.boxes.blockIds[q])].(owner := firstFile + j)
  }

  lemma FollowsBox(inputs: seq<LevelFile>, indices: seq<seq<int>>, outs: seq<seq<nat>>, firstFile: int, outSize: nat,
                   dbs: seq<map<PatchName, Patch>>, i: nat, k: nat) returns (q: nat)
    requires Distributed(inputs, indices, outs, firstFile, outSize, dbs) && i < |inputs| && k < inputs[i].boxes.size
    ensures PatchGoesWithBox(inputs, indices, outs, firstFile, dbs, i, k, q)
  {
    var s := inputs[i].boxes.localIndices;
    var n := FirstPositionOf(s, k);
    q := FirstPositions(s)[n];
    FirstPositionsAreFirst(s);
    var c := HasCopy(inputs, indices, outs, firstFile, |inputs|, i, n);
    CopiesDiffer(inputs, indices, outs, firstFile, |inputs|);
    var copies := AllCopies(inputs, indices, outs, firstFile, |inputs|);
    StoreKeepsAll(outSize, copies);
    assert KeepsApart(BoxesOfAll(inputs)[i].localIndices, indices[i]);
    assert BoxesOfAll(inputs)[i] == inputs[i].boxes;
    assert indices[i][q] == indices[i][k];
    assert outs[i][q] == outs[i][k];
    assert copies[c] == CopyAt(inputs[i], indices[i], outs[i], firstFile, q);
  }

  /** The numbers by which the tool renames: separate, and routed by index. */
  lemma NewIndicesAreSeparate(inputs: seq<BoxArrays>, outSize: nat)
    requires AllAligned(inputs) && outSize > 0 && (|inputs| <= 1 || outSize == 1)
    requires FilesApart(IndicesOf(inputs), NewIndices(inputs, outSize))
    ensures Separate(inputs, NewIndices(inputs, outSize), NewOutputs(inputs, outSize))
    ensures RoutedByIndex(inputs, NewIndices(inputs, outSize), NewOutputs(inputs, outSize))
  {
    RoutedByNewIndex(inputs, outSize);
    if outSize == 1 {
      MergeIsSeparate(IndicesOf(inputs));
    }
  }

  lemma RoutedByNewIndex(inputs: seq<BoxArrays>, outSize: nat)
    requires AllAligned(inputs) && outSize > 0
    ensures AllFit(inputs, NewIndices(inputs, outSize), NewOutputs(inputs, outSize))
    ensures RoutedByIndex(inputs, NewIndices(inputs, outSize), NewOutputs(inputs, outSize))
  {
  }

  predicate HasPatch(patches: map<PatchName, Patch>, b: MappedBox) {
    exists name | name in patches :: name.number == b.localIndex
  }

  predicate HasBox(boxes: seq<MappedBox>, name: PatchName) {
    exists k | 0 <= k < |boxes| :: boxes[k].localIndex == name.number && boxes[k].blockId == name.block
  }

  /** Every box in an output has its patch there, owned by the file, and every patch its box. */
  predicate Agree(boxes: seq<MappedBox>, patches: map<PatchName, Patch>, file: int) {
    && (forall k | 0 <= k < |boxes| :: boxes[k].rank == file && HasPatch(patches, boxes[k]))
    && (forall name | name in patches :: patches[name].owner == file && HasBox(boxes, name))
    && (forall n, n' | n in patches && n' in patches :: n.number == n'.number ==> n == n')
  }

  lemma BoxHasPatch(inputs: seq<LevelFile>, indices: seq<seq<int>>, outs: seq<seq<nat>>, firstFile: int, outSize: nat,
                    dbs: seq<map<PatchName, Patch>>, j: nat, b: MappedBox)
    requires Distributed(inputs, indices, outs, firstFile, outSize, dbs) && j < outSize
    requires b in RoutedFiles(BoxesOfAll(inputs), indices, outs, firstFile, j, |inputs|)
    ensures b.rank == firstFile + j && HasPatch(dbs[j], b)
  {
    var i, k := OutputBoxFrom(BoxesOfAll(inputs), indices, outs, firstFile, j, |inputs|, b);
    var q := FollowsBox(inputs, indices, outs, firstFile, outSize, dbs, i, k);
    assert PatchName(indices[i][k], inputs[i].boxes.blockIds[q]) in dbs[j];
  }

  lemma PatchHasBox(inputs: seq<LevelFile>, indices: seq<seq<int>>, outs: seq<seq<nat>>, firstFile: int, outSize: nat,
                    dbs: seq<map<PatchName, Patch>>, j: nat, name: PatchName)
    requires Distributed(inputs, indices, outs, firstFile, outSize, dbs) && j < outSize && name in dbs[j]
    ensures dbs[j][name].owner == firstFile + j
    ensures HasBox(RoutedFiles(BoxesOfAll(inputs), indices, outs, firstFile, j, |inputs|), name)
  {
    var copies := AllCopies(inputs, indices, outs, firstFile, |inputs|);
    CopiesDiffer(inputs, indices, outs, firstFile, |inputs|);
    StoreKeepsAll(outSize, copies);
    var c := StoreInventsNothing(outSize, copies, j, name);
    var i, m := CopyFrom(inputs, indices, outs, firstFile, |inputs|, c);
    OutputHasBox(BoxesOfAll(inputs), indices, outs, firstFile, |inputs|, i,
                 FirstPositions(inputs[i].boxes.localIndices)[m]);
  }

  lemma NumbersAreUnique(inputs: seq<LevelFile>, indices: seq<seq<int>>, outs: seq<seq<nat>>, firstFile: int,
                         outSize: nat,
                         dbs: seq<map<PatchName, Patch>>, j: nat, x: PatchName, y: PatchName)
    requires Distributed(inputs, indices, outs, firstFile, outSize, dbs) && j < outSize
    requires x in dbs[j] && y in dbs[j] && x.number == y.number
    ensures x == y
  {
    var copies := AllCopies(inputs, indices, outs, firstFile, |inputs|);
    CopiesDiffer(inputs, indices, outs, firstFile, |inputs|);
    hide AllCopies, Separate, RoutedByIndex, AllComplete;
    var a := StoreInventsNothing(outSize, copies, j, x);
    var b := StoreInventsNothing(outSize, copies, j, y);
  }

  lemma OutputAgrees(inputs: seq<LevelFile>, indices: seq<seq<int>>, outs: seq<seq<nat>>, firstFile: int, outSize: nat,
                     dbs: seq<map<PatchName, Patch>>, j: nat, boxes: seq<MappedBox>)
    requires Distributed(inputs, indices, outs, firstFile, outSize, dbs) && j < outSize
    requires boxes == RoutedFiles(BoxesOfAll(inputs), indices, outs, firstFile, j, |inputs|)
    ensures Agree(boxes, dbs[j], firstFile + j)
  {
    forall k | 0 <= k < |boxes|
      ensures boxes[k].rank == firstFile + j && HasPatch(dbs[j], boxes[k])
    {
      BoxHasPatch(inputs, indices, outs, firstFile, outSize, dbs, j, boxes[k]);
    }
    forall name | name in dbs[j]
      ensures dbs[j][name].owner == firstFile + j && HasBox(boxes, name)
    {
      PatchHasBox(inputs, indices, outs, firstFile, outSize, dbs, j, name);
    }
    forall x, y | x in dbs[j] && y in dbs[j] && x.number == y.number
      ensures x == y
    {
      NumbersAreUnique(inputs, indices, outs, firstFile, outSize, dbs, j, x, y);
    }
  }

  /** The patch of box `k` of file `i` is where the box is. */
  ghost predicate PatchFollows(inputs: seq<LevelFile>, indices: seq<seq<int>>, outs: seq<seq<nat>>, firstFile: int,
                           dbs: seq<map<PatchName, Patch>>, i: nat, k: nat)
    requires AllComplete(inputs) && AllFit(BoxesOfAll(inputs), indices, outs) && i < |inputs|
             && k < inputs[i].boxes.size
  {
    exists q :: PatchGoesWithBox(inputs, indices, outs, firstFile, dbs, i, k, q)
  }

  /** The boxes of the first `n` files are kept apart, so that the lists of their patch numbers match. */
  predicate KeptApartSoFar(inputs: seq<LevelFile>, outSize: nat, n: nat)
    requires n <= |inputs|
  {
    forall i | 0 <= i < n :: KeepsApart(inputs[i].boxes.localIndices, NewIndices(BoxesOfAll(inputs), outSize)[i])
  }

  predicate AllKeptApart(inputs: seq<LevelFile>, outSize: nat) {
    KeptApartSoFar(inputs, outSize, |inputs|)
  }

  /** What can be told beforehand: no index that an earlier file has taken is replaced by one still to be entered. */
  predicate NoneClashes(inputs: seq<LevelFile>) {
    NoFileClashes(IndicesOf(BoxesOfAll(inputs)))
  }

  /** The lists match, if and only if there is no clash. */
  lemma KeptApartIff(inputs: seq<LevelFile>, outSize: nat)
    requires outSize > 0 && (|inputs| <= 1 || outSize == 1)
    ensures AllKeptApart(inputs, outSize) <==> NoneClashes(inputs)
  {
    var files := IndicesOf(BoxesOfAll(inputs));
    if outSize == 1 {
      MergeKeepsFilesApartIff(files);
      assert AllKeptApart(inputs, outSize) <==> FilesApart(files, Merge(files).files);
    }
  }

  lemma ToolDistributes(inputs: seq<LevelFile>, outSize: nat, firstFile: int)
    requires AllComplete(inputs) && outSize > 0 && (|inputs| <= 1 || outSize == 1) && NoneClashes(inputs)
    ensures var bs := BoxesOfAll(inputs);
            Distributed(inputs, NewIndices(bs, outSize), NewOutputs(bs, outSize), firstFile, outSize,
                        PatchOutputs(inputs, outSize, firstFile))
  {
    var bs := BoxesOfAll(inputs);
    KeptApartIff(inputs, outSize);
    assert FilesApart(IndicesOf(bs), NewIndices(bs, outSize));
    NewIndicesAreSeparate(bs, outSize);
    CopiesInRange(inputs, NewIndices(bs, outSize), NewOutputs(bs, outSize), firstFile, outSize, |inputs|);
  }

  /** Patches follow boxes.  The patch of every box is copied to the output the box is written to, under the new
      index of the box, unchanged but for its owner; and in every output file, box indices and patch numbers
      are the same, every patch has exactly one number, and ranks and owners are the number of the file. */
  lemma {:induction false} PatchesFollowBoxes(inputs: seq<LevelFile>, outSize: nat, firstFile: int)
    requires AllComplete(inputs) && outSize > 0 && (|inputs| <= 1 || outSize == 1) && NoneClashes(inputs)
    ensures var bs := BoxesOfAll(inputs);
            forall i, k | 0 <= i < |inputs| && 0 <= k < inputs[i].boxes.size ::
              PatchFollows(inputs, NewIndices(bs, outSize), NewOutputs(bs, outSize), firstFile,
                       PatchOutputs(inputs, outSize, firstFile), i, k)
    ensures forall j | 0 <= j < outSize ::
              Agree(OutputBoxes(BoxesOfAll(inputs), outSize, firstFile, j), PatchOutputs(inputs, outSize, firstFile)[j],
                    firstFile + j)
  {
    ToolDistributes(inputs, outSize, firstFile);
    var bs, dbs := BoxesOfAll(inputs), PatchOutputs(inputs, outSize, firstFile);
    var indices, outs := NewIndices(bs, outSize), NewOutputs(bs, outSize);
    forall i: nat, k: nat | i < |inputs| && k < inputs[i].boxes.size
      ensures PatchFollows(inputs, indices, outs, firstFile, dbs, i, k)
    {
      var q := FollowsBox(inputs, indices, outs, firstFile, outSize, dbs, i, k);
    }
    forall j: nat | j < outSize
      ensures Agree(OutputBoxes(bs, outSize, firstFile, j), dbs[j], firstFile + j)
    {
      OutputAgrees(inputs, indices, outs, firstFile, outSize, dbs, j, OutputBoxes(bs, outSize, firstFile, j));
    }
  }

  // ---------------------------------------------------------------- where a patch goes

  /** File `i` holds a patch with the `m`-th of its different indices. */
  predicate IsPatch(inputs: seq<LevelFile>, i: int, m: int) {
    0 <= i < |inputs| && 0 <= m < |FirstPositions(inputs[i].boxes.localIndices)|
  }

  /** This patch. */
  function PatchOf(inputs: seq<LevelFile>, i: int, m: int): Patch
    requires AllComplete(inputs) && IsPatch(inputs, i, m)
  {
    var d := inputs[i];
    d.patches[NameAt(d, d.boxes.localIndices, FirstPositions(d.boxes.localIndices)[m])]
  }

  /** The copy the tool is to make of it. */
  function CopyOf(inputs: seq<LevelFile>, outSize: nat, firstFile: int, i: int, m: int): (c: Copy)
    requires AllComplete(inputs) && outSize > 0 && IsPatch(inputs, i, m)
    ensures c.patch == PatchOf(inputs, i, m).(owner := firstFile + c.out)
  {
    var bs := BoxesOfAll(inputs);
    CopyAt(inputs[i], NewIndices(bs, outSize)[i], NewOutputs(bs, outSize)[i], firstFile,
           FirstPositions(inputs[i].boxes.localIndices)[m])
  }

  /** It is in the output, */
  lemma CopyIsStored(inputs: seq<LevelFile>, outSize: nat, firstFile: int, i: int, m: int)
    requires AllComplete(inputs) && outSize > 0 && (|inputs| <= 1 || outSize == 1) && NoneClashes(inputs)
    requires IsPatch(inputs, i, m)
    ensures var c, dbs := CopyOf(inputs, outSize, firstFile, i, m), PatchOutputs(inputs, outSize, firstFile);
            c.out < outSize == |dbs| && c.name in dbs[c.out] && dbs[c.out][c.name] == c.patch
  {
    var bs := BoxesOfAll(inputs);
    var indices, outs := NewIndices(bs, outSize), NewOutputs(bs, outSize);
    ToolDistributes(inputs, outSize, firstFile);
    CopiesDiffer(inputs, indices, outs, firstFile, |inputs|);
    var c := HasCopy(inputs, indices, outs, firstFile, |inputs|, i, m);
    StoreKeepsAll(outSize, AllCopies(inputs, indices, outs, firstFile, |inputs|));
  }

  /** apart from that of every other patch, */
  lemma TwoCopiesAreApart(inputs: seq<LevelFile>, outSize: nat, firstFile: int, i: int, m: int, j: int, n: int)
    requires AllComplete(inputs) && outSize > 0 && (|inputs| <= 1 || outSize == 1) && NoneClashes(inputs)
    requires IsPatch(inputs, i, m) && IsPatch(inputs, j, n) && (i == j ==> m != n)
    ensures CopyOf(inputs, outSize, firstFile, i, m).name != CopyOf(inputs, outSize, firstFile, j, n).name
  {
    var bs := BoxesOfAll(inputs);
    ToolDistributes(inputs, outSize, firstFile);
    var a, b := CopyOf(inputs, outSize, firstFile, i, m), CopyOf(inputs, outSize, firstFile, j, n);
    if i <= j {
      TwoCopiesDiffer(inputs, NewIndices(bs, outSize), NewOutputs(bs, outSize), firstFile, i, m, a, j, n, b);
    } else {
      TwoCopiesDiffer(inputs, NewIndices(bs, outSize), NewOutputs(bs, outSize), firstFile, j, n, b, i, m, a);
    }
  }

  /** and the output has no other patches. */
  lemma StoredIsCopy(inputs: seq<LevelFile>, outSize: nat, firstFile: int, j: nat, name: PatchName)
    returns (i: nat, m: nat)
    requires AllComplete(inputs) && outSize > 0 && j < outSize && name in PatchOutputs(inputs, outSize, firstFile)[j]
    ensures IsPatch(inputs, i, m)
    ensures CopyOf(inputs, outSize, firstFile, i, m).out == j && CopyOf(inputs, outSize, firstFile, i, m).name == name
  {
    var bs := BoxesOfAll(inputs);
    var indices, outs := NewIndices(bs, outSize), NewOutputs(bs, outSize);
    CopiesInRange(inputs, indices, outs, firstFile, outSize, |inputs|);
    var c := StoreInventsNothing(outSize, AllCopies(inputs, indices, outs, firstFile, |inputs|), j, name);
    i, m := CopyFrom(inputs, indices, outs, firstFile, |inputs|, c);
  }

  // ---------------------------------------------------------------- the loops of the tool

  /** Entering indices keeps shared indices shared. */
  lemma SharedIndices(before: seq<int>, used: seq<int>, maxUsed: int)
    ensures var after := Renumber(before, used, maxUsed).indices;
            && |after| == |before|
            && forall a, b | 0 <= a < |before| && 0 <= b < |before| && before[a] == before[b] :: after[a] == after[b]
  {
    EnterAllLength(Pool(before, used, maxUsed), Distinct(before));
    forall a: nat, b: nat | a < |before| && b < |before| && before[a] == before[b]
      ensures Renumber(before, used, maxUsed).indices[a] == Renumber(before, used, maxUsed).indices[b]
    {
      SharedStaysShared(Pool(before, used, maxUsed), Distinct(before), a, b);
    }
  }

  lemma {:induction false} FewerFirstPositions(s: seq<int>, t: seq<int>)
    requires |s| == |t| && forall a, b | 0 <= a < |s| && 0 <= b < |s| && s[a] == s[b] :: t[a] == t[b]
    ensures |FirstPositions(t)| <= |FirstPositions(s)|
    ensures |FirstPositions(t)| == |FirstPositions(s)| ==> KeepsApart(s, t)
  {
    if s != [] {
      var n := |s| - 1;
      FewerFirstPositions(s[..n], t[..n]);
      if s[n] in s[..n] {
        var a :| 0 <= a < n && s[..n][a] == s[n];
        assert t[..n][a] == t[n];
        if |FirstPositions(t)| == |FirstPositions(s)| {
          forall b | 0 <= b < n
            ensures s[b] == s[n] <==> t[b] == t[n]
          {
            assert s[..n][b] == s[..n][a] <==> t[..n][b] == t[..n][a];
          }
          KeepsApartExtends(s, t);
        }
      } else if |FirstPositions(t)| == |FirstPositions(s)| {
        assert forall b | 0 <= b < n :: s[..n][b] == s[b] && t[..n][b] == t[b];
        KeepsApartExtends(s, t);
      }
    }
  }

  lemma KeepsApartExtends(s: seq<int>, t: seq<int>)
    requires s != [] && |s| == |t| && KeepsApart(s[..|s| - 1], t[..|s| - 1])
    requires forall b | 0 <= b < |s| - 1 :: s[b] == s[|s| - 1] <==> t[b] == t[|s| - 1]
    ensures KeepsApart(s, t)
  {
    forall a, b | 0 <= a < |s| && 0 <= b < |s|
      ensures s[a] == s[b] <==> t[a] == t[b]
    {
      if a < |s| - 1 && b < |s| - 1 {
        assert s[..|s| - 1][a] == s[a] && s[..|s| - 1][b] == s[b];
      }
    }
  }

  /** The lists of old and new patch numbers can be walked together, that is, they are equally long, if and only
      if renumbering has kept the boxes of the file apart; otherwise the list of new numbers ends first. */
  lemma ListsMatchIff(before: seq<int>, used: seq<int>, maxUsed: int)
    ensures var after := Renumber(before, used, maxUsed).indices;
            && |FirstPositions(after)| <= |FirstPositions(before)|
            && (|FirstPositions(after)| == |FirstPositions(before)| <==> KeepsApart(before, after))
  {
    var after := Renumber(before, used, maxUsed).indices;
    SharedIndices(before, used, maxUsed);
    FewerFirstPositions(before, after);
    if KeepsApart(before, after) {
      SameFirstPositions(before, after);
    }
  }

  /** The lists of input file `i`. */
  lemma ListsOfFile(inputs: seq<BoxArrays>, outSize: nat, i: nat)
    requires i < |inputs|
    ensures var before, after := inputs[i].localIndices, NewIndices(inputs, outSize)[i];
            && |FirstPositions(after)| <= |FirstPositions(before)|
            && (|FirstPositions(after)| == |FirstPositions(before)| <==> KeepsApart(before, after))
  {
    if outSize == 1 {
      MergedIndices(inputs, i);
      var m := Merge(IndicesOf(inputs)[..i]);
      ListsMatchIff(inputs[i].localIndices, m.used, m.maxUsed);
    }
  }

  /** One box more. */
  lemma NextFirstPosition(localIndices: seq<int>, blockIds: seq<int>, j: nat)
    requires j < |localIndices| == |blockIds|
    ensures var f, x := FirstPositions(localIndices[..j]), localIndices[j];
            && (x in Pick(localIndices, f) <==> x in localIndices[..j])
            && (x in localIndices[..j] ==> FirstPositions(localIndices[..j + 1]) == f)
            && (x !in localIndices[..j] ==>
                  && Pick(localIndices, FirstPositions(localIndices[..j + 1])) == [x] + Pick(localIndices, f)
                  && Pick(blockIds, FirstPositions(localIndices[..j + 1])) == [blockIds[j]] + Pick(blockIds, f))
  {
    assert localIndices[..j + 1][..j] == localIndices[..j];
    DistinctIsPick(localIndices[..j]);
    assert Pick(localIndices, FirstPositions(localIndices[..j])) == Distinct(localIndices[..j]);
  }

  /** Lists the different indices, and the block of the first box with each of them. */
  method FirstOccurrences(localIndices: seq<int>, blockIds: seq<int>) returns (nums: seq<int>, blocks: seq<int>)
    requires |localIndices| == |blockIds|
    ensures nums == Pick(localIndices, FirstPositions(localIndices))
    ensures blocks == Pick(blockIds, FirstPositions(localIndices))
  {
    nums, blocks := [], [];
    var j := 0;
    while j < |localIndices|
      invariant 0 <= j <= |localIndices|
      invariant nums == Pick(localIndices, FirstPositions(localIndices[..j]))
      invariant blocks == Pick(blockIds, FirstPositions(localIndices[..j]))
    {
      NextFirstPosition(localIndices, blockIds, j);
      if localIndices[j] !in nums {
        nums, blocks := [localIndices[j]] + nums, [blockIds[j]] + blocks;
      }
      j := j + 1;
    }
    assert localIndices[..|localIndices|] == localIndices;
  }

  /** Nothing has been used yet: all patch numbers are kept. */
  method UsePatchNumbers(inputNums: seq<int>, maxUsed: int, ghost indices: seq<int>)
    returns (used': seq<int>, maxUsed': int)
    requires forall i, j | 0 <= i < j < |inputNums| :: inputNums[i] != inputNums[j]
    ensures EnterAll(Pool(indices, [], maxUsed), inputNums) == Pool(indices, used', maxUsed')
  {
    used', maxUsed' := [], maxUsed;
    var n := 0;
    while n < |inputNums|
      invariant 0 <= n <= |inputNums|
      invariant forall k | n <= k < |inputNums| :: inputNums[k] !in used'
      invariant EnterAll(Pool(indices, used', maxUsed'), inputNums[n..]) ==
                EnterAll(Pool(indices, [], maxUsed), inputNums)
    {
      EnterNext(Pool(indices, used', maxUsed'), inputNums, n);
      used' := [inputNums[n]] + used';
      maxUsed' := Max(maxUsed', inputNums[n]);
      n := n + 1;
    }
  }

  /** The renumbering loop for the patches of one more input file, which also tells whether it has renumbered
      any of them. */
  method RenumberPatches(inputNums: seq<int>, localIndices: seq<int>, used: seq<int>, maxUsed: int)
    returns (indices: seq<int>, used': seq<int>, maxUsed': int, recompute: bool)
    requires inputNums == Distinct(localIndices)
    ensures Pool(indices, used', maxUsed') == Renumber(localIndices, used, maxUsed)
    ensures !recompute ==> indices == localIndices
  {
    indices, used', maxUsed', recompute := localIndices, used, maxUsed, false;
    if |used'| == 0 {
      used', maxUsed' := UsePatchNumbers(inputNums, maxUsed, localIndices);
    } else {
      var n := 0;
      while n < |inputNums|
        invariant 0 <= n <= |inputNums|
        invariant EnterAll(Pool(indices, used', maxUsed'), inputNums[n..]) == Renumber(localIndices, used, maxUsed)
        invariant !recompute ==> indices == localIndices
      {
        EnterNext(Pool(indices, used', maxUsed'), inputNums, n);
        var repeatFound := inputNums[n] in used';
        if repeatFound {
          recompute := true;
          var newValue := maxUsed' + 1;
          indices := ReplaceAll(indices, inputNums[n], newValue);
          used' := [newValue] + used';
          maxUsed' := newValue;
        } else {
          used' := [inputNums[n]] + used';
          maxUsed' := Max(maxUsed', inputNums[n]);
        }
        n := n + 1;
      }
    }
  }

  /** Old and new patch numbers and blocks of one input file, and the new indices they are routed by. */
  method PatchNumbers(inputs: seq<LevelFile>, outSize: nat, i: nat, used: seq<int>, maxUsed: int)
    returns (inNums: seq<int>, inBlocks: seq<int>, outNums: seq<int>, outBlocks: seq<int>,
             localIndices: seq<int>, used': seq<int>, maxUsed': int)
    requires i < |inputs| && Aligned(inputs[i].boxes)
    requires MergedSoFar(BoxesOfAll(inputs), outSize, i, used, maxUsed)
    ensures MergedSoFar(BoxesOfAll(inputs), outSize, i + 1, used', maxUsed')
    ensures localIndices == NewIndices(BoxesOfAll(inputs), outSize)[i]
    ensures inNums == Pick(inputs[i].boxes.localIndices, FirstPositions(inputs[i].boxes.localIndices))
    ensures inBlocks == Pick(inputs[i].boxes.blockIds, FirstPositions(inputs[i].boxes.localIndices))
    ensures outNums == Pick(localIndices, FirstPositions(localIndices))
    ensures outBlocks == Pick(inputs[i].boxes.blockIds, FirstPositions(localIndices))
  {
    var blockIds := inputs[i].boxes.blockIds;
    localIndices, used', maxUsed' := inputs[i].boxes.localIndices, used, maxUsed;
    inNums, inBlocks := FirstOccurrences(localIndices, blockIds);
    outNums, outBlocks := inNums, inBlocks;
    if outSize == 1 {
      DistinctIsPick(localIndices);
      MergedIndices(BoxesOfAll(inputs), i);
      var recompute;
      localIndices, used', maxUsed', recompute := RenumberPatches(inNums, localIndices, used, maxUsed);
      if recompute {
        outNums, outBlocks := FirstOccurrences(localIndices, blockIds);
      }
    }
  }

  /** Copies one patch database to the output its new number belongs to; its owner becomes the number of the
      output file. */
  method CopyPatch(patches: map<PatchName, Patch>, inName: PatchName, outName: PatchName, cutoff: seq<int>,
                   ghost localIndices: seq<int>, firstFile: int, dbs: seq<map<PatchName, Patch>>)
    returns (dbs': seq<map<PatchName, Patch>>)
    requires inName in patches && |dbs| == |cutoff| > 0
    requires forall a | 0 <= a < |cutoff| :: cutoff[a] == Cutoff(localIndices, |cutoff|, a)
    ensures var j := OutputOf(localIndices, |dbs|, outName.number);
            dbs' == dbs[j := dbs[j][outName := patches[inName].(owner := firstFile + j)]]
  {
    var outputId := ChooseOutput(outName.number, cutoff, localIndices);
    var outputProc := firstFile + outputId;
    dbs' := dbs[outputId := dbs[outputId][outName := patches[inName].(owner := outputProc)]];
  }

  /** Stores one more of the copies of a file. */
  lemma StoreNext(outSize: nat, done: seq<Copy>, copies: seq<Copy>, n: nat)
    requires n < |copies| && (forall c | 0 <= c < |done| :: done[c].out < outSize)
    requires forall c | 0 <= c < |copies| :: copies[c].out < outSize
    ensures var c, dbs := copies[n], Store(outSize, done + copies[..n]);
            Store(outSize, done + copies[..n + 1]) == dbs[c.out := dbs[c.out][c.name := c.patch]]
  {
    assert done + copies[..n + 1] == (done + copies[..n]) + [copies[n]];
    StoreOneMore(outSize, done + copies[..n], copies[n]);
  }

  /** The copies to be made, in terms of the lists of old and new numbers and blocks. */
  predicate CopiesPlanned(patches: map<PatchName, Patch>, localIndices: seq<int>, inNums: seq<int>, inBlocks: seq<int>,
                    outNums: seq<int>, outBlocks: seq<int>, firstFile: int, outSize: nat, copies: seq<Copy>)
    requires outSize > 0
  {
    && |inNums| == |inBlocks| == |outNums| == |outBlocks| == |copies| && (localIndices == [] ==> copies == [])
    && forall n | 0 <= n < |copies| ::
         && copies[n].out == OutputOf(localIndices, outSize, outNums[n])
         && copies[n].name == PatchName(outNums[n], outBlocks[n])
         && PatchName(inNums[n], inBlocks[n]) in patches
         && copies[n].patch == patches[PatchName(inNums[n], inBlocks[n])].(owner := firstFile + copies[n].out)
  }

  /** If the boxes are kept apart, the lists belong together. */
  lemma ListsBelongTogether(d: LevelFile, localIndices: seq<int>, firstFile: int, outSize: nat)
    requires Complete(d) && KeepsApart(d.boxes.localIndices, localIndices) && outSize > 0
    ensures CopiesPlanned(d.patches, localIndices, Pick(d.boxes.localIndices, FirstPositions(d.boxes.localIndices)),
                    Pick(d.boxes.blockIds, FirstPositions(d.boxes.localIndices)),
                    Pick(localIndices, FirstPositions(localIndices)),
                    Pick(d.boxes.blockIds, FirstPositions(localIndices)),
                    firstFile, outSize, CopiesOf(d, localIndices, OutputIds(localIndices, outSize), firstFile))
  {
    SameFirstPositions(d.boxes.localIndices, localIndices);
  }

  /** Copies the patches of one input file, walking over the lists of old and new numbers together; fails when the
      list of new numbers has come to its end and that of old numbers has not. */
  method CopyPatches(patches: map<PatchName, Patch>, localIndices: seq<int>, inNums: seq<int>, inBlocks: seq<int>,
                     outNums: seq<int>, outBlocks: seq<int>, firstFile: int, dbs: seq<map<PatchName, Patch>>,
                     ghost done: seq<Copy>, ghost copies: seq<Copy>)
    returns (dbs': Option<seq<map<PatchName, Patch>>>)
    requires |dbs| > 0 && |inNums| == |inBlocks| && |outNums| == |outBlocks| && (localIndices == [] ==> inNums == [])
    requires forall n | 0 <= n < |inNums| :: PatchName(inNums[n], inBlocks[n]) in patches
    requires |outNums| == |inNums| ==>
               CopiesPlanned(patches, localIndices, inNums, inBlocks, outNums, outBlocks, firstFile, |dbs|, copies)
    requires (forall c | 0 <= c < |done| :: done[c].out < |dbs|) && dbs == Store(|dbs|, done)
    ensures dbs' == None <==> |outNums| < |inNums|
    ensures |outNums| == |inNums| ==> |dbs'.value| == |dbs| && dbs'.value == Store(|dbs|, done + copies)
  {
    hide Store;
    var cutoff := Cutoffs(localIndices, |dbs|);
    var stored := dbs;
    var n := 0;
    assert done + copies[..0] == done;
    while n < |inNums|
      invariant 0 <= n <= |inNums| && n <= |outNums| && |stored| == |dbs|
      invariant |outNums| == |inNums| ==> stored == Store(|dbs|, done + copies[..n])
    {
      if n == |outNums| {
        return None;
      }
      if |outNums| == |inNums| {
        StoreNext(|dbs|, done, copies, n);
      }
      stored := CopyPatch(patches, PatchName(inNums[n], inBlocks[n]), PatchName(outNums[n], outBlocks[n]), cutoff,
                          localIndices, firstFile, stored);
      n := n + 1;
    }
    if |outNums| == |inNums| {
      assert copies[..|copies|] == copies;
    }
    dbs' := Some(stored);
  }

  method Cutoffs(localIndices: seq<int>, outSize: nat) returns (cutoff: seq<int>)
    requires outSize > 0
    ensures |cutoff| == outSize
    ensures localIndices != [] ==> forall a | 0 <= a < outSize :: cutoff[a] == Cutoff(localIndices, outSize, a)
  {
    var minLocalIndices, maxLocalIndices := IndexBounds(localIndices);
    var indicesRange := 0;
    if |localIndices| > 0 {
      indicesRange := maxLocalIndices - minLocalIndices;
    } else {
      minLocalIndices := 0;
    }
    var share := Quotient(indicesRange, outSize);
    cutoff := seq(outSize, a => minLocalIndices + a * share);
  }

  /** The outputs when the patches of the first `i` input files have been copied. */
  ghost predicate StoredSoFar(inputs: seq<LevelFile>, outSize: nat, firstFile: int, i: nat,
                              dbs: seq<map<PatchName, Patch>>)
    requires AllComplete(inputs) && outSize > 0 && i <= |inputs|
  {
    var bs := BoxesOfAll(inputs);
    var copies := AllCopies(inputs, NewIndices(bs, outSize), NewOutputs(bs, outSize), firstFile, i);
    (forall c | 0 <= c < |copies| :: copies[c].out < outSize) && dbs == Store(outSize, copies)
  }

  /** The state of the patch loop when the first `i` input files are done. */
  ghost predicate PatchProgress(inputs: seq<LevelFile>, outSize: nat, firstFile: int, i: nat,
                           dbs: seq<map<PatchName, Patch>>, used: seq<int>, maxUsed: int)
  {
    && AllComplete(inputs) && outSize > 0 && i <= |inputs| && KeptApartSoFar(inputs, outSize, i)
    && MergedSoFar(BoxesOfAll(inputs), outSize, i, used, maxUsed) && StoredSoFar(inputs, outSize, firstFile, i, dbs)
  }

  /** Copies the patches of input file `i`. */
  method RedistributePatches(inputs: seq<LevelFile>, outSize: nat, firstFile: int, i: nat, used: seq<int>, maxUsed: int,
                             dbs: seq<map<PatchName, Patch>>)
    returns (dbs': Option<seq<map<PatchName, Patch>>>, used': seq<int>, maxUsed': int)
    requires PatchProgress(inputs, outSize, firstFile, i, dbs, used, maxUsed) && i < |inputs|
    ensures dbs' == None ==>
              !KeepsApart(inputs[i].boxes.localIndices, NewIndices(BoxesOfAll(inputs), outSize)[i])
    ensures dbs'.Some? ==> PatchProgress(inputs, outSize, firstFile, i + 1, dbs'.value, used', maxUsed')
  {
    ghost var bs := BoxesOfAll(inputs);
    ghost var indices, outs := NewIndices(bs, outSize), NewOutputs(bs, outSize);
    var inNums, inBlocks, outNums, outBlocks, localIndices;
    inNums, inBlocks, outNums, outBlocks, localIndices, used', maxUsed' :=
      PatchNumbers(inputs, outSize, i, used, maxUsed);
    CopiesInRange(inputs, indices, outs, firstFile, outSize, i + 1);
    ListsOfFile(bs, outSize, i);
    if |outNums| == |inNums| {
      ListsBelongTogether(inputs[i], localIndices, firstFile, outSize);
    }
    dbs' := CopyPatches(inputs[i].patches, localIndices, inNums, inBlocks, outNums, outBlocks, firstFile, dbs,
                        AllCopies(inputs, indices, outs, firstFile, i),
                        CopiesOf(inputs[i], indices[i], outs[i], firstFile));
  }

  lemma ProgressStarts(inputs: seq<LevelFile>, outSize: nat, firstFile: int)
    requires AllComplete(inputs) && outSize > 0
    ensures PatchProgress(inputs, outSize, firstFile, 0, Empty(outSize), [], 0)
  {
    assert IndicesOf(BoxesOfAll(inputs))[..0] == [];
  }

  /** Redistributes the patches of all input files. */
  method WritePatches(inputs: seq<LevelFile>, outSize: nat, firstFile: int)
    returns (patches: Option<seq<map<PatchName, Patch>>>)
    requires AllComplete(inputs) && 1 <= outSize
    ensures patches == if AllKeptApart(inputs, outSize) then Some(PatchOutputs(inputs, outSize, firstFile)) else None
  {
    var dbs := Empty(outSize);
    var used, maxUsed := [], 0;
    ProgressStarts(inputs, outSize, firstFile);
    var i := 0;
    while i < |inputs|
      invariant 0 <= i <= |inputs|
      invariant PatchProgress(inputs, outSize, firstFile, i, dbs, used, maxUsed)
    {
      var next;
      next, used, maxUsed := RedistributePatches(inputs, outSize, firstFile, i, used, maxUsed, dbs);
      if next == None {
        return None;
      }
      dbs := next.value;
      i := i + 1;
    }
    patches := Some(dbs);
  }

  /** Redistributes one level: first its patches, then its boxes.  It fails exactly if there is a clash. */
  method ReadAndWritePatchLevel(inputs: seq<LevelFile>, outSize: nat, firstFile: int, totalOutputFiles: int)
    returns (patches: Option<seq<map<PatchName, Patch>>>, boxLevels: seq<BoxLevelFile>)
    requires AllComplete(inputs) && 1 <= |inputs| && 1 <= outSize && (|inputs| == 1 || outSize == 1)
    ensures patches == if NoneClashes(inputs) then Some(PatchOutputs(inputs, outSize, firstFile)) else None
    ensures patches.Some? ==> |boxLevels| == outSize && forall j | 0 <= j < outSize ::
              FileHolds(boxLevels[j], totalOutputFiles, firstFile + j,
                    OutputBoxes(BoxesOfAll(inputs), outSize, firstFile, j))
  {
    boxLevels := [];
    KeptApartIff(inputs, outSize);
    patches := WritePatches(inputs, outSize, firstFile);
    if patches.Some? {
      boxLevels := ReadAndWriteBoxLevel(BoxesOfAll(inputs), outSize, firstFile, totalOutputFiles);
    }
  }
}
