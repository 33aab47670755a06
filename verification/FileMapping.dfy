/** How the restart redistribution tool divides its files among the processes.  The larger set of files is
    split into as many contiguous groups as there are files in the smaller set, and every process computes
    its own groups without communication. */
module FileMapping {
  import opened Wrappers

  /** First file of group `g`: the first `larger % smaller` groups have one file more than the others. */
  function Start(smaller: int, larger: int, g: int): int
    requires smaller > 0
  {
    larger / smaller * g + Min(g, larger % smaller)
  }

  /** The files from `a` up to but not including `b`. */
  function Range(a: int, b: int): (r: seq<int>)
    requires a <= b
    ensures |r| == b - a && forall k | 0 <= k < |r| :: r[k] == a + k
  {
    seq(b - a, k => a + k)
  }

  lemma StartIsMonotone(smaller: int, larger: int, g: int)
    requires smaller > 0 && larger >= 0
    ensures Start(smaller, larger, g) <= Start(smaller, larger, g + 1)
    ensures Start(smaller, larger, g + 1) - Start(smaller, larger, g) ==
            larger / smaller + if g < larger % smaller then 1 else 0
  {
  }

  function Group(smaller: int, larger: int, g: int): (files: seq<int>)
    requires smaller > 0 && larger >= 0
  {
    StartIsMonotone(smaller, larger, g);
    Range(Start(smaller, larger, g), Start(smaller, larger, g + 1))
  }

  /** Number of groups of process `rank`. */
  function GroupsOf(smaller: int, nprocs: int, rank: int): int
    requires nprocs > 0
  {
    smaller / nprocs + if rank < smaller % nprocs then 1 else 0
  }

  /** Number of groups of the processes before `rank`, in closed form. */
  function GroupsBefore(smaller: int, nprocs: int, rank: int): int
    requires nprocs > 0
  {
    smaller / nprocs * rank + Min(rank, smaller % nprocs)
  }

  lemma GroupsBeforeNext(smaller: int, nprocs: int, rank: int)
    requires nprocs > 0 && smaller >= 0
    ensures GroupsBefore(smaller, nprocs, rank + 1) == GroupsBefore(smaller, nprocs, rank) +
            GroupsOf(smaller, nprocs, rank)
    ensures GroupsOf(smaller, nprocs, rank) >= 0
  {
  }

  lemma GroupsBeforeEnds(smaller: int, nprocs: int)
    requires nprocs > 0 && smaller >= 0
    ensures GroupsBefore(smaller, nprocs, 0) == 0
    ensures GroupsBefore(smaller, nprocs, nprocs) == smaller
  {
  }

  /** What process `rank` is to compute: its consecutive groups. */
  function Slice(smaller: int, larger: int, nprocs: int, rank: int): (groups: seq<seq<int>>)
    requires smaller > 0 && larger >= 0 && nprocs > 0
  {
    GroupsBeforeNext(smaller, nprocs, rank);
    seq(GroupsOf(smaller, nprocs, rank), j => Group(smaller, larger, GroupsBefore(smaller, nprocs, rank) + j))
  }

  /** Enumerates `count` files from `first` on. */
  method Enumerate(first: int, count: nat) returns (files: seq<int>)
    ensures files == Range(first, first + count)
  {
    files := [];
    var k := 0;
    while k < count
      invariant 0 <= k <= count
      invariant files == Range(first, first + k)
    {
      files := files + [first + k];
      k := k + 1;
    }
  }

  /** Passes over the `count` groups that follow group `before`, counting their files, and enumerates the
      files of each group if `mine`. */
  method PassGroups(smaller: int, larger: int, ghost before: int, count: int, mine: bool, firstFile: int, extra: int)
    returns (groups: seq<seq<int>>, fileCounter: int, remainder: int)
    requires smaller > 0 && larger >= 0 && before >= 0 && count >= 0
    requires firstFile == Start(smaller, larger, before)
    requires extra == larger % smaller - Min(before, larger % smaller)
    ensures fileCounter == Start(smaller, larger, before + count)
    ensures remainder == larger % smaller - Min(before + count, larger % smaller)
    ensures mine ==> groups == seq(count, j => Group(smaller, larger, before + j))
    ensures !mine ==> groups == []
  {
    var fileRatio := larger / smaller;
    groups, fileCounter, remainder := [], firstFile, extra;
    var j := 0;
    while j < count
      invariant 0 <= j <= count
      invariant fileCounter == Start(smaller, larger, before + j)
      invariant remainder == larger % smaller - Min(before + j, larger % smaller)
      invariant |groups| == if mine then j else 0
      invariant mine ==> forall k | 0 <= k < j :: groups[k] == Group(smaller, larger, before + k)
    {
      StartIsMonotone(smaller, larger, before + j);
      var size := fileRatio;
      if remainder > 0 {
        size := fileRatio + 1;
        remainder := remainder - 1;
      }
      if mine {
        var files := Enumerate(fileCounter, size);
        groups := groups + [files];
      }
      fileCounter := fileCounter + size;
      j := j + 1;
    }
  }

  /** The file mapping of process `rank`, or nothing if there are more processes than files on the smaller
      side, which the source reports as an error. */
  method ComputeFileMapping(inputFiles: nat, outputFiles: nat, nprocs: nat, rank: nat)
    returns (r: Option<seq<seq<int>>>)
    requires rank < nprocs
    ensures r == None <==> nprocs > Min(inputFiles, outputFiles)
    ensures r.Some? ==> r.value == Slice(Min(inputFiles, outputFiles), Max(inputFiles, outputFiles), nprocs, rank)
  {
    var smaller, larger;
    if outputFiles > inputFiles {
      smaller, larger := inputFiles, outputFiles;
    } else {
      smaller, larger := outputFiles, inputFiles;
    }
    if nprocs > smaller {
      return None;
    }
    var remainder := larger % smaller;
    var filesPerEachProc := smaller / nprocs;
    var extraFiles := smaller % nprocs;
    var fileMapping: seq<seq<int>> := [];
    var fileCounter := 0;
    GroupsBeforeEnds(smaller, nprocs);
    var i := 0;
    while i <= rank
      invariant 0 <= i <= rank + 1
      invariant GroupsBefore(smaller, nprocs, i) >= 0
      invariant fileCounter == Start(smaller, larger, GroupsBefore(smaller, nprocs, i))
      invariant remainder == larger % smaller - Min(GroupsBefore(smaller, nprocs, i), larger % smaller)
      invariant i == rank + 1 ==> fileMapping == Slice(smaller, larger, nprocs, rank)
    {
      GroupsBeforeNext(smaller, nprocs, i);
      ghost var before := GroupsBefore(smaller, nprocs, i);
      var thisFileMappingSize := filesPerEachProc;
      if i < extraFiles {
        thisFileMappingSize := thisFileMappingSize + 1;
      }
      fileMapping, fileCounter, remainder :=
        PassGroups(smaller, larger, before, thisFileMappingSize, i == rank, fileCounter, remainder);
      i := i + 1;
    }
    return Some(fileMapping);
  }

  function Concat<T>(ss: seq<seq<T>>): seq<T> {
    if ss == [] then [] else Concat(ss[..|ss| - 1]) + ss[|ss| - 1]
  }

  function Slices(smaller: int, larger: int, nprocs: int, n: nat): (s: seq<seq<seq<int>>>)
    requires smaller > 0 && larger >= 0 && nprocs > 0
    ensures |s| == n && forall i | 0 <= i < n :: s[i] == Slice(smaller, larger, nprocs, i)
  {
    seq(n, i => Slice(smaller, larger, nprocs, i))
  }

  function Groups(smaller: int, larger: int, n: nat): (s: seq<seq<int>>)
    requires smaller > 0 && larger >= 0
    ensures |s| == n && forall g | 0 <= g < n :: s[g] == Group(smaller, larger, g)
  {
    seq(n, g => Group(smaller, larger, g))
  }

  /** The slices of the first `n` processes, one after the other, are the first groups in order. */
  lemma {:induction false} SlicesInOrder(smaller: int, larger: int, nprocs: int, n: nat)
    requires smaller > 0 && larger >= 0 && nprocs > 0
    ensures GroupsBefore(smaller, nprocs, n) >= 0
    ensures Concat(Slices(smaller, larger, nprocs, n)) == Groups(smaller, larger, GroupsBefore(smaller, nprocs, n))
  {
    if n == 0 {
      GroupsBeforeEnds(smaller, nprocs);
    } else {
      SlicesInOrder(smaller, larger, nprocs, n - 1);
      GroupsBeforeNext(smaller, nprocs, n - 1);
      assert Slices(smaller, larger, nprocs, n)[..n - 1] == Slices(smaller, larger, nprocs, n - 1);
    }
  }

  lemma RangeConcat(a: int, b: int, c: int)
    requires a <= b <= c
    ensures Range(a, b) + Range(b, c) == Range(a, c)
  {
  }

  lemma OneGroupMore(smaller: int, larger: int, n: nat, m: nat)
    requires smaller > 0 && larger >= 0 && m == n + 1
    ensures Concat(Groups(smaller, larger, m)) == Concat(Groups(smaller, larger, n)) + Group(smaller, larger, n)
  {
    assert Groups(smaller, larger, m)[..n] == Groups(smaller, larger, n);
  }

  /** The first `n` groups, one after the other, are the first files in order. */
  lemma {:induction false} GroupsInOrder(smaller: int, larger: int, n: nat)
    requires smaller > 0 && larger >= 0
    ensures Start(smaller, larger, n) >= 0
    ensures Concat(Groups(smaller, larger, n)) == Range(0, Start(smaller, larger, n))
  {
    if n == 0 {
      assert Start(smaller, larger, 0) == 0;
    } else {
      var m := n - 1;
      GroupsInOrder(smaller, larger, m);
      StartIsMonotone(smaller, larger, m);
      OneGroupMore(smaller, larger, m, n);
      RangeConcat(0, Start(smaller, larger, m), Start(smaller, larger, n));
    }
  }

  lemma StartEnds(smaller: int, larger: int)
    requires smaller > 0 && larger >= 0
    ensures Start(smaller, larger, smaller) == larger
  {
  }

  lemma RatioAtLeastOne(smaller: int, larger: int)
    requires 0 < smaller <= larger
    ensures larger / smaller >= 1
  {
  }

  /** These are the files of group `g` in figures: the first `larger % smaller` groups have one file more than the
      others, and the files of a group follow those of the groups before it. */
  predicate IsGroup(files: seq<int>, smaller: int, larger: int, g: int)
    requires smaller > 0
  {
    && |files| == larger / smaller + (if g < larger % smaller then 1 else 0)
    && forall k | 0 <= k < |files| :: files[k] == g * (larger / smaller) + Min(g, larger % smaller) + k
  }

  lemma GroupInFigures(smaller: int, larger: int, g: int)
    requires smaller > 0 && larger >= 0
    ensures IsGroup(Group(smaller, larger, g), smaller, larger, g)
  {
    StartIsMonotone(smaller, larger, g);
  }

  lemma GroupsInFigures(smaller: int, nprocs: int, rank: int, before: int)
    requires nprocs > 0 && before == GroupsBefore(smaller, nprocs, rank)
    ensures before == rank * (smaller / nprocs) + Min(rank, smaller % nprocs)
    ensures GroupsOf(smaller, nprocs, rank) == smaller / nprocs + (if rank < smaller % nprocs then 1 else 0)
  {
  }

  lemma SliceFrom(smaller: int, larger: int, nprocs: int, rank: int, before: int)
    requires 0 < nprocs && 0 < smaller && larger >= 0 && before == GroupsBefore(smaller, nprocs, rank)
    ensures |Slice(smaller, larger, nprocs, rank)| == GroupsOf(smaller, nprocs, rank)
    ensures forall j | 0 <= j < |Slice(smaller, larger, nprocs, rank)| ::
              IsGroup(Slice(smaller, larger, nprocs, rank)[j], smaller, larger, before + j)
  {
    hide IsGroup, Group, GroupsBefore, GroupsOf;
    GroupsBeforeNext(smaller, nprocs, rank);
    forall j | 0 <= j < |Slice(smaller, larger, nprocs, rank)|
      ensures IsGroup(Slice(smaller, larger, nprocs, rank)[j], smaller, larger, before + j)
    {
      GroupInFigures(smaller, larger, before + j);
    }
  }

  /** The slice of a process in figures: the first `smaller % nprocs` processes have one group more than the others, and
      the groups of a process follow those of the processes before it. */
  lemma SliceInFigures(smaller: int, larger: int, nprocs: int, rank: int)
    requires 0 < nprocs && 0 < smaller && larger >= 0 && 0 <= rank < nprocs
    ensures var groups, before :=
              Slice(smaller, larger, nprocs, rank), rank * (smaller / nprocs) + Min(rank, smaller % nprocs);
            && |groups| == smaller / nprocs + (if rank < smaller % nprocs then 1 else 0)
            && forall j | 0 <= j < |groups| :: IsGroup(groups[j], smaller, larger, before + j)
  {
    hide IsGroup, Slice, GroupsBefore, GroupsOf;
    var before := GroupsBefore(smaller, nprocs, rank);
    GroupsInFigures(smaller, nprocs, rank, before);
    SliceFrom(smaller, larger, nprocs, rank, before);
  }

  /** The mappings that the processes compute on their own fit together: in rank order they are exactly
      `smaller` non-empty groups, whose sizes differ by at most one, and which list every file once, in order. */
  lemma MappingsPartitionTheFiles(smaller: int, larger: int, nprocs: int)
    requires 0 < nprocs && 0 < smaller <= larger
    ensures var groups := Concat(Slices(smaller, larger, nprocs, nprocs));
            && |groups| == smaller
            && (forall g | 0 <= g < smaller :: 1 <= larger / smaller <= |groups[g]| <= larger / smaller + 1)
            && Concat(groups) == Range(0, larger)
  {
    SlicesInOrder(smaller, larger, nprocs, nprocs);
    GroupsBeforeEnds(smaller, nprocs);
    GroupsInOrder(smaller, larger, smaller);
    StartEnds(smaller, larger);
    RatioAtLeastOne(smaller, larger);
    forall g: nat | g < smaller
      ensures larger / smaller <= |Group(smaller, larger, g)| <= larger / smaller + 1
    {
      StartIsMonotone(smaller, larger, g);
    }
  }

  /** The closed form by which a process names its `count`-th file on the smaller side. */
  function FileId(total: int, nprocs: int, rank: int, count: int): int
    requires nprocs > 0
  {
    var perProc, extra := total / nprocs, total % nprocs;
    perProc * rank + count + if extra != 0 then (if rank >= extra then extra else rank) else 0
  }

  /** The closed form agrees with the position of the group in the prefix loop. */
  lemma FileIdIsGroupPosition(total: int, nprocs: int, rank: int, count: int)
    requires nprocs > 0 && rank >= 0
    ensures FileId(total, nprocs, rank, count) == GroupsBefore(total, nprocs, rank) + count
    ensures FileId(total, nprocs, rank, count) == rank * (total / nprocs) + Min(rank, total % nprocs) + count
  {
  }

  lemma {:induction false} GroupsBeforeMonotone(total: int, nprocs: int, r: int, r': int)
    requires nprocs > 0 && total >= 0 && r <= r'
    ensures GroupsBefore(total, nprocs, r) <= GroupsBefore(total, nprocs, r')
    decreases r' - r
  {
    if r < r' {
      GroupsBeforeMonotone(total, nprocs, r, r' - 1);
      GroupsBeforeNext(total, nprocs, r' - 1);
    }
  }

  /** Which process owns file `id` of the smaller side, and as which of its files. */
  lemma {:induction false} OwnerOf(total: int, nprocs: int, n: int, id: int) returns (rank: int, count: int)
    requires 0 < nprocs && total >= 0 && 0 <= n && 0 <= id < GroupsBefore(total, nprocs, n)
    ensures 0 <= rank < n && 0 <= count < GroupsOf(total, nprocs, rank)
    ensures FileId(total, nprocs, rank, count) == id
  {
    GroupsBeforeEnds(total, nprocs);
    GroupsBeforeNext(total, nprocs, n - 1);
    if id < GroupsBefore(total, nprocs, n - 1) {
      rank, count := OwnerOf(total, nprocs, n - 1, id);
    } else {
      rank, count := n - 1, id - GroupsBefore(total, nprocs, n - 1);
      FileIdIsGroupPosition(total, nprocs, rank, count);
    }
  }

  /** File `id` of the smaller side is the `count`-th one of process `rank`. */
  predicate Owns(total: int, nprocs: int, rank: int, count: int, id: int)
    requires nprocs > 0
  {
    0 <= rank < nprocs && 0 <= count < GroupsOf(total, nprocs, rank) && FileId(total, nprocs, rank, count) == id
  }

  ghost predicate Owned(total: int, nprocs: int, id: int)
    requires nprocs > 0
  {
    exists rank, count :: Owns(total, nprocs, rank, count, id)
  }

  /** File ids on the smaller side are used exactly once over all processes: the owned ids are exactly those
      below `total`, and no id is owned twice. */
  lemma FileIdsAreABijection(total: int, nprocs: int)
    requires 0 < nprocs && total >= 0
    ensures forall id :: Owned(total, nprocs, id) <==> 0 <= id < total
    ensures forall r, c, r', c', id |
              Owns(total, nprocs, r, c, id) && Owns(total, nprocs, r', c', id) :: r == r' && c == c'
  {
    GroupsBeforeEnds(total, nprocs);
    forall id | 0 <= id < total
      ensures Owned(total, nprocs, id)
    {
      var rank, count := OwnerOf(total, nprocs, nprocs, id);
      assert Owns(total, nprocs, rank, count, id);
    }
    forall r, c, id | Owns(total, nprocs, r, c, id)
      ensures GroupsBefore(total, nprocs, r) <= id < GroupsBefore(total, nprocs, r + 1)
      ensures id == GroupsBefore(total, nprocs, r) + c && 0 <= id < total
    {
      FileIdIsGroupPosition(total, nprocs, r, c);
      GroupsBeforeNext(total, nprocs, r);
      GroupsBeforeMonotone(total, nprocs, 0, r);
      GroupsBeforeMonotone(total, nprocs, r + 1, nprocs);
    }
    forall r, c, r', c', id | Owns(total, nprocs, r, c, id) && Owns(total, nprocs, r', c', id)
      ensures r == r' && c == c'
    {
      if r < r' {
        GroupsBeforeMonotone(total, nprocs, r + 1, r');
      } else if r' < r {
        GroupsBeforeMonotone(total, nprocs, r' + 1, r);
      }
    }
  }
}
