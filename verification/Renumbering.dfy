/** Renumbering of the local indices of boxes and patches when several restart files are merged into one. */
module Renumbering {
  import opened Wrappers

  /** The different indices of a file, the one that occurs first last. */
  function Distinct(indices: seq<int>): (d: seq<int>)
    ensures forall x :: x in d <==> x in indices
    ensures forall i, j | 0 <= i < j < |d| :: d[i] != d[j]
  {
    if indices == [] then []
    else
      var d := Distinct(indices[..|indices| - 1]);
      assert indices == indices[..|indices| - 1] + [indices[|indices| - 1]];
      if indices[|indices| - 1] in d then d else [indices[|indices| - 1]] + d
  }

  function Replace(indices: seq<int>, x: int, y: int): (r: seq<int>)
    ensures |r| == |indices|
    ensures forall a | 0 <= a < |r| :: r[a] == if indices[a] == x then y else indices[a]
  {
    seq(|indices|, a requires 0 <= a < |indices| => if indices[a] == x then y else indices[a])
  }

  /** The indices of the file being merged, the indices used so far in the output, and a bound on the latter. */
  datatype Pool = Pool(indices: seq<int>, used: seq<int>, maxUsed: int)

  /** Enters one index of the new file: an index that is used already is replaced by a new one. */
  function Enter(p: Pool, x: int): Pool {
    if x in p.used then Pool(Replace(p.indices, x, p.maxUsed + 1), [p.maxUsed + 1] + p.used, p.maxUsed + 1)
    else p.(used := [x] + p.used, maxUsed := Max(p.maxUsed, x))
  }

  function EnterAll(p: Pool, xs: seq<int>): Pool
    decreases |xs|
  {
    if xs == [] then p else EnterAll(Enter(p, xs[0]), xs[1..])
  }

  /** Merges the indices of one more file. */
  function Renumber(indices: seq<int>, used: seq<int>, maxUsed: int): Pool {
    EnterAll(Pool(indices, used, maxUsed), Distinct(indices))
  }

  /** The bound bounds every used index. */
  predicate Bounded(used: seq<int>, maxUsed: int) {
    maxUsed >= 0 && forall k | 0 <= k < |used| :: used[k] <= maxUsed
  }

  /** Two boxes share an index afterwards exactly if they shared one before. */
  predicate KeepsApart(before: seq<int>, after: seq<int>) {
    |before| == |after| && forall a, b | 0 <= a < |before| && 0 <= b < |before| ::
      before[a] == before[b] <==> after[a] == after[b]
  }

  /** The index that occurs for the first time after all others have occurred is the largest one. */
  predicate LargestComesLast(indices: seq<int>) {
    forall k | 0 <= k < |indices| :: indices[k] <= Distinct(indices)[0]
  }

  predicate NonDecreasing(indices: seq<int>) {
    forall a, b | 0 <= a < b < |indices| :: indices[a] <= indices[b]
  }

  lemma {:induction false} SortedComesLast(indices: seq<int>)
    requires NonDecreasing(indices)
    ensures LargestComesLast(indices)
    ensures indices != [] ==> Distinct(indices)[0] == indices[|indices| - 1]
  {
    if indices != [] {
      SortedComesLast(indices[..|indices| - 1]);
    }
  }

  // ---------------------------------------------------------------- what becomes of the indices of one file

  /** What is known beforehand when a file is merged: the indices that are used already, and their bound. */
  datatype Taken = Taken(used: set<int>, maxUsed: int)

  function TakenOf(used: seq<int>, maxUsed: int): Taken {
    Taken((set u | u in used), maxUsed)
  }

  /** The bound when the first `n` of the different indices `xs` of the file have been entered. */
  function Top(xs: seq<int>, t: Taken, n: nat): int
    requires n <= |xs|
  {
    if n == 0 then t.maxUsed
    else if xs[n - 1] in t.used then Top(xs, t, n - 1) + 1
    else Max(Top(xs, t, n - 1), xs[n - 1])
  }

  /** What the `n`-th of them becomes. */
  function NewName(xs: seq<int>, t: Taken, n: nat): int
    requires n < |xs|
  {
    if xs[n] in t.used then Top(xs, t, n) + 1 else xs[n]
  }

  function NewNames(xs: seq<int>, t: Taken, n: nat): (r: seq<int>)
    requires n <= |xs|
    ensures |r| == n && forall k | 0 <= k < n :: r[k] == NewName(xs, t, k)
  {
    seq(n, k requires 0 <= k < n => NewName(xs, t, k))
  }

  /** No index that is used already is replaced by one that is still to be entered. */
  predicate NoClash(xs: seq<int>, t: Taken) {
    forall n, k | 0 <= n < k < |xs| && xs[n] in t.used :: xs[k] != Top(xs, t, n) + 1
  }

  /** The state while the distinct indices `xs[..n]` of a file have been entered. */
  ghost predicate Entered(before: seq<int>, t: Taken, xs: seq<int>, n: nat, p: Pool)
    requires n <= |xs|
  {
    var image := NewNames(xs, t, n);
    && |p.indices| == |before| && p.maxUsed == Top(xs, t, n)
    && Bounded(p.used, p.maxUsed)
    && (forall k | 0 <= k < n :: image[k] !in t.used)
    && (forall j, k | 0 <= j < k < n :: image[j] != image[k])
    && (forall u :: u in p.used <==> u in t.used || u in image)
    && (forall j, k | 0 <= j < n <= k < |xs| :: image[j] != xs[k])
    && (forall a, k | 0 <= a < |before| && 0 <= k < n && before[a] == xs[k] :: p.indices[a] == image[k])
    && (forall a | 0 <= a < |before| && before[a] !in xs[..n] :: p.indices[a] == before[a])
  }

  lemma EnterOne(before: seq<int>, t: Taken, xs: seq<int>, n: nat, p: Pool)
    requires n < |xs| && Entered(before, t, xs, n, p)
    requires forall i, j | 0 <= i < j < |xs| :: xs[i] != xs[j]
    requires forall k | n < k < |xs| :: NewName(xs, t, n) != xs[k]
    ensures Entered(before, t, xs, n + 1, Enter(p, xs[n]))
  {
    var x, v, q := xs[n], NewName(xs, t, n), Enter(p, xs[n]);
    var image, image' := NewNames(xs, t, n), NewNames(xs, t, n + 1);
    assert xs[..n + 1] == xs[..n] + [x] && image' == image + [v];
    assert x in p.used <==> x in t.used;
    assert v !in p.used;
    assert q.used == [v] + p.used;
    forall a | 0 <= a < |before|
      ensures before[a] in xs[..n] ==> q.indices[a] == p.indices[a]
      ensures before[a] == x ==> q.indices[a] == v
      ensures before[a] !in xs[..n + 1] ==> q.indices[a] == before[a]
    {
      if before[a] in xs[..n] {
        var k :| 0 <= k < n && xs[k] == before[a];
        assert p.indices[a] == image[k] != x;
      }
    }
    forall a, k | 0 <= a < |before| && 0 <= k < n + 1 && before[a] == xs[k]
      ensures q.indices[a] == image'[k]
    {
      if k < n {
        assert before[a] in xs[..n];
      }
    }
  }

  /** Once two boxes have got the same index, they keep sharing one. */
  lemma {:induction false} SharedStaysShared(p: Pool, xs: seq<int>, a: nat, b: nat)
    requires a < |p.indices| && b < |p.indices| && p.indices[a] == p.indices[b]
    ensures |EnterAll(p, xs).indices| == |p.indices|
    ensures EnterAll(p, xs).indices[a] == EnterAll(p, xs).indices[b]
    decreases |xs|
  {
    if xs != [] {
      SharedStaysShared(Enter(p, xs[0]), xs[1..], a, b);
    }
  }

  /** Without a clash all indices become what they are to become. */
  lemma {:induction false} EnterRest(before: seq<int>, t: Taken, xs: seq<int>, n: nat, p: Pool)
    requires n <= |xs| && Entered(before, t, xs, n, p) && NoClash(xs, t)
    requires forall i, j | 0 <= i < j < |xs| :: xs[i] != xs[j]
    ensures Entered(before, t, xs, |xs|, EnterAll(p, xs[n..]))
    decreases |xs| - n
  {
    if n < |xs| {
      hide Entered;
      EnterOne(before, t, xs, n, p);
      assert xs[n..][0] == xs[n] && xs[n..][1..] == xs[n + 1..];
      EnterRest(before, t, xs, n + 1, Enter(p, xs[n]));
    }
  }

  /** If the boxes are kept apart in the end, no index becomes one that is still to be entered. */
  lemma NameIsNew(before: seq<int>, t: Taken, xs: seq<int>, n: nat, p: Pool, k: nat)
    requires n < k < |xs| && Entered(before, t, xs, n, p) && xs[n] in before && xs[k] in before
    requires forall i, j | 0 <= i < j < |xs| :: xs[i] != xs[j]
    requires KeepsApart(before, EnterAll(Enter(p, xs[n]), xs[n + 1..]).indices)
    ensures NewName(xs, t, n) != xs[k]
  {
    var a :| 0 <= a < |before| && before[a] == xs[n];
    var b :| 0 <= b < |before| && before[b] == xs[k];
    assert p.indices[a] == xs[n] && p.indices[b] == xs[k];
    assert xs[n] in p.used <==> xs[n] in t.used;
    if NewName(xs, t, n) == xs[k] {
      SharedStaysShared(Enter(p, xs[n]), xs[n + 1..], a, b);
    }
  }

  /** From the `n`-th different index on, there is no clash. */
  predicate NoClashFrom(xs: seq<int>, t: Taken, n: nat) {
    forall i, k | n <= i < k < |xs| && xs[i] in t.used :: xs[k] != Top(xs, t, i) + 1
  }

  lemma NoClashFromNext(xs: seq<int>, t: Taken, n: nat, next: nat)
    requires next == n + 1 <= |xs| && NoClashFrom(xs, t, next)
    requires forall k | n < k < |xs| :: NewName(xs, t, n) != xs[k]
    ensures NoClashFrom(xs, t, n)
  {
  }

  lemma {:induction false} ApartShowsNoClash(before: seq<int>, t: Taken, xs: seq<int>, n: nat, p: Pool)
    requires n <= |xs| && Entered(before, t, xs, n, p) && KeepsApart(before, EnterAll(p, xs[n..]).indices)
    requires forall i, j | 0 <= i < j < |xs| :: xs[i] != xs[j]
    requires forall k | 0 <= k < |xs| :: xs[k] in before
    ensures NoClashFrom(xs, t, n)
    decreases |xs| - n
  {
    if n < |xs| {
      hide Entered, KeepsApart, NoClashFrom, NewName, Enter;
      assert xs[n..][0] == xs[n] && xs[n..][1..] == xs[n + 1..];
      forall k | n < k < |xs|
        ensures NewName(xs, t, n) != xs[k]
      {
        NameIsNew(before, t, xs, n, p, k);
      }
      EnterOne(before, t, xs, n, p);
      ApartShowsNoClash(before, t, xs, n + 1, Enter(p, xs[n]));
      NoClashFromNext(xs, t, n, n + 1);
    }
  }

  /** One more file has been merged: its boxes keep apart, all their new indices are new to the output, and the
      bound stays one. */
  predicate MergedApart(indices: seq<int>, used: seq<int>, p: Pool) {
    && KeepsApart(indices, p.indices)
    && (forall a | 0 <= a < |indices| :: p.indices[a] !in used)
    && (forall u | u in p.used :: u in used || u in p.indices) && (forall u | u in used :: u in p.used)
    && (forall u | u in p.indices :: u in p.used)
    && Bounded(p.used, p.maxUsed)
  }

  lemma AllEntered(indices: seq<int>, used: seq<int>, maxUsed: int, xs: seq<int>, p: Pool)
    requires xs == Distinct(indices) && Entered(indices, TakenOf(used, maxUsed), xs, |xs|, p)
    ensures MergedApart(indices, used, p)
  {
    var image := NewNames(xs, TakenOf(used, maxUsed), |xs|);
    assert xs[..|xs|] == xs;
    forall a | 0 <= a < |indices|
      ensures exists k :: 0 <= k < |xs| && indices[a] == xs[k] && p.indices[a] == image[k]
    {
      assert indices[a] in xs;
      var k :| 0 <= k < |xs| && xs[k] == indices[a];
    }
    forall k | 0 <= k < |xs|
      ensures image[k] in p.indices
    {
      assert xs[k] in indices;
      var a :| 0 <= a < |indices| && indices[a] == xs[k];
      assert p.indices[a] == image[k];
    }
  }

  /** What is taken when the file has been merged. */
  function TakenAfter(xs: seq<int>, t: Taken): Taken {
    Taken(t.used + (set u | u in NewNames(xs, t, |xs|)), Top(xs, t, |xs|))
  }

  lemma NothingEntered(indices: seq<int>, used: seq<int>, maxUsed: int)
    requires Bounded(used, maxUsed)
    ensures Entered(indices, TakenOf(used, maxUsed), Distinct(indices), 0, Pool(indices, used, maxUsed))
  {
  }

  lemma TakenInTheEnd(indices: seq<int>, t: Taken, xs: seq<int>, p: Pool)
    requires Entered(indices, t, xs, |xs|, p)
    ensures TakenOf(p.used, p.maxUsed) == TakenAfter(xs, t)
  {
    var image := NewNames(xs, t, |xs|);
    assert forall u :: u in TakenOf(p.used, p.maxUsed).used <==> u in t.used || u in image;
  }

  /** Merging one more file without a clash. */
  lemma RenumberWithoutClash(indices: seq<int>, used: seq<int>, maxUsed: int)
    requires Bounded(used, maxUsed) && NoClash(Distinct(indices), TakenOf(used, maxUsed))
    ensures var p := Renumber(indices, used, maxUsed);
            && MergedApart(indices, used, p)
            && TakenOf(p.used, p.maxUsed) == TakenAfter(Distinct(indices), TakenOf(used, maxUsed))
  {
    hide Entered, MergedApart, TakenOf, TakenAfter, Distinct, NoClash;
    var xs, t, p := Distinct(indices), TakenOf(used, maxUsed), Pool(indices, used, maxUsed);
    NothingEntered(indices, used, maxUsed);
    EnterRest(indices, t, xs, 0, p);
    assert xs[0..] == xs;
    AllEntered(indices, used, maxUsed, xs, EnterAll(p, xs));
    TakenInTheEnd(indices, t, xs, EnterAll(p, xs));
  }

  /** Merging one more file keeps its boxes apart, if and only if there is no clash. */
  lemma RenumberKeepsApartIff(indices: seq<int>, used: seq<int>, maxUsed: int)
    requires Bounded(used, maxUsed)
    ensures KeepsApart(indices, Renumber(indices, used, maxUsed).indices)
            <==> NoClash(Distinct(indices), TakenOf(used, maxUsed))
  {
    hide Entered, Distinct, Top;
    var xs, t, p := Distinct(indices), TakenOf(used, maxUsed), Pool(indices, used, maxUsed);
    if KeepsApart(indices, Renumber(indices, used, maxUsed).indices) {
      NothingEntered(indices, used, maxUsed);
      assert xs[0..] == xs;
      ApartShowsNoClash(indices, t, xs, 0, p);
    } else if NoClash(xs, t) {
      RenumberWithoutClash(indices, used, maxUsed);
    }
  }

  /** Whenever merging one more file keeps its boxes apart, all their new indices are new to the output. */
  lemma RenumberIsSeparate(indices: seq<int>, used: seq<int>, maxUsed: int)
    requires Bounded(used, maxUsed) && KeepsApart(indices, Renumber(indices, used, maxUsed).indices)
    ensures MergedApart(indices, used, Renumber(indices, used, maxUsed))
  {
    RenumberKeepsApartIff(indices, used, maxUsed);
    RenumberWithoutClash(indices, used, maxUsed);
  }

  // ---------------------------------------------------------------- the new indices of one file

  /** At position `a` the file has an index that it does not have before. */
  predicate OccursFirst(indices: seq<int>, a: nat) {
    a < |indices| && forall c | 0 <= c < a :: indices[c] != indices[a]
  }

  /** The new index at position `a` is the next one above `maxUsed` and above the new indices of all those that the file
      has later for the first time. */
  predicate IsNextFree(indices: seq<int>, after: seq<int>, maxUsed: int, a: nat)
    requires a < |indices| == |after|
  {
    && maxUsed < after[a]
    && (forall b | a < b < |indices| && OccursFirst(indices, b) :: after[b] < after[a])
    && (after[a] == maxUsed + 1 || exists b :: a < b < |indices| && OccursFirst(indices, b) && after[a] == after[b] + 1)
  }

  /** Every index occurs for the first time somewhere. */
  lemma {:induction false} FirstOccurrence(indices: seq<int>, x: int) returns (a: nat)
    requires x in indices
    ensures OccursFirst(indices, a) && indices[a] == x
  {
    var n := |indices| - 1;
    if x in indices[..n] {
      a := FirstOccurrence(indices[..n], x);
      assert forall c | 0 <= c < a :: indices[..n][c] == indices[c];
    } else {
      a := n;
      assert forall c | 0 <= c < n :: indices[..n][c] == indices[c];
    }
  }

  /** The later an index occurs for the first time, the earlier it is in the list of different indices. */
  lemma {:induction false} ListedBackwards(indices: seq<int>, a: nat, b: nat) returns (k: nat, n: nat)
    requires a < b && OccursFirst(indices, a) && OccursFirst(indices, b)
    ensures k < n < |Distinct(indices)| && Distinct(indices)[k] == indices[b] && Distinct(indices)[n] == indices[a]
  {
    var m := |indices| - 1;
    var front := indices[..m];
    assert forall c | 0 <= c < m :: front[c] == indices[c];
    if b == m {
      assert indices[b] !in front;
      assert indices[a] in front;
      var d := Distinct(front);
      n :| n < |d| && d[n] == indices[a];
      k, n := 0, n + 1;
    } else {
      k, n := ListedBackwards(front, a, b);
      if indices[m] !in front {
        k, n := k + 1, n + 1;
      }
    }
  }

  /** The bound is the largest of the old one and the new indices. */
  lemma {:induction false} TopIsLargest(xs: seq<int>, t: Taken, n: nat)
    requires n <= |xs|
    ensures t.maxUsed <= Top(xs, t, n) && forall k | 0 <= k < n :: NewName(xs, t, k) <= Top(xs, t, n)
    ensures Top(xs, t, n) == t.maxUsed || exists k :: 0 <= k < n && NewName(xs, t, k) == Top(xs, t, n)
  {
    if n > 0 {
      TopIsLargest(xs, t, n - 1);
      if xs[n - 1] in t.used || Top(xs, t, n - 1) < xs[n - 1] {
        assert NewName(xs, t, n - 1) == Top(xs, t, n);
      }
    }
  }

  /** Indices as they are to become, position by position. */
  lemma NamesAtPositions(indices: seq<int>, used: seq<int>, maxUsed: int)
    requires Bounded(used, maxUsed) && KeepsApart(indices, Renumber(indices, used, maxUsed).indices)
    ensures var xs, t, p := Distinct(indices), TakenOf(used, maxUsed), Renumber(indices, used, maxUsed);
            && |p.indices| == |indices| && p.maxUsed == Top(xs, t, |xs|)
            && forall a, k | 0 <= a < |indices| && 0 <= k < |xs| && indices[a] == xs[k] ::
                 p.indices[a] == NewName(xs, t, k)
  {
    hide Distinct, Top, NewName, NoClash, Enter, TakenOf;
    var xs, t, p := Distinct(indices), TakenOf(used, maxUsed), Pool(indices, used, maxUsed);
    RenumberKeepsApartIff(indices, used, maxUsed);
    NothingEntered(indices, used, maxUsed);
    assert xs[0..] == xs;
    EnterRest(indices, t, xs, 0, p);
  }

  /** An index that is used already becomes the next free one. */
  lemma RepeatedIndex(indices: seq<int>, used: seq<int>, maxUsed: int, a: nat)
    requires Bounded(used, maxUsed) && KeepsApart(indices, Renumber(indices, used, maxUsed).indices)
    requires OccursFirst(indices, a) && indices[a] in used
    ensures IsNextFree(indices, Renumber(indices, used, maxUsed).indices, maxUsed, a)
  {
    hide Distinct, Top, Renumber, KeepsApart;
    var xs, t, after := Distinct(indices), TakenOf(used, maxUsed), Renumber(indices, used, maxUsed).indices;
    NamesAtPositions(indices, used, maxUsed);
    assert indices[a] in xs;
    var n :| 0 <= n < |xs| && xs[n] == indices[a];
    TopIsLargest(xs, t, n);
    assert after[a] == Top(xs, t, n) + 1;
    forall b | a < b < |indices| && OccursFirst(indices, b)
      ensures after[b] < after[a]
    {
      var k, n' := ListedBackwards(indices, a, b);
      assert n' == n;
      assert after[b] == NewName(xs, t, k);
    }
    if Top(xs, t, n) != maxUsed {
      var k :| 0 <= k < n && NewName(xs, t, k) == Top(xs, t, n);
      var b := FirstAfter(indices, a, n, k);
      assert after[b] == NewName(xs, t, k);
    }
  }

  /** An index that is listed before the one at position `a` occurs for the first time after it. */
  lemma FirstAfter(indices: seq<int>, a: nat, n: nat, k: nat) returns (b: nat)
    requires OccursFirst(indices, a) && k < n < |Distinct(indices)| && Distinct(indices)[n] == indices[a]
    ensures a < b && OccursFirst(indices, b) && Distinct(indices)[k] == indices[b]
  {
    b := FirstOccurrence(indices, Distinct(indices)[k]);
    if b < a {
      var i, j := ListedBackwards(indices, b, a);
    }
  }

  /** What merging one more file does to its indices, if its boxes are kept apart: an index that is not used yet
      stays; all others become the next free one, in the reverse order of their first occurrences; and the bound
      becomes the largest of the old bound and the new indices. */
  lemma RenumberedIndices(indices: seq<int>, used: seq<int>, maxUsed: int)
    requires Bounded(used, maxUsed) && KeepsApart(indices, Renumber(indices, used, maxUsed).indices)
    ensures var p := Renumber(indices, used, maxUsed);
            && (forall a | 0 <= a < |indices| && indices[a] !in used :: p.indices[a] == indices[a])
            && (forall a | 0 <= a < |indices| && OccursFirst(indices, a) && indices[a] in used ::
                  IsNextFree(indices, p.indices, maxUsed, a))
            && maxUsed <= p.maxUsed && (forall a | 0 <= a < |indices| :: p.indices[a] <= p.maxUsed)
            && (p.maxUsed == maxUsed || p.maxUsed in p.indices)
  {
    hide Distinct, Top, Renumber, KeepsApart, IsNextFree, OccursFirst;
    var xs, t, p := Distinct(indices), TakenOf(used, maxUsed), Renumber(indices, used, maxUsed);
    NamesAtPositions(indices, used, maxUsed);
    TopIsLargest(xs, t, |xs|);
    forall a: nat | a < |indices|
      ensures p.indices[a] <= p.maxUsed && (indices[a] !in used ==> p.indices[a] == indices[a])
    {
      assert indices[a] in xs;
      var k :| 0 <= k < |xs| && xs[k] == indices[a];
      assert p.indices[a] == NewName(xs, t, k);
    }
    forall a: nat | a < |indices| && OccursFirst(indices, a) && indices[a] in used
      ensures IsNextFree(indices, p.indices, maxUsed, a)
    {
      RepeatedIndex(indices, used, maxUsed, a);
    }
    if p.maxUsed != maxUsed {
      var k :| 0 <= k < |xs| && NewName(xs, t, k) == Top(xs, t, |xs|);
      assert xs[k] in indices;
      var a :| 0 <= a < |indices| && indices[a] == xs[k];
      assert p.indices[a] == NewName(xs, t, k);
    }
  }

  lemma {:induction false} TopGrows(xs: seq<int>, t: Taken, n: nat)
    requires n <= |xs| && forall u | u in t.used :: u <= t.maxUsed
    ensures Top(xs, t, n) >= t.maxUsed && (|xs| > 0 && (n > 0 || xs[0] in t.used) ==> Top(xs, t, n) >= xs[0])
  {
    if n > 0 {
      TopGrows(xs, t, n - 1);
    }
  }

  /** If the largest index comes last, there is no clash, whatever is taken. */
  lemma LargestLastNoClash(indices: seq<int>, used: seq<int>, maxUsed: int)
    requires Bounded(used, maxUsed) && LargestComesLast(indices)
    ensures NoClash(Distinct(indices), TakenOf(used, maxUsed))
  {
    var xs, t := Distinct(indices), TakenOf(used, maxUsed);
    forall n, k | 0 <= n < k < |xs| && xs[n] in t.used
      ensures xs[k] != Top(xs, t, n) + 1
    {
      assert xs[k] in indices;
      TopGrows(xs, t, n);
    }
  }

  /** Merging one more file, in which the largest index comes last. */
  lemma RenumberIsInjective(indices: seq<int>, used: seq<int>, maxUsed: int)
    requires Bounded(used, maxUsed) && LargestComesLast(indices)
    ensures MergedApart(indices, used, Renumber(indices, used, maxUsed))
  {
    LargestLastNoClash(indices, used, maxUsed);
    RenumberWithoutClash(indices, used, maxUsed);
  }

  predicate NonNegative(indices: seq<int>) {
    forall k | 0 <= k < |indices| :: indices[k] >= 0
  }

  /** The indices of a file when it is merged after one other file. */
  function MergedAfter(prior: seq<int>, indices: seq<int>): seq<int> {
    var q := Renumber(prior, [], 0);
    Renumber(indices, q.used, q.maxUsed).indices
  }

  lemma MergePair(x: int, y: int)
    requires 0 <= x < y
    ensures var q := Renumber([x, y], [], 0); x in q.used && q.maxUsed == y
    ensures var q := Renumber([x], [], 0); x in q.used && q.maxUsed == x
  {
    assert [x, y][..1] == [x] && [x][..0] == [];
    assert Distinct([x]) == [x];
    assert Distinct([x, y]) == [y, x];
    var p := Pool([x, y], [], 0);
    assert [y, x][1..] == [x] && [x][1..] == [];
    assert EnterAll(p, [y, x]) == EnterAll(Enter(p, y), [x]) == Enter(Enter(p, y), x);
    var p' := Pool([x], [], 0);
    assert EnterAll(p', [x]) == EnterAll(Enter(p', x), []) == Enter(p', x);
  }

  /** An ordered file that uses `x`, and nothing larger than `y`. */
  lemma UsesUpTo(x: int, y: int) returns (prior: seq<int>)
    requires 0 <= x <= y
    ensures NonDecreasing(prior) && NonNegative(prior)
    ensures var q := Renumber(prior, [], 0); x in q.used && q.maxUsed == y
  {
    prior := if x == y then [x] else [x, y];
    MergePair(x, if x == y then x + 1 else y);
  }

  lemma {:induction false} CollideAfter(indices: seq<int>, used: seq<int>, maxUsed: int, a: nat, b: nat)
    requires a < |indices| && b < |indices|
    requires indices[a] == Distinct(indices)[0] && indices[a] in used
    requires indices[b] == maxUsed + 1 && indices[a] != indices[b]
    ensures !KeepsApart(indices, Renumber(indices, used, maxUsed).indices)
  {
    var xs := Distinct(indices);
    var p := Enter(Pool(indices, used, maxUsed), xs[0]);
    SharedStaysShared(p, xs[1..], a, b);
  }

  /** If the largest index does not come last, there is an ordered file after which merging gives two
      different boxes of this file the same index. */
  lemma MergeCollides(indices: seq<int>) returns (prior: seq<int>)
    requires NonNegative(indices) && !LargestComesLast(indices)
    ensures NonDecreasing(prior) && NonNegative(prior)
    ensures !KeepsApart(indices, MergedAfter(prior, indices))
  {
    var b :| 0 <= b < |indices| && indices[b] > Distinct(indices)[0];
    var x, y := Distinct(indices)[0], indices[b];
    assert x in indices;
    var a :| 0 <= a < |indices| && indices[a] == x;
    assert 0 <= x < y;
    prior := UsesUpTo(x, y - 1);
    var q := Renumber(prior, [], 0);
    CollideAfter(indices, q.used, q.maxUsed, a, b);
  }

  /** Merging keeps the boxes of a file apart after every ordered file, if and only if the largest index of
      the file comes last. */
  lemma MergeKeepsApartIff(indices: seq<int>)
    requires NonNegative(indices)
    ensures (forall prior | NonDecreasing(prior) && NonNegative(prior) ::
             KeepsApart(indices, MergedAfter(prior, indices)))
            <==> LargestComesLast(indices)
  {
    if LargestComesLast(indices) {
      forall prior | NonDecreasing(prior) && NonNegative(prior)
        ensures KeepsApart(indices, MergedAfter(prior, indices))
      {
        SortedComesLast(prior);
        RenumberIsInjective(prior, [], 0);
        var q := Renumber(prior, [], 0);
        RenumberIsInjective(indices, q.used, q.maxUsed);
      }
    } else {
      var prior := MergeCollides(indices);
    }
  }

  /** The local indices of several files after merging, and the state of the output. */
  datatype Merged = Merged(files: seq<seq<int>>, used: seq<int>, maxUsed: int)

  function Merge(files: seq<seq<int>>): (m: Merged)
    ensures |m.files| == |files|
  {
    if files == [] then Merged([], [], 0)
    else
      var m := Merge(files[..|files| - 1]);
      var p := Renumber(files[|files| - 1], m.used, m.maxUsed);
      Merged(m.files + [p.indices], p.used, p.maxUsed)
  }

  /** Boxes of different files have different indices, and the bound bounds every index that is used. */
  predicate Separated(m: Merged) {
    && (forall i, j, a, b | 0 <= i < j < |m.files| && 0 <= a < |m.files[i]| && 0 <= b < |m.files[j]| ::
          m.files[i][a] != m.files[j][b])
    && (forall i, a | 0 <= i < |m.files| && 0 <= a < |m.files[i]| :: m.files[i][a] in m.used)
    && Bounded(m.used, m.maxUsed)
  }

  /** Two boxes of one file share an index after merging exactly if they did before. */
  predicate FilesApart(files: seq<seq<int>>, merged: seq<seq<int>>) {
    |merged| == |files| && forall i | 0 <= i < |files| :: KeepsApart(files[i], merged[i])
  }

  lemma OneFileMore(m: Merged, last: seq<int>, p: Pool)
    requires Separated(m) && MergedApart(last, m.used, p)
    ensures Separated(Merged(m.files + [p.indices], p.used, p.maxUsed))
  {
  }

  /** What is taken when all these files have been merged, reckoned from their indices alone. */
  function TakenBy(files: seq<seq<int>>): Taken {
    if files == [] then Taken({}, 0)
    else TakenAfter(Distinct(files[|files| - 1]), TakenBy(files[..|files| - 1]))
  }

  /** In no file an index that an earlier file has taken is replaced by one that is still to be entered. */
  predicate NoFileClashes(files: seq<seq<int>>) {
    forall i | 0 <= i < |files| :: NoClash(Distinct(files[i]), TakenBy(files[..i]))
  }

  lemma NoFileClashesNext(front: seq<seq<int>>, last: seq<int>)
    ensures NoFileClashes(front + [last]) <==> NoFileClashes(front) && NoClash(Distinct(last), TakenBy(front))
  {
    hide NoClash, Distinct, TakenBy;
    var files := front + [last];
    forall i | 0 <= i < |front|
      ensures files[i] == front[i] && files[..i] == front[..i]
    {
    }
    assert files[..|front|] == front && files[|front|] == last;
  }

  lemma FilesApartNext(front: seq<seq<int>>, last: seq<int>, merged: seq<seq<int>>, lastMerged: seq<int>)
    requires |merged| == |front|
    ensures FilesApart(front + [last], merged + [lastMerged]) <==>
            FilesApart(front, merged) && KeepsApart(last, lastMerged)
  {
    var files, all := front + [last], merged + [lastMerged];
    assert files[|front|] == last && all[|front|] == lastMerged;
    assert forall i | 0 <= i < |front| :: files[i] == front[i] && all[i] == merged[i];
  }

  /** Merging any number of files keeps the boxes of each of them apart, if and only if there is no clash; then boxes of
      different files get different indices too. */
  lemma {:induction false} MergeKeepsFilesApartIff(files: seq<seq<int>>)
    ensures FilesApart(files, Merge(files).files) <==> NoFileClashes(files)
    ensures NoFileClashes(files) ==>
              var m := Merge(files); Separated(m) && TakenOf(m.used, m.maxUsed) == TakenBy(files)
  {
    if files != [] {
      var front, last := files[..|files| - 1], files[|files| - 1];
      var m := Merge(front);
      var p := Renumber(last, m.used, m.maxUsed);
      assert files == front + [last];
      MergeKeepsFilesApartIff(front);
      NoFileClashesNext(front, last);
      FilesApartNext(front, last, m.files, p.indices);
      if NoFileClashes(front) {
        RenumberKeepsApartIff(last, m.used, m.maxUsed);
        if NoClash(Distinct(last), TakenBy(front)) {
          RenumberWithoutClash(last, m.used, m.maxUsed);
          OneFileMore(m, last, p);
        }
      }
    }
  }

  /** Whenever merging any number of files keeps the boxes of each of them apart, boxes of different files get
      different indices too. */
  lemma MergeIsSeparate(files: seq<seq<int>>)
    requires FilesApart(files, Merge(files).files)
    ensures Separated(Merge(files))
  {
    MergeKeepsFilesApartIff(files);
  }

  /** Merging any number of files in each of which, but for the first, the largest index comes last keeps all
      boxes apart. */
  lemma {:induction false} MergeIsInjective(files: seq<seq<int>>)
    requires forall i | 1 <= i < |files| :: LargestComesLast(files[i])
    ensures NoFileClashes(files) && FilesApart(files, Merge(files).files) && Separated(Merge(files))
  {
    if files != [] {
      var front, last := files[..|files| - 1], files[|files| - 1];
      var m := Merge(front);
      assert files == front + [last];
      MergeIsInjective(front);
      MergeKeepsFilesApartIff(front);
      if front != [] {
        LargestLastNoClash(last, m.used, m.maxUsed);
      }
      NoFileClashesNext(front, last);
    }
    MergeKeepsFilesApartIff(files);
  }

  /** Merging more files does not change the indices of the earlier ones. */
  lemma {:induction false} MergePrefix(files: seq<seq<int>>, n: nat)
    requires n <= |files|
    ensures Merge(files).files[..n] == Merge(files[..n]).files
  {
    if n == |files| {
      assert files[..n] == files;
    } else {
      MergePrefix(files[..|files| - 1], n);
      assert files[..|files| - 1][..n] == files[..n];
    }
  }
}
