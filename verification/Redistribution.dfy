/** The run of the restart redistribution tool over all its processes.  Every process merges or splits the files
    of its own groups; together they write every output file once and lose nothing. */
module Redistribution {
  import FileMapping
  import opened Wrappers
  import opened Renumbering
  import opened BoxLevels
  import opened PatchLevels

  // ---------------------------------------------------------------- jobs

  function Smaller(ins: int, outs: int): int {
    Min(ins, outs)
  }

  /** Job `g` reads the input files from `FirstIn(g)` up to `FirstIn(g + 1)`, */
  function FirstIn(ins: int, outs: int, g: int): int
    requires ins > 0 && outs > 0
  {
    if ins < outs then g else FileMapping.Start(outs, ins, g)
  }

  /** and writes the output files from `FirstOut(g)` up to `FirstOut(g + 1)`. */
  function FirstOut(ins: int, outs: int, g: int): int
    requires ins > 0 && outs > 0
  {
    if ins < outs then FileMapping.Start(ins, outs, g) else g
  }

  /** Every job reads and writes at least one file, and does not both read and write several. */
  lemma JobSizes(ins: int, outs: int, g: int)
    requires ins > 0 && outs > 0
    ensures FirstIn(ins, outs, g) < FirstIn(ins, outs, g + 1) && FirstOut(ins, outs, g) < FirstOut(ins, outs, g + 1)
    ensures FirstIn(ins, outs, g + 1) == FirstIn(ins, outs, g) + 1
            || FirstOut(ins, outs, g + 1) == FirstOut(ins, outs, g) + 1
    ensures FirstIn(ins, outs, 0) == 0 == FirstOut(ins, outs, 0)
    ensures FirstIn(ins, outs, Smaller(ins, outs)) == ins && FirstOut(ins, outs, Smaller(ins, outs)) == outs
  {
    if ins < outs {
      FileMapping.StartIsMonotone(ins, outs, g);
      FileMapping.RatioAtLeastOne(ins, outs);
      FileMapping.StartEnds(ins, outs);
    } else {
      FileMapping.StartIsMonotone(outs, ins, g);
      FileMapping.RatioAtLeastOne(outs, ins);
      FileMapping.StartEnds(outs, ins);
    }
  }

  /** The jobs in figures: on the smaller side job `g` has file `g`, on the other one the `g`-th group, of which the
      first ones have one file more than the others. */
  lemma JobInFigures(ins: int, outs: int, g: int)
    requires ins > 0 && outs > 0 && g >= 0
    ensures ins <= outs ==> FirstIn(ins, outs, g) == g
    ensures outs <= ins ==> FirstOut(ins, outs, g) == g
    ensures ins <= outs ==> FirstOut(ins, outs, g) == g * (outs / ins) + Min(g, outs % ins)
    ensures outs <= ins ==> FirstIn(ins, outs, g) == g * (ins / outs) + Min(g, ins % outs)
  {
    if ins == outs {
      assert outs / ins == 1 && outs % ins == 0;
    }
  }

  lemma {:induction false} JobsInOrder(ins: int, outs: int, g: int, h: int)
    requires ins > 0 && outs > 0 && g <= h
    ensures FirstIn(ins, outs, g) <= FirstIn(ins, outs, h) && FirstOut(ins, outs, g) <= FirstOut(ins, outs, h)
    decreases h - g
  {
    if g < h {
      JobsInOrder(ins, outs, g, h - 1);
      JobSizes(ins, outs, h - 1);
    }
  }

  predicate IsJob(ins: int, outs: int, g: int) {
    0 <= g < Smaller(ins, outs)
  }

  lemma JobInRange(ins: int, outs: int, g: int)
    requires ins > 0 && outs > 0 && IsJob(ins, outs, g)
    ensures 0 <= FirstIn(ins, outs, g) < FirstIn(ins, outs, g + 1) <= ins
    ensures 0 <= FirstOut(ins, outs, g) < FirstOut(ins, outs, g + 1) <= outs
  {
    JobSizes(ins, outs, g);
    JobsInOrder(ins, outs, 0, g);
    JobsInOrder(ins, outs, g + 1, Smaller(ins, outs));
  }

  /** The input files of job `g`. */
  function JobInputs(inputs: seq<LevelFile>, outs: int, g: int): (s: seq<LevelFile>)
    requires |inputs| > 0 && outs > 0 && IsJob(|inputs|, outs, g)
    ensures |s| == FirstIn(|inputs|, outs, g + 1) - FirstIn(|inputs|, outs, g) >= 1
    ensures AllComplete(inputs) ==> AllComplete(s)
  {
    JobInRange(|inputs|, outs, g);
    inputs[FirstIn(|inputs|, outs, g)..FirstIn(|inputs|, outs, g + 1)]
  }

  function JobSize(ins: int, outs: int, g: int): (n: nat)
    requires ins > 0 && outs > 0
    ensures n >= 1
  {
    JobSizes(ins, outs, g);
    FirstOut(ins, outs, g + 1) - FirstOut(ins, outs, g)
  }

  /** File number `first + j` is the `j`-th one of `size` files made from `own`. */
  ghost predicate IsOutput(own: seq<LevelFile>, size: nat, first: int, outs: nat, j: nat, files: map<int, OutputLevel>)
    requires AllComplete(own) && j < size
  {
    && first + j in files
    && files[first + j].patches == PatchOutputs(own, size, first)[j]
    && FileHolds(files[first + j].boxLevel, outs, first + j, OutputBoxes(BoxesOfAll(own), size, first, j))
  }

  /** All files of job `g` are there. */
  ghost predicate JobDone(inputs: seq<LevelFile>, outs: nat, g: int, files: map<int, OutputLevel>)
    requires |inputs| > 0 && outs > 0 && IsJob(|inputs|, outs, g) && AllComplete(inputs)
  {
    var first, size, own := FirstOut(|inputs|, outs, g), JobSize(|inputs|, outs, g), JobInputs(inputs, outs, g);
    forall j | 0 <= j < size :: IsOutput(own, size, first, outs, j, files)
  }

  /** There are exactly the files numbered from `low` up to `high`. */
  ghost predicate Numbered(files: map<int, OutputLevel>, low: int, high: int) {
    forall k :: k in files <==> low <= k < high
  }

  ghost predicate JobsDone(inputs: seq<LevelFile>, outs: nat, a: int, b: int, files: map<int, OutputLevel>)
    requires |inputs| > 0 && outs > 0 && 0 <= a <= b <= Smaller(|inputs|, outs) && AllComplete(inputs)
  {
    forall g | a <= g < b :: JobDone(inputs, outs, g, files)
  }

  /** The files of the jobs from `a` up to `b`, and no others. */
  ghost predicate AreOutputs(inputs: seq<LevelFile>, outs: nat, a: int, b: int, files: map<int, OutputLevel>)
    requires |inputs| > 0 && outs > 0 && 0 <= a <= b <= Smaller(|inputs|, outs) && AllComplete(inputs)
  {
    Numbered(files, FirstOut(|inputs|, outs, a), FirstOut(|inputs|, outs, b)) && JobsDone(inputs, outs, a, b, files)
  }

  /** There is no clash among the input files of job `g`, as can be told beforehand. */
  predicate JobClear(inputs: seq<LevelFile>, outs: nat, g: int)
    requires |inputs| > 0 && outs > 0 && IsJob(|inputs|, outs, g)
  {
    NoneClashes(JobInputs(inputs, outs, g))
  }

  ghost predicate JobsClear(inputs: seq<LevelFile>, outs: nat, a: int, b: int)
    requires |inputs| > 0 && outs > 0 && 0 <= a && b <= Smaller(|inputs|, outs)
  {
    forall g | a <= g < b :: JobClear(inputs, outs, g)
  }

  ghost predicate AllJobsClear(inputs: seq<LevelFile>, outs: nat) {
    |inputs| > 0 && outs > 0 && JobsClear(inputs, outs, 0, Smaller(|inputs|, outs))
  }

  // ---------------------------------------------------------------- one process

  /** First job of a process, and the first job of the next process. */
  lemma OwnJobs(ins: nat, outs: nat, nprocs: nat, rank: nat)
    requires 0 < nprocs <= Smaller(ins, outs) && rank < nprocs
    ensures var before := FileMapping.GroupsBefore(Smaller(ins, outs), nprocs, rank);
            var size := FileMapping.GroupsOf(Smaller(ins, outs), nprocs, rank);
            0 <= before < before + size ==
              FileMapping.GroupsBefore(Smaller(ins, outs), nprocs, rank + 1) <= Smaller(ins, outs)
  {
    var smaller := Smaller(ins, outs);
    FileMapping.GroupsBeforeEnds(smaller, nprocs);
    FileMapping.GroupsBeforeNext(smaller, nprocs, rank);
    FileMapping.GroupsBeforeMonotone(smaller, nprocs, 0, rank);
    FileMapping.GroupsBeforeMonotone(smaller, nprocs, rank + 1, nprocs);
    FileMapping.RatioAtLeastOne(nprocs, smaller);
  }

  /** The number of the first file on the smaller side that process `rank` handles, plus `count`. */
  method OwnFileId(total: nat, nprocs: nat, rank: nat, count: nat) returns (id: int)
    requires nprocs > 0
    ensures id == FileMapping.GroupsBefore(total, nprocs, rank) + count
  {
    var filesPerProc := total / nprocs;
    var extraFiles := total % nprocs;
    id := filesPerProc * rank + count;
    if extraFiles != 0 {
      if rank >= extraFiles {
        id := id + extraFiles;
      } else {
        id := id + rank;
      }
    }
    FileMapping.FileIdIsGroupPosition(total, nprocs, rank, count);
  }

  /** The files listed for the `icount`-th iteration are those of its job, and on the other side its job has one
      file, whose number is that of the job. */
  lemma ListedFiles(ins: nat, outs: nat, nprocs: nat, rank: nat, icount: nat)
    requires 0 < nprocs <= Smaller(ins, outs) && rank < nprocs
             && icount < FileMapping.GroupsOf(Smaller(ins, outs), nprocs, rank)
    ensures var g := FileMapping.GroupsBefore(Smaller(ins, outs), nprocs, rank) + icount;
            var listed := FileMapping.Slice(Smaller(ins, outs), Max(ins, outs), nprocs, rank)[icount];
            && FirstIn(ins, outs, g) < FirstIn(ins, outs, g + 1)
            && if ins < outs then
                 listed == FileMapping.Range(FirstOut(ins, outs, g), FirstOut(ins, outs, g) + JobSize(ins, outs, g)) &&
                 FirstIn(ins, outs, g) == g && FirstIn(ins, outs, g + 1) == g + 1
               else
                 listed == FileMapping.Range(FirstIn(ins, outs, g), FirstIn(ins, outs, g + 1)) &&
                 FirstOut(ins, outs, g) == g && JobSize(ins, outs, g) == 1
  {
    var g := FileMapping.GroupsBefore(Smaller(ins, outs), nprocs, rank) + icount;
    JobSizes(ins, outs, g);
  }

  /** The numbers of the output files of the `icount`-th iteration, the `job`-th of all. */
  method OutputFileIds(ins: nat, outs: nat, nprocs: nat, rank: nat, fileMapping: seq<seq<int>>, icount: nat,
                       ghost job: int)
    returns (ids: seq<int>)
    requires 0 < nprocs <= Smaller(ins, outs) && rank < nprocs && icount < |fileMapping|
    requires fileMapping == FileMapping.Slice(Smaller(ins, outs), Max(ins, outs), nprocs, rank)
    requires job == FileMapping.GroupsBefore(Smaller(ins, outs), nprocs, rank) + icount
    ensures ids == FileMapping.Range(FirstOut(ins, outs, job), FirstOut(ins, outs, job) + JobSize(ins, outs, job))
  {
    ListedFiles(ins, outs, nprocs, rank, icount);
    var numFilesToWrite := if ins < outs then |fileMapping[icount]| else 1;
    ids := [];
    while |ids| < numFilesToWrite
      invariant |ids| <= numFilesToWrite
      invariant ids == FileMapping.Range(FirstOut(ins, outs, job), FirstOut(ins, outs, job) + |ids|)
    {
      var curOutFileId;
      if ins < outs {
        curOutFileId := fileMapping[icount][|ids|];
      } else {
        curOutFileId := OwnFileId(outs, nprocs, rank, icount);
      }
      ids := ids + [curOutFileId];
    }
  }

  /** The numbers of the input files of the `icount`-th iteration, the `job`-th of all. */
  method InputFileIds(ins: nat, outs: nat, nprocs: nat, rank: nat, fileMapping: seq<seq<int>>, icount: nat,
                      ghost job: int)
    returns (ids: seq<int>)
    requires 0 < nprocs <= Smaller(ins, outs) && rank < nprocs && icount < |fileMapping|
    requires fileMapping == FileMapping.Slice(Smaller(ins, outs), Max(ins, outs), nprocs, rank)
    requires job == FileMapping.GroupsBefore(Smaller(ins, outs), nprocs, rank) + icount
    ensures FirstIn(ins, outs, job) < FirstIn(ins, outs, job + 1)
    ensures ids == FileMapping.Range(FirstIn(ins, outs, job), FirstIn(ins, outs, job + 1))
  {
    ListedFiles(ins, outs, nprocs, rank, icount);
    var numFilesToRead := if ins < outs then 1 else |fileMapping[icount]|;
    ids := [];
    while |ids| < numFilesToRead
      invariant |ids| <= numFilesToRead
      invariant ids == FileMapping.Range(FirstIn(ins, outs, job), FirstIn(ins, outs, job) + |ids|)
    {
      var curInFileId;
      if ins < outs {
        curInFileId := OwnFileId(ins, nprocs, rank, icount);
      } else {
        curInFileId := fileMapping[icount][|ids|];
      }
      ids := ids + [curInFileId];
    }
  }

  /** Opens the input files with the given consecutive numbers. */
  method OpenInputs(inputs: seq<LevelFile>, ids: seq<int>, ghost first: nat) returns (dbs: seq<LevelFile>)
    requires first + |ids| <= |inputs| && ids == FileMapping.Range(first, first + |ids|)
    ensures dbs == inputs[first..first + |ids|]
  {
    dbs := [];
    while |dbs| < |ids|
      invariant |dbs| <= |ids| && dbs == inputs[first..first + |dbs|]
    {
      dbs := dbs + [inputs[ids[|dbs|]]];
    }
  }

  /** Adds output files with the given consecutive numbers to the others. */
  method WriteFiles(files: map<int, OutputLevel>, ids: seq<int>, patches: seq<map<PatchName, Patch>>,
                    boxLevels: seq<BoxLevelFile>, ghost first: int)
    returns (files': map<int, OutputLevel>)
    requires ids == FileMapping.Range(first, first + |ids|) && |ids| == |patches| == |boxLevels|
    ensures forall k :: k in files' <==> k in files || first <= k < first + |ids|
    ensures forall k | k in files && !(first <= k < first + |ids|) :: files'[k] == files[k]
    ensures forall j | 0 <= j < |ids| :: files'[first + j] == OutputLevel(patches[j], boxLevels[j])
  {
    files' := files;
    var i := 0;
    while i < |ids|
      invariant 0 <= i <= |ids|
      invariant forall k :: k in files' <==> k in files || first <= k < first + i
      invariant forall k | k in files && !(first <= k < first + i) :: files'[k] == files[k]
      invariant forall j | 0 <= j < i :: files'[first + j] == OutputLevel(patches[j], boxLevels[j])
    {
      files' := files'[ids[i] := OutputLevel(patches[i], boxLevels[i])];
      i := i + 1;
    }
  }

  /** What a job has written stays as later files are added. */
  lemma JobStays(inputs: seq<LevelFile>, outs: nat, h: int, files: map<int, OutputLevel>, files': map<int, OutputLevel>)
    requires |inputs| > 0 && outs > 0 && IsJob(|inputs|, outs, h) && AllComplete(inputs)
             && JobDone(inputs, outs, h, files)
    requires forall k | k in files && k < FirstOut(|inputs|, outs, h + 1) :: k in files' && files'[k] == files[k]
    ensures JobDone(inputs, outs, h, files')
  {
    hide AllComplete;
    var first, size, own := FirstOut(|inputs|, outs, h), JobSize(|inputs|, outs, h), JobInputs(inputs, outs, h);
    OwnComplete(inputs, outs, h);
    forall j: nat | j < size
      ensures IsOutput(own, size, first, outs, j, files')
    {
      assert IsOutput(own, size, first, outs, j, files);
    }
  }

  lemma OwnComplete(inputs: seq<LevelFile>, outs: nat, h: int)
    requires |inputs| > 0 && outs > 0 && IsJob(|inputs|, outs, h) && AllComplete(inputs)
    ensures AllComplete(JobInputs(inputs, outs, h))
  {
  }

  lemma JobsStay(inputs: seq<LevelFile>, outs: nat, a: int, g: int, files: map<int, OutputLevel>,
                 files': map<int, OutputLevel>)
    requires |inputs| > 0 && outs > 0 && 0 <= a <= g <= Smaller(|inputs|, outs) && AllComplete(inputs)
    requires JobsDone(inputs, outs, a, g, files)
    requires forall k | k in files && k < FirstOut(|inputs|, outs, g) :: k in files' && files'[k] == files[k]
    ensures JobsDone(inputs, outs, a, g, files')
  {
    forall h | a <= h < g
      ensures JobDone(inputs, outs, h, files')
    {
      JobsInOrder(|inputs|, outs, h + 1, g);
      JobStays(inputs, outs, h, files, files');
    }
  }

  /** The files `low <= k < high` have been added, and those before them are as they were. */
  ghost predicate Added(files: map<int, OutputLevel>, low: int, high: int, files': map<int, OutputLevel>) {
    && (forall k :: k in files' <==> k in files || low <= k < high)
    && (forall k | k in files && k < low :: files'[k] == files[k])
  }

  /** The files of one more job have been added. */
  lemma JobAdded(inputs: seq<LevelFile>, outs: nat, a: int, g: int, files: map<int, OutputLevel>,
                 files': map<int, OutputLevel>)
    requires |inputs| > 0 && outs > 0 && 0 <= a <= g < Smaller(|inputs|, outs) && AllComplete(inputs)
    requires AreOutputs(inputs, outs, a, g, files) && JobDone(inputs, outs, g, files')
    requires Added(files, FirstOut(|inputs|, outs, g), FirstOut(|inputs|, outs, g + 1), files')
    ensures AreOutputs(inputs, outs, a, g + 1, files')
  {
    JobSizes(|inputs|, outs, g);
    JobsInOrder(|inputs|, outs, a, g);
    NumberedMore(files, files', FirstOut(|inputs|, outs, a), FirstOut(|inputs|, outs, g),
                 FirstOut(|inputs|, outs, g + 1));
    JobsStay(inputs, outs, a, g, files, files');
    OneJobMore(inputs, outs, a, g, files');
  }

  lemma NumberedMore(files: map<int, OutputLevel>, files': map<int, OutputLevel>, a: int, b: int, c: int)
    requires a <= b <= c && Numbered(files, a, b) && forall k :: k in files' <==> k in files || b <= k < c
    ensures Numbered(files', a, c)
  {
  }

  lemma OneJobMore(inputs: seq<LevelFile>, outs: nat, a: int, g: int, files: map<int, OutputLevel>)
    requires |inputs| > 0 && outs > 0 && 0 <= a <= g < Smaller(|inputs|, outs) && AllComplete(inputs)
    requires JobsDone(inputs, outs, a, g, files) && JobDone(inputs, outs, g, files)
    ensures JobsDone(inputs, outs, a, g + 1, files)
  {
  }

  /** Merges or splits the given input files, and adds the result to the output files. */
  method MergeOrSplit(own: seq<LevelFile>, outIds: seq<int>, numFilesWritten: int, outs: nat,
                      files: map<int, OutputLevel>)
    returns (files': Option<map<int, OutputLevel>>)
    requires AllComplete(own) && 1 <= |own| && 1 <= |outIds| && (|own| == 1 || |outIds| == 1)
    requires outIds == FileMapping.Range(numFilesWritten, numFilesWritten + |outIds|)
    ensures files'.Some? <==> NoneClashes(own)
    ensures files'.Some? ==> Added(files, numFilesWritten, numFilesWritten + |outIds|, files'.value)
    ensures files'.Some? ==> forall j | 0 <= j < |outIds| ::
              IsOutput(own, |outIds|, numFilesWritten, outs, j, files'.value)
  {
    var patches, boxLevels := ReadAndWritePatchLevel(own, |outIds|, numFilesWritten, outs);
    if patches == None {
      return None;
    }
    var written := WriteFiles(files, outIds, patches.value, boxLevels, numFilesWritten);
    files' := Some(written);
  }

  /** Reads the input files of a job, and writes its output files. */
  method WriteJob(inputs: seq<LevelFile>, outs: nat, inIds: seq<int>, outIds: seq<int>, numFilesWritten: int,
                  files: map<int, OutputLevel>, ghost job: int)
    returns (files': Option<map<int, OutputLevel>>)
    requires AllComplete(inputs) && |inputs| > 0 && outs > 0 && IsJob(|inputs|, outs, job)
    requires FirstIn(|inputs|, outs, job) < FirstIn(|inputs|, outs, job + 1)
    requires inIds == FileMapping.Range(FirstIn(|inputs|, outs, job), FirstIn(|inputs|, outs, job + 1))
    requires outIds == FileMapping.Range(FirstOut(|inputs|, outs, job),
                                         FirstOut(|inputs|, outs, job) + JobSize(|inputs|, outs, job))
    requires numFilesWritten == FirstOut(|inputs|, outs, job)
    ensures files'.Some? <==> JobClear(inputs, outs, job)
    ensures files'.Some? ==>
              && Added(files, FirstOut(|inputs|, outs, job), FirstOut(|inputs|, outs, job + 1), files'.value)
              && JobDone(inputs, outs, job, files'.value)
  {
    hide AllComplete, NoneClashes, IsOutput, Added, FirstIn, FirstOut;
    JobInRange(|inputs|, outs, job);
    JobSizes(|inputs|, outs, job);
    OwnComplete(inputs, outs, job);
    var inputDbs := OpenInputs(inputs, inIds, FirstIn(|inputs|, outs, job));
    assert inputDbs == JobInputs(inputs, outs, job);
    files' := MergeOrSplit(inputDbs, outIds, numFilesWritten, outs, files);
    if files'.Some? {
      JobIsDone(inputs, outs, job, inputDbs, |outIds|, numFilesWritten, files'.value);
    }
  }

  lemma JobIsDone(inputs: seq<LevelFile>, outs: nat, g: int, own: seq<LevelFile>, size: nat, first: int,
                  files: map<int, OutputLevel>)
    requires |inputs| > 0 && outs > 0 && IsJob(|inputs|, outs, g) && AllComplete(inputs) && AllComplete(own)
    requires first == FirstOut(|inputs|, outs, g) && size == JobSize(|inputs|, outs, g)
    requires own == JobInputs(inputs, outs, g) && forall j | 0 <= j < size :: IsOutput(own, size, first, outs, j, files)
    ensures JobDone(inputs, outs, g, files)
  {
    hide AllComplete, IsOutput, FirstOut;
  }

  /** There is no clash in the jobs of process `rank`. */
  ghost predicate OwnJobsClear(inputs: seq<LevelFile>, outs: nat, nprocs: nat, rank: nat)
    requires 0 < nprocs <= Smaller(|inputs|, outs) && rank < nprocs
  {
    OwnJobs(|inputs|, outs, nprocs, rank);
    JobsClear(inputs, outs, FileMapping.GroupsBefore(Smaller(|inputs|, outs), nprocs, rank),
                  FileMapping.GroupsBefore(Smaller(|inputs|, outs), nprocs, rank + 1))
  }

  /** Redistributes the files of one process. */
  method WriteRedistributedRestartFiles(inputs: seq<LevelFile>, outs: nat, nprocs: nat, rank: nat,
                                        fileMapping: seq<seq<int>>)
    returns (files: Option<map<int, OutputLevel>>)
    requires AllComplete(inputs)
    requires 0 < nprocs <= Smaller(|inputs|, outs) && rank < nprocs
    requires fileMapping == FileMapping.Slice(Smaller(|inputs|, outs), Max(|inputs|, outs), nprocs, rank)
    ensures files.Some? <==> OwnJobsClear(inputs, outs, nprocs, rank)
    ensures files.Some? ==> WrittenBy(inputs, outs, nprocs, rank, files.value)
  {
    hide AllComplete, JobClear;
    ghost var before := FileMapping.GroupsBefore(Smaller(|inputs|, outs), nprocs, rank);
    OwnJobs(|inputs|, outs, nprocs, rank);
    ListedFiles(|inputs|, outs, nprocs, rank, 0);
    var numFilesWritten;
    if |inputs| < outs {
      JobSizes(|inputs|, outs, before);
      numFilesWritten := fileMapping[0][0];
    } else {
      numFilesWritten := OwnFileId(outs, nprocs, rank, 0);
    }
    var written := map[];
    var icount := 0;
    while icount < |fileMapping|
      invariant 0 <= icount <= |fileMapping|
      invariant numFilesWritten == FirstOut(|inputs|, outs, before + icount)
      invariant AreOutputs(inputs, outs, before, before + icount, written)
      invariant JobsClear(inputs, outs, before, before + icount)
    {
      ghost var job := before + icount;
      JobSizes(|inputs|, outs, job);
      var outIds := OutputFileIds(|inputs|, outs, nprocs, rank, fileMapping, icount, job);
      var inIds := InputFileIds(|inputs|, outs, nprocs, rank, fileMapping, icount, job);
      var next := WriteJob(inputs, outs, inIds, outIds, numFilesWritten, written, job);
      if next == None {
        return None;
      }
      JobAdded(inputs, outs, before, job, written, next.value);
      written := next.value;
      numFilesWritten := numFilesWritten + |outIds|;
      icount := icount + 1;
    }
    files := Some(written);
  }

  /** The files written by process `rank` are those of its jobs. */
  ghost predicate WrittenBy(inputs: seq<LevelFile>, outs: nat, nprocs: nat, rank: nat, files: map<int, OutputLevel>)
    requires AllComplete(inputs) && 0 < nprocs <= Smaller(|inputs|, outs) && rank < nprocs
  {
    OwnJobs(|inputs|, outs, nprocs, rank);
    AreOutputs(inputs, outs, FileMapping.GroupsBefore(Smaller(|inputs|, outs), nprocs, rank),
               FileMapping.GroupsBefore(Smaller(|inputs|, outs), nprocs, rank + 1), files)
  }

  datatype Outcome = TooManyProcesses | ListEndPassed | Finished(files: map<int, OutputLevel>)

  /** The whole tool, as process `rank` runs it.  Having more processes than files on the smaller side is an error. */
  method Redistribute(inputs: seq<LevelFile>, outs: nat, nprocs: nat, rank: nat) returns (outcome: Outcome)
    requires AllComplete(inputs) && rank < nprocs
    ensures outcome == TooManyProcesses <==> nprocs > Smaller(|inputs|, outs)
    ensures nprocs <= Smaller(|inputs|, outs) ==>
              (outcome.Finished? <==> OwnJobsClear(inputs, outs, nprocs, rank))
    ensures outcome.Finished? ==> WrittenBy(inputs, outs, nprocs, rank, outcome.files)
  {
    var mapping := FileMapping.ComputeFileMapping(|inputs|, outs, nprocs, rank);
    match mapping {
      case None =>
        outcome := TooManyProcesses;
      case Some(fileMapping) =>
        var written := WriteRedistributedRestartFiles(inputs, outs, nprocs, rank, fileMapping);
        outcome := if written == None then ListEndPassed else Finished(written.value);
    }
  }

  // ---------------------------------------------------------------- all processes

  /** What the processes have written, each on its own. */
  ghost predicate AllWritten(inputs: seq<LevelFile>, outs: nat, nprocs: nat, written: seq<map<int, OutputLevel>>)
    requires AllComplete(inputs) && 0 < nprocs <= Smaller(|inputs|, outs)
  {
    |written| == nprocs && forall r: nat | r < nprocs :: WrittenBy(inputs, outs, nprocs, r, written[r])
  }

  /** The output directory. */
  function Directory(written: seq<map<int, OutputLevel>>): map<int, OutputLevel> {
    if written == [] then map[] else Directory(written[..|written| - 1]) + written[|written| - 1]
  }

  lemma {:induction false} DirectoryHolds(inputs: seq<LevelFile>, outs: nat, nprocs: nat,
                                          written: seq<map<int, OutputLevel>>, n: nat)
    requires AllComplete(inputs) && 0 < nprocs <= Smaller(|inputs|, outs) && n <= nprocs
    requires AllWritten(inputs, outs, nprocs, written)
    ensures 0 <= FileMapping.GroupsBefore(Smaller(|inputs|, outs), nprocs, n) <= Smaller(|inputs|, outs)
    ensures AreOutputs(inputs, outs, 0, FileMapping.GroupsBefore(Smaller(|inputs|, outs), nprocs, n),
                       Directory(written[..n]))
  {
    var smaller := Smaller(|inputs|, outs);
    FileMapping.GroupsBeforeEnds(smaller, nprocs);
    JobSizes(|inputs|, outs, 0);
    if n > 0 {
      DirectoryHolds(inputs, outs, nprocs, written, n - 1);
      OwnJobs(|inputs|, outs, nprocs, n - 1);
      assert written[..n][..n - 1] == written[..n - 1];
      assert WrittenBy(inputs, outs, nprocs, n - 1, written[n - 1]);
      TwoProcesses(inputs, outs, FileMapping.GroupsBefore(smaller, nprocs, n - 1),
                   FileMapping.GroupsBefore(smaller, nprocs, n),
                   Directory(written[..n - 1]), written[n - 1]);
    }
  }

  /** All jobs are done, and there are no files but theirs. */
  lemma DirectoryIsDone(inputs: seq<LevelFile>, outs: nat, nprocs: nat, written: seq<map<int, OutputLevel>>)
    requires AllComplete(inputs) && 0 < nprocs <= Smaller(|inputs|, outs)
    requires AllWritten(inputs, outs, nprocs, written)
    ensures Numbered(Directory(written), 0, outs)
    ensures JobsDone(inputs, outs, 0, Smaller(|inputs|, outs), Directory(written))
  {
    DirectoryHolds(inputs, outs, nprocs, written, nprocs);
    FileMapping.GroupsBeforeEnds(Smaller(|inputs|, outs), nprocs);
    JobSizes(|inputs|, outs, 0);
    assert written[..nprocs] == written;
  }

  lemma TwoProcesses(inputs: seq<LevelFile>, outs: nat, a: int, b: int, front: map<int, OutputLevel>,
                     last: map<int, OutputLevel>)
    requires AllComplete(inputs) && |inputs| > 0 && outs > 0 && 0 <= a <= b <= Smaller(|inputs|, outs)
    requires AreOutputs(inputs, outs, 0, a, front) && AreOutputs(inputs, outs, a, b, last)
    ensures AreOutputs(inputs, outs, 0, b, front + last)
  {
    JobsInOrder(|inputs|, outs, 0, a);
    JobsInOrder(|inputs|, outs, a, b);
    JobsStay(inputs, outs, 0, a, front, front + last);
    JobsStay(inputs, outs, a, b, last, front + last);
    assert Numbered(front + last, FirstOut(|inputs|, outs, 0), FirstOut(|inputs|, outs, b));
  }

  /** Process `rank` has written file `k`. */
  predicate Wrote(written: seq<map<int, OutputLevel>>, rank: nat, k: int) {
    rank < |written| && k in written[rank]
  }

  ghost predicate WrittenBySome(written: seq<map<int, OutputLevel>>, k: int) {
    exists r: nat :: Wrote(written, r, k)
  }

  lemma {:induction false} WrittenInDirectory(written: seq<map<int, OutputLevel>>, k: int)
    ensures k in Directory(written) <==> WrittenBySome(written, k)
  {
    if written != [] {
      var n := |written| - 1;
      WrittenInDirectory(written[..n], k);
      if k in written[n] {
        assert Wrote(written, n, k);
      }
      if k in Directory(written[..n]) {
        var r: nat :| Wrote(written[..n], r, k);
        assert Wrote(written, r, k);
      }
      forall r: nat | Wrote(written, r, k)
        ensures r == n || Wrote(written[..n], r, k)
      {
      }
    }
  }

  /** Although the processes do not communicate, every output file is written, by exactly one process, and no
      other file is. */
  lemma {:induction false} EveryFileIsWrittenOnce(inputs: seq<LevelFile>, outs: nat, nprocs: nat,
                                                  written: seq<map<int, OutputLevel>>)
    requires AllComplete(inputs) && 0 < nprocs <= Smaller(|inputs|, outs)
    requires AllWritten(inputs, outs, nprocs, written)
    ensures forall k :: WrittenBySome(written, k) <==> 0 <= k < outs
    ensures forall r: nat, r': nat, k | Wrote(written, r, k) && Wrote(written, r', k) :: r == r'
  {
    DirectoryIsDone(inputs, outs, nprocs, written);
    forall k
      ensures WrittenBySome(written, k) <==> 0 <= k < outs
    {
      WrittenInDirectory(written, k);
    }
    forall r: nat, r': nat, k | Wrote(written, r, k) && Wrote(written, r', k)
      ensures r == r'
    {
      if r < r' {
        WrittenApart(inputs, outs, nprocs, written, r, r', k);
      } else if r' < r {
        WrittenApart(inputs, outs, nprocs, written, r', r, k);
      }
    }
  }

  lemma WrittenApart(inputs: seq<LevelFile>, outs: nat, nprocs: nat, written: seq<map<int, OutputLevel>>, r: nat,
                     r': nat, k: int)
    requires AllComplete(inputs) && 0 < nprocs <= Smaller(|inputs|, outs) && r < r' < nprocs
    requires AllWritten(inputs, outs, nprocs, written)
    ensures !(Wrote(written, r, k) && Wrote(written, r', k))
  {
    var smaller := Smaller(|inputs|, outs);
    OwnJobs(|inputs|, outs, nprocs, r);
    OwnJobs(|inputs|, outs, nprocs, r');
    FileMapping.GroupsBeforeMonotone(smaller, nprocs, r + 1, r');
    JobsInOrder(|inputs|, outs, FileMapping.GroupsBefore(smaller, nprocs, r + 1),
                FileMapping.GroupsBefore(smaller, nprocs, r'));
    assert WrittenBy(inputs, outs, nprocs, r, written[r]) && WrittenBy(inputs, outs, nprocs, r', written[r']);
  }

  // ---------------------------------------------------------------- conservation over the whole run

  lemma {:induction false} InputCountSlice(bs: seq<BoxArrays>, a: nat, b: nat, part: seq<BoxArrays>, p: Payload)
    requires AllAligned(bs) && a <= b <= |bs| && part == bs[a..b]
    ensures AllAligned(part)
    ensures InputCount(bs, b, p) == InputCount(bs, a, p) + InputCount(part, |part|, p)
    decreases b
  {
    if a < b {
      var m, n := b - 1, |part| - 1;
      assert part[..n] == bs[a..m];
      InputCountSlice(bs, a, m, part[..n], p);
      InputCountPrefix(part, n, p);
      hide InputCount, Aligned;
      InputCountNext(bs, m, b, p);
      InputCountNext(part, n, |part|, p);
    }
  }

  lemma {:induction false} InputCountPrefix(bs: seq<BoxArrays>, n: nat, p: Payload)
    requires AllAligned(bs) && n <= |bs|
    ensures InputCount(bs, n, p) == InputCount(bs[..n], n, p)
    decreases n
  {
    if n > 0 {
      var m := n - 1;
      InputCountPrefix(bs, m, p);
      InputCountPrefix(bs[..n], m, p);
      assert bs[..n][..m] == bs[..m];
      InputCountNext(bs, m, n, p);
      InputCountNext(bs[..n], m, n, p);
    }
  }

  /** How often `p` occurs in output file `k`. */
  function FileCount(files: map<int, OutputLevel>, k: int, p: Payload): nat {
    if k in files && Aligned(files[k].boxLevel.mapped) then Count(BoxesOf(files[k].boxLevel.mapped), p) else 0
  }

  /** How often `p` occurs in each of the output files from `a` up to `b`. */
  function FileCounts(files: map<int, OutputLevel>, a: int, b: int, p: Payload): (c: seq<nat>)
    requires a <= b
    ensures |c| == b - a && forall j | 0 <= j < |c| :: c[j] == FileCount(files, a + j, p)
  {
    seq<nat>(b - a, j => FileCount(files, a + j, p))
  }

  lemma FileCountsConcat(files: map<int, OutputLevel>, a: int, b: int, c: int, p: Payload)
    requires a <= b <= c
    ensures Total(FileCounts(files, a, c, p)) == Total(FileCounts(files, a, b, p)) + Total(FileCounts(files, b, c, p))
  {
    assert FileCounts(files, a, c, p) == FileCounts(files, a, b, p) + FileCounts(files, b, c, p);
    TotalConcat(FileCounts(files, a, b, p), FileCounts(files, b, c, p));
  }

  /** One job, which writes `size` files from `first` up to `last`, conserves boxes. */
  lemma {:induction false} JobConserves(own: seq<LevelFile>, size: nat, first: nat, last: nat, outs: nat,
                                        files: map<int, OutputLevel>, p: Payload)
    requires AllComplete(own) && 0 < size && last == first + size
    requires forall j | 0 <= j < size :: IsOutput(own, size, first, outs, j, files)
    ensures Total(FileCounts(files, first, last, p)) == InputCount(BoxesOfAll(own), |own|, p)
  {
    var counts, written := OutputCounts(BoxesOfAll(own), size, first, p), FileCounts(files, first, last, p);
    forall j | 0 <= j < size
      ensures written[j] == counts[j]
    {
      assert IsOutput(own, size, first, outs, j, files);
    }
    assert written == counts;
    BoxesAreConserved(BoxesOfAll(own), size, first, p);
  }

  lemma {:induction false} SliceCount(inputs: seq<LevelFile>, a: nat, b: nat, own: seq<LevelFile>, p: Payload)
    requires AllComplete(inputs) && AllComplete(own) && a <= b <= |inputs| && own == inputs[a..b]
    ensures InputCount(BoxesOfAll(inputs), b, p) ==
            InputCount(BoxesOfAll(inputs), a, p) + InputCount(BoxesOfAll(own), |own|, p)
  {
    assert BoxesOfAll(own) == BoxesOfAll(inputs)[a..b];
    InputCountSlice(BoxesOfAll(inputs), a, b, BoxesOfAll(own), p);
  }

  /** The outputs of the first jobs hold what their inputs hold. */
  ghost predicate Conserved(inputs: seq<LevelFile>, outs: nat, g: int, files: map<int, OutputLevel>, p: Payload)
    requires |inputs| > 0 && outs > 0 && AllComplete(inputs)
  {
    var a, b := FirstIn(|inputs|, outs, g), FirstOut(|inputs|, outs, g);
    0 <= a <= |inputs| && 0 <= b && Total(FileCounts(files, 0, b, p)) == InputCount(BoxesOfAll(inputs), a, p)
  }

  lemma {:induction false} NextJobConserves(inputs: seq<LevelFile>, outs: nat, g: int, files: map<int, OutputLevel>,
                                            p: Payload)
    requires |inputs| > 0 && outs > 0 && IsJob(|inputs|, outs, g) && AllComplete(inputs)
             && JobDone(inputs, outs, g, files)
    requires Conserved(inputs, outs, g, files, p)
    ensures Conserved(inputs, outs, g + 1, files, p)
  {
    JobInRange(|inputs|, outs, g);
    var a, b := FirstIn(|inputs|, outs, g), FirstIn(|inputs|, outs, g + 1);
    var c, d := FirstOut(|inputs|, outs, g), FirstOut(|inputs|, outs, g + 1);
    var own := JobInputs(inputs, outs, g);
    SliceCount(inputs, a, b, own, p);
    JobConserves(own, JobSize(|inputs|, outs, g), c, d, outs, files, p);
    FileCountsConcat(files, 0, c, d, p);
  }

  lemma {:induction false} JobsConserve(inputs: seq<LevelFile>, outs: nat, g: int, files: map<int, OutputLevel>,
                                        p: Payload)
    requires |inputs| > 0 && outs > 0 && 0 <= g <= Smaller(|inputs|, outs) && AllComplete(inputs)
    requires JobsDone(inputs, outs, 0, Smaller(|inputs|, outs), files)
    ensures Conserved(inputs, outs, g, files, p)
    decreases g
  {
    if g == 0 {
      JobSizes(|inputs|, outs, 0);
    } else {
      JobsConserve(inputs, outs, g - 1, files, p);
      NextJobConserves(inputs, outs, g - 1, files, p);
    }
  }

  /** Nothing is lost and nothing duplicated in the whole run, over all processes, iterations and files: what a
      box carries (periodic id, block, extents) occurs in all output files together as often as in all input
      files together. */
  lemma {:induction false} RunConservesBoxes(inputs: seq<LevelFile>, outs: nat, nprocs: nat,
                                             written: seq<map<int, OutputLevel>>, p: Payload)
    requires AllComplete(inputs) && 0 < nprocs <= Smaller(|inputs|, outs)
    requires AllWritten(inputs, outs, nprocs, written)
    ensures Total(FileCounts(Directory(written), 0, outs, p)) == InputCount(BoxesOfAll(inputs), |inputs|, p)
  {
    DirectoryIsDone(inputs, outs, nprocs, written);
    JobSizes(|inputs|, outs, 0);
    JobsConserve(inputs, outs, Smaller(|inputs|, outs), Directory(written), p);
  }

  // ---------------------------------------------------------------- names over the whole run

  /** The job that writes file `k`. */
  lemma {:induction false} JobOf(ins: int, outs: int, n: int, k: int) returns (g: int)
    requires ins > 0 && outs > 0 && 0 <= n && 0 <= k < FirstOut(ins, outs, n)
    ensures 0 <= g < n && FirstOut(ins, outs, g) <= k < FirstOut(ins, outs, g + 1)
    decreases n
  {
    JobSizes(ins, outs, 0);
    if k < FirstOut(ins, outs, n - 1) {
      g := JobOf(ins, outs, n - 1, k);
    } else {
      g := n - 1;
    }
  }

  /** In every file that is merged with others before it, the largest index comes last. */
  ghost predicate Mergeable(inputs: seq<LevelFile>, outs: nat) {
    && |inputs| > 0 && outs > 0
    && forall g, i | IsJob(|inputs|, outs, g) && 1 <= i < |JobInputs(inputs, outs, g)| ::
         LargestComesLast(JobInputs(inputs, outs, g)[i].boxes.localIndices)
  }

  /** There is no clash in the jobs of the first `n` processes, which then finish. */
  ghost predicate FirstFinish(inputs: seq<LevelFile>, outs: nat, nprocs: nat, n: nat)
    requires 0 < nprocs <= Smaller(|inputs|, outs) && n <= nprocs
  {
    forall r: nat | r < n :: OwnJobsClear(inputs, outs, nprocs, r)
  }

  lemma OneMoreFinishes(inputs: seq<LevelFile>, outs: nat, nprocs: nat, m: nat, n: nat)
    requires 0 < nprocs <= Smaller(|inputs|, outs) && n == m + 1 <= nprocs
    ensures FirstFinish(inputs, outs, nprocs, n) <==>
            FirstFinish(inputs, outs, nprocs, m) && OwnJobsClear(inputs, outs, nprocs, m)
  {
    hide OwnJobsClear;
  }

  lemma JobsClearSplit(inputs: seq<LevelFile>, outs: nat, a: int, b: int)
    requires |inputs| > 0 && outs > 0 && 0 <= a <= b <= Smaller(|inputs|, outs)
    ensures JobsClear(inputs, outs, 0, b) <==>
            JobsClear(inputs, outs, 0, a) && JobsClear(inputs, outs, a, b)
  {
    hide JobClear;
  }

  lemma {:induction false} ClearForAll(inputs: seq<LevelFile>, outs: nat, nprocs: nat, n: nat)
    requires 0 < nprocs <= Smaller(|inputs|, outs) && n <= nprocs
    ensures 0 <= FileMapping.GroupsBefore(Smaller(|inputs|, outs), nprocs, n) <= Smaller(|inputs|, outs)
    ensures FirstFinish(inputs, outs, nprocs, n) <==>
            JobsClear(inputs, outs, 0, FileMapping.GroupsBefore(Smaller(|inputs|, outs), nprocs, n))
    decreases n
  {
    hide JobClear, FirstFinish, JobsClear;
    if n == 0 {
      FileMapping.GroupsBeforeEnds(Smaller(|inputs|, outs), nprocs);
      NobodyYet(inputs, outs, nprocs);
    } else {
      var m := n - 1;
      ClearForAll(inputs, outs, nprocs, m);
      OwnJobs(|inputs|, outs, nprocs, m);
      OneMoreFinishes(inputs, outs, nprocs, m, n);
      JobsClearSplit(inputs, outs, FileMapping.GroupsBefore(Smaller(|inputs|, outs), nprocs, m),
                         FileMapping.GroupsBefore(Smaller(|inputs|, outs), nprocs, n));
    }
  }

  lemma NobodyYet(inputs: seq<LevelFile>, outs: nat, nprocs: nat)
    requires 0 < nprocs <= Smaller(|inputs|, outs)
    ensures FirstFinish(inputs, outs, nprocs, 0) && JobsClear(inputs, outs, 0, 0)
  {
  }

  /** All processes finish their part, if and only if there is no clash among the input files of any job. */
  lemma AllFinishIff(inputs: seq<LevelFile>, outs: nat, nprocs: nat)
    requires 0 < nprocs <= Smaller(|inputs|, outs)
    ensures FirstFinish(inputs, outs, nprocs, nprocs) <==> AllJobsClear(inputs, outs)
  {
    ClearForAll(inputs, outs, nprocs, nprocs);
    FileMapping.GroupsBeforeEnds(Smaller(|inputs|, outs), nprocs);
  }

  lemma MergeableJob(own: seq<LevelFile>)
    requires forall i | 1 <= i < |own| :: LargestComesLast(own[i].boxes.localIndices)
    ensures NoneClashes(own)
  {
    MergeIsInjective(IndicesOf(BoxesOfAll(own)));
  }

  /** Files in each of which, but for the first of every group, the largest index comes last can be redistributed. */
  lemma MergeableFilesAreClear(inputs: seq<LevelFile>, outs: nat)
    requires Mergeable(inputs, outs)
    ensures AllJobsClear(inputs, outs)
  {
    forall g | IsJob(|inputs|, outs, g)
      ensures JobClear(inputs, outs, g)
    {
      MergeableJob(JobInputs(inputs, outs, g));
    }
  }

  /** Files that are not merged can be redistributed whatever indices their boxes have. */
  lemma SplitFilesAreClear(inputs: seq<LevelFile>, outs: nat)
    requires 0 < |inputs| <= outs
    ensures AllJobsClear(inputs, outs)
  {
    forall g | IsJob(|inputs|, outs, g)
      ensures |JobInputs(inputs, outs, g)| == 1
    {
      OneFilePerJob(|inputs|, outs, g);
    }
    MergeableFilesAreClear(inputs, outs);
  }

  lemma OneFilePerJob(ins: int, outs: int, g: int)
    requires 0 < ins <= outs && g >= 0
    ensures FirstIn(ins, outs, g + 1) == FirstIn(ins, outs, g) + 1
  {
    if ins == outs {
      FileMapping.StartIsMonotone(ins, outs, g);
      assert outs / ins == 1 && outs % ins == 0;
    }
  }

  /** A file names itself consistently: its number is the rank of its box level, of all its boxes, and the owner
      of all its patches; and boxes and patches correspond. */
  predicate NamesItself(f: OutputLevel, outs: nat, k: int) {
    && f.boxLevel.nproc == outs && f.boxLevel.rank == k
    && Aligned(f.boxLevel.mapped) && Agree(BoxesOf(f.boxLevel.mapped), f.patches, k)
  }

  /** Ownership numbers match file names: every output file, written by whichever process, names itself by its
      own number throughout. */
  lemma {:induction false} RunNamesFiles(inputs: seq<LevelFile>, outs: nat, nprocs: nat,
                                         written: seq<map<int, OutputLevel>>, k: int)
    requires AllComplete(inputs) && 0 < nprocs <= Smaller(|inputs|, outs) && AllJobsClear(inputs, outs)
    requires AllWritten(inputs, outs, nprocs, written) && 0 <= k < outs
    ensures k in Directory(written) && NamesItself(Directory(written)[k], outs, k)
  {
    var g := JobWriting(inputs, outs, nprocs, written, k);
    JobNamesFile(inputs, outs, g, k, Directory(written));
  }

  /** The job that has written file `k`. */
  lemma JobWriting(inputs: seq<LevelFile>, outs: nat, nprocs: nat, written: seq<map<int, OutputLevel>>, k: int)
    returns (g: int)
    requires AllComplete(inputs) && 0 < nprocs <= Smaller(|inputs|, outs)
    requires AllWritten(inputs, outs, nprocs, written) && 0 <= k < outs
    ensures IsJob(|inputs|, outs, g) && JobDone(inputs, outs, g, Directory(written))
    ensures FirstOut(|inputs|, outs, g) <= k < FirstOut(|inputs|, outs, g + 1)
  {
    DirectoryIsDone(inputs, outs, nprocs, written);
    JobSizes(|inputs|, outs, 0);
    g := JobOf(|inputs|, outs, Smaller(|inputs|, outs), k);
  }

  lemma JobNamesFile(inputs: seq<LevelFile>, outs: nat, g: int, k: int, files: map<int, OutputLevel>)
    requires |inputs| > 0 && outs > 0 && IsJob(|inputs|, outs, g) && AllComplete(inputs)
    requires JobClear(inputs, outs, g) && JobDone(inputs, outs, g, files)
    requires FirstOut(|inputs|, outs, g) <= k < FirstOut(|inputs|, outs, g + 1)
    ensures k in files && NamesItself(files[k], outs, k)
  {
    hide AllComplete, NoneClashes, IsOutput, NamesItself, FirstIn, FirstOut;
    var first, size, own := FirstOut(|inputs|, outs, g), JobSize(|inputs|, outs, g), JobInputs(inputs, outs, g);
    OwnComplete(inputs, outs, g);
    JobSizes(|inputs|, outs, g);
    OutputNamesItself(own, size, first, outs, k - first, files);
  }

  lemma OutputNamesItself(own: seq<LevelFile>, size: nat, first: int, outs: nat, j: nat, files: map<int, OutputLevel>)
    requires AllComplete(own) && size > 0 && (|own| <= 1 || size == 1) && NoneClashes(own)
    requires j < size && IsOutput(own, size, first, outs, j, files)
    ensures first + j in files && NamesItself(files[first + j], outs, first + j)
  {
    PatchesFollowBoxes(own, size, first);
  }

  // ---------------------------------------------------------------- patches over the whole run

  /** The job that reads file `i`. */
  function JobReading(ins: int, outs: int, n: int, i: int): (g: int)
    requires ins > 0 && outs > 0 && 0 <= n && 0 <= i < FirstIn(ins, outs, n)
    ensures 0 <= g < n && FirstIn(ins, outs, g) <= i < FirstIn(ins, outs, g + 1)
    decreases n
  {
    JobSizes(ins, outs, 0);
    if i < FirstIn(ins, outs, n - 1) then JobReading(ins, outs, n - 1, i) else n - 1
  }

  lemma JobReadingIsUnique(ins: int, outs: int, n: int, i: int, g: int)
    requires ins > 0 && outs > 0 && 0 <= g < n && 0 <= i && FirstIn(ins, outs, g) <= i < FirstIn(ins, outs, g + 1)
    ensures i < FirstIn(ins, outs, n) && JobReading(ins, outs, n, i) == g
  {
    JobsInOrder(ins, outs, g + 1, n);
    var h := JobReading(ins, outs, n, i);
    if h < g {
      JobsInOrder(ins, outs, h + 1, g);
    } else if g < h {
      JobsInOrder(ins, outs, g + 1, h);
    }
  }

  /** A patch database in the output directory. */
  datatype Place = Place(file: int, name: PatchName)

  predicate IsStored(files: map<int, OutputLevel>, p: Place) {
    p.file in files && p.name in files[p.file].patches
  }

  lemma OwnPatch(inputs: seq<LevelFile>, outs: nat, g: int, i: int, m: int)
    requires |inputs| > 0 && outs > 0 && IsJob(|inputs|, outs, g) && AllComplete(inputs) && IsPatch(inputs, i, m)
    requires FirstIn(|inputs|, outs, g) <= i < FirstIn(|inputs|, outs, g + 1)
    ensures var own, i' := JobInputs(inputs, outs, g), i - FirstIn(|inputs|, outs, g);
            AllComplete(own) && IsPatch(own, i', m) && PatchOf(own, i', m) == PatchOf(inputs, i, m)
  {
    hide FirstIn, FirstPositions, Complete;
    JobInRange(|inputs|, outs, g);
    assert JobInputs(inputs, outs, g)[i - FirstIn(|inputs|, outs, g)] == inputs[i];
  }

  /** Where job `g` copies a patch of one of the files it reads. */
  function JobPlace(inputs: seq<LevelFile>, outs: nat, g: int, i: int, m: int): Place
    requires |inputs| > 0 && outs > 0 && IsJob(|inputs|, outs, g) && AllComplete(inputs) && IsPatch(inputs, i, m)
    requires FirstIn(|inputs|, outs, g) <= i < FirstIn(|inputs|, outs, g + 1)
  {
    OwnPatch(inputs, outs, g, i, m);
    var first, size, own := FirstOut(|inputs|, outs, g), JobSize(|inputs|, outs, g), JobInputs(inputs, outs, g);
    var c := CopyOf(own, size, first, i - FirstIn(|inputs|, outs, g), m);
    Place(first + c.out, c.name)
  }

  /** Where the patch goes: where the job that reads it copies it. */
  function Destination(inputs: seq<LevelFile>, outs: nat, i: int, m: int): Place
    requires AllComplete(inputs) && outs > 0 && IsPatch(inputs, i, m)
  {
    JobSizes(|inputs|, outs, 0);
    JobPlace(inputs, outs, JobReading(|inputs|, outs, Smaller(|inputs|, outs), i), i, m)
  }

  /** The patch is stored at this place, unchanged but for its owner, which is the number of the file. */
  predicate Arrived(inputs: seq<LevelFile>, files: map<int, OutputLevel>, i: int, m: int, p: Place)
    requires AllComplete(inputs) && IsPatch(inputs, i, m)
  {
    IsStored(files, p) && files[p.file].patches[p.name] == PatchOf(inputs, i, m).(owner := p.file)
  }

  lemma OutputHasPatch(own: seq<LevelFile>, size: nat, first: int, outs: nat, i: int, m: int,
                       files: map<int, OutputLevel>)
    requires AllComplete(own) && size > 0 && (|own| <= 1 || size == 1) && NoneClashes(own) && IsPatch(own, i, m)
    requires forall j | 0 <= j < size :: IsOutput(own, size, first, outs, j, files)
    ensures var c := CopyOf(own, size, first, i, m);
            c.out < size && Arrived(own, files, i, m, Place(first + c.out, c.name))
  {
    hide AllComplete, IsPatch, PatchOf, NoneClashes, CopyOf, PatchOutputs, OutputBoxes, FileHolds;
    CopyIsStored(own, size, first, i, m);
    assert IsOutput(own, size, first, outs, CopyOf(own, size, first, i, m).out, files);
  }

  /** What job `g` makes of a patch it reads. */
  lemma JobStoresPatch(inputs: seq<LevelFile>, outs: nat, g: int, i: int, m: int, files: map<int, OutputLevel>)
    requires |inputs| > 0 && outs > 0 && IsJob(|inputs|, outs, g) && AllComplete(inputs) && IsPatch(inputs, i, m)
    requires FirstIn(|inputs|, outs, g) <= i < FirstIn(|inputs|, outs, g + 1)
    requires JobClear(inputs, outs, g) && JobDone(inputs, outs, g, files)
    ensures var p := JobPlace(inputs, outs, g, i, m);
            FirstOut(|inputs|, outs, g) <= p.file < FirstOut(|inputs|, outs, g + 1) && Arrived(inputs, files, i, m, p)
  {
    hide AllComplete, IsPatch, PatchOf, NoneClashes, IsOutput, FirstIn, FirstOut;
    var first, size, own := FirstOut(|inputs|, outs, g), JobSize(|inputs|, outs, g), JobInputs(inputs, outs, g);
    OwnPatch(inputs, outs, g, i, m);
    JobSizes(|inputs|, outs, g);
    OutputHasPatch(own, size, first, outs, i - FirstIn(|inputs|, outs, g), m, files);
  }

  /** The patches of one job go to different places. */
  lemma JobKeepsPatchesApart(inputs: seq<LevelFile>, outs: nat, g: int, i: int, m: int, j: int, n: int)
    requires |inputs| > 0 && outs > 0 && IsJob(|inputs|, outs, g) && AllComplete(inputs)
             && JobClear(inputs, outs, g)
    requires IsPatch(inputs, i, m) && FirstIn(|inputs|, outs, g) <= i < FirstIn(|inputs|, outs, g + 1)
    requires IsPatch(inputs, j, n) && FirstIn(|inputs|, outs, g) <= j < FirstIn(|inputs|, outs, g + 1)
    requires i == j ==> m != n
    ensures JobPlace(inputs, outs, g, i, m) != JobPlace(inputs, outs, g, j, n)
  {
    hide AllComplete, IsPatch, PatchOf, NoneClashes, FirstIn, FirstOut, CopyOf;
    var first, size, own := FirstOut(|inputs|, outs, g), JobSize(|inputs|, outs, g), JobInputs(inputs, outs, g);
    OwnPatch(inputs, outs, g, i, m);
    OwnPatch(inputs, outs, g, j, n);
    JobSizes(|inputs|, outs, g);
    TwoCopiesAreApart(own, size, first, i - FirstIn(|inputs|, outs, g), m, j - FirstIn(|inputs|, outs, g), n);
  }

  lemma OutputPatchFrom(own: seq<LevelFile>, size: nat, first: int, outs: nat, j: nat, files: map<int, OutputLevel>,
                        name: PatchName)
    returns (i: int, m: int)
    requires AllComplete(own) && j < size && IsOutput(own, size, first, outs, j, files)
    requires name in files[first + j].patches
    ensures IsPatch(own, i, m)
    ensures CopyOf(own, size, first, i, m).out == j && CopyOf(own, size, first, i, m).name == name
  {
    hide AllComplete, IsPatch;
    i, m := StoredIsCopy(own, size, first, j, name);
  }

  /** Every patch in a file of job `g` is that of a file the job reads. */
  lemma JobPatchFrom(inputs: seq<LevelFile>, outs: nat, g: int, files: map<int, OutputLevel>, p: Place)
    returns (i: int, m: int)
    requires |inputs| > 0 && outs > 0 && IsJob(|inputs|, outs, g) && AllComplete(inputs)
             && JobDone(inputs, outs, g, files)
    requires FirstOut(|inputs|, outs, g) <= p.file < FirstOut(|inputs|, outs, g + 1) && IsStored(files, p)
    ensures IsPatch(inputs, i, m) && FirstIn(|inputs|, outs, g) <= i < FirstIn(|inputs|, outs, g + 1)
    ensures JobPlace(inputs, outs, g, i, m) == p
  {
    hide AllComplete, IsPatch, PatchOf, FirstIn, FirstOut, IsOutput;
    var first, size, own := FirstOut(|inputs|, outs, g), JobSize(|inputs|, outs, g), JobInputs(inputs, outs, g);
    OwnComplete(inputs, outs, g);
    assert IsOutput(own, size, first, outs, p.file - first, files);
    var i', m' := OutputPatchFrom(own, size, first, outs, p.file - first, files, p.name);
    i, m := FirstIn(|inputs|, outs, g) + i', m';
    PatchOfOwn(inputs, outs, g, i', m);
  }

  lemma PatchOfOwn(inputs: seq<LevelFile>, outs: nat, g: int, i': int, m: int)
    requires |inputs| > 0 && outs > 0 && IsJob(|inputs|, outs, g) && IsPatch(JobInputs(inputs, outs, g), i', m)
    ensures IsPatch(inputs, FirstIn(|inputs|, outs, g) + i', m)
    ensures FirstIn(|inputs|, outs, g) <= FirstIn(|inputs|, outs, g) + i' < FirstIn(|inputs|, outs, g + 1)
  {
    hide FirstIn, FirstPositions, Complete;
    JobInRange(|inputs|, outs, g);
    assert JobInputs(inputs, outs, g)[i'] == inputs[FirstIn(|inputs|, outs, g) + i'];
  }

  lemma Arrives(inputs: seq<LevelFile>, outs: nat, nprocs: nat, written: seq<map<int, OutputLevel>>, i: int, m: int)
    returns (g: int)
    requires AllComplete(inputs) && 0 < nprocs <= Smaller(|inputs|, outs) && AllJobsClear(inputs, outs)
    requires AllWritten(inputs, outs, nprocs, written) && IsPatch(inputs, i, m)
    ensures IsJob(|inputs|, outs, g) && FirstIn(|inputs|, outs, g) <= i < FirstIn(|inputs|, outs, g + 1)
    ensures JobClear(inputs, outs, g) && Destination(inputs, outs, i, m) == JobPlace(inputs, outs, g, i, m)
    ensures FirstOut(|inputs|, outs, g) <= Destination(inputs, outs, i, m).file < FirstOut(|inputs|, outs, g + 1)
    ensures Arrived(inputs, Directory(written), i, m, Destination(inputs, outs, i, m))
  {
    hide AllComplete, JobDone, JobClear, AllWritten, Directory, Arrived, JobPlace;
    DirectoryIsDone(inputs, outs, nprocs, written);
    JobSizes(|inputs|, outs, 0);
    g := JobReading(|inputs|, outs, Smaller(|inputs|, outs), i);
    JobStoresPatch(inputs, outs, g, i, m, Directory(written));
  }

  lemma ArriveApart(inputs: seq<LevelFile>, outs: nat, nprocs: nat, written: seq<map<int, OutputLevel>>,
                    i: int, m: int, j: int, n: int)
    requires AllComplete(inputs) && 0 < nprocs <= Smaller(|inputs|, outs) && AllJobsClear(inputs, outs)
    requires AllWritten(inputs, outs, nprocs, written) && IsPatch(inputs, i, m) && IsPatch(inputs, j, n)
    requires i == j ==> m != n
    ensures Destination(inputs, outs, i, m) != Destination(inputs, outs, j, n)
  {
    hide AllComplete, JobDone, JobClear, AllWritten, Directory, IsPatch, Arrived, Destination, JobPlace, FirstOut;
    var g := Arrives(inputs, outs, nprocs, written, i, m);
    var h := Arrives(inputs, outs, nprocs, written, j, n);
    if g == h {
      JobKeepsPatchesApart(inputs, outs, g, i, m, j, n);
    } else if g < h {
      JobsInOrder(|inputs|, outs, g + 1, h);
    } else {
      JobsInOrder(|inputs|, outs, h + 1, g);
    }
  }

  lemma ArrivedFrom(inputs: seq<LevelFile>, outs: nat, nprocs: nat, written: seq<map<int, OutputLevel>>, p: Place)
    returns (i: int, m: int)
    requires AllComplete(inputs) && 0 < nprocs <= Smaller(|inputs|, outs)
    requires AllWritten(inputs, outs, nprocs, written) && IsStored(Directory(written), p)
    ensures IsPatch(inputs, i, m) && Destination(inputs, outs, i, m) == p
  {
    hide AllComplete, JobDone, AllWritten, Directory;
    DirectoryIsDone(inputs, outs, nprocs, written);
    var g := JobWriting(inputs, outs, nprocs, written, p.file);
    i, m := JobPatchFrom(inputs, outs, g, Directory(written), p);
    JobReadingIsUnique(|inputs|, outs, Smaller(|inputs|, outs), i, g);
  }

  /** Some patch of the input files goes to this place. */
  ghost predicate ComesFromInput(inputs: seq<LevelFile>, outs: nat, p: Place)
    requires AllComplete(inputs) && outs > 0
  {
    exists i, m :: IsPatch(inputs, i, m) && Destination(inputs, outs, i, m) == p
  }

  /** No patch is lost, overwritten or invented in the whole run, over all processes, iterations and files: every
      patch of every input file is found at exactly one place of the output files, unchanged but for its owner,
      no two patches at the same place, and every patch of the output files is one of these. */
  lemma {:induction false} RunConservesPatches(inputs: seq<LevelFile>, outs: nat, nprocs: nat,
                                               written: seq<map<int, OutputLevel>>)
    requires AllComplete(inputs) && 0 < nprocs <= Smaller(|inputs|, outs) && AllJobsClear(inputs, outs)
    requires AllWritten(inputs, outs, nprocs, written)
    ensures forall i, m | IsPatch(inputs, i, m) ::
              Arrived(inputs, Directory(written), i, m, Destination(inputs, outs, i, m))
    ensures forall i, m, j, n | IsPatch(inputs, i, m) && IsPatch(inputs, j, n) && (i != j || m != n) ::
              Destination(inputs, outs, i, m) != Destination(inputs, outs, j, n)
    ensures forall p | IsStored(Directory(written), p) :: ComesFromInput(inputs, outs, p)
  {
    hide AllComplete, JobClear, AllWritten, Directory, IsPatch, IsStored, Destination, Arrived;
    forall i, m | IsPatch(inputs, i, m)
      ensures Arrived(inputs, Directory(written), i, m, Destination(inputs, outs, i, m))
    {
      var g := Arrives(inputs, outs, nprocs, written, i, m);
    }
    forall i, m, j, n | IsPatch(inputs, i, m) && IsPatch(inputs, j, n) && (i != j || m != n)
      ensures Destination(inputs, outs, i, m) != Destination(inputs, outs, j, n)
    {
      ArriveApart(inputs, outs, nprocs, written, i, m, j, n);
    }
    forall p | IsStored(Directory(written), p)
      ensures ComesFromInput(inputs, outs, p)
    {
      var i, m := ArrivedFrom(inputs, outs, nprocs, written, p);
    }
  }
}
