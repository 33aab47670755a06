# Verification of SAMRAI's subcycled time stepping and of its restart redistribution

This Dafny project models two parts of SAMRAI and proves what they are for.

**The subcycled time stepping protocol.**  `TimeRefinementIntegrator` advances a hierarchy of levels
recursively: every step of a level is followed by a sequence of steps of the next finer level that reaches the
same time, and the levels decide among themselves who synchronizes, resets and regrids.
`HyperbolicLevelIntegrator` is the storage and flux state machine that is driven by these decisions.

- `Schedule.dfy`: the history of level operations of a run, the law it obeys, and what follows for every lawful
  history.
- `HyperbolicLevelIntegrator.dfy`: which of the CURRENT, NEW, FLUX and flux-sum data exist on each level, and the cell
  data that go with them, with any fluxes and any regrids.  As ghost state it carries the history and the data at each
  of its events.
- `StepSize.dfy`: the arithmetic that plans, and plans again after every step, how many steps a sequence has.
- `TimeRefinementIntegrator.dfy`: the class with the recursion.  Each method is proved against predicates over
  the state of all levels (`Before`, `InSequence`, `Followed`, `Synchronized`, `After`), and keeps the history
  lawful.  The recursion and its loop are proved to end.
- `Conservation.dfy`: the cell data of a hierarchy of any depth in one dimension, what the events of a history do to
  them, and what every event keeps.  A cell is represented by its content (value times width), a face by its flux
  integral.
- `RunConservation.dfy`: conservation for every lawful history.
- `FluxCorrection.dfy`: what a level gains when it is synchronized without flux correction.
- `Refluxing.dfy`: the same operations on arrays of cell values, as the level integrator performs them in place, for
  any number of levels; each is proved to be the event of `Conservation.dfy`.

**The restart redistribution tool** (`tools/restart`).  Every process computes its own slice of a mapping from N
files to M files without communication, and merges or splits the boxes and patches in those files.

- `FileMapping.dfy`: the mapping loop and the closed form of file numbers.
- `Renumbering.dfy`: the renumbering of colliding local indices.
- `BoxLevels.dfy`: the box-level loops, merging and splitting.
- `PatchLevels.dfy`: the separately written patch-level loops, and their agreement with the box-level ones.
- `Redistribution.dfy`: the loop over jobs of one process, and all processes together.

`Wrappers.dfy` holds the `Option` type and integer extremes.

## Main results

1. `EveryStepIsSynchronized`: in every lawful history, a step on a level that had a finer level is followed,
   before the next step of that level, by exactly one synchronization that covers the pair; it happens at the
   end of the step, every level in its range has NEW data at that time, the finer steps in between have positive
   length and partition exactly the interval of the step, and the flux sum delivered is, at every face, the sum of
   exactly their fluxes.  `AdvanceHierarchy` keeps the history lawful, owes nothing when it returns, and leaves NEW
   data on no level; `Simulate` chains it from the constructor on, for any increments and any allowed rebalances.
   The law also contains the typestate: no level is advanced that holds NEW data, only NEW data at the announced
   time is reset, a first step finds no live flux storage.
2. `RegridsAreDue`, `DueLevelsAreRegridded`: in every lawful history a level regrids only after steps that fill whole
   regrid intervals, and whenever they do, it or a coarser level regrids before the next step of any of them.
   `EveryStepIsLimited`, `NewLevelGetsNewDt`: every step above level zero keeps, up to the tolerance, to the increment
   that the last advance of the level returned, or, on a level created by a regrid, to a new one that is computed
   before its first step from the last step of the next coarser level, whatever regrids are nested in between.  What
   `AdvanceHierarchy` returns does not exceed what the last advance of level zero returned.
3. `PlanShrinks`, `StepMakesProgress`, `SequenceEndsIffGrowthAtLeastOne`: the step sequence ends although the
   number of steps is estimated anew after each step, and above level zero it does so for all step sizes if and only
   if the growth factor is at least one.
4. `LawfulRunConserves`: in the course of every lawful history that owes nothing, whatever the fluxes, the number and
   size of steps, the depth and the regrids, every cell of level zero changes by what passes its faces on the finest
   level there, and the hierarchy gains only what passes the ends of the domain.  `AdvanceHierarchy` promises this of
   the data it advances.  If no step has a flux through the ends of the domain, what the hierarchy holds does not
   change at all (`ClosedRunConserves`).  `UncorrectedConservesIff` says exactly when a synchronization without flux
   correction conserves as well.
5. `MappingsPartitionTheFiles`, `FileIdsAreABijection`, `EveryFileIsWrittenOnce`: the slices that the processes
   compute on their own fit together, and every output file is written by exactly one of them.
6. `RunConservesBoxes`, `RunConservesPatches`: over all processes, iterations and files no box is lost or duplicated,
   and every patch is found at exactly one place of the output, unchanged but for its owner.  `SplitByShares` says to
   which output a box of a split file goes, `RenumberedIndices` which index it gets in a merged one.
7. `MergeKeepsFilesApartIff`, `AllFinishIff`, `PatchesFollowBoxes`, `RunNamesFiles`: merging keeps boxes apart, and the
   tool finishes, exactly under a condition that is reckoned from the local indices of the input files; then patches
   and boxes agree in every output file, and every file names itself by its own number.

## Where the code and its documentation, or its intention, differ

- The header of `findNextDtAndStepsRemaining` promises a time increment that exceeds neither the bound that is passed
  in nor the remaining time (`TimeRefinementIntegrator.h:602-605`).  `FindNextDtAndStepsRemaining` states that the
  promise is kept if and only if `KeepsPromise` holds: on level zero the increment is the remaining time, so it is
  kept if and only if that does not exceed the bound; when no steps remain the increment is the maximum one, so it
  is kept if and only if that does not exceed the remaining time; otherwise the rest that is dropped by the tolerance
  can make the increment larger than the bound, exactly under the condition of `StepSizeExceedsBoundIff`.
  `StepSizeExceedsBound` is an example for every tolerance, and `StepSizeBound` the bound that does hold.
- `grow_dt` may be any positive number (`TimeRefinementIntegrator.C:1634-1637`), but below one the step loop
  need not end (`SequenceEndsIffGrowthAtLeastOne`).  The recursion requires at least one, and that the time increments
  returned by the level strategy do not fall below some positive number.
- `initializeLevelData` announces that the flux storage of level zero persists as long as the level does
  (`HyperbolicLevelIntegrator.C:264-268`), and the flag `d_have_flux_on_level_zero` relies on it.  Rebalancing
  level zero replaces the level but does not lower the flag (`MakeCoarsestLevel`).  The flag is up after an advance if
  and only if the hierarchy had a single level when the advance began (`AdvanceHierarchy`), so that an advance
  that rebalances finds storage for its fluxes if and only if the previous one began with more than one level, or
  there was none (`RebalanceAfterAdvance`, `InitializeHierarchy`).
- `advanceHierarchy` accepts a zero increment.  With one level it works (`AdvanceHierarchy` includes it).  With more
  levels it does not: the synchronization of level zero insists on a time later than that before the step
  (`HyperbolicLevelIntegrator.C:1474`), and gets one if and only if the increment is positive (`MayBeSynchronized`).
- Merging replaces an index that is used already by one more than the largest used so far
  (`RedistributedRestartUtility.C:839-889`).  If that is an index of the same file which is still to be entered, two
  boxes get the same index, and the patch loop runs past the end of a list (`ListsMatchIff`), which the model reports
  as a failure.  `RenumberKeepsApartIff` and `MergeKeepsFilesApartIff` show that this is the only way to fail: boxes
  are kept apart if and only if there is no such clash (`NoClash`, `NoFileClashes`), which can be told beforehand from
  the different indices of the files; `AllFinishIff` says so of the whole run.  A file in which the largest local index
  is the last one to occur for the first time never clashes, and every other file clashes after some ordered one
  (`MergeKeepsApartIff`); files with non-decreasing indices are of the first kind (`SortedComesLast`).

## Model

| member | source | states |
|---|---|---|
| Schedule.EveryStepIsSynchronized | source/SAMRAI/algs/TimeRefinementIntegrator.C:797-866 | for every lawful history: each step with a finer level is followed by exactly one synchronization of the pair before the next step, at its end time, with all levels in range there, after finer steps of positive length that partition its interval and whose fluxes the delivered flux sum adds up at every face |
| Schedule.NextTouchIsSync | source/SAMRAI/algs/TimeRefinementIntegrator.C:797-866 | the first event after a step that touches the pair of levels is a synchronization of the pair |
| Schedule.SyncsAreSeparated | source/SAMRAI/algs/TimeRefinementIntegrator.C:813-866 | two synchronizations of a pair have a step of the coarser level between them |
| Schedule.NewLevelGetsNewDt | source/SAMRAI/algs/TimeRefinementIntegrator.C:694-710 | between the regrid that creates a level and its first step its maximum increment is computed anew: the largest one that, times the refinement ratio, is no more than the last step of the next coarser level, and on a refinable level leaves time for a regrid interval of steps |
| Schedule.EveryStepIsLimited | source/SAMRAI/algs/TimeRefinementIntegrator.C:868-879 | above level zero every step of a lawful history is at most the increment that the last advance of the level returned, or, if a regrid has created the level since, the one computed anew, divided by one minus the tolerance |
| Schedule.RegridsAreDue | source/SAMRAI/algs/TimeRefinementIntegrator.C:1416-1445 | a level regrids only if it can be refined and its steps, since the last one of the next coarser level, or on level zero since the start, are a positive multiple of its regrid interval |
| Schedule.DueLevelsAreRegridded | source/SAMRAI/algs/TimeRefinementIntegrator.C:889-978 | conversely, whenever the steps are such a multiple, the level or a coarser one regrids before the next step of any of them, or before the end of a history that owes no regrid |
| LevelIntegration.HyperbolicLevelIntegrator.AdvanceLevel | source/SAMRAI/algs/HyperbolicLevelIntegrator.C:988-1275 | NEW data at the new time, FLUX storage live, the flux sums at all faces restarted on a first step and added to otherwise, untouched by a regrid advance; other levels unchanged; cell data and history go on together |
| LevelIntegration.HyperbolicLevelIntegrator.PreprocessFluxData | source/SAMRAI/algs/HyperbolicLevelIntegrator.C:2096-2173 | which flux storage an advance allocates, the zeroed flux sum of a first step, and the flag of level zero |
| LevelIntegration.HyperbolicLevelIntegrator.PostprocessFluxData | source/SAMRAI/algs/HyperbolicLevelIntegrator.C:2199-2393 | the fluxes are added to the flux sums in a real step of a level above zero; a first regrid advance gives its flux storage back |
| LevelIntegration.HyperbolicLevelIntegrator.StandardLevelSynchronization | source/SAMRAI/algs/HyperbolicLevelIntegrator.C:1304-1355 | levels above the coarsest give up flux and flux-sum storage, the coarsest keeps its flux unless it is level zero, whose flag goes down with it; needs live fluxes, flux sums and NEW data in the range |
| LevelIntegration.HyperbolicLevelIntegrator.ResetTimeDependentData | source/SAMRAI/algs/HyperbolicLevelIntegrator.C:1565-1633 | NEW data, which must exist, becomes CURRENT at the given time |
| LevelIntegration.HyperbolicLevelIntegrator.RegridAllFinerLevels | source/SAMRAI/algs/TimeRefinementIntegrator.C:971-978 | all finer levels are replaced by any number of new ones that hold CURRENT data only |
| LevelIntegration.HyperbolicLevelIntegrator.MakeCoarsestLevel | source/SAMRAI/mesh/GriddingAlgorithm.C:576-619 | after level zero has been replaced, its flux flag is exact, and an advance finds storage for its fluxes, if and only if the flag was down; when that is, AdvanceHierarchy and RebalanceAfterAdvance say |
| LevelIntegration.HyperbolicLevelIntegrator.MakeFinerLevel | source/SAMRAI/algs/TimeRefinementIntegrator.C:414-419 | a level is added to the hierarchy under construction |
| StepSize.GrownDt | source/SAMRAI/algs/TimeRefinementIntegrator.C:1317-1319 | for every positive growth factor the new maximum is positive, at most the bound, at most the grown old one, and one of the two; growth of at least one never lowers it below the old one or the bound |
| StepSize.StepsToCoverBounds | source/SAMRAI/algs/TimeRefinementIntegrator.C:1329-1338 | the estimated steps cover the remaining time up to the tolerance, and one less would not reach it |
| StepSize.StepsToCoverTight | source/SAMRAI/algs/TimeRefinementIntegrator.C:1329-1338 | one more step would not fit into the remaining time, and if the last one does not fit, then the rest that it is for is above the tolerance |
| StepSize.RoundUpIsLeastMultiple | source/SAMRAI/algs/TimeRefinementIntegrator.C:1354-1365 | the number of steps becomes the least multiple of the regrid interval that is large enough |
| StepSize.PlanIsLeast | source/SAMRAI/algs/TimeRefinementIntegrator.C:1340-1365 | a refinable level gets the least number of steps that fills one or more whole regrid intervals and is large enough, any other level just the steps it needs |
| StepSize.PlanLeavesSteps | source/SAMRAI/algs/TimeRefinementIntegrator.C:1340-1379 | while time remains, at least one step is left, and a refinable level's sequence fills whole regrid intervals |
| StepSize.NoStepsLeftIff | source/SAMRAI/algs/TimeRefinementIntegrator.C:1367-1378 | the "no steps left" error is raised exactly when no time remains and the steps fill whole regrid intervals |
| StepSize.Replan | source/SAMRAI/algs/TimeRefinementIntegrator.C:1321-1379 | when planning fails, and that a plan otherwise leaves steps |
| StepSize.StepSizeBound | source/SAMRAI/algs/TimeRefinementIntegrator.C:1381-1393 | steps left times increment is the remaining time, and the increment exceeds the maximum at most by the tolerance, also after rounding up |
| StepSize.StepSizeExceedsMaxIff | source/SAMRAI/algs/TimeRefinementIntegrator.C:1321-1393 | the increment exceeds the maximum one exactly when a positive rest below the tolerance is dropped and no step is added by rounding |
| StepSize.StepSizeExceedsBoundIff | source/SAMRAI/algs/TimeRefinementIntegrator.h:602-611 | above level zero the increment never exceeds the remaining time, and exceeds the bound passed in exactly when the rest after whole steps is below the tolerance, rounding adds no step, and whole steps of the size of the bound would not reach the end |
| StepSize.StepSizeExceedsBound | source/SAMRAI/algs/TimeRefinementIntegrator.h:602-611 | for every tolerance an input, with the plan made for it, for which the promised bound is exceeded |
| StepSize.FreshSequenceStepsIff | source/SAMRAI/algs/TimeRefinementIntegrator.C:1321-1365 | with a positive maximum increment, a level that cannot be refined takes a step if and only if time remains, and one that can is planned to take some in any case |
| StepSize.PlanShrinks | source/SAMRAI/algs/TimeRefinementIntegrator.C:734-879 | every step but the last lowers, lexicographically, the remaining time in units of m/(interval + 2) and the steps left, whatever the new plan is |
| StepSize.SequenceEndsWithGrowth | source/SAMRAI/algs/TimeRefinementIntegrator.C:1317-1338 | with growth of at least one the sequence of plans reaches a last step, on every level above zero |
| StepSize.SequenceStalls | source/SAMRAI/algs/TimeRefinementIntegrator.C:1634-1637 | with growth below one the remaining time can stay worth two or more steps for ever, on every level above zero |
| StepSize.SequenceEndsIffGrowthAtLeastOne | source/SAMRAI/algs/TimeRefinementIntegrator.C:1634-1637 | on every level above zero, refinable or not, the sequence ends for every remaining time and step size if and only if growth is at least one |
| TimeRefinement.TimeRefinementIntegrator.constructor | source/SAMRAI/algs/TimeRefinementIntegrator.C:177-181 | the initial values of the integrator's members, flags included |
| TimeRefinement.RegridIntervals | source/SAMRAI/algs/TimeRefinementIntegrator.C:119-151 | intervals exist exactly if every ratio is one, even or a multiple of three; the interval is two for a ratio of one, and otherwise the least divisor of the ratio above one; level zero has that of level one |
| TimeRefinement.TimeRefinementIntegrator.FindNextDtAndStepsRemaining | source/SAMRAI/algs/TimeRefinementIntegrator.C:1300-1406 | the new maximum is the smaller one of the bound and the grown old maximum; plan and increment of the level, the answer whether the next step is the last, exactly when the error is raised, nothing else changed, and exactly when the increment exceeds neither the bound nor the remaining time, for level zero and without steps left too |
| TimeRefinement.TimeRefinementIntegrator.FreshDt | source/SAMRAI/algs/TimeRefinementIntegrator.C:694-708 | a fresh level's maximum increment is the largest positive one that fits the refinement ratio times into the coarse one and, on a refinable level, a regrid interval of steps into the remaining time |
| TimeRefinement.TimeRefinementIntegrator.BeginSequence | source/SAMRAI/algs/TimeRefinementIntegrator.C:677-715 | start of a sequence: time and counters taken from the coarser level, the maximum increment computed exactly for levels beyond the last finest one |
| TimeRefinement.TimeRefinementIntegrator.StartSequence | source/SAMRAI/algs/TimeRefinementIntegrator.C:677-726 | a sequence begins with a plan that has at least one step, and known increment |
| TimeRefinement.TimeRefinementIntegrator.PlannedStepIsLimited | source/SAMRAI/algs/TimeRefinementIntegrator.C:739-743 | a step that a plan provides, the last one included, exceeds the maximum increment at most by the tolerance |
| TimeRefinement.TimeRefinementIntegrator.StepAlone | source/SAMRAI/algs/TimeRefinementIntegrator.C:741-795 | the effect of one advanceLevel call and its bookkeeping, and the event, with the fluxes at all faces and the increment returned, that it adds to the history |
| TimeRefinement.TimeRefinementIntegrator.StepTaken | source/SAMRAI/algs/TimeRefinementIntegrator.C:741-795 | such a step is allowed by the law, comes in time as to regrids and increments, and leads to the state from which finer levels advance |
| TimeRefinement.TimeRefinementIntegrator.StepLawfully | source/SAMRAI/algs/TimeRefinementIntegrator.C:741-795 | one step as the law allows it, after which history and cell data go together again and finer levels may follow |
| TimeRefinement.TimeRefinementIntegrator.FinerMayStart | source/SAMRAI/algs/TimeRefinementIntegrator.C:797-800 | after a step of a level the next finer one may be asked to advance to the same time |
| TimeRefinement.TimeRefinementIntegrator.AdvanceFinerLevels | source/SAMRAI/algs/TimeRefinementIntegrator.C:797-805 | all finer levels reach the end of the step and have either synchronized with it or wait for it |
| TimeRefinement.TimeRefinementIntegrator.FinerFollowed | source/SAMRAI/algs/TimeRefinementIntegrator.C:797-805 | what the recursive call guarantees is what the rest of the step needs, for level zero too |
| TimeRefinement.TimeRefinementIntegrator.TakeStep | source/SAMRAI/algs/TimeRefinementIntegrator.C:734-805 | one step, to the end of the sequence exactly if it is the last one, followed by all finer levels; the increment returned by the advance is what limits the level from now on |
| TimeRefinement.TimeRefinementIntegrator.SameRegridAnswer | source/SAMRAI/algs/TimeRefinementIntegrator.C:1416-1445 | the answer a child gets about its parent's regrid point is the one the parent gets after the child has returned, for level zero too |
| TimeRefinement.TimeRefinementIntegrator.SequenceEndsAtRegridPoint | source/SAMRAI/algs/TimeRefinementIntegrator.C:1351-1445 | after the last step of a refinable level above zero its counter equals the plan and is a multiple of its regrid interval |
| TimeRefinement.TimeRefinementIntegrator.SyncAllowed | source/SAMRAI/algs/TimeRefinementIntegrator.C:831-836 | levels that wait make a synchronization lawful and meet its storage requirements |
| TimeRefinement.TimeRefinementIntegrator.SynchronizeDownTo | source/SAMRAI/algs/TimeRefinementIntegrator.C:831-836 | effect of one synchronization of a range that ends at the finest level |
| TimeRefinement.TimeRefinementIntegrator.SynchronizeForRegrid | source/SAMRAI/algs/TimeRefinementIntegrator.C:816-839 | at a regrid point the level in charge synchronizes itself and finer levels, and the coarser one too at the end of its sequence |
| TimeRefinement.TimeRefinementIntegrator.SynchronizeAndResetFinest | source/SAMRAI/algs/TimeRefinementIntegrator.C:841-864 | away from a regrid point the finer level is synchronized and reset |
| TimeRefinement.TimeRefinementIntegrator.SynchronizeAfterStep | source/SAMRAI/algs/TimeRefinementIntegrator.C:813-866 | after each step the pair is synchronized unless a coarser level takes over or a finer regrid has done it already |
| TimeRefinement.TimeRefinementIntegrator.UpdatePlan | source/SAMRAI/algs/TimeRefinementIntegrator.C:868-879 | the new maximum is the smaller one of the increment returned by the advance and the grown old maximum; planning again after a step never raises the error |
| TimeRefinement.TimeRefinementIntegrator.ResetFrom | source/SAMRAI/algs/TimeRefinementIntegrator.C:915-921 | all levels from the regridding one on are reset, each at its own time |
| TimeRefinement.TimeRefinementIntegrator.RegridIsAllowed | source/SAMRAI/algs/TimeRefinementIntegrator.C:889-978 | a regrid of a level on which it is due, while nothing is owed from there on, is allowed and comes in time |
| TimeRefinement.TimeRefinementIntegrator.RegridFinerLevels | source/SAMRAI/algs/TimeRefinementIntegrator.C:971-978 | any new set of finer levels; it is lawful where it is due, makes the increments of levels that come or go unknown, and no regrid is due any more from the level on |
| TimeRefinement.TimeRefinementIntegrator.RegridFrom | source/SAMRAI/algs/TimeRefinementIntegrator.C:889-1003 | reset and regrid of all finer levels, with the last finest level remembered |
| TimeRefinement.TimeRefinementIntegrator.RegridOrReset | source/SAMRAI/algs/TimeRefinementIntegrator.C:889-1026 | exactly the level that is in charge resets and regrids, after as many steps as the law demands; a level whose parent regrids too leaves its data to it |
| TimeRefinement.TimeRefinementIntegrator.StepGoesOn | source/SAMRAI/algs/TimeRefinementIntegrator.C:734-879 | after a step that was not the last one the sequence invariant holds again |
| TimeRefinement.TimeRefinementIntegrator.SequenceEndsRegridding | source/SAMRAI/algs/TimeRefinementIntegrator.C:889-1003 | a sequence that ends with the level's own regrid leaves the parent synchronized and finer levels clean |
| TimeRefinement.TimeRefinementIntegrator.SequenceEndsWaiting | source/SAMRAI/algs/TimeRefinementIntegrator.C:889-1026 | a sequence whose regrid is handed over leaves this level and finer ones waiting at the end time |
| TimeRefinement.TimeRefinementIntegrator.StepMakesProgress | source/SAMRAI/algs/TimeRefinementIntegrator.C:734-879 | every pass of the step loop lowers the measure |
| TimeRefinement.TimeRefinementIntegrator.OneStep | source/SAMRAI/algs/TimeRefinementIntegrator.C:734-1026 | one pass of the loop ends the sequence or keeps its invariant, keeps the history lawful, and makes progress |
| TimeRefinement.TimeRefinementIntegrator.AdvanceRecursivelyForRefinedTimestepping | source/SAMRAI/algs/TimeRefinementIntegrator.C:658-1028 | ends; the level reaches the end time, with finer levels waiting or synchronized as the regrid points say, coarser levels unchanged, and a lawful history |
| TimeRefinement.TimeRefinementIntegrator.AdvanceHierarchy | source/SAMRAI/algs/TimeRefinementIntegrator.C:288-328 | for a positive increment, or none on one level: all levels reach the new time with CURRENT data only, no synchronization and no regrid is owed, the steps of level zero partition the time since the start, the flux flag of level zero is up exactly if the advance began with one level, and the cell data have changed as conservation demands, not at all in total if no flux passes the ends of the domain; the increment returned is the smaller one of the time up to the end and the new maximum, which is the smaller one of what the last advance of level zero has returned and the grown old maximum |
| TimeRefinement.TimeRefinementIntegrator.MayBeSynchronized | source/SAMRAI/algs/HyperbolicLevelIntegrator.C:1474-1474 | with finer levels, after the step of level zero its synchronization gets a time later than before the step if and only if the increment is positive |
| TimeRefinement.TimeRefinementIntegrator.RebalanceAfterAdvance | source/SAMRAI/algs/HyperbolicLevelIntegrator.C:2114-2136 | after an advance and a rebalance of level zero the next advance finds flux storage if and only if the hierarchy had more than one level when the advance began |
| TimeRefinement.TimeRefinementIntegrator.InitializeHierarchy | source/SAMRAI/algs/TimeRefinementIntegrator.C:218-273 | the first hierarchy is ready to be advanced, with or without a rebalance; the increment returned is that of level zero |
| TimeRefinement.TimeRefinementIntegrator.InitializeTimeStep | source/SAMRAI/algs/TimeRefinementIntegrator.C:360-397 | the first increment of a level is what the level strategy finds stable, but times the refinement ratio at most the increment of the coarser level, and one of the two |
| TimeRefinement.TimeRefinementIntegrator.InitializeRefinedTimesteppingLevelData | source/SAMRAI/algs/TimeRefinementIntegrator.C:348-470 | every initial level has CURRENT data at the start time, and the increment that InitializeTimeStep gives it from the coarser one |
| TimeRefinement.Simulate | source/SAMRAI/algs/TimeRefinementIntegrator.C:218-328 | construction, initialization and any number of advances, with rebalances where the previous advance began with several levels: the final time, a lawful history that owes no synchronization and no regrid, and conservation over the whole run |
| Conservation.StepInFigures | source/SAMRAI/algs/HyperbolicLevelIntegrator.C:1043-1239 | every cell of the level loses the difference of the fluxes at its faces, which start the flux sums or are added to them, and on the finest level have passed; nothing else changes, but on the next finer level nothing has passed yet |
| Conservation.SyncInFigures | source/SAMRAI/algs/HyperbolicLevelIntegrator.C:1462-1553 | covered cells get what the finer cells hold; every other cell loses, from its content before the step, the difference of the fluxes, replaced by finer flux sums at the ends of finer boxes |
| Conservation.SyncRange | source/SAMRAI/algs/HyperbolicLevelIntegrator.C:1326-1351 | synchronizing a range synchronizes each level but the finest with the next finer one as it is then, and no other level |
| Conservation.StepRecords | source/SAMRAI/algs/HyperbolicLevelIntegrator.C:2219-2391 | a step starts the flux sums or adds its fluxes to them, so that around a level they go on being what has passed and what the unsynchronized step passes |
| Conservation.FaceOfUncoveredCell | source/SAMRAI/algs/HyperbolicLevelIntegrator.C:1478-1497 | exactly the fluxes at ends of finer boxes are replaced, and at the faces of uncovered cells they are what passes on the finest level there |
| Conservation.CoveredCell | source/SAMRAI/algs/HyperbolicLevelIntegrator.C:1534-1551 | a covered cell, coarsened from the finer level, has changed by what passes its faces |
| Conservation.UncoveredCell | source/SAMRAI/algs/HyperbolicLevelIntegrator.C:1486-1532 | an uncovered cell, updated again with corrected fluxes, has changed by what passes its faces |
| Conservation.SynchronizationBalances | source/SAMRAI/algs/HyperbolicLevelIntegrator.C:1462-1553 | after synchronization of two levels every cell of the coarser one, covered or not, has changed by what has passed its faces |
| Conservation.BalancedFlows | source/SAMRAI/algs/HyperbolicLevelIntegrator.C:1462-1553 | as long as the cells of a finer level change by what passes their faces, what they hold and what has left them is what the coarser cells held before their step |
| Conservation.SyncKeeps | source/SAMRAI/algs/HyperbolicLevelIntegrator.C:1326-1351 | synchronizing a range, the finest levels first, keeps the invariant of the data of all levels |
| Conservation.RegridKeeps | source/SAMRAI/algs/TimeRefinementIntegrator.C:971-978 | so does replacing the finer levels by any that are nested and averaged, wherever the law allows it |
| Conservation.EventKeeps | source/SAMRAI/algs/TimeRefinementIntegrator.C:734-1026 | every event that the law allows keeps the invariant, and changes every cell of level zero by what passes its faces |
| RunConservation.RunKeeps | source/SAMRAI/algs/TimeRefinementIntegrator.C:734-1026 | at every time in a lawful history the levels agree, also in the middle of steps, and the settled contents of level zero have changed by what has passed |
| RunConservation.MassIsOnLevel | source/SAMRAI/geom/fortran/geom_m4cartcoarsenops1d.i:31-59 | in a synchronized hierarchy the content counted on the finest levels is that of the level itself |
| RunConservation.LawfulRunConserves | source/SAMRAI/algs/HyperbolicLevelIntegrator.C:1442-1553 | every lawful history that owes nothing, with any fluxes, steps, depth and regrids, leaves nested and averaged levels, changes each cell of level zero by what passes it, and the whole content only by what passes the ends of the domain |
| RunConservation.EventStaysClosed | source/SAMRAI/algs/TimeRefinementIntegrator.C:734-1026 | an event without flux through the ends of the domain lets nothing pass them on any level, at any depth of pending steps |
| RunConservation.ClosedRunConserves | source/SAMRAI/algs/HyperbolicLevelIntegrator.C:1442-1553 | a lawful history that owes nothing, in which no step has a flux through the ends of the domain, leaves the whole content unchanged |
| FluxCorrection.UncorrectedGains | source/SAMRAI/algs/HyperbolicLevelIntegrator.C:1457-1532 | without flux correction a level gains, on any pair of levels, the sum of the mismatches at faces between covered and uncovered cells |
| FluxCorrection.UncorrectedConservesIff | source/SAMRAI/algs/HyperbolicLevelIntegrator.C:1457-1532 | without flux correction a synchronization conserves for all fluxes if and only if no face separates a covered cell from an uncovered one |
| Refluxing.Level.PreprocessFluxData | source/SAMRAI/algs/HyperbolicLevelIntegrator.C:2129-2171 | the flux sums are zeroed exactly on the first step of a level above zero |
| Refluxing.Level.PostprocessFluxData | source/SAMRAI/algs/HyperbolicLevelIntegrator.C:2219-2391 | the fluxes at both ends of every box are added to the flux sums |
| Refluxing.Level.ConservativeDifference | source/SAMRAI/algs/HyperbolicPatchStrategy.h:156-170 | on the cells of the level the contents lose the difference of the flux integrals |
| Refluxing.Level.AdvanceLevel | source/SAMRAI/algs/HyperbolicLevelIntegrator.C:1043-1239 | the arrays of a level hold the data of the level after the step |
| Refluxing.Level.ResetTimeDependentData | source/SAMRAI/algs/HyperbolicLevelIntegrator.C:1565-1633 | the arrays hold the data with NEW in place of CURRENT |
| Refluxing.CoarsenFluxSums | source/SAMRAI/geom/fortran/geom_m4cartcoarsenops1d.i:102-114 | exactly the coarse fluxes at ends of fine boxes are replaced by the flux sums |
| Refluxing.WeightedAverage | source/SAMRAI/geom/fortran/geom_m4cartcoarsenops1d.i:31-59 | the coarse cell gets the content of its fine cells |
| Refluxing.CoarsenData | source/SAMRAI/geom/fortran/geom_m4cartcoarsenops1d.i:31-59 | exactly the covered coarse cells are overwritten, each by the content of its fine cells |
| Refluxing.SynchronizeLevelWithCoarser | source/SAMRAI/algs/HyperbolicLevelIntegrator.C:1462-1553 | with flux correction the coarse difference is repeated from current data with replaced fluxes before coarsening; without it there is coarsening only |
| Refluxing.AdvanceLevel | source/SAMRAI/algs/HyperbolicLevelIntegrator.C:1043-1239 | in a hierarchy of any number of levels in arrays, advancing one is the step event on the data of all |
| Refluxing.ResetTimeDependentData | source/SAMRAI/algs/HyperbolicLevelIntegrator.C:1565-1633 | resetting one level is the reset event |
| Refluxing.StandardLevelSynchronization | source/SAMRAI/algs/HyperbolicLevelIntegrator.C:1326-1351 | the loop over the levels in arrays, from the finest down, is the synchronization event, and without flux correction coarsening only |
| FileMapping.ComputeFileMapping | tools/restart/main.C:237-294 | a process gets its slice of the groups, or the error exactly if there are more processes than files on the smaller side |
| FileMapping.SliceInFigures | tools/restart/main.C:250-294 | how many groups a process gets, how many files each of them has, and which: the first processes and the first groups get one more |
| FileMapping.PassGroups | tools/restart/main.C:270-293 | file counter and remainder after passing over groups, and the groups themselves for the own rank |
| FileMapping.SlicesInOrder | tools/restart/main.C:268-294 | the slices of the first processes are the first groups in order |
| FileMapping.GroupsInOrder | tools/restart/main.C:274-293 | the first groups list the first files in order |
| FileMapping.MappingsPartitionTheFiles | tools/restart/main.C:237-294 | all slices together: as many groups as files on the smaller side, sizes that differ by at most one, every file of the larger side once and in order |
| FileMapping.FileIdIsGroupPosition | tools/restart/RedistributedRestartUtility.C:89-96 | the closed form of a file number is the position of the group in the mapping loop: the groups of the processes before, the first of which have one more, and the own ones so far |
| FileMapping.FileIdsAreABijection | tools/restart/RedistributedRestartUtility.C:132-140 | over all processes every number on the smaller side is used, and used once |
| Renumbering.RenumberIsInjective | tools/restart/RedistributedRestartUtility.C:839-889 | merging one more file in which the largest index comes last keeps its boxes apart, avoids all used indices, and keeps the bound a bound |
| Renumbering.RenumberedIndices | tools/restart/RedistributedRestartUtility.C:839-889 | if the boxes are kept apart, an index that is not used stays, and all others become the next free one above the old bound and the new indices of those that occur later for the first time; the new bound is the largest of all |
| Renumbering.RenumberKeepsApartIff | tools/restart/RedistributedRestartUtility.C:839-889 | merging one more file keeps its boxes apart if and only if no used index of it is replaced by one still to be entered, told from its different indices and the used ones |
| Renumbering.RenumberIsSeparate | tools/restart/RedistributedRestartUtility.C:839-889 | whatever the order of indices, if merging one more file keeps its boxes apart then it avoids all used indices |
| Renumbering.SharedStaysShared | tools/restart/RedistributedRestartUtility.C:875-879 | boxes that share an index, as periodic images do, go on sharing one |
| Renumbering.MergeKeepsApartIff | tools/restart/RedistributedRestartUtility.C:839-889 | a file's boxes are kept apart after every ordered file if and only if its largest index is the last to occur first |
| Renumbering.MergeCollides | tools/restart/RedistributedRestartUtility.C:873-881 | otherwise there is an ordered file after which two of its boxes collide |
| Renumbering.SortedComesLast | tools/restart/RedistributedRestartUtility.C:841-853 | files with non-decreasing indices meet the condition |
| Renumbering.MergeIsInjective | tools/restart/RedistributedRestartUtility.C:802-889 | any number of files in each of which, but the first, the largest index comes last: there is no clash, different files get different indices, boxes of a file share one exactly if they did, and the bound bounds all |
| Renumbering.MergeIsSeparate | tools/restart/RedistributedRestartUtility.C:802-889 | any number of files: if each file's boxes are kept apart, boxes of different files get different indices too |
| Renumbering.MergeKeepsFilesApartIff | tools/restart/RedistributedRestartUtility.C:802-889 | any number of files: boxes are kept apart if and only if there is no clash, reckoned from the indices of the input files alone |
| BoxLevels.SplitIsMonotone | tools/restart/RedistributedRestartUtility.C:900-920 | a larger local index never goes to an earlier output, equal ones go to the same |
| BoxLevels.RoutedAll | tools/restart/RedistributedRestartUtility.C:911-940 | every box of a file goes to exactly one output |
| BoxLevels.OutputInOrder | tools/restart/RedistributedRestartUtility.C:922-942 | an output holds just the boxes that go there, each once, in the order of the files and of the boxes in them |
| BoxLevels.BoxesAreConserved | tools/restart/RedistributedRestartUtility.C:805-942 | block, periodic id and extents occur in the outputs of a merge or split as often as in its inputs |
| BoxLevels.ListIndices | tools/restart/RedistributedRestartUtility.C:840-853 | the list of different indices, in order of latest first occurrence |
| BoxLevels.UseIndices | tools/restart/RedistributedRestartUtility.C:854-860 | nothing used yet: entering all indices changes none of them |
| BoxLevels.BoundsAreAttained | tools/restart/RedistributedRestartUtility.C:891-898 | in a file with boxes whose indices are not negative, least and largest index are indices of the file |
| BoxLevels.SplitByShares | tools/restart/RedistributedRestartUtility.C:891-920 | a box goes to the output in whose share of the range from the least to the largest index its index is, and in no other share; the least index goes to the first output, the largest one to the last; without shares all but the least go to the last |
| BoxLevels.RenumberBoxes | tools/restart/RedistributedRestartUtility.C:839-889 | the loop computes the renumbering about which injectivity is proved |
| BoxLevels.IndexBounds | tools/restart/RedistributedRestartUtility.C:891-898 | the loop computes the least and largest index |
| BoxLevels.ComputeOutputIds | tools/restart/RedistributedRestartUtility.C:900-920 | the loop computes the output of every box by its cutoffs |
| BoxLevels.AppendRouted | tools/restart/RedistributedRestartUtility.C:929-939 | the five parallel arrays stay aligned and grow by exactly the boxes of this output, with the number of the output as rank |
| BoxLevels.RedistributeBoxes | tools/restart/RedistributedRestartUtility.C:809-942 | one input file more has been merged or routed |
| BoxLevels.ReadAndWriteBoxLevel | tools/restart/RedistributedRestartUtility.C:742-975 | every output file holds exactly the boxes routed to it, and its own number as rank |
| PatchLevels.FirstPositionsAreFirst | tools/restart/RedistributedRestartUtility.C:558-571 | these are exactly the positions where an index occurs first, in reverse order |
| PatchLevels.FirstOccurrences | tools/restart/RedistributedRestartUtility.C:558-571 | the lists of patch numbers and blocks belong to the positions where an index occurs first |
| PatchLevels.RenumberPatches | tools/restart/RedistributedRestartUtility.C:573-609 | the separately written loop renumbers as the box loop does, and reports when nothing has changed |
| PatchLevels.PatchNumbers | tools/restart/RedistributedRestartUtility.C:529-634 | old and new lists of numbers and blocks, recomputed only when needed, are those of the old and new indices |
| PatchLevels.ListsMatchIff | tools/restart/RedistributedRestartUtility.C:660-664 | the old and new lists are equally long if and only if renumbering kept the boxes apart; otherwise the new one ends first |
| PatchLevels.KeptApartIff | tools/restart/RedistributedRestartUtility.C:529-664 | in a merge or a split the lists of all files match if and only if there is no clash among the input files |
| PatchLevels.ListsBelongTogether | tools/restart/RedistributedRestartUtility.C:657-694 | then the walk pairs each patch with its new number, block, output and owner |
| PatchLevels.CopyPatch | tools/restart/RedistributedRestartUtility.C:665-688 | a patch is copied to the output of its new number, only its owner changes |
| PatchLevels.CopyPatches | tools/restart/RedistributedRestartUtility.C:655-694 | the walk makes exactly the planned copies, and fails exactly if the list of new numbers ends first |
| PatchLevels.StoreKeepsAll | tools/restart/RedistributedRestartUtility.C:684-688 | no copy overwrites another one if their numbers differ |
| PatchLevels.StoreInventsNothing | tools/restart/RedistributedRestartUtility.C:684-688 | every patch in an output is a copy made there |
| PatchLevels.NewIndicesAreSeparate | tools/restart/RedistributedRestartUtility.C:529-655 | if the boxes of each file are kept apart, the new indices are separate over all files, and boxes with the same index go to the same output |
| PatchLevels.PatchesFollowBoxes | tools/restart/RedistributedRestartUtility.C:447-702 | the patch of every box, stored under the block of the first box with its index, is in the output of the box under the box's new index, unchanged but for its owner; in every output box indices and patch numbers are the same and ranks and owners are its number |
| PatchLevels.ReadAndWritePatchLevel | tools/restart/RedistributedRestartUtility.C:447-702 | the loops write exactly those patches and boxes, or run past the end of a list, exactly if there is a clash |
| Redistribution.JobInFigures | tools/restart/main.C:256-294 | on the smaller side job number g has file g, on the other one the g-th group, the first of which have one file more |
| Redistribution.JobSizes | tools/restart/main.C:256-294 | every job reads and writes at least one file and not both several; jobs cover all files of both sides |
| Redistribution.OwnFileId | tools/restart/RedistributedRestartUtility.C:89-96 | the branches of the closed form give the position of the file |
| Redistribution.OutputFileIds | tools/restart/RedistributedRestartUtility.C:83-97 | the output file numbers of an iteration are those of its job, in both directions |
| Redistribution.InputFileIds | tools/restart/RedistributedRestartUtility.C:127-143 | the input file numbers of an iteration are those of its job, in both directions |
| Redistribution.WriteJob | tools/restart/RedistributedRestartUtility.C:58-196 | one iteration writes the files of its job and leaves the others alone, or fails exactly if there is a clash among its input files |
| Redistribution.WriteRedistributedRestartFiles | tools/restart/RedistributedRestartUtility.C:30-197 | a process writes exactly the files of its jobs, each under the number that is written into it as rank and owner, or fails exactly if one of its jobs does |
| Redistribution.Redistribute | tools/restart/main.C:237-303 | the whole tool as one process runs it, and exactly when it ends with an error or runs past the end of a list |
| Redistribution.AllFinishIff | tools/restart/main.C:237-303 | all processes finish if and only if there is no clash among the input files of any job, which can be told beforehand |
| Redistribution.EveryFileIsWrittenOnce | tools/restart/main.C:237-303 | whatever each process has written on its own, every output file is written by exactly one of them, and no other file is |
| Redistribution.RunConservesBoxes | tools/restart/RedistributedRestartUtility.C:30-197 | over all processes, iterations and files nothing a box carries is lost or duplicated |
| Redistribution.RunConservesPatches | tools/restart/RedistributedRestartUtility.C:30-197 | over all processes, iterations and files every patch is found at exactly one place of the output, unchanged but for its owner, which is the file number; no two are at the same place, and there are no others |
| Redistribution.RunNamesFiles | tools/restart/RedistributedRestartUtility.C:41-97 | whenever the run finishes, in every output file its own number is the rank of the box level and of all boxes and the owner of all patches, and boxes and patches correspond |
| Redistribution.MergeableFilesAreClear | tools/restart/RedistributedRestartUtility.C:839-889 | the run finishes if in each file that is merged with others before it the largest index comes last |
| Redistribution.SplitFilesAreClear | tools/restart/RedistributedRestartUtility.C:573-655 | the run finishes for any files if there are at least as many outputs as inputs |

## Left out

- AdvanceHierarchy: requires a positive increment if there is more than one level, see above; and a lowered flux flag for a rebalance, which a caller has before the first advance and after one that began with more than one level.
- FindNextDtAndStepsRemaining: requires a positive bound and a positive maximum increment, because the source divides by the latter, and with steps left on a level that cannot be refined a positive remaining time, without which it divides zero by zero.
- FreshSequenceStepsIff: assumes a positive maximum increment; a level created in an advance by zero gets a maximum increment of zero, by which the source divides.
- RegridAllFinerLevels: the gridding algorithm is not part of this model; a regrid is any replacement of the finer levels, and for the cell data any one that leaves them nested and averaged.
- MakeCoarsestLevel: a rebalanced level zero is taken to hold the data of the old one; its box layout is not changed in the cell data.
- UncorrectedConservesIff: speaks of one synchronization of any two levels; how gains without flux correction add up over a run is not stated.
- ReadAndWritePatchLevel: where the source's list iterator runs past the end, the model stops with a failure.
- PatchesFollowBoxes: requires every index of a file to have its patch database under the block of the first box with this index, as restart files have.
- Floating-point rounding and integer overflow: times, increments and fluxes are real numbers, the square root of the machine epsilon is a constant between zero and one, and indices are unbounded.
- Richardson extrapolation and other time integration in error estimation (`usesTimeIntegration` is false), three time data levels, tag buffers, and the old-old times that only they need.
- Synchronized (not refined) timestepping, restart of the integrator itself, input databases; the end time is a parameter of `AdvanceHierarchy`, the regrid intervals are one of the constructor.
- The per-level vectors of the integrator are one sequence of records, and its level data is kept as storage flags and times per level.
- The scalar form of `standardLevelSynchronization`, which is meaningful for a coarsest level of zero only.
- Two and three dimensions of the flux kernels, face and side variants, ghost cells and boundary filling.
- HDF5 files and keys: an input or output file holds one level, a database is a map or a sequence, keys other than those of patch levels and box levels are copied by code that is not modelled; the unused `d_boxes` entry is ignored.
- MPI itself, barriers, reductions, timers, statistics, logging and printing.
- Linear searches through lists are written as membership tests.
