# XCSF core in Dafny

A verified model of the sequential core of XCSF. XCSF is a learning classifier system for function approximation, written in Java. Its population is a bounded array of classifiers. Each classifier pairs a condition (a region of the input space) with a prediction (a local linear or quadratic model fitted by recursive least squares). Each classifier also keeps statistics: numerosity, experience, prediction error, fitness, set-size estimate and timestamp.

On every sample, XCSF does the following:

- It builds a match set, either serially, by disjoint index strides, or from the closest classifiers.
- It covers the sample when too few classifiers match.
- It updates the match set in two passes.
- It runs a genetic algorithm on the match set once enough time has passed since the numerosity-weighted mean timestamp. The algorithm selects parents by roulette wheel or by tournament, crosses and mutates the offspring, and inserts them by subsumption, by merging into an identical classifier, or as new classifiers. It first makes room by roulette-wheel deletion.
- Periodically, it compacts the population greedily.

The model is organised by the Java classes:

- classifierset.dfy (`ClassifierSets`): `ClassifierSet`: the fixed-capacity array with a `size`, single and batch removal, first-match lookup, the removing iterator
- population.dfy (`Populations`): `Population`: roulette-wheel deletion with its binary search, greedy compaction, the compaction comparator
- matchset.dfy (`MatchSets`): `MatchSet`: the strategy state machine of `match`, serial, stride and closest-classifier matching, covering with eviction, the two-pass update
- evolutionarycomp.dfy (`EvolutionaryComps`): `EvolutionaryComp`: the GA trigger, selection, condensation, insertion with subsumption
- classifier.dfy (`Classifiers`): `Classifier`: construction, reproduction, crossover, Widrow-Hoff updates, deletion vote, accuracy, subsumption
- condition_*.dfy, variation.dfy, rotation.dfy, geometry.dfy (`Rectangle`, `Ellipsoid`, `RotatingEllipsoid`, `RotatingRectangle`, `Variation`, `Rotation`, `Geometry`): the four condition kinds, their match caches, generality tests, crossover and mutation
- prediction_*.dfy (`PredConstant`, `LinearRLS`, `QuadraticRLS`, `RLS`): the constant and the RLS predictors
- xcsfutils.dfy, random.dfy, matrix.dfy, fileio.dfy (`XCSFUtils`, `RandomGen`, `Matrix`, `FileIO`): `flip`, `arrayEquals`, the numerosity quickselect, the Park-Miller generator, matrix products, the bracketed array parser
- statedescriptor.dfy, constants.dfy, wrappers.dfy (`States`, `XCSFConstants`, `Wrappers`): the sample record, the parameters, `Option` and `Result`

Modelling choices:

- Objects that the Java code updates in place are classes with `modifies` and `reads` frames. These are the classifier set, classifiers, conditions, predictions, the match set and the random generator.
- Classifiers are shared by reference between the population and the match set, as in Java.
- Doubles are `real`.
- The static random seed is the `seed` field of a `Random` object that every drawing method receives.
- Wall-clock times are inputs.

## Model

| member | source | states |
|---|---|---|
| ClassifierSets.ClassifierSet.constructor | src/main/java/xcsf/ClassifierSet.java:25-28 | a new set is empty, over a fresh array of the given capacity |
| ClassifierSets.ClassifierSet.Get | src/main/java/xcsf/ClassifierSet.java:47-50 | an index inside the size yields the classifier in that slot; an index at or above the size (the range check) or below 0 (the array access) yields IndexOutOfBounds |
| ClassifierSets.ClassifierSet.Size | src/main/java/xcsf/ClassifierSet.java:57-59 | the size is the number of classifiers the set holds |
| ClassifierSets.ClassifierSet.Add | src/main/java/xcsf/ClassifierSet.java:103-113 | the classifier is appended behind the others, which keep their slots |
| ClassifierSets.ClassifierSet.Clear | src/main/java/xcsf/ClassifierSet.java:97-101 | afterwards the set holds no classifier |
| ClassifierSets.ClassifierSet.Remove | src/main/java/xcsf/ClassifierSet.java:124-133 | succeeds exactly on an index inside the size; then the set is the old one with that slot cut out and the rest in order; on any other index IndexOutOfBounds is reported and the set is unchanged |
| ClassifierSets.WithoutSingle | src/main/java/xcsf/ClassifierSet.java:124-133 | cutting out one position is the slice-and-join that `remove(index)` performs, so the batch removal and the single removal agree |
| ClassifierSets.RemoveMinusOneOnEmpty | src/main/java/xcsf/ClassifierSet.java:124-133 | as written, `remove(-1)` on an empty set passes the range check and leaves the size at -1 |
| ClassifierSets.RemoveAsWrittenCases | src/main/java/xcsf/ClassifierSet.java:124-133 | as written, `remove` goes through on exactly the valid indices plus `remove(-1)` on an empty set |
| ClassifierSets.ClassifierSet.RemoveAll | src/main/java/xcsf/ClassifierSet.java:144-161 | the index array ends up sorted ascending; the call succeeds exactly when the array is non-empty and every index is below the size; then exactly the named positions are gone, the survivors keep their order and the size falls by the number of indices; otherwise IndexOutOfBounds and the set is unchanged |
| ClassifierSets.SortInPlace | src/main/java/xcsf/ClassifierSet.java:145 | `Arrays.sort(indices)`: the array becomes the ascending permutation of its old contents |
| ClassifierSets.SortIntsAscending | src/main/java/xcsf/ClassifierSet.java:145 | the sorted order is ascending (and `SortInts` is a permutation by its own ensures) |
| ClassifierSets.SortedIndices | src/main/java/xcsf/ClassifierSet.java:145-146 | distinct indices come out of the sort strictly ascending and naming the same positions, so checking the last one checks them all |
| ClassifierSets.SortAndCheck | src/main/java/xcsf/ClassifierSet.java:145-146 | the index array becomes its ascending sort; the check passes exactly when the array is non-empty and every index lies below the size, and then the sorted indices are strictly ascending and each inside the set |
| ClassifierSets.RangeCheckLargest | src/main/java/xcsf/ClassifierSet.java:170-174 | the range check of the largest sorted index fails on an empty array or an index at or above the size, and passes exactly when every index is below the size |
| ClassifierSets.LargestDecides | src/main/java/xcsf/ClassifierSet.java:146 | for strictly ascending indices, the largest being below the size is equivalent to all of them being below it |
| ClassifierSets.IndicesInRange | src/main/java/xcsf/ClassifierSet.java:146 | when the largest of strictly ascending non-negative indices is below the size, every index lies in [0, size) |
| ClassifierSets.ClassifierSet.ShiftOut | src/main/java/xcsf/ClassifierSet.java:148-160 | the copy loop over sorted in-range indices leaves exactly the unnamed classifiers, in order, and lowers the size by the number of indices |
| ClassifierSets.ShiftBlocks | src/main/java/xcsf/ClassifierSet.java:148-154 | after the loop over all but the last sorted index, the slots below the last index minus the indices before it hold exactly the survivors below the last index, in order, and everything from the last index on is untouched |
| ClassifierSets.ShiftBlock | src/main/java/xcsf/ClassifierSet.java:149-155 | one block copy moves the classifiers between two removed slots forward by one more than the slots removed so far, extending the compacted prefix |
| ClassifierSets.FirstBlock | src/main/java/xcsf/ClassifierSet.java:148-155 | nothing below the smallest index moves |
| ClassifierSets.ShiftLeft | src/main/java/xcsf/ClassifierSet.java:130 | `System.arraycopy` towards the front: the block lands in place and everything behind it stays |
| ClassifierSets.WithoutBlock | src/main/java/xcsf/ClassifierSet.java:149-155 | between two removed positions the block moves over unchanged |
| ClassifierSets.WithoutFrom | src/main/java/xcsf/ClassifierSet.java:144-161 | every survivor of a batch removal comes from a position that was not named |
| ClassifierSets.WithoutKeeps | src/main/java/xcsf/ClassifierSet.java:144-161 | every classifier at a position that was not named survives |
| ClassifierSets.WithoutDistinct | src/main/java/xcsf/ClassifierSet.java:144-161 | removal from distinct classifiers leaves distinct classifiers |
| ClassifierSets.Gaps | src/main/java/xcsf/ClassifierSet.java:148-155 | no named position lies strictly between two neighbouring sorted indices, which is why each block copy moves only survivors |
| ClassifierSets.SumWithoutZeros | src/main/java/xcsf/ClassifierSet.java:144-161 | removing only zero-numerosity classifiers keeps the total numerosity |
| ClassifierSets.ClassifierSet.FindIdenticalCondition | src/main/java/xcsf/ClassifierSet.java:70-77 | the result is the first classifier whose condition equals the given one in center and stretch; `None` only when no classifier of the set has such a condition |
| ClassifierSets.ClassifierSet.Iterator | src/main/java/xcsf/ClassifierSet.java:36-38 | a fresh iterator over this set, before the first element, with removal blocked |
| ClassifierSets.Itr.constructor | src/main/java/xcsf/ClassifierSet.java:183-187 | the cursor starts at 0 and removal is blocked until the first `next` |
| ClassifierSets.Itr.HasNext | src/main/java/xcsf/ClassifierSet.java:194-196 | true exactly while the cursor is below the size of the set |
| ClassifierSets.Itr.Next | src/main/java/xcsf/ClassifierSet.java:203-206 | returns the classifier under the cursor, moves the cursor one on and allows one removal |
| ClassifierSets.Itr.Remove | src/main/java/xcsf/ClassifierSet.java:213-220 | before a `next`, or right after another removal, nothing changes; otherwise the classifier `next` returned last leaves the set, the cursor steps back, and the classifiers still to be visited are the same |
| ClassifierSets.SortInts | src/main/java/xcsf/ClassifierSet.java:145 | the sorted index array is a permutation of the old one |
| ClassifierSets.Without | src/main/java/xcsf/ClassifierSet.java:144-161 | removing positions never lengthens the set |
| Populations.DeleteWorstClassifiers | src/main/java/xcsf/Population.java:73-133 | never deletes more than `number` micro-classifiers; when not `exhausted` it deleted exactly `number`, otherwise fewer; the total numerosity falls by exactly the count deleted; no numerosity grows and no other statistic of a classifier changes; exactly the classifiers whose numerosity reached 0 leave the set, the others keep their order; every survivor holds at least one micro-classifier |
| Populations.Cull | src/main/java/xcsf/Population.java:90-132 | the draw loop followed by the batch removal, with the same promises as `DeleteWorstClassifiers` stated against the population before the first draw |
| Populations.DeletionWheel | src/main/java/xcsf/Population.java:74-88 | the returned mean fitness is the fitness sum over the numerosity sum, and the wheel holds the running sums of the deletion votes under it |
| Populations.MeanFitnessOf | src/main/java/xcsf/Population.java:75-82 | for a non-empty set of live classifiers the division is by a positive numerosity sum and yields the mean fitness |
| Populations.Totals | src/main/java/xcsf/Population.java:75-81 | the loop yields the fitness sum and the numerosity sum of the whole set |
| Populations.BuildWheel | src/main/java/xcsf/Population.java:83-88 | entry k of the wheel is the sum of the first k + 1 deletion votes |
| Populations.WheelAscends | src/main/java/xcsf/Population.java:83-88 | with non-negative votes the wheel ascends, with positive votes strictly — what `binaryRWSearch` expects of it |
| Populations.BinaryRWSearch | src/main/java/xcsf/Population.java:167-198 | on an empty wheel 0, otherwise a slot of the wheel; every entry before it is at most the choice point; unless the search ran into the last slot with the choice point at or above the last entry, the slot's entry is above the choice point or the entry before it equals the choice point (the exact-hit return) |
| Populations.SearchOnAscendingWheel | src/main/java/xcsf/Population.java:167-198 | on an ascending wheel with the choice point below its last entry the found slot is the documented one: all earlier entries at most the choice point, the chosen one at least it, strictly above it on a strictly ascending wheel |
| Populations.Draw | src/main/java/xcsf/Population.java:98-100 | one spin of the wheel always lands on one of its slots |
| Populations.Includes | src/main/java/xcsf/Population.java:102-108 | the scan reports a hit exactly when the drawn slot is among the first `deleted` recorded entries |
| Populations.DeletionDraws | src/main/java/xcsf/Population.java:91-121 | at most `fuel` draws; fewer than `number` accepted draws only when all `fuel` draws were used; each accepted draw lowered one live classifier by one, and the recorded slots are exactly those that reached 0, each once |
| Populations.DrawStep | src/main/java/xcsf/Population.java:98-120 | one turn of the loop accepts at most one draw, and only of a slot not yet recorded; the record and the totals stay consistent |
| Populations.Decrement | src/main/java/xcsf/Population.java:111-119 | the drawn classifier loses one micro-classifier, its other statistics stay, and its slot is recorded exactly when it reaches 0 |
| Populations.TallyStep | src/main/java/xcsf/Population.java:111-119 | an accepted draw of an unrecorded slot lowers the total by one and records the slot precisely when it reaches 0 |
| Populations.RemoveRecorded | src/main/java/xcsf/Population.java:122-132 | the batch removal leaves exactly the classifiers with numerosity left, in order, with the total lowered by the accepted draws |
| Populations.CollectRecorded | src/main/java/xcsf/Population.java:124-130 | the index array holds the recorded slots in recording order, with the `-1` placeholders skipped |
| Populations.RecordedSlots | src/main/java/xcsf/Population.java:111-130 | the recorded slots are distinct positions of the set and exactly those whose numerosity reached 0 |
| Populations.DeletionOutcome | src/main/java/xcsf/Population.java:90-132 | after the draws, removing the recorded slots keeps the lowered total, leaves only live classifiers and no numerosity has grown |
| Populations.ZeroRemoval | src/main/java/xcsf/Population.java:122-132 | removing the zero-numerosity slots keeps the total numerosity and leaves only classifiers holding at least one micro-classifier |
| Populations.NumerositySum | src/main/java/xcsf/EvolutionaryComp.java:165-168 | the numerosity loop yields the total numerosity of the set |
| Populations.LivingSum | src/main/java/xcsf/Population.java:73-133 | a population of live classifiers holds at least one micro-classifier per classifier |
| Populations.DoubleCompare | src/main/java/xcsf/Population.java:39-57 | `Double.compare` without NaN: negative, zero or positive as the first value is below, equal to or above the second |
| Populations.CompareByKey | src/main/java/xcsf/Population.java:39-57 | the comparator's four branches order classifiers by one key (prediction error once experienced, after every experienced one otherwise), so it is antisymmetric and transitive as a `Comparator` must be |
| Populations.SortForCompaction | src/main/java/xcsf/Population.java:146 | sorting by the compaction comparator permutes the set and leaves every earlier classifier ranked no later than every later one |
| Populations.InsertByKey | src/main/java/xcsf/Population.java:146 | one step of the sort keeps the sequence sorted by key and adds exactly the one classifier |
| Populations.ApplyGreedyCompaction | src/main/java/xcsf/Population.java:141-165 | below two classifiers nothing changes; otherwise the survivors come from the old set, are sorted by rank, the total numerosity is kept, and no survivor's condition matches the center of an earlier survivor |
| Populations.CompactSorted | src/main/java/xcsf/Population.java:150-164 | the sweep over the sorted set keeps the total and leaves no survivor matching the center of an earlier one |
| Populations.Sweep | src/main/java/xcsf/Population.java:150-164 | the outer loop finishes every row with the sweep invariant kept |
| Populations.SweepRow | src/main/java/xcsf/Population.java:153-163 | after row i no later survivor matches the center of classifier i |
| Populations.Absorb | src/main/java/xcsf/Population.java:159-160 | the later classifier's numerosity moves to the earlier one and its slot is removed: the total numerosity is unchanged |
| Populations.Probe | src/main/java/xcsf/Population.java:157 | the match test of the later condition on the earlier center, with the set and every recorded box unchanged |
| Populations.SweepEnd | src/main/java/xcsf/Population.java:141-165 | a finished sweep means no survivor matches the center of an earlier survivor, in rank order |
| Populations.Votes | src/main/java/xcsf/Population.java:83-87 | one deletion vote per classifier, each `getDeletionVote` under the mean fitness |
| Populations.RecordStep | src/main/java/xcsf/Population.java:111-119 | recording a slot that reached 0 keeps the record exact: distinct slots, each of numerosity 0, and every slot at 0 recorded |
| Populations.RemoveKept | src/main/java/xcsf/Population.java:122-132 | the batch removal takes out exactly the recorded slots, the others keep their order |
| Populations.SortedByKey | src/main/java/xcsf/Population.java:146 | the sort yields a permutation of the set ordered by the compaction key |
| Populations.WriteBack | src/main/java/xcsf/Population.java:146 | the sorted order becomes the contents of the set |
| Populations.SweepStep | src/main/java/xcsf/Population.java:153-163 | one turn of the inner loop absorbs the classifier at `j` or moves past it: the row stays swept up to the new `j`, the total numerosity is kept and the loop makes progress |
| Populations.AbsorbAt | src/main/java/xcsf/Population.java:157-161 | absorbing the classifier at `j` into classifier `i` removes one slot, keeps the total numerosity and the part of the sweep already done |
| EvolutionaryComps.EvolutionaryComp.constructor | src/main/java/xcsf/EvolutionaryComp.java:29-31 | condensation starts off |
| EvolutionaryComps.EvolutionaryComp.SetCondensation | src/main/java/xcsf/EvolutionaryComp.java:109-111 | the flag takes the given value |
| EvolutionaryComps.EvolutionaryComp.Evolve | src/main/java/xcsf/EvolutionaryComp.java:45-98 | the algorithm runs exactly when `theta_GA` iterations have passed since the numerosity-weighted mean timestamp of the match set; if not, nothing changes; if so, the match set carries the iteration as timestamp, at most two offspring (exactly two when the selection is sure to complete) are fresh classifiers, every classifier of the population is an old one or an offspring, the population stays separate, valid and populated, and, with the corrected insertion, the total numerosity is exactly the old total minus the deleted micro-classifiers plus the offspring, less those dropped for lack of room; when deletion did its whole share nothing is dropped and the total is within the maximal population size |
| EvolutionaryComps.Derived | src/main/java/xcsf/EvolutionaryComp.java:48-56 | the first loop yields the timestamp sum weighted by numerosity, the fitness sum and the numerosity sum of the match set |
| EvolutionaryComps.MeanBetween | src/main/java/xcsf/EvolutionaryComp.java:57-62 | the weighted mean timestamp lies between the smallest and the largest timestamp of the set |
| EvolutionaryComps.StampedSet | src/main/java/xcsf/EvolutionaryComp.java:57-66 | right after the match set is stamped with the iteration the algorithm does not run on it again in that iteration (for a positive `theta_GA`), and it runs again `theta_GA` iterations later at the latest |
| EvolutionaryComps.Stamp | src/main/java/xcsf/EvolutionaryComp.java:64-66 | every classifier of the match set gets the iteration as timestamp; no numerosity, fitness, experience, set size estimate or error changes |
| EvolutionaryComps.Generation | src/main/java/xcsf/EvolutionaryComp.java:63-97 | a triggered run: the match set is stamped, at most two fresh offspring (two when the selection is sure to complete) go through the corrected insertion, and the total is the old total minus the deleted plus the offspring, less those dropped for lack of room; within the maximal size when deletion did its share |
| EvolutionaryComps.Prepare | src/main/java/xcsf/EvolutionaryComp.java:63-94 | before the insertion the population and its numerosities are as they were, the parents come from it, and the offspring (as many as parents, at most two) are fresh single micro-classifiers sharing no object with it |
| EvolutionaryComps.Breed | src/main/java/xcsf/EvolutionaryComp.java:68-94 | the parents come from the match set (two when the selection is sure to complete); the offspring are separate copies of one micro-classifier each, of the parents' shape; under condensation they are the unaltered copies |
| EvolutionaryComps.Offspring | src/main/java/xcsf/EvolutionaryComp.java:68-94 | the offspring are new classifiers of the right shape that share no object with any classifier already present |
| EvolutionaryComps.Descend | src/main/java/xcsf/EvolutionaryComp.java:70-94 | one offspring per parent, in order, each a single micro-classifier of the parent's shape; under condensation each is the exact reproduced copy |
| EvolutionaryComps.Reproduction | src/main/java/xcsf/EvolutionaryComp.java:70-76 | offspring k is a fresh copy of parent k with experience 0, numerosity 1, fitness divided by the parent's numerosity and scaled by the fitness reduction, error scaled by the error reduction, the same rectangle and coefficients |
| EvolutionaryComps.Vary | src/main/java/xcsf/EvolutionaryComp.java:78-94 | pairs are taken from the end; each pair's fitnesses and errors become their means, and an unpaired first offspring keeps its values; numerosities and experiences stay and every offspring keeps its shape |
| EvolutionaryComps.CrossPairs | src/main/java/xcsf/EvolutionaryComp.java:80-89 | the pair loop stops at index 0 (an odd count) or -1 (an even count), with every pair above it crossed and mutated |
| EvolutionaryComps.VaryPair | src/main/java/xcsf/EvolutionaryComp.java:83-88 | one turn of the loop crosses the pair at `index` and `index - 1` and mutates both, extending the averaged part by two slots |
| EvolutionaryComps.VaryLast | src/main/java/xcsf/EvolutionaryComp.java:90-93 | the first offspring of an odd count is only mutated |
| EvolutionaryComps.CrossAndMutate | src/main/java/xcsf/EvolutionaryComp.java:86-88 | after crossover and mutation both classifiers hold the mean fitness and mean error of the pair and keep numerosity, experience and shape |
| EvolutionaryComps.MatesPair | src/main/java/xcsf/EvolutionaryComp.java:80-93 | taking pairs from the end pairs every slot with a neighbour, mutually, except the first slot of an odd count |
| EvolutionaryComps.AveragedSum | src/main/java/xcsf/EvolutionaryComp.java:78-94 | crossover keeps the total fitness and the total error of the offspring |
| EvolutionaryComps.RouletteIndex | src/main/java/xcsf/EvolutionaryComp.java:287-294 | the loop stops at the first slot whose running fitness sum reaches the choice point |
| EvolutionaryComps.RouletteChoiceFacts | src/main/java/xcsf/EvolutionaryComp.java:284-296 | the wheel picks exactly one slot, and a slot after the first (or the first, for a positive choice point) only when its fitness is positive |
| EvolutionaryComps.SelectClassifierRW | src/main/java/xcsf/EvolutionaryComp.java:284-296 | the result is the classifier of the match set at the first slot whose running fitness sum reaches the draw times the fitness sum |
| EvolutionaryComps.TournamentPass | src/main/java/xcsf/EvolutionaryComp.java:309-322 | after one pass the winner is an entrant with the highest micro-fitness among all entrants so far; a winner is never lost, and with `selectionType >= 1` a non-empty match set always yields one |
| EvolutionaryComps.SelectClassifierTS | src/main/java/xcsf/EvolutionaryComp.java:305-325 | a returned classifier is a member of the match set with the highest micro-fitness among the entrants; with `selectionType >= 1`, one pass and a non-empty match set a classifier is always returned |
| EvolutionaryComps.SelectOne | src/main/java/xcsf/EvolutionaryComp.java:127-139 | one draw by the wheel when `selectionType` is 0, otherwise by tournament; it returns a classifier whenever the selection is sure to complete |
| EvolutionaryComps.Selection | src/main/java/xcsf/EvolutionaryComp.java:124-141 | every parent is chosen by the wheel (`selectionType` 0) or is the best of its tournament; there are exactly two whenever the selection is sure to complete |
| EvolutionaryComps.Insertion | src/main/java/xcsf/EvolutionaryComp.java:160-191 | `insertion` as written: deletion first, then each offspring placed; the population stays separate, valid and populated and holds only old classifiers and offspring; its total is exactly the old total minus the deleted, plus the offspring, minus those dropped for lack of room and the `strays` credited to a parent or match-set member that deletion had removed; with room for all offspring and parents and match set inside the population nothing strays; when deletion did its share nothing is dropped and the total stays within the maximal size |
| EvolutionaryComps.GuardedInsertion | src/main/java/xcsf/EvolutionaryComp.java:160-191 | the corrected `insertion`: the same deletion and placement, but an offspring is credited only to a classifier still in the population; the population stays separate, valid and populated, and its total is exactly the old total minus the deleted plus the offspring, less only those dropped for lack of room; when deletion did its share nothing is dropped and the total stays within the maximal size |
| EvolutionaryComps.StrayIsLost | src/main/java/xcsf/EvolutionaryComp.java:212-228 | as written: when the classifier credited for an offspring (a subsuming parent or match-set member) is not in the population, the population's numerosity total is what it was before the credit, so that micro-classifier is lost |
| EvolutionaryComps.Prune | src/main/java/xcsf/EvolutionaryComp.java:163-172 | `toDelete` is the old total plus the offspring count minus the maximal size; with nothing to delete the population is unchanged, otherwise at most `toDelete` micro-classifiers go, the survivors come from the old population and are all live |
| EvolutionaryComps.Trim | src/main/java/xcsf/EvolutionaryComp.java:168-172 | the deletion call only when `toDelete` is positive: the total falls by the count deleted and the offspring are untouched |
| EvolutionaryComps.PlaceAll | src/main/java/xcsf/EvolutionaryComp.java:174-190 | after the loop the total is the starting total plus the offspring, minus the dropped and the strays; nothing is dropped when the offspring fit, nothing strays when parents and match set lie inside the population, and nothing ever strays in the guarded (corrected) form |
| EvolutionaryComps.InsertOne | src/main/java/xcsf/EvolutionaryComp.java:177-189 | one placement adds exactly one micro-classifier to the population total unless the offspring is lost (no room) or strays (its credit went to a classifier outside the population, and the total is then unchanged); a guarded placement never strays; no classifier leaves the population |
| EvolutionaryComps.PlaceOne | src/main/java/xcsf/EvolutionaryComp.java:177-189 | the placed offspring either joins the population, or its micro-classifier goes to one parent, match-set member or population member (which gains exactly one); later offspring are untouched |
| EvolutionaryComps.Place | src/main/java/xcsf/EvolutionaryComp.java:175-190 | a matching offspring with subsumption on goes through `subsumeClassifier`, any other through `insertClassifier`; without subsumption the receiver is the first identical classifier of the match set (matching) or of the population; a classifier other than the offspring is credited only if it is a parent, a match-set member or in the population, and in the guarded form only if it is in the population |
| EvolutionaryComps.MatchOffspring | src/main/java/xcsf/EvolutionaryComp.java:179 | the result is whether the offspring's rectangle holds the state; only its own cache changes |
| EvolutionaryComps.SubsumeClassifier | src/main/java/xcsf/EvolutionaryComp.java:208-233 | the first parent that subsumes the offspring gains a micro-classifier (and no draw is taken); failing that one subsumer of the match set, drawn uniformly; failing that the offspring is inserted as a matching classifier; in the guarded form a subsumer no longer in the population is passed over and the offspring is inserted instead |
| EvolutionaryComps.FindSubsumer | src/main/java/xcsf/EvolutionaryComp.java:212-217 | the first parent that can subsume and is more general than the offspring, `None` exactly when there is none |
| EvolutionaryComps.CollectSubsumers | src/main/java/xcsf/EvolutionaryComp.java:219-225 | the choices are exactly the match-set members that subsume the offspring, in slot order |
| EvolutionaryComps.FilterExactly | src/main/java/xcsf/EvolutionaryComp.java:219-225 | the collected list holds exactly the flagged classifiers |
| EvolutionaryComps.Slot | src/main/java/xcsf/EvolutionaryComp.java:227 | `(int) (u · n)` for a draw in (0, 1) is a valid index below n |
| EvolutionaryComps.Draw | src/main/java/xcsf/EvolutionaryComp.java:227-228 | the drawn choice is the entry at the slot the draw picks |
| EvolutionaryComps.InsertClassifier | src/main/java/xcsf/EvolutionaryComp.java:251-272 | the receiver is the first classifier with an identical condition in the match set (when matching) or the population (otherwise), and it gains one micro-classifier; without one the offspring is appended exactly when a slot is free; in the guarded form an identical classifier outside the population is not credited and the offspring is appended instead; nothing else changes |
| EvolutionaryComps.Lookup | src/main/java/xcsf/EvolutionaryComp.java:253-269 | the search runs on the match set when the offspring matches and on the population otherwise, and finds the first identical condition |
| EvolutionaryComps.AppendIfFree | src/main/java/xcsf/EvolutionaryComp.java:271 | the classifier is appended exactly when the population has a free slot |
| EvolutionaryComps.FindTarget | src/main/java/xcsf/EvolutionaryComp.java:211-229 | the classifier to gain a micro-classifier: the first subsuming parent without a draw; failing that, the subsumer of the match set at the slot of one draw; `None` without a draw when none subsumes |
| EvolutionaryComps.Settle | src/main/java/xcsf/EvolutionaryComp.java:257-271 | an identical classifier found is credited and the population is unchanged (in the guarded form only when it is in the population); otherwise the offspring is appended exactly when a slot is free |
| EvolutionaryComps.Credit | src/main/java/xcsf/EvolutionaryComp.java:258 | `addNumerosity(1)` raises the numerosity of the classifier found and of no other |
| EvolutionaryComps.Placed | src/main/java/xcsf/EvolutionaryComp.java:177-189 | after one placement the population is separate and populated, and its total rose by one for a credited member of it and one for an inserted offspring |
| EvolutionaryComps.Attributed | src/main/java/xcsf/EvolutionaryComp.java:177-189 | the classifier credited for offspring `i` is an old classifier or an earlier offspring, never a later one |
| EvolutionaryComps.Fresh | src/main/java/xcsf/EvolutionaryComp.java:70-76 | offspring `i` shares no object with the old classifiers or the other offspring |
| MatchSets.MatchSet.constructor | src/main/java/xcsf/MatchSet.java:78-99 | an empty set with capacity `maxPopSize`; with multi-threading asked for and more than one processor there are workers, a stride of one per processor, an adaptation accuracy of `max(1, maxPopSize / 25)`, and the threshold adapts from that accuracy (negative configured threshold) or is fixed to the configured one; otherwise the threshold is `Integer.MAX_VALUE` and adaptation is off |
| MatchSets.MatchSet.SetNumClosestMatching | src/main/java/xcsf/MatchSet.java:141-143 | the flag takes the given value and nothing else changes |
| MatchSets.MatchSet.ShutDownThreads | src/main/java/xcsf/MatchSet.java:394-406 | with workers they are gone, the threshold becomes `Integer.MAX_VALUE` and adaptation is off; without workers the loop over the missing array fails (NullPointer) and nothing changes |
| MatchSets.WithoutWorkers | src/main/java/xcsf/MatchSet.java:96-97 | with the threshold at `Integer.MAX_VALUE` and adaptation off every scan is serial (or closest matching) and the threading state never changes |
| MatchSets.MatchSet.Match | src/main/java/xcsf/MatchSet.java:156-199 | the set is emptied and refilled and the population is untouched; closest matching takes precedence; a serial scan appends exactly the matching classifiers in population order, the strided scans the same ones in stride order; outside closest matching a classifier is a member exactly when it belongs to the population and its condition matches the state; the threading state moves on as `Adapt` says |
| MatchSets.MatchSet.Retune | src/main/java/xcsf/MatchSet.java:167-191 | the timing bookkeeping after the scan: the threading state becomes `Adapt` of the old one, nothing else changes |
| MatchSets.AdaptationAccuracy | src/main/java/xcsf/MatchSet.java:84-85 | the adaptation accuracy is at least 1 |
| MatchSets.AccuracyBounds | src/main/java/xcsf/MatchSet.java:84-85 | it is 1 below a capacity of 50 and a twenty-fifth of the capacity, rounded down, from 25 on |
| MatchSets.AdaptKeepsCalibrated | src/main/java/xcsf/MatchSet.java:164-191 | while adaptation is on the threshold stays one accuracy above the size of the last check, with no parallel time pending, after every `match` |
| MatchSets.SerialBetweenChecks | src/main/java/xcsf/MatchSet.java:164-194 | between two checks the calibrated threshold makes every scan serial and nothing is measured |
| MatchSets.ThresholdRises | src/main/java/xcsf/MatchSet.java:177-181 | the threshold never drops, and when it changes it is a serial win that puts it above the checked size |
| MatchSets.CheckRound | src/main/java/xcsf/MatchSet.java:164-191 | a check times the serial scan first and the parallel scan at the next check; a serial win sets the threshold to size plus accuracy, records the size and clears both times; a parallel win (or a tie) ends the adaptation with the threshold as it is |
| MatchSets.RunSettles | src/main/java/xcsf/MatchSet.java:189 | over any run of `match` calls the calibration is kept, and once adaptation has stopped it never restarts: the threading state is fixed for good |
| MatchSets.SerialMatching | src/main/java/xcsf/MatchSet.java:296-304 | the members are exactly the population's classifiers whose condition matches, in population order |
| MatchSets.SerialMembers | src/main/java/xcsf/MatchSet.java:296-304 | a classifier is appended by the serial scan exactly when it is in the scanned part of the population and its box holds the input |
| MatchSets.ScanStep | src/main/java/xcsf/MatchSet.java:299-302 | one slot appends its classifier exactly when it matches |
| MatchSets.MatchOne | src/main/java/xcsf/MatchSet.java:300 | the match test of one population slot changes no condition but that slot's cache |
| MatchSets.ParallelMatching | src/main/java/xcsf/MatchSet.java:357-379 | the farmer's and the workers' scans, taken in offset order, append exactly the matching classifiers of their strides |
| MatchSets.StrideMatching | src/main/java/xcsf/MatchSet.java:449-453 | the thread with offset o appends the matching classifiers at slots o, o + n, o + 2n, ... after those of the earlier threads |
| MatchSets.StridesPartition | src/main/java/xcsf/MatchSet.java:364-369 | the n strides with offsets 0 to n - 1 visit every slot below the population size exactly once |
| MatchSets.StridesPickSerial | src/main/java/xcsf/MatchSet.java:364-369 | the strided scans append the same classifiers as the serial scan, each as often, in some order |
| MatchSets.ScansMatch | src/main/java/xcsf/MatchSet.java:296-304 | both scans append exactly the population's classifiers whose condition matches the input |
| MatchSets.StridesLength | src/main/java/xcsf/MatchSet.java:449-453 | all n strides together visit exactly as many slots as the population holds |
| MatchSets.ClosestMatching | src/main/java/xcsf/MatchSet.java:311-326 | the members are the shortest prefix, reaching `numClosestMatch` micro-classifiers, of a rearrangement of the population's (activity, numerosity, classifier) entries, and no entry behind the prefix is more active than one inside it; the population order is untouched |
| MatchSets.CollectActivities | src/main/java/xcsf/MatchSet.java:312-319 | the three scratch arrays hold, slot by slot, the classifier, its activity and its numerosity |
| MatchSets.ActivityOne | src/main/java/xcsf/MatchSet.java:317 | the activity is `exp(-distance)` of the recorded box, and only the slot's own cache changes |
| MatchSets.RankAndAdd | src/main/java/xcsf/MatchSet.java:320-325 | after the selection call the first `firstNum` entries join the set, giving the closeness outcome |
| MatchSets.Rank | src/main/java/xcsf/MatchSet.java:320-321 | the collected entries are only rearranged, and `firstNum` is the length of the shortest prefix whose numerosities reach `numClosestMatch`; with a positive `numClosestMatch` and positive numerosities no entry behind that prefix is more active than one inside it |
| MatchSets.AddFirst | src/main/java/xcsf/MatchSet.java:323-325 | the set holds exactly the first `firstNum` classifiers of the rearranged array, in order |
| MatchSets.ChosenFromPopulation | src/main/java/xcsf/MatchSet.java:311-326 | every classifier closest matching adds comes from the population |
| MatchSets.MatchSet.EnsureStateCoverage | src/main/java/xcsf/MatchSet.java:242-264 | a non-empty set changes nothing; for an empty one a fresh covering classifier centred on the state (one micro-classifier, initial fitness, no experience, the iteration as timestamp, matching the state) becomes the only member; the population loses its emptied slots and gains the classifier when a slot is free; the deletion takes at most the surplus `numerositySum + 1 - maxPopSize`, and when it takes all of it the classifier is added and the total is within `maxPopSize` |
| MatchSets.CoveringMember | src/main/java/xcsf/MatchSet.java:245-246 | the covering classifier joins the empty match set and shares no object with any classifier already present |
| MatchSets.AddCovering | src/main/java/xcsf/MatchSet.java:248-262 | the population half of covering keeps the accounting: final total = old total - deleted + 1 when added |
| MatchSets.CoverCounted | src/main/java/xcsf/MatchSet.java:252-262 | once the numerosity sum is known: the emptied slots leave, the covering classifier follows exactly when a slot is free, no statistic but numerosity changes, and the covering accounting holds |
| MatchSets.CoverDeletion | src/main/java/xcsf/MatchSet.java:252-254 | deletes nothing for a surplus `numerositySum + 1 - maxPopSize` that is not positive and at most the surplus otherwise; exactly the emptied slots leave, the total falls by the count deleted, the survivors stay live and valid, and the covering classifier outside the population is untouched |
| MatchSets.AppendCovering | src/main/java/xcsf/MatchSet.java:262 | the covering classifier is appended exactly when a slot is free, with the accounting kept |
| MatchSets.CoverAccounting | src/main/java/xcsf/MatchSet.java:248-262 | after deleting the whole surplus a population of live classifiers has a free slot, so the covering classifier is added and the total is at most `maxPopSize` |
| MatchSets.MakeRoom | src/main/java/xcsf/MatchSet.java:252-254 | deletes at most the surplus (nothing when it is not positive), removes exactly the emptied slots, lowers the total by the count deleted, and keeps the survivors live and valid |
| MatchSets.DeleteSurplus | src/main/java/xcsf/MatchSet.java:252-254 | the call is made only for a positive surplus; `exhausted` is set exactly when fewer than the surplus were deleted |
| MatchSets.AppendIfRoom | src/main/java/xcsf/MatchSet.java:262 | the classifier is appended exactly when a slot is free, and the total rises by its numerosity |
| MatchSets.AppendNew | src/main/java/xcsf/MatchSet.java:262 | with a free slot the classifier is appended behind the others, the set stays separate and valid, and the total rises by its numerosity |
| MatchSets.MatchSet.UpdateClassifiers | src/main/java/xcsf/MatchSet.java:273-288 | every member first takes its `update1` step (one more experience, one RLS step with the buffered prediction, error toward the new absolute error); the sums are Σ accuracy·numerosity of the new errors and Σ numerosity; then every member takes `update2` with those sums: its set size estimate moves toward the numerosity sum, and, when the accuracy sum is non-zero, its fitness toward its share of it; the members' fitness sum then moves toward 1 at rate beta |
| MatchSets.LearnPass | src/main/java/xcsf/MatchSet.java:277-283 | the first loop steps every member and returns the two sums over the whole match set, leaving fitness and set size estimate alone |
| MatchSets.RefitPass | src/main/java/xcsf/MatchSet.java:285-287 | the second loop takes `update2` on every member with the sums of the first: each set size estimate moves toward the numerosity sum, each fitness toward its share of a non-zero accuracy sum (kept on a zero one), and what the first loop did stays |
| MatchSets.RefitOutcome | src/main/java/xcsf/MatchSet.java:285-287 | after the second loop every fitness has moved toward its share of the accuracy sum |
| MatchSets.RefitsSum | src/main/java/xcsf/MatchSet.java:285-287 | moving every fitness toward its share moves the fitness sum toward the sum of the shares |
| MatchSets.RefitsTowardOne | src/main/java/xcsf/MatchSet.java:273-288 | with the accuracy sum as total the shares sum to 1, so the fitness sum moves toward 1 at rate beta |
| MatchSets.Refit | src/main/java/xcsf/MatchSet.java:286 | `update2` on one member gives the refitted fitness and set size estimate and touches nothing else |
| MatchSets.Collect | src/main/java/xcsf/MatchSet.java:156-199 | the matching part of `match`: the set is emptied and refilled, the population is unchanged, and the members are those of the serial, strided or closest-matching scan as the chosen procedure says; outside closest matching exactly the matching classifiers of the population are members |
| MatchSets.Scan | src/main/java/xcsf/MatchSet.java:164-198 | on an empty set the serial scan appends the matching classifiers in population order, the threads append them in stride order, closest matching appends the closeness outcome; outside closest matching a classifier is a member exactly when it is in the population and matches |
| MatchSets.SerialStep | src/main/java/xcsf/MatchSet.java:299-302 | one turn of the serial loop: the set now holds the matching classifiers among the first `i + 1` slots, in order |
| MatchSets.ThreadScan | src/main/java/xcsf/MatchSet.java:449-453 | the loop of the thread with offset `o` appends the matching classifiers of its stride behind those of the earlier threads |
| MatchSets.StrideStep | src/main/java/xcsf/MatchSet.java:449-452 | one turn of a thread's loop moves slot `i` from the rest of its stride to the slots seen, appending its classifier exactly when it matches |
| MatchSets.CollectOne | src/main/java/xcsf/MatchSet.java:315-319 | one turn of the first loop of closest matching records the slot's classifier, activity and numerosity in the three arrays |
| MatchSets.LearnLoop | src/main/java/xcsf/MatchSet.java:277-283 | after the first loop every member has taken its `update1` step and the two sums are Σ accuracy·numerosity and Σ numerosity over all members |
| MatchSets.LearnIteration | src/main/java/xcsf/MatchSet.java:278-282 | the body of the first loop for member `i` steps it and adds its terms to both sums, extending the loop's record by one member |
| MatchSets.LearnStep | src/main/java/xcsf/MatchSet.java:279-281 | `update1` on one member, returning accuracy times numerosity of its new error; fitness and set size estimate stay |
| MatchSets.StepMember | src/main/java/xcsf/MatchSet.java:279-282 | stepping one member leaves the members already stepped and those still to come as they were |
| MatchSets.WeightedAccuracy | src/main/java/xcsf/MatchSet.java:281 | the term added to the accuracy sum: the accuracy of the classifier times its numerosity |
| MatchSets.RefitLoop | src/main/java/xcsf/MatchSet.java:285-287 | after the second loop every member has taken `update2` with the sums of the first loop (set size estimate always moved, fitness moved when the accuracy sum is non-zero), and its error and numerosity stay |
| MatchSets.RefitIteration | src/main/java/xcsf/MatchSet.java:286 | the body of the second loop for member `i` extends the refitted part by one member |
| MatchSets.RefitMember | src/main/java/xcsf/MatchSet.java:286 | one member's `update2`: the set size estimate always moves toward the numerosity sum, the fitness toward its share when the accuracy sum is non-zero and is kept when it is zero; what `update1` did stays |
| Classifiers.LearningRate | src/main/java/xcsf/classifier/Classifier.java:220-223 | the rate `max{1/experience, beta}`: at least both candidates and equal to one of them |
| Classifiers.Rate | src/main/java/xcsf/classifier/Classifier.java:243-246 | the rate loop of `update1`/`update2` yields `max{1/experience, beta}` |
| Classifiers.LearningRateInUnit | src/main/java/xcsf/classifier/Classifier.java:220-223 | for an experienced classifier and `beta` in (0, 1] the rate lies in (0, 1] |
| Classifiers.WidrowHoffBetween | src/main/java/xcsf/classifier/Classifier.java:224 | a Widrow-Hoff step at that rate lands between the old value and the target: it never overshoots |
| Classifiers.Accuracy | src/main/java/xcsf/classifier/Classifier.java:305-313 | 1 up to the error threshold `epsilon0`, `alpha·(epsilon0/error)^nu` above it |
| Classifiers.AbsError | src/main/java/xcsf/classifier/Classifier.java:213-218 | the summed absolute error is non-negative and 0 exactly when the prediction equals the actual value in every component |
| Classifiers.AbsErrorSum | src/main/java/xcsf/classifier/Classifier.java:213-218 | the error loop yields that summed absolute error |
| Classifiers.Differences | src/main/java/xcsf/classifier/Classifier.java:152-154 | one offset per input component |
| Classifiers.Classifier.constructor | src/main/java/xcsf/classifier/Classifier.java:50-93 | the covering classifier: a fresh condition centred on the state's condition input (so at distance 0 from it), a fresh prediction sized by the state's prediction input and output, one micro-classifier, initial fitness and prediction error, no experience, set size estimate 1, the given timestamp |
| Classifiers.Classifier.Offspring | src/main/java/xcsf/classifier/Classifier.java:98-100 | the empty constructor filled in as `reproduce` does it: the given parts and statistics, numerosity 1, experience 0 |
| Classifiers.Classifier.DoesMatch | src/main/java/xcsf/classifier/Classifier.java:137-139 | true exactly when the condition's distance to the input is below 1; the box stays |
| Classifiers.Classifier.GetActivity | src/main/java/xcsf/classifier/Classifier.java:125-127 | `exp(-distance)` of the condition to the input; the box stays |
| Classifiers.Classifier.ComputePredictionInput | src/main/java/xcsf/classifier/Classifier.java:149-157 | the offset from the center for a state with one input, the separate prediction input otherwise |
| Classifiers.Classifier.Predict | src/main/java/xcsf/classifier/Classifier.java:148-159 | the linear prediction of the coefficients on the prediction input extended by the offset value; coefficients and gain matrix stay |
| Classifiers.Classifier.Update1 | src/main/java/xcsf/classifier/Classifier.java:195-225 | one more experience; the coefficients take one RLS step toward the output; the buffered prediction is that of the new coefficients; the prediction error moves toward the summed absolute error of that prediction at `max{1/experience, beta}`; fitness, numerosity, set size estimate and timestamp stay |
| Classifiers.Classifier.MoveError | src/main/java/xcsf/classifier/Classifier.java:220-224 | the prediction error alone takes the Widrow-Hoff step toward the measured error |
| Classifiers.Classifier.UpdatePrediction | src/main/java/xcsf/classifier/Classifier.java:199-214 | the RLS step of the coefficients, then the prediction of the new coefficients, which is returned |
| Classifiers.Classifier.MoveSetSize | src/main/java/xcsf/classifier/Classifier.java:241-247 | the set size estimate alone takes the Widrow-Hoff step toward the match set's numerosity at `max{1/experience, beta}`; nothing else changes |
| Classifiers.Classifier.Update2 | src/main/java/xcsf/classifier/Classifier.java:240-252 | the set size estimate moves toward the match set's numerosity at `max{1/experience, beta}`, the fitness toward `accuracy·numerosity / accuracySum` at `beta`; nothing else changes |
| Classifiers.Classifier.Crossover | src/main/java/xcsf/classifier/Classifier.java:168-178 | both classifiers take the pair's mean fitness and mean prediction error; the coefficients end up equal (the averaged ones); every center and stretch component of the pair is either kept or swapped; numerosity and experience stay |
| Classifiers.Classifier.Mutation | src/main/java/xcsf/classifier/Classifier.java:184-186 | only the condition changes, by the rectangle mutation |
| Classifiers.Classifier.Reproduce | src/main/java/xcsf/classifier/Classifier.java:261-276 | a fresh classifier with fresh condition and prediction of the same box and coefficients, numerosity 1, experience 0, fitness per micro-classifier times the fitness reduction, error times the error reduction, same estimate and timestamp |
| Classifiers.Classifier.DeletionVote | src/main/java/xcsf/classifier/Classifier.java:287-297 | estimate times numerosity, raised by `meanFitness / microFitness` exactly when the classifier is experienced beyond `thetaDel` and its micro-fitness is below `delta·meanFitness`; defined for every classifier with a non-zero numerosity, a zero fitness being excluded only in that raised branch, the one that divides by the micro-fitness |
| Classifiers.Classifier.GetAccuracy | src/main/java/xcsf/classifier/Classifier.java:305-313 | the accuracy of the current prediction error |
| Classifiers.Classifier.IsMoreGeneral | src/main/java/xcsf/classifier/Classifier.java:337-339 | true exactly when this rectangle contains the other |
| Classifiers.Classifier.AddNumerosity | src/main/java/xcsf/classifier/Classifier.java:403-405 | the numerosity changes by the given amount, nothing else |
| Classifiers.Classifier.SetTimestamp | src/main/java/xcsf/classifier/Classifier.java:440-442 | the timestamp takes the value, nothing else changes |
| Classifiers.SubsumerIsAccurate | src/main/java/xcsf/classifier/Classifier.java:305-325 | a classifier that may subsume is below the error threshold and so fully accurate |
| Classifiers.LowFitnessRaisesVote | src/main/java/xcsf/classifier/Classifier.java:287-297 | an experienced classifier of low positive micro-fitness gets a strictly larger vote than the plain estimate times numerosity |
| Classifiers.BelowScaledMean | src/main/java/xcsf/classifier/Classifier.java:289-290 | a positive value below `delta·mean` with `delta` in (0, 1] is below a positive mean |
| Classifiers.RaisedRatio | src/main/java/xcsf/classifier/Classifier.java:295 | scaling a positive vote by `mean / micro` with `micro < mean` raises it |
| Rectangle.ContainsReflexive | src/main/java/xcsf/classifier/ConditionRectangle.java:106-118 | every rectangle is at least as general as itself |
| Rectangle.ContainsTransitive | src/main/java/xcsf/classifier/ConditionRectangle.java:106-118 | "is more general" is transitive |
| Rectangle.MatchesInside | src/main/java/xcsf/classifier/ConditionRectangle.java:78-85 | a rectangle matches an input (largest relative offset below 1) exactly when the input lies strictly inside the box in every dimension |
| Rectangle.OffsetBelowOne | src/main/java/xcsf/classifier/ConditionRectangle.java:276-277 | an offset divided by a positive stretch is below 1 in size exactly when the offset is below the stretch |
| Rectangle.ContainsCoversMatches | src/main/java/xcsf/classifier/ConditionRectangle.java:106-118 | a more general rectangle matches every input the other one matches |
| Rectangle.CenterMatches | src/main/java/xcsf/classifier/ConditionRectangle.java:33-38 | a rectangle is at distance 0 from its own center, so the covering condition matches the state it was made for |
| Rectangle.ConditionRectangle.Cover | src/main/java/xcsf/classifier/ConditionRectangle.java:33-45 | centred on the input, with every stretch drawn from [minConditionStretch, minConditionStretch + coverConditionRange) and no cached input |
| Rectangle.ConditionRectangle.Copy | src/main/java/xcsf/classifier/ConditionRectangle.java:66-71 | a condition with the given center and stretch and no cached input |
| Rectangle.ConditionRectangle.CalculateMaxDistance | src/main/java/xcsf/classifier/ConditionRectangle.java:273-287 | the cached distance becomes the largest absolute offset-over-stretch of the input; the box stays |
| Rectangle.ConditionRectangle.Refresh | src/main/java/xcsf/classifier/ConditionRectangle.java:79-83 | the distance is recomputed exactly when the input differs from the cached one, and the input is cached |
| Rectangle.ConditionRectangle.DoesMatch | src/main/java/xcsf/classifier/ConditionRectangle.java:78-85 | true exactly when the cached distance is below 1, which is the input's distance whenever the cache was consistent |
| Rectangle.ConditionRectangle.GetActivity | src/main/java/xcsf/classifier/ConditionRectangle.java:92-99 | `exp(-distance)` from the same cache |
| Rectangle.ConditionRectangle.IsMoreGeneral | src/main/java/xcsf/classifier/ConditionRectangle.java:106-118 | true exactly when each lower bound is at most and each upper bound at least the other's |
| Rectangle.ConditionRectangle.GetVolume | src/main/java/xcsf/classifier/ConditionRectangle.java:125-131 | the product of `2·stretch_i`, which is positive |
| Rectangle.ConditionRectangle.Equals | src/main/java/xcsf/classifier/ConditionRectangle.java:199-208 | true exactly when center and stretch agree |
| Rectangle.ConditionRectangle.Reproduce | src/main/java/xcsf/classifier/ConditionRectangle.java:225-230 | a fresh condition with the same box and an empty cache |
| Rectangle.ConditionRectangle.Crossover | src/main/java/xcsf/classifier/ConditionRectangle.java:138-154 | every center and stretch component of the pair is kept or exchanged; no exchange at all when the first draw is at least pX; the caches are left stale as in the source |
| Rectangle.ConditionRectangle.Mutation | src/main/java/xcsf/classifier/ConditionRectangle.java:161-192 | every center component stays or moves by less than its stretch and is clamped to [0, 1]; every stretch stays or is scaled by a factor in (0.5, 2); the cache is left as it is |
| Rectangle.ReproduceEquals | src/main/java/xcsf/classifier/ConditionRectangle.java:225-230 | a reproduced copy and its original contain each other |
| Ellipsoid.DistanceZeroIffCenter | src/main/java/xcsf/classifier/ConditionEllipsoid.java:296-307 | the relative squared distance is 0 exactly at the center |
| Ellipsoid.InsideRectangle | src/main/java/xcsf/classifier/ConditionEllipsoid.java:87-93 | every input the ellipsoid matches is matched by the rectangle with the same center and stretch |
| Ellipsoid.MoreGeneralReflexive | src/main/java/xcsf/classifier/ConditionEllipsoid.java:113-133 | an ellipsoid is at least as general as an identical one (every dimension is skipped) |
| Ellipsoid.EndpointsOnSurface | src/main/java/xcsf/classifier/ConditionEllipsoid.java:121-130 | the two points the test moves the scratch copy to are the ends of the other ellipsoid's axis: both lie at relative squared distance exactly 1 from it |
| Ellipsoid.UnitOffset | src/main/java/xcsf/classifier/ConditionEllipsoid.java:121-127 | one stretch up or down along one axis is at relative squared distance 1 |
| Ellipsoid.SumSquaresOneHot | src/main/java/xcsf/classifier/ConditionEllipsoid.java:303-305 | a vector that is zero except for ±1 at one index has squared norm 1 |
| Ellipsoid.CoverMatches | src/main/java/xcsf/classifier/ConditionEllipsoid.java:37-49 | a covering ellipsoid is at distance 0 from the input it was centred on |
| Ellipsoid.ConditionEllipsoid.Cover | src/main/java/xcsf/classifier/ConditionEllipsoid.java:37-49 | centred on the input, with every stretch drawn from [minConditionStretch, minConditionStretch + coverConditionRange) and no cached input |
| Ellipsoid.ConditionEllipsoid.Copy | src/main/java/xcsf/classifier/ConditionEllipsoid.java:70-80 | a condition with the given center and stretch and no cached input |
| Ellipsoid.ConditionEllipsoid.CalculateRelativeSquaredDistance | src/main/java/xcsf/classifier/ConditionEllipsoid.java:296-307 | the sum of squared offset-over-stretch of the point |
| Ellipsoid.ConditionEllipsoid.Refresh | src/main/java/xcsf/classifier/ConditionEllipsoid.java:87-92 | the distance is recomputed exactly when the input differs from the cached one, and the input is cached |
| Ellipsoid.ConditionEllipsoid.DoesMatch | src/main/java/xcsf/classifier/ConditionEllipsoid.java:87-93 | true exactly when the cached squared distance is below 1, the input's own whenever the cache was consistent |
| Ellipsoid.ConditionEllipsoid.GetActivity | src/main/java/xcsf/classifier/ConditionEllipsoid.java:100-106 | `exp(-squaredDistance)` from the same cache |
| Ellipsoid.ConditionEllipsoid.IsMoreGeneral | src/main/java/xcsf/classifier/ConditionEllipsoid.java:113-133 | true exactly when, in every dimension where the shapes differ, both ends of the other ellipsoid's axis are within distance 1 of this one |
| Ellipsoid.ConditionEllipsoid.CheckAxis | src/main/java/xcsf/classifier/ConditionEllipsoid.java:121-130 | one dimension's test: both axis ends within distance 1 |
| Ellipsoid.ConditionEllipsoid.Equals | src/main/java/xcsf/classifier/ConditionEllipsoid.java:237-246 | true exactly when center and stretch agree |
| Ellipsoid.ConditionEllipsoid.Reproduce | src/main/java/xcsf/classifier/ConditionEllipsoid.java:224-230 | a fresh condition with the same center and stretch and an empty cache |
| Ellipsoid.ConditionEllipsoid.Crossover | src/main/java/xcsf/classifier/ConditionEllipsoid.java:178-194 | every center and stretch component of the pair is kept or exchanged; no exchange at all when the first draw is at least pX; caches left as they are |
| Ellipsoid.ConditionEllipsoid.Mutation | src/main/java/xcsf/classifier/ConditionEllipsoid.java:140-171 | every center component stays or moves by less than its stretch and is clamped to [0, 1]; every stretch stays or is scaled by a factor in (0.5, 2) |
| RotatingEllipsoid.InsideRotatedRectangle | src/main/java/xcsf/classifier/ConditionRotatingEllipsoid.java:147-153 | whatever a rotated ellipsoid matches, the rotated rectangle with the same inverse transform matches too |
| RotatingEllipsoid.PlusImage | src/main/java/xcsf/classifier/ConditionRotatingEllipsoid.java:189-191 | the checked image of `+e_dim` has one entry per dimension |
| RotatingEllipsoid.MinusImage | src/main/java/xcsf/classifier/ConditionRotatingEllipsoid.java:193-195 | the checked image of `-e_dim` has one entry per dimension |
| RotatingEllipsoid.Unit | src/main/java/xcsf/classifier/ConditionRotatingEllipsoid.java:177-184 | `sign·e_dim`: the sign at `dim`, 0 elsewhere |
| RotatingEllipsoid.ImagesOfUnitVectors | src/main/java/xcsf/classifier/ConditionRotatingEllipsoid.java:180-196 | the two points the test measures are exactly the images of `+e_dim` and `-e_dim` under the composed transform, so the test checks that those axis ends stay in the unit sphere |
| RotatingEllipsoid.AxisLengths | src/main/java/xcsf/classifier/ConditionRotatingEllipsoid.java:186-196 | the inner loop yields the squared lengths of both images |
| RotatingEllipsoid.ConditionRotatingEllipsoid.Cover | src/main/java/xcsf/classifier/ConditionRotatingEllipsoid.java:64-86 | centred on the input, stretches from the covering range, angles in (0, upper rotation bound), transforms current, nothing cached |
| RotatingEllipsoid.ConditionRotatingEllipsoid.Copy | src/main/java/xcsf/classifier/ConditionRotatingEllipsoid.java:111-120 | the given parameters with row copies of both transforms, `changed` clear, nothing cached |
| RotatingEllipsoid.ConditionRotatingEllipsoid.Recalculate | src/main/java/xcsf/classifier/ConditionRotatingEllipsoid.java:452-458 | both transforms are those of the current parameters, `changed` is cleared and the cached input dropped |
| RotatingEllipsoid.ConditionRotatingEllipsoid.CalculateRelativeSquaredDistance | src/main/java/xcsf/classifier/ConditionRotatingEllipsoid.java:474-485 | the squared norm of the point mapped by the inverse transform |
| RotatingEllipsoid.ConditionRotatingEllipsoid.Refresh | src/main/java/xcsf/classifier/ConditionRotatingEllipsoid.java:147-152 | the distance is recomputed exactly when the input differs from the cached one; shape and transforms stay |
| RotatingEllipsoid.ConditionRotatingEllipsoid.DoesMatch | src/main/java/xcsf/classifier/ConditionRotatingEllipsoid.java:147-153 | true exactly when the cached squared distance is below 1, the input's own whenever the cache was consistent |
| RotatingEllipsoid.ConditionRotatingEllipsoid.GetActivity | src/main/java/xcsf/classifier/ConditionRotatingEllipsoid.java:160-166 | `exp(-squaredDistance)` from the same cache |
| RotatingEllipsoid.ConditionRotatingEllipsoid.IsMoreGeneral | src/main/java/xcsf/classifier/ConditionRotatingEllipsoid.java:173-202 | true exactly when, for the inverse transform composed with the other's transform, every axis end image lies within the unit sphere |
| RotatingEllipsoid.ConditionRotatingEllipsoid.Equals | src/main/java/xcsf/classifier/ConditionRotatingEllipsoid.java:330-344 | true exactly when center, stretch and angles agree (the matrices are not compared) |
| RotatingEllipsoid.ConditionRotatingEllipsoid.Reproduce | src/main/java/xcsf/classifier/ConditionRotatingEllipsoid.java:362-377 | a fresh condition with the same parameters and transforms, `changed` clear, nothing cached; current if the original was |
| RotatingEllipsoid.ConditionRotatingEllipsoid.Crossover | src/main/java/xcsf/classifier/ConditionRotatingEllipsoid.java:222-250 | every center, stretch and angle component is kept or exchanged; both `changed` flags are set exactly when something was exchanged, never when the first draw is at least pX; transforms and caches stay |
| RotatingEllipsoid.ConditionRotatingEllipsoid.Mutation | src/main/java/xcsf/classifier/ConditionRotatingEllipsoid.java:257-323 | the center moves by a vector of components in (-1, 1) mapped through the old transform (always when `changed` was set); stretches and angles stay or are mutated; the transforms are rebuilt exactly when something changed; afterwards `changed` is clear and the transforms are current whenever they were consistent before |
| RotatingRectangle.MatchesInside | src/main/java/xcsf/classifier/ConditionRotatingRectangle.java:128-135 | an input matches exactly when every coordinate of it in the rectangle's own frame lies in (-1, 1) |
| RotatingRectangle.AllCornersFromEvery | src/main/java/xcsf/classifier/ConditionRotatingRectangle.java:463-485 | the recursion from a fixed prefix succeeds exactly when every corner of the unit cube extending that prefix is mapped into the closed unit cube |
| RotatingRectangle.MoreGeneralEveryCorner | src/main/java/xcsf/classifier/ConditionRotatingRectangle.java:156-166 | so `isMoreGeneral` holds exactly when all 2^d corners of the unit cube are mapped into the closed unit cube |
| RotatingRectangle.CheckEdges | src/main/java/xcsf/classifier/ConditionRotatingRectangle.java:463-485 | the recursion over the corner buffer, failing fast, yields the corner test for the buffer's prefix |
| RotatingRectangle.ConditionRotatingRectangle.Cover | src/main/java/xcsf/classifier/ConditionRotatingRectangle.java:46-66 | centred on the input, stretches from the covering range, angles in (0, upper rotation bound), transforms current, nothing cached |
| RotatingRectangle.ConditionRotatingRectangle.Copy | src/main/java/xcsf/classifier/ConditionRotatingRectangle.java:91-101 | the given parameters with row copies of both transforms, `changed` clear, nothing cached |
| RotatingRectangle.ConditionRotatingRectangle.Recalculate | src/main/java/xcsf/classifier/ConditionRotatingRectangle.java:417-423 | both transforms are those of the current parameters, `changed` is cleared and the cached input dropped |
| RotatingRectangle.ConditionRotatingRectangle.CalculateMaxDistance | src/main/java/xcsf/classifier/ConditionRotatingRectangle.java:435-448 | the cached distance becomes the largest absolute coordinate of the input mapped by the inverse transform |
| RotatingRectangle.ConditionRotatingRectangle.Refresh | src/main/java/xcsf/classifier/ConditionRotatingRectangle.java:128-133 | the distance is recomputed exactly when the input differs from the cached one; shape and transforms stay |
| RotatingRectangle.ConditionRotatingRectangle.DoesMatch | src/main/java/xcsf/classifier/ConditionRotatingRectangle.java:128-135 | true exactly when the cached distance is below 1, the input's own whenever the cache was consistent |
| RotatingRectangle.ConditionRotatingRectangle.GetActivity | src/main/java/xcsf/classifier/ConditionRotatingRectangle.java:142-149 | `exp(-maxDistance)` from the same cache |
| RotatingRectangle.ConditionRotatingRectangle.IsMoreGeneral | src/main/java/xcsf/classifier/ConditionRotatingRectangle.java:156-166 | true exactly when the inverse transform composed with the other's transform maps every corner of the unit cube into the closed unit cube |
| RotatingRectangle.ConditionRotatingRectangle.GetVolume | src/main/java/xcsf/classifier/ConditionRotatingRectangle.java:173-179 | the product of `2·stretch_i`, which is positive |
| RotatingRectangle.ConditionRotatingRectangle.Equals | src/main/java/xcsf/classifier/ConditionRotatingRectangle.java:294-309 | true exactly when center, stretch and angles agree (the matrices are not compared) |
| RotatingRectangle.ConditionRotatingRectangle.Reproduce | src/main/java/xcsf/classifier/ConditionRotatingRectangle.java:327-342 | a fresh condition with the same parameters and transforms, `changed` clear, nothing cached; current if the original was |
| RotatingRectangle.ConditionRotatingRectangle.Crossover | src/main/java/xcsf/classifier/ConditionRotatingRectangle.java:186-214 | every center, stretch and angle component is kept or exchanged; both `changed` flags are set exactly when something was exchanged, never when the first draw is at least pX; transforms and caches stay |
| RotatingRectangle.ConditionRotatingRectangle.Mutation | src/main/java/xcsf/classifier/ConditionRotatingRectangle.java:221-287 | the center moves by a vector of components in (-1, 1) mapped through the old transform (always when `changed` was set); stretches and angles stay or are mutated; the transforms are rebuilt exactly when something changed; afterwards `changed` is clear and the transforms are current whenever they were consistent before |
| Rotation.AngleCount | src/main/java/xcsf/classifier/ConditionRotatingRectangle.java:95 | one angle per pair of axes, `d (d - 1) / 2`, none for one dimension or less |
| Rotation.AngleCountStep | src/main/java/xcsf/classifier/ConditionRotatingRectangle.java:95 | one more axis adds one angle per existing axis |
| Rotation.UnitRow | src/main/java/xcsf/classifier/ConditionRotatingRectangle.java:334 | the last row of an extended transform: zeros and a final 1 |
| Rotation.CloneRows | src/main/java/xcsf/classifier/ConditionRotatingRectangle.java:334-340 | the copy `reproduce` makes: the first d rows copied, the last the unit row |
| Rotation.CloneExact | src/main/java/xcsf/classifier/ConditionRotatingRectangle.java:327-342 | for an extended transform that copy is exact and again an extended transform |
| Rotation.HomogeneousCovers | src/main/java/xcsf/classifier/ConditionRotatingRectangle.java:438-439 | an extended transform has the rows and columns every product on it reads |
| Rotation.Local | src/main/java/xcsf/classifier/ConditionRotatingRectangle.java:438-439 | the input carried into the shape's own frame has one coordinate per dimension |
| Rotation.CoverAngles | src/main/java/xcsf/classifier/ConditionRotatingRectangle.java:59-61 | every covering angle lies strictly between 0 and 2π |
| Rotation.DrawShift | src/main/java/xcsf/classifier/ConditionRotatingRectangle.java:224-232 | the mutation vector: every entry in (-1, 1), 0 where the draw failed; `changed` is set exactly when some draw succeeded |
| Rotation.Shifted | src/main/java/xcsf/classifier/ConditionRotatingRectangle.java:240-247 | the shifted, clamped center has the center's length |
| Rotation.ShiftedInBounds | src/main/java/xcsf/classifier/ConditionRotatingRectangle.java:240-247 | every shifted component lies in [0, 1], and an in-range component with no offset stays put |
| Rotation.ZeroShiftOffset | src/main/java/xcsf/classifier/ConditionRotatingRectangle.java:234-237 | a mutation vector without a successful draw maps to a zero offset |
| Rotation.ShiftCenter | src/main/java/xcsf/classifier/ConditionRotatingRectangle.java:240-247 | the clamp loop yields the shifted center |
| Rotation.WrapMutates | src/main/java/xcsf/classifier/ConditionRotatingRectangle.java:272-280 | a change of size in (0, π/4), wrapped, is an angle mutation: the angle differs, by less than π/4 up to a full turn, and stays in [0, 2π] when it started there |
| Rotation.MutateAngle | src/main/java/xcsf/classifier/ConditionRotatingRectangle.java:272-280 | one angle step is an angle mutation |
| Rotation.MutateAngles | src/main/java/xcsf/classifier/ConditionRotatingRectangle.java:268-282 | the angles are the old ones with some entries mutated and the others kept; `changed` is set exactly when some angle was mutated |
| Rotation.AnglesChangedIffMutated | src/main/java/xcsf/classifier/ConditionRotatingRectangle.java:268-282 | the angles change exactly when some angle was mutated, and angles in [0, 2π] stay there |
| Rotation.MutateParameters | src/main/java/xcsf/classifier/ConditionRotatingRectangle.java:222-282 | the three mutation loops: center shifted by the mapped vector exactly when something changed so far, stretches and angles mutated or kept, and the new `changed` flag set exactly when anything changed |
| Rotation.SameAngles | src/main/java/xcsf/classifier/ConditionRotatingRectangle.java:302-306 | the angle loop of `equals` is true exactly when the angles agree |
| Rotation.CrossoverKeepsPositive | src/main/java/xcsf/classifier/ConditionRotatingRectangle.java:186-214 | exchanging stretch components keeps every stretch positive |
| Variation.CoverDraw | src/main/java/xcsf/classifier/ConditionRectangle.java:41-43 | a draw in (0, 1) gives a positive stretch in the covering range |
| Variation.CoverStretches | src/main/java/xcsf/classifier/ConditionRectangle.java:40-44 | every covering stretch lies in the covering range and is positive |
| Variation.MutationProbability | src/main/java/xcsf/classifier/ConditionRectangle.java:162 | the per-allele probability is non-negative for a non-negative pM |
| Variation.SwapSome | src/main/java/xcsf/classifier/ConditionRectangle.java:142-146 | one crossover loop: the vectors are the old ones with the components at some indices exchanged; `any` is whether something was exchanged |
| Variation.FlippedPooled | src/main/java/xcsf/classifier/ConditionRectangle.java:140-153 | an exchange keeps every pair of values, hence the pooled values of both vectors |
| Variation.PoolLast | src/main/java/xcsf/classifier/ConditionRectangle.java:140-153 | one more pair of components, kept or exchanged, leaves the pooled values of both vectors equal to the pooled values before |
| Variation.NoFlipUnchanged | src/main/java/xcsf/classifier/ConditionRectangle.java:140-153 | without any exchange both vectors are unchanged |
| Variation.MoveWithinStretch | src/main/java/xcsf/classifier/ConditionRectangle.java:167-173 | a move by less than one stretch, clamped, stays in [0, 1] and within one stretch of an old value inside [0, 1] |
| Variation.MoveCenter | src/main/java/xcsf/classifier/ConditionRectangle.java:167-173 | one center move is a center mutation |
| Variation.CenterStep | src/main/java/xcsf/classifier/ConditionRectangle.java:164-175 | mutating one not yet touched component keeps the center loop's invariant |
| Variation.MutateCenters | src/main/java/xcsf/classifier/ConditionRectangle.java:164-175 | every center component is kept or mutated |
| Variation.MutateStretches | src/main/java/xcsf/classifier/ConditionRectangle.java:178-191 | every stretch is kept or scaled into (s/2, 2s); positive stretches stay positive; `any` is whether some stretch was mutated |
| Variation.MutateOne | src/main/java/xcsf/classifier/ConditionRectangle.java:178-191 | one stretch not yet mutated, scaled by a factor in (0.5, 2) other than 1, becomes a mutated stretch in (s/2, 2s) different from s |
| Variation.StretchChangedIffMutated | src/main/java/xcsf/classifier/ConditionRotatingRectangle.java:251-265 | the stretches change exactly when some stretch was mutated |
| Geometry.Clamp | src/main/java/xcsf/classifier/ConditionRectangle.java:169-173 | the clamped value lies in [0, 1], and a value already inside stays |
| Geometry.ClampCloser | src/main/java/xcsf/classifier/ConditionRectangle.java:169-173 | clamping never moves a value farther from a point inside [0, 1] |
| Geometry.Offsets | src/main/java/xcsf/classifier/ConditionRectangle.java:275-278 | entry k is `(input_k - center_k) / stretch_k` |
| Geometry.MaxAbs | src/main/java/xcsf/classifier/ConditionRectangle.java:280-286 | the running maximum from 0 is non-negative and at least every absolute entry |
| Geometry.MaxAbsBelow | src/main/java/xcsf/classifier/ConditionRectangle.java:78-85 | the maximum is below a positive bound exactly when every entry is |
| Geometry.SumSquares | src/main/java/xcsf/classifier/ConditionEllipsoid.java:303-305 | the squared norm is non-negative |
| Geometry.VolumePositive | src/main/java/xcsf/classifier/ConditionRectangle.java:125-131 | positive stretches give a positive volume |
| Geometry.ComputeVolume | src/main/java/xcsf/classifier/ConditionRectangle.java:125-131 | the volume loop yields `Π 2·stretch_i` |
| Geometry.StretchFactor | src/main/java/xcsf/classifier/ConditionRectangle.java:180-187 | the stretch factor lies in (0.5, 2) and is never 1 |
| Geometry.ShiftFactor | src/main/java/xcsf/classifier/ConditionRectangle.java:167 | the shift factor `2u - 1` lies in (-1, 1) |
| Geometry.ScaledPositive | src/main/java/xcsf/classifier/ConditionRectangle.java:189 | a stretch scaled by such a factor is strictly between half and twice the old one and differs from it |
| Matrix.DotSymmetric | src/main/java/xcsf/XCSFUtils.java:428-430 | the row-times-vector sum does not depend on the order of its factors |
| Matrix.MatVec | src/main/java/xcsf/XCSFUtils.java:425-433 | the product has n entries |
| Matrix.MatVecExt | src/main/java/xcsf/XCSFUtils.java:459-469 | the affine product has n entries |
| Matrix.MatMul | src/main/java/xcsf/XCSFUtils.java:495-505 | the product of two n×n matrices is n×n |
| Matrix.Diagonal | src/main/java/xcsf/classifier/PredictionLinearRLS.java:283-290 | s on the diagonal, 0 elsewhere |
| Matrix.DiagonalMatVec | src/main/java/xcsf/classifier/PredictionLinearRLS.java:283-290 | a diagonal matrix scales every entry of the vector |
| Matrix.IdentityMatVec | src/main/java/xcsf/XCSFUtils.java:425-433 | the identity leaves the first n entries unchanged |
| Matrix.IdentityMatMul | src/main/java/xcsf/XCSFUtils.java:495-505 | the identity on the left gives back the matrix |
| Matrix.Multiply | src/main/java/xcsf/XCSFUtils.java:425-433 | the first n entries of the destination become the product of the matrix with the vector; the rest stays |
| Matrix.MultiplyExtended | src/main/java/xcsf/XCSFUtils.java:459-469 | the first n entries become the affine product, column n being the translation; the rest stays |
| Matrix.ProductEntry | src/main/java/xcsf/XCSFUtils.java:499-502 | one entry is row i of the first matrix against column j of the second |
| Matrix.MultiplyMatrices | src/main/java/xcsf/XCSFUtils.java:495-505 | the leading n×n block of the destination becomes the product; every other entry stays |
| Matrix.CopyMatrix | src/main/java/xcsf/XCSFUtils.java:522-527 | the leading n×n block is copied; every other entry stays |
| PredConstant.DeltaRule | src/main/java/xcsf/classifier/PredictionConstant.java:84-87 | one output per stored prediction |
| PredConstant.DeltaStep | src/main/java/xcsf/classifier/PredictionConstant.java:85-86 | after one step the remaining error is `(1 - beta)` times the old one, and for beta in [0, 1] the value lies between the old one and the target |
| PredConstant.DeltaBetween | src/main/java/xcsf/classifier/PredictionConstant.java:85-86 | one delta step with beta in [0, 1] lands between the old value and the target |
| PredConstant.ScaleBetween | src/main/java/xcsf/classifier/PredictionConstant.java:86 | a fraction in [0, 1] of a non-negative error is at most that error |
| PredConstant.DeltaRuleBetween | src/main/java/xcsf/classifier/PredictionConstant.java:82-88 | every output moves between its old value and the target; beta 1 reaches the target; a prediction already at the target stays |
| PredConstant.Average | src/main/java/xcsf/classifier/PredictionConstant.java:97-100 | one average per output |
| PredConstant.AverageProperties | src/main/java/xcsf/classifier/PredictionConstant.java:95-101 | the average does not depend on the order, keeps equal vectors and lies between the two values in every output |
| PredConstant.PredictionConstant.constructor | src/main/java/xcsf/classifier/PredictionConstant.java:32-44 | the stored prediction is the initial prediction, whatever the input length |
| PredConstant.PredictionConstant.Predict | src/main/java/xcsf/classifier/PredictionConstant.java:71-75 | a copy of the stored prediction, whatever the input |
| PredConstant.PredictionConstant.Update | src/main/java/xcsf/classifier/PredictionConstant.java:82-88 | the stored prediction takes one delta-rule step at rate beta toward the function value; the input is ignored |
| PredConstant.PredictionConstant.Crossover | src/main/java/xcsf/classifier/PredictionConstant.java:95-101 | both predictions become the element-wise average of the old pair |
| PredConstant.PredictionConstant.Reproduce | src/main/java/xcsf/classifier/PredictionConstant.java:108-115 | a fresh object with an equal prediction |
| RLS.GainVector | src/main/java/xcsf/classifier/PredictionLinearRLS.java:133-143 | `k = G·x / (λ + xᵀGx)` has one entry per input |
| RLS.MovedRow | src/main/java/xcsf/classifier/PredictionLinearRLS.java:149-151 | the corrected row has one entry per input |
| RLS.UpdatedCoefficients | src/main/java/xcsf/classifier/PredictionLinearRLS.java:147-152 | the corrected coefficients keep the shape of the old ones |
| RLS.RankOneComplement | src/main/java/xcsf/classifier/PredictionLinearRLS.java:156-165 | `I - k·xᵀ` is square |
| RLS.Divided | src/main/java/xcsf/classifier/PredictionLinearRLS.java:169-174 | dividing every entry keeps the matrix square |
| RLS.UpdatedGain | src/main/java/xcsf/classifier/PredictionLinearRLS.java:154-174 | the new gain matrix `((I - k·xᵀ)·G) / λ` is square |
| RLS.Predictions | src/main/java/xcsf/classifier/PredictionLinearRLS.java:106-118 | one prediction per output |
| RLS.InitialCoefficients | src/main/java/xcsf/classifier/PredictionLinearRLS.java:44-54 | one row of input length per output |
| RLS.AddDiagonal | src/main/java/xcsf/classifier/PredictionLinearRLS.java:274-278 | adding to the diagonal keeps the matrix square |
| RLS.AverageRows | src/main/java/xcsf/classifier/PredictionLinearRLS.java:184-189 | the averaged coefficients keep their shape |
| RLS.DotMoved | src/main/java/xcsf/classifier/PredictionLinearRLS.java:149-151 | a row moved by `e·k` predicts `e·(k·x)` more on x |
| RLS.DotDivided | src/main/java/xcsf/classifier/PredictionLinearRLS.java:141-143 | dividing the gain vector by d divides its product with x by d |
| RLS.GainAgainstInput | src/main/java/xcsf/classifier/PredictionLinearRLS.java:133-143 | against the input the gain vector gives `xᵀGx / (λ + xᵀGx)` |
| RLS.ErrorScaled | src/main/java/xcsf/classifier/PredictionLinearRLS.java:147-152 | the remaining error after the correction is `e·λ / (λ + xᵀGx)` |
| RLS.MovedRowPredicts | src/main/java/xcsf/classifier/PredictionLinearRLS.java:147-152 | row p of the corrected coefficients predicts `error_p·(k·x)` more on x |
| RLS.UpdatedRow | src/main/java/xcsf/classifier/PredictionLinearRLS.java:147-152 | row p of the corrected coefficients is row p moved by its own error |
| RLS.DotMovedRow | src/main/java/xcsf/classifier/PredictionLinearRLS.java:149-151 | the moved row predicts `e·(k·x)` more on x |
| RLS.ErrorAfterUpdate | src/main/java/xcsf/classifier/PredictionLinearRLS.java:125-152 | on an output whose buffered prediction is that of the current coefficients, the error on the same input after the step is the old error times `λ / (λ + xᵀGx)` |
| RLS.ErrorAfterGain | src/main/java/xcsf/classifier/PredictionLinearRLS.java:147-152 | the same for any gain vector with `k·x = q / (λ + q)` |
| RLS.ErrorCombine | src/main/java/xcsf/classifier/PredictionLinearRLS.java:148-150 | the error after the move is `e·λ / (λ + q)` |
| RLS.ErrorsAfterUpdate | src/main/java/xcsf/classifier/PredictionLinearRLS.java:125-175 | when the whole buffered prediction is that of the current coefficients, every output's error on the input is scaled by `λ / (λ + xᵀGx)` |
| RLS.ErrorShrinks | src/main/java/xcsf/classifier/PredictionLinearRLS.java:137-152 | with λ > 0 and a non-negative quadratic form the step never increases the error on the input and keeps its sign |
| RLS.UnitFraction | src/main/java/xcsf/classifier/PredictionLinearRLS.java:137-143 | a positive value at most d gives a fraction in (0, 1] |
| RLS.ScaledMagnitude | src/main/java/xcsf/classifier/PredictionLinearRLS.java:148-150 | a fraction in (0, 1] of an error is no larger in size and keeps its sign |
| RLS.DotScaledSelf | src/main/java/xcsf/classifier/PredictionLinearRLS.java:283-290 | `Σ x_i·(s·x_i)` is non-negative for s ≥ 0 |
| RLS.DiagonalDivisor | src/main/java/xcsf/classifier/PredictionLinearRLS.java:283-290 | under a freshly initialized gain matrix `diag(s)` with s ≥ 0 the divisor is at least λ, so the first step is defined for λ > 0 and shrinks the error |
| RLS.InitialPrediction | src/main/java/xcsf/classifier/PredictionLinearRLS.java:44-54 | fresh coefficients predict the initial value times the offset value (0 when the offset value is not positive), whatever the rest of the input |
| RLS.AddDiagonalOfDiagonal | src/main/java/xcsf/classifier/PredictionLinearRLS.java:274-290 | resetting a fresh gain matrix gives the fresh matrix of the summed scale; only the diagonal moves |
| RLS.AverageRowsProperties | src/main/java/xcsf/classifier/PredictionLinearRLS.java:182-190 | the averaged coefficients do not depend on the order of the parents, and averaging with itself changes nothing |
| RLS.SumDivisor | src/main/java/xcsf/classifier/PredictionLinearRLS.java:137-140 | the divisor loop yields `λ + Σ x_i·(G·x)_i` |
| RLS.DivideVector | src/main/java/xcsf/classifier/PredictionLinearRLS.java:141-143 | every entry of the gain vector divided by the divisor |
| RLS.MoveRow | src/main/java/xcsf/classifier/PredictionLinearRLS.java:148-151 | one output's row moved by its error times the gain vector |
| RLS.MoveCoefficients | src/main/java/xcsf/classifier/PredictionLinearRLS.java:147-152 | every output's coefficients moved by its error against the buffered prediction |
| RLS.RankOneRow | src/main/java/xcsf/classifier/PredictionLinearRLS.java:157-164 | row i of `I - k·xᵀ` |
| RLS.RankOneMatrix | src/main/java/xcsf/classifier/PredictionLinearRLS.java:156-165 | the matrix `I - k·xᵀ` |
| RLS.DivideRow | src/main/java/xcsf/classifier/PredictionLinearRLS.java:170-173 | one row of the product divided by λ |
| RLS.DivideMatrix | src/main/java/xcsf/classifier/PredictionLinearRLS.java:169-174 | every entry of the product divided by λ |
| RLS.InitialGain | src/main/java/xcsf/classifier/PredictionLinearRLS.java:283-290 | s on the diagonal, 0 elsewhere |
| RLS.InitCoefficients | src/main/java/xcsf/classifier/PredictionLinearRLS.java:44-54 | the initial coefficients: the offset coefficient is the initial prediction when the offset value is positive, every other coefficient 0 |
| RLS.ResetDiagonal | src/main/java/xcsf/classifier/PredictionLinearRLS.java:274-278 | the scale factor is added to every diagonal entry and nothing else |
| RLS.AverageCoefficients | src/main/java/xcsf/classifier/PredictionLinearRLS.java:184-189 | both coefficient matrices become their element-wise average |
| RLS.Step | src/main/java/xcsf/classifier/PredictionLinearRLS.java:125-175 | one full step: the corrected coefficients and the new gain matrix, and when the buffered prediction is current every output's error on the input scaled by `λ / (λ + xᵀGx)` |
| LinearRLS.Extended | src/main/java/xcsf/classifier/PredictionLinearRLS.java:128-131 | the offset value followed by the input |
| LinearRLS.ExtendInput | src/main/java/xcsf/classifier/PredictionLinearRLS.java:128-131 | the extension loop yields the extended input |
| LinearRLS.LinearOutput | src/main/java/xcsf/classifier/PredictionLinearRLS.java:109-115 | one output: the coefficient row against the extended input |
| LinearRLS.PredictionLinearRLS.constructor | src/main/java/xcsf/classifier/PredictionLinearRLS.java:37-60 | `dimension + 1` coefficients per output, the offset coefficient set to the initial prediction when the offset value is positive and 0 otherwise, a diagonal gain matrix of the scale factor, a zero prediction buffer |
| LinearRLS.PredictionLinearRLS.Clone | src/main/java/xcsf/classifier/PredictionLinearRLS.java:197-213 | the copy `reproduce` builds: the given coefficients, a fresh diagonal gain matrix, a zero buffer |
| LinearRLS.PredictionLinearRLS.Predict | src/main/java/xcsf/classifier/PredictionLinearRLS.java:106-118 | the buffer becomes every output's coefficient row against the extended input, and is returned; coefficients and gain stay |
| LinearRLS.PredictionLinearRLS.Update | src/main/java/xcsf/classifier/PredictionLinearRLS.java:125-175 | one RLS step on the extended input with the error read from the buffer: the corrected coefficients and the new gain matrix; when the buffer is the prediction of the current coefficients on that input, every output's error on it is scaled by `λ / (λ + xᵀGx)` |
| LinearRLS.PredictionLinearRLS.Crossover | src/main/java/xcsf/classifier/PredictionLinearRLS.java:182-190 | both coefficient matrices become their element-wise average; gain matrices and buffers stay |
| LinearRLS.PredictionLinearRLS.Reproduce | src/main/java/xcsf/classifier/PredictionLinearRLS.java:197-213 | a fresh predictor with equal coefficients, a fresh diagonal gain matrix and a zero buffer |
| LinearRLS.PredictionLinearRLS.ResetGainMatrix | src/main/java/xcsf/classifier/PredictionLinearRLS.java:274-278 | the scale factor is added to the gain diagonal; nothing else changes |
| QuadraticRLS.RowTerms | src/main/java/xcsf/classifier/PredictionQuadraticRLS.java:126-128 | row i of the pair terms has one entry per j from i to n - 1 |
| QuadraticRLS.Pairs | src/main/java/xcsf/classifier/PredictionQuadraticRLS.java:150-154 | the pair terms of the first i rows number `Σ_{k < i} (n - k)` |
| QuadraticRLS.Expand | src/main/java/xcsf/classifier/PredictionQuadraticRLS.java:141-154 | the expanded input has as many features as the constructor counts |
| QuadraticRLS.RowStartFormula | src/main/java/xcsf/classifier/PredictionQuadraticRLS.java:150-154 | the first i rows hold `i (2n - i + 1) / 2` pairs |
| QuadraticRLS.RowStartMonotone | src/main/java/xcsf/classifier/PredictionQuadraticRLS.java:150-154 | more rows hold more pairs |
| QuadraticRLS.FeatureCountMatches | src/main/java/xcsf/classifier/PredictionQuadraticRLS.java:43-45 | the constructor's count `1 + 2n + n(n-1)/2` is one offset, n linear terms and the n(n+1)/2 pairs `i <= j` |
| QuadraticRLS.DotPrefix | src/main/java/xcsf/classifier/PredictionQuadraticRLS.java:113-133 | the prediction reads only the features the input has |
| QuadraticRLS.DotAppend | src/main/java/xcsf/classifier/PredictionQuadraticRLS.java:122-128 | each term added to the running prediction extends the dot product by one feature |
| QuadraticRLS.Regroup | src/main/java/xcsf/classifier/PredictionQuadraticRLS.java:127-128 | `c·a·b`, as `predict` groups it, is `c·(a·b)` |
| QuadraticRLS.QuadraticOutput | src/main/java/xcsf/classifier/PredictionQuadraticRLS.java:115-130 | one output of `predict` is the coefficient row against the expanded input |
| QuadraticRLS.PairsOutput | src/main/java/xcsf/classifier/PredictionQuadraticRLS.java:125-130 | the pair loops continue the dot product over all pair features and leave the index behind them |
| QuadraticRLS.PairsStep | src/main/java/xcsf/classifier/PredictionQuadraticRLS.java:126-129 | one row of the pairs keeps the running index and sum in step with the expansion |
| QuadraticRLS.LinearOutput | src/main/java/xcsf/classifier/PredictionQuadraticRLS.java:116-123 | the offset and linear part: the dot product with `[offset] + input`, the index at the first pair coefficient |
| QuadraticRLS.RowTermsStep | src/main/java/xcsf/classifier/PredictionQuadraticRLS.java:126-128 | one more column of a row appends `x_i·x_j` |
| QuadraticRLS.PairRow | src/main/java/xcsf/classifier/PredictionQuadraticRLS.java:126-129 | the inner loop adds row i of the pairs to the running prediction and index |
| QuadraticRLS.ExpandInput | src/main/java/xcsf/classifier/PredictionQuadraticRLS.java:141-154 | the expansion loops of `update` yield the expanded input |
| QuadraticRLS.PredictionQuadraticRLS.constructor | src/main/java/xcsf/classifier/PredictionQuadraticRLS.java:42-67 | `1 + 2n + n(n-1)/2` coefficients per output with the offset rule, a diagonal gain matrix of the scale factor, a zero buffer |
| QuadraticRLS.PredictionQuadraticRLS.Clone | src/main/java/xcsf/classifier/PredictionQuadraticRLS.java:221-237 | the copy `reproduce` builds: the given coefficients, a fresh diagonal gain matrix, a zero buffer |
| QuadraticRLS.PredictionQuadraticRLS.Predict | src/main/java/xcsf/classifier/PredictionQuadraticRLS.java:113-133 | the buffer becomes every output's coefficient row against the expansion of the input (as many features as that input has), and is returned |
| QuadraticRLS.PredictionQuadraticRLS.Update | src/main/java/xcsf/classifier/PredictionQuadraticRLS.java:140-199 | one RLS step on the expanded input with the error read from the buffer; when the buffer is current every output's error on it is scaled by `λ / (λ + xᵀGx)` |
| QuadraticRLS.PredictionQuadraticRLS.Crossover | src/main/java/xcsf/classifier/PredictionQuadraticRLS.java:206-214 | both coefficient matrices become their element-wise average; gain matrices and buffers stay |
| QuadraticRLS.PredictionQuadraticRLS.Reproduce | src/main/java/xcsf/classifier/PredictionQuadraticRLS.java:221-237 | a fresh predictor with equal coefficients, a fresh diagonal gain matrix and a zero buffer |
| QuadraticRLS.PredictionQuadraticRLS.ResetGainMatrix | src/main/java/xcsf/classifier/PredictionQuadraticRLS.java:280-284 | the scale factor is added to the gain diagonal; nothing else changes |
| XCSFUtils.Flip | src/main/java/xcsf/XCSFUtils.java:87-91 | the two arrays exchange their entries at `position`; every other entry of both stays |
| XCSFUtils.ArrayEqualsSpec | src/main/java/xcsf/XCSFUtils.java:111-123 | the same reference (both null included) is equal; exactly one null is unequal; arrays of one length are equal exactly when their contents are; a second array shorter than the first throws IndexOutOfBounds exactly when it agrees with the first on its whole length |
| XCSFUtils.ValuesEqualSameLength | src/main/java/xcsf/XCSFUtils.java:117-122 | on equal lengths the element loop answers exactly whether the contents are equal |
| XCSFUtils.ValuesEqualCases | src/main/java/xcsf/XCSFUtils.java:117-122 | the loop answers true exactly when the first array is a prefix of the second, and throws exactly when the second is a proper prefix of the first |
| XCSFUtils.Put | src/main/java/xcsf/XCSFUtils.java:273-278 | one slot of the three parallel arrays is overwritten together, the others stay |
| XCSFUtils.Swap | src/main/java/xcsf/XCSFUtils.java:285-293 | the three parallel arrays exchange two slots together, nothing else changes |
| XCSFUtils.PrefixCountIsFirstReach | src/main/java/xcsf/XCSFUtils.java:203-210 | for a positive `num` the count of the final loop is the shortest prefix whose numerosities reach `num` |
| XCSFUtils.PrefixCountMinimal | src/main/java/xcsf/XCSFUtils.java:203-210 | the final loop returns the smallest k >= 1 whose first k numerosities reach `num`, or `size` when none does |
| XCSFUtils.SumNumPerm | src/main/java/xcsf/XCSFUtils.java:232-315 | rearranging the slots keeps their total numerosity |
| XCSFUtils.FirstReachTruncate | src/main/java/xcsf/XCSFUtils.java:304-306 | when the left part already reaches `num`, the split point of the whole range is that of the left part |
| XCSFUtils.FirstReachShift | src/main/java/xcsf/XCSFUtils.java:311-313 | when the left part does not reach `num`, the split point lies behind it, found with what remains of `num` |
| XCSFUtils.MedianOfThree | src/main/java/xcsf/XCSFUtils.java:252-268 | the chosen position carries a vote between the other two |
| XCSFUtils.RandomPosition | src/main/java/xcsf/XCSFUtils.java:245-250 | `begin + (int) (uniRand() * (end + 1 - begin))` lies in [begin, end] |
| XCSFUtils.ChoosePivot | src/main/java/xcsf/XCSFUtils.java:240-279 | only the slots of [begin, end] are rearranged, and on a range of at most 21 slots nothing moves |
| XCSFUtils.PartitionStep | src/main/java/xcsf/XCSFUtils.java:283-296 | one exchange keeps the partition invariant: [begin, i) holds the votes at least the pivot, [i, j) the smaller ones, `numSize` the numerosity on the left |
| XCSFUtils.PartitionLoop | src/main/java/xcsf/XCSFUtils.java:280-297 | after the loop [begin, i) holds exactly the votes at least the pivot, [i, end) the smaller ones, the pivot is still at `end`, `numSize` is the numerosity of the left part and only [begin, end] was rearranged |
| XCSFUtils.PartitionTurn | src/main/java/xcsf/XCSFUtils.java:283-296 | one turn keeps the partition invariant one slot further on: a vote at least the pivot is exchanged into the left part and its numerosity counted, a smaller one stays in the right part |
| XCSFUtils.Partition | src/main/java/xcsf/XCSFUtils.java:240-303 | the pivot ends at `i` with every vote left of it at least the pivot and every vote right of it smaller; `numSize` is the left numerosity; only [begin, end] was rearranged |
| XCSFUtils.PartitionFinish | src/main/java/xcsf/XCSFUtils.java:298-303 | moving the pivot from `end` to `i` completes the partition and keeps the rearrangement inside [begin, end] |
| XCSFUtils.PutNumFirstRec | src/main/java/xcsf/XCSFUtils.java:232-315 | only [begin, end] is rearranged, and when its numerosities are positive the shortest prefix of the range reaching `num` holds votes at least every vote behind it |
| XCSFUtils.Descend | src/main/java/xcsf/XCSFUtils.java:304-314 | recursing into the left side, stopping at the pivot or recursing into the right side with the reduced `num` gives the same promise for the whole range |
| XCSFUtils.LeftCase | src/main/java/xcsf/XCSFUtils.java:304-306 | when the left part holds more than `num`, solving it solves the whole range |
| XCSFUtils.MiddleCase | src/main/java/xcsf/XCSFUtils.java:307-309 | when the left part with the pivot reaches `num`, the partitioned range is already solved |
| XCSFUtils.RightReach | src/main/java/xcsf/XCSFUtils.java:311-313 | the split point of the whole range is the left part and the pivot plus the split point of the right part for the reduced `num` |
| XCSFUtils.RightCase | src/main/java/xcsf/XCSFUtils.java:310-314 | when the left part with the pivot does not reach `num`, solving the right part for the reduced `num` solves the whole range |
| XCSFUtils.PutNumFirstObjectsFirst | src/main/java/xcsf/XCSFUtils.java:200-211 | the slots [0, size) are rearranged (votes, numerosities and objects together) and nothing beyond them; the result is the length of the shortest prefix whose numerosities reach `num`, or `size`; for a positive `num` and positive numerosities every vote in that prefix is at least every vote behind it |
| XCSFUtils.CountToReach | src/main/java/xcsf/XCSFUtils.java:202-210 | the summing loop stops at the shortest prefix whose numerosities reach `num` and returns its length, or the whole size when none does |
| FileIO.TrimUntouched | src/main/java/xcsf/XCSFUtils.java:800 | `trim` leaves a string alone whose first and last characters are above U+0020 |
| FileIO.TrimLeadingSpace | src/main/java/xcsf/XCSFUtils.java:808 | `trim` removes the blank `Arrays.toString` puts before every element after the first |
| FileIO.Substring | src/main/java/xcsf/XCSFUtils.java:802 | `substring(begin, end)` succeeds exactly when 0 <= begin <= end <= length and yields that slice; otherwise StringIndexOutOfBounds |
| FileIO.SplitAll | src/main/java/xcsf/XCSFUtils.java:804 | a split keeps at least one piece |
| FileIO.JoinSplitAll | src/main/java/xcsf/XCSFUtils.java:804 | the pieces of a split hold no delimiter and joining them with it restores the string |
| FileIO.SplitAllNoDelimiter | src/main/java/xcsf/XCSFUtils.java:804 | a string without the delimiter is one piece |
| FileIO.SplitAllCons | src/main/java/xcsf/XCSFUtils.java:804 | the split of a delimiter-free piece, the delimiter and a rest is that piece followed by the split of the rest |
| FileIO.SplitAllJoin | src/main/java/xcsf/XCSFUtils.java:804 | splitting a join at a delimiter no part holds gives the parts back |
| FileIO.JavaSplitJoin | src/main/java/xcsf/XCSFUtils.java:804 | `String.split` undoes such a join when the last part is not empty |
| FileIO.DropTrailingEmpty | src/main/java/xcsf/XCSFUtils.java:804 | `split` with limit 0 keeps a prefix of the pieces, drops only empty ones and ends with a non-empty piece (or none) |
| FileIO.JavaSplit | src/main/java/xcsf/XCSFUtils.java:804 | a string without the delimiter splits into itself alone |
| FileIO.RemoveWhitespaceConcat | src/main/java/xcsf/XCSFUtils.java:836 | `replaceAll("\\s+", "")` distributes over concatenation |
| FileIO.RemoveWhitespaceNone | src/main/java/xcsf/XCSFUtils.java:836 | a string without white space is left as it is |
| FileIO.ReplaceRowSeparatorPrefix | src/main/java/xcsf/XCSFUtils.java:836 | the `],` to `];` replacement leaves a front without `]` untouched |
| FileIO.ParseFields | src/main/java/xcsf/XCSFUtils.java:806-809 | on success one number per field, each what `parseDouble` makes of the trimmed field; a failure is NumberFormat |
| FileIO.ParseFieldsFailsAt | src/main/java/xcsf/XCSFUtils.java:807-809 | one field `parseDouble` rejects makes the whole array fail with NumberFormat |
| FileIO.ParseFieldsAll | src/main/java/xcsf/XCSFUtils.java:807-809 | when every trimmed field parses, the array is exactly the parsed values in order |
| FileIO.ParseDoubleArray | src/main/java/xcsf/XCSFUtils.java:798-811 | the loop's result is the array the definition describes: trim, drop the brackets, split at commas, parse every trimmed field, with the first error reported |
| FileIO.ParseRows | src/main/java/xcsf/XCSFUtils.java:839-842 | on success there is one row per piece |
| FileIO.Parse2dDoubleArray | src/main/java/xcsf/XCSFUtils.java:833-844 | the loop's result is the matrix the definition describes: white space removed, `],` turned into `];`, the outer brackets dropped, split at `;`, each row parsed by `parseDoubleArray`, with the first error reported |
| FileIO.ParseRowsFailsAt | src/main/java/xcsf/XCSFUtils.java:840-842 | the first row that fails decides the error of the whole matrix |
| FileIO.FrontFails | src/main/java/xcsf/XCSFUtils.java:840-842 | a failure among the earlier rows is the failure of the whole |
| FileIO.LastFails | src/main/java/xcsf/XCSFUtils.java:840-842 | with the earlier rows parsed a failing last row decides the error |
| FileIO.ParseRowsAll | src/main/java/xcsf/XCSFUtils.java:840-842 | when every row parses the matrix is exactly the parsed rows in order |
| FileIO.LastParses | src/main/java/xcsf/XCSFUtils.java:840-842 | with the earlier rows parsed a parsed last row is appended |
| FileIO.PrintableChar | src/main/java/xcsf/XCSFUtils.java:785-797 | for element i of an array whose elements print back: its printed form is non-empty, parses back to the element, and holds no character `trim` removes and none of `,` `;` `]` |
| FileIO.Shows | src/main/java/xcsf/XCSFUtils.java:785-797 | one printed string per element, in order |
| FileIO.RowStrings | src/main/java/xcsf/XCSFUtils.java:813-832 | one printed row per row of the matrix, in order |
| FileIO.Spaced | src/main/java/xcsf/XCSFUtils.java:804 | the fields a comma split sees in `a, b, c`: the first as it is, every later one behind a blank |
| FileIO.SpacedTail | src/main/java/xcsf/XCSFUtils.java:804 | every field after the first carries a leading blank |
| FileIO.JoinCommaSpace | src/main/java/xcsf/XCSFUtils.java:804 | a join with `, ` is the join of the blank-prefixed fields with `,` |
| FileIO.JoinCons | src/main/java/xcsf/XCSFUtils.java:804 | a join of two or more parts is the first part, the separator and the join of the rest |
| FileIO.JoinSpacedHead | src/main/java/xcsf/XCSFUtils.java:804 | a blank before the first part comes out in front of the join |
| FileIO.SplitPrinted | src/main/java/xcsf/XCSFUtils.java:804 | for a non-empty array whose elements print back, the comma split of its printed inner part gives its printed elements, all but the first behind a blank |
| FileIO.ParsePrintedFields | src/main/java/xcsf/XCSFUtils.java:807-809 | every such field, trimmed, parses back to its element |
| FileIO.ParseArrayToString | src/main/java/xcsf/XCSFUtils.java:785-811 | `parseDoubleArray` inverts `Arrays.toString` on every non-empty array whose elements print back (`AllPrintBack`) |
| FileIO.RemoveWhitespaceJoin | src/main/java/xcsf/XCSFUtils.java:836 | white-space removal distributes over a join |
| FileIO.RemoveWhitespaceAll | src/main/java/xcsf/XCSFUtils.java:836 | each part with its white space removed, in order |
| FileIO.CompactRows | src/main/java/xcsf/XCSFUtils.java:836 | each row of `deepToString` once white space is gone, in order |
| FileIO.PrintedNoWhitespace | src/main/java/xcsf/XCSFUtils.java:836 | the printed elements of an array whose elements print back hold no white space |
| FileIO.CompactRowOf | src/main/java/xcsf/XCSFUtils.java:836 | a printed row without white space is its compact form `[a,b,...]` |
| FileIO.CompactRowsOf | src/main/java/xcsf/XCSFUtils.java:836 | a printed matrix without white space is the compact rows joined by `,` in brackets |
| FileIO.CompactRowShape | src/main/java/xcsf/XCSFUtils.java:836-838 | a compact row starts with `[`, ends with its only `]` and holds no `;` |
| FileIO.NoCharInJoin | src/main/java/xcsf/XCSFUtils.java:838 | a character in no part and not in the separator is not in the join |
| FileIO.ShowsNoChar | src/main/java/xcsf/XCSFUtils.java:836-838 | the printed elements of an array whose elements print back hold neither `]`, `;` nor `,` |
| FileIO.ReplaceCompactRows | src/main/java/xcsf/XCSFUtils.java:836 | the replacement turns exactly the row separators `],` into `];` |
| FileIO.Regroup | src/main/java/xcsf/XCSFUtils.java:836 | a row's closing bracket can be counted with the separator behind it |
| FileIO.RowSeparatorStep | src/main/java/xcsf/XCSFUtils.java:836 | one row separator `],` becomes `];` and the replacement goes on behind it |
| FileIO.ParseCompactRow | src/main/java/xcsf/XCSFUtils.java:841 | a compact non-empty row parses back to its numbers |
| FileIO.ParseMatrixToString | src/main/java/xcsf/XCSFUtils.java:813-844 | `parse2dDoubleArray` inverts `Arrays.deepToString` on every non-empty matrix of non-empty rows whose elements print back (`RowsPrintBack`) |
| FileIO.MatrixInner | src/main/java/xcsf/XCSFUtils.java:836-837 | between the outer brackets of a compacted, separator-replaced printed matrix lie its compact rows joined by `;` |
| FileIO.SamplePrintsBack | src/main/java/xcsf/XCSFUtils.java:785-797 | the sample printer prints 1.0 and 2.5 as `1.0` and `2.5`, which meet every requirement of `PrintsBack` |
| FileIO.ArrayRoundTripReachable | src/main/java/xcsf/XCSFUtils.java:785-811 | the requirement of the array round trip can be met: with the sample printer and parser [1.0, 2.5] prints back and `parseDoubleArray(Arrays.toString(...))` gives it back |
| FileIO.MatrixRoundTripReachable | src/main/java/xcsf/XCSFUtils.java:813-844 | the requirement of the matrix round trip can be met: with the sample printer and parser [[1.0], [2.5, 1.0]] prints back and `parse2dDoubleArray(Arrays.deepToString(...))` gives it back |
| FileIO.EmptyArrayRejected | src/main/java/xcsf/XCSFUtils.java:798-811 | `"[]"` leaves one empty field, which `parseDouble` rejects, so the empty array does not round-trip |
| FileIO.ShortInputRejected | src/main/java/xcsf/XCSFUtils.java:800-802 | a string shorter than two characters once trimmed fails in `substring` |
| RandomGen.JavaDiv | src/main/java/xcsf/XCSFUtils.java:931 | Java's `long` division by a positive divisor: Euclidean on non-negative dividends (truncation toward zero) |
| RandomGen.JavaRem | src/main/java/xcsf/XCSFUtils.java:932 | Java's `%` keeps `a == b * (a / b) + a % b` and agrees with the Euclidean remainder on non-negative dividends |
| RandomGen.QandR | src/main/java/xcsf/XCSFUtils.java:884-899 | the constants `_Q` and `_R` are `_M / _A` and `_M % _A`, so `_A·_Q + _R == _M` |
| RandomGen.AInverse | src/main/java/xcsf/XCSFUtils.java:884-889 | 16807 has the inverse 1407677000 modulo 2^31 - 1 |
| RandomGen.LehmerInverse | src/main/java/xcsf/XCSFUtils.java:930-941 | one step of the recurrence can be undone, so the generator never merges two seeds |
| RandomGen.LehmerNonZero | src/main/java/xcsf/XCSFUtils.java:930-941 | a seed in [1, 2^31 - 2] never steps to 0 |
| RandomGen.SchrageIsLehmer | src/main/java/xcsf/XCSFUtils.java:930-941 | Schrage's decomposition `hi`, `lo`, `test` computes exactly `16807 · seed mod (2^31 - 1)` without overflow and keeps the seed in [1, 2^31 - 2] |
| RandomGen.SchrageSplit | src/main/java/xcsf/XCSFUtils.java:930-941 | for a seed in range, 16807 · seed is M times `hi` plus `test`, and `test` lies strictly between -M and M, so one correction by M suffices |
| RandomGen.ZeroSeedIsStuck | src/main/java/xcsf/XCSFConstants.java:42 | seed 0 steps to 2^31 - 1 and stays there, so `uniRand` returns 1.0 forever |
| RandomGen.Random.constructor | src/main/java/xcsf/XCSFUtils.java:904 | the generator starts at seed 101 |
| RandomGen.Random.SetSeed | src/main/java/xcsf/XCSFUtils.java:912-914 | the seed becomes the given value |
| RandomGen.Random.GetSeed | src/main/java/xcsf/XCSFUtils.java:921-923 | the current seed |
| RandomGen.Random.UniRand | src/main/java/xcsf/XCSFUtils.java:930-941 | the seed takes one Schrage step and the result is the new seed over 2^31 - 1; from a seed in range that step is the Lehmer recurrence, the seed stays in range and the result lies strictly between 0 and 1 |
| States.StateDescriptor.ToString | src/main/java/xcsf/StateDescriptor.java:99-108 | one input printed when the descriptor uses the same input for matching and prediction, both inputs otherwise, then the output |
| States.FromInput | src/main/java/xcsf/StateDescriptor.java:29-32 | matching and prediction read the one given input, the output is the given one, and the descriptor is flagged `sameInput` |
| States.FromInputs | src/main/java/xcsf/StateDescriptor.java:45-51 | the three arrays as given, and the descriptor is not flagged `sameInput`, even for equal inputs |
| States.ConstructorsDiffer | src/main/java/xcsf/StateDescriptor.java:29-51 | the two constructors on the same arrays differ only in the flag |
| States.ToStringShowsKind | src/main/java/xcsf/StateDescriptor.java:99-108 | the printed form tells the two kinds of descriptor apart |
| XCSFConstants.Defaults | src/main/java/xcsf/XCSFConstants.java:31-244 | the shipped settings: capacity 6400, `theta_sub` and `theta_del` 20, selection type 0.4, adaptive threading threshold -1 |
| XCSFConstants.DefaultsSane | src/main/java/xcsf/XCSFConstants.java:80-244 | the shipped settings satisfy what the model relies on: positive minimal stretch, a covering range, learning rates in (0, 1], a positive capacity and error threshold |

## Left out

- Populations.DeleteWorstClassifiers: the Java loop redraws until `number` micro-classifiers are gone and has no bound of its own. The model allows at most `fuel` draws and returns `exhausted` when they run out. It promises exactly `number` deletions only when not `exhausted`; otherwise it promises fewer.
- Classifiers.Classifier.DeletionVote: requires `VoteDefined`: a non-zero numerosity, and a non-zero fitness only for an experienced classifier whose micro-fitness is below `delta·meanFitness`. That is the one branch that divides by the micro-fitness; Java would return Infinity there. In every other case the vote is the finite estimate times numerosity, and the model gives it.
- Populations.DeleteWorstClassifiers: requires `VoteDefined` of every classifier under the population's mean fitness, as do `Populations.DeletionWheel`, `Populations.BuildWheel` and `Populations.Votes`. Its callers (covering and insertion) keep the stronger population invariant `Living`, which asks every classifier for a non-zero fitness. In the source a fitness starts at the configured initial fitness and moves only toward positive shares of the accuracy sum, so with a positive initial fitness it does not reach 0; the model assumes this rather than proving it.
- MatchSets.MatchSet.UpdateClassifiers, MatchSets.RefitPass, MatchSets.RefitLoop and MatchSets.RefitMember: on a zero accuracy sum every member still takes the set-size step of `update2`, but its fitness is kept. Java divides by the zero sum there and stores Infinity or NaN as the fitness. The model states accuracy through an uninterpreted `pow`, so it cannot rule a zero sum out.
- EvolutionaryComps.EvolutionaryComp.Evolve and EvolutionaryComps.Generation: they place the offspring through the corrected `EvolutionaryComps.GuardedInsertion`. Java `evolve` (EvolutionaryComp.java:97) calls `insertion` as written. So their exact accounting of the total numerosity is that of the corrected program. On the as-written path an offspring credited to a classifier that the deletion has just removed is lost (`EvolutionaryComps.StrayIsLost`); `EvolutionaryComps.Insertion` counts such offspring as `strays`.
- Populations.SortForCompaction: the sort is stable, like the object sort of `Arrays.sort`, because `InsertByKey` places a classifier after every equal key. The contract does not state it: it promises the permutation and the order of the keys, not the order among classifiers of equal key.
- MatchSets.CoverAccount, MatchSets.MatchSet.EnsureStateCoverage, MatchSets.AddCovering, EvolutionaryComps.Insertion, EvolutionaryComps.GuardedInsertion, EvolutionaryComps.Generation, EvolutionaryComps.EvolutionaryComp.Evolve, MatchSets.AppendIfRoom and EvolutionaryComps.AppendIfFree: these rely on the bounded deletion above. They promise the population stays within `maxPopSize`, and that every covering classifier or offspring lands, only when the deletion removed all it was asked to. The Java deletion never stops early; it redraws without bound. In the model, a covering classifier or offspring that finds no free slot after an exhausted deletion is counted in `dropped` and not stored.
- EvolutionaryComps.SelectClassifierTS: the Java tournament repeats whole passes until some classifier enters. With `selectionType` at or below 0 it never ends; between 0 and 1 it ends only with probability 1. The model allows at most `fuel` passes and returns `None` when none entered. A winner is promised whenever `selectionType >= 1`, `fuel >= 1` and the match set is non-empty.
- EvolutionaryComps.Selection: exactly two parents are promised only under `SelectionCompletes` (roulette, or tournament with `selectionType >= 1` and `fuel >= 1`). Otherwise it may return fewer. `Breed` and `Descend` then reproduce only the parents they have: one offspring per parent. Crossover needs two offspring, so a lone offspring is only mutated.
- ClassifierSets.ClassifierSet.Add: requires `size` below the capacity. The Java store beyond the array throws `ArrayIndexOutOfBoundsException`, which is not modelled.
- ClassifierSets.ClassifierSet.Remove: reports `IndexOutOfBounds` for `remove(-1)` on an empty set. The Java code instead lowers the size to -1; see Findings.
- ClassifierSets.ClassifierSet.RemoveAll: requires distinct, non-negative indices. Java fails on those partway through its shifts, leaving a half-shifted array, and that state is not modelled.
- Classifiers.Classifier.Update1, LinearRLS.PredictionLinearRLS.Update and QuadraticRLS.PredictionQuadraticRLS.Update: require `lambdaRLS != 0` and a non-zero RLS divisor `lambda + x'Gx`. Java would fill the gain matrix with Infinity or NaN.
- Classifiers.Classifier.Update2: requires a non-zero accuracy sum and an experienced classifier (`experience != 0`). Java divides by both. `Classifiers.Classifier.MoveSetSize` is its set-size half, which needs only the experience.
- EvolutionaryComps.EvolutionaryComp.Evolve: requires a match set holding at least one micro-classifier. The mean timestamp divides by the numerosity sum.
- FileIO.ParseArrayToString and FileIO.ParseMatrixToString: the round trips are stated for the elements that `show` prints back (`PrintsBack`: a non-empty string without white space, control characters, `,` `;` or `]`, that `parse` reads as the same number). `Double.toString` and `Double.parseDouble` are parameters here, so that every finite double prints back under Java is the library's guarantee, not something this model proves; `ArrayRoundTripReachable` and `MatrixRoundTripReachable` show a printer and parser that meet the requirement.
- Doubles are modelled as mathematical reals: there is no rounding, NaN or Infinity. `exp` and `pow` are function-valued fields of the parameter record and are left uninterpreted. So activities and accuracies are stated through them, not computed.
- The `sin`/`cos` construction of the rotation transforms (`setTransform`, `setInverseTransform`) is an opaque function of the angles. The transform-inverse identity is not modelled; only the shapes and the recomputation bookkeeping are.
- The `getVolume` of the axis-aligned and the rotating ellipsoid is not modelled, because it needs π and `pow`. The rectangle volumes are modelled.
- Classifiers.Classifier: the classifier fixes its condition to `ConditionRectangle` and its prediction to `PredictionLinearRLS`. The Java code picks both by reflection. The other condition and prediction kinds are modelled on their own.
- MatchSets: the worker threads, `CyclicBarrier` awaits, the synchronized append and `interrupt`/`join` are not modelled; only the disjoint stride index sets of the parallel scan are. `System.nanoTime` readings enter `Match` as the `elapsed` input.
- `getWeightedPrediction`, `normRand`, the RLS convergence behaviour, the CSV and file routines, `Gnuplot`, every `write` method, `Population.writePopulation`/`parse`, reflection (`loadConstructor`, `XCSFConstants.load`/`setValue`), the `XCSF` driver, `PerformanceEvaluator`, `Function` and the listeners are outside this model.
- The process-wide static scratch arrays of the Java classes are local variables in the model.
- RandomGen.Random: the generator is valid only for seeds in [1, 2^31 - 2]. Seed 0 makes it return 1.0 forever (`RandomGen.ZeroSeedIsStuck`); the model requires a valid seed instead.

## Findings

| source | as written | input that shows it | evidently intended | confidence | as-written member | corrected member |
|---|---|---|---|---|---|---|
| src/main/java/xcsf/ClassifierSet.java:124-133 | `rangeCheck` rejects only `index >= size`, and `numMoved = size - index - 1` is 0 for index -1 | `remove(-1)` on an empty set: no exception, and `size` becomes -1 | every index outside `[0, size)` is rejected and the set is unchanged | high, not executed | ClassifierSets.RemoveMinusOneOnEmpty | ClassifierSets.ClassifierSet.Remove |
| src/main/java/xcsf/EvolutionaryComp.java:170-190 | `insertion` deletes first and then places the offspring. A subsuming parent (line 214) or a subsuming or identical match-set member (lines 222-228, 258) is credited even if the deletion has just removed it from the population. | a full population in which deletion takes the last micro-classifier of a parent that then subsumes the offspring: the offspring's unit goes to a classifier outside the population, which loses a micro-classifier overall | each offspring adds exactly one micro-classifier to the population | medium, not executed | EvolutionaryComps.StrayIsLost | EvolutionaryComps.GuardedInsertion |
