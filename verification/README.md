# Foam cut optimizer — a Dafny model of the packing core

The foam cut optimizer is a web tool. It takes a list of foam pieces (length,
width, height, quantity) and a list of stock foam blocks. It decides how to
cut the pieces out of the blocks. This project models the engines that make
that decision, and the quantity helpers of the form that feeds them, as pure
Dafny functions and small methods. It proves what their code promises.

The modules follow the program's files:

| module | models |
|---|---|
| `Foam` | the piece and stock records, `expandPieces` (one instance per unit, id `<id>_<i>`), lookups by id, the centimetre→millimetre conversion |
| `Sorting` | `Array.prototype.sort` with a comparator (an insertion sort), the "first maximum" a `reduce` keeps, sums |
| `Geometry` | boxes and the overlap test, the rotation tables of the greedy packer and of the annealer |
| `GreedyPacker` | `optimizationEngine.ts`: the bottom-left-front 3D bin packer and its `optimize` loop |
| `Guillotine` | `guillotineCuttingEngine.ts`: the row-by-row shelf layout with straight cuts, the block loops, the cutting instructions |
| `Assignments` | what the genetic algorithm and the annealer share: piece-to-stock assignments and the random draws that place them |
| `Grouping` | the `Map` that groups assignments by stock type, in first-seen stock order |
| `Layouts` | the layout objects both engines report, their volumes and efficiency, the overlap and bounds counters |
| `Genetic` | `geneticAlgorithm.ts`: population, fitness, tournament, crossover, mutation, elitism and the generation loop |
| `AnnealingState` | `simulatedAnnealing.ts`: solutions, energy with overlap and bounds penalties, the initial solution, the four neighbour moves |
| `Annealing` | `simulatedAnnealing.ts`: the cooling loop, its statistics and the result |
| `AnnealingLeak` | `simulatedAnnealing.ts`: a concrete rejected nudge that still changes the current solution as written |
| `Orchestrator` | `advancedOptimizationEngine.ts`: multi-run comparison and ranking, convergence analysis, hybrid, pairwise and adaptive strategies |
| `Quantities` | `FoamCutOptimizer.tsx`: `calculateMaxQuantity`, `maximizeAllPieces`, `optimizeWaste` |

Every `Math.random()` draw is a parameter: a real `u` with `0 <= u < 1`, so an index is
`Floor(u * n)`. The annealer's Metropolis test takes the outcome of `Math.random() < exp(-dE/T)`
as a given boolean. Numbers are Dafny `real`s, and the model does not round them.

## Model

| member | source | states |
|---|---|---|
| Foam.ExpandUnits | src/utils/optimizationEngine.ts:263-269 | unit `k` of a piece is the piece itself with identifier `<id>_<from+k>` and quantity 1, and there are `quantity - from` of them |
| Foam.ExpandPieces | src/utils/optimizationEngine.ts:259-273 | the expansion has as many instances as the quantities add up to, each of quantity 1, and positive extents stay positive |
| Foam.ExpandedAreUnits | src/utils/optimizationEngine.ts:259-273 | every instance is a unit of some input piece: same extents, caption and color, numbered below that piece's quantity |
| Foam.ExpandedIdsUnique | src/utils/optimizationEngine.ts:262-270 | pieces with distinct identifiers that contain no underscore expand into instances with pairwise distinct identifiers |
| Foam.InstanceIdInjective | src/utils/optimizationEngine.ts:266 | `<a>_<i>` determines both `a` and `i` when `a` and `b` have no underscore |
| Foam.NatToString | src/utils/optimizationEngine.ts:266 | a template literal renders a unit number as a non-empty string of decimal digits |
| Foam.ParseNatToString | src/utils/optimizationEngine.ts:266 | reading the rendered digits back gives the unit number: the rendering loses nothing |
| Foam.NatToStringInjective | src/utils/optimizationEngine.ts:266 | different unit numbers render differently |
| Foam.FindBy | src/utils/simulatedAnnealing.ts:203 | `find` by a key returns the first element whose key is the identifier, or nothing exactly when no element has it |
| Foam.FindStock | src/utils/simulatedAnnealing.ts:293 | `find` by identifier returns a stock from the list with that identifier, or nothing when no stock has it |
| Foam.FindPiece | src/utils/simulatedAnnealing.ts:203 | `find` by identifier returns an instance from the list with that identifier, or nothing when none has it |
| Foam.FindPieceIndex | src/components/FoamCutOptimizer.tsx:248 | `findIndex` returns the first position holding the identifier, or -1 exactly when no piece has it |
| Foam.PiecesToMillimetres | src/components/FoamCutOptimizer.tsx:314-319 | every piece keeps identifier, quantity, caption and color, gains a thousandfold volume, and converts back to itself |
| Foam.StocksToMillimetres | src/components/FoamCutOptimizer.tsx:321-326 | every stock keeps identifier, quantity, caption and price, gains a thousandfold volume, and converts back to itself |
| Sorting.SortBy | src/utils/optimizationEngine.ts:201-205 | a comparator sort returns a permutation of its input, ordered whenever the comparator is a total preorder |
| Sorting.InsertSorted | src/utils/optimizationEngine.ts:201-205 | inserting into an ordered sequence under a total preorder keeps it ordered |
| Sorting.SortAscending | src/utils/guillotineCuttingEngine.ts:254-255 | `sort((a, b) => a - b)` returns a permutation in ascending order, strictly ascending when the input had no repeats |
| Sorting.ArgMaxFirst | src/utils/geneticAlgorithm.ts:278-282 | the element `reduce` keeps when it replaces only on a strict increase: a maximum, and the first one |
| Sorting.ArgMinFirst | src/components/FoamCutOptimizer.tsx:967-970 | the element `reduce` keeps when it replaces only on a strict decrease: a minimum, and the first one |
| Sorting.SumBounds | src/utils/advancedOptimizationEngine.ts:375 | a sum of `n` values between `lo` and `hi` lies between `n*lo` and `n*hi` |
| Geometry.OverlapSymmetric | src/utils/optimizationEngine.ts:112-119 | the overlap test does not depend on the order of the two boxes |
| Geometry.FaceContactIsNotOverlap | src/utils/optimizationEngine.ts:116-118 | boxes that only touch at a face do not overlap |
| Geometry.OverlapIffSharedPoint | src/utils/optimizationEngine.ts:112-119 | for boxes with volume, the test is true exactly when some point lies inside both |
| Geometry.PermutationVolume | src/utils/optimizationEngine.ts:71-78 | reordering a piece's extents keeps its volume |
| Geometry.PackerRotationTable | src/utils/optimizationEngine.ts:71-78 | the seven listed orientations are numbered 0-6, each a reordering of the extents, the first the original, and entry 6 repeats entry 3 |
| Geometry.KeepFirstDims | src/utils/optimizationEngine.ts:79-86 | the filter keeps, in order, exactly the entries whose extents no earlier entry has; survivors have pairwise different extents; it drops something whenever some entry repeats |
| Geometry.PackerRotations | src/utils/optimizationEngine.ts:69-87 | `getRotations` gives one to six orientations with pairwise different extents, the original first, each a reordering of the piece |
| Geometry.PackerRotationsCover | src/utils/optimizationEngine.ts:79-86 | every listed orientation has a survivor with the same extents, so filtering loses no shape |
| Geometry.AnnealingTable | src/utils/simulatedAnnealing.ts:363-385 | the annealer lists eight orientations, each a reordering of the extents, entries 6 and 7 repeating 3 and 4 |
| Geometry.RotatedDimensions | src/utils/simulatedAnnealing.ts:363-385 | the rotated extents reorder the piece's, keep its volume, and rotation 0 (mod 8) is the identity |
| Geometry.AnnealingTableComplete | src/utils/simulatedAnnealing.ts:363-385 | every reordering of the three extents is reached by some rotation below 6 |
| GreedyPacker.OverlapsAny | src/utils/optimizationEngine.ts:100-107 | the loop over the placed pieces finds an overlap exactly when some placed box overlaps |
| GreedyPacker.CanFit | src/utils/optimizationEngine.ts:89-110 | a piece fits when its far faces stay within the stock and it overlaps no placed box; there is no lower-bound check |
| GreedyPacker.PointLeTotalPreorder | src/utils/optimizationEngine.ts:154-158 | the `(z, y, x)` comparator is total and transitive, so the sort is well defined |
| GreedyPacker.AllFaceAnchorsAt | src/utils/optimizationEngine.ts:145-151 | anchors come three per placed box, in placement order: right, behind and above it |
| GreedyPacker.AllFaceAnchorsNonNegative | src/utils/optimizationEngine.ts:145-151 | boxes at non-negative coordinates with non-negative extents give anchors at non-negative coordinates |
| GreedyPacker.CandidatePositions | src/utils/optimizationEngine.ts:138-159 | the candidates are the origin plus the anchors, permuted into bottom-left-front order; one plus three per box |
| GreedyPacker.CandidatesNonNegative | src/utils/optimizationEngine.ts:138-159 | with non-negative placements, every candidate lies at non-negative coordinates |
| GreedyPacker.FirstRotation | src/utils/optimizationEngine.ts:128-132 | the inner loop returns the first rotation that fits, or none when none from that index fits |
| GreedyPacker.FirstFitFrom | src/utils/optimizationEngine.ts:127-133 | the outer loop returns the first position with a fitting rotation and that rotation; every earlier pair fails |
| GreedyPacker.FindBestPosition | src/utils/optimizationEngine.ts:121-136 | a returned fit uses a candidate position and one of the piece's rotations and passes `canFit`; null means no pair fits |
| GreedyPacker.FindBestPositionIsFirst | src/utils/optimizationEngine.ts:121-136 | a returned fit is the first pair in loop order: every earlier (position, rotation) pair fails `canFit` |
| GreedyPacker.AddPiece | src/utils/optimizationEngine.ts:161-176 | `addPiece` succeeds exactly when `canFit` does; it appends the rotated box on success and changes nothing on failure |
| GreedyPacker.AddPiecePreservesValid | src/utils/optimizationEngine.ts:161-176 | adding at a non-negative position keeps every placed box inside the stock and the boxes pairwise non-overlapping |
| GreedyPacker.PlaceBestPreservesValid | src/utils/optimizationEngine.ts:219-222 | placing a piece where `findBestPosition` says always succeeds and keeps the packing valid |
| GreedyPacker.Utilization | src/utils/optimizationEngine.ts:178-183 | utilisation times the stock volume is a hundred times the placed volume; zero when nothing is placed, non-negative for a valid packing |
| GreedyPacker.VolumeDescendingTotalPreorder | src/utils/optimizationEngine.ts:201-205 | the larger-volume-first comparator is a valid comparator |
| GreedyPacker.SortedUnits | src/utils/optimizationEngine.ts:201-205 | the sorted instances are a permutation of the expansion in non-increasing volume |
| GreedyPacker.SpliceKeepsIds | src/utils/optimizationEngine.ts:222-223 | moving a piece from the remaining list into the packer keeps the combined identifiers |
| GreedyPacker.PackStock | src/utils/optimizationEngine.ts:217-228 | the inner loop only appends boxes, keeps the stock, and every piece ends up either placed or still remaining; pieces before the index stay |
| GreedyPacker.PackPiece | src/utils/optimizationEngine.ts:218-227 | one step of the inner loop: place at the best position and drop the piece from the list, or skip it |
| GreedyPacker.PackStockKeepsIds | src/utils/optimizationEngine.ts:217-228 | the identifiers placed plus those left equal those before the loop |
| GreedyPacker.PackStockLeavesSubset | src/utils/optimizationEngine.ts:217-228 | what remains after a block is a sub-multiset of what was there before |
| GreedyPacker.PackStockKeepsValid | src/utils/optimizationEngine.ts:217-228 | packing from non-negative pieces keeps the packing valid and the remaining pieces non-negative |
| GreedyPacker.FreshBlockValid | src/utils/optimizationEngine.ts:212-228 | a fresh block packed from non-negative pieces is a valid layout |
| GreedyPacker.BlockLayout | src/utils/optimizationEngine.ts:230-240 | the recorded layout names the stock and its boxes, and the used volume recovered from the utilisation is the placed volume |
| GreedyPacker.BlockUtilization | src/utils/optimizationEngine.ts:231-240 | `stockVolume * utilization / 100` gives back the placed volume |
| GreedyPacker.RecordKeepsInvariant | src/utils/optimizationEngine.ts:230-243 | recording a used block keeps the totals equal to the sums over the used stocks and the layouts in stock order |
| GreedyPacker.RecordKeepsValid | src/utils/optimizationEngine.ts:230-243 | recording a layout that fits its stock keeps every recorded layout fitting its stock |
| GreedyPacker.RecordBlock | src/utils/optimizationEngine.ts:230-243 | recording block `k` appends one layout of that stock with the placed boxes, and keeps the loop invariant and validity |
| GreedyPacker.TryStock | src/utils/optimizationEngine.ts:211-245 | one stock type adds at most one layout, keeps every instance either placed once or remaining, and only shrinks what remains |
| GreedyPacker.InitialRunFacts | src/utils/optimizationEngine.ts:201-207 | the loop starts from the sorted instances: the same identifiers as the expansion, non-negative when the pieces are positive |
| GreedyPacker.Finish | src/utils/optimizationEngine.ts:248-256 | waste is the complement of efficiency; efficiency is used over stock volume in percent, or 0 when no stock was used |
| GreedyPacker.OptimizeRun | src/utils/optimizationEngine.ts:191-246 | the outer loop uses each stock type at most once, and every instance is placed exactly once or left over |
| GreedyPacker.Optimize | src/utils/optimizationEngine.ts:191-257 | at most one layout per stock type, none empty, each naming a given stock and fitting it; placed identifiers are a sub-multiset of the expansion; waste is 100 minus efficiency; the total cost is the sum of the prices of the stock entries used, and efficiency times their volume is a hundred times the volume placed in them |
| Guillotine.FirstOrientation | src/utils/guillotineCuttingEngine.ts:158-193 | the loop takes the first orientation that fits at the cursor, or none exactly when neither fits |
| Guillotine.AddCut | src/utils/guillotineCuttingEngine.ts:173-187 | a cut is appended only if it lies short of the far edge and is new; the list stays duplicate-free |
| Guillotine.PlaceAtCursor | src/utils/guillotineCuttingEngine.ts:163-191 | the piece is placed at the cursor, the cursor moves right by its width in the same row, and the row height becomes the larger of the old row height and the piece's height |
| Guillotine.NewRow | src/utils/guillotineCuttingEngine.ts:198-202 | a new row starts at the left edge, directly below the current row (its top is the old top plus the row height), with no height |
| Guillotine.PlaceAtCursorKeepsRowHeight | src/utils/guillotineCuttingEngine.ts:189-190 | a placement keeps the row height equal to zero or to the height of a piece in the cursor's row |
| Guillotine.PlacePieceKeepsRowHeight | src/utils/guillotineCuttingEngine.ts:150-240 | placing a piece, with or without a new row, keeps the row height attained by a piece of the current row |
| Guillotine.LayoutLoopKeepsRowHeight | src/utils/guillotineCuttingEngine.ts:150-240 | the piece loop keeps the row height attained by a piece of the current row |
| Guillotine.RowHeightIsTallest | src/utils/guillotineCuttingEngine.ts:145-240 | from a fresh block, `rowHeight` is the height of the tallest piece in the cursor's row, and 0 while that row is empty |
| Guillotine.PlacePiece | src/utils/guillotineCuttingEngine.ts:150-240 | a piece is placed once, in one of its two orientations, and fails exactly when neither fits in the current row nor, if the row is non-empty, in a new row |
| Guillotine.LayoutLoop | src/utils/guillotineCuttingEngine.ts:150-246 | the loop places a prefix of the sorted pieces and stops at the first piece that fits nowhere |
| Guillotine.LayoutLoopPlacedFrom | src/utils/guillotineCuttingEngine.ts:150-246 | the k-th placed footprint is the k-th sorted piece in one of its two orientations |
| Guillotine.PlaceAtCursorKeepsValid | src/utils/guillotineCuttingEngine.ts:160-191 | a placement that passes the fit test keeps every footprint inside the block, behind the cursor, and pairwise disjoint |
| Guillotine.NewRowKeepsValid | src/utils/guillotineCuttingEngine.ts:198-202 | starting a new row keeps the sheet valid |
| Guillotine.PlacePieceKeepsValid | src/utils/guillotineCuttingEngine.ts:150-240 | placing a piece keeps the sheet valid |
| Guillotine.LayoutLoopKeepsValid | src/utils/guillotineCuttingEngine.ts:150-246 | the whole loop keeps the sheet valid |
| Guillotine.PlaceAtCursorKeepsCuts | src/utils/guillotineCuttingEngine.ts:173-187 | the cut lists hold exactly the interior right and bottom edges of the placed footprints, with no repeats |
| Guillotine.LayoutLoopKeepsCuts | src/utils/guillotineCuttingEngine.ts:150-246 | the cut lists record the interior edges throughout the loop |
| Guillotine.CutsInsideBlock | src/utils/guillotineCuttingEngine.ts:173-187 | with positive footprints inside the block, every cut lies strictly inside the block |
| Guillotine.AreaDescendingTotalPreorder | src/utils/guillotineCuttingEngine.ts:130-134 | the larger-area-first comparator is a valid comparator |
| Guillotine.SortByArea | src/utils/guillotineCuttingEngine.ts:130-134 | the pieces are permuted into non-increasing footprint area |
| Guillotine.SheetUtilization | src/utils/guillotineCuttingEngine.ts:249-251 | utilisation times the block's footprint area is a hundred times the used area |
| Guillotine.CreateLayout | src/utils/guillotineCuttingEngine.ts:128-258 | the layout names the stock, places no more pieces than were given, reports the area utilisation, and lists both cut sets strictly ascending; the input list comes back sorted |
| Guillotine.CreateLayoutPlacedFrom | src/utils/guillotineCuttingEngine.ts:150-246 | the layout's k-th footprint comes from the k-th sorted piece |
| Guillotine.CreateLayoutPrefix | src/utils/guillotineCuttingEngine.ts:242-245 | the layout stops at the first sorted piece that cannot be placed |
| Guillotine.CreateLayoutValid | src/utils/guillotineCuttingEngine.ts:150-246 | with non-negative pieces, every footprint lies inside the block and no two overlap |
| Guillotine.CreateLayoutCutsInside | src/utils/guillotineCuttingEngine.ts:173-187 | with positive pieces, every recorded cut lies strictly inside the block |
| Guillotine.RemovePlacedFilters | src/utils/guillotineCuttingEngine.ts:71-74 | the filter keeps exactly the pieces whose identifier was not placed |
| Guillotine.RemovePrefixIds | src/utils/guillotineCuttingEngine.ts:71-74 | with distinct identifiers, removing the identifiers of a placed prefix leaves exactly the rest of the list |
| Guillotine.LayOutBlock | src/utils/guillotineCuttingEngine.ts:66 | one call gives a layout whose pieces are a prefix of the re-sorted remaining list, placed validly when the pieces are non-negative |
| Guillotine.BlockKeepsIds | src/utils/guillotineCuttingEngine.ts:67-74 | moving the placed prefix into a new layout keeps every instance placed once or remaining |
| Guillotine.ReorderKeepsIds | src/utils/guillotineCuttingEngine.ts:130 | the in-place sort of the remaining list keeps every instance accounted for |
| Guillotine.BlockKeepsValid | src/utils/guillotineCuttingEngine.ts:67-68 | recording a fitting layout keeps every recorded layout fitting its stock |
| Guillotine.BlockKeepsInvariant | src/utils/guillotineCuttingEngine.ts:60-68 | recording a layout of the current stock type keeps the layouts in stock order |
| Guillotine.ExtendsTransitive | src/utils/guillotineCuttingEngine.ts:61-78 | two rounds of the block loop compose: the state after both still extends the state before |
| Guillotine.Block | src/utils/guillotineCuttingEngine.ts:62-77 | one block adds at most one layout, of this stock type, and keeps the identifiers and the validity of the state |
| Guillotine.PlacedBlockExtends | src/utils/guillotineCuttingEngine.ts:67-74 | recording a non-empty layout and filtering out its identifiers extends the state |
| Guillotine.ReorderExtends | src/utils/guillotineCuttingEngine.ts:66-67 | a block that places nothing still leaves the remaining list re-sorted, and the state extended |
| Guillotine.StockBlocks | src/utils/guillotineCuttingEngine.ts:61-78 | the inner loop uses at most `quantity` blocks of this stock type and extends the state |
| Guillotine.NextStockCounts | src/utils/guillotineCuttingEngine.ts:60-79 | after stock type `si`, only types up to `si` are used, each at most its quantity of times |
| Guillotine.CountAfterBlocks | src/utils/guillotineCuttingEngine.ts:61 | blocks of type `si` add only to the count of `si` |
| Guillotine.LayoutAll | src/utils/guillotineCuttingEngine.ts:57-79 | the two loops use every stock type at most its quantity of times, give layouts that fit their stock, and, for distinct piece identifiers without underscores, keep every instance placed once or remaining |
| Guillotine.EstimateCuttingTime | src/utils/guillotineCuttingEngine.ts:311-315 | the estimate is 15 seconds for every cut of every layout |
| Guillotine.TotalCuts | src/utils/guillotineCuttingEngine.ts:305-309 | the total is at least every layout's own cut count, and zero exactly when no layout has a cut |
| Guillotine.StockLabel | src/utils/guillotineCuttingEngine.ts:265-269 | the label is the stock's caption when found and non-empty, "Bilinmeyen" when the stock is unknown or its caption is empty |
| Guillotine.Instructions | src/utils/guillotineCuttingEngine.ts:263-293 | one instruction per layout, numbered from 1, phase 1 the horizontal and phase 2 the vertical cuts, 15 seconds per cut |
| Guillotine.SummaryTimeIsEstimate | src/utils/guillotineCuttingEngine.ts:295-301 | the summary's total time equals `estimateCuttingTime` and its cut count equals `calculateTotalCuts` |
| Guillotine.SumTimesIsEstimate | src/utils/guillotineCuttingEngine.ts:300 | adding the per-block times gives 15 seconds per cut overall |
| Guillotine.InstructionSummary | src/utils/guillotineCuttingEngine.ts:295-302 | the summary counts every block, reports the total cut count, and its time is the 15-seconds-per-cut estimate |
| Guillotine.OutputLayout | src/utils/guillotineCuttingEngine.ts:100-115 | the output layout scales every position by ten, keeps identifiers and rotation flags, and counts the cuts |
| Guillotine.Optimize | src/utils/guillotineCuttingEngine.ts:53-126 | every layout is non-empty and fits its stock, stock quantities are respected, for distinct piece identifiers without underscores each instance is placed at most once, waste is 100 minus efficiency, cost is 0, and the reported cutting time is 15 seconds per reported cut |
| Assignments.Index | src/utils/geneticAlgorithm.ts:125 | `Math.floor(Math.random() * n)` is a valid index for a non-empty collection, and the index whose share of the unit interval holds the draw |
| Assignments.Scale | src/utils/geneticAlgorithm.ts:131-133 | `Math.random() * extent` lies between 0 and the extent, whichever its sign |
| Assignments.Clamp | src/utils/geneticAlgorithm.ts:264-266 | `Math.max(0, Math.min(bound, v))` is 0 when the bound or the value is not positive, the bound when the value reaches a non-negative bound, and the value itself when it lies inside; so it is never negative and stays within a non-negative bound |
| Grouping.StockOrder | src/utils/geneticAlgorithm.ts:288-295 | the `Map`'s keys in insertion order: each stock identifier once, every assigned stock present, nothing else |
| Grouping.Members | src/utils/geneticAlgorithm.ts:297-303 | the pieces pushed onto one stock's entry: exactly the assignments to that stock, in their order |
| Grouping.GroupIndex | src/utils/geneticAlgorithm.ts:289 | `layoutMap.has` / `get`: the position of the group for a stock, or -1 when there is none |
| Grouping.GroupByStockShape | src/utils/geneticAlgorithm.ts:288-304 | the `forEach` gives no more groups than assignments, and no group is empty |
| Grouping.GroupByStockSpec | src/utils/geneticAlgorithm.ts:288-304 | the `forEach` building the map gives one group per stock in first-seen order, each holding exactly that stock's assignments |
| Grouping.GroupsDistinct | src/utils/geneticAlgorithm.ts:289-295 | no two groups have the same stock identifier, so no stock type gets two layouts |
| Grouping.GroupsHomogeneous | src/utils/geneticAlgorithm.ts:297 | a group holds only assignments to its own stock, all taken from the input |
| Grouping.GroupsCover | src/utils/geneticAlgorithm.ts:297-303 | every assignment lands in the group of its stock |
| Layouts.ToPieceOut | src/utils/geneticAlgorithm.ts:298-302 | the reported piece keeps the assignment's identifier, its position is the assignment's position in millimetres (dividing by ten gives it back), it is marked rotated exactly for a non-zero rotation, and the rotation number is kept exactly when asked for |
| Layouts.GroupUtilization | src/utils/geneticAlgorithm.ts:306-315 | utilisation times the stock volume is a hundred times the volume of the instances found; it stays 0 when the stock is unknown |
| Layouts.ToLayouts | src/utils/geneticAlgorithm.ts:284-318 | one layout per group, in group order, with the group's assignments converted one for one |
| Layouts.ToLayoutsScale | src/utils/simulatedAnnealing.ts:387-421 | every reported piece is some assignment to the layout's stock, converted to millimetres |
| Layouts.ToLayoutsConsistent | src/utils/geneticAlgorithm.ts:306-317 | every layout's utilisation was computed from its own pieces |
| Layouts.TotalsAreVolumes | src/utils/geneticAlgorithm.ts:325-338 | the metric loop's totals are the volumes of the known stocks and of the instances placed in them |
| Layouts.Efficiency | src/utils/geneticAlgorithm.ts:340 | efficiency is the used volume as a percentage of a positive stock volume, 0 without stock volume, and between 0 and 100 when the used volume fits |
| Layouts.CountPairsZero | src/utils/geneticAlgorithm.ts:346-368 | the pair count is zero exactly when no pair `i < j` is counted, and never exceeds the number of pairs |
| Layouts.CountWhere | src/utils/simulatedAnnealing.ts:343-361 | the `forEach` count is zero exactly when no element is counted, and at most the length |
| Genetic.EliteCount | src/utils/geneticAlgorithm.ts:180 | `Math.floor(50 * 0.2)` keeps ten elite individuals |
| Genetic.Fitness | src/utils/geneticAlgorithm.ts:159-174 | for consistent metrics the weighted fitness lies between 0 and 1 |
| Genetic.FeasibilityBonus | src/utils/geneticAlgorithm.ts:167-172 | a feasible layout scores exactly 0.1 more than the same layout marked infeasible |
| Genetic.FitnessMonotone | src/utils/geneticAlgorithm.ts:159-174 | more efficiency, and feasibility kept, never lower the fitness; strictly more efficiency raises it |
| Genetic.CheckOverlaps | src/utils/geneticAlgorithm.ts:346-368 | the count is zero exactly when no two pieces of the layout overlap with their unrotated extents |
| Genetic.FeasibleIffNoOverlap | src/utils/geneticAlgorithm.ts:325-338 | the feasibility flag is true exactly when no layout of a known stock has an overlapping pair |
| Genetic.CalculateMetrics | src/utils/geneticAlgorithm.ts:320-344 | waste is 100 minus efficiency, feasibility means no overlaps, and efficiency is the used share of the stock volume in percent, or 0 when no stock volume was counted |
| Genetic.MetricsAreVolumes | src/utils/geneticAlgorithm.ts:146-156 | for an individual's own layouts, efficiency is the placed instance volume over the volume of the stocks used |
| Genetic.Evaluate | src/utils/geneticAlgorithm.ts:147-155 | evaluation keeps the genes, records the metrics' efficiency and waste, and gives a fitness in `[0, 1]` for a consistent efficiency |
| Genetic.EvaluatePopulation | src/utils/geneticAlgorithm.ts:146-157 | every individual keeps its genes, is scored, and carries the efficiency of the layouts its genes give |
| Genetic.BestIndex | src/utils/geneticAlgorithm.ts:278-282 | `getBestIndividual` returns the first individual of greatest fitness |
| Genetic.Tournament | src/utils/geneticAlgorithm.ts:216-228 | the winner is one of the five drawn individuals, at least as fit as every other one and the first drawn with that fitness |
| Genetic.Crossover | src/utils/geneticAlgorithm.ts:230-248 | the offspring are unscored and hold the parents' genes between them; for equal-length parents each position takes one parent's gene in one child and the other's in the other |
| Genetic.MutateGeneSpec | src/utils/geneticAlgorithm.ts:254-272 | a mutated gene keeps piece and stock. With both found, a draw below 0.5 nudges the position into the stock for the unrotated piece, at most 10 from where it was along each axis it was already inside on; otherwise the rotation becomes the drawn number and the position is kept. With either missing, the gene is unchanged |
| Genetic.Mutate | src/utils/geneticAlgorithm.ts:250-276 | mutation keeps the gene count and the score fields (an individual without genes differs from the source, see below) |
| Genetic.MutateGene | src/utils/geneticAlgorithm.ts:254-272 | mutating a gene keeps its piece and stock identifiers |
| Genetic.MutateSpec | src/utils/geneticAlgorithm.ts:250-276 | mutation leaves every gene but the drawn one as it was, and changes the drawn one only as a gene mutation allows |
| Genetic.Broods | src/utils/geneticAlgorithm.ts:185-211 | one pair of offspring per round of draws |
| Genetic.Offspring | src/utils/geneticAlgorithm.ts:186-205 | without mutation the two children hold exactly the two tournament winners' genes between them; a child neither crossed nor mutated is its tournament winner; crossed children are unscored |
| Genetic.BreedRound | src/utils/geneticAlgorithm.ts:207-210 | a round adds both offspring, or only the first when that fills the population |
| Genetic.Breed | src/utils/geneticAlgorithm.ts:185-211 | the `while` loop extends the elite to exactly fifty individuals |
| Genetic.BreedGeneCount | src/utils/geneticAlgorithm.ts:185-211 | when every individual and every offspring has `n` genes, so does every individual of the new population (for `n = 0` see Genetic.Mutate below) |
| Genetic.SortByFitness | src/utils/geneticAlgorithm.ts:181 | the population sorted by fitness, fittest first, is a permutation of it |
| Genetic.SortedElites | src/utils/geneticAlgorithm.ts:180-182 | the first individuals of the sorted population are elite: sorted, drawn from the population, and none less fit than any individual left out |
| Genetic.Evolve | src/utils/geneticAlgorithm.ts:176-214 | the new population has fifty individuals and starts with the elite of the old one |
| Genetic.InitialGene | src/utils/geneticAlgorithm.ts:124-137 | a random gene names the piece, a rotation below 8, and a stock from the list with a position drawn between 0 and the stock's extent minus the piece's |
| Genetic.CreateInitialPopulation | src/utils/geneticAlgorithm.ts:112-144 | fifty unscored individuals, each with one gene per instance in expansion order |
| Genetic.LastTwenty | src/utils/geneticAlgorithm.ts:87 | `slice(-20)` is the last twenty records, or all of them when there are fewer |
| Genetic.Step | src/utils/geneticAlgorithm.ts:66-83 | a generation keeps fifty individuals, appends one record numbered by its generation, never lowers the best fitness, which stays above every record, and keeps the best individual measured: its efficiency is that of its genes' layouts |
| Genetic.Run | src/utils/geneticAlgorithm.ts:65-94 | the loop runs until a hundred generations or the first early stop, never lowering the best fitness, and keeps the best individual scored and measured |
| Genetic.Start | src/utils/geneticAlgorithm.ts:57-62 | before the loop the population has fifty evaluated individuals and the tracked best is a first fittest one of them, scored and measured |
| Genetic.Final | src/utils/geneticAlgorithm.ts:57-94 | after the loop the population is full, one to a hundred numbered records exist, fewer only after an early stop, and the best individual is scored, measured, above every record and at least as fit as the initial best |
| Genetic.MeasuredLayouts | src/utils/geneticAlgorithm.ts:321-345 | a measured individual's layouts each carry the utilization of their pieces, and its efficiency is their used volume as a percentage of their stock volume |
| Genetic.Optimize | src/utils/geneticAlgorithm.ts:53-110 | waste is 100 minus efficiency, cost is 0, between 1 and 100 generations are recorded, numbered from 0, and fewer than 100 only when the last twenty best fitnesses differed by less than 0.001; the layouts are those of the final best individual, which is at least as fit as the initial population's best and every recorded best; every layout's utilization comes from its pieces, and the efficiency is the used volume as a percentage of the stock volume of those layouts |
| AnnealingState.RotatedPiece | src/utils/simulatedAnnealing.ts:363-376 | the rotated extents reorder the instance's and keep its volume |
| AnnealingState.OverlapPenalty | src/utils/simulatedAnnealing.ts:316-341 | the penalty is zero exactly when no two pieces of the layout overlap with their rotated extents |
| AnnealingState.LayoutPenalties | src/utils/simulatedAnnealing.ts:292-303 | no layouts give no penalty, and the bounds penalty never exceeds the number of placed pieces |
| AnnealingState.BoundsViolation | src/utils/simulatedAnnealing.ts:343-361 | the count is at most the number of pieces, and zero exactly when none lies outside the stock |
| AnnealingState.NoPenaltiesIffClean | src/utils/simulatedAnnealing.ts:292-303 | both penalty totals are zero exactly when every layout of a known stock is free of overlaps and within bounds |
| AnnealingState.Energy | src/utils/simulatedAnnealing.ts:311 | the energy is at least the waste and equals it exactly when there is no penalty |
| AnnealingState.Evaluate | src/utils/simulatedAnnealing.ts:284-314 | evaluation keeps the placements, takes the efficiency from the placements' layouts, sets waste to 100 minus efficiency, and the energy equals the waste exactly when the layouts are clean |
| AnnealingState.SortByVolume | src/utils/simulatedAnnealing.ts:125-129 | the instances sorted by volume, largest first, are a permutation of them |
| AnnealingState.InitialPlacement | src/utils/simulatedAnnealing.ts:136-151 | the first rotation is taken at once: rotation 0 and a position between 0 and the free room along each axis |
| AnnealingState.InitialSolution | src/utils/simulatedAnnealing.ts:121-166 | the instance list comes back sorted by volume, largest first, as the in-place sort leaves it; every instance is placed once in that order, in the first stock with rotation 0 and its coordinates drawn within the free extent, or nothing is placed without stock; the solution is evaluated |
| AnnealingState.ClampInto | src/utils/simulatedAnnealing.ts:209-215 | the clamped coordinate lies in `[0, max(0, extent)]`; it is 0 for a coordinate not above 0, `max(0, extent)` for one at or above that, and the coordinate itself when it lies inside |
| AnnealingState.ClampOrdersAgree | src/utils/simulatedAnnealing.ts:213-240 | clamping max-of-min, as `movePiece` does, and min-of-max, as `rotatePiece` does, give the same value for every extent and coordinate |
| AnnealingState.MovePlacement | src/utils/simulatedAnnealing.ts:197-217 | a nudge keeps piece, stock and rotation; with stock and instance found, it ends where the rotated instance starts inside the stock, at most 15 from where it was along each axis it was already inside on; otherwise the placement is unchanged |
| AnnealingState.RotatePlacement | src/utils/simulatedAnnealing.ts:219-243 | a rotation sets the rotation to `floor(8u)` of its draw; with stock and instance found, each coordinate becomes 0 when it or the free extent for the new rotation is not positive, the free extent when it reaches it, and stays otherwise; without them the position is kept |
| AnnealingState.RestockPlacement | src/utils/simulatedAnnealing.ts:259-282 | piece and rotation are kept; when the instance is found and, rotated, fits the drawn stock, the placement moves to that stock at a position where the instance starts inside it; otherwise it is unchanged |
| AnnealingState.SwapPlacements | src/utils/simulatedAnnealing.ts:245-257 | two distinct placements exchange places and nothing else changes; fewer than two placements stay as they are |
| AnnealingState.NeighborPlacements | src/utils/simulatedAnnealing.ts:168-195 | the draw picks a nudge, rotation, swap or re-stocking; only the chosen placement changes, except for a swap, it changes as that move allows, and every instance keeps exactly one placement |
| AnnealingState.Neighbor | src/utils/simulatedAnnealing.ts:168-195 | the neighbour has the same instances placed, is evaluated, and its efficiency is that of its placements' layouts |
| AnnealingState.MeasuredLayouts | src/utils/simulatedAnnealing.ts:284-311 | a measured solution's layouts each carry the utilization of their pieces, and its efficiency is their used volume as a percentage of their stock volume |
| Annealing.AcceptanceRate | src/utils/simulatedAnnealing.ts:99 | the rate is the share of accepted moves, between 0 and 1 |
| Annealing.Step | src/utils/simulatedAnnealing.ts:64-101 | an improving neighbour is always accepted; a move is either accepted and counted or rejected and counted; the best only changes to a strictly lower energy; the instances placed stay the same; current and best stay measured |
| Annealing.StepInvariant | src/utils/simulatedAnnealing.ts:64-101 | a step keeps every move counted once as accepted or rejected, the temperature at `1000 · 0.99^iteration`, one cooling record per hundred iterations, and the best energy no higher than the current |
| Annealing.StepAsWritten | src/utils/simulatedAnnealing.ts:168-217 | as written, a nudge, rotation or re-stocking reaches the current placements even when the move is rejected, while the energy stays one of the two evaluated |
| Annealing.RejectedNudgeLeaks | src/utils/simulatedAnnealing.ts:197-217 | a rejected nudge that moves its placement leaves the current solution unchanged in `Step` but changed as written |
| AnnealingLeak.OverlapRaisesEnergy | src/utils/simulatedAnnealing.ts:284-340 | two 10 cm cubes in one 100 cm block have a higher energy when cube `b` at x = 5 overlaps cube `a` at x = 0 than when it lies apart at x = 20, with the same efficiency |
| AnnealingLeak.NudgeOntoCubeA | src/utils/simulatedAnnealing.ts:197-214 | the neighbour drawn with a nudge of the second placement and an x draw of 0 moves cube `b` from x = 20 by -15 to x = 5 |
| AnnealingLeak.RejectedNudgeAt | src/utils/simulatedAnnealing.ts:64-85 | in any context where the block and the two cubes are found, with a failed coin the intended step keeps the current solution, while the step as written leaves cube `b` at x = 5 |
| AnnealingLeak.RejectedNudgeExample | src/utils/simulatedAnnealing.ts:168-217 | the same rejected nudge for the concrete block and cubes: the step is drawable, `Step` keeps the current solution and `StepAsWritten` changes it |
| Annealing.Run | src/utils/simulatedAnnealing.ts:64-102 | the loop stops at the final temperature or after ten thousand iterations, never raises the best energy, keeps the instances placed, and keeps current and best measured |
| Annealing.RunInvariant | src/utils/simulatedAnnealing.ts:64-102 | the whole loop keeps the same four facts: moves counted, temperature cooled once per iteration, records logged every hundred iterations, best no worse than current |
| Annealing.Optimize | src/utils/simulatedAnnealing.ts:50-119 | waste is 100 minus efficiency and at most the initial energy, cost is 0, the final temperature is `1000 · 0.99^iterations`, the rate is a share, one cooling record is logged per hundred iterations; every layout's utilization comes from its pieces, and the efficiency is the used volume as a percentage of the stock volume of those layouts |
| Orchestrator.GeneticSummary | src/utils/advancedOptimizationEngine.ts:83-85 | the genetic run reports its efficiency, waste and convergence records with their best fitness |
| Orchestrator.AnnealingSummary | src/utils/advancedOptimizationEngine.ts:90-92 | the annealing run reports its efficiency, waste and cooling records without a best fitness |
| Orchestrator.Level | src/utils/advancedOptimizationEngine.ts:349-350 | `d.efficiency || d.bestFitness * 100` takes a non-zero efficiency, else the best fitness times 100, else nothing |
| Orchestrator.RecordRun | src/utils/advancedOptimizationEngine.ts:67-133 | a known algorithm's output is recorded with its efficiency and waste; an unknown name or a failure records efficiency 0 and waste 100 |
| Orchestrator.Successful | src/utils/advancedOptimizationEngine.ts:137 | the filter keeps the successful runs in order |
| Orchestrator.Records | src/utils/advancedOptimizationEngine.ts:53-134 | one record per requested algorithm, in order |
| Orchestrator.Winner | src/utils/advancedOptimizationEngine.ts:141-143 | the `reduce` picks a successful run of greatest efficiency, the first one among equals |
| Orchestrator.WinnerIsBest | src/utils/advancedOptimizationEngine.ts:137-143 | the first most efficient successful record is the winner over all requested runs |
| Orchestrator.OverallScore | src/utils/advancedOptimizationEngine.ts:316-321 | the score lies in `[0, 100]` and is 70% of the efficiency once a run takes ten seconds or more |
| Orchestrator.ScoreMonotone | src/utils/advancedOptimizationEngine.ts:316-321 | a more efficient and no slower run never scores lower |
| Orchestrator.Ranking | src/utils/advancedOptimizationEngine.ts:294-304 | the ranking lists every run once, by non-increasing efficiency, ranked from 1, each with its score |
| Orchestrator.Compare | src/utils/advancedOptimizationEngine.ts:293-314 | best and worst efficiency and fastest and slowest time are attained by runs and bound every run; the averages are the means of the runs' efficiencies and times and lie between the extremes |
| Orchestrator.MeanScaled | src/utils/advancedOptimizationEngine.ts:308-311 | a mean times the number of samples is their sum, so the averages of a comparison times the number of runs are the summed efficiencies and times |
| Orchestrator.Rises | src/utils/advancedOptimizationEngine.ts:347-352 | the count of rises is zero exactly when no sample rises over the previous, and maximal exactly when each does |
| Orchestrator.ConvergenceSpeed | src/utils/advancedOptimizationEngine.ts:344-355 | the speed is the share of rising steps, 0 for fewer than two samples |
| Orchestrator.ConvergenceSpeedExtremes | src/utils/advancedOptimizationEngine.ts:344-355 | the speed is 0 exactly when nothing rises and 1 exactly when every step rises |
| Orchestrator.Variance | src/utils/advancedOptimizationEngine.ts:374-378 | the variance is non-negative and zero exactly when the squared deviations add up to zero |
| Orchestrator.VarianceZeroIffConstant | src/utils/advancedOptimizationEngine.ts:374-378 | the variance is zero exactly when all values are equal |
| Orchestrator.FirstStable | src/utils/advancedOptimizationEngine.ts:361-371 | the loop returns the first window start whose variance is below 0.1, or the length when there is none |
| Orchestrator.StabilityPoint | src/utils/advancedOptimizationEngine.ts:357-372 | fewer than ten samples give their count; otherwise the first stable window start, with no earlier one stable |
| Orchestrator.Summarize | src/utils/advancedOptimizationEngine.ts:328-337 | a summary counts the samples; its improvement is the last level minus the first (absent when either level is), its speed is the share of rising steps in `[0, 1]`, and its stability point is the first stable window within the samples |
| Orchestrator.AnalyzeConvergenceKeys | src/utils/advancedOptimizationEngine.ts:323-342 | the analysis has an entry exactly for the names of runs with convergence data |
| Orchestrator.AnalyzeConvergence | src/utils/advancedOptimizationEngine.ts:323-342 | every entry counts at least one sample and has a speed in `[0, 1]`, and the last run with data is the one summarised under its name |
| Orchestrator.AnalyzeConvergenceValues | src/utils/advancedOptimizationEngine.ts:326-338 | a name's entry summarises the last run with that name that has data |
| Orchestrator.RankIndex | src/utils/advancedOptimizationEngine.ts:162 | `findIndex` returns the first ranking position with the name, or -1 when none has it |
| Orchestrator.RowRank | src/utils/advancedOptimizationEngine.ts:157-163 | row `k` copies run `k`, and its rank is a ranking position holding that run's name |
| Orchestrator.Rows | src/utils/advancedOptimizationEngine.ts:157-163 | one row per successful run, each with a rank between 1 and the number of rows |
| Orchestrator.RowsAsWritten | src/utils/advancedOptimizationEngine.ts:157-163 | as written, the first row reads the first run and every later row reads the array after the in-place sort |
| Orchestrator.RowsAsWrittenDropsWinner | src/utils/advancedOptimizationEngine.ts:157-163 | with the winner second, the table as written lists the first run twice and the winner not at all; `Rows` lists both |
| Orchestrator.MultiRunRows | src/utils/advancedOptimizationEngine.ts:146-163 | the results table and the ranking have one entry per successful run, at least one, each rank a ranking position |
| Orchestrator.MultiRun | src/utils/advancedOptimizationEngine.ts:45-168 | the result is the winner's output and name, and the rows, comparison and convergence analysis are all taken over the successful runs, of which there is at least one |
| Orchestrator.MultiRunBest | src/utils/advancedOptimizationEngine.ts:137-156 | the returned output is a known algorithm's, and at least as efficient as every successful run |
| Orchestrator.Hybrid | src/utils/advancedOptimizationEngine.ts:170-241 | the three stages are reported in order; the best is the first of greatest efficiency, never below the basic run, and the improvement is its gain over the basic run |
| Orchestrator.PreferAnnealing | src/utils/advancedOptimizationEngine.ts:280 | annealing is taken only when strictly more efficient, so the result has the greater efficiency |
| Orchestrator.ChooseStrategy | src/utils/advancedOptimizationEngine.ts:253-267 | complexity below 50 pairs basic with annealing, 200 and more runs the two-algorithm comparison, the rest pairs genetic with annealing |
| Orchestrator.StrategyMonotone | src/utils/advancedOptimizationEngine.ts:253-267 | a larger problem never gets a lighter strategy |
| Orchestrator.PairRunPrefersAnnealing | src/utils/advancedOptimizationEngine.ts:266 | comparing just genetic and annealing returns the same output as the pairwise choice |
| Orchestrator.Adaptive | src/utils/advancedOptimizationEngine.ts:243-291 | below complexity 50 the result is the more efficient of basic and annealing, basic when annealing is not more efficient; from 50 on it is the more efficient of genetic and annealing, genetic when annealing is not more efficient |
| Orchestrator.BasicInputsScaled | src/utils/advancedOptimizationEngine.ts:76-77 | the greedy packer gets the pieces and stocks with every extent multiplied by ten, all else kept |
| Quantities.Orientations | src/components/FoamCutOptimizer.tsx:168-175 | six orderings are tried, the typed order first |
| Quantities.MaxFrom | src/components/FoamCutOptimizer.tsx:177-184 | the `Math.max` fold is at least every count and its start, and is one of them |
| Quantities.SameMax | src/components/FoamCutOptimizer.tsx:178-184 | the fold does not depend on the order the counts come in |
| Quantities.BestGridIsMax | src/components/FoamCutOptimizer.tsx:177-184 | each block's count dominates every orientation's grid and is attained by one, or is zero |
| Quantities.MaxQuantity | src/components/FoamCutOptimizer.tsx:154-190 | nothing is written exactly when a dimension is missing or there is no stock; otherwise the quantity written is the sum over the stock types of the best grid count times the stock quantity, so at least each one's share |
| Quantities.GridTotalAppend | src/components/FoamCutOptimizer.tsx:164-189 | the total over two lists of stock types is the sum of their totals |
| Quantities.GridTotalSingle | src/components/FoamCutOptimizer.tsx:164-189 | a single stock type contributes its best grid count times its quantity |
| Quantities.MaxQuantityFits | src/components/FoamCutOptimizer.tsx:164-189 | for positive sizes the quantity written is possible by volume: that many pieces take no more than all blocks with their quantities |
| Quantities.GridTotalInvariant | src/components/FoamCutOptimizer.tsx:168-175 | the quantity written does not depend on the order the dimensions were typed in |
| Quantities.Take | src/components/FoamCutOptimizer.tsx:242-257 | one pass only adds units, uses at most the room, and leaves less room than the piece needs when its identifier is found |
| Quantities.Grow | src/components/FoamCutOptimizer.tsx:241-258 | the loop only adds units and hands out at most the remaining volume |
| Quantities.Maximize | src/components/FoamCutOptimizer.tsx:193-258 | only quantities grow; nothing changes without pieces or when the pieces already take all the stock volume |
| Quantities.SortHead | src/components/FoamCutOptimizer.tsx:236 | the stable ascending sort puts the first piece of least unit volume first |
| Quantities.GrowFirstOnly | src/components/FoamCutOptimizer.tsx:241-258 | on ascending unit volumes only the first piece can gain |
| Quantities.MaximizeTopsUpSmallest | src/components/FoamCutOptimizer.tsx:225-258 | maximising tops up the first piece of least unit volume with the remaining volume |
| Quantities.MaximizeFits | src/components/FoamCutOptimizer.tsx:193-258 | with unique identifiers the result never exceeds the stock volume, and not one more unit of any piece fits |
| Quantities.BlockWaste | src/components/FoamCutOptimizer.tsx:938-944 | a block's waste is defined exactly when its stock is found |
| Quantities.BlockWasteBounds | src/components/FoamCutOptimizer.tsx:942-944 | a utilisation within `[0, 100]` leaves between nothing and the whole block as waste |
| Quantities.WastesFromBlocks | src/components/FoamCutOptimizer.tsx:938-955 | every waste in the analysis is the waste of some block of the last result |
| Quantities.WastesAllFound | src/components/FoamCutOptimizer.tsx:938-955 | when every block's stock is found, the analysis keeps every block in order |
| Quantities.RefillsFit | src/components/FoamCutOptimizer.tsx:974-981 | the units counted into the wastes take no more volume than the wastes |
| Quantities.Credit | src/components/FoamCutOptimizer.tsx:985-989 | the `map` only adds units, and changes exactly the entries with the identifier when the count is positive |
| Quantities.CreditOne | src/components/FoamCutOptimizer.tsx:985-989 | with unique identifiers the credit goes to one entry |
| Quantities.OptimizeWaste | src/components/FoamCutOptimizer.tsx:927-989 | only quantities grow; nothing changes without a last result, without pieces, or with less than 1000 of waste |
| Quantities.OptimizeWasteRefillsSmallest | src/components/FoamCutOptimizer.tsx:966-989 | the refill goes to the first piece of least unit volume alone |
| Quantities.OptimizeWasteFits | src/components/FoamCutOptimizer.tsx:958-989 | the pieces grow by no more than the waste they are cut from |
| Quantities.OptimizeWasteChanges | src/components/FoamCutOptimizer.tsx:983-989 | the pieces change exactly when at least one unit fits into the wastes |

## Left out

- Zero and negative stock extents: the engines divide by a stock's volume or area, so the source produces `NaN` or `Infinity` there. The model requires positive stock extents wherever the source divides by them.
- Quantities.MaxQuantity: a field typed as `0` passes the source's emptiness check and leads to a division by zero, so the model requires every typed field to be non-zero. Reading the form's text with `parseFloat` is not modelled: a field is either empty or a number.
- Quantities.Maximize: pieces of zero volume are excluded because the source divides by the unit volume. The same holds for Quantities.OptimizeWaste.
- Quantities.MaximizeFits: the volume bound assumes pairwise distinct piece identifiers. With repeated identifiers, `findIndex` credits another entry than the one whose volume was consumed. Quantities.OptimizeWasteFits, Quantities.OptimizeWasteRefillsSmallest, Quantities.OptimizeWasteChanges and Quantities.CreditOne make the same assumption.
- Foam.ExpandedIdsUnique: distinctness of the instance identifiers is proved only for piece identifiers that contain no underscore. It holds in general, because the unit number after the last underscore is all digits, but that case is not proved.
- Orchestrator.Variance: the contract states that the value is non-negative and zero exactly when the squared deviations sum to zero, not the quotient itself. The constant-values characterisation lives in Orchestrator.VarianceZeroIffConstant.
- Randomness: every `Math.random()` call is a draw passed in as a parameter. The probability `Math.exp(-deltaE / temperature)` of the Metropolis test is not computed: the test's outcome is a given boolean, and an improving move is always accepted.
- Time: `Date.now()` becomes the given execution time of each run. The total execution time, the `setTimeout` delays and the progress callbacks are not modelled.
- User interface: alerts, status messages, `console` output, the `isCalculating` flag, React state updates and `toFixed` formatting are not modelled. Quantities.MaxQuantity returns the number instead of writing it into the form as text.
- Floating point: numbers are exact reals, so rounding in the source's arithmetic is not modelled.
- Engines inside the orchestrator: the orchestrator takes each engine's result as a parameter. A run that throws is a missing output. The results come from `GreedyPacker.Optimize`, `Genetic.Optimize` and `Annealing.Optimize` as summarised by `GeneticSummary` and `AnnealingSummary`.
- Orchestrator.MultiRun: requires at least one successful run. With none, the source's `reduce` without an initial value throws, and that exception is not modelled. Likewise, Orchestrator.Compare requires at least one run, where the source would report infinite extremes and a `NaN` average.
- Orchestrator.MultiRun: the convergence analysis is taken over the successful runs in run order. The source reads the array after the in-place sort described under Findings, which matters only when two runs share a name.
- Genetic.CreateInitialPopulation: requires a stock type whenever there are pieces. With pieces and no stock type, the source reads `stock.id` of `undefined` at src/utils/geneticAlgorithm.ts:129 and throws a `TypeError`, which is not modelled. Genetic.Optimize carries the same requirement.
- Genetic.Broods: the offspring of every round of draws are computed, and the `while` loop uses those of its first rounds. This is the same population the source builds with fresh draws per round.
- Guillotine.Optimize: that every instance is placed once or remains, and that no instance is placed twice, is stated only for distinct piece identifiers without underscores. With repeated identifiers, the filter at src/utils/guillotineCuttingEngine.ts:71-74 also removes every unplaced instance that shares a placed identifier, so such an instance is neither placed nor left over. The model keeps that filter but does not state the loss. Guillotine.LayoutAll makes the same assumption.
- Genetic.Mutate: an individual without genes is returned unchanged. The source instead stores an empty object `{}` as gene 0 (src/utils/geneticAlgorithm.ts:254-255 and 274), so its individual then has one gene with no fields. That case arises only when there are no pieces. Genetic.BreedGeneCount therefore does not describe the source for `n = 0`.
- Sorting.SortBy: the sort is stated to be an ordered permutation. That it keeps elements that compare equal in input order, as `Array.prototype.sort` does, is not stated for the sort in general; Quantities.SortHead states it for the first element.
- Annealing.Step: the current and best solutions are values. Object sharing is modelled separately, as written, under Findings. That model covers the current solution but not the best solution, which also shares placement objects with later neighbours.

## Findings

| source | as written | input that shows it | evidently intended | confidence | as-written member | corrected member |
|---|---|---|---|---|---|---|
| src/utils/simulatedAnnealing.ts:168-217 | `generateNeighbor` copies the array of placements but not the placement objects, and the nudge, rotation and re-stocking moves assign to the chosen object. A rejected move therefore still changes the current solution, whose energy is not recomputed. | two 10 cm cubes in one 100 cm block, `a` at x = 0 and `b` at x = 20; a nudge of `b` with x draw 0 moves it to x = 5 onto `a`, the overlap raises the energy, the coin fails and the move is rejected: the current solution still has `b` at x = 5 | a rejected move leaves the current solution as it was | not executed | Annealing.StepAsWritten, Annealing.RejectedNudgeLeaks, AnnealingLeak.RejectedNudgeExample | Annealing.Step |
| src/utils/advancedOptimizationEngine.ts:157-163 | the rank column calls `successfulResults.sort(...)` inside `successfulResults.map(...)`, which sorts the array being mapped. Rows after the first read the sorted array. | two successful runs, `basic` at 50% then `genetic` at 90%: the table lists `basic` twice and `genetic` not at all | one row per run, in run order, each with its rank | not executed | Orchestrator.RowsAsWritten, Orchestrator.RowsAsWrittenDropsWinner | Orchestrator.Rows, Orchestrator.RowRank |
