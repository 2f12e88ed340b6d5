# 4D bin packing: packing engine and search tree

This project models the packing engine of a 4D bin-packing system. The system packs a customer order of boxes into shipping containers chosen from a catalog. It has three parts:

- a reinforcement-learning environment places one box at a time, on a height map of a container;
- a Monte-Carlo tree search, guided by a network, picks each placement;
- a greedy corner heuristic splits the order over containers, smallest suitable container first.

The model is split into modules that follow the source files:

| module | file | models |
|---|---|---|
| `Wrappers` | wrappers.dfy | `Option`, and `Attempt` (done, failed, or an exception raised) |
| `Geometry` | geometry.dfy | `pack_env/box.py`: sizes, volume, the three axis swaps, and the mutable `Box` |
| `Grid` | grid.dfy | numpy footprint queries over `array2<real>` height maps (`np.max`, `np.sum(rec == h)`) and the slice stamp |
| `ContainerModel` | container.dfy | `pack_env/container.py`: the container's height map, the placement query and `drop_box` |
| `Catalog` | catalog.dfy | `containers_info.py`: the derived catalog, its maxima and minima, and the volume order |
| `Heuristic` | heuristic.dfy | `pack_env/packingHeuristic.py`: the anchor-frontier packer, the catalog pre-filter and the prefix partitioning |
| `BoxSeq` | boxseq.dfy | `pack_env/box_seq_generator.py`: `reset_list`, the two box-sequence creators and the recursive cut |
| `Env` | env.dfy | `pack_env/packingEnv.py`: the action-id enumeration, container order, `reset`, `step` and the empty-mask recovery |
| `MctsNode` | node.dfy | `mcts/node.py`: node statistics, the score, the tie-keeping maximum of `choose_best`, and the roll-out fold |
| `MonteCarlo` | tree.dfy | `mcts/monteCarlo.py` and `MCTSNode.expand`: the search tree as an arena of nodes |

Modelling choices:

- **Numbers.** Integers are unbounded. Weights, heights and real container sides are exact `real`s.
- **Randomness.** Every random draw is an explicit stream of naturals handed in by the caller. This covers `rng.choice` and `rng.integers` in the cut, `random.shuffle`, and the `np.random.randint` tie-break.
- **The network** is an `Oracle`: three functions `step`, `mask` and `predict` over an abstract environment value `E`.
- **The container sets** (`ContainerSets`) are an abstract record of functions, `CSOps<S>`: `create`, `drop`, `validMask`, `replace` and `usedCount`.
- **Search nodes** live in a `seq<Node>` arena inside the class `MCTree`. Parent and child links are arena indices, and children keep their dictionary insertion order.
- **The environment's queue** holds box values (`BoxRec`). Rotating the current box in place is replacing its queue entry.
- **The heuristic's loops** are each proved against a definition on values. `Plan` is the item loop on a height-map value. `SingleOutcome` is the scan over the suitable containers. `PassSpec` gives the prefix rounds of one pass and `Passes` the while loop of `check_packing`. The pass and partition methods are proved for any decision function that agrees with `SingleOutcome` on every selection of the order (`Decides`), and `check_packing` passes the concrete one.

Code and description differ in two places. The model follows the code in both:

- The recovery ladder of `set_cur_observation_vals` (pack_env/packingEnv.py:157-193) scans later boxes for one with a non-empty mask and then reorders the queue with `reset_box_list`. The mask comes from `get_current_box_mask`, which ignores its `box_id` argument (pack_env/packingEnv.py:209-225). So the scan never finds a box and the reorder is never reached. The only recovery that happens is replacing the containers with the largest one. `Env.PackEnv.MaskIgnoresBoxId` states this.
- `succeed` empties the new root's children (mcts/monteCarlo.py:148). The next search therefore expands the new root again.

## Model

| member | source | states |
|---|---|---|
| Geometry.Size.SortedDesc | pack_env/box_seq_generator.py:262-268 | the sides sorted largest first, in one of the six orders of the input |
| Geometry.SortThree | pack_env/box_seq_generator.py:262-268 | sorting a three-element side list gives three sides, non-increasing, a reordering of the input |
| Geometry.ReorderKeepsSidesAndVol | pack_env/box.py:49-50 | any reordering of the sides keeps the multiset of sides and the volume |
| Geometry.ReorderKeepsVol | pack_env/box.py:49-50 | any reordering of the sides keeps the volume dx*dy*dz |
| Geometry.SortedDescKeepsSides | pack_env/box_seq_generator.py:262-268 | sorting keeps the multiset of sides and the volume, and sorting twice changes nothing |
| Geometry.RotateTwice | pack_env/box.py:55-61 | rotating twice with the same mode restores the size |
| Geometry.RotatePermutesSides | pack_env/box.py:49-61 | every rotation mode reorders the sides, so the side multiset and the volume are kept |
| Geometry.RotateMovesIffSwapMode | pack_env/box.py:55-61 | with three distinct sides, a rotation changes the size exactly for modes 1, 2 and 3; any other mode, 0 included, is a no-op |
| Geometry.Box.constructor | pack_env/box.py:20-45 | a new box sits at the origin with the given sides, weight and names, rotation 0 and no container |
| Geometry.Box.Vol | pack_env/box.py:49-50 | the volume dx*dy*dz of the box's current size |
| Geometry.Box.Standardize | pack_env/box.py:52-53 | the tuple (x, y, z, dx, dy, dz, wt) |
| Geometry.Box.Rotate | pack_env/box.py:55-61 | the size becomes the rotated size, and position, weight, names and every pack_* field are unchanged |
| Grid.RowMaxIsMax | pack_env/container.py:131 | the maximum of a row segment bounds every cell and is attained |
| Grid.RectMaxIsMax | pack_env/container.py:131 | np.max of a footprint bounds every cell of it and is the value of one of its cells |
| Grid.RowCountBounds | pack_env/container.py:139 | the number of row cells equal to v is at most the segment length, and at least 1 when some cell equals v |
| Grid.RectCountBounds | pack_env/container.py:139 | the supported area is at most the footprint area, and at least 1 when some cell has the height |
| Grid.StampFootprint | pack_env/container.py:100-102 | every footprint cell becomes max(old footprint max, top), every other cell is unchanged, no cell decreases |
| ContainerModel.Container.constructor | pack_env/container.py:29-76 | no boxes, zero totals, free weight max_wt, free volume dx*dy*dz; height-map cells inside dx by dy are max_Z - dz, all others max_Z |
| ContainerModel.Container.Reset | pack_env/container.py:79-86 | the same empty state as after construction, with a fresh height map |
| ContainerModel.Container.DropBox | pack_env/container.py:156-182 | succeeds exactly when weight and volume fit the free capacity and the placement query (in normal mode) is not -1; on failure nothing changes; on success the box rests at (x, y, query height), its snapshot is appended, free capacity drops by its weight and volume, and the footprint is stamped |
| ContainerModel.Container.Place | pack_env/container.py:173-181 | a legal placement moves the box, appends it, keeps free capacity equal to the maxima minus the sums, and never lowers a cell |
| ContainerModel.Container.RecountTotals | pack_env/container.py:178-181 | the totals are the sums over the placed boxes, and free weight and volume are the maxima minus those sums |
| ContainerModel.Container.UpdateHeightMap | pack_env/container.py:95-103 | footprint cells become max(footprint max, z + dz), other cells are unchanged, no cell decreases, all cells stay within [0, max_Z] |
| ContainerModel.SumsAppend | pack_env/container.py:178-179 | appending a box adds its weight and volume to the sums |
| ContainerModel.PlacementFits | pack_env/container.py:116-136 | a legal answer means the footprint is inside the container, the answer is the footprint maximum, and the box top stays within max_Z |
| ContainerModel.PlacementMeaning | pack_env/container.py:105-153 | a legal answer: footprint inside, at least 3 corners at the corner maximum, answer equal to the footprint max, top within max_Z, supported area between 1 and the area (all of it in strict mode), and one of the three ratio tests passed |
| ContainerModel.FlatFootprintAccepted | pack_env/container.py:139-149 | a flat footprint inside the container whose top fits is accepted at the floor height, even in strict mode |
| ContainerModel.FlatCount | pack_env/container.py:139 | on a flat footprint the supported area is the whole area |
| ContainerModel.FlatRowCount | pack_env/container.py:139 | on a flat row segment every cell is counted |
| Catalog.Sort3 | containers_info.py:40-43 | three reals largest first, a permutation of the input |
| Catalog.DeriveEntrySides | containers_info.py:40-56 | L >= W >= H is a permutation of the entry's sides; X, Y and Z are the floors of L, W and H, so X >= Y >= Z and each is at most its real side; name and weight are kept |
| Catalog.Sort3NonNegative | containers_info.py:40-43 | sorting non-negative sides keeps them non-negative |
| Catalog.IntSideIsFloor | containers_info.py:46-54 | both branches of the integer-side computation give the floor of a non-negative side |
| Catalog.FloorMonotone | containers_info.py:46-54 | truncation keeps the order of the sides |
| Catalog.MaxInt | containers_info.py:65-66 | max() of a non-empty list bounds every entry and is one of them |
| Catalog.MinInt | containers_info.py:65-66 | min() of a non-empty list is below every entry and is one of them |
| Catalog.MaxReal | containers_info.py:65-66 | max() of a non-empty real list bounds every entry and is one of them |
| Catalog.DeriveAllAt | containers_info.py:30-56 | the k-th derived entry is the derivation of the k-th catalog row |
| Catalog.DeriveAllSnoc | containers_info.py:30-56 | one loop iteration appends the derivation of the next row |
| Catalog.ColumnSnoc | containers_info.py:58-63 | one iteration appends the entry's X, Y, Z, weight and volume to their lists |
| Catalog.ColumnAt | containers_info.py:58-63 | the k-th element of an integer list is that field of the k-th entry |
| Catalog.RealColumnAt | containers_info.py:58-63 | the k-th element of a real list is that field of the k-th entry |
| Catalog.ColumnMaxMin | containers_info.py:65-66 | the maximum and minimum of a field list bound every entry and are attained |
| Catalog.RealColumnMax | containers_info.py:65-66 | the maximum of a real field list bounds every entry and is attained |
| Catalog.DeriveLists | containers_info.py:30-63 | the loop builds the derived entries and the five field lists in catalog order |
| Catalog.DeriveCatalog | containers_info.py:28-66 | num_containers is the row count; every entry lies within the maxima and minima, and each of them is attained by some entry |
| Catalog.CatalogShape | containers_info.py:6-28 | the catalog has 18 rows, all with positive sides and weight |
| Catalog.InsertByVol | pack_env/packingHeuristic.py:131-140 | inserting an id keeps every id in range and adds exactly that id |
| Catalog.InsertByVolAscending | pack_env/packingHeuristic.py:131-140 | inserting into an ascending-by-volume list keeps it ascending |
| Catalog.SortByVol | pack_env/packingHeuristic.py:131-140 | the sorted ids are a permutation of the input ids |
| Catalog.SortByVolAscending | pack_env/packingHeuristic.py:131-140 | the sorted ids are in ascending max_vol order |
| Heuristic.ValidPlacementOnMeaning | pack_env/packingHeuristic.py:39-58 | check_valid_placement accepts exactly the in-bounds footprints with at least 3 corners at the corner maximum whose every cell plus dz stays within the container height; there is no area-ratio test |
| Heuristic.CheckValidPlacement | pack_env/packingHeuristic.py:39-58 | the check on the height-map array gives the same answer as on the map's value: bounds, supported corners, then np.max of the footprint |
| Heuristic.OrientationIsFirstFit | pack_env/packingHeuristic.py:188-229 | the orientation is -1 exactly when none of the four conditions holds, and otherwise the first one that holds |
| Heuristic.FrontierSizes | pack_env/packingHeuristic.py:170-229 | after p placements the frontier has p + 1 top anchors and p right-edge and p far-edge anchors |
| Heuristic.Used | pack_env/packingHeuristic.py:196-229 | used_points holds one anchor per placement, in order |
| Heuristic.Without | pack_env/packingHeuristic.py:177-178 | an anchor is offered exactly when it is on the frontier and not yet used |
| Heuristic.ValidPlanDistinct | pack_env/packingHeuristic.py:177-178 | no two placements of a plan share an anchor |
| Heuristic.FirstFit | pack_env/packingHeuristic.py:185-200 | -1, or the position of the first offered anchor where the map check passes and some orientation fits; every anchor before it, or every anchor when -1, is rejected |
| Heuristic.ChooseAnchor | pack_env/packingHeuristic.py:185-200 | the scan over the offered anchors on the current height map returns FirstFit's position |
| Heuristic.UpdateHeightMap | pack_env/packingHeuristic.py:32-36 | with numpy's slice clipping: raises on an empty slice and leaves the map unchanged; otherwise footprint cells become max(footprint max, top) and other cells are unchanged; no cell decreases |
| Heuristic.StampPlacement | pack_env/packingHeuristic.py:202-228 | the map becomes the stamp of the chosen orientation's branch, with that branch's rows, columns and top (branch 1 swaps x and y, branches 2 and 3 slice with the anchor height); it raises, leaving the map unchanged, when that slice index is not an integer or the slice is empty; no cell decreases |
| Heuristic.PlaceOne | pack_env/packingHeuristic.py:176-229 | one item: the outcome is PlaceSpec on the current map, i.e. the first accepted offered anchor, its first fitting orientation and the stamped map; Failed when no anchor is accepted; the map is unchanged unless the item is placed |
| Heuristic.PlaceItems | pack_env/packingHeuristic.py:165-232 | the result is Plan: the item loop from a zero height map, stopping at the first item with no accepted anchor or at a raising stamp; a completed loop is a valid plan |
| Heuristic.PlanPrefixStops | pack_env/packingHeuristic.py:231-232 | once the item loop has stopped, later items change nothing |
| Heuristic.PlanPrefixValid | pack_env/packingHeuristic.py:173-229 | every prefix the item loop completes is a valid plan: one placement per item at an unused frontier anchor with its first fitting orientation |
| Heuristic.PlanValid | pack_env/packingHeuristic.py:173-234 | a completed item loop is a valid plan of all items |
| Heuristic.FrontierStep | pack_env/packingHeuristic.py:196-228 | an accepted placement appends its three corners to the three anchor lists and its anchor to used_points |
| Heuristic.PlaceStep | pack_env/packingHeuristic.py:195-229 | an accepted placement extends a valid plan to the next item |
| Heuristic.StampBoxes | pack_env/packingHeuristic.py:234-254 | every box gets its placement, its orientation's swapped sides and the container id, name and size; weight and names are kept |
| Heuristic.StampBox | pack_env/packingHeuristic.py:238-252 | one box gets its placement, swapped sides and container data |
| Heuristic.PackInSingleContainer | pack_env/packingHeuristic.py:152-258 | no items raises; otherwise it fails or raises exactly when Plan on the container's X by Y grid does; on success the boxes carry Plan's placements, swapped sides and the container's id, name and L, W, H; failure changes no box |
| Heuristic.Range | pack_env/packingHeuristic.py:27 | the ids 0 .. n - 1 in order |
| Heuristic.SuitableIds | pack_env/packingHeuristic.py:129-140 | an id is kept exactly when its container covers the combined volume and weight and the largest dx, dy and h |
| Heuristic.FirstPackingFrom | pack_env/packingHeuristic.py:142-150 | the position of the first suitable container whose item loop succeeds, every earlier one failing; Failed means the loop fails in all of them; a raising loop stops the scan |
| Heuristic.SingleOutcome | pack_env/packingHeuristic.py:122-150 | no items raises; a chosen container is suitable for the items and its item loop succeeds |
| Heuristic.SingleOutcomeFailed | pack_env/packingHeuristic.py:142-150 | a single-container failure means the item loop fails in every suitable container of the catalog |
| Heuristic.CheckPackingSingleContainer | pack_env/packingHeuristic.py:122-150 | the outcome and the container are those of SingleOutcome: the first suitable container in ascending max_vol order whose item loop packs, named with "(1)", its boxes stamped with that plan; no items raises; failure changes no box |
| Heuristic.PackFirst | pack_env/packingHeuristic.py:142-150 | the loop over the suitable containers stops where FirstPackingFrom does; the packing found carries that container's id, name and plan |
| Heuristic.Filter | pack_env/packingHeuristic.py:69 | the prefix ids not deferred, in order and without repeats |
| Heuristic.PackingRound | pack_env/packingHeuristic.py:69-84 | one round of a pass: its outcome is round i of PassSpec for the decision of check_packing_single_container; a kept packing holds the selected boxes |
| Heuristic.PackingPass | pack_env/packingHeuristic.py:66-84 | the pass's outcome is PassSpec over every prefix; a completed pass splits the working ids into packed and deferred ids without repeats or overlap, defers every id when nothing packed, records the decided container, and keeps the packed ids' boxes |
| Heuristic.PassRound | pack_env/packingHeuristic.py:69-84 | round i of the pass is RoundStep applied to the rounds before it, and the ids it tries are distinct, in range and non-empty |
| Heuristic.RoundStepSplits | pack_env/packingHeuristic.py:69-84 | a round that completes keeps the packed/deferred split of the longer prefix |
| Heuristic.PassSpecSplits | pack_env/packingHeuristic.py:66-84 | every prefix of a pass that completes keeps the packed/deferred split |
| Heuristic.PassSplits | pack_env/packingHeuristic.py:66-84 | a whole pass that completes splits its working ids |
| Heuristic.PassSpecStops | pack_env/packingHeuristic.py:73-84 | a raise ends the pass: later rounds change nothing |
| Heuristic.PrefixStep | pack_env/packingHeuristic.py:69 | growing the prefix by one id appends that id to the filtered list |
| Heuristic.PassStep | pack_env/packingHeuristic.py:69-84 | one prefix attempt keeps packed and deferred ids a split of the prefix |
| Heuristic.PassStepIds | pack_env/packingHeuristic.py:69 | the ids a round tries are distinct, in range and end with the prefix's newest id |
| Heuristic.PassStepCant | pack_env/packingHeuristic.py:82-84 | deferring ids[-1] keeps the prefix split between packed and deferred ids |
| Heuristic.IdsBelowSub | pack_env/packingHeuristic.py:69-72 | a sub-list of in-range ids is in range |
| Heuristic.SelectionValid | pack_env/packingHeuristic.py:71-72 | the selected boxes are distinct boxes of the order |
| Heuristic.PartIdsMeaning | pack_env/packingHeuristic.py:91 | an id is among the parts' ids exactly when some part holds it |
| Heuristic.PassesPartition | pack_env/packingHeuristic.py:63-91 | a run of passes that completes splits the working ids among its rounds, each round keeping the container decided for its ids |
| Heuristic.SplitsCons | pack_env/packingHeuristic.py:86-91 | a pass's packed ids followed by a split of its deferred ids split the pass's ids |
| Heuristic.KeptCons | pack_env/packingHeuristic.py:86-91 | a kept round followed by kept rounds are all kept |
| Heuristic.PassesUnfold | pack_env/packingHeuristic.py:63-91 | one pass of the while loop: a raise raises, a pass deferring every id ends in "can't be packed", otherwise the next pass works on the deferred ids |
| Heuristic.PassesAdvance | pack_env/packingHeuristic.py:63-91 | after the passes done so far the outcome still to come is that of the passes over the ids left |
| Heuristic.PartsSnoc | pack_env/packingHeuristic.py:91 | appending a pass's part keeps the parts matched to the rounds and carrying their boxes |
| Heuristic.PartitionStep | pack_env/packingHeuristic.py:63-91 | a completed pass keeps the loop's invariant, and a pass that packs something shortens the ids left |
| Heuristic.PartitionEnd | pack_env/packingHeuristic.py:93-95 | when no id is left, the parts partition all ids and each has its packing holding its boxes |
| Heuristic.PartsOfRounds | pack_env/packingHeuristic.py:86-95 | parts recorded from a split of 0 .. n - 1 partition it and each carries a packing |
| Heuristic.PartitionItems | pack_env/packingHeuristic.py:62-95 | the outcome is Passes over range(n): Failed ("can't be packed") exactly when a pass defers every id; on success the parts partition the ids, each with its packing holding its boxes and the decided container |
| Heuristic.PartitionOrder | pack_env/packingHeuristic.py:62-95 | the while loop with the decisions of check_packing_single_container: the same outcomes as Partitioning, and on success a partition of all ids into parts each holding its own boxes |
| Heuristic.NameParts | pack_env/packingHeuristic.py:97-116 | the used containers' ids and names come one per part, in part order: each id is the part's container id and each name the part's base name numbered by the earlier uses of that base |
| Heuristic.CheckPacking | pack_env/packingHeuristic.py:60-118 | success, "can't be packed" and a raise are exactly those of Partitioning; a result partitions all item ids into disjoint parts, each with its packing, its boxes and its container id, named by its base name numbered by earlier uses |
| Heuristic.CantShorter | pack_env/packingHeuristic.py:87-91 | a pass that packed something leaves fewer ids to pack |
| Heuristic.DistinctSubsetShorter | pack_env/packingHeuristic.py:87-91 | a repeat-free list inside a longer one that misses an element is shorter |
| Heuristic.ToSet | pack_env/packingHeuristic.py:87-91 | the set of the list's elements |
| Heuristic.DistinctCard | pack_env/packingHeuristic.py:87-91 | a repeat-free list has as many elements as its set |
| Heuristic.SetOfSeqCard | pack_env/packingHeuristic.py:87-91 | a list's set is no larger than the list |
| Heuristic.BaseName | pack_env/packingHeuristic.py:104 | the name up to its first "(" |
| Heuristic.NatToString | pack_env/packingHeuristic.py:108 | a non-empty decimal string without "(" |
| Heuristic.RenameContainers | pack_env/packingHeuristic.py:97-109 | the k-th name is its base name numbered by how many of the first k + 1 parts used that base |
| Heuristic.CountedStep | pack_env/packingHeuristic.py:105-107 | one more name raises its counter by one, from 0 when new, and keeps cntrs equal to the counts |
| Heuristic.NatToStringInjective | pack_env/packingHeuristic.py:108 | different counts give different decimal strings |
| Heuristic.CountOfGrows | pack_env/packingHeuristic.py:105-108 | a later use of a base name has a larger count |
| Heuristic.CountOfMonotone | pack_env/packingHeuristic.py:105-108 | the count of a base name never decreases along the list |
| Heuristic.SplitNumbered | pack_env/packingHeuristic.py:108 | a base name without "(" and its count can be read back off the numbered name |
| Heuristic.NumberedNamesDistinct | pack_env/packingHeuristic.py:97-109 | the numbered names are pairwise distinct, so no dictionary entry is overwritten |
| BoxSeq.Pop | pack_env/box_seq_generator.py:58-59 | list.pop succeeds exactly for an index in [-len, len), and the removed element plus the rest make up the list |
| BoxSeq.SliceBound | pack_env/box_seq_generator.py:60 | Python's clamped slice bound, within the list |
| BoxSeq.ResetListOutcome | pack_env/box_seq_generator.py:56-62 | reset_list raises exactly when one of its two pops is out of range; otherwise the result has the same length and the same elements |
| BoxSeq.ResetListForward | pack_env/box_seq_generator.py:56-62 | for c < r the result is L[..c] + [L[r], L[c]] + L[c+1..r] + L[r+1..] |
| BoxSeq.SumsConcat | pack_env/box_seq_generator.py:85 | the volume and weight sums of a concatenation add |
| BoxSeq.SumVolRemove | pack_env/box_seq_generator.py:85 | removing a box subtracts its volume |
| BoxSeq.MultisetRemove | pack_env/box_seq_generator.py:85 | cancelling one element from both sides of a permutation |
| BoxSeq.SumVolPermutation | pack_env/box_seq_generator.py:85 | a permutation keeps the volume sum |
| BoxSeq.SumVolPrefix | pack_env/box_seq_generator.py:204-206 | a prefix of boxes of non-negative volume has no larger volume sum |
| BoxSeq.PredictionBoxSeqCreator.constructor | pack_env/box_seq_generator.py:25-54 | the box list is the order (the same list object), num_boxes its length, full_box_vol its volume sum |
| BoxSeq.PredictionBoxSeqCreator.GenerateBoxList | pack_env/box_seq_generator.py:82-85 | the box list becomes the order, num_boxes its length, full_box_vol its volume sum |
| BoxSeq.PredictionBoxSeqCreator.Reset | pack_env/box_seq_generator.py:71-75 | the same state as generate_box_list |
| BoxSeq.PredictionBoxSeqCreator.ResetBoxList | pack_env/box_seq_generator.py:64-69 | the box list becomes the reset_list result and counts are kept; while it still aliases the order the pops reach the order too; a raised reset leaves the first pop done |
| BoxSeq.Tail | pack_env/box_seq_generator.py:231-235 | the draw stream after one draw, no longer than before |
| BoxSeq.Choice | pack_env/box_seq_generator.py:231 | rng.choice returns one of the options |
| BoxSeq.Integer | pack_env/box_seq_generator.py:235 | rng.integers(lo, hi) lies in [lo, hi) |
| BoxSeq.SplitActions | pack_env/box_seq_generator.py:222-224 | an axis is offered exactly when its side is at least 2 * minSideLen and above maxSideLen |
| BoxSeq.Finish | pack_env/box_seq_generator.py:253-268 | a piece gets its share weight * vol / whole vol and its sides sorted largest first, keeping its volume |
| BoxSeq.SplitPiecesPartition | pack_env/box_seq_generator.py:240-248 | the two pieces have sides pos and side - pos on the split axis, the other sides unchanged, boxB shifted by pos on that axis only, volumes adding up |
| BoxSeq.SplitPiecesVol | pack_env/box_seq_generator.py:240-248 | the two pieces' volumes add up to the box's volume |
| BoxSeq.SplitPiecesSides | pack_env/box_seq_generator.py:232-248 | with minSideLen <= pos <= side - minSideLen both pieces keep every side at least minSideLen and have a smaller side sum |
| BoxSeq.ReorderSums | pack_env/box_seq_generator.py:262-268 | re-sorting keeps the side sum and the lower bound on sides |
| BoxSeq.VolPositive | pack_env/box_seq_generator.py:253-260 | sides of at least 1 give a positive volume, so the weight share is defined |
| BoxSeq.SplitOnce | pack_env/box_seq_generator.py:231-268 | one split gives two pieces with sides at least minSideLen, smaller side sums, and volumes and weights adding up to the box's |
| BoxSeq.SplitFacts | pack_env/box_seq_generator.py:240-268 | the finished pieces keep the side bound, shrink the side sum and share volume and weight exactly |
| BoxSeq.CutConserves | pack_env/box_seq_generator.py:216-271 | the leaves of the cut add the box's volume and weight to the list |
| BoxSeq.WeightsApportioned | pack_env/box_seq_generator.py:253-260 | the two volume shares of a weight add up to it |
| BoxSeq.CutLeavesFinal | pack_env/box_seq_generator.py:222-229 | the cut only appends, and every appended leaf has no split action left and sides at least minSideLen |
| BoxSeq.FinalIsValid | pack_env/box_seq_generator.py:210-214 | a leaf passes _check_box_size_valid when 2 * minSideLen - 1 <= maxSideLen |
| BoxSeq.SideLenGap | pack_env/box_seq_generator.py:127-128 | the derived side bounds satisfy minSideLen >= 1 and 2 * minSideLen - 1 <= maxSideLen, so the leaf assertion always holds |
| BoxSeq.RotateAll | pack_env/box_seq_generator.py:179-182 | each box is rotated by one of the allowed modes, i.e. its sides are reordered |
| BoxSeq.ShuffleFrom | pack_env/box_seq_generator.py:199 | the Fisher-Yates swaps give a permutation |
| BoxSeq.Shuffle | pack_env/box_seq_generator.py:199 | random.shuffle gives a permutation |
| BoxSeq.Truncate | pack_env/box_seq_generator.py:204 | the first num_boxes boxes, or all of them |
| BoxSeq.CuttingBoxSeqCreator.constructor | pack_env/box_seq_generator.py:103-146 | container 11's name, integer size and weight limit, side bounds from its smallest side, n_forseeable_box = 1 + lookahead, and the first generated list: the cut of the whole container, each leaf rotated, shuffled, the first 10 kept, with its count and volume |
| BoxSeq.CuttingBoxSeqCreator.CutBox | pack_env/box_seq_generator.py:216-271 | the box list grows by the leaves of the cut, in append order |
| BoxSeq.CuttingBoxSeqCreator.GenerateBoxList | pack_env/box_seq_generator.py:188-208 | the list is the cut of the whole container, rotated, shuffled and truncated to 10, with num_boxes and full_box_vol recomputed |
| BoxSeq.CuttingBoxSeqCreator.Reset | pack_env/box_seq_generator.py:148-152 | the same state as generate_box_list |
| BoxSeq.CuttingBoxSeqCreator.ResetBoxList | pack_env/box_seq_generator.py:154-163 | the box list becomes the reset_list result, the same function as in the other creator; a raised reset leaves the first pop done |
| BoxSeq.CuttingBoxSeqCreator.DropBox | pack_env/box_seq_generator.py:184-186 | removes exactly the first box, and raises on an empty list |
| BoxSeq.CuttingBoxSeqCreator.PopBoxAsWritten | pack_env/box_seq_generator.py:174-177 | every call raises |
| BoxSeq.CuttingBoxSeqCreator.PopBox | pack_env/box_seq_generator.py:174-177 | removes the box at idx when idx is below the list length and n_forseeable_box, and raises otherwise |
| BoxSeq.LeavesValid | pack_env/box_seq_generator.py:216-229 | every leaf of the cut passes the size check |
| BoxSeq.RotatedValid | pack_env/box_seq_generator.py:179-182 | rotating keeps every box within the side bounds |
| BoxSeq.ShuffledValid | pack_env/box_seq_generator.py:199 | shuffling keeps every box within the side bounds |
| BoxSeq.GeneratedBoxesFit | pack_env/box_seq_generator.py:188-208 | the generated boxes before truncation fill the container's volume exactly; after it there are at most 10, with no more volume, all within the side bounds |
| BoxSeq.RotateAllVol | pack_env/box_seq_generator.py:198 | rotating every box keeps the volume sum |
| Env.DecodeEncode | pack_env/packingEnv.py:37-44 | a slot's id is in [0, C*R*NX*NY) and decodes back to the slot |
| Env.EncodeDecode | pack_env/packingEnv.py:37-44 | every id in range decodes to a slot in range that encodes back to it |
| Env.DecodeInjective | pack_env/packingEnv.py:37-44 | different ids in range decode to different slots |
| Env.FillStep | pack_env/packingEnv.py:39-44 | one innermost iteration adds the entry for the next id |
| Env.EncodeCarry | pack_env/packingEnv.py:39-43 | finishing an inner loop continues at the next id of the outer one |
| Env.EncodeEnds | pack_env/packingEnv.py:37-44 | the loops start at id 0 and end at C*R*NX*NY |
| Env.BuildActionLookUp | pack_env/packingEnv.py:37-44 | the map's keys are exactly [0, C*R*NX*NY) and each id maps to its decoded (container, rotation, x, y) |
| Env.ActionLookUpBijective | pack_env/packingEnv.py:37-44 | every slot's id is in the map with that slot's action, and different ids stand for different slots |
| Env.ReverseFacts | pack_env/packingEnv.py:94 | reversing gives the same elements in opposite order |
| Env.SortInitContainerIdsOrder | pack_env/packingEnv.py:85-95 | the ids are a permutation ordered by max_vol, largest first, and the first has the largest max_vol |
| Env.FirstIsLargest | pack_env/packingEnv.py:85-95 | the head of a descending permutation has the largest max_vol |
| Env.Count | pack_env/packingEnv.py:157-193 | the number of legal actions is 0 exactly when the mask has no legal action |
| Env.PackEnv.constructor | pack_env/packingEnv.py:14-61 | the action map is the enumeration, the container ids are sorted largest first, both counters are 0, no container is used, and the current container is the largest |
| Env.PackEnv.MaskIgnoresBoxId | pack_env/packingEnv.py:209-225 | the mask is the same for every box id argument |
| Env.PackEnv.SetCurObservationVals | pack_env/packingEnv.py:147-195 | raises with no current box; otherwise the container sets are the recovered ones, and it succeeds exactly when the current box then has a legal action, storing its mask |
| Env.PackEnv.StartEpisode | pack_env/packingEnv.py:64-81 | a fresh episode: the new box list, both counters 0, no container used, the container ids re-sorted and the current container the largest |
| Env.PackEnv.SortContainers | pack_env/packingEnv.py:85-95 | the container ids become their largest-first sort |
| Env.PackEnv.Reset | pack_env/packingEnv.py:64-83 | the fresh episode state; an empty box list raises; otherwise it succeeds exactly when the first box has a legal action after recovery |
| Env.PackEnv.DropCurrent | pack_env/packingEnv.py:99-117 | the current box is rotated in place whatever happens; on success both counters rise by 1 and the container is recorded; on failure the counters and used containers are kept |
| Env.PackEnv.Step | pack_env/packingEnv.py:98-144 | an unknown action or no current box raises; a failed drop gives reward -1, done, counters unchanged, the box left rotated; a successful drop counts the box, records it as the packed box and adds its container to used_containers; the last box gives reward 1/(containers used) and done; any other success gives reward 0 and not done, recovers the container sets for the next box, and is Done exactly when that box then has a legal action |
| Env.StepInfo | pack_env/packingEnv.py:133-138 | packed plus unpacked is the total box count |
| MctsNode.NewNode | mcts/node.py:8-18 | a fresh node: no children, no value, not terminated, all statistics 0, the given prior and parent |
| MctsNode.Terminated | mcts/node.py:26-28 | terminated and p = 0, everything else kept |
| MctsNode.Updated | mcts/node.py:30-34 | one more visit, the value added to w, q = w / n, everything else kept |
| MctsNode.UpdatesAverage | mcts/node.py:30-34 | after k updates n rises by k and w by their sum; from a fresh node q is the mean of the values |
| MctsNode.ScoreRisesWithPrior | mcts/node.py:37-55 | with c and sqrt(n_parent) non-negative, a larger prior p never lowers a child's score, visited or not |
| MctsNode.ScoreFallsWithVisits | mcts/node.py:37-55 | with c, sqrt(n_parent) and p non-negative, more visits at the same q never raise a visited child's score |
| MctsNode.TieFold | mcts/node.py:44-63 | every kept tie is a child position |
| MctsNode.CloseStaysBelow | mcts/node.py:57-62 | a score close to an old maximum cannot exceed a new, distant maximum |
| MctsNode.TieFoldMaximal | mcts/node.py:44-63 | the ties are increasing child positions whose scores are close to the final maximum, every score is below or close to it, and a maximum above -INF is the first tie's score |
| MctsNode.TieFoldEmpty | mcts/node.py:44-63 | no tie is kept exactly when every score is below -INF and not close to it |
| MctsNode.DiscountedUndiscounted | mcts/node.py:186-188 | with gamma = 1 the folded value is the reward sum plus the start value |
| MctsNode.FoldBack | mcts/node.py:186-188 | the loop computes r_0 + gamma*(r_1 + gamma*(... + gamma*value)) |
| MonteCarlo.SameLinksArena | mcts/monteCarlo.py:101-109 | updating statistics keeps the tree's link invariants |
| MonteCarlo.Ancestors | mcts/monteCarlo.py:102-109 | the path of parent links starts at the leaf and never goes below it |
| MonteCarlo.AncestorsShape | mcts/monteCarlo.py:102-109 | the path strictly climbs and ends at a node without parent |
| MonteCarlo.AncestorsBelow | mcts/monteCarlo.py:102-109 | later path nodes sit before earlier ones in the arena |
| MonteCarlo.AncestorsLink | mcts/monteCarlo.py:106-108 | each path step follows a prev_node link, and the last node has none |
| MonteCarlo.AncestorsFrame | mcts/monteCarlo.py:102-109 | growing the arena without changing parent links keeps every path |
| MonteCarlo.KeptActions | mcts/node.py:111 | the legal actions are positions of the mask |
| MonteCarlo.KeptActionsExact | mcts/node.py:111 | an action is kept exactly when its mask entry is set, in increasing order |
| MonteCarlo.KeptPriors | mcts/node.py:133-135 | the loop succeeds exactly when every kept action indexes the policy, and then gives the priors |
| MonteCarlo.ExpandedShape | mcts/node.py:133-151 | expansion appends one child per action after the arena, links them under the node and stores the value; other nodes are kept |
| MonteCarlo.ExpandedParents | mcts/node.py:133-135 | expansion keeps parents before children |
| MonteCarlo.ExpandedLinks | mcts/node.py:133-135 | expanding an unexpanded node keeps children pointing back to their parents |
| MonteCarlo.ExpandedValued | mcts/node.py:151 | expansion keeps every expanded node valued |
| MonteCarlo.ExpandedArena | mcts/node.py:133-151 | expansion keeps the arena invariant, stores the value and keeps every old node's parent and visit count |
| MonteCarlo.Backed | mcts/monteCarlo.py:103-105 | one backed-up value per path node |
| MonteCarlo.BackedAt | mcts/monteCarlo.py:104 | the value at each path node is its reward plus gamma times the value below, the leaf's own reward included |
| MonteCarlo.BackupStep | mcts/monteCarlo.py:104-105 | one iteration updates the next path node, which had not yet changed |
| MonteCarlo.BackupEnds | mcts/monteCarlo.py:106-109 | at the node without parent, every path node is updated once and nothing else changed |
| MonteCarlo.PathClimbs | mcts/monteCarlo.py:106-107 | following prev_node goes to the next path node |
| MonteCarlo.FindKey | mcts/monteCarlo.py:143 | dict.get finds the child stored under the action, or none exactly when no child has it |
| MonteCarlo.RerootedArena | mcts/monteCarlo.py:145-148 | re-rooting at a child of the root keeps the arena invariant with the child as root |
| MonteCarlo.MCTree.constructor | mcts/monteCarlo.py:17-32 | one root node without parent and with prior 1.0, c = 1, no subtree ends, reached depth -1 |
| MonteCarlo.MCTree.Expand | mcts/node.py:89-151 | succeeds exactly when the credit is in [0, 1] and the policy covers every legal action; then one child per legal action with prior credit * policy, or a single child at action 0 with prior 1, and the oracle's value stored |
| MonteCarlo.MCTree.ScoresOf | mcts/node.py:49-55 | one score per child when every child has a score |
| MonteCarlo.MCTree.ChooseBest | mcts/node.py:44-66 | raises with no children; otherwise returns a child whose score is within tolerance of the maximum, every score being below or close to it |
| MonteCarlo.MCTree.FoldScores | mcts/node.py:49-62 | the loop over the children in dict order gives TieFold of their scores, and raises exactly when a child's score raises |
| MonteCarlo.MCTree.ScoresNoneGrows | mcts/node.py:49-55 | a child without a score makes the whole scan raise |
| MonteCarlo.MCTree.Backup | mcts/monteCarlo.py:101-109 | exactly the nodes on the leaf's parent path are updated, each once with its backed-up value; links are kept |
| MonteCarlo.MCTree.Descent | mcts/monteCarlo.py:35-92 | the search stops at a node below the root, keeps the root's visit count and counts at most one terminal step |
| MonteCarlo.MCTree.TreePolicy | mcts/monteCarlo.py:35-98 | one pass raises the root's visit count by exactly 1 and records the deepest depth reached |
| MonteCarlo.MCTree.Descend | mcts/monteCarlo.py:83-91 | the child gets the step's reward and is terminated on a done step; no other node changes |
| MonteCarlo.MCTree.SelectAction | mcts/monteCarlo.py:112-137 | k passes raise the root's visit count by k, and the returned action is a child key of the root |
| MonteCarlo.MCTree.Succeed | mcts/monteCarlo.py:141-150 | succeeds exactly when the action is a child key of the root; the child becomes the root, without parent, with p = 1.0 and emptied children; reached depth -1 and subrt 0 |

## Left out

- Observation tensors (`get_hwv_map`, `get_box_hwv_map`, `remainingBoxes_wv_map`, pack_env/packingEnv.py:199-207): these format network input and are not modelled.
- The network, softmax and training (model_arch/) are not part of this model. The search uses an `Oracle` instead.
- pack_env/container_sets.py is not part of this model. `ContainerSets` is the abstract `CSOps<S>` record, so nothing about its own behaviour is proved.
- The test data mode of `PackEnv` uses a `TestingBoxSeqCreator` that the repository does not define. The box list of an episode is a parameter of `StartEpisode` and `Reset` instead of a call into a generator.
- `Env.SortInitContainerIdsOrder`: Python's stable sort followed by a reversal puts equal-volume containers in reverse input order. The lemma states the descending order and the permutation, not the order among equal volumes.
- `MonteCarlo.MCTree.constructor`: takes an integer search depth. With `search_depth=None` the source reads an attribute it never sets and raises.
- `time.time`, `time.clock` and debug printing are not modelled. (`time.clock` no longer exists in recent Python.)
- `roll_out`: only its final backward fold is modelled (`MctsNode.FoldBack`). Its sampling loop is not, and `expand` does not call it.
- `MonteCarlo.MCTree.Expand`: modelled only for an unexpanded node, the only case `tree_policy` reaches. When the policy misses a legal action, the source raises after adding some children; the model raises with the nodes unchanged.
- The square root in `get_u_value` is a function parameter (`sqrt`).
- `math.isclose` is evaluated exactly over reals. Floating-point rounding is not modelled.
- `np.round(…, 2)` on the weights of cut pieces is left out, so weights are shared exactly.
- numpy integer widths and overflow are not modelled.
- A `Failed` outcome of the environment's step inside the search is treated like a raised exception.
- `used_containers` is a set: the source rebuilds a duplicate-free list.
- `Box` fields that default to `None` start as 0, -1 or "". `orig_size` and `orig_intXY_sort_size` are not modelled.
- The deep copy of the environment in `tree_policy` is a value copy of `E`. Search never changes the tree's own environment.
- `MonteCarlo.MCTree.Backup` requires parents to sit before their children in the arena, which holds for every tree the class builds.
- `MonteCarlo.MCTree.SelectAction`: `check_print` is forced off in the source, so only that path is modelled.
- `MonteCarlo.MCTree.Descent`: does not state which of the four stopping cases produced the backed-up value. The case analysis lives in its body.
- `ContainerModel.Container.constructor`: requires the container's sides to lie within max_X, max_Y and max_Z, which every catalog container meets.
- `ContainerModel.Container.DropBox`: requires a box footprint of at least 1 by 1. The placement query indexes the footprint's corners.
- `drop_box` returns `(True, box)` on success and `(False, None)` on failure. `ContainerModel.Container.DropBox` returns only the flag: the box in the pair is the caller's own `box` object, whose new position the contract states.
- The container stores value snapshots of placed boxes. Later changes to a placed `Box` object are not reflected in its list.
- `ContainerModel.Container.UpdateHeightMap`: requires a footprint inside the height map, as `drop_box` guarantees.
- `BoxSeq.CuttingBoxSeqCreator.constructor`: the two `assert`s of `__init__` are preconditions.
- The random container choice of `CuttingBoxSeqCreator.__init__` is overridden in the source by container 11, so only container 11 is modelled.
- `next_box`, `next_N_boxes` and `remaining_boxes` are plain slices and are not modelled.
- Search nodes are values in an arena, so `terminate` and `update` are functions on arena entries.
- `credit` has no `None` default: the tree's credit is a constructor argument.
- `Heuristic`: heights are reals. A stamp for orientation 2 or 3 slices with the anchor's real z; Python raises on a float index, modelled as `Raised` whenever z is not 0.
- The `customer_id` field of `PredictionBoxSeqCreator` is not modelled.
- `Heuristic.CheckPacking`: does not state that each part's boxes still carry the placement of that part's container. A box is stamped again by every later prefix of its pass that packs, and the contract does not follow those restamps.
- `container_wise_packing` (pack_env/packingHeuristic.py:98-114) is a report string built for printing. `Heuristic.CheckPacking` returns the names, container ids, packings and parts it is built from, but not the string.
- `Heuristic.StampBoxes`: the boxes the heuristic stamps are `Geometry.Box` objects with integer sides, while predict.py:79 builds them with the real sides `l, w, h`. Planning uses the items' real sides; only the sides written back onto the boxes are integers.
- `BoxSeq.PredictionBoxSeqCreator.constructor`: requires a non-empty order. On an empty one `__init__` raises `IndexError` reading `customer_order_list[0]`, and a Dafny constructor cannot return that outcome.
- `Env.PackEnv.StartEpisode`: `curSlot` (the queue slot of the current box) is kept when it still indexes the new list and is set to -1 otherwise. After a reset that raises, the source keeps its old `current_box` object; the model keeps only a slot number.
- The plotting, prediction driver and statistics scripts are not part of this model.

## Findings

| source | as written | input that shows it | evidently intended | confidence | as-written member | corrected member |
|---|---|---|---|---|---|---|
| pack_env/box_seq_generator.py:174-177 | `pop_box` reads `self.n_foreseeable_box`, but `__init__` sets `self.n_forseeable_box` (line 110), so the attribute lookup raises `AttributeError` | `pop_box(0)` on a creator with a non-empty box list | remove the box at `idx` when `idx < len(box_list)` and `idx < n_forseeable_box` | not executed | BoxSeq.CuttingBoxSeqCreator.PopBoxAsWritten | BoxSeq.CuttingBoxSeqCreator.PopBox |
