# sam_road_map training data: a verified model

This project models the data side of the SAM-based road-graph extractor
`sam_road_map` in Dafny:

- the fixed CityScale tile partition into training, validation and test tiles
  (`cityscale_data_partition`);
- the grid of evaluation patches laid over one image (`get_patch_info_one_img`);
- the graph label generator (`GraphLabelGenerator`):
  - its constructor derives, once per road graph, the points excluded near
    crossovers, the NMS score overrides of junctions and the anchor draw
    weights;
  - `sample_patch` turns one patch into a label: the kept points in rotated
    patch-local coordinates, and one topology sample per drawn anchor (pairs
    with nearest neighbours, shall-connect flags, validity flags);
- the batch collation that pads graph point lists with zero points
  (`graph_collate_fn`);
- the train / validation / test split script for a directory of samples
  (`generate_data_split`).

The modules follow the source:

| File | Module | Models |
|---|---|---|
| `partition.dfy` | `CityScalePartition` | `cityscale_data_partition` |
| `patch_grid.dfy` | `PatchGrid` | `get_patch_info_one_img` |
| `geometry.dfy` | `Geometry` | KD-tree ball query, R-tree box query, the patch transform |
| `samples.dfy` | `Samples` | the per-anchor samples and the draw probabilities |
| `label_generator.dfy` | `GraphLabels` | `GraphLabelGenerator` |
| `collate.dfy` | `Collate` | `graph_collate_fn` |
| `outcomes.dfy` | `Outcomes` | the `Result` type |
| `string_order.dfy` | `StringOrder` | Python's string order and `sorted` |
| `data_split.dfy` | `DataSplit` | `generate_data_split` |

How the source's constructs are modelled:

- **Loops.** Loops that build lists, sets and dictionaries are Dafny methods
  with loop invariants. Each method is proved against a function or predicate
  that states what the loop computes.
- **The generator.** `GraphLabelGenerator` is a class. Its score and weight
  arrays are `array<real>` fields, and its constructor fills them.
- **The two spatial indexes.** The R-tree and the KD-tree are modelled by what
  their queries return:
  - a box query returns every point inside the box, boundary included;
  - a ball query returns every point whose squared distance from the centre is
    at most r².
- **Randomness and opaque library calls.** These are the fields of an
  `Oracles` value, and `Sound(o)` states what the model relies on from each:
  - the uniform NMS scores and the Gaussian noise;
  - the weighted anchor draw;
  - `graph_utils.nms_points`;
  - the nearest-neighbour query;
  - the bounded breadth-first search.
- **The shuffle.** `random.shuffle` after `random.seed(seed)` is a
  parameter of the seed and the list, and it must return a permutation. The
  seed and the ratios keep the source's defaults (42, 0.7, 0.15, 0.15), and
  the rotation index of `sample_patch` keeps its default 0.
- **The directory.** The directory listing is a sequence of names, and
  `os.path.exists` is membership in that listing.

Patch-local coordinates: the points of a patch are moved by subtracting the
first corner `(x0, y0)` of the patch argument (`dataset.py:113` and
`dataset.py:194`). That is the minimum corner of the query box when the
corners are given as (minimum, maximum). `SamplePatch` passes `c0` as that
origin.

## Model

| member | source | states |
|---|---|---|
| CityScalePartition.DataPartition | dataset.py:21-39 | A tile is in the training list iff x % 10 < 8, in validation iff x % 20 == 18, in test iff x % 10 == 9 or x % 20 == 8, for x below 180. Each list is strictly ascending, and the sizes are 144 / 9 / 27. |
| CityScalePartition.PartitionIsExact | dataset.py:27-38 | Every tile below 180 is in exactly one of the three lists. |
| CityScalePartition.PartitionBelow | dataset.py:27-38 | After the first x iterations, each list holds exactly the tiles below x that satisfy its test, in ascending order, and its length is the closed-form count. |
| CityScalePartition.ListBelowMembers | dataset.py:27-38 | The list built over the first x tiles holds exactly the qualifying tiles below x. |
| CityScalePartition.ListBelowIncreasing | dataset.py:27-38 | The list built by appending in loop order is strictly increasing and bounded by x. |
| CityScalePartition.ListBelowCount | dataset.py:27-38 | The appended list has as many entries as the closed-form count of qualifying tiles. |
| CityScalePartition.CountsOfTheTiles | dataset.py:27-38 | Over 180 tiles the counts are 144 training, 9 validation and 27 test tiles. |
| PatchGrid.PatchInfoOneImg | dataset.py:42-53 | The result is the x-outer, y-inner grid over the rounded linspace samples. It has n² entries. Entry k has first corner (samples[k / n], samples[k % n]) and opposite corner that corner plus the patch size. |
| PatchGrid.GridEntries | dataset.py:48-52 | Entry k of the grid is the patch at xs[k / \|ys\|], ys[k % \|ys\|], and the grid has \|xs\|·\|ys\| entries. |
| PatchGrid.GridCell | dataset.py:48-52 | Entry by entry, the nested loops put x outermost. |
| PatchGrid.EvalSamplesEnds | dataset.py:44-47 | The first sample is the margin. With two or more patches per edge, the last sample is image size − patch size − margin. |
| PatchGrid.Linspace | dataset.py:46 | `np.linspace` gives num samples; the first is start and, for num > 1, the last is stop. |
| PatchGrid.LinspaceEvenlySpaced | dataset.py:46 | Consecutive linspace samples differ by one common step. |
| PatchGrid.EvalSamples | dataset.py:42-47 | One position per patch along the edge, each Python's `round` of its linspace sample: a nearest integer, the even one on a tie. |
| PatchGrid.PatchesInsideImage | dataset.py:44-53 | When a patch fits between the margins, every patch lies inside the image and keeps the margin free on all four sides. |
| PatchGrid.SamplesInRange | dataset.py:44-47 | When a patch fits between the margins, every position lies between sample_min and sample_max. |
| PatchGrid.LinspaceWithin | dataset.py:46 | Every linspace sample lies between start and stop. |
| PatchGrid.RoundHalfEven | dataset.py:47 | Python's `round` gives a nearest integer to its argument, and the even one when the argument lies halfway. |
| Geometry.BallQuery | dataset.py:84 | The ball query returns exactly the indices whose point lies within r of the centre, boundary included. |
| Geometry.BoxQuery | dataset.py:115 | The box query returns exactly the indices whose point lies in the box, boundary included. |
| Geometry.NormaliseBox | dataset.py:114 | The query box has min ≤ max on both axes, its bounds are coordinates of the corners, and it contains both corners. |
| Geometry.NormaliseBoxOrderFree | dataset.py:114 | The query box is the same for swapped corners and for the other diagonal. |
| Geometry.RotPow | dataset.py:199-209 | matrix_power(rot^T, k) sends a centred (x, y) to itself, (y, −x), (−x, −y) or (−y, x) as k mod 4 is 0, 1, 2 or 3; a negative k multiplies by the inverse, rot, as many times as k is below zero. |
| Geometry.Rotate | dataset.py:198-209 | About the patch centre, k quarter turns send (x, y) to itself, (y, P − x), (P − x, P − y) or (P − y, x) as k mod 4 is 0, 1, 2 or 3. |
| Geometry.LocalTransform | dataset.py:194-209 | With (dx, dy) the offset from the first corner, the transformed point is (dx, dy), (dy, P − dx), (P − dx, P − dy) or (P − dy, dx) as k mod 4 is 0, 1, 2 or 3. |
| Geometry.QuarterTurn | dataset.py:198-209 | One quarter turn about the patch centre maps (x, y) to (y, P − x). |
| Geometry.NoTurnIsIdentity | dataset.py:209 | Rotation index 0 leaves every point unchanged. |
| Geometry.RotateCompose | dataset.py:209 | Turning by a and then by b is turning by a + b. |
| Geometry.FourTurnsIdentity | dataset.py:209 | Rotation index k + 4 is the same transform as rotation index k. |
| Geometry.MultipleOfFourTurnsIdentity | dataset.py:209 | Any multiple of four turns is the identity. |
| Geometry.RotPowAdd | dataset.py:209 | Matrix powers of the rotation add: rot^(a+b) = rot^b ∘ rot^a. |
| Geometry.RotPowKeepsSquare | dataset.py:209 | Rotating about the centre keeps a centred square. |
| Geometry.RotateSquareOnto | dataset.py:198-209 | Every rotation maps the patch square [0, P]² into itself, and onto itself: 3k turns give each point's preimage. |
| Geometry.NegPowIsThreeFold | dataset.py:209 | The −k-th matrix power equals the 3k-th. |
| Geometry.NegativeTurns | dataset.py:209 | A negative rotation index −k turns the other way: it equals 3k turns and undoes k turns in either order. |
| Geometry.LocalTransformKeepsPatch | dataset.py:194-210 | A point inside the patch lands inside [0, P]² after the shift and the rotation, before the noise. |
| GraphLabels.NearMembers | dataset.py:80-86 | The excluded indices are exactly the points within 4 of some crossover point. |
| GraphLabels.Near | dataset.py:82-85 | The union of the ball queries holds only indices of points. |
| GraphLabels.NearIndices | dataset.py:101-105 | An index is near the centre set iff its point lies within r of the point of some centre. |
| GraphLabels.NearCrossovers | dataset.py:83-85 | The loop over crossovers, uniting one ball query per crossover, yields exactly the points within r of some crossover. |
| GraphLabels.JunctionIndices | dataset.py:89-93 | The loop over vertices yields exactly the vertices of degree ≠ 2. |
| GraphLabels.NearJunctions | dataset.py:102-105 | The loop over junctions, in any order of the set, yields the union of their ball queries. |
| GraphLabels.NearIndicesAdd | dataset.py:102-105 | Adding one junction's ball query to the running union is the union over the enlarged junction set. |
| GraphLabels.InterestingIndices | dataset.py:99-108 | The interesting points are those within 32 of a junction or of a crossover. |
| GraphLabels.Interesting | dataset.py:99-108 | A point is interesting iff it lies within 32 of a vertex of degree ≠ 2 or of a crossover point. |
| GraphLabels.Junctions | dataset.py:91-93 | The junction set is exactly the vertices of degree ≠ 2. |
| GraphLabels.OverrideScores | dataset.py:94-95 | The NMS override of a point is 2.0 iff its degree is not 2, and 0 iff it is 2. |
| GraphLabels.SampleWeights | dataset.py:109-110 | The draw weight of a point is 0.9 iff it is interesting and 0.1 otherwise, always positive. |
| GraphLabels.OverrideScatterAsWritten | dataset.py:94-95 | As written, the scatter raises iff no vertex has degree ≠ 2; otherwise it gives the intended scores. |
| GraphLabels.RingRoadRejected | dataset.py:95 | A graph whose vertices all have degree 2 is rejected as written, though its intended scores are all zero. |
| GraphLabels.Scatter | dataset.py:94-95 | The fresh array holds `value` at the listed indices and `fill` elsewhere. |
| GraphLabels.EnumerateSet | dataset.py:119 | `list(set)` lists every member exactly once, in an unspecified order. |
| GraphLabels.GraphLabelGenerator.constructor | dataset.py:80-110 | The new generator is Valid. Its excluded set, override array and weight array equal their specifications over the subdivided graph. |
| GraphLabels.GraphLabelGenerator.Candidates | dataset.py:113-116 | A point is a candidate iff it lies in the box spanned by the two corners, boundary included, and is not excluded. |
| GraphLabels.GraphLabelGenerator.CandidatesOrderFree | dataset.py:113-116 | The candidates do not depend on the order of the corners or on which diagonal names the patch. |
| GraphLabels.NmsScores | dataset.py:134-136 | A candidate scores 2.0 iff it is a junction; any other candidate keeps its uniform score, at most 1.0. |
| GraphLabels.JunctionsOutrank | dataset.py:133-136 | Every junction outranks every non-junction in the suppression. |
| GraphLabels.SentinelLabel | dataset.py:120-127 | An empty patch yields one point and TOPO_SAMPLE_NUM samples of MAX_NEIGHBOR_QUERIES slots, each well shaped with nothing valid. |
| GraphLabels.Anchors | dataset.py:146-151 | TOPO_SAMPLE_NUM anchors are drawn, each a position in the kept list. |
| GraphLabels.KnnRow | dataset.py:155-161 | Each anchor's neighbour row has MAX_NEIGHBOR_QUERIES + 1 entries. |
| GraphLabels.LabelSamples | dataset.py:146-190 | TOPO_SAMPLE_NUM samples; sample i belongs to anchor i. Its valid slots pair the anchor with its real nearest neighbours other than itself. A slot is connected iff the search from the anchor, bounded by NEIGHBOR_RADIUS // 4 hops, reached that neighbour. The sample is well shaped. |
| GraphLabels.AssembleLabel | dataset.py:146-216 | Raises exactly when no point is kept (the draw at 149-151 fails) or when MAX_NEIGHBOR_QUERIES is 0 with at least one anchor (the k = 1 query at 161 returns a squeezed index array, and the row indexing at 168 fails). Otherwise each point is the kept point shifted by the first corner, rotated, plus its noise, and sample i is the sample of the i-th drawn anchor; the label is well shaped. |
| GraphLabels.PatchLabel | dataset.py:119-216 | No candidates give the sentinel and no kept nodes. Otherwise the candidates are listed once each, scored by NmsScores, and the kept nodes are the listed candidates at the indices `nms_points` keeps. The call raises exactly when none is kept (the empty draw) or the neighbour query is squeezed (the squeezed index), and the label is the one of the kept nodes: their points transformed and jittered, and the samples of the drawn anchors. |
| GraphLabels.KeptPointsInPatch | dataset.py:194-210 | Kept nodes drawn from candidates inside the patch box [c0, c0 + P] land, after the shift and the rotation, in [0, P]². |
| GraphLabels.GraphLabelGenerator.SamplePatch | dataset.py:112-216 | The label of the candidates in the box spanned by c0 and c1, with c0 as the origin and the generator's override scores, as in PatchLabel: the kept nodes are the candidates `nms_points` keeps. When c1 is c0 plus one patch size, every kept point lies, before the noise, in the rotated patch square [0, P]². |
| Samples.Below | dataset.py:168 | The real entries of a neighbour row are those below the kept count, each with its multiplicity in the row. |
| Samples.BelowAppend | dataset.py:168 | The mask filter of a concatenation is the concatenation of the filters, so the filter keeps row order. |
| Samples.BelowSingle | dataset.py:168 | A single entry is kept iff it is below the kept count. |
| Samples.DropFirst | dataset.py:169 | `[1:]` of a non-empty row is everything after its first entry; an empty row stays empty. |
| Samples.ValidNeighbours | dataset.py:168-169 | The neighbours are real kept indices, at most one fewer than the row. |
| Samples.NeighbourCountFits | dataset.py:161-169 | A row of MAX + 1 entries gives at most MAX real neighbours. |
| Samples.AnchorSample | dataset.py:177-190 | The two loops give exactly `width` slots. The real slots (src, nbr) are valid and carry their flag; the padding slots are (src, src), invalid and not connected. |
| Samples.SampleForAnchor | dataset.py:166-190 | One anchor's sample meets SampleOfAnchor: its slots match the neighbours and the search, it is well shaped, and every pair starts at the anchor. |
| Samples.BuildSamples | dataset.py:164-190 | One sample per anchor, in anchor order, each meeting SampleOfAnchor. |
| Samples.SlotsWellShaped | dataset.py:177-190 | Slots built this way are well shaped: indices below the kept count, valid slots a prefix, padding self-paired and unconnected. |
| Samples.ValidTargetsOfSlots | dataset.py:180-188 | The targets of the valid slots, read in slot order, are the neighbours. |
| Samples.ValidTargetsRecover | dataset.py:180-188 | Reading the valid slots back recovers exactly the neighbours the sample was built from. |
| Samples.FakeSample | dataset.py:126 | The stand-in sample has `width` (0, 0) pairs, nothing valid and nothing connected. |
| Samples.SentinelSamples | dataset.py:127 | TOPO_SAMPLE_NUM copies of the stand-in sample. |
| Samples.ChoiceProbabilities | dataset.py:151 | The weights divided by their sum form a distribution: each probability is in (0, 1] and they sum to 1. |
| Samples.SumScale | dataset.py:151 | Scaling every weight scales the sum. |
| Samples.EntryBelowSum | dataset.py:151 | Each non-negative weight is at most the sum. |
| Samples.SumPositive | dataset.py:151 | A non-empty sum of positive weights is positive. |
| Collate.MaxRows | dataset.py:267 | The maximum point count bounds every item's count and is attained by some item. |
| Collate.Padded | dataset.py:270-271 | The padded list has the maximum length, starts with the item's own points unchanged, and continues with (0, 0). |
| Collate.PaddedStackable | dataset.py:268-273 | Point lists padded to a common length all have one shape, so they stack. |
| Collate.CollatedGraphPoints | dataset.py:265-273 | The collated graph points keep each item's points as a prefix, pad with zero points up to the batch maximum, and stack. |
| Collate.GatherColumn | dataset.py:266 | The values of one key across the batch, in batch order. A missing key is an error. |
| Collate.PadPoints | dataset.py:267-273 | The padding loop gives each list padded to the maximum. A row that is not a point is an error. |
| Collate.CollateKey | dataset.py:265-275 | One key collates iff every item has it and its values stack; the result is the specified collation. |
| Collate.CollateBatch | dataset.py:261-276 | An empty batch is an error. Otherwise the batch collates iff every key of the first item collates; the result has exactly those keys, each mapped to its collation. |
| StringOrder.LexLeTotal | os/generate_train_test_split.py:53-55 | Any two strings are ordered one way or the other. |
| StringOrder.LexLeAntisymmetric | os/generate_train_test_split.py:53-55 | Strings ordered both ways are equal. |
| StringOrder.LexLeTransitive | os/generate_train_test_split.py:53-55 | The string order is transitive. |
| StringOrder.LexLe | os/generate_train_test_split.py:53-55 | If a non-empty a is at most b, then b is non-empty and its first character is not smaller. |
| StringOrder.LexLeFirstDifference | os/generate_train_test_split.py:53-55 | a ≤ b iff a is a prefix of b or a has the smaller character at the first position where they differ. |
| StringOrder.Insert | os/generate_train_test_split.py:53-55 | Insertion adds exactly one copy of the entry. |
| StringOrder.InsertSorted | os/generate_train_test_split.py:53-55 | Inserting into a sorted list keeps it sorted. |
| StringOrder.Sorted | os/generate_train_test_split.py:53-55 | `sorted` returns an ascending permutation of its argument. |
| StringOrder.SortedUnique | os/generate_train_test_split.py:53-55 | Two sorted lists with the same entries are equal, so `sorted` is determined by its argument's multiset. |
| DataSplit.ImageNameParts | os/generate_train_test_split.py:24-25 | An accepted name is its base name plus ".png", and that base does not end in "_keypoints" or "_road_mask". |
| DataSplit.BaseNameInjective | os/generate_train_test_split.py:24-25 | Distinct accepted names have distinct base names. |
| DataSplit.IsImageName | os/generate_train_test_split.py:24 | An accepted name ends in ".png". |
| DataSplit.BaseName | os/generate_train_test_split.py:25 | `file[:-4]` is the name less its last four characters, which follow it. |
| DataSplit.RequiredFiles | os/generate_train_test_split.py:28-33 | The four required files start with the image itself. |
| DataSplit.KeptMembers | os/generate_train_test_split.py:23-36 | A base name is collected iff its ".png" is listed, is not a keypoint or road-mask image, and all four of its files are present. |
| DataSplit.KeptDistinct | os/generate_train_test_split.py:23-36 | A listing without repeats gives base names without repeats. |
| DataSplit.Kept | os/generate_train_test_split.py:22-36 | At most one base name is collected per listed name. |
| DataSplit.ScanDirectory | os/generate_train_test_split.py:22-36 | The loop over the listing collects exactly the kept base names, in listing order. |
| DataSplit.TruncTowardZero | os/generate_train_test_split.py:43-44 | `int` of a float drops the fraction toward zero. |
| DataSplit.Trunc | os/generate_train_test_split.py:43-44 | `int` of a non-negative float is non-negative, of a non-positive one non-positive. |
| DataSplit.ClampIndex | os/generate_train_test_split.py:47-49 | A slice bound counts from the end when negative and is clamped to the list. |
| DataSplit.Slice | os/generate_train_test_split.py:47-49 | A slice with in-range bounds is the subsequence between them. |
| DataSplit.SlicesPartition | os/generate_train_test_split.py:47-49 | With non-negative sizes, the three slices concatenate back to the shuffled list. |
| DataSplit.ScaledBounds | os/generate_train_test_split.py:43-44 | For a non-negative ratio, total × ratio is at least 0; for a ratio at most 1, it is also at most total. |
| DataSplit.ShareSize | os/generate_train_test_split.py:43-44 | `int(total_size * ratio)` is at least 0 for a non-negative ratio, and at most the total for a ratio at most 1. |
| DataSplit.SplitBySizes | os/generate_train_test_split.py:47-56 | The dictionary has exactly the keys train, validation and test, each a sorted permutation of its slice. |
| DataSplit.SplitFiles | os/generate_train_test_split.py:42-56 | The split by ratios has exactly the three keys, each list sorted; SplitFilesPartition and TrainShare state its contents. |
| DataSplit.SplitListsDetermined | os/generate_train_test_split.py:52-56 | Each list is the only sorted arrangement of its slice. |
| DataSplit.SplitDetermined | os/generate_train_test_split.py:47-56 | A dictionary with the three keys, each a sorted permutation of its slice, is the split. |
| DataSplit.SplitIsPartition | os/generate_train_test_split.py:42-56 | With non-negative sizes the three lists together hold every file exactly once. The training list has min(t, total) entries, and validation gets v of the rest. |
| DataSplit.TrainShare | os/generate_train_test_split.py:42-53 | With a training ratio in [0, 1] and any validation ratio, the training list has exactly int(total × ratio) files. |
| DataSplit.SplitFilesPartition | os/generate_train_test_split.py:42-56 | With non-negative ratios, no file is lost and none is in two lists. |
| DataSplit.CutAndSort | os/generate_train_test_split.py:47-56 | The slicing and sorting statements give the three keys, each a sorted permutation of its slice. |
| DataSplit.GenerateDataSplit | os/generate_train_test_split.py:6-66 | The result is the split of the kept names, shuffled under the seed, by the train and validation ratios alone; the test ratio is never read. With non-negative ratios, every kept name lands in exactly one list. |

## Left out

- Floating point: coordinates, ratios, scores and weights are exact reals.
  float32 storage, the linspace rounding error and the float product
  `total_size * train_ratio` are not modelled.
- Graph construction is not part of this model, because these routines work
  on the graph, not on what the rest of the pipeline uses:
  - `graph_utils.igraph_from_sat2graph_format`;
  - `find_crossover_points`;
  - `subdivide_graph`.

  The model takes the subdivided points, their degrees and the crossover
  points as inputs.
- Opaque library calls: `graph_utils.nms_points` and `graph_utils.bfs_with_conditions`
  are oracles with only their index ranges stated. Which points they keep
  or reach is the oracle's choice.
- KD-tree and R-tree internals: only their query results are modelled, and the
  nearest-neighbour query is an oracle.
- Randomness: `np.random.uniform`, `np.random.choice`, `np.random.normal` and
  `random.shuffle` are oracles. The shuffle takes the seed; `np.random.seed`
  in the split script seeds nothing the script draws.
- I/O: reading images, `json.dump` of the split, `print` and `os.listdir` order
  are not modelled. The listing is an input sequence.
- GraphLabels.AssembleLabel: the kept points are taken as `patch_points` at
  the kept indices. The model thereby assumes that the points `nms_points`
  returns are exactly those, in the order of the indices it returns; the
  source of `graph_utils` is not part of this model. Whether `nms_points` can
  keep no point of a non-empty input is left open: the model raises the draw
  error in that case.
- GraphLabels.PatchLabel: which candidates `nms_points` keeps is the oracle's
  choice; the contract ties the kept nodes to that choice over the candidates
  in their enumeration order, which is left unspecified.
- GraphLabels.Config: TOPO_SAMPLE_NUM and MAX_NEIGHBOR_QUERIES are natural
  numbers. With a negative value Python's list repetition gives empty lists
  on the empty-patch path, and `np.random.choice` or the KD-tree query raises
  on the other path; neither behaviour is modelled.
- Not part of this model:
  - `CityScaleDataset`;
  - the image and mask loading;
  - the visualiser `test_graph_label_generator`;
  - `utils.py`;
  - the training and inference scripts.
- The patch tensor types: tensors are sequences of rows of reals, and
  `torch.stack` is modelled by its shape requirement.

## Findings

| source | as written | input that shows it | evidently intended | confidence | as-written member | corrected member |
|---|---|---|---|---|---|---|
| dataset.py:95 | `nms_score_override[np.array(list(itsc_indices))] = 2.0` builds the index array from a list that is empty when no vertex has degree ≠ 2. numpy gives an empty array the float dtype, and indexing with a float array raises IndexError. | A road graph that is a single ring: every subdivided vertex has degree 2, e.g. degrees [2, 2, 2]. | All override scores 0, and the generator built as for any other graph. | medium, not executed | GraphLabels.OverrideScatterAsWritten | GraphLabels.OverrideScores |
