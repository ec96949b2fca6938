# DECODE core in Dafny

This project models the core of DECODE, a deep-learning tool for single-molecule
localisation microscopy, and proves properties of the model. The network predicts
per-pixel detection probabilities and sub-pixel features. The core turns those
predictions into emitter sets, compares them with ground truth, and builds the
training targets. One module per file:

- `emitter_set.dfy` (module `EmitterSets`) covers the EmitterSet data model:
  - records `(xyz, phot, frame_ix, id)` with one `xy_unit` and `px_size` per set;
  - padding of 2-D coordinates;
  - px/nm conversion with exponent 1 for positions and sigmas and 2 for
    Cramér-Rao bounds;
  - half-open frame subsets, `iframe`, per-frame splitting, `cat` with both
    frame-shift modes, `+` and `chunks`;
  - a class `EmitterSetObject` for the mutable object (`_sanity_check`, `+=`,
    `_inplace_replace` and the unit-suffixed views).
- `loose_emitter_set.dfy` (`LooseEmitters`): the `LooseEmitterSet` constructor
  checks. It also distributes each on-interval `[t0, t0 + ontime)` over integer
  frames, with photon conservation proved.
- `target_generator.dfy` (`TargetGenerators`) covers target generation:
  - the frame window of a target generator;
  - the ROI pixels and offsets around central pixels;
  - `ParameterListTarget`, which fills a frames × `n_max` slot table and a mask
    held in arrays;
  - the fork of several generators.
- `distance_grid.dfy` (`DistanceGrid`): `rule_out_dist_match`. It is a method that
  knocks rows and columns out of an `array2` in place, proved against a greedy
  specification function.
- `match_emittersets.dfy` (`MatchEmitterSets`) covers `GreedyHungarianMatching`
  and `NNMatching`:
  - `GreedyHungarianMatching`: constructor, `assign_kernel`, and the frame-wise
    `forward` with id alignment;
  - `NNMatching`: constructor and `forward`.
- `post_processing.dfy` (`PostProcessing`) covers the post-processors:
  - the `return_format` checks;
  - the threshold filter and feature look-up of `LookUpPostProcessing`;
  - `ConsistencyPostprocessing`: channel check, `skip_if`, and the merge of linked
    neighbouring active pixels into one emitter per cluster.
- `dependency.dfy` (`Dependencies`): `convert_mixed_list`, `convert_to_spec`,
  `add_update_package` (a method on a mutable dict), `conda`, `conda_meta` and
  `pip`, over insertion-ordered dicts.
- `coord_transform.dfy` (`CoordTransform`): `Offset2Coordinate`, which adds the
  pixel-centre meshes to channels 2 and 3.
- `types.dfy` (`RecursiveNamespaces`): `RecursiveNamespace` as a value tree, and
  its deliberately asymmetric `to_dict` round trip.
- `wrappers.dfy` (`Wrappers`): `Option`, `Result`, `Outcome` and the Python
  exception kinds the source raises.

The modelling choices:

- Floating-point numbers are modelled as reals.
- Distances come from a supplied metric, or a supplied matrix of finite distances
  and infinities, so no square root is taken.
- The EmitterSet, post-processing and target-generator behaviour comes from the
  repository's tests; their implementation files are not part of this model.
- The model settles the following points by the code and its tests:
  - `chunks(k)` yields `k` contiguous pieces, the first `len % k` one record
    larger. It does not yield blocks of at most `k` records.
  - `ConsistencyPostprocessing.skip_if` is true when the number of pixels with
    probability `>= raw_th` exceeds `skip_th × N·H·W`. A "maximum below `skip_th`"
    rule contradicts the test's all-zero case.
  - Only `'batch-set'` and `'frame-set'` are valid return formats.
  - The deepsmlm matcher splits frames inclusively (`split_in_frames(lo, hi)` gives
    `hi - lo + 1` frames there). The decode EmitterSet is half-open. `forward` is
    parametrised by the convention it is given.
  - `ParameterListTarget` has `ix_high - ix_low` frame rows. The rendered targets
    of the target-generator window have `ix_high - ix_low + 1` frames.

## Model

| member | source | states |
|---|---|---|
| EmitterSets.Empty | test/unit/emitter/test_emitter.py:565-567 | the empty set has length 0 and no unit or pixel size |
| EmitterSets.PadTo3d | test/unit/emitter/test_emitter.py:140-153 | 2- or 3-column input is accepted, any other width refused; x, y kept, z = 0 for 2-column input, the given z otherwise |
| EmitterSets.NewEmitterSet | test/unit/emitter/test_emitter.py:26-44 | construction succeeds iff the width is 2/3 and every column has one entry per emitter; record i carries the padded xyz, phot, integer frame index and the given id or the unset id |
| EmitterSets.PaddedSetIsTwoDimensional | test/unit/emitter/test_emitter.py:135-153 | a set built from 2-column coordinates is constructed and still reports dimension 2 |
| EmitterSets.PxNmConversion | test/unit/emitter/test_emitter.py:156-212 | ValueError iff the unit is missing or a cross-unit request has no pixel size; same unit is the identity; px→nm multiplies x, y by px_size^power, nm→px divides, z unchanged |
| EmitterSets.ConversionRoundTrip | test/unit/emitter/test_emitter.py:172-185 | converting px→nm and back gives the original coordinates for every exponent |
| EmitterSets.CramerRaoConvertsAsSquare | test/unit/emitter/test_emitter.py:254-281 | converting a squared sigma with exponent 2 gives the square of the sigma converted with exponent 1 |
| EmitterSets.ConversionExamples | test/unit/emitter/test_emitter.py:172-185 | (0.25, 0.25, 5) px with (50, 100) is (12.5, 25, 5) nm; (25, 25, 5) nm is (0.5, 0.25, 5) px |
| EmitterSets.FramesInHas | test/unit/emitter/test_emitter.py:333-352 | a record is in the frame subset iff it is in the set and lo <= frame < hi |
| EmitterSets.FramesInMembers | test/unit/emitter/test_emitter.py:344-352 | every kept record has a frame in [lo, hi), membership is exact, and an empty or reversed range keeps nothing |
| EmitterSets.GetSubsetFrame | test/unit/emitter/test_emitter.py:333-352 | keeps the unit and pixel size; every kept frame lies in [lo, hi); every record with such a frame is kept and nothing else |
| EmitterSets.SubsetFrameEmptyIff | test/unit/emitter/test_emitter.py:344-349 | the subset is empty iff no record has a frame in [lo, hi); it is empty when lo >= hi |
| EmitterSets.AtFrame | test/unit/emitter/test_emitter.py:396-399 | holds exactly the records of frame f, metadata kept |
| EmitterSets.SplitInFrames | test/unit/emitter/test_emitter.py:384-399 | hi - lo pieces (none when lo >= hi); piece k holds exactly the records of frame lo + k |
| EmitterSets.FramesInSplit | test/unit/emitter/test_emitter.py:424-440 | splitting [lo, hi) at m splits the subset as a multiset |
| EmitterSets.SplitCatPermutation | test/unit/emitter/test_emitter.py:424-440 | concatenating the per-frame pieces gives the frame subset up to order |
| EmitterSets.IFrame | test/unit/emitter/test_emitter.py:355-375 | an integer i selects frames [i, i + 1) and a slice without a step selects [start, stop); a slice with a step or a list of frames raises NotImplementedError |
| EmitterSets.FirstUnit | test/unit/emitter/test_emitter.py:414-421 | the unit of the concatenation is one some input defines, and none only when no input defines one |
| EmitterSets.FirstPxSize | test/unit/emitter/test_emitter.py:414-421 | the pixel size of the concatenation is one some input defines, and none only when no input defines one |
| EmitterSets.Cat | test/unit/emitter/test_emitter.py:401-421 | fails iff both shift modes are given or the shift vector is too short; the result carries the first defined unit and pixel size |
| EmitterSets.CatAt | test/unit/emitter/test_emitter.py:401-413 | record j of input k sits at offset(k) + j with its frame shifted by that input's shift and nothing else changed; lengths add up |
| EmitterSets.CatShiftModes | test/unit/emitter/test_emitter.py:401-413 | with a constant c input k is shifted by k·c; with a vector s by s[k] |
| EmitterSets.Add | test/unit/emitter/test_emitter.py:292-298 | `a + b` is `cat((a, b), None, None)` |
| EmitterSets.AddLength | test/unit/emitter/test_emitter.py:300-305 | `a + b` holds a's records followed by b's, so its length is the sum |
| EmitterSets.Chunks | test/unit/emitter/test_emitter.py:307-323 | k pieces for k > 0, none otherwise, each with the set's metadata |
| EmitterSets.ChunkSizes | test/unit/emitter/test_emitter.py:318-323 | piece i has len/k records plus one for the first len % k pieces, so earlier pieces are never smaller |
| EmitterSets.ChunkExample | test/unit/emitter/test_emitter.py:318-323 | seven records in three chunks give sizes 3, 2, 2 |
| EmitterSets.ChunksCatRoundTrip | test/unit/emitter/test_emitter.py:310-316 | `cat(chunks(k))` reproduces the set exactly and the chunk lengths sum to its length |
| EmitterSets.EmitterSetObject.constructor | test/unit/emitter/test_emitter.py:26-44 | a new object is sane and describes exactly the given set, with no sigma or Cramér-Rao columns |
| EmitterSets.EmitterSetObject.SanityCheck | test/unit/emitter/test_emitter.py:471-489 | passes iff every column, including the optional sigma and Cramér-Rao columns, has one entry per emitter and every frame index is integral (the integer-column check is modelled as integrality); otherwise ValueError |
| EmitterSets.EmitterSetObject.InplaceReplace | test/unit/emitter/test_emitter.py:491-496 | every column, the unit and the pixel size are taken over, so the object equals the other set |
| EmitterSets.EmitterSetObject.AddInPlace | test/unit/emitter/test_emitter.py:300-305 | a sane set becomes `self + other` with length len(self) + len(other), its sigma and Cramer-Rao columns concatenated when both sets carry them; an insane one raises ValueError and is unchanged |
| EmitterSets.EmitterSetObject.Converted | test/unit/emitter/test_emitter.py:283-290 | `xyz_*` and `xyz_sig_*` convert with exponent 1, `xyz_cr_*` with exponent 2, from the stored unit and pixel size |
| LooseEmitters.Arange | test/unit/emitter/test_emitter.py:626-673 | the default ids 0..n-1 are distinct |
| LooseEmitters.NewLooseEmitterSet | test/unit/emitter/test_emitter.py:626-673 | succeeds iff width is 2/3, ids are unique, intensities and on-times are non-negative; the width and id errors carry the source's messages; records keep their data and distinct ids |
| LooseEmitters.Distribute | test/unit/emitter/test_emitter.py:675-707 | one record per frame touched by the on-interval |
| LooseEmitters.DistributeCoversOverlappingFrames | test/unit/emitter/test_emitter.py:675-707 | record k is frame floor(t0)+k with phot = intensity × overlap and the same xyz and id; a frame appears iff its exposure overlaps the on-interval |
| LooseEmitters.OverlapPositiveIff | test/unit/emitter/test_emitter.py:675-707 | a frame overlaps the on-interval iff it is one of the counted frames from floor(t0) on |
| LooseEmitters.OverlapSumIsOntime | test/unit/emitter/test_emitter.py:675-707 | the overlaps of the covered frames add up to the on-time |
| LooseEmitters.DistributeConservesPhotons | test/unit/emitter/test_emitter.py:675-707 | the per-frame photons of one emitter add up to intensity × ontime |
| LooseEmitters.DistributeExamples | test/unit/emitter/test_emitter.py:675-707 | t0 = -0.5, ontime 0.4 gives frame -1 with 0.4; t0 = 3.2, ontime 2, intensity 2 gives frames 3, 4, 5 with 1.6, 2, 0.4 |
| LooseEmitters.ReturnEmitterSet | test/unit/emitter/test_emitter.py:675-707 | the distributed set keeps the metadata, holds a record iff it is in some emitter's distribution, and carries exactly the total photons of all emitters |
| LooseEmitters.DistributeAllMembers | test/unit/emitter/test_emitter.py:687-707 | the records distributed from several emitters are exactly the records of each emitter's distribution |
| LooseEmitters.ReturnEmitterSetExample | test/unit/emitter/test_emitter.py:675-707 | the two-emitter set of the test gives frame -1 with 0.4 photons for emitter 0 and frames 3, 4, 5 with 1.6, 2, 0.4 for emitter 1, four records in all |
| LooseEmitters.DistributeAllConserves | test/unit/emitter/test_emitter.py:725-734 | distributing many emitters conserves the total of intensity × ontime |
| TargetGenerators.TargetGenerator.constructor | test/unit/neuralfitter/test_targetgenerator.py:21-24 | the window fields are those given |
| TargetGenerators.TargetGenerator.Forward | test/unit/neuralfitter/test_targetgenerator.py:68-80 | a missing bound falls back to the field; ix_high - ix_low + 1 frames, frame k holding exactly the emitters of frame ix_low + k; a reversed window gives no frame, which is this model's own choice |
| TargetGenerators.RenderedFrameExamples | test/unit/neuralfitter/test_targetgenerator.py:68-80 | windows (0, 0) and (-1, 1) give 1 and 3 frames for any set |
| TargetGenerators.Offsets | test/unit/neuralfitter/test_targetgenerator.py:135-140 | the offsets run from -(r-1)//2 to (r-1)//2 in steps of one |
| TargetGenerators.KeepInImage | test/unit/neuralfitter/test_targetgenerator.py:126-129 | keeps exactly the pixels that lie in the image |
| TargetGenerators.RoiMember | test/unit/neuralfitter/test_targetgenerator.py:111-133 | a ROI pixel is returned iff it is central pixel id shifted by an offset pair of the ROI and lies in the image, with matching batch, offsets and id |
| TargetGenerators.RoiPxBounds | test/unit/neuralfitter/test_targetgenerator.py:126-133 | every returned pixel lies in [0, width) × [0, height) and its offsets lie in the ROI range |
| TargetGenerators.RoiOffsetsComplete | test/unit/neuralfitter/test_targetgenerator.py:135-140 | a central pixel at least the ROI half-width from every border receives every offset pair of the ROI range |
| TargetGenerators.OddRoiOffsets | test/unit/neuralfitter/test_targetgenerator.py:111-140 | for r in {1, 3, 5, 7} the range is symmetric, -(r-1)/2..(r-1)/2, and has r values |
| TargetGenerators.ParameterListTarget.constructor | test/unit/neuralfitter/test_targetgenerator.py:353-361 | n_max and the window are those given |
| TargetGenerators.ParameterListTarget.Forward | test/unit/neuralfitter/test_targetgenerator.py:353-386 | succeeds iff ix_low <= ix_high and every frame of the window has at most n_max emitters; then a (ix_high - ix_low) × n_max table whose slot (i, j) is the j-th emitter of frame ix_low + i as (phot, xyz) or empty, and a mask true exactly on the filled slots |
| TargetGenerators.FillRows | test/unit/neuralfitter/test_targetgenerator.py:353-386 | fills every row, reporting false iff some frame has more than n_max records |
| TargetGenerators.FilledSlotsCountEmitters | test/unit/neuralfitter/test_targetgenerator.py:370 | the mask counts exactly the emitters whose frames lie in the window |
| TargetGenerators.ParameterListExample | test/unit/neuralfitter/test_targetgenerator.py:372-386 | for the two-emitter test set slots (0, 0) and (2, 0) hold (phot, xyz), every other slot of the three frames is empty, and the table holds 2 emitters |
| TargetGenerators.Fork | test/unit/neuralfitter/test_targetgenerator.py:335-343 | one output per component, component i applied to the set |
| DistanceGrid.GridFirstMin | deepsmlm/evaluation/match_emittersets.py:44 | the chosen cell is a minimum, strictly below every earlier cell in row-major order |
| DistanceGrid.FirstMinUnique | deepsmlm/evaluation/match_emittersets.py:44 | the first arg-min is unique |
| DistanceGrid.KnockOutShrinks | deepsmlm/evaluation/match_emittersets.py:45-46 | knocking out a finite cell's row and column removes a live row, so the loop terminates |
| DistanceGrid.Greedy | deepsmlm/evaluation/match_emittersets.py:41-49 | the greedy pair list, each pair indexing the grid; the lemmas below state which pairs it picks |
| DistanceGrid.GreedyPicksFirstMin | deepsmlm/evaluation/match_emittersets.py:43-48 | each committed pair is the first arg-min of the grid left by the earlier pairs and is below the threshold |
| DistanceGrid.GreedyExhausts | deepsmlm/evaluation/match_emittersets.py:43 | when the loop stops, no remaining distance is below the threshold |
| DistanceGrid.GreedyPairsDisjoint | deepsmlm/evaluation/match_emittersets.py:43-48 | every pair is in range and below the threshold in the original grid, and no row or column is used twice |
| DistanceGrid.GreedyMaximal | deepsmlm/evaluation/match_emittersets.py:43-48 | any cell whose row and column are both unused is not below the threshold |
| DistanceGrid.ArgMin | deepsmlm/evaluation/match_emittersets.py:44 | the nested loop finds the first arg-min of the array |
| DistanceGrid.KnockOutInPlace | deepsmlm/evaluation/match_emittersets.py:45-46 | the array becomes the grid with the row and column overwritten by infinity |
| DistanceGrid.RuleOutDistMatch | deepsmlm/evaluation/match_emittersets.py:41-49 | an empty matrix raises; otherwise returns the greedy pairs and leaves the array as the residual grid |
| MatchEmitterSets.Subset | deepsmlm/evaluation/match_emittersets.py:79-86 | `get_subset(ix)` holds record ix[k] at position k, metadata kept |
| MatchEmitterSets.SetDiffMembers | deepsmlm/evaluation/match_emittersets.py:82-83 | `setdiff1d(arange(n), used)` holds exactly the indices below n not used, increasing |
| MatchEmitterSets.SetDiffLength | deepsmlm/evaluation/match_emittersets.py:82-83 | for distinct used indices below n, used and the difference together count n |
| MatchEmitterSets.NewGreedyMatcherAsWritten | deepsmlm/evaluation/match_emittersets.py:23-31 | ValueError unless exactly one threshold is given; the threshold is stored and match dims is 2 either way |
| MatchEmitterSets.NewGreedyMatcher | deepsmlm/evaluation/match_emittersets.py:23-31 | as written, but a volumetric threshold sets match dims 3 |
| MatchEmitterSets.VolumetricThresholdIgnoresZ | deepsmlm/evaluation/match_emittersets.py:29-31 | as written, a `dist_vol` matcher compares in 2-D, so z differences never matter; the corrected one uses 3 |
| MatchEmitterSets.MatchListFacts | deepsmlm/evaluation/match_emittersets.py:70-75 | matched pairs index existing outputs and targets, their projected distance is below the threshold, and no output or target is used twice |
| MatchEmitterSets.Kernel | deepsmlm/evaluation/match_emittersets.py:51-88 | TP and matched always have the same length: the kernel is total, and KernelEmptyCases and KernelPartition state its cases |
| MatchEmitterSets.KernelAsWritten | deepsmlm/evaluation/match_emittersets.py:75-80 | raises IndexError iff both sets are non-empty and no pair matches; otherwise agrees with the corrected kernel |
| MatchEmitterSets.NoMatchWhenFar | deepsmlm/evaluation/match_emittersets.py:43 | an output 5 away from the only target under threshold 1 yields no pair |
| MatchEmitterSets.KernelNoMatchExample | deepsmlm/evaluation/match_emittersets.py:75-80 | for that pair the code as written raises IndexError while the corrected kernel gives all-FP, all-FN |
| MatchEmitterSets.KernelOfNoMatch | deepsmlm/evaluation/match_emittersets.py:75-86 | for any one-to-one pair without a match the same discrepancy holds |
| MatchEmitterSets.KernelPartition | deepsmlm/evaluation/match_emittersets.py:76-86 | TP ∪ FP is a disjoint cover of the outputs, matched ∪ FN of the targets, TP[k] is paired with matched[k] within the threshold |
| MatchEmitterSets.KernelEmptyCases | deepsmlm/evaluation/match_emittersets.py:59-68 | no outputs: everything is FN; no targets: everything is FP; the rest is empty |
| MatchEmitterSets.NewDistances | deepsmlm/evaluation/match_emittersets.py:70-73 | the array holds the projected metric between every output and target |
| MatchEmitterSets.AssignKernel | deepsmlm/evaluation/match_emittersets.py:51-88 | the in-place kernel method returns exactly the kernel specification, which uses the corrected kernel of the first finding (a frame without a pair gives all FP and FN, where the code at lines 75-80 raises) |
| MatchEmitterSets.KernelLengths | deepsmlm/evaluation/match_emittersets.py:76-86 | every kernel result splits its outputs into TP + FP and its targets into matched + FN |
| MatchEmitterSets.MatchFrames | deepsmlm/evaluation/match_emittersets.py:106-114 | the loop appends frame i's TP, FP, FN and matched sets in frame order, each from the corrected kernel of the first finding |
| MatchEmitterSets.Combine | deepsmlm/evaluation/match_emittersets.py:116-125 | the concatenations have the summed lengths of the per-frame lists |
| MatchEmitterSets.Forward | deepsmlm/evaluation/match_emittersets.py:90-127 | an empty target raises; otherwise splits both sets over the targets' frame range, matches frame by frame with the corrected kernel of the first finding, concatenates in frame order and aligns ids |
| MatchEmitterSets.ForwardAsWritten | deepsmlm/evaluation/match_emittersets.py:90-127 | `forward` as written, with the kernel of lines 75-80: an empty target raises; IndexError exactly when some frame of the split has outputs and targets but no pair; otherwise the same result as the corrected `forward` |
| MatchEmitterSets.BrokenFrame | deepsmlm/evaluation/match_emittersets.py:108-110 | true exactly when some frame of the split has outputs and targets but no pair below the threshold, the frames on which the loop's kernel call raises |
| MatchEmitterSets.CombineIdsAligned | deepsmlm/evaluation/match_emittersets.py:122-125 | TP ids equal matched ids position by position; when every matched id was unset they become 0..n-1 |
| MatchEmitterSets.WindowCounts | deepsmlm/evaluation/match_emittersets.py:103-120 | over a frame window, TP + FP count the outputs and matched + FN the targets in that window |
| MatchEmitterSets.InclusiveWindow | deepsmlm/evaluation/match_emittersets.py:100-104 | the inclusive split over [min frame, max frame] of the targets is the half-open window to max + 1, and that window holds every target |
| MatchEmitterSets.ForwardCounts | deepsmlm/evaluation/match_emittersets.py:99-127 | with the inclusive split every target is accounted for as matched or FN, and TP + FP count the outputs in the targets' frame range |
| MatchEmitterSets.NewNNMatcher | deepsmlm/evaluation/match_emittersets.py:134-148 | ValueError with the source's message iff match dims is not 2 or 3 |
| MatchEmitterSets.Nearest | deepsmlm/evaluation/match_emittersets.py:186-200 | the nearest target: no target is closer, and none before it is as close |
| MatchEmitterSets.Claims | deepsmlm/evaluation/match_emittersets.py:208-216 | one entry per output: -1 or the index of a target |
| MatchEmitterSets.KeptClearedMembers | deepsmlm/evaluation/match_emittersets.py:214-217 | kept and cleared indices list the accepted and rejected outputs in order and together count them all |
| MatchEmitterSets.KeptClearedSplit | deepsmlm/evaluation/match_emittersets.py:214-217 | an output index is kept iff its claim is not -1 and cleared iff it is -1, and the two lists together count all outputs |
| MatchEmitterSets.NNForward | deepsmlm/evaluation/match_emittersets.py:159-233 | the method returns exactly the nearest-neighbour specification |
| MatchEmitterSets.ClearRejected | deepsmlm/evaluation/match_emittersets.py:209-216 | the in-place loop leaves -1 at rejected outputs and the nearest index elsewhere |
| MatchEmitterSets.NNKeptIff | deepsmlm/evaluation/match_emittersets.py:205-214 | an output is TP iff its nearest target is within dist_lat (and dist_ax in 3-D); FP otherwise |
| MatchEmitterSets.NNSizes | deepsmlm/evaluation/match_emittersets.py:224-231 | TP and FP partition the outputs and TP pairs one-to-one with matched |
| MatchEmitterSets.NNPairs | deepsmlm/evaluation/match_emittersets.py:231 | the k-th matched target is the nearest target of the k-th TP |
| MatchEmitterSets.NNMissed | deepsmlm/evaluation/match_emittersets.py:220-222 | a target is FN iff no output claims it |
| MatchEmitterSets.NNPartition | deepsmlm/evaluation/match_emittersets.py:197-233 | the conjunction of the four facts above |
| MatchEmitterSets.BothClaimTheTarget | deepsmlm/evaluation/match_emittersets.py:197-216 | outputs at 0 and 0.5 both claim the only target at 0.2 |
| MatchEmitterSets.NNManyToOne | deepsmlm/evaluation/match_emittersets.py:216-231 | two outputs can both claim the same target: both are TP and the target is matched twice |
| PostProcessing.CheckReturnFormat | deepsmlm/test/test_post_processing.py:18-26 | a rejected format raises ValueError |
| PostProcessing.ReturnFormatCases | deepsmlm/test/test_post_processing.py:109-117 | None, 'batch_set', 'frame_set' and 'emitters' are rejected; 'batch-set' and 'frame-set' pass |
| PostProcessing.FilterPlane | deepsmlm/test/test_post_processing.py:51-62 | the mask has the grid's shape and is true exactly where prob >= raw_th |
| PostProcessing.MaskActive | deepsmlm/test/test_post_processing.py:64-78 | the active pixels are exactly the true mask entries, in row-major order |
| PostProcessing.ActivePixels | deepsmlm/test/test_post_processing.py:51-62 | the active pixels of the filter are exactly those with prob >= raw_th, each once |
| PostProcessing.FilterExample | deepsmlm/test/test_post_processing.py:54-60 | [[0.1, 0], [0.6, 0.05]] at 0.1 gives [[1, 0], [1, 0]] |
| PostProcessing.LookupFeatures | deepsmlm/test/test_post_processing.py:64-78 | one batch index per active pixel and one feature row per channel of that length |
| PostProcessing.LookupAtActive | deepsmlm/test/test_post_processing.py:73-81 | entry k is the batch index and channel values of the k-th active pixel |
| PostProcessing.LookupCoversActive | deepsmlm/test/test_post_processing.py:73-81 | every active pixel is looked up with its values |
| PostProcessing.Format | deepsmlm/test/test_post_processing.py:10-16 | an invalid format fails; 'batch-set' gives the detections as they are; 'frame-set' one list per frame holding exactly that frame's detections |
| PostProcessing.NoPostProcessing.constructor | deepsmlm/test/test_post_processing.py:35-37 | the return format is the one given |
| PostProcessing.NoPostProcessing.SanityCheck | deepsmlm/test/test_post_processing.py:18-26 | passes iff the return format is valid |
| PostProcessing.NoPostProcessing.SkipIf | deepsmlm/test/test_post_processing.py:28-30 | never skips |
| PostProcessing.NoPostProcessing.Forward | deepsmlm/test/test_post_processing.py:39-42 | the result is always empty |
| PostProcessing.LookUpPostProcessing.constructor | deepsmlm/test/test_post_processing.py:47-49 | the threshold and return format are those given |
| PostProcessing.LookUpPostProcessing.SanityCheck | deepsmlm/test/test_post_processing.py:18-26 | passes iff the return format is valid |
| PostProcessing.LookUpPostProcessing.Detections | deepsmlm/test/test_post_processing.py:83-98 | one detection per active pixel |
| PostProcessing.LookUpPostProcessing.Forward | deepsmlm/test/test_post_processing.py:83-98 | fails iff the return format is invalid |
| PostProcessing.LookUpDetectionAt | deepsmlm/test/test_post_processing.py:83-98 | detection k is the k-th active pixel's: its batch index as frame, its probability and its feature channels |
| PostProcessing.LookUpSound | deepsmlm/test/test_post_processing.py:95-98 | every detection comes from an active pixel, with frame < N, prob >= raw_th and C - 1 features |
| PostProcessing.LookUpComplete | deepsmlm/test/test_post_processing.py:83-98 | every active pixel yields its detection |
| PostProcessing.LookUpExample | deepsmlm/test/test_post_processing.py:83-98 | for the test tensor every detection is on frame 0 with phot 1 or 3, and both values occur |
| PostProcessing.LinkedSymmetric | deepsmlm/test/test_post_processing.py:211-219 | the link between two pixels does not depend on their order |
| PostProcessing.Labels | deepsmlm/test/test_post_processing.py:203-235 | one cluster label per active pixel, each a pixel index |
| PostProcessing.LabelsInvariant | deepsmlm/test/test_post_processing.py:203-235 | linked pixels share a label, and pixels sharing a label are joined by a chain of links |
| PostProcessing.ChainSameLabel | deepsmlm/test/test_post_processing.py:203-235 | the ends of a chain of links carry the same label |
| PostProcessing.SameClusterIffJoined | deepsmlm/test/test_post_processing.py:203-235 | two pixels share a cluster iff a chain of links joins them: clusters are the connected components |
| PostProcessing.Best | deepsmlm/test/test_post_processing.py:229-231 | the first candidate of maximum probability among the first k with the label, or none when no such candidate has it |
| PostProcessing.RepUnique | deepsmlm/test/test_post_processing.py:229-231 | a cluster has one representative |
| PostProcessing.RepExists | deepsmlm/test/test_post_processing.py:229-231 | every cluster has a representative |
| PostProcessing.IsolatedKeepsProb | deepsmlm/test/test_post_processing.py:192-197 | a pixel linked to no other keeps its probability |
| PostProcessing.LinkedPairMerges | deepsmlm/test/test_post_processing.py:229-231 | of two linked pixels the more probable (the first on a tie) gets p0 + p1, the other 0 |
| PostProcessing.UnlinkedPairStays | deepsmlm/test/test_post_processing.py:233-235 | two unlinked pixels keep their probabilities |
| PostProcessing.RawProbs | deepsmlm/test/test_post_processing.py:192-197 | one merged probability per candidate |
| PostProcessing.Emit | deepsmlm/test/test_post_processing.py:199-201 | a detection is emitted iff its merged probability is >= em_th, with its frame and features |
| PostProcessing.Candidates | deepsmlm/test/test_post_processing.py:179-193 | each candidate is an in-range pixel with its probability, which is >= raw_th |
| PostProcessing.CandidatesComplete | deepsmlm/test/test_post_processing.py:179-193 | every pixel with prob >= raw_th is a candidate |
| PostProcessing.AllDetections | deepsmlm/test/test_post_processing.py:199-201 | every detection of the first k frames has a frame below k and prob >= em_th |
| PostProcessing.ConsistencyPostprocessing.constructor | deepsmlm/test/test_post_processing.py:103-107 | every field is the one given |
| PostProcessing.ConsistencyPostprocessing.Create | deepsmlm/test/test_post_processing.py:109-117 | ValueError iff the return format is invalid, otherwise a fresh processor with the given configuration |
| PostProcessing.ConsistencyPostprocessing.SanityCheck | deepsmlm/test/test_post_processing.py:109-117 | passes iff the return format is valid |
| PostProcessing.ConsistencyPostprocessing.LinkConfig | deepsmlm/test/test_post_processing.py:105-106 | the lateral threshold always applies, the axial one only when match dims is 3 and it is given |
| PostProcessing.ConsistencyPostprocessing.Forward | deepsmlm/test/test_post_processing.py:119-123 | ValueError for any channel count other than 6; fails iff that or the format is invalid; detections have frame < N and prob >= em_th, per frame in the frame-set form |
| PostProcessing.AllIsolatedUnchanged | deepsmlm/test/test_post_processing.py:192-197 | with no links the raw stage returns the probabilities unchanged and emission filters them by em_th |
| PostProcessing.EmitPair | deepsmlm/test/test_post_processing.py:199-201 | of two candidates exactly those with prob >= em_th are emitted, in order |
| PostProcessing.EasyCase | deepsmlm/test/test_post_processing.py:169-201 | frame 0 (0.3, 0.4) emits nothing; frame 1 emits two detections of 0.6 |
| PostProcessing.HardCases | deepsmlm/test/test_post_processing.py:203-235 | frames 0 and 2 emit two detections of 0.7; the close pair of frame 1 merges into one detection of 1.2 |
| PostProcessing.ActiveCountAll | deepsmlm/test/test_post_processing.py:237-243 | when every pixel is active the count is N·H·W |
| PostProcessing.ActiveCountNone | deepsmlm/test/test_post_processing.py:237-243 | when no pixel is active the count is 0 |
| PostProcessing.SkipIfAllActive | deepsmlm/test/test_post_processing.py:237 | an all-active non-empty batch is skipped for skip_th < 1 |
| PostProcessing.SkipIfNoneActive | deepsmlm/test/test_post_processing.py:238 | a batch without active pixels is not skipped for skip_th >= 0 |
| PostProcessing.SkipIfOneOfSix | deepsmlm/test/test_post_processing.py:239-243 | one active pixel of six is not skipped at skip_th 0.2 |
| Dependencies.FromKeysFacts | decode/utils/dependency.py:10 | `dict.fromkeys` keeps the first occurrence of each key, every value the given one |
| Dependencies.FirstOccurrencesFacts | decode/utils/dependency.py:10 | the order of first occurrence keeps every element once and leaves a duplicate-free list unchanged |
| Dependencies.PutAllFacts | decode/utils/dependency.py:12 | `update` appends new keys in order and takes the other dict's values |
| Dependencies.MergeMappingsFacts | decode/utils/dependency.py:11-12 | merging the dicts in list order gives each key the value of the last dict that has it |
| Dependencies.ConvertMixedList | decode/utils/dependency.py:7-14 | plain names map to None, then dicts override in list order; keys in order of first mention, plain names first |
| Dependencies.ConvertToSpec | decode/utils/dependency.py:17-21 | a name without '=' or with '<' or '>' is unchanged |
| Dependencies.DoubledFacts | decode/utils/dependency.py:21 | doubling every '=' is undone by collapsing "==", and the length grows by the number of '=' |
| Dependencies.ConvertToSpecRoundTrip | decode/utils/dependency.py:17-21 | a pinned name is converted so that collapsing "==" gives it back, one character longer per '=' |
| Dependencies.DepsDict.constructor | decode/utils/dependency.py:24 | the dict holds the given entries |
| Dependencies.DepsDict.Pop | decode/utils/dependency.py:31 | returns the value of a present key and removes it |
| Dependencies.DepsDict.SetItem | decode/utils/dependency.py:31-33 | the dict becomes the old one with the key set: an existing key keeps its place, a new one is appended |
| Dependencies.AddUpdatePackage | decode/utils/dependency.py:24-35 | mutates and returns the same dict, applying the renames of every active level in order |
| Dependencies.UpdateLevel | decode/utils/dependency.py:29-33 | the inner loop applies one level's renames in order |
| Dependencies.RenamePresent | decode/utils/dependency.py:30-31 | a present package is removed and re-inserted at the end under its new name with its value |
| Dependencies.RenameMissing | decode/utils/dependency.py:32-33 | a missing package is appended with value None |
| Dependencies.RenameValid | decode/utils/dependency.py:28-33 | renaming keeps every key once |
| Dependencies.InactiveLevelsIgnored | decode/utils/dependency.py:27 | levels not in `level` change nothing |
| Dependencies.LevelStringMembership | decode/utils/dependency.py:27 | with a str level `k in level` is a substring test ('d' is in 'dev') |
| Dependencies.CondaDepsKeys | decode/utils/dependency.py:55-61 | the packages are run, then dev, then docs as asked for, each once in order of first mention |
| Dependencies.Conda | decode/utils/dependency.py:38-73 | 'txt' gives the spec of each package in order, 'env' name, channels and packages, any other mode nothing |
| Dependencies.CondaRunAlwaysIncluded | decode/utils/dependency.py:55-61 | every run package is included once whatever the level, and nothing no level lists |
| Dependencies.CondaMeta | decode/utils/dependency.py:76-87 | fails iff the meta has a `run` section that is not a rename dict; otherwise `run` is added at the end or kept in place, every other section is unchanged, and `run` holds the run packages once each in order of first mention with the meta's `run` renames applied in order |
| Dependencies.CondaMetaRenameOne | decode/utils/dependency.py:76-87 | with a single rename k to v, a run package k leaves its place and reappears at the end as v, and a k that is not a run package is appended |
| Dependencies.AllNamesFacts | decode/utils/dependency.py:115 | the spec conversion fails iff a package was renamed to None; otherwise it gives the names in order |
| Dependencies.Pip | decode/utils/dependency.py:90-115 | with `recurse_run` a level other than 'dev' or 'docs' raises ValueError; with no active rename the lines are the specs of the chosen levels' packages once each in order of first mention (run only when 'run' is asked for), or of the `-r` line followed by the dev or docs packages |
| Dependencies.PipDepsKeys | decode/utils/dependency.py:94-102 | without `recurse_run` the dict lists run, dev and docs packages, each level only when asked for, once each in order of first mention |
| Dependencies.PipDepsKeysRecurse | decode/utils/dependency.py:104-109 | with `recurse_run` and level 'dev' or 'docs' the dict lists the `-r` line, then that level's packages, once each |
| Dependencies.PipRecurseFirst | decode/utils/dependency.py:104-111 | with `recurse_run` and a dev or docs level, a successful result starts with the spec of the line "-r " + recurse_run |
| CoordTransform.BroadcastDim | decode/neuralfitter/coord_transform.py:38-39 | two sizes broadcast iff equal or one is 1, to the other size |
| CoordTransform.MeshX | decode/neuralfitter/coord_transform.py:22 | row i of the x-mesh holds x-centre i |
| CoordTransform.MeshY | decode/neuralfitter/coord_transform.py:22 | column j of the y-mesh holds y-centre j |
| CoordTransform.AddMesh | decode/neuralfitter/coord_transform.py:37-39 | every batch element is the same mesh added to its offsets, broadcast |
| CoordTransform.Offset2Coordinate.constructor | decode/neuralfitter/coord_transform.py:11-24 | caches the x and y meshes of the given centres |
| CoordTransform.Offset2Coordinate.SubpxToAbsolute | decode/neuralfitter/coord_transform.py:26-40 | succeeds iff the mesh broadcasts against the offsets, with the broadcast shape and the batch size kept |
| CoordTransform.Offset2Coordinate.Forward | decode/neuralfitter/coord_transform.py:42-62 | a non-4-D input raises ValueError with the source's message, fewer than 4 channels IndexError; otherwise the output has the input's shape |
| CoordTransform.Offset2Coordinate.Backward | decode/neuralfitter/coord_transform.py:58-60 | the inverse keeps the shape |
| CoordTransform.ReplaceChannels | decode/neuralfitter/coord_transform.py:58-60 | channels 2 and 3 are replaced and all others kept |
| CoordTransform.ForwardValue | decode/neuralfitter/coord_transform.py:56-60 | channel 2 is x-centre plus offset, channel 3 y-centre plus offset, every other channel unchanged |
| CoordTransform.ForwardAddsCentres | decode/neuralfitter/coord_transform.py:20-23 | with meshes from centres, output (n, 2, i, j) is ctrX[i] + input and (n, 3, i, j) is ctrY[j] + input |
| CoordTransform.BackwardValue | decode/neuralfitter/coord_transform.py:56-60 | the inverse subtracts the centres from channels 2 and 3 only |
| CoordTransform.ForwardRoundTrip | decode/neuralfitter/coord_transform.py:58 | the inverse of forward gives the input back, so forward loses no information |
| RecursiveNamespaces.GetItem | decode/utils/types.py:19-24 | for the attributes stored in the namespace: AttributeError iff the name is missing; any other failure is TypeError, and a returned value is never a nested namespace |
| RecursiveNamespaces.ToDict | decode/utils/types.py:26-33 | keeps the keys in order |
| RecursiveNamespaces.KeysKept | decode/utils/types.py:35-36 | `keys()` are the constructor keys in order, before and after `to_dict` |
| RecursiveNamespaces.GetItemOfKwarg | decode/utils/types.py:12-24 | a keyword whose value was a dict or namespace gives TypeError; a plain value is returned as given |
| RecursiveNamespaces.FirstMatch | decode/utils/types.py:19-24 | the first attribute with the name decides: TypeError for a nested namespace, otherwise its value |
| RecursiveNamespaces.RoundTrip | decode/utils/types.py:26-33 | `to_dict` after construction is the identity iff every value is plain (no dict inside a list, no tuple) |
| RecursiveNamespaces.ValueRoundTrip | decode/utils/types.py:14-17 | one value survives the trip iff it is plain |
| RecursiveNamespaces.RebuildFromDict | decode/utils/types.py:29-31 | rebuilding from `to_dict` gives a canonical namespace back |
| RecursiveNamespaces.FromKwargsCanonical | decode/utils/types.py:13-17 | the constructor leaves only canonical attributes |
| RecursiveNamespaces.ConvertCanonical | decode/utils/types.py:38-43 | a converted value is canonical: dicts in lists become namespaces |
| RecursiveNamespaces.AsymmetryExamples | decode/utils/types.py:16-17 | a dict inside a list comes back as a namespace, a tuple as a list |

## Left out

- Saving and loading sets (`.pt`, `.h5`, `.csv`), `parse_dependency` and the `__main__` blocks: file and YAML I/O.
- `frame_grid`, which computes the pixel centres: not part of this model. `CoordTransform.Offset2Coordinate.constructor` takes the centres as parameters, and the meshes are kept without their leading size-1 dimension.
- Floating point: every float is a real, and NaN slots of the parameter table are `None`.
- The multi-worker and CUDA runs of the consistency processor: concurrency and GPU. `num_workers` is a field that nothing reads.
- `sklearn`'s `NearestNeighbors`, `torch.cdist` and square roots. They are replaced by a supplied metric. On ties the nearest neighbour is the first index.
- `filter_by_sigma`, `hist_detection`, the rendered target images, rescalers and the `post_processing.py` wrappers over skimage, sklearn DBSCAN and scipy `label`: approximate statistics and library internals.
- PostProcessing.RawProbs: the merged features of a cluster are the representative's own. The averaging of features is not modelled, and the dense `p_out`/feature grids of the raw stage are modelled as a list of active pixels.
- PostProcessing.ConsistencyPostprocessing.Forward: inputs of rank other than 4 are not modelled (requires rank 4).
- PostProcessing.LookUpPostProcessing.Forward: inputs with fewer than two channels are not modelled (requires at least a probability and one feature channel).
- EmitterSets.Cat: the unit and pixel size are taken from the first input that defines them. Raising on a mismatch between inputs is not modelled, because the implementation is not part of this model.
- Dependencies.Pip: with an active rename the lines are those of the renamed dict; the effect of each rename is stated by `Dependencies.RenamePresent` and `Dependencies.RenameMissing`, not as a closed form of the whole list.
- LooseEmitters.ReturnEmitterSet: the order of the distributed records is not modelled. Records are listed per emitter, not sorted by frame.
- EmitterSets.EmitterSetObject: only the columns the tests exercise (xyz, phot, frame index, id, xyz_sig, xyz_cr) are fields. The value-level `EmitterSet` carries xyz, phot, frame index and id only.
- EmitterSets.EmitterSetObject.AddInPlace: when only one of the two sets carries `xyz_sig` or `xyz_cr`, the sum has no such column. What `cat` does then is not modelled, because its implementation is not part of this model.
- MatchEmitterSets.AssignKernel, MatchEmitterSets.MatchFrames and MatchEmitterSets.Forward follow the corrected kernel of the first finding. A frame with outputs and targets but no pair gives all FP and FN there, where the code raises IndexError. `MatchEmitterSets.ForwardAsWritten` models the raising behaviour.
- RecursiveNamespaces.GetItem: only the attributes stored in the namespace are looked up. Methods and class attributes that `getattr` also resolves (`to_dict`, `map_entry`) are not modelled.
- TargetGenerators.TargetGenerator.Forward: frames are modelled as per-frame emitter sets, not rendered images.

## Findings

| source | as written | input that shows it | evidently intended | confidence | as-written member | corrected member |
|---|---|---|---|---|---|---|
| deepsmlm/evaluation/match_emittersets.py:75-80 | `torch.tensor([])` of an empty match list is 1-D, so `match_ix[:, 0]` raises IndexError | one output at x = 0 and one target at x = 5, `dist_lat = 1` | no pair: every output FP, every target FN | not executed | MatchEmitterSets.KernelAsWritten | MatchEmitterSets.Kernel |
| deepsmlm/evaluation/match_emittersets.py:29-31 | `dist_vol` sets `_match_dims = 2`, so volumetric matching ignores z | `GreedyHungarianMatching(dist_vol=t)` with outputs differing only in z | `_match_dims = 3` for a volumetric threshold | not executed | MatchEmitterSets.NewGreedyMatcherAsWritten | MatchEmitterSets.NewGreedyMatcher |
