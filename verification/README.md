# Models and proofs for the reinforcement-learning visual odometry repository

The repository trains an agent that steers SVO, a visual odometry engine. This project models four of its
parts and proves what they promise:

- **FAST corners** (`svo-lib/fast_neon`, and the pipeline over it in `svo-lib/svo_direct`). A pixel is a
  corner if 9 (or 10) contiguous pixels of the 16-pixel circle around it are all brighter than the centre by
  a barrier, or all darker. `FastCircle` says this directly and defines the raster-ordered list of corners of
  an image. The scalar detectors (a decision nest of some thousand lines each), the NEON and SSE2 detectors
  (masks over 16 lanes, saturating 8-bit arithmetic, scalar columns left and right) and the score (a loop
  that raises the barrier by the smallest margin on the path through a nest) are proved equal to it for
  images of any size and for exactly the barriers that fit them. `CircleGeometry` says without the table of the
  circle what a corner is: a chain of touching pixels at distance three. The two suppressions are proved against
  "no better corner in the window". `fastDetector` is proved to fill every free grid cell with the best corner
  among the pixels of the cell, the same one in every build.
- **gflags** (`svo-lib/gflags`). Values and their text, the three set modes, flag files with rollback, the
  in-place permutation of argv, and the line wrapping of the help text. `FlagSettings` and `FlagWords` say what
  files and command lines do to each flag, by their lines and words; `FlagNumerals` says which texts are accepted.
- **Training buffers** (`rl_algorithms/buffers.py`, `env/utils/running_mean_std.py`). The backward advantage
  recurrence with steps that do not count, sampling of the valid transitions, and batched mean and variance.
  `OnPolicyRollout` follows a rollout from the first step added to the minibatches of the last epoch.
- **Environment** (`env/svo_wrapper.py`, `dataloader`). The sliding position buffers and the frame counters
  of two data loaders.

Each part has an independent definition of what is meant and a proof that the code's form computes it. The
decision nests are data: `SegmentTree` gives a checker for trees that is proved sound and complete for all
trees, and `tools/generate_trees.py` translates the nests of the C++ files into `Fast9Tree`, `Fast10Tree` and
`ArcHeaders`, cut into parts whose lemmas follow the paths from the root.

Results that a reader of the code might not expect:

- The detectors take any `short` as barrier, and the model follows them for all of these, wrap-around and
  truncation included. They report the corners of every image if and only if the barrier fits. For the SIMD
  detectors: it is within 0 .. 255, or it is at most 32512 and leaves 255 modulo 256
  (`BarrierLimits.NeonExact`, `BarrierLimits.SseExact`). For the scalar ones: it is not within -255 .. -1, and for
  `short` thresholds not above 32512 (`BarrierLimits.Scalar9Exact`, `BarrierLimits.Scalar10Exact`). For every other
  barrier the proof gives an image with a wrong list.
- The NEON build detects 9-arcs but scores with the 10-arc score. The selected corners are nevertheless those
  of the other builds, because what is a corner for 9-arcs only never scores above the threshold
  (`FeatureDetector.BuildsAgree`).
- Printing all flags and reading the text back restores every value if and only if no string holds a CR or LF
  and every value passes the other registry's validator (`FlagText.PrintReadExact`). One CR also spoils flags
  whose own value is harmless, because a line runs to the first CR of the whole rest of the text
  (`FlagText.ReturnSpoilsBoth`; `FlagText.ReturnSpoilsOthers` is an example). The statement is about registries that
  do not already hold what the text cannot carry; `FlagText.HeldValueSurvives` shows why.
- Parsing the permuted argv a second time can differ: a last flag without a value, which the first pass reports as
  an error, takes the first positional the second time (`FlagArgv.ParsedAgain`, with an example in
  `FlagArgv.ParsedAgainDiffers`).
- An unsigned flag is meant to refuse negative numbers, but only blanks are skipped before the check for a minus
  sign: behind a tab, say, `-5` is accepted and negated modulo 2^64. Blanks alone are accepted as 0
  (`FlagNumerals.UnsignedTexts`).
- `normalize_obs` says that it does not update statistics. In training it always updates the collecting ones;
  the scaling ones stay as they are if and only if the environment is not training or `update_rms` has not yet
  made both the same object (`RunningMoments.ObservationNormalizer.NormalizeObs`).
- The alignment of the reward reads only slots that have been written, even if more points are asked for than
  the window holds (`AlignmentBuffer.AlignmentReadsWrittenSlots`).
- The comment on `corner_score_test` speaks of differences between the circle pixels and the barrier; the code
  adds up differences to the centre pixel, and the model follows the code.

## Model

| member | source | states |
|---|---|---|
| FastCircle.SegmentAntitone | svo-lib/fast_neon/src/fast_10_score.cpp:23-27 | a corner at some barrier is a corner at every smaller one |
| FastCircle.Arc9WrittenOut | svo-lib/fast_neon/src/faster_corner_9_neon.cpp:48-202 | an arc of 9 exists exactly when one of the 16 written-out conjunctions holds |
| FastCircle.Arc10WrittenOut | svo-lib/fast_neon/src/faster_corner_10_sse.cpp:43-139 | the same for arcs of 10 |
| FastCircle.NoCorners | svo-lib/fast_neon/src/faster_corner_9_neon.cpp:258-261 | an image narrower or lower than 7 pixels gives the empty list |
| FastCircle.ListedExact | svo-lib/fast_neon/src/fast_9.cpp:41-2952 | a list of found pixels is strictly raster-sorted and holds exactly the inner pixels found |
| FastCircle.CornersExact | svo-lib/fast_neon/src/fast_9.cpp:41-2952 | the list to be reported is strictly raster-sorted and holds exactly the inner pixels that pass the segment test |
| CircleGeometry.TableIsRing | svo-lib/fast_neon/src/fast_9.cpp:12-30 | the circle's table holds an offset exactly if its squared distance is within 8 .. 10 |
| CircleGeometry.TableGoesRound | svo-lib/fast_neon/src/fast_9.cpp:12-30 | its 16 entries differ, and two of them touch exactly if they follow each other, going round from straight below to the right |
| CircleGeometry.CornerIffChain | svo-lib/fast_neon/src/fast_9.cpp:44-2951 | a pixel is a corner if and only if n different pixels at distance three, each touching the next, are all brighter by more than the barrier or all darker |
| CircleGeometry.CornersByChain | svo-lib/fast_neon/src/fast_9.cpp:33-2953 | the list to be reported holds exactly the inner pixels with such a chain |
| SegmentTree.SoundDecides | svo-lib/fast_neon/src/fast_9.cpp:48-2948 | a tree that passes the checker computes the segment test on every circle that agrees with the facts on its path |
| SegmentTree.DecidesSound | svo-lib/fast_neon/src/fast_9.cpp:48-2948 | a tree that computes the segment test passes the checker |
| SegmentTree.CheckerExact | svo-lib/fast_neon/src/fast_10.cpp:50-3161 | for all trees: the checker passes a tree if and only if the tree decides the segment test for all pixel values |
| SegmentTree.WalkDecides | svo-lib/fast_neon/src/fast_10_score.cpp:9-19 | the scoring nest gives the answer of the plain nest, and the margin it reports is positive |
| SegmentTree.PathStable | svo-lib/fast_neon/src/fast_10_score.cpp:27-48 | raising the barrier by less than the margin changes neither the path nor the answer |
| Fast9Tree.WholeDecides | svo-lib/fast_neon/src/fast_9.cpp:48-2948 | the nest of the 9-arc detector computes the segment test on every circle |
| Fast9Tree.Run | svo-lib/fast_neon/src/fast_9.cpp:48-2948 | running that nest returns whether an arc of 9 exists on either side |
| Fast10Tree.WholeDecides | svo-lib/fast_neon/src/fast_10.cpp:50-3161 | the nest of the 10-arc detector computes the segment test on every circle |
| Fast10Tree.Run | svo-lib/fast_neon/src/fast_10.cpp:50-3161 | running that nest returns whether an arc of 10 exists on either side |
| ArcHeaders.IsCorner9Exact | svo-lib/fast_neon/include/fast/corner_9.h:1-441 | the one-sided nest accepts exactly the sides with an arc of 9 |
| ArcHeaders.IsCorner9 | svo-lib/fast_neon/include/fast/corner_9.h:1-441 | `is_corner_9` returns whether the given side has an arc of 9 |
| ArcHeaders.IsCorner10Exact | svo-lib/fast_neon/include/fast/corner_10.h:1-366 | the one-sided nest accepts exactly the sides with an arc of 10 |
| ArcHeaders.IsCorner10 | svo-lib/fast_neon/include/fast/corner_10.h:1-366 | `is_corner_10` returns whether the given side has an arc of 10 |
| FastDetect.MakeOffsets | svo-lib/fast_neon/src/fast_9.cpp:12-30 | entry k of the table is the address of circle pixel k relative to the centre, for any stride |
| FastDetect.CircleAddress | svo-lib/fast_neon/src/fast_9.cpp:44-48 | for an inner pixel every offset address lies in the buffer and holds the circle pixel |
| FastDetect.Nest9Fits | svo-lib/fast_neon/src/fast_9.cpp:46-2948 | with `short` thresholds the nest computes the segment test on every circle for the barriers that fit: below -255, or 0 .. 32512 |
| FastDetect.Nest10Fits | svo-lib/fast_neon/src/fast_10.cpp:47-3161 | with `int` thresholds the nest computes the segment test on every circle for all barriers but -255 .. -1 |
| FastDetect.TestPixel9 | svo-lib/fast_neon/src/fast_9.cpp:44-2951 | the body of the pixel loop, for any `short` barrier: the answer of the nest, which for the barriers that fit is whether the pixel is a corner |
| FastDetect.TestPixel10 | svo-lib/fast_neon/src/fast_10.cpp:47-3165 | the same for 10-arcs, with `int` thresholds |
| FastDetect.FastCornerDetect9 | svo-lib/fast_neon/src/fast_9.cpp:33-2953 | for every image and `short` barrier the list of pixels its nest accepts, which for the barriers that fit is the list of corners |
| FastDetect.FastCornerDetect10 | svo-lib/fast_neon/src/fast_10.cpp:9-3168 | the same for 10-arcs, with the column computed from the pointer |
| LaneMasks.SaturationExact | svo-lib/fast_neon/src/faster_corner_9_neon.cpp:22-47 | the saturating 8-bit comparisons agree with the scalar ones on all pixel values if and only if the barrier fits |
| LaneMasks.FoldedHalf | svo-lib/fast_neon/include/fast/faster_corner_utilities.h:60-65 | masking and three widening pairwise additions give the bits of the comparison of eight lanes |
| LaneMasks.CheckBarrierNeonExact | svo-lib/fast_neon/include/fast/faster_corner_utilities.h:56-70 | the NEON flag word has the dark answers of 16 lanes in its low half and the bright ones in its high half |
| LaneMasks.CheckBarrierSseExact | svo-lib/fast_neon/include/fast/faster_corner_utilities.h:76-84 | the SSE2 flag word is the same word |
| SimdBlocks.LoadCircle | svo-lib/fast_neon/src/faster_corner_9_neon.cpp:50-76 | a 16-byte load at an offset address stays in the buffer and reads that circle pixel for all 16 lanes |
| SimdBlocks.LanesAreSides | svo-lib/fast_neon/src/faster_corner_9_neon.cpp:44-58 | bit i of the flag words is the dark side of pixel x + i, bit i + 16 its bright side, for the barrier in the vector register |
| SimdBlocks.FoldedSurvivors | svo-lib/fast_neon/src/faster_corner_9_neon.cpp:204 | after the shift by 16 bit i is set exactly if pixel x + i is a corner |
| SimdBlocks.PushBlock | svo-lib/fast_neon/src/faster_corner_9_neon.cpp:204-243 | the sixteen conditional pushes append exactly the corners of the block, in order |
| SimdBlocks.EmptyBlock | svo-lib/fast_neon/src/faster_corner_9_neon.cpp:56-57 | a block left early because no bit survives has no corners |
| SimdBlocks.LaneFits | svo-lib/fast_neon/src/faster_corner_9_neon.cpp:22 | for barriers that fit a byte, or leave 255, the truncated barrier decides the segment test as the barrier does |
| SimdBlocks.ColumnFits | svo-lib/fast_neon/include/fast/faster_corner_utilities.h:22-40 | for the barriers that fit, the two one-sided tests with their `short` thresholds are the segment test |
| SimdBlocks.SimdList | svo-lib/fast_neon/src/faster_corner_9_neon.cpp:16-253 | for the barriers that fit, what blocks and columns find together is the list of corners |
| FastNeon9.ChainKeepsArcs | svo-lib/fast_neon/src/faster_corner_9_neon.cpp:48-202 | no step of the mask chain drops a lane with an arc of 9 |
| FastNeon9.ChainDropsOthers | svo-lib/fast_neon/src/faster_corner_9_neon.cpp:48-202 | a lane that survives the whole chain has an arc of 9 |
| FastNeon9.ChainExact | svo-lib/fast_neon/src/faster_corner_9_neon.cpp:48-202 | a lane survives the chain if and only if it has an arc of 9 |
| FastNeon9.FilterBlock | svo-lib/fast_neon/src/faster_corner_9_neon.cpp:41-202 | with all its early exits the block body computes the end of the chain |
| FastNeon9.ScanBlock | svo-lib/fast_neon/src/faster_corner_9_neon.cpp:39-244 | a block appends exactly its pixels that pass the test with the truncated barrier |
| FastNeon9.TestColumn | svo-lib/fast_neon/src/faster_corner_9_neon.cpp:34-36 | the two one-sided tests decide whether a side has an arc beyond its `short` threshold |
| FastNeon9.ScanRow | svo-lib/fast_neon/src/faster_corner_9_neon.cpp:32-251 | head columns, blocks and tail columns append what they find on the row, each pixel once, in order |
| FastNeon9.FasterCornerDetect9 | svo-lib/fast_neon/src/faster_corner_9_neon.cpp:16-253 | for images at least 22 wide and any `short` barrier: what blocks and columns find, which for the barriers that fit is the list of corners |
| FastNeon9.FastCornerDetect9Neon | svo-lib/fast_neon/src/faster_corner_9_neon.cpp:255-276 | for every image size and `short` barrier, with the fallbacks; for the barriers that fit the same list as the scalar detector |
| FastSse10.ChainKeepsArcs | svo-lib/fast_neon/src/faster_corner_10_sse.cpp:43-139 | no step of the mask chain drops a lane with an arc of 10 |
| FastSse10.ChainDropsOthers | svo-lib/fast_neon/src/faster_corner_10_sse.cpp:43-139 | a lane that survives the whole chain has an arc of 10 |
| FastSse10.ChainExact | svo-lib/fast_neon/src/faster_corner_10_sse.cpp:43-139 | a lane survives the chain if and only if it has an arc of 10 |
| FastSse10.CheckShifted | svo-lib/fast_neon/src/faster_corner_10_sse.cpp:91-108 | the register made by shifting and inserting two bytes answers as one loaded two columns to the right |
| FastSse10.FilterBlock | svo-lib/fast_neon/src/faster_corner_10_sse.cpp:36-139 | with all its early exits the block body computes the end of the chain |
| FastSse10.ScanBlock | svo-lib/fast_neon/src/faster_corner_10_sse.cpp:34-180 | a block appends exactly its pixels that pass the test with the truncated barrier |
| FastSse10.ScanRow | svo-lib/fast_neon/src/faster_corner_10_sse.cpp:29-185 | head columns, blocks and tail columns append what they find on the row, each pixel once, in order |
| FastSse10.FasterCornerDetect10 | svo-lib/fast_neon/src/faster_corner_10_sse.cpp:15-187 | for images at least 22 wide and any `short` barrier: what blocks and columns find, which for the barriers that fit is the list of corners |
| FastSse10.FastCornerDetect10Sse2 | svo-lib/fast_neon/src/faster_corner_10_sse.cpp:189-202 | for every image size and `short` barrier, with the fallbacks; for the barriers that fit the same list as the scalar detector |
| BarrierLimits.Scalar9Exact | svo-lib/fast_neon/src/fast_9.cpp:33-2953 | `fast_corner_detect_9` reports the corners of every image if and only if the barrier is below -255 or within 0 .. 32512 |
| BarrierLimits.Scalar10Exact | svo-lib/fast_neon/src/fast_10.cpp:9-3168 | `fast_corner_detect_10` reports the corners of every image if and only if the barrier is not within -255 .. -1 |
| BarrierLimits.WrongSimd | svo-lib/fast_neon/src/faster_corner_9_neon.cpp:22-253 | for every barrier that does not fit, an image on which blocks and columns report a wrong list |
| BarrierLimits.NeonExact | svo-lib/fast_neon/src/faster_corner_9_neon.cpp:255-276 | the NEON detector reports the corners of every image if and only if the barrier fits |
| BarrierLimits.SseExact | svo-lib/fast_neon/src/faster_corner_10_sse.cpp:189-202 | the SSE2 detector reports the corners of every image if and only if the barrier fits |
| FastScore.SegmentIffBelowMargin | svo-lib/fast_neon/src/fast_10_score.cpp:23-27 | a pixel is a corner exactly at the barriers below the best of the 32 arc margins |
| FastScore.MarginIsSafe | svo-lib/fast_neon/src/fast_10_score.cpp:27-48 | when the nest accepts, the pixel is a corner for the next `min_diff` barriers |
| FastScore.ScoreCircle | svo-lib/fast_neon/src/fast_10_score.cpp:21-3148 | the climbing loop ends and returns the best arc margin minus one, and never less than the barrier it started from |
| FastScore.ScoreIsGreatestBarrier | svo-lib/fast_neon/src/fast_10_score.cpp:23-26 | for a corner the score is the greatest barrier at which it still is one |
| FastScore.FastCornerScore10 | svo-lib/fast_neon/src/fast_10_score.cpp:3150-3178 | each corner gets its own score |
| FastScore.ScoresRankDetections | svo-lib/fast_neon/src/fast_10_score.cpp:3150-3178 | a detected corner is detected again at another barrier if and only if that barrier is at most its score |
| Nonmax3x3.FindRows | svo-lib/fast_neon/src/nonmax_3x3.cpp:29-38 | the table gives the first corner of each row, or -1 for a row without corners |
| Nonmax3x3.MaximumByPixels | svo-lib/fast_neon/src/nonmax_3x3.cpp:53-105 | written out: every other corner at most one column and one row away scores less |
| Nonmax3x3.AdvanceAbove | svo-lib/fast_neon/src/nonmax_3x3.cpp:68-76 | the cursor only moves forward, stays in bounds and skips only corners left of the window |
| Nonmax3x3.AbovePersists | svo-lib/fast_neon/src/nonmax_3x3.cpp:41-51 | what one corner may skip every later corner may skip, so the cursor can be kept |
| Nonmax3x3.ScanAbove | svo-lib/fast_neon/src/nonmax_3x3.cpp:79-84 | finds whether a corner of the row above beats this one, visiting at most three |
| Nonmax3x3.AdvanceBelow | svo-lib/fast_neon/src/nonmax_3x3.cpp:91-97 | the same for the cursor into the row below |
| Nonmax3x3.ScanBelow | svo-lib/fast_neon/src/nonmax_3x3.cpp:99-104 | finds whether a corner of the row below beats this one, visiting at most three |
| Nonmax3x3.MaximumByRows | svo-lib/fast_neon/src/nonmax_3x3.cpp:53-105 | being the strict maximum of the window splits into the checks beside, above and below |
| Nonmax3x3.Test | svo-lib/fast_neon/src/nonmax_3x3.cpp:48-107 | one turn of the loop keeps the corner exactly if it is the strict maximum |
| Nonmax3x3.FastNonmax3x3 | svo-lib/fast_neon/src/nonmax_3x3.cpp:17-112 | returns in increasing order exactly the indices that score strictly more than every other corner of their window, in linear total work |
| Nonmax5x5.CornerScoreTest | svo-lib/fast_neon/src/nonmax_5x5.cpp:10-53 | the larger of the bright and dark sums and which it is, within 0 .. 16 times 255 |
| Nonmax5x5.CornersScorePositive | svo-lib/fast_neon/src/nonmax_5x5.cpp:12-21 | a pixel that passes the segment test scores above the barrier |
| Nonmax5x5.OneSided | svo-lib/fast_neon/src/nonmax_5x5.cpp:43-52 | a centre with brighter and no darker pixels around it is dark, and one with darker and no brighter ones is not |
| Nonmax5x5.NegativeCorner | svo-lib/fast_neon/src/nonmax_5x5.cpp:12-53 | in the negative of the picture the score stays and the kind changes, unless both sides weigh the same |
| Nonmax5x5.KeptByPixels | svo-lib/fast_neon/src/nonmax_5x5.cpp:131-222 | written out: every other corner at most two columns and rows away scores less, or the same and comes later in raster order |
| Nonmax5x5.ScanUp | svo-lib/fast_neon/src/nonmax_5x5.cpp:164-192 | finds whether a corner one or two rows above beats this one |
| Nonmax5x5.ScanDown | svo-lib/fast_neon/src/nonmax_5x5.cpp:194-222 | finds whether a corner one or two rows below beats this one |
| Nonmax5x5.BesideIsSameRow | svo-lib/fast_neon/src/nonmax_5x5.cpp:136-162 | looking at two list places to either side covers the window in the row |
| Nonmax5x5.Test5 | svo-lib/fast_neon/src/nonmax_5x5.cpp:131-222 | the corner survives exactly if none in its 5x5 window is better: higher score, then earlier in raster order |
| Nonmax5x5.KeptAreApart | svo-lib/fast_neon/src/nonmax_5x5.cpp:55-66 | no two kept corners share a window |
| Nonmax5x5.DroppedHasKeptDominator | svo-lib/fast_neon/src/nonmax_5x5.cpp:234-235 | from every dropped corner better and better neighbours lead to a kept one |
| Nonmax5x5.SomeKept | svo-lib/fast_neon/src/nonmax_5x5.cpp:131-236 | a non-empty list keeps at least one corner |
| Nonmax5x5.ScoreAll | svo-lib/fast_neon/src/nonmax_5x5.cpp:110-126 | scores, orientations and row starts of all corners |
| Nonmax5x5.FastNonmax5x5 | svo-lib/fast_neon/src/nonmax_5x5.cpp:56-241 | the two output lists are the kept corners of each orientation, in raster order |
| Nonmax5x5.KeptInExactlyOneList | svo-lib/fast_neon/src/nonmax_5x5.cpp:224-232 | a corner is in the list of its orientation exactly if it is kept, and never in the other |
| Nonmax5x5.SomethingIsReported | svo-lib/fast_neon/src/nonmax_5x5.cpp:224-236 | a non-empty list leaves a non-empty output |
| FeatureDetector.CellInGrid | svo-lib/svo_common/include/svo/common/occupancy_grid_2d.h:84-95 | every pixel of a level has its cell inside the grid, if the last pixel has |
| FeatureDetector.CellIndexExact | svo-lib/svo_common/include/svo/common/occupancy_grid_2d.h:84-95 | a pixel has index k exactly if it lies in square k of the grid: column k modulo the number of columns, row the quotient, each cell size wide and high |
| FeatureDetector.ScaleIsPower | svo-lib/svo_direct/src/feature_detection_utils.cpp:159 | the scale of level 1 is 2, and that of a sum of levels the product: the scales are the powers of two |
| FeatureDetector.MaximumIsCandidate | svo-lib/svo_direct/src/feature_detection_utils.cpp:174-184 | what the suppression keeps inside the border are the local maxima among all corners of the image |
| FeatureDetector.Offer | svo-lib/svo_direct/src/feature_detection_utils.cpp:181-191 | one survivor is skipped at the border and in occupied cells, and otherwise replaces its cell's corner if it scores more |
| FeatureDetector.DetectLevel | svo-lib/svo_direct/src/feature_detection_utils.cpp:157-191 | after a level each free cell holds its best candidate, the first among equals, or its old corner if none is better |
| FeatureDetector.FastDetector | svo-lib/svo_direct/src/feature_detection_utils.cpp:145-193 | every cell: an occupied one keeps its corner; a free one keeps it too or takes a higher-scoring pixel of some level, in full-image coordinates and inside the square of the cell, and no level has a pixel there that scores more, or as much and comes first |
| FeatureDetector.BuildsAgree | svo-lib/svo_direct/src/feature_detection_utils.cpp:161-177 | the SSE2, NEON and scalar builds select the same corners when the cells start at the threshold |
| FeatureDetector.CellsHoldBest | svo-lib/svo_direct/src/feature_detection_utils.cpp:180-191 | over all levels, one after the other: a free cell holds a candidate of some level or what it held, no candidate scores more, the first of equals wins, and occupied cells are untouched |
| FeatureDetector.CandidateWrittenOut | svo-lib/svo_direct/src/feature_detection_utils.cpp:174-190 | written out, a candidate is a corner inside the border whose score exceeds those of the corners next to it |
| FeatureDetector.CellsByPixels | svo-lib/svo_direct/src/feature_detection_utils.cpp:145-193 | which corner a cell ends with, by the pixels of its square and of the levels alone |
| FlagValues.ParseFrom | svo-lib/gflags/src/gflags.cc:293-369 | a parsed value has the flag's type and fits its C type |
| FlagValues.NumberRoundTrip | svo-lib/gflags/src/gflags.cc:317-357 | a printed number is read back by both conversions over their whole range, and never as hexadecimal |
| FlagValues.RoundTrip | svo-lib/gflags/src/gflags.cc:293-397 | every value within its C range survives printing and parsing |
| FlagNumerals.BoolTexts | svo-lib/gflags/src/gflags.cc:294-308 | five words are true, five are false, upper and lower case apart, and no other text is a bool |
| FlagNumerals.SignedTexts | svo-lib/gflags/src/gflags.cc:310-350 | a signed flag accepts exactly white space, perhaps a sign, and a decimal numeral, or 0x and a hexadecimal one, within its C range, and for that number |
| FlagNumerals.UnsignedTexts | svo-lib/gflags/src/gflags.cc:334-357 | an unsigned flag accepts exactly these texts within its range, a minus sign only behind white space other than blanks and then modulo 2^64, and blanks alone as 0 |
| FlagStates.SetKeeps | svo-lib/gflags/src/gflags.cc:882-927 | after any set the flag is well typed, an unmodified flag has its default, and the modified bit is never cleared |
| FlagStates.FailedSet | svo-lib/gflags/src/gflags.cc:851-927 | a failed set changes neither value, and exactly when a set succeeds |
| FlagStates.SucceededSet | svo-lib/gflags/src/gflags.cc:882-927 | what a successful set does to value, default and modified bit in each mode |
| FlagStates.IfDefaultKeepsSetValues | svo-lib/gflags/src/gflags.cc:897-908 | set-if-default never overwrites a value that was set or differs from the default |
| FlagStates.RunKeeps | svo-lib/gflags/src/gflags.cc:619-625 | the invariants over every sequence of sets and direct writes |
| FlagStates.RunStaysValid | svo-lib/gflags/src/gflags.cc:851-880 | without direct writes a validated flag only ever holds validated values |
| FlagStates.FirstIfDefaultWins | svo-lib/gflags/src/gflags.cc:897-908 | of competing set-if-defaults the first acceptable one wins |
| FlagText.FindFlag | svo-lib/gflags/src/gflags.cc:770-782 | a flag is found, under the name as written or else with underscores for dashes, exactly if one of the two is registered |
| FlagText.DashSpelling | svo-lib/gflags/src/gflags.cc:770-782 | a flag is found under every spelling with dashes for some of its underscores, unless a flag goes by that spelling |
| FlagText.SplitPrinted | svo-lib/gflags/src/gflags.cc:793-812 | splitting a printed name and value gives both back |
| FlagText.ReadPrintedLine | svo-lib/gflags/src/gflags.cc:1335-1357 | reading the printed line of a flag restores that flag and records no error |
| FlagText.ReadPrinted | svo-lib/gflags/src/gflags.cc:1307-1391 | reading the rest of a printed text restores the rest of the flags |
| FlagText.PrintReadRoundTrip | svo-lib/gflags/src/gflags.cc:1788-1837 | printing all flags and reading the text into a registry with the same flags restores every value and no default changes |
| FlagText.ReadTextMisses | svo-lib/gflags/src/gflags.cc:1316-1327 | a string with a character at which lines are cut is never read back |
| FlagText.ReadTextRefuses | svo-lib/gflags/src/gflags.cc:851-880 | a value that the validator does not accept is never read back |
| FlagText.SomethingIsLost | svo-lib/gflags/src/gflags.cc:1316-1357 | if the text cannot carry some value, some flag does not get its value back |
| FlagText.PrintReadExact | svo-lib/gflags/src/gflags.cc:1788-1837 | for whole registries: every value is restored if and only if no string has a CR or LF and every value passes the other validator |
| FlagText.ReturnSpoilsBoth | svo-lib/gflags/src/gflags.cc:1319-1325 | a CR in one flag makes the flag printed before it take all text up to the CR, and is itself not read |
| FlagText.ReturnSpoilsOthers | svo-lib/gflags/src/gflags.cc:1319-1325 | an example: a flag whose value the text can carry is not restored |
| FlagText.HeldValueSurvives | svo-lib/gflags/src/gflags.cc:851-880 | an example: a value the text cannot carry survives because the other registry holds it and refuses the piece read |
| FlagText.StringSurvivesIffOneLine | svo-lib/gflags/src/gflags.cc:1316-1327 | alone in its registry and without validator, a string flag survives whatever it held before if and only if its value has neither CR nor LF |
| FlagSettings.SplitNames | svo-lib/gflags/src/gflags.cc:793-849 | a registered name sets its flag to the value, else a bool to true; `no` and the name of a bool sets it to false if no flag goes by that name; nothing else sets a flag |
| FlagSettings.LineSets | svo-lib/gflags/src/gflags.cc:1336-1357 | a flag line, with one dash or two, makes exactly that setting, and none if a value is missing |
| FlagSettings.ApplyEnds | svo-lib/gflags/src/gflags.cc:884-896 | after any settings a flag has the value of the last one that it accepts, or else its old value; defaults stay |
| FlagSettings.SetErrors | svo-lib/gflags/src/gflags.cc:1214-1220 | a setting adds an error, under the name of its flag, exactly if the flag does not accept the text |
| FlagSettings.ApplyErrors | svo-lib/gflags/src/gflags.cc:1214-1220 | errors never shrink, and settings add exactly the names of the flags that refuse one |
| FlagSettings.TextIsLines | svo-lib/gflags/src/gflags.cc:1315-1327 | reading a text is reading its lines one after the other |
| FlagSettings.LinesStart | svo-lib/gflags/src/gflags.cc:1316-1327 | a line ends at the LF behind it, if no CR follows, and the lines of the rest follow |
| FlagSettings.WordsMatched | svo-lib/gflags/src/gflags.cc:1365-1386 | a line of names matches exactly if one of the words between its blanks does |
| FlagSettings.LinesMakeSettings | svo-lib/gflags/src/gflags.cc:1307-1391 | reading lines makes the settings of those that come before all names or in a section that names this program |
| FlagSettings.OthersSectionSetsNothing | svo-lib/gflags/src/gflags.cc:1359-1364 | after a section of names of which none matches, nothing is set until the next section |
| FlagSettings.OwnSectionCounts | svo-lib/gflags/src/gflags.cc:1365-1386 | after a section of names of which one matches, the flag lines count until the next section |
| FlagSettings.TextOutcome | svo-lib/gflags/src/gflags.cc:1307-1391 | what a text does: every flag ends as its settings say, and the errors added are the flags that refuse one |
| FlagRegistry.CommandLineFlag.UpdateModifiedBit | svo-lib/gflags/src/gflags.cc:619-625 | the bit is set exactly if the value differs from the default |
| FlagRegistry.CommandLineFlag.CopyFrom | svo-lib/gflags/src/gflags.cc:627-634 | all mutable fields equal those of the other flag, also when both are the same object |
| FlagRegistry.CommandLineFlag.TryParse | svo-lib/gflags/src/gflags.cc:851-880 | the value a text stands for if it parses and validates; nothing changes |
| FlagRegistry.CommandLineFlag.Set | svo-lib/gflags/src/gflags.cc:882-927 | the fields change as the set mode says |
| FlagRegistry.Registry.RegisterFlag | svo-lib/gflags/src/gflags.cc:746-768 | a new name is added, a second flag of the same name is refused |
| FlagRegistry.FlagSaver.constructor | svo-lib/gflags/src/gflags.cc:1722-1737 | copies of all flags, in objects of their own |
| FlagRegistry.FlagSaver.RestoreToRegistry | svo-lib/gflags/src/gflags.cc:1743-1752 | every flag gets its saved state back, in its own object |
| FlagRegistry.CommandLineFlagParser.ProcessSingleOption | svo-lib/gflags/src/gflags.cc:1214-1220 | sets one flag and records an error if that fails (`SetErrors` says when) |
| FlagRegistry.CommandLineFlagParser.ProcessLine | svo-lib/gflags/src/gflags.cc:1331-1387 | comments, flag lines and file-name sections do what reading a line means |
| FlagRegistry.CommandLineFlagParser.ProcessOptionsFromString | svo-lib/gflags/src/gflags.cc:1307-1391 | the line loop reads the whole text |
| FlagRegistry.ReadFlagsFromString | svo-lib/gflags/src/gflags.cc:1816-1837 | returns true exactly if every flag accepts every text that the relevant lines give it, and then each flag has the value of its last setting; otherwise value, default, modified bit and validator of every flag are as before |
| FlagArgv.OrderPreserved | svo-lib/gflags/src/gflags.cc:1066-1075 | up to a bare `--` flags with their values and the other words each keep their order |
| FlagArgv.ArrangePermutes | svo-lib/gflags/src/gflags.cc:1061-1150 | the new argv is a permutation of the old one |
| FlagArgv.FrontIsFlags | svo-lib/gflags/src/gflags.cc:1069-1139 | only flags with their values go first, only positionals go last, and words lie in between only after a bare `--` |
| FlagArgv.ParsedAgain | svo-lib/gflags/src/gflags.cc:1102-1113 | parsing the new argv again finds the same flags at the front if and only if no last flag lacked its value or no positional follows |
| FlagArgv.ParsedAgainDiffers | svo-lib/gflags/src/gflags.cc:1102-1113 | an example on the failing side: `p --s` becomes `--s p`, where `--s` takes `p` |
| FlagArgv.RestNeedsTerminator | svo-lib/gflags/src/gflags.cc:1080-1084 | without a bare `--` the words after the boundary are the positionals only |
| FlagArgv.MoveToEnd | svo-lib/gflags/src/gflags.cc:1070-1071 | moves one word to the end and closes the gap |
| FlagArgv.SetAndPermute | svo-lib/gflags/src/gflags.cc:1066-1140 | the loop ends, permutes argv in place as arranged, sets the flags and returns the boundary |
| FlagArgv.ParseNewCommandLineFlags | svo-lib/gflags/src/gflags.cc:1061-1152 | argv is permuted as arranged, with `remove_flags` or without; every flag ends with the last text that the words give it and that it accepts; and the errors are the refused settings and the complaints |
| FlagArgv.WordsOutcome | svo-lib/gflags/src/gflags.cc:1066-1141 | what the words do to the flags and the errors, as settings and complaints |
| FlagWords.PlainWord | svo-lib/gflags/src/gflags.cc:1070-1086 | a word is positional exactly if it is empty, does not begin with a dash, or is just a dash; only two dashes stop the parser |
| FlagWords.FlagWord | svo-lib/gflags/src/gflags.cc:1079-1110 | every other word, with one dash or two, does what its name and value say: sets a flag, wants the next word, or names no flag |
| FlagWords.WhereItStops | svo-lib/gflags/src/gflags.cc:1066-1112 | the parser gets past all words, or stops at a bare `--` or at a last word that lacks its value |
| FlagWords.WordGoes | svo-lib/gflags/src/gflags.cc:1069-1086 | wherever the parser meets it, a positional word joins the words at the end; behind a bare `--` all words stay as they are and in place; any other word joins the flags in front |
| FlagWords.WordComplains | svo-lib/gflags/src/gflags.cc:1088-1112 | the parser complains exactly about words that name no flag and about a last word that lacks its value |
| FlagWords.BareWordSets | svo-lib/gflags/src/gflags.cc:843-846 | `--x` and `-x` leave a bool true, or an error if its validator refuses that, unless a later word sets it |
| FlagWords.NegatedWordSets | svo-lib/gflags/src/gflags.cc:814-841 | `--nox` and `-nox` leave a bool false, if no flag goes by that name and no later word sets it |
| FlagWords.ValueWordSets | svo-lib/gflags/src/gflags.cc:797-808 | `--n=v` and `-n=v` set a flag of any type to what v stands for, or leave an error |
| FlagWords.NextWordSets | svo-lib/gflags/src/gflags.cc:1099-1140 | `--n v` and `-n v` set a flag that is not a bool to what v stands for, whatever v looks like |
| FlagHelp.Wrap | svo-lib/gflags/src/gflags_reporting.cc:124-166 | the wrap loop ends with its length assertion true, keeps all characters but white space in order, breaks lines only at line ends of the text and where the next word would reach column 80, and makes short lines; where it dumps the rest, all lines before are short and a word of at least 73 characters follows |
| FlagHelp.AddString | svo-lib/gflags/src/gflags_reporting.cc:92-104 | a part goes on the line if it fits, and the count of characters stays right |
| FlagHelp.DescribeOneFlag | svo-lib/gflags/src/gflags_reporting.cc:119-183 | only white space is added or lost; the default and the current value stand where they are announced, quoted for strings; the description is broken only where it has to be, on short lines up to such a dump; and no line reaches 80 characters if no word and no part is too long |
| GaeReturns.Track.AdvantageIsWeightedErrors | rl_algorithms/buffers.py:99-110 | the backward loop computes the forward sum of errors weighted by products of per-step discounts |
| GaeReturns.Track.MonteCarloReturn | rl_algorithms/buffers.py:81-83 | with lambda 1 the return is the weighted sum of rewards with a bootstrap at the end |
| GaeReturns.Track.OneStepTarget | rl_algorithms/buffers.py:85-88 | with lambda 0 the return is the one-step target |
| GaeReturns.Track.WeightIsDiscount | rl_algorithms/buffers.py:107 | a later step counts with gamma to the number of valid steps in between, and not at all across an episode start |
| GaeReturns.Track.MaskedReturn | rl_algorithms/buffers.py:81-111 | with lambda 1 the return is the discounted sum of the rewards of the running episode |
| GaeReturns.NothingLeaksBack | rl_algorithms/buffers.py:101-106 | what follows an episode start has no influence on the steps before it |
| RolloutBuffer.FlattenedEntry | rl_algorithms/buffers.py:175-176 | flattening moves every entry to the place where sampling looks for it |
| RolloutBuffer.SetPositionsExact | rl_algorithms/buffers.py:160-161 | the masked index list holds exactly the valid positions, each once and in increasing order |
| RolloutBuffer.PermutedExact | rl_algorithms/buffers.py:162 | shuffling keeps the positions and their distinctness |
| RolloutBuffer.MaskedRolloutBuffer.Add | rl_algorithms/buffers.py:113-155 | one step goes into the next row, and the buffer is full after the last one |
| RolloutBuffer.MaskedRolloutBuffer.StepBack | rl_algorithms/buffers.py:100-109 | one turn of the backward loop extends the advantages of every environment by a step |
| RolloutBuffer.MaskedRolloutBuffer.ComputeReturnsAndAdvantage | rl_algorithms/buffers.py:72-111 | every entry is the advantage, and the return, of its step and environment |
| RolloutBuffer.MaskedRolloutBuffer.ValidDrawnOnce | rl_algorithms/buffers.py:160-162 | a pass draws each valid transition exactly once and no invalid one, and draws the right transition there |
| RolloutBuffer.MaskedRolloutBuffer.DrawnIsStep | rl_algorithms/buffers.py:189-202 | whatever is drawn is a valid step of some environment |
| RolloutBuffer.MaskedRolloutBuffer.Batches | rl_algorithms/buffers.py:183-187 | the batches concatenate to the shuffled transitions, none is empty, and all but the last have the batch size |
| RolloutBuffer.MaskedRolloutBuffer.PrepareData | rl_algorithms/buffers.py:165-177 | no transition changes when the buffers are flattened, once |
| RolloutBuffer.MaskedRolloutBuffer.Get | rl_algorithms/buffers.py:157-187 | one pass yields, at place k, value, log probability, advantage and return from their own arrays at the perm[k]-th valid position, in batches, and leaves mask and transitions as they are, so that later passes draw the same |
| OnPolicyRollout.ValidPositionsExact | rl_algorithms/buffers.py:160-161 | the valid steps are listed in increasing order, step t of environment e at position e times the buffer size plus t, and nothing else is listed |
| OnPolicyRollout.CollectRollouts | rl_algorithms/on_policy_algorithm.py:157-234 | after a rollout the buffer holds what was added at every step, and the advantage and return of every step and environment |
| OnPolicyRollout.DrawnYields | rl_algorithms/buffers.py:189-202 | place k of a pass is the k-th shuffled valid step, with the value and log probability added for it, its advantage, and their sum as its return |
| OnPolicyRollout.Train | rl_algorithms/ppo.py:226-229 | every epoch yields this, in its own order, in batches |
| OnPolicyRollout.Iterate | rl_algorithms/on_policy_algorithm.py:157-234 | from the steps added to the minibatches of every epoch, whatever the shuffles |
| OnPolicyRollout.EachOnce | rl_algorithms/buffers.py:160-162 | every valid step is at exactly one place of a pass, and no other step is |
| RunningMoments.MergeAdds | env/utils/running_mean_std.py:26-47 | merging adds up counts, sums and sums of squares |
| RunningMoments.BatchSums | env/utils/running_mean_std.py:21-23 | the batch mean and population variance carry the sum and the sum of squares |
| RunningMoments.BatchesMergeAsOne | env/utils/running_mean_std.py:20-47 | merging batches one by one is merging their concatenation |
| RunningMoments.OrderIsIrrelevant | env/utils/running_mean_std.py:20-47 | neither the order of the samples nor the cuts between batches matter |
| RunningMoments.StatisticsOfRun | env/utils/running_mean_std.py:16-47 | after any run mean and variance are those of all samples and a pseudo-sample of weight epsilon, and the variance is not negative |
| RunningMoments.RunningMeanStd.constructor | env/utils/running_mean_std.py:7-18 | mean 0, variance 1 and the weight epsilon |
| RunningMoments.RunningMeanStd.Update | env/utils/running_mean_std.py:20-24 | the fields become those of the merge with the batch |
| RunningMoments.RunningMeanStd.UpdateFromMoments | env/utils/running_mean_std.py:26-47 | the fields become those of the merge, and the three sums add up |
| RunningMoments.ObservationNormalizer.UpdateRms | env/svo_wrapper.py:365-366 | both statistics become the same object |
| RunningMoments.ObservationNormalizer.NormalizeObs | env/svo_wrapper.py:354-363 | which statistics move, and that the scaling ones stay if and only if not training or not yet the same object |
| AlignmentBuffer.StoredKeepsWindow | env/svo_wrapper.py:289-296 | shifting when full and storing at the clamped index keeps the window of the last points |
| AlignmentBuffer.PushedKeepsNewest | env/svo_wrapper.py:299-302 | shifting up and storing at slot 0 keeps the newest points, newest first |
| AlignmentBuffer.RowIsHistory | env/svo_wrapper.py:288-302 | for every interleaving of tracked frames, skipped frames and resets the buffers stand for the frames since the last reset |
| AlignmentBuffer.SlotsHoldHistory | env/svo_wrapper.py:288-302 | slot by slot: the last min(n, L) points oldest first, and the scale buffers newest first |
| AlignmentBuffer.AlignmentReadsWrittenSlots | env/svo_wrapper.py:263-269 | when the guard of the position reward holds, the alignment reads written slots only |
| AlignmentBuffer.AlignmentBuffers.ClearRows | env/svo_wrapper.py:168-174 | the rows in the mask are cleared and no other changes |
| AlignmentBuffer.AlignmentBuffers.UpdateAlignmentBuffer | env/svo_wrapper.py:288-302 | the rows in the mask take their frame and no other changes |
| AlignmentBuffer.AlignmentBuffers.AlignmentInput | env/svo_wrapper.py:261-269 | which environments are aligned, and on which points |
| AlignmentBuffer.AlignmentBuffers.Step | env/svo_wrapper.py:110-142 | one step clears, then stores, then aligns, and never aligns an environment just cleared |
| AlignmentBuffer.AlignmentBuffers.Reset | env/svo_wrapper.py:232-237 | all rows are cleared |
| LoaderCounters.NextFollows | dataloader/tartan_loader.py:132-148 | frame 0 starts a sequence and nothing else does, others grow by one in the same trajectory, and an index is in range unless the trajectory is empty |
| LoaderCounters.ItemIsModulo | dataloader/euroc_loader.py:156-172 | with a fixed trajectory call k reads frame k modulo its length |
| LoaderCounters.TartanLoader.constructor | dataloader/tartan_loader.py:110-119 | every environment is about to start its own trajectory |
| LoaderCounters.TartanLoader.GetItem | dataloader/tartan_loader.py:132-162 | every environment gets the next frame of its cursor, and the next pose stays inside the trajectory |
| LoaderCounters.EurocLoader.constructor | dataloader/euroc_loader.py:138-149 | every environment is about to start its own trajectory |
| LoaderCounters.EurocLoader.GetItem | dataloader/euroc_loader.py:156-184 | every environment gets the next frame of its cursor, with the count delayed on the first call |
| LoaderCounters.ReadBoth | dataloader/euroc_loader.py:156-172 | both loaders hand out the same items at every call, those of the closed form |
| LoaderCounters.TestDataloader | env/svo_wrapper.py:417-440 | the consistency check of the environment reports no discrepancy, whatever is drawn |

## Left out

- The decision nests are values that `Decide` and `Walk` interpret, not nested `if`s of the model; the
  translation is mechanical.
- Flag words of the SIMD detectors are sets of one bits, registers are sequences of 16 bytes; the choice
  between aligned and unaligned loads is not modelled.
- The sixteen unrolled pushes of a block are a loop.
- FastCircle.CornersExact: for images up to 32768 wide and high, since larger coordinates wrap in a `short`; the lists themselves are modelled with the wrap.
- Nonmax5x5.FastNonmax5x5: `corner_score` is defined nowhere in the repository; the model uses `corner_score_test`, which has its signature. Its output types are commented out in `fast.h`; a corner with its score stands for them.
- FeatureDetector.FastDetector: for thresholds that fit the detectors; the cell size and the quotient by it are reals, without rounding; the image pyramid is given; the angle of a corner, which is always 0, and the later filling of feature vectors are not modelled. The branch for builds without vector instructions names an index that is not declared; the model takes the level.
- FlagValues.RoundTrip: no `double` flags.
- FlagRegistry.CommandLineFlagParser.ProcessSingleOption: `flagfile`, `fromenv` and `tryfromenv` are plain string flags; files and environment are not read.
- FlagRegistry.Registry.RegisterFlag: a second flag of the same name is refused, where the program exits.
- FlagRegistry.ReadFlagsFromString: handling of `--help` and fatal errors, which exit, and the lock.
- FlagText.PrintReadExact: about registries that do not already hold a value the text cannot carry.
- FlagText.ReadText: whether a file-name pattern matches the program is a parameter.
- FlagArgv.ParseNewCommandLineFlags: the texts of error messages and the warning about values that look like flags; only which flags have errors is modelled.
- FlagHelp.DescribeOneFlag: descriptions have no NUL; XML output and printing to files.
- RolloutBuffer.MaskedRolloutBuffer.Get: batches are returned together, not one by one; observations and actions, which move like the values, are omitted, and `swap_and_flatten` comes from a library and is given its documented meaning.
- OnPolicyRollout.Train: the loss and its steps; a pass cut short because the policy has moved too far yields a prefix.
- OnPolicyRollout.CollectRollouts: what the policy and the environments answer, with the value added to the reward on a timeout, is a parameter.
- GaeReturns, RolloutBuffer, RunningMoments and AlignmentBuffer compute over reals; rounding is not modelled.
- RunningMoments.RunningMeanStd.Update: one component of the vectors, and no empty batches, whose mean is not a number.
- RunningMoments.ObservationNormalizer.NormalizeObs: the square root is not taken; deviations and variance are returned.
- AlignmentBuffer.AlignmentBuffers.Step: what the VO engine answers (stages, poses, lost tracks) is a parameter; the alignment itself, the scale buffer that is only ever cleared, and the weights of the reward are not modelled.
- LoaderCounters.TartanLoader.GetItem: images and poses are not loaded; the trajectories drawn are parameters.
- `dataloader/tum_loader.py` counts like the EuRoC loader.
- The SVO engine, rotations, SVD, neural networks, the PPO loss, plotting and logging.
