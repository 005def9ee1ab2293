# Queens board reader and solver, modelled in Dafny

This project models the core of a LinkedIn-"Queens" style puzzle solver written in Python.
The puzzle is an N×N board split into coloured regions. One queen goes in every row, every
column and every region, and no two queens in neighbouring rows may touch.

The core has three parts:

- **`src/imageloader.py`** reads a board from a screenshot. It crops a thick dark frame
  (`crop_inner_board`) and finds the gridlines (`detect_grid_lines`, with `_merge_positions`
  and `pick_best_periodic_lines`). It samples the colour of every cell (`sample_cell_color`),
  groups the colours into at most 26 clusters (`cluster_colors`), and spells the board with
  one letter per cluster (`assign_letter`). `process_image` drives these stages.
- **`src/solver.py`** holds `solve_queens`. It is an exhaustive, lexicographic backtracking
  search over one column per row. It counts the full placements it checks and returns the
  first valid one.
- **`src/parser.py`** reads a board from a text file (`parser`). It also writes a solved
  board back with the queens marked `#` (`save_solution`).

Each imperative routine is a Dafny `method` with the source's loops. Its postcondition ties
the result to a specification function, and lemmas about that function state what the source
promises. The solver's shared state is the class `Solver.QueensSearch`: the placement array,
the iteration counter and the solution. Its recursive `Generate` method updates that state
in place.

Modules, one per file:

| file | module | models |
|---|---|---|
| common.dfy | Common | Option, Python `int(a / b)` as truncation toward zero |
| sorting.dfy | Sorting | `sorted`, `np.median` on integers |
| image.dfy | Picture | the decoded RGB array, darkness tests, squared colour distance, the float scalings |
| merge_lines.dfy | LineMerge | `_merge_positions` |
| periodic.dfy | Periodic | `pick_best_periodic_lines` |
| crop.dfy | Crop | `crop_inner_board` |
| detect.dfy | GridDetect | `detect_grid_lines` |
| sample.dfy | CellSample | `sample_cell_color` |
| cluster.dfy | ColorCluster | `cluster_colors`, `assign_letter`, `rgb_dist` comparisons |
| process.dfy | ImageLoader | `process_image` from the decoded array on |
| solver.dfy | Solver | `solve_queens`, `check_entire_board`, `generate` |
| board_file.dfy | BoardFile | `parser`, `save_solution` |

Where the code and its design description disagree, the model follows the code:

- In `crop_inner_board` the 2-pixel pad moves each edge back *outward*, toward the picture's
  border (`max(0, r_top - pad)`, src/imageloader.py:109-113), not inward.
- The crop is rejected when the kept height is below half the original, or the kept width is.
  This is `r_bot - r_top < h * 0.5` (src/imageloader.py:115), which measures the distance
  between the two edge rows rather than the number of rows kept.
- A channel median is truncated by `int(...)`, not rounded (src/imageloader.py:198).
- Clusters are merged only while there are more than 26 of them (src/imageloader.py:234).
  Clusters closer than the threshold are not merged under the cap.
- The first sampled cell is not always spelled 'A'. The model proves only that the first
  cluster in the sorted list is the one opened by the first sample.

## Model

| member | source | states |
|---|---|---|
| Common.TruncDivBetween | src/imageloader.py:225-227 | `int(a / b)` lies between lo and hi whenever a lies between lo·b and hi·b, so averages of bytes stay bytes |
| Sorting.SortBy | src/imageloader.py:264 | `sort(key=...)` gives a list sorted by the key that is a permutation of its input |
| Sorting.Sort | src/imageloader.py:23 | `sorted(pos)` is sorted and a permutation of pos |
| Sorting.SortBySortedIsIdentity | src/imageloader.py:264 | sorting a list already sorted by the key leaves it unchanged |
| Sorting.Median | src/imageloader.py:45 | `int(np.median(xs))` is the middle sorted value for an odd count and the truncated mean of the two middle sorted values for an even count; at least half of the values lie at or below it and at least half at or above it |
| Sorting.MedianInRange | src/imageloader.py:197-198 | the median of values within lo..hi is within lo..hi |
| Picture.CountDark | src/imageloader.py:140 | the dark pixels of a row number at most its width |
| LineMerge.GroupsConcat | src/imageloader.py:24-29 | the groups, put back together, are exactly the sorted positions, and there are at most as many groups as positions |
| LineMerge.GroupsAreMaximalRuns | src/imageloader.py:25-29 | inside a group consecutive positions are at most merge_gap apart, and between groups they are more than merge_gap apart |
| LineMerge.GroupsOfSortedAreSorted | src/imageloader.py:23-29 | the groups of a sorted list are sorted, group after group |
| LineMerge.MergedPositionsLength | src/imageloader.py:18-32 | the merged list is no longer than the input, and is empty exactly when the input is |
| LineMerge.MergedPositionsWithinRuns | src/imageloader.py:23-31 | each merged position is the truncated mean of one maximal run and lies between its first and last position |
| LineMerge.MergedPositionsIncreasing | src/imageloader.py:18-32 | for a non-negative gap the merged positions strictly increase |
| LineMerge.MergePositions | src/imageloader.py:18-32 | the loop builds MergedPositions: no longer than its input, strictly increasing for a non-negative gap |
| Periodic.Diffs | src/imageloader.py:44 | the gaps of sorted lines are non-negative, and of strictly increasing lines positive |
| Periodic.DiffsRebuild | src/imageloader.py:44 | the gaps determine the lines: line k is the first line plus the sum of the first k gaps |
| Periodic.GreedyRunShape | src/imageloader.py:55-60 | the run grown from one start is a subsequence of the sorted lines, each step within tol of step |
| Periodic.PeriodicLinesUnfiltered | src/imageloader.py:39-47 | with fewer than four lines, or a median gap ≤ 0, the sorted lines come back unchanged |
| Periodic.PeriodicLinesBestRun | src/imageloader.py:50-62 | otherwise the result is the run of some start that no other start beats, and no earlier start ties: a subsequence of the sorted lines, evenly spaced within tolerance |
| Periodic.PeriodicLinesSubsequence | src/imageloader.py:34-78 | the result is always a subsequence of the sorted lines |
| Periodic.RunFrom | src/imageloader.py:55-60 | the inner loop computes the greedy run from one start |
| Periodic.LongestRun | src/imageloader.py:52-62 | the outer loop keeps the first longest run |
| Periodic.PickBestPeriodicLines | src/imageloader.py:34-78 | `pick_best_periodic_lines(lines, None)` equals PeriodicLines and is a subsequence of the sorted lines |
| Crop.TopFrom | src/imageloader.py:93-95 | the scan stops at the first row, from the top, whose dark share is at most 0.25; every row it passes is thick |
| Crop.BottomFrom | src/imageloader.py:97-99 | the same from the bottom |
| Crop.LeftFrom | src/imageloader.py:101-103 | the same for columns from the left |
| Crop.RightFrom | src/imageloader.py:105-107 | the same for columns from the right |
| Crop.SubImageIsImage | src/imageloader.py:118 | the slice of a byte image is a rectangular byte image of b-t rows and r-l columns |
| Crop.EdgesInRange | src/imageloader.py:109-113 | after padding, an accepted crop has its edges inside the picture |
| Crop.CroppedShape | src/imageloader.py:82-118 | a too-small crop returns the picture unchanged; otherwise the result is the padded slice, covering at least half of each dimension, and everything cut off beyond the pad is thick frame |
| Crop.CroppedIsImage | src/imageloader.py:118 | the cropped array is again a rectangular byte image, no larger than the original |
| Crop.ScanRows | src/imageloader.py:93-99 | the two while loops find the first non-thick row from the top and from the bottom |
| Crop.ScanColumns | src/imageloader.py:101-107 | the same for columns |
| Crop.PaddedEdges | src/imageloader.py:93-114 | the four scans plus the clamped two-pixel pad give exactly the frame edges Edges |
| Crop.CropToIsImage | src/imageloader.py:116-118 | cutting a picture to a frame that fits gives a rectangular byte image no larger than the picture |
| Crop.CropInnerBoard | src/imageloader.py:82-118 | `crop_inner_board` equals Cropped and returns a byte image |
| GridDetect.ColSums | src/imageloader.py:137-139 | one count per column, each between 0 and the picture's height |
| GridDetect.RowSums | src/imageloader.py:137-140 | one count per row, each between 0 and the row's width, so at most the picture's width |
| GridDetect.Candidates | src/imageloader.py:146-147 | `np.where(sums >= thr)`: exactly the indices whose sum reaches the threshold, in increasing order |
| GridDetect.OfferAt | src/imageloader.py:136-142 | the configurations are tried threshold by threshold, ratio by ratio |
| GridDetect.AllOffers | src/imageloader.py:136-165 | sixteen configurations are tried |
| GridDetect.AllOffersAt | src/imageloader.py:136-165 | try 4·t+r uses darkness threshold t and length ratio r |
| GridDetect.ChooseFindsBest | src/imageloader.py:160-165 | the kept offer has the highest score, the first such offer is kept, and an empty pair (score 0) stays when no offer scores above 0 |
| GridDetect.GridLinesChosen | src/imageloader.py:121-167 | `detect_grid_lines` keeps the first best-scoring configuration |
| GridDetect.GridLinesEmpty | src/imageloader.py:134-167 | it returns two empty lists exactly when no configuration scores above zero |
| GridDetect.ChooseAmongStep | src/imageloader.py:163-165 | one more offer replaces the best only when it scores strictly higher |
| GridDetect.TryConfig | src/imageloader.py:143-158 | one configuration gives ConfigLines: nothing when an axis has fewer than four merged lines |
| GridDetect.TryThreshold | src/imageloader.py:136-165 | one darkness threshold's inner loop folds its four ratios into the best so far |
| GridDetect.DetectGridLines | src/imageloader.py:121-167 | `detect_grid_lines` equals GridLines |
| CellSample.SliceBound | src/imageloader.py:181 | a Python slice bound is normalised into 0..n and left alone when already in range |
| CellSample.PySlice | src/imageloader.py:181 | a slice is no longer than its sequence and holds only its elements |
| CellSample.DropDark | src/imageloader.py:186-187 | the kept pixels are exactly the patch pixels not dark on all three channels |
| CellSample.DropDarkCounts | src/imageloader.py:186-187 | `patch[keep]` holds each non-dark pixel as often as the patch does, and no dark pixel |
| CellSample.DropDarkConcat | src/imageloader.py:186-187 | the dark filter keeps patch order: filtering a concatenation filters each part |
| CellSample.DropWhite | src/imageloader.py:191-192 | the kept pixels are exactly those not above 245 on all three channels |
| CellSample.DropWhiteCounts | src/imageloader.py:191-192 | `patch2[keep2]` holds each pixel that is not a highlight as often as its input does, and no highlight |
| CellSample.DropWhiteConcat | src/imageloader.py:191-192 | the highlight filter keeps order: filtering a concatenation filters each part |
| CellSample.SurvivorsAreFiltered | src/imageloader.py:185-194 | a survivor is exactly a patch pixel that is neither dark nor a highlight, and it survives as often as the patch holds it, so `len(patch2)` counts those pixels |
| CellSample.SurvivorsConcat | src/imageloader.py:185-192 | the survivors keep patch order: survivors of a concatenation are the survivors of each part, and one pixel survives exactly when it is neither dark nor a highlight |
| CellSample.ChosenPixels | src/imageloader.py:194-195 | with ten or more survivors the median runs over them, otherwise over the whole patch; all chosen pixels come from the patch |
| CellSample.PatchColorIsMedian | src/imageloader.py:197-198 | each channel of the colour is the middle of that channel's sorted values over the chosen pixels, the truncated mean of the two middle ones for an even count; at least half the chosen pixels lie at or below it and at least half at or above it |
| CellSample.PatchMembers | src/imageloader.py:181 | every pixel of a patch is a pixel of the picture |
| CellSample.SampleIsByteColor | src/imageloader.py:171-198 | on a byte image the sampled colour is a byte colour, (200, 200, 200) included |
| ColorCluster.NearestIn | src/imageloader.py:211-218 | the scan returns -1 for no clusters, else a closest cluster, the first of the closest |
| ColorCluster.AddColor | src/imageloader.py:210-231 | every cluster keeps a positive count |
| ColorCluster.AddColorCases | src/imageloader.py:220-231 | a colour with no centroid within the threshold opens a new cluster (count 1, its index); otherwise the nearest cluster, which is within the threshold, absorbs it by running mean |
| ColorCluster.AddColorCount | src/imageloader.py:220-231 | each colour adds exactly one to the total count and at most one cluster |
| ColorCluster.AddColorFirst | src/imageloader.py:231 | clusters stay ordered by the index of the colour that opened them |
| ColorCluster.AddColorRange | src/imageloader.py:225-228 | when each channel of the centroids and of the new colour lies in that channel's range, each channel of every new centroid does too |
| ColorCluster.OnlineCount | src/imageloader.py:210-231 | after the first pass the counts sum to the number of colours, with no more clusters than colours and none exactly when there are no colours |
| ColorCluster.OnlineFirst | src/imageloader.py:210-231 | after the first pass clusters are ordered by first index, starting at 0 |
| ColorCluster.OnlineRange | src/imageloader.py:210-231 | each first-pass centroid channel lies within the range of that channel over the colours |
| ColorCluster.PairsBefore | src/imageloader.py:238-243 | the scan holds no pair only before its first comparison, and afterwards holds a pair i < j already visited |
| ColorCluster.PairsBeforeIsClosest | src/imageloader.py:238-243 | the pair scan keeps the closest pair seen, the first in scan order among equals |
| ColorCluster.ClosestPair | src/imageloader.py:235-245 | the pair merged is a closest pair i < j, and no pair scanned before it is as close |
| ColorCluster.MergePair | src/imageloader.py:246-261 | merging removes exactly one cluster and keeps every count positive |
| ColorCluster.MergePairCount | src/imageloader.py:250-261 | merging keeps the total count |
| ColorCluster.MergePairFirst | src/imageloader.py:259-261 | merging keeps the order by first index and the first cluster's first index |
| ColorCluster.MergePairRange | src/imageloader.py:253-257 | each channel of the weighted centroid stays within that channel's range over the centroids |
| ColorCluster.MergePairShape | src/imageloader.py:246-261 | total count and first-index order survive a merge |
| ColorCluster.Cap | src/imageloader.py:234-261 | every count stays positive while merging down to the cap |
| ColorCluster.CapShape | src/imageloader.py:234-261 | the loop ends with at most max_clusters clusters, changes nothing when already under the cap, and keeps the total count and the first-index order |
| ColorCluster.CapRange | src/imageloader.py:234-261 | merging keeps each centroid channel within that channel's range |
| ColorCluster.IncreasingIsSorted | src/imageloader.py:264 | clusters ordered by first index are already sorted by it, so the final sort changes nothing |
| ColorCluster.ClusteringShape | src/imageloader.py:201-265 | `cluster_colors` gives at most max_clusters clusters and no more than colours, none exactly for no colours, counts summing to the number of colours, ordered by first index starting at 0 |
| ColorCluster.ClusteringRange | src/imageloader.py:201-265 | each centroid channel lies within the range of that channel over the input colours |
| ColorCluster.ClusteringWithoutMerge | src/imageloader.py:233-264 | with no more colours than the cap, the result is the first pass itself |
| ColorCluster.LetterForCases | src/imageloader.py:268-277 | no clusters gives 'A', a nearest index from 26 on gives 'Z', else the letter of the nearest cluster; always 'A'..'Z' |
| ColorCluster.NearestCluster | src/imageloader.py:211-218 | the inner loop finds Nearest |
| ColorCluster.ScanPartners | src/imageloader.py:239-243 | the inner pair loop extends the scan over all partners of i |
| ColorCluster.FindClosestPair | src/imageloader.py:235-245 | the double loop finds ClosestPair |
| ColorCluster.FirstPass | src/imageloader.py:210-231 | the first loop builds Online |
| ColorCluster.MergeClosest | src/imageloader.py:235-261 | one round of the while loop merges the closest pair |
| ColorCluster.ClusterColors | src/imageloader.py:201-265 | `cluster_colors` equals Clustering, with at most max_clusters clusters and counts summing to the number of colours |
| ColorCluster.AssignLetter | src/imageloader.py:268-277 | `assign_letter` equals LetterFor |
| ImageLoader.Chosen | src/imageloader.py:284-298 | the chosen array is a byte image |
| ImageLoader.CroppedDetection | src/imageloader.py:284-287 | the cropped candidate is the cropped array, a byte image |
| ImageLoader.SampleRow | src/imageloader.py:309-313 | a row has N samples |
| ImageLoader.SamplesAreByteColors | src/imageloader.py:307-313 | on a byte image the samples form an N×N grid of byte colours |
| ImageLoader.LettersByIndex | src/imageloader.py:320-328 | cell (r, c) is the letter of flat sample r·N+c, the one `idx` reaches |
| ImageLoader.ChosenPrefersRaw | src/imageloader.py:284-298 | the cropped array wins only with a strictly higher score, the raw array wins ties, and the lines kept are those detected on the array kept |
| ImageLoader.SpelledShape | src/imageloader.py:300-330 | N ≤ 0 gives (None, 0); otherwise (board, N) with an N×N board, its letters from clustering the N² samples into at most 26 clusters |
| ImageLoader.SpelledLetters | src/imageloader.py:320-328 | every letter of a board is in 'A'..'Z' |
| ImageLoader.SampleRowInto | src/imageloader.py:310-313 | the inner loop appends one row of samples |
| ImageLoader.SampleCells | src/imageloader.py:307-313 | `cell_colors` is the samples in row-major order |
| ImageLoader.SpellBoard | src/imageloader.py:320-328 | the loops build Letters, with `idx` running through the samples in row-major order |
| ImageLoader.SpellRow | src/imageloader.py:322-326 | row r of the grid holds, for each column c, the letter of the cell colour at flat index r*N + c |
| ImageLoader.ChooseDetection | src/imageloader.py:284-298 | the choice between raw and cropped equals Chosen |
| ImageLoader.BuildBoard | src/imageloader.py:300-330 | the rest of `process_image` equals Spelled |
| ImageLoader.ProcessImage | src/imageloader.py:284-330 | `process_image` from the decoded array on equals Processed |
| Solver.Pairs | src/solver.py:79 | a pair (r, c) is listed exactly when r is a row and the queen of row r is in column c |
| Solver.ColumnsCount | src/solver.py:32-33 | `len(set(placement)) == N` exactly when the N columns are distinct |
| Solver.CheckEntireBoard | src/solver.py:29-54 | true exactly when the columns are distinct, the region letters under the queens are distinct and queens of neighbouring rows are at least two columns apart |
| Solver.CheckRegions | src/solver.py:35-43 | true exactly when no two rows put their queen on the same region letter |
| Solver.CheckNeighbours | src/solver.py:45-52 | true exactly when the queens of every two consecutive rows are at least two columns apart |
| Solver.UsedRegions | src/solver.py:36-43 | the colours collected after r rows are exactly the region letters under the queens of those rows |
| Solver.GenFromSpec | src/solver.py:57-96 | for any acceptance test, below a fixed prefix the search finds the lexicographically first accepted extension and counts rank + 1 placements; when it finds none, no extension is accepted and it counts all N^(N-row) of them |
| Solver.ColsFromSpec | src/solver.py:85-96 | the same for the columns of one row from col on |
| Solver.SolveSpec | src/solver.py:22-104 | a solution is a valid placement, no placement before it in lexicographic order is valid, and the count is its rank + 1; no solution exactly when no placement is valid, with N^N placements counted |
| Solver.SuffixRankBound | src/solver.py:66 | a placement's rank is below N^N, so a successful search counts at most N^N placements |
| Solver.QueensSearch.constructor | src/solver.py:24-26 | the search starts with placement [0]·N, no iterations and an empty solution |
| Solver.QueensSearch.Generate | src/solver.py:57-96 | `generate(row)` leaves rows before row unchanged, adds the placements it checks to `iterations`, and records the solution exactly when the search below the current prefix finds one, leaving that solution in `placement` |
| Solver.SolveQueens | src/solver.py:22-104 | `solve_queens` returns the pairs of the search's solution, or None, and the search's count |
| BoardFile.LineEnd | src/parser.py:26 | a line ends after its newline or at the end of the text |
| BoardFile.StrippedLines | src/parser.py:26 | each stripped line is a prefix of its line, the removed tail is whitespace, and it is empty or ends in a non-space |
| BoardFile.NonEmptyMembers | src/parser.py:29 | exactly the non-empty lines are kept |
| BoardFile.NonEmptyCounts | src/parser.py:29 | each non-empty line is kept as often as it occurs and no empty one, so N = `len(lines)` counts the non-blank lines |
| BoardFile.NonEmptyConcat | src/parser.py:29 | the kept lines stay in file order: filtering a concatenation filters each part |
| BoardFile.NonEmptySingle | src/parser.py:29 | one line is kept exactly when it is not empty |
| BoardFile.Parser | src/parser.py:23-47 | `parser` on the file's text equals ParseText |
| BoardFile.CheckSquare | src/parser.py:31-47 | the validation gives nothing exactly when there are no lines or some line's length differs from the number of lines; otherwise it gives the lines and their count |
| BoardFile.ParseResult | src/parser.py:26-47 | a board comes back exactly when the kept lines are non-empty and all N long, N their count; it is then the kept lines, an N×N board whose rows end in a non-space |
| BoardFile.RStripShape | src/parser.py:26 | `rstrip` keeps a prefix whose removed tail is all whitespace and which is empty or ends in a non-space |
| BoardFile.ReadLinesShape | src/parser.py:26 | `readlines` cuts the text into non-empty lines that put back together give the text, each with a newline at most at its end |
| BoardFile.Overlaid | src/parser.py:56-60 | the marked board has the shape of the grid |
| BoardFile.MarkQueens | src/parser.py:56-60 | the copy is marked exactly when every queen cell is in range; then every queen cell is '#' and every other cell is unchanged |
| BoardFile.SaveSolution | src/parser.py:54-71 | `save_solution` succeeds exactly when every queen cell is in range, with the marked rows joined by '\n' and no trailing newline |
| BoardFile.ReadBackRows | src/parser.py:26-64 | reading back rows joined by newlines gives the rows, when each row is non-empty and has no whitespace |
| BoardFile.SaveThenParse | src/parser.py:10-71 | parsing a saved N×N board of non-space letters gives the marked board and N |
| BoardFile.SaveEmptyThenParse | src/parser.py:10-71 | saving without queens and parsing again gives back the board and N |

## Left out

- Decoding the image file (src/imageloader.py:282-283): the model starts from the decoded array, a rectangular grid of byte colours.
- The exception wrappers of `process_image`, `parser` and `save_solution`: the model keeps the failure results. These are (None, 0), (None, None) and False, the last for a queen cell out of range.
- The `print` diagnostics in every file and `print_solution` (src/parser.py:74-79): console output only.
- The file itself in `parser` and `save_solution`: existence check, open, read, write. The model works on the text read and the text to write. Newline translation by text-mode files is not modelled. A `\r\n` ending makes no difference, because right-stripping removes the `\r`. A lone `\r` does differ: Python reads it as a line break and the model does not. For the text `AB\rBA\n`, Python reads two lines of length 2 and returns a board. The model reads one line of length 5 and returns nothing.
- Floating point: `int(h * ratio)`, `int(step * 0.35)` and the 0.35/0.65 cell inset are not reproduced bit for bit. They come in as the fields of `Picture.Scaling`. The dark share `dark.mean(...) > 0.25` is modelled exactly as 4·count > width.
- `rgb_dist` (src/imageloader.py:13-15): the model compares squared distances. `d <= thr` becomes `thr >= 0 && d² <= thr²`. This orders and compares exactly like the square root, without modelling float rounding.
- ColorCluster.ClusterColors: requires max_clusters ≥ 1. With 0 and at least one colour, the source fails unpacking `best_pair = None` at src/imageloader.py:245.
- The `target_count` branch of `pick_best_periodic_lines` (src/imageloader.py:65-76, `np.std`): every caller passes None.
- `gui.py` and `main.py`: the user interface and command line are not part of this model.
- The `callback` and `should_stop` hooks of `solve_queens` (src/solver.py:61-62, 69-72, 89-90): they report progress and stop early. The model is the search without a stop request.
- Solver.CheckEntireBoard: requires an N×N board and a placement with entries in 0..N-1. `generate` only ever passes such placements.
- Picture.ColDark: is total on ragged rows (a short row adds nothing), whereas numpy requires a rectangular array; every caller passes a rectangular image.
- numpy `uint8` arithmetic: channels are compared as integers, and the centroid averages are computed on Python ints, as in the source.
