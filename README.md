# Image transformers of Fuel, as index arithmetic

This project models the integer-index behaviour of Fuel's image
transformers, as exercised by `tests/transformers/test_image.py`.
Where those tests leave a behaviour open (a draw order, a rank rule), the
model makes a choice, and "## Left out" names each such choice.
The transformers are `FixedSizeCrop`, `FixedSizeCropND`,
`RandomFixedSizeCrop`, `SamplewiseCropTransformer` (without a weight
source), `RandomSpatialFlip` and `Drop`.

It has these parts:

- **Arrays** (`arrays.dfy`, module `NdArrays`). An N-dimensional array is
  a nested `Arr` (a scalar, or a stack of equally shaped sub-arrays) with
  its shape. Cells are read by index tuple. Crop, axis reversal and
  cell-wise maps are stated cell by cell, and `Extensionality` turns
  cell-wise agreement into equality.
- **Random draws** (`rng.dfy`, module `Random`). numpy's `RandomState` is an
  abstract stream of raw draws.
  - An integer in `[0, hi]` is `raw % (hi + 1)`.
  - A Bernoulli bit is `raw % 2 == 1`.
  - Class `Rng` holds the stream and the number of draws taken so far. Its
    methods `RandomInteger`, `RandomIntegers` and `Binomial` are proved
    against the functions `Uniform`, `Integers` and `Coins`.
- **Batch formats** (`batches.dfy`, module `Batches`). A batch is a dense
  stack, a list of arrays, or a one-dimensional object array.
  - `MapExamples` applies a per-example transform to each example in order
    and rebuilds the container. A list stays a list and an object array
    stays an object array. A dense stack stays dense when its results share
    one shape; otherwise the results come back as a list.
  - Position i is passed to the transform, so a transform can take its own
    draws.
  - A non-array element is refused.
- **Window engine** (`windows.dfy`, `random_crop.dfy`, `window_copy.dfy`).
  - Fixed corner crops in 2-D and N-D, chosen by one 0/1 location bit per
    axis.
  - Random crops with one uniform offset per axis. The model draws them
    example by example and axis by axis; the tests do not pin this order.
  - The in-place buffer copy `window_batch_bchw3d`: five nested loops
    over a five-dimensional `array5`.
- **Flips** (`flips.dfy`). Horizontal and vertical flips reverse the last
  and the second-last axis. A batch of n examples draws n bits for the
  horizontal axis, then n bits for the vertical axis. A disabled axis
  draws nothing, and with neither axis enabled the input comes back
  unchanged.
- **Drop** (`drop.dfy`).
  - Border blanking keeps a cell only when every spatial coordinate lies
    in `[border, dim - border)`.
  - The "source" flag leaves two leading axes alone (batch and channel);
    "example" leaves one (channel).
  - Dropout makes cells 0 according to a mask that stands for numpy's
    draws.
- **Heatmap** (`heatmap.dfy`). `calculate_heatmap(w)` is
  `w / sum(w[:, :, 2:-1, 2:-1, ...])`, computed over exact reals.
- **Samplewise crop** (`samplewise.dfy`).
  - A dense batch draws one vector of offsets per spatial axis, with one
    entry per example, and is copied out as `window_batch_bchw3d` does.
  - A list or object array goes example by example.
  - A call given a seed uses a fresh generator seeded with it and does not
    touch the transformer's own generator.
  - A call without a seed uses the transformer's own generator, created
    from the default seed by the first such call.

The `ValueError`s the tests expect become an `Err` of the `Error` datatype:
- `FormatError` for a wrong rank or a non-array;
- `SizeError` for a window or border that does not fit;
- `ConfigError` for a bad location or flag.

`calculate_heatmap` raises nothing. The model still refuses two of its
inputs: one with fewer than three axes (`FormatError`), and one whose
interior sums to 0 (`DegenerateWeights`). "## Left out" explains why.

Three details follow directly from the test file:
- **Flip draw order.** All horizontal bits of a batch are drawn before all
  vertical bits. The tests pre-consume one batch-length vector of bits to
  line up a vertical-only flip with a "both" flip
  (`tests/transformers/test_image.py:569`, `:660`, `:744`).
- **Heatmap interior.** The interior is the slice `[2:-1]` of every
  spatial axis (`tests/transformers/test_image.py:857`). It leaves two
  cells out at the start of an axis and one at its end.
- **Drop border.** Border blanking keeps exactly the cells whose spatial
  coordinates lie in `[border, dim - border)`
  (`tests/transformers/test_image.py:1519-1542`).

## Model

| member | source | states |
|---|---|---|
| Random.Rng.RandomInteger | tests/transformers/test_image.py:945-947 | `random_integers(0, hi)` gives a value in `[0, hi]` from the next draw and takes exactly one draw |
| Random.Rng.RandomIntegers | tests/transformers/test_image.py:877-880 | a vector of bounded integers, the i-th from draw `drawn + i`; the generator advances by the vector's length |
| Random.Rng.Binomial | tests/transformers/test_image.py:744 | `binomial(1, 0.5, size=n)` gives n bits from the next n draws and advances the generator by n, so a pre-consumed call shifts all later bits |
| Random.IntegersSplit | tests/transformers/test_image.py:877-880 | drawing a concatenated vector is drawing its two halves one after the other |
| Batches.MapExamplesIsPerExampleMap | tests/transformers/test_image.py:1408-1422 | a batch transform succeeds exactly when every example's transform does, and its examples are then the per-example results in order; a list or object array keeps its kind, and a dense stack stays dense when its results share a shape and otherwise becomes a list |
| Batches.MapExamplesAt | tests/transformers/test_image.py:1408-1422 | example i of a transformed batch is the example transform of example i, and the count is kept |
| Batches.MapExamplesOfResults | tests/transformers/test_image.py:1415-1422 | an object array transformed as a batch equals the array of its per-example results |
| Batches.MapExamplesStopsAtFirstFailure | tests/transformers/test_image.py:1060-1064 | a batch whose example i is the first to fail fails with that example's error |
| Batches.MapExamplesKeepsContainer | tests/transformers/test_image.py:994-996 | for a transform whose every result has shape `out`, a dense stack stays dense (with shape `[count] + out` when it has an example), a list stays a list, an object array stays an object array, and the count is kept |
| Batches.RepresentationIndependent | tests/transformers/test_image.py:985-1032 | the same examples as a dense stack, a list or an object array give the same accept/reject verdict and the same results |
| Batches.NonArraysRejected | tests/transformers/test_image.py:1424-1428 | a list of non-arrays is refused with `FormatError` by the batch entry point, and a non-array by the example entry point |
| Batches.RestackExamples | tests/transformers/test_image.py:1412-1413 | restacking per-example results gives back exactly those examples |
| Windows.CheckWindow | tests/transformers/test_image.py:1042-1065 | an example passes exactly when it has one channel axis plus one axis per window axis and is at least the window on each; a wrong rank is `FormatError` |
| Windows.MaxOffsets | tests/transformers/test_image.py:873-876 | the largest offset on axis k is `dim_k - window_k` |
| Windows.CropExampleAt | tests/transformers/test_image.py:949-952 | cell `[c] + j` of the crop is cell `[c] + (j + off)` of the example: every channel, the slice `[off, off + window)` on each spatial axis |
| Windows.ParseLocation | tests/transformers/test_image.py:1034-1040 | a location is accepted exactly when it is a sequence with one 0/1 entry per window axis; bit 1 means "at the end" |
| Windows.CornerOffsets | tests/transformers/test_image.py:988-990 | location bit 0 gives offset 0 and bit 1 gives `dim - window`; the window always fits |
| Windows.NewFixedSizeCropND | tests/transformers/test_image.py:1099-1101 | construction succeeds exactly when the location parses, and keeps the window and the parsed bits |
| Windows.NewFixedSizeCrop | tests/transformers/test_image.py:1034-1040 | the 2-D crop accepts exactly a two-entry 0/1 location |
| Windows.RejectedLocations | tests/transformers/test_image.py:1034-1040 | `1`, `[0, 1, 0]` and `[2, 0]` are refused with `ConfigError` |
| Windows.FixedSizeCropND.CropOne | tests/transformers/test_image.py:1042-1065 | one example is cropped exactly when it fits the window, to shape channels × window; otherwise a format or size error |
| Windows.FixedTransformExample | tests/transformers/test_image.py:1153-1160 | the example entry point refuses non-arrays and wrong ranks with `FormatError`, and otherwise returns the corner crop |
| Windows.FixedTransformBatch | tests/transformers/test_image.py:985-1032 | a batch is cropped exactly when it is admitted and every example fits; each result is the corner crop of its example, and the count is kept |
| Windows.CornersCoverIff | tests/transformers/test_image.py:985-998 | the 2^n corner windows cover every spatial position exactly when every axis is at most twice its window |
| Windows.CropHoldsCell | tests/transformers/test_image.py:997 | a cell inside the corner window appears in that corner's crop |
| Windows.CornerCropsSeeEveryCell | tests/transformers/test_image.py:1093-1111 | when corners meet, every cell of an example appears in one of the corner crops |
| Windows.CornerCropsSeeEveryBatchCell | tests/transformers/test_image.py:1113-1151 | the same for every cell of every example of a dense, list or object-array batch, and the corner crop of the batch succeeds |
| RandomCrops.RandomCropStep | tests/transformers/test_image.py:267-290 | a random crop succeeds exactly when the example fits the window and then has shape channels × window; otherwise a format or size error |
| RandomCrops.RandomCropIsAWindow | tests/transformers/test_image.py:235-248 | a random crop is the crop at offsets that fit, axis k's offset uniform in `[0, dim_k - window_k]` from the example's k-th draw |
| RandomCrops.RandomCropShift | tests/transformers/test_image.py:250-265 | example i of a batch is cropped as a lone example by a generator that has already made `i * rank` more draws |
| RandomCrops.RandomCropBatchOrder | tests/transformers/test_image.py:235-265 | every example of a cropped batch is its window at the offsets drawn example by example, then axis by axis |
| RandomCrops.RandomCropRepresentationIndependent | tests/transformers/test_image.py:235-265 | dense, list and object-array batches of the same examples are cropped alike from the same draws |
| RandomCrops.RandomFixedSizeCrop.TransformExample | tests/transformers/test_image.py:267-283 | the example call is the random crop from the generator's current position; it takes one draw per axis when it succeeds and none when it fails |
| RandomCrops.RandomFixedSizeCrop.CropEach | tests/transformers/test_image.py:250-265 | crops the examples in order until the first failure, reports that failure, and has taken one draw per axis per cropped example |
| RandomCrops.RandomFixedSizeCrop.TransformBatch | tests/transformers/test_image.py:235-290 | the batch call is the per-example random crop from the generator's position; a success advances it by count × rank |
| RandomCrops.RandomFixedSizeCrop.CropAdmitted | tests/transformers/test_image.py:235-265 | the same for a batch whose examples all have the right rank |
| WindowCopy.CellIsCrop | tests/transformers/test_image.py:881-882 | buffer cell (b, c, x, y, z) is cell (c, x, y, z) of example b's window at that example's offsets |
| WindowCopy.FillLine | tests/transformers/test_image.py:881 | one line of the output buffer is filled from the source window; every other cell is unchanged |
| WindowCopy.FillPlane | tests/transformers/test_image.py:881 | one plane is filled; every other cell is unchanged |
| WindowCopy.FillChannel | tests/transformers/test_image.py:881 | one channel of one example is filled; every other cell is unchanged |
| WindowCopy.FillExample | tests/transformers/test_image.py:881 | one example is filled; every other example is unchanged |
| WindowCopy.WindowBatch3D | tests/transformers/test_image.py:873-882 | `window_batch_bchw3d` fills every cell of `out` with the source cell at the example's offsets |
| WindowCopy.BufferHoldsCrops | tests/transformers/test_image.py:873-882 | a filled buffer holds, for every example, that example's crop at its offsets, cell for cell |
| Flips.FlippedIndex | tests/transformers/test_image.py:719-740 | a horizontal flip mirrors the last coordinate, a vertical flip the second-last; all other coordinates are kept |
| Flips.FlipAt | tests/transformers/test_image.py:719-785 | every cell of a flipped example is the cell at the mirrored index |
| Flips.FlipTwice | tests/transformers/test_image.py:719-740 | flipping twice with the same bits gives back the example |
| Flips.FlipBatchAccepts | tests/transformers/test_image.py:702-717 | with an axis enabled, a flip succeeds exactly when every example is an array with channel, height and width axes; with none enabled it always succeeds; the count is kept |
| Flips.BitsOfExample | tests/transformers/test_image.py:742-745 | example i's horizontal bit is draw `pos + i`; its vertical bit is draw `pos + n + i` when horizontal flips are on, `pos + i` otherwise |
| Flips.FlipBatchDrawOrder | tests/transformers/test_image.py:742-785 | with an axis enabled, example i of a flipped batch is its flip by exactly those two bits, gated by the enabled axes |
| Flips.FlipNothingUnchanged | tests/transformers/test_image.py:707-717 | with neither axis enabled no draw is taken, every batch is returned unchanged, and so is every array given to the example entry point |
| Flips.NoBitsUnchanged | tests/transformers/test_image.py:720-740 | examples whose bits are all off come back unchanged from a batch the flip accepts |
| Flips.FlipExampleIsBatchOfOne | tests/transformers/test_image.py:524-538 | the example entry point flips an array as the batch entry point flips a one-example list, and refuses a non-array exactly when the batch entry point does, whenever a flip is enabled |
| Flips.FlipRepresentationIndependent | tests/transformers/test_image.py:616-700 | list, object-array and dense batches of the same examples are flipped alike from the same draws |
| Flips.RandomSpatialFlip.TransformBatch | tests/transformers/test_image.py:702-785 | the batch call is `FlipBatch` from the generator's position, and it takes n draws per enabled axis |
| Flips.RandomSpatialFlip.TransformExample | tests/transformers/test_image.py:524-614 | the example call is `FlipExample` from the generator's position, with one draw per enabled axis |
| Drops.LeadingAxes | tests/transformers/test_image.py:1501-1509 | flag "source" leaves two leading axes alone, "example" one; any other flag is `ConfigError` |
| Drops.BorderFunc | tests/transformers/test_image.py:1501-1516 | `_border_func` succeeds exactly for a good flag, an array with a spatial axis, and a border under half of every spatial axis; a bad flag is `ConfigError` |
| Drops.BlankAt | tests/transformers/test_image.py:1517-1542 | a blanked cell is the input cell when every spatial coordinate is in `[border, dim - border)`, and 0 otherwise |
| Drops.BlankNothing | tests/transformers/test_image.py:1517-1542 | with the kept range `[border, dim - border)` these tests show, a border of 0 keeps every cell; no test blanks with border 0 |
| Drops.OnlyCentreSurvives | tests/transformers/test_image.py:1519-1542 | on axes of length `2 * border + 1` only the centre cell is inside the border |
| Drops.BlankSourceIsPerExample | tests/transformers/test_image.py:1519-1529 | blanking a dense batch with "source" blanks each example as "example" does |
| Drops.DropoutAt | tests/transformers/test_image.py:1544-1551 | each cell after dropout is the input cell or 0, according to the mask |
| Drops.DropAt | tests/transformers/test_image.py:1553-1615 | a `Drop` call succeeds exactly for an array with a spatial axis whose border fits; each output cell is the input cell or 0, is 0 outside the border, and is the input when dropout is off |
| Drops.DropNothingIsIdentity | tests/transformers/test_image.py:1585-1595 | `Drop(border=0, dropout=0)` returns every array with a spatial axis unchanged |
| Heatmaps.InteriorRange | tests/transformers/test_image.py:857-858 | the slice `2:-1` of an axis of length d keeps exactly the positions p with `2 <= p < d - 1` |
| Heatmaps.InteriorIsSlice | tests/transformers/test_image.py:854-862 | the interior crop's cells are exactly the cells whose spatial coordinates are all inside the slice |
| Heatmaps.DividedAt | tests/transformers/test_image.py:857-858 | each cell of the divided array is the input cell divided by the sum |
| Heatmaps.TotalDivided | tests/transformers/test_image.py:857-858 | the sum of a divided array is the sum divided |
| Heatmaps.CalculateHeatmap | tests/transformers/test_image.py:854-862 | succeeds exactly for rank at least 3 and a non-zero interior sum, keeping the shape; otherwise `FormatError` or `DegenerateWeights` |
| Heatmaps.HeatmapAt | tests/transformers/test_image.py:854-862 | every heatmap cell is the weight divided by the interior sum |
| Heatmaps.HeatmapInteriorSumsToOne | tests/transformers/test_image.py:854-862 | the interior of a heatmap sums to exactly 1 |
| Samplewise.DenseOffsetAt | tests/transformers/test_image.py:877-880 | example b's offset on axis k is uniform in `[0, max_k]` from draw `pos + k*n + b`: one vector per axis, in axis order |
| Samplewise.CropDense | tests/transformers/test_image.py:864-882 | a dense batch is cropped exactly when its examples match the window's rank and size; it stays dense with shape `[n] + channels + window` |
| Samplewise.CropDenseAt | tests/transformers/test_image.py:873-882 | example b of the cropped dense batch is example b's window at its row of offsets, which fit |
| Samplewise.SeededObjectArrayIsPerExample | tests/transformers/test_image.py:900-913 | a seeded object-array call succeeds exactly when every element's seeded example call does, and holds those results in order |
| Samplewise.SeededSameWindow | tests/transformers/test_image.py:900-913 | with a seed, two elements of one shape are cropped at the same offsets |
| Samplewise.CoSourcesSameWindow | tests/transformers/test_image.py:825-839 | two dense sources of one shape cropped from the same draws are cropped at the same offsets: the offsets depend on the shape and the draws, not on the cells. That both sources get the same draws (the same seed) is stream plumbing, which is not modelled |
| Samplewise.WindowCopyIsCropDense | tests/transformers/test_image.py:873-882 | the buffer `window_batch_bchw3d` fills with the drawn offsets holds the dense crop, cell for cell |
| Samplewise.SamplewiseCropTransformer.OwnRng | tests/transformers/test_image.py:866-872 | the transformer's own generator is created from the default seed on first use, then reused |
| Samplewise.SamplewiseCropTransformer.TransformExample | tests/transformers/test_image.py:927-955 | a seeded example call crops from a fresh generator with that seed, and the own generator is untouched; an unseeded call crops from the own generator (a fresh one created from the default seed if there is none yet, otherwise the same object) and advances it by one draw per axis on success and by none on failure, so successive unseeded calls continue one stream |
| Samplewise.SamplewiseCropTransformer.TransformBatch | tests/transformers/test_image.py:864-917 | a seeded batch call crops from a fresh generator with that seed, and the own generator is untouched; an unseeded call crops from the own generator (a fresh one created from the default seed if there is none yet, otherwise the same object); a success advances it by count × rank draws, and a failure by no more than that |
| Samplewise.UnseededCallsContinue | tests/transformers/test_image.py:927-955 | two unseeded example calls on a new transformer crop from the default-seed stream: the first from its start, the second from where the first stopped (`rank` draws on, or none after a refusal) |
| Samplewise.SamplewiseCropTransformer.CropDenseDrawing | tests/transformers/test_image.py:873-882 | the dense crop drawn from the generator equals `CropDense` at the generator's position; a success advances the generator by `n × rank` draws (one vector of n per axis), a refusal by none |
| Samplewise.DrawVectors | tests/transformers/test_image.py:877-880 | one `random_integers(0, max_k, size=n)` vector per axis, in axis order; the generator advances by `rank × n` |

## Left out

- Random2DRotation, GammaCorrectionND's power law, MinimumImageDimensions and ImagesFromBytes. Their outputs come from floating-point interpolation, `pow`, PIL resampling and PIL codecs. The batch-format adapter they share is modelled generically, by `Batches.MapExamples` over any per-example transform.
- Image2DSlicer. The tests pin only output ranks and error cases whose cause is unclear.
- Weighted heatmap sampling of crop locations. Only `calculate_heatmap` is modelled, and the crop without a weight source.
- Concrete numpy `RandomState` outputs (Mersenne Twister). The generator is an abstract stream of draws, and all properties are stated relative to that stream.
- Heatmaps.CalculateHeatmap: two refusals are modelling choices. First, an interior that sums to 0 is refused with `DegenerateWeights`. numpy divides by the zero sum and returns infinities and NaNs, which exact reals cannot represent. Second, an array with fewer than three axes is refused with `FormatError`. No test pins what `calculate_heatmap` does on such an array.
- Flips.FlipAxes.FlipExample: with no axis enabled, an array is returned unchanged, but a non-array is still refused. The example entry point's result is an array, so a non-array cannot be handed back as it is.
- Drops.Dropout: the cells numpy's float draws choose are an abstract keep mask. The model proves only that each cell is the input or 0.
- The stream, dataset and epoch-iterator plumbing: `which_sources`, co-source iteration, and how the per-sample seed is chosen. Sources outside `which_sources` are passed through unchanged by the stream layer, which is not modelled.
- Drop's constructor type checks on `border` and `dropout` (`TypeError` for non-numbers). Types rule these out in the model.
- Flips.RandomSpatialFlip.TransformBatch: the bits are drawn before the examples are checked, so a refused batch still consumes its draws. The contract states the draws taken in every case, but that order is a modelling choice the tests do not pin.
- RandomCrops.RandomCropBatchOrder: for a batch of more than one example, the draw order (example by example, then axis by axis, so example i's axis-k offset is draw `pos + i * rank + k`) is a modelling choice. The tests check only shapes, coverage over epochs and which inputs are refused. RandomCrops.RandomCropShift and the dense-batch contract of RandomCrops.RandomFixedSizeCrop.TransformBatch rest on the same choice. The samplewise dense crop uses the opposite, axis-major order (see Samplewise.DenseOffsetAt).
- Flips.FlipBatchAccepts: the rank rule (an example must have channel, height and width axes, so at least three) is a modelling choice. No flip test passes an array of lower rank or expects a refusal.
- Flips.RandomSpatialFlip.TransformExample: the example entry point (one draw per enabled axis, the same flip and rank rule as a one-example batch) is a modelling choice. The flip tests call only the batch entry point. Flips.FlipExampleIsBatchOfOne rests on the same choice.
- Samplewise.DenseOffsetAt: for a dense batch of more than one example, the axis-major draw order (one vector of size n per axis) is taken from the shape of `window_batch_bchw3d`'s offset arrays. The tests pin only a batch of one.
- Batches.Restack: an empty dense batch comes back as an empty dense batch with the input's example shape, and no example-level check (such as a crop's window check) is made on it. No test pins this edge. Samplewise.CropDense, in contrast, checks the window even for an empty batch.
- WindowCopy.WindowBatch3D: only three spatial axes, as the routine itself. The element type is `real`, so no dtype conversion of the buffer is modelled.
- Integer dtypes (`uint8`, `uint16`, `float32`). Cell values are exact reals, and no wrap-around or rounding is modelled.
