# pixelsg training and hypercolumn bookkeeping, in Dafny

This project models the index arithmetic and array layout around the
deep-learning calls in `pixelsg/train.py`. It covers five pieces:

- **Minibatch scheduler** (`Minibatches`). A pass over `N` samples yields
  `N / batchsize` batches of exactly `batchsize` samples and drops the
  remainder. Batches are contiguous slices, or consecutive slices of a
  permutation of `0..N-1` when shuffling. The permutation is an input.
- **Min-max scaling** (`Scaling`). `(x - min) / (max - min)` over a whole
  band array, over the reals.
- **Training-loop bookkeeping** (`Training`):
  - the learning-rate schedule `0.001 / (1 + 0.01 * epoch)`;
  - the running training and validation sums;
  - the per-epoch "best validation error" tracker that decides when the
    parameters are saved;
  - the per-epoch summary, which divides by the batch counts.

  Per-batch losses and accuracies are inputs.
- **Layer selection and feature counting** (`Layers`). `get_layers` keeps
  the layers whose position is listed, in network order.
  `get_num_feature_maps` sums their channel counts.
- **Hypercolumn assembly and aggregation** (`Hypercolumns`, `Aggregation`):
  - a zeroed `(F, size, size)` array is filled plane by plane with a
    running counter;
  - a spatial map goes through an abstract resize;
  - a dense layer's scalar becomes a constant plane;
  - each image's stack is transposed and flattened to `(size², F)` and
    written into its block of rows of a `(size² · N, F)` matrix.

`Raster` holds the integer facts about row-major offsets that these
layouts share.

A constant band array is not rejected. The code divides 0 by 0, numpy
only warns, and every scaled value is NaN. `Scale` returns `AllNaN` for
that case.

## Model

| member | source | states |
|---|---|---|
| `Minibatches.IterateMinibatches` | pixelsg/train.py:16-26 | yields exactly `N / batchsize` batches, each of `batchsize` inputs and `batchsize` targets; none when `N < batchsize`; batch `k` holds the inputs and targets at the sample indices of `BatchIndices(k)` |
| `Minibatches.VisitOrder` | pixelsg/train.py:18-25 | the visiting order is a permutation of `0..N-1`; without shuffling it is the identity |
| `Minibatches.BatchIndices` | pixelsg/train.py:21-25 | batch `k` has `batchsize` sample indices, each below `N` |
| `Minibatches.Gather` | pixelsg/train.py:26 | definition: fancy indexing keeps the index count and picks `xs[idx[j]]` at slot `j` |
| `Minibatches.NextBatch` | pixelsg/train.py:21-23 | a start offset `k * bs` with a full batch after it is a batch the pass yields (`k < N / bs`), and its slice of the visiting order is `BatchIndices(k)` |
| `Minibatches.FirstBatches` | pixelsg/train.py:21-26 | definition, reasoned about by `EpochPrefix`: the sample lists of the first `m` batches, one per batch, each the gather of its batch indices |
| `Minibatches.EpochPrefix` | pixelsg/train.py:21-26 | the first `m` batches, concatenated, are the samples at the first `m * bs` positions of the visiting order |
| `Minibatches.UnshuffledEpochIsPrefix` | pixelsg/train.py:21-25 | without shuffling, a pass concatenated is `xs[..(N / bs) * bs]`, so the trailing `N % bs` samples are dropped |
| `Minibatches.UnshuffledBatchIsSlice` | pixelsg/train.py:24-25 | without shuffling, batch `k` is the contiguous slice `[k * bs, (k + 1) * bs)` |
| `Minibatches.SliceIsGather` | pixelsg/train.py:23-25 | a contiguous slice equals the gather of the same positions of the identity order, so both branches agree when not shuffling |
| `Minibatches.ShuffledEpochFollowsPermutation` | pixelsg/train.py:18-23 | with shuffling, a pass concatenated is the gather of the first `(N / bs) * bs` entries of the permutation |
| `Minibatches.BatchIndexAt` | pixelsg/train.py:21-23 | slot `j` of batch `k` holds position `k * bs + j` of the visiting order |
| `Minibatches.BatchesDisjoint` | pixelsg/train.py:18-23 | two different slots of one pass never hold the same sample index |
| `Scaling.Scale` | pixelsg/train.py:29-32 | the empty array is an error; the result is all-NaN, of the input's length, exactly when min equals max; it is finite exactly when the array is non-empty and min is below max, and then it has the input's length and every value lies in `[0, 1]` |
| `Scaling.Min` | pixelsg/train.py:31 | the minimum is an element and below every element |
| `Scaling.Max` | pixelsg/train.py:31 | the maximum is an element and above every element |
| `Scaling.ScaleValue` | pixelsg/train.py:31 | a value in `[min, max]` scales into `[0, 1]`, and `Unscale` recovers it |
| `Scaling.ZeroRangeIffConstant` | pixelsg/train.py:31 | min equals max exactly when all entries are equal |
| `Scaling.ScaleValueEndpoints` | pixelsg/train.py:31 | min scales to 0 and max to 1 |
| `Scaling.ScaleValueMonotone` | pixelsg/train.py:31 | scaling single values keeps their order in both directions |
| `Scaling.ScaleEndpoints` | pixelsg/train.py:29-32 | entries equal to the minimum become 0 and those equal to the maximum become 1, and both 0 and 1 occur in the result |
| `Scaling.ScalePreservesOrder` | pixelsg/train.py:31 | `x[i] <= x[j]` exactly when the scaled values are so ordered |
| `Scaling.ScaleIsInvertible` | pixelsg/train.py:31 | every entry is recovered from its scaled value by `Unscale` |
| `Training.LearningRate` | pixelsg/train.py:138 | with a positive base the rate is positive and at most the base, and equals the base at epoch 0 |
| `Training.LearningRateNonIncreasing` | pixelsg/train.py:138 | the rate at a later epoch is never above the rate at an earlier one |
| `Training.SavePoints` | pixelsg/train.py:145-158 | the save points among the first `k` validation batches are batch indices below `k` |
| `Training.ValidateEpoch` | pixelsg/train.py:142-158 | the counter equals the number of batches, the sums are the cumulative loss and accuracy, and the saves are exactly `SavePoints`: the batches whose running loss is below every earlier running loss of the epoch |
| `Training.FirstBatchSaves` | pixelsg/train.py:145-158 | because the tracker starts each epoch at infinity, the first validation batch always triggers a save |
| `Training.RunningSumMonotone` | pixelsg/train.py:150-155 | with non-negative losses the running validation sum never decreases |
| `Training.NonNegativeLossesSaveOnce` | pixelsg/train.py:142-158 | with non-negative losses an epoch saves exactly once, at its first validation batch |
| `Training.Summarize` | pixelsg/train.py:162-165 | the three printed figures are means: each times its batch count gives the summed training loss, validation loss and (in percent) validation accuracy |
| `Training.CumulativeBounds` | pixelsg/train.py:135-155 | a sum of `k` batch figures in `[lo, hi]` lies in `[k * lo, k * hi]` |
| `Training.SummaryBounds` | pixelsg/train.py:162-165 | losses in `[lo, hi]` give printed mean losses in `[lo, hi]`, and accuracies in `[0, 1]` give a printed accuracy in `[0, 100]` |
| `Training.TrainEpoch` | pixelsg/train.py:127-140 | the counter equals the number of batches, the sum is the cumulative training loss, and every step uses the epoch's learning rate |
| `Training.RunEpoch` | pixelsg/train.py:125-165 | an epoch aborts exactly when a pass had no batch; otherwise its summary is the three means, its rates are the epoch's rate, and its saves are `SavePoints` |
| `Training.EpochCheckpoints` | pixelsg/train.py:156-158 | definition, reasoned about by `CheckpointOncePerEpoch`: one checkpoint per save point, tagged with the epoch |
| `Training.AllSaves` | pixelsg/train.py:125-158 | every checkpoint of the first `e` epochs belongs to one of those epochs |
| `Training.TrainCnn` | pixelsg/train.py:122-165 | the run completes exactly when there are no epochs or at least 128 samples; on abort nothing is reported; otherwise it reports one summary and one rate list per epoch, every rate is the schedule's rate for its epoch, and the saves are `AllSaves` |
| `Training.CheckpointOncePerEpoch` | pixelsg/train.py:125-158 | with non-negative validation losses and at least one batch per epoch, a run saves exactly once per epoch, at batch 0, whether or not the model improved |
| `Layers.SelectFrom` | pixelsg/train.py:184-188 | the selection from position `from` on has at most `|network| - from` layers |
| `Layers.GetLayers` | pixelsg/train.py:170-190 | the selection has at most as many layers as the network |
| `Layers.SelectFromPositions` | pixelsg/train.py:184-188 | there are ascending positions, each listed in `indices`, that hold the selected layers one to one, and every listed valid position is among them |
| `Layers.GetLayersPositions` | pixelsg/train.py:184-190 | `get_layers` keeps exactly the layers at listed positions, in network order |
| `Layers.SelectIgnoresIndexOrder` | pixelsg/train.py:185-188 | the selection depends only on which valid positions are listed |
| `Layers.GetLayersIgnoresIndexOrder` | pixelsg/train.py:185-188 | the order, repetitions and out-of-range entries of `indices` do not affect the selected layers |
| `Layers.NumFeatureMaps` | pixelsg/train.py:193-198 | the sum of the selected layers' channel counts (`shape[1]`): at least each layer's count, and zero exactly when every layer has no channels |
| `Layers.NumFeatureMapsAppend` | pixelsg/train.py:193-198 | the feature-map count adds up over concatenated layer lists |
| `Hypercolumns.ConstantPlane` | pixelsg/train.py:232-235 | definition: a dense layer's scalar becomes a `size x size` plane with that scalar in every cell |
| `Hypercolumns.PlaneOf` | pixelsg/train.py:225-235 | every plane, resized or constant, is `size x size` |
| `Hypercolumns.LayerPlanes` | pixelsg/train.py:223-237 | definition, reasoned about by `PlaneAt`: one layer contributes one plane per channel, in channel order |
| `Hypercolumns.Planes` | pixelsg/train.py:222-237 | every plane of the stack is `size x size` |
| `Hypercolumns.PlanesAppend` | pixelsg/train.py:222-237 | the stack of concatenated layer lists is the concatenation of their stacks |
| `Hypercolumns.PlanesCount` | pixelsg/train.py:220-239 | when the activations have the selected layers' declared shapes, the stack has exactly `F` planes, so the assertion at the end holds |
| `Hypercolumns.PlaneAt` | pixelsg/train.py:222-237 | plane `ch` of layer `l` sits at depth (planes of earlier layers) + `ch`; a dense layer's plane holds its scalar everywhere, and a spatial layer's plane is the resized map |
| `Hypercolumns.PlanesPrefix` | pixelsg/train.py:222-237 | the stack of the first `l + 1` layers extends that of the first `l` by layer `l`'s planes |
| `Hypercolumns.StackLayer` | pixelsg/train.py:224-237 | writes one layer's planes at the counter's depths, fails exactly when one would land beyond depth `F`, and leaves every depth below the start and from the start plus the layer's plane count on unchanged |
| `Hypercolumns.ExtractHypercolumns` | pixelsg/train.py:201-241 | the array is `(F, size, size)` with `F` the selected layers' feature count; it succeeds exactly when the activations supply `F` planes, and then cell `(f, r, c)` is cell `(r, c)` of plane `f` in layer, then channel, order |
| `Aggregation.ImageBlock` | pixelsg/train.py:270 | image `i + 1`'s rows start `size²` after image `i`'s, and no image's block reaches beyond the matrix |
| `Aggregation.PixelInImage` | pixelsg/train.py:269-270 | the row of pixel `(r, c)` of image `i` lies inside image `i`'s block of rows |
| `Aggregation.RowsCovered` | pixelsg/train.py:258-270 | every row of the matrix is the row of some pixel of some image |
| `Aggregation.RowsDistinct` | pixelsg/train.py:269-270 | different pixels, of the same image or not, never share a row |
| `Aggregation.ConformingActivationsExtract` | pixelsg/train.py:247-267 | when every image's activations have the selected layers' shapes, every extraction succeeds |
| `Aggregation.ReshapedPixels` | pixelsg/train.py:269 | a matrix whose row `p` holds pixel `(p / size, p % size)` holds pixel `(r, c)` in row `r * size + c` |
| `Aggregation.TransposeReshape` | pixelsg/train.py:269 | the `(size², F)` result holds, at the row of pixel `(r, c)` and column `f`, cell `(f, r, c)` of the stack |
| `Aggregation.WriteRows` | pixelsg/train.py:270 | the rows `[start, start + rows)` become the given block, and every other row keeps its value |
| `Aggregation.ImageRows` | pixelsg/train.py:266-269 | one image's `(size², F)` block holds, at the row of pixel `(r, c)`, the pixel's value in every plane; it fails exactly when the extraction fails |
| `Aggregation.StoreImage` | pixelsg/train.py:266-270 | the image's block of rows holds its hypercolumns pixel by pixel, and every row outside the block is unchanged |
| `Aggregation.AggregateHypercolumns` | pixelsg/train.py:244-272 | succeeds exactly when the images are square and every extraction yields `F` planes; the matrix is `(size² · N, F)`, and the row `size² · i + r · size + c` holds, in column `f`, plane `f` of image `i` at `(r, c)` |

## Left out

- Theano graph construction and the compiled `train_fn` / `val_fn`. These include the Nesterov momentum updates and the cross-entropy and accuracy expressions. Per-batch losses and accuracies are inputs.
- The network itself (`pixelsg/models.py`, `lasagne.layers.get_all_layers` and `get_output_shape`). A layer is represented by its declared output shape, and the network by the list of those shapes in order.
- Computing the activations of one image (the Theano function in `extract_hypercolumns`). They are an input, one `Spatial` or `Flat` value per selected layer.
- The bilinear resize `sp.misc.imresize`. It is a function parameter, and all that is known of it is that it returns a `size x size` map.
- Data loading (`fits.getdata`, `extract_patches`, `nanomaggie_to_luptitude`), augmentation, and `load_params`. The model contains no I/O.
- `save_params`. A save appears only as a `Checkpoint(epoch, batch)` event.
- `np.random.shuffle`. The permutation is a parameter.
- Timing, `tqdm` progress and the printed figures. The printed means are returned as `Summary` values.
- Floating point. All values are reals, so there is no float64 rounding, overflow or NaN beyond the explicit `AllNaN` outcome.
- Array element types and integer widths. They are not modelled because indices are unbounded integers.
- The memory map behind the aggregated matrix. It is an in-memory 2-D array that starts at zero.
- `cluster_hypercolumns` (MiniBatchKMeans). It is library numerics, and it refers to an undefined name `hc` at line 280.
- `load_training_set`. Only the scaling of one band is modelled. The band array is taken flattened, since the minimum and maximum are global.
- `Minibatches.IterateMinibatches`: requires a positive batch size. A zero step makes `range` raise, and a negative batch size is not modelled.
- `Minibatches.IterateMinibatches`: requires inputs and targets of equal length, which the source asserts.
- `Training.TrainCnn`: requires every epoch to supply `numSamples / 128` training and validation results. That is the number of batches the scheduler yields.
- `Aggregation.AggregateHypercolumns`: for an empty matrix the model returns an empty matrix. An empty matrix arises with no images, zero-size images or no feature maps. There, numpy's memory map of an empty file and the reshape with `-1` of an empty stack fail instead.
- `Aggregation.AggregateHypercolumns`: the image count and image size come from the input array's shape. The channel count plays no part.
