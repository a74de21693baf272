# BareBonesDistributedNN: the sequential network scaffolding, in Dafny

This project models the single-process neural-network code that the
distributed trainer is built on:

- the layer-shape description `ParamsNN` and its validator (`src/nn.h`);
- the strided array kernels of `src/util/util.h`: the zero-filling allocator,
  `MatrixAdd`, ReLU and its gradient, and `Argmax`;
- the storage layout of one `NNLayer` (`src/nn/nn_layer.h`): the widened
  bias column, the four weight-shaped buffers whose bias column is held at 1,
  and the strided copy of a batch of images into the input buffer;
- network assembly and the passes over a data set (`NN` in `src/nn/nn.h`):
  one layer per parameter entry with input/output flags, the prev/next
  wiring, the batch loop shared by `Train`, `ComputeLoss` and
  `ComputeErrorRate`, the `IncStep` sweep and the error counting.

Modelling choices:

- A `double *` buffer is a `seq<real>`. A kernel that writes into a buffer is
  a method that takes the buffer's contents before the call and returns them
  after it. The three element-wise kernels and the image copy share one loop,
  `Kernels.StridedWrite`. Doubles are modelled as exact reals: the IEEE
  rounding of products, sums and quotients is abstracted away.
- `exit(-1)` in the validator becomes a `Fail` outcome that carries the
  reported index, the dimension found and the dimension expected.
- Pointers between layers (`prev`, `next`) are positions in the network's
  layer list. A null pointer is `None`. `WireLayers` appears twice, as
  `Layer.WireLayers` on the full layer and `Network.WireLayers` on the
  abstract layer the network keeps (see below); both set the two links and
  nothing else.
- The Gaussian draws of `InitializeGaussian` are parameters (`Layer.Draws`).
  The contents of the input buffer before the first copy are also a
  parameter, because the layer's own `AllocateMemory` does not zero memory.
- `IMAGE_X` and `IMAGE_Y` are MNIST's 28 × 28. `N_CLASSES` is a parameter.
  `src/mnist/mnist.h` is not part of this model.
- `src/nn/nn.h` calls a seven-argument `NNLayer` constructor and the methods
  `Dimension`, `Output`, `IncStep` and `BackPropagate`. The `NNLayer` in
  src/nn/nn_layer.h provides none of these, and its `ForwardPropagate` takes
  `uchar **` where src/nn/nn.h passes a `double *`. `Network` therefore keeps its layers abstract: each layer records the
  arguments it is constructed with, its links and a step counter. The sixth
  constructor argument (0) is taken to be that step counter, which `IncStep`
  advances.
- `NNParams` (`src/nn/nn_params.h`) is not part of this model. The network
  constructor is modelled as validating its parameters like `ParamsNN`. As
  the code is written, it passes the batch size as the expected input
  dimension. `test_nn` matches this: its first layer is (128, 784) with a
  batch size of 128.
- Forward and backward propagation are external. A training pass is
  described by the trace of calls it makes (`Network.Event`). The network's
  output row for each example and each example's loss are inputs.
- The output layer is meant to carry no trainable weights. The code
  constructs it with `n_cols = -1`. See Findings.

## Model

| member | source | states |
|---|---|---|
| Params.AddLayer | src/nn.h:16-18 | exactly one (in, out) pair is appended at the end; the earlier pairs are unchanged |
| Params.ValidateAcceptsExactlyWellFormed | src/nn.h:20-39 | validation passes if and only if: the first input matches, the last output matches, there are at least two layers, and every layer's input equals the previous layer's output |
| Params.ValidateReportsFirstFailure | src/nn.h:20-54 | the checks run in a fixed order (input, output, count, chain). Each reported error implies that every earlier check passed. It names the first offending index, the dimension found and the dimension expected |
| Params.CheckChainCorrect | src/nn.h:32-38 | the chaining loop passes exactly when all later layers are chained. A failure names the first broken link, and every link before it is intact |
| Params.SingleLayerRejected | src/nn.h:27-30 | a one-layer network is rejected with the layer-count error even when both of its dimensions match |
| Params.ValidateLoop | src/nn.h:20-39 | the loop that carries the previous output dimension forward reports the same outcome as the check order. It passes exactly on well-formed networks |
| Params.ExampleNetworkValidates | src/nn.h:58-66 | the example network 128→300→400→10 validates against (128, 10) |
| Kernels.Memset | src/util/util.h:16-16 | `memset` clears exactly the `len` entries from `from` on and leaves every other entry as it was |
| Kernels.AllocateMemory | src/util/util.h:10-17 | whatever the fresh block held, the buffer has exactly `sz` entries, all zero after the `memset` |
| Kernels.StridedWrite | src/util/util.h:22-26 | the row-major double loop writes `value(row, col)` at `row*ld+col` for every window entry. Each such index is inside the buffer. All other positions are unchanged |
| Kernels.MatrixAdd | src/util/util.h:19-27 | `C[row*ldc+col] == A[row*lda+col]*alpha + B[row*ldb+col]*beta` over the window, with every index in bounds. The padding columns of C are untouched |
| Kernels.ReluActivation | src/util/util.h:46-54 | each written output is max(0, input): never negative, at least the input, and either the input or 0. Padding is untouched |
| Kernels.ReluActivationGradient | src/util/util.h:56-64 | each written output is 0 exactly when the input is negative and 1 otherwise, so an input of 0 gives 1 |
| Kernels.ReluIdempotent | src/util/util.h:46-54 | applying ReLU in place to its own output leaves the buffer unchanged |
| Kernels.FirstMax | src/util/util.h:87-97 | reference definition of the first position of the maximum |
| Kernels.FirstMaxUnique | src/util/util.h:87-97 | a buffer has only one first-maximum position |
| Kernels.Argmax | src/util/util.h:87-97 | for non-empty input the result is an index in range whose value is at least every element. Every earlier element is strictly smaller, so the first maximum wins |
| Layer.InitializeGaussian | src/nn/nn_layer.h:90-97 | the buffer has `n_rows*n_cols` entries. Every row's bias entry `i*n_cols+n_cols-1` is in bounds and equals 1. Every other entry keeps its Gaussian draw. With no columns the bias pass is skipped |
| Layer.NewLayer | src/nn/nn_layer.h:19-42 | the stored `n_cols` is the argument plus one. S, weights, Z and F each hold `n_rows*n_cols` entries with the bias column at 1. An image buffer of `IMAGE_X*IMAGE_Y*batchsize` entries exists exactly for the input layer. Links are null |
| Layer.AssertBiasColumnIsOne | src/nn/nn_layer.h:107-111 | the check succeeds exactly when every row's bias entry is 1; a layer with no columns has no bias column and reads nothing |
| Layer.WireLayers | src/nn/nn_layer.h:44-47 | sets `prev` and `next`, changes nothing else, and keeps the layout invariant |
| Layer.InputCopyStridedToInput | src/nn/nn_layer.h:99-105 | `input[i*IMAGE_X*IMAGE_Y + j] == images[i][j]` for every image and pixel of the batch. The whole image buffer is overwritten. The rest of the layer is unchanged |
| Layer.BiasLoopAsWritten | src/nn/nn_layer.h:94-96 | the bias loop as written, without a guard for zero columns: it either keeps the buffer's length or stops at a write outside the buffer and reports that position |
| Layer.BiasLoopWithColumns | src/nn/nn_layer.h:94-96 | with at least one column the loop as written never leaves the buffer, sets every row's bias entry to 1 and keeps every other entry, so it does what `InitializeGaussian` promises |
| Layer.OutputLayerBiasWriteOutOfRange | src/nn/nn_layer.h:20-20 | with `n_cols = -1` the widened width is 0, the buffer is empty, and the bias loop's first write goes to position -1 |
| Batching.BatchesFrom | src/nn/nn.h:47-48 | the loop makes no iteration exactly when it starts at or past `n_examples`; otherwise its first batch starts where it starts |
| Batching.BatchesTile | src/nn/nn.h:47-48 | the loop visits batches of 1 to `batchsize` examples inside the range. All batches but the last are full. Consecutive batches are adjacent, and the last ends at `n_examples` |
| Batching.OffsetsAreMultiples | src/nn/nn.h:47-47 | batch `k` starts at offset `k*batchsize` |
| Batching.BatchCountIsCeiling | src/nn/nn.h:47-48 | the number of batches is ceil(n_examples / batchsize) |
| Batching.EachExampleInExactlyOneBatch | src/nn/nn.h:105-106 | every example lies in exactly one batch, namely batch `e / batchsize` |
| Batching.PadBatch | src/nn/nn.h:109-112 | the intended padding of a batch of `count` rows: the batch's own rows are kept and every row after them is zero |
| Batching.LabelPaddingAsWrittenClearsRealRows | src/nn/nn.h:111-111 | as written, for a last batch of 96 of 128 with 10 classes, the label rows of examples 4 and 5 are cleared and the first padding row is left as it was |
| Batching.DataPaddingAsWrittenClearsRealRows | src/nn/nn.h:110-110 | as written, for the same batch, pixels 32 onward of image 0 are cleared and every padding row keeps its old contents |
| Batching.CountsAddUp | src/nn/nn.h:78-79 | the batch sizes add up to the number of examples |
| Network.NewNN | src/nn/nn.h:14-35 | construction succeeds exactly on well-formed parameters; otherwise it reports the validator's error. It builds one layer per entry. Layer 0 is the input, the last layer is the output with next dimension -1, and middle layers are neither. The chain is wired front to back |
| Network.BuildLayers | src/nn/nn.h:18-29 | one layer per parameter entry, each built from its entry's and the next entry's output dimension; layer 0 is the input, the last layer is the output with next dimension -1 |
| Network.WireLayers | src/nn/nn_layer.h:44-47 | on a network layer: sets `prev` and `next` and leaves every other field as it was |
| Network.WireChain | src/nn/nn.h:30-34 | after the wiring loop the layers form one chain front to back, and nothing but the links changed |
| Network.WalkVisitsInOrder | src/nn/nn.h:30-34 | following `next` k times from layer i reaches layer i+k |
| Network.WalkEndsAfterLast | src/nn/nn.h:30-34 | following `next` from any layer leaves the chain after the last layer, so the chain has no cycle |
| Network.WiredLinksAreInverse | src/nn/nn.h:30-34 | `layers[i].next` is layer j exactly when `layers[j].prev` is layer i, and then j = i + 1 |
| Network.Train | src/nn/nn.h:37-66 | one forward and one backward propagation per batch, in batch order, then `IncStep` on every layer. Each layer's step grows by one; its construction arguments, flags and links are unchanged. What propagation does to layer state is external |
| Network.IncStepOncePerLayerAfterBatches | src/nn/nn.h:47-62 | in a training pass, each layer's `IncStep` happens exactly once and after every propagation call |
| Network.TracePosition | src/nn/nn.h:47-62 | a position of the training trace holds a propagation call exactly when it precedes all `IncStep` calls, which come in layer order |
| Network.ComputeBatchLoss | src/nn/nn.h:140-152 | callable only on a batch of at most `batchsize` examples (the assert at line 141). The loop's total equals the sum of the batch's example losses, which is exactly what the batch adds to the running total of the examples before it |
| Network.ComputeLoss | src/nn/nn.h:68-93 | the batch losses add up to the sum of every example's loss, each example counted once. Every batch meets `ComputeBatchLoss`'s assertion `n_examples <= batchsize` |
| Network.CountWrong | src/nn/nn.h:117-121 | the mismatch count over the first n examples is at most n |
| Network.CountBatch | src/nn/nn.h:117-122 | the per-batch loop advances `n_seen` by the batch size and counts exactly the examples whose predicted first maximum differs from the first maximum of their label row |
| Network.ComputeErrorRate | src/nn/nn.h:95-127 | `n_seen` ends at `n_examples` and `0 <= n_wrong <= n_seen`. The rate is `n_wrong / n_seen`, in [0, 1]. With no examples the division is 0/0, shown as `None` |

## Left out

- The distributed trainer (`src/distributed/`, `src/distributed_nn.cpp`): MPI transport, threads and thread-safe pools. The master's `Train` runs one broadcast and stops. The evaluator spins before doing anything. The worker's `Train` is empty.
- `Softmax`, `LogDot` and the loss values: `exp`/`log` over doubles. Each example's loss is an input to `Network.ComputeLoss`.
- `MatrixMultiply`: a wrapper around `cblas_dgemm`, which is not part of this model.
- `PrintMatrix` and all console and file output.
- Gaussian sampling: the draws are parameters.
- MNIST reading, `MNISTShuffleDataAndLabels`, `MNISTImageToInput` and `MNISTOneHotLabelsToInput`: `src/mnist/mnist.h` is not part of this model. The shuffle at the start of `Train` is therefore not modelled.
- `malloc` failure, which terminates the process.
- The zero padding of a short last batch (`memset` in `Train`, `ComputeLoss` and `ComputeErrorRate`) starts at entry `batchsize - n_to_copy`, which lies inside the batch's own first rows: it clears real pixels and real label entries and leaves the padding rows as they were (see Findings). The intended padding is `Batching.PadBatch`.
- Network.ComputeErrorRate: `predictions` and `labels` stand for the per-example rows as the loop reads them with the intended padding, not with the entries the as-written `memset` clears. `Network.ComputeLoss`'s `exampleLoss` likewise.
- `NNLayer`'s destructor frees `input` even when it was never allocated.
- `NNLayer::ForwardPropagate` does nothing besides the image copy and the call on the next layer.
- Kernels.MatrixAdd: requires every leading dimension to be at least `n_cols` when the window is non-empty. Overlapping rows are not modelled. The same requirement applies to `ReluActivation`, `ReluActivationGradient` and `StridedWrite`.
- Kernels.MatrixAdd: the contract gives the exact real value `A*alpha + B*beta`, not the double the source computes by rounding both products and the sum. `Kernels.ReluActivation` and `Kernels.ReluActivationGradient` do not round, so they are exact.
- Network.ComputeErrorRate: the rate is the exact quotient `n_wrong / n_seen`, not the rounded double.
- Network.ComputeLoss: the total is the exact sum of the example losses; the order-dependent rounding of the running sum is not modelled.
- Kernel buffers are values, so aliasing cannot be expressed. The kernels are modelled for output buffers disjoint from their inputs, or for the in-place case with equal leading dimensions. When `MatrixAdd`'s C overlaps A or B with a different leading dimension, the source's later reads see its earlier writes; that case is not modelled.
- Integers are unbounded. Overflow of 32-bit `int` in `index += batchsize` (src/nn/nn.h:47), `row*ldc+col` (src/util/util.h:24) and `n_rows * n_cols` (src/nn/nn_layer.h:34) is not modelled; all sizes and positions are taken to fit in 32 bits.
- Kernels.Argmax: requires a non-empty input. For empty input the source returns the result of converting minus infinity to `int`, which is undefined.
- Layer.NewLayer: requires `n_rows >= 0` and `n_cols >= -1`. Negative sizes are not modelled: for some of them (`n_rows = -2`, `n_cols = -4`) the product of the sizes is positive and the constructor completes without bias writes, and with `n_rows < 0` and `n_cols = -1` it calls `malloc(0)`. The batch size is constrained only for the input layer, the one layer whose allocation depends on it.
- Network.Train: requires `batchsize > 0`. With `batchsize == 0` the batch loop never ends once there are examples; a negative batch size makes the placeholder `malloc` (src/nn/nn.h:41-42) fail, and the process exits. `ComputeLoss` and `ComputeErrorRate` have the same requirement.
- Network.NewNN: requires a non-empty parameter list, because the validator reads the first layer before it counts the layers.
- Params.ValidateLoop: requires a non-empty list for the same reason.

## Findings

| source | as written | input that shows it | evidently intended | confidence | as-written member | corrected member |
|---|---|---|---|---|---|---|
| src/nn/nn_layer.h:94-96 | the bias loop writes `ptr[i*n_cols + n_cols - 1]` for every row, whatever the width. `AssertBiasColumnIsOne` (lines 107-111) reads the same positions | The network constructs its output layer with `n_cols = -1` (src/nn/nn.h:26-29). Widening makes that 0, so the buffers have `n_rows*0 = 0` entries. With `n_rows = 10`, every bias write goes to `ptr[-1]`. This assumes the seven-argument constructor widens `n_cols` like the five-argument one shown | a layer with no columns has no bias column and gets no bias writes | medium, not executed | Layer.BiasLoopAsWritten, Layer.OutputLayerBiasWriteOutOfRange | Layer.InitializeGaussian, Layer.AssertBiasColumnIsOne, Layer.BiasLoopWithColumns |
| src/nn/nn.h:110-111 (also 52-53 and 83-84) | `memset(&placeholder[batchsize-n_to_copy], 0, ...)` pads a short batch starting at entry `batchsize - n_to_copy`, an entry index inside the batch's own rows | MNIST's 60000 training examples with a batch size of 128 leave a last batch of 96. The label `memset` clears entries 32..63, so with 10 classes the label rows of examples 4 and 5 become all zero and rows 3 and 6 lose entries; the first padding row (entries 960..969) is untouched. The data `memset` clears pixels 32 onward of image 0 through part of image 32 | clear rows `n_to_copy .. batchsize-1`: start at entry `n_to_copy * width` and clear `(batchsize - n_to_copy) * width` entries | high, not executed | Batching.LabelPaddingAsWrittenClearsRealRows, Batching.DataPaddingAsWrittenClearsRealRows | Batching.PadBatch |
