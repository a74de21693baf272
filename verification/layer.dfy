/** The storage layout of one layer (`NNLayer` in src/nn/nn_layer.h): four
    `n_rows` × `n_cols` buffers whose last column is the bias column, held at
    1, plus, for the input layer, a flat buffer of a batch of images. The
    `prev`/`next` pointers are positions in the network's layer list. */
module Layer {
  import opened Wrappers
  import opened Kernels

  /** MNIST images are 28 × 28 pixels (`IMAGE_X`, `IMAGE_Y`). */
  const ImageX: nat := 28
  const ImageY: nat := 28
  const ImagePixels: nat := ImageX * ImageY

  /** An `unsigned char` pixel. */
  type Pixel = x: int | 0 <= x < 256

  /** The values the normal distribution yields, in the order the constructor
      draws them, for each of the four buffers. */
  datatype Draws = Draws(s: Buffer, weights: Buffer, z: Buffer, f: Buffer)

  datatype NNLayer = NNLayer(
    batchsize: int,
    nRows: int,
    nCols: int,  // includes the bias column
    isInput: bool,
    isOutput: bool,
    weights: Buffer,
    S: Buffer,
    Z: Buffer,
    F: Buffer,
    input: Option<Buffer>,  // allocated only for the input layer
    prev: Option<nat>,
    next: Option<nat>)

  /** The stored column count: one more than requested, for the bias. */
  function WidenCols(nColsArg: int): int
  {
    nColsArg + 1
  }

  /** Position of row `i`'s bias entry, `i*n_cols + n_cols - 1`. */
  function BiasIndex(i: int, nCols: int): int
  {
    Idx(i, nCols - 1, nCols)
  }

  /** Every row's bias entry is in the buffer and equals 1. A buffer with no
      columns has no bias column. */
  ghost predicate BiasColumnIsOne(ptr: Buffer, nRows: int, nCols: int)
  {
    nCols > 0 ==>
      forall i :: 0 <= i < nRows ==> 0 <= BiasIndex(i, nCols) < |ptr| && ptr[BiasIndex(i, nCols)] == 1.0
  }

  /** A buffer of the layer's shape whose bias column is one. */
  ghost predicate ValidBuffer(ptr: Buffer, nRows: int, nCols: int)
  {
    |ptr| == nRows * nCols && BiasColumnIsOne(ptr, nRows, nCols)
  }

  /** The layout invariant the constructor establishes. */
  ghost predicate Valid(l: NNLayer)
  {
    && l.nRows >= 0 && l.nCols >= 0
    && ValidBuffer(l.S, l.nRows, l.nCols)
    && ValidBuffer(l.weights, l.nRows, l.nCols)
    && ValidBuffer(l.Z, l.nRows, l.nCols)
    && ValidBuffer(l.F, l.nRows, l.nCols)
    && (l.isInput <==> l.input.Some?)
    && (l.input.Some? ==> |l.input.value| == ImagePixels * l.batchsize)
  }

  lemma BiasIndexInBuffer(i: int, nRows: int, nCols: int)
    requires 0 <= i < nRows && 0 < nCols
    ensures 0 <= BiasIndex(i, nCols) < nRows * nCols
    ensures BiasIndex(i, nCols) / nCols == i && BiasIndex(i, nCols) % nCols == nCols - 1
  {
    assert (nRows - 1) * nCols + nCols == nRows * nCols;
    IdxInBounds(i, nCols - 1, nRows, nCols, nCols, nRows * nCols);
    IdxDecomposes(i, nCols - 1, nCols);
  }

  /** `InitializeGaussian`: every entry takes the next draw, then every row's
      bias entry is set to 1; entries off the bias column keep their draw. The
      bias pass is skipped when there are no columns; with at least one
      column it does what the loop as written does (`BiasLoopWithColumns`). */
  method InitializeGaussian(draws: Buffer, nRows: int, nCols: int) returns (ptr: Buffer)
    requires nRows >= 0 && nCols >= 0 && |draws| == nRows * nCols
    ensures ValidBuffer(ptr, nRows, nCols)
    ensures forall k :: 0 <= k < |ptr| && k % nCols != nCols - 1 ==> ptr[k] == draws[k]
  {
    ptr := draws;
    if nCols > 0 {
      var i := 0;
      while i < nRows
        invariant 0 <= i <= nRows
        invariant |ptr| == nRows * nCols
        invariant forall r :: 0 <= r < i ==> 0 <= BiasIndex(r, nCols) < |ptr| && ptr[BiasIndex(r, nCols)] == 1.0
        invariant forall k :: 0 <= k < |ptr| && !(k % nCols == nCols - 1 && k / nCols < i) ==> ptr[k] == draws[k]
      {
        BiasIndexInBuffer(i, nRows, nCols);
        forall r | 0 <= r < i
          ensures BiasIndex(r, nCols) != BiasIndex(i, nCols)
        {
          BiasIndexInBuffer(r, nRows, nCols);
        }
        ptr := ptr[BiasIndex(i, nCols) := 1.0];
        i := i + 1;
      }
    }
  }

  /** The constructor: widens `n_cols` by the bias column, allocates the four
      `n_rows * n_cols` buffers (and the image buffer of the input layer) and
      fills them through `InitializeGaussian`. The layer's own `AllocateMemory`
      does not zero memory, so the image buffer starts as `uninitialised`. */
  method NewLayer(batchsize: int, nRows: int, nColsArg: int, isInput: bool, isOutput: bool,
                  draws: Draws, uninitialised: Buffer) returns (l: NNLayer)
    requires nRows >= 0 && nColsArg >= -1
    requires |draws.s| == |draws.weights| == |draws.z| == |draws.f| == nRows * WidenCols(nColsArg)
    requires isInput ==> |uninitialised| == ImagePixels * batchsize
    ensures Valid(l)
    ensures l.nCols == nColsArg + 1 && l.nRows == nRows && l.batchsize == batchsize
    ensures l.isInput == isInput && l.isOutput == isOutput
    ensures |l.S| == |l.weights| == |l.Z| == |l.F| == nRows * l.nCols
    ensures l.prev.None? && l.next.None?
    ensures forall k :: 0 <= k < nRows * l.nCols && k % l.nCols != l.nCols - 1 ==>
              l.S[k] == draws.s[k] && l.weights[k] == draws.weights[k] && l.Z[k] == draws.z[k] && l.F[k] == draws.f[k]
  {
    var nCols := WidenCols(nColsArg);
    var input := if isInput then Some(uninitialised) else None;
    var s := InitializeGaussian(draws.s, nRows, nCols);
    var weights := InitializeGaussian(draws.weights, nRows, nCols);
    var z := InitializeGaussian(draws.z, nRows, nCols);
    var f := InitializeGaussian(draws.f, nRows, nCols);
    l := NNLayer(batchsize, nRows, nCols, isInput, isOutput, weights, s, z, f, input, None, None);
  }

  /** `AssertBiasColumnIsOne`: checks each row's bias entry in turn. */
  method AssertBiasColumnIsOne(ptr: Buffer, nRows: int, nCols: int) returns (ok: bool)
    requires nRows >= 0 && nCols >= 0 && |ptr| == nRows * nCols
    ensures ok <==> BiasColumnIsOne(ptr, nRows, nCols)
  {
    if nCols == 0 {
      return true;
    }
    var i := 0;
    while i < nRows
      invariant 0 <= i <= nRows
      invariant forall r :: 0 <= r < i ==> 0 <= BiasIndex(r, nCols) < |ptr| && ptr[BiasIndex(r, nCols)] == 1.0
    {
      BiasIndexInBuffer(i, nRows, nCols);
      if ptr[BiasIndex(i, nCols)] != 1.0 {
        return false;
      }
      i := i + 1;
    }
    return true;
  }

  /** `WireLayers`: sets `next` and `prev` and nothing else. */
  function WireLayers(l: NNLayer, prev: Option<nat>, next: Option<nat>): (r: NNLayer)
    ensures r.prev == prev && r.next == next
    ensures r.(prev := l.prev, next := l.next) == l
    ensures Valid(l) ==> Valid(r)
  {
    l.(prev := prev, next := next)
  }

  /** `InputCopyStridedToInput`: image `i` of the batch lands at
      `input[i*IMAGE_X*IMAGE_Y ..]`, pixel by pixel, and the whole image
      buffer is overwritten. */
  method InputCopyStridedToInput(l: NNLayer, images: seq<seq<Pixel>>) returns (l': NNLayer)
    requires Valid(l) && l.isInput
    requires |images| >= l.batchsize
    requires forall i :: 0 <= i < l.batchsize ==> |images[i]| >= ImagePixels
    ensures Valid(l') && l'.input.Some?
    ensures l'.(input := l.input) == l
    ensures |l'.input.value| == ImagePixels * l.batchsize
    ensures forall i, j :: 0 <= i < l.batchsize && 0 <= j < ImagePixels ==>
              l'.input.value[Idx(i, j, ImagePixels)] == images[i][j] as real
    ensures forall k :: 0 <= k < |l'.input.value| ==>
              l'.input.value[k] == images[k / ImagePixels][k % ImagePixels] as real
  {
    var b := l.batchsize;
    assert (b - 1) * ImagePixels + ImagePixels == ImagePixels * b;
    var input := StridedWrite(l.input.value, b, ImagePixels, ImagePixels,
      (r, c) => if 0 <= r < |images| && 0 <= c < |images[r]| then images[r][c] as real else 0.0);
    l' := l.(input := Some(input));
    forall k | 0 <= k < |input|
      ensures input[k] == images[k / ImagePixels][k % ImagePixels] as real
    {
      assert k / ImagePixels < b;
      WindowIsIdx(k, b, ImagePixels, ImagePixels);
    }
  }

  /** The bias loop of `InitializeGaussian` as written, from row `i` on: it
      writes 1 at `i*n_cols + n_cols - 1` for every row, with no guard for a
      layer that has no columns. A write outside the buffer stops the loop and
      is reported with its position. */
  function BiasLoopAsWritten(ptr: Buffer, nRows: int, nCols: int, i: int): (r: Result<Buffer, int>)
    requires 0 <= i
    ensures r.Success? ==> |r.value| == |ptr|
    ensures r.Failure? ==> r.error < 0 || r.error >= |ptr|
    decreases nRows - i
  {
    if i >= nRows then Success(ptr)
    else
      var k := BiasIndex(i, nCols);
      if 0 <= k < |ptr| then BiasLoopAsWritten(ptr[k := 1.0], nRows, nCols, i + 1)
      else Failure(k)
  }

  /** With at least one column the loop as written stays inside the buffer:
      from row `i` on it sets every later row's bias entry to 1 and keeps
      every other entry, which is what `InitializeGaussian` promises. */
  lemma {:induction false} BiasLoopWithColumns(ptr: Buffer, nRows: int, nCols: int, i: int)
    requires 0 < nCols && 0 <= i <= nRows && |ptr| == nRows * nCols
    ensures BiasLoopAsWritten(ptr, nRows, nCols, i).Success?
    ensures forall k :: 0 <= k < |ptr| ==>
              BiasLoopAsWritten(ptr, nRows, nCols, i).value[k]
              == (if k % nCols == nCols - 1 && i <= k / nCols then 1.0 else ptr[k])
    decreases nRows - i
  {
    if i < nRows {
      var k0 := BiasIndex(i, nCols);
      BiasIndexInBuffer(i, nRows, nCols);
      var next := ptr[k0 := 1.0];
      BiasLoopWithColumns(next, nRows, nCols, i + 1);
      assert BiasLoopAsWritten(ptr, nRows, nCols, i) == BiasLoopAsWritten(next, nRows, nCols, i + 1);
      forall k | 0 <= k < |ptr| && k != k0
        ensures !(k % nCols == nCols - 1 && k / nCols == i)
      {
        if k % nCols == nCols - 1 && k / nCols == i {
          QuotientUnique(k, nCols, k / nCols, k % nCols, i, nCols - 1);
        }
      }
    }
  }

  /** As written, a layer constructed with `n_cols = -1` (what the network
      passes for its output layer) has zero columns after widening and empty
      buffers, and the bias loop's first write goes to position -1, before the
      buffer. */
  lemma OutputLayerBiasWriteOutOfRange(draws: Buffer, nRows: int)
    requires nRows > 0 && |draws| == nRows * WidenCols(-1)
    ensures |draws| == 0
    ensures BiasLoopAsWritten(draws, nRows, WidenCols(-1), 0) == Failure(-1)
  {
  }
}
