/** The loop `for (index = 0; index < n_examples; index += batchsize)` with
    `n_to_copy = min(batchsize, n_examples - index)`, which `Train`,
    `ComputeLoss` and `ComputeErrorRate` in src/nn/nn.h each run over the
    examples. */
module Batching {
  import Kernels

  /** One iteration of the loop: examples `offset .. offset + count - 1`. */
  datatype Batch = Batch(offset: int, count: int)

  function Min(a: int, b: int): int
  {
    if a < b then a else b
  }

  /** The batches the loop visits when it starts at `index`. */
  function BatchesFrom(nExamples: int, batchsize: int, index: int): (r: seq<Batch>)
    requires batchsize > 0 && index >= 0
    ensures |r| == 0 <==> index >= nExamples
    ensures |r| > 0 ==> r[0].offset == index
    decreases nExamples - index
  {
    if index >= nExamples then []
    else [Batch(index, Min(batchsize, nExamples - index))] + BatchesFrom(nExamples, batchsize, index + batchsize)
  }

  /** `r` tiles the examples `index .. nExamples - 1`: every batch is
      non-empty, no larger than `batchsize` and inside the range; every batch
      but the last is full and the next one starts where it ends; the last
      one ends at `nExamples`. */
  ghost predicate Tiles(r: seq<Batch>, nExamples: int, batchsize: int, index: int)
  {
    && (forall k :: 0 <= k < |r| ==> 1 <= r[k].count <= batchsize)
    && (forall k :: 0 <= k < |r| ==> index <= r[k].offset && r[k].offset + r[k].count <= nExamples)
    && (forall k :: 0 <= k < |r| - 1 ==> r[k].count == batchsize && r[k + 1].offset == r[k].offset + batchsize)
    && (|r| > 0 ==> r[|r| - 1].offset + r[|r| - 1].count == nExamples)
  }

  lemma {:induction false} BatchesTile(nExamples: int, batchsize: int, index: int)
    requires batchsize > 0 && index >= 0
    ensures Tiles(BatchesFrom(nExamples, batchsize, index), nExamples, batchsize, index)
    decreases nExamples - index
  {
    if index < nExamples {
      var head := Batch(index, Min(batchsize, nExamples - index));
      var rest := BatchesFrom(nExamples, batchsize, index + batchsize);
      var r := [head] + rest;
      assert BatchesFrom(nExamples, batchsize, index) == r;
      BatchesTile(nExamples, batchsize, index + batchsize);
      forall k | 0 <= k < |r|
        ensures 1 <= r[k].count <= batchsize
        ensures index <= r[k].offset && r[k].offset + r[k].count <= nExamples
      {
        if k > 0 {
          assert r[k] == rest[k - 1];
        }
      }
      forall k | 0 <= k < |r| - 1
        ensures r[k].count == batchsize && r[k + 1].offset == r[k].offset + batchsize
      {
        assert r[k + 1] == rest[k];
        if k > 0 {
          assert r[k] == rest[k - 1];
        }
      }
      if |rest| > 0 {
        assert r[|r| - 1] == rest[|rest| - 1];
      }
    }
  }

  /** The batches of one pass over `nExamples` examples. */
  function Batches(nExamples: int, batchsize: int): seq<Batch>
    requires batchsize > 0
  {
    BatchesFrom(nExamples, batchsize, 0)
  }

  /** Example `e` belongs to batch `b`. */
  predicate InBatch(e: int, b: Batch)
  {
    b.offset <= e < b.offset + b.count
  }

  /** Batch `k` starts at `k * batchsize`. */
  lemma {:induction false} OffsetsAreMultiples(nExamples: int, batchsize: int, index: int)
    requires batchsize > 0 && index >= 0
    ensures forall k :: 0 <= k < |BatchesFrom(nExamples, batchsize, index)| ==>
              BatchesFrom(nExamples, batchsize, index)[k].offset == index + k * batchsize
    decreases nExamples - index
  {
    var r := BatchesFrom(nExamples, batchsize, index);
    if index < nExamples {
      OffsetsAreMultiples(nExamples, batchsize, index + batchsize);
      var rest := BatchesFrom(nExamples, batchsize, index + batchsize);
      assert r == [r[0]] + rest;
      forall k | 1 <= k < |r|
        ensures r[k].offset == index + k * batchsize
      {
        assert r[k] == rest[k - 1];
        assert (k - 1) * batchsize + batchsize == k * batchsize;
      }
    }
  }

  /** The number of iterations the loop makes from `index` on. */
  function IterationsFrom(nExamples: int, batchsize: int, index: int): nat
    requires batchsize > 0
    decreases nExamples - index
  {
    if index >= nExamples then 0 else 1 + IterationsFrom(nExamples, batchsize, index + batchsize)
  }

  lemma {:induction false} BatchCountIsIterations(nExamples: int, batchsize: int, index: int)
    requires batchsize > 0 && index >= 0
    ensures |BatchesFrom(nExamples, batchsize, index)| == IterationsFrom(nExamples, batchsize, index)
    decreases nExamples - index
  {
    if index < nExamples {
      BatchCountIsIterations(nExamples, batchsize, index + batchsize);
      assert |BatchesFrom(nExamples, batchsize, index)| == 1 + |BatchesFrom(nExamples, batchsize, index + batchsize)|;
    }
  }

  lemma {:induction false} IterationsAreCeiling(nExamples: int, batchsize: int, index: int)
    requires batchsize > 0 && index < nExamples
    ensures (IterationsFrom(nExamples, batchsize, index) - 1) * batchsize < nExamples - index
    ensures nExamples - index <= IterationsFrom(nExamples, batchsize, index) * batchsize
    decreases nExamples - index
  {
    var m := IterationsFrom(nExamples, batchsize, index + batchsize);
    if index + batchsize < nExamples {
      IterationsAreCeiling(nExamples, batchsize, index + batchsize);
      CeilingStep(nExamples - index, batchsize, m);
    }
  }

  /** The pass makes ceil(nExamples / batchsize) iterations. */
  lemma BatchCountIsCeiling(nExamples: int, batchsize: int, index: int)
    requires batchsize > 0 && 0 <= index < nExamples
    ensures (|BatchesFrom(nExamples, batchsize, index)| - 1) * batchsize < nExamples - index
    ensures nExamples - index <= |BatchesFrom(nExamples, batchsize, index)| * batchsize
  {
    BatchCountIsIterations(nExamples, batchsize, index);
    IterationsAreCeiling(nExamples, batchsize, index);
  }

  lemma CeilingStep(rem: int, batchsize: int, m: int)
    requires (m - 1) * batchsize < rem - batchsize <= m * batchsize
    ensures m * batchsize < rem <= (m + 1) * batchsize
  {
    assert (m - 1) * batchsize == m * batchsize - batchsize;
    assert (m + 1) * batchsize == m * batchsize + batchsize;
  }

  /** Every example of the pass lies in exactly one batch, batch `e / batchsize`. */
  lemma EachExampleInExactlyOneBatch(nExamples: int, batchsize: int, e: int)
    requires batchsize > 0 && 0 <= e < nExamples
    ensures var bs := Batches(nExamples, batchsize);
            && e / batchsize < |bs|
            && forall k :: 0 <= k < |bs| ==> (InBatch(e, bs[k]) <==> k == e / batchsize)
  {
    var bs := Batches(nExamples, batchsize);
    BatchesTile(nExamples, batchsize, 0);
    OffsetsAreMultiples(nExamples, batchsize, 0);
    BatchCountIsCeiling(nExamples, batchsize, 0);
    var q := e / batchsize;
    QuotientBelowCount(e, batchsize, |bs|);
    forall k | 0 <= k < |bs|
      ensures InBatch(e, bs[k]) <==> k == q
    {
      InBatchIffQuotient(e, batchsize, k, bs[k].count);
    }
  }

  lemma QuotientBelowCount(e: int, batchsize: int, n: int)
    requires batchsize > 0 && 0 <= e < n * batchsize
    ensures e / batchsize < n
  {
    var q, m := e / batchsize, e % batchsize;
    assert e == q * batchsize + m;
    if q >= n {
      Kernels.MulMonotone(n, q, batchsize);
    }
  }

  /** Example `e` is in the batch at `k * batchsize` of `count` examples exactly
      when `k` is its quotient, provided the batch is full or reaches past `e`. */
  lemma InBatchIffQuotient(e: int, batchsize: int, k: int, count: int)
    requires batchsize > 0 && 0 <= e && 0 <= k && 1 <= count <= batchsize
    requires count == batchsize || e < k * batchsize + count
    ensures InBatch(e, Batch(k * batchsize, count)) <==> k == e / batchsize
  {
    var q, m := e / batchsize, e % batchsize;
    assert e == q * batchsize + m;
    if InBatch(e, Batch(k * batchsize, count)) {
      Kernels.QuotientUnique(e, batchsize, k, e - k * batchsize, q, m);
    }
  }

  function SumCounts(bs: seq<Batch>): int
  {
    if |bs| == 0 then 0 else bs[0].count + SumCounts(bs[1..])
  }

  /** The batch sizes add up to the number of examples: nothing is dropped or
      visited twice. */
  lemma {:induction false} CountsAddUp(nExamples: int, batchsize: int, index: int)
    requires batchsize > 0 && index >= 0
    ensures SumCounts(BatchesFrom(nExamples, batchsize, index)) == if index < nExamples then nExamples - index else 0
    decreases nExamples - index
  {
    if index < nExamples {
      var rest := BatchesFrom(nExamples, batchsize, index + batchsize);
      var r := [Batch(index, Min(batchsize, nExamples - index))] + rest;
      assert BatchesFrom(nExamples, batchsize, index) == r;
      CountsAddUp(nExamples, batchsize, index + batchsize);
      assert r[1..] == rest;
      if index + batchsize < nExamples {
        assert Min(batchsize, nExamples - index) == batchsize;
      }
    }
  }

  /** The padding of a short batch as the passes write it: for a batch of
      `count < batchsize` examples, `memset` clears `len` entries starting at
      entry `batchsize - count`, with `len` being `n_features * (batchsize - count)` for
      the data and `batchsize - count` for the labels. The start is an entry
      index, not a row index, so the cleared entries lie inside the batch's
      own rows. With the MNIST training set (60000 examples) and a batch size
      of 128 the last batch holds 96 examples; with 10 classes the label rows
      of examples 4 and 5 are cleared and the first padding row is not. */
  lemma LabelPaddingAsWrittenClearsRealRows(labels: Kernels.Buffer, padded: Kernels.Buffer)
    requires |labels| == 128 * 10
    requires Kernels.Zeroed(labels, padded, 128 - 96, 128 - 96)
    ensures forall k :: 4 * 10 <= k < 6 * 10 ==> padded[k] == 0.0
    ensures forall k :: 96 * 10 <= k < 97 * 10 ==> padded[k] == labels[k]
  {
  }

  /** The same for the image data: pixels of image 0 onwards are cleared while
      the padding rows keep whatever the previous batch left there. */
  lemma DataPaddingAsWrittenClearsRealRows(data: Kernels.Buffer, padded: Kernels.Buffer)
    requires |data| == 128 * 784
    requires Kernels.Zeroed(data, padded, 128 - 96, 784 * (128 - 96))
    ensures forall k :: 32 <= k < 784 ==> padded[k] == 0.0
    ensures forall k :: 96 * 784 <= k < 128 * 784 ==> padded[k] == data[k]
  {
  }

  /** The padding the passes evidently intend: the rows `count .. batchsize - 1`
      of `width` entries each are cleared and the batch's own rows are kept. */
  method PadBatch(buf: Kernels.Buffer, batchsize: int, count: int, width: int) returns (out: Kernels.Buffer)
    requires 0 <= count <= batchsize && width >= 0 && |buf| == batchsize * width
    ensures |out| == |buf|
    ensures forall k :: 0 <= k < count * width ==> out[k] == buf[k]
    ensures forall k :: count * width <= k < |buf| ==> out[k] == 0.0
  {
    assert count * width + (batchsize - count) * width == batchsize * width;
    Kernels.MulMonotone(0, batchsize - count, width);
    out := Kernels.Memset(buf, count * width, (batchsize - count) * width);
  }
}
