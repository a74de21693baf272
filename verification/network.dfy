/** Network assembly and the passes over a data set (`NN` in src/nn/nn.h).
    The layers are kept abstract: a layer records the arguments the network
    constructs it with, its links to its neighbours (positions in the layer
    list, standing in for pointers) and its step counter. Forward and
    backward propagation are external; a pass is described by the trace of
    calls it makes, and the network's outputs for each example are inputs. */
module Network {
  import opened Wrappers
  import opened Params
  import opened Kernels
  import opened Batching

  datatype NetLayer = NetLayer(
    batchsize: int,
    dim: int,        // output dimension of this layer's parameter entry
    nextDim: int,    // output dimension of the next entry; -1 for the output layer
    isInput: bool,
    isOutput: bool,
    step: int,       // the sixth constructor argument, advanced by `IncStep`
    learningRate: real,
    prev: Option<nat>,
    next: Option<nat>)

  datatype NN = NN(layers: seq<NetLayer>, batchsize: int, learningRate: real)

  /** Layer `i` is the one the constructor builds from parameter entries `i`
      and `i + 1` (or from the last entry alone, for the output layer). */
  ghost predicate BuiltFrom(params: seq<Shape>, batchsize: int, learningRate: real, ls: seq<NetLayer>)
  {
    && |ls| == |params| > 0
    && (forall i :: 0 <= i < |ls| - 1 ==>
          && ls[i].dim == params[i].1 && ls[i].nextDim == params[i + 1].1
          && ls[i].isInput == (i == 0) && !ls[i].isOutput)
    && ls[|ls| - 1].dim == params[|ls| - 1].1 && ls[|ls| - 1].nextDim == -1
    && !ls[|ls| - 1].isInput && ls[|ls| - 1].isOutput
    && (forall i :: 0 <= i < |ls| ==>
          ls[i].batchsize == batchsize && ls[i].step == 0 && ls[i].learningRate == learningRate)
  }

  /** The layers form one linear chain: the first has no predecessor, the
      last no successor, and each other link points to the adjacent layer. */
  ghost predicate Wired(ls: seq<NetLayer>)
  {
    forall i :: 0 <= i < |ls| ==>
      && ls[i].prev == (if i == 0 then None else Some(i - 1))
      && ls[i].next == (if i == |ls| - 1 then None else Some(i + 1))
  }

  /** The `NN` constructor: validates the parameters against the batch size and
      the number of classes (terminating on failure), builds one layer per
      parameter entry and wires them front to back. */
  method NewNN(params: seq<Shape>, batchsize: int, learningRate: real, nClasses: int)
    returns (r: Result<NN, ParamsError>)
    requires |params| > 0
    ensures r.Success? <==> WellFormed(params, batchsize, nClasses)
    ensures r.Failure? ==> Validate(params, batchsize, nClasses) == Fail(r.error)
    ensures r.Success? ==>
              && r.value.batchsize == batchsize && r.value.learningRate == learningRate
              && BuiltFrom(params, batchsize, learningRate, r.value.layers)
              && Wired(r.value.layers)
  {
    ValidateAcceptsExactlyWellFormed(params, batchsize, nClasses);
    var v := Validate(params, batchsize, nClasses);
    if v.Fail? {
      return Failure(v.error);
    }
    var built := BuildLayers(params, batchsize, learningRate);
    var ls := WireChain(built);
    forall i | 0 <= i < |ls|
      ensures ls[i].dim == built[i].dim && ls[i].nextDim == built[i].nextDim
      ensures ls[i].isInput == built[i].isInput && ls[i].isOutput == built[i].isOutput
      ensures ls[i].batchsize == built[i].batchsize && ls[i].step == built[i].step
      ensures ls[i].learningRate == built[i].learningRate
    {
      assert ls[i].(prev := built[i].prev, next := built[i].next) == built[i];
    }
    return Success(NN(ls, batchsize, learningRate));
  }

  /** The construction loop of the `NN` constructor: one layer per parameter
      entry, not yet linked to its neighbours. */
  method BuildLayers(params: seq<Shape>, batchsize: int, learningRate: real) returns (ls: seq<NetLayer>)
    requires |params| > 0
    ensures BuiltFrom(params, batchsize, learningRate, ls)
  {
    ls := [];
    var i := 0;
    while i < |params| - 1
      invariant 0 <= i <= |params| - 1
      invariant |ls| == i
      invariant forall j :: 0 <= j < i ==>
                  && ls[j].dim == params[j].1 && ls[j].nextDim == params[j + 1].1
                  && ls[j].isInput == (j == 0) && !ls[j].isOutput
      invariant forall j :: 0 <= j < i ==>
                  ls[j].batchsize == batchsize && ls[j].step == 0 && ls[j].learningRate == learningRate
    {
      ls := ls + [NetLayer(batchsize, params[i].1, params[i + 1].1, i == 0, false, 0, learningRate, None, None)];
      i := i + 1;
    }
    ls := ls + [NetLayer(batchsize, params[|params| - 1].1, -1, false, true, 0, learningRate, None, None)];
  }

  /** `WireLayers` on a network layer: sets `prev` and `next` and nothing else. */
  function WireLayers(l: NetLayer, prev: Option<nat>, next: Option<nat>): (r: NetLayer)
    ensures r.prev == prev && r.next == next
    ensures r.(prev := l.prev, next := l.next) == l
  {
    l.(prev := prev, next := next)
  }

  /** The wiring loop of the `NN` constructor: `WireLayers` on every layer
      with its neighbours, which links the layers into one chain and changes
      nothing else about them. */
  method WireChain(ls: seq<NetLayer>) returns (ws: seq<NetLayer>)
    ensures |ws| == |ls| && Wired(ws)
    ensures forall i :: 0 <= i < |ls| ==> ws[i].(prev := ls[i].prev, next := ls[i].next) == ls[i]
  {
    ws := ls;
    var i := 0;
    while i < |ws|
      invariant 0 <= i <= |ws| == |ls|
      invariant forall j :: 0 <= j < |ls| ==> ws[j].(prev := ls[j].prev, next := ls[j].next) == ls[j]
      invariant forall j :: 0 <= j < i ==>
                  && ws[j].prev == (if j == 0 then None else Some(j - 1))
                  && ws[j].next == (if j == |ws| - 1 then None else Some(j + 1))
    {
      var prev := if i == 0 then None else Some(i - 1);
      var next := if i == |ws| - 1 then None else Some(i + 1);
      ws := ws[i := WireLayers(ws[i], prev, next)];
      i := i + 1;
    }
  }

  /** The layer reached from layer `i` by following `next` `k` times. */
  function Walk(ls: seq<NetLayer>, i: nat, k: nat): Option<nat>
    decreases k
  {
    if k == 0 then Some(i)
    else if i >= |ls| then None
    else match ls[i].next
      case None => None
      case Some(j) => Walk(ls, j, k - 1)
  }

  /** Following `next` from layer `i` visits the following layers in order. */
  lemma {:induction false} WalkVisitsInOrder(ls: seq<NetLayer>, i: nat, k: nat)
    requires Wired(ls) && i + k < |ls|
    ensures Walk(ls, i, k) == Some(i + k)
    decreases k
  {
    if k > 0 {
      WalkVisitsInOrder(ls, i + 1, k - 1);
    }
  }

  /** ... and leaves the chain after the last layer, so the chain has no cycle. */
  lemma {:induction false} WalkEndsAfterLast(ls: seq<NetLayer>, i: nat)
    requires Wired(ls) && i < |ls|
    ensures Walk(ls, i, |ls| - i) == None
    decreases |ls| - i
  {
    if i < |ls| - 1 {
      WalkEndsAfterLast(ls, i + 1);
    }
  }

  /** `next` and `prev` are inverse links. */
  lemma WiredLinksAreInverse(ls: seq<NetLayer>)
    requires Wired(ls)
    ensures forall i, j :: 0 <= i < |ls| && 0 <= j < |ls| ==> (ls[i].next == Some(j) <==> ls[j].prev == Some(i))
    ensures forall i, j :: 0 <= i < |ls| && 0 <= j < |ls| && ls[i].next == Some(j) ==> j == i + 1
  {
    forall i, j | 0 <= i < |ls| && 0 <= j < |ls|
      ensures ls[i].next == Some(j) <==> ls[j].prev == Some(i)
      ensures ls[i].next == Some(j) ==> j == i + 1
    {
      assert ls[i].next == (if i == |ls| - 1 then None else Some(i + 1));
      assert ls[j].prev == (if j == 0 then None else Some(j - 1));
    }
  }

  /** One call the training pass makes. */
  datatype Event = Forward(batch: Batch) | Backward(batch: Batch) | IncStep(layer: nat)

  /** The calls of a training pass: forward then backward propagation per
      batch, then `IncStep` on each layer in order. */
  ghost predicate TrainTrace(trace: seq<Event>, bs: seq<Batch>, nLayers: nat)
  {
    && |trace| == 2 * |bs| + nLayers
    && (forall k :: 0 <= k < |bs| ==> trace[2 * k] == Forward(bs[k]) && trace[2 * k + 1] == Backward(bs[k]))
    && (forall l :: 0 <= l < nLayers ==> trace[2 * |bs| + l] == IncStep(l))
  }

  /** `Train`: one forward and one backward propagation per batch, then
      `IncStep` on every layer, which advances its step counter; the layers'
      construction arguments, flags and links are unchanged. What propagation
      does to layer state, and the shuffle of the examples, are external. */
  method Train(nn: NN, nExamples: int) returns (nn': NN, trace: seq<Event>)
    requires nn.batchsize > 0
    ensures TrainTrace(trace, Batches(nExamples, nn.batchsize), |nn.layers|)
    ensures nn'.batchsize == nn.batchsize && nn'.learningRate == nn.learningRate
    ensures |nn'.layers| == |nn.layers|
    ensures forall l :: 0 <= l < |nn.layers| ==>
              nn'.layers[l] == nn.layers[l].(step := nn.layers[l].step + 1)
  {
    var bs := Batches(nExamples, nn.batchsize);
    trace := [];
    var k := 0;
    while k < |bs|
      invariant 0 <= k <= |bs|
      invariant |trace| == 2 * k
      invariant forall j :: 0 <= j < k ==> trace[2 * j] == Forward(bs[j]) && trace[2 * j + 1] == Backward(bs[j])
    {
      trace := trace + [Forward(bs[k]), Backward(bs[k])];
      k := k + 1;
    }
    var ls := nn.layers;
    var l := 0;
    while l < |ls|
      invariant 0 <= l <= |ls| == |nn.layers|
      invariant |trace| == 2 * |bs| + l
      invariant forall j :: 0 <= j < |bs| ==> trace[2 * j] == Forward(bs[j]) && trace[2 * j + 1] == Backward(bs[j])
      invariant forall j :: 0 <= j < l ==> trace[2 * |bs| + j] == IncStep(j)
      invariant forall j :: 0 <= j < |ls| ==>
                  ls[j] == nn.layers[j].(step := nn.layers[j].step + (if j < l then 1 else 0))
    {
      ls := ls[l := ls[l].(step := ls[l].step + 1)];
      trace := trace + [IncStep(l)];
      l := l + 1;
    }
    nn' := nn.(layers := ls);
  }

  /** In a training trace every layer's `IncStep` happens exactly once, after
      every propagation call. */
  lemma IncStepOncePerLayerAfterBatches(trace: seq<Event>, bs: seq<Batch>, nLayers: nat)
    requires TrainTrace(trace, bs, nLayers)
    ensures forall l :: 0 <= l < nLayers ==> IncStep(l) in trace
    ensures forall i, j :: 0 <= i < |trace| && 0 <= j < |trace| && trace[i].IncStep? && trace[j] == trace[i] ==> i == j
    ensures forall i, j :: 0 <= i < |trace| && 0 <= j < |trace| && !trace[i].IncStep? && trace[j].IncStep? ==> i < j
  {
    forall l | 0 <= l < nLayers
      ensures IncStep(l) in trace
    {
      assert trace[2 * |bs| + l] == IncStep(l);
    }
    forall i | 0 <= i < |trace|
      ensures i < 2 * |bs| <==> !trace[i].IncStep?
      ensures i >= 2 * |bs| ==> trace[i] == IncStep(i - 2 * |bs|)
    {
      TracePosition(trace, bs, nLayers, i);
    }
  }

  /** Position `i` of a training trace holds a propagation call exactly when
      it comes before the `IncStep` calls, which follow in layer order. */
  lemma TracePosition(trace: seq<Event>, bs: seq<Batch>, nLayers: nat, i: int)
    requires TrainTrace(trace, bs, nLayers) && 0 <= i < |trace|
    ensures i < 2 * |bs| <==> !trace[i].IncStep?
    ensures i >= 2 * |bs| ==> trace[i] == IncStep(i - 2 * |bs|)
  {
    if i < 2 * |bs| {
      var k := i / 2;
      assert 0 <= k < |bs|;
      assert trace[2 * k] == Forward(bs[k]) && trace[2 * k + 1] == Backward(bs[k]);
      assert i == 2 * k || i == 2 * k + 1;
    } else {
      var l := i - 2 * |bs|;
      assert 0 <= l < nLayers;
      assert trace[2 * |bs| + l] == IncStep(l);
    }
  }

  /** The sum of `s[lo..hi]`. */
  function SumRange(s: seq<real>, lo: int, hi: int): real
    requires 0 <= lo && hi <= |s|
    decreases hi - lo
  {
    if hi <= lo then 0.0 else SumRange(s, lo, hi - 1) + s[hi - 1]
  }

  lemma {:induction false} SumRangeSplit(s: seq<real>, lo: int, mid: int, hi: int)
    requires 0 <= lo <= mid <= hi <= |s|
    ensures SumRange(s, lo, mid) + SumRange(s, mid, hi) == SumRange(s, lo, hi)
    decreases hi - mid
  {
    if mid < hi {
      SumRangeSplit(s, lo, mid, hi - 1);
    }
  }

  /** `ComputeBatchLoss`: the loss of `count` examples starting at `offset`,
      each example's loss (its `LogDot` value) being given. The source asserts
      that the batch holds no more than `batchsize` examples. The loop's total
      is the batch's range sum, which is what the batch adds to the running
      total of the examples before it. */
  method ComputeBatchLoss(exampleLoss: seq<real>, offset: int, count: int, batchsize: int) returns (loss: real)
    requires count <= batchsize
    requires 0 <= offset && 0 <= count && offset + count <= |exampleLoss|
    ensures loss == SumRange(exampleLoss, offset, offset + count)
    ensures SumRange(exampleLoss, 0, offset) + loss == SumRange(exampleLoss, 0, offset + count)
  {
    loss := 0.0;
    var i := 0;
    while i < count
      invariant 0 <= i <= count
      invariant loss == SumRange(exampleLoss, offset, offset + i)
    {
      loss := loss + exampleLoss[offset + i];
      i := i + 1;
    }
    SumRangeSplit(exampleLoss, 0, offset, offset + count);
  }

  /** `ComputeLoss`: the batch losses add up to the loss of every example,
      each counted once; every batch satisfies `ComputeBatchLoss`'s assertion. */
  method ComputeLoss(nn: NN, exampleLoss: seq<real>, nExamples: int) returns (loss: real)
    requires nn.batchsize > 0 && nExamples <= |exampleLoss|
    ensures loss == SumRange(exampleLoss, 0, if nExamples > 0 then nExamples else 0)
  {
    var bs := Batches(nExamples, nn.batchsize);
    BatchesTile(nExamples, nn.batchsize, 0);
    loss := 0.0;
    var k := 0;
    while k < |bs|
      invariant 0 <= k <= |bs|
      invariant var seen := if k < |bs| then bs[k].offset else if nExamples > 0 then nExamples else 0;
                0 <= seen <= |exampleLoss| && loss == SumRange(exampleLoss, 0, seen)
    {
      var b := bs[k];
      var batchLoss := ComputeBatchLoss(exampleLoss, b.offset, b.count, nn.batchsize);
      loss := loss + batchLoss;
      k := k + 1;
    }
  }

  /** The prediction for an example disagrees with its one-hot label. */
  predicate Mismatch(prediction: Buffer, truth: Buffer)
    requires |prediction| > 0 && |truth| > 0
  {
    FirstMax(prediction) != FirstMax(truth)
  }

  /** Rows that `Argmax` can be applied to. */
  predicate NonEmptyRows(rows: seq<Buffer>, n: int)
  {
    n <= |rows| && forall e :: 0 <= e < n ==> |rows[e]| > 0
  }

  /** The number of mismatching examples among the first `n`. */
  function CountWrong(predictions: seq<Buffer>, labels: seq<Buffer>, n: nat): (r: nat)
    requires NonEmptyRows(predictions, n) && NonEmptyRows(labels, n)
    ensures r <= n
  {
    if n == 0 then 0
    else CountWrong(predictions, labels, n - 1) + (if Mismatch(predictions[n - 1], labels[n - 1]) then 1 else 0)
  }

  /** `ComputeErrorRate`: every example is seen once, an example is wrong
      when the first maximum of the network's output differs from the first
      maximum of its label, and the rate is wrong / seen. With no examples the
      source divides 0 by 0; the rate is then `None`. */
  method ComputeErrorRate(nn: NN, predictions: seq<Buffer>, labels: seq<Buffer>, nExamples: int)
    returns (nWrong: nat, nSeen: nat, rate: Option<real>)
    requires nn.batchsize > 0
    requires NonEmptyRows(predictions, nExamples) && NonEmptyRows(labels, nExamples)
    ensures nSeen == if nExamples > 0 then nExamples else 0
    ensures nWrong == CountWrong(predictions, labels, nSeen)
    ensures nWrong <= nSeen
    ensures rate.Some? <==> nExamples > 0
    ensures rate.Some? ==> 0.0 <= rate.value <= 1.0 && rate.value == nWrong as real / nSeen as real
  {
    var bs := Batches(nExamples, nn.batchsize);
    BatchesTile(nExamples, nn.batchsize, 0);
    nWrong, nSeen := 0, 0;
    var k := 0;
    while k < |bs|
      invariant 0 <= k <= |bs|
      invariant nSeen == if k < |bs| then bs[k].offset else if nExamples > 0 then nExamples else 0
      invariant nWrong == CountWrong(predictions, labels, nSeen)
    {
      nWrong, nSeen := CountBatch(predictions, labels, nExamples, bs[k], nWrong, nSeen);
      k := k + 1;
    }
    if nSeen > 0 {
      RatioInUnitInterval(nWrong, nSeen);
      rate := Some(nWrong as real / nSeen as real);
    } else {
      rate := None;
    }
  }

  lemma RatioInUnitInterval(a: nat, b: nat)
    requires 0 < b && a <= b
    ensures 0.0 <= a as real / b as real <= 1.0
  {
    var q := a as real / b as real;
    assert q * b as real == a as real;
  }

  /** The inner loop of `ComputeErrorRate` over the examples of one batch. */
  method CountBatch(predictions: seq<Buffer>, labels: seq<Buffer>, nExamples: int, b: Batch,
                    nWrong0: nat, nSeen0: nat)
    returns (nWrong: nat, nSeen: nat)
    requires NonEmptyRows(predictions, nExamples) && NonEmptyRows(labels, nExamples)
    requires 0 <= b.count && nSeen0 == b.offset && b.offset + b.count <= nExamples
    requires nWrong0 == CountWrong(predictions, labels, nSeen0)
    ensures nSeen == b.offset + b.count
    ensures nWrong == CountWrong(predictions, labels, nSeen)
  {
    nWrong, nSeen := nWrong0, nSeen0;
    var example := 0;
    while example < b.count
      invariant 0 <= example <= b.count
      invariant nSeen == b.offset + example
      invariant nWrong == CountWrong(predictions, labels, nSeen)
    {
      var e := b.offset + example;
      var prediction := Argmax(predictions[e]);
      var truth := Argmax(labels[e]);
      if prediction != truth {
        nWrong := nWrong + 1;
      }
      nSeen := nSeen + 1;
      example := example + 1;
    }
  }
}
