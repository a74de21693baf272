/** The layer-shape description of a network (`ParamsNN` in src/nn.h):
    a list of (input dimension, output dimension) pairs and the validator
    that accepts only consistently chained networks. */
module Params {
  import opened Wrappers

  /** One layer's (input dimension, output dimension). */
  type Shape = (int, int)

  /** What `Validate` reports before terminating the process. `found` is the
      offending dimension, `expected` the one the check wanted. */
  datatype ParamsError =
    | InputDimensionWrong(index: nat, found: int, expected: int)
    | OutputDimensionWrong(index: nat, found: int, expected: int)
    | TooFewLayers

  /** Appends one layer description at the end of the list. */
  function AddLayer(layers: seq<Shape>, inDim: int, outDim: int): (r: seq<Shape>)
    ensures |r| == |layers| + 1
    ensures r[..|layers|] == layers
    ensures r[|layers|] == (inDim, outDim)
  {
    layers + [(inDim, outDim)]
  }

  /** Every layer from index `from` on takes as input what its predecessor produces. */
  ghost predicate ChainedFrom(layers: seq<Shape>, from: nat)
  {
    forall i :: from <= i < |layers| && 1 <= i ==> layers[i].0 == layers[i - 1].1
  }

  /** The four conditions a network description must meet. */
  ghost predicate WellFormed(layers: seq<Shape>, inSize: int, outSize: int)
  {
    && |layers| > 1
    && layers[0].0 == inSize
    && layers[|layers| - 1].1 == outSize
    && ChainedFrom(layers, 1)
  }

  /** The chaining loop of `Validate`, from index `i` on: the first layer whose
      input differs from its predecessor's output is reported. */
  function CheckChain(layers: seq<Shape>, i: nat): Outcome<ParamsError>
    requires 1 <= i
    decreases |layers| - i
  {
    if i >= |layers| then Pass
    else if layers[i].0 != layers[i - 1].1 then Fail(InputDimensionWrong(i, layers[i].0, layers[i - 1].1))
    else CheckChain(layers, i + 1)
  }

  /** `Validate`: input dimension, then output dimension, then layer count,
      then chaining left to right; the first failing check decides the error.
      The source reads `layers[0]` before checking the count, so an empty
      list is excluded by the precondition. */
  function Validate(layers: seq<Shape>, inSize: int, outSize: int): Outcome<ParamsError>
    requires |layers| > 0
  {
    if layers[0].0 != inSize then Fail(InputDimensionWrong(0, layers[0].0, inSize))
    else if layers[|layers| - 1].1 != outSize then
      Fail(OutputDimensionWrong(|layers| - 1, layers[|layers| - 1].1, outSize))
    else if |layers| <= 1 then Fail(TooFewLayers)
    else CheckChain(layers, 1)
  }

  /** The chaining loop passes exactly when the layers are chained from `i` on,
      and a failure names the first broken link, all earlier links being intact. */
  lemma {:induction false} CheckChainCorrect(layers: seq<Shape>, i: nat)
    requires 1 <= i
    ensures CheckChain(layers, i) == Pass <==> ChainedFrom(layers, i)
    ensures CheckChain(layers, i).Fail? ==>
      var e := CheckChain(layers, i).error;
      && e.InputDimensionWrong?
      && i <= e.index < |layers|
      && e.found == layers[e.index].0
      && e.expected == layers[e.index - 1].1
      && e.found != e.expected
      && forall j :: i <= j < e.index ==> layers[j].0 == layers[j - 1].1
    decreases |layers| - i
  {
    if i < |layers| && layers[i].0 == layers[i - 1].1 {
      CheckChainCorrect(layers, i + 1);
    }
  }

  /** `Validate` accepts exactly the well-formed networks. */
  lemma ValidateAcceptsExactlyWellFormed(layers: seq<Shape>, inSize: int, outSize: int)
    requires |layers| > 0
    ensures Validate(layers, inSize, outSize) == Pass <==> WellFormed(layers, inSize, outSize)
  {
    CheckChainCorrect(layers, 1);
  }

  /** The order of the checks: each reported error implies that every check
      before it passed, and pins down the index and the expected value. */
  lemma ValidateReportsFirstFailure(layers: seq<Shape>, inSize: int, outSize: int)
    requires |layers| > 0
    ensures (Validate(layers, inSize, outSize) == Fail(InputDimensionWrong(0, layers[0].0, inSize)))
      <==> (layers[0].0 != inSize)
    ensures (Validate(layers, inSize, outSize) ==
             Fail(OutputDimensionWrong(|layers| - 1, layers[|layers| - 1].1, outSize)))
      <==> (layers[0].0 == inSize && layers[|layers| - 1].1 != outSize)
    ensures (Validate(layers, inSize, outSize) == Fail(TooFewLayers))
      <==> (layers[0].0 == inSize && layers[|layers| - 1].1 == outSize && |layers| == 1)
    ensures Validate(layers, inSize, outSize).Fail? ==>
      var e := Validate(layers, inSize, outSize).error;
      e.InputDimensionWrong? && e.index > 0 ==>
        && layers[0].0 == inSize
        && layers[|layers| - 1].1 == outSize
        && |layers| > 1
        && e.index < |layers|
        && e.found == layers[e.index].0 != e.expected == layers[e.index - 1].1
        && forall j :: 1 <= j < e.index ==> layers[j].0 == layers[j - 1].1
  {
    CheckChainCorrect(layers, 1);
  }

  /** A one-layer network is rejected even when both of its dimensions match. */
  lemma SingleLayerRejected(inSize: int, outSize: int)
    ensures Validate([(inSize, outSize)], inSize, outSize) == Fail(TooFewLayers)
  {
  }

  /** The loop of `Validate` as the source writes it, carrying the previous
      layer's output dimension forward. */
  method ValidateLoop(layers: seq<Shape>, inSize: int, outSize: int) returns (r: Outcome<ParamsError>)
    requires |layers| > 0
    ensures r == Pass <==> WellFormed(layers, inSize, outSize)
    ensures r == Validate(layers, inSize, outSize)
  {
    ValidateAcceptsExactlyWellFormed(layers, inSize, outSize);
    if layers[0].0 != inSize {
      return Fail(InputDimensionWrong(0, layers[0].0, inSize));
    }
    if layers[|layers| - 1].1 != outSize {
      return Fail(OutputDimensionWrong(|layers| - 1, layers[|layers| - 1].1, outSize));
    }
    if |layers| <= 1 {
      return Fail(TooFewLayers);
    }
    var previous := layers[0].1;
    var i := 1;
    while i < |layers|
      invariant 1 <= i <= |layers|
      invariant previous == layers[i - 1].1
      invariant CheckChain(layers, 1) == CheckChain(layers, i)
    {
      if layers[i].0 != previous {
        return Fail(InputDimensionWrong(i, layers[i].0, previous));
      }
      previous := layers[i].1;
      i := i + 1;
    }
    return Pass;
  }

  /** The example network of `nn_test`: 128 → 300 → 400 → 10. */
  lemma ExampleNetworkValidates()
    ensures
      var layers := AddLayer(AddLayer(AddLayer([], 128, 300), 300, 400), 400, 10);
      layers == [(128, 300), (300, 400), (400, 10)] && Validate(layers, 128, 10) == Pass
  {
    var layers := AddLayer(AddLayer(AddLayer([], 128, 300), 300, 400), 400, 10);
    assert layers == [(128, 300), (300, 400), (400, 10)];
    assert CheckChain(layers, 3) == Pass;
  }
}
