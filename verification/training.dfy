/** train(): maxEpoch passes over the training set, one step per instance,
    in the set's order.

    The functional definitions say what training computes; the methods
    follow the source's loops, updating the weight lists in place, and are
    proved to compute the same network.
 */
module Training {
  import opened Activation
  import opened Network
  import opened Topology
  import opened Propagation
  import opened Backprop

  /** Steps on the instances of `s`, first to last. */
  function Steps(net: Net, g: real -> real, lr: real, s: seq<Instance>): (next: Net)
    requires WellFormed(net) && AllFit(net, s)
    ensures WellFormed(next)
    ensures next.attributeCount == net.attributeCount
    ensures next.hiddenCount == net.hiddenCount
    ensures next.classCount == net.classCount
    decreases |s|
  {
    if |s| == 0 then net
    else
      assert s[|s| - 1] in s;
      var before := Steps(net, g, lr, s[..|s| - 1]);
      Step(before, g, lr, s[|s| - 1])
  }

  /** The instance sequence of `epochs` passes over the training set. */
  function Repeat(trainingSet: seq<Instance>, epochs: int): (s: seq<Instance>)
    decreases epochs
  {
    if epochs <= 0 then [] else Repeat(trainingSet, epochs - 1) + trainingSet
  }

  /** train() reads every instance only when it runs at least one epoch. */
  predicate CanTrain(net: Net, trainingSet: seq<Instance>, epochs: int) {
    WellFormed(net) && (epochs > 0 ==> AllFit(net, trainingSet))
  }

  lemma {:induction false} RepeatMembers(trainingSet: seq<Instance>, epochs: int)
    ensures forall x :: x in Repeat(trainingSet, epochs) ==> x in trainingSet
    decreases epochs
  {
    if epochs > 0 {
      RepeatMembers(trainingSet, epochs - 1);
    }
  }

  /** The network after `epochs` passes over the training set. */
  function TrainEpochs(net: Net, g: real -> real, lr: real, trainingSet: seq<Instance>, epochs: int): (next: Net)
    requires CanTrain(net, trainingSet, epochs)
    ensures WellFormed(next)
  {
    RepeatMembers(trainingSet, epochs);
    Steps(net, g, lr, Repeat(trainingSet, epochs))
  }

  /** What train() leaves in an NNImpl. */
  function Trained(nn: NNImpl, g: real -> real): (next: Net)
    requires CanTrain(nn.net, nn.trainingSet, nn.maxEpoch)
    ensures WellFormed(next)
  {
    TrainEpochs(nn.net, g, nn.learningRate, nn.trainingSet, nn.maxEpoch)
  }

  /** Training applies exactly maxEpoch * |trainingSet| steps, none for a
      non-positive epoch count. */
  lemma {:induction false} RepeatLength(trainingSet: seq<Instance>, epochs: int)
    ensures |Repeat(trainingSet, epochs)| == (if epochs <= 0 then 0 else epochs * |trainingSet|)
    decreases epochs
  {
    if epochs > 0 {
      RepeatLength(trainingSet, epochs - 1);
      assert epochs * |trainingSet| == (epochs - 1) * |trainingSet| + |trainingSet|;
    }
  }

  /** Whether an instance fits depends only on the layer sizes. */
  lemma AllFitSameSizes(n1: Net, n2: Net, s: seq<Instance>)
    requires AllFit(n1, s)
    requires n1.attributeCount == n2.attributeCount && n1.hiddenCount == n2.hiddenCount
    requires n1.classCount == n2.classCount
    ensures AllFit(n2, s)
  {
    forall x | x in s ensures Fits(n2, x) { assert Fits(n1, x); }
  }

  lemma AllFitParts(net: Net, s1: seq<Instance>, s2: seq<Instance>)
    requires AllFit(net, s1 + s2)
    ensures AllFit(net, s1) && AllFit(net, s2)
    ensures |s2| > 0 ==> AllFit(net, s1 + s2[..|s2| - 1])
  {
    forall x | x in s1 ensures Fits(net, x) { assert x in s1 + s2; }
    forall x | x in s2 ensures Fits(net, x) { assert x in s1 + s2; }
    if |s2| > 0 {
      forall x | x in s1 + s2[..|s2| - 1] ensures Fits(net, x) { assert x in s1 + s2; }
    }
  }

  lemma StepsUnfold(net: Net, g: real -> real, lr: real, s: seq<Instance>)
    requires WellFormed(net) && AllFit(net, s) && |s| > 0
    ensures AllFit(net, s[..|s| - 1])
    ensures Fits(Steps(net, g, lr, s[..|s| - 1]), s[|s| - 1])
    ensures Steps(net, g, lr, s) == Step(Steps(net, g, lr, s[..|s| - 1]), g, lr, s[|s| - 1])
  {
    assert s[|s| - 1] in s;
  }

  /** Stepping through a concatenation steps through each part in turn. */
  lemma {:induction false} StepsAppend(net: Net, g: real -> real, lr: real, s1: seq<Instance>, s2: seq<Instance>)
    requires WellFormed(net) && AllFit(net, s1 + s2)
    ensures AllFit(net, s1) && AllFit(Steps(net, g, lr, s1), s2)
    ensures Steps(net, g, lr, s1 + s2) == Steps(Steps(net, g, lr, s1), g, lr, s2)
    decreases |s2|
  {
    AllFitParts(net, s1, s2);
    var mid := Steps(net, g, lr, s1);
    AllFitSameSizes(net, mid, s2);
    if |s2| == 0 {
      assert s1 + s2 == s1;
    } else {
      var s := s1 + s2;
      var s2' := s2[..|s2| - 1];
      assert s[..|s| - 1] == s1 + s2';
      assert s[|s| - 1] == s2[|s2| - 1];
      StepsAppend(net, g, lr, s1, s2');
      StepsUnfold(net, g, lr, s);
      StepsUnfold(mid, g, lr, s2);
    }
  }

  /** With maxEpoch <= 0 training leaves every weight as constructed. */
  lemma NoEpochsNoChange(nn: NNImpl, g: real -> real)
    requires WellFormed(nn.net) && nn.maxEpoch <= 0
    ensures Trained(nn, g) == nn.net
  {
  }

  /** One more epoch is one more pass over the training set, in order. */
  lemma EpochUnfold(net: Net, g: real -> real, lr: real, trainingSet: seq<Instance>, epochs: int)
    requires CanTrain(net, trainingSet, epochs) && epochs > 0
    ensures CanTrain(net, trainingSet, epochs - 1)
    ensures AllFit(TrainEpochs(net, g, lr, trainingSet, epochs - 1), trainingSet)
    ensures TrainEpochs(net, g, lr, trainingSet, epochs)
            == Steps(TrainEpochs(net, g, lr, trainingSet, epochs - 1), g, lr, trainingSet)
  {
    var prev := Repeat(trainingSet, epochs - 1);
    assert Repeat(trainingSet, epochs) == prev + trainingSet;
    RepeatMembers(trainingSet, epochs);
    StepsAppend(net, g, lr, prev, trainingSet);
    assert TrainEpochs(net, g, lr, trainingSet, epochs - 1) == Steps(net, g, lr, prev);
  }

  /** Training never rewires the graph. */
  lemma TrainKeepsTopology(nn: NNImpl, g: real -> real)
    requires CanTrain(nn.net, nn.trainingSet, nn.maxEpoch)
    ensures SameTopology(Wire(Trained(nn, g)), Wire(nn.net))
  {
    TopologyBySizes(Trained(nn, g), nn.net);
  }

  // ---------------------------------------------------------------------
  // The source's loops

  /** calculateSigmoidDeriv: sums parent output times weight over the
      parent list, then returns s(1 - s) for s = g(sum). */
  method CalculateSigmoidDeriv(g: real -> real, below: seq<real>, weights: seq<real>) returns (d: real)
    requires |below| == |weights|
    ensures d == SigmoidDeriv(g, WeightedSum(below, weights))
    ensures IsSquash(g) ==> 0.0 < d <= 0.25
  {
    var sum := 0.0;
    var i := 0;
    while i < |below|
      invariant 0 <= i <= |below|
      invariant sum == WeightedSum(below[..i], weights[..i])
    {
      assert below[..i + 1][..i] == below[..i];
      assert weights[..i + 1][..i] == weights[..i];
      sum := sum + below[i] * weights[i];
      i := i + 1;
    }
    assert below[..i] == below && weights[..i] == weights;
    var s := g(sum);
    d := s * (1.0 - s);
  }

  /** The output delta loop. */
  method ComputeOutputDeltas(net: Net, g: real -> real, acts: Activations, targets: seq<int>) returns (od: seq<real>)
    requires WellFormed(net) && |acts.hiddens| == net.hiddenCount + 1 && |acts.outputs| == net.classCount
    requires |targets| >= net.classCount
    ensures od == OutputDeltas(net, g, acts, targets)
  {
    od := [];
    var k := 0;
    while k < net.classCount
      invariant 0 <= k <= net.classCount && |od| == k
      invariant forall m :: 0 <= m < k ==> od[m] == OutputDelta(net, g, acts, targets, m)
    {
      var deriv := CalculateSigmoidDeriv(g, acts.hiddens, net.outputWeights[k]);
      od := od + [deriv * (targets[k] as real - acts.outputs[k])];
      k := k + 1;
    }
  }

  /** The hidden delta loop, with its inner sum over the output units. It
      reads the output weights before any of them is updated. */
  method ComputeHiddenDeltas(net: Net, g: real -> real, inst: Instance, od: seq<real>) returns (hd: seq<real>)
    requires WellFormed(net) && AttributesFit(net, inst) && |od| == net.classCount
    ensures hd == HiddenDeltas(net, g, inst, od)
  {
    hd := [];
    var j := 0;
    while j < net.hiddenCount
      invariant 0 <= j <= net.hiddenCount && |hd| == j
      invariant forall m :: 0 <= m < j ==> hd[m] == HiddenDelta(net, g, inst, od, m)
    {
      var deriv := CalculateSigmoidDeriv(g, InputLayer(net.attributeCount, inst.attributes), net.hiddenWeights[j]);
      var sum := 0.0;
      var k := 0;
      while k < net.classCount
        invariant 0 <= k <= net.classCount
        invariant sum == ColumnSum(net.outputWeights, od, j, k)
      {
        sum := sum + net.outputWeights[k][j] * od[k];
        k := k + 1;
      }
      hd := hd + [deriv * sum];
      j := j + 1;
    }
  }

  /** The in-place update of the input-to-hidden weights. */
  method UpdateHiddenWeights(net: Net, inst: Instance, lr: real, hd: seq<real>) returns (hw: seq<seq<real>>)
    requires WellFormed(net) && AttributesFit(net, inst) && |hd| == net.hiddenCount
    ensures hw == UpdatedHiddenWeights(net, inst, lr, hd)
  {
    var a := net.attributeCount;
    hw := net.hiddenWeights;
    var i := 0;
    while i < net.hiddenCount
      invariant 0 <= i <= net.hiddenCount && |hw| == net.hiddenCount
      invariant forall m :: 0 <= m < i ==> hw[m] == UpdatedHiddenRow(net, inst, lr, hd, m)
      invariant forall m :: i <= m < net.hiddenCount ==> hw[m] == net.hiddenWeights[m]
    {
      var row := hw[i];
      var j := 0;
      while j < a + 1
        invariant 0 <= j <= a + 1 && |row| == a + 1
        invariant forall n :: 0 <= n < j ==> row[n] == UpdatedHiddenRow(net, inst, lr, hd, i)[n]
        invariant forall n :: j <= n < a + 1 ==> row[n] == net.hiddenWeights[i][n]
      {
        row := row[j := row[j] + lr * InputOutput(net, inst, j) * hd[i]];
        j := j + 1;
      }
      hw := hw[i := row];
      i := i + 1;
    }
  }

  /** The in-place update of the hidden-to-output weights. */
  method UpdateOutputWeights(net: Net, acts: Activations, lr: real, od: seq<real>) returns (ow: seq<seq<real>>)
    requires WellFormed(net) && |acts.hiddens| == net.hiddenCount + 1 && |od| == net.classCount
    ensures ow == UpdatedOutputWeights(net, acts, lr, od)
  {
    var h := net.hiddenCount;
    ow := net.outputWeights;
    var k := 0;
    while k < net.classCount
      invariant 0 <= k <= net.classCount && |ow| == net.classCount
      invariant forall m :: 0 <= m < k ==> ow[m] == UpdatedOutputRow(net, acts, lr, od, m)
      invariant forall m :: k <= m < net.classCount ==> ow[m] == net.outputWeights[m]
    {
      var row := ow[k];
      var j := 0;
      while j < h + 1
        invariant 0 <= j <= h + 1 && |row| == h + 1
        invariant forall n :: 0 <= n < j ==> row[n] == UpdatedOutputRow(net, acts, lr, od, k)[n]
        invariant forall n :: j <= n < h + 1 ==> row[n] == net.outputWeights[k][n]
      {
        row := row[j := row[j] + lr * acts.hiddens[j] * od[k]];
        j := j + 1;
      }
      ow := ow[k := row];
      k := k + 1;
    }
  }

  /** The body of the instance loop of train(): forward pass, output
      deltas, hidden deltas, then the two weight updates, in that order. */
  method TrainStep(net: Net, g: real -> real, lr: real, inst: Instance) returns (next: Net)
    requires WellFormed(net) && Fits(net, inst)
    ensures next == Step(net, g, lr, inst)
  {
    var acts := Forward(net, g, inst);
    var od := ComputeOutputDeltas(net, g, acts, inst.classValues);
    var hd := ComputeHiddenDeltas(net, g, inst, od);
    var hw := UpdateHiddenWeights(net, inst, lr, hd);
    var ow := UpdateOutputWeights(net, acts, lr, od);
    next := net.(hiddenWeights := hw, outputWeights := ow);
  }

  /** One epoch: the instance loop of train(), in training-set order. */
  method TrainEpoch(net: Net, g: real -> real, lr: real, trainingSet: seq<Instance>) returns (next: Net)
    requires WellFormed(net) && AllFit(net, trainingSet)
    ensures next == Steps(net, g, lr, trainingSet)
  {
    next := net;
    var i := 0;
    while i < |trainingSet|
      invariant 0 <= i <= |trainingSet|
      invariant AllFit(net, trainingSet[..i])
      invariant next == Steps(net, g, lr, trainingSet[..i])
    {
      assert trainingSet[..i + 1][..i] == trainingSet[..i];
      assert trainingSet[i] in trainingSet;
      assert AllFit(net, trainingSet[..i + 1]) by {
        forall x | x in trainingSet[..i + 1] ensures Fits(net, x) { assert x in trainingSet; }
      }
      next := TrainStep(next, g, lr, trainingSet[i]);
      i := i + 1;
    }
    assert trainingSet[..i] == trainingSet;
  }

  /** train(): the epoch loop around the instance loop. */
  method Train(nn: NNImpl, g: real -> real) returns (net: Net)
    requires CanTrain(nn.net, nn.trainingSet, nn.maxEpoch)
    ensures net == Trained(nn, g)
  {
    net := nn.net;
    var epoch := 0;
    while epoch < nn.maxEpoch
      invariant if nn.maxEpoch > 0 then 0 <= epoch <= nn.maxEpoch else epoch == 0
      invariant CanTrain(nn.net, nn.trainingSet, epoch)
      invariant net == TrainEpochs(nn.net, g, nn.learningRate, nn.trainingSet, epoch)
    {
      EpochUnfold(nn.net, g, nn.learningRate, nn.trainingSet, epoch + 1);
      net := TrainEpoch(net, g, nn.learningRate, nn.trainingSet);
      epoch := epoch + 1;
    }
    if nn.maxEpoch <= 0 {
      assert Repeat(nn.trainingSet, nn.maxEpoch) == [] == Repeat(nn.trainingSet, epoch);
    }
  }
}
