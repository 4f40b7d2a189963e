/** One backpropagation step on one instance (the body of train's instance
    loop): forward pass, output deltas, hidden deltas, then the additive
    update of every connection weight.

    All deltas are computed from the network as it was before the step, and
    every update reads only those deltas and the forward pass's outputs, so
    the step is a function of the pre-step network alone.
 */
module Backprop {
  import opened Activation
  import opened Network
  import opened Topology
  import opened Propagation

  /** calculateSigmoidDeriv on output unit k: g' at the unit's net input,
      recomputed from its parents' outputs and its current weights. */
  function OutputDelta(net: Net, g: real -> real, acts: Activations, targets: seq<int>, k: nat): (delta: real)
    requires WellFormed(net) && |acts.hiddens| == net.hiddenCount + 1 && |acts.outputs| == net.classCount
    requires k < net.classCount && |targets| >= net.classCount
  {
    SigmoidDeriv(g, WeightedSum(acts.hiddens, net.outputWeights[k])) * (targets[k] as real - acts.outputs[k])
  }

  function OutputDeltas(net: Net, g: real -> real, acts: Activations, targets: seq<int>): (od: seq<real>)
    requires WellFormed(net) && |acts.hiddens| == net.hiddenCount + 1 && |acts.outputs| == net.classCount
    requires |targets| >= net.classCount
    ensures |od| == net.classCount
  {
    seq(net.classCount, k requires 0 <= k < net.classCount => OutputDelta(net, g, acts, targets, k))
  }

  /** Sum over the first n output units of the weight from hidden unit j
      times that unit's delta, accumulated in output order. */
  function ColumnSum(outputWeights: seq<seq<real>>, od: seq<real>, j: nat, n: nat): (sum: real)
    requires n <= |outputWeights| && n <= |od|
    requires forall k :: 0 <= k < n ==> j < |outputWeights[k]|
  {
    if n == 0 then 0.0
    else ColumnSum(outputWeights, od, j, n - 1) + outputWeights[n - 1][j] * od[n - 1]
  }

  /** The delta of non-bias hidden unit j, from the output deltas and the
      output weights as they were before any update. */
  function HiddenDelta(net: Net, g: real -> real, inst: Instance, od: seq<real>, j: nat): (delta: real)
    requires WellFormed(net) && AttributesFit(net, inst) && |od| == net.classCount
    requires j < net.hiddenCount
  {
    SigmoidDeriv(g, WeightedSum(InputLayer(net.attributeCount, inst.attributes), net.hiddenWeights[j]))
      * ColumnSum(net.outputWeights, od, j, net.classCount)
  }

  /** One delta per hidden unit; the hidden bias gets none. */
  function HiddenDeltas(net: Net, g: real -> real, inst: Instance, od: seq<real>): (hd: seq<real>)
    requires WellFormed(net) && AttributesFit(net, inst) && |od| == net.classCount
    ensures |hd| == net.hiddenCount
  {
    seq(net.hiddenCount, j requires 0 <= j < net.hiddenCount => HiddenDelta(net, g, inst, od, j))
  }

  /** The output of input unit j as a connection source: entry j of the
      input layer, that is attribute j, or 1 for the bias. */
  function InputOutput(net: Net, inst: Instance, j: nat): (out: real)
    requires j <= net.attributeCount && |inst.attributes| >= net.attributeCount
  {
    InputLayer(net.attributeCount, inst.attributes)[j]
  }

  function UpdatedHiddenRow(net: Net, inst: Instance, lr: real, hd: seq<real>, i: nat): (row: seq<real>)
    requires WellFormed(net) && AttributesFit(net, inst) && |hd| == net.hiddenCount
    requires i < net.hiddenCount
    ensures |row| == net.attributeCount + 1
  {
    seq(net.attributeCount + 1, j requires 0 <= j <= net.attributeCount =>
          net.hiddenWeights[i][j] + lr * InputOutput(net, inst, j) * hd[i])
  }

  function UpdatedOutputRow(net: Net, acts: Activations, lr: real, od: seq<real>, k: nat): (row: seq<real>)
    requires WellFormed(net) && |acts.hiddens| == net.hiddenCount + 1 && |od| == net.classCount
    requires k < net.classCount
    ensures |row| == net.hiddenCount + 1
  {
    seq(net.hiddenCount + 1, j requires 0 <= j <= net.hiddenCount =>
          net.outputWeights[k][j] + lr * acts.hiddens[j] * od[k])
  }

  function UpdatedHiddenWeights(net: Net, inst: Instance, lr: real, hd: seq<real>): (hw: seq<seq<real>>)
    requires WellFormed(net) && AttributesFit(net, inst) && |hd| == net.hiddenCount
    ensures |hw| == net.hiddenCount
  {
    seq(net.hiddenCount, i requires 0 <= i < net.hiddenCount => UpdatedHiddenRow(net, inst, lr, hd, i))
  }

  function UpdatedOutputWeights(net: Net, acts: Activations, lr: real, od: seq<real>): (ow: seq<seq<real>>)
    requires WellFormed(net) && |acts.hiddens| == net.hiddenCount + 1 && |od| == net.classCount
    ensures |ow| == net.classCount
  {
    seq(net.classCount, k requires 0 <= k < net.classCount => UpdatedOutputRow(net, acts, lr, od, k))
  }

  /** One training step on one instance. Layer sizes never change, so the
      graph keeps its nodes and parent lists; only weights move. */
  function Step(net: Net, g: real -> real, lr: real, inst: Instance): (next: Net)
    requires WellFormed(net) && Fits(net, inst)
    ensures WellFormed(next)
    ensures next.attributeCount == net.attributeCount
    ensures next.hiddenCount == net.hiddenCount
    ensures next.classCount == net.classCount
  {
    var acts := Forward(net, g, inst);
    var od := OutputDeltas(net, g, acts, inst.classValues);
    var hd := HiddenDeltas(net, g, inst, od);
    net.(hiddenWeights := UpdatedHiddenWeights(net, inst, lr, hd),
         outputWeights := UpdatedOutputWeights(net, acts, lr, od))
  }

  // ---------------------------------------------------------------------
  // Properties of one step

  /** The output delta is o(1 - o)(t - o) for the unit's forward activation
      o: recomputing g at the net input gives back the stored output. */
  lemma OutputDeltaForm(net: Net, g: real -> real, inst: Instance, k: nat)
    requires WellFormed(net) && Fits(net, inst) && k < net.classCount
    ensures var acts := Forward(net, g, inst);
            var o := acts.outputs[k];
            OutputDeltas(net, g, acts, inst.classValues)[k]
              == o * (1.0 - o) * (inst.classValues[k] as real - o)
  {
  }

  /** The hidden delta is h(1 - h) times the back-propagated sum for the
      unit's forward activation h. */
  lemma HiddenDeltaForm(net: Net, g: real -> real, inst: Instance, j: nat)
    requires WellFormed(net) && Fits(net, inst) && j < net.hiddenCount
    ensures var acts := Forward(net, g, inst);
            var od := OutputDeltas(net, g, acts, inst.classValues);
            var hj := acts.hiddens[j];
            HiddenDeltas(net, g, inst, od)[j]
              == hj * (1.0 - hj) * ColumnSum(net.outputWeights, od, j, net.classCount)
  {
  }

  /** A positive factor keeps the sign of the other. */
  lemma PositiveScaleKeepsSign(s: real, e: real)
    requires s > 0.0
    ensures s * e > 0.0 <==> e > 0.0
    ensures s * e < 0.0 <==> e < 0.0
  {
    if e > 0.0 {
      assert s * e > 0.0;
    } else if e < 0.0 {
      assert s * e < 0.0;
    } else {
      assert s * e == 0.0;
    }
  }

  /** An integer is never strictly between 0 and 1. */
  lemma IntegerOffUnitInterval(t: int, o: real)
    requires 0.0 < o < 1.0
    ensures t as real - o != 0.0
    ensures t as real > o <==> t > 0
  {
  }

  /** For a squashing g an output delta is positive exactly when the target
      exceeds the output, negative exactly when it is below, and never zero
      for an integer target. */
  lemma OutputDeltaSign(net: Net, g: real -> real, inst: Instance, k: nat)
    requires IsSquash(g)
    requires WellFormed(net) && Fits(net, inst) && k < net.classCount
    ensures var acts := Forward(net, g, inst);
            var d := OutputDeltas(net, g, acts, inst.classValues)[k];
            var t := inst.classValues[k] as real;
            && (d > 0.0 <==> t > acts.outputs[k])
            && (d < 0.0 <==> t < acts.outputs[k])
            && d != 0.0
  {
    var acts := Forward(net, g, inst);
    var o := acts.outputs[k];
    var s := SigmoidDeriv(g, WeightedSum(acts.hiddens, net.outputWeights[k]));
    var e := inst.classValues[k] as real - o;
    assert OutputDeltas(net, g, acts, inst.classValues)[k] == s * e;
    IntegerOffUnitInterval(inst.classValues[k], o);
    PositiveScaleKeepsSign(s, e);
  }

  /** The update rule: every weight moves by exactly lr times the source
      unit's output times the owning unit's delta, all taken from before
      the step. */
  lemma StepUpdateRule(net: Net, g: real -> real, lr: real, inst: Instance)
    requires WellFormed(net) && Fits(net, inst)
    ensures var next := Step(net, g, lr, inst);
            var acts := Forward(net, g, inst);
            var od := OutputDeltas(net, g, acts, inst.classValues);
            var hd := HiddenDeltas(net, g, inst, od);
            && (forall i, j :: 0 <= i < net.hiddenCount && 0 <= j <= net.attributeCount ==>
                  next.hiddenWeights[i][j] - net.hiddenWeights[i][j] == lr * InputOutput(net, inst, j) * hd[i])
            && (forall k, j :: 0 <= k < net.classCount && 0 <= j <= net.hiddenCount ==>
                  next.outputWeights[k][j] - net.outputWeights[k][j] == lr * acts.hiddens[j] * od[k])
  {
  }

  /** The output-layer update read on the graph: the weight of parent pair
      `j` of output unit `k` moves by lr times the output of the node the
      pair names, as the graph evaluates it before the step, times the
      unit's delta. */
  lemma StepUpdateRuleOnGraph(net: Net, g: real -> real, lr: real, inst: Instance, k: nat, j: nat)
    requires WellFormed(net) && Fits(net, inst)
    requires k < net.classCount && j <= net.hiddenCount
    ensures Wire(Step(net, g, lr, inst)).outputNodes[k].parents[j].weight
              - Wire(net).outputNodes[k].parents[j].weight
              == lr * EvalGraph(Wire(net), g, inst.attributes).hiddens[Wire(net).outputNodes[k].parents[j].source]
                      * OutputDeltas(net, g, Forward(net, g, inst), inst.classValues)[k]
  {
    StepOutputWeightOnGraph(net, g, lr, inst, k, j);
    GraphProductOfLink(net, g, inst, k, j, lr, OutputDeltas(net, g, Forward(net, g, inst), inst.classValues)[k]);
  }

  /** The same update, with the weights read through the wiring and the
      source's output still taken from the matrix forward pass. */
  lemma StepOutputWeightOnGraph(net: Net, g: real -> real, lr: real, inst: Instance, k: nat, j: nat)
    requires WellFormed(net) && Fits(net, inst)
    requires k < net.classCount && j <= net.hiddenCount
    ensures Wire(Step(net, g, lr, inst)).outputNodes[k].parents[j].weight - Wire(net).outputNodes[k].parents[j].weight
              == lr * Forward(net, g, inst).hiddens[j] * OutputDeltas(net, g, Forward(net, g, inst), inst.classValues)[k]
  {
    StepOutputWeight(net, g, lr, inst, k, j);
    OutputLinkOfWire(net, k, j);
    OutputLinkOfWire(Step(net, g, lr, inst), k, j);
  }

  /** The factor the update takes from the graph equals the one it takes
      from the matrices. */
  lemma GraphProductOfLink(net: Net, g: real -> real, inst: Instance, k: nat, j: nat, lr: real, d: real)
    requires WellFormed(net) && AttributesFit(net, inst)
    requires k < net.classCount && j <= net.hiddenCount
    ensures lr * EvalGraph(Wire(net), g, inst.attributes).hiddens[Wire(net).outputNodes[k].parents[j].source] * d
              == lr * Forward(net, g, inst).hiddens[j] * d
  {
    GraphOutputOfLink(net, g, inst, k, j);
  }

  /** The graph's output of the hidden node that parent pair `j` of output
      unit `k` names is the matrices' hidden output `j`. */
  lemma GraphOutputOfLink(net: Net, g: real -> real, inst: Instance, k: nat, j: nat)
    requires WellFormed(net) && AttributesFit(net, inst)
    requires k < net.classCount && j <= net.hiddenCount
    ensures EvalGraph(Wire(net), g, inst.attributes).hiddens[Wire(net).outputNodes[k].parents[j].source]
              == Forward(net, g, inst).hiddens[j]
  {
    OutputLinkOfWire(net, k, j);
    GraphHiddensMatch(net, g, inst);
  }

  /** The update rule for one output weight. */
  lemma StepOutputWeight(net: Net, g: real -> real, lr: real, inst: Instance, k: nat, j: nat)
    requires WellFormed(net) && Fits(net, inst)
    requires k < net.classCount && j <= net.hiddenCount
    ensures Step(net, g, lr, inst).outputWeights[k][j] - net.outputWeights[k][j]
              == lr * Forward(net, g, inst).hiddens[j] * OutputDeltas(net, g, Forward(net, g, inst), inst.classValues)[k]
  {
    StepUpdateRule(net, g, lr, inst);
  }

  /** Parent pair `j` of output unit `k` in the graph names hidden node `j`
      and carries the matrix weight. */
  lemma OutputLinkOfWire(net: Net, k: nat, j: nat)
    requires WellFormed(net) && k < net.classCount && j <= net.hiddenCount
    ensures Wire(net).outputNodes[k].parents[j] == Link(j, net.outputWeights[k][j])
  {
    assert Wire(net).outputNodes[k].parents == Links(net.outputWeights[k]);
  }

  /** The hidden-layer outputs of the graph are those of the matrices. */
  lemma GraphHiddensMatch(net: Net, g: real -> real, inst: Instance)
    requires WellFormed(net) && AttributesFit(net, inst)
    ensures EvalGraph(Wire(net), g, inst.attributes).hiddens == Forward(net, g, inst).hiddens
  {
    ForwardMatchesGraph(net, g, inst);
  }

  /** Bias weights move by lr times the owning unit's delta, the bias
      output being 1. */
  lemma StepBiasWeights(net: Net, g: real -> real, lr: real, inst: Instance)
    requires WellFormed(net) && Fits(net, inst)
    ensures var next := Step(net, g, lr, inst);
            var od := OutputDeltas(net, g, Forward(net, g, inst), inst.classValues);
            var hd := HiddenDeltas(net, g, inst, od);
            var a := net.attributeCount;
            var h := net.hiddenCount;
            && (forall i :: 0 <= i < h ==> next.hiddenWeights[i][a] == net.hiddenWeights[i][a] + lr * hd[i])
            && (forall k :: 0 <= k < net.classCount ==> next.outputWeights[k][h] == net.outputWeights[k][h] + lr * od[k])
  {
  }

  /** With lr > 0 and a squashing g, a step raises an output unit's bias
      weight exactly when the unit's target exceeds its output. */
  lemma OutputBiasMovesTowardTarget(net: Net, g: real -> real, lr: real, inst: Instance, k: nat)
    requires IsSquash(g) && lr > 0.0
    requires WellFormed(net) && Fits(net, inst) && k < net.classCount
    ensures var h := net.hiddenCount;
            (Step(net, g, lr, inst).outputWeights[k][h] > net.outputWeights[k][h]
             <==> inst.classValues[k] as real > Forward(net, g, inst).outputs[k])
  {
    var od := OutputDeltas(net, g, Forward(net, g, inst), inst.classValues);
    StepBiasWeights(net, g, lr, inst);
    OutputDeltaSign(net, g, inst, k);
    PositiveScaleKeepsSign(lr, od[k]);
  }

  /** Locality: a unit whose delta is zero keeps all its incoming weights,
      and with learning rate 0 the step changes nothing. */
  lemma StepLocality(net: Net, g: real -> real, lr: real, inst: Instance)
    requires WellFormed(net) && Fits(net, inst)
    ensures var next := Step(net, g, lr, inst);
            var acts := Forward(net, g, inst);
            var od := OutputDeltas(net, g, acts, inst.classValues);
            var hd := HiddenDeltas(net, g, inst, od);
            && (forall i :: 0 <= i < net.hiddenCount && hd[i] == 0.0 ==>
                  next.hiddenWeights[i] == net.hiddenWeights[i])
            && (forall k :: 0 <= k < net.classCount && od[k] == 0.0 ==>
                  next.outputWeights[k] == net.outputWeights[k])
            && (lr == 0.0 ==> next == net)
  {
    var next := Step(net, g, lr, inst);
    var acts := Forward(net, g, inst);
    var od := OutputDeltas(net, g, acts, inst.classValues);
    var hd := HiddenDeltas(net, g, inst, od);
    forall i | 0 <= i < net.hiddenCount && (hd[i] == 0.0 || lr == 0.0)
      ensures next.hiddenWeights[i] == net.hiddenWeights[i]
    {
      assert forall j :: 0 <= j <= net.attributeCount ==>
        next.hiddenWeights[i][j] == net.hiddenWeights[i][j] + lr * InputOutput(net, inst, j) * hd[i];
    }
    forall k | 0 <= k < net.classCount && (od[k] == 0.0 || lr == 0.0)
      ensures next.outputWeights[k] == net.outputWeights[k]
    {
      assert forall j :: 0 <= j <= net.hiddenCount ==>
        next.outputWeights[k][j] == net.outputWeights[k][j] + lr * acts.hiddens[j] * od[k];
    }
  }

  /** Training never rewires: the graph after a step has the same nodes of
      the same kinds with the same parents in the same order. */
  lemma StepKeepsTopology(net: Net, g: real -> real, lr: real, inst: Instance)
    requires WellFormed(net) && Fits(net, inst)
    ensures SameTopology(Wire(Step(net, g, lr, inst)), Wire(net))
  {
    TopologyBySizes(Step(net, g, lr, inst), net);
  }

  // ---------------------------------------------------------------------
  // The source finds the weight from hidden unit j to output unit k by
  // searching k's parent list for the pair whose node is j.

  function SearchContribution(outputNodes: seq<Node>, od: seq<real>, j: nat, k: nat): (contribution: real)
    requires k < |outputNodes| && k < |od|
  {
    var w := FindWeight(outputNodes[k].parents, j);
    if w.Some? then w.value * od[k] else 0.0
  }

  /** The hidden-delta sum as the source computes it, over the graph's
      first n output nodes. */
  function SearchSum(outputNodes: seq<Node>, od: seq<real>, j: nat, n: nat): (sum: real)
    requires n <= |outputNodes| && n <= |od|
  {
    if n == 0 then 0.0 else SearchSum(outputNodes, od, j, n - 1) + SearchContribution(outputNodes, od, j, n - 1)
  }

  lemma {:induction false} SearchSumOfRows(outputNodes: seq<Node>, outputWeights: seq<seq<real>>, od: seq<real>, j: nat, n: nat)
    requires n <= |outputNodes| && n <= |outputWeights| && n <= |od|
    requires forall k :: 0 <= k < n ==> outputNodes[k].parents == Links(outputWeights[k]) && j < |outputWeights[k]|
    ensures SearchSum(outputNodes, od, j, n) == ColumnSum(outputWeights, od, j, n)
  {
    if n > 0 {
      var k := n - 1;
      SearchSumOfRows(outputNodes, outputWeights, od, j, k);
      var row := outputWeights[k];
      assert outputNodes[k].parents == Links(row);
      FindWeightPositional(row, j);
    }
  }

  /** On the network's graph the search finds each output unit's matrix
      cell for hidden unit j, so the searched sum is the matrix column sum
      the hidden delta uses. */
  lemma SearchSumIsColumnSum(net: Net, od: seq<real>, j: nat)
    requires WellFormed(net) && |od| == net.classCount
    requires j <= net.hiddenCount
    ensures SearchSum(Wire(net).outputNodes, od, j, net.classCount) == ColumnSum(net.outputWeights, od, j, net.classCount)
  {
    SearchSumOfRows(Wire(net).outputNodes, net.outputWeights, od, j, net.classCount);
  }
}
