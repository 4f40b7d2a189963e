/** Forward propagation (calculateOutputForInstance up to propagateForward).

    Input unit j outputs attribute j, both bias units output 1, and every
    hidden and output unit outputs g of the weighted sum of its parents'
    outputs. The hidden layer is computed before the output layer.
 */
module Propagation {
  import opened Activation
  import opened Network
  import opened Topology

  /** The net input of a unit: the sum over its parents of output times
      weight, accumulated left to right as the source's loops do. */
  function WeightedSum(xs: seq<real>, ws: seq<real>): (sum: real)
    requires |xs| == |ws|
    decreases |xs|
  {
    if |xs| == 0 then 0.0
    else WeightedSum(xs[..|xs| - 1], ws[..|ws| - 1]) + xs[|xs| - 1] * ws[|ws| - 1]
  }

  /** The outputs of the input layer: the first `a` attributes, then the bias. */
  function InputLayer(a: nat, attributes: seq<real>): (ins: seq<real>)
    requires |attributes| >= a
    ensures |ins| == a + 1
    ensures ins[a] == 1.0
    ensures forall j :: 0 <= j < a ==> ins[j] == attributes[j]
  {
    attributes[..a] + [1.0]
  }

  /** The unit outputs a forward pass leaves behind (the Node objects'
      stored outputs): hidden layer with its bias last, and output layer. */
  datatype Activations = Activations(hiddens: seq<real>, outputs: seq<real>)

  function HiddenLayer(net: Net, g: real -> real, inst: Instance): (hs: seq<real>)
    requires WellFormed(net) && AttributesFit(net, inst)
    ensures |hs| == net.hiddenCount + 1
    ensures hs[net.hiddenCount] == 1.0
    ensures IsSquash(g) ==> forall i :: 0 <= i < net.hiddenCount ==> 0.0 < hs[i] < 1.0
  {
    var h := net.hiddenCount;
    seq(h, i requires 0 <= i < h =>
          g(WeightedSum(InputLayer(net.attributeCount, inst.attributes), net.hiddenWeights[i])))
      + [1.0]
  }

  function OutputLayer(net: Net, g: real -> real, hs: seq<real>): (os: seq<real>)
    requires WellFormed(net) && |hs| == net.hiddenCount + 1
    ensures |os| == net.classCount
    ensures IsSquash(g) ==> forall k :: 0 <= k < net.classCount ==> 0.0 < os[k] < 1.0
  {
    seq(net.classCount, k requires 0 <= k < net.classCount => g(WeightedSum(hs, net.outputWeights[k])))
  }

  /** The forward pass for one instance. Both biases stay 1; for a
      squashing g every other hidden and output activation is in (0, 1). */
  function Forward(net: Net, g: real -> real, inst: Instance): (acts: Activations)
    requires WellFormed(net) && AttributesFit(net, inst)
    ensures |acts.hiddens| == net.hiddenCount + 1
    ensures acts.hiddens[net.hiddenCount] == 1.0
    ensures |acts.outputs| == net.classCount
    ensures IsSquash(g) ==> forall i :: 0 <= i < net.hiddenCount ==> 0.0 < acts.hiddens[i] < 1.0
    ensures IsSquash(g) ==> forall k :: 0 <= k < net.classCount ==> 0.0 < acts.outputs[k] < 1.0
  {
    var hs := HiddenLayer(net, g, inst);
    Activations(hs, OutputLayer(net, g, hs))
  }

  /** With no hidden unit the source never sets the input units, and the
      outputs do not depend on the attributes at all. */
  lemma NoHiddenUnitsIgnoreAttributes(net: Net, g: real -> real, i1: Instance, i2: Instance)
    requires WellFormed(net) && net.hiddenCount == 0
    ensures Forward(net, g, i1) == Forward(net, g, i2)
  {
    assert HiddenLayer(net, g, i1) == [1.0] == HiddenLayer(net, g, i2);
  }

  // ---------------------------------------------------------------------
  // Evaluation of the pointer graph, node by node. Node's own code is not
  // part of this model; its behaviour is stated here: an input node passes
  // its input through, a bias node outputs 1, and any other node outputs g
  // of the sum over its parent pairs of parent output times weight.

  /** Sum over the parent pairs of parent output times weight. */
  function LinkSum(ps: seq<Link>, below: seq<real>): (sum: real)
    requires forall j :: 0 <= j < |ps| ==> ps[j].source < |below|
    decreases |ps|
  {
    if |ps| == 0 then 0.0
    else LinkSum(ps[..|ps| - 1], below) + below[ps[|ps| - 1].source] * ps[|ps| - 1].weight
  }

  predicate SourcesBelow(n: Node, width: nat) {
    forall j :: 0 <= j < |n.parents| ==> n.parents[j].source < width
  }

  function NodeOutput(g: real -> real, n: Node, below: seq<real>, input: real): (out: real)
    requires n.kind in {HiddenUnit, OutputUnit} ==> SourcesBelow(n, |below|)
  {
    match n.kind
    case InputUnit => input
    case InputBias => 1.0
    case HiddenBias => 1.0
    case HiddenUnit => g(LinkSum(n.parents, below))
    case OutputUnit => g(LinkSum(n.parents, below))
  }

  /** The forward pass over the graph. setInput is called only through the
      hidden units' parent lists, for all but the last (bias) parent; with no
      hidden unit no input is set and the input layer is not evaluated. */
  function EvalGraph(l: Layers, g: real -> real, attributes: seq<real>): (acts: Activations)
    requires Wired(l)
    requires |l.hiddenNodes| > 1 ==> |attributes| >= |l.inputNodes| - 1
  {
    var a := |l.inputNodes| - 1;
    var ins := if |l.hiddenNodes| == 1 then []
               else seq(a + 1, j requires 0 <= j <= a =>
                          NodeOutput(g, l.inputNodes[j], [], if j < a then attributes[j] else 0.0));
    var hs := seq(|l.hiddenNodes|, i requires 0 <= i < |l.hiddenNodes| =>
                    NodeOutput(g, l.hiddenNodes[i], ins, 0.0));
    var os := seq(|l.outputNodes|, k requires 0 <= k < |l.outputNodes| =>
                    NodeOutput(g, l.outputNodes[k], hs, 0.0));
    Activations(hs, os)
  }

  lemma {:induction false} LinkSumOfLinks(row: seq<real>, below: seq<real>)
    requires |row| <= |below|
    ensures LinkSum(Links(row), below) == WeightedSum(below[..|row|], row)
    decreases |row|
  {
    if |row| > 0 {
      var n := |row|;
      assert Links(row)[..n - 1] == Links(row[..n - 1]);
      LinkSumOfLinks(row[..n - 1], below);
      assert below[..n][..n - 1] == below[..n - 1];
    }
  }

  /** The matrix forward pass is the graph's node-by-node evaluation. */
  lemma ForwardMatchesGraph(net: Net, g: real -> real, inst: Instance)
    requires WellFormed(net) && AttributesFit(net, inst)
    ensures EvalGraph(Wire(net), g, inst.attributes) == Forward(net, g, inst)
  {
    var l := Wire(net);
    var a := net.attributeCount;
    var h := net.hiddenCount;
    var acts := Forward(net, g, inst);
    var e := EvalGraph(l, g, inst.attributes);
    if h > 0 {
      var ins := InputLayer(a, inst.attributes);
      var eins := seq(a + 1, j requires 0 <= j <= a =>
                        NodeOutput(g, l.inputNodes[j], [], if j < a then inst.attributes[j] else 0.0));
      assert eins == ins;
      forall i | 0 <= i < h
        ensures e.hiddens[i] == acts.hiddens[i]
      {
        LinkSumOfLinks(net.hiddenWeights[i], ins);
        assert ins[..a + 1] == ins;
      }
    }
    assert e.hiddens == acts.hiddens;
    forall k | 0 <= k < net.classCount
      ensures e.outputs[k] == acts.outputs[k]
    {
      LinkSumOfLinks(net.outputWeights[k], acts.hiddens);
      assert acts.hiddens[..h + 1] == acts.hiddens;
    }
  }
}
