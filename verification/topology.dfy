/** The pointer graph the NNImpl constructor builds: three ordered lists of
    nodes, where every hidden and output node owns a list of (parent, weight)
    pairs.

    A parent is named by its position in the layer below. Nodes are distinct
    objects in the source, so the reference comparison `pair.node == currNode`
    holds exactly when the positions agree.
 */
module Topology {
  import opened Network

  datatype Option<T> = None | Some(value: T)

  /** The source's integer node types 0..4. */
  datatype NodeKind = InputUnit | InputBias | HiddenUnit | HiddenBias | OutputUnit

  /** A NodeWeightPair: the parent's position in the layer below, and the weight. */
  datatype Link = Link(source: nat, weight: real)

  datatype Node = Node(kind: NodeKind, parents: seq<Link>)

  datatype Layers = Layers(inputNodes: seq<Node>, hiddenNodes: seq<Node>, outputNodes: seq<Node>)

  /** The parent list built from one matrix row: parent j is unit j of the
      layer below, carrying the row's j-th weight. */
  function Links(row: seq<real>): (ps: seq<Link>)
  {
    seq(|row|, j requires 0 <= j < |row| => Link(j, row[j]))
  }

  /** The weights of a parent list, in order. */
  function Weights(ps: seq<Link>): (row: seq<real>)
  {
    seq(|ps|, j requires 0 <= j < |ps| => ps[j].weight)
  }

  /** The parent list names the `n` units below once each, in order. */
  predicate Positional(ps: seq<Link>, n: nat) {
    |ps| == n && forall j :: 0 <= j < n ==> ps[j].source == j
  }

  /** The shape the constructor always produces: attribute inputs then one
      input bias; hidden units each wired to every input, then one hidden
      bias; output units each wired to every hidden unit. */
  predicate Wired(l: Layers) {
    && |l.inputNodes| >= 1
    && (forall j :: 0 <= j < |l.inputNodes| - 1 ==> l.inputNodes[j] == Node(InputUnit, []))
    && l.inputNodes[|l.inputNodes| - 1] == Node(InputBias, [])
    && |l.hiddenNodes| >= 1
    && (forall i :: 0 <= i < |l.hiddenNodes| - 1 ==>
          l.hiddenNodes[i].kind == HiddenUnit && Positional(l.hiddenNodes[i].parents, |l.inputNodes|))
    && l.hiddenNodes[|l.hiddenNodes| - 1] == Node(HiddenBias, [])
    && (forall k :: 0 <= k < |l.outputNodes| ==>
          l.outputNodes[k].kind == OutputUnit && Positional(l.outputNodes[k].parents, |l.hiddenNodes|))
  }

  /** The pointer graph of a network (the wiring loops of the constructor). */
  function Wire(net: Net): (l: Layers)
    requires WellFormed(net)
    ensures Wired(l)
    ensures |l.inputNodes| == net.attributeCount + 1
    ensures |l.hiddenNodes| == net.hiddenCount + 1
    ensures |l.outputNodes| == net.classCount
  {
    var a := net.attributeCount;
    var h := net.hiddenCount;
    var c := net.classCount;
    Layers(
      seq(a, _ => Node(InputUnit, [])) + [Node(InputBias, [])],
      seq(h, i requires 0 <= i < h => Node(HiddenUnit, Links(net.hiddenWeights[i]))) + [Node(HiddenBias, [])],
      seq(c, k requires 0 <= k < c => Node(OutputUnit, Links(net.outputWeights[k]))))
  }

  /** Reads the network back off a wired graph. */
  function Unwire(l: Layers): (net: Net)
    requires Wired(l)
    ensures WellFormed(net)
  {
    var h := |l.hiddenNodes| - 1;
    var c := |l.outputNodes|;
    Net(|l.inputNodes| - 1, h, c,
        seq(h, i requires 0 <= i < h => Weights(l.hiddenNodes[i].parents)),
        seq(c, k requires 0 <= k < c => Weights(l.outputNodes[k].parents)))
  }

  lemma WeightsOfLinks(row: seq<real>)
    ensures Weights(Links(row)) == row
  {
  }

  lemma LinksOfWeights(ps: seq<Link>, n: nat)
    requires Positional(ps, n)
    ensures Links(Weights(ps)) == ps
  {
    assert forall j :: 0 <= j < n ==> Links(Weights(ps))[j] == Link(j, ps[j].weight) == ps[j];
  }

  /** Reading a wired network back gives the network. */
  lemma UnwireWire(net: Net)
    requires WellFormed(net)
    ensures Unwire(Wire(net)) == net
  {
    var r := Unwire(Wire(net));
    forall i | 0 <= i < net.hiddenCount
      ensures r.hiddenWeights[i] == net.hiddenWeights[i]
    {
      WeightsOfLinks(net.hiddenWeights[i]);
    }
    forall k | 0 <= k < net.classCount
      ensures r.outputWeights[k] == net.outputWeights[k]
    {
      WeightsOfLinks(net.outputWeights[k]);
    }
  }

  /** Every wired graph is the graph of the network read off it: the
      matrices lose nothing of the pointer graph. */
  lemma WireUnwire(l: Layers)
    requires Wired(l)
    ensures Wire(Unwire(l)) == l
  {
    var net := Unwire(l);
    var w := Wire(net);
    assert w.inputNodes == l.inputNodes;
    forall i | 0 <= i < |l.hiddenNodes| - 1
      ensures w.hiddenNodes[i] == l.hiddenNodes[i]
    {
      LinksOfWeights(l.hiddenNodes[i].parents, |l.inputNodes|);
    }
    assert w.hiddenNodes == l.hiddenNodes;
    forall k | 0 <= k < |l.outputNodes|
      ensures w.outputNodes[k] == l.outputNodes[k]
    {
      LinksOfWeights(l.outputNodes[k].parents, |l.hiddenNodes|);
    }
  }

  /** The constructor's wiring, in terms of its arguments: the layer sizes,
      a bias last in the input and hidden layers, and positional parents whose
      weights are the matrix cells (the bias column included). */
  lemma ConstructWiring(
    trainingSet: seq<Instance>, hiddenNodeCount: int, learningRate: real, maxEpoch: int,
    hiddenWeights: seq<seq<real>>, outputWeights: seq<seq<real>>)
    requires |trainingSet| > 0
    requires WeightsCover(|trainingSet[0].attributes|, HiddenUnits(hiddenNodeCount),
                          |trainingSet[0].classValues|, hiddenWeights, outputWeights)
    ensures var l := Wire(Construct(trainingSet, hiddenNodeCount, learningRate, maxEpoch,
                                    hiddenWeights, outputWeights).net);
            var a := |trainingSet[0].attributes|;
            var h := HiddenUnits(hiddenNodeCount);
            && |l.inputNodes| == a + 1
            && (forall j :: 0 <= j < a ==> l.inputNodes[j].kind == InputUnit)
            && l.inputNodes[a].kind == InputBias
            && |l.hiddenNodes| == h + 1
            && l.hiddenNodes[h].kind == HiddenBias
            && |l.outputNodes| == |trainingSet[0].classValues|
            && (forall i :: 0 <= i < h ==>
                  l.hiddenNodes[i].kind == HiddenUnit && |l.hiddenNodes[i].parents| == a + 1)
            && (forall i, j :: 0 <= i < h && 0 <= j <= a ==>
                  l.hiddenNodes[i].parents[j] == Link(j, hiddenWeights[i][j]))
            && (forall k :: 0 <= k < |l.outputNodes| ==>
                  l.outputNodes[k].kind == OutputUnit && |l.outputNodes[k].parents| == h + 1)
            && (forall k, j :: 0 <= k < |l.outputNodes| && 0 <= j <= h ==>
                  l.outputNodes[k].parents[j] == Link(j, outputWeights[k][j]))
  {
  }

  /** Two networks with the same layer sizes have the same graph apart from
      the weights: same nodes of the same kinds, same parents in the same
      order. */
  predicate SameTopology(l1: Layers, l2: Layers) {
    && |l1.inputNodes| == |l2.inputNodes|
    && |l1.hiddenNodes| == |l2.hiddenNodes|
    && |l1.outputNodes| == |l2.outputNodes|
    && (forall j :: 0 <= j < |l1.inputNodes| ==> SameShape(l1.inputNodes[j], l2.inputNodes[j]))
    && (forall i :: 0 <= i < |l1.hiddenNodes| ==> SameShape(l1.hiddenNodes[i], l2.hiddenNodes[i]))
    && (forall k :: 0 <= k < |l1.outputNodes| ==> SameShape(l1.outputNodes[k], l2.outputNodes[k]))
  }

  predicate SameShape(n1: Node, n2: Node) {
    && n1.kind == n2.kind
    && |n1.parents| == |n2.parents|
    && forall j :: 0 <= j < |n1.parents| ==> n1.parents[j].source == n2.parents[j].source
  }

  /** The graph's structure is determined by the layer sizes alone. */
  lemma TopologyBySizes(n1: Net, n2: Net)
    requires WellFormed(n1) && WellFormed(n2)
    requires n1.attributeCount == n2.attributeCount
    requires n1.hiddenCount == n2.hiddenCount
    requires n1.classCount == n2.classCount
    ensures SameTopology(Wire(n1), Wire(n2))
  {
  }

  /** The inner search of the hidden-delta loop: the weight of the first
      pair whose parent is unit `source`, if any (the `break` stops at the
      first match). */
  function FindWeight(ps: seq<Link>, source: nat): (w: Option<real>)
    ensures w.None? <==> forall j :: 0 <= j < |ps| ==> ps[j].source != source
    ensures w.Some? ==> exists j :: 0 <= j < |ps| && ps[j] == Link(source, w.value)
                                     && forall m :: 0 <= m < j ==> ps[m].source != source
  {
    if |ps| == 0 then None
    else if ps[0].source == source then Some(ps[0].weight)
    else
      var w := FindWeight(ps[1..], source);
      assert forall j :: 0 < j < |ps| ==> ps[j] == ps[1..][j - 1];
      if w.Some? then
        var j :| 0 <= j < |ps[1..]| && ps[1..][j] == Link(source, w.value)
                 && forall m :: 0 <= m < j ==> ps[1..][m].source != source;
        assert ps[j + 1] == Link(source, w.value);
        assert forall m :: 0 <= m < j + 1 ==> ps[m].source != source;
        w
      else w
  }

  /** The search over a parent list whose m-th pair names unit `offset + m`. */
  lemma {:induction false} FindWeightShifted(ps: seq<Link>, offset: nat, j: nat)
    requires forall m :: 0 <= m < |ps| ==> ps[m].source == offset + m
    requires offset <= j < offset + |ps|
    ensures FindWeight(ps, j) == Some(ps[j - offset].weight)
    decreases |ps|
  {
    if j != offset {
      assert forall m :: 0 <= m < |ps[1..]| ==> ps[1..][m].source == offset + 1 + m;
      FindWeightShifted(ps[1..], offset + 1, j);
    }
  }

  /** In a wired graph the search from an output unit for hidden unit j
      finds exactly the j-th cell of that unit's matrix row. */
  lemma FindWeightPositional(row: seq<real>, j: nat)
    requires j < |row|
    ensures FindWeight(Links(row), j) == Some(row[j])
  {
    FindWeightShifted(Links(row), 0, j);
  }
}
