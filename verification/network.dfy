/** The state of an NNImpl: layer sizes, the two weight matrices, and the
    training configuration the constructor stores.

    Row i of `hiddenWeights` is the parent list of hidden unit i (one weight per
    input unit, the input bias last); row k of `outputWeights` is the parent
    list of output unit k (one weight per hidden unit, the hidden bias last).
    The pointer-graph view of the same state is `Topology.Wire`.
 */
module Network {

  /** One labelled example: numeric attributes and a one-hot class vector. */
  datatype Instance = Instance(attributes: seq<real>, classValues: seq<int>)

  datatype Net = Net(
    attributeCount: nat,
    hiddenCount: nat,
    classCount: nat,
    hiddenWeights: seq<seq<real>>,
    outputWeights: seq<seq<real>>)

  /** The fields of NNImpl: the network plus what train() reads. */
  datatype NNImpl = NNImpl(
    net: Net,
    trainingSet: seq<Instance>,
    learningRate: real,
    maxEpoch: int)

  /** Every matrix row has exactly one weight per unit of the layer below,
      bias included. */
  predicate WellFormed(net: Net) {
    && |net.hiddenWeights| == net.hiddenCount
    && (forall i :: 0 <= i < net.hiddenCount ==> |net.hiddenWeights[i]| == net.attributeCount + 1)
    && |net.outputWeights| == net.classCount
    && (forall k :: 0 <= k < net.classCount ==> |net.outputWeights[k]| == net.hiddenCount + 1)
  }

  /** The forward pass reads attribute j for every non-bias input j, but only
      through the hidden units, so with no hidden unit nothing is read. */
  predicate AttributesFit(net: Net, inst: Instance) {
    net.hiddenCount > 0 ==> |inst.attributes| >= net.attributeCount
  }

  /** Training reads one class value per output unit. */
  predicate TargetsFit(net: Net, inst: Instance) {
    |inst.classValues| >= net.classCount
  }

  predicate Fits(net: Net, inst: Instance) {
    AttributesFit(net, inst) && TargetsFit(net, inst)
  }

  /** Every instance of `s` can be trained on by `net`. */
  predicate AllFit(net: Net, s: seq<Instance>) {
    forall x :: x in s ==> Fits(net, x)
  }

  /** The number of hidden units the constructor builds: its loop runs
      `hiddenNodeCount` times, so a negative count builds none. */
  function HiddenUnits(hiddenNodeCount: int): (h: nat)
    ensures hiddenNodeCount >= 0 ==> h == hiddenNodeCount
    ensures hiddenNodeCount < 0 ==> h == 0
  {
    if hiddenNodeCount < 0 then 0 else hiddenNodeCount
  }

  /** The weights the constructor reads exist: row i < h of `hiddenWeights`
      has a column per input unit and bias, row k < classes of
      `outputWeights` a column per hidden unit and bias. Extra rows and
      columns are never read. */
  predicate WeightsCover(a: nat, h: nat, c: nat, hiddenWeights: seq<seq<real>>, outputWeights: seq<seq<real>>) {
    && |hiddenWeights| >= h
    && (forall i :: 0 <= i < h ==> |hiddenWeights[i]| >= a + 1)
    && |outputWeights| >= c
    && (forall k :: 0 <= k < c ==> |outputWeights[k]| >= h + 1)
  }

  /** The NNImpl constructor. The input and output layer sizes come from the
      first training instance; weight (i, j) of each layer is copied from the
      matching matrix cell. The source checks nothing: an empty training set
      or a matrix too small for the layers fails with an index error, which
      the preconditions exclude. */
  function Construct(
    trainingSet: seq<Instance>, hiddenNodeCount: int, learningRate: real, maxEpoch: int,
    hiddenWeights: seq<seq<real>>, outputWeights: seq<seq<real>>): (nn: NNImpl)
    requires |trainingSet| > 0
    requires WeightsCover(|trainingSet[0].attributes|, HiddenUnits(hiddenNodeCount),
                          |trainingSet[0].classValues|, hiddenWeights, outputWeights)
    ensures WellFormed(nn.net)
    ensures nn.net.attributeCount == |trainingSet[0].attributes|
    ensures nn.net.hiddenCount == HiddenUnits(hiddenNodeCount)
    ensures nn.net.classCount == |trainingSet[0].classValues|
    ensures forall i, j :: 0 <= i < nn.net.hiddenCount && 0 <= j <= nn.net.attributeCount ==>
              nn.net.hiddenWeights[i][j] == hiddenWeights[i][j]
    ensures forall k, j :: 0 <= k < nn.net.classCount && 0 <= j <= nn.net.hiddenCount ==>
              nn.net.outputWeights[k][j] == outputWeights[k][j]
    ensures nn.trainingSet == trainingSet && nn.learningRate == learningRate && nn.maxEpoch == maxEpoch
  {
    var a := |trainingSet[0].attributes|;
    var h := HiddenUnits(hiddenNodeCount);
    var c := |trainingSet[0].classValues|;
    var hw := seq(h, i requires 0 <= i < h => hiddenWeights[i][..a + 1]);
    var ow := seq(c, k requires 0 <= k < c => outputWeights[k][..h + 1]);
    NNImpl(Net(a, h, c, hw, ow), trainingSet, learningRate, maxEpoch)
  }
}
