/** Classification by argmax (the scan at the end of
    calculateOutputForInstance).

    The scan starts from best = -1 and index 0 and takes every output that is
    greater than or EQUAL to the best so far, so among equal maxima the LAST
    one wins. Outputs below -1 are never taken.
 */
module Classification {
  import opened Activation
  import opened Network
  import opened Propagation

  /** `k` holds the maximum of `outs`, and every later output is strictly
      smaller. */
  predicate IsLastMax(outs: seq<real>, k: nat) {
    && k < |outs|
    && (forall j :: 0 <= j < |outs| ==> outs[j] <= outs[k])
    && (forall j :: k < j < |outs| ==> outs[j] < outs[k])
  }

  /** Some output reaches the scan's starting bound -1. */
  predicate Reachable(outs: seq<real>, n: nat)
    requires n <= |outs|
  {
    exists j :: 0 <= j < n && outs[j] >= -1.0
  }

  /** What the scan's variables hold after the first `i` outputs. */
  predicate ScanState(outs: seq<real>, i: nat, best: real, index: nat) {
    && i <= |outs|
    && best >= -1.0
    && (forall j :: 0 <= j < i ==> outs[j] <= best)
    && (forall j :: index < j < i ==> outs[j] < best)
    && (if Reachable(outs, i) then index < i && outs[index] == best else index == 0 && best == -1.0)
  }

  /** The result of the scan over the whole sequence. */
  predicate ScanResult(outs: seq<real>, r: nat) {
    && (|outs| == 0 ==> r == 0)
    && (|outs| > 0 ==> r < |outs|)
    && (Reachable(outs, |outs|) ==> IsLastMax(outs, r))
    && (!Reachable(outs, |outs|) ==> r == 0)
  }

  /** The loop over the remaining outputs from position i. */
  function Scan(outs: seq<real>, i: nat, best: real, index: nat): (r: nat)
    requires ScanState(outs, i, best, index)
    ensures ScanResult(outs, r)
    decreases |outs| - i
  {
    if i == |outs| then index
    else if outs[i] >= best then
      assert Reachable(outs, i + 1);
      Scan(outs, i + 1, outs[i], i)
    else
      assert Reachable(outs, i + 1) <==> Reachable(outs, i);
      Scan(outs, i + 1, best, index)
  }

  function ArgMax(outs: seq<real>): (index: nat)
    ensures ScanResult(outs, index)
  {
    Scan(outs, 0, -1.0, 0)
  }

  /** When some output reaches -1, ArgMax is exactly the last maximum: it
      is one, and no other index is. */
  lemma ArgMaxIsTheLastMax(outs: seq<real>, k: nat)
    requires Reachable(outs, |outs|)
    ensures IsLastMax(outs, k) <==> k == ArgMax(outs)
  {
  }

  /** The examples of the source's doc comment, and a tie that the scan
      resolves to the later index. */
  lemma ArgMaxExamples()
    ensures ArgMax([0.1, 0.5, 0.2, 0.1, 0.1]) == 1
    ensures ArgMax([0.1, 0.5, 0.1, 0.5, 0.2]) == 3
    ensures ArgMax([0.1, 0.5, 0.5, 0.1]) == 2
  {
    var s1 := [0.1, 0.5, 0.2, 0.1, 0.1];
    assert Reachable(s1, |s1|) by { assert s1[0] >= -1.0; }
    ArgMaxIsTheLastMax(s1, 1);
    var s2 := [0.1, 0.5, 0.1, 0.5, 0.2];
    assert Reachable(s2, |s2|) by { assert s2[0] >= -1.0; }
    ArgMaxIsTheLastMax(s2, 3);
    var s3 := [0.1, 0.5, 0.5, 0.1];
    assert Reachable(s3, |s3|) by { assert s3[0] >= -1.0; }
    ArgMaxIsTheLastMax(s3, 2);
  }

  /** calculateOutputForInstance: forward pass, then the argmax scan. With
      no output unit the class is 0; with sigmoid outputs it is the last
      output unit holding the maximum activation. */
  function Classify(net: Net, g: real -> real, inst: Instance): (index: nat)
    requires WellFormed(net) && AttributesFit(net, inst)
    ensures net.classCount == 0 ==> index == 0
    ensures IsSquash(g) && net.classCount > 0 ==> IsLastMax(Forward(net, g, inst).outputs, index)
  {
    var outs := Forward(net, g, inst).outputs;
    assert IsSquash(g) && net.classCount > 0 ==> Reachable(outs, |outs|) by {
      if IsSquash(g) && net.classCount > 0 {
        assert outs[0] >= -1.0;
      }
    }
    ArgMax(outs)
  }

  /** With sigmoid outputs every output is above -1, so the class is the
      last output unit holding the maximum activation, and 0 when there is
      no output unit. */
  lemma ClassifyIsLastMax(net: Net, g: real -> real, inst: Instance)
    requires IsSquash(g)
    requires WellFormed(net) && AttributesFit(net, inst)
    ensures net.classCount == 0 ==> Classify(net, g, inst) == 0
    ensures net.classCount > 0 ==> IsLastMax(Forward(net, g, inst).outputs, Classify(net, g, inst))
  {
    var outs := Forward(net, g, inst).outputs;
    if net.classCount > 0 {
      assert outs[0] > 0.0;
      assert Reachable(outs, |outs|);
    }
  }
}
