/** The squashing function of every hidden and output unit.

    The network uses the logistic sigmoid 1 / (1 + e^(-net)). Dafny's reals have
    no exponential, so every operation takes the sigmoid as a parameter `g`, and
    the facts that depend on its range assume `IsSquash(g)`: 0 < g(x) < 1 for
    every x, which the logistic function satisfies.
 */
module Activation {

  /** `g` maps every net input strictly into the open unit interval. */
  ghost predicate IsSquash(g: real -> real) {
    forall x :: 0.0 < g(x) < 1.0
  }

  /** The derivative of the sigmoid at `net`, written as s * (1 - s) with
      s = g(net), the form calculateSigmoidDeriv uses. For a squashing `g` it
      lies in (0, 1/4]. */
  function SigmoidDeriv(g: real -> real, net: real): (d: real)
    ensures IsSquash(g) ==> 0.0 < d <= 0.25
  {
    var s := g(net);
    assert IsSquash(g) ==> 0.0 < s < 1.0;
    assert (s - 0.5) * (s - 0.5) >= 0.0;
    assert 0.0 < s < 1.0 ==> s * (1.0 - s) > 0.0 by {
      if 0.0 < s < 1.0 {
        assert 1.0 - s > 0.0;
      }
    }
    s * (1.0 - s)
  }
}
