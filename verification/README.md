# NNImpl: a one-hidden-layer sigmoid network, modelled in Dafny

This project models `NNImpl`, a fully connected feedforward neural network
with one hidden layer, sigmoid units, and online backpropagation training.
The model covers four parts:

- **Construction.** The constructor builds three ordered layers: attribute
  inputs plus a trailing bias, hidden units plus a trailing bias, and output
  units. Every non-bias unit above the input layer gets one weighted parent
  per unit of the layer below. Each weight is copied from a matrix cell by
  position.
- **Forward propagation.** Computes the hidden layer first, then the output
  layer.
- **Classification.** An argmax scan over the output activations.
- **Training.** One backpropagation step per instance: output deltas, then
  hidden deltas, then an additive update of every weight. This step runs for
  every instance of the training set, in order, for `maxEpoch` epochs.

The network's state is a `Network.Net`: the three layer sizes and two weight
matrices. Row `i` of `hiddenWeights` is hidden unit `i`'s parent list. Row `k`
of `outputWeights` is output unit `k`'s parent list, with the bias column
last. The source keeps the same state as a pointer graph of `Node` and
`NodeWeightPair` objects. `Topology.Wire` builds that graph from the matrices
and `Topology.Unwire` reads it back. The two are proved inverse, so the matrix
view loses nothing.

The sigmoid `1 / (1 + e^(-x))` is passed to every operation as a parameter
`g: real -> real`. Facts that depend on its range assume
`Activation.IsSquash(g)`, meaning 0 < g(x) < 1 for all x. Weights and
activations are Dafny `real`s.

Modules:

- `Activation`: the squashing predicate and g'.
- `Network`: instances, the state, and the constructor.
- `Topology`: the pointer graph and the parent search.
- `Propagation`: the forward pass, plus node-by-node evaluation of the graph.
- `Classification`: the argmax scan.
- `Backprop`: one training step and its properties.
- `Training`: the epoch loop. Its methods follow the source's loops, update
  the weights in place, and are proved equal to the functional definitions.

Points where the code's behaviour is easy to misread:

- **Argmax tie-break.** The scan compares with `>=`, so the last maximum
  wins: `[0.1, 0.5, 0.5, 0.1]` gives 2. The doc comment's own example,
  `[0.1, 0.5, 0.1, 0.5, 0.2]` giving 3, agrees with this.
- **Argmax start value.** The scan starts from a best value of -1, so
  outputs below -1 are never chosen. This cannot happen with sigmoid outputs.
- **Construction errors.** The constructor checks nothing. An empty training
  set fails with an index error at `trainingSet.get(0)` (NNImpl.java:35). A
  weight matrix with too few rows or columns fails with an index error at
  NNImpl.java:55 or NNImpl.java:73. `Network.Construct`'s preconditions
  exclude exactly those inputs, and the model reports no error.
- **Negative counts.** A negative `hiddenNodeCount` builds no hidden unit. A
  non-positive `maxEpoch` trains nothing.

## Model

| member | source | states |
|---|---|---|
| Activation.SigmoidDeriv | NNImpl.java:210-220 | for any g with range in (0,1), the derivative s(1-s) used for deltas lies in (0, 1/4] |
| Network.Construct | NNImpl.java:27-78 | input and output sizes come from the first instance; the hidden count is hiddenNodeCount (0 if negative); every weight (i, j) is the matrix cell (i, j), bias column included; the result is well formed; learning rate, epoch count and training set are kept |
| Topology.Wire | NNImpl.java:33-77 | the graph has a+1 input nodes, h+1 hidden nodes and c output nodes, with a bias last in the input and hidden layers and positional parent lists |
| Topology.UnwireWire | NNImpl.java:49-77 | reading the weights back off the wired graph gives the network's matrices |
| Topology.WireUnwire | NNImpl.java:49-77 | every graph of the constructor's shape is the wiring of the matrices read off it |
| Topology.ConstructWiring | NNImpl.java:35-77 | after construction, hidden node i's j-th parent is input j with weight hiddenWeights[i][j]; output node k's j-th parent is hidden j with weight outputWeights[k][j], j ranging over the bias column too; layer sizes are a+1, h+1, c with the biases last |
| Topology.TopologyBySizes | NNImpl.java:37-77 | two networks with the same layer sizes have graphs with the same nodes, kinds and parent order |
| Topology.FindWeight | NNImpl.java:157-163 | the search returns the weight of the first pair whose parent is the sought node, and nothing exactly when no pair names it |
| Topology.FindWeightPositional | NNImpl.java:155-164 | in a constructed graph, searching output unit k's parents for hidden unit j finds outputWeights[k][j] |
| Propagation.InputLayer | NNImpl.java:93-102 | input unit j outputs attribute j for j < a; the input bias outputs 1 |
| Propagation.HiddenLayer | NNImpl.java:193-199 | one activation per hidden unit plus the bias 1 last; each non-bias activation is in (0,1) for a squashing g |
| Propagation.OutputLayer | NNImpl.java:201-207 | one activation per output unit, each in (0,1) for a squashing g |
| Propagation.Forward | NNImpl.java:88-104 | after the forward pass the hidden bias is 1, the layer sizes are h+1 and c, and every other activation is in (0,1) for a squashing g |
| Propagation.NoHiddenUnitsIgnoreAttributes | NNImpl.java:93-102 | with no hidden unit the outputs do not depend on the instance's attributes |
| Propagation.ForwardMatchesGraph | NNImpl.java:188-209 | the matrix forward pass equals node-by-node evaluation of the pointer graph (inputs pass through, biases give 1, other nodes give g of the parent sum) |
| Classification.Scan | NNImpl.java:109-117 | from any loop state, the scan ends on the last index holding the maximum if some output reaches -1, and on 0 otherwise; it stays within the outputs |
| Classification.ArgMax | NNImpl.java:106-118 | the index is 0 for no outputs; otherwise it is within range and is the last maximum whenever some output is at least -1 |
| Classification.ArgMaxIsTheLastMax | NNImpl.java:109-117 | when some output reaches -1, an index is the last maximum if and only if it is the scan's result |
| Classification.ArgMaxExamples | NNImpl.java:82-84 | [0.1,0.5,0.2,0.1,0.1] gives 1, [0.1,0.5,0.1,0.5,0.2] gives 3, and the tie [0.1,0.5,0.5,0.1] gives 2 |
| Classification.Classify | NNImpl.java:88-118 | the class is 0 when there is no output unit; for sigmoid outputs it is the last output unit holding the maximal activation |
| Classification.ClassifyIsLastMax | NNImpl.java:88-118 | for sigmoid outputs the class is the last output unit with maximal activation, and 0 when there is no output unit |
| Backprop.Step | NNImpl.java:137-183 | a step keeps the layer sizes and the well-formedness of both matrices: training never changes node counts or parent lists |
| Backprop.OutputDeltaForm | NNImpl.java:143-147 | output delta k equals o(1-o)(t_k - o) for the forward activation o of unit k, because recomputing g from the current parents gives back o |
| Backprop.HiddenDeltaForm | NNImpl.java:149-167 | hidden delta j equals h(1-h) times the sum over k of the pre-update outputWeights[k][j] times output delta k; only non-bias hidden units get a delta |
| Backprop.OutputDeltaSign | NNImpl.java:146 | for a squashing g, an output delta is positive if and only if the target exceeds the output, negative if and only if the target is below it, and never zero |
| Backprop.StepUpdateRule | NNImpl.java:169-183 | every weight changes by exactly lr times the source's forward output times the owning unit's delta, with all deltas taken from before the step |
| Backprop.StepUpdateRuleOnGraph | NNImpl.java:177-183 | on the graph, each parent pair of an output unit changes its weight by lr times the output of the node the pair names, as the graph evaluates it before the step, times the unit's delta |
| Backprop.StepBiasWeights | NNImpl.java:169-183 | bias weights move by exactly lr times the owning unit's delta, since a bias outputs 1 |
| Backprop.OutputBiasMovesTowardTarget | NNImpl.java:177-183 | with lr > 0 and a squashing g, a step raises an output unit's bias weight if and only if the unit's target exceeds its output |
| Backprop.StepLocality | NNImpl.java:169-183 | a unit with zero delta keeps its incoming weights, and a zero learning rate leaves the network unchanged |
| Backprop.StepKeepsTopology | NNImpl.java:169-183 | the graph after a step has the same nodes, kinds and parent order as before |
| Backprop.SearchSumIsColumnSum | NNImpl.java:155-165 | the source's hidden-delta sum, found by searching each output unit's parents for the hidden unit, equals the matrix column sum |
| Training.Steps | NNImpl.java:135-184 | stepping through a sequence of instances keeps the layer sizes and well-formedness |
| Training.RepeatLength | NNImpl.java:132-137 | training runs exactly maxEpoch times the training-set size steps, and none when maxEpoch <= 0 |
| Training.RepeatMembers | NNImpl.java:135-137 | every instance trained on comes from the training set |
| Training.StepsAppend | NNImpl.java:132-137 | stepping through a concatenation is stepping through the first part and then the second |
| Training.NoEpochsNoChange | NNImpl.java:132 | with maxEpoch <= 0 training leaves every weight as constructed |
| Training.EpochUnfold | NNImpl.java:132-137 | training for e > 0 epochs is training for e-1 epochs followed by one pass over the training set in order |
| Training.TrainKeepsTopology | NNImpl.java:128-186 | training leaves the graph with the same nodes, kinds and parent order as the network it started from |
| Training.CalculateSigmoidDeriv | NNImpl.java:210-220 | the loop sums parent output times weight over the parent list and returns g'(sum), which is in (0, 1/4] for a squashing g |
| Training.ComputeOutputDeltas | NNImpl.java:142-147 | the output-delta loop produces exactly the output deltas of the step |
| Training.ComputeHiddenDeltas | NNImpl.java:149-167 | the hidden-delta loop, reading output weights before any update, produces exactly the hidden deltas of the step |
| Training.UpdateHiddenWeights | NNImpl.java:169-175 | the in-place update of the input-to-hidden weights gives the step's new hidden matrix: no update reads another's result |
| Training.UpdateOutputWeights | NNImpl.java:177-183 | the in-place update of the hidden-to-output weights gives the step's new output matrix |
| Training.TrainStep | NNImpl.java:137-183 | the source's sequence of forward pass, output deltas, hidden deltas and the two in-place updates computes exactly one step |
| Training.TrainEpoch | NNImpl.java:135-184 | the instance loop applies one step per instance in training-set order |
| Training.Train | NNImpl.java:128-186 | the epoch loop computes the network after maxEpoch passes over the training set |

## Left out

- `Node`, `NodeWeightPair` and `Instance` are not part of this model. Their
  behaviour is stated as assumptions in `Propagation.NodeOutput`: an input
  node passes its input through, a bias node outputs 1, and any other node
  outputs g of the sum of parent output times weight. `getOutput` is taken
  to return the value stored by the last `calculateOutput`, not a
  recomputed one.
- IEEE doubles, `Math.pow(Math.E, ...)` and the sigmoid's saturation are
  left out. Dafny reals have no exponential, so the sigmoid is the parameter
  `g`. Its range is assumed through `IsSquash` wherever needed.
- Convergence, error decrease and other numeric training outcomes are not
  modelled. They depend on the exact sigmoid and on floating point.
- Input setting is left out in its source form. The source sets the inputs
  through each hidden unit's parent list. The model copies the attributes
  directly: `Propagation.InputLayer` for the matrices, `Propagation.EvalGraph`
  for the graph. With no hidden unit the source sets no input.
  `NoHiddenUnitsIgnoreAttributes` shows that the outputs then do not depend
  on the inputs.
- Dimension checks are left out; they are preconditions. The source performs
  none and fails with an index error. The model's preconditions are:
  - a non-empty training set;
  - matrices covering the layers;
  - at least `attributeCount` attributes when there are hidden units;
  - at least `classCount` class values when training.
- Object identity and aliasing are left out. Nodes are named by their
  position in their layer, so the reference test in the hidden-delta search
  becomes a position test.
- The training set, learning rate and epoch count are taken as values. The
  source holds the training set by reference and could see it changed
  between calls; the model cannot.
- `Classification.Classify`'s repeatability is not stated as a lemma. It is
  a pure function, so repeated classification without training always gives
  the same index.
- `Training.RepeatLength` gives only the number of steps. The order of the
  steps comes from `Training.EpochUnfold` together with `Training.Steps`,
  not from a formula for each position.
