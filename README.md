# Feed-forward neural network core, modelled in Dafny

This project models the numeric core of a small feed-forward neural
network (`src/Neural.cs`): neurons with a weight list, a bias and a
Leaky-ReLU activation; layers of neurons that share one input vector; and a
network built from a list of layer sizes. The network lists its neurons
layer by layer and runs forward passes that chain the layer outputs and
bump a public pass counter.

Two modules:

- `NeuralSpec` (`neural_spec.dfy`) holds the value-level meaning. It covers:
  - the weighted sum `Dot`, `LeakyReLU` and one neuron's activation `Fire`;
  - a layer's activation `LayerFire` and the forward pass `Forward`;
  - the shape a network built from sizes has (`Shaped`);
  - layer-major flattening (`Flatten`);
  - the C# `int` pass counter with its 32-bit wrap-around (`Inc32`,
    `Wrap32`, `IncTimes`).
- `Neural` (`neural.dfy`) holds the three classes `Neuron`, `Layer` and
  `NeuralNetwork`, with their mutable state. That state is a neuron's
  `Output` and the network's `iter`. Weights, bias, a layer's neuron list and
  a network's layer list are get-only and never mutated, so they are
  `const`. Each constructor and method is proved against the `NeuralSpec`
  functions, and the properties of those functions are proved as lemmas.

Exceptions are modelled as `Result.Err(ArgumentException)`. `System.Random`
is replaced by the values `NextDouble` would return (`NeuronDraws`), which
are required to lie in [0, 1). The constructors compute `2d - 1` and
`2d - 1 + 0.1` from them, as the source does, so the weight and bias ranges
are proved rather than assumed. The network keeps two ghost fields: its
sizes (`Sizes`) and the layer each neuron belongs to (`Owner`). These state
that no neuron sits in two layers, so activating one layer leaves the
recorded outputs of the others alone.

Three behaviours of the code are modelled as written:

- The network constructor does not validate its sizes. Fewer than two sizes
  give no layers, and a negative size counts as zero, as the `for` loops
  do.
- `iter++` runs before the first layer is activated, so a pass that throws
  still advances the counter. `FeedForwardWithLayerOutputs` ensures
  `iter == Inc32(old(iter))` on both outcomes.
- `iter` is a C# `int`. It wraps from 2147483647 to -2147483648 rather than
  growing without bound.

## Model

| member | source | states |
|---|---|---|
| NeuralSpec.WeightFromDraw | src/Neural.cs:16 | a weight `NextDouble()*2-1` drawn from [0,1) lies in [-1, 1) |
| NeuralSpec.BiasFromDraw | src/Neural.cs:18 | the bias `NextDouble()*2-1+0.1` lies in [-0.9, 1.1) |
| NeuralSpec.Drawn | src/Neural.cs:9-19 | a neuron built from in-range draws has one weight per weight draw, every weight in [-1, 1) and its bias in [-0.9, 1.1) |
| NeuralSpec.DrawnLayer | src/Neural.cs:46-52 | a layer built from draws has one neuron per draw entry |
| NeuralSpec.DrawnNetwork | src/Neural.cs:64-70 | a network built from draws has one layer per draw list |
| NeuralSpec.LayerDrawsFit | src/Neural.cs:68-69 | the draws for layer i fit a layer of `sizes[i+1]` neurons of width `sizes[i]`, and the network's layer i is that layer |
| NeuralSpec.DrawnNetworkShaped | src/Neural.cs:64-70 | a network built from sizes has `max(0, |sizes|-1)` layers, layer i has `max(0, sizes[i+1])` neurons of width `max(0, sizes[i])`, and every weight and bias is in range |
| NeuralSpec.Dot | src/Neural.cs:28-31 | the weighted sum of the inputs, the products added from the first index on as the loop adds them |
| NeuralSpec.DotFront | src/Neural.cs:28-31 | over exact reals the weighted sum is also the first product plus the weighted sum of the rest, so the summation order does not matter |
| NeuralSpec.LeakyReLU | src/Neural.cs:38 | the result is positive, zero or negative exactly when the argument is; its magnitude never exceeds the argument's; it is never below the argument |
| NeuralSpec.Fire | src/Neural.cs:23-36 | a neuron's activation throws exactly when the input count differs from the weight count |
| NeuralSpec.LayerFire | src/Neural.cs:54-55 | a layer's activation: every neuron fired on the same inputs in neuron order, the first neuron that throws making the layer throw; on success one output per neuron |
| NeuralSpec.LayerFireOk | src/Neural.cs:54-55 | a layer succeeds iff every neuron does, and then its output has one entry per neuron, the j-th being neuron j's activation |
| NeuralSpec.LayerFireUniform | src/Neural.cs:54-55 | in a layer of one width, the activation throws iff the layer has a neuron and the input has another length; otherwise the output has one entry per neuron |
| NeuralSpec.Forward | src/Neural.cs:82-95 | a successful forward pass returns one output list per layer |
| NeuralSpec.ForwardStep | src/Neural.cs:88-92 | a successful pass over layers 0..k-1, followed by layer k's activation of the last output, is the pass over layers 0..k |
| NeuralSpec.ForwardLast | src/Neural.cs:88-92 | the pass over all layers is the pass over all but the last, extended by the last layer's activation |
| NeuralSpec.ForwardIsChain | src/Neural.cs:88-92 | the result of a successful pass chains: entry 0 is the first layer's activation of the inputs, and entry k is layer k's activation of entry k-1 |
| NeuralSpec.ChainsPrefix | src/Neural.cs:88-92 | a prefix of a chain of outputs is a chain of the same prefix of the layers |
| NeuralSpec.ChainIsForward | src/Neural.cs:88-92 | every chain of layer outputs is what the forward pass returns |
| NeuralSpec.ForwardChains | src/Neural.cs:82-95 | the pass returns `outs` iff `outs` chains (both directions) |
| NeuralSpec.Shaped | src/Neural.cs:64-70 | the layers the network constructor builds from a size list: one per adjacent pair, layer k of `max(0, sizes[k+1])` neurons of width `max(0, sizes[k])` |
| NeuralSpec.ShapedLinks | src/Neural.cs:68-69 | in a built network, layer k's neuron count is the width of every neuron of layer k+1 |
| NeuralSpec.ForwardOnShaped | src/Neural.cs:82-95 | on a built network the pass throws iff there are at least two sizes, `sizes[1] > 0` and the input length is not `max(0, sizes[0])`; otherwise layer k's output has `max(0, sizes[k+1])` entries |
| NeuralSpec.Flatten | src/Neural.cs:72-80 | the lists concatenated in order, as repeated `AddRange` builds them; the result is as long as the lists' total length |
| NeuralSpec.FlattenIndex | src/Neural.cs:72-80 | element j of list k sits at the sum of the lengths of the lists before k, plus j (layer-major order) |
| NeuralSpec.FlattenMember | src/Neural.cs:72-80 | an element is in the concatenation iff it is in one of the lists |
| NeuralSpec.ShapedTotal | src/Neural.cs:64-70 | a built network has as many neurons as the sum of all its sizes but the first (negatives as zero) |
| NeuralSpec.Inc32 | src/Neural.cs:86 | `iter++` on an `int` stays in range and adds one below the maximum |
| NeuralSpec.Wrap32 | src/Neural.cs:86 | the wrapped value is an `int` congruent to its argument modulo 2^32 |
| NeuralSpec.IncTimes | src/Neural.cs:86 | the counter after n increments stays an `int` |
| NeuralSpec.WrapInRange | src/Neural.cs:61 | an `int` wraps to itself |
| NeuralSpec.Inc32Wraps | src/Neural.cs:86 | `iter++` is the successor wrapped to 32 bits |
| NeuralSpec.WrapThenSucc | src/Neural.cs:86 | wrapping before or after adding one gives the same counter |
| NeuralSpec.IncTimesWraps | src/Neural.cs:86 | n passes advance the counter by n modulo 2^32 |
| NeuralSpec.IncTimesExact | src/Neural.cs:86 | short of overflow, n passes advance the counter by exactly n |
| Neural.Neuron.constructor | src/Neural.cs:9-19 | a new neuron has `max(0, inputCount)` weights, each in [-1, 1), a bias in [-0.9, 1.1), the parameters derived from its draws, and `Output` 0 |
| Neural.Neuron.Activate | src/Neural.cs:23-36 | throws iff the input count differs from the weight count, leaving `Output` unchanged; otherwise returns LeakyReLU of the weighted sum plus bias and stores it in `Output` |
| Neural.Layer.constructor | src/Neural.cs:46-52 | a new layer has `max(0, neuronCount)` fresh, distinct neurons of width `max(0, inputsPerNeuron)`, built from the draws in order, none of them fired yet |
| Neural.Layer.Activate | src/Neural.cs:54-55 | returns the layer activation of its neurons; throws iff the layer has a neuron and the input width differs, changing no neuron then; on success every neuron's `Output` is its entry of the result |
| Neural.NeuralNetwork.ParamsShaped | src/Neural.cs:64-70 | a network's parameters have the shape its sizes prescribe |
| Neural.NeuralNetwork.constructor | src/Neural.cs:64-70 | builds `max(0, |sizes|-1)` layers from the draws, layer i of `sizes[i+1]` neurons of width `sizes[i]`, all layers and neurons fresh, none fired, with `iter` 0 and no validation of the sizes |
| Neural.NeuralNetwork.GetAllNeurons | src/Neural.cs:72-80 | returns the layer-major concatenation of the layers' neuron lists, as many as the sizes after the first add up to, changing nothing |
| Neural.NeuralNetwork.LayerCounts | src/Neural.cs:72-80 | the layers' neuron lists hold as many neurons in total as the sizes after the first add up to |
| Neural.NeuralNetwork.FeedForwardWithLayerOutputs | src/Neural.cs:82-95 | advances `iter` by one `int` increment on every call; returns the forward pass of the layers; on success layer k's neurons hold entry k of the result, for every k; on a throw no neuron changes |
| Neural.NeuralNetwork.PassOutcome | src/Neural.cs:82-95 | a pass throws iff the first layer has a neuron and the input length is not its width; otherwise it returns one list per layer, layer k's of `Sizes[k+1]` entries |
| Neural.NeuralNetwork.OnlyFirstLayerRejects | src/Neural.cs:88-90 | a layer after the first is always fed its own width, so only the first layer can throw, and then the whole pass throws |
| Neural.NeuralNetwork.OutputsUpTo | src/Neural.cs:88-92 | the last outputs of the neurons of the first k layers, one list per layer |
| Neural.NeuralNetwork.OutputsUpToIndex | src/Neural.cs:88-92 | entry k of the recorded outputs is layer k's neurons' outputs |
| Neural.NeuralNetwork.AllOutputs | src/Neural.cs:88-92 | the last outputs of every layer's neurons, one list per layer |
| Neural.NeuralNetwork.LayerAdvanced | src/Neural.cs:90-91 | activating layer k leaves the earlier layers' outputs as they were and appends layer k's new outputs |
| Neural.NeuralNetwork.PrefixUnchanged | src/Neural.cs:90-91 | the outputs of the first m layers change only if one of their own neurons changes |
| Neural.ParamsOfAppend | src/Neural.cs:69 | appending a layer appends its parameters |
| Neural.LayerCountsOf | src/Neural.cs:68-69 | layers whose parameters have the prescribed shape have the prescribed neuron counts |
| Neural.SameTotal | src/Neural.cs:76-77 | lists of lists with pairwise equal lengths have equal total length |

## Left out

- `System.Random` (src/Neural.cs:11, 16, 18) is a foreign call. Its results are passed in as `NeuronDraws`, each required to lie in [0, 1), as `NextDouble` promises.
- `Neuron.ToString` (src/Neural.cs:21) is culture-dependent `double` formatting for display only.
- `double` arithmetic is modelled over `real`. IEEE-754 rounding, overflow to infinity and NaN are not modelled.
- The C# `List` objects are modelled as immutable sequences. The source copies each layer's output (`new List<double>(outputs)`), so the caller never aliases a layer's list; values have the same effect. The model does not show that a caller could mutate the `List` objects it gets back from `Weights`, `Neurons`, `Layers` or `GetAllNeurons`.
- The user interface (src/MainWindow.xaml.cs) is not part of this model.
- Neural.Layer.Activate: on an input of the wrong width the LINQ `select` would stop at the first neuron and throw. The method promises that no neuron changes only under its validity invariant, where every neuron has the same width. So neuron 0 is the one that throws. A layer with neurons of mixed widths cannot be built by the source's constructors and is not modelled.
- Neural.NeuralNetwork.constructor: `Owner` is proved to map every neuron of layer k to k. The model does not state that it holds no other keys, because no operation needs that.
