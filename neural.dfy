/** The three classes of src/Neural.cs. Weights, bias, the neuron list of a
    layer and the layer list of a network are fixed at construction (C#
    get-only properties that nothing mutates), so they are `const` here; the
    state that calls change is a neuron's `Output` and the network's `iter`
    counter. Each method is proved against the functions of NeuralSpec. */
module Neural {
  import opened NeuralSpec

  class Neuron {
    const Weights: seq<real>
    const Bias: real
    /** The activation computed by the last successful call to Activate. */
    var Output: real

    /** The neuron's weights and bias as a value. */
    function Params(): NeuronParams
    {
      NeuronParams(Weights, Bias)
    }

    /** `new Neuron(inputCount)`, with the `NextDouble` results it would draw
        passed in as `draws`. */
    constructor (inputCount: int, draws: NeuronDraws)
      requires |draws.weightDraws| == LoopCount(inputCount) && DrawsInRange(draws)
      ensures Params() == Drawn(draws)
      ensures |Weights| == LoopCount(inputCount)
      ensures forall i :: 0 <= i < |Weights| ==> -1.0 <= Weights[i] < 1.0
      ensures -0.9 <= Bias < 1.1
      ensures Output == 0.0
    {
      var weights: seq<real> := [];
      var i := 0;
      while i < inputCount
        invariant 0 <= i <= LoopCount(inputCount)
        invariant |weights| == i
        invariant forall k :: 0 <= k < i ==> weights[k] == WeightFromDraw(draws.weightDraws[k])
      {
        weights := weights + [WeightFromDraw(draws.weightDraws[i])];
        i := i + 1;
      }
      Weights := weights;
      Bias := BiasFromDraw(draws.biasDraw);
      Output := 0.0;
    }

    /** Weighted sum of the inputs plus the bias through Leaky-ReLU; throws
        before touching `Output` when the input count differs from the
        weight count. */
    method Activate(inputs: seq<real>) returns (r: Result<real>)
      modifies this`Output
      ensures r == Fire(Params(), inputs)
      ensures r.Err? <==> |inputs| != |Weights|
      ensures Output == if r.Ok? then r.value else old(Output)
    {
      if |inputs| != |Weights| {
        return Err(ArgumentException);
      }
      var sum := 0.0;
      for i := 0 to |inputs|
        invariant sum == Dot(inputs[..i], Weights[..i])
      {
        assert inputs[..i + 1][..i] == inputs[..i] && Weights[..i + 1][..i] == Weights[..i];
        sum := sum + inputs[i] * Weights[i];
      }
      assert inputs[..|inputs|] == inputs && Weights[..|Weights|] == Weights;
      sum := sum + Bias;
      Output := LeakyReLU(sum);
      r := Ok(Output);
    }
  }

  class Layer {
    const Neurons: seq<Neuron>
    /** The weight count every neuron of the layer was built with. */
    ghost const InputWidth: nat

    /** All neurons share the layer's width and are distinct objects. */
    ghost predicate Valid()
    {
      && (forall j :: 0 <= j < |Neurons| ==> |Neurons[j].Weights| == InputWidth)
      && (forall i, j :: 0 <= i < j < |Neurons| ==> Neurons[i] != Neurons[j])
    }

    /** The layer's neurons as a set. */
    ghost function Repr(): set<Neuron>
    {
      set n | n in Neurons
    }

    /** The parameters of the neurons, in order. */
    function Params(): (ps: seq<NeuronParams>)
      ensures |ps| == |Neurons|
    {
      seq(|Neurons|, j requires 0 <= j < |Neurons| => Neurons[j].Params())
    }

    /** The last outputs of the neurons, in order. */
    function Outputs(): (os: seq<real>)
      reads Neurons
      ensures |os| == |Neurons|
    {
      seq(|Neurons|, j requires 0 <= j < |Neurons| reads Neurons => Neurons[j].Output)
    }

    /** No neuron of the layer has fired yet. */
    ghost predicate AtRest()
      reads Neurons
    {
      forall j :: 0 <= j < |Neurons| ==> Neurons[j].Output == 0.0
    }

    /** `new Layer(neuronCount, inputsPerNeuron)`: one fresh neuron per
        draw entry, appended in order. */
    constructor (neuronCount: int, inputsPerNeuron: int, draws: seq<NeuronDraws>)
      requires |draws| == LoopCount(neuronCount)
      requires forall j :: 0 <= j < |draws| ==> |draws[j].weightDraws| == LoopCount(inputsPerNeuron)
      requires forall j :: 0 <= j < |draws| ==> DrawsInRange(draws[j])
      ensures Valid() && fresh(Repr())
      ensures |Neurons| == LoopCount(neuronCount) && InputWidth == LoopCount(inputsPerNeuron)
      ensures Params() == DrawnLayer(draws)
      ensures AtRest()
    {
      var neurons: seq<Neuron> := [];
      var i := 0;
      while i < neuronCount
        invariant 0 <= i <= LoopCount(neuronCount)
        invariant |neurons| == i
        invariant forall j :: 0 <= j < i ==> neurons[j].Params() == Drawn(draws[j])
        invariant forall j :: 0 <= j < i ==> fresh(neurons[j]) && neurons[j].Output == 0.0
        invariant forall a, b :: 0 <= a < b < i ==> neurons[a] != neurons[b]
      {
        var n := new Neuron(inputsPerNeuron, draws[i]);
        neurons := neurons + [n];
        i := i + 1;
      }
      Neurons := neurons;
      InputWidth := LoopCount(inputsPerNeuron);
    }

    /** Every neuron activated on the same inputs, outputs collected in
        neuron order. */
    method Activate(inputs: seq<real>) returns (r: Result<seq<real>>)
      requires Valid()
      modifies Neurons`Output
      ensures r == LayerFire(Params(), inputs)
      ensures r.Err? <==> |Neurons| > 0 && |inputs| != InputWidth
      ensures r.Ok? ==> Outputs() == r.value
      ensures r.Err? ==> unchanged(Neurons)
    {
      ghost var ps := Params();
      assert SameWidth(ps, InputWidth);
      LayerFireUniform(ps, InputWidth, inputs);
      var outs: seq<real> := [];
      for j := 0 to |Neurons|
        invariant LayerFire(ps[..j], inputs) == Ok(outs)
        invariant |outs| == j
        invariant j > 0 ==> |inputs| == InputWidth
        invariant forall k :: 0 <= k < j ==> Neurons[k].Output == outs[k]
        invariant j == 0 ==> unchanged(Neurons)
      {
        var v := Neurons[j].Activate(inputs);
        if v.Err? {
          assert ps[j] == Neurons[j].Params();
          assert j == 0;
          return Err(v.error);
        }
        assert ps[j] == Neurons[j].Params();
        assert ps[..j + 1][..j] == ps[..j];
        outs := outs + [v.value];
      }
      assert ps[..|Neurons|] == ps;
      assert Outputs() == outs;
      r := Ok(outs);
    }
  }

  class NeuralNetwork {
    const Layers: seq<Layer>
    /** The public pass counter, a C# `int`. */
    var iter: int
    /** The layer sizes the network was built from (the source does not keep
        them; they state the shape invariant). */
    ghost const Sizes: seq<int>
    /** The index of the layer each neuron of the network belongs to. */
    ghost const Owner: map<Neuron, nat>

    /** Every neuron of the network: what a forward pass may update. */
    ghost function Repr(): set<Neuron>
    {
      Owner.Keys
    }

    /** Each layer's neurons, layer by layer. */
    function LayerNeurons(): (nss: seq<seq<Neuron>>)
      ensures |nss| == |Layers|
    {
      seq(|Layers|, k requires 0 <= k < |Layers| => Layers[k].Neurons)
    }

    /** The parameters of every neuron, layer by layer. */
    function Params(): (pss: seq<seq<NeuronParams>>)
      ensures |pss| == |Layers|
    {
      ParamsOf(Layers)
    }

    /** The last outputs of the first `k` layers, in order. */
    ghost function OutputsUpTo(k: nat): (os: seq<seq<real>>)
      requires WellFormed() && k <= |Layers|
      reads Repr()
      ensures |os| == k
    {
      if k == 0 then [] else OutputsUpTo(k - 1) + [Layers[k - 1].Outputs()]
    }

    /** Entry k of the recorded outputs is layer k's outputs. */
    lemma {:induction false} OutputsUpToIndex(m: nat, k: nat)
      requires WellFormed() && k < m <= |Layers|
      ensures OutputsUpTo(m)[k] == Layers[k].Outputs()
    {
      if k < m - 1 {
        OutputsUpToIndex(m - 1, k);
      }
    }

    /** The last outputs of every layer, in order. */
    ghost function AllOutputs(): (os: seq<seq<real>>)
      requires WellFormed()
      reads Repr()
      ensures |os| == |Layers|
    {
      OutputsUpTo(|Layers|)
    }

    /** The shape invariant: the layers are those built from `Sizes`, every
        layer is valid, and each neuron is owned by the one layer it sits
        in, so no neuron belongs to two layers. It depends on constant
        fields only, so no call can break it. */
    ghost predicate WellFormed()
    {
      && |Layers| == LoopCount(|Sizes| - 1)
      && (forall k :: 0 <= k < |Layers| ==>
            && Layers[k].Valid()
            && |Layers[k].Neurons| == LoopCount(Sizes[k + 1])
            && Layers[k].InputWidth == LoopCount(Sizes[k]))
      && Owns(Owner, Layers)
    }

    /** The parameters of a well-formed network have the shape its sizes
        prescribe. */
    lemma ParamsShaped()
      requires WellFormed()
      ensures Shaped(Params(), Sizes)
    {
      forall k | 0 <= k < |Layers|
        ensures |Params()[k]| == LoopCount(Sizes[k + 1]) && SameWidth(Params()[k], LoopCount(Sizes[k]))
      {
        assert Params()[k] == Layers[k].Params();
      }
    }

    /** The object invariant: well-formed, and the counter is a C# `int`. */
    ghost predicate Valid()
      reads this
    {
      WellFormed() && IsInt32(iter)
    }

    /** `new NeuralNetwork(layersStructure)`: one layer per adjacent pair of
        sizes, with no validation of the sizes. */
    constructor (layersStructure: seq<int>, draws: seq<seq<NeuronDraws>>)
      requires NetworkDraws(draws, layersStructure)
      ensures Valid() && Sizes == layersStructure && iter == 0
      ensures |Layers| == LoopCount(|layersStructure| - 1)
      ensures Params() == DrawnNetwork(draws)
      ensures fresh(Repr())
      ensures forall k :: 0 <= k < |Layers| ==> fresh(Layers[k]) && Layers[k].AtRest()
    {
      var layers: seq<Layer> := [];
      ghost var owner: map<Neuron, nat> := map[];
      ghost var expected := DrawnNetwork(draws);
      var i: nat := 0;
      while i < |layersStructure| - 1
        invariant i <= |expected| && |layers| == i
        invariant ParamsOf(layers) == expected[..i]
        invariant forall k :: 0 <= k < i ==>
                    && layers[k].Valid()
                    && layers[k].InputWidth == LoopCount(layersStructure[k])
                    && layers[k].AtRest()
                    && fresh(layers[k])
        invariant Owns(owner, layers)
        invariant fresh(owner.Keys)
      {
        LayerDrawsFit(draws, layersStructure, i);
        var layer := new Layer(layersStructure[i + 1], layersStructure[i], draws[i]);
        ParamsOfAppend(layers, layer);
        assert expected[..i + 1] == expected[..i] + [expected[i]];
        layers := layers + [layer];
        owner := owner + map n | n in layer.Neurons :: i;
        i := i + 1;
      }
      assert expected[..i] == expected;
      DrawnNetworkShaped(draws, layersStructure);
      LayerCountsOf(layers, layersStructure);
      Layers := layers;
      Owner := owner;
      Sizes := layersStructure;
      iter := 0;
    }

    /** Every neuron, layer-major, as repeated `AddRange` collects them. */
    method GetAllNeurons() returns (all: seq<Neuron>)
      requires Valid()
      ensures all == Flatten(LayerNeurons())
      ensures |all| == NeuronCount(Sizes)
    {
      all := [];
      for k := 0 to |Layers|
        invariant all == Flatten(LayerNeurons()[..k])
      {
        assert LayerNeurons()[..k + 1][..k] == LayerNeurons()[..k];
        all := all + Layers[k].Neurons;
      }
      assert LayerNeurons()[..|Layers|] == LayerNeurons();
      LayerCounts();
    }

    /** A valid network has one neuron per unit of its sizes after the first. */
    lemma LayerCounts()
      requires WellFormed()
      ensures TotalLength(LayerNeurons()) == NeuronCount(Sizes)
    {
      ParamsShaped();
      ShapedTotal(Params(), Sizes);
      SameTotal(LayerNeurons(), Params());
    }

    /** Bumps `iter`, then feeds the inputs through every layer in order,
        keeping a copy of each layer's outputs. The counter advances even
        when the first layer throws. What the pass returns is Forward of the
        parameters; PassOutcome says when that throws and what shape it has. */
    method FeedForwardWithLayerOutputs(inputs: seq<real>) returns (r: Result<seq<seq<real>>>)
      requires Valid()
      modifies this`iter, Repr()`Output
      ensures Valid()
      ensures iter == Inc32(old(iter))
      ensures r == Forward(Params(), inputs)
      ensures r.Ok? ==> AllOutputs() == r.value
      ensures r.Ok? ==> forall k :: 0 <= k < |Layers| ==> Layers[k].Outputs() == r.value[k]
      ensures r.Err? ==> unchanged(Repr())
    {
      var outputsPerLayer: seq<seq<real>> := [];
      var outputs := inputs;
      iter := Inc32(iter);
      for k := 0 to |Layers|
        invariant iter == Inc32(old(iter))
        invariant Forward(Params()[..k], inputs) == Ok(outputsPerLayer)
        invariant outputs == LayerInput(inputs, outputsPerLayer, k)
        invariant k > 0 ==> |outputs| == |Layers[k - 1].Neurons|
        invariant OutputsUpTo(k) == outputsPerLayer
        invariant k == 0 ==> unchanged(Repr())
      {
        label before:
        var o := Layers[k].Activate(outputs);
        if o.Err? {
          OnlyFirstLayerRejects(k, inputs, outputs);
          return Err(o.error);
        }
        LayerAdvanced@before(k);
        ForwardStep(Params(), inputs, k, outputsPerLayer, o.value);
        outputs := o.value;
        outputsPerLayer := outputsPerLayer + [outputs];
      }
      assert Params()[..|Layers|] == Params();
      forall k | 0 <= k < |Layers|
        ensures Layers[k].Outputs() == outputsPerLayer[k]
      {
        OutputsUpToIndex(|Layers|, k);
      }
      r := Ok(outputsPerLayer);
    }

    /** What a pass through a built network returns: it throws exactly when
        the first layer has a neuron and the inputs do not have that layer's
        width, and otherwise layer k's output has `Sizes[k + 1]` entries. */
    lemma PassOutcome(inputs: seq<real>)
      requires WellFormed()
      ensures Forward(Params(), inputs).Err? <==> |Sizes| >= 2 && Sizes[1] > 0 && |inputs| != LoopCount(Sizes[0])
      ensures Forward(Params(), inputs).Ok? ==>
                && |Forward(Params(), inputs).value| == |Layers|
                && forall k :: 0 <= k < |Layers| ==> |Forward(Params(), inputs).value[k]| == LoopCount(Sizes[k + 1])
    {
      ParamsShaped();
      ForwardOnShaped(Params(), Sizes, inputs);
    }

    /** A layer after the first is fed one value per neuron of the layer
        before it, which is its width; so only the first layer can reject
        its input, and then the whole pass throws. */
    lemma OnlyFirstLayerRejects(k: nat, inputs: seq<real>, outputs: seq<real>)
      requires WellFormed() && k < |Layers|
      requires k == 0 ==> outputs == inputs
      requires k > 0 ==> |outputs| == |Layers[k - 1].Neurons|
      requires |Layers[k].Neurons| > 0 && |outputs| != Layers[k].InputWidth
      ensures k == 0
      ensures Forward(Params(), inputs) == Err(ArgumentException)
    {
      PassOutcome(inputs);
      assert |Params()[0]| == |Layers[0].Neurons|;
    }

    /** Activating layer `k` leaves the outputs of the layers before it as
        they were, since no neuron belongs to two layers, so the outputs
        of the first `k + 1` layers are the earlier ones and layer `k`'s new
        ones. */
    twostate lemma LayerAdvanced(k: nat)
      requires WellFormed() && k < |Layers|
      requires forall n :: n in Repr() && n !in Layers[k].Neurons ==> n.Output == old(n.Output)
      ensures OutputsUpTo(k + 1) == old(OutputsUpTo(k)) + [Layers[k].Outputs()]
    {
      forall n | n in Repr() && Owner[n] < k
        ensures n.Output == old(n.Output)
      {
        forall j | 0 <= j < |Layers[k].Neurons|
          ensures Layers[k].Neurons[j] != n
        {
          assert Owner[Layers[k].Neurons[j]] == k;
        }
      }
      PrefixUnchanged(k);
    }

    /** The outputs of the first `m` layers depend on their neurons only. */
    twostate lemma {:induction false} PrefixUnchanged(m: nat)
      requires WellFormed() && m <= |Layers|
      requires forall n :: n in Repr() && Owner[n] < m ==> n.Output == old(n.Output)
      ensures OutputsUpTo(m) == old(OutputsUpTo(m))
    {
      if m > 0 {
        PrefixUnchanged(m - 1);
        var layer := Layers[m - 1];
        forall j | 0 <= j < |layer.Neurons|
          ensures layer.Neurons[j].Output == old(layer.Neurons[j].Output)
        {
          assert Owner[layer.Neurons[j]] == m - 1;
        }
        assert layer.Outputs() == old(layer.Outputs());
      }
    }
  }

  /** `owner` maps every neuron of every layer to that layer's index. */
  ghost predicate Owns(owner: map<Neuron, nat>, layers: seq<Layer>)
  {
    forall k, j :: 0 <= k < |layers| && 0 <= j < |layers[k].Neurons| ==>
      layers[k].Neurons[j] in owner && owner[layers[k].Neurons[j]] == k
  }

  /** The parameters of the given layers' neurons, layer by layer. */
  function ParamsOf(layers: seq<Layer>): (pss: seq<seq<NeuronParams>>)
    ensures |pss| == |layers|
  {
    seq(|layers|, k requires 0 <= k < |layers| => layers[k].Params())
  }

  lemma ParamsOfAppend(layers: seq<Layer>, layer: Layer)
    ensures ParamsOf(layers + [layer]) == ParamsOf(layers) + [layer.Params()]
  {
  }

  /** Layers whose parameters have the shape `sizes` prescribes have the
      neuron counts it prescribes. */
  lemma LayerCountsOf(layers: seq<Layer>, sizes: seq<int>)
    requires Shaped(ParamsOf(layers), sizes)
    ensures forall k :: 0 <= k < |layers| ==> |layers[k].Neurons| == LoopCount(sizes[k + 1])
  {
    forall k | 0 <= k < |layers|
      ensures |layers[k].Neurons| == LoopCount(sizes[k + 1])
    {
      assert ParamsOf(layers)[k] == layers[k].Params();
    }
  }

  /** Two lists of lists whose lists have pairwise equal lengths have equal
      total length. */
  lemma {:induction false} SameTotal<A, B>(xss: seq<seq<A>>, yss: seq<seq<B>>)
    requires |xss| == |yss|
    requires forall k :: 0 <= k < |xss| ==> |xss[k]| == |yss[k]|
    ensures TotalLength(xss) == TotalLength(yss)
  {
    if |xss| > 0 {
      SameTotal(xss[..|xss| - 1], yss[..|yss| - 1]);
    }
  }
}
