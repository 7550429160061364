/** micrograd's neural-network layer on top of the engine: a `Neuron` holds weight and
    bias `Value`s, a `Layer` a list of neurons, an `MLP` a list of layers. The
    parameters are handles into an `Arena`; the random initial values are given as
    `draws`, listed in the order `parameters()` returns the parameters. */
module Nn {
  import opened Graph
  import opened Engine
  import opened Gradients

  datatype Neuron = Neuron(w: seq<nat>, b: nat)
  datatype Layer = Layer(neurons: seq<Neuron>)
  datatype MLP = MLP(layers: seq<Layer>)

  /** What a layer is called on and what it returns: a single `Value`, or a list of
      inputs (each a `Value` or a plain number). */
  datatype Signal = One(h: nat) | Many(xs: seq<Operand>)

  /** The numbers a signal stands for. */
  datatype Reading = Scalar(v: real) | Vector(vs: seq<real>)

  // ---------------------------------------------------------------------------
  // parameters()

  /** `self.w + [self.b]`. */
  function NeuronParameters(n: Neuron): (ps: seq<nat>)
    ensures |ps| == |n.w| + 1 && ps[|n.w|] == n.b
    ensures forall i :: 0 <= i < |n.w| ==> ps[i] == n.w[i]
  {
    n.w + [n.b]
  }

  /** `[p for neuron in neurons for p in neuron.parameters()]`. */
  function LayerParameters(ns: seq<Neuron>): seq<nat>
  {
    if ns == [] then [] else LayerParameters(ns[..|ns| - 1]) + NeuronParameters(ns[|ns| - 1])
  }

  /** `[p for layer in layers for p in layer.parameters()]`. */
  function MLPParameters(ls: seq<Layer>): seq<nat>
  {
    if ls == [] then [] else MLPParameters(ls[..|ls| - 1]) + LayerParameters(ls[|ls| - 1].neurons)
  }

  // ---------------------------------------------------------------------------
  // Shapes

  /** `sz = [nin] + nouts`: the width of each layer boundary. */
  function Sizes(nin: nat, nouts: seq<nat>): (sz: seq<nat>)
    ensures |sz| == |nouts| + 1 && sz[0] == nin
    ensures forall i :: 0 <= i < |nouts| ==> sz[i + 1] == nouts[i]
  {
    [nin] + nouts
  }

  /** `Layer(nin, nout)`: `nout` neurons of `nin` weights each. */
  predicate LayerShape(l: Layer, nin: nat, nout: nat) {
    |l.neurons| == nout && forall j :: 0 <= j < nout ==> |l.neurons[j].w| == nin
  }

  /** Layer `i` maps `sz[i]` inputs to `sz[i + 1]` outputs. */
  predicate Shaped(ls: seq<Layer>, sz: seq<nat>) {
    |sz| == |ls| + 1 && forall i :: 0 <= i < |ls| ==> LayerShape(ls[i], sz[i], sz[i + 1])
  }

  /** `MLP(nin, nouts)` builds its layers along `sz = [nin] + nouts`. */
  predicate MLPShape(m: MLP, nin: nat, nouts: seq<nat>) {
    Shaped(m.layers, Sizes(nin, nouts))
  }

  /** `Σ_i sz[i + 1] * (sz[i] + 1)`: the number of parameters of an MLP with
      boundary widths `sz`. */
  function ParamCount(sz: seq<nat>): nat
  {
    if |sz| < 2 then 0
    else ParamCount(sz[..|sz| - 1]) + sz[|sz| - 1] * (sz[|sz| - 2] + 1)
  }

  /** A layer of `nout` neurons of `nin` weights has `nout * (nin + 1)` parameters. */
  lemma {:induction false} LayerParameterCount(ns: seq<Neuron>, nin: nat)
    requires forall j :: 0 <= j < |ns| ==> |ns[j].w| == nin
    ensures |LayerParameters(ns)| == |ns| * (nin + 1)
    decreases |ns|
  {
    if ns != [] {
      var k := |ns| - 1;
      LayerParameterCount(ns[..k], nin);
      MulSucc(k, nin + 1);
    }
  }

  lemma MulSucc(a: nat, b: nat)
    ensures (a + 1) * b == a * b + b
  {
  }

  /** The parameters of a layer are those of its neurons in order: the `t`-th parameter
      of neuron `j` sits at position `j * (nin + 1) + t`. */
  lemma {:induction false} LayerParametersInOrder(ns: seq<Neuron>, nin: nat, j: nat, t: nat)
    requires forall k :: 0 <= k < |ns| ==> |ns[k].w| == nin
    requires j < |ns| && t < nin + 1
    ensures j * (nin + 1) + t < |LayerParameters(ns)|
    ensures LayerParameters(ns)[j * (nin + 1) + t] == NeuronParameters(ns[j])[t]
    decreases |ns|
  {
    var init := ns[..|ns| - 1];
    LayerParameterCount(init, nin);
    LayerParameterCount(ns, nin);
    if j < |init| {
      LayerParametersInOrder(init, nin, j, t);
    }
  }

  /** An MLP whose layers follow `sz` has `ParamCount(sz)` parameters. */
  lemma {:induction false} MLPParameterCount(ls: seq<Layer>, sz: seq<nat>)
    requires Shaped(ls, sz)
    ensures |MLPParameters(ls)| == ParamCount(sz)
    decreases |ls|
  {
    if ls != [] {
      var k := |ls| - 1;
      assert Shaped(ls[..k], sz[..k + 1]) by {
        forall i | 0 <= i < k ensures LayerShape(ls[..k][i], sz[..k + 1][i], sz[..k + 1][i + 1]) {
          assert LayerShape(ls[i], sz[i], sz[i + 1]);
        }
      }
      MLPParameterCount(ls[..k], sz[..k + 1]);
      assert LayerShape(ls[k], sz[k], sz[k + 1]);
      LayerParameterCount(ls[k].neurons, sz[k]);
    }
  }

  // ---------------------------------------------------------------------------
  // Construction

  /** The handles `lo`, `lo + 1`, ..., `hi - 1`. */
  function Range(lo: nat, hi: nat): (r: seq<nat>)
    requires lo <= hi
    ensures |r| == hi - lo && forall i :: 0 <= i < |r| ==> r[i] == lo + i
  {
    seq(hi - lo, i => lo + i)
  }

  /** `k` fresh leaves. */
  function Leaves(k: nat): (r: seq<Op>)
    ensures |r| == k && forall i :: 0 <= i < k ==> r[i] == Leaf
  {
    seq(k, _ => Leaf)
  }

  /** The arena `ops, data, grad` is `ops0, data0, grad0` with one fresh leaf per value
      of `vals` appended, in order, each holding its value and gradient 0. */
  predicate Drawn(ops: seq<Op>, data: seq<real>, grad: seq<real>,
                  ops0: seq<Op>, data0: seq<real>, grad0: seq<real>, vals: seq<real>) {
    ops == ops0 + Leaves(|vals|) && data == data0 + vals && grad == grad0 + Zeros(|vals|)
  }

  /** Drawing `v1` and then `v2` draws `v1 + v2`. */
  lemma DrawnMore(ops0: seq<Op>, data0: seq<real>, grad0: seq<real>,
                  ops1: seq<Op>, data1: seq<real>, grad1: seq<real>,
                  ops2: seq<Op>, data2: seq<real>, grad2: seq<real>, v1: seq<real>, v2: seq<real>)
    requires Drawn(ops1, data1, grad1, ops0, data0, grad0, v1)
    requires Drawn(ops2, data2, grad2, ops1, data1, grad1, v2)
    ensures Drawn(ops2, data2, grad2, ops0, data0, grad0, v1 + v2)
  {
    assert Leaves(|v1|) + Leaves(|v2|) == Leaves(|v1 + v2|);
    assert Zeros(|v1|) + Zeros(|v2|) == Zeros(|v1 + v2|);
  }

  /** Two consecutive runs of fresh handles make one run. */
  lemma RangeAppend(p: seq<nat>, q: seq<nat>, lo: nat, mid: nat, hi: nat)
    requires lo <= mid <= hi && p == Range(lo, mid) && q == Range(mid, hi)
    ensures p + q == Range(lo, hi)
  {
  }

  /** The values drawn for a layer, neuron after neuron. */
  function Concat(d: seq<seq<real>>): (r: seq<real>)
  {
    if d == [] then [] else Concat(d[..|d| - 1]) + d[|d| - 1]
  }

  /** The values drawn for an MLP, layer after layer. */
  function ConcatAll(d: seq<seq<seq<real>>>): (r: seq<real>)
  {
    if d == [] then [] else ConcatAll(d[..|d| - 1]) + Concat(d[|d| - 1])
  }

  /** Draws for `Layer(nin, nout)`: `nin + 1` per neuron (the weights, then the bias). */
  predicate LayerDraws(d: seq<seq<real>>, nin: nat, nout: nat) {
    |d| == nout && forall j :: 0 <= j < nout ==> |d[j]| == nin + 1
  }

  /** Draws for an MLP along `sz`: those of layer `i` fit `Layer(sz[i], sz[i + 1])`. */
  predicate MLPDraws(d: seq<seq<seq<real>>>, sz: seq<nat>) {
    |sz| == |d| + 1 && forall i :: 0 <= i < |d| ==> LayerDraws(d[i], sz[i], sz[i + 1])
  }

  /** Draws that fit an MLP number exactly its parameters. */
  lemma {:induction false} DrawCount(d: seq<seq<seq<real>>>, sz: seq<nat>)
    requires MLPDraws(d, sz)
    ensures |ConcatAll(d)| == ParamCount(sz)
    decreases |d|
  {
    if d != [] {
      var k := |d| - 1;
      assert MLPDraws(d[..k], sz[..k + 1]) by {
        forall i | 0 <= i < k ensures LayerDraws(d[..k][i], sz[..k + 1][i], sz[..k + 1][i + 1]) {
          assert LayerDraws(d[i], sz[i], sz[i + 1]);
        }
      }
      DrawCount(d[..k], sz[..k + 1]);
      assert LayerDraws(d[k], sz[k], sz[k + 1]);
      LayerDrawCount(d[k], sz[k]);
    }
  }

  lemma {:induction false} LayerDrawCount(d: seq<seq<real>>, nin: nat)
    requires forall j :: 0 <= j < |d| ==> |d[j]| == nin + 1
    ensures |Concat(d)| == |d| * (nin + 1)
    decreases |d|
  {
    if d != [] {
      var k := |d| - 1;
      LayerDrawCount(d[..k], nin);
      MulSucc(k, nin + 1);
    }
  }

  /** A parameter listed at position `k` holds the `k`-th draw: with `random.uniform(-1, 1)`
      draws, every initial weight and bias lies in `[-1, 1]`. */
  lemma ParameterValues(ops: seq<Op>, data: seq<real>, grad: seq<real>,
                        ops0: seq<Op>, data0: seq<real>, grad0: seq<real>, vals: seq<real>, ps: seq<nat>)
    requires |data0| == |ops0| && Drawn(ops, data, grad, ops0, data0, grad0, vals)
    requires ps == Range(|ops0|, |ops|)
    requires forall i :: 0 <= i < |vals| ==> -1.0 <= vals[i] <= 1.0
    ensures |ps| == |vals| && forall k :: 0 <= k < |ps| ==> ps[k] < |data| && data[ps[k]] == vals[k]
    ensures forall k :: 0 <= k < |ps| ==> -1.0 <= data[ps[k]] <= 1.0
  {
  }

  /** `Neuron(nin)`: `nin` weights, then the bias, each a fresh leaf holding the next
      draw; so `parameters()` lists exactly the new nodes, in creation order. */
  method NewNeuron(arena: Arena, nin: nat, draws: seq<real>) returns (n: Neuron)
    requires arena.Valid() && |draws| == nin + 1
    modifies arena
    ensures arena.Valid()
    ensures Drawn(arena.ops, arena.data, arena.grad, old(arena.ops), old(arena.data), old(arena.grad), draws)
    ensures |n.w| == nin && NeuronParameters(n) == Range(|old(arena.ops)|, |arena.ops|)
  {
    var w: seq<nat> := [];
    var i := 0;
    while i < nin
      invariant 0 <= i <= nin && arena.Valid()
      invariant Drawn(arena.ops, arena.data, arena.grad, old(arena.ops), old(arena.data), old(arena.grad), draws[..i])
      invariant w == Range(|old(arena.ops)|, |arena.ops|)
    {
      ghost var ops0, data0, grad0 := arena.ops, arena.data, arena.grad;
      var h := arena.NewValue(draws[i]);
      DrawnMore(old(arena.ops), old(arena.data), old(arena.grad), ops0, data0, grad0,
                arena.ops, arena.data, arena.grad, draws[..i], [draws[i]]);
      assert draws[..i + 1] == draws[..i] + [draws[i]];
      w := w + [h];
      i := i + 1;
    }
    ghost var ops0, data0, grad0 := arena.ops, arena.data, arena.grad;
    var b := arena.NewValue(draws[nin]);
    DrawnMore(old(arena.ops), old(arena.data), old(arena.grad), ops0, data0, grad0,
              arena.ops, arena.data, arena.grad, draws[..nin], [draws[nin]]);
    assert draws == draws[..nin] + [draws[nin]];
    n := Neuron(w, b);
  }

  /** `Layer(nin, nout)`: `nout` neurons built one after the other; `parameters()`
      lists exactly the new nodes, in creation order. */
  method NewLayer(arena: Arena, nin: nat, nout: nat, draws: seq<seq<real>>) returns (l: Layer)
    requires arena.Valid() && LayerDraws(draws, nin, nout)
    modifies arena
    ensures arena.Valid()
    ensures Drawn(arena.ops, arena.data, arena.grad, old(arena.ops), old(arena.data), old(arena.grad), Concat(draws))
    ensures LayerShape(l, nin, nout) && LayerParameters(l.neurons) == Range(|old(arena.ops)|, |arena.ops|)
  {
    var ns: seq<Neuron> := [];
    var j := 0;
    while j < nout
      invariant j <= nout && arena.Valid()
      invariant Drawn(arena.ops, arena.data, arena.grad, old(arena.ops), old(arena.data), old(arena.grad), Concat(draws[..j]))
      invariant |ns| == j && forall k :: 0 <= k < j ==> |ns[k].w| == nin
      invariant LayerParameters(ns) == Range(|old(arena.ops)|, |arena.ops|)
    {
      ghost var ops0, data0, grad0 := arena.ops, arena.data, arena.grad;
      var n := NewNeuron(arena, nin, draws[j]);
      DrawnMore(old(arena.ops), old(arena.data), old(arena.grad), ops0, data0, grad0,
                arena.ops, arena.data, arena.grad, Concat(draws[..j]), draws[j]);
      assert draws[..j + 1][..j] == draws[..j];
      RangeAppend(LayerParameters(ns), NeuronParameters(n), |old(arena.ops)|, |ops0|, |arena.ops|);
      assert (ns + [n])[..|ns|] == ns;
      ns := ns + [n];
      j := j + 1;
    }
    assert draws[..nout] == draws;
    l := Layer(ns);
  }

  /** `MLP(nin, nouts)`: layer `i` is `Layer(sz[i], sz[i + 1])`, built in order;
      `parameters()` lists exactly the new nodes, in creation order. */
  method NewMLP(arena: Arena, nin: nat, nouts: seq<nat>, draws: seq<seq<seq<real>>>) returns (m: MLP)
    requires arena.Valid() && MLPDraws(draws, Sizes(nin, nouts))
    modifies arena
    ensures arena.Valid()
    ensures Drawn(arena.ops, arena.data, arena.grad, old(arena.ops), old(arena.data), old(arena.grad), ConcatAll(draws))
    ensures MLPShape(m, nin, nouts) && MLPParameters(m.layers) == Range(|old(arena.ops)|, |arena.ops|)
  {
    var sz := Sizes(nin, nouts);
    var ls: seq<Layer> := [];
    var i := 0;
    while i < |nouts|
      invariant i <= |nouts| && arena.Valid()
      invariant Drawn(arena.ops, arena.data, arena.grad, old(arena.ops), old(arena.data), old(arena.grad), ConcatAll(draws[..i]))
      invariant Shaped(ls, sz[..i + 1])
      invariant MLPParameters(ls) == Range(|old(arena.ops)|, |arena.ops|)
    {
      ghost var ops0, data0, grad0 := arena.ops, arena.data, arena.grad;
      assert LayerDraws(draws[i], sz[i], sz[i + 1]);
      var l := NewLayer(arena, sz[i], sz[i + 1], draws[i]);
      DrawnMore(old(arena.ops), old(arena.data), old(arena.grad), ops0, data0, grad0,
                arena.ops, arena.data, arena.grad, ConcatAll(draws[..i]), Concat(draws[i]));
      LayerAdded(ls, l, sz, draws, i);
      RangeAppend(MLPParameters(ls), LayerParameters(l.neurons), |old(arena.ops)|, |ops0|, |arena.ops|);
      ls := ls + [l];
      i := i + 1;
    }
    assert sz[..|nouts| + 1] == sz && draws[..|nouts|] == draws;
    m := MLP(ls);
  }

  /** One more layer: its shape, parameters and draws extend those of the layers before. */
  lemma LayerAdded(ls: seq<Layer>, l: Layer, sz: seq<nat>, d: seq<seq<seq<real>>>, i: nat)
    requires i + 1 < |sz| && i < |d| && Shaped(ls, sz[..i + 1]) && LayerShape(l, sz[i], sz[i + 1])
    ensures Shaped(ls + [l], sz[..i + 2])
    ensures MLPParameters(ls + [l]) == MLPParameters(ls) + LayerParameters(l.neurons)
    ensures ConcatAll(d[..i + 1]) == ConcatAll(d[..i]) + Concat(d[i])
  {
    assert (ls + [l])[..|ls|] == ls;
    assert d[..i + 1][..i] == d[..i];
    forall k | 0 <= k < |ls| + 1 ensures LayerShape((ls + [l])[k], sz[..i + 2][k], sz[..i + 2][k + 1]) {
      if k < |ls| {
        assert LayerShape(ls[k], sz[..i + 1][k], sz[..i + 1][k + 1]);
      }
    }
  }

  // ---------------------------------------------------------------------------
  // Forward pass: what a call computes

  /** The bias plus the products of the first `k` weight/input pairs, added left to
      right as `sum(..., self.b)` adds them. */
  function Affine(b: real, ws: seq<real>, xs: seq<real>, k: nat): real
    requires k <= |ws| && k <= |xs|
  {
    if k == 0 then b else Affine(b, ws, xs, k - 1) + ws[k - 1] * xs[k - 1]
  }

  function Min(a: nat, b: nat): nat {
    if a <= b then a else b
  }

  /** `sum((wi*xi for wi, xi in zip(self.w, x)), self.b)`: `zip` stops at the shorter
      list. */
  function Preactivation(b: real, ws: seq<real>, xs: seq<real>): real {
    Affine(b, ws, xs, Min(|ws|, |xs|))
  }

  /** Inputs beyond the last weight (or weights beyond the last input) are ignored. */
  lemma {:induction false} AffinePrefix(b: real, ws: seq<real>, xs: seq<real>, ws': seq<real>, xs': seq<real>, k: nat)
    requires k <= |ws| && k <= |xs| && k <= |ws'| && k <= |xs'|
    requires ws[..k] == ws'[..k] && xs[..k] == xs'[..k]
    ensures Affine(b, ws, xs, k) == Affine(b, ws', xs', k)
  {
    if k > 0 {
      assert ws[..k - 1] == ws[..k][..k - 1] && ws'[..k - 1] == ws'[..k][..k - 1];
      assert xs[..k - 1] == xs[..k][..k - 1] && xs'[..k - 1] == xs'[..k][..k - 1];
      assert ws[k - 1] == ws[..k][k - 1] && ws'[k - 1] == ws'[..k][k - 1];
      assert xs[k - 1] == xs[..k][k - 1] && xs'[k - 1] == xs'[..k][k - 1];
      AffinePrefix(b, ws, xs, ws', xs', k - 1);
    }
  }

  /** `zip` truncates: the pre-activation depends only on the pairs it forms. */
  lemma ZipTruncates(b: real, ws: seq<real>, xs: seq<real>)
    ensures var m := Min(|ws|, |xs|);
            Preactivation(b, ws, xs) == Preactivation(b, ws[..m], xs[..m])
  {
    var m := Min(|ws|, |xs|);
    AffinePrefix(b, ws, xs, ws[..m], xs[..m], m);
  }

  /** Surplus inputs to a neuron are ignored. */
  lemma ExtraInputsIgnored(b: real, ws: seq<real>, xs: seq<real>, ys: seq<real>)
    requires |ws| <= |xs|
    ensures Preactivation(b, ws, xs + ys) == Preactivation(b, ws, xs)
  {
    AffinePrefix(b, ws, xs + ys, ws, xs, |ws|);
  }

  /** The bias is added once, whatever the pairs. */
  lemma {:induction false} BiasAdded(b: real, ws: seq<real>, xs: seq<real>, k: nat)
    requires k <= |ws| && k <= |xs|
    ensures Affine(b, ws, xs, k) == b + Affine(0.0, ws, xs, k)
  {
    if k > 0 {
      BiasAdded(b, ws, xs, k - 1);
    }
  }

  /** The values of a neuron's weights. */
  function Weights(data: seq<real>, n: Neuron): (ws: seq<real>)
    requires forall i :: 0 <= i < |n.w| ==> n.w[i] < |data|
    ensures |ws| == |n.w| && forall i :: 0 <= i < |n.w| ==> ws[i] == data[n.w[i]]
  {
    seq(|n.w|, i requires 0 <= i < |n.w| => data[n.w[i]])
  }

  /** The numbers a list of inputs stands for. */
  function Inputs(data: seq<real>, xs: seq<Operand>): (vs: seq<real>)
    requires InputsIn(xs, |data|)
    ensures |vs| == |xs| && forall i :: 0 <= i < |xs| ==> vs[i] == ValueIn(data, xs[i])
  {
    seq(|xs|, i requires 0 <= i < |xs| => ValueIn(data, xs[i]))
  }

  /** The `Value`s among `xs` exist. */
  predicate InputsIn(xs: seq<Operand>, k: nat) {
    forall i :: 0 <= i < |xs| ==> (xs[i].Node? ==> xs[i].h < k)
  }

  /** The parameters of a neuron, a layer, an MLP exist. */
  predicate NeuronIn(n: Neuron, k: nat) {
    n.b < k && forall i :: 0 <= i < |n.w| ==> n.w[i] < k
  }

  predicate LayerIn(l: Layer, k: nat) {
    forall j :: 0 <= j < |l.neurons| ==> NeuronIn(l.neurons[j], k)
  }

  predicate MLPIn(m: MLP, k: nat) {
    forall i :: 0 <= i < |m.layers| ==> LayerIn(m.layers[i], k)
  }

  predicate SignalIn(s: Signal, k: nat) {
    match s
    case One(h) => h < k
    case Many(xs) => InputsIn(xs, k)
  }

  /** `n(x)`: the tanh of the pre-activation, strictly between -1 and 1. */
  function NeuronOut(exp: Exponential, data: seq<real>, n: Neuron, xs: seq<real>): (y: real)
    requires NeuronIn(n, |data|)
    ensures -1.0 < y < 1.0
  {
    TanhOf(exp, Preactivation(data[n.b], Weights(data, n), xs))
  }

  /** The outputs of a layer's neurons on the same inputs, in neuron order. */
  function LayerOut(exp: Exponential, data: seq<real>, ns: seq<Neuron>, xs: seq<real>): (ys: seq<real>)
    requires forall j :: 0 <= j < |ns| ==> NeuronIn(ns[j], |data|)
    ensures |ys| == |ns| && forall j :: 0 <= j < |ns| ==> -1.0 < ys[j] < 1.0
  {
    seq(|ns|, j requires 0 <= j < |ns| => NeuronOut(exp, data, ns[j], xs))
  }

  /** `outs[0] if len(outs) == 1 else outs`. */
  function Unwrap(ys: seq<real>): (r: Reading)
    ensures |ys| == 1 <==> r.Scalar?
    ensures r.Scalar? ==> r.v == ys[0]
    ensures r.Vector? ==> r.vs == ys
  {
    if |ys| == 1 then Scalar(ys[0]) else Vector(ys)
  }

  /** `layer(x)` on what `x` stands for: a single value cannot be zipped with the
      weights (TypeError), unless the layer has no neuron to try. */
  function LayerRead(exp: Exponential, data: seq<real>, l: Layer, x: Reading): Result<Reading>
    requires LayerIn(l, |data|)
  {
    match x
    case Scalar(_) => if l.neurons == [] then Ok(Vector([])) else Err(TypeError)
    case Vector(vs) => Ok(Unwrap(LayerOut(exp, data, l.neurons, vs)))
  }

  /** `for layer in self.layers: x = layer(x)`, an exception ending the loop. */
  function MLPRead(exp: Exponential, data: seq<real>, ls: seq<Layer>, x: Reading): Result<Reading>
    requires forall i :: 0 <= i < |ls| ==> LayerIn(ls[i], |data|)
    decreases |ls|
  {
    if ls == [] then Ok(x)
    else
      match LayerRead(exp, data, ls[0], x)
      case Err(e) => Err(e)
      case Ok(y) => MLPRead(exp, data, ls[1..], y)
  }

  /** What a signal stands for. */
  function Read(data: seq<real>, s: Signal): Reading
    requires SignalIn(s, |data|)
  {
    match s
    case One(h) => Scalar(data[h])
    case Many(xs) => Vector(Inputs(data, xs))
  }

  /** Layers run in list order: running `ls1 + ls2` runs `ls1` and feeds its output
      to `ls2`. */
  lemma {:induction false} MLPReadAppend(exp: Exponential, data: seq<real>, ls1: seq<Layer>, ls2: seq<Layer>, x: Reading)
    requires forall i :: 0 <= i < |ls1| ==> LayerIn(ls1[i], |data|)
    requires forall i :: 0 <= i < |ls2| ==> LayerIn(ls2[i], |data|)
    ensures forall i :: 0 <= i < |ls1 + ls2| ==> LayerIn((ls1 + ls2)[i], |data|)
    ensures MLPRead(exp, data, ls1 + ls2, x) ==
              match MLPRead(exp, data, ls1, x)
              case Err(e) => Err(e)
              case Ok(y) => MLPRead(exp, data, ls2, y)
    decreases |ls1|
  {
    if ls1 != [] {
      assert (ls1 + ls2)[0] == ls1[0] && (ls1 + ls2)[1..] == ls1[1..] + ls2;
      match LayerRead(exp, data, ls1[0], x)
      case Err(e) =>
      case Ok(y) => MLPReadAppend(exp, data, ls1[1..], ls2, y);
    } else {
      assert ls1 + ls2 == ls2;
    }
  }

  /** A layer of `nout` neurons answers a list of inputs with `nout` outputs, unwrapped
      when `nout == 1`. */
  lemma LayerWidth(exp: Exponential, data: seq<real>, l: Layer, nin: nat, nout: nat, vs: seq<real>)
    requires LayerIn(l, |data|) && LayerShape(l, nin, nout)
    ensures LayerRead(exp, data, l, Vector(vs)).Ok?
    ensures var y := LayerRead(exp, data, l, Vector(vs)).value;
            (nout == 1 ==> y.Scalar?) && (nout != 1 ==> y.Vector? && |y.vs| == nout)
  {
  }

  /** An MLP whose inner layers are never one neuron wide maps a list of inputs to the
      last layer's width. */
  lemma {:induction false} MLPWidth(exp: Exponential, data: seq<real>, ls: seq<Layer>, sz: seq<nat>, vs: seq<real>)
    requires forall i :: 0 <= i < |ls| ==> LayerIn(ls[i], |data|)
    requires Shaped(ls, sz) && ls != [] && forall i :: 1 <= i < |ls| ==> sz[i] != 1
    ensures MLPRead(exp, data, ls, Vector(vs)).Ok?
    ensures var y := MLPRead(exp, data, ls, Vector(vs)).value; var w := sz[|ls|];
            (w == 1 ==> y.Scalar?) && (w != 1 ==> y.Vector? && |y.vs| == w)
    decreases |ls|
  {
    assert LayerShape(ls[0], sz[0], sz[1]);
    LayerWidth(exp, data, ls[0], sz[0], sz[1], vs);
    if |ls| > 1 {
      var y := LayerRead(exp, data, ls[0], Vector(vs)).value;
      assert sz[1] != 1;
      assert Shaped(ls[1..], sz[1..]) by {
        forall i | 0 <= i < |ls| - 1 ensures LayerShape(ls[1..][i], sz[1..][i], sz[1..][i + 1]) {
          assert LayerShape(ls[i + 1], sz[i + 1], sz[i + 2]);
        }
      }
      MLPWidth(exp, data, ls[1..], sz[1..], y.vs);
    }
  }

  /** A one-neuron layer hands a single `Value` to the next layer, which cannot zip it:
      an MLP with such an inner layer fails with TypeError unless the next layer is
      empty. */
  lemma NarrowLayerFails(exp: Exponential, data: seq<real>, l1: Layer, l2: Layer, nin: nat, nout: nat, vs: seq<real>)
    requires LayerIn(l1, |data|) && LayerIn(l2, |data|)
    requires LayerShape(l1, nin, 1) && LayerShape(l2, 1, nout)
    ensures MLPRead(exp, data, [l1, l2], Vector(vs)) == if nout == 0 then Ok(Vector([])) else Err(TypeError)
  {
    LayerWidth(exp, data, l1, nin, 1, vs);
    var y := LayerRead(exp, data, l1, Vector(vs)).value;
    assert [l1, l2][0] == l1 && [l1, l2][1..] == [l2];
    assert MLPRead(exp, data, [l1, l2], Vector(vs)) == MLPRead(exp, data, [l2], y);
    assert [l2][0] == l2 && [l2][1..] == [];
    if nout == 0 {
      assert LayerRead(exp, data, l2, y) == Ok(Vector([]));
      assert MLPRead(exp, data, [l2], y) == MLPRead(exp, data, [], Vector([]));
    } else {
      assert LayerRead(exp, data, l2, y) == Err(TypeError);
    }
  }

  // ---------------------------------------------------------------------------
  // Forward pass: the calls, which build the graph of the computation

  /** Appending nodes does not change what existing nodes hold. */
  lemma NeuronOutKept(exp: Exponential, d0: seq<real>, d1: seq<real>, n: Neuron, xs: seq<real>)
    requires d0 <= d1 && NeuronIn(n, |d0|)
    ensures NeuronOut(exp, d1, n, xs) == NeuronOut(exp, d0, n, xs)
  {
    assert Weights(d1, n) == Weights(d0, n);
  }

  lemma LayerReadKept(exp: Exponential, d0: seq<real>, d1: seq<real>, l: Layer, x: Reading)
    requires d0 <= d1 && LayerIn(l, |d0|)
    ensures LayerRead(exp, d1, l, x) == LayerRead(exp, d0, l, x)
  {
    if x.Vector? {
      forall j | 0 <= j < |l.neurons|
        ensures NeuronOut(exp, d1, l.neurons[j], x.vs) == NeuronOut(exp, d0, l.neurons[j], x.vs)
      {
        NeuronOutKept(exp, d0, d1, l.neurons[j], x.vs);
      }
      assert LayerOut(exp, d1, l.neurons, x.vs) == LayerOut(exp, d0, l.neurons, x.vs);
    }
  }

  lemma InputsKept(d0: seq<real>, d1: seq<real>, xs: seq<Operand>)
    requires d0 <= d1 && InputsIn(xs, |d0|)
    ensures Inputs(d1, xs) == Inputs(d0, xs)
  {
  }

  /** One step of `sum`: `act + wi * xi`, a `*` node and then a `+` node. */
  method Term(arena: Arena, act: nat, w: nat, x: Operand, ghost b: real, ghost ws: seq<real>, ghost vs: seq<real>, ghost i: nat)
      returns (act': nat)
    requires arena.Valid() && act < |arena.ops| && w < |arena.ops| && arena.Has(x)
    requires i < |ws| && i < |vs| && arena.data[act] == Affine(b, ws, vs, i)
    requires arena.data[w] == ws[i] && ValueIn(arena.data, x) == vs[i]
    modifies arena
    ensures arena.Valid() && arena.Grown(old(arena.ops), old(arena.data), old(arena.grad))
    ensures act' < |arena.ops| && arena.data[act'] == Affine(b, ws, vs, i + 1)
    ensures arena.ops == old(arena.ops) + Wrapped(x) +
              [Op.Mul(w, Handle(x, |old(arena.ops)|)), Op.Add(act, |old(arena.ops)| + |Wrapped(x)|)]
    ensures act' == |arena.ops| - 1 && act' >= 1
    ensures arena.ops[act'] == Op.Add(act, act' - 1) && arena.ops[act' - 1] == Op.Mul(w, Handle(x, |old(arena.ops)|))
  {
    var p := arena.Mul(w, x);
    act' := arena.Add(act, Node(p));
  }

  /** After a `sum` step, the new running sum reaches what the old one reached, the
      weight and the input. */
  lemma TermReach(o0: seq<Op>, ops: seq<Op>, act: nat, w: nat, hx: nat, a: nat)
    requires Acyclic(ops) && o0 <= ops && act < |o0| && 1 <= a < |ops|
    requires ops[a] == Op.Add(act, a - 1) && ops[a - 1] == Op.Mul(w, hx)
    ensures Acyclic(o0) && Reach(o0, act) <= Reach(ops, a) && w in Reach(ops, a) && hx in Reach(ops, a)
  {
    ReachKept(o0, ops, act);
    assert Below(ops[a - 1], a - 1);
    assert w in Reach(ops, w) && hx in Reach(ops, hx);
    assert Reach(ops, a - 1) <= Reach(ops, a);
  }

  /** From handle `h` the backward pass reaches the bias and, for each of the first
      `i` pairs that `zip` forms, the weight and the input when it is a `Value`. */
  ghost predicate Reaches(ops: seq<Op>, h: nat, n: Neuron, x: seq<Operand>, i: nat) {
    Acyclic(ops) && h < |ops| && i <= |n.w| && i <= |x| &&
    n.b in Reach(ops, h) &&
    forall k :: 0 <= k < i ==> n.w[k] in Reach(ops, h) && (x[k].Node? ==> x[k].h in Reach(ops, h))
  }

  lemma ReachesMore(ops: seq<Op>, h: nat, ops': seq<Op>, h': nat, n: Neuron, x: seq<Operand>, i: nat)
    requires Reaches(ops, h, n, x, i) && Acyclic(ops') && h' < |ops'| && Reach(ops, h) <= Reach(ops', h')
    requires i < |n.w| && i < |x| && n.w[i] in Reach(ops', h') && (x[i].Node? ==> x[i].h in Reach(ops', h'))
    ensures Reaches(ops', h', n, x, i + 1)
  {
  }

  /** A `sum` step keeps what the running sum reached and adds the `i`-th pair. */
  lemma TermReaches(o0: seq<Op>, act: nat, ops: seq<Op>, a: nat, n: Neuron, x: seq<Operand>, i: nat)
    requires Reaches(o0, act, n, x, i) && Acyclic(ops) && o0 <= ops && 1 <= a < |ops|
    requires i < |n.w| && i < |x| && (x[i].Node? ==> x[i].h < |o0|)
    requires ops[a] == Op.Add(act, a - 1) && ops[a - 1] == Op.Mul(n.w[i], Handle(x[i], |o0|))
    ensures Reaches(ops, a, n, x, i + 1)
  {
    TermReach(o0, ops, act, n.w[i], Handle(x[i], |o0|), a);
    ReachesMore(o0, act, ops, a, n, x, i);
  }

  lemma ReachesKept(ops: seq<Op>, h: nat, ops': seq<Op>, h': nat, n: Neuron, x: seq<Operand>, i: nat)
    requires Reaches(ops, h, n, x, i) && Acyclic(ops') && h' < |ops'| && Reach(ops, h) <= Reach(ops', h')
    ensures Reaches(ops', h', n, x, i)
  {
  }

  /** The `i`-th pair that `zip` forms still holds the values it had. */
  lemma PairKept(d0: seq<real>, d1: seq<real>, n: Neuron, x: seq<Operand>, i: nat)
    requires d0 <= d1 && NeuronIn(n, |d0|) && InputsIn(x, |d0|) && i < |n.w| && i < |x|
    ensures n.w[i] < |d1| && d1[n.w[i]] == Weights(d0, n)[i]
    ensures (x[i].Node? ==> x[i].h < |d1|) && ValueIn(d1, x[i]) == Inputs(d0, x)[i]
  {
  }

  /** `act = sum((wi*xi for wi, xi in zip(self.w, x)), self.b)`: a `*` node and a `+`
      node per pair that `zip` forms. */
  method WeightedSum(arena: Arena, n: Neuron, x: seq<Operand>) returns (act: nat)
    requires arena.Valid() && NeuronIn(n, |arena.ops|) && InputsIn(x, |arena.ops|)
    modifies arena
    ensures arena.Valid() && arena.Grown(old(arena.ops), old(arena.data), old(arena.grad))
    ensures act < |arena.ops|
    ensures arena.data[act] == Preactivation(old(arena.data)[n.b], Weights(old(arena.data), n), Inputs(old(arena.data), x))
    ensures Reaches(arena.ops, act, n, x, Min(|n.w|, |x|))
  {
    ghost var d0 := arena.data;
    ghost var ws, vs := Weights(d0, n), Inputs(d0, x);
    var m := if |n.w| <= |x| then |n.w| else |x|;
    act := n.b;
    var i := 0;
    assert n.b in Reach(arena.ops, n.b);
    while i < m
      invariant i <= m && m == Min(|ws|, |vs|)
      invariant arena.Valid() && arena.Grown(old(arena.ops), d0, old(arena.grad))
      invariant act < |arena.ops| && arena.data[act] == Affine(d0[n.b], ws, vs, i)
      invariant Reaches(arena.ops, act, n, x, i)
    {
      act := SumStep(arena, act, n, x, old(arena.ops), d0, old(arena.grad), i);
      i := i + 1;
    }
  }

  /** The `i`-th step of the weighted sum over an arena grown from `(o0, d0, g0)`, with
      what the new running sum reaches. */
  method SumStep(arena: Arena, act: nat, n: Neuron, x: seq<Operand>,
                 ghost o0: seq<Op>, ghost d0: seq<real>, ghost g0: seq<real>, i: nat) returns (act': nat)
    requires arena.Valid() && arena.Grown(o0, d0, g0) && NeuronIn(n, |d0|) && InputsIn(x, |d0|)
    requires i < |n.w| && i < |x|
    requires act < |arena.ops| && arena.data[act] == Affine(d0[n.b], Weights(d0, n), Inputs(d0, x), i)
    requires Reaches(arena.ops, act, n, x, i)
    modifies arena
    ensures arena.Valid() && arena.Grown(o0, d0, g0)
    ensures act' < |arena.ops| && arena.data[act'] == Affine(d0[n.b], Weights(d0, n), Inputs(d0, x), i + 1)
    ensures Reaches(arena.ops, act', n, x, i + 1)
  {
    PairKept(d0, arena.data, n, x, i);
    ghost var o1, d1, g1 := arena.ops, arena.data, arena.grad;
    act' := Term(arena, act, n.w[i], x[i], d0[n.b], Weights(d0, n), Inputs(d0, x), i);
    ExtendsTrans(o0, d0, g0, o1, d1, g1, arena.ops, arena.data, arena.grad);
    TermReaches(o1, act, arena.ops, act', n, x, i);
  }

  /** `n(x)`: the weighted sum, then a `tanh` node holding the neuron's output. */
  method NeuronCall(arena: Arena, n: Neuron, x: seq<Operand>) returns (out: nat)
    requires arena.Valid() && NeuronIn(n, |arena.ops|) && InputsIn(x, |arena.ops|)
    modifies arena
    ensures arena.Valid() && arena.Grown(old(arena.ops), old(arena.data), old(arena.grad))
    ensures out < |arena.ops| && arena.data[out] == NeuronOut(arena.exp, old(arena.data), n, Inputs(old(arena.data), x))
    ensures out == |arena.ops| - 1 && arena.ops[out].Tanh?
    ensures Reaches(arena.ops, out, n, x, Min(|n.w|, |x|))
  {
    var act := WeightedSum(arena, n, x);
    ghost var o1, d1, g1 := arena.ops, arena.data, arena.grad;
    out := arena.Tanh(act);
    ExtendsTrans(old(arena.ops), old(arena.data), old(arena.grad), o1, d1, g1, arena.ops, arena.data, arena.grad);
    ReachKept(o1, arena.ops, act);
    assert Reach(arena.ops, out) == {out} + Reach(arena.ops, act);
    ReachesKept(o1, act, arena.ops, out, n, x, Min(|n.w|, |x|));
  }

  /** The handles of a layer's outputs, as a list of inputs for the next layer. */
  function Nodes(hs: seq<nat>): (xs: seq<Operand>)
    ensures |xs| == |hs| && forall i :: 0 <= i < |hs| ==> xs[i] == Node(hs[i])
  {
    seq(|hs|, i requires 0 <= i < |hs| => Node(hs[i]))
  }

  /** What the outcome of a call stands for. */
  function ReadResult(data: seq<real>, r: Result<Signal>): Result<Reading>
    requires r.Ok? ==> SignalIn(r.value, |data|)
  {
    match r
    case Ok(s) => Ok(Read(data, s))
    case Err(e) => Err(e)
  }

  /** The nodes `outs` hold the first `|outs|` values of `want`. */
  predicate Holding(data: seq<real>, outs: seq<nat>, want: seq<real>) {
    |outs| <= |want| && forall k :: 0 <= k < |outs| ==> outs[k] < |data| && data[outs[k]] == want[k]
  }

  lemma HoldingMore(d1: seq<real>, d2: seq<real>, outs: seq<nat>, want: seq<real>, o: nat)
    requires Holding(d1, outs, want) && d1 <= d2 && |outs| < |want| && o < |d2| && d2[o] == want[|outs|]
    ensures Holding(d2, outs + [o], want)
  {
  }

  /** Neuron `j` of a layer, called after more nodes were appended, gives the layer's
      `j`-th output. */
  lemma NeuronOfLayer(exp: Exponential, d0: seq<real>, d1: seq<real>, l: Layer, xs: seq<Operand>, j: nat)
    requires d0 <= d1 && LayerIn(l, |d0|) && InputsIn(xs, |d0|) && j < |l.neurons|
    ensures NeuronOut(exp, d1, l.neurons[j], Inputs(d1, xs)) == LayerOut(exp, d0, l.neurons, Inputs(d0, xs))[j]
  {
    InputsKept(d0, d1, xs);
    NeuronOutKept(exp, d0, d1, l.neurons[j], Inputs(d0, xs));
  }

  /** The outputs, unwrapped when there is one, stand for the layer's reading. */
  function Collect(outs: seq<nat>): (s: Signal)
    ensures |outs| == 1 <==> s.One?
  {
    if |outs| == 1 then One(outs[0]) else Many(Nodes(outs))
  }

  /** The handles a call's outcome names, in order. */
  function Outs(s: Signal): (hs: seq<nat>)
    ensures s.One? ==> hs == [s.h]
    ensures s.Many? ==> |hs| == |s.xs| && forall i :: 0 <= i < |s.xs| && s.xs[i].Node? ==> hs[i] == s.xs[i].h
  {
    match s
    case One(h) => [h]
    case Many(xs) => seq(|xs|, i requires 0 <= i < |xs| => Handle(xs[i], 0))
  }

  lemma OutsCollected(outs: seq<nat>)
    ensures Outs(Collect(outs)) == outs
  {
  }

  /** Output `k` of a layer reaches the parameters of neuron `k` and the inputs it pairs
      with them. */
  ghost predicate LayerReaches(ops: seq<Op>, outs: seq<nat>, ns: seq<Neuron>, xs: seq<Operand>) {
    |outs| <= |ns| &&
    forall k :: 0 <= k < |outs| ==> Reaches(ops, outs[k], ns[k], xs, Min(|ns[k].w|, |xs|))
  }

  lemma LayerReachesMore(ops: seq<Op>, ops': seq<Op>, outs: seq<nat>, ns: seq<Neuron>, xs: seq<Operand>, o: nat)
    requires LayerReaches(ops, outs, ns, xs) && Acyclic(ops') && ops <= ops' && |outs| < |ns|
    requires Reaches(ops', o, ns[|outs|], xs, Min(|ns[|outs|].w|, |xs|))
    ensures LayerReaches(ops', outs + [o], ns, xs)
  {
    forall k | 0 <= k < |outs|
      ensures Reaches(ops', outs[k], ns[k], xs, Min(|ns[k].w|, |xs|))
    {
      ReachKept(ops, ops', outs[k]);
      ReachesKept(ops, outs[k], ops', outs[k], ns[k], xs, Min(|ns[k].w|, |xs|));
    }
  }

  lemma ReadCollected(data: seq<real>, outs: seq<nat>, want: seq<real>)
    requires Holding(data, outs, want) && |outs| == |want|
    ensures SignalIn(Collect(outs), |data|) && Read(data, Collect(outs)) == Unwrap(want)
  {
    if |outs| != 1 {
      assert Inputs(data, Nodes(outs)) == want;
    }
  }

  /** `layer(x)`: every neuron on the same inputs, in neuron order; a single output is
      returned on its own. `zip` cannot iterate a single `Value`: TypeError, before any
      node is built, unless the layer has no neuron. */
  method LayerCall(arena: Arena, l: Layer, x: Signal) returns (r: Result<Signal>)
    requires arena.Valid() && LayerIn(l, |arena.ops|) && SignalIn(x, |arena.ops|)
    modifies arena
    ensures arena.Valid() && arena.Grown(old(arena.ops), old(arena.data), old(arena.grad))
    ensures r.Ok? ==> SignalIn(r.value, |arena.ops|)
    ensures ReadResult(arena.data, r) == LayerRead(arena.exp, old(arena.data), l, Read(old(arena.data), x))
    ensures r.Err? ==> arena.ops == old(arena.ops)
    ensures r.Ok? && x.Many? ==> |Outs(r.value)| == |l.neurons| && LayerReaches(arena.ops, Outs(r.value), l.neurons, x.xs)
  {
    if x.One? {
      r := if l.neurons == [] then Ok(Many([])) else Err(TypeError);
      return;
    }
    ghost var d0 := arena.data;
    ghost var want := LayerOut(arena.exp, d0, l.neurons, Inputs(d0, x.xs));
    var outs: seq<nat> := [];
    var j := 0;
    while j < |l.neurons|
      invariant j <= |l.neurons| && |outs| == j
      invariant arena.Valid() && arena.Grown(old(arena.ops), old(arena.data), old(arena.grad))
      invariant Holding(arena.data, outs, want)
      invariant LayerReaches(arena.ops, outs, l.neurons, x.xs)
    {
      ghost var o1, d1 := arena.ops, arena.data;
      var o := NeuronCall(arena, l.neurons[j], x.xs);
      NeuronOfLayer(arena.exp, d0, d1, l, x.xs, j);
      HoldingMore(d1, arena.data, outs, want, o);
      LayerReachesMore(o1, arena.ops, outs, l.neurons, x.xs, o);
      outs := outs + [o];
      j := j + 1;
    }
    r := Ok(Collect(outs));
    ReadCollected(arena.data, outs, want);
    OutsCollected(outs);
  }

  /** Running the layers from `i` on runs layer `i` first. */
  lemma MLPReadStep(exp: Exponential, data: seq<real>, ls: seq<Layer>, i: nat, x: Reading)
    requires forall k :: 0 <= k < |ls| ==> LayerIn(ls[k], |data|)
    requires i < |ls|
    ensures MLPRead(exp, data, ls[i..], x) ==
              match LayerRead(exp, data, ls[i], x)
              case Err(e) => Err(e)
              case Ok(y) => MLPRead(exp, data, ls[i + 1..], y)
  {
    assert ls[i..][0] == ls[i] && ls[i..][1..] == ls[i + 1..];
  }

  /** A layer called on an arena grown from `(o0, d0, g0)` gives what the layer reads
      from the values in `d0`. */
  method LayerStep(arena: Arena, l: Layer, x: Signal, ghost o0: seq<Op>, ghost d0: seq<real>, ghost g0: seq<real>)
      returns (r: Result<Signal>)
    requires arena.Valid() && arena.Grown(o0, d0, g0) && LayerIn(l, |d0|) && SignalIn(x, |arena.ops|)
    modifies arena
    ensures arena.Valid() && arena.Grown(o0, d0, g0)
    ensures r.Ok? ==> SignalIn(r.value, |arena.ops|)
    ensures ReadResult(arena.data, r) == LayerRead(arena.exp, d0, l, Read(old(arena.data), x))
  {
    ghost var o1, d1, g1 := arena.ops, arena.data, arena.grad;
    r := LayerCall(arena, l, x);
    ExtendsTrans(o0, d0, g0, o1, d1, g1, arena.ops, arena.data, arena.grad);
    LayerReadKept(arena.exp, d0, d1, l, Read(d1, x));
  }

  /** `mlp(x)`: each layer is called on the previous layer's output, in list order; an
      exception from a layer ends the call. */
  method MLPCall(arena: Arena, m: MLP, x: Signal) returns (r: Result<Signal>)
    requires arena.Valid() && MLPIn(m, |arena.ops|) && SignalIn(x, |arena.ops|)
    modifies arena
    ensures arena.Valid() && arena.Grown(old(arena.ops), old(arena.data), old(arena.grad))
    ensures r.Ok? ==> SignalIn(r.value, |arena.ops|)
    ensures ReadResult(arena.data, r) == MLPRead(arena.exp, old(arena.data), m.layers, Read(old(arena.data), x))
  {
    ghost var d0 := arena.data;
    ghost var want := MLPRead(arena.exp, d0, m.layers, Read(d0, x));
    var cur := x;
    var i := 0;
    while i < |m.layers|
      invariant i <= |m.layers|
      invariant arena.Valid() && arena.Grown(old(arena.ops), old(arena.data), old(arena.grad))
      invariant SignalIn(cur, |arena.ops|)
      invariant want == MLPRead(arena.exp, d0, m.layers[i..], Read(arena.data, cur))
    {
      MLPReadStep(arena.exp, d0, m.layers, i, Read(arena.data, cur));
      var y := LayerStep(arena, m.layers[i], cur, old(arena.ops), d0, old(arena.grad));
      if y.Err? {
        return Err(y.error);
      }
      cur := y.value;
      i := i + 1;
    }
    r := Ok(cur);
  }
}
