# micrograd in Dafny

A model of micrograd's two core files:
- the scalar autograd engine (`Value` with its operators, `backward`);
- the tiny neural-network library built on it (`Neuron`, `Layer`, `MLP`).

The model works as follows:

- **Values.** Every `Value` lives in an `Engine.Arena` (a class whose fields are updated in place). A value is a handle into the arena.
  - `ops[i]` records how node `i` was built, from which earlier nodes. It stands for `_prev` and for the `_backward` closure.
  - `data[i]` holds the node's value and `grad[i]` its gradient.
- **Operators** append nodes and return the handle of the result. Python's reflected operators and error paths are modelled explicitly:
  - a failing `assert isinstance(...)` becomes `Err(AssertionError)`;
  - `0.0 ** -1` becomes `Err(ZeroDivisionError)`;
  - iterating over a single `Value` becomes `Err(TypeError)`.
- **`backward`** is a method with a loop. It builds the topological order by depth-first search (`Topo.TopoSort`), seeds the root and runs each node's backward rule in reverse order (`Engine.Arena.RunRule`).
  - Its result is proved equal to an order-independent reference, `Gradients.Grad`.
  - `Gradients.Grad` is a node's seed plus the contribution of every reachable consumer, each computed with that consumer's final gradient.
- **Networks.** `Nn.Neuron`, `Nn.Layer` and `Nn.MLP` record the handles of their parameters.
  - Construction (`NewNeuron`, `NewLayer`, `NewMLP`) appends fresh leaves. Their values are the random draws, which are passed in.
  - The forward pass (`NeuronCall`, `LayerCall`, `MLPCall`) appends the expression graph. It is proved to compute the reading that the pure functions `NeuronOut`, `LayerRead` and `MLPRead` define. This covers:
    - `zip`'s truncation;
    - a single-output layer returning its one `Value` rather than a list;
    - the `TypeError` that follows when the next layer iterates over that `Value`.

Modules:
- `Graph`: the arena as a value (`Op`, `Graph`) and the per-operation backward contributions.
- `Topo`: `build_topo`.
- `Gradients`: the reference gradient and the loop invariant of `backward`.
- `Engine`: the `Value` operators and `backward`.
- `Nn`: the network library.
- `Worked`: small graphs whose gradients are proved (`(a*b)+c`, `x+x`, `a-b`).

## Model

| member | source | states |
|---|---|---|
| Graph.Operands | micrograd/engine.py:9 | `_prev` is a set: a leaf has no operands; a binary node has one operand exactly when both sides are the same node (`x + x`), otherwise two |
| Graph.TanhOf | micrograd/engine.py:84-86 | the source's formula `(e^{2x}-1)/(e^{2x}+1)` always lies strictly between -1 and 1 |
| Graph.TanhOfZero | micrograd/engine.py:84-86 | tanh of 0 is 0 |
| Graph.Extend | micrograd/engine.py:22 | building a node from existing nodes keeps the graph acyclic and well formed |
| Graph.OperandBelow | micrograd/engine.py:9 | an operand was created before its consumer |
| Graph.ContributionOnlyToOperands | micrograd/engine.py:8 | a backward rule changes only the gradients of its node's operands; a leaf's rule (`lambda: None`) changes nothing |
| Graph.ReachBelow | micrograd/engine.py:124-129 | only the node and earlier nodes are reachable through `_prev` |
| Graph.ReachStep | micrograd/engine.py:127-128 | any other reachable node is reached through one of the node's operands |
| Graph.ReachIncluded | micrograd/engine.py:124-129 | reachability is transitive |
| Graph.ReachKept | micrograd/engine.py:124-129 | building later nodes does not change what an existing node reaches |
| Graph.ReachOfOperand | micrograd/engine.py:127-128 | what an operand reaches is reachable from its consumer, and never reaches the consumer back |
| Topo.OrderedInRange | micrograd/engine.py:122-130 | every listed node exists |
| Topo.OrderedBefore | micrograd/engine.py:127-129 | in the `topo` list every operand of a node is listed before it |
| Topo.OrderedDistinct | micrograd/engine.py:125-126 | `topo` lists no node twice |
| Topo.OrderedOperandFirst | micrograd/engine.py:127-129 | an operand's position is strictly before its consumer's |
| Topo.ListedClosed | micrograd/engine.py:124-129 | once a node is listed, everything it reaches is listed |
| Topo.EnteredIsFinished | micrograd/engine.py:125 | a node already in `visited` (and not on the current path) contributes nothing new |
| Topo.BuildTopo | micrograd/engine.py:124-129 | `build_topo(v)` extends `topo` with exactly the nodes reachable from `v` not yet listed, keeps it operand-first, and ends with `v` if `v` was unvisited |
| Topo.Visit | micrograd/engine.py:126-129 | visiting an unvisited node lists its reachable nodes, operands first, then the node itself |
| Topo.WalkStart | micrograd/engine.py:127 | the loop over `v._prev` starts with no operand walked |
| Topo.WalkNext | micrograd/engine.py:127-128 | the next operand to walk exists and lies below everything on the path |
| Topo.WalkStep | micrograd/engine.py:127-128 | walking one operand adds exactly what it reaches |
| Topo.WalkedAll | micrograd/engine.py:127-129 | after all operands are walked, `v`'s reachable set is what was added plus `v`, and every operand is listed |
| Topo.WalkDone | micrograd/engine.py:129 | appending `v` after its operands completes `Visit`'s promise |
| Topo.AppendOrdered | micrograd/engine.py:129 | appending a node whose operands are listed keeps `topo` operand-first |
| Topo.TopoSort | micrograd/engine.py:122-130 | `topo` lists exactly the nodes reachable from the root, each once, every operand before its consumer, the root last |
| Topo.Pending | micrograd/engine.py:134-135 | when a node's rule runs in reversed order, no consumer of it is still waiting |
| Gradients.InflowCongruence | micrograd/engine.py:134-135 | consumers that push nothing into a node can be added or dropped |
| Gradients.InflowInsert | micrograd/engine.py:134-135 | one more consumer adds exactly its contribution |
| Gradients.InflowEmpty | micrograd/engine.py:134-135 | without consumers nothing flows in |
| Gradients.NoInflow | micrograd/engine.py:134-135 | a node that no reachable consumer uses keeps its seed |
| Gradients.RootSeeded | micrograd/engine.py:132 | after `backward` the root's gradient is exactly 1.0, whatever it held |
| Gradients.UnreachedUnchanged | micrograd/engine.py:130-135 | `backward` leaves the gradients of unreachable nodes unchanged |
| Gradients.LeftoverAdded | micrograd/engine.py:25 | gradients accumulate with `+=`: when the nodes above `n` (other than the root) start from 0, the stale gradient of `n` is added to the fresh one, never replaced |
| Gradients.GradAgree | micrograd/engine.py:134-135 | a node's final gradient depends only on the leftover gradients of later nodes |
| Gradients.InflowAgree | micrograd/engine.py:134-135 | the same, for the inflow |
| Gradients.AccumulatedStart | micrograd/engine.py:132 | before the loop, every gradient equals its seed |
| Gradients.NextIsFinal | micrograd/engine.py:134-135 | when a node's rule runs, its own gradient is already final |
| Gradients.RuleRuns | micrograd/engine.py:134-135 | running one rule with the final gradient keeps the loop invariant |
| Engine.ExtendsTrans | micrograd/engine.py:5-11 | growing the arena twice is growing it |
| Engine.Arena.constructor | micrograd/engine.py:5-11 | a new arena holds no values |
| Engine.Arena.Push | micrograd/engine.py:5-9 | `Value(data, children)` appends one node with that value and gradient 0; nothing else changes |
| Engine.Arena.NewValue | micrograd/engine.py:5-9 | `Value(x)` appends a leaf holding `x` with gradient 0 |
| Engine.Arena.Wrap | micrograd/engine.py:21 | a `Value` operand is kept; a plain number is wrapped in a fresh leaf holding that number; the handle reads as the operand's value |
| Engine.Arena.Add | micrograd/engine.py:17-29 | `self + other` appends exactly the wrapped leaf (for a number) and an `Add` node, with every new value stated: the number, then the sum |
| Engine.Arena.Mul | micrograd/engine.py:31-44 | `self * other` appends exactly the wrapped leaf (for a number) and a `Mul` node, with every new value stated: the number, then the product |
| Engine.Arena.Pow | micrograd/engine.py:46-57 | `self ** k`: a non-numeric exponent fails the assertion, a zero base with a negative exponent raises ZeroDivisionError, each exactly when it applies and with the arena unchanged; on success exactly one `Pow` node holding `x^k` is appended |
| Engine.Arena.Neg | micrograd/engine.py:77-78 | `-self` is `self * (-1)`: appends exactly a leaf holding -1 and a `Mul` node holding the negation; its backward rule gives `self` the contribution `-1 * out.grad` |
| Engine.Arena.RAdd | micrograd/engine.py:59-60 | `other + self` appends exactly a leaf holding `other` and an `Add` node holding the sum |
| Engine.Arena.RMul | micrograd/engine.py:68-69 | `other * self` appends exactly a leaf holding `other` and a `Mul` node holding the product |
| Engine.Arena.Sub | micrograd/engine.py:62-63 | `self - other` is `self + (-other)`: for a number, a leaf holding `-other` and an `Add` node; for a `Value`, a -1 leaf, the negation node and an `Add` node, every value stated; the result is the difference, `self` receives `1 * out.grad`, the negation node `1 * out.grad` and `other` `-1` times the negation node's gradient |
| Engine.Arena.RSub | micrograd/engine.py:65-66 | `other - self` is `(-self) + other`: a -1 leaf, the negation node, a leaf holding `other` and an `Add` node holding the difference; the negation node receives `1 * out.grad` and `self` `-1` times the negation node's gradient |
| Engine.Arena.Div | micrograd/engine.py:71-72 | `self / other` is `self * other**(-1)`: ZeroDivisionError exactly when the divisor is 0, with the arena unchanged; otherwise, for a number, a leaf holding `1/other` (Python computes `other**-1` on the number, then wraps it), for a `Value`, a `Pow` node holding `1/other`; then a `Mul` node holding the quotient |
| Engine.Arena.RDiv | micrograd/engine.py:74-75 | `other / self` is `other * self**(-1)`: ZeroDivisionError exactly when `self` is 0, with the arena unchanged; otherwise a `Pow` node holding `1/self`, a leaf holding `other` and a `Mul` node holding the quotient |
| Engine.Arena.Tanh | micrograd/engine.py:80-92 | appends exactly one `Tanh` node holding the source's tanh formula, strictly between -1 and 1 |
| Engine.Arena.Exp | micrograd/engine.py:94-105 | appends exactly one `Exp` node holding `math.exp` of the value, which is positive |
| Engine.Arena.ReluAsWritten | micrograd/engine.py:107-116 | as written, `relu` appends one `ReLU` node holding `max(0, x)` but returns nothing |
| Engine.Arena.Relu | micrograd/engine.py:107-116 | corrected `relu`: returns the new node, whose value is `max(0, x)` |
| Engine.Arena.RunRule | micrograd/engine.py:134-135 | `node._backward()` adds the node's contribution to every gradient and changes nothing else |
| Engine.Arena.AddRule | micrograd/engine.py:24-26 | both operands of `+` receive `1.0 * out.grad` (twice for `x + x`) |
| Engine.Arena.MulRule | micrograd/engine.py:38-41 | each operand of `*` receives the other's value times `out.grad` |
| Engine.Arena.PowRule | micrograd/engine.py:53-54 | the base receives `k * x^(k-1) * out.grad` |
| Engine.Arena.TanhRule | micrograd/engine.py:88-89 | the operand receives `(1 - t^2) * out.grad` |
| Engine.Arena.ExpRule | micrograd/engine.py:101-102 | the operand receives `out.data * out.grad` |
| Engine.Arena.ReluRule | micrograd/engine.py:114-115 | the operand receives `out.grad` when the output is positive, else 0 |
| Engine.Arena.Backward | micrograd/engine.py:118-135 | after `backward()` every gradient equals the reference `Grad` (the root holds 1.0, unreachable nodes are unchanged, stale gradients are accumulated into); values and structure are unchanged |
| Nn.LayerParameterCount | micrograd/Micrograd_nn.py:34-35 | a layer of `nout` neurons over `nin` inputs has `nout * (nin + 1)` parameters |
| Nn.LayerParametersInOrder | micrograd/Micrograd_nn.py:34-35 | parameter `t` of neuron `j` sits at position `j * (nin + 1) + t` of the layer's list |
| Nn.MLPParameterCount | micrograd/Micrograd_nn.py:53-54 | an MLP has the sum over its layers of `nout * (nin + 1)` parameters |
| Nn.DrawCount | micrograd/Micrograd_nn.py:44-46 | building an MLP makes exactly as many random draws as it has parameters |
| Nn.LayerDrawCount | micrograd/Micrograd_nn.py:27-28 | building a layer makes `nout * (nin + 1)` draws |
| Nn.ParameterValues | micrograd/Micrograd_nn.py:7-8 | the `k`th parameter holds the `k`th draw, so every initial parameter lies in [-1, 1] |
| Nn.NewNeuron | micrograd/Micrograd_nn.py:6-8 | `Neuron(nin)` appends `nin + 1` fresh leaves holding the draws: `nin` weights, then the bias |
| Nn.NewLayer | micrograd/Micrograd_nn.py:27-28 | `Layer(nin, nout)` has `nout` neurons of `nin` weights, and its parameters are exactly the leaves it appended, in order |
| Nn.NewMLP | micrograd/Micrograd_nn.py:44-46 | `MLP(nin, nouts)` has layers of sizes `sz[i] -> sz[i+1]`, and its parameters are exactly the leaves it appended, in order |
| Nn.LayerAdded | micrograd/Micrograd_nn.py:46 | adding the next layer extends the shape, the parameter list and the draws consumed |
| Nn.AffinePrefix | micrograd/Micrograd_nn.py:15 | the weighted sum over the first `k` pairs depends only on those pairs |
| Nn.ZipTruncates | micrograd/Micrograd_nn.py:15 | `zip` stops at the shorter of weights and inputs |
| Nn.ExtraInputsIgnored | micrograd/Micrograd_nn.py:15 | inputs beyond the neuron's weights are ignored |
| Nn.BiasAdded | micrograd/Micrograd_nn.py:15 | the bias is the start value of `sum`: it is added once to the weighted sum |
| Nn.NeuronOut | micrograd/Micrograd_nn.py:10-17 | a neuron's output lies strictly between -1 and 1 |
| Nn.LayerOut | micrograd/Micrograd_nn.py:31 | one output per neuron, each strictly between -1 and 1 |
| Nn.ReadCollected | micrograd/Micrograd_nn.py:31-32 | the returned signal reads as the unwrapped list of outputs |
| Nn.HoldingMore | micrograd/Micrograd_nn.py:31 | outputs already computed keep their values while later neurons run |
| Nn.NeuronOfLayer | micrograd/Micrograd_nn.py:31 | every neuron of a layer sees the same inputs, unaffected by the nodes earlier neurons built |
| Nn.MLPReadAppend | micrograd/Micrograd_nn.py:48-51 | running layers `ls1 + ls2` is running `ls1`, then `ls2` on its result; an error stops the run |
| Nn.MLPReadStep | micrograd/Micrograd_nn.py:49-50 | one loop iteration applies the next layer |
| Nn.LayerWidth | micrograd/Micrograd_nn.py:30-32 | a layer of width `nout` fed a list succeeds, with a bare value when `nout == 1` and a list of `nout` otherwise |
| Nn.MLPWidth | micrograd/Micrograd_nn.py:48-51 | when no inner layer has width 1, an MLP fed a list succeeds and its output has the last layer's width |
| Nn.NarrowLayerFails | micrograd/Micrograd_nn.py:30-32 | a width-1 layer followed by another layer raises TypeError (iterating over a `Value`), unless that layer has no neurons |
| Nn.NeuronOutKept | micrograd/Micrograd_nn.py:10-17 | building new nodes does not change what a neuron computes |
| Nn.LayerReadKept | micrograd/Micrograd_nn.py:30-32 | building new nodes does not change what a layer computes |
| Nn.InputsKept | micrograd/Micrograd_nn.py:15 | building new nodes does not change the input values |
| Nn.PairKept | micrograd/Micrograd_nn.py:15 | the `i`th weight and input keep their values while the sum is built |
| Nn.Term | micrograd/Micrograd_nn.py:15 | one `acc + wi*xi` step appends exactly the wrapped input (for a number), a `Mul` node of the weight and the input and an `Add` node of the running sum and that product; the new running sum adds the next product |
| Nn.TermReach | micrograd/Micrograd_nn.py:15 | after a step the new running sum reaches what the old one reached, the weight and the input |
| Nn.TermReaches | micrograd/Micrograd_nn.py:15 | a step adds the next weight and input to what the running sum reaches |
| Nn.ReachesMore | micrograd/Micrograd_nn.py:15 | a handle that reaches more reaches the next pair as well |
| Nn.ReachesKept | micrograd/Micrograd_nn.py:10-17 | a handle that reaches more keeps reaching the bias and the earlier pairs |
| Nn.SumStep | micrograd/Micrograd_nn.py:15 | one iteration of `sum`, keeping the arena grown from the start and extending both the value and the reach of the running sum |
| Nn.WeightedSum | micrograd/Micrograd_nn.py:15 | `sum(wi*xi for zip(w, x), b)` builds a node holding the bias plus the zipped weighted sum, from which the bias, every zipped weight and every zipped `Value` input are reachable (so `backward` reaches the parameters) |
| Nn.NeuronCall | micrograd/Micrograd_nn.py:10-17 | calling a neuron appends, last, a `Tanh` node holding `tanh` of that sum, which reaches the bias, the zipped weights and the zipped `Value` inputs |
| Nn.LayerCall | micrograd/Micrograd_nn.py:30-32 | calling a layer yields the reading `LayerRead` defines: the unwrapped outputs, or TypeError for a single `Value` input to a layer with neurons, with nothing built; on a list input, output `j` reaches the parameters of neuron `j` and the inputs it pairs with them |
| Nn.OutsCollected | micrograd/Micrograd_nn.py:32 | returning the outputs bare or as a list loses no handle |
| Nn.LayerReachesMore | micrograd/Micrograd_nn.py:31 | outputs of earlier neurons keep reaching their parameters while later neurons run |
| Nn.LayerStep | micrograd/Micrograd_nn.py:49-50 | one layer applied inside `MLP.__call__` reads as `LayerRead` on the values the MLP started with |
| Nn.MLPCall | micrograd/Micrograd_nn.py:48-51 | calling an MLP yields the reading `MLPRead` defines: the layers applied in turn, stopping at the first error |
| Worked.Example | micrograd/engine.py:17-44 | `e = a*b; d = e + c` with `a=2, b=-3, c=10` is a well-formed graph |
| Worked.ExampleReach | micrograd/engine.py:124-129 | `d` reaches all five nodes |
| Worked.ExampleGradsSum | micrograd/engine.py:24-26 | `dd/de = dd/dc = 1` |
| Worked.ExampleGradB | micrograd/engine.py:38-41 | `dd/db = a = 2` |
| Worked.ExampleGradA | micrograd/engine.py:38-41 | `dd/da = b = -3` |
| Worked.BuildLeaves | micrograd/engine.py:5-11 | three fresh `Value`s holding 2, -3, 10 with zero gradients |
| Worked.BuildExample | micrograd/engine.py:17-44 | building `a*b + c` with the operators yields that graph, all gradients 0 |
| Worked.Demo | micrograd/engine.py:118-135 | after `d.backward()` the gradients are `a: -3, b: 2, c: 1, e: 1, d: 1` |
| Worked.Doubled | micrograd/engine.py:17-22 | `y = x + x` is well formed |
| Worked.DoubledGrads | micrograd/engine.py:24-26 | `dy/dx = 2`, and a second `backward` without zeroing accumulates to 4 |
| Worked.Difference | micrograd/engine.py:62-63 | `d = a - b` built as `a + b*(-1)` is well formed |
| Worked.DifferenceReach | micrograd/engine.py:62-63 | `d = a - b` reaches all five nodes |
| Worked.DifferenceGradA | micrograd/engine.py:24-26 | `dd/da = 1` |
| Worked.DifferenceGradB | micrograd/engine.py:38-41 | `dd/db = -1`, through the `-1` leaf of the negation |
| Worked.BuildDoubled | micrograd/engine.py:17-22 | `x + x` built with the operator yields that graph, gradients 0 |
| Worked.DemoDoubled | micrograd/engine.py:118-135 | `y.backward()` gives `x.grad == 2`; a second call without zeroing gives 4 |
| Worked.BuildDifference | micrograd/engine.py:62-63 | `a - b` built with the `-` operator yields that graph, gradients 0 |
| Worked.DemoDifference | micrograd/engine.py:118-135 | after `d.backward()` the gradients of `a` and `b` are 1 and -1 |

Definitions. These functions transcribe the source and carry no claim of their own; the members in the table above state what they mean:
- `Gradients.Seed` (micrograd/engine.py:132): the root's gradient is set to 1.0 and every other node keeps its gradient; `Gradients.AccumulatedStart` and `Gradients.RootSeeded` use it.
- `Gradients.Zeros` (micrograd/engine.py:7): the gradients of fresh nodes; `Engine.Arena.Push` states that a new node's gradient is 0.
- `Graph.Contribution` (micrograd/engine.py:24-26, 38-41, 53-54, 88-89, 101-102, 114-115): what one node's backward rule adds to an operand's gradient, given the node's gradient; the rule methods (`Engine.Arena.AddRule` and the others) are proved against it.
- `Graph.Power` (micrograd/engine.py:51): `x ** k` for an integer `k`; `Engine.Arena.Pow` and `Engine.Arena.Div` use it.
- `Engine.LocalDerivative` (micrograd/engine.py:24-26, 38-41): the factor a node's backward rule puts on its gradient for one operand.
- `Nn.NeuronParameters` (micrograd/Micrograd_nn.py:23): the weights, then the bias; `Nn.NewNeuron` and `Nn.LayerParametersInOrder` state the order.
- `Nn.LayerParameters` (micrograd/Micrograd_nn.py:35) and `Nn.MLPParameters` (micrograd/Micrograd_nn.py:54): the parameters of each neuron, then of each layer, in order; `Nn.LayerParameterCount`, `Nn.MLPParameterCount`, `Nn.NewLayer` and `Nn.NewMLP` state their length and content.
- `Nn.Sizes` (micrograd/Micrograd_nn.py:45): `[nin] + nouts`; `Nn.NewMLP` states the layer shapes it gives.
- `Nn.Weights` (micrograd/Micrograd_nn.py:7) and `Nn.Inputs` (micrograd/Micrograd_nn.py:15): the values of the weights and of the inputs; `Nn.PairKept` and `Nn.InputsKept` use them.
- `Nn.Preactivation` (micrograd/Micrograd_nn.py:15): the bias plus the zipped weighted sum; `Nn.ZipTruncates`, `Nn.ExtraInputsIgnored` and `Nn.BiasAdded` state its properties.
- `Nn.LayerRead` (micrograd/Micrograd_nn.py:30-32) and `Nn.MLPRead` (micrograd/Micrograd_nn.py:48-51): what a layer and an MLP compute, as values; `Nn.LayerWidth`, `Nn.MLPWidth`, `Nn.NarrowLayerFails` and `Nn.MLPReadAppend` state their properties.
- `Nn.Unwrap` and `Nn.Collect` (micrograd/Micrograd_nn.py:32): a single output bare, otherwise a list; `Nn.LayerWidth` and `Nn.ReadCollected` state the result.
- `Nn.Outs` (micrograd/Micrograd_nn.py:32): the handles a returned signal names; `Nn.OutsCollected` states that returning the outputs bare or as a list loses none.
- `Nn.Affine` (micrograd/Micrograd_nn.py:15): the bias plus the first `k` products of `sum`'s generator; `Nn.AffinePrefix`, `Nn.ZipTruncates` and `Nn.BiasAdded` state its properties, and `Nn.Term` and `Nn.WeightedSum` are proved against it.
- `Gradients.Grad` and `Gradients.Inflow` (micrograd/engine.py:132-135): a node's gradient after `backward` as its seed plus the contributions of its reachable consumers, each with that consumer's final gradient; `Engine.Arena.Backward` is proved against `Grad`, and `Gradients.RootSeeded`, `Gradients.UnreachedUnchanged` and `Gradients.LeftoverAdded` state its properties.

## Left out

- Floating point: values are exact reals. Rounding, infinities, NaN and the `OverflowError` that `math.exp` raises for large arguments are not modelled.
- `math.exp` is foreign code. It is the arena's `exp` parameter, known only to be positive with `exp(0) = 1`.
- Fractional exponents: `**` is modelled for integer exponents and for non-numbers (the assertion). A float exponent, and the complex results Python gives for a negative base, are not modelled.
- Engine.Arena.Pow: requires a nonzero base when the exponent is 0. The source builds `x ** 0` for `x == 0`, but its backward rule then evaluates `0.0 ** -1` and raises ZeroDivisionError inside `backward`, a failure the model does not carry.
- `random.uniform(-1, 1)` is not modelled. The draws are a parameter, grouped per layer and per neuron (weights in order, then the bias), in the order the source draws them. `Nn.ParameterValues` states the `[-1, 1]` range as a hypothesis on the draws.
- `label`, `_op` and `__repr__` carry no behaviour and are not modelled.
- The network file imports the engine as `MicroGrad.engine`, which does not match the package directory's case. The model treats the two files as one package.
- Set iteration order: `build_topo` walks `_prev` in an unspecified order. `Topo.Visit` picks operands nondeterministically, so its contract holds for every order.
- `assert` statements are modelled as always enabled. Under `python -O` the non-numeric exponent would not be rejected.
- Object identity and hashing: a `Value` is its handle. `Value` objects that live outside one arena are not modelled.
- The arena holds sequences that methods reassign, not Python lists or arrays mutated in place.
- `Engine.Arena.Valid` does not tie `data` to the operations (for example, that an `Add` node holds the sum of its operands). Each operator states every value it appends instead, and `backward` relies only on the structure and the values as stored.
- `Topo.BuildTopo` has no depth bound. The source's `build_topo` is recursive, so a graph deeper than Python's recursion limit (1000 frames by default) raises `RecursionError` in `backward`. A neuron with about 1000 inputs builds a chain of `+` nodes that deep. The model returns the topological order for graphs of any depth.
- Nn.MLPCall: states the values it computes but not which nodes each output reaches. Reachability is stated per neuron (`Nn.NeuronCall`) and per layer (`Nn.LayerCall`), not composed across layers.
- A plain number passed to `Layer.__call__` or `MLP.__call__` (Python's `zip` then raises TypeError) has no form in `Nn.Signal`, and negative `nin` or `nout` (for which `range` builds nothing) are excluded by the `nat` type; neither is modelled.
- Types other than `Value` and numbers passed to the operators (strings, lists) are not modelled; a Python `TypeError` there is out of scope.

## Findings

| source | as written | input that shows it | evidently intended | confidence | as-written member | corrected member |
|---|---|---|---|---|---|---|
| micrograd/engine.py:107-116 | `relu` builds its output node and installs its backward rule, but has no `return out`, so it returns `None` | any `Value`, for example `Value(2.0).relu()` gives `None` | return the new node, holding `max(0, x)` | not executed | Engine.Arena.ReluAsWritten | Engine.Arena.Relu |
