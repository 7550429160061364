/** The scalar computation graph of micrograd's engine as plain data.

    A node of the source is a `Value` object that remembers its operands (`_prev`)
    and a closure (`_backward`) that pushes its gradient to them. Here the graph is
    an arena: node `i` is described by `ops[i]` (which operation produced it, and
    from which earlier nodes) and `data[i]` (its forward value). The closures become
    the function `Contribution`, one case per operation kind. */
module Graph {

  /** How a node was produced; operands are handles of earlier nodes. */
  datatype Op =
    | Leaf
    | Add(a: nat, b: nat)
    | Mul(a: nat, b: nat)
    | Pow(a: nat, k: int)
    | Tanh(a: nat)
    | Exp(a: nat)
    | Relu(a: nat)

  /** A snapshot of the arena: the producing operation and the value of every node. */
  datatype Graph = Graph(ops: seq<Op>, data: seq<real>)

  /** `math.exp` is foreign code: the model takes it as a parameter, known only to be
      positive and to map 0 to 1. */
  type Exponential = f: real -> real | (forall x :: f(x) > 0.0) && f(0.0) == 1.0
    witness x => 1.0

  /** The operand set `_prev`: a set, so `x + x` has the single operand `x`. */
  function Operands(op: Op): (r: set<nat>)
    ensures op.Leaf? <==> r == {}
    ensures (op.Add? || op.Mul?) ==> (|r| == 1 <==> op.a == op.b)
    ensures !(op.Leaf? || op.Add? || op.Mul?) ==> r == {op.a}
  {
    match op
    case Leaf => {}
    case Add(a, b) => {a, b}
    case Mul(a, b) => {a, b}
    case Pow(a, _) => {a}
    case Tanh(a) => {a}
    case Exp(a) => {a}
    case Relu(a) => {a}
  }

  /** Every operand of a node built at position `i` is an earlier node. */
  predicate Below(op: Op, i: nat) {
    match op
    case Leaf => true
    case Add(a, b) => a < i && b < i
    case Mul(a, b) => a < i && b < i
    case Pow(a, _) => a < i
    case Tanh(a) => a < i
    case Exp(a) => a < i
    case Relu(a) => a < i
  }

  /** Operations only build new nodes from existing ones, so the graph is acyclic. */
  predicate Acyclic(ops: seq<Op>) {
    forall i :: 0 <= i < |ops| ==> Below(ops[i], i)
  }

  lemma OperandBelow(ops: seq<Op>, v: nat, c: nat)
    requires Acyclic(ops) && v < |ops| && c in Operands(ops[v])
    ensures c < v
  {
    assert Below(ops[v], v);
  }

  /** `x ** k` for an integer exponent; a negative exponent needs a nonzero base
      (the source raises ZeroDivisionError otherwise). */
  function Power(x: real, k: int): real
    requires k >= 0 || x != 0.0
    decreases if k >= 0 then k else -k
  {
    if k == 0 then 1.0
    else if k > 0 then x * Power(x, k - 1)
    else Power(x, k + 1) / x
  }

  /** A `Pow` operand exists, and when the exponent is not positive it is nonzero, so
      that both the forward value and the backward rule (which evaluates
      `base ** (k - 1)`) are defined. */
  predicate PowOk(op: Op, data: seq<real>) {
    match op
    case Pow(a, k) => a < |data| && (k <= 0 ==> data[a] != 0.0)
    case _ => true
  }

  predicate WellFormed(g: Graph) {
    |g.data| == |g.ops| && Acyclic(g.ops) &&
    forall i :: 0 <= i < |g.ops| ==> PowOk(g.ops[i], g.data)
  }

  /** The source's tanh formula, `(e^{2x} - 1) / (e^{2x} + 1)`. */
  function TanhOf(exp: Exponential, x: real): (t: real)
    ensures -1.0 < t < 1.0
  {
    var e := exp(2.0 * x);
    assert e > 0.0;
    (e - 1.0) / (e + 1.0)
  }

  lemma TanhOfZero(exp: Exponential)
    ensures TanhOf(exp, 0.0) == 0.0
  {
    assert exp(2.0 * 0.0) == 1.0;
  }

  /** Building a node from existing ones keeps the graph well formed. */
  lemma Extend(g: Graph, op: Op, x: real)
    requires WellFormed(g) && Below(op, |g.ops|) && PowOk(op, g.data)
    ensures WellFormed(Graph(g.ops + [op], g.data + [x]))
  {
    var ops', data' := g.ops + [op], g.data + [x];
    forall i | 0 <= i < |ops'| ensures Below(ops'[i], i) && PowOk(ops'[i], data') {
      if i < |g.ops| {
        assert Below(g.ops[i], i) && PowOk(g.ops[i], g.data);
      }
    }
  }

  /** What the backward rule of node `x`, run while `x`'s gradient is `out`, adds to
      the gradient of node `n`. A node that is both operands (as in `x * x`) receives
      both terms, as the two `+=` statements of the source do. */
  function Contribution(g: Graph, x: nat, out: real, n: nat): real
    requires WellFormed(g) && x < |g.ops|
  {
    assert Below(g.ops[x], x) && PowOk(g.ops[x], g.data);
    match g.ops[x]
    case Leaf => 0.0
    case Add(a, b) =>
      (if a == n then 1.0 * out else 0.0) + (if b == n then 1.0 * out else 0.0)
    case Mul(a, b) =>
      (if a == n then g.data[b] * out else 0.0) + (if b == n then g.data[a] * out else 0.0)
    case Pow(a, k) =>
      if a == n then (k as real) * Power(g.data[a], k - 1) * out else 0.0
    case Tanh(a) =>
      if a == n then (1.0 - g.data[x] * g.data[x]) * out else 0.0
    case Exp(a) =>
      if a == n then g.data[x] * out else 0.0
    case Relu(a) =>
      if a == n then (if g.data[x] > 0.0 then 1.0 else 0.0) * out else 0.0
  }

  /** A backward rule touches only the node's operands; a leaf's rule is a no-op. */
  lemma ContributionOnlyToOperands(g: Graph, x: nat, out: real, n: nat)
    requires WellFormed(g) && x < |g.ops| && n !in Operands(g.ops[x])
    ensures Contribution(g, x, out, n) == 0.0
  {
  }

  /** The nodes reachable from `v` through `_prev` links, `v` included. */
  ghost function Reach(ops: seq<Op>, v: nat): set<nat>
    requires Acyclic(ops) && v < |ops|
    decreases v
  {
    assert Below(ops[v], v);
    {v} + match ops[v]
          case Leaf => {}
          case Add(a, b) => Reach(ops, a) + Reach(ops, b)
          case Mul(a, b) => Reach(ops, a) + Reach(ops, b)
          case Pow(a, _) => Reach(ops, a)
          case Tanh(a) => Reach(ops, a)
          case Exp(a) => Reach(ops, a)
          case Relu(a) => Reach(ops, a)
  }

  /** Only `v` and earlier nodes are reachable from `v`. */
  lemma {:induction false} ReachBelow(ops: seq<Op>, v: nat, x: nat)
    requires Acyclic(ops) && v < |ops| && x in Reach(ops, v)
    ensures x <= v
    decreases v
  {
    if x != v {
      var c := ReachStep(ops, v, x);
      ReachBelow(ops, c, x);
    }
  }

  /** A node other than `v` is reachable from `v` only through one of `v`'s operands. */
  lemma ReachStep(ops: seq<Op>, v: nat, x: nat) returns (c: nat)
    requires Acyclic(ops) && v < |ops| && x in Reach(ops, v) && x != v
    ensures c in Operands(ops[v]) && c < v && x in Reach(ops, c)
  {
    assert Below(ops[v], v);
    match ops[v]
    case Add(a, b) => c := if x in Reach(ops, a) then a else b;
    case Mul(a, b) => c := if x in Reach(ops, a) then a else b;
    case Pow(a, _) => c := a;
    case Tanh(a) => c := a;
    case Exp(a) => c := a;
    case Relu(a) => c := a;
  }

  /** What a reachable node reaches is reachable. */
  lemma {:induction false} ReachIncluded(ops: seq<Op>, v: nat, x: nat)
    requires Acyclic(ops) && v < |ops| && x in Reach(ops, v)
    ensures x < |ops| && Reach(ops, x) <= Reach(ops, v)
    decreases v
  {
    ReachBelow(ops, v, x);
    if x != v {
      var c := ReachStep(ops, v, x);
      ReachIncluded(ops, c, x);
      ReachOfOperand(ops, v, c);
    }
  }

  /** What an operand reaches is reachable from its consumer, which it does not reach. */
  lemma ReachOfOperand(ops: seq<Op>, v: nat, c: nat)
    requires Acyclic(ops) && v < |ops| && c in Operands(ops[v])
    ensures c < v && c in Reach(ops, c) && Reach(ops, c) <= Reach(ops, v) - {v}
  {
    OperandBelow(ops, v, c);
    assert v in Reach(ops, v);
    forall x | x in Reach(ops, c) ensures x != v {
      ReachBelow(ops, c, x);
    }
  }

  /** Appending nodes does not change what an existing node reaches. */
  lemma {:induction false} ReachKept(ops0: seq<Op>, ops: seq<Op>, v: nat)
    requires Acyclic(ops) && ops0 <= ops && v < |ops0|
    ensures Acyclic(ops0) && Reach(ops, v) == Reach(ops0, v)
    decreases v
  {
    assert Acyclic(ops0) by {
      forall i | 0 <= i < |ops0| ensures Below(ops0[i], i) {
        assert ops0[i] == ops[i];
      }
    }
    assert ops0[v] == ops[v] && Below(ops[v], v);
    match ops[v]
    case Leaf =>
    case Add(a, b) => ReachKept(ops0, ops, a); ReachKept(ops0, ops, b);
    case Mul(a, b) => ReachKept(ops0, ops, a); ReachKept(ops0, ops, b);
    case Pow(a, _) => ReachKept(ops0, ops, a);
    case Tanh(a) => ReachKept(ops0, ops, a);
    case Exp(a) => ReachKept(ops0, ops, a);
    case Relu(a) => ReachKept(ops0, ops, a);
  }
}
