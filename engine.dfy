/** micrograd's `Value` objects and their operators.

    Every `Value` lives in one `Arena`: a `Value` is a handle (its index), and the
    arena's fields hold, per handle, the operation that built it (`ops`, standing for
    `_prev` and `_backward`), its `data` and its `grad`. Operators append new nodes;
    `Backward` updates gradients in place. `math.exp` is the arena's `exp`. */
module Engine {
  import opened Graph
  import Topo
  import opened Gradients

  datatype Option<T> = None | Some(value: T)

  /** The exceptions an operator can raise. */
  datatype Error =
    | AssertionError     // `**` with an exponent that is not a number
    | ZeroDivisionError  // a zero base raised to a negative power
    | TypeError          // a single `Value` where a list of inputs is iterated

  datatype Result<T> = Ok(value: T) | Err(error: Error)

  /** The other side of a binary operator: a `Value`, or a plain number that the
      operator wraps in a fresh `Value`. */
  datatype Operand = Node(h: nat) | Num(x: real)

  /** The exponent of `**`: an `int`, or something that is not a number. */
  datatype Exponent = Whole(k: int) | NonNumeric

  /** The handle an operand has once wrapped, where `next` is the first free handle. */
  function Handle(other: Operand, next: nat): nat {
    match other
    case Node(h) => h
    case Num(_) => next
  }

  /** The number an operand stands for, given the values of the nodes. */
  function ValueIn(data: seq<real>, other: Operand): real
    requires other.Node? ==> other.h < |data|
  {
    match other
    case Node(h) => data[h]
    case Num(x) => x
  }

  /** The nodes wrapping an operand appends: one leaf for a plain number. */
  function Wrapped(other: Operand): seq<Op> {
    if other.Num? then [Leaf] else []
  }

  /** The values of the nodes wrapping an operand appends: the plain number itself. */
  function WrappedData(other: Operand): seq<real> {
    if other.Num? then [other.x] else []
  }

  /** The backward rule of node `x` adds `d` times `x`'s gradient to node `n`: `d` is
      the local derivative of `x` with respect to `n`. */
  ghost predicate LocalDerivative(g: Graph, x: nat, n: nat, d: real)
    requires WellFormed(g) && x < |g.ops|
  {
    forall u: real :: Contribution(g, x, u, n) == d * u
  }

  /** `ops, data, grad` extend `ops0, data0, grad0`: existing nodes keep their
      operation, value and gradient, and new nodes start with gradient 0. */
  predicate Extends(ops0: seq<Op>, data0: seq<real>, grad0: seq<real>,
                    ops: seq<Op>, data: seq<real>, grad: seq<real>) {
    ops0 <= ops && data0 <= data && grad0 <= grad && |grad| == |ops| &&
    forall i :: |grad0| <= i < |grad| ==> grad[i] == 0.0
  }

  lemma ExtendsTrans(ops0: seq<Op>, data0: seq<real>, grad0: seq<real>,
                     ops1: seq<Op>, data1: seq<real>, grad1: seq<real>,
                     ops2: seq<Op>, data2: seq<real>, grad2: seq<real>)
    requires Extends(ops0, data0, grad0, ops1, data1, grad1)
    requires Extends(ops1, data1, grad1, ops2, data2, grad2)
    ensures Extends(ops0, data0, grad0, ops2, data2, grad2)
  {
    forall i | |grad0| <= i < |grad2| ensures grad2[i] == 0.0 {
      if i < |grad1| {
        assert grad2[i] == grad1[i];
      }
    }
  }

  class Arena {
    var ops: seq<Op>
    var data: seq<real>
    var grad: seq<real>
    const exp: Exponential

    /** Every node was built from earlier ones and has a value and a gradient. */
    ghost predicate Valid()
      reads this
    {
      |grad| == |ops| && WellFormed(Graph(ops, data))
    }

    /** The arena only grows: existing nodes keep their operation, value and gradient,
        and new nodes start with gradient 0 (`self.grad = 0.0`). */
    ghost predicate Grown(ops0: seq<Op>, data0: seq<real>, grad0: seq<real>)
      reads this
    {
      Extends(ops0, data0, grad0, ops, data, grad)
    }

    predicate Has(other: Operand)
      reads this
    {
      other.Node? ==> other.h < |ops|
    }

    constructor (exp: Exponential)
      ensures Valid() && ops == [] && data == [] && grad == [] && this.exp == exp
    {
      ops, data, grad := [], [], [];
      this.exp := exp;
    }

    /** `Value(data, _children, _op)`: a node with value `x` and gradient 0, built by
        `op` from existing nodes. */
    method Push(op: Op, x: real) returns (h: nat)
      requires Valid() && Below(op, |ops|) && PowOk(op, data)
      modifies this
      ensures Valid() && Grown(old(ops), old(data), old(grad))
      ensures h == |old(ops)| && ops == old(ops) + [op] && data == old(data) + [x]
      ensures grad == old(grad) + [0.0]
    {
      Extend(Graph(ops, data), op, x);
      h := |ops|;
      ops, data, grad := ops + [op], data + [x], grad + [0.0];
    }

    /** `Value(x)`: a new leaf. */
    method NewValue(x: real) returns (h: nat)
      requires Valid()
      modifies this
      ensures Valid() && Grown(old(ops), old(data), old(grad))
      ensures h == |old(ops)| && ops == old(ops) + [Leaf] && data == old(data) + [x]
      ensures grad == old(grad) + [0.0]
    {
      h := Push(Leaf, x);
    }

    /** `other if isinstance(other, Value) else Value(other)`. */
    method Wrap(other: Operand) returns (h: nat)
      requires Valid() && Has(other)
      modifies this
      ensures Valid() && Grown(old(ops), old(data), old(grad))
      ensures ops == old(ops) + Wrapped(other) && data == old(data) + WrappedData(other)
      ensures h == Handle(other, |old(ops)|) && h < |ops| && data[h] == ValueIn(old(data), other)
    {
      match other
      case Node(h') => h := h';
      case Num(x) => h := NewValue(x);
    }

    /** `self + other`. */
    method Add(self: nat, other: Operand) returns (out: nat)
      requires Valid() && self < |ops| && Has(other)
      modifies this
      ensures Valid() && Grown(old(ops), old(data), old(grad))
      ensures ops == old(ops) + Wrapped(other) + [Op.Add(self, Handle(other, |old(ops)|))]
      ensures data == old(data) + WrappedData(other) + [old(data[self]) + ValueIn(old(data), other)]
      ensures out == |ops| - 1 && data[out] == old(data[self]) + ValueIn(old(data), other)
    {
      var o := Wrap(other);
      out := Push(Op.Add(self, o), data[self] + data[o]);
    }

    /** `self * other`. */
    method Mul(self: nat, other: Operand) returns (out: nat)
      requires Valid() && self < |ops| && Has(other)
      modifies this
      ensures Valid() && Grown(old(ops), old(data), old(grad))
      ensures ops == old(ops) + Wrapped(other) + [Op.Mul(self, Handle(other, |old(ops)|))]
      ensures data == old(data) + WrappedData(other) + [old(data[self]) * ValueIn(old(data), other)]
      ensures out == |ops| - 1 && data[out] == old(data[self]) * ValueIn(old(data), other)
    {
      var o := Wrap(other);
      ghost var mid := data;
      assert mid == old(data) + WrappedData(other);
      var x := data[self] * data[o];
      assert x == old(data[self]) * ValueIn(old(data), other);
      out := Push(Op.Mul(self, o), x);
      assert data == mid + [x];
    }

    /** `self ** other`: the exponent must be a number (else the assertion fails), and
        a zero base cannot be raised to a negative power. */
    method Pow(self: nat, other: Exponent) returns (r: Result<nat>)
      requires Valid() && self < |ops|
      requires other == Whole(0) ==> data[self] != 0.0
      modifies this
      ensures Valid() && Grown(old(ops), old(data), old(grad))
      ensures other.NonNumeric? ==> r == Err(AssertionError) && ops == old(ops)
      ensures other.Whole? && other.k < 0 && old(data[self]) == 0.0 ==>
                r == Err(ZeroDivisionError) && ops == old(ops)
      ensures r.Ok? <==> other.Whole? && (other.k > 0 || old(data[self]) != 0.0)
      ensures r.Err? ==> data == old(data) && grad == old(grad)
      ensures r.Ok? ==> ops == old(ops) + [Op.Pow(self, other.k)] && r.value == |ops| - 1 &&
                        data == old(data) + [Power(old(data[self]), other.k)]
    {
      match other
      case NonNumeric =>
        return Err(AssertionError);
      case Whole(k) =>
        if k < 0 && data[self] == 0.0 {
          return Err(ZeroDivisionError);
        }
        var out := Push(Op.Pow(self, k), Power(data[self], k));
        return Ok(out);
    }

    /** `-self`, that is `self * (-1)`. */
    method Neg(self: nat) returns (out: nat)
      requires Valid() && self < |ops|
      modifies this
      ensures Valid() && Grown(old(ops), old(data), old(grad))
      ensures ops == old(ops) + [Leaf, Op.Mul(self, |old(ops)|)]
      ensures out == |ops| - 1 && data[out] == -old(data[self])
      ensures data == old(data) + [-1.0, data[out]]
      ensures LocalDerivative(Graph(ops, data), out, self, -1.0)
    {
      out := Mul(self, Num(-1.0));
    }

    /** `other + self` for a plain number `other`, that is `self + other`. */
    method RAdd(self: nat, other: real) returns (out: nat)
      requires Valid() && self < |ops|
      modifies this
      ensures Valid() && Grown(old(ops), old(data), old(grad))
      ensures ops == old(ops) + [Leaf, Op.Add(self, |old(ops)|)]
      ensures out == |ops| - 1 && data[out] == other + old(data[self])
      ensures data == old(data) + [other, data[out]]
    {
      out := Add(self, Num(other));
    }

    /** `other * self` for a plain number `other`, that is `self * other`. */
    method RMul(self: nat, other: real) returns (out: nat)
      requires Valid() && self < |ops|
      modifies this
      ensures Valid() && Grown(old(ops), old(data), old(grad))
      ensures ops == old(ops) + [Leaf, Op.Mul(self, |old(ops)|)]
      ensures out == |ops| - 1 && data[out] == other * old(data[self])
      ensures data == old(data) + [other, data[out]]
    {
      out := Mul(self, Num(other));
    }

    /** `self - other`, that is `self + (-other)`: a `Value` is negated by `Neg`, a plain
        number by Python's own negation. */
    method Sub(self: nat, other: Operand) returns (out: nat)
      requires Valid() && self < |ops| && Has(other)
      modifies this
      ensures Valid() && Grown(old(ops), old(data), old(grad))
      ensures other.Num? ==> ops == old(ops) + [Leaf, Op.Add(self, |old(ops)|)]
      ensures other.Node? ==>
                ops == old(ops) + [Leaf, Op.Mul(other.h, |old(ops)|), Op.Add(self, |old(ops)| + 1)]
      ensures out == |ops| - 1 && data[out] == old(data[self]) - ValueIn(old(data), other)
      ensures other.Num? ==> data == old(data) + [-other.x, data[out]]
      ensures other.Node? ==>
                data == old(data) + [-1.0, -old(data[other.h]), data[out]]
      ensures LocalDerivative(Graph(ops, data), out, self, 1.0)
      ensures other.Node? ==> LocalDerivative(Graph(ops, data), out, out - 1, 1.0)
      ensures other.Node? ==> LocalDerivative(Graph(ops, data), out - 1, other.h, -1.0)
    {
      match other
      case Num(x) =>
        out := Add(self, Num(-x));
      case Node(h) =>
        var negated := Neg(h);
        out := Add(self, Node(negated));
    }

    /** `other - self` for a plain number `other`, that is `other + (-self)`, which
        Python runs as `(-self).__radd__(other)`. */
    method RSub(self: nat, other: real) returns (out: nat)
      requires Valid() && self < |ops|
      modifies this
      ensures Valid() && Grown(old(ops), old(data), old(grad))
      ensures ops == old(ops) + [Leaf, Op.Mul(self, |old(ops)|), Leaf, Op.Add(|old(ops)| + 1, |old(ops)| + 2)]
      ensures out == |ops| - 1 && data[out] == other - old(data[self])
      ensures data == old(data) + [-1.0, -old(data[self]), other, data[out]]
      ensures LocalDerivative(Graph(ops, data), out, out - 2, 1.0)
      ensures LocalDerivative(Graph(ops, data), out - 2, self, -1.0)
    {
      var negated := Neg(self);
      out := RAdd(negated, other);
    }

    /** `self / other`, that is `self * other**(-1)`; a zero divisor raises
        ZeroDivisionError, whether it is a `Value` or a plain number. */
    method Div(self: nat, other: Operand) returns (r: Result<nat>)
      requires Valid() && self < |ops| && Has(other)
      modifies this
      ensures Valid() && Grown(old(ops), old(data), old(grad))
      ensures r.Err? <==> ValueIn(old(data), other) == 0.0
      ensures r.Err? ==> r.error == ZeroDivisionError && ops == old(ops)
      ensures r.Err? ==> data == old(data) && grad == old(grad)
      ensures r.Ok? && other.Num? ==> ops == old(ops) + [Leaf, Op.Mul(self, |old(ops)|)]
      ensures r.Ok? && other.Node? ==>
                ops == old(ops) + [Op.Pow(other.h, -1), Op.Mul(self, |old(ops)|)]
      ensures r.Ok? ==> r.value == |ops| - 1 && data[r.value] == old(data[self]) / ValueIn(old(data), other)
      ensures r.Ok? ==> data == old(data) + [1.0 / ValueIn(old(data), other), data[r.value]]
    {
      match other
      case Num(x) =>
        if x == 0.0 {
          return Err(ZeroDivisionError);
        }
        var out := Mul(self, Num(1.0 / x));
        return Ok(out);
      case Node(h) =>
        var inverse := Pow(h, Whole(-1));
        if inverse.Err? {
          return inverse;
        }
        assert Power(old(data[h]), -1) == 1.0 / old(data[h]) by {
          assert Power(old(data[h]), 0) == 1.0;
        }
        var out := Mul(self, Node(inverse.value));
        return Ok(out);
    }

    /** `other / self` for a plain number `other`, that is `other * self**(-1)`, which
        Python runs as `(self**(-1)).__rmul__(other)`. */
    method RDiv(self: nat, other: real) returns (r: Result<nat>)
      requires Valid() && self < |ops|
      modifies this
      ensures Valid() && Grown(old(ops), old(data), old(grad))
      ensures r.Err? <==> old(data[self]) == 0.0
      ensures r.Err? ==> r.error == ZeroDivisionError && ops == old(ops)
      ensures r.Err? ==> data == old(data) && grad == old(grad)
      ensures r.Ok? ==>
                ops == old(ops) + [Op.Pow(self, -1), Leaf, Op.Mul(|old(ops)|, |old(ops)| + 1)] &&
                r.value == |ops| - 1 && data[r.value] == other / old(data[self]) &&
                data == old(data) + [1.0 / old(data[self]), other, data[r.value]]
    {
      var inverse := Pow(self, Whole(-1));
      if inverse.Err? {
        return inverse;
      }
      assert Power(old(data[self]), -1) == 1.0 / old(data[self]) by {
        assert Power(old(data[self]), 0) == 1.0;
      }
      var out := RMul(inverse.value, other);
      return Ok(out);
    }

    /** `self.tanh()`: a value strictly between -1 and 1. */
    method Tanh(self: nat) returns (out: nat)
      requires Valid() && self < |ops|
      modifies this
      ensures Valid() && Grown(old(ops), old(data), old(grad))
      ensures ops == old(ops) + [Op.Tanh(self)] && data == old(data) + [TanhOf(exp, old(data[self]))]
      ensures out == |ops| - 1 && data[out] == TanhOf(exp, old(data[self]))
      ensures -1.0 < data[out] < 1.0
    {
      out := Push(Op.Tanh(self), TanhOf(exp, data[self]));
    }

    /** `self.exp()`: a positive value. */
    method Exp(self: nat) returns (out: nat)
      requires Valid() && self < |ops|
      modifies this
      ensures Valid() && Grown(old(ops), old(data), old(grad))
      ensures ops == old(ops) + [Op.Exp(self)] && data == old(data) + [exp(old(data[self]))]
      ensures out == |ops| - 1 && data[out] == exp(old(data[self])) && data[out] > 0.0
    {
      out := Push(Op.Exp(self), exp(data[self]));
    }

    /** `self.relu()` as written: the node is built, but the method ends without
        `return out`, so the caller receives `None`. */
    method ReluAsWritten(self: nat) returns (r: Option<nat>)
      requires Valid() && self < |ops|
      modifies this
      ensures Valid() && Grown(old(ops), old(data), old(grad))
      ensures ops == old(ops) + [Op.Relu(self)]
      ensures data == old(data) + [if old(data[self]) < 0.0 then 0.0 else old(data[self])]
      ensures r == None
    {
      var out := Push(Op.Relu(self), if data[self] < 0.0 then 0.0 else data[self]);
      r := None;
    }

    /** `self.relu()` returning its node: the value is `self` clipped below at 0. */
    method Relu(self: nat) returns (out: nat)
      requires Valid() && self < |ops|
      modifies this
      ensures Valid() && Grown(old(ops), old(data), old(grad))
      ensures ops == old(ops) + [Op.Relu(self)] && out == |ops| - 1
      ensures data == old(data) + [if old(data[self]) < 0.0 then 0.0 else old(data[self])]
      ensures data[out] >= 0.0 && data[out] >= old(data[self])
      ensures data[out] == old(data[self]) || data[out] == 0.0
    {
      out := Push(Op.Relu(self), if data[self] < 0.0 then 0.0 else data[self]);
    }

    /** `node._backward()`: the backward rule of node `x` adds to its operands'
        gradients, reading its own gradient. Each operator installs its own rule; a
        leaf's rule does nothing. */
    method RunRule(x: nat)
      requires Valid() && x < |ops|
      modifies this
      ensures Valid() && ops == old(ops) && data == old(data) && |grad| == |old(grad)|
      ensures forall n :: 0 <= n < |grad| ==>
                grad[n] == old(grad[n]) + Contribution(Graph(ops, data), x, old(grad[x]), n)
    {
      match ops[x]
      case Leaf =>
      case Add(_, _) => AddRule(x);
      case Mul(_, _) => MulRule(x);
      case Pow(_, _) => PowRule(x);
      case Tanh(_) => TanhRule(x);
      case Exp(_) => ExpRule(x);
      case Relu(_) => ReluRule(x);
    }

    /** The `_backward` of `self + other`. */
    method AddRule(x: nat)
      requires Valid() && x < |ops| && ops[x].Add?
      modifies this
      ensures Valid() && ops == old(ops) && data == old(data) && |grad| == |old(grad)|
      ensures forall n :: 0 <= n < |grad| ==>
                grad[n] == old(grad[n]) + Contribution(Graph(ops, data), x, old(grad[x]), n)
    {
      assert Below(ops[x], x);
      var a, b := ops[x].a, ops[x].b;
      grad := grad[a := grad[a] + 1.0 * grad[x]];
      grad := grad[b := grad[b] + 1.0 * grad[x]];
    }

    /** The `_backward` of `self * other`. */
    method MulRule(x: nat)
      requires Valid() && x < |ops| && ops[x].Mul?
      modifies this
      ensures Valid() && ops == old(ops) && data == old(data) && |grad| == |old(grad)|
      ensures forall n :: 0 <= n < |grad| ==>
                grad[n] == old(grad[n]) + Contribution(Graph(ops, data), x, old(grad[x]), n)
    {
      assert Below(ops[x], x);
      var a, b := ops[x].a, ops[x].b;
      grad := grad[a := grad[a] + data[b] * grad[x]];
      grad := grad[b := grad[b] + data[a] * grad[x]];
    }

    /** The `_backward` of `self ** k`. */
    method PowRule(x: nat)
      requires Valid() && x < |ops| && ops[x].Pow?
      modifies this
      ensures Valid() && ops == old(ops) && data == old(data) && |grad| == |old(grad)|
      ensures forall n :: 0 <= n < |grad| ==>
                grad[n] == old(grad[n]) + Contribution(Graph(ops, data), x, old(grad[x]), n)
    {
      assert Below(ops[x], x) && PowOk(ops[x], data);
      var a, k := ops[x].a, ops[x].k;
      grad := grad[a := grad[a] + (k as real) * Power(data[a], k - 1) * grad[x]];
    }

    /** The `_backward` of `self.tanh()`, with `t` the node's own value. */
    method TanhRule(x: nat)
      requires Valid() && x < |ops| && ops[x].Tanh?
      modifies this
      ensures Valid() && ops == old(ops) && data == old(data) && |grad| == |old(grad)|
      ensures forall n :: 0 <= n < |grad| ==>
                grad[n] == old(grad[n]) + Contribution(Graph(ops, data), x, old(grad[x]), n)
    {
      assert Below(ops[x], x);
      var a := ops[x].a;
      grad := grad[a := grad[a] + (1.0 - data[x] * data[x]) * grad[x]];
    }

    /** The `_backward` of `self.exp()`. */
    method ExpRule(x: nat)
      requires Valid() && x < |ops| && ops[x].Exp?
      modifies this
      ensures Valid() && ops == old(ops) && data == old(data) && |grad| == |old(grad)|
      ensures forall n :: 0 <= n < |grad| ==>
                grad[n] == old(grad[n]) + Contribution(Graph(ops, data), x, old(grad[x]), n)
    {
      assert Below(ops[x], x);
      var a := ops[x].a;
      grad := grad[a := grad[a] + data[x] * grad[x]];
    }

    /** The `_backward` of `self.relu()`: the boolean `out.data > 0` counts as 1 or 0. */
    method ReluRule(x: nat)
      requires Valid() && x < |ops| && ops[x].Relu?
      modifies this
      ensures Valid() && ops == old(ops) && data == old(data) && |grad| == |old(grad)|
      ensures forall n :: 0 <= n < |grad| ==>
                grad[n] == old(grad[n]) + Contribution(Graph(ops, data), x, old(grad[x]), n)
    {
      assert Below(ops[x], x);
      var a := ops[x].a;
      grad := grad[a := grad[a] + (if data[x] > 0.0 then 1.0 else 0.0) * grad[x]];
    }

    /** `root.backward()`: sort what `root` reaches topologically, set the root's
        gradient to 1.0 and run the backward rules from the root down. The result is
        the reference gradient `Grad`, whatever order the sort picked. */
    method Backward(root: nat)
      requires Valid() && root < |ops|
      modifies this
      ensures Valid() && ops == old(ops) && data == old(data) && |grad| == |old(grad)|
      ensures forall n :: 0 <= n < |grad| ==> grad[n] == Grad(Graph(ops, data), old(grad), root, n)
    {
      var topo := Topo.TopoSort(ops, root);
      ghost var g, L := Graph(ops, data), grad;
      AccumulatedStart(g, L, root);
      grad := grad[root := 1.0];
      var i := |topo|;
      assert Topo.Elems(topo[i..]) == {};
      while i > 0
        invariant 0 <= i <= |topo|
        invariant Valid() && ops == g.ops && data == g.data
        invariant Accumulated(g, L, root, grad, Topo.Elems(topo[i..]))
      {
        i := i - 1;
        var node := topo[i];
        Topo.Pending(ops, topo, i);
        NextIsFinal(g, L, root, grad, Topo.Elems(topo[i + 1..]), node);
        ghost var before := grad;
        RunRule(node);
        RuleRuns(g, L, root, before, grad, Topo.Elems(topo[i + 1..]), node);
        assert Topo.Elems(topo[i..]) == Topo.Elems(topo[i + 1..]) + {node};
      }
      assert Topo.Elems(topo[0..]) == Reach(ops, root);
    }
  }
}
