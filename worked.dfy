/** Gradients of small expressions, proved from the definition of `Grad`, and for
    graphs built with the engine's operators and `backward`. */
module Worked {
  import opened Graph
  import opened Gradients
  import opened Engine

  /** `a = 2`, `b = -3`, `c = 10`, `e = a * b`, `d = e + c`. */
  function Example(): (g: Graph)
    ensures WellFormed(g)
  {
    var g := Graph([Leaf, Leaf, Leaf, Op.Mul(0, 1), Op.Add(3, 2)], [2.0, -3.0, 10.0, -6.0, 4.0]);
    assert forall i :: 0 <= i < 5 ==> Below(g.ops[i], i) && PowOk(g.ops[i], g.data);
    g
  }

  /** Everything takes part in `d`. */
  lemma ExampleReach()
    ensures Reach(Example().ops, 4) == {0, 1, 2, 3, 4}
  {
    var ops := Example().ops;
    assert Reach(ops, 0) == {0} && Reach(ops, 1) == {1} && Reach(ops, 2) == {2};
    assert Reach(ops, 3) == {3, 0, 1};
  }

  /** `dd/de = 1` and `dd/dc = 1`: `+` passes the gradient through. */
  lemma {:induction false} ExampleGradsSum()
    ensures Setting(Example(), Zeros(5), 4)
    ensures Grad(Example(), Zeros(5), 4, 3) == 1.0 && Grad(Example(), Zeros(5), 4, 2) == 1.0
  {
    var g, L := Example(), Zeros(5);
    var R := Reach(g.ops, 4);
    ExampleReach();
    RootSeeded(g, L, 4);
    assert Inflow(g, L, 4, 3, 4, R) == Contribution(g, 4, 1.0, 3) + Inflow(g, L, 4, 3, 5, R);
    assert Inflow(g, L, 4, 2, 4, R) == Contribution(g, 4, 1.0, 2) + Inflow(g, L, 4, 2, 5, R);
    assert Inflow(g, L, 4, 2, 3, R) == Contribution(g, 3, Grad(g, L, 4, 3), 2) + Inflow(g, L, 4, 2, 4, R);
  }

  /** `dd/db = a = 2`: `*` passes the gradient times the other factor. */
  lemma {:induction false} ExampleGradB()
    ensures Setting(Example(), Zeros(5), 4)
    ensures Grad(Example(), Zeros(5), 4, 1) == 2.0
  {
    var g, L := Example(), Zeros(5);
    var R := Reach(g.ops, 4);
    ExampleReach();
    ExampleGradsSum();
    assert Inflow(g, L, 4, 1, 4, R) == Contribution(g, 4, 1.0, 1) + Inflow(g, L, 4, 1, 5, R);
    assert Inflow(g, L, 4, 1, 3, R) == Contribution(g, 3, 1.0, 1) + Inflow(g, L, 4, 1, 4, R);
    assert Inflow(g, L, 4, 1, 2, R) == Contribution(g, 2, 1.0, 1) + Inflow(g, L, 4, 1, 3, R);
  }

  /** `dd/da = b = -3`. */
  lemma {:induction false} ExampleGradA()
    ensures Setting(Example(), Zeros(5), 4)
    ensures Grad(Example(), Zeros(5), 4, 0) == -3.0
  {
    var g, L := Example(), Zeros(5);
    var R := Reach(g.ops, 4);
    ExampleReach();
    ExampleGradsSum();
    ExampleGradB();
    assert Inflow(g, L, 4, 0, 4, R) == Contribution(g, 4, 1.0, 0) + Inflow(g, L, 4, 0, 5, R);
    assert Inflow(g, L, 4, 0, 3, R) == Contribution(g, 3, 1.0, 0) + Inflow(g, L, 4, 0, 4, R);
    assert Inflow(g, L, 4, 0, 2, R) == Contribution(g, 2, 1.0, 0) + Inflow(g, L, 4, 0, 3, R);
    assert Inflow(g, L, 4, 0, 1, R) == Contribution(g, 1, 2.0, 0) + Inflow(g, L, 4, 0, 2, R);
  }

  /** `a = Value(2.0)`, `b = Value(-3.0)`, `c = Value(10.0)` in a fresh arena. */
  method BuildLeaves(exp: Exponential) returns (arena: Arena)
    ensures fresh(arena) && arena.Valid() && arena.ops == [Leaf, Leaf, Leaf]
    ensures arena.data == [2.0, -3.0, 10.0] && arena.grad == [0.0, 0.0, 0.0]
  {
    arena := new Arena(exp);
    var a := arena.NewValue(2.0);
    var b := arena.NewValue(-3.0);
    var c := arena.NewValue(10.0);
  }

  /** Then `e = a * b` and `d = e + c`. */
  method BuildExample(exp: Exponential) returns (arena: Arena)
    ensures fresh(arena) && arena.Valid() && Graph(arena.ops, arena.data) == Example()
    ensures arena.grad == Zeros(5)
  {
    arena := BuildLeaves(exp);
    var e := arena.Mul(0, Node(1));
    assert arena.data == [2.0, -3.0, 10.0, -6.0] && arena.grad == [0.0, 0.0, 0.0, 0.0];
    var d := arena.Add(e, Node(2));
    assert arena.grad == Zeros(5);
  }

  /** `d.backward()` on the expression built with the engine's operators leaves the
      gradients computed above. */
  method Demo(exp: Exponential) returns (ga: real, gb: real, gc: real, ge: real, gd: real)
    ensures ga == -3.0 && gb == 2.0 && gc == 1.0 && ge == 1.0 && gd == 1.0
  {
    var arena := BuildExample(exp);
    arena.Backward(4);
    ExampleGradA();
    ExampleGradB();
    ExampleGradsSum();
    RootSeeded(Example(), Zeros(5), 4);
    var G := arena.grad;
    assert forall n :: 0 <= n < 5 ==> G[n] == Grad(Example(), Zeros(5), 4, n);
    ga, gb, gc, ge, gd := G[0], G[1], G[2], G[3], G[4];
  }

  /** `b = a + a`: `a` is a single operand of `b` but receives both terms of the
      rule, so `dd/da = 2`; a second `backward` adds another 2, as gradients are
      accumulated and only the root's is reset. */
  function Doubled(): (g: Graph)
    ensures WellFormed(g)
  {
    var g := Graph([Leaf, Op.Add(0, 0)], [3.0, 6.0]);
    assert Below(g.ops[1], 1);
    g
  }

  lemma {:induction false} DoubledGrads()
    ensures Setting(Doubled(), Zeros(2), 1) && Grad(Doubled(), Zeros(2), 1, 0) == 2.0
    ensures Grad(Doubled(), [2.0, 1.0], 1, 0) == 4.0
  {
    var g := Doubled();
    assert Reach(g.ops, 1) == {0, 1} by {
      assert Reach(g.ops, 0) == {0};
    }
    var R := Reach(g.ops, 1);
    assert Inflow(g, Zeros(2), 1, 0, 1, R) == Contribution(g, 1, 1.0, 0) + Inflow(g, Zeros(2), 1, 0, 2, R) by {
      RootSeeded(g, Zeros(2), 1);
    }
    assert Inflow(g, [2.0, 1.0], 1, 0, 1, R) == Contribution(g, 1, 1.0, 0) + Inflow(g, [2.0, 1.0], 1, 0, 2, R) by {
      RootSeeded(g, [2.0, 1.0], 1);
    }
  }

  /** `d = a - b` with `a = 5`, `b = 3`, built as `a + (b * (-1))`: `dd/da = 1` and
      `dd/db = -1`, the `-1` leaf's value passed back through the `*` node. */
  function Difference(): (g: Graph)
    ensures WellFormed(g)
  {
    var g := Graph([Leaf, Leaf, Leaf, Op.Mul(1, 2), Op.Add(0, 3)], [5.0, 3.0, -1.0, -3.0, 2.0]);
    assert forall i :: 0 <= i < 5 ==> Below(g.ops[i], i) && PowOk(g.ops[i], g.data);
    g
  }

  lemma DifferenceReach()
    ensures Reach(Difference().ops, 4) == {0, 1, 2, 3, 4}
  {
    var ops := Difference().ops;
    assert Reach(ops, 0) == {0} && Reach(ops, 1) == {1} && Reach(ops, 2) == {2};
    assert Reach(ops, 3) == {3, 1, 2};
  }

  /** `dd/da = 1`, through the `+` node alone. */
  lemma {:induction false} DifferenceGradA()
    ensures Setting(Difference(), Zeros(5), 4) && Grad(Difference(), Zeros(5), 4, 0) == 1.0
  {
    var g, L := Difference(), Zeros(5);
    DifferenceReach();
    var R := Reach(g.ops, 4);
    RootSeeded(g, L, 4);
    assert Inflow(g, L, 4, 0, 4, R) == Contribution(g, 4, 1.0, 0) + Inflow(g, L, 4, 0, 5, R);
    assert Inflow(g, L, 4, 0, 3, R) == Contribution(g, 3, Grad(g, L, 4, 3), 0) + Inflow(g, L, 4, 0, 4, R);
    assert Inflow(g, L, 4, 0, 2, R) == Contribution(g, 2, Grad(g, L, 4, 2), 0) + Inflow(g, L, 4, 0, 3, R);
    assert Inflow(g, L, 4, 0, 1, R) == Contribution(g, 1, Grad(g, L, 4, 1), 0) + Inflow(g, L, 4, 0, 2, R);
  }

  /** `dd/db = -1`: the `+` node passes 1 to the `*` node, which passes the `-1`
      leaf's value on to `b`. */
  lemma {:induction false} DifferenceGradB()
    ensures Setting(Difference(), Zeros(5), 4) && Grad(Difference(), Zeros(5), 4, 1) == -1.0
  {
    var g, L := Difference(), Zeros(5);
    DifferenceReach();
    var R := Reach(g.ops, 4);
    RootSeeded(g, L, 4);
    assert Inflow(g, L, 4, 3, 4, R) == Contribution(g, 4, 1.0, 3) + Inflow(g, L, 4, 3, 5, R);
    assert Grad(g, L, 4, 3) == 1.0;
    assert Inflow(g, L, 4, 1, 4, R) == Contribution(g, 4, 1.0, 1) + Inflow(g, L, 4, 1, 5, R);
    assert Inflow(g, L, 4, 1, 3, R) == Contribution(g, 3, 1.0, 1) + Inflow(g, L, 4, 1, 4, R);
    assert Inflow(g, L, 4, 1, 2, R) == Contribution(g, 2, Grad(g, L, 4, 2), 1) + Inflow(g, L, 4, 1, 3, R);
  }

  /** `x = Value(3.0)` and `y = x + x`, built with the engine's operators. */
  method BuildDoubled(exp: Exponential) returns (arena: Arena)
    ensures fresh(arena) && arena.Valid() && Graph(arena.ops, arena.data) == Doubled()
    ensures arena.grad == Zeros(2)
  {
    arena := new Arena(exp);
    var x := arena.NewValue(3.0);
    var y := arena.Add(x, Node(x));
    assert arena.grad == Zeros(2);
  }

  /** `y.backward()` gives `x` the gradient 2; calling it again without zeroing the
      gradients gives 4. */
  method DemoDoubled(exp: Exponential) returns (first: real, second: real)
    ensures first == 2.0 && second == 4.0
  {
    var arena := BuildDoubled(exp);
    DoubledGrads();
    RootSeeded(Doubled(), Zeros(2), 1);
    arena.Backward(1);
    first := arena.grad[0];
    assert arena.grad == [2.0, 1.0];
    RootSeeded(Doubled(), [2.0, 1.0], 1);
    arena.Backward(1);
    second := arena.grad[0];
  }

  /** `a = Value(5.0)`, `b = Value(3.0)` and `d = a - b`, built with the engine's
      operators. */
  method BuildDifference(exp: Exponential) returns (arena: Arena)
    ensures fresh(arena) && arena.Valid() && Graph(arena.ops, arena.data) == Difference()
    ensures arena.grad == Zeros(5)
  {
    arena := new Arena(exp);
    var a := arena.NewValue(5.0);
    var b := arena.NewValue(3.0);
    var d := arena.Sub(a, Node(b));
    assert arena.grad == Zeros(5);
  }

  /** `d.backward()` gives `a` the gradient 1 and `b` the gradient -1. */
  method DemoDifference(exp: Exponential) returns (ga: real, gb: real)
    ensures ga == 1.0 && gb == -1.0
  {
    var arena := BuildDifference(exp);
    DifferenceGradA();
    DifferenceGradB();
    arena.Backward(4);
    ga, gb := arena.grad[0], arena.grad[1];
  }
}
