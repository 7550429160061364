/** What `Value.backward` computes, stated independently of the order in which the
    backward rules run.

    `backward` on `root` first overwrites the root's gradient with 1.0 and then runs
    the backward rule of every node reachable from `root`, consumers before their
    operands. Each rule adds to its operands' gradients, reading its own gradient at
    the time it runs. The reference below names the final gradient `Grad` directly: a
    node's gradient is its seed (1.0 at the root, the gradient left over from before
    elsewhere) plus what every reachable consumer pushes into it, each consumer
    pushing with its own final gradient. */
module Gradients {
  import opened Graph

  /** The arguments of a `backward` call: a well-formed graph, the gradients held
      before the call, and an existing root. */
  predicate Setting(g: Graph, L: seq<real>, root: nat) {
    WellFormed(g) && |L| == |g.ops| && root < |g.ops|
  }

  /** The gradient a node holds before any rule runs: `self.grad = 1.0` at the root,
      the leftover gradient elsewhere. */
  function Seed(L: seq<real>, root: nat, n: nat): (s: real)
    requires n < |L|
    ensures n == root ==> s == 1.0
    ensures n != root ==> s == L[n]
  {
    if n == root then 1.0 else L[n]
  }

  /** The final gradient of node `n` after `backward` on `root`. */
  ghost function Grad(g: Graph, L: seq<real>, root: nat, n: nat): real
    requires Setting(g, L, root) && n < |g.ops|
    decreases |g.ops| - n, 1
  {
    Seed(L, root, n) + Inflow(g, L, root, n, n + 1, Reach(g.ops, root))
  }

  /** What the nodes of `D` from `lo` upwards push into node `n`, each with its final
      gradient. Only nodes above `n` can have `n` as an operand, so `lo` starts above
      `n`. */
  ghost function Inflow(g: Graph, L: seq<real>, root: nat, n: nat, lo: nat, D: set<nat>): real
    requires Setting(g, L, root) && n < lo <= |g.ops|
    decreases |g.ops| - n, 0, |g.ops| - lo
  {
    if lo == |g.ops| then 0.0
    else
      (if lo in D then Contribution(g, lo, Grad(g, L, root, lo), n) else 0.0)
      + Inflow(g, L, root, n, lo + 1, D)
  }

  /** Two sets of consumers push the same into `n` when every node on which they
      differ pushes nothing into `n`. */
  lemma {:induction false} InflowCongruence(g: Graph, L: seq<real>, root: nat, n: nat, lo: nat,
                                            D1: set<nat>, D2: set<nat>)
    requires Setting(g, L, root) && n < lo <= |g.ops|
    requires forall x :: lo <= x < |g.ops| && (x in D1 <==> x !in D2) ==>
               Contribution(g, x, Grad(g, L, root, x), n) == 0.0
    ensures Inflow(g, L, root, n, lo, D1) == Inflow(g, L, root, n, lo, D2)
    decreases |g.ops| - lo
  {
    if lo < |g.ops| {
      InflowCongruence(g, L, root, n, lo + 1, D1, D2);
    }
  }

  /** Adding one consumer `x` adds exactly what `x` pushes into `n`. */
  lemma {:induction false} InflowInsert(g: Graph, L: seq<real>, root: nat, n: nat, lo: nat,
                                        D: set<nat>, x: nat)
    requires Setting(g, L, root) && n < lo <= x < |g.ops| && x !in D
    ensures Inflow(g, L, root, n, lo, D + {x})
         == Inflow(g, L, root, n, lo, D) + Contribution(g, x, Grad(g, L, root, x), n)
    decreases |g.ops| - lo
  {
    if lo < x {
      InflowInsert(g, L, root, n, lo + 1, D, x);
    } else {
      InflowCongruence(g, L, root, n, lo + 1, D + {x}, D);
    }
  }

  /** Nothing pushes into `n` from an empty set of consumers. */
  lemma {:induction false} InflowEmpty(g: Graph, L: seq<real>, root: nat, n: nat, lo: nat)
    requires Setting(g, L, root) && n < lo <= |g.ops|
    ensures Inflow(g, L, root, n, lo, {}) == 0.0
    decreases |g.ops| - lo
  {
    if lo < |g.ops| {
      InflowEmpty(g, L, root, n, lo + 1);
    }
  }

  /** A node none of whose reachable consumers has it as an operand keeps its seed. */
  lemma NoInflow(g: Graph, L: seq<real>, root: nat, n: nat)
    requires Setting(g, L, root) && n < |g.ops|
    requires forall x :: 0 <= x < |g.ops| && x in Reach(g.ops, root) ==> n !in Operands(g.ops[x])
    ensures Grad(g, L, root, n) == Seed(L, root, n)
  {
    forall x | n + 1 <= x < |g.ops| && x in Reach(g.ops, root)
      ensures Contribution(g, x, Grad(g, L, root, x), n) == 0.0
    {
      ContributionOnlyToOperands(g, x, Grad(g, L, root, x), n);
    }
    InflowCongruence(g, L, root, n, n + 1, Reach(g.ops, root), {});
    InflowEmpty(g, L, root, n, n + 1);
  }

  /** `self.grad = 1.0`: after `backward` the root's gradient is exactly 1.0, whatever
      it held before. */
  lemma RootSeeded(g: Graph, L: seq<real>, root: nat)
    requires Setting(g, L, root)
    ensures Grad(g, L, root, root) == 1.0
  {
    forall x | 0 <= x < |g.ops| && x in Reach(g.ops, root) ensures root !in Operands(g.ops[x]) {
      ReachBelow(g.ops, root, x);
      if root in Operands(g.ops[x]) {
        OperandBelow(g.ops, x, root);
        assert false;
      }
    }
    NoInflow(g, L, root, root);
  }

  /** Nodes that `root` does not reach are not touched by `backward` on `root`. */
  lemma UnreachedUnchanged(g: Graph, L: seq<real>, root: nat, n: nat)
    requires Setting(g, L, root) && n < |g.ops| && n !in Reach(g.ops, root)
    ensures Grad(g, L, root, n) == L[n]
  {
    forall x | 0 <= x < |g.ops| && x in Reach(g.ops, root) ensures n !in Operands(g.ops[x]) {
      if n in Operands(g.ops[x]) {
        ReachOfOperand(g.ops, x, n);
        ReachIncluded(g.ops, root, x);
        assert false;
      }
    }
    NoInflow(g, L, root, n);
  }

  /** Gradients are accumulated, not assigned: a gradient `n` held before `backward`
      (and not zeroed) is still there afterwards, added to the fresh gradient, as long
      as the nodes above `n` start from zero. */
  lemma LeftoverAdded(g: Graph, L: seq<real>, root: nat, n: nat)
    requires Setting(g, L, root) && n < |g.ops| && n != root
    requires forall m :: n < m < |L| && m != root ==> L[m] == 0.0
    ensures Grad(g, L, root, n) == L[n] + Grad(g, Zeros(|L|), root, n)
  {
    var Z := Zeros(|L|);
    forall m | n < m < |g.ops| ensures Grad(g, L, root, m) == Grad(g, Z, root, m) {
      GradAgree(g, L, Z, root, n, m);
    }
    InflowAgree(g, L, Z, root, n, n, n + 1);
  }

  /** The gradients of a freshly built graph: all zero. */
  function Zeros(k: nat): (z: seq<real>)
    ensures |z| == k && forall i :: 0 <= i < k ==> z[i] == 0.0
  {
    seq(k, _ => 0.0)
  }

  /** Above `n`, leftover gradients that agree (off the root) give the same result. */
  lemma {:induction false} GradAgree(g: Graph, L1: seq<real>, L2: seq<real>, root: nat, n: nat, m: nat)
    requires Setting(g, L1, root) && |L2| == |L1| && n < m < |g.ops|
    requires forall k :: n < k < |L1| && k != root ==> L1[k] == L2[k]
    ensures Grad(g, L1, root, m) == Grad(g, L2, root, m)
    decreases |g.ops| - m, 1
  {
    InflowAgree(g, L1, L2, root, n, m, m + 1);
  }

  lemma {:induction false} InflowAgree(g: Graph, L1: seq<real>, L2: seq<real>, root: nat,
                                       n: nat, m: nat, lo: nat)
    requires Setting(g, L1, root) && |L2| == |L1| && n <= m < lo <= |g.ops|
    requires forall k :: n < k < |L1| && k != root ==> L1[k] == L2[k]
    ensures Inflow(g, L1, root, m, lo, Reach(g.ops, root)) == Inflow(g, L2, root, m, lo, Reach(g.ops, root))
    decreases |g.ops| - m, 0, |g.ops| - lo
  {
    if lo < |g.ops| {
      GradAgree(g, L1, L2, root, n, lo);
      InflowAgree(g, L1, L2, root, n, m, lo + 1);
    }
  }

  /** The state of `backward` part-way through its loop: every gradient is its seed
      plus what the consumers in `done` (the rules that have run) pushed into it. */
  ghost predicate Accumulated(g: Graph, L: seq<real>, root: nat, G: seq<real>, done: set<nat>)
    requires Setting(g, L, root)
  {
    |G| == |g.ops| &&
    forall n :: 0 <= n < |G| ==> G[n] == Seed(L, root, n) + Inflow(g, L, root, n, n + 1, done)
  }

  /** Before any rule has run, the gradients are the seeds. */
  lemma AccumulatedStart(g: Graph, L: seq<real>, root: nat)
    requires Setting(g, L, root)
    ensures Accumulated(g, L, root, L[root := 1.0], {})
  {
    forall n | 0 <= n < |L|
      ensures L[root := 1.0][n] == Seed(L, root, n) + Inflow(g, L, root, n, n + 1, {})
    {
      InflowEmpty(g, L, root, n, n + 1);
    }
  }

  /** When the rule of `x` is about to run and no consumer of `x` is still waiting,
      the gradient of `x` is final. */
  lemma NextIsFinal(g: Graph, L: seq<real>, root: nat, G: seq<real>, done: set<nat>, x: nat)
    requires Setting(g, L, root) && Accumulated(g, L, root, G, done)
    requires done <= Reach(g.ops, root) && x < |g.ops|
    requires forall y :: 0 <= y < |g.ops| && y in Reach(g.ops, root) && y !in done ==> x !in Operands(g.ops[y])
    ensures G[x] == Grad(g, L, root, x)
  {
    forall y | x + 1 <= y < |g.ops| && (y in done <==> y !in Reach(g.ops, root))
      ensures Contribution(g, y, Grad(g, L, root, y), x) == 0.0
    {
      ContributionOnlyToOperands(g, y, Grad(g, L, root, y), x);
    }
    InflowCongruence(g, L, root, x, x + 1, done, Reach(g.ops, root));
  }

  /** Running the rule of `x` with its final gradient adds `x` to the consumers that
      have pushed. */
  lemma RuleRuns(g: Graph, L: seq<real>, root: nat, G: seq<real>, G': seq<real>, done: set<nat>, x: nat)
    requires Setting(g, L, root) && Accumulated(g, L, root, G, done)
    requires x < |g.ops| && x !in done && G[x] == Grad(g, L, root, x)
    requires |G'| == |G| && forall n :: 0 <= n < |G| ==> G'[n] == G[n] + Contribution(g, x, G[x], n)
    ensures Accumulated(g, L, root, G', done + {x})
  {
    forall n | 0 <= n < |G'|
      ensures G'[n] == Seed(L, root, n) + Inflow(g, L, root, n, n + 1, done + {x})
    {
      if x <= n {
        if n in Operands(g.ops[x]) {
          OperandBelow(g.ops, x, n);
          assert false;
        }
        ContributionOnlyToOperands(g, x, G[x], n);
        InflowCongruence(g, L, root, n, n + 1, done + {x}, done);
      } else {
        InflowInsert(g, L, root, n, n + 1, done, x);
      }
    }
  }
}
