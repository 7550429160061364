/** The topological sort inside `Value.backward`: a depth-first post-order walk over
    `_prev` from the root, with a `visited` set so that shared operands are entered
    once. The order in which a node's operands are walked (Python set iteration) is
    left open: the walk picks any operand not yet walked. */
module Topo {
  import opened Graph

  /** `topo` lists distinct existing nodes, and every operand of a listed node is
      listed before it: each node was appended after everything it uses. */
  ghost predicate TopoOrdered(ops: seq<Op>, topo: seq<nat>)
    decreases |topo|
  {
    |topo| > 0 ==>
      var p, v := topo[..|topo| - 1], topo[|topo| - 1];
      TopoOrdered(ops, p) && v < |ops| && v !in p &&
      forall c :: c in Operands(ops[v]) ==> c in p
  }

  ghost function Elems(s: seq<nat>): (r: set<nat>)
    ensures forall x :: x in r <==> x in s
  {
    set x | x in s
  }

  /** An ordered list names only existing nodes. */
  lemma {:induction false} OrderedInRange(ops: seq<Op>, topo: seq<nat>, i: nat)
    requires TopoOrdered(ops, topo) && i < |topo|
    ensures topo[i] < |ops|
    decreases |topo|
  {
    var p := topo[..|topo| - 1];
    if i < |p| {
      assert topo[i] == p[i];
      OrderedInRange(ops, p, i);
    }
  }

  /** The operands of the node at position `j` are listed before position `j`. */
  lemma {:induction false} OrderedBefore(ops: seq<Op>, topo: seq<nat>, j: nat, c: nat)
    requires TopoOrdered(ops, topo) && j < |topo|
    requires topo[j] < |ops| && c in Operands(ops[topo[j]])
    ensures c in topo[..j]
    decreases |topo|
  {
    var p := topo[..|topo| - 1];
    if j < |p| {
      assert topo[j] == p[j] && p[..j] == topo[..j];
      OrderedBefore(ops, p, j, c);
    } else {
      assert p == topo[..j];
    }
  }

  /** An ordered list lists no node twice. */
  lemma {:induction false} OrderedDistinct(ops: seq<Op>, topo: seq<nat>, i: nat, j: nat)
    requires TopoOrdered(ops, topo) && i < j < |topo|
    ensures topo[i] != topo[j]
    decreases |topo|
  {
    var p := topo[..|topo| - 1];
    assert topo[i] == p[i];
    if j < |p| {
      assert topo[j] == p[j];
      OrderedDistinct(ops, p, i, j);
    }
  }

  /** In an ordered list an operand is listed before each of its consumers. */
  lemma OrderedOperandFirst(ops: seq<Op>, topo: seq<nat>, i: nat, j: nat)
    requires TopoOrdered(ops, topo) && i < |topo| && j < |topo|
    requires topo[j] < |ops| && topo[i] in Operands(ops[topo[j]])
    ensures i < j
  {
    OrderedBefore(ops, topo, j, topo[i]);
    var k :| 0 <= k < j && topo[..j][k] == topo[i];
    if j <= i {
      OrderedDistinct(ops, topo, k, i);
    }
  }

  /** A node already listed in an ordered `topo` brings everything it reaches with it. */
  lemma {:induction false} ListedClosed(ops: seq<Op>, topo: seq<nat>, v: nat, x: nat)
    requires Acyclic(ops) && TopoOrdered(ops, topo) && v < |ops| && v in topo
    requires x in Reach(ops, v)
    ensures x in topo
    decreases v
  {
    if v != x {
      var c := ReachStep(ops, v, x);
      var j :| 0 <= j < |topo| && topo[j] == v;
      OrderedBefore(ops, topo, j, c);
      ListedClosed(ops, topo, c, x);
    }
  }

  /** `build_topo(v)`: `visited` holds the nodes entered so far and `topo` the nodes
      finished; the entered but unfinished ones are the nodes on the walk's stack,
      which are consumers of `v` and hence lie above it. */
  method BuildTopo(ops: seq<Op>, v: nat, visited: set<nat>, topo: seq<nat>)
    returns (visited': set<nat>, topo': seq<nat>)
    requires Acyclic(ops) && v < |ops| && TopoOrdered(ops, topo)
    requires Elems(topo) <= visited
    requires forall x :: x in visited && x !in Elems(topo) ==> v < x
    ensures topo <= topo' && TopoOrdered(ops, topo')
    ensures Elems(topo') == Elems(topo) + Reach(ops, v)
    ensures visited <= visited' && Elems(topo') <= visited'
    ensures forall x :: x in visited' && x !in Elems(topo') ==> x in visited && x !in Elems(topo)
    ensures v !in visited ==> |topo'| > 0 && topo'[|topo'| - 1] == v
    decreases v, 1
  {
    if v in visited {
      EnteredIsFinished(ops, visited, topo, v);
      return visited, topo;
    }
    visited', topo' := Visit(ops, v, visited + {v}, topo);
  }

  /** A node already entered is finished, with everything it reaches. */
  lemma EnteredIsFinished(ops: seq<Op>, visited: set<nat>, topo: seq<nat>, v: nat)
    requires Acyclic(ops) && v < |ops| && TopoOrdered(ops, topo)
    requires forall x :: x in visited && x !in Elems(topo) ==> v < x
    requires v in visited
    ensures Elems(topo) + Reach(ops, v) == Elems(topo)
  {
    assert v in Elems(topo);
    forall x | x in Reach(ops, v) ensures x in Elems(topo) {
      ListedClosed(ops, topo, v, x);
    }
  }

  /** The rest of `build_topo(v)` once `v` is marked visited: walk every operand,
      then append `v`. */
  method Visit(ops: seq<Op>, v: nat, visited: set<nat>, topo: seq<nat>)
    returns (visited': set<nat>, topo': seq<nat>)
    requires Acyclic(ops) && v < |ops| && TopoOrdered(ops, topo)
    requires Elems(topo) <= visited && v in visited && v !in Elems(topo)
    requires forall x :: x in visited && x !in Elems(topo) ==> v <= x
    ensures topo <= topo' && TopoOrdered(ops, topo')
    ensures Elems(topo') == Elems(topo) + Reach(ops, v)
    ensures visited <= visited' && Elems(topo') <= visited'
    ensures forall x :: x in visited' && x !in Elems(topo') ==> x in visited && x !in Elems(topo)
    ensures |topo'| > 0 && topo'[|topo'| - 1] == v
    decreases v, 0
  {
    visited', topo' := visited, topo;
    var todo := Operands(ops[v]);
    ghost var acc: set<nat> := {};
    ghost var F := Elems(topo);
    WalkStart(ops, v, visited, F, visited', Elems(topo'));
    while todo != {}
      invariant todo <= Operands(ops[v])
      invariant topo <= topo' && TopoOrdered(ops, topo')
      invariant Walking(ops, v, visited, F, todo, acc, visited', Elems(topo'))
      decreases todo
    {
      var c :| c in todo;
      WalkNext(ops, v, c, visited, F, todo, acc, visited', Elems(topo'));
      ghost var visited0, topo0 := visited', topo';
      visited', topo' := BuildTopo(ops, c, visited', topo');
      WalkStep(ops, v, c, visited, F, todo, acc, visited0, Elems(topo0), visited', Elems(topo'));
      acc := acc + Reach(ops, c);
      todo := todo - {c};
    }
    WalkDone(ops, v, visited, topo, acc, visited', topo');
    topo' := topo' + [v];
  }

  /** After the last operand, appending `v` gives what `build_topo(v)` promises. */
  lemma WalkDone(ops: seq<Op>, v: nat, visited: set<nat>, topo: seq<nat>, acc: set<nat>,
                 visited': set<nat>, topo': seq<nat>)
    requires Acyclic(ops) && v < |ops| && v in visited && v !in Elems(topo)
    requires topo <= topo' && TopoOrdered(ops, topo')
    requires Walking(ops, v, visited, Elems(topo), {}, acc, visited', Elems(topo'))
    ensures topo <= topo' + [v] && TopoOrdered(ops, topo' + [v])
    ensures Elems(topo' + [v]) == Elems(topo) + Reach(ops, v)
    ensures visited <= visited' && Elems(topo' + [v]) <= visited'
    ensures forall x :: x in visited' && x !in Elems(topo' + [v]) ==> x in visited && x !in Elems(topo)
  {
    WalkedAll(ops, v, acc, Elems(topo), topo');
    AppendOrdered(ops, topo', v);
  }

  /** The walk over `v`'s operands so far: `done` (the finished nodes) is what was
      finished before plus `acc`, everything reached from the operands walked, and the
      only entered but unfinished nodes are those that were so before. */
  ghost predicate Walking(ops: seq<Op>, v: nat, visited: set<nat>, finished: set<nat>,
                          todo: set<nat>, acc: set<nat>, visited': set<nat>, done: set<nat>)
    requires Acyclic(ops) && v < |ops|
  {
    done == finished + acc && acc <= Reach(ops, v) - {v} &&
    (forall c :: c in Operands(ops[v]) - todo ==> Reach(ops, c) <= acc) &&
    visited <= visited' && done <= visited' &&
    (forall x :: x in visited' && x !in done ==> x in visited && x !in finished)
  }

  /** Before any operand is walked. */
  lemma WalkStart(ops: seq<Op>, v: nat, visited: set<nat>, finished: set<nat>,
                  visited': set<nat>, done: set<nat>)
    requires Acyclic(ops) && v < |ops| && visited' == visited && done == finished
    requires finished <= visited
    ensures Walking(ops, v, visited, finished, Operands(ops[v]), {}, visited', done)
  {
  }

  /** The next operand `c` may be walked: it is an earlier node, and every node
      entered but unfinished lies above it. */
  lemma WalkNext(ops: seq<Op>, v: nat, c: nat, visited: set<nat>, finished: set<nat>,
                 todo: set<nat>, acc: set<nat>, visited': set<nat>, done: set<nat>)
    requires Acyclic(ops) && v < |ops| && c in todo && todo <= Operands(ops[v])
    requires forall x :: x in visited && x !in finished ==> v <= x
    requires Walking(ops, v, visited, finished, todo, acc, visited', done)
    ensures c < |ops| && done <= visited'
    ensures forall x :: x in visited' && x !in done ==> c < x
  {
    OperandBelow(ops, v, c);
  }

  /** Walking one more operand `c` keeps `Walking`. */
  lemma WalkStep(ops: seq<Op>, v: nat, c: nat, visited: set<nat>, finished: set<nat>,
                 todo: set<nat>, acc: set<nat>, visited0: set<nat>, done0: set<nat>,
                 visited1: set<nat>, done1: set<nat>)
    requires Acyclic(ops) && v < |ops| && c in todo && todo <= Operands(ops[v])
    requires Walking(ops, v, visited, finished, todo, acc, visited0, done0)
    requires done1 == done0 + Reach(ops, c) && visited0 <= visited1 && done1 <= visited1
    requires forall x :: x in visited1 && x !in done1 ==> x in visited0 && x !in done0
    ensures Walking(ops, v, visited, finished, todo - {c}, acc + Reach(ops, c), visited1, done1)
  {
    ReachOfOperand(ops, v, c);
  }

  /** Once every operand of `v` has been walked, what was finished on the way is
      everything `v` reaches except `v` itself, operands included. */
  lemma WalkedAll(ops: seq<Op>, v: nat, acc: set<nat>, finished: set<nat>, topo: seq<nat>)
    requires Acyclic(ops) && v < |ops|
    requires acc <= Reach(ops, v) - {v}
    requires forall c :: c in Operands(ops[v]) ==> Reach(ops, c) <= acc
    requires Elems(topo) == finished + acc
    ensures Reach(ops, v) == acc + {v}
    ensures forall c :: c in Operands(ops[v]) ==> c in topo
  {
    forall x | x in Reach(ops, v) && x != v ensures x in acc {
      var c := ReachStep(ops, v, x);
    }
    forall c | c in Operands(ops[v]) ensures c in topo {
      ReachOfOperand(ops, v, c);
      assert c in Elems(topo);
    }
  }

  /** Finishing a node whose operands are all finished keeps the list ordered. */
  lemma AppendOrdered(ops: seq<Op>, topo: seq<nat>, v: nat)
    requires TopoOrdered(ops, topo) && v < |ops| && v !in topo
    requires forall c :: c in Operands(ops[v]) ==> c in topo
    ensures TopoOrdered(ops, topo + [v])
  {
    assert (topo + [v])[..|topo|] == topo;
  }

  /** The `topo` list of `backward`: every node reachable from `root`, each once,
      operands before consumers, `root` last. */
  method TopoSort(ops: seq<Op>, root: nat) returns (topo: seq<nat>)
    requires Acyclic(ops) && root < |ops|
    ensures TopoOrdered(ops, topo)
    ensures forall i :: 0 <= i < |topo| ==> topo[i] < |ops|
    ensures forall x :: x in topo <==> x in Reach(ops, root)
    ensures forall i, j :: 0 <= i < j < |topo| ==> topo[i] != topo[j]
    ensures forall i, j :: 0 <= i < |topo| && 0 <= j < |topo| && topo[i] in Operands(ops[topo[j]]) ==> i < j
    ensures |topo| > 0 && topo[|topo| - 1] == root
  {
    var visited;
    visited, topo := BuildTopo(ops, root, {}, []);
    assert Elems(topo) == Reach(ops, root);
    forall i | 0 <= i < |topo| ensures topo[i] < |ops| {
      OrderedInRange(ops, topo, i);
    }
    forall i, j | 0 <= i < j < |topo| ensures topo[i] != topo[j] {
      OrderedDistinct(ops, topo, i, j);
    }
    forall i, j | 0 <= i < |topo| && 0 <= j < |topo| && topo[i] in Operands(ops[topo[j]])
      ensures i < j
    {
      OrderedOperandFirst(ops, topo, i, j);
    }
  }

  /** Running the list backwards from position `i`: the node there is not among the
      nodes after it, and none of the nodes not after it (those at or before `i`)
      has it as an operand. */
  lemma Pending(ops: seq<Op>, topo: seq<nat>, i: nat)
    requires Acyclic(ops) && TopoOrdered(ops, topo) && i < |topo|
    ensures topo[i] < |ops| && topo[i] !in topo[i + 1..]
    ensures forall y :: y in topo && y !in topo[i + 1..] ==> y < |ops| && topo[i] !in Operands(ops[y])
  {
    OrderedInRange(ops, topo, i);
    forall k | i < k < |topo| ensures topo[k] != topo[i] {
      OrderedDistinct(ops, topo, i, k);
    }
    forall y | y in topo && y !in topo[i + 1..] ensures y < |ops| && topo[i] !in Operands(ops[y]) {
      var k :| 0 <= k < |topo| && topo[k] == y;
      OrderedInRange(ops, topo, k);
      if topo[i] in Operands(ops[y]) {
        if k == i {
          OperandBelow(ops, y, y);
        } else {
          OrderedOperandFirst(ops, topo, i, k);
        }
        assert false;
      }
    }
  }
}
