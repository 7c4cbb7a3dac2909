/**
 The associativity rewrite (src/IR/EMatching/Rewrites/Associativity.cpp): flatten a tree of one
 opcode through the cheapest nodes, sort the leaves, rebuild a left comb and queue its merge with the
 original class.  For an associative and commutative operator the comb has the original value, so
 the queued merge keeps the e-graph valid.
 */
module Associativity {
  import UF = UnionFind
  import opened EGraphModel
  import opened Options
  import opened EGraphSteps
  import EG = EGraph
  import EX = Extractor
  import opened GraphAccessors

  // ----- folds of an associative, commutative operator -----

  type Operator = (OpData, seq<Value>) -> int

  /** The binary operator that `op` gives to data d. */
  function Apply(op: Operator, d: OpData, x: Value, y: Value): Value {
    Value(d.ty, op(d, [x, y]))
  }

  ghost predicate AssocComm(op: Operator, d: OpData) {
    && (forall x: Value, y: Value, z: Value {:trigger Apply(op, d, Apply(op, d, x, y), z)} ::
          x.ty == d.ty && y.ty == d.ty && z.ty == d.ty ==>
            Apply(op, d, Apply(op, d, x, y), z) == Apply(op, d, x, Apply(op, d, y, z)))
    && (forall x: Value, y: Value {:trigger Apply(op, d, x, y)} ::
          x.ty == d.ty && y.ty == d.ty ==> Apply(op, d, x, y) == Apply(op, d, y, x))
  }

  ghost predicate Typed(d: OpData, xs: seq<Value>) {
    forall i {:trigger xs[i]} :: 0 <= i < |xs| ==> xs[i].ty == d.ty
  }

  /** The value of the left comb over xs. */
  ghost function Fold(op: Operator, d: OpData, xs: seq<Value>): Value
    requires xs != []
  {
    if |xs| == 1 then xs[0] else Apply(op, d, Fold(op, d, xs[..|xs| - 1]), xs[|xs| - 1])
  }

  lemma {:induction false} FoldTyped(op: Operator, d: OpData, xs: seq<Value>)
    requires xs != [] && Typed(d, xs)
    ensures Fold(op, d, xs).ty == d.ty
  {}

  /** Folding a concatenation combines the folds: parentheses do not matter. */
  lemma {:induction false} FoldCat(op: Operator, d: OpData, xs: seq<Value>, ys: seq<Value>)
    requires xs != [] && ys != [] && Typed(d, xs) && Typed(d, ys) && AssocComm(op, d)
    ensures Fold(op, d, xs + ys) == Apply(op, d, Fold(op, d, xs), Fold(op, d, ys))
    decreases |ys|
  {
    var last := ys[|ys| - 1];
    assert (xs + ys)[|xs + ys| - 1] == last;
    if |ys| == 1 {
      assert (xs + ys)[..|xs + ys| - 1] == xs;
    } else {
      var init := ys[..|ys| - 1];
      assert (xs + ys)[..|xs + ys| - 1] == xs + init;
      FoldCat(op, d, xs, init);
      FoldTyped(op, d, xs);
      FoldTyped(op, d, init);
      assert Apply(op, d, Apply(op, d, Fold(op, d, xs), Fold(op, d, init)), last)
          == Apply(op, d, Fold(op, d, xs), Apply(op, d, Fold(op, d, init), last));
    }
  }

  /** An element may be moved to the end. */
  lemma FoldMoveLast(op: Operator, d: OpData, xs: seq<Value>, k: nat)
    requires k < |xs| && |xs| > 1 && Typed(d, xs) && AssocComm(op, d)
    ensures Fold(op, d, xs) == Apply(op, d, Fold(op, d, xs[..k] + xs[k + 1..]), xs[k])
  {
    var a, x, b := xs[..k], [xs[k]], xs[k + 1..];
    assert xs == a + (x + b);
    if a == [] {
      assert a + b == b && a + (x + b) == x + b;
      MoveOver(op, d, xs[k], b);
    } else if b == [] {
      assert a + b == a && x + b == x;
      FoldCat(op, d, a, x);
    } else {
      MoveBetween(op, d, a, xs[k], b);
    }
  }

  lemma MoveOver(op: Operator, d: OpData, x: Value, b: seq<Value>)
    requires b != [] && x.ty == d.ty && Typed(d, b) && AssocComm(op, d)
    ensures Fold(op, d, [x] + b) == Apply(op, d, Fold(op, d, b), x)
  {
    FoldCat(op, d, [x], b);
    FoldTyped(op, d, b);
  }

  lemma MoveBetween(op: Operator, d: OpData, a: seq<Value>, x: Value, b: seq<Value>)
    requires a != [] && b != [] && x.ty == d.ty && Typed(d, a) && Typed(d, b) && AssocComm(op, d)
    ensures Fold(op, d, a + ([x] + b)) == Apply(op, d, Fold(op, d, a + b), x)
  {
    var fa, fb := Fold(op, d, a), Fold(op, d, b);
    FoldCat(op, d, a, [x] + b);
    MoveOver(op, d, x, b);
    FoldCat(op, d, a, b);
    FoldTyped(op, d, a);
    FoldTyped(op, d, b);
    assert Apply(op, d, Apply(op, d, fa, fb), x) == Apply(op, d, fa, Apply(op, d, fb, x));
  }

  /** The fold does not depend on the order: any permutation, in particular the sorted one. */
  lemma {:induction false} FoldPermutation(op: Operator, d: OpData, xs: seq<Value>, ys: seq<Value>)
    requires xs != [] && multiset(xs) == multiset(ys) && Typed(d, xs) && AssocComm(op, d)
    ensures ys != [] && Fold(op, d, xs) == Fold(op, d, ys)
    decreases |xs|
  {
    var last := xs[|xs| - 1];
    var k := SomeIndex(xs, ys, last);
    Without(xs, |xs| - 1);
    Without(ys, k);
    assert xs[..|xs| - 1] + xs[|xs|..] == xs[..|xs| - 1];
    if |xs| > 1 {
      TypedPermutation(d, xs, ys);
      FoldPermutation(op, d, xs[..|xs| - 1], ys[..k] + ys[k + 1..]);
      FoldMoveLast(op, d, ys, k);
    }
  }

  lemma SomeIndex(xs: seq<Value>, ys: seq<Value>, x: Value) returns (k: nat)
    requires x in xs && multiset(xs) == multiset(ys)
    ensures k < |ys| == |xs| && ys[k] == x
  {
    assert |multiset(xs)| == |multiset(ys)|;
    assert x in multiset(ys);
    k :| 0 <= k < |ys| && ys[k] == x;
  }

  lemma Without(xs: seq<Value>, k: nat)
    requires k < |xs|
    ensures multiset(xs[..k] + xs[k + 1..]) == multiset(xs) - multiset{xs[k]}
  {
    assert xs == xs[..k] + [xs[k]] + xs[k + 1..];
  }

  lemma TypedPermutation(d: OpData, xs: seq<Value>, ys: seq<Value>)
    requires multiset(xs) == multiset(ys) && Typed(d, xs)
    ensures Typed(d, ys)
  {
    forall i | 0 <= i < |ys| ensures ys[i].ty == d.ty { assert ys[i] in multiset(xs); }
  }

  // ----- the rewriter -----

  /** Operands of `opcode` nodes have the type of the node, as the builders assert. */
  ghost predicate OpTyped(M: Model, G: Graph, opcode: nat) {
    forall c, n {:trigger NodeTyped(M, opcode, n), G.classes[c].nodes} ::
      c in G.classes && n in G.classes[c].nodes ==> NodeTyped(M, opcode, n)
  }

  ghost predicate NodeTyped(M: Model, opcode: nat, n: ENode) {
    n.data.Op? && n.data.opcode == opcode ==>
      |n.operands| == 2 && M.val(n.operands[0]).ty == n.data.ty && M.val(n.operands[1]).ty == n.data.ty
  }

  lemma NodeOfClassTyped(M: Model, G: Graph, pend: set<nat>, opcode: nat, c: nat, n: ENode)
    requires Inv(M, G, pend) && OpTyped(M, G, opcode) && c in G.classes && n in G.classes[c].nodes
    ensures NodeTyped(M, opcode, n) && InRange(G.reps, n) && M.val(c) == Denote(M, n)
  {
    assert NodeOk(M, G, c, n);
    assert NodeTyped(M, opcode, n);
  }

  /** The value of a binary node is its operator applied to the operands' values. */
  lemma DenoteBinary(M: Model, n: ENode)
    requires |n.operands| == 2
    ensures Denote(M, n) == Apply(M.op, n.data, M.val(n.operands[0]), M.val(n.operands[1]))
  {
    assert Values(M, n.operands) == [M.val(n.operands[0]), M.val(n.operands[1])];
  }

  lemma ValuesCat(M: Model, xs: seq<nat>, ys: seq<nat>)
    ensures Values(M, xs + ys) == Values(M, xs) + Values(M, ys)
  {}

  /** Leaves that fold to value v. */
  ghost predicate FoldsTo(M: Model, d: OpData, reps: seq<nat>, leaves: seq<nat>, v: Value) {
    && leaves != [] && EG.AllIds(reps, leaves) && Typed(d, Values(M, leaves))
    && Fold(M.op, d, Values(M, leaves)) == v
  }

  lemma FoldsTogether(M: Model, d: OpData, reps: seq<nat>, xs: seq<nat>, ys: seq<nat>, x: Value, y: Value)
    requires FoldsTo(M, d, reps, xs, x) && FoldsTo(M, d, reps, ys, y) && AssocComm(M.op, d)
    ensures FoldsTo(M, d, reps, xs + ys, Apply(M.op, d, x, y))
  {
    ValuesCat(M, xs, ys);
    FoldCat(M.op, d, Values(M, xs), Values(M, ys));
  }

  /** The cheapest node of every leaf's class does not have the opcode: the tree is flattened all the way. */
  ghost predicate AllLeaves(reps: seq<nat>, classes: map<nat, EClass>, opcode: nat, leaves: seq<nat>) {
    forall k {:trigger leaves[k]} :: 0 <= k < |leaves| ==> IsLeaf(reps, classes, opcode, leaves[k])
  }

  ghost predicate IsLeaf(reps: seq<nat>, classes: map<nat, EClass>, opcode: nat, id: nat) {
    var c := Find(reps, id);
    && c in EX.Cached(classes) && classes[c].cache.cost.value.index < |classes[c].nodes|
    && var n := classes[c].nodes[classes[c].cache.cost.value.index]; !(n.data.Op? && n.data.opcode == opcode)
  }

  lemma LeavesCat(reps: seq<nat>, classes: map<nat, EClass>, opcode: nat, xs: seq<nat>, ys: seq<nat>)
    requires AllLeaves(reps, classes, opcode, xs) && AllLeaves(reps, classes, opcode, ys)
    ensures AllLeaves(reps, classes, opcode, xs + ys)
  {}

  class Rewriter {
    const accessor: GraphAccessor
    const graph: EG.EGraph := accessor.graph
    const opcode: nat
    var stack: seq<nat>

    constructor (accessor: GraphAccessor, opcode: nat)
      ensures this.accessor == accessor && this.opcode == opcode && stack == []
    {
      this.accessor, this.opcode, stack := accessor, opcode, [];
    }

    /** All costs below the rewritten class are cached and exact, as `update_cost` leaves them. */
    ghost predicate Ready(M: Model, rank: nat -> nat)
      reads this, graph, graph.unionFind
    {
      var S := EX.SkeletonOf(graph.unionFind.reps, graph.classes);
      && graph.Valid(M) && OpTyped(M, graph.Abs(), opcode)
      && EX.Acyclic(S, rank) && EX.CachesOk(S, rank, graph.classes) && EX.Priced(S, graph.classes, map[])
    }

    /** `rewrite(eclass)`: push the leaves below the class, in order. */
    method Flatten(id: nat, ghost M: Model, ghost rank: nat -> nat, ghost d: OpData)
      requires Ready(M, rank) && id < |graph.unionFind.reps| && graph.unionFind.reps[id] in EX.Cached(graph.classes)
      requires d.Op? && d.opcode == opcode && M.val(id).ty == d.ty && AssocComm(M.op, d)
      modifies this`stack
      ensures old(stack) <= stack && FoldsTo(M, d, graph.unionFind.reps, stack[|old(stack)|..], M.val(id))
      ensures AllLeaves(graph.unionFind.reps, graph.classes, opcode, stack[|old(stack)|..])
      decreases rank(graph.unionFind.reps[id]), 0
    {
      var c := graph.unionFind.Find(id);
      ghost var S := EX.SkeletonOf(graph.unionFind.reps, graph.classes);
      ghost var pend := EG.Reps(graph.unionFind.reps, graph.worklist);
      EX.CachedOk(S, rank, graph.classes, c);
      var n := graph.classes[c].nodes[graph.classes[c].cache.cost.value.index];
      NodeOfClassTyped(M, graph.Abs(), pend, opcode, c, n);
      EG.SameClassSameValue(M, graph.Abs(), id, c);
      if n.data.Op? && n.data.opcode == opcode {
        assert n.data == d;
        EX.CachedBelow(S, graph.classes, map[], c);
        EX.NodeIsBelow(S, rank, c, n);
        assert EX.OperandsCached(S, graph.classes, n);
        assert n.operands[0] < |S.reps| && n.operands[1] < |S.reps|;
        DenoteBinary(M, n);
        FlattenBoth(n.operands[0], n.operands[1], M, rank, d);
      } else {
        stack := stack + [id];
        assert stack[|old(stack)|..] == [id] && Values(M, [id]) == [M.val(id)];
      }
    }

    method FlattenBoth(l: nat, r: nat, ghost M: Model, ghost rank: nat -> nat, ghost d: OpData)
      requires Ready(M, rank) && l < |graph.unionFind.reps| && r < |graph.unionFind.reps|
      requires graph.unionFind.reps[l] in EX.Cached(graph.classes) && graph.unionFind.reps[r] in EX.Cached(graph.classes)
      requires d.Op? && d.opcode == opcode && M.val(l).ty == d.ty && M.val(r).ty == d.ty && AssocComm(M.op, d)
      modifies this`stack
      ensures old(stack) <= stack
      ensures FoldsTo(M, d, graph.unionFind.reps, stack[|old(stack)|..], Apply(M.op, d, M.val(l), M.val(r)))
      ensures AllLeaves(graph.unionFind.reps, graph.classes, opcode, stack[|old(stack)|..])
      decreases if rank(graph.unionFind.reps[l]) > rank(graph.unionFind.reps[r]) then rank(graph.unionFind.reps[l])
                else rank(graph.unionFind.reps[r]), 1
    {
      Flatten(l, M, rank, d);
      ghost var mid := stack;
      Flatten(r, M, rank, d);
      ghost var xs, ys := mid[|old(stack)|..], stack[|mid|..];
      assert stack[|old(stack)|..] == xs + ys;
      FoldsTogether(M, d, graph.unionFind.reps, xs, ys, M.val(l), M.val(r));
      LeavesCat(graph.unionFind.reps, graph.classes, opcode, xs, ys);
    }

    /**
     `emit`: sort the leaves, add the left comb over them, and queue its merge with the original
     class.  Until then no class changes.
     */
    method Emit(original: nat, ghost M: Model, ghost d: OpData) returns (comb: nat, ghost items: seq<nat>, ghost M': Model)
      requires graph.Valid(M) && original < |graph.unionFind.reps| && AssocComm(M.op, d)
      requires d.Op? && d.opcode == opcode && FoldsTo(M, d, graph.unionFind.reps, stack, M.val(original))
      requires Queued(M, graph.unionFind.reps, accessor.merges)
      modifies accessor, graph, graph.unionFind
      ensures graph.Valid(M') && OnlyAdded(M, M', old(graph.unionFind.reps), graph.unionFind.reps)
      ensures SameClasses(old(graph.classes), graph.classes)
      ensures multiset(items) == multiset(stack) && InOrder(old(graph.unionFind.reps), old(graph.classes), items)
      ensures IsComb(graph.Abs(), d, items, comb)
      ensures Queued(M', graph.unionFind.reps, accessor.merges) && PairOk(M', graph.unionFind.reps, (original, comb))
      ensures accessor.merges == if original == comb then old(accessor.merges) else old(accessor.merges) + [(original, comb)]
    {
      ghost var reps0 := graph.unionFind.reps;
      var sorted := SortedIds();
      items := sorted;
      SortKeepsFold(M, d, graph.unionFind.reps, stack, sorted, M.val(original));
      var c := graph.unionFind.Find(sorted[0]);
      ghost var pend := EG.Reps(graph.unionFind.reps, graph.worklist);
      FirstLeafType(M, graph.Abs(), pend, d, sorted);
      var data := Op(graph.classes[c].nodes[0].data.ty, opcode);
      comb, M' := AddComb(data, sorted, M);
      assert M'.val(original) == M.val(original);
      QueuedKept(M, M', reps0, graph.unionFind.reps, accessor.merges);
      var id := accessor.MergeLater(original, comb, M');
    }

    /** The loop of `emit`. */
    method AddComb(data: OpData, items: seq<nat>, ghost M: Model) returns (eclass: nat, ghost M': Model)
      requires graph.Valid(M) && items != [] && EG.AllIds(graph.unionFind.reps, items) && !IsConst(data)
      modifies graph, graph.unionFind
      ensures graph.Valid(M') && M'.op == M.op && eclass < |graph.unionFind.reps|
      ensures old(graph.unionFind.reps) <= graph.unionFind.reps && SameClasses(old(graph.classes), graph.classes)
      ensures forall i :: 0 <= i < old(|graph.unionFind.reps|) ==> M'.val(i) == M.val(i)
      ensures M'.val(eclass) == Fold(M.op, data, Values(M, items)) && IsComb(graph.Abs(), data, items, eclass)
    {
      eclass, M' := items[0], M;
      ghost var reps0, classes0 := graph.unionFind.reps, graph.classes;
      CombBegins(M, graph.Abs(), data, items);
      for i := 1 to |items|
        invariant graph.Valid(M') && OnlyAdded(M, M', reps0, graph.unionFind.reps) && SameClasses(classes0, graph.classes)
        invariant Built(M, M', graph.Abs(), data, items[..i], eclass)
      {
        ghost var M1, reps1, classes1 := M', graph.unionFind.reps, graph.classes;
        eclass, M' := AddNext(data, eclass, items, i, M, M');
        AddedTrans(M, M1, M', reps0, reps1, graph.unionFind.reps, classes0, classes1, graph.classes);
      }
      assert items[..|items|] == items;
    }

    method AddNext(data: OpData, eclass: nat, items: seq<nat>, i: nat, ghost M: Model, ghost M1: Model) returns (id: nat, ghost M': Model)
      requires graph.Valid(M1) && 1 <= i < |items| && EG.AllIds(graph.unionFind.reps, items) && !IsConst(data)
      requires M1.op == M.op && M1.val(items[i]) == M.val(items[i]) && Built(M, M1, graph.Abs(), data, items[..i], eclass)
      modifies graph, graph.unionFind
      ensures graph.Valid(M') && OnlyAdded(M1, M', old(graph.unionFind.reps), graph.unionFind.reps)
      ensures SameClasses(old(graph.classes), graph.classes) && Built(M, M', graph.Abs(), data, items[..i + 1], id)
    {
      assert items[..i + 1] == items[..i] + [items[i]];
      assert EG.AllIds(graph.unionFind.reps, items[..i]);
      id, M' := AddOne(data, eclass, items[i], M1, items[..i]);
      FoldMore(M, data, items[..i], items[i]);
    }

    /** One iteration. */
    method AddOne(data: OpData, eclass: nat, item: nat, ghost M: Model, ghost items: seq<nat>) returns (id: nat, ghost M': Model)
      requires graph.Valid(M) && eclass < |graph.unionFind.reps| && item < |graph.unionFind.reps| && !IsConst(data)
      requires items != [] && EG.AllIds(graph.unionFind.reps, items) && IsComb(graph.Abs(), data, items, eclass)
      modifies graph, graph.unionFind
      ensures graph.Valid(M') && M'.op == M.op && id < |graph.unionFind.reps|
      ensures old(graph.unionFind.reps) <= graph.unionFind.reps && SameClasses(old(graph.classes), graph.classes)
      ensures forall i :: 0 <= i < old(|graph.unionFind.reps|) ==> M'.val(i) == M.val(i)
      ensures M'.val(id) == Apply(M.op, data, M.val(eclass), M.val(item)) && IsComb(graph.Abs(), data, items + [item], id)
    {
      var node := ENode(data, [eclass, item]);
      ghost var G, pend := graph.Abs(), EG.Reps(graph.unionFind.reps, graph.worklist);
      DenoteBinary(M, node);
      id, M' := graph.Add(node, M);
      DenoteSame(M, M', node);
      CombStep(M, G, graph.Abs(), pend, data, items, eclass, item, id);
    }

    /** `std::sort` with `compare`: constants first, then by id. */
    method SortedIds() returns (items: seq<nat>)
      requires graph.unionFind.Valid() && EG.AllIds(graph.unionFind.reps, stack)
      requires forall i :: Root(graph.unionFind.reps, i) ==> i in graph.classes
      ensures multiset(items) == multiset(stack) && InOrder(graph.unionFind.reps, graph.classes, items)
    {
      var leaves: seq<Leaf> := [];
      for i := 0 to |stack|
        invariant |leaves| == i
        invariant forall j :: 0 <= j < i ==> leaves[j] == LeafOf(graph.unionFind.reps, graph.classes, stack[j])
      {
        var c := graph.unionFind.Find(stack[i]);
        leaves := leaves + [Leaf(graph.classes[c].constIndex.Some?, stack[i])];
      }
      SortPermutes(leaves);
      MappedPermute((l: Leaf) => l.id, leaves, Sort(leaves));
      assert Ids(leaves) == stack;
      SortOrders(leaves);
      items := Ids(Sort(leaves));
      forall i | 0 <= i < |items| ensures Sort(leaves)[i] == LeafOf(graph.unionFind.reps, graph.classes, items[i]) {
        assert Sort(leaves)[i] in multiset(leaves);
      }
      LeavesInOrder(graph.unionFind.reps, graph.classes, Sort(leaves), items);
    }

    /** The whole rule, fired on node number `enode` of class `eclass`. */
    method Rewrite(eclass: nat, enode: nat, ghost M: Model, ghost rank: nat -> nat)
      returns (comb: nat, ghost items: seq<nat>, ghost M': Model)
      requires Ready(M, rank) && eclass in graph.classes && enode < |graph.classes[eclass].nodes| && stack == []
      requires var d := graph.classes[eclass].nodes[enode].data; d.Op? && d.opcode == opcode && AssocComm(M.op, d)
      requires Queued(M, graph.unionFind.reps, accessor.merges)
      modifies this`stack, accessor, graph, graph.unionFind
      ensures graph.Valid(M') && OnlyAdded(M, M', old(graph.unionFind.reps), graph.unionFind.reps)
      ensures AllLeaves(graph.unionFind.reps, graph.classes, opcode, stack) && EG.AllIds(old(graph.unionFind.reps), stack)
      ensures multiset(items) == multiset(stack) && InOrder(graph.unionFind.reps, graph.classes, items)
      ensures IsComb(graph.Abs(), old(graph.classes[eclass].nodes[enode].data), items, comb)
      ensures Queued(M', graph.unionFind.reps, accessor.merges) && PairOk(M', graph.unionFind.reps, (eclass, comb))
      ensures accessor.merges == if eclass == comb then old(accessor.merges) else old(accessor.merges) + [(eclass, comb)]
    {
      UpdateCost(eclass, M, rank);
      FlattenOperands(eclass, enode, M, rank);
      comb, items, M' := EmitLeaves(eclass, M, graph.classes[eclass].nodes[enode].data);
    }

    /** `emit`, where all that was pushed are leaves. */
    method EmitLeaves(original: nat, ghost M: Model, ghost d: OpData) returns (comb: nat, ghost items: seq<nat>, ghost M': Model)
      requires graph.Valid(M) && original < |graph.unionFind.reps| && AssocComm(M.op, d)
      requires d.Op? && d.opcode == opcode && FoldsTo(M, d, graph.unionFind.reps, stack, M.val(original))
      requires Queued(M, graph.unionFind.reps, accessor.merges) && AllLeaves(graph.unionFind.reps, graph.classes, opcode, stack)
      modifies accessor, graph, graph.unionFind
      ensures graph.Valid(M') && OnlyAdded(M, M', old(graph.unionFind.reps), graph.unionFind.reps)
      ensures AllLeaves(graph.unionFind.reps, graph.classes, opcode, stack)
      ensures multiset(items) == multiset(stack) && InOrder(graph.unionFind.reps, graph.classes, items)
      ensures IsComb(graph.Abs(), d, items, comb)
      ensures Queued(M', graph.unionFind.reps, accessor.merges) && PairOk(M', graph.unionFind.reps, (original, comb))
      ensures accessor.merges == if original == comb then old(accessor.merges) else old(accessor.merges) + [(original, comb)]
    {
      ghost var reps, classes := graph.unionFind.reps, graph.classes;
      comb, items, M' := Emit(original, M, d);
      LeavesKept(reps, classes, graph.unionFind.reps, graph.classes, opcode, stack);
      AllIdsSame(reps, stack, items);
      OrderKept(reps, classes, graph.unionFind.reps, graph.classes, items);
    }

    /** Push the leaves below both operands of a node of the class. */
    method FlattenOperands(eclass: nat, enode: nat, ghost M: Model, ghost rank: nat -> nat)
      requires Ready(M, rank) && eclass in EX.Cached(graph.classes) && enode < |graph.classes[eclass].nodes| && stack == []
      requires var d := graph.classes[eclass].nodes[enode].data; d.Op? && d.opcode == opcode && AssocComm(M.op, d)
      modifies this`stack
      ensures FoldsTo(M, graph.classes[eclass].nodes[enode].data, graph.unionFind.reps, stack, M.val(eclass))
      ensures AllLeaves(graph.unionFind.reps, graph.classes, opcode, stack)
    {
      var n := graph.classes[eclass].nodes[enode];
      ghost var S := EX.SkeletonOf(graph.unionFind.reps, graph.classes);
      ghost var pend := EG.Reps(graph.unionFind.reps, graph.worklist);
      NodeOfClassTyped(M, graph.Abs(), pend, opcode, eclass, n);
      EX.CachedBelow(S, graph.classes, map[], eclass);
      EX.NodeIsBelow(S, rank, eclass, n);
      assert EX.OperandsCached(S, graph.classes, n);
      assert n.operands[0] < |S.reps| && n.operands[1] < |S.reps|;
      DenoteBinary(M, n);
      FlattenBoth(n.operands[0], n.operands[1], M, rank, n.data);
      assert stack[0..] == stack;
    }

    /** `extractor.update_cost`. */
    method UpdateCost(eclass: nat, ghost M: Model, ghost rank: nat -> nat)
      requires Ready(M, rank) && eclass in graph.classes
      modifies graph`classes
      ensures Ready(M, rank) && eclass in EX.Cached(graph.classes)
      ensures graph.classes.Keys == old(graph.classes.Keys)
      ensures forall c :: c in graph.classes ==> graph.classes[c].nodes == old(graph.classes)[c].nodes
    {
      ghost var S, G := EX.SkeletonOf(graph.unionFind.reps, graph.classes), graph.Abs();
      assert Root(graph.unionFind.reps, eclass);
      var extractor := new EX.Extractor(graph, false);
      assert extractor.Open() == {};
      var k := extractor.EvalCost(eclass, M, rank);
      SameNodes(S, G.classes, graph.classes);
      OpTypedSame(M, G, graph.Abs(), opcode);
      PricedFewer(S, graph.classes, extractor.costs);
    }
  }

  /** Ids were added and no class changed; the model gives all old ids their old values. */
  ghost predicate OnlyAdded(M: Model, M': Model, reps: seq<nat>, reps': seq<nat>) {
    M'.op == M.op && reps <= reps' && forall i :: 0 <= i < |reps| ==> M'.val(i) == M.val(i)
  }

  /** Old classes keep their nodes, constants and caches. */
  ghost predicate SameClasses(classes: map<nat, EClass>, classes': map<nat, EClass>) {
    forall c {:trigger SameClassAt(classes, classes', c)} :: c in classes ==> SameClassAt(classes, classes', c)
  }

  ghost predicate SameClassAt(classes: map<nat, EClass>, classes': map<nat, EClass>, c: nat) {
    c in classes && c in classes' && classes'[c] == classes[c].(parents := classes'[c].parents)
  }

  lemma LeavesKept(reps: seq<nat>, classes: map<nat, EClass>, reps': seq<nat>, classes': map<nat, EClass>, opcode: nat, leaves: seq<nat>)
    requires AllLeaves(reps, classes, opcode, leaves) && reps <= reps' && EG.AllIds(reps, leaves) && SameClasses(classes, classes')
    ensures AllLeaves(reps', classes', opcode, leaves)
  {
    forall k | 0 <= k < |leaves| ensures IsLeaf(reps', classes', opcode, leaves[k]) {
      assert IsLeaf(reps, classes, opcode, leaves[k]);
      assert SameClassAt(classes, classes', Find(reps, leaves[k]));
    }
  }

  /** The hash table knows node n under this id. */
  ghost predicate Known(G: Graph, n: ENode, id: nat) {
    Canon(G.reps, n) in G.hashcons && G.hashcons[Canon(G.reps, n)] == id
  }

  /** Id `comb` is the left comb over the items: ((i0 . i1) . i2) . ... */
  ghost predicate IsComb(G: Graph, data: OpData, items: seq<nat>, comb: nat)
    decreases |items|
  {
    if |items| <= 1 then items == [comb]
    else exists e: nat {:trigger LastStep(G, data, items, comb, e)} ::
      LastStep(G, data, items, comb, e) && IsComb(G, data, items[..|items| - 1], e)
  }

  ghost predicate LastStep(G: Graph, data: OpData, items: seq<nat>, comb: nat, e: nat)
    requires |items| > 1
  {
    Known(G, ENode(data, [e, items[|items| - 1]]), comb)
  }

  /** The comb is still there after an addition. */
  lemma {:induction false} CombGrows(M: Model, G: Graph, pend: set<nat>, x: ENode, data: OpData, items: seq<nat>, comb: nat)
    requires Inv(M, G, pend) && x !in G.hashcons && EG.AllIds(G.reps, items) && IsComb(G, data, items, comb)
    ensures comb < |G.reps| && IsComb(Added(G, x), data, items, comb)
    decreases |items|
  {
    if |items| <= 1 {
      assert items[0] == comb;
    } else {
      var e: nat :| LastStep(G, data, items, comb, e) && IsComb(G, data, items[..|items| - 1], e);
      CombGrows(M, G, pend, x, data, items[..|items| - 1], e);
      var n := ENode(data, [e, items[|items| - 1]]);
      assert HashOk(M, G, Canon(G.reps, n));
      ExtendedDenotes(M, G.reps, M.val(0), n);
      assert LastStep(Added(G, x), data, items, comb, e);
    }
  }

  lemma CombStep(M: Model, G: Graph, G': Graph, pend: set<nat>, data: OpData, items: seq<nat>, e: nat, item: nat, id: nat)
    requires Inv(M, G, pend) && items != [] && EG.AllIds(G.reps, items) && IsComb(G, data, items, e) && e < |G.reps| && item < |G.reps|
    requires var x := Canon(G.reps, ENode(data, [e, item]));
      if x in G.hashcons then G' == G && id == G.hashcons[x] else G' == Added(G, x) && id == |G.reps|
    ensures IsComb(G', data, items + [item], id)
  {
    var n := ENode(data, [e, item]);
    var x := Canon(G.reps, n);
    if x !in G.hashcons {
      CombGrows(M, G, pend, x, data, items, e);
      ExtendedDenotes(M, G.reps, M.val(0), n);
    }
    assert (items + [item])[..|items|] == items;
    assert LastStep(G', data, items + [item], id, e);
  }

  /** Id e is the comb over the items, and has their fold, in the old model M, as its value. */
  ghost predicate Built(M: Model, M': Model, G: Graph, data: OpData, items: seq<nat>, e: nat) {
    items != [] && e < |G.reps| && M'.val(e) == Fold(M.op, data, Values(M, items)) && IsComb(G, data, items, e)
  }

  lemma CombBegins(M: Model, G: Graph, data: OpData, items: seq<nat>)
    requires items != [] && EG.AllIds(G.reps, items)
    ensures Built(M, M, G, data, items[..1], items[0])
  {
    assert items[..1] == [items[0]];
    assert Values(M, items[..1]) == [M.val(items[0])];
  }

  lemma FoldMore(M: Model, data: OpData, items: seq<nat>, item: nat)
    requires items != []
    ensures Fold(M.op, data, Values(M, items + [item])) == Apply(M.op, data, Fold(M.op, data, Values(M, items)), M.val(item))
  {
    var xs := Values(M, items + [item]);
    assert xs[..|xs| - 1] == Values(M, items);
  }

  lemma AddedTrans(M: Model, M1: Model, M2: Model, reps: seq<nat>, reps1: seq<nat>, reps2: seq<nat>,
                   classes: map<nat, EClass>, classes1: map<nat, EClass>, classes2: map<nat, EClass>)
    requires OnlyAdded(M, M1, reps, reps1) && OnlyAdded(M1, M2, reps1, reps2)
    requires SameClasses(classes, classes1) && SameClasses(classes1, classes2)
    ensures OnlyAdded(M, M2, reps, reps2) && SameClasses(classes, classes2)
  {
    forall c | c in classes ensures SameClassAt(classes, classes2, c) {
      assert SameClassAt(classes, classes1, c) && SameClassAt(classes1, classes2, c);
    }
  }

  /** Constants come first, and otherwise ids are in order. */
  ghost predicate InOrder(reps: seq<nat>, classes: map<nat, EClass>, items: seq<nat>) {
    forall i, j :: 0 <= i < j < |items| ==>
      && (HasConstant(reps, classes, items[j]) ==> HasConstant(reps, classes, items[i]))
      && (HasConstant(reps, classes, items[i]) == HasConstant(reps, classes, items[j]) ==> items[i] <= items[j])
  }

  ghost predicate HasConstant(reps: seq<nat>, classes: map<nat, EClass>, id: nat) {
    id < |reps| && reps[id] in classes && classes[reps[id]].constIndex.Some?
  }

  lemma LeavesInOrder(reps: seq<nat>, classes: map<nat, EClass>, leaves: seq<Leaf>, items: seq<nat>)
    requires Ordered(leaves) && |items| == |leaves| && forall i :: 0 <= i < |items| ==> leaves[i] == LeafOf(reps, classes, items[i])
    ensures InOrder(reps, classes, items)
  {
    forall i, j | 0 <= i < j < |items| ensures
      && (HasConstant(reps, classes, items[j]) ==> HasConstant(reps, classes, items[i]))
      && (HasConstant(reps, classes, items[i]) == HasConstant(reps, classes, items[j]) ==> items[i] <= items[j])
    { assert !Less(leaves[j], leaves[i]); }
  }

  lemma OrderKept(reps: seq<nat>, classes: map<nat, EClass>, reps': seq<nat>, classes': map<nat, EClass>, items: seq<nat>)
    requires InOrder(reps, classes, items) && reps <= reps' && SameClasses(classes, classes')
    requires forall i :: 0 <= i < |items| ==> items[i] < |reps| && reps[items[i]] in classes
    ensures InOrder(reps', classes', items)
  {
    forall i | 0 <= i < |items| ensures HasConstant(reps', classes', items[i]) == HasConstant(reps, classes, items[i]) {
      assert SameClassAt(classes, classes', reps[items[i]]);
    }
  }

  lemma AllIdsSame(reps: seq<nat>, xs: seq<nat>, ys: seq<nat>)
    requires EG.AllIds(reps, xs) && multiset(ys) == multiset(xs)
    ensures EG.AllIds(reps, ys)
  {
    forall k | 0 <= k < |ys| ensures ys[k] < |reps| { assert ys[k] in multiset(xs); }
  }

  datatype Leaf = Leaf(constant: bool, id: nat)

  ghost function LeafOf(reps: seq<nat>, classes: map<nat, EClass>, id: nat): Leaf {
    Leaf(id < |reps| && reps[id] in classes && classes[reps[id]].constIndex.Some?, id)
  }

  predicate Less(a: Leaf, b: Leaf) {
    if a.constant != b.constant then a.constant else a.id < b.id
  }

  function Insert(x: Leaf, xs: seq<Leaf>): seq<Leaf> {
    if xs == [] || !Less(xs[0], x) then [x] + xs else [xs[0]] + Insert(x, xs[1..])
  }

  function Sort(xs: seq<Leaf>): seq<Leaf> {
    if xs == [] then [] else Insert(xs[0], Sort(xs[1..]))
  }

  function Ids(xs: seq<Leaf>): seq<nat> {
    Mapped((l: Leaf) => l.id, xs)
  }

  lemma {:induction false} InsertPermutes(x: Leaf, xs: seq<Leaf>)
    ensures multiset(Insert(x, xs)) == multiset([x] + xs)
  {
    if xs != [] && Less(xs[0], x) {
      InsertPermutes(x, xs[1..]);
      assert xs == [xs[0]] + xs[1..];
    }
  }

  lemma {:induction false} SortPermutes(xs: seq<Leaf>)
    ensures multiset(Sort(xs)) == multiset(xs)
  {
    if xs != [] {
      SortPermutes(xs[1..]);
      InsertPermutes(xs[0], Sort(xs[1..]));
      assert xs == [xs[0]] + xs[1..];
    }
  }

  ghost predicate Ordered(xs: seq<Leaf>) {
    forall i, j :: 0 <= i < j < |xs| ==> !Less(xs[j], xs[i])
  }

  lemma {:induction false} InsertOrders(x: Leaf, xs: seq<Leaf>)
    requires Ordered(xs)
    ensures Ordered(Insert(x, xs))
  {
    if xs != [] && Less(xs[0], x) {
      InsertOrders(x, xs[1..]);
      InsertPermutes(x, xs[1..]);
      var tail := Insert(x, xs[1..]);
      forall j | 0 <= j < |tail| ensures !Less(tail[j], xs[0]) {
        assert tail[j] in multiset([x] + xs[1..]);
      }
    }
  }

  lemma {:induction false} SortOrders(xs: seq<Leaf>)
    ensures Ordered(Sort(xs))
  {
    if xs != [] {
      SortOrders(xs[1..]);
      InsertOrders(xs[0], Sort(xs[1..]));
    }
  }

  function Mapped<A, B>(f: A -> B, xs: seq<A>): seq<B> {
    seq(|xs|, i requires 0 <= i < |xs| => f(xs[i]))
  }

  /** Mapping a permutation gives a permutation. */
  lemma {:induction false} MappedPermute<A, B>(f: A -> B, xs: seq<A>, ys: seq<A>)
    requires multiset(xs) == multiset(ys)
    ensures multiset(Mapped(f, xs)) == multiset(Mapped(f, ys))
  {
    assert |multiset(xs)| == |multiset(ys)|;
    if xs == [] {
      assert Mapped(f, xs) == Mapped(f, ys);
    } else {
      var x, rest := xs[0], xs[1..];
      assert xs == [x] + rest;
      assert x in multiset(ys);
      var k :| 0 <= k < |ys| && ys[k] == x;
      var l, r := ys[..k], ys[k + 1..];
      assert ys == l + [x] + r;
      SameRest(x, rest, l, r);
      MappedPermute(f, rest, l + r);
      MappedSplit(f, [x], rest);
      MappedSplit(f, l, r);
      MappedSplit(f, l, [x]);
      MappedSplit(f, l + [x], r);
    }
  }

  lemma SameRest<A>(x: A, rest: seq<A>, l: seq<A>, r: seq<A>)
    requires multiset([x] + rest) == multiset(l + [x] + r)
    ensures multiset(rest) == multiset(l + r)
  {
    assert multiset(rest) == multiset([x] + rest) - multiset{x};
    assert multiset(l + r) == multiset(l + [x] + r) - multiset{x};
  }

  lemma MappedSplit<A, B>(f: A -> B, xs: seq<A>, ys: seq<A>)
    ensures Mapped(f, xs + ys) == Mapped(f, xs) + Mapped(f, ys)
  {}

  lemma SortKeepsFold(M: Model, d: OpData, reps: seq<nat>, xs: seq<nat>, ys: seq<nat>, v: Value)
    requires FoldsTo(M, d, reps, xs, v) && multiset(xs) == multiset(ys) && AssocComm(M.op, d)
    ensures FoldsTo(M, d, reps, ys, v)
  {
    MappedPermute(M.val, xs, ys);
    assert Values(M, xs) == Mapped(M.val, xs) && Values(M, ys) == Mapped(M.val, ys);
    assert |multiset(xs)| == |multiset(ys)|;
    FoldPermutation(M.op, d, Values(M, xs), Values(M, ys));
    TypedPermutation(d, Values(M, xs), Values(M, ys));
    forall k | 0 <= k < |ys| ensures ys[k] < |reps| {
      assert ys[k] in multiset(xs);
      var i :| 0 <= i < |xs| && xs[i] == ys[k];
    }
  }

  lemma FirstLeafType(M: Model, G: Graph, pend: set<nat>, d: OpData, items: seq<nat>)
    requires Inv(M, G, pend) && items != [] && EG.AllIds(G.reps, items) && Typed(d, Values(M, items))
    ensures var c := G.reps[items[0]]; c in G.classes && G.classes[c].nodes != [] && G.classes[c].nodes[0].data.ty == d.ty
  {
    var c := G.reps[items[0]];
    assert Root(G.reps, c) && items[0] < |G.reps|;
    assert ClassOk(M, c, G.classes[c]);
    assert NodeOk(M, G, c, G.classes[c].nodes[0]);
    assert M.val(c) == M.val(items[0]) == Values(M, items)[0];
  }

  lemma DenoteSame(M: Model, M': Model, n: ENode)
    requires M'.op == M.op && forall k :: 0 <= k < |n.operands| ==> M'.val(n.operands[k]) == M.val(n.operands[k])
    ensures Denote(M', n) == Denote(M, n)
  {
    assert Values(M', n.operands) == Values(M, n.operands);
  }

  lemma SameNodes(S: EX.Skeleton, classes: map<nat, EClass>, classes': map<nat, EClass>)
    requires S == EX.SkeletonOf(S.reps, classes) == EX.SkeletonOf(S.reps, classes')
    ensures classes'.Keys == classes.Keys && forall c :: c in classes ==> classes'[c].nodes == classes[c].nodes
  {
    assert classes.Keys == S.nodes.Keys == classes'.Keys;
    forall c | c in classes ensures classes'[c].nodes == classes[c].nodes { assert S.nodes[c] == classes[c].nodes; }
  }

  lemma OpTypedSame(M: Model, G: Graph, G': Graph, opcode: nat)
    requires OpTyped(M, G, opcode) && G'.classes.Keys == G.classes.Keys
    requires forall c :: c in G.classes ==> G'.classes[c].nodes == G.classes[c].nodes
    ensures OpTyped(M, G', opcode)
  {
    forall c, n | c in G'.classes && n in G'.classes[c].nodes ensures NodeTyped(M, opcode, n) {
      assert n in G.classes[c].nodes;
    }
  }

  lemma PricedFewer(S: EX.Skeleton, classes: map<nat, EClass>, costs: map<nat, Cost>)
    requires EX.Priced(S, classes, costs)
    ensures EX.Priced(S, classes, map[])
  {}
}
