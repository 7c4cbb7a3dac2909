/**
 Why congruence after `rebuild` is promised only for values that no constant class has.

 When a class turns out to be constant, `unparent` (src/IR/EGraph.cpp:301-317) erases its nodes from
 the parent lists of their operands.  It erases by key, and an equal key may belong to another class.
 The run below adds nine nodes, rebuilds, merges four times and rebuilds again: repairing class 3 turns
 its f(1) into f(0), repairing class 5 merges it with the constant, and pruning then erases the entry
 f(0) that led to class 2.
 */
module EGraphPruning {
  import UF = UnionFind
  import opened EGraphModel
  import opened Options
  import opened EGraphSteps
  import opened EGraphRepair
  import opened EGraphTangles
  import opened EGraphFresh

  const SYM_B := ENode(SymbolData(0, 0), [])
  const SYM_A := ENode(SymbolData(0, 1), [])
  const F_0 := ENode(Op(0, 7), [0])
  const F_1 := ENode(Op(0, 7), [1])
  const ONE := ENode(ConstantInt(0, 1), [])
  const SYM_W := ENode(SymbolData(0, 2), [])
  const SYM_X := ENode(SymbolData(0, 3), [])
  const G_5 := ENode(Op(0, 8), [5])
  const G_6 := ENode(Op(0, 8), [6])

  const NODES := [SYM_B, SYM_A, F_0, F_1, ONE, SYM_W, SYM_X, G_5, G_6]

  /** Symbols are 0, and f and g are 1 everywhere. */
  const MODEL := Model((d: OpData, xs: seq<Value>) => if d.SymbolData? then 0 else 1,
                       (i: nat) => Value(0, if i in {0, 1, 5, 6} then 0 else 1))

  /** The merges, after which classes 3, 5, 4 and 0 wait for repair, in this order. */
  function Merges(G: Graph): Graph {
    MergeIds(MergeIds(MergeIds(MergeIds(G, 3, 8), 5, 6), 4, 7), 0, 1)
  }

  const BEFORE := Merges(FreshGraph(NODES))

  // ----- the nodes -----

  lemma Operands(c: nat)
    ensures c !in SYM_B.operands && c !in SYM_A.operands && c !in ONE.operands && c !in SYM_W.operands && c !in SYM_X.operands
    ensures (c in F_0.operands <==> c == 0) && (c in F_1.operands <==> c == 1)
    ensures (c in G_5.operands <==> c == 5) && (c in G_6.operands <==> c == 6)
  {
    assert F_0.operands == [0] && F_1.operands == [1] && G_5.operands == [5] && G_6.operands == [6];
  }

  lemma NodesFresh()
    ensures Fresh(NODES)
  {
    forall i | 0 <= i < |NODES| ensures FreshAt(NODES, i) { NodeFresh(i); }
  }

  lemma NodeFresh(i: nat)
    requires i < |NODES|
    ensures FreshAt(NODES, i)
  {
    assert F_0.operands == [0] && F_1.operands == [1] && G_5.operands == [5] && G_6.operands == [6];
  }

  function ParentsFor(c: nat): map<ENode, nat> {
    if c == 0 then map[F_0 := 2] else if c == 1 then map[F_1 := 3]
    else if c == 5 then map[G_5 := 7] else if c == 6 then map[G_6 := 8] else map[]
  }

  lemma ParentsForIs(c: nat)
    ensures ParentsOf(NODES, c) == ParentsFor(c)
  {
    NodesFresh();
    Operands(c);
    ParentsExactly(NODES, c, ParentsFor(c));
  }

  // ----- the merges -----

  const REPS := [0, 1, 2, 3, 4, 5, 6, 7, 8]

  lemma RepsJoined()
    ensures UF.Joined(REPS, 3, 8) == [0, 1, 2, 3, 4, 5, 6, 7, 3]
    ensures UF.Joined([0, 1, 2, 3, 4, 5, 6, 7, 3], 5, 6) == [0, 1, 2, 3, 4, 5, 5, 7, 3]
    ensures UF.Joined([0, 1, 2, 3, 4, 5, 5, 7, 3], 4, 7) == [0, 1, 2, 3, 4, 5, 5, 4, 3]
    ensures UF.Joined([0, 1, 2, 3, 4, 5, 5, 4, 3], 0, 1) == [0, 0, 2, 3, 4, 5, 5, 4, 3]
  {}

  /** A merge of two roots. */
  lemma MergeRoots(G: Graph, a: nat, b: nat)
    requires a in G.classes && b in G.classes && Root(G.reps, a) && Root(G.reps, b) && a != b
    ensures MergeIds(G, a, b) == Merged(G, a, b)
  {}

  lemma MergesAre(G: Graph)
    requires G.reps == REPS && {0, 1, 3, 4, 5, 6, 7, 8} <= G.classes.Keys
    ensures Merges(G) == Merged(Merged(Merged(Merged(G, 3, 8), 5, 6), 4, 7), 0, 1)
    ensures Merges(G).reps == [0, 0, 2, 3, 4, 5, 5, 4, 3]
  {
    RepsJoined();
    MergeRoots(G, 3, 8);
    var G1 := Merged(G, 3, 8);
    MergeRoots(G1, 5, 6);
    var G2 := Merged(G1, 5, 6);
    MergeRoots(G2, 4, 7);
    var G3 := Merged(G2, 4, 7);
    MergeRoots(G3, 0, 1);
  }

  lemma ClassesMerged(G: Graph)
    requires {0, 1, 3, 4, 5, 6, 7, 8} <= G.classes.Keys
    ensures var cs := G.classes;
      Merged(Merged(Merged(Merged(G, 3, 8), 5, 6), 4, 7), 0, 1).classes ==
        (cs - {1, 6, 7, 8})[0 := MergeClass(cs[0], cs[1])][3 := MergeClass(cs[3], cs[8])][4 := MergeClass(cs[4], cs[7])][
          5 := MergeClass(cs[5], cs[6])]
  {}

  lemma MergesKeep(M: Model, G: Graph)
    requires Inv(M, G, {}) && G.reps == REPS
    requires M.val(3) == M.val(8) && M.val(5) == M.val(6) && M.val(4) == M.val(7) && M.val(0) == M.val(1)
    ensures Inv(M, Merges(G), {0, 3, 4, 5})
  {
    MergeIdsKeeps(M, G, {}, 3, 8);
    var G1 := MergeIds(G, 3, 8);
    MergeIdsKeeps(M, G1, {} + {3}, 5, 6);
    var G2 := MergeIds(G1, 5, 6);
    MergeIdsKeeps(M, G2, {} + {3} + {5}, 4, 7);
    var G3 := MergeIds(G2, 4, 7);
    MergeIdsKeeps(M, G3, {} + {3} + {5} + {4}, 0, 1);
    InvMono(M, Merges(G), {} + {3} + {5} + {4} + {0}, {0, 3, 4, 5});
  }

  lemma NodesValued(i: nat)
    requires i < |NODES|
    ensures MODEL.val(i) == Denote(MODEL, NODES[i])
  {}

  lemma BeforeSound()
    ensures Inv(MODEL, BEFORE, {0, 3, 4, 5})
  {
    NodesFresh();
    forall i | 0 <= i < |NODES| ensures MODEL.val(i) == Denote(MODEL, NODES[i]) { NodesValued(i); }
    FreshInv(MODEL, NODES);
    MergesKeep(MODEL, FreshGraph(NODES));
  }

  // ----- the second rebuild, step by step -----

  function Class(nodes: seq<ENode>, parents: map<ENode, nat>, constIndex: Option<nat>): EClass {
    EClass(nodes, parents, NO_CACHE, constIndex)
  }

  const NO_PARENTS: map<ENode, nat> := map[]

  /** When `rebuild` is called. */
  ghost predicate Waiting(G: Graph) {
    && G.reps == [0, 0, 2, 3, 4, 5, 5, 4, 3] && G.classes.Keys == {0, 2, 3, 4, 5}
    && G.classes[0] == Class([SYM_B, SYM_A], map[F_0 := 2, F_1 := 3], None)
    && G.classes[2] == Class([F_0], NO_PARENTS, None)
    && G.classes[3] == Class([F_1, G_6], NO_PARENTS, None)
    && G.classes[4] == Class([ONE, G_5], NO_PARENTS, Some(0))
    && G.classes[5] == Class([SYM_W, SYM_X], map[G_5 := 7, G_6 := 8], None)
  }

  function FreshFor(c: nat): EClass
    requires c < |NODES|
  {
    Class([NODES[c]], ParentsFor(c), if c == 4 then Some(0) else None)
  }

  lemma FreshIs(c: nat)
    requires c < |NODES|
    ensures FreshClass(NODES, c) == FreshFor(c)
  {
    ParentsForIs(c);
  }

  lemma ClassesAre()
    ensures MergeClass(FreshFor(0), FreshFor(1)) == Class([SYM_B, SYM_A], map[F_0 := 2, F_1 := 3], None)
    ensures MergeClass(FreshFor(3), FreshFor(8)) == Class([F_1, G_6], NO_PARENTS, None)
    ensures MergeClass(FreshFor(4), FreshFor(7)) == Class([ONE, G_5], NO_PARENTS, Some(0))
    ensures MergeClass(FreshFor(5), FreshFor(6)) == Class([SYM_W, SYM_X], map[G_5 := 7, G_6 := 8], None)
  {}

  lemma WaitingFrom(G: Graph)
    requires G.reps == REPS && G.classes.Keys == {0, 1, 2, 3, 4, 5, 6, 7, 8}
    requires forall c: nat :: c < 9 ==> G.classes[c] == FreshFor(c)
    ensures Waiting(Merges(G))
  {
    MergesAre(G);
    ClassesMerged(G);
    ClassesAre();
    assert FreshFor(2) == Class([F_0], NO_PARENTS, None);
  }

  lemma BeforeWaiting()
    ensures Waiting(BEFORE)
  {
    var G := FreshGraph(NODES);
    assert G.reps == REPS;
    assert G.classes.Keys == {0, 1, 2, 3, 4, 5, 6, 7, 8};
    forall c: nat | c < 9 ensures G.classes[c] == FreshFor(c) { FreshIs(c); }
    WaitingFrom(G);
  }

  lemma Nullary(reps: seq<nat>, n: ENode)
    requires n.operands == []
    ensures Canon(reps, n) == n
  {}

  /** `repair(3)`: class 3 has no parents, and its nodes are made canonical. */
  ghost function Step1(G: Graph): Graph
    requires Waiting(G)
  {
    Replaced(G, 3, NO_PARENTS)
  }

  ghost predicate After1(G: Graph) {
    && G.reps == [0, 0, 2, 3, 4, 5, 5, 4, 3] && G.classes.Keys == {0, 2, 3, 4, 5}
    && G.classes[0] == Class([SYM_B, SYM_A], map[F_0 := 2, F_1 := 3], None)
    && G.classes[2] == Class([F_0], NO_PARENTS, None)
    && G.classes[3] == Class([F_0, G_5], NO_PARENTS, None)
    && G.classes[4] == Class([ONE, G_5], NO_PARENTS, Some(0))
    && G.classes[5] == Class([SYM_W, SYM_X], map[G_5 := 7, G_6 := 8], None)
  }

  lemma Repair3(G: Graph)
    requires Waiting(G)
    ensures After1(Step1(G))
  {
    assert Canon(G.reps, F_1).operands == [0] && Canon(G.reps, G_6).operands == [5];
    assert CanonAll(G.reps, [F_1, G_6]) == [F_0, G_5];
  }

  /** Parents g(5) and g(6) of class 5, in either order: the second is merged with the first. */
  ghost predicate Order(a: nat, b: nat) {
    (a == 3 && b == 4) || (a == 4 && b == 3)
  }

  ghost predicate Kept(a: nat) {
    a == 3 || a == 4
  }

  /** `repair(5)`: its parents are rehashed, classes a and b merged, and one parent is left. */
  ghost function Step2(G: Graph, a: nat, b: nat): Graph
    requires After1(G) && Order(a, b)
  {
    var G' := if a == 3 then Rehashed(Rehashed(G, G_5, 7), G_6, 8) else Rehashed(Rehashed(G, G_6, 8), G_5, 7);
    Replaced(Merged(G', a, b), 5, map[G_5 := a])
  }

  ghost predicate After2(G: Graph, a: nat) {
    && G.reps == [0, 0, 2, a, a, 5, 5, a, a] && G.classes.Keys == {0, 2, a, 5}
    && G.classes[0] == Class([SYM_B, SYM_A], map[F_0 := 2, F_1 := 3], None)
    && G.classes[2] == Class([F_0], NO_PARENTS, None)
    && G.classes[a] == (if a == 3 then Class([F_0, G_5, ONE, G_5], NO_PARENTS, Some(2))
                        else Class([ONE, G_5, F_0, G_5], NO_PARENTS, Some(0)))
    && G.classes[5] == Class([SYM_W, SYM_X], map[G_5 := a], None)
  }

  lemma Repair5(G: Graph, a: nat, b: nat)
    requires After1(G) && Order(a, b)
    ensures Canon(G.reps, G_5) == Canon(G.reps, G_6) && Find(G.reps, 7) == 4 && Find(G.reps, 8) == 3
    ensures After2(Step2(G, a, b), a)
  {
    assert Canon(G.reps, G_5).operands == [5] && Canon(G.reps, G_6).operands == [5];
    var G' := if a == 3 then Rehashed(Rehashed(G, G_5, 7), G_6, 8) else Rehashed(Rehashed(G, G_6, 8), G_5, 7);
    assert Merged(G', a, b).reps == [0, 0, 2, a, a, 5, 5, a, a];
    Nullary(Merged(G', a, b).reps, SYM_W);
    Nullary(Merged(G', a, b).reps, SYM_X);
    assert CanonAll(Merged(G', a, b).reps, [SYM_W, SYM_X]) == [SYM_W, SYM_X];
  }

  /** `repair` of the merged class: it holds a constant now, and drops all else. */
  ghost function Step3(G: Graph, a: nat): Graph
    requires Kept(a) && After2(G, a)
  {
    Replaced(Pruned(G, a), a, NO_PARENTS)
  }

  ghost predicate After3(G: Graph, a: nat) {
    && G.reps == [0, 0, 2, a, a, 5, 5, a, a] && G.classes.Keys == {0, 2, a, 5}
    && G.classes[0] == Class([SYM_B, SYM_A], map[F_1 := 3], None)
    && G.classes[2] == Class([F_0], NO_PARENTS, None)
    && G.classes[a] == Class([ONE], NO_PARENTS, Some(0))
    && G.classes[5] == Class([SYM_W, SYM_X], NO_PARENTS, None)
  }

  lemma DroppedFrom(G: Graph, a: nat, c: nat)
    requires Kept(a) && After2(G, a)
    ensures Dropped(G, a, c) == if c == 0 then {F_0} else if c == 5 then {G_5} else {}
  {
    assert Canon(G.reps, F_0).operands == [0] && Canon(G.reps, G_5).operands == [5] && Canon(G.reps, ONE).operands == [];
    var nodes := G.classes[a].nodes;
    assert F_0 in nodes && G_5 in nodes && forall n :: n in nodes ==> n in {F_0, G_5, ONE};
  }

  lemma RepairConstant(G: Graph, a: nat)
    requires Kept(a) && After2(G, a)
    ensures After3(Step3(G, a), a)
  {
    DroppedFrom(G, a, 0);
    DroppedFrom(G, a, 2);
    DroppedFrom(G, a, a);
    DroppedFrom(G, a, 5);
    Nullary(G.reps, ONE);
    assert CanonAll(G.reps, [ONE]) == [ONE];
    assert map[F_0 := 2, F_1 := 3] - {F_0} == map[F_1 := 3];
    assert map[G_5 := a] - {G_5} == NO_PARENTS;
  }

  /** `repair(0)`: the parent that is left, f(1), is rehashed as f(0). */
  ghost function Step4(G: Graph, a: nat): Graph
    requires Kept(a) && After3(G, a)
  {
    Replaced(Rehashed(G, F_1, 3), 0, map[F_0 := a])
  }

  lemma Repair0(G: Graph, a: nat)
    requires Kept(a) && After3(G, a)
    ensures Canon(G.reps, F_1) == F_0 && Find(G.reps, 3) == a
    ensures var G' := Step4(G, a);
      && G'.reps == G.reps && 2 in G'.classes && F_0 in G'.classes[2].nodes && !Hashed(G', F_0, 2)
      && a in G'.classes && G'.classes[a] == Class([ONE], NO_PARENTS, Some(0)) && Replaced(G', a, NO_PARENTS) == G'
  {
    assert Canon(G.reps, F_1).operands == [0];
    Nullary(G.reps, ONE);
    assert CanonAll(G.reps, [ONE]) == [ONE];
    assert Replaced(Step4(G, a), a, NO_PARENTS).classes == Step4(G, a).classes;
  }

  // ----- the result -----

  /** The classes of f and g are one. */
  function Level(i: nat): nat {
    if i <= 1 then 0 else if i == 5 || i == 6 then 5 else 2
  }

  function Height(i: nat): nat {
    if i == 2 then 1 else 0
  }

  lemma WaitingEntry(G: Graph, b: nat, m: ENode)
    requires Waiting(G) && b in G.classes && m in G.classes[b].parents
    ensures var p := G.classes[b].parents[m];
      Level(p) == 2 && ((b == 0 && m.data == F_0.data) || (b == 5 && m.data == G_5.data))
  {}

  lemma WaitingUntangled(G: Graph)
    requires Waiting(G)
    ensures Untangled(G)
  {
    forall b, m, c, k | b in G.classes && m in G.classes[b].parents && c in G.classes && k in G.classes[c].parents
      ensures AgreeAt(Level, G, b, m, c, k)
    {
      WaitingEntry(G, b, m);
      WaitingEntry(G, c, k);
    }
    forall b, m | b in G.classes && m in G.classes[b].parents ensures Height(Level(G.classes[b].parents[m])) > Height(Level(b)) {
      WaitingEntry(G, b, m);
    }
    NoAncestorUntangles(Level, G, Height);
  }

  lemma ValueTaken(G: Graph)
    requires Waiting(G)
    ensures !Free(MODEL, G, MODEL.val(2))
  {
    assert G.classes[4].constIndex.Some? && MODEL.val(4) == MODEL.val(2);
  }

  /**
   A run of the code: from an untangled graph that keeps the invariant, the repairs of `rebuild` leave
   nothing waiting, yet the hash table sends the node that class 2 holds to the constant's class.
   It is so whichever of its two parents the repair of class 5 meets first.
   */
  lemma PruningLosesCongruence(a: nat, b: nat)
    requires Order(a, b)
    ensures Fresh(NODES) && Inv(MODEL, BEFORE, {0, 3, 4, 5}) && Untangled(BEFORE) && !Free(MODEL, BEFORE, MODEL.val(2))
    ensures Waiting(BEFORE) && After1(Step1(BEFORE))
    ensures var G := Step1(BEFORE);
      && Canon(G.reps, G_5) == Canon(G.reps, G_6) && Find(G.reps, 7) == 4 && Find(G.reps, 8) == 3
      && After2(Step2(G, a, b), a) && After3(Step3(Step2(G, a, b), a), a)
    ensures var G' := Step4(Step3(Step2(Step1(BEFORE), a, b), a), a);
      && 2 in G'.classes && F_0 in G'.classes[2].nodes && !Hashed(G', F_0, 2)
      && a in G'.classes && G'.classes[a] == Class([ONE], NO_PARENTS, Some(0)) && Replaced(G', a, NO_PARENTS) == G'
  {
    NodesFresh();
    BeforeSound();
    BeforeWaiting();
    WaitingUntangled(BEFORE);
    ValueTaken(BEFORE);
    Repair3(BEFORE);
    Repair5(Step1(BEFORE), a, b);
    RepairConstant(Step2(Step1(BEFORE), a, b), a);
    Repair0(Step3(Step2(Step1(BEFORE), a, b), a), a);
  }
}
