/**
 Runs of the e-graph that show how far the condition of `rebuild` reaches.  Every graph here is built
 by adding nodes to the empty graph, which `rebuild` leaves as it is, and then merging.
 */
module EGraphCases {
  import opened EGraphModel
  import opened Options
  import opened EGraphSteps
  import opened EGraphRepair
  import opened EGraphTangles
  import opened EGraphFresh

  const U := ENode(SymbolData(0, 0), [])
  const V := ENode(SymbolData(0, 1), [])

  // ----- a value that coincides is no tangle -----

  const U_PLUS_V := ENode(Op(0, 1), [0, 1])
  const SUM := [U, V, U_PLUS_V]

  /** v is 0, so u + v has the value of u. */
  const ZERO_V := Model((d: OpData, xs: seq<Value>) => if d == V.data then 0 else 5,
                        (i: nat) => Value(0, if i == 1 then 0 else 5))

  lemma SumFresh()
    ensures Fresh(SUM)
  {
    assert U_PLUS_V.operands == [0, 1];
    assert FreshAt(SUM, 0) && FreshAt(SUM, 1) && FreshAt(SUM, 2);
  }

  /** Values play no part: the graph is untangled although v is 0 and its parent u + v has the value of u. */
  lemma SumUntangled()
    ensures Fresh(SUM) && Untangled(FreshGraph(SUM))
    ensures Inv(ZERO_V, FreshGraph(SUM), {}) && ZERO_V.val(2) == ZERO_V.val(0)
  {
    SumFresh();
    FreshInv(ZERO_V, SUM);
    FreshUntangled(SUM);
  }

  /** Nodes that were only added are untangled. */
  lemma FreshUntangled(xs: seq<ENode>)
    requires Fresh(xs)
    ensures Untangled(FreshGraph(xs))
  {
    var G := FreshGraph(xs);
    forall b, m, c, k | b in G.classes && m in G.classes[b].parents && c in G.classes && k in G.classes[c].parents
      ensures TidyAt(G, b, m, c, k)
    {
      FreshCanon(|xs|, m);
      FreshCanon(|xs|, k);
      ParentsAre(xs, b);
      ParentsAre(xs, c);
      HashIs(xs);
    }
    forall b, m | b in G.classes && m in G.classes[b].parents ensures Find(G.reps, G.classes[b].parents[m]) > Find(G.reps, b) {
      ParentsAre(xs, b);
    }
    TidyAcyclicUntangled(G, i => i);
  }

  // ----- a class that becomes its own parent -----

  /** Symbols are 0, everything else is 1. */
  const MODEL := Model((d: OpData, xs: seq<Value>) => if d.SymbolData? then 0 else 1,
                       (i: nat) => if i <= 1 then Value(0, 0) else Value(0, 1))

  const F_U := ENode(Op(0, 7), [0])
  const F_V := ENode(Op(0, 7), [1])
  const H_P := ENode(Op(0, 8), [2])
  const H_Q := ENode(Op(0, 8), [3])

  /** f(u) is 2, f(v) is 3 and h(2) is 4. */
  const LOOP_NODES := [U, V, F_U, F_V, H_P]

  /** h(2) was merged into f(v), and then v into u. */
  const LOOPED := MergeIds(MergeIds(FreshGraph(LOOP_NODES), 3, 4), 0, 1)

  lemma Operands(c: nat)
    ensures c !in U.operands && c !in V.operands
    ensures (c in F_U.operands <==> c == 0) && (c in F_V.operands <==> c == 1)
    ensures (c in H_P.operands <==> c == 2) && (c in H_Q.operands <==> c == 3)
  {
    assert F_U.operands == [0] && F_V.operands == [1] && H_P.operands == [2] && H_Q.operands == [3];
  }

  lemma LoopFresh()
    ensures Fresh(LOOP_NODES) && FreshGraph(LOOP_NODES).classes.Keys == {0, 1, 2, 3, 4}
  {
    var xs := LOOP_NODES;
    assert F_U.operands == [0] && F_V.operands == [1] && H_P.operands == [2];
    assert FreshAt(xs, 0) && FreshAt(xs, 1) && FreshAt(xs, 2) && FreshAt(xs, 3) && FreshAt(xs, 4);
  }

  lemma LoopParents(c: nat)
    ensures ParentsOf(LOOP_NODES, c) ==
      if c == 0 then map[F_U := 2] else if c == 1 then map[F_V := 3] else if c == 2 then map[H_P := 4] else map[]
  {
    LoopFresh();
    Operands(c);
    ParentsExactly(LOOP_NODES, c,
      if c == 0 then map[F_U := 2] else if c == 1 then map[F_V := 3] else if c == 2 then map[H_P := 4] else map[]);
  }

  /** The partition and the parent lists of LOOPED. */
  ghost predicate LoopedLike(G: Graph) {
    && G.reps == [0, 0, 2, 3, 3] && G.classes.Keys == {0, 2, 3}
    && G.classes[0].parents == map[F_U := 2, F_V := 3] && G.classes[2].parents == map[H_P := 4] && G.classes[3].parents == map[]
  }

  lemma LoopedShape()
    ensures LoopedLike(LOOPED)
  {
    var G := FreshGraph(LOOP_NODES);
    LoopFresh();
    LoopParents(0);
    LoopParents(1);
    LoopParents(2);
    LoopParents(3);
    LoopParents(4);
    var G1 := Merged(G, 3, 4);
    assert G1.reps == [0, 1, 2, 3, 3];
    assert LOOPED == Merged(G1, 0, 1);
  }

  lemma LoopedSound()
    ensures Inv(MODEL, LOOPED, {0, 3})
  {
    LoopFresh();
    FreshInv(MODEL, LOOP_NODES);
    var G := FreshGraph(LOOP_NODES);
    MergeIdsKeeps(MODEL, G, {}, 3, 4);
    var G1 := MergeIds(G, 3, 4);
    assert G1.reps == [0, 1, 2, 3, 3];
    MergeIdsKeeps(MODEL, G1, {} + {3}, 0, 1);
    InvMono(MODEL, LOOPED, {} + {3} + {0}, {0, 3});
  }

  /** u and v are one, and so is everything above them. */
  function Level(i: nat): nat {
    if i <= 1 then 0 else 2
  }

  function LoopHeight(i: nat): nat {
    if i == 2 then 1 else if i == 3 then 2 else 0
  }

  lemma LoopedEntry(G: Graph, b: nat, m: ENode)
    requires LoopedLike(G) && b in G.classes && m in G.classes[b].parents
    ensures var p := G.classes[b].parents[m];
      (b == 0 && m.data == F_U.data && (p == 2 || p == 3)) || (b == 2 && m == H_P && p == 4)
  {}

  lemma LoopedHarmless(G: Graph)
    requires LoopedLike(G)
    ensures Congruence(Level, G) && Harmless(Level, G) && Ranked(i => Find(G.reps, i), G, LoopHeight)
  {
    forall b, m, c, k | b in G.classes && m in G.classes[b].parents && c in G.classes && k in G.classes[c].parents
      ensures AgreeAt(Level, G, b, m, c, k) && HarmlessAt(Level, G, b, m, c, k)
    {
      LoopedEntry(G, b, m);
      LoopedEntry(G, c, k);
    }
    forall b, m | b in G.classes && m in G.classes[b].parents
      ensures LoopHeight(Find(G.reps, G.classes[b].parents[m])) > LoopHeight(Find(G.reps, b))
    { LoopedEntry(G, b, m); }
  }

  lemma LoopedOwnParent(G: Graph, F: Labels)
    requires LoopedLike(G) && Congruence(F, G)
    ensures F(G.classes[2].parents[H_P]) == F(2)
  {
    assert F(G.reps[1]) == F(1) && F(G.reps[4]) == F(4);
    assert SameForm(F, F_U, F_V);
    assert AgreeAt(F, G, 0, F_U, 0, F_V);
  }

  /**
   Congruence makes f(u) equal to f(v), which is h(f(u)), so that class 2 becomes its own parent.  But
   it is so through one entry only, and `rebuild` is safe.
   */
  lemma OwnParentUntangled()
    ensures Fresh(LOOP_NODES) && Inv(MODEL, LOOPED, {0, 3}) && LoopedLike(LOOPED)
    ensures Ranked(i => Find(LOOPED.reps, i), LOOPED, LoopHeight)
    ensures forall F: Labels :: Congruence(F, LOOPED) ==> F(LOOPED.classes[2].parents[H_P]) == F(2)
    ensures Untangled(LOOPED)
  {
    LoopFresh();
    LoopedSound();
    LoopedShape();
    LoopedHarmless(LOOPED);
    forall F: Labels | Congruence(F, LOOPED) ensures F(LOOPED.classes[2].parents[H_P]) == F(2) { LoopedOwnParent(LOOPED, F); }
  }

  // ----- acyclic, and yet -----

  /** f(u) is 2, f(v) is 3, h(3) is 4 and h(2) is 5. */
  const TANGLE_NODES := [U, V, F_U, F_V, H_Q, H_P]

  /** h(3) was merged into f(u), and then v into u; classes 2 and 0 wait for repair, in this order. */
  const TANGLED := MergeIds(MergeIds(FreshGraph(TANGLE_NODES), 2, 4), 0, 1)

  lemma TangleFresh()
    ensures Fresh(TANGLE_NODES) && FreshGraph(TANGLE_NODES).classes.Keys == {0, 1, 2, 3, 4, 5}
  {
    var xs := TANGLE_NODES;
    assert F_U.operands == [0] && F_V.operands == [1] && H_P.operands == [2] && H_Q.operands == [3];
    assert FreshAt(xs, 0) && FreshAt(xs, 1) && FreshAt(xs, 2) && FreshAt(xs, 3) && FreshAt(xs, 4) && FreshAt(xs, 5);
  }

  function TangleParents(c: nat): map<ENode, nat> {
    if c == 0 then map[F_U := 2] else if c == 1 then map[F_V := 3] else if c == 2 then map[H_P := 5]
    else if c == 3 then map[H_Q := 4] else map[]
  }

  lemma TangleParentsAre(c: nat)
    ensures ParentsOf(TANGLE_NODES, c) == TangleParents(c)
  {
    TangleFresh();
    Operands(c);
    ParentsExactly(TANGLE_NODES, c, TangleParents(c));
  }

  /** The partition and the parent lists of TANGLED. */
  ghost predicate TangledLike(G: Graph) {
    && G.reps == [0, 0, 2, 3, 2, 5] && G.classes.Keys == {0, 2, 3, 5}
    && G.classes[0].parents == map[F_U := 2, F_V := 3] && G.classes[2].parents == map[H_P := 5]
    && G.classes[3].parents == map[H_Q := 4] && G.classes[5].parents == map[]
  }

  lemma TangledShape()
    ensures TangledLike(TANGLED)
  {
    var G := FreshGraph(TANGLE_NODES);
    TangleFresh();
    forall c | c in G.classes ensures G.classes[c].parents == TangleParents(c) { TangleParentsAre(c); }
    TangledMerges(G);
  }

  lemma TangledMerges(G: Graph)
    requires G.reps == [0, 1, 2, 3, 4, 5] && G.classes.Keys == {0, 1, 2, 3, 4, 5}
    requires forall c :: c in G.classes ==> G.classes[c].parents == TangleParents(c)
    ensures TangledLike(MergeIds(MergeIds(G, 2, 4), 0, 1))
  {
    var G1 := Merged(G, 2, 4);
    assert G1.reps == [0, 1, 2, 3, 2, 5];
    assert G1.classes[2].parents == TangleParents(2);
  }

  lemma TangledSound()
    ensures Inv(MODEL, TANGLED, {0, 2})
  {
    TangleFresh();
    FreshInv(MODEL, TANGLE_NODES);
    var G := FreshGraph(TANGLE_NODES);
    MergeIdsKeeps(MODEL, G, {}, 2, 4);
    var G1 := MergeIds(G, 2, 4);
    assert G1.reps == [0, 1, 2, 3, 2, 5];
    MergeIdsKeeps(MODEL, G1, {} + {2}, 0, 1);
    InvMono(MODEL, TANGLED, {} + {2} + {0}, {0, 2});
  }

  /** Class 0 below 3, below 2, below 5. */
  function TangleHeight(i: nat): nat {
    if i == 3 then 1 else if i == 2 then 2 else if i == 5 then 3 else 0
  }

  /** Every congruence gives class 2 the label of class 3, over which it sits, and so that of class 5. */
  lemma TangledLabels(G: Graph, F: Labels)
    requires TangledLike(G) && Congruence(F, G)
    ensures !HarmlessAt(F, G, 3, H_Q, 2, H_P)
  {
    assert F(G.reps[1]) == F(1) && F(G.reps[4]) == F(4);
    assert SameForm(F, F_U, F_V);
    assert AgreeAt(F, G, 0, F_U, 0, F_V);
    assert SameForm(F, H_Q, H_P);
  }

  lemma TangledForGood(G: Graph)
    requires TangledLike(G)
    ensures !Untangled(G)
  {
    forall F: Labels ensures !(Congruence(F, G) && Harmless(F, G)) {
      if Congruence(F, G) { TangledLabels(G, F); }
    }
  }

  lemma TangledRanks(G: Graph)
    requires TangledLike(G)
    ensures Ranked(i => Find(G.reps, i), G, TangleHeight)
  {}

  /** What `repair(2)` and the first loop of `repair(0)` do: they leave partition and parent lists alone. */
  ghost function TangledRepaired(G: Graph): Graph
    requires 2 in G.classes
  {
    Rehashed(Rehashed(Replaced(Rehashed(G, H_P, 5), 2, map[H_P := 5]), F_U, 2), F_V, 3)
  }

  /** Whichever of the congruent parents 2 and 3 of class 0 comes first, their merged class is stuck. */
  lemma TangledMerge(G: Graph)
    requires TangledLike(G)
    ensures Canon(G.reps, F_U) == Canon(G.reps, F_V) && Canon(G.reps, H_P) == H_P && TangledLike(TangledRepaired(G))
    ensures Stuck(Merged(TangledRepaired(G), 2, 3)) && Stuck(Merged(TangledRepaired(G), 3, 2))
  {
    assert Canon(G.reps, F_U).operands == Canon(G.reps, F_V).operands && Canon(G.reps, H_P).operands == [2];
    var G' := TangledRepaired(G);
    TangledStuck(G', 2, 3);
    TangledStuck(G', 3, 2);
  }

  lemma TangledStuck(G: Graph, a: nat, b: nat)
    requires TangledLike(G) && ((a == 2 && b == 3) || (a == 3 && b == 2))
    ensures Stuck(Merged(G, a, b))
  {
    var G' := Merged(G, a, b);
    assert Canon(G'.reps, H_P).operands == [a] && Canon(G'.reps, H_Q).operands == [a];
    assert H_P in G'.classes[a].parents && H_Q in G'.classes[a].parents;
    assert StuckAt(G', a, H_Q, H_P);
  }

  /**
   A graph that a run reaches and in which no class is its own ancestor, and for which `rebuild` is not
   safe: repairing class 0 merges its congruent parents 2 and 3, and then two congruent parents of the
   merged class are the class itself and class 5, so its repair would merge it while iterating over its
   parents.
   */
  lemma AcyclicNotEnough()
    ensures Fresh(TANGLE_NODES) && Inv(MODEL, TANGLED, {0, 2}) && TangledLike(TANGLED)
    ensures Ranked(i => Find(TANGLED.reps, i), TANGLED, TangleHeight)
    ensures !Untangled(TANGLED)
    ensures Canon(TANGLED.reps, F_U) == Canon(TANGLED.reps, F_V) && Canon(TANGLED.reps, H_P) == H_P
    ensures Stuck(Merged(TangledRepaired(TANGLED), 2, 3)) && Stuck(Merged(TangledRepaired(TANGLED), 3, 2))
  {
    TangleFresh();
    TangledSound();
    TangledShape();
    TangledForGood(TANGLED);
    TangledRanks(TANGLED);
    TangledMerge(TANGLED);
  }
}
