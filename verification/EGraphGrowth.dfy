/**
 What no operation of `rebuild` takes away: ids once equal stay equal, nodes stay in their classes
 unless these become constant, and entries of values that no constant has stay listed.
 */
module EGraphGrowth {
  import UF = UnionFind
  import opened EGraphModel
  import opened Options
  import opened EGraphSteps
  import opened EGraphRepair

  /** Ids once equal stay equal. */
  ghost predicate Coarser(reps: seq<nat>, reps': seq<nat>) {
    |reps'| == |reps| && forall i, j :: 0 <= i < |reps| && 0 <= j < |reps| && reps[i] == reps[j] ==> reps'[i] == reps'[j]
  }

  /** The same values are a constant class's. */
  ghost predicate SameFree(M: Model, G: Graph, G': Graph) {
    forall v: Value {:trigger Free(M, G', v)} {:trigger Free(M, G, v)} :: Free(M, G', v) <==> Free(M, G, v)
  }

  ghost predicate IsConstant(G: Graph, c: nat) {
    Find(G.reps, c) in G.classes && G.classes[Find(G.reps, c)].constIndex.Some?
  }

  ghost predicate HasNode(G: Graph, c: nat, n: ENode) {
    c in G.classes && exists k :: k in G.classes[c].nodes && Canon(G.reps, k) == Canon(G.reps, n)
  }

  /** The class of id c holds node n up to its canonical form, or holds a constant. */
  ghost predicate Holds(G: Graph, c: nat, n: ENode) {
    IsConstant(G, c) || HasNode(G, Find(G.reps, c), n)
  }

  ghost predicate NodesKept(G: Graph, G': Graph) {
    && (forall c {:trigger IsConstant(G', c)} :: c in G.classes && IsConstant(G, c) ==> IsConstant(G', c))
    && forall c, n {:trigger Holds(G', c, n)} :: c in G.classes && n in G.classes[c].nodes ==> Holds(G', c, n)
  }

  ghost predicate StaysListed(M: Model, G: Graph, G': Graph, n: ENode, q: nat) {
    InRange(G.reps, n) && Root(G.reps, q) && Free(M, G, M.val(q)) && Listed(G, Canon(G.reps, n), q) ==>
      Listed(G', Canon(G'.reps, n), Find(G'.reps, q))
  }

  ghost predicate EntriesKept(M: Model, G: Graph, G': Graph) {
    forall n, q {:trigger StaysListed(M, G, G', n, q)} :: StaysListed(M, G, G', n, q)
  }

  ghost predicate StaysHashed(G: Graph, G': Graph, n: ENode) {
    n.operands == [] && n in G.hashcons ==> n in G'.hashcons && Find(G'.reps, G'.hashcons[n]) == Find(G'.reps, G.hashcons[n])
  }

  ghost predicate LeavesKept(G: Graph, G': Graph) {
    forall n {:trigger StaysHashed(G, G', n)} :: StaysHashed(G, G', n)
  }

  ghost predicate Grown(M: Model, G: Graph, G': Graph) {
    Coarser(G.reps, G'.reps) && SameFree(M, G, G') && NodesKept(G, G') && EntriesKept(M, G, G') && LeavesKept(G, G')
  }

  // ----- one step after another -----

  lemma CoarserTrans(reps0: seq<nat>, reps1: seq<nat>, reps2: seq<nat>)
    requires Coarser(reps0, reps1) && Coarser(reps1, reps2)
    ensures Coarser(reps0, reps2)
  {}

  lemma CanonCoarser(reps: seq<nat>, reps': seq<nat>, n: ENode, k: ENode)
    requires Partition(reps) && Coarser(reps, reps') && Canon(reps, n) == Canon(reps, k)
    ensures Canon(reps', n) == Canon(reps', k)
  {
    assert |n.operands| == |Canon(reps, n).operands| == |k.operands|;
    forall i | 0 <= i < |n.operands| ensures Find(reps', n.operands[i]) == Find(reps', k.operands[i]) {
      assert Canon(reps, n).operands[i] == Canon(reps, k).operands[i];
    }
    assert Canon(reps', n).operands == Canon(reps', k).operands;
  }

  lemma FindCoarser(reps: seq<nat>, reps': seq<nat>, c: nat)
    requires Partition(reps) && Coarser(reps, reps')
    ensures Find(reps', Find(reps, c)) == Find(reps', c)
  {}

  lemma HoldsTrans(G: Graph, G': Graph, c: nat, n: ENode)
    requires Partition(G.reps) && Coarser(G.reps, G'.reps) && NodesKept(G, G') && Holds(G, c, n)
    ensures Holds(G', c, n)
  {
    var d := Find(G.reps, c);
    FindCoarser(G.reps, G'.reps, c);
    if IsConstant(G, c) {
      assert Find(G.reps, d) == d;
      assert IsConstant(G', d);
    } else {
      var k :| k in G.classes[d].nodes && Canon(G.reps, k) == Canon(G.reps, n);
      assert Holds(G', d, k);
      CanonCoarser(G.reps, G'.reps, k, n);
    }
  }

  lemma NodesTrans(G: Graph, G1: Graph, G2: Graph)
    requires Partition(G1.reps) && Coarser(G1.reps, G2.reps) && NodesKept(G, G1) && NodesKept(G1, G2)
    ensures NodesKept(G, G2)
  {
    forall c | c in G.classes && IsConstant(G, c) ensures IsConstant(G2, c) {
      var d := Find(G1.reps, c);
      assert IsConstant(G1, c);
      assert Find(G1.reps, d) == d;
      FindCoarser(G1.reps, G2.reps, c);
      assert IsConstant(G2, d);
    }
    forall c, n | c in G.classes && n in G.classes[c].nodes ensures Holds(G2, c, n) {
      assert Holds(G1, c, n);
      HoldsTrans(G1, G2, c, n);
    }
  }

  lemma ListedTrans(M: Model, G: Graph, G1: Graph, G2: Graph, n: ENode, q: nat)
    requires Shape(M, G1) && Coarser(G.reps, G1.reps) && Coarser(G1.reps, G2.reps) && SameFree(M, G, G1)
    requires StaysListed(M, G, G1, n, q) && StaysListed(M, G1, G2, n, Find(G1.reps, q))
    ensures StaysListed(M, G, G2, n, q)
  {
    FindCoarser(G1.reps, G2.reps, q);
    if q < |G1.reps| { assert M.val(G1.reps[q]) == M.val(q); }
  }

  lemma GrownTrans(M: Model, G: Graph, G1: Graph, G2: Graph)
    requires Shape(M, G1) && Grown(M, G, G1) && Grown(M, G1, G2)
    ensures Grown(M, G, G2)
  {
    CoarserTrans(G.reps, G1.reps, G2.reps);
    NodesTrans(G, G1, G2);
    forall n, q ensures StaysListed(M, G, G2, n, q) {
      assert StaysListed(M, G, G1, n, q) && StaysListed(M, G1, G2, n, Find(G1.reps, q));
      ListedTrans(M, G, G1, G2, n, q);
    }
    forall n ensures StaysHashed(G, G2, n) { LeafTrans(G, G1, G2, n); }
  }

  lemma LeafTrans(G: Graph, G1: Graph, G2: Graph, n: ENode)
    requires Partition(G1.reps) && Coarser(G1.reps, G2.reps) && LeavesKept(G, G1) && LeavesKept(G1, G2)
    ensures StaysHashed(G, G2, n)
  {
    assert StaysHashed(G, G1, n) && StaysHashed(G1, G2, n);
    if n.operands == [] && n in G.hashcons {
      FindCoarser(G1.reps, G2.reps, G.hashcons[n]);
      FindCoarser(G1.reps, G2.reps, G1.hashcons[n]);
    }
  }

  // ----- the steps -----

  lemma MergeGrown(M: Model, G: Graph, pend: set<nat>, a: nat, b: nat)
    requires Inv(M, G, pend) && CanMerge(M, G, a, b)
    ensures Grown(M, G, Merged(G, a, b))
  {
    var G' := Merged(G, a, b);
    assert Root(G.reps, a) && Root(G.reps, b);
    forall v: Value ensures Free(M, G', v) <==> Free(M, G, v) { MergeFree(M, G, a, b, v); }
    MergeNodesKept(M, G, a, b);
    forall n, q ensures StaysListed(M, G, G', n, q) {
      if InRange(G.reps, n) && Root(G.reps, q) && Free(M, G, M.val(q)) && Listed(G, Canon(G.reps, n), q) {
        MergeListed(M, G, pend, a, b, n, q);
      }
    }
  }

  lemma MergeNodesKept(M: Model, G: Graph, a: nat, b: nat)
    requires Shape(M, G) && CanMerge(M, G, a, b)
    ensures NodesKept(G, Merged(G, a, b))
  {
    var G' := Merged(G, a, b);
    assert Root(G.reps, a) && Root(G.reps, b);
    forall c, n | c in G.classes && n in G.classes[c].nodes ensures Holds(G', c, n) {
      assert Root(G.reps, c);
      assert n in G'.classes[Sub(a, b, c)].nodes;
    }
    forall c | c in G.classes && IsConstant(G, c) ensures IsConstant(G', c) { assert Root(G.reps, c); }
  }

  lemma PruneGrown(M: Model, G: Graph, pend: set<nat>, e: nat)
    requires CanPrune(M, G, pend, e)
    ensures Grown(M, G, Pruned(G, e))
  {
    var G' := Pruned(G, e);
    forall v: Value ensures Free(M, G', v) <==> Free(M, G, v) { PruneFree(M, G, pend, e, v); }
    forall c, n | c in G.classes && n in G.classes[c].nodes ensures Holds(G', c, n) {
      assert Root(G.reps, c);
      if c != e { assert n in G'.classes[c].nodes; }
    }
    forall n, q ensures StaysListed(M, G, G', n, q) {
      if InRange(G.reps, n) && Root(G.reps, q) && Free(M, G, M.val(q)) && Listed(G, Canon(G.reps, n), q) {
        PruneListed(M, G, pend, e, Canon(G.reps, n), q);
      }
    }
  }

  lemma RehashGrown(M: Model, G: Graph, pend: set<nat>, e: nat, m: ENode)
    requires Inv(M, G, pend) && e in G.classes && m in G.classes[e].parents
    ensures Grown(M, G, Rehashed(G, m, G.classes[e].parents[m]))
  {
    var G' := Rehashed(G, m, G.classes[e].parents[m]);
    assert EntryOk(M, G, pend, e, m);
    forall c, n | c in G.classes && n in G.classes[c].nodes ensures Holds(G', c, n) {
      assert Root(G.reps, c);
      assert n in G'.classes[c].nodes;
    }
    forall n, q ensures StaysListed(M, G, G', n, q) {
      if Listed(G, Canon(G.reps, n), q) { SameListed(G, G', Canon(G.reps, n), q); }
    }
  }

  lemma ReplaceGrown(M: Model, G: Graph, pend: set<nat>, e: nat, P: map<ENode, nat>, reps0: seq<nat>, news: map<ENode, nat>)
    requires Processed(M, G, pend, e, P, reps0, news)
    ensures Grown(M, G, Replaced(G, e, news))
  {
    var G' := Replaced(G, e, news);
    forall v: Value ensures Free(M, G', v) <==> Free(M, G, v) { ReplaceFree(M, G, e, news, v); }
    forall c, n | c in G.classes && n in G.classes[c].nodes ensures Holds(G', c, n) { ReplaceHolds(M, G, pend, e, news, c, n); }
    forall n, q ensures StaysListed(M, G, G', n, q) {
      if Root(G.reps, q) && Listed(G, Canon(G.reps, n), q) {
        ReplaceListed(M, G, pend, e, P, reps0, news, Canon(G.reps, n), q);
      }
    }
  }

  lemma ReplaceHolds(M: Model, G: Graph, pend: set<nat>, e: nat, news: map<ENode, nat>, c: nat, n: ENode)
    requires Inv(M, G, pend) && e in G.classes && c in G.classes && n in G.classes[c].nodes
    ensures Holds(Replaced(G, e, news), c, n)
  {
    var G' := Replaced(G, e, news);
    assert Root(G.reps, c) && NodeOk(M, G, c, n);
    if c == e {
      var i :| 0 <= i < |G.classes[e].nodes| && G.classes[e].nodes[i] == n;
      assert G'.classes[e].nodes[i] == Canon(G.reps, n);
      CanonIdem(G.reps, n);
      assert HasNode(G', c, n);
    } else {
      assert n in G'.classes[c].nodes;
    }
  }

  /** The two graphs differ in caches only. */
  ghost predicate SameButCaches(G: Graph, G': Graph) {
    && G'.reps == G.reps && G'.classes.Keys == G.classes.Keys && G'.hashcons == G.hashcons
    && forall c :: c in G.classes ==> G'.classes[c] == G.classes[c].(cache := G'.classes[c].cache)
  }

  lemma RecacheGrown(M: Model, G: Graph, G': Graph)
    requires Shape(M, G) && SameButCaches(G, G')
    ensures Grown(M, G, G')
  {
    forall v: Value ensures Free(M, G', v) <==> Free(M, G, v) {
      assert forall c :: c in G.classes ==> G'.classes[c].constIndex == G.classes[c].constIndex;
    }
    forall c, n | c in G.classes && n in G.classes[c].nodes ensures Holds(G', c, n) {
      assert Root(G.reps, c);
      assert n in G'.classes[c].nodes;
    }
    forall n, q ensures StaysListed(M, G, G', n, q) {
      if Listed(G, Canon(G.reps, n), q) { RecacheListed(G, G', Canon(G.reps, n), q); }
    }
  }

  lemma RecacheListed(G: Graph, G': Graph, y: ENode, q: nat)
    requires SameButCaches(G, G') && Listed(G, y, q)
    ensures Listed(G', y, q)
  {
    forall k | 0 <= k < |y.operands| ensures HasEntry(G', y.operands[k], y, q) {
      assert HasEntry(G, y.operands[k], y, q);
      var m :| m in G.classes[y.operands[k]].parents && IsEntry(G, y.operands[k], y, q, m);
      assert IsEntry(G', y.operands[k], y, q, m);
    }
  }

  lemma GrownSame(M: Model, G: Graph)
    requires Shape(M, G)
    ensures Grown(M, G, G)
  {
    RecacheGrown(M, G, G);
  }

  // ----- what a repair leaves alone -----

  /** Class c has the ids, nodes and constant it had, and no parent it had not. */
  ghost predicate KeptBody(G: Graph, G': Graph, c: nat) {
    && c in G.classes && c in G'.classes
    && (forall i :: 0 <= i < |G'.reps| && G'.reps[i] == c ==> i < |G.reps| && G.reps[i] == c)
    && G'.classes[c].nodes == G.classes[c].nodes && G'.classes[c].constIndex == G.classes[c].constIndex
    && (forall m :: m in G'.classes[c].parents ==>
          m in G.classes[c].parents && G'.classes[c].parents[m] == G.classes[c].parents[m])
  }

  ghost predicate KeptAt(G: Graph, G': Graph, c: nat) {
    KeptBody(G, G', c) && G'.classes[c].cache == G.classes[c].cache
  }

  /** Only classes in T have changed. */
  ghost predicate Local(G: Graph, G': Graph, T: set<nat>) {
    forall c {:trigger KeptAt(G, G', c)} :: c in G'.classes && c !in T ==> KeptAt(G, G', c)
  }

  ghost predicate Cleared(G: Graph, d: nat) {
    d in G.classes && G.classes[d].cache == NO_CACHE
  }

  /** Class c has no cache, and neither has any parent. */
  ghost predicate ClearedUp(G: Graph, c: nat) {
    Cleared(G, c) && forall m :: m in G.classes[c].parents ==> Cleared(G, Find(G.reps, G.classes[c].parents[m]))
  }

  /** Classes not in T have not changed, except that caches are dropped, and then those of all parents with them. */
  ghost predicate LocalButCleared(G: Graph, G': Graph, T: set<nat>) {
    forall c {:trigger KeptBody(G, G', c)} :: c in G'.classes && c !in T ==>
      KeptBody(G, G', c) && (G'.classes[c].cache == G.classes[c].cache || ClearedUp(G', c))
  }

  lemma LocalThenCleared(G: Graph, G1: Graph, G2: Graph, T: set<nat>)
    requires Local(G, G1, T) && LocalButCleared(G1, G2, {}) && G2.classes.Keys == G1.classes.Keys
    ensures LocalButCleared(G, G2, T)
  {
    forall c | c in G2.classes && c !in T ensures
      KeptBody(G, G2, c) && (G2.classes[c].cache == G.classes[c].cache || ClearedUp(G2, c))
    {
      assert KeptBody(G1, G2, c);
      assert KeptAt(G, G1, c);
    }
  }

  lemma LocalSame(G: Graph, T: set<nat>)
    ensures Local(G, G, T)
  {}

  lemma LocalTrans(G: Graph, G1: Graph, G2: Graph, T1: set<nat>, T2: set<nat>, T: set<nat>)
    requires Local(G, G1, T1) && Local(G1, G2, T2) && T1 <= T && T2 <= T
    ensures Local(G, G2, T)
  {
    forall c | c in G2.classes && c !in T ensures KeptAt(G, G2, c) {
      assert KeptAt(G1, G2, c);
      assert KeptAt(G, G1, c);
    }
  }

  lemma MergeLocal(M: Model, G: Graph, a: nat, b: nat)
    requires Shape(M, G) && CanMerge(M, G, a, b)
    ensures Local(G, Merged(G, a, b), {a})
  {
    var G' := Merged(G, a, b);
    forall c | c in G'.classes && c !in {a} ensures KeptAt(G, G', c) {}
  }

  lemma PruneLocal(G: Graph, e: nat)
    requires e in G.classes && G.classes[e].constIndex.Some? && G.classes[e].constIndex.value < |G.classes[e].nodes|
    ensures Local(G, Pruned(G, e), {e})
  {
    var G' := Pruned(G, e);
    forall c | c in G'.classes && c !in {e} ensures KeptAt(G, G', c) {}
  }

  lemma ReplaceLocal(G: Graph, e: nat, news: map<ENode, nat>)
    requires e in G.classes
    ensures Local(G, Replaced(G, e, news), {e})
  {
    var G' := Replaced(G, e, news);
    forall c | c in G'.classes && c !in {e} ensures KeptAt(G, G', c) {}
  }

  lemma RehashLocal(G: Graph, G': Graph, T: set<nat>)
    requires G'.reps == G.reps && G'.classes == G.classes
    ensures Local(G, G', T)
  {
    forall c | c in G'.classes && c !in T ensures KeptAt(G, G', c) {}
  }
}
