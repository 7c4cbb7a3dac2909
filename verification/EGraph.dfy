/**
 The e-graph (src/IR/EGraph.cpp): hash-consed classes over a union-find, with deferred `rebuild`.

 Every method takes a ghost model M.  `Valid(M)` says that all the graph stores agrees with M and
 that what still has to be repaired is on the worklist; the theorems hold for every such model, so
 in particular for the most distinguishing one.
 */
module EGraph {
  import UF = UnionFind
  import opened EGraphModel
  import opened Options
  import opened EGraphSteps
  import opened EGraphRepair
  import opened EGraphTangles
  import opened EGraphGrowth
  import opened EGraphClosure

  ghost function Reps(reps: seq<nat>, ids: seq<nat>): set<nat> {
    set k | 0 <= k < |ids| :: Find(reps, ids[k])
  }

  predicate AllIds(reps: seq<nat>, ids: seq<nat>) {
    forall k :: 0 <= k < |ids| ==> ids[k] < |reps|
  }

  lemma JoinCoarser(reps0: seq<nat>, reps: seq<nat>, a: nat, b: nat)
    requires Coarser(reps0, reps)
    ensures Coarser(reps0, UF.Joined(reps, a, b))
  {}

  /** What waited before and is still a root waits after. */
  lemma StillWaiting(reps: seq<nat>, reps': seq<nat>, ids: seq<nat>, o: nat)
    requires Partition(reps) && Coarser(reps, reps') && AllIds(reps, ids) && Root(reps', o) && o in Reps(reps, ids)
    ensures o in Reps(reps', ids)
  {
    var k :| 0 <= k < |ids| && o == Find(reps, ids[k]);
    assert reps[ids[k]] == reps[o];
    assert Find(reps', ids[k]) == o;
  }

  /** The graph with another cache in class c. */
  function Recached(G: Graph, c: nat, cache: Cache): Graph
    requires c in G.classes
  {
    G.(classes := G.classes[c := G.classes[c].(cache := cache)])
  }

  /** A cached expression may be anything of the class's value. */
  lemma RecachedKeeps(M: Model, G: Graph, pend: set<nat>, c: nat, cache: Cache)
    requires Inv(M, G, pend) && c in G.classes && (cache.expr.Some? ==> EvalTerm(M.op, cache.expr.value) == M.val(c))
    ensures Inv(M, Recached(G, c, cache), pend)
    ensures Keyed(M, G) ==> Keyed(M, Recached(G, c, cache))
  {
    var G' := Recached(G, c, cache);
    RecachedFree(M, G, c, cache);
    forall d, n | d in G'.classes && n in G'.classes[d].nodes ensures NodeOk(M, G', d, n) {
      assert NodeOk(M, G, d, n);
      if Free(M, G, M.val(d)) { RecachedListed(G, c, cache, Canon(G.reps, n), d); }
    }
    forall b, m | b in G'.classes && m in G'.classes[b].parents
      ensures EntryOk(M, G', pend, b, m) && (KeyOk(M, G, b, m) ==> KeyOk(M, G', b, m))
    { RecachedEntryOk(M, G, pend, c, cache, b, m); }
    forall d | d in G'.classes ensures ClassOk(M, d, G'.classes[d]) { assert ClassOk(M, d, G.classes[d]); }
    forall n | n in G'.hashcons ensures HashOk(M, G', n) {
      assert HashOk(M, G, n);
      if Free(M, G, M.val(G.hashcons[n])) { RecachedListed(G, c, cache, Canon(G.reps, n), G.reps[G.hashcons[n]]); }
    }
  }

  lemma RecachedFree(M: Model, G: Graph, c: nat, cache: Cache)
    requires c in G.classes
    ensures forall v: Value :: Free(M, Recached(G, c, cache), v) == Free(M, G, v)
  {
    var G' := Recached(G, c, cache);
    forall v: Value ensures Free(M, G', v) == Free(M, G, v) {
      assert forall d :: d in G.classes ==> G'.classes[d].constIndex == G.classes[d].constIndex;
    }
  }

  lemma RecachedEntryOk(M: Model, G: Graph, pend: set<nat>, c: nat, cache: Cache, b: nat, m: ENode)
    requires Inv(M, G, pend) && c in G.classes && b in G.classes && m in G.classes[b].parents
    ensures EntryOk(M, Recached(G, c, cache), pend, b, m)
    ensures KeyOk(M, G, b, m) ==> KeyOk(M, Recached(G, c, cache), b, m)
  {
    var p := G.classes[b].parents[m];
    assert EntryOk(M, G, pend, b, m);
    RecachedFree(M, G, c, cache);
    if Free(M, G, M.val(p)) { RecachedListed(G, c, cache, Canon(G.reps, m), G.reps[p]); }
  }

  lemma RecachedListed(G: Graph, c: nat, cache: Cache, y: ENode, q: nat)
    requires c in G.classes && Listed(G, y, q)
    ensures Listed(Recached(G, c, cache), y, q)
  {
    forall k | 0 <= k < |y.operands| ensures HasEntry(Recached(G, c, cache), y.operands[k], y, q) {
      assert HasEntry(G, y.operands[k], y, q);
      var m :| m in G.classes[y.operands[k]].parents && IsEntry(G, y.operands[k], y, q, m);
      assert IsEntry(Recached(G, c, cache), y.operands[k], y, q, m);
    }
  }

  class EGraph {
    const unionFind: UF.UnionFind
    var classes: map<nat, EClass>
    var hashcons: map<ENode, nat>
    var worklist: seq<nat>

    ghost function Abs(): Graph
      reads this, unionFind
    {
      Graph(unionFind.reps, classes, hashcons)
    }

    ghost predicate Valid(M: Model)
      reads this, unionFind
    {
      && unionFind.Valid() && AllIds(unionFind.reps, worklist)
      && Inv(M, Abs(), Reps(unionFind.reps, worklist)) && Keyed(M, Abs())
    }

    constructor (ghost M: Model)
      ensures Valid(M) && Abs() == Graph([], map[], map[]) && fresh(unionFind)
    {
      unionFind := new UF.UnionFind();
      classes, hashcons, worklist := map[], map[], [];
    }

    /** The non-const `find`. */
    method FindId(id: nat) returns (root: nat)
      requires unionFind.Valid() && id < |unionFind.reps|
      modifies unionFind
      ensures unionFind.Valid() && unionFind.reps == old(unionFind.reps) && root == unionFind.reps[id]
    {
      root := unionFind.Update(id);
    }

    method Canonicalize(node: ENode) returns (canonical: ENode)
      requires unionFind.Valid() && InRange(unionFind.reps, node)
      modifies unionFind
      ensures unionFind.Valid() && unionFind.reps == old(unionFind.reps) && canonical == Canon(unionFind.reps, node)
    {
      var operands: seq<nat> := [];
      for i := 0 to |node.operands|
        invariant unionFind.Valid() && unionFind.reps == old(unionFind.reps)
        invariant operands == Canon(unionFind.reps, node).operands[..i]
      {
        var root := unionFind.Update(node.operands[i]);
        operands := operands + [root];
      }
      canonical := ENode(node.data, operands);
    }

    /** Merge two classes of equal value: b joins a, and a waits for repair. */
    method Merge(id1: nat, id2: nat, ghost M: Model, ghost pend: set<nat>) returns (root: nat)
      requires unionFind.Valid() && id1 < |unionFind.reps| && id2 < |unionFind.reps|
      requires Inv(M, Abs(), pend) && M.val(id1) == M.val(id2)
      modifies this, unionFind
      ensures unionFind.Valid() && root == old(unionFind.reps[id1])
      ensures var a, b := old(unionFind.reps[id1]), old(unionFind.reps[id2]);
        if a == b then Abs() == old(Abs()) && worklist == old(worklist)
        else CanMerge(M, old(Abs()), a, b) && Abs() == Merged(old(Abs()), a, b) && worklist == old(worklist) + [a]
      ensures Inv(M, Abs(), pend + {root})
      ensures unionFind.reps[id1] == unionFind.reps[id2] && Coarser(old(unionFind.reps), unionFind.reps)
      ensures old(Valid(M)) ==> Valid(M)
    {
      var a := unionFind.Update(id1);
      var b := unionFind.Update(id2);
      assert Abs() == old(Abs());
      if a == b {
        InvMono(M, Abs(), pend, pend + {a});
        return a;
      }
      assert Root(unionFind.reps, a) && Root(unionFind.reps, b);
      assert M.val(a) == M.val(b);
      MergeKeeps(M, Abs(), pend, a, b);
      MergeTypes(M, Abs(), pend, a, b);
      JoinCoarser(unionFind.reps, unionFind.reps, a, b);
      if old(Valid(M)) { MergedWaits(M, Abs(), worklist, a, b); }
      root := unionFind.DoUnion(a, b);
      classes := (classes - {b})[root := MergeClass(classes[root], classes[b])];
      worklist := worklist + [root];
    }

    /** Add a node; an existing congruent node is found through the hash table. */
    method Add(node: ENode, ghost M: Model) returns (id: nat, ghost M': Model)
      requires Valid(M) && InRange(unionFind.reps, node) && (IsConst(node.data) ==> node.operands == [])
      modifies this, unionFind
      ensures Valid(M') && id < |unionFind.reps| && M'.val(id) == Denote(M', node)
      ensures M'.op == M.op && forall i :: 0 <= i < old(|unionFind.reps|) ==> M'.val(i) == M.val(i)
      ensures var x := Canon(old(unionFind.reps), node);
        if x in old(hashcons) then Abs() == old(Abs()) && id == old(hashcons)[x] && M' == M
        else Abs() == Added(old(Abs()), x) && id == old(|unionFind.reps|)
    {
      var canonical := Canonicalize(node);
      ghost var G0, reps0, work0 := Abs(), unionFind.reps, worklist;
      CanonIdem(reps0, node);
      DenoteCanon(M, reps0, node);
      if canonical in hashcons {
        assert HashOk(M, Abs(), canonical);
        return hashcons[canonical], M;
      }
      assert forall i :: 0 <= i < |canonical.operands| ==> Root(reps0, canonical.operands[i]);
      M' := Extended(M, |reps0|, Denote(M, canonical));
      AddKeeps(M, Abs(), Reps(reps0, work0), canonical);
      ExtendedDenotes(M, reps0, Denote(M, canonical), node);

      id := CreateClass(canonical);
      AddParents(canonical, id);
      AddedWaits(M', Abs(), reps0, work0);
    }

    /** `classes.at(child).parents.emplace(canonical, id)` for every operand. */
    method AddParents(canonical: ENode, id: nat)
      requires forall i :: 0 <= i < |canonical.operands| ==> canonical.operands[i] in classes
      modifies this`classes
      ensures classes == WithParents(old(classes), canonical.operands, canonical, id)
    {
      for i := 0 to |canonical.operands|
        invariant classes == WithParents(old(classes), canonical.operands[..i], canonical, id)
      {
        var child := canonical.operands[i];
        WithParentsStep(old(classes), canonical.operands, i, canonical, id);
        classes := classes[child := WithParent(classes[child], canonical, id)];
      }
      assert canonical.operands[..|canonical.operands|] == canonical.operands;
    }

    method CreateClass(node: ENode) returns (id: nat)
      requires unionFind.Valid()
      modifies this, unionFind
      ensures unionFind.Valid() && id == old(|unionFind.reps|) && unionFind.reps == old(unionFind.reps) + [id]
      ensures classes == old(classes)[id := NewClass(node)] && hashcons == old(hashcons)[node := id]
      ensures worklist == old(worklist) + [id]
    {
      id := unionFind.MakeSet();
      classes := classes[id := NewClass(node)];
      hashcons := hashcons[node := id];
      worklist := worklist + [id];
    }

    /** Erase `node` from the parent lists of its operands. */
    method EraseParent(node: ENode)
      requires unionFind.Valid() && InRange(unionFind.reps, node)
      requires forall i :: i in classes <==> Root(unionFind.reps, i)
      modifies this`classes, unionFind
      ensures unionFind.Valid() && unionFind.reps == old(unionFind.reps)
      ensures classes == ErasedFrom(old(classes), node, Canon(unionFind.reps, node).operands)
    {
      ghost var ops := Canon(unionFind.reps, node).operands;
      for j := 0 to |node.operands|
        invariant unionFind.Valid() && unionFind.reps == old(unionFind.reps)
        invariant classes == ErasedFrom(old(classes), node, ops[..j])
      {
        var c := unionFind.Update(node.operands[j]);
        assert c == ops[j] && Root(unionFind.reps, c);
        ErasedStep(old(classes), node, ops, j);
        classes := classes[c := classes[c].(parents := classes[c].parents - {node})];
      }
      assert ops[..|ops|] == ops;
    }

    /** `unparent`: a class that holds a constant drops everything else. */
    method Unparent(e: nat, ghost M: Model, ghost pend: set<nat>)
      requires unionFind.Valid() && CanPrune(M, Abs(), pend, e)
      modifies this`classes, unionFind
      ensures unionFind.Valid() && unionFind.reps == old(unionFind.reps)
      ensures Abs() == if |old(classes)[e].nodes| == 1 then old(Abs()) else Pruned(old(Abs()), e)
    {
      ghost var G := Abs();
      var nodes := classes[e].nodes;
      var constIndex := classes[e].constIndex.value;
      if |nodes| == 1 { return; }
      WithoutNone(G);
      for i := 0 to |nodes|
        invariant unionFind.Valid() && unionFind.reps == old(unionFind.reps)
        invariant classes == WithoutNodes(G, nodes[..i])
      {
        assert NodeOk(M, G, e, nodes[i]);
        assert forall c :: c in classes <==> c in G.classes;
        EraseParent(nodes[i]);
        WithoutStep(G, nodes, i);
      }
      WithoutAll(G, e);
      classes := classes[e := classes[e].(nodes := [nodes[constIndex]], constIndex := Some(0))];
    }

    /** The first loop of `repair`: every parent of e is hashed under its canonical form. */
    method RehashParents(e: nat, ghost M: Model, ghost pend: set<nat>)
      requires unionFind.Valid() && e in classes && Holding(M, Abs(), pend, e, classes[e].parents)
      modifies this`hashcons, unionFind
      ensures unionFind.Valid() && unionFind.reps == old(unionFind.reps)
      ensures Holding(M, Abs(), pend, e, classes[e].parents)
      ensures AllTracked(Abs(), pend, e, classes[e].parents, unionFind.reps)
      ensures Grown(M, old(Abs()), Abs())
    {
      var parents := classes[e].parents;
      ghost var reps, G0 := unionFind.reps, Abs();
      GrownSame(M, G0);
      HoldingInRange(M, Abs(), pend, e, parents);
      var keys := parents.Keys;
      while keys != {}
        invariant keys <= parents.Keys && unionFind.Valid() && unionFind.reps == reps
        invariant Holding(M, Abs(), pend, e, parents)
        invariant AllLead(Abs(), parents, parents.Keys - keys) && Grown(M, G0, Abs())
        decreases |keys|
      {
        var m :| m in keys;
        ghost var G := Abs();
        var canonical := Canonicalize(m);
        var root := unionFind.Update(parents[m]);
        assert Abs() == G;
        RehashStep(M, G, pend, e, parents, parents.Keys - keys, m);
        assert parents.Keys - (keys - {m}) == (parents.Keys - keys) + {m};
        hashcons := (hashcons - {m})[canonical := root];
        assert Abs() == Rehashed(G, m, parents[m]);
        RehashGrown(M, G, pend, e, m);
        GrownTrans(M, G0, G, Abs());
        keys := keys - {m};
      }
      assert parents.Keys - keys == parents.Keys;
      RehashedTracked(M, Abs(), pend, e, parents);
    }

    /** One iteration of the second loop of `repair`: parent m is recorded, or merged with the congruent one recorded before. */
    method RepairParent(e: nat, m: ENode, news: map<ENode, nat>, ghost M: Model, ghost S: Model, ghost pend: set<nat>,
                        ghost P: map<ENode, nat>, ghost reps0: seq<nat>, ghost seen: set<ENode>)
      returns (news': map<ENode, nat>, ghost extra: seq<nat>)
      requires unionFind.Valid() && Repairing(M, S, Abs(), pend, e, P, reps0, seen, news) && m in P
      modifies this, unionFind
      ensures unionFind.Valid() && Repairing(M, S, Abs(), pend + SetOf(extra), e, P, reps0, seen + {m}, news')
      ensures Grown(M, old(Abs()), Abs()) && Local(old(Abs()), Abs(), SetOf(extra))
      ensures worklist == old(worklist) + extra && |classes| + |extra| == |old(classes)| && AllIds(unionFind.reps, extra)
    {
      HoldingInRange(M, Abs(), pend, e, P);
      var canonical := Canonicalize(m);
      CanonIdem(unionFind.reps, m);
      var p := classes[e].parents[m];
      extra := [];
      assert pend + SetOf([]) == pend;
      var root;
      if canonical in news {
        root, extra := MergeCongruent(e, m, p, news[canonical], canonical, M, S, pend, P, reps0, seen, news);
      } else {
        root := unionFind.Update(p);
        GrownSame(M, Abs());
        LocalSame(Abs(), {});
      }
      RecordMap(unionFind.reps, pend + SetOf(extra), e, P, seen, news, m, canonical, root);
      news' := news[canonical := root];
    }

    /** `merge(p_eclass, it->second)` for two congruent parents. */
    method MergeCongruent(e: nat, ghost m: ENode, p: nat, q: nat, ghost x: ENode, ghost M: Model, ghost S: Model, ghost pend: set<nat>,
                          ghost P: map<ENode, nat>, ghost reps0: seq<nat>, ghost seen: set<ENode>, ghost news: map<ENode, nat>)
      returns (root: nat, ghost extra: seq<nat>)
      requires unionFind.Valid() && Repairing(M, S, Abs(), pend, e, P, reps0, seen, news) && AllInRange(unionFind.reps, P)
      requires m in P && p == P[m] && x in news && q == news[x] && x == Canon(unionFind.reps, m)
      modifies this, unionFind
      ensures unionFind.Valid() && Repairing(M, S, Abs(), pend + SetOf(extra), e, P, reps0, seen, news) && Grown(M, old(Abs()), Abs())
      ensures Local(old(Abs()), Abs(), SetOf(extra))
      ensures root < |unionFind.reps| && InRange(unionFind.reps, x) && Stable(unionFind.reps, x, pend + SetOf(extra), e)
      ensures SameEntry(unionFind.reps, x, root, m, p) && Find(unionFind.reps, q) == Find(unionFind.reps, root)
      ensures worklist == old(worklist) + extra && |classes| + |extra| == |old(classes)| && AllIds(unionFind.reps, extra)
    {
      ParentsMerge(M, S, Abs(), pend, e, P, reps0, seen, news, m);
      ghost var a, b := unionFind.reps[p], unionFind.reps[q];
      extra := if a == b then [] else [a];
      GrownSame(M, Abs());
      LocalSame(Abs(), SetOf(extra));
      assert a != b ==> SetOf(extra) == {a};
      assert pend + SetOf(extra) == if a == b then pend else pend + {a};
      root := Merge(p, q, M, pend);
    }

    /** `repair`: class e gets a clean parent list, congruent parents are merged, and e no longer waits. */
    method Repair(e: nat, ghost M: Model, ghost S: Model, ghost pend: set<nat>) returns (ghost added: seq<nat>)
      requires unionFind.Valid() && Inv(M, Abs(), pend) && Settled(S, Abs()) && e in pend && e in classes
      modifies this, unionFind
      ensures unionFind.Valid() && Inv(M, Abs(), (pend + SetOf(added)) - {e}) && Settled(S, Abs()) && e in classes
      ensures worklist == old(worklist) + added && |classes| + |added| == |old(classes)| && AllIds(unionFind.reps, added)
      ensures Grown(M, old(Abs()), Abs()) && Local(old(Abs()), Abs(), SetOf([e] + added))
    {
      PruneAndRehash(e, M, S, pend);
      var news;
      ghost var pend';
      ghost var G1 := Abs();
      news, added, pend' := MergeParents(e, M, S, pend);
      ghost var G2 := Abs();
      FinishRepair(e, news, M, S, pend', old(unionFind.reps));
      GrownTrans(M, G1, G2, Abs());
      GrownTrans(M, old(Abs()), G1, Abs());
      LocalTrans(G1, G2, Abs(), SetOf(added), {e}, SetOf([e] + added));
      LocalTrans(old(Abs()), G1, Abs(), {e}, SetOf([e] + added), SetOf([e] + added));
    }

    /** The beginning of `repair`, before any merge. */
    method PruneAndRehash(e: nat, ghost M: Model, ghost S: Model, ghost pend: set<nat>)
      requires unionFind.Valid() && Inv(M, Abs(), pend) && Settled(S, Abs()) && e in pend && e in classes
      modifies this`classes, this`hashcons, unionFind
      ensures unionFind.Valid() && unionFind.reps == old(unionFind.reps) && Settled(S, Abs()) && Grown(M, old(Abs()), Abs())
      ensures e in classes && Holding(M, Abs(), pend, e, classes[e].parents) && |classes| == |old(classes)|
      ensures AllTracked(Abs(), pend, e, classes[e].parents, unionFind.reps) && Local(old(Abs()), Abs(), {e})
    {
      PruneIfConstant(e, M, S, pend);
      ghost var G := Abs();
      RehashParents(e, M, pend);
      SettledSame(S, G, Abs());
      GrownTrans(M, old(Abs()), G, Abs());
      RehashLocal(G, Abs(), {e});
      LocalTrans(old(Abs()), G, Abs(), {e}, {e}, {e});
    }

    /** The end of `repair`: the new parent list and nodes are installed. */
    method FinishRepair(e: nat, news: map<ENode, nat>, ghost M: Model, ghost S: Model, ghost pend: set<nat>, ghost reps0: seq<nat>)
      requires unionFind.Valid() && e in classes && Processed(M, Abs(), pend, e, classes[e].parents, reps0, news) && Settled(S, Abs())
      modifies this`classes, unionFind
      ensures unionFind.Valid() && unionFind.reps == old(unionFind.reps) && classes.Keys == old(classes).Keys
      ensures Inv(M, Abs(), pend - {e}) && Settled(S, Abs()) && Grown(M, old(Abs()), Abs()) && Local(old(Abs()), Abs(), {e})
    {
      ghost var G := Abs();
      ReplaceGrown(M, G, pend, e, classes[e].parents, reps0, news);
      ReplaceLocal(G, e, news);
      RepairDone(M, G, pend, e, classes[e].parents, reps0, news);
      HoldingInRange(M, G, pend, e, classes[e].parents);
      ReplaceKeepsSettled(S, G, pend, e, news);
      NodesInRange(M, G, pend, e);
      ReplaceNodes(e, news);
      assert classes.Keys == G.classes.Keys;
    }

    /** `if (eclass.is_constant()) unparent(eclass_id)`. */
    method PruneIfConstant(e: nat, ghost M: Model, ghost S: Model, ghost pend: set<nat>)
      requires unionFind.Valid() && Inv(M, Abs(), pend) && Settled(S, Abs()) && e in pend && e in classes
      modifies this`classes, unionFind
      ensures unionFind.Valid() && unionFind.reps == old(unionFind.reps) && Settled(S, Abs())
      ensures e in classes && Holding(M, Abs(), pend, e, classes[e].parents) && |classes| == |old(classes)|
      ensures Grown(M, old(Abs()), Abs()) && Local(old(Abs()), Abs(), {e})
    {
      GrownSame(M, Abs());
      LocalSame(Abs(), {e});
      if classes[e].constIndex.Some? {
        ghost var G := Abs();
        assert ClassOk(M, e, G.classes[e]);
        PruneKeeps(M, G, pend, e);
        PruneKeepsSettled(S, G, e);
        PruneGrown(M, G, pend, e);
        PruneLocal(G, e);
        Unparent(e, M, pend);
        assert classes.Keys == G.classes.Keys;
      }
    }

    /** `eclass.parents = new_parents` and the canonicalization of the class's nodes. */
    method ReplaceNodes(e: nat, news: map<ENode, nat>)
      requires unionFind.Valid() && e in classes
      requires forall i :: 0 <= i < |classes[e].nodes| ==> InRange(unionFind.reps, classes[e].nodes[i])
      modifies this`classes, unionFind
      ensures unionFind.Valid() && unionFind.reps == old(unionFind.reps)
      ensures Abs() == Replaced(old(Abs()), e, news)
    {
      var nodes := classes[e].nodes;
      var canonical: seq<ENode> := [];
      for i := 0 to |nodes|
        invariant unionFind.Valid() && unionFind.reps == old(unionFind.reps)
        invariant classes == old(classes) && canonical == CanonAll(unionFind.reps, nodes)[..i]
      {
        var c := Canonicalize(nodes[i]);
        canonical := canonical + [c];
      }
      assert canonical == CanonAll(unionFind.reps, nodes);
      classes := classes[e := classes[e].(parents := news, nodes := canonical)];
    }

    /** The second loop of `repair`. */
    method MergeParents(e: nat, ghost M: Model, ghost S: Model, ghost pend: set<nat>)
      returns (news: map<ENode, nat>, ghost added: seq<nat>, ghost pend': set<nat>)
      requires unionFind.Valid() && e in classes && Holding(M, Abs(), pend, e, classes[e].parents)
      requires AllTracked(Abs(), pend, e, classes[e].parents, unionFind.reps) && Settled(S, Abs())
      modifies this, unionFind
      ensures unionFind.Valid() && e in classes && classes[e].parents == old(classes)[e].parents && Settled(S, Abs())
      ensures Processed(M, Abs(), pend', e, classes[e].parents, old(unionFind.reps), news)
      ensures pend' == pend + SetOf(added) && worklist == old(worklist) + added && |classes| + |added| == |old(classes)|
      ensures Grown(M, old(Abs()), Abs()) && Local(old(Abs()), Abs(), SetOf(added)) && AllIds(unionFind.reps, added)
    {
      ghost var P, G0 := classes[e].parents, Abs();
      GrownSame(M, G0);
      assert pend + SetOf([]) == pend;
      news, added, pend' := MergeLoop(e, M, S, pend, P, G0);
    }

    method MergeLoop(e: nat, ghost M: Model, ghost S: Model, ghost pend: set<nat>, ghost P: map<ENode, nat>, ghost G0: Graph)
      returns (news: map<ENode, nat>, ghost added: seq<nat>, ghost pend': set<nat>)
      requires unionFind.Valid() && G0 == Abs() && e in classes && classes[e].parents == P
      requires Repairing(M, S, G0, pend, e, P, G0.reps, {}, map[]) && Grown(M, G0, G0)
      modifies this, unionFind
      ensures unionFind.Valid() && Repairing(M, S, Abs(), pend', e, P, G0.reps, P.Keys, news)
      ensures Grown(M, G0, Abs()) && Local(G0, Abs(), SetOf(added))
      ensures pend' == pend + SetOf(added) && worklist == old(worklist) + added && |classes| + |added| == |old(classes)|
      ensures AllIds(G0.reps, added)
    {
      var keys := classes[e].parents.Keys;
      news, added := map[], [];
      pend' := pend + SetOf(added);
      LocalSame(G0, SetOf(added));
      assert pend' == pend && P.Keys - keys == {};
      while keys != {}
        invariant keys <= P.Keys && unionFind.Valid()
        invariant Repairing(M, S, Abs(), pend', e, P, G0.reps, P.Keys - keys, news)
        invariant pend' == pend + SetOf(added) && worklist == old(worklist) + added && |classes| + |added| == |old(classes)|
        invariant Grown(M, G0, Abs()) && Local(G0, Abs(), SetOf(added)) && AllIds(G0.reps, added)
        decreases |keys|
      {
        var m :| m in keys;
        news, added, pend' := RepairOne(e, m, news, added, M, S, pend, pend', P, G0, P.Keys - keys, old(worklist), |old(classes)|);
        assert P.Keys - (keys - {m}) == (P.Keys - keys) + {m};
        keys := keys - {m};
      }
      assert P.Keys - keys == P.Keys;
    }

    /** One iteration, with the bookkeeping of what it added to the worklist. */
    method RepairOne(e: nat, m: ENode, news: map<ENode, nat>, ghost added: seq<nat>, ghost M: Model, ghost S: Model, ghost pend: set<nat>,
                     ghost pend1: set<nat>, ghost P: map<ENode, nat>, ghost G0: Graph, ghost seen: set<ENode>,
                     ghost work: seq<nat>, ghost total: nat)
      returns (news': map<ENode, nat>, ghost added': seq<nat>, ghost pend': set<nat>)
      requires unionFind.Valid() && Repairing(M, S, Abs(), pend1, e, P, G0.reps, seen, news) && m in P
      requires pend1 == pend + SetOf(added) && Grown(M, G0, Abs()) && Local(G0, Abs(), SetOf(added)) && AllIds(G0.reps, added)
      requires worklist == work + added && |classes| + |added| == total
      modifies this, unionFind
      ensures unionFind.Valid() && Repairing(M, S, Abs(), pend', e, P, G0.reps, seen + {m}, news')
      ensures pend' == pend + SetOf(added') && worklist == work + added' && |classes| + |added'| == total
      ensures Grown(M, G0, Abs()) && Local(G0, Abs(), SetOf(added')) && AllIds(G0.reps, added')
    {
      ghost var extra;
      news', extra := RepairParent(e, m, news, M, S, pend1, P, G0.reps, seen);
      GrownTrans(M, G0, old(Abs()), Abs());
      LocalTrans(G0, old(Abs()), Abs(), SetOf(added), SetOf(extra), SetOf(added + extra));
      SetOfCat(pend, added, extra);
      added', pend' := added + extra, pend1 + SetOf(extra);
    }

    /**
     `rebuild`: repair until nothing waits.  It terminates because every merge removes a class and
     adds one entry to the worklist.  It keeps the graph sound in every model it was sound in, and
     asks of the graph only that it is untangled.

     It computes congruence closure.  Whatever it merges is forced by congruence; nodes stay in their
     classes unless these hold a constant; every node held or hashed before is found in the hash table
     afterwards, unless its value was a constant's; and without constants the partition is exactly the
     finest congruence of the graph before.

     It drops what has gone stale: `ids` are the ids that were ever on the worklist, the given ones
     first.  Every class above one of theirs, by any number of parent steps, has no cache left.
     Classes that are not theirs have kept their nodes, and their caches unless these were dropped
     together with those of all their parents.
     */
    method Rebuild(ghost M: Model) returns (ghost ids: seq<nat>)
      requires Valid(M) && Untangled(Abs())
      modifies this, unionFind
      ensures Valid(M) && Untangled(Abs()) && worklist == [] && Inv(M, Abs(), {})
      ensures Coarser(old(unionFind.reps), unionFind.reps) && NodesKept(old(Abs()), Abs())
      ensures forall v :: Free(M, Abs(), v) <==> old(Free(M, Abs(), v))
      ensures OnlyForced(old(Abs()), unionFind.reps) && Closed(M, old(Abs()), unionFind.reps)
      ensures FindsAll(M, old(Abs()), Abs()) && FindsAll(M, Abs(), Abs())
      ensures NoConstants(old(Abs())) ==> forall i, j :: 0 <= i < |unionFind.reps| && 0 <= j < |unionFind.reps| ==>
        (unionFind.reps[i] == unionFind.reps[j] <==> Finest(old(Abs()))(i) == Finest(old(Abs()))(j))
      ensures old(worklist) <= ids && AllIds(unionFind.reps, ids) && ClearedAbove(Abs(), ids)
      ensures LocalButCleared(old(Abs()), Abs(), Reps(unionFind.reps, ids))
    {
      ghost var G0, pend := Abs(), Reps(unionFind.reps, worklist);
      ghost var S;
      S, ids := RepairAndClear(M);
      RebuiltClosed(M, G0, Abs(), pend);
      RebuiltFindsAll(M, G0, Abs(), pend);
      GrownSame(M, Abs());
      RebuiltFindsAll(M, Abs(), Abs(), {});
      SettledForces(S, G0, Abs());
      if NoConstants(G0) { ClosureExactly(M, G0, unionFind.reps); }
    }

    /** The two loops of `rebuild`. */
    method RepairAndClear(ghost M: Model) returns (ghost S: Model, ghost ids: seq<nat>)
      requires Valid(M) && Untangled(Abs())
      modifies this, unionFind
      ensures Valid(M) && Settled(S, Abs()) && Untangled(Abs()) && worklist == [] && Inv(M, Abs(), {}) && Grown(M, old(Abs()), Abs())
      ensures forall i: nat, j: nat :: S.val(i) == S.val(j) ==> Forced(old(Abs()), i, j)
      ensures old(worklist) <= ids && AllIds(unionFind.reps, ids)
      ensures LocalButCleared(old(Abs()), Abs(), Reps(unionFind.reps, ids)) && ClearedAbove(Abs(), ids)
    {
      S := UntangledSettles(M, Abs(), Reps(unionFind.reps, worklist));
      var stack;
      stack, ids := RepairRounds(M, S);
      ghost var G := Abs();
      ClearUntangled(stack, M, S, ids);
      GrownTrans(M, old(Abs()), G, Abs());
      LocalThenCleared(old(Abs()), G, Abs(), Reps(unionFind.reps, ids));
    }

    method ClearUntangled(stack: seq<nat>, ghost M: Model, ghost S: Model, ghost ids: seq<nat>)
      requires unionFind.Valid() && AllIds(unionFind.reps, stack) && worklist == [] && Inv(M, Abs(), {}) && Settled(S, Abs())
      requires PushedAll(Abs(), ids, {}, stack)
      modifies this`classes, unionFind
      ensures Valid(M) && Inv(M, Abs(), {}) && Settled(S, Abs()) && Untangled(Abs()) && Grown(M, old(Abs()), Abs())
      ensures unionFind.reps == old(unionFind.reps) && classes.Keys == old(classes).Keys
      ensures LocalButCleared(old(Abs()), Abs(), {}) && ClearedAbove(Abs(), ids)
    {
      assert Reps(unionFind.reps, []) == {};
      RebuiltKeyed(M, Abs());
      ghost var G := Abs();
      ghost var visited := ClearCaches(stack, M);
      ClearingSame(G, Abs(), stack, visited);
      RecacheGrown(M, G, Abs());
      ClearingLocal(G, Abs(), stack, visited);
      ClearsAbove(G, Abs(), stack, visited, ids);
      SettledSame(S, G, Abs());
      SettledUntangles(S, Abs());
    }

    /**
     The outer loop of `rebuild`.  `ids` collects all ids that were ever on the worklist; only their
     classes change, and in the end the parents of each of these classes are on the stack.
     */
    method RepairRounds(ghost M: Model, ghost S: Model) returns (stack: seq<nat>, ghost ids: seq<nat>)
      requires Valid(M) && Settled(S, Abs())
      modifies this, unionFind
      ensures unionFind.Valid() && AllIds(unionFind.reps, stack) && worklist == []
      ensures Inv(M, Abs(), {}) && Settled(S, Abs()) && Grown(M, old(Abs()), Abs())
      ensures old(worklist) <= ids && Repaired(old(Abs()), Abs(), ids, {}, stack)
    {
      stack, ids := [], [];
      ghost var G0 := Abs();
      GrownSame(M, G0);
      RepairedNone(M, G0, worklist, Reps(unionFind.reps, worklist));
      assert ids + worklist == worklist;
      while worklist != []
        invariant unionFind.Valid() && AllIds(unionFind.reps, worklist) && Grown(M, G0, Abs()) && old(worklist) <= ids + worklist
        invariant Between(M, S, G0, Abs(), ids + worklist, Reps(unionFind.reps, worklist), stack)
        decreases 2 * |classes| + |worklist|
      {
        ghost var G, work := Abs(), worklist;
        stack := RepairAll(stack, M, S, G0, ids);
        ids := ids + work;
        GrownTrans(M, G0, G, Abs());
      }
      assert Reps(unionFind.reps, []) == {};
      assert ids + [] == ids;
    }

    /** One pass of `rebuild`: the worklist is taken and each of its classes repaired. */
    method RepairAll(stack: seq<nat>, ghost M: Model, ghost S: Model, ghost G0: Graph, ghost ids: seq<nat>) returns (stack': seq<nat>)
      requires unionFind.Valid() && AllIds(unionFind.reps, worklist) && worklist != []
      requires Between(M, S, G0, Abs(), ids + worklist, Reps(unionFind.reps, worklist), stack)
      modifies this, unionFind
      ensures unionFind.Valid() && AllIds(unionFind.reps, worklist)
      ensures Between(M, S, G0, Abs(), ids + old(worklist) + worklist, Reps(unionFind.reps, worklist), stack')
      ensures Grown(M, old(Abs()), Abs()) && |classes| + |worklist| == |old(classes)|
    {
      var todo := worklist;
      worklist := [];
      ghost var all := ids + todo;
      assert Abs() == old(Abs());
      assert todo[0..] == todo && Waiting(unionFind.reps, todo[0..], []) == Reps(unionFind.reps, todo) && all + [] == all;
      stack' := RepairTodo(todo, stack, M, S, G0, all);
      assert Waiting(unionFind.reps, [], worklist) == Reps(unionFind.reps, worklist);
    }

    /** The inner loop. */
    method RepairTodo(todo: seq<nat>, stack: seq<nat>, ghost M: Model, ghost S: Model, ghost G0: Graph, ghost ids: seq<nat>)
      returns (stack': seq<nat>)
      requires unionFind.Valid() && AllIds(unionFind.reps, todo) && worklist == [] && forall k :: 0 <= k < |todo| ==> todo[k] in ids
      requires Between(M, S, G0, Abs(), ids + worklist, Waiting(unionFind.reps, todo[0..], worklist), stack)
      modifies this, unionFind
      ensures unionFind.Valid() && AllIds(unionFind.reps, worklist)
      ensures Between(M, S, G0, Abs(), ids + worklist, Waiting(unionFind.reps, [], worklist), stack')
      ensures Grown(M, old(Abs()), Abs()) && |classes| + |worklist| == |old(classes)|
    {
      stack' := stack;
      ghost var G1 := Abs();
      GrownSame(M, G1);
      for i := 0 to |todo|
        invariant unionFind.Valid() && |unionFind.reps| == |G1.reps| && AllIds(unionFind.reps, worklist)
        invariant Between(M, S, G0, Abs(), ids + worklist, Waiting(unionFind.reps, todo[i..], worklist), stack')
        invariant Grown(M, G1, Abs()) && |classes| + |worklist| == |old(classes)|
      {
        ghost var G := Abs();
        stack' := RepairAndPush(todo, i, stack', M, S, G0, ids);
        GrownTrans(M, G1, G, Abs());
      }
      assert todo[|todo|..] == [];
    }

    /** The body of the inner loop. */
    method RepairAndPush(todo: seq<nat>, i: nat, stack: seq<nat>, ghost M: Model, ghost S: Model, ghost G0: Graph, ghost ids: seq<nat>)
      returns (stack': seq<nat>)
      requires unionFind.Valid() && AllIds(unionFind.reps, todo) && AllIds(unionFind.reps, worklist) && i < |todo| && todo[i] in ids
      requires Between(M, S, G0, Abs(), ids + worklist, Waiting(unionFind.reps, todo[i..], worklist), stack)
      modifies this, unionFind
      ensures unionFind.Valid() && AllIds(unionFind.reps, worklist)
      ensures Between(M, S, G0, Abs(), ids + worklist, Waiting(unionFind.reps, todo[i + 1..], worklist), stack')
      ensures Grown(M, old(Abs()), Abs()) && |classes| + |worklist| == |old(classes)| + |old(worklist)|
    {
      ghost var G, work, pend := Abs(), worklist, Waiting(unionFind.reps, todo[i..], worklist);
      ghost var added;
      var e;
      e, added := RepairNext(todo, i, M, S);
      ghost var pend' := Waiting(unionFind.reps, todo[i + 1..], worklist);
      stack' := PushParents(e, stack, M, pend');
      RepsMore(unionFind.reps, todo[i + 1..], work, added);
      RepairedNext(M, G0, G, Abs(), ids, work, added, e, todo[i], pend, pend', stack, stack');
    }

    /** `eclass = find(eclass); repair(eclass)`. */
    method RepairNext(todo: seq<nat>, i: nat, ghost M: Model, ghost S: Model) returns (e: nat, ghost added: seq<nat>)
      requires unionFind.Valid() && AllIds(unionFind.reps, todo) && AllIds(unionFind.reps, worklist) && i < |todo|
      requires Inv(M, Abs(), Waiting(unionFind.reps, todo[i..], worklist)) && Settled(S, Abs())
      modifies this, unionFind
      ensures unionFind.Valid() && AllIds(unionFind.reps, worklist) && AllIds(unionFind.reps, added)
      ensures e in classes && e == old(unionFind.reps)[todo[i]]
      ensures Inv(M, Abs(), Waiting(unionFind.reps, todo[i + 1..], worklist)) && Settled(S, Abs())
      ensures Grown(M, old(Abs()), Abs()) && Local(old(Abs()), Abs(), SetOf([e] + added)) && worklist == old(worklist) + added
      ensures StillPending(unionFind.reps, (old(Waiting(unionFind.reps, todo[i..], worklist)) + SetOf(added)) - {e},
        Waiting(unionFind.reps, todo[i + 1..], worklist))
      ensures |classes| + |worklist| == |old(classes)| + |old(worklist)|
    {
      ghost var reps, work, pend := unionFind.reps, worklist, Waiting(unionFind.reps, todo[i..], worklist);
      e := unionFind.Update(todo[i]);
      assert Abs() == old(Abs());
      assert todo[i..][0] == todo[i];
      assert e in pend && Root(reps, e);
      added := Repair(e, M, S, pend);
      NextWaiting(reps, unionFind.reps, todo, i, work, added);
      InvMono(M, Abs(), (pend + SetOf(added)) - {e}, Waiting(unionFind.reps, todo[i + 1..], worklist));
    }

    method PushParents(e: nat, stack: seq<nat>, ghost M: Model, ghost pend: set<nat>) returns (stack': seq<nat>)
      requires Inv(M, Abs(), pend) && e in classes && AllIds(unionFind.reps, stack)
      ensures AllIds(unionFind.reps, stack') && Pushed(classes[e].parents, stack, stack')
    {
      stack' := stack;
      var keys := classes[e].parents.Keys;
      while keys != {}
        invariant keys <= classes[e].parents.Keys && AllIds(unionFind.reps, stack') && stack <= stack'
        invariant forall m :: m in classes[e].parents && m !in keys ==> classes[e].parents[m] in stack'
        decreases |keys|
      {
        var m :| m in keys;
        assert EntryOk(M, Abs(), pend, e, m);
        stack' := stack' + [classes[e].parents[m]];
        keys := keys - {m};
      }
    }

    /**
     The tail of `rebuild`: the caches of the given ids, of their parents, of the parents of those and
     so on are dropped, and nothing else changes.
     */
    method ClearCaches(start: seq<nat>, ghost M: Model) returns (ghost visited: set<nat>)
      requires Valid(M) && worklist == [] && AllIds(unionFind.reps, start)
      modifies this`classes, unionFind
      ensures Valid(M) && unionFind.reps == old(unionFind.reps)
      ensures Clearing(old(classes), classes, unionFind.reps, start, visited, [])
    {
      var stack, seen := start, {};
      ghost var ids := IdSet(|unionFind.reps|);
      while stack != []
        invariant Valid(M) && unionFind.reps == old(unionFind.reps) && AllIds(unionFind.reps, stack)
        invariant seen <= ids && Clearing(old(classes), classes, unionFind.reps, start, seen, stack)
        decreases |ids - seen|, |stack|
      {
        var id, rest := stack[|stack| - 1], stack[..|stack| - 1];
        assert stack == rest + [id];
        if id !in seen {
          Remaining(ids, seen, id, |unionFind.reps|);
          stack := ClearNext(id, rest, M, old(classes), start, seen);
          seen := seen + {id};
        } else {
          ClearingSkip(old(classes), classes, unionFind.reps, start, seen, rest, id);
          stack := rest;
        }
      }
      visited := seen;
    }

    method ClearNext(id: nat, rest: seq<nat>, ghost M: Model, ghost classes0: map<nat, EClass>, ghost start: seq<nat>, ghost seen: set<nat>)
      returns (stack: seq<nat>)
      requires Valid(M) && worklist == [] && id < |unionFind.reps| && AllIds(unionFind.reps, rest)
      requires Clearing(classes0, classes, unionFind.reps, start, seen, rest + [id])
      modifies this`classes, unionFind
      ensures Valid(M) && unionFind.reps == old(unionFind.reps) && AllIds(unionFind.reps, stack)
      ensures Clearing(classes0, classes, unionFind.reps, start, seen + {id}, stack)
    {
      ghost var before := classes;
      var c := ClearOne(id, M);
      stack := PushParents(c, rest, M, Reps(unionFind.reps, worklist));
      ClearingStep(classes0, before, classes, unionFind.reps, start, seen, rest, id, stack);
    }

    method ClearOne(id: nat, ghost M: Model) returns (c: nat)
      requires Valid(M) && worklist == [] && id < |unionFind.reps|
      modifies this`classes, unionFind
      ensures Valid(M) && unionFind.reps == old(unionFind.reps) && c == unionFind.reps[id]
      ensures c in old(classes) && classes == old(classes)[c := old(classes)[c].(cache := NO_CACHE)]
    {
      c := unionFind.Update(id);
      ghost var G := Abs();
      assert Root(unionFind.reps, c);
      RecachedKeeps(M, G, Reps(unionFind.reps, worklist), c, NO_CACHE);
      classes := classes[c := classes[c].(cache := NO_CACHE)];
      assert Abs() == Recached(G, c, NO_CACHE);
    }
  }

  /** Only caches were dropped; those of visited ids are, and their parents are visited or on the stack. */
  ghost predicate Clearing(classes0: map<nat, EClass>, classes: map<nat, EClass>, reps: seq<nat>, start: seq<nat>,
                           visited: set<nat>, stack: seq<nat>) {
    && classes.Keys == classes0.Keys
    && (forall c :: c in classes ==>
          (classes[c] == classes0[c] || (classes[c] == classes0[c].(cache := NO_CACHE) && VisitedClass(reps, visited, c))))
    && (forall id :: id in start ==> id in visited || id in stack)
    && (forall id {:trigger Visited(classes, reps, visited, stack, id)} :: id in visited ==> Visited(classes, reps, visited, stack, id))
  }

  ghost predicate VisitedClass(reps: seq<nat>, visited: set<nat>, c: nat) {
    exists id :: id in visited && Find(reps, id) == c
  }

  ghost predicate Visited(classes: map<nat, EClass>, reps: seq<nat>, visited: set<nat>, stack: seq<nat>, id: nat) {
    && id < |reps| && reps[id] in classes && classes[reps[id]].cache == NO_CACHE
    && forall m :: m in classes[reps[id]].parents ==>
         classes[reps[id]].parents[m] in visited || classes[reps[id]].parents[m] in stack
  }

  /** All parents are now on the stack, above what was there. */
  ghost predicate Pushed(parents: map<ENode, nat>, stack: seq<nat>, stack': seq<nat>) {
    stack <= stack' && forall m :: m in parents ==> parents[m] in stack'
  }

  lemma ClearingSame(G: Graph, G': Graph, start: seq<nat>, visited: set<nat>)
    requires Clearing(G.classes, G'.classes, G.reps, start, visited, []) && G'.reps == G.reps && G'.hashcons == G.hashcons
    ensures SameParents(G, G') && SameButCaches(G, G')
  {}

  lemma ClearingLocal(G: Graph, G': Graph, start: seq<nat>, visited: set<nat>)
    requires Clearing(G.classes, G'.classes, G.reps, start, visited, []) && G'.reps == G.reps
    ensures LocalButCleared(G, G', {})
  {
    forall c | c in G'.classes ensures KeptBody(G, G', c) && (G'.classes[c].cache == G.classes[c].cache || ClearedUp(G', c)) {
      if G'.classes[c] != G.classes[c] {
        var id :| id in visited && Find(G.reps, id) == c;
        assert Visited(G'.classes, G.reps, visited, [], id);
        forall m | m in G'.classes[c].parents ensures Cleared(G', Find(G'.reps, G'.classes[c].parents[m])) {
          assert Visited(G'.classes, G.reps, visited, [], G'.classes[c].parents[m]);
        }
      }
    }
  }

  /** Class d is reached from class c by n + 1 parent steps. */
  ghost predicate IsAbove(G: Graph, c: nat, d: nat, n: nat) {
    c in G.classes && exists m :: m in G.classes[c].parents && AboveBy(G, G.classes[c].parents[m], d, n)
  }

  /** Id p is in class d, or class d is reached from that of p by n parent steps. */
  ghost predicate AboveBy(G: Graph, p: nat, d: nat, n: nat)
    decreases n
  {
    var c := Find(G.reps, p);
    if n == 0 then c == d
    else c in G.classes && exists m :: m in G.classes[c].parents && AboveBy(G, G.classes[c].parents[m], d, n - 1)
  }

  /** No class above one of the given ids has a cache. */
  ghost predicate ClearedAbove(G: Graph, ids: seq<nat>) {
    forall id, d, n {:trigger IsAbove(G, Find(G.reps, id), d, n)} :: id in ids && IsAbove(G, Find(G.reps, id), d, n) ==> Cleared(G, d)
  }

  lemma ClearsAbove(G: Graph, G': Graph, start: seq<nat>, visited: set<nat>, ids: seq<nat>)
    requires Clearing(G.classes, G'.classes, G.reps, start, visited, []) && G'.reps == G.reps && PushedAll(G, ids, {}, start)
    ensures ClearedAbove(G', ids)
  {
    forall id, d, n | id in ids && IsAbove(G', Find(G'.reps, id), d, n) ensures Cleared(G', d) {
      assert PushedAt(G, {}, start, id);
      var c := Find(G'.reps, id);
      var m :| m in G'.classes[c].parents && AboveBy(G', G'.classes[c].parents[m], d, n);
      assert G'.classes[c].parents == G.classes[c].parents;
      VisitedClears(G', visited, G'.classes[c].parents[m], d, n);
    }
  }

  /** Visited ids have no cache, and neither has anything above them. */
  lemma {:induction false} VisitedClears(G: Graph, visited: set<nat>, p: nat, d: nat, n: nat)
    requires forall id {:trigger Visited(G.classes, G.reps, visited, [], id)} :: id in visited ==> Visited(G.classes, G.reps, visited, [], id)
    requires p in visited && AboveBy(G, p, d, n)
    ensures Cleared(G, d)
    decreases n
  {
    assert Visited(G.classes, G.reps, visited, [], p);
    if n > 0 {
      var c := Find(G.reps, p);
      var m :| m in G.classes[c].parents && AboveBy(G, G.classes[c].parents[m], d, n - 1);
      VisitedClears(G, visited, G.classes[c].parents[m], d, n - 1);
    }
  }

  lemma ClearingSkip(classes0: map<nat, EClass>, classes: map<nat, EClass>, reps: seq<nat>, start: seq<nat>,
                     visited: set<nat>, stack: seq<nat>, id: nat)
    requires Clearing(classes0, classes, reps, start, visited, stack + [id]) && id in visited
    ensures Clearing(classes0, classes, reps, start, visited, stack)
  {
    forall i | i in visited ensures Visited(classes, reps, visited, stack, i) {
      assert Visited(classes, reps, visited, stack + [id], i);
    }
  }

  lemma ClearingStep(classes0: map<nat, EClass>, classes: map<nat, EClass>, classes': map<nat, EClass>, reps: seq<nat>,
                     start: seq<nat>, visited: set<nat>, stack: seq<nat>, id: nat, stack': seq<nat>)
    requires Clearing(classes0, classes, reps, start, visited, stack + [id]) && id < |reps| && reps[id] in classes
    requires classes' == classes[reps[id] := classes[reps[id]].(cache := NO_CACHE)]
    requires Pushed(classes[reps[id]].parents, stack, stack')
    ensures Clearing(classes0, classes', reps, start, visited + {id}, stack')
  {
    forall i | i in visited + {id} ensures Visited(classes', reps, visited + {id}, stack', i) {
      if i in visited { assert Visited(classes, reps, visited, stack + [id], i); }
    }
  }

  lemma Remaining(ids: set<nat>, seen: set<nat>, id: nat, n: nat)
    requires ids == IdSet(n) && id < n && id !in seen
    ensures id in ids && |ids - (seen + {id})| < |ids - seen|
  {
    InIdSet(n, id);
    assert id in ids - seen;
    SmallerSet(ids - (seen + {id}), ids - seen);
  }

  ghost function SetOf(ids: seq<nat>): set<nat> {
    set i | i in ids
  }

  ghost function IdSet(n: nat): set<nat> {
    if n == 0 then {} else IdSet(n - 1) + {n - 1}
  }

  lemma InIdSet(n: nat, i: nat)
    requires i < n
    ensures i in IdSet(n)
  {}

  lemma SmallerSet(a: set<nat>, b: set<nat>)
    requires a < b
    ensures |a| < |b|
  {
    assert b == a + (b - a);
  }

  /** The classes of ids still to be repaired in this pass and in the next. */
  ghost function Waiting(reps: seq<nat>, todo: seq<nat>, work: seq<nat>): set<nat> {
    Reps(reps, todo) + Reps(reps, work)
  }

  /** The roots that were pending still are. */
  ghost predicate StillPending(reps: seq<nat>, pend: set<nat>, pend': set<nat>) {
    forall o :: Root(reps, o) && o in pend ==> o in pend'
  }

  /** After class todo[i] is repaired, the rest of the pass and the grown worklist cover what waits. */
  lemma NextWaiting(reps: seq<nat>, reps': seq<nat>, todo: seq<nat>, i: nat, work: seq<nat>, added: seq<nat>)
    requires Partition(reps) && Coarser(reps, reps') && AllIds(reps, todo) && AllIds(reps, work) && i < |todo|
    requires AllIds(reps', added)
    ensures StillPending(reps', (Waiting(reps, todo[i..], work) + SetOf(added)) - {reps[todo[i]]},
      Waiting(reps', todo[i + 1..], work + added))
  {
    var e := reps[todo[i]];
    forall o | Root(reps', o) && o in (Waiting(reps, todo[i..], work) + SetOf(added)) - {e}
      ensures o in Waiting(reps', todo[i + 1..], work + added)
    {
      if o in Reps(reps, todo[i..]) {
        var k :| 0 <= k < |todo[i..]| && o == Find(reps, todo[i..][k]);
        assert todo[i + 1..][k - 1] == todo[i..][k];
        assert o in Reps(reps, todo[i + 1..]);
        StillWaiting(reps, reps', todo[i + 1..], o);
      } else if o in Reps(reps, work) {
        StillWaiting(reps, reps', work, o);
        var k :| 0 <= k < |work| && o == Find(reps', work[k]);
        assert (work + added)[k] == work[k];
      } else {
        var k :| 0 <= k < |added| && added[k] == o;
        assert Find(reps', (work + added)[|work| + k]) == o;
      }
    }
  }

  // ----- which caches `rebuild` drops -----

  /** The parents of the class of `id` are on the stack, unless the class waits for repair. */
  ghost predicate PushedAt(G: Graph, pend: set<nat>, stack: seq<nat>, id: nat) {
    && id < |G.reps| && G.reps[id] in G.classes
    && (G.reps[id] in pend || forall m :: m in G.classes[G.reps[id]].parents ==> G.classes[G.reps[id]].parents[m] in stack)
  }

  ghost predicate PushedAll(G: Graph, ids: seq<nat>, pend: set<nat>, stack: seq<nat>) {
    forall id {:trigger PushedAt(G, pend, stack, id)} :: id in ids ==> PushedAt(G, pend, stack, id)
  }

  /** From G0 to G only the classes of `ids` have changed, and the parents of those that are done are on the stack. */
  ghost predicate Repaired(G0: Graph, G: Graph, ids: seq<nat>, pend: set<nat>, stack: seq<nat>) {
    AllIds(G.reps, ids) && Local(G0, G, Reps(G.reps, ids)) && PushedAll(G, ids, pend, stack)
  }

  /** The state of `rebuild` between two repairs. */
  ghost predicate Between(M: Model, S: Model, G0: Graph, G: Graph, ids: seq<nat>, pend: set<nat>, stack: seq<nat>) {
    Inv(M, G, pend) && Settled(S, G) && Repaired(G0, G, ids, pend, stack) && AllIds(G.reps, stack)
  }

  lemma RepairedNone(M: Model, G: Graph, ids: seq<nat>, pend: set<nat>)
    requires Shape(M, G) && AllIds(G.reps, ids) && pend == Reps(G.reps, ids)
    ensures Repaired(G, G, ids, pend, [])
  {
    LocalSame(G, Reps(G.reps, ids));
    forall id | id in ids ensures PushedAt(G, pend, [], id) {
      InReps(G.reps, ids, id);
      assert Root(G.reps, G.reps[id]);
    }
  }

  lemma RepsMore(reps: seq<nat>, todo: seq<nat>, work: seq<nat>, added: seq<nat>)
    ensures Reps(reps, added) <= Waiting(reps, todo, work + added)
  {
    forall o | o in Reps(reps, added) ensures o in Reps(reps, work + added) {
      var k :| 0 <= k < |added| && o == Find(reps, added[k]);
      assert Find(reps, (work + added)[|work| + k]) == o;
    }
  }

  lemma InReps(reps: seq<nat>, ids: seq<nat>, id: nat)
    requires AllIds(reps, ids) && id in ids
    ensures id < |reps| && reps[id] in Reps(reps, ids)
  {
    var k :| 0 <= k < |ids| && ids[k] == id;
    assert Find(reps, ids[k]) == reps[id];
  }

  lemma RepairedStep(M: Model, G0: Graph, G: Graph, G': Graph, ids: seq<nat>, added: seq<nat>, e: nat, id0: nat,
                     pend: set<nat>, pend': set<nat>, stack: seq<nat>, stack': seq<nat>)
    requires Repaired(G0, G, ids, pend, stack) && Shape(M, G) && Shape(M, G') && Coarser(G.reps, G'.reps)
    requires id0 in ids && e == Find(G.reps, id0) && e in G'.classes && AllIds(G'.reps, added)
    requires Local(G, G', SetOf([e] + added)) && StillPending(G'.reps, (pend + SetOf(added)) - {e}, pend')
    requires Pushed(G'.classes[e].parents, stack, stack') && Reps(G'.reps, added) <= pend'
    ensures Repaired(G0, G', ids + added, pend', stack')
  {
    TouchedStep(M, G0, G, G', ids, added, e, id0);
    forall id | id in ids + added ensures PushedAt(G', pend', stack', id) {
      assert id in ids ==> PushedAt(G, pend, stack, id);
      PushedStep(M, G, G', added, e, pend, pend', stack, stack', id);
    }
  }

  lemma RepairedNext(M: Model, G0: Graph, G: Graph, G': Graph, ids: seq<nat>, work: seq<nat>, added: seq<nat>, e: nat, id0: nat,
                     pend: set<nat>, pend': set<nat>, stack: seq<nat>, stack': seq<nat>)
    requires Repaired(G0, G, ids + work, pend, stack) && Inv(M, G, pend) && Inv(M, G', pend') && Grown(M, G, G')
    requires id0 in ids && e == Find(G.reps, id0) && e in G'.classes && AllIds(G'.reps, added)
    requires Local(G, G', SetOf([e] + added)) && StillPending(G'.reps, (pend + SetOf(added)) - {e}, pend')
    requires Pushed(G'.classes[e].parents, stack, stack') && Reps(G'.reps, added) <= pend'
    ensures Repaired(G0, G', ids + (work + added), pend', stack')
  {
    RepairedStep(M, G0, G, G', ids + work, added, e, id0, pend, pend', stack, stack');
    assert ids + work + added == ids + (work + added);
  }

  /** Classes changed by one repair are among those of ids that were on the worklist. */
  lemma TouchedStep(M: Model, G0: Graph, G: Graph, G': Graph, ids: seq<nat>, added: seq<nat>, e: nat, id0: nat)
    requires Shape(M, G) && Shape(M, G') && Coarser(G.reps, G'.reps) && AllIds(G.reps, ids) && AllIds(G'.reps, added)
    requires Local(G0, G, Reps(G.reps, ids)) && Local(G, G', SetOf([e] + added)) && id0 in ids && e == Find(G.reps, id0)
    ensures Local(G0, G', Reps(G'.reps, ids + added))
  {
    forall c | c in G'.classes && c !in Reps(G'.reps, ids + added) ensures KeptAt(G0, G', c) {
      assert Root(G'.reps, c);
      if c in SetOf([e] + added) {
        var id := if c == e then id0 else c;
        FindCoarser(G.reps, G'.reps, id);
        InReps(G'.reps, ids + added, id);
      }
      assert KeptAt(G, G', c);
      if c in Reps(G.reps, ids) {
        var k :| 0 <= k < |ids| && c == Find(G.reps, ids[k]);
        FindCoarser(G.reps, G'.reps, ids[k]);
        InReps(G'.reps, ids + added, ids[k]);
      }
      assert KeptAt(G0, G, c);
    }
  }

  lemma PushedStep(M: Model, G: Graph, G': Graph, added: seq<nat>, e: nat, pend: set<nat>, pend': set<nat>,
                   stack: seq<nat>, stack': seq<nat>, id: nat)
    requires Shape(M, G) && Shape(M, G') && Coarser(G.reps, G'.reps) && e in G'.classes && AllIds(G'.reps, added)
    requires Local(G, G', SetOf([e] + added)) && StillPending(G'.reps, (pend + SetOf(added)) - {e}, pend')
    requires Pushed(G'.classes[e].parents, stack, stack') && Reps(G'.reps, added) <= pend'
    requires id in added || PushedAt(G, pend, stack, id)
    ensures PushedAt(G', pend', stack', id)
  {
    assert id < |G'.reps|;
    var c := G'.reps[id];
    assert Root(G'.reps, c);
    if id in added {
      InReps(G'.reps, added, id);
    } else if c in added {
      assert c in pend';
    } else if c != e {
      assert KeptAt(G, G', c);
    }
  }

  /** With nothing pending every canonical parent entry is hashed. */
  lemma RebuiltKeyed(M: Model, G: Graph)
    requires Inv(M, G, {})
    ensures Keyed(M, G)
  {
    forall b, m | b in G.classes && m in G.classes[b].parents ensures KeyOk(M, G, b, m) {
      assert EntryOk(M, G, {}, b, m);
    }
  }

  lemma SetOfCat(pend: set<nat>, xs: seq<nat>, ys: seq<nat>)
    ensures pend + SetOf(xs + ys) == (pend + SetOf(xs)) + SetOf(ys)
  {}

  lemma NodesInRange(M: Model, G: Graph, pend: set<nat>, e: nat)
    requires Inv(M, G, pend) && e in G.classes
    ensures forall i :: 0 <= i < |G.classes[e].nodes| ==> InRange(G.reps, G.classes[e].nodes[i])
  {
    forall i | 0 <= i < |G.classes[e].nodes| ensures InRange(G.reps, G.classes[e].nodes[i]) {
      assert NodeOk(M, G, e, G.classes[e].nodes[i]);
    }
  }

  /** The second loop of `repair`, between iterations. */
  ghost predicate Repairing(M: Model, S: Model, G: Graph, pend: set<nat>, e: nat, P: map<ENode, nat>, reps0: seq<nat>,
                            seen: set<ENode>, news: map<ENode, nat>) {
    && Holding(M, G, pend, e, P) && Settled(S, G)
    && AllTracked(G, pend, e, P, reps0) && MapInv(G.reps, pend, e, P, seen, news)
  }

  /** Two congruent parents may be merged: they have equal values, the class under repair is not one of them, and the loop goes on. */
  lemma ParentsMerge(M: Model, S: Model, G: Graph, pend: set<nat>, e: nat, P: map<ENode, nat>, reps0: seq<nat>,
                     seen: set<ENode>, news: map<ENode, nat>, m: ENode)
    requires Repairing(M, S, G, pend, e, P, reps0, seen, news) && m in P && Canon(G.reps, m) in news
    ensures var x := Canon(G.reps, m); var p, q := P[m], news[x];
      && p < |G.reps| && q < |G.reps| && M.val(p) == M.val(q) && InRange(G.reps, x) && Canon(G.reps, x) == x
      && (G.reps[p] != G.reps[q] ==>
            var a, b := G.reps[p], G.reps[q];
            && CanMerge(M, G, a, b) && |Merged(G, a, b).classes| + 1 == |G.classes|
            && Repairing(M, S, Merged(G, a, b), pend + {a}, e, P, reps0, seen, news)
            && Canon(Merged(G, a, b).reps, x) == Canon(Merged(G, a, b).reps, m)
            && Stable(Merged(G, a, b).reps, x, pend + {a}, e) && Grown(M, G, Merged(G, a, b))
            && Local(G, Merged(G, a, b), {a}))
  {
    var x := Canon(G.reps, m);
    var p, q := P[m], news[x];
    HoldingInRange(M, G, pend, e, P);
    CanonIdem(G.reps, m);
    assert Sourced(G.reps, P, seen, x, news[x]);
    var j :| j in seen && j in P && SameEntry(G.reps, x, q, j, P[j]);
    CongruentParents(M, G, pend, e, P, m, j);
    SameClassSameValue(M, G, q, P[j]);
    ParentsApart(S, G, e, m, j);
    var a, b := G.reps[p], G.reps[q];
    assert Root(G.reps, a) && Root(G.reps, b);
    if a != b {
      SameClassSameValue(M, G, p, a);
      SameClassSameValue(M, G, q, b);
      MergeSettled(M, S, G, pend, a, b, p, P[j]);
      CanonJoinBoth(G.reps, m, a, b);
      JoinStable(G.reps, a, b, x, pend, e);
      HoldingMerge(M, G, pend, e, P, reps0, a, b);
      JoinMap(G.reps, pend, e, P, seen, news, a, b);
      MergedSize(G, a, b);
      MergeGrown(M, G, pend, a, b);
      MergeLocal(M, G, a, b);
    }
  }

  lemma MergeSettled(M: Model, S: Model, G: Graph, pend: set<nat>, a: nat, b: nat, p: nat, q: nat)
    requires Inv(M, G, pend) && Settled(S, G) && CanMerge(M, G, a, b)
    requires p < |G.reps| && q < |G.reps| && G.reps[p] == a && G.reps[q] == b && S.val(p) == S.val(q)
    ensures Settled(S, Merged(G, a, b))
  {
    assert S.val(G.reps[p]) == S.val(p) && S.val(G.reps[q]) == S.val(q);
    forall c, m | c in G.classes && m in G.classes[c].parents ensures G.classes[c].parents[m] < |G.reps| {
      assert EntryOk(M, G, pend, c, m);
    }
    MergeKeepsSettled(S, G, a, b);
  }

  /** The parents rehashed so far. */
  ghost predicate AllLead(G: Graph, P: map<ENode, nat>, hashed: set<ENode>) {
    && hashed <= P.Keys
    && forall k {:trigger LeadsToParent(G, P, G.reps, Canon(G.reps, k))} ::
         k in hashed ==> LeadsToParent(G, P, G.reps, Canon(G.reps, k))
  }

  /** One rehashed parent more. */
  lemma RehashStep(M: Model, G: Graph, pend: set<nat>, e: nat, P: map<ENode, nat>, hashed: set<ENode>, m: ENode)
    requires Holding(M, G, pend, e, P) && m in P && AllLead(G, P, hashed)
    ensures Holding(M, Rehashed(G, m, P[m]), pend, e, P) && AllLead(Rehashed(G, m, P[m]), P, hashed + {m})
  {
    HoldingInRange(M, G, pend, e, P);
    RehashKeeps(M, G, pend, e, m);
    forall k | k in hashed + {m} ensures LeadsToParent(Rehashed(G, m, P[m]), P, G.reps, Canon(G.reps, k)) {
      CanonIdem(G.reps, k);
      assert k in hashed ==> LeadsToParent(G, P, G.reps, Canon(G.reps, k));
      RehashLeads(G, P, m, Canon(G.reps, k));
    }
  }

  lemma RehashedTracked(M: Model, G: Graph, pend: set<nat>, e: nat, P: map<ENode, nat>)
    requires Holding(M, G, pend, e, P) && AllLead(G, P, P.Keys)
    ensures AllTracked(G, pend, e, P, G.reps)
  {
    HoldingInRange(M, G, pend, e, P);
    forall m | m in P ensures Tracked(G, pend, e, P, G.reps, m) {
      CanonIdem(G.reps, m);
      assert LeadsToParent(G, P, G.reps, Canon(G.reps, m));
    }
  }

  lemma SameClassSameValue(M: Model, G: Graph, i: nat, j: nat)
    requires Shape(M, G) && i < |G.reps| && j < |G.reps| && G.reps[i] == G.reps[j]
    ensures M.val(i) == M.val(j)
  {
    assert M.val(G.reps[i]) == M.val(i) && M.val(G.reps[j]) == M.val(j);
  }

  lemma CanonJoinBoth(reps: seq<nat>, m: ENode, a: nat, b: nat)
    requires Partition(reps) && InRange(reps, m) && Root(reps, a) && Root(reps, b)
    ensures Canon(UF.Joined(reps, a, b), Canon(reps, m)) == Canon(UF.Joined(reps, a, b), m)
  {
    CanonJoin(reps, a, b, m);
  }

  lemma MergedSize(G: Graph, a: nat, b: nat)
    requires a in G.classes && b in G.classes && a != b
    ensures |Merged(G, a, b).classes| + 1 == |G.classes|
  {
    assert Merged(G, a, b).classes.Keys == G.classes.Keys - {b};
  }

  lemma WithParentsStep(classes: map<nat, EClass>, ops: seq<nat>, i: nat, x: ENode, id: nat)
    requires i < |ops| && ops[i] in classes
    ensures var before, child := WithParents(classes, ops[..i], x, id), ops[i];
      child in before && before[child := WithParent(before[child], x, id)] == WithParents(classes, ops[..i + 1], x, id)
  {
    assert ops[..i + 1] == ops[..i] + [ops[i]];
  }

  /** The worklist with the new class covers what waits after an addition. */
  lemma AddedWaits(M: Model, G: Graph, reps0: seq<nat>, work: seq<nat>)
    requires G.reps == reps0 + [|reps0|] && AllIds(reps0, work) && Inv(M, G, Reps(reps0, work) + {|reps0|})
    ensures Inv(M, G, Reps(G.reps, work + [|reps0|]))
  {
    forall o | o in Reps(reps0, work) + {|reps0|} ensures o in Reps(G.reps, work + [|reps0|]) {
      if o == |reps0| {
        assert Find(G.reps, (work + [|reps0|])[|work|]) == o;
      } else {
        var k :| 0 <= k < |work| && o == Find(reps0, work[k]);
        assert Find(G.reps, (work + [|reps0|])[k]) == o;
      }
    }
    InvMono(M, G, Reps(reps0, work) + {|reps0|}, Reps(G.reps, work + [|reps0|]));
  }

  /** The worklist with the merged class covers what waits after a merge. */
  lemma MergedWaits(M: Model, G: Graph, work: seq<nat>, a: nat, b: nat)
    requires Inv(M, G, Reps(G.reps, work)) && Keyed(M, G) && CanMerge(M, G, a, b) && AllIds(G.reps, work)
    ensures Inv(M, Merged(G, a, b), Reps(Merged(G, a, b).reps, work + [a])) && Keyed(M, Merged(G, a, b))
  {
    var G' := Merged(G, a, b);
    MergeKeeps(M, G, Reps(G.reps, work), a, b);
    MergeKeepsKeyed(M, G, Reps(G.reps, work), a, b);
    JoinCoarser(G.reps, G.reps, a, b);
    forall o | Root(G'.reps, o) && o in Reps(G.reps, work) + {a} ensures o in Reps(G'.reps, work + [a]) {
      if o == a {
        assert Root(G.reps, a);
        assert Find(G'.reps, (work + [a])[|work|]) == o;
      } else {
        StillWaiting(G.reps, G'.reps, work, o);
        var k :| 0 <= k < |work| && o == Find(G'.reps, work[k]);
        assert (work + [a])[k] == work[k];
      }
    }
    InvMono(M, G', Reps(G.reps, work) + {a}, Reps(G'.reps, work + [a]));
  }

  function ErasedFrom(classes: map<nat, EClass>, node: ENode, ops: seq<nat>): map<nat, EClass> {
    map c | c in classes :: if c in ops then classes[c].(parents := classes[c].parents - {node}) else classes[c]
  }

  lemma ErasedStep(classes: map<nat, EClass>, node: ENode, ops: seq<nat>, j: nat)
    requires j < |ops| && ops[j] in classes
    ensures var before, c := ErasedFrom(classes, node, ops[..j]), ops[j];
      && c in before
      && before[c := before[c].(parents := before[c].parents - {node})] == ErasedFrom(classes, node, ops[..j + 1])
  {
    var before, c, after := ErasedFrom(classes, node, ops[..j]), ops[j], ErasedFrom(classes, node, ops[..j + 1]);
    assert ops[..j + 1] == ops[..j] + [c];
    assert before[c].parents - {node} == after[c].parents;
  }

  function WithoutNodes(G: Graph, nodes: seq<ENode>): map<nat, EClass> {
    map c | c in G.classes ::
      G.classes[c].(parents := G.classes[c].parents - set n | n in nodes && c in Canon(G.reps, n).operands)
  }

  lemma WithoutNone(G: Graph)
    ensures WithoutNodes(G, [][..0]) == G.classes
  {
    forall c | c in G.classes ensures WithoutNodes(G, [])[c] == G.classes[c] {
      assert WithoutNodes(G, [])[c].parents == G.classes[c].parents;
    }
  }

  lemma WithoutAll(G: Graph, e: nat)
    requires e in G.classes
    ensures var nodes := G.classes[e].nodes; WithoutNodes(G, nodes[..|nodes|]) == WithoutDropped(G, e)
  {
    var nodes := G.classes[e].nodes;
    assert nodes[..|nodes|] == nodes;
  }

  lemma WithoutStep(G: Graph, nodes: seq<ENode>, i: nat)
    requires i < |nodes|
    ensures ErasedFrom(WithoutNodes(G, nodes[..i]), nodes[i], Canon(G.reps, nodes[i]).operands) == WithoutNodes(G, nodes[..i + 1])
  {
    var before, after := WithoutNodes(G, nodes[..i]), WithoutNodes(G, nodes[..i + 1]);
    var erased := ErasedFrom(before, nodes[i], Canon(G.reps, nodes[i]).operands);
    assert nodes[..i + 1] == nodes[..i] + [nodes[i]];
    forall c | c in G.classes ensures erased[c] == after[c] {
      var d := set n | n in nodes[..i] && c in Canon(G.reps, n).operands;
      var d' := set n | n in nodes[..i + 1] && c in Canon(G.reps, n).operands;
      assert d' == if c in Canon(G.reps, nodes[i]).operands then d + {nodes[i]} else d;
      assert erased[c].parents == after[c].parents;
    }
  }

  /** The type assertion of `EClass::merge` cannot fail. */
  lemma MergeTypes(M: Model, G: Graph, pend: set<nat>, a: nat, b: nat)
    requires Inv(M, G, pend) && CanMerge(M, G, a, b)
    ensures G.classes[a].nodes != [] && G.classes[b].nodes != []
    ensures G.classes[a].nodes[0].data.ty == G.classes[b].nodes[0].data.ty
  {
    assert ClassOk(M, a, G.classes[a]) && ClassOk(M, b, G.classes[b]);
    assert NodeOk(M, G, a, G.classes[a].nodes[0]) && NodeOk(M, G, b, G.classes[b].nodes[0]);
  }
}
