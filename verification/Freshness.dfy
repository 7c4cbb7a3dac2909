/**
 Which caches extraction may rely on.  A merge or an addition leaves caches exact in all classes that
 do not depend on a waiting class, and `rebuild` makes them exact in all classes but those it repaired:
 what lies above these it drops.  Their own caches are what `EClass::merge` left, and need not be exact.
 */
module Freshness {
  import opened EGraphModel
  import opened Options
  import opened EGraphSteps
  import opened EGraphGrowth
  import opened Extractor
  import EG = EGraph

  // ----- dependence on waiting classes -----

  /** Some node of class c has operand o. */
  ghost predicate Uses(S: Skeleton, c: nat, o: nat) {
    c in S.nodes && exists n :: n in S.nodes[c] && o in n.operands
  }

  /** From class c, n operand steps lead to a class in W. */
  ghost predicate DependsBy(S: Skeleton, W: set<nat>, c: nat, n: nat)
    decreases n
  {
    if n == 0 then c in W else exists o :: Uses(S, c, o) && DependsBy(S, W, Find(S.reps, o), n - 1)
  }

  ghost predicate Depends(S: Skeleton, W: set<nat>, c: nat) {
    exists n: nat :: DependsBy(S, W, c, n)
  }

  /** The cache of class c is exact, and comes with cached costs of all operands. */
  ghost predicate FreshAt(S: Skeleton, rank: nat -> nat, classes: map<nat, EClass>, c: nat)
    requires Acyclic(S, rank)
  {
    && c in classes && c in S.nodes && CacheOk(S, rank, c, classes[c].cache)
    && (c in Cached(classes) ==> NodesCached(S, classes, c))
  }

  /** All caches are, except in classes that depend on a waiting one. */
  ghost predicate UpToDate(S: Skeleton, rank: nat -> nat, classes: map<nat, EClass>, W: set<nat>)
    requires Acyclic(S, rank)
  {
    forall c {:trigger FreshAt(S, rank, classes, c)} :: c in classes ==> FreshAt(S, rank, classes, c) || Depends(S, W, c)
  }

  /** With nothing waiting, this is what extraction asks for. */
  lemma UpToDateIsReady(S: Skeleton, rank: nat -> nat, classes: map<nat, EClass>)
    requires Acyclic(S, rank) && UpToDate(S, rank, classes, {})
    ensures CachesOk(S, rank, classes) && Priced(S, classes, map[])
  {
    forall c | c in classes ensures FreshAt(S, rank, classes, c) {
      if Depends(S, {}, c) {
        var n: nat :| DependsBy(S, {}, c, n);
        NothingDepends(S, c, n);
      }
    }
    forall c, i | c in Cached(classes) && c in S.nodes && 0 <= i < |S.nodes[c]| ensures OperandsCached(S, classes, S.nodes[c][i]) {
      assert FreshAt(S, rank, classes, c);
    }
    forall c | c in classes ensures c in S.nodes && CacheOk(S, rank, c, classes[c].cache) { assert FreshAt(S, rank, classes, c); }
  }

  lemma {:induction false} NothingDepends(S: Skeleton, c: nat, n: nat)
    ensures !DependsBy(S, {}, c, n)
    decreases n
  {
    if n > 0 {
      forall o ensures !(Uses(S, c, o) && DependsBy(S, {}, Find(S.reps, o), n - 1)) { NothingDepends(S, Find(S.reps, o), n - 1); }
    }
  }

  // ----- parts of two graphs that agree -----

  /** A set of classes closed under operands, with the same nodes and the same operand classes in both graphs. */
  ghost predicate Agrees(S: Skeleton, S': Skeleton, D: nat -> bool) {
    && (forall c {:trigger D(c)} :: D(c) ==> c in S.nodes && c in S'.nodes && S.nodes[c] == S'.nodes[c])
    && (forall c, o {:trigger Uses(S', c, o)} :: D(c) && Uses(S', c, o) ==>
          Find(S.reps, o) == Find(S'.reps, o) && D(Find(S'.reps, o)))
  }

  lemma {:induction false} SameTrees(S: Skeleton, S': Skeleton, D: nat -> bool, t: Term, c: nat)
    requires Agrees(S, S', D) && D(c)
    ensures Represents(S, t, c) <==> Represents(S', t, c)
    decreases t
  {
    forall n | n in S.nodes[c] && |n.operands| == |t.args| ensures Instance(S, t, n) <==> Instance(S', t, n) {
      forall k | 0 <= k < |t.args| ensures
        Represents(S, t.args[k], Find(S.reps, n.operands[k])) <==> Represents(S', t.args[k], Find(S'.reps, n.operands[k]))
      {
        assert n.operands[k] in n.operands && t.args[k] in t.args;
        assert Uses(S', c, n.operands[k]);
        SameTrees(S, S', D, t.args[k], Find(S'.reps, n.operands[k]));
      }
    }
  }

  lemma {:induction false} SameClassCost(S: Skeleton, rank: nat -> nat, S': Skeleton, rank': nat -> nat, D: nat -> bool, c: nat)
    requires Acyclic(S, rank) && Acyclic(S', rank') && Agrees(S, S', D) && D(c)
    ensures ClassCost(S, rank, c) == ClassCost(S', rank', c)
    decreases rank'(c), 2, 0
  {
    SameCostUpTo(S, rank, S', rank', D, c, |S.nodes[c]|);
  }

  lemma {:induction false} SameCostUpTo(S: Skeleton, rank: nat -> nat, S': Skeleton, rank': nat -> nat, D: nat -> bool, c: nat, i: nat)
    requires Acyclic(S, rank) && Acyclic(S', rank') && Agrees(S, S', D) && D(c) && 1 <= i <= |S.nodes[c]|
    ensures CostUpTo(S, rank, c, i) == CostUpTo(S', rank', c, i)
    decreases rank'(c), 1, i
  {
    SameNodeCost(S, rank, S', rank', D, c, S.nodes[c][i - 1]);
    if i > 1 { SameCostUpTo(S, rank, S', rank', D, c, i - 1); }
  }

  lemma {:induction false} SameNodeCost(S: Skeleton, rank: nat -> nat, S': Skeleton, rank': nat -> nat, D: nat -> bool, c: nat, n: ENode)
    requires Acyclic(S, rank) && Acyclic(S', rank') && Agrees(S, S', D) && D(c) && n in S.nodes[c]
    ensures NodeCost(S, rank, c, n) == NodeCost(S', rank', c, n)
    decreases rank'(c), 0, |n.operands| + 1
  {
    SameOperandsCost(S, rank, S', rank', D, c, n, |n.operands|);
  }

  lemma {:induction false} SameOperandsCost(S: Skeleton, rank: nat -> nat, S': Skeleton, rank': nat -> nat, D: nat -> bool, c: nat,
                                            n: ENode, j: nat)
    requires Acyclic(S, rank) && Acyclic(S', rank') && Agrees(S, S', D) && D(c) && n in S.nodes[c] && j <= |n.operands|
    ensures OperandsCost(S, rank, c, n, j) == OperandsCost(S', rank', c, n, j)
    decreases rank'(c), 0, j
  {
    if j > 0 {
      SameOperandsCost(S, rank, S', rank', D, c, n, j - 1);
      NodeIsBelow(S, rank, c, n);
      NodeIsBelow(S', rank', c, n);
      var o := n.operands[j - 1];
      assert o < |S.reps| && o < |S'.reps| && rank'(S'.reps[o]) < rank'(c);
      assert o in n.operands;
      assert Uses(S', c, o);
      SameClassCost(S, rank, S', rank', D, S'.reps[o]);
    }
  }

  lemma SameCacheOk(S: Skeleton, rank: nat -> nat, S': Skeleton, rank': nat -> nat, D: nat -> bool, c: nat, cache: Cache)
    requires Acyclic(S, rank) && Acyclic(S', rank') && Agrees(S, S', D) && D(c) && CacheOk(S, rank, c, cache)
    ensures CacheOk(S', rank', c, cache)
  {
    SameClassCost(S, rank, S', rank', D, c);
    if cache.cost.Some? { SameNodeCost(S, rank, S', rank', D, c, S.nodes[c][cache.cost.value.index]); }
    if cache.expr.Some? { SameTrees(S, S', D, cache.expr.value, c); }
  }

  /** What agrees with a part that avoids W does not depend on W. */
  lemma {:induction false} CleanNotStale(S: Skeleton, S': Skeleton, D: nat -> bool, W: set<nat>, c: nat, n: nat)
    requires Agrees(S, S', D) && (forall d :: D(d) ==> d !in W) && D(c)
    ensures !DependsBy(S, W, c, n)
    decreases n
  {
    if n > 0 {
      forall o ensures !(Uses(S, c, o) && DependsBy(S, W, Find(S.reps, o), n - 1)) {
        if Uses(S, c, o) {
          assert Uses(S', c, o);
          CleanNotStale(S, S', D, W, Find(S.reps, o), n - 1);
        }
      }
    }
  }

  /** A class in such a part keeps an exact cache, if the caches of the part are kept. */
  lemma CleanStaysFresh(S: Skeleton, rank: nat -> nat, classes: map<nat, EClass>, S': Skeleton, rank': nat -> nat,
                        classes': map<nat, EClass>, D: nat -> bool, W: set<nat>, c: nat)
    requires Acyclic(S, rank) && Acyclic(S', rank') && UpToDate(S, rank, classes, W) && Agrees(S, S', D)
    requires (forall d :: D(d) ==> d !in W && d in classes && d in classes') && D(c) && classes'[c].cache == classes[c].cache
    requires c in Cached(classes') ==> forall o :: Uses(S', c, o) ==> classes'[Find(S'.reps, o)].cache == classes[Find(S'.reps, o)].cache
    ensures FreshAt(S', rank', classes', c)
  {
    assert FreshAt(S, rank, classes, c) by {
      forall n: nat ensures !DependsBy(S, W, c, n) { CleanNotStale(S, S', D, W, c, n); }
      assert FreshAt(S, rank, classes, c) || Depends(S, W, c);
    }
    SameCacheOk(S, rank, S', rank', D, c, classes[c].cache);
    if c in Cached(classes') {
      forall i | 0 <= i < |S'.nodes[c]| ensures OperandsCached(S', classes', S'.nodes[c][i]) {
        var n := S'.nodes[c][i];
        assert OperandsCached(S, classes, S.nodes[c][i]);
        forall k | 0 <= k < |n.operands| ensures Find(S'.reps, n.operands[k]) in Cached(classes') {
          assert n.operands[k] in n.operands;
          assert Uses(S', c, n.operands[k]);
          assert Find(S.reps, n.operands[k]) in Cached(classes);
        }
      }
    }
  }

  /** Classes that do not depend on W are closed under operands. */
  lemma CleanBelow(S: Skeleton, rank: nat -> nat, W: set<nat>, c: nat, o: nat)
    requires Acyclic(S, rank) && !Depends(S, W, c) && Uses(S, c, o)
    ensures c !in W && o < |S.reps| && S.reps[o] in S.nodes && !Depends(S, W, S.reps[o])
  {
    var n :| n in S.nodes[c] && o in n.operands;
    NodeIsBelow(S, rank, c, n);
    assert !DependsBy(S, W, c, 0);
    if Depends(S, W, S.reps[o]) {
      var k: nat :| DependsBy(S, W, S.reps[o], k);
      assert DependsBy(S, W, c, k + 1);
    }
  }

  // ----- merge -----

  /** After a merge, only the merged class and what depends on it need repair. */
  lemma MergeUpToDate(M: Model, G: Graph, a: nat, b: nat, rank: nat -> nat, rank': nat -> nat, W: set<nat>)
    requires Shape(M, G) && CanMerge(M, G, a, b)
    requires Acyclic(SkeletonOf(G.reps, G.classes), rank) && UpToDate(SkeletonOf(G.reps, G.classes), rank, G.classes, W)
    requires var G' := Merged(G, a, b); Acyclic(SkeletonOf(G'.reps, G'.classes), rank')
    ensures var G' := Merged(G, a, b); UpToDate(SkeletonOf(G'.reps, G'.classes), rank', G'.classes, W + {a})
  {
    var G', W' := Merged(G, a, b), W + {a};
    var S, S' := SkeletonOf(G.reps, G.classes), SkeletonOf(G'.reps, G'.classes);
    var D := (c: nat) => c in G'.classes && !Depends(S', W', c);
    MergeAgrees(M, G, a, b, rank', W');
    forall d | D(d) ensures d !in W && d in G.classes && d in G'.classes { assert !DependsBy(S', W', d, 0); }
    forall c | c in G'.classes && !Depends(S', W', c) ensures FreshAt(S', rank', G'.classes, c) {
      assert D(c) && c != a by { assert !DependsBy(S', W', c, 0); }
      forall o: nat | Uses(S', c, o) ensures G'.classes[Find(S'.reps, o)].cache == G.classes[Find(S'.reps, o)].cache {
        CleanBelow(S', rank', W', c, o);
        assert !DependsBy(S', W', S'.reps[o], 0);
      }
      CleanStaysFresh(S, rank, G.classes, S', rank', G'.classes, D, W, c);
    }
  }

  lemma MergeAgrees(M: Model, G: Graph, a: nat, b: nat, rank': nat -> nat, W': set<nat>)
    requires Shape(M, G) && CanMerge(M, G, a, b) && a in W'
    requires var G' := Merged(G, a, b); Acyclic(SkeletonOf(G'.reps, G'.classes), rank')
    ensures var G' := Merged(G, a, b); var S' := SkeletonOf(G'.reps, G'.classes);
      Agrees(SkeletonOf(G.reps, G.classes), S', (c: nat) => c in G'.classes && !Depends(S', W', c))
  {
    var G' := Merged(G, a, b);
    var S' := SkeletonOf(G'.reps, G'.classes);
    assert Root(G.reps, a) && Root(G.reps, b);
    forall c | c in G'.classes && !Depends(S', W', c) ensures c in G.classes && c != a { assert !DependsBy(S', W', c, 0); }
    forall c, o: nat | c in G'.classes && !Depends(S', W', c) && Uses(S', c, o)
      ensures Find(G.reps, o) == Find(G'.reps, o) && Find(G'.reps, o) in G'.classes && !Depends(S', W', Find(G'.reps, o))
    {
      CleanBelow(S', rank', W', c, o);
      assert !DependsBy(S', W', G'.reps[o], 0);
    }
  }

  // ----- add -----

  /** After an addition, only the new class needs repair. */
  lemma AddUpToDate(M: Model, G: Graph, pend: set<nat>, x: ENode, rank: nat -> nat, rank': nat -> nat, W: set<nat>)
    requires Inv(M, G, pend)
    requires Acyclic(SkeletonOf(G.reps, G.classes), rank) && UpToDate(SkeletonOf(G.reps, G.classes), rank, G.classes, W)
    requires var G' := Added(G, x); Acyclic(SkeletonOf(G'.reps, G'.classes), rank')
    ensures var G' := Added(G, x); UpToDate(SkeletonOf(G'.reps, G'.classes), rank', G'.classes, W + {|G.reps|})
  {
    var G', W' := Added(G, x), W + {|G.reps|};
    var S, S' := SkeletonOf(G.reps, G.classes), SkeletonOf(G'.reps, G'.classes);
    var D := (c: nat) => c in G'.classes && !Depends(S', W', c);
    AddAgrees(M, G, pend, x, rank', W');
    forall d | D(d) ensures d !in W && d in G.classes && d in G'.classes { assert !DependsBy(S', W', d, 0); }
    forall c | c in G'.classes && !Depends(S', W', c) ensures FreshAt(S', rank', G'.classes, c) {
      assert D(c) && c != |G.reps| by { assert !DependsBy(S', W', c, 0); }
      forall o: nat | Uses(S', c, o) ensures G'.classes[Find(S'.reps, o)].cache == G.classes[Find(S'.reps, o)].cache {
        CleanBelow(S', rank', W', c, o);
        assert !DependsBy(S', W', S'.reps[o], 0);
      }
      CleanStaysFresh(S, rank, G.classes, S', rank', G'.classes, D, W, c);
    }
  }

  lemma AddAgrees(M: Model, G: Graph, pend: set<nat>, x: ENode, rank': nat -> nat, W': set<nat>)
    requires Inv(M, G, pend) && |G.reps| in W'
    requires var G' := Added(G, x); Acyclic(SkeletonOf(G'.reps, G'.classes), rank')
    ensures var G' := Added(G, x); var S' := SkeletonOf(G'.reps, G'.classes);
      Agrees(SkeletonOf(G.reps, G.classes), S', (c: nat) => c in G'.classes && !Depends(S', W', c))
  {
    var G' := Added(G, x);
    var S' := SkeletonOf(G'.reps, G'.classes);
    assert forall c :: c in G.classes && c != |G.reps| ==> c in G'.classes && G'.classes[c].nodes == G.classes[c].nodes;
    forall c | c in G'.classes && !Depends(S', W', c) ensures c in G.classes && c != |G.reps| { assert !DependsBy(S', W', c, 0); }
    forall c, o: nat | c in G'.classes && !Depends(S', W', c) && Uses(S', c, o)
      ensures Find(G.reps, o) == Find(G'.reps, o) && Find(G'.reps, o) in G'.classes && !Depends(S', W', Find(G'.reps, o))
    {
      CleanBelow(S', rank', W', c, o);
      assert !DependsBy(S', W', G'.reps[o], 0);
    }
  }

  // ----- rebuild -----

  /** Every held node is in the parent lists of its operands; the invariant says so unless its value is a constant's. */
  ghost predicate AllListed(G: Graph) {
    forall c, n {:trigger Listed(G, Canon(G.reps, n), c)} :: c in G.classes && n in G.classes[c].nodes ==> Listed(G, Canon(G.reps, n), c)
  }

  /** What `Rebuild` ensures of caches. */
  ghost predicate Rebuilt(G: Graph, G': Graph, work: seq<nat>, ids: seq<nat>) {
    && work <= ids && EG.AllIds(G'.reps, ids) && Coarser(G.reps, G'.reps)
    && LocalButCleared(G, G', EG.Reps(G'.reps, ids)) && EG.ClearedAbove(G', ids)
  }

  /** Class c is above the class of one of the ids. */
  ghost predicate AboveOne(G: Graph, ids: seq<nat>, c: nat) {
    exists id, n :: id in ids && EG.IsAbove(G, Find(G.reps, id), c, n)
  }

  /** Class c is neither of the given ids nor above them. */
  ghost predicate Clean(G: Graph, ids: seq<nat>, c: nat) {
    c in G.classes && c !in EG.Reps(G.reps, ids) && !AboveOne(G, ids, c)
  }

  /** A parent of the class of p, or of something above it, is above it. */
  lemma {:induction false} AboveMore(G: Graph, p: nat, d: nat, n: nat, m: ENode)
    requires EG.AboveBy(G, p, d, n) && d in G.classes && m in G.classes[d].parents
    ensures EG.AboveBy(G, p, Find(G.reps, G.classes[d].parents[m]), n + 1)
    decreases n
  {
    var c, q := Find(G.reps, p), G.classes[d].parents[m];
    if n == 0 {
      assert EG.AboveBy(G, q, Find(G.reps, q), 0);
    } else {
      var k :| k in G.classes[c].parents && EG.AboveBy(G, G.classes[c].parents[k], d, n - 1);
      AboveMore(G, G.classes[c].parents[k], d, n - 1, m);
    }
  }

  /** Class c is listed as a parent of the class of each operand of its nodes. */
  lemma OperandEntry(M: Model, G: Graph, c: nat, o: nat) returns (m: ENode)
    requires Inv(M, G, {}) && AllListed(G) && c in G.classes && Uses(SkeletonOf(G.reps, G.classes), c, o)
    ensures o < |G.reps| && G.reps[o] in G.classes
    ensures m in G.classes[G.reps[o]].parents && Find(G.reps, G.classes[G.reps[o]].parents[m]) == c
  {
    var n :| n in G.classes[c].nodes && o in n.operands;
    assert NodeOk(M, G, c, n);
    var k :| 0 <= k < |n.operands| && n.operands[k] == o;
    var x := Canon(G.reps, n);
    assert Root(G.reps, G.reps[o]) && x.operands[k] == G.reps[o];
    assert Listed(G, x, c);
    assert HasEntry(G, x.operands[k], x, c);
    m :| m in G.classes[G.reps[o]].parents && IsEntry(G, G.reps[o], x, c, m);
  }

  /** A parent of a class of the given ids, or of something above one, is above one. */
  lemma ParentAbove(G: Graph, ids: seq<nat>, d: nat, m: ENode)
    requires d in G.classes && m in G.classes[d].parents && (d in EG.Reps(G.reps, ids) || AboveOne(G, ids, d))
    ensures AboveOne(G, ids, Find(G.reps, G.classes[d].parents[m]))
  {
    var q := G.classes[d].parents[m];
    if d in EG.Reps(G.reps, ids) {
      var j :| 0 <= j < |ids| && d == Find(G.reps, ids[j]);
      assert EG.AboveBy(G, q, Find(G.reps, q), 0);
      assert EG.IsAbove(G, Find(G.reps, ids[j]), Find(G.reps, q), 0);
    } else {
      var id, h: nat :| id in ids && EG.IsAbove(G, Find(G.reps, id), d, h);
      var f := Find(G.reps, id);
      var k :| k in G.classes[f].parents && EG.AboveBy(G, G.classes[f].parents[k], d, h);
      AboveMore(G, G.classes[f].parents[k], d, h, m);
      assert EG.IsAbove(G, f, Find(G.reps, q), h + 1);
    }
  }

  /** The operand classes of a clean class are clean, and as they were. */
  lemma CleanOperand(M: Model, G: Graph, G': Graph, work: seq<nat>, ids: seq<nat>, c: nat, o: nat)
    requires Shape(M, G) && Inv(M, G', {}) && AllListed(G') && Rebuilt(G, G', work, ids)
    requires Clean(G', ids, c) && Uses(SkeletonOf(G'.reps, G'.classes), c, o)
    ensures o < |G'.reps| && Clean(G', ids, G'.reps[o]) && Find(G.reps, o) == G'.reps[o]
    ensures G'.reps[o] in G.classes
    ensures G'.classes[c].cache == NO_CACHE || G'.classes[G'.reps[o]].cache == G.classes[G'.reps[o]].cache
  {
    var m := OperandEntry(M, G', c, o);
    var d := G'.reps[o];
    if d in EG.Reps(G'.reps, ids) || AboveOne(G', ids, d) { ParentAbove(G', ids, d, m); }
    assert KeptBody(G, G', d);
  }

  lemma RebuildAgrees(M: Model, G: Graph, G': Graph, work: seq<nat>, ids: seq<nat>)
    requires Shape(M, G) && Inv(M, G', {}) && AllListed(G') && Rebuilt(G, G', work, ids)
    ensures Agrees(SkeletonOf(G.reps, G.classes), SkeletonOf(G'.reps, G'.classes), (c: nat) => Clean(G', ids, c))
  {
    var S, S', D := SkeletonOf(G.reps, G.classes), SkeletonOf(G'.reps, G'.classes), (c: nat) => Clean(G', ids, c);
    forall c: nat | D(c) ensures c in S.nodes && c in S'.nodes && S.nodes[c] == S'.nodes[c] { assert KeptBody(G, G', c); }
    forall c: nat, o: nat | D(c) && Uses(S', c, o) ensures Find(S.reps, o) == Find(S'.reps, o) && D(Find(S'.reps, o)) {
      CleanOperand(M, G, G', work, ids, c, o);
    }
  }

  /** A class that waited and is still there is one of those repaired. */
  lemma WaitedIsTouched(G: Graph, G': Graph, work: seq<nat>, ids: seq<nat>, c: nat)
    requires Rebuilt(G, G', work, ids) && Partition(G.reps) && Root(G'.reps, c) && c in EG.Reps(G.reps, work)
    ensures c in EG.Reps(G'.reps, ids)
  {
    var k :| 0 <= k < |work| && c == Find(G.reps, work[k]);
    FindCoarser(G.reps, G'.reps, work[k]);
    assert ids[k] == work[k];
    assert Find(G'.reps, ids[k]) == c;
  }

  /**
   After `rebuild`, every class that was not itself repaired has an exact cache, or none.  So caches
   are exact throughout, as extraction asks, exactly when they are in the repaired classes.
   */
  lemma RebuildRefreshes(M: Model, G: Graph, G': Graph, work: seq<nat>, ids: seq<nat>, rank: nat -> nat, rank': nat -> nat)
    requires Shape(M, G) && Inv(M, G', {}) && AllListed(G') && Rebuilt(G, G', work, ids)
    requires Acyclic(SkeletonOf(G.reps, G.classes), rank) && Acyclic(SkeletonOf(G'.reps, G'.classes), rank')
    requires UpToDate(SkeletonOf(G.reps, G.classes), rank, G.classes, EG.Reps(G.reps, work))
    ensures var S' := SkeletonOf(G'.reps, G'.classes);
      && (forall c :: c in G'.classes && c !in EG.Reps(G'.reps, ids) ==> FreshAt(S', rank', G'.classes, c))
      && ((forall c :: c in G'.classes && c in EG.Reps(G'.reps, ids) ==> FreshAt(S', rank', G'.classes, c)) <==>
            CachesOk(S', rank', G'.classes) && Priced(S', G'.classes, map[]))
  {
    var S' := SkeletonOf(G'.reps, G'.classes);
    forall c | c in G'.classes && c !in EG.Reps(G'.reps, ids) ensures FreshAt(S', rank', G'.classes, c) {
      RefreshedAt(M, G, G', work, ids, rank, rank', c);
    }
    if forall c :: c in G'.classes && c in EG.Reps(G'.reps, ids) ==> FreshAt(S', rank', G'.classes, c) {
      UpToDateIsReady(S', rank', G'.classes);
    }
    if CachesOk(S', rank', G'.classes) && Priced(S', G'.classes, map[]) {
      forall c | c in G'.classes ensures FreshAt(S', rank', G'.classes, c) {
        CachedOk(S', rank', G'.classes, c);
        if c in Cached(G'.classes) { CachedBelow(S', G'.classes, map[], c); }
      }
    }
  }

  lemma RefreshedAt(M: Model, G: Graph, G': Graph, work: seq<nat>, ids: seq<nat>, rank: nat -> nat, rank': nat -> nat, c: nat)
    requires Shape(M, G) && Inv(M, G', {}) && AllListed(G') && Rebuilt(G, G', work, ids)
    requires Acyclic(SkeletonOf(G.reps, G.classes), rank) && Acyclic(SkeletonOf(G'.reps, G'.classes), rank')
    requires UpToDate(SkeletonOf(G.reps, G.classes), rank, G.classes, EG.Reps(G.reps, work))
    requires c in G'.classes && c !in EG.Reps(G'.reps, ids)
    ensures FreshAt(SkeletonOf(G'.reps, G'.classes), rank', G'.classes, c)
  {
    var S, S' := SkeletonOf(G.reps, G.classes), SkeletonOf(G'.reps, G'.classes);
    if G'.classes[c].cache == NO_CACHE { return; }
    assert Clean(G', ids, c);
    var D, W := (d: nat) => Clean(G', ids, d), EG.Reps(G.reps, work);
    RebuildAgrees(M, G, G', work, ids);
    forall d | D(d) ensures d !in W && d in G.classes && d in G'.classes {
      assert Root(G'.reps, d) && KeptBody(G, G', d);
      if d in W { WaitedIsTouched(G, G', work, ids, d); }
    }
    assert KeptBody(G, G', c);
    forall o: nat | Uses(S', c, o) ensures G'.classes[Find(S'.reps, o)].cache == G.classes[Find(S'.reps, o)].cache {
      CleanOperand(M, G, G', work, ids, c, o);
    }
    CleanStaysFresh(S, rank, G.classes, S', rank', G'.classes, D, W, c);
  }

  // ----- the repaired classes' own caches -----

  const K := ENode(ConstantInt(0, 1), [])
  const F_K := ENode(Op(0, 7), [0])
  const SYM := ENode(SymbolData(0, 0), [])
  const K_TERM := Term(K.data, [])
  const F_TERM := Term(F_K.data, [K_TERM])
  const SYM_TERM := Term(SYM.data, [])
  const NO_PARENTS: map<ENode, nat> := map[]

  /** A constant k, f(k) and a symbol, all three extracted before. */
  const EXTRACTED := Graph(
    [0, 1, 2],
    map[0 := EClass([K], map[F_K := 1], Cache(Some(K_TERM), Some(Cost(1, 0))), Some(0)),
        1 := EClass([F_K], NO_PARENTS, Cache(Some(F_TERM), Some(Cost(2, 0))), None),
        2 := EClass([SYM], NO_PARENTS, Cache(Some(SYM_TERM), Some(Cost(65536, 0))), None)],
    map[K := 0, F_K := 1, SYM := 2])

  ghost function Height(i: nat): nat {
    i
  }

  lemma ExtractedAcyclic()
    ensures Acyclic(SkeletonOf(EXTRACTED.reps, EXTRACTED.classes), Height)
  {
    assert F_K.operands == [0];
  }

  /** The cost of a class with one node. */
  lemma LoneCost(S: Skeleton, rank: nat -> nat, c: nat, n: ENode)
    requires Acyclic(S, rank) && c in S.nodes && S.nodes[c] == [n] && |n.operands| <= 1
    ensures NodeCost(S, rank, c, n) == ClassCost(S, rank, c)
    ensures n.operands == [] ==> ClassCost(S, rank, c) == OpCost(n.data)
    ensures n.operands != [] ==>
      && Find(S.reps, n.operands[0]) in S.nodes
      && ClassCost(S, rank, c) == OpCost(n.data) + ClassCost(S, rank, Find(S.reps, n.operands[0]))
  {
    NodeIsBelow(S, rank, c, n);
    assert CostUpTo(S, rank, c, 1) == NodeCost(S, rank, c, S.nodes[c][0]);
    if n.operands != [] {
      assert n.operands[0] < |S.reps|;
      assert OperandsCost(S, rank, c, n, 0) == 0;
    }
  }

  /** The makeup of a leaf, and of a node over one argument. */
  lemma SmallMakeup(t: Term)
    requires |t.args| <= 1
    ensures TermCost(t) == OpCost(t.data) + if t.args == [] then 0 else TermCost(t.args[0])
    ensures var rest := if t.args == [] then Makeup(0, 0) else MakeupOf(t.args[0]);
      MakeupOf(t) == if t.data.SymbolData? then Makeup(rest.symbols + 1, rest.others) else Makeup(rest.symbols, rest.others + 1)
  {
    if t.args != [] {
      assert ArgsMakeup(t, 0) == Makeup(0, 0) && ArgsCost(t, 0) == 0;
      assert ArgsMakeup(t, 1) == MakeupOf(t.args[0]);
    }
  }

  lemma SmallMakeups()
    ensures MakeupOf(K_TERM) == Makeup(0, 1) && MakeupOf(F_TERM) == Makeup(0, 2) && MakeupOf(SYM_TERM) == Makeup(1, 0)
    ensures TermCost(K_TERM) == 1 && TermCost(F_TERM) == 2 && TermCost(SYM_TERM) == 65536
  {
    SmallMakeup(K_TERM);
    SmallMakeup(F_TERM);
    SmallMakeup(SYM_TERM);
  }

  lemma ExtractedExact()
    ensures Acyclic(SkeletonOf(EXTRACTED.reps, EXTRACTED.classes), Height)
    ensures CachesOk(SkeletonOf(EXTRACTED.reps, EXTRACTED.classes), Height, EXTRACTED.classes)
  {
    ExtractedAcyclic();
    var S := SkeletonOf(EXTRACTED.reps, EXTRACTED.classes);
    assert S.nodes[0] == [K] && S.nodes[1] == [F_K] && S.nodes[2] == [SYM];
    LoneCost(S, Height, 0, K);
    LoneCost(S, Height, 1, F_K);
    LoneCost(S, Height, 2, SYM);
    SmallMakeups();
    assert Instance(S, K_TERM, K) && Instance(S, SYM_TERM, SYM);
    assert Represents(S, K_TERM, 0) && Represents(S, SYM_TERM, 2);
    assert Instance(S, F_TERM, F_K);
  }

  /**
   All caches are exact; then the symbol is merged into the class of f(k).  `EClass::merge` compares a
   cost with itself and takes over the symbol's expression, so that extraction would return the symbol,
   although the class has the tree f(k).  `rebuild` drops only caches above this class, and there are none.
   */
  lemma MergedCacheNotBest()
    ensures Acyclic(SkeletonOf(EXTRACTED.reps, EXTRACTED.classes), Height)
    ensures CachesOk(SkeletonOf(EXTRACTED.reps, EXTRACTED.classes), Height, EXTRACTED.classes)
    ensures var G' := Merged(EXTRACTED, 1, 2); var S' := SkeletonOf(G'.reps, G'.classes);
      && G'.classes[1].parents == map[] && G'.classes[1].cache.expr == Some(SYM_TERM)
      && Represents(S', F_TERM, 1) && Represents(S', SYM_TERM, 1) && !Best(S', 1, SYM_TERM)
  {
    ExtractedExact();
    var G' := Merged(EXTRACTED, 1, 2);
    var S' := SkeletonOf(G'.reps, G'.classes);
    assert S'.nodes[1] == [F_K, SYM] && S'.nodes[0] == [K] && G'.reps == [0, 1, 1];
    assert Instance(S', K_TERM, K);
    assert Represents(S', K_TERM, 0);
    assert Instance(S', F_TERM, F_K) && Instance(S', SYM_TERM, SYM);
    assert F_K in S'.nodes[1] && SYM in S'.nodes[1];
    SmallMakeups();
    assert !AtLeastAsGood(MakeupOf(SYM_TERM), MakeupOf(F_TERM));
  }
}
