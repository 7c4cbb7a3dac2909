/**
 Why `unparent` and `repair` keep the e-graph invariant, and why `repair` makes its class clean:
 the loop invariants of src/IR/EGraph.cpp:264-317, as predicates with one lemma per step.
 */
module EGraphRepair {
  import UF = UnionFind
  import opened EGraphModel
  import opened Options
  import opened EGraphSteps

  // ----- unparent -----

  /** Parent keys `unparent(e)` erases from class c. */
  function Dropped(G: Graph, e: nat, c: nat): set<ENode>
    requires e in G.classes
  {
    set n | n in G.classes[e].nodes && c in Canon(G.reps, n).operands
  }

  function WithoutDropped(G: Graph, e: nat): map<nat, EClass>
    requires e in G.classes
  {
    map c | c in G.classes :: G.classes[c].(parents := G.classes[c].parents - Dropped(G, e, c))
  }

  /** A constant class keeps only its constant. */
  function Pruned(G: Graph, e: nat): Graph
    requires e in G.classes && G.classes[e].constIndex.Some? && G.classes[e].constIndex.value < |G.classes[e].nodes|
  {
    var kept := WithoutDropped(G, e);
    G.(classes := kept[e := kept[e].(nodes := [G.classes[e].nodes[G.classes[e].constIndex.value]], constIndex := Some(0))])
  }

  ghost predicate CanPrune(M: Model, G: Graph, pend: set<nat>, e: nat) {
    && Inv(M, G, pend) && e in G.classes && G.classes[e].constIndex.Some?
    && G.classes[e].constIndex.value < |G.classes[e].nodes|
  }

  lemma PruneFree(M: Model, G: Graph, pend: set<nat>, e: nat, v: Value)
    requires CanPrune(M, G, pend, e)
    ensures Free(M, Pruned(G, e), v) <==> Free(M, G, v)
  {
    assert forall c :: c in G.classes ==>
      c in Pruned(G, e).classes && Pruned(G, e).classes[c].constIndex.Some? == G.classes[c].constIndex.Some?;
  }

  /** Only entries with the pruned constant's value are erased. */
  lemma PruneEntry(M: Model, G: Graph, pend: set<nat>, e: nat, b: nat, y: ENode, q: nat)
    requires CanPrune(M, G, pend, e) && HasEntry(G, b, y, q) && Free(M, G, M.val(q))
    ensures HasEntry(Pruned(G, e), b, y, q)
  {
    var G' := Pruned(G, e);
    var m :| m in G.classes[b].parents && IsEntry(G, b, y, q, m);
    assert EntryOk(M, G, pend, b, m);
    assert M.val(G.reps[G.classes[b].parents[m]]) == M.val(G.classes[b].parents[m]);
    assert m in G.classes[e].nodes ==> NodeOk(M, G, e, m);
    assert m in G'.classes[b].parents && IsEntry(G', b, y, q, m);
  }

  lemma PruneListed(M: Model, G: Graph, pend: set<nat>, e: nat, y: ENode, q: nat)
    requires CanPrune(M, G, pend, e) && Listed(G, y, q) && Free(M, G, M.val(q))
    ensures Listed(Pruned(G, e), y, q)
  {
    forall k | 0 <= k < |y.operands| ensures HasEntry(Pruned(G, e), y.operands[k], y, q) {
      assert HasEntry(G, y.operands[k], y, q);
      PruneEntry(M, G, pend, e, y.operands[k], y, q);
    }
  }

  lemma PruneNodeOk(M: Model, G: Graph, pend: set<nat>, e: nat, c: nat, n: ENode)
    requires CanPrune(M, G, pend, e) && c in G.classes && n in G.classes[c].nodes
    ensures NodeOk(M, Pruned(G, e), c, n)
  {
    assert NodeOk(M, G, c, n);
    PruneFree(M, G, pend, e, M.val(c));
    if Free(M, G, M.val(c)) { PruneListed(M, G, pend, e, Canon(G.reps, n), c); }
  }

  lemma PruneEntryOk(M: Model, G: Graph, pend: set<nat>, e: nat, b: nat, m: ENode)
    requires CanPrune(M, G, pend, e) && b in Pruned(G, e).classes && m in Pruned(G, e).classes[b].parents
    ensures EntryOk(M, Pruned(G, e), pend, b, m)
  {
    assert EntryOk(M, G, pend, b, m);
    var p := G.classes[b].parents[m];
    PruneFree(M, G, pend, e, M.val(p));
    if Free(M, G, M.val(p)) {
      assert M.val(G.reps[p]) == M.val(p);
      PruneListed(M, G, pend, e, Canon(G.reps, m), G.reps[p]);
    }
  }

  /** Pruning keeps the invariant, although it drops nodes, parent entries and congruences. */
  lemma PruneKeeps(M: Model, G: Graph, pend: set<nat>, e: nat)
    requires CanPrune(M, G, pend, e)
    ensures Inv(M, Pruned(G, e), pend)
  {
    var G' := Pruned(G, e);
    forall c | c in G'.classes ensures ClassOk(M, c, G'.classes[c]) { assert ClassOk(M, c, G.classes[c]); }
    forall c, n | c in G'.classes && n in G'.classes[c].nodes ensures NodeOk(M, G', c, n) {
      PruneNodeOk(M, G, pend, e, c, n);
    }
    forall b, m | b in G'.classes && m in G'.classes[b].parents ensures EntryOk(M, G', pend, b, m) {
      PruneEntryOk(M, G, pend, e, b, m);
    }
    forall n | n in G'.hashcons ensures HashOk(M, G', n) { PruneHashOk(M, G, pend, e, n); }
  }

  lemma PruneHashOk(M: Model, G: Graph, pend: set<nat>, e: nat, n: ENode)
    requires CanPrune(M, G, pend, e) && n in G.hashcons
    ensures HashOk(M, Pruned(G, e), n)
  {
    var q := G.hashcons[n];
    assert HashOk(M, G, n);
    assert M.val(G.reps[q]) == M.val(q);
    PruneFree(M, G, pend, e, M.val(q));
    if Free(M, G, M.val(q)) { PruneListed(M, G, pend, e, Canon(G.reps, n), G.reps[q]); }
  }

  lemma PruneKeepsSettled(S: Model, G: Graph, e: nat)
    requires e in G.classes && G.classes[e].constIndex.Some? && G.classes[e].constIndex.value < |G.classes[e].nodes|
    requires Settled(S, G)
    ensures Settled(S, Pruned(G, e))
  {
    var G' := Pruned(G, e);
    forall b, m | b in G'.classes && m in G'.classes[b].parents ensures SettledAt(S, G', b, m) {
      assert SettledAt(S, G, b, m);
    }
    forall b, m, c, k | b in G'.classes && m in G'.classes[b].parents && c in G'.classes && k in G'.classes[c].parents
      ensures CalmAt(S, G', b, m, c, k)
    { assert CalmAt(S, G, b, m, c, k); }
  }

  // ----- the first loop of repair: rehash the parents -----

  /** `hashcons.erase(m); hashcons.insert_or_assign(canonical, find(p))`. */
  function Rehashed(G: Graph, m: ENode, p: nat): Graph {
    G.(hashcons := (G.hashcons - {m})[Canon(G.reps, m) := Find(G.reps, p)])
  }

  lemma RehashKeeps(M: Model, G: Graph, pend: set<nat>, e: nat, m: ENode)
    requires Inv(M, G, pend) && e in pend && e in G.classes && m in G.classes[e].parents
    ensures Inv(M, Rehashed(G, m, G.classes[e].parents[m]), pend)
  {
    var G' := Rehashed(G, m, G.classes[e].parents[m]);
    assert EntryOk(M, G, pend, e, m);
    CanonIdem(G.reps, m);
    DenoteCanon(M, G.reps, m);
    forall n | n in G'.hashcons ensures HashOk(M, G', n) {
      RehashHashOk(M, G, pend, e, m, n);
    }
    forall c, n | c in G'.classes && n in G'.classes[c].nodes ensures NodeOk(M, G', c, n) {
      assert NodeOk(M, G, c, n);
      if Free(M, G', M.val(c)) { SameListed(G, G', Canon(G.reps, n), c); }
    }
    forall b, k | b in G'.classes && k in G'.classes[b].parents ensures EntryOk(M, G', pend, b, k) {
      assert EntryOk(M, G, pend, b, k);
      CanonIdem(G.reps, k);
      RehashedElsewhere(M, G, pend, e, m, Canon(G.reps, k));
      if Free(M, G', M.val(G.classes[b].parents[k])) {
        SameListed(G, G', Canon(G.reps, k), Find(G.reps, G.classes[b].parents[k]));
      }
    }
  }

  lemma RehashHashOk(M: Model, G: Graph, pend: set<nat>, e: nat, m: ENode, n: ENode)
    requires Inv(M, G, pend) && e in G.classes && m in G.classes[e].parents
    requires n in Rehashed(G, m, G.classes[e].parents[m]).hashcons
    ensures HashOk(M, Rehashed(G, m, G.classes[e].parents[m]), n)
  {
    var p := G.classes[e].parents[m];
    var G' := Rehashed(G, m, p);
    assert EntryOk(M, G, pend, e, m);
    CanonIdem(G.reps, m);
    DenoteCanon(M, G.reps, m);
    assert M.val(G.reps[p]) == M.val(p);
    if n != Canon(G.reps, m) { assert HashOk(M, G, n); }
    if Free(M, G', M.val(G'.hashcons[n])) { SameListed(G, G', Canon(G.reps, n), Find(G.reps, G'.hashcons[n])); }
  }

  lemma SameListed(G: Graph, G': Graph, y: ENode, q: nat)
    requires G'.classes == G.classes && G'.reps == G.reps && Listed(G, y, q)
    ensures Listed(G', y, q)
  {
    forall k | 0 <= k < |y.operands| ensures HasEntry(G', y.operands[k], y, q) {
      assert HasEntry(G, y.operands[k], y, q);
      var m :| m in G.classes[y.operands[k]].parents && IsEntry(G, y.operands[k], y, q, m);
      assert IsEntry(G', y.operands[k], y, q, m);
    }
  }

  /** Rehashing a parent of e only moves hash entries of nodes over e. */
  lemma RehashedElsewhere(M: Model, G: Graph, pend: set<nat>, e: nat, m: ENode, y: ENode)
    requires Inv(M, G, pend) && e in pend && e in G.classes && m in G.classes[e].parents
    requires Canon(G.reps, y) == y
    ensures Touches(y, pend) || forall q :: Hashed(G, y, q) ==> Hashed(Rehashed(G, m, G.classes[e].parents[m]), y, q)
  {
    assert EntryOk(M, G, pend, e, m);
    var x := Canon(G.reps, m);
    var k :| 0 <= k < |x.operands| && x.operands[k] == e;
    if y == x || y == m { assert y.operands[k] in pend; }
  }

  /** The hash table leads from canonical form x to the class of one of the parents with that form. */
  ghost predicate LeadsToParent(G: Graph, P: map<ENode, nat>, reps0: seq<nat>, x: ENode) {
    x in G.hashcons && exists m :: m in P && Canon(reps0, m) == x && Find(G.reps, G.hashcons[x]) == Find(G.reps, P[m])
  }

  lemma RehashLeads(G: Graph, P: map<ENode, nat>, m: ENode, x: ENode)
    requires m in P && Partition(G.reps) && InRange(G.reps, m) && P[m] < |G.reps|
    requires x == Canon(G.reps, m) || (LeadsToParent(G, P, G.reps, x) && Canon(G.reps, x) == x)
    ensures LeadsToParent(Rehashed(G, m, P[m]), P, G.reps, x)
  {
    var G' := Rehashed(G, m, P[m]);
    if x == Canon(G.reps, m) {
      assert m in P && Find(G'.reps, G'.hashcons[x]) == Find(G'.reps, P[m]);
    } else {
      assert x != m;
      var k :| k in P && Canon(G.reps, k) == x && Find(G.reps, G.hashcons[x]) == Find(G.reps, P[k]);
      assert Find(G'.reps, G'.hashcons[x]) == Find(G'.reps, P[k]);
    }
  }

  // ----- the second loop of repair: merge congruent parents -----

  /** Two entries that mean the same: one canonical form, one class. */
  ghost predicate SameEntry(reps: seq<nat>, k: ENode, q: nat, m: ENode, p: nat) {
    Canon(reps, k) == Canon(reps, m) && Find(reps, q) == Find(reps, p)
  }

  ghost predicate Covered(reps: seq<nat>, news: map<ENode, nat>, m: ENode, p: nat) {
    exists k :: k in news && SameEntry(reps, k, news[k], m, p)
  }

  ghost predicate Sourced(reps: seq<nat>, P: map<ENode, nat>, seen: set<ENode>, k: ENode, q: nat) {
    InRange(reps, k) && q < |reps| && exists m :: m in seen && m in P && SameEntry(reps, k, q, m, P[m])
  }

  /** x is still canonical, or a class under its new form is waiting for its own repair. */
  ghost predicate Stable(reps: seq<nat>, x: ENode, pend: set<nat>, e: nat) {
    Canon(reps, x) == x || Touches(Canon(reps, x), pend - {e})
  }

  ghost predicate Tracked(G: Graph, pend: set<nat>, e: nat, P: map<ENode, nat>, reps0: seq<nat>, m: ENode) {
    var x0 := Canon(reps0, m);
    && InRange(G.reps, x0) && Canon(G.reps, x0) == Canon(G.reps, m)
    && Stable(G.reps, x0, pend, e) && LeadsToParent(G, P, reps0, x0)
  }

  /** `seen` parents of class e are covered by the new parent map `news`, whose entries all come from seen parents. */
  ghost predicate MapInv(reps: seq<nat>, pend: set<nat>, e: nat, P: map<ENode, nat>, seen: set<ENode>, news: map<ENode, nat>) {
    && seen <= P.Keys
    && (forall m {:trigger Covered(reps, news, m, P[m])} :: m in seen ==> Covered(reps, news, m, P[m]))
    && (forall k {:trigger Sourced(reps, P, seen, k, news[k])} :: k in news ==>
          Sourced(reps, P, seen, k, news[k]) && Stable(reps, k, pend, e))
  }

  ghost predicate AllTracked(G: Graph, pend: set<nat>, e: nat, P: map<ENode, nat>, reps0: seq<nat>) {
    forall m {:trigger Tracked(G, pend, e, P, reps0, m)} :: m in P ==> Tracked(G, pend, e, P, reps0, m)
  }

  /** Class e, waiting for repair, still has the parents it had. */
  ghost predicate Holding(M: Model, G: Graph, pend: set<nat>, e: nat, P: map<ENode, nat>) {
    Inv(M, G, pend) && e in pend && e in G.classes && G.classes[e].parents == P
  }

  ghost predicate AllInRange(reps: seq<nat>, P: map<ENode, nat>) {
    forall m :: m in P ==> InRange(reps, m) && P[m] < |reps|
  }

  lemma HoldingInRange(M: Model, G: Graph, pend: set<nat>, e: nat, P: map<ENode, nat>)
    requires Holding(M, G, pend, e, P)
    ensures AllInRange(G.reps, P)
  {
    forall m | m in P ensures InRange(G.reps, m) && P[m] < |G.reps| { assert EntryOk(M, G, pend, e, m); }
  }

  lemma JoinSameEntry(reps: seq<nat>, a: nat, b: nat, k: ENode, q: nat, m: ENode, p: nat)
    requires Partition(reps) && Root(reps, a) && Root(reps, b) && InRange(reps, k) && InRange(reps, m)
    requires q < |reps| && p < |reps| && SameEntry(reps, k, q, m, p)
    ensures SameEntry(UF.Joined(reps, a, b), k, q, m, p)
  {
    CanonJoin(reps, a, b, k);
    CanonJoin(reps, a, b, m);
  }

  lemma JoinStable(reps: seq<nat>, a: nat, b: nat, x: ENode, pend: set<nat>, e: nat)
    requires Partition(reps) && Root(reps, a) && Root(reps, b) && InRange(reps, x) && a != e
    requires Stable(reps, x, pend, e)
    ensures Stable(UF.Joined(reps, a, b), x, pend + {a}, e)
  {
    CanonJoin(reps, a, b, x);
    var y, y' := Canon(reps, x), Canon(UF.Joined(reps, a, b), x);
    if b in y.operands {
      var k :| 0 <= k < |y'.operands| && y'.operands[k] == a;
      assert y'.operands[k] in (pend + {a}) - {e};
    } else if y != x {
      var k :| 0 <= k < |y.operands| && y.operands[k] in pend - {e};
      assert y'.operands[k] in (pend + {a}) - {e};
    }
  }

  lemma JoinCovered(reps: seq<nat>, a: nat, b: nat, news: map<ENode, nat>, m: ENode, p: nat)
    requires Partition(reps) && Root(reps, a) && Root(reps, b) && InRange(reps, m) && p < |reps|
    requires AllInRange(reps, news) && Covered(reps, news, m, p)
    ensures Covered(UF.Joined(reps, a, b), news, m, p)
  {
    var k :| k in news && SameEntry(reps, k, news[k], m, p);
    JoinSameEntry(reps, a, b, k, news[k], m, p);
  }

  lemma JoinSourced(reps: seq<nat>, a: nat, b: nat, P: map<ENode, nat>, seen: set<ENode>, k: ENode, q: nat)
    requires Partition(reps) && Root(reps, a) && Root(reps, b)
    requires AllInRange(reps, P) && Sourced(reps, P, seen, k, q)
    ensures Sourced(UF.Joined(reps, a, b), P, seen, k, q)
  {
    var m :| m in seen && m in P && SameEntry(reps, k, q, m, P[m]);
    JoinSameEntry(reps, a, b, k, q, m, P[m]);
  }

  lemma JoinMap(reps: seq<nat>, pend: set<nat>, e: nat, P: map<ENode, nat>, seen: set<ENode>, news: map<ENode, nat>,
                a: nat, b: nat)
    requires MapInv(reps, pend, e, P, seen, news) && AllInRange(reps, P)
    requires Partition(reps) && Root(reps, a) && Root(reps, b) && a != e
    ensures MapInv(UF.Joined(reps, a, b), pend + {a}, e, P, seen, news)
  {
    var reps' := UF.Joined(reps, a, b);
    forall k | k in news ensures InRange(reps, k) && news[k] < |reps| { assert Sourced(reps, P, seen, k, news[k]); }
    forall m | m in seen ensures Covered(reps', news, m, P[m]) {
      assert Covered(reps, news, m, P[m]);
      JoinCovered(reps, a, b, news, m, P[m]);
    }
    forall k | k in news ensures Sourced(reps', P, seen, k, news[k]) && Stable(reps', k, pend + {a}, e) {
      assert Sourced(reps, P, seen, k, news[k]);
      JoinSourced(reps, a, b, P, seen, k, news[k]);
      JoinStable(reps, a, b, k, pend, e);
    }
  }

  lemma JoinTracked(M: Model, G: Graph, pend: set<nat>, e: nat, P: map<ENode, nat>, reps0: seq<nat>, a: nat, b: nat, m: ENode)
    requires Inv(M, G, pend) && CanMerge(M, G, a, b) && a != e && Tracked(G, pend, e, P, reps0, m)
    requires m in P && AllInRange(G.reps, P)
    ensures Tracked(Merged(G, a, b), pend + {a}, e, P, reps0, m)
  {
    var x0 := Canon(reps0, m);
    assert Root(G.reps, a) && Root(G.reps, b);
    CanonJoin(G.reps, a, b, x0);
    CanonJoin(G.reps, a, b, m);
    JoinStable(G.reps, a, b, x0, pend, e);
    assert HashOk(M, G, x0);
    var k :| k in P && Canon(reps0, k) == x0 && Find(G.reps, G.hashcons[x0]) == Find(G.reps, P[k]);
    assert Find(Merged(G, a, b).reps, G.hashcons[x0]) == Find(Merged(G, a, b).reps, P[k]);
  }

  /** A merge of two other classes leaves class e holding its parents. */
  lemma HoldingMerge(M: Model, G: Graph, pend: set<nat>, e: nat, P: map<ENode, nat>, reps0: seq<nat>, a: nat, b: nat)
    requires Holding(M, G, pend, e, P) && AllTracked(G, pend, e, P, reps0) && CanMerge(M, G, a, b) && a != e && b != e
    ensures Holding(M, Merged(G, a, b), pend + {a}, e, P) && AllTracked(Merged(G, a, b), pend + {a}, e, P, reps0)
  {
    MergeKeeps(M, G, pend, a, b);
    HoldingInRange(M, G, pend, e, P);
    forall m | m in P ensures Tracked(Merged(G, a, b), pend + {a}, e, P, reps0, m) {
      JoinTracked(M, G, pend, e, P, reps0, a, b, m);
    }
  }

  /** Recording parent m under key x, its canonical form when the iteration began. */
  lemma RecordMap(reps: seq<nat>, pend: set<nat>, e: nat, P: map<ENode, nat>, seen: set<ENode>, news: map<ENode, nat>,
                  m: ENode, x: ENode, q: nat)
    requires MapInv(reps, pend, e, P, seen, news) && m in P && q < |reps|
    requires InRange(reps, x) && SameEntry(reps, x, q, m, P[m]) && Stable(reps, x, pend, e)
    requires x in news ==> Find(reps, news[x]) == Find(reps, q)
    ensures MapInv(reps, pend, e, P, seen + {m}, news[x := q])
  {
    var news' := news[x := q];
    forall k | k in seen + {m} ensures Covered(reps, news', k, P[k]) {
      if k == m {
        assert SameEntry(reps, x, news'[x], m, P[m]);
      } else {
        assert Covered(reps, news, k, P[k]);
        var j :| j in news && SameEntry(reps, j, news[j], k, P[k]);
        assert SameEntry(reps, j, news'[j], k, P[k]);
      }
    }
    forall k | k in news' ensures Sourced(reps, P, seen + {m}, k, news'[k]) && Stable(reps, k, pend, e) {
      if k == x {
        assert m in seen + {m};
      } else {
        assert Sourced(reps, P, seen, k, news[k]);
        var j :| j in seen && j in P && SameEntry(reps, k, news[k], j, P[j]);
        assert j in seen + {m};
      }
    }
  }

  /** Parents m and j of class e with one canonical form have equal values in every model the graph is sound in. */
  lemma CongruentParents(M: Model, G: Graph, pend: set<nat>, e: nat, P: map<ENode, nat>, m: ENode, j: ENode)
    requires Holding(M, G, pend, e, P) && m in P && j in P && Canon(G.reps, m) == Canon(G.reps, j)
    ensures P[m] < |G.reps| && P[j] < |G.reps| && M.val(P[m]) == M.val(P[j])
  {
    assert EntryOk(M, G, pend, e, m);
    assert EntryOk(M, G, pend, e, j);
    DenoteCanon(M, G.reps, m);
    DenoteCanon(M, G.reps, j);
  }

  /** Of two parents of class e with one canonical form, neither is in e unless they are in one class. */
  lemma ParentsApart(S: Model, G: Graph, e: nat, m: ENode, j: ENode)
    requires Settled(S, G) && e in G.classes && m in G.classes[e].parents && j in G.classes[e].parents
    requires Canon(G.reps, m) == Canon(G.reps, j)
    ensures var p, q := G.classes[e].parents[m], G.classes[e].parents[j];
      S.val(p) == S.val(q)
      && (p < |G.reps| && q < |G.reps| && (G.reps[p] == e || G.reps[q] == e) ==> G.reps[p] == G.reps[q])
  {
    var p, q := G.classes[e].parents[m], G.classes[e].parents[j];
    assert SettledAt(S, G, e, m) && SettledAt(S, G, e, j);
    DenoteCanon(S, G.reps, m);
    DenoteCanon(S, G.reps, j);
    SameFormValues(S, G.reps, m, j);
    assert CalmAt(S, G, e, m, e, j) && CalmAt(S, G, e, j, e, m);
    if p < |G.reps| && q < |G.reps| { assert S.val(G.reps[p]) == S.val(p) && S.val(G.reps[q]) == S.val(q); }
  }

  lemma SameFormValues(S: Model, reps: seq<nat>, m: ENode, k: ENode)
    requires Respects(S, reps) && Canon(reps, m) == Canon(reps, k)
    ensures m.data == k.data && Values(S, m.operands) == Values(S, k.operands)
  {
    assert Values(S, m.operands) == Values(S, Canon(reps, m).operands);
    assert Values(S, k.operands) == Values(S, Canon(reps, k).operands);
  }

  // ----- the end of repair -----

  function CanonAll(reps: seq<nat>, nodes: seq<ENode>): seq<ENode> {
    seq(|nodes|, i requires 0 <= i < |nodes| => Canon(reps, nodes[i]))
  }

  /** `eclass.parents = new_parents`, and every node of the class canonicalized. */
  function Replaced(G: Graph, e: nat, news: map<ENode, nat>): Graph
    requires e in G.classes
  {
    G.(classes := G.classes[e := G.classes[e].(parents := news, nodes := CanonAll(G.reps, G.classes[e].nodes))])
  }

  /** All parents of e have been processed. */
  ghost predicate Processed(M: Model, G: Graph, pend: set<nat>, e: nat, P: map<ENode, nat>, reps0: seq<nat>, news: map<ENode, nat>) {
    Holding(M, G, pend, e, P) && AllTracked(G, pend, e, P, reps0) && MapInv(G.reps, pend, e, P, P.Keys, news)
  }

  /** A parent none of whose other operands waits for repair is in the hash table under its key in `news`. */
  lemma CleanKey(M: Model, G: Graph, pend: set<nat>, e: nat, P: map<ENode, nat>, reps0: seq<nat>, news: map<ENode, nat>, m: ENode)
    requires Processed(M, G, pend, e, P, reps0, news) && m in P && !Touches(Canon(G.reps, m), pend - {e})
    ensures var x := Canon(G.reps, m); x in news && Find(G.reps, news[x]) == Find(G.reps, P[m]) && Canon(reps0, m) == x
  {
    assert Tracked(G, pend, e, P, reps0, m);
    assert Covered(G.reps, news, m, P[m]);
    var k :| k in news && SameEntry(G.reps, k, news[k], m, P[m]);
    assert Sourced(G.reps, P, P.Keys, k, news[k]);
  }

  lemma CleanParent(M: Model, G: Graph, pend: set<nat>, e: nat, P: map<ENode, nat>, reps0: seq<nat>, news: map<ENode, nat>, m: ENode)
    requires Processed(M, G, pend, e, P, reps0, news) && m in P && !Touches(Canon(G.reps, m), pend - {e})
    ensures Hashed(G, Canon(G.reps, m), Find(G.reps, P[m]))
  {
    var x := Canon(G.reps, m);
    CleanKey(M, G, pend, e, P, reps0, news, m);
    assert Tracked(G, pend, e, P, reps0, m);
    var j :| j in P && Canon(reps0, j) == x && Find(G.reps, G.hashcons[x]) == Find(G.reps, P[j]);
    assert Tracked(G, pend, e, P, reps0, j);
    CleanKey(M, G, pend, e, P, reps0, news, j);
  }

  lemma ReplaceListed(M: Model, G: Graph, pend: set<nat>, e: nat, P: map<ENode, nat>, reps0: seq<nat>, news: map<ENode, nat>,
                      y: ENode, q: nat)
    requires Processed(M, G, pend, e, P, reps0, news) && Listed(G, y, q)
    ensures Listed(Replaced(G, e, news), y, q)
  {
    var G' := Replaced(G, e, news);
    forall k | 0 <= k < |y.operands| ensures HasEntry(G', y.operands[k], y, q) {
      var o := y.operands[k];
      assert HasEntry(G, o, y, q);
      var m :| m in G.classes[o].parents && IsEntry(G, o, y, q, m);
      if o == e {
        assert Covered(G.reps, news, m, P[m]);
        var j :| j in news && SameEntry(G.reps, j, news[j], m, P[m]);
        assert IsEntry(G', e, y, q, j);
      } else {
        assert IsEntry(G', o, y, q, m);
      }
    }
  }

  lemma ReplaceFree(M: Model, G: Graph, e: nat, news: map<ENode, nat>, v: Value)
    requires e in G.classes
    ensures Free(M, Replaced(G, e, news), v) <==> Free(M, G, v)
  {
    assert forall c :: c in G.classes ==>
      c in Replaced(G, e, news).classes && Replaced(G, e, news).classes[c].constIndex == G.classes[c].constIndex;
  }

  lemma ReplaceNodeOk(M: Model, G: Graph, pend: set<nat>, e: nat, P: map<ENode, nat>, reps0: seq<nat>, news: map<ENode, nat>,
                      c: nat, n: ENode)
    requires Processed(M, G, pend, e, P, reps0, news) && c in G.classes && n in Replaced(G, e, news).classes[c].nodes
    ensures NodeOk(M, Replaced(G, e, news), c, n)
  {
    var n0 := n;
    if c == e {
      var i :| 0 <= i < |G.classes[e].nodes| && n == Canon(G.reps, G.classes[e].nodes[i]);
      n0 := G.classes[e].nodes[i];
      assert NodeOk(M, G, e, n0);
      CanonIdem(G.reps, n0);
      DenoteCanon(M, G.reps, n0);
      if n0.operands == [] { assert n == n0; }
    }
    assert NodeOk(M, G, c, n0);
    ReplaceFree(M, G, e, news, M.val(c));
    if Free(M, G, M.val(c)) { ReplaceListed(M, G, pend, e, P, reps0, news, Canon(G.reps, n0), c); }
  }

  /** An entry that was waiting only for e is in the hash table now. */
  lemma ReplaceHashed(M: Model, G: Graph, pend: set<nat>, e: nat, P: map<ENode, nat>, reps0: seq<nat>, news: map<ENode, nat>,
                      y: ENode, q: nat)
    requires Processed(M, G, pend, e, P, reps0, news) && Listed(G, y, q) && (Touches(y, pend) || Hashed(G, y, q))
    ensures Touches(y, pend - {e}) || Hashed(G, y, q)
  {
    if Touches(y, pend) && !Touches(y, pend - {e}) {
      var k :| 0 <= k < |y.operands| && y.operands[k] in pend;
      assert y.operands[k] == e;
      assert HasEntry(G, y.operands[k], y, q);
      CleanEntry(M, G, pend, e, P, reps0, news, y, q);
    }
  }

  lemma CleanEntry(M: Model, G: Graph, pend: set<nat>, e: nat, P: map<ENode, nat>, reps0: seq<nat>, news: map<ENode, nat>,
                   y: ENode, q: nat)
    requires Processed(M, G, pend, e, P, reps0, news) && HasEntry(G, e, y, q) && !Touches(y, pend - {e})
    ensures Hashed(G, y, q)
  {
    var m :| m in G.classes[e].parents && IsEntry(G, e, y, q, m);
    CleanParent(M, G, pend, e, P, reps0, news, m);
  }

  lemma ReplaceOtherEntryOk(M: Model, G: Graph, pend: set<nat>, e: nat, P: map<ENode, nat>, reps0: seq<nat>, news: map<ENode, nat>,
                            b: nat, m: ENode)
    requires Processed(M, G, pend, e, P, reps0, news) && b in G.classes && b != e && m in G.classes[b].parents
    ensures EntryOk(M, Replaced(G, e, news), pend - {e}, b, m)
  {
    assert EntryOk(M, G, pend, b, m);
    var p := G.classes[b].parents[m];
    ReplaceFree(M, G, e, news, M.val(p));
    if Free(M, G, M.val(p)) {
      ReplaceListed(M, G, pend, e, P, reps0, news, Canon(G.reps, m), G.reps[p]);
      ReplaceHashed(M, G, pend, e, P, reps0, news, Canon(G.reps, m), G.reps[p]);
    }
  }

  lemma ReplaceOwnEntryOk(M: Model, G: Graph, pend: set<nat>, e: nat, P: map<ENode, nat>, reps0: seq<nat>, news: map<ENode, nat>,
                          k: ENode)
    requires Processed(M, G, pend, e, P, reps0, news) && k in news
    ensures EntryOk(M, Replaced(G, e, news), pend - {e}, e, k)
  {
    assert Sourced(G.reps, P, P.Keys, k, news[k]);
    var m :| m in P && SameEntry(G.reps, k, news[k], m, P[m]);
    assert EntryOk(M, G, pend, e, m);
    DenoteCanon(M, G.reps, m);
    DenoteCanon(M, G.reps, k);
    assert M.val(G.reps[P[m]]) == M.val(P[m]) && M.val(G.reps[news[k]]) == M.val(news[k]);
    ReplaceFree(M, G, e, news, M.val(P[m]));
    if Free(M, G, M.val(P[m])) {
      ReplaceListed(M, G, pend, e, P, reps0, news, Canon(G.reps, m), G.reps[P[m]]);
      ReplaceHashed(M, G, pend, e, P, reps0, news, Canon(G.reps, m), G.reps[P[m]]);
    }
  }

  /** After its repair, class e no longer waits. */
  lemma RepairDone(M: Model, G: Graph, pend: set<nat>, e: nat, P: map<ENode, nat>, reps0: seq<nat>, news: map<ENode, nat>)
    requires Processed(M, G, pend, e, P, reps0, news)
    ensures Inv(M, Replaced(G, e, news), pend - {e})
  {
    var G' := Replaced(G, e, news);
    forall c | c in G'.classes ensures ClassOk(M, c, G'.classes[c]) { assert ClassOk(M, c, G.classes[c]); }
    forall c, n | c in G'.classes && n in G'.classes[c].nodes ensures NodeOk(M, G', c, n) {
      ReplaceNodeOk(M, G, pend, e, P, reps0, news, c, n);
    }
    forall b, m | b in G'.classes && m in G'.classes[b].parents
      ensures EntryOk(M, G', pend - {e}, b, m)
    {
      if b == e { ReplaceOwnEntryOk(M, G, pend, e, P, reps0, news, m); }
      else { ReplaceOtherEntryOk(M, G, pend, e, P, reps0, news, b, m); }
    }
    forall n | n in G'.hashcons ensures HashOk(M, G', n) { ReplaceHashOk(M, G, pend, e, P, reps0, news, n); }
  }

  lemma ReplaceHashOk(M: Model, G: Graph, pend: set<nat>, e: nat, P: map<ENode, nat>, reps0: seq<nat>, news: map<ENode, nat>, n: ENode)
    requires Processed(M, G, pend, e, P, reps0, news) && n in G.hashcons
    ensures HashOk(M, Replaced(G, e, news), n)
  {
    var q := G.hashcons[n];
    assert HashOk(M, G, n);
    ReplaceFree(M, G, e, news, M.val(q));
    if Free(M, G, M.val(q)) { ReplaceListed(M, G, pend, e, P, reps0, news, Canon(G.reps, n), G.reps[q]); }
  }

  lemma ReplaceKeepsSettled(S: Model, G: Graph, pend: set<nat>, e: nat, news: map<ENode, nat>)
    requires Settled(S, G) && e in G.classes && AllInRange(G.reps, G.classes[e].parents)
    requires MapInv(G.reps, pend, e, G.classes[e].parents, G.classes[e].parents.Keys, news)
    ensures Settled(S, Replaced(G, e, news))
  {
    var G' := Replaced(G, e, news);
    forall b, m | b in G'.classes && m in G'.classes[b].parents ensures SettledAt(S, G', b, m) {
      var o := ReplacedOrigin(S, G, pend, e, news, b, m);
      assert SettledAt(S, G, b, o);
    }
    forall b, m, c, k | b in G'.classes && m in G'.classes[b].parents && c in G'.classes && k in G'.classes[c].parents
      ensures CalmAt(S, G', b, m, c, k)
    {
      var o := ReplacedOrigin(S, G, pend, e, news, b, m);
      var o' := ReplacedOrigin(S, G, pend, e, news, c, k);
      assert CalmAt(S, G, b, o, c, o');
    }
  }

  /** Where an entry of the replaced graph comes from. */
  lemma ReplacedOrigin(S: Model, G: Graph, pend: set<nat>, e: nat, news: map<ENode, nat>, b: nat, k: ENode) returns (m: ENode)
    requires Respects(S, G.reps) && e in G.classes && AllInRange(G.reps, G.classes[e].parents)
    requires MapInv(G.reps, pend, e, G.classes[e].parents, G.classes[e].parents.Keys, news)
    requires b in G.classes && k in Replaced(G, e, news).classes[b].parents
    ensures m in G.classes[b].parents && m.data == k.data && Values(S, m.operands) == Values(S, k.operands)
    ensures var p, q := G.classes[b].parents[m], Replaced(G, e, news).classes[b].parents[k];
      Find(G.reps, p) == Find(G.reps, q) && S.val(p) == S.val(q)
  {
    m := k;
    if b == e {
      var P := G.classes[e].parents;
      assert Sourced(G.reps, P, P.Keys, k, news[k]);
      m :| m in P && SameEntry(G.reps, k, news[k], m, P[m]);
      SameFormValues(S, G.reps, k, m);
      assert S.val(G.reps[P[m]]) == S.val(P[m]) && S.val(G.reps[news[k]]) == S.val(news[k]);
    }
  }
}
