/**
 What `rebuild` computes: congruence closure.  It merges nothing that congruence does not force, and
 afterwards its partition is congruent wherever no constant class has the value; without constants it
 is exactly the finest congruence of the graph it was called on.
 */
module EGraphClosure {
  import UF = UnionFind
  import opened EGraphModel
  import opened Options
  import opened EGraphSteps
  import opened EGraphTangles
  import opened EGraphGrowth

  /** Only ids that every congruence of G takes to be equal are in one class. */
  ghost predicate OnlyForced(G: Graph, reps: seq<nat>) {
    forall i, j :: 0 <= i < |reps| && 0 <= j < |reps| && reps[i] == reps[j] ==> Forced(G, i, j)
  }

  ghost predicate ClosedAt(M: Model, G: Graph, reps: seq<nat>, b: nat, m: ENode, c: nat, k: ENode)
    requires b in G.classes && m in G.classes[b].parents && c in G.classes && k in G.classes[c].parents
  {
    var p, q := G.classes[b].parents[m], G.classes[c].parents[k];
    Canon(reps, m) == Canon(reps, k) && Free(M, G, M.val(p)) && Free(M, G, M.val(q)) ==> Find(reps, p) == Find(reps, q)
  }

  /** Parents listed in G with one canonical form are in one class, unless their value is a constant's. */
  ghost predicate Closed(M: Model, G: Graph, reps: seq<nat>) {
    forall b, m, c, k {:trigger ClosedAt(M, G, reps, b, m, c, k)} ::
      b in G.classes && m in G.classes[b].parents && c in G.classes && k in G.classes[c].parents ==> ClosedAt(M, G, reps, b, m, c, k)
  }

  /** Every node that G holds, and every one its hash table knows, is found, unless its value is a constant's. */
  ghost predicate FindsAll(M: Model, G: Graph, G': Graph) {
    && (forall c, n {:trigger Finds(M, G, G', n, c)} :: c in G.classes && n in G.classes[c].nodes ==> Finds(M, G, G', n, c))
    && forall n {:trigger Finds(M, G, G', n, G.hashcons[n])} :: n in G.hashcons ==> Finds(M, G, G', n, G.hashcons[n])
  }

  ghost predicate Finds(M: Model, G: Graph, G': Graph, n: ENode, c: nat) {
    n.operands == [] || Free(M, G, M.val(c)) ==> Hashed(G', Canon(G'.reps, n), Find(G'.reps, c))
  }

  // ----- soundness -----

  /** What a settled interpretation of G' takes to be equal includes its classes. */
  lemma SettledForces(S: Model, G: Graph, G': Graph)
    requires Settled(S, G') && forall i: nat, j: nat :: S.val(i) == S.val(j) ==> Forced(G, i, j)
    ensures OnlyForced(G, G'.reps)
  {
    forall i, j | 0 <= i < |G'.reps| && 0 <= j < |G'.reps| && G'.reps[i] == G'.reps[j] ensures Forced(G, i, j) {
      assert S.val(G'.reps[i]) == S.val(i) && S.val(G'.reps[j]) == S.val(j);
    }
  }

  // ----- completeness -----

  /** With nothing left to repair, a listed node is in the hash table. */
  lemma ListedHashed(M: Model, G: Graph, x: ENode, q: nat)
    requires Inv(M, G, {}) && Listed(G, x, q) && x.operands != [] && Root(G.reps, q) && Free(M, G, M.val(q))
    ensures Hashed(G, x, q)
  {
    var o := x.operands[0];
    assert HasEntry(G, o, x, q);
    var m :| m in G.classes[o].parents && IsEntry(G, o, x, q, m);
    assert EntryOk(M, G, {}, o, m);
    assert M.val(G.reps[G.classes[o].parents[m]]) == M.val(G.classes[o].parents[m]);
  }

  /** What was listed before is found after. */
  lemma GrownFinds(M: Model, G: Graph, G': Graph, n: ENode, q: nat)
    requires Shape(M, G) && Inv(M, G', {}) && Grown(M, G, G') && InRange(G.reps, n) && n.operands != []
    requires Root(G.reps, q) && Free(M, G, M.val(q)) && Listed(G, Canon(G.reps, n), q)
    ensures Hashed(G', Canon(G'.reps, n), Find(G'.reps, q))
  {
    assert StaysListed(M, G, G', n, q);
    var q' := G'.reps[q];
    assert Root(G'.reps, q') && M.val(q') == M.val(q);
    assert |Canon(G'.reps, n).operands| == |n.operands|;
    ListedHashed(M, G', Canon(G'.reps, n), q');
  }

  lemma FindsNode(M: Model, G: Graph, G': Graph, pend: set<nat>, c: nat, n: ENode)
    requires Inv(M, G, pend) && Inv(M, G', {}) && Grown(M, G, G') && c in G.classes && n in G.classes[c].nodes
    ensures Finds(M, G, G', n, c)
  {
    assert NodeOk(M, G, c, n) && Root(G.reps, c);
    if n.operands == [] {
      LeafFound(M, G, G', pend, n);
      FindCoarser(G.reps, G'.reps, G.hashcons[n]);
    } else if Free(M, G, M.val(c)) {
      GrownFinds(M, G, G', n, c);
    }
  }

  lemma LeafFound(M: Model, G: Graph, G': Graph, pend: set<nat>, n: ENode)
    requires Grown(M, G, G') && n.operands == [] && n in G.hashcons
    ensures Hashed(G', Canon(G'.reps, n), Find(G'.reps, G.hashcons[n]))
  {
    assert StaysHashed(G, G', n);
    assert Canon(G'.reps, n) == n;
  }

  lemma FindsHashed(M: Model, G: Graph, G': Graph, pend: set<nat>, n: ENode)
    requires Inv(M, G, pend) && Inv(M, G', {}) && Grown(M, G, G') && n in G.hashcons
    ensures Finds(M, G, G', n, G.hashcons[n])
  {
    var q := G.hashcons[n];
    assert HashOk(M, G, n);
    if n.operands == [] {
      LeafFound(M, G, G', pend, n);
    } else if Free(M, G, M.val(q)) {
      assert M.val(G.reps[q]) == M.val(q);
      GrownFinds(M, G, G', n, G.reps[q]);
      FindCoarser(G.reps, G'.reps, q);
    }
  }

  lemma RebuiltFindsAll(M: Model, G: Graph, G': Graph, pend: set<nat>)
    requires Inv(M, G, pend) && Inv(M, G', {}) && Grown(M, G, G')
    ensures FindsAll(M, G, G')
  {
    forall c, n | c in G.classes && n in G.classes[c].nodes ensures Finds(M, G, G', n, c) { FindsNode(M, G, G', pend, c, n); }
    forall n | n in G.hashcons ensures Finds(M, G, G', n, G.hashcons[n]) { FindsHashed(M, G, G', pend, n); }
  }

  lemma FindsEntry(M: Model, G: Graph, G': Graph, pend: set<nat>, b: nat, m: ENode)
    requires Inv(M, G, pend) && Inv(M, G', {}) && Grown(M, G, G') && b in G.classes && m in G.classes[b].parents
    requires Free(M, G, M.val(G.classes[b].parents[m]))
    ensures Hashed(G', Canon(G'.reps, m), Find(G'.reps, G.classes[b].parents[m]))
  {
    var p := G.classes[b].parents[m];
    assert EntryOk(M, G, pend, b, m);
    assert M.val(G.reps[p]) == M.val(p);
    assert |Canon(G.reps, m).operands| == |m.operands|;
    GrownFinds(M, G, G', m, G.reps[p]);
    FindCoarser(G.reps, G'.reps, p);
  }

  lemma RebuiltClosed(M: Model, G: Graph, G': Graph, pend: set<nat>)
    requires Inv(M, G, pend) && Inv(M, G', {}) && Grown(M, G, G')
    ensures Closed(M, G, G'.reps)
  {
    forall b, m, c, k | b in G.classes && m in G.classes[b].parents && c in G.classes && k in G.classes[c].parents
      ensures ClosedAt(M, G, G'.reps, b, m, c, k)
    {
      var p, q := G.classes[b].parents[m], G.classes[c].parents[k];
      if Canon(G'.reps, m) == Canon(G'.reps, k) && Free(M, G, M.val(p)) && Free(M, G, M.val(q)) {
        FindsEntry(M, G, G', pend, b, m);
        FindsEntry(M, G, G', pend, c, k);
      }
    }
  }

  // ----- exactness -----

  ghost predicate NoConstants(G: Graph) {
    forall c :: c in G.classes ==> G.classes[c].constIndex.None?
  }

  /** Without constants, a partition that is closed and merges only what is forced is the finest congruence. */
  lemma ClosureExactly(M: Model, G: Graph, reps: seq<nat>)
    requires NoConstants(G) && Partition(G.reps) && Coarser(G.reps, reps) && Closed(M, G, reps) && OnlyForced(G, reps)
    ensures forall i, j :: 0 <= i < |reps| && 0 <= j < |reps| ==> (reps[i] == reps[j] <==> Finest(G)(i) == Finest(G)(j))
  {
    var R: Labels := i => Find(reps, i);
    forall b, m, c, k | b in G.classes && m in G.classes[b].parents && c in G.classes && k in G.classes[c].parents
      ensures AgreeAt(R, G, b, m, c, k)
    {
      assert ClosedAt(M, G, reps, b, m, c, k);
      if SameForm(R, m, k) { assert Canon(reps, m).operands == Canon(reps, k).operands; }
    }
    assert Congruence(R, G);
    forall i, j | 0 <= i < |reps| && 0 <= j < |reps| ensures reps[i] == reps[j] <==> Finest(G)(i) == Finest(G)(j) {
      FinestForced(G, i, j);
      if Forced(G, i, j) { assert R(i) == R(j); }
    }
  }

  // ----- the values of constants, as labels -----

  /** M tells apart whatever congruence does not force to be equal. */
  ghost predicate Separating(M: Model, G: Graph) {
    forall i, j :: 0 <= i < |G.reps| && 0 <= j < |G.reps| && M.val(i) == M.val(j) ==> Forced(G, i, j)
  }

  /** Ids forced to be equal have one value in every model. */
  lemma ForcedEqual(M: Model, G: Graph, pend: set<nat>, i: nat, j: nat)
    requires Inv(M, G, pend) && Forced(G, i, j)
    ensures M.val(i) == M.val(j)
  {
    forall b, m | b in G.classes && m in G.classes[b].parents ensures SettledAt(M, G, b, m) { assert EntryOk(M, G, pend, b, m); }
    ValuesAgree(M, G);
    FirstDecides(M, i, j);
  }

  /** In a separating model, a value is a constant's exactly when the finest congruence gives a constant class its label. */
  lemma FreeByLabel(M: Model, G: Graph, pend: set<nat>, c: nat)
    requires Inv(M, G, pend) && Separating(M, G) && c < |G.reps|
    ensures Free(M, G, M.val(c)) <==>
      forall d :: d in G.classes && G.classes[d].constIndex.Some? ==> Finest(G)(d) != Finest(G)(c)
  {
    forall d | d in G.classes ensures M.val(d) == M.val(c) <==> Finest(G)(d) == Finest(G)(c) {
      assert Root(G.reps, d);
      FinestForced(G, d, c);
      if Forced(G, d, c) { ForcedEqual(M, G, pend, d, c); }
    }
  }

  /**
   So whether a node is found after `rebuild` can be told from the graph G before, without any model:
   it is, unless the finest congruence gives its class the label of a constant class.
   */
  lemma FoundByLabel(M: Model, G: Graph, G': Graph, pend: set<nat>, c: nat, n: ENode)
    requires Inv(M, G, pend) && Separating(M, G) && FindsAll(M, G, G') && c in G.classes && n in G.classes[c].nodes
    requires forall d :: d in G.classes && G.classes[d].constIndex.Some? ==> Finest(G)(d) != Finest(G)(c)
    ensures Hashed(G', Canon(G'.reps, n), Find(G'.reps, c))
  {
    assert Root(G.reps, c);
    FreeByLabel(M, G, pend, c);
    assert Finds(M, G, G', n, c);
  }
}
