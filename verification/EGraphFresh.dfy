/**
 Graphs made by `add` alone, in closed form: the starting points of the runs in EGraphCases and
 EGraphPruning.  Every id is its own class, and `rebuild` finds nothing to do.
 */
module EGraphFresh {
  import opened EGraphModel
  import opened Options
  import opened EGraphSteps
  import opened EGraphRepair

  /** Nodes in the order they are added: no duplicates, and operands come first. */
  ghost predicate Fresh(xs: seq<ENode>) {
    forall i {:trigger FreshAt(xs, i)} :: 0 <= i < |xs| ==> FreshAt(xs, i)
  }

  ghost predicate FreshAt(xs: seq<ENode>, i: nat)
    requires i < |xs|
  {
    && (forall o :: o in xs[i].operands ==> o < i) && (IsConst(xs[i].data) ==> xs[i].operands == [])
    && forall j :: 0 <= j < i ==> xs[j] != xs[i]
  }

  function Identity(n: nat): seq<nat> {
    seq(n, i => i)
  }

  function HashOf(xs: seq<ENode>): map<ENode, nat> {
    if xs == [] then map[] else HashOf(xs[..|xs| - 1])[xs[|xs| - 1] := |xs| - 1]
  }

  /** The parent list of class c. */
  function ParentsOf(xs: seq<ENode>, c: nat): map<ENode, nat> {
    if xs == [] then map[]
    else if c in xs[|xs| - 1].operands then ParentsOf(xs[..|xs| - 1], c)[xs[|xs| - 1] := |xs| - 1]
    else ParentsOf(xs[..|xs| - 1], c)
  }

  function FreshClass(xs: seq<ENode>, c: nat): EClass
    requires c < |xs|
  {
    EClass([xs[c]], ParentsOf(xs, c), NO_CACHE, if IsConst(xs[c].data) then Some(0) else None)
  }

  function FreshGraph(xs: seq<ENode>): Graph {
    Graph(Identity(|xs|), map c: nat | c < |xs| :: FreshClass(xs, c), HashOf(xs))
  }

  lemma FreshInit(xs: seq<ENode>)
    requires Fresh(xs) && xs != []
    ensures Fresh(xs[..|xs| - 1]) && FreshAt(xs, |xs| - 1)
  {
    var ys := xs[..|xs| - 1];
    assert FreshAt(xs, |xs| - 1);
    forall i | 0 <= i < |ys| ensures FreshAt(ys, i) { assert FreshAt(xs, i); }
  }

  lemma {:induction false} HashIs(xs: seq<ENode>)
    requires Fresh(xs)
    ensures forall j :: 0 <= j < |xs| ==> xs[j] in HashOf(xs) && HashOf(xs)[xs[j]] == j
    ensures forall n :: n in HashOf(xs) ==> HashOf(xs)[n] < |xs| && xs[HashOf(xs)[n]] == n
  {
    if xs != [] {
      FreshInit(xs);
      HashIs(xs[..|xs| - 1]);
    }
  }

  lemma {:induction false} ParentsAre(xs: seq<ENode>, c: nat)
    requires Fresh(xs)
    ensures forall j :: 0 <= j < |xs| && c in xs[j].operands ==> xs[j] in ParentsOf(xs, c) && ParentsOf(xs, c)[xs[j]] == j
    ensures forall m :: m in ParentsOf(xs, c) ==> c < ParentsOf(xs, c)[m] < |xs| && xs[ParentsOf(xs, c)[m]] == m && c in m.operands
  {
    if xs != [] {
      FreshInit(xs);
      ParentsAre(xs[..|xs| - 1], c);
    }
  }

  lemma ParentsExactly(xs: seq<ENode>, c: nat, P: map<ENode, nat>)
    requires Fresh(xs) && forall m :: m in P ==> P[m] < |xs| && xs[P[m]] == m && c in m.operands
    requires forall j :: 0 <= j < |xs| && c in xs[j].operands ==> xs[j] in P
    ensures ParentsOf(xs, c) == P
  {
    ParentsAre(xs, c);
  }

  /** Every node is canonical. */
  lemma FreshCanon(n: nat, m: ENode)
    ensures Canon(Identity(n), m) == m
  {
    assert Canon(Identity(n), m).operands == m.operands;
  }

  lemma NoParents(xs: seq<ENode>)
    requires Fresh(xs)
    ensures ParentsOf(xs, |xs|) == map[]
  {
    ParentsAre(xs, |xs|);
    assert forall m :: m !in ParentsOf(xs, |xs|);
  }

  /** The closed form is what adding the nodes one by one gives, from the empty graph on. */
  lemma FreshReached(xs: seq<ENode>, x: ENode)
    requires Fresh(xs + [x])
    ensures FreshGraph([]) == Graph([], map[], map[])
    ensures var G := FreshGraph(xs);
      && InRange(G.reps, x) && Canon(G.reps, x) == x && x !in G.hashcons
      && Added(G, x) == FreshGraph(xs + [x])
  {
    var G, ys := FreshGraph(xs), xs + [x];
    assert ys[..|xs|] == xs && ys[|xs|] == x;
    FreshNew(xs, x);
    FreshCanon(|xs|, x);
    FreshClasses(xs, x);
    assert Added(G, x).reps == Identity(|ys|);
  }

  lemma FreshClasses(xs: seq<ENode>, x: ENode)
    requires Fresh(xs + [x])
    ensures Added(FreshGraph(xs), x).classes == FreshGraph(xs + [x]).classes
  {
    var G, G' := Added(FreshGraph(xs), x), FreshGraph(xs + [x]);
    forall c: nat | c <= |xs| ensures c in G.classes && G.classes[c] == G'.classes[c] { FreshAdd(xs, x, c); }
  }

  lemma FreshNew(xs: seq<ENode>, x: ENode)
    requires Fresh(xs + [x])
    ensures x !in HashOf(xs) && InRange(Identity(|xs|), x) && forall c :: x !in ParentsOf(xs, c)
  {
    var ys := xs + [x];
    FreshPrefix(xs, x);
    HashIs(xs);
    assert FreshAt(ys, |xs|) && ys[|xs|] == x;
    forall j | 0 <= j < |xs| ensures xs[j] != x { assert ys[j] == xs[j]; }
    forall i | 0 <= i < |x.operands| ensures x.operands[i] < |xs| { assert x.operands[i] in x.operands; }
    forall c ensures x !in ParentsOf(xs, c) { ParentsAre(xs, c); }
  }

  lemma FreshPrefix(xs: seq<ENode>, x: ENode)
    requires Fresh(xs + [x])
    ensures Fresh(xs)
  {
    FreshInit(xs + [x]);
    assert (xs + [x])[..|xs|] == xs;
  }

  lemma FreshAdd(xs: seq<ENode>, x: ENode, c: nat)
    requires Fresh(xs + [x]) && c <= |xs|
    ensures Added(FreshGraph(xs), x).classes[c] == FreshClass(xs + [x], c)
  {
    var ys := xs + [x];
    assert ys[..|xs|] == xs && ys[|xs|] == x;
    FreshPrefix(xs, x);
    FreshNew(xs, x);
    if c == |xs| { NoParents(xs); }
  }

  /** The graph is sound in every model of its nodes, with nothing to repair. */
  lemma FreshInv(M: Model, xs: seq<ENode>)
    requires Fresh(xs) && forall i :: 0 <= i < |xs| ==> M.val(i) == Denote(M, xs[i])
    ensures Inv(M, FreshGraph(xs), {}) && Keyed(M, FreshGraph(xs))
  {
    var G := FreshGraph(xs);
    HashIs(xs);
    forall c, n | c in G.classes && n in G.classes[c].nodes ensures NodeOk(M, G, c, n) { FreshNode(M, xs, c); }
    forall b, m | b in G.classes && m in G.classes[b].parents ensures EntryOk(M, G, {}, b, m) && KeyOk(M, G, b, m) {
      ParentsAre(xs, b);
      FreshNode(M, xs, G.classes[b].parents[m]);
    }
    forall n | n in G.hashcons ensures HashOk(M, G, n) { FreshNode(M, xs, G.hashcons[n]); }
  }

  lemma FreshNode(M: Model, xs: seq<ENode>, j: nat)
    requires Fresh(xs) && j < |xs| && M.val(j) == Denote(M, xs[j])
    ensures var G := FreshGraph(xs); NodeOk(M, G, j, xs[j]) && Listed(G, xs[j], j) && Hashed(G, xs[j], j)
    ensures Canon(Identity(|xs|), xs[j]) == xs[j]
  {
    var G, x := FreshGraph(xs), xs[j];
    HashIs(xs);
    assert FreshAt(xs, j);
    FreshCanon(|xs|, x);
    forall k | 0 <= k < |x.operands| ensures HasEntry(G, x.operands[k], x, j) {
      ParentsAre(xs, x.operands[k]);
      assert x.operands[k] in x.operands;
      assert IsEntry(G, x.operands[k], x, j, x);
    }
  }

  /** `rebuild` changes nothing: no class is pruned, and parents and nodes are rehashed and replaced as they were. */
  lemma FreshRepaired(xs: seq<ENode>, e: nat)
    requires Fresh(xs) && e < |xs|
    ensures var G := FreshGraph(xs);
      && |G.classes[e].nodes| == 1
      && (forall m :: m in G.classes[e].parents ==> Canon(G.reps, m) == m && Rehashed(G, m, G.classes[e].parents[m]) == G)
      && Replaced(G, e, G.classes[e].parents) == G
  {
    var G := FreshGraph(xs);
    ParentsAre(xs, e);
    HashIs(xs);
    forall m | m in G.classes[e].parents ensures Canon(G.reps, m) == m && Rehashed(G, m, G.classes[e].parents[m]) == G {
      FreshCanon(|xs|, m);
      assert (G.hashcons - {m})[m := G.hashcons[m]] == G.hashcons;
    }
    FreshCanon(|xs|, xs[e]);
    assert CanonAll(G.reps, G.classes[e].nodes) == G.classes[e].nodes;
    assert Replaced(G, e, G.classes[e].parents).classes == G.classes;
  }

  // ----- merges -----

  /** `merge(x, y)`. */
  function MergeIds(G: Graph, x: nat, y: nat): Graph {
    var a, b := Find(G.reps, x), Find(G.reps, y);
    if a != b && a in G.classes && b in G.classes then Merged(G, a, b) else G
  }

  lemma MergeIdsKeeps(M: Model, G: Graph, pend: set<nat>, x: nat, y: nat)
    requires Inv(M, G, pend) && x < |G.reps| && y < |G.reps| && M.val(x) == M.val(y)
    ensures Inv(M, MergeIds(G, x, y), pend + {G.reps[x]})
  {
    var a, b := G.reps[x], G.reps[y];
    assert Root(G.reps, a) && Root(G.reps, b) && M.val(a) == M.val(x) && M.val(b) == M.val(y);
    if a != b { MergeKeeps(M, G, pend, a, b); } else { InvMono(M, G, pend, pend + {a}); }
  }
}
