/**
 Every graph that `add` and `merge` build has a model that tells apart whatever congruence does not
 force to be equal: the values are the labels of the finest congruence.
 */
module EGraphSeparate {
  import opened EGraphModel
  import opened Options
  import opened EGraphSteps
  import opened EGraphTangles
  import opened EGraphGrowth
  import opened EGraphClosure
  import opened EGraphFresh

  type Pair = (nat, nat)

  /** The merges, in order. */
  function MergeAll(G: Graph, pairs: seq<Pair>): Graph {
    if pairs == [] then G
    else MergeIds(MergeAll(G, pairs[..|pairs| - 1]), pairs[|pairs| - 1].0, pairs[|pairs| - 1].1)
  }

  /** Ids in range and of one type, as `EClass::merge` asserts. */
  ghost predicate PairOk(xs: seq<ENode>, p: Pair) {
    p.0 < |xs| && p.1 < |xs| && xs[p.0].data.ty == xs[p.1].data.ty
  }

  ghost predicate PairsOk(xs: seq<ENode>, pairs: seq<Pair>) {
    forall k {:trigger pairs[k]} :: 0 <= k < |pairs| ==> PairOk(xs, pairs[k])
  }

  // ----- what the merges keep -----

  /** Node i of xs is a parent of the class of its operand o. */
  ghost predicate Entered(xs: seq<ENode>, G: Graph, i: nat, o: nat)
    requires i < |xs|
  {
    var c := Find(G.reps, o);
    c in G.classes && xs[i] in G.classes[c].parents && G.classes[c].parents[xs[i]] == i
  }

  ghost predicate Named(xs: seq<ENode>, G: Graph, b: nat, m: ENode)
    requires b in G.classes && m in G.classes[b].parents
  {
    var p := G.classes[b].parents[m];
    p < |xs| && xs[p] == m
  }

  /** The parent lists hold the nodes of xs under their ids, and nothing is dropped. */
  ghost predicate Entries(xs: seq<ENode>, G: Graph) {
    && |G.reps| == |xs| && Partition(G.reps) && (forall i :: i in G.classes <==> Root(G.reps, i))
    && (forall i, o {:trigger Entered(xs, G, i, o)} :: 0 <= i < |xs| && o in xs[i].operands ==> Entered(xs, G, i, o))
    && (forall b, m {:trigger Named(xs, G, b, m)} :: b in G.classes && m in G.classes[b].parents ==> Named(xs, G, b, m))
  }

  lemma FreshEntries(xs: seq<ENode>)
    requires Fresh(xs)
    ensures Entries(xs, FreshGraph(xs))
  {
    var G := FreshGraph(xs);
    forall i, o | 0 <= i < |xs| && o in xs[i].operands ensures Entered(xs, G, i, o) {
      assert FreshAt(xs, i);
      ParentsAre(xs, o);
    }
    forall b, m | b in G.classes && m in G.classes[b].parents ensures Named(xs, G, b, m) { ParentsAre(xs, b); }
  }

  lemma MergeEntries(xs: seq<ENode>, G: Graph, a: nat, b: nat)
    requires Entries(xs, G) && Fresh(xs) && a in G.classes && b in G.classes && a != b
    ensures Entries(xs, Merged(G, a, b)) && Coarser(G.reps, Merged(G, a, b).reps)
  {
    var G' := Merged(G, a, b);
    assert Root(G.reps, a) && Root(G.reps, b);
    forall i, o | 0 <= i < |xs| && o in xs[i].operands ensures Entered(xs, G', i, o) {
      assert Entered(xs, G, i, o) && FreshAt(xs, i);
      if xs[i] in G.classes[a].parents { assert Named(xs, G, a, xs[i]); SameNode(xs, G.classes[a].parents[xs[i]], i); }
    }
    forall c, m | c in G'.classes && m in G'.classes[c].parents ensures Named(xs, G', c, m) {
      var o := MergeOrigin(G, a, b, c, m);
      assert Named(xs, G, o, m);
    }
  }

  lemma SameNode(xs: seq<ENode>, i: nat, j: nat)
    requires Fresh(xs) && i < |xs| && j < |xs| && xs[i] == xs[j]
    ensures i == j
  {
    assert FreshAt(xs, i) && FreshAt(xs, j);
  }

  lemma {:induction false} AllEntries(xs: seq<ENode>, pairs: seq<Pair>)
    requires Fresh(xs) && PairsOk(xs, pairs)
    ensures var G := MergeAll(FreshGraph(xs), pairs);
      Entries(xs, G) && forall k {:trigger pairs[k]} :: 0 <= k < |pairs| ==> Find(G.reps, pairs[k].0) == Find(G.reps, pairs[k].1)
  {
    if pairs == [] {
      FreshEntries(xs);
    } else {
      var init, last := pairs[..|pairs| - 1], pairs[|pairs| - 1];
      AllEntries(xs, init);
      var G := MergeAll(FreshGraph(xs), init);
      assert PairOk(xs, last);
      JoinStep(xs, G, last);
      forall k | 0 <= k < |pairs| ensures var r := MergeIds(G, last.0, last.1).reps; Find(r, pairs[k].0) == Find(r, pairs[k].1) {
        if k < |init| { assert pairs[k] == init[k] && PairOk(xs, pairs[k]); }
      }
    }
  }

  lemma JoinStep(xs: seq<ENode>, G: Graph, p: Pair)
    requires Entries(xs, G) && Fresh(xs) && PairOk(xs, p)
    ensures var G' := MergeIds(G, p.0, p.1); Entries(xs, G') && Coarser(G.reps, G'.reps) && G'.reps[p.0] == G'.reps[p.1]
  {
    var a, b := G.reps[p.0], G.reps[p.1];
    assert Root(G.reps, a) && Root(G.reps, b);
    if a != b { MergeEntries(xs, G, a, b); }
  }

  // ----- the model -----

  function TypeOf(xs: seq<ENode>, i: nat): nat {
    if i < |xs| then xs[i].data.ty else 0
  }

  ghost function Arguments(xs: seq<ENode>, F: Labels, ids: seq<nat>): seq<Value> {
    seq(|ids|, k requires 0 <= k < |ids| => Value(TypeOf(xs, ids[k]), F(ids[k])))
  }

  ghost predicate Stands(xs: seq<ENode>, F: Labels, d: OpData, args: seq<Value>, i: nat) {
    i < |xs| && xs[i].data == d && Arguments(xs, F, xs[i].operands) == args
  }

  ghost function Chosen(xs: seq<ENode>, F: Labels, d: OpData, args: seq<Value>): (i: nat)
    requires exists i :: Stands(xs, F, d, args, i)
    ensures Stands(xs, F, d, args, i)
  {
    var i :| Stands(xs, F, d, args, i);
    i
  }

  ghost function Operation(xs: seq<ENode>, F: Labels, d: OpData, args: seq<Value>): int {
    if exists i :: Stands(xs, F, d, args, i) then F(Chosen(xs, F, d, args)) else 0
  }

  /** The value of an id is its type and its label. */
  ghost function LabelModel(xs: seq<ENode>, F: Labels): Model {
    Model((d: OpData, args: seq<Value>) => Operation(xs, F, d, args), (i: nat) => Value(TypeOf(xs, i), F(i)))
  }

  lemma LabelModelDenotes(xs: seq<ENode>, F: Labels, G: Graph, i: nat)
    requires Fresh(xs) && Entries(xs, G) && Congruence(F, G) && i < |xs|
    ensures LabelModel(xs, F).val(i) == Denote(LabelModel(xs, F), xs[i])
  {
    var M, args := LabelModel(xs, F), Arguments(xs, F, xs[i].operands);
    assert Values(M, xs[i].operands) == args;
    assert Stands(xs, F, xs[i].data, args, i);
    var j := Chosen(xs, F, xs[i].data, args);
    SameLabel(xs, F, G, i, j);
  }

  lemma SameLabel(xs: seq<ENode>, F: Labels, G: Graph, i: nat, j: nat)
    requires Fresh(xs) && Entries(xs, G) && Congruence(F, G) && i < |xs| && j < |xs| && xs[i].data == xs[j].data
    requires Arguments(xs, F, xs[i].operands) == Arguments(xs, F, xs[j].operands)
    ensures F(i) == F(j)
  {
    var m, k := xs[i], xs[j];
    assert |m.operands| == |Arguments(xs, F, m.operands)| == |k.operands|;
    forall o | 0 <= o < |m.operands| ensures F(m.operands[o]) == F(k.operands[o]) {
      assert Arguments(xs, F, m.operands)[o] == Arguments(xs, F, k.operands)[o];
    }
    if m.operands == [] {
      SameNode(xs, i, j);
    } else {
      assert m.operands[0] in m.operands && k.operands[0] in k.operands;
      assert Entered(xs, G, i, m.operands[0]) && Entered(xs, G, j, k.operands[0]);
      assert AgreeAt(F, G, Find(G.reps, m.operands[0]), m, Find(G.reps, k.operands[0]), k);
    }
  }

  /** The classes that the merges put on the worklist. */
  ghost function Heads(reps: seq<nat>, pairs: seq<Pair>): set<nat> {
    set k | 0 <= k < |pairs| :: Find(reps, pairs[k].0)
  }

  lemma {:induction false} MergedSound(M: Model, xs: seq<ENode>, pairs: seq<Pair>)
    requires Fresh(xs) && PairsOk(xs, pairs) && forall i :: 0 <= i < |xs| ==> M.val(i) == Denote(M, xs[i])
    requires forall k {:trigger pairs[k]} :: 0 <= k < |pairs| ==> M.val(pairs[k].0) == M.val(pairs[k].1)
    ensures var G := MergeAll(FreshGraph(xs), pairs); Inv(M, G, Heads(G.reps, pairs))
  {
    if pairs == [] {
      FreshInv(M, xs);
      assert Heads(FreshGraph(xs).reps, []) == {};
    } else {
      var init, last := pairs[..|pairs| - 1], pairs[|pairs| - 1];
      assert PairOk(xs, last);
      MergedSound(M, xs, init);
      AllEntries(xs, init);
      var G := MergeAll(FreshGraph(xs), init);
      MergeIdsKeeps(M, G, Heads(G.reps, init), last.0, last.1);
      JoinStep(xs, G, last);
      HeadsGrow(xs, G.reps, MergeIds(G, last.0, last.1).reps, pairs);
      InvMono(M, MergeIds(G, last.0, last.1), Heads(G.reps, init) + {G.reps[last.0]},
        Heads(MergeIds(G, last.0, last.1).reps, pairs));
    }
  }

  lemma HeadsGrow(xs: seq<ENode>, reps: seq<nat>, reps': seq<nat>, pairs: seq<Pair>)
    requires PairsOk(xs, pairs) && pairs != [] && |reps| == |xs| && Partition(reps) && Coarser(reps, reps')
    ensures forall o :: Root(reps', o) && o in Heads(reps, pairs[..|pairs| - 1]) + {Find(reps, pairs[|pairs| - 1].0)} ==>
      o in Heads(reps', pairs)
  {
    var init := pairs[..|pairs| - 1];
    forall o | Root(reps', o) && o in Heads(reps, init) + {Find(reps, pairs[|pairs| - 1].0)} ensures o in Heads(reps', pairs) {
      var k := |pairs| - 1;
      if o in Heads(reps, init) {
        k :| 0 <= k < |init| && o == Find(reps, init[k].0);
        assert pairs[k] == init[k];
      }
      assert PairOk(xs, pairs[k]);
      FindCoarser(reps, reps', pairs[k].0);
      assert Find(reps', pairs[k].0) == o;
    }
  }

  /** The model of labels: the graph is sound in it, and it separates. */
  lemma SeparatingModel(xs: seq<ENode>, pairs: seq<Pair>) returns (M: Model)
    requires Fresh(xs) && PairsOk(xs, pairs)
    ensures var G := MergeAll(FreshGraph(xs), pairs); Inv(M, G, Heads(G.reps, pairs)) && Separating(M, G)
  {
    var G := MergeAll(FreshGraph(xs), pairs);
    AllEntries(xs, pairs);
    FinestIsCongruence(G);
    var F := Finest(G);
    M := LabelModel(xs, F);
    forall i | 0 <= i < |xs| ensures M.val(i) == Denote(M, xs[i]) { LabelModelDenotes(xs, F, G, i); }
    forall k | 0 <= k < |pairs| ensures M.val(pairs[k].0) == M.val(pairs[k].1) {
      assert PairOk(xs, pairs[k]);
      assert F(G.reps[pairs[k].0]) == F(pairs[k].0) && F(G.reps[pairs[k].1]) == F(pairs[k].1);
    }
    MergedSound(M, xs, pairs);
    forall i, j | 0 <= i < |G.reps| && 0 <= j < |G.reps| && M.val(i) == M.val(j) ensures Forced(G, i, j) { FinestForced(G, i, j); }
  }
}
