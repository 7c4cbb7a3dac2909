/**
 When `rebuild` is safe to call.

 `repair` keeps a reference to the class it repairs while it merges that class's parents
 (src/IR/EGraph.cpp:265-298), so it must not meet two congruent parents of which one is in the class
 and the other is not.  That is a matter of the graph alone: where congruence puts congruent parents
 into their child's class, they have to be in one class, or each in its child's class, beforehand.
 That no class is its own ancestor when `rebuild` is called is not enough (AcyclicNotEnough in
 EGraphCases), and that congruence makes no class its own parent is not needed (OwnParentUntangled).
 */
module EGraphTangles {
  import opened EGraphModel
  import opened EGraphSteps
  import opened Options

  /** A labelling of ids; ids with one label are taken to be equal. */
  type Labels = nat -> nat

  /** Ids already merged have one label. */
  ghost predicate Extends(F: Labels, reps: seq<nat>) {
    forall i :: 0 <= i < |reps| ==> F(reps[i]) == F(i)
  }

  ghost predicate SameForm(F: Labels, m: ENode, k: ENode) {
    m.data == k.data && |m.operands| == |k.operands| && forall i :: 0 <= i < |m.operands| ==> F(m.operands[i]) == F(k.operands[i])
  }

  ghost predicate AgreeAt(F: Labels, G: Graph, b: nat, m: ENode, c: nat, k: ENode)
    requires b in G.classes && m in G.classes[b].parents && c in G.classes && k in G.classes[c].parents
  {
    SameForm(F, m, k) ==> F(G.classes[b].parents[m]) == F(G.classes[c].parents[k])
  }

  /** Equality by label contains the merges made so far and is closed under congruence. */
  ghost predicate Congruence(F: Labels, G: Graph) {
    && Extends(F, G.reps)
    && forall b, m, c, k {:trigger AgreeAt(F, G, b, m, c, k)} ::
         b in G.classes && m in G.classes[b].parents && c in G.classes && k in G.classes[c].parents ==> AgreeAt(F, G, b, m, c, k)
  }

  ghost predicate HarmlessAt(F: Labels, G: Graph, b: nat, m: ENode, c: nat, k: ENode)
    requires b in G.classes && m in G.classes[b].parents && c in G.classes && k in G.classes[c].parents
  {
    var p, q := G.classes[b].parents[m], G.classes[c].parents[k];
    SameForm(F, m, k) && F(p) == F(b) == F(c) ==>
      Find(G.reps, p) == Find(G.reps, q) || (Find(G.reps, p) == b && Find(G.reps, q) == c)
  }

  /** Congruent parents with their children's label are in one class, or each in its child's class, already. */
  ghost predicate Harmless(F: Labels, G: Graph) {
    forall b, m, c, k {:trigger HarmlessAt(F, G, b, m, c, k)} ::
      b in G.classes && m in G.classes[b].parents && c in G.classes && k in G.classes[c].parents ==> HarmlessAt(F, G, b, m, c, k)
  }

  /** Congruence brings no class together with one of two congruent parents only. */
  ghost predicate Untangled(G: Graph) {
    exists F: Labels :: Congruence(F, G) && Harmless(F, G)
  }

  /** Of two congruent parents of class e, one is in e and the other is not. */
  ghost predicate StuckAt(G: Graph, e: nat, m: ENode, k: ENode)
    requires e in G.classes && m in G.classes[e].parents && k in G.classes[e].parents
  {
    Canon(G.reps, m) == Canon(G.reps, k) && Find(G.reps, G.classes[e].parents[m]) == e != Find(G.reps, G.classes[e].parents[k])
  }

  /** Some repair would merge the class it holds a reference to. */
  ghost predicate Stuck(G: Graph) {
    exists e, m, k :: e in G.classes && m in G.classes[e].parents && k in G.classes[e].parents && StuckAt(G, e, m, k)
  }

  /** A graph that is stuck is tangled; so `rebuild`, which keeps a graph untangled, never gets stuck. */
  lemma StuckIsTangled(G: Graph)
    requires Partition(G.reps) && (forall i :: i in G.classes <==> Root(G.reps, i)) && Stuck(G)
    ensures !Untangled(G)
  {
    var e, m, k :| e in G.classes && m in G.classes[e].parents && k in G.classes[e].parents && StuckAt(G, e, m, k);
    forall F: Labels ensures !(Congruence(F, G) && Harmless(F, G)) {
      if Congruence(F, G) { StuckAtHarms(F, G, e, m, k); }
    }
  }

  lemma StuckAtHarms(F: Labels, G: Graph, e: nat, m: ENode, k: ENode)
    requires Partition(G.reps) && Congruence(F, G) && Root(G.reps, e)
    requires e in G.classes && m in G.classes[e].parents && k in G.classes[e].parents && StuckAt(G, e, m, k)
    ensures !HarmlessAt(F, G, e, m, e, k)
  {
    var p := G.classes[e].parents[m];
    assert p < |G.reps| ==> F(G.reps[p]) == F(p);
    CanonSameForm(F, G.reps, m, k);
  }

  lemma CanonSameForm(F: Labels, reps: seq<nat>, m: ENode, k: ENode)
    requires Extends(F, reps) && Canon(reps, m) == Canon(reps, k)
    ensures SameForm(F, m, k)
  {
    assert |m.operands| == |Canon(reps, m).operands| == |k.operands|;
    forall i | 0 <= i < |m.operands| ensures F(m.operands[i]) == F(k.operands[i]) {
      assert Canon(reps, m).operands[i] == Canon(reps, k).operands[i];
      assert m.operands[i] < |reps| ==> F(reps[m.operands[i]]) == F(m.operands[i]);
      assert k.operands[i] < |reps| ==> F(reps[k.operands[i]]) == F(k.operands[i]);
    }
  }

  // ----- the finest congruence -----

  /** Every congruence takes ids i and j to be equal. */
  ghost predicate Forced(G: Graph, i: nat, j: nat) {
    forall F: Labels :: Congruence(F, G) ==> F(i) == F(j)
  }

  /** The first id from j on that is forced to be equal to i. */
  ghost function FirstForced(G: Graph, i: nat, j: nat): nat
    requires j <= i
    decreases i - j
  {
    if j == i || Forced(G, i, j) then j else FirstForced(G, i, j + 1)
  }

  ghost function Finest(G: Graph): Labels {
    (i: nat) => FirstForced(G, i, 0)
  }

  lemma {:induction false} FirstForcedIs(G: Graph, i: nat, j: nat)
    requires j <= i
    ensures Forced(G, i, FirstForced(G, i, j)) && j <= FirstForced(G, i, j) <= i
    ensures forall k :: j <= k < FirstForced(G, i, j) ==> !Forced(G, i, k)
    decreases i - j
  {
    if j != i && !Forced(G, i, j) { FirstForcedIs(G, i, j + 1); }
  }

  lemma FinestForced(G: Graph, i: nat, j: nat)
    ensures Finest(G)(i) == Finest(G)(j) <==> Forced(G, i, j)
  {
    FirstForcedIs(G, i, 0);
    FirstForcedIs(G, j, 0);
    if Forced(G, i, j) {
      assert Forced(G, i, FirstForced(G, j, 0)) && Forced(G, j, FirstForced(G, i, 0));
      assert !(FirstForced(G, i, 0) < FirstForced(G, j, 0)) && !(FirstForced(G, j, 0) < FirstForced(G, i, 0));
    }
  }

  /** Every graph has a finest congruence. */
  lemma FinestIsCongruence(G: Graph)
    ensures Congruence(Finest(G), G)
    ensures forall F: Labels, i: nat, j: nat :: Congruence(F, G) && Finest(G)(i) == Finest(G)(j) ==> F(i) == F(j)
  {
    var F := Finest(G);
    forall i | 0 <= i < |G.reps| ensures F(G.reps[i]) == F(i) { FinestForced(G, G.reps[i], i); }
    forall b, m, c, k | b in G.classes && m in G.classes[b].parents && c in G.classes && k in G.classes[c].parents
      ensures AgreeAt(F, G, b, m, c, k)
    {
      if SameForm(F, m, k) { FinestAgrees(G, b, m, c, k); }
    }
    forall F': Labels, i: nat, j: nat | Congruence(F', G) && F(i) == F(j) ensures F'(i) == F'(j) { FinestForced(G, i, j); }
  }

  lemma FinestAgrees(G: Graph, b: nat, m: ENode, c: nat, k: ENode)
    requires b in G.classes && m in G.classes[b].parents && c in G.classes && k in G.classes[c].parents
    requires SameForm(Finest(G), m, k)
    ensures Finest(G)(G.classes[b].parents[m]) == Finest(G)(G.classes[c].parents[k])
  {
    forall F: Labels | Congruence(F, G) ensures F(G.classes[b].parents[m]) == F(G.classes[c].parents[k]) {
      forall i | 0 <= i < |m.operands| ensures F(m.operands[i]) == F(k.operands[i]) {
        FinestForced(G, m.operands[i], k.operands[i]);
      }
      assert AgreeAt(F, G, b, m, c, k);
    }
    FinestForced(G, G.classes[b].parents[m], G.classes[c].parents[k]);
  }

  /** If a coarser labelling is harmless, so is a finer one. */
  lemma FinerHarmless(F: Labels, F': Labels, G: Graph)
    requires Harmless(F', G) && forall i, j :: F(i) == F(j) ==> F'(i) == F'(j)
    ensures Harmless(F, G)
  {
    forall b, m, c, k | b in G.classes && m in G.classes[b].parents && c in G.classes && k in G.classes[c].parents
      ensures HarmlessAt(F, G, b, m, c, k)
    { assert HarmlessAt(F', G, b, m, c, k); }
  }

  /** The finest congruence, where all merges are forced, decides whether a graph is untangled. */
  lemma FinestDecides(G: Graph)
    ensures Untangled(G) <==> Harmless(Finest(G), G)
  {
    FinestIsCongruence(G);
    if Untangled(G) {
      var F: Labels :| Congruence(F, G) && Harmless(F, G);
      FinerHarmless(Finest(G), F, G);
    }
  }

  // ----- what untangles a graph -----

  /** Every parent ranks above its child. */
  ghost predicate Ranked(F: Labels, G: Graph, rank: nat -> nat) {
    forall b, m :: b in G.classes && m in G.classes[b].parents ==> rank(F(G.classes[b].parents[m])) > rank(F(b))
  }

  /** If no class is its own ancestor modulo some congruence, the graph is untangled. */
  lemma NoAncestorUntangles(F: Labels, G: Graph, rank: nat -> nat)
    requires Congruence(F, G) && Ranked(F, G, rank)
    ensures Untangled(G)
  {
    forall b, m, c, k | b in G.classes && m in G.classes[b].parents && c in G.classes && k in G.classes[c].parents
      ensures HarmlessAt(F, G, b, m, c, k)
    { assert rank(F(G.classes[b].parents[m])) > rank(F(b)); }
  }

  /** Parents with one canonical form are in one class already. */
  ghost predicate Tidy(G: Graph) {
    forall b, m, c, k {:trigger TidyAt(G, b, m, c, k)} ::
      b in G.classes && m in G.classes[b].parents && c in G.classes && k in G.classes[c].parents ==> TidyAt(G, b, m, c, k)
  }

  ghost predicate TidyAt(G: Graph, b: nat, m: ENode, c: nat, k: ENode)
    requires b in G.classes && m in G.classes[b].parents && c in G.classes && k in G.classes[c].parents
  {
    Canon(G.reps, m) == Canon(G.reps, k) ==> Find(G.reps, G.classes[b].parents[m]) == Find(G.reps, G.classes[c].parents[k])
  }

  /** Where congruence holds already, it is enough that no class is its own ancestor. */
  lemma TidyAcyclicUntangled(G: Graph, rank: nat -> nat)
    requires Partition(G.reps) && Tidy(G) && Ranked(i => Find(G.reps, i), G, rank)
    ensures Untangled(G)
  {
    var F: Labels := i => Find(G.reps, i);
    forall b, m, c, k | b in G.classes && m in G.classes[b].parents && c in G.classes && k in G.classes[c].parents
      ensures AgreeAt(F, G, b, m, c, k)
    {
      assert TidyAt(G, b, m, c, k);
      if SameForm(F, m, k) { assert Canon(G.reps, m).operands == Canon(G.reps, k).operands; }
    }
    NoAncestorUntangles(F, G, rank);
  }

  // ----- labellings and settled models -----

  /** The value of id i: its type, and its label. */
  ghost function Labelled(M: Model, F: Labels, i: nat): Value {
    Value(M.val(i).ty, F(i))
  }

  ghost function LabelledAll(M: Model, F: Labels, ids: seq<nat>): seq<Value> {
    seq(|ids|, k requires 0 <= k < |ids| => Labelled(M, F, ids[k]))
  }

  ghost predicate Means(M: Model, F: Labels, G: Graph, d: OpData, args: seq<Value>, b: nat, m: ENode) {
    b in G.classes && m in G.classes[b].parents && m.data == d && LabelledAll(M, F, m.operands) == args
  }

  /** The operation is what the parent lists say it is. */
  ghost function Meaning(M: Model, F: Labels, G: Graph, d: OpData, args: seq<Value>): int {
    if exists b, m :: Means(M, F, G, d, args, b, m) then
      var (b, m) := Picked(M, F, G, d, args);
      F(G.classes[b].parents[m])
    else 0
  }

  ghost function Picked(M: Model, F: Labels, G: Graph, d: OpData, args: seq<Value>): (e: (nat, ENode))
    requires exists b, m :: Means(M, F, G, d, args, b, m)
    ensures Means(M, F, G, d, args, e.0, e.1)
  {
    var b, m :| Means(M, F, G, d, args, b, m);
    (b, m)
  }

  lemma MeaningOf(M: Model, F: Labels, G: Graph, b: nat, m: ENode)
    requires Congruence(F, G) && b in G.classes && m in G.classes[b].parents
    ensures Meaning(M, F, G, m.data, LabelledAll(M, F, m.operands)) == F(G.classes[b].parents[m])
  {
    var args := LabelledAll(M, F, m.operands);
    assert Means(M, F, G, m.data, args, b, m);
    var (c, k) := Picked(M, F, G, m.data, args);
    forall i | 0 <= i < |m.operands| ensures F(m.operands[i]) == F(k.operands[i]) {
      assert LabelledAll(M, F, m.operands)[i] == LabelledAll(M, F, k.operands)[i];
    }
    assert |LabelledAll(M, F, k.operands)| == |args|;
    assert AgreeAt(F, G, b, m, c, k);
  }

  /** An untangled graph has a settled interpretation of its parent lists, in which only forced ids are equal. */
  lemma UntangledSettles(M: Model, G: Graph, pend: set<nat>) returns (S: Model)
    requires Inv(M, G, pend) && Untangled(G)
    ensures Settled(S, G) && forall i: nat, j: nat :: S.val(i) == S.val(j) ==> Forced(G, i, j)
  {
    var F := Finest(G);
    FinestIsCongruence(G);
    FinestDecides(G);
    forall i: nat, j: nat | F(i) == F(j) ensures Forced(G, i, j) { FinestForced(G, i, j); }
    S := Model((d: OpData, args: seq<Value>) => Meaning(M, F, G, d, args), (i: nat) => Labelled(M, F, i));
    forall b, m | b in G.classes && m in G.classes[b].parents ensures SettledAt(S, G, b, m) {
      assert EntryOk(M, G, pend, b, m);
      assert Values(S, m.operands) == LabelledAll(M, F, m.operands);
      MeaningOf(M, F, G, b, m);
    }
    forall b, m, c, k | b in G.classes && m in G.classes[b].parents && c in G.classes && k in G.classes[c].parents
      ensures CalmAt(S, G, b, m, c, k)
    {
      if m.data == k.data && Values(S, m.operands) == Values(S, k.operands) { SameValuesSameForm(S, M, F, m, k); }
      assert HarmlessAt(F, G, b, m, c, k);
    }
  }

  lemma SameValuesSameForm(S: Model, M: Model, F: Labels, m: ENode, k: ENode)
    requires (forall i: nat :: S.val(i) == Labelled(M, F, i)) && m.data == k.data && Values(S, m.operands) == Values(S, k.operands)
    ensures SameForm(F, m, k)
  {
    assert |m.operands| == |Values(S, m.operands)| == |k.operands|;
    forall i | 0 <= i < |m.operands| ensures F(m.operands[i]) == F(k.operands[i]) {
      assert Values(S, m.operands)[i] == Values(S, k.operands)[i];
    }
  }

  /** The first id with the value of i. */
  ghost function First(S: Model, i: nat, j: nat): nat
    requires j <= i
    decreases i - j
  {
    if S.val(j) == S.val(i) then j else First(S, i, j + 1)
  }

  lemma {:induction false} FirstHas(S: Model, i: nat, j: nat)
    requires j <= i
    ensures S.val(First(S, i, j)) == S.val(i) && j <= First(S, i, j) <= i
    ensures forall k :: j <= k < First(S, i, j) ==> S.val(k) != S.val(i)
    decreases i - j
  {
    if S.val(j) != S.val(i) { FirstHas(S, i, j + 1); }
  }

  lemma FirstDecides(S: Model, i: nat, j: nat)
    ensures First(S, i, 0) == First(S, j, 0) <==> S.val(i) == S.val(j)
  {
    FirstHas(S, i, 0);
    FirstHas(S, j, 0);
    if S.val(i) == S.val(j) {
      assert !(First(S, i, 0) < First(S, j, 0)) && !(First(S, j, 0) < First(S, i, 0));
    }
  }

  /** Equality in an interpretation of the parent lists is a congruence. */
  lemma ValuesAgree(S: Model, G: Graph)
    requires Respects(S, G.reps)
    requires forall b, m {:trigger SettledAt(S, G, b, m)} :: b in G.classes && m in G.classes[b].parents ==> SettledAt(S, G, b, m)
    ensures Congruence(i => First(S, i, 0), G)
  {
    var F: Labels := i => First(S, i, 0);
    forall i | 0 <= i < |G.reps| ensures F(G.reps[i]) == F(i) { FirstDecides(S, G.reps[i], i); }
    forall b, m, c, k | b in G.classes && m in G.classes[b].parents && c in G.classes && k in G.classes[c].parents
      ensures AgreeAt(F, G, b, m, c, k)
    {
      assert SettledAt(S, G, b, m) && SettledAt(S, G, c, k);
      if SameForm(F, m, k) { LabelsDenote(S, G, b, m, c, k); }
    }
  }

  /** A settled interpretation shows the graph untangled: its values are the labels. */
  lemma SettledUntangles(S: Model, G: Graph)
    requires Settled(S, G)
    ensures Untangled(G)
  {
    var F: Labels := i => First(S, i, 0);
    ValuesAgree(S, G);
    forall b, m, c, k | b in G.classes && m in G.classes[b].parents && c in G.classes && k in G.classes[c].parents
      ensures HarmlessAt(F, G, b, m, c, k)
    {
      assert SettledAt(S, G, b, m) && SettledAt(S, G, c, k);
      if SameForm(F, m, k) { LabelsDenote(S, G, b, m, c, k); }
      FirstDecides(S, G.classes[b].parents[m], b);
      FirstDecides(S, b, c);
      assert CalmAt(S, G, b, m, c, k);
    }
    assert Congruence(F, G) && Harmless(F, G);
  }

  lemma LabelsDenote(S: Model, G: Graph, b: nat, m: ENode, c: nat, k: ENode)
    requires b in G.classes && m in G.classes[b].parents && c in G.classes && k in G.classes[c].parents
    requires SettledAt(S, G, b, m) && SettledAt(S, G, c, k) && SameForm(i => First(S, i, 0), m, k)
    ensures First(S, G.classes[b].parents[m], 0) == First(S, G.classes[c].parents[k], 0)
    ensures m.data == k.data && Values(S, m.operands) == Values(S, k.operands)
  {
    forall i | 0 <= i < |m.operands| ensures S.val(m.operands[i]) == S.val(k.operands[i]) {
      FirstDecides(S, m.operands[i], k.operands[i]);
    }
    assert Values(S, m.operands) == Values(S, k.operands);
    FirstDecides(S, G.classes[b].parents[m], G.classes[c].parents[k]);
  }
}
