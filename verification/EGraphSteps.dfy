/**
 The steps of the e-graph operations as functions on graphs, and why each keeps the invariant:
 adding a class, merging two classes, pruning a constant class and replacing a repaired class.
 */
module EGraphSteps {
  import UF = UnionFind
  import opened EGraphModel
  import opened Options

  const NO_CACHE := Cache(None, None)

  // ----- merge -----

  /** `EClass::merge`.  Both costs compared there are read from the receiver's cache. */
  function MergeClass(x: EClass, y: EClass): EClass {
    EClass(
      x.nodes + y.nodes,
      y.parents + x.parents,
      if y.constIndex.Some? then if x.constIndex.None? then y.cache else x.cache
      else if x.cache.cost.Some? && y.cache.cost.Some? then Cache(y.cache.expr, x.cache.cost)
      else NO_CACHE,
      if y.constIndex.Some? && x.constIndex.None? then Some(|x.nodes| + y.constIndex.value) else x.constIndex)
  }

  /** Class b joins class a. */
  function Merged(G: Graph, a: nat, b: nat): Graph
    requires a in G.classes && b in G.classes
  {
    Graph(UF.Joined(G.reps, a, b), (G.classes - {b})[a := MergeClass(G.classes[a], G.classes[b])], G.hashcons)
  }

  ghost predicate CanMerge(M: Model, G: Graph, a: nat, b: nat) {
    a in G.classes && b in G.classes && a != b && M.val(a) == M.val(b)
  }

  lemma MergeShape(M: Model, G: Graph, a: nat, b: nat)
    requires Shape(M, G) && CanMerge(M, G, a, b)
    ensures Shape(M, Merged(G, a, b))
  {
    assert Root(G.reps, a) && Root(G.reps, b);
  }

  lemma MergeFree(M: Model, G: Graph, a: nat, b: nat, v: Value)
    requires CanMerge(M, G, a, b)
    ensures Free(M, Merged(G, a, b), v) <==> Free(M, G, v)
  {
    var G' := Merged(G, a, b);
    if Free(M, G', v) {
      forall c | c in G.classes && G.classes[c].constIndex.Some? ensures M.val(c) != v {
        assert Sub(a, b, c) in G'.classes;
      }
    }
    if Free(M, G, v) {
      forall c | c in G'.classes && G'.classes[c].constIndex.Some? ensures M.val(c) != v {
        assert c in G.classes;
      }
    }
  }

  lemma MergeClassOk(M: Model, G: Graph, a: nat, b: nat, c: nat)
    requires CanMerge(M, G, a, b) && c in Merged(G, a, b).classes
    requires ClassOk(M, a, G.classes[a]) && ClassOk(M, b, G.classes[b]) && (c in G.classes ==> ClassOk(M, c, G.classes[c]))
    ensures ClassOk(M, c, Merged(G, a, b).classes[c])
  {}

  /** A dropped duplicate key costs nothing: the entry is also listed under another key. */
  lemma MergeEntry(M: Model, G: Graph, pend: set<nat>, a: nat, b: nat, o: nat, x: ENode, q: nat)
    requires Inv(M, G, pend) && CanMerge(M, G, a, b) && HasEntry(G, o, x, q) && Free(M, G, M.val(q))
    ensures HasEntry(Merged(G, a, b), Sub(a, b, o), Canon(Merged(G, a, b).reps, x), Sub(a, b, q))
  {
    var m :| m in G.classes[o].parents && IsEntry(G, o, x, q, m);
    assert EntryOk(M, G, pend, o, m);
    assert Root(G.reps, a) && Root(G.reps, b);
    if o == b && m in G.classes[a].parents {
      assert EntryOk(M, G, pend, a, m);
      var p := G.classes[b].parents[m];
      assert M.val(p) == M.val(q) by { assert M.val(G.reps[p]) == M.val(p); }
      var k :| 0 <= k < |x.operands| && x.operands[k] == a;
      assert HasEntry(G, x.operands[k], x, q);
      var m' :| m' in G.classes[a].parents && IsEntry(G, a, x, q, m');
      MergeKeptEntry(M, G, pend, a, b, a, x, q, m');
    } else {
      MergeKeptEntry(M, G, pend, a, b, o, x, q, m);
    }
  }

  lemma MergeKeptEntry(M: Model, G: Graph, pend: set<nat>, a: nat, b: nat, o: nat, x: ENode, q: nat, m: ENode)
    requires Inv(M, G, pend) && CanMerge(M, G, a, b)
    requires o in G.classes && m in G.classes[o].parents && IsEntry(G, o, x, q, m)
    requires !(o == b && m in G.classes[a].parents)
    ensures HasEntry(Merged(G, a, b), Sub(a, b, o), Canon(Merged(G, a, b).reps, x), Sub(a, b, q))
  {
    var G' := Merged(G, a, b);
    assert EntryOk(M, G, pend, o, m);
    assert Root(G.reps, a) && Root(G.reps, b);
    CanonJoin(G.reps, a, b, m);
    var o' := Sub(a, b, o);
    assert m in G'.classes[o'].parents && G'.classes[o'].parents[m] == G.classes[o].parents[m];
    assert IsEntry(G', o', Canon(G'.reps, x), Sub(a, b, q), m);
  }

  lemma MergeListed(M: Model, G: Graph, pend: set<nat>, a: nat, b: nat, n: ENode, q: nat)
    requires Inv(M, G, pend) && CanMerge(M, G, a, b) && InRange(G.reps, n)
    requires Listed(G, Canon(G.reps, n), q) && Free(M, G, M.val(q))
    ensures Listed(Merged(G, a, b), Canon(Merged(G, a, b).reps, n), Sub(a, b, q))
  {
    var G' := Merged(G, a, b);
    var x, x' := Canon(G.reps, n), Canon(G'.reps, n);
    assert Root(G.reps, a) && Root(G.reps, b);
    CanonJoin(G.reps, a, b, n);
    forall k | 0 <= k < |x'.operands| ensures HasEntry(G', x'.operands[k], x', Sub(a, b, q)) {
      assert HasEntry(G, x.operands[k], x, q);
      MergeEntry(M, G, pend, a, b, x.operands[k], x, q);
    }
  }

  lemma MergeNodeOk(M: Model, G: Graph, pend: set<nat>, a: nat, b: nat, c: nat, n: ENode)
    requires Inv(M, G, pend) && CanMerge(M, G, a, b) && c in G.classes && n in G.classes[c].nodes
    ensures NodeOk(M, Merged(G, a, b), Sub(a, b, c), n)
  {
    assert NodeOk(M, G, c, n);
    assert Root(G.reps, a) && Root(G.reps, b);
    MergeFree(M, G, a, b, M.val(c));
    if Free(M, G, M.val(c)) { MergeListed(M, G, pend, a, b, n, c); }
    if n.operands == [] { assert HashOk(M, G, n); }
  }

  lemma MergeHashOk(M: Model, G: Graph, pend: set<nat>, a: nat, b: nat, n: ENode)
    requires Inv(M, G, pend) && CanMerge(M, G, a, b) && n in G.hashcons
    ensures HashOk(M, Merged(G, a, b), n)
  {
    var q := G.hashcons[n];
    assert HashOk(M, G, n);
    assert M.val(G.reps[q]) == M.val(q);
    MergeFree(M, G, a, b, M.val(q));
    if Free(M, G, M.val(q)) { MergeListed(M, G, pend, a, b, n, G.reps[q]); }
  }

  /** Where an entry of the merged graph comes from. */
  lemma MergeOrigin(G: Graph, a: nat, b: nat, c: nat, m: ENode) returns (o: nat)
    requires a in G.classes && b in G.classes && a != b
    requires c in Merged(G, a, b).classes && m in Merged(G, a, b).classes[c].parents
    ensures o in G.classes && m in G.classes[o].parents && c == Sub(a, b, o)
    ensures Merged(G, a, b).classes[c].parents[m] == G.classes[o].parents[m]
  {
    o := if c == a && m !in G.classes[a].parents then b else c;
  }

  lemma MergeEntryOk(M: Model, G: Graph, pend: set<nat>, a: nat, b: nat, c: nat, m: ENode)
    requires Inv(M, G, pend) && CanMerge(M, G, a, b)
    requires c in Merged(G, a, b).classes && m in Merged(G, a, b).classes[c].parents
    ensures EntryOk(M, Merged(G, a, b), pend + {a}, c, m)
  {
    var G' := Merged(G, a, b);
    var o := MergeOrigin(G, a, b, c, m);
    assert EntryOk(M, G, pend, o, m);
    var p := G.classes[o].parents[m];
    assert Root(G.reps, a) && Root(G.reps, b);
    assert M.val(G.reps[p]) == M.val(p);
    CanonJoin(G.reps, a, b, m);
    MergeFree(M, G, a, b, M.val(p));
    if Free(M, G, M.val(p)) {
      MergeListed(M, G, pend, a, b, m, G.reps[p]);
      MergeHashed(M, G, pend, a, b, m, G.reps[p]);
      assert Sub(a, b, G.reps[p]) == Find(G'.reps, p);
    }
    assert c in Canon(G'.reps, m).operands by { MergeOperand(G.reps, a, b, m, o); }
  }

  lemma MergeOperand(reps: seq<nat>, a: nat, b: nat, m: ENode, o: nat)
    requires Partition(reps) && InRange(reps, m) && Root(reps, a) && Root(reps, b) && o in Canon(reps, m).operands
    ensures Sub(a, b, o) in Canon(UF.Joined(reps, a, b), m).operands
  {
    CanonJoin(reps, a, b, m);
    var k :| 0 <= k < |m.operands| && Canon(reps, m).operands[k] == o;
    assert Canon(UF.Joined(reps, a, b), m).operands[k] == Sub(a, b, o);
  }

  lemma MergeHashed(M: Model, G: Graph, pend: set<nat>, a: nat, b: nat, m: ENode, q: nat)
    requires Inv(M, G, pend) && CanMerge(M, G, a, b) && InRange(G.reps, m)
    requires Touches(Canon(G.reps, m), pend) || Hashed(G, Canon(G.reps, m), q)
    ensures var G' := Merged(G, a, b); var x' := Canon(G'.reps, m);
      Touches(x', pend + {a}) || Hashed(G', x', Sub(a, b, q))
  {
    var G' := Merged(G, a, b);
    var x, x' := Canon(G.reps, m), Canon(G'.reps, m);
    assert Root(G.reps, a) && Root(G.reps, b);
    CanonJoin(G.reps, a, b, m);
    if a in x'.operands {
      var k :| 0 <= k < |x'.operands| && x'.operands[k] == a;
      assert Touches(x', pend + {a});
    } else if Touches(x, pend) {
      var k :| 0 <= k < |x.operands| && x.operands[k] in pend;
      assert x'.operands[k] in pend + {a};
    } else {
      assert HashOk(M, G, x);
    }
  }

  /** Merging classes of equal value keeps the invariant; the merged class is to be repaired. */
  lemma MergeKeeps(M: Model, G: Graph, pend: set<nat>, a: nat, b: nat)
    requires Inv(M, G, pend) && CanMerge(M, G, a, b)
    ensures Inv(M, Merged(G, a, b), pend + {a})
  {
    var G' := Merged(G, a, b);
    MergeShape(M, G, a, b);
    forall c | c in G'.classes ensures ClassOk(M, c, G'.classes[c]) { MergeClassOk(M, G, a, b, c); }
    forall c, n | c in G'.classes && n in G'.classes[c].nodes ensures NodeOk(M, G', c, n) {
      var o := if c == a && n !in G.classes[a].nodes then b else c;
      MergeNodeOk(M, G, pend, a, b, o, n);
    }
    forall c, m | c in G'.classes && m in G'.classes[c].parents ensures EntryOk(M, G', pend + {a}, c, m) {
      MergeEntryOk(M, G, pend, a, b, c, m);
    }
    forall n | n in G'.hashcons ensures HashOk(M, G', n) { MergeHashOk(M, G, pend, a, b, n); }
  }

  /** Merging classes to which S gives one value keeps S settled. */
  lemma MergeKeepsSettled(S: Model, G: Graph, a: nat, b: nat)
    requires Partition(G.reps) && (forall i :: i in G.classes <==> Root(G.reps, i)) && CanMerge(S, G, a, b) && Settled(S, G)
    requires forall c, m :: c in G.classes && m in G.classes[c].parents ==> G.classes[c].parents[m] < |G.reps|
    ensures Settled(S, Merged(G, a, b))
  {
    var G' := Merged(G, a, b);
    assert Root(G.reps, a) && Root(G.reps, b);
    forall c, m | c in G'.classes && m in G'.classes[c].parents ensures SettledAt(S, G', c, m) {
      var o := MergeOrigin(G, a, b, c, m);
      assert SettledAt(S, G, o, m);
    }
    forall c, m, d, k | c in G'.classes && m in G'.classes[c].parents && d in G'.classes && k in G'.classes[d].parents
      ensures CalmAt(S, G', c, m, d, k)
    {
      var o := MergeOrigin(G, a, b, c, m);
      var o' := MergeOrigin(G, a, b, d, k);
      assert CalmAt(S, G, o, m, o', k);
    }
  }

  lemma MergeKeepsKeyed(M: Model, G: Graph, pend: set<nat>, a: nat, b: nat)
    requires Inv(M, G, pend) && CanMerge(M, G, a, b) && Keyed(M, G)
    ensures Keyed(M, Merged(G, a, b))
  {
    var G' := Merged(G, a, b);
    assert Root(G.reps, a) && Root(G.reps, b);
    forall c, m | c in G'.classes && m in G'.classes[c].parents ensures KeyOk(M, G', c, m) {
      var o := MergeOrigin(G, a, b, c, m);
      assert KeyOk(M, G, o, m) && EntryOk(M, G, pend, o, m);
      MergeFree(M, G, a, b, M.val(G.classes[o].parents[m]));
      CanonJoin(G.reps, a, b, m);
      if Canon(G'.reps, m) == m {
        // b is nobody's representative any more, so it is not among m's operands
        forall k | 0 <= k < |m.operands| ensures m.operands[k] == Canon(G.reps, m).operands[k] {
          assert m.operands[k] == Canon(G'.reps, m).operands[k];
        }
        assert Canon(G.reps, m).operands == m.operands;
      }
    }
  }

  // ----- add -----

  /** The model, with a value for the class about to be created. */
  function Extended(M: Model, id: nat, v: Value): Model {
    M.(val := (i: nat) => if i == id then v else M.val(i))
  }

  /** `parents.emplace(x, id)`: an existing entry is kept. */
  function WithParent(e: EClass, x: ENode, id: nat): EClass {
    if x in e.parents then e else e.(parents := e.parents[x := id])
  }

  /** `EClass{{x}}`. */
  function NewClass(x: ENode): EClass {
    EClass([x], map[], NO_CACHE, if IsConst(x.data) then Some(0) else None)
  }

  function WithParents(classes: map<nat, EClass>, ops: seq<nat>, x: ENode, id: nat): map<nat, EClass> {
    map c | c in classes :: if c in ops then WithParent(classes[c], x, id) else classes[c]
  }

  /** The graph after canonical node x, not yet in the hash table, got a class of its own. */
  function Added(G: Graph, x: ENode): Graph {
    var id := |G.reps|;
    Graph(G.reps + [id], WithParents(G.classes[id := NewClass(x)], x.operands, x, id), G.hashcons[x := id])
  }

  ghost predicate CanAdd(M: Model, G: Graph, pend: set<nat>, x: ENode) {
    && Inv(M, G, pend) && Keyed(M, G)
    && InRange(G.reps, x) && Canon(G.reps, x) == x && x !in G.hashcons
    && (IsConst(x.data) ==> x.operands == [])
  }

  lemma ExtendedDenotes(M: Model, reps: seq<nat>, v: Value, n: ENode)
    requires InRange(reps, n)
    ensures var M' := Extended(M, |reps|, v);
      Denote(M', n) == Denote(M, n) && Canon(reps + [|reps|], n) == Canon(reps, n)
  {
    var M' := Extended(M, |reps|, v);
    assert Values(M', n.operands) == Values(M, n.operands);
    assert Canon(reps + [|reps|], n).operands == Canon(reps, n).operands;
  }

  lemma AddFree(M: Model, G: Graph, pend: set<nat>, x: ENode, v: Value)
    requires CanAdd(M, G, pend, x) && Free(Extended(M, |G.reps|, Denote(M, x)), Added(G, x), v)
    ensures Free(M, G, v)
  {
    var M', G' := Extended(M, |G.reps|, Denote(M, x)), Added(G, x);
    forall c | c in G.classes && G.classes[c].constIndex.Some? ensures M.val(c) != v {
      assert c in G'.classes && Root(G.reps, c);
    }
  }

  lemma AddKeepsParents(G: Graph, x: ENode, b: nat, m: ENode)
    requires b in G.classes && b != |G.reps| && m in G.classes[b].parents
    ensures var e' := Added(G, x).classes[b]; m in e'.parents && e'.parents[m] == G.classes[b].parents[m]
  {}

  lemma AddEntry(M: Model, G: Graph, pend: set<nat>, x: ENode, b: nat, y: ENode, q: nat)
    requires CanAdd(M, G, pend, x) && HasEntry(G, b, y, q)
    ensures HasEntry(Added(G, x), b, y, q)
  {
    var G' := Added(G, x);
    var m :| m in G.classes[b].parents && IsEntry(G, b, y, q, m);
    assert EntryOk(M, G, pend, b, m) && Root(G.reps, b);
    ExtendedDenotes(M, G.reps, Denote(M, x), m);
    AddKeepsParents(G, x, b, m);
    assert IsEntry(G', b, y, q, m);
  }

  lemma AddListed(M: Model, G: Graph, pend: set<nat>, x: ENode, y: ENode, q: nat)
    requires CanAdd(M, G, pend, x) && Listed(G, y, q)
    ensures Listed(Added(G, x), y, q)
  {
    forall k | 0 <= k < |y.operands| ensures HasEntry(Added(G, x), y.operands[k], y, q) {
      assert HasEntry(G, y.operands[k], y, q);
      AddEntry(M, G, pend, x, y.operands[k], y, q);
    }
  }

  lemma AddHashed(M: Model, G: Graph, pend: set<nat>, x: ENode, y: ENode, q: nat)
    requires CanAdd(M, G, pend, x) && Hashed(G, y, q)
    ensures Hashed(Added(G, x), y, q)
  {
    assert HashOk(M, G, y);
  }

  lemma UnhashedKey(M: Model, G: Graph, pend: set<nat>, c: nat, x: ENode)
    requires Inv(M, G, pend) && Keyed(M, G) && c in G.classes && x in G.classes[c].parents
    requires Canon(G.reps, x) == x && x !in G.hashcons
    ensures !Free(M, G, Denote(M, x))
  {
    assert EntryOk(M, G, pend, c, x) && KeyOk(M, G, c, x);
  }

  /** The new node is listed with all its operands, unless its value is a constant's. */
  lemma AddNewListed(M: Model, G: Graph, pend: set<nat>, x: ENode)
    requires CanAdd(M, G, pend, x) && Free(Extended(M, |G.reps|, Denote(M, x)), Added(G, x), Denote(M, x))
    ensures Listed(Added(G, x), x, |G.reps|)
  {
    var G', id := Added(G, x), |G.reps|;
    AddFree(M, G, pend, x, Denote(M, x));
    ExtendedDenotes(M, G.reps, Denote(M, x), x);
    forall k | 0 <= k < |x.operands| ensures HasEntry(G', x.operands[k], x, id) {
      var c := x.operands[k];
      assert Canon(G.reps, x).operands[k] == c;
      assert Root(G.reps, c) && c in G'.classes;
      if x in G.classes[c].parents { UnhashedKey(M, G, pend, c, x); }
      assert x in G'.classes[c].parents && IsEntry(G', c, x, id, x);
    }
  }

  lemma AddNodeOk(M: Model, G: Graph, pend: set<nat>, x: ENode, c: nat, n: ENode)
    requires CanAdd(M, G, pend, x) && c in Added(G, x).classes && n in Added(G, x).classes[c].nodes
    ensures NodeOk(Extended(M, |G.reps|, Denote(M, x)), Added(G, x), c, n)
  {
    var M', G' := Extended(M, |G.reps|, Denote(M, x)), Added(G, x);
    if c == |G.reps| {
      assert n == x;
      ExtendedDenotes(M, G.reps, Denote(M, x), x);
      if Free(M', G', M'.val(c)) { AddNewListed(M, G, pend, x); }
    } else {
      assert NodeOk(M, G, c, n);
      ExtendedDenotes(M, G.reps, Denote(M, x), n);
      if n.operands == [] { AddHashed(M, G, pend, x, n, c); }
      if Free(M', G', M'.val(c)) {
        AddFree(M, G, pend, x, M.val(c));
        AddListed(M, G, pend, x, Canon(G.reps, n), c);
      }
    }
  }

  lemma AddEntryOk(M: Model, G: Graph, pend: set<nat>, x: ENode, b: nat, m: ENode)
    requires CanAdd(M, G, pend, x) && b in Added(G, x).classes && m in Added(G, x).classes[b].parents
    ensures EntryOk(Extended(M, |G.reps|, Denote(M, x)), Added(G, x), pend + {|G.reps|}, b, m)
    ensures KeyOk(Extended(M, |G.reps|, Denote(M, x)), Added(G, x), b, m)
  {
    var M', G' := Extended(M, |G.reps|, Denote(M, x)), Added(G, x);
    assert b != |G.reps|;
    if m in G.classes[b].parents {
      AddOldEntryOk(M, G, pend, x, b, m);
    } else {
      assert m == x && b in x.operands;
      ExtendedDenotes(M, G.reps, Denote(M, x), x);
      if Free(M', G', Denote(M, x)) { AddNewListed(M, G, pend, x); }
    }
  }

  lemma AddOldEntryOk(M: Model, G: Graph, pend: set<nat>, x: ENode, b: nat, m: ENode)
    requires CanAdd(M, G, pend, x) && b in G.classes && m in G.classes[b].parents
    requires b in Added(G, x).classes && m in Added(G, x).classes[b].parents
    requires Added(G, x).classes[b].parents[m] == G.classes[b].parents[m]
    ensures EntryOk(Extended(M, |G.reps|, Denote(M, x)), Added(G, x), pend + {|G.reps|}, b, m)
    ensures KeyOk(Extended(M, |G.reps|, Denote(M, x)), Added(G, x), b, m)
  {
    var M', G' := Extended(M, |G.reps|, Denote(M, x)), Added(G, x);
    assert EntryOk(M, G, pend, b, m) && KeyOk(M, G, b, m);
    ExtendedDenotes(M, G.reps, Denote(M, x), m);
    var p, y := G.classes[b].parents[m], Canon(G.reps, m);
    if Free(M', G', M'.val(p)) {
      AddFree(M, G, pend, x, M.val(p));
      AddListed(M, G, pend, x, y, G.reps[p]);
      if Touches(y, pend) {
        var k :| 0 <= k < |y.operands| && y.operands[k] in pend;
        assert y.operands[k] in pend + {|G.reps|};
      } else {
        AddHashed(M, G, pend, x, y, G.reps[p]);
      }
    }
  }

  lemma AddHashOk(M: Model, G: Graph, pend: set<nat>, x: ENode, n: ENode)
    requires CanAdd(M, G, pend, x) && n in Added(G, x).hashcons
    ensures HashOk(Extended(M, |G.reps|, Denote(M, x)), Added(G, x), n)
  {
    var M', G' := Extended(M, |G.reps|, Denote(M, x)), Added(G, x);
    if n == x {
      ExtendedDenotes(M, G.reps, Denote(M, x), x);
      if Free(M', G', Denote(M, x)) { AddNewListed(M, G, pend, x); }
    } else {
      assert HashOk(M, G, n);
      ExtendedDenotes(M, G.reps, Denote(M, x), n);
      var q := G.hashcons[n];
      if Free(M', G', M'.val(q)) {
        AddFree(M, G, pend, x, M.val(q));
        AddListed(M, G, pend, x, Canon(G.reps, n), G.reps[q]);
      }
    }
  }

  lemma AddShape(M: Model, G: Graph, pend: set<nat>, x: ENode)
    requires CanAdd(M, G, pend, x)
    ensures Shape(Extended(M, |G.reps|, Denote(M, x)), Added(G, x))
  {
    var G' := Added(G, x);
    forall i | i in G'.classes ensures Root(G'.reps, i) { if i != |G.reps| { assert Root(G.reps, i); } }
    forall i: nat | Root(G'.reps, i) ensures i in G'.classes { if i != |G.reps| { assert Root(G.reps, i); } }
  }

  /** Adding a node keeps the invariant; its class gets the node's value. */
  lemma AddKeeps(M: Model, G: Graph, pend: set<nat>, x: ENode)
    requires CanAdd(M, G, pend, x)
    ensures Inv(Extended(M, |G.reps|, Denote(M, x)), Added(G, x), pend + {|G.reps|})
    ensures Keyed(Extended(M, |G.reps|, Denote(M, x)), Added(G, x))
  {
    var M', G' := Extended(M, |G.reps|, Denote(M, x)), Added(G, x);
    AddShape(M, G, pend, x);
    forall c | c in G'.classes ensures ClassOk(M', c, G'.classes[c]) {
      if c != |G.reps| { assert ClassOk(M, c, G.classes[c]); }
    }
    forall c, n | c in G'.classes && n in G'.classes[c].nodes ensures NodeOk(M', G', c, n) {
      AddNodeOk(M, G, pend, x, c, n);
    }
    forall b, m | b in G'.classes && m in G'.classes[b].parents
      ensures EntryOk(M', G', pend + {|G.reps|}, b, m) && KeyOk(M', G', b, m)
    { AddEntryOk(M, G, pend, x, b, m); }
    forall n | n in G'.hashcons ensures HashOk(M', G', n) { AddHashOk(M, G, pend, x, n); }
  }
}
