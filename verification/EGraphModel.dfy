/**
 The contents of an e-graph (src/IR/EGraph.cpp) and the invariant its operations keep.

 Values are abstract: a model interprets operation data and gives every class id a value.  The
 invariant says, for one model, that everything stored agrees with the values (soundness), and that
 the parent lists and the hash table are complete enough for `rebuild` to restore congruence.

 Completeness is stated for values that no constant class has: `unparent` drops nodes and parent
 entries of classes that hold a constant, and with them the only links some congruent nodes had.
 */
module EGraphModel {
  import UF = UnionFind
  import opened Options

  datatype OpData =
    | ConstantInt(ty: nat, bits: nat)
    | ConstantFloat(ty: nat, bits: nat)
    | SymbolData(ty: nat, name: nat)
    | Op(ty: nat, opcode: nat)

  /** An expression tree. */
  datatype Term = Term(data: OpData, args: seq<Term>)

  datatype ENode = ENode(data: OpData, operands: seq<nat>)

  datatype Cost = Cost(cost: nat, index: nat)

  datatype Cache = Cache(expr: Option<Term>, cost: Option<Cost>)

  datatype EClass = EClass(nodes: seq<ENode>, parents: map<ENode, nat>, cache: Cache, constIndex: Option<nat>)

  /** `reps` is the partition the union-find stands for. */
  datatype Graph = Graph(reps: seq<nat>, classes: map<nat, EClass>, hashcons: map<ENode, nat>)

  predicate IsConst(d: OpData) {
    d.ConstantInt? || d.ConstantFloat?
  }

  // ----- models -----

  /** A value carries the type of the operation that made it. */
  datatype Value = Value(ty: nat, v: int)

  datatype Model = Model(op: (OpData, seq<Value>) -> int, val: nat -> Value)

  function Values(M: Model, ids: seq<nat>): seq<Value> {
    seq(|ids|, k requires 0 <= k < |ids| => M.val(ids[k]))
  }

  function Denote(M: Model, n: ENode): Value {
    Value(n.data.ty, M.op(n.data, Values(M, n.operands)))
  }

  function EvalTerm(op: (OpData, seq<Value>) -> int, t: Term): Value {
    Value(t.data.ty, op(t.data, seq(|t.args|, k requires 0 <= k < |t.args| => EvalTerm(op, t.args[k]))))
  }

  // ----- canonical forms -----

  function Find(reps: seq<nat>, i: nat): nat {
    if i < |reps| then reps[i] else i
  }

  /** `canonicalize`. */
  function Canon(reps: seq<nat>, n: ENode): ENode {
    ENode(n.data, seq(|n.operands|, k requires 0 <= k < |n.operands| => Find(reps, n.operands[k])))
  }

  predicate InRange(reps: seq<nat>, n: ENode) {
    forall k :: 0 <= k < |n.operands| ==> n.operands[k] < |reps|
  }

  predicate Partition(reps: seq<nat>) {
    forall i :: 0 <= i < |reps| ==> reps[i] < |reps| && reps[reps[i]] == reps[i]
  }

  predicate Root(reps: seq<nat>, i: nat) {
    i < |reps| && reps[i] == i
  }

  ghost predicate Respects(M: Model, reps: seq<nat>) {
    forall i :: 0 <= i < |reps| ==> M.val(reps[i]) == M.val(i)
  }

  lemma CanonIdem(reps: seq<nat>, n: ENode)
    requires Partition(reps) && InRange(reps, n)
    ensures Canon(reps, Canon(reps, n)) == Canon(reps, n) && InRange(reps, Canon(reps, n))
    ensures forall k :: 0 <= k < |n.operands| ==> Root(reps, Canon(reps, n).operands[k])
  {
    assert Canon(reps, Canon(reps, n)).operands == Canon(reps, n).operands;
  }

  lemma DenoteCanon(M: Model, reps: seq<nat>, n: ENode)
    requires Respects(M, reps)
    ensures Denote(M, Canon(reps, n)) == Denote(M, n)
  {
    assert Values(M, Canon(reps, n).operands) == Values(M, n.operands);
  }

  function Sub(a: nat, b: nat, i: nat): nat {
    if i == b then a else i
  }

  /** Joining class b into class a renames b in every canonical form. */
  lemma CanonJoin(reps: seq<nat>, a: nat, b: nat, n: ENode)
    requires Partition(reps) && InRange(reps, n) && Root(reps, a) && Root(reps, b)
    ensures var reps' := UF.Joined(reps, a, b); var x, x' := Canon(reps, n), Canon(reps', n);
      && Canon(reps', x) == x'
      && (forall k :: 0 <= k < |n.operands| ==> x'.operands[k] == Sub(a, b, x.operands[k]))
      && (b !in x.operands ==> x' == x)
      && (b in x.operands ==> a in x'.operands)
  {
    var reps' := UF.Joined(reps, a, b);
    var x, x' := Canon(reps, n), Canon(reps', n);
    assert Canon(reps', x).operands == x'.operands;
    if b !in x.operands {
      forall k | 0 <= k < |n.operands| ensures x'.operands[k] == x.operands[k] { assert x.operands[k] in x.operands; }
      assert x'.operands == x.operands;
    } else {
      var k :| 0 <= k < |x.operands| && x.operands[k] == b;
      assert x'.operands[k] == a;
    }
  }

  // ----- the invariant, piece by piece -----

  /** No constant class has this value. */
  ghost predicate Free(M: Model, G: Graph, v: Value) {
    forall c :: c in G.classes && G.classes[c].constIndex.Some? ==> M.val(c) != v
  }

  /** The parent list of class b leads, for canonical node x, to class q. */
  ghost predicate HasEntry(G: Graph, b: nat, x: ENode, q: nat) {
    b in G.classes && exists m :: m in G.classes[b].parents && IsEntry(G, b, x, q, m)
  }

  ghost predicate IsEntry(G: Graph, b: nat, x: ENode, q: nat, m: ENode)
    requires b in G.classes && m in G.classes[b].parents
  {
    Canon(G.reps, m) == x && Find(G.reps, G.classes[b].parents[m]) == q
  }

  ghost predicate Touches(x: ENode, pend: set<nat>) {
    exists k :: 0 <= k < |x.operands| && x.operands[k] in pend
  }

  /** Node x of class q is listed with every one of its operands. */
  ghost predicate Listed(G: Graph, x: ENode, q: nat) {
    forall k {:trigger HasEntry(G, x.operands[k], x, q)} :: 0 <= k < |x.operands| ==> HasEntry(G, x.operands[k], x, q)
  }

  ghost predicate Hashed(G: Graph, x: ENode, q: nat) {
    x in G.hashcons && Find(G.reps, G.hashcons[x]) == q
  }

  /** One entry of a parent list. */
  ghost predicate EntryOk(M: Model, G: Graph, pend: set<nat>, b: nat, m: ENode)
    requires b in G.classes && m in G.classes[b].parents
  {
    var p := G.classes[b].parents[m];
    var x := Canon(G.reps, m);
    && InRange(G.reps, m) && p < |G.reps| && b in x.operands
    && Denote(M, m) == M.val(p)
    && (Free(M, G, M.val(p)) ==>
          Listed(G, x, Find(G.reps, p)) && (Touches(x, pend) || Hashed(G, x, Find(G.reps, p))))
  }

  /** One node held by a class. */
  ghost predicate NodeOk(M: Model, G: Graph, c: nat, n: ENode) {
    && InRange(G.reps, n) && Denote(M, n) == M.val(c)
    && (IsConst(n.data) ==> n.operands == [])
    && (n.operands == [] ==> Hashed(G, n, c))
    && (Free(M, G, M.val(c)) ==> Listed(G, Canon(G.reps, n), c))
  }

  ghost predicate HashOk(M: Model, G: Graph, n: ENode)
    requires n in G.hashcons
  {
    && InRange(G.reps, n) && G.hashcons[n] < |G.reps| && Denote(M, n) == M.val(G.hashcons[n])
    && (Free(M, G, M.val(G.hashcons[n])) ==> Listed(G, Canon(G.reps, n), Find(G.reps, G.hashcons[n])))
  }

  ghost predicate ClassOk(M: Model, c: nat, e: EClass) {
    && e.nodes != []
    && (e.constIndex.Some? ==> e.constIndex.value < |e.nodes| && IsConst(e.nodes[e.constIndex.value].data))
    && (e.cache.expr.Some? ==> EvalTerm(M.op, e.cache.expr.value) == M.val(c))
  }

  ghost predicate Shape(M: Model, G: Graph) {
    && Partition(G.reps) && Respects(M, G.reps)
    && (forall i :: i in G.classes <==> Root(G.reps, i))
  }

  /** `pend` holds the classes still to be repaired. */
  ghost predicate Inv(M: Model, G: Graph, pend: set<nat>) {
    && Shape(M, G)
    && (forall c {:trigger ClassOk(M, c, G.classes[c])} :: c in G.classes ==> ClassOk(M, c, G.classes[c]))
    && (forall c, n {:trigger NodeOk(M, G, c, n)} :: c in G.classes && n in G.classes[c].nodes ==> NodeOk(M, G, c, n))
    && (forall b, m {:trigger EntryOk(M, G, pend, b, m)} ::
          b in G.classes && m in G.classes[b].parents ==> EntryOk(M, G, pend, b, m))
    && (forall n {:trigger HashOk(M, G, n)} :: n in G.hashcons ==> HashOk(M, G, n))
  }

  /** Between operations, a parent entry that is already canonical is in the hash table. */
  ghost predicate Keyed(M: Model, G: Graph) {
    forall b, m {:trigger KeyOk(M, G, b, m)} :: b in G.classes && m in G.classes[b].parents ==> KeyOk(M, G, b, m)
  }

  ghost predicate KeyOk(M: Model, G: Graph, b: nat, m: ENode)
    requires b in G.classes && m in G.classes[b].parents
  {
    Canon(G.reps, m) == m && Free(M, G, M.val(G.classes[b].parents[m])) ==> m in G.hashcons
  }

  /**
   S gives congruent parents one value.  Where congruent parents have the value of their children,
   they are in one class already, or each is already in its child's class.  S interprets nothing but
   the parent lists, and has nothing to do with the models in which the graph is sound: see Untangled
   in EGraphTangles.
   */
  ghost predicate Settled(S: Model, G: Graph) {
    && Respects(S, G.reps)
    && (forall b, m {:trigger SettledAt(S, G, b, m)} :: b in G.classes && m in G.classes[b].parents ==> SettledAt(S, G, b, m))
    && forall b, m, c, k {:trigger CalmAt(S, G, b, m, c, k)} ::
         b in G.classes && m in G.classes[b].parents && c in G.classes && k in G.classes[c].parents ==> CalmAt(S, G, b, m, c, k)
  }

  ghost predicate SettledAt(S: Model, G: Graph, b: nat, m: ENode)
    requires b in G.classes && m in G.classes[b].parents
  {
    Denote(S, m) == S.val(G.classes[b].parents[m])
  }

  ghost predicate CalmAt(S: Model, G: Graph, b: nat, m: ENode, c: nat, k: ENode)
    requires b in G.classes && m in G.classes[b].parents && c in G.classes && k in G.classes[c].parents
  {
    var p, q := G.classes[b].parents[m], G.classes[c].parents[k];
    m.data == k.data && Values(S, m.operands) == Values(S, k.operands) && S.val(p) == S.val(b) == S.val(c) ==>
      Find(G.reps, p) == Find(G.reps, q) || (Find(G.reps, p) == b && Find(G.reps, q) == c)
  }

  /** The two graphs have the same partition and the same parent lists. */
  ghost predicate SameParents(G: Graph, G': Graph) {
    && G'.reps == G.reps && G'.classes.Keys == G.classes.Keys
    && forall c :: c in G.classes ==> G'.classes[c].parents == G.classes[c].parents
  }

  lemma SettledSame(S: Model, G: Graph, G': Graph)
    requires Settled(S, G) && SameParents(G, G')
    ensures Settled(S, G')
  {
    forall b, m | b in G'.classes && m in G'.classes[b].parents ensures SettledAt(S, G', b, m) {
      assert SettledAt(S, G, b, m);
    }
    forall b, m, c, k | b in G'.classes && m in G'.classes[b].parents && c in G'.classes && k in G'.classes[c].parents
      ensures CalmAt(S, G', b, m, c, k)
    { assert CalmAt(S, G, b, m, c, k); }
  }

  /** Only the membership of roots in `pend` matters. */
  lemma InvMono(M: Model, G: Graph, pend: set<nat>, pend': set<nat>)
    requires Inv(M, G, pend)
    requires forall o :: Root(G.reps, o) && o in pend ==> o in pend'
    ensures Inv(M, G, pend')
  {
    forall b, m | b in G.classes && m in G.classes[b].parents ensures EntryOk(M, G, pend', b, m) {
      assert EntryOk(M, G, pend, b, m);
      var x := Canon(G.reps, m);
      CanonIdem(G.reps, m);
      if Touches(x, pend) {
        var k :| 0 <= k < |x.operands| && x.operands[k] in pend;
        assert Root(G.reps, x.operands[k]);
      }
    }
  }

  // ----- what a rebuilt graph promises -----

  /** With nothing left to repair, the hash table finds every held node whose value is no constant's. */
  lemma RebuiltFinds(M: Model, G: Graph, c: nat, n: ENode)
    requires Inv(M, G, {}) && c in G.classes && n in G.classes[c].nodes
    requires Free(M, G, M.val(c)) || n.operands == []
    ensures Hashed(G, Canon(G.reps, n), c)
  {
    assert NodeOk(M, G, c, n);
    var x := Canon(G.reps, n);
    if n.operands == [] {
      assert x == n;
    } else {
      var o := x.operands[0];
      assert HasEntry(G, o, x, c);
      var m :| m in G.classes[o].parents && IsEntry(G, o, x, c, m);
      assert EntryOk(M, G, {}, o, m);
      var p := G.classes[o].parents[m];
      assert M.val(p) == M.val(c) by { assert M.val(G.reps[p]) == M.val(p); }
    }
  }

  /** Congruence: held nodes with one canonical form are in one class, unless their value is a constant's. */
  lemma RebuiltCongruent(M: Model, G: Graph, c1: nat, n1: ENode, c2: nat, n2: ENode)
    requires Inv(M, G, {}) && c1 in G.classes && n1 in G.classes[c1].nodes && c2 in G.classes && n2 in G.classes[c2].nodes
    requires Canon(G.reps, n1) == Canon(G.reps, n2)
    requires Free(M, G, M.val(c1)) || n1.operands == []
    ensures c1 == c2
  {
    assert NodeOk(M, G, c1, n1) && NodeOk(M, G, c2, n2);
    DenoteCanon(M, G.reps, n1);
    DenoteCanon(M, G.reps, n2);
    assert |n1.operands| == |Canon(G.reps, n1).operands| == |n2.operands|;
    RebuiltFinds(M, G, c1, n1);
    RebuiltFinds(M, G, c2, n2);
  }
}
