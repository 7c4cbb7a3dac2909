/**
 Cost-based extraction from an e-graph (EGraphExtractor in src/IR/EGraph.cpp), with costs as
 unbounded naturals.

 On an acyclic graph `eval_cost` is the least cost of any expression tree the class represents, and
 `extract` returns a represented tree of that cost.  Every represented tree has the value of its
 class in every model the graph is valid for.
 */
module Extractor {
  import UF = UnionFind
  import opened EGraphModel
  import opened Options
  import opened EGraphSteps
  import EG = EGraph

  /** What extraction reads: the partition and the nodes of each class, without the caches. */
  datatype Skeleton = Skeleton(reps: seq<nat>, nodes: map<nat, seq<ENode>>)

  function SkeletonOf(reps: seq<nat>, classes: map<nat, EClass>): Skeleton {
    Skeleton(reps, map c | c in classes :: classes[c].nodes)
  }

  /** `eval_cost(opcode)`: symbolic constants are expensive. */
  function OpCost(d: OpData): (c: nat)
    ensures c >= 1
  {
    if d.SymbolData? then 65536 else 1
  }

  /** Every operand of a node is in a class of smaller rank: no class is its own ancestor. */
  ghost predicate Acyclic(S: Skeleton, rank: nat -> nat) {
    && (forall c {:trigger S.nodes[c]} :: c in S.nodes ==> S.nodes[c] != [])
    && (forall c, i {:trigger NodeBelow(S, rank, c, S.nodes[c][i])} ::
          c in S.nodes && 0 <= i < |S.nodes[c]| ==> NodeBelow(S, rank, c, S.nodes[c][i]))
  }

  ghost predicate NodeBelow(S: Skeleton, rank: nat -> nat, c: nat, n: ENode) {
    forall k {:trigger n.operands[k]} :: 0 <= k < |n.operands| ==>
      n.operands[k] < |S.reps| && S.reps[n.operands[k]] in S.nodes && rank(S.reps[n.operands[k]]) < rank(c)
  }

  // ----- least costs -----

  ghost function ClassCost(S: Skeleton, rank: nat -> nat, c: nat): nat
    requires Acyclic(S, rank) && c in S.nodes
    decreases rank(c), 2, 0
  {
    CostUpTo(S, rank, c, |S.nodes[c]|)
  }

  /** The least cost among the first i nodes of class c. */
  ghost function CostUpTo(S: Skeleton, rank: nat -> nat, c: nat, i: nat): nat
    requires Acyclic(S, rank) && c in S.nodes && 1 <= i <= |S.nodes[c]|
    decreases rank(c), 1, i
  {
    var last := NodeCost(S, rank, c, S.nodes[c][i - 1]);
    if i == 1 then last
    else var rest := CostUpTo(S, rank, c, i - 1); if last < rest then last else rest
  }

  ghost function NodeCost(S: Skeleton, rank: nat -> nat, c: nat, n: ENode): nat
    requires Acyclic(S, rank) && c in S.nodes && n in S.nodes[c]
    decreases rank(c), 0, |n.operands| + 1
  {
    OpCost(n.data) + OperandsCost(S, rank, c, n, |n.operands|)
  }

  ghost function OperandsCost(S: Skeleton, rank: nat -> nat, c: nat, n: ENode, j: nat): nat
    requires Acyclic(S, rank) && c in S.nodes && n in S.nodes[c] && j <= |n.operands|
    decreases rank(c), 0, j
  {
    if j == 0 then 0
    else
      assert NodeBelow(S, rank, c, n) by { NodeIsBelow(S, rank, c, n); }
      OperandsCost(S, rank, c, n, j - 1) + ClassCost(S, rank, S.reps[n.operands[j - 1]])
  }

  lemma NodeIsBelow(S: Skeleton, rank: nat -> nat, c: nat, n: ENode)
    requires Acyclic(S, rank) && c in S.nodes && n in S.nodes[c]
    ensures NodeBelow(S, rank, c, n)
  {
    var i :| 0 <= i < |S.nodes[c]| && S.nodes[c][i] == n;
    assert NodeBelow(S, rank, c, S.nodes[c][i]);
  }

  // ----- the trees of a class -----

  ghost predicate Represents(S: Skeleton, t: Term, c: nat)
    decreases t, 1
  {
    c in S.nodes && exists n :: n in S.nodes[c] && Instance(S, t, n)
  }

  /** t is node n with a represented tree for each operand. */
  ghost predicate Instance(S: Skeleton, t: Term, n: ENode)
    decreases t, 0
  {
    && n.data == t.data && |n.operands| == |t.args|
    && (forall k {:trigger t.args[k]} :: 0 <= k < |t.args| ==> Represents(S, t.args[k], Find(S.reps, n.operands[k])))
  }

  function TermCost(t: Term): nat {
    OpCost(t.data) + ArgsCost(t, |t.args|)
  }

  function ArgsCost(t: Term, j: nat): nat
    requires j <= |t.args|
    decreases t, j
  {
    if j == 0 then 0 else ArgsCost(t, j - 1) + TermCost(t.args[j - 1])
  }

  // ----- what the costs prefer -----

  /** How many symbolic constants a tree has, and how many nodes that are not. */
  datatype Makeup = Makeup(symbols: nat, others: nat)

  function MakeupOf(t: Term): Makeup {
    var rest := ArgsMakeup(t, |t.args|);
    if t.data.SymbolData? then Makeup(rest.symbols + 1, rest.others) else Makeup(rest.symbols, rest.others + 1)
  }

  function ArgsMakeup(t: Term, j: nat): Makeup
    requires j <= |t.args|
    decreases t, j
  {
    if j == 0 then Makeup(0, 0)
    else
      var rest, last := ArgsMakeup(t, j - 1), MakeupOf(t.args[j - 1]);
      Makeup(rest.symbols + last.symbols, rest.others + last.others)
  }

  /**
   A tree with makeup m is to be preferred to one with makeup m'.  A symbolic constant weighs as much as
   2^16 other nodes; so fewer symbols win against any tree with fewer than 2^16 other nodes, and among
   trees with equally many symbols the smaller one wins.
   */
  predicate AtLeastAsGood(m: Makeup, m': Makeup) {
    && 65536 * m.symbols + m.others <= 65536 * m'.symbols + m'.others
    && (m'.others < 65536 ==> m.symbols <= m'.symbols)
    && (m.symbols == m'.symbols ==> m.others <= m'.others)
  }

  /** t is a tree of class c, and no tree of the class is better. */
  ghost predicate Best(S: Skeleton, c: nat, t: Term) {
    Represents(S, t, c) && forall t' :: Represents(S, t', c) ==> AtLeastAsGood(MakeupOf(t), MakeupOf(t'))
  }

  lemma {:induction false} CostIsMakeup(t: Term)
    ensures TermCost(t) == 65536 * MakeupOf(t).symbols + MakeupOf(t).others
    decreases t, |t.args| + 1
  {
    ArgsCostIsMakeup(t, |t.args|);
  }

  lemma {:induction false} ArgsCostIsMakeup(t: Term, j: nat)
    requires j <= |t.args|
    ensures ArgsCost(t, j) == 65536 * ArgsMakeup(t, j).symbols + ArgsMakeup(t, j).others
    decreases t, j
  {
    if j > 0 {
      ArgsCostIsMakeup(t, j - 1);
      CostIsMakeup(t.args[j - 1]);
    }
  }

  /** A tree of least cost is a best tree. */
  lemma LeastIsBest(S: Skeleton, rank: nat -> nat, c: nat, t: Term)
    requires Acyclic(S, rank) && c in S.nodes && ExprOk(S, rank, c, t)
    ensures Best(S, c, t)
  {
    CostIsMakeup(t);
    forall t' | Represents(S, t', c) ensures AtLeastAsGood(MakeupOf(t), MakeupOf(t')) {
      CostIsMakeup(t');
      ClassCostLeast(S, rank, t', c);
    }
  }

  /** If the class has a tree without symbols of fewer than 2^16 nodes, a best tree has no symbols. */
  lemma BestIsSymbolFree(S: Skeleton, c: nat, t: Term, t': Term)
    requires Best(S, c, t) && Represents(S, t', c) && MakeupOf(t').symbols == 0 && MakeupOf(t').others < 65536
    ensures MakeupOf(t).symbols == 0 && MakeupOf(t).others <= MakeupOf(t').others
  {
    assert AtLeastAsGood(MakeupOf(t), MakeupOf(t'));
  }

  /** The least cost is at most the cost of each node. */
  lemma {:induction false} CostUpToLeast(S: Skeleton, rank: nat -> nat, c: nat, i: nat, k: nat)
    requires Acyclic(S, rank) && c in S.nodes && k < i <= |S.nodes[c]|
    ensures CostUpTo(S, rank, c, i) <= NodeCost(S, rank, c, S.nodes[c][k])
    decreases i
  {
    if k < i - 1 { CostUpToLeast(S, rank, c, i - 1, k); }
  }

  /** No tree of a class costs less than the class. */
  lemma {:induction false} ClassCostLeast(S: Skeleton, rank: nat -> nat, t: Term, c: nat)
    requires Acyclic(S, rank) && Represents(S, t, c)
    ensures ClassCost(S, rank, c) <= TermCost(t)
    decreases t, 1
  {
    var n :| n in S.nodes[c] && Instance(S, t, n);
    var i :| 0 <= i < |S.nodes[c]| && S.nodes[c][i] == n;
    CostUpToLeast(S, rank, c, |S.nodes[c]|, i);
    OperandsCostLeast(S, rank, t, c, n, |t.args|);
  }

  lemma {:induction false} OperandsCostLeast(S: Skeleton, rank: nat -> nat, t: Term, c: nat, n: ENode, j: nat)
    requires Acyclic(S, rank) && c in S.nodes && n in S.nodes[c] && Instance(S, t, n) && j <= |t.args|
    ensures OperandsCost(S, rank, c, n, j) <= ArgsCost(t, j)
    decreases t, 0, j
  {
    if j > 0 {
      NodeIsBelow(S, rank, c, n);
      OperandsCostLeast(S, rank, t, c, n, j - 1);
      assert t.args[j - 1] in t.args && n.operands[j - 1] < |S.reps|;
      ClassCostLeast(S, rank, t.args[j - 1], S.reps[n.operands[j - 1]]);
    }
  }

  /** Every tree of a class has the class's value, in every model of the graph. */
  lemma {:induction false} RepresentsValue(M: Model, G: Graph, pend: set<nat>, t: Term, c: nat)
    requires Inv(M, G, pend) && Represents(SkeletonOf(G.reps, G.classes), t, c)
    ensures EvalTerm(M.op, t) == M.val(c)
    decreases t
  {
    var S := SkeletonOf(G.reps, G.classes);
    var n :| n in S.nodes[c] && Instance(S, t, n);
    assert NodeOk(M, G, c, n);
    forall k | 0 <= k < |t.args| ensures EvalTerm(M.op, t.args[k]) == M.val(n.operands[k]) {
      assert t.args[k] in t.args;
      RepresentsValue(M, G, pend, t.args[k], Find(G.reps, n.operands[k]));
      assert M.val(G.reps[n.operands[k]]) == M.val(n.operands[k]);
    }
    assert Values(M, n.operands) == seq(|t.args|, k requires 0 <= k < |t.args| => EvalTerm(M.op, t.args[k]));
  }

  // ----- the extractor -----

  /** A cost that is exact: the least one, and of the node it points to. */
  ghost predicate CostOk(S: Skeleton, rank: nat -> nat, c: nat, k: Cost)
    requires Acyclic(S, rank) && c in S.nodes
  {
    k.cost == ClassCost(S, rank, c) && k.index < |S.nodes[c]| && NodeCost(S, rank, c, S.nodes[c][k.index]) == k.cost
  }

  /** The least cost among the first i nodes, and where it is. */
  ghost predicate LeastUpTo(S: Skeleton, rank: nat -> nat, c: nat, k: Cost, i: nat)
    requires Acyclic(S, rank) && c in S.nodes && 1 <= i <= |S.nodes[c]|
  {
    k.cost == CostUpTo(S, rank, c, i) && k.index < i && NodeCost(S, rank, c, S.nodes[c][k.index]) == k.cost
  }

  lemma LeastStep(S: Skeleton, rank: nat -> nat, c: nat, k: Cost, i: nat, cost: nat)
    requires Acyclic(S, rank) && c in S.nodes && i < |S.nodes[c]|
    requires cost == NodeCost(S, rank, c, S.nodes[c][i]) && (i > 0 ==> LeastUpTo(S, rank, c, k, i))
    ensures LeastUpTo(S, rank, c, if i == 0 || cost < k.cost then Cost(cost, i) else k, i + 1)
  {}

  /** A tree that is optimal. */
  ghost predicate ExprOk(S: Skeleton, rank: nat -> nat, c: nat, t: Term)
    requires Acyclic(S, rank) && c in S.nodes
  {
    Represents(S, t, c) && TermCost(t) == ClassCost(S, rank, c)
  }

  ghost predicate CacheOk(S: Skeleton, rank: nat -> nat, c: nat, cache: Cache)
    requires Acyclic(S, rank) && c in S.nodes
  {
    && (cache.cost.Some? ==> CostOk(S, rank, c, cache.cost.value))
    && (cache.expr.Some? ==> ExprOk(S, rank, c, cache.expr.value))
  }

  /** All caches are exact; cleared caches are. */
  ghost predicate CachesOk(S: Skeleton, rank: nat -> nat, classes: map<nat, EClass>)
    requires Acyclic(S, rank)
  {
    forall c {:trigger classes[c].cache} :: c in classes ==> c in S.nodes && CacheOk(S, rank, c, classes[c].cache)
  }

  function Cached(classes: map<nat, EClass>): set<nat> {
    set c | c in classes && classes[c].cache.cost.Some?
  }

  ghost predicate OperandsCachedTo(S: Skeleton, classes: map<nat, EClass>, n: ENode, j: nat) {
    j <= |n.operands| && forall k {:trigger n.operands[k]} :: 0 <= k < j ==> Find(S.reps, n.operands[k]) in Cached(classes)
  }

  ghost predicate OperandsCached(S: Skeleton, classes: map<nat, EClass>, n: ENode) {
    OperandsCachedTo(S, classes, n, |n.operands|)
  }

  /** A cached cost comes with cached costs all the way down, and every cost in the table is also cached. */
  ghost predicate Priced(S: Skeleton, classes: map<nat, EClass>, costs: map<nat, Cost>) {
    && costs.Keys <= Cached(classes)
    && (forall c, i {:trigger OperandsCached(S, classes, S.nodes[c][i])} ::
          c in Cached(classes) && c in S.nodes && 0 <= i < |S.nodes[c]| ==> OperandsCached(S, classes, S.nodes[c][i]))
  }

  /** The graph's caches and the extractor's own tables are exact. */
  ghost predicate MemoOk(S: Skeleton, rank: nat -> nat, classes: map<nat, EClass>, costs: map<nat, Cost>,
                         expressions: map<nat, Term>) {
    && Acyclic(S, rank) && CachesOk(S, rank, classes)
    && (forall c {:trigger costs[c]} :: c in costs ==> c in S.nodes && CostOk(S, rank, c, costs[c]))
    && (forall c {:trigger expressions[c]} :: c in expressions ==> c in S.nodes && ExprOk(S, rank, c, expressions[c]))
  }

  lemma MemoCost(S: Skeleton, rank: nat -> nat, classes: map<nat, EClass>, costs: map<nat, Cost>,
                 expressions: map<nat, Term>, c: nat, k: Cost)
    requires MemoOk(S, rank, classes, costs, expressions) && c in S.nodes && CostOk(S, rank, c, k)
    ensures MemoOk(S, rank, classes, costs[c := k], expressions)
  {
    forall d | d in costs[c := k] ensures d in S.nodes && CostOk(S, rank, d, costs[c := k][d]) {
      assert d != c ==> CostOk(S, rank, d, costs[d]);
    }
  }

  lemma MemoExpr(S: Skeleton, rank: nat -> nat, classes: map<nat, EClass>, costs: map<nat, Cost>,
                 expressions: map<nat, Term>, c: nat, t: Term)
    requires MemoOk(S, rank, classes, costs, expressions) && c in S.nodes && ExprOk(S, rank, c, t)
    ensures MemoOk(S, rank, classes, costs, expressions[c := t])
  {
    forall d | d in expressions[c := t] ensures d in S.nodes && ExprOk(S, rank, d, expressions[c := t][d]) {
      assert d != c ==> ExprOk(S, rank, d, expressions[d]);
    }
  }

  /** A class whose cache may be replaced. */
  function WithCache(classes: map<nat, EClass>, c: nat, cache: Cache): map<nat, EClass>
    requires c in classes
  {
    classes[c := classes[c].(cache := cache)]
  }

  lemma WithCacheKeeps(S: Skeleton, rank: nat -> nat, classes: map<nat, EClass>, c: nat, cache: Cache)
    requires Acyclic(S, rank) && CachesOk(S, rank, classes) && c in classes && c in S.nodes && CacheOk(S, rank, c, cache)
    ensures CachesOk(S, rank, WithCache(classes, c, cache))
    ensures forall reps :: SkeletonOf(reps, WithCache(classes, c, cache)) == SkeletonOf(reps, classes)
  {
    var classes' := WithCache(classes, c, cache);
    forall d | d in classes' ensures d in S.nodes && CacheOk(S, rank, d, classes'[d].cache) {
      assert d != c ==> CacheOk(S, rank, d, classes[d].cache);
    }
  }

  ghost predicate NodesCached(S: Skeleton, classes: map<nat, EClass>, c: nat) {
    c in S.nodes ==> forall i {:trigger S.nodes[c][i]} :: 0 <= i < |S.nodes[c]| ==> OperandsCached(S, classes, S.nodes[c][i])
  }

  ghost predicate FirstCached(S: Skeleton, classes: map<nat, EClass>, nodes: seq<ENode>, i: nat) {
    i <= |nodes| && forall h {:trigger nodes[h]} :: 0 <= h < i ==> OperandsCached(S, classes, nodes[h])
  }

  lemma StillCached(S: Skeleton, classes: map<nat, EClass>, classes': map<nat, EClass>, nodes: seq<ENode>, i: nat)
    requires FirstCached(S, classes, nodes, i) && i < |nodes| && Cached(classes) <= Cached(classes')
    requires OperandsCached(S, classes', nodes[i])
    ensures FirstCached(S, classes', nodes, i + 1)
  {
    forall h | 0 <= h < i + 1 ensures OperandsCached(S, classes', nodes[h]) {
      if h < i { assert OperandsCached(S, classes, nodes[h]); }
    }
  }

  lemma CachedValue(M: Model, G: Graph, pend: set<nat>, c: nat)
    requires Inv(M, G, pend) && c in G.classes
    ensures G.classes[c].cache.expr.Some? ==> EvalTerm(M.op, G.classes[c].cache.expr.value) == M.val(c)
  {
    assert ClassOk(M, c, G.classes[c]);
  }

  lemma CachedOk(S: Skeleton, rank: nat -> nat, classes: map<nat, EClass>, c: nat)
    requires Acyclic(S, rank) && CachesOk(S, rank, classes) && c in classes
    ensures c in S.nodes && CacheOk(S, rank, c, classes[c].cache)
  {
    assert CacheOk(S, rank, c, classes[c].cache);
  }

  lemma CachedBelow(S: Skeleton, classes: map<nat, EClass>, costs: map<nat, Cost>, c: nat)
    requires Priced(S, classes, costs) && c in Cached(classes)
    ensures NodesCached(S, classes, c)
  {
    if c in S.nodes {
      forall i | 0 <= i < |S.nodes[c]| ensures OperandsCached(S, classes, S.nodes[c][i]) {}
    }
  }

  lemma WithCachePriced(S: Skeleton, classes: map<nat, EClass>, c: nat, cache: Cache, costs: map<nat, Cost>)
    requires Priced(S, classes, costs) && c in classes && (classes[c].cache.cost.Some? ==> cache.cost.Some?)
    requires cache.cost.Some? ==> NodesCached(S, classes, c)
    ensures Priced(S, WithCache(classes, c, cache), costs)
    ensures Cached(WithCache(classes, c, cache)) == if cache.cost.Some? then Cached(classes) + {c} else Cached(classes)
  {
    var classes' := WithCache(classes, c, cache);
    forall d, i | d in Cached(classes') && d in S.nodes && 0 <= i < |S.nodes[d]|
      ensures OperandsCached(S, classes', S.nodes[d][i])
    { assert OperandsCached(S, classes, S.nodes[d][i]); }
  }

  class Extractor {
    const graph: EG.EGraph
    const isConst: bool
    var costs: map<nat, Cost>
    var expressions: map<nat, Term>
    var visited: set<nat>

    constructor (graph: EG.EGraph, isConst: bool)
      ensures this.graph == graph && this.isConst == isConst
      ensures costs == map[] && expressions == map[] && visited == {}
    {
      this.graph, this.isConst := graph, isConst;
      costs, expressions, visited := map[], map[], {};
    }

    ghost function Skel(): Skeleton
      reads this, graph, graph.unionFind
    {
      SkeletonOf(graph.unionFind.reps, graph.classes)
    }

    /** Classes whose evaluation has begun and not ended: visited, with neither a table entry nor a cached cost. */
    ghost function Open(): set<nat>
      reads this, graph
    {
      visited - costs.Keys - Cached(graph.classes)
    }

    ghost predicate Valid(M: Model, rank: nat -> nat)
      reads this, graph, graph.unionFind
    {
      && graph.Valid(M) && MemoOk(Skel(), rank, graph.classes, costs, expressions)
      && (isConst || Priced(Skel(), graph.classes, costs))
    }

    /** The classes being evaluated lie above rank r. */
    ghost predicate Above(rank: nat -> nat, r: nat)
      reads this, graph
    {
      forall v :: v in Open() ==> rank(v) > r
    }

    /** What evaluation leaves alone: the graph but for its caches.  It ends what it begins. */
    twostate predicate OnlyCaches()
      reads this, graph, graph.unionFind
    {
      && graph.unionFind.reps == old(graph.unionFind.reps) && Skel() == old(Skel())
      && Open() <= old(Open()) && Cached(old(graph.classes)) <= Cached(graph.classes)
    }

    /** `update_cached` for a cost. */
    method CacheCost(c: nat, k: Cost, ghost M: Model, ghost rank: nat -> nat)
      requires Valid(M, rank) && c in graph.classes && CostOk(Skel(), rank, c, k)
      requires isConst || NodesCached(Skel(), graph.classes, c)
      modifies this, graph`classes
      ensures Valid(M, rank) && OnlyCaches() && c !in Open() && (isConst || c in Cached(graph.classes))
    {
      if !isConst {
        CachedValue(M, graph.Abs(), EG.Reps(graph.unionFind.reps, graph.worklist), c);
        CachedOk(Skel(), rank, graph.classes, c);
        StoreCache(c, graph.classes[c].cache.(cost := Some(k)), M, rank);
      }
      RecordCost(c, k, M, rank);
    }

    /** `costs.emplace(c, k)`. */
    method RecordCost(c: nat, k: Cost, ghost M: Model, ghost rank: nat -> nat)
      requires Valid(M, rank) && c in graph.classes && CostOk(Skel(), rank, c, k) && (isConst || c in Cached(graph.classes))
      modifies this`costs
      ensures Valid(M, rank) && c in costs && old(costs).Keys <= costs.Keys
    {
      MemoCost(Skel(), rank, graph.classes, costs, expressions, c, k);
      if c !in costs { costs := costs[c := k]; }
    }

    /** `expressions.emplace(c, t)`. */
    method RecordExpr(c: nat, t: Term, ghost M: Model, ghost rank: nat -> nat)
      requires Valid(M, rank) && c in graph.classes && ExprOk(Skel(), rank, c, t)
      modifies this`expressions
      ensures Valid(M, rank) && c in expressions
    {
      MemoExpr(Skel(), rank, graph.classes, costs, expressions, c, t);
      if c !in expressions { expressions := expressions[c := t]; }
    }

    /** `update_cached` for an expression. */
    method CacheExpr(c: nat, t: Term, ghost M: Model, ghost rank: nat -> nat)
      requires Valid(M, rank) && c in graph.classes && ExprOk(Skel(), rank, c, t)
      modifies this, graph`classes
      ensures Valid(M, rank) && OnlyCaches()
    {
      RecordExpr(c, t, M, rank);
      if !isConst {
        RepresentsValue(M, graph.Abs(), EG.Reps(graph.unionFind.reps, graph.worklist), t, c);
        CachedOk(Skel(), rank, graph.classes, c);
        if graph.classes[c].cache.cost.Some? { CachedBelow(Skel(), graph.classes, costs, c); }
        StoreCache(c, graph.classes[c].cache.(expr := Some(t)), M, rank);
      }
    }

    method StoreCache(c: nat, cache: Cache, ghost M: Model, ghost rank: nat -> nat)
      requires Valid(M, rank) && c in graph.classes && CacheOk(Skel(), rank, c, cache) && !isConst
      requires graph.classes[c].cache.cost.Some? ==> cache.cost.Some?
      requires cache.cost.Some? ==> NodesCached(Skel(), graph.classes, c)
      requires cache.expr.Some? ==> EvalTerm(M.op, cache.expr.value) == M.val(c)
      modifies graph`classes
      ensures Valid(M, rank) && graph.classes.Keys == old(graph.classes.Keys) && Skel() == old(Skel())
      ensures Cached(graph.classes) == Cached(old(graph.classes)) + if cache.cost.Some? then {c} else {}
    {
      ghost var G := graph.Abs();
      EG.RecachedKeeps(M, G, EG.Reps(graph.unionFind.reps, graph.worklist), c, cache);
      WithCacheKeeps(Skel(), rank, graph.classes, c, cache);
      WithCachePriced(Skel(), graph.classes, c, cache, costs);
      graph.classes := graph.classes[c := graph.classes[c].(cache := cache)];
      assert graph.Abs() == EG.Recached(G, c, cache);
    }

    /** `eval_cost` of a class: the least cost of its trees.  On an acyclic graph the cycle branch is never taken. */
    method EvalCost(id: nat, ghost M: Model, ghost rank: nat -> nat) returns (k: Cost)
      requires Valid(M, rank) && id < |graph.unionFind.reps| && graph.unionFind.reps[id] in graph.classes
      requires Above(rank, rank(graph.unionFind.reps[id]))
      modifies this, graph`classes
      ensures Valid(M, rank) && OnlyCaches() && (isConst || graph.unionFind.reps[id] in Cached(graph.classes))
      ensures graph.unionFind.reps[id] in Skel().nodes && CostOk(Skel(), rank, graph.unionFind.reps[id], k)
      decreases rank(graph.unionFind.reps[id]), 1
    {
      var c := graph.unionFind.Find(id);
      if graph.classes[c].cache.cost.Some? { return graph.classes[c].cache.cost.value; }
      if c in costs { return costs[c]; }
      assert c in visited ==> c in Open();
      visited := visited + {c};
      assert Open() <= old(Open()) + {c};
      ghost var S := Skel();
      var nodes := graph.classes[c].nodes;
      assert nodes == S.nodes[c];
      k := EvalNodes(c, nodes, M, rank);
      CacheCost(c, k, M, rank);
    }

    /** The loop over the nodes of a class. */
    method EvalNodes(c: nat, nodes: seq<ENode>, ghost M: Model, ghost rank: nat -> nat) returns (k: Cost)
      requires Valid(M, rank) && c in Skel().nodes && nodes == Skel().nodes[c]
      requires forall v :: v in Open() ==> rank(v) >= rank(c)
      modifies this, graph`classes
      ensures Valid(M, rank) && OnlyCaches() && c in Skel().nodes && CostOk(Skel(), rank, c, k)
      ensures isConst || NodesCached(Skel(), graph.classes, c)
      decreases rank(c), 0, 2
    {
      k := Cost(0, 0);
      ghost var S := Skel();
      for i := 0 to |nodes|
        invariant Valid(M, rank) && OnlyCaches()
        invariant isConst || FirstCached(S, graph.classes, nodes, i)
        invariant i > 0 ==> LeastUpTo(S, rank, c, k, i)
      {
        ghost var classes := graph.classes;
        var cost := EvalNode(c, nodes[i], M, rank);
        assert Skel() == S;
        if !isConst { StillCached(S, classes, graph.classes, nodes, i); }
        LeastStep(S, rank, c, k, i, cost);
        if i == 0 || cost < k.cost { k := Cost(cost, i); }
      }
    }

    /** `eval_cost` of a node. */
    method EvalNode(c: nat, n: ENode, ghost M: Model, ghost rank: nat -> nat) returns (cost: nat)
      requires Valid(M, rank) && c in Skel().nodes && n in Skel().nodes[c]
      requires forall v :: v in Open() ==> rank(v) >= rank(c)
      modifies this, graph`classes
      ensures Valid(M, rank) && OnlyCaches() && cost == NodeCost(old(Skel()), rank, c, n)
      ensures isConst || OperandsCached(Skel(), graph.classes, n)
      decreases rank(c), 0, 1
    {
      cost := OpCost(n.data);
      ghost var S := Skel();
      for j := 0 to |n.operands|
        invariant Valid(M, rank) && OnlyCaches()
        invariant isConst || OperandsCachedTo(S, graph.classes, n, j)
        invariant cost == OpCost(n.data) + OperandsCost(S, rank, c, n, j)
      {
        var more := EvalOperand(c, n, j, M, rank);
        cost := cost + more;
      }
    }

    method EvalOperand(c: nat, n: ENode, j: nat, ghost M: Model, ghost rank: nat -> nat) returns (cost: nat)
      requires Valid(M, rank) && c in Skel().nodes && n in Skel().nodes[c] && j < |n.operands|
      requires forall v :: v in Open() ==> rank(v) >= rank(c)
      modifies this, graph`classes
      ensures Valid(M, rank) && OnlyCaches()
      ensures !isConst && old(OperandsCachedTo(Skel(), graph.classes, n, j)) ==> OperandsCachedTo(Skel(), graph.classes, n, j + 1)
      ensures OperandsCost(old(Skel()), rank, c, n, j + 1) == OperandsCost(old(Skel()), rank, c, n, j) + cost
      decreases rank(c), 0, 0
    {
      ghost var S := Skel();
      NodeIsBelow(S, rank, c, n);
      assert n.operands[j] < |S.reps| && rank(S.reps[n.operands[j]]) < rank(c);
      var k := EvalCost(n.operands[j], M, rank);
      assert Skel() == S;
      cost := k.cost;
    }

    /** `extract`: a represented tree of least cost. */
    method Extract(id: nat, ghost M: Model, ghost rank: nat -> nat) returns (t: Term)
      requires Valid(M, rank) && id < |graph.unionFind.reps| && graph.unionFind.reps[id] in graph.classes
      requires Open() == {}
      modifies this, graph`classes
      ensures Valid(M, rank) && OnlyCaches()
      ensures graph.unionFind.reps[id] in Skel().nodes && ExprOk(Skel(), rank, graph.unionFind.reps[id], t)
      ensures Best(Skel(), graph.unionFind.reps[id], t) && EvalTerm(M.op, t) == M.val(id)
      decreases rank(graph.unionFind.reps[id])
    {
      var c := graph.unionFind.Find(id);
      if graph.classes[c].cache.expr.Some? {
        t := graph.classes[c].cache.expr.value;
      } else if c in expressions {
        t := expressions[c];
      } else {
        var k := EvalCost(c, M, rank);
        assert CostOk(Skel(), rank, c, k);
        t := ExtractNode(c, graph.classes[c].nodes[k.index], M, rank);
        CacheExpr(c, t, M, rank);
      }
      RepresentsValue(M, graph.Abs(), EG.Reps(graph.unionFind.reps, graph.worklist), t, c);
      EG.SameClassSameValue(M, graph.Abs(), id, c);
      LeastIsBest(Skel(), rank, c, t);
    }

    /** The operands of the cheapest node, extracted. */
    method ExtractNode(c: nat, n: ENode, ghost M: Model, ghost rank: nat -> nat) returns (t: Term)
      requires Valid(M, rank) && c in Skel().nodes && n in Skel().nodes[c]
      requires NodeCost(Skel(), rank, c, n) == ClassCost(Skel(), rank, c)
      requires Open() == {}
      modifies this, graph`classes
      ensures Valid(M, rank) && OnlyCaches()
      ensures c in Skel().nodes && ExprOk(Skel(), rank, c, t)
      decreases rank(c), 0, 1
    {
      ghost var S := Skel();
      var args: seq<Term> := [];
      for j := 0 to |n.operands|
        invariant Valid(M, rank) && OnlyCaches()
        invariant |args| == j && ArgsOk(S, rank, n, args)
      {
        var arg := ExtractOperand(c, n, j, M, rank);
        ArgsAppend(S, rank, n, args, arg);
        args := args + [arg];
      }
      t := Term(n.data, args);
      NodeExprOk(S, rank, c, n, t);
    }

    method ExtractOperand(c: nat, n: ENode, j: nat, ghost M: Model, ghost rank: nat -> nat) returns (t: Term)
      requires Valid(M, rank) && c in Skel().nodes && n in Skel().nodes[c] && j < |n.operands| && Open() == {}
      modifies this, graph`classes
      ensures Valid(M, rank) && OnlyCaches()
      ensures var S := old(Skel()); var o := Find(S.reps, n.operands[j]); o in S.nodes && ExprOk(S, rank, o, t)
      decreases rank(c), 0, 0
    {
      ghost var S := Skel();
      NodeIsBelow(S, rank, c, n);
      assert n.operands[j] < |S.reps| && rank(S.reps[n.operands[j]]) < rank(c);
      t := Extract(n.operands[j], M, rank);
      assert Skel() == S;
    }
  }

  lemma NodeExprOk(S: Skeleton, rank: nat -> nat, c: nat, n: ENode, t: Term)
    requires Acyclic(S, rank) && c in S.nodes && n in S.nodes[c] && |t.args| == |n.operands| && t.data == n.data
    requires ArgsOk(S, rank, n, t.args) && NodeCost(S, rank, c, n) == ClassCost(S, rank, c)
    ensures ExprOk(S, rank, c, t)
  {
    ArgsCostExact(S, rank, c, n, t, |t.args|);
    assert Instance(S, t, n);
  }

  /** Optimal trees for the first operands of a node. */
  ghost predicate ArgsOk(S: Skeleton, rank: nat -> nat, n: ENode, args: seq<Term>)
    requires Acyclic(S, rank)
  {
    |args| <= |n.operands| && forall k {:trigger args[k]} :: 0 <= k < |args| ==>
      Find(S.reps, n.operands[k]) in S.nodes && ExprOk(S, rank, Find(S.reps, n.operands[k]), args[k])
  }

  lemma ArgsAppend(S: Skeleton, rank: nat -> nat, n: ENode, args: seq<Term>, arg: Term)
    requires Acyclic(S, rank) && |args| < |n.operands| && ArgsOk(S, rank, n, args)
    requires Find(S.reps, n.operands[|args|]) in S.nodes && ExprOk(S, rank, Find(S.reps, n.operands[|args|]), arg)
    ensures ArgsOk(S, rank, n, args + [arg])
  {
    forall k | 0 <= k < |args + [arg]|
      ensures Find(S.reps, n.operands[k]) in S.nodes && ExprOk(S, rank, Find(S.reps, n.operands[k]), (args + [arg])[k])
    { assert k < |args| ==> (args + [arg])[k] == args[k]; }
  }

  lemma {:induction false} ArgsCostExact(S: Skeleton, rank: nat -> nat, c: nat, n: ENode, t: Term, j: nat)
    requires Acyclic(S, rank) && c in S.nodes && n in S.nodes[c] && |t.args| == |n.operands|
    requires ArgsOk(S, rank, n, t.args) && j <= |t.args|
    ensures ArgsCost(t, j) == OperandsCost(S, rank, c, n, j)
  {
    if j > 0 {
      ArgsCostExact(S, rank, c, n, t, j - 1);
      NodeIsBelow(S, rank, c, n);
      assert ExprOk(S, rank, Find(S.reps, n.operands[j - 1]), t.args[j - 1]);
      assert n.operands[j - 1] < |S.reps|;
    }
  }
}
