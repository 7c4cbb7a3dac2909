/**
 The view of the e-graph that rewrite rules get (include/caffeine/IR/EGraphMatching.h,
 src/IR/EGraphMatching.cpp): nodes are added at once, merges only when all rules have fired.
 */
module GraphAccessors {
  import UF = UnionFind
  import opened EGraphModel
  import opened EGraphGrowth
  import EG = EGraph

  type Pair = (nat, nat)

  ghost predicate PairOk(M: Model, reps: seq<nat>, p: Pair) {
    p.0 < |reps| && p.1 < |reps| && M.val(p.0) == M.val(p.1)
  }

  /** Every queued merge is of ids with equal values. */
  ghost predicate Queued(M: Model, reps: seq<nat>, merges: seq<Pair>) {
    forall k {:trigger merges[k]} :: 0 <= k < |merges| ==> PairOk(M, reps, merges[k])
  }

  /** Adding nodes keeps what is queued. */
  lemma QueuedKept(M: Model, M': Model, reps: seq<nat>, reps': seq<nat>, merges: seq<Pair>)
    requires Queued(M, reps, merges) && |reps| <= |reps'| && forall i :: 0 <= i < |reps| ==> M'.val(i) == M.val(i)
    ensures Queued(M', reps', merges)
  {
    forall k | 0 <= k < |merges| ensures PairOk(M', reps', merges[k]) { assert PairOk(M, reps, merges[k]); }
  }

  ghost predicate Together(reps: seq<nat>, merges: seq<Pair>) {
    forall k {:trigger merges[k]} :: 0 <= k < |merges| ==> Find(reps, merges[k].0) == Find(reps, merges[k].1)
  }

  /** A labelling that gives one label to ids in one class. */
  ghost predicate Fits(F: nat -> nat, reps: seq<nat>) {
    forall i :: 0 <= i < |reps| ==> F(reps[i]) == F(i)
  }

  ghost predicate FitsPairs(F: nat -> nat, merges: seq<Pair>) {
    forall k {:trigger merges[k]} :: 0 <= k < |merges| ==> F(merges[k].0) == F(merges[k].1)
  }

  /** The partition reps' is the finest above reps that joins every pair. */
  ghost predicate JoinsExactly(reps: seq<nat>, reps': seq<nat>, merges: seq<Pair>) {
    && Coarser(reps, reps') && Together(reps', merges)
    && forall F: nat -> nat {:trigger Fits(F, reps')} :: Fits(F, reps) && FitsPairs(F, merges) ==> Fits(F, reps')
  }

  lemma JoinFits(F: nat -> nat, reps: seq<nat>, a: nat, b: nat)
    requires Fits(F, reps) && F(a) == F(b)
    ensures Fits(F, UF.Joined(reps, a, b))
  {}

  /** One more merge, of the classes of ids x and y. */
  lemma JoinOneMore(reps: seq<nat>, mid: seq<nat>, reps': seq<nat>, done: seq<Pair>, x: nat, y: nat)
    requires JoinsExactly(reps, mid, done) && x < |mid| && y < |mid|
    requires Coarser(mid, reps') && reps'[x] == reps'[y]
    requires forall k {:trigger done[k]} :: 0 <= k < |done| ==> done[k].0 < |mid| && done[k].1 < |mid|
    requires reps' == if mid[x] == mid[y] then mid else UF.Joined(mid, mid[x], mid[y])
    ensures JoinsExactly(reps, reps', done + [(x, y)])
  {
    var all := done + [(x, y)];
    forall k | 0 <= k < |all| ensures Find(reps', all[k].0) == Find(reps', all[k].1) {
      if k < |done| { assert all[k] == done[k]; }
    }
    forall F: nat -> nat | Fits(F, reps) && FitsPairs(F, all) ensures Fits(F, reps') {
      forall k | 0 <= k < |done| ensures F(done[k].0) == F(done[k].1) { assert all[k] == done[k]; }
      assert F(all[|done|].0) == F(all[|done|].1);
      assert Fits(F, mid);
      if mid[x] != mid[y] { JoinFits(F, mid, mid[x], mid[y]); }
    }
  }

  class GraphAccessor {
    const graph: EG.EGraph
    var merges: seq<Pair>

    constructor (graph: EG.EGraph)
      ensures this.graph == graph && merges == []
    {
      this.graph, merges := graph, [];
    }

    /** `merge`: remember the pair, unless the ids are the same. */
    method MergeLater(id1: nat, id2: nat, ghost M: Model) returns (id: nat)
      requires Queued(M, graph.unionFind.reps, merges) && PairOk(M, graph.unionFind.reps, (id1, id2))
      modifies this
      ensures id == id1 && Queued(M, graph.unionFind.reps, merges)
      ensures merges == if id1 == id2 then old(merges) else old(merges) + [(id1, id2)]
    {
      if id1 != id2 {
        merges := merges + [(id1, id2)];
      }
      id := id1;
    }

    /** `persist`: the queued merges, in order. */
    method Persist(ghost M: Model)
      requires graph.Valid(M) && Queued(M, graph.unionFind.reps, merges)
      modifies this, graph, graph.unionFind
      ensures graph.Valid(M) && merges == []
      ensures JoinsExactly(old(graph.unionFind.reps), graph.unionFind.reps, old(merges))
    {
      ghost var reps0 := graph.unionFind.reps;
      for i := 0 to |merges|
        invariant graph.Valid(M) && merges == old(merges) && Queued(M, graph.unionFind.reps, merges)
        invariant JoinsExactly(reps0, graph.unionFind.reps, merges[..i])
      {
        PersistOne(merges[i].0, merges[i].1, M, reps0, merges[..i]);
        assert merges[..i + 1] == merges[..i] + [(merges[i].0, merges[i].1)];
      }
      assert merges[..|merges|] == merges;
      merges := [];
    }

    method PersistOne(lhs: nat, rhs: nat, ghost M: Model, ghost reps0: seq<nat>, ghost done: seq<Pair>)
      requires graph.Valid(M) && Queued(M, graph.unionFind.reps, merges) && PairOk(M, graph.unionFind.reps, (lhs, rhs))
      requires JoinsExactly(reps0, graph.unionFind.reps, done) && Queued(M, graph.unionFind.reps, done)
      modifies graph, graph.unionFind
      ensures graph.Valid(M) && Queued(M, graph.unionFind.reps, merges)
      ensures JoinsExactly(reps0, graph.unionFind.reps, done + [(lhs, rhs)])
    {
      ghost var mid := graph.unionFind.reps;
      var root := graph.Merge(lhs, rhs, M, EG.Reps(graph.unionFind.reps, graph.worklist));
      QueuedKept(M, M, mid, graph.unionFind.reps, merges);
      forall k | 0 <= k < |done| ensures done[k].0 < |mid| && done[k].1 < |mid| { assert PairOk(M, mid, done[k]); }
      assert graph.Abs().reps == graph.unionFind.reps;
      JoinOneMore(reps0, mid, graph.unionFind.reps, done, lhs, rhs);
    }
  }
}
