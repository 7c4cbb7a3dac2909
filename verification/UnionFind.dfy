/**
 Disjoint sets of e-class ids (include/caffeine/ADT/UnionFind.h): a parent vector with path halving.
 */
module UnionFind {

  /** The representative of every id after root r2 is hung below root r1. */
  function Joined(reps: seq<nat>, r1: nat, r2: nat): (r: seq<nat>)
    ensures |r| == |reps|
  {
    seq(|reps|, i requires 0 <= i < |reps| => if reps[i] == r2 then r1 else reps[i])
  }

  /** One id of a parent vector against the partition `reps`; `rank` grows along every parent step. */
  ghost predicate Ok(parents: seq<nat>, reps: seq<nat>, rank: seq<nat>, i: nat)
    requires i < |parents| == |reps| == |rank|
  {
    var p := parents[i];
    && p < |parents| && reps[i] < |parents|
    && reps[p] == reps[i] && reps[reps[i]] == reps[i]
    && (p == i <==> reps[i] == i)
    && (p != i ==> rank[p] > rank[i])
  }

  ghost predicate Forest(parents: seq<nat>, reps: seq<nat>, rank: seq<nat>) {
    |parents| == |reps| == |rank| && forall i :: 0 <= i < |parents| ==> Ok(parents, reps, rank, i)
  }

  /** Skipping the parent leaves the partition as it was. */
  lemma HalvingKeeps(parents: seq<nat>, reps: seq<nat>, rank: seq<nat>, i: nat)
    requires Forest(parents, reps, rank) && i < |parents| && parents[i] != i
    ensures Ok(parents, reps, rank, i) && Ok(parents, reps, rank, parents[i])
    ensures Forest(parents[i := parents[parents[i]]], reps, rank)
  {
    var p := parents[i];
    assert Ok(parents, reps, rank, i) && Ok(parents, reps, rank, p);
    var gp := parents[p];
    var parents' := parents[i := gp];
    assert rank[gp] >= rank[p] > rank[i];
    forall j | 0 <= j < |parents'| ensures Ok(parents', reps, rank, j) {
      assert Ok(parents, reps, rank, j);
    }
  }

  lemma JoiningKeeps(parents: seq<nat>, reps: seq<nat>, rank: seq<nat>, r1: nat, r2: nat, rank': seq<nat>)
    requires Forest(parents, reps, rank) && r1 < |reps| && r2 < |reps| && reps[r1] == r1 && reps[r2] == r2 && r1 != r2
    requires |rank'| == |rank| && rank'[r1] > rank[r2] && rank'[r1] >= rank[r1]
    requires forall i :: 0 <= i < |rank| && i != r1 ==> rank'[i] == rank[i]
    ensures Forest(parents[r2 := r1], Joined(reps, r1, r2), rank')
  {
    var parents', reps' := parents[r2 := r1], Joined(reps, r1, r2);
    forall j | 0 <= j < |parents'| ensures Ok(parents', reps', rank', j) {
      assert Ok(parents, reps, rank, j) && Ok(parents, reps, rank, r1) && Ok(parents, reps, rank, r2);
    }
  }

  class UnionFind {
    var parents: seq<nat>
    /** The root above each id: the partition, independent of how far paths are compressed. */
    ghost var reps: seq<nat>
    /** Grows along every parent step; raised at a root when another tree is hung below it. */
    ghost var rank: seq<nat>
    ghost var maxRank: nat

    ghost predicate Valid()
      reads this
    {
      Forest(parents, reps, rank) && forall i :: 0 <= i < |rank| ==> rank[i] <= maxRank
    }

    constructor ()
      ensures Valid() && reps == []
    {
      parents, reps, rank, maxRank := [], [], [], 0;
    }

    method MakeSet() returns (id: nat)
      requires Valid()
      modifies this
      ensures Valid() && id == old(|reps|) && reps == old(reps) + [id]
    {
      id := |parents|;
      parents := parents + [id];
      reps := reps + [id];
      rank := rank + [0];
      forall i | 0 <= i < |parents| ensures Ok(parents, reps, rank, i) {
        if i < id { assert old(Ok(parents, reps, rank, i)); }
      }
    }

    /** The const `find`: walks to the root and changes nothing. */
    method Find(id: nat) returns (root: nat)
      requires Valid() && id < |reps|
      ensures root == reps[id] && root < |reps| && reps[root] == root
    {
      root := id;
      while root != parents[root]
        invariant root < |parents| && reps[root] == reps[id]
        decreases maxRank - rank[root]
      {
        assert Ok(parents, reps, rank, root);
        root := parents[root];
      }
      assert Ok(parents, reps, rank, root);
    }

    /** `update`, the non-const `find`: path halving shortens paths and never changes the partition. */
    method Update(id: nat) returns (root: nat)
      requires Valid() && id < |reps|
      modifies this
      ensures Valid() && reps == old(reps) && root == reps[id] && root < |reps| && reps[root] == root
    {
      root := id;
      while true
        invariant Valid() && reps == old(reps) && root < |parents| && reps[root] == reps[id]
        decreases maxRank - rank[root]
      {
        var p := parents[root];
        if root == p { break; }
        HalvingKeeps(parents, reps, rank, root);
        var gp := parents[p];
        parents := parents[root := gp];
        root := gp;
      }
      assert Ok(parents, reps, rank, root);
    }

    /** Hang root r2 below root r1: exactly the ids of r2 move to r1. */
    method DoUnion(r1: nat, r2: nat) returns (root: nat)
      requires Valid() && r1 < |reps| && r2 < |reps| && reps[r1] == r1 && reps[r2] == r2 && r1 != r2
      modifies this
      ensures Valid() && root == r1 && reps == Joined(old(reps), r1, r2)
    {
      ghost var higher := rank[r1 := rank[r1] + rank[r2] + 1];
      JoiningKeeps(parents, reps, rank, r1, r2, higher);
      parents := parents[r2 := r1];
      reps, rank, maxRank := Joined(reps, r1, r2), higher, maxRank + maxRank + 1;
      root := r1;
    }
  }
}
