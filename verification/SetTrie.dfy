/**
 A trie of sorted sets (include/caffeine/ADT/SetTrie.h) that answers whether some inserted set is a
 subset of a query.  Inserting skips sets that are already implied and cuts off longer branches.
 */
module SetTries {

  /** Marks the end of a stored set. */
  const ENDPOINT := -1

  /** A node maps the next element to a node index or to ENDPOINT. */
  type Node = map<int, int>

  predicate StrictlySorted(s: seq<int>) {
    forall i, j :: 0 <= i < j < |s| ==> s[i] < s[j]
  }

  predicate Sorted(s: seq<int>) {
    forall i, j :: 0 <= i < j < |s| ==> s[i] <= s[j]
  }

  ghost predicate Subset(p: seq<int>, q: seq<int>) {
    forall x :: x in p ==> x in q
  }

  /** p is a subsequence of q. */
  predicate Within(p: seq<int>, q: seq<int>)
    decreases |q|
  {
    p == [] || (q != [] && ((p[0] == q[0] && Within(p[1..], q[1..])) || Within(p, q[1..])))
  }

  /** For sorted sequences, being a subsequence is being a subset. */
  lemma {:induction false} WithinIsSubset(p: seq<int>, q: seq<int>)
    requires StrictlySorted(p) && Sorted(q)
    ensures Within(p, q) <==> Subset(p, q)
    decreases |q|
  {
    if p == [] {
    } else if q == [] {
      assert p[0] in p;
    } else {
      var p', q' := p[1..], q[1..];
      WithinIsSubset(p', q');
      WithinIsSubset(p, q');
      assert p == [p[0]] + p' && q == [q[0]] + q';
      if Subset(p, q) {
        assert p[0] in q;
        if p[0] == q[0] {
          forall x | x in p' ensures x in q' { assert x in p && x in q && x != q[0]; }
        } else {
          forall x | x in p ensures x in q' { assert p[0] >= q[0] && x >= p[0]; }
        }
      }
    }
  }

  lemma {:induction false} WithinRefl(p: seq<int>)
    ensures Within(p, p)
  {
    if p != [] { WithinRefl(p[1..]); }
  }

  lemma {:induction false} PrefixWithin(s: seq<int>, p: seq<int>)
    requires s <= p
    ensures Within(s, p)
  {
    if s != [] { PrefixWithin(s[1..], p[1..]); }
  }

  lemma {:induction false} WithinTrans(p: seq<int>, q: seq<int>, r: seq<int>)
    requires Within(p, q) && Within(q, r)
    ensures Within(p, r)
    decreases |r|, |q|
  {
    if p != [] && q != [] {
      if q[0] == r[0] && Within(q[1..], r[1..]) {
        if p[0] == q[0] && Within(p[1..], q[1..]) { WithinTrans(p[1..], q[1..], r[1..]); }
        else { WithinTrans(p, q[1..], r[1..]); }
      } else {
        WithinTrans(p, q, r[1..]);
      }
    }
  }

  /** A set stored below node i. */
  ghost predicate HasPath(nodes: seq<Node>, i: int, p: seq<int>)
    decreases |p|
  {
    if i == ENDPOINT then p == []
    else 0 <= i < |nodes| && p != [] && p[0] in nodes[i] && HasPath(nodes, nodes[i][p[0]], p[1..])
  }

  /** Every edge leads to the end, or to a node whose route from the root is the parent's followed by the edge's element. */
  ghost predicate Shaped(nodes: seq<Node>, route: seq<seq<int>>) {
    |route| == |nodes| && forall i, x {:trigger EdgeOk(nodes, route, i, x)} ::
      0 <= i < |nodes| && x in nodes[i] ==> EdgeOk(nodes, route, i, x)
  }

  ghost predicate EdgeOk(nodes: seq<Node>, route: seq<seq<int>>, i: nat, x: int)
    requires i < |nodes| == |route| && x in nodes[i]
  {
    var c := nodes[i][x];
    c == ENDPOINT || (0 <= c < |nodes| && route[c] == route[i] + [x])
  }

  /** Nodes changed by an insertion of s below node i lie on the way of s. */
  ghost predicate OnTheWay(nodes: seq<Node>, nodes': seq<Node>, route: seq<seq<int>>, at: seq<int>, s: seq<int>)
    requires |route| == |nodes| <= |nodes'|
  {
    forall j :: 0 <= j < |nodes| && nodes'[j] != nodes[j] ==> at <= route[j] <= at + s
  }

  /** What is stored below a node off the way does not change. */
  lemma {:induction false} FramePath(nodes: seq<Node>, nodes': seq<Node>, route: seq<seq<int>>, i: int, p: seq<int>, at: seq<int>, s: seq<int>)
    requires Shaped(nodes, route) && |nodes| <= |nodes'| && OnTheWay(nodes, nodes', route, at, s)
    requires i == ENDPOINT || (0 <= i < |nodes| && !(route[i] <= at + s))
    ensures HasPath(nodes', i, p) <==> HasPath(nodes, i, p)
    decreases |p|
  {
    if i != ENDPOINT {
      assert nodes'[i] == nodes[i];
      if p != [] && p[0] in nodes[i] {
        assert EdgeOk(nodes, route, i, p[0]);
        FramePath(nodes, nodes', route, nodes[i][p[0]], p[1..], at, s);
      }
    }
  }

  /** The stored sets are inserted ones, and each inserted set contains a stored one. */
  ghost predicate Represents(nodes: seq<Node>, inserted: set<seq<int>>) {
    && (forall p :: Stored(nodes, p) ==> p in inserted)
    && (forall t :: t in inserted ==> Covered(nodes, t))
  }

  ghost predicate Stored(nodes: seq<Node>, p: seq<int>) {
    nodes != [] && HasPath(nodes, 0, p)
  }

  ghost predicate Covered(nodes: seq<Node>, q: seq<int>) {
    nodes != [] && Finds(nodes, 0, q)
  }

  /** Some set stored below node i is within the query. */
  ghost predicate Finds(nodes: seq<Node>, i: int, q: seq<int>) {
    exists p :: HasPath(nodes, i, p) && Within(p, q)
  }

  lemma Found(nodes: seq<Node>, i: int, p: seq<int>, q: seq<int>)
    requires HasPath(nodes, i, p) && Within(p, q)
    ensures Finds(nodes, i, q)
  {}

  /** The main law: a query covers a stored set exactly when it contains an inserted one. */
  lemma CoveredExactly(nodes: seq<Node>, inserted: set<seq<int>>, q: seq<int>)
    requires Represents(nodes, inserted) && Sorted(q) && forall t :: t in inserted ==> StrictlySorted(t)
    ensures Covered(nodes, q) <==> exists t :: t in inserted && Subset(t, q)
  {
    if Covered(nodes, q) {
      var p :| HasPath(nodes, 0, p) && Within(p, q);
      assert Stored(nodes, p);
      WithinIsSubset(p, q);
    }
    if t :| t in inserted && Subset(t, q) {
      WithinIsSubset(t, q);
      assert Covered(nodes, t);
      var p :| HasPath(nodes, 0, p) && Within(p, t);
      WithinTrans(p, t, q);
    }
  }

  class SetTrie {
    var nodes: seq<Node>
    ghost var route: seq<seq<int>>
    ghost var inserted: set<seq<int>>

    ghost predicate Valid()
      reads this
    {
      && Shaped(nodes, route) && (nodes != [] ==> route[0] == []) && Represents(nodes, inserted)
      && forall t :: t in inserted ==> t != [] && StrictlySorted(t)
    }

    constructor ()
      ensures Valid() && inserted == {}
    {
      nodes, route, inserted := [], [], {};
    }

    /** `contains_subset`: some inserted set is a subset of the query. */
    method ContainsSubset(query: seq<int>) returns (b: bool)
      requires Valid() && Sorted(query)
      ensures b <==> exists t :: t in inserted && Subset(t, query)
      ensures b <==> Covered(nodes, query)
    {
      CoveredExactly(nodes, inserted, query);
      if nodes == [] || nodes[0] == map[] {
        return false;
      }
      b := FollowSubset(0, query);
    }

    /** `follow_subset`: some set stored below the node is a subsequence of the query. */
    method FollowSubset(index: int, query: seq<int>) returns (b: bool)
      requires Shaped(nodes, route) && (index == ENDPOINT || 0 <= index < |nodes|)
      ensures b <==> Finds(nodes, index, query)
      decreases |query|
    {
      if index == ENDPOINT {
        Found(nodes, index, [], query);
        return true;
      }
      for qit := 0 to |query|
        invariant forall p :: HasPath(nodes, index, p) && Within(p, query) ==> Within(p, query[qit..])
      {
        assert query[qit..][0] == query[qit] && query[qit..][1..] == query[qit + 1..];
        if query[qit] in nodes[index] {
          assert EdgeOk(nodes, route, index, query[qit]);
          var below := FollowSubset(nodes[index][query[qit]], query[qit + 1..]);
          if below {
            FoundBelow(nodes, index, query, qit);
            return true;
          }
        }
        forall p | HasPath(nodes, index, p) && Within(p, query) ensures Within(p, query[qit + 1..]) {
          NotHere(nodes, index, query, qit, p);
        }
      }
      assert query[|query|..] == [];
      return false;
    }

    /** `insert`, for the non-empty sets that `insert_at` asserts. */
    method Insert(s: seq<int>)
      requires Valid() && s != [] && StrictlySorted(s)
      modifies this
      ensures Valid() && inserted == old(inserted) + {s}
    {
      var found := ContainsSubset(s);
      if found {
        inserted := inserted + {s};
        return;
      }
      if nodes == [] {
        nodes, route := [map[]], [[]];
        assert forall p :: !HasPath(nodes, 0, p);
      }
      ghost var nodes0 := nodes;
      assert forall p :: HasPath(nodes0, 0, p) ==> !Within(p, s);
      InsertAt(0, s);
      StillRepresents(nodes0, nodes, inserted, s);
      inserted := inserted + {s};
    }

    /** `insert_at`: s is stored below the node, in place of every stored set it is a prefix of. */
    method InsertAt(index: nat, s: seq<int>)
      requires Shaped(nodes, route) && index < |nodes| && s != []
      requires forall p :: HasPath(nodes, index, p) ==> !Within(p, s)
      modifies this`nodes, this`route
      ensures Shaped(nodes, route) && old(route) <= route && |old(nodes)| <= |nodes|
      ensures OnTheWay(old(nodes), nodes, old(route), old(route)[index], s)
      ensures forall p :: HasPath(nodes, index, p) <==> PathAfter(old(nodes), index, s, p)
      decreases |s|
    {
      var x, rest := s[0], s[1..];
      ghost var nodes0, route0 := nodes, route;
      if x !in nodes[index] {
        var child := InsertNew(rest, route[index] + [x]);
        ghost var nodes1 := nodes;
        nodes := nodes[index := nodes[index][x := child]];
        AddedEdge(nodes0, nodes1, nodes, route0, route, index, s, child);
        return;
      }
      assert EdgeOk(nodes, route, index, x);
      if rest == [] {
        nodes := nodes[index := nodes[index][x := ENDPOINT]];
        CutEdge(nodes0, nodes, route, index, s);
        return;
      }
      var child := nodes[index][x];
      NotBelow(nodes, index, s);
      InsertAt(child, rest);
      DeeperEdge(nodes0, nodes, route0, index, s);
    }

    /** `insert_new`: a fresh chain that stores exactly s. */
    method InsertNew(s: seq<int>, ghost at: seq<int>) returns (index: int)
      requires Shaped(nodes, route)
      modifies this`nodes, this`route
      ensures Shaped(nodes, route) && old(nodes) <= nodes && old(route) <= route
      ensures index == ENDPOINT || (|old(nodes)| <= index < |nodes| && route[index] == at)
      ensures forall p :: HasPath(nodes, index, p) <==> p == s
      decreases |s|
    {
      if s == [] { return ENDPOINT; }
      index := |nodes|;
      GrowShaped(nodes, route, at);
      nodes, route := nodes + [map[]], route + [at];
      var child := InsertNew(s[1..], at + [s[0]]);
      ghost var nodes1 := nodes;
      nodes := nodes[index := nodes[index][s[0] := child]];
      ChainEdge(nodes1, nodes, route, index, s, child);
    }
  }

  // ----- the steps of an insertion -----

  /** What is stored below a node after inserting s there. */
  ghost predicate PathAfter(nodes: seq<Node>, i: int, s: seq<int>, p: seq<int>) {
    p == s || (HasPath(nodes, i, p) && !(s <= p))
  }

  lemma FoundBelow(nodes: seq<Node>, index: nat, query: seq<int>, qit: nat)
    requires index < |nodes| && qit < |query| && query[qit] in nodes[index]
    requires Finds(nodes, nodes[index][query[qit]], query[qit + 1..])
    ensures Finds(nodes, index, query)
  {
    var p' :| HasPath(nodes, nodes[index][query[qit]], p') && Within(p', query[qit + 1..]);
    var p, q := [query[qit]] + p', query[qit..];
    assert p[1..] == p' && q[1..] == query[qit + 1..];
    assert HasPath(nodes, index, p) && Within(p, q);
    WithinLonger(p, query, qit);
  }

  lemma NotHere(nodes: seq<Node>, index: nat, query: seq<int>, qit: nat, p: seq<int>)
    requires index < |nodes| && qit < |query| && HasPath(nodes, index, p) && Within(p, query[qit..])
    requires query[qit] in nodes[index] ==> !Finds(nodes, nodes[index][query[qit]], query[qit + 1..])
    ensures Within(p, query[qit + 1..])
  {
    var q := query[qit..];
    assert q[1..] == query[qit + 1..] && q[0] == query[qit];
    if p[0] == q[0] && Within(p[1..], q[1..]) { Found(nodes, nodes[index][p[0]], p[1..], q[1..]); }
  }

  lemma {:induction false} WithinLonger(p: seq<int>, q: seq<int>, k: nat)
    requires k <= |q| && Within(p, q[k..])
    ensures Within(p, q)
    decreases k
  {
    if k == 0 { assert q[0..] == q; } else {
      assert q[k - 1..][1..] == q[k..];
      WithinLonger(p, q, k - 1);
    }
  }

  lemma StillRepresents(nodes: seq<Node>, nodes': seq<Node>, inserted: set<seq<int>>, s: seq<int>)
    requires nodes != [] && nodes' != [] && Represents(nodes, inserted)
    requires forall p :: HasPath(nodes', 0, p) <==> PathAfter(nodes, 0, s, p)
    ensures Represents(nodes', inserted + {s})
  {
    forall p | Stored(nodes', p) ensures p in inserted + {s} {
      if p != s { assert PathAfter(nodes, 0, s, p); assert Stored(nodes, p); }
    }
    assert PathAfter(nodes, 0, s, s);
    forall t | t in inserted + {s} ensures Covered(nodes', t) {
      if t == s {
        WithinRefl(s);
        Found(nodes', 0, s, t);
      } else {
        assert Covered(nodes, t);
        var p :| HasPath(nodes, 0, p) && Within(p, t);
        if s <= p {
          PrefixWithin(s, p);
          WithinTrans(s, p, t);
          Found(nodes', 0, s, t);
        } else {
          assert PathAfter(nodes, 0, s, p);
          Found(nodes', 0, p, t);
        }
      }
    }
  }

  /** No set stored below the child is within the rest of s, so the child is not the end. */
  lemma NotBelow(nodes: seq<Node>, index: nat, s: seq<int>)
    requires index < |nodes| && |s| > 1 && s[0] in nodes[index]
    requires forall p :: HasPath(nodes, index, p) ==> !Within(p, s)
    ensures nodes[index][s[0]] != ENDPOINT
    ensures forall p :: HasPath(nodes, nodes[index][s[0]], p) ==> !Within(p, s[1..])
  {
    var child := nodes[index][s[0]];
    forall p' | HasPath(nodes, child, p') ensures !Within(p', s[1..]) {
      var p := [s[0]] + p';
      assert p[1..] == p';
      assert HasPath(nodes, index, p);
    }
    if child == ENDPOINT { assert HasPath(nodes, child, []) && Within([], s[1..]); }
  }

  lemma GrowShaped(nodes: seq<Node>, route: seq<seq<int>>, at: seq<int>)
    requires Shaped(nodes, route)
    ensures Shaped(nodes + [map[]], route + [at])
  {
    var nodes', route' := nodes + [map[]], route + [at];
    forall i, x | 0 <= i < |nodes'| && x in nodes'[i] ensures EdgeOk(nodes', route', i, x) {
      assert EdgeOk(nodes, route, i, x);
    }
  }

  lemma SetShaped(nodes: seq<Node>, route: seq<seq<int>>, i: nat, x: int, c: int)
    requires Shaped(nodes, route) && i < |nodes|
    requires c == ENDPOINT || (0 <= c < |nodes| && route[c] == route[i] + [x])
    ensures Shaped(nodes[i := nodes[i][x := c]], route)
  {
    var nodes' := nodes[i := nodes[i][x := c]];
    forall j, y | 0 <= j < |nodes'| && y in nodes'[j] ensures EdgeOk(nodes', route, j, y) {
      if j != i || y != x { assert EdgeOk(nodes, route, j, y); }
    }
  }

  /** `insert_new` closes its chain. */
  lemma ChainEdge(nodes: seq<Node>, nodes': seq<Node>, route: seq<seq<int>>, index: nat, s: seq<int>, child: int)
    requires Shaped(nodes, route) && index < |nodes| && s != [] && nodes[index] == map[]
    requires nodes' == nodes[index := map[s[0] := child]] && (child == ENDPOINT || (index < child < |nodes| && route[child] == route[index] + [s[0]]))
    requires forall p :: HasPath(nodes, child, p) <==> p == s[1..]
    ensures Shaped(nodes', route) && forall p :: HasPath(nodes', index, p) <==> p == s
  {
    SetShaped(nodes, route, index, s[0], child);
    assert nodes[index][s[0] := child] == map[s[0] := child];
    FreshChild(nodes, nodes', route, index, s[0], child, s[1..]);
    forall p ensures HasPath(nodes', index, p) <==> p == s {
      if p != [] && p[0] == s[0] {
        assert p == [p[0]] + p[1..] && s == [s[0]] + s[1..];
      }
    }
  }

  lemma SameBelow(nodes: seq<Node>, nodes': seq<Node>, route: seq<seq<int>>, index: nat, s: seq<int>, y: int, p: seq<int>)
    requires Shaped(nodes, route) && index < |nodes| <= |nodes'| && s != [] && y != s[0] && y in nodes[index]
    requires OnTheWay(nodes, nodes', route, route[index], s)
    ensures HasPath(nodes', nodes[index][y], p) <==> HasPath(nodes, nodes[index][y], p)
  {
    assert EdgeOk(nodes, route, index, y);
    var c := nodes[index][y];
    if c != ENDPOINT {
      var n := |route[index]|;
      assert route[c][n] == y && (route[index] + s)[n] == s[0];
    }
    FramePath(nodes, nodes', route, c, p, route[index], s);
  }

  lemma FreshChild(nodes: seq<Node>, nodes': seq<Node>, route: seq<seq<int>>, index: nat, x: int, child: int, rest: seq<int>)
    requires Shaped(nodes, route) && index < |nodes| && nodes' == nodes[index := nodes[index][x := child]]
    requires child == ENDPOINT || (0 <= child < |nodes| && route[child] == route[index] + [x])
    requires forall p :: HasPath(nodes, child, p) <==> p == rest
    ensures forall p :: HasPath(nodes', child, p) <==> p == rest
  {
    assert OnTheWay(nodes, nodes', route, route[index], []);
    forall p ensures HasPath(nodes', child, p) <==> p == rest {
      FramePath(nodes, nodes', route, child, p, route[index], []);
    }
  }

  /** A new first element: its edge leads to the fresh chain. */
  lemma AddedEdge(nodes: seq<Node>, nodes1: seq<Node>, nodes': seq<Node>, route: seq<seq<int>>, route': seq<seq<int>>,
                  index: nat, s: seq<int>, child: int)
    requires Shaped(nodes, route) && Shaped(nodes1, route') && nodes <= nodes1 && route <= route'
    requires index < |nodes| && s != [] && s[0] !in nodes[index] && nodes' == nodes1[index := nodes[index][s[0] := child]]
    requires child == ENDPOINT || (0 <= child < |nodes1| && route'[child] == route[index] + [s[0]])
    requires forall p :: HasPath(nodes1, child, p) <==> p == s[1..]
    ensures Shaped(nodes', route') && OnTheWay(nodes, nodes', route, route[index], s)
    ensures forall p :: HasPath(nodes', index, p) <==> PathAfter(nodes, index, s, p)
  {
    SetShaped(nodes1, route', index, s[0], child);
    FreshChild(nodes1, nodes', route', index, s[0], child, s[1..]);
    AddedPaths(nodes, nodes', route, index, s);
  }

  lemma AddedPaths(nodes: seq<Node>, nodes': seq<Node>, route: seq<seq<int>>, index: nat, s: seq<int>)
    requires Shaped(nodes, route) && index < |nodes| <= |nodes'| && s != [] && s[0] !in nodes[index]
    requires forall j :: 0 <= j < |nodes| && j != index ==> nodes'[j] == nodes[j]
    requires s[0] in nodes'[index] && nodes'[index] == nodes[index][s[0] := nodes'[index][s[0]]]
    requires forall p :: HasPath(nodes', nodes'[index][s[0]], p) <==> p == s[1..]
    ensures OnTheWay(nodes, nodes', route, route[index], s)
    ensures forall p :: HasPath(nodes', index, p) <==> PathAfter(nodes, index, s, p)
  {
    assert route[index] <= route[index] + s;
    forall p ensures HasPath(nodes', index, p) <==> PathAfter(nodes, index, s, p) {
      if p != [] && p[0] == s[0] {
        assert p == [p[0]] + p[1..] && s == [s[0]] + s[1..];
      } else if p != [] && p[0] in nodes[index] {
        SameBelow(nodes, nodes', route, index, s, p[0], p[1..]);
      }
    }
  }

  /** The last element of s: its edge is cut short. */
  lemma CutEdge(nodes: seq<Node>, nodes': seq<Node>, route: seq<seq<int>>, index: nat, s: seq<int>)
    requires Shaped(nodes, route) && index < |nodes| && |s| == 1 && s[0] in nodes[index]
    requires nodes' == nodes[index := nodes[index][s[0] := ENDPOINT]]
    ensures Shaped(nodes', route) && OnTheWay(nodes, nodes', route, route[index], s)
    ensures forall p :: HasPath(nodes', index, p) <==> PathAfter(nodes, index, s, p)
  {
    SetShaped(nodes, route, index, s[0], ENDPOINT);
    assert route[index] <= route[index] + s;
    forall p ensures HasPath(nodes', index, p) <==> PathAfter(nodes, index, s, p) {
      if p != [] && p[0] == s[0] {
        assert p == [p[0]] + p[1..] && s == [s[0]] && s <= p;
      } else if p != [] && p[0] in nodes[index] {
        SameBelow(nodes, nodes', route, index, s, p[0], p[1..]);
      }
    }
  }

  /** The insertion went on below the child. */
  lemma DeeperEdge(nodes: seq<Node>, nodes': seq<Node>, route: seq<seq<int>>, index: nat, s: seq<int>)
    requires Shaped(nodes, route) && index < |nodes| <= |nodes'| && s != [] && s[0] in nodes[index]
    requires nodes[index][s[0]] != ENDPOINT && EdgeOk(nodes, route, index, s[0])
    requires OnTheWay(nodes, nodes', route, route[nodes[index][s[0]]], s[1..])
    requires forall p :: HasPath(nodes', nodes[index][s[0]], p) <==> PathAfter(nodes, nodes[index][s[0]], s[1..], p)
    ensures OnTheWay(nodes, nodes', route, route[index], s)
    ensures forall p :: HasPath(nodes', index, p) <==> PathAfter(nodes, index, s, p)
  {
    var child, rest := nodes[index][s[0]], s[1..];
    assert route[index] + s == route[child] + rest;
    forall j | 0 <= j < |nodes| && nodes'[j] != nodes[j] ensures route[index] <= route[j] <= route[index] + s {
      assert route[child] <= route[j] <= route[child] + rest;
    }
    assert nodes'[index] == nodes[index];
    forall p ensures HasPath(nodes', index, p) <==> PathAfter(nodes, index, s, p) {
      if p != [] && p[0] == s[0] {
        assert p == [p[0]] + p[1..] && s == [s[0]] + rest;
        assert HasPath(nodes', child, p[1..]) <==> PathAfter(nodes, child, rest, p[1..]);
        assert s <= p <==> rest <= p[1..];
      } else if p != [] && p[0] in nodes[index] {
        SameBelow(nodes, nodes', route, index, s, p[0], p[1..]);
      }
    }
  }
}
