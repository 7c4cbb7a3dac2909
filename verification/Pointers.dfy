/**
 Pointer checks against the live allocations (src/Memory/MemHeap.cpp:127-218): which accesses
 `check_valid` lets through, and which allocations `resolve` finds for them.
 */
module Pointers {
  import opened Bits
  import opened Exprs
  import opened Simplifier
  import opened Builder
  import opened AssertionLists
  import opened BumpAllocators
  import opened MemHeaps

  // ----- one block -----

  /** The access [v, v + width) lies in the block [addr, addr + n). */
  predicate Contains(addr: nat, n: nat, v: nat, width: nat) {
    addr <= v && v + width <= addr + n
  }

  /** What `check_valid` computes for one block, in w-bit arithmetic. */
  predicate Checked(w: nat, addr: nat, n: nat, v: nat, width: nat) {
    addr <= v <= LastStart(w, addr, n, width)
  }

  /** `address + (size - width)`. */
  function LastStart(w: nat, addr: nat, n: nat, width: nat): nat {
    (addr + (n - width) % Pow2(w)) % Pow2(w)
  }

  lemma CheckedEnd(w: nat, addr: nat, n: nat, width: nat)
    requires addr + n < Pow2(w) && width < Pow2(w)
    ensures LastStart(w, addr, n, width) ==
      if width <= addr + n then addr + n - width else addr + n - width + Pow2(w)
  {
    var p := Pow2(w);
    if width <= n {
      DivModUnique(n - width, p, 0, n - width);
      DivModUnique(addr + n - width, p, 0, addr + n - width);
    } else {
      DivModUnique(n - width, p, -1, n - width + p);
      if width <= addr + n { DivModUnique(addr + n - width + p, p, 1, addr + n - width); }
      else { DivModUnique(addr + n - width + p, p, 0, addr + n - width + p); }
    }
  }

  /**
   On a block that does not wrap, the check means containment for every address exactly when the
   access is no wider than the end of the block.
   */
  lemma CheckedExactly(w: nat, addr: nat, n: nat, width: nat)
    requires addr + n < Pow2(w) && width < Pow2(w)
    ensures (forall v: nat :: v < Pow2(w) ==> (Checked(w, addr, n, v, width) <==> Contains(addr, n, v, width)))
      <==> width <= addr + n
  {
    CheckedEnd(w, addr, n, width);
    if width > addr + n {
      assert Checked(w, addr, n, addr, width) && !Contains(addr, n, addr, width);
    }
  }

  /** An access to the top of an 8-bit address space, wider than the only block reaches, is let through. */
  lemma WideAccessMisjudged()
    ensures Checked(8, 1, 1, 200, 3) && !Contains(1, 1, 200, 3)
  {
    assert Pow2(8) == 256;
    DivModUnique(1 - 3, 256, -1, 254);
    DivModUnique(1 + 254, 256, 0, 255);
  }

  // ----- all live blocks -----

  ghost predicate InBlock(a: Allocation, w: nat, value: Expr, width: Expr, env: Env)
    requires AllocTyped(a, w) && HasWidth(value, w) && HasWidth(width, w)
  {
    Contains(Eval(a.address, env), Eval(a.size, env), Eval(value, env), Eval(width, env))
  }

  ghost predicate CheckedIn(a: Allocation, w: nat, value: Expr, width: Expr, env: Env)
    requires AllocTyped(a, w) && HasWidth(value, w) && HasWidth(width, w)
  {
    Checked(w, Eval(a.address, env), Eval(a.size, env), Eval(value, env), Eval(width, env))
  }

  ghost predicate SomeChecked(allocs: map<nat, Allocation>, ks: set<nat>, w: nat, value: Expr, width: Expr, env: Env)
    requires AllTyped(allocs, w) && HasWidth(value, w) && HasWidth(width, w)
  {
    exists k :: k in ks && k in allocs && CheckedIn(allocs[k], w, value, width, env)
  }

  /** No live block ends before the width of the access. */
  ghost predicate NarrowAccess(allocs: map<nat, Allocation>, w: nat, width: Expr, env: Env)
    requires AllTyped(allocs, w) && HasWidth(width, w)
  {
    forall k :: k in allocs ==> Eval(width, env) <= Eval(allocs[k].address, env) + Eval(allocs[k].size, env)
  }

  lemma CheckedIsIn(a: Allocation, w: nat, value: Expr, width: Expr, env: Env)
    requires AllocTyped(a, w) && HasWidth(value, w) && HasWidth(width, w) && Good(a, w, env)
    requires Eval(width, env) <= Eval(a.address, env) + Eval(a.size, env)
    ensures CheckedIn(a, w, value, width, env) <==> InBlock(a, w, value, width, env)
  {
    CheckedExactly(w, Eval(a.address, env), Eval(a.size, env), Eval(width, env));
  }

  /** An access of at least one byte lies in at most one live block. */
  lemma InOneBlock(allocs: map<nat, Allocation>, w: nat, value: Expr, width: Expr, env: Env, j: nat, k: nat)
    requires AllTyped(allocs, w) && HasWidth(value, w) && HasWidth(width, w) && Laid(allocs, w, env) && Eval(width, env) >= 1
    requires j in allocs && k in allocs
    requires InBlock(allocs[j], w, value, width, env) && InBlock(allocs[k], w, value, width, env)
    ensures j == k
  {
    assert j != k ==> Disjoint(allocs[j], allocs[k], w, env);
  }

  ghost predicate InSome(allocs: map<nat, Allocation>, w: nat, value: Expr, width: Expr, env: Env)
    requires AllTyped(allocs, w) && HasWidth(value, w) && HasWidth(width, w)
  {
    exists k :: k in allocs && InBlock(allocs[k], w, value, width, env)
  }

  /** Where live blocks are laid out well and reach far enough, the check means containment in one of them. */
  lemma CheckedInSome(allocs: map<nat, Allocation>, w: nat, value: Expr, width: Expr, env: Env)
    requires AllTyped(allocs, w) && HasWidth(value, w) && HasWidth(width, w)
    requires Laid(allocs, w, env) && NarrowAccess(allocs, w, width, env)
    ensures SomeChecked(allocs, allocs.Keys, w, value, width, env) <==> InSome(allocs, w, value, width, env)
  {
    forall k | k in allocs
      ensures CheckedIn(allocs[k], w, value, width, env) <==> InBlock(allocs[k], w, value, width, env)
    {
      CheckedIsIn(allocs[k], w, value, width, env);
    }
  }

  // ----- check_valid -----

  method CreateLastStart(a: Allocation, w: nat, width: Expr) returns (end: Expr)
    requires AllocTyped(a, w) && HasWidth(width, w)
    ensures HasWidth(end, w)
    ensures forall env: Env :: Eval(end, env) == LastStart(w, Eval(a.address, env), Eval(a.size, env), Eval(width, env))
  {
    var left := CreateSub(a.size, width);
    end := CreateAdd(a.address, left);
    forall env: Env ensures Eval(end, env) == LastStart(w, Eval(a.address, env), Eval(a.size, env), Eval(width, env)) {
      LastStartSteps(w, Eval(a.address, env), Eval(a.size, env), Eval(width, env), Eval(left, env), Eval(end, env));
    }
  }

  lemma LastStartSteps(w: nat, addr: nat, n: nat, width: nat, left: nat, end: nat)
    requires left == (n - width) % Pow2(w) && end == (addr + left) % Pow2(w)
    ensures end == LastStart(w, addr, n, width)
  {}

  method CheckOne(a: Allocation, w: nat, value: Expr, width: Expr) returns (e: Expr)
    requires AllocTyped(a, w) && HasWidth(value, w) && HasWidth(width, w)
    ensures IsBool(e) && forall env: Env :: Holds(e, env) <==> CheckedIn(a, w, value, width, env)
  {
    var end := CreateLastStart(a, w, width);
    var cmp1 := CreateICmp(ULE, a.address, value);
    var cmp2 := CreateICmp(ULE, value, end);
    e := CreateAnd(cmp1, cmp2);
    forall env: Env ensures Holds(e, env) <==> CheckedIn(a, w, value, width, env) {
      assert Holds(cmp1, env) <==> Eval(a.address, env) <= Eval(value, env);
      assert Holds(cmp2, env) <==> Eval(value, env) <= Eval(end, env);
    }
  }

  /** `check_valid` for an unresolved pointer, as computed. */
  method CheckUnresolved(heap: MemHeap, value: Expr, width: Expr) returns (e: Expr)
    requires heap.Shape() && HasWidth(value, heap.w) && HasWidth(width, heap.w)
    ensures IsBool(e)
    ensures forall env: Env :: Holds(e, env) <==>
      Eval(value, env) != 0 && SomeChecked(heap.allocs, heap.allocs.Keys, heap.w, value, width, env)
  {
    var result := CreateBool(false);
    var todo := heap.allocs.Keys;
    ghost var keys := heap.allocs.Keys;
    while todo != {}
      invariant IsBool(result) && todo <= keys
      invariant forall env: Env :: Holds(result, env) <==> SomeChecked(heap.allocs, keys - todo, heap.w, value, width, env)
      decreases |todo|
    {
      var k :| k in todo;
      var here := CheckOne(heap.allocs[k], heap.w, value, width);
      var next := CreateOr(result, here);
      forall env: Env ensures Holds(next, env) <==> SomeChecked(heap.allocs, keys - (todo - {k}), heap.w, value, width, env) {
        CheckedOneMore(heap.allocs, keys - todo, k, keys - (todo - {k}), heap.w, value, width, env);
      }
      result := next;
      todo := todo - {k};
    }
    assert keys - todo == keys;
    var notNull := NotNullAssertion(value);
    e := CreateAnd(notNull, result);
  }

  lemma CheckedOneMore(allocs: map<nat, Allocation>, ks: set<nat>, k: nat, ks': set<nat>, w: nat, value: Expr, width: Expr, env: Env)
    requires AllTyped(allocs, w) && HasWidth(value, w) && HasWidth(width, w) && k in allocs && ks' == ks + {k}
    ensures SomeChecked(allocs, ks', w, value, width, env) <==>
      SomeChecked(allocs, ks, w, value, width, env) || CheckedIn(allocs[k], w, value, width, env)
  {}

  /**
   `check_valid`, in the models of the path where no live block ends before the width: an access is
   valid exactly when it is not null and lies in a live block.
   */
  method CheckValid(heap: MemHeap, value: Expr, width: Expr, ctx: Context) returns (e: Expr)
    requires heap.Valid(ctx) && HasWidth(value, heap.w) && HasWidth(width, heap.w)
    ensures IsBool(e)
    ensures forall env: Env :: Conj(ctx.path, env) && NarrowAccess(heap.allocs, heap.w, width, env) ==>
      (Holds(e, env) <==> Eval(value, env) != 0 && InSome(heap.allocs, heap.w, value, width, env))
  {
    e := CheckUnresolved(heap, value, width);
    forall env: Env | Conj(ctx.path, env) && NarrowAccess(heap.allocs, heap.w, width, env)
      ensures Holds(e, env) <==> Eval(value, env) != 0 && InSome(heap.allocs, heap.w, value, width, env)
    {
      CheckedInSome(heap.allocs, heap.w, value, width, env);
    }
  }

  // ----- resolve -----

  /** An UNSAT answer can be trusted. */
  ghost predicate Trustworthy(unsat: seq<Expr> -> bool) {
    forall xs: seq<Expr> {:trigger unsat(xs)} :: AllBool(xs) && unsat(xs) ==> forall env: Env :: !Conj(xs, env)
  }

  /** The address v lies in the block. */
  ghost predicate PointsInto(a: Allocation, w: nat, value: Expr, env: Env)
    requires AllocTyped(a, w) && HasWidth(value, w)
  {
    Eval(a.address, env) <= Eval(value, env) < Eval(a.address, env) + Eval(a.size, env)
  }

  /** On the path, e says that the address lies in the block. */
  ghost predicate SaysInside(e: Expr, a: Allocation, w: nat, value: Expr, path: seq<Expr>)
    requires AllocTyped(a, w) && HasWidth(value, w) && AllBool(path)
  {
    IsBool(e) && forall env: Env {:trigger Conj(path, env)} :: Conj(path, env) ==> (Holds(e, env) <==> PointsInto(a, w, value, env))
  }

  /** The solver was asked whether the address may lie in the block, and did not refute it. */
  ghost predicate NotRefuted(a: Allocation, w: nat, value: Expr, unsat: seq<Expr> -> bool, path: seq<Expr>)
    requires AllocTyped(a, w) && HasWidth(value, w) && AllBool(path)
  {
    exists e {:trigger SaysInside(e, a, w, value, path)} :: SaysInside(e, a, w, value, path) && !unsat(path + [e])
  }

  /** If the solver finds every contradiction, a block that is not refuted is one the address may lie in. */
  lemma NotRefutedMayHold(a: Allocation, w: nat, value: Expr, unsat: seq<Expr> -> bool, path: seq<Expr>)
    requires AllocTyped(a, w) && HasWidth(value, w) && AllBool(path) && NotRefuted(a, w, value, unsat, path)
    requires forall xs: seq<Expr> {:trigger unsat(xs)} :: AllBool(xs) && (forall env: Env :: !Conj(xs, env)) ==> unsat(xs)
    ensures exists env: Env :: Conj(path, env) && PointsInto(a, w, value, env)
  {
    var e :| SaysInside(e, a, w, value, path) && !unsat(path + [e]);
    AllBoolCat(path, [e]);
    var env: Env :| Conj(path + [e], env);
    ConjOne(e, env);
    ConjCat(path, [e], env);
  }

  method InsideAssertion(a: Allocation, w: nat, value: Expr) returns (e: Expr)
    requires AllocTyped(a, w) && HasWidth(value, w)
    ensures IsBool(e) && forall env: Env :: Good(a, w, env) ==> (Holds(e, env) <==> PointsInto(a, w, value, env))
  {
    var end := CreateAdd(a.address, a.size);
    var cmp1 := CreateICmp(ULE, a.address, value);
    var cmp2 := CreateICmp(ULT, value, end);
    e := CreateAnd(cmp1, cmp2);
    forall env: Env | Good(a, w, env) ensures Holds(e, env) <==> PointsInto(a, w, value, env) {
      NoWrap(Eval(a.address, env), Eval(a.size, env), w);
    }
  }

  /** The resolved pointer names a live block, and its absolute value is the original one in every model. */
  ghost predicate SamePlace(p: Pointer, allocs: map<nat, Allocation>, w: nat, value: Expr)
    requires w >= 1 && AllTyped(allocs, w) && HasWidth(value, w)
  {
    && p.alloc in allocs && HasWidth(p.offset, w)
    && forall env: Env {:trigger Lands(p, allocs, w, value, env)} :: Lands(p, allocs, w, value, env)
  }

  ghost predicate Lands(p: Pointer, allocs: map<nat, Allocation>, w: nat, value: Expr, env: Env)
    requires w >= 1 && AllTyped(allocs, w) && HasWidth(value, w) && p.alloc in allocs && HasWidth(p.offset, w)
  {
    (Eval(allocs[p.alloc].address, env) + Eval(p.offset, env)) % Pow2(w) == Eval(value, env)
  }

  ghost predicate Found(results: seq<Pointer>, k: nat) {
    exists i :: 0 <= i < |results| && results[i].alloc == k
  }

  /** Every block the address lies in is among the results, but for those still to be considered. */
  ghost predicate AllFound(results: seq<Pointer>, allocs: map<nat, Allocation>, todo: set<nat>, w: nat, value: Expr, env: Env)
    requires AllTyped(allocs, w) && HasWidth(value, w)
  {
    forall k :: k in allocs && k !in todo && PointsInto(allocs[k], w, value, env) ==> Found(results, k)
  }

  lemma SubThenAdd(v: nat, a: nat, w: nat)
    requires v < Pow2(w) && a < Pow2(w)
    ensures (a + (v - a) % Pow2(w)) % Pow2(w) == v
  {
    var p := Pow2(w);
    if v >= a { DivModUnique(v - a, p, 0, v - a); DivModUnique(v, p, 0, v); }
    else { DivModUnique(v - a, p, -1, v - a + p); DivModUnique(v + p, p, 1, v); }
  }

  /** The candidate for one allocation: kept unless the solver refutes it. */
  method ResolveOne(heap: MemHeap, k: nat, value: Expr, unsat: seq<Expr> -> bool, ctx: Context) returns (keep: bool, p: Pointer)
    requires heap.Valid(ctx) && k in heap.allocs && HasWidth(value, heap.w) && Trustworthy(unsat)
    ensures p.alloc == k && SamePlace(p, heap.allocs, heap.w, value)
    ensures !keep ==> forall env: Env :: Conj(ctx.path, env) ==> !PointsInto(heap.allocs[k], heap.w, value, env)
    ensures keep ==> NotRefuted(heap.allocs[k], heap.w, value, unsat, ctx.path)
  {
    var a := heap.allocs[k];
    var inside := InsideAssertion(a, heap.w, value);
    keep := !unsat(ctx.path + [inside]);
    forall env: Env | Conj(ctx.path, env) && PointsInto(a, heap.w, value, env) ensures keep {
      assert Laid(heap.allocs, heap.w, env) && Good(a, heap.w, env);
      ConjOne(inside, env);
      ConjCat(ctx.path, [inside], env);
    }
    assert SaysInside(inside, a, heap.w, value, ctx.path) by {
      forall env: Env | Conj(ctx.path, env) ensures Holds(inside, env) <==> PointsInto(a, heap.w, value, env) {
        assert Laid(heap.allocs, heap.w, env) && Good(a, heap.w, env);
      }
    }
    p := Resolved(heap.allocs, k, heap.w, value);
  }

  /** `Pointer(it.key(), CreateSub(value, alloc.address()))`. */
  method Resolved(allocs: map<nat, Allocation>, k: nat, w: nat, value: Expr) returns (p: Pointer)
    requires w >= 1 && AllTyped(allocs, w) && HasWidth(value, w) && k in allocs
    ensures p.alloc == k && SamePlace(p, allocs, w, value)
  {
    var addr := allocs[k].address;
    var offset := CreateSub(value, addr);
    p := Pointer(k, offset);
    forall env: Env ensures Lands(p, allocs, w, value, env) {
      assert Eval(offset, env) == (Eval(value, env) - Eval(addr, env)) % Pow2(w);
      OffsetLands(p, allocs, w, value, env);
    }
  }

  lemma OffsetLands(p: Pointer, allocs: map<nat, Allocation>, w: nat, value: Expr, env: Env)
    requires w >= 1 && AllTyped(allocs, w) && HasWidth(value, w) && p.alloc in allocs && HasWidth(p.offset, w)
    requires Eval(p.offset, env) == (Eval(value, env) - Eval(allocs[p.alloc].address, env)) % Pow2(w)
    ensures Lands(p, allocs, w, value, env)
  {
    SubThenAdd(Eval(value, env), Eval(allocs[p.alloc].address, env), w);
  }

  /** No block twice, and only blocks the solver did not refute. */
  ghost predicate OnlyCandidates(results: seq<Pointer>, allocs: map<nat, Allocation>, w: nat, value: Expr,
                                 unsat: seq<Expr> -> bool, path: seq<Expr>)
    requires AllTyped(allocs, w) && HasWidth(value, w) && AllBool(path)
  {
    && (forall i, j :: 0 <= i < j < |results| ==> results[i].alloc != results[j].alloc)
    && (forall i {:trigger results[i]} :: 0 <= i < |results| ==>
          results[i].alloc in allocs && NotRefuted(allocs[results[i].alloc], w, value, unsat, path))
  }

  /** The results for the blocks considered so far. */
  ghost predicate Candidates(results: seq<Pointer>, allocs: map<nat, Allocation>, todo: set<nat>, w: nat, value: Expr,
                             unsat: seq<Expr> -> bool, path: seq<Expr>)
    requires w >= 1 && AllTyped(allocs, w) && HasWidth(value, w) && AllBool(path)
  {
    && OnlyCandidates(results, allocs, w, value, unsat, path)
    && (forall i {:trigger results[i]} :: 0 <= i < |results| ==> SamePlace(results[i], allocs, w, value) && results[i].alloc !in todo)
  }

  /** `resolve` of an unresolved pointer: every block it may point into is found, at the same place, and no refuted one. */
  method Resolve(heap: MemHeap, value: Expr, unsat: seq<Expr> -> bool, ctx: Context) returns (results: seq<Pointer>)
    requires heap.Valid(ctx) && HasWidth(value, heap.w) && Trustworthy(unsat)
    ensures forall i :: 0 <= i < |results| ==> SamePlace(results[i], heap.allocs, heap.w, value)
    ensures forall env: Env :: Conj(ctx.path, env) ==> AllFound(results, heap.allocs, {}, heap.w, value, env)
    ensures OnlyCandidates(results, heap.allocs, heap.w, value, unsat, ctx.path)
  {
    results := [];
    var todo := heap.allocs.Keys;
    while todo != {}
      invariant todo <= heap.allocs.Keys
      invariant Candidates(results, heap.allocs, todo, heap.w, value, unsat, ctx.path)
      invariant forall env: Env :: Conj(ctx.path, env) ==> AllFound(results, heap.allocs, todo, heap.w, value, env)
      decreases |todo|
    {
      var k :| k in todo;
      results := ResolveNext(heap, k, value, unsat, ctx, results, todo);
      todo := todo - {k};
    }
  }

  /** One round of the loop. */
  method ResolveNext(heap: MemHeap, k: nat, value: Expr, unsat: seq<Expr> -> bool, ctx: Context, before: seq<Pointer>, ghost todo: set<nat>)
    returns (results: seq<Pointer>)
    requires heap.Valid(ctx) && k in heap.allocs && HasWidth(value, heap.w) && Trustworthy(unsat) && k in todo
    requires Candidates(before, heap.allocs, todo, heap.w, value, unsat, ctx.path)
    requires forall env: Env :: Conj(ctx.path, env) ==> AllFound(before, heap.allocs, todo, heap.w, value, env)
    ensures Candidates(results, heap.allocs, todo - {k}, heap.w, value, unsat, ctx.path)
    ensures forall env: Env :: Conj(ctx.path, env) ==> AllFound(results, heap.allocs, todo - {k}, heap.w, value, env)
  {
    var keep, p := ResolveOne(heap, k, value, unsat, ctx);
    results := if keep then before + [p] else before;
    FoundMore(before, results, k, keep);
  }

  lemma FoundMore(before: seq<Pointer>, after: seq<Pointer>, k: nat, keep: bool)
    requires before <= after && (keep ==> |after| == |before| + 1 && after[|before|].alloc == k)
    ensures forall j :: Found(before, j) ==> Found(after, j)
    ensures keep ==> Found(after, k)
  {
    forall j | Found(before, j) ensures Found(after, j) {
      var i :| 0 <= i < |before| && before[i].alloc == j;
      assert after[i].alloc == j;
    }
  }

  /** The result at index i resolves the access: the block contains it, and the place is the same. */
  ghost predicate Resolves(p: Pointer, allocs: map<nat, Allocation>, w: nat, value: Expr, width: Expr, env: Env)
    requires w >= 1 && AllTyped(allocs, w) && HasWidth(value, w) && HasWidth(width, w)
  {
    && p.alloc in allocs && HasWidth(p.offset, w)
    && InBlock(allocs[p.alloc], w, value, width, env) && Lands(p, allocs, w, value, env)
  }

  /**
   A valid access of at least one byte is resolved: one of the results resolves it, and all results
   that do name the same allocation.
   */
  lemma ValidIsResolved(allocs: map<nat, Allocation>, w: nat, value: Expr, width: Expr, env: Env, results: seq<Pointer>)
    requires w >= 1 && AllTyped(allocs, w) && HasWidth(value, w) && HasWidth(width, w)
    requires Laid(allocs, w, env) && NarrowAccess(allocs, w, width, env) && Eval(width, env) >= 1
    requires SomeChecked(allocs, allocs.Keys, w, value, width, env)
    requires AllFound(results, allocs, {}, w, value, env)
    requires forall i :: 0 <= i < |results| ==> SamePlace(results[i], allocs, w, value)
    ensures exists i :: 0 <= i < |results| && Resolves(results[i], allocs, w, value, width, env)
    ensures forall p, q :: Resolves(p, allocs, w, value, width, env) && Resolves(q, allocs, w, value, width, env) ==> p.alloc == q.alloc
  {
    var i := ResultFor(allocs, w, value, width, env, results);
    assert Resolves(results[i], allocs, w, value, width, env);
    forall p, q | Resolves(p, allocs, w, value, width, env) && Resolves(q, allocs, w, value, width, env) ensures p.alloc == q.alloc {
      InOneBlock(allocs, w, value, width, env, p.alloc, q.alloc);
    }
  }

  lemma ResultFor(allocs: map<nat, Allocation>, w: nat, value: Expr, width: Expr, env: Env, results: seq<Pointer>) returns (i: nat)
    requires w >= 1 && AllTyped(allocs, w) && HasWidth(value, w) && HasWidth(width, w)
    requires Laid(allocs, w, env) && NarrowAccess(allocs, w, width, env) && Eval(width, env) >= 1
    requires SomeChecked(allocs, allocs.Keys, w, value, width, env)
    requires AllFound(results, allocs, {}, w, value, env)
    requires forall i :: 0 <= i < |results| ==> SamePlace(results[i], allocs, w, value)
    ensures i < |results| && Resolves(results[i], allocs, w, value, width, env)
  {
    CheckedInSome(allocs, w, value, width, env);
    var k :| k in allocs && InBlock(allocs[k], w, value, width, env);
    assert PointsInto(allocs[k], w, value, env) && Found(results, k);
    i :| 0 <= i < |results| && results[i].alloc == k;
    assert SamePlace(results[i], allocs, w, value);
    assert Lands(results[i], allocs, w, value, env);
  }
}
