/**
 The symbolic heap (src/Memory/MemHeap.cpp): the constraints a new allocation puts on the path, the
 validity check for pointers, and the resolution of a pointer to allocations.
 */
module MemHeaps {
  import opened Bits
  import opened Exprs
  import opened Simplifier
  import opened SimplifierSound
  import opened Builder
  import opened Options
  import opened AssertionLists
  import opened BumpAllocators

  datatype Allocation = Allocation(address: Expr, size: Expr)

  /** A pointer resolved to an allocation. */
  datatype Pointer = Pointer(alloc: nat, offset: Expr)

  predicate HasWidth(e: Expr, w: nat) {
    WellTyped(e) && Width(e) == w
  }

  predicate AllocTyped(a: Allocation, w: nat) {
    HasWidth(a.address, w) && HasWidth(a.size, w)
  }

  predicate AllTyped(allocs: map<nat, Allocation>, w: nat) {
    forall k :: k in allocs ==> AllocTyped(allocs[k], w)
  }

  // ----- blocks in one model -----

  /** [addr, addr + n) is not null and does not wrap. */
  predicate Good(a: Allocation, w: nat, env: Env)
    requires AllocTyped(a, w)
  {
    GoodBlock(w, Eval(a.address, env), Eval(a.size, env))
  }

  predicate Disjoint(a: Allocation, b: Allocation, w: nat, env: Env)
    requires AllocTyped(a, w) && AllocTyped(b, w)
  {
    || Eval(a.address, env) + Eval(a.size, env) <= Eval(b.address, env)
    || Eval(b.address, env) + Eval(b.size, env) <= Eval(a.address, env)
  }

  /** Live blocks are good and pairwise disjoint. */
  ghost predicate Laid(allocs: map<nat, Allocation>, w: nat, env: Env)
    requires AllTyped(allocs, w)
  {
    && (forall k :: k in allocs ==> Good(allocs[k], w, env))
    && (forall j, k {:trigger Disjoint(allocs[j], allocs[k], w, env)} ::
          j in allocs && k in allocs && j != k ==> Disjoint(allocs[j], allocs[k], w, env))
  }

  /** The new block has its place among the live ones. */
  ghost predicate Fits(a: Allocation, align: Expr, allocs: map<nat, Allocation>, w: nat, env: Env)
    requires AllocTyped(a, w) && HasWidth(align, w) && AllTyped(allocs, w)
  {
    && AlignedTo(Eval(a.address, env), Eval(align, env)) && Good(a, w, env)
    && forall k :: k in allocs ==> Disjoint(allocs[k], a, w, env)
  }

  predicate AlignedTo(addr: nat, align: nat) {
    align == 0 || addr % align == 0
  }

  // ----- the assertions of `allocate` -----

  method AlignedAssertion(addr: Expr, align: Expr) returns (e: Expr)
    requires Operands(addr, align)
    ensures IsBool(e) && forall env: Env :: Holds(e, env) <==> AlignedTo(Eval(addr, env), Eval(align, env))
  {
    var zero := CreateConst(Width(addr), 0);
    var rem := CreateURem(addr, align);
    var isAligned := CreateICmp(EQ, rem, zero);
    var alignIsZero := CreateICmp(EQ, align, zero);
    e := CreateOr(isAligned, alignIsZero);
  }

  lemma NoWrap(a: nat, n: nat, w: nat)
    requires a < Pow2(w) && n < Pow2(w)
    ensures a <= (a + n) % Pow2(w) <==> a + n < Pow2(w)
    ensures a + n < Pow2(w) ==> (a + n) % Pow2(w) == a + n
  {
    if a + n < Pow2(w) { DivModUnique(a + n, Pow2(w), 0, a + n); } else { DivModUnique(a + n, Pow2(w), 1, a + n - Pow2(w)); }
  }

  method NoWrapAssertion(a: Allocation, w: nat) returns (e: Expr)
    requires AllocTyped(a, w)
    ensures IsBool(e)
    ensures forall env: Env :: Holds(e, env) <==> Eval(a.address, env) + Eval(a.size, env) < Pow2(w)
  {
    var end := CreateAdd(a.address, a.size);
    e := CreateICmp(ULE, a.address, end);
    forall env: Env ensures Holds(e, env) <==> Eval(a.address, env) + Eval(a.size, env) < Pow2(w) {
      NoWrap(Eval(a.address, env), Eval(a.size, env), w);
    }
  }

  method NotNullAssertion(v: Expr) returns (e: Expr)
    requires WellTyped(v)
    ensures IsBool(e) && forall env: Env :: Holds(e, env) <==> Eval(v, env) != 0
  {
    var zero := CreateConst(Width(v), 0);
    e := CreateICmp(NE, v, zero);
  }

  method NoOverlapAssertion(alloc: Allocation, made: Allocation, w: nat) returns (e: Expr)
    requires AllocTyped(alloc, w) && AllocTyped(made, w)
    ensures IsBool(e)
    ensures forall env: Env :: Good(alloc, w, env) && Good(made, w, env) ==> (Holds(e, env) <==> Disjoint(alloc, made, w, env))
  {
    var newEnd := CreateAdd(made.address, made.size);
    var oldEnd := CreateAdd(alloc.address, alloc.size);
    var cmp1 := CreateICmp(ULE, oldEnd, made.address);
    var cmp2 := CreateICmp(ULE, newEnd, alloc.address);
    e := CreateOr(cmp1, cmp2);
    forall env: Env | Good(alloc, w, env) && Good(made, w, env) ensures Holds(e, env) <==> Disjoint(alloc, made, w, env) {
      NoWrap(Eval(alloc.address, env), Eval(alloc.size, env), w);
      NoWrap(Eval(made.address, env), Eval(made.size, env), w);
    }
  }

  /** The path condition of an execution. */
  class Context {
    var path: seq<Expr>

    constructor ()
      ensures path == []
    {
      path := [];
    }

    method Add(e: Expr)
      requires AllBool(path) && IsBool(e)
      modifies this
      ensures AllBool(path)
      ensures forall env: Env :: Conj(path, env) <==> Conj(old(path), env) && Holds(e, env)
    {
      forall env: Env ensures Conj(path + [e], env) <==> Conj(path, env) && Holds(e, env) {
        ConjOne(e, env);
        ConjCat(path, [e], env);
      }
      path := path + [e];
    }
  }

  datatype AllocatorState = Symbolic | Init | Uninit

  /** Every live block of a concrete heap is one the bump allocator handed out. */
  ghost predicate Placed(allocs: map<nat, Allocation>, w: nat, lens: map<nat, nat>, live: set<nat>, env: Env)
    requires AllTyped(allocs, w)
  {
    && (forall k {:trigger PlacedAt(allocs[k], w, lens, live, env)} :: k in allocs ==> PlacedAt(allocs[k], w, lens, live, env))
    && (forall j, k {:trigger allocs[j].address, allocs[k].address} ::
          j in allocs && k in allocs && j != k ==> allocs[j].address != allocs[k].address)
  }

  ghost predicate PlacedAt(a: Allocation, w: nat, lens: map<nat, nat>, live: set<nat>, env: Env)
    requires AllocTyped(a, w)
  {
    a.address.ConstInt? && a.address.value in live && a.address.value in lens && Eval(a.size, env) == lens[a.address.value]
  }

  /** What the bump allocator promises about a block it hands out. */
  ghost predicate HandedOut(w: nat, lens: map<nat, nat>, lens': map<nat, nat>, p: nat, size: nat, align: nat) {
    && AlignedTo(p, align) && (GoodBlock(w, p, size) <==> size + 8 < Pow2(w))
    && (size + 8 < Pow2(w) ==> lens' == lens[p := size] && p !in lens && forall q :: q in lens ==> q + lens[q] + 8 <= p)
  }

  class MemHeap {
    const w: nat
    var allocs: map<nat, Allocation>
    var nextKey: nat
    var state: AllocatorState
    const bump: BumpAllocator

    ghost predicate Shape()
      reads this, bump
    {
      && w >= 4 && bump.w == w && bump.Valid() && AllTyped(allocs, w) && forall k :: k in allocs ==> k < nextKey
    }

    /** In every model of the path the live blocks are good and disjoint. */
    ghost predicate Valid(ctx: Context)
      reads this, bump, ctx
    {
      && Shape() && AllBool(ctx.path)
      && (state == Uninit ==> allocs == map[])
      && (forall env: Env {:trigger Conj(ctx.path, env)} :: Conj(ctx.path, env) ==>
            Laid(allocs, w, env) && (state == Init ==> Placed(allocs, w, bump.lens, bump.allocations, env)))
    }

    constructor (w: nat, concrete: bool, ctx: Context)
      requires w >= 4 && AllBool(ctx.path)
      ensures Valid(ctx) && allocs == map[] && this.w == w && fresh(bump)
    {
      this.w, allocs, nextKey := w, map[], 0;
      state := if concrete then Uninit else Symbolic;
      bump := new BumpAllocator(w);
    }

    /**
     `alloc_addr`: a concrete address if the allocator can still give one, else a new symbol.
     `extracted` is what the e-graph extracts for size and alignment, when both are constants.
     */
    method AllocAddr(extracted: Option<(nat, nat)>, symbol: string) returns (addr: Expr)
      requires Shape()
      requires extracted.Some? ==> extracted.value.0 < Pow2(w) && (extracted.value.1 == 0 || PowerOf2(w, extracted.value.1))
      modifies this`state, bump
      ensures Shape() && HasWidth(addr, w) && (state == Init <==> addr.ConstInt?) && state != Uninit
      ensures state == Init ==> old(state) != Symbolic && extracted.Some?
      ensures state == Init ==>
        HandedOut(w, old(bump.lens), bump.lens, addr.value, extracted.value.0, extracted.value.1)
        && bump.allocations == old(bump.allocations) + {addr.value}
      ensures state == Symbolic ==> addr == Sym(Symbol(symbol, w))
      ensures old(state) != Symbolic && extracted.Some? ==>
        && (state == Init <==> HasPlace(w, old(bump.c), extracted.value.0, extracted.value.1))
        && bump.c == NextPosition(w, old(bump.c), extracted.value.0, extracted.value.1)
      ensures state == Init ==> addr.value == RoundUp(old(bump.c), InForce(extracted.value.1)) % Pow2(w)
    {
      addr := Sym(Symbol(symbol, w));
      if state == Symbolic { return; }
      if extracted.None? {
        state := Symbolic;
        return;
      }
      state := Init;
      var r := bump.Allocate(extracted.value.0, extracted.value.1);
      if r.None? {
        state := Symbolic;
        return;
      }
      addr := ConstInt(w, r.value);
    }

    /** The assertions of `allocate`: in the models of the path that remain, the new block fits. */
    method Constrain(a: Allocation, align: Expr, ctx: Context)
      requires Shape() && AllBool(ctx.path) && AllocTyped(a, w) && HasWidth(align, w)
      requires forall env: Env {:trigger Conj(ctx.path, env)} :: Conj(ctx.path, env) ==> Laid(allocs, w, env)
      modifies ctx
      ensures AllBool(ctx.path)
      ensures forall env: Env :: Conj(ctx.path, env) <==> Conj(old(ctx.path), env) && Fits(a, align, allocs, w, env)
    {
      var aligned := AlignedAssertion(a.address, align);
      ctx.Add(aligned);
      var noWrap := NoWrapAssertion(a, w);
      ctx.Add(noWrap);
      var notNull := NotNullAssertion(a.address);
      ctx.Add(notNull);
      ghost var path := old(ctx.path);
      var todo := allocs.Keys;
      while todo != {}
        invariant AllBool(ctx.path) && todo <= allocs.Keys
        invariant forall env: Env :: Conj(ctx.path, env) <==> Conj(path, env) && FitsSoFar(a, align, allocs, todo, w, env)
        decreases |todo|
      {
        var k :| k in todo;
        ConstrainOne(k, a, align, ctx, path, todo);
        todo := todo - {k};
      }
    }

    method ConstrainOne(k: nat, a: Allocation, ghost align: Expr, ctx: Context, ghost path: seq<Expr>, ghost todo: set<nat>)
      requires Shape() && AllBool(ctx.path) && AllBool(path) && AllocTyped(a, w) && HasWidth(align, w)
      requires k in todo && todo <= allocs.Keys
      requires forall env: Env {:trigger Conj(path, env)} :: Conj(path, env) ==> Laid(allocs, w, env)
      requires forall env: Env :: Conj(ctx.path, env) <==> Conj(path, env) && FitsSoFar(a, align, allocs, todo, w, env)
      modifies ctx
      ensures AllBool(ctx.path)
      ensures forall env: Env :: Conj(ctx.path, env) <==> Conj(path, env) && FitsSoFar(a, align, allocs, todo - {k}, w, env)
    {
      var e := NoOverlapAssertion(allocs[k], a, w);
      ctx.Add(e);
      forall env: Env ensures Conj(ctx.path, env) <==> Conj(path, env) && FitsSoFar(a, align, allocs, todo - {k}, w, env) {
        if Conj(path, env) { FitsOneMore(a, align, allocs, todo, k, w, env); }
      }
    }

    /** `allocate`, with the data left out. */
    method Allocate(size: Expr, align: Expr, extracted: Option<(nat, nat)>, symbol: string, ctx: Context) returns (key: nat)
      requires Valid(ctx) && HasWidth(size, w) && HasWidth(align, w)
      requires extracted.Some? ==> extracted.value.0 < Pow2(w) && (extracted.value.1 == 0 || PowerOf2(w, extracted.value.1))
      requires extracted.Some? ==> forall env: Env {:trigger Conj(ctx.path, env)} :: Conj(ctx.path, env) ==>
        Eval(size, env) == extracted.value.0 && Eval(align, env) == extracted.value.1
      modifies this, bump, ctx
      ensures Valid(ctx) && key !in old(allocs) && key in allocs
      ensures allocs == old(allocs)[key := Allocation(allocs[key].address, size)] && AllocTyped(allocs[key], w)
      ensures forall env: Env :: Conj(ctx.path, env) <==> Conj(old(ctx.path), env) && Fits(allocs[key], align, old(allocs), w, env)
      ensures state != Uninit && (state == Init ==> old(state) != Symbolic && extracted.Some?)
      ensures old(state) != Symbolic && extracted.Some? ==>
        && (state == Init <==> HasPlace(w, old(bump.c), extracted.value.0, extracted.value.1))
        && bump.c == NextPosition(w, old(bump.c), extracted.value.0, extracted.value.1)
      ensures allocs[key].address ==
        if state == Init then ConstInt(w, RoundUp(old(bump.c), InForce(extracted.value.1)) % Pow2(w)) else Sym(Symbol(symbol, w))
      ensures state == Init && extracted.value.0 + 8 < Pow2(w) ==> forall env: Env :: Conj(ctx.path, env) <==> Conj(old(ctx.path), env)
      ensures state == Init && extracted.value.0 + 8 >= Pow2(w) ==> forall env: Env :: !Conj(ctx.path, env)
    {
      ghost var lens, live, path := bump.lens, bump.allocations, ctx.path;
      ghost var allocs0, state0 := allocs, state;
      var addr := AllocAddr(extracted, symbol);
      var a := Allocation(addr, size);
      Constrain(a, align, ctx);
      key := nextKey;
      allocs := allocs[key := a];
      nextKey := nextKey + 1;
      forall env: Env | Conj(path, env) ensures
        (Fits(a, align, allocs0, w, env) ==> Laid(allocs, w, env))
        && (state == Init ==> (Fits(a, align, allocs0, w, env) <==> extracted.value.0 + 8 < Pow2(w)))
        && (state == Init && Fits(a, align, allocs0, w, env) ==> Placed(allocs, w, bump.lens, bump.allocations, env))
      {
        if Fits(a, align, allocs0, w, env) { LaidMore(a, align, allocs0, key, w, env); }
        if state == Init {
          assert Placed(allocs0, w, lens, live, env);
          ConcreteFits(a, align, allocs0, w, lens, bump.lens, live, env, extracted.value.0, extracted.value.1);
          if Fits(a, align, allocs0, w, env) { PlacedMore(a, allocs0, key, w, lens, bump.lens, live, env, extracted.value.0); }
        }
      }
    }

    /** `deallocate` of a live allocation, on a path that has a model. */
    method Deallocate(key: nat, ctx: Context)
      requires Valid(ctx) && key in allocs && exists env: Env :: Conj(ctx.path, env)
      modifies this, bump
      ensures Valid(ctx) && allocs == old(allocs) - {key}
      ensures if old(state) == Init
        then state == Init && bump.c == old(bump.c) && old(allocs)[key].address.ConstInt?
             && bump.allocations == old(bump.allocations) - {old(allocs)[key].address.value}
        else state == Symbolic
    {
      ghost var env0: Env :| Conj(ctx.path, env0);
      assert Laid(allocs, w, env0);
      var a := allocs[key];
      ghost var allocs0, live := allocs, bump.allocations;
      if state == Init {
        assert PlacedAt(allocs[key], w, bump.lens, bump.allocations, env0);
        bump.Deallocate(a.address.value);
      } else {
        state := Symbolic;
      }
      allocs := allocs - {key};
      forall env: Env | Conj(ctx.path, env) ensures
        Laid(allocs, w, env) && (state == Init ==> Placed(allocs, w, bump.lens, bump.allocations, env))
      {
        LaidLess(allocs0, key, w, env);
        if state == Init { PlacedLess(allocs0, key, w, bump.lens, live, env); }
      }
    }
  }

  // ----- one block more or less -----

  /** `Fits`, but for the live blocks still to be considered. */
  ghost predicate FitsSoFar(a: Allocation, align: Expr, allocs: map<nat, Allocation>, todo: set<nat>, w: nat, env: Env)
    requires AllocTyped(a, w) && HasWidth(align, w) && AllTyped(allocs, w)
  {
    && AlignedTo(Eval(a.address, env), Eval(align, env)) && Good(a, w, env)
    && forall k :: k in allocs && k !in todo ==> Disjoint(allocs[k], a, w, env)
  }

  lemma FitsOneMore(a: Allocation, align: Expr, allocs: map<nat, Allocation>, todo: set<nat>, k: nat, w: nat, env: Env)
    requires AllocTyped(a, w) && HasWidth(align, w) && AllTyped(allocs, w) && k in todo && k in allocs && Laid(allocs, w, env)
    ensures FitsSoFar(a, align, allocs, todo - {k}, w, env) <==>
      FitsSoFar(a, align, allocs, todo, w, env) && Disjoint(allocs[k], a, w, env)
    ensures FitsSoFar(a, align, allocs, todo, w, env) ==> Good(allocs[k], w, env) && Good(a, w, env)
  {}

  lemma LaidMore(a: Allocation, align: Expr, allocs: map<nat, Allocation>, key: nat, w: nat, env: Env)
    requires AllocTyped(a, w) && HasWidth(align, w) && AllTyped(allocs, w) && key !in allocs
    requires Laid(allocs, w, env) && Fits(a, align, allocs, w, env)
    ensures AllTyped(allocs[key := a], w) && Laid(allocs[key := a], w, env)
  {
    var allocs' := allocs[key := a];
    forall j, k | j in allocs' && k in allocs' && j != k ensures Disjoint(allocs'[j], allocs'[k], w, env) {
      if j == key { assert Disjoint(allocs[k], a, w, env); }
      else if k == key { assert Disjoint(allocs[j], a, w, env); }
      else { assert Disjoint(allocs[j], allocs[k], w, env); }
    }
  }

  lemma LaidLess(allocs: map<nat, Allocation>, key: nat, w: nat, env: Env)
    requires AllTyped(allocs, w) && Laid(allocs, w, env)
    ensures AllTyped(allocs - {key}, w) && Laid(allocs - {key}, w, env)
  {
    var allocs' := allocs - {key};
    forall j, k | j in allocs' && k in allocs' && j != k ensures Disjoint(allocs'[j], allocs'[k], w, env) {
      assert Disjoint(allocs[j], allocs[k], w, env);
    }
  }

  /** A concrete block fits exactly when its request leaves room for the guard bytes in w bits. */
  lemma ConcreteFits(a: Allocation, align: Expr, allocs: map<nat, Allocation>, w: nat, lens: map<nat, nat>, lens': map<nat, nat>,
                     live: set<nat>, env: Env, size: nat, al: nat)
    requires AllocTyped(a, w) && HasWidth(align, w) && AllTyped(allocs, w) && Placed(allocs, w, lens, live, env)
    requires a.address.ConstInt? && HandedOut(w, lens, lens', a.address.value, size, al)
    requires Eval(a.size, env) == size && Eval(align, env) == al
    ensures Fits(a, align, allocs, w, env) <==> size + 8 < Pow2(w)
  {
    if size + 8 < Pow2(w) {
      forall k | k in allocs ensures Disjoint(allocs[k], a, w, env) {
        assert PlacedAt(allocs[k], w, lens, live, env);
        var q: nat := allocs[k].address.value;
        assert q + lens[q] + 8 <= a.address.value;
      }
    }
  }

  lemma PlacedMore(a: Allocation, allocs: map<nat, Allocation>, key: nat, w: nat, lens: map<nat, nat>, lens': map<nat, nat>,
                   live: set<nat>, env: Env, size: nat)
    requires AllocTyped(a, w) && AllTyped(allocs, w) && Placed(allocs, w, lens, live, env) && key !in allocs
    requires a.address.ConstInt? && Eval(a.size, env) == size
    requires lens' == lens[a.address.value := size] && a.address.value !in lens
    ensures AllTyped(allocs[key := a], w) && Placed(allocs[key := a], w, lens', live + {a.address.value}, env)
  {
    var allocs', live' := allocs[key := a], live + {a.address.value};
    forall k | k in allocs' ensures PlacedAt(allocs'[k], w, lens', live', env) {
      if k != key { assert PlacedAt(allocs[k], w, lens, live, env); }
    }
    forall j, k | j in allocs' && k in allocs' && j != k ensures allocs'[j].address != allocs'[k].address {
      if j != key { assert PlacedAt(allocs[j], w, lens, live, env); }
      if k != key { assert PlacedAt(allocs[k], w, lens, live, env); }
    }
  }

  lemma PlacedLess(allocs: map<nat, Allocation>, key: nat, w: nat, lens: map<nat, nat>, live: set<nat>, env: Env)
    requires AllTyped(allocs, w) && Placed(allocs, w, lens, live, env) && key in allocs && allocs[key].address.ConstInt?
    ensures AllTyped(allocs - {key}, w) && Placed(allocs - {key}, w, lens, live - {allocs[key].address.value}, env)
  {
    var allocs', live' := allocs - {key}, live - {allocs[key].address.value};
    forall k | k in allocs' ensures PlacedAt(allocs'[k], w, lens, live', env) {
      assert PlacedAt(allocs[k], w, lens, live, env) && PlacedAt(allocs[key], w, lens, live, env);
      assert allocs[k].address != allocs[key].address;
    }
  }
}
