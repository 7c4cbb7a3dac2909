/**
 The constraint slicer (src/Query/ConstraintSlicer.cpp): from the proven assertions it keeps those
 that share a symbol with an unproven assertion or with the extra one.

 The comment in the source describes a transitive search; the code gathers one level only.  The slice
 therefore decides the whole exactly under a closure condition, and not in general.
 */
module Slicer {
  import opened Bits
  import opened Exprs
  import opened Builder
  import opened SparseVectors
  import opened AssertionLists

  // ----- what a slice means -----

  ghost predicate AllBools(xs: set<Expr>) {
    forall x :: x in xs ==> IsBool(x)
  }

  ghost predicate AllHold(xs: set<Expr>, env: Env)
    requires AllBools(xs)
  {
    forall x :: x in xs ==> Holds(x, env)
  }

  ghost predicate Satisfiable(xs: set<Expr>)
    requires AllBools(xs)
  {
    exists env: Env :: AllHold(xs, env)
  }

  predicate Shares(a: Expr, b: Expr) {
    Symbols(a) * Symbols(b) != {}
  }

  /** The proven assertions that share a symbol with one of the targets. */
  ghost function Sharing(proven: set<Expr>, targets: set<Expr>): set<Expr> {
    set p, t | p in proven && t in targets && Shares(p, t) :: p
  }

  /** What `slice` keeps. */
  ghost function SliceOf(proven: set<Expr>, unproven: set<Expr>, extra: Expr): set<Expr> {
    unproven + Sharing(proven, unproven + {extra})
  }

  /** No omitted proven assertion shares a symbol with a kept one or with the extra one. */
  ghost predicate Closed(proven: set<Expr>, unproven: set<Expr>, extra: Expr) {
    forall p, k :: p in proven && p !in SliceOf(proven, unproven, extra) && k in SliceOf(proven, unproven, extra) + {extra} ==>
      !Shares(p, k)
  }

  /** The whole implies the slice, so an unsatisfiable slice means an unsatisfiable whole. */
  lemma SliceIsImplied(proven: set<Expr>, unproven: set<Expr>, extra: Expr)
    requires AllBools(proven) && AllBools(unproven) && IsBool(extra)
    ensures AllBools(SliceOf(proven, unproven, extra)) && AllBools(proven + unproven)
    ensures forall env: Env :: AllHold(proven + unproven, env) ==> AllHold(SliceOf(proven, unproven, extra), env)
    ensures !Satisfiable(SliceOf(proven, unproven, extra) + {extra}) ==> !Satisfiable(proven + unproven + {extra})
  {
    var slice, whole := SliceOf(proven, unproven, extra), proven + unproven;
    assert slice <= whole;
    if Satisfiable(whole + {extra}) {
      var env: Env :| AllHold(whole + {extra}, env);
      assert AllHold(slice + {extra}, env);
    }
  }

  ghost function SymbolsOf(xs: set<Expr>): set<Symbol> {
    set x, s | x in xs && s in Symbols(x) :: s
  }

  /** Values from `inside` for the given symbols, from `outside` for all others. */
  ghost function Glued(symbols: set<Symbol>, inside: Env, outside: Env): Env {
    s => if s in symbols then inside(s) else outside(s)
  }

  /**
   The converse, by gluing a model of the slice to a model of the proven part: it needs the slice to
   be closed and the proven part to be satisfiable.
   */
  lemma SliceDecides(proven: set<Expr>, unproven: set<Expr>, extra: Expr)
    requires AllBools(proven) && AllBools(unproven) && IsBool(extra)
    requires Closed(proven, unproven, extra) && Satisfiable(proven)
    ensures AllBools(SliceOf(proven, unproven, extra))
    ensures Satisfiable(SliceOf(proven, unproven, extra) + {extra}) <==> Satisfiable(proven + unproven + {extra})
  {
    SliceIsImplied(proven, unproven, extra);
    var kept := SliceOf(proven, unproven, extra) + {extra};
    if Satisfiable(kept) {
      var inside: Env :| AllHold(kept, inside);
      var outside: Env :| AllHold(proven, outside);
      var env := Glued(SymbolsOf(kept), inside, outside);
      forall x | x in proven + unproven + {extra} ensures Holds(x, env) {
        if x in kept { GluedInside(kept, x, inside, outside); } else { GluedOutside(kept, x, inside, outside); }
      }
      assert AllHold(proven + unproven + {extra}, env);
    }
  }

  lemma GluedInside(kept: set<Expr>, x: Expr, inside: Env, outside: Env)
    requires AllBools(kept) && x in kept
    ensures Holds(x, Glued(SymbolsOf(kept), inside, outside)) <==> Holds(x, inside)
  {
    EvalDependsOnSymbols(x, Glued(SymbolsOf(kept), inside, outside), inside);
  }

  lemma GluedOutside(kept: set<Expr>, x: Expr, inside: Env, outside: Env)
    requires IsBool(x) && forall k :: k in kept ==> !Shares(x, k)
    ensures Holds(x, Glued(SymbolsOf(kept), inside, outside)) <==> Holds(x, outside)
  {
    forall s | s in Symbols(x) ensures s !in SymbolsOf(kept) {
      if s in SymbolsOf(kept) {
        var k :| k in kept && s in Symbols(k);
        assert s in Symbols(x) * Symbols(k);
      }
    }
    EvalDependsOnSymbols(x, Glued(SymbolsOf(kept), inside, outside), outside);
  }

  // ----- where one level is not enough -----

  const X := Sym(Symbol("x", 1))
  const Y := Sym(Symbol("y", 1))

  /** Proven: x == y and x == 0.  Unproven: y == 1. */
  const PROVEN := {ICmp(EQ, X, Y), ICmp(EQ, X, ConstInt(1, 0))}
  const UNPROVEN := {ICmp(EQ, Y, ConstInt(1, 1))}

  lemma OneLevelSlice()
    ensures SliceOf(PROVEN, UNPROVEN, ConstInt(1, 1)) == UNPROVEN + {ICmp(EQ, X, Y)}
  {
    var xy, x0, y1, t := ICmp(EQ, X, Y), ICmp(EQ, X, ConstInt(1, 0)), ICmp(EQ, Y, ConstInt(1, 1)), ConstInt(1, 1);
    assert Y.sym in Symbols(xy) * Symbols(y1);
    assert Symbols(x0) == {X.sym} && Symbols(y1) == {Y.sym} && Symbols(t) == {};
    assert Shares(xy, y1) && !Shares(x0, y1) && !Shares(x0, t);
  }

  /** Without closure the slice may be satisfiable though the whole is not: x == 0 is one step too far away. */
  lemma OpenSliceMisses()
    ensures AllBools(PROVEN) && AllBools(UNPROVEN) && Satisfiable(PROVEN)
    ensures AllBools(SliceOf(PROVEN, UNPROVEN, ConstInt(1, 1)))
    ensures Satisfiable(SliceOf(PROVEN, UNPROVEN, ConstInt(1, 1)) + {ConstInt(1, 1)})
    ensures !Satisfiable(PROVEN + UNPROVEN + {ConstInt(1, 1)})
  {
    OneLevelSlice();
    var xy, x0, y1 := ICmp(EQ, X, Y), ICmp(EQ, X, ConstInt(1, 0)), ICmp(EQ, Y, ConstInt(1, 1));
    var zero: Env, one: Env := s => 0, s => 1;
    BitValue(zero); BitValue(one);
    assert AllHold(PROVEN, zero);
    assert AllHold(UNPROVEN + {xy} + {ConstInt(1, 1)}, one);
    forall env: Env ensures !AllHold(PROVEN + UNPROVEN + {ConstInt(1, 1)}, env) {
      BitValue(env);
      assert xy in PROVEN && x0 in PROVEN && y1 in UNPROVEN;
    }
  }

  lemma BitValue(env: Env)
    ensures WellTyped(X) && WellTyped(Y) && IsBool(ICmp(EQ, X, Y))
    ensures IsBool(ICmp(EQ, X, ConstInt(1, 0))) && IsBool(ICmp(EQ, Y, ConstInt(1, 1)))
    ensures Eval(X, env) == env(X.sym) % 2 && Eval(Y, env) == env(Y.sym) % 2
    ensures Holds(ICmp(EQ, X, Y), env) <==> Eval(X, env) == Eval(Y, env)
    ensures Holds(ICmp(EQ, X, ConstInt(1, 0)), env) <==> Eval(X, env) == 0
    ensures Holds(ICmp(EQ, Y, ConstInt(1, 1)), env) <==> Eval(Y, env) == 1
  {
    assert Pow2(1) == 2;
  }

  // ----- the slicer -----

  ghost function Known(known: map<Symbol, seq<Expr>>, s: Symbol): seq<Expr> {
    if s in known then known[s] else []
  }

  /** `known` lists, for every symbol, the assertions that contain it. */
  ghost predicate KnownOk(known: map<Symbol, seq<Expr>>, xs: set<Expr>) {
    forall s, x :: x in Known(known, s) <==> x in xs && s in Symbols(x)
  }

  ghost function SetOf(xs: seq<Expr>): set<Expr> {
    set x | x in xs
  }

  lemma ConjIsAllHold(xs: seq<Expr>, env: Env)
    requires AllBool(xs)
    ensures AllBools(SetOf(xs)) && (Conj(xs, env) <==> AllHold(SetOf(xs), env))
  {
    if AllHold(SetOf(xs), env) {
      forall i | 0 <= i < |xs| ensures Holds(xs[i], env) { assert xs[i] in SetOf(xs); }
    }
  }

  /** The list has the models of the set `inserted`. */
  ghost predicate Stands(contents: seq<Expr>, inserted: set<Expr>) {
    AllBool(contents) && AllBools(inserted) && forall env: Env :: Conj(contents, env) <==> AllHold(inserted, env)
  }

  class ConstraintSlicer {
    /** `mapping_cache`. */
    var cache: map<Expr, set<Symbol>>

    ghost predicate Valid()
      reads this
    {
      forall e :: e in cache ==> cache[e] == Symbols(e)
    }

    constructor ()
      ensures Valid()
    {
      cache := map[];
    }

    /** `contained_constants`, memoized. */
    method ContainedConstants(e: Expr) returns (symbols: set<Symbol>)
      requires Valid()
      modifies this
      ensures Valid() && symbols == Symbols(e)
    {
      if e in cache { return cache[e]; }
      symbols := CalcContained(e, {});
      cache := cache[e := symbols];
    }

    method CalcContained(e: Expr, out: set<Symbol>) returns (out': set<Symbol>)
      requires Valid()
      ensures out' == out + Symbols(e)
      decreases e
    {
      if e in cache { return out + cache[e]; }
      match e
      case ConstInt(_, _) => out' := out;
      case Sym(s) => out' := out + {s};
      case Bin(_, l, r) => out' := CalcContained(l, out); out' := CalcContained(r, out');
      case Not(a) => out' := CalcContained(a, out);
      case Trunc(_, a) => out' := CalcContained(a, out);
      case ZExt(_, a) => out' := CalcContained(a, out);
      case SExt(_, a) => out' := CalcContained(a, out);
      case ICmp(_, l, r) => out' := CalcContained(l, out); out' := CalcContained(r, out');
      case Select(c, t, f) => out' := CalcContained(c, out); out' := CalcContained(t, out'); out' := CalcContained(f, out');
    }

    /** `slice`: the returned list has exactly the models of the slice. */
    method Slice(assertions: AssertionList, extra: Expr) returns (list: AssertionList)
      requires Valid() && assertions.Valid() && IsBool(extra)
      modifies this
      ensures Valid() && list.Valid() && fresh(list) && fresh(list.list)
      ensures Stands(list.Contents(), SliceOf(SetOf(assertions.ProvenPart()), SetOf(assertions.UnprovenPart()), extra))
    {
      var proven := assertions.Proven();
      var unproven := assertions.Unproven();
      assertions.SplitContents();
      PartsBoolean(assertions.Contents(), proven, unproven);
      var known := Index(proven);
      list := new AssertionList();
      ghost var inserted := AddTargets(unproven, known, proven, list);
      inserted := AddTarget(extra, false, known, proven, list, inserted);
      MoreTargets(SetOf(proven), SetOf(unproven), extra);
      inserted := InsertSeq(unproven, list, inserted);
    }

    /** The loop over the unproven assertions. */
    method AddTargets(unproven: seq<Expr>, known: map<Symbol, seq<Expr>>, ghost proven: seq<Expr>, list: AssertionList)
      returns (ghost inserted: set<Expr>)
      requires Valid() && list.Valid() && list.Contents() == [] && AllBool(unproven) && AllBool(proven)
      requires KnownOk(known, SetOf(proven))
      modifies this, list`lookup, list.list
      ensures Valid() && list.Valid() && Stands(list.Contents(), inserted)
      ensures inserted == SetOf(unproven) + Sharing(SetOf(proven), SetOf(unproven))
    {
      inserted := {};
      for i := 0 to |unproven|
        invariant Valid() && list.Valid() && Stands(list.Contents(), inserted)
        invariant inserted == SetOf(unproven[..i]) + Sharing(SetOf(proven), SetOf(unproven[..i]))
      {
        inserted := AddTarget(unproven[i], true, known, proven, list, inserted);
        OneMore(SetOf(proven), unproven, i);
      }
      assert unproven[..|unproven|] == unproven;
    }

    /** Insert an assertion, if asked to, and the known assertions that share a symbol with it. */
    method AddTarget(target: Expr, keep: bool, known: map<Symbol, seq<Expr>>, ghost proven: seq<Expr>,
                     list: AssertionList, ghost inserted: set<Expr>) returns (ghost inserted': set<Expr>)
      requires Valid() && list.Valid() && IsBool(target) && AllBool(proven)
      requires KnownOk(known, SetOf(proven)) && Stands(list.Contents(), inserted)
      modifies this, list`lookup, list.list
      ensures Valid() && list.Valid() && Stands(list.Contents(), inserted')
      ensures inserted' == inserted + (if keep then {target} else {}) + Sharing(SetOf(proven), {target})
    {
      inserted' := inserted;
      if keep { inserted' := InsertSeq([target], list, inserted'); }
      var symbols := ContainedConstants(target);
      inserted' := AddSharing(symbols, known, proven, list, inserted');
      SharingOne(SetOf(proven), target);
    }

    /** Insert what is known about each of the symbols. */
    static method AddSharing(symbols: set<Symbol>, known: map<Symbol, seq<Expr>>, ghost proven: seq<Expr>,
                             list: AssertionList, ghost inserted: set<Expr>) returns (ghost inserted': set<Expr>)
      requires list.Valid() && AllBool(proven) && KnownOk(known, SetOf(proven)) && Stands(list.Contents(), inserted)
      modifies list`lookup, list.list
      ensures list.Valid() && Stands(list.Contents(), inserted')
      ensures inserted' == inserted + With(SetOf(proven), symbols)
    {
      inserted' := inserted;
      var todo := symbols;
      while todo != {}
        invariant list.Valid() && todo <= symbols && Stands(list.Contents(), inserted')
        invariant inserted' == inserted + With(SetOf(proven), symbols - todo)
        decreases |todo|
      {
        var s :| s in todo;
        ghost var done := symbols - todo;
        KnownBool(known, proven, s);
        WithMore(SetOf(proven), done, known, s);
        if s in known {
          inserted' := InsertSeq(known[s], list, inserted');
        }
        todo := todo - {s};
        assert symbols - todo == done + {s};
      }
      assert symbols - todo == symbols;
    }

    static method InsertSeq(xs: seq<Expr>, list: AssertionList, ghost inserted: set<Expr>) returns (ghost inserted': set<Expr>)
      requires list.Valid() && AllBool(xs) && Stands(list.Contents(), inserted)
      modifies list`lookup, list.list
      ensures list.Valid() && inserted' == inserted + SetOf(xs) && Stands(list.Contents(), inserted')
    {
      inserted' := inserted + SetOf(xs);
      ghost var before := list.Contents();
      list.Insert(xs);
      StandsMore(before, inserted, xs, list.Contents());
    }

    /** The `known` map. */
    method Index(proven: seq<Expr>) returns (known: map<Symbol, seq<Expr>>)
      requires Valid()
      modifies this
      ensures Valid() && KnownOk(known, SetOf(proven))
    {
      known := map[];
      for i := 0 to |proven|
        invariant Valid() && KnownOk(known, SetOf(proven[..i]))
      {
        var symbols := ContainedConstants(proven[i]);
        known := IndexOne(proven[i], symbols, known, SetOf(proven[..i]));
        assert SetOf(proven[..i + 1]) == SetOf(proven[..i]) + {proven[i]};
      }
      assert proven[..|proven|] == proven;
    }

    static method IndexOne(a: Expr, symbols: set<Symbol>, known: map<Symbol, seq<Expr>>, ghost xs: set<Expr>)
      returns (known': map<Symbol, seq<Expr>>)
      requires KnownOk(known, xs) && symbols == Symbols(a)
      ensures KnownOk(known', xs + {a})
    {
      known' := known;
      var todo := symbols;
      IndexStart(known, xs, a);
      assert symbols - todo == {};
      while todo != {}
        invariant todo <= symbols
        invariant Indexing(known', xs, a, symbols - todo)
        decreases |todo|
      {
        var s :| s in todo;
        IndexStep(known', xs, a, symbols - todo, s);
        assert symbols - (todo - {s}) == (symbols - todo) + {s};
        known' := known'[s := (if s in known' then known'[s] else []) + [a]];
        todo := todo - {s};
      }
      assert symbols - todo == symbols;
      IndexDone(known', xs, a);
    }
  }

  /** Assertion a has been listed under the symbols done so far. */
  ghost predicate Indexing(known: map<Symbol, seq<Expr>>, xs: set<Expr>, a: Expr, done: set<Symbol>) {
    forall s, x {:trigger ListedAt(known, xs, a, done, s, x)} :: ListedAt(known, xs, a, done, s, x)
  }

  ghost predicate ListedAt(known: map<Symbol, seq<Expr>>, xs: set<Expr>, a: Expr, done: set<Symbol>, s: Symbol, x: Expr) {
    x in Known(known, s) <==> (x in xs && s in Symbols(x)) || (x == a && s in done)
  }

  lemma IndexStart(known: map<Symbol, seq<Expr>>, xs: set<Expr>, a: Expr)
    requires KnownOk(known, xs)
    ensures Indexing(known, xs, a, {})
  {}

  lemma IndexDone(known: map<Symbol, seq<Expr>>, xs: set<Expr>, a: Expr)
    requires Indexing(known, xs, a, Symbols(a))
    ensures KnownOk(known, xs + {a})
  {
    forall s, x ensures x in Known(known, s) <==> x in xs + {a} && s in Symbols(x) {
      assert ListedAt(known, xs, a, Symbols(a), s, x);
    }
  }

  lemma IndexStep(known: map<Symbol, seq<Expr>>, xs: set<Expr>, a: Expr, done: set<Symbol>, s: Symbol)
    requires Indexing(known, xs, a, done)
    ensures Indexing(known[s := Known(known, s) + [a]], xs, a, done + {s})
  {
    var known' := known[s := Known(known, s) + [a]];
    forall t, x ensures ListedAt(known', xs, a, done + {s}, t, x) {
      assert ListedAt(known, xs, a, done, t, x);
      if t == s { assert x in Known(known', s) <==> x in Known(known, s) || x == a; }
      else { assert Known(known', t) == Known(known, t); }
    }
  }

  // ----- set algebra -----

  /** The members of xs that contain one of the symbols. */
  ghost function With(xs: set<Expr>, symbols: set<Symbol>): set<Expr> {
    set x | x in xs && Symbols(x) * symbols != {}
  }

  lemma SharingOne(proven: set<Expr>, target: Expr)
    ensures Sharing(proven, {target}) == With(proven, Symbols(target))
  {}

  lemma OneMore(proven: set<Expr>, unproven: seq<Expr>, i: nat)
    requires i < |unproven|
    ensures SetOf(unproven[..i + 1]) == SetOf(unproven[..i]) + {unproven[i]}
    ensures Sharing(proven, SetOf(unproven[..i + 1])) == Sharing(proven, SetOf(unproven[..i])) + Sharing(proven, {unproven[i]})
  {
    MoreTargets(proven, SetOf(unproven[..i]), unproven[i]);
  }

  lemma MoreTargets(proven: set<Expr>, targets: set<Expr>, t: Expr)
    ensures Sharing(proven, targets + {t}) == Sharing(proven, targets) + Sharing(proven, {t})
  {
    forall p | p in Sharing(proven, targets) + Sharing(proven, {t}) ensures p in Sharing(proven, targets + {t}) {
      var u :| u in targets + {t} && Shares(p, u) && p in proven;
    }
  }

  lemma WithMore(proven: set<Expr>, done: set<Symbol>, known: map<Symbol, seq<Expr>>, s: Symbol)
    requires KnownOk(known, proven)
    ensures With(proven, done + {s}) == With(proven, done) + SetOf(Known(known, s))
  {
    forall x | x in With(proven, done + {s}) ensures x in With(proven, done) + SetOf(Known(known, s)) {
      if s !in Symbols(x) { assert Symbols(x) * (done + {s}) == Symbols(x) * done; }
    }
    forall x | x in With(proven, done) + SetOf(Known(known, s)) ensures x in With(proven, done + {s}) {
      if x in SetOf(Known(known, s)) { assert s in Symbols(x) * (done + {s}); } else {
        var u :| u in Symbols(x) * done;
        assert u in Symbols(x) * (done + {s});
      }
    }
  }

  lemma KnownBool(known: map<Symbol, seq<Expr>>, proven: seq<Expr>, s: Symbol)
    requires KnownOk(known, SetOf(proven)) && AllBool(proven)
    ensures AllBool(Known(known, s))
  {
    var xs := Known(known, s);
    forall i | 0 <= i < |xs| ensures IsBool(xs[i]) { assert xs[i] in SetOf(proven); }
  }

  lemma UnionHolds(a: set<Expr>, b: set<Expr>, env: Env)
    requires AllBools(a) && AllBools(b)
    ensures AllBools(a + b) && (AllHold(a + b, env) <==> AllHold(a, env) && AllHold(b, env))
  {
    if AllHold(a + b, env) {
      forall x | x in a ensures Holds(x, env) { assert x in a + b; }
      forall x | x in b ensures Holds(x, env) { assert x in a + b; }
    }
  }

  lemma StandsMore(before: seq<Expr>, inserted: set<Expr>, xs: seq<Expr>, after: seq<Expr>)
    requires Stands(before, inserted) && AllBool(xs) && AllBool(after)
    requires forall env: Env :: Conj(after, env) <==> Conj(before, env) && Conj(xs, env)
    ensures Stands(after, inserted + SetOf(xs))
  {
    ConjIsAllHold(xs, s => 0);
    forall env: Env ensures Conj(after, env) <==> AllHold(inserted + SetOf(xs), env) {
      ConjIsAllHold(xs, env);
      assert Conj(before, env) <==> AllHold(inserted, env);
      UnionHolds(inserted, SetOf(xs), env);
    }
  }

  lemma PartsBoolean(xs: seq<Expr>, ys: seq<Expr>, zs: seq<Expr>)
    requires AllBool(xs) && xs == ys + zs
    ensures AllBool(ys) && AllBool(zs)
  {
    forall i | 0 <= i < |ys| ensures IsBool(ys[i]) { assert xs[i] == ys[i]; }
    forall i | 0 <= i < |zs| ensures IsBool(zs[i]) { assert xs[|ys| + i] == zs[i]; }
  }
}
