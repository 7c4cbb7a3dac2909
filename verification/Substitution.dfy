/**
 Equality substitution (src/IR/Transforms/simplify.cpp): every assertion `symbol == constant` is used
 to replace the symbol in all other assertions, until nothing changes.
 */
module Substitution {
  import opened Bits
  import opened Exprs
  import opened Simplifier
  import opened SimplifierSound
  import opened Builder
  import opened SparseVectors
  import opened AssertionLists

  // ----- rebuilding one expression -----

  /** A constant of the symbol's type. */
  predicate Fits(s: Symbol, v: Expr) {
    v.ConstInt? && WellTyped(v) && Width(v) == s.width
  }

  function Visit(e: Expr, s: Symbol, v: Expr): Expr {
    if e == Sym(s) then v else e
  }

  /** `rebuild`: bottom up, folding only nodes one of whose operands has changed. */
  function Rebuild(e: Expr, s: Symbol, v: Expr): (r: Expr)
    requires WellTyped(e) && Fits(s, v)
    ensures WellTyped(r) && Width(r) == Width(e)
    decreases e
  {
    var cs := Children(e);
    var ops := seq(|cs|, i requires 0 <= i < |cs| => Rebuild(cs[i], s, v));
    Visit(if ops == cs then e else Refold(e, ops), s, v)
  }

  function RebuildAll(es: seq<Expr>, s: Symbol, v: Expr): (rs: seq<Expr>)
    requires Fits(s, v) && forall i :: 0 <= i < |es| ==> WellTyped(es[i])
    ensures |rs| == |es| && forall i :: 0 <= i < |es| ==> rs[i] == Rebuild(es[i], s, v)
  {
    seq(|es|, i requires 0 <= i < |es| => Rebuild(es[i], s, v))
  }

  /** The node of e around operands ops, unfolded. */
  function Raw(e: Expr, ops: seq<Expr>): (r: Expr)
    requires |ops| == |Children(e)|
    ensures Children(r) == ops
  {
    match e
    case ConstInt(_, _) => e
    case Sym(_) => e
    case Bin(op, _, _) => Bin(op, ops[0], ops[1])
    case Not(_) => Not(ops[0])
    case Trunc(w, _) => Trunc(w, ops[0])
    case ZExt(w, _) => ZExt(w, ops[0])
    case SExt(w, _) => SExt(w, ops[0])
    case ICmp(c, _, _) => ICmp(c, ops[0], ops[1])
    case Select(_, _, _) => Select(ops[0], ops[1], ops[2])
  }

  ghost predicate Typed(e: Expr, ops: seq<Expr>) {
    && WellTyped(e) && |ops| == |Children(e)|
    && forall i :: 0 <= i < |ops| ==> WellTyped(ops[i]) && Width(ops[i]) == Width(Children(e)[i])
  }

  lemma {:induction false} RawTyped(e: Expr, ops: seq<Expr>)
    requires Typed(e, ops)
    ensures WellTyped(Raw(e, ops)) && SameShape(e, Raw(e, ops))
  {
    var cs := Children(e);
    match e
    case ConstInt(_, _) =>
    case Sym(_) =>
    case Bin(_, l, r) => assert cs[0] == l && cs[1] == r;
    case Not(a) => assert cs[0] == a;
    case Trunc(_, a) => assert cs[0] == a;
    case ZExt(_, a) => assert cs[0] == a;
    case SExt(_, a) => assert cs[0] == a;
    case ICmp(_, l, r) => assert cs[0] == l && cs[1] == r;
    case Select(c, t, f) => assert cs[0] == c && cs[1] == t && cs[2] == f;
  }

  lemma {:induction false} RawValue(e: Expr, ops: seq<Expr>, env: Env)
    requires Typed(e, ops) && WellTyped(Raw(e, ops))
    requires forall i :: 0 <= i < |ops| ==> Eval(ops[i], env) == Eval(Children(e)[i], env)
    ensures Eval(Raw(e, ops), env) == Eval(e, env)
  {
    var cs := Children(e);
    match e
    case ConstInt(_, _) =>
    case Sym(_) =>
    case Bin(_, l, r) => assert cs[0] == l && cs[1] == r;
    case Not(a) => assert cs[0] == a;
    case Trunc(_, a) => assert cs[0] == a;
    case ZExt(_, a) => assert cs[0] == a;
    case SExt(_, a) => assert cs[0] == a;
    case ICmp(_, l, r) => assert cs[0] == l && cs[1] == r;
    case Select(c, t, f) => assert cs[0] == c && cs[1] == t && cs[2] == f;
  }

  lemma {:induction false} RawSymbols(e: Expr, ops: seq<Expr>)
    requires Typed(e, ops) && ops != Children(e)
    requires forall i :: 0 <= i < |ops| ==>
      SymCount(ops[i]) <= SymCount(Children(e)[i]) && (ops[i] != Children(e)[i] ==> SymCount(ops[i]) < SymCount(Children(e)[i]))
    ensures SymCount(Raw(e, ops)) < SymCount(e)
  {
    var cs := Children(e);
    assert exists i :: 0 <= i < |ops| && ops[i] != cs[i];
    match e
    case ConstInt(_, _) =>
    case Sym(_) =>
    case Bin(_, l, r) => assert cs[0] == l && cs[1] == r;
    case Not(a) => assert cs[0] == a;
    case Trunc(_, a) => assert cs[0] == a;
    case ZExt(_, a) => assert cs[0] == a;
    case SExt(_, a) => assert cs[0] == a;
    case ICmp(_, l, r) => assert cs[0] == l && cs[1] == r;
    case Select(c, t, f) => assert cs[0] == c && cs[1] == t && cs[2] == f;
  }

  lemma RebuildStep(e: Expr, s: Symbol, v: Expr)
    requires WellTyped(e) && Fits(s, v)
    ensures var ops := RebuildAll(Children(e), s, v);
      Typed(e, ops) && Rebuild(e, s, v) == Visit(if ops == Children(e) then e else Refold(e, ops), s, v)
  {
    var cs := Children(e);
    assert RebuildAll(cs, s, v) == seq(|cs|, i requires 0 <= i < |cs| => Rebuild(cs[i], s, v));
  }

  /** Where the symbol has the constant's value, rebuilding keeps the value. */
  lemma {:induction false} RebuildValue(e: Expr, s: Symbol, v: Expr, env: Env)
    requires WellTyped(e) && Fits(s, v) && s.width >= 1 && Eval(Sym(s), env) == v.value
    ensures Eval(Rebuild(e, s, v), env) == Eval(e, env)
    decreases e
  {
    var cs := Children(e);
    var ops := RebuildAll(cs, s, v);
    RebuildStep(e, s, v);
    forall i | 0 <= i < |cs| ensures Eval(ops[i], env) == Eval(cs[i], env) { RebuildValue(cs[i], s, v, env); }
    RawTyped(e, ops);
    RawValue(e, ops, env);
    RefoldSound(e, Raw(e, ops), env);
  }

  /** A rebuilt expression that differs has lost a symbol occurrence. */
  lemma {:induction false} RebuildSymbols(e: Expr, s: Symbol, v: Expr)
    requires WellTyped(e) && Fits(s, v)
    ensures SymCount(Rebuild(e, s, v)) <= SymCount(e)
    ensures Rebuild(e, s, v) != e ==> SymCount(Rebuild(e, s, v)) < SymCount(e)
    decreases e
  {
    var cs := Children(e);
    var ops := RebuildAll(cs, s, v);
    RebuildStep(e, s, v);
    if ops != cs {
      forall i | 0 <= i < |cs|
        ensures SymCount(ops[i]) <= SymCount(cs[i]) && (ops[i] != cs[i] ==> SymCount(ops[i]) < SymCount(cs[i]))
      { RebuildSymbols(cs[i], s, v); }
      RawTyped(e, ops);
      RawSymbols(e, ops);
      RefoldSound(e, Raw(e, ops), s => 0);
    }
  }

  // ----- the symbol is gone -----

  lemma {:induction false} AndSymbols(l: Expr, r: Expr, s: Symbol)
    requires Operands(l, r) && s !in Symbols(l) && s !in Symbols(r)
    ensures s !in Symbols(MkAnd(l, r))
    decreases Size(l) + Size(r)
  {
    if IsInt(l, 0) || IsInt(r, 0) || IsOnes(l) || IsOnes(r) || (l.ConstInt? && r.ConstInt?) {
    } else if l.ConstInt? {
      AndConstSymbols(r, l, s);
    } else if r.ConstInt? {
      AndConstSymbols(l, r, s);
    }
  }

  /** The re-entrant cases: a constant mask meets a shift or another mask. */
  lemma {:induction false} AndConstSymbols(x: Expr, m: Expr, s: Symbol)
    requires Operands(x, m) && s !in Symbols(x) && m.ConstInt? && !x.ConstInt?
    ensures x.Bin? ==> s !in Symbols(x.lhs) && s !in Symbols(x.rhs)
    ensures IsOpConst(x, LShrOp) ==> s !in Symbols(MkLShr(MkAnd(x.lhs, MkShl(m, x.rhs)), x.rhs))
    ensures IsConstOp(x, And) ==> s !in Symbols(MkAnd(x.rhs, MkAnd(m, x.lhs)))
    ensures IsOpConst(x, And) ==> s !in Symbols(MkAnd(x.lhs, MkAnd(m, x.rhs)))
    decreases Size(x) + Size(m), 0
  {
    if IsOpConst(x, LShrOp) {
      AndSymbols(x.lhs, MkShl(m, x.rhs), s);
    }
    if IsConstOp(x, And) {
      AndSymbols(x.rhs, MkAnd(m, x.lhs), s);
    }
    if IsOpConst(x, And) {
      AndSymbols(x.lhs, MkAnd(m, x.rhs), s);
    }
  }

  lemma {:induction false} BinSymbols(op: BinOp, l: Expr, r: Expr, s: Symbol)
    requires Operands(l, r) && s !in Symbols(l) && s !in Symbols(r)
    ensures s !in Symbols(MkBin(op, l, r))
  {
    match op
    case And => AndSymbols(l, r, s);
    case Or => OrSymbols(l, r, s);
    case ShlOp => ShlSymbols(l, r, s);
    case Add =>
    case Sub =>
    case Mul =>
    case URem =>
    case _ => ShiftSymbols(op, l, r, s);
  }

  lemma {:induction false} ShiftSymbols(op: BinOp, l: Expr, r: Expr, s: Symbol)
    requires Operands(l, r) && s !in Symbols(l) && s !in Symbols(r) && (op.Xor? || op.LShrOp? || op.AShrOp?)
    ensures s !in Symbols(MkBin(op, l, r))
  {}

  lemma {:induction false} OrSymbols(l: Expr, r: Expr, s: Symbol)
    requires Operands(l, r) && s !in Symbols(l) && s !in Symbols(r)
    ensures s !in Symbols(MkOr(l, r))
  {
    if IsOpConst(l, And) && IsOpConst(r, And) && l.lhs == r.lhs { AndSymbols(l.lhs, MkOr(l.rhs, r.rhs), s); }
  }

  lemma {:induction false} ShlSymbols(l: Expr, r: Expr, s: Symbol)
    requires Operands(l, r) && s !in Symbols(l) && s !in Symbols(r)
    ensures s !in Symbols(MkShl(l, r))
  {
    if IsOpConst(l, LShrOp) && r.ConstInt? && l.rhs.value == r.value < Width(l) {
      AndSymbols(l.lhs, ConstInt(Width(l), MaskFrom(Width(l), r.value)), s);
    }
  }

  lemma {:induction false} RefoldSymbols(e: Expr, ops: seq<Expr>, s: Symbol)
    requires Typed(e, ops) && e != Sym(s) && forall i :: 0 <= i < |ops| ==> s !in Symbols(ops[i])
    ensures s !in Symbols(Refold(e, ops))
  {
    match e
    case Bin(op, _, _) => BinSymbols(op, ops[0], ops[1], s);
    case ZExt(w, _) =>
      var a := ops[0];
      if a.Trunc? && w == Width(a.arg) { AndSymbols(a.arg, ConstInt(w, LowMask(w, a.to)), s); }
    case _ =>
  }

  /** After rebuilding, the replaced symbol no longer occurs. */
  lemma {:induction false} RebuildRemoves(e: Expr, s: Symbol, v: Expr)
    requires WellTyped(e) && Fits(s, v)
    ensures s !in Symbols(Rebuild(e, s, v))
    decreases e
  {
    var cs := Children(e);
    var ops := RebuildAll(cs, s, v);
    RebuildStep(e, s, v);
    forall i | 0 <= i < |cs| ensures s !in Symbols(ops[i]) { RebuildRemoves(cs[i], s, v); }
    if e != Sym(s) {
      if ops == cs { ChildSymbols(e, s); } else { RefoldSymbols(e, ops, s); }
    }
  }

  /** An expression without the symbol is left as it is. */
  lemma {:induction false} RebuildLeaves(e: Expr, s: Symbol, v: Expr)
    requires WellTyped(e) && Fits(s, v) && s !in Symbols(e)
    ensures Rebuild(e, s, v) == e
    decreases e
  {
    var cs := Children(e);
    var ops := RebuildAll(cs, s, v);
    RebuildStep(e, s, v);
    forall i | 0 <= i < |cs| ensures ops[i] == cs[i] {
      assert Symbols(cs[i]) <= Symbols(e);
      RebuildLeaves(cs[i], s, v);
    }
    assert ops == cs;
  }

  lemma {:induction false} ChildSymbols(e: Expr, s: Symbol)
    requires e != Sym(s) && forall i :: 0 <= i < |Children(e)| ==> s !in Symbols(Children(e)[i])
    ensures s !in Symbols(e)
  {
    var cs := Children(e);
    match e
    case ConstInt(_, _) =>
    case Sym(_) =>
    case Bin(_, l, r) => assert cs[0] == l && cs[1] == r;
    case Not(a) => assert cs[0] == a;
    case Trunc(_, a) => assert cs[0] == a;
    case ZExt(_, a) => assert cs[0] == a;
    case SExt(_, a) => assert cs[0] == a;
    case ICmp(_, l, r) => assert cs[0] == l && cs[1] == r;
    case Select(c, t, f) => assert cs[0] == c && cs[1] == t && cs[2] == f;
  }

  // ----- equalities -----

  /** `is_equality_expr`: a symbol compared with a constant, in either order. */
  predicate IsEquality(e: Expr) {
    e.ICmp? && e.cmp == EQ && ((e.lhs.Sym? && e.rhs.ConstInt?) || (e.lhs.ConstInt? && e.rhs.Sym?))
  }

  function Symb(e: Expr): Symbol
    requires IsEquality(e)
  {
    if e.lhs.Sym? then e.lhs.sym else e.rhs.sym
  }

  function Const(e: Expr): Expr
    requires IsEquality(e)
  {
    if e.lhs.Sym? then e.rhs else e.lhs
  }

  lemma {:induction false} EqualityMeans(e: Expr, env: Env)
    requires IsBool(e) && IsEquality(e)
    ensures Fits(Symb(e), Const(e)) && Symb(e).width >= 1
    ensures Holds(e, env) <==> Eval(Sym(Symb(e)), env) == Const(e).value
  {
    assert WellTyped(e.lhs) && WellTyped(e.rhs) && Width(e.lhs) == Width(e.rhs);
    assert Eval(e, env) == ToNat(Eval(e.lhs, env) == Eval(e.rhs, env));
    assert Eval(Const(e), env) == Const(e).value;
  }

  /** A comparison for equality of any symbol with any constant is matched, in either order. */
  lemma EqualityMatched(s: Symbol, w: nat, v: nat)
    ensures forall e :: e in {ICmp(EQ, Sym(s), ConstInt(w, v)), ICmp(EQ, ConstInt(w, v), Sym(s))} ==>
      IsEquality(e) && Symb(e) == s && Const(e) == ConstInt(w, v)
  {}

  /** Replacing one assertion under an equality kept elsewhere in the list keeps the models. */
  lemma SubstituteModels(a: seq<Expr>, e: Expr, b: seq<Expr>, out: seq<Expr>, eq: Expr)
    requires AllBool(a) && IsBool(e) && AllBool(b) && AllBool(out) && eq in a + b && IsEquality(eq) && IsBool(eq)
    requires Fits(Symb(eq), Const(eq))
    ensures AllBool(a + [e] + b) && AllBool(a + b) && AllBool(out + [Rebuild(e, Symb(eq), Const(eq))])
    ensures SameModels(a + [e] + b, out, a + b, out + [Rebuild(e, Symb(eq), Const(eq))])
  {
    var e' := Rebuild(e, Symb(eq), Const(eq));
    AllBoolCat(a, [e]);
    AllBoolCat(a + [e], b);
    AllBoolCat(a, b);
    AllBoolCat(out, [e']);
    forall env: Env ensures SameAt(a + [e] + b, out, a + b, out + [e'], env) {
      SubstituteOne(a, e, b, out, eq, e', env);
    }
  }

  lemma {:induction false} SubstituteOne(a: seq<Expr>, e: Expr, b: seq<Expr>, out: seq<Expr>, eq: Expr, e': Expr, env: Env)
    requires AllBool(a) && IsBool(e) && AllBool(b) && AllBool(out) && eq in a + b && IsEquality(eq) && IsBool(eq)
    requires Fits(Symb(eq), Const(eq)) && e' == Rebuild(e, Symb(eq), Const(eq))
    ensures AllBool(a + [e] + b) && AllBool(a + b) && AllBool(out + [e'])
    ensures Conj(a + [e] + b, env) && Conj(out, env) <==> Conj(a + b, env) && Conj(out + [e'], env)
  {
    ConjOne(e, env); ConjOne(e', env);
    ConjCat(a, [e], env); ConjCat(a + [e], b, env); ConjCat(a, b, env); ConjCat(out, [e'], env);
    EqualityMeans(eq, env);
    if Conj(a + b, env) {
      assert Holds(eq, env) by { var k :| 0 <= k < |a + b| && (a + b)[k] == eq; }
      RebuildValue(e, Symb(eq), Const(eq), env);
    }
  }

  // ----- the loops -----

  /** Slots only turn into holes. */
  ghost predicate OnlyErased(slots: seq<Slot<Expr>>, slots': seq<Slot<Expr>>) {
    |slots'| == |slots| && forall k :: 0 <= k < |slots| ==> slots'[k] == slots[k] || slots'[k].Hole?
  }

  /**
   Between two states of (list, pending additions): the models are the same, and every addition has
   cost a symbol occurrence.
   */
  ghost predicate Replaced(slots: seq<Slot<Expr>>, out: seq<Expr>, slots': seq<Slot<Expr>>, out': seq<Expr>) {
    var xs, xs' := Live(slots), Live(slots');
    && AllBool(xs) && AllBool(out) && AllBool(xs') && AllBool(out')
    && OnlyErased(slots, slots') && SameModels(xs, out, xs', out')
    && |out| <= |out'| && SymTotal(xs') + SymTotal(out') + |out'| <= SymTotal(xs) + SymTotal(out) + |out|
  }

  lemma ReplacedNone(slots: seq<Slot<Expr>>, out: seq<Expr>)
    requires AllBool(Live(slots)) && AllBool(out)
    ensures Replaced(slots, out, slots, out)
  {}

  lemma ReplacedTrans(a: seq<Slot<Expr>>, p: seq<Expr>, b: seq<Slot<Expr>>, q: seq<Expr>, c: seq<Slot<Expr>>, r: seq<Expr>)
    requires Replaced(a, p, b, q) && Replaced(b, q, c, r)
    ensures Replaced(a, p, c, r)
  {
    SameTrans(Live(a), p, Live(b), q, Live(c), r);
  }

  /** The values around slot `it`, and what is left of them when it is erased. */
  lemma Around(slots: seq<Slot<Expr>>, it: nat, h: int) returns (a: seq<Expr>, b: seq<Expr>)
    requires it < |slots| && slots[it].Full? && AllBool(Live(slots))
    ensures Live(slots) == a + [slots[it].value] + b && Live(slots[it := Hole(h)]) == a + b && AllBool(a) && AllBool(b)
  {
    a, b := Live(slots[..it]), Live(slots[it + 1..]);
    LiveErased(slots, it, h);
    LiveAt(slots, it, slots[it]);
    assert slots[it := slots[it]] == slots;
    PartsOfBool(a, slots[it].value, b);
  }

  lemma FewerSymbols(a: seq<Expr>, e: Expr, b: seq<Expr>, out: seq<Expr>, e': Expr)
    requires SymCount(e') < SymCount(e)
    ensures SymTotal(a + b) + SymTotal(out + [e']) + 1 <= SymTotal(a + [e] + b) + SymTotal(out)
  {
    SymTotalCat(a, b); SymTotalCat(a + [e], b); SymTotalPush(a, e); SymTotalPush(out, e');
  }

  /** The equality in slot `ex` changes the assertion in slot `it`. */
  ghost predicate Changes(slots: seq<Slot<Expr>>, ex: nat, it: nat, e': Expr) {
    && AllBool(Live(slots)) && ex < |slots| && it < |slots| && ex != it && slots[ex].Full? && slots[it].Full?
    && var eq, e := slots[ex].value, slots[it].value;
    && IsEquality(eq) && IsBool(eq) && IsBool(e) && Fits(Symb(eq), Const(eq)) && e' == Rebuild(e, Symb(eq), Const(eq)) && e' != e
  }

  /** Erasing slot `it` and pushing its rebuilt assertion is one such step. */
  lemma ReplacedOne(slots: seq<Slot<Expr>>, out: seq<Expr>, ex: nat, it: nat, h: int, e': Expr)
    requires Changes(slots, ex, it, e') && AllBool(out)
    ensures Replaced(slots, out, slots[it := Hole(h)], out + [e'])
  {
    var eq, e, slots' := slots[ex].value, slots[it].value, slots[it := Hole(h)];
    var a, b := Around(slots, it, h);
    assert slots'[ex] == Full(eq);
    LiveMembers(slots', eq);
    SubstituteModels(a, e, b, out, eq);
    RebuildSymbols(e, Symb(eq), Const(eq));
    FewerSymbols(a, e, b, out, e');
  }

  lemma PartsOfBool(a: seq<Expr>, e: Expr, b: seq<Expr>)
    requires AllBool(a + [e] + b)
    ensures AllBool(a) && AllBool(b)
  {
    var xs := a + [e] + b;
    forall i | 0 <= i < |a| ensures IsBool(a[i]) { assert xs[i] == a[i]; }
    forall i | 0 <= i < |b| ensures IsBool(b[i]) { assert xs[|a| + 1 + i] == b[i]; }
  }

  lemma LiveBool(slots: seq<Slot<Expr>>, i: nat)
    requires AllBool(Live(slots)) && i < |slots| && slots[i].Full?
    ensures IsBool(slots[i].value)
  {
    LiveMembers(slots, slots[i].value);
  }

  /** The symbol is gone from the slots before `to`, other than `ex`. */
  ghost predicate GoneBefore(slots: seq<Slot<Expr>>, s: Symbol, ex: nat, to: nat) {
    forall k :: 0 <= k < to && k < |slots| && k != ex && slots[k].Full? ==> s !in Symbols(slots[k].value)
  }

  /** An equality stored in slot `ex` has been used on the slots before `to`. */
  ghost predicate UsedAt(slots: seq<Slot<Expr>>, ex: nat, to: nat) {
    ex < |slots| && slots[ex].Full? && IsEquality(slots[ex].value) ==> GoneBefore(slots, Symb(slots[ex].value), ex, to)
  }

  /** All equalities stored in slots from `lo` up to `hi` have been used on the slots before `to`. */
  ghost predicate Used(slots: seq<Slot<Expr>>, lo: nat, hi: nat, to: nat) {
    forall ex {:trigger UsedAt(slots, ex, to)} :: lo <= ex < hi ==> UsedAt(slots, ex, to)
  }

  /**
   What `simplify` is for: an unproven equality of the original n slots has been used on all of them,
   and an equality that came up later on everything stored before it.
   */
  ghost predicate AllUsed(slots: seq<Slot<Expr>>, mark: nat, n: nat) {
    forall ex {:trigger UsedOnEarlier(slots, ex, n)} :: mark <= ex < |slots| ==> UsedOnEarlier(slots, ex, n)
  }

  ghost predicate UsedOnEarlier(slots: seq<Slot<Expr>>, ex: nat, n: nat) {
    UsedAt(slots, ex, if ex < n then n else ex)
  }

  /** Some equality stored from `from` on has a symbol that another stored assertion mentions. */
  ghost predicate Applicable(slots: seq<Slot<Expr>>, from: nat) {
    !Used(slots, from, |slots|, |slots|)
  }

  lemma UsedErased(slots: seq<Slot<Expr>>, slots': seq<Slot<Expr>>, lo: nat, hi: nat, to: nat)
    requires Used(slots, lo, hi, to) && OnlyErased(slots, slots')
    ensures Used(slots', lo, hi, to)
  {
    forall ex | lo <= ex < hi ensures UsedAt(slots', ex, to) { assert UsedAt(slots, ex, to); }
  }

  /** The symbol is in none of the additions from `from` on. */
  ghost predicate GoneFrom(out: seq<Expr>, s: Symbol, from: nat) {
    forall i :: from <= i < |out| ==> s !in Symbols(out[i])
  }

  /**
   `replace_all` for the equality in slot `ex`: the equality stays, and its symbol is left neither in
   any other stored assertion nor in what was added.
   */
  method ReplaceAll(ex: nat, assertions: AssertionList, output: seq<Expr>) returns (output': seq<Expr>)
    requires assertions.Valid() && AllBool(output) && ex < |assertions.list.elements|
    requires assertions.list.elements[ex].Full? && IsEquality(assertions.list.elements[ex].value)
    modifies assertions`lookup, assertions.list
    ensures assertions.Valid() && assertions.mark == old(assertions.mark)
    ensures Replaced(old(assertions.list.elements), output, assertions.list.elements, output') && output <= output'
    ensures assertions.list.elements[ex] == old(assertions.list.elements[ex])
    ensures var s := Symb(old(assertions.list.elements[ex]).value);
      GoneBefore(assertions.list.elements, s, ex, |assertions.list.elements|) && GoneFrom(output', s, |output|)
    ensures output' == output ==> assertions.list.elements == old(assertions.list.elements)
    ensures old(UsedAt(assertions.list.elements, ex, |assertions.list.elements|)) ==> output' == output
  {
    output' := output;
    ghost var slots0 := assertions.list.elements;
    var eq := assertions.list.elements[ex].value;
    ReplacedNone(slots0, output);
    var it := assertions.list.FirstFrom(0);
    while it < |assertions.list.elements|
      invariant assertions.Valid() && it <= |assertions.list.elements|
      invariant it < |assertions.list.elements| ==> assertions.list.elements[it].Full?
      invariant Replacing(slots0, output, assertions.list.elements, output', ex, eq, it)
      decreases |assertions.list.elements| - it
    {
      output', it := ReplaceNext(ex, it, eq, assertions, output', slots0, output);
    }
  }

  /** `replace_all` has reached slot `it`. */
  ghost predicate Replacing(slots0: seq<Slot<Expr>>, output: seq<Expr>, slots: seq<Slot<Expr>>, out: seq<Expr>, ex: nat, eq: Expr, it: nat) {
    && IsEquality(eq) && ex < |slots| && slots[ex] == Full(eq)
    && Replaced(slots0, output, slots, out) && output <= out
    && GoneBefore(slots, Symb(eq), ex, it) && GoneFrom(out, Symb(eq), |output|)
    && (out == output ==> slots == slots0) && (UsedAt(slots0, ex, |slots0|) ==> out == output)
  }

  /** One round of the loop, and the step to the next slot. */
  method ReplaceNext(ex: nat, it: nat, eq: Expr, assertions: AssertionList, out: seq<Expr>, ghost slots0: seq<Slot<Expr>>,
                     ghost output: seq<Expr>) returns (out': seq<Expr>, next: nat)
    requires assertions.Valid() && it < |assertions.list.elements| && assertions.list.elements[it].Full?
    requires Replacing(slots0, output, assertions.list.elements, out, ex, eq, it)
    modifies assertions`lookup, assertions.list
    ensures assertions.Valid() && |assertions.list.elements| == |old(assertions.list.elements)|
    ensures it < next <= |assertions.list.elements| && (next < |assertions.list.elements| ==> assertions.list.elements[next].Full?)
    ensures Replacing(slots0, output, assertions.list.elements, out', ex, eq, next)
  {
    ghost var slots := assertions.list.elements;
    out' := out;
    if it != ex {
      out' := ReplaceAt(ex, it, eq, assertions, out, slots0, output);
      GoneJoin(output, out, out', Symb(eq));
    }
    next := assertions.list.Next(it);
    GoneAdvance(slots, assertions.list.elements, Symb(eq), ex, it, next);
  }

  lemma GoneJoin(a: seq<Expr>, b: seq<Expr>, c: seq<Expr>, s: Symbol)
    requires a <= b <= c && GoneFrom(b, s, |a|) && GoneFrom(c, s, |b|)
    ensures a <= c && GoneFrom(c, s, |a|)
  {
    assert forall i :: 0 <= i < |b| ==> c[i] == b[i];
  }

  lemma GoneAdvance(slots: seq<Slot<Expr>>, slots': seq<Slot<Expr>>, s: Symbol, ex: nat, it: nat, next: nat)
    requires GoneBefore(slots, s, ex, it) && it < next <= |slots| == |slots'|
    requires forall k :: 0 <= k < |slots| && k != it ==> slots'[k] == slots[k]
    requires it != ex && slots'[it].Full? ==> s !in Symbols(slots'[it].value)
    requires forall k :: it < k < next ==> slots'[k].Hole?
    ensures GoneBefore(slots', s, ex, next)
  {}

  /** One round of the loop of `replace_all`. */
  method ReplaceAt(ex: nat, it: nat, eq: Expr, assertions: AssertionList, output: seq<Expr>,
                   ghost slots0: seq<Slot<Expr>>, ghost output0: seq<Expr>) returns (output': seq<Expr>)
    requires assertions.Valid() && ex < |assertions.list.elements| && it < |assertions.list.elements| && it != ex
    requires assertions.list.elements[ex] == Full(eq) && IsEquality(eq) && assertions.list.elements[it].Full?
    requires Replaced(slots0, output0, assertions.list.elements, output)
    modifies assertions`lookup, assertions.list
    ensures assertions.Valid() && |assertions.list.elements| == |old(assertions.list.elements)|
    ensures forall k :: 0 <= k < |assertions.list.elements| && k != it ==> assertions.list.elements[k] == old(assertions.list.elements)[k]
    ensures Replaced(slots0, output0, assertions.list.elements, output') && output <= output'
    ensures GoneFrom(output', Symb(eq), |output|)
    ensures assertions.list.elements[it].Full? ==> Symb(eq) !in Symbols(assertions.list.elements[it].value)
    ensures output' == output ==> assertions.list.elements == old(assertions.list.elements)
    ensures Symb(eq) !in Symbols(old(assertions.list.elements)[it].value) ==> output' == output
  {
    ghost var slots := assertions.list.elements;
    LiveBool(slots, ex);
    LiveBool(slots, it);
    EqualityMeans(eq, s => 0);
    var e := assertions.list.elements[it].value;
    var changed := Rebuild(e, Symb(eq), Const(eq));
    RebuildRemoves(e, Symb(eq), Const(eq));
    if Symb(eq) !in Symbols(e) { RebuildLeaves(e, Symb(eq), Const(eq)); }
    if changed == e { return output; }
    assert Changes(slots, ex, it, changed);
    output' := Move(ex, it, changed, assertions, output);
    ReplacedTrans(slots0, output0, slots, output, assertions.list.elements, output');
  }

  /** `assertions.erase(it); output.push_back(changed)`. */
  method Move(ghost ex: nat, it: nat, changed: Expr, assertions: AssertionList, output: seq<Expr>) returns (output': seq<Expr>)
    requires assertions.Valid() && Changes(assertions.list.elements, ex, it, changed) && AllBool(output)
    modifies assertions`lookup, assertions.list
    ensures assertions.Valid() && |assertions.list.elements| == |old(assertions.list.elements)|
    ensures forall k :: 0 <= k < |assertions.list.elements| && k != it ==> assertions.list.elements[k] == old(assertions.list.elements)[k]
    ensures Replaced(old(assertions.list.elements), output, assertions.list.elements, output')
    ensures output' == output + [changed] && assertions.list.elements[it].Hole?
  {
    ghost var slots, h := assertions.list.elements, assertions.list.head;
    assertions.Erase(it);
    assert assertions.list.elements == slots[it := Hole(h)];
    output' := output + [changed];
    ReplacedOne(slots, output, ex, it, h, changed);
  }

  /** The equalities stored from slot `from` up to slot `it` have been used. */
  ghost predicate Scanned(slots0: seq<Slot<Expr>>, output: seq<Expr>, slots: seq<Slot<Expr>>, output': seq<Expr>, from: nat, it: nat) {
    && Replaced(slots0, output, slots, output') && output <= output' && Used(slots, from, it, |slots|)
    && (output' == output ==> slots == slots0) && (!Applicable(slots0, from) ==> output' == output)
  }

  /** What one use of an equality does, as `ReplaceAll` states it. */
  ghost predicate UsedOnce(slots: seq<Slot<Expr>>, out: seq<Expr>, slots': seq<Slot<Expr>>, out': seq<Expr>, ex: nat) {
    && Replaced(slots, out, slots', out') && out <= out' && UsedAt(slots', ex, |slots'|)
    && (out' == out ==> slots' == slots) && (UsedAt(slots, ex, |slots|) ==> out' == out)
  }

  lemma ScannedStep(slots0: seq<Slot<Expr>>, output: seq<Expr>, slots: seq<Slot<Expr>>, out: seq<Expr>, slots': seq<Slot<Expr>>,
                    out': seq<Expr>, from: nat, it: nat, next: nat)
    requires Scanned(slots0, output, slots, out, from, it) && UsedOnce(slots, out, slots', out', it)
    requires from <= it < next <= |slots| && forall k :: it < k < next ==> slots'[k].Hole?
    ensures Scanned(slots0, output, slots', out', from, next)
  {
    ReplacedTrans(slots0, output, slots, out, slots', out');
    UsedErased(slots, slots', from, it, |slots|);
    forall ex | from <= ex < next ensures UsedAt(slots', ex, |slots'|) {}
    if !Applicable(slots0, from) { assert UsedAt(slots0, it, |slots0|); }
  }

  /** Use the assertion in slot `it`, if it is an equality. */
  method UseAt(it: nat, assertions: AssertionList, output: seq<Expr>) returns (output': seq<Expr>)
    requires assertions.Valid() && AllBool(output) && it < |assertions.list.elements| && assertions.list.elements[it].Full?
    modifies assertions`lookup, assertions.list
    ensures assertions.Valid() && assertions.mark == old(assertions.mark)
    ensures UsedOnce(old(assertions.list.elements), output, assertions.list.elements, output', it)
  {
    output' := output;
    ReplacedNone(assertions.list.elements, output);
    if IsEquality(assertions.list.elements[it].value) {
      output' := ReplaceAll(it, assertions, output);
    }
  }

  /** Use every equality stored from slot `from` on. */
  method Scan(from: nat, assertions: AssertionList, output: seq<Expr>) returns (output': seq<Expr>)
    requires assertions.Valid() && AllBool(output) && from <= |assertions.list.elements|
    modifies assertions`lookup, assertions.list
    ensures assertions.Valid() && assertions.mark == old(assertions.mark)
    ensures Scanned(old(assertions.list.elements), output, assertions.list.elements, output', from, |assertions.list.elements|)
  {
    output' := output;
    ghost var slots0 := assertions.list.elements;
    ReplacedNone(slots0, output);
    var it: nat := assertions.list.FirstFrom(from);
    assert forall ex :: from <= ex < it ==> UsedAt(slots0, ex, |slots0|);
    while it < |assertions.list.elements|
      invariant assertions.Valid() && assertions.mark == old(assertions.mark) && from <= it <= |assertions.list.elements|
      invariant it < |assertions.list.elements| ==> assertions.list.elements[it].Full?
      invariant Scanned(slots0, output, assertions.list.elements, output', from, it)
      decreases |assertions.list.elements| - it
    {
      ghost var slots, out := assertions.list.elements, output';
      output' := UseAt(it, assertions, output');
      var next := assertions.list.Next(it);
      ScannedStep(slots0, output, slots, out, assertions.list.elements, output', from, it, next);
      it := next;
    }
  }

  /** A scan finds something to do exactly when an equality is applicable. */
  lemma ScannedAll(slots0: seq<Slot<Expr>>, output: seq<Expr>, slots: seq<Slot<Expr>>, output': seq<Expr>, from: nat)
    requires Scanned(slots0, output, slots, output', from, |slots|)
    ensures output' == output <==> !Applicable(slots0, from)
  {}

  /**
   `simplify`: it terminates, and the list has exactly the models it had.  Every unproven equality has
   been used; if one could be, symbol occurrences are gone, and if none could be, nothing has changed.
   */
  method Simplify(assertions: AssertionList)
    requires assertions.Valid()
    modifies assertions`lookup, assertions.list
    ensures assertions.Valid() && assertions.mark == old(assertions.mark)
    ensures forall env: Env :: Conj(assertions.Contents(), env) <==> Conj(old(assertions.Contents()), env)
    ensures AllUsed(assertions.list.elements, assertions.mark, |old(assertions.list.elements)|)
    ensures if old(Applicable(assertions.list.elements, assertions.mark))
      then SymTotal(assertions.Contents()) < old(SymTotal(assertions.Contents()))
      else assertions.list.elements == old(assertions.list.elements)
  {
    ghost var slots0, n := assertions.list.elements, |assertions.list.elements|;
    var added := Scan(assertions.mark, assertions, []);
    ScannedAll(slots0, [], assertions.list.elements, added, assertions.mark);
    ghost var changed := added != [];
    AllUsedFirst(assertions.list.elements, assertions.mark);
    var again := true;
    while again
      invariant assertions.Valid() && AllBool(added) && (!again ==> added == []) && assertions.mark == old(assertions.mark)
      invariant n <= |assertions.list.elements| && AllUsed(assertions.list.elements, assertions.mark, n)
      invariant SameModels(Live(slots0), [], Live(assertions.list.elements), added)
      invariant SymTotal(Live(assertions.list.elements)) + SymTotal(added) + (if changed then 1 else 0) <= SymTotal(Live(slots0))
      invariant !changed ==> added == [] && assertions.list.elements == slots0
      decreases SymTotal(Live(assertions.list.elements)) + SymTotal(added), again
    {
      ghost var xs, pending := Live(assertions.list.elements), added;
      added := Round(assertions, added, n);
      SameTrans(Live(slots0), [], xs, pending, Live(assertions.list.elements), added);
      again := added != [];
    }
    forall env: Env ensures Conj(assertions.Contents(), env) <==> Conj(Live(slots0), env) {
      assert SameAt(Live(slots0), [], assertions.Contents(), [], env);
    }
  }

  lemma AllUsedFirst(slots: seq<Slot<Expr>>, mark: nat)
    requires Used(slots, mark, |slots|, |slots|)
    ensures AllUsed(slots, mark, |slots|)
  {
    forall ex | mark <= ex < |slots| ensures UsedOnEarlier(slots, ex, |slots|) { assert UsedAt(slots, ex, |slots|); }
  }

  /** One pass of the do-while loop: insert what was added, then use the equalities among it. */
  method Round(assertions: AssertionList, added: seq<Expr>, ghost n: nat) returns (added': seq<Expr>)
    requires assertions.Valid() && AllBool(added)
    requires n <= |assertions.list.elements| && AllUsed(assertions.list.elements, assertions.mark, n)
    modifies assertions`lookup, assertions.list
    ensures assertions.Valid() && assertions.mark == old(assertions.mark) && AllBool(added')
    ensures |old(assertions.list.elements)| <= |assertions.list.elements| && AllUsed(assertions.list.elements, assertions.mark, n)
    ensures added == [] ==> added' == [] && assertions.list.elements == old(assertions.list.elements)
    ensures SameModels(old(Live(assertions.list.elements)), added, Live(assertions.list.elements), added')
    ensures SymTotal(Live(assertions.list.elements)) + SymTotal(added') + |added'|
         <= SymTotal(old(Live(assertions.list.elements))) + SymTotal(added)
  {
    var index := |assertions.list.elements|;
    ghost var slots0 := assertions.list.elements;
    ghost var xs0 := Live(assertions.list.elements);
    assertions.Insert(added);
    ghost var xs1, slots1 := Live(assertions.list.elements), assertions.list.elements;
    added' := Scan(index, assertions, []);
    ScannedAll(slots1, [], assertions.list.elements, added', index);
    SameTrans(xs0, added, xs1, [], Live(assertions.list.elements), added');
    AllUsedMore(slots0, slots1, assertions.list.elements, assertions.mark, n);
  }

  /** Old equalities stay used, since old slots are at most erased; new ones have just been used on everything. */
  lemma AllUsedMore(slots0: seq<Slot<Expr>>, slots1: seq<Slot<Expr>>, slots2: seq<Slot<Expr>>, mark: nat, n: nat)
    requires AllUsed(slots0, mark, n) && n <= |slots0| && Grown(slots0, slots1) && OnlyErased(slots1, slots2)
    requires Used(slots2, |slots0|, |slots2|, |slots2|)
    ensures AllUsed(slots2, mark, n)
  {
    forall ex | mark <= ex < |slots2| ensures UsedOnEarlier(slots2, ex, n) {
      if ex < |slots0| { assert UsedOnEarlier(slots0, ex, n); }
      else { assert UsedAt(slots2, ex, |slots2|); }
    }
  }
}
