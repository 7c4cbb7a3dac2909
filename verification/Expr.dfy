/**
 Integer expressions (the scalar part of `Operation`): syntax, typing and meaning.

 An expression of integer type iN denotes a nat below Pow2(N) in every environment.  Symbols carry
 their width, so an environment needs no separate typing; comparisons and assertions have width 1.
 */
module Exprs {
  import opened Bits

  datatype Symbol = Symbol(name: string, width: nat)

  /** A model: the solver's assignment of a value to every symbol. */
  type Env = Symbol -> nat

  datatype BinOp = Add | Sub | Mul | URem | And | Or | Xor | ShlOp | LShrOp | AShrOp

  datatype Cmp = EQ | NE | UGT | UGE | ULT | ULE | SGT | SGE | SLT | SLE

  datatype Expr =
    | ConstInt(width: nat, value: nat)
    | Sym(sym: Symbol)
    | Bin(op: BinOp, lhs: Expr, rhs: Expr)
    | Not(arg: Expr)
    | Trunc(to: nat, arg: Expr)
    | ZExt(to: nat, arg: Expr)
    | SExt(to: nat, arg: Expr)
    | ICmp(cmp: Cmp, lhs: Expr, rhs: Expr)
    | Select(cond: Expr, ifTrue: Expr, ifFalse: Expr)

  function Width(e: Expr): nat {
    match e
    case ConstInt(w, _) => w
    case Sym(s) => s.width
    case Bin(_, l, _) => Width(l)
    case Not(a) => Width(a)
    case Trunc(w, _) => w
    case ZExt(w, _) => w
    case SExt(w, _) => w
    case ICmp(_, _, _) => 1
    case Select(_, t, _) => Width(t)
  }

  /** The type assertions made by the `Create` functions. */
  predicate WellTyped(e: Expr) {
    Width(e) >= 1 &&
    match e
    case ConstInt(w, v) => v < Pow2(w)
    case Sym(_) => true
    case Bin(_, l, r) => WellTyped(l) && WellTyped(r) && Width(l) == Width(r)
    case Not(a) => WellTyped(a)
    case Trunc(w, a) => WellTyped(a) && w <= Width(a)
    case ZExt(w, a) => WellTyped(a) && w >= Width(a)
    case SExt(w, a) => WellTyped(a) && w >= Width(a)
    case ICmp(_, l, r) => WellTyped(l) && WellTyped(r) && Width(l) == Width(r)
    case Select(c, t, f) => WellTyped(c) && WellTyped(t) && WellTyped(f) && Width(c) == 1 && Width(t) == Width(f)
  }

  function BinValue(op: BinOp, n: nat, a: nat, b: nat): (r: nat)
    requires n >= 1 && a < Pow2(n) && b < Pow2(n)
    ensures r < Pow2(n)
  {
    match op
    case Add => (a + b) % Pow2(n)
    case Sub => (a - b) % Pow2(n)
    case Mul => (a * b) % Pow2(n)
    case URem => if b == 0 then a else a % b
    case And => AndBound(a, b); BitAnd(a, b)
    case Or => OrBound(n, a, b); BitOr(a, b)
    case Xor => XorBound(n, a, b); BitXor(a, b)
    case ShlOp => Shl(n, a, b)
    case LShrOp => LShrBound(a, b, n); LShr(a, b)
    case AShrOp => AShr(n, a, b)
  }

  predicate CmpHolds(cmp: Cmp, n: nat, a: nat, b: nat)
    requires n >= 1 && a < Pow2(n) && b < Pow2(n)
  {
    match cmp
    case EQ => a == b
    case NE => a != b
    case UGT => a > b
    case UGE => a >= b
    case ULT => a < b
    case ULE => a <= b
    case SGT => Signed(n, a) > Signed(n, b)
    case SGE => Signed(n, a) >= Signed(n, b)
    case SLT => Signed(n, a) < Signed(n, b)
    case SLE => Signed(n, a) <= Signed(n, b)
  }

  /** Sign extension from width m to width n. */
  function SExtValue(m: nat, n: nat, a: nat): (r: nat)
    requires 1 <= m <= n && a < Pow2(m)
    ensures r < Pow2(n)
  {
    Pow2Mono(m, n);
    if a < Pow2(m - 1) then a else a + Pow2(n) - Pow2(m)
  }

  function Eval(e: Expr, env: Env): (r: nat)
    requires WellTyped(e)
    ensures r < Pow2(Width(e))
  {
    match e
    case ConstInt(_, v) => v
    case Sym(s) => env(s) % Pow2(s.width)
    case Bin(op, l, r) => BinValue(op, Width(l), Eval(l, env), Eval(r, env))
    case Not(a) => BitNot(Width(a), Eval(a, env))
    case Trunc(w, a) => Eval(a, env) % Pow2(w)
    case ZExt(w, a) => Pow2Mono(Width(a), w); Eval(a, env)
    case SExt(w, a) => SExtValue(Width(a), w, Eval(a, env))
    case ICmp(c, l, r) => ToNat(CmpHolds(c, Width(l), Eval(l, env), Eval(r, env)))
    case Select(c, t, f) => if Eval(c, env) == 1 then Eval(t, env) else Eval(f, env)
  }

  /** Number of nodes; bounds the re-entrant rebuilding of the simplifier. */
  function Size(e: Expr): (n: nat)
    ensures n >= 1
  {
    match e
    case ConstInt(_, _) => 1
    case Sym(_) => 1
    case Bin(_, l, r) => 1 + Size(l) + Size(r)
    case Not(a) => 1 + Size(a)
    case Trunc(_, a) => 1 + Size(a)
    case ZExt(_, a) => 1 + Size(a)
    case SExt(_, a) => 1 + Size(a)
    case ICmp(_, l, r) => 1 + Size(l) + Size(r)
    case Select(c, t, f) => 1 + Size(c) + Size(t) + Size(f)
  }

  /** Number of symbol occurrences. */
  function SymCount(e: Expr): nat {
    match e
    case ConstInt(_, _) => 0
    case Sym(_) => 1
    case Bin(_, l, r) => SymCount(l) + SymCount(r)
    case Not(a) => SymCount(a)
    case Trunc(_, a) => SymCount(a)
    case ZExt(_, a) => SymCount(a)
    case SExt(_, a) => SymCount(a)
    case ICmp(_, l, r) => SymCount(l) + SymCount(r)
    case Select(c, t, f) => SymCount(c) + SymCount(t) + SymCount(f)
  }

  /** The symbols an expression mentions. */
  function Symbols(e: Expr): set<Symbol> {
    match e
    case ConstInt(_, _) => {}
    case Sym(s) => {s}
    case Bin(_, l, r) => Symbols(l) + Symbols(r)
    case Not(a) => Symbols(a)
    case Trunc(_, a) => Symbols(a)
    case ZExt(_, a) => Symbols(a)
    case SExt(_, a) => Symbols(a)
    case ICmp(_, l, r) => Symbols(l) + Symbols(r)
    case Select(c, t, f) => Symbols(c) + Symbols(t) + Symbols(f)
  }

  /** The value of an expression depends only on the symbols it contains. */
  lemma {:induction false} EvalDependsOnSymbols(e: Expr, env1: Env, env2: Env)
    requires WellTyped(e)
    requires forall s :: s in Symbols(e) ==> env1(s) == env2(s)
    ensures Eval(e, env1) == Eval(e, env2)
  {
    match e
    case ConstInt(_, _) =>
    case Sym(s) => assert s in Symbols(e);
    case Bin(_, l, r) => EvalDependsOnSymbols(l, env1, env2); EvalDependsOnSymbols(r, env1, env2);
    case Not(a) => EvalDependsOnSymbols(a, env1, env2);
    case Trunc(_, a) => EvalDependsOnSymbols(a, env1, env2);
    case ZExt(_, a) => EvalDependsOnSymbols(a, env1, env2);
    case SExt(_, a) => EvalDependsOnSymbols(a, env1, env2);
    case ICmp(_, l, r) => EvalDependsOnSymbols(l, env1, env2); EvalDependsOnSymbols(r, env1, env2);
    case Select(c, t, f) =>
      EvalDependsOnSymbols(c, env1, env2);
      EvalDependsOnSymbols(t, env1, env2);
      EvalDependsOnSymbols(f, env1, env2);
  }
}
