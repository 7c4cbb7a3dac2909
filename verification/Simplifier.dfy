/**
 The constant-folding simplifier that every `Create` function runs
 (src/IR/OperationSimplifier.cpp), integer part.

 `MkX` is `visitX` applied to a freshly built node.  The rewrites re-enter the builders, so the
 functions are mutually recursive; they terminate because every re-entrant call is on fewer nodes.
 */
module Simplifier {
  import opened Bits
  import opened Exprs

  predicate IsInt(e: Expr, v: nat) {
    e.ConstInt? && e.value == v
  }

  predicate IsOnes(e: Expr) {
    e.ConstInt? && e.value == Ones(e.width)
  }

  /** Matches `(op value const)`. */
  predicate IsOpConst(e: Expr, op: BinOp) {
    e.Bin? && e.op == op && e.rhs.ConstInt?
  }

  /** Matches `(op const value)`. */
  predicate IsConstOp(e: Expr, op: BinOp) {
    e.Bin? && e.op == op && e.lhs.ConstInt?
  }

  predicate Operands(l: Expr, r: Expr) {
    WellTyped(l) && WellTyped(r) && Width(l) == Width(r)
  }

  /** Both operands are constants: fold. */
  function Fold(op: BinOp, l: Expr, r: Expr): (e: Expr)
    requires Operands(l, r) && l.ConstInt? && r.ConstInt?
    ensures WellTyped(e) && Width(e) == Width(l)
  {
    ConstInt(l.width, BinValue(op, l.width, l.value, r.value))
  }

  function MkAdd(l: Expr, r: Expr): (e: Expr)
    requires Operands(l, r)
    ensures WellTyped(e) && Width(e) == Width(l)
  {
    if IsInt(l, 0) then r
    else if IsInt(r, 0) then l
    else if l.ConstInt? && r.ConstInt? then Fold(Add, l, r)
    else Bin(Add, l, r)
  }

  function MkSub(l: Expr, r: Expr): (e: Expr)
    requires Operands(l, r)
    ensures WellTyped(e) && Width(e) == Width(l)
  {
    if IsInt(r, 0) then l
    else if l == r then ConstInt(Width(l), 0)
    else if l.ConstInt? && r.ConstInt? then Fold(Sub, l, r)
    else Bin(Sub, l, r)
  }

  function MkMul(l: Expr, r: Expr): (e: Expr)
    requires Operands(l, r)
    ensures WellTyped(e) && Width(e) == Width(l)
  {
    if IsInt(l, 0) then l
    else if IsInt(r, 0) then r
    else if l.ConstInt? && r.ConstInt? then Fold(Mul, l, r)
    else Bin(Mul, l, r)
  }

  function MkURem(l: Expr, r: Expr): (e: Expr)
    requires Operands(l, r)
    ensures WellTyped(e) && Width(e) == Width(l)
  {
    if IsInt(l, 0) then l
    else if IsInt(r, 1) then ConstInt(Width(l), 0)
    else if l.ConstInt? && r.ConstInt? then Fold(URem, l, r)
    else Bin(URem, l, r)
  }

  function MkAnd(l: Expr, r: Expr): (e: Expr)
    requires Operands(l, r)
    ensures WellTyped(e) && Width(e) == Width(l)
    ensures l.ConstInt? && r.ConstInt? ==> e.ConstInt?
    decreases Size(l) + Size(r)
  {
    if IsInt(l, 0) then l
    else if IsInt(r, 0) then r
    else if IsOnes(l) then r
    else if IsOnes(r) then l
    else if l.ConstInt? && r.ConstInt? then Fold(And, l, r)
    // (and (lshr x s) m) -> (lshr (and x (shl m s)) s), m and s constants
    else if l.ConstInt? && IsOpConst(r, LShrOp) then MkLShr(MkAnd(r.lhs, MkShl(l, r.rhs)), r.rhs)
    else if r.ConstInt? && IsOpConst(l, LShrOp) then MkLShr(MkAnd(l.lhs, MkShl(r, l.rhs)), l.rhs)
    // (and (and x m1) m2) -> (and x (and m1 m2)), m1 and m2 constants
    else if l.ConstInt? then
      if IsConstOp(r, And) then MkAnd(r.rhs, MkAnd(l, r.lhs))
      else if IsOpConst(r, And) then MkAnd(r.lhs, MkAnd(l, r.rhs))
      else Bin(And, l, r)
    else if r.ConstInt? then
      if IsConstOp(l, And) then MkAnd(l.rhs, MkAnd(r, l.lhs))
      else if IsOpConst(l, And) then MkAnd(l.lhs, MkAnd(r, l.rhs))
      else Bin(And, l, r)
    else Bin(And, l, r)
  }

  function MkOr(l: Expr, r: Expr): (e: Expr)
    requires Operands(l, r)
    ensures WellTyped(e) && Width(e) == Width(l)
    ensures l.ConstInt? && r.ConstInt? ==> e.ConstInt?
    decreases Size(l) + Size(r)
  {
    if IsInt(l, 0) then r
    else if IsInt(r, 0) then l
    else if IsOnes(l) then l
    else if IsOnes(r) then r
    else if l.ConstInt? && r.ConstInt? then Fold(Or, l, r)
    // (or (and x m1) (and x m2)) -> (and x (or m1 m2))
    else if IsOpConst(l, And) && IsOpConst(r, And) && l.lhs == r.lhs then MkAnd(l.lhs, MkOr(l.rhs, r.rhs))
    else Bin(Or, l, r)
  }

  function MkXor(l: Expr, r: Expr): (e: Expr)
    requires Operands(l, r)
    ensures WellTyped(e) && Width(e) == Width(l)
  {
    if IsInt(l, 0) then r
    else if IsInt(r, 0) then l
    else if l.ConstInt? && r.ConstInt? then Fold(Xor, l, r)
    else Bin(Xor, l, r)
  }

  /** Bits s and above set. */
  function MaskFrom(n: nat, s: nat): (m: nat)
    requires s <= n
    ensures m < Pow2(n)
  {
    Pow2Mono(s, n);
    Pow2(n) - Pow2(s)
  }

  /** The lowest k of n bits set. */
  function LowMask(n: nat, k: nat): (m: nat)
    requires k <= n
    ensures m < Pow2(n)
  {
    Pow2Mono(k, n);
    Pow2(k) - 1
  }

  function MkShl(l: Expr, r: Expr): (e: Expr)
    requires Operands(l, r)
    ensures WellTyped(e) && Width(e) == Width(l)
    ensures l.ConstInt? && r.ConstInt? ==> e.ConstInt?
    decreases Size(l) + Size(r)
  {
    if IsInt(l, 0) || IsInt(r, 0) then l
    else if l.ConstInt? && r.ConstInt? then Fold(ShlOp, l, r)
    // (shl (lshr x s) s) -> (and x mask), s a constant below the width
    else if IsOpConst(l, LShrOp) && r.ConstInt? && l.rhs.value == r.value < Width(l) then
      MkAnd(l.lhs, ConstInt(Width(l), MaskFrom(Width(l), r.value)))
    else Bin(ShlOp, l, r)
  }

  function MkLShr(l: Expr, r: Expr): (e: Expr)
    requires Operands(l, r)
    ensures WellTyped(e) && Width(e) == Width(l)
  {
    if IsInt(l, 0) || IsInt(r, 0) then l
    else if l.ConstInt? && r.ConstInt? then Fold(LShrOp, l, r)
    else Bin(LShrOp, l, r)
  }

  function MkAShr(l: Expr, r: Expr): (e: Expr)
    requires Operands(l, r)
    ensures WellTyped(e) && Width(e) == Width(l)
  {
    if IsInt(l, 0) || IsInt(r, 0) then l
    else if l.ConstInt? && r.ConstInt? then Fold(AShrOp, l, r)
    else Bin(AShrOp, l, r)
  }

  function MkBin(op: BinOp, l: Expr, r: Expr): (e: Expr)
    requires Operands(l, r)
    ensures WellTyped(e) && Width(e) == Width(l)
  {
    match op
    case Add => MkAdd(l, r)
    case Sub => MkSub(l, r)
    case Mul => MkMul(l, r)
    case URem => MkURem(l, r)
    case And => MkAnd(l, r)
    case Or => MkOr(l, r)
    case Xor => MkXor(l, r)
    case ShlOp => MkShl(l, r)
    case LShrOp => MkLShr(l, r)
    case AShrOp => MkAShr(l, r)
  }

  function MkNot(a: Expr): (e: Expr)
    requires WellTyped(a)
    ensures WellTyped(e) && Width(e) == Width(a)
  {
    if a.ConstInt? then ConstInt(a.width, BitNot(a.width, a.value))
    else if a.Not? then a.arg
    else Not(a)
  }

  function MkTrunc(w: nat, a: Expr): (e: Expr)
    requires WellTyped(a) && 1 <= w <= Width(a)
    ensures WellTyped(e) && Width(e) == w
  {
    if a.ConstInt? then ConstInt(w, a.value % Pow2(w))
    else if w == Width(a) then a
    else Trunc(w, a)
  }

  function MkZExt(w: nat, a: Expr): (e: Expr)
    requires WellTyped(a) && w >= Width(a)
    ensures WellTyped(e) && Width(e) == w
  {
    if a.ConstInt? then Pow2Mono(a.width, w); ConstInt(w, a.value)
    else if w == Width(a) then a
    // (zext (trunc x)) back to the width of x -> (and x lowmask)
    else if a.Trunc? && w == Width(a.arg) then MkAnd(a.arg, ConstInt(w, LowMask(w, a.to)))
    else ZExt(w, a)
  }

  function MkSExt(w: nat, a: Expr): (e: Expr)
    requires WellTyped(a) && w >= Width(a)
    ensures WellTyped(e) && Width(e) == w
  {
    if a.ConstInt? then ConstInt(w, SExtValue(a.width, w, a.value))
    else if w == Width(a) then a
    else SExt(w, a)
  }

  function MkTruncOrZExt(w: nat, a: Expr): (e: Expr)
    requires WellTyped(a) && w >= 1
    ensures WellTyped(e) && Width(e) == w
  {
    if w < Width(a) then MkTrunc(w, a)
    else if w > Width(a) then MkZExt(w, a)
    else a
  }

  function MkSelect(c: Expr, t: Expr, f: Expr): (e: Expr)
    requires WellTyped(c) && Width(c) == 1 && Operands(t, f)
    ensures WellTyped(e) && Width(e) == Width(t)
  {
    if c.ConstInt? then if c.value == 1 then t else f
    else if t == f then t
    else Select(c, t, f)
  }

  function Bool(b: bool): (e: Expr)
    ensures WellTyped(e) && Width(e) == 1
  {
    ConstInt(1, ToNat(b))
  }

  /** What a comparison of a value with itself gives. */
  predicate Reflexive(c: Cmp) {
    c in {EQ, ULE, SLE, UGE, SGE}
  }

  function MkICmp(c: Cmp, l: Expr, r: Expr): (e: Expr)
    requires Operands(l, r)
    ensures WellTyped(e) && Width(e) == 1
  {
    if l.ConstInt? && r.ConstInt? then Bool(CmpHolds(c, l.width, l.value, r.value))
    else if l == r then Bool(Reflexive(c))
    else ICmp(c, l, r)
  }

  /** `with_new_operands`: rebuild a node around new operands, folding it. */
  function Refold(e: Expr, ops: seq<Expr>): (r: Expr)
    requires WellTyped(e) && |ops| == |Children(e)|
    requires forall i :: 0 <= i < |ops| ==> WellTyped(ops[i]) && Width(ops[i]) == Width(Children(e)[i])
    ensures WellTyped(r) && Width(r) == Width(e)
  {
    match e
    case ConstInt(_, _) => e
    case Sym(_) => e
    case Bin(op, _, _) => MkBin(op, ops[0], ops[1])
    case Not(_) => MkNot(ops[0])
    case Trunc(w, _) => MkTrunc(w, ops[0])
    case ZExt(w, _) => MkZExt(w, ops[0])
    case SExt(w, _) => MkSExt(w, ops[0])
    case ICmp(c, _, _) => MkICmp(c, ops[0], ops[1])
    case Select(_, _, _) => MkSelect(ops[0], ops[1], ops[2])
  }

  function Children(e: Expr): (ops: seq<Expr>)
    ensures forall i :: 0 <= i < |ops| ==> ops[i] < e
    ensures WellTyped(e) ==> forall i :: 0 <= i < |ops| ==> WellTyped(ops[i])
  {
    match e
    case ConstInt(_, _) => []
    case Sym(_) => []
    case Bin(_, l, r) => [l, r]
    case Not(a) => [a]
    case Trunc(_, a) => [a]
    case ZExt(_, a) => [a]
    case SExt(_, a) => [a]
    case ICmp(_, l, r) => [l, r]
    case Select(c, t, f) => [c, t, f]
  }
}
