/**
 The simplifier preserves meaning at every width and never duplicates a symbol.

 For every builder `MkX` and every environment the folded expression has the value of the
 unfolded node, and it holds no more symbol occurrences than its operands together.
 */
module SimplifierSound {
  import opened Bits
  import opened Exprs
  import opened Simplifier

  // ----- laws of the operators -----

  lemma AndZero(a: nat)
    ensures BitAnd(a, 0) == 0 == BitAnd(0, a)
  {}

  lemma AndOnes(n: nat, a: nat)
    requires a < Pow2(n)
    ensures BitAnd(a, Ones(n)) == a == BitAnd(Ones(n), a)
  {
    AndBound(a, Ones(n));
    AndBound(Ones(n), a);
    forall i: nat | i < n ensures Bit(BitAnd(a, Ones(n)), i) == Bit(a, i) == Bit(BitAnd(Ones(n), a), i) {
      BitOfAnd(a, Ones(n), i); BitOfAnd(Ones(n), a, i); BitOfOnes(n, i);
    }
    BitExt(n, BitAnd(a, Ones(n)), a);
    BitExt(n, BitAnd(Ones(n), a), a);
  }

  lemma OrOnes(n: nat, a: nat)
    requires a < Pow2(n)
    ensures BitOr(a, Ones(n)) == Ones(n) == BitOr(Ones(n), a)
  {
    OrBound(n, a, Ones(n));
    OrBound(n, Ones(n), a);
    forall i: nat | i < n
      ensures Bit(BitOr(a, Ones(n)), i) == Bit(Ones(n), i) == Bit(BitOr(Ones(n), a), i)
    {
      BitOfOr(a, Ones(n), i); BitOfOr(Ones(n), a, i); BitOfOnes(n, i);
    }
    BitExt(n, BitOr(a, Ones(n)), Ones(n));
    BitExt(n, BitOr(Ones(n), a), Ones(n));
  }

  lemma AndComm(a: nat, b: nat)
    ensures BitAnd(a, b) == BitAnd(b, a)
  {
    if a != 0 && b != 0 { AndComm(a / 2, b / 2); }
  }

  lemma AndAssoc(n: nat, a: nat, b: nat, c: nat)
    requires a < Pow2(n)
    ensures BitAnd(BitAnd(a, b), c) == BitAnd(a, BitAnd(b, c))
  {
    var l, r := BitAnd(BitAnd(a, b), c), BitAnd(a, BitAnd(b, c));
    AndBound(a, b); AndBound(BitAnd(a, b), c); AndBound(a, BitAnd(b, c));
    forall i: nat | i < n ensures Bit(l, i) == Bit(r, i) {
      BitOfAnd(BitAnd(a, b), c, i); BitOfAnd(a, b, i); BitOfAnd(a, BitAnd(b, c), i); BitOfAnd(b, c, i);
    }
    BitExt(n, l, r);
  }

  /** Masking after a right shift is a right shift after masking, for every shift amount. */
  lemma AndOfLShr(n: nat, x: nat, m: nat, s: nat)
    requires x < Pow2(n) && m < Pow2(n)
    ensures BitAnd(LShr(x, s), m) == LShr(BitAnd(x, Shl(n, m, s)), s)
  {
    var l, k := BitAnd(LShr(x, s), m), BitAnd(x, Shl(n, m, s));
    AndBound(LShr(x, s), m); AndBound(x, Shl(n, m, s));
    LShrBound(k, s, n);
    forall i: nat | i < n ensures Bit(l, i) == Bit(LShr(k, s), i) {
      BitOfAnd(LShr(x, s), m, i); BitOfLShr(x, s, i);
      BitOfLShr(k, s, i); BitOfAnd(x, Shl(n, m, s), i + s); BitOfShl(n, m, s, i + s);
      if i + s >= n { BitAboveWidth(x, n, i + s); }
    }
    BitExt(n, l, LShr(k, s));
  }

  lemma OrOfAnds(n: nat, x: nat, a: nat, b: nat)
    requires x < Pow2(n) && a < Pow2(n) && b < Pow2(n)
    ensures BitOr(BitAnd(x, a), BitAnd(x, b)) == BitAnd(x, BitOr(a, b))
  {
    var l, r := BitOr(BitAnd(x, a), BitAnd(x, b)), BitAnd(x, BitOr(a, b));
    AndBound(x, a); AndBound(x, b); AndBound(x, BitOr(a, b));
    OrBound(n, BitAnd(x, a), BitAnd(x, b));
    forall i: nat | i < n ensures Bit(l, i) == Bit(r, i) {
      BitOfOr(BitAnd(x, a), BitAnd(x, b), i); BitOfAnd(x, a, i); BitOfAnd(x, b, i);
      BitOfAnd(x, BitOr(a, b), i); BitOfOr(a, b, i);
    }
    BitExt(n, l, r);
  }

  lemma BitOfLowMask(n: nat, k: nat, i: nat)
    requires k <= n
    ensures Bit(LowMask(n, k), i) <==> i < k
  {
    BitOfOnes(k, i);
  }

  lemma BitOfMaskFrom(n: nat, s: nat, i: nat)
    requires s <= n
    ensures Bit(MaskFrom(n, s), i) <==> s <= i < n
  {
    assert MaskFrom(n, s) == BitNot(n, LowMask(n, s));
    BitOfNot(n, LowMask(n, s), i);
    BitOfLowMask(n, s, i);
  }

  /** Shifting right and back clears the low bits. */
  lemma ShlOfLShr(n: nat, x: nat, s: nat)
    requires x < Pow2(n) && s < n
    ensures Shl(n, LShr(x, s), s) == BitAnd(x, MaskFrom(n, s))
  {
    var l, r := Shl(n, LShr(x, s), s), BitAnd(x, MaskFrom(n, s));
    AndBound(x, MaskFrom(n, s));
    forall i: nat | i < n ensures Bit(l, i) == Bit(r, i) {
      BitOfShl(n, LShr(x, s), s, i);
      if i >= s { BitOfLShr(x, s, i - s); }
      BitOfAnd(x, MaskFrom(n, s), i); BitOfMaskFrom(n, s, i);
    }
    BitExt(n, l, r);
  }

  lemma ModIsMask(n: nat, x: nat, k: nat)
    requires x < Pow2(n) && k <= n
    ensures x % Pow2(k) == BitAnd(x, LowMask(n, k))
  {
    Pow2Mono(k, n);
    AndBound(x, LowMask(n, k));
    forall i: nat | i < n ensures Bit(x % Pow2(k), i) == Bit(BitAnd(x, LowMask(n, k)), i) {
      BitOfMod(x, k, i); BitOfAnd(x, LowMask(n, k), i); BitOfLowMask(n, k, i);
    }
    BitExt(n, x % Pow2(k), BitAnd(x, LowMask(n, k)));
  }

  lemma NotNot(n: nat, a: nat)
    requires a < Pow2(n)
    ensures BitNot(n, BitNot(n, a)) == a
  {}

  lemma ZeroMod(n: nat, s: nat)
    ensures (0 * Pow2(s)) % Pow2(n) == 0 && 0 / Pow2(s) == 0
  {
    DivModUnique(0, Pow2(n), 0, 0);
    DivModUnique(0, Pow2(s), 0, 0);
  }

  lemma ShiftOfZero(n: nat, s: nat)
    requires n >= 1
    ensures Shl(n, 0, s) == 0 && LShr(0, s) == 0 && AShr(n, 0, s) == 0
  {
    ZeroMod(n, s);
  }

  lemma ShiftByZero(n: nat, a: nat)
    requires n >= 1 && a < Pow2(n)
    ensures Shl(n, a, 0) == a && LShr(a, 0) == a && AShr(n, a, 0) == a
  {
    DivModUnique(a, Pow2(n), 0, a);
    assert Pow2(0) == 1;
    assert LShr(a, 0) == a;
    var c := BitNot(n, a);
    assert LShr(c, 0) == c;
  }

  // ----- the builders -----

  ghost predicate Agrees(op: BinOp, l: Expr, r: Expr, e: Expr, env: Env) {
    && Operands(l, r) && WellTyped(e) && Width(e) == Width(l)
    && Eval(e, env) == BinValue(op, Width(l), Eval(l, env), Eval(r, env))
    && SymCount(e) <= SymCount(l) + SymCount(r)
  }

  lemma {:induction false} FoldAgrees(op: BinOp, l: Expr, r: Expr, env: Env)
    requires Operands(l, r) && l.ConstInt? && r.ConstInt?
    ensures Agrees(op, l, r, Fold(op, l, r), env)
  {
    assert Eval(l, env) == l.value && Eval(r, env) == r.value;
  }

  lemma {:induction false} RawAgrees(op: BinOp, l: Expr, r: Expr, env: Env)
    requires Operands(l, r)
    ensures Agrees(op, l, r, Bin(op, l, r), env)
  {}

  /** The result is one of the operands. */
  lemma {:induction false} OperandAgrees(op: BinOp, l: Expr, r: Expr, e: Expr, env: Env)
    requires Operands(l, r) && (e == l || e == r) && Eval(e, env) == BinValue(op, Width(l), Eval(l, env), Eval(r, env))
    ensures Agrees(op, l, r, e, env)
  {}

  lemma ConstFacts(w: nat, v: nat, env: Env)
    requires w >= 1 && v < Pow2(w)
    ensures WellTyped(ConstInt(w, v)) && Width(ConstInt(w, v)) == w && Eval(ConstInt(w, v), env) == v && SymCount(ConstInt(w, v)) == 0
  {}

  /** The cases of `visitAnd` that return an operand or a constant. */
  predicate AndFolds(l: Expr, r: Expr) {
    IsInt(l, 0) || IsInt(r, 0) || IsOnes(l) || IsOnes(r) || (l.ConstInt? && r.ConstInt?)
  }

  lemma {:induction false} AndFoldsSound(l: Expr, r: Expr, env: Env)
    requires Operands(l, r) && AndFolds(l, r)
    ensures Agrees(And, l, r, MkAnd(l, r), env)
  {
    var n, a, b := Width(l), Eval(l, env), Eval(r, env);
    AndZero(a); AndZero(b);
    AndOnes(n, a); AndOnes(n, b);
  }

  lemma {:induction false} AndSound(l: Expr, r: Expr, env: Env)
    requires Operands(l, r)
    ensures Agrees(And, l, r, MkAnd(l, r), env)
    decreases Size(l) + Size(r), 1
  {
    if AndFolds(l, r) {
      AndFoldsSound(l, r, env);
    } else if l.ConstInt? {
      AndConstSound(l, r, env);
    } else if r.ConstInt? {
      AndConstSound(r, l, env);
      AndComm(Eval(l, env), Eval(r, env));
      assert MkAnd(l, r) == MkAnd(r, l) || (MkAnd(l, r) == Bin(And, l, r));
    }
  }

  /** A constant mask on the left; the mask on the right is rewritten the same way. */
  lemma {:induction false} AndConstSound(m: Expr, r: Expr, env: Env)
    requires Operands(m, r) && m.ConstInt? && !AndFolds(m, r)
    ensures Agrees(And, m, r, MkAnd(m, r), env)
    decreases Size(m) + Size(r), 0
  {
    if IsOpConst(r, LShrOp) {
      AndOfShiftSound(r.lhs, r.rhs, m, env);
      AndComm(LShr(Eval(r.lhs, env), r.rhs.value), m.value);
    } else if IsConstOp(r, And) {
      MaskedAndSound(r.rhs, m, r.lhs, env);
      AndComm(r.lhs.value, Eval(r.rhs, env));
      AndComm(m.value, Eval(r, env));
    } else if IsOpConst(r, And) {
      MaskedAndSound(r.lhs, m, r.rhs, env);
      AndComm(m.value, Eval(r, env));
    }
  }

  lemma {:induction false} AndOfShiftSound(x: Expr, s: Expr, m: Expr, env: Env)
    requires Operands(x, s) && Operands(x, m) && s.ConstInt? && m.ConstInt?
    ensures var e := MkLShr(MkAnd(x, MkShl(m, s)), s);
      Eval(e, env) == BitAnd(LShr(Eval(x, env), s.value), m.value) && SymCount(e) <= SymCount(x)
    decreases Size(x) + 2
  {
    var n := Width(x);
    ShlSound(m, s, env);
    AndSound(x, MkShl(m, s), env);
    LShrSound(MkAnd(x, MkShl(m, s)), s, env);
    AndOfLShr(n, Eval(x, env), m.value, s.value);
  }

  lemma {:induction false} MaskedAndSound(x: Expr, m1: Expr, m2: Expr, env: Env)
    requires Operands(x, m1) && Operands(x, m2) && m1.ConstInt? && m2.ConstInt?
    ensures var e := MkAnd(x, MkAnd(m1, m2));
      Eval(e, env) == BitAnd(BitAnd(Eval(x, env), m2.value), m1.value) && SymCount(e) <= SymCount(x)
    decreases Size(x) + 2
  {
    AndSound(m1, m2, env);
    AndSound(x, MkAnd(m1, m2), env);
    AndComm(m1.value, m2.value);
    AndAssoc(Width(x), Eval(x, env), m2.value, m1.value);
  }

  lemma {:induction false} ShlSound(l: Expr, r: Expr, env: Env)
    requires Operands(l, r)
    ensures Agrees(ShlOp, l, r, MkShl(l, r), env)
    decreases Size(l) + Size(r)
  {
    if IsInt(l, 0) || IsInt(r, 0) {
      if IsInt(l, 0) { ShiftOfZero(Width(l), Eval(r, env)); } else { ShiftByZero(Width(l), Eval(l, env)); }
      OperandAgrees(ShlOp, l, r, l, env);
    } else if l.ConstInt? && r.ConstInt? {
      FoldAgrees(ShlOp, l, r, env);
    } else if IsOpConst(l, LShrOp) && r.ConstInt? && l.rhs.value == r.value < Width(l) {
      ShlOfLShrSound(l.lhs, l.rhs, env);
      assert Eval(l, env) == LShr(Eval(l.lhs, env), r.value) && Eval(r, env) == r.value;
    } else {
      RawAgrees(ShlOp, l, r, env);
    }
  }

  lemma {:induction false} ShlOfLShrSound(x: Expr, s: Expr, env: Env)
    requires Operands(x, s) && s.ConstInt? && s.value < Width(x)
    ensures var e := MkAnd(x, ConstInt(Width(x), MaskFrom(Width(x), s.value)));
      Eval(e, env) == Shl(Width(x), LShr(Eval(x, env), s.value), s.value) && SymCount(e) <= SymCount(x)
    decreases Size(x) + 2
  {
    AndSound(x, ConstInt(Width(x), MaskFrom(Width(x), s.value)), env);
    ShlOfLShr(Width(x), Eval(x, env), s.value);
  }

  lemma {:induction false} LShrSound(l: Expr, r: Expr, env: Env)
    requires Operands(l, r)
    ensures Agrees(LShrOp, l, r, MkLShr(l, r), env)
  {
    if IsInt(l, 0) || IsInt(r, 0) {
      if IsInt(l, 0) { ShiftOfZero(Width(l), Eval(r, env)); } else { ShiftByZero(Width(l), Eval(l, env)); }
      OperandAgrees(LShrOp, l, r, l, env);
    } else if l.ConstInt? && r.ConstInt? {
      FoldAgrees(LShrOp, l, r, env);
    } else {
      RawAgrees(LShrOp, l, r, env);
    }
  }

  lemma {:induction false} AShrSound(l: Expr, r: Expr, env: Env)
    requires Operands(l, r)
    ensures Agrees(AShrOp, l, r, MkAShr(l, r), env)
  {
    if IsInt(l, 0) || IsInt(r, 0) {
      if IsInt(l, 0) { ShiftOfZero(Width(l), Eval(r, env)); } else { ShiftByZero(Width(l), Eval(l, env)); }
      OperandAgrees(AShrOp, l, r, l, env);
    } else if l.ConstInt? && r.ConstInt? {
      FoldAgrees(AShrOp, l, r, env);
    } else {
      RawAgrees(AShrOp, l, r, env);
    }
  }

  lemma {:induction false} OrFoldsSound(l: Expr, r: Expr, env: Env)
    requires Operands(l, r)
    requires IsInt(l, 0) || IsInt(r, 0) || IsOnes(l) || IsOnes(r) || (l.ConstInt? && r.ConstInt?)
    ensures Agrees(Or, l, r, MkOr(l, r), env)
  {
    OrOnes(Width(l), Eval(l, env)); OrOnes(Width(l), Eval(r, env));
  }

  lemma {:induction false} OrOfAndsSound(x: Expr, m1: Expr, m2: Expr, env: Env)
    requires Operands(x, m1) && Operands(x, m2) && m1.ConstInt? && m2.ConstInt?
    ensures var e := MkAnd(x, MkOr(m1, m2));
      && Eval(e, env) == BitOr(BitAnd(Eval(x, env), m1.value), BitAnd(Eval(x, env), m2.value))
      && SymCount(e) <= SymCount(x)
  {
    var m := MkOr(m1, m2);
    ConstFacts(m1.width, m1.value, env);
    ConstFacts(m2.width, m2.value, env);
    OrFoldsSound(m1, m2, env);
    assert Eval(m, env) == BitOr(m1.value, m2.value) && SymCount(m) == 0;
    OrMaskSound(x, m, m1.value, m2.value, env);
  }

  lemma {:induction false} OrMaskSound(x: Expr, m: Expr, v1: nat, v2: nat, env: Env)
    requires Operands(x, m) && v1 < Pow2(Width(x)) && v2 < Pow2(Width(x)) && Eval(m, env) == BitOr(v1, v2) && SymCount(m) == 0
    ensures Eval(MkAnd(x, m), env) == BitOr(BitAnd(Eval(x, env), v1), BitAnd(Eval(x, env), v2))
    ensures SymCount(MkAnd(x, m)) <= SymCount(x)
  {
    AndSound(x, m, env);
    OrOfAnds(Width(x), Eval(x, env), v1, v2);
  }

  lemma {:induction false} OrSound(l: Expr, r: Expr, env: Env)
    requires Operands(l, r)
    ensures Agrees(Or, l, r, MkOr(l, r), env)
  {
    if IsInt(l, 0) || IsInt(r, 0) || IsOnes(l) || IsOnes(r) || (l.ConstInt? && r.ConstInt?) {
      OrFoldsSound(l, r, env);
    } else if IsOpConst(l, And) && IsOpConst(r, And) && l.lhs == r.lhs {
      OrOfAndsSound(l.lhs, l.rhs, r.rhs, env);
      ConstFacts(l.rhs.width, l.rhs.value, env);
      ConstFacts(r.rhs.width, r.rhs.value, env);
      assert Eval(l, env) == BitAnd(Eval(l.lhs, env), l.rhs.value) && Eval(r, env) == BitAnd(Eval(l.lhs, env), r.rhs.value);
    } else {
      RawAgrees(Or, l, r, env);
    }
  }

  lemma {:induction false} XorSound(l: Expr, r: Expr, env: Env)
    requires Operands(l, r)
    ensures Agrees(Xor, l, r, MkXor(l, r), env)
  {
    if IsInt(l, 0) { OperandAgrees(Xor, l, r, r, env); }
    else if IsInt(r, 0) { OperandAgrees(Xor, l, r, l, env); }
    else if l.ConstInt? && r.ConstInt? { FoldAgrees(Xor, l, r, env); }
    else { RawAgrees(Xor, l, r, env); }
  }

  lemma SmallMod(a: int, p: int)
    requires 0 <= a < p
    ensures a % p == a
  {
    DivModUnique(a, p, 0, a);
  }

  lemma {:induction false} AddSound(l: Expr, r: Expr, env: Env)
    requires Operands(l, r)
    ensures Agrees(Add, l, r, MkAdd(l, r), env)
  {
    if IsInt(l, 0) {
      SmallMod(Eval(r, env), Pow2(Width(l)));
      OperandAgrees(Add, l, r, r, env);
    } else if IsInt(r, 0) {
      SmallMod(Eval(l, env), Pow2(Width(l)));
      OperandAgrees(Add, l, r, l, env);
    } else if l.ConstInt? && r.ConstInt? {
      FoldAgrees(Add, l, r, env);
    } else {
      RawAgrees(Add, l, r, env);
    }
  }

  lemma {:induction false} SubSound(l: Expr, r: Expr, env: Env)
    requires Operands(l, r)
    ensures Agrees(Sub, l, r, MkSub(l, r), env)
  {
    if IsInt(r, 0) {
      SmallMod(Eval(l, env), Pow2(Width(l)));
      OperandAgrees(Sub, l, r, l, env);
    } else if l == r {
      SmallMod(0, Pow2(Width(l)));
      ConstFacts(Width(l), 0, env);
    } else if l.ConstInt? && r.ConstInt? {
      FoldAgrees(Sub, l, r, env);
    } else {
      RawAgrees(Sub, l, r, env);
    }
  }

  lemma {:induction false} MulSound(l: Expr, r: Expr, env: Env)
    requires Operands(l, r)
    ensures Agrees(Mul, l, r, MkMul(l, r), env)
  {
    SmallMod(0, Pow2(Width(l)));
    if IsInt(l, 0) {
      assert 0 * Eval(r, env) == 0;
      OperandAgrees(Mul, l, r, l, env);
    } else if IsInt(r, 0) {
      assert Eval(l, env) * 0 == 0;
      OperandAgrees(Mul, l, r, r, env);
    } else if l.ConstInt? && r.ConstInt? {
      FoldAgrees(Mul, l, r, env);
    } else {
      RawAgrees(Mul, l, r, env);
    }
  }

  lemma {:induction false} URemSound(l: Expr, r: Expr, env: Env)
    requires Operands(l, r)
    ensures Agrees(URem, l, r, MkURem(l, r), env)
  {
    var b := Eval(r, env);
    if IsInt(l, 0) {
      if b != 0 { SmallMod(0, b); }
      OperandAgrees(URem, l, r, l, env);
    } else if IsInt(r, 1) {
      ConstFacts(Width(l), 0, env);
    } else if l.ConstInt? && r.ConstInt? {
      FoldAgrees(URem, l, r, env);
    } else {
      RawAgrees(URem, l, r, env);
    }
  }

  /** Every binary builder means its operator. */
  lemma {:induction false} BinSound(op: BinOp, l: Expr, r: Expr, env: Env)
    requires Operands(l, r)
    ensures Agrees(op, l, r, MkBin(op, l, r), env)
  {
    match op
    case And => AndSound(l, r, env);
    case Or => OrSound(l, r, env);
    case Xor => XorSound(l, r, env);
    case ShlOp => ShlSound(l, r, env);
    case LShrOp => LShrSound(l, r, env);
    case AShrOp => AShrSound(l, r, env);
    case Add => AddSound(l, r, env);
    case Sub => SubSound(l, r, env);
    case Mul => MulSound(l, r, env);
    case URem => URemSound(l, r, env);
  }

  lemma {:induction false} NotSound(a: Expr, env: Env)
    requires WellTyped(a)
    ensures Eval(MkNot(a), env) == BitNot(Width(a), Eval(a, env)) && SymCount(MkNot(a)) <= SymCount(a)
  {
    if a.Not? { NotNot(Width(a), Eval(a.arg, env)); }
  }

  lemma {:induction false} TruncSound(w: nat, a: Expr, env: Env)
    requires WellTyped(a) && 1 <= w <= Width(a)
    ensures Eval(MkTrunc(w, a), env) == Eval(a, env) % Pow2(w) && SymCount(MkTrunc(w, a)) <= SymCount(a)
  {
    DivModUnique(Eval(a, env), Pow2(Width(a)), 0, Eval(a, env));
  }

  lemma {:induction false} ZExtSound(w: nat, a: Expr, env: Env)
    requires WellTyped(a) && w >= Width(a)
    ensures Eval(MkZExt(w, a), env) == Eval(a, env) && SymCount(MkZExt(w, a)) <= SymCount(a)
  {
    if !a.ConstInt? && w != Width(a) && a.Trunc? && w == Width(a.arg) {
      AndSound(a.arg, ConstInt(w, LowMask(w, a.to)), env);
      ModIsMask(w, Eval(a.arg, env), a.to);
    }
  }

  lemma {:induction false} SExtSound(w: nat, a: Expr, env: Env)
    requires WellTyped(a) && w >= Width(a)
    ensures Eval(MkSExt(w, a), env) == SExtValue(Width(a), w, Eval(a, env)) && SymCount(MkSExt(w, a)) <= SymCount(a)
  {}

  /** A folded select has the value of the operand its condition picks. */
  lemma {:induction false} SelectSound(c: Expr, t: Expr, f: Expr, env: Env)
    requires WellTyped(c) && Width(c) == 1 && Operands(t, f)
    ensures Eval(MkSelect(c, t, f), env) == if Eval(c, env) == 1 then Eval(t, env) else Eval(f, env)
    ensures SymCount(MkSelect(c, t, f)) <= SymCount(c) + SymCount(t) + SymCount(f)
  {}

  lemma {:induction false} ICmpSound(c: Cmp, l: Expr, r: Expr, env: Env)
    requires Operands(l, r)
    ensures Eval(MkICmp(c, l, r), env) == ToNat(CmpHolds(c, Width(l), Eval(l, env), Eval(r, env)))
    ensures SymCount(MkICmp(c, l, r)) <= SymCount(l) + SymCount(r)
  {
    if l.ConstInt? && r.ConstInt? {
      ConstFacts(l.width, l.value, env);
      ConstFacts(r.width, r.value, env);
      BoolSound(CmpHolds(c, l.width, l.value, r.value), env);
    } else if l == r {
      CmpReflexive(c, Width(l), Eval(l, env));
      BoolSound(Reflexive(c), env);
    } else {
      RawICmp(c, l, r, env);
    }
  }

  lemma {:induction false} RawICmp(c: Cmp, l: Expr, r: Expr, env: Env)
    requires Operands(l, r)
    ensures WellTyped(ICmp(c, l, r)) && SymCount(ICmp(c, l, r)) == SymCount(l) + SymCount(r)
    ensures Eval(ICmp(c, l, r), env) == ToNat(CmpHolds(c, Width(l), Eval(l, env), Eval(r, env)))
  {}

  lemma {:induction false} BoolSound(b: bool, env: Env)
    ensures Eval(Bool(b), env) == ToNat(b) && SymCount(Bool(b)) == 0
  {}

  lemma CmpReflexive(c: Cmp, n: nat, a: nat)
    requires n >= 1 && a < Pow2(n)
    ensures CmpHolds(c, n, a, a) <==> Reflexive(c)
  {}

  /** Folding a node around new operands gives the node the operands' values, without duplicating symbols. */
  lemma {:induction false} RefoldSound(e: Expr, e': Expr, env: Env)
    requires WellTyped(e) && WellTyped(e')
    requires SameShape(e, e')
    ensures Eval(Refold(e, Children(e')), env) == Eval(e', env)
    ensures SymCount(Refold(e, Children(e'))) <= SymCount(e')
  {
    match e'
    case ConstInt(_, _) =>
    case Sym(_) =>
    case Bin(op, l, r) => BinSound(op, l, r, env);
    case Not(a) => NotSound(a, env);
    case Trunc(w, a) => TruncSound(w, a, env);
    case ZExt(w, a) => ZExtSound(w, a, env);
    case SExt(w, a) => SExtSound(w, a, env);
    case ICmp(c, l, r) => ICmpSound(c, l, r, env);
    case Select(c, t, f) => SelectSound(c, t, f, env);
  }

  /** Any operation on constants folds to a constant. */
  lemma ConstantsFold(e: Expr, ops: seq<Expr>)
    requires WellTyped(e) && |ops| == |Children(e)| && !e.Sym?
    requires forall i :: 0 <= i < |ops| ==> WellTyped(ops[i]) && Width(ops[i]) == Width(Children(e)[i]) && ops[i].ConstInt?
    ensures Refold(e, ops).ConstInt?
  {
    match e
    case Bin(op, l, r) => BinFolds(op, ops[0], ops[1]);
    case ZExt(_, _) => assert ops[0].ConstInt?;
    case _ =>
  }

  lemma BinFolds(op: BinOp, l: Expr, r: Expr)
    requires Operands(l, r) && l.ConstInt? && r.ConstInt?
    ensures MkBin(op, l, r).ConstInt?
  {}

  // ----- shifts and casts -----

  /** How many shifts, truncations and extensions an expression has. */
  function Moves(e: Expr): nat {
    match e
    case ConstInt(_, _) => 0
    case Sym(_) => 0
    case Bin(op, l, r) => Moves(l) + Moves(r) + if op in {ShlOp, LShrOp, AShrOp} then 1 else 0
    case Not(a) => Moves(a)
    case Trunc(_, a) => Moves(a) + 1
    case ZExt(_, a) => Moves(a) + 1
    case SExt(_, a) => Moves(a) + 1
    case ICmp(_, l, r) => Moves(l) + Moves(r)
    case Select(c, t, f) => Moves(c) + Moves(t) + Moves(f)
  }

  /** Folding an and adds no shift or cast. */
  lemma {:induction false} AndMoves(l: Expr, r: Expr)
    requires Operands(l, r)
    ensures Moves(MkAnd(l, r)) <= Moves(l) + Moves(r)
    decreases Size(l) + Size(r)
  {
    if l.ConstInt? && r.ConstInt? {
    } else if l.ConstInt? && IsOpConst(r, LShrOp) {
      ShiftMoves(l, r);
    } else if r.ConstInt? && IsOpConst(l, LShrOp) {
      ShiftMoves(r, l);
    } else if l.ConstInt? && IsConstOp(r, And) {
      AndMoves(r.rhs, MkAnd(l, r.lhs));
    } else if l.ConstInt? && IsOpConst(r, And) {
      AndMoves(r.lhs, MkAnd(l, r.rhs));
    } else if r.ConstInt? && IsConstOp(l, And) {
      AndMoves(l.rhs, MkAnd(r, l.lhs));
    } else if r.ConstInt? && IsOpConst(l, And) {
      AndMoves(l.lhs, MkAnd(r, l.rhs));
    }
  }

  /** A shift is one shift at most, and a cast one cast at most. */
  lemma {:induction false} ShlMoves(l: Expr, r: Expr)
    requires Operands(l, r) && r.ConstInt?
    ensures Moves(MkShl(l, r)) <= Moves(l) + 1 && Moves(MkLShr(l, r)) <= Moves(l) + 1
  {
    if IsOpConst(l, LShrOp) && l.rhs.value == r.value < Width(l) {
      AndMoves(l.lhs, ConstInt(Width(l), MaskFrom(Width(l), r.value)));
    }
  }

  lemma {:induction false} CastMoves(w: nat, a: Expr)
    requires WellTyped(a) && w >= 1
    ensures Moves(MkTruncOrZExt(w, a)) <= Moves(a) + 1
  {
    if w > Width(a) && a.Trunc? && w == Width(a.arg) { AndMoves(a.arg, ConstInt(w, LowMask(w, a.to))); }
  }

  lemma {:induction false} ShiftMoves(m: Expr, e: Expr)
    requires Operands(m, e) && m.ConstInt? && IsOpConst(e, LShrOp)
    ensures MkShl(m, e.rhs).ConstInt? && Moves(MkLShr(MkAnd(e.lhs, MkShl(m, e.rhs)), e.rhs)) <= Moves(e)
    decreases Size(m) + Size(e), 0
  {
    AndMoves(e.lhs, MkShl(m, e.rhs));
  }

  /** The same operation around operands of the same types. */
  ghost predicate SameShape(e: Expr, e': Expr) {
    && |Children(e)| == |Children(e')|
    && (forall i :: 0 <= i < |Children(e)| ==> Width(Children(e)[i]) == Width(Children(e')[i]))
    && match e
       case ConstInt(_, _) => e' == e
       case Sym(_) => e' == e
       case Bin(op, _, _) => e'.Bin? && e'.op == op
       case Not(_) => e'.Not?
       case Trunc(w, _) => e'.Trunc? && e'.to == w
       case ZExt(w, _) => e'.ZExt? && e'.to == w
       case SExt(w, _) => e'.SExt? && e'.to == w
       case ICmp(c, _, _) => e'.ICmp? && e'.cmp == c
       case Select(_, _, _) => e'.Select?
  }
}
