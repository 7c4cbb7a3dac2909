/**
 The `Create` functions of src/IR/Operation.cpp, as their callers see them: each returns a folded
 expression whose value, in every environment, is the operator applied to the operands' values.
 */
module Builder {
  import opened Bits
  import opened Exprs
  import opened Simplifier
  import opened SimplifierSound
  import opened Meanings

  predicate IsBool(e: Expr) {
    WellTyped(e) && Width(e) == 1
  }

  /** A 1-bit expression is true. */
  predicate Holds(e: Expr, env: Env)
    requires IsBool(e)
  {
    Eval(e, env) == 1
  }

  lemma BoolOps(a: nat, b: nat)
    requires a < 2 && b < 2
    ensures BitAnd(a, b) == ToNat(a == 1 && b == 1)
    ensures BitOr(a, b) == ToNat(a == 1 || b == 1)
    ensures BitXor(a, b) == ToNat(a != b)
  {
    assert BitAnd(1, 1) == 1 && BitOr(1, 1) == 1 && BitXor(1, 1) == 0;
  }

  lemma {:induction false} BoolAnd(l: Expr, r: Expr, env: Env)
    requires IsBool(l) && IsBool(r)
    ensures Holds(MkAnd(l, r), env) <==> Holds(l, env) && Holds(r, env)
  {
    AndSound(l, r, env);
    BoolAndOf(MkAnd(l, r), l, r, env);
  }

  lemma {:induction false} BoolAndOf(e: Expr, l: Expr, r: Expr, env: Env)
    requires IsBool(e) && IsBool(l) && IsBool(r) && Eval(e, env) == BitAnd(Eval(l, env), Eval(r, env))
    ensures Holds(e, env) <==> Holds(l, env) && Holds(r, env)
  {
    BoolOps(Eval(l, env), Eval(r, env));
  }

  lemma {:induction false} BoolOr(l: Expr, r: Expr, env: Env)
    requires IsBool(l) && IsBool(r)
    ensures Holds(MkOr(l, r), env) <==> Holds(l, env) || Holds(r, env)
  {
    OrSound(l, r, env);
    BoolOps(Eval(l, env), Eval(r, env));
  }

  lemma {:induction false} BoolXor(l: Expr, r: Expr, env: Env)
    requires IsBool(l) && IsBool(r)
    ensures Holds(MkXor(l, r), env) <==> Holds(l, env) != Holds(r, env)
  {
    XorSound(l, r, env);
    BoolOps(Eval(l, env), Eval(r, env));
  }

  method CreateConst(w: nat, v: nat) returns (e: Expr)
    requires w >= 1 && v < Pow2(w)
    ensures WellTyped(e) && Width(e) == w && e.ConstInt?
    ensures forall env: Env :: Eval(e, env) == v
  {
    e := ConstInt(w, v);
  }

  method CreateBool(b: bool) returns (e: Expr)
    ensures IsBool(e)
    ensures forall env: Env :: Holds(e, env) <==> b
  {
    e := Bool(b);
  }

  method CreateAdd(l: Expr, r: Expr) returns (e: Expr)
    requires Operands(l, r)
    ensures WellTyped(e) && Width(e) == Width(l)
    ensures forall env: Env :: Eval(e, env) == (Eval(l, env) + Eval(r, env)) % Pow2(Width(l))
  {
    e := MkAdd(l, r);
    forall env: Env ensures Eval(e, env) == (Eval(l, env) + Eval(r, env)) % Pow2(Width(l)) {
      AddSound(l, r, env);
    }
  }

  method CreateSub(l: Expr, r: Expr) returns (e: Expr)
    requires Operands(l, r)
    ensures WellTyped(e) && Width(e) == Width(l)
    ensures forall env: Env :: Eval(e, env) == (Eval(l, env) - Eval(r, env)) % Pow2(Width(l))
  {
    e := MkSub(l, r);
    forall env: Env ensures Eval(e, env) == (Eval(l, env) - Eval(r, env)) % Pow2(Width(l)) {
      SubSound(l, r, env);
    }
  }

  method CreateMul(l: Expr, r: Expr) returns (e: Expr)
    requires Operands(l, r)
    ensures WellTyped(e) && Width(e) == Width(l)
    ensures forall env: Env :: Eval(e, env) == (Eval(l, env) * Eval(r, env)) % Pow2(Width(l))
  {
    e := MkMul(l, r);
    forall env: Env ensures Eval(e, env) == (Eval(l, env) * Eval(r, env)) % Pow2(Width(l)) {
      MulSound(l, r, env);
    }
  }

  method CreateURem(l: Expr, r: Expr) returns (e: Expr)
    requires Operands(l, r)
    ensures WellTyped(e) && Width(e) == Width(l)
    ensures forall env: Env :: Eval(e, env) == if Eval(r, env) == 0 then Eval(l, env) else Eval(l, env) % Eval(r, env)
  {
    e := MkURem(l, r);
    forall env: Env ensures Eval(e, env) == if Eval(r, env) == 0 then Eval(l, env) else Eval(l, env) % Eval(r, env) {
      URemSound(l, r, env);
    }
  }

  /** `CreateAnd` with a constant mask. */
  method CreateMask(l: Expr, mask: nat) returns (e: Expr)
    requires WellTyped(l) && mask < Pow2(Width(l))
    ensures WellTyped(e) && Width(e) == Width(l)
    ensures forall env: Env :: Eval(e, env) == BitAnd(Eval(l, env), mask)
    ensures Moves(e) <= Moves(l)
  {
    var c := ConstInt(Width(l), mask);
    e := MkAnd(l, c);
    AndMoves(l, c);
    forall env: Env ensures Eval(e, env) == BitAnd(Eval(l, env), mask) { AndSound(l, c, env); }
  }

  method CreateAnd(l: Expr, r: Expr) returns (e: Expr)
    requires Operands(l, r)
    ensures WellTyped(e) && Width(e) == Width(l)
    ensures Width(l) > 1 ==> forall env: Env :: Eval(e, env) == BitAnd(Eval(l, env), Eval(r, env))
    ensures Width(l) == 1 ==> forall env: Env :: Holds(e, env) <==> Holds(l, env) && Holds(r, env)
  {
    e := MkAnd(l, r);
    if Width(l) > 1 {
      forall env: Env ensures Eval(e, env) == BitAnd(Eval(l, env), Eval(r, env)) { AndSound(l, r, env); }
    } else {
      forall env: Env ensures Holds(e, env) <==> Holds(l, env) && Holds(r, env) { BoolAnd(l, r, env); }
    }
  }

  method CreateOr(l: Expr, r: Expr) returns (e: Expr)
    requires Operands(l, r)
    ensures WellTyped(e) && Width(e) == Width(l)
    ensures Width(l) > 1 ==> forall env: Env :: Eval(e, env) == BitOr(Eval(l, env), Eval(r, env))
    ensures Width(l) == 1 ==> forall env: Env :: Holds(e, env) <==> Holds(l, env) || Holds(r, env)
  {
    e := MkOr(l, r);
    if Width(l) > 1 {
      forall env: Env ensures Eval(e, env) == BitOr(Eval(l, env), Eval(r, env)) { OrSound(l, r, env); }
    } else {
      forall env: Env ensures Holds(e, env) <==> Holds(l, env) || Holds(r, env) { BoolOr(l, r, env); }
    }
  }

  method CreateXor(l: Expr, r: Expr) returns (e: Expr)
    requires Operands(l, r)
    ensures WellTyped(e) && Width(e) == Width(l)
    ensures Width(l) > 1 ==> forall env: Env :: Eval(e, env) == BitXor(Eval(l, env), Eval(r, env))
    ensures Width(l) == 1 ==> forall env: Env :: Holds(e, env) <==> Holds(l, env) != Holds(r, env)
  {
    e := MkXor(l, r);
    if Width(l) > 1 {
      forall env: Env ensures Eval(e, env) == BitXor(Eval(l, env), Eval(r, env)) { XorSound(l, r, env); }
    } else {
      forall env: Env ensures Holds(e, env) <==> Holds(l, env) != Holds(r, env) { BoolXor(l, r, env); }
    }
  }

  method CreateShl(l: Expr, r: Expr) returns (e: Expr)
    requires Operands(l, r)
    ensures WellTyped(e) && Width(e) == Width(l)
    ensures forall env: Env :: Eval(e, env) == Shl(Width(l), Eval(l, env), Eval(r, env))
    ensures r.ConstInt? ==> Moves(e) <= Moves(l) + 1
  {
    e := MkShl(l, r);
    if r.ConstInt? { ShlMoves(l, r); }
    forall env: Env ensures Eval(e, env) == Shl(Width(l), Eval(l, env), Eval(r, env)) { ShlSound(l, r, env); }
  }

  method CreateLShr(l: Expr, r: Expr) returns (e: Expr)
    requires Operands(l, r)
    ensures WellTyped(e) && Width(e) == Width(l)
    ensures forall env: Env :: Eval(e, env) == LShr(Eval(l, env), Eval(r, env))
    ensures r.ConstInt? ==> Moves(e) <= Moves(l) + 1
  {
    e := MkLShr(l, r);
    if r.ConstInt? { ShlMoves(l, r); }
    forall env: Env ensures Eval(e, env) == LShr(Eval(l, env), Eval(r, env)) { LShrSound(l, r, env); }
  }

  /** Shift by a constant below the width. */
  method CreateAShr(l: Expr, k: nat) returns (e: Expr)
    requires WellTyped(l) && k < Width(l)
    ensures WellTyped(e) && Width(e) == Width(l)
    ensures forall env: Env :: Eval(e, env) == AShr(Width(l), Eval(l, env), k)
  {
    WidthFits(Width(l));
    var c := ConstInt(Width(l), k);
    e := MkAShr(l, c);
    forall env: Env ensures Eval(e, env) == AShr(Width(l), Eval(l, env), k) {
      AShrSound(l, c, env);
    }
  }

  method CreateTruncOrZExt(w: nat, a: Expr) returns (e: Expr)
    requires WellTyped(a) && w >= 1
    ensures WellTyped(e) && Width(e) == w
    ensures forall env: Env :: Eval(e, env) == Eval(a, env) % Pow2(w)
    ensures Moves(e) <= Moves(a) + 1
  {
    e := MkTruncOrZExt(w, a);
    CastMoves(w, a);
    forall env: Env ensures Eval(e, env) == Eval(a, env) % Pow2(w) {
      if w < Width(a) { TruncSound(w, a, env); }
      else {
        Pow2Mono(Width(a), w);
        DivModUnique(Eval(a, env), Pow2(w), 0, Eval(a, env));
        ZExtSound(w, a, env);
      }
    }
  }

  method CreateZExt(w: nat, a: Expr) returns (e: Expr)
    requires WellTyped(a) && w >= Width(a)
    ensures WellTyped(e) && Width(e) == w
    ensures forall env: Env :: Eval(e, env) == Eval(a, env)
  {
    e := MkZExt(w, a);
    forall env: Env ensures Eval(e, env) == Eval(a, env) { ZExtSound(w, a, env); }
  }

  method CreateSExt(w: nat, a: Expr) returns (e: Expr)
    requires WellTyped(a) && w >= Width(a)
    ensures WellTyped(e) && Width(e) == w
    ensures forall env: Env :: Eval(e, env) == SExtValue(Width(a), w, Eval(a, env))
    ensures forall env: Env :: Signed(w, Eval(e, env)) == Signed(Width(a), Eval(a, env))
  {
    e := MkSExt(w, a);
    forall env: Env ensures Eval(e, env) == SExtValue(Width(a), w, Eval(a, env)) { SExtSound(w, a, env); }
    forall env: Env ensures Signed(w, Eval(e, env)) == Signed(Width(a), Eval(a, env)) {
      SExtKeepsValue(Width(a), w, Eval(a, env));
    }
  }

  method CreateICmp(c: Cmp, l: Expr, r: Expr) returns (e: Expr)
    requires Operands(l, r)
    ensures IsBool(e)
    ensures forall env: Env ::
      var n, a, b := Width(l), Eval(l, env), Eval(r, env);
      Holds(e, env) <==>
        match c
        case EQ => a == b
        case NE => a != b
        case UGT => a > b
        case UGE => a >= b
        case ULT => a < b
        case ULE => a <= b
        case SGT => Signed(n, a) > Signed(n, b)
        case SGE => Signed(n, a) >= Signed(n, b)
        case SLT => Signed(n, a) < Signed(n, b)
        case SLE => Signed(n, a) <= Signed(n, b)
  {
    e := MkICmp(c, l, r);
    forall env: Env ensures Holds(e, env) <==> CmpHolds(c, Width(l), Eval(l, env), Eval(r, env)) {
      ICmpSound(c, l, r, env);
    }
  }

  /** `extract_bit`. */
  method ExtractBit(e: Expr, bit: nat) returns (r: Expr)
    requires WellTyped(e) && bit < Width(e)
    ensures IsBool(r)
    ensures forall env: Env :: Holds(r, env) <==> Bit(Eval(e, env), bit)
  {
    WidthFits(Width(e));
    var c := ConstInt(Width(e), bit);
    r := MkTrunc(1, MkLShr(e, c));
    forall env: Env ensures Holds(r, env) <==> Bit(Eval(e, env), bit) {
      LShrSound(e, c, env);
      TruncSound(1, MkLShr(e, c), env);
      BitOfLShr(Eval(e, env), bit, 0);
      assert Pow2(1) == 2;
    }
  }
}
