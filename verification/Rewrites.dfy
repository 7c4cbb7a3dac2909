/**
 The integer e-graph rewrite rules: shift elimination and zext/trunc elimination
 (src/IR/EMatching/Rewrites).  Each rule's replacement has the value of the matched expression, so
 the merge it requests joins classes of equal value, for every width and every shift amount.
 */
module Rewrites {
  import opened Bits
  import opened Exprs
  import opened Simplifier
  import opened SimplifierSound
  import opened Builder

  /** All ones, shifted right by r and then left by l. */
  function ShiftMask(n: nat, r: nat, l: nat): (m: nat)
    ensures m < Pow2(n)
  {
    Shl(n, LShr(Ones(n), r), l)
  }

  lemma BitOfShiftMask(n: nat, r: nat, l: nat, i: nat)
    ensures Bit(ShiftMask(n, r, l), i) <==> l <= i < n && i - l + r < n
  {
    BitOfShl(n, LShr(Ones(n), r), l, i);
    if i >= l { BitOfLShr(Ones(n), r, i - l); BitOfOnes(n, i - l + r); }
  }

  /** Bit i of (x >> r) << l. */
  lemma BitOfShlLShr(n: nat, x: nat, r: nat, l: nat, i: nat)
    requires x < Pow2(n)
    ensures Bit(Shl(n, LShr(x, r), l), i) <==> l <= i < n && Bit(x, i - l + r)
  {
    BitOfShl(n, LShr(x, r), l, i);
    if i >= l { BitOfLShr(x, r, i - l); }
  }

  /** The value `lshr_elim` masks: x moved by the difference of the shifts. */
  function Moved(n: nat, x: nat, r: nat, l: nat): (v: nat)
    requires x < Pow2(n)
    ensures v < Pow2(n)
  {
    if r == l then x
    else if r < l then Shl(n, x, l - r)
    else LShrBound(x, r - l, n); LShr(x, r - l)
  }

  lemma ShiftsAsMask(n: nat, x: nat, r: nat, l: nat)
    requires x < Pow2(n)
    ensures Shl(n, LShr(x, r), l) == BitAnd(Moved(n, x, r, l), ShiftMask(n, r, l))
  {
    var a, v, m := Shl(n, LShr(x, r), l), Moved(n, x, r, l), ShiftMask(n, r, l);
    AndBound(v, m);
    forall i: nat | i < n ensures Bit(a, i) == Bit(BitAnd(v, m), i) {
      BitOfShlLShr(n, x, r, l, i);
      BitOfAnd(v, m, i);
      BitOfShiftMask(n, r, l, i);
      if l <= i {
        if i - l + r >= n { BitAboveWidth(x, n, i - l + r); }
        if r < l { BitOfShl(n, x, l - r, i); } else { BitOfLShr(x, r - l, i); }
      }
    }
    BitExt(n, a, BitAnd(v, m));
  }

  /** `lshr_elim`: the replacement has the value of (shl (lshr x r) l), shifts at or beyond the width included. */
  method LShrElim(x: Expr, r: nat, l: nat) returns (e: Expr)
    requires WellTyped(x) && r < Pow2(Width(x)) && l < Pow2(Width(x))
    ensures WellTyped(e) && Width(e) == Width(x)
    ensures forall env: Env :: Eval(e, env) == Shl(Width(x), LShr(Eval(x, env), r), l)
    ensures Moves(e) <= Moves(x) + 1
  {
    var n := Width(x);
    var moved := x;
    if r < l {
      var c := CreateConst(n, l - r);
      moved := CreateShl(x, c);
    } else if r > l {
      var c := CreateConst(n, r - l);
      moved := CreateLShr(x, c);
    }
    e := CreateMask(moved, ShiftMask(n, r, l));
    forall env: Env ensures Eval(e, env) == Shl(n, LShr(Eval(x, env), r), l) {
      ShiftsAsMask(n, Eval(x, env), r, l);
    }
  }

  lemma ModOfMod(x: nat, z: nat, t: nat)
    requires t <= z
    ensures (x % Pow2(z)) % Pow2(t) == x % Pow2(t)
  {
    Pow2Mono(t, z);
    forall i: nat | i < t ensures Bit((x % Pow2(z)) % Pow2(t), i) == Bit(x % Pow2(t), i) {
      BitOfMod(x % Pow2(z), t, i); BitOfMod(x, z, i); BitOfMod(x, t, i);
    }
    BitExt(t, (x % Pow2(z)) % Pow2(t), x % Pow2(t));
  }

  /** `zext_trunc_elimination`: the replacement has the value of (zext.z (trunc.t x)). */
  method ZExtTruncElim(z: nat, t: nat, x: Expr) returns (e: Expr)
    requires WellTyped(ZExt(z, Trunc(t, x)))
    ensures WellTyped(e) && Width(e) == z
    ensures forall env: Env :: Eval(e, env) == Eval(ZExt(z, Trunc(t, x)), env)
    ensures Moves(e) < Moves(ZExt(z, Trunc(t, x)))
  {
    assert WellTyped(Trunc(t, x));
    var wide := CreateTruncOrZExt(z, x);
    e := CreateMask(wide, LowMask(z, t));
    forall env: Env ensures Eval(e, env) == Eval(ZExt(z, Trunc(t, x)), env) {
      ModIsMask(z, Eval(x, env) % Pow2(z), t);
      ModOfMod(Eval(x, env), z, t);
    }
  }

  /** `trunc_zext_elimination`: the replacement has the value of (trunc.t (zext.z x)). */
  method TruncZExtElim(t: nat, z: nat, x: Expr) returns (e: Expr)
    requires WellTyped(Trunc(t, ZExt(z, x)))
    ensures WellTyped(e) && Width(e) == t
    ensures forall env: Env :: Eval(e, env) == Eval(Trunc(t, ZExt(z, x)), env)
    ensures Moves(e) < Moves(Trunc(t, ZExt(z, x)))
  {
    assert WellTyped(ZExt(z, x));
    e := CreateTruncOrZExt(t, x);
  }
}
