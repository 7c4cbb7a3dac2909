/**
 What the operators of the expression language mean, stated without their definitions: comparisons as
 orders on the plain and the two's complement readings, sign extension and arithmetic shifts as
 arithmetic on signed values, and the operators bit by bit.  All laws hold at every width.
 */
module Meanings {
  import opened Bits
  import opened Exprs

  // ----- two's complement -----

  /** The signed reading is the one number of the signed range that is a modulo 2^n. */
  lemma SignedIs(n: nat, a: nat, s: int)
    requires n >= 1 && a < Pow2(n) && 0 - Pow2(n - 1) <= s < Pow2(n - 1)
    ensures s == Signed(n, a) <==> s % Pow2(n) == a
    ensures Unsigned(n, s) == a <==> s == Signed(n, a)
  {
    assert Pow2(n) == 2 * Pow2(n - 1);
    if s >= 0 { DivModUnique(s, Pow2(n), 0, s); } else { DivModUnique(s, Pow2(n), -1, s + Pow2(n)); }
  }

  /** Flipping the top bit adds half the range, modulo the range. */
  lemma {:induction false} FlipTop(n: nat, a: nat)
    requires n >= 1 && a < Pow2(n)
    ensures BitXor(a, Pow2(n - 1)) == if a < Pow2(n - 1) then a + Pow2(n - 1) else a - Pow2(n - 1)
    decreases n
  {
    if n == 1 {
      assert BitXor(1, 1) == 0;
    } else if a != 0 {
      FlipTop(n - 1, a / 2);
      assert Pow2(n - 1) / 2 == Pow2(n - 2) && Pow2(n - 1) % 2 == 0;
      assert BitXor(a, Pow2(n - 1)) == 2 * BitXor(a / 2, Pow2(n - 2)) + a % 2;
    }
  }

  // ----- comparisons -----

  /** The signed order is the unsigned order of the values with their top bits flipped. */
  lemma SignedOrder(n: nat, a: nat, b: nat)
    requires n >= 1 && a < Pow2(n) && b < Pow2(n)
    ensures BitXor(a, Pow2(n - 1)) < Pow2(n) && BitXor(b, Pow2(n - 1)) < Pow2(n)
    ensures CmpHolds(SLT, n, a, b) <==> CmpHolds(ULT, n, BitXor(a, Pow2(n - 1)), BitXor(b, Pow2(n - 1)))
  {
    FlipTop(n, a);
    FlipTop(n, b);
  }

  /** The ten comparisons in terms of equality and the two strict orders. */
  lemma Comparisons(n: nat, a: nat, b: nat)
    requires n >= 1 && a < Pow2(n) && b < Pow2(n)
    ensures CmpHolds(EQ, n, a, b) <==> a == b
    ensures CmpHolds(NE, n, a, b) <==> a != b
    ensures CmpHolds(ULT, n, a, b) <==> a < b
    ensures CmpHolds(ULE, n, a, b) <==> CmpHolds(ULT, n, a, b) || CmpHolds(EQ, n, a, b)
    ensures CmpHolds(UGE, n, a, b) <==> !CmpHolds(ULT, n, a, b)
    ensures CmpHolds(UGT, n, a, b) <==> CmpHolds(ULT, n, b, a)
    ensures CmpHolds(SLT, n, a, b) <==> Signed(n, a) < Signed(n, b)
    ensures CmpHolds(SLE, n, a, b) <==> CmpHolds(SLT, n, a, b) || CmpHolds(EQ, n, a, b)
    ensures CmpHolds(SGE, n, a, b) <==> !CmpHolds(SLT, n, a, b)
    ensures CmpHolds(SGT, n, a, b) <==> CmpHolds(SLT, n, b, a)
  {
    SignedIs(n, a, Signed(n, a));
    SignedIs(n, b, Signed(n, b));
  }

  /** Below the sign bit the two orders agree, and a value with the sign bit is below one without it. */
  lemma SignDecides(n: nat, a: nat, b: nat)
    requires n >= 1 && a < Pow2(n) && b < Pow2(n)
    ensures Bit(a, n - 1) == Bit(b, n - 1) ==> (CmpHolds(SLT, n, a, b) <==> CmpHolds(ULT, n, a, b))
    ensures Bit(a, n - 1) && !Bit(b, n - 1) ==> CmpHolds(SLT, n, a, b) && CmpHolds(ULT, n, b, a)
  {
    BitOfTop(n, a);
    BitOfTop(n, b);
  }

  // ----- extensions -----

  /** Sign extension keeps the signed value, and truncation undoes it. */
  lemma SExtKeepsValue(m: nat, n: nat, a: nat)
    requires 1 <= m <= n && a < Pow2(m)
    ensures Signed(n, SExtValue(m, n, a)) == Signed(m, a)
    ensures SExtValue(m, n, a) % Pow2(m) == a
  {
    Pow2Mono(m - 1, n - 1);
    if a < Pow2(m - 1) {
      DivModUnique(a, Pow2(m), 0, a);
    } else {
      HighPart(m, n, a);
    }
  }

  lemma HighPart(m: nat, n: nat, a: nat)
    requires 1 <= m <= n && a < Pow2(m)
    ensures (a + Pow2(n) - Pow2(m)) % Pow2(m) == a
  {
    Pow2Add(n - m, m);
    LessOneMultiple(Pow2(n - m), Pow2(m), a);
  }

  lemma LessOneMultiple(k: int, d: int, a: int)
    requires 0 <= a < d
    ensures (a + k * d - d) % d == a
  {
    assert (k - 1) * d == k * d - d;
    DivModUnique(a + k * d - d, d, k - 1, a);
  }

  /** The sign bit fills the new positions. */
  lemma BitOfSExt(m: nat, n: nat, a: nat, i: nat)
    requires 1 <= m <= n && a < Pow2(m)
    ensures Bit(SExtValue(m, n, a), i) <==> i < n && (if i < m then Bit(a, i) else Bit(a, m - 1))
  {
    var r := SExtValue(m, n, a);
    BitOfTop(m, a);
    if i >= n {
      BitAboveWidth(r, n, i);
    } else if i < m {
      SExtKeepsValue(m, n, a);
      BitOfMod(r, m, i);
    } else if a < Pow2(m - 1) {
      BitAboveWidth(a, m, i);
    } else {
      NegativeTop(m, n, a, i);
    }
  }

  /** The complement of a negative value's extension is below 2^m, so its bits from m on are clear. */
  lemma NegativeTop(m: nat, n: nat, a: nat, i: nat)
    requires 1 <= m <= i < n && Pow2(m - 1) <= a < Pow2(m)
    ensures Bit(SExtValue(m, n, a), i)
  {
    var r := SExtValue(m, n, a);
    assert BitNot(n, r) == Pow2(m) - 1 - a;
    BitOfNot(n, r, i);
    BitAboveWidth(BitNot(n, r), m, i);
  }

  // ----- shifts and remainders -----

  /** An arithmetic right shift divides the signed value, rounding down. */
  lemma AShrDivides(n: nat, a: nat, s: nat)
    requires n >= 1 && a < Pow2(n)
    ensures Signed(n, AShr(n, a, s)) == Signed(n, a) / Pow2(s)
  {
    if a < Pow2(n - 1) {
      LShrBound(a, s, n - 1);
    } else {
      AShrNegative(n, a, s);
    }
  }

  lemma AShrNegative(n: nat, a: nat, s: nat)
    requires n >= 1 && Pow2(n - 1) <= a < Pow2(n)
    ensures Signed(n, AShr(n, a, s)) == Signed(n, a) / Pow2(s)
  {
    var c := BitNot(n, a);
    LShrBound(c, s, n - 1);
    assert Signed(n, a) + c == -1 && AShr(n, a, s) == Pow2(n) - 1 - LShr(c, s);
    NegativeQuotient(c, Pow2(s));
  }

  lemma NegativeQuotient(c: int, d: int)
    requires d > 0
    ensures (-1 - c) / d == -1 - c / d
  {
    var q, r := c / d, c % d;
    assert c == q * d + r;
    assert (-1 - q) * d == -d - q * d;
    DivModUnique(-1 - c, d, -1 - q, d - 1 - r);
  }

  /** The remainder is below the divisor and differs from the dividend by a multiple of it; modulo 0 it is the dividend. */
  lemma URemMeans(n: nat, a: nat, b: nat)
    requires n >= 1 && a < Pow2(n) && b < Pow2(n)
    ensures var r := BinValue(URem, n, a, b); if b == 0 then r == a else r < b && exists q: nat :: a == q * b + r
  {
    if b != 0 {
      DivNat(a, b);
      assert a == (a / b) * b + a % b;
    }
  }

  /** Subtraction undoes addition. */
  lemma SubUndoesAdd(n: nat, a: nat, b: nat)
    requires n >= 1 && a < Pow2(n) && b < Pow2(n)
    ensures BinValue(Sub, n, BinValue(Add, n, a, b), b) == a
  {
    var p := Pow2(n);
    if a + b < p {
      DivModUnique(a + b, p, 0, a + b);
      DivModUnique(a, p, 0, a);
    } else {
      DivModUnique(a + b, p, 1, a + b - p);
      DivModUnique(a - p, p, -1, a);
    }
  }

  // ----- select -----

  /** Selecting the smaller by a comparison gives the minimum, in either order. */
  lemma SelectOfOrder(c: Cmp, l: Expr, r: Expr, env: Env)
    requires WellTyped(l) && WellTyped(r) && Width(l) == Width(r) && (c == ULT || c == SLT)
    ensures WellTyped(Select(ICmp(c, l, r), l, r))
    ensures var a, b, v := Eval(l, env), Eval(r, env), Eval(Select(ICmp(c, l, r), l, r), env);
      && (v == a || v == b)
      && (if c == ULT then v <= a && v <= b
          else Signed(Width(l), v) <= Signed(Width(l), a) && Signed(Width(l), v) <= Signed(Width(l), b))
  {}
}
