/**
 Fixed-width integers as natural numbers with a bit function.

 A value of width n is a nat below Pow2(n).  The operators are defined by arithmetic, the way
 APInt and the solver's bit-vector theory give them meaning; `Bit` gives the same values bit by
 bit, and `BitExt` turns equality of values into equality of bits.  Every law below holds at every
 width and for every shift amount.
 */
module Bits {

  function Pow2(n: nat): (p: nat)
    ensures p >= 1
  {
    if n == 0 then 1 else 2 * Pow2(n - 1)
  }

  /** Bit i of a, least significant first. */
  predicate Bit(a: nat, i: nat)
    decreases i
  {
    if i == 0 then a % 2 == 1 else Bit(a / 2, i - 1)
  }

  function ToNat(b: bool): (n: nat)
    ensures n < 2
    ensures b <==> n == 1
  {
    if b then 1 else 0
  }

  function BitAnd(a: nat, b: nat): nat {
    if a == 0 || b == 0 then 0
    else 2 * BitAnd(a / 2, b / 2) + ToNat(a % 2 == 1 && b % 2 == 1)
  }

  function BitOr(a: nat, b: nat): nat {
    if a == 0 then b else if b == 0 then a
    else 2 * BitOr(a / 2, b / 2) + ToNat(a % 2 == 1 || b % 2 == 1)
  }

  function BitXor(a: nat, b: nat): nat {
    if a == 0 then b else if b == 0 then a
    else 2 * BitXor(a / 2, b / 2) + ToNat((a % 2 == 1) != (b % 2 == 1))
  }

  /** One's complement at width n. */
  function BitNot(n: nat, a: nat): (r: nat)
    requires a < Pow2(n)
    ensures r < Pow2(n)
  {
    Pow2(n) - 1 - a
  }

  /** The two's complement reading of a at width n. */
  function Signed(n: nat, a: nat): (r: int)
    requires n >= 1 && a < Pow2(n)
    ensures 0 - Pow2(n - 1) <= r < Pow2(n - 1)
  {
    if a < Pow2(n - 1) then a else a - Pow2(n)
  }

  /** The width-n encoding of an integer that fits. */
  function Unsigned(n: nat, x: int): (r: nat)
    ensures r < Pow2(n)
  {
    x % Pow2(n)
  }

  // Shifts take any amount: a shift by the width or more gives 0 (or all sign bits).

  function Shl(n: nat, a: nat, s: nat): (r: nat)
    ensures r < Pow2(n)
  {
    if s >= n then 0 else (a * Pow2(s)) % Pow2(n)
  }

  function LShr(a: nat, s: nat): (r: nat)
  {
    DivNat(a, Pow2(s));
    a / Pow2(s)
  }

  lemma DivNat(a: nat, d: nat)
    requires d > 0
    ensures a / d >= 0
  {}

  function AShr(n: nat, a: nat, s: nat): (r: nat)
    requires n >= 1 && a < Pow2(n)
    ensures r < Pow2(n)
  {
    if a < Pow2(n - 1) then
      LShrBound(a, s, n);
      LShr(a, s)
    else
      LShrBound(BitNot(n, a), s, n);
      BitNot(n, LShr(BitNot(n, a), s))
  }

  /** All ones at width n. */
  function Ones(n: nat): (r: nat)
    ensures r < Pow2(n)
  {
    Pow2(n) - 1
  }

  // ----- arithmetic of powers of two -----

  lemma {:induction false} Pow2Add(m: nat, n: nat)
    ensures Pow2(m + n) == Pow2(m) * Pow2(n)
  {
    if m > 0 {
      Pow2Add(m - 1, n);
      assert Pow2(m + n) == 2 * Pow2(m - 1 + n);
      assert 2 * (Pow2(m - 1) * Pow2(n)) == (2 * Pow2(m - 1)) * Pow2(n);
    }
  }

  lemma {:induction false} Pow2Mono(m: nat, n: nat)
    requires m <= n
    ensures Pow2(m) <= Pow2(n)
    decreases n
  {
    if m < n { Pow2Mono(m, n - 1); }
  }

  lemma {:induction false} Pow2StrictMono(m: nat, n: nat)
    requires m < n
    ensures Pow2(m) < Pow2(n)
  {
    Pow2Mono(m + 1, n);
  }

  lemma {:induction false} WidthFits(n: nat)
    ensures n < Pow2(n)
  {
    if n > 0 { WidthFits(n - 1); }
  }

  lemma MulSmall(k: int, d: int)
    requires d > 0 && -d < k * d < d
    ensures k == 0
  {
    if k >= 1 { MulLower(k, d); } else if k <= -1 { MulLower(-k, d); }
  }

  lemma MulLower(k: int, d: int)
    requires k >= 1 && d >= 0
    ensures k * d >= d
  {
    assert k * d == (k - 1) * d + d;
    assert (k - 1) * d >= 0;
  }

  /** Quotients and remainders are determined by the division equation. */
  lemma DivModUnique(a: int, d: int, q: int, r: int)
    requires d > 0 && a == q * d + r && 0 <= r < d
    ensures a / d == q && a % d == r
  {
    var q', r' := a / d, a % d;
    assert a == q' * d + r';
    assert (q - q') * d == r' - r;
    MulSmall(q - q', d);
  }

  lemma MulMono(a: nat, b: nat, c: nat, d: nat)
    requires a <= c && b <= d
    ensures a * b <= c * d
  {
    assert a * b <= c * b;
    assert c * b <= c * d;
  }

  lemma LShrBound(a: nat, s: nat, n: nat)
    requires a < Pow2(n)
    ensures LShr(a, s) <= a < Pow2(n)
  {
    var d := Pow2(s);
    var q := a / d;
    assert a == d * q + a % d;
    if q >= 1 { MulLower(d, q); }
  }

  lemma LShrZero(a: nat, s: nat, n: nat)
    requires a < Pow2(n) && s >= n
    ensures LShr(a, s) == 0
  {
    Pow2Mono(n, s);
    DivModUnique(a, Pow2(s), 0, a);
  }

  // ----- one step of each operator -----

  lemma LShrStep(a: nat, s: nat)
    requires s > 0
    ensures LShr(a, s) == LShr(a / 2, s - 1)
  {
    var d := Pow2(s - 1);
    var q, r := (a / 2) / d, (a / 2) % d;
    assert a / 2 == q * d + r;
    assert a == 2 * (q * d + r) + a % 2;
    assert 2 * (q * d + r) == q * (2 * d) + 2 * r;
    DivModUnique(a, Pow2(s), q, 2 * r + a % 2);
  }

  lemma ModStep(a: nat, n: nat)
    requires n > 0
    ensures a % Pow2(n) == 2 * ((a / 2) % Pow2(n - 1)) + a % 2
    ensures (a % Pow2(n)) / 2 == (a / 2) % Pow2(n - 1)
  {
    var d := Pow2(n - 1);
    var q, r := (a / 2) / d, (a / 2) % d;
    assert a / 2 == q * d + r;
    assert a == 2 * (q * d + r) + a % 2;
    assert 2 * (q * d + r) == q * (2 * d) + 2 * r;
    DivModUnique(a, Pow2(n), q, 2 * r + a % 2);
  }

  // ----- the bits of each operator -----

  lemma {:induction false} BitOfZero(i: nat)
    ensures !Bit(0, i)
  {
    if i > 0 { BitOfZero(i - 1); }
  }

  lemma {:induction false} BitAboveWidth(a: nat, n: nat, i: nat)
    requires a < Pow2(n) && i >= n
    ensures !Bit(a, i)
    decreases n
  {
    if n == 0 { BitOfZero(i); } else { BitAboveWidth(a / 2, n - 1, i - 1); }
  }

  lemma {:induction false} BitOfAnd(a: nat, b: nat, i: nat)
    ensures Bit(BitAnd(a, b), i) <==> Bit(a, i) && Bit(b, i)
    decreases i
  {
    if a == 0 || b == 0 { BitOfZero(i); }
    else if i > 0 { BitOfAnd(a / 2, b / 2, i - 1); }
  }

  lemma {:induction false} BitOfOr(a: nat, b: nat, i: nat)
    ensures Bit(BitOr(a, b), i) <==> Bit(a, i) || Bit(b, i)
    decreases i
  {
    if a == 0 || b == 0 { BitOfZero(i); }
    else if i > 0 { BitOfOr(a / 2, b / 2, i - 1); }
  }

  lemma {:induction false} BitOfXor(a: nat, b: nat, i: nat)
    ensures Bit(BitXor(a, b), i) <==> Bit(a, i) != Bit(b, i)
    decreases i
  {
    if a == 0 || b == 0 { BitOfZero(i); }
    else if i > 0 { BitOfXor(a / 2, b / 2, i - 1); }
  }

  lemma {:induction false} BitOfNot(n: nat, a: nat, i: nat)
    requires a < Pow2(n)
    ensures Bit(BitNot(n, a), i) <==> i < n && !Bit(a, i)
    decreases n
  {
    if n == 0 { BitOfZero(i); }
    else if i > 0 {
      assert BitNot(n, a) / 2 == BitNot(n - 1, a / 2);
      BitOfNot(n - 1, a / 2, i - 1);
    }
  }

  lemma {:induction false} BitOfLShr(a: nat, s: nat, i: nat)
    ensures Bit(LShr(a, s), i) <==> Bit(a, i + s)
    decreases s
  {
    if s == 0 { assert LShr(a, 0) == a; }
    else { LShrStep(a, s); BitOfLShr(a / 2, s - 1, i); }
  }

  lemma {:induction false} BitOfMod(a: nat, n: nat, i: nat)
    ensures Bit(a % Pow2(n), i) <==> i < n && Bit(a, i)
    decreases n
  {
    if n == 0 { BitOfZero(i); }
    else {
      ModStep(a, n);
      if i > 0 { BitOfMod(a / 2, n - 1, i - 1); }
    }
  }

  lemma {:induction false} BitOfScaled(a: nat, s: nat, i: nat)
    ensures Bit(a * Pow2(s), i) <==> i >= s && Bit(a, i - s)
    decreases s
  {
    if s > 0 {
      var h := a * Pow2(s - 1);
      assert a * Pow2(s) == 2 * h by { assert a * (2 * Pow2(s - 1)) == 2 * (a * Pow2(s - 1)); }
      if i > 0 { BitOfScaled(a, s - 1, i - 1); }
    }
  }

  lemma BitOfShl(n: nat, a: nat, s: nat, i: nat)
    ensures Bit(Shl(n, a, s), i) <==> s <= i < n && Bit(a, i - s)
  {
    if s >= n { BitOfZero(i); }
    else { BitOfMod(a * Pow2(s), n, i); BitOfScaled(a, s, i); }
  }

  lemma BitOfOnes(n: nat, i: nat)
    ensures Bit(Ones(n), i) <==> i < n
  {
    BitOfNot(n, 0, i);
    BitOfZero(i);
  }

  lemma {:induction false} BitOfTop(n: nat, a: nat)
    requires n >= 1 && a < Pow2(n)
    ensures Bit(a, n - 1) <==> a >= Pow2(n - 1)
    decreases n
  {
    if n > 1 { BitOfTop(n - 1, a / 2); }
  }

  /** The sign bit fills the vacated positions of an arithmetic shift. */
  lemma BitOfAShr(n: nat, a: nat, s: nat, i: nat)
    requires n >= 1 && a < Pow2(n)
    ensures Bit(AShr(n, a, s), i) <==> i < n && (if i + s < n then Bit(a, i + s) else Bit(a, n - 1))
  {
    BitOfTop(n, a);
    if a < Pow2(n - 1) {
      LShrBound(a, s, n);
      BitOfLShr(a, s, i);
      if i + s >= n { BitAboveWidth(a, n, i + s); }
      if i >= n { BitAboveWidth(LShr(a, s), n, i); }
    } else {
      var c := BitNot(n, a);
      LShrBound(c, s, n);
      BitOfNot(n, LShr(c, s), i);
      BitOfLShr(c, s, i);
      BitOfNot(n, a, i + s);
    }
  }

  /** Values of the same width with the same bits are equal. */
  lemma {:induction false} BitExt(n: nat, a: nat, b: nat)
    requires a < Pow2(n) && b < Pow2(n)
    requires forall i: nat :: i < n ==> Bit(a, i) == Bit(b, i)
    ensures a == b
  {
    if n > 0 {
      forall i: nat | i < n - 1 ensures Bit(a / 2, i) == Bit(b / 2, i) {
        assert Bit(a, i + 1) == Bit(b, i + 1);
      }
      BitExt(n - 1, a / 2, b / 2);
      assert Bit(a, 0) == Bit(b, 0);
    }
  }

  lemma {:induction false} AndBound(a: nat, b: nat)
    ensures BitAnd(a, b) <= a && BitAnd(a, b) <= b
  {
    if a != 0 && b != 0 { AndBound(a / 2, b / 2); }
  }

  lemma {:induction false} OrBound(n: nat, a: nat, b: nat)
    requires a < Pow2(n) && b < Pow2(n)
    ensures BitOr(a, b) < Pow2(n)
  {
    if n > 0 { OrBound(n - 1, a / 2, b / 2); }
  }

  lemma {:induction false} XorBound(n: nat, a: nat, b: nat)
    requires a < Pow2(n) && b < Pow2(n)
    ensures BitXor(a, b) < Pow2(n)
  {
    if n > 0 { XorBound(n - 1, a / 2, b / 2); }
  }

  // ----- values from bits -----

  lemma {:induction false} BitSetBound(a: nat, i: nat)
    requires Bit(a, i)
    ensures a >= Pow2(i)
    decreases i
  {
    if i > 0 { BitSetBound(a / 2, i - 1); }
  }

  /** The highest bit of a non-zero value brackets it between two powers of two. */
  lemma {:induction false} TopBit(a: nat, n: nat) returns (p: nat)
    requires 0 < a < Pow2(n)
    ensures p < n && Bit(a, p) && Pow2(p) <= a < Pow2(p + 1)
    decreases n
  {
    if a < Pow2(n - 1) { p := TopBit(a, n - 1); }
    else { p := n - 1; BitOfTop(n, a); }
  }
}
