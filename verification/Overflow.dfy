/**
 The multiplication-overflow circuits of src/IR/Operation.cpp, after Schulte et al., "Combined
 unsigned and two's complement saturating multipliers" (2000).

 Each circuit ORs together bit pairs whose weights already reach the limit, and multiplies in only
 one extra bit for the rest.  The theorems range over every width and all operands.
 */
module Overflow {
  import opened Bits
  import opened Exprs
  import opened Simplifier
  import opened Builder

  // ----- what the loops compute -----

  /** Some bit of x at position lo or above is set. */
  ghost predicate High(x: nat, lo: nat, m: nat) {
    exists p :: lo <= p < m && Bit(x, p)
  }

  /** Some bit of x and some bit of y below k have weights that multiply to 2^m or more. */
  ghost predicate Cross(x: nat, y: nat, m: nat, k: nat) {
    exists q :: 0 <= q < k && Bit(y, q) && q <= m && High(x, m - q, m)
  }

  lemma HighStep(x: nat, lo: nat, m: nat)
    requires lo < m
    ensures High(x, lo, m) <==> High(x, lo + 1, m) || Bit(x, lo)
  {}

  lemma CrossStep(x: nat, y: nat, m: nat, k: nat)
    requires k <= m
    ensures Cross(x, y, m, k + 1) <==> Cross(x, y, m, k) || (High(x, m - k, m) && Bit(y, k))
  {}

  lemma CrossStart(x: nat, y: nat, m: nat)
    requires m >= 1
    ensures Cross(x, y, m, 2) <==> Bit(x, m - 1) && Bit(y, 1)
    ensures High(x, m - 1, m) <==> Bit(x, m - 1)
  {
    assert !High(x, m, m);
    CrossStep(x, y, m, 0);
    CrossStep(x, y, m, 1);
    HighStep(x, m - 1, m);
  }

  /** A crossing pair forces the product up to 2^m. */
  lemma CrossLower(x: nat, y: nat, m: nat, k: nat)
    requires Cross(x, y, m, k)
    ensures x * y >= Pow2(m)
  {
    var q :| 0 <= q < k && Bit(y, q) && q <= m && High(x, m - q, m);
    var p :| m - q <= p < m && Bit(x, p);
    BitSetBound(x, p);
    BitSetBound(y, q);
    Pow2Mono(m - q, p);
    Pow2Add(m - q, q);
    MulMono(Pow2(m - q), Pow2(q), x, y);
  }

  lemma PairCrosses(x: nat, y: nat, m: nat, k: nat, p: nat, q: nat)
    requires p < m && q < m <= k && Bit(x, p) && Bit(y, q) && p + q >= m
    ensures Cross(x, y, m, k)
  {
    assert High(x, m - q, m);
  }

  /** Without a crossing pair the product stays within one extra bit. */
  lemma NoCrossUpper(x: nat, y: nat, m: nat, k: nat)
    requires x < Pow2(m) && y < Pow2(m) && k >= m && !Cross(x, y, m, k)
    ensures (x + 1) * (y + 1) <= Pow2(m + 1)
  {
    if x == 0 || y == 0 {
      assert (x + 1) * (y + 1) <= Pow2(m);
    } else {
      var p := TopBit(x, m);
      var q := TopBit(y, m);
      if p + q >= m { PairCrosses(x, y, m, k, p, q); }
      MulMono(x + 1, y + 1, Pow2(p + 1), Pow2(q + 1));
      Pow2Add(p + 1, q + 1);
      Pow2Mono(p + 1 + (q + 1), m + 1);
    }
  }

  // ----- unsigned -----

  lemma UnsignedCircuit(n: nat, x: nat, y: nat)
    requires n >= 2 && x < Pow2(n) && y < Pow2(n)
    ensures (Cross(x, y, n, n) || Bit((x * y) % Pow2(n + 1), n)) <==> x * y >= Pow2(n)
  {
    if Cross(x, y, n, n) {
      CrossLower(x, y, n, n);
    } else {
      NoCrossUpper(x, y, n, n);
      assert (x + 1) * (y + 1) == x * y + x + y + 1;
      DivModUnique(x * y, Pow2(n + 1), 0, x * y);
      BitOfTop(n + 1, x * y);
    }
  }

  /** `BinaryOp::CreateUMulOverflow`: set exactly when the product does not fit. */
  method CreateUMulOverflow(a: Expr, b: Expr) returns (r: Expr)
    requires Operands(a, b)
    ensures IsBool(r)
    ensures forall env: Env :: Holds(r, env) <==> Eval(a, env) * Eval(b, env) >= Pow2(Width(a))
  {
    if Width(a) < 2 {
      r := CreateBool(false);
      forall env: Env ensures Eval(a, env) * Eval(b, env) < Pow2(Width(a)) { OneBitProduct(Eval(a, env), Eval(b, env)); }
    } else {
      var v := CreateCross(a, b, Width(a));
      r := OrExtendedProduct(a, b, v);
    }
  }

  /** How far the loop has counted when it stops. */
  function Top(m: nat): nat { if m < 2 then 2 else m }

  /**
   The loop of both circuits, over the low m bits: `o` collects the high bits of x from the top
   down and `v` pairs them with the bits of y from the bottom up.
   */
  method CreateCross(x: Expr, y: Expr, m: nat) returns (v: Expr)
    requires Operands(x, y) && 1 <= m <= Width(x) && Width(x) >= 2
    ensures IsBool(v)
    ensures forall env: Env :: Holds(v, env) <==> Cross(Eval(x, env), Eval(y, env), m, Top(m))
  {
    var o;
    o, v := CrossInit(x, y, m);
    var i := 2;
    while i < m
      invariant 2 <= i <= Top(m) && MeansCross(v, x, y, m, i)
      invariant IsBool(o) && (i <= m ==> MeansHigh(o, x, m - i + 1, m))
    {
      o, v := CircuitStep(x, y, m, i, m - i, o, v);
      i := i + 1;
    }
  }

  /** o is set exactly when x has a bit from position lo on. */
  ghost predicate MeansHigh(o: Expr, x: Expr, lo: nat, m: nat)
    requires WellTyped(x)
  {
    IsBool(o) && forall env: Env :: Holds(o, env) <==> High(Eval(x, env), lo, m)
  }

  /** v is set exactly when x and the low k bits of y have a crossing pair. */
  ghost predicate MeansCross(v: Expr, x: Expr, y: Expr, m: nat, k: nat)
    requires WellTyped(x) && WellTyped(y)
  {
    IsBool(v) && forall env: Env :: Holds(v, env) <==> Cross(Eval(x, env), Eval(y, env), m, k)
  }

  method CrossInit(x: Expr, y: Expr, m: nat) returns (o: Expr, v: Expr)
    requires Operands(x, y) && 1 <= m <= Width(x) && Width(x) >= 2
    ensures MeansHigh(o, x, m - 1, m) && MeansCross(v, x, y, m, 2)
  {
    o := ExtractBit(x, m - 1);
    var x1 := ExtractBit(x, m - 1);
    var y1 := ExtractBit(y, 1);
    v := CreateAnd(x1, y1);
    forall env: Env
      ensures Holds(o, env) <==> High(Eval(x, env), m - 1, m)
      ensures Holds(v, env) <==> Cross(Eval(x, env), Eval(y, env), m, 2)
    { CrossStart(Eval(x, env), Eval(y, env), m); }
  }

  /** The last lines of the unsigned circuit: multiply in n+1 bits and OR the top bit into v. */
  method OrExtendedProduct(a: Expr, b: Expr, v: Expr) returns (r: Expr)
    requires Operands(a, b) && Width(a) >= 2 && IsBool(v)
    requires forall env: Env :: Holds(v, env) <==> Cross(Eval(a, env), Eval(b, env), Width(a), Width(a))
    ensures IsBool(r)
    ensures forall env: Env :: Holds(r, env) <==> Eval(a, env) * Eval(b, env) >= Pow2(Width(a))
  {
    var n := Width(a);
    var za := CreateZExt(n + 1, a);
    var zb := CreateZExt(n + 1, b);
    var mult := CreateMul(za, zb);
    var top := ExtractBit(mult, n);
    r := CreateOr(v, top);
    forall env: Env ensures Holds(r, env) <==> Eval(a, env) * Eval(b, env) >= Pow2(n) {
      UnsignedCircuit(n, Eval(a, env), Eval(b, env));
    }
  }

  lemma OneBitProduct(x: nat, y: nat)
    requires x < Pow2(1) && y < Pow2(1)
    ensures x * y < Pow2(1)
  {
    assert Pow2(1) == 2;
    MulMono(x, y, 1, 1);
  }

  /** One iteration of either circuit: `o |= x_lo; v |= o & y_k`. */
  method CircuitStep(x: Expr, y: Expr, m: nat, k: nat, lo: nat, o: Expr, v: Expr) returns (o': Expr, v': Expr)
    requires Operands(x, y) && m <= Width(x) && 1 <= k < m && lo == m - k
    requires MeansHigh(o, x, lo + 1, m) && MeansCross(v, x, y, m, k)
    ensures MeansHigh(o', x, lo, m) && MeansCross(v', x, y, m, k + 1)
  {
    var xb := ExtractBit(x, lo);
    o' := CreateOr(o, xb);
    var yb := ExtractBit(y, k);
    var both := CreateAnd(o', yb);
    v' := CreateOr(v, both);
    forall env: Env ensures Holds(o', env) <==> High(Eval(x, env), lo, m) {
      assert Holds(o, env) <==> High(Eval(x, env), lo + 1, m);
      HighStep(Eval(x, env), lo, m);
    }
    forall env: Env ensures Holds(v', env) <==> Cross(Eval(x, env), Eval(y, env), m, k + 1) {
      assert Holds(v, env) <==> Cross(Eval(x, env), Eval(y, env), m, k);
      assert Holds(both, env) <==> High(Eval(x, env), lo, m) && Bit(Eval(y, env), k);
      CrossStep(Eval(x, env), Eval(y, env), m, k);
    }
  }

  // ----- signed -----

  /** a with its bits flipped when it is negative. */
  function Folded(n: nat, a: nat): (x: nat)
    requires n >= 1 && a < Pow2(n)
    ensures x < Pow2(n - 1)
    ensures Signed(n, a) == if a < Pow2(n - 1) then x as int else -(x as int) - 1
  {
    if a < Pow2(n - 1) then a else BitNot(n, a)
  }

  lemma XorOnes(n: nat, a: nat)
    requires a < Pow2(n)
    ensures BitXor(Ones(n), a) == BitNot(n, a)
  {
    XorBound(n, Ones(n), a);
    forall i: nat | i < n ensures Bit(BitXor(Ones(n), a), i) == Bit(BitNot(n, a), i) {
      BitOfXor(Ones(n), a, i); BitOfOnes(n, i); BitOfNot(n, a, i);
    }
    BitExt(n, BitXor(Ones(n), a), BitNot(n, a));
  }

  lemma XorWithSign(n: nat, a: nat)
    requires n >= 1 && a < Pow2(n)
    ensures BitXor(AShr(n, a, n - 1), a) == Folded(n, a)
  {
    if a < Pow2(n - 1) { LShrZero(a, n - 1, n - 1); }
    else { LShrZero(BitNot(n, a), n - 1, n - 1); XorOnes(n, a); }
  }

  lemma MulModShift(a: int, b: int, i: int, j: int, m: int)
    requires m > 0
    ensures ((a + i * m) * (b + j * m)) % m == (a * b) % m
  {
    var q := (a * b) / m;
    var r := (a * b) % m;
    assert a * b == q * m + r;
    var k := a * j + i * b + i * j * m;
    calc {
      (a + i * m) * (b + j * m);
      a * b + a * (j * m) + (i * m) * b + (i * m) * (j * m);
      { assert a * (j * m) == (a * j) * m; assert (i * m) * b == (i * b) * m;
        assert (i * m) * (j * m) == (i * j * m) * m; }
      a * b + (a * j) * m + (i * b) * m + (i * j * m) * m;
      { assert (a * j) * m + (i * b) * m + (i * j * m) * m == k * m; }
      a * b + k * m;
      { assert q * m + k * m == (q + k) * m; }
      (q + k) * m + r;
    }
    DivModUnique((a + i * m) * (b + j * m), m, q + k, r);
  }

  /** The extended product agrees with the signed product modulo 2^(n+1). */
  lemma SignedProduct(n: nat, a: nat, b: nat)
    requires n >= 1 && a < Pow2(n) && b < Pow2(n)
    ensures (SExtValue(n, n + 1, a) * SExtValue(n, n + 1, b)) % Pow2(n + 1)
         == (Signed(n, a) * Signed(n, b)) % Pow2(n + 1)
  {
    var m := Pow2(n + 1);
    var i, j := if a < Pow2(n - 1) then 0 else 1, if b < Pow2(n - 1) then 0 else 1;
    assert SExtValue(n, n + 1, a) == Signed(n, a) + i * m;
    assert SExtValue(n, n + 1, b) == Signed(n, b) + j * m;
    MulModShift(Signed(n, a), Signed(n, b), i, j, m);
  }

  lemma TwoTopBits(n: nat, p: nat)
    requires n >= 1 && p <= Pow2(n)
    ensures (Bit(p, n) != Bit(p, n - 1)) <==> p >= Pow2(n - 1)
  {
    BitOfTop(n + 1, p);
    if p < Pow2(n) { BitOfTop(n, p); }
    else { BitOfScaled(1, n, n - 1); assert 1 * Pow2(n) == p; }
  }

  predicate SameSign(n: nat, a: nat, b: nat)
    requires n >= 1
  {
    (a < Pow2(n - 1)) == (b < Pow2(n - 1))
  }

  /** The signed product of like-signed operands, in terms of the folded ones. */
  lemma ProductOfFolded(n: nat, a: nat, b: nat)
    requires n >= 1 && a < Pow2(n) && b < Pow2(n) && SameSign(n, a, b)
    ensures var p, x, y := Signed(n, a) * Signed(n, b), Folded(n, a), Folded(n, b);
      p == x * y || p == (x + 1) * (y + 1)
  {
    var x, y := Folded(n, a), Folded(n, b);
    if a < Pow2(n - 1) {
      assert Signed(n, a) == x && Signed(n, b) == y;
    } else {
      NegTimesNeg(x + 1, y + 1);
    }
  }

  lemma NegTimesNeg(x: int, y: int)
    ensures (-x) * (-y) == x * y
  {}

  lemma SuccProduct(x: nat, y: nat)
    ensures x * y < (x + 1) * (y + 1)
  {
    assert (x + 1) * (y + 1) == x * y + x + y + 1;
  }

  /** A product p of folded operands x, y (possibly both one larger) against the circuit's bits. */
  lemma CircuitBits(n: nat, x: nat, y: nat, p: nat, k: nat)
    requires n >= 2 && x < Pow2(n - 1) && y < Pow2(n - 1) && k >= n - 1
    requires p == x * y || p == (x + 1) * (y + 1)
    ensures (Bit(p % Pow2(n + 1), n) != Bit(p % Pow2(n + 1), n - 1) || Cross(x, y, n - 1, k)) <==> p >= Pow2(n - 1)
  {
    SuccProduct(x, y);
    if Cross(x, y, n - 1, k) {
      CrossLower(x, y, n - 1, k);
    } else {
      NoCrossUpper(x, y, n - 1, k);
      DivModUnique(p, Pow2(n + 1), 0, p);
      TwoTopBits(n, p);
    }
  }

  lemma SignedCircuit(n: nat, a: nat, b: nat, k: nat)
    requires n >= 2 && a < Pow2(n) && b < Pow2(n) && SameSign(n, a, b) && k >= n - 1
    ensures var p := (Signed(n, a) * Signed(n, b)) % Pow2(n + 1);
      (Bit(p, n) != Bit(p, n - 1) || Cross(Folded(n, a), Folded(n, b), n - 1, k))
        <==> Signed(n, a) * Signed(n, b) >= Pow2(n - 1)
  {
    ProductOfFolded(n, a, b);
    CircuitBits(n, Folded(n, a), Folded(n, b), Signed(n, a) * Signed(n, b), k);
  }

  /** What the signed circuit reports: a product of like-signed operands at or above 2^(n-1). */
  predicate PositiveOverflow(n: nat, a: nat, b: nat)
    requires n >= 1 && a < Pow2(n) && b < Pow2(n)
  {
    SameSign(n, a, b) && Signed(n, a) * Signed(n, b) >= Pow2(n - 1)
  }

  lemma SignBits(n: nat, a: nat, b: nat)
    requires n >= 1 && a < Pow2(n) && b < Pow2(n)
    ensures Bit(a, n - 1) == Bit(b, n - 1) <==> SameSign(n, a, b)
  {
    BitOfTop(n, a); BitOfTop(n, b);
  }

  /** `ax_i = a_i xor a_{n-1}`. */
  method CreateFolded(a: Expr) returns (ax: Expr)
    requires WellTyped(a) && Width(a) >= 2
    ensures WellTyped(ax) && Width(ax) == Width(a)
    ensures forall env: Env :: Eval(ax, env) == Folded(Width(a), Eval(a, env))
  {
    var sign := CreateAShr(a, Width(a) - 1);
    ax := CreateXor(sign, a);
    forall env: Env ensures Eval(ax, env) == Folded(Width(a), Eval(a, env)) {
      XorWithSign(Width(a), Eval(a, env));
    }
  }

  /** The top two bits of the product in n+1 bits differ. */
  method CreateTopBitsDiffer(a: Expr, b: Expr) returns (r: Expr)
    requires Operands(a, b)
    ensures IsBool(r)
    ensures forall env: Env :: var n := Width(a);
      var p := (Signed(n, Eval(a, env)) * Signed(n, Eval(b, env))) % Pow2(n + 1);
      Holds(r, env) <==> Bit(p, n) != Bit(p, n - 1)
  {
    var n := Width(a);
    var sa := CreateSExt(n + 1, a);
    var sb := CreateSExt(n + 1, b);
    var mult := CreateMul(sa, sb);
    forall env: Env
      ensures Eval(mult, env) == (Signed(n, Eval(a, env)) * Signed(n, Eval(b, env))) % Pow2(n + 1)
    { SignedProduct(n, Eval(a, env), Eval(b, env)); }
    var top := ExtractBit(mult, n);
    var next := ExtractBit(mult, n - 1);
    r := CreateXor(top, next);
  }

  /** `BinaryOp::CreateSMulOverflow`: set exactly for the overflows of like-signed operands. */
  method CreateSMulOverflow(a: Expr, b: Expr) returns (r: Expr)
    requires Operands(a, b)
    ensures IsBool(r)
    ensures forall env: Env :: Holds(r, env) <==> PositiveOverflow(Width(a), Eval(a, env), Eval(b, env))
  {
    if Width(a) < 2 {
      r := OneBitOverflow(a, b);
    } else {
      var ax := CreateFolded(a);
      var bx := CreateFolded(b);
      var v := CreateCross(ax, bx, Width(a) - 1);
      r := SignedOutput(a, b, ax, bx, v);
    }
  }

  /** The last lines of the signed circuit: `sign & (overflow1 | v)`. */
  method SignedOutput(a: Expr, b: Expr, ghost ax: Expr, ghost bx: Expr, v: Expr) returns (r: Expr)
    requires Operands(a, b) && Width(a) >= 2 && Operands(ax, bx) && IsBool(v)
    requires forall env: Env :: Eval(ax, env) == Folded(Width(a), Eval(a, env))
    requires forall env: Env :: Eval(bx, env) == Folded(Width(b), Eval(b, env))
    requires forall env: Env :: Holds(v, env) <==> Cross(Eval(ax, env), Eval(bx, env), Width(a) - 1, Top(Width(a) - 1))
    ensures IsBool(r)
    ensures forall env: Env :: Holds(r, env) <==> PositiveOverflow(Width(a), Eval(a, env), Eval(b, env))
  {
    var n := Width(a);
    var sa := ExtractBit(a, n - 1);
    var sb := ExtractBit(b, n - 1);
    var sign := CreateICmp(EQ, sa, sb);
    var overflow1 := CreateTopBitsDiffer(a, b);
    var any := CreateOr(overflow1, v);
    r := CreateAnd(sign, any);
    forall env: Env ensures Holds(r, env) <==> PositiveOverflow(n, Eval(a, env), Eval(b, env)) {
      SignedFlag(n, Eval(a, env), Eval(b, env), Holds(sign, env), Holds(overflow1, env), Holds(v, env));
    }
  }

  /** The three parts of the signed circuit together. */
  lemma SignedFlag(n: nat, a: nat, b: nat, sign: bool, top: bool, cross: bool)
    requires n >= 2 && a < Pow2(n) && b < Pow2(n) && (sign <==> Bit(a, n - 1) == Bit(b, n - 1))
    requires var p := (Signed(n, a) * Signed(n, b)) % Pow2(n + 1); top <==> Bit(p, n) != Bit(p, n - 1)
    requires cross <==> Cross(Folded(n, a), Folded(n, b), n - 1, Top(n - 1))
    ensures sign && (top || cross) <==> PositiveOverflow(n, a, b)
  {
    SignBits(n, a, b);
    if SameSign(n, a, b) { SignedCircuit(n, a, b, Top(n - 1)); }
  }

  /** The circuit doesn't work for 1-bit integers, whose only overflow is -1 times -1. */
  method OneBitOverflow(a: Expr, b: Expr) returns (r: Expr)
    requires Operands(a, b) && Width(a) == 1
    ensures IsBool(r)
    ensures forall env: Env :: Holds(r, env) <==> PositiveOverflow(Width(a), Eval(a, env), Eval(b, env))
  {
    r := CreateAnd(a, b);
    forall env: Env ensures Holds(r, env) <==> PositiveOverflow(Width(a), Eval(a, env), Eval(b, env)) {
      OneBitMeans(a, b, r, env);
    }
  }

  lemma OneBitMeans(a: Expr, b: Expr, r: Expr, env: Env)
    requires Operands(a, b) && Width(a) == 1 && IsBool(r) && (Holds(r, env) <==> Holds(a, env) && Holds(b, env))
    ensures Holds(r, env) <==> PositiveOverflow(Width(a), Eval(a, env), Eval(b, env))
  {
    OneBitSigned(Width(a), Eval(a, env), Eval(b, env));
  }

  lemma OneBitSigned(n: nat, x: nat, y: nat)
    requires n == 1 && x < Pow2(n) && y < Pow2(n)
    ensures PositiveOverflow(n, x, y) <==> x == 1 && y == 1
  {
    assert Pow2(1) == 2 && Pow2(0) == 1;
    if x == 1 && y == 1 { assert Signed(n, x) == -1 && Signed(n, y) == -1; }
    else if SameSign(n, x, y) { assert x == 0 && Signed(n, x) == 0; }
  }

  // ----- against the documented meaning of llvm.smul.with.overflow -----

  /** The signed product does not fit in n bits. */
  predicate SignedOverflow(n: nat, a: nat, b: nat)
    requires n >= 1 && a < Pow2(n) && b < Pow2(n)
  {
    var p := Signed(n, a) * Signed(n, b);
    p < 0 - Pow2(n - 1) || p >= Pow2(n - 1)
  }

  /** The circuit is the overflow flag exactly when the product is not a negative overflow. */
  lemma SignedFlagExactly(n: nat, a: nat, b: nat)
    requires n >= 1 && a < Pow2(n) && b < Pow2(n)
    ensures PositiveOverflow(n, a, b) == SignedOverflow(n, a, b)
       <==> (SameSign(n, a, b) || Signed(n, a) * Signed(n, b) >= 0 - Pow2(n - 1))
  {
    var x, y := Signed(n, a), Signed(n, b);
    if SameSign(n, a, b) { ProductOfFolded(n, a, b); }
    else if x < 0 { assert x * y <= 0; }
    else { assert x * y <= 0; }
  }

  /** At width 3, -4 times 2 does not fit and the circuit is silent. */
  lemma NegativeOverflowMissed()
    ensures SignedOverflow(3, 4, 2) && !PositiveOverflow(3, 4, 2)
  {
    assert Pow2(1) == 2;
    assert Pow2(2) == 4;
    assert Pow2(3) == 8;
  }
}
