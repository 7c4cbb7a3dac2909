/**
 Which of the operators registered in src/IR/EMatching/Rewrites/Associativity.cpp:88-95 may be
 flattened, reordered and rebuilt: exactly the associative and commutative ones.  The five integer
 operators are, at every width; subtraction, which the list also contains as `FSub`, is not.
 */
module AssocOperators {
  import opened Bits
  import E = Exprs
  import opened EGraphModel
  import opened Associativity

  /** Every way to flatten a typed tree, reorder its leaves and rebuild a comb keeps the value. */
  ghost predicate CombSafe(op: Operator, d: OpData) {
    forall xs: seq<Value>, ys: seq<Value>, zs: seq<Value> {:trigger Fold(op, d, zs), Typed(d, xs), Typed(d, ys)} ::
      xs != [] && ys != [] && zs != [] && Typed(d, xs) && Typed(d, ys) && multiset(zs) == multiset(xs + ys) ==>
        Fold(op, d, zs) == Apply(op, d, Fold(op, d, xs), Fold(op, d, ys))
  }

  /** The rewrite is safe for an operator exactly when the operator is associative and commutative. */
  lemma CombSafeExactly(op: Operator, d: OpData)
    ensures CombSafe(op, d) <==> AssocComm(op, d)
  {
    if AssocComm(op, d) {
      forall xs: seq<Value>, ys: seq<Value>, zs: seq<Value> {:trigger Fold(op, d, zs), Typed(d, xs), Typed(d, ys)}
        | xs != [] && ys != [] && zs != [] && Typed(d, xs) && Typed(d, ys) && multiset(zs) == multiset(xs + ys)
        ensures Fold(op, d, zs) == Apply(op, d, Fold(op, d, xs), Fold(op, d, ys))
      {
        FoldCat(op, d, xs, ys);
        FoldPermutation(op, d, xs + ys, zs);
      }
    }
    if CombSafe(op, d) {
      forall x: Value, y: Value | x.ty == d.ty && y.ty == d.ty ensures Apply(op, d, x, y) == Apply(op, d, y, x) {
        SafeCommutes(op, d, x, y);
      }
      forall x: Value, y: Value, z: Value | x.ty == d.ty && y.ty == d.ty && z.ty == d.ty
        ensures Apply(op, d, Apply(op, d, x, y), z) == Apply(op, d, x, Apply(op, d, y, z))
      {
        SafeAssociates(op, d, x, y, z);
      }
    }
  }

  lemma SafeCommutes(op: Operator, d: OpData, x: Value, y: Value)
    requires CombSafe(op, d) && x.ty == d.ty && y.ty == d.ty
    ensures Apply(op, d, x, y) == Apply(op, d, y, x)
  {
    FoldTwo(op, d, y, x);
    assert Typed(d, [x]) && Typed(d, [y]);
    assert multiset([y, x]) == multiset([x] + [y]);
    assert Fold(op, d, [x]) == x && Fold(op, d, [y]) == y;
  }

  lemma SafeAssociates(op: Operator, d: OpData, x: Value, y: Value, z: Value)
    requires CombSafe(op, d) && x.ty == d.ty && y.ty == d.ty && z.ty == d.ty
    ensures Apply(op, d, Apply(op, d, x, y), z) == Apply(op, d, x, Apply(op, d, y, z))
  {
    SafeCat(op, d, [x], [y, z]);
    FoldTwo(op, d, x, y);
    FoldTwo(op, d, y, z);
    assert ([x] + [y, z])[..2] == [x, y];
    FoldLast(op, d, [x] + [y, z]);
  }

  lemma SafeCat(op: Operator, d: OpData, xs: seq<Value>, ys: seq<Value>)
    requires CombSafe(op, d) && xs != [] && ys != [] && Typed(d, xs) && Typed(d, ys)
    ensures Fold(op, d, xs + ys) == Apply(op, d, Fold(op, d, xs), Fold(op, d, ys))
  {
    var zs := xs + ys;
    assert multiset(zs) == multiset(xs + ys);
  }

  lemma FoldLast(op: Operator, d: OpData, xs: seq<Value>)
    requires |xs| >= 2
    ensures Fold(op, d, xs) == Apply(op, d, Fold(op, d, xs[..|xs| - 1]), xs[|xs| - 1])
  {}

  lemma FoldTwo(op: Operator, d: OpData, x: Value, y: Value)
    ensures Fold(op, d, [x, y]) == Apply(op, d, x, y)
  {
    assert [x, y][..1] == [x];
  }

  // ----- the integer operators -----

  /** `op` computes the n-bit operation b on the low n bits of its operands. */
  ghost predicate Machine(op: Operator, d: OpData, b: E.BinOp, n: nat)
    requires n >= 1
  {
    forall x: Value, y: Value {:trigger Apply(op, d, x, y)} ::
      Apply(op, d, x, y).v == E.BinValue(b, n, x.v % Pow2(n), y.v % Pow2(n))
  }

  predicate Registered(b: E.BinOp) {
    b == E.Add || b == E.Mul || b == E.And || b == E.Or || b == E.Xor
  }

  /** Add, Mul, And, Or and Xor are safe to reassociate and reorder at every width. */
  lemma IntegerOperatorsSafe(op: Operator, d: OpData, b: E.BinOp, n: nat)
    requires n >= 1 && Registered(b) && Machine(op, d, b, n)
    ensures CombSafe(op, d)
  {
    forall x: Value, y: Value | x.ty == d.ty && y.ty == d.ty ensures Apply(op, d, x, y) == Apply(op, d, y, x) {
      MachineCommutes(op, d, b, n, x, y);
    }
    forall x: Value, y: Value, z: Value | x.ty == d.ty && y.ty == d.ty && z.ty == d.ty
      ensures Apply(op, d, Apply(op, d, x, y), z) == Apply(op, d, x, Apply(op, d, y, z))
    {
      MachineAssociates(op, d, b, n, x, y, z);
    }
    CombSafeExactly(op, d);
  }

  lemma MachineCommutes(op: Operator, d: OpData, b: E.BinOp, n: nat, x: Value, y: Value)
    requires n >= 1 && Registered(b) && Machine(op, d, b, n)
    ensures Apply(op, d, x, y) == Apply(op, d, y, x)
  {
    BinCommutes(b, n, x.v % Pow2(n), y.v % Pow2(n));
  }

  lemma MachineAssociates(op: Operator, d: OpData, b: E.BinOp, n: nat, x: Value, y: Value, z: Value)
    requires n >= 1 && Registered(b) && Machine(op, d, b, n)
    ensures Apply(op, d, Apply(op, d, x, y), z) == Apply(op, d, x, Apply(op, d, y, z))
  {
    var p := Pow2(n);
    var u: nat, v: nat, w: nat := x.v % p, y.v % p, z.v % p;
    var xy, yz := Apply(op, d, x, y), Apply(op, d, y, z);
    Residue(xy.v, E.BinValue(b, n, u, v), p);
    Residue(yz.v, E.BinValue(b, n, v, w), p);
    BinAssociates(b, n, u, v, w);
    var l, r := Apply(op, d, xy, z), Apply(op, d, x, yz);
    assert l.v == r.v && l.ty == r.ty;
  }

  lemma Residue(a: int, r: nat, p: nat)
    requires a == r < p
    ensures a % p == r
  {}

  lemma BinCommutes(b: E.BinOp, n: nat, x: nat, y: nat)
    requires n >= 1 && x < Pow2(n) && y < Pow2(n) && Registered(b)
    ensures E.BinValue(b, n, x, y) == E.BinValue(b, n, y, x)
  {
    var l, r := E.BinValue(b, n, x, y), E.BinValue(b, n, y, x);
    if b.And? || b.Or? || b.Xor? {
      forall i: nat | i < n ensures Bit(l, i) == Bit(r, i) {
        BitOfAnd(x, y, i); BitOfAnd(y, x, i); BitOfOr(x, y, i); BitOfOr(y, x, i); BitOfXor(x, y, i); BitOfXor(y, x, i);
      }
      BitExt(n, l, r);
    } else {
      assert x * y == y * x;
    }
  }

  lemma BinAssociates(b: E.BinOp, n: nat, x: nat, y: nat, z: nat)
    requires n >= 1 && x < Pow2(n) && y < Pow2(n) && z < Pow2(n) && Registered(b)
    ensures E.BinValue(b, n, E.BinValue(b, n, x, y), z) == E.BinValue(b, n, x, E.BinValue(b, n, y, z))
  {
    match b
    case Add => AddModAssociates(x, y, z, Pow2(n));
    case Mul => MulModAssociates(x, y, z, Pow2(n));
    case _ => BitwiseAssociates(b, n, x, y, z);
  }

  lemma BitwiseAssociates(b: E.BinOp, n: nat, x: nat, y: nat, z: nat)
    requires n >= 1 && x < Pow2(n) && y < Pow2(n) && z < Pow2(n) && (b.And? || b.Or? || b.Xor?)
    ensures E.BinValue(b, n, E.BinValue(b, n, x, y), z) == E.BinValue(b, n, x, E.BinValue(b, n, y, z))
  {
    var xy, yz := E.BinValue(b, n, x, y), E.BinValue(b, n, y, z);
    var l, r := E.BinValue(b, n, xy, z), E.BinValue(b, n, x, yz);
    forall i: nat | i < n ensures Bit(l, i) == Bit(r, i) {
      BitOfBin(b, n, x, y, i); BitOfBin(b, n, y, z, i); BitOfBin(b, n, xy, z, i); BitOfBin(b, n, x, yz, i);
    }
    BitExt(n, l, r);
  }

  lemma BitOfBin(b: E.BinOp, n: nat, x: nat, y: nat, i: nat)
    requires n >= 1 && x < Pow2(n) && y < Pow2(n) && (b.And? || b.Or? || b.Xor?)
    ensures Bit(E.BinValue(b, n, x, y), i) <==>
      if b.And? then Bit(x, i) && Bit(y, i) else if b.Or? then Bit(x, i) || Bit(y, i) else Bit(x, i) != Bit(y, i)
  {
    BitOfAnd(x, y, i); BitOfOr(x, y, i); BitOfXor(x, y, i);
  }

  lemma AddModAssociates(x: nat, y: nat, z: nat, p: nat)
    requires p > 0
    ensures ((x + y) % p + z) % p == (x + (y + z) % p) % p
  {
    SameResidue((x + y) % p + z, x + y + z, -((x + y) / p), p);
    SameResidue(x + (y + z) % p, x + y + z, -((y + z) / p), p);
  }

  lemma MulModAssociates(x: nat, y: nat, z: nat, p: nat)
    requires p > 0
    ensures (((x * y) % p) * z) % p == (x * ((y * z) % p)) % p
  {
    var a, b := x * y, y * z;
    assert a == a / p * p + a % p && b == b / p * p + b % p;
    assert (a % p) * z == a * z + (-(a / p) * z) * p;
    assert x * (b % p) == x * b + (-(b / p) * x) * p;
    assert a * z == x * b;
    SameResidue((a % p) * z, a * z, -(a / p) * z, p);
    SameResidue(x * (b % p), x * b, -(b / p) * x, p);
  }

  lemma SameResidue(u: int, v: int, k: int, p: int)
    requires p > 0 && u == v + k * p
    ensures u % p == v % p
  {
    assert v == v / p * p + v % p;
    assert u == (v / p + k) * p + v % p;
    DivModUnique(u, p, v / p + k, v % p);
  }

  // ----- subtraction -----

  /** `FSub` is registered too, but reordering the leaves of 5 - 3 gives 3 - 5. */
  lemma SubtractionUnsafe(op: Operator, d: OpData)
    requires forall x: Value, y: Value {:trigger Apply(op, d, x, y)} :: Apply(op, d, x, y).v == x.v - y.v
    ensures !CombSafe(op, d)
  {
    var five, three := Value(d.ty, 5), Value(d.ty, 3);
    assert Apply(op, d, five, three).v == 2 && Apply(op, d, three, five).v == -2;
    if CombSafe(op, d) { SafeCommutes(op, d, five, three); }
  }
}
