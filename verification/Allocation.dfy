/**
 Reading and writing typed values in an allocation (src/Memory/Allocation.cpp:97-303), for the values
 that offset, contents and operands have in one model: integers of any width are split into bytes,
 little end first, and aggregates into their members; indices wrap at the address width.
 */
module Allocations {
  import opened Bits

  type Memory = nat -> nat

  /** LLVM types, without pointers and vectors: those are laid out as integers and arrays. */
  datatype Ty = Int(bits: nat) | Array(n: nat, elem: Ty) | Struct(fields: seq<Ty>)

  datatype Val = Scalar(v: nat) | Aggregate(members: seq<Val>)

  datatype Result<T> = Ok(value: T) | Err

  function Members(t: Ty): (ms: seq<Ty>)
    requires !t.Int?
    ensures forall i :: 0 <= i < |ms| ==> ms[i] < t
  {
    match t
    case Array(n, elem) => seq(n, _ => elem)
    case Struct(fields) => fields
  }

  predicate TyOk(t: Ty)
    decreases t
  {
    if t.Int? then t.bits >= 1 else forall i :: 0 <= i < |Members(t)| ==> TyOk(Members(t)[i])
  }

  /** The value has the shape of the type. */
  predicate HasType(v: Val, t: Ty)
    decreases t
  {
    if t.Int? then v.Scalar? && v.v < Pow2(t.bits)
    else v.Aggregate? && |v.members| == |Members(t)| && forall i :: 0 <= i < |Members(t)| ==> HasType(v.members[i], Members(t)[i])
  }

  /** `byte_size` of an integer type. */
  function ByteSize(bits: nat): (n: nat)
    ensures bits <= 8 * n < bits + 8
  {
    (bits + 7) / 8
  }

  // ----- data layout -----

  /** `getTypeAllocSize`. */
  type Layout = Ty -> nat

  /** Where member i starts: the allocation sizes of the members before it. */
  function Offset(L: Layout, ms: seq<Ty>, i: nat): nat
    requires i <= |ms|
  {
    if i == 0 then 0 else Offset(L, ms, i - 1) + L(ms[i - 1])
  }

  /** The bytes a value of the type may occupy. */
  function Span(L: Layout, t: Ty): nat {
    if t.Int? then ByteSize(t.bits) else Offset(L, Members(t), |Members(t)|)
  }

  /** Every type has room for its bytes, and for its members one after the other. */
  ghost predicate LayoutOk(L: Layout) {
    forall t: Ty :: Span(L, t) <= L(t)
  }

  lemma {:induction false} OffsetMono(L: Layout, ms: seq<Ty>, i: nat, j: nat)
    requires i < j <= |ms|
    ensures Offset(L, ms, i) + L(ms[i]) <= Offset(L, ms, j)
    decreases j
  {
    if i + 1 < j { OffsetMono(L, ms, i, j - 1); }
  }

  /** Array elements are a fixed stride apart. */
  lemma {:induction false} ArrayOffset(L: Layout, n: nat, elem: Ty, i: nat)
    requires i <= n
    ensures Offset(L, Members(Array(n, elem)), i) == i * L(elem)
  {
    if i > 0 {
      ArrayOffset(L, n, elem, i - 1);
      assert i * L(elem) == (i - 1) * L(elem) + L(elem);
    }
  }

  /** `i * layout.getTypeAllocSize(elem_ty)`. */
  method ElementOffset(L: Layout, t: Ty, i: nat) returns (offset: nat)
    requires t.Array? && i < t.n
    ensures offset == Offset(L, Members(t), i) && Members(t)[i] == t.elem && (TyOk(t) ==> TyOk(t.elem))
  {
    ArrayOffset(L, t.n, t.elem, i);
    assert Members(t)[i] == t.elem;
    offset := i * L(t.elem);
  }

  // ----- wrapping indices -----

  /** How far index j lies after index o, going round. */
  function Dist(w: nat, o: nat, j: nat): (d: nat)
    ensures d < Pow2(w)
  {
    (j - o) % Pow2(w)
  }

  /** The index i places after o, going round. */
  function Idx(w: nat, o: nat, i: nat): (j: nat)
    ensures j < Pow2(w)
  {
    (o + i) % Pow2(w)
  }

  /** Moving the start by a shortens the distance by a, going round. */
  lemma DistShift(w: nat, o: nat, a: nat, j: nat)
    requires o < Pow2(w) && j < Pow2(w) && a < Pow2(w)
    ensures Dist(w, Idx(w, o, a), j) ==
      if a <= Dist(w, o, j) then Dist(w, o, j) - a else Dist(w, o, j) - a + Pow2(w)
  {
    var p, o' := Pow2(w), Idx(w, o, a);
    if o + a < p { DivModUnique(o + a, p, 0, o + a); } else { DivModUnique(o + a, p, 1, o + a - p); }
    DistValue(w, o, j);
    DistValue(w, o', j);
  }

  lemma DistValue(w: nat, o: nat, j: nat)
    requires o < Pow2(w) && j < Pow2(w)
    ensures Dist(w, o, j) == if o <= j then j - o else j - o + Pow2(w)
  {
    var p := Pow2(w);
    if o <= j { DivModUnique(j - o, p, 0, j - o); } else { DivModUnique(j - o, p, -1, j - o + p); }
  }

  /** The index at distance d. */
  lemma DistOf(w: nat, o: nat, d: nat)
    requires o < Pow2(w) && d < Pow2(w)
    ensures Dist(w, o, Idx(w, o, d)) == d
  {
    var p := Pow2(w);
    if o + d < p { DivModUnique(o + d, p, 0, o + d); } else { DivModUnique(o + d, p, 1, o + d - p); }
    DistValue(w, o, Idx(w, o, d));
  }

  /** Only bytes less than n after o differ. */
  ghost predicate ChangedWithin(w: nat, mem: Memory, mem': Memory, o: nat, n: nat) {
    forall j: nat :: j < Pow2(w) && Dist(w, o, j) >= n ==> mem'(j) == mem(j)
  }

  /** The bytes less than n after o agree. */
  ghost predicate SameWithin(w: nat, mem: Memory, mem': Memory, o: nat, n: nat) {
    forall j: nat :: j < Pow2(w) && Dist(w, o, j) < n ==> mem'(j) == mem(j)
  }

  /** The index of member i. */
  function At(L: Layout, w: nat, o: nat, ms: seq<Ty>, i: nat): (a: nat)
    requires i <= |ms|
    ensures a < Pow2(w)
  {
    Idx(w, o, Offset(L, ms, i))
  }

  // ----- what a read returns -----

  /** The little-endian number in n bytes from o on. */
  function LoadBytes(w: nat, mem: Memory, o: nat, n: nat): nat {
    if n == 0 then 0 else LoadBytes(w, mem, o, n - 1) + mem(Idx(w, o, n - 1)) * Pow2(8 * (n - 1))
  }

  function ReadVal(L: Layout, w: nat, mem: Memory, o: nat, t: Ty): Val
    decreases t
  {
    if t.Int? then Scalar(LoadBytes(w, mem, o, ByteSize(t.bits)) % Pow2(t.bits))
    else Aggregate(seq(|Members(t)|, i requires 0 <= i < |Members(t)| =>
      ReadVal(L, w, mem, At(L, w, o, Members(t), i), Members(t)[i])))
  }

  lemma {:induction false} LoadDepends(w: nat, mem: Memory, mem': Memory, o: nat, n: nat)
    requires o < Pow2(w) && n <= Pow2(w)
    requires SameWithin(w, mem, mem', o, n)
    ensures LoadBytes(w, mem', o, n) == LoadBytes(w, mem, o, n)
  {
    if n > 0 {
      DistOf(w, o, n - 1);
      LoadDepends(w, mem, mem', o, n - 1);
    }
  }

  lemma MemberWithin(L: Layout, w: nat, mem: Memory, mem': Memory, o: nat, t: Ty, i: nat)
    requires LayoutOk(L) && o < Pow2(w) && Span(L, t) <= Pow2(w) && !t.Int? && i < |Members(t)|
    requires SameWithin(w, mem, mem', o, Span(L, t))
    ensures SameWithin(w, mem, mem', At(L, w, o, Members(t), i), Span(L, Members(t)[i])) && Span(L, Members(t)[i]) <= Pow2(w)
  {
    MemberFits(L, t, i);
    var a, n := Offset(L, Members(t), i), Span(L, Members(t)[i]);
    forall j: nat | j < Pow2(w) && Dist(w, At(L, w, o, Members(t), i), j) < n ensures mem'(j) == mem(j) {
      DistShift(w, o, a, j);
    }
  }

  /** A read depends only on the bytes in the type's span. */
  lemma {:induction false} ReadDepends(L: Layout, w: nat, mem: Memory, mem': Memory, o: nat, t: Ty)
    requires LayoutOk(L) && o < Pow2(w) && Span(L, t) <= Pow2(w) && SameWithin(w, mem, mem', o, Span(L, t))
    ensures ReadVal(L, w, mem', o, t) == ReadVal(L, w, mem, o, t)
    decreases t
  {
    if t.Int? {
      LoadDepends(w, mem, mem', o, ByteSize(t.bits));
    } else {
      var ms := Members(t);
      forall i | 0 <= i < |ms| ensures ReadVal(L, w, mem', At(L, w, o, ms, i), ms[i]) == ReadVal(L, w, mem, At(L, w, o, ms, i), ms[i]) {
        MemberWithin(L, w, mem, mem', o, t, i);
        ReadDepends(L, w, mem, mem', At(L, w, o, ms, i), ms[i]);
      }
    }
  }

  lemma MemberFits(L: Layout, t: Ty, i: nat)
    requires LayoutOk(L) && !t.Int? && i < |Members(t)|
    ensures Offset(L, Members(t), i) + Span(L, Members(t)[i]) <= Span(L, t)
  {
    OffsetMono(L, Members(t), i, |Members(t)|);
  }

  // ----- bytes of an integer -----

  /** `trunc8(lshr(value, i * 8))`. */
  function Byte(v: nat, i: nat): (b: nat)
    ensures b < 256
  {
    LShr(v, 8 * i) % 256
  }

  /** One more byte of v. */
  lemma ByteSplit(v: nat, i: nat)
    ensures v % Pow2(8 * i + 8) == v % Pow2(8 * i) + Byte(v, i) * Pow2(8 * i)
  {
    var d, q, r, b := Pow2(8 * i), v / Pow2(8 * i), v % Pow2(8 * i), Byte(v, i);
    assert Pow2(8) == 256;
    Pow2Add(8, 8 * i);
    var q' := q / 256;
    assert q == q' * 256 + b && v == q * d + r;
    assert v == (q' * 256 + b) * d + r;
    assert (q' * 256 + b) * d == q' * (256 * d) + b * d;
    MulMono(b, d, 255, d);
    DivModUnique(v, 256 * d, q', b * d + r);
  }

  /** Setting high bits by `or` is adding them. */
  lemma {:induction false} OrIsSum(x: nat, k: nat, y: nat)
    requires x < Pow2(k)
    ensures BitOr(x, y * Pow2(k)) == x + y * Pow2(k)
  {
    if k > 0 {
      var h := y * Pow2(k - 1);
      assert y * Pow2(k) == 2 * h;
      OrIsSum(x / 2, k - 1, y);
    }
  }

  /** The bytes of v are stored from o on. */
  ghost predicate Holds(w: nat, mem: Memory, o: nat, v: nat, n: nat) {
    forall i :: 0 <= i < n ==> mem(Idx(w, o, i)) == Byte(v, i)
  }

  lemma {:induction false} LoadStored(w: nat, mem: Memory, o: nat, v: nat, n: nat)
    requires Holds(w, mem, o, v, n)
    ensures LoadBytes(w, mem, o, n) == v % Pow2(8 * n)
  {
    if n > 0 {
      LoadStored(w, mem, o, v, n - 1);
      ByteSplit(v, n - 1);
      assert mem(Idx(w, o, n - 1)) == Byte(v, n - 1);
    }
  }

  /** Reading the bytes of an integer of the type gives the integer. */
  lemma ScalarRoundTrip(L: Layout, w: nat, mem: Memory, o: nat, bits: nat, v: nat)
    requires v < Pow2(bits) && Holds(w, mem, o, v, ByteSize(bits))
    ensures ReadVal(L, w, mem, o, Int(bits)) == Scalar(v)
  {
    var n := ByteSize(bits);
    LoadStored(w, mem, o, v, n);
    Pow2Mono(bits, 8 * n);
    DivModUnique(v, Pow2(8 * n), 0, v);
    DivModUnique(v, Pow2(bits), 0, v);
  }

  class Allocation {
    const w: nat
    var data: Memory
    const readable: bool
    const writable: bool

    ghost predicate Valid()
      reads this
    {
      w >= 1 && forall j: nat :: data(j) < 256
    }

    constructor (w: nat, data: Memory, readable: bool, writable: bool)
      requires w >= 1 && forall j: nat :: data(j) < 256
      ensures Valid() && this.w == w && this.data == data && this.readable == readable && this.writable == writable
    {
      this.w, this.data, this.readable, this.writable := w, data, readable, writable;
    }

    /** `read` of an integer. */
    method ReadScalar(offset: nat, bits: nat) returns (r: Result<nat>)
      requires Valid() && bits >= 1
      ensures r == if readable then Ok(LoadBytes(w, data, offset, ByteSize(bits)) % Pow2(bits)) else Err
    {
      if !readable { return Err; }
      var width := ByteSize(bits);
      var bytes: seq<nat> := [];
      for i := 0 to width
        invariant |bytes| == i && forall k :: 0 <= k < i ==> bytes[k] == data(Idx(w, offset, k))
      {
        bytes := bytes + [data(Idx(w, offset, i))];
      }
      var result := bytes[0];
      assert Pow2(8) == 256;
      FirstByte(w, data, offset);
      if bits == 8 {
        DivModUnique(result, Pow2(8), 0, result);
        return Ok(result);
      }
      for i := 1 to width
        invariant result == LoadBytes(w, data, offset, i) < Pow2(8 * i)
      {
        OneMoreByte(w, data, offset, i, 8 * width);
        result := BitOr(result, Shl(8 * width, bytes[i], 8 * i));
      }
      if bits == 8 * width { DivModUnique(result, Pow2(bits), 0, result); }
      return Ok(if bits != 8 * width then result % Pow2(bits) else result);
    }

    /** `write` of an integer: its bytes are stored, and nothing else changes. */
    method WriteScalar(offset: nat, bits: nat, value: nat) returns (r: Result<()>)
      requires Valid() && offset < Pow2(w) && 1 <= bits && value < Pow2(bits) && ByteSize(bits) <= Pow2(w)
      modifies this
      ensures Valid() && r == (if writable then Ok(()) else Err)
      ensures !writable ==> data == old(data)
      ensures writable ==> Holds(w, data, offset, value, ByteSize(bits)) && ChangedWithin(w, old(data), data, offset, ByteSize(bits))
    {
      if !writable { return Err; }
      var width := ByteSize(bits);
      if bits == 8 {
        assert Pow2(8) == 256 && Pow2(0) == 1;
        StoreByte(offset, 0, value);
        StoredMore(w, old(data), old(data), data, offset, value, 0);
        return Ok(());
      }
      for i := 0 to width
        invariant Valid() && Holds(w, data, offset, value, i) && ChangedWithin(w, old(data), data, offset, i)
      {
        ghost var before := data;
        StoreByte(offset, i, Byte(value, i));
        StoredMore(w, old(data), before, data, offset, value, i);
      }
      return Ok(());
    }

    /** `read` of any type. */
    method Read(L: Layout, offset: nat, t: Ty) returns (r: Result<Val>)
      requires Valid() && TyOk(t) && offset < Pow2(w)
      ensures r == if readable then Ok(ReadVal(L, w, data, offset, t)) else Err
      decreases t
    {
      if !readable { return Err; }
      if t.Int? {
        var v := ReadScalar(offset, t.bits);
        return Ok(Scalar(v.value));
      }
      var members: seq<Val> := [];
      ghost var ms := Members(t);
      if t.Array? {
        for i := 0 to t.n
          invariant |members| == i && ReadUpTo(L, w, data, offset, ms, members, i)
        {
          var elemOffset := ElementOffset(L, t, i);
          var m := Read(L, Idx(w, offset, elemOffset), t.elem);
          ReadMore(L, w, data, offset, ms, members, m.value);
          members := members + [m.value];
        }
      } else {
        var elemOffset := 0;
        for i := 0 to |t.fields|
          invariant |members| == i && ReadUpTo(L, w, data, offset, ms, members, i) && elemOffset == Offset(L, ms, i)
        {
          var m := Read(L, Idx(w, offset, elemOffset), t.fields[i]);
          ReadMore(L, w, data, offset, ms, members, m.value);
          members := members + [m.value];
          elemOffset := elemOffset + L(t.fields[i]);
        }
      }
      ReadAll(L, w, data, offset, t, members);
      return Ok(Aggregate(members));
    }

    /**
     `write` of any type that fits in the address space: the value can be read back, and nothing
     outside its span changes.
     */
    method Write(L: Layout, offset: nat, t: Ty, value: Val) returns (r: Result<()>)
      requires Valid() && LayoutOk(L) && TyOk(t) && offset < Pow2(w) && HasType(value, t) && Span(L, t) <= Pow2(w)
      modifies this
      ensures Valid() && r == if writable then Ok(()) else Err
      ensures !writable ==> data == old(data)
      ensures writable ==> ReadVal(L, w, data, offset, t) == value && ChangedWithin(w, old(data), data, offset, Span(L, t))
      decreases t, 2
    {
      if !writable { return Err; }
      if t.Int? {
        r := WriteScalar(offset, t.bits, value.v);
        ScalarRoundTrip(L, w, data, offset, t.bits, value.v);
      } else {
        if t.Array? { WriteArray(L, offset, t, value.members); } else { WriteStruct(L, offset, t, value.members); }
        ReadAll(L, w, data, offset, t, value.members);
        r := Ok(());
      }
    }

    /** One round of the loops over the members. */
    method WriteMember(L: Layout, offset: nat, ghost t: Ty, ghost vals: seq<Val>, ghost i: nat, elemOffset: nat, elem: Ty, value: Val,
                       ghost data0: Memory)
      requires Valid() && writable && LayoutOk(L) && TyOk(t) && offset < Pow2(w) && !t.Int?
      requires HasType(Aggregate(vals), t) && Span(L, t) <= Pow2(w) && i < |vals|
      requires elemOffset == Offset(L, Members(t), i) && elem == Members(t)[i] && value == vals[i]
      requires ReadUpTo(L, w, data, offset, Members(t), vals, i) && ChangedWithin(w, data0, data, offset, elemOffset)
      modifies this
      ensures Valid() && ReadUpTo(L, w, data, offset, Members(t), vals, i + 1)
      ensures ChangedWithin(w, data0, data, offset, Offset(L, Members(t), i + 1))
      decreases t, 0
    {
      MemberFits(L, t, i);
      ghost var before := data;
      var r := Write(L, Idx(w, offset, elemOffset), elem, value);
      MemberWritten(L, w, data0, before, data, offset, t, vals, i);
    }

    method WriteArray(L: Layout, offset: nat, t: Ty, vals: seq<Val>)
      requires Valid() && writable && LayoutOk(L) && TyOk(t) && offset < Pow2(w) && t.Array?
      requires HasType(Aggregate(vals), t) && Span(L, t) <= Pow2(w)
      modifies this
      ensures Valid() && ReadUpTo(L, w, data, offset, Members(t), vals, |vals|) && ChangedWithin(w, old(data), data, offset, Span(L, t))
      decreases t, 1
    {
      ghost var ms := Members(t);
      for i := 0 to |vals|
        invariant Valid() && ReadUpTo(L, w, data, offset, ms, vals, i) && ChangedWithin(w, old(data), data, offset, Offset(L, ms, i))
      {
        var elemOffset := ElementOffset(L, t, i);
        WriteMember(L, offset, t, vals, i, elemOffset, t.elem, vals[i], old(data));
      }
    }

    method WriteStruct(L: Layout, offset: nat, t: Ty, vals: seq<Val>)
      requires Valid() && writable && LayoutOk(L) && TyOk(t) && offset < Pow2(w) && t.Struct?
      requires HasType(Aggregate(vals), t) && Span(L, t) <= Pow2(w)
      modifies this
      ensures Valid() && ReadUpTo(L, w, data, offset, Members(t), vals, |vals|) && ChangedWithin(w, old(data), data, offset, Span(L, t))
      decreases t, 1
    {
      ghost var ms := Members(t);
      var elemOffset := 0;
      for i := 0 to |vals|
        invariant Valid() && elemOffset == Offset(L, ms, i)
        invariant ReadUpTo(L, w, data, offset, ms, vals, i) && ChangedWithin(w, old(data), data, offset, elemOffset)
      {
        WriteMember(L, offset, t, vals, i, elemOffset, t.fields[i], vals[i], old(data));
        elemOffset := elemOffset + L(t.fields[i]);
      }
    }

    /** `overwrite(StoreOp(data, offset + i, byte))`. */
    method StoreByte(offset: nat, i: nat, byte: nat)
      requires Valid() && offset < Pow2(w) && i < Pow2(w) && byte < 256
      modifies this
      ensures Valid() && data(Idx(w, offset, i)) == byte
      ensures forall j: nat :: j < Pow2(w) && Dist(w, offset, j) != i ==> data(j) == old(data)(j)
    {
      var before, index := data, Idx(w, offset, i);
      data := j => if j == index then byte else before(j);
      DistOf(w, offset, i);
    }
  }

  // ----- members -----

  /** The first i members have been read. */
  ghost predicate ReadUpTo(L: Layout, w: nat, mem: Memory, o: nat, ms: seq<Ty>, vals: seq<Val>, i: nat) {
    i <= |ms| && i <= |vals| && forall k {:trigger ReadAs(L, w, mem, o, ms, vals, k)} :: 0 <= k < i ==> ReadAs(L, w, mem, o, ms, vals, k)
  }

  ghost predicate ReadAs(L: Layout, w: nat, mem: Memory, o: nat, ms: seq<Ty>, vals: seq<Val>, k: nat)
    requires k < |ms| && k < |vals|
  {
    ReadVal(L, w, mem, At(L, w, o, ms, k), ms[k]) == vals[k]
  }

  lemma ReadAll(L: Layout, w: nat, mem: Memory, o: nat, t: Ty, vals: seq<Val>)
    requires !t.Int? && |vals| == |Members(t)| && ReadUpTo(L, w, mem, o, Members(t), vals, |vals|)
    ensures ReadVal(L, w, mem, o, t) == Aggregate(vals)
  {
    var ms := Members(t);
    forall k | 0 <= k < |ms| ensures ReadVal(L, w, mem, At(L, w, o, ms, k), ms[k]) == vals[k] {
      assert ReadAs(L, w, mem, o, ms, vals, k);
    }
  }

  lemma ReadMore(L: Layout, w: nat, mem: Memory, o: nat, ms: seq<Ty>, vals: seq<Val>, v: Val)
    requires |vals| < |ms| && ReadUpTo(L, w, mem, o, ms, vals, |vals|)
    requires v == ReadVal(L, w, mem, At(L, w, o, ms, |vals|), ms[|vals|])
    ensures ReadUpTo(L, w, mem, o, ms, vals + [v], |vals| + 1)
  {
    forall k | 0 <= k < |vals| + 1 ensures ReadAs(L, w, mem, o, ms, vals + [v], k) {
      if k < |vals| { assert ReadAs(L, w, mem, o, ms, vals, k); }
    }
  }

  /** Writing member i reaches neither the members before it nor anything after it. */
  lemma MemberApart(L: Layout, w: nat, o: nat, t: Ty, i: nat, j: nat)
    requires LayoutOk(L) && o < Pow2(w) && Span(L, t) <= Pow2(w) && !t.Int? && i < |Members(t)| && j < Pow2(w)
    ensures var ms := Members(t); Span(L, ms[i]) > 0 && Dist(w, At(L, w, o, ms, i), j) < Span(L, ms[i]) ==>
      Offset(L, ms, i) <= Dist(w, o, j) < Offset(L, ms, i) + Span(L, ms[i])
  {
    MemberFits(L, t, i);
    var a := Offset(L, Members(t), i);
    if a < Pow2(w) { DistShift(w, o, a, j); }
  }

  lemma MemberWritten(L: Layout, w: nat, mem0: Memory, mem: Memory, mem': Memory, o: nat, t: Ty, vals: seq<Val>, i: nat)
    requires LayoutOk(L) && o < Pow2(w) && Span(L, t) <= Pow2(w) && !t.Int? && i < |Members(t)| == |vals|
    requires ReadUpTo(L, w, mem, o, Members(t), vals, i) && ChangedWithin(w, mem0, mem, o, Offset(L, Members(t), i))
    requires ReadVal(L, w, mem', At(L, w, o, Members(t), i), Members(t)[i]) == vals[i]
    requires ChangedWithin(w, mem, mem', At(L, w, o, Members(t), i), Span(L, Members(t)[i]))
    ensures ReadUpTo(L, w, mem', o, Members(t), vals, i + 1) && ChangedWithin(w, mem0, mem', o, Offset(L, Members(t), i + 1))
  {
    var ms := Members(t);
    forall k | 0 <= k < i + 1 ensures ReadAs(L, w, mem', o, ms, vals, k) {
      if k < i {
        assert ReadAs(L, w, mem, o, ms, vals, k);
        EarlierMember(L, w, mem, mem', o, t, k, i);
      }
    }
    LaterBytes(L, w, mem0, mem, mem', o, t, i);
  }

  lemma LaterBytes(L: Layout, w: nat, mem0: Memory, mem: Memory, mem': Memory, o: nat, t: Ty, i: nat)
    requires LayoutOk(L) && o < Pow2(w) && Span(L, t) <= Pow2(w) && !t.Int? && i < |Members(t)|
    requires ChangedWithin(w, mem0, mem, o, Offset(L, Members(t), i))
    requires ChangedWithin(w, mem, mem', At(L, w, o, Members(t), i), Span(L, Members(t)[i]))
    ensures ChangedWithin(w, mem0, mem', o, Offset(L, Members(t), i + 1))
  {
    var m := Members(t)[i];
    assert Span(L, m) <= L(m);
    forall j: nat | j < Pow2(w) && Dist(w, o, j) >= Offset(L, Members(t), i + 1) ensures mem'(j) == mem0(j) {
      MemberApart(L, w, o, t, i, j);
    }
  }

  lemma EarlierMember(L: Layout, w: nat, mem: Memory, mem': Memory, o: nat, t: Ty, k: nat, i: nat)
    requires LayoutOk(L) && o < Pow2(w) && Span(L, t) <= Pow2(w) && !t.Int? && k < i < |Members(t)|
    requires ChangedWithin(w, mem, mem', At(L, w, o, Members(t), i), Span(L, Members(t)[i]))
    ensures ReadVal(L, w, mem', At(L, w, o, Members(t), k), Members(t)[k]) == ReadVal(L, w, mem, At(L, w, o, Members(t), k), Members(t)[k])
  {
    var ms := Members(t);
    OffsetMono(L, ms, k, i);
    MemberFits(L, t, k);
    assert Span(L, ms[k]) <= L(ms[k]);
    forall j: nat | j < Pow2(w) && Dist(w, At(L, w, o, ms, k), j) < Span(L, ms[k]) ensures mem'(j) == mem(j) {
      MemberApart(L, w, o, t, k, j);
      MemberApart(L, w, o, t, i, j);
    }
    ReadDepends(L, w, mem, mem', At(L, w, o, ms, k), ms[k]);
  }

  lemma StoredMore(w: nat, mem0: Memory, mem: Memory, mem': Memory, o: nat, v: nat, i: nat)
    requires o < Pow2(w) && i < Pow2(w) && Holds(w, mem, o, v, i) && ChangedWithin(w, mem0, mem, o, i)
    requires mem'(Idx(w, o, i)) == Byte(v, i)
    requires forall j: nat :: j < Pow2(w) && Dist(w, o, j) != i ==> mem'(j) == mem(j)
    ensures Holds(w, mem', o, v, i + 1) && ChangedWithin(w, mem0, mem', o, i + 1)
  {
    forall k | 0 <= k < i + 1 ensures mem'(Idx(w, o, k)) == Byte(v, k) { DistOf(w, o, k); }
  }

  lemma FirstByte(w: nat, mem: Memory, o: nat)
    ensures LoadBytes(w, mem, o, 1) == mem(Idx(w, o, 0))
  {
    assert LoadBytes(w, mem, o, 0) == 0 && Pow2(0) == 1;
    assert LoadBytes(w, mem, o, 1) == LoadBytes(w, mem, o, 0) + mem(Idx(w, o, 0)) * Pow2(8 * (1 - 1));
  }

  /** Bit 8k + j of the number is bit j of byte k. */
  lemma {:induction false} BitOfLoad(w: nat, mem: Memory, o: nat, n: nat, k: nat, j: nat)
    requires k < n && j < 8 && forall i :: 0 <= i < n ==> mem(Idx(w, o, i)) < 256
    ensures Bit(LoadBytes(w, mem, o, n), 8 * k + j) <==> Bit(mem(Idx(w, o, k)), j)
    decreases n
  {
    LoadBound(w, mem, o, n - 1);
    BitOfSum(LoadBytes(w, mem, o, n - 1), mem(Idx(w, o, n - 1)), 8 * (n - 1), 8 * k + j);
    if k < n - 1 { BitOfLoad(w, mem, o, n - 1, k, j); }
  }

  lemma BitOfSum(x: nat, b: nat, d: nat, i: nat)
    requires x < Pow2(d)
    ensures Bit(x + b * Pow2(d), i) <==> if i < d then Bit(x, i) else Bit(b, i - d)
  {
    OrIsSum(x, d, b);
    BitOfOr(x, b * Pow2(d), i);
    BitOfScaled(b, d, i);
    if i >= d { BitAboveWidth(x, d, i); }
  }

  lemma {:induction false} LoadBound(w: nat, mem: Memory, o: nat, n: nat)
    requires forall i :: 0 <= i < n ==> mem(Idx(w, o, i)) < 256
    ensures LoadBytes(w, mem, o, n) < Pow2(8 * n)
  {
    if n > 0 {
      LoadBound(w, mem, o, n - 1);
      TopByteBound(LoadBytes(w, mem, o, n - 1), mem(Idx(w, o, n - 1)), 8 * (n - 1));
    }
  }

  lemma TopByteBound(x: nat, b: nat, d: nat)
    requires x < Pow2(d) && b < 256
    ensures x + b * Pow2(d) < Pow2(d + 8)
  {
    assert Pow2(8) == 256;
    Pow2Add(8, d);
    MulMono(b, Pow2(d), 255, Pow2(d));
  }

  /** `result | (zext(byte) << 8 * i)` is the number with one more byte. */
  lemma OneMoreByte(w: nat, mem: Memory, o: nat, i: nat, bits: nat)
    requires LoadBytes(w, mem, o, i) < Pow2(8 * i) && mem(Idx(w, o, i)) < 256 && 8 * i + 8 <= bits
    ensures BitOr(LoadBytes(w, mem, o, i), Shl(bits, mem(Idx(w, o, i)), 8 * i)) == LoadBytes(w, mem, o, i + 1) < Pow2(8 * (i + 1))
  {
    var x, b, d := LoadBytes(w, mem, o, i), mem(Idx(w, o, i)), Pow2(8 * i);
    assert Pow2(8) == 256;
    Pow2Add(8, 8 * i);
    MulMono(b, d, 255, d);
    Pow2Mono(8 * i + 8, bits);
    DivModUnique(b * d, Pow2(bits), 0, b * d);
    OrIsSum(x, 8 * i, b);
  }
}
