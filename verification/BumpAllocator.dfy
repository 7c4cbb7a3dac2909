/**
 The bump allocator for concrete addresses (src/Memory/BumpAllocator.cpp), in w-bit wrapping
 arithmetic.  The heap creates it over the upper half of the address space, so that base and size are
 both 2^(w-1) and the end of the range wraps to 0.
 */
module BumpAllocators {
  import opened Bits
  import opened Options
  import opened Simplifier
  import opened SimplifierSound

  ghost predicate PowerOf2(w: nat, a: nat) {
    exists k: nat :: k < w && a == Pow2(k)
  }

  /** `x & ~(2^k - 1)` rounds down to a multiple of 2^k. */
  lemma MaskRoundsDown(w: nat, k: nat, x: nat)
    requires k < w && x < Pow2(w)
    ensures Pow2(k) - 1 < Pow2(w) && BitAnd(x, BitNot(w, Pow2(k) - 1)) == x / Pow2(k) * Pow2(k)
  {
    Pow2StrictMono(k, w);
    assert BitNot(w, Pow2(k) - 1) == MaskFrom(w, k);
    ShlOfLShr(w, x, k);
    RoundedBelow(x, Pow2(k), Pow2(w));
  }

  lemma RoundedBelow(x: nat, d: nat, p: nat)
    requires d > 0 && x < p
    ensures (x / d * d) % p == x / d * d
  {
    var q := x / d;
    assert x == q * d + x % d && q * d >= 0;
    DivModUnique(q * d, p, 0, q * d);
  }

  /** The smallest multiple of d from c on. */
  function RoundUp(c: nat, d: nat): nat
    requires d > 0
  {
    (c + d - 1) / d * d
  }

  lemma RoundUpBounds(c: nat, d: nat)
    requires d > 0
    ensures c <= RoundUp(c, d) < c + d && RoundUp(c, d) % d == 0
  {
    var x := c + d - 1;
    assert x == x / d * d + x % d;
    DivModUnique(RoundUp(c, d), d, x / d, 0);
  }

  /** Rounding up never passes a multiple of d. */
  lemma RoundUpStays(c: nat, d: nat, m: nat)
    requires d > 0 && c <= m * d
    ensures RoundUp(c, d) <= m * d
  {
    RoundUpBounds(c, d);
    var q := (c + d - 1) / d;
    assert (m + 1) * d == m * d + d;
    if q > m { MulMono(m + 1, d, q, d); } else { MulMono(q, d, m, d); }
  }

  /** The two statements that align `current`, on the unwrapped position c. */
  lemma AlignStep(w: nat, k: nat, c: nat, current: nat)
    requires 1 <= w && k < w && c <= Pow2(w) && current == c % Pow2(w)
    ensures Pow2(k) - 1 < Pow2(w)
    ensures c <= RoundUp(c, Pow2(k)) <= Pow2(w) && RoundUp(c, Pow2(k)) % Pow2(k) == 0
    ensures BitAnd((current + (Pow2(k) - 1)) % Pow2(w), BitNot(w, Pow2(k) - 1)) == RoundUp(c, Pow2(k)) % Pow2(w)
  {
    var d, p := Pow2(k), Pow2(w);
    Pow2StrictMono(k, w);
    Pow2Add(w - k, k);
    RoundUpBounds(c, d);
    RoundUpStays(c, d, Pow2(w - k));
    var x := (current + (d - 1)) % p;
    MaskRoundsDown(w, k, x);
    if c + d - 1 < p {
      DivModUnique(c, p, 0, c);
      DivModUnique(c + d - 1, p, 0, c + d - 1);
      DivModUnique(RoundUp(c, d), p, 0, RoundUp(c, d));
    } else {
      AtTheEnd(c, d, Pow2(w - k));
      WrappedBelow(c, d, p);
      DivModUnique(x, d, 0, x);
      DivModUnique(p, p, 1, 0);
    }
  }

  /** Within d - 1 of the end p, adding d - 1 wraps to a position below d. */
  lemma WrappedBelow(c: nat, d: nat, p: nat)
    requires 0 < d < p && c <= p <= c + d - 1
    ensures 0 <= (c % p + (d - 1)) % p < d
  {
    if c == p {
      DivModUnique(c, p, 1, 0);
      DivModUnique(d - 1, p, 0, d - 1);
    } else {
      DivModUnique(c, p, 0, c);
      DivModUnique(c + d - 1, p, 1, c + d - 1 - p);
    }
  }

  /** Within d - 1 of the end m*d, rounding up reaches the end. */
  lemma AtTheEnd(c: nat, d: nat, m: nat)
    requires d > 0 && c <= m * d <= c + d - 1
    ensures RoundUp(c, d) == m * d
  {
    DivModUnique(c + d - 1, d, m, c + d - 1 - m * d);
  }

  /** `size - (current - base)`, in w bits. */
  function FreeSpace(w: nat, base: nat, size: nat, current: nat): int {
    (size - (current - base) % Pow2(w)) % Pow2(w)
  }

  /** The free space the allocator computes is the distance to the end. */
  lemma Room(w: nat, c: nat, current: nat)
    requires w >= 1 && Pow2(w - 1) <= c <= Pow2(w) && current == c % Pow2(w)
    ensures FreeSpace(w, Pow2(w - 1), Pow2(w - 1), current) == Pow2(w) - c
  {
    var p: int, b: int := Pow2(w), Pow2(w - 1);
    assert p == 2 * b;
    if c == p {
      DivModUnique(c, p, 1, 0);
      DivModUnique(0 - b, p, -1, b);
    } else {
      DivModUnique(c, p, 0, c);
      DivModUnique(c - b, p, 0, c - b);
    }
    DivModUnique(p - c, p, 0, p - c);
  }

  /** Blocks handed out so far: in the upper half, below c, each with its 8 guard bytes before the next. */
  ghost predicate Packed(w: nat, lens: map<nat, nat>, c: nat)
    requires w >= 1
  {
    && (forall p :: p in lens ==> Pow2(w - 1) <= p && p + lens[p] + 8 <= c)
    && (forall p, q :: p in lens && q in lens && p < q ==> p + lens[p] + 8 <= q)
  }

  lemma PackedMono(w: nat, lens: map<nat, nat>, c: nat, c': nat)
    requires w >= 1 && Packed(w, lens, c) && c <= c'
    ensures Packed(w, lens, c')
  {}

  lemma PackedMore(w: nat, lens: map<nat, nat>, c: nat, req: nat, need: nat)
    requires w >= 1 && Pow2(w - 1) <= c && Packed(w, lens, c)
    ensures Packed(w, lens, c + need) && c !in lens
    ensures need == req + 8 ==> Packed(w, lens[c := req], c + need)
  {}

  /** The alignment in force: at least 8. */
  function InForce(align: nat): (al: nat)
    ensures al >= 8
  {
    if align < 8 then 8 else align
  }

  /** A request with its guard bytes, in w bits. */
  function Reserved(w: nat, req: nat): (n: nat)
    requires w >= 4 && req < Pow2(w)
  {
    if req + 8 < Pow2(w) then req + 8 else req + 8 - Pow2(w)
  }

  /** Position c leaves room for the request. */
  predicate HasPlace(w: nat, c: nat, req: nat, align: nat)
    requires w >= 4 && req < Pow2(w)
  {
    RoundUp(c, InForce(align)) + Reserved(w, req) <= Pow2(w)
  }

  /** Where the allocator stands after the request, granted or not. */
  function NextPosition(w: nat, c: nat, req: nat, align: nat): nat
    requires w >= 4 && req < Pow2(w)
  {
    RoundUp(c, InForce(align)) + if HasPlace(w, c, req, align) then Reserved(w, req) else 0
  }

  // ----- runs of requests -----

  datatype Request = Request(size: nat, align: nat)

  ghost predicate InWidth(w: nat, reqs: seq<Request>) {
    forall i {:trigger reqs[i]} :: 0 <= i < |reqs| ==> reqs[i].size < Pow2(w)
  }

  /** The most the requests can take: sizes, guard bytes and alignment. */
  function Demand(reqs: seq<Request>): nat {
    if reqs == [] then 0 else reqs[0].size + 8 + InForce(reqs[0].align) + Demand(reqs[1..])
  }

  /** Position after a run of requests. */
  function PositionAfter(w: nat, c: nat, reqs: seq<Request>): nat
    requires w >= 4 && InWidth(w, reqs)
    decreases |reqs|
  {
    if reqs == [] then c else PositionAfter(w, NextPosition(w, c, reqs[0].size, reqs[0].align), reqs[1..])
  }

  /** All requests are granted. */
  predicate AllPlaced(w: nat, c: nat, reqs: seq<Request>)
    requires w >= 4 && InWidth(w, reqs)
    decreases |reqs|
  {
    reqs == [] || (HasPlace(w, c, reqs[0].size, reqs[0].align) &&
                   AllPlaced(w, NextPosition(w, c, reqs[0].size, reqs[0].align), reqs[1..]))
  }

  /** As long as the demand stays within the room that is left, every request is granted and no more is used up. */
  lemma {:induction false} EnoughRoom(w: nat, c: nat, reqs: seq<Request>)
    requires w >= 4 && InWidth(w, reqs) && Pow2(w - 1) <= c && c + Demand(reqs) <= Pow2(w)
    ensures AllPlaced(w, c, reqs) && PositionAfter(w, c, reqs) <= c + Demand(reqs)
    decreases |reqs|
  {
    if reqs != [] {
      assert reqs[0].size < Pow2(w);
      RoundUpBounds(c, InForce(reqs[0].align));
      EnoughRoom(w, NextPosition(w, c, reqs[0].size, reqs[0].align), reqs[1..]);
    }
  }

  /** A fresh allocator grants every run of requests that demands at most its half of the address space. */
  lemma FreshRoom(w: nat, reqs: seq<Request>)
    requires w >= 4 && InWidth(w, reqs) && Demand(reqs) <= Pow2(w - 1)
    ensures AllPlaced(w, Pow2(w - 1), reqs)
  {
    EnoughRoom(w, Pow2(w - 1), reqs);
  }

  /** A block as the heap's constraints want it: not null, and not wrapping. */
  predicate GoodBlock(w: nat, pos: nat, req: nat) {
    pos != 0 && pos + req < Pow2(w)
  }

  class BumpAllocator {
    const w: nat
    var current: nat
    const base: nat
    const size: nat
    var allocations: set<nat>
    /** The position before it is wrapped to w bits. */
    ghost var c: nat
    /** Every block of a fitting request ever handed out, with its requested size. */
    ghost var lens: map<nat, nat>

    ghost predicate Valid()
      reads this
    {
      && w >= 4 && base == size == Pow2(w - 1)
      && Pow2(w - 1) <= c <= Pow2(w) && current == c % Pow2(w) && Packed(w, lens, c)
    }

    /** `MemHeap::alloc_addr` starts the allocator at the signed minimum. */
    constructor (w: nat)
      requires w >= 4
      ensures Valid() && this.w == w && allocations == {} && lens == map[] && c == Pow2(w - 1)
    {
      this.w, base, size, current := w, Pow2(w - 1), Pow2(w - 1), Pow2(w - 1);
      allocations, lens, c := {}, map[], Pow2(w - 1);
      Pow2StrictMono(w - 1, w);
      DivModUnique(Pow2(w - 1), Pow2(w), 0, Pow2(w - 1));
    }

    /**
     `allocate`.  The block is aligned.  If the request and its 8 guard bytes fit in w bits, the block
     is good and disjoint from every block ever handed out; if they do not fit, a block that is handed
     out is null or wraps.  Allocation succeeds exactly when there is room between the aligned position
     and the end, takes exactly the reserved space, and otherwise only aligns.
     */
    method Allocate(req: nat, align: nat) returns (r: Option<nat>)
      requires Valid() && req < Pow2(w) && (align == 0 || PowerOf2(w, align))
      modifies this
      ensures Valid()
      ensures r.Some? ==> r.value < Pow2(w) && (align == 0 || r.value % align == 0)
      ensures r.Some? ==> (GoodBlock(w, r.value, req) <==> req + 8 < Pow2(w))
      ensures r.Some? && req + 8 < Pow2(w) ==>
        && Pow2(w - 1) <= r.value && r.value + req + 8 <= Pow2(w) && r.value !in old(lens)
        && (forall p :: p in old(lens) ==> p + old(lens)[p] + 8 <= r.value)
        && lens == old(lens)[r.value := req]
      ensures r.Some? <==> HasPlace(w, old(c), req, align)
      ensures r.Some? ==> r.value == RoundUp(old(c), InForce(align)) % Pow2(w)
      ensures c == NextPosition(w, old(c), req, align)
      ensures r.None? || req + 8 >= Pow2(w) ==> lens == old(lens)
      ensures allocations == old(allocations) + (if r.Some? then {r.value} else {})
    {
      var al := InForce(align);
      ghost var k := AlignCurrent(align, al);
      var need := Need(req);
      var room := HasRoom(need);
      if !room { return None; }
      PlacedBlock(w, k, c, current, req, align);
      r := Some(current);
      Take(req, need);
    }

    /** `size_ + 8`. */
    method Need(req: nat) returns (need: nat)
      requires w >= 4 && req < Pow2(w)
      ensures need == Reserved(w, req)
    {
      Needs(w, req);
      need := (req + 8) % Pow2(w);
    }

    /** Whether the space up to the end suffices. */
    method HasRoom(need: nat) returns (b: bool)
      requires Valid()
      ensures b <==> c + need <= Pow2(w)
    {
      Room(w, c, current);
      b := !(FreeSpace(w, base, size, current) < need);
    }

    /** `current += size; allocations.insert(pos)`. */
    method Take(ghost req: nat, need: nat)
      requires Valid() && c + need <= Pow2(w) && (req + 8 < Pow2(w) ==> need == req + 8 && current == c)
      modifies this
      ensures Valid() && allocations == old(allocations) + {old(current)} && c == old(c) + need
      ensures if req + 8 < Pow2(w) then lens == old(lens)[old(c) := req] else lens == old(lens)
      ensures old(c) !in old(lens)
    {
      BumpStep(w, c, current, need);
      PackedMore(w, lens, c, req, need);
      allocations := allocations + {current};
      if req + 8 < Pow2(w) { lens := lens[c := req]; }
      current := (current + need) % Pow2(w);
      c := c + need;
    }

    /** `current += align - 1; current &= ~(align - 1)`, also when the allocation then fails. */
    method AlignCurrent(ghost align: nat, al: nat) returns (ghost k: nat)
      requires Valid() && (align == 0 || PowerOf2(w, align)) && al == InForce(align)
      modifies this`current, this`c
      ensures Valid() && c == RoundUp(old(c), al)
      ensures k < w && c % Pow2(k) == 0 && (align != 0 ==> exists j: nat :: j <= k && align == Pow2(j))
    {
      k := Exponent(w, align);
      AlignStep(w, k, c, current);
      PackedMono(w, lens, c, RoundUp(c, al));
      current := BitAnd((current + (al - 1)) % Pow2(w), BitNot(w, al - 1));
      c := RoundUp(c, al);
    }

    /** `deallocate` asserts that the address is allocated. */
    method Deallocate(addr: nat)
      requires Valid() && addr in allocations
      modifies this`allocations
      ensures Valid() && allocations == old(allocations) - {addr}
    {
      allocations := allocations - {addr};
    }
  }

  /** The alignment in force is a power of two, at least 8. */
  lemma Exponent(w: nat, align: nat) returns (k: nat)
    requires w >= 4 && (align == 0 || PowerOf2(w, align))
    ensures k < w && Pow2(k) == InForce(align)
    ensures align != 0 ==> exists j: nat :: j <= k && align == Pow2(j)
  {
    assert Pow2(3) == 8;
    if align < 8 {
      k := 3;
      if align != 0 {
        var j: nat :| j < w && align == Pow2(j);
        if j > 3 { Pow2Mono(3, j); }
      }
    } else {
      k :| k < w && align == Pow2(k);
    }
  }

  lemma Needs(w: nat, req: nat)
    requires w >= 4 && req < Pow2(w)
    ensures (req + 8) % Pow2(w) == Reserved(w, req)
  {
    Pow2Mono(4, w);
    assert Pow2(4) == 16;
    if req + 8 < Pow2(w) { DivModUnique(req + 8, Pow2(w), 0, req + 8); }
    else { DivModUnique(req + 8, Pow2(w), 1, req + 8 - Pow2(w)); }
  }

  /** Whether the block at position c, where the needed space fits before the end, is good. */
  lemma PlacedBlock(w: nat, k: nat, c: nat, pos: nat, req: nat, align: nat)
    requires w >= 4 && k < w && req < Pow2(w) && Pow2(w - 1) <= c && c % Pow2(k) == 0 && pos == c % Pow2(w)
    requires c + Reserved(w, req) <= Pow2(w)
    requires align != 0 ==> exists j: nat :: j <= k && align == Pow2(j)
    ensures align == 0 || pos % align == 0
    ensures GoodBlock(w, pos, req) <==> req + 8 < Pow2(w)
    ensures req + 8 < Pow2(w) ==> pos == c && c + req + 8 <= Pow2(w)
  {
    if c < Pow2(w) {
      DivModUnique(c, Pow2(w), 0, c);
      if align != 0 {
        var j: nat :| j <= k && align == Pow2(j);
        CoarserMultiple(c, j, k);
      }
      Pow2Mono(4, w);
      assert Pow2(4) == 16;
      assert Pow2(w) == 2 * Pow2(w - 1);
    } else {
      DivModUnique(c, Pow2(w), 1, 0);
      if align != 0 { DivModUnique(0, align, 0, 0); }
    }
  }

  lemma CoarserMultiple(c: nat, j: nat, k: nat)
    requires j <= k && c % Pow2(k) == 0
    ensures c % Pow2(j) == 0
  {
    Pow2Add(k - j, j);
    var m, d := c / Pow2(k), Pow2(j);
    assert c == m * Pow2(k);
    assert c == (m * Pow2(k - j)) * d;
    DivModUnique(c, d, m * Pow2(k - j), 0);
  }

  lemma BumpStep(w: nat, c: nat, current: nat, need: nat)
    requires w >= 1 && c + need <= Pow2(w) && current == c % Pow2(w)
    ensures (current + need) % Pow2(w) == (c + need) % Pow2(w)
  {
    if c == Pow2(w) { DivModUnique(c, Pow2(w), 1, 0); DivModUnique(0, Pow2(w), 0, 0); }
    else { DivModUnique(c, Pow2(w), 0, c); }
  }
}
