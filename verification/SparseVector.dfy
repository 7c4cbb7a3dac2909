/**
 A vector with holes (include/caffeine/ADT/SparseVector.h): erased slots are chained into a free
 list, and iteration skips them.
 */
module SparseVectors {
  const NO_HEAD := -1

  /** A slot holds a value, or the index of the next free slot. */
  datatype Slot<T> = Hole(next: int) | Full(value: T)

  /** The stored values in order. */
  function Live<T>(slots: seq<Slot<T>>): (values: seq<T>)
    ensures |values| <= |slots|
  {
    if slots == [] then [] else Live(slots[..|slots| - 1]) + Shown(slots[|slots| - 1])
  }

  function Shown<T>(slot: Slot<T>): seq<T> {
    if slot.Full? then [slot.value] else []
  }

  lemma {:induction false} LiveCat<T>(a: seq<Slot<T>>, b: seq<Slot<T>>)
    ensures Live(a + b) == Live(a) + Live(b)
    decreases |b|
  {
    if b == [] {
      assert a + b == a;
    } else {
      assert (a + b)[..|a + b| - 1] == a + b[..|b| - 1];
      LiveCat(a, b[..|b| - 1]);
    }
  }

  /** Replacing one slot replaces what it shows. */
  lemma LiveAt<T>(s: seq<Slot<T>>, i: nat, x: Slot<T>)
    requires i < |s|
    ensures Live(s[i := x]) == Live(s[..i]) + Shown(x) + Live(s[i + 1..])
  {
    var l, r := s[..i], s[i + 1..];
    assert s[i := x] == (l + [x]) + r;
    LiveCat(l + [x], r);
    assert (l + [x])[..i] == l;
  }

  lemma LiveErased<T>(s: seq<Slot<T>>, i: nat, h: int)
    requires i < |s| && s[i].Full?
    ensures Live(s[i := Hole(h)]) == Live(s[..i]) + Live(s[i + 1..])
    ensures |Live(s)| == |Live(s[i := Hole(h)])| + 1
  {
    LiveAt(s, i, s[i]);
    LiveAt(s, i, Hole(h));
    assert s[i := s[i]] == s;
    assert Shown<T>(Hole(h)) == [];
  }

  lemma {:induction false} LiveHoles<T>(s: seq<Slot<T>>)
    requires forall i :: 0 <= i < |s| ==> s[i].Hole?
    ensures Live(s) == []
  {
    if s != [] { LiveHoles(s[..|s| - 1]); }
  }

  lemma {:induction false} FullWithoutHoles<T>(s: seq<Slot<T>>)
    ensures |Live(s)| == |s| <==> forall i :: 0 <= i < |s| ==> s[i].Full?
  {
    if s != [] {
      var init := s[..|s| - 1];
      FullWithoutHoles(init);
      if |Live(s)| == |s| {
        forall i | 0 <= i < |s| ensures s[i].Full? { if i < |init| { assert init[i].Full?; } }
      }
    }
  }

  /** A value is live exactly when some slot holds it. */
  lemma {:induction false} LiveMembers<T>(s: seq<Slot<T>>, x: T)
    ensures x in Live(s) <==> exists i :: 0 <= i < |s| && s[i] == Full(x)
  {
    if s != [] {
      var init := s[..|s| - 1];
      LiveMembers(init, x);
      if x in Live(init) {
        var i :| 0 <= i < |init| && init[i] == Full(x);
        assert s[i] == Full(x);
      }
      if i :| 0 <= i < |s| && s[i] == Full(x) {
        if i < |init| { assert init[i] == Full(x); }
      }
    }
  }

  /** `free` lists the holes in the order in which they will be reused. */
  ghost predicate Chain<T>(slots: seq<Slot<T>>, head: int, free: seq<nat>) {
    && head == LinkTo(free, 0)
    && (forall k {:trigger Linked(slots, free, k)} :: 0 <= k < |free| ==> Linked(slots, free, k))
    && (forall j, k :: 0 <= j < k < |free| ==> free[j] != free[k])
    && (forall i :: 0 <= i < |slots| && slots[i].Hole? ==> i in free)
  }

  ghost predicate Linked<T>(slots: seq<Slot<T>>, free: seq<nat>, k: nat)
    requires k < |free|
  {
    free[k] < |slots| && slots[free[k]] == Hole(LinkTo(free, k + 1))
  }

  ghost function LinkTo(free: seq<nat>, k: nat): int {
    if k < |free| then free[k] else NO_HEAD
  }

  lemma ChainGrows<T>(slots: seq<Slot<T>>, head: int, free: seq<nat>, x: T)
    requires Chain(slots, head, free)
    ensures Chain(slots + [Full(x)], head, free)
  {
    forall k | 0 <= k < |free| ensures Linked(slots + [Full(x)], free, k) { assert Linked(slots, free, k); }
  }

  lemma ChainErased<T>(slots: seq<Slot<T>>, head: int, free: seq<nat>, i: nat)
    requires Chain(slots, head, free) && i < |slots| && slots[i].Full?
    ensures Chain(slots[i := Hole(head)], i, [i] + free)
  {
    var slots', free' := slots[i := Hole(head)], [i] + free;
    forall k | 0 <= k < |free'| ensures Linked(slots', free', k) {
      if k > 0 { assert Linked(slots, free, k - 1); }
    }
    forall j, k | 0 <= j < k < |free'| ensures free'[j] != free'[k] {
      assert Linked(slots, free, k - 1);
    }
    forall h | 0 <= h < |slots'| && slots'[h].Hole? ensures h in free' {
      if h == i { assert free'[0] == i; } else {
        var k :| 0 <= k < |free| && free[k] == h;
        assert free'[k + 1] == h;
      }
    }
  }

  lemma ChainReused<T>(slots: seq<Slot<T>>, head: int, free: seq<nat>, x: T)
    requires Chain(slots, head, free) && free != []
    ensures head == free[0] < |slots| && slots[head].Hole?
    ensures Chain(slots[head := Full(x)], slots[head].next, free[1..])
  {
    assert Linked(slots, free, 0);
    var slots', free' := slots[head := Full(x)], free[1..];
    forall k | 0 <= k < |free'| ensures Linked(slots', free', k) { assert Linked(slots, free, k + 1); }
    forall h | 0 <= h < |slots'| && slots'[h].Hole? ensures h in free' {
      var k :| 0 <= k < |free| && free[k] == h;
      assert free'[k - 1] == h;
    }
  }

  lemma ChainEmpty<T>(slots: seq<Slot<T>>)
    requires forall i :: 0 <= i < |slots| ==> slots[i].Full?
    ensures Chain(slots, NO_HEAD, [])
  {}

  /** `std::remove_if` over the slots. */
  method WithoutHoles<T>(slots: seq<Slot<T>>) returns (kept: seq<Slot<T>>)
    ensures Live(kept) == Live(slots) && forall k :: 0 <= k < |kept| ==> kept[k].Full?
  {
    kept := [];
    for i := 0 to |slots|
      invariant Live(kept) == Live(slots[..i]) && forall k :: 0 <= k < |kept| ==> kept[k].Full?
    {
      assert slots[..i + 1][..i] == slots[..i];
      if slots[i].Full? {
        assert (kept + [slots[i]])[..|kept|] == kept;
        kept := kept + [slots[i]];
      }
    }
    assert slots[..|slots|] == slots;
  }

  class SparseVector<T> {
    var elements: seq<Slot<T>>
    var size: nat
    var head: int
    ghost var free: seq<nat>

    ghost predicate Valid()
      reads this
    {
      size == |Live(elements)| && Chain(elements, head, free)
    }

    constructor ()
      ensures Valid() && elements == []
    {
      elements, size, head, free := [], 0, NO_HEAD, [];
    }

    /** `push_back` appends, whatever holes there are. */
    method PushBack(value: T) returns (idx: nat)
      requires Valid()
      modifies this
      ensures Valid() && elements == old(elements) + [Full(value)] && idx == |old(elements)|
      ensures Live(elements) == old(Live(elements)) + [value]
    {
      idx := |elements|;
      ChainGrows(elements, head, free, value);
      assert (elements + [Full(value)])[..idx] == elements;
      elements := elements + [Full(value)];
      size := size + 1;
    }

    /** `insert` reuses the most recently freed slot. */
    method Insert(value: T) returns (idx: nat)
      requires Valid()
      modifies this
      ensures Valid() && idx < |elements|
      ensures if old(head) == NO_HEAD then idx == |old(elements)| && elements == old(elements) + [Full(value)]
              else idx == old(head) < |old(elements)| && old(elements)[idx].Hole? && elements == old(elements)[idx := Full(value)]
      ensures Live(elements) == Live(elements[..idx]) + [value] + Live(elements[idx + 1..])
      ensures |Live(elements)| == |old(Live(elements))| + 1
    {
      if head == NO_HEAD {
        idx := PushBack(value);
        assert elements[..idx] == old(elements) && elements[idx + 1..] == [];
      } else {
        ChainReused(elements, head, free, value);
        idx := head;
        ghost var before := elements;
        head := elements[idx].next;
        elements := elements[idx := Full(value)];
        free := free[1..];
        size := size + 1;
        LiveAt(before, idx, before[idx]);
        LiveAt(before, idx, Full(value));
        assert before[idx := before[idx]] == before;
        assert elements[..idx] == before[..idx] && elements[idx + 1..] == before[idx + 1..];
      }
    }

    method Erase(idx: nat)
      requires Valid() && idx < |elements| && elements[idx].Full?
      modifies this
      ensures Valid() && elements == old(elements)[idx := Hole(old(head))]
      ensures Live(elements) == old(Live(elements[..idx])) + old(Live(elements[idx + 1..]))
    {
      ghost var before := elements;
      ChainErased(elements, head, free, idx);
      LiveErased(before, idx, head);
      elements := elements[idx := Hole(head)];
      free := [idx] + free;
      head := idx;
      size := size - 1;
    }

    /** All holes go; the values stay in order. */
    method Compress()
      requires Valid()
      modifies this
      ensures Valid() && Live(elements) == old(Live(elements)) && |elements| == |Live(elements)|
    {
      if size == |elements| { return; }
      var kept := WithoutHoles(elements);
      FullWithoutHoles(kept);
      ChainEmpty(kept);
      elements, head, size, free := kept, NO_HEAD, |kept|, [];
    }

    method Clear()
      modifies this
      ensures Valid() && elements == []
    {
      elements, head, size, free := [], NO_HEAD, 0, [];
    }

    /** `++it`: the next slot that holds a value, or the end. */
    method Next(i: nat) returns (j: nat)
      requires i < |elements|
      ensures i < j <= |elements| && (j < |elements| ==> elements[j].Full?)
      ensures forall k :: i < k < j ==> elements[k].Hole?
    {
      j := i + 1;
      while j < |elements| && elements[j].Hole?
        invariant i < j <= |elements| && forall k :: i < k < j ==> elements[k].Hole?
      {
        j := j + 1;
      }
    }

    /** `iterator_at(idx)`, moved forward off a hole: values from idx on start here. */
    method FirstFrom(idx: nat) returns (j: nat)
      requires idx <= |elements|
      ensures idx <= j <= |elements| && (j < |elements| ==> elements[j].Full?)
      ensures Live(elements[idx..]) == Live(elements[j..]) && forall k :: idx <= k < j ==> elements[k].Hole?
    {
      j := idx;
      if j < |elements| && elements[j].Hole? {
        j := Next(j);
      }
      LiveHoles(elements[idx..j]);
      assert elements[idx..] == elements[idx..j] + elements[j..];
      LiveCat(elements[idx..j], elements[j..]);
    }
  }
}
