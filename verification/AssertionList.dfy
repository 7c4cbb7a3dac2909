/**
 The path condition (src/Model/AssertionList.cpp): a duplicate-free list of 1-bit expressions, split
 by a mark into those a solver has shown satisfiable together and those added since.
 */
module AssertionLists {
  import opened Bits
  import opened Exprs
  import opened Simplifier
  import opened SimplifierSound
  import opened Builder
  import opened SparseVectors

  predicate AllBool(xs: seq<Expr>) {
    forall i :: 0 <= i < |xs| ==> IsBool(xs[i])
  }

  /** The conjunction of a list holds. */
  ghost predicate Conj(xs: seq<Expr>, env: Env)
    requires AllBool(xs)
  {
    forall i :: 0 <= i < |xs| ==> Holds(xs[i], env)
  }

  predicate Distinct(xs: seq<Expr>) {
    forall i, j :: 0 <= i < j < |xs| ==> xs[i] != xs[j]
  }

  lemma AllBoolCat(xs: seq<Expr>, ys: seq<Expr>)
    requires AllBool(xs) && AllBool(ys)
    ensures AllBool(xs + ys)
  {
    var zs := xs + ys;
    forall i | 0 <= i < |zs| ensures IsBool(zs[i]) { assert zs[i] == if i < |xs| then xs[i] else ys[i - |xs|]; }
  }

  lemma ConjCat(xs: seq<Expr>, ys: seq<Expr>, env: Env)
    requires AllBool(xs) && AllBool(ys)
    ensures AllBool(xs + ys) && (Conj(xs + ys, env) <==> Conj(xs, env) && Conj(ys, env))
  {
    var zs := xs + ys;
    AllBoolCat(xs, ys);
    if Conj(zs, env) {
      forall i | 0 <= i < |xs| ensures Holds(xs[i], env) { assert zs[i] == xs[i]; }
      forall i | 0 <= i < |ys| ensures Holds(ys[i], env) { assert zs[|xs| + i] == ys[i]; }
    }
    if Conj(xs, env) && Conj(ys, env) {
      forall i | 0 <= i < |zs| ensures Holds(zs[i], env) { assert zs[i] == if i < |xs| then xs[i] else ys[i - |xs|]; }
    }
  }

  lemma ConjOne(x: Expr, env: Env)
    requires IsBool(x)
    ensures AllBool([x]) && (Conj([x], env) <==> Holds(x, env))
  {
    if Conj([x], env) { assert Holds([x][0], env); }
  }

  // ----- decomposition -----

  predicate IsAnd(e: Expr) {
    e.Bin? && e.op == And
  }

  predicate IsNotOr(e: Expr) {
    e.Not? && e.arg.Bin? && e.arg.op == Or
  }

  /** What is pushed for a conjunction or a negated disjunction. */
  function Parts(e: Expr): (ps: seq<Expr>)
    requires IsBool(e) && (IsAnd(e) || IsNotOr(e))
  {
    if IsAnd(e) then [e.lhs, e.rhs] else assert WellTyped(e.arg); [MkNot(e.arg.lhs), MkNot(e.arg.rhs)]
  }

  lemma {:induction false} AndHolds(l: Expr, r: Expr, env: Env)
    requires IsBool(Bin(And, l, r))
    ensures IsBool(l) && IsBool(r) && (Holds(Bin(And, l, r), env) <==> Holds(l, env) && Holds(r, env))
  {
    BoolOps(Eval(l, env), Eval(r, env));
  }

  lemma {:induction false} OrHolds(l: Expr, r: Expr, env: Env)
    requires IsBool(Bin(Or, l, r))
    ensures IsBool(l) && IsBool(r) && (Holds(Bin(Or, l, r), env) <==> Holds(l, env) || Holds(r, env))
  {
    BoolOps(Eval(l, env), Eval(r, env));
  }

  lemma {:induction false} MkNotHolds(a: Expr, env: Env)
    requires IsBool(a)
    ensures IsBool(MkNot(a)) && (Holds(MkNot(a), env) <==> !Holds(a, env))
  {
    var e, v := MkNot(a), Eval(a, env);
    NotSound(a, env);
    BitNotOne(v);
    assert Eval(e, env) == 1 - v;
  }

  lemma {:induction false} NotHolds(a: Expr, env: Env)
    requires IsBool(a)
    ensures IsBool(Not(a)) && (Holds(Not(a), env) <==> !Holds(a, env))
  {
    BitNotOne(Eval(a, env));
  }

  lemma BitNotOne(v: nat)
    requires v < 2
    ensures BitNot(1, v) == 1 - v
  {
    assert Pow2(1) == 2 * Pow2(0);
  }

  lemma {:induction false} NotSize(a: Expr)
    requires WellTyped(a)
    ensures Size(MkNot(a)) <= Size(a) + 1
  {}

  method Pop(stack: seq<Expr>) returns (rest: seq<Expr>, op: Expr)
    requires stack != []
    ensures stack == rest + [op]
  {
    rest, op := stack[..|stack| - 1], stack[|stack| - 1];
  }

  ghost predicate AllAre(xs: seq<Expr>, a: Expr) {
    forall i :: 0 <= i < |xs| ==> xs[i] == a
  }

  lemma AllArePop(rest: seq<Expr>, op: Expr, a: Expr)
    requires AllAre(rest + [op], a)
    ensures AllAre(rest, a) && op == a
  {
    assert (rest + [op])[|rest|] == op;
    forall i | 0 <= i < |rest| ensures rest[i] == a { assert (rest + [op])[i] == rest[i]; }
  }

  lemma LastBool(xs: seq<Expr>, e: Expr)
    requires AllBool(xs + [e])
    ensures AllBool(xs) && IsBool(e)
  {
    assert (xs + [e])[|xs|] == e;
    forall i | 0 <= i < |xs| ensures IsBool(xs[i]) { assert (xs + [e])[i] == xs[i]; }
  }

  lemma PartsBool(xs: seq<Expr>, e: Expr)
    requires IsBool(e) && (IsAnd(e) || IsNotOr(e)) && AllBool(xs)
    ensures AllBool(Parts(e)) && AllBool(xs + Parts(e))
  {
    if IsNotOr(e) { assert WellTyped(e.arg); }
  }

  lemma {:induction false} PartsHold(e: Expr, env: Env)
    requires IsBool(e) && (IsAnd(e) || IsNotOr(e))
    ensures AllBool(Parts(e)) && (Conj(Parts(e), env) <==> Holds(e, env))
  {
    var ps := Parts(e);
    if IsAnd(e) {
      AndHolds(e.lhs, e.rhs, env);
    } else {
      var l, r := e.arg.lhs, e.arg.rhs;
      OrHolds(l, r, env);
      NotHolds(e.arg, env);
      MkNotHolds(l, env);
      MkNotHolds(r, env);
    }
    if Conj(ps, env) { assert Holds(ps[0], env) && Holds(ps[1], env); }
  }

  /** Twice the size, less one: splitting an expression always loses weight. */
  function Weight(e: Expr): (w: nat) {
    2 * Size(e) - 1
  }

  function Total(xs: seq<Expr>): nat {
    if xs == [] then 0 else Total(xs[..|xs| - 1]) + Weight(xs[|xs| - 1])
  }

  lemma TotalPush(xs: seq<Expr>, x: Expr)
    ensures Total(xs + [x]) == Total(xs) + Weight(x)
  {
    assert (xs + [x])[..|xs|] == xs;
  }

  lemma TotalSplit(xs: seq<Expr>, e: Expr)
    requires IsBool(e) && (IsAnd(e) || IsNotOr(e))
    ensures Total(xs + Parts(e)) < Total(xs + [e])
  {
    var ps := Parts(e);
    if IsNotOr(e) {
      assert WellTyped(e.arg);
      NotSize(e.arg.lhs);
      NotSize(e.arg.rhs);
      assert Size(e) == 1 + Size(e.arg) && Size(e.arg) == 1 + Size(e.arg.lhs) + Size(e.arg.rhs);
    }
    assert Weight(ps[0]) + Weight(ps[1]) < Weight(e);
    TotalPush(xs, e);
    TotalPush(xs, ps[0]);
    TotalPush(xs + [ps[0]], ps[1]);
    assert xs + ps == xs + [ps[0]] + [ps[1]];
  }

  /** Symbol occurrences in a list. */
  function SymTotal(xs: seq<Expr>): nat {
    if xs == [] then 0 else SymTotal(xs[..|xs| - 1]) + SymCount(xs[|xs| - 1])
  }

  lemma SymTotalPush(xs: seq<Expr>, x: Expr)
    ensures SymTotal(xs + [x]) == SymTotal(xs) + SymCount(x)
  {
    assert (xs + [x])[..|xs|] == xs;
  }

  lemma {:induction false} SymTotalCat(xs: seq<Expr>, ys: seq<Expr>)
    ensures SymTotal(xs + ys) == SymTotal(xs) + SymTotal(ys)
    decreases |ys|
  {
    if ys == [] { assert xs + ys == xs; } else {
      SymTotalCat(xs, ys[..|ys| - 1]);
      assert (xs + ys)[..|xs + ys| - 1] == xs + ys[..|ys| - 1];
    }
  }

  lemma PartsSymbols(xs: seq<Expr>, e: Expr)
    requires IsBool(e) && (IsAnd(e) || IsNotOr(e))
    ensures SymTotal(xs + Parts(e)) <= SymTotal(xs + [e])
  {
    var ps := Parts(e);
    var env: Env := s => 0;
    if IsNotOr(e) {
      assert WellTyped(e.arg);
      NotSound(e.arg.lhs, env);
      NotSound(e.arg.rhs, env);
      assert SymCount(e) == SymCount(e.arg) == SymCount(e.arg.lhs) + SymCount(e.arg.rhs);
    }
    assert SymCount(ps[0]) + SymCount(ps[1]) <= SymCount(e);
    SymTotalPush(xs, e);
    SymTotalPush(xs, ps[0]);
    SymTotalPush(xs + [ps[0]], ps[1]);
    assert xs + ps == xs + [ps[0]] + [ps[1]];
  }

  // ----- the list -----

  ghost predicate ListOk(slots: seq<Slot<Expr>>, lookup: set<Expr>) {
    var xs := Live(slots);
    AllBool(xs) && Distinct(xs) && forall x :: x in lookup <==> x in xs
  }

  lemma AppendOk(slots: seq<Slot<Expr>>, lookup: set<Expr>, x: Expr)
    requires ListOk(slots, lookup) && IsBool(x) && x !in lookup
    ensures ListOk(slots + [Full(x)], lookup + {x})
  {
    var xs := Live(slots);
    assert (slots + [Full(x)])[..|slots|] == slots;
    assert Live(slots + [Full(x)]) == xs + [x];
    assert forall y :: y in xs + [x] <==> y in xs || y == x;
  }

  lemma EraseOk(slots: seq<Slot<Expr>>, lookup: set<Expr>, i: nat, h: int)
    requires ListOk(slots, lookup) && i < |slots| && slots[i].Full?
    ensures ListOk(slots[i := Hole(h)], lookup - {slots[i].value})
  {
    var v, a, b := slots[i].value, Live(slots[..i]), Live(slots[i + 1..]);
    LiveErased(slots, i, h);
    LiveAt(slots, i, slots[i]);
    assert slots[i := slots[i]] == slots;
    RemoveOk(a, v, b, lookup);
  }

  lemma RemoveOk(a: seq<Expr>, v: Expr, b: seq<Expr>, lookup: set<Expr>)
    requires AllBool(a + [v] + b) && Distinct(a + [v] + b) && forall x :: x in lookup <==> x in a + [v] + b
    ensures AllBool(a + b) && Distinct(a + b) && forall x :: x in lookup - {v} <==> x in a + b
  {
    var xs, ys := a + [v] + b, a + b;
    forall i | 0 <= i < |ys| ensures ys[i] == xs[Skip(|a|, i)] && ys[i] != v {
      assert xs[|a|] == v;
    }
    forall x | x in lookup - {v} ensures x in ys {
      var i :| 0 <= i < |xs| && xs[i] == x;
      assert ys[if i < |a| then i else i - 1] == x;
    }
  }

  function Skip(n: nat, i: nat): nat {
    if i < n then i else i + 1
  }

  /** Moving assertions between a list and a stack keeps the models of both together. */
  ghost predicate SameModels(xs: seq<Expr>, stack: seq<Expr>, xs': seq<Expr>, stack': seq<Expr>)
    requires AllBool(xs) && AllBool(stack) && AllBool(xs') && AllBool(stack')
  {
    forall env: Env {:trigger SameAt(xs, stack, xs', stack', env)} :: SameAt(xs, stack, xs', stack', env)
  }

  ghost predicate SameAt(xs: seq<Expr>, stack: seq<Expr>, xs': seq<Expr>, stack': seq<Expr>, env: Env)
    requires AllBool(xs) && AllBool(stack) && AllBool(xs') && AllBool(stack')
  {
    Conj(xs, env) && Conj(stack, env) <==> Conj(xs', env) && Conj(stack', env)
  }

  lemma SameTrans(a: seq<Expr>, p: seq<Expr>, b: seq<Expr>, q: seq<Expr>, c: seq<Expr>, r: seq<Expr>)
    requires AllBool(a) && AllBool(p) && AllBool(b) && AllBool(q) && AllBool(c) && AllBool(r)
    requires SameModels(a, p, b, q) && SameModels(b, q, c, r)
    ensures SameModels(a, p, c, r)
  {
    forall env: Env ensures SameAt(a, p, c, r, env) {
      assert SameAt(a, p, b, q, env) && SameAt(b, q, c, r, env);
    }
  }

  lemma PopParts(xs: seq<Expr>, rest: seq<Expr>, e: Expr)
    requires AllBool(xs) && AllBool(rest) && IsBool(e) && (IsAnd(e) || IsNotOr(e))
    ensures AllBool(rest + [e]) && AllBool(rest + Parts(e)) && SameModels(xs, rest + [e], xs, rest + Parts(e))
    ensures SymTotal(rest + Parts(e)) <= SymTotal(rest + [e])
  {
    PartsBool(rest, e);
    PartsSymbols(rest, e);
    forall env: Env ensures SameAt(xs, rest + [e], xs, rest + Parts(e), env) {
      PartsHold(e, env);
      ConjOne(e, env);
      ConjCat(rest, [e], env);
      ConjCat(rest, Parts(e), env);
    }
  }

  lemma PopTrue(xs: seq<Expr>, rest: seq<Expr>)
    requires AllBool(xs) && AllBool(rest)
    ensures AllBool(rest + [ConstInt(1, 1)]) && SameModels(xs, rest + [ConstInt(1, 1)], xs, rest)
    ensures SymTotal(rest + [ConstInt(1, 1)]) == SymTotal(rest)
  {
    var e := ConstInt(1, 1);
    AllBoolCat(rest, [e]);
    SymTotalPush(rest, e);
    forall env: Env ensures SameAt(xs, rest + [e], xs, rest, env) {
      ConjPush(rest, e, env);
    }
  }

  lemma PopKeep(xs: seq<Expr>, rest: seq<Expr>, e: Expr)
    requires AllBool(xs) && AllBool(rest) && IsBool(e)
    ensures AllBool(rest + [e]) && AllBool(xs + [e]) && SameModels(xs, rest + [e], xs + [e], rest)
    ensures SymTotal(rest + [e]) == SymTotal(rest) + SymCount(e) && SymTotal(xs + [e]) == SymTotal(xs) + SymCount(e)
  {
    AllBoolCat(rest, [e]);
    AllBoolCat(xs, [e]);
    SymTotalPush(rest, e);
    SymTotalPush(xs, e);
    forall env: Env ensures SameAt(xs, rest + [e], xs + [e], rest, env) {
      ConjPush(rest, e, env);
      ConjPush(xs, e, env);
    }
  }

  lemma PopDuplicate(xs: seq<Expr>, rest: seq<Expr>, e: Expr)
    requires AllBool(xs) && AllBool(rest) && IsBool(e) && e in xs
    ensures AllBool(rest + [e]) && SameModels(xs, rest + [e], xs, rest) && SymTotal(rest) <= SymTotal(rest + [e])
  {
    AllBoolCat(rest, [e]);
    SymTotalPush(rest, e);
    forall env: Env ensures SameAt(xs, rest + [e], xs, rest, env) {
      ConjPush(rest, e, env);
    }
  }

  lemma ConjPush(xs: seq<Expr>, e: Expr, env: Env)
    requires AllBool(xs) && IsBool(e)
    ensures AllBool(xs + [e]) && (Conj(xs + [e], env) <==> Conj(xs, env) && Holds(e, env))
  {
    ConjOne(e, env);
    ConjCat(xs, [e], env);
  }

  class AssertionList {
    const list: SparseVector<Expr>
    var lookup: set<Expr>
    var mark: nat

    ghost predicate Valid()
      reads this, list
    {
      list.Valid() && ListOk(list.elements, lookup) && mark <= |list.elements|
    }

    /** The assertions in order. */
    ghost function Contents(): seq<Expr>
      reads this, list
    {
      Live(list.elements)
    }

    /** The assertions before the mark. */
    ghost function ProvenPart(): seq<Expr>
      requires mark <= |list.elements|
      reads this, list
    {
      Live(list.elements[..mark])
    }

    /** The assertions from the mark on. */
    ghost function UnprovenPart(): seq<Expr>
      requires mark <= |list.elements|
      reads this, list
    {
      Live(list.elements[mark..])
    }

    constructor ()
      ensures Valid() && fresh(list) && Contents() == [] && lookup == {} && mark == 0
    {
      list := new SparseVector();
      lookup, mark := {}, 0;
    }

    /** Every assertion is proven or unproven, and the split keeps the order. */
    lemma SplitContents()
      requires Valid()
      ensures Contents() == ProvenPart() + UnprovenPart()
    {
      assert list.elements == list.elements[..mark] + list.elements[mark..];
      LiveCat(list.elements[..mark], list.elements[mark..]);
    }

    method Contains(a: Expr) returns (b: bool)
      requires Valid()
      ensures b <==> a in Contents()
    {
      b := a in lookup;
    }

    /** Keep `op` unless it is already there. */
    method AddOnce(op: Expr, ghost rest: seq<Expr>)
      requires Valid() && IsBool(op) && AllBool(rest) && !IsAnd(op) && !IsNotOr(op)
      modifies this`lookup, list
      ensures Valid() && mark == old(mark) && Step(old(list.elements), rest + [op], list.elements, rest)
    {
      KeepStep(list.elements, rest, op);
      if op !in lookup { Append(op); }
    }

    method Append(op: Expr)
      requires Valid() && IsBool(op) && op !in lookup
      modifies this`lookup, list
      ensures Valid() && list.elements == old(list.elements) + [Full(op)]
    {
      AppendOk(list.elements, lookup, op);
      lookup := lookup + {op};
      var idx := list.PushBack(op);
    }

    /** One round of the stack loop for assertion a, with `op` popped. */
    method Process(a: Expr, rest: seq<Expr>, op: Expr) returns (stack: seq<Expr>)
      requires Valid() && AllBool(rest) && IsBool(op) && (a == ConstInt(1, 1) ==> op == a)
      modifies this`lookup, list
      ensures Valid() && mark == old(mark) && Step(old(list.elements), rest + [op], list.elements, stack)
      ensures Total(stack) < Total(rest + [op])
      ensures a == ConstInt(1, 1) ==> stack == rest
    {
      TotalPush(rest, op);
      if IsAnd(op) || IsNotOr(op) {
        TotalSplit(rest, op);
        PopParts(Contents(), rest, op);
        stack := rest + Parts(op);
      } else if a == ConstInt(1, 1) {
        PopTrue(Contents(), rest);
        stack := rest;
      } else {
        AddOnce(op, rest);
        stack := rest;
      }
    }

    /** The stack loop for one assertion. */
    method InsertOne(a: Expr)
      requires Valid() && IsBool(a)
      modifies this`lookup, list
      ensures Valid() && mark == old(mark) && Step(old(list.elements), [a], list.elements, [])
    {
      var decomposed := [a];
      while decomposed != []
        invariant Valid() && Step(old(list.elements), [a], list.elements, decomposed)
        invariant a == ConstInt(1, 1) ==> AllAre(decomposed, a)
        decreases Total(decomposed)
      {
        var rest, op := Pop(decomposed);
        if a == ConstInt(1, 1) { AllArePop(rest, op, a); }
        decomposed := ProcessNext(a, rest, op, old(list.elements));
      }
    }

    method ProcessNext(a: Expr, rest: seq<Expr>, op: Expr, ghost slots: seq<Slot<Expr>>) returns (stack: seq<Expr>)
      requires Valid() && (a == ConstInt(1, 1) ==> op == a) && Step(slots, [a], list.elements, rest + [op])
      modifies this`lookup, list
      ensures Valid() && Step(slots, [a], list.elements, stack)
      ensures Total(stack) < Total(rest + [op]) && (a == ConstInt(1, 1) ==> stack == rest)
    {
      ghost var before := list.elements;
      LastBool(rest, op);
      stack := Process(a, rest, op);
      StepTrans(slots, [a], before, rest + [op], list.elements, stack);
    }

    method InsertNext(a: Expr, ghost slots: seq<Slot<Expr>>, ghost done: seq<Expr>)
      requires Valid() && IsBool(a) && Step(slots, done, list.elements, [])
      modifies this`lookup, list
      ensures Valid() && Step(slots, done + [a], list.elements, [])
    {
      ghost var before := list.elements;
      InsertOne(a);
      JoinSteps(slots, done, before, a, list.elements);
    }

    method InsertAll(assertions: seq<Expr>)
      requires Valid() && AllBool(assertions)
      modifies this`lookup, list
      ensures Valid() && Step(old(list.elements), assertions, list.elements, [])
      ensures assertions == [] ==> list.elements == old(list.elements)
    {
      ghost var slots := list.elements;
      StepNone(slots);
      assert Taken(assertions, 0) == [];
      for i := 0 to |assertions|
        invariant Valid() && Step(slots, Taken(assertions, i), list.elements, [])
        invariant i == 0 ==> list.elements == slots
      {
        TakenNext(assertions, i);
        InsertNext(assertions[i], slots, Taken(assertions, i));
      }
      assert Taken(assertions, |assertions|) == assertions;
    }

    /** `insert`: the conjunction of the list becomes that of the old list and the new assertions. */
    method Insert(assertions: seq<Expr>)
      requires Valid() && AllBool(assertions)
      modifies this`lookup, list
      ensures Valid() && mark == old(mark) && Step(old(list.elements), assertions, list.elements, [])
      ensures forall env: Env :: Conj(Contents(), env) <==> Conj(old(Contents()), env) && Conj(assertions, env)
      ensures assertions == [] ==> list.elements == old(list.elements)
    {
      ghost var slots := list.elements;
      InsertAll(assertions);
      StepModels(slots, assertions, list.elements);
    }

    method Erase(it: nat)
      requires Valid() && it < |list.elements| && list.elements[it].Full?
      modifies this`lookup, list
      ensures Valid() && mark == old(mark) && |list.elements| == |old(list.elements)|
      ensures list.elements == old(list.elements)[it := Hole(old(list.head))]
      ensures Contents() == old(Live(list.elements[..it])) + old(Live(list.elements[it + 1..]))
      ensures lookup == old(lookup) - {old(list.elements)[it].value}
    {
      EraseOk(list.elements, lookup, it, list.head);
      lookup := lookup - {list.elements[it].value};
      list.Erase(it);
    }

    /** `mark_sat`: every assertion becomes proven. */
    method MarkSat()
      requires Valid()
      modifies this`mark, list
      ensures Valid() && Contents() == old(Contents()) && ProvenPart() == Contents() && UnprovenPart() == []
    {
      list.Compress();
      mark := list.size;
      assert list.elements[..mark] == list.elements && list.elements[mark..] == [];
    }

    method Checkpoint() returns (c: nat)
      requires Valid()
      ensures c == |list.elements|
    {
      c := |list.elements|;
    }

    /** `restore`: everything stored from the checkpoint on is erased. */
    method Restore(checkpoint: nat)
      requires Valid() && checkpoint <= |list.elements|
      modifies this`lookup, list
      ensures Valid() && mark == old(mark) && |list.elements| == |old(list.elements)|
      ensures list.elements[..checkpoint] == old(list.elements[..checkpoint])
      ensures forall k :: checkpoint <= k < |list.elements| ==> list.elements[k].Hole?
    {
      var it := list.FirstFrom(checkpoint);
      while it < |list.elements|
        invariant Valid() && |list.elements| == |old(list.elements)| && checkpoint <= it <= |list.elements|
        invariant list.elements[..checkpoint] == old(list.elements[..checkpoint])
        invariant it < |list.elements| ==> list.elements[it].Full?
        invariant forall k :: checkpoint <= k < it ==> list.elements[k].Hole?
        decreases |list.elements| - it
      {
        Erase(it);
        it := list.Next(it);
      }
    }

    /** The unproven assertions, as the range from `unproven()` visits them. */
    method Unproven() returns (xs: seq<Expr>)
      requires Valid()
      ensures xs == UnprovenPart()
    {
      var it := list.FirstFrom(mark);
      xs := Collect(it, |list.elements|);
      assert list.elements[it..|list.elements|] == list.elements[it..];
    }

    /** The proven assertions: `proven()` ends where `unproven()` begins. */
    method Proven() returns (xs: seq<Expr>)
      requires Valid()
      ensures xs == ProvenPart()
    {
      var start := list.FirstFrom(0);
      var it := list.FirstFrom(mark);
      ghost var s := list.elements;
      xs := Collect(start, it);
      SameRange(s, mark, start, it);
    }

    /** Visit the values in a range of slots, skipping holes. */
    method Collect(from: nat, to: nat) returns (xs: seq<Expr>)
      requires from <= to <= |list.elements|
      requires from < |list.elements| ==> list.elements[from].Full?
      requires to < |list.elements| ==> list.elements[to].Full?
      ensures xs == Live(list.elements[from..to])
    {
      xs := [];
      var it := from;
      LiveHoles(list.elements[from..it]);
      assert xs == Live(list.elements[from..it]);
      while it < to
        invariant from <= it <= to && (it < |list.elements| ==> list.elements[it].Full?)
        invariant xs == Live(list.elements[from..it])
      {
        xs := xs + [list.elements[it].value];
        assert it < |list.elements|;
        var next := list.Next(it);
        StepLive(list.elements, from, it, next);
        it := next;
      }
    }

    /** Any number of temporary inserts, then a restore: as if nothing had happened. */
    method Scoped(batches: seq<seq<Expr>>)
      requires Valid() && forall i :: 0 <= i < |batches| ==> AllBool(batches[i])
      modifies this`lookup, list
      ensures Valid() && Contents() == old(Contents()) && lookup == old(lookup) && mark == old(mark)
      ensures ProvenPart() == old(ProvenPart()) && UnprovenPart() == old(UnprovenPart())
    {
      var c := Checkpoint();
      for i := 0 to |batches|
        invariant Valid() && mark == old(mark) && Grown(old(list.elements), list.elements)
      {
        Insert(batches[i]);
      }
      assert list.elements[..c] == old(list.elements);
      Restore(c);
      HolesBeyond(old(list.elements), list.elements);
      HolesBeyond(old(list.elements)[mark..], list.elements[mark..]);
      assert list.elements[..mark] == old(list.elements)[..mark];
      assert lookup == old(lookup);
    }
  }

  ghost function Taken(xs: seq<Expr>, i: nat): seq<Expr>
    requires i <= |xs|
  {
    xs[..i]
  }

  lemma TakenNext(xs: seq<Expr>, i: nat)
    requires i < |xs| && AllBool(xs)
    ensures Taken(xs, i + 1) == Taken(xs, i) + [xs[i]] && IsBool(xs[i])
  {}

  /** The old slots are untouched, and what was added are values that cannot be split further. */
  ghost predicate Grown(before: seq<Slot<Expr>>, after: seq<Slot<Expr>>) {
    && before <= after
    && forall k :: |before| <= k < |after| ==> after[k].Full? && Indivisible(after[k].value)
  }

  /** Neither a conjunction nor a negated disjunction. */
  predicate Indivisible(e: Expr) {
    match e
    case Bin(op, _, _) => op != And
    case Not(a) => !(a.Bin? && a.op == Or)
    case _ => true
  }

  /**
   The list has grown at the end, the models of the list together with the stack are as before, and
   no symbol occurrence was added.
   */
  ghost predicate Step(slots: seq<Slot<Expr>>, stack: seq<Expr>, slots': seq<Slot<Expr>>, stack': seq<Expr>) {
    var xs, xs' := Live(slots), Live(slots');
    && AllBool(xs) && AllBool(stack) && AllBool(xs') && AllBool(stack')
    && Grown(slots, slots') && SameModels(xs, stack, xs', stack')
    && SymTotal(xs') + SymTotal(stack') <= SymTotal(xs) + SymTotal(stack)
  }

  lemma StepNone(slots: seq<Slot<Expr>>)
    requires AllBool(Live(slots))
    ensures Step(slots, [], slots, [])
  {}

  lemma StepModels(slots: seq<Slot<Expr>>, stack: seq<Expr>, slots': seq<Slot<Expr>>)
    requires Step(slots, stack, slots', [])
    ensures forall env: Env :: Conj(Live(slots'), env) <==> Conj(Live(slots), env) && Conj(stack, env)
  {
    forall env: Env ensures Conj(Live(slots'), env) <==> Conj(Live(slots), env) && Conj(stack, env) {
      assert SameAt(Live(slots), stack, Live(slots'), [], env);
    }
  }

  lemma StepTrans(a: seq<Slot<Expr>>, p: seq<Expr>, b: seq<Slot<Expr>>, q: seq<Expr>, c: seq<Slot<Expr>>, r: seq<Expr>)
    requires Step(a, p, b, q) && Step(b, q, c, r)
    ensures Step(a, p, c, r)
  {
    SameTrans(Live(a), p, Live(b), q, Live(c), r);
    assert forall k :: |a| <= k < |b| ==> c[k] == b[k];
  }

  lemma KeepStep(slots: seq<Slot<Expr>>, rest: seq<Expr>, e: Expr)
    requires AllBool(Live(slots)) && AllBool(rest) && IsBool(e) && !IsAnd(e) && !IsNotOr(e)
    ensures Step(slots, rest + [e], slots + [Full(e)], rest)
    ensures e in Live(slots) ==> Step(slots, rest + [e], slots, rest)
  {
    PopKeep(Live(slots), rest, e);
    if e in Live(slots) { PopDuplicate(Live(slots), rest, e); }
    assert (slots + [Full(e)])[..|slots|] == slots;
    assert Live(slots + [Full(e)]) == Live(slots) + [e];
  }

  lemma JoinSteps(a: seq<Slot<Expr>>, done: seq<Expr>, b: seq<Slot<Expr>>, e: Expr, c: seq<Slot<Expr>>)
    requires Step(a, done, b, []) && Step(b, [e], c, [])
    ensures Step(a, done + [e], c, [])
  {
    SymTotalPush(done, e);
    SymTotalPush([], e);
    assert [] + [e] == [e];
    AllBoolCat(done, [e]);
    forall env: Env ensures SameAt(Live(a), done + [e], Live(c), [], env) {
      assert SameAt(Live(a), done, Live(b), [], env) && SameAt(Live(b), [e], Live(c), [], env);
      ConjCat(done, [e], env);
    }
    assert forall k :: |a| <= k < |b| ==> c[k] == b[k];
  }

  lemma HolesBeyond(before: seq<Slot<Expr>>, after: seq<Slot<Expr>>)
    requires |before| <= |after| && after[..|before|] == before
    requires forall k :: |before| <= k < |after| ==> after[k].Hole?
    ensures Live(after) == Live(before)
  {
    var extra := after[|before|..];
    assert after == before + extra;
    LiveCat(before, extra);
    LiveHoles(extra);
  }

  lemma StepLive(s: seq<Slot<Expr>>, from: nat, it: nat, next: nat)
    requires from <= it < next <= |s| && s[it].Full? && forall k :: it < k < next ==> s[k].Hole?
    ensures Live(s[from..next]) == Live(s[from..it]) + [s[it].value]
  {
    HolesBeyond(s[from..it + 1], s[from..next]);
    assert s[from..it + 1][..it - from] == s[from..it];
  }

  /** Starting on the first value and ending on the first at or after the mark visits the values before it. */
  lemma SameRange(s: seq<Slot<Expr>>, mark: nat, start: nat, it: nat)
    requires mark <= it <= |s| && start <= it
    requires (forall k :: 0 <= k < start ==> s[k].Hole?) && (forall k :: mark <= k < it ==> s[k].Hole?)
    ensures Live(s[start..it]) == Live(s[..mark])
  {
    var front, tail := s[..it], s[start..it];
    HolesBeyond(s[..mark], front);
    assert front == s[..start] + tail;
    LiveCat(s[..start], tail);
    LiveHoles(s[..start]);
  }
}
