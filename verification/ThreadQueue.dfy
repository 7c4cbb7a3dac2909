/**
 The work-stealing context store (src/Interpreter/Store/ThreadQueueStore.cpp) as a concurrent
 protocol: any number of workers, every interleaving, one step per atomic operation, pop or push.

 A worker is outside the store (`Running`) or inside `next_context` or `add_context` at one of the
 program points below.  The queue and store mutexes only remove interleavings, so they are not
 modelled; `shutdown` is never called.
 */
module ThreadQueue {
  type Ctx = nat

  datatype Queue = Missing | Present(items: seq<Ctx>)

  datatype Pc =
    | Running                        // executing a context, or between calls
    | AtDequeue                      // next_context: about to pop the back of its own queue
    | Dequeued(got: Ctx)             // popped; `size -= 1` still to come
    | AtDecFree                      // nothing of its own: about to run `--free`
    | AtLoadSize(cfree: int)         // about to load `size`
    | AtSetDone                      // saw cfree == 0 and csize == 0
    | AtLoop                         // at `while (!done)`
    | AtSteal                        // in the loop, about to pop the front of some queue
    | Stolen(got: Ctx)               // stole; `size -= 1` still to come
    | Leaving(result: seq<Ctx>)      // about to run the guard `free += 1` and return (nothing, or one context)
    | Exited                         // next_context returned nothing: the worker is finished
    | AtAddSize(ctxs: seq<Ctx>)      // add_context: about to run `size += |ctxs|`
    | AtPush(ctxs: seq<Ctx>)         // about to push the next of ctxs on its own queue

  /** Worker t owns queues[t]; the queues after those belong to threads that are not workers. */
  datatype State = State(pcs: seq<Pc>, queues: seq<Queue>, free: int, size: int, done: bool,
                         added: seq<Ctx>, handed: seq<Ctx>)

  datatype Action =
    | CallNext
    | CallAdd(ctxs: seq<Ctx>)
    | Proceed                        // the next atomic operation of next_context or add_context
    | StealFrom(victim: nat)         // the steal, from the queue the generator picked

  function Items(q: Queue): seq<Ctx> {
    if q.Present? then q.items else []
  }

  // ----- the steps -----

  predicate Enabled(s: State, t: nat, a: Action) {
    && t < |s.pcs| <= |s.queues|
    && match a
       case CallNext => s.pcs[t].Running?
       case CallAdd(_) => s.pcs[t].Running?
       case Proceed => !s.pcs[t].Running? && !s.pcs[t].AtSteal? && !s.pcs[t].Exited?
       case StealFrom(k) => s.pcs[t].AtSteal? && k < |s.queues| && s.queues[k].Present?
  }

  /**
   What one atomic operation of thread t does: its next program point, the new contents of the one
   queue it touches, the change of the counters, and the contexts that enter or leave the store.
   */
  datatype Effect = Effect(pc: Pc, queue: nat, items: seq<Ctx>, dfree: int, dsize: int, finish: bool,
                           enters: seq<Ctx>, leaves: seq<Ctx>)

  function Move(s: State, t: nat, pc: Pc): Effect
    requires t < |s.queues|
  {
    Effect(pc, t, Items(s.queues[t]), 0, 0, false, [], [])
  }

  function EffectOf(s: State, t: nat, a: Action): Effect
    requires Enabled(s, t, a)
  {
    match a
    case CallNext => Move(s, t, AtDequeue)
    case CallAdd(cs) => Move(s, t, AtAddSize(cs)).(enters := cs)
    case StealFrom(k) =>
      var items := s.queues[k].items;
      if items == [] then Move(s, t, AtLoop)
      else Move(s, t, Stolen(items[0])).(queue := k, items := items[1..])
    case Proceed =>
      var items := Items(s.queues[t]);
      match s.pcs[t]
      case AtDequeue =>
        if items == [] then Move(s, t, AtDecFree)
        else Move(s, t, Dequeued(items[|items| - 1])).(items := items[..|items| - 1])
      case Dequeued(c) => Move(s, t, Running).(dsize := -1, leaves := [c])
      case AtDecFree => Move(s, t, AtLoadSize(s.free - 1)).(dfree := -1)
      case AtLoadSize(cfree) => Move(s, t, if cfree == 0 && s.size == 0 then AtSetDone else AtLoop)
      case AtSetDone => Move(s, t, Leaving([])).(finish := true)
      case AtLoop => Move(s, t, if s.done then Leaving([]) else AtSteal)
      case Stolen(c) => Move(s, t, Leaving([c])).(dsize := -1)
      case Leaving(r) => Move(s, t, if r == [] then Exited else Running).(dfree := 1, leaves := r)
      case AtAddSize(cs) => Move(s, t, AtPush(cs)).(dsize := |cs|)
      case AtPush(cs) =>
        if cs == [] then Move(s, t, Running)
        else Move(s, t, AtPush(cs[1..])).(items := items + [cs[0]])
      case _ => Move(s, t, s.pcs[t])
  }

  /** A queue that gets its first context comes into existence. */
  function SetItems(q: Queue, items: seq<Ctx>): Queue {
    if q.Missing? && items == [] then Missing else Present(items)
  }

  function Apply(s: State, t: nat, e: Effect): State
    requires t < |s.pcs| && e.queue < |s.queues|
  {
    State(s.pcs[t := e.pc], s.queues[e.queue := SetItems(s.queues[e.queue], e.items)], s.free + e.dfree,
          s.size + e.dsize, s.done || e.finish, s.added + e.enters, s.handed + e.leaves)
  }

  function Step(s: State, t: nat, a: Action): State
    requires Enabled(s, t, a)
  {
    Apply(s, t, EffectOf(s, t, a))
  }

  // ----- quantities over all threads -----

  /** Between `--free` and `free += 1`. */
  predicate InWindow(pc: Pc) {
    pc.AtLoadSize? || pc.AtSetDone? || pc.AtLoop? || pc.AtSteal? || pc.Stolen? || pc.Leaving?
  }

  function Window(pc: Pc): nat {
    if InWindow(pc) then 1 else 0
  }

  function Windows(pcs: seq<Pc>): nat {
    if pcs == [] then 0 else Window(pcs[0]) + Windows(pcs[1..])
  }

  /** What `size` counts beyond the queues: popped and not yet subtracted, or counted and not yet pushed. */
  function Debt(pc: Pc): nat {
    match pc
    case Dequeued(_) => 1
    case Stolen(_) => 1
    case AtPush(cs) => |cs|
    case _ => 0
  }

  function Debts(pcs: seq<Pc>): nat {
    if pcs == [] then 0 else Debt(pcs[0]) + Debts(pcs[1..])
  }

  function Total(qs: seq<Queue>): nat {
    if qs == [] then 0 else |Items(qs[0])| + Total(qs[1..])
  }

  /** The contexts a thread holds inside the store. */
  function Held(pc: Pc): seq<Ctx> {
    match pc
    case Dequeued(c) => [c]
    case Stolen(c) => [c]
    case Leaving(r) => r
    case AtAddSize(cs) => cs
    case AtPush(cs) => cs
    case _ => []
  }

  function Count(xs: seq<Ctx>, c: Ctx): nat {
    if xs == [] then 0 else (if xs[0] == c then 1 else 0) + Count(xs[1..], c)
  }

  /** How often context c is in some thread's hands. */
  function HeldCount(pcs: seq<Pc>, c: Ctx): nat {
    if pcs == [] then 0 else Count(Held(pcs[0]), c) + HeldCount(pcs[1..], c)
  }

  /** How often context c is queued. */
  function QueuedCount(qs: seq<Queue>, c: Ctx): nat {
    if qs == [] then 0 else Count(Items(qs[0]), c) + QueuedCount(qs[1..], c)
  }

  // ----- the invariant -----

  /** Found its own queue empty and has not called add_context since. */
  predicate Drained(pc: Pc) {
    InWindow(pc) || pc.AtDecFree? || pc.Exited?
  }

  predicate WillLeave(pc: Pc) {
    pc == AtLoadSize(0) || pc.AtSetDone? || pc.Stolen? || pc.Leaving?
  }

  ghost predicate Counters(s: State) {
    && s.free == |s.pcs| - Windows(s.pcs)
    && s.size == Total(s.queues) + Debts(s.pcs)
  }

  /** Every context is handed out, queued, or in some thread's hands: none lost, none duplicated. */
  ghost predicate Conserved(s: State) {
    forall c: Ctx :: Count(s.added, c) == Count(s.handed, c) + QueuedCount(s.queues, c) + HeldCount(s.pcs, c)
  }

  ghost predicate OwnQueues(s: State) {
    && |s.pcs| <= |s.queues|
    && (exists k :: 0 <= k < |s.queues| && s.queues[k].Present?)
    && (forall t :: 0 <= t < |s.pcs| && Drained(s.pcs[t]) ==> Items(s.queues[t]) == [])
    && (forall t :: 0 <= t < |s.pcs| && s.pcs[t].Leaving? ==> |s.pcs[t].result| <= 1)
  }

  /** The queues of other threads are empty before `done` is set, and stay so. */
  ghost predicate DoneIsSafe(s: State) {
    && (forall t :: 0 <= t < |s.pcs| && s.pcs[t].AtSetDone? ==> ForeignEmpty(s))
    && (s.done ==> ForeignEmpty(s))
    && (forall t :: 0 <= t < |s.pcs| && (s.pcs[t].Exited? || s.pcs[t] == Leaving([])) ==> s.done)
  }

  ghost predicate ForeignEmpty(s: State) {
    forall k :: |s.pcs| <= k < |s.queues| ==> Items(s.queues[k]) == []
  }

  /** When every worker is waiting, someone is about to leave or there is something to steal. */
  ghost predicate NotStuck(s: State) {
    s.free == 0 && !s.done ==>
      Total(s.queues) > 0 || exists t :: 0 <= t < |s.pcs| && WillLeave(s.pcs[t])
  }

  ghost predicate Inv(s: State) {
    Counters(s) && Conserved(s) && OwnQueues(s) && DoneIsSafe(s) && NotStuck(s)
  }

  /** Workers all outside, `free` at their number, and the contexts added before they started counted. */
  ghost predicate Init(s: State) {
    && 0 < |s.pcs| <= |s.queues|
    && (forall t :: 0 <= t < |s.pcs| ==> s.pcs[t].Running?)
    && (exists k :: 0 <= k < |s.queues| && s.queues[k].Present?)
    && s.free == |s.pcs| && s.size == Total(s.queues) && !s.done
    && s.handed == [] && forall c: Ctx :: Count(s.added, c) == QueuedCount(s.queues, c)
  }

  // ----- how one thread or queue changes the quantities -----

  lemma {:induction false} CountCat(xs: seq<Ctx>, ys: seq<Ctx>, c: Ctx)
    ensures Count(xs + ys, c) == Count(xs, c) + Count(ys, c)
  {
    if xs == [] { assert xs + ys == ys; }
    else { assert (xs + ys)[1..] == xs[1..] + ys; CountCat(xs[1..], ys, c); }
  }

  lemma {:induction false} CountMultiset(xs: seq<Ctx>, c: Ctx)
    ensures Count(xs, c) == multiset(xs)[c]
  {
    if xs != [] { CountMultiset(xs[1..], c); assert xs == [xs[0]] + xs[1..]; }
  }

  lemma {:induction false} WindowsUpdate(xs: seq<Pc>, k: nat, x: Pc)
    requires k < |xs|
    ensures Windows(xs[k := x]) == Windows(xs) - Window(xs[k]) + Window(x)
  {
    if k == 0 {
      assert xs[k := x][1..] == xs[1..];
    } else {
      assert xs[k := x][1..] == xs[1..][k - 1 := x];
      WindowsUpdate(xs[1..], k - 1, x);
    }
  }

  lemma {:induction false} DebtsUpdate(xs: seq<Pc>, k: nat, x: Pc)
    requires k < |xs|
    ensures Debts(xs[k := x]) == Debts(xs) - Debt(xs[k]) + Debt(x)
  {
    if k == 0 {
      assert xs[k := x][1..] == xs[1..];
    } else {
      assert xs[k := x][1..] == xs[1..][k - 1 := x];
      DebtsUpdate(xs[1..], k - 1, x);
    }
  }

  lemma {:induction false} TotalUpdate(xs: seq<Queue>, k: nat, x: Queue)
    requires k < |xs|
    ensures Total(xs[k := x]) == Total(xs) - |Items(xs[k])| + |Items(x)|
  {
    if k == 0 {
      assert xs[k := x][1..] == xs[1..];
    } else {
      assert xs[k := x][1..] == xs[1..][k - 1 := x];
      TotalUpdate(xs[1..], k - 1, x);
    }
  }

  lemma {:induction false} HeldUpdate(xs: seq<Pc>, k: nat, x: Pc, c: Ctx)
    requires k < |xs|
    ensures HeldCount(xs[k := x], c) == HeldCount(xs, c) - Count(Held(xs[k]), c) + Count(Held(x), c)
  {
    if k == 0 {
      assert xs[k := x][1..] == xs[1..];
    } else {
      assert xs[k := x][1..] == xs[1..][k - 1 := x];
      HeldUpdate(xs[1..], k - 1, x, c);
    }
  }

  lemma {:induction false} QueuedUpdate(xs: seq<Queue>, k: nat, x: Queue, c: Ctx)
    requires k < |xs|
    ensures QueuedCount(xs[k := x], c) == QueuedCount(xs, c) - Count(Items(xs[k]), c) + Count(Items(x), c)
  {
    if k == 0 {
      assert xs[k := x][1..] == xs[1..];
    } else {
      assert xs[k := x][1..] == xs[1..][k - 1 := x];
      QueuedUpdate(xs[1..], k - 1, x, c);
    }
  }

  lemma {:induction false} WindowsBound(pcs: seq<Pc>)
    ensures Windows(pcs) <= |pcs|
    ensures Windows(pcs) == |pcs| ==> forall t :: 0 <= t < |pcs| ==> InWindow(pcs[t])
    ensures (forall t :: 0 <= t < |pcs| ==> InWindow(pcs[t])) ==> Windows(pcs) == |pcs|
  {
    if pcs != [] {
      WindowsBound(pcs[1..]);
      if Windows(pcs) == |pcs| {
        forall t | 0 <= t < |pcs| ensures InWindow(pcs[t]) {
          if t > 0 { assert pcs[t] == pcs[1..][t - 1]; }
        }
      }
      if forall t :: 0 <= t < |pcs| ==> InWindow(pcs[t]) {
        forall t | 0 <= t < |pcs[1..]| ensures InWindow(pcs[1..][t]) { assert pcs[1..][t] == pcs[t + 1]; }
      }
    }
  }

  lemma {:induction false} NoDebt(pcs: seq<Pc>)
    requires forall t :: 0 <= t < |pcs| ==> Debt(pcs[t]) == 0
    ensures Debts(pcs) == 0
  {
    if pcs != [] { NoDebt(pcs[1..]); }
  }

  lemma {:induction false} NothingHeld(pcs: seq<Pc>, c: Ctx)
    requires forall t :: 0 <= t < |pcs| ==> Held(pcs[t]) == []
    ensures HeldCount(pcs, c) == 0
  {
    if pcs != [] { NothingHeld(pcs[1..], c); }
  }

  lemma {:induction false} TotalZero(qs: seq<Queue>)
    ensures Total(qs) == 0 <==> forall k :: 0 <= k < |qs| ==> Items(qs[k]) == []
  {
    if qs != [] {
      TotalZero(qs[1..]);
      assert forall k :: 0 < k < |qs| ==> qs[k] == qs[1..][k - 1];
      assert forall k :: 0 <= k < |qs[1..]| ==> qs[1..][k] == qs[k + 1];
    }
  }

  lemma {:induction false} NothingQueued(qs: seq<Queue>, c: Ctx)
    requires forall k :: 0 <= k < |qs| ==> Items(qs[k]) == []
    ensures QueuedCount(qs, c) == 0
  {
    if qs != [] { NothingQueued(qs[1..], c); }
  }

  // ----- every step keeps the invariant -----

  /** Each operation pays for what it changes: locally, the counters follow the program point and the queue. */
  lemma CountersBalance(s: State, t: nat, a: Action)
    requires Enabled(s, t, a)
    ensures var e := EffectOf(s, t, a);
      && e.queue < |s.queues|
      && e.dfree == Window(s.pcs[t]) - Window(e.pc)
      && e.dsize == |e.items| - |Items(s.queues[e.queue])| + Debt(e.pc) - Debt(s.pcs[t])
  {
    SizeBalances(s, t, a);
  }

  lemma SizeBalances(s: State, t: nat, a: Action)
    requires Enabled(s, t, a)
    ensures var e := EffectOf(s, t, a);
      e.queue < |s.queues| && e.dsize == |e.items| - |Items(s.queues[e.queue])| + Debt(e.pc) - Debt(s.pcs[t])
  {}

  /** The effect e of thread t moves context c without dropping or copying it. */
  ghost predicate Balanced(s: State, t: nat, e: Effect, c: Ctx)
    requires t < |s.pcs|
  {
    && e.queue < |s.queues|
    && Count(e.enters, c) + Count(Items(s.queues[e.queue]), c) + Count(Held(s.pcs[t]), c)
       == Count(e.leaves, c) + Count(e.items, c) + Count(Held(e.pc), c)
  }

  lemma ContextsBalance(s: State, t: nat, a: Action, c: Ctx)
    requires Enabled(s, t, a)
    ensures Balanced(s, t, EffectOf(s, t, a), c)
  {
    if a.StealFrom? { FirstCount(s.queues[a.victim].items, c); }
    else if a.Proceed? && (s.pcs[t].AtDequeue? || s.pcs[t].AtPush?) { QueueOpBalance(s, t, c); }
    else { HandsBalance(s, t, a, c); }
  }

  /** An operation that touches no queue. */
  lemma HandsBalance(s: State, t: nat, a: Action, c: Ctx)
    requires Enabled(s, t, a) && !a.StealFrom? && !(a.Proceed? && (s.pcs[t].AtDequeue? || s.pcs[t].AtPush?))
    ensures var e := EffectOf(s, t, a);
      && e.queue == t && e.items == Items(s.queues[t])
      && Count(e.enters, c) + Count(Held(s.pcs[t]), c) == Count(e.leaves, c) + Count(Held(e.pc), c)
  {}

  /** A pop or push on the thread's own queue. */
  lemma QueueOpBalance(s: State, t: nat, c: Ctx)
    requires Enabled(s, t, Proceed) && (s.pcs[t].AtDequeue? || s.pcs[t].AtPush?)
    ensures var e := EffectOf(s, t, Proceed);
      && e.queue == t && e.enters == [] && e.leaves == []
      && Count(Items(s.queues[t]), c) + Count(Held(s.pcs[t]), c) == Count(e.items, c) + Count(Held(e.pc), c)
  {
    var items := Items(s.queues[t]);
    if s.pcs[t].AtDequeue? {
      if items != [] {
        CountCat(items[..|items| - 1], [items[|items| - 1]], c);
        assert items == items[..|items| - 1] + [items[|items| - 1]];
      }
    } else if s.pcs[t].ctxs != [] {
      FirstCount(s.pcs[t].ctxs, c);
      CountCat(items, [s.pcs[t].ctxs[0]], c);
    }
  }

  lemma FirstCount(xs: seq<Ctx>, c: Ctx)
    ensures xs != [] ==> Count(xs, c) == Count([xs[0]], c) + Count(xs[1..], c)
  {}

  lemma ApplyKeepsCounters(s: State, t: nat, e: Effect)
    requires Counters(s) && t < |s.pcs| && e.queue < |s.queues|
    requires e.dfree == Window(s.pcs[t]) - Window(e.pc)
    requires e.dsize == |e.items| - |Items(s.queues[e.queue])| + Debt(e.pc) - Debt(s.pcs[t])
    ensures Counters(Apply(s, t, e))
  {
    WindowsUpdate(s.pcs, t, e.pc);
    DebtsUpdate(s.pcs, t, e.pc);
    TotalUpdate(s.queues, e.queue, SetItems(s.queues[e.queue], e.items));
  }

  lemma ApplyConserves(s: State, t: nat, e: Effect)
    requires Conserved(s) && t < |s.pcs| && e.queue < |s.queues|
    requires forall c: Ctx :: Balanced(s, t, e, c)
    ensures Conserved(Apply(s, t, e))
  {
    var s' := Apply(s, t, e);
    forall c: Ctx ensures Count(s'.added, c) == Count(s'.handed, c) + QueuedCount(s'.queues, c) + HeldCount(s'.pcs, c) {
      HeldUpdate(s.pcs, t, e.pc, c);
      CountCat(s.added, e.enters, c);
      CountCat(s.handed, e.leaves, c);
      QueuedUpdate(s.queues, e.queue, SetItems(s.queues[e.queue], e.items), c);
      assert Balanced(s, t, e, c);
    }
  }

  lemma StepKeepsCounts(s: State, t: nat, a: Action)
    requires Inv(s) && Enabled(s, t, a)
    ensures Counters(Step(s, t, a)) && Conserved(Step(s, t, a))
  {
    var e := EffectOf(s, t, a);
    CountersBalance(s, t, a);
    ApplyKeepsCounters(s, t, e);
    forall c: Ctx ensures Balanced(s, t, e, c) { ContextsBalance(s, t, a, c); }
    ApplyConserves(s, t, e);
  }

  /** A drained thread touches no queue but a victim's, which only shrinks; only its owner pushes on a queue. */
  lemma QueueRules(s: State, t: nat, a: Action)
    requires Enabled(s, t, a)
    ensures var e := EffectOf(s, t, a);
      && e.queue < |s.queues|
      && |e.items| <= |Items(s.queues[e.queue])| + (if s.pcs[t].AtPush? then 1 else 0)
      && (s.pcs[t].AtPush? ==> e.queue == t)
      && (Drained(e.pc) ==> Drained(s.pcs[t]) || (e.queue == t && Items(s.queues[t]) == []))
      && (e.pc.Leaving? ==> |e.pc.result| <= 1)
  {}

  lemma StepKeepsOwnQueues(s: State, t: nat, a: Action)
    requires Inv(s) && Enabled(s, t, a)
    ensures OwnQueues(Step(s, t, a))
  {
    var e := EffectOf(s, t, a);
    QueueRules(s, t, a);
    var s' := Apply(s, t, e);
    var k :| 0 <= k < |s.queues| && s.queues[k].Present?;
    assert s'.queues[k].Present?;
    forall u | 0 <= u < |s'.pcs| && Drained(s'.pcs[u]) ensures Items(s'.queues[u]) == [] {
      assert u != t ==> s'.pcs[u] == s.pcs[u];
      assert !s.pcs[t].AtPush? || u != t;
    }
  }

  /** Who may set or see `done`. */
  lemma DoneRules(s: State, t: nat, a: Action)
    requires Enabled(s, t, a)
    ensures var e := EffectOf(s, t, a);
      && (e.finish ==> s.pcs[t].AtSetDone?)
      && (e.pc.AtSetDone? ==> s.size == 0)
      && (e.pc == Leaving([]) ==> s.done || e.finish)
      && (e.pc.Exited? ==> s.pcs[t] == Leaving([]))
  {}

  lemma StepKeepsDone(s: State, t: nat, a: Action)
    requires Inv(s) && Enabled(s, t, a)
    ensures DoneIsSafe(Step(s, t, a))
  {
    var e := EffectOf(s, t, a);
    DoneRules(s, t, a);
    QueueRules(s, t, a);
    TotalZero(s.queues);
    var s' := Apply(s, t, e);
    assert forall u :: 0 <= u < |s.pcs| && u != t ==> s'.pcs[u] == s.pcs[u];
    if ForeignEmpty(s) {
      forall k | |s'.pcs| <= k < |s'.queues| ensures Items(s'.queues[k]) == [] {
        assert Items(s.queues[k]) == [];
      }
    }
    assert ForeignEmpty(s) ==> ForeignEmpty(s');
    assert e.pc.AtSetDone? ==> ForeignEmpty(s);
  }

  /** How a thread comes to wait, and what takes the last context away. */
  lemma WaitRules(s: State, t: nat, a: Action)
    requires Enabled(s, t, a)
    ensures var e := EffectOf(s, t, a);
      && (InWindow(e.pc) && !InWindow(s.pcs[t]) ==> e.pc == AtLoadSize(s.free + e.dfree))
      && (InWindow(e.pc) && WillLeave(s.pcs[t]) && !WillLeave(e.pc) ==> s.pcs[t] == AtLoadSize(0) && s.size != 0)
      && (InWindow(e.pc) && |e.items| < |Items(s.queues[e.queue])| ==> WillLeave(e.pc))
      && (InWindow(e.pc) && InWindow(s.pcs[t]) && !WillLeave(e.pc) ==> e.items == Items(s.queues[e.queue]) && e.dfree == 0)
  {}

  lemma StepKeepsMoving(s: State, t: nat, a: Action)
    requires Inv(s) && Enabled(s, t, a) && Counters(Step(s, t, a))
    ensures NotStuck(Step(s, t, a))
  {
    var e := EffectOf(s, t, a);
    var s' := Apply(s, t, e);
    if s'.free == 0 && !s'.done {
      WindowsBound(s'.pcs);
      WaitRules(s, t, a);
      assert s'.pcs[t] == e.pc && InWindow(e.pc);
      if !WillLeave(e.pc) {
        TotalUpdate(s.queues, e.queue, SetItems(s.queues[e.queue], e.items));
        if WillLeave(s.pcs[t]) { LoadedNonZero(s, t); }
        if Total(s.queues) == 0 {
          var u :| 0 <= u < |s.pcs| && u != t && WillLeave(s.pcs[u]);
          assert s'.pcs[u] == s.pcs[u];
        }
      }
    }
  }

  /** All waiting and size non-zero: a context is queued, or some thief has not finished. */
  lemma LoadedNonZero(s: State, t: nat)
    requires Inv(s) && t < |s.pcs| && s.pcs[t] == AtLoadSize(0) && s.free == 0 && s.size != 0
    ensures Total(s.queues) > 0 || exists u :: 0 <= u < |s.pcs| && u != t && WillLeave(s.pcs[u])
  {
    WindowsBound(s.pcs);
    if Total(s.queues) == 0 {
      if forall u :: 0 <= u < |s.pcs| ==> Debt(s.pcs[u]) == 0 { NoDebt(s.pcs); }
      else {
        var u :| 0 <= u < |s.pcs| && Debt(s.pcs[u]) != 0;
        assert s.pcs[u].Stolen?;
      }
    }
  }

  lemma InitInv(s: State)
    requires Init(s)
    ensures Inv(s)
  {
    NoWindows(s.pcs);
    NoDebt(s.pcs);
    forall c: Ctx ensures HeldCount(s.pcs, c) == 0 { NothingHeld(s.pcs, c); }
  }

  lemma {:induction false} NoWindows(pcs: seq<Pc>)
    requires forall t :: 0 <= t < |pcs| ==> pcs[t].Running?
    ensures Windows(pcs) == 0
  {
    if pcs != [] { NoWindows(pcs[1..]); }
  }

  lemma StepKeepsInv(s: State, t: nat, a: Action)
    requires Inv(s) && Enabled(s, t, a)
    ensures Inv(Step(s, t, a)) && |Step(s, t, a).pcs| == |s.pcs|
  {
    StepKeepsCounts(s, t, a);
    StepKeepsOwnQueues(s, t, a);
    StepKeepsDone(s, t, a);
    StepKeepsMoving(s, t, a);
  }

  // ----- whole runs -----

  datatype Event = Event(thread: nat, action: Action)

  /** A schedule: each event must be enabled when it happens. */
  ghost predicate IsRun(s: State, run: seq<Event>)
    decreases |run|
  {
    run == [] || (Enabled(s, run[0].thread, run[0].action) &&
                  IsRun(Step(s, run[0].thread, run[0].action), run[1..]))
  }

  ghost function After(s: State, run: seq<Event>): State
    requires IsRun(s, run)
    decreases |run|
  {
    if run == [] then s else After(Step(s, run[0].thread, run[0].action), run[1..])
  }

  lemma {:induction false} RunKeepsInv(s: State, run: seq<Event>)
    requires Inv(s) && IsRun(s, run)
    ensures Inv(After(s, run)) && |After(s, run).pcs| == |s.pcs|
    decreases |run|
  {
    if run != [] {
      StepKeepsInv(s, run[0].thread, run[0].action);
      RunKeepsInv(Step(s, run[0].thread, run[0].action), run[1..]);
    }
  }

  /** No context is lost or handed out twice, at any point of any interleaving. */
  lemma NeverLost(s: State, run: seq<Event>)
    requires Init(s) && IsRun(s, run)
    ensures var e := After(s, run);
      forall c: Ctx :: Count(e.added, c) == Count(e.handed, c) + QueuedCount(e.queues, c) + HeldCount(e.pcs, c)
  {
    InitInv(s);
    RunKeepsInv(s, run);
  }

  /** Once every worker has exited, every queue is empty and every added context was handed out exactly once. */
  lemma AllHandedOut(s: State, run: seq<Event>)
    requires Init(s) && IsRun(s, run)
    requires forall t :: 0 <= t < |s.pcs| ==> t < |After(s, run).pcs| && After(s, run).pcs[t].Exited?
    ensures var e := After(s, run);
      multiset(e.handed) == multiset(e.added) && forall k :: 0 <= k < |e.queues| ==> Items(e.queues[k]) == []
  {
    InitInv(s);
    RunKeepsInv(s, run);
    var e := After(s, run);
    assert e.pcs[0].Exited?;
    forall k | 0 <= k < |e.queues| ensures Items(e.queues[k]) == [] {
      if k < |e.pcs| { assert Drained(e.pcs[k]); }
    }
    forall c: Ctx ensures multiset(e.handed)[c] == multiset(e.added)[c] {
      NothingQueued(e.queues, c);
      NothingHeld(e.pcs, c);
      CountMultiset(e.handed, c);
      CountMultiset(e.added, c);
    }
  }

  /** All workers in the steal loop without `done`: something can be stolen. */
  lemma NeverSticks(s: State, run: seq<Event>)
    requires Init(s) && IsRun(s, run)
    requires var e := After(s, run);
      !e.done && forall t :: 0 <= t < |e.pcs| ==> e.pcs[t].AtLoop? || e.pcs[t].AtSteal?
    ensures var e := After(s, run);
      exists k :: 0 <= k < |e.queues| && e.queues[k].Present? && e.queues[k].items != []
  {
    InitInv(s);
    RunKeepsInv(s, run);
    var e := After(s, run);
    WindowsBound(e.pcs);
    TotalZero(e.queues);
  }

  /** A worker exits only after `done`, and `done` comes only when no other thread's queue holds work. */
  lemma ExitOnlyWhenDone(s: State, run: seq<Event>, t: nat)
    requires Init(s) && IsRun(s, run) && t < |After(s, run).pcs| && After(s, run).pcs[t].Exited?
    ensures var e := After(s, run);
      e.done && t < |e.queues| && Items(e.queues[t]) == [] && ForeignEmpty(e)
  {
    InitInv(s);
    RunKeepsInv(s, run);
  }

  // ----- the workers finish -----

  /** The contexts still inside the store: queued or in some thread's hands. */
  function Inside(s: State): nat {
    Total(s.queues) + HeldTotal(s.pcs)
  }

  function HeldTotal(pcs: seq<Pc>): nat {
    if pcs == [] then 0 else |Held(pcs[0])| + HeldTotal(pcs[1..])
  }

  /** How far a thread is from its exit, or from the next context it is handed. */
  function Distance(pc: Pc, done: bool): nat {
    match pc
    case Exited => 0
    case Leaving(_) => 1
    case Stolen(_) => 2
    case AtSteal => if done then 4 else 3
    case AtLoop => if done then 3 else 4
    case AtSetDone => 5
    case AtLoadSize(_) => 6
    case AtDecFree => 7
    case Dequeued(_) => 8
    case AtDequeue => 9
    case Running => 10
    case AtPush(cs) => 11 + |cs|
    case AtAddSize(cs) => 12 + |cs|
  }

  function Distances(pcs: seq<Pc>, done: bool): nat {
    if pcs == [] then 0 else Distance(pcs[0], done) + Distances(pcs[1..], done)
  }

  /** Less is left to do: fewer contexts inside, or `done` is set, or the threads are closer to their exits. */
  predicate Closer(s': State, s: State) {
    || Inside(s') < Inside(s)
    || (Inside(s') == Inside(s) && s'.done && !s.done)
    || (Inside(s') == Inside(s) && s'.done == s.done && Distances(s'.pcs, s.done) < Distances(s.pcs, s.done))
  }

  lemma {:induction false} HeldTotalUpdate(xs: seq<Pc>, k: nat, x: Pc)
    requires k < |xs|
    ensures HeldTotal(xs[k := x]) == HeldTotal(xs) - |Held(xs[k])| + |Held(x)|
  {
    if k == 0 {
      assert xs[k := x][1..] == xs[1..];
    } else {
      assert xs[k := x][1..] == xs[1..][k - 1 := x];
      HeldTotalUpdate(xs[1..], k - 1, x);
    }
  }

  lemma {:induction false} DistancesUpdate(xs: seq<Pc>, k: nat, x: Pc, done: bool)
    requires k < |xs|
    ensures Distances(xs[k := x], done) == Distances(xs, done) - Distance(xs[k], done) + Distance(x, done)
  {
    if k == 0 {
      assert xs[k := x][1..] == xs[1..];
    } else {
      assert xs[k := x][1..] == xs[1..][k - 1 := x];
      DistancesUpdate(xs[1..], k - 1, x, done);
    }
  }

  /** A steal that finds its victim's queue empty. */
  predicate InVain(s: State, a: Action) {
    a.StealFrom? && a.victim < |s.queues| && Items(s.queues[a.victim]) == [] && !s.done
  }

  /** Locally: contexts only move, or are handed out. */
  lemma EffectMoves(s: State, t: nat, a: Action)
    requires Enabled(s, t, a) && !a.CallAdd?
    ensures var e := EffectOf(s, t, a);
      e.queue < |s.queues| && |e.items| + |Held(e.pc)| + |e.leaves| == |Items(s.queues[e.queue])| + |Held(s.pcs[t])|
  {
    if a.Proceed? && (s.pcs[t].AtDequeue? || s.pcs[t].AtPush?) { QueueOpMoves(s, t); }
    else if !a.StealFrom? { HandsMove(s, t, a); }
  }

  lemma QueueOpMoves(s: State, t: nat)
    requires Enabled(s, t, Proceed) && (s.pcs[t].AtDequeue? || s.pcs[t].AtPush?)
    ensures var e := EffectOf(s, t, Proceed);
      e.queue == t && e.leaves == [] && |e.items| + |Held(e.pc)| == |Items(s.queues[t])| + |Held(s.pcs[t])|
  {}

  lemma HandsMove(s: State, t: nat, a: Action)
    requires Enabled(s, t, a) && !a.StealFrom? && !a.CallAdd? && !(a.Proceed? && (s.pcs[t].AtDequeue? || s.pcs[t].AtPush?))
    ensures var e := EffectOf(s, t, a);
      e.queue == t && e.items == Items(s.queues[t]) && |Held(e.pc)| + |e.leaves| == |Held(s.pcs[t])|
  {}

  /** Locally: a context is handed out, or `done` is set, or the thread comes closer to its exit. */
  lemma EffectProgresses(s: State, t: nat, a: Action)
    requires Enabled(s, t, a) && !a.CallAdd? && !InVain(s, a)
    ensures var e := EffectOf(s, t, a);
      e.leaves != [] || (e.finish && !s.done) || Distance(e.pc, s.done) < Distance(s.pcs[t], s.done)
  {}

  /** Whoever moves, in whatever order: every step but a new call of `add_context` and a steal in vain leaves less to do. */
  lemma StepProgresses(s: State, t: nat, a: Action)
    requires Enabled(s, t, a) && !a.CallAdd? && !InVain(s, a)
    ensures Closer(Step(s, t, a), s)
  {
    var e := EffectOf(s, t, a);
    EffectMoves(s, t, a);
    EffectProgresses(s, t, a);
    HeldTotalUpdate(s.pcs, t, e.pc);
    DistancesUpdate(s.pcs, t, e.pc, s.done);
    TotalUpdate(s.queues, e.queue, SetItems(s.queues[e.queue], e.items));
  }

  /** As long as some worker has not exited, some step leaves less to do. */
  lemma CanProgress(s: State) returns (t: nat, a: Action)
    requires Inv(s) && exists u :: 0 <= u < |s.pcs| && !s.pcs[u].Exited?
    ensures Enabled(s, t, a) && !a.CallAdd? && !InVain(s, a)
  {
    if u :| 0 <= u < |s.pcs| && !s.pcs[u].AtSteal? && !s.pcs[u].Exited? {
      t, a := u, if s.pcs[u].Running? then CallNext else Proceed;
    } else {
      t :| 0 <= t < |s.pcs| && !s.pcs[t].Exited?;
      assert s.pcs[t].AtSteal?;
      var k := Victim(s);
      a := StealFrom(k);
    }
  }

  /** When all workers are stealing or gone, there is something to steal or nothing is left. */
  lemma Victim(s: State) returns (k: nat)
    requires Inv(s) && forall u :: 0 <= u < |s.pcs| ==> s.pcs[u].AtSteal? || s.pcs[u].Exited?
    ensures k < |s.queues| && s.queues[k].Present? && (s.done || s.queues[k].items != [])
  {
    if s.done {
      k :| 0 <= k < |s.queues| && s.queues[k].Present?;
    } else {
      forall u | 0 <= u < |s.pcs| ensures InWindow(s.pcs[u]) {}
      WindowsBound(s.pcs);
      TotalZero(s.queues);
      k :| 0 <= k < |s.queues| && Items(s.queues[k]) != [];
    }
  }

  ghost predicate AllExited(s: State) {
    forall t :: 0 <= t < |s.pcs| ==> s.pcs[t].Exited?
  }

  ghost predicate NoMoreAdded(run: seq<Event>) {
    forall i :: 0 <= i < |run| ==> !run[i].action.CallAdd?
  }

  lemma {:induction false} Finishes(s: State) returns (run: seq<Event>)
    requires Inv(s)
    ensures IsRun(s, run) && NoMoreAdded(run) && AllExited(After(s, run))
    decreases Inside(s), !s.done, Distances(s.pcs, s.done)
  {
    if AllExited(s) { return []; }
    var t, a := CanProgress(s);
    StepKeepsInv(s, t, a);
    StepProgresses(s, t, a);
    var rest := Finishes(Step(s, t, a));
    run := [Event(t, a)] + rest;
    assert run[1..] == rest;
  }

  lemma {:induction false} RunsCompose(s: State, run: seq<Event>, more: seq<Event>)
    requires IsRun(s, run) && IsRun(After(s, run), more)
    ensures IsRun(s, run + more) && After(s, run + more) == After(After(s, run), more)
    decreases |run|
  {
    if run == [] {
      assert run + more == more;
    } else {
      assert (run + more)[1..] == run[1..] + more;
      RunsCompose(Step(s, run[0].thread, run[0].action), run[1..], more);
    }
  }

  lemma {:induction false} AddsNothing(s: State, run: seq<Event>)
    requires IsRun(s, run) && NoMoreAdded(run)
    ensures After(s, run).added == s.added && |After(s, run).pcs| == |s.pcs|
    decreases |run|
  {
    if run != [] {
      assert !run[0].action.CallAdd?;
      AddsNothing(Step(s, run[0].thread, run[0].action), run[1..]);
    }
  }

  /**
   From every point of every interleaving the workers can finish without further additions, and then
   every context added so far has been handed out exactly once.
   */
  lemma WorkersFinish(s: State, run: seq<Event>) returns (more: seq<Event>)
    requires Init(s) && IsRun(s, run)
    ensures IsRun(After(s, run), more) && NoMoreAdded(more) && AllExited(After(After(s, run), more))
    ensures var e := After(After(s, run), more);
      e.added == After(s, run).added && multiset(e.handed) == multiset(e.added)
  {
    InitInv(s);
    RunKeepsInv(s, run);
    more := Finishes(After(s, run));
    RunsCompose(s, run, more);
    AddsNothing(After(s, run), more);
    AllHandedOut(s, run + more);
  }

  // ----- in which order contexts leave -----

  ghost function Proceeds(t: nat, n: nat): seq<Event> {
    seq(n, _ => Event(t, Proceed))
  }

  /** The state once thread t has pushed cs. */
  ghost function AllPushed(s: State, t: nat, cs: seq<Ctx>): State
    requires t < |s.pcs| <= |s.queues|
  {
    s.(pcs := s.pcs[t := Running], queues := s.queues[t := SetItems(s.queues[t], Items(s.queues[t]) + cs)])
  }

  /** The contexts of one `add_context_multi` are queued in order, behind those already there. */
  lemma {:induction false} PushedInOrder(s: State, t: nat, cs: seq<Ctx>)
    requires t < |s.pcs| <= |s.queues| && s.pcs[t] == AtPush(cs)
    ensures IsRun(s, Proceeds(t, |cs| + 1)) && After(s, Proceeds(t, |cs| + 1)) == AllPushed(s, t, cs)
    decreases |cs|
  {
    var run := Proceeds(t, |cs| + 1);
    assert run[0] == Event(t, Proceed) && run[1..] == Proceeds(t, |cs|);
    PushOne(s, t, cs);
    if cs == [] {
      assert Items(s.queues[t]) + cs == Items(s.queues[t]);
    } else {
      PushedInOrder(Step(s, t, Proceed), t, cs[1..]);
      PushedRest(s, t, cs);
    }
  }

  lemma PushedRest(s: State, t: nat, cs: seq<Ctx>)
    requires t < |s.pcs| <= |s.queues| && cs != []
    ensures var s1 := s.(pcs := s.pcs[t := AtPush(cs[1..])], queues := s.queues[t := Present(Items(s.queues[t]) + [cs[0]])]);
      AllPushed(s1, t, cs[1..]) == AllPushed(s, t, cs)
  {
    assert Items(s.queues[t]) + [cs[0]] + cs[1..] == Items(s.queues[t]) + cs;
  }

  lemma PushOne(s: State, t: nat, cs: seq<Ctx>)
    requires t < |s.pcs| <= |s.queues| && s.pcs[t] == AtPush(cs)
    ensures Enabled(s, t, Proceed) && Step(s, t, Proceed) ==
      if cs == [] then s.(pcs := s.pcs[t := Running])
      else s.(pcs := s.pcs[t := AtPush(cs[1..])], queues := s.queues[t := Present(Items(s.queues[t]) + [cs[0]])])
  {}

  /** The owner takes from the back of its queue. */
  lemma OwnerTakesLast(s: State, t: nat, items: seq<Ctx>)
    requires Enabled(s, t, CallNext) && s.queues[t] == Present(items) && items != []
    ensures Enabled(Step(s, t, CallNext), t, Proceed)
    ensures Step(Step(s, t, CallNext), t, Proceed).pcs[t] == Dequeued(items[|items| - 1])
  {}

  /** A thief takes from the front. */
  lemma ThiefTakesFirst(s: State, u: nat, t: nat, items: seq<Ctx>)
    requires u < |s.pcs| <= |s.queues| && t < |s.queues| && s.pcs[u].AtSteal? && s.queues[t] == Present(items) && items != []
    ensures Enabled(s, u, StealFrom(t)) && Step(s, u, StealFrom(t)).pcs[u] == Stolen(items[0])
  {}

  /** The owner takes the context it queued last, and a thief the one that has been queued longest. */
  lemma NewestOwnedOldestStolen(s: State, t: nat, cs: seq<Ctx>)
    requires t < |s.pcs| <= |s.queues| && s.pcs[t] == AtPush(cs) && cs != []
    ensures IsRun(s, Proceeds(t, |cs| + 1))
    ensures var e := After(s, Proceeds(t, |cs| + 1));
      && Enabled(e, t, CallNext) && Enabled(Step(e, t, CallNext), t, Proceed)
      && Step(Step(e, t, CallNext), t, Proceed).pcs[t] == Dequeued(cs[|cs| - 1])
    ensures var e := After(s, Proceeds(t, |cs| + 1));
      forall u :: 0 <= u < |e.pcs| && e.pcs[u].AtSteal? ==>
        Enabled(e, u, StealFrom(t)) && Step(e, u, StealFrom(t)).pcs[u] == Stolen((Items(s.queues[t]) + cs)[0])
  {
    PushedInOrder(s, t, cs);
    var e, items := After(s, Proceeds(t, |cs| + 1)), Items(s.queues[t]) + cs;
    OwnerTakesLast(e, t, items);
    forall u | 0 <= u < |e.pcs| && e.pcs[u].AtSteal?
      ensures Enabled(e, u, StealFrom(t)) && Step(e, u, StealFrom(t)).pcs[u] == Stolen(items[0])
    { ThiefTakesFirst(e, u, t, items); }
  }
}
