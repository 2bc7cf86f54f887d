/** Threads that take mutexes: programs that take them in rising order never get stuck
    (lockdep_annotations), two orders together do (deadlock). */
module LockOrder {
  import opened Runs

  type Lock = nat
  type Thread = nat

  /** `Add` changes a counter of the program, `sure` if it is outside every condition;
      `SkipUnlessLess` reads res_a and jumps over the next `n` instructions if it is not below
      `bound`. */
  datatype Instr = Acquire(l: Lock) | Release(l: Lock) | AddA(k: nat, sure: bool) | AddB(k: nat)
                 | SkipUnlessLess(bound: int, n: nat)

  type Program = seq<Instr>

  datatype State = State(pcs: seq<nat>, owner: map<Lock, Thread>, resA: int, resB: int)

  function Init(k: nat): State { State(seq(k, i => 0), map[], 0, 0) }

  /** The next instruction of thread `t`, if it is not finished and not waiting. */
  function Step(progs: seq<Program>, s: State, t: Thread): State {
    if !(t < |progs| == |s.pcs|) || s.pcs[t] >= |progs[t]| then s
    else
      var on := s.(pcs := s.pcs[t := s.pcs[t] + 1]);
      match progs[t][s.pcs[t]]
      case Acquire(l) => if l in s.owner then s else on.(owner := s.owner[l := t])
      case Release(l) => on.(owner := s.owner - {l})
      case AddA(k, _) => on.(resA := s.resA + k)
      case AddB(k) => on.(resB := s.resB + k)
      case SkipUnlessLess(bound, n) => if s.resA < bound then on else s.(pcs := s.pcs[t := s.pcs[t] + 1 + n])
  }

  function After(progs: seq<Program>, es: seq<Thread>): State {
    Exec((s, t) => Step(progs, s, t), Init(|progs|), es)
  }

  predicate Done(progs: seq<Program>, s: State, t: Thread) {
    t < |progs| == |s.pcs| && s.pcs[t] >= |progs[t]|
  }

  predicate CanStep(progs: seq<Program>, s: State, t: Thread) { Step(progs, s, t) != s }

  /** Some thread is not finished and none can step. */
  ghost predicate Stuck(progs: seq<Program>, s: State) {
    (exists t: Thread :: t < |progs| && !Done(progs, s, t)) && forall t: Thread :: !CanStep(progs, s, t)
  }

  // ----- the discipline -----

  /** The locks held before instruction `pc`. */
  function Held(p: Program, pc: nat): set<Lock>
    requires pc <= |p|
  {
    if pc == 0 then {}
    else match p[pc - 1]
      case Acquire(l) => Held(p, pc - 1) + {l}
      case Release(l) => Held(p, pc - 1) - {l}
      case _ => Held(p, pc - 1)
  }

  /** Every lock is taken above those held, only held locks are released, a skipped block holds
      nothing more at its end than at its start, and nothing is held at the end. */
  ghost predicate Ordered(rank: Lock -> int, p: Program) {
    && (forall pc :: 0 <= pc < |p| ==> InstrOk(rank, p, pc))
    && Held(p, |p|) == {}
  }

  ghost predicate InstrOk(rank: Lock -> int, p: Program, pc: nat)
    requires pc < |p|
  {
    match p[pc]
    case Acquire(l) => forall h :: h in Held(p, pc) ==> rank(h) < rank(l)
    case Release(l) => l in Held(p, pc)
    case SkipUnlessLess(_, n) => pc + 1 + n <= |p| && Held(p, pc + 1 + n) == Held(p, pc + 1)
    case _ => true
  }

  ghost predicate AllOrdered(rank: Lock -> int, progs: seq<Program>) {
    forall t :: 0 <= t < |progs| ==> Ordered(rank, progs[t])
  }

  /** A lock has an owner exactly while that thread's program holds it. */
  ghost predicate Inv(progs: seq<Program>, s: State) {
    && |s.pcs| == |progs|
    && (forall t :: 0 <= t < |progs| ==> s.pcs[t] <= |progs[t]|)
    && (forall l :: l in s.owner ==> s.owner[l] < |progs|)
    && (forall t, l :: 0 <= t < |progs| ==> (l in Held(progs[t], s.pcs[t]) <==> l in s.owner && s.owner[l] == t))
  }

  lemma HeldNext(p: Program, pc: nat)
    requires pc < |p|
    ensures Held(p, pc + 1) == match p[pc]
      case Acquire(l) => Held(p, pc) + {l}
      case Release(l) => Held(p, pc) - {l}
      case _ => Held(p, pc)
  {
  }

  lemma StepKeeps(rank: Lock -> int, progs: seq<Program>, s: State, t: Thread)
    requires AllOrdered(rank, progs) && Inv(progs, s)
    ensures Inv(progs, Step(progs, s, t))
  {
    if t < |progs| && s.pcs[t] < |progs[t]| {
      var pc := s.pcs[t];
      assert InstrOk(rank, progs[t], pc);
      HeldNext(progs[t], pc);
      hide Held, AllOrdered;
      var u := Step(progs, s, t);
      forall w, l | 0 <= w < |progs| ensures l in Held(progs[w], u.pcs[w]) <==> l in u.owner && u.owner[l] == w {
        assert w != t ==> u.pcs[w] == s.pcs[w];
      }
    }
  }

  lemma Reached(rank: Lock -> int, progs: seq<Program>, es: seq<Thread>)
    requires AllOrdered(rank, progs)
    ensures Inv(progs, After(progs, es))
  {
    forall s, t | Inv(progs, s) ensures Inv(progs, Step(progs, s, t)) { StepKeeps(rank, progs, s, t); }
    assert Inv(progs, Init(|progs|));
    hide Step;
    Always((s, t) => Step(progs, s, t), s => Inv(progs, s), Init(|progs|), es);
  }

  /** A bound on the ranks of the locks a program takes, and one on all programs. */
  function Top(rank: Lock -> int, p: Program): (m: int)
    ensures forall pc :: 0 <= pc < |p| && p[pc].Acquire? ==> rank(p[pc].l) <= m
  {
    if p == [] then 0
    else
      var m := Top(rank, p[..|p| - 1]);
      assert forall pc :: 0 <= pc < |p| - 1 ==> p[..|p| - 1][pc] == p[pc];
      match p[|p| - 1]
      case Acquire(l) => if rank(l) > m then rank(l) else m
      case _ => m
  }

  function TopOf(rank: Lock -> int, progs: seq<Program>): (m: int)
    ensures forall t :: 0 <= t < |progs| ==> Top(rank, progs[t]) <= m
  {
    if progs == [] then 0
    else
      var m := TopOf(rank, progs[..|progs| - 1]);
      assert forall t :: 0 <= t < |progs| - 1 ==> progs[..|progs| - 1][t] == progs[t];
      var n := Top(rank, progs[|progs| - 1]);
      if n > m then n else m
  }

  /** Whom a thread waits for, that one waits for, and so on up the ranks, there is at last one
      that can step. */
  lemma {:induction false} SomeoneRuns(rank: Lock -> int, progs: seq<Program>, s: State, t: Thread, m: int)
      returns (u: Thread)
    requires AllOrdered(rank, progs) && Inv(progs, s) && t < |progs| && s.pcs[t] < |progs[t]|
    requires forall w :: 0 <= w < |progs| ==> Top(rank, progs[w]) <= m
    ensures CanStep(progs, s, u)
    decreases match progs[t][s.pcs[t]] case Acquire(l) => m - rank(l) case _ => 0
  {
    var pc := s.pcs[t];
    if progs[t][pc].Acquire? && progs[t][pc].l in s.owner {
      var l := progs[t][pc].l;
      var w := s.owner[l];
      assert l in Held(progs[w], s.pcs[w]);
      assert s.pcs[w] < |progs[w]|;
      assert InstrOk(rank, progs[w], s.pcs[w]);
      if progs[w][s.pcs[w]].Acquire? {
        u := SomeoneRuns(rank, progs, s, w, m);
      } else {
        u := w;
        Moves(progs, s, u);
      }
    } else {
      u := t;
      Moves(progs, s, u);
    }
  }

  lemma Moves(progs: seq<Program>, s: State, t: Thread)
    requires t < |progs| == |s.pcs| && s.pcs[t] < |progs[t]|
    requires progs[t][s.pcs[t]].Acquire? ==> progs[t][s.pcs[t]].l !in s.owner
    ensures CanStep(progs, s, t)
  {
    assert Step(progs, s, t).pcs[t] > s.pcs[t];
  }

  /** Programs that take their locks in rising rank are never stuck, in any schedule. */
  lemma OrderedNeverStuck(rank: Lock -> int, progs: seq<Program>, es: seq<Thread>)
    requires AllOrdered(rank, progs)
    ensures !Stuck(progs, After(progs, es))
  {
    Reached(rank, progs, es);
    var s := After(progs, es);
    if t: Thread :| t < |progs| && !Done(progs, s, t) {
      var u := SomeoneRuns(rank, progs, s, t, TopOf(rank, progs));
    }
  }

  /** Instructions not yet passed. */
  function ToGo(progs: seq<Program>, pcs: seq<nat>): int {
    if progs == [] || pcs == [] then 0 else |progs[0]| - pcs[0] + ToGo(progs[1..], pcs[1..])
  }

  lemma {:induction false} ToGoUpdate(progs: seq<Program>, pcs: seq<nat>, t: nat, pc: nat)
    requires t < |progs| == |pcs|
    ensures ToGo(progs, pcs[t := pc]) == ToGo(progs, pcs) + pcs[t] - pc
  {
    if t == 0 {
      assert pcs[0 := pc][1..] == pcs[1..];
    } else {
      assert pcs[t := pc][1..] == pcs[1..][t - 1 := pc];
      ToGoUpdate(progs[1..], pcs[1..], t - 1, pc);
    }
  }

  lemma {:induction false} ToGoNotNegative(progs: seq<Program>, pcs: seq<nat>)
    requires |progs| == |pcs| && forall t :: 0 <= t < |progs| ==> pcs[t] <= |progs[t]|
    ensures ToGo(progs, pcs) >= 0
  {
    if progs != [] { ToGoNotNegative(progs[1..], pcs[1..]); }
  }

  /** Every step that is not a wait brings the end nearer, so a run takes at most as many steps
      as there are instructions. */
  lemma StepsAreBounded(rank: Lock -> int, progs: seq<Program>, es: seq<Thread>, t: Thread)
    requires AllOrdered(rank, progs) && CanStep(progs, After(progs, es), t)
    ensures 0 <= ToGo(progs, Step(progs, After(progs, es), t).pcs) < ToGo(progs, After(progs, es).pcs)
  {
    hide AllOrdered, After, Held, ToGo;
    Reached(rank, progs, es);
    var s := After(progs, es);
    StepKeeps(rank, progs, s, t);
    var u := Step(progs, s, t);
    ToGoUpdate(progs, s.pcs, t, u.pcs[t]);
    assert u.pcs == s.pcs[t := u.pcs[t]];
    ToGoNotNegative(progs, u.pcs);
  }

  // ----- the module: any number of threads, any number of iterations -----

  const A: Lock := 0
  const B: Lock := 1

  /** One iteration of kthread_fn: ordered_lock, manual_track, might_use. */
  const BODY: Program := [
    Acquire(A), AddA(1, true), Acquire(B), AddB(1), Release(B), Release(A),
    Acquire(A), AddA(5, true), Release(A),
    SkipUnlessLess(10, 3), Acquire(A), AddA(2, false), Release(A)]

  function Iterations(n: nat): Program { if n == 0 then [] else Iterations(n - 1) + BODY }

  function ByNumber(): Lock -> int { l => l }

  /** Appending keeps what came before. */
  lemma {:induction false} HeldBefore(p: Program, q: Program, pc: nat)
    requires pc <= |p|
    ensures Held(p + q, pc) == Held(p, pc)
  {
    if pc > 0 { HeldBefore(p, q, pc - 1); }
  }

  /** After a program that holds nothing at its end, what follows runs as on its own. */
  lemma {:induction false} HeldAfter(p: Program, q: Program, pc: nat)
    requires pc <= |q| && Held(p, |p|) == {}
    ensures Held(p + q, |p| + pc) == Held(q, pc)
  {
    if pc == 0 {
      HeldBefore(p, q, |p|);
    } else {
      HeldAfter(p, q, pc - 1);
      assert (p + q)[|p| + pc - 1] == q[pc - 1];
    }
  }

  lemma OrderedAppend(rank: Lock -> int, p: Program, q: Program)
    requires Ordered(rank, p) && Ordered(rank, q)
    ensures Ordered(rank, p + q)
  {
    hide Held;
    HeldAfter(p, q, |q|);
    forall pc | 0 <= pc < |p + q| ensures InstrOk(rank, p + q, pc) {
      if pc < |p| {
        assert InstrOk(rank, p, pc) && (p + q)[pc] == p[pc];
        HeldBefore(p, q, pc);
        HeldBefore(p, q, pc + 1);
        if p[pc].SkipUnlessLess? { HeldBefore(p, q, pc + 1 + p[pc].n); }
      } else {
        var i := pc - |p|;
        assert InstrOk(rank, q, i) && (p + q)[pc] == q[i];
        HeldAfter(p, q, i);
        HeldAfter(p, q, i + 1);
        if q[i].SkipUnlessLess? { HeldAfter(p, q, i + 1 + q[i].n); }
      }
    }
  }

  lemma HeldInBody()
    ensures Held(BODY, 0) == {} && Held(BODY, 1) == {A} && Held(BODY, 2) == {A} && Held(BODY, 3) == {A, B}
    ensures Held(BODY, 4) == {A, B} && Held(BODY, 5) == {A} && Held(BODY, 6) == {} && Held(BODY, 7) == {A}
    ensures Held(BODY, 8) == {A} && Held(BODY, 9) == {} && Held(BODY, 10) == {} && Held(BODY, 11) == {A}
    ensures Held(BODY, 12) == {A} && Held(BODY, 13) == {}
  {
    assert Held(BODY, 0) == {};
    assert Held(BODY, 1) == Held(BODY, 0) + {A} == {A};
    assert Held(BODY, 3) == Held(BODY, 2) + {B} == {A, B};
    assert Held(BODY, 5) == Held(BODY, 4) - {B} == {A};
    assert Held(BODY, 6) == Held(BODY, 5) - {A} == {};
    assert Held(BODY, 7) == Held(BODY, 6) + {A} == {A};
    assert Held(BODY, 9) == Held(BODY, 8) - {A} == {};
    assert Held(BODY, 11) == Held(BODY, 10) + {A} == {A};
    assert Held(BODY, 13) == Held(BODY, 12) - {A} == {};
  }

  lemma {:induction false} IterationsOrdered(n: nat)
    ensures Ordered(ByNumber(), Iterations(n)) && |Iterations(n)| == 13 * n
  {
    if n > 0 {
      IterationsOrdered(n - 1);
      HeldInBody();
      assert forall pc :: 0 <= pc < 13 ==> InstrOk(ByNumber(), BODY, pc);
      OrderedAppend(ByNumber(), Iterations(n - 1), BODY);
    }
  }

  function Threads(k: nat, n: nat): (r: seq<Program>)
    ensures |r| == k && forall t :: 0 <= t < k ==> r[t] == Iterations(n)
  {
    seq(k, t => Iterations(n))
  }

  function Repeat(t: Thread, m: nat): seq<Thread> { if m == 0 then [] else Repeat(t, m - 1) + [t] }

  lemma RepeatMore(progs: seq<Program>, t: Thread, m: nat)
    ensures After(progs, Repeat(t, m + 1)) == Step(progs, After(progs, Repeat(t, m)), t)
  {
    AfterOneMore(progs, Repeat(t, m), t);
  }

  /** Within one iteration of a thread on its own: 1 is added to res_a and to res_b under both locks
      (ordered_lock, six steps), then 5 to res_a (manual_track, three more), then 2 to res_a
      (might_use). */
  lemma IterationAlone()
    ensures
      var progs := Threads(1, 1);
      var s, t, u := After(progs, Repeat(0, 6)), After(progs, Repeat(0, 9)), After(progs, Repeat(0, 13));
      && s.resA == 1 && s.resB == 1 && t.resA == 6 && t.resB == 1 && u.resA == 8 && u.resB == 1
      && s.owner == t.owner == u.owner == map[] && Done(progs, u, 0)
      && After(progs, Repeat(0, 3)).owner.Keys == {A, B}
  {
    OneIteration();
    FirstSixSteps([BODY]);
    LastSteps([BODY]);
  }

  lemma OneIteration()
    ensures Threads(1, 1) == [BODY]
  {
    assert Iterations(1) == Iterations(0) + BODY == BODY;
  }

  lemma FirstSixSteps(progs: seq<Program>)
    requires progs == [BODY]
    ensures After(progs, Repeat(0, 3)) == State([3], map[A := 0, B := 0], 1, 0)
    ensures After(progs, Repeat(0, 6)) == State([6], map[], 1, 1)
  {
    hide After;
    StartsAt(progs);
    RepeatMore(progs, 0, 0); RepeatMore(progs, 0, 1); RepeatMore(progs, 0, 2);
    assert After(progs, Repeat(0, 3)) == State([3], map[A := 0, B := 0], 1, 0);
    RepeatMore(progs, 0, 3); RepeatMore(progs, 0, 4); RepeatMore(progs, 0, 5);
  }

  lemma LastSteps(progs: seq<Program>)
    requires progs == [BODY] && After(progs, Repeat(0, 6)) == State([6], map[], 1, 1)
    ensures After(progs, Repeat(0, 9)) == State([9], map[], 6, 1)
    ensures After(progs, Repeat(0, 13)) == State([13], map[], 8, 1)
  {
    hide After;
    RepeatMore(progs, 0, 6); RepeatMore(progs, 0, 7); RepeatMore(progs, 0, 8);
    assert After(progs, Repeat(0, 9)) == State([9], map[], 6, 1);
    RepeatMore(progs, 0, 9); RepeatMore(progs, 0, 10); RepeatMore(progs, 0, 11); RepeatMore(progs, 0, 12);
  }

  lemma StartsAt(progs: seq<Program>)
    ensures After(progs, Repeat(0, 0)) == Init(|progs|)
  {
  }

  /** However many threads run however many iterations, they are never stuck. */
  lemma LockdepNeverStuck(k: nat, n: nat, es: seq<Thread>)
    ensures !Stuck(Threads(k, n), After(Threads(k, n), es))
  {
    IterationsOrdered(n);
    OrderedNeverStuck(ByNumber(), Threads(k, n), es);
  }

  lemma {:induction false} BoundaryHoldsNothing(n: nat, i: nat)
    requires i <= n
    ensures 13 * i <= |Iterations(n)| && Held(Iterations(n), 13 * i) == {}
  {
    IterationsOrdered(n);
    if i < n {
      BoundaryHoldsNothing(n - 1, i);
      HeldBefore(Iterations(n - 1), BODY, 13 * i);
    }
  }

  /** At the end of an iteration a thread owns no lock. */
  lemma IterationReleases(k: nat, n: nat, es: seq<Thread>, t: Thread, i: nat)
    requires t < k && i <= n
    ensures var s := After(Threads(k, n), es);
      |s.pcs| == k && (s.pcs[t] == 13 * i ==> forall l :: l in s.owner ==> s.owner[l] != t)
  {
    IterationsOrdered(n);
    Reached(ByNumber(), Threads(k, n), es);
    BoundaryHoldsNothing(n, i);
    var s := After(Threads(k, n), es);
    forall l | l in s.owner && s.pcs[t] == 13 * i ensures s.owner[l] != t {
      assert l !in Held(Threads(k, n)[t], s.pcs[t]);
    }
  }

  // ----- what the threads add up -----

  /** The additions to res_a outside every condition, and those to res_b. */
  datatype Tally = SureA | AllB

  function Weight(c: Tally, i: Instr): nat {
    match i
    case AddA(k, sure) => if c == SureA && sure then k else 0
    case AddB(k) => if c == AllB then k else 0
    case _ => 0
  }

  function Passed(c: Tally, p: Program, pc: nat): nat
    requires pc <= |p|
  {
    if pc == 0 then 0 else Passed(c, p, pc - 1) + Weight(c, p[pc - 1])
  }

  function PassedAll(c: Tally, progs: seq<Program>, pcs: seq<nat>): nat
    requires |progs| == |pcs| && forall t :: 0 <= t < |progs| ==> pcs[t] <= |progs[t]|
  {
    if progs == [] then 0 else Passed(c, progs[0], pcs[0]) + PassedAll(c, progs[1..], pcs[1..])
  }

  lemma {:induction false} PassedUpdate(c: Tally, progs: seq<Program>, pcs: seq<nat>, t: nat, pc: nat)
    requires t < |progs| == |pcs| && forall w :: 0 <= w < |progs| ==> pcs[w] <= |progs[w]|
    requires pc <= |progs[t]|
    ensures PassedAll(c, progs, pcs[t := pc]) ==
            PassedAll(c, progs, pcs) - Passed(c, progs[t], pcs[t]) + Passed(c, progs[t], pc)
  {
    if t == 0 {
      assert pcs[0 := pc][1..] == pcs[1..];
    } else {
      assert pcs[t := pc][1..] == pcs[1..][t - 1 := pc];
      PassedUpdate(c, progs[1..], pcs[1..], t - 1, pc);
    }
  }

  /** Skipped blocks hold only additions that are not sure. */
  ghost predicate Optional(p: Program) {
    forall pc :: 0 <= pc < |p| && p[pc].SkipUnlessLess? ==> MaySkip(p, pc + 1, pc + 1 + p[pc].n)
  }

  predicate MaySkip(p: Program, from: nat, to: nat) {
    && from <= to <= |p|
    && Passed(SureA, p, from) == Passed(SureA, p, to)
    && Passed(AllB, p, from) == Passed(AllB, p, to)
  }

  lemma SkipBefore(p: Program, q: Program, from: nat, to: nat)
    requires MaySkip(p, from, to)
    ensures MaySkip(p + q, from, to)
  {
    PassedBefore(SureA, p, q, from); PassedBefore(SureA, p, q, to);
    PassedBefore(AllB, p, q, from); PassedBefore(AllB, p, q, to);
  }

  lemma SkipAfter(p: Program, q: Program, from: nat, to: nat)
    requires MaySkip(q, from, to)
    ensures MaySkip(p + q, |p| + from, |p| + to)
  {
    PassedAfter(SureA, p, q, from); PassedAfter(SureA, p, q, to);
    PassedAfter(AllB, p, q, from); PassedAfter(AllB, p, q, to);
  }

  /** What an instruction in a condition adds to res_a. */
  function Extra(i: Instr): nat {
    match i
    case AddA(k, sure) => if sure then 0 else k
    case _ => 0
  }

  /** What one step adds, and what it passes in its program. */
  lemma StepPasses(progs: seq<Program>, s: State, t: Thread)
    requires t < |progs| == |s.pcs| && s.pcs[t] < |progs[t]| && Optional(progs[t])
    ensures var u, p, pc := Step(progs, s, t), progs[t], s.pcs[t];
      && |u.pcs| == |s.pcs| && u.pcs[t] <= |p| && u.pcs == s.pcs[t := u.pcs[t]]
      && u.resB - s.resB == Passed(AllB, p, u.pcs[t]) - Passed(AllB, p, pc)
      && u.resA - s.resA == Passed(SureA, p, u.pcs[t]) - Passed(SureA, p, pc) + Extra(p[pc])
  {
    var p, pc := progs[t], s.pcs[t];
    PassOne(SureA, p, pc); PassOne(AllB, p, pc);
    if p[pc].SkipUnlessLess? { assert MaySkip(p, pc + 1, pc + 1 + p[pc].n); }
    hide Passed, Optional;
  }

  lemma PassOne(c: Tally, p: Program, pc: nat)
    requires pc < |p|
    ensures Passed(c, p, pc + 1) == Passed(c, p, pc) + Weight(c, p[pc])
  {
  }

  lemma {:induction false} PassedBefore(c: Tally, p: Program, q: Program, pc: nat)
    requires pc <= |p|
    ensures Passed(c, p + q, pc) == Passed(c, p, pc)
  {
    if pc > 0 { PassedBefore(c, p, q, pc - 1); }
  }

  lemma {:induction false} PassedAfter(c: Tally, p: Program, q: Program, pc: nat)
    requires pc <= |q|
    ensures Passed(c, p + q, |p| + pc) == Passed(c, p, |p|) + Passed(c, q, pc)
  {
    if pc == 0 {
      PassedBefore(c, p, q, |p|);
    } else {
      PassedAfter(c, p, q, pc - 1);
      assert (p + q)[|p| + pc - 1] == q[pc - 1];
    }
  }

  lemma PassedInBody(c: Tally)
    ensures Passed(c, BODY, 10) == Weight(c, AddA(6, true)) + Weight(c, AddB(1))
    ensures Passed(c, BODY, 13) == Passed(c, BODY, 12) == Passed(c, BODY, 11) == Passed(c, BODY, 10)
    ensures Passed(c, BODY, 9) == Passed(c, BODY, 10)
  {
    assert Passed(c, BODY, 0) == 0 && Passed(c, BODY, 1) == 0;
    assert Passed(c, BODY, 2) == Weight(c, AddA(1, true));
    assert Passed(c, BODY, 4) == Passed(c, BODY, 2) + Weight(c, AddB(1));
    assert Passed(c, BODY, 6) == Passed(c, BODY, 4);
    assert Passed(c, BODY, 8) == Passed(c, BODY, 6) + Weight(c, AddA(5, true));
    assert Passed(c, BODY, 10) == Passed(c, BODY, 8);
    assert Passed(c, BODY, 12) == Passed(c, BODY, 10) + Weight(c, AddA(2, false));
  }

  lemma OptionalAppend(p: Program)
    requires Optional(p)
    ensures Optional(p + BODY)
  {
    PassedInBody(SureA); PassedInBody(AllB);
    hide Passed;
    assert MaySkip(BODY, 10, 13);
    SkipAfter(p, BODY, 10, 13);
    forall pc | 0 <= pc < |p + BODY| && (p + BODY)[pc].SkipUnlessLess?
      ensures MaySkip(p + BODY, pc + 1, pc + 1 + (p + BODY)[pc].n)
    {
      if pc < |p| {
        assert p[pc] == (p + BODY)[pc];
        SkipBefore(p, BODY, pc + 1, pc + 1 + p[pc].n);
      } else {
        assert BODY[pc - |p|] == (p + BODY)[pc];
        assert pc - |p| == 9;
      }
    }
  }

  /** Iterations one after the other add up, and what they may skip is never sure. */
  lemma {:induction false} IterationsAdd(n: nat)
    ensures Passed(SureA, Iterations(n), |Iterations(n)|) == 6 * n
    ensures Passed(AllB, Iterations(n), |Iterations(n)|) == n
    ensures Optional(Iterations(n))
  {
    if n > 0 {
      var p := Iterations(n - 1);
      IterationsAdd(n - 1);
      OneMoreIteration(n);
      PassedInBody(SureA); PassedInBody(AllB);
      hide Passed, Iterations, Optional;
      PassedAfter(SureA, p, BODY, 13); PassedAfter(AllB, p, BODY, 13);
      OptionalAppend(p);
    }
  }

  lemma OneMoreIteration(n: nat)
    requires n > 0
    ensures Iterations(n) == Iterations(n - 1) + BODY
  {
  }

  lemma {:induction false} AllThreadsPassed(c: Tally, k: nat, n: nat, x: nat, progs: seq<Program>, pcs: seq<nat>)
    requires |progs| == |pcs| == k
    requires forall t :: 0 <= t < k ==> progs[t] == Iterations(n) && pcs[t] == |Iterations(n)|
    requires Passed(c, Iterations(n), |Iterations(n)|) == x
    ensures PassedAll(c, progs, pcs) == k * x
  {
    hide Passed, Iterations;
    if k > 0 {
      AllThreadsPassed(c, k - 1, n, x, progs[1..], pcs[1..]);
      assert k * x == (k - 1) * x + x;
    }
  }

  // ----- at most one test of res_a passes -----

  /** Where a thread has passed the test and not yet added. */
  predicate InBlock(pc: nat) { pc % 13 == 10 || pc % 13 == 11 }

  lemma {:induction false} IterationAt(n: nat, i: nat, r: nat)
    requires i < n && r < 13
    ensures |Iterations(n)| == 13 * n && Iterations(n)[13 * i + r] == BODY[r]
    ensures Passed(SureA, Iterations(n), 13 * i + r) == 6 * i + Passed(SureA, BODY, r)
  {
    hide Iterations, Passed, Ordered, Optional;
    IterationsOrdered(n);
    IterationsOrdered(n - 1);
    OneMoreIteration(n);
    if i < n - 1 {
      IterationAt(n - 1, i, r);
      PassedBefore(SureA, Iterations(n - 1), BODY, 13 * i + r);
    } else {
      IterationsAdd(n - 1);
      PassedAfter(SureA, Iterations(n - 1), BODY, r);
    }
  }

  /** A thread at its test, or past its first one, has added 6; past its second 12. */
  lemma SureSoFar(n: nat, pc: nat)
    requires pc <= 13 * n == |Iterations(n)|
    ensures pc >= 10 || pc % 13 == 9 ==> Passed(SureA, Iterations(n), pc) >= 6
    ensures pc >= 22 ==> Passed(SureA, Iterations(n), pc) >= 12
    ensures pc == 9 ==> Passed(SureA, Iterations(n), pc) == 6
  {
    var i, r := pc / 13, pc % 13;
    PassedInBody(SureA);
    hide Passed;
    if i < n { IterationAt(n, i, r); } else { IterationsAdd(n); }
  }

  lemma AtLeast(c: Tally, progs: seq<Program>, pcs: seq<nat>, t: nat, w: nat)
    requires t < |progs| == |pcs| && w < |progs| && forall v :: 0 <= v < |progs| ==> pcs[v] <= |progs[v]|
    ensures PassedAll(c, progs, pcs) >= Passed(c, progs[t], pcs[t]) + if t == w then 0 else Passed(c, progs[w], pcs[w])
  {
    PassedUpdate(c, progs, pcs, t, 0);
    PassedUpdate(c, progs, pcs[t := 0], w, 0);
  }

  /** res_b counts what was passed; res_a too, and 2 more once a thread has passed the test and
      added; only one thread ever does. */
  ghost predicate Tallied(n: nat, progs: seq<Program>, s: State) {
    && |s.pcs| == |progs| && (forall t :: 0 <= t < |progs| ==> progs[t] == Iterations(n) && s.pcs[t] <= |progs[t]|)
    && s.resB == PassedAll(AllB, progs, s.pcs)
    && OneTest(s, s.resA - PassedAll(SureA, progs, s.pcs))
  }

  predicate OneTest(s: State, extra: int) {
    && (extra == 0 || extra == 2)
    && (forall t, w :: 0 <= t < |s.pcs| && 0 <= w < |s.pcs| && InBlock(s.pcs[t]) && InBlock(s.pcs[w]) ==> t == w)
    && (forall t :: 0 <= t < |s.pcs| && InBlock(s.pcs[t]) ==> extra == 0)
    && (extra == 2 ==> exists t :: 0 <= t < |s.pcs| && s.pcs[t] >= 10)
  }

  /** A test that passes is the first one of all. */
  lemma NobodyPassed(n: nat, progs: seq<Program>, s: State, t: Thread, w: Thread)
    requires Tallied(n, progs, s) && t < |progs| && w < |progs|
    requires s.pcs[t] % 13 == 9 && s.resA < 10
    ensures s.pcs[w] < 10
  {
    IterationsOrdered(n);
    SureSoFar(n, s.pcs[t]);
    SureSoFar(n, s.pcs[w]);
    AtLeast(SureA, progs, s.pcs, t, w);
    hide Iterations, Passed, PassedAll;
  }

  lemma StepTallies(n: nat, progs: seq<Program>, s: State, t: Thread)
    requires Tallied(n, progs, s)
    ensures Tallied(n, progs, Step(progs, s, t))
  {
    IterationsOrdered(n);
    IterationsAdd(n);
    hide PassedAll, Passed, Iterations, Optional, Ordered, OneTest;
    if t < |progs| && s.pcs[t] < |progs[t]| {
      var pc := s.pcs[t];
      var u := Step(progs, s, t);
      IterationAt(n, pc / 13, pc % 13);
      StepPasses(progs, s, t);
      PassedUpdate(SureA, progs, s.pcs, t, u.pcs[t]);
      PassedUpdate(AllB, progs, s.pcs, t, u.pcs[t]);
      forall w: Thread | w < |progs| && pc % 13 == 9 && s.resA < 10 ensures s.pcs[w] < 10 {
        NobodyPassed(n, progs, s, t, w);
      }
      BodyMoves(progs, s, t);
      TestKept(s, u, t, s.resA - PassedAll(SureA, progs, s.pcs), Extra(progs[t][pc]));
    }
  }

  /** From `pc` to `next`, adding `more` in the condition: over the block or into it at the test. */
  predicate MovesOn(resA: int, pc: nat, next: nat, more: nat) {
    && more == (if pc % 13 == 11 then 2 else 0)
    && (if pc % 13 == 9 then next == if resA < 10 then pc + 1 else pc + 4
        else if pc % 13 == 11 then next == pc + 1
        else pc <= next <= pc + 1)
  }

  /** Where a step of an iteration leads. */
  lemma BodyMoves(progs: seq<Program>, s: State, t: Thread)
    requires t < |progs| == |s.pcs| && s.pcs[t] < |progs[t]| && progs[t][s.pcs[t]] == BODY[s.pcs[t] % 13]
    ensures var u, pc := Step(progs, s, t), s.pcs[t];
      && u.pcs == s.pcs[t := u.pcs[t]]
      && MovesOn(s.resA, pc, u.pcs[t], Extra(progs[t][pc]))
  {
  }

  lemma TestKept(s: State, u: State, t: Thread, extra: int, more: nat)
    requires t < |s.pcs| && OneTest(s, extra) && |u.pcs| == |s.pcs| && u.pcs == s.pcs[t := u.pcs[t]]
    requires MovesOn(s.resA, s.pcs[t], u.pcs[t], more)
    requires s.pcs[t] % 13 == 9 && s.resA < 10 ==> forall w :: 0 <= w < |s.pcs| ==> s.pcs[w] < 10
    ensures OneTest(u, extra + more)
  {
    assert InBlock(u.pcs[t]) ==> InBlock(s.pcs[t]) || (s.pcs[t] % 13 == 9 && s.resA < 10);
    assert s.pcs[t] % 13 == 11 ==> !InBlock(u.pcs[t]) && u.pcs[t] >= 10;
    if w: nat :| w < |s.pcs| && s.pcs[w] >= 10 { assert u.pcs[w] >= 10; }
  }

  lemma TalliedAfter(k: nat, n: nat, es: seq<Thread>)
    ensures Tallied(n, Threads(k, n), After(Threads(k, n), es))
  {
    var progs := Threads(k, n);
    forall s, t | Tallied(n, progs, s) ensures Tallied(n, progs, Step(progs, s, t)) { StepTallies(n, progs, s, t); }
    assert Tallied(n, progs, Init(k)) by { NothingPassed(progs, Init(k).pcs); }
    hide Step, Tallied;
    Always((s, t) => Step(progs, s, t), s => Tallied(n, progs, s), Init(k), es);
  }

  /** When all are done: res_b counts every iteration, res_a 6 for each and at most once 2 more. */
  lemma Totals(k: nat, n: nat, es: seq<Thread>)
    requires forall t :: 0 <= t < k ==> Done(Threads(k, n), After(Threads(k, n), es), t)
    ensures var s := After(Threads(k, n), es);
      s.resB == k * n && (s.resA == k * (6 * n) || s.resA == k * (6 * n) + 2)
  {
    var progs, s := Threads(k, n), After(Threads(k, n), es);
    IterationsAdd(n);
    TalliedAfter(k, n, es);
    hide Step, Passed, PassedAll, Optional, After;
    forall t | 0 <= t < k ensures s.pcs[t] == |Iterations(n)| { assert Done(progs, s, t); }
    AllThreadsPassed(AllB, k, n, n, progs, s.pcs);
    AllThreadsPassed(SureA, k, n, 6 * n, progs, s.pcs);
  }

  /** A thread on its own finds res_a at 6 at its first test and adds. */
  ghost predicate Alone(n: nat, progs: seq<Program>, s: State) {
    && Tallied(n, progs, s) && |progs| == 1
    && (s.pcs[0] >= 12 ==> s.resA == PassedAll(SureA, progs, s.pcs) + 2)
  }

  lemma AloneStep(n: nat, progs: seq<Program>, s: State, t: Thread)
    requires Alone(n, progs, s)
    ensures Alone(n, progs, Step(progs, s, t))
  {
    StepTallies(n, progs, s, t);
    if t == 0 && s.pcs[0] < |progs[0]| { AloneMoves(n, progs, s, Step(progs, s, 0)); }
    hide PassedAll, Passed, Iterations;
  }

  lemma AloneMoves(n: nat, progs: seq<Program>, s: State, u: State)
    requires Alone(n, progs, s) && u == Step(progs, s, 0) && Tallied(n, progs, u) && s.pcs[0] < |progs[0]|
    ensures u.pcs[0] >= 12 ==> u.resA == PassedAll(SureA, progs, u.pcs) + 2
  {
    hide PassedAll, Passed, Iterations, Optional, Ordered, OneTest, Step;
    var pc := s.pcs[0];
    IterationsOrdered(n);
    IterationsAdd(n);
    SureSoFar(n, pc);
    IterationAt(n, pc / 13, pc % 13);
    StepPasses(progs, s, 0);
    BodyMoves(progs, s, 0);
    OneProgram(SureA, progs, s.pcs);
    OneProgram(SureA, progs, u.pcs);
    AddsOnce(s, u, s.resA - PassedAll(SureA, progs, s.pcs), Extra(progs[0][pc]));
  }

  lemma AddsOnce(s: State, u: State, extra: int, more: nat)
    requires |s.pcs| == |u.pcs| == 1 && OneTest(s, extra) && OneTest(u, extra + more)
    requires s.pcs[0] >= 12 ==> extra == 2
    requires s.pcs[0] == 9 ==> s.resA == 6 + extra
    requires MovesOn(s.resA, s.pcs[0], u.pcs[0], more)
    ensures u.pcs[0] >= 12 ==> extra + more == 2
  {
    assert s.pcs[0] == 9 ==> extra == 0;
    assert s.pcs[0] == 11 ==> InBlock(s.pcs[0]);
    assert s.pcs[0] < 12 && u.pcs[0] >= 12 ==> s.pcs[0] == 11;
  }

  lemma OneProgram(c: Tally, progs: seq<Program>, pcs: seq<nat>)
    requires |progs| == |pcs| == 1 && pcs[0] <= |progs[0]|
    ensures PassedAll(c, progs, pcs) == Passed(c, progs[0], pcs[0])
  {
    hide Passed;
    assert PassedAll(c, progs[1..], pcs[1..]) == 0;
  }

  /** The one thread that the module starts adds the 2 exactly once. */
  lemma TotalsAlone(n: nat, es: seq<Thread>)
    requires n > 0 && Done(Threads(1, n), After(Threads(1, n), es), 0)
    ensures After(Threads(1, n), es).resA == 6 * n + 2
  {
    var progs, s := Threads(1, n), After(Threads(1, n), es);
    hide Passed, Iterations;
    IterationsAdd(n);
    IterationsOrdered(n);
    forall s, t | Alone(n, progs, s) ensures Alone(n, progs, Step(progs, s, t)) { AloneStep(n, progs, s, t); }
    assert Alone(n, progs, Init(1)) by { TalliedAfter(1, n, []); }
    hide Step;
    Always((s, t) => Step(progs, s, t), s => Alone(n, progs, s), Init(1), es);
    OneProgram(SureA, progs, s.pcs);
  }

  lemma {:induction false} NothingPassed(progs: seq<Program>, pcs: seq<nat>)
    requires |progs| == |pcs| && forall t :: 0 <= t < |progs| ==> pcs[t] == 0
    ensures forall c: Tally :: PassedAll(c, progs, pcs) == 0
  {
    if progs != [] { NothingPassed(progs[1..], pcs[1..]); }
  }

  // ----- two orders -----

  /** thread1_fn and thread2_fn of the deadlock module. */
  const AB: Program := [Acquire(A), Acquire(B), Release(B), Release(A)]
  const BA: Program := [Acquire(B), Acquire(A), Release(A), Release(B)]

  /** The locks held around each instruction of the two threads. */
  lemma HeldByPair(p: Program, first: Lock, second: Lock)
    requires p == [Acquire(first), Acquire(second), Release(second), Release(first)] && first != second
    ensures Held(p, 0) == {} && Held(p, 1) == {first} && Held(p, 2) == {first, second}
    ensures Held(p, 3) == {first} && Held(p, 4) == {}
  {
    assert Held(p, 0) == {};
    assert Held(p, 1) == Held(p, 0) + {first};
    assert Held(p, 2) == Held(p, 1) + {second};
    assert Held(p, 3) == Held(p, 2) - {second};
    assert Held(p, 4) == Held(p, 3) - {first};
    hide Held;
    assert {} + {first} == {first} && {first} + {second} == {first, second};
    assert {first, second} - {second} == {first} && {first} - {first} == {};
  }

  lemma OneOrder(p: Program)
    requires p == AB || p == BA
    ensures p == AB ==> Ordered(ByNumber(), p)
    ensures p == BA ==> Ordered(Backwards(), p)
  {
    if p == AB { HeldByPair(p, A, B); }
    if p == BA { HeldByPair(p, B, A); }
    hide Held;
  }

  function Backwards(): Lock -> int { l => 0 - l }

  lemma AfterOneMore(progs: seq<Program>, es: seq<Thread>, t: Thread)
    ensures After(progs, es + [t]) == Step(progs, After(progs, es), t)
  {
    ExecOneMore((s, t) => Step(progs, s, t), Init(|progs|), es, t);
  }

  /** One thread has taken A, another B: nobody can go on. */
  lemma BothOrdersGetStuck(progs: seq<Program>, i: Thread, j: Thread)
    requires forall t :: 0 <= t < |progs| ==> progs[t] == AB || progs[t] == BA
    requires i < |progs| && j < |progs| && progs[i] == AB && progs[j] == BA
    ensures Stuck(progs, After(progs, [i] + [j]))
  {
    AfterOneMore(progs, [], i);
    assert [] + [i] == [i];
    AfterOneMore(progs, [i], j);
    var s := After(progs, [i] + [j]);
    assert AB != BA by { assert AB[0] != BA[0]; }
    assert s.owner == map[A := i, B := j];
    assert !Done(progs, s, i);
    forall t: Thread ensures !CanStep(progs, s, t) {
      if t < |progs| {
        assert s.pcs[t] == if t == i || t == j then 1 else 0;
        assert progs[t][s.pcs[t]].Acquire? && progs[t][s.pcs[t]].l in s.owner;
      }
    }
  }

  /** Threads that each take the two locks in one order or the other can get stuck iff both
      orders occur. */
  lemma StuckExactly(progs: seq<Program>)
    requires forall t :: 0 <= t < |progs| ==> progs[t] == AB || progs[t] == BA
    ensures (exists es :: Stuck(progs, After(progs, es))) <==> AB in progs && BA in progs
  {
    if AB in progs && BA in progs {
      var i: nat :| i < |progs| && progs[i] == AB;
      var j: nat :| j < |progs| && progs[j] == BA;
      BothOrdersGetStuck(progs, i, j);
    } else {
      var rank := if BA in progs then Backwards() else ByNumber();
      forall t | 0 <= t < |progs| ensures Ordered(rank, progs[t]) { OneOrder(progs[t]); }
      forall es ensures !Stuck(progs, After(progs, es)) { OrderedNeverStuck(rank, progs, es); }
    }
  }

  // ----- the threads -----

  lemma OthersUntouched(rank: Lock -> int, progs: seq<Program>, s: State, t: Thread)
    requires AllOrdered(rank, progs) && Inv(progs, s)
    ensures forall l :: l in s.owner && s.owner[l] != t ==>
      l in Step(progs, s, t).owner && Step(progs, s, t).owner[l] == s.owner[l]
  {
    hide Held;
    if t < |progs| && s.pcs[t] < |progs[t]| {
      assert InstrOk(rank, progs[t], s.pcs[t]);
    }
  }

  lemma WaitsOnlyForTaken(progs: seq<Program>, s: State, t: Thread)
    requires t < |progs| == |s.pcs| && s.pcs[t] < |progs[t]|
    ensures Step(progs, s, t) == s ==> progs[t][s.pcs[t]].Acquire? && progs[t][s.pcs[t]].l in s.owner
  {
    if !(progs[t][s.pcs[t]].Acquire? && progs[t][s.pcs[t]].l in s.owner) { Moves(progs, s, t); }
  }

  lemma OwnsItsOwn(progs: seq<Program>, s: State)
    requires Inv(progs, s)
    ensures |s.pcs| == |progs|
    ensures forall t: Thread :: t < |progs| ==>
      s.pcs[t] <= |progs[t]| && forall l :: l in Held(progs[t], s.pcs[t]) <==> l in s.owner && s.owner[l] == t
  {
  }

  /** The mutexes, the counters, and how far each thread is in its program. */
  class Machine {
    const progs: seq<Program>
    var pcs: seq<nat>
    var owner: map<Lock, Thread>
    var resA: int
    var resB: int

    ghost function View(): State
      reads this
    {
      State(pcs, owner, resA, resB)
    }

    /** If the programs rise in this rank, locks and programs fit together. */
    ghost predicate Valid(rank: Lock -> int)
      reads this
    {
      AllOrdered(rank, progs) ==> Inv(progs, View())
    }

    constructor (progs: seq<Program>)
      ensures View() == Init(|progs|) && this.progs == progs && forall rank: Lock -> int :: Valid(rank)
    {
      this.progs := progs;
      pcs, owner, resA, resB := seq(|progs|, i => 0), map[], 0, 0;
    }

    /** Thread `t` goes on, unless it has to wait for a lock that is taken. Among programs in
        rising order it touches no lock of another thread, and afterwards owns exactly what its
        program holds there. */
    method Advance(t: Thread, ghost rank: Lock -> int)
      requires Valid(rank)
      modifies this
      ensures Valid(rank) && View() == Step(progs, old(View()), t)
      ensures AllOrdered(rank, progs) ==>
        forall l :: l in old(owner) && old(owner)[l] != t ==> l in owner && owner[l] == old(owner)[l]
      ensures AllOrdered(rank, progs) && t < |progs| ==>
        && t < |pcs| && pcs[t] <= |progs[t]|
        && forall l :: l in Held(progs[t], pcs[t]) <==> l in owner && owner[l] == t
      ensures t < |progs| && |pcs| == |progs| && old(pcs)[t] < |progs[t]| && View() == old(View()) ==>
        progs[t][pcs[t]].Acquire? && progs[t][pcs[t]].l in owner
    {
      ghost var s := View();
      if AllOrdered(rank, progs) { StepKeeps(rank, progs, s, t); OthersUntouched(rank, progs, s, t); }
      if t < |progs| == |pcs| && pcs[t] < |progs[t]| { WaitsOnlyForTaken(progs, s, t); }
      hide Inv, AllOrdered, Held, Step;
      DoAdvance(t);
      if AllOrdered(rank, progs) { OwnsItsOwn(progs, View()); }
    }

    method DoAdvance(t: Thread)
      modifies this
      ensures View() == Step(progs, old(View()), t)
    {
      if t >= |progs| || |progs| != |pcs| || pcs[t] >= |progs[t]| {
        return;
      }
      match progs[t][pcs[t]] {
        case Acquire(l) =>
          if l in owner {
            return;
          }
          owner := owner[l := t];
        case Release(l) =>
          owner := owner - {l};
        case AddA(k, _) =>
          resA := resA + k;
        case AddB(k) =>
          resB := resB + k;
        case SkipUnlessLess(bound, n) =>
          if resA >= bound {
            pcs := pcs[t := pcs[t] + n];
          }
      }
      pcs := pcs[t := pcs[t] + 1];
    }

    /** Any schedule: programs in rising order are not stuck at its end. */
    method Run(es: seq<Thread>, ghost rank: Lock -> int)
      requires Valid(rank) && View() == Init(|progs|)
      modifies this
      ensures Valid(rank) && View() == After(progs, es)
      ensures AllOrdered(rank, progs) ==> !Stuck(progs, View())
    {
      hide Inv, AllOrdered, Step;
      var i := 0;
      while i < |es|
        invariant 0 <= i <= |es| && Valid(rank) && View() == After(progs, es[..i])
      {
        assert es[..i + 1] == es[..i] + [es[i]];
        AfterOneMore(progs, es[..i], es[i]);
        Advance(es[i], rank);
        i := i + 1;
      }
      assert es[..i] == es;
      if AllOrdered(rank, progs) { OrderedNeverStuck(rank, progs, es); }
    }
  }

  /** The one thread the lockdep module starts, with nobody to wait for. */
  class Lockdep {
    var lockedA: bool
    var lockedB: bool
    var resA: int
    var resB: int

    predicate Unlocked()
      reads this
    {
      !lockedA && !lockedB
    }

    constructor ()
      ensures Unlocked() && resA == 0 && resB == 0
    {
      lockedA, lockedB, resA, resB := false, false, 0, 0;
    }

    method OrderedLock()
      requires Unlocked()
      modifies this
      ensures Unlocked() && resA == old(resA) + 1 && resB == old(resB) + 1
    {
      lockedA := true;
      resA := resA + 1;
      lockedB := true;
      resB := resB + 1;
      lockedB := false;
      lockedA := false;
    }

    method ManualTrack()
      requires Unlocked()
      modifies this
      ensures Unlocked() && resA == old(resA) + 5 && resB == old(resB)
    {
      lockedA := true;
      resA := resA + 5;
      lockedA := false;
    }

    method MightUse()
      requires Unlocked()
      modifies this
      ensures Unlocked() && resA == old(resA) + (if old(resA) < 10 then 2 else 0) && resB == old(resB)
    {
      if resA < 10 {
        lockedA := true;
        resA := resA + 2;
        lockedA := false;
      }
    }

    /** kthread_fn for `n` iterations: the conditional addition happens in the first one only. */
    method KthreadFn(n: nat)
      requires Unlocked() && resA == 0 && resB == 0
      modifies this
      ensures Unlocked() && resB == n && resA == if n == 0 then 0 else 6 * n + 2
    {
      var i := 0;
      while i < n
        invariant 0 <= i <= n && Unlocked()
        invariant resB == i && resA == if i == 0 then 0 else 6 * i + 2
      {
        OrderedLock();
        ManualTrack();
        MightUse();
        i := i + 1;
      }
    }
  }
}
