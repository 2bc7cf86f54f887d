/** Threads that each add one to a shared counter n times: shared_counter++ is a load and a
    store, done with or without protect_counter held. */
module LostUpdate {
  import opened Runs

  type Thread = nat

  datatype Register = Empty | Value(v: int)

  /** `done[t]` is how many increments thread `t` has stored. */
  datatype State = State(counter: int, regs: seq<Register>, done: seq<nat>)

  datatype Event = Load(t: Thread) | Store(t: Thread)

  function Zeros(k: nat): (r: seq<nat>)
    ensures |r| == k && forall i :: 0 <= i < k ==> r[i] == 0
  {
    seq(k, i => 0)
  }

  function Empties(k: nat): (r: seq<Register>)
    ensures |r| == k && forall i :: 0 <= i < k ==> r[i] == Empty
  {
    seq(k, i => Empty)
  }

  /** `k` threads about to start. */
  function Init(k: nat): State { State(0, Empties(k), Zeros(k)) }

  function StepLoad(n: nat, s: State, t: Thread): State {
    if t < |s.regs| == |s.done| && s.regs[t] == Empty && s.done[t] < n
    then s.(regs := s.regs[t := Value(s.counter)]) else s
  }

  function StepStore(s: State, t: Thread): State {
    if t < |s.regs| == |s.done| && s.regs[t] != Empty
    then State(s.regs[t].v + 1, s.regs[t := Empty], s.done[t := s.done[t] + 1]) else s
  }

  function Step(n: nat, s: State, e: Event): State {
    match e
    case Load(t) => StepLoad(n, s, t)
    case Store(t) => StepStore(s, t)
  }

  /** The state after a schedule of `k` threads of `n` increments each. */
  function After(k: nat, n: nat, es: seq<Event>): State {
    Exec((s, e) => Step(n, s, e), Init(k), es)
  }

  /** All threads have returned. */
  predicate Finished(n: nat, s: State) { forall t :: 0 <= t < |s.done| ==> s.done[t] == n }

  function Sum(q: seq<nat>): nat { if q == [] then 0 else q[0] + Sum(q[1..]) }

  lemma {:induction false} SumUpdate(q: seq<nat>, i: nat, x: nat)
    requires i < |q|
    ensures Sum(q[i := x]) == Sum(q) - q[i] + x
  {
    if i == 0 {
      assert q[0 := x][1..] == q[1..];
    } else {
      assert q[i := x][1..] == q[1..][i - 1 := x];
      SumUpdate(q[1..], i - 1, x);
    }
  }

  lemma {:induction false} SumConstant(q: seq<nat>, x: nat)
    requires forall i :: 0 <= i < |q| ==> q[i] == x
    ensures Sum(q) == |q| * x
  {
    if q != [] {
      SumConstant(q[1..], x);
      assert |q| * x == (|q| - 1) * x + x;
    }
  }

  // ----- bounds -----

  /** Counter and registers never exceed the increments stored so far. */
  ghost predicate Upper(s: State) {
    s.counter <= Sum(s.done) && forall t :: 0 <= t < |s.regs| && s.regs[t] != Empty ==> s.regs[t].v <= Sum(s.done)
  }

  /** Some thread wrote last; if that was not its first store, the counter is at least 2. */
  ghost predicate Lower(s: State) {
    && s.counter >= 0
    && (forall t :: 0 <= t < |s.regs| == |s.done| && s.regs[t] != Empty ==>
          s.regs[t].v >= if s.done[t] >= 1 then 1 else 0)
    && ((exists t :: 0 <= t < |s.done| && s.done[t] >= 1) ==>
          s.counter >= 1 && exists t :: 0 <= t < |s.done| && s.done[t] >= 1 && (s.done[t] >= 2 ==> s.counter >= 2))
  }

  /** A thread on its own loses nothing. */
  ghost predicate Single(s: State) {
    |s.done| == |s.regs| == 1 ==> s.counter == s.done[0] && (s.regs[0] != Empty ==> s.regs[0].v == s.done[0])
  }

  ghost predicate Inv(k: nat, n: nat, s: State) {
    && |s.done| == |s.regs| == k
    && (forall t :: 0 <= t < k ==> s.done[t] <= n && (s.regs[t] != Empty ==> s.done[t] < n))
    && Upper(s) && Lower(s) && Single(s)
  }

  lemma StoreKeeps(k: nat, n: nat, s: State, t: Thread)
    requires Inv(k, n, s)
    ensures Inv(k, n, StepStore(s, t))
  {
    if t < k && s.regs[t] != Empty {
      SumUpdate(s.done, t, s.done[t] + 1);
      assert StepStore(s, t).done[t] >= 1;
    }
  }

  lemma LoadKeeps(k: nat, n: nat, s: State, t: Thread)
    requires Inv(k, n, s)
    ensures Inv(k, n, StepLoad(n, s, t))
  {
  }

  lemma Reached(k: nat, n: nat, es: seq<Event>)
    ensures Inv(k, n, After(k, n, es))
  {
    forall s, e | Inv(k, n, s) ensures Inv(k, n, Step(n, s, e)) {
      match e
      case Load(t) => LoadKeeps(k, n, s, t);
      case Store(t) => StoreKeeps(k, n, s, t);
    }
    hide Upper, Lower, Single, Step;
    assert Inv(k, n, Init(k)) by { InitOk(k, n); }
    Always((s, e) => Step(n, s, e), s => Inv(k, n, s), Init(k), es);
  }

  lemma InitOk(k: nat, n: nat)
    ensures Inv(k, n, Init(k))
  {
  }

  /** The least value the counter can end with: two threads, or two increments, are not enough
      to lose more than all but that. */
  function Least(k: nat, n: nat): nat {
    if k == 0 then 0 else if k == 1 || n <= 1 then n else 2
  }

  lemma BoundsHold(k: nat, n: nat, es: seq<Event>)
    requires Finished(n, After(k, n, es))
    ensures Least(k, n) <= After(k, n, es).counter <= k * n
  {
    Reached(k, n, es);
    var s := After(k, n, es);
    SumConstant(s.done, n);
    if k > 0 && n > 0 { assert s.done[0] >= 1; }
  }

  // ----- every value in between is reached -----

  /** Increments still to be started or finished. */
  function Left(n: nat, done: seq<nat>): int {
    if done == [] then 0 else n - done[0] + Left(n, done[1..])
  }

  lemma {:induction false} LeftIs(n: nat, done: seq<nat>)
    ensures Left(n, done) == |done| * n - Sum(done)
  {
    if done != [] {
      LeftIs(n, done[1..]);
      assert |done| * n == (|done| - 1) * n + n;
    }
  }

  /** If more is left than thread `a` has to do, another thread has work. */
  lemma {:induction false} FindOther(n: nat, done: seq<nat>, a: int) returns (t: Thread)
    requires Left(n, done) > if 0 <= a < |done| then n - done[a] else 0
    ensures t < |done| && t != a && done[t] < n
  {
    if a != 0 && done[0] < n {
      t := 0;
    } else {
      assert 0 <= a - 1 < |done[1..]| ==> done[1..][a - 1] == done[a];
      assert a != 0 ==> n - done[0] <= 0;
      t := FindOther(n, done[1..], a - 1);
      t := t + 1;
    }
  }

  predicate Ready(k: nat, n: nat, s: State, a: int) {
    && |s.done| == |s.regs| == k
    && (forall t :: 0 <= t < k ==> s.done[t] <= n)
    && (forall t :: 0 <= t < k && t != a ==> s.regs[t] == Empty)
  }

  predicate Leads(n: nat, s: State, es: seq<Event>, u: State) { Exec((s, e) => Step(n, s, e), s, es) == u }

  lemma LeadsOn(n: nat, s: State, es: seq<Event>, u: State, e: Event)
    requires Leads(n, s, es, u)
    ensures Leads(n, s, es + [e], Step(n, u, e))
  {
    ExecOneMore((s, e) => Step(n, s, e), s, es, e);
  }

  lemma LeadsThrough(n: nat, s: State, es: seq<Event>, u: State, fs: seq<Event>, w: State)
    requires Leads(n, s, es, u) && Leads(n, u, fs, w)
    ensures Leads(n, s, es + fs, w)
  {
    ExecConcat((s, e) => Step(n, s, e), s, es, fs);
  }

  /** `m` undisturbed increments by threads other than `a`. */
  lemma {:induction false} Burn(k: nat, n: nat, s: State, a: int, m: nat) returns (es: seq<Event>, u: State)
    requires Ready(k, n, s, a) && m <= Left(n, s.done) - (if 0 <= a < k then n - s.done[a] else 0)
    ensures Leads(n, s, es, u) && Ready(k, n, u, a)
    ensures u.counter == s.counter + m && Left(n, u.done) == Left(n, s.done) - m
    ensures 0 <= a < k ==> u.done[a] == s.done[a] && u.regs[a] == s.regs[a]
    decreases m
  {
    if m == 0 {
      es, u := [], s;
    } else {
      var t := FindOther(n, s.done, a);
      assert Leads(n, s, [], s);
      LeadsOn(n, s, [], s, Load(t));
      LeadsOn(n, s, [] + [Load(t)], Step(n, s, Load(t)), Store(t));
      var w := Step(n, Step(n, s, Load(t)), Store(t));
      assert w.done == s.done[t := s.done[t] + 1];
      LeftIs(n, s.done);
      LeftIs(n, w.done);
      SumUpdate(s.done, t, s.done[t] + 1);
      var fs;
      fs, u := Burn(k, n, w, a, m - 1);
      es := [] + [Load(t)] + [Store(t)] + fs;
      LeadsThrough(n, s, [] + [Load(t)] + [Store(t)], w, fs, u);
    }
  }

  /** Thread `a` loads, `m` increments of others go by, `a` stores: those `m` are lost. */
  lemma Lose(k: nat, n: nat, s: State, a: Thread, m: nat) returns (es: seq<Event>, u: State)
    requires Ready(k, n, s, -1) && a < k && s.done[a] < n && m <= Left(n, s.done) - (n - s.done[a])
    ensures Leads(n, s, es, u) && Ready(k, n, u, -1)
    ensures u.counter == s.counter + 1 && Left(n, u.done) == Left(n, s.done) - m - 1
    ensures u.done[a] == s.done[a] + 1
  {
    hide Left, Sum, After;
    assert Leads(n, s, [], s);
    hide Leads;
    LeadsOn(n, s, [], s, Load(a));
    var v := Step(n, s, Load(a));
    var fs, w := Burn(k, n, v, a, m);
    LeadsThrough(n, s, [] + [Load(a)], v, fs, w);
    LeadsOn(n, s, [] + [Load(a)] + fs, w, Store(a));
    es, u := [] + [Load(a)] + fs + [Store(a)], Step(n, w, Store(a));
    LeftIs(n, w.done);
    LeftIs(n, u.done);
    SumUpdate(w.done, a, w.done[a] + 1);
  }

  lemma {:induction false} NothingLeft(n: nat, done: seq<nat>)
    requires Left(n, done) == 0 && forall t :: 0 <= t < |done| ==> done[t] <= n
    ensures forall t :: 0 <= t < |done| ==> done[t] == n
  {
    if done != [] {
      LeftNotNegative(n, done[1..]);
      NothingLeft(n, done[1..]);
      forall t | 0 <= t < |done| ensures done[t] == n {
        if t > 0 { assert done[t] == done[1..][t - 1]; }
      }
    }
  }

  lemma {:induction false} LeftNotNegative(n: nat, done: seq<nat>)
    requires forall t :: 0 <= t < |done| ==> done[t] <= n
    ensures Left(n, done) >= 0
  {
    if done != [] { LeftNotNegative(n, done[1..]); }
  }

  /** If all threads but 0 together have one increment left, thread `b` has just that one. */
  lemma OneLeft(k: nat, n: nat, u: State, b: Thread)
    requires Ready(k, n, u, -1) && 0 < b < k && u.done[b] < n && Left(n, u.done) == n - u.done[0] + 1
    ensures n - u.done[b] == 1
  {
    LeftOthers(n, u.done[1..], b - 1);
    assert u.done[1..][b - 1] == u.done[b];
  }

  lemma {:induction false} LeftOthers(n: nat, done: seq<nat>, b: nat)
    requires b < |done| && forall t :: 0 <= t < |done| ==> done[t] <= n
    ensures n - done[b] <= Left(n, done)
  {
    LeftNotNegative(n, done[1..]);
    if b > 0 { LeftOthers(n, done[1..], b - 1); }
  }

  lemma LosingIsPossible(k: nat, n: nat, d: nat)
    requires 0 < d <= k * n - Least(k, n)
    ensures k >= 2 && n >= 1 && k * n - n >= n && (n == 1 ==> d <= k * n - n)
    ensures n >= 2 ==> d <= k * n - 2
  {
    assert (k == 1 ==> k * n == n) && (n == 0 ==> k * n == 0);
    assert k >= 2 ==> k * n >= 2 * n by { Twice(k, n); }
  }

  lemma Twice(k: nat, n: nat)
    ensures k >= 2 ==> k * n >= 2 * n
  {
    if k >= 2 { assert k * n == 2 * n + (k - 2) * n; }
  }

  /** A schedule after which `d` increments are lost: thread 0 makes others' vanish; if that is
      not enough, another thread, with one increment kept for that, makes those of thread 0
      vanish. */
  lemma Losing(k: nat, n: nat, d: nat) returns (es: seq<Event>, u: State)
    requires 0 < d <= k * n - Least(k, n)
    ensures Leads(n, Init(k), es, u) && Ready(k, n, u, -1)
    ensures u.counter + Left(n, u.done) == k * n - d
  {
    var s := Init(k);
    LeftIs(n, s.done);
    SumConstant(s.done, 0);
    LosingIsPossible(k, n, d);
    var others := k * n - n;
    var x := if d < others || n == 1 then d else others - 1;
    hide Step, Leads, Least, Left;
    es, u := Lose(k, n, s, 0, x);
    if x < d {
      var b := FindOther(n, u.done, 0);
      OneLeft(k, n, u, b);
      var fs, w := Lose(k, n, u, b, d - x);
      LeadsThrough(n, s, es, u, fs, w);
      es, u := es + fs, w;
    }
  }

  /** A schedule that ends with `v`. */
  lemma Schedule(k: nat, n: nat, v: int) returns (es: seq<Event>)
    requires Least(k, n) <= v <= k * n
    ensures Finished(n, After(k, n, es)) && After(k, n, es).counter == v
  {
    var s := Init(k);
    var u := s;
    es := [];
    LeftIs(n, s.done);
    SumConstant(s.done, 0);
    assert Leads(n, s, es, u);
    if v < k * n {
      es, u := Losing(k, n, k * n - v);
    }
    LeftNotNegative(n, u.done);
    var fs, w := Burn(k, n, u, -1, Left(n, u.done));
    LeadsThrough(n, s, es, u, fs, w);
    es := es + fs;
    NothingLeft(n, w.done);
    assert After(k, n, es) == w;
  }

  /** Without the lock, `k` threads of `n` increments can end with exactly the values from
      `Least(k, n)` to `k * n`: two threads and two increments are enough for a result of 2. */
  lemma FinalValuesExactly(k: nat, n: nat, v: int)
    ensures (exists es :: Finished(n, After(k, n, es)) && After(k, n, es).counter == v) <==> Least(k, n) <= v <= k * n
  {
    if Least(k, n) <= v <= k * n {
      var es := Schedule(k, n, v);
      assert Finished(n, After(k, n, es)) && After(k, n, es).counter == v;
    }
    if es :| Finished(n, After(k, n, es)) && After(k, n, es).counter == v {
      BoundsHold(k, n, es);
    }
  }

  // ----- with protect_counter -----

  /** Where a thread of the locked version is; only between `Inside` and `Stored` does it hold
      the mutex. */
  datatype Phase = Outside | Inside | Loaded(v: int) | Stored

  datatype Locked = Locked(counter: int, phases: seq<Phase>, done: seq<nat>, owner: int)

  function InitLocked(k: nat): Locked { Locked(0, seq(k, i => Outside), Zeros(k), -1) }

  /** The next step of thread `t`; mutex_lock waits while the mutex is held. */
  function StepLocked(n: nat, s: Locked, t: Thread): Locked {
    if !(t < |s.phases| == |s.done|) then s
    else match s.phases[t]
      case Outside =>
        if s.done[t] < n && s.owner == -1 then s.(phases := s.phases[t := Inside], owner := t) else s
      case Inside => s.(phases := s.phases[t := Loaded(s.counter)])
      case Loaded(v) => s.(counter := v + 1, phases := s.phases[t := Stored], done := s.done[t := s.done[t] + 1])
      case Stored => s.(phases := s.phases[t := Outside], owner := -1)
  }

  function AfterLocked(k: nat, n: nat, es: seq<Thread>): Locked {
    Exec((s, t) => StepLocked(n, s, t), InitLocked(k), es)
  }

  predicate FinishedLocked(n: nat, s: Locked) {
    |s.done| == |s.phases| && forall t :: 0 <= t < |s.done| ==> s.done[t] == n && s.phases[t] == Outside
  }

  /** No increment is lost at any time, and only the owner is inside. */
  ghost predicate LockedInv(k: nat, n: nat, s: Locked) {
    && |s.phases| == |s.done| == k
    && s.counter == Sum(s.done)
    && -1 <= s.owner < k
    && (forall t :: 0 <= t < k ==> (s.phases[t] != Outside <==> s.owner == t))
    && (forall t :: 0 <= t < k ==> s.done[t] <= n && (s.phases[t].Inside? || s.phases[t].Loaded? ==> s.done[t] < n))
    && (forall t :: 0 <= t < k && s.phases[t].Loaded? ==> s.phases[t].v == s.counter)
  }

  lemma LockedKeeps(k: nat, n: nat, s: Locked, t: Thread)
    requires LockedInv(k, n, s)
    ensures LockedInv(k, n, StepLocked(n, s, t))
  {
    if t < k && s.phases[t].Loaded? { SumUpdate(s.done, t, s.done[t] + 1); }
  }

  lemma LockedReached(k: nat, n: nat, es: seq<Thread>)
    ensures LockedInv(k, n, AfterLocked(k, n, es))
  {
    forall s, t | LockedInv(k, n, s) ensures LockedInv(k, n, StepLocked(n, s, t)) { LockedKeeps(k, n, s, t); }
    assert LockedInv(k, n, InitLocked(k)) by { SumConstant(Zeros(k), 0); }
    hide StepLocked;
    Always((s, t) => StepLocked(n, s, t), s => LockedInv(k, n, s), InitLocked(k), es);
  }

  /** With the lock, at every moment of every schedule the counter is the number of increments
      done, so it ends at `k * n`; and until then some thread can step. */
  lemma LockedExact(k: nat, n: nat, es: seq<Thread>)
    ensures AfterLocked(k, n, es).counter == Sum(AfterLocked(k, n, es).done)
    ensures FinishedLocked(n, AfterLocked(k, n, es)) ==> AfterLocked(k, n, es).counter == k * n
    ensures !FinishedLocked(n, AfterLocked(k, n, es)) ==>
      exists t: Thread :: StepLocked(n, AfterLocked(k, n, es), t) != AfterLocked(k, n, es)
  {
    LockedReached(k, n, es);
    var s := AfterLocked(k, n, es);
    if FinishedLocked(n, s) {
      SumConstant(s.done, n);
    } else if s.owner != -1 {
      StepMoves(k, n, s, s.owner);
    } else {
      var t :| 0 <= t < k && !(s.done[t] == n && s.phases[t] == Outside);
      StepMoves(k, n, s, t);
    }
  }

  lemma StepMoves(k: nat, n: nat, s: Locked, t: Thread)
    requires LockedInv(k, n, s) && t < k && (s.owner == t || (s.owner == -1 && s.done[t] < n))
    ensures StepLocked(n, s, t) != s
  {
    assert s.phases[t] != StepLocked(n, s, t).phases[t];
  }

  // ----- the threads of the module -----

  /** Increments stored so far that the counter does not show. */
  function Lost(s: State): int { Sum(s.done) - s.counter }

  /** A store changes the number of lost increments by the counter now less the value loaded. */
  lemma StoreLoses(s: State, t: Thread)
    requires t < |s.regs| == |s.done| && s.regs[t] != Empty
    ensures Lost(StepStore(s, t)) == Lost(s) + (s.counter - s.regs[t].v)
  {
    SumUpdate(s.done, t, s.done[t] + 1);
  }

  /** shared_counter and the threads working on it. */
  class Race {
    const n: nat
    var sharedCounter: int
    var regs: seq<Register>
    var done: seq<nat>

    ghost function View(): State
      reads this
    {
      State(sharedCounter, regs, done)
    }

    /** The bounds on counter and registers hold. */
    ghost predicate Valid()
      reads this
    {
      Inv(|done|, n, View())
    }

    /** Reset the counter and start `k` threads. */
    constructor (k: nat, n: nat)
      ensures Valid() && View() == Init(k) && this.n == n
    {
      this.n := n;
      sharedCounter, regs, done := 0, Empties(k), Zeros(k);
      new;
      InitOk(k, n);
    }

    /** The load of shared_counter++ in race_thread_fn: it changes nothing others see, and what it
        holds is the counter as it is. */
    method LoadCounter(t: Thread)
      requires Valid()
      modifies this`regs
      ensures Valid() && View() == StepLoad(n, old(View()), t)
      ensures t < |done| && old(regs)[t] == Empty && done[t] < n ==> regs[t] == Value(sharedCounter)
      ensures forall u: Thread :: u < |done| && u != t ==> regs[u] == old(regs)[u]
    {
      LoadKeeps(|done|, n, View(), t);
      hide Upper, Lower, Single;
      if t < |regs| && |regs| == |done| && regs[t] == Empty && done[t] < n {
        regs := regs[t := Value(sharedCounter)];
      }
    }

    /** The store of shared_counter++: it completes one increment of its thread, and the number of
        lost increments changes by the counter now less the value loaded. */
    method StoreCounter(t: Thread)
      requires Valid()
      modifies this`sharedCounter, this`regs, this`done
      ensures Valid() && View() == StepStore(old(View()), t)
      ensures t < |old(done)| && old(regs)[t] != Empty ==>
        && done == old(done)[t := old(done)[t] + 1]
        && Lost(View()) == old(Lost(View())) + (old(sharedCounter) - old(regs)[t].v)
    {
      StoreKeeps(|done|, n, View(), t);
      if t < |done| && regs[t] != Empty { StoreLoses(View(), t); }
      hide Upper, Lower, Single;
      if t < |regs| && |regs| == |done| && regs[t] != Empty {
        sharedCounter := regs[t].v + 1;
        regs := regs[t := Empty];
        done := done[t := done[t] + 1];
      }
    }

    /** The threads run as the scheduler has it. */
    method Run(es: seq<Event>)
      requires Valid() && View() == Init(|done|)
      modifies this
      ensures Valid() && View() == After(|old(done)|, n, es)
      ensures Finished(n, View()) ==> Least(|done|, n) <= sharedCounter <= |done| * n
    {
      hide Upper, Lower, Single, Step;
      ghost var k := |done|;
      var i := 0;
      while i < |es|
        invariant 0 <= i <= |es| && Valid() && View() == After(k, n, es[..i])
      {
        assert es[..i + 1] == es[..i] + [es[i]];
        ExecOneMore((s, e) => Step(n, s, e), Init(k), es[..i], es[i]);
        StepIs(n, View(), es[i]);
        match es[i] {
          case Load(t) => LoadCounter(t);
          case Store(t) => StoreCounter(t);
        }
        i := i + 1;
      }
      assert es[..i] == es;
      Reached(k, n, es);
      if Finished(n, View()) { BoundsHold(k, n, es); }
    }
  }

  lemma StepIs(n: nat, s: State, e: Event)
    ensures Step(n, s, e) == match e case Load(t) => StepLoad(n, s, t) case Store(t) => StepStore(s, t)
  {
  }

  /** The same with protect_counter taken around every increment. */
  class LockedRace {
    const n: nat
    var sharedCounter: int
    var phases: seq<Phase>
    var done: seq<nat>
    var owner: int

    ghost function View(): Locked
      reads this
    {
      Locked(sharedCounter, phases, done, owner)
    }

    /** No increment is lost, and only the owner of the mutex is inside. */
    ghost predicate Valid()
      reads this
    {
      LockedInv(|done|, n, View())
    }

    constructor (k: nat, n: nat)
      ensures Valid() && View() == InitLocked(k) && this.n == n
    {
      this.n := n;
      sharedCounter, phases, done, owner := 0, seq(k, i => Outside), Zeros(k), -1;
      new;
      LockedReached(k, n, []);
    }

    /** The next step of race_thread_locked_fn in thread `t`: the counter grows by exactly the
        increments done, and the owner of the mutex never has to wait. */
    method Advance(t: Thread)
      requires Valid()
      modifies this
      ensures Valid() && View() == StepLocked(n, old(View()), t)
      ensures sharedCounter - old(sharedCounter) == Sum(done) - Sum(old(done))
      ensures old(owner) == t ==> View() != old(View())
      ensures t < |done| && phases[t] != Outside ==> forall u: Thread :: u < |done| && u != t ==> phases[u] == Outside
    {
      LockedKeeps(|done|, n, View(), t);
      if owner == t { StepMoves(|done|, n, View(), t); }
      if t >= |phases| || |phases| != |done| {
        return;
      }
      match phases[t] {
        case Outside =>
          if done[t] < n && owner == -1 {
            phases, owner := phases[t := Inside], t;
          }
        case Inside =>
          phases := phases[t := Loaded(sharedCounter)];
        case Loaded(v) =>
          sharedCounter := v + 1;
          phases, done := phases[t := Stored], done[t := done[t] + 1];
        case Stored =>
          phases, owner := phases[t := Outside], -1;
      }
    }

    method Run(es: seq<Thread>)
      requires Valid() && View() == InitLocked(|done|)
      modifies this
      ensures Valid() && View() == AfterLocked(|old(done)|, n, es)
      ensures sharedCounter == Sum(done)
      ensures FinishedLocked(n, View()) ==> sharedCounter == |old(done)| * n
    {
      hide StepLocked;
      ghost var k := |done|;
      var i := 0;
      while i < |es|
        invariant 0 <= i <= |es| && Valid() && View() == AfterLocked(k, n, es[..i])
      {
        assert es[..i + 1] == es[..i] + [es[i]];
        ExecOneMore((s, t) => StepLocked(n, s, t), InitLocked(k), es[..i], es[i]);
        Advance(es[i]);
        i := i + 1;
      }
      assert es[..i] == es;
      LockedExact(k, n, es);
    }
  }
}
