/** The life of one reference-counted object: threads take, use and drop references, the exit path
    drops the base reference and clears the shared pointer. refcount_example guards the pointer
    with a spinlock and takes references with inc_not_zero; kref_example does neither and relies
    on the threads having been stopped. */
module Refcount {
  import opened Runs

  type Thread = nat

  datatype Variant = Guarded | Bare

  /** `joins`: the exit path stops all threads first. */
  datatype Code = Code(variant: Variant, joins: bool)

  /** A user thread. `Entered`: past the lock, or past the test of the pointer. `Taken`: the
      reference is counted. `Missed`: the lock is held, nothing was taken. `Holding` to `Used`:
      working on the object. `Freeing`: its decrement reached zero. */
  datatype Phase = Idle | Entered | Taken | Missed | Holding | Checked | Loaded(v: int) | Used | Freeing | Stopped

  datatype ExitPhase = Running | Locked | Inactive | Dropping | Dropped | Cleared | Done

  datatype Owner = Free | User(t: Thread) | Exiting

  /** The object: `alive` until kfree, `freed` counts the kfrees; `shared`: the pointer is set. */
  datatype State = State(shared: bool, count: nat, alive: bool, freed: nat, active: bool, value: int,
                         users: seq<Phase>, exit: ExitPhase, lock: Owner, fault: bool)

  datatype Event = Advance(t: Thread) | Stop(t: Thread) | Exit

  /** One object with its base reference, and `k` threads. */
  function Init(k: nat, value: int): State {
    State(true, 1, true, 0, true, value, seq(k, i => Idle), Running, Free, false)
  }

  function Move(s: State, t: Thread, p: Phase): State
    requires t < |s.users|
  {
    s.(users := s.users[t := p])
  }

  function Crash(s: State): State { s.(fault := true) }

  function Kfree(s: State): State {
    if !s.alive then Crash(s) else s.(alive := false, freed := s.freed + 1)
  }

  /** get_resource under its lock; or kref_get after the test of the pointer. */
  function StepGet(c: Code, s: State, t: Thread): State
    requires t < |s.users| && s.users[t].Entered?
  {
    if c.variant == Guarded then
      if !s.shared then Move(s, t, Missed)
      else if !s.alive then Crash(s)
      else if s.count == 0 then Move(s, t, Missed)
      else Move(s, t, Taken).(count := s.count + 1)
    else if !s.shared || !s.alive then Crash(s)
    else Move(s, t, Taken).(count := s.count + 1)
  }

  /** put_resource, kref_put: the decrement, and whether it is up to this thread to free. */
  function StepPut(s: State, t: Thread): State
    requires t < |s.users|
  {
    if !s.alive || s.count == 0 then Crash(s)
    else Move(s, t, if s.count == 1 then Freeing else Idle).(count := s.count - 1)
  }

  /** The next step of thread `t`: every access to the object is a step of its own. */
  function StepUser(c: Code, s: State, t: Thread): (u: State)
    ensures |u.users| == |s.users|
  {
    if t >= |s.users| then s
    else match s.users[t]
      case Idle =>
        if c.variant == Guarded then if s.lock == Free then Move(s, t, Entered).(lock := User(t)) else s
        else if s.shared then Move(s, t, Entered) else s
      case Entered => StepGet(c, s, t)
      case Missed => Move(s, t, Idle).(lock := Free)
      case Taken =>
        if c.variant == Guarded then Move(s, t, Holding).(lock := Free)
        else if s.shared then Move(s, t, Holding) else Crash(s)
      case Holding => if !s.alive then Crash(s) else Move(s, t, if s.active then Checked else Used)
      case Checked => if !s.alive then Crash(s) else Move(s, t, Loaded(s.value))
      case Loaded(v) => if !s.alive then Crash(s) else Move(s, t, Used).(value := v + t + 1)
      case Used => StepPut(s, t)
      case Freeing => Move(Kfree(s), t, Idle)
      case Stopped => s
  }

  function StepStop(s: State, t: Thread): State {
    if t < |s.users| && s.users[t].Idle? then Move(s, t, Stopped) else s
  }

  predicate AllStopped(s: State) { forall t :: 0 <= t < |s.users| ==> s.users[t].Stopped? }

  /** The next step of the exit path. */
  function StepExit(c: Code, s: State): State {
    match s.exit
    case Running =>
      if c.joins && !AllStopped(s) then s
      else if c.variant == Bare then s.(exit := Locked)
      else if s.lock == Free then s.(exit := Locked, lock := Exiting) else s
    case Locked =>
      if !s.shared then s.(exit := Cleared)
      else if c.variant == Bare then s.(exit := Inactive)
      else if !s.alive then Crash(s) else s.(active := false, exit := Inactive)
    case Inactive =>
      if !s.alive || s.count == 0 then Crash(s)
      else s.(count := s.count - 1, exit := if s.count == 1 then Dropping else Dropped)
    case Dropping => Kfree(s).(exit := Dropped)
    case Dropped => s.(shared := false, exit := Cleared)
    case Cleared => s.(exit := Done, lock := if c.variant == Guarded then Free else s.lock)
    case Done => s
  }

  function Step(c: Code, s: State, e: Event): State {
    match e
    case Advance(t) => StepUser(c, s, t)
    case Stop(t) => StepStop(s, t)
    case Exit => StepExit(c, s)
  }

  function After(c: Code, k: nat, value: int, es: seq<Event>): State {
    Exec((s, e) => Step(c, s, e), Init(k, value), es)
  }

  // ----- invariant -----

  predicate Holds(p: Phase) { p.Taken? || p.Holding? || p.Checked? || p.Loaded? || p.Used? }

  function Holders(users: seq<Phase>): set<Thread> { set t | 0 <= t < |users| && Holds(users[t]) }

  /** The base reference, until the exit path has dropped it. */
  function Base(x: ExitPhase): nat { if x.Running? || x.Locked? || x.Inactive? then 1 else 0 }

  predicate Frees(s: State, t: Thread) { t < |s.users| && s.users[t].Freeing? }

  ghost predicate CountOk(s: State) {
    && s.count == |Holders(s.users)| + Base(s.exit)
    && (s.shared <==> !(s.exit.Cleared? || s.exit.Done?))
  }

  /** Alive while counted, or while the one that brought the count to zero has not freed yet. */
  ghost predicate LifeOk(s: State) {
    && (s.alive <==> s.count > 0 || s.exit.Dropping? || exists t :: Frees(s, t))
    && ((s.exit.Dropping? || exists t :: Frees(s, t)) ==> s.count == 0)
    && (forall t, u :: Frees(s, t) && Frees(s, u) ==> t == u)
    && (forall t :: Frees(s, t) ==> !s.exit.Dropping?)
    && s.freed == if s.alive then 0 else 1
  }

  predicate InLock(p: Phase) { p.Entered? || p.Taken? || p.Missed? }
  predicate ExitInLock(x: ExitPhase) { !x.Running? && !x.Done? }

  ghost predicate LockOk(c: Code, s: State) {
    && (c.variant == Guarded ==>
          && (forall t :: 0 <= t < |s.users| ==> (InLock(s.users[t]) <==> s.lock == User(t)))
          && (ExitInLock(s.exit) <==> s.lock == Exiting))
    && (c.variant == Bare ==>
          && (forall t :: 0 <= t < |s.users| ==> !s.users[t].Missed?)
          && (!s.exit.Running? ==> AllStopped(s)))
  }

  ghost predicate Inv(c: Code, k: nat, s: State) {
    !s.fault && |s.users| == k && CountOk(s) && LifeOk(s) && LockOk(c, s)
  }

  predicate Sound(c: Code) { c.variant == Guarded || c.joins }

  lemma HoldersMove(users: seq<Phase>, t: Thread, p: Phase)
    requires t < |users|
    ensures |Holders(users[t := p])| ==
            |Holders(users)| + (if Holds(p) then 1 else 0) - (if Holds(users[t]) then 1 else 0)
  {
    var h, g := Holders(users), Holders(users[t := p]);
    assert t in h <==> Holds(users[t]);
    if Holds(p) {
      assert g == h + {t};
      assert |h + {t}| == |h| + if t in h then 0 else 1;
    } else {
      assert g == h - {t};
      assert |h - {t}| == |h| - if t in h then 1 else 0;
    }
  }

  lemma HolderCounts(users: seq<Phase>, t: Thread)
    requires t < |users| && Holds(users[t])
    ensures |Holders(users)| >= 1
  {
    assert t in Holders(users);
  }

  /** A thread's step moves only that thread, and never hits a freed object. */
  lemma UserMoves(c: Code, k: nat, s: State, t: Thread)
    requires Sound(c) && Inv(c, k, s) && t < k
    ensures var u := StepUser(c, s, t);
      !u.fault && u.users == s.users[t := u.users[t]] && u.exit == s.exit && u.shared == s.shared
  {
    if Holds(s.users[t]) { HolderCounts(s.users, t); }
    if s.users[t].Freeing? { assert Frees(s, t); }
    hide Holders;
  }

  lemma UserKeepsCount(c: Code, k: nat, s: State, t: Thread)
    requires Sound(c) && Inv(c, k, s) && t < k
    ensures CountOk(StepUser(c, s, t))
  {
    UserMoves(c, k, s, t);
    var u := StepUser(c, s, t);
    HoldersMove(s.users, t, u.users[t]);
    hide Holders, LifeOk, LockOk;
  }

  lemma UserKeepsLife(c: Code, k: nat, s: State, t: Thread)
    requires Sound(c) && Inv(c, k, s) && t < k
    ensures LifeOk(StepUser(c, s, t))
  {
    UserMoves(c, k, s, t);
    var u := StepUser(c, s, t);
    if Holds(s.users[t]) { HolderCounts(s.users, t); }
    hide Holders, LockOk;
    assert forall w :: w != t ==> (Frees(u, w) <==> Frees(s, w));
    if s.users[t].Freeing? {
      assert Frees(s, t) && !Frees(u, t);
    } else if u.users[t].Freeing? {
      assert Frees(u, t);
      assert forall w :: !Frees(s, w);
    }
  }

  /** The lock moves with the thread's phase. */
  lemma UserLocks(s: State, t: Thread)
    requires t < |s.users| && (InLock(s.users[t]) <==> s.lock == User(t))
    ensures var u := StepUser(Code(Guarded, false), s, t);
      u.lock == if InLock(u.users[t]) then User(t) else if InLock(s.users[t]) then Free else s.lock
    ensures InLock(StepUser(Code(Guarded, false), s, t).users[t]) ==> s.lock == Free || s.lock == User(t)
  {
    match s.users[t]
    case Idle => assert s.lock == Free ==> StepUser(Code(Guarded, false), s, t).users[t] == Entered;
    case Entered =>
    case Missed => assert StepUser(Code(Guarded, false), s, t).users[t] == Idle;
    case Taken => assert StepUser(Code(Guarded, false), s, t).users[t] == Holding;
    case _ =>
  }

  lemma UserKeepsLock(c: Code, k: nat, s: State, t: Thread)
    requires Sound(c) && Inv(c, k, s) && t < k
    ensures LockOk(c, StepUser(c, s, t))
  {
    UserMoves(c, k, s, t);
    if c.variant == Guarded {
      assert StepUser(c, s, t) == StepUser(Code(Guarded, false), s, t);
      hide Holders, LifeOk, CountOk, StepUser;
      UserLocks(s, t);
    } else {
      hide Holders, LifeOk, CountOk;
    }
  }

  lemma UserKeeps(c: Code, k: nat, s: State, t: Thread)
    requires Sound(c) && Inv(c, k, s) && t < k
    ensures Inv(c, k, StepUser(c, s, t))
  {
    UserMoves(c, k, s, t);
    UserKeepsCount(c, k, s, t);
    UserKeepsLife(c, k, s, t);
    UserKeepsLock(c, k, s, t);
  }

  lemma StopKeeps(c: Code, k: nat, s: State, t: Thread)
    requires Inv(c, k, s) && t < k
    ensures Inv(c, k, StepStop(s, t))
  {
    if s.users[t].Idle? {
      HoldersMove(s.users, t, Stopped);
      assert forall u :: Frees(StepStop(s, t), u) <==> Frees(s, u);
    }
  }

  lemma ExitKeeps(c: Code, k: nat, s: State)
    requires Sound(c) && Inv(c, k, s)
    ensures Inv(c, k, StepExit(c, s))
  {
    assert forall u :: Frees(StepExit(c, s), u) <==> Frees(s, u);
  }

  lemma InitOk(c: Code, k: nat, value: int)
    ensures Inv(c, k, Init(k, value))
  {
    assert Holders(Init(k, value).users) == {};
  }

  lemma Reached(c: Code, k: nat, value: int, es: seq<Event>)
    requires Sound(c)
    ensures Inv(c, k, After(c, k, value, es))
  {
    forall s, e | Inv(c, k, s) ensures Inv(c, k, Step(c, s, e)) {
      match e
      case Advance(t) => if t < k { UserKeeps(c, k, s, t); }
      case Stop(t) => if t < k { StopKeeps(c, k, s, t); }
      case Exit => ExitKeeps(c, k, s);
    }
    InitOk(c, k, value);
    hide CountOk, LifeOk, LockOk, Step;
    Always((s, e) => Step(c, s, e), s => Inv(c, k, s), Init(k, value), es);
  }

  // ----- what holds in every run -----

  /** Before the exit section the count is one more than the threads holding a reference. */
  lemma CountIsHolders(c: Code, k: nat, value: int, es: seq<Event>)
    requires Sound(c)
    ensures var s := After(c, k, value, es);
      s.exit == Running ==> s.shared && s.count == |Holders(s.users)| + 1
  {
    Reached(c, k, value, es);
  }

  /** No access to a freed object; freed at most once, at count zero, and never while held. */
  lemma FreedOnce(c: Code, k: nat, value: int, es: seq<Event>)
    requires Sound(c)
    ensures var s := After(c, k, value, es);
      && !s.fault && s.freed <= 1
      && (s.freed == 1 ==> s.count == 0 && !s.alive && Holders(s.users) == {})
  {
    Reached(c, k, value, es);
    var s := After(c, k, value, es);
    if s.freed == 1 { assert |Holders(s.users)| == 0; }
  }

  /** When the threads have stopped and the exit path is through, it has been freed. */
  lemma NoLeak(c: Code, k: nat, value: int, es: seq<Event>)
    requires Sound(c) && AllStopped(After(c, k, value, es)) && After(c, k, value, es).exit == Done
    ensures After(c, k, value, es).freed == 1 && !After(c, k, value, es).shared
  {
    Reached(c, k, value, es);
    var s := After(c, k, value, es);
    assert Holders(s.users) == {};
    forall t ensures !Frees(s, t) {}
  }

  lemma AfterOneMore(c: Code, k: nat, value: int, es: seq<Event>, e: Event)
    ensures After(c, k, value, es + [e]) == Step(c, After(c, k, value, es), e)
  {
    ExecOneMore((s, e) => Step(c, s, e), Init(k, value), es, e);
  }

  /** The kref variant without stopping its threads first: a thread that has tested the pointer
      takes its reference after the exit path has freed the object. */
  lemma FaultWithoutJoin(k: nat, value: int)
    requires k > 0
    ensures exists es :: After(Code(Bare, false), k, value, es).fault
  {
    var c := Code(Bare, false);
    var e1 := [Advance(0)];
    AfterOneMore(c, k, value, [], Advance(0));
    assert [] + [Advance(0)] == e1;
    AfterOneMore(c, k, value, e1, Exit);
    AfterOneMore(c, k, value, e1 + [Exit], Exit);
    AfterOneMore(c, k, value, e1 + [Exit] + [Exit], Exit);
    var e4 := e1 + [Exit] + [Exit] + [Exit];
    assert After(c, k, value, e4).exit == Dropping && After(c, k, value, e4).users[0] == Entered;
    AfterOneMore(c, k, value, e4, Exit);
    AfterOneMore(c, k, value, e4 + [Exit], Advance(0));
    assert After(c, k, value, e4 + [Exit] + [Advance(0)]).fault;
  }

  /** Every run is safe iff the pointer is guarded or the threads are stopped first. */
  lemma SafeExactly(c: Code, k: nat, value: int)
    requires k > 0
    ensures (forall es :: !After(c, k, value, es).fault) <==> c.variant == Guarded || c.joins
  {
    if Sound(c) {
      forall es ensures !After(c, k, value, es).fault { FreedOnce(c, k, value, es); }
    } else {
      FaultWithoutJoin(k, value);
    }
  }

  // ----- undisturbed uses and exits -----

  /** The state after `m` steps of one kind. */
  function Times(c: Code, s: State, e: Event, m: nat): State {
    if m == 0 then s else Step(c, Times(c, s, e, m - 1), e)
  }

  function Repeat(e: Event, m: nat): seq<Event> { if m == 0 then [] else Repeat(e, m - 1) + [e] }

  lemma {:induction false} RepeatLeads(c: Code, s: State, e: Event, m: nat)
    ensures Exec((s, e) => Step(c, s, e), s, Repeat(e, m)) == Times(c, s, e, m)
  {
    hide Step;
    if m > 0 {
      RepeatLeads(c, s, e, m - 1);
      ExecOneMore((s, e) => Step(c, s, e), s, Repeat(e, m - 1), e);
    }
  }

  lemma AfterRepeat(c: Code, k: nat, value: int, es: seq<Event>, e: Event, m: nat)
    ensures After(c, k, value, es + Repeat(e, m)) == Times(c, After(c, k, value, es), e, m)
  {
    ExecConcat((s, e) => Step(c, s, e), Init(k, value), es, Repeat(e, m));
    RepeatLeads(c, After(c, k, value, es), e, m);
  }

  /** Whatever the others are at: a thread that finds the object active and is not disturbed adds its
      number, t + 1, exactly once, and leaves count, pointer, lock and everyone else as they were. */
  lemma UseAddsNumber(c: Code, k: nat, value: int, es: seq<Event>, t: Thread)
    requires Sound(c) && t < k
    requires var s := After(c, k, value, es);
      |s.users| == k && s.users[t] == Idle && s.exit == Running && s.active && (c.variant == Guarded ==> s.lock == Free)
    ensures var s := After(c, k, value, es);
      After(c, k, value, es + Repeat(Advance(t), 7)) == s.(value := s.value + t + 1)
  {
    var s := After(c, k, value, es);
    Reached(c, k, value, es);
    AfterRepeat(c, k, value, es, Advance(t), 7);
    hide Step, After;
    UseSteps(c, k, s, t);
  }

  lemma UseSteps(c: Code, k: nat, s: State, t: Thread)
    requires Sound(c) && Inv(c, k, s) && t < k && s.users[t] == Idle && s.exit == Running && s.active
    requires c.variant == Guarded ==> s.lock == Free
    ensures Times(c, s, Advance(t), 7) == s.(value := s.value + t + 1)
  {
    hide Holders;
    var e := Advance(t);
    var held := Move(s, t, Holding).(count := s.count + 1);
    assert s.shared && s.alive && s.count > 0;
    hide Inv;
    var s1 := Step(c, s, e);
    var s2 := Step(c, s1, e);
    var s3 := Step(c, s2, e);
    assert s3 == held;
    var s4 := Step(c, s3, e);
    var s5 := Step(c, s4, e);
    var s6 := Step(c, s5, e);
    var s7 := Step(c, s6, e);
    assert s6 == Move(s, t, Used).(count := s.count + 1, value := s.value + t + 1);
    assert s7.users == s.users;
    Seven(c, s, e, s1, s2, s3, s4, s5, s6, s7);
  }

  lemma Seven(c: Code, s: State, e: Event, s1: State, s2: State, s3: State, s4: State, s5: State, s6: State, s7: State)
    requires s1 == Step(c, s, e) && s2 == Step(c, s1, e) && s3 == Step(c, s2, e) && s4 == Step(c, s3, e)
    requires s5 == Step(c, s4, e) && s6 == Step(c, s5, e) && s7 == Step(c, s6, e)
    ensures Times(c, s, e, 3) == s3 && Times(c, s, e, 6) == s6 && Times(c, s, e, 7) == s7
  {
    hide Step;
    assert Times(c, s, e, 0) == s;
    assert Times(c, s, e, 1) == s1;
    assert Times(c, s, e, 2) == s2;
    assert Times(c, s, e, 3) == s3;
    assert Times(c, s, e, 4) == s4;
    assert Times(c, s, e, 5) == s5;
  }

  /** A thread that holds a reference and finds the object inactive gives the reference back and leaves
      the object's value alone. */
  lemma InactiveIsLeftAlone(c: Code, k: nat, value: int, es: seq<Event>, t: Thread)
    requires Sound(c) && t < k
    requires var s := After(c, k, value, es); |s.users| == k && s.users[t] == Holding && !s.active
    ensures
      var s, u := After(c, k, value, es), After(c, k, value, es + Repeat(Advance(t), 2));
      u.value == s.value && u.count == s.count - 1 && Holders(u.users) == Holders(s.users) - {t}
  {
    var s := After(c, k, value, es);
    Reached(c, k, value, es);
    AfterRepeat(c, k, value, es, Advance(t), 2);
    UserKeeps(c, k, s, t);
    UserMoves(c, k, s, t);
    HolderCounts(s.users, t);
    var s1 := Step(c, s, Advance(t));
    assert s1 == Move(s, t, Used);
    assert Holders(s1.users) == Holders(s.users);
    PutMeans(c, k, s1, t);
    hide After, Inv, Holders, StepGet;
    assert Times(c, s, Advance(t), 0) == s;
    assert Times(c, s, Advance(t), 1) == s1;
    assert Times(c, s, Advance(t), 2) == StepPut(s1, t);
  }

  /** After the exit path a thread of the guarded variant finds no pointer: it goes away with nothing
      and leaves everything as it was. */
  lemma NothingAfterExit(k: nat, value: int, joins: bool, es: seq<Event>, t: Thread)
    requires t < k
    requires var s := After(Code(Guarded, joins), k, value, es);
      |s.users| == k && s.users[t] == Idle && s.exit == Done && s.lock == Free
    ensures After(Code(Guarded, joins), k, value, es + Repeat(Advance(t), 3)) ==
            After(Code(Guarded, joins), k, value, es)
  {
    var c := Code(Guarded, joins);
    var s := After(c, k, value, es);
    Reached(c, k, value, es);
    AfterRepeat(c, k, value, es, Advance(t), 3);
    hide Holders, After;
    var e := Advance(t);
    assert !s.shared;
    hide Inv;
    var s1 := Step(c, s, e);
    var s2 := Step(c, s1, e);
    var s3 := Step(c, s2, e);
    assert s3.users == s.users;
    assert Times(c, s, e, 1) == s1;
    assert Times(c, s, e, 2) == s2;
  }

  /** An exit path that is let through ends in at most six steps, with the pointer cleared and the
      count that of the threads still holding a reference; it has freed the object iff there are
      none. */
  lemma ExitEnds(c: Code, k: nat, value: int, es: seq<Event>)
    requires Sound(c)
    requires var s := After(c, k, value, es);
      s.exit == Running && (c.joins ==> AllStopped(s)) && (c.variant == Guarded ==> s.lock == Free)
    ensures
      var s, t := After(c, k, value, es), After(c, k, value, es + Repeat(Exit, 6));
      && t.exit == Done && !t.shared && t.users == s.users && t.value == s.value
      && t.active == (s.active && c.variant == Bare) && t.count == |Holders(s.users)|
      && (t.freed == 1 <==> Holders(s.users) == {}) && (t.alive <==> Holders(s.users) != {})
  {
    var s := After(c, k, value, es);
    Reached(c, k, value, es);
    AfterRepeat(c, k, value, es, Exit, 6);
    hide Step, After;
    ExitSteps(c, k, s);
  }

  lemma ExitSteps(c: Code, k: nat, s: State)
    requires Sound(c) && Inv(c, k, s) && s.exit == Running
    requires (c.joins ==> AllStopped(s)) && (c.variant == Guarded ==> s.lock == Free)
    ensures var t := Times(c, s, Exit, 6);
      && t.exit == Done && !t.shared && t.users == s.users && t.value == s.value
      && t.active == (s.active && c.variant == Bare) && t.count == |Holders(s.users)|
      && (t.freed == 1 <==> Holders(s.users) == {}) && (t.alive <==> Holders(s.users) != {})
  {
    assert |Holders(s.users)| == 0 <==> Holders(s.users) == {};
    assert s.shared && s.alive && s.freed == 0 && s.count == |Holders(s.users)| + 1;
    hide Inv, Holders, StepUser, StepStop;
    var s1 := Step(c, s, Exit);
    var s2 := Step(c, s1, Exit);
    var s3 := Step(c, s2, Exit);
    var s4 := Step(c, s3, Exit);
    var s5 := Step(c, s4, Exit);
    var s6 := Step(c, s5, Exit);
    ExitBegins(c, s);
    hide AllStopped;
    ExitGoesOn(c, s2);
    Seven(c, s, Exit, s1, s2, s3, s4, s5, s6, Step(c, s6, Exit));
  }

  /** Into the exit section. */
  lemma ExitBegins(c: Code, s: State)
    requires s.exit == Running && s.shared && s.alive
    requires (c.joins ==> AllStopped(s)) && (c.variant == Guarded ==> s.lock == Free)
    ensures StepExit(c, StepExit(c, s)) ==
      if c.variant == Guarded then s.(active := false, exit := Inactive, lock := Exiting) else s.(exit := Inactive)
  {
  }

  /** The base reference given back, the object freed if that was the last one, the pointer cleared. */
  lemma ExitGoesOn(c: Code, s: State)
    requires s.exit == Inactive && s.alive && s.shared && s.count > 0
    ensures var t := StepExit(c, StepExit(c, StepExit(c, StepExit(c, s))));
      && t.exit == Done && !t.shared && t.users == s.users && t.value == s.value && t.active == s.active
      && t.count == s.count - 1 && t.alive == (s.count > 1) && t.freed == s.freed + if s.count > 1 then 0 else 1
  {
    var s1 := StepExit(c, s);
    if s.count == 1 {
      assert s1 == s.(count := 0, exit := Dropping);
      var s2 := StepExit(c, s1);
      assert s2 == s1.(alive := false, freed := s.freed + 1, exit := Dropped);
      ExitCloses(c, s2);
    } else {
      assert s1 == s.(count := s.count - 1, exit := Dropped);
      ExitCloses(c, s1);
    }
  }

  lemma ExitCloses(c: Code, s: State)
    requires s.exit == Dropped
    ensures var t := StepExit(c, StepExit(c, s));
      t == s.(shared := false, exit := Done, lock := t.lock) && StepExit(c, t) == t
  {
  }

  // ----- what single steps mean -----

  /** With the pointer set a reference is got, of a count above zero; without it none is, and
      nobody touches the object. */
  lemma GetMeans(c: Code, k: nat, s: State, t: Thread)
    requires Sound(c) && Inv(c, k, s) && t < k && s.users[t].Entered?
    ensures var u := StepGet(c, s, t);
      && !u.fault
      && (s.shared ==> s.count > 0 && s.alive && u == Move(s, t, Taken).(count := s.count + 1))
      && (!s.shared ==> u == Move(s, t, Missed))
  {
    hide Holders;
    assert c.variant == Bare ==> s.exit.Running?;
    assert c.variant == Guarded ==> s.lock == User(t) && (s.exit.Running? || s.exit.Done?);
  }

  /** A put leaves the object to this thread to free iff it gave back the last reference. */
  lemma PutMeans(c: Code, k: nat, s: State, t: Thread)
    requires Sound(c) && Inv(c, k, s) && t < k && s.users[t].Used?
    ensures var u := StepPut(s, t);
      && !u.fault && u.alive && u.count == s.count - 1
      && Holders(u.users) == Holders(s.users) - {t}
      && (u.users[t].Freeing? <==> Holders(u.users) == {} && Base(s.exit) == 0)
  {
    HolderCounts(s.users, t);
    HoldersMove(s.users, t, Idle);
    HoldersMove(s.users, t, Freeing);
    var u := StepPut(s, t);
    assert u.users == s.users[t := u.users[t]];
    assert |Holders(u.users)| + Base(s.exit) == s.count - 1;
    assert |Holders(u.users)| == 0 <==> Holders(u.users) == {};
  }

  /** Only the thread whose put brought the count to zero frees, when nobody holds a reference. */
  lemma UserFrees(c: Code, k: nat, s: State, t: Thread)
    requires Sound(c) && Inv(c, k, s) && t < k
    ensures StepUser(c, s, t).freed != s.freed ==>
      s.users[t].Freeing? && s.freed == 0 && s.count == 0 && Holders(s.users) == {}
  {
    hide Holders;
    if s.users[t].Freeing? {
      assert Frees(s, t);
      NoHolders(s);
    }
  }

  lemma FreesOnce(c: Code, s: State, t: Thread)
    requires (t < |s.users| && s.freed == 0 && s.users[t].Freeing?) || StepUser(c, s, t).freed == s.freed
    ensures StepUser(c, s, t).freed != s.freed ==> StepUser(c, s, t).freed == 1 && StepUser(c, s, t).count == s.count
  {
  }

  lemma ExitFreesOnce(c: Code, s: State)
    requires StepExit(c, s).freed == s.freed || (s.freed == 0 && s.exit.Dropping?)
    ensures |StepExit(c, s).users| == |s.users|
    ensures StepExit(c, s).freed != s.freed ==> StepExit(c, s).freed == 1 && StepExit(c, s).count == s.count
  {
  }

  lemma NoHolders(s: State)
    requires CountOk(s) && s.count == 0
    ensures Holders(s.users) == {}
  {
  }

  /** The exit path frees under the same condition, and clears the pointer only after it has
      dropped the base reference. */
  lemma ExitMeans(c: Code, k: nat, s: State)
    requires Sound(c) && Inv(c, k, s)
    ensures var u := StepExit(c, s);
      && !u.fault
      && (u.freed != s.freed ==> s.exit.Dropping? && s.freed == 0 && s.count == 0 && Holders(s.users) == {})
      && (u.shared != s.shared ==> Base(s.exit) == 0)
  {
    ExitKeeps(c, k, s);
    if s.exit.Dropping? { NoHolders(s); }
    hide Holders;
  }

  // ----- the module -----

  /** The object, the pointer to it, the lock, and where each thread and the exit path are. */
  class Shared {
    const code: Code
    var shared: bool
    var count: nat
    var alive: bool
    var freed: nat
    var active: bool
    var value: int
    var users: seq<Phase>
    var exit: ExitPhase
    var lock: Owner
    var fault: bool

    ghost function View(): State
      reads this
    {
      State(shared, count, alive, freed, active, value, users, exit, lock, fault)
    }

    /** In a sound variant counts, lock and lifetime fit together and nothing has gone wrong. */
    ghost predicate Valid()
      reads this
    {
      Sound(code) ==> Inv(code, |users|, View())
    }

    /** create_resource, create_object, and `k` threads. */
    constructor (code: Code, k: nat, value: int)
      ensures Valid() && View() == Init(k, value) && this.code == code
    {
      this.code := code;
      shared, count, alive, freed, active := true, 1, true, 0, true;
      this.value, users, exit, lock, fault := value, seq(k, i => Idle), Running, Free, false;
      new;
      assert View() == Init(k, value);
      InitOk(code, k, value);
    }

    method FreeObject()
      modifies this`alive, this`freed, this`fault
      ensures View() == Kfree(old(View()))
    {
      if alive {
        alive, freed := false, freed + 1;
      } else {
        fault := true;
      }
    }

    /** What get_resource does under its lock, or kref_get. In a sound variant a reference is got
        iff the pointer is set, the count rises only from above zero, and nothing faults. */
    method GetReference(t: Thread)
      requires Valid() && t < |users| && users[t].Entered?
      modifies this`count, this`users, this`fault
      ensures Valid() && View() == StepGet(code, old(View()), t)
      ensures Sound(code) ==> !fault && users == old(users)[t := if shared then Taken else Missed]
      ensures Sound(code) && shared ==> old(count) > 0 && count == old(count) + 1
      ensures Sound(code) && !shared ==> count == old(count)
    {
      ghost var s := View();
      if Sound(code) { GetMeans(code, |users|, s, t); UserKeeps(code, |users|, s, t); }
      hide Inv, Holders, StepGet;
      assert StepUser(code, s, t) == StepGet(code, s, t);
      DoGet(t);
    }

    method DoGet(t: Thread)
      requires t < |users| && users[t].Entered?
      modifies this`count, this`users, this`fault
      ensures View() == StepGet(code, old(View()), t)
    {
      if code.variant == Guarded {
        if !shared {
          users := users[t := Missed];
        } else if !alive {
          fault := true;
        } else if count == 0 {
          users := users[t := Missed];
        } else {
          count, users := count + 1, users[t := Taken];
        }
      } else if !shared || !alive {
        fault := true;
      } else {
        count, users := count + 1, users[t := Taken];
      }
    }

    /** put_resource, kref_put. In a sound variant the object is still there, and it is up to this
        thread to free it iff it gave back the last of all references. */
    method PutReference(t: Thread)
      requires Valid() && t < |users| && users[t].Used?
      modifies this`count, this`users, this`fault
      ensures Valid() && View() == StepPut(old(View()), t)
      ensures Sound(code) ==> !fault && alive && count == old(count) - 1
      ensures Sound(code) ==> |users| == |old(users)| && Holders(users) == Holders(old(users)) - {t}
      ensures Sound(code) && |users| == |old(users)| ==>
        (users[t].Freeing? <==> Holders(users) == {} && Base(exit) == 0)
    {
      ghost var s := View();
      if Sound(code) { PutMeans(code, |users|, s, t); UserKeeps(code, |users|, s, t); }
      hide Inv, Holders, StepPut, Base;
      assert StepUser(code, s, t) == StepPut(s, t);
      DoPut(t);
    }

    method DoPut(t: Thread)
      requires t < |users|
      modifies this`count, this`users, this`fault
      ensures View() == StepPut(old(View()), t)
    {
      if !alive || count == 0 {
        fault := true;
      } else {
        count := count - 1;
        users := users[t := if count == 0 then Freeing else Idle];
      }
    }

    /** The next step of user_thread_fn or worker_thread. In a sound variant it touches no freed
        object, and frees it only once, when the count is zero and nobody holds a reference. */
    method UserStep(t: Thread)
      requires Valid()
      modifies this
      ensures Valid() && View() == StepUser(code, old(View()), t)
      ensures Sound(code) ==> !fault
      ensures Sound(code) && freed != old(freed) ==> freed == 1 && count == 0 && Holders(old(users)) == {}
    {
      ghost var s := View();
      if Sound(code) && t < |users| { UserKeeps(code, |users|, s, t); UserFrees(code, |users|, s, t); }
      hide Inv, Holders, StepUser;
      DoUserStep(t);
      if Sound(code) && t < |users| { FreesOnce(code, s, t); }
    }

    method DoUserStep(t: Thread)
      modifies this
      ensures View() == StepUser(code, old(View()), t)
    {
      hide StepGet, StepPut;
      if t >= |users| {
        return;
      }
      match users[t] {
        case Idle =>
          if code.variant == Guarded {
            if lock == Free {
              lock, users := User(t), users[t := Entered];
            }
          } else if shared {
            users := users[t := Entered];
          }
        case Entered =>
          DoGet(t);
        case Missed =>
          lock, users := Free, users[t := Idle];
        case Taken =>
          if code.variant == Guarded {
            lock, users := Free, users[t := Holding];
          } else if shared {
            users := users[t := Holding];
          } else {
            fault := true;
          }
        case Holding =>
          if alive {
            users := users[t := if active then Checked else Used];
          } else {
            fault := true;
          }
        case Checked =>
          if alive {
            users := users[t := Loaded(value)];
          } else {
            fault := true;
          }
        case Loaded(v) =>
          if alive {
            value, users := v + t + 1, users[t := Used];
          } else {
            fault := true;
          }
        case Used =>
          DoPut(t);
        case Freeing =>
          FreeObject();
          users := users[t := Idle];
        case Stopped =>
      }
    }

    method StopThread(t: Thread)
      requires Valid()
      modifies this`users
      ensures Valid() && View() == StepStop(old(View()), t)
      ensures users == if t < |old(users)| && old(users)[t].Idle? then old(users)[t := Stopped] else old(users)
    {
      if Sound(code) && t < |users| { StopKeeps(code, |users|, View(), t); }
      hide CountOk, LifeOk, LockOk, Holders;
      if t < |users| && users[t].Idle? {
        users := users[t := Stopped];
      }
    }

    /** The next step of the module's exit function. In a sound variant it faults never, frees
        only at count zero with nobody holding a reference, and clears the pointer only after the
        base reference is gone. */
    method ExitStep()
      requires Valid()
      modifies this
      ensures Valid() && View() == StepExit(code, old(View()))
      ensures Sound(code) ==> !fault
      ensures Sound(code) && freed != old(freed) ==> freed == 1 && count == 0 && Holders(old(users)) == {}
      ensures Sound(code) && shared != old(shared) ==> Base(old(exit)) == 0
    {
      ghost var s := View();
      if Sound(code) { ExitKeeps(code, |users|, s); ExitMeans(code, |users|, s); ExitFreesOnce(code, s); }
      hide Inv, Holders, StepExit, Base;
      DoExitStep();
    }

    method DoExitStep()
      modifies this
      ensures View() == StepExit(code, old(View()))
    {
      match exit {
        case Running =>
          if !code.joins || forall t :: 0 <= t < |users| ==> users[t].Stopped? {
            if code.variant == Bare {
              exit := Locked;
            } else if lock == Free {
              exit, lock := Locked, Exiting;
            }
          }
        case Locked =>
          if !shared {
            exit := Cleared;
          } else if code.variant == Bare {
            exit := Inactive;
          } else if alive {
            active, exit := false, Inactive;
          } else {
            fault := true;
          }
        case Inactive =>
          if !alive || count == 0 {
            fault := true;
          } else {
            count := count - 1;
            exit := if count == 0 then Dropping else Dropped;
          }
        case Dropping =>
          FreeObject();
          exit := Dropped;
        case Dropped =>
          shared, exit := false, Cleared;
        case Cleared =>
          exit := Done;
          if code.variant == Guarded {
            lock := Free;
          }
        case Done =>
      }
    }

    /** Threads and exit path in any order: no fault, freed at most once. */
    method Run(es: seq<Event>)
      requires Valid() && View() == Init(|users|, value)
      modifies this
      ensures Valid() && View() == After(code, |old(users)|, old(value), es)
      ensures Sound(code) ==> !fault && freed <= 1
    {
      hide Step, Inv;
      ghost var k, x := |users|, value;
      var i := 0;
      while i < |es|
        invariant 0 <= i <= |es| && Valid() && View() == After(code, k, x, es[..i])
      {
        assert es[..i + 1] == es[..i] + [es[i]];
        AfterOneMore(code, k, x, es[..i], es[i]);
        Perform(es[i]);
        i := i + 1;
      }
      assert es[..i] == es;
      if Sound(code) { FreedOnce(code, k, x, es); }
    }

    method Perform(e: Event)
      requires Valid()
      modifies this
      ensures Valid() && View() == Step(code, old(View()), e)
    {
      hide StepUser, StepStop, StepExit, Inv;
      match e {
        case Advance(t) => UserStep(t);
        case Stop(t) => StopThread(t);
        case Exit => ExitStep();
      }
    }
  }
}
