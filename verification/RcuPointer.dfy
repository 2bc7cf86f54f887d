/** One pointer published to readers under RCU, in the three ways the repository does it:
    the updater blocks in synchronize_rcu and frees (kthread_rctest), hands the old object to
    call_rcu (kthread_rcasync), or waits for sleeping readers with synchronize_srcu and then
    hands it to call_rcu (srcu_example).

    An object is allocated iff its address is a key of `mem`; touching or freeing any other
    address raises `fault`. Addresses are reused freely. */
module RcuPointer {
  import opened Runs

  type Addr = nat
  type Reader = nat
  const NULL: Addr := 0

  datatype Mode = Blocking | Callback | Sleepable

  /** The updater: between rounds, holding a new object, holding the object it has just
      replaced, or waiting for that object's grace period. */
  datatype Op = Idle | Filled(n: Addr) | Swapped(orig: Addr) | Waiting(orig: Addr)

  /** A read-side section: entered, pointer loaded, value read before and after the sleep.
      `snap` is history: the value that was current when the pointer was loaded. */
  datatype Section = Entered | Loaded(at: Addr, snap: int) | ReadOnce(at: Addr, first: int, snap: int)
                   | ReadTwice(at: Addr, first: int, second: int, snap: int)

  datatype State = State(ptr: Addr, mem: map<Addr, int>, op: Op, readers: map<Reader, Section>,
                         grace: map<Addr, set<Reader>>, queue: set<Addr>, exited: bool, fault: bool)

  datatype Event =
    | Alloc(a: Addr, value: int) | Publish | Retire | Finish | RunCallback(b: Addr)
    | Enter(r: Reader) | Load(r: Reader) | Read(r: Reader) | Reread(r: Reader) | Leave(r: Reader)
    | Exit

  /** srcu_example publishes an object before its threads start; the others start from null. */
  function Init(initial: map<Addr, int>, ptr: Addr): State {
    State(ptr, initial, Idle, map[], map[], {}, false, false)
  }

  predicate GoodInit(initial: map<Addr, int>, ptr: Addr) {
    (ptr == NULL && initial == map[]) || (ptr != NULL && initial.Keys == {ptr})
  }

  function Crash(s: State): State { s.(fault := true) }

  function Kfree(s: State, b: Addr): State {
    if b !in s.mem then Crash(s) else s.(mem := s.mem - {b}, grace := s.grace - {b}, queue := s.queue - {b})
  }

  /** Hand `b` to call_rcu: a grace period for the readers `waits`, then the callback. */
  function CallRcu(s: State, b: Addr, waits: set<Reader>): State {
    if b in s.queue || b !in s.mem then Crash(s) else s.(grace := s.grace[b := waits], queue := s.queue + {b})
  }

  /** The allocator returns any address not in use; otherwise the round is skipped. */
  function StepAlloc(s: State, a: Addr, value: int): State {
    if s.op != Idle || s.exited || a == NULL || a in s.mem then s else s.(mem := s.mem[a := value], op := Filled(a))
  }

  function StepPublish(s: State): State {
    if !s.op.Filled? then s else s.(ptr := s.op.n, op := if s.ptr == NULL then Idle else Swapped(s.ptr))
  }

  /** What follows the swap: call_rcu, or the start of synchronize_rcu / synchronize_srcu. */
  function StepRetire(mode: Mode, s: State): State {
    if !s.op.Swapped? then s
    else if mode == Callback then CallRcu(s, s.op.orig, s.readers.Keys).(op := Idle)
    else s.(grace := s.grace[s.op.orig := s.readers.Keys], op := Waiting(s.op.orig))
  }

  /** The wait ends with the grace period; then kfree, or (after synchronize_srcu) call_rcu,
      which has no RCU readers left to wait for. */
  function StepFinish(mode: Mode, s: State): State {
    if !s.op.Waiting? || (s.op.orig in s.grace && s.grace[s.op.orig] != {}) then s
    else if mode == Blocking then Kfree(s, s.op.orig).(op := Idle)
    else CallRcu(s, s.op.orig, {}).(op := Idle)
  }

  function StepCallback(s: State, b: Addr): State {
    if b in s.queue && (b in s.grace ==> s.grace[b] == {}) then Kfree(s, b) else s
  }

  function SetReader(s: State, r: Reader, c: Section): State { s.(readers := s.readers[r := c]) }

  function StepEnter(s: State, r: Reader): State {
    if r in s.readers || s.exited then s else SetReader(s, r, Entered)
  }

  function StepLoad(s: State, r: Reader): State {
    if r !in s.readers || !s.readers[r].Entered? then s
    else SetReader(s, r, Loaded(s.ptr, if s.ptr in s.mem then s.mem[s.ptr] else 0))
  }

  function StepRead(s: State, r: Reader): State {
    if r !in s.readers || !s.readers[r].Loaded? || s.readers[r].at == NULL then s
    else
      var c := s.readers[r];
      if c.at !in s.mem then Crash(s) else SetReader(s, r, ReadOnce(c.at, s.mem[c.at], c.snap))
  }

  /** Only the SRCU reader looks again after sleeping inside its section. */
  function StepReread(mode: Mode, s: State, r: Reader): State {
    if mode != Sleepable || r !in s.readers || !s.readers[r].ReadOnce? then s
    else
      var c := s.readers[r];
      if c.at !in s.mem then Crash(s) else SetReader(s, r, ReadTwice(c.at, c.first, s.mem[c.at], c.snap))
  }

  function StepLeave(s: State, r: Reader): State {
    s.(readers := s.readers - {r}, grace := map b | b in s.grace :: s.grace[b] - {r})
  }

  /** Module exit, after the threads have been stopped: kfree of the last object, or call_rcu
      followed by a synchronize_rcu that does not wait for callbacks; those that run meanwhile come
      as events after this one. */
  function StepExit(mode: Mode, s: State): State {
    if s.op != Idle || s.readers != map[] || s.exited then s
    else
      var t := s.(exited := true);
      if s.ptr == NULL then t
      else if mode == Callback then CallRcu(t, s.ptr, {}).(ptr := NULL)
      else Kfree(t, s.ptr)
  }

  function Step(mode: Mode, s: State, e: Event): State {
    match e
    case Alloc(a, value) => StepAlloc(s, a, value)
    case Publish => StepPublish(s)
    case Retire => StepRetire(mode, s)
    case Finish => StepFinish(mode, s)
    case RunCallback(b) => StepCallback(s, b)
    case Enter(r) => StepEnter(s, r)
    case Load(r) => StepLoad(s, r)
    case Read(r) => StepRead(s, r)
    case Reread(r) => StepReread(mode, s, r)
    case Leave(r) => StepLeave(s, r)
    case Exit => StepExit(mode, s)
  }

  /** The state after a run. */
  function After(mode: Mode, initial: map<Addr, int>, ptr: Addr, es: seq<Event>): State {
    Exec((s, e) => Step(mode, s, e), Init(initial, ptr), es)
  }

  // ----- invariant -----

  function Private(op: Op): set<Addr> { if op.Filled? then {op.n} else {} }
  function Pending(op: Op): set<Addr> { if op.Swapped? then {op.orig} else {} }
  function Held(op: Op): set<Addr> { if op.Waiting? then {op.orig} else {} }
  function Published(s: State): set<Addr> { if s.ptr == NULL || (s.exited && s.ptr !in s.mem) then {} else {s.ptr} }

  /** Every allocated object is published, private to the updater, just replaced, or waiting
      for its grace period, and only one of these. */
  ghost predicate Partition(s: State) {
    && s.mem.Keys == Published(s) + Private(s.op) + Pending(s.op) + s.grace.Keys
    && s.grace.Keys == s.queue + Held(s.op) && Held(s.op) !! s.queue
    && Published(s) !! Private(s.op) + Pending(s.op) + s.grace.Keys
    && Private(s.op) !! s.grace.Keys && Pending(s.op) !! s.grace.Keys
    && NULL !in s.mem
    && (forall b :: b in s.grace ==> s.grace[b] <= s.readers.Keys)
  }

  /** A reader's object is published, just replaced, or kept alive for this reader; it still
      has the value it had when it was loaded, and that is what the reader saw. */
  ghost predicate ReaderOk(s: State, r: Reader)
    requires r in s.readers
  {
    var c := s.readers[r];
    c.Entered? || (c.Loaded? && c.at == NULL) ||
    (&& c.at in s.mem && s.mem[c.at] == c.snap
     && (c.at == s.ptr || c.at in Pending(s.op) || (c.at in s.grace && r in s.grace[c.at]))
     && (c.ReadOnce? || c.ReadTwice? ==> c.first == c.snap)
     && (c.ReadTwice? ==> c.second == c.snap))
  }

  ghost predicate Inv(mode: Mode, s: State) {
    && !s.fault
    && Partition(s)
    && (forall r :: r in s.readers ==> ReaderOk(s, r))
    && (s.exited ==> s.op == Idle && s.readers == map[])
    && (s.exited ==> if mode == Callback then s.ptr == NULL else s.ptr !in s.mem)
    && (mode == Callback ==> !s.op.Waiting?)
    && (mode == Blocking ==> s.queue == {})
  }

  lemma StepKeeps(mode: Mode, s: State, e: Event)
    requires Inv(mode, s)
    ensures Inv(mode, Step(mode, s, e))
  {
    match e {
      case Leave(r) => LeaveKeeps(mode, s, r);
      case Retire => RetireKeeps(mode, s);
      case Finish => FinishKeeps(mode, s);
      case RunCallback(b) => CallbackKeeps(mode, s, b);
      case Publish => PublishKeeps(mode, s);
      case Alloc(a, v) => AllocKeeps(mode, s, a, v);
      case Exit => ExitKeeps(mode, s);
      case _ => ReaderMovesKeep(mode, s, e);
    }
  }

  lemma ReaderMovesKeep(mode: Mode, s: State, e: Event)
    requires Inv(mode, s) && (e.Enter? || e.Load? || e.Read? || e.Reread?)
    ensures Inv(mode, Step(mode, s, e))
  {
    var t := Step(mode, s, e);
    forall q | q in t.readers ensures ReaderOk(t, q) {
      if q in s.readers { assert ReaderOk(s, q); }
    }
    if e.Read? && e.r in s.readers { assert ReaderOk(s, e.r); }
    if e.Reread? && e.r in s.readers { assert ReaderOk(s, e.r); }
  }

  lemma LeaveKeeps(mode: Mode, s: State, r: Reader)
    requires Inv(mode, s)
    ensures Inv(mode, StepLeave(s, r))
  {
    var t := StepLeave(s, r);
    assert t.grace.Keys == s.grace.Keys;
    forall q | q in t.readers ensures ReaderOk(t, q) { assert ReaderOk(s, q); }
  }

  lemma AllocKeeps(mode: Mode, s: State, a: Addr, v: int)
    requires Inv(mode, s)
    ensures Inv(mode, StepAlloc(s, a, v))
  {
    var t := StepAlloc(s, a, v);
    forall q | q in t.readers ensures ReaderOk(t, q) { assert ReaderOk(s, q); }
  }

  lemma PublishKeeps(mode: Mode, s: State)
    requires Inv(mode, s)
    ensures Inv(mode, StepPublish(s))
  {
    var t := StepPublish(s);
    forall q | q in t.readers ensures ReaderOk(t, q) { assert ReaderOk(s, q); }
  }

  lemma RetireKeeps(mode: Mode, s: State)
    requires Inv(mode, s)
    ensures Inv(mode, StepRetire(mode, s))
  {
    var t := StepRetire(mode, s);
    forall q | q in t.readers ensures ReaderOk(t, q) { assert ReaderOk(s, q); }
  }

  lemma KfreeKeepsReaders(s: State, t: State, b: Addr)
    requires b in s.grace && s.grace[b] == {} && b != s.ptr && b !in Pending(s.op)
    requires t.mem == s.mem - {b} && t.grace == s.grace - {b} && t.readers == s.readers
    requires t.ptr == s.ptr && Pending(t.op) == Pending(s.op)
    requires forall r :: r in s.readers ==> ReaderOk(s, r)
    ensures forall r :: r in t.readers ==> ReaderOk(t, r)
  {
    forall r | r in t.readers ensures ReaderOk(t, r) { assert ReaderOk(s, r); }
  }

  lemma FinishKeeps(mode: Mode, s: State)
    requires Inv(mode, s)
    ensures Inv(mode, StepFinish(mode, s))
  {
    var t := StepFinish(mode, s);
    if t != s {
      assert s.op.orig in Held(s.op);
      if mode == Blocking {
        KfreeKeepsReaders(s, t, s.op.orig);
      } else {
        forall q | q in t.readers ensures ReaderOk(t, q) { assert ReaderOk(s, q); }
      }
    }
  }

  lemma CallbackKeeps(mode: Mode, s: State, b: Addr)
    requires Inv(mode, s)
    ensures Inv(mode, StepCallback(s, b))
  {
    var t := StepCallback(s, b);
    if b in s.queue {
      assert b in s.grace;
      if s.grace[b] == {} { KfreeKeepsReaders(s, t, b); }
    }
  }

  lemma ExitKeeps(mode: Mode, s: State)
    requires Inv(mode, s)
    ensures Inv(mode, StepExit(mode, s))
  {
  }

  lemma Reached(mode: Mode, initial: map<Addr, int>, ptr: Addr, es: seq<Event>)
    requires GoodInit(initial, ptr)
    ensures Inv(mode, After(mode, initial, ptr, es))
  {
    forall s, e | Inv(mode, s) ensures Inv(mode, Step(mode, s, e)) { StepKeeps(mode, s, e); }
    hide Inv, Step;
    assert Inv(mode, Init(initial, ptr)) by { InitOk(mode, initial, ptr); }
    Always((s, e) => Step(mode, s, e), s => Inv(mode, s), Init(initial, ptr), es);
  }

  lemma InitOk(mode: Mode, initial: map<Addr, int>, ptr: Addr)
    requires GoodInit(initial, ptr)
    ensures Inv(mode, Init(initial, ptr))
  {
  }

  // ----- what it gives -----

  /** In every mode and every run: no access to a freed object, no double free, no double
      call_rcu, and the allocated objects are exactly the published, the private, the just
      replaced and the retired ones. */
  lemma NeverFaults(mode: Mode, initial: map<Addr, int>, ptr: Addr, es: seq<Event>)
    requires GoodInit(initial, ptr)
    ensures !After(mode, initial, ptr, es).fault && Partition(After(mode, initial, ptr, es))
  {
    Reached(mode, initial, ptr, es);
  }

  /** At moment `j` of the run, with the section of `r` under way since, `at` was published and
      held this value. */
  ghost predicate WasCurrent(mode: Mode, initial: map<Addr, int>, ptr: Addr, es: seq<Event>, r: Reader, j: nat,
                             at: Addr, value: int)
  {
    && j <= |es|
    && (forall i :: j <= i <= |es| ==> r in After(mode, initial, ptr, es[..i]).readers)
    && var s := After(mode, initial, ptr, es[..j]); s.ptr == at && at in s.mem && s.mem[at] == value
  }

  /** What is recorded at the load is the value published at that moment. */
  lemma {:induction false} SnapWasCurrent(mode: Mode, initial: map<Addr, int>, ptr: Addr, es: seq<Event>, r: Reader)
      returns (j: nat)
    requires GoodInit(initial, ptr) && r in After(mode, initial, ptr, es).readers
    requires var c := After(mode, initial, ptr, es).readers[r]; !c.Entered? && c.at != NULL
    ensures var c := After(mode, initial, ptr, es).readers[r];
      WasCurrent(mode, initial, ptr, es, r, j, c.at, c.snap)
    decreases |es|
  {
    var k := |es| - 1;
    assert es[..|es|] == es;
    var s, t := After(mode, initial, ptr, es[..k]), After(mode, initial, ptr, es);
    Reached(mode, initial, ptr, es[..k]);
    hide After;
    if es[k] == Load(r) && r in s.readers && s.readers[r].Entered? {
      j := |es|;
      LoadIsCurrent(mode, s, r);
    } else {
      SnapKept(mode, s, es[k], r);
      j := SnapWasCurrent(mode, initial, ptr, es[..k], r);
      forall i | j <= i <= |es| ensures r in After(mode, initial, ptr, es[..i]).readers {
        if i <= k { assert es[..k][..i] == es[..i]; }
      }
      assert es[..k][..j] == es[..j];
    }
  }

  lemma SnapKept(mode: Mode, s: State, e: Event, r: Reader)
    requires r in Step(mode, s, e).readers
    requires !Step(mode, s, e).readers[r].Entered?
    requires !(e == Load(r) && r in s.readers && s.readers[r].Entered?)
    ensures var c := Step(mode, s, e).readers[r];
      r in s.readers && !s.readers[r].Entered? && s.readers[r].at == c.at && s.readers[r].snap == c.snap
  {
  }

  lemma LoadIsCurrent(mode: Mode, s: State, r: Reader)
    requires Inv(mode, s) && r in s.readers && s.readers[r].Entered?
    ensures var t := StepLoad(s, r);
      t.readers[r].at != NULL ==>
        t.ptr == t.readers[r].at && t.ptr in t.mem && t.mem[t.ptr] == t.readers[r].snap
  {
  }

  /** What a reader has read was the published value at some moment of its section, however long it
      sleeps and however often the pointer is replaced meanwhile; both its reads agree. */
  lemma ReadsAgree(mode: Mode, initial: map<Addr, int>, ptr: Addr, es: seq<Event>, r: Reader)
    requires GoodInit(initial, ptr) && r in After(mode, initial, ptr, es).readers
    ensures var c := After(mode, initial, ptr, es).readers[r];
      && (c.ReadOnce? || c.ReadTwice? ==> exists j :: WasCurrent(mode, initial, ptr, es, r, j, c.at, c.first))
      && (c.ReadTwice? ==> c.first == c.second)
  {
    Reached(mode, initial, ptr, es);
    var s := After(mode, initial, ptr, es);
    assert ReaderOk(s, r);
    var c := s.readers[r];
    if c.ReadOnce? || c.ReadTwice? {
      assert c.at != NULL;
      var j := SnapWasCurrent(mode, initial, ptr, es, r);
    }
  }

  /** The blocking updater never has more than two objects. */
  lemma BlockingBound(initial: map<Addr, int>, ptr: Addr, es: seq<Event>)
    requires GoodInit(initial, ptr)
    ensures |After(Blocking, initial, ptr, es).mem| <= 2
  {
    Reached(Blocking, initial, ptr, es);
    var s := After(Blocking, initial, ptr, es);
    var own := Private(s.op) + Pending(s.op) + Held(s.op);
    assert s.mem.Keys == Published(s) + own;
    assert |own| <= 1 by { assert own == {} || exists x: Addr :: own == {x} by { OneOfThree(s.op); } }
  }

  lemma OneOfThree(op: Op)
    ensures var own := Private(op) + Pending(op) + Held(op); own == {} || exists x: Addr :: own == {x}
  {
    match op {
      case Idle =>
      case Filled(n) => assert Private(op) + Pending(op) + Held(op) == {n};
      case Swapped(b) => assert Private(op) + Pending(op) + Held(op) == {b};
      case Waiting(b) => assert Private(op) + Pending(op) + Held(op) == {b};
    }
  }

  /** What is still allocated after module exit is exactly what is queued for a callback; with
      the blocking updater that is nothing. */
  lemma AfterExit(mode: Mode, initial: map<Addr, int>, ptr: Addr, es: seq<Event>)
    requires GoodInit(initial, ptr) && After(mode, initial, ptr, es).exited
    ensures After(mode, initial, ptr, es).mem.Keys == After(mode, initial, ptr, es).queue
    ensures mode == Blocking ==> After(mode, initial, ptr, es).mem == map[]
  {
    Reached(mode, initial, ptr, es);
  }

  /** The callbacks that run: during the wait at the end of the exit, or after it. */
  predicate OnlyCallbacks(fs: seq<Event>) { forall i :: 0 <= i < |fs| ==> fs[i].RunCallback? }

  function Ran(fs: seq<Event>): set<Addr> { set i | 0 <= i < |fs| && fs[i].RunCallback? :: fs[i].b }

  /** Each callback that runs after the exit frees its object; what is left is what was queued at
      the exit and has not run, so waiting for all callbacks would leave nothing. */
  lemma {:induction false} CallbacksDrain(mode: Mode, s: State, fs: seq<Event>)
    requires Inv(mode, s) && s.exited && OnlyCallbacks(fs)
    ensures var t := Exec((s, e) => Step(mode, s, e), s, fs);
      Inv(mode, t) && t.exited && t.mem.Keys == s.queue - Ran(fs)
    decreases |fs|
  {
    if fs != [] {
      var k := |fs| - 1;
      CallbacksDrain(mode, s, fs[..k]);
      var u := Exec((s, e) => Step(mode, s, e), s, fs[..k]);
      OneDrains(mode, u, fs[k].b);
      assert Ran(fs) == Ran(fs[..k]) + {fs[k].b} by { RanLast(fs); }
      hide Inv, Ran, Step;
    }
  }

  lemma RanLast(fs: seq<Event>)
    requires fs != [] && fs[|fs| - 1].RunCallback?
    ensures Ran(fs) == Ran(fs[..|fs| - 1]) + {fs[|fs| - 1].b}
  {
    var k := |fs| - 1;
    forall b | b in Ran(fs) ensures b in Ran(fs[..k]) + {fs[k].b} {
      var i :| 0 <= i < |fs| && fs[i].RunCallback? && fs[i].b == b;
      if i < k { assert fs[..k][i] == fs[i]; }
    }
    forall b | b in Ran(fs[..k]) ensures b in Ran(fs) {
      var i :| 0 <= i < k && fs[..k][i].RunCallback? && fs[..k][i].b == b;
      assert fs[i].b == b;
    }
  }

  /** No reader is left, so every grace period is over. */
  lemma OneDrains(mode: Mode, s: State, b: Addr)
    requires Inv(mode, s) && s.exited
    ensures var t := StepCallback(s, b); Inv(mode, t) && t.exited && t.mem.Keys == s.mem.Keys - {b}
  {
    CallbackKeeps(mode, s, b);
    assert s.mem.Keys == s.queue;
    assert b in s.queue ==> b in s.grace && s.grace[b] <= s.readers.Keys;
  }

  /** What is allocated after the exit and any callbacks is what the exit had queued, or found
      queued, less what has run. */
  lemma LeftAfterExit(mode: Mode, initial: map<Addr, int>, ptr: Addr, es: seq<Event>, fs: seq<Event>)
    requires GoodInit(initial, ptr) && OnlyCallbacks(fs)
    requires var s := After(mode, initial, ptr, es); s.op == Idle && s.readers == map[] && !s.exited
    ensures var s := After(mode, initial, ptr, es);
      After(mode, initial, ptr, es + [Exit] + fs).mem.Keys ==
      s.queue + (if mode == Callback && s.ptr != NULL then {s.ptr} else {}) - Ran(fs)
  {
    var s := After(mode, initial, ptr, es);
    AfterOneMore(mode, initial, ptr, es, Exit);
    Reached(mode, initial, ptr, es);
    ExitKeeps(mode, s);
    ExitQueues(mode, s);
    ExecConcat((s, e) => Step(mode, s, e), Init(initial, ptr), es + [Exit], fs);
    hide Inv, StepExit, Ran, OnlyCallbacks;
    CallbacksDrain(mode, StepExit(mode, s), fs);
  }

  lemma ExitQueues(mode: Mode, s: State)
    requires Inv(mode, s) && s.op == Idle && s.readers == map[] && !s.exited
    ensures var t := StepExit(mode, s);
      t.exited && t.queue == s.queue + if mode == Callback && s.ptr != NULL then {s.ptr} else {}
  {
  }

  /** The exit is sure to leave nothing allocated, whichever callbacks get to run, iff no callback
      is queued before it and, with call_rcu, nothing is published any more. */
  lemma NothingLeftExactly(mode: Mode, initial: map<Addr, int>, ptr: Addr, es: seq<Event>)
    requires GoodInit(initial, ptr)
    requires var s := After(mode, initial, ptr, es); s.op == Idle && s.readers == map[] && !s.exited
    ensures var s := After(mode, initial, ptr, es);
      (forall fs :: OnlyCallbacks(fs) ==> After(mode, initial, ptr, es + [Exit] + fs).mem == map[]) <==>
      s.queue == {} && (mode == Callback ==> s.ptr == NULL)
  {
    hide After;
    var s := After(mode, initial, ptr, es);
    forall fs | OnlyCallbacks(fs)
      ensures After(mode, initial, ptr, es + [Exit] + fs).mem.Keys ==
              s.queue + (if mode == Callback && s.ptr != NULL then {s.ptr} else {}) - Ran(fs)
    {
      LeftAfterExit(mode, initial, ptr, es, fs);
    }
    var none: seq<Event> := [];
    assert OnlyCallbacks(none) && Ran(none) == {};
    LeftAfterExit(mode, initial, ptr, es, none);
    var queued := s.queue + if mode == Callback && s.ptr != NULL then {s.ptr} else {};
    assert After(mode, initial, ptr, es + [Exit] + none).mem.Keys == queued;
    assert queued == {} <==> s.queue == {} && (mode == Callback ==> s.ptr == NULL);
  }

  /** One more event of a run, with the state it leads to. */
  lemma Push(mode: Mode, initial: map<Addr, int>, ptr: Addr, es: seq<Event>, s: State, e: Event)
      returns (fs: seq<Event>, t: State)
    requires s == After(mode, initial, ptr, es)
    ensures t == Step(mode, s, e) && t == After(mode, initial, ptr, fs)
  {
    AfterOneMore(mode, initial, ptr, es, e);
    fs, t := es + [e], Step(mode, s, e);
  }

  /** The callback variant can leave its last object behind: synchronize_rcu is no barrier for
      callbacks. */
  lemma CallbacksMayOutliveTheModule()
    ensures exists es :: After(Callback, map[], NULL, es).exited && After(Callback, map[], NULL, es).mem != map[]
  {
    var es, s := [], Init(map[], NULL);
    assert After(Callback, map[], NULL, es) == s;
    hide After;
    es, s := Push(Callback, map[], NULL, es, s, Alloc(1, 7));
    es, s := Push(Callback, map[], NULL, es, s, Publish);
    es, s := Push(Callback, map[], NULL, es, s, Exit);
    assert 1 in s.mem;
  }

  /** So can the SRCU variant with the object its updater replaced last. */
  lemma SleepableMayLeaveToo()
    ensures var first := map[1 := 0];
      exists es :: After(Sleepable, first, 1, es).exited && After(Sleepable, first, 1, es).mem != map[]
  {
    var first := map[1 := 0];
    var es, s := [], Init(first, 1);
    assert After(Sleepable, first, 1, es) == s;
    hide After;
    es, s := Push(Sleepable, first, 1, es, s, Alloc(2, 10));
    es, s := Push(Sleepable, first, 1, es, s, Publish);
    es, s := Push(Sleepable, first, 1, es, s, Retire);
    es, s := Push(Sleepable, first, 1, es, s, Finish);
    assert s.op == Idle && s.ptr == 2 && 1 in s.mem && s.readers == map[];
    es, s := Push(Sleepable, first, 1, es, s, Exit);
    assert 1 in s.mem;
  }

  // ----- the recorded value is only looked at by the theorems -----

  /** The same stage, object and values read. */
  predicate SameSection(c: Section, d: Section) {
    match (c, d)
    case (Entered, Entered) => true
    case (Loaded(a, _), Loaded(b, _)) => a == b
    case (ReadOnce(a, x, _), ReadOnce(b, y, _)) => a == b && x == y
    case (ReadTwice(a, x, y, _), ReadTwice(b, v, w, _)) => a == b && x == v && y == w
    case _ => false
  }

  predicate SameReaders(m: map<Reader, Section>, n: map<Reader, Section>) {
    m.Keys == n.Keys && forall r :: r in m ==> SameSection(m[r], n[r])
  }

  /** Equal but for the recorded values. */
  predicate Same(s: State, t: State) { t == s.(readers := t.readers) && SameReaders(s.readers, t.readers) }

  lemma SectionAlike(s: State, t: State, r: Reader, c: Section, d: Section)
    requires Same(s, t) && SameSection(c, d)
    ensures Same(SetReader(s, r, c), SetReader(t, r, d))
  {
    hide SameSection;
  }

  lemma ReadersAlike(mode: Mode, s: State, t: State, r: Reader)
    requires Same(s, t)
    ensures Same(StepEnter(s, r), StepEnter(t, r)) && Same(StepLoad(s, r), StepLoad(t, r))
    ensures Same(StepRead(s, r), StepRead(t, r)) && Same(StepReread(mode, s, r), StepReread(mode, t, r))
  {
    assert r in s.readers <==> r in t.readers.Keys;
    SectionAlike(s, t, r, Entered, Entered);
    if r !in s.readers { return; }
    var c, d := s.readers[r], t.readers[r];
    assert SameSection(c, d);
    if c.Entered? {
      var x, y := (if s.ptr in s.mem then s.mem[s.ptr] else 0), (if t.ptr in t.mem then t.mem[t.ptr] else 0);
      SectionAlike(s, t, r, Loaded(s.ptr, x), Loaded(t.ptr, y));
    } else if c.Loaded? && c.at in s.mem {
      SectionAlike(s, t, r, ReadOnce(c.at, s.mem[c.at], c.snap), ReadOnce(d.at, t.mem[d.at], d.snap));
    } else if c.ReadOnce? && c.at in s.mem {
      SectionAlike(s, t, r, ReadTwice(c.at, c.first, s.mem[c.at], c.snap),
                   ReadTwice(d.at, d.first, t.mem[d.at], d.snap));
    }
  }

  /** Leaving, and stopping the threads, look only at which readers there are. */
  lemma LeaveAlike(s: State, t: State, r: Reader)
    requires Same(s, t)
    ensures Same(StepLeave(s, r), StepLeave(t, r))
  {
    hide SameSection;
    var u, v := StepLeave(s, r), StepLeave(t, r);
    assert u.grace == v.grace;
    assert SameReaders(u.readers, v.readers);
  }

  lemma ExitAlike(mode: Mode, s: State, t: State)
    requires Same(s, t)
    ensures Same(StepExit(mode, s), StepExit(mode, t))
  {
    hide SameSection;
    assert s.readers == map[] <==> s.readers.Keys == {};
    assert t.readers == map[] <==> t.readers.Keys == {};
  }

  lemma KeysAlike(s: State, t: State)
    requires Same(s, t)
    ensures s.readers.Keys == t.readers.Keys
  {}

  lemma RetireAlike(mode: Mode, s: State, t: State)
    requires Same(s, t)
    ensures Same(StepRetire(mode, s), StepRetire(mode, t))
  {
    KeysAlike(s, t);
    hide SameReaders;
  }

  lemma FinishAlike(mode: Mode, s: State, t: State)
    requires Same(s, t)
    ensures Same(StepFinish(mode, s), StepFinish(mode, t))
  {
    hide SameReaders;
  }

  lemma UpdaterAlike(s: State, t: State, e: Event)
    requires Same(s, t)
    ensures e.Alloc? ==> Same(StepAlloc(s, e.a, e.value), StepAlloc(t, e.a, e.value))
    ensures Same(StepPublish(s), StepPublish(t))
    ensures e.RunCallback? ==> Same(StepCallback(s, e.b), StepCallback(t, e.b))
  {
    hide SameReaders;
  }

  /** Runs that differ only in the recorded values do the same. */
  lemma {:induction false} HistoryIsPassive(mode: Mode, s: State, t: State, es: seq<Event>)
    requires Same(s, t)
    ensures Same(Exec((s, e) => Step(mode, s, e), s, es), Exec((s, e) => Step(mode, s, e), t, es))
    decreases |es|
  {
    if es != [] {
      var k := |es| - 1;
      HistoryIsPassive(mode, s, t, es[..k]);
      var u, v := Exec((s, e) => Step(mode, s, e), s, es[..k]), Exec((s, e) => Step(mode, s, e), t, es[..k]);
      StepAlike(mode, u, v, es[k]);
      hide Same, Step;
    }
  }

  lemma StepAlike(mode: Mode, s: State, t: State, e: Event)
    requires Same(s, t)
    ensures Same(Step(mode, s, e), Step(mode, t, e))
  {
    hide Same;
    match e {
      case Enter(r) => ReadersAlike(mode, s, t, r);
      case Load(r) => ReadersAlike(mode, s, t, r);
      case Read(r) => ReadersAlike(mode, s, t, r);
      case Reread(r) => ReadersAlike(mode, s, t, r);
      case Leave(r) => LeaveAlike(s, t, r);
      case Exit => ExitAlike(mode, s, t);
      case Retire => RetireAlike(mode, s, t);
      case Finish => FinishAlike(mode, s, t);
      case _ => UpdaterAlike(s, t, e);
    }
  }

  lemma AfterOneMore(mode: Mode, initial: map<Addr, int>, ptr: Addr, es: seq<Event>, e: Event)
    ensures After(mode, initial, ptr, es + [e]) == Step(mode, After(mode, initial, ptr, es), e)
  {
    hide Step;
    ExecOneMore((s, e) => Step(mode, s, e), Init(initial, ptr), es, e);
  }

  // ----- the module's threads -----

  /** The module: rcu_ptr (or global_data), the allocated objects and the callbacks. Every
      action is also a step of the machine, recorded in `trace`. */
  class Module {
    const mode: Mode
    const initial: map<Addr, int>
    const initialPtr: Addr
    var ptr: Addr
    var mem: map<Addr, int>
    var queue: set<Addr>
    ghost var op: Op
    ghost var readers: map<Reader, Section>
    ghost var grace: map<Addr, set<Reader>>
    ghost var exited: bool
    ghost var trace: seq<Event>

    ghost function View(): State
      reads this
    {
      State(ptr, mem, op, readers, grace, queue, exited, false)
    }

    ghost predicate Valid()
      reads this
    {
      GoodInit(initial, initialPtr) && View() == After(mode, initial, initialPtr, trace)
    }

    ghost method Did(e: Event)
      requires GoodInit(initial, initialPtr) && View() == Step(mode, After(mode, initial, initialPtr, trace), e)
      modifies this`trace
      ensures Valid()
    {
      hide Step, After;
      AfterOneMore(mode, initial, initialPtr, trace, e);
      trace := trace + [e];
    }

    constructor (mode: Mode, initial: map<Addr, int>, ptr: Addr)
      requires GoodInit(initial, ptr)
      ensures Valid() && op == Idle && !exited && readers == map[]
      ensures this.mode == mode && this.ptr == ptr && mem == initial
    {
      this.mode, this.initial, initialPtr, this.ptr, mem := mode, initial, ptr, ptr, initial;
      op, readers, grace, queue, exited, trace := Idle, map[], map[], {}, false, [];
    }

    /** synchronize_rcu / synchronize_srcu: the readers under way leave, one after another. */
    ghost method Synchronize(b: Addr)
      requires Valid() && op == Waiting(b) && b in grace
      modifies this`readers, this`grace, this`trace
      ensures Valid() && b in grace && grace[b] == {} && grace.Keys == old(grace.Keys)
    {
      while grace[b] != {}
        invariant Valid() && b in grace && grace.Keys == old(grace.Keys)
        decreases grace[b]
      {
        hide After;
        var r :| r in grace[b];
        readers := readers - {r};
        grace := map c | c in grace :: grace[c] - {r};
        Did(Leave(r));
      }
    }

    /** One round of updater_thread or writer_fn; `a` is what kmalloc returns. */
    method UpdaterRound(a: Addr, value: int)
      requires Valid() && op == Idle && !exited && (a == NULL || a !in mem)
      modifies this
      ensures Valid() && op == Idle && !exited
      ensures a == NULL ==> ptr == old(ptr) && mem == old(mem) && queue == old(queue)
      ensures a != NULL ==>
        && ptr == a
        && mem == old(mem)[a := value] - (if mode == Blocking then {old(ptr)} else {})
        && queue == old(queue) + (if mode != Blocking && old(ptr) != NULL then {old(ptr)} else {})
    {
      if a == NULL {
        return;
      }
      hide After, Inv;
      Invariant();
      mem := mem[a := value];
      op := Filled(a);
      Did(Alloc(a, value));
      var orig := ptr;
      ptr := a;
      op := if orig == NULL then Idle else Swapped(orig);
      Did(Publish);
      if orig != NULL {
        Reclaim(orig);
      }
    }

    method Reclaim(orig: Addr)
      requires Valid() && op == Swapped(orig) && !exited
      modifies this
      ensures Valid() && op == Idle && !exited && ptr == old(ptr)
      ensures mem == old(mem) - if mode == Blocking then {orig} else {}
      ensures queue == old(queue) + if mode == Blocking then {} else {orig}
    {
      hide After, Inv;
      Invariant();
      JustReplaced(mode, View(), orig);
      if mode == Callback {
        grace, queue, op := grace[orig := readers.Keys], queue + {orig}, Idle;
        Did(Retire);
      } else {
        grace, op := grace[orig := readers.Keys], Waiting(orig);
        Did(Retire);
        Synchronize(orig);
        FinishReclaim(orig);
      }
    }

    method FinishReclaim(orig: Addr)
      requires Valid() && op == Waiting(orig) && orig in grace && grace[orig] == {} && mode != Callback
      modifies this`mem, this`grace, this`queue, this`op, this`trace
      ensures Valid() && op == Idle
      ensures mem == old(mem) - if mode == Blocking then {orig} else {}
      ensures queue == old(queue) + if mode == Blocking then {} else {orig}
    {
      hide After, Inv;
      Invariant();
      WaitedFor(mode, View(), orig);
      if mode == Blocking {
        mem, grace := mem - {orig}, grace - {orig};
        assert queue - {orig} == queue;
      } else {
        grace, queue := grace[orig := {}], queue + {orig};
      }
      op := Idle;
      Did(Finish);
    }

    /** srcu_read_lock or rcu_read_lock, and rcu_dereference. */
    method Dereference(r: Reader) returns (cur: Addr)
      requires Valid() && !exited && r !in readers
      modifies this`readers, this`trace
      ensures Valid() && cur == ptr && (cur == NULL || cur in mem)
      ensures r in readers && readers[r] == Loaded(cur, if cur in mem then mem[cur] else 0)
    {
      hide After, Inv;
      Invariant();
      PublishedIsAllocated(mode, View());
      readers := readers[r := Entered];
      Did(Enter(r));
      cur := ptr;
      readers := readers[r := Loaded(cur, if cur in mem then mem[cur] else 0)];
      Did(Load(r));
    }

    /** The reads of one section; the SRCU reader reads again after its sleep. */
    method ReadValues(r: Reader, cur: Addr) returns (seen: seq<int>)
      requires Valid() && cur in mem && cur != NULL && r in readers && readers[r] == Loaded(cur, mem[cur])
      modifies this`readers, this`trace
      ensures Valid() && seen == if mode == Sleepable then [mem[cur], mem[cur]] else [mem[cur]]
    {
      hide After;
      seen := [mem[cur]];
      readers := readers[r := ReadOnce(cur, mem[cur], mem[cur])];
      Did(Read(r));
      if mode == Sleepable {
        seen := seen + [mem[cur]];
        readers := readers[r := ReadTwice(cur, mem[cur], mem[cur], mem[cur])];
        Did(Reread(r));
      }
    }

    /** One round of reader_thread or reader_fn. */
    method ReaderRound(r: Reader) returns (seen: seq<int>)
      requires Valid() && !exited && r !in readers
      modifies this`readers, this`grace, this`trace
      ensures Valid() && (ptr == NULL || ptr in mem)
      ensures seen == if ptr == NULL then [] else if mode == Sleepable then [mem[ptr], mem[ptr]] else [mem[ptr]]
    {
      hide After;
      var cur := Dereference(r);
      seen := [];
      if cur != NULL {
        seen := ReadValues(r, cur);
      }
      readers := readers - {r};
      grace := map c | c in grace :: grace[c] - {r};
      Did(Leave(r));
    }

    /** A queued callback whose grace period is over frees its object. */
    method FreeCallback(b: Addr)
      requires Valid() && b in queue && (b in grace ==> grace[b] == {})
      modifies this`mem, this`grace, this`queue, this`trace
      ensures Valid() && mem == old(mem) - {b} && queue == old(queue) - {b} && b in old(mem)
    {
      hide After;
      Invariant();
      mem, grace, queue := mem - {b}, grace - {b}, queue - {b};
      Did(RunCallback(b));
    }

    /** Module exit, after kthread_stop of all threads. */
    method ModuleExit()
      requires Valid() && op == Idle && readers == map[] && !exited
      modifies this
      ensures Valid() && exited
      ensures mem.Keys == queue && (mode == Blocking ==> mem == map[])
      ensures queue == old(queue) + if mode == Callback && old(ptr) != NULL then {old(ptr)} else {}
    {
      hide After;
      Invariant();
      exited := true;
      if ptr != NULL {
        if mode == Callback {
          grace, queue, ptr := grace[ptr := {}], queue + {ptr}, NULL;
        } else {
          mem := mem - {ptr};
          assert grace - {ptr} == grace && queue - {ptr} == queue;
        }
      }
      Did(Exit);
      Invariant();
    }

    lemma Invariant()
      requires Valid()
      ensures Inv(mode, View())
    {
      hide Inv, After;
      Reached(mode, initial, initialPtr, trace);
    }
  }

  lemma JustReplaced(mode: Mode, s: State, b: Addr)
    requires Inv(mode, s) && s.op == Swapped(b)
    ensures b in s.mem && b !in s.grace && b !in s.queue && s.ptr != b
  {
    assert b in Pending(s.op);
  }

  lemma WaitedFor(mode: Mode, s: State, b: Addr)
    requires Inv(mode, s) && s.op == Waiting(b)
    ensures b in s.mem && b !in s.queue
  {
    assert b in Held(s.op);
  }

  lemma PublishedIsAllocated(mode: Mode, s: State)
    requires Inv(mode, s) && !s.exited
    ensures s.ptr == NULL || s.ptr in s.mem
  {
  }
}
