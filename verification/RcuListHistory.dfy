/** The history kept beside the RCU list is only looked at by the theorems: two states that differ
    in nothing else take the same steps. */
module RcuListHistory {
  import opened Runs
  import opened RcuList

  /** The same place in the list, and the same records seen. */
  predicate SameCursor(c: Cursor, d: Cursor) {
    && c.at == d.at && c.done == d.done && |c.visited| == |d.visited|
    && forall i :: 0 <= i < |c.visited| ==> c.visited[i].rec == d.visited[i].rec
  }

  predicate SameReaders(c: map<Reader, Cursor>, d: map<Reader, Cursor>) {
    c.Keys == d.Keys && forall r :: r in c ==> SameCursor(c[r], d[r])
  }

  predicate SameMachine(s: State, t: State) {
    && s.next == t.next && s.prev == t.prev && s.rec == t.rec && s.op == t.op
    && s.grace == t.grace && s.queue == t.queue && s.fault == t.fault
  }

  /** Equal but for history. */
  predicate Same(s: State, t: State) { SameMachine(s, t) && SameReaders(s.readers, t.readers) }

  lemma AddedAlike(s: State, t: State, n: Addr)
    requires Same(s, t)
    ensures Same(NoteAdded(s, n), NoteAdded(t, n))
  {
    hide Lookup;
  }

  lemma ReplacedAlike(s: State, t: State, orig: Addr, n: Addr)
    requires Same(s, t)
    ensures Same(NoteReplaced(s, orig, n), NoteReplaced(t, orig, n))
  {
    hide ReplaceIn, SlotOf, Lookup;
  }

  lemma RemovedAlike(s: State, t: State, orig: Addr)
    requires Same(s, t)
    ensures Same(NoteRemoved(s, orig), NoteRemoved(t, orig))
  {
    hide RemoveFrom, SlotOf;
  }

  lemma NextAlike(s: State, t: State, a: Addr, v: Addr)
    requires Same(s, t)
    ensures Same(SetNext(s, a, v), SetNext(t, a, v))
  {
    hide SameReaders;
    if a in s.next { return; }
  }

  lemma PrevAlike(s: State, t: State, a: Addr, v: Addr)
    requires Same(s, t)
    ensures Same(SetPrev(s, a, v), SetPrev(t, a, v))
  {
    hide SameReaders;
    if a in s.prev { return; }
  }

  lemma OpAlike(s: State, t: State, op: Op)
    requires Same(s, t)
    ensures Same(s.(op := op), t.(op := op))
  {
    hide SameReaders;
  }

  lemma CrashAlike(s: State, t: State)
    requires Same(s, t)
    ensures Same(Crash(s), Crash(t))
  {
    hide SameReaders;
  }

  lemma AddingAlike(s: State, t: State, pc: nat, n: Addr)
    requires Same(s, t)
    ensures Same(StepAdding(s, pc, n), StepAdding(t, pc, n))
  {
    assert SameMachine(s, t);
    hide Same, SetNext, SetPrev, NoteAdded, Crash;
    CrashAlike(s, t);
    if HEAD !in s.next || n !in s.next { return; }
    if pc == 0 {
      NextAlike(s, t, n, s.next[HEAD]);
      OpAlike(SetNext(s, n, s.next[HEAD]), SetNext(t, n, s.next[HEAD]), Adding(1, n));
    } else if pc == 1 {
      PrevAlike(s, t, n, HEAD);
      OpAlike(SetPrev(s, n, HEAD), SetPrev(t, n, HEAD), Adding(2, n));
    } else if pc == 2 {
      NextAlike(s, t, HEAD, n);
      AddedAlike(SetNext(s, HEAD, n), SetNext(t, HEAD, n), n);
      OpAlike(NoteAdded(SetNext(s, HEAD, n), n), NoteAdded(SetNext(t, HEAD, n), n), Adding(3, n));
    } else {
      PrevAlike(s, t, s.next[n], n);
      OpAlike(SetPrev(s, s.next[n], n), SetPrev(t, s.next[n], n), Idle);
    }
  }

  /** The store of list_replace_rcu at `pc`. */
  function ReplacingStore(s: State, pc: nat, orig: Addr, n: Addr): State {
    if pc == 0 then FillNext(s, orig, n)
    else if pc == 1 then FillPrev(s, orig, n)
    else if pc == 2 then PublishCopy(s, orig, n)
    else if pc == 3 then Relink(s, n)
    else SetPrev(s, orig, POISON)
  }

  lemma ReplacingStoresAlike(s: State, t: State, pc: nat, orig: Addr, n: Addr)
    requires Same(s, t)
    ensures Same(ReplacingStore(s, pc, orig, n), ReplacingStore(t, pc, orig, n))
  {
    assert SameMachine(s, t);
    hide Same, SetNext, SetPrev, NoteReplaced, Crash;
    CrashAlike(s, t);
    if pc == 0 {
      if orig in s.next { NextAlike(s, t, n, s.next[orig]); }
    } else if pc == 1 {
      if orig in s.prev { PrevAlike(s, t, n, s.prev[orig]); }
    } else if pc == 2 {
      if n in s.prev {
        NextAlike(s, t, s.prev[n], n);
        ReplacedAlike(SetNext(s, s.prev[n], n), SetNext(t, s.prev[n], n), orig, n);
      }
    } else if pc == 3 {
      if n in s.next { PrevAlike(s, t, s.next[n], n); }
    } else {
      PrevAlike(s, t, orig, POISON);
    }
  }

  lemma ReplacingAlike(s: State, t: State, pc: nat, kind: Kind, id: int, async: bool, orig: Addr, n: Addr)
    requires Same(s, t)
    ensures Same(StepReplacing(s, pc, kind, id, async, orig, n), StepReplacing(t, pc, kind, id, async, orig, n))
  {
    var u, v := ReplacingStore(s, pc, orig, n), ReplacingStore(t, pc, orig, n);
    ReplacingStoresAlike(s, t, pc, orig, n);
    assert u.fault == v.fault;
    hide Same, FillNext, FillPrev, PublishCopy, Relink, SetPrev;
    OpAlike(u, v, if pc <= 3 then Replacing(pc + 1, kind, id, async, orig, n) else Retiring(async, orig));
  }

  lemma DeletingAlike(s: State, t: State, pc: nat, id: int, async: bool, orig: Addr)
    requires Same(s, t)
    ensures Same(StepDeleting(s, pc, id, async, orig), StepDeleting(t, pc, id, async, orig))
  {
    assert SameMachine(s, t);
    hide Same, SetNext, SetPrev, NoteRemoved, Crash;
    CrashAlike(s, t);
    if orig !in s.next || orig !in s.prev { return; }
    var p, n := s.prev[orig], s.next[orig];
    if pc == 0 {
      PrevAlike(s, t, n, p);
      OpAlike(SetPrev(s, n, p), SetPrev(t, n, p), Deleting(1, id, async, orig));
    } else if pc == 1 {
      NextAlike(s, t, p, n);
      RemovedAlike(SetNext(s, p, n), SetNext(t, p, n), orig);
      OpAlike(NoteRemoved(SetNext(s, p, n), orig), NoteRemoved(SetNext(t, p, n), orig), Deleting(2, id, async, orig));
    } else {
      PrevAlike(s, t, orig, POISON);
      OpAlike(SetPrev(s, orig, POISON), SetPrev(t, orig, POISON), Retiring(async, orig));
    }
  }

  lemma KzallocAlike(s: State, t: State, a: Addr, rec: Record, next: Addr, prev: Addr)
    requires Same(s, t)
    ensures Same(Kzalloc(s, a, rec, next, prev), Kzalloc(t, a, rec, next, prev))
  {
    hide SameReaders;
  }

  lemma KfreeAlike(s: State, t: State, a: Addr)
    requires Same(s, t)
    ensures Same(Kfree(s, a), Kfree(t, a))
  {
    hide SameReaders;
    if a !in s.next { return; }
  }

  lemma FoundAlike(s: State, t: State, kind: Kind, id: int, async: bool, orig: Addr, a: Addr)
    requires Same(s, t)
    ensures Same(StepFound(s, kind, id, async, orig, a), StepFound(t, kind, id, async, orig, a))
  {
    assert SameMachine(s, t);
    hide Same, Kzalloc, Crash;
    CrashAlike(s, t);
    if orig !in s.next || orig !in s.prev || orig !in s.rec { return; }
    OpAlike(s, t, Idle);
    if !Allocatable(s, a) { return; }
    var rec := s.rec[orig].(borrow := if kind == Borrow then 1 else 0);
    KzallocAlike(s, t, a, rec, s.next[orig], s.prev[orig]);
    OpAlike(Kzalloc(s, a, rec, s.next[orig], s.prev[orig]), Kzalloc(t, a, rec, s.next[orig], s.prev[orig]),
            Replacing(0, kind, id, async, orig, a));
  }

  lemma SeekingAlike(s: State, t: State, kind: Kind, id: int, async: bool, at: Addr)
    requires Same(s, t)
    ensures Same(StepSeeking(s, kind, id, async, at), StepSeeking(t, kind, id, async, at))
  {
    assert SameMachine(s, t);
    hide Same, SeekOn, Crash;
    CrashAlike(s, t);
    if at !in s.next || (s.next[at] != HEAD && s.next[at] !in s.rec) { return; }
    OpAlike(s, t, SeekOn(s.next[at], if s.next[at] in s.rec then s.rec[s.next[at]] else NO_RECORD, kind, id, async));
  }

  lemma GraceAlike(s: State, t: State, grace: map<Addr, set<Reader>>, queue: set<Addr>, op: Op)
    requires Same(s, t)
    ensures Same(s.(grace := grace, queue := queue, op := op), t.(grace := grace, queue := queue, op := op))
  {
    hide SameReaders;
  }

  lemma RetiringAlike(s: State, t: State, async: bool, orig: Addr)
    requires Same(s, t)
    ensures Same(StepRetiring(s, async, orig), StepRetiring(t, async, orig))
  {
    assert SameMachine(s, t) && s.readers.Keys == t.readers.Keys;
    CrashAlike(s, t);
    hide Same, Crash;
    var grace := s.grace[orig := s.readers.Keys];
    if async {
      GraceAlike(s, t, grace, s.queue + {orig}, Idle);
    } else {
      GraceAlike(s, t, grace, s.queue, Syncing(orig));
      assert s.(grace := grace, op := Syncing(orig)) == s.(grace := grace, queue := s.queue, op := Syncing(orig));
      assert t.(grace := grace, op := Syncing(orig)) == t.(grace := grace, queue := s.queue, op := Syncing(orig));
    }
  }

  lemma SyncingAlike(s: State, t: State, orig: Addr)
    requires Same(s, t)
    ensures Same(StepSyncing(s, orig), StepSyncing(t, orig)) && Same(StepCallback(s, orig), StepCallback(t, orig))
  {
    assert SameMachine(s, t);
    KfreeAlike(s, t, orig);
    hide Same, Kfree;
    OpAlike(Kfree(s, orig), Kfree(t, orig), Idle);
  }

  lemma UpdatesAlike(s: State, t: State, a: Addr)
    requires Same(s, t)
    ensures Same(StepUpdate(s, a), StepUpdate(t, a))
  {
    assert s.op == t.op;
    hide Same, StepAdding, StepSeeking, StepFound, StepReplacing, StepDeleting, StepRetiring, StepSyncing;
    match s.op {
      case Idle =>
      case Adding(pc, n) => AddingAlike(s, t, pc, n);
      case Seeking(kind, id, async, at) => SeekingAlike(s, t, kind, id, async, at);
      case Found(kind, id, async, orig) => FoundAlike(s, t, kind, id, async, orig, a);
      case Replacing(pc, kind, id, async, orig, n) => ReplacingAlike(s, t, pc, kind, id, async, orig, n);
      case Deleting(pc, id, async, orig) => DeletingAlike(s, t, pc, id, async, orig);
      case Retiring(async, orig) => RetiringAlike(s, t, async, orig);
      case Syncing(orig) => SyncingAlike(s, t, orig);
    }
  }

  lemma ReaderAlike(s: State, t: State, r: Reader, c: Cursor, d: Cursor)
    requires Same(s, t) && SameCursor(c, d)
    ensures Same(s.(readers := s.readers[r := c]), t.(readers := t.readers[r := d]))
  {
    hide SameCursor;
  }

  lemma VisitAlike(c: Cursor, d: Cursor, at: Addr, v: Visit, w: Visit)
    requires SameCursor(c, d) && v.rec == w.rec
    ensures SameCursor(c.(at := at, visited := c.visited + [v]), d.(at := at, visited := d.visited + [w]))
    ensures SameCursor(c.(at := HEAD, done := true), d.(at := HEAD, done := true))
  {
  }

  lemma AdvanceAlike(s: State, t: State, r: Reader)
    requires Same(s, t)
    ensures Same(StepAdvance(s, r), StepAdvance(t, r))
  {
    assert SameMachine(s, t) && s.readers.Keys == t.readers.Keys;
    assert r in s.readers <==> r in s.readers.Keys;
    CrashAlike(s, t);
    if r !in s.readers { return; }
    var c, d := s.readers[r], t.readers[r];
    assert SameCursor(c, d) && c.done == d.done && c.at == d.at;
    hide Same, SlotOf, Crash, SameCursor;
    if c.done || c.at !in s.next { return; }
    var n := s.next[c.at];
    if n != HEAD && n !in s.rec { return; }
    var rec := if n in s.rec then s.rec[n] else NO_RECORD;
    var v, w := Visit(SlotOf(s.slot, n), rec), Visit(SlotOf(t.slot, n), rec);
    VisitAlike(c, d, n, v, w);
    if n == HEAD {
      ReaderAlike(s, t, r, c.(at := HEAD, done := true), d.(at := HEAD, done := true));
    } else {
      ReaderAlike(s, t, r, c.(at := n, visited := c.visited + [v]), d.(at := n, visited := d.visited + [w]));
    }
  }

  lemma SectionsAlike(s: State, t: State, r: Reader)
    requires Same(s, t)
    ensures Same(StepReadLock(s, r), StepReadLock(t, r)) && Same(StepReadUnlock(s, r), StepReadUnlock(t, r))
  {
    hide SlotsOf, VisitsOf;
  }

  lemma AddAlike(s: State, t: State, rec: Record, a: Addr)
    requires Same(s, t)
    ensures Same(StepAdd(s, rec, a), StepAdd(t, rec, a))
  {
    assert SameMachine(s, t);
    KzallocAlike(s, t, a, rec.(borrow := 0), NULL, NULL);
    hide Same, Kzalloc;
    OpAlike(Kzalloc(s, a, rec.(borrow := 0), NULL, NULL), Kzalloc(t, a, rec.(borrow := 0), NULL, NULL), Adding(0, a));
  }

  lemma StepAlike(s: State, t: State, e: Event)
    requires Same(s, t)
    ensures Same(Step(s, e), Step(t, e))
  {
    assert s.op == t.op;
    hide StepAdd, StepUpdate, StepAdvance, StepReadLock, StepReadUnlock, StepCallback, Same;
    match e {
      case Add(rec, a) => AddAlike(s, t, rec, a);
      case Call(kind, id, async) => OpAlike(s, t, Seeking(kind, id, async, HEAD));
      case Update(a) => UpdatesAlike(s, t, a);
      case Callback(b) => SyncingAlike(s, t, b);
      case ReadLock(r) => SectionsAlike(s, t, r);
      case Advance(r) => AdvanceAlike(s, t, r);
      case ReadUnlock(r) => SectionsAlike(s, t, r);
    }
  }

  /** Whatever the history says at the start, memory, updater, readers and what they see develop
      in the same way. */
  lemma {:induction false} HistoryIsPassive(s: State, t: State, es: seq<Event>)
    requires Same(s, t)
    ensures Same(Exec(Step, s, es), Exec(Step, t, es))
    decreases |es|
  {
    hide Step, Same;
    if es != [] {
      HistoryIsPassive(s, t, es[..|es| - 1]);
      StepAlike(Exec(Step, s, es[..|es| - 1]), Exec(Step, t, es[..|es| - 1]), es[|es| - 1]);
    }
  }
}
