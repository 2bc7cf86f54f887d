/** What the RCU list guarantees: no run touches or frees memory wrongly, every traversal ends
    and is exact, and the updater's calls act on the catalogue like sequential ones. */
module RcuListTheorems {
  import opened Runs
  import opened RcuList
  import opened RcuListInvariant
  import opened RcuListSteps
  import opened RcuListUpdates
  import opened RcuListPublish

  // ----- every step, every run -----

  lemma UpdateKeeps(s: State, a: Addr)
    requires Inv(s)
    ensures Inv(StepUpdate(s, a))
  {
    hide Inv, StepAdding, StepSeeking, StepFound, StepReplacing, StepDeleting, StepRetiring, StepSyncing;
    match s.op {
      case Idle =>
      case Adding(pc, _) => if pc == 2 { AddPublishes(s); } else { AddingQuiet(s); }
      case Seeking(_, _, _, _) => SeekingKeeps(s);
      case Found(_, _, _, _) => FoundKeeps(s, a);
      case Replacing(pc, _, _, _, _, _) => if pc == 2 { ReplacePublishes(s); } else { ReplacingQuiet(s); }
      case Deleting(pc, _, _, _) => if pc == 1 { DeleteUnlinks(s); } else { DeletingQuiet(s); }
      case Retiring(_, _) => RetiringKeeps(s);
      case Syncing(_) => SyncingKeeps(s);
    }
  }

  lemma CallKeeps(s: State, kind: Kind, id: int, async: bool)
    requires Inv(s) && s.op == Idle
    ensures Inv(s.(op := Seeking(kind, id, async, HEAD)))
  {
    hide ViewOk, MemoryOk, BackLinked;
    QuietStoreKeeps(s, s.(op := Seeking(kind, id, async, HEAD)));
  }

  lemma StepKeeps(s: State, e: Event)
    requires Inv(s)
    ensures Inv(Step(s, e))
  {
    hide Inv, StepAdd, StepUpdate, StepCallback, StepReadLock, StepAdvance, StepReadUnlock;
    match e {
      case Add(rec, a) => AddKeeps(s, rec, a);
      case Call(kind, id, async) => if s.op == Idle { CallKeeps(s, kind, id, async); }
      case Update(a) => UpdateKeeps(s, a);
      case Callback(b) => CallbackKeeps(s, b);
      case ReadLock(r) => LockKeeps(s, r);
      case Advance(r) => AdvanceKeeps(s, r);
      case ReadUnlock(r) => UnlockKeeps(s, r);
    }
  }

  /** The invariant holds after every run. */
  lemma Reached(es: seq<Event>)
    ensures Inv(Exec(Step, INIT, es))
  {
    forall s, e | Inv(s) ensures Inv(Step(s, e)) { StepKeeps(s, e); }
    assert Inv(INIT);
    hide Inv, Step;
    Always(Step, Inv, INIT, es);
  }

  /** The state a run reaches. */
  function Reach(es: seq<Event>): State { Exec(Step, INIT, es) }

  lemma ReachOneMore(es: seq<Event>, e: Event)
    ensures Reach(es + [e]) == Step(Reach(es), e)
  {
    hide Step;
    ExecOneMore(Step, INIT, es, e);
  }

  lemma ReachOk(es: seq<Event>)
    ensures Inv(Reach(es))
  {
    hide Inv, Step;
    Reached(es);
  }

  /** No run reads, writes or frees an unallocated address, or retires a book twice. */
  lemma NeverFaults(es: seq<Event>)
    ensures !Exec(Step, INIT, es).fault
  {
    Reached(es);
  }

  // ----- memory -----

  /** Where following `j` next pointers leads. */
  function Path(next: map<Addr, Addr>, a: Addr, j: nat): Addr
    decreases j
  {
    if j == 0 || a !in next then a else Path(next, next[a], j - 1)
  }

  /** A place where reader `r` may stand. */
  ghost predicate MayStand(s: State, r: Reader, a: Addr) {
    a == HEAD || a in s.list || (a in s.holders && r in s.holders[a])
  }

  lemma StandingIsSafe(s: State, r: Reader, a: Addr)
    requires ViewOk(s) && MayStand(s, r, a)
    ensures a in s.next && MayStand(s, r, s.next[a])
  {
    hide ReaderOk, Stocked, Sorted, NoSkip;
    if a in s.list {
      var i :| 0 <= i < |s.list| && s.list[i] == a;
      LinkedAt(s, i);
    } else if a != HEAD {
      assert Stale(s, a);
    }
  }

  /** Everything that can be reached from a reader's cursor is allocated. */
  lemma {:induction false} PathIsSafe(s: State, r: Reader, a: Addr, j: nat)
    requires ViewOk(s) && MayStand(s, r, a)
    ensures Path(s.next, a, j) in s.next && MayStand(s, r, Path(s.next, a, j))
    decreases j
  {
    hide ViewOk;
    StandingIsSafe(s, r, a);
    if j > 0 { PathIsSafe(s, r, s.next[a], j - 1); }
  }

  lemma CursorStands(s: State, r: Reader)
    requires ViewOk(s) && r in s.readers && !s.readers[r].done
    ensures MayStand(s, r, s.readers[r].at)
  {
    hide Stocked, Sorted, Linked, Stale, Complete, Covered, Genuine, Descending;
    assert ReaderOk(s, r, s.readers[r]);
  }

  /** After every run, for every reader under way: its cursor, and every node that can be
      reached from it along next pointers, is allocated. */
  lemma ReadersAreSafe(es: seq<Event>, r: Reader, j: nat)
    requires var s := Exec(Step, INIT, es); r in s.readers && !s.readers[r].done
    ensures var s := Exec(Step, INIT, es); Path(s.next, s.readers[r].at, j) in s.next
  {
    hide ViewOk, MemoryOk, UpdaterOk, Step, INIT;
    var s := Exec(Step, INIT, es);
    Reached(es);
    CursorStands(s, r);
    PathIsSafe(s, r, s.readers[r].at, j);
  }

  /** Memory is given back only by unlinked books whose grace period is over: then it is not
      listed and no reader under way stands on it. */
  lemma FreedWhenUnused(es: seq<Event>, e: Event, a: Addr)
    requires a in Exec(Step, INIT, es).next && a !in Step(Exec(Step, INIT, es), e).next
    ensures
      var s := Exec(Step, INIT, es);
      && a in s.grace && s.grace[a] == {} && a !in s.list
      && forall r :: r in s.readers && !s.readers[r].done ==> s.readers[r].at != a
  {
    var s := Exec(Step, INIT, es);
    Reached(es);
    FreedByKfree(s, e, a);
    hide Step, INIT, Linked, Sorted, Stocked, UpdaterOk, Partition, SameKeys;
    forall r | r in s.readers && !s.readers[r].done ensures s.readers[r].at != a {
      CursorStands(s, r);
      NobodyHolds(s, a);
    }
    NobodyHolds(s, a);
  }

  /** When no reader is under way, a queued callback frees its book, and so does an updater that waits;
      it is then done. */
  lemma FreedWithoutReaders(es: seq<Event>)
    requires Exec(Step, INIT, es).readers == map[]
    ensures
      var s := Exec(Step, INIT, es);
      && (forall b :: b in s.queue ==> b in s.next && b !in Step(s, Callback(b)).next)
      && (s.op.Syncing? ==>
            var t := Step(s, Update(0));
            s.op.orig in s.next && s.op.orig !in t.next && t.op == Idle)
  {
    var s := Exec(Step, INIT, es);
    Reached(es);
    hide INIT, ViewOk, UpdaterOk, Partition, SameKeys, GraceOk, StepUpdate, StepCallback, StepAdd, StepReadLock,
         StepAdvance, StepReadUnlock;
    forall b | b in s.queue ensures b in s.next && b !in Step(s, Callback(b)).next { FreesQueued(s, b); }
    if s.op.Syncing? { FreesWaited(s); }
  }

  lemma FreesQueued(s: State, b: Addr)
    requires MemoryOk(s) && s.readers == map[] && b in s.queue
    ensures b in s.next && b !in StepCallback(s, b).next
  {
    assert b in s.grace.Keys && b in s.holders.Keys;
  }

  lemma FreesWaited(s: State)
    requires MemoryOk(s) && s.readers == map[] && s.op.Syncing?
    ensures s.op.orig in s.next && s.op.orig !in StepUpdate(s, 0).next && StepUpdate(s, 0).op == Idle
  {
    assert s.op.orig in Waiting(s.op);
    assert s.op.orig in s.grace.Keys && s.op.orig in s.holders.Keys;
  }

  /** Between two calls nothing is allocated but the head, the listed books, and what waits for its
      callback. */
  lemma NothingLeaks(es: seq<Event>)
    requires Exec(Step, INIT, es).op == Idle
    ensures
      var s := Exec(Step, INIT, es);
      forall a :: a in s.next <==> a == HEAD || a in s.list || a in s.queue
  {
    var s := Exec(Step, INIT, es);
    Reached(es);
    hide INIT, Step, ViewOk, UpdaterOk;
    NoOthers(s);
  }

  lemma NoOthers(s: State)
    requires MemoryOk(s) && s.op == Idle
    ensures forall a :: a in s.next <==> a == HEAD || a in s.list || a in s.queue
  {
    assert Pending(s.op) == {} && Waiting(s.op) == {} && Private(s.op) == {};
    assert s.holders.Keys == s.queue;
  }

  lemma FreedByKfree(s: State, e: Event, a: Addr)
    requires Inv(s) && a in s.next && a !in Step(s, e).next
    ensures Freeable(s, a)
  {
    hide ViewOk, Partition, SameKeys, UpdaterOk, StepUpdate, StepAdd, StepCallback, StepReadLock, StepAdvance,
         StepReadUnlock;
    match e {
      case Update(b) => UpdateFrees(s, b, a);
      case Callback(b) => CallbackFrees(s, b, a);
      case _ =>
    }
  }

  lemma CallbackFrees(s: State, b: Addr, a: Addr)
    requires GraceOk(s) && a in s.next && a !in StepCallback(s, b).next
    ensures Freeable(s, a)
  {
    assert b in s.queue ==> b in s.grace;
  }

  lemma UpdateFrees(s: State, b: Addr, a: Addr)
    requires GraceOk(s) && a in s.next && a !in StepUpdate(s, b).next
    ensures Freeable(s, a)
  {
    hide StepAdding, StepSeeking, StepFound, StepReplacing, StepDeleting, StepRetiring;
    assert s.op.Syncing? by { OtherStepsKeep(s, b); }
    assert s.op.orig in Waiting(s.op);
  }

  lemma OtherStepsKeep(s: State, b: Addr)
    ensures s.op.Syncing? || s.next.Keys <= StepUpdate(s, b).next.Keys
  {
    hide StepAdding, StepSeeking, StepFound, StepReplacing, StepDeleting, StepRetiring, StepSyncing;
    match s.op {
      case Replacing(pc, kind, id, async, orig, n) => ReplacingKeys(s, pc, kind, id, async, orig, n);
      case _ =>
    }
  }

  lemma ReplacingKeys(s: State, pc: nat, kind: Kind, id: int, async: bool, orig: Addr, n: Addr)
    ensures s.next.Keys <= StepReplacing(s, pc, kind, id, async, orig, n).next.Keys
  {
    hide FillNext, FillPrev, PublishCopy, Relink, SetPrev;
    if pc == 2 { return; }
    if pc == 0 { return; }
    if pc == 1 { return; }
  }

  // ----- one traversal -----

  /** A section of reader `r`: it begins after `before` and is still under way after `during`. */
  ghost predicate Section(before: seq<Event>, r: Reader, during: seq<Event>) {
    && r !in Exec(Step, INIT, before).readers
    && forall i :: 0 <= i < |during| ==> during[i] != ReadUnlock(r)
  }

  /** The state after `i` events of the section. */
  ghost function At(before: seq<Event>, r: Reader, during: seq<Event>, i: nat): State
    requires i <= |during|
  {
    Exec(Step, Step(Exec(Step, INIT, before), ReadLock(r)), during[..i])
  }

  lemma AtIsReached(before: seq<Event>, r: Reader, during: seq<Event>, i: nat)
    requires i <= |during|
    ensures Inv(At(before, r, during, i))
  {
    hide Inv, Step, INIT;
    ExecOneMore(Step, INIT, before, ReadLock(r));
    ExecConcat(Step, INIT, before + [ReadLock(r)], during[..i]);
    Reached(before + [ReadLock(r)] + during[..i]);
  }

  lemma AtNext(before: seq<Event>, r: Reader, during: seq<Event>, i: nat)
    requires i < |during|
    ensures At(before, r, during, i + 1) == Step(At(before, r, during, i), during[i])
  {
    hide Step, INIT;
    assert during[..i + 1] == during[..i] + [during[i]];
    ExecOneMore(Step, Step(Exec(Step, INIT, before), ReadLock(r)), during[..i], during[i]);
  }

  // ----- what one step does to a section -----

  /** The section goes on; it forgets a slot only when that slot is unlisted, and notes only
      what is listed. */
  ghost predicate Continues(s: State, t: State, r: Reader) {
    && r in s.readers && r in t.readers
    && var c, d := s.readers[r], t.readers[r];
       && c.visited <= d.visited && (c.done ==> d.done && d.visited == c.visited)
       && (forall k :: k in c.through && k in SlotsOf(t.slot, t.list) ==> k in d.through)
       && (forall v :: v in d.current ==> v in c.current || v in VisitsOf(t))
  }

  lemma SameCursor(s: State, t: State, r: Reader)
    requires r in s.readers && r in t.readers && t.readers[r] == s.readers[r]
    ensures Continues(s, t, r)
  {
    hide SlotsOf, VisitsOf;
  }

  lemma UpdateContinues(s: State, a: Addr, r: Reader)
    requires Inv(s) && r in s.readers
    ensures Continues(s, StepUpdate(s, a), r)
  {
    hide ViewOk, MemoryOk, UpdaterOk, Continues;
    if s.op.Adding? && s.op.pc == 2 {
      AddContinues(s, r);
    } else if s.op.Replacing? && s.op.pc == 2 {
      ReplaceContinues(s, r);
    } else if s.op.Deleting? && s.op.pc == 1 {
      DeleteContinues(s, r);
    } else {
      QuietReaders(s, a);
      SameCursor(s, StepUpdate(s, a), r);
    }
  }

  lemma QuietReaders(s: State, a: Addr)
    requires !(s.op.Adding? && s.op.pc == 2) && !(s.op.Replacing? && s.op.pc == 2) && !(s.op.Deleting? && s.op.pc == 1)
    ensures StepUpdate(s, a).readers == s.readers && StepUpdate(s, a).list == s.list
  {
    hide StepAdding, StepSeeking, StepFound, StepReplacing, StepDeleting, StepRetiring, StepSyncing;
    match s.op {
      case Adding(pc, n) => AddingReaders(s, pc, n);
      case Replacing(pc, kind, id, async, orig, n) => ReplacingReaders(s, pc, kind, id, async, orig, n);
      case Deleting(pc, id, async, orig) => DeletingReaders(s, pc, id, async, orig);
      case Retiring(async, orig) => RetiringReaders(s, async, orig);
      case _ =>
    }
  }

  lemma AddingReaders(s: State, pc: nat, n: Addr)
    ensures pc != 2 ==> Unnoticed(s, StepAdding(s, pc, n))
  {
    hide NoteAdded;
    if HEAD !in s.next || n !in s.next { return; }
    if pc == 0 { return; }
    if pc == 1 { return; }
  }

  lemma ReplacingReaders(s: State, pc: nat, kind: Kind, id: int, async: bool, orig: Addr, n: Addr)
    ensures pc != 2 ==> Unnoticed(s, StepReplacing(s, pc, kind, id, async, orig, n))
  {
    hide FillNext, FillPrev, PublishCopy, Relink, SetPrev;
    if pc == 0 { return; }
    if pc == 1 { return; }
    if pc == 3 { return; }
  }

  lemma DeletingReaders(s: State, pc: nat, id: int, async: bool, orig: Addr)
    ensures pc != 1 ==> Unnoticed(s, StepDeleting(s, pc, id, async, orig))
  {
    hide NoteRemoved;
    if orig !in s.next || orig !in s.prev { return; }
    if pc == 0 { return; }
  }

  lemma RetiringReaders(s: State, async: bool, orig: Addr)
    ensures Unnoticed(s, StepRetiring(s, async, orig))
  {
    if orig in s.grace { return; }
    if async { return; }
  }

  lemma AddContinues(s: State, r: Reader)
    requires Inv(s) && r in s.readers && s.op.Adding? && s.op.pc == 2
    ensures Continues(s, StepUpdate(s, 0), r)
  {
    hide StepSeeking, StepFound, StepReplacing, StepDeleting, StepRetiring, StepSyncing, ViewOk, BackLinked;
    var n, t := s.op.n, StepUpdate(s, 0);
    Owns(s, HEAD);
    PrivateFields(s, n);
    assert t == Added(s, n);
    assert t.list[0] == n;
    assert Visit(SlotOf(t.slot, n), Lookup(t.rec, n)) in VisitsOf(t);
  }

  lemma ReplaceContinues(s: State, r: Reader)
    requires Inv(s) && r in s.readers && s.op.Replacing? && s.op.pc == 2
    ensures Continues(s, StepUpdate(s, 0), r)
  {
    hide StepAdding, StepSeeking, StepFound, StepDeleting, StepRetiring, StepSyncing, ViewOk, MemoryOk, BackLinked;
    var n, t := s.op.n, StepUpdate(s, 0);
    var k := IndexOf(s.list, s.op.orig);
    ReplaceReady(s);
    assert t.list[k] == n;
    assert Visit(SlotOf(t.slot, n), Lookup(t.rec, n)) in VisitsOf(t);
  }

  lemma DeleteContinues(s: State, r: Reader)
    requires Inv(s) && r in s.readers && s.op.Deleting? && s.op.pc == 1
    ensures Continues(s, StepUpdate(s, 0), r)
  {
    hide StepAdding, StepSeeking, StepFound, StepReplacing, StepRetiring, StepSyncing, ViewOk, MemoryOk, BackLinked,
         BackLinkedExcept;
    var t := StepUpdate(s, 0);
    var k := IndexOf(s.list, s.op.orig);
    DeleteReady(s);
    RemovedSlotGone(s, k);
  }

  lemma RemovedSlotGone(s: State, k: nat)
    requires ViewOk(s) && k < |s.list|
    ensures SlotOf(s.slot, s.list[k]) !in SlotsOf(s.slot, s.list[..k] + s.list[k + 1..])
  {
    hide Stale, ReaderOk, Stocked, Linked;
    var l := s.list[..k] + s.list[k + 1..];
    forall i | 0 <= i < |l| ensures l[i] == s.list[Origin(k, i)] {}
  }

  lemma StepContinues(s: State, e: Event, r: Reader)
    requires Inv(s) && r in s.readers && e != ReadUnlock(r)
    ensures Continues(s, Step(s, e), r)
  {
    hide Inv, Continues, StepAdd, StepUpdate, StepAdvance, StepCallback;
    match e {
      case Update(a) => UpdateContinues(s, a, r);
      case Advance(q) => AdvanceContinues(s, q, r);
      case Callback(b) => CallbackReaders(s, b); SameCursor(s, Step(s, e), r);
      case Add(rec, a) => AddReaders(s, rec, a); SameCursor(s, Step(s, e), r);
      case _ => SameCursor(s, Step(s, e), r);
    }
  }

  lemma AdvanceContinues(s: State, q: Reader, r: Reader)
    requires r in s.readers
    ensures Continues(s, StepAdvance(s, q), r)
  {
    hide SlotsOf, VisitsOf, SlotOf;
    if q in s.readers && !s.readers[q].done && s.readers[q].at in s.next {
      var n := s.next[s.readers[q].at];
      if n == HEAD {} else if n in s.rec {}
    }
  }

  lemma CallbackReaders(s: State, b: Addr)
    ensures StepCallback(s, b).readers == s.readers
  {
  }

  lemma AddReaders(s: State, rec: Record, a: Addr)
    ensures StepAdd(s, rec, a).readers == s.readers
  {
  }

  lemma SectionGoesOn(before: seq<Event>, r: Reader, during: seq<Event>, i: nat)
    requires Section(before, r, during) && i < |during| && r in At(before, r, during, i).readers
    ensures Continues(At(before, r, during, i), At(before, r, during, i + 1), r)
  {
    hide Inv, Continues, At, Step, INIT;
    AtIsReached(before, r, during, i);
    AtNext(before, r, during, i);
    StepContinues(At(before, r, during, i), during[i], r);
  }

  /** The section is under way after every event of it. */
  lemma {:induction false} UnderWay(before: seq<Event>, r: Reader, during: seq<Event>, i: nat)
    requires Section(before, r, during) && i <= |during|
    ensures r in At(before, r, during, i).readers
  {
    if i > 0 {
      hide At, Step, INIT;
      UnderWay(before, r, during, i - 1);
      SectionGoesOn(before, r, during, i - 1);
    } else {
      hide Inv, INIT;
      assert during[..0] == [];
    }
  }

  /** What a finished (or unfinished) traversal has seen. */
  ghost function Seen(before: seq<Event>, r: Reader, during: seq<Event>): (c: Cursor)
    requires Section(before, r, during)
  {
    UnderWay(before, r, during, |during|);
    At(before, r, during, |during|).readers[r]
  }

  /** Slot `k` is listed at every moment of the section. */
  ghost predicate ListedThroughout(before: seq<Event>, r: Reader, during: seq<Event>, k: nat) {
    forall i :: 0 <= i <= |during| ==> ListedAt(before, r, during, i, k)
  }

  ghost predicate ListedAt(before: seq<Event>, r: Reader, during: seq<Event>, i: nat, k: nat)
    requires i <= |during|
  {
    k in SlotsOf(At(before, r, during, i).slot, At(before, r, during, i).list)
  }

  lemma {:induction false} ThroughIsListed(before: seq<Event>, r: Reader, during: seq<Event>, k: nat, i: nat)
    requires Section(before, r, during) && ListedThroughout(before, r, during, k) && i <= |during|
    ensures r in At(before, r, during, i).readers && k in At(before, r, during, i).readers[r].through
  {
    assert ListedAt(before, r, during, i, k);
    UnderWay(before, r, during, i);
    if i > 0 {
      hide At, Step, INIT, SlotsOf;
      ThroughIsListed(before, r, during, k, i - 1);
      SectionGoesOn(before, r, during, i - 1);
    } else {
      hide Inv, INIT, SlotsOf, VisitsOf;
      assert during[..0] == [];
    }
  }

  lemma {:induction false} CurrentWasListed(before: seq<Event>, r: Reader, during: seq<Event>, v: Visit, i: nat)
    requires Section(before, r, during) && i <= |during|
    requires r in At(before, r, during, i).readers && v in At(before, r, during, i).readers[r].current
    ensures exists j :: 0 <= j <= i && WasListed(before, r, during, j, v)
  {
    if i > 0 {
      hide At, Step, INIT, VisitsOf;
      UnderWay(before, r, during, i - 1);
      SectionGoesOn(before, r, during, i - 1);
      if v in VisitsOf(At(before, r, during, i)) {
        assert WasListed(before, r, during, i, v);
      } else {
        CurrentWasListed(before, r, during, v, i - 1);
      }
    } else {
      hide Inv, INIT, SlotsOf, VisitsOf;
      assert during[..0] == [];
      LockVisits(Exec(Step, INIT, before), r);
      assert WasListed(before, r, during, 0, v);
    }
  }

  /** Slot and content of `v` are on the list after `j` events of the section. */
  ghost predicate WasListed(before: seq<Event>, r: Reader, during: seq<Event>, j: nat, v: Visit) {
    j <= |during| && v in VisitsOf(At(before, r, during, j))
  }

  lemma AtIsOk(before: seq<Event>, r: Reader, during: seq<Event>)
    requires Section(before, r, during)
    ensures var s := At(before, r, during, |during|); r in s.readers && ReaderOk(s, r, s.readers[r])
  {
    UnderWay(before, r, during, |during|);
    AtIsReached(before, r, during, |during|);
    hide Stale, Stocked, Linked, Sorted, MemoryOk, UpdaterOk, At, ReaderOk;
  }

  /** A finished traversal has visited every book that was listed throughout its section,
      original or copy, exactly once, and everything it visited in list order. */
  lemma TraversalIsComplete(before: seq<Event>, r: Reader, during: seq<Event>, k: nat)
    requires Section(before, r, during) && Seen(before, r, during).done
    requires ListedThroughout(before, r, during, k)
    ensures var visited := Seen(before, r, during).visited;
      && (exists i :: 0 <= i < |visited| && visited[i].slot == k)
      && (forall i, j :: 0 <= i < j < |visited| ==> visited[i].slot > visited[j].slot)
  {
    AtIsOk(before, r, during);
    ThroughIsListed(before, r, during, k, |during|);
    hide At, Genuine, Covered, Standing;
  }

  /** Everything a traversal has visited, finished or not, was on the list with exactly that
      content at some moment of the section. */
  lemma VisitsAreCurrent(before: seq<Event>, r: Reader, during: seq<Event>, i: nat)
    requires Section(before, r, during) && i < |Seen(before, r, during).visited|
    ensures exists j :: 0 <= j <= |during| && WasListed(before, r, during, j, Seen(before, r, during).visited[i])
  {
    AtIsOk(before, r, during);
    hide At, Complete, Covered, Standing, Descending;
    CurrentWasListed(before, r, during, Seen(before, r, during).visited[i], |during|);
  }

  lemma LockVisits(s: State, r: Reader)
    ensures VisitsOf(StepReadLock(s, r)) == VisitsOf(s)
  {
  }

  /** How often `e` happens. */
  function Count(es: seq<Event>, e: Event): nat {
    if es == [] then 0 else Count(es[..|es| - 1], e) + if es[|es| - 1] == e then 1 else 0
  }

  lemma CountNext(es: seq<Event>, i: nat, e: Event)
    requires 0 < i <= |es|
    ensures Count(es[..i], e) == Count(es[..i - 1], e) + if es[i - 1] == e then 1 else 0
  {
    assert es[..i][..i - 1] == es[..i - 1];
  }

  /** As long as a traversal is not finished, each of its moves visits one more book. */
  lemma {:induction false} MovesVisit(before: seq<Event>, r: Reader, during: seq<Event>, i: nat)
    requires Section(before, r, during) && i <= |during|
    requires r in At(before, r, during, i).readers && !At(before, r, during, i).readers[r].done
    ensures |At(before, r, during, i).readers[r].visited| == Count(during[..i], Advance(r))
  {
    if i == 0 {
      VisitsNothingYet(before, r, during);
    } else {
      hide At, Step, INIT, Inv;
      UnderWay(before, r, during, i - 1);
      assert !At(before, r, during, i - 1).readers[r].done by { SectionGoesOn(before, r, during, i - 1); }
      MovesVisit(before, r, during, i - 1);
      AtIsReached(before, r, during, i - 1);
      AtNext(before, r, during, i - 1);
      MoveVisits(At(before, r, during, i - 1), during[i - 1], r);
      CountNext(during, i, Advance(r));
    }
  }

  lemma VisitsNothingYet(before: seq<Event>, r: Reader, during: seq<Event>)
    requires Section(before, r, during)
    ensures r in At(before, r, during, 0).readers && At(before, r, during, 0).readers[r].visited == []
    ensures Count(during[..0], Advance(r)) == 0
  {
    hide INIT, SlotsOf, VisitsOf;
    assert during[..0] == [];
  }

  lemma MoveVisits(s: State, e: Event, r: Reader)
    requires Inv(s) && r in s.readers && !s.readers[r].done && e != ReadUnlock(r)
    requires r in Step(s, e).readers && !Step(s, e).readers[r].done
    ensures |Step(s, e).readers[r].visited| == |s.readers[r].visited| + if e == Advance(r) then 1 else 0
  {
    hide Inv, StepAdd, StepUpdate, StepCallback, StepAdvance;
    if e == Advance(r) {
      AdvanceVisits(s, r);
    } else {
      OthersDoNotMove(s, e, r);
    }
  }

  lemma AdvanceVisits(s: State, r: Reader)
    requires Inv(s) && r in s.readers && !s.readers[r].done
    ensures var t := StepAdvance(s, r);
      r in t.readers && (t.readers[r].done || |t.readers[r].visited| == |s.readers[r].visited| + 1)
  {
    hide ViewOk, MemoryOk, UpdaterOk, LeadsOn, SlotOf, SameBook;
    NextStop(s, r);
    if s.next[s.readers[r].at] == HEAD { return; }
  }

  lemma OthersDoNotMove(s: State, e: Event, r: Reader)
    requires Inv(s) && r in s.readers && e != ReadUnlock(r) && e != Advance(r)
    ensures r in Step(s, e).readers && Step(s, e).readers[r].visited == s.readers[r].visited
  {
    hide Inv, StepAdd, StepUpdate, StepAdvance, StepCallback;
    match e {
      case Update(a) => UpdatesDoNotMove(s, a, r);
      case Advance(q) => AdvanceAlone(s, q, r);
      case Callback(b) => CallbackReaders(s, b);
      case Add(rec, a) => AddReaders(s, rec, a);
      case _ =>
    }
  }

  lemma AdvanceAlone(s: State, q: Reader, r: Reader)
    requires r in s.readers && q != r
    ensures r in StepAdvance(s, q).readers && StepAdvance(s, q).readers[r] == s.readers[r]
  {
    if q !in s.readers || s.readers[q].done || s.readers[q].at !in s.next { return; }
    if s.next[s.readers[q].at] == HEAD { return; }
    if s.next[s.readers[q].at] !in s.rec { return; }
  }

  lemma UpdatesDoNotMove(s: State, a: Addr, r: Reader)
    requires Inv(s) && r in s.readers
    ensures r in StepUpdate(s, a).readers && StepUpdate(s, a).readers[r].visited == s.readers[r].visited
  {
    hide ViewOk, MemoryOk, UpdaterOk;
    if s.op.Adding? && s.op.pc == 2 {
      AddDoesNotMove(s, r);
    } else if s.op.Replacing? && s.op.pc == 2 {
      ReplaceDoesNotMove(s, r);
    } else if s.op.Deleting? && s.op.pc == 1 {
      DeleteDoesNotMove(s, r);
    } else {
      hide StepUpdate;
      QuietReaders(s, a);
    }
  }

  lemma AddDoesNotMove(s: State, r: Reader)
    requires Inv(s) && r in s.readers && s.op.Adding? && s.op.pc == 2
    ensures r in StepUpdate(s, 0).readers && StepUpdate(s, 0).readers[r].visited == s.readers[r].visited
  {
    hide StepSeeking, StepFound, StepReplacing, StepDeleting, StepRetiring, StepSyncing, ViewOk, BackLinked;
    Owns(s, HEAD);
    PrivateFields(s, s.op.n);
    assert StepUpdate(s, 0) == Added(s, s.op.n);
  }

  lemma ReplaceDoesNotMove(s: State, r: Reader)
    requires Inv(s) && r in s.readers && s.op.Replacing? && s.op.pc == 2
    ensures r in StepUpdate(s, 0).readers && StepUpdate(s, 0).readers[r].visited == s.readers[r].visited
  {
    hide StepAdding, StepSeeking, StepFound, StepDeleting, StepRetiring, StepSyncing, ViewOk, MemoryOk, BackLinked;
    ReplaceReady(s);
  }

  lemma DeleteDoesNotMove(s: State, r: Reader)
    requires Inv(s) && r in s.readers && s.op.Deleting? && s.op.pc == 1
    ensures r in StepUpdate(s, 0).readers && StepUpdate(s, 0).readers[r].visited == s.readers[r].visited
  {
    hide StepAdding, StepSeeking, StepFound, StepReplacing, StepRetiring, StepSyncing, ViewOk, MemoryOk, BackLinked,
         BackLinkedExcept;
    DeleteReady(s);
  }

  lemma {:induction false} DescendingIsShort(visited: seq<Visit>)
    requires Descending(visited) && visited != [] && forall i :: 0 <= i < |visited| ==> visited[i].slot >= 1
    ensures |visited| <= visited[0].slot
    decreases |visited|
  {
    if |visited| > 1 {
      assert visited[0].slot > visited[1].slot;
      DescendingIsShort(visited[1..]);
    }
  }

  /** A traversal ends, whatever the updater does meanwhile: its first move finds a book or the
      end, and it is finished after at most as many further moves as that book's slot says. */
  lemma TraversalEnds(before: seq<Event>, r: Reader, during: seq<Event>)
    requires Section(before, r, during)
    requires var visited := Seen(before, r, during).visited;
      Count(during, Advance(r)) > if visited == [] then 0 else visited[0].slot
    ensures Seen(before, r, during).done
  {
    AtIsOk(before, r, during);
    hide At, Complete, Covered, Standing, SameBook;
    assert during[..|during|] == during;
    var c := Seen(before, r, during);
    if !c.done {
      MovesVisit(before, r, during, |during|);
      if c.visited != [] { DescendingIsShort(c.visited); }
    }
  }
}
