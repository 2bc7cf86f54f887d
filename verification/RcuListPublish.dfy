/** The four steps of the RCU list that change what is listed or allocated: freeing, and the
    publishing store of each list primitive. */
module RcuListPublish {
  import opened Runs
  import opened RcuList
  import opened RcuListInvariant
  import opened RcuListSteps
  import opened RcuListUpdates

  // ----- freeing -----

  /** A book whose grace period is over. */
  ghost predicate Freeable(s: State, b: Addr) {
    b in s.grace && s.grace[b] == {}
  }

  lemma NobodyHolds(s: State, b: Addr)
    requires MemoryOk(s) && ViewOk(s) && Freeable(s, b)
    ensures b in s.holders && s.holders[b] == {} && b !in s.list && b > POISON && b in s.next
  {
    hide Partition, SameKeys, ReaderOk, Stocked, Linked, Sorted;
    assert Stale(s, b);
  }

  lemma KfreeView(s: State, t: State, b: Addr)
    requires MemoryOk(s) && ViewOk(s) && Freeable(s, b) && t == Kfree(s, b).(op := t.op)
    ensures ViewOk(t)
  {
    hide MemoryOk, Stale, ReaderOk, Stocked, Linked, Sorted;
    NobodyHolds(s, b);
    KfreeLinked(s, t, b);
    forall a | a in t.holders ensures Stale(t, a) { KfreeStale(s, t, b, a); }
    forall r | r in t.readers ensures ReaderOk(t, r, t.readers[r]) { KfreeReader(s, t, b, r); }
  }

  lemma KfreeLinked(s: State, t: State, b: Addr)
    requires MemoryOk(s) && ViewOk(s) && Freeable(s, b) && t == Kfree(s, b).(op := t.op)
    ensures Linked(t.next, t.list) && Stocked(t)
  {
    hide MemoryOk, Stale, ReaderOk, Stocked;
    NobodyHolds(s, b);
    forall i | 0 <= i < |t.list| ensures t.list[i] in t.next && t.next[t.list[i]] == Nth(t.list, i + 1) {
      LinkedAt(s, i);
    }
    KfreeStocked(s, t, b);
  }

  lemma KfreeStocked(s: State, t: State, b: Addr)
    requires Stocked(s) && b !in s.list && b in s.next && t == Kfree(s, b).(op := t.op)
    ensures Stocked(t)
  {
    hide SameBook;
    forall a | Reachable(t, a) ensures Reachable(s, a) && a != b {}
  }

  lemma KfreeStale(s: State, t: State, b: Addr, a: Addr)
    requires MemoryOk(s) && ViewOk(s) && Freeable(s, b) && t == Kfree(s, b).(op := t.op) && a in t.holders
    ensures Stale(t, a)
  {
    hide MemoryOk, ReaderOk, Stocked, Linked, Sorted;
    NobodyHolds(s, b);
    assert Stale(s, a);
  }

  lemma KfreeReader(s: State, t: State, b: Addr, r: Reader)
    requires MemoryOk(s) && ViewOk(s) && Freeable(s, b) && t == Kfree(s, b).(op := t.op) && r in s.readers
    ensures ReaderOk(t, r, t.readers[r])
  {
    hide MemoryOk, Stale, Stocked, Linked, Sorted, Complete, Genuine, Descending;
    NobodyHolds(s, b);
    assert ReaderOk(s, r, s.readers[r]);
    assert Complete(t, t.readers[r]) && Genuine(t, t.readers[r]) by { KfreeHistory(s, t, b, r); }
  }

  lemma KfreeHistory(s: State, t: State, b: Addr, r: Reader)
    requires t == Kfree(s, b).(op := t.op) && r in s.readers && Complete(s, s.readers[r]) && Genuine(s, s.readers[r])
    ensures Complete(t, t.readers[r]) && Genuine(t, t.readers[r])
  {
  }

  lemma KfreeMemory(s: State, t: State, b: Addr)
    requires MemoryOk(s) && ViewOk(s) && Freeable(s, b) && t == Kfree(s, b).(op := t.op)
    requires Private(t.op) == Private(s.op) == {} || t.op == s.op
    requires Pending(t.op) == Pending(s.op) && Waiting(t.op) == Waiting(s.op) - {b}
    ensures MemoryOk(t)
  {
    NobodyHolds(s, b);
    hide ViewOk;
    KfreePartition(s, t, b);
    KfreeGrace(s, t, b);
    hide Partition, SameKeys, GraceOk;
  }

  lemma KfreePartition(s: State, t: State, b: Addr)
    requires Partition(s) && SameKeys(s) && b in s.holders && b !in s.list && b > POISON
    requires t == Kfree(s, b).(op := t.op) && (Private(t.op) == Private(s.op) == {} || t.op == s.op)
    ensures Partition(t) && SameKeys(t)
  {
    hide Private;
  }

  lemma KfreeGrace(s: State, t: State, b: Addr)
    requires GraceOk(s) && b in s.grace && b in s.next && t == Kfree(s, b).(op := t.op)
    requires Pending(t.op) == Pending(s.op) && Waiting(t.op) == Waiting(s.op) - {b}
    ensures GraceOk(t)
  {
    hide Pending, Waiting;
  }

  lemma KfreeBackLinks(s: State, t: State, b: Addr)
    requires MemoryOk(s) && ViewOk(s) && Freeable(s, b) && t == Kfree(s, b).(op := t.op)
    ensures t.list == s.list && forall a :: (a == HEAD || a in s.list || a in Private(s.op)) && a in s.prev ==>
      a in t.prev && t.prev[a] == s.prev[a] && (a in s.next ==> a in t.next && t.next[a] == s.next[a])
    ensures forall a :: a == HEAD || a in s.list || a in Private(s.op) ==>
      Lookup(t.rec, a) == Lookup(s.rec, a) && (a in s.rec <==> a in t.rec)
  {
    hide ViewOk, SameKeys, GraceOk;
    NobodyHolds(s, b);
  }

  lemma SyncingKeeps(s: State)
    requires Inv(s) && s.op.Syncing?
    ensures Inv(StepUpdate(s, 0))
  {
    hide StepAdding, StepSeeking, StepFound, StepReplacing, StepDeleting, StepRetiring;
    hide ViewOk, Partition, SameKeys, BackLinked;
    var b := s.op.orig;
    assert b in s.grace by { assert b in Waiting(s.op); }
    if s.grace[b] == {} {
      var t := StepUpdate(s, 0);
      KfreeView(s, t, b);
      KfreeMemory(s, t, b);
      KfreeBackLinks(s, t, b);
      BackLinkedFrame(s, t);
    }
  }

  lemma CallbackKeeps(s: State, b: Addr)
    requires Inv(s)
    ensures Inv(StepCallback(s, b))
  {
    hide ViewOk, Partition, SameKeys, UpdaterOk;
    if b in s.queue && (b in s.grace ==> s.grace[b] == {}) {
      var t := StepCallback(s, b);
      assert b in s.grace;
      assert t == Kfree(s, b);
      KfreeView(s, t, b);
      KfreeMemory(s, t, b);
      CallbackUpdater(s, t, b);
    }
  }

  /** Everything the updater can look at is as it was. */
  ghost predicate Untouched(s: State, t: State) {
    && t.op == s.op && t.list == s.list
    && (forall a :: (a == HEAD || a in s.list || a in Private(s.op)) && a in s.prev ==>
          a in t.prev && t.prev[a] == s.prev[a] && (a in s.next ==> a in t.next && t.next[a] == s.next[a]))
    && (forall a :: a == HEAD || a in s.list || a in Private(s.op) ==>
          Lookup(t.rec, a) == Lookup(s.rec, a) && (a in s.rec <==> a in t.rec))
  }

  /** Freeing a retired book does not disturb the updater, wherever it is. */
  lemma CallbackUpdater(s: State, t: State, b: Addr)
    requires Inv(s) && Freeable(s, b) && t == Kfree(s, b)
    ensures UpdaterOk(t)
  {
    hide ViewOk, MemoryOk, Untouched, Kfree, BackLinked, AddingOk, ReplacingOk, DeletingOk, SeekingOk, FoundOk, Private;
    Owns(s, HEAD);
    KfreeUntouched(s, t, b);
    assert t.op == s.op by { KfreeKeepsOp(s, b); }
    if s.op.Replacing? && s.op.pc <= 2 { ReplacedIsThere(s); }
    if BackLinked(s.prev, s.list) { UntouchedLinks(s, t); }
    match s.op {
      case Adding(pc, n) => UntouchedAdding(s, t, pc, n);
      case Replacing(pc, kind, id, async, orig, n) => UntouchedReplacing(s, t, pc, kind, id, orig, n);
      case Deleting(pc, id, async, orig) => UntouchedDeleting(s, t, pc, id, orig);
      case _ => UntouchedSearch(s, t);
    }
  }

  lemma KfreeUntouched(s: State, t: State, b: Addr)
    requires MemoryOk(s) && ViewOk(s) && Freeable(s, b) && t == Kfree(s, b)
    ensures Untouched(s, t)
  {
    KfreeKeepsOp(s, b);
    hide ViewOk, MemoryOk, Private, Kfree;
    KfreeBackLinks(s, t, b);
  }

  lemma KfreeKeepsOp(s: State, b: Addr)
    ensures Kfree(s, b).op == s.op
  {
  }

  lemma UntouchedLinks(s: State, t: State)
    requires Untouched(s, t) && BackLinked(s.prev, s.list)
    ensures BackLinked(t.prev, t.list)
  {
    hide Private;
    BackLinkedFrame(s, t);
  }

  lemma UntouchedAdding(s: State, t: State, pc: nat, n: Addr)
    requires Untouched(s, t) && s.op == Adding(pc, n) && AddingOk(s, pc, n)
    requires HEAD in s.next && HEAD in s.prev
    ensures AddingOk(t, pc, n)
  {
    if BackLinked(s.prev, s.list) { UntouchedLinks(s, t); }
    if pc == 3 { BackLinkedExceptFrame(s, t, 1); }
    hide BackLinked, BackLinkedExcept;
    assert pc <= 2 ==> n in Private(s.op);
  }

  lemma UntouchedReplacing(s: State, t: State, pc: nat, kind: Kind, id: int, orig: Addr, n: Addr)
    requires Untouched(s, t) && s.op.Replacing? && s.op.pc == pc && s.op.n == n && ReplacingOk(s, pc, kind, id, orig, n)
    requires pc <= 2 ==> orig in s.list && orig in s.next && orig in s.prev
    ensures ReplacingOk(t, pc, kind, id, orig, n)
  {
    if BackLinked(s.prev, s.list) { UntouchedLinks(s, t); }
    if pc == 3 { BackLinkedExceptFrame(s, t, IndexOf(s.list, n) + 1); }
    SearchKept(s, t);
    hide BackLinked, BackLinkedExcept, FoundOk, SeekingOk, IsFirst, IndexOf;
    assert pc <= 2 ==> n in Private(s.op);
  }

  lemma UntouchedDeleting(s: State, t: State, pc: nat, id: int, orig: Addr)
    requires Untouched(s, t) && DeletingOk(s, pc, id, orig)
    ensures DeletingOk(t, pc, id, orig)
  {
    hide Private;
    if BackLinked(s.prev, s.list) { UntouchedLinks(s, t); }
    if pc == 1 { BackLinkedExceptFrame(s, t, IndexOf(s.list, orig) + 1); }
    SearchKept(s, t);
    NthKept(s, t);
    hide BackLinked, BackLinkedExcept, FoundOk, SeekingOk, IsFirst, Untouched;
  }

  lemma UntouchedSearch(s: State, t: State)
    requires Untouched(s, t)
    ensures forall kind, id, b :: FoundOk(s, kind, id, b) ==> FoundOk(t, kind, id, b)
    ensures forall id, at :: SeekingOk(s, id, at) ==> SeekingOk(t, id, at)
  {
    hide Private;
    SearchKept(s, t);
  }

  lemma NthKept(s: State, t: State)
    requires t.list == s.list
    requires forall a :: (a == HEAD || a in s.list) && a in s.prev ==> a in t.prev && t.prev[a] == s.prev[a]
    ensures forall k: nat :: Nth(s.list, k) in s.prev ==>
      Nth(t.list, k) in t.prev && t.prev[Nth(t.list, k)] == s.prev[Nth(s.list, k)]
  {
  }

  lemma BackLinkedExceptFrame(s: State, t: State, k: nat)
    requires BackLinkedExcept(s.prev, s.list, k) && t.list == s.list
    requires forall a :: (a == HEAD || a in s.list) && a in s.prev ==> a in t.prev && t.prev[a] == s.prev[a]
    ensures BackLinkedExcept(t.prev, t.list, k)
  {
    forall i | 0 <= i <= |t.list| && i != k ensures BackLink(t.prev, t.list, i) { assert BackLink(s.prev, s.list, i); }
  }

  lemma SearchKept(s: State, t: State)
    requires t.list == s.list && forall i :: 0 <= i < |s.list| ==> Lookup(t.rec, s.list[i]) == Lookup(s.rec, s.list[i])
    ensures forall id, b :: IsFirst(s, id, b) ==> IsFirst(t, id, b)
    ensures forall kind, id, b :: FoundOk(s, kind, id, b) ==> FoundOk(t, kind, id, b)
    ensures forall id, at :: SeekingOk(s, id, at) ==> SeekingOk(t, id, at)
  {
    forall kind, id, b | FoundOk(s, kind, id, b) ensures FoundOk(t, kind, id, b) {
      assert s.list[IndexOf(s.list, b)] == b;
    }
  }

  // ----- publishing a new book -----

  /** The state after the publishing store of list_add_rcu. */
  function Added(s: State, n: Addr): State
    requires HEAD in s.next
  {
    NoteAdded(s.(next := s.next[HEAD := n]), n).(op := Adding(3, n))
  }

  /** What list_add_rcu has prepared before that store. */
  ghost predicate ReadyToAdd(s: State, n: Addr) {
    && s.op == Adding(2, n)
    && n !in s.list && n !in s.holders && n > POISON && n in s.next && n in s.prev && n in s.rec
    && HEAD in s.next && s.next[n] == s.next[HEAD] && s.prev[n] == HEAD && s.rec[n].borrow == 0
  }

  lemma AddPublishes(s: State)
    requires Inv(s) && s.op.Adding? && s.op.pc == 2
    ensures Inv(StepUpdate(s, 0))
  {
    hide StepSeeking, StepFound, StepReplacing, StepDeleting, StepRetiring, StepSyncing;
    hide ViewOk, MemoryOk, BackLinked, BackLinkedExcept;
    var n := s.op.n;
    Owns(s, HEAD);
    PrivateFields(s, n);
    var t := Added(s, n);
    AddedView(s, t, n);
    AddedMemory(s, t, n);
    AddedBackLinks(s, t, n);
  }

  lemma AddedBackLinks(s: State, t: State, n: Addr)
    requires ReadyToAdd(s, n) && BackLinked(s.prev, s.list) && t == Added(s, n)
    ensures BackLinkedExcept(t.prev, t.list, 1)
  {
    forall i | 0 <= i <= |t.list| && i != 1 ensures BackLink(t.prev, t.list, i) {
      if i > 1 { assert BackLink(s.prev, s.list, i - 1); }
    }
  }

  lemma AddedMemory(s: State, t: State, n: Addr)
    requires MemoryOk(s) && ReadyToAdd(s, n) && t == Added(s, n)
    ensures MemoryOk(t)
  {
    assert t.readers.Keys == s.readers.Keys;
    forall a ensures a in t.list <==> a == n || a in s.list {}
  }

  lemma AddedView(s: State, t: State, n: Addr)
    requires ViewOk(s) && ReadyToAdd(s, n) && t == Added(s, n)
    ensures ViewOk(t)
  {
    hide Stale, ReaderOk, Stocked, Linked, Sorted;
    AddedLinked(s, t, n);
    AddedStocked(s, t, n);
    forall a | a in t.holders ensures Stale(t, a) { AddedStale(s, t, n, a); }
    forall r | r in t.readers ensures ReaderOk(t, r, t.readers[r]) { AddedReader(s, t, n, r); }
  }

  lemma AddedLinked(s: State, t: State, n: Addr)
    requires ViewOk(s) && ReadyToAdd(s, n) && t == Added(s, n)
    ensures Linked(t.next, t.list) && Sorted(t.slot, t.list, |t.stock|)
  {
    hide Stale, ReaderOk, Stocked;
    forall i | 0 <= i < |t.list| ensures t.list[i] in t.next && t.next[t.list[i]] == Nth(t.list, i + 1) {
      if i > 0 { LinkedAt(s, i - 1); }
    }
  }

  lemma AddedStocked(s: State, t: State, n: Addr)
    requires Stocked(s) && ReadyToAdd(s, n) && t == Added(s, n)
    ensures Stocked(t)
  {
    forall a | Reachable(t, a) ensures a == n || Reachable(s, a) {}
  }

  lemma AddedStale(s: State, t: State, n: Addr, a: Addr)
    requires ViewOk(s) && ReadyToAdd(s, n) && t == Added(s, n) && a in s.holders
    ensures Stale(t, a)
  {
    hide ReaderOk, Stocked, Linked;
    assert Stale(s, a);
    assert t.readers.Keys == s.readers.Keys;
    if s.holders[a] != {} {
      var m := s.next[a];
      assert m != n;
      forall i | 0 <= i < |t.list| && SlotOf(t.slot, t.list[i]) < t.slot[a]
        ensures SlotOf(t.slot, t.list[i]) <= Rank(t.slot, m)
      {
        assert i > 0 && t.list[i] == s.list[i - 1];
      }
    }
  }

  lemma AddedReader(s: State, t: State, n: Addr, r: Reader)
    requires ViewOk(s) && ReadyToAdd(s, n) && t == Added(s, n) && r in s.readers
    ensures ReaderOk(t, r, t.readers[r])
  {
    hide Stale, Stocked, Linked, Sorted, Complete, Covered, Genuine;
    assert ReaderOk(s, r, s.readers[r]);
    AddedReaderHistory(s, t, n, r);
    AddedReaderCovered(s, t, n, r);
  }

  lemma AddedReaderHistory(s: State, t: State, n: Addr, r: Reader)
    requires ReadyToAdd(s, n) && t == Added(s, n) && r in s.readers && ReaderOk(s, r, s.readers[r])
    ensures Genuine(t, t.readers[r]) && Complete(t, t.readers[r])
  {
    hide Standing, Covered, SameBook;
    forall k | k in SlotsOf(s.slot, s.list) ensures k in SlotsOf(t.slot, t.list) {
      var i :| 0 <= i < |s.list| && SlotOf(s.slot, s.list[i]) == k;
      assert t.list[i + 1] == s.list[i] && s.list[i] != n;
    }
  }

  lemma AddedReaderCovered(s: State, t: State, n: Addr, r: Reader)
    requires ReadyToAdd(s, n) && t == Added(s, n) && r in s.readers && ReaderOk(s, r, s.readers[r])
    ensures Covered(t, r, t.readers[r])
  {
    hide Standing, Complete, Genuine, Descending;
    forall i | 0 <= i < |t.list|
      ensures Visit(SlotOf(t.slot, t.list[i]), Lookup(t.rec, t.list[i])) in t.readers[r].current
    {
      if i > 0 { assert t.list[i] == s.list[i - 1] && t.list[i] != n; }
    }
  }

  // ----- publishing a copy -----

  /** The state after the publishing store of list_replace_rcu. */
  function Replaced(s: State, k: nat, n: Addr): State
    requires k < |s.list|
  {
    var t := s.(next := s.next[Pred(s.list, k) := n], list := s.list[k := n],
                holders := s.holders[s.list[k] := s.readers.Keys]);
    NotePublished(t, n, SlotOf(s.slot, s.list[k]))
  }

  /** What list_replace_rcu has prepared before that store. */
  ghost predicate ReadyToReplace(s: State, k: nat, kind: Kind, n: Addr) {
    && k < |s.list|
    && n !in s.list && n !in s.holders && n > POISON && n in s.next && n in s.prev && n in s.rec
    && s.list[k] in s.next && s.next[n] == s.next[s.list[k]] && s.prev[n] == Pred(s.list, k)
    && Pred(s.list, k) in s.next
    && s.rec[n] == Flipped(kind, Lookup(s.rec, s.list[k]))
  }

  lemma ReplacePublishes(s: State)
    requires Inv(s) && s.op.Replacing? && s.op.pc == 2
    ensures Inv(StepUpdate(s, 0))
  {
    hide StepReplacing, StepAdding, StepSeeking, StepFound, StepDeleting, StepRetiring, StepSyncing;
    hide ViewOk, MemoryOk, BackLinked, BackLinkedExcept;
    var Replacing(pc, kind, id, async, orig, n) := s.op;
    var k := IndexOf(s.list, orig);
    ReplaceReady(s);
    var t := Replaced(s, k, n);
    ReplacedView(s, t, k, kind, n);
    ReplacedBackLinks(s, t, k, kind, n);
    IndexOfFresh(s.list, k, n);
    var u := t.(op := Replacing(3, kind, id, async, orig, n));
    ReplacedMemory(s, u, k, n);
    ViewIgnoresOp(t, u);
    ReplacedIs(s, u, k);
  }

  lemma ReplacedIs(s: State, u: State, k: nat)
    requires MemoryOk(s) && s.op.Replacing? && s.op.pc == 2 && k == IndexOf(s.list, s.op.orig)
    requires ReadyToReplace(s, k, s.op.kind, s.op.n) && s.list[k] == s.op.orig
    requires u == Replaced(s, k, s.op.n).(op := Replacing(3, s.op.kind, s.op.id, s.op.async, s.op.orig, s.op.n))
    ensures u == StepReplacing(s, s.op.pc, s.op.kind, s.op.id, s.op.async, s.op.orig, s.op.n)
  {
    hide Partition, SameKeys, GraceOk, IndexOf;
    assert PublishCopy(s, s.op.orig, s.op.n) == Replaced(s, k, s.op.n);
  }

  lemma ViewIgnoresOp(t: State, u: State)
    requires ViewOk(t) && u == t.(op := u.op)
    ensures ViewOk(u)
  {
    assert HEAD in t.next;
    hide ViewOk;
    ViewFrame(t, u);
  }

  lemma ReplaceReady(s: State)
    requires Inv(s) && s.op.Replacing? && s.op.pc == 2
    ensures ReadyToReplace(s, IndexOf(s.list, s.op.orig), s.op.kind, s.op.n)
    ensures BackLinked(s.prev, s.list) && IndexOf(s.list, s.op.orig) < |s.list|
    ensures s.list[IndexOf(s.list, s.op.orig)] == s.op.orig
  {
    hide GraceOk, Stocked, Stale, ReaderOk, Sorted;
    var k := IndexOf(s.list, s.op.orig);
    ReplacedIsThere(s);
    assert BackLink(s.prev, s.list, k);
    if k > 0 { Owns(s, s.list[k - 1]); } else { Owns(s, HEAD); }
  }

  lemma ReplacedMemory(s: State, u: State, k: nat, n: Addr)
    requires MemoryOk(s) && s.op.Replacing? && s.op.pc == 2 && s.op.n == n && ReadyToReplace(s, k, s.op.kind, n)
    requires ViewOk(s) && s.op.orig == s.list[k]
    requires u == Replaced(s, k, n).(op := Replacing(3, s.op.kind, s.op.id, s.op.async, s.op.orig, n))
    ensures MemoryOk(u)
  {
    hide GraceOk, Partition, SameKeys, Linked, Sorted, Stocked, Stale, ReaderOk, Replaced, ReadyToReplace;
    ReplacedPartition(s, u, k, n);
    ReplacedShape(s, u, k, n, s.op.kind);
    ReplacedGrace(s, u, k, n);
  }

  lemma ReplacedPartition(s: State, u: State, k: nat, n: Addr)
    requires Partition(s) && SameKeys(s) && Sorted(s.slot, s.list, |s.stock|)
    requires s.op.Replacing? && s.op.pc == 2 && s.op.n == n && ReadyToReplace(s, k, s.op.kind, n)
    requires u == Replaced(s, k, n).(op := Replacing(3, s.op.kind, s.op.id, s.op.async, s.op.orig, n))
    ensures Partition(u) && SameKeys(u)
  {
    hide Partition, SameKeys, Sorted, Replaced, ReadyToReplace;
    ReplacedShape(s, u, k, n, s.op.kind);
    ReplacedMembers(s, k, n);
    CopyTakesPlace(s, u, s.list[k], n);
  }

  lemma ReplacedShape(s: State, u: State, k: nat, n: Addr, kind: Kind)
    requires ReadyToReplace(s, k, kind, n) && u == Replaced(s, k, n).(op := u.op)
    ensures k < |s.list| && n !in s.list && u.fault == s.fault
    ensures u.next.Keys == s.next.Keys && u.prev == s.prev && u.rec == s.rec
    ensures u.list == s.list[k := n] && u.holders.Keys == s.holders.Keys + {s.list[k]}
  {
    hide Flipped, Witness, SlotOf;
  }

  /** The copy is now listed, the original unlinked; nothing else moves. */
  lemma CopyTakesPlace(s: State, u: State, orig: Addr, n: Addr)
    requires Partition(s) && SameKeys(s) && orig in s.list
    requires u.next.Keys == s.next.Keys && u.prev == s.prev && u.rec == s.rec
    requires u.holders.Keys == s.holders.Keys + {orig} && Private(u.op) == {} && Private(s.op) == {n}
    requires forall a :: a in u.list <==> a == n || (a in s.list && a != orig)
    ensures Partition(u) && SameKeys(u)
  {
    hide Private;
    forall a ensures a in u.next <==> a == HEAD || a in u.list || a in u.holders {
      assert (a in u.next <==> a in s.next.Keys) && (a in u.holders <==> a in s.holders.Keys + {orig});
    }
  }

  lemma ReplacedMembers(s: State, k: nat, n: Addr)
    requires k < |s.list| && n !in s.list && Sorted(s.slot, s.list, |s.stock|)
    ensures forall a :: a in s.list[k := n] <==> a == n || (a in s.list && a != s.list[k])
  {
    forall a ensures a in s.list[k := n] <==> a == n || (a in s.list && a != s.list[k]) {
      if a in s.list && a != s.list[k] {
        var i :| 0 <= i < |s.list| && s.list[i] == a;
        assert s.list[k := n][i] == a;
      }
      if a in s.list[k := n] && a != n {
        var i :| 0 <= i < |s.list| && s.list[k := n][i] == a;
        assert i != k && s.list[i] == a;
      }
      assert s.list[k := n][k] == n;
    }
  }

  lemma ReplacedGrace(s: State, u: State, k: nat, n: Addr)
    requires MemoryOk(s) && s.op.Replacing? && s.op.pc == 2 && s.op.n == n && k < |s.list| && s.op.orig == s.list[k]
    requires ViewOk(s)
    requires u == Replaced(s, k, n).(op := Replacing(3, s.op.kind, s.op.id, s.op.async, s.op.orig, n))
    ensures GraceOk(u)
  {
    hide Linked, Stocked, ReaderOk, Sorted, Partition, SameKeys;
    assert u.readers.Keys == s.readers.Keys;
    assert s.op.orig !in s.holders by { ListedNotHeld(s, s.op.orig); }
  }

  lemma ListedNotHeld(s: State, a: Addr)
    requires ViewOk(s) && a in s.list
    ensures a !in s.holders
  {
    hide Linked, Stocked, ReaderOk, Sorted, NoSkip;
    assert a in s.holders ==> Stale(s, a);
  }

  // ----- what readers see of it -----

  lemma ReplacedView(s: State, t: State, k: nat, kind: Kind, n: Addr)
    requires ViewOk(s) && ReadyToReplace(s, k, kind, n) && t == Replaced(s, k, n)
    ensures ViewOk(t)
  {
    hide Stale, ReaderOk, Stocked, Linked, Sorted;
    ListedNotHeld(s, s.list[k]);
    ReplacedLinked(s, t, k, kind, n);
    ReplacedSorted(s, t, k, kind, n);
    ReplacedStocked(s, t, k, kind, n);
    forall a | a in t.holders ensures Stale(t, a) {
      if a == s.list[k] { ReplacedStaleNew(s, t, k, kind, n); } else { ReplacedStale(s, t, k, kind, n, a); }
    }
    forall r | r in t.readers ensures ReaderOk(t, r, t.readers[r]) { ReplacedReader(s, t, k, kind, n, r); }
  }

  lemma ReplacedLinked(s: State, t: State, k: nat, kind: Kind, n: Addr)
    requires ViewOk(s) && ReadyToReplace(s, k, kind, n) && t == Replaced(s, k, n)
    ensures Linked(t.next, t.list)
  {
    hide Stale, ReaderOk, Stocked;
    forall i | 0 <= i < |t.list| ensures t.list[i] in t.next && t.next[t.list[i]] == Nth(t.list, i + 1) {
      LinkedAt(s, i);
      if i + 1 != k && k > 0 && i < k { assert s.list[i] != s.list[k - 1]; }
      if k > 0 && i > k - 1 { assert s.list[k - 1] != s.list[i]; }
    }
  }

  lemma ReplacedSorted(s: State, t: State, k: nat, kind: Kind, n: Addr)
    requires Sorted(s.slot, s.list, |s.stock|) && ReadyToReplace(s, k, kind, n) && t == Replaced(s, k, n)
    ensures Sorted(t.slot, t.list, |t.stock|) && SlotsOf(t.slot, t.list) == SlotsOf(s.slot, s.list)
    ensures forall i :: 0 <= i < |t.list| ==> SlotOf(t.slot, t.list[i]) == SlotOf(s.slot, s.list[i])
  {
    forall i | 0 <= i < |t.list| ensures t.list[i] in t.slot && t.slot[t.list[i]] == s.slot[s.list[i]] {}
    forall x ensures x in SlotsOf(t.slot, t.list) <==> x in SlotsOf(s.slot, s.list) {
      if x in SlotsOf(s.slot, s.list) {
        var i :| 0 <= i < |s.list| && SlotOf(s.slot, s.list[i]) == x;
        assert SlotOf(t.slot, t.list[i]) == x;
      }
    }
  }

  lemma ReplacedStocked(s: State, t: State, k: nat, kind: Kind, n: Addr)
    requires ViewOk(s) && ReadyToReplace(s, k, kind, n) && t == Replaced(s, k, n)
    ensures Stocked(t)
  {
    hide Stale, ReaderOk, Linked, Sorted;
    ReachableNth(s, k);
    forall a | Reachable(t, a) ensures a == n || Reachable(s, a) {
      if a in t.list && a != n {
        var i :| 0 <= i < |t.list| && t.list[i] == a;
        ReachableNth(s, i);
      }
    }
  }

  /** The original, now unlinked, still leads where its copy leads. */
  lemma ReplacedStaleNew(s: State, t: State, k: nat, kind: Kind, n: Addr)
    requires ViewOk(s) && ReadyToReplace(s, k, kind, n) && t == Replaced(s, k, n)
    ensures Stale(t, s.list[k])
  {
    hide ReaderOk, Linked, Stocked;
    var a := s.list[k];
    assert t.readers.Keys == s.readers.Keys;
    ReplacedMembers(s, k, n);
    assert Stocked(s) && Linked(s.next, s.list);
    LinkedAt(s, k);
    NthRank(s, k);
    ReplacedSorted(s, t, k, kind, n);
    assert a in t.rec && a in t.next by { ListedRec(s, k); }
    var m := s.next[a];
    assert t.next[a] == m by { if k > 0 { assert s.list[k - 1] != s.list[k]; } }
    if m != HEAD { assert m in t.list; }
    assert Rank(t.slot, m) == Rank(s.slot, m) < t.slot[a];
    NoSkipKept(s, t, t.slot[a], Rank(s.slot, m));
  }

  lemma ListedRec(s: State, k: nat)
    requires ViewOk(s) && k < |s.list|
    ensures s.list[k] in s.rec && s.list[k] in s.next
  {
    hide Stale, ReaderOk;
    ReachableNth(s, k);
    LinkedAt(s, k);
  }

  lemma NoSkipKept(s: State, t: State, k: nat, l: nat)
    requires NoSkip(s.slot, s.list, k, l) && |t.list| == |s.list|
    requires forall i :: 0 <= i < |t.list| ==> SlotOf(t.slot, t.list[i]) == SlotOf(s.slot, s.list[i])
    ensures NoSkip(t.slot, t.list, k, l)
  {
  }

  lemma ReplacedStale(s: State, t: State, k: nat, kind: Kind, n: Addr, a: Addr)
    requires ViewOk(s) && ReadyToReplace(s, k, kind, n) && t == Replaced(s, k, n) && a in s.holders
    ensures Stale(t, a)
  {
    hide ReaderOk, Linked, Stocked, Sorted, NoSkip;
    assert Stale(s, a);
    ListedNotHeld(s, s.list[k]);
    assert t.readers.Keys == s.readers.Keys;
    ReplacedMembers(s, k, n) by { assert ViewOk(s); }
    ReplacedSorted(s, t, k, kind, n) by { assert ViewOk(s); }
    assert t.next[a] == s.next[a] by { PredListed(s, k); }
    if s.holders[a] != {} {
      var m := s.next[a];
      assert m != n && Rank(t.slot, m) == Rank(s.slot, m);
      NoSkipKept(s, t, s.slot[a], Rank(s.slot, m));
    }
  }

  lemma PredListed(s: State, k: nat)
    requires k < |s.list|
    ensures Pred(s.list, k) == HEAD || Pred(s.list, k) in s.list
  {
  }

  lemma ReplacedReader(s: State, t: State, k: nat, kind: Kind, n: Addr, r: Reader)
    requires ViewOk(s) && ReadyToReplace(s, k, kind, n) && t == Replaced(s, k, n) && r in s.readers
    ensures ReaderOk(t, r, t.readers[r])
  {
    hide Stale, Stocked, Linked, Sorted, Complete, Covered, Genuine, Standing;
    assert ReaderOk(s, r, s.readers[r]);
    ReplacedReaderStanding(s, t, k, kind, n, r);
    ReplacedReaderHistory(s, t, k, kind, n, r);
    ReplacedReaderCovered(s, t, k, kind, n, r);
  }

  lemma ReplacedReaderStanding(s: State, t: State, k: nat, kind: Kind, n: Addr, r: Reader)
    requires ViewOk(s) && ReadyToReplace(s, k, kind, n) && t == Replaced(s, k, n) && r in s.readers
    ensures !t.readers[r].done ==> Standing(t, r, t.readers[r])
  {
    hide Stale, Stocked, Linked, Sorted, Complete, Covered, Genuine, Descending;
    assert ReaderOk(s, r, s.readers[r]);
    ListedNotHeld(s, s.list[k]);
    ReplacedMembers(s, k, n) by { assert ViewOk(s); }
  }

  lemma ReplacedReaderHistory(s: State, t: State, k: nat, kind: Kind, n: Addr, r: Reader)
    requires ViewOk(s) && ReadyToReplace(s, k, kind, n) && t == Replaced(s, k, n) && r in s.readers
    ensures Genuine(t, t.readers[r]) && Complete(t, t.readers[r])
  {
    hide Stale, Stocked, Linked, Sorted, Standing, Covered, SameBook, SlotsOf, Saw;
    assert ReaderOk(s, r, s.readers[r]);
    ReplacedSorted(s, t, k, kind, n) by { assert ViewOk(s); }
  }

  lemma ReplacedReaderCovered(s: State, t: State, k: nat, kind: Kind, n: Addr, r: Reader)
    requires ViewOk(s) && ReadyToReplace(s, k, kind, n) && t == Replaced(s, k, n) && r in s.readers
    ensures Covered(t, r, t.readers[r])
  {
    hide Stale, Stocked, Linked, Sorted, Standing, Complete, Genuine, Descending;
    assert ReaderOk(s, r, s.readers[r]);
    forall i | 0 <= i < |t.list|
      ensures Visit(SlotOf(t.slot, t.list[i]), Lookup(t.rec, t.list[i])) in t.readers[r].current
    {
      if i != k { assert t.list[i] == s.list[i] && t.list[i] != n; }
    }
    forall a | a in t.holders && r in t.holders[a]
      ensures Visit(SlotOf(t.slot, a), Lookup(t.rec, a)) in t.readers[r].current
    {
      assert a != n;
      if a == s.list[k] { assert s.list[k] != n; }
    }
  }

  lemma {:induction false} IndexOfFresh(list: seq<Addr>, k: nat, n: Addr)
    requires k < |list| && n !in list
    ensures IndexOf(list[k := n], n) == k
  {
    IndexOfUnique(list[k := n], k);
  }

  lemma ReplacedBackLinks(s: State, t: State, k: nat, kind: Kind, n: Addr)
    requires ReadyToReplace(s, k, kind, n) && BackLinked(s.prev, s.list) && t == Replaced(s, k, n)
    ensures BackLinkedExcept(t.prev, t.list, k + 1)
  {
    forall i | 0 <= i <= |t.list| && i != k + 1 ensures BackLink(t.prev, t.list, i) {
      assert BackLink(s.prev, s.list, i);
    }
  }

  // ----- unlinking -----

  /** The state after the unlinking store of list_del_rcu. */
  function Removed(s: State, k: nat): State
    requires k < |s.list|
  {
    s.(next := s.next[Pred(s.list, k) := Nth(s.list, k + 1)], list := s.list[..k] + s.list[k + 1..],
       holders := s.holders[s.list[k] := s.readers.Keys], readers := Forget(s.readers, SlotOf(s.slot, s.list[k])))
  }

  lemma DeleteUnlinks(s: State)
    requires Inv(s) && s.op.Deleting? && s.op.pc == 1
    ensures Inv(StepUpdate(s, 0))
  {
    hide StepAdding, StepSeeking, StepFound, StepReplacing, StepRetiring, StepSyncing;
    hide ViewOk, MemoryOk, BackLinked, BackLinkedExcept;
    var k := IndexOf(s.list, s.op.orig);
    DeleteReady(s);
    var t := Removed(s, k);
    RemovedView(s, t, k);
    var u := t.(op := Deleting(2, s.op.id, s.op.async, s.op.orig));
    RemovedMemory(s, u, k);
    RemovedBackLinks(s, t, k);
    ViewIgnoresOp(t, u);
    assert u == StepUpdate(s, 0);
  }

  lemma DeleteReady(s: State)
    requires Inv(s) && s.op.Deleting? && s.op.pc == 1
    ensures var k := IndexOf(s.list, s.op.orig);
      && k < |s.list| && s.list[k] == s.op.orig
      && s.op.orig in s.next && s.op.orig in s.prev
      && s.prev[s.op.orig] == Pred(s.list, k) && s.next[s.op.orig] == Nth(s.list, k + 1)
      && Pred(s.list, k) in s.next
      && BackLinkedExcept(s.prev, s.list, k + 1)
      && Nth(s.list, k + 1) in s.prev && s.prev[Nth(s.list, k + 1)] == Pred(s.list, k)
  {
    hide GraceOk, Partition, SameKeys, Linked, Stocked, Stale, ReaderOk, Sorted;
    var k := IndexOf(s.list, s.op.orig);
    Successor(s, s.op.orig);
    assert BackLink(s.prev, s.list, k);
    Owns(s, Pred(s.list, k));
  }

  lemma RemovedBackLinks(s: State, t: State, k: nat)
    requires k < |s.list| && t == Removed(s, k) && BackLinkedExcept(s.prev, s.list, k + 1)
    requires Nth(s.list, k + 1) in s.prev && s.prev[Nth(s.list, k + 1)] == Pred(s.list, k)
    ensures BackLinked(t.prev, t.list)
  {
    forall i | 0 <= i <= |t.list| ensures BackLink(t.prev, t.list, i) {
      if i < k { assert BackLink(s.prev, s.list, i); }
      if i > k { assert BackLink(s.prev, s.list, i + 1); }
    }
  }

  lemma RemovedMembers(s: State, k: nat)
    requires k < |s.list| && Sorted(s.slot, s.list, |s.stock|)
    ensures forall a :: a in s.list[..k] + s.list[k + 1..] <==> a in s.list && a != s.list[k]
  {
    var l := s.list[..k] + s.list[k + 1..];
    forall a ensures a in l <==> a in s.list && a != s.list[k] {
      if a in s.list && a != s.list[k] {
        var i :| 0 <= i < |s.list| && s.list[i] == a;
        assert if i < k then l[i] == a else l[i - 1] == a;
      }
      if a in l {
        var i :| 0 <= i < |l| && l[i] == a;
        assert a == s.list[if i < k then i else i + 1];
      }
    }
  }

  lemma RemovedMemory(s: State, u: State, k: nat)
    requires MemoryOk(s) && ViewOk(s) && s.op.Deleting? && s.op.pc == 1 && k < |s.list| && s.op.orig == s.list[k]
    requires Pred(s.list, k) in s.next
    requires u == Removed(s, k).(op := Deleting(2, s.op.id, s.op.async, s.op.orig))
    ensures MemoryOk(u)
  {
    hide ViewOk, GraceOk, Partition, SameKeys;
    RemovedPartition(s, u, k);
    RemovedGrace(s, u, k);
  }

  lemma RemovedPartition(s: State, u: State, k: nat)
    requires MemoryOk(s) && ViewOk(s) && s.op.Deleting? && s.op.pc == 1 && k < |s.list| && s.op.orig == s.list[k]
    requires Pred(s.list, k) in s.next
    requires u == Removed(s, k).(op := Deleting(2, s.op.id, s.op.async, s.op.orig))
    ensures Partition(u) && SameKeys(u)
  {
    hide GraceOk, Forget, Linked, Stocked, ReaderOk, Stale, Sorted;
    RemovedMembers(s, k);
    assert u.next.Keys == s.next.Keys;
    forall a ensures a in u.next <==> a == HEAD || a in u.list || a in u.holders || a in Private(u.op) {}
  }

  lemma RemovedGrace(s: State, u: State, k: nat)
    requires MemoryOk(s) && ViewOk(s) && s.op.Deleting? && s.op.pc == 1 && k < |s.list| && s.op.orig == s.list[k]
    requires u == Removed(s, k).(op := Deleting(2, s.op.id, s.op.async, s.op.orig))
    ensures GraceOk(u)
  {
    hide Linked, Stocked, ReaderOk, Sorted, Partition, SameKeys;
    assert u.readers.Keys == s.readers.Keys;
    ListedNotHeld(s, s.op.orig);
  }

  // ----- what readers see of it -----

  lemma RemovedView(s: State, t: State, k: nat)
    requires ViewOk(s) && k < |s.list| && t == Removed(s, k)
    ensures ViewOk(t)
  {
    hide Stale, ReaderOk, Stocked, Linked, Sorted;
    ListedNotHeld(s, s.list[k]);
    RemovedLinked(s, t, k);
    RemovedStocked(s, t, k);
    forall a | a in t.holders ensures Stale(t, a) {
      if a == s.list[k] { RemovedStaleNew(s, t, k); } else { RemovedStale(s, t, k, a); }
    }
    forall r | r in t.readers ensures ReaderOk(t, r, t.readers[r]) { RemovedReader(s, t, k, r); }
  }

  /** Where a remaining book was listed before. */
  function Origin(k: nat, i: nat): nat { if i < k then i else i + 1 }

  lemma RemovedLinked(s: State, t: State, k: nat)
    requires ViewOk(s) && k < |s.list| && t == Removed(s, k)
    ensures Linked(t.next, t.list) && Sorted(t.slot, t.list, |t.stock|)
  {
    hide Stale, ReaderOk, Stocked;
    RemovedSorted(s, t, k);
    forall i | 0 <= i < |t.list| ensures t.list[i] in t.next && t.next[t.list[i]] == Nth(t.list, i + 1) {
      RemovedLink(s.next, s.list, k, i);
    }
    RemovedHead(s, t, k);
  }

  lemma RemovedSorted(s: State, t: State, k: nat)
    requires Sorted(s.slot, s.list, |s.stock|) && k < |s.list| && t == Removed(s, k)
    ensures Sorted(t.slot, t.list, |t.stock|)
  {
    forall i | 0 <= i < |t.list| ensures t.list[i] == s.list[Origin(k, i)] {}
  }

  lemma RemovedHead(s: State, t: State, k: nat)
    requires ViewOk(s) && k < |s.list| && t == Removed(s, k)
    ensures HEAD in t.next && t.next[HEAD] == Nth(t.list, 0)
  {
    hide Stale, ReaderOk, Stocked;
    if k > 0 { assert s.list[k - 1] > POISON; }
  }

  /** Pointing the predecessor past position `k` links what remains. */
  lemma RemovedLink(next: map<Addr, Addr>, list: seq<Addr>, k: nat, i: nat)
    requires Linked(next, list) && k < |list| && i < |list| - 1
    requires k > 0 && Origin(k, i) != k - 1 ==> list[Origin(k, i)] != list[k - 1]
    requires list[Origin(k, i)] > POISON
    ensures var l := list[..k] + list[k + 1..];
      var m := next[Pred(list, k) := Nth(list, k + 1)];
      l[i] in m && m[l[i]] == Nth(l, i + 1)
  {
    var j := Origin(k, i);
    var l := list[..k] + list[k + 1..];
    assert next[list[j]] == Nth(list, j + 1);
    assert l[i] == list[j];
    assert Nth(l, i + 1) == Nth(list, Origin(k, i + 1));
  }

  lemma RemovedStocked(s: State, t: State, k: nat)
    requires ViewOk(s) && k < |s.list| && t == Removed(s, k)
    ensures Stocked(t)
  {
    hide Stale, ReaderOk, Linked;
    ReachableNth(s, k);
    RemovedMembers(s, k);
    forall a | Reachable(t, a) ensures Reachable(s, a) {}
  }

  /** The unlinked book still leads where it led; fewer books are listed, so none is skipped. */
  lemma RemovedStaleNew(s: State, t: State, k: nat)
    requires ViewOk(s) && k < |s.list| && t == Removed(s, k)
    ensures Stale(t, s.list[k])
  {
    hide ReaderOk, Linked, Stocked, NoSkip;
    var a := s.list[k];
    assert t.readers.Keys == s.readers.Keys;
    RemovedMembers(s, k);
    NthRank(s, k);
    ListedRec(s, k);
    LinkedAt(s, k);
    NthDistinct(s, k, k + 1);
    var m := s.next[a];
    assert m == HEAD || (m in s.list && m != a);
    assert t.next[a] == m by { if k > 0 { assert s.list[k - 1] != s.list[k]; } }
    NoSkipFewer(s, t, k, t.slot[a], Rank(s.slot, m));
  }

  lemma NoSkipFewer(s: State, t: State, k: nat, l: nat, m: nat)
    requires NoSkip(s.slot, s.list, l, m) && k < |s.list| && t.list == s.list[..k] + s.list[k + 1..] && t.slot == s.slot
    ensures NoSkip(t.slot, t.list, l, m)
  {
    forall i | 0 <= i < |t.list| ensures t.list[i] == s.list[Origin(k, i)] {}
  }

  lemma RemovedStale(s: State, t: State, k: nat, a: Addr)
    requires ViewOk(s) && k < |s.list| && t == Removed(s, k) && a in s.holders
    ensures Stale(t, a)
  {
    hide ReaderOk, Linked, Stocked, Sorted, NoSkip;
    assert Stale(s, a);
    ListedNotHeld(s, s.list[k]);
    assert t.readers.Keys == s.readers.Keys;
    RemovedMembers(s, k) by { assert ViewOk(s); }
    assert t.next[a] == s.next[a] by { PredListed(s, k); }
    if s.holders[a] != {} { NoSkipFewer(s, t, k, s.slot[a], Rank(s.slot, s.next[a])); }
  }

  lemma RemovedReader(s: State, t: State, k: nat, r: Reader)
    requires ViewOk(s) && k < |s.list| && t == Removed(s, k) && r in s.readers
    ensures ReaderOk(t, r, t.readers[r])
  {
    hide Stale, Stocked, Linked, Sorted, Complete, Covered, Genuine, Standing;
    assert ReaderOk(s, r, s.readers[r]);
    RemovedReaderStanding(s, t, k, r);
    RemovedReaderComplete(s, t, k, r);
    RemovedReaderCovered(s, t, k, r);
  }

  lemma RemovedReaderStanding(s: State, t: State, k: nat, r: Reader)
    requires ViewOk(s) && k < |s.list| && t == Removed(s, k) && r in s.readers
    ensures !t.readers[r].done ==> Standing(t, r, t.readers[r])
  {
    hide Stale, Stocked, Linked, Sorted, Complete, Covered, Genuine, Descending;
    assert ReaderOk(s, r, s.readers[r]);
    ListedNotHeld(s, s.list[k]);
    RemovedMembers(s, k) by { assert ViewOk(s); }
  }

  lemma RemovedReaderComplete(s: State, t: State, k: nat, r: Reader)
    requires ViewOk(s) && k < |s.list| && t == Removed(s, k) && r in s.readers
    ensures Genuine(t, t.readers[r]) && Complete(t, t.readers[r])
  {
    hide Stale, Stocked, Linked, Sorted, Standing, Covered, SameBook, Saw;
    assert ReaderOk(s, r, s.readers[r]);
    forall x | x in SlotsOf(s.slot, s.list) && x != SlotOf(s.slot, s.list[k]) ensures x in SlotsOf(t.slot, t.list) {
      var i :| 0 <= i < |s.list| && SlotOf(s.slot, s.list[i]) == x;
      assert t.list[if i < k then i else i - 1] == s.list[i];
    }
  }

  lemma RemovedReaderCovered(s: State, t: State, k: nat, r: Reader)
    requires ViewOk(s) && k < |s.list| && t == Removed(s, k) && r in s.readers
    ensures Covered(t, r, t.readers[r])
  {
    hide Stale, Stocked, Linked, Sorted, Standing, Complete, Genuine, Descending;
    assert ReaderOk(s, r, s.readers[r]);
    forall i | 0 <= i < |t.list| ensures t.list[i] == s.list[Origin(k, i)] {}
  }
}
