/** Every step of the updater of the RCU list keeps its invariant. */
module RcuListUpdates {
  import opened Runs
  import opened RcuList
  import opened RcuListInvariant
  import opened RcuListSteps

  // ----- facts read off the invariant -----

  lemma Owns(s: State, a: Addr)
    requires MemoryOk(s) && (a == HEAD || a in s.list || a in s.holders || a in Private(s.op))
    ensures a in s.next && a in s.prev && (a != HEAD ==> a in s.rec)
  {
    hide GraceOk;
  }

  lemma NotReachable(s: State, n: Addr)
    requires MemoryOk(s) && (n in Private(s.op) || n !in s.next)
    ensures !Reachable(s, n) && n != HEAD
  {
    hide GraceOk;
  }

  lemma LinkedAt(s: State, i: nat)
    requires Linked(s.next, s.list) && i < |s.list|
    ensures s.list[i] in s.next && s.next[s.list[i]] == Nth(s.list, i + 1)
  {
  }

  lemma NthIn(s: State, i: nat)
    requires MemoryOk(s) && i <= |s.list|
    ensures Nth(s.list, i) in s.next && Nth(s.list, i) in s.prev
  {
    Owns(s, Nth(s.list, i));
  }

  /** Nodes are told apart by their position in the ring. */
  lemma NthDistinct(s: State, i: nat, j: nat)
    requires Sorted(s.slot, s.list, |s.stock|) && i < j <= |s.list|
    ensures Nth(s.list, i) != Nth(s.list, j)
  {
  }

  // ----- back links -----

  lemma BackLinkedFrame(s: State, t: State)
    requires BackLinked(s.prev, s.list) && t.list == s.list
    requires forall a :: (a == HEAD || a in s.list) && a in s.prev ==> a in t.prev && t.prev[a] == s.prev[a]
    ensures BackLinked(t.prev, t.list)
  {
    forall i | 0 <= i <= |t.list| ensures BackLink(t.prev, t.list, i) { assert BackLink(s.prev, s.list, i); }
  }

  /** Storing the one back link that was out of date makes all of them right. */
  lemma Relinked(s: State, t: State, k: nat)
    requires Sorted(s.slot, s.list, |s.stock|) && k <= |s.list| && BackLinkedExcept(s.prev, s.list, k)
    requires t.list == s.list
    requires t.prev == s.prev[Nth(s.list, k) := Pred(s.list, k)]
    ensures BackLinked(t.prev, t.list)
  {
    forall i | 0 <= i <= |t.list| ensures BackLink(t.prev, t.list, i) {
      if i != k { assert BackLink(s.prev, s.list, i); }
    }
  }

  // ----- steps that no reader can notice -----

  /** Same allocations, same owners, and no pointer that a reader can load has changed. */
  ghost predicate QuietStore(s: State, t: State) {
    && t == s.(next := t.next, prev := t.prev, op := t.op)
    && t.next.Keys == s.next.Keys && t.prev.Keys == s.prev.Keys
    && (forall a :: a in s.next && a !in Private(s.op) ==> t.next[a] == s.next[a])
    && Private(t.op) == Private(s.op) && Pending(t.op) == Pending(s.op) && Waiting(t.op) == Waiting(s.op)
  }

  lemma QuietStoreKeeps(s: State, t: State)
    requires ViewOk(s) && MemoryOk(s) && QuietStore(s, t)
    ensures ViewOk(t) && MemoryOk(t)
  {
    QuietStoreView(s, t);
    QuietStoreMemory(s, t);
  }

  lemma QuietStoreMemory(s: State, t: State)
    requires MemoryOk(s) && QuietStore(s, t)
    ensures MemoryOk(t)
  {
    hide Private, Pending, Waiting;
  }

  lemma QuietStoreView(s: State, t: State)
    requires ViewOk(s) && MemoryOk(s) && QuietStore(s, t)
    ensures ViewOk(t)
  {
    hide ViewOk, GraceOk, Private, Pending, Waiting;
    Owns(s, HEAD);
    ViewFrame(s, t);
  }

  lemma SeekingKeeps(s: State)
    requires Inv(s) && s.op.Seeking?
    ensures Inv(StepUpdate(s, 0))
  {
    hide ViewOk, MemoryOk, UpdaterOk, StepUpdate;
    var t := s.(op := Sought(s));
    SeekingShape(s);
    SoughtOk(s);
    assert QuietStore(s, t);
    QuietStoreKeeps(s, t);
  }

  /** How many listed books the seeking loop has passed. */
  function Passed(s: State): nat
    requires s.op.Seeking?
  {
    if s.op.at == HEAD then 0 else IndexOf(s.list, s.op.at) + 1
  }

  /** Where the seeking loop goes. */
  function Sought(s: State): Op
    requires s.op.Seeking?
  {
    var m := Passed(s);
    if m >= |s.list| then Idle
    else
      var b := s.list[m];
      if Lookup(s.rec, b).id != s.op.id then Seeking(s.op.kind, s.op.id, s.op.async, b)
      else if s.op.kind == Delete then Deleting(0, s.op.id, s.op.async, b)
      else if Flips(s.op.kind, Lookup(s.rec, b)) then Found(s.op.kind, s.op.id, s.op.async, b)
      else Idle
  }

  lemma SeekingShape(s: State)
    requires Inv(s) && s.op.Seeking?
    ensures StepUpdate(s, 0) == s.(op := Sought(s))
  {
    hide StepAdding, StepFound, StepReplacing, StepDeleting, StepRetiring, StepSyncing;
    hide Inv, Passed, NotBefore;
    SeekingAt(s, Passed(s));
  }

  lemma SoughtOk(s: State)
    requires Inv(s) && s.op.Seeking?
    ensures UpdaterOk(s.(op := Sought(s)))
    ensures Private(s.op) == Pending(s.op) == Waiting(s.op) == {}
    ensures Private(Sought(s)) == Pending(Sought(s)) == Waiting(Sought(s)) == {}
  {
    hide ViewOk, MemoryOk, BackLinked, BackLinkedExcept, Passed, NotBefore, SeekingOk, IsFirst;
    SeekingAt(s, Passed(s));
    assert BackLinked(s.prev, s.list);
    if Passed(s) < |s.list| { SeekingMeets(s, s.(op := Sought(s)), Passed(s)); }
  }

  lemma SeekingMeets(s: State, t: State, m: nat)
    requires s.op.Seeking? && m < |s.list| && NotBefore(s, s.op.id, m)
    requires s.list[m] in s.rec && IndexOf(s.list, s.list[m]) == m
    requires t.list == s.list && t.rec == s.rec
    ensures if s.rec[s.list[m]].id == s.op.id then IsFirst(t, s.op.id, s.list[m]) else SeekingOk(t, s.op.id, s.list[m])
  {
  }

  lemma SeekingAt(s: State, m: nat)
    requires Inv(s) && s.op.Seeking? && m == Passed(s)
    ensures m <= |s.list| && s.op.at in s.next && s.next[s.op.at] == Nth(s.list, m) && NotBefore(s, s.op.id, m)
    ensures m < |s.list| ==> s.list[m] in s.rec && s.list[m] > POISON && IndexOf(s.list, s.list[m]) == m
  {
    hide GraceOk, ReaderOk, Stocked, Stale, BackLinked;
    Owns(s, s.op.at);
    if m > 0 { LinkedAt(s, m - 1); }
    if m < |s.list| {
      IndexOfSorted(s, m);
      Owns(s, s.list[m]);
    }
  }

  // ----- allocation -----

  ghost predicate AllocatesPrivately(s: State, t: State, a: Addr) {
    && Allocatable(s, a)
    && a in t.next && a in t.prev && a in t.rec
    && t == s.(next := s.next[a := t.next[a]], prev := s.prev[a := t.prev[a]], rec := s.rec[a := t.rec[a]], op := t.op)
    && Private(s.op) == {} && Private(t.op) == {a}
    && Pending(t.op) == Pending(s.op) && Waiting(t.op) == Waiting(s.op)
  }

  lemma AllocatesPrivatelyKeeps(s: State, t: State, a: Addr)
    requires ViewOk(s) && MemoryOk(s) && AllocatesPrivately(s, t, a)
    ensures ViewOk(t) && MemoryOk(t)
  {
    AllocatesView(s, t, a);
    AllocatesMemory(s, t, a);
  }

  lemma AllocatesMemory(s: State, t: State, a: Addr)
    requires MemoryOk(s) && AllocatesPrivately(s, t, a)
    ensures MemoryOk(t)
  {
    hide Private, Pending, Waiting;
  }

  lemma AllocatesView(s: State, t: State, a: Addr)
    requires ViewOk(s) && MemoryOk(s) && AllocatesPrivately(s, t, a)
    ensures ViewOk(t)
  {
    hide ViewOk, GraceOk, Private, Pending, Waiting;
    Owns(s, HEAD);
    NotReachable(s, a);
    ViewFrame(s, t);
  }

  lemma AddKeeps(s: State, rec: Record, a: Addr)
    requires Inv(s)
    ensures Inv(StepAdd(s, rec, a))
  {
    hide ViewOk, MemoryOk, BackLinkedExcept, BackLinked;
    var t := StepAdd(s, rec, a);
    if s.op == Idle && Allocatable(s, a) {
      assert AllocatesPrivately(s, t, a);
      AllocatesPrivatelyKeeps(s, t, a);
      AllocatedBackLinks(s, t, a);
    }
  }

  lemma AllocatedBackLinks(s: State, t: State, a: Addr)
    requires MemoryOk(s) && BackLinked(s.prev, s.list) && Allocatable(s, a)
    requires t.list == s.list && a in t.prev && t.prev == s.prev[a := t.prev[a]]
    ensures BackLinked(t.prev, t.list)
  {
    NotReachable(s, a);
    BackLinkedFrame(s, t);
  }

  lemma FoundKeeps(s: State, a: Addr)
    requires Inv(s) && s.op.Found?
    ensures Inv(StepUpdate(s, a))
  {
    hide ViewOk, MemoryOk, FoundOk, BackLinked, BackLinkedExcept;
    hide StepAdding, StepSeeking, StepReplacing, StepDeleting, StepRetiring, StepSyncing;
    var t := StepUpdate(s, a);
    assert FoundOk(s, s.op.kind, s.op.id, s.op.orig) && BackLinked(s.prev, s.list);
    FoundIsThere(s);
    if Allocatable(s, a) {
      assert AllocatesPrivately(s, t, a);
      AllocatesPrivatelyKeeps(s, t, a);
      AllocatedBackLinks(s, t, a);
      FoundFrame(s, t, s.op.kind, s.op.id, s.op.orig) by { NotReachable(s, a); }
    } else {
      QuietStoreKeeps(s, t);
    }
  }

  lemma FoundIsThere(s: State)
    requires Inv(s) && s.op.Found?
    ensures s.op.orig in s.list && s.op.orig in s.next && s.op.orig in s.prev && s.op.orig in s.rec
  {
    Owns(s, s.op.orig);
    ListedIsBook(s, s.op.orig);
  }

  lemma ListedIsBook(s: State, a: Addr)
    requires ViewOk(s) && a in s.list
    ensures a > POISON
  {
  }

  lemma FoundFrame(s: State, t: State, kind: Kind, id: int, b: Addr)
    requires FoundOk(s, kind, id, b) && t.list == s.list
    requires forall a :: a in s.list ==> Lookup(t.rec, a) == Lookup(s.rec, a)
    ensures FoundOk(t, kind, id, b)
  {
    assert s.list[IndexOf(s.list, b)] == b;
  }

  // ----- list_add_rcu -----

  lemma AddingQuiet(s: State)
    requires Inv(s) && s.op.Adding? && s.op.pc != 2
    ensures Inv(StepUpdate(s, 0))
  {
    hide StepSeeking, StepFound, StepReplacing, StepDeleting, StepRetiring, StepSyncing;
    hide StepAdding, ViewOk, MemoryOk, BackLinked, BackLinkedExcept;
    if s.op.pc == 3 { AddingRelinks(s); } else { AddingFills(s); }
  }

  lemma AddingFills(s: State)
    requires Inv(s) && s.op.Adding? && s.op.pc <= 1
    ensures Inv(StepAdding(s, s.op.pc, s.op.n))
  {
    hide ViewOk, MemoryOk, BackLinked, BackLinkedExcept;
    var n := s.op.n;
    var t := StepAdding(s, s.op.pc, n);
    Owns(s, HEAD);
    PrivateFields(s, n);
    assert QuietStore(s, t);
    PrivateBackLinks(s, t, n);
    QuietStoreKeeps(s, t);
  }

  lemma AddingRelinks(s: State)
    requires Inv(s) && s.op.Adding? && s.op.pc == 3
    ensures Inv(StepAdding(s, s.op.pc, s.op.n))
  {
    hide ViewOk, MemoryOk, BackLinked, BackLinkedExcept;
    var t := StepAdding(s, 3, s.op.n);
    Owns(s, HEAD);
    AddingLast(s);
    assert QuietStore(s, t);
    Relinked(s, t, 1);
    QuietStoreKeeps(s, t);
  }

  lemma AddingLast(s: State)
    requires Inv(s) && s.op.Adding? && s.op.pc == 3
    ensures var n := s.op.n;
      n in s.next && s.next[n] == Nth(s.list, 1) && Nth(s.list, 1) in s.prev && Pred(s.list, 1) == n
    ensures Sorted(s.slot, s.list, |s.stock|) && BackLinkedExcept(s.prev, s.list, 1)
  {
    hide Stale, ReaderOk, Sorted, Stocked, BackLinkedExcept;
    LinkedAt(s, 0);
    NthIn(s, 1);
  }

  lemma PrivateFields(s: State, n: Addr)
    requires MemoryOk(s) && n in Private(s.op)
    ensures n > POISON && n !in s.list && n !in s.holders && n in s.next && n in s.prev && n in s.rec
  {
    Owns(s, n);
    NotReachable(s, n);
  }

  lemma PrivateBackLinks(s: State, t: State, n: Addr)
    requires MemoryOk(s) && BackLinked(s.prev, s.list) && n in Private(s.op)
    requires t.list == s.list && t.prev.Keys == s.prev.Keys
    requires forall a :: a in s.prev && a != n ==> t.prev[a] == s.prev[a]
    ensures BackLinked(t.prev, t.list)
  {
    hide GraceOk, Private;
    BackLinkedFrame(s, t);
  }

  // ----- list_replace_rcu, other than its publishing store -----

  lemma ReplacingQuiet(s: State)
    requires Inv(s) && s.op.Replacing? && s.op.pc != 2
    ensures Inv(StepUpdate(s, 0))
  {
    if s.op.pc <= 1 {
      ReplacingFills(s);
    } else if s.op.pc == 3 {
      ReplacingRelinks(s);
    } else {
      ReplacingPoisons(s);
    }
  }

  lemma ReplacingFills(s: State)
    requires Inv(s) && s.op.Replacing? && s.op.pc <= 1
    ensures Inv(StepUpdate(s, 0))
  {
    hide StepAdding, StepSeeking, StepFound, StepDeleting, StepRetiring, StepSyncing;
    hide Inv, Private, Pending, Waiting;
    var Replacing(pc, kind, id, async, orig, n) := s.op;
    ReplacedIsThere(s);
    FillKeeps(s, pc, kind, id, async, orig, n);
  }

  lemma FillKeeps(s: State, pc: nat, kind: Kind, id: int, async: bool, orig: Addr, n: Addr)
    requires Inv(s) && s.op == Replacing(pc, kind, id, async, orig, n) && pc <= 1
    requires orig in s.next && orig in s.prev && n in s.next && n in s.prev && n !in s.list && orig != n
    ensures Inv(StepReplacing(s, pc, kind, id, async, orig, n))
  {
    hide ViewOk, MemoryOk, BackLinked, BackLinkedExcept, FoundOk;
    var t := if pc == 0 then s.(next := s.next[n := s.next[orig]], op := Replacing(1, kind, id, async, orig, n))
             else s.(prev := s.prev[n := s.prev[orig]], op := Replacing(2, kind, id, async, orig, n));
    FilledIs(s, t, pc, kind, id, async, orig, n);
    assert QuietStore(s, t);
    QuietStoreKeeps(s, t);
    PrivateBackLinks(s, t, n);
    FoundFrame(s, t, kind, id, orig);
  }

  lemma FilledIs(s: State, t: State, pc: nat, kind: Kind, id: int, async: bool, orig: Addr, n: Addr)
    requires MemoryOk(s) && pc <= 1 && orig in s.next && orig in s.prev && n in s.next && n in s.prev
    requires t == if pc == 0 then s.(next := s.next[n := s.next[orig]], op := Replacing(1, kind, id, async, orig, n))
                  else s.(prev := s.prev[n := s.prev[orig]], op := Replacing(2, kind, id, async, orig, n))
    ensures t == StepReplacing(s, pc, kind, id, async, orig, n)
  {
    hide Partition, SameKeys, GraceOk;
    if pc == 0 { return; }
  }

  lemma ReplacedIsThere(s: State)
    requires Inv(s) && s.op.Replacing? && s.op.pc <= 2
    ensures s.op.orig in s.list && s.op.orig in s.next && s.op.orig in s.prev
    ensures s.op.orig in s.rec && s.op.orig > POISON
    ensures s.op.orig != s.op.n && s.op.n > POISON && s.op.n in s.next && s.op.n in s.prev
    ensures s.op.n in s.rec && s.op.n !in s.list && s.op.n !in s.holders
  {
    hide GraceOk, BackLinked, Stocked, Stale, ReaderOk;
    Owns(s, s.op.orig);
    ListedIsBook(s, s.op.orig);
    PrivateFields(s, s.op.n);
  }

  lemma ReplacingRelinks(s: State)
    requires Inv(s) && s.op.Replacing? && s.op.pc == 3
    ensures Inv(StepUpdate(s, 0))
  {
    hide StepAdding, StepSeeking, StepFound, StepDeleting, StepRetiring, StepSyncing;
    hide ViewOk, MemoryOk, BackLinked, BackLinkedExcept, FoundOk;
    var n, t := s.op.n, StepUpdate(s, 0);
    var k := IndexOf(s.list, n);
    UnlinkedIsThere(s, s.op.orig);
    Successor(s, n);
    assert QuietStore(s, t);
    QuietStoreKeeps(s, t);
    Relinked(s, t, k + 1) by { assert ViewOk(s); }
  }

  lemma UnlinkedIsThere(s: State, a: Addr)
    requires Inv(s) && a in Pending(s.op)
    ensures a in s.holders && a !in s.list && a != HEAD && a in s.next && a in s.prev && a in s.rec && a !in s.grace
  {
    hide UpdaterOk, Pending, Private, Stocked, ReaderOk, Linked, Sorted, NoSkip;
    assert Stale(s, a);
  }

  /** A listed book, its successor and the ring around it. */
  lemma Successor(s: State, a: Addr)
    requires ViewOk(s) && MemoryOk(s) && a in s.list
    ensures var k := IndexOf(s.list, a);
      && k < |s.list| && s.list[k] == a && a in s.next && a in s.prev && s.next[a] == Nth(s.list, k + 1)
      && Nth(s.list, k + 1) in s.prev && Nth(s.list, k + 1) in s.next
      && Nth(s.list, k + 1) != a && Pred(s.list, k + 1) == a
  {
    hide Linked, Sorted, Stocked, Stale, ReaderOk, MemoryOk;
    var k := IndexOf(s.list, a);
    LinkedAt(s, k);
    NthIn(s, k + 1);
    Owns(s, a);
    NthDistinct(s, k, k + 1);
  }

  lemma ReplacingPoisons(s: State)
    requires Inv(s) && s.op.Replacing? && s.op.pc == 4
    ensures Inv(StepUpdate(s, 0))
  {
    hide StepAdding, StepSeeking, StepFound, StepDeleting, StepRetiring, StepSyncing;
    hide ViewOk, MemoryOk, BackLinked, BackLinkedExcept, FoundOk;
    var t := StepUpdate(s, 0);
    UnlinkedIsThere(s, s.op.orig);
    assert QuietStore(s, t);
    QuietStoreKeeps(s, t);
    BackLinkedFrame(s, t);
  }

  // ----- list_del_rcu, other than its unlinking store -----

  lemma DeletingQuiet(s: State)
    requires Inv(s) && s.op.Deleting? && s.op.pc != 1
    ensures Inv(StepUpdate(s, 0))
  {
    if s.op.pc == 0 { UnlinkingBack(s); } else { PoisoningDeleted(s); }
  }

  lemma UnlinkingBack(s: State)
    requires Inv(s) && s.op.Deleting? && s.op.pc == 0
    ensures Inv(StepUpdate(s, 0))
  {
    hide StepAdding, StepSeeking, StepFound, StepReplacing, StepRetiring, StepSyncing;
    hide ViewOk, MemoryOk, BackLinked, BackLinkedExcept, IsFirst;
    var orig, t := s.op.orig, StepUpdate(s, 0);
    FirstListed(s, s.op.id, orig);
    Successor(s, orig);
    assert QuietStore(s, t);
    QuietStoreKeeps(s, t);
    Unlinking(s, t) by { assert ViewOk(s); }
  }

  lemma PoisoningDeleted(s: State)
    requires Inv(s) && s.op.Deleting? && s.op.pc == 2
    ensures Inv(StepUpdate(s, 0))
  {
    hide StepAdding, StepSeeking, StepFound, StepReplacing, StepRetiring, StepSyncing;
    hide ViewOk, MemoryOk, BackLinked, BackLinkedExcept, IsFirst;
    var t := StepUpdate(s, 0);
    UnlinkedIsThere(s, s.op.orig);
    assert QuietStore(s, t);
    QuietStoreKeeps(s, t);
    BackLinkedFrame(s, t);
  }

  lemma FirstListed(s: State, id: int, b: Addr)
    requires IsFirst(s, id, b)
    ensures b in s.list
  {
  }

  /** The first store of list_del_rcu puts one back link out of step. */
  lemma Unlinking(s: State, t: State)
    requires Sorted(s.slot, s.list, |s.stock|) && MemoryOk(s) && s.op.Deleting?
    requires BackLinked(s.prev, s.list) && IsFirst(s, s.op.id, s.op.orig)
    requires s.op.orig in s.next && s.op.orig in s.prev
    requires s.next[s.op.orig] == Nth(s.list, IndexOf(s.list, s.op.orig) + 1)
    requires t == s.(prev := s.prev[s.next[s.op.orig] := s.prev[s.op.orig]],
                     op := Deleting(1, s.op.id, s.op.async, s.op.orig))
    ensures DeletingOk(t, 1, s.op.id, s.op.orig)
  {
    hide MemoryOk;
    var k := IndexOf(s.list, s.op.orig);
    forall i | 0 <= i <= |t.list| && i != k + 1 ensures BackLink(t.prev, t.list, i) {
      assert BackLink(s.prev, s.list, i);
      if i < k + 1 { NthDistinct(s, i, k + 1); } else { NthDistinct(s, k + 1, i); }
    }
    assert BackLink(s.prev, s.list, k);
  }

  // ----- the start of a grace period -----

  lemma RetiringKeeps(s: State)
    requires Inv(s) && s.op.Retiring?
    ensures Inv(StepUpdate(s, 0))
  {
    hide StepAdding, StepSeeking, StepFound, StepReplacing, StepDeleting, StepSyncing;
    hide ViewOk, BackLinked, BackLinkedExcept, Partition, SameKeys;
    var t := StepUpdate(s, 0);
    UnlinkedIsThere(s, s.op.orig);
    OpOnlyPartition(s, t);
    RetiringKeepsView(s, t);
    HoldersAreReaders(s, s.op.orig);
  }

  lemma OpOnlyPartition(s: State, t: State)
    requires Partition(s) && SameKeys(s) && Private(s.op) == Private(t.op)
    requires t.next == s.next && t.prev == s.prev && t.rec == s.rec && t.list == s.list && t.holders == s.holders
    ensures Partition(t) && SameKeys(t)
  {
    hide Private;
  }

  lemma RetiringKeepsView(s: State, t: State)
    requires ViewOk(s) && MemoryOk(s) && t == s.(op := t.op, grace := t.grace, queue := t.queue)
    ensures ViewOk(t)
  {
    hide ViewOk;
    ViewFrame(s, t);
  }

  lemma HoldersAreReaders(s: State, a: Addr)
    requires ViewOk(s) && a in s.holders
    ensures s.holders[a] <= s.readers.Keys
  {
    hide ReaderOk, Stocked, Sorted, Linked;
    assert Stale(s, a);
  }
}
