/** Which single store each step of the updater of the RCU list is. */
module RcuListStores {
  import opened Runs
  import opened RcuList
  import opened RcuListInvariant
  import opened RcuListSteps
  import opened RcuListUpdates
  import opened RcuListPublish
  import opened RcuListCatalogue

  /** From `s` to `t` only the next pointer of `p` is stored to (and history is kept). */
  ghost predicate StoresNext(s: State, p: Addr, v: Addr, t: State) {
    && p in s.next && t.next == s.next[p := v]
    && t.prev == s.prev && t.rec == s.rec && t.grace == s.grace && t.queue == s.queue && t.fault == s.fault
  }

  /** From `s` to `t` only the back pointer of `p` is stored to. */
  ghost predicate StoresPrev(s: State, p: Addr, v: Addr, t: State) {
    && p in s.prev && t.prev == s.prev[p := v]
    && t.next == s.next && t.rec == s.rec && t.grace == s.grace && t.queue == s.queue && t.fault == s.fault
    && t.readers == s.readers && t.list == s.list && t.slot == s.slot && t.stock == s.stock && t.holders == s.holders
  }

  // ----- list_add_rcu -----

  lemma AddStore0(s: State, n: Addr)
    requires Inv(s) && s.op == Adding(0, n)
    ensures HEAD in s.next && StoresNext(s, n, s.next[HEAD], StepUpdate(s, 0)) && StepUpdate(s, 0).op == Adding(1, n)
  {
    hide ViewOk, MemoryOk, UpdaterOk, StepSeeking, StepFound, StepReplacing, StepDeleting, StepRetiring, StepSyncing;
    Owns(s, HEAD);
    PrivateFields(s, n);
  }

  lemma AddStore1(s: State, n: Addr)
    requires Inv(s) && s.op == Adding(1, n)
    ensures StoresPrev(s, n, HEAD, StepUpdate(s, 0)) && StepUpdate(s, 0).op == Adding(2, n)
  {
    hide ViewOk, MemoryOk, UpdaterOk, StepSeeking, StepFound, StepReplacing, StepDeleting, StepRetiring, StepSyncing;
    Owns(s, HEAD);
    PrivateFields(s, n);
  }

  lemma AddStore2(s: State, n: Addr)
    requires Inv(s) && s.op == Adding(2, n)
    ensures StoresNext(s, HEAD, n, StepUpdate(s, 0)) && StepUpdate(s, 0).op == Adding(3, n)
  {
    hide ViewOk, MemoryOk, UpdaterOk, StepSeeking, StepFound, StepReplacing, StepDeleting, StepRetiring, StepSyncing;
    Owns(s, HEAD);
    PrivateFields(s, n);
  }

  lemma AddStore3(s: State, n: Addr)
    requires Inv(s) && s.op == Adding(3, n)
    ensures n in s.next && StoresPrev(s, s.next[n], n, StepUpdate(s, 0)) && StepUpdate(s, 0).op == Idle
  {
    hide ViewOk, MemoryOk, BackLinkedExcept, StepSeeking, StepFound, StepReplacing, StepDeleting, StepRetiring,
         StepSyncing;
    Owns(s, HEAD);
    AddingLast(s);
  }

  // ----- list_replace_rcu -----

  lemma ReplaceStore0(s: State)
    requires Inv(s) && s.op.Replacing? && s.op.pc == 0
    ensures s.op.orig in s.next && StoresNext(s, s.op.n, s.next[s.op.orig], StepUpdate(s, 0))
    ensures StepUpdate(s, 0).op == Replacing(1, s.op.kind, s.op.id, s.op.async, s.op.orig, s.op.n)
  {
    hide ViewOk, MemoryOk, UpdaterOk, StepAdding, StepSeeking, StepFound, StepDeleting, StepRetiring, StepSyncing;
    ReplacedIsThere(s);
    NoFault(s);
  }

  lemma ReplaceStore1(s: State)
    requires Inv(s) && s.op.Replacing? && s.op.pc == 1
    ensures s.op.orig in s.prev && StoresPrev(s, s.op.n, s.prev[s.op.orig], StepUpdate(s, 0))
    ensures StepUpdate(s, 0).op == Replacing(2, s.op.kind, s.op.id, s.op.async, s.op.orig, s.op.n)
  {
    hide ViewOk, MemoryOk, UpdaterOk, StepAdding, StepSeeking, StepFound, StepDeleting, StepRetiring, StepSyncing;
    ReplacedIsThere(s);
    NoFault(s);
  }

  lemma ReplaceStore2(s: State)
    requires Inv(s) && s.op.Replacing? && s.op.pc == 2
    ensures s.op.n in s.prev && StoresNext(s, s.prev[s.op.n], s.op.n, StepUpdate(s, 0))
    ensures StepUpdate(s, 0).op == Replacing(3, s.op.kind, s.op.id, s.op.async, s.op.orig, s.op.n)
  {
    hide ViewOk, MemoryOk, UpdaterOk, StepAdding, StepSeeking, StepFound, StepDeleting, StepRetiring, StepSyncing;
    ReplaceReady(s);
    NoFault(s);
  }

  lemma ReplaceStore3(s: State)
    requires Inv(s) && s.op.Replacing? && s.op.pc == 3
    ensures s.op.n in s.next && StoresPrev(s, s.next[s.op.n], s.op.n, StepUpdate(s, 0))
    ensures StepUpdate(s, 0).op == Replacing(4, s.op.kind, s.op.id, s.op.async, s.op.orig, s.op.n)
  {
    hide ViewOk, MemoryOk, BackLinkedExcept, StepAdding, StepSeeking, StepFound, StepDeleting, StepRetiring,
         StepSyncing;
    Successor(s, s.op.n);
    NoFault(s);
  }

  lemma ReplaceStore4(s: State)
    requires Inv(s) && s.op.Replacing? && s.op.pc == 4
    ensures StoresPrev(s, s.op.orig, POISON, StepUpdate(s, 0)) && StepUpdate(s, 0).op == Retiring(s.op.async, s.op.orig)
  {
    hide ViewOk, MemoryOk, UpdaterOk, StepAdding, StepSeeking, StepFound, StepDeleting, StepRetiring, StepSyncing;
    UnlinkedIsThere(s, s.op.orig);
    NoFault(s);
  }

  // ----- list_del_rcu -----

  lemma DeleteStore0(s: State)
    requires Inv(s) && s.op.Deleting? && s.op.pc == 0
    ensures s.op.orig in s.next && s.op.orig in s.prev
    ensures StoresPrev(s, s.next[s.op.orig], s.prev[s.op.orig], StepUpdate(s, 0))
    ensures StepUpdate(s, 0).op == Deleting(1, s.op.id, s.op.async, s.op.orig)
  {
    hide ViewOk, MemoryOk, BackLinked, StepAdding, StepSeeking, StepFound, StepReplacing, StepRetiring, StepSyncing;
    FirstListed(s, s.op.id, s.op.orig);
    Successor(s, s.op.orig);
  }

  lemma DeleteStore1(s: State)
    requires Inv(s) && s.op.Deleting? && s.op.pc == 1
    ensures s.op.orig in s.next && s.op.orig in s.prev
    ensures StoresNext(s, s.prev[s.op.orig], s.next[s.op.orig], StepUpdate(s, 0))
    ensures StepUpdate(s, 0).op == Deleting(2, s.op.id, s.op.async, s.op.orig)
  {
    hide ViewOk, MemoryOk, UpdaterOk, StepAdding, StepSeeking, StepFound, StepReplacing, StepRetiring, StepSyncing;
    DeleteReady(s);
  }

  lemma DeleteStore2(s: State)
    requires Inv(s) && s.op.Deleting? && s.op.pc == 2
    ensures StoresPrev(s, s.op.orig, POISON, StepUpdate(s, 0)) && StepUpdate(s, 0).op == Retiring(s.op.async, s.op.orig)
  {
    hide ViewOk, MemoryOk, UpdaterOk, StepAdding, StepSeeking, StepFound, StepReplacing, StepRetiring, StepSyncing;
    UnlinkedIsThere(s, s.op.orig);
  }

  // ----- the copy, and what happens to the original -----

  lemma CopyStore(s: State, a: Addr)
    requires Inv(s) && s.op.Found? && Allocatable(s, a)
    ensures var orig, t := s.op.orig, StepUpdate(s, a);
      && orig in s.next && orig in s.prev && orig in s.rec
      && t.next == s.next[a := s.next[orig]] && t.prev == s.prev[a := s.prev[orig]]
      && t.rec == s.rec[a := Flipped(s.op.kind, s.rec[orig])]
      && t.op == Replacing(0, s.op.kind, s.op.id, s.op.async, orig, a)
      && t == s.(next := t.next, prev := t.prev, rec := t.rec, op := t.op)
      && Contents(t) == Contents(s)
  {
    hide ViewOk, MemoryOk, BackLinked, IsFirst, Contents, StepAdding, StepSeeking, StepReplacing, StepDeleting,
         StepRetiring, StepSyncing;
    FoundIsThere(s);
    OthersKeepContents(s, Update(a));
  }

  lemma RetireStore(s: State)
    requires Inv(s) && s.op.Retiring?
    ensures var orig, async := s.op.orig, s.op.async;
      && orig !in s.queue && orig in s.next
      && StepUpdate(s, 0) == s.(grace := s.grace[orig := s.readers.Keys],
                                queue := if async then s.queue + {orig} else s.queue,
                                op := if async then Idle else Syncing(orig))
  {
    hide ViewOk, Partition, SameKeys, BackLinked, StepAdding, StepSeeking, StepFound, StepReplacing, StepDeleting,
         StepSyncing;
    UnlinkedIsThere(s, s.op.orig);
  }

  lemma SyncStore(s: State)
    requires Inv(s) && s.op.Syncing?
    ensures var orig := s.op.orig;
      && orig in s.grace && orig in s.next && orig !in s.list && orig !in s.queue
      && (s.grace[orig] == {} ==> StepUpdate(s, 0) == Kfree(s, orig).(op := Idle))
  {
    hide ViewOk, SameKeys, BackLinked, StepAdding, StepSeeking, StepFound, StepReplacing, StepDeleting, StepRetiring;
    assert s.op.orig in Waiting(s.op);
    assert s.op.orig in s.holders;
    HeldNotListed(s, s.op.orig);
  }

  lemma HeldNotListed(s: State, a: Addr)
    requires ViewOk(s) && a in s.holders
    ensures a !in s.list
  {
    hide ReaderOk, Stocked, Sorted, Linked;
    assert Stale(s, a);
  }
}
