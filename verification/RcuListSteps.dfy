/** Every step of the RCU list keeps its invariant. */
module RcuListSteps {
  import opened Runs
  import opened RcuList
  import opened RcuListInvariant

  // ----- steps that readers cannot notice -----

  ghost predicate SameHistory(s: State, t: State) {
    t.list == s.list && t.slot == s.slot && t.stock == s.stock && t.holders == s.holders && t.readers == s.readers
  }

  /** What a reader can load is untouched. */
  ghost predicate SameView(s: State, t: State) {
    && SameHistory(s, t)
    && HEAD in t.next && HEAD in s.next && t.next[HEAD] == s.next[HEAD]
    && (forall a :: Reachable(s, a) && a in s.next ==> a in t.next && t.next[a] == s.next[a])
    && (forall a :: Reachable(s, a) && a in s.rec ==> a in t.rec && t.rec[a] == s.rec[a])
  }

  lemma ReachableNth(s: State, i: nat)
    requires i < |s.list|
    ensures Reachable(s, s.list[i])
  {
  }

  lemma StaleFrame(s: State, t: State, a: Addr)
    requires ViewOk(s) && SameView(s, t) && a in s.holders
    ensures Stale(t, a)
  {
    hide ReaderOk, SameBook;
    assert Reachable(s, a) && Stale(s, a);
  }

  lemma StockedFrame(s: State, t: State)
    requires Stocked(s)
    requires t.list == s.list && t.slot == s.slot && t.stock == s.stock && t.holders == s.holders
    requires forall a :: Reachable(s, a) && a in s.rec ==> a in t.rec && t.rec[a] == s.rec[a]
    ensures Stocked(t)
  {
    forall a | Reachable(t, a)
      ensures a in t.rec && a in t.slot && 1 <= t.slot[a] <= |t.stock| && SameBook(t.rec[a], t.stock[t.slot[a] - 1])
    {
      assert Reachable(s, a);
    }
  }

  lemma LinkedFrame(s: State, t: State)
    requires Linked(s.next, s.list) && SameView(s, t)
    ensures Linked(t.next, t.list)
  {
    forall i | 0 <= i < |t.list| ensures t.list[i] in t.next && t.next[t.list[i]] == Nth(t.list, i + 1) {
      ReachableNth(s, i);
    }
  }

  lemma ViewFrame(s: State, t: State)
    requires ViewOk(s) && SameView(s, t)
    ensures ViewOk(t)
  {
    hide Stale, ReaderOk, Linked, Stocked, Sorted, Reachable;
    LinkedFrame(s, t);
    StockedFrame(s, t);
    forall a | a in t.holders ensures Stale(t, a) { StaleFrame(s, t, a); }
    forall r | r in t.readers ensures ReaderOk(t, r, t.readers[r]) { ReaderFrame(s, t, r); }
  }

  lemma ReaderFrame(s: State, t: State, r: Reader)
    requires ViewOk(s) && SameView(s, t) && r in s.readers
    ensures ReaderOk(t, r, t.readers[r])
  {
    assert ReaderOk(s, r, s.readers[r]);
    forall i | 0 <= i < |t.list|
      ensures Visit(SlotOf(t.slot, t.list[i]), Lookup(t.rec, t.list[i])) in t.readers[r].current
    {
      ReachableNth(s, i);
    }
    forall a | a in t.holders && r in t.holders[a]
      ensures Visit(SlotOf(t.slot, a), Lookup(t.rec, a)) in t.readers[r].current
    {
      assert Reachable(s, a) && Stale(s, a);
    }
  }

  // ----- readers -----

  lemma LockKeeps(s: State, r: Reader)
    requires Inv(s)
    ensures Inv(StepReadLock(s, r))
  {
    if r !in s.readers {
      LockKeepsView(s, r);
      LockKeepsMemory(s, r);
    }
  }

  lemma LockKeepsMemory(s: State, r: Reader)
    requires Inv(s) && r !in s.readers
    ensures MemoryOk(StepReadLock(s, r)) && UpdaterOk(StepReadLock(s, r))
  {
    hide ViewOk;
    var t := StepReadLock(s, r);
    forall a | a in t.grace ensures a in t.holders && t.holders[a] <= t.grace[a] <= t.readers.Keys {
      assert s.holders[a] <= s.grace[a] <= s.readers.Keys;
    }
  }

  lemma LockKeepsView(s: State, r: Reader)
    requires Inv(s) && r !in s.readers
    ensures ViewOk(StepReadLock(s, r))
  {
    hide UpdaterOk, MemoryOk, Linked, Sorted, NoSkip, ReaderOk;
    var t := StepReadLock(s, r);
    forall a | a in t.holders ensures Stale(t, a) { assert Stale(s, a); }
    forall a | Reachable(t, a)
      ensures a in t.rec && a in t.slot && 1 <= t.slot[a] <= |t.stock| && SameBook(t.rec[a], t.stock[t.slot[a] - 1])
    {
      assert Reachable(s, a);
    }
    forall q | q in t.readers ensures ReaderOk(t, q, t.readers[q]) {
      if q == r { FreshReader(s, t, r); } else { OtherReader(s, t, q); }
    }
  }

  lemma FreshReader(s: State, t: State, r: Reader)
    requires Inv(s) && r !in s.readers && t == StepReadLock(s, r)
    ensures ReaderOk(t, r, t.readers[r])
  {
    hide UpdaterOk, MemoryOk, Linked, Sorted, NoSkip, Stocked;
    forall a | a in t.holders ensures r !in t.holders[a] { assert Stale(s, a); }
  }

  /** A reader is not affected by what another one does. */
  lemma OtherReader(s: State, t: State, q: Reader)
    requires ViewOk(s) && q in s.readers && q in t.readers && t.readers[q] == s.readers[q]
    requires t.list == s.list && t.slot == s.slot && t.stock == s.stock && t.rec == s.rec
    requires t.holders.Keys == s.holders.Keys
    requires forall a :: a in s.holders ==> (q in t.holders[a] <==> q in s.holders[a])
    ensures ReaderOk(t, q, t.readers[q])
  {
    hide Linked, Sorted, Stale, Stocked, SlotsOf;
    assert ReaderOk(s, q, s.readers[q]);
  }

  lemma UnlockKeeps(s: State, r: Reader)
    requires Inv(s)
    ensures Inv(StepReadUnlock(s, r))
  {
    UnlockKeepsView(s, r);
    UnlockKeepsMemory(s, r);
  }

  lemma UnlockKeepsMemory(s: State, r: Reader)
    requires Inv(s)
    ensures MemoryOk(StepReadUnlock(s, r)) && UpdaterOk(StepReadUnlock(s, r))
  {
    hide ViewOk, UpdaterOk, GraceOk, Partition, SameKeys, StepReadUnlock;
    UnlockKeepsGrace(s, r);
    UnlockKeepsUpdater(s, r);
    UnlockFrame(s, r);
    SameAllocation(s, StepReadUnlock(s, r));
  }

  lemma SameAllocation(s: State, t: State)
    requires Partition(s) && SameKeys(s)
    requires t.next == s.next && t.prev == s.prev && t.rec == s.rec && t.op == s.op && t.list == s.list
    requires t.holders.Keys == s.holders.Keys
    ensures Partition(t) && SameKeys(t)
  {
    hide Private;
    assert forall a :: a in t.holders <==> a in s.holders.Keys;
  }

  /** Leaving a section touches no memory. */
  lemma UnlockFrame(s: State, r: Reader)
    ensures var t := StepReadUnlock(s, r);
      && t.next == s.next && t.prev == s.prev && t.rec == s.rec && t.op == s.op && t.list == s.list
      && t.fault == s.fault && t.holders.Keys == s.holders.Keys
  {
  }

  lemma UnlockKeepsGrace(s: State, r: Reader)
    requires GraceOk(s)
    ensures GraceOk(StepReadUnlock(s, r))
  {
    hide Pending, Waiting;
    var t := StepReadUnlock(s, r);
    assert t.holders.Keys == s.holders.Keys && t.grace.Keys == s.grace.Keys;
    forall a | a in t.grace ensures a in t.holders && t.holders[a] <= t.grace[a] <= t.readers.Keys {
      assert s.holders[a] <= s.grace[a] <= s.readers.Keys;
    }
  }

  lemma UnlockKeepsUpdater(s: State, r: Reader)
    requires UpdaterOk(s)
    ensures UpdaterOk(StepReadUnlock(s, r))
  {
    UnlockFrame(s, r);
    hide StepReadUnlock, BackLinked, BackLinkedExcept;
  }

  lemma UnlockKeepsView(s: State, r: Reader)
    requires Inv(s)
    ensures ViewOk(StepReadUnlock(s, r))
  {
    hide UpdaterOk, MemoryOk, Linked, Sorted, NoSkip, ReaderOk;
    var t := StepReadUnlock(s, r);
    forall a | a in t.holders ensures Stale(t, a) { assert Stale(s, a); }
    forall a | Reachable(t, a)
      ensures a in t.rec && a in t.slot && 1 <= t.slot[a] <= |t.stock| && SameBook(t.rec[a], t.stock[t.slot[a] - 1])
    {
      assert Reachable(s, a);
    }
    forall q | q in t.readers ensures ReaderOk(t, q, t.readers[q]) { OtherReader(s, t, q); }
  }

  /** Following the next pointer of `a` on behalf of reader `r` is safe and skips nothing. */
  ghost predicate LeadsOn(s: State, r: Reader, a: Addr, n: Addr) {
    && (n == HEAD || n in s.list || (n in s.holders && r in s.holders[n]))
    && Rank(s.slot, n) < SlotOf(s.slot, a)
    && NoSkip(s.slot, s.list, SlotOf(s.slot, a), Rank(s.slot, n))
  }

  /** What a reader meets at `n`. */
  ghost predicate Meets(s: State, n: Addr) {
    n != HEAD ==> n in s.rec && n in s.slot && 1 <= s.slot[n] <= |s.stock| && SameBook(s.rec[n], s.stock[s.slot[n] - 1])
  }

  /** Where a standing reader goes next is listed or kept alive for it, and nothing is skipped. */
  lemma NextStop(s: State, r: Reader)
    requires ViewOk(s) && r in s.readers && !s.readers[r].done
    ensures var c := s.readers[r];
      && c.at in s.next
      && (c.at != HEAD ==> LeadsOn(s, r, c.at, s.next[c.at]))
      && (c.at == HEAD ==> s.next[c.at] == Nth(s.list, 0))
      && Meets(s, s.next[c.at])
  {
    hide ViewOk, LeadsOn, Meets, Nth;
    StandsSomewhere(s, r);
    var c := s.readers[r];
    if c.at == HEAD {
      HeadLeads(s);
    } else if c.at in s.list {
      var i :| 0 <= i < |s.list| && s.list[i] == c.at;
      NextListed(s, r, i);
    } else {
      NextStale(s, r, c.at);
    }
  }

  lemma StandsSomewhere(s: State, r: Reader)
    requires ViewOk(s) && r in s.readers && !s.readers[r].done
    ensures var a := s.readers[r].at; a == HEAD || a in s.list || (a in s.holders && r in s.holders[a])
  {
    hide Genuine, Covered, Complete, Descending, Stale, Linked, Stocked, Sorted;
    assert ReaderOk(s, r, s.readers[r]);
  }

  lemma HeadLeads(s: State)
    requires ViewOk(s)
    ensures HEAD in s.next && s.next[HEAD] == Nth(s.list, 0) && Meets(s, s.next[HEAD])
  {
    hide ReaderOk, Stale;
    if |s.list| > 0 { ReachableNth(s, 0); }
  }

  lemma NextStale(s: State, r: Reader, a: Addr)
    requires ViewOk(s) && a in s.holders && r in s.holders[a]
    ensures a in s.next && LeadsOn(s, r, a, s.next[a]) && Meets(s, s.next[a])
  {
    hide ReaderOk, Sorted, Linked, NoSkip, SameBook;
    assert Stale(s, a);
    assert s.next[a] != HEAD ==> Reachable(s, s.next[a]);
  }

  lemma NextListed(s: State, r: Reader, i: nat)
    requires ViewOk(s) && i < |s.list|
    ensures s.list[i] in s.next && LeadsOn(s, r, s.list[i], s.next[s.list[i]]) && Meets(s, s.next[s.list[i]])
  {
    hide ReaderOk, Stale, SameBook, Stocked, Sorted, NoSkip;
    assert s.next[s.list[i]] == Nth(s.list, i + 1);
    NthRank(s, i);
    if i + 1 < |s.list| { NthMeets(s, i + 1); }
  }

  lemma NthMeets(s: State, i: nat)
    requires Stocked(s) && i < |s.list|
    ensures Meets(s, s.list[i])
  {
    hide SameBook;
    ReachableNth(s, i);
  }

  lemma NthRank(s: State, i: nat)
    requires Sorted(s.slot, s.list, |s.stock|) && i < |s.list|
    ensures Rank(s.slot, Nth(s.list, i + 1)) < SlotOf(s.slot, s.list[i])
    ensures NoSkip(s.slot, s.list, SlotOf(s.slot, s.list[i]), Rank(s.slot, Nth(s.list, i + 1)))
  {
    forall j | 0 <= j < |s.list| && SlotOf(s.slot, s.list[j]) < SlotOf(s.slot, s.list[i])
      ensures SlotOf(s.slot, s.list[j]) <= Rank(s.slot, Nth(s.list, i + 1))
    {
      assert j > i;
    }
  }

  /** The new cursor of a reader that moves on. */
  function Moved(s: State, c: Cursor): Cursor
    requires c.at in s.next && (s.next[c.at] == HEAD || s.next[c.at] in s.rec)
  {
    var n := s.next[c.at];
    if n == HEAD then c.(at := HEAD, done := true)
    else c.(at := n, visited := c.visited + [Visit(SlotOf(s.slot, n), s.rec[n])])
  }

  lemma AdvanceKeeps(s: State, r: Reader)
    requires Inv(s)
    ensures Inv(StepAdvance(s, r))
  {
    hide UpdaterOk, MemoryOk, Linked, Sorted, NoSkip, ReaderOk, Stocked, Stale;
    if r in s.readers && !s.readers[r].done {
      NextStop(s, r);
      var t := s.(readers := s.readers[r := Moved(s, s.readers[r])]);
      assert t == StepAdvance(s, r);
      OnlyReadersMove(s, t);
      forall q | q in t.readers ensures ReaderOk(t, q, t.readers[q]) {
        if q == r { AdvancedReader(s, t, r); } else { OtherReader(s, t, q); }
      }
    }
  }

  lemma OnlyReadersMove(s: State, t: State)
    requires Inv(s) && t == s.(readers := t.readers) && t.readers.Keys == s.readers.Keys
    ensures
      && MemoryOk(t) && UpdaterOk(t) && Linked(t.next, t.list) && Sorted(t.slot, t.list, |t.stock|)
      && Stocked(t) && forall a :: a in t.holders ==> Stale(t, a)
  {
    hide ReaderOk, Linked, Sorted, Stocked, Stale, UpdaterOk, Partition, SameKeys;
    StockedFrame(s, t);
    forall a | a in t.holders ensures Stale(t, a) { StaleOnlyReadersMove(s, t, a); }
    OnlyReadersMoveUpdater(s, t);
    OnlyReadersMoveMemory(s, t);
  }

  lemma StaleOnlyReadersMove(s: State, t: State, a: Addr)
    requires a in s.holders && Stale(s, a) && t == s.(readers := t.readers) && t.readers.Keys == s.readers.Keys
    ensures Stale(t, a)
  {
  }

  lemma OnlyReadersMoveMemory(s: State, t: State)
    requires MemoryOk(s) && t == s.(readers := t.readers) && t.readers.Keys == s.readers.Keys
    ensures MemoryOk(t)
  {
  }

  lemma OnlyReadersMoveUpdater(s: State, t: State)
    requires UpdaterOk(s) && t == s.(readers := t.readers)
    ensures UpdaterOk(t)
  {
    hide BackLinked, BackLinkedExcept;
  }

  lemma AdvancedReader(s: State, t: State, r: Reader)
    requires Inv(s) && r in s.readers && !s.readers[r].done
    requires s.readers[r].at in s.next && (s.next[s.readers[r].at] == HEAD || s.next[s.readers[r].at] in s.rec)
    requires t == s.(readers := s.readers[r := Moved(s, s.readers[r])])
    ensures ReaderOk(t, r, t.readers[r])
  {
    hide UpdaterOk, MemoryOk, Linked, Sorted, NoSkip, Stocked, Complete, SlotsOf, Stale, Genuine, Covered, Standing,
         Descending;
    assert ReaderOk(s, r, s.readers[r]);
    AdvancedStanding(s, t, r);
    AdvancedGenuine(s, t, r);
    AdvancedComplete(s, t, r);
  }

  lemma AdvancedStanding(s: State, t: State, r: Reader)
    requires Inv(s) && r in s.readers && !s.readers[r].done
    requires s.readers[r].at in s.next && (s.next[s.readers[r].at] == HEAD || s.next[s.readers[r].at] in s.rec)
    requires t == s.(readers := s.readers[r := Moved(s, s.readers[r])])
    ensures (!t.readers[r].done ==> Standing(t, r, t.readers[r])) && Descending(t.readers[r].visited)
  {
    hide UpdaterOk, MemoryOk, Linked, Sorted, NoSkip, Stocked, Complete, SlotsOf, Stale, Genuine, Covered;
    NextStop(s, r);
    assert ReaderOk(s, r, s.readers[r]);
  }

  lemma AdvancedGenuine(s: State, t: State, r: Reader)
    requires Inv(s) && r in s.readers && !s.readers[r].done
    requires s.readers[r].at in s.next && (s.next[s.readers[r].at] == HEAD || s.next[s.readers[r].at] in s.rec)
    requires t == s.(readers := s.readers[r := Moved(s, s.readers[r])])
    ensures Genuine(t, t.readers[r]) && Covered(t, r, t.readers[r])
  {
    hide UpdaterOk, MemoryOk, Linked, Sorted, NoSkip, Stocked, Complete, SlotsOf, Stale, Descending, Standing, SameBook;
    NextStop(s, r);
    assert ReaderOk(s, r, s.readers[r]);
    var n := s.next[s.readers[r].at];
    if n in s.list { var i :| 0 <= i < |s.list| && s.list[i] == n; }
  }

  lemma AdvancedComplete(s: State, t: State, r: Reader)
    requires Inv(s) && r in s.readers && !s.readers[r].done
    requires s.readers[r].at in s.next && (s.next[s.readers[r].at] == HEAD || s.next[s.readers[r].at] in s.rec)
    requires t == s.(readers := s.readers[r := Moved(s, s.readers[r])])
    ensures Complete(t, t.readers[r])
  {
    hide UpdaterOk, MemoryOk, Linked, Sorted, NoSkip, Stocked, Stale, Genuine, Covered;
    NextStop(s, r);
    var c, d := s.readers[r], t.readers[r];
    var n := s.next[c.at];
    assert ReaderOk(s, r, c);
    forall k | k in d.through
      ensures Saw(d.visited, k) || (!d.done && (d.visited == [] || k < d.visited[|d.visited| - 1].slot))
    {
      NothingBetween(s, r, k);
      if Saw(c.visited, k) {
        var i :| 0 <= i < |c.visited| && c.visited[i].slot == k;
        assert d.visited[i].slot == k;
      } else if n != HEAD && k == SlotOf(s.slot, n) {
        assert d.visited[|d.visited| - 1].slot == k;
      }
    }
  }

  /** No slot listed throughout lies between where the reader stands and where it goes. */
  lemma NothingBetween(s: State, r: Reader, k: nat)
    requires ViewOk(s) && r in s.readers && !s.readers[r].done && k in s.readers[r].through
    requires s.readers[r].at in s.next
    ensures Saw(s.readers[r].visited, k) || 1 <= k <= Rank(s.slot, s.next[s.readers[r].at])
  {
    hide Linked, Stocked, Stale, Genuine, Covered;
    var c := s.readers[r];
    assert ReaderOk(s, r, c);
    NextStop(s, r);
    var i :| 0 <= i < |s.list| && SlotOf(s.slot, s.list[i]) == k;
    assert s.list[i] in s.slot && s.slot[s.list[i]] == k;
    if !Saw(c.visited, k) && c.at == HEAD {
      assert i == 0 || s.slot[s.list[0]] > s.slot[s.list[i]];
    }
  }
}
