/** Add_book and Is_borrowed under every interleaving, and a traversal without any. */
module RcuListCalls {
  import opened Runs
  import opened RcuList
  import opened RcuListInvariant
  import opened RcuListSteps
  import opened RcuListUpdates
  import opened RcuListPublish
  import opened RcuListTheorems
  import opened RcuListCatalogue

  // ----- Add_book -----

  /** How far the addition of `rec` at `a` to the catalogue `books` has come; at its end the
      catalogue is `final`. */
  ghost predicate InAdd(books: seq<Record>, final: seq<Record>, rec: Record, a: Addr, s: State) {
    match s.op
    case Idle => Contents(s) == final
    case Adding(pc, n) =>
      && n == a && a in s.rec && s.rec[a] == rec && final == [rec] + books
      && Contents(s) == if pc <= 2 then books else final
    case _ => false
  }

  /** One store of list_add_rcu. */
  lemma AddingAdvances(s: State)
    requires Inv(s) && s.op.Adding?
    ensures var t := StepAdding(s, s.op.pc, s.op.n);
      t.rec == s.rec && t.op == if s.op.pc <= 2 then Adding(s.op.pc + 1, s.op.n) else Idle
  {
    AddedIsAllocated(s);
    hide Inv, NoteAdded, SetNext, SetPrev;
    NotesKeep(SetNext(s, HEAD, s.op.n), s.op.n);
    assert s.op.pc <= 3;
  }

  lemma AddedIsAllocated(s: State)
    requires Inv(s) && s.op.Adding?
    ensures s.op.pc <= 3 && HEAD in s.next && s.op.n in s.next && s.op.n in s.rec
    ensures s.op.n in s.list || s.op.n in Private(s.op)
  {
    hide Linked, Stocked, Stale, ReaderOk, BackLinked, BackLinkedExcept, GraceOk;
    assert s.op.pc == 3 ==> s.list[0] == s.op.n;
    Owns(s, HEAD);
    Owns(s, s.op.n);
  }

  lemma NotesKeep(s: State, n: Addr)
    ensures NoteAdded(s, n).rec == s.rec
  {
  }

  lemma StoreInAdd(books: seq<Record>, final: seq<Record>, rec: Record, a: Addr, s: State, x: Addr)
    requires Inv(s) && InAdd(books, final, rec, a, s) && s.op.Adding?
    ensures InAdd(books, final, rec, a, StepUpdate(s, x))
  {
    AddingAdvances(s);
    assert StepUpdate(s, x) == StepAdding(s, s.op.pc, s.op.n);
    assert Step(s, Update(0)) == StepUpdate(s, 0) == StepAdding(s, s.op.pc, s.op.n);
    hide Inv, Contents, Step, StepUpdate, StepAdding;
    if s.op.pc == 2 {
      AddTakesEffect(s);
    } else {
      OthersKeepContents(s, Update(0));
    }
  }

  /** A callback frees neither the new book nor any listed one. */
  lemma CallbackKeepsRec(s: State, b: Addr, a: Addr)
    requires Inv(s) && (a in s.list || a in Private(s.op)) && a in s.rec
    ensures var t := StepCallback(s, b); a in t.rec && t.rec[a] == s.rec[a]
  {
    hide ViewOk, MemoryOk, UpdaterOk, Kfree, Private;
    if b in s.queue && (b in s.grace ==> s.grace[b] == {}) {
      QueuedIsFreeable(s, b);
      KfreeUntouched(s, Kfree(s, b), b);
      KfreeKeepsOp(s, b);
    }
  }

  lemma QueuedIsFreeable(s: State, b: Addr)
    requires MemoryOk(s) && b in s.queue && (b in s.grace ==> s.grace[b] == {})
    ensures Freeable(s, b)
  {
    hide Partition, SameKeys;
  }

  lemma ReadersKeepRec(s: State, e: Event)
    requires e.ReadLock? || e.Advance? || e.ReadUnlock?
    ensures Step(s, e).rec == s.rec
  {
    hide SlotsOf, VisitsOf, SlotOf;
    match e {
      case Advance(r) =>
        if r !in s.readers || s.readers[r].done { return; }
        if s.readers[r].at !in s.next { return; }
        if s.next[s.readers[r].at] == HEAD { return; }
      case _ =>
    }
  }

  lemma StepInAdd(books: seq<Record>, final: seq<Record>, rec: Record, a: Addr, s: State, e: Event)
    requires Inv(s) && InAdd(books, final, rec, a, s) && !e.Add? && !e.Call?
    ensures InAdd(books, final, rec, a, Step(s, e))
  {
    if e.Update? {
      assert Step(s, e) == StepUpdate(s, e.a);
      if s.op.Adding? { StoreInAdd(books, final, rec, a, s, e.a); }
      return;
    }
    hide Inv, Contents, Step;
    OthersKeepContents(s, e);
    ReadersKeepOp(s, e);
    if s.op.Adding? {
      AddedIsAllocated(s);
      if e.Callback? {
        CallbackKeepsRec(s, e.b, a);
        CallbackIs(s, e.b);
      } else {
        ReadersKeepRec(s, e);
      }
    }
  }

  lemma CallbackIs(s: State, b: Addr)
    ensures Step(s, Callback(b)) == StepCallback(s, b)
  {
  }

  lemma {:induction false} AddRun(books: seq<Record>, final: seq<Record>, rec: Record, a: Addr, s: State,
                                  es: seq<Event>)
    requires Inv(s) && InAdd(books, final, rec, a, s)
    requires forall i :: 0 <= i < |es| ==> !es[i].Add? && !es[i].Call?
    ensures Inv(Exec(Step, s, es)) && InAdd(books, final, rec, a, Exec(Step, s, es))
    decreases |es|
  {
    hide Inv, InAdd, Step;
    if es != [] {
      var k := |es| - 1;
      AddRun(books, final, rec, a, s, es[..k]);
      StepKeeps(Exec(Step, s, es[..k]), es[k]);
      StepInAdd(books, final, rec, a, Exec(Step, s, es[..k]), es[k]);
    }
  }

  lemma AddBegins(s: State, rec: Record, a: Addr)
    requires Inv(s) && s.op == Idle
    ensures var books, entry := Contents(s), rec.(borrow := 0);
      InAdd(books, if Allocatable(s, a) then [entry] + books else books, entry, a, Step(s, Add(rec, a)))
  {
    OthersKeepContents(s, Add(rec, a));
    hide Inv, Contents;
  }

  /** Any addition, interleaved in any way with readers and callbacks: when it has come back, the
      given record, available, is in front of the catalogue, or nothing has changed if there was
      no memory. */
  lemma AddIsAtomic(before: seq<Event>, rec: Record, a: Addr, during: seq<Event>)
    requires Exec(Step, INIT, before).op == Idle
    requires forall i :: 0 <= i < |during| ==> !during[i].Add? && !during[i].Call?
    requires Exec(Step, INIT, before + [Add(rec, a)] + during).op == Idle
    ensures
      var s, t := Exec(Step, INIT, before), Exec(Step, INIT, before + [Add(rec, a)] + during);
      Contents(t) == if Allocatable(s, a) then [rec.(borrow := 0)] + Contents(s) else Contents(s)
  {
    var s := Exec(Step, INIT, before);
    var c := Step(s, Add(rec, a));
    hide Inv, Step, INIT, Contents, Allocatable;
    Reached(before);
    StepKeeps(s, Add(rec, a));
    AddBegins(s, rec, a);
    ExecOneMore(Step, INIT, before, Add(rec, a));
    ExecConcat(Step, INIT, before + [Add(rec, a)], during);
    var entry := rec.(borrow := 0);
    AddRun(Contents(s), if Allocatable(s, a) then [entry] + Contents(s) else Contents(s), entry, a, c, during);
  }

  // ----- a traversal while the updater rests -----

  /** The records a traversal has seen. */
  function Records(visited: seq<Visit>): seq<Record> {
    seq(|visited|, i requires 0 <= i < |visited| => visited[i].rec)
  }

  lemma WalkFrom(s: State)
    requires Inv(s)
    ensures HEAD in s.next && s.next[HEAD] == Nth(s.list, 0) && Contents(s)[..0] == []
  {
    hide MemoryOk, UpdaterOk, ReaderOk, Stale, Stocked, Sorted;
  }

  lemma WalkAt(s: State, i: nat)
    requires Inv(s) && i <= |s.list| && Nth(s.list, i) != HEAD
    ensures i < |s.list| && s.list[i] in s.rec && s.list[i] in s.next && s.next[s.list[i]] == Nth(s.list, i + 1)
    ensures |Contents(s)| == |s.list| && Contents(s)[i] == s.rec[s.list[i]]
    ensures Contents(s)[..i + 1] == Contents(s)[..i] + [s.rec[s.list[i]]]
  {
    hide UpdaterOk, MemoryOk, ReaderOk, Stale, Linked, Sorted, SameBook;
    LinkedAt(s, i);
    ReachableNth(s, i);
  }

  lemma WalkDone(s: State, i: nat)
    requires Inv(s) && i <= |s.list| && Nth(s.list, i) == HEAD
    ensures i == |s.list| && Contents(s)[..i] == Contents(s)
  {
    hide UpdaterOk, MemoryOk, ReaderOk, Stale, Stocked, Linked;
  }

  function Moves(r: Reader, m: nat): seq<Event> { if m == 0 then [] else Moves(r, m - 1) + [Advance(r)] }

  /** A reader that is the only one to act has seen, after `m` moves, the first `m` books. */
  ghost predicate Walked(s: State, r: Reader, m: nat, t: State) {
    && m <= |s.list| == |Contents(s)| && r in t.readers
    && var c := t.readers[r];
       && t == s.(readers := s.readers[r := c])
       && c.at == PlaceAt(s.list, m) && !c.done && Records(c.visited) == Contents(s)[..m]
  }

  /** The place after `m` moves. */
  function PlaceAt(list: seq<Addr>, m: nat): Addr
    requires m <= |list|
  {
    if m == 0 then HEAD else list[m - 1]
  }

  lemma NextFrom(s: State, m: nat)
    requires Inv(s) && m <= |s.list|
    ensures var at := PlaceAt(s.list, m); at in s.next && s.next[at] == Nth(s.list, m)
    ensures m < |s.list| ==> s.list[m] in s.rec && s.list[m] != HEAD && Nth(s.list, m) == s.list[m]
    ensures |Contents(s)| == |s.list|
    ensures m < |s.list| ==> Contents(s)[..m + 1] == Contents(s)[..m] + [s.rec[s.list[m]]]
  {
    WalkFrom(s);
    if m > 0 {
      NthIsBook(s, m - 1);
      WalkAt(s, m - 1);
    }
    if m < |s.list| {
      NthIsBook(s, m);
      WalkAt(s, m);
    }
    hide Inv;
  }

  lemma NthIsBook(s: State, i: nat)
    requires Inv(s) && i < |s.list|
    ensures Nth(s.list, i) != HEAD
  {
    hide UpdaterOk, MemoryOk, ReaderOk, Stale, Stocked, Linked;
  }

  lemma MoveOn(s: State, r: Reader, c: Cursor, t: State, n: Addr)
    requires t == s.(readers := s.readers[r := c]) && !c.done && c.at in s.next && s.next[c.at] == n
    requires n == HEAD || n in s.rec
    ensures StepAdvance(t, r) == s.(readers := s.readers[r :=
      if n == HEAD then c.(at := HEAD, done := true)
      else c.(at := n, visited := c.visited + [Visit(SlotOf(s.slot, n), s.rec[n])])])
  {
    hide SlotOf;
    var d := if n == HEAD then c.(at := HEAD, done := true)
             else c.(at := n, visited := c.visited + [Visit(SlotOf(s.slot, n), s.rec[n])]);
    assert t.readers[r := d] == s.readers[r := d];
  }

  lemma RecordsMore(visited: seq<Visit>, v: Visit)
    ensures Records(visited + [v]) == Records(visited) + [v.rec]
  {
  }

  lemma WalksOne(s: State, r: Reader, m: nat, t: State)
    requires Inv(s) && Walked(s, r, m, t) && m < |s.list|
    ensures Walked(s, r, m + 1, StepAdvance(t, r))
  {
    hide Inv, Contents, StepAdvance, Records, SlotOf;
    NextFrom(s, m);
    var c := t.readers[r];
    MoveOn(s, r, c, t, s.list[m]);
    RecordsMore(c.visited, Visit(SlotOf(s.slot, s.list[m]), s.rec[s.list[m]]));
  }

  lemma AdvanceIs(s: State, r: Reader)
    ensures Step(s, Advance(r)) == StepAdvance(s, r)
  {
    hide StepAdvance;
  }

  lemma {:induction false} Walks(s: State, r: Reader, m: nat, t: State)
    requires Inv(s) && Walked(s, r, 0, t) && m <= |s.list|
    ensures Walked(s, r, m, Exec(Step, t, Moves(r, m)))
  {
    hide Inv, Walked, StepAdvance, Step;
    if m > 0 {
      Walks(s, r, m - 1, t);
      ExecOneMore(Step, t, Moves(r, m - 1), Advance(r));
      AdvanceIs(Exec(Step, t, Moves(r, m - 1)), r);
      WalksOne(s, r, m - 1, Exec(Step, t, Moves(r, m - 1)));
    }
  }

  /** It is done, and has seen all of them; it has changed nothing else. */
  ghost predicate WalkedAll(s: State, r: Reader, u: State) {
    && r in u.readers && u.readers[r].done && Records(u.readers[r].visited) == Contents(s)
    && u == s.(readers := s.readers[r := u.readers[r]])
  }

  lemma EndsAt(s: State, r: Reader, t: State)
    requires Inv(s) && Walked(s, r, |s.list|, t)
    ensures WalkedAll(s, r, StepAdvance(t, r))
  {
    hide Inv, Contents, StepAdvance, Records;
    NextFrom(s, |s.list|);
    MoveOn(s, r, t.readers[r], t, HEAD);
    assert Contents(s)[..|s.list|] == Contents(s);
  }

  /** A reader that enters and walks while nobody else acts is done after one move for each book and
      one more, and has seen exactly the listed records, in order; nothing else has changed. */
  lemma UndisturbedTraversal(es: seq<Event>, r: Reader)
    requires r !in Exec(Step, INIT, es).readers
    ensures
      var s := Exec(Step, INIT, es);
      WalkedAll(s, r, Exec(Step, INIT, es + [ReadLock(r)] + Moves(r, |s.list| + 1)))
  {
    hide Inv, Contents, INIT, Step, StepReadLock, StepAdvance, Walked, WalkedAll;
    var s := Exec(Step, INIT, es);
    var n := |s.list|;
    Reached(es);
    ExecOneMore(Step, INIT, es, ReadLock(r));
    Enters(s, r);
    var t := Step(s, ReadLock(r));
    Walks(s, r, n, t);
    var v := Exec(Step, t, Moves(r, n));
    EndsAt(s, r, v);
    AdvanceIs(v, r);
    ExecOneMore(Step, t, Moves(r, n), Advance(r));
    ExecConcat(Step, INIT, es + [ReadLock(r)], Moves(r, n + 1));
  }

  lemma Enters(s: State, r: Reader)
    requires r !in s.readers
    ensures Walked(s, r, 0, Step(s, ReadLock(r)))
  {
    hide VisitsOf, SlotsOf;
    var t := StepReadLock(s, r);
    assert Records([]) == [] == Contents(s)[..0];
    assert t == s.(readers := s.readers[r := t.readers[r]]);
  }

  // ----- Is_borrowed -----

  /** The id of the book stocked in slot `k`; copies keep it. */
  ghost predicate HasId(s: State, k: nat, id: int) { 1 <= k <= |s.stock| && s.stock[k - 1].id == id }

  lemma GenuineId(s: State, c: Cursor, i: nat, id: int)
    requires Genuine(s, c) && i < |c.visited| && HasId(s, c.visited[i].slot, id)
    ensures c.visited[i].rec.id == id
  {
  }

  /** What Is_borrowed answers whatever happens meanwhile: the flag that some book with this id
      had at some moment of its section; and it leaves its result unset only if no book with this
      id was listed all the time. */
  lemma AnswerWasTrue(before: seq<Event>, r: Reader, during: seq<Event>, id: int)
    requires Section(before, r, during) && Seen(before, r, during).done
    ensures var answer := IsBorrowed(Records(Seen(before, r, during).visited), id);
      && (answer.Answer? ==> exists j, v :: 0 <= j <= |during| && WasListed(before, r, during, j, v)
                               && v.rec.id == id && v.rec.borrow == answer.borrow)
      && (answer.Unset? ==> forall k :: HasId(At(before, r, during, |during|), k, id) ==>
                              !ListedThroughout(before, r, during, k))
  {
    var visited := Seen(before, r, during).visited;
    var answer := IsBorrowed(Records(visited), id);
    hide At, WasListed, ListedThroughout, HasId, Genuine, Seen;
    if answer.Answer? {
      var i := LastMatch(Records(visited), id);
      VisitsAreCurrent(before, r, during, i);
      assert visited[i].rec == Records(visited)[i];
    } else {
      forall k | HasId(At(before, r, during, |during|), k, id) ensures !ListedThroughout(before, r, during, k) {
        if ListedThroughout(before, r, during, k) { SeesBook(before, r, during, k, id); }
      }
    }
  }

  lemma SeesBook(before: seq<Event>, r: Reader, during: seq<Event>, k: nat, id: int)
    requires Section(before, r, during) && Seen(before, r, during).done
    requires HasId(At(before, r, during, |during|), k, id) && ListedThroughout(before, r, during, k)
    ensures var books := Records(Seen(before, r, during).visited); exists i :: 0 <= i < |books| && books[i].id == id
  {
    hide At, ListedThroughout, HasId, Genuine, Seen;
    var visited := Seen(before, r, during).visited;
    TraversalIsComplete(before, r, during, k);
    var i :| 0 <= i < |visited| && visited[i].slot == k;
    SeenIsGenuine(before, r, during);
    GenuineId(At(before, r, during, |during|), Seen(before, r, during), i, id);
    assert Records(visited)[i].id == id;
  }

  lemma SeenIsGenuine(before: seq<Event>, r: Reader, during: seq<Event>)
    requires Section(before, r, during)
    ensures Genuine(At(before, r, during, |during|), Seen(before, r, during))
  {
    AtIsOk(before, r, during);
    hide At, Complete, Covered, Standing, Descending, Genuine;
  }
}
