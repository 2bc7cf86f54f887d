/** The library module itself: the book list updated in place by Add_book, Borrow_book,
    Return_book and Delete_book, and walked by List_books and Is_borrowed.

    Every store is also a step of the machine of module RcuList: `trace` records which, and
    `Valid` says that the store is always in the state that machine has reached. So whatever
    holds in all runs of the machine holds between any two stores of these methods. */
module BookStore {
  import opened Runs
  import opened RcuList
  import opened RcuListInvariant
  import opened RcuListSteps
  import opened RcuListUpdates
  import opened RcuListPublish
  import opened RcuListTheorems
  import opened RcuListCatalogue
  import opened RcuListCalls
  import opened RcuListStores

  class Store {
    // memory, and the books handed to call_rcu
    var next: map<Addr, Addr>
    var prev: map<Addr, Addr>
    var rec: map<Addr, Record>
    var queue: set<Addr>

    // the kernel's view: readers under way, grace periods; program counter and history
    ghost var readers: map<Reader, Cursor>
    ghost var grace: map<Addr, set<Reader>>
    ghost var op: Op
    ghost var list: seq<Addr>
    ghost var slot: map<Addr, nat>
    ghost var stock: seq<Record>
    ghost var holders: map<Addr, set<Reader>>
    ghost var trace: seq<Event>

    ghost function View(): State
      reads this
    {
      State(next, prev, rec, op, readers, grace, queue, false, list, slot, stock, holders)
    }

    ghost predicate Valid()
      reads this
    {
      View() == Reach(trace)
    }

    ghost predicate Ready()
      reads this
    {
      Valid() && op == Idle
    }

    ghost function Books(): seq<Record>
      reads this
    {
      Contents(View())
    }

    /** An address that kzalloc can hand out. */
    ghost predicate Unused(a: Addr)
      reads this
    {
      a > POISON && a !in next
    }

    constructor ()
      ensures Ready() && Books() == [] && next.Keys == {HEAD}
    {
      next, prev, rec := map[HEAD := HEAD], map[HEAD := HEAD], map[];
      readers, grace, queue := map[], map[], {};
      op, list, slot, stock, holders, trace := Idle, [], map[], [], map[], [];
    }

    /** The store has just done what the machine does on `e`. */
    ghost method Did(e: Event)
      requires View() == Step(Reach(trace), e)
      modifies this`trace
      ensures Valid() && View() == old(View())
    {
      hide Step, Reach;
      ReachOneMore(trace, e);
      trace := trace + [e];
    }

    lemma Invariant()
      requires Valid()
      ensures Inv(View())
    {
      hide Inv, Reach;
      ReachOk(trace);
    }

    // ----- single stores -----

    /** Store to a next pointer: the machine goes from the present state to `t`. */
    method StoreNext(p: Addr, v: Addr, ghost t: State)
      requires Valid() && t == StepUpdate(View(), 0) && StoresNext(View(), p, v, t)
      modifies this`next, this`readers, this`op, this`list, this`slot, this`stock, this`holders, this`trace
      ensures Valid() && View() == t
    {
      hide Reach, Step, StepUpdate;
      UpdateIsStep(View(), 0);
      next := next[p := v];
      op, readers, list, slot, stock, holders := t.op, t.readers, t.list, t.slot, t.stock, t.holders;
      assert View() == t;
      Did(Update(0));
    }

    /** Store to a back pointer. */
    method StorePrev(p: Addr, v: Addr, ghost t: State)
      requires Valid() && t == StepUpdate(View(), 0) && StoresPrev(View(), p, v, t)
      modifies this`prev, this`op, this`trace
      ensures Valid() && View() == t
    {
      hide Reach, StepUpdate;
      prev := prev[p := v];
      op := t.op;
      Did(Update(0));
    }

    /** What a step that publishes nothing leaves alone. */
    lemma Kept(s: State, t: State)
      requires Valid() && View() == s && t == StepUpdate(s, 0) && !Publishes(s, Update(0))
      ensures Inv(s) && Inv(t) && Contents(t) == Contents(s)
    {
      hide Reach, Inv, StepUpdate;
      Invariant();
      StepKeeps(s, Update(0));
      OthersKeepContents(s, Update(0));
    }

    // ----- list_add_rcu -----

    method ListAddRcu(n: Addr)
      requires Valid() && op == Adding(0, n) && n in rec
      modifies this`next, this`prev, this`readers, this`op, this`list, this`slot, this`stock, this`holders, this`trace
      ensures Ready()
      ensures Books() == [rec[n]] + old(Books()) && next.Keys == old(next.Keys)
    {
      hide Reach, Inv, Contents, StepUpdate;
      ghost var s0 := View();
      ghost var s1 := StepUpdate(s0, 0);
      Kept(s0, s1);
      AddStore0(s0, n);
      var first := next[HEAD];
      StoreNext(n, first, s1);
      ghost var s2 := StepUpdate(s1, 0);
      Kept(s1, s2);
      AddStore1(s1, n);
      StorePrev(n, HEAD, s2);
      ghost var s3 := StepUpdate(s2, 0);
      AddStore2(s2, n);
      AddTakesEffect(s2);
      StoreNext(HEAD, n, s3);
      ghost var s4 := StepUpdate(s3, 0);
      Kept(s3, s4);
      AddStore3(s3, n);
      StorePrev(next[n], n, s4);
    }

    // ----- list_replace_rcu -----

    method ListReplaceRcu(orig: Addr, n: Addr, ghost kind: Kind, ghost id: int, ghost async: bool)
      requires Valid() && op == Replacing(0, kind, id, async, orig, n)
      modifies this`next, this`prev, this`readers, this`op, this`list, this`slot, this`stock, this`holders, this`trace
      ensures Valid() && op == Retiring(async, orig)
      ensures Succeeds(old(Books()), kind, id) && Books() == Apply(old(Books()), kind, id)
      ensures next.Keys == old(next.Keys)
    {
      hide Reach, Inv, Contents, StepUpdate, Apply, Succeeds;
      ghost var s0 := View();
      ghost var s1 := StepUpdate(s0, 0);
      Kept(s0, s1);
      ReplaceStore0(s0);
      StoreNext(n, next[orig], s1);
      ghost var s2 := StepUpdate(s1, 0);
      Kept(s1, s2);
      ReplaceStore1(s1);
      StorePrev(n, prev[orig], s2);
      ghost var s3 := StepUpdate(s2, 0);
      ReplaceStore2(s2);
      ReplaceTakesEffect(s2);
      StoreNext(prev[n], n, s3);
      ghost var s4 := StepUpdate(s3, 0);
      Kept(s3, s4);
      ReplaceStore3(s3);
      StorePrev(next[n], n, s4);
      ghost var s5 := StepUpdate(s4, 0);
      Kept(s4, s5);
      ReplaceStore4(s4);
      StorePrev(orig, POISON, s5);
    }

    // ----- list_del_rcu -----

    method ListDelRcu(b: Addr, ghost id: int, ghost async: bool)
      requires Valid() && op == Deleting(0, id, async, b)
      modifies this`next, this`prev, this`readers, this`op, this`list, this`slot, this`stock, this`holders, this`trace
      ensures Valid() && op == Retiring(async, b)
      ensures Succeeds(old(Books()), Delete, id) && Books() == Apply(old(Books()), Delete, id)
      ensures next.Keys == old(next.Keys)
    {
      hide Reach, Inv, Contents, StepUpdate, Apply, Succeeds;
      ghost var s0 := View();
      ghost var s1 := StepUpdate(s0, 0);
      Kept(s0, s1);
      DeleteStore0(s0);
      StorePrev(next[b], prev[b], s1);
      ghost var s2 := StepUpdate(s1, 0);
      DeleteStore1(s1);
      DeleteTakesEffect(s1);
      StoreNext(prev[b], next[b], s2);
      ghost var s3 := StepUpdate(s2, 0);
      Kept(s2, s3);
      DeleteStore2(s2);
      StorePrev(b, POISON, s3);
    }

    // ----- reclamation -----

    /** Reader `r` leaves its section. */
    ghost method ReaderLeaves(r: Reader)
      requires Valid()
      modifies this`readers, this`grace, this`holders, this`trace
      ensures Valid() && View() == StepReadUnlock(old(View()), r)
    {
      hide Reach, StepReadUnlock;
      var s, t := View(), StepReadUnlock(View(), r);
      UnlockShape(s, r);
      readers, grace, holders := t.readers, t.grace, t.holders;
      Did(ReadUnlock(r));
    }

    /** The kernel lets every reader under way leave; then the grace period of `b` is over. */
    ghost method SynchronizeRcu(b: Addr)
      requires Valid() && op == Syncing(b) && b in grace
      modifies this`readers, this`grace, this`holders, this`trace
      ensures Valid() && b in grace && grace[b] == {} && Books() == old(Books())
    {
      while grace[b] != {}
        invariant Valid() && b in grace && Books() == old(Books())
        decreases grace[b]
      {
        hide Reach, Valid, View, Contents, StepReadUnlock;
        var r :| r in grace[b];
        UnlockWaitsLess(View(), r, b);
        ReaderLeaves(r);
      }
    }

    method Kfree(b: Addr)
      requires Valid() && op == Syncing(b) && b in grace && grace[b] == {}
      modifies this
      ensures Ready() && Books() == old(Books()) && next.Keys == old(next.Keys) - {b} && queue == old(queue)
    {
      hide Reach, Inv, Contents, Step, StepUpdate;
      ghost var t := StepUpdate(View(), 0);
      UpdateIsStep(View(), 0);
      Kept(View(), t);
      SyncStore(View());
      next, prev, rec := next - {b}, prev - {b}, rec - {b};
      grace, holders, op := grace - {b}, holders - {b}, Idle;
      assert queue - {b} == queue;
      assert View() == t;
      Did(Update(0));
    }

    /** The grace period of `b` begins; an asynchronous caller queues the callback. */
    method StartGracePeriod(b: Addr, async: bool)
      requires Valid() && op == Retiring(async, b)
      modifies this`grace, this`queue, this`op, this`trace
      ensures Valid() && Books() == old(Books()) && b in grace && b in next && b !in old(queue)
      ensures op == if async then Idle else Syncing(b)
      ensures queue == if async then old(queue) + {b} else old(queue)
    {
      hide Reach, Inv, Contents, Step, StepUpdate;
      ghost var t := StepUpdate(View(), 0);
      UpdateIsStep(View(), 0);
      Kept(View(), t);
      RetireStore(View());
      grace := grace[b := readers.Keys];
      op := if async then Idle else Syncing(b);
      if async {
        queue := queue + {b};
      }
      assert View() == t;
      Did(Update(0));
    }

    /** call_rcu, or synchronize_rcu and kfree. */
    method Reclaim(b: Addr, async: bool)
      requires Valid() && op == Retiring(async, b)
      modifies this
      ensures Ready() && Books() == old(Books())
      ensures b in old(next) && b !in old(queue)
      ensures next.Keys == if async then old(next.Keys) else old(next.Keys) - {b}
      ensures queue == if async then old(queue) + {b} else old(queue)
    {
      hide Reach, View, Contents;
      StartGracePeriod(b, async);
      if !async {
        SynchronizeRcu(b);
        Kfree(b);
      }
    }

    // ----- the library -----

    method Kzalloc(b: Record, a: Addr)
      requires Ready() && Unused(a) && b.borrow == 0
      modifies this`next, this`prev, this`rec, this`op, this`trace
      ensures Valid() && op == Adding(0, a) && Books() == old(Books())
      ensures next.Keys == old(next.Keys) + {a} && rec == old(rec)[a := b]
    {
      hide Reach, Inv, Contents;
      Invariant();
      OthersKeepContents(View(), Add(b, a));
      next, prev, rec := next[a := NULL], prev[a := NULL], rec[a := b];
      op := Adding(0, a);
      Did(Add(b, a));
    }

    /** `a` is what kzalloc returns: null, or an address that is not in use. The new book has this id,
        this name and this author, each cut at 64 characters, and is not borrowed. */
    method AddBook(id: int, name: string, author: string, a: Addr)
      requires Ready() && (a == NULL || Unused(a))
      modifies this
      ensures Ready()
      ensures Books() == (if a == NULL then [] else [NewRecord(id, name, author)]) + old(Books())
      ensures a != NULL ==> |Books()| == |old(Books())| + 1 && Books()[1..] == old(Books())
      ensures a != NULL && |Books()| > 0 ==>
        && Books()[0].id == id && Books()[0].borrow == 0
        && Books()[0].name == (if |name| <= 64 then name else name[..64])
        && Books()[0].author == (if |author| <= 64 then author else author[..64])
      ensures next.Keys == old(next.Keys) + (if a == NULL then {} else {a}) && queue == old(queue)
    {
      if a == NULL {
        return;
      }
      hide Reach, View, Contents, Clip;
      ClipIs(name);
      ClipIs(author);
      Kzalloc(NewRecord(id, name, author), a);
      ListAddRcu(a);
    }

    /** The loop of Borrow_book, Return_book and Delete_book: the first book with this id, or
        null if there is none or its flag rules the call out. */
    method Find(kind: Kind, id: int, ghost async: bool) returns (b: Addr)
      requires Ready()
      modifies this`op, this`trace
      ensures Valid() && Books() == old(Books())
      ensures b == NULL ==> op == Idle && !Succeeds(Books(), kind, id)
      ensures b != NULL ==> Succeeds(Books(), kind, id)
      ensures b != NULL ==> op == if kind == Delete then Deleting(0, id, async, b) else Found(kind, id, async, b)
    {
      hide Reach, Inv, Contents, StepUpdate, Succeeds, Sought;
      Invariant();
      OthersKeepContents(View(), Call(kind, id, async));
      op := Seeking(kind, id, async, HEAD);
      Did(Call(kind, id, async));
      var at := HEAD;
      while true
        invariant Valid() && op == Seeking(kind, id, async, at) && Books() == old(Books())
        decreases |list| - Passed(View())
      {
        Invariant();
        ghost var s := View();
        SoughtNext(s);
        OthersKeepContents(s, Update(0));
        b := next[at];
        if b == HEAD {
          op := Idle;
          Did(Update(0));
          return NULL;
        }
        if rec[b].id == id {
          if kind == Delete {
            op := Deleting(0, id, async, b);
            Did(Update(0));
            return;
          }
          if (kind == Borrow) == (rec[b].borrow != 0) {
            op := Idle;
            Did(Update(0));
            return NULL;
          }
          op := Found(kind, id, async, b);
          Did(Update(0));
          return;
        }
        op := Seeking(kind, id, async, b);
        Did(Update(0));
        at := b;
      }
    }

    /** There is no memory for the copy. */
    ghost method GiveUp()
      requires Valid() && op.Found?
      modifies this`op, this`trace
      ensures Ready() && Books() == old(Books())
    {
      hide Reach, Inv, Contents, StepUpdate;
      Invariant();
      OthersKeepContents(View(), Update(NULL));
      NoCopy(View());
      op := Idle;
      Did(Update(NULL));
    }

    /** kzalloc, memcpy and the new flag. */
    method CopyBook(kind: Kind, ghost id: int, ghost async: bool, orig: Addr, a: Addr)
      requires Valid() && op == Found(kind, id, async, orig) && Unused(a)
      modifies this`next, this`prev, this`rec, this`op, this`trace
      ensures Valid() && op == Replacing(0, kind, id, async, orig, a) && Books() == old(Books())
      ensures next.Keys == old(next.Keys) + {a} && orig in old(next)
    {
      hide Reach, Inv, Contents, Step, StepUpdate, Flipped, Allocatable;
      ghost var t := StepUpdate(View(), a);
      UpdateIsStep(View(), a);
      Invariant();
      MayCopy(View(), a);
      CopyStore(View(), a);
      next, prev := next[a := next[orig]], prev[a := prev[orig]];
      rec := rec[a := Flipped(kind, rec[orig])];
      op := Replacing(0, kind, id, async, orig, a);
      assert View() == t;
      Did(Update(a));
    }

    /** Borrow_book and Return_book, which differ in the flag only. `gone` is the original that
        the copy has replaced. */
    method Flip(kind: Kind, id: int, async: bool, a: Addr) returns (ret: int, ghost gone: Addr)
      requires Ready() && kind != Delete && (a == NULL || Unused(a))
      modifies this
      ensures Ready()
      ensures ret == if Succeeds(old(Books()), kind, id) && a != NULL then 0 else -1
      ensures Books() == if ret == 0 then Apply(old(Books()), kind, id) else old(Books())
      ensures ret == -1 ==> next.Keys == old(next.Keys) && queue == old(queue)
      ensures ret == 0 ==> gone in old(next) && gone !in old(queue)
      ensures ret == 0 ==> next.Keys == old(next.Keys) + {a} - if async then {} else {gone}
      ensures ret == 0 ==> queue == old(queue) + if async then {gone} else {}
    {
      hide Reach, Contents, Succeeds, Apply, Step, View;
      var orig := Find(kind, id, async);
      gone := orig;
      if orig == NULL {
        return -1, gone;
      }
      if a == NULL {
        GiveUp();
        return -1, gone;
      }
      CopyBook(kind, id, async, orig, a);
      ListReplaceRcu(orig, a, kind, id, async);
      Reclaim(orig, async);
      return 0, gone;
    }

    /** No call leaks: the store holds one more address only while a callback is queued. */
    method BorrowBook(id: int, async: bool, a: Addr) returns (ret: int)
      requires Ready() && (a == NULL || Unused(a))
      modifies this
      ensures Ready()
      ensures ret == if Succeeds(old(Books()), Borrow, id) && a != NULL then 0 else -1
      ensures Books() == if ret == 0 then Apply(old(Books()), Borrow, id) else old(Books())
      ensures |next.Keys| - |queue| == |old(next.Keys)| - |old(queue)|
      ensures ret == -1 || !async ==> |queue| == |old(queue)|
    {
      ghost var gone;
      ret, gone := Flip(Borrow, id, async, a);
    }

    method ReturnBook(id: int, async: bool, a: Addr) returns (ret: int)
      requires Ready() && (a == NULL || Unused(a))
      modifies this
      ensures Ready()
      ensures ret == if Succeeds(old(Books()), Return, id) && a != NULL then 0 else -1
      ensures Books() == if ret == 0 then Apply(old(Books()), Return, id) else old(Books())
      ensures |next.Keys| - |queue| == |old(next.Keys)| - |old(queue)|
      ensures ret == -1 || !async ==> |queue| == |old(queue)|
    {
      ghost var gone;
      ret, gone := Flip(Return, id, async, a);
    }

    /** List_books, when nothing else runs: the records in list order. */
    method ListBooks() returns (out: seq<Record>)
      requires Ready()
      ensures out == Books()
    {
      hide Reach, ViewOk, MemoryOk, UpdaterOk;
      Invariant();
      WalkFrom(View());
      var b := next[HEAD];
      ghost var i := 0;
      out := [];
      while b != HEAD
        invariant i <= |list| && b == Nth(list, i) && out == Books()[..i]
        decreases |list| - i
      {
        WalkAt(View(), i);
        out := out + [rec[b]];
        b := next[b];
        i := i + 1;
      }
      WalkDone(View(), i);
    }

    /** Is_borrowed, when nothing else runs: it does not stop at the first match. */
    method IsBorrowed(id: int) returns (answer: Answer)
      requires Ready()
      ensures answer == RcuListCatalogue.IsBorrowed(Books(), id)
      ensures answer == Unset <==> forall i :: 0 <= i < |Books()| ==> Books()[i].id != id
      ensures forall i :: LastAt(Books(), id, i) ==> answer == Answer(Books()[i].borrow)
    {
      hide Reach, ViewOk, MemoryOk, UpdaterOk;
      Invariant();
      WalkFrom(View());
      var b := next[HEAD];
      ghost var i := 0;
      answer := Unset;
      while b != HEAD
        invariant i <= |list| && b == Nth(list, i) && answer == RcuListCatalogue.IsBorrowed(Books()[..i], id)
        decreases |list| - i
      {
        WalkAt(View(), i);
        AnswerNext(Books(), id, i);
        if rec[b].id == id {
          answer := Answer(rec[b].borrow);
        }
        b := next[b];
        i := i + 1;
      }
      WalkDone(View(), i);
      hide Contents, LastAt;
      AnswerMeans(Books(), id);
    }

    method DeleteBook(id: int, async: bool)
      requires Ready()
      modifies this
      ensures Ready() && Books() == Apply(old(Books()), Delete, id)
      ensures !Succeeds(old(Books()), Delete, id) ==> next.Keys == old(next.Keys) && queue == old(queue)
      ensures Succeeds(old(Books()), Delete, id) ==>
        if async then next.Keys == old(next.Keys) && |queue| == |old(queue)| + 1
        else |next.Keys| == |old(next.Keys)| - 1 && queue == old(queue)
    {
      hide Reach, Inv, Contents, StepUpdate, Succeeds, Apply;
      var b := Find(Delete, id, async);
      if b == NULL {
        FailsUnchanged(Books(), Delete, id);
        return;
      }
      ListDelRcu(b, id, async);
      Reclaim(b, async);
    }
  }

  /** Two books under one id: a borrow succeeds, and the query denies it. */
  method DenyBorrow() returns (ret: int, answer: Answer)
    ensures ret == 0 && answer == Answer(0)
  {
    var store := new Store();
    store.AddBook(7, "first", "x", 10);
    store.AddBook(7, "second", "y", 11);
    LaterBookIsReported(store.Books());
    ret := store.BorrowBook(7, false, 12);
    answer := store.IsBorrowed(7);
  }

  lemma LaterBookIsReported(books: seq<Record>)
    requires books == [NewRecord(7, "second", "y"), NewRecord(7, "first", "x")]
    ensures Succeeds(books, Borrow, 7) && RcuListCatalogue.IsBorrowed(Apply(books, Borrow, 7), 7) == Answer(0)
  {
    hide Clip;
    FirstMatchIs(books, 7, 0);
    var after := Apply(books, Borrow, 7);
    assert |after| == 2 && after[1] == books[1];
    assert LastMatch(after, 7) == 1;
  }

  lemma AnswerMeans(books: seq<Record>, id: int)
    ensures var answer := RcuListCatalogue.IsBorrowed(books, id);
      && (answer == Unset <==> forall i :: 0 <= i < |books| ==> books[i].id != id)
      && forall i :: LastAt(books, id, i) ==> answer == Answer(books[i].borrow)
  {
    forall i | LastAt(books, id, i) ensures LastMatch(books, id) == i { LastIs(books, id, i); }
    if LastMatch(books, id) < |books| { assert books[LastMatch(books, id)].id == id; }
  }

  lemma ClipIs(s: string)
    ensures Clip(s) == if |s| <= 64 then s else s[..64]
  {
  }

  lemma MayCopy(s: State, a: Addr)
    requires a > POISON && a !in s.next
    ensures Allocatable(s, a)
  {
  }

  lemma UpdateIsStep(s: State, a: Addr)
    ensures Step(s, Update(a)) == StepUpdate(s, a)
  {
  }

  lemma UnlockShape(s: State, r: Reader)
    ensures var t := StepReadUnlock(s, r); t == s.(readers := t.readers, grace := t.grace, holders := t.holders)
  {
  }

  lemma UnlockWaitsLess(s: State, r: Reader, b: Addr)
    requires b in s.grace
    ensures var t := StepReadUnlock(s, r);
      t.op == s.op && b in t.grace && t.grace[b] == s.grace[b] - {r} && Contents(t) == Contents(s)
  {
  }

  lemma NoCopy(s: State)
    requires s.op.Found? && Inv(s)
    ensures StepUpdate(s, NULL) == s.(op := Idle)
  {
    hide ViewOk, MemoryOk, BackLinked, IsFirst, StepAdding, StepSeeking, StepReplacing, StepDeleting, StepRetiring,
         StepSyncing;
    FoundIsThere(s);
  }

  /** What one turn of the loop finds, and what that says about the call. */
  lemma SoughtNext(s: State)
    requires Inv(s) && s.op.Seeking?
    ensures
      var kind, id, async, at, m := s.op.kind, s.op.id, s.op.async, s.op.at, Passed(s);
      && m <= |s.list| && at in s.next
      && var b := s.next[at];
         && (b == HEAD <==> m == |s.list|)
         && (b != HEAD ==> b in s.rec && b > POISON)
         && StepUpdate(s, 0) == s.(op := SeekOn(b, Lookup(s.rec, b), kind, id, async))
         && (b == HEAD ==> !Succeeds(Contents(s), kind, id))
         && (b != HEAD && s.rec[b].id == id ==>
               (Succeeds(Contents(s), kind, id) <==> kind == Delete || (kind == Borrow) == (s.rec[b].borrow == 0)))
         && (b != HEAD && s.rec[b].id != id ==> Passed(s.(op := Seeking(kind, id, async, b))) == m + 1)
  {
    hide ViewOk, MemoryOk, BackLinked, StepUpdate, Contents, NotBefore, SeekingOk;
    SeekingShape(s);
    SeekingAt(s, Passed(s));
    FirstMatchBeyond(s, Passed(s));
    CatalogueLength(s);
  }

  lemma CatalogueLength(s: State)
    ensures |Contents(s)| == |s.list|
  {
  }

  // ----- walking the list -----

  lemma AnswerNext(books: seq<Record>, id: int, i: nat)
    requires i < |books|
    ensures RcuListCatalogue.IsBorrowed(books[..i + 1], id) ==
      if books[i].id == id then Answer(books[i].borrow) else RcuListCatalogue.IsBorrowed(books[..i], id)
  {
    var l, m := LastMatch(books[..i + 1], id), LastMatch(books[..i], id);
    assert books[..i + 1][i] == books[i];
    if books[i].id == id {
      assert l == i;
    } else if m < i {
      assert books[..i + 1][m].id == id;
      assert l <= i && books[l].id == id;
      assert l == m;
    }
  }
}
