/** The RCU list seen as a catalogue: under every interleaving a Borrow, Return or Delete call acts
    on the sequence of listed records exactly once, like a sequential call, or not at all. The two
    other calls that look at a book, Add_book and Is_borrowed, are in RcuListCalls. */
module RcuListCatalogue {
  import opened Runs
  import opened RcuList
  import opened RcuListInvariant
  import opened RcuListSteps
  import opened RcuListUpdates
  import opened RcuListPublish
  import opened RcuListTheorems

  /** The call finds its book, in a state in which it can act on it. */
  predicate Succeeds(books: seq<Record>, kind: Kind, id: int) {
    var i := FirstMatch(books, id);
    i < |books| && (kind == Delete || Flips(kind, books[i]))
  }

  lemma FailsUnchanged(books: seq<Record>, kind: Kind, id: int)
    requires !Succeeds(books, kind, id)
    ensures Apply(books, kind, id) == books
  {
  }

  // ----- laws of the sequential catalogue -----

  /** Book `i` is the first one with this id. */
  predicate FirstAt(books: seq<Record>, id: int, i: int) {
    0 <= i < |books| && books[i].id == id && forall j :: 0 <= j < i ==> books[j].id != id
  }

  /** Book `i` is the last one with this id. */
  predicate LastAt(books: seq<Record>, id: int, i: int) {
    0 <= i < |books| && books[i].id == id && forall j :: i < j < |books| ==> books[j].id != id
  }

  predicate ActsOn(books: seq<Record>, kind: Kind, id: int, i: int) {
    && FirstAt(books, id, i)
    && (kind == Borrow ==> books[i].borrow == 0) && (kind == Return ==> books[i].borrow != 0)
  }

  /** A call succeeds iff the first book with the id is there and, to be borrowed, is available, or,
      to be returned, is borrowed. */
  lemma SucceedsExactly(books: seq<Record>, kind: Kind, id: int)
    ensures Succeeds(books, kind, id) <==> exists i :: ActsOn(books, kind, id, i)
  {
    var k := FirstMatch(books, id);
    if Succeeds(books, kind, id) { assert ActsOn(books, kind, id, k); }
  }

  lemma LastIs(books: seq<Record>, id: int, i: int)
    requires LastAt(books, id, i)
    ensures LastMatch(books, id) == i
  {
    assert LastMatch(books, id) < |books|;
  }

  lemma FirstMatchIs(books: seq<Record>, id: int, i: nat)
    requires i <= |books| && (i < |books| ==> books[i].id == id)
    requires forall j :: 0 <= j < i ==> books[j].id != id
    ensures FirstMatch(books, id) == i
  {
  }

  /** A call that succeeds leaves every other book alone and its own book's title alone. */
  lemma ApplyChangesOneBook(books: seq<Record>, kind: Kind, id: int)
    requires Succeeds(books, kind, id)
    ensures var i, after := FirstMatch(books, id), Apply(books, kind, id);
      if kind == Delete then
        && |after| == |books| - 1
        && (forall j :: 0 <= j < i ==> after[j] == books[j])
        && (forall j :: i <= j < |after| ==> after[j] == books[j + 1])
      else
        && |after| == |books|
        && after[i] == books[i].(borrow := if kind == Borrow then 1 else 0) && after[i] != books[i]
        && forall j :: 0 <= j < |books| && j != i ==> after[j] == books[j]
  {
    hide FirstMatch;
  }

  /** Returning a book that was just borrowed restores the catalogue; borrowing it twice fails. */
  lemma ReturnUndoesBorrow(books: seq<Record>, id: int)
    requires Succeeds(books, Borrow, id)
    ensures Succeeds(Apply(books, Borrow, id), Return, id)
    ensures Apply(Apply(books, Borrow, id), Return, id) == books
    ensures !Succeeds(Apply(books, Borrow, id), Borrow, id)
  {
    var i := FirstMatch(books, id);
    FirstMatchIs(Apply(books, Borrow, id), id, i);
  }

  /** What Is_borrowed reports: it does not stop at a match, so the last one wins; without a
      match its result is never set. */
  function LastMatch(books: seq<Record>, id: int): (i: nat)
    ensures i <= |books|
    ensures i < |books| ==> books[i].id == id && forall j :: i < j < |books| ==> books[j].id != id
    ensures i == |books| ==> forall j :: 0 <= j < |books| ==> books[j].id != id
  {
    if books == [] then 0
    else
      var i := LastMatch(books[1..], id);
      if i < |books| - 1 then i + 1 else if books[0].id == id then 0 else |books|
  }

  datatype Answer = Unset | Answer(borrow: int)

  function IsBorrowed(books: seq<Record>, id: int): Answer {
    var i := LastMatch(books, id);
    if i < |books| then Answer(books[i].borrow) else Unset
  }

  /** After a successful borrow the query says so exactly if no later book with the same id is
      available; in particular whenever the id is unique. */
  lemma BorrowedIsReported(books: seq<Record>, id: int)
    requires Succeeds(books, Borrow, id)
    ensures
      var answer, last := IsBorrowed(Apply(books, Borrow, id), id), LastMatch(books, id);
      && answer.Answer?
      && (answer.borrow != 0 <==> last == FirstMatch(books, id) || books[last].borrow != 0)
  {
    var i := FirstMatch(books, id);
    assert books[i].id == id;
    SameLastMatch(books, Apply(books, Borrow, id), id);
  }

  lemma SameLastMatch(books: seq<Record>, after: seq<Record>, id: int)
    requires |after| == |books| && forall j :: 0 <= j < |books| ==> after[j].id == books[j].id
    ensures LastMatch(after, id) == LastMatch(books, id)
  {
    var l, m := LastMatch(books, id), LastMatch(after, id);
    if l < |books| { assert after[l].id == id; }
    if m < |books| { assert books[m].id == id; }
  }

  // ----- one step -----

  lemma ContentsFrame(s: State, t: State)
    requires t.list == s.list && forall i :: 0 <= i < |s.list| ==> Lookup(t.rec, s.list[i]) == Lookup(s.rec, s.list[i])
    ensures Contents(t) == Contents(s)
  {
  }

  /** Some listed book is the first match exactly if its record is. */
  lemma IsFirstMatch(s: State, id: int, b: Addr)
    requires IsFirst(s, id, b)
    ensures FirstMatch(Contents(s), id) == IndexOf(s.list, b) < |s.list|
    ensures Contents(s)[IndexOf(s.list, b)] == Lookup(s.rec, b)
  {
    FirstMatchIs(Contents(s), id, IndexOf(s.list, b));
  }

  lemma AddTakesEffect(s: State)
    requires Inv(s) && s.op.Adding? && s.op.pc == 2
    ensures s.op.n in s.rec && Contents(StepUpdate(s, 0)) == [s.rec[s.op.n]] + Contents(s)
  {
    hide StepSeeking, StepFound, StepReplacing, StepDeleting, StepRetiring, StepSyncing, ViewOk, BackLinked;
    Owns(s, HEAD);
    PrivateFields(s, s.op.n);
    assert StepUpdate(s, 0) == Added(s, s.op.n);
  }

  lemma ReplaceTakesEffect(s: State)
    requires Inv(s) && s.op.Replacing? && s.op.pc == 2
    ensures Succeeds(Contents(s), s.op.kind, s.op.id)
    ensures Contents(StepUpdate(s, 0)) == Apply(Contents(s), s.op.kind, s.op.id)
  {
    hide StepAdding, StepSeeking, StepFound, StepDeleting, StepRetiring, StepSyncing, ViewOk, MemoryOk, BackLinked;
    var k := IndexOf(s.list, s.op.orig);
    ReplaceReady(s);
    IsFirstMatch(s, s.op.id, s.op.orig);
    var t := StepUpdate(s, 0);
    assert t.list == s.list[k := s.op.n] && t.rec == s.rec;
    assert Contents(t) == Contents(s)[k := Lookup(s.rec, s.op.n)];
  }

  /** The unlinking store takes the first match out of the list and leaves the records alone. */
  lemma UnlinkedList(s: State)
    requires Inv(s) && s.op.Deleting? && s.op.pc == 1
    ensures IsFirst(s, s.op.id, s.op.orig)
    ensures var k, t := IndexOf(s.list, s.op.orig), StepUpdate(s, 0);
      k < |s.list| && t.list == s.list[..k] + s.list[k + 1..] && t.rec == s.rec
  {
    hide StepAdding, StepSeeking, StepFound, StepReplacing, StepRetiring, StepSyncing, ViewOk, MemoryOk, BackLinked,
         BackLinkedExcept;
    DeleteReady(s);
  }

  lemma ContentsWithout(s: State, t: State, k: nat)
    requires k < |s.list| && t.list == s.list[..k] + s.list[k + 1..] && t.rec == s.rec
    ensures |Contents(s)| == |s.list| && Contents(t) == Contents(s)[..k] + Contents(s)[k + 1..]
  {
  }

  lemma DeleteTakesEffect(s: State)
    requires Inv(s) && s.op.Deleting? && s.op.pc == 1
    ensures Succeeds(Contents(s), Delete, s.op.id)
    ensures Contents(StepUpdate(s, 0)) == Apply(Contents(s), Delete, s.op.id)
  {
    hide Inv, StepUpdate, IsFirst, Contents, FirstMatch;
    UnlinkedList(s);
    IsFirstMatch(s, s.op.id, s.op.orig);
    ContentsWithout(s, StepUpdate(s, 0), IndexOf(s.list, s.op.orig));
  }

  /** The step is a publishing store. */
  predicate Publishes(s: State, e: Event) {
    e.Update? && match s.op
      case Adding(pc, _) => pc == 2
      case Replacing(pc, _, _, _, _, _) => pc == 2
      case Deleting(pc, _, _, _) => pc == 1
      case _ => false
  }

  lemma OthersKeepContents(s: State, e: Event)
    requires Inv(s) && !Publishes(s, e)
    ensures Contents(Step(s, e)) == Contents(s)
  {
    hide ViewOk, MemoryOk, UpdaterOk, StepAdd, StepUpdate, StepCallback, StepAdvance;
    match e {
      case Add(rec, a) => AddKeepsContents(s, rec, a);
      case Update(a) => UpdateKeepsContents(s, a);
      case Callback(b) => CallbackKeepsContents(s, b);
      case Advance(r) => AdvanceKeepsContents(s, r);
      case _ => ContentsFrame(s, Step(s, e));
    }
  }

  lemma AdvanceKeepsContents(s: State, r: Reader)
    ensures Contents(StepAdvance(s, r)) == Contents(s)
  {
    hide SlotOf, Lookup;
    ContentsFrame(s, StepAdvance(s, r)) by {
      if r in s.readers && !s.readers[r].done && s.readers[r].at in s.next {
        var n := s.next[s.readers[r].at];
        if n == HEAD {} else if n in s.rec {}
      }
    }
  }

  lemma AddKeepsContents(s: State, rec: Record, a: Addr)
    requires Inv(s)
    ensures Contents(StepAdd(s, rec, a)) == Contents(s)
  {
    hide StepAdd;
    ListAllocated(s);
    ContentsFrame(s, StepAdd(s, rec, a));
  }

  lemma ListAllocated(s: State)
    requires Inv(s)
    ensures forall i :: 0 <= i < |s.list| ==> s.list[i] in s.next
  {
    hide UpdaterOk, SameKeys, GraceOk, Stale, ReaderOk, Stocked, Sorted;
  }

  lemma UpdateKeepsContents(s: State, a: Addr)
    requires Inv(s) && !Publishes(s, Update(a))
    ensures Contents(StepUpdate(s, a)) == Contents(s)
  {
    hide ViewOk, MemoryOk, StepAdding, StepSeeking, StepFound, StepReplacing, StepDeleting, StepRetiring, StepSyncing;
    match s.op {
      case Adding(pc, n) => AddingReaders(s, pc, n);
      case Found(kind, id, async, orig) => FoundKeepsContents(s, a);
      case Replacing(pc, kind, id, async, orig, n) => ReplacingReaders(s, pc, kind, id, async, orig, n);
      case Deleting(pc, id, async, orig) => DeletingReaders(s, pc, id, async, orig);
      case Retiring(async, orig) => RetiringReaders(s, async, orig);
      case Syncing(orig) => SyncingKeepsContents(s);
      case _ =>
    }
    if Unnoticed(s, StepUpdate(s, a)) { ContentsFrame(s, StepUpdate(s, a)); }
  }

  lemma FoundKeepsContents(s: State, a: Addr)
    requires Inv(s) && s.op.Found?
    ensures Contents(StepFound(s, s.op.kind, s.op.id, s.op.async, s.op.orig, a)) == Contents(s)
  {
    hide ViewOk, MemoryOk, UpdaterOk;
    if Allocatable(s, a) { NotReachable(s, a); }
    ContentsFrame(s, StepFound(s, s.op.kind, s.op.id, s.op.async, s.op.orig, a));
  }

  lemma SyncingKeepsContents(s: State)
    requires Inv(s) && s.op.Syncing?
    ensures Contents(StepSyncing(s, s.op.orig)) == Contents(s)
  {
    hide ViewOk, Partition, SameKeys, UpdaterOk;
    var b := s.op.orig;
    assert b in s.grace by { assert b in Waiting(s.op); }
    if s.grace[b] == {} {
      KfreeKeepsContents(s, b, Idle);
    }
  }

  lemma KfreeKeepsContents(s: State, b: Addr, op: Op)
    requires Inv(s) && Freeable(s, b)
    ensures Contents(Kfree(s, b).(op := op)) == Contents(s)
  {
    hide ViewOk, MemoryOk, UpdaterOk;
    NobodyHolds(s, b);
    ContentsFrame(s, Kfree(s, b).(op := op));
  }

  lemma CallbackKeepsContents(s: State, b: Addr)
    requires Inv(s)
    ensures Contents(StepCallback(s, b)) == Contents(s)
  {
    hide ViewOk, Partition, SameKeys, UpdaterOk;
    if b in s.queue && (b in s.grace ==> s.grace[b] == {}) {
      assert b in s.grace;
      KfreeKeepsContents(s, b, s.op);
    }
  }

  // ----- one call -----

  /** How far a call on the catalogue `books` has come; `short` if it ran out of memory. */
  ghost predicate InCall(books: seq<Record>, kind: Kind, id: int, short: bool, s: State) {
    match s.op
    case Idle => Contents(s) == if short then books else Apply(books, kind, id)
    case Adding(_, _) => false
    case Seeking(k, i, _, _) => k == kind && i == id && Contents(s) == books && !short
    case Found(k, i, _, _) => k == kind && i == id && Contents(s) == books && !short
    case Replacing(pc, k, i, _, _, _) =>
      && k == kind && i == id && kind != Delete && !short
      && Contents(s) == if pc <= 2 then books else Apply(books, kind, id)
    case Deleting(pc, i, _, _) =>
      kind == Delete && i == id && !short && Contents(s) == if pc <= 1 then books else Apply(books, kind, id)
    case Retiring(_, _) => !short && Contents(s) == Apply(books, kind, id)
    case Syncing(_) => !short && Contents(s) == Apply(books, kind, id)
  }

  /** The step finds no memory for the copy. */
  predicate RunsShort(s: State, e: Event) { e.Update? && s.op.Found? && !Allocatable(s, e.a) }

  lemma CallStep(books: seq<Record>, kind: Kind, id: int, short: bool, s: State, e: Event)
    requires Inv(s) && InCall(books, kind, id, short, s) && !e.Add? && !e.Call?
    ensures InCall(books, kind, id, short || RunsShort(s, e), Step(s, e))
  {
    hide Inv, Apply, Contents, StepUpdate, StepCallback, StepAdvance;
    if e.Update? {
      if Publishes(s, e) {
        PublishInCall(books, kind, id, s, e.a);
      } else {
        OthersKeepContents(s, e);
        ProgressInCall(books, kind, id, short, s, e.a);
      }
    } else {
      OthersKeepContents(s, e);
      ReadersKeepOp(s, e);
    }
  }

  lemma ReadersKeepOp(s: State, e: Event)
    requires !e.Add? && !e.Call? && !e.Update?
    ensures Step(s, e).op == s.op
  {
    hide StepReadLock, StepAdvance, StepReadUnlock, StepCallback;
  }

  lemma PublishInCall(books: seq<Record>, kind: Kind, id: int, s: State, a: Addr)
    requires Inv(s) && InCall(books, kind, id, false, s) && Publishes(s, Update(a))
    ensures InCall(books, kind, id, false, StepUpdate(s, a))
  {
    if s.op.Replacing? {
      hide ViewOk, MemoryOk, UpdaterOk, Apply, Contents, StepAdding, StepSeeking, StepFound, StepDeleting,
           StepRetiring, StepSyncing, IndexOf;
      ReplaceTakesEffect(s);
      PublishAdvances(s);
    } else {
      hide ViewOk, MemoryOk, UpdaterOk, Apply, Contents, StepAdding, StepSeeking, StepFound, StepReplacing,
           StepRetiring, StepSyncing, IndexOf;
      DeleteTakesEffect(s);
      UnlinkAdvances(s);
    }
  }

  lemma NoFault(s: State)
    requires MemoryOk(s)
    ensures !s.fault
  {
  }

  lemma PublishAdvances(s: State)
    requires Inv(s) && s.op.Replacing? && s.op.pc == 2
    ensures StepUpdate(s, 0).op == Replacing(3, s.op.kind, s.op.id, s.op.async, s.op.orig, s.op.n)
  {
    hide StepAdding, StepSeeking, StepFound, StepDeleting, StepRetiring, StepSyncing, ViewOk, MemoryOk, BackLinked;
    ReplaceReady(s);
    NoFault(s);
  }

  lemma UnlinkAdvances(s: State)
    requires Inv(s) && s.op.Deleting? && s.op.pc == 1
    ensures StepUpdate(s, 0).op == Deleting(2, s.op.id, s.op.async, s.op.orig)
  {
    hide StepAdding, StepSeeking, StepFound, StepReplacing, StepRetiring, StepSyncing, ViewOk, MemoryOk, BackLinked,
         BackLinkedExcept;
    DeleteReady(s);
  }

  lemma ProgressInCall(books: seq<Record>, kind: Kind, id: int, short: bool, s: State, a: Addr)
    requires Inv(s) && InCall(books, kind, id, short, s) && !Publishes(s, Update(a))
    requires Contents(StepUpdate(s, a)) == Contents(s)
    ensures InCall(books, kind, id, short || RunsShort(s, Update(a)), StepUpdate(s, a))
  {
    hide ViewOk, MemoryOk, UpdaterOk, Apply, Contents, BackLinked, BackLinkedExcept;
    hide StepAdding, StepSeeking, StepFound, StepReplacing, StepDeleting, StepRetiring, StepSyncing;
    match s.op {
      case Seeking(k, i, async, at) => SeekingInCall(books, s);
      case Found(k, i, async, orig) => FoundOp(s, a);
      case Replacing(pc, k, i, async, orig, n) => ReplacingOp(s, pc, k, i, async, orig, n);
      case Deleting(pc, i, async, orig) => DeletingOp(s, pc, i, async, orig);
      case Retiring(async, orig) => RetiringOp(s, async, orig);
      case Syncing(orig) => SyncingOp(s, orig);
      case _ =>
    }
  }

  /** The search fails only if the sequential call does. */
  lemma SeekingInCall(books: seq<Record>, s: State)
    requires Inv(s) && s.op.Seeking? && Contents(s) == books
    ensures StepUpdate(s, 0) == s.(op := Sought(s))
    ensures Sought(s) == Idle ==> Apply(books, s.op.kind, s.op.id) == books
  {
    hide ViewOk, MemoryOk, BackLinked, StepUpdate, Passed;
    SeekingShape(s);
    SeekingAt(s, Passed(s));
    FirstMatchBeyond(s, Passed(s));
  }

  lemma FirstMatchBeyond(s: State, m: nat)
    requires s.op.Seeking? && m <= |s.list| && NotBefore(s, s.op.id, m)
    ensures m == |s.list| ==> FirstMatch(Contents(s), s.op.id) == |s.list|
    ensures m < |s.list| && Lookup(s.rec, s.list[m]).id == s.op.id ==>
      FirstMatch(Contents(s), s.op.id) == m && Contents(s)[m] == Lookup(s.rec, s.list[m])
  {
    forall j | 0 <= j < m ensures Contents(s)[j].id != s.op.id { assert Contents(s)[j] == Lookup(s.rec, s.list[j]); }
    if m == |s.list| || Lookup(s.rec, s.list[m]).id == s.op.id { FirstMatchIs(Contents(s), s.op.id, m); }
  }

  lemma FoundOp(s: State, a: Addr)
    requires Inv(s) && s.op.Found?
    ensures StepFound(s, s.op.kind, s.op.id, s.op.async, s.op.orig, a).op ==
      if Allocatable(s, a) then Replacing(0, s.op.kind, s.op.id, s.op.async, s.op.orig, a) else Idle
    ensures s.op.kind != Delete
  {
    hide ViewOk, MemoryOk, BackLinked, IsFirst;
    FoundIsThere(s);
  }

  lemma ReplacingOp(s: State, pc: nat, kind: Kind, id: int, async: bool, orig: Addr, n: Addr)
    requires Inv(s) && s.op == Replacing(pc, kind, id, async, orig, n) && pc != 2
    ensures StepReplacing(s, pc, kind, id, async, orig, n).op ==
      if pc <= 3 then Replacing(pc + 1, kind, id, async, orig, n) else Retiring(async, orig)
  {
    hide ViewOk, MemoryOk, BackLinked, BackLinkedExcept, FoundOk;
    NoFault(s);
    if pc <= 1 {
      ReplacedIsThere(s);
      if pc == 0 { return; }
    } else if pc == 3 {
      Successor(s, n);
    } else {
      UnlinkedIsThere(s, orig);
    }
  }

  lemma DeletingOp(s: State, pc: nat, id: int, async: bool, orig: Addr)
    requires Inv(s) && s.op == Deleting(pc, id, async, orig) && pc != 1
    ensures StepDeleting(s, pc, id, async, orig).op ==
      if pc == 0 then Deleting(1, id, async, orig) else Retiring(async, orig)
  {
    hide ViewOk, MemoryOk, BackLinked, BackLinkedExcept, IsFirst;
    if pc == 0 {
      FirstListed(s, id, orig);
      Successor(s, orig);
    } else {
      UnlinkedIsThere(s, orig);
    }
  }

  lemma RetiringOp(s: State, async: bool, orig: Addr)
    requires Inv(s) && s.op == Retiring(async, orig)
    ensures StepRetiring(s, async, orig).op == if async then Idle else Syncing(orig)
  {
    hide ViewOk, MemoryOk, BackLinked;
    UnlinkedIsThere(s, orig);
  }

  lemma SyncingOp(s: State, orig: Addr)
    requires s.op == Syncing(orig)
    ensures StepSyncing(s, orig).op == s.op || StepSyncing(s, orig).op == Idle
  {
  }

  // ----- whole calls, under every interleaving -----

  /** Some event of the run finds no memory. */
  ghost predicate Short(s: State, es: seq<Event>)
    decreases |es|
  {
    es != [] && (Short(s, es[..|es| - 1]) || RunsShort(Exec(Step, s, es[..|es| - 1]), es[|es| - 1]))
  }

  lemma {:induction false} CallRun(books: seq<Record>, kind: Kind, id: int, s: State, es: seq<Event>)
    requires Inv(s) && InCall(books, kind, id, false, s)
    requires forall i :: 0 <= i < |es| ==> !es[i].Add? && !es[i].Call?
    ensures Inv(Exec(Step, s, es)) && InCall(books, kind, id, Short(s, es), Exec(Step, s, es))
    decreases |es|
  {
    hide Inv, InCall, Step;
    if es != [] {
      var k := |es| - 1;
      CallRun(books, kind, id, s, es[..k]);
      StepKeeps(Exec(Step, s, es[..k]), es[k]);
      CallStep(books, kind, id, Short(s, es[..k]), Exec(Step, s, es[..k]), es[k]);
    }
  }

  lemma CallBegins(s: State, kind: Kind, id: int, async: bool)
    requires s.op == Idle
    ensures InCall(Contents(s), kind, id, false, Step(s, Call(kind, id, async)))
  {
    ContentsFrame(s, Step(s, Call(kind, id, async)));
  }

  /** Any Borrow, Return or Delete call, interleaved in any way with readers and callbacks: when
      it has come back, the catalogue is what the sequential call makes of it, or unchanged if
      there was no memory for the copy. */
  lemma CallIsAtomic(before: seq<Event>, kind: Kind, id: int, async: bool, during: seq<Event>)
    requires Exec(Step, INIT, before).op == Idle
    requires forall i :: 0 <= i < |during| ==> !during[i].Add? && !during[i].Call?
    requires Exec(Step, INIT, before + [Call(kind, id, async)] + during).op == Idle
    ensures
      var s, t := Exec(Step, INIT, before), Exec(Step, INIT, before + [Call(kind, id, async)] + during);
      Contents(t) == if Short(Step(s, Call(kind, id, async)), during) then Contents(s) else Apply(Contents(s), kind, id)
  {
    hide Inv, Step, INIT, Apply, Contents;
    var s := Exec(Step, INIT, before);
    var c := Step(s, Call(kind, id, async));
    Reached(before);
    StepKeeps(s, Call(kind, id, async));
    CallBegins(s, kind, id, async);
    ExecOneMore(Step, INIT, before, Call(kind, id, async));
    ExecConcat(Step, INIT, before + [Call(kind, id, async)], during);
    CallRun(Contents(s), kind, id, c, during);
  }
}
