/** The RCU-protected book list: one updater and any number of readers over one memory.

    Memory is explicit. An address is allocated iff it is a key of `next`; `kzalloc` may hand
    out any address that is not, `kfree` makes it unallocated again, and touching an unallocated
    address raises `fault`. The updater is run one store at a time, so a reader may run between
    any two stores of `list_add_rcu`, `list_replace_rcu` and `list_del_rcu`. */
module RcuList {

  type Addr = nat
  type Reader = nat

  /** The null pointer, the embedded list head `books`, and the kernel's LIST_POISON2. */
  const NULL: Addr := 0
  const HEAD: Addr := 1
  const POISON: Addr := 2

  datatype Record = Record(id: int, name: string, author: string, borrow: int)

  datatype Kind = Borrow | Return | Delete

  /** The updater's program counter: which library call it is in, and how far. */
  datatype Op =
    | Idle
    | Adding(pc: nat, n: Addr)
    | Seeking(kind: Kind, id: int, async: bool, at: Addr)
    | Found(kind: Kind, id: int, async: bool, orig: Addr)
    | Replacing(pc: nat, kind: Kind, id: int, async: bool, orig: Addr, n: Addr)
    | Deleting(pc: nat, id: int, async: bool, orig: Addr)
    | Retiring(async: bool, orig: Addr)
    | Syncing(orig: Addr)

  /** What a reader saw: the `slot`-th book ever stocked, with this content. */
  datatype Visit = Visit(slot: nat, rec: Record)

  /** A read-side critical section. `at`, `done` and `visited` are the traversal; `through` and
      `current` are history: the slots listed ever since the section began, and everything that
      was listed at some moment of the section. No step reads the history. */
  datatype Cursor = Cursor(at: Addr, done: bool, visited: seq<Visit>, through: set<nat>, current: set<Visit>)

  /** `next`, `prev` and `rec` are the memory; `grace` maps a retired book to the readers its
      grace period still waits for, and `queue` holds those given to `call_rcu`.
      `list`, `slot`, `stock` and `holders` are history that no step consults: the listed books
      in order, which stocked book an address holds (a copy keeps the slot of its original), the
      stocked books, and the readers that were active when a book was unlinked. */
  datatype State = State(
    next: map<Addr, Addr>, prev: map<Addr, Addr>, rec: map<Addr, Record>,
    op: Op, readers: map<Reader, Cursor>,
    grace: map<Addr, set<Reader>>, queue: set<Addr>, fault: bool,
    list: seq<Addr>, slot: map<Addr, nat>, stock: seq<Record>, holders: map<Addr, set<Reader>>)

  datatype Event =
    | Add(rec: Record, a: Addr)
    | Call(kind: Kind, id: int, async: bool)
    | Update(a: Addr)
    | Callback(b: Addr)
    | ReadLock(r: Reader)
    | Advance(r: Reader)
    | ReadUnlock(r: Reader)

  /** The empty list: the head points at itself. */
  const INIT: State := State(
    map[HEAD := HEAD], map[HEAD := HEAD], map[], Idle, map[], map[], {}, false, [], map[], [], map[])

  // ----- the library as a sequence of records -----

  /** Where the loops of Borrow_book, Return_book and Delete_book stop: the first match. */
  function FirstMatch(books: seq<Record>, id: int): (i: nat)
    ensures i <= |books|
    ensures i < |books| ==> books[i].id == id
    ensures forall j :: 0 <= j < i ==> books[j].id != id
  {
    if books == [] || books[0].id == id then 0 else 1 + FirstMatch(books[1..], id)
  }

  /** What a library call does to the catalogue when it gets the memory it asks for. */
  function Apply(books: seq<Record>, kind: Kind, id: int): seq<Record> {
    var i := FirstMatch(books, id);
    if i == |books| then books
    else match kind
      case Borrow => if books[i].borrow != 0 then books else books[i := books[i].(borrow := 1)]
      case Return => if books[i].borrow == 0 then books else books[i := books[i].(borrow := 0)]
      case Delete => books[..i] + books[i + 1..]
  }

  /** The listed records, in list order. */
  function Contents(s: State): seq<Record> {
    seq(|s.list|, i requires 0 <= i < |s.list| => Lookup(s.rec, s.list[i]))
  }

  const NO_RECORD: Record := Record(0, "", "", 0)

  function Lookup(rec: map<Addr, Record>, a: Addr): Record {
    if a in rec then rec[a] else NO_RECORD
  }

  /** strncpy into the 64-byte name and author fields. */
  function Clip(s: string): (c: string)
    ensures |c| <= 64 && c <= s
    ensures |c| == if |s| <= 64 then |s| else 64
  {
    if |s| <= 64 then s else s[..64]
  }

  function NewRecord(id: int, name: string, author: string): Record {
    Record(id, Clip(name), Clip(author), 0)
  }

  // ----- memory -----

  function Crash(s: State): State { s.(fault := true) }

  /** An address that `kzalloc` can return. */
  predicate Allocatable(s: State, a: Addr) { a > POISON && a !in s.next }

  /** Readers, list and records are as before. */
  ghost predicate Unnoticed(s: State, t: State) { t.readers == s.readers && t.list == s.list && t.rec == s.rec }

  function SetNext(s: State, a: Addr, v: Addr): (t: State)
    ensures s.next.Keys <= t.next.Keys && Unnoticed(s, t)
  {
    if a in s.next then s.(next := s.next[a := v]) else Crash(s)
  }

  function SetPrev(s: State, a: Addr, v: Addr): (t: State)
    ensures s.next.Keys <= t.next.Keys && Unnoticed(s, t)
  {
    if a in s.prev then s.(prev := s.prev[a := v]) else Crash(s)
  }

  function Kzalloc(s: State, a: Addr, rec: Record, next: Addr, prev: Addr): State {
    s.(next := s.next[a := next], prev := s.prev[a := prev], rec := s.rec[a := rec])
  }

  function Kfree(s: State, a: Addr): State {
    if a !in s.next then Crash(s)
    else s.(next := s.next - {a}, prev := s.prev - {a}, rec := s.rec - {a},
            grace := s.grace - {a}, queue := s.queue - {a}, holders := s.holders - {a})
  }

  // ----- history -----

  function IndexOf(list: seq<Addr>, a: Addr): (i: nat)
    ensures i <= |list|
    ensures i < |list| ==> list[i] == a
    ensures a in list ==> i < |list|
  {
    if list == [] || list[0] == a then 0 else 1 + IndexOf(list[1..], a)
  }

  function ReplaceIn(list: seq<Addr>, orig: Addr, n: Addr): seq<Addr> {
    var i := IndexOf(list, orig);
    if i < |list| then list[i := n] else list
  }

  function RemoveFrom(list: seq<Addr>, orig: Addr): seq<Addr> {
    var i := IndexOf(list, orig);
    if i < |list| then list[..i] + list[i + 1..] else list
  }

  function SlotOf(slot: map<Addr, nat>, a: Addr): nat { if a in slot then slot[a] else 0 }

  function SlotsOf(slot: map<Addr, nat>, list: seq<Addr>): set<nat> {
    set i | 0 <= i < |list| :: SlotOf(slot, list[i])
  }

  function VisitsOf(s: State): set<Visit> {
    set i | 0 <= i < |s.list| :: Visit(SlotOf(s.slot, s.list[i]), Lookup(s.rec, s.list[i]))
  }

  /** Every section under way notes that `v` is listed now. */
  function Witness(readers: map<Reader, Cursor>, v: Visit): map<Reader, Cursor> {
    map r | r in readers :: readers[r].(current := readers[r].current + {v})
  }

  /** Every section under way notes that slot `k` is no longer listed. */
  function Forget(readers: map<Reader, Cursor>, k: nat): map<Reader, Cursor> {
    map r | r in readers :: readers[r].(through := readers[r].through - {k})
  }

  function NotePublished(s: State, n: Addr, k: nat): (t: State)
    ensures t.next == s.next
  {
    s.(slot := s.slot[n := k], readers := Witness(s.readers, Visit(k, Lookup(s.rec, n))))
  }

  function NoteAdded(s: State, n: Addr): (t: State)
    ensures t.next == s.next
  {
    NotePublished(s.(list := [n] + s.list, stock := s.stock + [Lookup(s.rec, n)]), n, |s.stock| + 1)
  }

  function NoteReplaced(s: State, orig: Addr, n: Addr): (t: State)
    ensures t.next == s.next
  {
    NotePublished(s.(list := ReplaceIn(s.list, orig, n), holders := s.holders[orig := s.readers.Keys]),
                  n, SlotOf(s.slot, orig))
  }

  function NoteRemoved(s: State, orig: Addr): (t: State)
    ensures t.next == s.next
  {
    s.(list := RemoveFrom(s.list, orig), holders := s.holders[orig := s.readers.Keys],
       readers := Forget(s.readers, SlotOf(s.slot, orig)))
  }

  // ----- the updater, one store at a time -----

  /** list_add_rcu: fill in the new node, publish it through the head, fix the back link. */
  function StepAdding(s: State, pc: nat, n: Addr): (t: State)
    ensures s.next.Keys <= t.next.Keys
  {
    if HEAD !in s.next || n !in s.next then Crash(s)
    else if pc == 0 then SetNext(s, n, s.next[HEAD]).(op := Adding(1, n))
    else if pc == 1 then SetPrev(s, n, HEAD).(op := Adding(2, n))
    else if pc == 2 then NoteAdded(SetNext(s, HEAD, n), n).(op := Adding(3, n))
    else SetPrev(s, s.next[n], n).(op := Idle)
  }

  /** One iteration of list_for_each_entry in Borrow_book, Return_book or Delete_book. */
  function StepSeeking(s: State, kind: Kind, id: int, async: bool, at: Addr): (t: State)
    ensures t.next == s.next && Unnoticed(s, t)
  {
    if at !in s.next || (s.next[at] != HEAD && s.next[at] !in s.rec) then Crash(s)
    else s.(op := SeekOn(s.next[at], if s.next[at] in s.rec then s.rec[s.next[at]] else NO_RECORD, kind, id, async))
  }

  /** Where the loop goes when it looks at book `b`: to the end, past it, or out with a match. */
  function SeekOn(b: Addr, rec: Record, kind: Kind, id: int, async: bool): Op {
    if b == HEAD then Idle
    else if rec.id != id then Seeking(kind, id, async, b)
    else if kind == Delete then Deleting(0, id, async, b)
    else if (kind == Borrow) == (rec.borrow != 0) then Idle
    else Found(kind, id, async, b)
  }

  /** Copy the book; without memory the call fails. */
  function StepFound(s: State, kind: Kind, id: int, async: bool, orig: Addr, a: Addr): (t: State)
    ensures s.next.Keys <= t.next.Keys && t.readers == s.readers && t.list == s.list
  {
    if orig !in s.next || orig !in s.prev || orig !in s.rec then Crash(s)
    else if !Allocatable(s, a) then s.(op := Idle)
    else Kzalloc(s, a, s.rec[orig].(borrow := if kind == Borrow then 1 else 0), s.next[orig], s.prev[orig])
         .(op := Replacing(0, kind, id, async, orig, a))
  }

  /** list_replace_rcu: fill in the copy, publish it through its predecessor, fix the back link,
      poison the original. */
  function StepReplacing(s: State, pc: nat, kind: Kind, id: int, async: bool, orig: Addr, n: Addr): State {
    var t := if pc == 0 then FillNext(s, orig, n)
             else if pc == 1 then FillPrev(s, orig, n)
             else if pc == 2 then PublishCopy(s, orig, n)
             else if pc == 3 then Relink(s, n)
             else SetPrev(s, orig, POISON);
    if t.fault then t
    else t.(op := if pc <= 3 then Replacing(pc + 1, kind, id, async, orig, n) else Retiring(async, orig))
  }

  function FillNext(s: State, orig: Addr, n: Addr): (t: State)
    ensures s.next.Keys <= t.next.Keys && Unnoticed(s, t)
  {
    if orig !in s.next then Crash(s) else SetNext(s, n, s.next[orig])
  }

  function FillPrev(s: State, orig: Addr, n: Addr): (t: State)
    ensures s.next.Keys <= t.next.Keys && Unnoticed(s, t)
  {
    if orig !in s.prev then Crash(s) else SetPrev(s, n, s.prev[orig])
  }

  function PublishCopy(s: State, orig: Addr, n: Addr): (t: State)
    ensures s.next.Keys <= t.next.Keys
  {
    if n !in s.prev then Crash(s) else NoteReplaced(SetNext(s, s.prev[n], n), orig, n)
  }

  /** Make the successor of `n` point back at it. */
  function Relink(s: State, n: Addr): (t: State)
    ensures s.next.Keys <= t.next.Keys && Unnoticed(s, t)
  {
    if n !in s.next then Crash(s) else SetPrev(s, s.next[n], n)
  }

  /** list_del_rcu: fix the back link, unlink, poison. */
  function StepDeleting(s: State, pc: nat, id: int, async: bool, orig: Addr): (t: State)
    ensures s.next.Keys <= t.next.Keys
  {
    if orig !in s.next || orig !in s.prev then Crash(s)
    else if pc == 0 then SetPrev(s, s.next[orig], s.prev[orig]).(op := Deleting(1, id, async, orig))
    else if pc == 1 then NoteRemoved(SetNext(s, s.prev[orig], s.next[orig]), orig).(op := Deleting(2, id, async, orig))
    else SetPrev(s, orig, POISON).(op := Retiring(async, orig))
  }

  /** call_rcu, or the start of synchronize_rcu: a grace period that waits for every section
      under way now. Handing over a book twice is a fault. */
  function StepRetiring(s: State, async: bool, orig: Addr): (t: State)
    ensures s.next.Keys <= t.next.Keys
  {
    if orig in s.grace then Crash(s)
    else if async then s.(grace := s.grace[orig := s.readers.Keys], queue := s.queue + {orig}, op := Idle)
    else s.(grace := s.grace[orig := s.readers.Keys], op := Syncing(orig))
  }

  /** synchronize_rcu returns, and the book is freed, once the grace period is over. */
  function StepSyncing(s: State, orig: Addr): (t: State)
    ensures t.readers == s.readers && t.list == s.list
  {
    if orig in s.grace && s.grace[orig] != {} then s else Kfree(s, orig).(op := Idle)
  }

  function StepUpdate(s: State, a: Addr): State {
    match s.op
    case Idle => s
    case Adding(pc, n) => StepAdding(s, pc, n)
    case Seeking(kind, id, async, at) => StepSeeking(s, kind, id, async, at)
    case Found(kind, id, async, orig) => StepFound(s, kind, id, async, orig, a)
    case Replacing(pc, kind, id, async, orig, n) => StepReplacing(s, pc, kind, id, async, orig, n)
    case Deleting(pc, id, async, orig) => StepDeleting(s, pc, id, async, orig)
    case Retiring(async, orig) => StepRetiring(s, async, orig)
    case Syncing(orig) => StepSyncing(s, orig)
  }

  /** Add_book: without memory nothing happens. */
  function StepAdd(s: State, rec: Record, a: Addr): (t: State)
    ensures s.next.Keys <= t.next.Keys && t.list == s.list && t.readers == s.readers
    ensures forall b :: b in s.next ==> Lookup(t.rec, b) == Lookup(s.rec, b)
  {
    if s.op != Idle || !Allocatable(s, a) then s
    else Kzalloc(s, a, rec.(borrow := 0), NULL, NULL).(op := Adding(0, a))
  }

  // ----- readers and callbacks -----

  function StepReadLock(s: State, r: Reader): (t: State)
    ensures t.next == s.next && t.op == s.op
  {
    if r in s.readers then s
    else s.(readers := s.readers[r := Cursor(HEAD, false, [], SlotsOf(s.slot, s.list), VisitsOf(s))])
  }

  /** list_for_each_entry_rcu: load the next pointer; read the record unless back at the head. */
  function StepAdvance(s: State, r: Reader): (t: State)
    ensures t.next == s.next && t.op == s.op
  {
    if r !in s.readers || s.readers[r].done then s
    else
      var c := s.readers[r];
      if c.at !in s.next then Crash(s)
      else
        var n := s.next[c.at];
        if n == HEAD then s.(readers := s.readers[r := c.(at := HEAD, done := true)])
        else if n !in s.rec then Crash(s)
        else s.(readers := s.readers[r := c.(at := n, visited := c.visited + [Visit(SlotOf(s.slot, n), s.rec[n])])])
  }

  function Without(waits: map<Addr, set<Reader>>, r: Reader): map<Addr, set<Reader>> {
    map a | a in waits :: waits[a] - {r}
  }

  function StepReadUnlock(s: State, r: Reader): (t: State)
    ensures t.next == s.next && t.op == s.op
  {
    s.(readers := s.readers - {r}, grace := Without(s.grace, r), holders := Without(s.holders, r))
  }

  /** A queued callback runs once its grace period is over. */
  function StepCallback(s: State, b: Addr): (t: State)
    ensures t.op == s.op
  {
    if b in s.queue && (b in s.grace ==> s.grace[b] == {}) then Kfree(s, b) else s
  }

  function Step(s: State, e: Event): State {
    match e
    case Add(rec, a) => StepAdd(s, rec, a)
    case Call(kind, id, async) => if s.op == Idle then s.(op := Seeking(kind, id, async, HEAD)) else s
    case Update(a) => StepUpdate(s, a)
    case Callback(b) => StepCallback(s, b)
    case ReadLock(r) => StepReadLock(s, r)
    case Advance(r) => StepAdvance(s, r)
    case ReadUnlock(r) => StepReadUnlock(s, r)
  }
}
