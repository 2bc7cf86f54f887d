/** What every step of the RCU list keeps. */
module RcuListInvariant {
  import opened Runs
  import opened RcuList

  // ----- the linked part -----

  /** The list is a ring through the head. */
  function Nth(list: seq<Addr>, i: nat): Addr { if i < |list| then list[i] else HEAD }

  function Pred(list: seq<Addr>, i: nat): Addr
    requires i <= |list|
  { if i == 0 then HEAD else list[i - 1] }

  ghost predicate Linked(next: map<Addr, Addr>, list: seq<Addr>) {
    && HEAD in next && next[HEAD] == Nth(list, 0)
    && forall i :: 0 <= i < |list| ==> list[i] in next && next[list[i]] == Nth(list, i + 1)
  }

  ghost predicate BackLink(prev: map<Addr, Addr>, list: seq<Addr>, i: nat)
    requires i <= |list|
  {
    Nth(list, i) in prev && prev[Nth(list, i)] == Pred(list, i)
  }

  ghost predicate BackLinked(prev: map<Addr, Addr>, list: seq<Addr>) {
    forall i :: 0 <= i <= |list| ==> BackLink(prev, list, i)
  }

  ghost predicate BackLinkedExcept(prev: map<Addr, Addr>, list: seq<Addr>, k: nat) {
    forall i :: 0 <= i <= |list| && i != k ==> BackLink(prev, list, i)
  }

  /** Books are only ever added at the head, so slots fall along the list. */
  ghost predicate Sorted(slot: map<Addr, nat>, list: seq<Addr>, top: nat) {
    && (forall i :: 0 <= i < |list| ==> list[i] > POISON && list[i] in slot && 1 <= slot[list[i]] <= top)
    && (forall i, j :: 0 <= i < j < |list| ==> slot[list[i]] > slot[list[j]])
  }

  // ----- the unlinked part -----

  /** The head ends a traversal: it ranks below every slot. */
  function Rank(slot: map<Addr, nat>, a: Addr): nat { if a == HEAD then 0 else SlotOf(slot, a) }

  /** Following a pointer from slot `k` to rank `l` skips no listed book. */
  ghost predicate NoSkip(slot: map<Addr, nat>, list: seq<Addr>, k: nat, l: nat) {
    forall i :: 0 <= i < |list| && SlotOf(slot, list[i]) < k ==> SlotOf(slot, list[i]) <= l
  }

  /** An unlinked book keeps its next pointer, and as long as a reader may stand on it that
      pointer leads onwards: to the end, to a listed book, or to a book unlinked later, which
      the same readers keep alive. */
  ghost predicate Stale(s: State, a: Addr)
    requires a in s.holders
  {
    && a > POISON && a !in s.list && a in s.next && a in s.rec
    && a in s.slot && 1 <= s.slot[a] <= |s.stock|
    && s.holders[a] <= s.readers.Keys
    && (s.holders[a] != {} ==>
        var n := s.next[a];
        && (n == HEAD || n in s.list || (n in s.holders && s.holders[a] <= s.holders[n]))
        && Rank(s.slot, n) < s.slot[a]
        && NoSkip(s.slot, s.list, s.slot[a], Rank(s.slot, n)))
  }

  // ----- readers -----

  /** A copy differs from the stocked book in the borrow flag only. */
  ghost predicate SameBook(a: Record, b: Record) { a.(borrow := 0) == b.(borrow := 0) }

  ghost predicate Descending(visited: seq<Visit>) {
    forall i, j :: 0 <= i < j < |visited| ==> visited[i].slot > visited[j].slot
  }

  ghost predicate Saw(visited: seq<Visit>, k: nat) {
    exists i :: 0 <= i < |visited| && visited[i].slot == k
  }

  ghost predicate Standing(s: State, r: Reader, c: Cursor) {
    if c.at == HEAD then c.visited == []
    else
      && (c.at in s.list || (c.at in s.holders && r in s.holders[c.at]))
      && c.visited != [] && c.visited[|c.visited| - 1].slot == SlotOf(s.slot, c.at)
  }

  ghost predicate Genuine(s: State, c: Cursor) {
    forall i :: 0 <= i < |c.visited| ==>
      && c.visited[i] in c.current
      && 1 <= c.visited[i].slot <= |s.stock| && SameBook(c.visited[i].rec, s.stock[c.visited[i].slot - 1])
  }

  /** Whatever a reader can still load is something that was listed during its section. */
  ghost predicate Covered(s: State, r: Reader, c: Cursor) {
    && (forall i :: 0 <= i < |s.list| ==> Visit(SlotOf(s.slot, s.list[i]), Lookup(s.rec, s.list[i])) in c.current)
    && (forall a :: a in s.holders && r in s.holders[a] ==> Visit(SlotOf(s.slot, a), Lookup(s.rec, a)) in c.current)
  }

  /** Every slot listed throughout is behind the reader and seen, or still ahead. */
  ghost predicate Complete(s: State, c: Cursor) {
    forall k :: k in c.through ==>
      && k in SlotsOf(s.slot, s.list)
      && (Saw(c.visited, k) || (!c.done && (c.visited == [] || k < c.visited[|c.visited| - 1].slot)))
  }

  ghost predicate ReaderOk(s: State, r: Reader, c: Cursor) {
    && (!c.done ==> Standing(s, r, c))
    && Descending(c.visited)
    && Genuine(s, c)
    && Covered(s, r, c)
    && Complete(s, c)
  }

  // ----- what readers depend on -----

  ghost predicate Reachable(s: State, a: Addr) { a in s.list || a in s.holders }

  ghost predicate Stocked(s: State) {
    forall a :: Reachable(s, a) ==>
      a in s.rec && a in s.slot && 1 <= s.slot[a] <= |s.stock| && SameBook(s.rec[a], s.stock[s.slot[a] - 1])
  }

  ghost predicate ViewOk(s: State) {
    && Linked(s.next, s.list)
    && Sorted(s.slot, s.list, |s.stock|)
    && Stocked(s)
    && (forall a :: a in s.holders ==> Stale(s, a))
    && (forall r :: r in s.readers ==> ReaderOk(s, r, s.readers[r]))
  }

  // ----- memory and grace periods -----

  /** Allocated, but not yet published. */
  function Private(op: Op): set<Addr> {
    match op
    case Adding(pc, n) => if pc <= 2 then {n} else {}
    case Replacing(pc, _, _, _, _, n) => if pc <= 2 then {n} else {}
    case _ => {}
  }

  /** Unlinked, but its grace period has not begun. */
  function Pending(op: Op): set<Addr> {
    match op
    case Replacing(pc, _, _, _, orig, _) => if pc >= 3 then {orig} else {}
    case Deleting(pc, _, _, orig) => if pc >= 2 then {orig} else {}
    case Retiring(_, orig) => {orig}
    case _ => {}
  }

  /** What synchronize_rcu is waiting to free. */
  function Waiting(op: Op): set<Addr> {
    match op
    case Syncing(orig) => {orig}
    case _ => {}
  }

  /** Allocated memory is the head, the listed books, the unlinked ones and what is private to
      the updater; these do not overlap. */
  ghost predicate Partition(s: State) {
    && (forall a :: a in s.next <==> a == HEAD || a in s.list || a in s.holders || a in Private(s.op))
    && (forall a :: a in Private(s.op) ==> a > POISON && a !in s.list && a !in s.holders)
  }

  ghost predicate SameKeys(s: State) {
    s.prev.Keys == s.next.Keys && s.rec.Keys == s.next.Keys - {HEAD}
  }

  /** Every unlinked book is pending, waited for or queued, and only one of these; its grace
      period waits at least for the readers that could stand on it. */
  ghost predicate GraceOk(s: State) {
    && s.holders.Keys == s.grace.Keys + Pending(s.op)
    && Pending(s.op) !! s.grace.Keys
    && s.grace.Keys == s.queue + Waiting(s.op)
    && Waiting(s.op) !! s.queue
    && (forall a :: a in s.grace ==> a in s.holders && s.holders[a] <= s.grace[a] <= s.readers.Keys)
  }

  ghost predicate MemoryOk(s: State) {
    !s.fault && Partition(s) && SameKeys(s) && GraceOk(s)
  }

  // ----- the updater -----

  /** No listed book before position `m` has this id. */
  ghost predicate NotBefore(s: State, id: int, m: nat)
    requires m <= |s.list|
  {
    forall j :: 0 <= j < m ==> Lookup(s.rec, s.list[j]).id != id
  }

  ghost predicate IsFirst(s: State, id: int, b: Addr) {
    b in s.list && Lookup(s.rec, b).id == id && NotBefore(s, id, IndexOf(s.list, b))
  }

  predicate Flips(kind: Kind, rec: Record) {
    kind != Delete && (kind == Borrow) == (rec.borrow == 0)
  }

  function Flipped(kind: Kind, rec: Record): Record {
    rec.(borrow := if kind == Borrow then 1 else 0)
  }

  ghost predicate AddingOk(s: State, pc: nat, n: Addr) {
    && pc <= 3
    && (pc <= 2 ==> BackLinked(s.prev, s.list) && n in s.next && n in s.prev && n in s.rec && s.rec[n].borrow == 0)
    && (pc == 1 || pc == 2 ==> HEAD in s.next && s.next[n] == s.next[HEAD])
    && (pc == 2 ==> s.prev[n] == HEAD)
    && (pc == 3 ==> |s.list| > 0 && s.list[0] == n && BackLinkedExcept(s.prev, s.list, 1))
  }

  ghost predicate SeekingOk(s: State, id: int, at: Addr) {
    at == HEAD || (at in s.list && NotBefore(s, id, IndexOf(s.list, at) + 1))
  }

  ghost predicate FoundOk(s: State, kind: Kind, id: int, orig: Addr) {
    IsFirst(s, id, orig) && Flips(kind, Lookup(s.rec, orig))
  }

  ghost predicate ReplacingOk(s: State, pc: nat, kind: Kind, id: int, orig: Addr, n: Addr) {
    && pc <= 4
    && (pc <= 2 ==>
        && BackLinked(s.prev, s.list)
        && FoundOk(s, kind, id, orig)
        && n in s.next && n in s.prev && Lookup(s.rec, n) == Flipped(kind, Lookup(s.rec, orig)))
    && (pc == 1 || pc == 2 ==> orig in s.next && s.next[n] == s.next[orig])
    && (pc == 2 ==> orig in s.prev && s.prev[n] == s.prev[orig])
    && (pc == 3 ==> n in s.list && BackLinkedExcept(s.prev, s.list, IndexOf(s.list, n) + 1))
    && (pc == 4 ==> BackLinked(s.prev, s.list))
  }

  ghost predicate DeletingOk(s: State, pc: nat, id: int, orig: Addr) {
    && pc <= 2
    && (pc <= 1 ==> IsFirst(s, id, orig))
    && (pc == 0 ==> BackLinked(s.prev, s.list))
    && (pc == 1 ==>
        var k := IndexOf(s.list, orig);
        && BackLinkedExcept(s.prev, s.list, k + 1)
        && Nth(s.list, k + 1) in s.prev && s.prev[Nth(s.list, k + 1)] == Pred(s.list, k))
    && (pc == 2 ==> BackLinked(s.prev, s.list))
  }

  ghost predicate UpdaterOk(s: State) {
    match s.op
    case Idle => BackLinked(s.prev, s.list)
    case Adding(pc, n) => AddingOk(s, pc, n)
    case Seeking(_, id, _, at) => BackLinked(s.prev, s.list) && SeekingOk(s, id, at)
    case Found(kind, id, _, orig) => BackLinked(s.prev, s.list) && FoundOk(s, kind, id, orig)
    case Replacing(pc, kind, id, _, orig, n) => ReplacingOk(s, pc, kind, id, orig, n)
    case Deleting(pc, id, _, orig) => DeletingOk(s, pc, id, orig)
    case Retiring(_, orig) => BackLinked(s.prev, s.list)
    case Syncing(orig) => BackLinked(s.prev, s.list)
  }

  ghost predicate Inv(s: State) {
    ViewOk(s) && MemoryOk(s) && UpdaterOk(s)
  }

  // ----- list facts -----

  lemma {:induction false} IndexOfUnique(list: seq<Addr>, i: nat)
    requires i < |list|
    requires forall j :: 0 <= j < i ==> list[j] != list[i]
    ensures IndexOf(list, list[i]) == i
  {
    if i > 0 {
      assert list[0] != list[i];
      assert list[1..][i - 1] == list[i];
      forall j | 0 <= j < i - 1 ensures list[1..][j] != list[1..][i - 1] { assert list[j + 1] != list[i]; }
      IndexOfUnique(list[1..], i - 1);
    }
  }

  lemma IndexOfSorted(s: State, i: nat)
    requires Sorted(s.slot, s.list, |s.stock|) && i < |s.list|
    ensures IndexOf(s.list, s.list[i]) == i
  {
    IndexOfUnique(s.list, i);
  }
}
