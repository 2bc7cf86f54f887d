/** Message passing through shared_data and shared_flag on a machine that reorders: stores wait
    in a buffer and reach memory in any order, except that smp_wmb keeps earlier stores before
    later ones and each location stays in order; the consumer's two loads may be done in either
    order unless smp_rmb stands between them. */
module Barriers {
  import opened Runs

  datatype Loc = Data | Flag

  /** A value, and the producer round that wrote it (-1: nobody yet). */
  datatype Cell = Cell(value: int, round: int)

  datatype Entry = Store(loc: Loc, cell: Cell) | Fence

  datatype Maybe = Nothing | Just(cell: Cell)

  /** What the consumer printed: data as read, and the round of the flag it had seen. */
  datatype Print = Print(data: int, round: int)

  /** `wmb` and `rmb` say whether the code has the barriers. */
  datatype Code = Code(wmb: bool, rmb: bool)

  datatype State = State(data: Cell, flag: Cell, buffer: seq<Entry>, round: nat, pc: nat,
                         seenFlag: Maybe, seenData: Maybe, printed: seq<Print>)

  datatype Event = Produce | Drain(j: nat) | LoadFlag | LoadData | Finish

  const INIT: State := State(Cell(0, -1), Cell(0, -1), [], 0, 0, Nothing, Nothing, [])

  function Remove(buffer: seq<Entry>, j: nat): seq<Entry>
    requires j < |buffer|
  {
    buffer[..j] + buffer[j + 1..]
  }

  /** One statement of the producer's loop body. */
  function StepProduce(code: Code, s: State): State {
    if s.pc == 0 then s.(buffer := s.buffer + [Store(Data, Cell(s.round + 100, s.round))], pc := 1)
    else if s.pc == 1 then s.(buffer := if code.wmb then s.buffer + [Fence] else s.buffer, pc := 2)
    else if s.pc == 2 then s.(buffer := s.buffer + [Store(Flag, Cell(1, s.round))], pc := 3)
    else s.(buffer := s.buffer + [Store(Flag, Cell(0, s.round))], pc := 0, round := s.round + 1)
  }

  /** A store may leave the buffer before earlier ones to the other location, but not before a
      fence or an earlier store to its own location; a fence is gone once it is first. */
  predicate MayDrain(buffer: seq<Entry>, j: nat) {
    && j < |buffer|
    && (buffer[j].Fence? ==> j == 0)
    && (buffer[j].Store? ==> forall k :: 0 <= k < j ==> buffer[k].Store? && buffer[k].loc != buffer[j].loc)
  }

  function StepDrain(s: State, j: nat): State {
    if !MayDrain(s.buffer, j) then s
    else match s.buffer[j]
      case Fence => s.(buffer := Remove(s.buffer, j))
      case Store(Data, c) => s.(buffer := Remove(s.buffer, j), data := c)
      case Store(Flag, c) => s.(buffer := Remove(s.buffer, j), flag := c)
  }

  function StepLoadFlag(s: State): State {
    if s.seenFlag != Nothing then s else s.(seenFlag := Just(s.flag))
  }

  function StepLoadData(code: Code, s: State): State {
    if s.seenData != Nothing || (code.rmb && s.seenFlag == Nothing) then s else s.(seenData := Just(s.data))
  }

  /** The iteration ends; if the flag was set, the data that was read is used. */
  function StepFinish(s: State): State {
    if s.seenFlag == Nothing || (s.seenFlag.cell.value != 0 && s.seenData == Nothing) then s
    else s.(seenFlag := Nothing, seenData := Nothing,
            printed := if s.seenFlag.cell.value == 0 then s.printed
                       else s.printed + [Print(s.seenData.cell.value, s.seenFlag.cell.round)])
  }

  function Step(code: Code, s: State, e: Event): State {
    match e
    case Produce => StepProduce(code, s)
    case Drain(j) => StepDrain(s, j)
    case LoadFlag => StepLoadFlag(s)
    case LoadData => StepLoadData(code, s)
    case Finish => StepFinish(s)
  }

  function After(code: Code, es: seq<Event>): State {
    Exec((s, e) => Step(code, s, e), INIT, es)
  }

  /** Data used after seeing the flag of round `i` (from 0) is that of round `i` or a later one. */
  predicate Fresh(p: Print) { p.round >= 0 && p.data >= 100 + p.round }

  predicate Safe(s: State) { forall k :: 0 <= k < |s.printed| ==> Fresh(s.printed[k]) }

  // ----- invariant, with both barriers -----

  const BOTH: Code := Code(true, true)

  predicate IsData(e: Entry) { e.Store? && e.loc == Data }

  predicate DataCell(c: Cell) { c.round >= 0 && c.value == c.round + 100 }

  /** Data of round `i` or later is in memory, or in the buffer before position `m`. */
  ghost predicate Sent(s: State, i: int, m: nat) {
    s.data.round >= i || exists k :: 0 <= k < m && k < |s.buffer| && IsData(s.buffer[k]) && s.buffer[k].cell.round >= i
  }

  /** Data of round `i` or later is in memory, or in the buffer before a fence before `j`. */
  ghost predicate Fenced(s: State, i: int, j: nat) {
    s.data.round >= i || exists m :: 0 <= m < j && m < |s.buffer| && s.buffer[m].Fence? && Sent(s, i, m)
  }

  ghost predicate BufferOk(s: State) {
    && (forall j :: 0 <= j < |s.buffer| && IsData(s.buffer[j]) ==>
          DataCell(s.buffer[j].cell) && s.data.round < s.buffer[j].cell.round)
    && (forall j, k :: 0 <= j < k < |s.buffer| && IsData(s.buffer[j]) && IsData(s.buffer[k]) ==>
          s.buffer[j].cell.round < s.buffer[k].cell.round)
    && (forall j ::
          0 <= j < |s.buffer| && s.buffer[j].Store? && s.buffer[j].loc == Flag && s.buffer[j].cell.value != 0 ==>
          s.buffer[j].cell.round >= 0 && Fenced(s, s.buffer[j].cell.round, j))
  }

  ghost predicate ProducerOk(s: State) {
    && s.pc <= 3
    && (forall j :: 0 <= j < |s.buffer| && IsData(s.buffer[j]) ==>
          s.buffer[j].cell.round < s.round + if s.pc == 0 then 0 else 1)
    && s.data.round < s.round + (if s.pc == 0 then 0 else 1)
    && (s.pc == 1 ==> Sent(s, s.round, |s.buffer|))
    && (s.pc == 2 ==> Fenced(s, s.round, |s.buffer|))
  }

  ghost predicate ConsumerOk(s: State) {
    && (s.data.round >= 0 ==> DataCell(s.data))
    && (s.flag.value != 0 ==> 0 <= s.flag.round <= s.data.round)
    && (s.seenFlag.Just? && s.seenFlag.cell.value != 0 ==> 0 <= s.seenFlag.cell.round <= s.data.round)
    && (s.seenData.Just? ==> s.seenFlag.Just?)
    && (s.seenData.Just? && s.seenFlag.cell.value != 0 ==>
          DataCell(s.seenData.cell) && s.seenFlag.cell.round <= s.seenData.cell.round)
  }

  ghost predicate Inv(s: State) {
    BufferOk(s) && ProducerOk(s) && ConsumerOk(s) && Safe(s)
  }

  lemma SentLater(s: State, t: State, i: int, m: nat)
    requires Sent(s, i, m) && s.buffer <= t.buffer && t.data == s.data
    ensures Sent(t, i, m)
  {
    if s.data.round < i {
      var k :| 0 <= k < m && k < |s.buffer| && IsData(s.buffer[k]) && s.buffer[k].cell.round >= i;
      assert t.buffer[k] == s.buffer[k];
    }
  }

  lemma FencedLater(s: State, t: State, i: int, j: nat)
    requires Fenced(s, i, j) && s.buffer <= t.buffer && t.data == s.data
    ensures Fenced(t, i, j)
  {
    if s.data.round < i {
      var m :| 0 <= m < j && m < |s.buffer| && s.buffer[m].Fence? && Sent(s, i, m);
      SentLater(s, t, i, m);
      assert t.buffer[m] == s.buffer[m];
    }
  }

  lemma ProduceKeepsBuffer(s: State)
    requires BufferOk(s) && ProducerOk(s)
    ensures BufferOk(StepProduce(BOTH, s))
  {
    var t := StepProduce(BOTH, s);
    var n := |s.buffer|;
    forall j | 0 <= j < |t.buffer| && t.buffer[j].Store? && t.buffer[j].loc == Flag && t.buffer[j].cell.value != 0
      ensures t.buffer[j].cell.round >= 0 && Fenced(t, t.buffer[j].cell.round, j)
    {
      if j < n { assert t.buffer[j] == s.buffer[j]; }
      FencedLater(s, t, t.buffer[j].cell.round, j);
    }
  }

  lemma ProduceKeeps(s: State)
    requires Inv(s)
    ensures Inv(StepProduce(BOTH, s))
  {
    ProduceKeepsBuffer(s);
    hide BufferOk;
    var t := StepProduce(BOTH, s);
    var n := |s.buffer|;
    if s.pc == 0 { assert IsData(t.buffer[n]); }
    if s.pc == 1 {
      SentLater(s, t, s.round, n);
      assert t.buffer[n].Fence?;
    }
  }

  /** Where an entry other than the drained one goes. */
  function Shift(j: nat, k: nat): nat
    requires k != j
  { if k < j then k else k - 1 }

  lemma ShiftedEntry(s: State, t: State, j: nat, k: nat)
    requires j < |s.buffer| && t.buffer == Remove(s.buffer, j) && k < |s.buffer| && k != j
    ensures t.buffer[Shift(j, k)] == s.buffer[k]
  {
  }

  /** Draining any entry keeps what had been sent: either it reached memory or it is still there. */
  lemma SentDrained(s: State, t: State, j: nat, i: int, m: nat)
    requires MayDrain(s.buffer, j) && t == StepDrain(s, j) && BufferOk(s) && Sent(s, i, m) && m != j
    ensures Sent(t, i, Shift(j, m))
  {
    if s.data.round < i {
      var k :| 0 <= k < m && k < |s.buffer| && IsData(s.buffer[k]) && s.buffer[k].cell.round >= i;
      if k != j { ShiftedEntry(s, t, j, k); }
    }
  }

  lemma FencedDrained(s: State, t: State, j: nat, i: int, p: nat)
    requires MayDrain(s.buffer, j) && t == StepDrain(s, j) && BufferOk(s) && Fenced(s, i, p) && p != j
    ensures Fenced(t, i, Shift(j, p))
  {
    if s.data.round < i {
      var m :| 0 <= m < p && m < |s.buffer| && s.buffer[m].Fence? && Sent(s, i, m);
      if m != j {
        SentDrained(s, t, j, i, m);
        ShiftedEntry(s, t, j, m);
      }
    }
  }

  /** A flag store that may drain finds its data in memory. */
  lemma FlagDrains(s: State, j: nat)
    requires MayDrain(s.buffer, j) && BufferOk(s)
    requires s.buffer[j].Store? && s.buffer[j].loc == Flag && s.buffer[j].cell.value != 0
    ensures 0 <= s.buffer[j].cell.round <= s.data.round
  {
  }

  lemma DrainKeeps(s: State, j: nat)
    requires Inv(s)
    ensures Inv(StepDrain(s, j))
  {
    var t := StepDrain(s, j);
    if MayDrain(s.buffer, j) {
      if s.buffer[j].Store? && s.buffer[j].loc == Flag && s.buffer[j].cell.value != 0 { FlagDrains(s, j); }
      DrainKeepsBuffer(s, t, j);
      if s.pc == 1 { SentDrained(s, t, j, s.round, |s.buffer|); }
      if s.pc == 2 { FencedDrained(s, t, j, s.round, |s.buffer|); }
    }
  }

  lemma DrainKeepsBuffer(s: State, t: State, j: nat)
    requires MayDrain(s.buffer, j) && t == StepDrain(s, j) && BufferOk(s)
    ensures BufferOk(t) && forall k :: 0 <= k < |t.buffer| ==> t.buffer[k] in s.buffer
  {
    forall k | 0 <= k < |t.buffer| ensures t.buffer[k] == s.buffer[if k < j then k else k + 1] {}
    forall k | 0 <= k < |t.buffer| && t.buffer[k].Store? && t.buffer[k].loc == Flag && t.buffer[k].cell.value != 0
      ensures t.buffer[k].cell.round >= 0 && Fenced(t, t.buffer[k].cell.round, k)
    {
      var p := if k < j then k else k + 1;
      FencedDrained(s, t, j, s.buffer[p].cell.round, p);
    }
  }

  lemma StepKeeps(s: State, e: Event)
    requires Inv(s)
    ensures Inv(Step(BOTH, s, e))
  {
    match e {
      case Produce => ProduceKeeps(s);
      case Drain(j) => DrainKeeps(s, j);
      case _ => ConsumeKeeps(s, e);
    }
  }

  /** The consumer touches neither the buffer nor memory. */
  lemma SameMemory(s: State, t: State)
    requires BufferOk(s) && ProducerOk(s)
    requires t.buffer == s.buffer && t.data == s.data && t.pc == s.pc && t.round == s.round
    ensures BufferOk(t) && ProducerOk(t)
  {
    if s.pc == 1 { SentLater(s, t, s.round, |s.buffer|); }
    if s.pc == 2 { FencedLater(s, t, s.round, |s.buffer|); }
    forall j | 0 <= j < |t.buffer| && t.buffer[j].Store? && t.buffer[j].loc == Flag && t.buffer[j].cell.value != 0
      ensures Fenced(t, t.buffer[j].cell.round, j)
    {
      FencedLater(s, t, t.buffer[j].cell.round, j);
    }
  }

  lemma ConsumeKeeps(s: State, e: Event)
    requires Inv(s) && (e.LoadFlag? || e.LoadData? || e.Finish?)
    ensures Inv(Step(BOTH, s, e))
  {
    hide BufferOk, ProducerOk;
    SameMemory(s, Step(BOTH, s, e));
  }

  /** With both barriers, whatever is reordered, data used after seeing the flag of a round is
      from that round or a later one, and never the initial 0. */
  lemma FreshWithBoth(es: seq<Event>)
    ensures Safe(After(BOTH, es))
    ensures forall k :: 0 <= k < |After(BOTH, es).printed| ==> After(BOTH, es).printed[k].data != 0
  {
    forall s, e | Inv(s) ensures Inv(Step(BOTH, s, e)) { StepKeeps(s, e); }
    assert Inv(INIT);
    hide Step, BufferOk, ProducerOk, ConsumerOk;
    Always((s, e) => Step(BOTH, s, e), Inv, INIT, es);
  }

  lemma AfterOneMore(code: Code, es: seq<Event>, e: Event)
    ensures After(code, es + [e]) == Step(code, After(code, es), e)
  {
    ExecOneMore((s, e) => Step(code, s, e), INIT, es, e);
  }

  // ----- what is printed had been stored -----

  /** How many statements the producer has run. */
  function Statements(es: seq<Event>): nat {
    if es == [] then 0 else Statements(es[..|es| - 1]) + if es[|es| - 1] == Produce then 1 else 0
  }

  /** The first of the four statements of round `i` has been run: it stores the data i + 100. */
  predicate DataStored(es: seq<Event>, i: int) { 0 <= 4 * i < Statements(es) }

  /** Data of this round has been stored when the producer is where it is. */
  predicate StoredBy(s: State, i: int) { i < s.round + if s.pc == 0 then 0 else 1 }

  /** What the consumer holds and what it has printed is data of rounds stored so far. */
  ghost predicate Genuine(s: State) {
    && (s.seenData.Just? ==> StoredBy(s, s.seenData.cell.round))
    && forall k :: 0 <= k < |s.printed| ==> StoredBy(s, s.printed[k].data - 100)
  }

  lemma StepGenuine(s: State, e: Event)
    requires Inv(s) && Genuine(s)
    ensures Genuine(Step(BOTH, s, e))
  {
    hide BufferOk;
  }

  lemma {:induction false} ProducerIsAt(es: seq<Event>)
    ensures var s := After(BOTH, es); 4 * s.round + s.pc == Statements(es) && s.pc <= 3
  {
    if es != [] { ProducerIsAt(es[..|es| - 1]); }
  }

  /** With both barriers every printed value is one that the producer had stored, 100 and the
      number of a round, and of the round of the flag that was seen or a later one. */
  lemma PrintsStoredData(es: seq<Event>, k: nat)
    requires k < |After(BOTH, es).printed|
    ensures var p := After(BOTH, es).printed[k];
      DataStored(es, p.data - 100) && 0 <= p.round <= p.data - 100
  {
    ghost var inv := (s: State) => Inv(s) && Genuine(s);
    forall s, e | Inv(s) && Genuine(s) ensures Inv(Step(BOTH, s, e)) && Genuine(Step(BOTH, s, e)) {
      StepKeeps(s, e);
      StepGenuine(s, e);
    }
    assert Inv(INIT) && Genuine(INIT);
    ProducerIsAt(es);
    hide Step, BufferOk, ProducerOk, ConsumerOk;
    Always((s, e) => Step(BOTH, s, e), inv, INIT, es);
    assert Fresh(After(BOTH, es).printed[k]);
  }

  /** No iteration ends. */
  predicate GoesOn(fs: seq<Event>) { forall i :: 0 <= i < |fs| ==> fs[i] != Finish }

  lemma {:induction false} LoadsStay(code: Code, s: State, fs: seq<Event>)
    requires GoesOn(fs)
    ensures var t := Exec((s, e) => Step(code, s, e), s, fs);
      && t.printed == s.printed
      && (s.seenFlag.Just? ==> t.seenFlag == s.seenFlag) && (s.seenData.Just? ==> t.seenData == s.seenData)
    decreases |fs|
  {
    if fs != [] { LoadsStay(code, s, fs[..|fs| - 1]); }
  }

  /** What the two loads and the end of an iteration do, each to the state it finds. */
  lemma LoadsAndEnds(code: Code, s: State)
    ensures s.seenFlag == Nothing ==> Step(code, s, LoadFlag) == s.(seenFlag := Just(s.flag))
    ensures s.seenData == Nothing && (code.rmb ==> s.seenFlag.Just?) ==>
      Step(code, s, LoadData) == s.(seenData := Just(s.data))
    ensures s.seenFlag.Just? && s.seenData.Just? ==>
      Step(code, s, Finish) == s.(seenFlag := Nothing, seenData := Nothing, printed := s.printed +
        if s.seenFlag.cell.value == 0 then [] else [Print(s.seenData.cell.value, s.seenFlag.cell.round)])
  {
  }

  /** Whatever the code and whatever happens meanwhile: an iteration that loads the flag, then the
      data, and ends, prints the data found in memory at its load if the flag found at its load was
      set, and nothing otherwise; the next iteration starts afresh. */
  lemma PrintsWhatItLoaded(code: Code, es: seq<Event>, fs: seq<Event>, gs: seq<Event>)
    requires GoesOn(fs) && GoesOn(gs)
    requires After(code, es).seenFlag == Nothing && After(code, es + [LoadFlag] + fs).seenData == Nothing
    ensures
      var s, t := After(code, es), After(code, es + [LoadFlag] + fs);
      var u := After(code, es + [LoadFlag] + fs + [LoadData] + gs + [Finish]);
      && u.printed == s.printed + (if s.flag.value == 0 then [] else [Print(t.data.value, s.flag.round)])
      && u.seenFlag == u.seenData == Nothing
  {
    var step := (s, e) => Step(code, s, e);
    var a, b := es + [LoadFlag], es + [LoadFlag] + fs + [LoadData];
    AfterOneMore(code, es, LoadFlag);
    LoadsAndEnds(code, After(code, es));
    ExecConcat(step, INIT, a, fs);
    LoadsStay(code, After(code, a), fs);
    AfterOneMore(code, a + fs, LoadData);
    LoadsAndEnds(code, After(code, a + fs));
    ExecConcat(step, INIT, b, gs);
    LoadsStay(code, After(code, b), gs);
    AfterOneMore(code, b + gs, Finish);
    LoadsAndEnds(code, After(code, b + gs));
    hide Step;
  }

  /** The loads may also come in the other order where no barrier forbids it. */
  lemma PrintsWhatItLoadedFirst(code: Code, es: seq<Event>, fs: seq<Event>, gs: seq<Event>)
    requires GoesOn(fs) && GoesOn(gs) && !code.rmb
    requires After(code, es).seenData == Nothing && After(code, es + [LoadData] + fs).seenFlag == Nothing
    ensures
      var s, t := After(code, es), After(code, es + [LoadData] + fs);
      var u := After(code, es + [LoadData] + fs + [LoadFlag] + gs + [Finish]);
      u.printed == s.printed + (if t.flag.value == 0 then [] else [Print(s.data.value, t.flag.round)])
  {
    var step := (s, e) => Step(code, s, e);
    var a, b := es + [LoadData], es + [LoadData] + fs + [LoadFlag];
    AfterOneMore(code, es, LoadData);
    LoadsAndEnds(code, After(code, es));
    ExecConcat(step, INIT, a, fs);
    LoadsStay(code, After(code, a), fs);
    AfterOneMore(code, a + fs, LoadFlag);
    LoadsAndEnds(code, After(code, a + fs));
    ExecConcat(step, INIT, b, gs);
    LoadsStay(code, After(code, b), gs);
    AfterOneMore(code, b + gs, Finish);
    LoadsAndEnds(code, After(code, b + gs));
    hide Step;
  }

  /** The producer's statements of one round, in order: the data, the fence if the code has it, the
      flag set, the flag cleared. */
  lemma RoundStores(code: Code, es: seq<Event>)
    requires After(code, es).pc == 0
    ensures
      var s, t := After(code, es), After(code, es + [Produce] + [Produce] + [Produce] + [Produce]);
      && t.round == s.round + 1 && t.pc == 0
      && t.buffer == s.buffer + [Store(Data, Cell(100 + s.round, s.round))] + (if code.wmb then [Fence] else [])
                     + [Store(Flag, Cell(1, s.round)), Store(Flag, Cell(0, s.round))]
  {
    AfterOneMore(code, es, Produce);
    AfterOneMore(code, es + [Produce], Produce);
    AfterOneMore(code, es + [Produce] + [Produce], Produce);
    AfterOneMore(code, es + [Produce] + [Produce] + [Produce], Produce);
  }

  /** The oldest entry can always leave the buffer, and a store that does is in memory then. */
  lemma OldestDrains(code: Code, es: seq<Event>)
    requires After(code, es).buffer != []
    ensures
      var s, t := After(code, es), After(code, es + [Drain(0)]);
      && t.buffer == s.buffer[1..]
      && t.data == (if IsData(s.buffer[0]) then s.buffer[0].cell else s.data)
      && t.flag == (if s.buffer[0].Store? && s.buffer[0].loc == Flag then s.buffer[0].cell else s.flag)
      && t.printed == s.printed
  {
    AfterOneMore(code, es, Drain(0));
  }

  // ----- both barriers are needed -----

  /** The flag overtakes the data in the store buffer. */
  lemma StaleWithoutWmb(rmb: bool)
    ensures exists es :: !Safe(After(Code(false, rmb), es))
  {
    var code := Code(false, rmb);
    var e1 := [Produce];
    var e3 := e1 + [Produce] + [Produce];
    AfterOneMore(code, [], Produce);
    assert [] + [Produce] == e1;
    AfterOneMore(code, e1, Produce);
    AfterOneMore(code, e1 + [Produce], Produce);
    assert After(code, e3).buffer == [Store(Data, Cell(100, 0)), Store(Flag, Cell(1, 0))];
    AfterOneMore(code, e3, Drain(1));
    var e4 := e3 + [Drain(1)];
    assert After(code, e4).flag == Cell(1, 0) && After(code, e4).data == Cell(0, -1);
    UsesInitial(code, e4, LoadFlag, LoadData);
  }

  /** The consumer has loaded the data before it loads the flag. */
  lemma StaleWithoutRmb(wmb: bool)
    ensures exists es :: !Safe(After(Code(wmb, false), es))
  {
    var code := Code(wmb, false);
    var e1 := [LoadData];
    AfterOneMore(code, [], LoadData);
    assert [] + [LoadData] == e1;
    var e2 := e1 + [Produce];
    AfterOneMore(code, e1, Produce);
    var e3 := e2 + [Drain(0)];
    AfterOneMore(code, e2, Drain(0));
    assert After(code, e3).buffer == [] && After(code, e3).data == Cell(100, 0);
    var e4 := e3 + [Produce];
    AfterOneMore(code, e3, Produce);
    var e5 := e4 + [Drain(0)];
    AfterOneMore(code, e4, Drain(0));
    assert After(code, e5).buffer == [];
    var e6 := e5 + [Produce];
    AfterOneMore(code, e5, Produce);
    assert After(code, e6).buffer == [Store(Flag, Cell(1, 0))];
    var e7 := e6 + [Drain(0)];
    AfterOneMore(code, e6, Drain(0));
    assert After(code, e7).flag == Cell(1, 0) && After(code, e7).seenData == Just(Cell(0, -1));
    UsesInitial(code, e7, LoadFlag, Finish);
  }

  lemma UsesInitial(code: Code, es: seq<Event>, e: Event, f: Event)
    requires var s := After(code, es);
      && s.flag == Cell(1, 0) && s.seenFlag == Nothing && s.printed == []
      && e == LoadFlag
      && (if f == LoadData then s.data == Cell(0, -1) && s.seenData == Nothing
          else f == Finish && s.seenData == Just(Cell(0, -1)))
    ensures exists fs :: !Safe(After(code, fs))
  {
    AfterOneMore(code, es, e);
    AfterOneMore(code, es + [e], f);
    AfterOneMore(code, es + [e] + [f], Finish);
    var fs := if f == Finish then es + [e] + [f] else es + [e] + [f] + [Finish];
    assert After(code, fs).printed[0] == Print(0, 0);
    assert !Safe(After(code, fs));
  }

  /** The message passing is safe in every run if and only if both barriers are there. */
  lemma BarriersExactlyNeeded(code: Code)
    ensures (forall es :: Safe(After(code, es))) <==> code.wmb && code.rmb
  {
    if code == BOTH {
      forall es ensures Safe(After(code, es)) { FreshWithBoth(es); }
    } else if !code.wmb {
      StaleWithoutWmb(code.rmb);
    } else {
      StaleWithoutRmb(code.wmb);
    }
  }

  // ----- the two threads -----

  lemma FlagIsFenced(s: State, t: State)
    requires ProducerOk(s) && s.pc == 2 && s.buffer <= t.buffer && t.data == s.data
    ensures Fenced(t, s.round, |s.buffer|)
  {
    FencedLater(s, t, s.round, |s.buffer|);
  }

  lemma SetFlagHasData(s: State)
    requires ConsumerOk(s)
    ensures s.flag.value != 0 ==> s.data.round >= s.flag.round >= 0 && s.data.value == s.data.round + 100
  {
  }

  lemma AllFresh(s: State)
    requires Safe(s) && Genuine(s)
    ensures s.printed != [] ==>
      Fresh(s.printed[|s.printed| - 1]) && StoredBy(s, s.printed[|s.printed| - 1].data - 100)
  {
  }

  /** shared_data, shared_flag, the producer's store buffer and the threads' registers. */
  class Shared {
    const code: Code
    var data: Cell
    var flag: Cell
    var buffer: seq<Entry>
    var round: nat
    var pc: nat
    var seenFlag: Maybe
    var seenData: Maybe
    var printed: seq<Print>

    ghost function View(): State
      reads this
    {
      State(data, flag, buffer, round, pc, seenFlag, seenData, printed)
    }

    /** With both barriers the invariant holds; without them nothing is promised. */
    ghost predicate Valid()
      reads this
    {
      code == BOTH ==> Inv(View()) && Genuine(View())
    }

    constructor (code: Code)
      ensures Valid() && View() == INIT && this.code == code
    {
      this.code := code;
      data, flag, buffer, round := Cell(0, -1), Cell(0, -1), [], 0;
      pc, seenFlag, seenData, printed := 0, Nothing, Nothing, [];
      new;
      assert View() == INIT;
    }

    /** One statement of producer_fn. It adds to the end of the store buffer and reaches neither
        memory nor the consumer; with both barriers the flag of a round goes in behind a fence
        that is behind data of that round. */
    method ProducerStatement()
      requires Valid()
      modifies this`buffer, this`round, this`pc
      ensures Valid() && View() == StepProduce(code, old(View()))
      ensures old(buffer) <= buffer && old(round) <= round <= old(round) + 1
      ensures old(pc) == 0 ==> buffer == old(buffer) + [Store(Data, Cell(100 + round, round))]
      ensures old(pc) == 1 ==> buffer == old(buffer) + if code.wmb then [Fence] else []
      ensures old(pc) == 2 ==> buffer == old(buffer) + [Store(Flag, Cell(1, old(round)))]
      ensures old(pc) == 3 ==> buffer == old(buffer) + [Store(Flag, Cell(0, old(round)))] && round == old(round) + 1
      ensures old(pc) == 2 && code == BOTH ==> Fenced(View(), old(round), |old(buffer)|)
    {
      hide BufferOk, ProducerOk, ConsumerOk, Safe, Fenced, Genuine;
      ghost var s := View();
      if code == BOTH { ProduceKeeps(s); StepGenuine(s, Produce); }
      if pc == 0 {
        buffer, pc := buffer + [Store(Data, Cell(round + 100, round))], 1;
      } else if pc == 1 {
        if code.wmb {
          buffer := buffer + [Fence];
        }
        pc := 2;
      } else if pc == 2 {
        buffer, pc := buffer + [Store(Flag, Cell(1, round))], 3;
      } else {
        buffer, pc, round := buffer + [Store(Flag, Cell(0, round))], 0, round + 1;
      }
      if code == BOTH && s.pc == 2 { FlagIsFenced(s, View()); }
    }

    /** The store buffer gives up entry `j`, if it may. With both barriers a flag that becomes
        visible as set finds its data, or later data, in memory. */
    method DrainEntry(j: nat)
      requires Valid()
      modifies this`buffer, this`data, this`flag
      ensures Valid() && View() == StepDrain(old(View()), j)
      ensures code == BOTH && flag.value != 0 ==> data.round >= flag.round >= 0 && data.value == data.round + 100
    {
      if code == BOTH {
        DrainKeeps(View(), j);
        StepGenuine(View(), Drain(j));
        SetFlagHasData(View());
        SetFlagHasData(StepDrain(View(), j));
      }
      hide BufferOk, ProducerOk, ConsumerOk, Safe, Genuine;
      if j >= |buffer| {
        return;
      }
      var k := 0;
      var blocked := buffer[j].Fence? && j != 0;
      while k < j
        invariant 0 <= k <= j
        invariant blocked == ((buffer[j].Fence? && j != 0)
                              || (buffer[j].Store? && exists i ::
                                    0 <= i < k && !(buffer[i].Store? && buffer[i].loc != buffer[j].loc)))
      {
        if buffer[j].Store? && (buffer[k].Fence? || buffer[k].loc == buffer[j].loc) {
          blocked := true;
        }
        k := k + 1;
      }
      if !blocked {
        if buffer[j].Store? {
          if buffer[j].loc == Data {
            data := buffer[j].cell;
          } else {
            flag := buffer[j].cell;
          }
        }
        buffer := buffer[..j] + buffer[j + 1..];
      }
    }

    /** The loads and the end of an iteration of consumer_fn. A load finds what is in memory. Only an
        end prints, at most once, and the value that was loaded; with both barriers what it prints is
        fresh and had been stored. */
    method ConsumerStatement(e: Event)
      requires Valid() && (e.LoadFlag? || e.LoadData? || e.Finish?)
      modifies this`seenFlag, this`seenData, this`printed
      ensures Valid() && View() == Step(code, old(View()), e)
      ensures old(printed) <= printed && |printed| <= |old(printed)| + if e.Finish? then 1 else 0
      ensures e.LoadFlag? && old(seenFlag) == Nothing ==> seenFlag == Just(flag)
      ensures e.LoadData? && old(seenData) == Nothing && (code.rmb ==> seenFlag != Nothing) ==> seenData == Just(data)
      ensures e.Finish? && old(seenFlag).Just? && old(seenFlag).cell.value == 0 ==> printed == old(printed)
      ensures e.Finish? && old(seenFlag).Just? && old(seenFlag).cell.value != 0 && old(seenData).Just? ==>
        printed == old(printed) + [Print(old(seenData).cell.value, old(seenFlag).cell.round)]
      ensures code == BOTH && |printed| > |old(printed)| ==>
        Fresh(printed[|printed| - 1]) && StoredBy(View(), printed[|printed| - 1].data - 100)
    {
      if code == BOTH {
        ConsumeKeeps(View(), e);
        StepGenuine(View(), e);
        AllFresh(Step(code, View(), e));
      }
      hide BufferOk, ProducerOk, ConsumerOk, Safe, Genuine;
      if e.LoadFlag? {
        if seenFlag == Nothing {
          seenFlag := Just(flag);
        }
      } else if e.LoadData? {
        if seenData == Nothing && (!code.rmb || seenFlag != Nothing) {
          seenData := Just(data);
        }
      } else if seenFlag != Nothing && (seenFlag.cell.value == 0 || seenData != Nothing) {
        if seenFlag.cell.value != 0 {
          printed := printed + [Print(seenData.cell.value, seenFlag.cell.round)];
        }
        seenFlag, seenData := Nothing, Nothing;
      }
    }

    /** Both threads and the memory system, in any order: with both barriers everything the
        consumer prints is fresh and had been stored. */
    method Interleave(es: seq<Event>)
      requires Valid() && View() == INIT
      modifies this
      ensures Valid() && View() == After(code, es)
      ensures code == BOTH ==> Safe(View())
      ensures code == BOTH ==> forall k :: 0 <= k < |printed| ==>
        DataStored(es, printed[k].data - 100) && printed[k].round <= printed[k].data - 100
    {
      hide Inv, Genuine;
      var i := 0;
      while i < |es|
        invariant 0 <= i <= |es| && Valid() && View() == After(code, es[..i])
      {
        assert es[..i + 1] == es[..i] + [es[i]];
        AfterOneMore(code, es[..i], es[i]);
        match es[i] {
          case Produce => ProducerStatement();
          case Drain(j) => DrainEntry(j);
          case _ => ConsumerStatement(es[i]);
        }
        i := i + 1;
      }
      assert es[..i] == es;
      if code == BOTH {
        FreshWithBoth(es);
        forall k: nat | k < |printed|
          ensures DataStored(es, printed[k].data - 100) && printed[k].round <= printed[k].data - 100
        {
          PrintsStoredData(es, k);
        }
      }
    }
  }
}
