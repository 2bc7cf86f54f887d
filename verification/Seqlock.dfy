/** The seqlock module: writers add one to a counter under write_seqlock, readers retry until the
    sequence number they began with is still there. Both numbers are 32 bits wide. */
module Seqlock {
  import opened Runs

  const M: nat := 0x1_0000_0000

  /** What an unsigned int keeps. */
  function Wrap(x: nat): nat { x % M }

  datatype Writer = Idle | Locked | Odd | Loaded(v: nat) | Stored | Even

  /** `from` and `stored` are history: how many times the sequence number had been advanced at the
      beginning, and how many increments had been stored at the read. */
  datatype Reader = Out | Begun(seqno: nat, from: nat) | Read(seqno: nat, from: nat, value: nat, stored: nat)

  /** What a reader accepted: the value, the sequence number and time it began with, the number of
      increments it read, the time it checked. */
  datatype Accept = Accept(value: nat, seqno: nat, from: nat, stored: nat, at: nat)

  /** `total` is history: how often the sequence number was advanced. */
  datatype State = State(seqno: nat, counter: nat, owner: int, writers: seq<Writer>, readers: seq<Reader>,
                         accepted: seq<seq<Accept>>, total: nat)

  datatype Event = Write(w: nat) | Look(r: nat)

  function Init(writers: nat, readers: nat): State {
    State(0, 0, -1, seq(writers, i => Idle), seq(readers, i => Out), seq(readers, i => []), 0)
  }

  function SetWriter(s: State, w: nat, p: Writer): State
    requires w < |s.writers|
  {
    s.(writers := s.writers[w := p])
  }

  function SetReader(s: State, r: nat, p: Reader): State
    requires r < |s.readers|
  {
    s.(readers := s.readers[r := p])
  }

  /** write_seqlock, counter++, write_sequnlock, one access at a time. */
  function StepWrite(s: State, w: nat): State {
    if w >= |s.writers| then s
    else match s.writers[w]
      case Idle => if s.owner == -1 then SetWriter(s, w, Locked).(owner := w) else s
      case Locked => SetWriter(s, w, Odd).(seqno := Wrap(s.seqno + 1), total := s.total + 1)
      case Odd => SetWriter(s, w, Loaded(s.counter))
      case Loaded(v) => SetWriter(s, w, Stored).(counter := Wrap(v + 1))
      case Stored => SetWriter(s, w, Even).(seqno := Wrap(s.seqno + 1), total := s.total + 1)
      case Even => SetWriter(s, w, Idle).(owner := -1)
  }

  /** The number of increments stored so far: half the advances, one more between the store and
      the advance after it. */
  function Increments(owner: int, writers: seq<Writer>, total: nat): nat {
    if 0 <= owner < |writers| && writers[owner].Stored? then (total + 1) / 2 else total / 2
  }

  /** read_seqbegin, the read, read_seqretry. */
  function StepLook(s: State, r: nat): State {
    if !(r < |s.readers| == |s.accepted|) then s
    else match s.readers[r]
      case Out => if s.seqno % 2 == 0 then SetReader(s, r, Begun(s.seqno, s.total)) else s
      case Begun(q, from) => SetReader(s, r, Read(q, from, s.counter, Increments(s.owner, s.writers, s.total)))
      case Read(q, from, v, stored) =>
        if s.seqno == q
        then SetReader(s, r, Out).(accepted := s.accepted[r := s.accepted[r] + [Accept(v, q, from, stored, s.total)]])
        else SetReader(s, r, Out)
  }

  function Step(s: State, e: Event): State {
    match e
    case Write(w) => StepWrite(s, w)
    case Look(r) => StepLook(s, r)
  }

  function After(writers: nat, readers: nat, es: seq<Event>): State {
    Exec((s, e) => Step(s, e), Init(writers, readers), es)
  }

  // ----- invariant -----

  predicate Between(p: Writer) { p.Odd? || p.Loaded? || p.Stored? }

  ghost predicate WritersOk(s: State) {
    && s.seqno == Wrap(s.total)
    && -1 <= s.owner < |s.writers|
    && (forall w :: 0 <= w < |s.writers| ==> (s.writers[w].Idle? <==> s.owner != w))
    && (s.total % 2 == 1 <==> s.owner >= 0 && Between(s.writers[s.owner]))
    && s.counter == Wrap(Increments(s.owner, s.writers, s.total))
    && (s.owner >= 0 && s.writers[s.owner].Loaded? ==> s.writers[s.owner].v == s.counter)
  }

  /** A reader began at an even time; while nothing was advanced since, it has the right value. */
  predicate StartOk(seqno: nat, from: nat, now: nat) { from <= now && from % 2 == 0 && seqno == Wrap(from) }

  predicate ReaderOk(s: State, r: Reader) {
    match r
    case Out => true
    case Begun(q, from) => StartOk(q, from, s.total)
    case Read(q, from, v, stored) =>
      && StartOk(q, from, s.total) && (s.total == from ==> v == Wrap(from / 2))
      && v == Wrap(stored) && from / 2 <= stored
  }

  predicate AcceptOk(s: State, a: Accept) {
    && StartOk(a.seqno, a.from, a.at) && a.at <= s.total
    && Wrap(a.at) == Wrap(a.from)
    && (a.at == a.from ==> a.value == Wrap(a.from / 2))
    && a.value == Wrap(a.stored) && a.from / 2 <= a.stored
  }

  /** A section under way began at time `t` or later. */
  predicate Start(r: Reader, t: nat) {
    match r
    case Out => true
    case Begun(_, from) => from >= t
    case Read(_, from, _, _) => from >= t
  }

  ghost predicate ReadersOk(s: State) {
    && |s.readers| == |s.accepted|
    && (forall r :: 0 <= r < |s.readers| ==> ReaderOk(s, s.readers[r]))
    && (forall r, i :: 0 <= r < |s.accepted| && 0 <= i < |s.accepted[r]| ==>
          AcceptOk(s, s.accepted[r][i]) && Start(s.readers[r], s.accepted[r][i].at))
    && (forall r, i, j :: 0 <= r < |s.accepted| && 0 <= i < j < |s.accepted[r]| ==>
          s.accepted[r][i].at <= s.accepted[r][j].from)
  }

  ghost predicate Inv(s: State) { WritersOk(s) && ReadersOk(s) }

  lemma WrapNext(t: nat)
    ensures Wrap(Wrap(t) + 1) == Wrap(t + 1)
  {
  }

  lemma WrapParity(t: nat)
    ensures Wrap(t) % 2 == t % 2
  {
    Parity(t, Wrap(t), t / M * 0x8000_0000);
  }

  lemma Parity(x: nat, y: nat, k: nat)
    requires x == 2 * k + y
    ensures x % 2 == y % 2
  {
  }

  lemma WrapSame(x: nat, y: nat)
    requires x <= y < x + M && Wrap(x) == Wrap(y)
    ensures x == y
  {
  }

  lemma WrapSmall(x: nat)
    requires x < M
    ensures Wrap(x) == x
  {
  }

  lemma ModIs(x: nat, q: nat, r: nat)
    requires x == q * M + r && r < M
    ensures x % M == r
  {
  }

  /** Half of an even number, and half of what is kept of it, agree on 31 bits. */
  lemma HalfOfEven(from: nat)
    requires from % 2 == 0
    ensures Wrap(from / 2) % 0x8000_0000 == Wrap(from) / 2
  {
    var q, h := from / M, from % M / 2;
    assert from / 2 == q * 0x8000_0000 + h;
    if q % 2 == 0 {
      ModIs(from / 2, q / 2, h);
    } else {
      ModIs(from / 2, q / 2, 0x8000_0000 + h);
    }
  }

  lemma WriteKeeps(s: State, w: nat)
    requires WritersOk(s)
    ensures WritersOk(StepWrite(s, w))
  {
    WrapNext(s.total);
    WrapNext(Increments(s.owner, s.writers, s.total));
    hide Wrap;
  }

  /** Time only moves on, and the readers are not touched. */
  lemma WriteKeepsReaders(s: State, w: nat)
    requires Inv(s)
    ensures ReadersOk(StepWrite(s, w))
  {
    var t := StepWrite(s, w);
    assert t.readers == s.readers && t.accepted == s.accepted && t.total >= s.total;
    hide StepWrite, WritersOk;
  }

  lemma ReadNow(s: State, from: nat)
    requires WritersOk(s) && s.total == from && from % 2 == 0
    ensures s.counter == Wrap(from / 2)
  {
    hide Wrap;
  }

  lemma LookKeeps(s: State, r: nat)
    requires Inv(s)
    ensures Inv(StepLook(s, r))
  {
    if r < |s.readers| {
      hide Wrap;
      var t := StepLook(s, r);
      assert WritersOk(t);
      if s.total % 2 == 0 { ReadNow(s, s.total); }
      assert s.seqno == Wrap(s.total);
      assert s.counter == Wrap(Increments(s.owner, s.writers, s.total));
      assert s.readers[r].Begun? && s.total == s.readers[r].from ==> s.counter == Wrap(s.readers[r].from / 2);
      WrapParity(s.total);
      hide WritersOk, Wrap;
      LookKeepsReaders(s, r);
    }
  }

  lemma LookKeepsReaders(s: State, r: nat)
    requires ReadersOk(s) && r < |s.readers| && s.seqno == Wrap(s.total) && (s.seqno % 2 == 0) == (s.total % 2 == 0)
    requires s.counter == Wrap(Increments(s.owner, s.writers, s.total))
    requires s.readers[r].Begun? && s.total == s.readers[r].from ==> s.counter == Wrap(s.readers[r].from / 2)
    ensures ReadersOk(StepLook(s, r))
  {
    hide Wrap;
    var t := StepLook(s, r);
    assert ReaderOk(s, s.readers[r]);
    forall q, i | 0 <= q < |t.accepted| && 0 <= i < |t.accepted[q]|
      ensures AcceptOk(t, t.accepted[q][i]) && Start(t.readers[q], t.accepted[q][i].at)
    {
      if q != r || i < |s.accepted[r]| {
        assert t.accepted[q][i] == s.accepted[q][i];
        assert AcceptOk(s, s.accepted[q][i]);
      }
    }
  }

  lemma InitOk(writers: nat, readers: nat)
    ensures Inv(Init(writers, readers))
  {
    WrapSmall(0);
  }

  lemma Reached(writers: nat, readers: nat, es: seq<Event>)
    ensures Inv(After(writers, readers, es))
  {
    forall s, e | Inv(s) ensures Inv(Step(s, e)) {
      match e
      case Write(w) => WriteKeeps(s, w); WriteKeepsReaders(s, w);
      case Look(r) => LookKeeps(s, r);
    }
    InitOk(writers, readers);
    hide Wrap, Step, WritersOk, ReadersOk;
    Always((s, e) => Step(s, e), Inv, Init(writers, readers), es);
  }

  predicate WasAccepted(s: State, r: nat, i: nat) { r < |s.accepted| && i < |s.accepted[r]| }

  /** An accepted value is half the even number it began with, modulo what 32 bits keep, unless
      the sequence number went all the way round in the meantime. */
  lemma AcceptedIsHalf(writers: nat, readers: nat, es: seq<Event>, r: nat, i: nat)
    requires WasAccepted(After(writers, readers, es), r, i)
    ensures var a := After(writers, readers, es).accepted[r][i];
      a.at - a.from < M ==> a.at == a.from && a.value == Wrap(a.from / 2) && a.value % 0x8000_0000 == a.seqno / 2
  {
    hide Wrap, Step;
    Reached(writers, readers, es);
    var a := After(writers, readers, es).accepted[r][i];
    assert AcceptOk(After(writers, readers, es), a);
    if a.at - a.from < M { WrapSame(a.from, a.at); }
    HalfOfEven(a.from);
  }

  /** What is kept of a number in 32 bits has its low 31 bits. */
  lemma LowBits(x: nat)
    ensures Wrap(x) % 0x8000_0000 == x % 0x8000_0000
  {
    var q, r := x / M, x % M;
    assert x == q * M + r;
    if r < 0x8000_0000 {
      HalfIs(x, 2 * q, r);
    } else {
      HalfIs(x, 2 * q + 1, r - 0x8000_0000);
      HalfIs(r, 1, r - 0x8000_0000);
    }
  }

  lemma HalfIs(x: nat, q: nat, r: nat)
    requires x == q * 0x8000_0000 + r && r < 0x8000_0000
    ensures x % 0x8000_0000 == r
  {
  }

  lemma SameLowBits(x: nat, y: nat)
    requires y <= x
    ensures x % 0x8000_0000 == y % 0x8000_0000 <==> (x - y) % 0x8000_0000 == 0
  {
    var p, r := y / 0x8000_0000, y % 0x8000_0000;
    var q, d := (x - y) / 0x8000_0000, (x - y) % 0x8000_0000;
    if r + d < 0x8000_0000 {
      HalfIs(x, p + q, r + d);
    } else {
      HalfIs(x, p + q + 1, r + d - 0x8000_0000);
    }
  }

  /** An accepted value is half the number it began with, on the 31 bits such a half has, iff a
      multiple of 2^31 increments was stored between its beginning and its read. */
  lemma AcceptedExactly(writers: nat, readers: nat, es: seq<Event>, r: nat, i: nat)
    requires WasAccepted(After(writers, readers, es), r, i)
    ensures var a := After(writers, readers, es).accepted[r][i];
      && a.from / 2 <= a.stored
      && (a.value % 0x8000_0000 == a.seqno / 2 <==> (a.stored - a.from / 2) % 0x8000_0000 == 0)
  {
    hide Wrap, Step;
    Reached(writers, readers, es);
    var a := After(writers, readers, es).accepted[r][i];
    assert AcceptOk(After(writers, readers, es), a);
    HalfOfEven(a.from);
    LowBits(a.stored);
    LowBits(a.from / 2);
    SameLowBits(a.stored, a.from / 2);
  }

  /** While the sequence number has not wrapped, a reader accepts exactly half of it, and its
      accepted values never decrease. */
  lemma NeverDecreases(writers: nat, readers: nat, es: seq<Event>, r: nat, i: nat, j: nat)
    requires WasAccepted(After(writers, readers, es), r, j) && i <= j && After(writers, readers, es).total < M
    ensures var a := After(writers, readers, es).accepted[r];
      a[i].value == a[i].seqno / 2 && a[i].value <= a[j].value
  {
    hide Wrap, Step;
    Reached(writers, readers, es);
    var a := After(writers, readers, es).accepted[r];
    assert AcceptOk(After(writers, readers, es), a[i]) && AcceptOk(After(writers, readers, es), a[j]);
    AcceptedIsHalf(writers, readers, es, r, i);
    AcceptedIsHalf(writers, readers, es, r, j);
    if i < j { assert a[i].at <= a[j].from; }
    WrapSmall(a[i].from / 2);
    WrapSmall(a[j].from / 2);
    WrapSmall(a[i].from);
  }

  // ----- the recorded times are only looked at by the theorems -----

  predicate SameReader(c: Reader, d: Reader) {
    match (c, d)
    case (Out, Out) => true
    case (Begun(p, _), Begun(q, _)) => p == q
    case (Read(p, _, v, _), Read(q, _, w, _)) => p == q && v == w
    case _ => false
  }

  predicate SameAccepted(a: seq<Accept>, b: seq<Accept>) {
    |a| == |b| && forall i :: 0 <= i < |a| ==> a[i].value == b[i].value && a[i].seqno == b[i].seqno
  }

  /** Equal but for the recorded times. */
  predicate Same(s: State, t: State) {
    && s.seqno == t.seqno && s.counter == t.counter && s.owner == t.owner && s.writers == t.writers
    && |s.readers| == |t.readers| && (forall r :: 0 <= r < |s.readers| ==> SameReader(s.readers[r], t.readers[r]))
    && |s.accepted| == |t.accepted|
    && (forall r :: 0 <= r < |s.accepted| ==> SameAccepted(s.accepted[r], t.accepted[r]))
  }

  lemma StepAlike(s: State, t: State, e: Event)
    requires Same(s, t)
    ensures Same(Step(s, e), Step(t, e))
  {
    hide Wrap;
    if e.Look? && e.r < |s.readers| { assert SameReader(s.readers[e.r], t.readers[e.r]); }
  }

  /** Runs that differ only in the recorded times do the same. */
  lemma {:induction false} HistoryIsPassive(s: State, t: State, es: seq<Event>)
    requires Same(s, t)
    ensures Same(Exec((s, e) => Step(s, e), s, es), Exec((s, e) => Step(s, e), t, es))
    decreases |es|
  {
    if es != [] {
      var k := |es| - 1;
      HistoryIsPassive(s, t, es[..k]);
      StepAlike(Exec((s, e) => Step(s, e), s, es[..k]), Exec((s, e) => Step(s, e), t, es[..k]), es[k]);
      hide Same, Step;
    }
  }

  // ----- when the retry loop is left -----

  lemma AfterOneMore(writers: nat, readers: nat, es: seq<Event>, e: Event)
    ensures After(writers, readers, es + [e]) == Step(After(writers, readers, es), e)
  {
    ExecOneMore((s, e) => Step(s, e), Init(writers, readers), es, e);
  }

  /** A reader that has read leaves the loop, with the value it read, iff the sequence number is the
      one it began with; otherwise it begins again with nothing. */
  lemma LeavesExactly(writers: nat, readers: nat, es: seq<Event>, r: nat)
    requires r < readers
    requires var s := After(writers, readers, es); |s.readers| == |s.accepted| == readers && s.readers[r].Read?
    ensures
      var s, t := After(writers, readers, es), After(writers, readers, es + [Look(r)]);
      var c := s.readers[r];
      && |t.readers| == |t.accepted| == readers && t.readers[r] == Out
      && (|t.accepted[r]| == |s.accepted[r]| + 1 <==> s.seqno == c.seqno)
      && (s.seqno == c.seqno ==> s.accepted[r] <= t.accepted[r] && t.accepted[r][|s.accepted[r]|].value == c.value)
      && (s.seqno != c.seqno ==> t.accepted == s.accepted)
  {
    AfterOneMore(writers, readers, es, Look(r));
    hide Wrap;
  }

  /** Everybody but reader `r`. */
  predicate Others(fs: seq<Event>, r: nat) { forall i :: 0 <= i < |fs| ==> fs[i] != Look(r) }

  lemma {:induction false} OthersLeave(s: State, fs: seq<Event>, r: nat)
    requires Others(fs, r)
    ensures var t := Exec((s, e) => Step(s, e), s, fs);
      && |t.readers| == |s.readers| && |t.accepted| == |s.accepted| && t.total >= s.total
      && (r < |s.readers| ==> t.readers[r] == s.readers[r]) && (r < |s.accepted| ==> t.accepted[r] == s.accepted[r])
    decreases |fs|
  {
    if fs != [] {
      OthersLeave(s, fs[..|fs| - 1], r);
      hide Wrap;
    }
  }

  predicate Sized(writers: nat, readers: nat, s: State) {
    |s.readers| == |s.accepted| == readers && |s.writers| == writers
  }

  lemma Sizes(writers: nat, readers: nat, es: seq<Event>)
    ensures Sized(writers, readers, After(writers, readers, es))
  {
    forall s, e | Sized(writers, readers, s) ensures Sized(writers, readers, Step(s, e)) {}
    hide Step;
    Always((s, e) => Step(s, e), s => Sized(writers, readers, s), Init(writers, readers), es);
  }

  /** If the number is even when a reader begins, and is not advanced until it checks, then whatever
      the others do the reader accepts, after one round, the counter as it stands. */
  lemma UndisturbedRead(writers: nat, readers: nat, es: seq<Event>, fs: seq<Event>, gs: seq<Event>, r: nat)
    requires r < readers && Others(fs, r) && Others(gs, r)
    requires var s := After(writers, readers, es); |s.readers| == readers && s.readers[r] == Out && s.seqno % 2 == 0
    requires After(writers, readers, es + [Look(r)] + fs + [Look(r)] + gs).total == After(writers, readers, es).total
    ensures
      var s := After(writers, readers, es);
      var t := After(writers, readers, es + [Look(r)] + fs + [Look(r)] + gs);
      var u := After(writers, readers, es + [Look(r)] + fs + [Look(r)] + gs + [Look(r)]);
      && |s.accepted| == |u.accepted| == readers && u.counter == t.counter
      && |u.accepted[r]| == |s.accepted[r]| + 1 && s.accepted[r] <= u.accepted[r]
      && u.accepted[r][|s.accepted[r]|].value == t.counter == Wrap(s.total / 2)
  {
    var step := (s, e) => Step(s, e);
    var a := es + [Look(r)];
    var b := a + fs + [Look(r)];
    Sizes(writers, readers, es);
    AfterOneMore(writers, readers, es, Look(r));
    ExecConcat(step, Init(writers, readers), a, fs);
    OthersLeave(After(writers, readers, a), fs, r);
    AfterOneMore(writers, readers, a + fs, Look(r));
    ExecConcat(step, Init(writers, readers), b, gs);
    OthersLeave(After(writers, readers, b), gs, r);
    AfterOneMore(writers, readers, b + gs, Look(r));
    Reached(writers, readers, es);
    Reached(writers, readers, b + gs);
    var s, t := After(writers, readers, es), After(writers, readers, b + gs);
    WrapParity(s.total);
    ReadNow(t, s.total);
    assert ReaderOk(t, t.readers[r]);
    hide Wrap;
  }

  /** From a free lock any writer gets through in six accesses: one increment, two advances, and the
      lock free again; no reader is touched. */
  lemma WriterRound(writers: nat, readers: nat, es: seq<Event>, w: nat)
    requires w < writers && After(writers, readers, es).owner == -1
    ensures
      var e := Write(w);
      var s, t := After(writers, readers, es), After(writers, readers, es + [e] + [e] + [e] + [e] + [e] + [e]);
      && t.counter == Wrap(s.counter + 1) && t.seqno == Wrap(s.seqno + 2) && t.owner == -1
      && t.readers == s.readers && t.accepted == s.accepted && t.writers == s.writers
  {
    var e := Write(w);
    Sizes(writers, readers, es);
    Reached(writers, readers, es);
    AfterOneMore(writers, readers, es, e);
    AfterOneMore(writers, readers, es + [e], e);
    AfterOneMore(writers, readers, es + [e] + [e], e);
    AfterOneMore(writers, readers, es + [e] + [e] + [e], e);
    AfterOneMore(writers, readers, es + [e] + [e] + [e] + [e], e);
    AfterOneMore(writers, readers, es + [e] + [e] + [e] + [e] + [e], e);
    hide After;
    WriterSteps(After(writers, readers, es), w);
  }

  lemma WriterSteps(s: State, w: nat)
    requires WritersOk(s) && w < |s.writers| && s.owner == -1
    ensures
      var t := StepWrite(StepWrite(StepWrite(StepWrite(StepWrite(StepWrite(s, w), w), w), w), w), w);
      && t.counter == Wrap(s.counter + 1) && t.seqno == Wrap(s.seqno + 2) && t.owner == -1
      && t.readers == s.readers && t.accepted == s.accepted && t.writers == s.writers
  {
    WrapTwice(s.seqno);
    hide Wrap;
    var s2 := StepWrite(StepWrite(s, w), w);
    assert s2.writers[w] == Odd && s2.owner == w;
    var s4 := StepWrite(StepWrite(s2, w), w);
    assert s4.writers[w] == Stored && s4.counter == Wrap(s.counter + 1);
    var s6 := StepWrite(StepWrite(s4, w), w);
    assert s6.writers == s.writers;
  }

  lemma WrapTwice(x: nat)
    ensures Wrap(Wrap(x + 1) + 1) == Wrap(x + 2)
  {
    WrapNext(x + 1);
  }

  // ----- what a wrap-around does -----

  predicate Resting(s: State) { s.owner == -1 && |s.writers| == 1 && s.writers[0] == Idle }

  /** Two accesses of the only writer. */
  function Twice(s: State): State { StepWrite(StepWrite(s, 0), 0) }

  lemma SixSteps(s: State)
    requires Resting(s)
    ensures var u := Twice(Twice(Twice(s)));
      Resting(u) && u.total == s.total + 2 && u.readers == s.readers && u.accepted == s.accepted
  {
    hide Wrap;
    var a := Twice(s);
    assert a.writers[0] == Odd && a.total == s.total + 1 && a.owner == 0;
    var b := Twice(a);
    assert b.writers[0] == Stored && b.total == s.total + 1;
  }

  /** One whole increment by the only writer. */
  lemma Round(es: seq<Event>) returns (fs: seq<Event>)
    requires Resting(After(1, 1, es))
    ensures var s, u := After(1, 1, es), After(1, 1, fs);
      Resting(u) && u.total == s.total + 2 && u.readers == s.readers && u.accepted == s.accepted
  {
    hide StepWrite;
    var w := Write(0);
    AfterOneMore(1, 1, es, w);
    AfterOneMore(1, 1, es + [w], w);
    AfterOneMore(1, 1, es + [w] + [w], w);
    AfterOneMore(1, 1, es + [w] + [w] + [w], w);
    AfterOneMore(1, 1, es + [w] + [w] + [w] + [w], w);
    AfterOneMore(1, 1, es + [w] + [w] + [w] + [w] + [w], w);
    fs := es + [w] + [w] + [w] + [w] + [w] + [w];
    SixSteps(After(1, 1, es));
  }

  lemma {:induction false} Rounds(es: seq<Event>, n: nat) returns (fs: seq<Event>)
    requires Resting(After(1, 1, es))
    ensures var s, u := After(1, 1, es), After(1, 1, fs);
      Resting(u) && u.total == s.total + 2 * n && u.readers == s.readers && u.accepted == s.accepted
  {
    fs := es;
    if n > 0 {
      fs := Rounds(es, n - 1);
      fs := Round(fs);
    }
  }

  /** A reader that sleeps through exactly 2^32 advances of the sequence number accepts a value
      that is not half of the number it began with. */
  lemma WrapDeceives()
    ensures exists es :: After(1, 1, es).accepted == [[Accept(1, 0, 0, 1, M)]]
  {
    hide Step, Wrap;
    var es := [Look(0)];
    AfterOneMore(1, 1, [], Look(0));
    assert [] + [Look(0)] == es;
    assert After(1, 1, es) == Init(1, 1).(readers := [Begun(0, 0)]) by { FirstLook(); }
    var fs := Rounds(es, 1);
    Reached(1, 1, fs);
    AfterOneMore(1, 1, fs, Look(0));
    assert After(1, 1, fs + [Look(0)]) == After(1, 1, fs).(readers := [Read(0, 0, 1, 1)]) by {
      SecondLook(After(1, 1, fs));
    }
    var gs := Rounds(fs + [Look(0)], 0x7fff_ffff);
    Reached(1, 1, gs);
    AfterOneMore(1, 1, gs, Look(0));
    assert After(1, 1, gs + [Look(0)]).accepted == [[Accept(1, 0, 0, 1, M)]] by { LastLook(After(1, 1, gs)); }
  }

  lemma FirstLook()
    ensures Step(Init(1, 1), Look(0)) == Init(1, 1).(readers := [Begun(0, 0)])
  {
  }

  lemma SecondLook(s: State)
    requires Inv(s) && s.owner == -1 && s.total == 2 && s.readers == [Begun(0, 0)]
    ensures Step(s, Look(0)) == s.(readers := [Read(0, 0, 1, 1)])
  {
  }

  lemma LastLook(s: State)
    requires Inv(s) && s.total == M && s.readers == [Read(0, 0, 1, 1)] && s.accepted == [[]]
    ensures Step(s, Look(0)).accepted == [[Accept(1, 0, 0, 1, M)]]
  {
    assert Wrap(M) == 0;
    assert Step(s, Look(0)).accepted[0] == [Accept(1, 0, 0, 1, M)];
  }

  // ----- the threads -----

  lemma WriteMeans(s: State, w: nat)
    requires WritersOk(s)
    ensures var t := StepWrite(s, w);
      && (t.counter != s.counter ==>
            t.owner == w && t.seqno == s.seqno && s.seqno % 2 == 1 && t.counter == Wrap(s.counter + 1))
      && (t.seqno != s.seqno ==> t.owner == w && t.counter == s.counter && t.seqno == Wrap(s.seqno + 1))
  {
    WrapParity(s.total);
    hide Wrap;
  }

  lemma LookMeans(s: State, r: nat)
    requires Inv(s) && r < |s.readers| && s.readers[r].Read? && s.readers[r].seqno == s.seqno
    ensures var c := s.readers[r];
      s.seqno % 2 == 0 && (s.total - c.from < M ==> c.value == s.counter && c.value % 0x8000_0000 == s.seqno / 2)
  {
    assert ReaderOk(s, s.readers[r]);
    var c := s.readers[r];
    WrapParity(c.from);
    if s.total - c.from < M {
      WrapSame(c.from, s.total);
      ReadNow(s, c.from);
      HalfOfEven(c.from);
    }
    hide Wrap;
  }

  /** The sequence number, the spinlock's owner, the counter, and where each thread is. */
  class Lock {
    var seqno: nat
    var counter: nat
    var owner: int
    var writers: seq<Writer>
    var readers: seq<Reader>
    var accepted: seq<seq<Accept>>
    var total: nat

    ghost function View(): State
      reads this
    {
      State(seqno, counter, owner, writers, readers, accepted, total)
    }

    /** The counter follows the sequence number, and every reader and every accepted value is in
        order. */
    ghost predicate Valid()
      reads this
    {
      Inv(View())
    }

    constructor (writers: nat, readers: nat)
      ensures Valid() && View() == Init(writers, readers)
    {
      seqno, counter, owner, total := 0, 0, -1, 0;
      this.writers, this.readers := seq(writers, i => Idle), seq(readers, i => Out);
      accepted := seq(readers, i => []);
      new;
      InitOk(writers, readers);
    }

    /** The next access of writer_function. The counter changes only by one, only while the
        sequence number is odd, and only by the owner of the lock. */
    method WriterStep(w: nat)
      requires Valid()
      modifies this`seqno, this`counter, this`owner, this`writers, this`total
      ensures Valid() && View() == StepWrite(old(View()), w)
      ensures counter != old(counter) ==>
        owner == w && seqno == old(seqno) && seqno % 2 == 1 && counter == Wrap(old(counter) + 1)
      ensures seqno != old(seqno) ==> owner == w && counter == old(counter) && seqno == Wrap(old(seqno) + 1)
    {
      WriteKeeps(View(), w); WriteKeepsReaders(View(), w); WriteMeans(View(), w);
      hide Wrap, WritersOk, ReadersOk;
      if w >= |writers| {
        return;
      }
      match writers[w] {
        case Idle =>
          if owner == -1 {
            owner, writers := w, writers[w := Locked];
          }
        case Locked =>
          seqno, total, writers := Wrap(seqno + 1), total + 1, writers[w := Odd];
        case Odd =>
          writers := writers[w := Loaded(counter)];
        case Loaded(v) =>
          counter, writers := Wrap(v + 1), writers[w := Stored];
        case Stored =>
          seqno, total, writers := Wrap(seqno + 1), total + 1, writers[w := Even];
        case Even =>
          owner, writers := -1, writers[w := Idle];
      }
    }

    /** The next access of read_function: waits for an even number, reads, checks. What it accepts
        is the counter as it is and half the sequence number, unless that number has gone all the
        way round since it began; it accepts exactly if the number is the one it began with. */
    method ReaderStep(r: nat)
      requires Valid()
      modifies this`readers, this`accepted
      ensures Valid() && View() == StepLook(old(View()), r)
      ensures forall q :: 0 <= q < |accepted| && q != r ==> accepted[q] == old(accepted)[q]
      ensures accepted != old(accepted) ==>
        && r < |accepted| && |accepted[r]| > 0
        && var a := accepted[r][|accepted[r]| - 1];
           && accepted[r] == old(accepted)[r] + [a] && a.seqno == seqno && seqno % 2 == 0
           && (total - a.from < M ==> a.value == counter && a.value % 0x8000_0000 == seqno / 2)
      ensures r < |old(readers)| && old(readers)[r].Read? ==>
        (accepted != old(accepted) <==> seqno == old(readers)[r].seqno)
      ensures r < |old(readers)| == |readers| && old(readers)[r].Begun? ==>
        readers[r].Read? && readers[r].value == counter
      ensures r < |old(readers)| == |readers| && old(readers)[r] == Out ==> (readers[r].Begun? <==> seqno % 2 == 0)
    {
      LookKeeps(View(), r);
      if r < |readers| && readers[r].Read? && readers[r].seqno == seqno { LookMeans(View(), r); }
      hide Wrap, WritersOk, ReadersOk;
      if r >= |readers| || |readers| != |accepted| {
        return;
      }
      match readers[r] {
        case Out =>
          if seqno % 2 == 0 {
            readers := readers[r := Begun(seqno, total)];
          }
        case Begun(q, from) =>
          readers := readers[r := Read(q, from, counter, Increments(owner, writers, total))];
        case Read(q, from, v, stored) =>
          if seqno == q {
            accepted := accepted[r := accepted[r] + [Accept(v, q, from, stored, total)]];
          }
          readers := readers[r := Out];
      }
    }

    /** All threads in any order: without wrap-around every accepted value is half its sequence
        number. */
    method Run(es: seq<Event>)
      requires Valid() && View() == Init(|writers|, |readers|)
      modifies this
      ensures Valid() && View() == After(|old(writers)|, |old(readers)|, es)
      ensures total < M ==> forall r, i :: 0 <= r < |accepted| && 0 <= i < |accepted[r]| ==>
        accepted[r][i].value == accepted[r][i].seqno / 2
    {
      hide Inv, Wrap;
      ghost var n, m := |writers|, |readers|;
      var k := 0;
      while k < |es|
        invariant 0 <= k <= |es| && Valid() && View() == After(n, m, es[..k])
      {
        assert es[..k + 1] == es[..k] + [es[k]];
        AfterOneMore(n, m, es[..k], es[k]);
        match es[k] {
          case Write(w) => WriterStep(w);
          case Look(r) => ReaderStep(r);
        }
        k := k + 1;
      }
      assert es[..k] == es;
      if total < M {
        forall r, i | 0 <= r < |accepted| && 0 <= i < |accepted[r]|
          ensures accepted[r][i].value == accepted[r][i].seqno / 2
        {
          NeverDecreases(n, m, es, r, i, i);
        }
      }
    }
  }
}
