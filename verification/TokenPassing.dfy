/** Producer and consumer taking turns, by two semaphores (kthread_sync) or by two condition flags
    and wait queues (kthread_sync_waitq): both are the same strict alternator. */
module TokenPassing {
  import opened Runs

  datatype Kind = Semaphores | Flags

  /** A thread's place in its loop. `Woken`: the flag was seen set and is not cleared yet.
      `Worked`: the work is done, the other side not yet told. `Signalled`: told, about to look
      whether to stop. */
  datatype Phase = Waiting | Woken | Holding | Worked | Signalled | Exited

  /** `pslot` and `cslot` are psem and csem, or prod.cond and cons.cond. */
  datatype State = State(pslot: nat, cslot: nat, prod: Phase, cons: Phase, produced: nat, consumed: nat,
                         stopProd: bool, stopCons: bool)

  datatype Event = Prod | Cons | Unload

  const INIT: State := State(1, 0, Waiting, Waiting, 0, 0, false, false)

  function Raise(kind: Kind, slot: nat): nat { if kind == Semaphores then slot + 1 else 1 }

  /** The next step of prod_fct. */
  function StepProd(kind: Kind, s: State): State {
    match s.prod
    case Waiting =>
      if s.pslot == 0 then s
      else if kind == Semaphores then s.(pslot := s.pslot - 1, prod := Holding)
      else s.(prod := Woken)
    case Woken => s.(pslot := 0, prod := Holding)
    case Holding => s.(produced := s.produced + 1, prod := Worked)
    case Worked => s.(cslot := Raise(kind, s.cslot), prod := Signalled)
    case Signalled => s.(prod := if s.stopProd then Exited else Waiting)
    case Exited => s
  }

  /** The next step of cons_fct. */
  function StepCons(kind: Kind, s: State): State {
    match s.cons
    case Waiting =>
      if s.cslot == 0 then s
      else if kind == Semaphores then s.(cslot := s.cslot - 1, cons := Holding)
      else s.(cons := Woken)
    case Woken => s.(cslot := 0, cons := Holding)
    case Holding => s.(consumed := s.consumed + 1, cons := Worked)
    case Worked => s.(pslot := Raise(kind, s.pslot), cons := Signalled)
    case Signalled => s.(cons := if s.stopCons then Exited else Waiting)
    case Exited => s
  }

  /** kthr_exit: stop the producer, wait until it has exited, then stop the consumer. */
  function StepUnload(s: State): State {
    if !s.stopProd then s.(stopProd := true) else if s.prod.Exited? then s.(stopCons := true) else s
  }

  function Step(kind: Kind, s: State, e: Event): State {
    match e
    case Prod => StepProd(kind, s)
    case Cons => StepCons(kind, s)
    case Unload => StepUnload(s)
  }

  function After(kind: Kind, es: seq<Event>): State { Exec((s, e) => Step(kind, s, e), INIT, es) }

  // ----- the alternator -----

  /** Positions 0 to 2 are the producer's turn: told, working, done; 3 to 5 the consumer's. */
  datatype Alternator = Alternator(pos: nat, produced: nat, consumed: nat)

  function Next(a: Alternator): Alternator {
    Alternator(if a.pos == 5 then 0 else a.pos + 1,
               if a.pos == 1 then a.produced + 1 else a.produced,
               if a.pos == 4 then a.consumed + 1 else a.consumed)
  }

  /** The alternator after `n` moves. */
  function Turn(n: nat): Alternator {
    if n == 0 then Alternator(0, 0, 0) else Next(Turn(n - 1))
  }

  /** After `q` rounds and `r` moves. */
  lemma {:induction false} TurnAt(q: nat, r: nat)
    requires r < 6
    ensures Turn(6 * q + r) == Alternator(r, if r >= 2 then q + 1 else q, if r == 5 then q + 1 else q)
    decreases q, r
  {
    if r > 0 {
      TurnAt(q, r - 1);
    } else if q > 0 {
      TurnAt(q - 1, 5);
    }
  }

  /** The alternator's whole state follows from the number of moves; in particular production is
      never more than one ahead of consumption, and never behind. */
  lemma TurnIs(n: nat)
    ensures var q, r := n / 6, n % 6;
      Turn(n) == Alternator(r, if r >= 2 then q + 1 else q, if r == 5 then q + 1 else q)
    ensures 0 <= Turn(n).produced - Turn(n).consumed <= 1
  {
    TurnAt(n / 6, n % 6);
  }

  // ----- refinement -----

  predicate Has(p: Phase) { p.Woken? || p.Holding? || p.Worked? }

  function Count(b: bool): nat { if b then 1 else 0 }

  /** Tokens in the two slots and in the two loop bodies. */
  function Tokens(s: State): nat {
    (if s.prod.Woken? then 0 else s.pslot) + (if s.cons.Woken? then 0 else s.cslot)
    + Count(Has(s.prod)) + Count(Has(s.cons))
  }

  function Pos(s: State): nat {
    if s.prod.Worked? then 2 else if Has(s.prod) then 1
    else if s.cons.Worked? then 5 else if Has(s.cons) then 4
    else if s.pslot > 0 then 0 else 3
  }

  function Abs(s: State): Alternator { Alternator(Pos(s), s.produced, s.consumed) }

  ghost predicate Inv(kind: Kind, s: State) {
    && Tokens(s) == 1
    && (s.prod.Woken? ==> kind == Flags && s.pslot == 1)
    && (s.cons.Woken? ==> kind == Flags && s.cslot == 1)
    && (s.prod.Exited? ==> s.stopProd)
    && (s.stopCons ==> s.prod.Exited?)
    && (s.cons.Exited? ==> s.stopCons)
    && exists n: nat :: Abs(s) == Turn(n)
  }

  /** Every step leaves the alternator alone or moves it once; only the side whose turn it is
      can move it. */
  lemma StepRefines(kind: Kind, s: State, e: Event)
    requires Inv(kind, s)
    ensures Abs(Step(kind, s, e)) == Abs(s) ||
      (Abs(Step(kind, s, e)) == Next(Abs(s)) && (if Pos(s) < 3 then e.Prod? else e.Cons?))
    ensures Inv(kind, Step(kind, s, e))
  {
    hide Turn;
    var n: nat :| Abs(s) == Turn(n);
    var t := Step(kind, s, e);
    assert Abs(t) == Abs(s) || Abs(t) == Next(Abs(s));
    if Abs(t) != Abs(s) {
      NextTurn(n);
      assert Abs(t) == Turn(n + 1);
    }
  }

  /** The one that holds the token finds all items consumed, or exactly one not. */
  lemma ProducesInTurn(kind: Kind, s: State)
    requires Inv(kind, s)
    ensures s.prod.Holding? ==> s.produced == s.consumed
    ensures s.cons.Holding? ==> s.produced == s.consumed + 1
  {
    hide Turn;
    var n: nat :| Abs(s) == Turn(n);
    TurnIs(n);
  }

  lemma NextTurn(n: nat)
    ensures Turn(n + 1) == Next(Turn(n))
  {
  }

  lemma Reached(kind: Kind, es: seq<Event>)
    ensures Inv(kind, After(kind, es))
  {
    forall s, e | Inv(kind, s) ensures Inv(kind, Step(kind, s, e)) { StepRefines(kind, s, e); }
    assert Abs(INIT) == Turn(0);
    hide Step;
    Always((s, e) => Step(kind, s, e), s => Inv(kind, s), INIT, es);
  }

  /** Both implementations, in every run: they are at some turn of the alternator, so production
      is 0 or 1 ahead, and there is exactly one token. */
  lemma Alternates(kind: Kind, es: seq<Event>)
    ensures exists n: nat :: Abs(After(kind, es)) == Turn(n)
    ensures 0 <= After(kind, es).produced - After(kind, es).consumed <= 1
    ensures Tokens(After(kind, es)) == 1
  {
    Reached(kind, es);
    var n: nat :| Abs(After(kind, es)) == Turn(n);
    TurnIs(n);
  }

  /** Until one of them has exited, one of them can step. */
  lemma SomeoneSteps(kind: Kind, es: seq<Event>)
    ensures var s := After(kind, es);
      !s.prod.Exited? && !s.cons.Exited? ==> StepProd(kind, s) != s || StepCons(kind, s) != s
  {
    Reached(kind, es);
    var s := After(kind, es);
    assert s.prod.Holding? ==> StepProd(kind, s).prod == Worked;
    assert s.cons.Holding? ==> StepCons(kind, s).cons == Worked;
  }

  // ----- shutdown -----

  lemma AfterOneMore(kind: Kind, es: seq<Event>, e: Event)
    ensures After(kind, es + [e]) == Step(kind, After(kind, es), e)
  {
    ExecOneMore((s, e) => Step(kind, s, e), INIT, es, e);
  }

  /** The consumer sleeps; kthread_stop wakes it, but it finds its slot empty and sleeps on. */
  predicate Asleep(s: State) { s.cons.Waiting? && s.cslot == 0 }

  /** Nobody is left to fill that slot. */
  predicate Hung(s: State) { s.prod.Exited? && Asleep(s) }

  lemma {:induction false} HungForever(kind: Kind, s: State, es: seq<Event>)
    requires Hung(s)
    ensures Hung(Exec((s, e) => Step(kind, s, e), s, es))
    decreases |es|
  {
    if es != [] { HungForever(kind, s, es[..|es| - 1]); }
  }

  /** How often a run lets the consumer go on. */
  function Turns(es: seq<Event>): nat {
    if es == [] then 0 else Turns(es[..|es| - 1]) + Count(es[|es| - 1].Cons?)
  }

  /** Steps a told consumer still has before it exits, at most. */
  function Ahead(p: Phase): nat {
    match p
    case Waiting => 5 case Woken => 4 case Holding => 3 case Worked => 2 case Signalled => 1 case Exited => 0
  }

  /** A told consumer with something to do comes nearer to its end at each of its turns. */
  lemma {:induction false} RunsOut(kind: Kind, s: State, es: seq<Event>)
    requires s.prod.Exited? && s.stopCons && !Hung(s)
    ensures var t := Exec((s, e) => Step(kind, s, e), s, es);
      t.prod.Exited? && t.stopCons && !Hung(t) && (t.cons.Exited? || Ahead(t.cons) + Turns(es) <= 5)
    decreases |es|
  {
    if es != [] { RunsOut(kind, s, es[..|es| - 1]); }
  }

  /** `m` turns of one side. */
  function Repeat(e: Event, m: nat): seq<Event> { if m == 0 then [] else Repeat(e, m - 1) + [e] }

  lemma {:induction false} TurnsRepeat(m: nat)
    ensures Turns(Repeat(Cons, m)) == m
  {
    if m > 0 {
      TurnsRepeat(m - 1);
      assert Repeat(Cons, m)[..|Repeat(Cons, m)| - 1] == Repeat(Cons, m - 1);
    }
  }

  /** Once the producer has exited, kthread_stop(cthr) is sure to end the consumer, in at most five
      of its turns and whatever else happens, iff it reaches it before it has fallen asleep. */
  lemma StopsExactly(kind: Kind, before: seq<Event>)
    requires After(kind, before).prod.Exited?
    ensures (forall es :: Turns(es) >= 5 ==> After(kind, before + [Unload] + es).cons.Exited?) <==>
            !Asleep(After(kind, before))
  {
    var step := (s, e) => Step(kind, s, e);
    var s, t := After(kind, before), After(kind, before + [Unload]);
    Reached(kind, before);
    AfterOneMore(kind, before, Unload);
    forall es: seq<Event>
      ensures After(kind, before + [Unload] + es) == Exec(step, t, es)
    {
      ExecConcat(step, INIT, before + [Unload], es);
    }
    if Asleep(s) {
      TurnsRepeat(5);
      HungForever(kind, t, Repeat(Cons, 5));
    } else {
      forall es | Turns(es) >= 5 ensures Exec(step, t, es).cons.Exited? { RunsOut(kind, t, es); }
    }
  }

  /** One more event of a run, with the state it leads to. */
  lemma Push(kind: Kind, es: seq<Event>, s: State, e: Event) returns (fs: seq<Event>, t: State)
    requires s == After(kind, es)
    ensures t == Step(kind, s, e) && t == After(kind, fs) && fs == es + [e]
  {
    AfterOneMore(kind, es, e);
    fs, t := es + [e], Step(kind, s, e);
  }

  /** A producer that has been told to stop hands over one item and exits. */
  lemma ProducerExits(kind: Kind) returns (es: seq<Event>, s: State)
    ensures s == After(kind, es) == State(0, 1, Exited, Waiting, 1, 0, true, false)
  {
    es, s := [], INIT;
    assert After(kind, es) == s;
    hide After;
    es, s := Push(kind, es, s, Unload);
    es, s := Push(kind, es, s, Prod);
    if kind == Flags {
      es, s := Push(kind, es, s, Prod);
    }
    assert s == State(0, 0, Holding, Waiting, 0, 0, true, false);
    es, s := Push(kind, es, s, Prod);
    es, s := Push(kind, es, s, Prod);
    assert s == State(0, 1, Signalled, Waiting, 1, 0, true, false);
    es, s := Push(kind, es, s, Prod);
  }

  /** Such an end is possible: the producer is stopped, the consumer takes the last item, looks
      before it has been told to stop, and goes back to sleep. */
  lemma ShutdownMayHang(kind: Kind)
    ensures exists es :: Hung(After(kind, es))
  {
    var es, s := ProducerExits(kind);
    hide After;
    es, s := Push(kind, es, s, Cons);
    if kind == Flags {
      es, s := Push(kind, es, s, Cons);
    }
    assert s == State(0, 0, Exited, Holding, 1, 0, true, false);
    es, s := Push(kind, es, s, Cons);
    es, s := Push(kind, es, s, Cons);
    assert s == State(1, 0, Exited, Signalled, 1, 1, true, false);
    es, s := Push(kind, es, s, Cons);
    assert Hung(s);
  }

  /** Steps until the consumer hands the token back, then until a told producer exits. */
  function ToExit(s: State): nat {
    match s.prod
    case Exited => 0 case Signalled => 1 case Worked => 2 case Holding => 3 case Woken => 4
    case Waiting =>
      if s.pslot > 0 then 5
      else match s.cons
        case Worked => 6 case Holding => 7 case Woken => 8 case Waiting => 9 case Signalled => 10 case Exited => 11
  }

  /** A producer that has been told to stop can always be brought to its end before the consumer
      is told. */
  lemma {:induction false} RunToExit(kind: Kind, es: seq<Event>, s: State) returns (fs: seq<Event>, t: State)
    requires s == After(kind, es) && s.stopProd && !s.stopCons
    ensures es <= fs && t == After(kind, fs) && t.prod.Exited? && !t.stopCons
    decreases ToExit(s)
  {
    fs, t := es, s;
    if !s.prod.Exited? {
      Reached(kind, es);
      var e := if s.prod.Waiting? && s.pslot == 0 then Cons else Prod;
      CloserToExit(kind, s, e);
      hide After;
      fs, t := Push(kind, es, s, e);
      fs, t := RunToExit(kind, fs, t);
    }
  }

  lemma CloserToExit(kind: Kind, s: State, e: Event)
    requires Inv(kind, s) && s.stopProd && !s.stopCons && !s.prod.Exited?
    requires e == if s.prod.Waiting? && s.pslot == 0 then Cons else Prod
    ensures var t := Step(kind, s, e); ToExit(t) < ToExit(s) && t.stopProd && !t.stopCons
  {
    hide Turn;
  }

  /** Turns until the consumer, with nobody left to wake it, has used up what was handed over. */
  function ToSleep(s: State): nat {
    match s.cons
    case Exited => 0
    case Waiting => if s.cslot == 0 then 0 else 5
    case Woken => 4
    case Holding => 3
    case Worked => 2
    case Signalled => if s.cslot == 0 then 1 else 6
  }

  lemma {:induction false} RunToSleep(kind: Kind, es: seq<Event>, s: State) returns (fs: seq<Event>, t: State)
    requires s == After(kind, es) && s.prod.Exited? && !s.stopCons
    ensures es <= fs && t == After(kind, fs) && Hung(t)
    decreases ToSleep(s)
  {
    fs, t := es, s;
    Reached(kind, es);
    if !Hung(s) {
      CloserToSleep(kind, s);
      hide After;
      fs, t := Push(kind, es, s, Cons);
      fs, t := RunToSleep(kind, fs, t);
    }
  }

  lemma CloserToSleep(kind: Kind, s: State)
    requires Inv(kind, s) && s.prod.Exited? && !s.stopCons && !Hung(s)
    ensures var t := StepCons(kind, s); ToSleep(t) < ToSleep(s) && t.prod.Exited? && !t.stopCons
  {
    hide Turn;
  }

  /** At any moment the unload can still come to hang iff the consumer has not been told to stop
      yet, or was told too late: no state before the unload excludes it. */
  lemma MayHangExactly(kind: Kind, before: seq<Event>)
    ensures (exists es :: Hung(After(kind, before + es))) <==>
            !After(kind, before).stopCons || Asleep(After(kind, before))
  {
    var step := (s, e) => Step(kind, s, e);
    var s := After(kind, before);
    Reached(kind, before);
    if !s.stopCons {
      var fs, t := ToldProducer(kind, before, s);
      fs, t := RunToExit(kind, fs, t);
      fs, t := RunToSleep(kind, fs, t);
      assert fs == before + fs[|before|..];
    } else if Asleep(s) {
      assert before + [] == before;
    } else {
      forall es ensures !Hung(After(kind, before + es)) {
        ExecConcat(step, INIT, before, es);
        RunsOut(kind, s, es);
      }
    }
  }

  lemma ToldProducer(kind: Kind, es: seq<Event>, s: State) returns (fs: seq<Event>, t: State)
    requires s == After(kind, es) && !s.stopCons
    ensures es <= fs && t == After(kind, fs) && t.stopProd && !t.stopCons
  {
    fs, t := es, s;
    if !s.stopProd { fs, t := Push(kind, es, s, Unload); }
  }

  // ----- the threads -----

  /** The two slots, and where each thread is. */
  class Pair {
    const kind: Kind
    var pslot: nat
    var cslot: nat
    var prod: Phase
    var cons: Phase
    var produced: nat
    var consumed: nat
    var stopProd: bool
    var stopCons: bool

    ghost function View(): State
      reads this
    {
      State(pslot, cslot, prod, cons, produced, consumed, stopProd, stopCons)
    }

    /** One token, and some turn of the alternator. */
    ghost predicate Valid()
      reads this
    {
      Inv(kind, View())
    }

    constructor (kind: Kind)
      ensures Valid() && View() == INIT && this.kind == kind
    {
      this.kind := kind;
      pslot, cslot, prod, cons := 1, 0, Waiting, Waiting;
      produced, consumed, stopProd, stopCons := 0, 0, false, false;
      new;
      assert Abs(View()) == Turn(0);
    }

    /** The next step of prod_fct. It can only matter in the producer's turn, and then moves the
        alternator at most once; an item is produced only when all earlier ones are consumed. */
    method ProdStep()
      requires Valid()
      modifies this`pslot, this`cslot, this`prod, this`produced
      ensures Valid() && View() == StepProd(kind, old(View()))
      ensures Abs(View()) == old(Abs(View())) || (Abs(View()) == Next(old(Abs(View()))) && old(Pos(View())) < 3)
      ensures produced != old(produced) ==> produced == old(produced) + 1 == consumed + 1
    {
      StepRefines(kind, View(), Prod);
      ProducesInTurn(kind, View());
      hide Inv, Pos;
      match prod {
        case Waiting =>
          if pslot > 0 {
            if kind == Semaphores {
              pslot, prod := pslot - 1, Holding;
            } else {
              prod := Woken;
            }
          }
        case Woken => pslot, prod := 0, Holding;
        case Holding => produced, prod := produced + 1, Worked;
        case Worked => cslot, prod := if kind == Semaphores then cslot + 1 else 1, Signalled;
        case Signalled => prod := if stopProd then Exited else Waiting;
        case Exited =>
      }
    }

    /** The next step of cons_fct: the same for the consumer's turn; an item is consumed only if
        one was produced that is not consumed yet. */
    method ConsStep()
      requires Valid()
      modifies this`pslot, this`cslot, this`cons, this`consumed
      ensures Valid() && View() == StepCons(kind, old(View()))
      ensures Abs(View()) == old(Abs(View())) || (Abs(View()) == Next(old(Abs(View()))) && old(Pos(View())) >= 3)
      ensures consumed != old(consumed) ==> consumed == old(consumed) + 1 == produced
    {
      StepRefines(kind, View(), Cons);
      ProducesInTurn(kind, View());
      hide Inv, Pos;
      match cons {
        case Waiting =>
          if cslot > 0 {
            if kind == Semaphores {
              cslot, cons := cslot - 1, Holding;
            } else {
              cons := Woken;
            }
          }
        case Woken => cslot, cons := 0, Holding;
        case Holding => consumed, cons := consumed + 1, Worked;
        case Worked => pslot, cons := if kind == Semaphores then pslot + 1 else 1, Signalled;
        case Signalled => cons := if stopCons then Exited else Waiting;
        case Exited =>
      }
    }

    /** The next step of kthr_exit moves no token. */
    method UnloadStep()
      requires Valid()
      modifies this`stopProd, this`stopCons
      ensures Valid() && View() == StepUnload(old(View())) && Abs(View()) == old(Abs(View()))
    {
      StepRefines(kind, View(), Unload);
      hide Inv, Pos;
      if !stopProd {
        stopProd := true;
      } else if prod.Exited? {
        stopCons := true;
      }
    }

    method Run(es: seq<Event>)
      requires Valid() && View() == INIT
      modifies this
      ensures Valid() && View() == After(kind, es)
      ensures consumed <= produced <= consumed + 1
    {
      hide Inv;
      var i := 0;
      while i < |es|
        invariant 0 <= i <= |es| && Valid() && View() == After(kind, es[..i])
      {
        assert es[..i + 1] == es[..i] + [es[i]];
        AfterOneMore(kind, es[..i], es[i]);
        match es[i] {
          case Prod => ProdStep();
          case Cons => ConsStep();
          case Unload => UnloadStep();
        }
        i := i + 1;
      }
      assert es[..i] == es;
      Alternates(kind, es);
    }
  }
}
