/** What the three eBPF trackers keep in their maps. */

/** BPF maps and 64-bit counters. */
module BpfMaps {
  type u64 = x: int | 0 <= x < 0x1_0000_0000_0000_0000

  const MAX_ENTRIES: nat := 10240

  function Wrap(x: nat): u64 { x % 0x1_0000_0000_0000_0000 }

  /** __sync_fetch_and_add on a u64. */
  function Add(x: u64, d: u64): u64 { Wrap(x as int + d as int) }

  /** An array map before its first update. */
  function Zeros(n: nat): (z: seq<u64>)
    ensures |z| == n && forall i :: 0 <= i < n ==> z[i] == 0
  {
    seq(n, i => 0)
  }

  /** The difference of two u64 timestamps: what has to be added to the second to get the first. */
  function Minus(x: u64, y: u64): (d: u64)
    ensures x >= y ==> d + y == x
    ensures Wrap(y + d) == x
  {
    if x >= y then x - y else x - y + 0x1_0000_0000_0000_0000
  }

  /** bpf_map_update_elem with BPF_ANY on a hash map: a new key needs room. */
  function Update(m: map<u64, u64>, k: u64, v: u64): (r: map<u64, u64>)
    ensures |m| <= 10240 ==> |r| <= 10240
    ensures k in r <==> k in m || |m| < 10240
    ensures k in r ==> r[k] == v
    ensures forall j :: j != k ==> (j in r <==> j in m) && (j in m ==> r[j] == m[j])
  {
    if k in m then
      assert m[k := v].Keys == m.Keys;
      m[k := v]
    else if |m| >= MAX_ENTRIES then m
    else
      assert m[k := v].Keys == m.Keys + {k};
      m[k := v]
  }

  function Delete(m: map<u64, u64>, k: u64): map<u64, u64> { m - {k} }

  lemma UpdateSize(m: map<u64, u64>, k: u64, v: u64)
    ensures |Update(m, k, v)| == if k in m || |m| >= MAX_ENTRIES then |m| else |m| + 1
  {
    if k in m {
      assert m[k := v].Keys == m.Keys;
    } else {
      assert m[k := v].Keys == m.Keys + {k};
    }
  }

  lemma DeleteSize(m: map<u64, u64>, k: u64)
    ensures |Delete(m, k)| == if k in m then |m| - 1 else |m|
  {
    assert Delete(m, k).Keys == m.Keys - {k};
  }

  lemma WrapNext(x: nat, d: u64)
    ensures Add(Wrap(x), d) == Wrap(x + d)
  {
  }

  lemma WrapSmall(x: nat)
    requires x < 0x1_0000_0000_0000_0000
    ensures Wrap(x) == x
  {
  }

  function Sum(q: seq<nat>): nat { if q == [] then 0 else Sum(q[..|q| - 1]) + q[|q| - 1] }

  /** How many elements `f` sends to `b`. */
  function CountOf(f: nat -> nat, q: seq<nat>, b: nat): nat {
    if q == [] then 0 else CountOf(f, q[..|q| - 1], b) + if f(q[|q| - 1]) == b then 1 else 0
  }

  /** The histogram with `n` buckets. */
  function Histogram(f: nat -> nat, q: seq<nat>, n: nat): seq<nat> {
    seq(n, b requires 0 <= b => CountOf(f, q, b))
  }

  lemma {:induction false} SumUpdate(q: seq<nat>, i: nat, x: nat)
    requires i < |q|
    ensures Sum(q[i := x]) == Sum(q) - q[i] + x
  {
    var k := |q| - 1;
    if i == k {
      assert q[i := x][..k] == q[..k];
    } else {
      assert q[i := x][..k] == q[..k][i := x];
      SumUpdate(q[..k], i, x);
    }
  }

  lemma {:induction false} SumZeros(q: seq<nat>)
    requires forall i :: 0 <= i < |q| ==> q[i] == 0
    ensures Sum(q) == 0
  {
    if q != [] { SumZeros(q[..|q| - 1]); }
  }

  lemma HistogramMore(f: nat -> nat, q: seq<nat>, d: nat, n: nat)
    requires f(d) < n
    ensures Histogram(f, q + [d], n) == Histogram(f, q, n)[f(d) := CountOf(f, q, f(d)) + 1]
  {
    assert (q + [d])[..|q|] == q;
  }

  /** Every element is in exactly one bucket. */
  lemma {:induction false} HistogramSum(f: nat -> nat, q: seq<nat>, n: nat)
    requires forall d :: f(d) < n
    ensures Sum(Histogram(f, q, n)) == |q|
  {
    if q == [] {
      SumZeros(Histogram(f, q, n));
    } else {
      var k := |q| - 1;
      HistogramSum(f, q[..k], n);
      assert q == q[..k] + [q[k]];
      HistogramMore(f, q[..k], q[k], n);
      SumUpdate(Histogram(f, q[..k], n), f(q[k]), CountOf(f, q[..k], f(q[k])) + 1);
    }
  }
}

/** func_latency: time between entry and exit of a function, per thread. */
module FuncLatency {
  import opened BpfMaps
  import opened Runs

  /** The three maps; `deltas` is history: every latency measured so far. `entries` too: how many
      entries were seen. */
  datatype State = State(starts: map<u64, u64>, hist: seq<u64>, count: u64, total: u64, min: u64, max: u64,
                         deltas: seq<nat>, entries: nat)

  datatype Event = Entry(tid: u64, ts: u64) | Exit(tid: u64, now: u64)

  const INIT: State := State(map[], Zeros(64), 0, 0, 0, 0, [], 0)

  /** The bucket as the code computes it: ten microseconds each, cut to 32 bits, then capped. */
  function Bucket(delta: nat): nat {
    var b := delta / 1000 / 10 % 0x1_0000_0000;
    if b >= 64 then 63 else b
  }

  function StepExit(s: State, tid: u64, now: u64): State
    requires |s.hist| == 64
  {
    if tid !in s.starts then s
    else
      var delta := Minus(now, s.starts[tid]);
      var b := Bucket(delta);
      State(Delete(s.starts, tid), s.hist[b := Add(s.hist[b], 1)], Add(s.count, 1), Add(s.total, delta),
            if s.min == 0 || delta < s.min then delta else s.min, if delta > s.max then delta else s.max,
            s.deltas + [delta], s.entries)
  }

  function Step(s: State, e: Event): State {
    match e
    case Entry(tid, ts) => s.(starts := Update(s.starts, tid, ts), entries := s.entries + 1)
    case Exit(tid, now) => if |s.hist| != 64 then s else StepExit(s, tid, now)
  }

  function After(es: seq<Event>): State { Exec((s, e) => Step(s, e), INIT, es) }

  function Largest(q: seq<nat>): nat {
    if q == [] then 0
    else
      var m := Largest(q[..|q| - 1]);
      if q[|q| - 1] > m then q[|q| - 1] else m
  }

  function Smallest(q: seq<nat>): nat
    requires q != []
  {
    if |q| == 1 then q[0]
    else
      var m := Smallest(q[..|q| - 1]);
      if q[|q| - 1] < m then q[|q| - 1] else m
  }

  /** The code takes 0 for "not set": a latency of 0 makes it forget. */
  function Remembered(q: seq<nat>): nat {
    if q == [] then 0
    else
      var m := Remembered(q[..|q| - 1]);
      if m == 0 || q[|q| - 1] < m then q[|q| - 1] else m
  }

  ghost predicate Inv(s: State) {
    && |s.hist| == 64
    && (forall b :: 0 <= b < 64 ==> s.hist[b] == Wrap(CountOf(Bucket, s.deltas, b)))
    && s.count == Wrap(|s.deltas|) && s.total == Wrap(Sum(s.deltas))
    && s.max == Largest(s.deltas) && s.min == Remembered(s.deltas)
    && |s.starts| <= MAX_ENTRIES
    && |s.deltas| + |s.starts| <= s.entries
  }

  lemma ExitKeeps(s: State, tid: u64, now: u64)
    requires Inv(s)
    ensures Inv(StepExit(s, tid, now))
  {
    if tid in s.starts {
      var d := Minus(now, s.starts[tid]);
      var u := StepExit(s, tid, now);
      assert u.deltas[..|s.deltas|] == s.deltas;
      HistogramMore(Bucket, s.deltas, d, 64);
      DeleteSize(s.starts, tid);
      hide Wrap, Add, Minus, Bucket;
      WrapNext(CountOf(Bucket, s.deltas, Bucket(d)), 1);
      WrapNext(|s.deltas|, 1);
      WrapNext(Sum(s.deltas), d);
    }
  }

  lemma EntryKeeps(s: State, tid: u64, ts: u64)
    requires Inv(s)
    ensures Inv(Step(s, Entry(tid, ts)))
  {
    UpdateSize(s.starts, tid, ts);
  }

  lemma Reached(es: seq<Event>)
    ensures Inv(After(es))
  {
    forall s, e | Inv(s) ensures Inv(Step(s, e)) {
      match e
      case Entry(tid, ts) => EntryKeeps(s, tid, ts);
      case Exit(tid, now) => ExitKeeps(s, tid, now);
    }
    assert Inv(INIT) by { WrapSmall(0); }
    hide Step;
    Always((s, e) => Step(s, e), Inv, INIT, es);
  }

  /** The histogram adds up to the completed count, as long as that fits 64 bits. */
  lemma HistogramComplete(es: seq<Event>)
    requires |After(es).deltas| < 0x1_0000_0000_0000_0000
    ensures |After(es).hist| == 64 && Sum(After(es).hist) == After(es).count == |After(es).deltas|
    ensures forall b :: 0 <= b < 64 ==> After(es).hist[b] == CountOf(Bucket, After(es).deltas, b)
    ensures Sum(After(es).deltas) < 0x1_0000_0000_0000_0000 ==> After(es).total == Sum(After(es).deltas)
  {
    Reached(es);
    var s := After(es);
    HistogramSum(Bucket, s.deltas, 64);
    forall b | 0 <= b < 64 ensures s.hist[b] == Histogram(Bucket, s.deltas, 64)[b] {
      CountBound(Bucket, s.deltas, b);
      WrapSmall(CountOf(Bucket, s.deltas, b));
    }
    assert s.hist == Histogram(Bucket, s.deltas, 64);
    WrapSmall(|s.deltas|);
    if Sum(s.deltas) < 0x1_0000_0000_0000_0000 { WrapSmall(Sum(s.deltas)); }
  }

  lemma {:induction false} CountBound(f: nat -> nat, q: seq<nat>, b: nat)
    ensures CountOf(f, q, b) <= |q|
  {
    if q != [] { CountBound(f, q[..|q| - 1], b); }
  }

  /** Every 2^32 times ten microseconds the bucket is the same: that is what the cut does. */
  lemma BucketRepeats(delta: nat)
    ensures Bucket(delta + 42949672960000) == Bucket(delta)
  {
    var q, r := delta / 10000, delta % 10000;
    assert delta == 10000 * q + r && delta / 1000 / 10 == q;
    assert (delta + 42949672960000) / 1000 / 10 == q + 0x1_0000_0000;
  }

  /** A latency is in the bucket of its tens of microseconds, capped at 63, iff that number fits
      32 bits or is at least 63 when cut to them. */
  lemma BucketExactly(delta: nat)
    ensures var q := delta / 1000 / 10;
      Bucket(delta) == (if q >= 64 then 63 else q) <==> q < 0x1_0000_0000 || q % 0x1_0000_0000 >= 63
  {
    var q := delta / 1000 / 10;
    if q < 0x1_0000_0000 { assert q % 0x1_0000_0000 == q; }
  }

  lemma {:induction false} SmallestIs(q: seq<nat>)
    requires q != []
    ensures Smallest(q) in q && forall d :: d in q ==> Smallest(q) <= d
  {
    var k := |q| - 1;
    if k > 0 {
      SmallestIs(q[..k]);
      assert q == q[..k] + [q[k]];
    }
  }

  /** The remembered minimum is the true one iff no latency was 0, or the last one was. */
  lemma {:induction false} MinimumExactly(q: seq<nat>)
    ensures q != [] ==> (Remembered(q) == Smallest(q) <==> 0 !in q || q[|q| - 1] == 0)
    ensures q != [] ==> (Remembered(q) == 0 <==> q[|q| - 1] == 0)
  {
    if q != [] {
      var k := |q| - 1;
      assert q == q[..k] + [q[k]];
      SmallestIs(q);
      if k > 0 {
        MinimumExactly(q[..k]);
        SmallestIs(q[..k]);
      }
    }
  }

  /** In terms of a run: the exact minimum under the same condition; the maximum always. */
  lemma MinimumAndMaximum(es: seq<Event>)
    ensures var s := After(es);
      s.deltas != [] ==>
        && (s.min == Smallest(s.deltas) <==> 0 !in s.deltas || s.deltas[|s.deltas| - 1] == 0)
        && s.max in s.deltas && forall d :: d in s.deltas ==> d <= s.max
  {
    Reached(es);
    MinimumExactly(After(es).deltas);
    if After(es).deltas != [] { LargestIs(After(es).deltas); }
  }

  lemma {:induction false} LargestIs(q: seq<nat>)
    requires q != []
    ensures Largest(q) in q && forall d :: d in q ==> d <= Largest(q)
  {
    var k := |q| - 1;
    assert q == q[..k] + [q[k]];
    if k > 0 { LargestIs(q[..k]); } else { assert Largest(q[..k]) == 0; }
  }

  lemma TimesNext(x: nat, k: nat)
    ensures x * (k + 1) == x * k + x
  {
  }

  lemma {:induction false} SumBetween(q: seq<nat>, lo: nat, hi: nat)
    requires forall d :: d in q ==> lo <= d <= hi
    ensures lo * |q| <= Sum(q) <= hi * |q|
  {
    if q != [] {
      var k := |q| - 1;
      assert forall d :: d in q[..k] ==> d in q;
      SumBetween(q[..k], lo, hi);
      assert q[k] in q;
      TimesNext(lo, k);
      TimesNext(hi, k);
    }
  }

  /** The average lies between minimum and maximum, when no latency is 0 and nothing overflowed. */
  lemma AverageBetween(es: seq<Event>)
    ensures var s := After(es);
      0 !in s.deltas && |s.deltas| < 0x1_0000_0000_0000_0000 && Sum(s.deltas) < 0x1_0000_0000_0000_0000 ==>
        s.min * s.count <= s.total <= s.max * s.count
  {
    Reached(es);
    var s := After(es);
    if 0 in s.deltas || |s.deltas| >= 0x1_0000_0000_0000_0000 || Sum(s.deltas) >= 0x1_0000_0000_0000_0000 {
      return;
    }
    WrapSmall(|s.deltas|);
    WrapSmall(Sum(s.deltas));
    if s.deltas != [] {
      MinimumExactly(s.deltas);
      SmallestIs(s.deltas);
      LargestIs(s.deltas);
      SumBetween(s.deltas, s.min, s.max);
    }
  }

  lemma AfterOneMore(es: seq<Event>, e: Event)
    ensures After(es + [e]) == Step(After(es), e)
  {
    ExecOneMore((s, e) => Step(s, e), INIT, es, e);
  }

  /** No event of this thread. */
  predicate Quiet(mid: seq<Event>, tid: u64) { forall i :: 0 <= i < |mid| ==> mid[i].tid != tid }

  /** What other threads do leaves a thread's entry alone. */
  lemma {:induction false} QuietKeeps(s: State, mid: seq<Event>, tid: u64)
    requires Quiet(mid, tid)
    ensures var t := Exec((s, e) => Step(s, e), s, mid);
      (tid in t.starts <==> tid in s.starts) && (tid in t.starts ==> t.starts[tid] == s.starts[tid])
    decreases |mid|
  {
    if mid != [] {
      QuietKeeps(s, mid[..|mid| - 1], tid);
      hide Wrap, Add, Minus, Bucket, Update;
    }
  }

  /** A call that found room is measured as the time from its entry to its exit, whatever other threads
      do meanwhile: this latency is added to the list, counted in one bucket, and in the total. */
  lemma CallMeasured(es: seq<Event>, tid: u64, ts: u64, mid: seq<Event>, now: u64)
    requires Quiet(mid, tid) && ts <= now && (tid in After(es).starts || |After(es).starts| < 10240)
    ensures
      var t := After(es + [Entry(tid, ts)] + mid);
      var u := After(es + [Entry(tid, ts)] + mid + [Exit(tid, now)]);
      u.deltas == t.deltas + [now - ts] && tid !in u.starts && Counts(t, u, now - ts)
  {
    AfterOneMore(es, Entry(tid, ts));
    ExecConcat((s, e) => Step(s, e), INIT, es + [Entry(tid, ts)], mid);
    QuietKeeps(After(es + [Entry(tid, ts)]), mid, tid);
    AfterOneMore(es + [Entry(tid, ts)] + mid, Exit(tid, now));
    Reached(es + [Entry(tid, ts)] + mid);
    hide Inv, Bucket, After, Counts, Wrap;
    var t := After(es + [Entry(tid, ts)] + mid);
    InvLength(t);
    ExitCounts(t, tid, now);
  }

  /** The statistics of `u` are those of `t` with one more latency. */
  predicate Counts(t: State, u: State, d: nat) {
    && u.count == Wrap(t.count as int + 1) && u.total == Wrap(t.total as int + d)
    && u.max == (if d > t.max then d else t.max)
    && u.min == (if t.min == 0 || d < t.min then d else t.min)
    && |t.hist| == |u.hist| == 64
    && forall b :: 0 <= b < 64 ==> u.hist[b] == if b == Bucket(d) then Wrap(t.hist[b] as int + 1) else t.hist[b]
  }

  lemma ExitCounts(t: State, tid: u64, now: u64)
    requires |t.hist| == 64 && tid in t.starts && t.starts[tid] <= now
    ensures var u, d := StepExit(t, tid, now), now - t.starts[tid];
      u.deltas == t.deltas + [d] && tid !in u.starts && Counts(t, u, d)
  {
    assert Bucket(now - t.starts[tid]) < 64;
    hide Bucket, Wrap;
  }

  /** A second exit, with no entry between, changes nothing. */
  lemma UnmatchedExit(es: seq<Event>, tid: u64, first: u64, mid: seq<Event>, now: u64)
    requires Quiet(mid, tid)
    ensures After(es + [Exit(tid, first)] + mid + [Exit(tid, now)]) == After(es + [Exit(tid, first)] + mid)
  {
    AfterOneMore(es, Exit(tid, first));
    ExecConcat((s, e) => Step(s, e), INIT, es + [Exit(tid, first)], mid);
    QuietKeeps(After(es + [Exit(tid, first)]), mid, tid);
    AfterOneMore(es + [Exit(tid, first)] + mid, Exit(tid, now));
    Reached(es);
    hide Wrap, Bucket, Update, After, Add, Minus;
  }

  /** One call of length `delta`. */
  lemma OneCall(es: seq<Event>, delta: u64) returns (fs: seq<Event>)
    requires |After(es).hist| == 64 && After(es).starts == map[]
    ensures After(fs) == StepExit(After(es).(starts := map[1 := 0], entries := After(es).entries + 1), 1, delta)
    ensures After(fs).starts == map[] && |After(fs).hist| == 64
  {
    AfterOneMore(es, Entry(1, 0));
    AfterOneMore(es + [Entry(1, 0)], Exit(1, delta));
    fs := es + [Entry(1, 0)] + [Exit(1, delta)];
    assert Update(map[], 1, 0) == map[1 := 0];
  }

  /** A call of 0 ns and one of 5 ns: the minimum shown is 5. */
  lemma MinimumIsForgotten()
    ensures exists es :: After(es).deltas == [0, 5] && After(es).min == 5
  {
    hide Bucket;
    assert After([]) == INIT;
    var es := OneCall([], 0);
    var fs := OneCall(es, 5);
    assert After(fs).deltas == [0, 5];
  }

  /** A call of 2^32 times ten microseconds: it is counted in the lowest bucket. */
  lemma LongCallLooksShort()
    ensures exists es :: After(es).deltas == [42949672960000] && |After(es).hist| == 64 && After(es).hist[0] == 1
  {
    assert After([]) == INIT;
    assert Bucket(42949672960000) == 0;
    var es := OneCall([], 42949672960000);
    assert After(es).deltas == [42949672960000];
  }

  /** The program's maps. */
  class Tracker {
    var starts: map<u64, u64>
    var hist: array<u64>
    var stats: array<u64>
    ghost var deltas: seq<nat>
    ghost var entries: nat

    ghost predicate Valid()
      reads this, hist, stats
    {
      hist.Length == 64 && stats.Length == 4 && hist != stats && Inv(View())
    }

    ghost function View(): State
      requires stats.Length == 4
      reads this, hist, stats
    {
      State(starts, hist[..], stats[0], stats[1], stats[2], stats[3], deltas, entries)
    }

    constructor ()
      ensures Valid() && View() == INIT
    {
      starts, deltas, entries := map[], [], 0;
      hist := new u64[64](_ => 0);
      stats := new u64[4](_ => 0);
      new;
      assert hist[..] == INIT.hist;
      assert After([]) == INIT;
      Reached([]);
    }

    /** trace_func_entry: the time is stored for this thread if there is room, and the other threads
        keep theirs. */
    method TraceFuncEntry(tid: u64, ts: u64)
      requires Valid()
      modifies this`starts, this`entries
      ensures Valid() && View() == Step(old(View()), Entry(tid, ts))
      ensures tid in old(starts) || |old(starts)| < 10240 ==> tid in starts && starts[tid] == ts
      ensures forall k :: k != tid ==>
        (k in starts <==> k in old(starts)) && (k in starts ==> starts[k] == old(starts)[k])
    {
      EntryKeeps(View(), tid, ts);
      starts := Update(starts, tid, ts);
      entries := entries + 1;
    }

    /** trace_func_exit: with a stored entry, the time since then is measured, and the entry is gone;
        otherwise nothing changes. */
    method TraceFuncExit(tid: u64, now: u64)
      requires Valid()
      modifies this`starts, this`deltas, hist, stats
      ensures Valid() && View() == Step(old(View()), Exit(tid, now))
      ensures tid !in old(starts) ==> View() == old(View())
      ensures tid in old(starts) && old(starts)[tid] <= now ==>
        tid !in starts && deltas == old(deltas) + [now - old(starts)[tid]]
    {
      hide Inv;
      InvLength(View());
      ExitKeeps(View(), tid, now);
      if tid !in starts {
        return;
      }
      var delta := Minus(now, starts[tid]);
      var b := delta / 1000 / 10 % 0x1_0000_0000;
      if b >= 64 {
        b := 63;
      }
      hist[b] := Add(hist[b], 1);
      stats[0] := Add(stats[0], 1);
      stats[1] := Add(stats[1], delta);
      if stats[2] == 0 || delta < stats[2] {
        stats[2] := delta;
      }
      if delta > stats[3] {
        stats[3] := delta;
      }
      starts := Delete(starts, tid);
      deltas := deltas + [delta];
    }
  }

  lemma InvLength(s: State)
    requires Inv(s)
    ensures |s.hist| == 64
  {
  }
}

/** lock_contention: attempts, unlocks and hold times of mutexes. */
module LockContention {
  import opened BpfMaps
  import opened Runs

  /** The maps' contents; the last three are history: attempts, attempts that replaced an open
      one of the same thread, attempts that found the map full. */
  datatype State = State(starts: map<u64, u64>, hist: seq<u64>, attempts: u64, unlocks: u64, deltas: seq<nat>,
                         tries: nat, replaced: nat, lost: nat)

  datatype Event = Lock(tid: u64, ts: u64) | Unlock(tid: u64, now: u64)

  const INIT: State := State(map[], Zeros(32), 0, 0, [], 0, 0, 0)

  /** Decades of microseconds: below 1, below 10, and so on; 5 from ten milliseconds. */
  function Bucket(delta: nat): nat {
    var us := delta / 1000;
    if us < 1 then 0
    else if us < 10 then 1
    else if us < 100 then 2
    else if us < 1000 then 3
    else if us < 10000 then 4
    else 5
  }

  function StepLock(s: State, tid: u64, ts: u64): State {
    State(Update(s.starts, tid, ts), s.hist, Add(s.attempts, 1), s.unlocks, s.deltas, s.tries + 1,
          if tid in s.starts then s.replaced + 1 else s.replaced,
          if tid !in s.starts && |s.starts| >= MAX_ENTRIES then s.lost + 1 else s.lost)
  }

  function StepUnlock(s: State, tid: u64, now: u64): State
    requires |s.hist| == 32
  {
    if tid !in s.starts then s
    else
      var delta := Minus(now, s.starts[tid]);
      var b := Bucket(delta);
      s.(starts := Delete(s.starts, tid), hist := s.hist[b := Add(s.hist[b], 1)], unlocks := Add(s.unlocks, 1),
         deltas := s.deltas + [delta])
  }

  function Step(s: State, e: Event): State {
    match e
    case Lock(tid, ts) => StepLock(s, tid, ts)
    case Unlock(tid, now) => if |s.hist| != 32 then s else StepUnlock(s, tid, now)
  }

  function After(es: seq<Event>): State { Exec((s, e) => Step(s, e), INIT, es) }

  ghost predicate Inv(s: State) {
    && |s.hist| == 32
    && (forall b :: 0 <= b < 32 ==> s.hist[b] == Wrap(CountOf(Bucket, s.deltas, b)))
    && s.attempts == Wrap(s.tries) && s.unlocks == Wrap(|s.deltas|)
    && |s.starts| <= MAX_ENTRIES
    && s.tries == |s.deltas| + |s.starts| + s.replaced + s.lost
  }

  lemma LockKeeps(s: State, tid: u64, ts: u64)
    requires Inv(s)
    ensures Inv(StepLock(s, tid, ts))
  {
    hide Wrap, Add, Update, CountOf;
    UpdateSize(s.starts, tid, ts);
    WrapNext(s.tries, 1);
  }

  lemma UnlockKeeps(s: State, tid: u64, now: u64)
    requires Inv(s)
    ensures Inv(StepUnlock(s, tid, now))
  {
    hide Wrap, Add, Minus, Bucket, Delete;
    if tid in s.starts {
      var d := Minus(now, s.starts[tid]);
      BucketBelow(d);
      assert StepUnlock(s, tid, now).deltas[..|s.deltas|] == s.deltas;
      HistogramMore(Bucket, s.deltas, d, 32);
      DeleteSize(s.starts, tid);
      WrapNext(CountOf(Bucket, s.deltas, Bucket(d)), 1);
      WrapNext(|s.deltas|, 1);
    }
  }

  lemma BucketBelow(d: nat)
    ensures Bucket(d) < 32
  {
  }

  lemma StepKeeps(s: State, e: Event)
    requires Inv(s)
    ensures Inv(Step(s, e))
  {
    match e {
      case Lock(tid, ts) => LockKeeps(s, tid, ts);
      case Unlock(tid, now) => UnlockKeeps(s, tid, now);
    }
  }

  lemma Reached(es: seq<Event>)
    ensures Inv(After(es))
  {
    forall s, e | Inv(s) ensures Inv(Step(s, e)) { StepKeeps(s, e); }
    InitOk();
    hide Step;
    Always((s, e) => Step(s, e), Inv, INIT, es);
  }

  /** Every attempt is accounted for: unlocked, still open, replaced by a later one of the same
      thread, or lost for lack of room. So unlocks and open entries never exceed attempts, and
      equal them exactly when nothing was replaced or lost. */
  lemma AttemptsAccounted(es: seq<Event>)
    ensures var s := After(es);
      s.tries < 0x1_0000_0000_0000_0000 ==>
        && s.unlocks + |s.starts| + s.replaced + s.lost == s.attempts
        && |s.hist| == 32 && Sum(s.hist) == s.unlocks
  {
    Reached(es);
    var s := After(es);
    if s.tries >= 0x1_0000_0000_0000_0000 {
      return;
    }
    WrapSmall(s.tries);
    WrapSmall(|s.deltas|);
    HistogramSum(Bucket, s.deltas, 32);
    forall b | 0 <= b < 32 ensures s.hist[b] == Histogram(Bucket, s.deltas, 32)[b] {
      CountBound(s.deltas, b);
      WrapSmall(CountOf(Bucket, s.deltas, b));
    }
    assert s.hist == Histogram(Bucket, s.deltas, 32);
  }

  lemma {:induction false} CountBound(q: seq<nat>, b: nat)
    ensures CountOf(Bucket, q, b) <= |q|
  {
    if q != [] { CountBound(q[..|q| - 1], b); }
  }

  lemma InitOk()
    ensures Inv(INIT)
  {
    WrapSmall(0);
  }

  /** The decade of a hold time in nanoseconds: below one microsecond, below ten, and so on; the last
      bucket begins at ten milliseconds. */
  lemma BucketIs(delta: nat)
    ensures Bucket(delta) == 0 <==> delta < 1_000
    ensures Bucket(delta) == 1 <==> 1_000 <= delta < 10_000
    ensures Bucket(delta) == 2 <==> 10_000 <= delta < 100_000
    ensures Bucket(delta) == 3 <==> 100_000 <= delta < 1_000_000
    ensures Bucket(delta) == 4 <==> 1_000_000 <= delta < 10_000_000
    ensures Bucket(delta) == 5 <==> 10_000_000 <= delta
  {
  }

  lemma AfterOneMore(es: seq<Event>, e: Event)
    ensures After(es + [e]) == Step(After(es), e)
  {
    ExecOneMore((s, e) => Step(s, e), INIT, es, e);
  }

  /** No event of this thread. */
  predicate Quiet(mid: seq<Event>, tid: u64) { forall i :: 0 <= i < |mid| ==> mid[i].tid != tid }

  /** What other threads do leaves a thread's entry alone. */
  lemma {:induction false} QuietKeeps(s: State, mid: seq<Event>, tid: u64)
    requires Quiet(mid, tid)
    ensures var t := Exec((s, e) => Step(s, e), s, mid);
      (tid in t.starts <==> tid in s.starts) && (tid in t.starts ==> t.starts[tid] == s.starts[tid])
    decreases |mid|
  {
    if mid != [] {
      QuietKeeps(s, mid[..|mid| - 1], tid);
      hide Wrap, Add, Minus, Bucket, Update;
    }
  }

  /** A lock that found room, and the unlock of the same thread: the time between is measured, whatever
      other threads do meanwhile, and counted in one bucket. */
  lemma HoldMeasured(es: seq<Event>, tid: u64, ts: u64, mid: seq<Event>, now: u64)
    requires Quiet(mid, tid) && ts <= now && (tid in After(es).starts || |After(es).starts| < 10240)
    ensures
      var t := After(es + [Lock(tid, ts)] + mid);
      var u := After(es + [Lock(tid, ts)] + mid + [Unlock(tid, now)]);
      u.deltas == t.deltas + [now - ts] && tid !in u.starts && Counts(t, u, now - ts)
  {
    AfterOneMore(es, Lock(tid, ts));
    ExecConcat((s, e) => Step(s, e), INIT, es + [Lock(tid, ts)], mid);
    QuietKeeps(After(es + [Lock(tid, ts)]), mid, tid);
    AfterOneMore(es + [Lock(tid, ts)] + mid, Unlock(tid, now));
    Reached(es + [Lock(tid, ts)] + mid);
    hide Inv, Bucket, After, Counts, Wrap;
    var t := After(es + [Lock(tid, ts)] + mid);
    InvLength(t);
    UnlockCounts(t, tid, now);
  }

  lemma InvLength(s: State)
    requires Inv(s)
    ensures |s.hist| == 32
  {
  }

  /** The statistics of `u` are those of `t` with one more hold time. */
  predicate Counts(t: State, u: State, d: nat) {
    && u.unlocks == Wrap(t.unlocks as int + 1) && u.attempts == t.attempts
    && |t.hist| == |u.hist| == 32
    && forall b :: 0 <= b < 32 ==> u.hist[b] == if b == Bucket(d) then Wrap(t.hist[b] as int + 1) else t.hist[b]
  }

  lemma UnlockCounts(t: State, tid: u64, now: u64)
    requires |t.hist| == 32 && tid in t.starts && t.starts[tid] <= now
    ensures var u, d := StepUnlock(t, tid, now), now - t.starts[tid];
      u.deltas == t.deltas + [d] && tid !in u.starts && Counts(t, u, d)
  {
    BucketBelow(now - t.starts[tid]);
    hide Bucket, Wrap;
  }

  lemma LockMeans(s: State, tid: u64, ts: u64)
    requires Inv(s)
    ensures var t := StepLock(s, tid, ts);
      && t.attempts == Wrap(t.tries)
      && ((tid in t.starts && t.starts[tid] == ts)
          || (tid !in t.starts && |t.starts| == MAX_ENTRIES && t.lost == s.lost + 1))
  {
    hide Wrap, Add, Update, CountOf;
    UpdateSize(s.starts, tid, ts);
    WrapNext(s.tries, 1);
  }

  lemma UnlockMeans(s: State, tid: u64, now: u64)
    requires Inv(s)
    ensures |s.hist| == 32 && Inv(StepUnlock(s, tid, now))
    ensures var t := StepUnlock(s, tid, now);
      tid !in t.starts && t.tries == |t.deltas| + |t.starts| + t.replaced + t.lost
  {
    UnlockKeeps(s, tid, now);
    hide Wrap, Add, Minus, Bucket, CountOf;
  }

  /** The program's maps. */
  class Tracker {
    var starts: map<u64, u64>
    var hist: array<u64>
    var attempts: u64
    var unlocks: u64
    ghost var deltas: seq<nat>
    ghost var tries: nat
    ghost var replaced: nat
    ghost var lost: nat

    ghost function View(): State
      reads this, hist
    {
      State(starts, hist[..], attempts, unlocks, deltas, tries, replaced, lost)
    }

    /** Every attempt is accounted for. */
    ghost predicate Valid()
      reads this, hist
    {
      hist.Length == 32 && Inv(View())
    }

    constructor ()
      ensures Valid() && View() == INIT
    {
      starts, attempts, unlocks, deltas, tries, replaced, lost := map[], 0, 0, [], 0, 0, 0;
      hist := new u64[32](_ => 0);
      new;
      assert hist[..] == INIT.hist;
      InitOk();
    }

    /** trace_mutex_lock_entry: the attempt is counted, and is from now on the open one of its
        thread, unless the map is full of other threads; those keep theirs. */
    method TraceMutexLockEntry(tid: u64, ts: u64)
      requires Valid()
      modifies this`starts, this`attempts, this`tries, this`replaced, this`lost
      ensures Valid() && View() == StepLock(old(View()), tid, ts)
      ensures tries == old(tries) + 1 && attempts == Wrap(tries)
      ensures (tid in starts && starts[tid] == ts)
              || (tid !in starts && |starts| == MAX_ENTRIES && lost == old(lost) + 1)
      ensures forall k :: k != tid ==>
        (k in starts <==> k in old(starts)) && (k in starts ==> starts[k] == old(starts)[k])
    {
      LockKeeps(View(), tid, ts);
      LockMeans(View(), tid, ts);
      hide Wrap, Add, CountOf, Update;
      if tid in starts {
        replaced := replaced + 1;
      } else if |starts| >= MAX_ENTRIES {
        lost := lost + 1;
      }
      starts := Update(starts, tid, ts);
      attempts := Add(attempts, 1);
      tries := tries + 1;
    }

    /** trace_mutex_unlock: closes the attempt of its thread, if one is open, and counts it in one
        bucket; otherwise nothing changes. */
    method TraceMutexUnlock(tid: u64, now: u64)
      requires Valid()
      modifies this`starts, this`unlocks, this`deltas, hist
      ensures Valid() && View() == StepUnlock(old(View()), tid, now)
      ensures tid !in starts && tries == |deltas| + |starts| + replaced + lost
      ensures tid !in old(starts) ==> View() == old(View())
      ensures tid in old(starts) && old(starts)[tid] <= now ==> deltas == old(deltas) + [now - old(starts)[tid]]
    {
      hide Inv;
      UnlockMeans(View(), tid, now);
      if tid !in starts {
        return;
      }
      var delta := Minus(now, starts[tid]);
      var us := delta / 1000;
      var b := 0;
      if us < 1 {
        b := 0;
      } else if us < 10 {
        b := 1;
      } else if us < 100 {
        b := 2;
      } else if us < 1000 {
        b := 3;
      } else if us < 10000 {
        b := 4;
      } else {
        b := 5;
      }
      hist[b] := Add(hist[b], 1);
      unlocks := Add(unlocks, 1);
      starts := Delete(starts, tid);
      deltas := deltas + [delta];
    }
  }
}

/** memleak_tracker: addresses handed out and not yet given back. */
module MemLeak {
  import opened BpfMaps
  import opened Runs

  /** The map and the two counters; then history: how many allocations and frees were counted,
      how many allocations replaced an entry or found no room, how many frees had no entry. */
  datatype State = State(allocs: map<u64, u64>, allocCount: u64, freeCount: u64,
                         taken: nat, given: nat, replaced: nat, lost: nat, unknown: nat)

  datatype Event = KmallocRet(addr: u64) | Kfree(addr: u64)

  const INIT: State := State(map[], 0, 0, 0, 0, 0, 0, 0)

  function StepAlloc(s: State, addr: u64): State {
    if addr == 0 then s
    else State(Update(s.allocs, addr, 0), Add(s.allocCount, 1), s.freeCount, s.taken + 1, s.given,
               if addr in s.allocs then s.replaced + 1 else s.replaced,
               if addr !in s.allocs && |s.allocs| >= MAX_ENTRIES then s.lost + 1 else s.lost, s.unknown)
  }

  function StepFree(s: State, addr: u64): State {
    if addr == 0 then s
    else State(Delete(s.allocs, addr), s.allocCount, Add(s.freeCount, 1), s.taken, s.given + 1, s.replaced, s.lost,
               if addr in s.allocs then s.unknown else s.unknown + 1)
  }

  function Step(s: State, e: Event): State {
    match e
    case KmallocRet(addr) => StepAlloc(s, addr)
    case Kfree(addr) => StepFree(s, addr)
  }

  function After(es: seq<Event>): State { Exec((s, e) => Step(s, e), INIT, es) }

  ghost predicate Inv(s: State) {
    && s.allocCount == Wrap(s.taken) && s.freeCount == Wrap(s.given)
    && |s.allocs| <= MAX_ENTRIES
    && s.taken + s.unknown == s.given + |s.allocs| + s.replaced + s.lost
  }

  lemma StepKeeps(s: State, e: Event)
    requires Inv(s)
    ensures Inv(Step(s, e))
  {
    hide Wrap, Add, Update, Delete;
    UpdateSize(s.allocs, e.addr, 0);
    DeleteSize(s.allocs, e.addr);
    WrapNext(s.taken, 1);
    WrapNext(s.given, 1);
  }

  lemma Reached(es: seq<Event>)
    ensures Inv(After(es))
  {
    forall s, e | Inv(s) ensures Inv(Step(s, e)) { StepKeeps(s, e); }
    InitOk();
    hide Step;
    Always((s, e) => Step(s, e), Inv, INIT, es);
  }

  /** Allocations minus frees is the number of live entries iff as many frees were of unknown
      addresses as allocations were replaced or lost. */
  lemma BalanceExactly(es: seq<Event>)
    ensures var s := After(es);
      s.taken < 0x1_0000_0000_0000_0000 && s.given < 0x1_0000_0000_0000_0000 ==>
        (s.allocCount - s.freeCount == |s.allocs| <==> s.unknown == s.replaced + s.lost)
  {
    Reached(es);
    var s := After(es);
    if s.taken < 0x1_0000_0000_0000_0000 && s.given < 0x1_0000_0000_0000_0000 {
      WrapSmall(s.taken);
      WrapSmall(s.given);
    }
  }

  /** What is really allocated after a trace. */
  function Live(es: seq<Event>): set<u64> {
    if es == [] then {}
    else
      var live := Live(es[..|es| - 1]);
      match es[|es| - 1]
      case KmallocRet(addr) => if addr == 0 then live else live + {addr}
      case Kfree(addr) => live - {addr}
  }

  /** The allocator returns no address that is in use, only live addresses (or NULL) are freed,
      and there is always room for what is live. */
  ghost predicate WellFormed(es: seq<Event>) {
    es == [] ||
    (&& WellFormed(es[..|es| - 1]) && |Live(es)| <= MAX_ENTRIES
     && match es[|es| - 1]
        case KmallocRet(addr) => addr !in Live(es[..|es| - 1])
        case Kfree(addr) => addr == 0 || addr in Live(es[..|es| - 1]))
  }

  lemma AfterLast(es: seq<Event>)
    requires es != []
    ensures After(es) == Step(After(es[..|es| - 1]), es[|es| - 1])
  {
  }

  /** On well-formed traces the map is exactly what is live. */
  lemma {:induction false} MapIsLive(es: seq<Event>)
    requires WellFormed(es)
    ensures var s := After(es); s.allocs.Keys == Live(es) && s.replaced == s.lost == s.unknown == 0
  {
    if es != [] {
      var k := |es| - 1;
      AfterLast(es);
      hide After, Step;
      MapIsLive(es[..k]);
      TracksOneMore(After(es[..k]), Live(es[..k]), es[k]);
      NullNeverLive(es[..k]);
    }
  }

  lemma {:induction false} NullNeverLive(es: seq<Event>)
    ensures 0 !in Live(es)
  {
    if es != [] { NullNeverLive(es[..|es| - 1]); }
  }

  /** There, allocations minus frees is the number of live allocations. */
  lemma TracksLive(es: seq<Event>)
    requires WellFormed(es)
    ensures var s := After(es);
      && s.allocs.Keys == Live(es)
      && (s.taken < 0x1_0000_0000_0000_0000 && s.given < 0x1_0000_0000_0000_0000 ==>
            s.allocCount - s.freeCount == |Live(es)|)
  {
    MapIsLive(es);
    SizeOfKeys(After(es).allocs);
    BalanceExactly(es);
  }

  lemma SizeOfKeys(m: map<u64, u64>)
    ensures |m.Keys| == |m|
  {
  }

  lemma TracksOneMore(s: State, live: set<u64>, e: Event)
    requires s.allocs.Keys == live && s.replaced == s.lost == s.unknown == 0
    requires match e
      case KmallocRet(addr) => addr !in live && |(if addr == 0 then live else live + {addr})| <= MAX_ENTRIES
      case Kfree(addr) => addr == 0 || addr in live
    ensures var u := Step(s, e);
      && u.replaced == u.lost == u.unknown == 0
      && u.allocs.Keys == match e
        case KmallocRet(addr) => if addr == 0 then live else live + {addr}
        case Kfree(addr) => if addr == 0 then live else live - {addr}
  {
    match e {
      case KmallocRet(addr) =>
        if addr != 0 { assert Update(s.allocs, addr, 0).Keys == live + {addr}; }
      case Kfree(addr) =>
        if addr != 0 { assert Delete(s.allocs, addr).Keys == live - {addr}; }
    }
  }

  lemma InitOk()
    ensures Inv(INIT)
  {
    WrapSmall(0);
  }

  lemma AllocMeans(s: State, addr: u64)
    requires Inv(s) && addr != 0
    ensures var t := StepAlloc(s, addr);
      t.allocCount == Wrap(t.taken) && (addr in t.allocs || (|t.allocs| == MAX_ENTRIES && t.lost == s.lost + 1))
  {
    hide Wrap, Add, Update;
    UpdateSize(s.allocs, addr, 0);
    WrapNext(s.taken, 1);
  }

  lemma FreeMeans(s: State, addr: u64)
    requires Inv(s) && addr != 0
    ensures var t := StepFree(s, addr); t.freeCount == Wrap(t.given) && addr !in t.allocs
  {
    hide Wrap, Add;
    WrapNext(s.given, 1);
  }

  /** The program's maps. */
  class Tracker {
    var allocs: map<u64, u64>
    var allocCount: u64
    var freeCount: u64
    ghost var taken: nat
    ghost var given: nat
    ghost var replaced: nat
    ghost var lost: nat
    ghost var unknown: nat

    ghost function View(): State
      reads this
    {
      State(allocs, allocCount, freeCount, taken, given, replaced, lost, unknown)
    }

    /** The counters and what happened to every allocation add up. */
    ghost predicate Valid()
      reads this
    {
      Inv(View())
    }

    constructor ()
      ensures Valid() && View() == INIT
    {
      allocs, allocCount, freeCount := map[], 0, 0;
      taken, given, replaced, lost, unknown := 0, 0, 0, 0, 0;
      new;
      InitOk();
    }

    /** trace_kmalloc_ret: an allocation is counted and from now on tracked, unless the map is full
        of others, which stay; a failed one changes nothing. */
    method TraceKmallocRet(addr: u64)
      requires Valid()
      modifies this
      ensures Valid() && View() == StepAlloc(old(View()), addr)
      ensures addr != 0 ==> taken == old(taken) + 1 && allocCount == Wrap(taken)
      ensures addr != 0 ==> addr in allocs || (|allocs| == MAX_ENTRIES && lost == old(lost) + 1)
      ensures addr != 0 && (addr in old(allocs) || |old(allocs)| < 10240) ==> addr in allocs
      ensures forall a :: a != addr || addr == 0 ==> (a in allocs <==> a in old(allocs))
    {
      StepKeeps(View(), KmallocRet(addr));
      if addr != 0 { AllocMeans(View(), addr); }
      hide Wrap, Add, Update, Delete, Inv;
      if addr == 0 {
        return;
      }
      if addr in allocs {
        replaced := replaced + 1;
      } else if |allocs| >= MAX_ENTRIES {
        lost := lost + 1;
      }
      allocs := Update(allocs, addr, 0);
      allocCount := Add(allocCount, 1);
      taken := taken + 1;
    }

    /** trace_kfree: a free is counted, and its address is no longer tracked; if it was not, the
        free is one of an unknown address. */
    method TraceKfree(addr: u64)
      requires Valid()
      modifies this
      ensures Valid() && View() == StepFree(old(View()), addr)
      ensures addr != 0 ==> given == old(given) + 1 && freeCount == Wrap(given) && addr !in allocs
      ensures forall a :: a != addr || addr == 0 ==> (a in allocs <==> a in old(allocs))
      ensures unknown - old(unknown) == if addr != 0 && addr !in old(allocs) then 1 else 0
    {
      hide Wrap, Add, Update, Inv;
      StepKeeps(View(), Kfree(addr));
      if addr != 0 { FreeMeans(View(), addr); }
      if addr == 0 {
        return;
      }
      if addr !in allocs {
        unknown := unknown + 1;
      }
      allocs := Delete(allocs, addr);
      freeCount := Add(freeCount, 1);
      given := given + 1;
    }
  }
}
