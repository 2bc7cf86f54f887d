/** The panic notifier's dump: messages appended in place to a fixed buffer with vsnprintf, whose
    result is the full length of the message even when only part of it fitted. */
module CrashDump {

  const CRASH_DUMP_SIZE: nat := 4096

  /** A formatted message. It holds no NUL. */
  type Text = s: string | '\0' !in s witness ""

  function Concat(log: seq<Text>): Text {
    if log == [] then "" else Concat(log[..|log| - 1]) + log[|log| - 1]
  }

  /** The offset after these appends: it grows by whole messages until it passes the end. */
  function Offset(log: seq<Text>): nat {
    if log == [] then 0
    else
      var before := Offset(log[..|log| - 1]);
      if before >= CRASH_DUMP_SIZE - 1 then before else before + |log[|log| - 1]|
  }

  /** How many characters there is room for. */
  function Kept(log: seq<Text>): nat {
    if |Concat(log)| < CRASH_DUMP_SIZE then |Concat(log)| else CRASH_DUMP_SIZE - 1
  }

  /** The dump: the first 4095 characters of all messages. */
  function Dump(log: seq<Text>): Text { Concat(log)[..Kept(log)] }

  /** While there is room the offset is the length so far; from then on it stands still. */
  lemma {:induction false} OffsetIs(log: seq<Text>)
    ensures Offset(log) < CRASH_DUMP_SIZE - 1 <==> |Concat(log)| < CRASH_DUMP_SIZE - 1
    ensures |Concat(log)| < CRASH_DUMP_SIZE - 1 ==> Offset(log) == |Concat(log)|
    ensures Kept(log) <= Offset(log) <= |Concat(log)|
  {
    if log != [] { OffsetIs(log[..|log| - 1]); }
  }

  /** The message at `k` begins inside the buffer and does not end inside it. */
  predicate CutAt(log: seq<Text>, k: nat)
    requires k < |log|
  {
    |Concat(log[..k])| < CRASH_DUMP_SIZE - 1 < |Concat(log[..k + 1])|
  }

  predicate Cut(log: seq<Text>) { exists k: nat :: k < |log| && CutAt(log, k) }

  lemma CutLast(log: seq<Text>)
    requires log != []
    ensures Cut(log) <==> Cut(log[..|log| - 1]) || CutAt(log, |log| - 1)
  {
    var p := log[..|log| - 1];
    forall k: nat | k < |p| ensures CutAt(p, k) == CutAt(log, k) {
      assert p[..k] == log[..k] && p[..k + 1] == log[..k + 1];
    }
    if CutAt(log, |log| - 1) { assert Cut(log); }
  }

  /** The size reported at the end is the length of the dump iff no message was cut. */
  lemma {:induction false} SizeIsRight(log: seq<Text>)
    ensures Offset(log) == |Dump(log)| <==> !Cut(log)
  {
    OffsetIs(log);
    if log != [] {
      var p := log[..|log| - 1];
      OffsetIs(p);
      SizeIsRight(p);
      CutLast(log);
      assert log[..|log|] == log;
    }
  }

  /** `n` letters. */
  function Letters(n: nat): (t: Text)
    ensures |t| == n
  {
    if n == 0 then "" else Letters(n - 1) + "x"
  }

  /** One message of 5000 characters: 4095 are kept, 5000 are reported. */
  lemma LongMessageIsMisreported()
    ensures var log := [Letters(5000)];
      Cut(log) && |Dump(log)| == 4095 && Offset(log) == 5000
  {
    hide Letters;
    var log := [Letters(5000)];
    assert log[..0] == [] && log[..1] == log;
    assert Concat(log) == Concat([]) + Letters(5000);
    assert Concat([]) == "";
    assert CutAt(log, 0);
  }

  lemma ConcatMore(log: seq<Text>, m: Text)
    ensures Concat(log + [m]) == Concat(log) + m
    ensures Offset(log + [m]) == if Offset(log) >= CRASH_DUMP_SIZE - 1 then Offset(log) else Offset(log) + |m|
  {
    assert (log + [m])[..|log|] == log;
  }

  /** What is in the dump stays there, whatever is appended. */
  lemma {:induction false} DumpIsPrefix(log: seq<Text>, more: seq<Text>)
    ensures Dump(log) <= Dump(log + more)
    decreases |more|
  {
    if more == [] {
      assert log + more == log;
    } else {
      var k := |more| - 1;
      DumpIsPrefix(log, more[..k]);
      assert log + more == log + more[..k] + [more[k]];
      ConcatMore(log + more[..k], more[k]);
    }
  }

  /** Once the dump is full, nothing changes it. */
  lemma {:induction false} FullStaysFull(log: seq<Text>, more: seq<Text>)
    requires Offset(log) >= CRASH_DUMP_SIZE - 1
    ensures Dump(log + more) == Dump(log) && Offset(log + more) == Offset(log)
    decreases |more|
  {
    if more == [] {
      assert log + more == log;
    } else {
      var k := |more| - 1;
      FullStaysFull(log, more[..k]);
      assert log + more == log + more[..k] + [more[k]];
      ConcatMore(log + more[..k], more[k]);
      OffsetIs(log + more[..k]);
    }
  }

  // ----- the messages of one panic -----

  datatype Option<T> = None | Some(value: T)

  /** The formatted values the handler collects. */
  datatype Task = Task(pid: Text, comm: Text, state: Text)

  datatype Info = Info(time: Text, sysname: Text, release: Text, version: Text, machine: Text, node: Text,
                       task: Option<Task>, total: Text, free: Text, buffers: Text, cpu: Text, online: Text)

  const BANNER: Text := "=== KERNEL PANIC CRASH DUMP ===\n"
  const TASK_BANNER: Text := "\n=== Current Task ===\n"
  const MEM_BANNER: Text := "\n=== Memory Info ===\n"
  const CPU_BANNER: Text := "\n=== CPU Info ===\n"

  function Line(name: Text, value: Text, end: Text): Text { name + value + end }

  /** The messages of save_sysinfo, save_task, save_mem and save_cpu; no task, no section. */
  function SysinfoMessages(i: Info): seq<Text> {
    [BANNER, Line("Time: ", i.time, " UTC\n"), Line("Kernel: ", Line(i.sysname, " ", i.release), "\n")]
    + MachineMessages(i)
  }

  function MachineMessages(i: Info): seq<Text> {
    [Line("Version: ", i.version, "\n"), Line("Machine: ", i.machine, "\n"), Line("Node: ", i.node, "\n")]
  }

  function TaskMessages(task: Option<Task>): seq<Text> {
    match task
    case None => []
    case Some(t) =>
      [TASK_BANNER, Line("PID: ", t.pid, "\n"), Line("Comm: ", t.comm, "\n"), Line("State: ", t.state, "\n")]
  }

  function MemMessages(i: Info): seq<Text> {
    [MEM_BANNER, Line("Total RAM: ", i.total, " KB\n"), Line("Free RAM: ", i.free, " KB\n"),
     Line("Buffers: ", i.buffers, " KB\n")]
  }

  function CpuMessages(i: Info): seq<Text> {
    [CPU_BANNER, Line("CPU: ", i.cpu, "\n"), Line("Online CPUs: ", i.online, "\n")]
  }

  function Messages(i: Info): seq<Text> {
    SysinfoMessages(i) + TaskMessages(i.task) + MemMessages(i) + CpuMessages(i)
  }

  lemma {:induction false} ConcatJoin(log: seq<Text>, more: seq<Text>)
    ensures Concat(log + more) == Concat(log) + Concat(more)
    decreases |more|
  {
    if more == [] {
      assert log + more == log;
    } else {
      var k := |more| - 1;
      assert Concat(more) == Concat(more[..k]) + more[k];
      hide Concat;
      ConcatJoin(log, more[..k]);
      assert log + more == log + more[..k] + [more[k]];
      ConcatMore(log + more[..k], more[k]);
    }
  }

  lemma ConcatThree(x: Text, y: Text, z: Text)
    ensures Concat([x, y, z]) == x + y + z
  {
    assert [x, y, z] == [] + [x] + [y] + [z];
    ConcatMore([], x);
    ConcatMore([] + [x], y);
    ConcatMore([] + [x] + [y], z);
    assert "" + x == x;
  }

  lemma ConcatFour(w: Text, x: Text, y: Text, z: Text)
    ensures Concat([w, x, y, z]) == w + x + y + z
  {
    ConcatThree(w, x, y);
    assert [w, x, y, z] == [w, x, y] + [z];
    ConcatMore([w, x, y], z);
  }

  lemma SysinfoText(i: Info)
    ensures Concat(SysinfoMessages(i)) ==
      ("=== KERNEL PANIC CRASH DUMP ===\n" + ("Time: " + i.time + " UTC\n")
       + ("Kernel: " + (i.sysname + " " + i.release) + "\n"))
      + (("Version: " + i.version + "\n") + ("Machine: " + i.machine + "\n") + ("Node: " + i.node + "\n"))
  {
    ConcatThree(BANNER, Line("Time: ", i.time, " UTC\n"), Line("Kernel: ", Line(i.sysname, " ", i.release), "\n"));
    ConcatThree(Line("Version: ", i.version, "\n"), Line("Machine: ", i.machine, "\n"), Line("Node: ", i.node, "\n"));
    hide Concat;
    ConcatJoin(
      [BANNER, Line("Time: ", i.time, " UTC\n"), Line("Kernel: ", Line(i.sysname, " ", i.release), "\n")],
      MachineMessages(i));
  }

  lemma TaskText(t: Task)
    ensures Concat(TaskMessages(Some(t))) ==
      "\n=== Current Task ===\n" + ("PID: " + t.pid + "\n") + ("Comm: " + t.comm + "\n") + ("State: " + t.state + "\n")
  {
    hide Concat;
    ConcatFour(TASK_BANNER, Line("PID: ", t.pid, "\n"), Line("Comm: ", t.comm, "\n"), Line("State: ", t.state, "\n"));
  }

  lemma MemText(i: Info)
    ensures Concat(MemMessages(i)) ==
      "\n=== Memory Info ===\n" + ("Total RAM: " + i.total + " KB\n") + ("Free RAM: " + i.free + " KB\n")
      + ("Buffers: " + i.buffers + " KB\n")
  {
    hide Concat;
    ConcatFour(MEM_BANNER, Line("Total RAM: ", i.total, " KB\n"), Line("Free RAM: ", i.free, " KB\n"),
               Line("Buffers: ", i.buffers, " KB\n"));
  }

  lemma CpuText(i: Info)
    ensures Concat(CpuMessages(i)) ==
      "\n=== CPU Info ===\n" + ("CPU: " + i.cpu + "\n") + ("Online CPUs: " + i.online + "\n")
  {
    hide Concat;
    ConcatThree(CPU_BANNER, Line("CPU: ", i.cpu, "\n"), Line("Online CPUs: ", i.online, "\n"));
  }

  /** What a panic writes: every value behind its label, section by section; the section on the task
      only if there is one. */
  lemma PanicText(i: Info)
    ensures Concat(Messages(i)) ==
      ("=== KERNEL PANIC CRASH DUMP ===\n" + ("Time: " + i.time + " UTC\n")
       + ("Kernel: " + (i.sysname + " " + i.release) + "\n"))
      + (("Version: " + i.version + "\n") + ("Machine: " + i.machine + "\n") + ("Node: " + i.node + "\n"))
      + (match i.task
         case None => ""
         case Some(t) =>
           "\n=== Current Task ===\n" + ("PID: " + t.pid + "\n") + ("Comm: " + t.comm + "\n")
           + ("State: " + t.state + "\n"))
      + ("\n=== Memory Info ===\n" + ("Total RAM: " + i.total + " KB\n") + ("Free RAM: " + i.free + " KB\n")
         + ("Buffers: " + i.buffers + " KB\n"))
      + ("\n=== CPU Info ===\n" + ("CPU: " + i.cpu + "\n") + ("Online CPUs: " + i.online + "\n"))
  {
    hide SysinfoMessages, TaskMessages, MemMessages, CpuMessages, Concat;
    SysinfoText(i);
    match i.task {
      case None => NoMessages(i);
      case Some(t) => TaskText(t);
    }
    MemText(i);
    CpuText(i);
    ConcatJoin(SysinfoMessages(i) + TaskMessages(i.task) + MemMessages(i), CpuMessages(i));
    ConcatJoin(SysinfoMessages(i) + TaskMessages(i.task), MemMessages(i));
    ConcatJoin(SysinfoMessages(i), TaskMessages(i.task));
  }

  lemma NoMessages(i: Info)
    requires i.task.None?
    ensures Concat(TaskMessages(i.task)) == ""
  {
  }

  /** The fields of utsname hold at most 64 characters; the name of a task and formatted numbers
      are shorter still. */
  predicate Bounded(i: Info) {
    && |i.time| <= 64 && |i.sysname| <= 64 && |i.release| <= 64
    && |i.version| <= 64 && |i.machine| <= 64 && |i.node| <= 64
    && (i.task.Some? ==> |i.task.value.pid| <= 64 && |i.task.value.comm| <= 64 && |i.task.value.state| <= 64)
    && |i.total| <= 64 && |i.free| <= 64 && |i.buffers| <= 64 && |i.cpu| <= 64 && |i.online| <= 64
  }

  lemma {:induction false} TotalBound(log: seq<Text>, m: nat)
    requires forall i :: 0 <= i < |log| ==> |log[i]| <= m
    ensures |Concat(log)| <= |log| * m
  {
    if log != [] {
      var k := |log| - 1;
      TotalBound(log[..k], m);
      assert |log| * m == k * m + m;
    }
  }

  predicate Short(log: seq<Text>) { forall k :: 0 <= k < |log| ==> |log[k]| <= 140 }

  lemma BannersAreShort()
    ensures |BANNER| <= 140 && |TASK_BANNER| <= 140 && |MEM_BANNER| <= 140 && |CPU_BANNER| <= 140
  {
  }

  lemma LineLength(name: Text, value: Text, end: Text)
    ensures |Line(name, value, end)| == |name| + |value| + |end|
  {
  }

  lemma LinesAreShort(name: Text, value: Text, end: Text)
    requires |name| <= 11 && |value| <= 64 && |end| <= 5
    ensures |Line(name, value, end)| <= 140
  {
  }

  lemma SysinfoIsShort(i: Info)
    requires Bounded(i)
    ensures |SysinfoMessages(i)| == 6 && Short(SysinfoMessages(i))
  {
    BannersAreShort();
    hide Line;
    LinesAreShort("Time: ", i.time, " UTC\n");
    LineLength(i.sysname, " ", i.release);
    LineLength("Kernel: ", Line(i.sysname, " ", i.release), "\n");
    LinesAreShort("Version: ", i.version, "\n");
    LinesAreShort("Machine: ", i.machine, "\n");
    LinesAreShort("Node: ", i.node, "\n");
  }

  lemma TaskIsShort(i: Info)
    requires Bounded(i)
    ensures |TaskMessages(i.task)| <= 4 && Short(TaskMessages(i.task))
  {
    BannersAreShort();
    hide Line;
    if i.task.Some? {
      LinesAreShort("PID: ", i.task.value.pid, "\n");
      LinesAreShort("Comm: ", i.task.value.comm, "\n");
      LinesAreShort("State: ", i.task.value.state, "\n");
    }
  }

  lemma MemIsShort(i: Info)
    requires Bounded(i)
    ensures |MemMessages(i)| == 4 && Short(MemMessages(i))
  {
    BannersAreShort();
    hide Line;
    LinesAreShort("Total RAM: ", i.total, " KB\n");
    LinesAreShort("Free RAM: ", i.free, " KB\n");
    LinesAreShort("Buffers: ", i.buffers, " KB\n");
  }

  lemma CpuIsShort(i: Info)
    requires Bounded(i)
    ensures |CpuMessages(i)| == 3 && Short(CpuMessages(i))
  {
    BannersAreShort();
    hide Line;
    LinesAreShort("CPU: ", i.cpu, "\n");
    assert |"Online CPUs: "| == 13;
    LineLength("Online CPUs: ", i.online, "\n");
  }

  lemma MessagesAreShort(i: Info)
    requires Bounded(i)
    ensures |Messages(i)| <= 17 && Short(Messages(i))
  {
    hide SysinfoMessages, TaskMessages, MemMessages, CpuMessages, Bounded;
    SysinfoIsShort(i);
    TaskIsShort(i);
    MemIsShort(i);
    CpuIsShort(i);
  }

  /** So the messages of a panic always fit: nothing is cut, and the reported size is right. */
  lemma PanicFits(i: Info)
    requires Bounded(i)
    ensures |Concat(Messages(i))| < CRASH_DUMP_SIZE - 1
    ensures Dump(Messages(i)) == Concat(Messages(i)) && Offset(Messages(i)) == |Dump(Messages(i))|
  {
    hide Messages, Concat, Offset;
    MessagesAreShort(i);
    TotalBound(Messages(i), 140);
    OffsetIs(Messages(i));
  }

  // ----- the buffer -----

  /** `b` is the dump of `log`, then only NULs. */
  ghost predicate Holds(b: seq<char>, log: seq<Text>) {
    && |b| == CRASH_DUMP_SIZE
    && b[..Kept(log)] == Dump(log)
    && forall i :: Kept(log) <= i < CRASH_DUMP_SIZE ==> b[i] == '\0'
  }

  /** crash_dump_buffer and crash_dump_offset; `log` is what was appended since the reset. */
  class Buffer {
    const buffer: array<char>
    var offset: nat
    ghost var log: seq<Text>

    ghost predicate Valid()
      reads this, buffer
    {
      Holds(buffer[..], log) && offset == Offset(log)
    }

    constructor ()
      ensures Valid() && log == [] && fresh(buffer)
    {
      buffer := new char[CRASH_DUMP_SIZE](_ => '\0');
      offset, log := 0, [];
    }

    /** vsnprintf into the `size` bytes from `start`: as much of `m` as fits, a NUL after it, and
        the whole length as the result. */
    method Vsnprintf(start: nat, size: nat, m: Text) returns (len: nat)
      requires size > 0 && start + size <= buffer.Length
      modifies buffer
      ensures len == |m|
      ensures var n := if |m| < size then |m| else size - 1;
        buffer[..] == old(buffer[..start]) + m[..n] + ['\0'] + old(buffer[start + n + 1..])
    {
      ghost var was := buffer[..];
      var n := if |m| < size then |m| else size - 1;
      var i := 0;
      while i < n
        invariant 0 <= i <= n
        invariant forall j :: 0 <= j < i ==> buffer[start + j] == m[j]
        invariant forall j :: 0 <= j < buffer.Length && !(start <= j < start + i) ==> buffer[j] == was[j]
      {
        buffer[start + i] := m[i];
        i := i + 1;
      }
      buffer[start + n] := '\0';
      assert buffer[..] == was[..start] + m[..n] + ['\0'] + was[start + n + 1..];
      return |m|;
    }

    /** crash_dump_append: the size passed on is never negative, nothing is written outside. */
    method Append(m: Text)
      requires Valid()
      modifies this, buffer
      ensures Valid() && log == old(log) + [m]
    {
      hide Holds, Offset, Concat;
      ghost var before := log;
      log := log + [m];
      ConcatMore(before, m);
      SameBuffer(buffer[..], before);
      if offset >= CRASH_DUMP_SIZE - 1 {
        Unmoved(buffer[..], before, m);
        return;
      }
      ghost var was := buffer[..];
      var len := Vsnprintf(offset, CRASH_DUMP_SIZE - offset, m);
      Appended(was, buffer[..], before, m);
      if len > 0 {
        offset := offset + len;
      }
    }

    /** The four collecting functions. */
    method AppendAll(ms: seq<Text>)
      requires Valid()
      modifies this, buffer
      ensures Valid() && log == old(log) + ms
    {
      hide Holds, Offset;
      ghost var before := log;
      var i := 0;
      while i < |ms|
        invariant 0 <= i <= |ms| && Valid() && log == before + ms[..i]
      {
        assert ms[..i + 1] == ms[..i] + [ms[i]];
        Append(ms[i]);
        i := i + 1;
      }
      assert ms[..i] == ms;
    }

    /** memset to zero, from a buffer in any state. */
    method Reset()
      requires buffer.Length == CRASH_DUMP_SIZE
      modifies this, buffer
      ensures Valid() && log == []
    {
      offset, log := 0, [];
      var i := 0;
      while i < CRASH_DUMP_SIZE
        modifies buffer
        invariant 0 <= i <= CRASH_DUMP_SIZE
        invariant forall j :: 0 <= j < i ==> buffer[j] == '\0'
      {
        buffer[i] := '\0';
        i := i + 1;
      }
    }

    /** What show_dump prints with %s: the characters before the first NUL. */
    method PrintedText() returns (text: string)
      requires Valid()
      ensures text == Dump(log)
    {
      text := "";
      var i := 0;
      NulEnds(buffer[..], log);
      while buffer[i] != '\0'
        invariant 0 <= i <= Kept(log) < buffer.Length && text == buffer[..i]
        decreases buffer.Length - i
      {
        assert i < Kept(log);
        text := text + [buffer[i]];
        i := i + 1;
      }
      assert i == Kept(log);
    }

    /** panic_event_handler: whatever was in the buffer, it then holds the dump of this panic's
        messages, NUL-terminated. With the field sizes there are, that is all of them, and the
        printed size is right. */
    method PanicEventHandler(info: Info) returns (text: string, size: nat)
      requires buffer.Length == CRASH_DUMP_SIZE
      modifies this, buffer
      ensures Valid() && log == Messages(info)
      ensures text == Dump(Messages(info)) && size == Offset(Messages(info))
      ensures size == |text| <==> !Cut(Messages(info))
      ensures Bounded(info) ==> text == Concat(Messages(info)) && size == |text|
    {
      hide Holds, Offset, Concat, SysinfoMessages, MemMessages, CpuMessages, Bounded, Cut, Dump;
      Reset();
      AppendAll(SysinfoMessages(info));
      if info.task.Some? {
        AppendAll(TaskMessages(info.task));
      }
      AppendAll(MemMessages(info));
      AppendAll(CpuMessages(info));
      assert log == Messages(info);
      text := PrintedText();
      size := offset;
      SizeIsRight(log);
      if Bounded(info) { PanicFits(info); }
    }
  }

  /** Kept characters are no NUL, the one after them is. */
  lemma NulEnds(b: seq<char>, log: seq<Text>)
    requires Holds(b, log)
    ensures b[Kept(log)] == '\0' && forall i :: 0 <= i < Kept(log) ==> b[i] != '\0'
  {
    forall i | 0 <= i < Kept(log) ensures b[i] != '\0' {
      assert b[i] == b[..Kept(log)][i] == Concat(log)[i];
      assert Concat(log)[i] in Concat(log);
    }
  }

  lemma SameBuffer(b: seq<char>, log: seq<Text>)
    requires Holds(b, log)
    ensures |b| == CRASH_DUMP_SIZE
  {
  }

  /** A skipped append leaves the right dump. */
  lemma Unmoved(b: seq<char>, log: seq<Text>, m: Text)
    requires Holds(b, log) && Offset(log) >= CRASH_DUMP_SIZE - 1
    ensures Holds(b, log + [m])
  {
    FullStaysFull(log, [m]);
    OffsetIs(log);
    ConcatMore(log, m);
  }

  /** Text put after text, with only NULs behind it. */
  lemma PutText(was: seq<char>, now: seq<char>, c: seq<char>, m: seq<char>, rest: seq<char>)
    requires |was| == |now| && |c| <= |was| && was[..|c|] == c
    requires forall i :: |c| <= i < |was| ==> was[i] == '\0'
    requires |c| + |m| + 1 + |rest| == |was| && rest == was[|c| + |m| + 1..]
    requires now == was[..|c|] + m + ['\0'] + rest
    ensures now[..|c| + |m|] == c + m
    ensures forall i :: |c| + |m| <= i < |now| ==> now[i] == '\0'
  {
    assert now == c + m + (['\0'] + rest);
    forall i | |c| + |m| <= i < |now| ensures now[i] == '\0' {
      assert now[i] == (['\0'] + rest)[i - |c| - |m|];
    }
  }

  /** One vsnprintf at the offset turns the dump into the dump with one more message. */
  lemma Appended(was: seq<char>, now: seq<char>, log: seq<Text>, m: Text)
    requires Holds(was, log) && Offset(log) < CRASH_DUMP_SIZE - 1
    requires var size := CRASH_DUMP_SIZE - Offset(log);
      var n := if |m| < size then |m| else size - 1;
      now == was[..Offset(log)] + m[..n] + ['\0'] + was[Offset(log) + n + 1..]
    ensures Holds(now, log + [m])
  {
    OffsetIs(log);
    ConcatMore(log, m);
    hide Offset, Concat;
    var size := CRASH_DUMP_SIZE - Offset(log);
    var n := if |m| < size then |m| else size - 1;
    var c := Concat(log);
    PutText(was, now, c, m[..n], was[|c| + n + 1..]);
    assert (c + m)[..|c| + n] == c + m[..n];
  }
}
