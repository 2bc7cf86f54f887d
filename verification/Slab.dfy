/** The scrubbing allocation wrapper: objects are cleared before they go back to the slab cache,
    so that one taken from it is as clean as a newly constructed one. */
module Slab {
  import opened Runs

  type u32 = x: int | 0 <= x < 0x1_0000_0000

  const NET_MAGIC: u32 := 0xDECE1234
  const FREED_MAGIC: u32 := 0x12345678
  const NAME_SIZE: nat := 12

  /** The characters of a C string. */
  type Text = s: string | '\0' !in s witness ""

  /** struct net_device. */
  datatype Record = Record(magic: u32, deviceId: u32, name: seq<char>, ipAddr: u32, flags: u32)

  function Zeros(n: nat): (z: seq<char>)
    ensures |z| == n && forall i :: 0 <= i < n ==> z[i] == '\0'
  {
    seq(n, i => '\0')
  }

  function Blank(magic: u32): Record { Record(magic, 0, Zeros(NAME_SIZE), 0, 0) }

  /** strncpy of `n` bytes: the string cut at `n`, padded with NULs. */
  function Padded(s: Text, n: nat): (r: seq<char>)
    ensures |r| == n
  {
    if |s| >= n then s[..n] else s + Zeros(n - |s|)
  }

  /** fill_device_data: all but the last byte of the name is written. */
  function Fill(r: Record, id: u32, name: Text, ip: u32): Record
    requires |r.name| == NAME_SIZE
  {
    Record(NET_MAGIC, id, Padded(name, NAME_SIZE - 1) + [r.name[NAME_SIZE - 1]], ip, (0xACE50000 + id) % 0x1_0000_0000)
  }

  /** The C string at the start of a name field. */
  function CString(name: seq<char>): string {
    if name == [] || name[0] == '\0' then "" else [name[0]] + CString(name[1..])
  }

  lemma {:induction false} CStringIs(s: Text, rest: seq<char>)
    requires rest != [] && rest[0] == '\0'
    ensures CString(s + rest) == s
  {
    if s == "" {
      assert s + rest == rest;
    } else {
      assert s[0] in s;
      assert (s + rest)[1..] == s[1..] + rest;
      assert forall c :: c in s[1..] ==> c in s;
      CStringIs(s[1..], rest);
    }
  }

  // ----- the cache -----

  /** The objects of the cache in the order they were constructed, those in the cache, and
      (history) those that have ever been freed. */
  datatype State = State(records: seq<Record>, free: set<nat>, freedOnce: set<nat>)

  /** `Grow`: a new slab, on whose object the constructor runs. */
  datatype Event = Grow | Alloc(i: nat) | FillIn(i: nat, id: u32, name: Text, ip: u32) | Free(i: nat)

  const INIT: State := State([], {}, {})

  predicate Out(s: State, i: nat) { i < |s.records| && i !in s.free }

  /** Only who holds the object fills it. */
  function StepFill(s: State, i: nat, id: u32, name: Text, ip: u32): State {
    if Out(s, i) && |s.records[i].name| == NAME_SIZE
    then s.(records := s.records[i := Fill(s.records[i], id, name, ip)]) else s
  }

  function Step(s: State, e: Event): State {
    match e
    case Grow => s.(records := s.records + [Blank(NET_MAGIC)], free := s.free + {|s.records|})
    case Alloc(i) => s.(free := s.free - {i})
    case FillIn(i, id, name, ip) => StepFill(s, i, id, name, ip)
    case Free(i) =>
      if Out(s, i)
      then State(s.records[i := Blank(FREED_MAGIC)], s.free + {i}, s.freedOnce + {i}) else s
  }

  function After(es: seq<Event>): State { Exec((s, e) => Step(s, e), INIT, es) }

  predicate Clean(r: Record) { r.deviceId == 0 && r.name == Zeros(NAME_SIZE) && r.ipAddr == 0 && r.flags == 0 }

  predicate Ended(r: Record) { |r.name| == NAME_SIZE && r.name[NAME_SIZE - 1] == '\0' }

  ghost predicate Inv(s: State) {
    && (forall i :: i in s.free ==> i < |s.records| && Clean(s.records[i]))
    && (forall i :: i in s.free ==> s.records[i].magic == if i in s.freedOnce then FREED_MAGIC else NET_MAGIC)
    && (forall i :: 0 <= i < |s.records| ==> Ended(s.records[i]))
    && (forall i :: i in s.freedOnce ==> i < |s.records|)
  }

  lemma StepKeeps(s: State, e: Event)
    requires Inv(s)
    ensures Inv(Step(s, e))
  {
  }

  lemma Reached(es: seq<Event>)
    ensures Inv(After(es))
  {
    forall s, e | Inv(s) ensures Inv(Step(s, e)) { StepKeeps(s, e); }
    hide Step;
    Always((s, e) => Step(s, e), Inv, INIT, es);
  }

  /** Whatever happened before, an object that may be handed out has no old data in it; its magic
      is NET_MAGIC exactly when it has never been freed. */
  lemma HandedOutClean(es: seq<Event>, i: nat)
    requires i in After(es).free
    ensures var s := After(es);
      && i < |s.records| && Clean(s.records[i])
      && (s.records[i].magic == NET_MAGIC <==> i !in s.freedOnce)
      && (s.records[i].magic == FREED_MAGIC <==> i in s.freedOnce)
  {
    Reached(es);
  }

  /** In every reachable state every name ends within its field; after a fill it reads as the
      given name, cut at eleven characters, and every other field is what was asked for. */
  lemma FilledReadsBack(es: seq<Event>, i: nat, id: u32, name: Text, ip: u32)
    requires Out(After(es), i)
    ensures Ended(After(es).records[i])
    ensures var r := Step(After(es), FillIn(i, id, name, ip)).records[i];
      && CString(r.name) == (if |name| <= 11 then name else name[..11])
      && (forall j :: 0 <= j < |r.name| ==> r.name[j] == if j < 11 && j < |name| then name[j] else '\0')
      && r.deviceId == id && r.ipAddr == ip && r.magic == 0xDECE1234
      && (r.flags == 0xACE50000 + id || r.flags == 0xACE50000 + id - 0x1_0000_0000)
  {
    Reached(es);
    var r := Step(After(es), FillIn(i, id, name, ip)).records[i];
    if |name| < NAME_SIZE {
      assert r.name == name + (Zeros(NAME_SIZE - 1 - |name|) + ['\0']);
      CStringIs(name, Zeros(NAME_SIZE - 1 - |name|) + ['\0']);
    } else {
      assert forall c :: c in name[..NAME_SIZE - 1] ==> c in name;
      assert r.name == name[..NAME_SIZE - 1] + ['\0'];
      CStringIs(name[..NAME_SIZE - 1], ['\0']);
    }
  }

  lemma FreeIsClean(s: State, i: nat)
    requires Inv(s) && i in s.free
    ensures i < |s.records| && Clean(s.records[i])
    ensures s.records[i].magic == if i in s.freedOnce then FREED_MAGIC else NET_MAGIC
  {
  }

  /** What is handed out is not handed out again before it has been freed, whatever else happens; it
      then is again on offer. */
  lemma {:induction false} OneHolder(es: seq<Event>, i: nat, fs: seq<Event>)
    requires i in After(es).free && forall j :: 0 <= j < |fs| ==> fs[j] != Free(i)
    ensures var s := After(es + [Alloc(i)] + fs); Out(s, i) && i in Step(s, Free(i)).free
    decreases |fs|
  {
    ExecOneMore((s, e) => Step(s, e), INIT, es, Alloc(i));
    Reached(es);
    if fs == [] {
      assert es + [Alloc(i)] + fs == es + [Alloc(i)];
    } else {
      var k := |fs| - 1;
      OneHolder(es, i, fs[..k]);
      ExecOneMore((s, e) => Step(s, e), INIT, es + [Alloc(i)] + fs[..k], fs[k]);
      assert es + [Alloc(i)] + fs == es + [Alloc(i)] + fs[..k] + [fs[k]];
    }
  }

  /** An object that was handed out and freed once is handed out again without NET_MAGIC. */
  lemma FreedMagicShows()
    ensures exists es :: 0 in After(es).free && |After(es).records| == 1 && After(es).records[0].magic == FREED_MAGIC
  {
    assert After([]) == INIT;
    ExecOneMore((s, e) => Step(s, e), INIT, [], Grow);
    ExecOneMore((s, e) => Step(s, e), INIT, [] + [Grow], Alloc(0));
    ExecOneMore((s, e) => Step(s, e), INIT, [] + [Grow] + [Alloc(0)], Free(0));
    var es := [] + [Grow] + [Alloc(0)] + [Free(0)];
    assert After(es).records == [Blank(FREED_MAGIC)];
  }

  // ----- objects in place -----

  /** One object of the cache. */
  class NetDevice {
    var magic: u32
    var deviceId: u32
    const name: array<char>
    var ipAddr: u32
    var flags: u32

    ghost function View(): Record
      reads this, name
    {
      Record(magic, deviceId, name[..], ipAddr, flags)
    }

    /** net_device_constructor. */
    constructor ()
      ensures View() == Blank(NET_MAGIC) && fresh(name)
    {
      magic, deviceId, ipAddr, flags := NET_MAGIC, 0, 0, 0;
      name := new char[NAME_SIZE](_ => '\0');
    }

    /** What net_device_free clears. */
    method Clear()
      requires name.Length == NAME_SIZE
      modifies this, name
      ensures View() == Blank(FREED_MAGIC)
    {
      magic, deviceId := FREED_MAGIC, 0;
      var i := 0;
      while i < name.Length
        modifies name
        invariant 0 <= i <= name.Length && forall j :: 0 <= j < i ==> name[j] == '\0'
      {
        name[i] := '\0';
        i := i + 1;
      }
      ipAddr, flags := 0, 0;
    }

    /** strncpy into the name field. */
    method Strncpy(s: Text, n: nat)
      requires n <= name.Length
      modifies name
      ensures name[..] == Padded(s, n) + old(name[n..])
    {
      var i := 0;
      while i < n
        invariant 0 <= i <= n
        invariant forall j :: 0 <= j < i ==> name[j] == if j < |s| then s[j] else '\0'
        invariant name[n..] == old(name[n..])
      {
        name[i] := if i < |s| then s[i] else '\0';
        i := i + 1;
      }
      assert name[..] == name[..n] + name[n..];
      assert name[..n] == Padded(s, n);
    }

    method FillDeviceData(id: u32, s: Text, ip: u32)
      requires name.Length == NAME_SIZE
      modifies this, name
      ensures View() == Fill(old(View()), id, s, ip)
    {
      magic := NET_MAGIC;
      deviceId := id;
      Strncpy(s, NAME_SIZE - 1);
      ipAddr := ip;
      flags := (0xACE50000 + id) % 0x1_0000_0000;
    }
  }

  /** The cache and everyone holding objects from it. */
  class Cache {
    var objects: seq<NetDevice>
    var free: set<nat>
    ghost var freedOnce: set<nat>

    ghost function Names(): set<object>
      reads this, objects
    {
      set i | 0 <= i < |objects| :: objects[i].name
    }

    /** Different objects, with different name fields. */
    ghost predicate Apart()
      reads this, objects
    {
      && (forall i, j :: 0 <= i < j < |objects| ==> objects[i] != objects[j] && objects[i].name != objects[j].name)
      && forall i :: 0 <= i < |objects| ==> objects[i].name.Length == NAME_SIZE
    }

    ghost function Records(): seq<Record>
      reads this, objects, Names()
    {
      seq(|objects|, i requires 0 <= i < |objects| reads this, objects, Names() => objects[i].View())
    }

    ghost function View(): State
      reads this, objects, Names()
    {
      State(Records(), free, freedOnce)
    }

    ghost predicate Valid()
      reads this, objects, Names()
    {
      Apart() && Inv(View())
    }

    constructor ()
      ensures Valid() && View() == INIT
    {
      objects, free, freedOnce := [], {}, {};
    }

    /** The cache constructs an object for a new slab. */
    method GrowSlab()
      requires Valid()
      modifies this
      ensures Valid() && View() == Step(old(View()), Grow)
      ensures free == old(free) + {|old(objects)|} && Records() == old(Records()) + [Blank(0xDECE1234)]
      ensures |objects| == |old(objects)| + 1 && old(objects) <= objects && fresh(objects[|old(objects)|])
    {
      hide Inv;
      StepKeeps(View(), Grow);
      var d := new NetDevice();
      ghost var was := Records();
      assert forall i :: 0 <= i < |objects| ==> objects[i].View() == was[i];
      free := free + {|objects|};
      objects := objects + [d];
      assert Records() == was + [Blank(NET_MAGIC)];
      assert View() == Step(old(View()), Grow);
    }

    /** net_device_alloc: one of the free objects, or none. What it hands out is clean. */
    method NetDeviceAlloc(pick: nat) returns (dev: NetDevice?)
      requires Valid()
      modifies this`free
      ensures Valid() && View() == Step(old(View()), Alloc(pick))
      ensures dev != null <==> pick in old(free)
      ensures free == old(free) - {pick}
      ensures dev != null ==> pick < |objects| && dev == objects[pick] && Clean(dev.View())
      ensures dev != null ==> dev.magic == if pick in freedOnce then FREED_MAGIC else NET_MAGIC
    {
      hide Inv;
      StepKeeps(View(), Alloc(pick));
      ghost var was := Records();
      dev := null;
      if pick in free {
        FreeIsClean(View(), pick);
        assert was[pick] == objects[pick].View();
        dev := objects[pick];
        free := free - {pick};
      }
      assert Records() == was;
    }

    /** fill_device_data on an object that was handed out. */
    method FillDeviceData(i: nat, id: u32, s: Text, ip: u32)
      requires Valid() && i < |objects| && i !in free
      modifies objects[i], objects[i].name
      ensures Valid() && View() == StepFill(old(View()), i, id, s, ip)
    {
      hide Inv;
      StepKeeps(View(), FillIn(i, id, s, ip));
      ghost var was := Records();
      objects[i].FillDeviceData(id, s, ip);
      assert Records() == was[i := objects[i].View()];
    }

    /** net_device_free: cleared, then back to the cache; nothing to do for NULL (here -1). */
    method NetDeviceFree(i: int)
      requires Valid() && (i < 0 || (i < |objects| && i !in free))
      modifies this`free, this`freedOnce
      modifies if i < 0 then {} else {objects[i] as object, objects[i].name}
      ensures Valid() && View() == if i < 0 then old(View()) else Step(old(View()), Free(i))
      ensures free == old(free) + (if i < 0 then {} else {i})
      ensures 0 <= i < |objects| ==> objects[i].View() == Blank(0x12345678)
    {
      hide Inv;
      if i < 0 {
        return;
      }
      StepKeeps(View(), Free(i));
      ghost var was := Records();
      objects[i].Clear();
      free := free + {i};
      freedOnce := freedOnce + {i};
      assert Records() == was[i := objects[i].View()];
    }
  }
}
