/** The classic BPF program of the seccomp demo: an interpreter, the kernel's validity check, and
    the allow-list layout that filter[] is one case of. The jump offsets of a sock_filter are
    eight bits wide, and that is where the layout stops being right. */
module Seccomp {

  type u32 = x: int | 0 <= x < 0x1_0000_0000
  type u8 = x: int | 0 <= x < 0x100

  const AUDIT_ARCH_X86_64: u32 := 0xC000003E
  const SECCOMP_RET_ALLOW: u32 := 0x7fff0000
  const SECCOMP_RET_ERRNO: u32 := 0x00050000
  const EPERM: u32 := 1
  const DENY: u32 := 0x00050001
  const BPF_MAXINSNS := 4096
  const SYS_READ: u32 := 0
  const SYS_WRITE: u32 := 1
  const SYS_EXIT: u32 := 60
  const SYS_EXIT_GROUP: u32 := 231

  datatype Insn = LdAbs(k: u32) | Jeq(k: u32, jt: u8, jf: u8) | Ret(k: u32)

  /** BPF_JUMP: the offsets are stored in eight bits each. */
  function Jump(k: u32, jt: nat, jf: nat): Insn { Jeq(k, jt % 0x100, jf % 0x100) }

  /** struct seccomp_data as its sixteen 32-bit words: nr, arch, then the rest. */
  datatype Data = Data(nr: u32, arch: u32, rest: seq<u32>)

  function Word(d: Data, offset: u32): u32 {
    if offset == 0 then d.nr
    else if offset == 4 then d.arch
    else if offset % 4 == 0 && offset / 4 - 2 < |d.rest| then d.rest[offset / 4 - 2]
    else 0
  }

  /** What a program decides, or that it ran past its last instruction. */
  datatype Outcome = Verdict(value: u32) | PastEnd

  function Run(prog: seq<Insn>, d: Data, pc: nat, a: u32): Outcome
    decreases |prog| - pc
  {
    if pc >= |prog| then PastEnd
    else match prog[pc]
      case LdAbs(k) => Run(prog, d, pc + 1, Word(d, k))
      case Jeq(k, jt, jf) => Run(prog, d, pc + 1 + (if a == k then jt else jf), a)
      case Ret(k) => Verdict(k)
  }

  /** The program's decision on one system call. */
  function Decide(prog: seq<Insn>, d: Data): Outcome { Run(prog, d, 0, 0) }

  /** What the kernel asks of a filter before it installs it. */
  predicate InsnOk(prog: seq<Insn>, i: nat)
    requires i < |prog|
  {
    match prog[i]
    case LdAbs(k) => k % 4 == 0 && k < 64
    case Jeq(_, jt, jf) => i + 1 + jt < |prog| && i + 1 + jf < |prog|
    case Ret(_) => true
  }

  predicate Check(prog: seq<Insn>) {
    && 0 < |prog| <= BPF_MAXINSNS
    && (forall i :: 0 <= i < |prog| ==> InsnOk(prog, i))
    && prog[|prog| - 1].Ret?
  }

  /** A program that passes the check always ends in one of its own return instructions. */
  lemma {:induction false} CheckedDecides(prog: seq<Insn>, d: Data, pc: nat, a: u32)
    requires Check(prog) && pc < |prog|
    ensures Run(prog, d, pc, a).Verdict? && Ret(Run(prog, d, pc, a).value) in prog
    decreases |prog| - pc
  {
    assert InsnOk(prog, pc);
    match prog[pc]
    case LdAbs(k) => CheckedDecides(prog, d, pc + 1, Word(d, k));
    case Jeq(k, jt, jf) => CheckedDecides(prog, d, pc + 1 + (if a == k then jt else jf), a);
    case Ret(k) =>
  }

  // ----- the layout -----

  /** The i-th compare jumps over the remaining compares and the deny to the allow. */
  function Compares(list: seq<u32>): (r: seq<Insn>)
    ensures |r| == |list| && forall i :: 0 <= i < |list| ==> r[i] == Jump(list[i], |list| - i, 0)
  {
    seq(|list|, i requires 0 <= i < |list| => Jump(list[i], |list| - i, 0))
  }

  /** `foreign` is the offset of the jump taken for any other architecture. */
  function Layout(list: seq<u32>, foreign: nat): seq<Insn> {
    [LdAbs(4), Jump(AUDIT_ARCH_X86_64, 0, foreign), LdAbs(0)] + Compares(list) + [Ret(DENY), Ret(SECCOMP_RET_ALLOW)]
  }

  const SHIPPED: seq<Insn> := [
    LdAbs(4),
    Jeq(AUDIT_ARCH_X86_64, 0, 7),
    LdAbs(0),
    Jeq(SYS_READ, 4, 0),
    Jeq(SYS_WRITE, 3, 0),
    Jeq(SYS_EXIT, 2, 0),
    Jeq(SYS_EXIT_GROUP, 1, 0),
    Ret(SECCOMP_RET_ERRNO + EPERM),
    Ret(SECCOMP_RET_ALLOW)]

  const SHIPPED_LIST: seq<u32> := [SYS_READ, SYS_WRITE, SYS_EXIT, SYS_EXIT_GROUP]

  lemma ShippedIsLayout()
    ensures SHIPPED == Layout(SHIPPED_LIST, 7)
  {
    var l := Layout(SHIPPED_LIST, 7);
    assert |l| == 9;
    assert forall i :: 0 <= i < 4 ==> l[3 + i] == Compares(SHIPPED_LIST)[i];
    assert l[3] == SHIPPED[3] && l[4] == SHIPPED[4] && l[5] == SHIPPED[5] && l[6] == SHIPPED[6];
    assert forall i :: 0 <= i < 9 ==> l[i] == SHIPPED[i];
  }

  lemma LayoutAt(list: seq<u32>, foreign: nat)
    ensures var l := Layout(list, foreign);
      var n := |list|;
      && |l| == n + 5
      && l[0] == LdAbs(4) && l[1] == Jump(AUDIT_ARCH_X86_64, 0, foreign) && l[2] == LdAbs(0)
      && (forall i :: 0 <= i < n ==> l[3 + i] == Jump(list[i], n - i, 0))
      && l[n + 3] == Ret(DENY) && l[n + 4] == Ret(SECCOMP_RET_ALLOW)
  {
    forall i | 0 <= i < |list| ensures Layout(list, foreign)[3 + i] == Compares(list)[i] {}
  }

  /** The layout is installable iff it is not too long and the foreign jump, cut to eight bits,
      reaches at most the last instruction. */
  lemma InstallableExactly(list: seq<u32>, foreign: nat)
    ensures Check(Layout(list, foreign)) <==> |list| + 5 <= BPF_MAXINSNS && foreign % 0x100 <= |list| + 2
  {
    hide Layout;
    var l, n := Layout(list, foreign), |list|;
    LayoutAt(list, foreign);
    if n + 5 <= BPF_MAXINSNS && foreign % 0x100 <= n + 2 {
      forall i | 0 <= i < |l| ensures InsnOk(l, i) {
        if 3 <= i < n + 3 { assert l[3 + (i - 3)] == Jump(list[i - 3], n - (i - 3), 0); }
      }
    }
    assert Check(l) ==> InsnOk(l, 1);
  }

  /** filter[] as shipped: the foreign jump of 7 goes one past the end, so it is refused. */
  lemma ShippedIsRefused()
    ensures !Check(SHIPPED) && Check(AllowList(SHIPPED_LIST))
  {
    ShippedIsLayout();
    InstallableExactly(SHIPPED_LIST, 7);
    InstallableExactly(SHIPPED_LIST, |SHIPPED_LIST| + 1);
  }

  // ----- what the compares decide -----

  /** One compare. */
  lemma CompareStep(list: seq<u32>, foreign: nat, d: Data, i: nat, a: u32)
    requires i < |list|
    ensures Run(Layout(list, foreign), d, 3 + i, a) ==
      Run(Layout(list, foreign), d, if a == list[i] then 4 + i + (|list| - i) % 0x100 else 4 + i, a)
  {
    LayoutAt(list, foreign);
    hide Layout, Compares;
  }

  /** The two returns at the end, and what lies beyond. */
  lemma LastStep(list: seq<u32>, foreign: nat, d: Data, pc: nat, a: u32)
    requires pc >= |list| + 3
    ensures Run(Layout(list, foreign), d, pc, a) ==
      if pc == |list| + 3 then Verdict(DENY) else if pc == |list| + 4 then Verdict(SECCOMP_RET_ALLOW) else PastEnd
  {
    LayoutAt(list, foreign);
    hide Layout, Compares;
  }

  /** Compares that do not match are passed over. */
  lemma {:induction false} PassOver(list: seq<u32>, foreign: nat, d: Data, i: nat, j: nat, a: u32)
    requires i <= j <= |list| && a !in list[i..j]
    ensures Run(Layout(list, foreign), d, 3 + i, a) == Run(Layout(list, foreign), d, 3 + j, a)
    decreases j - i
  {
    hide Run, Layout;
    if i < j {
      CompareStep(list, foreign, d, i, a);
      assert a != list[i] by { assert list[i] == list[i..j][0]; }
      assert a !in list[i + 1..j] by { assert list[i + 1..j] == list[i..j][1..]; }
      PassOver(list, foreign, d, i + 1, j, a);
    }
  }

  /** Without a match left the system call is denied. */
  lemma NoMatch(list: seq<u32>, foreign: nat, d: Data, i: nat, a: u32)
    requires i <= |list| && a !in list[i..]
    ensures Run(Layout(list, foreign), d, 3 + i, a) == Verdict(DENY)
  {
    hide Run, Layout;
    assert list[i..|list|] == list[i..];
    PassOver(list, foreign, d, i, |list|, a);
    LastStep(list, foreign, d, |list| + 3, a);
  }

  /** The position of the first match at or after `i`. */
  lemma FirstMatch(list: seq<u32>, i: nat, a: u32) returns (j: nat)
    requires i <= |list| && a in list[i..]
    ensures i <= j < |list| && list[j] == a && a !in list[i..j]
    decreases |list| - i
  {
    if list[i] == a {
      j := i;
    } else {
      assert list[i..] == [list[i]] + list[i + 1..];
      j := FirstMatch(list, i + 1, a);
      assert list[i..j] == [list[i]] + list[i + 1..j];
    }
  }

  /** From compare `i` on, if no more than 255 are left: allowed iff one of them matches. */
  lemma FromCompare(list: seq<u32>, foreign: nat, d: Data, i: nat, a: u32)
    requires i <= |list| <= i + 0xff
    ensures Run(Layout(list, foreign), d, 3 + i, a) == Verdict(if a in list[i..] then SECCOMP_RET_ALLOW else DENY)
  {
    hide Run, Layout;
    if a in list[i..] {
      var j := FirstMatch(list, i, a);
      PassOver(list, foreign, d, i, j, a);
      CompareStep(list, foreign, d, j, a);
      LastStep(list, foreign, d, |list| + 4, a);
    } else {
      NoMatch(list, foreign, d, i, a);
    }
  }

  /** The third instruction loads the number. */
  lemma ReloadNr(list: seq<u32>, foreign: nat, d: Data)
    ensures Run(Layout(list, foreign), d, 2, d.arch) == Run(Layout(list, foreign), d, 3, d.nr)
  {
    LayoutAt(list, foreign);
    hide Layout, Compares;
  }

  /** The first instructions: the architecture decides where to go on. */
  lemma Start(list: seq<u32>, foreign: nat, d: Data)
    ensures d.arch == AUDIT_ARCH_X86_64 ==>
      Decide(Layout(list, foreign), d) == Run(Layout(list, foreign), d, 3, d.nr)
    ensures d.arch != AUDIT_ARCH_X86_64 ==>
      Decide(Layout(list, foreign), d) == Run(Layout(list, foreign), d, 2 + foreign % 0x100, d.arch)
  {
    var l := Layout(list, foreign);
    LayoutAt(list, foreign);
    hide Layout, Compares;
    assert Run(l, d, 0, 0) == Run(l, d, 1, d.arch);
    if d.arch == AUDIT_ARCH_X86_64 {
      assert Run(l, d, 1, d.arch) == Run(l, d, 2, d.arch);
      assert Run(l, d, 2, d.arch) == Run(l, d, 3, d.nr);
    }
  }

  predicate NoDuplicates(list: seq<u32>) { forall i, j :: 0 <= i < j < |list| ==> list[i] != list[j] }

  /** On x86_64 a call is allowed iff it is listed, whatever the foreign jump. */
  lemma X86Path(list: seq<u32>, foreign: nat, d: Data)
    requires |list| <= 0xff && d.arch == AUDIT_ARCH_X86_64
    ensures Decide(Layout(list, foreign), d) == Verdict(if d.nr in list then SECCOMP_RET_ALLOW else DENY)
  {
    hide Run, Layout;
    Start(list, foreign, d);
    FromCompare(list, foreign, d, 0, d.nr);
    assert list[0..] == list;
  }

  /** filter[] on x86_64: read, write, exit and exit_group (0, 1, 60, 231) are allowed, everything else
      fails with EPERM (1). Elsewhere it runs off its end. */
  lemma ShippedDecides(d: Data)
    ensures d.arch == 0xC000003E ==>
      Decide(SHIPPED, d) == Verdict(if d.nr in {0, 1, 60, 231} then 0x7fff0000 else 0x00050001)
    ensures d.arch != 0xC000003E ==> Decide(SHIPPED, d) == PastEnd
  {
    ShippedIsLayout();
    if d.arch == AUDIT_ARCH_X86_64 {
      X86Path(SHIPPED_LIST, 7, d);
    } else {
      ForeignPath(SHIPPED_LIST, 7, d);
    }
  }

  /** The x86_64 half of the layout is right for every call iff at most 255 numbers are listed:
      with more, a compare 256 before the allow jumps nowhere. */
  lemma X86Exactly(list: seq<u32>, foreign: nat)
    requires NoDuplicates(list)
    ensures |list| <= 0xff <==> forall d: Data :: d.arch == AUDIT_ARCH_X86_64 ==>
      Decide(Layout(list, foreign), d) == Verdict(if d.nr in list then SECCOMP_RET_ALLOW else DENY)
  {
    hide Run, Layout;
    if |list| <= 0xff {
      forall d: Data | d.arch == AUDIT_ARCH_X86_64
        ensures Decide(Layout(list, foreign), d) == Verdict(if d.nr in list then SECCOMP_RET_ALLOW else DENY)
      {
        X86Path(list, foreign, d);
      }
    } else {
      var i := |list| - 0x100;
      var d := Data(list[i], AUDIT_ARCH_X86_64, []);
      Start(list, foreign, d);
      PassOver(list, foreign, d, 0, i, d.nr);
      CompareStep(list, foreign, d, i, d.nr);
      NoMatch(list, foreign, d, i + 1, d.nr);
      assert Decide(Layout(list, foreign), d) == Verdict(DENY);
      assert d.nr in list;
    }
  }

  /** Where each foreign jump leads: 0 to the same test of the number, 1 to n into the compares
      with the architecture still loaded, n + 1 to the deny, n + 2 to the allow, more past the end. */
  lemma ForeignPath(list: seq<u32>, foreign: nat, d: Data)
    requires |list| <= 0xff && foreign <= 0xff && d.arch != AUDIT_ARCH_X86_64
    ensures Decide(Layout(list, foreign), d) ==
      if foreign == 0 then Verdict(if d.nr in list then SECCOMP_RET_ALLOW else DENY)
      else if foreign <= |list| then Verdict(if d.arch in list[foreign - 1..] then SECCOMP_RET_ALLOW else DENY)
      else if foreign == |list| + 1 then Verdict(DENY)
      else if foreign == |list| + 2 then Verdict(SECCOMP_RET_ALLOW)
      else PastEnd
  {
    hide Run, Layout;
    Start(list, foreign, d);
    if foreign == 0 {
      ReloadNr(list, foreign, d);
      FromCompare(list, foreign, d, 0, d.nr);
      assert list[0..] == list;
    } else if foreign <= |list| {
      FromCompare(list, foreign, d, foreign - 1, d.arch);
    } else {
      LastStep(list, foreign, d, foreign + 2, d.arch);
    }
  }

  /** The foreign jump leads to the deny, or into compares none of which can match. */
  predicate DeniesForeign(list: seq<u32>, foreign: nat) {
    if foreign == 0 then list == []
    else foreign <= |list| + 1 && forall i :: foreign - 1 <= i < |list| ==> list[i] == AUDIT_ARCH_X86_64
  }

  /** Every other architecture is denied iff that is so. */
  lemma ForeignDeniedExactly(list: seq<u32>, foreign: nat)
    requires |list| <= 0xff && foreign <= 0xff
    ensures (forall d: Data :: d.arch != AUDIT_ARCH_X86_64 ==> Decide(Layout(list, foreign), d) == Verdict(DENY))
            <==> DeniesForeign(list, foreign)
  {
    if DeniesForeign(list, foreign) {
      forall d: Data | d.arch != AUDIT_ARCH_X86_64 ensures Decide(Layout(list, foreign), d) == Verdict(DENY) {
        ForeignPath(list, foreign, d);
      }
    } else if foreign == 0 {
      ForeignPath(list, foreign, Data(list[0], 0, []));
    } else if foreign > |list| + 1 {
      ForeignPath(list, foreign, Data(0, 0, []));
    } else {
      var i :| foreign - 1 <= i < |list| && list[i] != AUDIT_ARCH_X86_64;
      assert list[i] == list[foreign - 1..][i - (foreign - 1)];
      ForeignPath(list, foreign, Data(0, list[i], []));
    }
  }

  /** The layout with the foreign jump meant to reach the deny. */
  function AllowList(list: seq<u32>): seq<Insn> { Layout(list, |list| + 1) }

  /** The program decides this call as the list says. */
  predicate Right(list: seq<u32>, d: Data) {
    Decide(AllowList(list), d) ==
    Verdict(if d.arch == AUDIT_ARCH_X86_64 && d.nr in list then SECCOMP_RET_ALLOW else DENY)
  }

  /** The whole layout: it decides every call as
      the list says iff at most 254 numbers are listed. At 255 the foreign jump is cut to 0. */
  lemma LayoutRightExactly(list: seq<u32>)
    requires NoDuplicates(list)
    ensures (forall d: Data :: Right(list, d)) <==> |list| <= 0xfe
  {
    hide Run, Layout;
    var n := |list|;
    if n <= 0xfe {
      forall d: Data ensures Right(list, d) {
        LayoutRight(list, d);
      }
    } else if n == 0xff {
      var d := Data(list[0], 0, []);
      Start(list, n + 1, d);
      ReloadNr(list, n + 1, d);
      FromCompare(list, n + 1, d, 0, d.nr);
      assert list[0..] == list;
      assert !Right(list, d);
    } else {
      X86Exactly(list, n + 1);
      var d: Data :| d.arch == AUDIT_ARCH_X86_64 &&
        Decide(Layout(list, n + 1), d) != Verdict(if d.nr in list then SECCOMP_RET_ALLOW else DENY);
      assert !Right(list, d);
    }
  }

  /** Also with repeated numbers. */
  lemma LayoutRight(list: seq<u32>, d: Data)
    requires |list| <= 0xfe
    ensures Right(list, d) && Check(AllowList(list))
  {
    InstallableExactly(list, |list| + 1);
    if d.arch == AUDIT_ARCH_X86_64 {
      X86Path(list, |list| + 1, d);
    } else {
      ForeignPath(list, |list| + 1, d);
    }
  }
}
