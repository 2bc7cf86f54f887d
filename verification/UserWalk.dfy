/** The userwalk module: find the physical address behind a user virtual address by walking the
    four-level x86_64 page table, and put the text there in upper case through the direct map.
    The translation it is measured against is that of section 4.5 of volume 3A of the Intel 64
    and IA-32 Architectures Software Developer's Manual. */
module UserWalk {
  import opened Words

  type u64 = x: int | 0 <= x < 0x1_0000_0000_0000_0000
  type byte = x: int | 0 <= x < 0x100

  const EFAULT := -14
  const EINVAL := -22
  const ESRCH := -3
  const MAX_ADDR_LEN: nat := 32
  const TEST_LEN: nat := 9

  // masks, as the kernel defines them for four-level paging
  const PAGE_LOW: u64 := 0xfff
  const PMD_MASK: u64 := 0xffff_ffff_ffe0_0000
  const PMD_LOW: u64 := 0x1f_ffff
  const PUD_MASK: u64 := 0xffff_ffff_c000_0000
  const PUD_LOW: u64 := 0x3fff_ffff
  const PTE_PFN_MASK: u64 := 0x000f_ffff_ffff_f000
  const PMD_PAGE_MASK: u64 := 0x000f_ffff_ffe0_0000
  const FLAGS_MASK: u64 := 0xfff0_0000_0000_0fff
  const NOT_ERRATUM: u64 := 0xffff_ffff_ffff_ff9f
  const NOT_TABLE_FLAGS: u64 := 0xffff_ffff_ffff_ff98
  const NOT_TABLE_FLAGS_NX: u64 := 0x7fff_ffff_ffff_ff98
  const NOT_USER_ACCESSED: u64 := 0xffff_ffff_ffff_ffdb

  /** Page-table memory by physical address; what is not there reads as zero. */
  type Tables = map<nat, u64>

  function Entry(t: Tables, a: nat): u64 { if a in t then t[a] else 0 }

  // ----- the architecture -----

  datatype Translation = Unmapped | Mapped(shift: nat, base: nat) {
    /** The physical address: the page's base and the low bits of the virtual address. */
    function Address(v: nat): nat
      requires Mapped?
    {
      base + Low(v, shift)
    }
  }

  /** Bits 51 down to `shift` of an entry, in place. */
  function Frame(e: u64, shift: nat): nat
    requires shift <= 52
  {
    Shl(Field(e, shift, 52), shift)
  }

  /** Bit 0 is P, bit 7 is PS. A PML4 entry with PS, and a large page with address bits below
      its size (above the PAT bit), use reserved bits and do not translate. */
  function Translate(t: Tables, pml4: nat, v: u64): Translation {
    var e4 := Entry4(t, pml4, v);
    if !Bit(e4, 0) || Bit(e4, 7) then Unmapped else
    var e3 := Entry3(t, e4, v);
    if !Bit(e3, 0) then Unmapped
    else if Bit(e3, 7) then if Field(e3, 13, 30) != 0 then Unmapped else Mapped(30, Frame(e3, 30))
    else
    var e2 := Entry2(t, e3, v);
    if !Bit(e2, 0) then Unmapped
    else if Bit(e2, 7) then if Field(e2, 13, 21) != 0 then Unmapped else Mapped(21, Frame(e2, 21))
    else
    var e1 := Entry1(t, e2, v);
    if !Bit(e1, 0) then Unmapped else Mapped(12, Frame(e1, 12))
  }

  function Entry4(t: Tables, pml4: nat, v: u64): u64 { Entry(t, pml4 + 8 * Field(v, 39, 48)) }
  function Entry3(t: Tables, e4: u64, v: u64): u64 { Entry(t, Frame(e4, 12) + 8 * Field(v, 30, 39)) }
  function Entry2(t: Tables, e3: u64, v: u64): u64 { Entry(t, Frame(e3, 12) + 8 * Field(v, 21, 30)) }
  function Entry1(t: Tables, e2: u64, v: u64): u64 { Entry(t, Frame(e2, 12) + 8 * Field(v, 12, 21)) }

  // ----- the kernel's tests on entries -----

  predicate None(e: u64) { And(e, NOT_ERRATUM) == 0 }
  function Flags(e: u64): nat { And(e, FLAGS_MASK) }
  predicate P4dBad(e: u64) { And(Flags(e), NOT_TABLE_FLAGS_NX) != 0 }
  predicate PudBad(e: u64) { And(Flags(e), NOT_TABLE_FLAGS) != 0 }
  predicate PmdBad(e: u64) { And(Flags(e), NOT_USER_ACCESSED) != 0x43 }
  predicate PtePresent(e: u64) { And(e, 0x101) != 0 }

  /** pmd_leaf tests the PS bit alone. pud_leaf tests P and PS in older kernels, and PS alone in
      newer ones; both are covered. */
  datatype Kernel = PudPresentAndLarge | PudLargeOnly

  predicate IsPmdLeaf(e: u64) { And(e, 0x80) != 0 }
  predicate IsPudLeaf(k: Kernel, e: u64) { if k == PudPresentAndLarge then And(e, 0x81) == 0x81 else And(e, 0x80) != 0 }

  /** pmd_page and pte_page take the frame of an absent entry that is not empty from its
      complement: that is how the kernel stores it. */
  function Stored(e: u64): u64 { if e != 0 && And(e, 1) == 0 then 0xffff_ffff_ffff_ffff - e else e }

  function Slot(table: nat, v: u64, shift: nat): nat { table + 8 * And(Shr(v, shift), 0x1ff) }

  // ----- the walk -----

  /** How a walk ends: with -EFAULT, with an address only printed (1GB), or with an address at
      which the text is rewritten through the direct map. */
  datatype Outcome = Failed | Printed(paddr: nat) | Rewritten(paddr: nat, at: nat)

  function Join(e: u64, v: u64, mask: u64, low: u64): nat { Or(And(e, mask), And(v, low)) }

  /** The direct-map address the code computes inside a 2MB page: page of the leaf, plus pages
      into it, plus bytes into that page. */
  function SubPageAddress(e: u64, v: u64): nat {
    Shl(Shr(And(Stored(e), PMD_PAGE_MASK), 12) + Shr(And(v, PMD_LOW), 12), 12) + And(v, PAGE_LOW)
  }

  function PageAddress(e: u64, v: u64): nat {
    Shl(Shr(And(Stored(e), PTE_PFN_MASK), 12), 12) + And(v, PAGE_LOW)
  }

  function Walk(k: Kernel, t: Tables, pgd: nat, v: u64): Outcome {
    var p4d := Entry(t, Slot(pgd, v, 39));
    if None(p4d) || P4dBad(p4d) then Failed else
    var pud := Entry(t, Slot(And(p4d, PTE_PFN_MASK), v, 30));
    if None(pud) then Failed
    else if IsPudLeaf(k, pud) then Printed(Join(pud, v, PUD_MASK, PUD_LOW))
    else if PudBad(pud) then Failed else
    var pmd := Entry(t, Slot(And(pud, PTE_PFN_MASK), v, 21));
    if None(pmd) then Failed
    else if IsPmdLeaf(pmd) then Rewritten(Join(pmd, v, PMD_MASK, PMD_LOW), SubPageAddress(pmd, v))
    else if PmdBad(pmd) then Failed else
    var pte := Entry(t, Slot(And(pmd, PTE_PFN_MASK), v, 12));
    if None(pte) || !PtePresent(pte) then Failed
    else Rewritten(Join(pte, v, PTE_PFN_MASK, PAGE_LOW), PageAddress(pte, v))
  }

  // ----- what the masks compute -----

  lemma Powers()
    ensures Pow(9) == 0x200 && Pow(12) == 0x1000 && Pow(21) == 0x20_0000 && Pow(30) == 0x4000_0000
    ensures Pow(52) == 0x10_0000_0000_0000 && Pow(64) == 0x1_0000_0000_0000_0000
  {
    PowSum(26, 26);
    PowSum(32, 32);
    PowsShort();
    hide Pow;
  }

  lemma PowsShort()
    ensures Pow(9) == 0x200 && Pow(12) == 0x1000 && Pow(21) == 0x20_0000 && Pow(30) == 0x4000_0000
    ensures Pow(26) == 0x400_0000 && Pow(32) == 0x1_0000_0000
  {
  }

  lemma TableAddress(e: u64)
    ensures And(e, PTE_PFN_MASK) == Frame(e, 12)
  {
    Powers();
    AndRange(e, 12, 52);
  }

  lemma SlotIs(table: nat, v: u64, shift: nat)
    ensures Slot(table, v, shift) == table + 8 * Field(v, shift, shift + 9)
  {
    Powers();
    AndLow(Shr(v, shift), 9);
  }

  /** A mask down to `shift`, joined with the low bits of the virtual address. */
  lemma JoinIs(e: u64, v: u64, shift: nat, top: nat)
    requires shift <= top
    ensures Pow(shift) <= Pow(top)
    ensures Or(And(e, Pow(top) - Pow(shift)), And(v, Pow(shift) - 1)) ==
            Shl(Field(e, shift, top), shift) + Low(v, shift)
  {
    hide And, Or, Field, Low, Shl;
    AndRange(e, shift, top);
    AndLow(v, shift);
    OrDisjoint(Field(e, shift, top), Low(v, shift), shift);
  }

  /** The printed address of a 1GB or 2MB page: the translation, with bits 52 to 63 of the entry
      still on top of it. */
  lemma HugeAddress(e: u64, v: u64, shift: nat)
    requires shift <= 52
    ensures Pow(shift) <= Pow(64)
    ensures Or(And(e, Pow(64) - Pow(shift)), And(v, Pow(shift) - 1))
         == Frame(e, shift) + Low(v, shift) + Shl(Field(e, 52, 64), 52)
  {
    hide Pow, And, Or, Field, Low, Shl;
    JoinIs(e, v, shift, 64);
    FieldAt(e, shift, 64);
    FieldAt(e, shift, 52);
    FieldAt(e, 52, 64);
  }

  lemma StoredPresent(e: u64)
    requires Bit(e, 0)
    ensures Stored(e) == e
  {
    AndBit(e, 0);
  }

  /** The two steps inside a 2MB page add up to its base plus the full offset. */
  lemma SubPageIs(e: u64, v: u64)
    requires Bit(e, 0)
    ensures SubPageAddress(e, v) == Frame(e, 21) + Low(v, 21)
  {
    hide Pow, And, Field, Low, Shl, Shr, Stored, Bit;
    StoredPresent(e);
    Powers();
    AndRange(e, 21, 52);
    AndLow(v, 21);
    AndLow(v, 12);
    var f := Field(e, 21, 52);
    ShlShl(f, 9, 12);
    Unsplit(Shl(f, 9), 0, 12);
    Split(Low(v, 21), 12);
    LowLow(v, 12, 21);
    ShlAdd(Shl(f, 9), Shr(Low(v, 21), 12), 12);
  }

  lemma PageIs(e: u64, v: u64)
    requires Bit(e, 0)
    ensures PageAddress(e, v) == Frame(e, 12) + Low(v, 12)
  {
    hide Pow, And, Field, Low, Shl, Shr, Stored, Bit;
    StoredPresent(e);
    Powers();
    AndRange(e, 12, 52);
    AndLow(v, 12);
    Unsplit(Field(e, 12, 52), 0, 12);
  }

  // ----- what the tests mean -----

  lemma LeafMeans(k: Kernel, e: u64)
    ensures IsPmdLeaf(e) <==> Bit(e, 7)
    ensures IsPudLeaf(k, e) <==> Bit(e, 7) && (k == PudPresentAndLarge ==> Bit(e, 0))
  {
    AndSplit(e, 0x80, 1);
    AndBit(e, 0);
    AndBit(e, 7);
  }

  lemma PresentMeans(e: u64)
    ensures PtePresent(e) <==> Bit(e, 0) || Bit(e, 8)
  {
    AndSplit(e, 0x100, 1);
    AndBit(e, 0);
    AndBit(e, 8);
  }

  lemma NoneMeans(e: u64)
    ensures None(e) ==> !Bit(e, 0)
  {
    BitAnd(e, NOT_ERRATUM, 0);
    ZeroBits(0);
  }

  lemma MaskBits()
    ensures Bit(FLAGS_MASK, 0) && Bit(FLAGS_MASK, 7) && Bit(NOT_TABLE_FLAGS_NX, 7)
    ensures Bit(NOT_TABLE_FLAGS, 7) && Bit(NOT_ERRATUM, 7) && Bit(NOT_ERRATUM, 8)
    ensures Bit(NOT_USER_ACCESSED, 0) && Bit(NOT_USER_ACCESSED, 7) && Bit(0x43, 0) && !Bit(0x43, 7)
  {
  }

  lemma BadMeans(e: u64)
    ensures Bit(e, 7) ==> P4dBad(e) && PudBad(e) && !None(e)
    ensures Bit(e, 8) ==> !None(e)
    ensures !PmdBad(e) ==> Bit(e, 0) && !Bit(e, 7)
  {
    MaskBits();
    hide Bit, And;
    BitAnd(e, FLAGS_MASK, 0);
    BitAnd(e, FLAGS_MASK, 7);
    BitAnd(Flags(e), NOT_TABLE_FLAGS_NX, 7);
    BitAnd(Flags(e), NOT_TABLE_FLAGS, 7);
    BitAnd(e, NOT_ERRATUM, 7);
    BitAnd(e, NOT_ERRATUM, 8);
    BitAnd(Flags(e), NOT_USER_ACCESSED, 0);
    BitAnd(Flags(e), NOT_USER_ACCESSED, 7);
    ZeroBits(7);
    ZeroBits(8);
  }

  // ----- the walk is the translation -----

  /** Entries as the kernel writes them: a present table entry has a table's flags, a present
      large page has no reserved bit, an absent upper entry is empty, or a large page that is
      for now not accessible. */
  predicate P4dOk(e: u64) { if !Bit(e, 0) then None(e) else Bit(e, 7) || !P4dBad(e) }
  predicate PudOk(e: u64) {
    if !Bit(e, 0) then None(e) || Bit(e, 7) else if Bit(e, 7) then Field(e, 13, 30) == 0 else !PudBad(e)
  }
  predicate PmdOk(e: u64) { Bit(e, 0) ==> if Bit(e, 7) then Field(e, 13, 21) == 0 else !PmdBad(e) }

  predicate Goes(e: u64) { Bit(e, 0) && !Bit(e, 7) }

  /** The entries on the way to `v` are such. */
  predicate Shaped(t: Tables, pml4: nat, v: u64) {
    var e4 := Entry4(t, pml4, v);
    var e3 := Entry3(t, e4, v);
    var e2 := Entry2(t, e3, v);
    P4dOk(e4) && (Goes(e4) ==> PudOk(e3)) && (Goes(e4) && Goes(e3) ==> PmdOk(e2))
  }

  /** A large page that is absent, as after mprotect(PROT_NONE). */
  predicate AbsentLarge(e: u64) { !Bit(e, 0) && Bit(e, 7) }

  /** An absent pte with the PROT_NONE bit. */
  predicate AbsentPte(e: u64) { !Bit(e, 0) && Bit(e, 8) }

  /** The way to `v` ends in an absent entry that the kernel's tests take for a mapping. */
  predicate EndsInaccessible(k: Kernel, t: Tables, pml4: nat, v: u64) {
    var e4 := Entry4(t, pml4, v);
    var e3 := Entry3(t, e4, v);
    var e2 := Entry2(t, e3, v);
    var e1 := Entry1(t, e2, v);
    Goes(e4) &&
      (if Goes(e3) then AbsentLarge(e2) || (Goes(e2) && AbsentPte(e1)) else k == PudLargeOnly && AbsentLarge(e3))
  }

  /** The address fits 52 bits, and the printed one is the same with `high` on top. */
  predicate Agrees(paddr: nat, address: nat, high: nat) {
    && address < Pow(52)
    && paddr == address + Shl(high, 52)
    && Low(paddr, 52) == address
    && (paddr == address <==> high == 0)
  }

  lemma AgreesWhen(e: u64, v: u64, shift: nat, paddr: nat, high: nat)
    requires shift <= 52 && paddr == Frame(e, shift) + Low(v, shift) + Shl(high, 52)
    ensures Agrees(paddr, Mapped(shift, Frame(e, shift)).Address(v), high)
  {
    hide Low, Shl, Field, Pow;
    ShlBound(Field(e, shift, 52), shift, 52 - shift);
    Unsplit(high, Frame(e, shift) + Low(v, shift), 52);
    ShlZero(high, 52);
  }

  lemma PudAddress(e: u64, v: u64)
    ensures Agrees(Join(e, v, PUD_MASK, PUD_LOW), Mapped(30, Frame(e, 30)).Address(v), Field(e, 52, 64))
  {
    hide Pow, Low, Shl, Field, And, Or;
    Powers();
    HugeAddress(e, v, 30);
    AgreesWhen(e, v, 30, Join(e, v, PUD_MASK, PUD_LOW), Field(e, 52, 64));
  }

  lemma PmdAddress(e: u64, v: u64)
    ensures Agrees(Join(e, v, PMD_MASK, PMD_LOW), Mapped(21, Frame(e, 21)).Address(v), Field(e, 52, 64))
    ensures Bit(e, 0) ==> SubPageAddress(e, v) == Mapped(21, Frame(e, 21)).Address(v)
  {
    hide Pow, Low, Shl, Field, And, Or;
    Powers();
    HugeAddress(e, v, 21);
    if Bit(e, 0) { SubPageIs(e, v); }
    AgreesWhen(e, v, 21, Join(e, v, PMD_MASK, PMD_LOW), Field(e, 52, 64));
  }

  lemma PteAddress(e: u64, v: u64)
    ensures Agrees(Join(e, v, PTE_PFN_MASK, PAGE_LOW), Mapped(12, Frame(e, 12)).Address(v), 0)
    ensures Bit(e, 0) ==> PageAddress(e, v) == Mapped(12, Frame(e, 12)).Address(v)
  {
    hide Pow, Low, Field, And, Or;
    Powers();
    JoinIs(e, v, 12, 52);
    if Bit(e, 0) { PageIs(e, v); }
    ShlZero(0, 52);
    AgreesWhen(e, v, 12, Join(e, v, PTE_PFN_MASK, PAGE_LOW), 0);
  }

  /** The entry that maps `v`, whose top bits end up in a printed huge-page address. */
  function LeafEntry(t: Tables, pml4: nat, v: u64): u64 {
    var e3 := Entry3(t, Entry4(t, pml4, v), v);
    if Bit(e3, 7) then e3 else Entry2(t, e3, v)
  }

  /** The kernel's slots are the architecture's entries. */
  lemma SameEntries(t: Tables, e: u64, v: u64)
    ensures Entry(t, Slot(And(e, PTE_PFN_MASK), v, 30)) == Entry3(t, e, v)
    ensures Entry(t, Slot(And(e, PTE_PFN_MASK), v, 21)) == Entry2(t, e, v)
    ensures Entry(t, Slot(And(e, PTE_PFN_MASK), v, 12)) == Entry1(t, e, v)
  {
    hide And, Slot, Entry, Frame, Field;
    TableAddress(e);
    SlotIs(And(e, PTE_PFN_MASK), v, 30);
    SlotIs(And(e, PTE_PFN_MASK), v, 21);
    SlotIs(And(e, PTE_PFN_MASK), v, 12);
  }

  lemma SameTop(t: Tables, pml4: nat, v: u64)
    ensures Entry(t, Slot(pml4, v, 39)) == Entry4(t, pml4, v)
  {
    SlotIs(pml4, v, 39);
  }

  /** Unless the way ends in an inaccessible entry, the walk fails exactly where the architecture
      has no translation; otherwise its address is the translation on the low 52 bits, in full
      exactly when a huge page's entry has nothing above them, and the text it rewrites is at the
      translation. */
  lemma WalkTranslates(k: Kernel, t: Tables, pml4: nat, v: u64)
    requires Shaped(t, pml4, v) && !EndsInaccessible(k, t, pml4, v)
    ensures var w := Walk(k, t, pml4, v);
      var a := Translate(t, pml4, v);
      && (w.Failed? <==> a.Unmapped?)
      && (w.Printed? <==> a.Mapped? && a.shift == 30)
      && (a.Mapped? ==>
            Agrees(w.paddr, a.Address(v), if a.shift == 12 then 0 else Field(LeafEntry(t, pml4, v), 52, 64)))
      && (w.Rewritten? ==> a.Mapped? && w.at == a.Address(v))
  {
    hide Entry4, Entry3, Entry2, Entry1, Entry, Slot, Agrees, Frame, Join, None, P4dBad, PudBad, PmdBad, IsPudLeaf,
         IsPmdLeaf, PtePresent, Bit, And, Pow, Field, SubPageAddress, PageAddress;
    var e4 := Entry4(t, pml4, v);
    var e3 := Entry3(t, e4, v);
    var e2 := Entry2(t, e3, v);
    var e1 := Entry1(t, e2, v);
    SameTop(t, pml4, v);
    SameEntries(t, e4, v); SameEntries(t, e3, v); SameEntries(t, e2, v);
    NoneMeans(e4); NoneMeans(e3); NoneMeans(e2); NoneMeans(e1);
    LeafMeans(k, e3); LeafMeans(k, e2);
    BadMeans(e4); BadMeans(e3); BadMeans(e2);
    PresentMeans(e1);
    PudAddress(e3, v);
    PmdAddress(e2, v);
    PteAddress(e1, v);
  }

  /** There the walk goes on as if the page were mapped, and rewrites it if it is not a 1GB one;
      the processor would fault. */
  lemma WalksInaccessible(k: Kernel, t: Tables, pml4: nat, v: u64)
    requires Shaped(t, pml4, v) && EndsInaccessible(k, t, pml4, v)
    ensures Translate(t, pml4, v).Unmapped?
    ensures var w := Walk(k, t, pml4, v);
      if Goes(Entry3(t, Entry4(t, pml4, v), v)) then w.Rewritten? else w.Printed?
  {
    hide Entry4, Entry3, Entry2, Entry1, Entry, Slot, Frame, Join, None, P4dBad, PudBad, PmdBad, IsPudLeaf, IsPmdLeaf,
         PtePresent, Bit, And, Pow, Field, SubPageAddress, PageAddress;
    var e4 := Entry4(t, pml4, v);
    var e3 := Entry3(t, e4, v);
    var e2 := Entry2(t, e3, v);
    var e1 := Entry1(t, e2, v);
    SameTop(t, pml4, v);
    SameEntries(t, e4, v); SameEntries(t, e3, v); SameEntries(t, e2, v);
    NoneMeans(e4); NoneMeans(e3); NoneMeans(e2);
    LeafMeans(k, e3); LeafMeans(k, e2);
    BadMeans(e4); BadMeans(e3); BadMeans(e2); BadMeans(e1);
    PresentMeans(e1);
  }

  /** Kernel and processor agree on failure iff the way does not end in such an entry. */
  lemma FailsExactly(k: Kernel, t: Tables, pml4: nat, v: u64)
    requires Shaped(t, pml4, v)
    ensures (Walk(k, t, pml4, v).Failed? <==> Translate(t, pml4, v).Unmapped?) <==> !EndsInaccessible(k, t, pml4, v)
  {
    hide Walk, Translate, Shaped, EndsInaccessible;
    if EndsInaccessible(k, t, pml4, v) { WalksInaccessible(k, t, pml4, v); } else { WalkTranslates(k, t, pml4, v); }
  }

  // ----- tables on which kernel and processor differ -----

  /** Address 0 through tables at 0x1000, 0x2000 and 0x4000, and a pte table at 0x8000. */
  function Path(pmd: u64, pte: u64): Tables {
    map[0x1000 := 0x2067, 0x2000 := 0x4067, 0x4000 := pmd, 0x8000 := pte]
  }

  /** An entry with frame number `q` and flags `r`. */
  lemma FrameOf(e: u64, q: nat, r: nat, shift: nat)
    requires shift <= 52 && r < Pow(shift) && e == q * Pow(shift) + r && e < Pow(52)
    ensures Frame(e, shift) == q * Pow(shift)
  {
    hide Pow, Low, Shl, Field;
    ShlPow(q, shift);
    Unsplit(q, r, shift);
    LowSmall(e, 52);
    FieldAt(e, shift, 52);
  }

  lemma TableFrames()
    ensures Frame(0x2067, 12) == 0x2000 && Frame(0x4067, 12) == 0x4000 && Frame(0x8067, 12) == 0x8000
  {
    hide Frame;
    Powers();
    FrameOf(0x2067, 2, 0x67, 12);
    FrameOf(0x4067, 4, 0x67, 12);
    FrameOf(0x8067, 8, 0x67, 12);
  }

  lemma TableBits()
    ensures Bit(0x2067, 0) && !Bit(0x2067, 7) && Bit(0x4067, 0) && !Bit(0x4067, 7) && Bit(0x8067, 0) && !Bit(0x8067, 7)
  {
  }

  lemma LowOf(x: nat, q: nat, r: nat, k: nat)
    requires r < Pow(k) && x == q * Pow(k) + r
    ensures Low(x, k) == r
  {
    hide Pow, Low, Shl;
    ShlPow(q, k);
    Unsplit(q, r, k);
  }

  /** The flags of an entry without high bits are its low twelve bits. */
  lemma LowFlags(e: u64)
    requires e < Pow(52)
    ensures Flags(e) == Low(e, 12)
  {
    hide Pow, Low, And;
    Powers();
    LowOf(FLAGS_MASK, 0xfff, 0xfff, 52);
    AndSmall(e, FLAGS_MASK, 52);
    AndLow(e, 12);
  }

  lemma TableFlags()
    ensures !P4dBad(0x2067) && !PudBad(0x4067) && !PmdBad(0x8067)
  {
    hide Pow, Low, And, Flags;
    Powers();
    LowFlags(0x2067); LowFlags(0x4067); LowFlags(0x8067);
    LowOf(0x2067, 2, 0x67, 12); LowOf(0x4067, 4, 0x67, 12); LowOf(0x8067, 8, 0x67, 12);
    MaskLow(NOT_TABLE_FLAGS_NX, 0xf98, 0x7_ffff_ffff_ffff);
    MaskLow(NOT_TABLE_FLAGS, 0xf98, 0xf_ffff_ffff_ffff);
    MaskLow(NOT_USER_ACCESSED, 0xfdb, 0xf_ffff_ffff_ffff);
    SmallAnd();
    OtherSmallAnd();
  }

  lemma MaskLow(mask: nat, r: nat, q: nat)
    requires r < 0x1000 && mask == q * 0x1000 + r
    ensures And(0x67, mask) == And(0x67, r)
  {
    hide Pow, Low, And;
    Powers();
    LowOf(mask, q, r, 12);
    AndSmall(0x67, mask, 12);
  }

  lemma SmallAnd()
    ensures And(0x67, 0xf98) == 0
  {
    assert And(3, 0x7c) == 0;
    assert And(0xc, 0x1f3) == 0;
    assert And(0x33, 0x7cc) == 0;
  }

  lemma OtherSmallAnd()
    ensures And(0x67, 0xfdb) == 0x43
  {
    assert And(3, 0x7e) == 2;
    assert And(0xc, 0x1fb) == 8;
    assert And(0x33, 0x7ed) == 0x21;
  }

  lemma PathEntries(pmd: u64, pte: u64)
    ensures var t := Path(pmd, pte);
      var e3 := Entry3(t, Entry4(t, 0x1000, 0), 0);
      && Entry4(t, 0x1000, 0) == 0x2067 && e3 == 0x4067 && Entry2(t, e3, 0) == pmd
      && (pmd == 0x8067 ==> Entry1(t, pmd, 0) == pte)
  {
    hide Frame, Field;
    TableFrames();
    NoField(39, 48); NoField(30, 39); NoField(21, 30); NoField(12, 21);
  }

  lemma NoField(lo: nat, hi: nat)
    requires lo <= hi
    ensures Field(0, lo, hi) == 0
  {
    NoLow(hi - lo);
    NoShr(lo);
  }

  lemma {:induction false} NoLow(k: nat)
    ensures Low(0, k) == 0
  {
    if k > 0 { NoLow(k - 1); }
  }

  lemma {:induction false} NoShr(k: nat)
    ensures Shr(0, k) == 0
  {
    if k > 0 { NoShr(k - 1); }
  }

  /** Tables as the kernel writes them above the last entry. */
  lemma PathShaped(pmd: u64, pte: u64)
    requires PmdOk(pmd)
    ensures Shaped(Path(pmd, pte), 0x1000, 0)
    ensures EndsInaccessible(PudLargeOnly, Path(pmd, pte), 0x1000, 0) ==
            EndsInaccessible(PudPresentAndLarge, Path(pmd, pte), 0x1000, 0)
    ensures AbsentLarge(pmd) || (pmd == 0x8067 && AbsentPte(pte)) ==>
      EndsInaccessible(PudLargeOnly, Path(pmd, pte), 0x1000, 0)
    ensures Bit(pmd, 0) && Bit(pmd, 7) ==> !EndsInaccessible(PudLargeOnly, Path(pmd, pte), 0x1000, 0)
  {
    hide Entry4, Entry3, Entry2, Entry1, Path, Bit, P4dBad, PudBad, PmdOk;
    PathEntries(pmd, pte);
    TableBits();
    TableFlags();
  }

  /** A 2MB page after mprotect(PROT_NONE), and a 4KB one: walked and rewritten, though nothing
      is mapped. */
  lemma ProtNoneIsRewritten(k: Kernel)
    ensures Walk(k, Path(0x20_0180, 0), 0x1000, 0).Rewritten? && Translate(Path(0x20_0180, 0), 0x1000, 0).Unmapped?
    ensures Walk(k, Path(0x8067, 0x5100), 0x1000, 0).Rewritten? && Translate(Path(0x8067, 0x5100), 0x1000, 0).Unmapped?
  {
    assert AbsentLarge(0x20_0180) && AbsentPte(0x5100);
    AtInaccessible(k, 0x20_0180, 0);
    AtInaccessible(k, 0x8067, 0x5100) by { TableFlags(); TableBits(); }
  }

  lemma AtInaccessible(k: Kernel, pmd: u64, pte: u64)
    requires PmdOk(pmd) && (AbsentLarge(pmd) || (pmd == 0x8067 && AbsentPte(pte)))
    ensures Walk(k, Path(pmd, pte), 0x1000, 0).Rewritten? && Translate(Path(pmd, pte), 0x1000, 0).Unmapped?
  {
    hide Entry4, Entry3, Entry2, Entry1, Path, Bit, PmdOk, Walk, Translate, Shaped, EndsInaccessible, AbsentLarge,
         AbsentPte;
    PathShaped(pmd, pte);
    PathEntries(pmd, pte);
    TableBits();
    WalksInaccessible(k, Path(pmd, pte), 0x1000, 0);
  }

  /** Address 0 through tables at 0x1000 and 0x2000. */
  function ShortPath(pud: u64): Tables { map[0x1000 := 0x2067, 0x2000 := pud] }

  /** A 1GB page without access. */
  const NO_ACCESS: u64 := 0x4000_0180

  lemma ShortPathEntries(pud: u64)
    ensures Entry4(ShortPath(pud), 0x1000, 0) == 0x2067 && Entry3(ShortPath(pud), 0x2067, 0) == pud
  {
    hide Frame, Field;
    TableFrames();
    NoField(39, 48); NoField(30, 39);
  }

  lemma NoAccessBits()
    ensures AbsentLarge(NO_ACCESS)
  {
  }

  lemma ShortPathShaped(pud: u64)
    requires AbsentLarge(pud)
    ensures Shaped(ShortPath(pud), 0x1000, 0)
    ensures EndsInaccessible(PudLargeOnly, ShortPath(pud), 0x1000, 0)
    ensures !EndsInaccessible(PudPresentAndLarge, ShortPath(pud), 0x1000, 0)
    ensures !Goes(Entry3(ShortPath(pud), Entry4(ShortPath(pud), 0x1000, 0), 0))
  {
    hide Entry4, Entry3, Entry2, Entry1, ShortPath, Bit, P4dBad, PudBad, PmdOk;
    ShortPathEntries(pud);
    TableBits();
    TableFlags();
  }

  /** A newer kernel prints an address for it, though nothing is mapped; an older one fails. */
  lemma AbsentGigabyteIsPrinted()
    ensures var t := ShortPath(NO_ACCESS);
      && Translate(t, 0x1000, 0).Unmapped?
      && Walk(PudLargeOnly, t, 0x1000, 0).Printed? && Walk(PudPresentAndLarge, t, 0x1000, 0).Failed?
  {
    NoAccessBits();
    hide Entry4, Entry3, ShortPath, AbsentLarge, Shaped, EndsInaccessible, Goes, Walk, Translate, Agrees;
    ShortPathShaped(NO_ACCESS);
    WalksInaccessible(PudLargeOnly, ShortPath(NO_ACCESS), 0x1000, 0);
    WalkTranslates(PudPresentAndLarge, ShortPath(NO_ACCESS), 0x1000, 0);
  }

  /** A 2MB page that may not be executed: bit 63 of its entry is in the printed address. */
  const NO_EXECUTE: u64 := 0x8000_0000_0020_00e7

  lemma NoExecuteIsPrinted(k: Kernel)
    ensures var t := Path(NO_EXECUTE, 0);
      && Translate(t, 0x1000, 0) == Mapped(21, 0x20_0000)
      && Walk(k, t, 0x1000, 0).Rewritten? && Walk(k, t, 0x1000, 0).paddr == 0x8000_0000_0020_0000
  {
    hide Path, Shaped, EndsInaccessible, PmdOk, Shl, Field, Pow, Walk;
    LargeBits();
    LargeEntry();
    PathShaped(NO_EXECUTE, 0) by { LargeOk(); }
    LargeTranslates();
    WalkTranslates(k, Path(NO_EXECUTE, 0), 0x1000, 0);
    NoLow(21);
  }

  lemma LargeTranslates()
    ensures Translate(Path(NO_EXECUTE, 0), 0x1000, 0) == Mapped(21, 0x20_0000)
    ensures LeafEntry(Path(NO_EXECUTE, 0), 0x1000, 0) == NO_EXECUTE
  {
    hide Entry4, Entry3, Entry2, Entry1, Path, Bit, Field, Frame;
    PathEntries(NO_EXECUTE, 0);
    TableBits();
    LargeBits();
    LargeEntry();
  }

  lemma LargeOk()
    ensures PmdOk(NO_EXECUTE)
  {
    hide Bit, Field, Frame;
    LargeBits();
    LargeEntry();
  }

  lemma LargeBits()
    ensures Bit(NO_EXECUTE, 0) && Bit(NO_EXECUTE, 7)
  {
  }

  lemma LargeEntry()
    ensures Frame(NO_EXECUTE, 21) == 0x20_0000 && Field(NO_EXECUTE, 13, 21) == 0 && Field(NO_EXECUTE, 52, 64) == 0x800
    ensures Shl(0x800, 52) == 0x8000_0000_0000_0000
  {
    hide Pow, Low, Shl, Shr;
    Powers();
    ShlPow(0x800, 52);
    Unsplit(0x800, 0x20_00e7, 52);
    LowSmall(0x800, 12);
    ShlPow(0x400_0000_0001, 21);
    Unsplit(0x400_0000_0001, 0xe7, 21);
    FieldAt(NO_EXECUTE, 21, 52);
    LowLow(NO_EXECUTE, 13, 21);
    assert 0xe7 < Pow(13) by { PowGrows(12, 13); }
    LowSmall(0xe7, 13);
    FieldAt(NO_EXECUTE, 13, 21);
    ShlZero(Field(NO_EXECUTE, 13, 21), 13);
  }

  // ----- the text -----

  type Memory = map<nat, byte>

  function Upper(b: byte): byte { if 97 <= b <= 122 then b - 97 + 65 else b }

  ghost predicate Text(m: Memory, a: nat, end: nat) {
    forall x :: a <= x < end ==> x in m && m[x] != 0
  }

  /** Memory with the text at `a`, up to its NUL or nine bytes, in upper case. */
  ghost function Raised(m: Memory, a: nat): Memory {
    map x | x in m :: if a <= x < a + TEST_LEN && Text(m, a, x + 1) then Upper(m[x]) else m[x]
  }

  /** The bytes the loop comes to are there. */
  ghost predicate Readable(m: Memory, a: nat) {
    forall x :: a <= x < a + TEST_LEN && Text(m, a, x) ==> x in m
  }

  /** How far the loop has come: everything before `end` done. */
  function RaisedTo(m: Memory, a: nat, end: nat): Memory {
    map x | x in m :: if a <= x < end then Upper(m[x]) else m[x]
  }

  lemma RaiseOne(m: Memory, a: nat, p: nat)
    requires a <= p && p in m
    ensures RaisedTo(m, a, p)[p] == m[p]
    ensures RaisedTo(m, a, p)[p := Upper(m[p])] == RaisedTo(m, a, p + 1)
  {
  }

  /** Stopping at the NUL or after nine bytes, the loop has raised the text. */
  lemma RaisedAll(m: Memory, a: nat, p: nat)
    requires a <= p <= a + TEST_LEN && Text(m, a, p) && (p == a + TEST_LEN || (p in m && m[p] == 0))
    ensures RaisedTo(m, a, p) == Raised(m, a)
  {
    forall x | x in m ensures a <= x < p <==> a <= x < a + TEST_LEN && Text(m, a, x + 1) {
      if p <= x < a + TEST_LEN { assert m[p] == 0; }
    }
  }

  /** Byte by byte: the lower-case letters of the text, up to its NUL or nine bytes, are 32 less, and
      every other byte is as it was. */
  ghost predicate RaisedBytes(m: Memory, a: nat, r: Memory) {
    && r.Keys == m.Keys
    && forall x :: x in m ==>
         r[x] == if a <= x < a + 9 && (forall y :: a <= y <= x ==> y in m && m[y] != 0) && 97 <= m[x] <= 122
                 then m[x] - 32 else m[x]
  }

  lemma RaisedIs(m: Memory, a: nat)
    ensures RaisedBytes(m, a, Raised(m, a))
  {
    forall x | x in m
      ensures Text(m, a, x + 1) <==> forall y :: a <= y <= x ==> y in m && m[y] != 0
    {
      if Text(m, a, x + 1) {
        forall y | a <= y <= x ensures y in m && m[y] != 0 {}
      }
    }
  }

  /** "userspaces" becomes "USERSPACEs". */
  const LOWER_TEXT: seq<byte> := [117, 115, 101, 114, 115, 112, 97, 99, 101, 115]
  const UPPER_TEXT: seq<byte> := [85, 83, 69, 82, 83, 80, 65, 67, 69, 115]

  ghost predicate HasText(m: Memory, a: nat, text: seq<byte>) {
    forall x :: a <= x < a + |text| ==> x in m && m[x] == text[x - a]
  }

  lemma UserspaceIsRaised(m: Memory, a: nat)
    requires HasText(m, a, LOWER_TEXT)
    ensures HasText(Raised(m, a), a, UPPER_TEXT)
  {
    RaisedIs(m, a);
    hide Raised;
    forall x | a <= x < a + 10 ensures x in Raised(m, a) && Raised(m, a)[x] == UPPER_TEXT[x - a] {
      forall y | a <= y <= x ensures y in m && m[y] != 0 { NoNul(y - a); }
      NoNul(x - a);
      Letter(x - a);
    }
  }

  lemma NoNul(i: nat)
    requires i < 10
    ensures 97 <= LOWER_TEXT[i] <= 122
  {
  }

  lemma Letter(i: nat)
    requires i < 10
    ensures UPPER_TEXT[i] == if i < 9 then LOWER_TEXT[i] - 32 else LOWER_TEXT[i]
  {
  }

  /** Doing it again changes nothing. */
  lemma RaisedTwice(m: Memory, a: nat)
    ensures Raised(Raised(m, a), a) == Raised(m, a)
  {
    var r := Raised(m, a);
    assert forall x :: x in m ==> (r[x] == 0 <==> m[x] == 0);
    forall x | x in m ensures Text(r, a, x + 1) <==> Text(m, a, x + 1) {
      forall y | a <= y < x + 1 ensures y in r && r[y] != 0 <==> y in m && m[y] != 0 {}
    }
  }

  /** Addresses in the same page share everything but the offset. */
  lemma SamePage(t: Tables, pml4: nat, v: u64, w: u64)
    requires Translate(t, pml4, v).Mapped?
    requires Shr(w, Translate(t, pml4, v).shift) == Shr(v, Translate(t, pml4, v).shift)
    ensures Translate(t, pml4, w) == Translate(t, pml4, v)
  {
    hide Entry, Frame, Bit, Shr, Field;
    var e4 := Entry4(t, pml4, v);
    var e3 := Entry3(t, e4, v);
    var shift := Translate(t, pml4, v).shift;
    SameField(v, w, shift, 39, 48);
    SameField(v, w, shift, 30, 39);
    if shift <= 21 { SameField(v, w, shift, 21, 30); }
    if shift <= 12 { SameField(v, w, shift, 12, 21); }
  }

  lemma SameField(v: nat, w: nat, shift: nat, lo: nat, hi: nat)
    requires shift <= lo <= hi && Shr(w, shift) == Shr(v, shift)
    ensures Field(w, lo, hi) == Field(v, lo, hi)
  {
    hide Shr, Low;
    ShrShr(v, shift, lo - shift);
    ShrShr(w, shift, lo - shift);
  }

  lemma Apart(v: nat, w: nat, shift: nat)
    requires Shr(w, shift) == Shr(v, shift)
    ensures Low(w, shift) - Low(v, shift) == w - v
  {
    Split(v, shift);
    Split(w, shift);
  }

  lemma StaysInPage(v: nat, w: nat, shift: nat)
    requires v <= w < v + Pow(shift) - Low(v, shift)
    ensures Shr(w, shift) == Shr(v, shift)
  {
    Split(v, shift);
    Unsplit(Shr(v, shift), Low(v, shift) + w - v, shift);
  }

  /** The byte a program sees at a mapped virtual address. */
  ghost function Seen(t: Tables, pml4: nat, m: Memory, w: u64): byte
    requires Translate(t, pml4, w).Mapped? && Translate(t, pml4, w).Address(w) in m
  {
    m[Translate(t, pml4, w).Address(w)]
  }

  /** The page of `v` is backed by memory. */
  ghost predicate Backed(t: Tables, pml4: nat, m: Memory, v: u64)
    requires Translate(t, pml4, v).Mapped?
  {
    var a := Translate(t, pml4, v);
    forall x :: a.base <= x < a.base + Pow(a.shift) ==> x in m
  }

  lemma InPage(t: Tables, pml4: nat, m: Memory, v: u64, w: u64)
    requires Translate(t, pml4, v).Mapped? && Backed(t, pml4, m, v)
    requires Shr(w, Translate(t, pml4, v).shift) == Shr(v, Translate(t, pml4, v).shift)
    ensures var a := Translate(t, pml4, v);
      Translate(t, pml4, w) == a && a.Address(w) == a.Address(v) + w - v && a.Address(w) in m
  {
    hide Translate, Shr;
    SamePage(t, pml4, v, w);
    Apart(v, w, Translate(t, pml4, v).shift);
  }

  /** What the program sees: in the page of `v`, exactly the lower-case letters (97 to 122) of the
      text there, up to its NUL or nine bytes, are 32 less. */
  lemma SeenRaised(t: Tables, pml4: nat, m: Memory, v: u64, w: u64)
    requires Translate(t, pml4, v).Mapped? && Backed(t, pml4, m, v)
    requires Shr(w, Translate(t, pml4, v).shift) == Shr(v, Translate(t, pml4, v).shift)
    ensures Translate(t, pml4, w) == Translate(t, pml4, v) && Translate(t, pml4, w).Address(w) in m
    ensures forall x: u64 :: v <= x <= w && w < v + TEST_LEN ==>
      Translate(t, pml4, x).Mapped? && Translate(t, pml4, x).Address(x) in m
    ensures Seen(t, pml4, Raised(m, Translate(t, pml4, v).Address(v)), w) ==
      if v <= w < v + TEST_LEN && (forall x: u64 :: v <= x <= w ==> Seen(t, pml4, m, x) != 0)
         && 97 <= Seen(t, pml4, m, w) <= 122
      then Seen(t, pml4, m, w) - 32 else Seen(t, pml4, m, w)
  {
    var a := Translate(t, pml4, v);
    hide Translate, Shr, Low, Pow;
    InPage(t, pml4, m, v, w);
    Apart(v, w, a.shift);
    assert Low(w, a.shift) < Pow(a.shift);
    if v <= w < v + TEST_LEN {
      forall x: u64 | v <= x <= w
        ensures Translate(t, pml4, x) == a && a.Address(x) == a.Address(v) + x - v && a.Address(x) in m
      {
        StaysInPage(v, x, a.shift);
        InPage(t, pml4, m, v, x);
      }
      SeenText(t, pml4, m, v, w);
    }
  }

  lemma SeenText(t: Tables, pml4: nat, m: Memory, v: u64, w: u64)
    requires Translate(t, pml4, v).Mapped? && v <= w
    requires forall x: u64 :: v <= x <= w ==>
      && Translate(t, pml4, x) == Translate(t, pml4, v)
      && Translate(t, pml4, v).Address(x) == Translate(t, pml4, v).Address(v) + x - v
      && Translate(t, pml4, v).Address(x) in m
    ensures var a := Translate(t, pml4, v).Address(v);
      Text(m, a, a + w - v + 1) <==> forall x: u64 :: v <= x <= w ==> Seen(t, pml4, m, x) != 0
  {
    hide Translate;
    var a := Translate(t, pml4, v).Address(v);
    if forall x: u64 :: v <= x <= w ==> Seen(t, pml4, m, x) != 0 {
      forall y | a <= y < a + w - v + 1 ensures y in m && m[y] != 0 {
        assert Seen(t, pml4, m, v + (y - a)) == m[y];
      }
    }
  }

  predicate IsLower(b: byte) { 97 <= b <= 122 }

  /** Nine bytes fit before `end`, or a NUL comes first, or the text from `end` on has nothing to
      raise. */
  ghost predicate KeepsInside(m: Memory, a: nat, end: nat) {
    || a + TEST_LEN <= end
    || (exists x :: a <= x < end && x in m && m[x] == 0)
    || (forall x :: end <= x < a + TEST_LEN && Text(m, end, x) && x in m ==> !IsLower(m[x]))
  }

  lemma NotRaised(m: Memory, a: nat, end: nat, x: nat)
    requires KeepsInside(m, a, end) && a < end <= x < a + TEST_LEN && Text(m, a, x + 1)
    ensures x in m && !IsLower(m[x])
  {
    assert Text(m, end, x);
  }

  /** No byte outside the page is changed iff that is so; otherwise the loop goes on in the
      physically next page. */
  lemma SpillExactly(m: Memory, a: nat, start: nat, end: nat)
    requires start <= a < end && forall x :: start <= x < end ==> x in m
    ensures (forall x :: x in m && !(start <= x < end) ==> Raised(m, a)[x] == m[x]) <==> KeepsInside(m, a, end)
  {
    if KeepsInside(m, a, end) {
      forall x | x in m && !(start <= x < end) ensures Raised(m, a)[x] == m[x] {
        if a <= x < a + TEST_LEN && Text(m, a, x + 1) { NotRaised(m, a, end, x); }
      }
    } else {
      var x :| end <= x < a + TEST_LEN && Text(m, end, x) && x in m && IsLower(m[x]);
      assert Text(m, a, x + 1);
      assert Raised(m, a)[x] == m[x] - 97 + 65;
    }
  }

  /** So it is with the page of `v`. */
  lemma PageSpillExactly(t: Tables, pml4: nat, m: Memory, v: u64)
    requires Translate(t, pml4, v).Mapped? && Backed(t, pml4, m, v)
    ensures var p := Translate(t, pml4, v);
      var end := p.base + Pow(p.shift);
      (forall x :: x in m && !(p.base <= x < end) ==> Raised(m, p.Address(v))[x] == m[x]) <==>
      KeepsInside(m, p.Address(v), end)
  {
    hide Translate, Pow, Raised, KeepsInside;
    var p := Translate(t, pml4, v);
    SpillExactly(m, p.Address(v), p.base, p.base + Pow(p.shift));
  }

  /** "ab" across the end of a page: the second letter is raised in the next page. */
  lemma CrossingSpills()
    ensures var m: Memory := map[0xfff := 97, 0x1000 := 98, 0x1001 := 0];
      !KeepsInside(m, 0xfff, 0x1000) && Raised(m, 0xfff)[0x1000] == 66
  {
    var m: Memory := map[0xfff := 97, 0x1000 := 98, 0x1001 := 0];
    assert Text(m, 0x1000, 0x1000) && IsLower(m[0x1000]);
    assert Text(m, 0xfff, 0x1001);
  }

  // ----- the module -----

  /** A mapped range of the address space. */
  datatype Vma = Vma(start: u64, end: u64)

  /** An address space: its top table and its areas in address order. */
  datatype Mm = Mm(pgd: nat, vmas: seq<Vma>)

  datatype Option<T> = Absent | Present(value: T)

  /** The areas are in order, disjoint and not empty. */
  predicate Ordered(vmas: seq<Vma>) {
    && (forall i :: 0 <= i < |vmas| ==> vmas[i].start < vmas[i].end)
    && (forall i, j :: 0 <= i < j < |vmas| ==> vmas[i].end <= vmas[j].start)
  }

  predicate Covered(vmas: seq<Vma>, a: u64) {
    exists i :: 0 <= i < |vmas| && vmas[i].start <= a < vmas[i].end
  }

  predicate IsFirstAbove(vmas: seq<Vma>, a: u64, i: int) {
    0 <= i < |vmas| && a < vmas[i].end && forall j :: 0 <= j < i ==> vmas[j].end <= a
  }

  /** find_vma: the first area that ends above `a`. */
  function FindVma(vmas: seq<Vma>, a: u64): (r: Option<Vma>)
    ensures r.Absent? ==> forall i :: 0 <= i < |vmas| ==> vmas[i].end <= a
    ensures r.Present? ==> exists i :: IsFirstAbove(vmas, a, i) && vmas[i] == r.value
  {
    if vmas == [] then Absent
    else if a < vmas[0].end then assert IsFirstAbove(vmas, a, 0); Present(vmas[0])
    else
      var r := FindVma(vmas[1..], a);
      assert r.Present? ==> exists i :: IsFirstAbove(vmas, a, i) && vmas[i] == r.value by {
        if r.Present? {
          var i :| IsFirstAbove(vmas[1..], a, i) && vmas[1..][i] == r.value;
          forall j | 0 <= j < i + 1 ensures vmas[j].end <= a {
            if j > 0 { assert vmas[j] == vmas[1..][j - 1]; }
          }
          assert IsFirstAbove(vmas, a, i + 1) && vmas[i + 1] == r.value;
        }
      }
      r
  }

  /** The first area ending above `a` starts at or below it iff some area holds `a`. */
  lemma FoundIffCovered(vmas: seq<Vma>, a: u64)
    requires Ordered(vmas)
    ensures Covered(vmas, a) <==> FindVma(vmas, a).Present? && FindVma(vmas, a).value.start <= a
  {
    var r := FindVma(vmas, a);
    if Covered(vmas, a) {
      var k :| 0 <= k < |vmas| && vmas[k].start <= a < vmas[k].end;
      var i :| IsFirstAbove(vmas, a, i) && vmas[i] == r.value;
      assert i == k;
    }
  }

  /** What status_read will show. */
  datatype Status = Empty | BadFormat | NoContext | NotValid(error: int) | WalkFailed(error: int) | Success

  /** The physical address a walk prints. */
  function Shown(w: Outcome): Option<nat> { if w.Failed? then Absent else Present(w.paddr) }

  /** Memory after the walk's rewriting. */
  ghost function AfterWalk(k: Kernel, t: Tables, m: Memory, pgd: nat, v: u64): Memory {
    var w := Walk(k, t, pgd, v);
    if w.Rewritten? then Raised(m, w.at) else m
  }

  /** The direct map covers the bytes the walk looks at. */
  ghost predicate Reachable(k: Kernel, t: Tables, m: Memory, pgd: nat, v: u64) {
    var w := Walk(k, t, pgd, v);
    w.Rewritten? ==> Readable(m, w.at)
  }

  /** Page tables and memory, the number of readers of mmap_lock, and the status text. */
  class UserWalker {
    const kernel: Kernel
    var tables: Tables
    var memory: Memory
    var readers: nat
    var status: Status

    constructor (kernel: Kernel, tables: Tables, memory: Memory)
      ensures this.kernel == kernel && this.tables == tables && this.memory == memory && readers == 0 && status == Empty
    {
      this.kernel, this.tables, this.memory, readers, status := kernel, tables, memory, 0, Empty;
    }

    method MmapReadLock()
      modifies this`readers
      ensures readers == old(readers) + 1
    {
      readers := readers + 1;
    }

    method MmapReadUnlock()
      requires readers > 0
      modifies this`readers
      ensures readers == old(readers) - 1
    {
      readers := readers - 1;
    }

    /** validate_user_address: succeeds iff some area holds the address; the lock is given back. */
    method ValidateUserAddress(mm: Option<Mm>, v: u64) returns (ret: int)
      requires mm.Present? ==> Ordered(mm.value.vmas)
      modifies this`readers
      ensures readers == old(readers)
      ensures ret == if mm.Absent? then -22 else if Covered(mm.value.vmas, v) then 0 else -14
    {
      if mm.Absent? {
        return EINVAL;
      }
      MmapReadLock();
      var vma := FindVma(mm.value.vmas, v);
      FoundIffCovered(mm.value.vmas, v);
      if vma.Absent? || v < vma.value.start {
        MmapReadUnlock();
        return EFAULT;
      }
      MmapReadUnlock();
      return 0;
    }

    /** The loop over mapped_addr: letter by letter, up to nine bytes or the NUL. */
    method RaiseText(a: nat)
      requires Readable(memory, a)
      modifies this`memory
      ensures memory == Raised(old(memory), a) && RaisedBytes(old(memory), a, memory)
    {
      hide Raised, RaisedBytes;
      ghost var m := memory;
      var i := 0;
      while i < TEST_LEN && memory[a + i] != 0
        invariant 0 <= i <= TEST_LEN
        invariant Text(m, a, a + i)
        invariant memory == RaisedTo(m, a, a + i)
      {
        RaiseOne(m, a, a + i);
        if memory[a + i] >= 97 && memory[a + i] <= 122 {
          memory := memory[a + i := memory[a + i] - 97 + 65];
        }
        i := i + 1;
      }
      RaisedAll(m, a, a + i);
      RaisedIs(m, a);
    }

    /** walk_userspace_page_table, with every exit giving the lock back; `shown` is the physical address
        it printed. */
    method WalkUserspacePageTable(mm: Option<Mm>, v: u64) returns (ret: int, shown: Option<nat>)
      requires mm.Present? ==> Reachable(kernel, tables, memory, mm.value.pgd, v)
      modifies this`readers, this`memory
      ensures readers == old(readers)
      ensures ret == if mm.Absent? then -22 else if Walk(kernel, tables, mm.value.pgd, v).Failed? then -14 else 0
      ensures shown == if mm.Absent? then Absent else Shown(Walk(kernel, tables, mm.value.pgd, v))
      ensures memory == if mm.Absent? then old(memory) else AfterWalk(kernel, tables, old(memory), mm.value.pgd, v)
    {
      hide And, Or, Bit, Shr, Raised, Entry, Readable, Stored;
      if mm.Absent? {
        return EINVAL, Absent;
      }
      MmapReadLock();
      var p4d := Entry(tables, Slot(mm.value.pgd, v, 39));
      if None(p4d) || P4dBad(p4d) {
        MmapReadUnlock();
        return EFAULT, Absent;
      }
      var pud := Entry(tables, Slot(And(p4d, PTE_PFN_MASK), v, 30));
      if None(pud) {
        MmapReadUnlock();
        return EFAULT, Absent;
      }
      var paddr: nat;
      if IsPudLeaf(kernel, pud) {
        paddr := Or(And(pud, PUD_MASK), And(v, PUD_LOW));
        MmapReadUnlock();
        return 0, Present(paddr);
      }
      if PudBad(pud) {
        MmapReadUnlock();
        return EFAULT, Absent;
      }
      var pmd := Entry(tables, Slot(And(pud, PTE_PFN_MASK), v, 21));
      if None(pmd) {
        MmapReadUnlock();
        return EFAULT, Absent;
      }
      if IsPmdLeaf(pmd) {
        paddr := Or(And(pmd, PMD_MASK), And(v, PMD_LOW));
        var page := Shr(And(Stored(pmd), PMD_PAGE_MASK), 12);
        var pageOffset := Shr(And(v, PMD_LOW), 12);
        var targetPage := page + pageOffset;
        RaiseText(Shl(targetPage, 12) + And(v, PAGE_LOW));
        MmapReadUnlock();
        return 0, Present(paddr);
      }
      if PmdBad(pmd) {
        MmapReadUnlock();
        return EFAULT, Absent;
      }
      var pte := Entry(tables, Slot(And(pmd, PTE_PFN_MASK), v, 12));
      if None(pte) {
        MmapReadUnlock();
        return EFAULT, Absent;
      }
      if !PtePresent(pte) {
        MmapReadUnlock();
        return EFAULT, Absent;
      }
      paddr := Or(And(pte, PTE_PFN_MASK), And(v, PAGE_LOW));
      var page := Shr(And(Stored(pte), PTE_PFN_MASK), 12);
      RaiseText(Shl(page, 12) + And(v, PAGE_LOW));
      MmapReadUnlock();
      return 0, Present(paddr);
    }

    /** vaddr_write; -22 is EINVAL, -14 EFAULT, -3 ESRCH. `copied` and `parsed` are what
        copy_from_user and kstrtoul gave (`parsed` negative: an error code); `mm` is that of the
        calling process. Every address inside an area counts as written, also when it has no
        translation: only the status tells. */
    method VaddrWrite(count: nat, copied: bool, parsed: int, mm: Option<Mm>) returns (ret: int)
      requires parsed < 0x1_0000_0000_0000_0000
      requires mm.Present? && parsed >= 0 ==>
        Ordered(mm.value.vmas) && Reachable(kernel, tables, memory, mm.value.pgd, parsed)
      modifies this`readers, this`memory, this`status
      ensures readers == old(readers)
      ensures ret == if count >= 32 then -22
                     else if !copied then -14
                     else if parsed < 0 then parsed
                     else if mm.Absent? then -3
                     else if !Covered(mm.value.vmas, parsed) then -14
                     else count
      ensures status == if count >= 32 || !copied then old(status)
                        else if parsed < 0 then BadFormat
                        else if mm.Absent? then NoContext
                        else if !Covered(mm.value.vmas, parsed) then NotValid(-14)
                        else if Walk(kernel, tables, mm.value.pgd, parsed).Failed? then WalkFailed(-14)
                        else Success
      ensures status == Success && count < 32 && copied ==>
        memory == AfterWalk(kernel, tables, old(memory), mm.value.pgd, parsed)
      ensures ret < 0 || status != Success ==> memory == old(memory)
    {
      if count >= MAX_ADDR_LEN {
        return EINVAL;
      }
      if !copied {
        return EFAULT;
      }
      if parsed < 0 {
        status := BadFormat;
        return parsed;
      }
      if mm.Absent? {
        status := NoContext;
        return ESRCH;
      }
      ret := ValidateUserAddress(mm, parsed);
      if ret != 0 {
        status := NotValid(ret);
        return ret;
      }
      var shown;
      ret, shown := WalkUserspacePageTable(mm, parsed);
      if ret != 0 {
        status := WalkFailed(ret);
      } else {
        status := Success;
      }
      return count;
    }
  }
}
