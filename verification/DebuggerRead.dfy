/**
 Bits of addresses and page table entries, as the debugger's page walk takes
 them apart and puts them together (src/debugger.c, debugger_translate).
 */
module PageBits {

  const PAGE: bv32 := 0xffff_f000
  const LOW: bv32 := 0xfff
  const LIMIT40: bv64 := 0xff_ffff_ffff
  const FOUR_GB: bv64 := 0x1_0000_0000

  function Low32(x: bv64): bv32 { (x & 0xffff_ffff) as bv32 }

  // Parts of a linear address.

  function Page(a: bv32): bv32 { a & PAGE }

  function Low(a: bv32): bv32 { a & LOW }

  function PdpteIndex(linear: bv32): bv32 { (linear >> 30) & 3 }

  function PaePdeIndex(linear: bv32): bv32 { (linear >> 18) & 0xff8 }

  function PaePteIndex(linear: bv32): bv32 { (linear >> 9) & 0xff8 }

  function PdeIndex(linear: bv32): bv32 { (linear >> 20) & 0xffc }

  function PteIndex(linear: bv32): bv32 { (linear >> 10) & 0xffc }

  // Where the entries are and what they say.

  function TableEntry64(entry: bv64, index: bv32): bv64 {
    (entry & LIMIT40 & 0xffff_ffff_ffff_f000) + (index as bv64)
  }

  function TableEntry32(entry: bv32, index: bv32): bv32 { (entry & PAGE) + index }

  /** An aligned entry's address, truncated, and its two dwords. */
  function EntryAddress(addr: bv64): bv32 { Low32(addr & 0xffff_ffff_ffff_fff8) }

  function Next(a: bv32): bv32 { a + 4 }

  function Join(low: bv32, high: bv32): bv64 { (low as bv64) | ((high as bv64) << 32) }

  predicate Present64(e: bv64) { e & 1 != 0 }

  predicate Present32(e: bv32) { e & 1 != 0 }

  predicate Large64(e: bv64) { e & 0x80 != 0 }

  predicate Large32(e: bv32) { e & 0x80 != 0 }

  function Frame2M(pde: bv64): bv64 { pde & LIMIT40 & 0xffff_ffff_ffe0_0000 }

  function Frame4M(pde: bv32, pse36: bool): bv64 {
    ((pde & 0xffc0_0000) as bv64) | (if pse36 then ((pde & 0x1_e000) as bv64) << 19 else 0)
  }

  function Frame4KPae(pte: bv64): bv64 { pte & 0xff_ffff_f000 }

  function Frame4K(pte: bv32): bv64 { (pte & PAGE) as bv64 }

  // An address in a frame of each size.

  function Add64(x: bv64, y: bv64): bv64 { x + y }

  function Offset4K(linear: bv32): bv64 { (linear & LOW) as bv64 }

  function Offset2M(linear: bv32): bv64 { (linear & 0x1f_ffff) as bv64 }

  function Offset4M(linear: bv32): bv64 { (linear & 0x3f_ffff) as bv64 }

  function In4K(frame: bv64, linear: bv32): bv64 { Add64(frame, Offset4K(linear)) }

  function In2M(frame: bv64, linear: bv32): bv64 { Add64(frame, Offset2M(linear)) }

  function In4M(frame: bv64, linear: bv32): bv64 { Add64(frame, Offset4M(linear)) }

  predicate TooHigh(p: bv64) { p >= FOUR_GB }

  function And(x: bv32, m: bv32): bv32 { x & m }

  function Or(x: bv32, y: bv32): bv32 { x | y }

  // ---- Facts ----

  lemma SamePdpteIndex(a: bv32)
    ensures PdpteIndex(Page(a)) == PdpteIndex(a)
  {
  }

  lemma SamePaePdeIndex(a: bv32)
    ensures PaePdeIndex(Page(a)) == PaePdeIndex(a)
  {
  }

  lemma SamePaePteIndex(a: bv32)
    ensures PaePteIndex(Page(a)) == PaePteIndex(a)
  {
  }

  lemma SamePdeIndex(a: bv32)
    ensures PdeIndex(Page(a)) == PdeIndex(a)
  {
  }

  lemma SamePteIndex(a: bv32)
    ensures PteIndex(Page(a)) == PteIndex(a)
  {
  }

  /** A page's entries are those of all its bytes. */
  lemma SameEntries(a: bv32)
    ensures PdpteIndex(Page(a)) == PdpteIndex(a)
    ensures PaePdeIndex(Page(a)) == PaePdeIndex(a)
    ensures PaePteIndex(Page(a)) == PaePteIndex(a)
    ensures PdeIndex(Page(a)) == PdeIndex(a)
    ensures PteIndex(Page(a)) == PteIndex(a)
  {
    hide *;
    SamePdpteIndex(a);
    SamePaePdeIndex(a);
    SamePaePteIndex(a);
    SamePdeIndex(a);
    SamePteIndex(a);
  }

  /** A page's frame: 4 KB aligned, below the 40 bits an entry can hold. */
  predicate Aligned(q: bv64) { q & 0xfff == 0 && q <= LIMIT40 }

  lemma Associate(x: bv64, y: bv64, z: bv64)
    ensures Add64(x, Add64(y, z)) == Add64(Add64(x, y), z)
  {
    calc {
      Add64(x, Add64(y, z));
      Add64(x, y + z);
      x + (y + z);
      (x + y) + z;
      Add64(x + y, z);
      Add64(Add64(x, y), z);
    }
  }

  lemma Aligned4K(frame: bv64, a: bv32)
    requires frame & 0xfff == 0 && frame <= LIMIT40
    ensures Aligned(In4K(frame, Page(a)))
  {
  }

  lemma Split4K(a: bv32)
    ensures Offset4K(a) == Add64(Offset4K(Page(a)), Offset4K(a))
  {
  }

  lemma Joined4K(frame: bv64, a: bv32)
    ensures In4K(frame, a) == In4K(In4K(frame, Page(a)), a)
  {
    hide Add64, Offset4K, Offset2M, Offset4M, Page;
    Split4K(a);
    Associate(frame, Offset4K(Page(a)), Offset4K(a));
  }

  lemma Aligned2M(frame: bv64, a: bv32)
    requires frame & 0x1f_ffff == 0 && frame <= LIMIT40
    ensures Aligned(In2M(frame, Page(a)))
  {
  }

  lemma Split2M(a: bv32)
    ensures Offset2M(a) == Add64(Offset2M(Page(a)), Offset4K(a))
  {
  }

  lemma Joined2M(frame: bv64, a: bv32)
    ensures In2M(frame, a) == In4K(In2M(frame, Page(a)), a)
  {
    hide Add64, Offset4K, Offset2M, Offset4M, Page;
    Split2M(a);
    Associate(frame, Offset2M(Page(a)), Offset4K(a));
  }

  lemma Aligned4M(frame: bv64, a: bv32)
    requires frame & 0x3f_ffff == 0 && frame <= LIMIT40
    ensures Aligned(In4M(frame, Page(a)))
  {
  }

  lemma Split4M(a: bv32)
    ensures Offset4M(a) == Add64(Offset4M(Page(a)), Offset4K(a))
  {
  }

  lemma Joined4M(frame: bv64, a: bv32)
    ensures In4M(frame, a) == In4K(In4M(frame, Page(a)), a)
  {
    hide Add64, Offset4K, Offset2M, Offset4M, Page;
    Split4M(a);
    Associate(frame, Offset4M(Page(a)), Offset4K(a));
  }

  lemma Frames32(e: bv32, pse36: bool)
    ensures Frame4K(e) & 0xfff == 0 && Frame4K(e) <= LIMIT40
    ensures Frame4M(e, pse36) & 0x3f_ffff == 0 && Frame4M(e, pse36) <= LIMIT40
  {
    if pse36 { } else { }
  }

  lemma Frames64(e: bv64)
    ensures Frame4KPae(e) & 0xfff == 0 && Frame4KPae(e) <= LIMIT40
    ensures Frame2M(e) & 0x1f_ffff == 0 && Frame2M(e) <= LIMIT40
  {
  }

  /** The address the cached page gives for byte a. */
  function Cached(pagePhys: bv32, a: bv32): bv32 { Or(Page(pagePhys), Low(a)) }

  /** The A20 mask leaves the offset of a alone. */
  predicate OffsetKept(a: bv32, a20: bv32) { And(Low(a), a20) == Low(a) }

  lemma BelowFourGb(q: bv64, a: bv32)
    requires Aligned(q)
    ensures TooHigh(q) <==> TooHigh(In4K(q, a))
    ensures !TooHigh(q) ==> Low(Low32(q)) == 0 && Low32(In4K(q, a)) == Or(Low32(q), Low(a))
  {
  }

  lemma AndOfOr(f: bv32, off: bv32, m: bv32)
    ensures And(Or(f, off), m) == Or(And(f, m), And(off, m))
  {
  }

  lemma AndOfPage(f: bv32, m: bv32)
    requires Low(f) == 0
    ensures Page(And(f, m)) == And(f, m)
  {
  }

  lemma LowOfAnd(f: bv32, m: bv32)
    requires Low(f) == 0
    ensures Low(And(f, m)) == 0
  {
  }

  lemma SameJoin(x: bv32, u: bv32, v: bv32)
    requires Low(x) == 0 && Low(u) == u && Low(v) == v
    ensures Or(x, u) == Or(x, v) <==> u == v
  {
    assert Low(Or(x, u)) == u && Low(Or(x, v)) == v;
  }

  lemma LowOfLow(a: bv32, m: bv32)
    ensures Low(Low(a)) == Low(a) && Low(And(Low(a), m)) == And(Low(a), m)
  {
  }

  // ---- The same in arithmetic ----

  predicate Odd(e: bv32) { e % 2 == 1 }

  predicate Odd64(e: bv64) { e % 2 == 1 }

  predicate Bit7(e: bv32) { e / 0x80 % 2 == 1 }

  predicate Bit7of64(e: bv64) { e / 0x80 % 2 == 1 }

  /** 32-bit paging: 10 bits choose the directory entry, 10 the table entry. */
  function DirectoryAt(cr3: bv32, linear: bv32): bv32 { cr3 / 0x1000 * 0x1000 + 4 * (linear / 0x40_0000) }

  function TableAt(pde: bv32, linear: bv32): bv32 { pde / 0x1000 * 0x1000 + 4 * (linear / 0x1000 % 0x400) }

  /** And 12 the byte, or 22 the byte in a 4 MB page, whose frame may have four
      more bits. */
  function ByteIn4K(pte: bv32, linear: bv32): bv64 { (pte / 0x1000 * 0x1000) as bv64 + (linear % 0x1000) as bv64 }

  function ByteIn4M(pde: bv32, pse36: bool, linear: bv32): bv64 {
    (pde / 0x40_0000 * 0x40_0000) as bv64 + (if pse36 then (pde / 0x2000 % 16) as bv64 * 0x1_0000_0000 else 0)
    + (linear % 0x40_0000) as bv64
  }

  /** PAE: 2, 9 and 9 bits choose the entries; 40 bits of an entry count. */
  function PointerIndex(linear: bv32): bv32 { linear / 0x4000_0000 }

  function PaeDirectoryAt(pdpte: bv64, linear: bv32): bv64 {
    pdpte % 0x100_0000_0000 / 0x1000 * 0x1000 + (8 * (linear / 0x20_0000 % 0x200)) as bv64
  }

  function PaeTableAt(pde: bv64, linear: bv32): bv64 {
    pde % 0x100_0000_0000 / 0x1000 * 0x1000 + (8 * (linear / 0x1000 % 0x200)) as bv64
  }

  /** And 12 the byte, or 21 the byte in a 2 MB page. */
  function ByteInPae4K(pte: bv64, linear: bv32): bv64 {
    pte % 0x100_0000_0000 / 0x1000 * 0x1000 + (linear % 0x1000) as bv64
  }

  function ByteIn2M(pde: bv64, linear: bv32): bv64 {
    pde % 0x100_0000_0000 / 0x20_0000 * 0x20_0000 + (linear % 0x20_0000) as bv64
  }

  /** 32 bits of an address count, in eights. */
  function QwordAt(addr: bv64): bv32 { (addr / 8 * 8 % 0x1_0000_0000) as bv32 }

  function Qword(low: bv32, high: bv32): bv64 { low as bv64 + high as bv64 * 0x1_0000_0000 }

  predicate PastFourGb(p: bv64) { p / 0x1_0000_0000 != 0 }

  function Within(p: bv64): bv32 { (p % 0x1_0000_0000) as bv32 }

  lemma FlagsAre(e: bv32)
    ensures Present32(e) == Odd(e) && Large32(e) == Bit7(e)
  {
  }

  lemma FlagsAre64(e: bv64)
    ensures Present64(e) == Odd64(e) && Large64(e) == Bit7of64(e)
  {
  }

  lemma IndexIs(a: bv32)
    ensures PdeIndex(a) == 4 * (a / 0x40_0000) && PteIndex(a) == 4 * (a / 0x1000 % 0x400)
    ensures PdpteIndex(a) == PointerIndex(a)
    ensures PaePdeIndex(a) == 8 * (a / 0x20_0000 % 0x200) && PaePteIndex(a) == 8 * (a / 0x1000 % 0x200)
  {
  }

  lemma PageIs(e: bv32)
    ensures e & PAGE == e / 0x1000 * 0x1000
  {
  }

  lemma EntriesAre(e: bv32, a: bv32)
    ensures TableEntry32(e, PdeIndex(a)) == DirectoryAt(e, a) && TableEntry32(e, PteIndex(a)) == TableAt(e, a)
  {
    IndexIs(a);
    PageIs(e);
  }

  lemma Page64Is(e: bv64)
    ensures e & LIMIT40 & 0xffff_ffff_ffff_f000 == e % 0x100_0000_0000 / 0x1000 * 0x1000
  {
  }

  lemma PaeEntriesAre(e: bv64, a: bv32)
    ensures TableEntry64(e, PaePdeIndex(a)) == PaeDirectoryAt(e, a)
    ensures TableEntry64(e, PaePteIndex(a)) == PaeTableAt(e, a)
  {
    IndexIs(a);
    Page64Is(e);
  }

  lemma OffsetsAre(a: bv32)
    ensures Offset4K(a) == (a % 0x1000) as bv64 && Offset2M(a) == (a % 0x20_0000) as bv64
    ensures Offset4M(a) == (a % 0x40_0000) as bv64
  {
  }

  lemma In4KIs(e: bv32, a: bv32)
    ensures In4K(Frame4K(e), a) == ByteIn4K(e, a)
  {
    PageIs(e);
    OffsetsAre(a);
  }

  lemma Page4MIs(e: bv32)
    ensures e & 0xffc0_0000 == e / 0x40_0000 * 0x40_0000
  {
  }

  lemma Pse36Is(e: bv32)
    ensures ((e & 0x1_e000) as bv64) << 19 == (e / 0x2000 % 16) as bv64 * 0x1_0000_0000
  {
  }

  lemma DisjointSum(x: bv32, y: bv64)
    requires y & 0xffff_ffff == 0
    ensures (x as bv64) | y == x as bv64 + y
  {
  }

  lemma In4MIs(e: bv32, pse36: bool, a: bv32)
    ensures In4M(Frame4M(e, pse36), a) == ByteIn4M(e, pse36, a)
  {
    Page4MIs(e);
    Pse36Is(e);
    OffsetsAre(a);
    if pse36 { DisjointSum(e & 0xffc0_0000, ((e & 0x1_e000) as bv64) << 19); }
  }

  lemma Page2MIs(e: bv64)
    ensures Frame2M(e) == e % 0x100_0000_0000 / 0x20_0000 * 0x20_0000
  {
  }

  lemma PaeBytesAre(e: bv64, a: bv32)
    ensures In2M(Frame2M(e), a) == ByteIn2M(e, a)
  {
    Page2MIs(e);
    OffsetsAre(a);
  }

  lemma Frame4KIs(e: bv64)
    ensures Frame4KPae(e) == e % 0x100_0000_0000 / 0x1000 * 0x1000
  {
  }

  lemma PaeSmallIs(e: bv64, a: bv32)
    ensures In4K(Frame4KPae(e), a) == ByteInPae4K(e, a)
  {
    Frame4KIs(e);
    OffsetsAre(a);
  }

  lemma QwordAtIs(a: bv64)
    ensures EntryAddress(a) == QwordAt(a)
  {
  }

  lemma QwordIs(x: bv32, y: bv32)
    ensures Join(x, y) == Qword(x, y)
  {
  }

  lemma HighIs(p: bv64)
    ensures TooHigh(p) == PastFourGb(p) && Low32(p) == Within(p)
  {
  }

  lemma KeepsLow(a: bv32, a20: bv32)
    requires a20 & LOW == LOW
    ensures OffsetKept(a, a20)
  {
  }
}

/**
 The debugger's memory view (src/debugger.c): linear reads walk the page tables
 once per page, and must show each byte as translating it alone would.
 */
module DebuggerRead {
  import opened Optional
  import opened PageBits


  /** What is behind a physical address: the byte (FFh where nothing can be
      read) and what kind of memory it is. */
  datatype Class = Ram | Rom | Video | Inaccessible | Unmapped
  datatype Cell = Cell(byte: bv8, cls: Class)

  /** The processor state translation looks at, the page tables as its walk
      reads them, and memory behind the physical addresses. */
  datatype Cpu = Cpu(
    paged: bool, pae: bool, pse: bool, pse36: bool,
    cr3: bv32, pdpte: bv32 -> bv64, a20: bv32,
    word: bv32 -> bv32, phys: bv32 -> Cell)

  /** debugger_pt_read64: two dwords of an aligned entry, address truncated. */
  function Entry64(cpu: Cpu, addr: bv64): bv64 {
    var a := EntryAddress(addr);
    Join(cpu.word(a), cpu.word(Next(a)))
  }

  /** The page walk, before the A20 mask: the physical address in 64 bits. */
  function WalkPae(cpu: Cpu, linear: bv32): Option<bv64> {
    var pdpte := cpu.pdpte(PdpteIndex(linear));
    if !Present64(pdpte) then None
    else
      var pde := Entry64(cpu, TableEntry64(pdpte, PaePdeIndex(linear)));
      if !Present64(pde) then None
      else if Large64(pde) then Some(In2M(Frame2M(pde), linear))
      else
        var pte := Entry64(cpu, TableEntry64(pde, PaePteIndex(linear)));
        if !Present64(pte) then None else Some(In4K(Frame4KPae(pte), linear))
  }

  function Walk32(cpu: Cpu, linear: bv32): Option<bv64> {
    var pde := cpu.word(TableEntry32(cpu.cr3, PdeIndex(linear)));
    if !Present32(pde) then None
    else if Large32(pde) && cpu.pse then Some(In4M(Frame4M(pde, cpu.pse36), linear))
    else
      var pte := cpu.word(TableEntry32(pde, PteIndex(linear)));
      if !Present32(pte) then None else Some(In4K(Frame4K(pte), linear))
  }

  function Walk(cpu: Cpu, linear: bv32): Option<bv64> {
    if cpu.pae then WalkPae(cpu, linear) else Walk32(cpu, linear)
  }

  /** Nothing is mapped past 4 GB; the rest goes through the A20 mask. */
  function Masked(p: bv64, a20: bv32): Option<bv32> {
    if TooHigh(p) then None else Some(And(Low32(p), a20))
  }

  /** debugger_translate. */
  function Translate(cpu: Cpu, linear: bv32): Option<bv32> {
    if !cpu.paged then Some(And(linear, cpu.a20))
    else
      match Walk(cpu, linear)
      case None => None
      case Some(p) => Masked(p, cpu.a20)
  }

  // ---- What the walk finds, in arithmetic ----

  function EntryAt(cpu: Cpu, addr: bv64): bv64 {
    Qword(cpu.word(QwordAt(addr)), cpu.word(Next(QwordAt(addr))))
  }

  function Mapped32(cpu: Cpu, linear: bv32): Option<bv64> {
    var pde := cpu.word(DirectoryAt(cpu.cr3, linear));
    if !Odd(pde) then None
    else if cpu.pse && Bit7(pde) then Some(ByteIn4M(pde, cpu.pse36, linear))
    else var pte := cpu.word(TableAt(pde, linear)); if !Odd(pte) then None else Some(ByteIn4K(pte, linear))
  }

  function MappedPae(cpu: Cpu, linear: bv32): Option<bv64> {
    var pdpte := cpu.pdpte(PointerIndex(linear));
    if !Odd64(pdpte) then None
    else
      var pde := EntryAt(cpu, PaeDirectoryAt(pdpte, linear));
      if !Odd64(pde) then None
      else if Bit7of64(pde) then Some(ByteIn2M(pde, linear))
      else
        var pte := EntryAt(cpu, PaeTableAt(pde, linear));
        if !Odd64(pte) then None else Some(ByteInPae4K(pte, linear))
  }

  /** Where a linear address is in memory: nowhere if an entry is absent or the
      address is past 4 GB. */
  function Mapped(cpu: Cpu, linear: bv32): Option<bv32> {
    if !cpu.paged then Some(And(linear, cpu.a20))
    else
      match if cpu.pae then MappedPae(cpu, linear) else Mapped32(cpu, linear)
      case None => None
      case Some(p) => if PastFourGb(p) then None else Some(And(Within(p), cpu.a20))
  }

  lemma EntryIs(cpu: Cpu, addr: bv64)
    ensures Entry64(cpu, addr) == EntryAt(cpu, addr)
  {
    hide QwordAt, Qword, EntryAddress, Join, Next;
    QwordAtIs(addr);
    QwordIs(cpu.word(QwordAt(addr)), cpu.word(Next(QwordAt(addr))));
  }

  lemma Walk32Is(cpu: Cpu, linear: bv32)
    ensures Walk32(cpu, linear) == Mapped32(cpu, linear)
  {
    hide PdeIndex, PteIndex, TableEntry32, Present32, Large32, Frame4K, Frame4M, In4K, In4M;
    hide DirectoryAt, TableAt, Odd, Bit7, ByteIn4K, ByteIn4M;
    var pde := cpu.word(DirectoryAt(cpu.cr3, linear));
    var pte := cpu.word(TableAt(pde, linear));
    EntriesAre(cpu.cr3, linear);
    EntriesAre(pde, linear);
    FlagsAre(pde);
    FlagsAre(pte);
    In4KIs(pte, linear);
    In4MIs(pde, cpu.pse36, linear);
  }

  lemma WalkPaeIs(cpu: Cpu, linear: bv32)
    ensures WalkPae(cpu, linear) == MappedPae(cpu, linear)
  {
    hide PdpteIndex, PaePdeIndex, PaePteIndex, TableEntry64, Present64, Large64, Frame2M, Frame4KPae, In4K, In2M;
    hide Entry64, EntryAt, PointerIndex, PaeDirectoryAt, PaeTableAt, Odd64, Bit7of64, ByteInPae4K, ByteIn2M;
    IndexIs(linear);
    var pdpte := cpu.pdpte(PointerIndex(linear));
    var pde := EntryAt(cpu, PaeDirectoryAt(pdpte, linear));
    var pte := EntryAt(cpu, PaeTableAt(pde, linear));
    PaeEntriesAre(pdpte, linear);
    PaeEntriesAre(pde, linear);
    EntryIs(cpu, PaeDirectoryAt(pdpte, linear));
    EntryIs(cpu, PaeTableAt(pde, linear));
    FlagsAre64(pdpte);
    FlagsAre64(pde);
    FlagsAre64(pte);
    PaeBytesAre(pde, linear);
    PaeSmallIs(pte, linear);
  }

  /** The debugger translates an address to where it is. */
  lemma TranslateIs(cpu: Cpu, linear: bv32)
    ensures Translate(cpu, linear) == Mapped(cpu, linear)
  {
    hide Walk32, WalkPae, Mapped32, MappedPae, And, TooHigh, PastFourGb, Low32, Within;
    Walk32Is(cpu, linear);
    WalkPaeIs(cpu, linear);
    match Walk(cpu, linear)
    case None =>
    case Some(p) => HighIs(p);
  }

  /** What translating one byte alone shows. */
  function Shown(cpu: Cpu, a: bv32): Cell {
    match Mapped(cpu, a)
    case None => Cell(0xff, Inaccessible)
    case Some(p) => cpu.phys(p)
  }

  // ---- Bytes of a page translate together ----

  /** a walks to the frame its page walks to, plus its offset. */
  predicate FromPage(page: Option<bv64>, byte: Option<bv64>, a: bv32) {
    match page
    case None => byte == None
    case Some(q) => Aligned(q) && byte == Some(In4K(q, a))
  }

  lemma Walk32ByPage(cpu: Cpu, a: bv32)
    ensures FromPage(Walk32(cpu, Page(a)), Walk32(cpu, a), a)
  {
    hide Page, PdeIndex, PteIndex, TableEntry32, Present32, Large32, Frame4M, Frame4K, In4K, In4M, Aligned;
    var pde := cpu.word(TableEntry32(cpu.cr3, PdeIndex(a)));
    var pte := cpu.word(TableEntry32(pde, PteIndex(a)));
    SameEntries(a);
    Frames32(pte, cpu.pse36);
    Frames32(pde, cpu.pse36);
    Aligned4M(Frame4M(pde, cpu.pse36), a);
    Joined4M(Frame4M(pde, cpu.pse36), a);
    Aligned4K(Frame4K(pte), a);
    Joined4K(Frame4K(pte), a);
  }

  lemma WalkPaeByPage(cpu: Cpu, a: bv32)
    ensures FromPage(WalkPae(cpu, Page(a)), WalkPae(cpu, a), a)
  {
    hide Page, PdpteIndex, PaePdeIndex, PaePteIndex, TableEntry64, Present64, Large64, Frame2M, Frame4KPae, In4K, In2M,
      Aligned, Entry64;
    var pdpte := cpu.pdpte(PdpteIndex(a));
    var pde := Entry64(cpu, TableEntry64(pdpte, PaePdeIndex(a)));
    var pte := Entry64(cpu, TableEntry64(pde, PaePteIndex(a)));
    SameEntries(a);
    Frames64(pde);
    Frames64(pte);
    Aligned2M(Frame2M(pde), a);
    Joined2M(Frame2M(pde), a);
    Aligned4K(Frame4KPae(pte), a);
    Joined4K(Frame4KPae(pte), a);
  }

  lemma MaskedByPage(q: bv64, a: bv32, a20: bv32)
    requires Aligned(q)
    ensures var page, byte := Masked(q, a20), Masked(In4K(q, a), a20);
            && (page.None? <==> byte.None?)
            && (page.Some? ==> (byte.value == Cached(page.value, a) <==> OffsetKept(a, a20)))
  {
    hide In4K, Low32, TooHigh, Low, Page, And, Or;
    BelowFourGb(q, a);
    if !TooHigh(q) {
      var f := Low32(q);
      AndOfOr(f, Low(a), a20);
      AndOfPage(f, a20);
      LowOfAnd(f, a20);
      LowOfLow(a, a20);
      SameJoin(And(f, a20), Low(a), And(Low(a), a20));
    }
  }

  /** In a page, each byte translates to the page's frame and its own offset
      exactly when the A20 mask keeps the bits of that offset; the page is
      there for all of its bytes or for none. */
  lemma PageTranslates(cpu: Cpu, a: bv32)
    requires cpu.paged
    ensures var page, byte := Translate(cpu, Page(a)), Translate(cpu, a);
            && (page.None? <==> byte.None?)
            && (page.Some? ==> (byte.value == Cached(page.value, a) <==> OffsetKept(a, cpu.a20)))
  {
    hide Walk32, WalkPae, In4K, Aligned, Masked, Cached, OffsetKept, Page, And;
    if cpu.pae { WalkPaeByPage(cpu, a); } else { Walk32ByPage(cpu, a); }
    match Walk(cpu, Page(a))
    case None =>
    case Some(q) => MaskedByPage(q, a, cpu.a20);
  }

  // ---- The read ----

  /** addr + k in 32 bits: wraps at 4 GB. */
  function Plus(addr: bv32, k: nat): bv32 {
    if k == 0 then addr else Plus(addr, k - 1) + 1
  }

  /** What a read of byte k should show. */
  function Wanted(cpu: Cpu, linear: bool, addr: bv32, k: nat): Cell {
    if linear then Shown(cpu, Plus(addr, k)) else cpu.phys(Plus(addr, k))
  }

  /** What the translation of its page shows of a byte. */
  function ByPage(cpu: Cpu, a: bv32): Cell {
    match Translate(cpu, Page(a))
    case None => Cell(0xff, Inaccessible)
    case Some(p) => cpu.phys(if !cpu.paged then And(a, cpu.a20) else Cached(p, a))
  }

  /** That is what translating it alone shows, with paging exactly when the A20
      mask keeps the byte's offset, if the memory tells the two apart. */
  lemma ByteOfPage(cpu: Cpu, a: bv32)
    ensures !cpu.paged || OffsetKept(a, cpu.a20) ==> ByPage(cpu, a) == Shown(cpu, a)
    ensures cpu.paged && !OffsetKept(a, cpu.a20) && Translate(cpu, a).Some? ==>
              exists p, q :: p != q && ByPage(cpu, a) == cpu.phys(p) && Shown(cpu, a) == cpu.phys(q)
  {
    hide Page, And, Mapped;
    TranslateIs(cpu, a);
    if cpu.paged {
      hide Translate, Cached, OffsetKept;
      PageTranslates(cpu, a);
      if Translate(cpu, a).Some? {
        var p, q := Cached(Translate(cpu, Page(a)).value, a), Translate(cpu, a).value;
        assert ByPage(cpu, a) == cpu.phys(p) && Shown(cpu, a) == cpu.phys(q);
      }
    }
  }

  /** What a read shows of byte k. */
  function Got(cpu: Cpu, linear: bool, addr: bv32, k: nat): Cell {
    if linear then ByPage(cpu, Plus(addr, k)) else cpu.phys(Plus(addr, k))
  }

  /** The byte is as translating it alone shows it. */
  predicate Faithful(cpu: Cpu, linear: bool, addr: bv32, k: nat) {
    Got(cpu, linear, addr, k) == Wanted(cpu, linear, addr, k)
  }

  lemma ReadShows(cpu: Cpu, linear: bool, addr: bv32)
    ensures forall k: nat ::
              !linear || !cpu.paged || OffsetKept(Plus(addr, k), cpu.a20) ==> Faithful(cpu, linear, addr, k)
    ensures cpu.a20 & LOW == LOW ==> forall k: nat :: Faithful(cpu, linear, addr, k)
  {
    hide ByPage, Shown, OffsetKept;
    forall k: nat
      ensures !linear || !cpu.paged || OffsetKept(Plus(addr, k), cpu.a20) ==> Faithful(cpu, linear, addr, k)
      ensures cpu.a20 & LOW == LOW ==> Faithful(cpu, linear, addr, k)
    {
      ByteOfPage(cpu, Plus(addr, k));
      if cpu.a20 & LOW == LOW { KeepsLow(Plus(addr, k), cpu.a20); }
    }
  }

  /** debugger_mem_read, linear or physical: one walk per page run. Either
      array may be absent. Every byte is shown as translating it alone would,
      with any A20 mask that keeps its offset in its page. */
  method MemRead(cpu: Cpu, linear: bool, addr: bv32, len: nat, data: array?<bv8>, cls: array?<Class>)
    requires data != null ==> data.Length == len
    requires cls != null ==> cls.Length == len
    requires data != null && cls != null ==> data as object != cls as object
    modifies if data == null then {} else {data}, if cls == null then {} else {cls}
    ensures data != null ==> forall k :: 0 <= k < len ==> data[k] == Got(cpu, linear, addr, k).byte
    ensures cls != null ==> forall k :: 0 <= k < len ==> cls[k] == Got(cpu, linear, addr, k).cls
    ensures forall k: nat ::
              !linear || !cpu.paged || OffsetKept(Plus(addr, k), cpu.a20) ==> Faithful(cpu, linear, addr, k)
    ensures cpu.a20 & LOW == LOW ==> forall k: nat :: Faithful(cpu, linear, addr, k)
  {
    hide Got, OffsetKept, Faithful, Plus;
    ReadShows(cpu, linear, addr);
    ReadPages(cpu, linear, addr, len, data, cls);
  }

  method ReadPages(cpu: Cpu, linear: bool, addr: bv32, len: nat, data: array?<bv8>, cls: array?<Class>)
    requires data != null ==> data.Length == len
    requires cls != null ==> cls.Length == len
    requires data != null && cls != null ==> data as object != cls as object
    modifies if data == null then {} else {data}, if cls == null then {} else {cls}
    ensures data != null ==> forall k :: 0 <= k < len ==> data[k] == Got(cpu, linear, addr, k).byte
    ensures cls != null ==> forall k :: 0 <= k < len ==> cls[k] == Got(cpu, linear, addr, k).cls
  {
    hide ByPage, Translate, Page;
    var page, pagePhys: Option<bv32>, havePage := 0, None, false;
    var at := addr;
    var i := 0;
    while i < len
      invariant 0 <= i <= len && at == Plus(addr, i)
      invariant havePage ==> pagePhys == Translate(cpu, page)
      invariant data != null ==> forall k :: 0 <= k < i ==> data[k] == Got(cpu, linear, addr, k).byte
      invariant cls != null ==> forall k :: 0 <= k < i ==> cls[k] == Got(cpu, linear, addr, k).cls
    {
      var cell;
      if linear {
        if !havePage || Page(at) != page {
          page := Page(at);
          pagePhys := Translate(cpu, page);
          havePage := true;
        }
        cell := InPage(cpu, pagePhys, at);
      } else {
        cell := cpu.phys(at);
      }
      assert cell == Got(cpu, linear, addr, i);
      if data != null {
        data[i] := cell.byte;
      }
      if cls != null {
        cls[i] := cell.cls;
      }
      i := i + 1;
      at := at + 1;
    }
  }

  /** A byte of a page that has been translated. */
  method InPage(cpu: Cpu, pagePhys: Option<bv32>, a: bv32) returns (cell: Cell)
    requires pagePhys == Translate(cpu, Page(a))
    ensures cell == ByPage(cpu, a)
  {
    hide Translate, Page, And, Cached;
    if pagePhys.None? {
      return Cell(0xff, Inaccessible);
    }
    if !cpu.paged {
      return cpu.phys(And(a, cpu.a20));
    }
    return cpu.phys(Cached(pagePhys.value, a));
  }
}
