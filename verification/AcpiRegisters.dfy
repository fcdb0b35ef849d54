/**
 The register map, bit by bit (src/acpi.c): what a byte written to any address
 of any of the chips, and every event, leaves in each bit of each register.
 */
module AcpiRegisters {
  import opened AcpiBits
  import opened AcpiChip
  import opened AcpiSci
  import opened Optional

  // ---- The map ----

  datatype Name = PmSts | PmEn | PmCntrl | GpSts | GpEn | GpSciEn | GpSmiEn | GlbSts | GlbEn

  function Reg(r: Regs, n: Name): bv16 {
    match n
    case PmSts => r.pmsts
    case PmEn => r.pmen
    case PmCntrl => r.pmcntrl
    case GpSts => r.gpsts
    case GpEn => r.gpen
    case GpSciEn => r.gpscien
    case GpSmiEn => r.gpsmien
    case GlbSts => r.glbsts
    case GlbEn => r.glben
  }

  /** Bits that a one clears, or that hold what is written; others read zero. */
  datatype Kind = Status | Field

  datatype Place = Place(name: Name, kind: Kind, bits: set<bv4>)

  /** The registers every chip has. */
  function Common(addr: int): Option<Place> {
    if addr == 0 || addr == 1 then Some(Place(PmSts, Status, {0, 4, 5, 8, 10, 11, 15}))
    else if addr == 2 || addr == 3 then Some(Place(PmEn, Field, {0, 5, 8, 10}))
    else if addr == 4 || addr == 5 then Some(Place(PmCntrl, Field, {0, 1, 2, 8, 9, 10, 11, 12, 13}))
    else None
  }

  function Intels(usbClears: bool, addr: int): Option<Place> {
    if addr == 0x0c || addr == 0x0d then Some(Place(GpSts, Status, {0, 7, 8, 9, 10, 11}))
    else if addr == 0x0e || addr == 0x0f then Some(Place(GpEn, Field, {0, 8, 9, 10, 11}))
    else if addr == 0x18 || addr == 0x19 then
      Some(Place(GlbSts, Status, {0, 2, 5, 8, 10, 11} + if usbClears then {1} else {}))
    else if addr == 0x20 || addr == 0x21 then Some(Place(GlbEn, Field, {0, 1, 2, 3, 4, 8, 10, 11, 15}))
    else Common(addr)
  }

  function Alis(addr: int): Option<Place> {
    if addr == 0x18 || addr == 0x19 then Some(Place(GpSts, Status, {0, 1, 2, 8, 10, 11}))
    else if addr == 0x1a || addr == 0x1b then Some(Place(GpEn, Field, {0, 1, 2, 8, 10, 11}))
    else Common(addr)
  }

  /** The 596B has more inputs and global events than the 586B. */
  const INPUTS: set<bv4> := {0, 1, 2, 3, 4, 5, 6, 7, 8, 9}
  const INPUTS596: set<bv4> := INPUTS + {10, 11, 12, 14}
  const GLOBALS: set<bv4> := {0, 1, 2, 3, 4, 5, 6}
  const GLOBALS596: set<bv4> := GLOBALS + {7, 8, 10, 11, 12, 13, 14, 15}

  function Vias(v: Vendor, addr: int): Option<Place> {
    var inputs, globals := if v == Via596 then INPUTS596 else INPUTS, if v == Via596 then GLOBALS596 else GLOBALS;
    if addr == 0x20 || addr == 0x21 then Some(Place(GpSts, Status, inputs))
    else if addr == 0x22 || addr == 0x23 then Some(Place(GpSciEn, Field, inputs))
    else if addr == 0x24 || addr == 0x25 then Some(Place(GpSmiEn, Field, inputs))
    else if addr == 0x28 || addr == 0x29 then Some(Place(GlbSts, Status, globals))
    else if addr == 0x2a || addr == 0x2b then Some(Place(GlbEn, Field, globals))
    else if addr == 0x40 || addr == 0x42 then None
    else Common(addr % 64)
  }

  function Map(c: Chip, addr: int): Option<Place> {
    match c.vendor
    case Intel => Intels(c.usbClears, addr)
    case Ali => Alis(addr)
    case Via => Vias(Via, addr)
    case Via596 => Vias(Via596, addr)
  }

  /** The chips decode 64, 64, 256 and 128 bytes; VIA's first 64 repeat. */
  function Decode(v: Vendor, addr: int): int {
    match v
    case Intel => addr % 64
    case Ali => addr % 64
    case Via => addr % 256
    case Via596 => addr % 128
  }

  // ---- A write, bit by bit ----

  predicate ByteBit(x: bv8, k: bv3) { (x >> k) & 1 == 1 }

  /** A byte written at an address has bit k of the word it lies in, set. */
  predicate Sets(addr: int, val: bv8, k: bv4) { (k >= 8) == (addr % 2 == 1) && ByteBit(val, (k & 7) as bv3) }

  predicate Reaches(addr: int, k: bv4) { (k >= 8) == (addr % 2 == 1) }

  /** What the byte itself leaves in a bit. */
  predicate Stored(place: Option<Place>, r: Regs, addr: int, val: bv8, n: Name, k: bv4) {
    var was := Bit(Reg(r, n), k);
    if place.None? || place.value.name != n then was
    else match place.value.kind
         case Status => was && !(Sets(addr, val, k) && k in place.value.bits)
         case Field => (if Reaches(addr, k) then Sets(addr, val, k) else was) && k in place.value.bits
  }

  /** What goes with it: BIOS_RLS sets GBL_STS; GBL_RLS sets BIOS_STS, on VIA when
      it was clear; on VIA clearing BIOS_STS clears GBL_RLS, and a byte to the
      SMI command port sets its status. */
  predicate Brings(v: Vendor, r: Regs, size: int, a: int, val: bv8, n: Name, k: bv4) {
    || (n == PmSts && k == 5 && ReleasesBios(v, r, a, val))
    || (n == GlbSts && v == Intel && k == 0 && a == 4 && ByteBit(val, 2))
    || (n == GlbSts && IsVia(v) && ViaBrings(r, size, a, val, k))
  }

  predicate ReleasesBios(v: Vendor, r: Regs, a: int, val: bv8) {
    ByteBit(val, 1) && match v
                       case Intel => a == 0x28
                       case Ali => a == 0x20
                       case Via => a == 0x2c && !Bit32(r.glbctl, 1)
                       case Via596 => a == 0x2c && !Bit32(r.glbctl, 1)
  }

  predicate ViaBrings(r: Regs, size: int, a: int, val: bv8, k: bv4) {
    || (k == 5 && a == 4 && ByteBit(val, 2) && !Bit(r.pmcntrl, 2))
    || (k == 6 && a == 0x2f && size == 1)
  }

  predicate Expected(c: Chip, r: Regs, w: RegWrite, n: Name, k: bv4) {
    var v, a := c.vendor, Decode(c.vendor, w.addr);
    var stored := Stored(Map(c, a), r, a, w.val, n, k);
    if w.kind == PowerOff && a % 64 == 5 && ByteBit(w.val, 5) then Bit(Reg(r, n), k)
    else if IsVia(v) && n == PmCntrl && k == 2 && (a == 0x28 || a == 0x29)
            && !Stored(Map(c, a), r, a, w.val, GlbSts, 5) then false
    else stored || Brings(v, r, w.size, a, w.val, n, k)
  }

  // ---- Masks ----

  lemma LowBit(val: bv8, k: bv4)
    ensures Bit(val as bv16, k) == (k < 8 && ByteBit(val, (k & 7) as bv3))
  {
  }

  lemma HighBit(val: bv8, k: bv4)
    ensures Bit((val as bv16) << 8, k) == (k >= 8 && ByteBit(val, (k & 7) as bv3))
  {
  }

  lemma LaneBit(addr: int, val: bv8, k: bv4)
    ensures Bit(Lane(addr, val), k) == Sets(addr, val, k)
  {
    hide Bit, ByteBit;
    if addr % 2 == 0 { LowBit(val, k); } else { HighBit(val, k); }
  }

  lemma BitOfCleared(x: bv16, y: bv16, k: bv4)
    ensures Bit(Cleared(x, y), k) == (Bit(x, k) && !Bit(y, k))
  {
  }

  lemma BitOfOr(x: bv16, y: bv16, k: bv4)
    ensures Bit(Or(x, y), k) == (Bit(x, k) || Bit(y, k))
  {
  }

  lemma ClearedBit(x: bv16, addr: int, val: bv8, mask: bv16, k: bv4)
    ensures Bit(Cleared(x, And(Lane(addr, val), mask)), k) == (Bit(x, k) && !(Sets(addr, val, k) && Bit(mask, k)))
  {
    hide *;
    LaneBit(addr, val, k);
    BitOfAnd(Lane(addr, val), mask, k);
    BitOfCleared(x, And(Lane(addr, val), mask), k);
  }

  lemma HalfBit(k: bv4)
    ensures Bit(0xff00, k) == (k >= 8) && Bit(0x00ff, k) == (k < 8)
  {
  }

  lemma MergeBit(x: bv16, addr: int, val: bv8, k: bv4)
    ensures Bit(Merge(x, addr, val), k) == (if Reaches(addr, k) then Sets(addr, val, k) else Bit(x, k))
  {
    hide Bit, ByteBit, Lane, And, Or;
    var half: bv16 := if addr % 2 == 0 then 0xff00 else 0x00ff;
    HalfBit(k);
    LaneBit(addr, val, k);
    BitOfAnd(x, half, k);
    BitOfOr(And(x, half), Lane(addr, val), k);
  }

  lemma MergedBit(x: bv16, addr: int, val: bv8, mask: bv16, k: bv4)
    ensures Bit(And(Merge(x, addr, val), mask), k) ==
            ((if Reaches(addr, k) then Sets(addr, val, k) else Bit(x, k)) && Bit(mask, k))
  {
    hide *;
    MergeBit(x, addr, val, k);
    BitOfAnd(Merge(x, addr, val), mask, k);
  }

  lemma CommonMasks(k: bv4)
    ensures Bit(0x8d31, k) <==> k in {0, 4, 5, 8, 10, 11, 15}
    ensures Bit(0x0521, k) <==> k in {0, 5, 8, 10}
    ensures Bit(0x3f07, k) <==> k in {0, 1, 2, 8, 9, 10, 11, 12, 13}
  {
  }

  lemma IntelMasks(k: bv4)
    ensures Bit(0x0f81, k) <==> k in {0, 7, 8, 9, 10, 11}
    ensures Bit(0x0f01, k) <==> k in {0, 8, 9, 10, 11}
    ensures Bit(0x0d25, k) <==> k in {0, 2, 5, 8, 10, 11}
    ensures Bit(0x0d27, k) <==> k in {0, 1, 2, 5, 8, 10, 11}
    ensures Bit(0x8d1f, k) <==> k in {0, 1, 2, 3, 4, 8, 10, 11, 15}
  {
  }

  lemma OtherMasks(k: bv4)
    ensures Bit(0x0d07, k) <==> k in {0, 1, 2, 8, 10, 11}
    ensures Bit(GpMask(Via596), k) <==> k in INPUTS596
    ensures Bit(GpMask(Via), k) <==> k in INPUTS
    ensures Bit(GlobalMask(Via596), k) <==> k in GLOBALS596
    ensures Bit(GlobalMask(Via), k) <==> k in GLOBALS
  {
  }

  // ---- The writes ----

  function With(r: Regs, n: Name, x: bv16): Regs {
    match n
    case PmSts => r.(pmsts := x)
    case PmEn => r.(pmen := x)
    case PmCntrl => r.(pmcntrl := x)
    case GpSts => r.(gpsts := x)
    case GpEn => r.(gpen := x)
    case GpSciEn => r.(gpscien := x)
    case GpSmiEn => r.(gpsmien := x)
    case GlbSts => r.(glbsts := x)
    case GlbEn => r.(glben := x)
  }

  /** Apart from GLBCTL, the registers are as given. */
  predicate Left(r: Regs, t: State) { t.r == r.(glbctl := t.r.glbctl) }

  lemma RegWith(r: Regs, m: Name, x: bv16, t: State, n: Name)
    requires Left(With(r, m, x), t)
    ensures Reg(t.r, n) == if n == m then x else Reg(r, n)
  {
    match n
    case PmSts => case PmEn => case PmCntrl => case GpSts => case GpEn =>
    case GpSciEn => case GpSmiEn => case GlbSts => case GlbEn =>
  }

  lemma RegLeft(r: Regs, t: State, n: Name)
    requires Left(r, t)
    ensures Reg(t.r, n) == Reg(r, n)
  {
  }

  /** A register written as its mask says, and no other. */
  lemma StatusWritten(r: Regs, m: Name, bits: set<bv4>, mask: bv16, addr: int, val: bv8, t: State, n: Name, k: bv4)
    requires Left(With(r, m, Cleared(Reg(r, m), And(Lane(addr, val), mask))), t) && (Bit(mask, k) <==> k in bits)
    ensures Bit(Reg(t.r, n), k) == Stored(Some(Place(m, Status, bits)), r, addr, val, n, k)
  {
    hide Bit, Sets, Reaches, And, Lane, Cleared, With, Left, Reg;
    RegWith(r, m, Cleared(Reg(r, m), And(Lane(addr, val), mask)), t, n);
    ClearedBit(Reg(r, m), addr, val, mask, k);
  }

  lemma FieldWritten(r: Regs, m: Name, bits: set<bv4>, mask: bv16, addr: int, val: bv8, t: State, n: Name, k: bv4)
    requires Left(With(r, m, And(Merge(Reg(r, m), addr, val), mask)), t) && (Bit(mask, k) <==> k in bits)
    ensures Bit(Reg(t.r, n), k) == Stored(Some(Place(m, Field, bits)), r, addr, val, n, k)
  {
    hide Bit, Sets, Reaches, And, Merge, With, Left, Reg;
    RegWith(r, m, And(Merge(Reg(r, m), addr, val), mask), t, n);
    MergedBit(Reg(r, m), addr, val, mask, k);
  }

  lemma NotWritten(r: Regs, addr: int, val: bv8, t: State, n: Name, k: bv4)
    requires Left(r, t)
    ensures Bit(Reg(t.r, n), k) == Stored(None, r, addr, val, n, k)
  {
    hide Bit, Sets, Reaches;
    RegLeft(r, t, n);
  }

  lemma EdgeLeft(v: Vendor, s: State, was: bool)
    ensures Left(s.r, Edge(v, s, was))
  {
    hide Edge, Level;
    EdgeOnly(v, s, was);
  }

  lemma UpdateLeft(v: Vendor, s: State)
    ensures Update(v, s).r == s.r && Left(s.r, Update(v, s))
  {
    hide SciLevel;
  }

  lemma LeftSelf(r: Regs, t: State)
    requires t.r == r
    ensures Left(r, t)
  {
  }

  lemma ChangedLeft(v: Vendor, s: State, r: Regs)
    ensures Left(r, Changed(v, s, r))
  {
    hide Edge, Level, SciLevel;
    EdgeLeft(v, Update(v, s.(r := r)), Level(v, s));
  }

  lemma ValueBits(val: bv8)
    ensures Hits8(val, 0x20) == ByteBit(val, 5) && Hits8(val, 2) == ByteBit(val, 1) && Hits8(val, 4) == ByteBit(val, 2)
    ensures Hits8(val, 1) == ByteBit(val, 0)
  {
  }

  /** A soft power-off writes nothing. */
  predicate PowersOff(addr: int, val: bv8, kind: SleepKind) { kind == PowerOff && addr == 5 && ByteBit(val, 5) }

  lemma ControlLeft(v: Vendor, s: State, addr: int, val: bv8, kind: SleepKind)
    requires addr == 4 || addr == 5
    ensures var t := WriteControl(v, s, addr, val, kind);
            if PowersOff(addr, val, kind) then t == s
            else Left(s.r.(pmcntrl := And(Merge(s.r.pmcntrl, addr, val), 0x3f07)), t)
  {
    hide SciEnabled, Level, Update, Edge, And, Hits8, Merge, ByteBit, Left;
    ValueBits(val);
    var r := s.r.(pmcntrl := And(Merge(s.r.pmcntrl, addr, val), 0x3f07));
    var u := if addr == 5 && Hits8(val, 0x20) && kind == Suspend then s.(sleeping := true, wakePending := false) else s;
    WriteControlIs(v, s, addr, val, kind, u, r);
    UpdateLeft(v, u.(r := r));
    LeftSelf(r, u.(r := r));
    EdgeLeft(v, Update(v, u.(r := r)), Level(v, s));
  }

  lemma WriteControlIs(v: Vendor, s: State, addr: int, val: bv8, kind: SleepKind, u: State, r: Regs)
    requires u == if addr == 5 && Hits8(val, 0x20) && kind == Suspend then s.(sleeping := true, wakePending := false)
                  else s
    requires r == s.r.(pmcntrl := And(Merge(s.r.pmcntrl, addr, val), 0x3f07))
    ensures WriteControl(v, s, addr, val, kind) ==
            if addr == 5 && Hits8(val, 0x20) && kind == PowerOff then s
            else if addr == 4 && SciEnabled(s.r) != Hits8(val, 1) then Edge(v, Update(v, u.(r := r)), Level(v, s))
            else u.(r := r)
  {
    hide SciEnabled, Level, Update, Edge, And, Hits8, Merge;
  }

  lemma CommonStatus(v: Vendor, s: State, addr: int, val: bv8, kind: SleepKind, n: Name, k: bv4)
    requires addr == 0 || addr == 1
    ensures Bit(Reg(WriteCommon(v, s, addr, val, kind).r, n), k) == Stored(Common(addr), s.r, addr, val, n, k)
  {
    hide Bit, Stored, ByteBit, And, Lane, Cleared, Update, Hits8, Left;
    var r := s.r.(pmsts := Cleared(s.r.pmsts, And(Lane(addr, val), 0x8d31)));
    CommonMasks(k);
    UpdateLeft(v, s.(r := r, rtc := s.rtc && !(addr == 1 && Hits8(val, 4))));
    StatusWritten(s.r, PmSts, {0, 4, 5, 8, 10, 11, 15}, 0x8d31, addr, val, WriteCommon(v, s, addr, val, kind), n, k);
  }

  lemma CommonEnable(v: Vendor, s: State, addr: int, val: bv8, kind: SleepKind, n: Name, k: bv4)
    requires addr == 2 || addr == 3
    ensures Bit(Reg(WriteCommon(v, s, addr, val, kind).r, n), k) == Stored(Common(addr), s.r, addr, val, n, k)
  {
    hide Bit, Stored, ByteBit, And, Merge, Changed, Left;
    CommonMasks(k);
    ChangedLeft(v, s, s.r.(pmen := And(Merge(s.r.pmen, addr, val), 0x0521)));
    FieldWritten(s.r, PmEn, {0, 5, 8, 10}, 0x0521, addr, val, WriteCommon(v, s, addr, val, kind), n, k);
  }

  lemma CommonControl(v: Vendor, s: State, addr: int, val: bv8, kind: SleepKind, n: Name, k: bv4)
    requires (addr == 4 || addr == 5) && !PowersOff(addr, val, kind)
    ensures Bit(Reg(WriteCommon(v, s, addr, val, kind).r, n), k) == Stored(Common(addr), s.r, addr, val, n, k)
  {
    hide Bit, Stored, ByteBit, And, Merge, WriteControl, Left;
    CommonMasks(k);
    ControlLeft(v, s, addr, val, kind);
    var bits: set<bv4> := {0, 1, 2, 8, 9, 10, 11, 12, 13};
    FieldWritten(s.r, PmCntrl, bits, 0x3f07, addr, val, WriteCommon(v, s, addr, val, kind), n, k);
  }

  lemma CommonBits(v: Vendor, s: State, addr: int, val: bv8, kind: SleepKind, n: Name, k: bv4)
    ensures Bit(Reg(WriteCommon(v, s, addr, val, kind).r, n), k) ==
            if PowersOff(addr, val, kind) then Bit(Reg(s.r, n), k) else Stored(Common(addr), s.r, addr, val, n, k)
  {
    hide Bit, Stored, ByteBit, WriteControl;
    if addr == 0 || addr == 1 {
      CommonStatus(v, s, addr, val, kind, n, k);
    } else if addr == 2 || addr == 3 {
      CommonEnable(v, s, addr, val, kind, n, k);
    } else if addr == 4 || addr == 5 {
      if PowersOff(addr, val, kind) { ControlLeft(v, s, addr, val, kind); }
      else { CommonControl(v, s, addr, val, kind, n, k); }
    } else {
      LeftSelf(s.r, s);
      NotWritten(s.r, addr, val, s, n, k);
    }
  }

  lemma RaiseLeft(v: Vendor, s: State)
    ensures Left(s.r, RaiseDirect(v, s))
  {
    hide Raise;
    RaiseOnly(v, s.(smi := s.smi.(direct := s.smi.direct + 1)));
  }

  /** Bits set one at a time. */
  lemma HitBits(x: bv16)
    ensures Hits(x, 4) == Bit(x, 2) && Hits(x, 0x20) == Bit(x, 5)
  {
  }

  lemma OneBits(x: bv16, k: bv4)
    ensures Bit(Or(x, GBL), k) == (Bit(x, k) || k == 5) && Bit(Or(x, 1), k) == (Bit(x, k) || k == 0)
    ensures Bit(Or(x, 0x20), k) == (Bit(x, k) || k == 5) && Bit(Or(x, 0x40), k) == (Bit(x, k) || k == 6)
    ensures Hits(x, 4) == Bit(x, 2) && Hits(x, 0x20) == Bit(x, 5)
  {
    hide Bit, Or, OneAt, Hits;
    Ones();
    OrOne(x, 5, k);
    OrOne(x, 0, k);
    OrOne(x, 6, k);
    HitBits(x);
  }

  /** A register with one more bit, and no other changed. */
  lemma BitSet(r: Regs, m: Name, x: bv16, t: State, n: Name, k: bv4, bit: bv4)
    requires Left(With(r, m, x), t) && Bit(x, k) == (Bit(Reg(r, m), k) || k == bit)
    ensures Bit(Reg(t.r, n), k) == (Bit(Reg(r, n), k) || (n == m && k == bit))
  {
    hide Bit, With, Left, Reg;
    RegWith(r, m, x, t, n);
  }

  lemma SetGlobalBits(v: Vendor, s: State, n: Name, k: bv4)
    ensures Bit(Reg(SetGlobal(v, s).r, n), k) == (Bit(Reg(s.r, n), k) || (n == PmSts && k == 5))
  {
    hide Bit, Or, SciLevel;
    OneBits(s.r.pmsts, k);
    BitSet(s.r, PmSts, Or(s.r.pmsts, GBL), SetGlobal(v, s), n, k, 5);
  }

  // ---- PIIX4 ----

  lemma IntelInputs(c: Chip, s: State, a: int, val: bv8, kind: SleepKind, n: Name, k: bv4)
    requires 0x0c <= a <= 0x0f
    ensures Bit(Reg(WriteIntel(c, s, a, val, kind).r, n), k) == Stored(Intels(c.usbClears, a), s.r, a, val, n, k)
  {
    hide Bit, Stored, And, Lane, Merge, Cleared, Update, Changed, Left;
    IntelMasks(k);
    var t := WriteIntel(c, s, a, val, kind);
    if a == 0x0c || a == 0x0d {
      UpdateLeft(Intel, s.(r := s.r.(gpsts := Cleared(s.r.gpsts, And(Lane(a, val), 0x0f81)))));
      StatusWritten(s.r, GpSts, {0, 7, 8, 9, 10, 11}, 0x0f81, a, val, t, n, k);
    } else {
      ChangedLeft(Intel, s, s.r.(gpen := And(Merge(s.r.gpen, a, val), 0x0f01)));
      FieldWritten(s.r, GpEn, {0, 8, 9, 10, 11}, 0x0f01, a, val, t, n, k);
    }
  }

  lemma IntelGlobals(c: Chip, s: State, a: int, val: bv8, kind: SleepKind, n: Name, k: bv4)
    requires a == 0x18 || a == 0x19 || a == 0x20 || a == 0x21
    ensures Bit(Reg(WriteIntel(c, s, a, val, kind).r, n), k) == Stored(Intels(c.usbClears, a), s.r, a, val, n, k)
  {
    hide Bit, Stored, And, Lane, Merge, Cleared, Left;
    IntelMasks(k);
    var t := WriteIntel(c, s, a, val, kind);
    LeftSelf(t.r, t);
    if a == 0x18 || a == 0x19 {
      var bits: set<bv4> := {0, 2, 5, 8, 10, 11} + if c.usbClears then {1} else {};
      StatusWritten(s.r, GlbSts, bits, if c.usbClears then 0x0d27 else 0x0d25, a, val, t, n, k);
    } else {
      FieldWritten(s.r, GlbEn, {0, 1, 2, 3, 4, 8, 10, 11, 15}, 0x8d1f, a, val, t, n, k);
    }
  }

  lemma IntelControl32(c: Chip, s: State, a: int, val: bv8, n: Name, k: bv4)
    requires 0x28 <= a <= 0x2b
    ensures Bit(Reg(WriteGlobalIntel(c, s, a, val).r, n), k) ==
            (Bit(Reg(s.r, n), k) || (n == PmSts && k == 5 && a == 0x28 && ByteBit(val, 1)))
  {
    hide Bit, ByteBit, And32, Merge32, StillPending, RaiseDirect, SetGlobal, Hits8, Left;
    ValueBits(val);
    var t := s.(r := s.r.(glbctl := And32(Merge32(s.r.glbctl, a, val), 0x0701ff05)));
    RaiseLeft(Intel, t);
    var u := if StillPending(c, t.r, t.rtc) then RaiseDirect(Intel, t) else t;
    ControlOnly(s.r, t, n);
    LeftSelf(t.r, t);
    RegLeft(t.r, u, n);
    SetGlobalBits(Intel, u, n, k);
  }

  lemma ControlOnly(r: Regs, t: State, n: Name)
    requires t.r == r.(glbctl := t.r.glbctl)
    ensures Reg(t.r, n) == Reg(r, n)
  {
  }

  /** GBL_RLS as PMCNTRL holds it after a write of its low byte. */
  lemma ReleaseStored(v: Vendor, s: State, val: bv8, kind: SleepKind)
    ensures Hits(WriteCommon(v, s, 4, val, kind).r.pmcntrl, 4) == ByteBit(val, 2)
  {
    hide Bit, ByteBit, WriteCommon, Hits;
    CommonBits(v, s, 4, val, kind, PmCntrl, 2);
    OneBits(WriteCommon(v, s, 4, val, kind).r.pmcntrl, 2);
    assert Sets(4, val, 2) == ByteBit(val, 2) by { LowNibble(); }
  }

  lemma LowNibble()
    ensures (2 as bv4 & 7) as bv3 == 2
  {
  }

  lemma IntelRelease(c: Chip, s: State, a: int, val: bv8, kind: SleepKind, n: Name, k: bv4)
    requires !(0x0c <= a <= 0x0f || a == 0x18 || a == 0x19 || a == 0x20 || a == 0x21 || 0x28 <= a <= 0x2b)
    ensures Bit(Reg(WriteIntel(c, s, a, val, kind).r, n), k) ==
            (Bit(Reg(WriteCommon(Intel, s, a, val, kind).r, n), k) ||
             (n == GlbSts && k == 0 && a == 4 && ByteBit(val, 2)))
  {
    hide Bit, ByteBit, WriteCommon, RaiseDirect, Hits, Or, Left;
    var t := WriteCommon(Intel, s, a, val, kind);
    if a == 4 {
      ReleaseStored(Intel, s, val, kind);
      var u := t.(r := t.r.(glbsts := Or(t.r.glbsts, 1)));
      OneBits(t.r.glbsts, k);
      LeftSelf(u.r, u);
      BitSet(t.r, GlbSts, Or(t.r.glbsts, 1), u, n, k, 0);
      RaiseLeft(Intel, u);
      RegLeft(u.r, RaiseDirect(Intel, u), n);
    }
  }

  lemma IntelBits(c: Chip, s: State, a: int, val: bv8, kind: SleepKind, n: Name, k: bv4)
    ensures Bit(Reg(WriteIntel(c, s, a, val, kind).r, n), k) ==
            if PowersOff(a, val, kind) then Bit(Reg(s.r, n), k)
            else Stored(Intels(c.usbClears, a), s.r, a, val, n, k) || Brings(Intel, s.r, 0, a, val, n, k)
  {
    hide Bit, ByteBit, WriteCommon, WriteGlobalIntel, Stored, WriteIntel;
    if 0x0c <= a <= 0x0f {
      IntelInputs(c, s, a, val, kind, n, k);
    } else if a == 0x18 || a == 0x19 || a == 0x20 || a == 0x21 {
      IntelGlobals(c, s, a, val, kind, n, k);
    } else if 0x28 <= a <= 0x2b {
      IntelControl32(c, s, a, val, n, k);
      IntelGlobalIs(c, s, a, val, kind);
      NothingStored(s.r, a, val, n, k);
    } else {
      IntelRelease(c, s, a, val, kind, n, k);
      CommonBits(Intel, s, a, val, kind, n, k);
    }
  }

  lemma NothingStored(r: Regs, a: int, val: bv8, n: Name, k: bv4)
    ensures Stored(None, r, a, val, n, k) == Bit(Reg(r, n), k)
  {
    hide Bit, Sets, Reaches;
  }

  lemma IntelGlobalIs(c: Chip, s: State, a: int, val: bv8, kind: SleepKind)
    requires 0x28 <= a <= 0x2b
    ensures WriteIntel(c, s, a, val, kind) == WriteGlobalIntel(c, s, a, val)
  {
    hide WriteCommon, WriteGlobalIntel;
  }

  // ---- ALi ----

  lemma AliInputIs(s: State, a: int, val: bv8, kind: SleepKind, biosSmi: bool)
    requires 0x18 <= a <= 0x1b
    ensures WriteAli(s, a, val, kind, biosSmi) ==
            if a == 0x18 || a == 0x19 then
              Update(Ali, s.(r := s.r.(gpsts := Cleared(s.r.gpsts, And(Lane(a, val), 0x0d07)))))
            else Changed(Ali, s, s.r.(gpen := And(Merge(s.r.gpen, a, val), 0x0d07)))
  {
    hide And, Lane, Merge, Cleared, Update, Changed;
  }

  lemma AliMask(k: bv4)
    ensures Bit(0x0d07, k) <==> k in {0, 1, 2, 8, 10, 11}
  {
    hide Bit;
    OtherMasks(k);
  }

  lemma InputRegs(r: Regs, x: bv16)
    ensures Reg(r, GpSts) == r.gpsts && With(r, GpSts, x) == r.(gpsts := x)
    ensures Reg(r, GpEn) == r.gpen && With(r, GpEn, x) == r.(gpen := x)
  {
  }

  lemma AliStatus(s: State, a: int, val: bv8, kind: SleepKind, biosSmi: bool, n: Name, k: bv4)
    requires a == 0x18 || a == 0x19
    ensures Bit(Reg(WriteAli(s, a, val, kind, biosSmi).r, n), k) == Stored(Alis(a), s.r, a, val, n, k)
  {
    hide Bit, Stored, And, Lane, Merge, Cleared, Update, Changed, Left, WriteAli, Reg, With;
    AliMask(k);
    AliInputIs(s, a, val, kind, biosSmi);
    var x := Cleared(s.r.gpsts, And(Lane(a, val), 0x0d07));
    InputRegs(s.r, x);
    UpdateLeft(Ali, s.(r := s.r.(gpsts := x)));
    StatusWritten(s.r, GpSts, {0, 1, 2, 8, 10, 11}, 0x0d07, a, val, WriteAli(s, a, val, kind, biosSmi), n, k);
  }

  lemma AliEnable(s: State, a: int, val: bv8, kind: SleepKind, biosSmi: bool, n: Name, k: bv4)
    requires a == 0x1a || a == 0x1b
    ensures Bit(Reg(WriteAli(s, a, val, kind, biosSmi).r, n), k) == Stored(Alis(a), s.r, a, val, n, k)
  {
    hide Bit, Stored, And, Lane, Merge, Cleared, Update, Changed, Left, WriteAli, Reg, With;
    AliMask(k);
    AliInputIs(s, a, val, kind, biosSmi);
    var x := And(Merge(s.r.gpen, a, val), 0x0d07);
    InputRegs(s.r, x);
    ChangedLeft(Ali, s, s.r.(gpen := x));
    FieldWritten(s.r, GpEn, {0, 1, 2, 8, 10, 11}, 0x0d07, a, val, WriteAli(s, a, val, kind, biosSmi), n, k);
  }

  lemma AliInputs(s: State, a: int, val: bv8, kind: SleepKind, biosSmi: bool, n: Name, k: bv4)
    requires 0x18 <= a <= 0x1b
    ensures Bit(Reg(WriteAli(s, a, val, kind, biosSmi).r, n), k) == Stored(Alis(a), s.r, a, val, n, k)
  {
    hide Bit, Stored, WriteAli, Reg, Alis;
    if a == 0x18 || a == 0x19 {
      AliStatus(s, a, val, kind, biosSmi, n, k);
    } else {
      AliEnable(s, a, val, kind, biosSmi, n, k);
    }
  }

  lemma AliBits(s: State, a: int, val: bv8, kind: SleepKind, biosSmi: bool, n: Name, k: bv4)
    ensures Bit(Reg(WriteAli(s, a, val, kind, biosSmi).r, n), k) ==
            if PowersOff(a, val, kind) then Bit(Reg(s.r, n), k)
            else Stored(Alis(a), s.r, a, val, n, k) || Brings(Ali, s.r, 0, a, val, n, k)
  {
    hide Bit, ByteBit, WriteCommon, Stored, WriteAli;
    if 0x18 <= a <= 0x1b {
      AliInputs(s, a, val, kind, biosSmi, n, k);
    } else {
      AliOther(s, a, val, kind, biosSmi, n, k);
      CommonBits(Ali, s, a, val, kind, n, k);
      NothingStored(s.r, a, val, n, k);
    }
  }

  lemma AliOther(s: State, a: int, val: bv8, kind: SleepKind, biosSmi: bool, n: Name, k: bv4)
    requires !(0x18 <= a <= 0x1b)
    ensures Bit(Reg(WriteAli(s, a, val, kind, biosSmi).r, n), k) ==
            if 0x10 <= a <= 0x27 || a == 0x30 then
              Bit(Reg(s.r, n), k) || (n == PmSts && k == 5 && a == 0x20 && ByteBit(val, 1))
            else Bit(Reg(WriteCommon(Ali, s, a, val, kind).r, n), k)
  {
    hide Bit, ByteBit, WriteCommon, RaiseDirect, Hits, Hits8, SetGlobal, Left;
    ValueBits(val);
    SetGlobalBits(Ali, s, n, k);
    var t := WriteCommon(Ali, s, a, val, kind);
    RaiseLeft(Ali, t);
    RegLeft(t.r, RaiseDirect(Ali, t), n);
  }

  // ---- VIA ----

  lemma ViaMasks(v: Vendor, k: bv4)
    requires IsVia(v)
    ensures Bit(GpMask(v), k) <==> k in if v == Via596 then INPUTS596 else INPUTS
    ensures Bit(GlobalMask(v), k) <==> k in if v == Via596 then GLOBALS596 else GLOBALS
  {
    hide Bit, GpMask, GlobalMask;
    OtherMasks(k);
  }

  /** What the decoder does with each of VIA's own registers. */
  lemma ViaInputIs(v: Vendor, s: State, size: int, a: int, val: bv8, kind: SleepKind)
    requires IsVia(v) && 0x20 <= a <= 0x25
    ensures WriteVia(v, s, size, a, val, kind) ==
            if a == 0x20 || a == 0x21 then
              Update(v, s.(r := s.r.(gpsts := Cleared(s.r.gpsts, And(Lane(a, val), GpMask(v))))))
            else if a == 0x22 || a == 0x23 then
              Update(v, s.(r := s.r.(gpscien := And(Merge(s.r.gpscien, a, val), GpMask(v)))))
            else Edge(v, s.(r := s.r.(gpsmien := And(Merge(s.r.gpsmien, a, val), GpMask(v)))), Level(v, s))
  {
    hide Update, Edge, Level, And, Lane, Merge, Cleared, GpMask, GlobalMask;
  }

  lemma ViaInputStatus(v: Vendor, s: State, size: int, a: int, val: bv8, kind: SleepKind, n: Name, k: bv4)
    requires IsVia(v) && (a == 0x20 || a == 0x21)
    ensures Bit(Reg(WriteVia(v, s, size, a, val, kind).r, n), k) == Stored(Vias(v, a), s.r, a, val, n, k)
  {
    hide Bit, Stored, And, Lane, Cleared, Update, GpMask, GlobalMask, Left, WriteVia;
    ViaMasks(v, k);
    ViaInputIs(v, s, size, a, val, kind);
    var inputs := if v == Via596 then INPUTS596 else INPUTS;
    UpdateLeft(v, s.(r := s.r.(gpsts := Cleared(s.r.gpsts, And(Lane(a, val), GpMask(v))))));
    StatusWritten(s.r, GpSts, inputs, GpMask(v), a, val, WriteVia(v, s, size, a, val, kind), n, k);
  }

  lemma ViaSciInputs(v: Vendor, s: State, size: int, a: int, val: bv8, kind: SleepKind, n: Name, k: bv4)
    requires IsVia(v) && (a == 0x22 || a == 0x23)
    ensures Bit(Reg(WriteVia(v, s, size, a, val, kind).r, n), k) == Stored(Vias(v, a), s.r, a, val, n, k)
  {
    hide Bit, Stored, And, Merge, Update, Edge, Level, GpMask, GlobalMask, Left, WriteVia;
    ViaMasks(v, k);
    ViaInputIs(v, s, size, a, val, kind);
    UpdateLeft(v, s.(r := s.r.(gpscien := And(Merge(s.r.gpscien, a, val), GpMask(v)))));
    var inputs := if v == Via596 then INPUTS596 else INPUTS;
    FieldWritten(s.r, GpSciEn, inputs, GpMask(v), a, val, WriteVia(v, s, size, a, val, kind), n, k);
  }

  lemma ViaSmiInputs(v: Vendor, s: State, size: int, a: int, val: bv8, kind: SleepKind, n: Name, k: bv4)
    requires IsVia(v) && (a == 0x24 || a == 0x25)
    ensures Bit(Reg(WriteVia(v, s, size, a, val, kind).r, n), k) == Stored(Vias(v, a), s.r, a, val, n, k)
  {
    hide Bit, Stored, And, Merge, Update, Edge, Level, GpMask, GlobalMask, Left, WriteVia;
    ViaMasks(v, k);
    ViaInputIs(v, s, size, a, val, kind);
    EdgeLeft(v, s.(r := s.r.(gpsmien := And(Merge(s.r.gpsmien, a, val), GpMask(v)))), Level(v, s));
    var inputs := if v == Via596 then INPUTS596 else INPUTS;
    FieldWritten(s.r, GpSmiEn, inputs, GpMask(v), a, val, WriteVia(v, s, size, a, val, kind), n, k);
  }

  lemma GlobalRegs(r: Regs, x: bv16)
    ensures Reg(r, GlbEn) == r.glben && With(r, GlbEn, x) == r.(glben := x)
    ensures Reg(r, PmCntrl) == r.pmcntrl && Reg(r.(glbsts := x), PmCntrl) == r.pmcntrl
    ensures Reg(r.(glbsts := x), GlbSts) == x
  {
  }

  lemma ViaEnablePlace(v: Vendor, a: int)
    requires IsVia(v) && (a == 0x2a || a == 0x2b)
    ensures Vias(v, a) == Some(Place(GlbEn, Field, if v == Via596 then GLOBALS596 else GLOBALS))
  {
  }

  lemma ViaEnables(v: Vendor, s: State, size: int, a: int, val: bv8, kind: SleepKind, n: Name, k: bv4)
    requires IsVia(v) && (a == 0x2a || a == 0x2b)
    ensures Bit(Reg(WriteVia(v, s, size, a, val, kind).r, n), k) == Stored(Vias(v, a), s.r, a, val, n, k)
  {
    hide Bit, Stored, And, Merge, Edge, Level, GpMask, GlobalMask, Left, WriteVia, Reg, With, Vias;
    ViaMasks(v, k);
    ViaEnablePlace(v, a);
    ViaEnableIs(v, s, size, a, val, kind);
    var x := And(Merge(s.r.glben, a, val), GlobalMask(v));
    GlobalRegs(s.r, x);
    EdgeLeft(v, s.(r := s.r.(glben := x)), Level(v, s));
    var globals := if v == Via596 then GLOBALS596 else GLOBALS;
    FieldWritten(s.r, GlbEn, globals, GlobalMask(v), a, val, WriteVia(v, s, size, a, val, kind), n, k);
  }

  /** Clearing BIOS_STS clears GBL_RLS. */
  lemma ViaStatus(v: Vendor, s: State, size: int, a: int, val: bv8, kind: SleepKind, n: Name, k: bv4)
    requires IsVia(v) && (a == 0x28 || a == 0x29)
    ensures Bit(Reg(WriteVia(v, s, size, a, val, kind).r, n), k) ==
            if n == PmCntrl && k == 2 && !Stored(Vias(v, a), s.r, a, val, GlbSts, 5) then false
            else Stored(Vias(v, a), s.r, a, val, n, k)
  {
    hide Bit, Stored, And, Lane, Cleared, GpMask, GlobalMask, Left, Hits, WriteVia, With, Reg, Vias;
    var g := Cleared(s.r.glbsts, And(Lane(a, val), GlobalMask(v)));
    var q := s.(r := s.r.(glbsts := g));
    var t := WriteVia(v, s, size, a, val, kind);
    GlobalRegs(s.r, g);
    GlobalsCleared(v, s, a, val, q, n, k);
    GlobalsCleared(v, s, a, val, q, GlbSts, 5);
    OneBits(g, k);
    ReleaseMask(s.r.pmcntrl, k);
    ViaStatusIs(v, s, size, a, val, kind, g);
    LeftSelf(t.r, t);
    RegWith(q.r, PmCntrl, if !Hits(g, 0x20) then And(s.r.pmcntrl, 0xfffb) else s.r.pmcntrl, t, n);
  }

  lemma GlobalsCleared(v: Vendor, s: State, a: int, val: bv8, q: State, n: Name, k: bv4)
    requires IsVia(v) && (a == 0x28 || a == 0x29)
    requires q == s.(r := s.r.(glbsts := Cleared(s.r.glbsts, And(Lane(a, val), GlobalMask(v)))))
    ensures Bit(Reg(q.r, n), k) == Stored(Vias(v, a), s.r, a, val, n, k)
  {
    hide Bit, Stored, And, Lane, Cleared, GpMask, GlobalMask, Left;
    LeftSelf(q.r, q);
    ViaMasks(v, k);
    StatusWritten(s.r, GlbSts, if v == Via596 then GLOBALS596 else GLOBALS, GlobalMask(v), a, val, q, n, k);
  }

  lemma ViaStatusIs(v: Vendor, s: State, size: int, a: int, val: bv8, kind: SleepKind, g: bv16)
    requires IsVia(v) && (a == 0x28 || a == 0x29) && g == Cleared(s.r.glbsts, And(Lane(a, val), GlobalMask(v)))
    ensures WriteVia(v, s, size, a, val, kind).r ==
            With(s.r.(glbsts := g), PmCntrl, if !Hits(g, 0x20) then And(s.r.pmcntrl, 0xfffb) else s.r.pmcntrl)
  {
    hide And, Lane, Cleared, GlobalMask, Hits;
  }

  lemma ReleaseMask(x: bv16, k: bv4)
    ensures Bit(And(x, 0xfffb), k) == (Bit(x, k) && k != 2)
  {
  }

  lemma ViaControl32(v: Vendor, s: State, size: int, a: int, val: bv8, kind: SleepKind, n: Name, k: bv4)
    requires IsVia(v) && (a == 0x2c || a == 0x2d)
    ensures Bit(Reg(WriteVia(v, s, size, a, val, kind).r, n), k) ==
            (Bit(Reg(s.r, n), k) || (n == PmSts && k == 5 && a == 0x2c && ByteBit(val, 1) && !Bit32(s.r.glbctl, 1)))
  {
    hide Bit, ByteBit, Bit32, WriteVia, WriteGlobalVia;
    ViaControlIs(v, s, size, a, val, kind);
    if a == 0x2c {
      GlobalViaBits(v, s, val, n, k);
    } else {
      ControlOnly(s.r, WriteVia(v, s, size, a, val, kind), n);
    }
  }

  lemma ViaControlIs(v: Vendor, s: State, size: int, a: int, val: bv8, kind: SleepKind)
    requires IsVia(v) && (a == 0x2c || a == 0x2d)
    ensures var t := WriteVia(v, s, size, a, val, kind);
            if a == 0x2c then t == WriteGlobalVia(v, s, val) else t.r == s.r.(glbctl := t.r.glbctl)
  {
    hide And, Lane, Cleared, GlobalMask, Hits, GpMask, Merge, Update, Edge, Level;
    hide WriteViaCommon, WriteGlobalVia, RaiseGlobal, Hits8, And32, ViaOther;
    NotOther(v, a);
  }

  lemma GlobalViaBits(v: Vendor, s: State, val: bv8, n: Name, k: bv4)
    ensures Bit(Reg(WriteGlobalVia(v, s, val).r, n), k) ==
            (Bit(Reg(s.r, n), k) || (n == PmSts && k == 5 && ByteBit(val, 1) && !Bit32(s.r.glbctl, 1)))
  {
    hide Bit, ByteBit, Bit32, Hits8, Hits32, Merge32, Edge, Level, SetGlobal, Left, Reg;
    ValueBits(val);
    ReleaseBit(s.r.glbctl);
    var q := s.(r := s.r.(glbctl := Merge32(s.r.glbctl, 0, val)), smi := s.smi.(lock := Hits8(val, 0x10)));
    var t := Edge(v, q, Level(v, s));
    EdgeLeft(v, q, Level(v, s));
    ControlOnly(s.r, q, n);
    RegLeft(q.r, t, n);
    SetGlobalBits(v, t, n, k);
  }

  lemma ReleaseBit(x: bv32)
    ensures Hits32(x, 2) == Bit32(x, 1)
  {
  }

  lemma RaiseGlobalBits(v: Vendor, s: State, bit: bv16, b: bv4, n: Name, k: bv4)
    requires (bit == 0x20 && b == 5) || (bit == 0x40 && b == 6)
    ensures Bit(Reg(RaiseGlobal(v, s, bit).r, n), k) == (Bit(Reg(s.r, n), k) || (n == GlbSts && k == b))
  {
    hide Bit, Or, Hits, RaiseDirect, Left;
    OneBits(s.r.glbsts, k);
    var t := s.(r := s.r.(glbsts := Or(s.r.glbsts, bit)));
    LeftSelf(t.r, t);
    BitSet(s.r, GlbSts, Or(s.r.glbsts, bit), t, n, k, b);
    RaiseLeft(v, t);
    RegLeft(t.r, RaiseDirect(v, t), n);
  }

  lemma ViaCommonBits(v: Vendor, s: State, a: int, val: bv8, kind: SleepKind, n: Name, k: bv4)
    requires IsVia(v)
    ensures Bit(Reg(WriteViaCommon(v, s, a, val, kind).r, n), k) ==
            (Bit(Reg(WriteCommon(v, s, a % 64, val, kind).r, n), k) ||
             (n == GlbSts && k == 5 && a == 4 && ByteBit(val, 2) && !Bit(s.r.pmcntrl, 2)))
  {
    hide Bit, ByteBit, WriteCommon, Hits, And32, RaiseGlobal, Left;
    var t := WriteCommon(v, s, a % 64, val, kind);
    OneBits(s.r.pmcntrl, k);
    if a == 0 {
      ControlOnly(t.r, WriteViaCommon(v, s, a, val, kind), n);
    } else if a == 4 {
      ReleaseStored(v, s, val, kind);
      RaiseGlobalBits(v, t, 0x20, 5, n, k);
    }
  }

  lemma ViaBits(v: Vendor, s: State, size: int, a: int, val: bv8, kind: SleepKind, n: Name, k: bv4)
    requires IsVia(v) && 0 <= a < 256
    ensures Bit(Reg(WriteVia(v, s, size, a, val, kind).r, n), k) ==
            if !ViaOther(v, a) && PowersOff(a % 64, val, kind) then Bit(Reg(s.r, n), k)
            else if n == PmCntrl && k == 2 && (a == 0x28 || a == 0x29)
                    && !Stored(Vias(v, a), s.r, a, val, GlbSts, 5) then false
            else Stored(Vias(v, a), s.r, a, val, n, k) || Brings(v, s.r, size, a, val, n, k)
  {
    hide Bit, ByteBit, Bit32, WriteVia, Stored, Common, Vias, ViaOther, Brings, PowersOff;
    if 0x20 <= a <= 0x2d && a != 0x26 && a != 0x27 { ViaOwn(v, s.r, size, a, val, kind, n, k); }
    if a == 0x20 || a == 0x21 {
      ViaInputStatus(v, s, size, a, val, kind, n, k);
    } else if a == 0x22 || a == 0x23 {
      ViaSciInputs(v, s, size, a, val, kind, n, k);
    } else if a == 0x24 || a == 0x25 {
      ViaSmiInputs(v, s, size, a, val, kind, n, k);
    } else if a == 0x28 || a == 0x29 {
      ViaStatus(v, s, size, a, val, kind, n, k);
    } else if a == 0x2a || a == 0x2b {
      ViaEnables(v, s, size, a, val, kind, n, k);
    } else if a == 0x2c || a == 0x2d {
      ViaControl32(v, s, size, a, val, kind, n, k);
      NothingStored(s.r, a, val, n, k);
    } else {
      ViaRest(v, s, size, a, val, kind, n, k);
    }
  }

  lemma ViaOwn(v: Vendor, r: Regs, size: int, a: int, val: bv8, kind: SleepKind, n: Name, k: bv4)
    requires IsVia(v) && 0x20 <= a <= 0x2d && a != 0x26 && a != 0x27
    ensures !ViaOther(v, a) && !PowersOff(a % 64, val, kind)
    ensures Brings(v, r, size, a, val, n, k) ==
            (n == PmSts && k == 5 && a == 0x2c && ByteBit(val, 1) && !Bit32(r.glbctl, 1))
    ensures a == 0x2c || a == 0x2d ==> Vias(v, a) == None
  {
    hide Bit, ByteBit, Bit32;
  }

  lemma ViaRest(v: Vendor, s: State, size: int, a: int, val: bv8, kind: SleepKind, n: Name, k: bv4)
    requires IsVia(v) && 0 <= a < 256 && !(0x20 <= a <= 0x25 || 0x28 <= a <= 0x2d)
    ensures Bit(Reg(WriteVia(v, s, size, a, val, kind).r, n), k) ==
            if !ViaOther(v, a) && PowersOff(a % 64, val, kind) then Bit(Reg(s.r, n), k)
            else Stored(Vias(v, a), s.r, a, val, n, k) || Brings(v, s.r, size, a, val, n, k)
  {
    hide Bit, ByteBit, Bit32, Stored, Common, WriteViaCommon, RaiseGlobal, WriteVia, ViaOther, Brings, Vias;
    NothingStored(s.r, a, val, n, k);
    ViaRestIs(v, s, size, a, val, kind, n, k);
    if !ViaOther(v, a) && a == 0x2f {
      RaiseGlobalBits(v, s, 0x40, 6, n, k);
    } else if !ViaOther(v, a) {
      ViaCommonBits(v, s, a, val, kind, n, k);
      CommonBits(v, s, a % 64, val, kind, n, k);
      SameLane(Common(a % 64), s.r, a, val, n, k);
    }
  }

  lemma ViaRestIs(v: Vendor, s: State, size: int, a: int, val: bv8, kind: SleepKind, n: Name, k: bv4)
    requires IsVia(v) && 0 <= a < 256 && !(0x20 <= a <= 0x25 || 0x28 <= a <= 0x2d)
    ensures WriteVia(v, s, size, a, val, kind) ==
            if ViaOther(v, a) then s
            else if a == 0x2f then (if size == 1 then RaiseGlobal(v, s, 0x40) else s)
            else WriteViaCommon(v, s, a, val, kind)
    ensures Vias(v, a) == if ViaOther(v, a) || a == 0x2f then None else Common(a % 64)
    ensures Brings(v, s.r, size, a, val, n, k) ==
            (n == GlbSts && ((k == 5 && a == 4 && ByteBit(val, 2) && !Bit(s.r.pmcntrl, 2)) ||
                             (k == 6 && a == 0x2f && size == 1)))
    ensures ViaOther(v, a) ==> a != 4 && a != 0x2f
    ensures a == 0x2f ==> !PowersOff(a % 64, val, kind)
  {
    hide Bit, ByteBit, Bit32, WriteViaCommon, RaiseGlobal;
  }

  lemma SameLane(place: Option<Place>, r: Regs, a: int, val: bv8, n: Name, k: bv4)
    requires 0 <= a
    ensures Stored(place, r, a % 64, val, n, k) == Stored(place, r, a, val, n, k)
  {
    hide Bit, ByteBit;
    assert a % 64 % 2 == a % 2;
  }

  // ---- Every write ----

  /** Every bit of every register after a byte is written to any address. */
  lemma WriteByBits(c: Chip, s: State, w: RegWrite, n: Name, k: bv4)
    ensures Bit(Reg(Write(c, s, w).r, n), k) == Expected(c, s.r, w, n, k)
  {
    hide Bit, ByteBit, Stored, WriteIntel, WriteAli, WriteVia, Intels, Alis, Vias, Brings, ViaOther, PowersOff;
    var a := Decode(c.vendor, w.addr);
    OffIs(c.vendor, s.r, w, a, n, k);
    match c.vendor {
      case Intel => IntelBits(c, s, a, w.val, w.kind, n, k);
      case Ali => AliBits(s, a, w.val, w.kind, w.biosSmi, n, k);
      case Via => ViaBits(Via, s, w.size, a, w.val, w.kind, n, k);
      case Via596 => ViaBits(Via596, s, w.size, a, w.val, w.kind, n, k);
    }
  }

  lemma OffIs(v: Vendor, r: Regs, w: RegWrite, a: int, n: Name, k: bv4)
    requires a == Decode(v, w.addr)
    ensures 0 <= a < 256 && (!IsVia(v) ==> PowersOff(a % 64, w.val, w.kind) == PowersOff(a, w.val, w.kind))
    ensures PowersOff(a % 64, w.val, w.kind) == (w.kind == PowerOff && a % 64 == 5 && ByteBit(w.val, 5))
    ensures PowersOff(a % 64, w.val, w.kind) ==> !ViaOther(v, a)
    ensures !IsVia(v) ==> Brings(v, r, w.size, a, w.val, n, k) == Brings(v, r, 0, a, w.val, n, k)
  {
    hide Bit, ByteBit, Bit32;
  }

  // ---- Events ----

  /** The input a source is on. */
  function Pin(v: Vendor, source: int): Option<bv4> {
    match source
    case 0 => Some(match v case Intel => 10 case Via => 8 case Via596 => 8 case Ali => 11)
    case 1 => Some(match v case Intel => 8 case Via => 9 case Via596 => 9 case Ali => 2)
    case 2 => (match v case Intel => Some(11) case Via596 => Some(11) case _ => None)
    case 3 => (match v case Intel => Some(0) case Via596 => Some(10) case Ali => Some(0) case Via => None)
    case 4 => (match v case Intel => Some(9) case Via596 => Some(1) case _ => None)
    case _ => None
  }

  predicate OnPin(v: Vendor, source: int, k: bv4) { Pin(v, source) == Some(k) }

  const RING: int := 0
  const USB: int := 1
  const LID: int := 2
  const THERMAL: int := 3
  const GPI: int := 4

  function OneAt(j: bv4): bv16 { (1 as bv16) << j }

  lemma OrOne(x: bv16, j: bv4, k: bv4)
    ensures Bit(Or(x, OneAt(j)), k) == (Bit(x, k) || j == k) && OneAt(j) != 0
  {
  }

  lemma NoneBit(x: bv16)
    ensures Or(x, 0) == x
  {
  }

  lemma Ones()
    ensures OneAt(0) == 0x0001 && OneAt(1) == 0x0002 && OneAt(2) == 0x0004 && OneAt(5) == 0x0020 && OneAt(6) == 0x0040
    ensures OneAt(8) == 0x0100 && OneAt(9) == 0x0200 && OneAt(10) == 0x0400 && OneAt(11) == 0x0800
  {
  }

  lemma PinAt(v: Vendor, source: int)
    ensures GpeBit(v, source) == match Pin(v, source) case None => 0 case Some(j) => OneAt(j)
  {
    hide OneAt;
    Ones();
    if source == 0 { } else if source == 1 { } else if source == 2 { } else if source == 3 { } else if source == 4 { }
    match v case Intel => case Via => case Via596 => case Ali =>
  }

  lemma PinIs(v: Vendor, source: int, x: bv16, k: bv4)
    ensures GpeBit(v, source) == 0 <==> Pin(v, source) == None
    ensures Bit(Or(x, GpeBit(v, source)), k) == (Bit(x, k) || OnPin(v, source, k))
  {
    hide Bit, Or, OneAt, GpeBit, Pin;
    PinAt(v, source);
    match Pin(v, source)
    case None => NoneBit(x);
    case Some(j) => OrOne(x, j, k);
  }

  /** The bits that an event sets, and the one that ends a press of the button. */
  predicate Raises(v: Vendor, s: State, e: Step, n: Name, k: bv4) {
    match e
    case TimerToggled => n == PmSts && k == 0
    case GpeRaised(source) => n == GpSts && OnPin(v, source, k)
    case Pressed => n == PmSts && k == 8
    case HeldDown => n == PmSts && k == 11 && v != Ali
    case Woke => n == PmSts && k == 15 && s.sleeping && s.wakePending
    case Resumed => n == PmSts && k == 15
    case _ => false
  }

  lemma StatusMasks(k: bv4)
    ensures Bit(TMROF, k) == (k == 0) && Bit(PWRBTN, k) == (k == 8) && Bit(WAK, k) == (k == 15)
    ensures Bit(PWRBTNOR, k) == (k == 11) && !Bit(0, k)
  {
  }

  lemma StatusBits(x: bv16, k: bv4)
    ensures Bit(Or(x, TMROF), k) == (Bit(x, k) || k == 0) && Bit(Or(x, PWRBTN), k) == (Bit(x, k) || k == 8)
    ensures Bit(Or(x, WAK), k) == (Bit(x, k) || k == 15)
  {
    hide *;
    StatusMasks(k);
    BitOfOr(x, TMROF, k);
    BitOfOr(x, PWRBTN, k);
    BitOfOr(x, WAK, k);
  }

  lemma OverrideStatus(x: bv16, k: bv4)
    ensures Bit(Or(x, PWRBTNOR), k) == (Bit(x, k) || k == 11) && Bit(Or(x, 0), k) == Bit(x, k)
    ensures Bit(Cleared(x, PWRBTN), k) == (Bit(x, k) && k != 8)
  {
    hide *;
    StatusMasks(k);
    BitOfOr(x, PWRBTNOR, k);
    BitOfOr(x, 0, k);
    BitOfCleared(x, PWRBTN, k);
  }

  /** Every bit of every register after an event. */
  lemma EventByBits(c: Chip, s: State, e: Step, n: Name, k: bv4)
    requires !e.Wrote? && !e.WasReset?
    ensures Bit(Reg(Next(c, s, e).r, n), k) ==
            ((Bit(Reg(s.r, n), k) && !(e.HeldDown? && n == PmSts && k == 8)) || Raises(c.vendor, s, e, n, k))
  {
    hide Bit, Gpe, Press, Override, Wake, Poll, Update, Or, Pin, Reg;
    var v, t := c.vendor, Next(c, s, e);
    match e {
      case TimerToggled => TimerBits(v, s, n, k);
      case GpeRaised(source) => GpeBits(v, s, source, n, k);
      case Pressed => PressBits(v, s, n, k);
      case HeldDown => OverrideBits(v, s, n, k);
      case Polled => PollSees(v, s); PollLeft(s, t, n);
      case RtcRang =>
      case Woke => WakeBits(v, s, n, k);
      case Resumed => ResumeBits(s, n, k);
    }
  }

  lemma TimerBits(v: Vendor, s: State, n: Name, k: bv4)
    ensures Bit(Reg(Update(v, s.(r := s.r.(pmsts := Or(s.r.pmsts, TMROF)))).r, n), k) ==
            (Bit(Reg(s.r, n), k) || (n == PmSts && k == 0))
  {
    hide Bit, Or, Update, Left;
    StatusBits(s.r.pmsts, k);
    var u := s.(r := s.r.(pmsts := Or(s.r.pmsts, TMROF)));
    UpdateLeft(v, u);
    BitSet(s.r, PmSts, Or(s.r.pmsts, TMROF), Update(v, u), n, k, 0);
  }

  lemma ResumeBits(s: State, n: Name, k: bv4)
    ensures Bit(Reg(s.(r := s.r.(pmsts := Or(s.r.pmsts, WAK))).r, n), k) ==
            (Bit(Reg(s.r, n), k) || (n == PmSts && k == 15))
  {
    hide Bit, Or, Left;
    StatusBits(s.r.pmsts, k);
    var u := s.(r := s.r.(pmsts := Or(s.r.pmsts, WAK)));
    LeftSelf(u.r, u);
    BitSet(s.r, PmSts, Or(s.r.pmsts, WAK), u, n, k, 15);
  }

  lemma PressBits(v: Vendor, s: State, n: Name, k: bv4)
    ensures Bit(Reg(Press(v, s).r, n), k) == (Bit(Reg(s.r, n), k) || (n == PmSts && k == 8))
  {
    hide Bit, Or, Changed, Left;
    StatusBits(s.r.pmsts, k);
    var r := s.r.(pmsts := Or(s.r.pmsts, PWRBTN));
    ChangedLeft(v, s, r);
    if s.sleeping { LeftSelf(r, Press(v, s)); }
    BitSet(s.r, PmSts, Or(s.r.pmsts, PWRBTN), Press(v, s), n, k, 8);
  }

  lemma PollLeft(s: State, t: State, n: Name)
    requires t.r == s.r.(glbctl := t.r.glbctl)
    ensures Reg(t.r, n) == Reg(s.r, n)
  {
  }

  lemma GpeBits(v: Vendor, s: State, source: int, n: Name, k: bv4)
    ensures Bit(Reg(Gpe(v, s, source).r, n), k) == (Bit(Reg(s.r, n), k) || (n == GpSts && OnPin(v, source, k)))
  {
    hide Bit, Or, Changed, WakeSource, GpeBit, Pin, Left;
    var x := Or(s.r.gpsts, GpeBit(v, source));
    var r := s.r.(gpsts := x);
    PinIs(v, source, s.r.gpsts, k);
    if GpeBit(v, source) != 0 {
      ChangedLeft(v, s, r);
      if s.sleeping { LeftSelf(r, Gpe(v, s, source)); }
      RegWith(s.r, GpSts, x, Gpe(v, s, source), n);
    }
  }

  predicate InputBit(v: Vendor, source: int, r: Regs, q: Regs, n: Name, k: bv4) {
    Bit(Reg(q, n), k) == (Bit(Reg(r, n), k) || (n == GpSts && OnPin(v, source, k)))
  }

  /** The source's status bit is set and no other bit of a register changed. */
  ghost predicate InputRaised(v: Vendor, source: int, r: Regs, q: Regs) {
    forall n: Name, k: bv4 :: InputBit(v, source, r, q, n, k)
  }

  lemma GpeRaises(v: Vendor, s: State, source: int)
    ensures InputRaised(v, source, s.r, Gpe(v, s, source).r)
  {
    hide Bit, Gpe, OnPin, Reg;
    forall n: Name, k: bv4 ensures InputBit(v, source, s.r, Gpe(v, s, source).r, n, k) {
      GpeBits(v, s, source, n, k);
    }
  }

  lemma OverrideBits(v: Vendor, s: State, n: Name, k: bv4)
    ensures Bit(Reg(Override(v, s).r, n), k) ==
            ((Bit(Reg(s.r, n), k) && !(n == PmSts && k == 8)) || (n == PmSts && k == 11 && v != Ali))
  {
    hide Bit, Or, Cleared, Update, Left;
    var x := Or(Cleared(s.r.pmsts, PWRBTN), if v == Ali then 0 else PWRBTNOR);
    OverrideStatus(s.r.pmsts, k);
    OverrideStatus(Cleared(s.r.pmsts, PWRBTN), k);
    UpdateLeft(v, s.(r := s.r.(pmsts := x)));
    RegWith(s.r, PmSts, x, Override(v, s), n);
  }

  lemma WakeBits(v: Vendor, s: State, n: Name, k: bv4)
    ensures Bit(Reg(Wake(v, s).r, n), k) ==
            (Bit(Reg(s.r, n), k) || (n == PmSts && k == 15 && s.sleeping && s.wakePending))
  {
    hide Bit, Or, Update, Edge, Left;
    StatusBits(s.r.pmsts, k);
    var u := s.(sleeping := false, wakePending := false, r := s.r.(pmsts := Or(s.r.pmsts, WAK)));
    UpdateLeft(v, u);
    EdgeLeft(v, Update(v, u), false);
    if s.sleeping && s.wakePending { BitSet(s.r, PmSts, Or(s.r.pmsts, WAK), Wake(v, s), n, k, 15); }
  }

  /** Reset: WAK_STS and PWRBTN_STS when powered on; the 596B's button is
      enabled, ALi's sleep type 4. */
  lemma ResetByBits(v: Vendor, s: State, powerOn: bool, n: Name, k: bv4)
    ensures Bit(Reg(Reset(v, s, powerOn).r, n), k) ==
            (|| (n == PmSts && powerOn && (k == 8 || k == 15)) || (n == PmEn && v == Via596 && k == 8)
             || (n == PmCntrl && v == Ali && k == 12))
    ensures var t := Reset(v, s, powerOn); !t.rtc && !t.sleeping && !t.driven && t.r.glbctl == 0
  {
    if powerOn { } else { }
    match v case Intel => case Via => case Via596 => case Ali =>
  }

  /** A general-purpose event awake, on the PIIX4: with ring indicate and USB SCI
      is as it would be without; the lid, THRM# and the general-purpose input
      raise it if they are enabled and SCI_EN is set. */
  lemma InputLine(c: Chip, s: State, source: int)
    requires c.vendor == Intel && !s.sleeping && LineRight(Intel, s)
    ensures var t := Next(c, s, GpeRaised(source));
            && (source == RING || source == USB ==> t.driven == SciHigh(Intel, s.r, s.rtc))
            && (source == LID && SciOn(s.r) && Bit(s.r.gpen, 11) ==> t.driven)
            && (source == THERMAL && SciOn(s.r) && Bit(s.r.gpen, 0) ==> t.driven)
            && (source == GPI && SciOn(s.r) && Bit(s.r.gpen, 9) ==> t.driven)
  {
    hide Bit, Gpe, SciHigh, Or, GpeBit;
    var t := Next(c, s, GpeRaised(source));
    NextLine(c, s, GpeRaised(source));
    if 0 <= source < 5 {
      InputKeeps(s, source);
      InputHigh(s.r, t.r, source, s.rtc);
    }
  }

  lemma InputKeeps(s: State, source: int)
    requires !s.sleeping && 0 <= source < 5
    ensures var t := Gpe(Intel, s, source);
            && !t.sleeping && t.rtc == s.rtc && t.sampled == s.rtc
            && t.r == s.r.(gpsts := Or(s.r.gpsts, GpeBit(Intel, source)), glbctl := t.r.glbctl)
  {
    hide SciLevel, Edge, Level, Or;
    var r := s.r.(gpsts := Or(s.r.gpsts, GpeBit(Intel, source)));
    EdgeOnly(Intel, Update(Intel, s.(r := r)), Level(Intel, s));
  }

  lemma InputHigh(r: Regs, q: Regs, source: int, rtc: bool)
    requires 0 <= source < 5 && q == r.(gpsts := Or(r.gpsts, GpeBit(Intel, source)), glbctl := q.glbctl)
    ensures source == RING || source == USB ==> SciHigh(Intel, q, rtc) == SciHigh(Intel, r, rtc)
    ensures source == LID && SciOn(r) && Bit(r.gpen, 11) ==> SciHigh(Intel, q, rtc)
    ensures source == THERMAL && SciOn(r) && Bit(r.gpen, 0) ==> SciHigh(Intel, q, rtc)
    ensures source == GPI && SciOn(r) && Bit(r.gpen, 9) ==> SciHigh(Intel, q, rtc)
  {
    hide Bit, Or, GpeBit;
    PinIs(Intel, source, r.gpsts, 0);
    PinIs(Intel, source, r.gpsts, 9);
    PinIs(Intel, source, r.gpsts, 11);
  }

  // ---- What else a write does ----

  /** A one written to RTC_STS clears it; SLP_EN puts the machine to sleep if its
      sleep type says so. */
  lemma WriteElse(c: Chip, s: State, w: RegWrite)
    ensures var t, a := Write(c, s, w), Decode(c.vendor, w.addr);
            && t.rtc == (s.rtc && !(a % 64 == 1 && ByteBit(w.val, 2)))
            && t.sleeping == (s.sleeping || (a % 64 == 5 && ByteBit(w.val, 5) && w.kind == Suspend))
            && t.seen == s.seen
  {
    hide ByteBit, WriteIntel, WriteAli, WriteVia;
    var a := Decode(c.vendor, w.addr);
    match c.vendor {
      case Intel => IntelElse(c, s, a, w.val, w.kind);
      case Ali => AliElse(s, a, w.val, w.kind, w.biosSmi);
      case Via => ViaElse(Via, s, w.size, a, w.val, w.kind);
      case Via596 => ViaElse(Via596, s, w.size, a, w.val, w.kind);
    }
  }

  /** The state apart from registers and line. */
  predicate Quiet(s: State, t: State) { t.rtc == s.rtc && t.sleeping == s.sleeping && t.seen == s.seen }

  lemma EdgeQuiet(v: Vendor, s: State, was: bool)
    ensures Quiet(s, Edge(v, s, was))
  {
    hide Edge, Level;
    EdgeOnly(v, s, was);
  }

  lemma RaiseQuiet(v: Vendor, s: State)
    ensures Quiet(s, RaiseDirect(v, s))
  {
    hide Raise;
    RaiseOnly(v, s.(smi := s.smi.(direct := s.smi.direct + 1)));
  }

  predicate Elsewhere(s: State, t: State, addr: int, val: bv8, kind: SleepKind) {
    && t.rtc == (s.rtc && !(addr == 1 && ByteBit(val, 2)))
    && t.sleeping == (s.sleeping || (addr == 5 && ByteBit(val, 5) && kind == Suspend))
    && t.seen == s.seen
  }

  lemma ChangedQuiet(v: Vendor, s: State, r: Regs)
    ensures Quiet(s, Changed(v, s, r))
  {
    hide Edge, Level, SciLevel;
    EdgeQuiet(v, Update(v, s.(r := r)), Level(v, s));
  }

  lemma UpdateQuietly(v: Vendor, s: State)
    ensures Quiet(s, Update(v, s))
  {
    hide SciLevel;
  }

  lemma ControlElse(v: Vendor, s: State, addr: int, val: bv8, kind: SleepKind)
    requires addr == 4 || addr == 5
    ensures Elsewhere(s, WriteControl(v, s, addr, val, kind), addr, val, kind)
  {
    hide ByteBit, Hits8, And, Merge, Update, Level, Edge, SciEnabled, WriteControl;
    ValueBits(val);
    var r := s.r.(pmcntrl := And(Merge(s.r.pmcntrl, addr, val), 0x3f07));
    var u := if addr == 5 && Hits8(val, 0x20) && kind == Suspend then s.(sleeping := true, wakePending := false) else s;
    WriteControlIs(v, s, addr, val, kind, u, r);
    UpdateQuietly(v, u.(r := r));
    EdgeQuiet(v, Update(v, u.(r := r)), Level(v, s));
  }

  lemma CommonElse(v: Vendor, s: State, addr: int, val: bv8, kind: SleepKind)
    ensures Elsewhere(s, WriteCommon(v, s, addr, val, kind), addr, val, kind)
  {
    hide ByteBit, Hits8, And, Merge, Lane, Cleared, SciLevel, Changed, WriteControl;
    ValueBits(val);
    ChangedQuiet(v, s, s.r.(pmen := And(Merge(s.r.pmen, addr, val), 0x0521)));
    if addr == 4 || addr == 5 { ControlElse(v, s, addr, val, kind); }
  }

  lemma IntelElse(c: Chip, s: State, a: int, val: bv8, kind: SleepKind)
    requires 0 <= a < 64
    ensures Elsewhere(s, WriteIntel(c, s, a, val, kind), a, val, kind)
  {
    hide ByteBit, WriteIntel, WriteGlobalIntel;
    if 0x28 <= a <= 0x2b {
      IntelGlobalIs(c, s, a, val, kind);
      GlobalIntelQuiet(c, s, a, val);
    } else if 0x0c <= a <= 0x0f || a == 0x18 || a == 0x19 || a == 0x20 || a == 0x21 {
      IntelOwnQuiet(c, s, a, val, kind);
    } else {
      IntelRestElse(c, s, a, val, kind);
    }
  }

  lemma IntelOwnQuiet(c: Chip, s: State, a: int, val: bv8, kind: SleepKind)
    requires 0x0c <= a <= 0x0f || a == 0x18 || a == 0x19 || a == 0x20 || a == 0x21
    ensures Quiet(s, WriteIntel(c, s, a, val, kind))
  {
    hide And, Merge, Lane, Cleared, Update, Changed;
    UpdateQuietly(Intel, s.(r := s.r.(gpsts := Cleared(s.r.gpsts, And(Lane(a, val), 0x0f81)))));
    ChangedQuiet(Intel, s, s.r.(gpen := And(Merge(s.r.gpen, a, val), 0x0f01)));
  }

  lemma IntelRestElse(c: Chip, s: State, a: int, val: bv8, kind: SleepKind)
    requires !(0x0c <= a <= 0x0f || a == 0x18 || a == 0x19 || a == 0x20 || a == 0x21 || 0x28 <= a <= 0x2b)
    ensures Elsewhere(s, WriteIntel(c, s, a, val, kind), a, val, kind)
  {
    hide ByteBit, Hits, Or, WriteCommon, RaiseDirect, WriteIntel;
    var t := WriteCommon(Intel, s, a, val, kind);
    var u := t.(r := t.r.(glbsts := Or(t.r.glbsts, 1)));
    IntelRestIs(c, s, a, val, kind, t, u);
    CommonElse(Intel, s, a, val, kind);
    RaiseQuiet(Intel, u);
  }

  lemma GlobalIntelQuiet(c: Chip, s: State, a: int, val: bv8)
    ensures Quiet(s, WriteGlobalIntel(c, s, a, val))
  {
    hide And32, Merge32, StillPending, RaiseDirect, Hits8, SciLevel, Or;
    RaiseQuiet(Intel, s.(r := s.r.(glbctl := And32(Merge32(s.r.glbctl, a, val), 0x0701ff05))));
  }

  lemma AliGlobalIs(s: State, a: int, val: bv8, kind: SleepKind, biosSmi: bool)
    requires (0x10 <= a <= 0x27 || a == 0x30) && !(0x18 <= a <= 0x1b)
    ensures WriteAli(s, a, val, kind, biosSmi) == if a == 0x20 && Hits8(val, 2) then SetGlobal(Ali, s) else s
  {
    hide Hits8, SetGlobal;
  }

  lemma AliOwnQuiet(s: State, a: int, val: bv8, kind: SleepKind, biosSmi: bool)
    requires 0x10 <= a <= 0x27 || a == 0x30
    ensures Quiet(s, WriteAli(s, a, val, kind, biosSmi))
  {
    hide Hits8, And, Merge, Lane, Cleared, Update, Changed, WriteAli;
    if 0x18 <= a <= 0x1b {
      AliInputIs(s, a, val, kind, biosSmi);
      UpdateQuietly(Ali, s.(r := s.r.(gpsts := Cleared(s.r.gpsts, And(Lane(a, val), 0x0d07)))));
      ChangedQuiet(Ali, s, s.r.(gpen := And(Merge(s.r.gpen, a, val), 0x0d07)));
    } else {
      AliGlobalIs(s, a, val, kind, biosSmi);
      UpdateQuietly(Ali, s.(r := s.r.(pmsts := Or(s.r.pmsts, GBL))));
    }
  }

  lemma AliRestIs(s: State, a: int, val: bv8, kind: SleepKind, biosSmi: bool)
    requires !(0x10 <= a <= 0x27 || a == 0x30)
    ensures var t := WriteCommon(Ali, s, a, val, kind);
            WriteAli(s, a, val, kind, biosSmi) ==
            if a == 4 && Hits(t.r.pmcntrl, 4) && biosSmi then RaiseDirect(Ali, t) else t
  {
    hide Hits, WriteCommon, RaiseDirect;
  }

  lemma AliElse(s: State, a: int, val: bv8, kind: SleepKind, biosSmi: bool)
    requires 0 <= a < 64
    ensures Elsewhere(s, WriteAli(s, a, val, kind, biosSmi), a, val, kind)
  {
    hide ByteBit, WriteAli, RaiseDirect, WriteCommon, Hits;
    if 0x10 <= a <= 0x27 || a == 0x30 {
      AliOwnQuiet(s, a, val, kind, biosSmi);
    } else {
      AliRestIs(s, a, val, kind, biosSmi);
      CommonElse(Ali, s, a, val, kind);
      RaiseQuiet(Ali, WriteCommon(Ali, s, a, val, kind));
    }
  }

  lemma ViaInputQuiet(v: Vendor, s: State, size: int, a: int, val: bv8, kind: SleepKind)
    requires IsVia(v) && 0x20 <= a <= 0x25
    ensures Quiet(s, WriteVia(v, s, size, a, val, kind))
  {
    hide And, Merge, Lane, Cleared, SciLevel, Level, Edge, GpMask, WriteVia;
    ViaInputIs(v, s, size, a, val, kind);
    EdgeQuiet(v, s.(r := s.r.(gpsmien := And(Merge(s.r.gpsmien, a, val), GpMask(v)))), Level(v, s));
  }

  lemma ViaGlobalQuiet(v: Vendor, s: State, size: int, a: int, val: bv8, kind: SleepKind)
    requires IsVia(v) && 0x28 <= a <= 0x2d
    ensures Quiet(s, WriteVia(v, s, size, a, val, kind))
  {
    hide WriteVia, And, Merge, Edge, Level, GlobalMask, WriteGlobalVia;
    if a == 0x2c {
      ViaControlIs(v, s, size, a, val, kind);
      GlobalViaQuiet(v, s, val);
    } else if a == 0x2a || a == 0x2b {
      ViaEnableIs(v, s, size, a, val, kind);
      EdgeQuiet(v, s.(r := s.r.(glben := And(Merge(s.r.glben, a, val), GlobalMask(v)))), Level(v, s));
    } else if a == 0x2d {
      ViaActiveQuiet(v, s, size, val, kind);
    } else {
      ViaStatusQuiet(v, s, size, a, val, kind);
    }
  }

  lemma ViaEnableIs(v: Vendor, s: State, size: int, a: int, val: bv8, kind: SleepKind)
    requires IsVia(v) && (a == 0x2a || a == 0x2b)
    ensures WriteVia(v, s, size, a, val, kind) ==
            Edge(v, s.(r := s.r.(glben := And(Merge(s.r.glben, a, val), GlobalMask(v)))), Level(v, s))
  {
    hide And, Merge, Level, Edge, GlobalMask;
  }

  lemma ViaStatusQuiet(v: Vendor, s: State, size: int, a: int, val: bv8, kind: SleepKind)
    requires IsVia(v) && (a == 0x28 || a == 0x29)
    ensures Quiet(s, WriteVia(v, s, size, a, val, kind))
  {
    hide And, Lane, Cleared, GlobalMask, Hits, GpMask, Merge, Update, Edge, Level;
    hide WriteViaCommon, WriteGlobalVia, RaiseGlobal, Hits8, And32, ViaOther;
    NotOther(v, a);
  }

  lemma ViaActiveQuiet(v: Vendor, s: State, size: int, val: bv8, kind: SleepKind)
    requires IsVia(v)
    ensures Quiet(s, WriteVia(v, s, size, 0x2d, val, kind))
  {
    hide And, Lane, Cleared, GlobalMask, Hits, GpMask, Merge, Update, Edge, Level;
    hide WriteViaCommon, WriteGlobalVia, RaiseGlobal, Hits8, And32, ViaOther;
    NotOther(v, 0x2d);
  }

  lemma NotOther(v: Vendor, a: int)
    requires 0x28 <= a <= 0x2d
    ensures !ViaOther(v, a)
  {
  }

  lemma GlobalViaQuiet(v: Vendor, s: State, val: bv8)
    ensures Quiet(s, WriteGlobalVia(v, s, val))
  {
    hide Edge, Level, SciLevel, Hits8, Hits32, Merge32, Or;
    EdgeQuiet(v, s.(r := s.r.(glbctl := Merge32(s.r.glbctl, 0, val)), smi := s.smi.(lock := Hits8(val, 0x10))),
              Level(v, s));
  }

  lemma GlobalQuiet(v: Vendor, s: State, bit: bv16)
    ensures Quiet(s, RaiseGlobal(v, s, bit))
  {
    hide RaiseDirect, Or, Hits;
    RaiseQuiet(v, s.(r := s.r.(glbsts := Or(s.r.glbsts, bit))));
  }

  lemma ViaCommonElse(v: Vendor, s: State, a: int, val: bv8, kind: SleepKind)
    ensures Elsewhere(s, WriteViaCommon(v, s, a, val, kind), a % 64, val, kind)
  {
    hide ByteBit, WriteCommon, RaiseGlobal, Hits, And32;
    CommonElse(v, s, a % 64, val, kind);
    GlobalQuiet(v, WriteCommon(v, s, a % 64, val, kind), 0x20);
  }

  lemma QuietElsewhere(s: State, t: State, addr: int, val: bv8, kind: SleepKind)
    requires Quiet(s, t) && addr != 1 && addr != 5
    ensures Elsewhere(s, t, addr, val, kind)
  {
    hide ByteBit;
  }

  lemma ViaElse(v: Vendor, s: State, size: int, a: int, val: bv8, kind: SleepKind)
    requires IsVia(v) && 0 <= a < 256
    ensures Elsewhere(s, WriteVia(v, s, size, a, val, kind), a % 64, val, kind)
  {
    hide ByteBit, WriteViaCommon, RaiseGlobal, WriteVia, Elsewhere;
    var t := WriteVia(v, s, size, a, val, kind);
    if 0x20 <= a <= 0x25 {
      ViaInputQuiet(v, s, size, a, val, kind);
      QuietElsewhere(s, t, a % 64, val, kind);
    } else if 0x28 <= a <= 0x2d {
      ViaGlobalQuiet(v, s, size, a, val, kind);
      QuietElsewhere(s, t, a % 64, val, kind);
    } else {
      ViaRestIs(v, s, size, a, val, kind, PmSts, 0);
      if ViaOther(v, a) || a == 0x2f {
        GlobalQuiet(v, s, 0x40);
        QuietElsewhere(s, t, a % 64, val, kind);
      } else {
        ViaCommonElse(v, s, a, val, kind);
      }
    }
  }

  // ---- GLBCTL ----

  /** A byte of a dword register with bit k in it. */
  predicate Reaches32(addr: int, k: bv5) { (k / 8) as int == addr % 4 }

  /** GLBCTL's bit k after a write. Bit 16 is apart: the PIIX4 clears it with each
      SMI#. VIA's BIOS_RLS falls with GBL_STS. */
  predicate Control(c: Chip, r: Regs, w: RegWrite, k: bv5) {
    var a, was := Decode(c.vendor, w.addr), Bit32(r.glbctl, k);
    if c.vendor == Intel && 0x28 <= a <= 0x2b then
      && (if Reaches32(a, k) then ByteBit(w.val, (k % 8) as bv3) else was)
      && k in {0, 2, 8, 9, 10, 11, 12, 13, 14, 15, 24, 25, 26}
    else if IsVia(c.vendor) && a == 0x2c && k < 8 then ByteBit(w.val, (k % 8) as bv3)
    else if IsVia(c.vendor) && a == 0x2d && k == 8 then was && !ByteBit(w.val, 0)
    else if IsVia(c.vendor) && a == 0 && k == 1 then was && Expected(c, r, w, PmSts, 5)
    else was
  }

  predicate Same32(s: State, t: State, k: bv5) { Bit32(t.r.glbctl, k) == Bit32(s.r.glbctl, k) }

  lemma RaiseControl(v: Vendor, s: State)
    ensures Raise(v, s).r.glbctl ==
            if SmiEnabled(s.r) && v == Intel then And32(s.r.glbctl, 0xfffeffff) else s.r.glbctl
  {
    hide And32, SmiEnabled;
  }

  lemma RaiseSame(v: Vendor, s: State, k: bv5)
    requires k != 16
    ensures Same32(s, Raise(v, s), k)
  {
    hide Bit32, And32, SmiEnabled, Raise;
    ActiveMask(s.r.glbctl, k);
    RaiseControl(v, s);
  }

  lemma ActiveMask(x: bv32, k: bv5)
    requires k != 16
    ensures Bit32(And32(x, 0xfffeffff), k) == Bit32(x, k)
  {
  }

  lemma DirectSame(v: Vendor, s: State, k: bv5)
    requires k != 16
    ensures Same32(s, RaiseDirect(v, s), k)
  {
    hide Raise, Bit32;
    RaiseSame(v, s.(smi := s.smi.(direct := s.smi.direct + 1)), k);
  }

  lemma EdgeSame(v: Vendor, s: State, was: bool, k: bv5)
    requires k != 16
    ensures Same32(s, Edge(v, s, was), k)
  {
    hide Raise, Level, Bit32;
    RaiseSame(v, s.(smi := s.smi.(edges := s.smi.edges + 1)), k);
  }

  lemma ChangedSame(v: Vendor, s: State, r: Regs, k: bv5)
    requires k != 16 && r.glbctl == s.r.glbctl
    ensures Same32(s, Changed(v, s, r), k)
  {
    hide Edge, Level, SciLevel, Bit32;
    EdgeSame(v, Update(v, s.(r := r)), Level(v, s), k);
  }

  lemma SameSelf(s: State, t: State, k: bv5)
    requires t.r.glbctl == s.r.glbctl
    ensures Same32(s, t, k)
  {
  }

  lemma CommonIs(v: Vendor, s: State, addr: int, val: bv8, kind: SleepKind)
    ensures var t := WriteCommon(v, s, addr, val, kind);
            if addr == 2 || addr == 3 then t == Changed(v, s, s.r.(pmen := And(Merge(s.r.pmen, addr, val), 0x0521)))
            else if addr == 4 || addr == 5 then t == WriteControl(v, s, addr, val, kind)
            else t.r.glbctl == s.r.glbctl
  {
    hide Hits8, And, Merge, Lane, Cleared, SciLevel, Changed, WriteControl;
  }

  lemma CommonSame(v: Vendor, s: State, addr: int, val: bv8, kind: SleepKind, k: bv5)
    requires k != 16
    ensures Same32(s, WriteCommon(v, s, addr, val, kind), k)
  {
    hide Same32, WriteCommon, And, Merge, Changed, WriteControl;
    CommonIs(v, s, addr, val, kind);
    if addr == 2 || addr == 3 {
      ChangedSame(v, s, s.r.(pmen := And(Merge(s.r.pmen, addr, val), 0x0521)), k);
    } else if addr == 4 || addr == 5 {
      ControlSame(v, s, addr, val, kind, k);
    } else {
      SameSelf(s, WriteCommon(v, s, addr, val, kind), k);
    }
  }

  lemma ControlSame(v: Vendor, s: State, addr: int, val: bv8, kind: SleepKind, k: bv5)
    requires k != 16 && (addr == 4 || addr == 5)
    ensures Same32(s, WriteControl(v, s, addr, val, kind), k)
  {
    hide Bit32, Hits8, And, Merge, Update, Level, Edge, SciEnabled, WriteControl;
    var r := s.r.(pmcntrl := And(Merge(s.r.pmcntrl, addr, val), 0x3f07));
    var u := if addr == 5 && Hits8(val, 0x20) && kind == Suspend then s.(sleeping := true, wakePending := false) else s;
    WriteControlIs(v, s, addr, val, kind, u, r);
    UpdateLeft(v, u.(r := r));
    EdgeSame(v, Update(v, u.(r := r)), Level(v, s), k);
  }

  lemma GlobalSame(v: Vendor, s: State, bit: bv16, k: bv5)
    requires k != 16
    ensures Same32(s, RaiseGlobal(v, s, bit), k)
  {
    hide RaiseDirect, Or, Hits, Bit32;
    DirectSame(v, s.(r := s.r.(glbsts := Or(s.r.glbsts, bit))), k);
  }

  lemma IntelControlMask(x: bv32, a: int, val: bv8, k: bv5)
    requires 0x28 <= a <= 0x2b && k != 16
    ensures Bit32(And32(Merge32(x, a, val), 0x0701ff05), k) ==
            ((if Reaches32(a, k) then ByteBit(val, (k % 8) as bv3) else Bit32(x, k)) &&
             k in {0, 2, 8, 9, 10, 11, 12, 13, 14, 15, 24, 25, 26})
  {
    hide And32, Merge32, Bit32, ByteBit;
    ControlMask(Merge32(x, a, val), k);
    MergeBit32(x, a, val, k);
  }

  lemma ControlMask(x: bv32, k: bv5)
    requires k != 16
    ensures Bit32(And32(x, 0x0701ff05), k) ==
            (Bit32(x, k) && k in {0, 2, 8, 9, 10, 11, 12, 13, 14, 15, 24, 25, 26})
  {
  }

  lemma MergeBit32(x: bv32, a: int, val: bv8, k: bv5)
    ensures Bit32(Merge32(x, a, val), k) == (if Reaches32(a, k) then ByteBit(val, (k % 8) as bv3) else Bit32(x, k))
  {
    hide Bit32, ByteBit, Merge32, Into0, Into1, Into2, Into3;
    EighthIs(k);
    MergeIs(x, a, val);
    match a % 4
    case 0 => Byte0(x, val, k);
    case 1 => Byte1(x, val, k);
    case 2 => Byte2(x, val, k);
    case _ => Byte3(x, val, k);
  }

  lemma MergeIs(x: bv32, a: int, val: bv8)
    ensures a % 4 == 0 ==> Merge32(x, a, val) == Into0(x, val)
    ensures a % 4 == 1 ==> Merge32(x, a, val) == Into1(x, val)
    ensures a % 4 == 2 ==> Merge32(x, a, val) == Into2(x, val)
    ensures a % 4 == 3 ==> Merge32(x, a, val) == Into3(x, val)
  {
  }

  function Into0(x: bv32, val: bv8): bv32 { (x & 0xffffff00) | val as bv32 }

  function Into1(x: bv32, val: bv8): bv32 { (x & 0xffff00ff) | ((val as bv32) << 8) }

  function Into2(x: bv32, val: bv8): bv32 { (x & 0xff00ffff) | ((val as bv32) << 16) }

  function Into3(x: bv32, val: bv8): bv32 { (x & 0x00ffffff) | ((val as bv32) << 24) }

  lemma EighthIs(k: bv5)
    ensures (k / 8) as int == if k < 8 then 0 else if k < 16 then 1 else if k < 24 then 2 else 3
  {
    if k < 8 { assert k / 8 == 0; } else if k < 16 { assert k / 8 == 1; } else if k < 24 { assert k / 8 == 2; }
    else { assert k / 8 == 3; }
  }

  lemma Byte0(x: bv32, val: bv8, k: bv5)
    ensures Bit32(Into0(x, val), k) == if k < 8 then ByteBit(val, (k % 8) as bv3) else Bit32(x, k)
  {
  }

  lemma Byte1(x: bv32, val: bv8, k: bv5)
    ensures Bit32(Into1(x, val), k) ==
            if 8 <= k < 16 then ByteBit(val, (k % 8) as bv3) else Bit32(x, k)
  {
  }

  lemma Byte2(x: bv32, val: bv8, k: bv5)
    ensures Bit32(Into2(x, val), k) ==
            if 16 <= k < 24 then ByteBit(val, (k % 8) as bv3) else Bit32(x, k)
  {
  }

  lemma Byte3(x: bv32, val: bv8, k: bv5)
    ensures Bit32(Into3(x, val), k) ==
            if 24 <= k then ByteBit(val, (k % 8) as bv3) else Bit32(x, k)
  {
  }

  lemma IntelControls(c: Chip, s: State, a: int, val: bv8, kind: SleepKind, k: bv5)
    requires k != 16
    ensures Bit32(WriteIntel(c, s, a, val, kind).r.glbctl, k) ==
            if 0x28 <= a <= 0x2b then
              (if Reaches32(a, k) then ByteBit(val, (k % 8) as bv3) else Bit32(s.r.glbctl, k)) &&
              k in {0, 2, 8, 9, 10, 11, 12, 13, 14, 15, 24, 25, 26}
            else Bit32(s.r.glbctl, k)
  {
    hide Bit32, ByteBit, WriteIntel, WriteGlobalIntel, Reaches32;
    if 0x28 <= a <= 0x2b {
      IntelGlobalIs(c, s, a, val, kind);
      IntelControlMask(s.r.glbctl, a, val, k);
      GlobalIntelControls(c, s, a, val, k);
    } else if 0x0c <= a <= 0x0f || a == 0x18 || a == 0x19 || a == 0x20 || a == 0x21 {
      IntelOwnSame(c, s, a, val, kind, k);
    } else {
      IntelRestSame(c, s, a, val, kind, k);
    }
  }

  lemma GlobalIntelControls(c: Chip, s: State, a: int, val: bv8, k: bv5)
    requires k != 16
    ensures Bit32(WriteGlobalIntel(c, s, a, val).r.glbctl, k) ==
            Bit32(And32(Merge32(s.r.glbctl, a, val), 0x0701ff05), k)
  {
    hide Bit32, And32, Merge32, StillPending, RaiseDirect, Hits8, SciLevel, Or;
    DirectSame(Intel, s.(r := s.r.(glbctl := And32(Merge32(s.r.glbctl, a, val), 0x0701ff05))), k);
  }

  lemma IntelOwnSame(c: Chip, s: State, a: int, val: bv8, kind: SleepKind, k: bv5)
    requires k != 16 && (0x0c <= a <= 0x0f || a == 0x18 || a == 0x19 || a == 0x20 || a == 0x21)
    ensures Same32(s, WriteIntel(c, s, a, val, kind), k)
  {
    hide And, Merge, Lane, Cleared, SciLevel, Changed, Bit32;
    ChangedSame(Intel, s, s.r.(gpen := And(Merge(s.r.gpen, a, val), 0x0f01)), k);
  }

  lemma IntelRestSame(c: Chip, s: State, a: int, val: bv8, kind: SleepKind, k: bv5)
    requires !(0x0c <= a <= 0x0f || a == 0x18 || a == 0x19 || a == 0x20 || a == 0x21 || 0x28 <= a <= 0x2b)
    requires k != 16
    ensures Same32(s, WriteIntel(c, s, a, val, kind), k)
  {
    hide Hits, Or, WriteCommon, RaiseDirect, Bit32, WriteIntel;
    CommonSame(Intel, s, a, val, kind, k);
    var t := WriteCommon(Intel, s, a, val, kind);
    var u := t.(r := t.r.(glbsts := Or(t.r.glbsts, 1)));
    IntelRestIs(c, s, a, val, kind, t, u);
    DirectSame(Intel, u, k);
  }

  lemma IntelRestIs(c: Chip, s: State, a: int, val: bv8, kind: SleepKind, t: State, u: State)
    requires !(0x0c <= a <= 0x0f || a == 0x18 || a == 0x19 || a == 0x20 || a == 0x21 || 0x28 <= a <= 0x2b)
    requires t == WriteCommon(Intel, s, a, val, kind) && u == t.(r := t.r.(glbsts := Or(t.r.glbsts, 1)))
    ensures WriteIntel(c, s, a, val, kind) ==
            if a == 4 && Hits(t.r.pmcntrl, 4) then (if Hits(u.r.glben, 2) then RaiseDirect(Intel, u) else u) else t
  {
    hide Hits, Or, WriteCommon, RaiseDirect, Update, Changed, And, Merge, Lane, Cleared, WriteGlobalIntel;
  }

  lemma AliControls(s: State, a: int, val: bv8, kind: SleepKind, biosSmi: bool, k: bv5)
    requires k != 16
    ensures Same32(s, WriteAli(s, a, val, kind, biosSmi), k)
  {
    hide And, Lane, Merge, Cleared, Update, Changed, Bit32, WriteCommon, RaiseDirect, SetGlobal, Hits, Hits8;
    if 0x18 <= a <= 0x1b {
      UpdateLeft(Ali, s.(r := s.r.(gpsts := Cleared(s.r.gpsts, And(Lane(a, val), 0x0d07)))));
      ChangedSame(Ali, s, s.r.(gpen := And(Merge(s.r.gpen, a, val), 0x0d07)), k);
    } else {
      AliRestSame(s, a, val, kind, biosSmi, k);
    }
  }

  lemma AliRestSame(s: State, a: int, val: bv8, kind: SleepKind, biosSmi: bool, k: bv5)
    requires k != 16 && !(0x18 <= a <= 0x1b)
    ensures Same32(s, WriteAli(s, a, val, kind, biosSmi), k)
  {
    hide Bit32, WriteCommon, RaiseDirect, Hits, Hits8, Or, SciLevel;
    CommonSame(Ali, s, a, val, kind, k);
    DirectSame(Ali, WriteCommon(Ali, s, a, val, kind), k);
  }

  lemma ViaOwnSame(v: Vendor, s: State, size: int, a: int, val: bv8, kind: SleepKind, k: bv5)
    requires IsVia(v) && (0x20 <= a <= 0x25 || 0x28 <= a <= 0x2b) && k != 16
    ensures Same32(s, WriteVia(v, s, size, a, val, kind), k)
  {
    hide Bit32, WriteVia, Update, Edge, Level, And, Merge, Lane, Cleared, GpMask, GlobalMask, Hits;
    if 0x20 <= a <= 0x25 {
      ViaInputIs(v, s, size, a, val, kind);
      ViaInputSame(v, s, a, val, k);
    } else if a == 0x2a || a == 0x2b {
      ViaEnableIs(v, s, size, a, val, kind);
      EdgeSame(v, s.(r := s.r.(glben := And(Merge(s.r.glben, a, val), GlobalMask(v)))), Level(v, s), k);
    } else {
      ViaStatusIs(v, s, size, a, val, kind, Cleared(s.r.glbsts, And(Lane(a, val), GlobalMask(v))));
    }
  }

  lemma ViaControls(v: Vendor, s: State, size: int, a: int, val: bv8, kind: SleepKind, k: bv5)
    requires IsVia(v) && 0 <= a < 256 && k != 16
    ensures Bit32(WriteVia(v, s, size, a, val, kind).r.glbctl, k) ==
            if a == 0x2c && k < 8 then ByteBit(val, (k % 8) as bv3)
            else if a == 0x2d && k == 8 then Bit32(s.r.glbctl, k) && !ByteBit(val, 0)
            else if a == 0 && k == 1 then
              Bit32(s.r.glbctl, k) && Bit(WriteVia(v, s, size, a, val, kind).r.pmsts, 5)
            else Bit32(s.r.glbctl, k)
  {
    hide Bit, Bit32, ByteBit, WriteVia, WriteGlobalVia, WriteViaCommon, RaiseGlobal, ViaOther;
    if 0x20 <= a <= 0x25 || 0x28 <= a <= 0x2b {
      ViaOwnSame(v, s, size, a, val, kind, k);
    } else if a == 0x2c {
      ViaControlIs(v, s, size, a, val, kind);
      GlobalViaControls(v, s, val, k);
    } else if a == 0x2d {
      ViaActiveIs(v, s, size, val, kind, k);
    } else {
      ViaRestIs(v, s, size, a, val, kind, PmSts, 0);
      GlobalSame(v, s, 0x40, k);
      ViaCommonControls(v, s, a, val, kind, k);
    }
  }

  lemma ViaInputSame(v: Vendor, s: State, a: int, val: bv8, k: bv5)
    requires k != 16
    ensures Same32(s, Update(v, s.(r := s.r.(gpsts := Cleared(s.r.gpsts, And(Lane(a, val), GpMask(v)))))), k)
    ensures Same32(s, Update(v, s.(r := s.r.(gpscien := And(Merge(s.r.gpscien, a, val), GpMask(v))))), k)
    ensures Same32(s, Edge(v, s.(r := s.r.(gpsmien := And(Merge(s.r.gpsmien, a, val), GpMask(v)))), Level(v, s)), k)
  {
    hide Bit32, SciLevel, Edge, Level, And, Merge, Lane, Cleared, GpMask;
    EdgeSame(v, s.(r := s.r.(gpsmien := And(Merge(s.r.gpsmien, a, val), GpMask(v)))), Level(v, s), k);
  }

  lemma GlobalViaControls(v: Vendor, s: State, val: bv8, k: bv5)
    requires k != 16
    ensures Bit32(WriteGlobalVia(v, s, val).r.glbctl, k) ==
            if k < 8 then ByteBit(val, (k % 8) as bv3) else Bit32(s.r.glbctl, k)
  {
    hide Bit32, ByteBit, Edge, Level, SciLevel, Hits8, Hits32, Merge32, Or;
    var q := s.(r := s.r.(glbctl := Merge32(s.r.glbctl, 0, val)), smi := s.smi.(lock := Hits8(val, 0x10)));
    EdgeSame(v, q, Level(v, s), k);
    MergeBit32(s.r.glbctl, 0, val, k);
    EighthIs(k);
  }

  lemma ViaActiveIs(v: Vendor, s: State, size: int, val: bv8, kind: SleepKind, k: bv5)
    requires IsVia(v)
    ensures Bit32(WriteVia(v, s, size, 0x2d, val, kind).r.glbctl, k) ==
            (Bit32(s.r.glbctl, k) && !(k == 8 && ByteBit(val, 0)))
  {
    hide And, Lane, Cleared, GlobalMask, Hits, GpMask, Merge, Update, Edge, Level, Bit32, ByteBit;
    hide WriteViaCommon, WriteGlobalVia, RaiseGlobal, Hits8, And32, ViaOther;
    NotOther(v, 0x2d);
    ValueBits(val);
    ClearBit8(s.r.glbctl, k);
  }

  lemma ClearBit8(x: bv32, k: bv5)
    ensures Bit32(And32(x, 0xfffffeff), k) == (Bit32(x, k) && k != 8)
  {
  }

  lemma ClearBit1(x: bv32, k: bv5)
    ensures Bit32(And32(x, 0xfffffffd), k) == (Bit32(x, k) && k != 1)
  {
  }

  lemma ViaCommonControls(v: Vendor, s: State, a: int, val: bv8, kind: SleepKind, k: bv5)
    requires k != 16
    ensures var t := WriteViaCommon(v, s, a, val, kind);
            Bit32(t.r.glbctl, k) == (Bit32(s.r.glbctl, k) && !(a == 0 && k == 1 && !Bit(t.r.pmsts, 5)))
  {
    hide Bit, Bit32, WriteCommon, Hits, And32, RaiseGlobal;
    CommonSame(v, s, a % 64, val, kind, k);
    var t := WriteCommon(v, s, a % 64, val, kind);
    GlobalSame(v, t, 0x20, k);
    ClearBit1(t.r.glbctl, k);
    OneBits(t.r.pmsts, 0);
  }

  /** Every bit of GLBCTL but the PIIX4's end of SMI, after any write. */
  lemma ControlByBits(c: Chip, s: State, w: RegWrite, k: bv5)
    requires k != 16
    ensures Bit32(Write(c, s, w).r.glbctl, k) == Control(c, s.r, w, k)
  {
    hide Bit, Bit32, ByteBit, WriteIntel, WriteAli, WriteVia, Expected, Reaches32;
    var a := Decode(c.vendor, w.addr);
    WriteByBits(c, s, w, PmSts, 5);
    match c.vendor {
      case Intel => IntelControls(c, s, a, w.val, w.kind, k);
      case Ali => AliControls(s, a, w.val, w.kind, w.biosSmi, k);
      case Via => ViaControls(Via, s, w.size, a, w.val, w.kind, k);
      case Via596 => ViaControls(Via596, s, w.size, a, w.val, w.kind, k);
    }
  }

  // ---- SMI# taken ----

  lemma TakenCounts(v: Vendor, s: State)
    ensures var t := Raise(v, s);
            var taken := SmiEnabled(s.r) && !(IsVia(v) && s.smi.lock && s.smi.active);
            && t.smi.smis == s.smi.smis + (if taken then 1 else 0)
            && t.smi.active == (s.smi.active || (taken && IsVia(v))) && t.smi.lock == s.smi.lock
  {
    hide And32, SmiEnabled;
    if !SmiEnabled(s.r) {
    } else if IsVia(v) {
      if s.smi.lock && s.smi.active { } else { }
    } else if v == Intel {
    } else {
    }
  }

  /** An assertion of SMI# is an SMI if SMI_EN is set, and on VIA the lock does not
      hold one that is still active; the PIIX4 then clears its end of SMI. */
  lemma SmiTaken(v: Vendor, s: State)
    ensures var t := Raise(v, s);
            var taken := Bit32(s.r.glbctl, 0) && !(IsVia(v) && s.smi.lock && s.smi.active);
            && t.smi.smis == s.smi.smis + (if taken then 1 else 0)
            && t.smi.active == (s.smi.active || (taken && IsVia(v))) && t.smi.lock == s.smi.lock
            && Bit32(t.r.glbctl, 16) == (Bit32(s.r.glbctl, 16) && !(taken && v == Intel))
  {
    hide Bit32, And32, SmiEnabled, Raise;
    EnableIs(s.r);
    EndMask(s.r.glbctl);
    RaiseControl(v, s);
    TakenCounts(v, s);
  }

  lemma EnableIs(r: Regs)
    ensures SmiEnabled(r) == Bit32(r.glbctl, 0)
  {
    SmiEnableIs(r.glbctl);
  }

  lemma EndMask(x: bv32)
    ensures !Bit32(And32(x, 0xfffeffff), 16)
  {
  }

  /** VIA's lock is bit 4 of GLBCTL; a one to bit 8 ends the active SMI. */
  lemma LockByBits(c: Chip, s: State, w: RegWrite)
    requires IsVia(c.vendor)
    ensures var t, a := Write(c, s, w), Decode(c.vendor, w.addr);
            && (a == 0x2c ==> t.smi.lock == ByteBit(w.val, 4))
            && (a == 0x2d ==> t.smi.active == (s.smi.active && !ByteBit(w.val, 0)) && t.smi.lock == s.smi.lock)
  {
    hide ByteBit, WriteVia, WriteGlobalVia;
    var v, a := c.vendor, Decode(c.vendor, w.addr);
    if a == 0x2c {
      ViaControlIs(v, s, w.size, a, w.val, w.kind);
      GlobalViaLock(v, s, w.val);
    } else if a == 0x2d {
      ActiveIs(v, s, w.size, w.val, w.kind);
    }
  }

  lemma GlobalViaLock(v: Vendor, s: State, val: bv8)
    ensures WriteGlobalVia(v, s, val).smi.lock == ByteBit(val, 4)
  {
    hide ByteBit, Hits8, Hits32, Merge32, Level, SciLevel, Or, Raise;
    LockBit(val);
    var q := s.(r := s.r.(glbctl := Merge32(s.r.glbctl, 0, val)), smi := s.smi.(lock := Hits8(val, 0x10)));
    SmiTaken(v, q.(smi := q.smi.(edges := q.smi.edges + 1)));
  }

  lemma LockBit(val: bv8)
    ensures Hits8(val, 0x10) == ByteBit(val, 4)
  {
  }

  lemma ActiveIs(v: Vendor, s: State, size: int, val: bv8, kind: SleepKind)
    requires IsVia(v)
    ensures var t := WriteVia(v, s, size, 0x2d, val, kind);
            t.smi.active == (s.smi.active && !ByteBit(val, 0)) && t.smi.lock == s.smi.lock
  {
    hide And, Lane, Cleared, GlobalMask, Hits, GpMask, Merge, Update, Edge, Level, ByteBit;
    hide WriteViaCommon, WriteGlobalVia, RaiseGlobal, Hits8, And32, ViaOther;
    NotOther(v, 0x2d);
    ValueBits(val);
  }
}
