/**
 The SCI line and SMI# of the ACPI block (src/acpi.c) for the Intel PIIX4,
 VIA VT82C586B, VIA VT82C596B and ALi M7101: register writes, events, sleep
 and wake, as steps on the chip's state.
 */
module AcpiChip {

  datatype Vendor = Intel | Via | Via596 | Ali

  /** `doSmi` is the APM port's, `usbClears` the SLC90E66's USB_STS rule. */
  datatype Chip = Chip(vendor: Vendor, doSmi: bool, usbClears: bool)

  /** What the chip's suspend table says of a SLP_TYP. */
  datatype SleepKind = Working | Suspend | PowerOff

  const TMROF: bv16 := 0x0001
  const GBL: bv16 := 0x0020
  const PWRBTN: bv16 := 0x0100
  const RTC: bv16 := 0x0400
  const PWRBTNOR: bv16 := 0x0800
  const WAK: bv16 := 0x8000

  datatype Regs = Regs(
    pmsts: bv16, pmen: bv16, pmcntrl: bv16,
    gpsts: bv16, gpen: bv16, gpscien: bv16, gpsmien: bv16,
    glbsts: bv16, glben: bv16, glbctl: bv32)

  /** `edges` counts assertions by acpi_smi_edge, `direct` by the writes that
      raise SMI# themselves, `smis` the SMIs that came of both. */
  datatype Smi = Smi(lock: bool, active: bool, edges: nat, direct: nat, smis: nat)

  /** `rtc` is RTC_STS now, `sampled` when the line was last driven, `seen` at
      the last poll; `driven` is the line. */
  datatype State = State(
    r: Regs, rtc: bool, sampled: bool, seen: bool,
    sleeping: bool, wakePending: bool, driven: bool, smi: Smi)

  predicate IsVia(v: Vendor) { v == Via || v == Via596 }

  // ---- Levels ----

  function And(a: bv16, b: bv16): bv16 { a & b }
  function Or(a: bv16, b: bv16): bv16 { a | b }
  predicate Hits(a: bv16, mask: bv16) { a & mask != 0 }
  predicate Hits8(a: bv8, mask: bv8) { a & mask != 0 }
  predicate Hits32(a: bv32, mask: bv32) { a & mask != 0 }
  function And32(a: bv32, b: bv32): bv32 { a & b }

  function Pm(r: Regs, rtc: bool): bv16 {
    And(Or(r.pmsts, if rtc then RTC else 0), r.pmen)
  }

  predicate SciEnabled(r: Regs) { Hits(r.pmcntrl, 1) }

  /** An enabled status bit that raises SCI on this chip. */
  predicate SciPending(v: Vendor, r: Regs, rtc: bool) {
    || Hits(Pm(r, rtc), 0x0521)
    || match v
       case Intel => Hits(And(r.gpsts, r.gpen), 0x0a01)
       case Via => Hits(r.gpsts, r.gpscien)
       case Via596 => Hits(r.gpsts, r.gpscien)
       case Ali => Hits(r.gpsts, r.gpen)
  }

  predicate SciLevel(v: Vendor, r: Regs, rtc: bool) {
    SciEnabled(r) && SciPending(v, r, rtc)
  }

  /** acpi_legacy_pending: enabled events routed to SMI#. */
  predicate LegacyPending(v: Vendor, r: Regs, rtc: bool) {
    match v
    case Intel => !SciEnabled(r) && (Hits(Pm(r, rtc), PWRBTN) || Hits(And(r.gpsts, r.gpen), 0x0a01))
    case Via => (!SciEnabled(r) && Hits(Pm(r, rtc), 0x0700)) || Hits(r.gpsts, r.gpsmien)
    case Via596 => (!SciEnabled(r) && Hits(Pm(r, rtc), 0x0700)) || Hits(r.gpsts, r.gpsmien)
    case Ali => !SciEnabled(r) && (Hits(Pm(r, rtc), 0x0500) || Hits(r.gpsts, r.gpen))
  }

  predicate SmiEnabled(r: Regs) { Hits32(r.glbctl, 1) }

  /** acpi_smi_level. */
  predicate SmiLevel(v: Vendor, r: Regs, rtc: bool) {
    if IsVia(v) then SmiEnabled(r) && (Hits(r.glbsts, r.glben) || LegacyPending(v, r, rtc))
    else LegacyPending(v, r, rtc)
  }

  predicate Level(v: Vendor, s: State) { SmiLevel(v, s.r, s.rtc) }

  /** An enabled event that ends the sleep. */
  predicate WakeSource(v: Vendor, r: Regs, rtc: bool) {
    || (rtc && Hits(r.pmen, RTC))
    || match v
       case Intel => Hits(And(r.gpsts, r.gpen), 0x0f00)
       case Via => Hits(r.gpsts, Or(r.gpscien, r.gpsmien))
       case Via596 => Hits(r.gpsts, Or(r.gpscien, r.gpsmien))
       case Ali => Hits(And(r.gpsts, r.gpen), 0x0d04)
  }

  // ---- Driving the line, raising SMI# ----

  /** acpi_update_irq. */
  function Update(v: Vendor, s: State): State {
    s.(driven := SciLevel(v, s.r, s.rtc), sampled := s.rtc)
  }

  /** acpi_raise_smi. */
  function Raise(v: Vendor, s: State): State {
    if !SmiEnabled(s.r) then s
    else if IsVia(v) then
      if s.smi.lock && s.smi.active then s
      else s.(smi := s.smi.(smis := s.smi.smis + 1, active := true))
    else if v == Intel then
      s.(smi := s.smi.(smis := s.smi.smis + 1), r := s.r.(glbctl := And32(s.r.glbctl, 0xfffeffff)))
    else s.(smi := s.smi.(smis := s.smi.smis + 1))
  }

  function RaiseDirect(v: Vendor, s: State): State {
    Raise(v, s.(smi := s.smi.(direct := s.smi.direct + 1)))
  }

  /** acpi_smi_edge: the ALi block hands the edge to its chipset's hook. */
  function Edge(v: Vendor, s: State, was: bool): State {
    if was || !Level(v, s) then s
    else
      var t := s.(smi := s.smi.(edges := s.smi.edges + 1));
      if v == Ali then t else Raise(v, t)
  }

  /** New registers, then the line, then SMI#. */
  function Changed(v: Vendor, s: State, r: Regs): State {
    Edge(v, Update(v, s.(r := r)), Level(v, s))
  }

  // ---- Register writes ----

  function Lane(addr: int, val: bv8): bv16 {
    if addr % 2 == 0 then val as bv16 else (val as bv16) << 8
  }

  function Merge(reg: bv16, addr: int, val: bv8): bv16 {
    Or(And(reg, if addr % 2 == 0 then 0xff00 else 0x00ff), Lane(addr, val))
  }

  function Cleared(reg: bv16, bits: bv16): bv16 { reg & !bits }

  /** A byte of a 32-bit register. */
  function Merge32(reg: bv32, addr: int, val: bv8): bv32 {
    match addr % 4
    case 0 => (reg & 0xffffff00) | val as bv32
    case 1 => (reg & 0xffff00ff) | ((val as bv32) << 8)
    case 2 => (reg & 0xff00ffff) | ((val as bv32) << 16)
    case _ => (reg & 0x00ffffff) | ((val as bv32) << 24)
  }

  /** PMCNTRL. A soft power-off ends the emulation and writes nothing. */
  function WriteControl(v: Vendor, s: State, addr: int, val: bv8, kind: SleepKind): State {
    var sleep := addr == 5 && Hits8(val, 0x20);
    if sleep && kind == PowerOff then s
    else
      var t := if sleep && kind == Suspend then s.(sleeping := true, wakePending := false) else s;
      var r := s.r.(pmcntrl := And(Merge(s.r.pmcntrl, addr, val), 0x3f07));
      if addr == 4 && SciEnabled(s.r) != (Hits8(val, 1)) then Edge(v, Update(v, t.(r := r)), Level(v, s))
      else t.(r := r)
  }

  function WriteCommon(v: Vendor, s: State, addr: int, val: bv8, kind: SleepKind): State {
    if addr == 0 || addr == 1 then
      Update(v, s.(r := s.r.(pmsts := Cleared(s.r.pmsts, And(Lane(addr, val), 0x8d31))),
                   rtc := s.rtc && !(addr == 1 && Hits8(val, 4))))
    else if addr == 2 || addr == 3 then
      Changed(v, s, s.r.(pmen := And(Merge(s.r.pmen, addr, val), 0x0521)))
    else if addr == 4 || addr == 5 then WriteControl(v, s, addr, val, kind)
    else s
  }

  /** BIOS_RLS sets GBL_STS. */
  function SetGlobal(v: Vendor, s: State): State {
    Update(v, s.(r := s.r.(pmsts := Or(s.r.pmsts, GBL))))
  }

  function WriteAli(s: State, addr: int, val: bv8, kind: SleepKind, biosSmi: bool): State {
    if addr == 0x18 || addr == 0x19 then
      Update(Ali, s.(r := s.r.(gpsts := Cleared(s.r.gpsts, And(Lane(addr, val), 0x0d07)))))
    else if addr == 0x1a || addr == 0x1b then
      Changed(Ali, s, s.r.(gpen := And(Merge(s.r.gpen, addr, val), 0x0d07)))
    else if 0x10 <= addr <= 0x27 || addr == 0x30 then
      if addr == 0x20 && Hits8(val, 2) then SetGlobal(Ali, s) else s
    else
      var t := WriteCommon(Ali, s, addr, val, kind);
      if addr == 4 && Hits(t.r.pmcntrl, 4) && biosSmi then RaiseDirect(Ali, t) else t
  }

  /** What GLBCTL finds still pending when SMI# may be asserted again. */
  predicate StillPending(c: Chip, r: Regs, rtc: bool) {
    && Hits32(r.glbctl, 0x10000) && Hits32(r.glbctl, 1)
    && (|| (Hits(r.glbsts, 0x20) && c.doSmi)
        || (Hits(r.glbsts, 0x01) && Hits(r.glben, 0x02))
        || (Hits(r.glbsts, 0x02) && (!c.usbClears || Hits(r.glben, 0x01)))
        || LegacyPending(Intel, r, rtc))
  }

  function WriteGlobalIntel(c: Chip, s: State, addr: int, val: bv8): State {
    var t := s.(r := s.r.(glbctl := And32(Merge32(s.r.glbctl, addr, val), 0x0701ff05)));
    var u := if StillPending(c, t.r, t.rtc) then RaiseDirect(Intel, t) else t;
    if addr == 0x28 && Hits8(val, 2) then SetGlobal(Intel, u) else u
  }

  function WriteIntel(c: Chip, s: State, addr: int, val: bv8, kind: SleepKind): State {
    if addr == 0x0c || addr == 0x0d then
      Update(Intel, s.(r := s.r.(gpsts := Cleared(s.r.gpsts, And(Lane(addr, val), 0x0f81)))))
    else if addr == 0x0e || addr == 0x0f then
      Changed(Intel, s, s.r.(gpen := And(Merge(s.r.gpen, addr, val), 0x0f01)))
    else if addr == 0x18 || addr == 0x19 then
      s.(r := s.r.(glbsts := Cleared(s.r.glbsts, And(Lane(addr, val), (if c.usbClears then 0x0d27 else 0x0d25)))))
    else if addr == 0x20 || addr == 0x21 then
      s.(r := s.r.(glben := And(Merge(s.r.glben, addr, val), 0x8d1f)))
    else if 0x28 <= addr <= 0x2b then WriteGlobalIntel(c, s, addr, val)
    else
      var t := WriteCommon(Intel, s, addr, val, kind);
      if addr == 4 && Hits(t.r.pmcntrl, 4) then
        var u := t.(r := t.r.(glbsts := Or(t.r.glbsts, 1)));
        if Hits(u.r.glben, 2) then RaiseDirect(Intel, u) else u
      else t
  }

  function GpMask(v: Vendor): bv16 { if v == Via596 then 0x5fff else 0x03ff }
  function GlobalMask(v: Vendor): bv16 { if v == Via596 then 0xfdff else 0x007f }

  function WriteGlobalVia(v: Vendor, s: State, val: bv8): State {
    var r := s.r.(glbctl := Merge32(s.r.glbctl, 0, val));
    var t := Edge(v, s.(r := r, smi := s.smi.(lock := Hits8(val, 0x10))), Level(v, s));
    if !Hits32(s.r.glbctl, 2) && Hits8(val, 2) then SetGlobal(v, t) else t
  }

  /** BIOS_STS (GBL_RLS) or the SMI command: a status bit that raises SMI#
      itself when enabled. */
  function RaiseGlobal(v: Vendor, s: State, bit: bv16): State {
    var t := s.(r := s.r.(glbsts := Or(s.r.glbsts, bit)));
    if Hits(t.r.glben, bit) then RaiseDirect(v, t) else t
  }

  function WriteViaCommon(v: Vendor, s: State, addr: int, val: bv8, kind: SleepKind): State {
    var t := WriteCommon(v, s, addr % 64, val, kind);
    if addr == 0 && !Hits(t.r.pmsts, GBL) then t.(r := t.r.(glbctl := And32(t.r.glbctl, 0xfffffffd)))
    else if addr == 4 && !Hits(s.r.pmcntrl, 4) && Hits(t.r.pmcntrl, 4) then RaiseGlobal(v, t, 0x20)
    else t
  }

  /** The GPIO, trap and activity registers: nothing the model holds. */
  predicate ViaOther(v: Vendor, addr: int) {
    || 0x10 <= addr <= 0x13 || addr == 0x26 || addr == 0x27 || 0x30 <= addr <= 0x3b
    || addr == 0x40 || addr == 0x42
    || (v == Via && (addr == 0x46 || addr == 0x47))
    || (v == Via596 && 0x4c <= addr <= 0x4f)
  }

  function WriteVia(v: Vendor, s: State, size: int, addr: int, val: bv8, kind: SleepKind): State {
    if ViaOther(v, addr) then s
    else if addr == 0x20 || addr == 0x21 then
      Update(v, s.(r := s.r.(gpsts := Cleared(s.r.gpsts, And(Lane(addr, val), GpMask(v))))))
    else if addr == 0x22 || addr == 0x23 then
      Update(v, s.(r := s.r.(gpscien := And(Merge(s.r.gpscien, addr, val), GpMask(v)))))
    else if addr == 0x24 || addr == 0x25 then
      Edge(v, s.(r := s.r.(gpsmien := And(Merge(s.r.gpsmien, addr, val), GpMask(v)))), Level(v, s))
    else if addr == 0x28 || addr == 0x29 then
      var g := Cleared(s.r.glbsts, And(Lane(addr, val), GlobalMask(v)));
      s.(r := s.r.(glbsts := g, pmcntrl := if !Hits(g, 0x20) then And(s.r.pmcntrl, 0xfffb) else s.r.pmcntrl))
    else if addr == 0x2a || addr == 0x2b then
      Edge(v, s.(r := s.r.(glben := And(Merge(s.r.glben, addr, val), GlobalMask(v)))), Level(v, s))
    else if addr == 0x2c then WriteGlobalVia(v, s, val)
    else if addr == 0x2d then
      s.(r := s.r.(glbctl := if Hits8(val, 1) then And32(s.r.glbctl, 0xfffffeff) else s.r.glbctl),
         smi := s.smi.(active := s.smi.active && !Hits8(val, 1)))
    else if addr == 0x2f then
      if size == 1 then RaiseGlobal(v, s, 0x40) else s
    else WriteViaCommon(v, s, addr, val, kind)
  }

  /** The chips decode 64, 64, 256 and 128 bytes of I/O. */
  function Write(c: Chip, s: State, w: RegWrite): State {
    match c.vendor
    case Intel => WriteIntel(c, s, w.addr % 64, w.val, w.kind)
    case Ali => WriteAli(s, w.addr % 64, w.val, w.kind, w.biosSmi)
    case Via => WriteVia(Via, s, w.size, w.addr % 256, w.val, w.kind)
    case Via596 => WriteVia(Via596, s, w.size, w.addr % 128, w.val, w.kind)
  }

  /** `kind` is the suspend table's entry for the value, `biosSmi` the ALi's
      BIOS_STS enable. */
  datatype RegWrite = RegWrite(size: int, addr: int, val: bv8, kind: SleepKind, biosSmi: bool)

  // ---- Events ----

  function GpeBit(v: Vendor, source: int): bv16 {
    if source < 0 || source >= 5 then 0
    else
      match v
      case Intel => [0x0400, 0x0100, 0x0800, 0x0001, 0x0200][source]
      case Via => [0x0100, 0x0200, 0x0000, 0x0000, 0x0000][source]
      case Via596 => [0x0100, 0x0200, 0x0800, 0x0400, 0x0002][source]
      case Ali => [0x0800, 0x0004, 0x0000, 0x0001, 0x0000][source]
  }

  /** acpi_gpe_event. */
  function Gpe(v: Vendor, s: State, source: int): State {
    var bit := GpeBit(v, source);
    if bit == 0 then s
    else
      var r := s.r.(gpsts := Or(s.r.gpsts, bit));
      if s.sleeping then s.(r := r, wakePending := s.wakePending || WakeSource(v, r, s.rtc))
      else Changed(v, s, r)
  }

  /** acpi_pwrbtn_press. */
  function Press(v: Vendor, s: State): State {
    var r := s.r.(pmsts := Or(s.r.pmsts, PWRBTN));
    if s.sleeping then s.(r := r, wakePending := true) else Changed(v, s, r)
  }

  /** The power button held for four seconds. */
  function Override(v: Vendor, s: State): State {
    Update(v, s.(r := s.r.(pmsts := Or(Cleared(s.r.pmsts, PWRBTN), if v == Ali then 0 else PWRBTNOR))))
  }

  /** The RTC part of acpi_pwrbtn_timer, every 16 ms. */
  function Poll(v: Vendor, s: State): State {
    var t := if s.rtc == s.seen then s else Edge(v, Update(v, s.(seen := s.rtc)), Level(v, s));
    if t.sleeping && WakeSource(v, t.r, t.rtc) then t.(wakePending := true) else t
  }

  /** acpi_wake_now, once a wake is pending. */
  function Wake(v: Vendor, s: State): State {
    if !(s.sleeping && s.wakePending) then s
    else
      Edge(v, Update(v, s.(sleeping := false, wakePending := false, r := s.r.(pmsts := Or(s.r.pmsts, WAK)))), false)
  }

  function ResetRegs(v: Vendor, powerOn: bool): Regs {
    Regs(if powerOn then WAK | PWRBTN else 0, if v == Via596 then PWRBTN else 0, if v == Ali then 0x1000 else 0,
         0, 0, 0, 0, 0, 0, 0)
  }

  function Reset(v: Vendor, s: State, powerOn: bool): State {
    s.(r := ResetRegs(v, powerOn), rtc := false, sampled := false, sleeping := false, wakePending := false,
       driven := false, smi := s.smi.(lock := false, active := false))
  }

  datatype Step =
    | Wrote(w: RegWrite)
    | TimerToggled
    | GpeRaised(source: int)
    | Pressed
    | HeldDown
    | Polled
    | RtcRang
    | Woke
    | Resumed
    | WasReset(powerOn: bool)

  function Next(c: Chip, s: State, e: Step): State {
    match e
    case Wrote(w) => Write(c, s, w)
    case TimerToggled => Update(c.vendor, s.(r := s.r.(pmsts := Or(s.r.pmsts, TMROF))))
    case GpeRaised(source) => Gpe(c.vendor, s, source)
    case Pressed => Press(c.vendor, s)
    case HeldDown => Override(c.vendor, s)
    case Polled => Poll(c.vendor, s)
    case RtcRang => s.(rtc := true)
    case Woke => Wake(c.vendor, s)
    case Resumed => s.(r := s.r.(pmsts := Or(s.r.pmsts, WAK)))
    case WasReset(powerOn) => Reset(c.vendor, s, powerOn)
  }

  function Run(c: Chip, s: State, steps: seq<Step>): State {
    if steps == [] then s else Next(c, Run(c, s, steps[..|steps| - 1]), steps[|steps| - 1])
  }
}
