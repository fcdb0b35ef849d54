/**
 The ACPI block as the device that updates its registers in place (src/acpi.c).
 Whatever reaches it from outside, a register write, an event, a timer, leaves
 the SCI line right and raises SMI# edges as owed.
 */
module AcpiDevice {
  import opened AcpiBits
  import opened AcpiChip
  import opened AcpiRegisters
  import opened AcpiSci
  import opened AcpiSmi

  class Device {
    const chip: Chip
    var r: Regs
    var rtc: bool
    var seen: bool
    var sleeping: bool
    var wakePending: bool
    var driven: bool
    var smi: Smi
    /** RTC_STS when the line was last driven. */
    ghost var sampled: bool

    ghost function Now(): State
      reads this
    {
      State(r, rtc, sampled, seen, sleeping, wakePending, driven, smi)
    }

    /** While the machine is awake, SCI is driven exactly when SCI_EN and an
        enabled status of the chip say. */
    ghost predicate Valid()
      reads this
    {
      LineRight(chip.vendor, Now())
    }

    /** Powered on. */
    constructor (c: Chip)
      ensures chip == c && Valid() && smi.edges == 0 && !sleeping
      ensures r == ResetRegs(c.vendor, true) && !driven
    {
      chip, r := c, ResetRegs(c.vendor, true);
      rtc, sampled, seen, sleeping, wakePending, driven := false, false, false, false, false, false;
      smi := Smi(false, false, 0, 0, 0);
      new;
      ResetLine(c.vendor, Now(), true);
      assert Now() == Reset(c.vendor, Now(), true);
      RightIsDriven(c.vendor, Now());
    }

    // ---- Inside ----

    method UpdateIrq()
      modifies this
      ensures Now() == Update(chip.vendor, old(Now()))
    {
      var pending := Hits(Pm(r, rtc), 0x0521);
      match chip.vendor {
        case Intel => pending := pending || Hits(And(r.gpsts, r.gpen), 0x0a01);
        case Via => pending := pending || Hits(r.gpsts, r.gpscien);
        case Via596 => pending := pending || Hits(r.gpsts, r.gpscien);
        case Ali => pending := pending || Hits(r.gpsts, r.gpen);
      }
      driven, sampled := Hits(r.pmcntrl, 1) && pending, rtc;
    }

    method RaiseSmi()
      modifies this
      ensures Now() == Raise(chip.vendor, old(Now()))
    {
      hide And32, Hits32;
      if !SmiEnabled(r) {
        return;
      }
      if IsVia(chip.vendor) {
        if !smi.lock || !smi.active {
          smi := smi.(smis := smi.smis + 1);
          smi := smi.(active := true);
        }
      } else {
        smi := smi.(smis := smi.smis + 1);
        if chip.vendor == Intel {
          r := r.(glbctl := And32(r.glbctl, 0xfffeffff));
        }
      }
    }

    method RaiseSmiDirect()
      modifies this
      ensures Now() == RaiseDirect(chip.vendor, old(Now()))
    {
      hide Raise;
      smi := smi.(direct := smi.direct + 1);
      RaiseSmi();
    }

    method SmiEdge(was: bool)
      modifies this
      ensures Now() == Edge(chip.vendor, old(Now()), was)
    {
      hide Raise, SmiLevel;
      if was || !SmiLevel(chip.vendor, r, rtc) {
        return;
      }
      smi := smi.(edges := smi.edges + 1);
      if chip.vendor != Ali {
        RaiseSmi();
      }
    }

    /** Registers rewritten, the line driven, an edge if the level rose. */
    method Change(next: Regs)
      modifies this
      ensures Now() == Changed(chip.vendor, old(Now()), next)
    {
      hide Edge, Update, SmiLevel;
      var was := SmiLevel(chip.vendor, r, rtc);
      r := next;
      UpdateIrq();
      SmiEdge(was);
    }

    method WriteControlReg(addr: int, val: bv8, kind: SleepKind)
      modifies this
      ensures Now() == WriteControl(chip.vendor, old(Now()), addr, val, kind)
    {
      hide Edge, Update, SmiLevel, And, Hits, Hits8, Merge;
      var was, enabled := SmiLevel(chip.vendor, r, rtc), SciEnabled(r);
      if addr == 5 && Hits8(val, 0x20) {
        if kind == PowerOff {
          return;
        }
        if kind == Suspend {
          sleeping, wakePending := true, false;
        }
      }
      r := r.(pmcntrl := And(Merge(r.pmcntrl, addr, val), 0x3f07));
      if addr == 4 && enabled != Hits8(val, 1) {
        UpdateIrq();
        SmiEdge(was);
      }
    }

    method WriteCommonReg(addr: int, val: bv8, kind: SleepKind)
      modifies this
      ensures Now() == WriteCommon(chip.vendor, old(Now()), addr, val, kind)
    {
      hide Changed, Update, And, Hits8, Merge, Lane, Cleared, WriteControl;
      if addr == 0 || addr == 1 {
        r := r.(pmsts := Cleared(r.pmsts, And(Lane(addr, val), 0x8d31)));
        if addr == 1 && Hits8(val, 4) {
          rtc := false;
        }
        UpdateIrq();
      } else if addr == 2 || addr == 3 {
        Change(r.(pmen := And(Merge(r.pmen, addr, val), 0x0521)));
      } else if addr == 4 || addr == 5 {
        WriteControlReg(addr, val, kind);
      }
    }

    method BiosRelease()
      modifies this
      ensures Now() == SetGlobal(chip.vendor, old(Now()))
    {
      hide Update, Or;
      r := r.(pmsts := Or(r.pmsts, GBL));
      UpdateIrq();
    }

    method WriteAliReg(addr: int, val: bv8, kind: SleepKind, biosSmi: bool)
      requires chip.vendor == Ali
      modifies this
      ensures Now() == WriteAli(old(Now()), addr, val, kind, biosSmi)
    {
      hide Changed, Update, And, Hits, Hits8, Merge, Lane, Cleared, WriteCommon, SetGlobal, RaiseDirect;
      if addr == 0x18 || addr == 0x19 {
        r := r.(gpsts := Cleared(r.gpsts, And(Lane(addr, val), 0x0d07)));
        UpdateIrq();
      } else if addr == 0x1a || addr == 0x1b {
        Change(r.(gpen := And(Merge(r.gpen, addr, val), 0x0d07)));
      } else if 0x10 <= addr <= 0x27 || addr == 0x30 {
        if addr == 0x20 && Hits8(val, 2) {
          BiosRelease();
        }
      } else {
        WriteCommonReg(addr, val, kind);
        if addr == 4 && Hits(r.pmcntrl, 4) && biosSmi {
          RaiseSmiDirect();
        }
      }
    }

    method WriteGlobalIntelReg(addr: int, val: bv8)
      requires chip.vendor == Intel
      modifies this
      ensures Now() == WriteGlobalIntel(chip, old(Now()), addr, val)
    {
      hide And32, Merge32, StillPending, RaiseDirect, SetGlobal, Hits8;
      r := r.(glbctl := And32(Merge32(r.glbctl, addr, val), 0x0701ff05));
      if StillPending(chip, r, rtc) {
        RaiseSmiDirect();
      }
      if addr == 0x28 && Hits8(val, 2) {
        BiosRelease();
      }
    }

    method WriteIntelReg(addr: int, val: bv8, kind: SleepKind)
      requires chip.vendor == Intel
      modifies this
      ensures Now() == WriteIntel(chip, old(Now()), addr, val, kind)
    {
      hide Changed, Update, And, Or, Hits, Merge, Lane, Cleared, WriteCommon, WriteGlobalIntel, RaiseDirect;
      if addr == 0x0c || addr == 0x0d {
        r := r.(gpsts := Cleared(r.gpsts, And(Lane(addr, val), 0x0f81)));
        UpdateIrq();
      } else if addr == 0x0e || addr == 0x0f {
        Change(r.(gpen := And(Merge(r.gpen, addr, val), 0x0f01)));
      } else if addr == 0x18 || addr == 0x19 {
        var mask: bv16 := if chip.usbClears then 0x0d27 else 0x0d25;
        r := r.(glbsts := Cleared(r.glbsts, And(Lane(addr, val), mask)));
      } else if addr == 0x20 || addr == 0x21 {
        r := r.(glben := And(Merge(r.glben, addr, val), 0x8d1f));
      } else if 0x28 <= addr <= 0x2b {
        WriteGlobalIntelReg(addr, val);
      } else {
        WriteCommonReg(addr, val, kind);
        if addr == 4 && Hits(r.pmcntrl, 4) {
          r := r.(glbsts := Or(r.glbsts, 1));
          if Hits(r.glben, 2) {
            RaiseSmiDirect();
          }
        }
      }
    }

    method RaiseGlobalStatus(bit: bv16)
      modifies this
      ensures Now() == RaiseGlobal(chip.vendor, old(Now()), bit)
    {
      hide Or, Hits, RaiseDirect;
      r := r.(glbsts := Or(r.glbsts, bit));
      if Hits(r.glben, bit) {
        RaiseSmiDirect();
      }
    }

    method WriteViaCommonReg(addr: int, val: bv8, kind: SleepKind)
      modifies this
      ensures Now() == WriteViaCommon(chip.vendor, old(Now()), addr, val, kind)
    {
      hide WriteCommon, RaiseGlobal, Hits, And32;
      var was := r.pmcntrl;
      WriteCommonReg(addr % 64, val, kind);
      if addr == 0 && !Hits(r.pmsts, GBL) {
        r := r.(glbctl := And32(r.glbctl, 0xfffffffd));
      } else if addr == 4 && !Hits(was, 4) && Hits(r.pmcntrl, 4) {
        RaiseGlobalStatus(0x20);
      }
    }

    method WriteGlobalViaReg(val: bv8)
      modifies this
      ensures Now() == WriteGlobalVia(chip.vendor, old(Now()), val)
    {
      hide Edge, SmiLevel, SetGlobal, Merge32, Hits8, Hits32;
      var was, before := SmiLevel(chip.vendor, r, rtc), r.glbctl;
      r, smi := r.(glbctl := Merge32(r.glbctl, 0, val)), smi.(lock := Hits8(val, 0x10));
      SmiEdge(was);
      if !Hits32(before, 2) && Hits8(val, 2) {
        BiosRelease();
      }
    }

    method WriteViaGpReg(addr: int, val: bv8)
      requires 0x20 <= addr <= 0x25
      modifies this
      ensures Now() == WriteVia(chip.vendor, old(Now()), 1, addr, val, Working)
    {
      hide Update, Edge, SmiLevel, And, Merge, Lane, Cleared, GpMask;
      if addr == 0x20 || addr == 0x21 {
        r := r.(gpsts := Cleared(r.gpsts, And(Lane(addr, val), GpMask(chip.vendor))));
        UpdateIrq();
      } else if addr == 0x22 || addr == 0x23 {
        r := r.(gpscien := And(Merge(r.gpscien, addr, val), GpMask(chip.vendor)));
        UpdateIrq();
      } else {
        var was := SmiLevel(chip.vendor, r, rtc);
        r := r.(gpsmien := And(Merge(r.gpsmien, addr, val), GpMask(chip.vendor)));
        SmiEdge(was);
      }
    }

    method EnableGlobal(glben: bv16)
      modifies this
      ensures var s := old(Now());
              Now() == Edge(chip.vendor, s.(r := s.r.(glben := glben)), Level(chip.vendor, s))
    {
      hide Edge, SmiLevel;
      var was := SmiLevel(chip.vendor, r, rtc);
      r := r.(glben := glben);
      SmiEdge(was);
    }

    method WriteViaGlobalReg(addr: int, val: bv8)
      requires 0x28 <= addr <= 0x2d
      modifies this
      ensures Now() == WriteVia(chip.vendor, old(Now()), 1, addr, val, Working)
    {
      hide Edge, SmiLevel, And, Hits, Hits8, And32, Merge, Lane, Cleared, WriteGlobalVia, GlobalMask;
      if addr == 0x28 || addr == 0x29 {
        ClearGlobalStatus(And(Lane(addr, val), GlobalMask(chip.vendor)));
      } else if addr == 0x2a || addr == 0x2b {
        EnableGlobal(And(Merge(r.glben, addr, val), GlobalMask(chip.vendor)));
      } else if addr == 0x2c {
        WriteGlobalViaReg(val);
      } else {
        ClearActive(val);
      }
    }

    method WriteViaReg(size: int, addr: int, val: bv8, kind: SleepKind)
      modifies this
      ensures Now() == WriteVia(chip.vendor, old(Now()), size, addr, val, kind)
    {
      hide Update, Edge, SmiLevel, And, Hits, Hits8, And32, Merge, Lane, Cleared, WriteViaCommon, WriteGlobalVia,
           RaiseGlobal, GpMask, GlobalMask;
      if 0x20 <= addr <= 0x25 {
        WriteViaGpReg(addr, val);
      } else if 0x28 <= addr <= 0x2d {
        WriteViaGlobalReg(addr, val);
      } else if addr == 0x2f {
        if size == 1 {
          RaiseGlobalStatus(0x40);
        }
      } else if !ViaOther(chip.vendor, addr) {
        WriteViaCommonReg(addr, val, kind);
      }
    }

    /** GLBSTS bits cleared; with BIOS_STS clear, GBL_RLS too. */
    method ClearGlobalStatus(bits: bv16)
      modifies this
      ensures var g := Cleared(old(Now()).r.glbsts, bits);
              var p := old(Now()).r.pmcntrl;
              Now() == old(Now()).(r := old(Now()).r.(glbsts := g, pmcntrl := if !Hits(g, 0x20)
                  then And(p, 0xfffb) else p))
    {
      hide Cleared, Hits, And;
      r := r.(glbsts := Cleared(r.glbsts, bits));
      if !Hits(r.glbsts, 0x20) {
        r := r.(pmcntrl := And(r.pmcntrl, 0xfffb));
      }
    }

    method ClearActive(val: bv8)
      modifies this
      ensures var g := old(Now()).r.glbctl;
              Now() == old(Now()).(r := old(Now()).r.(glbctl := if Hits8(val, 1) then And32(g, 0xfffffeff) else g),
                                   smi := old(Now()).smi.(active := old(Now()).smi.active && !Hits8(val, 1)))
    {
      hide Hits8, And32;
      if Hits8(val, 1) {
        r := r.(glbctl := And32(r.glbctl, 0xfffffeff));
        smi := smi.(active := false);
      }
    }

    method PollRtc()
      modifies this
      ensures Now() == Poll(chip.vendor, old(Now()))
    {
      hide Update, Edge, SmiLevel, WakeSource;
      if rtc != seen {
        var was := SmiLevel(chip.vendor, r, rtc);
        seen := rtc;
        UpdateIrq();
        SmiEdge(was);
      }
      if sleeping && WakeSource(chip.vendor, r, rtc) {
        wakePending := true;
      }
    }

    // ---- From outside ----

    /** A byte written to the chip's registers. */
    method WriteReg(w: RegWrite)
      requires Valid()
      modifies this
      ensures Valid() && Now() == Next(chip, old(Now()), Wrote(w))
      ensures smi.edges == old(smi.edges) + Due(chip.vendor, old(Now()), Wrote(w), Own(chip, old(Now()), Wrote(w)))
      // what is then in every bit of the registers
      ensures forall n: Name, k: bv4 :: Bit(Reg(r, n), k) == Expected(chip, old(r), w, n, k)
      ensures forall k: bv5 :: k != 16 ==> Bit32(r.glbctl, k) == Control(chip, old(r), w, k)
    {
      hide LineRight, WriteIntel, WriteAli, WriteVia, Due, Own, Bit, Bit32, Reg, Expected, Control;
      forall n: Name, k: bv4 ensures Bit(Reg(Write(chip, Now(), w).r, n), k) == Expected(chip, r, w, n, k) {
        WriteByBits(chip, Now(), w, n, k);
      }
      forall k: bv5 | k != 16 ensures Bit32(Write(chip, Now(), w).r.glbctl, k) == Control(chip, r, w, k) {
        ControlByBits(chip, Now(), w, k);
      }
      NextLine(chip, Now(), Wrote(w));
      NextOwed(chip, Now(), Wrote(w));
      match chip.vendor {
        case Intel => WriteIntelReg(w.addr % 64, w.val, w.kind);
        case Ali => WriteAliReg(w.addr % 64, w.val, w.kind, w.biosSmi);
        case Via => WriteViaReg(w.size, w.addr % 256, w.val, w.kind);
        case Via596 => WriteViaReg(w.size, w.addr % 128, w.val, w.kind);
      }
    }

    /** acpi_timer_overflow: TMR_STS. */
    method TimerOverflow()
      requires Valid()
      modifies this
      ensures Valid() && Now() == Next(chip, old(Now()), TimerToggled) && smi == old(smi)
    {
      hide LineRight, Update, Or;
      NextLine(chip, Now(), TimerToggled);
      UpdateQuiet(chip.vendor, Now().(r := r.(pmsts := Or(r.pmsts, TMROF))));
      r := r.(pmsts := Or(r.pmsts, TMROF));
      UpdateIrq();
    }

    method GpeEvent(source: int)
      requires Valid()
      modifies this
      ensures Valid() && Now() == Next(chip, old(Now()), GpeRaised(source))
      ensures smi.edges == old(smi.edges) + Due(chip.vendor, old(Now()), GpeRaised(source), Now())
      ensures InputRaised(chip.vendor, source, old(r), r)
    {
      hide LineRight, Changed, WakeSource, GpeBit, Or, Due, InputRaised;
      GpeRaises(chip.vendor, Now(), source);
      NextLine(chip, Now(), GpeRaised(source));
      GpeDue(chip.vendor, Now(), source);
      var bit := GpeBit(chip.vendor, source);
      if bit == 0 {
      } else if sleeping {
        r := r.(gpsts := Or(r.gpsts, bit));
        if WakeSource(chip.vendor, r, rtc) {
          wakePending := true;
        }
      } else {
        Change(r.(gpsts := Or(r.gpsts, bit)));
      }
    }

    method PressButton()
      requires Valid()
      modifies this
      ensures Valid() && Now() == Next(chip, old(Now()), Pressed)
      ensures smi.edges == old(smi.edges) + Due(chip.vendor, old(Now()), Pressed, Now())
    {
      hide LineRight, Changed, Or, Due;
      NextLine(chip, Now(), Pressed);
      PressDue(chip.vendor, Now());
      if sleeping {
        r := r.(pmsts := Or(r.pmsts, PWRBTN));
        wakePending := true;
      } else {
        Change(r.(pmsts := Or(r.pmsts, PWRBTN)));
      }
    }

    method OverrideButton()
      requires Valid()
      modifies this
      ensures Valid() && Now() == Next(chip, old(Now()), HeldDown) && smi.edges == old(smi.edges)
    {
      hide LineRight, Update, Or, Cleared;
      NextLine(chip, Now(), HeldDown);
      r := r.(pmsts := Or(Cleared(r.pmsts, PWRBTN), if chip.vendor == Ali then 0 else PWRBTNOR));
      UpdateQuiet(chip.vendor, Now());
      UpdateIrq();
    }

    /** The RTC's interrupt sets RTC_STS; the line follows at the next poll. */
    method RtcInterrupt()
      requires Valid()
      modifies this`rtc
      ensures Valid() && Now() == Next(chip, old(Now()), RtcRang)
    {
      hide LineRight;
      NextLine(chip, Now(), RtcRang);
      rtc := true;
    }

    method PollButton()
      requires Valid()
      modifies this
      ensures Valid() && Now() == Next(chip, old(Now()), Polled) && smi.edges == old(smi.edges)
      ensures old(!sleeping) ==> (driven == SciHigh(chip.vendor, r, rtc) <==>
                                  old(rtc != seen || sampled == rtc || !RtcDecides(chip.vendor, r)))
    {
      hide Poll, SciHigh, RtcDecides, LineRight;
      NextLine(chip, Now(), Polled);
      PollQuiet(chip.vendor, Now());
      if !sleeping { PollDrives(chip.vendor, Now()); }
      PollRtc();
    }

    method WakeNow()
      requires Valid()
      modifies this
      ensures Valid() && Now() == Next(chip, old(Now()), Woke)
      ensures smi.edges == old(smi.edges) + Due(chip.vendor, old(Now()), Woke, Now())
    {
      hide LineRight, Update, Edge, Or, Due;
      NextLine(chip, Now(), Woke);
      WakeDue(chip.vendor, Now());
      if sleeping && wakePending {
        sleeping, wakePending := false, false;
        r := r.(pmsts := Or(r.pmsts, WAK));
        UpdateIrq();
        SmiEdge(false);
      }
    }

    method ResetChip()
      requires Valid()
      modifies this
      ensures Valid() && Now() == Next(chip, old(Now()), WasReset(false)) && smi.edges == old(smi.edges)
    {
      hide LineRight, ResetRegs;
      NextLine(chip, Now(), WasReset(false));
      r := ResetRegs(chip.vendor, false);
      rtc, sampled, sleeping, wakePending, driven := false, false, false, false, false;
      smi := smi.(lock := false, active := false);
    }
  }
}
