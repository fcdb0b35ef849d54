/**
 The SCI line in every run of the chip: driven exactly as SCI_EN and the
 chip's enabled status bits say, and where RTC_STS reaches it.
 */
module AcpiSci {
  import opened AcpiChip
  import opened AcpiBits

  // ---- The line is right in every awake state ----

  /** Awake, SCI is high exactly if SCI_EN is set and an enabled event of the
      chip stands, RTC_STS as it was when the line was last driven. */
  predicate LineRight(v: Vendor, s: State) {
    !s.sleeping ==> s.driven == SciHigh(v, s.r, s.sampled)
  }

  /** The same, as the emulator computes it. */
  predicate LineDriven(v: Vendor, s: State) {
    !s.sleeping ==> s.driven == SciLevel(v, s.r, s.sampled)
  }

  lemma RightIsDriven(v: Vendor, s: State)
    ensures LineRight(v, s) == LineDriven(v, s)
  {
    hide SciLevel, SciHigh;
    SciByBits(v, s.r, s.sampled);
  }

  /** Registers that drive the line alike. */
  predicate SameSci(r: Regs, q: Regs) {
    && SciEnabled(r) == SciEnabled(q)
    && Hits(Pm(r, true), 0x0521) == Hits(Pm(q, true), 0x0521)
    && Hits(Pm(r, false), 0x0521) == Hits(Pm(q, false), 0x0521)
    && r.gpsts == q.gpsts && r.gpen == q.gpen && r.gpscien == q.gpscien
  }

  lemma SameSciLevel(v: Vendor, r: Regs, q: Regs, rtc: bool)
    requires SameSci(r, q)
    ensures SciLevel(v, r, rtc) == SciLevel(v, q, rtc)
  {
    hide And, Or, Hits, Pm;
    if rtc { } else { }
  }

  /** A step that leaves the line alone and what drives it alike. */
  lemma LineKept(v: Vendor, s: State, t: State)
    requires LineDriven(v, s) && SameSci(s.r, t.r)
    requires t.driven == s.driven && t.sampled == s.sampled && (s.sleeping ==> t.sleeping)
    ensures LineDriven(v, t)
  {
    hide SciLevel, SameSci;
    SameSciLevel(v, s.r, t.r, s.sampled);
  }

  /** Registers apart only in what SMI# alone uses. */
  lemma GlobalApart(r: Regs, q: Regs)
    requires q == r.(glbsts := q.glbsts, glben := q.glben, glbctl := q.glbctl, gpsmien := q.gpsmien)
    ensures SameSci(r, q)
  {
    hide And, Or, Hits;
  }

  /** What raising SMI# touches. */
  predicate OnlySmi(s: State, t: State) {
    && t.r == s.r.(glbctl := t.r.glbctl)
    && t.rtc == s.rtc && t.sampled == s.sampled && t.seen == s.seen
    && t.sleeping == s.sleeping && t.wakePending == s.wakePending && t.driven == s.driven
  }

  lemma RaiseOnly(v: Vendor, s: State)
    ensures OnlySmi(s, Raise(v, s))
  {
    hide And32, Hits32;
    if !SmiEnabled(s.r) {
    } else if IsVia(v) {
      if s.smi.lock && s.smi.active { } else { }
    } else if v == Intel {
    } else {
    }
  }

  lemma OnlySmiLine(v: Vendor, s: State, t: State)
    requires LineDriven(v, s) && OnlySmi(s, t)
    ensures LineDriven(v, t)
  {
    hide SciLevel, SameSci;
    GlobalApart(s.r, t.r);
    LineKept(v, s, t);
  }

  lemma RaiseLine(v: Vendor, s: State)
    requires LineDriven(v, s)
    ensures LineDriven(v, Raise(v, s))
  {
    hide *;
    RaiseOnly(v, s);
    OnlySmiLine(v, s, Raise(v, s));
  }

  lemma DirectLine(v: Vendor, s: State)
    requires LineDriven(v, s)
    ensures LineDriven(v, RaiseDirect(v, s))
  {
    hide SciLevel, Raise;
    RaiseLine(v, s.(smi := s.smi.(direct := s.smi.direct + 1)));
  }

  lemma EdgeLine(v: Vendor, s: State, was: bool)
    requires LineDriven(v, s)
    ensures LineDriven(v, Edge(v, s, was))
  {
    hide SciLevel, SmiLevel, Raise;
    if was || !Level(v, s) {
    } else {
      RaiseLine(v, s.(smi := s.smi.(edges := s.smi.edges + 1)));
    }
  }

  lemma UpdateLine(v: Vendor, s: State)
    ensures LineDriven(v, Update(v, s))
  {
    hide SciLevel;
  }

  lemma ChangedLine(v: Vendor, s: State, r: Regs)
    ensures LineDriven(v, Changed(v, s, r))
  {
    hide LineDriven, Update, Edge, SmiLevel;
    UpdateLine(v, s.(r := r));
    EdgeLine(v, Update(v, s.(r := r)), Level(v, s));
  }

  /** Bit 0 of PMCNTRL after a byte of it is written. */
  lemma EnableAfterLow(reg: bv16, addr: int, val: bv8)
    requires addr == 4
    ensures Hits(And(Merge(reg, addr, val), 0x3f07), 1) == Hits8(val, 1)
  {
    assert ((reg & 0xff00) | val as bv16) & 0x3f07 & 1 == (val as bv16) & 1;
    assert ((val as bv16) & 1 != 0) == (val & 1 != 0);
  }

  lemma EnableAfterHigh(reg: bv16, addr: int, val: bv8)
    requires addr == 5
    ensures Hits(And(Merge(reg, addr, val), 0x3f07), 1) == Hits(reg, 1)
  {
    assert ((reg & 0x00ff) | ((val as bv16) << 8)) & 0x3f07 & 1 == reg & 1;
  }

  /** PMCNTRL keeps the line unless it writes SCI_EN. */
  lemma ControlApart(r: Regs, pmcntrl: bv16)
    requires Hits(pmcntrl, 1) == SciEnabled(r)
    ensures SameSci(r, r.(pmcntrl := pmcntrl))
  {
    hide And, Or, Hits;
  }

  lemma ControlLine(v: Vendor, s: State, addr: int, val: bv8, kind: SleepKind)
    requires LineDriven(v, s) && (addr == 4 || addr == 5)
    ensures LineDriven(v, WriteControl(v, s, addr, val, kind))
  {
    hide LineDriven, Update, Edge, SmiLevel, And, Hits, Hits8, Merge;
    var sleep := addr == 5 && Hits8(val, 0x20);
    if sleep && kind == PowerOff {
    } else {
      var t := if sleep && kind == Suspend then s.(sleeping := true, wakePending := false) else s;
      var r := s.r.(pmcntrl := And(Merge(s.r.pmcntrl, addr, val), 0x3f07));
      if addr == 4 && SciEnabled(s.r) != Hits8(val, 1) {
        UpdateLine(v, t.(r := r));
        EdgeLine(v, Update(v, t.(r := r)), Level(v, s));
      } else {
        if addr == 4 { EnableAfterLow(s.r.pmcntrl, addr, val); } else { EnableAfterHigh(s.r.pmcntrl, addr, val); }
        ControlApart(s.r, r.pmcntrl);
        LineKept(v, s, t.(r := r));
      }
    }
  }

  lemma CommonLine(v: Vendor, s: State, addr: int, val: bv8, kind: SleepKind)
    requires LineDriven(v, s)
    ensures LineDriven(v, WriteCommon(v, s, addr, val, kind))
  {
    hide LineDriven, Update, Edge, Changed, SmiLevel, And, Hits, Hits8, Merge, Lane, Cleared, WriteControl;
    if addr == 0 || addr == 1 {
      UpdateLine(v, s.(r := s.r.(pmsts := Cleared(s.r.pmsts, And(Lane(addr, val), 0x8d31))),
                       rtc := s.rtc && !(addr == 1 && Hits8(val, 4))));
    } else if addr == 2 || addr == 3 {
      ChangedLine(v, s, s.r.(pmen := And(Merge(s.r.pmen, addr, val), 0x0521)));
    } else if addr == 4 || addr == 5 {
      ControlLine(v, s, addr, val, kind);
    } else {
    }
  }

  lemma GlobalLine(v: Vendor, s: State)
    ensures LineDriven(v, SetGlobal(v, s))
  {
    hide LineDriven, Update, Or;
    UpdateLine(v, s.(r := s.r.(pmsts := Or(s.r.pmsts, GBL))));
  }

  lemma AliLine(s: State, addr: int, val: bv8, kind: SleepKind, biosSmi: bool)
    requires LineDriven(Ali, s)
    ensures LineDriven(Ali, WriteAli(s, addr, val, kind, biosSmi))
  {
    hide LineDriven, Update, Changed, And, Hits, Hits8, Merge, Lane, Cleared, WriteCommon, SetGlobal, RaiseDirect;
    if addr == 0x18 || addr == 0x19 {
      UpdateLine(Ali, s.(r := s.r.(gpsts := Cleared(s.r.gpsts, And(Lane(addr, val), 0x0d07)))));
    } else if addr == 0x1a || addr == 0x1b {
      ChangedLine(Ali, s, s.r.(gpen := And(Merge(s.r.gpen, addr, val), 0x0d07)));
    } else if 0x10 <= addr <= 0x27 || addr == 0x30 {
      if addr == 0x20 && Hits8(val, 2) { GlobalLine(Ali, s); } else { }
    } else {
      CommonLine(Ali, s, addr, val, kind);
      var t := WriteCommon(Ali, s, addr, val, kind);
      if addr == 4 && Hits(t.r.pmcntrl, 4) && biosSmi { DirectLine(Ali, t); } else { }
    }
  }

  /** A change to the registers SMI# alone uses. */
  lemma ApartLine(v: Vendor, s: State, r: Regs, smi: Smi)
    requires LineDriven(v, s)
    requires r == s.r.(glbsts := r.glbsts, glben := r.glben, glbctl := r.glbctl, gpsmien := r.gpsmien)
    ensures LineDriven(v, s.(r := r, smi := smi))
  {
    hide LineDriven, SameSci;
    GlobalApart(s.r, r);
    LineKept(v, s, s.(r := r, smi := smi));
  }

  lemma GlobalIntelLine(c: Chip, s: State, addr: int, val: bv8)
    requires LineDriven(Intel, s)
    ensures LineDriven(Intel, WriteGlobalIntel(c, s, addr, val))
  {
    hide LineDriven, SetGlobal, And32, Merge32, StillPending, RaiseDirect, Hits8;
    var r := s.r.(glbctl := And32(Merge32(s.r.glbctl, addr, val), 0x0701ff05));
    ApartLine(Intel, s, r, s.smi);
    var t := s.(r := r);
    DirectLine(Intel, t);
    var u := if StillPending(c, t.r, t.rtc) then RaiseDirect(Intel, t) else t;
    if addr == 0x28 && Hits8(val, 2) { GlobalLine(Intel, u); } else { }
  }

  lemma IntelGpLine(c: Chip, s: State, addr: int, val: bv8, kind: SleepKind)
    requires LineDriven(Intel, s) && 0x0c <= addr <= 0x0f
    ensures LineDriven(Intel, WriteIntel(c, s, addr, val, kind))
  {
    hide LineDriven, Update, Changed, And, Or, Hits, Merge, Lane, Cleared, WriteCommon, WriteGlobalIntel, RaiseDirect;
    if addr == 0x0c || addr == 0x0d {
      UpdateLine(Intel, s.(r := s.r.(gpsts := Cleared(s.r.gpsts, And(Lane(addr, val), 0x0f81)))));
    } else {
      ChangedLine(Intel, s, s.r.(gpen := And(Merge(s.r.gpen, addr, val), 0x0f01)));
    }
  }

  lemma IntelGlobalLine(c: Chip, s: State, addr: int, val: bv8, kind: SleepKind)
    requires LineDriven(Intel, s) && (addr == 0x18 || addr == 0x19 || addr == 0x20 || addr == 0x21)
    ensures LineDriven(Intel, WriteIntel(c, s, addr, val, kind))
  {
    hide LineDriven, Update, Changed, And, Or, Hits, Merge, Lane, Cleared, WriteCommon, WriteGlobalIntel, RaiseDirect;
    ApartLine(Intel, s, WriteIntel(c, s, addr, val, kind).r, s.smi);
  }

  lemma IntelLine(c: Chip, s: State, addr: int, val: bv8, kind: SleepKind)
    requires LineDriven(Intel, s)
    ensures LineDriven(Intel, WriteIntel(c, s, addr, val, kind))
  {
    hide LineDriven, Update, Changed, And, Or, Hits, Merge, Lane, Cleared, WriteCommon, WriteGlobalIntel, RaiseDirect;
    if 0x0c <= addr <= 0x0f {
      IntelGpLine(c, s, addr, val, kind);
    } else if addr == 0x18 || addr == 0x19 || addr == 0x20 || addr == 0x21 {
      IntelGlobalLine(c, s, addr, val, kind);
    } else if 0x28 <= addr <= 0x2b {
      GlobalIntelLine(c, s, addr, val);
    } else {
      CommonLine(Intel, s, addr, val, kind);
      ReleaseLine(WriteCommon(Intel, s, addr, val, kind));
    }
  }

  /** BIOS_STS set by a write of GBL_RLS, and SMI# if it is enabled. */
  lemma ReleaseLine(t: State)
    requires LineDriven(Intel, t)
    ensures var u := t.(r := t.r.(glbsts := Or(t.r.glbsts, 1)));
            LineDriven(Intel, u) && LineDriven(Intel, RaiseDirect(Intel, u))
  {
    hide LineDriven, Or, RaiseDirect;
    ApartLine(Intel, t, t.r.(glbsts := Or(t.r.glbsts, 1)), t.smi);
    DirectLine(Intel, t.(r := t.r.(glbsts := Or(t.r.glbsts, 1))));
  }

  lemma GlobalViaLine(v: Vendor, s: State, val: bv8)
    requires LineDriven(v, s)
    ensures LineDriven(v, WriteGlobalVia(v, s, val))
  {
    hide LineDriven, SetGlobal, Merge32, Edge, SmiLevel, Hits8, Hits32;
    var r, smi := s.r.(glbctl := Merge32(s.r.glbctl, 0, val)), s.smi.(lock := Hits8(val, 0x10));
    ApartLine(v, s, r, smi);
    EdgeLine(v, s.(r := r, smi := smi), Level(v, s));
    GlobalLine(v, Edge(v, s.(r := r, smi := smi), Level(v, s)));
  }

  lemma RaiseGlobalLine(v: Vendor, s: State, bit: bv16)
    requires LineDriven(v, s)
    ensures LineDriven(v, RaiseGlobal(v, s, bit))
  {
    hide LineDriven, RaiseDirect, Or, Hits;
    var r := s.r.(glbsts := Or(s.r.glbsts, bit));
    ApartLine(v, s, r, s.smi);
    DirectLine(v, s.(r := r));
  }

  lemma ViaCommonLine(v: Vendor, s: State, addr: int, val: bv8, kind: SleepKind)
    requires LineDriven(v, s)
    ensures LineDriven(v, WriteViaCommon(v, s, addr, val, kind))
  {
    hide LineDriven, WriteCommon, RaiseGlobal, Hits, And32;
    var t := WriteCommon(v, s, addr % 64, val, kind);
    CommonLine(v, s, addr % 64, val, kind);
    ApartLine(v, t, t.r.(glbctl := And32(t.r.glbctl, 0xfffffffd)), t.smi);
    RaiseGlobalLine(v, t, 0x20);
  }

  /** Clearing GBL_RLS leaves SCI_EN. */
  lemma ReleaseCleared(reg: bv16)
    ensures Hits(And(reg, 0xfffb), 1) == Hits(reg, 1)
  {
    assert reg & 0xfffb & 1 == reg & 1;
  }

  lemma GlobalStatusLine(v: Vendor, s: State, g: bv16)
    requires LineDriven(v, s)
    ensures LineDriven(v, s.(r := s.r.(glbsts := g,
                                      pmcntrl := if !Hits(g, 0x20) then And(s.r.pmcntrl, 0xfffb) else s.r.pmcntrl)))
  {
    hide LineDriven, Hits, And, SameSci;
    var p := if !Hits(g, 0x20) then And(s.r.pmcntrl, 0xfffb) else s.r.pmcntrl;
    ReleaseCleared(s.r.pmcntrl);
    ControlApart(s.r, p);
    LineKept(v, s, s.(r := s.r.(pmcntrl := p)));
    ApartLine(v, s.(r := s.r.(pmcntrl := p)), s.r.(pmcntrl := p, glbsts := g), s.smi);
    assert s.(r := s.r.(pmcntrl := p)).(r := s.r.(pmcntrl := p, glbsts := g), smi := s.smi)
        == s.(r := s.r.(glbsts := g, pmcntrl := p));
  }

  lemma ViaLine(v: Vendor, s: State, size: int, addr: int, val: bv8, kind: SleepKind)
    requires LineDriven(v, s)
    ensures LineDriven(v, WriteVia(v, s, size, addr, val, kind))
  {
    hide LineDriven, Update, Edge, SmiLevel, And, Hits, And32, Merge, Lane, Cleared, WriteViaCommon, WriteGlobalVia,
         RaiseGlobal, GpMask, GlobalMask, ViaOther;
    if ViaOther(v, addr) {
    } else if addr == 0x20 || addr == 0x21 {
      UpdateLine(v, s.(r := s.r.(gpsts := Cleared(s.r.gpsts, And(Lane(addr, val), GpMask(v))))));
    } else if addr == 0x22 || addr == 0x23 {
      UpdateLine(v, s.(r := s.r.(gpscien := And(Merge(s.r.gpscien, addr, val), GpMask(v)))));
    } else if addr == 0x24 || addr == 0x25 {
      var r := s.r.(gpsmien := And(Merge(s.r.gpsmien, addr, val), GpMask(v)));
      ApartLine(v, s, r, s.smi);
      EdgeLine(v, s.(r := r), Level(v, s));
    } else if addr == 0x28 || addr == 0x29 {
      GlobalStatusLine(v, s, Cleared(s.r.glbsts, And(Lane(addr, val), GlobalMask(v))));
    } else if addr == 0x2a || addr == 0x2b {
      var r := s.r.(glben := And(Merge(s.r.glben, addr, val), GlobalMask(v)));
      ApartLine(v, s, r, s.smi);
      EdgeLine(v, s.(r := r), Level(v, s));
    } else if addr == 0x2c {
      GlobalViaLine(v, s, val);
    } else if addr == 0x2d {
      var t := WriteVia(v, s, size, addr, val, kind);
      ApartLine(v, s, t.r, t.smi);
    } else if addr == 0x2f {
      RaiseGlobalLine(v, s, 0x40);
    } else {
      ViaCommonLine(v, s, addr, val, kind);
    }
  }

  lemma WriteLine(c: Chip, s: State, w: RegWrite)
    requires LineDriven(c.vendor, s)
    ensures LineDriven(c.vendor, Write(c, s, w))
  {
    hide LineDriven, WriteIntel, WriteAli, WriteVia;
    match c.vendor
    case Intel => IntelLine(c, s, w.addr % 64, w.val, w.kind);
    case Ali => AliLine(s, w.addr % 64, w.val, w.kind, w.biosSmi);
    case Via => ViaLine(Via, s, w.size, w.addr % 256, w.val, w.kind);
    case Via596 => ViaLine(Via596, s, w.size, w.addr % 128, w.val, w.kind);
  }

  lemma PollLine(v: Vendor, s: State)
    requires LineDriven(v, s)
    ensures LineDriven(v, Poll(v, s))
  {
    hide SciLevel, Update, Edge, SmiLevel, WakeSource;
    UpdateLine(v, s.(seen := s.rtc));
    EdgeLine(v, Update(v, s.(seen := s.rtc)), Level(v, s));
  }

  lemma WakeLine(v: Vendor, s: State)
    requires LineDriven(v, s)
    ensures LineDriven(v, Wake(v, s))
  {
    hide LineDriven, Update, Edge, Or;
    var t := s.(sleeping := false, wakePending := false, r := s.r.(pmsts := Or(s.r.pmsts, WAK)));
    UpdateLine(v, t);
    EdgeLine(v, Update(v, t), false);
  }

  /** WAK_STS drives nothing. */
  lemma WakMask(sts: bv16, en: bv16, rtc: bv16)
    ensures Hits(And(Or(Or(sts, WAK), rtc), en), 0x0521) == Hits(And(Or(sts, rtc), en), 0x0521)
  {
    assert (((sts | 0x8000) | rtc) & en) & 0x0521 == ((sts | rtc) & en) & 0x0521;
  }

  lemma ResumeLine(v: Vendor, s: State)
    requires LineDriven(v, s)
    ensures LineDriven(v, s.(r := s.r.(pmsts := Or(s.r.pmsts, WAK))))
  {
    hide LineDriven, Or, And, Hits;
    WakMask(s.r.pmsts, s.r.pmen, RTC);
    WakMask(s.r.pmsts, s.r.pmen, 0);
    LineKept(v, s, s.(r := s.r.(pmsts := Or(s.r.pmsts, WAK))));
  }

  lemma ResetLine(v: Vendor, s: State, powerOn: bool)
    ensures LineDriven(v, Reset(v, s, powerOn))
  {
    hide SciPending;
    assert (0x1000 as bv16) & 1 == 0 && (0 as bv16) & 1 == 0;
  }

  lemma EventLine(v: Vendor, s: State, r: Regs, wake: bool)
    requires s.sleeping
    ensures LineDriven(v, s.(r := r, wakePending := wake))
  {
  }

  lemma NextDriven(c: Chip, s: State, e: Step)
    requires LineDriven(c.vendor, s)
    ensures LineDriven(c.vendor, Next(c, s, e))
  {
    hide LineDriven, Write, Update, Changed, Poll, Wake, Reset, Or, WakeSource, GpeBit, Cleared;
    var v := c.vendor;
    match e {
      case Wrote(w) => WriteLine(c, s, w);
      case TimerToggled => UpdateLine(v, s.(r := s.r.(pmsts := Or(s.r.pmsts, TMROF))));
      case GpeRaised(source) =>
        var r := s.r.(gpsts := Or(s.r.gpsts, GpeBit(v, source)));
        if GpeBit(v, source) == 0 {
        } else if s.sleeping {
          EventLine(v, s, r, s.wakePending || WakeSource(v, r, s.rtc));
        } else {
          ChangedLine(v, s, r);
        }
      case Pressed =>
        var r := s.r.(pmsts := Or(s.r.pmsts, PWRBTN));
        if s.sleeping { EventLine(v, s, r, true); } else { ChangedLine(v, s, r); }
      case HeldDown =>
        UpdateLine(v, s.(r := s.r.(pmsts := Or(Cleared(s.r.pmsts, PWRBTN), if v == Ali then 0 else PWRBTNOR))));
      case Polled => PollLine(v, s);
      case RtcRang => RangLine(v, s);
      case Woke => WakeLine(v, s);
      case Resumed => ResumeLine(v, s);
      case WasReset(powerOn) => ResetLine(v, s, powerOn);
    }
  }

  lemma RangLine(v: Vendor, s: State)
    requires LineDriven(v, s)
    ensures LineDriven(v, s.(rtc := true))
  {
    hide SciLevel;
  }

  /** Whatever happens to the chip keeps the line right. */
  lemma NextLine(c: Chip, s: State, e: Step)
    requires LineRight(c.vendor, s)
    ensures LineRight(c.vendor, Next(c, s, e))
  {
    hide LineRight, LineDriven, Next;
    RightIsDriven(c.vendor, s);
    NextDriven(c, s, e);
    RightIsDriven(c.vendor, Next(c, s, e));
  }

  /** In every state a run from reset reaches the line is right. */
  lemma {:induction false} LineAlwaysRight(c: Chip, s: State, powerOn: bool, steps: seq<Step>)
    ensures LineRight(c.vendor, Run(c, Reset(c.vendor, s, powerOn), steps))
  {
    hide LineRight, LineDriven, Next, Reset;
    if steps == [] {
      ResetLine(c.vendor, s, powerOn);
      RightIsDriven(c.vendor, Reset(c.vendor, s, powerOn));
    } else {
      LineAlwaysRight(c, s, powerOn, steps[..|steps| - 1]);
      NextLine(c, Run(c, Reset(c.vendor, s, powerOn), steps[..|steps| - 1]), steps[|steps| - 1]);
    }
  }

  // ---- RTC_STS reaches the line at a poll ----

  /** RTC_STS alone decides the line. */
  predicate RtcDecides(v: Vendor, r: Regs) {
    SciHigh(v, r, true) && !SciHigh(v, r, false)
  }

  predicate RtcAlone(v: Vendor, r: Regs) {
    SciEnabled(r) && Hits(r.pmen, RTC) && !SciPending(v, r, false)
  }

  lemma RtcMask(sts: bv16, en: bv16)
    ensures Hits(And(Or(sts, RTC), en), 0x0521) == (Hits(And(Or(sts, 0), en), 0x0521) || Hits(en, RTC))
  {
    assert ((sts | 0x0400) & en) & 0x0521 == (((sts | 0) & en) & 0x0521) | (en & 0x0400);
  }

  lemma RtcAloneLevel(v: Vendor, r: Regs)
    ensures SciLevel(v, r, true) == (SciLevel(v, r, false) || RtcAlone(v, r))
    ensures RtcAlone(v, r) ==> !SciLevel(v, r, false)
  {
    hide And, Or, Hits;
    RtcMask(r.pmsts, r.pmen);
    match v case Intel => case Via => case Via596 => case Ali =>
  }

  lemma DecidesAlone(v: Vendor, r: Regs)
    ensures RtcDecides(v, r) == RtcAlone(v, r)
  {
    hide SciLevel, SciHigh, RtcAlone;
    SciByBits(v, r, true);
    SciByBits(v, r, false);
    RtcAloneLevel(v, r);
  }

  /** After a poll the line counts RTC_STS as it is now, except in one case: it
      is as the last poll saw it, was driven meanwhile the other way, and
      decides the line. */
  lemma PollDrives(v: Vendor, s: State)
    requires LineRight(v, s) && !s.sleeping
    ensures var t := Poll(v, s);
            t.driven == SciHigh(v, t.r, t.rtc)
            <==> s.rtc != s.seen || s.sampled == s.rtc || !RtcDecides(v, s.r)
  {
    hide SciLevel, SciHigh, RtcDecides, RtcAlone, SmiLevel, WakeSource, Edge;
    RtcAloneLevel(v, s.r);
    DecidesAlone(v, s.r);
    SciByBits(v, s.r, s.sampled);
    SciByBits(v, Poll(v, s).r, s.rtc);
    if s.rtc == s.seen {
    } else {
      var u := Update(v, s.(seen := s.rtc));
      EdgeOnly(v, u, Level(v, s));
      GlobalApart(u.r, Edge(v, u, Level(v, s)).r);
      SameSciLevel(v, u.r, Edge(v, u, Level(v, s)).r, s.rtc);
    }
  }

  lemma EdgeOnly(v: Vendor, s: State, was: bool)
    ensures OnlySmi(s, Edge(v, s, was))
  {
    hide Raise, SmiLevel;
    RaiseOnly(v, s.(smi := s.smi.(edges := s.smi.edges + 1)));
    if was || !Level(v, s) { } else if v == Ali { } else { }
  }

  /** Software acknowledges RTC_STS. */
  const ACKNOWLEDGE: RegWrite := RegWrite(1, 1, 4, Working, false)

  lemma AcknowledgeBits()
    ensures And(Lane(1, 4), 0x8d31) == 0x0400 && Hits8(4, 4)
  {
  }

  lemma AcknowledgeCommon(v: Vendor, s: State)
    ensures Acknowledged(v, s, WriteCommon(v, s, 1, 4, Working))
  {
    hide SciLevel, SmiLevel, Cleared, Lane, And, Hits8;
    AcknowledgeBits();
  }

  predicate Acknowledged(v: Vendor, s: State, t: State) {
    && t.r == s.r.(pmsts := Cleared(s.r.pmsts, 0x0400)) && !t.rtc && !t.sampled && t.seen == s.seen
    && t.sleeping == s.sleeping && t.driven == SciLevel(v, t.r, false)
  }

  lemma AcknowledgeIs(c: Chip, s: State)
    ensures Acknowledged(c.vendor, s, Write(c, s, ACKNOWLEDGE))
  {
    hide Acknowledged, WriteCommon, SetGlobal, RaiseGlobal, RaiseDirect, Hits, Hits8;
    AcknowledgeCommon(c.vendor, s);
    match c.vendor case Intel => case Via => case Via596 => case Ali =>
  }

  predicate Within(a: bv16, b: bv16) { a & !b == 0 }

  lemma ClearedWithin(a: bv16, bits: bv16)
    ensures Within(Cleared(a, bits), a)
  {
  }

  lemma OrWithin(a: bv16, b: bv16, c: bv16)
    requires Within(a, b)
    ensures Within(Or(a, c), Or(b, c))
  {
  }

  lemma AndWithin(a: bv16, b: bv16, c: bv16)
    requires Within(a, b)
    ensures Within(And(a, c), And(b, c))
  {
  }

  lemma HitsWithin(a: bv16, b: bv16, mask: bv16)
    requires Within(a, b) && Hits(a, mask)
    ensures Hits(b, mask)
  {
    assert a == a & b;
  }

  lemma ClearedMask(sts: bv16, en: bv16, bits: bv16, mask: bv16, rtc: bv16)
    requires Hits(And(Or(Cleared(sts, bits), rtc), en), mask)
    ensures Hits(And(Or(sts, rtc), en), mask)
  {
    hide *;
    ClearedWithin(sts, bits);
    OrWithin(Cleared(sts, bits), sts, rtc);
    AndWithin(Or(Cleared(sts, bits), rtc), Or(sts, rtc), en);
    HitsWithin(And(Or(Cleared(sts, bits), rtc), en), And(Or(sts, rtc), en), mask);
  }

  /** Where RTC_STS decides the line and the last poll saw it set: cleared, and
      set again before the next poll, it is set and enabled, the machine is
      awake and polled, and SCI stays low. */
  lemma RtcMissed(c: Chip, s: State)
    requires !s.sleeping && s.seen && RtcDecides(c.vendor, s.r)
    ensures var t := Next(c, Next(c, Next(c, s, Wrote(ACKNOWLEDGE)), RtcRang), Polled);
            !t.sleeping && SciHigh(c.vendor, t.r, t.rtc) && !t.driven
  {
    hide Write, SciLevel, SciHigh, SmiLevel, Cleared, RtcDecides, RtcAlone, WakeSource;
    var v := c.vendor;
    AcknowledgeIs(c, s);
    DecidesAlone(v, s.r);
    AcknowledgedAlone(v, s, Write(c, s, ACKNOWLEDGE));
    var t := Next(c, Next(c, Next(c, s, Wrote(ACKNOWLEDGE)), RtcRang), Polled);
    RtcAloneLevel(v, Write(c, s, ACKNOWLEDGE).r);
    SciByBits(v, t.r, t.rtc);
  }

  lemma AcknowledgedAlone(v: Vendor, s: State, t: State)
    requires RtcAlone(v, s.r) && Acknowledged(v, s, t)
    ensures RtcAlone(v, t.r)
  {
    hide Cleared, Hits, And, Or, SciLevel;
    if Hits(And(Or(t.r.pmsts, 0), t.r.pmen), 0x0521) { ClearedMask(s.r.pmsts, s.r.pmen, 0x0400, 0x0521, 0); }
    match v case Intel => case Via => case Via596 => case Ali =>
  }

  // ---- A run that loses the alarm ----

  /** Software enables the RTC event and SCI, the alarm rings and is polled. */
  const ENABLE_RTC: RegWrite := RegWrite(1, 3, 4, Working, false)
  const ENABLE_SCI: RegWrite := RegWrite(1, 4, 1, Working, false)

  lemma EnableBits(reg: bv16)
    ensures And(Merge(reg, 3, 4), 0x0521) == Or(And(reg, 0x21), RTC)
    ensures Hits(And(Merge(reg, 4, 1), 0x3f07), 1) && !Hits(And(Merge(reg, 4, 1), 0x3f07), 4)
  {
  }

  /** Registers alike but for two that the writes set and GLBCTL. */
  predicate Kept(s: State, t: State) {
    && t.r == s.r.(pmen := t.r.pmen, pmcntrl := t.r.pmcntrl, glbctl := t.r.glbctl)
    && t.rtc == s.rtc && t.seen == s.seen && t.sleeping == s.sleeping
  }

  lemma EnableCommon(v: Vendor, s: State)
    ensures RtcOn(s, WriteCommon(v, s, 3, 4, Working))
  {
    hide SciLevel, SmiLevel, Edge, And, Or, Hits, Merge;
    EnableBits(s.r.pmen);
    EdgeOnly(v, Update(v, s.(r := s.r.(pmen := And(Merge(s.r.pmen, 3, 4), 0x0521)))), Level(v, s));
  }

  lemma ControlCommon(v: Vendor, s: State)
    ensures Controlled(s, WriteCommon(v, s, 4, 1, Working))
  {
    hide SciLevel, SmiLevel, Edge, And, Or, Hits, Merge;
    EnableBits(s.r.pmcntrl);
    EdgeOnly(v, Update(v, s.(r := s.r.(pmcntrl := And(Merge(s.r.pmcntrl, 4, 1), 0x3f07)))), Level(v, s));
  }

  predicate RtcOn(s: State, t: State) {
    Kept(s, t) && t.r.pmen == Or(And(s.r.pmen, 0x21), RTC)
  }

  lemma ViaEnable(v: Vendor, s: State)
    requires IsVia(v)
    ensures WriteVia(v, s, 1, 3, 4, Working) == WriteCommon(v, s, 3, 4, Working)
  {
    hide WriteCommon, RaiseGlobal, WriteGlobalVia, Hits, Hits8, Hits32, And, And32, Merge, Lane, Cleared, Update, Edge;
  }

  lemma EnableIs(c: Chip, s: State)
    ensures RtcOn(s, Write(c, s, ENABLE_RTC))
  {
    hide RtcOn, WriteCommon, WriteVia, SetGlobal, RaiseDirect, WriteGlobalIntel, And, Or, Hits, Hits8;
    EnableCommon(c.vendor, s);
    match c.vendor {
      case Intel =>
      case Via => ViaEnable(Via, s);
      case Via596 => ViaEnable(Via596, s);
      case Ali =>
    }
  }

  predicate Controlled(s: State, t: State) {
    Kept(s, t) && t.r.pmen == s.r.pmen && SciEnabled(t.r) && !Hits(t.r.pmcntrl, 4)
  }

  lemma IntelControl(c: Chip, s: State)
    requires Controlled(s, WriteCommon(Intel, s, 4, 1, Working))
    ensures Controlled(s, WriteIntel(c, s, 4, 1, Working))
  {
    hide Kept, WriteCommon, RaiseDirect, WriteGlobalIntel, Hits, SciEnabled;
  }

  lemma ViaControl(v: Vendor, s: State)
    requires IsVia(v) && Controlled(s, WriteCommon(v, s, 4, 1, Working))
    ensures Controlled(s, WriteVia(v, s, 1, 4, 1, Working))
  {
    hide Kept, WriteCommon, RaiseGlobal, WriteGlobalVia, Hits, SciEnabled;
    assert WriteVia(v, s, 1, 4, 1, Working) == WriteViaCommon(v, s, 4, 1, Working);
  }

  lemma AliControl(s: State)
    requires Controlled(s, WriteCommon(Ali, s, 4, 1, Working))
    ensures Controlled(s, WriteAli(s, 4, 1, Working, false))
  {
    hide Kept, WriteCommon, RaiseDirect, SetGlobal, Hits, SciEnabled;
  }

  lemma ControlIs(c: Chip, s: State)
    ensures Controlled(s, Write(c, s, ENABLE_SCI))
  {
    hide Controlled, WriteCommon, WriteIntel, WriteVia, WriteAli;
    ControlCommon(c.vendor, s);
    match c.vendor {
      case Intel => IntelControl(c, s);
      case Via => ViaControl(Via, s);
      case Via596 => ViaControl(Via596, s);
      case Ali => AliControl(s);
    }
  }

  lemma PollSees(v: Vendor, s: State)
    ensures var t := Poll(v, s); t.seen == s.rtc && t.sleeping == s.sleeping && t.r == s.r.(glbctl := t.r.glbctl)
  {
    hide SciLevel, SmiLevel, WakeSource, Edge;
    if s.rtc != s.seen { EdgeOnly(v, Update(v, s.(seen := s.rtc)), Level(v, s)); }
  }

  lemma ResetBits(v: Vendor, powerOn: bool)
    ensures var r := ResetRegs(v, powerOn);
            var en := Or(And(r.pmen, 0x21), RTC);
            Hits(en, RTC) && !Hits(And(Or(r.pmsts, 0), en), 0x0521)
            && !Hits(And(r.gpsts, r.gpen), 0x0a01) && !Hits(r.gpsts, r.gpscien) && !Hits(r.gpsts, r.gpen)
  {
  }

  const ARMED: seq<Step> := [Wrote(ENABLE_RTC), Wrote(ENABLE_SCI), RtcRang, Polled]

  /** On every chip the alarm is lost in a run from reset: enabled, seen by a
      poll, acknowledged and rung again. */
  lemma AlarmLost(c: Chip, s: State, powerOn: bool)
    ensures var t := Run(c, Reset(c.vendor, s, powerOn), ARMED + [Wrote(ACKNOWLEDGE), RtcRang, Polled]);
            !t.sleeping && SciHigh(c.vendor, t.r, t.rtc) && !t.driven
  {
    hide Write, SciHigh, Poll, RtcDecides, Run, Reset;
    var s0 := Reset(c.vendor, s, powerOn);
    ArmedSees(c, s, powerOn);
    RtcMissed(c, Run(c, s0, ARMED));
    ThreeSteps(c, s0, ARMED, Wrote(ACKNOWLEDGE), RtcRang, Polled);
  }

  lemma ArmedSees(c: Chip, s: State, powerOn: bool)
    ensures var t := Run(c, Reset(c.vendor, s, powerOn), ARMED); !t.sleeping && t.seen && RtcDecides(c.vendor, t.r)
  {
    hide Write, SciLevel, SciHigh, Poll, RtcDecides, RtcAlone, Hits, ResetRegs, Run;
    var s0 := Reset(c.vendor, s, powerOn);
    var s1 := Next(c, s0, Wrote(ENABLE_RTC));
    var s2 := Next(c, s1, Wrote(ENABLE_SCI));
    var s4 := Next(c, Next(c, s2, RtcRang), Polled);
    EnableIs(c, s0);
    ControlIs(c, s1);
    PollSees(c.vendor, s2.(rtc := true));
    RtcEnabled(c.vendor, s, powerOn, s4);
    DecidesAlone(c.vendor, s4.r);
    RunOne(c, s0, Wrote(ENABLE_RTC));
    ThreeSteps(c, s0, [Wrote(ENABLE_RTC)], Wrote(ENABLE_SCI), RtcRang, Polled);
    assert ARMED == [Wrote(ENABLE_RTC)] + [Wrote(ENABLE_SCI), RtcRang, Polled];
  }

  lemma RtcEnabled(v: Vendor, s: State, powerOn: bool, t: State)
    requires Kept(Reset(v, s, powerOn), t.(rtc := false, seen := s.seen)) && SciEnabled(t.r)
    requires t.r.pmen == Or(And(Reset(v, s, powerOn).r.pmen, 0x21), RTC)
    ensures !t.sleeping && RtcAlone(v, t.r)
  {
    hide And, Or, Hits;
    ResetBits(v, powerOn);
    match v case Intel => case Via => case Via596 => case Ali =>
  }

  lemma RunMore(c: Chip, s: State, steps: seq<Step>, e: Step)
    ensures Run(c, s, steps + [e]) == Next(c, Run(c, s, steps), e)
  {
    hide Next;
    assert (steps + [e])[..|steps|] == steps;
  }

  lemma RunOne(c: Chip, s: State, e: Step)
    ensures Run(c, s, [e]) == Next(c, s, e)
  {
    hide Next;
    assert [e][..0] == [];
  }

  lemma ThreeSteps(c: Chip, s: State, steps: seq<Step>, a: Step, b: Step, d: Step)
    ensures Run(c, s, steps + [a, b, d]) == Next(c, Next(c, Next(c, Run(c, s, steps), a), b), d)
  {
    hide Next, Run;
    RunMore(c, s, steps, a);
    RunMore(c, s, steps + [a], b);
    RunMore(c, s, steps + [a] + [b], d);
    assert steps + [a, b, d] == steps + [a] + [b] + [d];
  }
}
