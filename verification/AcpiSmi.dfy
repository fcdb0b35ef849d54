/**
 SMI# in every run of the chip: an edge exactly where the level of the events
 routed to it rises.
 */
module AcpiSmi {
  import opened AcpiBits
  import opened AcpiChip
  import opened AcpiSci

  // ---- SMI# rises exactly with its level ----

  lemma EdgeCounts(v: Vendor, s: State, was: bool)
    ensures Edge(v, s, was).smi.edges == s.smi.edges + (if !was && Level(v, s) then 1 else 0)
    ensures Edge(v, s, was).smi.direct == s.smi.direct
  {
    hide SmiLevel, Raise;
    if was || !Level(v, s) {
    } else if v == Ali {
    } else {
      RaiseCounts(v, s.(smi := s.smi.(edges := s.smi.edges + 1)));
    }
  }

  lemma RaiseCounts(v: Vendor, s: State)
    ensures Raise(v, s).smi.edges == s.smi.edges && Raise(v, s).smi.direct == s.smi.direct
  {
    hide And32, Hits32;
    if !SmiEnabled(s.r) {
    } else if IsVia(v) {
      if s.smi.lock && s.smi.active { } else { }
    } else if v == Intel {
    } else {
    }
  }

  /** Registers SMI# sees alike. */
  predicate SameSmi(v: Vendor, r: Regs, q: Regs, rtc: bool) {
    SmiLevel(v, r, rtc) == SmiLevel(v, q, rtc)
  }

  /** GLBCTL bears on the level only through SMI_EN, and that only on VIA. */
  lemma ControlSmi(v: Vendor, r: Regs, glbctl: bv32, rtc: bool)
    requires !IsVia(v) || Hits32(glbctl, 1) == SmiEnabled(r)
    ensures SameSmi(v, r, r.(glbctl := glbctl), rtc)
  {
    hide And, Or, Hits, Hits32;
    match v case Intel => case Via => case Via596 => case Ali =>
  }

  lemma RaiseLevel(v: Vendor, s: State)
    ensures Level(v, Raise(v, s)) == Level(v, s)
  {
    hide SmiLevel, And32, Hits32;
    if !SmiEnabled(s.r) {
    } else if IsVia(v) {
      if s.smi.lock && s.smi.active { } else { }
    } else if v == Intel {
      ControlSmi(v, s.r, And32(s.r.glbctl, 0xfffeffff), s.rtc);
    } else {
    }
  }

  lemma EdgeLevel(v: Vendor, s: State, was: bool)
    ensures Level(v, Edge(v, s, was)) == Level(v, s)
  {
    hide SmiLevel, Raise;
    if was || !Level(v, s) { } else if v == Ali { } else { RaiseLevel(v, s.(smi := s.smi.(edges := s.smi.edges + 1))); }
  }

  lemma DirectCounts(v: Vendor, s: State)
    ensures RaiseDirect(v, s).smi.edges == s.smi.edges && RaiseDirect(v, s).smi.direct == s.smi.direct + 1
    ensures Level(v, RaiseDirect(v, s)) == Level(v, s)
  {
    hide SmiLevel, Raise;
    RaiseCounts(v, s.(smi := s.smi.(direct := s.smi.direct + 1)));
    RaiseLevel(v, s.(smi := s.smi.(direct := s.smi.direct + 1)));
  }

  /** t follows s with an edge exactly if the level rose. */
  predicate EdgeWithRise(v: Vendor, s: State, t: State) {
    t.smi.edges == s.smi.edges + (if !Level(v, s) && Level(v, t) then 1 else 0)
  }

  lemma EdgeRise(v: Vendor, s: State, mid: State)
    requires mid.smi.edges == s.smi.edges
    ensures EdgeWithRise(v, s, Edge(v, mid, Level(v, s)))
    ensures Level(v, Edge(v, mid, Level(v, s))) == Level(v, mid)
  {
    hide SmiLevel, Edge;
    EdgeCounts(v, mid, Level(v, s));
    EdgeLevel(v, mid, Level(v, s));
  }

  lemma ChangedRise(v: Vendor, s: State, r: Regs)
    ensures EdgeWithRise(v, s, Changed(v, s, r))
  {
    hide SmiLevel, Edge, SciLevel, EdgeWithRise;
    EdgeRise(v, s, Update(v, s.(r := r)));
  }

  /** Fewer status bits. */
  predicate Fewer(r: Regs, q: Regs) {
    && q == r.(pmsts := q.pmsts, gpsts := q.gpsts, glbsts := q.glbsts)
    && Within(q.pmsts, r.pmsts) && Within(q.gpsts, r.gpsts) && Within(q.glbsts, r.glbsts)
  }

  lemma FewerPm(r: Regs, q: Regs, rtc: bool, left: bool, mask: bv16)
    requires Fewer(r, q) && (left ==> rtc) && Hits(Pm(q, left), mask)
    ensures Hits(Pm(r, rtc), mask)
  {
    hide Pm, Hits, Within;
    PmWithin(r, q, rtc, left);
    HitsWithin(Pm(q, left), Pm(r, rtc), mask);
  }

  lemma FallsIntel(r: Regs, q: Regs, rtc: bool, left: bool)
    requires Fewer(r, q) && (left ==> rtc) && LegacyPending(Intel, q, left)
    ensures LegacyPending(Intel, r, rtc)
  {
    hide And, Hits, Pm, Within;
    if Hits(Pm(q, left), PWRBTN) {
      FewerPm(r, q, rtc, left, PWRBTN);
    } else {
      AndWithin(q.gpsts, r.gpsts, r.gpen);
      HitsWithin(And(q.gpsts, r.gpen), And(r.gpsts, r.gpen), 0x0a01);
    }
  }

  lemma FallsAli(r: Regs, q: Regs, rtc: bool, left: bool)
    requires Fewer(r, q) && (left ==> rtc) && LegacyPending(Ali, q, left)
    ensures LegacyPending(Ali, r, rtc)
  {
    hide Hits, Pm, Within;
    if Hits(Pm(q, left), 0x0500) { FewerPm(r, q, rtc, left, 0x0500); } else { HitsWithin(q.gpsts, r.gpsts, r.gpen); }
  }

  lemma FallsVia(v: Vendor, r: Regs, q: Regs, rtc: bool, left: bool)
    requires IsVia(v) && Fewer(r, q) && (left ==> rtc) && LegacyPending(v, q, left)
    ensures LegacyPending(v, r, rtc)
  {
    hide Hits, Pm, Within;
    if Hits(q.gpsts, r.gpsmien) { HitsWithin(q.gpsts, r.gpsts, r.gpsmien); } else { FewerPm(r, q, rtc, left, 0x0700); }
    if v == Via { } else { }
  }

  lemma FallsSmi(v: Vendor, r: Regs, q: Regs, rtc: bool, left: bool)
    requires Fewer(r, q) && (left ==> rtc)
    ensures SmiLevel(v, q, left) ==> SmiLevel(v, r, rtc)
  {
    hide LegacyPending, Hits, Hits32, Within;
    if SmiLevel(v, q, left) {
      if IsVia(v) {
        if Hits(q.glbsts, r.glben) { HitsWithin(q.glbsts, r.glbsts, r.glben); } else { FallsVia(v, r, q, rtc, left); }
      } else if v == Intel {
        FallsIntel(r, q, rtc, left);
      } else {
        FallsAli(r, q, rtc, left);
      }
    }
  }

  lemma PmWithin(r: Regs, q: Regs, rtc: bool, left: bool)
    requires q.pmen == r.pmen && Within(q.pmsts, r.pmsts) && (left ==> rtc)
    ensures Within(Pm(q, left), Pm(r, rtc))
  {
    hide And, Or, Within;
    var a, b := if left then RTC else 0, if rtc then RTC else 0;
    BothWithin(q.pmsts, r.pmsts, a, b);
    AndWithin(Or(q.pmsts, a), Or(r.pmsts, b), r.pmen);
  }

  lemma BothWithin(a: bv16, b: bv16, c: bv16, d: bv16)
    requires Within(a, b) && (c == d || c == 0)
    ensures Within(Or(a, c), Or(b, d))
  {
    if c == d {
      OrWithin(a, b, c);
    } else {
      assert Or(a, 0) == a;
      MoreWithin(a, b, d);
    }
  }

  lemma MoreWithin(a: bv16, b: bv16, d: bv16)
    requires Within(a, b)
    ensures Within(a, Or(b, d))
  {
  }

  /** The status bits that SMI# never sees: TMROF, GBL, PWRBTNOR and WAK. */
  lemma UnseenSmi(v: Vendor, r: Regs, bit: bv16, rtc: bool)
    requires bit == TMROF || bit == GBL || bit == PWRBTNOR || bit == WAK || bit == 0
    ensures SameSmi(v, r, r.(pmsts := Or(r.pmsts, bit)), rtc)
  {
    hide And, Or, Hits, Hits32;
    var x := if rtc then RTC else 0;
    UnseenBits(r.pmsts, bit, x, r.pmen, PWRBTN);
    UnseenBits(r.pmsts, bit, x, r.pmen, 0x0700);
    UnseenBits(r.pmsts, bit, x, r.pmen, 0x0500);
    match v case Intel => case Via => case Via596 => case Ali =>
  }

  lemma UnseenBits(sts: bv16, bit: bv16, rtc: bv16, en: bv16, mask: bv16)
    requires bit == TMROF || bit == GBL || bit == PWRBTNOR || bit == WAK || bit == 0
    requires mask == PWRBTN || mask == 0x0700 || mask == 0x0500
    ensures Hits(And(Or(Or(sts, bit), rtc), en), mask) == Hits(And(Or(sts, rtc), en), mask)
  {
    if bit == TMROF { } else if bit == GBL { } else if bit == PWRBTNOR { } else if bit == WAK { } else { }
  }

  lemma ControlRegSmi(v: Vendor, r: Regs, pmcntrl: bv16, rtc: bool)
    requires Hits(pmcntrl, 1) == SciEnabled(r)
    ensures SameSmi(v, r, r.(pmcntrl := pmcntrl), rtc)
  {
    hide And, Or, Hits, Hits32;
    match v case Intel => case Via => case Via596 => case Ali =>
  }

  /** PMCNTRL written with SCI_EN as it was. */
  lemma ControlQuiet(v: Vendor, s: State, addr: int, val: bv8)
    requires addr == 5 || (addr == 4 && SciEnabled(s.r) == Hits8(val, 1))
    ensures SameSmi(v, s.r, s.r.(pmcntrl := And(Merge(s.r.pmcntrl, addr, val), 0x3f07)), s.rtc)
  {
    hide SameSmi, And, Hits, Hits8, Merge;
    if addr == 4 { EnableAfterLow(s.r.pmcntrl, addr, val); } else { EnableAfterHigh(s.r.pmcntrl, addr, val); }
    ControlRegSmi(v, s.r, And(Merge(s.r.pmcntrl, addr, val), 0x3f07), s.rtc);
  }

  lemma LowControlRise(v: Vendor, s: State, val: bv8, kind: SleepKind)
    ensures EdgeWithRise(v, s, WriteControl(v, s, 4, val, kind))
  {
    hide Edge, SmiLevel, Update, SciEnabled, And, Hits8, Merge, EdgeWithRise;
    var r := s.r.(pmcntrl := And(Merge(s.r.pmcntrl, 4, val), 0x3f07));
    if SciEnabled(s.r) != Hits8(val, 1) {
      UpdateQuiet(v, s.(r := r));
      EdgeRise(v, s, Update(v, s.(r := r)));
    } else {
      ControlQuiet(v, s, 4, val);
      EvenRise(v, s, s.(r := r));
    }
  }

  lemma HighControlRise(v: Vendor, s: State, val: bv8, kind: SleepKind)
    ensures EdgeWithRise(v, s, WriteControl(v, s, 5, val, kind))
  {
    hide SmiLevel, And, Hits8, Merge, EdgeWithRise;
    var t := WriteControl(v, s, 5, val, kind);
    ControlQuiet(v, s, 5, val);
    if Hits8(val, 0x20) {
      match kind {
        case Working => EvenRise(v, s, t);
        case Suspend => EvenRise(v, s, t);
        case PowerOff => EvenRise(v, s, s);
      }
    } else {
      EvenRise(v, s, t);
    }
  }

  lemma EvenRise(v: Vendor, s: State, t: State)
    requires t.smi == s.smi && Level(v, t) == Level(v, s)
    ensures EdgeWithRise(v, s, t)
  {
    hide Level;
  }

  lemma UpdateQuiet(v: Vendor, s: State)
    ensures Update(v, s).smi == s.smi && Level(v, Update(v, s)) == Level(v, s)
  {
    hide SmiLevel, SciLevel;
  }

  /** Status bits cleared, and the line driven. */
  lemma FallsRise(v: Vendor, s: State, r: Regs, rtc: bool)
    requires r == s.r.(pmsts := r.pmsts, gpsts := r.gpsts)
    requires Within(r.pmsts, s.r.pmsts) && Within(r.gpsts, s.r.gpsts) && (rtc ==> s.rtc)
    ensures EdgeWithRise(v, s, Update(v, s.(r := r, rtc := rtc)))
  {
    hide SmiLevel, SciLevel, Within;
    assert Within(r.glbsts, s.r.glbsts) by { SelfWithin(r.glbsts); }
    FallsSmi(v, s.r, r, s.rtc, rtc);
  }

  lemma SelfWithin(a: bv16)
    ensures Within(a, a)
  {
  }

  lemma CommonRise(v: Vendor, s: State, addr: int, val: bv8, kind: SleepKind)
    ensures EdgeWithRise(v, s, WriteCommon(v, s, addr, val, kind))
  {
    hide Level, EdgeWithRise, Update, Changed, And, Hits, Hits8, Merge, Lane, Cleared, WriteControl, Within;
    if addr == 0 || addr == 1 {
      var bits := And(Lane(addr, val), 0x8d31);
      ClearedWithin(s.r.pmsts, bits);
      SelfWithin(s.r.gpsts);
      FallsRise(v, s, s.r.(pmsts := Cleared(s.r.pmsts, bits)), s.rtc && !(addr == 1 && Hits8(val, 4)));
    } else if addr == 2 || addr == 3 {
      ChangedRise(v, s, s.r.(pmen := And(Merge(s.r.pmen, addr, val), 0x0521)));
    } else if addr == 4 || addr == 5 {
      if addr == 4 { LowControlRise(v, s, val, kind); } else { HighControlRise(v, s, val, kind); }
    } else {
      SameRise(v, s);
    }
  }

  lemma SameRise(v: Vendor, s: State)
    ensures EdgeWithRise(v, s, s)
  {
    hide Level;
  }

  /** A status bit SMI# never sees, and the line driven. */
  lemma UnseenRise(v: Vendor, s: State, bit: bv16)
    requires bit == TMROF || bit == GBL || bit == PWRBTNOR || bit == WAK
    ensures var t := Update(v, s.(r := s.r.(pmsts := Or(s.r.pmsts, bit))));
            Level(v, t) == Level(v, s) && t.smi.edges == s.smi.edges && t.smi.direct == s.smi.direct
  {
    hide SmiLevel, SciLevel, Or;
    UnseenSmi(v, s.r, bit, s.rtc);
  }

  lemma GpClearRise(v: Vendor, s: State, bits: bv16)
    ensures EdgeWithRise(v, s, Update(v, s.(r := s.r.(gpsts := Cleared(s.r.gpsts, bits)))))
  {
    hide Level, EdgeWithRise, Update, Cleared, Within;
    ClearedWithin(s.r.gpsts, bits);
    SelfWithin(s.r.pmsts);
    FallsRise(v, s, s.r.(gpsts := Cleared(s.r.gpsts, bits)), s.rtc);
    assert s.(r := s.r.(gpsts := Cleared(s.r.gpsts, bits)), rtc := s.rtc) ==
        s.(r := s.r.(gpsts := Cleared(s.r.gpsts, bits)));
  }

  lemma AliRise(s: State, addr: int, val: bv8, kind: SleepKind, biosSmi: bool)
    ensures EdgeWithRise(Ali, s, WriteAli(s, addr, val, kind, biosSmi))
  {
    hide Level, Update, Changed, And, Hits, Hits8, Merge, Lane, Cleared, WriteCommon, RaiseDirect;
    if addr == 0x18 || addr == 0x19 {
      GpClearRise(Ali, s, And(Lane(addr, val), 0x0d07));
    } else if addr == 0x1a || addr == 0x1b {
      ChangedRise(Ali, s, s.r.(gpen := And(Merge(s.r.gpen, addr, val), 0x0d07)));
    } else if 0x10 <= addr <= 0x27 || addr == 0x30 {
      if addr == 0x20 && Hits8(val, 2) { UnseenRise(Ali, s, GBL); } else { }
    } else {
      CommonRise(Ali, s, addr, val, kind);
      var t := WriteCommon(Ali, s, addr, val, kind);
      if addr == 4 && Hits(t.r.pmcntrl, 4) && biosSmi { DirectCounts(Ali, t); } else { }
    }
  }

  /** The global registers bear on VIA's level only. */
  lemma GlobalSmi(v: Vendor, r: Regs, q: Regs, rtc: bool)
    requires !IsVia(v) && q == r.(glbsts := q.glbsts, glben := q.glben, glbctl := q.glbctl)
    ensures SameSmi(v, r, q, rtc)
  {
    hide And, Or, Hits, Hits32;
    match v case Intel => case Ali =>
  }

  lemma GlobalIntelRise(c: Chip, s: State, addr: int, val: bv8)
    ensures EdgeWithRise(Intel, s, WriteGlobalIntel(c, s, addr, val))
  {
    hide Level, And32, Merge32, StillPending, RaiseDirect, Hits8, Or, Update;
    var r := s.r.(glbctl := And32(Merge32(s.r.glbctl, addr, val), 0x0701ff05));
    ApartIntelRise(s, r);
    var t := s.(r := r);
    DirectCounts(Intel, t);
    var u := if StillPending(c, t.r, t.rtc) then RaiseDirect(Intel, t) else t;
    if addr == 0x28 && Hits8(val, 2) { UnseenRise(Intel, u, GBL); } else { }
  }

  lemma ApartIntelRise(s: State, r: Regs)
    requires r == s.r.(glbsts := r.glbsts, glben := r.glben, glbctl := r.glbctl)
    ensures Level(Intel, s.(r := r)) == Level(Intel, s)
    ensures EdgeWithRise(Intel, s, s.(r := r))
  {
    hide SmiLevel;
    GlobalSmi(Intel, s.r, r, s.rtc);
  }

  lemma IntelRise(c: Chip, s: State, addr: int, val: bv8, kind: SleepKind)
    ensures EdgeWithRise(Intel, s, WriteIntel(c, s, addr, val, kind))
  {
    hide Level, Update, Changed, And, Or, Hits, Merge, Lane, Cleared, WriteCommon, WriteGlobalIntel, RaiseDirect;
    if addr == 0x0c || addr == 0x0d {
      GpClearRise(Intel, s, And(Lane(addr, val), 0x0f81));
    } else if addr == 0x0e || addr == 0x0f {
      ChangedRise(Intel, s, s.r.(gpen := And(Merge(s.r.gpen, addr, val), 0x0f01)));
    } else if addr == 0x18 || addr == 0x19 {
      ApartIntelRise(s, WriteIntel(c, s, addr, val, kind).r);
    } else if addr == 0x20 || addr == 0x21 {
      ApartIntelRise(s, WriteIntel(c, s, addr, val, kind).r);
    } else if 0x28 <= addr <= 0x2b {
      GlobalIntelRise(c, s, addr, val);
    } else {
      CommonRise(Intel, s, addr, val, kind);
      var t := WriteCommon(Intel, s, addr, val, kind);
      if addr == 4 && Hits(t.r.pmcntrl, 4) {
        ApartIntelRise(t, t.r.(glbsts := Or(t.r.glbsts, 1)));
        DirectCounts(Intel, t.(r := t.r.(glbsts := Or(t.r.glbsts, 1))));
      } else { }
    }
  }

  /** Bits of GLBCTL beside SMI_EN. */
  lemma SmiEnableKept(glbctl: bv32)
    ensures Hits32(And32(glbctl, 0xfffffffd), 1) == Hits32(glbctl, 1)
    ensures Hits32(And32(glbctl, 0xfffffeff), 1) == Hits32(glbctl, 1)
  {
    assert glbctl & 0xfffffffd & 1 == glbctl & 1;
    assert glbctl & 0xfffffeff & 1 == glbctl & 1;
  }

  lemma GlobalViaRise(v: Vendor, s: State, val: bv8)
    ensures EdgeWithRise(v, s, WriteGlobalVia(v, s, val))
  {
    hide SmiLevel, SciLevel, Merge32, Edge, Hits8, Hits32, Or;
    var mid := s.(r := s.r.(glbctl := Merge32(s.r.glbctl, 0, val)), smi := s.smi.(lock := Hits8(val, 0x10)));
    EdgeRise(v, s, mid);
    UnseenRise(v, Edge(v, mid, Level(v, s)), GBL);
  }

  lemma GlobalStatusRise(v: Vendor, s: State, bits: bv16)
    ensures var g := Cleared(s.r.glbsts, bits);
            EdgeWithRise(v, s, s.(r := s.r.(glbsts := g,
                                            pmcntrl := if !Hits(g, 0x20) then And(s.r.pmcntrl, 0xfffb)
                                                else s.r.pmcntrl)))
  {
    hide SmiLevel, Hits, And, Cleared, Within;
    var g := Cleared(s.r.glbsts, bits);
    var q := s.r.(glbsts := g);
    var p := if !Hits(g, 0x20) then And(s.r.pmcntrl, 0xfffb) else s.r.pmcntrl;
    ClearedWithin(s.r.glbsts, bits);
    SelfWithin(s.r.pmsts);
    SelfWithin(s.r.gpsts);
    FallsSmi(v, s.r, q, s.rtc, s.rtc);
    ReleaseCleared(s.r.pmcntrl);
    ControlRegSmi(v, q, p, s.rtc);
    assert q.(pmcntrl := p) == s.r.(glbsts := g, pmcntrl := p);
  }

  lemma ViaCommonRise(v: Vendor, s: State, addr: int, val: bv8, kind: SleepKind)
    requires addr != 4
    ensures EdgeWithRise(v, s, WriteViaCommon(v, s, addr, val, kind))
  {
    hide SmiLevel, WriteCommon, Hits, Hits32, And32;
    var t := WriteCommon(v, s, addr % 64, val, kind);
    CommonRise(v, s, addr % 64, val, kind);
    SmiEnableKept(t.r.glbctl);
    ControlSmi(v, t.r, And32(t.r.glbctl, 0xfffffffd), t.rtc);
  }

  /** The SCI enables bear on no SMI#. */
  lemma SciEnableRise(v: Vendor, s: State, gpscien: bv16)
    requires IsVia(v)
    ensures EdgeWithRise(v, s, Update(v, s.(r := s.r.(gpscien := gpscien))))
  {
    hide And, Or, Hits, Hits32, SciLevel;
    if v == Via { } else { }
  }

  lemma ViaGpRise(v: Vendor, s: State, size: int, addr: int, val: bv8, kind: SleepKind)
    requires IsVia(v) && 0x20 <= addr <= 0x25
    ensures EdgeWithRise(v, s, WriteVia(v, s, size, addr, val, kind))
  {
    hide Level, EdgeWithRise, Update, Edge, And, Merge, Lane, Cleared, GpMask;
    if addr == 0x20 || addr == 0x21 {
      GpClearRise(v, s, And(Lane(addr, val), GpMask(v)));
    } else if addr == 0x22 || addr == 0x23 {
      SciEnableRise(v, s, And(Merge(s.r.gpscien, addr, val), GpMask(v)));
    } else {
      var mid := s.(r := s.r.(gpsmien := And(Merge(s.r.gpsmien, addr, val), GpMask(v))));
      EdgeRise(v, s, mid);
    }
  }

  lemma ViaGlobalRise(v: Vendor, s: State, size: int, addr: int, val: bv8, kind: SleepKind)
    requires IsVia(v) && 0x28 <= addr <= 0x2b
    ensures EdgeWithRise(v, s, WriteVia(v, s, size, addr, val, kind))
  {
    hide Level, EdgeWithRise, Edge, And, Hits, Merge, Lane, Cleared, GlobalMask;
    if addr == 0x28 || addr == 0x29 {
      GlobalStatusRise(v, s, And(Lane(addr, val), GlobalMask(v)));
    } else {
      var mid := s.(r := s.r.(glben := And(Merge(s.r.glben, addr, val), GlobalMask(v))));
      EdgeRise(v, s, mid);
    }
  }

  lemma ViaControlRise(v: Vendor, s: State, size: int, addr: int, val: bv8, kind: SleepKind)
    requires IsVia(v) && 0x2c <= addr <= 0x2d
    ensures EdgeWithRise(v, s, WriteVia(v, s, size, addr, val, kind))
  {
    hide Level, EdgeWithRise, Update, Edge, And, And32, Hits, Hits8, Merge, Lane, Cleared, GpMask, GlobalMask,
         WriteGlobalVia, WriteViaCommon, RaiseGlobal;
    if addr == 0x2c { GlobalViaRise(v, s, val); } else { ActiveRise(v, s, val); }
  }

  lemma ViaRise(v: Vendor, s: State, size: int, addr: int, val: bv8, kind: SleepKind)
    requires IsVia(v) && addr != 4 && addr != 0x2f
    ensures EdgeWithRise(v, s, WriteVia(v, s, size, addr, val, kind))
  {
    hide Level, EdgeWithRise, WriteViaCommon, ViaOther;
    if 0x20 <= addr <= 0x25 {
      ViaGpRise(v, s, size, addr, val, kind);
    } else if 0x28 <= addr <= 0x2b {
      ViaGlobalRise(v, s, size, addr, val, kind);
    } else if 0x2c <= addr <= 0x2d {
      ViaControlRise(v, s, size, addr, val, kind);
    } else if ViaOther(v, addr) {
      SameRise(v, s);
    } else {
      ViaCommonRise(v, s, addr, val, kind);
    }
  }

  lemma ActiveRise(v: Vendor, s: State, val: bv8)
    ensures EdgeWithRise(v, s, s.(r := s.r.(glbctl := if Hits8(val, 1) then And32(s.r.glbctl, 0xfffffeff)
        else s.r.glbctl),
                                  smi := s.smi.(active := s.smi.active && !Hits8(val, 1))))
  {
    hide SmiLevel, Hits8, Hits32, And32;
    SmiEnableKept(s.r.glbctl);
    ControlSmi(v, s.r, And32(s.r.glbctl, 0xfffffeff), s.rtc);
  }

  lemma OrHits(a: bv16, bit: bv16, en: bv16)
    requires Hits(Or(a, bit), en) && !Hits(a, en)
    ensures Hits(en, bit)
  {
    assert (a | bit) & en == (a & en) | (bit & en);
  }

  lemma WithinOr(a: bv16, bit: bv16)
    ensures Within(a, Or(a, bit))
  {
  }

  /** A global status bit set: the level stays, or rises with a direct SMI#. */
  lemma RaiseGlobalRise(v: Vendor, s: State, bit: bv16)
    requires IsVia(v)
    ensures var t := RaiseGlobal(v, s, bit);
            && t.smi.edges == s.smi.edges
            && (Level(v, s) ==> Level(v, t))
            && t.smi.direct == s.smi.direct + (if Hits(s.r.glben, bit) then 1 else 0)
            && (!Level(v, s) && Level(v, t) ==> Hits(s.r.glben, bit))
  {
    hide SmiLevel, RaiseDirect, Or, Hits, Within;
    var t := s.(r := s.r.(glbsts := Or(s.r.glbsts, bit)));
    WithinOr(s.r.glbsts, bit);
    SelfWithin(s.r.pmsts);
    SelfWithin(s.r.gpsts);
    FallsSmi(v, t.r, s.r, s.rtc, s.rtc);
    DirectCounts(v, t);
    if !Level(v, s) && Level(v, t) { GlobalRises(v, s, bit); }
  }

  lemma GlobalRises(v: Vendor, s: State, bit: bv16)
    requires IsVia(v) && !Level(v, s) && Level(v, s.(r := s.r.(glbsts := Or(s.r.glbsts, bit))))
    ensures Hits(s.r.glben, bit)
  {
    hide And, Or, Hits, Hits32;
    if Hits(Or(s.r.glbsts, bit), s.r.glben) && !Hits(s.r.glbsts, s.r.glben) { OrHits(s.r.glbsts, bit, s.r.glben); }
    if v == Via { } else { }
  }

  /** A rise of VIA's level comes with SMI#, by the edge or by the write itself;
      an edge only with a rise. */
  predicate Covered(v: Vendor, s: State, t: State) {
    && (!Level(v, s) && Level(v, t) ==> t.smi.edges + t.smi.direct > s.smi.edges + s.smi.direct)
    && (t.smi.edges > s.smi.edges ==> !Level(v, s) && Level(v, t))
  }

  /** The registers all chips share raise nothing directly. */
  lemma CommonDirect(v: Vendor, s: State, addr: int, val: bv8, kind: SleepKind)
    ensures WriteCommon(v, s, addr, val, kind).smi.direct == s.smi.direct
  {
    hide SmiLevel, SciLevel, Edge, And, Merge, Hits8, SciEnabled, Cleared, Lane, WriteControl;
    if addr == 2 || addr == 3 {
      EdgeCounts(v, Update(v, s.(r := s.r.(pmen := And(Merge(s.r.pmen, addr, val), 0x0521)))), Level(v, s));
    } else if addr == 4 || addr == 5 {
      ControlDirect(v, s, addr, val, kind);
    }
  }

  lemma ControlDirect(v: Vendor, s: State, addr: int, val: bv8, kind: SleepKind)
    ensures WriteControl(v, s, addr, val, kind).smi.direct == s.smi.direct
  {
    hide SmiLevel, SciLevel, Edge, And, Merge, Hits8, SciEnabled;
    var r := s.r.(pmcntrl := And(Merge(s.r.pmcntrl, addr, val), 0x3f07));
    EdgeCounts(v, Update(v, s.(r := r)), Level(v, s));
    if addr == 5 && Hits8(val, 0x20) {
      match kind case Working => case Suspend => case PowerOff =>
    } else if addr == 4 && SciEnabled(s.r) != Hits8(val, 1) {
    } else {
    }
  }

  lemma ChangedDirect(v: Vendor, s: State, r: Regs)
    ensures Changed(v, s, r).smi.direct == s.smi.direct
  {
    hide SmiLevel, SciLevel, Edge;
    EdgeCounts(v, Update(v, s.(r := r)), Level(v, s));
  }

  lemma GlobalDirect(v: Vendor, s: State)
    ensures SetGlobal(v, s).smi.direct == s.smi.direct
  {
    hide SciLevel, Or;
  }

  lemma AliDirect(s: State, addr: int, val: bv8, kind: SleepKind, biosSmi: bool)
    ensures s.smi.direct <= WriteAli(s, addr, val, kind, biosSmi).smi.direct
  {
    hide SciLevel, Changed, And, Hits, Hits8, Merge, Lane, Cleared, WriteCommon, SetGlobal, RaiseDirect;
    if addr == 0x1a || addr == 0x1b {
      ChangedDirect(Ali, s, s.r.(gpen := And(Merge(s.r.gpen, addr, val), 0x0d07)));
    } else {
      GlobalDirect(Ali, s);
      CommonDirect(Ali, s, addr, val, kind);
      DirectCounts(Ali, WriteCommon(Ali, s, addr, val, kind));
    }
  }

  lemma GlobalIntelDirect(c: Chip, s: State, addr: int, val: bv8)
    ensures s.smi.direct <= WriteGlobalIntel(c, s, addr, val).smi.direct
  {
    hide Level, And32, Merge32, StillPending, RaiseDirect, Hits8, SetGlobal;
    var t := s.(r := s.r.(glbctl := And32(Merge32(s.r.glbctl, addr, val), 0x0701ff05)));
    DirectCounts(Intel, t);
    GlobalDirect(Intel, t);
    GlobalDirect(Intel, RaiseDirect(Intel, t));
  }

  lemma IntelDirect(c: Chip, s: State, addr: int, val: bv8, kind: SleepKind)
    ensures s.smi.direct <= WriteIntel(c, s, addr, val, kind).smi.direct
  {
    hide Level, Update, Changed, And, Or, Hits, Merge, Lane, Cleared, WriteCommon, WriteGlobalIntel, RaiseDirect;
    if addr == 0x0c || addr == 0x0d {
      UpdateQuiet(Intel, s.(r := s.r.(gpsts := Cleared(s.r.gpsts, And(Lane(addr, val), 0x0f81)))));
    } else if addr == 0x0e || addr == 0x0f {
      ChangedDirect(Intel, s, s.r.(gpen := And(Merge(s.r.gpen, addr, val), 0x0f01)));
    } else if addr == 0x18 || addr == 0x19 {
    } else if addr == 0x20 || addr == 0x21 {
    } else if 0x28 <= addr <= 0x2b {
      GlobalIntelDirect(c, s, addr, val);
    } else {
      CommonDirect(Intel, s, addr, val, kind);
      var t := WriteCommon(Intel, s, addr, val, kind);
      if addr == 4 && Hits(t.r.pmcntrl, 4) {
        DirectCounts(Intel, t.(r := t.r.(glbsts := Or(t.r.glbsts, 1))));
      } else { }
    }
  }

  lemma EdgeDirect(v: Vendor, s: State, t: State)
    requires t.smi.direct == s.smi.direct
    ensures Edge(v, t, Level(v, s)).smi.direct == s.smi.direct
  {
    hide SmiLevel, Edge;
    EdgeCounts(v, t, Level(v, s));
  }

  lemma GlobalViaDirect(v: Vendor, s: State, val: bv8)
    ensures WriteGlobalVia(v, s, val).smi.direct == s.smi.direct
  {
    hide SmiLevel, Merge32, Edge, Hits8, Hits32, SetGlobal;
    var mid := s.(r := s.r.(glbctl := Merge32(s.r.glbctl, 0, val)), smi := s.smi.(lock := Hits8(val, 0x10)));
    EdgeDirect(v, s, mid);
    GlobalDirect(v, Edge(v, mid, Level(v, s)));
  }

  lemma ViaCommonDirect(v: Vendor, s: State, addr: int, val: bv8, kind: SleepKind)
    requires IsVia(v)
    ensures s.smi.direct <= WriteViaCommon(v, s, addr, val, kind).smi.direct
  {
    hide Level, WriteCommon, RaiseGlobal, Hits, And32;
    CommonDirect(v, s, addr % 64, val, kind);
    RaiseGlobalRise(v, WriteCommon(v, s, addr % 64, val, kind), 0x20);
  }

  lemma ViaGpDirect(v: Vendor, s: State, size: int, addr: int, val: bv8, kind: SleepKind)
    requires IsVia(v) && 0x20 <= addr <= 0x25
    ensures s.smi.direct == WriteVia(v, s, size, addr, val, kind).smi.direct
  {
    hide Level, Update, Edge, And, Merge, Lane, Cleared, GpMask;
    if addr == 0x20 || addr == 0x21 {
      UpdateQuiet(v, s.(r := s.r.(gpsts := Cleared(s.r.gpsts, And(Lane(addr, val), GpMask(v))))));
    } else if addr == 0x22 || addr == 0x23 {
      UpdateQuiet(v, s.(r := s.r.(gpscien := And(Merge(s.r.gpscien, addr, val), GpMask(v)))));
    } else {
      EdgeDirect(v, s, s.(r := s.r.(gpsmien := And(Merge(s.r.gpsmien, addr, val), GpMask(v)))));
    }
  }

  lemma ViaGlobalsDirect(v: Vendor, s: State, size: int, addr: int, val: bv8, kind: SleepKind)
    requires IsVia(v) && 0x28 <= addr <= 0x2d
    ensures s.smi.direct == WriteVia(v, s, size, addr, val, kind).smi.direct
  {
    hide Level, Update, Edge, And, Hits, Hits8, And32, Merge, Lane, Cleared, GlobalMask, WriteGlobalVia;
    if addr == 0x28 || addr == 0x29 {
    } else if addr == 0x2a || addr == 0x2b {
      EdgeDirect(v, s, s.(r := s.r.(glben := And(Merge(s.r.glben, addr, val), GlobalMask(v)))));
    } else if addr == 0x2c {
      GlobalViaDirect(v, s, val);
    } else {
    }
  }

  lemma ViaDirect(v: Vendor, s: State, size: int, addr: int, val: bv8, kind: SleepKind)
    requires IsVia(v)
    ensures s.smi.direct <= WriteVia(v, s, size, addr, val, kind).smi.direct
  {
    hide Level, Update, Edge, And, Hits, Hits8, And32, Merge, Lane, Cleared, WriteViaCommon, WriteGlobalVia,
         RaiseGlobal, GpMask, GlobalMask, ViaOther;
    if 0x20 <= addr <= 0x25 {
      ViaGpDirect(v, s, size, addr, val, kind);
    } else if 0x28 <= addr <= 0x2d {
      ViaGlobalsDirect(v, s, size, addr, val, kind);
    } else if addr == 0x2f {
      RaiseGlobalRise(v, s, 0x40);
    } else if ViaOther(v, addr) {
    } else {
      ViaCommonDirect(v, s, addr, val, kind);
    }
  }

  lemma WriteDirect(c: Chip, s: State, w: RegWrite)
    ensures s.smi.direct <= Write(c, s, w).smi.direct
  {
    hide WriteIntel, WriteAli, WriteVia;
    match c.vendor
    case Intel => IntelDirect(c, s, w.addr % 64, w.val, w.kind);
    case Ali => AliDirect(s, w.addr % 64, w.val, w.kind, w.biosSmi);
    case Via => ViaDirect(Via, s, w.size, w.addr % 256, w.val, w.kind);
    case Via596 => ViaDirect(Via596, s, w.size, w.addr % 128, w.val, w.kind);
  }

  lemma PollDirect(v: Vendor, s: State)
    ensures Poll(v, s).smi.direct == s.smi.direct
  {
    hide SmiLevel, SciLevel, Edge, WakeSource;
    EdgeDirect(v, s, Update(v, s.(seen := s.rtc)));
  }

  lemma WakeDirect(v: Vendor, s: State)
    ensures Wake(v, s).smi.direct == s.smi.direct
  {
    hide SmiLevel, SciLevel, Edge, Or;
    var t := s.(sleeping := false, wakePending := false, r := s.r.(pmsts := Or(s.r.pmsts, WAK)));
    EdgeCounts(v, Update(v, t), false);
  }

  /** No step takes back what was raised directly. */
  lemma DirectGrows(c: Chip, s: State, e: Step)
    ensures s.smi.direct <= Next(c, s, e).smi.direct
  {
    hide SciLevel, Write, Poll, Wake, Or, Cleared, GpeBit, WakeSource, Changed, ResetRegs;
    var v := c.vendor;
    match e {
      case Wrote(w) => WriteDirect(c, s, w);
      case TimerToggled =>
      case GpeRaised(source) => ChangedDirect(v, s, s.r.(gpsts := Or(s.r.gpsts, GpeBit(v, source))));
      case Pressed => ChangedDirect(v, s, s.r.(pmsts := Or(s.r.pmsts, PWRBTN)));
      case HeldDown =>
      case Polled => PollDirect(v, s);
      case RtcRang =>
      case Woke => WakeDirect(v, s);
      case Resumed =>
      case WasReset(powerOn) =>
    }
  }

  /** The two VIA writes that raise SMI# themselves: GBL_RLS and the SMI
      command. */
  lemma ViaDirectRise(v: Vendor, s: State, size: int, addr: int, val: bv8, kind: SleepKind)
    requires IsVia(v) && (addr == 4 || addr == 0x2f)
    ensures Covered(v, s, WriteVia(v, s, size, addr, val, kind))
  {
    hide Level, Covered, WriteViaCommon, RaiseGlobal;
    if addr == 4 {
      ReleaseCovered(v, s, val, kind);
    } else {
      hide *;
      CommandCovered(v, s, size, val, kind);
    }
  }

  lemma CommandIs(v: Vendor, s: State, size: int, val: bv8, kind: SleepKind)
    ensures WriteVia(v, s, size, 0x2f, val, kind) == if size == 1 then RaiseGlobal(v, s, 0x40) else s
  {
    hide Level, Update, Edge, And, Hits, Hits8, And32, Merge, Lane, Cleared, WriteViaCommon, WriteGlobalVia,
         RaiseGlobal, GpMask, GlobalMask;
  }

  lemma CommandCovered(v: Vendor, s: State, size: int, val: bv8, kind: SleepKind)
    requires IsVia(v)
    ensures Covered(v, s, WriteVia(v, s, size, 0x2f, val, kind))
  {
    hide Level, WriteVia, RaiseGlobal, Hits;
    CommandIs(v, s, size, val, kind);
    RaiseGlobalRise(v, s, 0x40);
  }

  lemma ReleaseCovered(v: Vendor, s: State, val: bv8, kind: SleepKind)
    requires IsVia(v)
    ensures Covered(v, s, WriteViaCommon(v, s, 4, val, kind))
  {
    hide Level, WriteCommon, RaiseGlobal, Hits;
    var t := WriteCommon(v, s, 4, val, kind);
    CommonRise(v, s, 4, val, kind);
    CommonDirect(v, s, 4, val, kind);
    RaiseGlobalRise(v, t, 0x20);
    if !Hits(s.r.pmcntrl, 4) && Hits(t.r.pmcntrl, 4) { } else { }
  }

  /** The register address a chip decodes. */
  function Decoded(v: Vendor, addr: int): int {
    if v == Via then addr % 256 else if v == Via596 then addr % 128 else addr % 64
  }

  predicate RaisesItself(v: Vendor, e: Step) {
    IsVia(v) && e.Wrote? && (Decoded(v, e.w.addr) == 4 || Decoded(v, e.w.addr) == 0x2f)
  }

  /** The edges a step from s to t owes: one for a rise of the level, none for
      what happens asleep or in the RTC, and one on waking with SMI# due. */
  function Due(v: Vendor, s: State, e: Step, t: State): nat {
    if e.RtcRang? || (s.sleeping && (e.Pressed? || e.GpeRaised?)) then 0
    else if e.Woke? then (if s.sleeping && s.wakePending && High(v, t) then 1 else 0)
    else if !High(v, s) && High(v, t) then 1
    else 0
  }

  /** SMI#, bit by bit. */
  predicate High(v: Vendor, s: State) { SmiHigh(v, s.r, s.rtc) }

  lemma HighIsLevel(v: Vendor, s: State)
    ensures High(v, s) == Level(v, s)
  {
    hide SmiHigh, SmiLevel;
    SmiByBits(v, s.r, s.rtc);
  }

  lemma WriteRise(c: Chip, s: State, w: RegWrite)
    requires !RaisesItself(c.vendor, Wrote(w))
    ensures EdgeWithRise(c.vendor, s, Write(c, s, w))
  {
    hide EdgeWithRise, WriteIntel, WriteAli, WriteVia;
    match c.vendor
    case Intel => IntelRise(c, s, w.addr % 64, w.val, w.kind);
    case Ali => AliRise(s, w.addr % 64, w.val, w.kind, w.biosSmi);
    case Via => ViaRise(Via, s, w.size, w.addr % 256, w.val, w.kind);
    case Via596 => ViaRise(Via596, s, w.size, w.addr % 128, w.val, w.kind);
  }

  /** PWRBTN_STS cleared, and a bit SMI# never sees set. */
  lemma OverrideFalls(v: Vendor, r: Regs, bit: bv16, rtc: bool)
    requires bit == PWRBTNOR || bit == 0
    ensures SmiLevel(v, r.(pmsts := Or(Cleared(r.pmsts, PWRBTN), bit)), rtc) ==> SmiLevel(v, r, rtc)
  {
    hide SmiLevel, Or, Cleared, Within;
    var q := r.(pmsts := Cleared(r.pmsts, PWRBTN));
    ClearedWithin(r.pmsts, PWRBTN);
    SelfWithin(r.gpsts);
    SelfWithin(r.glbsts);
    FallsSmi(v, r, q, rtc, rtc);
    UnseenSmi(v, q, bit, rtc);
  }

  lemma OverrideRise(v: Vendor, s: State)
    ensures EdgeWithRise(v, s, Override(v, s))
  {
    hide SmiLevel, SciLevel, Or, Cleared;
    if v == Ali { OverrideFalls(v, s.r, 0, s.rtc); } else { OverrideFalls(v, s.r, PWRBTNOR, s.rtc); }
  }

  /** A poll raises no SMI#, whatever RTC_STS did: it takes the level after the
      change for the level before it. */
  lemma PollQuiet(v: Vendor, s: State)
    ensures Poll(v, s).smi.edges == s.smi.edges && High(v, Poll(v, s)) == High(v, s)
  {
    hide SmiLevel, SciLevel, WakeSource, Edge, High;
    HighIsLevel(v, s);
    HighIsLevel(v, Poll(v, s));
    EdgeRise(v, s, Update(v, s.(seen := s.rtc)));
  }

  lemma WakeDue(v: Vendor, s: State)
    ensures Wake(v, s).smi.edges == s.smi.edges + Due(v, s, Woke, Wake(v, s))
  {
    hide SmiLevel, SciLevel, Or, Edge, High;
    HighIsLevel(v, Wake(v, s));
    var t := s.(sleeping := false, wakePending := false, r := s.r.(pmsts := Or(s.r.pmsts, WAK)));
    EdgeCounts(v, Update(v, t), false);
    EdgeLevel(v, Update(v, t), false);
  }

  lemma ResetLow(v: Vendor, s: State, powerOn: bool)
    ensures !Level(v, Reset(v, s, powerOn))
  {
    assert And(0x0100, 0) == 0 && And(0, 0) == 0;
    match v case Intel => case Via => case Via596 => case Ali =>
  }

  lemma ResumeQuiet(v: Vendor, s: State)
    ensures Level(v, s.(r := s.r.(pmsts := Or(s.r.pmsts, WAK)))) == Level(v, s)
  {
    hide SmiLevel, Or;
    UnseenSmi(v, s.r, WAK, s.rtc);
  }

  lemma EventDue(v: Vendor, s: State, e: Step, r: Regs, t: State)
    requires e.Pressed? || e.GpeRaised?
    requires if s.sleeping then t.smi == s.smi else t == Changed(v, s, r)
    ensures t.smi.edges == s.smi.edges + Due(v, s, e, t)
  {
    hide Level, Changed, High;
    HighIsLevel(v, s);
    HighIsLevel(v, t);
    ChangedRise(v, s, r);
  }

  lemma GpeDue(v: Vendor, s: State, source: int)
    ensures Gpe(v, s, source).smi.edges == s.smi.edges + Due(v, s, GpeRaised(source), Gpe(v, s, source))
  {
    hide Level, Changed, Due, GpeBit, WakeSource, Or;
    if GpeBit(v, source) == 0 {
      NoneDue(v, s, GpeRaised(source));
    } else {
      EventDue(v, s, GpeRaised(source), s.r.(gpsts := Or(s.r.gpsts, GpeBit(v, source))), Gpe(v, s, source));
    }
  }

  lemma NoneDue(v: Vendor, s: State, e: Step)
    requires !e.Woke?
    ensures Due(v, s, e, s) == 0
  {
    hide High;
  }

  lemma RiseDue(v: Vendor, s: State, e: Step, t: State)
    requires EdgeWithRise(v, s, t) && !e.RtcRang? && !e.Woke? && !e.Pressed? && !e.GpeRaised?
    ensures t.smi.edges == s.smi.edges + Due(v, s, e, t)
  {
    hide Level, High;
    HighIsLevel(v, s);
    HighIsLevel(v, t);
  }

  /** Every step but VIA's two raises exactly the edges it owes. */
  lemma NextDue(c: Chip, s: State, e: Step)
    requires !RaisesItself(c.vendor, e)
    ensures Next(c, s, e).smi.edges == s.smi.edges + Due(c.vendor, s, e, Next(c, s, e))
  {
    hide Level, Write, Update, Changed, Gpe, Press, Override, Poll, Wake, Or, RaisesItself, Due, EdgeWithRise, High;
    var v, t := c.vendor, Next(c, s, e);
    match e {
      case Wrote(w) => WriteRise(c, s, w); RiseDue(v, s, e, t);
      case TimerToggled => UnseenRise(v, s, TMROF); EvenDue(v, s, e, t);
      case GpeRaised(source) => GpeDue(v, s, source);
      case Pressed => PressDue(v, s);
      case HeldDown => OverrideRise(v, s); RiseDue(v, s, e, t);
      case Polled => PollQuiet(v, s); HighIsLevel(v, s); HighIsLevel(v, t); EvenDue(v, s, e, t);
      case RtcRang => EvenDue(v, s, e, t);
      case Woke => WakeDue(v, s);
      case Resumed => ResumeQuiet(v, s); EvenDue(v, s, e, t);
      case WasReset(powerOn) => ResetLow(v, s, powerOn); EvenDue(v, s, e, t);
    }
  }

  lemma EvenDue(v: Vendor, s: State, e: Step, t: State)
    requires !e.Woke? && t.smi.edges == s.smi.edges && (e.RtcRang? || (Level(v, t) ==> Level(v, s)))
    ensures t.smi.edges == s.smi.edges + Due(v, s, e, t)
  {
    hide Level, High;
    HighIsLevel(v, s);
    HighIsLevel(v, t);
  }

  lemma PressDue(v: Vendor, s: State)
    ensures Press(v, s).smi.edges == s.smi.edges + Due(v, s, Pressed, Press(v, s))
  {
    hide Level, Changed, Due, Or;
    EventDue(v, s, Pressed, s.r.(pmsts := Or(s.r.pmsts, PWRBTN)), Press(v, s));
  }

  /** Where a step has got the level to before it raises SMI# itself: the two
      VIA writes set a global status bit after all else. */
  function Own(c: Chip, s: State, e: Step): State {
    if !RaisesItself(c.vendor, e) then Next(c, s, e)
    else if Decoded(c.vendor, e.w.addr) == 4 then WriteCommon(c.vendor, s, 4, e.w.val, e.w.kind)
    else s
  }

  /** Every step raises exactly the edges it owes, for what it does besides
      raising SMI# itself. */
  lemma NextOwed(c: Chip, s: State, e: Step)
    ensures Next(c, s, e).smi.edges == s.smi.edges + Due(c.vendor, s, e, Own(c, s, e))
  {
    hide Level, WriteVia, WriteIntel, WriteAli, WriteCommon, Due;
    if RaisesItself(c.vendor, e) {
      SelfOwed(c.vendor, s, e.w.size, Decoded(c.vendor, e.w.addr), e.w.val, e.w.kind, e);
    } else {
      hide *;
      NextDue(c, s, e);
      OwnIsNext(c, s, e);
    }
  }

  lemma OwnIsNext(c: Chip, s: State, e: Step)
    requires !RaisesItself(c.vendor, e)
    ensures Own(c, s, e) == Next(c, s, e)
  {
    hide Next, RaisesItself;
  }

  lemma SelfOwed(v: Vendor, s: State, size: int, addr: int, val: bv8, kind: SleepKind, e: Step)
    requires IsVia(v) && (addr == 4 || addr == 0x2f) && e.Wrote?
    ensures WriteVia(v, s, size, addr, val, kind).smi.edges ==
            s.smi.edges + Due(v, s, e, if addr == 4 then WriteCommon(v, s, 4, val, kind) else s)
  {
    hide Level, Update, Edge, And, Hits, Hits8, And32, Merge, Lane, Cleared, WriteCommon, WriteViaCommon;
    hide WriteGlobalVia, RaiseGlobal, GpMask, GlobalMask, Due;
    if addr == 4 {
      ReleaseOwed(v, s, val, kind, e);
    } else {
      hide *;
      CommandOwed(v, s, size, val, kind);
      NoneDue(v, s, e);
    }
  }

  lemma CommandOwed(v: Vendor, s: State, size: int, val: bv8, kind: SleepKind)
    requires IsVia(v)
    ensures WriteVia(v, s, size, 0x2f, val, kind).smi.edges == s.smi.edges
  {
    hide *;
    CommandIs(v, s, size, val, kind);
    RaiseGlobalRise(v, s, 0x40);
  }

  lemma ReleaseOwed(v: Vendor, s: State, val: bv8, kind: SleepKind, e: Step)
    requires IsVia(v) && e.Wrote?
    ensures WriteViaCommon(v, s, 4, val, kind).smi.edges == s.smi.edges + Due(v, s, e, WriteCommon(v, s, 4, val, kind))
  {
    hide Level, WriteCommon, RaiseGlobal, Hits, Due, EdgeWithRise;
    CommonRise(v, s, 4, val, kind);
    RiseDue(v, s, e, WriteCommon(v, s, 4, val, kind));
    RaiseGlobalRise(v, WriteCommon(v, s, 4, val, kind), 0x20);
  }

  /** What a step raises covers the rise of the level it brings about, if it
      does, and no edge is without one. */
  predicate Answered(c: Chip, s: State, e: Step) {
    var t := Next(c, s, e);
    var rises := Due(c.vendor, s, e, t);
    && s.smi.edges <= t.smi.edges <= s.smi.edges + rises
    && s.smi.edges + s.smi.direct + rises <= t.smi.edges + t.smi.direct
  }

  lemma NextAnswered(c: Chip, s: State, e: Step)
    ensures Answered(c, s, e)
  {
    hide Level, High, WriteVia, WriteIntel, WriteAli;
    DirectGrows(c, s, e);
    if RaisesItself(c.vendor, e) {
      NextOwed(c, s, e);
      HighIsLevel(c.vendor, s);
      HighIsLevel(c.vendor, Next(c, s, e));
      ViaDirectRise(c.vendor, s, e.w.size, Decoded(c.vendor, e.w.addr), e.w.val, e.w.kind);
    } else {
      hide *;
      NextDue(c, s, e);
    }
  }

  /** How often a run brings the level up while it counts: awake, other than by
      the RTC, or on waking. */
  function RisesOver(c: Chip, s: State, steps: seq<Step>): nat {
    if steps == [] then 0
    else
      var before := Run(c, s, steps[..|steps| - 1]);
      var e := steps[|steps| - 1];
      RisesOver(c, s, steps[..|steps| - 1]) + Due(c.vendor, before, e, Next(c, before, e))
  }

  /** In every run on every chip each rise of the level is answered by the step
      that brings it about, with an edge or its own assertion of SMI#, and no
      step asserts an edge without a rise. So the counts agree over the run. */
  lemma {:induction false} RisesAnswered(c: Chip, s: State, steps: seq<Step>)
    ensures forall i :: 0 <= i < |steps| ==> Answered(c, Run(c, s, steps[..i]), steps[i])
    ensures var t := Run(c, s, steps); var rises := RisesOver(c, s, steps);
            && s.smi.edges <= t.smi.edges <= s.smi.edges + rises
            && s.smi.edges + s.smi.direct + rises <= t.smi.edges + t.smi.direct
  {
    hide Next, Due;
    if steps == [] {
    } else {
      RisesAnswered(c, s, steps[..|steps| - 1]);
      NextAnswered(c, Run(c, s, steps[..|steps| - 1]), steps[|steps| - 1]);
    }
    forall i | 0 <= i < |steps| ensures Answered(c, Run(c, s, steps[..i]), steps[i]) {
      NextAnswered(c, Run(c, s, steps[..i]), steps[i]);
    }
  }

  /** The edges owed over a run. */
  function DueOver(c: Chip, s: State, steps: seq<Step>): nat {
    if steps == [] then 0
    else
      var before, e := Run(c, s, steps[..|steps| - 1]), steps[|steps| - 1];
      DueOver(c, s, steps[..|steps| - 1]) + Due(c.vendor, before, e, Own(c, before, e))
  }

  /** Over every run, acpi_smi_edge asserts SMI# exactly as often as it owes. */
  lemma {:induction false} EdgesOverRun(c: Chip, s: State, steps: seq<Step>)
    ensures Run(c, s, steps).smi.edges == s.smi.edges + DueOver(c, s, steps)
  {
    hide Next, Due, Own;
    if steps == [] {
    } else {
      EdgesOverRun(c, s, steps[..|steps| - 1]);
      NextOwed(c, Run(c, s, steps[..|steps| - 1]), steps[|steps| - 1]);
    }
  }

  /** When RTC_STS going up brings the SMI# level up, which no step answers
      with an edge: never on the PIIX4, whose level has no RTC_STS in it. */
  lemma RtcRise(v: Vendor, s: State)
    ensures (!High(v, s) && High(v, s.(rtc := true)))
            <==> (v != Intel && !s.rtc && !SciOn(s.r) && Bit(s.r.pmen, 10) && (v == Ali || Bit32(s.r.glbctl, 0))
                  && !High(v, s))
  {
    hide AnyBit, Bit, Bit32;
    match v case Intel => case Via => case Via596 => case Ali =>
  }
}
