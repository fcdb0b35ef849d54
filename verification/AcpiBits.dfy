/**
 SCI, SMI# and waking said bit by bit, as the chips' data books do, and the
 levels the emulator computes with masks shown to be those (src/acpi.c).
 */
module AcpiBits {
  import opened AcpiChip

  predicate Bit(x: bv16, k: bv4) { (x >> k) & 1 == 1 }

  predicate Bit32(x: bv32, k: bv5) { (x >> k) & 1 == 1 }

  /** Some bit is set in both registers: a status and its enable. */
  predicate AnyBit(x: bv16, y: bv16) {
    || (Bit(x, 0) && Bit(y, 0)) || (Bit(x, 1) && Bit(y, 1)) || (Bit(x, 2) && Bit(y, 2)) || (Bit(x, 3) && Bit(y, 3))
    || (Bit(x, 4) && Bit(y, 4)) || (Bit(x, 5) && Bit(y, 5)) || (Bit(x, 6) && Bit(y, 6)) || (Bit(x, 7) && Bit(y, 7))
    || (Bit(x, 8) && Bit(y, 8)) || (Bit(x, 9) && Bit(y, 9)) || (Bit(x, 10) && Bit(y, 10))
    || (Bit(x, 11) && Bit(y, 11)) || (Bit(x, 12) && Bit(y, 12)) || (Bit(x, 13) && Bit(y, 13))
    || (Bit(x, 14) && Bit(y, 14)) || (Bit(x, 15) && Bit(y, 15))
  }

  /** A power management status bit with its enable. RTC_STS is bit 10. */
  predicate Event(r: Regs, rtc: bool, k: bv4) {
    (Bit(r.pmsts, k) || (k == 10 && rtc)) && Bit(r.pmen, k)
  }

  /** A general-purpose status bit with its enable. */
  predicate Input(r: Regs, k: bv4) { Bit(r.gpsts, k) && Bit(r.gpen, k) }

  predicate SciOn(r: Regs) { Bit(r.pmcntrl, 0) }

  /** SCI: the timer, the global release, the power button or the RTC; on the
      PIIX4 also THRM#, the general-purpose input and the lid, on VIA the inputs
      enabled for SCI, on ALi those enabled. */
  predicate SciHigh(v: Vendor, r: Regs, rtc: bool) {
    && SciOn(r)
    && (|| Event(r, rtc, 0) || Event(r, rtc, 5) || Event(r, rtc, 8) || Event(r, rtc, 10)
        || match v
           case Intel => Input(r, 0) || Input(r, 9) || Input(r, 11)
           case Via => AnyBit(r.gpsts, r.gpscien)
           case Via596 => AnyBit(r.gpsts, r.gpscien)
           case Ali => AnyBit(r.gpsts, r.gpen))
  }

  /** SMI#: events in place of SCI while that is off, on VIA the inputs enabled
      for SMI# and the global events too, all under SMI_EN. */
  predicate SmiHigh(v: Vendor, r: Regs, rtc: bool) {
    match v
    case Intel => !SciOn(r) && (Event(r, rtc, 8) || Input(r, 0) || Input(r, 9) || Input(r, 11))
    case Via => ViaSmiHigh(r, rtc)
    case Via596 => ViaSmiHigh(r, rtc)
    case Ali => !SciOn(r) && (Event(r, rtc, 8) || Event(r, rtc, 10) || AnyBit(r.gpsts, r.gpen))
  }

  predicate ViaSmiHigh(r: Regs, rtc: bool) {
    && Bit32(r.glbctl, 0)
    && (|| AnyBit(r.glbsts, r.glben) || AnyBit(r.gpsts, r.gpsmien)
        || (!SciOn(r) && (Event(r, rtc, 8) || Event(r, rtc, 9) || Event(r, rtc, 10))))
  }

  /** What ends a sleep: the RTC's alarm, and the inputs that resume. */
  predicate WakeHigh(v: Vendor, r: Regs, rtc: bool) {
    || (rtc && Bit(r.pmen, 10))
    || match v
       case Intel => Input(r, 8) || Input(r, 9) || Input(r, 10) || Input(r, 11)
       case Via => AnyBit(r.gpsts, r.gpscien) || AnyBit(r.gpsts, r.gpsmien)
       case Via596 => AnyBit(r.gpsts, r.gpscien) || AnyBit(r.gpsts, r.gpsmien)
       case Ali => Input(r, 2) || Input(r, 8) || Input(r, 10) || Input(r, 11)
  }

  // ---- Masks and bits ----

  lemma AnyIs(x: bv16, y: bv16)
    ensures Hits(x, y) == AnyBit(x, y)
  {
  }

  lemma OneIs(x: bv16, y: bv16)
    ensures Hits(x, 1) == Bit(x, 0) && Hits(x, RTC) == Bit(x, 10)
    ensures Hits(And(x, y), PWRBTN) == (Bit(x, 8) && Bit(y, 8))
  {
  }

  lemma ResumesScan(x: bv16)
    ensures Hits(x, 0x0a01) == (Bit(x, 0) || Bit(x, 9) || Bit(x, 11))
    ensures Hits(x, 0x0f00) == (Bit(x, 8) || Bit(x, 9) || Bit(x, 10) || Bit(x, 11))
    ensures Hits(x, 0x0d04) == (Bit(x, 2) || Bit(x, 8) || Bit(x, 10) || Bit(x, 11))
  {
  }

  lemma BitOfAnd(x: bv16, y: bv16, k: bv4)
    ensures Bit(And(x, y), k) == (Bit(x, k) && Bit(y, k))
  {
  }

  lemma SomeIs(x: bv16, y: bv16)
    ensures Hits(And(x, y), 0x0a01) ==
            (|| (Bit(x, 0) && Bit(y, 0)) || (Bit(x, 9) && Bit(y, 9)) || (Bit(x, 11) && Bit(y, 11)))
    ensures Hits(And(x, y), 0x0f00) ==
            (|| (Bit(x, 8) && Bit(y, 8)) || (Bit(x, 9) && Bit(y, 9))
             || (Bit(x, 10) && Bit(y, 10)) || (Bit(x, 11) && Bit(y, 11)))
    ensures Hits(And(x, y), 0x0d04) ==
            (|| (Bit(x, 2) && Bit(y, 2)) || (Bit(x, 8) && Bit(y, 8))
             || (Bit(x, 10) && Bit(y, 10)) || (Bit(x, 11) && Bit(y, 11)))
  {
    hide *;
    ResumesScan(And(x, y));
    BitOfAnd(x, y, 0);
    BitOfAnd(x, y, 2);
    BitOfAnd(x, y, 8);
    BitOfAnd(x, y, 9);
    BitOfAnd(x, y, 10);
    BitOfAnd(x, y, 11);
  }

  lemma EventsAre(r: Regs, rtc: bool)
    ensures Hits(Pm(r, rtc), 0x0521) ==
            (Event(r, rtc, 0) || Event(r, rtc, 5) || Event(r, rtc, 8) || Event(r, rtc, 10))
    ensures Hits(Pm(r, rtc), PWRBTN) == Event(r, rtc, 8)
    ensures Hits(Pm(r, rtc), 0x0700) == (Event(r, rtc, 8) || Event(r, rtc, 9) || Event(r, rtc, 10))
    ensures Hits(Pm(r, rtc), 0x0500) == (Event(r, rtc, 8) || Event(r, rtc, 10))
  {
    if rtc { } else { }
  }

  lemma SmiEnableIs(x: bv32)
    ensures Hits32(x, 1) == Bit32(x, 0)
  {
  }

  lemma OrIs(x: bv16, y: bv16, z: bv16)
    ensures Hits(x, Or(y, z)) == (Hits(x, y) || Hits(x, z))
  {
    assert x & (y | z) == (x & y) | (x & z);
    OrZero(x & y, x & z);
  }

  lemma OrZero(x: bv16, y: bv16)
    ensures x | y == 0 <==> x == 0 && y == 0
  {
  }

  // ---- The levels ----

  /** The line the emulator drives is SCI. */
  lemma SciByBits(v: Vendor, r: Regs, rtc: bool)
    ensures SciLevel(v, r, rtc) == SciHigh(v, r, rtc)
  {
    hide Hits, And, Or, Pm, AnyBit, Bit, Event;
    EventsAre(r, rtc);
    OneIs(r.pmcntrl, 0);
    SomeIs(r.gpsts, r.gpen);
    AnyIs(r.gpsts, r.gpscien);
    AnyIs(r.gpsts, r.gpen);
    match v case Intel => case Via => case Via596 => case Ali =>
  }

  /** The level whose rise it answers is SMI#. */
  lemma SmiByBits(v: Vendor, r: Regs, rtc: bool)
    ensures SmiLevel(v, r, rtc) == SmiHigh(v, r, rtc)
  {
    hide Hits, And, Or, Pm, AnyBit, Bit, Event, Hits32, Bit32;
    EventsAre(r, rtc);
    OneIs(r.pmcntrl, 0);
    SomeIs(r.gpsts, r.gpen);
    AnyIs(r.gpsts, r.gpen);
    AnyIs(r.gpsts, r.gpsmien);
    AnyIs(r.glbsts, r.glben);
    SmiEnableIs(r.glbctl);
    match v case Intel => case Via => case Via596 => case Ali =>
  }

  /** And what wakes the machine is what resumes it. */
  lemma WakeByBits(v: Vendor, r: Regs, rtc: bool)
    ensures WakeSource(v, r, rtc) == WakeHigh(v, r, rtc)
  {
    hide Hits, And, Or, Pm, AnyBit, Bit;
    OneIs(r.pmen, 0);
    SomeIs(r.gpsts, r.gpen);
    OrIs(r.gpsts, r.gpscien, r.gpsmien);
    AnyIs(r.gpsts, r.gpscien);
    AnyIs(r.gpsts, r.gpsmien);
    match v case Intel => case Via => case Via596 => case Ali =>
  }
}
