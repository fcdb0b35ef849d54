/**
 Guest memories that show what the repair and the skip of MpRepair do not keep:
 tables the search finds, one whose checksum the repair breaks, one that stays
 unrepaired, and one near 4 GB that is skipped for the bytes at address 0.
 */
module MpExamples {
  import opened MpMemory
  import opened MpRepair
  import opened MpRoutes
  import opened Optional
  import MpSearch

  // ---- A table in the BIOS ----

  /** The floating pointer and the table, and the boot processor's ID. */
  const FPS: int := 0xf_0000
  const AT: int := 0xf_1000
  const BSP: Byte := 0

  /** A floating pointer to AT, revision 1.4, checksummed. */
  function PointerByte(k: int): Byte {
    if k == 0 then 0x5f else if k == 1 then 0x4d else if k == 2 then 0x50 else if k == 3 then 0x5f
    else if k == 5 then 0x10 else if k == 6 then 0x0f else if k == 8 then 1 else if k == 9 then 4
    else if k == 10 then 129 else 0
  }

  /** A table of 72 bytes and two entries: an enabled boot processor with ID 1,
      then an entry of type `second`; revision 1.1, checksummed. */
  function TableByte(second: Byte, k: int): Byte
    requires second <= 5
  {
    if k == 0 then 0x50 else if k == 1 then 0x43 else if k == 2 then 0x4d else if k == 3 then 0x50
    else if k == 4 then 72 else if k == 6 then 1 else if k == 7 then 129 - second else if k == 34 then 2
    else if k == 45 then 1 else if k == 47 then 3 else if k == 64 then second else 0
  }

  function BiosByte(second: Byte, a: int): Byte
    requires second <= 5
  {
    if FPS <= a < FPS + 16 then PointerByte(a - FPS)
    else if AT <= a < AT + 72 then TableByte(second, a - AT)
    else 0
  }

  function Bios(second: Byte): (m: Memory)
    requires second <= 5
    ensures IsMemory(m)
  {
    seq<Byte>(SPACE, a => BiosByte(second, a))
  }

  lemma BiosAt(second: Byte, x: int)
    requires second <= 5
    ensures 0 <= x < 72 ==> At(Bios(second), AT, x) == TableByte(second, x)
    ensures 0 <= x < 16 ==> At(Bios(second), FPS, x) == PointerByte(x)
    ensures 0 <= x < 0x1000 ==> At(Bios(second), x, 0) == 0
  {
    hide Bios, At, TableByte, PointerByte;
    if 0 <= x < 0x1000 {
      BiosHolds(second, AT, x);
      BiosHolds(second, FPS, x);
      BiosHolds(second, x, 0);
    }
  }

  lemma BiosHolds(second: Byte, base: int, x: int)
    requires second <= 5 && 0 <= base + x < SPACE
    ensures At(Bios(second), base, x) == BiosByte(second, base + x)
  {
    hide BiosByte;
  }

  function Upto(n: int, k: int, v: int): int { if k < n then v else 0 }

  lemma {:induction false} TableSum(second: Byte, n: nat)
    requires second <= 5 && n <= 72
    ensures Sum(Bios(second), AT, n) ==
            Upto(n, 0, 0x50) + Upto(n, 1, 0x43) + Upto(n, 2, 0x4d) + Upto(n, 3, 0x50) + Upto(n, 4, 72) + Upto(n, 6, 1) +
            Upto(n, 7, 129 - second) + Upto(n, 34, 2) + Upto(n, 45, 1) + Upto(n, 47, 3) + Upto(n, 64, second)
  {
    hide Bios, At;
    if n > 0 {
      TableSum(second, n - 1);
      BiosAt(second, n - 1);
    }
  }

  lemma {:induction false} PointerSum(second: Byte, n: nat)
    requires second <= 5 && n <= 16
    ensures Sum(Bios(second), FPS, n) ==
            Upto(n, 0, 0x5f) + Upto(n, 1, 0x4d) + Upto(n, 2, 0x50) + Upto(n, 3, 0x5f) + Upto(n, 5, 0x10) +
            Upto(n, 6, 0x0f) + Upto(n, 8, 1) + Upto(n, 9, 4) + Upto(n, 10, 129)
  {
    hide Bios, At;
    if n > 0 {
      PointerSum(second, n - 1);
      BiosAt(second, n - 1);
    }
  }

  /** The search finds this table. */
  lemma BiosFound(second: Byte)
    requires second <= 5
    ensures var m := Bios(second);
            && (var ranges := MpSearch.Ranges(Word(m, 0x40e, 0), Word(m, 0x413, 0));
                MpSearch.FirstHit(m, MpSearch.Candidates(ranges)) == Some(FPS))
            && Dword(m, FPS, 4) == AT && Signed(m, FPS)
  {
    hide Bios, At, Sum, MpSearch.FirstHit;
    var m := Bios(second);
    BiosAt(second, 0x40e);
    BiosAt(second, 0x40f);
    BiosAt(second, 0x413);
    BiosAt(second, 0x414);
    assert At(m, 0x40e, 1) == At(m, 0x40f, 0) && At(m, 0x413, 1) == At(m, 0x414, 0) by { NextByte(m); }
    PointerBytes(second);
    PointerSum(second, 16);
    assert MpSearch.Hit(m, FPS) by { SignatureBytes(second); }
    var ranges := MpSearch.Ranges(0, 0);
    assert ranges == [MpSearch.Range(0xf_0000, 0x1_0000)];
    var cands := MpSearch.Candidates(ranges);
    assert ranges[..0] == [];
    assert cands == MpSearch.Paragraphs(ranges[0]);
    assert cands[0] == MpSearch.Paragraph(0xf_0000, 0) == FPS;
    MpSearch.FirstHitAt(m, cands, 0);
  }

  lemma NextByte(m: Memory)
    requires IsMemory(m)
    ensures At(m, 0x40e, 1) == At(m, 0x40f, 0) && At(m, 0x413, 1) == At(m, 0x414, 0)
  {
  }

  lemma PointerBytes(second: Byte)
    requires second <= 5
    ensures var m := Bios(second);
            Dword(m, FPS, 0) == MpSearch.FP_SIGNATURE && Dword(m, FPS, 4) == AT && At(m, FPS, 8) == 1 && Signed(m, FPS)
  {
    hide Bios, At;
    BiosAt(second, 0);
    BiosAt(second, 1);
    BiosAt(second, 2);
    BiosAt(second, 3);
    BiosAt(second, 4);
    BiosAt(second, 5);
    BiosAt(second, 6);
    BiosAt(second, 7);
    BiosAt(second, 8);
  }

  lemma SignatureBytes(second: Byte)
    requires second <= 5
    ensures Dword(Bios(second), AT, 0) == MpSearch.PCMP_SIGNATURE
  {
    hide Bios, At;
    BiosAt(second, 0);
    BiosAt(second, 1);
    BiosAt(second, 2);
    BiosAt(second, 3);
  }

  /** The walk meets the one processor, and gets past the second entry if it
      knows its type. */
  lemma BiosWalk(second: Byte)
    requires second <= 5
    ensures var m := Bios(second);
            && BaseLen(m, AT) == 72 && TableLen(m, AT) == 72 && Walkable(m, AT)
            && TableWalk(m, AT).ids == [45] && (TableWalk(m, AT).complete <==> 1 <= second <= 4)
            && At(m, AT, 45) != BSP
  {
    hide Bios, At;
    var m := Bios(second);
    BiosAt(second, 4);
    BiosAt(second, 5);
    BiosAt(second, 6);
    BiosAt(second, 34);
    BiosAt(second, 35);
    BiosAt(second, 44);
    BiosAt(second, 45);
    BiosAt(second, 47);
    BiosAt(second, 64);
    var end := Addr(AT, 72);
    assert Walk(m, AT, end, 2, 2, 72) == Visit([], true);
    assert Walk(m, AT, end, 2, 1, 64) == Visit([], 1 <= second <= 4);
    assert Walk(m, AT, end, 2, 0, 44).ids == [45];
  }

  /** A table the search finds and that checks out, with an entry type the walk
      does not know behind a processor with the wrong ID: repaired, it no longer
      checks out. */
  lemma ChecksumBroken()
    ensures var m := Bios(5);
            && Sum(m, AT, BaseLen(m, AT)) % 256 == 0
            && Sum(Repaired(m, AT, BSP), AT, BaseLen(m, AT)) % 256 != 0
  {
    hide Bios, Repaired, Sum, Walk, At, Walkable;
    BiosWalk(5);
    TableSum(5, 72);
    EarlyExitBreaks(Bios(5), AT, BSP, 0);
  }

  // ---- Posting again ----

  /** An exposed table posted again at once is skipped, unless it was one that
      nothing is remembered of: no length, or a pointer not below 1 MB. */
  method PostTwice(p: Platform, fps: int, pcmp: int, inRam: bool, direct: (int, int) -> bool)
    returns (first: bool, second: bool)
    requires p.Valid()
    modifies p
    ensures p.Valid()
    ensures second <==> first || (TableLen(old(p.mem), pcmp) != 0 && fps <= 0x10_0000 - 16)
    ensures second ==> p.mem == if first then old(p.mem)
                                else Walked(old(p.mem), fps, pcmp, p.bsp, p.up, true, inRam)
  {
    hide Platform.Settled, Repaired, NeedsRepair, Routes, Matches, Hidden, Signed, TableLen;
    first := p.Post(fps, pcmp, true, inRam, direct);
    RepairKeepsTableLen(old(p.mem), pcmp, p.bsp);
    second := p.Post(fps, pcmp, true, inRam, direct);
  }

  /** A table first met in ROM, where it cannot be repaired, and then with the
      same bytes in RAM, where it could: whatever there was to repair stays. */
  method RomThenRam(p: Platform, fps: int, pcmp: int, direct: (int, int) -> bool) returns (skipped: bool)
    requires p.Valid() && p.up && p.seen == None && Signed(p.mem, fps)
    requires TableLen(p.mem, pcmp) != 0 && fps <= 0x10_0000 - 16
    modifies p
    ensures p.Valid() && skipped && p.mem == old(p.mem)
    ensures Walked(p.mem, fps, pcmp, p.bsp, true, true, true) == p.mem <==> !NeedsRepair(p.mem, pcmp, p.bsp)
  {
    hide Platform.Settled, Repaired, NeedsRepair, Routes, Matches, Hidden, Signed, TableLen;
    var first := p.Post(fps, pcmp, true, false, direct);
    skipped := p.Post(fps, pcmp, true, true, direct);
  }

  /** A table the search finds, with a boot processor of ID 1 where it should be
      0: met in ROM and then in RAM, it is left unrepaired. */
  method Unrepaired(policy: Policy, direct: (int, int) -> bool) returns (p: Platform, skipped: bool)
    ensures fresh(p) && p.mem == Bios(1) && p.bsp == BSP && skipped && Repaired(p.mem, AT, BSP) != p.mem
  {
    hide Platform.Settled, Bios, Repaired, Routes, Hidden, Walk, TableLen, Walkable, At;
    BiosFound(1);
    BiosWalk(1);
    assert At(Bios(1), AT, TableWalk(Bios(1), AT).ids[0]) != BSP;
    RepairWrites(Bios(1), AT, BSP);
    p := new Platform(Bios(1), true, BSP, policy);
    skipped := RomThenRam(p, FPS, AT, direct);
  }

  // ---- A table at the top ----

  const TOP: int := SPACE - 60

  /** A table of 56 bytes, 60 below 4 GB, that counts three entries: an ISA bus,
      an I/O APIC up to 4 GB, and what is at address 0. */
  function TopByte(k: int): Byte {
    if k == 0 then 0x50 else if k == 1 then 0x43 else if k == 2 then 0x4d else if k == 3 then 0x50
    else if k == 4 then 56 else if k == 6 then 1 else if k == 34 then 3
    else if k == 44 then 1 else if k == 46 then 0x49 else if k == 47 then 0x53 else if k == 48 then 0x41
    else if 49 <= k <= 51 then 0x20 else if k == 52 then 2 else 0
  }

  /** An interrupt entry: ISA source 5 to pin 5. */
  function LowByte(k: int): Byte { if k == 0 then 3 else if k == 5 || k == 7 then 5 else 0 }

  function TopMemory(low: bool, a: int): Byte {
    if a >= TOP then TopByte(a - TOP) else if low && a < 8 then LowByte(a) else 0
  }

  function Top(low: bool): (m: Memory)
    ensures IsMemory(m)
  {
    seq<Byte>(SPACE, a => TopMemory(low, a))
  }

  lemma TopAt(low: bool, x: int)
    ensures 0 <= x < 60 ==> At(Top(low), TOP, x) == TopByte(x)
    ensures 60 <= x < 68 ==> At(Top(low), TOP, x) == if low then LowByte(x - 60) else 0
  {
  }

  lemma TopHeader(low: bool)
    ensures var m := Top(low); BaseLen(m, TOP) == 56 && TableLen(m, TOP) == 56 && EntryCount(m, TOP) == 3
  {
    hide Top, At;
    TopAt(low, 4);
    TopAt(low, 5);
    TopAt(low, 6);
    TopAt(low, 34);
    TopAt(low, 35);
  }

  lemma TopBus(low: bool)
    ensures var m := Top(low); At(m, TOP, 44) == 1 && At(m, TOP, 45) == 0 && BusName(m, TOP, 44) == ISA
  {
    hide Top, At;
    TopAt(low, 44);
    TopAt(low, 45);
    TopAt(low, 46);
    TopAt(low, 47);
    TopAt(low, 48);
    TopAt(low, 49);
    TopAt(low, 50);
    TopAt(low, 51);
    var name: seq<Byte> := [0x49, 0x53, 0x41, 0x20, 0x20, 0x20];
    assert name[..5] == [0x49, 0x53, 0x41, 0x20, 0x20] && name[..5][..4] == [0x49, 0x53, 0x41, 0x20];
    assert name[..5][..4][..3] == ISA;
    assert Trimmed(ISA) == ISA;
    assert Trimmed(name[..5][..4]) == ISA;
    assert Trimmed(name[..5]) == ISA;
    assert Trimmed(name) == ISA;
    assert ISA[1..] == [0x53, 0x41] && ISA[1..][1..] == [0x41] && ISA[1..][1..][1..] == [];
    assert CString(ISA[1..][1..]) == [0x41];
    assert CString(ISA[1..]) == [0x53] + CString(ISA[1..][1..]);
    assert CString(ISA) == [0x49] + CString(ISA[1..]);
  }

  lemma TopRoutes(low: bool, policy: Policy)
    requires policy.legacy
    ensures Routes(Top(low), TOP, policy) == if low then [Legacy(5, 5)] else []
  {
    hide Top, At, BusName, Learn;
    var m, end := Top(low), Addr(TOP, 56);
    TopHeader(low);
    TopBus(low);
    TopAt(low, 52);
    TopAt(low, 60);
    TopAt(low, 61);
    TopAt(low, 64);
    TopAt(low, 65);
    TopAt(low, 67);
    var l: set<int>, p: set<int> := {0}, {};
    LearnNext(m, TOP, policy, end, 3, 0, 44, {}, {});
    assert LegacyAfter(m, TOP, 44, {}) == l && ISA != PCI by { assert ISA[0] != PCI[0]; }
    LearnNext(m, TOP, policy, end, 3, 1, 52, l, p);
    LearnNext(m, TOP, policy, end, 3, 2, 60, l, p);
    LearnOver(m, TOP, policy, end, 3, 3, if low then 68 else 80, LegacyAfter(m, TOP, 60, l), PciAfter(m, TOP, 60, p));
  }

  /** So two memories alike in all that is remembered of it, and a walk of the
      one teaches a route that a walk of the other does not. */
  lemma SkipMissesRoute(policy: Policy)
    requires policy.legacy
    ensures var m1, m2 := Top(true), Top(false);
            && TableLen(m1, TOP) == TableLen(m2, TOP) == 56 && SameTable(m1, m2, TOP, 56)
            && Routes(m1, TOP, policy) == [Legacy(5, 5)] && Routes(m2, TOP, policy) == []
  {
    hide Top, At, Routes, TableLen;
    TopHeader(true);
    TopHeader(false);
    TopRoutes(true, policy);
    TopRoutes(false, policy);
    forall x | 0 <= x < 56 ensures At(Top(true), TOP, x) == At(Top(false), TOP, x) {
      TopAt(true, x);
      TopAt(false, x);
    }
  }
}
