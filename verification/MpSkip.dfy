/**
 Exactly when a remembered MP table may be skipped: its walks must not leave
 the bytes remembered of it. Where they do, at 4 GB, some memory with the very
 same bytes would be walked to another end.
 */
module MpSkip {
  import opened MpMemory
  import opened MpRepair
  import opened MpRoutes

  /** The walks from an entry on, of two memories with the same table, end
      differently: an ID to set in the second, or other routes. */
  ghost predicate Parts(m1: Memory, m2: Memory, pcmp: int, bsp: Byte, policy: Policy, end: int, count: int, entry: int,
      off: int, legacy: set<int>, pci: set<int>)
    requires IsMemory(m1) && IsMemory(m2) && 0 <= entry && count < 0x1_0000 && 44 <= off <= 44 + 20 * entry
  {
    || Wrong(m2, pcmp, Walk(m2, pcmp, end, count, entry, off).ids, bsp)
    || Learn(m2, pcmp, policy, end, count, entry, off, legacy, pci) !=
       Learn(m1, pcmp, policy, end, count, entry, off, legacy, pci)
  }

  /** A byte written past the table. */
  function Poke(m: Memory, pcmp: int, off: int, v: Byte): (r: Memory)
    requires IsMemory(m)
    ensures IsMemory(r)
  {
    m[Addr(pcmp, off) := v]
  }

  lemma PokeAt(m: Memory, pcmp: int, off: int, v: Byte, o: int)
    requires IsMemory(m) && 0 <= off < SPACE && 0 <= o < SPACE
    ensures At(Poke(m, pcmp, off, v), pcmp, o) == if o == off then v else At(m, pcmp, o)
  {
    if o != off && Addr(pcmp, o) == Addr(pcmp, off) { SameByte(pcmp, o, off); }
  }

  lemma PokeSame(m1: Memory, m: Memory, pcmp: int, off: int, v: Byte, len: int)
    requires IsMemory(m1) && IsMemory(m) && SameTable(m1, m, pcmp, len) && 0 <= len <= off < SPACE
    ensures SameTable(m1, Poke(m, pcmp, off, v), pcmp, len)
  {
    hide At, Poke;
    forall o | 0 <= o < len ensures At(m1, pcmp, o) == At(Poke(m, pcmp, off, v), pcmp, o) {
      SameTableAt(m1, m, pcmp, len, o);
      PokeAt(m, pcmp, off, v, o);
    }
  }

  function Other(bsp: Byte): Byte { if bsp == 0 then 1 else 0 }

  /** An enabled boot processor entry with another ID, put where the walk goes on
      past 4 GB. */
  lemma PlantProcessor(
      m1: Memory, pcmp: int, bsp: Byte, policy: Policy, n: int, len: int, count: int, entry: int, off: int,
      legacy: set<int>, pci: set<int>) returns (m2: Memory)
    requires IsMemory(m1) && 0 <= entry && count < 0x1_0000 && 44 <= off <= 44 + 20 * entry
    requires Within(pcmp, n, len, off) && n < 0x1_0000 && len < 0x2_0000 && off < n
    requires entry + 1 < count && At(m1, pcmp, off) <= 4 && pcmp + off + Size(At(m1, pcmp, off)) >= SPACE
    ensures IsMemory(m2) && SameTable(m1, m2, pcmp, len)
    ensures Parts(m1, m2, pcmp, bsp, policy, Addr(pcmp, n), count, entry, off, legacy, pci)
  {
    hide At, Addr, Poke, SameTable, Learn, Wrong;
    var kind := At(m1, pcmp, off);
    var w := off + Size(kind);
    NoWrap(pcmp, n, len, off);
    var a := Poke(m1, pcmp, w, 0);
    var b := Poke(a, pcmp, w + 1, Other(bsp));
    m2 := Poke(b, pcmp, w + 3, 3);
    SameTableSelf(m1, pcmp, len);
    PokeSame(m1, m1, pcmp, w, 0, len);
    PokeSame(m1, a, pcmp, w + 1, Other(bsp), len);
    PokeSame(m1, b, pcmp, w + 3, 3, len);
    PokeAt(m1, pcmp, w, 0, w);
    PokeAt(a, pcmp, w + 1, Other(bsp), w);
    PokeAt(b, pcmp, w + 3, 3, w);
    PokeAt(a, pcmp, w + 1, Other(bsp), w + 1);
    PokeAt(b, pcmp, w + 3, 3, w + 1);
    PokeAt(b, pcmp, w + 3, 3, w + 3);
    SameTableAt(m1, m2, pcmp, len, off);
    Landed(pcmp, n, off, Size(kind));
    ProcessorWrong(m2, pcmp, bsp, Addr(pcmp, n), count, entry + 1, w);
    CrossedWrong(m2, pcmp, bsp, n, len, count, entry, off);
  }

  /** Where an entry that reaches 4 GB sends the walk. */
  lemma Landed(pcmp: int, n: int, off: int, size: int)
    requires 0 <= pcmp && 44 <= n < 0x1_0000 && pcmp + n < SPACE && 0 <= off < n && (size == 8 || size == 20)
    requires pcmp + off + size >= SPACE
    ensures Addr(pcmp, off + size) < 20 && Addr(pcmp, n) == pcmp + n && 0x1_0000 < Addr(pcmp, n)
  {
  }

  lemma ProcessorWrong(m: Memory, pcmp: int, bsp: Byte, end: int, count: int, entry: int, off: int)
    requires IsMemory(m) && 0 <= entry < count < 0x1_0000 && 44 <= off <= 44 + 20 * entry
    requires Addr(pcmp, off) < 20 && 0x1_0000 < end
    requires At(m, pcmp, off) == 0 && At(m, pcmp, off + 1) != bsp && At(m, pcmp, off + 3) == 3
    ensures Wrong(m, pcmp, Walk(m, pcmp, end, count, entry, off).ids, bsp)
  {
    hide At, Addr;
    var ids := Walk(m, pcmp, end, count, entry, off).ids;
    assert ids[0] == off + 1;
  }

  /** What is wrong past an entry that reaches 4 GB is wrong from it on. */
  lemma CrossedWrong(m: Memory, pcmp: int, bsp: Byte, n: int, len: int, count: int, entry: int, off: int)
    requires IsMemory(m) && 0 <= entry < count < 0x1_0000 && 44 <= off <= 44 + 20 * entry
    requires Within(pcmp, n, len, off) && off < n && At(m, pcmp, off) <= 4
    requires pcmp + off + Size(At(m, pcmp, off)) >= SPACE || off + Size(At(m, pcmp, off)) <= n
    requires Wrong(m, pcmp, Walk(m, pcmp, Addr(pcmp, n), count, entry + 1, off + Size(At(m, pcmp, off))).ids, bsp)
    ensures Wrong(m, pcmp, Walk(m, pcmp, Addr(pcmp, n), count, entry, off).ids, bsp)
  {
    hide At, Addr, Wrong;
    NoWrap(pcmp, n, len, off);
    var rest := Walk(m, pcmp, Addr(pcmp, n), count, entry + 1, off + Size(At(m, pcmp, off))).ids;
    RestRight(m, pcmp, off + 1, rest, bsp);
  }

  /** The last entry, a processor's whose flags are past the table, enabled. */
  lemma EnableProcessor(m1: Memory, pcmp: int, bsp: Byte, policy: Policy, n: int, len: int, count: int, entry: int,
      off: int, legacy: set<int>, pci: set<int>) returns (m2: Memory)
    requires IsMemory(m1) && 0 <= entry && count < 0x1_0000 && 44 <= off <= 44 + 20 * entry
    requires Within(pcmp, n, len, off) && n < 0x1_0000 && off < n
    requires entry + 1 == count && At(m1, pcmp, off) == 0 && pcmp + off + 20 >= SPACE && IdOpen(m1, pcmp, bsp, len, off)
    ensures IsMemory(m2) && SameTable(m1, m2, pcmp, len)
    ensures Parts(m1, m2, pcmp, bsp, policy, Addr(pcmp, n), count, entry, off, legacy, pci)
  {
    hide At, Addr, Poke, SameTable, Learn;
    NoWrap(pcmp, n, len, off);
    SameTableSelf(m1, pcmp, len);
    var a := if off + 1 >= len then Poke(m1, pcmp, off + 1, Other(bsp)) else m1;
    m2 := Poke(a, pcmp, off + 3, 3);
    if off + 1 >= len {
      PokeSame(m1, m1, pcmp, off + 1, Other(bsp), len);
      PokeAt(m1, pcmp, off + 1, Other(bsp), off + 1);
    }
    PokeSame(m1, a, pcmp, off + 3, 3, len);
    PokeAt(a, pcmp, off + 3, 3, off + 1);
    PokeAt(a, pcmp, off + 3, 3, off + 3);
    SameTableAt(m1, m2, pcmp, len, off);
    var ids := Walk(m2, pcmp, Addr(pcmp, n), count, entry, off).ids;
    assert ids[0] == off + 1;
  }

  /** The last entry, an interrupt's whose pin is past the table, made to teach a
      route if it did not, and none if it did. */
  lemma SwitchRoute(m1: Memory, pcmp: int, policy: Policy, len: int, off: int, legacy: set<int>, pci: set<int>)
    returns (m2: Memory)
    requires IsMemory(m1) && 0 <= pcmp && 44 <= off < 0x1_0000 && 0 <= len
    requires RouteOpen(m1, pcmp, policy, len, off, legacy, pci)
    ensures IsMemory(m2) && SameTable(m1, m2, pcmp, len)
    ensures Taught(m2, pcmp, policy, off, legacy, pci) != Taught(m1, pcmp, policy, off, legacy, pci)
  {
    hide At, Poke, SameTable;
    SameTableSelf(m1, pcmp, len);
    if Taught(m1, pcmp, policy, off, legacy, pci) != [] {
      m2 := Poke(m1, pcmp, off + 7, 24);
      PokeSame(m1, m1, pcmp, off + 7, 24, len);
      PokeAt(m1, pcmp, off + 7, 24, off + 7);
    } else {
      m2 := TeachRoute(m1, pcmp, policy, len, off, legacy, pci);
    }
  }

  lemma PokePast(m1: Memory, m: Memory, pcmp: int, off: int, v: Byte, len: int) returns (r: Memory)
    requires IsMemory(m1) && IsMemory(m) && SameTable(m1, m, pcmp, len) && 0 <= len && 0 <= off < 0x2_0000
    ensures IsMemory(r) && SameTable(m1, r, pcmp, len)
    ensures At(r, pcmp, off) == if off >= len then v else At(m1, pcmp, off)
    ensures forall o :: 0 <= o < 0x2_0000 && o != off ==> At(r, pcmp, o) == At(m, pcmp, o)
  {
    hide At, Poke, SameTable;
    if off >= len {
      r := Poke(m, pcmp, off, v);
      PokeSame(m1, m, pcmp, off, v, len);
      forall o | 0 <= o < 0x2_0000 ensures At(r, pcmp, o) == if o == off then v else At(m, pcmp, o) {
        PokeAt(m, pcmp, off, v, o);
      }
    } else {
      r := m;
      SameTableAt(m1, m, pcmp, len, off);
    }
  }

  lemma TeachRoute(m1: Memory, pcmp: int, policy: Policy, len: int, off: int, legacy: set<int>, pci: set<int>)
    returns (m2: Memory)
    requires IsMemory(m1) && 0 <= pcmp && 44 <= off < 0x1_0000 && 0 <= len
    requires RouteOpen(m1, pcmp, policy, len, off, legacy, pci)
    ensures IsMemory(m2) && SameTable(m1, m2, pcmp, len)
    ensures Taught(m2, pcmp, policy, off, legacy, pci) != []
  {
    hide At, SameTable;
    SameTableSelf(m1, pcmp, len);
    var bus: Byte := 0;
    if off + 4 >= len {
      if policy.legacy && BusOpen(m1, pcmp, len, off, legacy, 16) {
        bus :| bus in legacy && 0 <= bus < 256;
      } else {
        bus :| bus in pci && 0 <= bus < 256;
      }
    }
    var a := PokePast(m1, m1, pcmp, off + 1, 0, len);
    var b := PokePast(m1, a, pcmp, off + 4, bus, len);
    var c := PokePast(m1, b, pcmp, off + 5, 0, len);
    m2 := PokePast(m1, c, pcmp, off + 7, 0, len);
  }

  /** Walks that leave the table can be led astray. */
  lemma {:induction false} StraysPart(m1: Memory, pcmp: int, bsp: Byte, policy: Policy, n: int, len: int, count: int,
      entry: int, off: int, legacy: set<int>, pci: set<int>) returns (m2: Memory)
    requires IsMemory(m1) && 0 <= entry && count < 0x1_0000 && 44 <= off <= 44 + 20 * entry
    requires Within(pcmp, n, len, off) && n < 0x1_0000 && len < 0x2_0000
    requires Strays(m1, pcmp, bsp, policy, n, len, count, entry, off, legacy, pci)
    ensures IsMemory(m2) && SameTable(m1, m2, pcmp, len)
    ensures Parts(m1, m2, pcmp, bsp, policy, Addr(pcmp, n), count, entry, off, legacy, pci)
    decreases count - entry
  {
    hide Addr, At, SameTable, Taught, BusName, IdOpen, RouteOpen, LegacyAfter, PciAfter, Wrong, Parts;
    var kind := At(m1, pcmp, off);
    if pcmp + off + Size(kind) >= SPACE {
      if entry + 1 < count {
        m2 := PlantProcessor(m1, pcmp, bsp, policy, n, len, count, entry, off, legacy, pci);
      } else if kind == 0 {
        m2 := EnableProcessor(m1, pcmp, bsp, policy, n, len, count, entry, off, legacy, pci);
      } else {
        m2 := SwitchRoute(m1, pcmp, policy, len, off, legacy, pci);
        LastRouteParts(m1, m2, pcmp, bsp, policy, n, len, count, entry, off, legacy, pci);
      }
    } else {
      var l, p := LegacyAfter(m1, pcmp, off, legacy), PciAfter(m1, pcmp, off, pci);
      m2 := StraysPart(m1, pcmp, bsp, policy, n, len, count, entry + 1, off + Size(kind), l, p);
      PartsBefore(m1, m2, pcmp, bsp, policy, n, len, count, entry, off, legacy, pci);
    }
  }

  lemma LastRouteParts(m1: Memory, m2: Memory, pcmp: int, bsp: Byte, policy: Policy, n: int, len: int, count: int,
      entry: int, off: int, legacy: set<int>, pci: set<int>)
    requires IsMemory(m1) && IsMemory(m2) && 0 <= entry && count < 0x1_0000 && 44 <= off <= 44 + 20 * entry
    requires Within(pcmp, n, len, off) && SameTable(m1, m2, pcmp, len) && off < n
    requires entry + 1 == count && At(m1, pcmp, off) == 3 && pcmp + off + 8 >= SPACE
    requires Taught(m2, pcmp, policy, off, legacy, pci) != Taught(m1, pcmp, policy, off, legacy, pci)
    ensures Parts(m1, m2, pcmp, bsp, policy, Addr(pcmp, n), count, entry, off, legacy, pci)
  {
    hide Addr, At, SameTable, Taught, BusName, LegacyAfter, PciAfter, Walk, Wrong;
    NoWrap(pcmp, n, len, off);
    SameTableAt(m1, m2, pcmp, len, off);
    LearnNext(m1, pcmp, policy, Addr(pcmp, n), count, entry, off, legacy, pci);
    LearnNext(m2, pcmp, policy, Addr(pcmp, n), count, entry, off, legacy, pci);
    var end := Addr(pcmp, n);
    var l1, p1 := LegacyAfter(m1, pcmp, off, legacy), PciAfter(m1, pcmp, off, pci);
    var l2, p2 := LegacyAfter(m2, pcmp, off, legacy), PciAfter(m2, pcmp, off, pci);
    LearnOver(m1, pcmp, policy, end, count, count, off + 8, l1, p1);
    LearnOver(m2, pcmp, policy, end, count, count, off + 8, l2, p2);
    var t1, t2 := Taught(m1, pcmp, policy, off, legacy, pci), Taught(m2, pcmp, policy, off, legacy, pci);
    assert t1 + [] == t1 && t2 + [] == t2;
  }

  /** What parts after an entry that stays in the table parts from it on. */
  lemma PartsBefore(m1: Memory, m2: Memory, pcmp: int, bsp: Byte, policy: Policy, n: int, len: int, count: int,
      entry: int, off: int, legacy: set<int>, pci: set<int>)
    requires IsMemory(m1) && IsMemory(m2) && 0 <= entry < count < 0x1_0000 && 44 <= off <= 44 + 20 * entry
    requires Within(pcmp, n, len, off) && SameTable(m1, m2, pcmp, len) && off + Size(At(m1, pcmp, off)) < n
    requires At(m1, pcmp, off) <= 4 && pcmp + off + Size(At(m1, pcmp, off)) < SPACE
    requires Parts(m1, m2, pcmp, bsp, policy, Addr(pcmp, n), count, entry + 1, off + Size(At(m1, pcmp, off)),
                   LegacyAfter(m1, pcmp, off, legacy), PciAfter(m1, pcmp, off, pci))
    ensures Parts(m1, m2, pcmp, bsp, policy, Addr(pcmp, n), count, entry, off, legacy, pci)
  {
    hide Addr, At, SameTable, Taught, BusName, LegacyAfter, PciAfter, Walk, Wrong, Learn;
    var kind, end := At(m1, pcmp, off), Addr(pcmp, n);
    NoWrap(pcmp, n, len, off);
    SameTableAt(m1, m2, pcmp, len, off);
    EntryInTable(m1, m2, pcmp, policy, len, off, legacy, pci);
    SameBuses(m1, m2, pcmp, off, legacy, pci);
    if Wrong(m2, pcmp, Walk(m2, pcmp, end, count, entry + 1, off + Size(kind)).ids, bsp) {
      CrossedWrong(m2, pcmp, bsp, n, len, count, entry, off);
    } else {
      LearnNext(m1, pcmp, policy, end, count, entry, off, legacy, pci);
      LearnNext(m2, pcmp, policy, end, count, entry, off, legacy, pci);
      var l, p := LegacyAfter(m1, pcmp, off, legacy), PciAfter(m1, pcmp, off, pci);
      Distinct(if kind == 3 then Taught(m1, pcmp, policy, off, legacy, pci) else [],
               Learn(m1, pcmp, policy, end, count, entry + 1, off + Size(kind), l, p),
               Learn(m2, pcmp, policy, end, count, entry + 1, off + Size(kind), l, p));
    }
  }

  lemma Distinct(a: seq<Route>, x: seq<Route>, y: seq<Route>)
    requires x != y
    ensures a + x != a + y
  {
    assert (a + x)[|a|..] == x && (a + y)[|a|..] == y;
  }

  /** Every memory with the bytes remembered of this table is one that a walk
      would teach the same routes and leave as it is. */
  ghost predicate MayBeSkipped(m1: Memory, pcmp: int, bsp: Byte, policy: Policy)
    requires IsMemory(m1)
  {
    forall m2: Memory :: IsMemory(m2) && SameTable(m1, m2, pcmp, TableLen(m1, pcmp)) ==>
      Routes(m2, pcmp, policy) == Routes(m1, pcmp, policy) && !NeedsRepair(m2, pcmp, bsp)
  }

  /** Of a table that the repair walks and has nothing left to do in, that is so
      if and only if its walks do not leave the bytes remembered. */
  lemma SkippedExactly(m1: Memory, pcmp: int, bsp: Byte, policy: Policy)
    requires IsMemory(m1) && 0 <= pcmp && TableLen(m1, pcmp) != 0 && Walkable(m1, pcmp)
    requires !NeedsRepair(m1, pcmp, bsp)
    ensures MayBeSkipped(m1, pcmp, bsp, policy) <==> !TableStrays(m1, pcmp, bsp, policy)
  {
    hide Walk, Learn, Strays, Wrong, SameTable, At, Word;
    if TableStrays(m1, pcmp, bsp, policy) {
      var n, len, count := BaseLen(m1, pcmp), TableLen(m1, pcmp), EntryCount(m1, pcmp);
      var m2 := StraysPart(m1, pcmp, bsp, policy, n, len, count, 0, 44, {}, {});
      SameHeader(m1, m2, pcmp, len);
      if !policy.legacy && !policy.pci {
        LearnNothing(m1, pcmp, policy, Addr(pcmp, n), count, 0, 44, {}, {});
        LearnNothing(m2, pcmp, policy, Addr(pcmp, n), count, 0, 44, {}, {});
      }
    } else {
      hide *;
      forall m2: Memory | IsMemory(m2) && SameTable(m1, m2, pcmp, TableLen(m1, pcmp))
        ensures Routes(m2, pcmp, policy) == Routes(m1, pcmp, policy) && !NeedsRepair(m2, pcmp, bsp)
      {
        StaysSettled(m1, m2, pcmp, bsp, policy);
      }
      Skippable(m1, pcmp, bsp, policy);
    }
  }

  lemma {:induction false} LearnNothing(
      m: Memory, pcmp: int, policy: Policy, end: int, count: int, entry: int, off: int, legacy: set<int>, pci: set<int>)
    requires IsMemory(m) && 0 <= entry && count < 0x1_0000 && 44 <= off <= 44 + 20 * entry
    requires !policy.legacy && !policy.pci
    ensures Learn(m, pcmp, policy, end, count, entry, off, legacy, pci) == []
    decreases count - entry
  {
    hide At, Addr, BusName, LegacyAfter, PciAfter;
    if entry < count && Addr(pcmp, off) < end {
      LearnNext(m, pcmp, policy, end, count, entry, off, legacy, pci);
      var kind := At(m, pcmp, off);
      LearnNothing(m, pcmp, policy, end, count, entry + 1, off + Size(kind),
                   LegacyAfter(m, pcmp, off, legacy), PciAfter(m, pcmp, off, pci));
    }
  }

  lemma Skippable(m1: Memory, pcmp: int, bsp: Byte, policy: Policy)
    requires IsMemory(m1)
    requires forall m2: Memory :: IsMemory(m2) && SameTable(m1, m2, pcmp, TableLen(m1, pcmp)) ==>
               Routes(m2, pcmp, policy) == Routes(m1, pcmp, policy) && !NeedsRepair(m2, pcmp, bsp)
    ensures MayBeSkipped(m1, pcmp, bsp, policy)
  {
    hide Routes, NeedsRepair, SameTable, TableLen;
  }
}
