/**
 The MP configuration table (src/apic_platform.c; Tables 4-1 and 4-2 of the
 Intel MultiProcessor Specification 1.1): the walk that sets the boot
 processor's APIC ID and redoes the checksum, and the walk that learns routes.

 Addresses are 32 bits and wrap, as the source's do.
 */
module MpRepair {
  import opened MpMemory
  import opened MpRoutes
  import opened Optional

  /** A table of MP spec 1.4 carries the extended table's length; an older one
      has none. */
  function ExtLen(m: Memory, pcmp: int): (n: int)
    requires IsMemory(m)
    ensures 0 <= n < 0x1_0000
  {
    if At(m, pcmp, 6) >= 4 then Word(m, pcmp, 40) else 0
  }

  // ---- The repair walk ----

  /** What the walk over the entries meets: the offsets of the ID bytes of
      enabled boot processor entries, and whether it gets to the end. */
  datatype Visit = Visit(ids: seq<int>, complete: bool)

  const MAX_OFFSET: int := 0x20_0000

  function Walk(m: Memory, pcmp: int, end: int, count: int, entry: int, off: int): (v: Visit)
    requires IsMemory(m) && 0 <= entry && count < 0x1_0000 && 44 <= off <= 44 + 20 * entry
    ensures forall k :: 0 <= k < |v.ids| ==> off < v.ids[k] < MAX_OFFSET
    ensures forall j, k :: 0 <= j < k < |v.ids| ==> v.ids[j] < v.ids[k]
    decreases count - entry
  {
    if entry >= count || Addr(pcmp, off) >= end then Visit([], true)
    else
      var kind := At(m, pcmp, off);
      if kind == 0 then
        if (Addr(pcmp, off) + 20) % SPACE > end then Visit([], false)
        else
          var rest := Walk(m, pcmp, end, count, entry + 1, off + 20);
          if At(m, pcmp, off + 3) % 4 == 3 then Visit([off + 1] + rest.ids, rest.complete) else rest
      else if kind <= 4 then Walk(m, pcmp, end, count, entry + 1, off + 8)
      else Visit([], false)
  }

  /** Whether the header allows a walk at all. */
  predicate Walkable(m: Memory, pcmp: int)
    requires IsMemory(m)
  {
    var n := BaseLen(m, pcmp);
    && 44 <= n && pcmp + n <= SPACE
    && (pcmp + n) % SPACE <= ((pcmp + n) % SPACE + ExtLen(m, pcmp)) % SPACE
  }

  function TableWalk(m: Memory, pcmp: int): Visit
    requires IsMemory(m)
  {
    Walk(m, pcmp, Addr(pcmp, BaseLen(m, pcmp)), EntryCount(m, pcmp), 0, 44)
  }

  /** The ID bytes at `ids` set to bsp. */
  function SetIds(m: Memory, pcmp: int, ids: seq<int>, bsp: Byte): (r: Memory)
    requires IsMemory(m)
    ensures IsMemory(r)
  {
    if ids == [] then m else SetIds(m, pcmp, ids[..|ids| - 1], bsp)[Addr(pcmp, ids[|ids| - 1]) := bsp]
  }

  predicate Wrong(m: Memory, pcmp: int, ids: seq<int>, bsp: Byte)
    requires IsMemory(m)
  {
    exists k :: 0 <= k < |ids| && At(m, pcmp, ids[k]) != bsp
  }

  /** The checksum byte redone over the base table. */
  function FixChecksum(m: Memory, pcmp: int, n: nat): (r: Memory)
    requires IsMemory(m)
    ensures IsMemory(r)
  {
    var z := m[Addr(pcmp, 7) := 0];
    z[Addr(pcmp, 7) := (0 - Sum(z, pcmp, n)) % 256]
  }

  /** apic_platform_mp_fixup_processor_lapic_ids, as its effect on memory. */
  function Repaired(m: Memory, pcmp: int, bsp: Byte): (r: Memory)
    requires IsMemory(m)
    ensures IsMemory(r)
  {
    if !Walkable(m, pcmp) then m
    else
      var v := TableWalk(m, pcmp);
      var s := SetIds(m, pcmp, v.ids, bsp);
      if v.complete && Wrong(m, pcmp, v.ids, bsp) then FixChecksum(s, pcmp, BaseLen(m, pcmp)) else s
  }

  // ---- Bytes ----

  lemma SameByte(pcmp: int, a: int, b: int)
    requires 0 <= a < SPACE && 0 <= b < SPACE && Addr(pcmp, a) == Addr(pcmp, b)
    ensures a == b
  {
  }

  lemma {:induction false} SetIdsAt(m: Memory, pcmp: int, ids: seq<int>, bsp: Byte, off: int)
    requires IsMemory(m) && 0 <= off < SPACE
    requires forall k :: 0 <= k < |ids| ==> 0 <= ids[k] < SPACE
    ensures At(SetIds(m, pcmp, ids, bsp), pcmp, off) == if off in ids then bsp else At(m, pcmp, off)
  {
    hide Addr;
    if ids != [] {
      var n := |ids| - 1;
      SetIdsAt(m, pcmp, ids[..n], bsp, off);
      assert ids == ids[..n] + [ids[n]];
      if off != ids[n] && Addr(pcmp, off) == Addr(pcmp, ids[n]) { SameByte(pcmp, off, ids[n]); }
    }
  }

  /** Setting bytes that hold the value already changes nothing. */
  lemma {:induction false} SetIdsRight(m: Memory, pcmp: int, ids: seq<int>, bsp: Byte)
    requires IsMemory(m) && !Wrong(m, pcmp, ids, bsp)
    ensures SetIds(m, pcmp, ids, bsp) == m
  {
    hide Addr;
    if ids != [] {
      var n := |ids| - 1;
      assert forall k :: 0 <= k < n ==> ids[..n][k] == ids[k];
      SetIdsRight(m, pcmp, ids[..n], bsp);
      assert At(m, pcmp, ids[n]) == bsp;
      assert m[Addr(pcmp, ids[n]) := bsp] == m;
    }
  }

  /** Every address is some offset from the table. */
  lemma OffsetOf(pcmp: int, a: int) returns (off: int)
    requires 0 <= a < SPACE
    ensures 0 <= off < SPACE && Addr(pcmp, off) == a
  {
    off := (a - pcmp) % SPACE;
  }

  lemma {:induction false} SumUpdate(m: Memory, pcmp: int, n: nat, off: int, v: Byte)
    requires IsMemory(m) && n <= SPACE && 0 <= off < SPACE
    ensures Sum(m[Addr(pcmp, off) := v], pcmp, n) == Sum(m, pcmp, n) + if off < n then v - At(m, pcmp, off) else 0
  {
    hide Addr;
    if n > 0 {
      SumUpdate(m, pcmp, n - 1, off, v);
      if off != n - 1 && Addr(pcmp, off) == Addr(pcmp, n - 1) { SameByte(pcmp, off, n - 1); }
    }
  }

  /** Checksummed, the base table sums to zero. */
  lemma FixChecksumSums(m: Memory, pcmp: int, n: nat)
    requires IsMemory(m) && 8 <= n <= SPACE
    ensures Sum(FixChecksum(m, pcmp, n), pcmp, n) % 256 == 0
  {
    hide Addr;
    var z := m[Addr(pcmp, 7) := 0];
    var c := (0 - Sum(z, pcmp, n)) % 256;
    SumUpdate(z, pcmp, n, 7, c);
    var s := Sum(z, pcmp, n);
    ModNeg(s);
  }

  lemma ModNeg(s: int)
    ensures (s + (0 - s) % 256) % 256 == 0
  {
  }

  lemma FixChecksumAt(m: Memory, pcmp: int, n: nat, off: int)
    requires IsMemory(m) && 0 <= off < SPACE && off != 7
    ensures At(FixChecksum(m, pcmp, n), pcmp, off) == At(m, pcmp, off)
  {
    hide Sum;
    if Addr(pcmp, off) == Addr(pcmp, 7) { SameByte(pcmp, off, 7); }
  }

  // ---- What the repair does ----

  /** Only ID bytes of enabled boot processor entries and the checksum byte
      change; and each of those entries holds the boot processor's ID. */
  lemma RepairBytes(m: Memory, pcmp: int, bsp: Byte, off: int)
    requires IsMemory(m) && 0 <= off < SPACE && Walkable(m, pcmp)
    ensures var v := TableWalk(m, pcmp); var r := Repaired(m, pcmp, bsp);
            && (off in v.ids ==> At(r, pcmp, off) == bsp)
            && (off !in v.ids && off != 7 ==> At(r, pcmp, off) == At(m, pcmp, off))
            && (off == 7 && !(v.complete && Wrong(m, pcmp, v.ids, bsp)) ==> At(r, pcmp, off) == At(m, pcmp, off))
  {
    hide SetIds, FixChecksum, Walk, Addr, Walkable;
    var v := TableWalk(m, pcmp);
    SetIdsAt(m, pcmp, v.ids, bsp, off);
    if off != 7 { FixChecksumAt(SetIds(m, pcmp, v.ids, bsp), pcmp, BaseLen(m, pcmp), off); }
  }

  /** A walk that gets to the end and had something to patch leaves a base
      table summing to zero. */
  lemma RepairChecksum(m: Memory, pcmp: int, bsp: Byte)
    requires IsMemory(m) && Walkable(m, pcmp)
    requires var v := TableWalk(m, pcmp); v.complete && Wrong(m, pcmp, v.ids, bsp)
    ensures Sum(Repaired(m, pcmp, bsp), pcmp, BaseLen(m, pcmp)) % 256 == 0
  {
    hide SetIds, FixChecksum, Walk, Addr;
    FixChecksumSums(SetIds(m, pcmp, TableWalk(m, pcmp).ids, bsp), pcmp, BaseLen(m, pcmp));
  }

  // ---- The repair, by the bytes ----

  /** An entry the repair meets: it starts below the table's end, its type is
      known, and a processor is all there. */
  predicate RepairMet(m: Memory, pcmp: int, off: int)
    requires IsMemory(m)
  {
    var end := (pcmp + At(m, pcmp, 4) + 0x100 * At(m, pcmp, 5)) % SPACE;
    var at := (pcmp + off) % SPACE;
    at < end && At(m, pcmp, off) <= 4 && (At(m, pcmp, off) == 0 ==> (at + 20) % SPACE <= end)
  }

  /** The entries it meets, up to the count the header gives. */
  predicate RepairWalk(m: Memory, pcmp: int, offs: seq<int>)
    requires IsMemory(m)
  {
    var count := At(m, pcmp, 34) + 0x100 * At(m, pcmp, 35);
    && |offs| <= count
    && (forall j :: 0 <= j < |offs| ==> offs[j] == After(m, pcmp, offs[..j]) && RepairMet(m, pcmp, offs[j]))
    && (|offs| == count || !RepairMet(m, pcmp, After(m, pcmp, offs)))
  }

  /** It gets to the end of the entries. */
  predicate ToTheEnd(m: Memory, pcmp: int, offs: seq<int>)
    requires IsMemory(m)
  {
    || |offs| == At(m, pcmp, 34) + 0x100 * At(m, pcmp, 35)
    || (pcmp + After(m, pcmp, offs)) % SPACE >= (pcmp + At(m, pcmp, 4) + 0x100 * At(m, pcmp, 5)) % SPACE
  }

  /** The ID byte of a processor entry with both the enabled and the boot
      processor flag. */
  predicate BootId(m: Memory, pcmp: int, offs: seq<int>, o: int)
    requires IsMemory(m)
  {
    exists j :: 0 <= j < |offs| && At(m, pcmp, offs[j]) == 0 && At(m, pcmp, offs[j] + 3) % 4 == 3 && o == offs[j] + 1
  }

  /** A table that can be walked: a header, all of it below 4 GB, and an extended
      part, if its revision has one, that does not wrap. */
  predicate HeaderRight(m: Memory, pcmp: int)
    requires IsMemory(m)
  {
    var n := At(m, pcmp, 4) + 0x100 * At(m, pcmp, 5);
    var ext := if At(m, pcmp, 6) >= 4 then At(m, pcmp, 40) + 0x100 * At(m, pcmp, 41) else 0;
    44 <= n && pcmp + n <= SPACE && (pcmp + n) % SPACE <= ((pcmp + n) % SPACE + ext) % SPACE
  }

  /** Table r is table m repaired: every boot ID is bsp, and where that changed
      something and the walk got to the end the base table sums to zero; no
      other byte changed. */
  ghost predicate RepairOf(m: Memory, pcmp: int, bsp: Byte, r: Memory, offs: seq<int>)
    requires IsMemory(m) && IsMemory(r)
  {
    var wrong := exists o :: BootId(m, pcmp, offs, o) && At(m, pcmp, o) != bsp;
    var redone := wrong && ToTheEnd(m, pcmp, offs);
    && (forall o :: BootId(m, pcmp, offs, o) ==> At(r, pcmp, o) == bsp)
    && (forall o :: 0 <= o < SPACE && !BootId(m, pcmp, offs, o) && (o != 7 || !redone) ==>
          At(r, pcmp, o) == At(m, pcmp, o))
    && (redone ==> Sum(r, pcmp, At(m, pcmp, 4) + 0x100 * At(m, pcmp, 5)) % 256 == 0)
  }

  lemma HeaderIs(m: Memory, pcmp: int)
    requires IsMemory(m)
    ensures HeaderRight(m, pcmp) <==> Walkable(m, pcmp)
  {
    hide At;
  }

  lemma WalkStops(m: Memory, pcmp: int, entry: int, off: int)
    requires IsMemory(m) && 0 <= entry <= EntryCount(m, pcmp) && 44 <= off <= 44 + 20 * entry
    requires entry == EntryCount(m, pcmp) || !RepairMet(m, pcmp, off)
    ensures var v := Walk(m, pcmp, Addr(pcmp, BaseLen(m, pcmp)), EntryCount(m, pcmp), entry, off);
            && v.ids == []
            && (v.complete <==> entry == EntryCount(m, pcmp) || Addr(pcmp, off) >= Addr(pcmp, BaseLen(m, pcmp)))
  {
    hide At;
  }

  lemma WalkGoesOn(m: Memory, pcmp: int, entry: int, off: int)
    requires IsMemory(m) && 0 <= entry < EntryCount(m, pcmp) && 44 <= off <= 44 + 20 * entry
    requires RepairMet(m, pcmp, off)
    ensures var end, count := Addr(pcmp, BaseLen(m, pcmp)), EntryCount(m, pcmp);
            var v := Walk(m, pcmp, end, count, entry, off);
            var rest := Walk(m, pcmp, end, count, entry + 1, off + if At(m, pcmp, off) == 0 then 20 else 8);
            && v.complete == rest.complete
            && v.ids == if At(m, pcmp, off) == 0 && At(m, pcmp, off + 3) % 4 == 3 then [off + 1] + rest.ids
                        else rest.ids
  {
    hide At;
  }

  lemma {:induction false} WalkIs(m: Memory, pcmp: int, offs: seq<int>, j: int, off: int)
    requires IsMemory(m) && RepairWalk(m, pcmp, offs) && 0 <= j <= |offs|
    requires off == After(m, pcmp, offs[..j]) && 44 <= off <= 44 + 20 * j
    ensures var v := Walk(m, pcmp, Addr(pcmp, BaseLen(m, pcmp)), EntryCount(m, pcmp), j, off);
            && (v.complete <==> ToTheEnd(m, pcmp, offs))
            && (forall o :: o in v.ids <==> BootAfter(m, pcmp, offs, j, o))
    decreases |offs| - j
  {
    hide At, Walk, RepairMet, BootAfter;
    if j == |offs| {
      assert offs[..j] == offs;
      WalkStops(m, pcmp, j, off);
      forall o ensures !BootAfter(m, pcmp, offs, j, o) { NoneAfter(m, pcmp, offs, o); }
    } else {
      assert offs[j] == After(m, pcmp, offs[..j]) && RepairMet(m, pcmp, offs[j]);
      assert offs[..j + 1][j] == offs[j] && |offs[..j + 1]| == j + 1;
      WalkGoesOn(m, pcmp, j, off);
      WalkIs(m, pcmp, offs, j + 1, After(m, pcmp, offs[..j + 1]));
      forall o ensures BootAfter(m, pcmp, offs, j, o) <==>
          BootAfter(m, pcmp, offs, j + 1, o) ||
          (At(m, pcmp, off) == 0 && At(m, pcmp, off + 3) % 4 == 3 && o == off + 1) {
        BootStep(m, pcmp, offs, j, o);
      }
    }
  }

  lemma NoneAfter(m: Memory, pcmp: int, offs: seq<int>, o: int)
    requires IsMemory(m)
    ensures !BootAfter(m, pcmp, offs, |offs|, o)
  {
  }

  predicate BootAfter(m: Memory, pcmp: int, offs: seq<int>, i: int, o: int)
    requires IsMemory(m) && 0 <= i
  {
    exists j :: i <= j < |offs| && At(m, pcmp, offs[j]) == 0 && At(m, pcmp, offs[j] + 3) % 4 == 3 && o == offs[j] + 1
  }

  lemma BootStep(m: Memory, pcmp: int, offs: seq<int>, i: int, o: int)
    requires IsMemory(m) && 0 <= i < |offs|
    ensures BootAfter(m, pcmp, offs, i, o) <==>
            BootAfter(m, pcmp, offs, i + 1, o) ||
            (At(m, pcmp, offs[i]) == 0 && At(m, pcmp, offs[i] + 3) % 4 == 3 && o == offs[i] + 1)
  {
    hide At;
  }

  lemma {:induction false} RepairWalkOn(m: Memory, pcmp: int, offs: seq<int>) returns (all: seq<int>)
    requires IsMemory(m) && |offs| <= EntryCount(m, pcmp)
    requires forall j :: 0 <= j < |offs| ==> offs[j] == After(m, pcmp, offs[..j]) && RepairMet(m, pcmp, offs[j])
    ensures RepairWalk(m, pcmp, all)
    decreases EntryCount(m, pcmp) - |offs|
  {
    hide At, RepairMet, After;
    var next := After(m, pcmp, offs);
    if |offs| == EntryCount(m, pcmp) || !RepairMet(m, pcmp, next) {
      all := offs;
    } else {
      var more := offs + [next];
      forall j | 0 <= j < |more| ensures more[j] == After(m, pcmp, more[..j]) && RepairMet(m, pcmp, more[j]) {
        assert more[..j] == offs[..j];
        if j == |offs| { assert offs[..j] == offs; }
      }
      all := RepairWalkOn(m, pcmp, more);
    }
  }

  /** Memory r is m with the table at pcmp repaired, if its header is right. */
  ghost predicate FixedUp(m: Memory, pcmp: int, bsp: Byte, r: Memory)
    requires IsMemory(m) && IsMemory(r)
  {
    if HeaderRight(m, pcmp) then exists offs :: RepairWalk(m, pcmp, offs) && RepairOf(m, pcmp, bsp, r, offs)
    else r == m
  }

  /** The repair of a table is what its bytes say, for the entries it meets. */
  lemma RepairByBytes(m: Memory, pcmp: int, bsp: Byte)
    requires IsMemory(m)
    ensures FixedUp(m, pcmp, bsp, Repaired(m, pcmp, bsp))
  {
    hide At, Walk, SetIds, FixChecksum, RepairWalk, HeaderRight, Walkable, ToTheEnd, Sum, After, BootId;
    HeaderIs(m, pcmp);
    if HeaderRight(m, pcmp) {
      var offs := RepairWalkOn(m, pcmp, []);
      var v, r := TableWalk(m, pcmp), Repaired(m, pcmp, bsp);
      IdsAre(m, pcmp, offs);
      forall o | 0 <= o < SPACE
        ensures (BootId(m, pcmp, offs, o) ==> At(r, pcmp, o) == bsp)
        ensures !BootId(m, pcmp, offs, o) && (o != 7 || !(v.complete && Wrong(m, pcmp, v.ids, bsp))) ==>
                  At(r, pcmp, o) == At(m, pcmp, o)
      {
        RepairBytes(m, pcmp, bsp, o);
      }
      if v.complete && Wrong(m, pcmp, v.ids, bsp) { RepairChecksum(m, pcmp, bsp); }
      assert RepairOf(m, pcmp, bsp, r, offs);
    }
  }

  lemma IdsAre(m: Memory, pcmp: int, offs: seq<int>)
    requires IsMemory(m) && RepairWalk(m, pcmp, offs)
    ensures TableWalk(m, pcmp).complete <==> ToTheEnd(m, pcmp, offs)
    ensures forall o :: o in TableWalk(m, pcmp).ids <==> BootId(m, pcmp, offs, o)
    ensures forall o :: BootId(m, pcmp, offs, o) ==> 0 <= o < SPACE
  {
    hide At, Walk, RepairMet, ToTheEnd;
    assert offs[..0] == [];
    WalkIs(m, pcmp, offs, 0, 44);
  }

  /** What the ID bytes inside the base table change its sum by. */
  function Change(m: Memory, pcmp: int, ids: seq<int>, bsp: Byte, n: int): int
    requires IsMemory(m)
  {
    if ids == [] then 0
    else
      var i := ids[|ids| - 1];
      Change(m, pcmp, ids[..|ids| - 1], bsp, n) + if i < n then bsp - At(m, pcmp, i) else 0
  }

  lemma {:induction false} SetIdsSum(m: Memory, pcmp: int, ids: seq<int>, bsp: Byte, n: nat)
    requires IsMemory(m) && n <= SPACE
    requires forall k :: 0 <= k < |ids| ==> 0 <= ids[k] < SPACE
    requires forall j, k :: 0 <= j < k < |ids| ==> ids[j] < ids[k]
    ensures Sum(SetIds(m, pcmp, ids, bsp), pcmp, n) == Sum(m, pcmp, n) + Change(m, pcmp, ids, bsp, n)
  {
    hide Addr, At;
    if ids != [] {
      var k := |ids| - 1;
      SetIdsSum(m, pcmp, ids[..k], bsp, n);
      SetIdsAt(m, pcmp, ids[..k], bsp, ids[k]);
      assert ids[k] !in ids[..k];
      SumUpdate(SetIds(m, pcmp, ids[..k], bsp), pcmp, n, ids[k], bsp);
    }
  }

  /** A walk that stops early leaves the checksum as it was: the sum moves by
      exactly what the patches changed. So a table that summed to zero still
      does if and only if those changes cancel. */
  lemma EarlyExitSum(m: Memory, pcmp: int, bsp: Byte)
    requires IsMemory(m) && Walkable(m, pcmp) && !TableWalk(m, pcmp).complete
    ensures var n := BaseLen(m, pcmp); var r := Repaired(m, pcmp, bsp);
            var change := Change(m, pcmp, TableWalk(m, pcmp).ids, bsp, n);
            && Sum(r, pcmp, n) == Sum(m, pcmp, n) + change
            && (Sum(m, pcmp, n) % 256 == 0 ==> (Sum(r, pcmp, n) % 256 == 0 <==> change % 256 == 0))
  {
    hide SetIds, FixChecksum, Walk, Addr, Change;
    var v := TableWalk(m, pcmp);
    SetIdsSum(m, pcmp, v.ids, bsp, BaseLen(m, pcmp));
    ModSum(Sum(m, pcmp, BaseLen(m, pcmp)), Change(m, pcmp, v.ids, bsp, BaseLen(m, pcmp)));
  }

  /** One of the ID bytes is wrong, the others right. */
  ghost predicate OnlyWrong(m: Memory, pcmp: int, ids: seq<int>, bsp: Byte, k: int)
    requires IsMemory(m)
  {
    && 0 <= k < |ids| && At(m, pcmp, ids[k]) != bsp
    && forall j :: 0 <= j < |ids| && j != k ==> At(m, pcmp, ids[j]) == bsp
  }

  lemma {:induction false} OneChange(m: Memory, pcmp: int, ids: seq<int>, bsp: Byte, n: int, k: int)
    requires IsMemory(m) && 0 <= k && forall j :: 0 <= j < |ids| && j != k ==> At(m, pcmp, ids[j]) == bsp
    requires k < |ids| ==> ids[k] < n
    ensures Change(m, pcmp, ids, bsp, n) == if k < |ids| then bsp - At(m, pcmp, ids[k]) else 0
  {
    hide At;
    if ids != [] { OneChange(m, pcmp, ids[..|ids| - 1], bsp, n, k); }
  }

  /** A walk that stops early with exactly one ID to set inside the base table
      breaks the checksum of every table that had a right one. */
  lemma EarlyExitBreaks(m: Memory, pcmp: int, bsp: Byte, k: int)
    requires IsMemory(m) && Walkable(m, pcmp) && !TableWalk(m, pcmp).complete
    requires OnlyWrong(m, pcmp, TableWalk(m, pcmp).ids, bsp, k) && TableWalk(m, pcmp).ids[k] < BaseLen(m, pcmp)
    requires Sum(m, pcmp, BaseLen(m, pcmp)) % 256 == 0
    ensures Sum(Repaired(m, pcmp, bsp), pcmp, BaseLen(m, pcmp)) % 256 != 0
  {
    hide Repaired, Walk, Addr, At, Walkable, Sum, Change;
    var ids := TableWalk(m, pcmp).ids;
    EarlyExitSum(m, pcmp, bsp);
    OneChange(m, pcmp, ids, bsp, BaseLen(m, pcmp), k);
    ByteDifference(bsp, At(m, pcmp, ids[k]));
  }

  lemma ByteDifference(a: Byte, b: Byte)
    requires a != b
    ensures (a - b) % 256 != 0
  {
    if a > b { assert (a - b) % 256 == a - b; } else { assert (a - b) % 256 == a - b + 256; }
  }

  lemma ModSum(a: int, b: int)
    ensures a % 256 == 0 ==> ((a + b) % 256 == 0 <==> b % 256 == 0)
  {
  }

  // ---- Walking again ----

  /** m2 has m1's bytes from `off` on, except maybe at `ids`. */
  ghost predicate AgreeFrom(m1: Memory, m2: Memory, pcmp: int, off: int, ids: seq<int>)
    requires IsMemory(m1) && IsMemory(m2)
  {
    forall o :: off <= o < MAX_OFFSET && o !in ids ==> At(m1, pcmp, o) == At(m2, pcmp, o)
  }

  lemma AgreeAt(m1: Memory, m2: Memory, pcmp: int, off: int, ids: seq<int>, o: int)
    requires IsMemory(m1) && IsMemory(m2) && AgreeFrom(m1, m2, pcmp, off, ids)
    requires off <= o < MAX_OFFSET && o !in ids
    ensures At(m1, pcmp, o) == At(m2, pcmp, o)
  {
  }

  lemma AgreeLater(m1: Memory, m2: Memory, pcmp: int, off: int, ids: seq<int>, later: int, rest: seq<int>)
    requires IsMemory(m1) && IsMemory(m2) && AgreeFrom(m1, m2, pcmp, off, ids)
    requires off <= later && forall o :: o in ids ==> o in rest || o < later
    ensures AgreeFrom(m1, m2, pcmp, later, rest)
  {
    hide At;
  }

  /** The ID bytes a walk patches are not bytes it looks at. */
  lemma {:induction false} WalkAgain(m1: Memory, m2: Memory, pcmp: int, end: int, count: int, entry: int, off: int)
    requires IsMemory(m1) && IsMemory(m2) && 0 <= entry && count < 0x1_0000 && 44 <= off <= 44 + 20 * entry
    requires AgreeFrom(m1, m2, pcmp, off, Walk(m1, pcmp, end, count, entry, off).ids)
    ensures Walk(m2, pcmp, end, count, entry, off) == Walk(m1, pcmp, end, count, entry, off)
    decreases count - entry
  {
    hide Addr, At, AgreeFrom;
    if entry < count && Addr(pcmp, off) < end {
      var ids := Walk(m1, pcmp, end, count, entry, off).ids;
      AgreeAt(m1, m2, pcmp, off, ids, off);
      var kind := At(m1, pcmp, off);
      if kind == 0 {
        if (Addr(pcmp, off) + 20) % SPACE <= end {
          var rest := Walk(m1, pcmp, end, count, entry + 1, off + 20).ids;
          AgreeAt(m1, m2, pcmp, off, ids, off + 3);
          AgreeLater(m1, m2, pcmp, off, ids, off + 20, rest);
          WalkAgain(m1, m2, pcmp, end, count, entry + 1, off + 20);
        }
      } else if kind <= 4 {
        AgreeLater(m1, m2, pcmp, off, ids, off + 8, ids);
        WalkAgain(m1, m2, pcmp, end, count, entry + 1, off + 8);
      }
    }
  }

  /** The repair leaves the header and the walk's way as they were. */
  lemma RepairKeepsWalk(m: Memory, pcmp: int, bsp: Byte)
    requires IsMemory(m) && Walkable(m, pcmp)
    ensures var r := Repaired(m, pcmp, bsp);
            && BaseLen(r, pcmp) == BaseLen(m, pcmp) && EntryCount(r, pcmp) == EntryCount(m, pcmp)
            && ExtLen(r, pcmp) == ExtLen(m, pcmp) && Walkable(r, pcmp) && TableWalk(r, pcmp) == TableWalk(m, pcmp)
  {
    hide Repaired, Walk, Addr, At;
    var r, v := Repaired(m, pcmp, bsp), TableWalk(m, pcmp);
    forall off | 0 <= off < 44 && off != 7 ensures At(r, pcmp, off) == At(m, pcmp, off) {
      RepairBytes(m, pcmp, bsp, off);
    }
    assert AgreeFrom(m, r, pcmp, 44, v.ids) by {
      forall o | 44 <= o < MAX_OFFSET && o !in v.ids ensures At(m, pcmp, o) == At(r, pcmp, o) {
        RepairBytes(m, pcmp, bsp, o);
      }
    }
    WalkAgain(m, r, pcmp, Addr(pcmp, BaseLen(m, pcmp)), EntryCount(m, pcmp), 0, 44);
  }

  lemma NothingWrong(m: Memory, pcmp: int, bsp: Byte)
    requires IsMemory(m) && (Walkable(m, pcmp) ==> !Wrong(m, pcmp, TableWalk(m, pcmp).ids, bsp))
    ensures Repaired(m, pcmp, bsp) == m
  {
    hide Walk, Addr, At, SetIds, FixChecksum;
    if Walkable(m, pcmp) { SetIdsRight(m, pcmp, TableWalk(m, pcmp).ids, bsp); }
  }

  /** What the repair would change: an enabled boot processor entry, met by the
      walk, without the boot processor's ID. */
  predicate NeedsRepair(m: Memory, pcmp: int, bsp: Byte)
    requires IsMemory(m)
  {
    Walkable(m, pcmp) && Wrong(m, pcmp, TableWalk(m, pcmp).ids, bsp)
  }

  /** The repair writes something exactly when there is something to repair. */
  lemma RepairWrites(m: Memory, pcmp: int, bsp: Byte)
    requires IsMemory(m)
    ensures Repaired(m, pcmp, bsp) != m <==> NeedsRepair(m, pcmp, bsp)
  {
    hide Repaired, Walk, Addr, At, Walkable;
    if NeedsRepair(m, pcmp, bsp) {
      var ids := TableWalk(m, pcmp).ids;
      var k :| 0 <= k < |ids| && At(m, pcmp, ids[k]) != bsp;
      RepairBytes(m, pcmp, bsp, ids[k]);
    } else {
      NothingWrong(m, pcmp, bsp);
    }
  }

  lemma RepairedRight(m: Memory, pcmp: int, bsp: Byte)
    requires IsMemory(m) && Walkable(m, pcmp)
    ensures !Wrong(Repaired(m, pcmp, bsp), pcmp, TableWalk(m, pcmp).ids, bsp)
  {
    hide Repaired, Walk, Addr, At;
    var ids := TableWalk(m, pcmp).ids;
    forall k | 0 <= k < |ids| ensures At(Repaired(m, pcmp, bsp), pcmp, ids[k]) == bsp {
      RepairBytes(m, pcmp, bsp, ids[k]);
    }
  }

  /** Repairing a repaired table does nothing, however the first walk ended. */
  lemma RepairIdempotent(m: Memory, pcmp: int, bsp: Byte)
    requires IsMemory(m)
    ensures Repaired(Repaired(m, pcmp, bsp), pcmp, bsp) == Repaired(m, pcmp, bsp)
  {
    hide Walk, Addr, At, Wrong, SetIds, FixChecksum;
    if Walkable(m, pcmp) {
      RepairKeepsWalk(m, pcmp, bsp);
      RepairedRight(m, pcmp, bsp);
      NothingWrong(Repaired(m, pcmp, bsp), pcmp, bsp);
    }
  }

  // ---- Learning routes ----

  /** Neither learning nor what it learns looks at the ID bytes the repair
      patches: the two walks step together until one stops. */
  lemma {:induction false} LearnIgnoresIds(
      m1: Memory, m2: Memory, pcmp: int, policy: Policy, end: int, count: int, entry: int, off: int,
          legacy: set<int>, pci: set<int>,
      ids: seq<int>)
    requires IsMemory(m1) && IsMemory(m2) && 0 <= entry && count < 0x1_0000 && 44 <= off <= 44 + 20 * entry
    requires ids == [] || ids == Walk(m1, pcmp, end, count, entry, off).ids
    requires AgreeFrom(m1, m2, pcmp, off, ids)
    ensures Learn(m2, pcmp, policy, end, count, entry, off, legacy, pci) ==
        Learn(m1, pcmp, policy, end, count, entry, off, legacy, pci)
    decreases count - entry
  {
    hide Addr, At, AgreeFrom, Taught, BusName;
    if entry < count && Addr(pcmp, off) < end {
      AgreeAt(m1, m2, pcmp, off, ids, off);
      var kind := At(m1, pcmp, off);
      if kind == 0 {
        var rest := if ids == [] || (Addr(pcmp, off) + 20) % SPACE > end then []
                    else Walk(m1, pcmp, end, count, entry + 1, off + 20).ids;
        AgreeLater(m1, m2, pcmp, off, ids, off + 20, rest);
        LearnIgnoresIds(m1, m2, pcmp, policy, end, count, entry + 1, off + 20, legacy, pci, rest);
      } else if kind <= 4 {
        AgreeLater(m1, m2, pcmp, off, ids, off + 8, ids);
        SameEntry(m1, m2, pcmp, policy, off, legacy, pci, ids);
        var id, name := At(m1, pcmp, off + 1), BusName(m1, pcmp, off);
        var isBus := kind == 1 && (Addr(pcmp, off) + 8) % SPACE <= end;
        var l := if isBus && (name == ISA || name == EISA || name == MCA) then legacy + {id} else legacy;
        var p := if isBus && !(name == ISA || name == EISA || name == MCA) && name == PCI then pci + {id} else pci;
        LearnIgnoresIds(m1, m2, pcmp, policy, end, count, entry + 1, off + 8, l, p, ids);
      }
    }
  }

  /** An eight byte entry none of whose bytes differ reads the same. */
  lemma SameEntry(m1: Memory, m2: Memory, pcmp: int, policy: Policy, off: int, legacy: set<int>, pci: set<int>,
      ids: seq<int>)
    requires IsMemory(m1) && IsMemory(m2) && 44 <= off < MAX_OFFSET - 8 && AgreeFrom(m1, m2, pcmp, off, ids)
    requires forall k :: 0 <= k < |ids| ==> ids[k] > off + 8
    ensures At(m2, pcmp, off + 1) == At(m1, pcmp, off + 1) && BusName(m2, pcmp, off) == BusName(m1, pcmp, off)
    ensures Taught(m2, pcmp, policy, off, legacy, pci) == Taught(m1, pcmp, policy, off, legacy, pci)
  {
    hide At, AgreeFrom, CString, Trimmed;
    AgreeAt(m1, m2, pcmp, off, ids, off + 1);
    AgreeAt(m1, m2, pcmp, off, ids, off + 2);
    AgreeAt(m1, m2, pcmp, off, ids, off + 3);
    AgreeAt(m1, m2, pcmp, off, ids, off + 4);
    AgreeAt(m1, m2, pcmp, off, ids, off + 5);
    AgreeAt(m1, m2, pcmp, off, ids, off + 6);
    AgreeAt(m1, m2, pcmp, off, ids, off + 7);
  }

  /** Repairing a table does not change what it teaches. */
  lemma RepairKeepsRoutes(m: Memory, pcmp: int, bsp: Byte, policy: Policy)
    requires IsMemory(m)
    ensures Routes(Repaired(m, pcmp, bsp), pcmp, policy) == Routes(m, pcmp, policy)
  {
    if Walkable(m, pcmp) {
      var r, v := Repaired(m, pcmp, bsp), TableWalk(m, pcmp);
      RepairKeepsWalk(m, pcmp, bsp);
      RepairAgrees(m, pcmp, bsp);
      hide Repaired, Walk, Addr, At, Learn, AgreeFrom;
      LearnIgnoresIds(m, r, pcmp, policy, Addr(pcmp, BaseLen(m, pcmp)), EntryCount(m, pcmp), 0, 44, {}, {}, v.ids);
    }
  }

  lemma RepairAgrees(m: Memory, pcmp: int, bsp: Byte)
    requires IsMemory(m) && Walkable(m, pcmp)
    ensures AgreeFrom(m, Repaired(m, pcmp, bsp), pcmp, 44, TableWalk(m, pcmp).ids)
  {
    hide Repaired, Walk, Addr, At;
    forall o | 44 <= o < MAX_OFFSET && o !in TableWalk(m, pcmp).ids
        ensures At(m, pcmp, o) == At(Repaired(m, pcmp, bsp), pcmp, o) {
      RepairBytes(m, pcmp, bsp, o);
    }
  }

  // ---- Remembering a table ----

  /** Bytes [0, n) of the table are the same in both memories. */
  ghost predicate SameTable(m1: Memory, m2: Memory, pcmp: int, n: int)
    requires IsMemory(m1) && IsMemory(m2)
  {
    forall o :: 0 <= o < n ==> At(m1, pcmp, o) == At(m2, pcmp, o)
  }

  lemma SameTableAt(m1: Memory, m2: Memory, pcmp: int, n: int, o: int)
    requires IsMemory(m1) && IsMemory(m2) && SameTable(m1, m2, pcmp, n) && 0 <= o < n
    ensures At(m1, pcmp, o) == At(m2, pcmp, o)
  {
  }

  /** The buses known after a bus entry. */
  function LegacyAfter(m: Memory, pcmp: int, off: int, legacy: set<int>): set<int>
    requires IsMemory(m)
  {
    var name := BusName(m, pcmp, off);
    if At(m, pcmp, off) == 1 && (name == ISA || name == EISA || name == MCA) then legacy + {At(m, pcmp, off + 1)}
    else legacy
  }

  function PciAfter(m: Memory, pcmp: int, off: int, pci: set<int>): set<int>
    requires IsMemory(m)
  {
    if At(m, pcmp, off) == 1 && BusName(m, pcmp, off) == PCI then pci + {At(m, pcmp, off + 1)} else pci
  }

  /** Bytes past the first `len` decide whether a processor entry has an ID to
      set. */
  predicate IdOpen(m: Memory, pcmp: int, bsp: Byte, len: int, off: int)
    requires IsMemory(m)
  {
    off + 3 >= len && (off + 1 >= len || At(m, pcmp, off + 1) != bsp)
  }

  /** Bytes past the first `len` can make an interrupt entry one from a bus
      given, with a source below the limit. */
  predicate BusOpen(m: Memory, pcmp: int, len: int, off: int, buses: set<int>, limit: int)
    requires IsMemory(m)
  {
    && (if off + 4 < len then At(m, pcmp, off + 4) in buses else exists b :: b in buses && 0 <= b < 256)
    && (off + 5 < len ==> At(m, pcmp, off + 5) < limit)
  }

  /** They decide whether it teaches a route. */
  predicate RouteOpen(m: Memory, pcmp: int, policy: Policy, len: int, off: int, legacy: set<int>, pci: set<int>)
    requires IsMemory(m)
  {
    && off + 7 >= len && (off + 1 < len ==> At(m, pcmp, off + 1) == 0)
    && (|| (policy.legacy && BusOpen(m, pcmp, len, off, legacy, 16))
        || (policy.pci && BusOpen(m, pcmp, len, off, pci, 128)))
  }

  /** The walks come to depend on bytes past the first `len`: an entry met in the
      base table (of n bytes) reaches 4 GB, so that the end is taken for far
      away, and another is to follow it, or what it says is past those bytes. */
  predicate Strays(m: Memory, pcmp: int, bsp: Byte, policy: Policy, n: int, len: int, count: int, entry: int, off: int,
      legacy: set<int>, pci: set<int>)
    requires IsMemory(m) && 0 <= entry && count < 0x1_0000 && 44 <= off <= 44 + 20 * entry
    decreases count - entry
  {
    entry < count && off < n &&
    var kind := At(m, pcmp, off);
    kind <= 4 &&
    if pcmp + off + Size(kind) >= SPACE then
      || entry + 1 < count
      || (kind == 0 && IdOpen(m, pcmp, bsp, len, off))
      || (kind == 3 && RouteOpen(m, pcmp, policy, len, off, legacy, pci))
    else
      Strays(m, pcmp, bsp, policy, n, len, count, entry + 1, off + Size(kind),
             LegacyAfter(m, pcmp, off, legacy), PciAfter(m, pcmp, off, pci))
  }

  /** A table whose walks leave it. Not one that is not walked: its header too
      short, or its end at 4 GB or past it. */
  predicate TableStrays(m: Memory, pcmp: int, bsp: Byte, policy: Policy)
    requires IsMemory(m)
  {
    var n := BaseLen(m, pcmp);
    && 44 <= n && pcmp + n < SPACE
    && Strays(m, pcmp, bsp, policy, n, TableLen(m, pcmp), EntryCount(m, pcmp), 0, 44, {}, {})
  }

  /** A table, n bytes of `len` remembered, that ends below 4 GB; and an offset
      the walks have not wrapped before. */
  predicate Within(pcmp: int, n: int, len: int, off: int) {
    0 <= pcmp && 44 <= n <= len && pcmp + n < SPACE && pcmp + len <= SPACE && 0 <= off && pcmp + off < SPACE
  }

  lemma NoWrap(pcmp: int, n: int, len: int, off: int)
    requires Within(pcmp, n, len, off)
    ensures Addr(pcmp, n) == pcmp + n && Addr(pcmp, off) == pcmp + off
    ensures (pcmp + off + 8) % SPACE == if pcmp + off + 8 < SPACE then pcmp + off + 8 else pcmp + off + 8 - SPACE
    ensures (pcmp + off + 20) % SPACE == if pcmp + off + 20 < SPACE then pcmp + off + 20 else pcmp + off + 20 - SPACE
  {
  }

  /** Where the walk stays in the table, IDs that were right stay right whatever
      the rest of memory holds. */
  lemma {:induction false} WalkStaysRight(
      m1: Memory, m2: Memory, pcmp: int, bsp: Byte, policy: Policy, n: int, len: int, count: int, entry: int, off: int,
      legacy: set<int>, pci: set<int>)
    requires IsMemory(m1) && IsMemory(m2) && 0 <= entry && count < 0x1_0000 && 44 <= off <= 44 + 20 * entry
    requires Within(pcmp, n, len, off) && SameTable(m1, m2, pcmp, len)
    requires !Strays(m1, pcmp, bsp, policy, n, len, count, entry, off, legacy, pci)
    requires !Wrong(m1, pcmp, Walk(m1, pcmp, Addr(pcmp, n), count, entry, off).ids, bsp)
    ensures !Wrong(m2, pcmp, Walk(m2, pcmp, Addr(pcmp, n), count, entry, off).ids, bsp)
    decreases count - entry
  {
    hide Addr, At, SameTable, LegacyAfter, PciAfter, RouteOpen;
    NoWrap(pcmp, n, len, off);
    if entry < count && off < n {
      SameTableAt(m1, m2, pcmp, len, off);
      var kind := At(m1, pcmp, off);
      if kind <= 4 {
        if pcmp + off + Size(kind) < SPACE {
          if kind == 0 {
            if off + 20 <= n {
              SameTableAt(m1, m2, pcmp, len, off + 1);
              SameTableAt(m1, m2, pcmp, len, off + 3);
              var rest := Walk(m1, pcmp, Addr(pcmp, n), count, entry + 1, off + 20).ids;
              RestRight(m1, pcmp, off + 1, rest, bsp);
              WalkStaysRight(m1, m2, pcmp, bsp, policy, n, len, count, entry + 1, off + 20,
                             LegacyAfter(m1, pcmp, off, legacy), PciAfter(m1, pcmp, off, pci));
              BothRight(m2, pcmp, off + 1, Walk(m2, pcmp, Addr(pcmp, n), count, entry + 1, off + 20).ids, bsp);
            }
          } else {
            WalkStaysRight(m1, m2, pcmp, bsp, policy, n, len, count, entry + 1, off + 8,
                           LegacyAfter(m1, pcmp, off, legacy), PciAfter(m1, pcmp, off, pci));
          }
        } else if kind == 0 {
          LastIdRight(m1, m2, pcmp, bsp, n, len, count, entry, off);
        }
      }
    }
  }

  lemma RestRight(m: Memory, pcmp: int, id: int, rest: seq<int>, bsp: Byte)
    requires IsMemory(m)
    ensures !Wrong(m, pcmp, [id] + rest, bsp) ==> At(m, pcmp, id) == bsp && !Wrong(m, pcmp, rest, bsp)
  {
    hide At;
    var ids := [id] + rest;
    if !Wrong(m, pcmp, ids, bsp) {
      assert ids[0] == id;
      forall k | 0 <= k < |rest| ensures At(m, pcmp, rest[k]) == bsp { assert ids[k + 1] == rest[k]; }
    }
  }

  lemma BothRight(m: Memory, pcmp: int, id: int, rest: seq<int>, bsp: Byte)
    requires IsMemory(m)
    ensures At(m, pcmp, id) == bsp && !Wrong(m, pcmp, rest, bsp) ==> !Wrong(m, pcmp, [id] + rest, bsp)
  {
    hide At;
  }

  /** The last entry, a processor's that reaches 4 GB, its ID settled by bytes
      of the table. */
  lemma LastIdRight(m1: Memory, m2: Memory, pcmp: int, bsp: Byte, n: int, len: int, count: int, entry: int, off: int)
    requires IsMemory(m1) && IsMemory(m2) && 0 <= entry && count < 0x1_0000 && 44 <= off <= 44 + 20 * entry
    requires Within(pcmp, n, len, off) && SameTable(m1, m2, pcmp, len)
    requires entry + 1 == count && off < n && At(m1, pcmp, off) == 0 == At(m2, pcmp, off) && pcmp + off + 20 >= SPACE
    requires !IdOpen(m1, pcmp, bsp, len, off)
    requires !Wrong(m1, pcmp, Walk(m1, pcmp, Addr(pcmp, n), count, entry, off).ids, bsp)
    ensures !Wrong(m2, pcmp, Walk(m2, pcmp, Addr(pcmp, n), count, entry, off).ids, bsp)
  {
    hide Addr, At, SameTable;
    NoWrap(pcmp, n, len, off);
    assert (Addr(pcmp, off) + 20) % SPACE <= Addr(pcmp, n);
    assert Walk(m1, pcmp, Addr(pcmp, n), count, entry + 1, off + 20) == Visit([], true);
    assert Walk(m2, pcmp, Addr(pcmp, n), count, entry + 1, off + 20) == Visit([], true);
    SameTableAt2(m1, m2, pcmp, len, off + 1);
    SameTableAt2(m1, m2, pcmp, len, off + 3);
    RestRight(m1, pcmp, off + 1, [], bsp);
    BothRight(m2, pcmp, off + 1, [], bsp);
  }

  lemma SameTableSelf(m: Memory, pcmp: int, n: int)
    requires IsMemory(m)
    ensures SameTable(m, m, pcmp, n)
  {
  }

  lemma SameTableAt2(m1: Memory, m2: Memory, pcmp: int, n: int, o: int)
    requires IsMemory(m1) && IsMemory(m2) && SameTable(m1, m2, pcmp, n)
    ensures 0 <= o < n ==> At(m1, pcmp, o) == At(m2, pcmp, o)
  {
  }

  /** And what is learnt is the same. */
  lemma {:induction false} LearnInTable(
      m1: Memory, m2: Memory, pcmp: int, bsp: Byte, policy: Policy, n: int, len: int, count: int, entry: int, off: int,
      legacy: set<int>, pci: set<int>)
    requires IsMemory(m1) && IsMemory(m2) && 0 <= entry && count < 0x1_0000 && 44 <= off <= 44 + 20 * entry
    requires Within(pcmp, n, len, off) && SameTable(m1, m2, pcmp, len)
    requires !Strays(m1, pcmp, bsp, policy, n, len, count, entry, off, legacy, pci)
    requires forall b :: b in legacy + pci ==> 0 <= b < 256
    ensures Learn(m2, pcmp, policy, Addr(pcmp, n), count, entry, off, legacy, pci) ==
            Learn(m1, pcmp, policy, Addr(pcmp, n), count, entry, off, legacy, pci)
    decreases count - entry
  {
    hide Addr, At, SameTable, Taught, BusName, IdOpen, RouteOpen, LegacyAfter, PciAfter;
    NoWrap(pcmp, n, len, off);
    if entry < count && off < n {
      SameTableAt(m1, m2, pcmp, len, off);
      var kind := At(m1, pcmp, off);
      var l, p := LegacyAfter(m1, pcmp, off, legacy), PciAfter(m1, pcmp, off, pci);
      BusesAfter(m1, pcmp, off, legacy, pci);
      LearnNext(m1, pcmp, policy, Addr(pcmp, n), count, entry, off, legacy, pci);
      LearnNext(m2, pcmp, policy, Addr(pcmp, n), count, entry, off, legacy, pci);
      if kind <= 4 {
        if pcmp + off + Size(kind) >= SPACE {
          if kind == 3 {
            if off + 8 <= len {
              EntryInTable(m1, m2, pcmp, policy, len, off, legacy, pci);
            } else {
              SameTableSelf(m1, pcmp, len);
              NoRoute(m1, m1, pcmp, policy, len, off, legacy, pci);
              NoRoute(m1, m2, pcmp, policy, len, off, legacy, pci);
            }
          }
        } else if off + Size(kind) <= n {
          EntryInTable(m1, m2, pcmp, policy, len, off, legacy, pci);
          SameBuses(m1, m2, pcmp, off, legacy, pci);
          LearnInTable(m1, m2, pcmp, bsp, policy, n, len, count, entry + 1, off + Size(kind), l, p);
        } else {
          NoWrap(pcmp, n, len, off + Size(kind));
        }
      }
    }
  }

  /** A step of the learning walk, all kinds of entry alike. */
  lemma LearnNext(m: Memory, pcmp: int, policy: Policy, end: int, count: int, entry: int, off: int,
      legacy: set<int>, pci: set<int>)
    requires IsMemory(m) && 0 <= entry < count < 0x1_0000 && 44 <= off <= 44 + 20 * entry && Addr(pcmp, off) < end
    ensures var kind := At(m, pcmp, off);
            var over := (kind == 1 || kind == 3) && (Addr(pcmp, off) + 8) % SPACE > end;
            Learn(m, pcmp, policy, end, count, entry, off, legacy, pci) ==
            if kind > 4 || over then []
            else
              (if kind == 3 then Taught(m, pcmp, policy, off, legacy, pci) else []) +
              Learn(m, pcmp, policy, end, count, entry + 1, off + Size(kind),
                    LegacyAfter(m, pcmp, off, legacy), PciAfter(m, pcmp, off, pci))
  {
    hide Addr, At, BusName, Taught;
    LearnStep(m, pcmp, policy, end, count, entry, off, legacy, pci);
    assert ISA != PCI && EISA != PCI && MCA != PCI by {
      assert ISA[0] != PCI[0] && EISA[0] != PCI[0] && MCA[0] != PCI[0];
    }
  }

  lemma BusesAfter(m: Memory, pcmp: int, off: int, legacy: set<int>, pci: set<int>)
    requires IsMemory(m) && forall b :: b in legacy + pci ==> 0 <= b < 256
    ensures forall b :: b in LegacyAfter(m, pcmp, off, legacy) + PciAfter(m, pcmp, off, pci) ==> 0 <= b < 256
  {
    hide BusName;
    forall b | b in LegacyAfter(m, pcmp, off, legacy) + PciAfter(m, pcmp, off, pci) ensures 0 <= b < 256 {
      if b != At(m, pcmp, off + 1) { assert b in legacy + pci; }
    }
  }

  /** Whether the walks leave the table is for its own bytes to say. */
  lemma {:induction false} SameStrays(
      m1: Memory, m2: Memory, pcmp: int, bsp: Byte, policy: Policy, n: int, len: int, count: int, entry: int, off: int,
      legacy: set<int>, pci: set<int>)
    requires IsMemory(m1) && IsMemory(m2) && 0 <= entry && count < 0x1_0000 && 44 <= off <= 44 + 20 * entry
    requires Within(pcmp, n, len, off) && SameTable(m1, m2, pcmp, len)
    ensures Strays(m1, pcmp, bsp, policy, n, len, count, entry, off, legacy, pci) ==
            Strays(m2, pcmp, bsp, policy, n, len, count, entry, off, legacy, pci)
    decreases count - entry
  {
    hide At, SameTable, BusName, Taught, IdOpen, RouteOpen, LegacyAfter, PciAfter;
    if entry < count && off < n {
      SameTableAt(m1, m2, pcmp, len, off);
      var kind := At(m1, pcmp, off);
      if pcmp + off + Size(kind) >= SPACE {
        SameOpen(m1, m2, pcmp, bsp, policy, len, off, legacy, pci);
      } else if off + Size(kind) <= n {
        EntryInTable(m1, m2, pcmp, policy, len, off, legacy, pci);
        SameBuses(m1, m2, pcmp, off, legacy, pci);
        SameStrays(m1, m2, pcmp, bsp, policy, n, len, count, entry + 1, off + Size(kind),
                   LegacyAfter(m1, pcmp, off, legacy), PciAfter(m1, pcmp, off, pci));
      }
    }
  }

  lemma SameOpen(m1: Memory, m2: Memory, pcmp: int, bsp: Byte, policy: Policy, len: int, off: int,
      legacy: set<int>, pci: set<int>)
    requires IsMemory(m1) && IsMemory(m2) && SameTable(m1, m2, pcmp, len) && 0 <= off
    ensures IdOpen(m1, pcmp, bsp, len, off) == IdOpen(m2, pcmp, bsp, len, off)
    ensures RouteOpen(m1, pcmp, policy, len, off, legacy, pci) == RouteOpen(m2, pcmp, policy, len, off, legacy, pci)
  {
    hide At, SameTable;
    SameTableAt2(m1, m2, pcmp, len, off + 1);
    SameTableAt2(m1, m2, pcmp, len, off + 4);
    SameTableAt2(m1, m2, pcmp, len, off + 5);
  }

  lemma SameTableStrays(m1: Memory, m2: Memory, pcmp: int, bsp: Byte, policy: Policy)
    requires IsMemory(m1) && IsMemory(m2) && 0 <= pcmp
    requires TableLen(m1, pcmp) != 0 && SameTable(m1, m2, pcmp, TableLen(m1, pcmp))
    ensures TableStrays(m1, pcmp, bsp, policy) == TableStrays(m2, pcmp, bsp, policy)
  {
    hide At, SameTable, Strays, Word;
    var n, len := BaseLen(m1, pcmp), TableLen(m1, pcmp);
    SameHeader(m1, m2, pcmp, len);
    if 44 <= n && pcmp + n < SPACE {
      SameStrays(m1, m2, pcmp, bsp, policy, n, len, EntryCount(m1, pcmp), 0, 44, {}, {});
    }
  }

  lemma SameBuses(m1: Memory, m2: Memory, pcmp: int, off: int, legacy: set<int>, pci: set<int>)
    requires IsMemory(m1) && IsMemory(m2) && At(m1, pcmp, off) == At(m2, pcmp, off)
    requires At(m1, pcmp, off + 1) == At(m2, pcmp, off + 1) && BusName(m1, pcmp, off) == BusName(m2, pcmp, off)
    ensures LegacyAfter(m1, pcmp, off, legacy) == LegacyAfter(m2, pcmp, off, legacy)
    ensures PciAfter(m1, pcmp, off, pci) == PciAfter(m2, pcmp, off, pci)
  {
    hide BusName, At;
  }

  /** An interrupt entry past the table's bytes that they rule out. */
  lemma NoRoute(m1: Memory, m: Memory, pcmp: int, policy: Policy, len: int, off: int, legacy: set<int>, pci: set<int>)
    requires IsMemory(m1) && IsMemory(m) && SameTable(m1, m, pcmp, len) && 0 <= off && off + 7 >= len
    requires forall b :: b in legacy + pci ==> 0 <= b < 256
    requires !RouteOpen(m1, pcmp, policy, len, off, legacy, pci)
    ensures Taught(m, pcmp, policy, off, legacy, pci) == []
  {
    hide At, SameTable;
    SameTableAt2(m1, m, pcmp, len, off + 1);
    SameTableAt2(m1, m, pcmp, len, off + 4);
    SameTableAt2(m1, m, pcmp, len, off + 5);
  }
  lemma EntryInTable(m1: Memory, m2: Memory, pcmp: int, policy: Policy, n: int, off: int, legacy: set<int>,
      pci: set<int>)
    requires IsMemory(m1) && IsMemory(m2) && SameTable(m1, m2, pcmp, n) && 0 <= off && off + 8 <= n
    ensures At(m2, pcmp, off + 1) == At(m1, pcmp, off + 1) && BusName(m2, pcmp, off) == BusName(m1, pcmp, off)
    ensures Taught(m2, pcmp, policy, off, legacy, pci) == Taught(m1, pcmp, policy, off, legacy, pci)
  {
    hide At, SameTable, CString, Trimmed;
    SameTableAt(m1, m2, pcmp, n, off + 1);
    SameTableAt(m1, m2, pcmp, n, off + 2);
    SameTableAt(m1, m2, pcmp, n, off + 3);
    SameTableAt(m1, m2, pcmp, n, off + 4);
    SameTableAt(m1, m2, pcmp, n, off + 5);
    SameTableAt(m1, m2, pcmp, n, off + 6);
    SameTableAt(m1, m2, pcmp, n, off + 7);
  }

  /** apic_platform_mp_table_len: base and extended part, 0 if it cannot be. */
  function TableLen(m: Memory, pcmp: int): (n: int)
    requires IsMemory(m)
    ensures n == 0 || 44 <= n
  {
    var n := BaseLen(m, pcmp) + ExtLen(m, pcmp);
    if pcmp > SPACE - 44 || n < 44 || pcmp + n > SPACE then 0 else n
  }

  /** The length of what is remembered: the base table and, with its revision 4
      or later, the extended part; none if it is not all below 4 GB. */
  lemma TableLenIs(m: Memory, pcmp: int)
    requires IsMemory(m)
    ensures var base := At(m, pcmp, 4) + 0x100 * At(m, pcmp, 5);
            var ext := At(m, pcmp, 40) + 0x100 * At(m, pcmp, 41);
            var n := if At(m, pcmp, 6) >= 4 then base + ext else base;
            TableLen(m, pcmp) == if 44 <= n && pcmp + 44 <= SPACE && pcmp + n <= SPACE then n else 0
  {
    hide At;
  }

  lemma SameHeader(m1: Memory, m2: Memory, pcmp: int, n: int)
    requires IsMemory(m1) && IsMemory(m2) && 44 <= n && SameTable(m1, m2, pcmp, n)
    ensures BaseLen(m2, pcmp) == BaseLen(m1, pcmp) && EntryCount(m2, pcmp) == EntryCount(m1, pcmp)
    ensures ExtLen(m2, pcmp) == ExtLen(m1, pcmp)
  {
    hide At, SameTable;
    SameTableAt(m1, m2, pcmp, n, 4);
    SameTableAt(m1, m2, pcmp, n, 5);
    SameTableAt(m1, m2, pcmp, n, 6);
    SameTableAt(m1, m2, pcmp, n, 34);
    SameTableAt(m1, m2, pcmp, n, 35);
    SameTableAt(m1, m2, pcmp, n, 40);
    SameTableAt(m1, m2, pcmp, n, 41);
  }

  /** The skip is sound: when memory again holds the bytes a table had after its
      walk (repaired, if it could be written then), walking it afresh would
      teach the very same routes, and write nothing if it was repaired. */
  lemma SkipSound(m0: Memory, m2: Memory, pcmp: int, bsp: Byte, policy: Policy, seenInRam: bool)
    requires IsMemory(m0) && IsMemory(m2) && 0 <= pcmp
    requires var m1 := if seenInRam then Repaired(m0, pcmp, bsp) else m0;
             && TableLen(m1, pcmp) != 0 && SameTable(m1, m2, pcmp, TableLen(m1, pcmp))
             && !TableStrays(m1, pcmp, bsp, policy)
    ensures Routes(m2, pcmp, policy) == Routes(m0, pcmp, policy)
    ensures seenInRam ==> !NeedsRepair(m2, pcmp, bsp)
  {
    hide Repaired, NeedsRepair, Routes, At, SameTable, TableStrays, TableLen;
    var m1 := if seenInRam then Repaired(m0, pcmp, bsp) else m0;
    RepairKeepsRest(m0, pcmp, bsp, policy);
    StaysSettled(m1, m2, pcmp, bsp, policy);
    if seenInRam {
      RepairWrites(m1, pcmp, bsp);
      RepairIdempotent(m0, pcmp, bsp);
    }
  }

  /** Two memories with the same table, of which the walks do not leave it: the
      same routes, and if one needs no repair neither does the other. */
  lemma StaysSettled(m1: Memory, m2: Memory, pcmp: int, bsp: Byte, policy: Policy)
    requires IsMemory(m1) && IsMemory(m2) && 0 <= pcmp
    requires TableLen(m1, pcmp) != 0 && SameTable(m1, m2, pcmp, TableLen(m1, pcmp))
    requires !TableStrays(m1, pcmp, bsp, policy)
    ensures Routes(m2, pcmp, policy) == Routes(m1, pcmp, policy)
    ensures !NeedsRepair(m1, pcmp, bsp) ==> !NeedsRepair(m2, pcmp, bsp)
  {
    hide Walk, At, Learn, SameTable, Word, Strays, Wrong;
    var n, len := BaseLen(m1, pcmp), TableLen(m1, pcmp);
    SameHeader(m1, m2, pcmp, len);
    if 44 <= n && pcmp + n < SPACE {
      hide Addr;
      LearnInTable(m1, m2, pcmp, bsp, policy, n, len, EntryCount(m1, pcmp), 0, 44, {}, {});
      if Walkable(m1, pcmp) && !NeedsRepair(m1, pcmp, bsp) {
        WalkStaysRight(m1, m2, pcmp, bsp, policy, n, len, EntryCount(m1, pcmp), 0, 44, {}, {});
      }
    } else {
      NotWalked(m1, pcmp, bsp, policy);
      NotWalked(m2, pcmp, bsp, policy);
    }
  }

  /** The repair leaves the header's lengths and the routes. */
  lemma RepairKeepsRest(m: Memory, pcmp: int, bsp: Byte, policy: Policy)
    requires IsMemory(m)
    ensures var r := Repaired(m, pcmp, bsp);
            && BaseLen(r, pcmp) == BaseLen(m, pcmp) && EntryCount(r, pcmp) == EntryCount(m, pcmp)
            && ExtLen(r, pcmp) == ExtLen(m, pcmp) && Routes(r, pcmp, policy) == Routes(m, pcmp, policy)
  {
    hide Walk, At, Learn, Routes, Walkable, SetIds, FixChecksum;
    if Walkable(m, pcmp) { RepairKeepsWalk(m, pcmp, bsp); }
    RepairKeepsRoutes(m, pcmp, bsp, policy);
  }

  /** A table too short, or that ends past 4 GB or at it, is not walked. */
  lemma NotWalked(m: Memory, pcmp: int, bsp: Byte, policy: Policy)
    requires IsMemory(m) && 0 <= pcmp && (BaseLen(m, pcmp) < 44 || pcmp + BaseLen(m, pcmp) >= SPACE)
    ensures Routes(m, pcmp, policy) == [] && !NeedsRepair(m, pcmp, bsp)
  {
    hide At;
    if pcmp + BaseLen(m, pcmp) == SPACE { assert Addr(pcmp, BaseLen(m, pcmp)) == 0; }
  }

  // ---- In place ----

  /** The floating pointer's and the table's bytes as the last walk left them. */
  datatype Seen = Seen(fps: int, pcmp: int, pointer: seq<Byte>, table: seq<Byte>)

  /** Memory holds these bytes from address a on. */
  ghost predicate Holds(m: Memory, a: int, bytes: seq<Byte>)
    requires IsMemory(m)
  {
    forall k :: 0 <= k < |bytes| ==> bytes[k] == At(m, a, k)
  }

  class Platform {
    var mem: Memory
    /** UP APIC mode, the boot processor's ID, and what is to be taught. */
    const up: bool
    const bsp: Byte
    const policy: Policy
    var seen: Option<Seen>
    /** Everything taught so far, oldest first. */
    var routes: seq<Route>
    /** What the remembered table taught, and whether it could be written. */
    ghost var taught: seq<Route>
    ghost var seenInRam: bool

    /** The walks of the table seen do not leave it. */
    ghost predicate Kept(m: Memory)
      requires IsMemory(m) && seen.Some?
      reads this
    {
      0 <= seen.value.pcmp && !TableStrays(m, seen.value.pcmp, bsp, policy)
    }

    /** Memory that again holds what was seen needs no walk. */
    ghost predicate Settled(m: Memory)
      requires IsMemory(m)
      reads this
    {
      seen.Some? && Kept(m) && Matches(m, seen.value) ==>
        && (up ==> Routes(m, seen.value.pcmp, policy) == taught)
        && (up && seenInRam ==> !NeedsRepair(m, seen.value.pcmp, bsp))
    }

    ghost predicate Valid()
      reads this
    {
      IsMemory(mem) && forall m: Memory :: IsMemory(m) ==> Settled(m)
    }

    constructor (mem: Memory, up: bool, bsp: Byte, policy: Policy)
      requires IsMemory(mem)
      ensures Valid() && this.mem == mem && seen == None && routes == []
      ensures this.up == up && this.bsp == bsp && this.policy == policy
    {
      this.mem, this.up, this.bsp, this.policy := mem, up, bsp, policy;
      seen, routes, taught, seenInRam := None, [], [], false;
    }

    /** apic_platform_mp_fixup_processor_lapic_ids. */
    method Fixup(pcmp: int)
      requires IsMemory(mem)
      modifies this`mem
      ensures IsMemory(mem) && mem == if up then Repaired(old(mem), pcmp, bsp) else old(mem)
      // every boot processor's ID, and the checksum, as the table's bytes have it
      ensures up ==> FixedUp(old(mem), pcmp, bsp, mem)
    {
      hide FixedUp;
      RepairByBytes(mem, pcmp, bsp);
      hide Addr, At, Walk, SetIds, FixChecksum, Wrong;
      if !up || !Walkable(mem, pcmp) {
        return;
      }
      var n, count := BaseLen(mem, pcmp), EntryCount(mem, pcmp);
      var complete, patched := PatchIds(pcmp, Addr(pcmp, n), count);
      if complete && patched {
        Rechecksum(old(mem), pcmp, n, count);
      }
    }

    /** The walk, patching as it goes. */
    method PatchIds(pcmp: int, end: int, count: int) returns (complete: bool, patched: bool)
      requires IsMemory(mem) && 0 <= count < 0x1_0000
      modifies this`mem
      ensures var v := Walk(old(mem), pcmp, end, count, 0, 44);
              && IsMemory(mem) && mem == SetIds(old(mem), pcmp, v.ids, bsp)
              && complete == v.complete && patched == Wrong(old(mem), pcmp, v.ids, bsp)
    {
      hide Addr, At, Walk, SetIds, Wrong, WalkedTo;
      ghost var m0, v := mem, Walk(mem, pcmp, end, count, 0, 44);
      patched := false;
      ghost var ids: seq<int> := [];
      var entry, off := 0, 44;
      NoIds(m0, pcmp, bsp);
      WalkStart(m0, pcmp, end, count);
      while entry < count && Addr(pcmp, off) < end
        invariant IsMemory(mem) && 0 <= entry && 44 <= off <= 44 + 20 * entry
        invariant WalkedTo(m0, pcmp, end, count, entry, off, ids, v)
        invariant mem == SetIds(m0, pcmp, ids, bsp) && patched == Wrong(m0, pcmp, ids, bsp)
        decreases count - entry
      {
        WalkStep(m0, pcmp, end, count, entry, off, ids, v, bsp);
        var kind := At(mem, pcmp, off);
        if kind == 0 {
          if (Addr(pcmp, off) + 20) % SPACE > end {
            return false, patched;
          }
          if At(mem, pcmp, off + 3) % 4 == 3 {
            OneMoreId(m0, pcmp, ids, bsp, off + 1);
            if At(mem, pcmp, off + 1) != bsp {
              mem := mem[Addr(pcmp, off + 1) := bsp];
              patched := true;
            }
            ids := ids + [off + 1];
          }
          off := off + 20;
        } else if kind <= 4 {
          off := off + 8;
        } else {
          return false, patched;
        }
        entry := entry + 1;
      }
      WalkEnd(m0, pcmp, end, count, entry, off, ids, v);
      complete := true;
    }

    /** Length and entry count written back, and the checksum redone. */
    method Rechecksum(ghost m0: Memory, pcmp: int, n: int, count: int)
      requires IsMemory(m0) && IsMemory(mem) && n == BaseLen(m0, pcmp) && count == EntryCount(m0, pcmp)
      requires mem == SetIds(m0, pcmp, TableWalk(m0, pcmp).ids, bsp)
      modifies this`mem
      ensures IsMemory(mem) && mem == FixChecksum(old(mem), pcmp, n)
    {
      hide Addr, At, Walk, SetIds, FixChecksum, Word;
      HeaderKept(m0, pcmp, TableWalk(m0, pcmp).ids, bsp);
      mem := mem[Addr(pcmp, 4) := n % 256];
      mem := mem[Addr(pcmp, 5) := n / 256];
      mem := mem[Addr(pcmp, 34) := count % 256];
      mem := mem[Addr(pcmp, 35) := count / 256];
      assert mem == old(mem);
      mem := mem[Addr(pcmp, 7) := 0];
      var sum := Checksum(pcmp, n);
      mem := mem[Addr(pcmp, 7) := (0 - sum as int) % 256];
      ChecksumByte(old(mem), pcmp, n, sum);
    }

    /** apic_platform_mp_checksum: the bytes summed in eight bits. */
    method Checksum(pcmp: int, n: nat) returns (sum: Byte)
      requires IsMemory(mem)
      ensures sum == Sum(mem, pcmp, n) % 256
    {
      hide At;
      sum := 0;
      var i := 0;
      while i < n
        invariant 0 <= i <= n && sum == Sum(mem, pcmp, i) % 256
      {
        sum := (sum + At(mem, pcmp, i)) % 256;
        i := i + 1;
      }
    }

    /** apic_platform_mp_learn_legacy_irq_routes. */
    method LearnRoutes(pcmp: int) returns (learnt: seq<Route>)
      requires IsMemory(mem)
      ensures learnt == Routes(mem, pcmp, policy) && RoutesOf(mem, pcmp, policy, learnt)
    {
      hide Addr, At, Learn, Taught, BusName, RoutesOf;
      RoutesByBytes(mem, pcmp, policy);
      learnt := [];
      var n := BaseLen(mem, pcmp);
      if (!policy.legacy && !policy.pci) || n < 44 || pcmp + n > SPACE {
        return;
      }
      var end, count := Addr(pcmp, n), EntryCount(mem, pcmp);
      ghost var all := Learn(mem, pcmp, policy, end, count, 0, 44, {}, {});
      var legacy: set<int>, pci: set<int> := {}, {};
      var entry, off := 0, 44;
      while entry < count && Addr(pcmp, off) < end
        invariant 0 <= entry && 44 <= off <= 44 + 20 * entry
        invariant all == learnt + Learn(mem, pcmp, policy, end, count, entry, off, legacy, pci)
        decreases count - entry
      {
        LearnStep(mem, pcmp, policy, end, count, entry, off, legacy, pci);
        var kind := At(mem, pcmp, off);
        if kind == 0 {
          off := off + 20;
        } else if kind == 1 {
          if (Addr(pcmp, off) + 8) % SPACE > end {
            return;
          }
          var id, name := At(mem, pcmp, off + 1), BusName(mem, pcmp, off);
          if name == ISA || name == EISA || name == MCA {
            legacy := legacy + {id};
          } else if name == PCI {
            pci := pci + {id};
          }
          off := off + 8;
        } else if kind == 3 {
          if (Addr(pcmp, off) + 8) % SPACE > end {
            return;
          }
          learnt := learnt + Taught(mem, pcmp, policy, off, legacy, pci);
          off := off + 8;
        } else if kind <= 4 {
          off := off + 8;
        } else {
          return;
        }
        entry := entry + 1;
      }
      LearnOver(mem, pcmp, policy, end, count, entry, off, legacy, pci);
    }

    /** apic_platform_mp_bytes, copying: a granule at a time where memory can be
        read through a pointer, a byte at a time where it cannot. */
    method Copy(a: int, len: nat, direct: (int, int) -> bool) returns (buf: seq<Byte>)
      requires IsMemory(mem)
      ensures |buf| == len && Holds(mem, a, buf)
    {
      hide At;
      buf := [];
      while |buf| < len
        invariant |buf| <= len && Holds(mem, a, buf)
        decreases len - |buf|
      {
        var at := a + |buf|;
        var span := 4096 - at % 4096;
        if span > len - |buf| {
          span := len - |buf|;
        }
        if direct(at, span) {
          buf := buf + RunOf(mem, a, |buf|, span);
        } else {
          var stop := |buf| + span;
          while |buf| < stop
            invariant |buf| <= stop && Holds(mem, a, buf)
          {
            buf := buf + [At(mem, a, |buf|)];
          }
        }
      }
    }

    /** apic_platform_mp_bytes, comparing. */
    method Compare(buf: seq<Byte>, a: int, direct: (int, int) -> bool) returns (same: bool)
      requires IsMemory(mem)
      ensures same == Holds(mem, a, buf)
    {
      hide At;
      var done := 0;
      while done < |buf|
        invariant 0 <= done <= |buf| && Holds(mem, a, buf[..done])
      {
        var at := a + done;
        var span := 4096 - at % 4096;
        if span > |buf| - done {
          span := |buf| - done;
        }
        if direct(at, span) {
          var run := RunOf(mem, a, done, span);
          if buf[done..done + span] != run {
            Differs(mem, a, buf, done, span, run);
            return false;
          }
          forall k | done <= k < done + span ensures buf[k] == At(mem, a, k) {
            assert buf[done..done + span][k - done] == run[k - done];
          }
          done := done + span;
        } else {
          var stop := done + span;
          while done < stop
            invariant 0 <= done <= stop && Holds(mem, a, buf[..done])
          {
            if buf[done] != At(mem, a, done) {
              return false;
            }
            done := done + 1;
          }
        }
      }
      assert buf[..done] == buf;
      return true;
    }

    /** apic_platform_mp_unchanged. */
    method Unchanged(fps: int, pcmp: int, direct: (int, int) -> bool) returns (same: bool)
      requires IsMemory(mem)
      ensures same <==> seen.Some? && seen.value.fps == fps && seen.value.pcmp == pcmp && Matches(mem, seen.value)
    {
      hide Holds;
      if seen.None? || seen.value.fps != fps || seen.value.pcmp != pcmp || TableLen(mem, pcmp) != |seen.value.table| {
        return false;
      }
      same := Compare(seen.value.pointer, fps, direct);
      if same {
        same := Compare(seen.value.table, pcmp, direct);
      }
    }

    /** apic_platform_mp_remember: nothing is, of a table with no length or a
        pointer that is not below 1 MB. */
    method Remember(fps: int, pcmp: int, direct: (int, int) -> bool)
      requires IsMemory(mem)
      modifies this`seen
      ensures Remembered(seen, mem, fps, pcmp)
    {
      hide Holds;
      var n := TableLen(mem, pcmp);
      seen := None;
      if n == 0 || fps > 0x10_0000 - 16 {
        return;
      }
      var pointer := Copy(fps, 16, direct);
      var table := Copy(pcmp, n, direct);
      seen := Some(Seen(fps, pcmp, pointer, table));
    }

    /** apic_platform_mp_table_post, once the pointer and table are found. An
        unchanged table is not walked; one that was not remembered is learnt
        from, repaired if it can be written, and then remembered or hidden. */
    method Post(fps: int, pcmp: int, expose: bool, inRam: bool, direct: (int, int) -> bool) returns (skipped: bool)
      requires Valid()
      modifies this
      ensures Valid()
      ensures skipped == old(seen.Some? && seen.value.fps == fps && seen.value.pcmp == pcmp && Matches(mem, seen.value))
      ensures skipped ==>
                mem == old(mem) && seen == old(seen) && routes == old(routes) && taught == old(taught)
                    && seenInRam == old(seenInRam)
      // skipping teaches all a walk would have, and writes all it would have in exactly these cases
      ensures skipped && up && 0 <= pcmp && !TableStrays(mem, pcmp, bsp, policy) ==>
                Routes(mem, pcmp, policy) == taught && (seenInRam ==> !NeedsRepair(mem, pcmp, bsp))
      ensures skipped && Signed(mem, fps) ==>
                (Walked(mem, fps, pcmp, bsp, up, expose, inRam) == mem <==>
                 !inRam || (expose && (!up || !NeedsRepair(mem, pcmp, bsp))))
      ensures !skipped ==> routes == old(routes) + (if up then Routes(old(mem), pcmp, policy) else [])
      ensures RoutesOf(old(mem), pcmp, policy, Routes(old(mem), pcmp, policy))
      ensures !skipped ==> mem == Walked(old(mem), fps, pcmp, bsp, up, expose, inRam)
      ensures !skipped && (expose || !inRam) ==>
                Remembered(seen, mem, fps, pcmp) && taught == Routes(old(mem), pcmp, policy) && seenInRam == inRam
      ensures !skipped && !expose && inRam ==> seen == old(seen)
    {
      hide Matches, Repaired, Routes, RoutesOf, Hidden, NeedsRepair, Signed;
      ghost var m0 := mem;
      RoutesByBytes(mem, pcmp, policy);
      skipped := Unchanged(fps, pcmp, direct);
      if skipped {
        SettledNow();
        if Signed(mem, fps) { SkipExactly(mem, fps, pcmp, bsp, up, expose, inRam); }
        return;
      }
      if up {
        var learnt := LearnRoutes(pcmp);
        routes := routes + learnt;
      }
      if inRam {
        Fixup(pcmp);
      }
      if expose || !inRam {
        Remember(fps, pcmp, direct);
        taught, seenInRam := Routes(m0, pcmp, policy), inRam;
        RememberedSettles(m0, inRam);
        return;
      }
      mem := Hidden(mem, fps);
      mem := Hidden(mem, pcmp);
    }

    lemma SettledNow()
      requires Valid()
      ensures seen.Some? && Kept(mem) && Matches(mem, seen.value) ==>
                && (up ==> Routes(mem, seen.value.pcmp, policy) == taught)
                && (up && seenInRam ==> !NeedsRepair(mem, seen.value.pcmp, bsp))
    {
      assert Settled(mem);
    }

    /** What was just remembered settles every memory that matches it. */
    lemma RememberedSettles(m0: Memory, inRam: bool)
      requires IsMemory(m0) && IsMemory(mem) && seenInRam == inRam
      requires seen.Some? ==>
                 && mem == (if inRam && up then Repaired(m0, seen.value.pcmp, bsp) else m0)
                 && taught == Routes(m0, seen.value.pcmp, policy)
                 && Matches(mem, seen.value) && 0 < |seen.value.table|
      ensures forall m: Memory :: IsMemory(m) ==> Settled(m)
    {
      hide Repaired, Routes, NeedsRepair, TableStrays;
      forall m: Memory | IsMemory(m) ensures Settled(m) {
        if seen.Some? && up && Matches(m, seen.value) && Kept(m) {
          var pcmp := seen.value.pcmp;
          MatchingTables(mem, m, seen.value);
          SameHeader(mem, m, pcmp, TableLen(mem, pcmp));
          if inRam { RepairKeepsLength(m0, pcmp, bsp); }
          SameTableStrays(mem, m, pcmp, bsp, policy);
          SkipSound(m0, m, pcmp, bsp, policy, inRam);
        }
      }
    }
  }

  /** A signature overwritten, so that nothing finds the table. */
  function Hidden(m: Memory, a: int): (r: Memory)
    requires IsMemory(m)
    ensures IsMemory(r)
  {
    m[Addr(a, 0) := 0xff][Addr(a, 1) := 0xff][Addr(a, 2) := 0xff][Addr(a, 3) := 0xff]
  }

  /** The floating pointer's signature, which the caller has found. */
  predicate Signed(m: Memory, fps: int)
    requires IsMemory(m)
  {
    At(m, fps, 0) == 0x5f && At(m, fps, 1) == 0x4d && At(m, fps, 2) == 0x50 && At(m, fps, 3) == 0x5f
  }

  /** Memory once a table that is not skipped has been dealt with. */
  function Walked(m: Memory, fps: int, pcmp: int, bsp: Byte, up: bool, expose: bool, inRam: bool): (r: Memory)
    requires IsMemory(m)
    ensures IsMemory(r)
  {
    var r := if inRam && up then Repaired(m, pcmp, bsp) else m;
    if expose || !inRam then r else Hidden(Hidden(r, fps), pcmp)
  }

  /** Hiding changes the four bytes of a signature and no other. */
  lemma HiddenExactly(m: Memory, a: int, o: int)
    requires IsMemory(m) && 0 <= o < SPACE
    ensures At(Hidden(m, a), a, o) == if o < 4 then 0xff else At(m, a, o)
  {
    hide Addr;
    if o > 3 {
      if Addr(a, o) == Addr(a, 0) { SameByte(a, o, 0); }
      if Addr(a, o) == Addr(a, 1) { SameByte(a, o, 1); }
      if Addr(a, o) == Addr(a, 2) { SameByte(a, o, 2); }
      if Addr(a, o) == Addr(a, 3) { SameByte(a, o, 3); }
    } else {
      if Addr(a, 0) == Addr(a, 1) { SameByte(a, 0, 1); }
      if Addr(a, 0) == Addr(a, 2) { SameByte(a, 0, 2); }
      if Addr(a, 1) == Addr(a, 2) { SameByte(a, 1, 2); }
    }
  }

  /** A table that is hidden has no signature left, nor its pointer. */
  lemma HiddenGone(m: Memory, fps: int, pcmp: int, bsp: Byte, up: bool)
    requires IsMemory(m)
    ensures var r := Walked(m, fps, pcmp, bsp, up, false, true);
            !Signed(r, fps) && At(r, pcmp, 0) == At(r, pcmp, 1) == At(r, pcmp, 2) == At(r, pcmp, 3) == 0xff
  {
    hide Addr, Repaired, Hidden;
    var q := if up then Repaired(m, pcmp, bsp) else m;
    var h := Hidden(q, fps);
    HiddenExactly(q, fps, 0);
    HiddenExactly(h, pcmp, 0);
    HiddenExactly(h, pcmp, 1);
    HiddenExactly(h, pcmp, 2);
    HiddenExactly(h, pcmp, 3);
    HiddenAt(h, pcmp, Addr(fps, 0));
  }

  lemma HiddenAt(m: Memory, a: int, x: int)
    requires IsMemory(m) && 0 <= x < SPACE
    ensures Hidden(m, a)[x] == m[x] || Hidden(m, a)[x] == 0xff
    ensures Hidden(m, a)[Addr(a, 0)] == 0xff
  {
    hide Addr;
  }

  /** What skipping a table loses. A walk would have changed memory exactly when
      the table can be written, and is to be hidden or has an ID to set. */
  lemma SkipExactly(m: Memory, fps: int, pcmp: int, bsp: Byte, up: bool, expose: bool, inRam: bool)
    requires IsMemory(m) && Signed(m, fps)
    ensures Walked(m, fps, pcmp, bsp, up, expose, inRam) == m <==>
            !inRam || (expose && (!up || !NeedsRepair(m, pcmp, bsp)))
  {
    hide Repaired, NeedsRepair, Hidden, Addr;
    RepairWrites(m, pcmp, bsp);
    if inRam && !expose {
      var r := if up then Repaired(m, pcmp, bsp) else m;
      HiddenAt(r, fps, Addr(fps, 0));
      HiddenAt(Hidden(r, fps), pcmp, Addr(fps, 0));
    }
  }

  /** What is kept of a table: nothing of one with no length or of a pointer
      that is not below 1 MB, else every byte of both. */
  ghost predicate Remembered(seen: Option<Seen>, m: Memory, fps: int, pcmp: int)
    requires IsMemory(m)
  {
    var n := TableLen(m, pcmp);
    if n == 0 || fps > 0x10_0000 - 16 then seen == None
    else
      && seen.Some? && seen.value.fps == fps && seen.value.pcmp == pcmp && |seen.value.pointer| == 16
      && |seen.value.table| == n && Matches(m, seen.value)
  }

  lemma RepairKeepsTableLen(m: Memory, pcmp: int, bsp: Byte)
    requires IsMemory(m)
    ensures TableLen(Repaired(m, pcmp, bsp), pcmp) == TableLen(m, pcmp)
  {
    if Walkable(m, pcmp) { RepairKeepsWalk(m, pcmp, bsp); }
  }

  lemma RepairKeepsLength(m: Memory, pcmp: int, bsp: Byte)
    requires IsMemory(m)
    ensures BaseLen(Repaired(m, pcmp, bsp), pcmp) == BaseLen(m, pcmp)
  {
    if Walkable(m, pcmp) { RepairKeepsWalk(m, pcmp, bsp); }
  }

  lemma MatchingTables(m1: Memory, m2: Memory, s: Seen)
    requires IsMemory(m1) && IsMemory(m2) && Matches(m1, s) && Matches(m2, s)
    ensures SameTable(m1, m2, s.pcmp, TableLen(m1, s.pcmp))
  {
    hide At, TableLen;
    forall o | 0 <= o < TableLen(m1, s.pcmp) ensures At(m1, s.pcmp, o) == At(m2, s.pcmp, o) {
      assert s.table[o] == At(m1, s.pcmp, o) && s.table[o] == At(m2, s.pcmp, o);
    }
  }

  /** What a pointer at offset `from` sees. */
  function RunOf(m: Memory, a: int, from: int, span: nat): (r: seq<Byte>)
    requires IsMemory(m)
    ensures |r| == span && forall k :: 0 <= k < span ==> r[k] == At(m, a, from + k)
  {
    seq<Byte>(span, k => At(m, a, from + k))
  }

  lemma Differs(m: Memory, a: int, buf: seq<Byte>, done: int, span: int, run: seq<Byte>)
    requires IsMemory(m) && 0 <= done && 0 <= span && done + span <= |buf| && |run| == span
    requires forall k :: 0 <= k < span ==> run[k] == At(m, a, done + k)
    requires buf[done..done + span] != run
    ensures !Holds(m, a, buf)
  {
    hide At;
    if Holds(m, a, buf) {
      forall k | 0 <= k < span ensures buf[done..done + span][k] == run[k] {
        assert buf[done + k] == At(m, a, done + k);
      }
      assert false;
    }
  }

  lemma LearnStep(m: Memory, pcmp: int, policy: Policy, end: int, count: int, entry: int, off: int,
      legacy: set<int>, pci: set<int>)
    requires IsMemory(m) && 0 <= entry < count < 0x1_0000 && 44 <= off <= 44 + 20 * entry && Addr(pcmp, off) < end
    ensures var l := Learn(m, pcmp, policy, end, count, entry, off, legacy, pci);
            var kind := At(m, pcmp, off);
            var over := (Addr(pcmp, off) + 8) % SPACE > end;
            if kind == 0 then l == Learn(m, pcmp, policy, end, count, entry + 1, off + 20, legacy, pci)
            else if kind > 4 || ((kind == 1 || kind == 3) && over) then l == []
            else if kind == 1 then
              var id, name := At(m, pcmp, off + 1), BusName(m, pcmp, off);
              var isLegacy := name == ISA || name == EISA || name == MCA;
              l == Learn(m, pcmp, policy, end, count, entry + 1, off + 8, if isLegacy then legacy + {id} else legacy,
                         if !isLegacy && name == PCI then pci + {id} else pci)
            else if kind == 3 then
              l == Taught(m, pcmp, policy, off, legacy, pci) +
                   Learn(m, pcmp, policy, end, count, entry + 1, off + 8, legacy, pci)
            else l == Learn(m, pcmp, policy, end, count, entry + 1, off + 8, legacy, pci)
  {
    hide Addr, At, BusName, Taught;
  }

  lemma LearnOver(m: Memory, pcmp: int, policy: Policy, end: int, count: int, entry: int, off: int,
      legacy: set<int>, pci: set<int>)
    requires IsMemory(m) && 0 <= entry && count < 0x1_0000 && 44 <= off <= 44 + 20 * entry
    requires !(entry < count && Addr(pcmp, off) < end)
    ensures Learn(m, pcmp, policy, end, count, entry, off, legacy, pci) == []
  {
  }

  /** The bytes remembered are the bytes there, and as many. */
  ghost predicate Matches(m: Memory, s: Seen)
    requires IsMemory(m)
  {
    TableLen(m, s.pcmp) == |s.table| && Holds(m, s.fps, s.pointer) && Holds(m, s.pcmp, s.table)
  }

  /** A walk in progress: `ids` met so far, the rest still to come. */
  ghost predicate WalkedTo(m: Memory, pcmp: int, end: int, count: int, entry: int, off: int, ids: seq<int>, v: Visit)
    requires IsMemory(m) && 0 <= entry && count < 0x1_0000 && 44 <= off <= 44 + 20 * entry
  {
    && v.ids == ids + Walk(m, pcmp, end, count, entry, off).ids
    && v.complete == Walk(m, pcmp, end, count, entry, off).complete
    && forall k :: 0 <= k < |ids| ==> 44 < ids[k] < off
  }

  lemma NoIds(m: Memory, pcmp: int, bsp: Byte)
    requires IsMemory(m)
    ensures SetIds(m, pcmp, [], bsp) == m && !Wrong(m, pcmp, [], bsp)
  {
  }

  lemma WalkStart(m: Memory, pcmp: int, end: int, count: int)
    requires IsMemory(m) && count < 0x1_0000
    ensures WalkedTo(m, pcmp, end, count, 0, 44, [], Walk(m, pcmp, end, count, 0, 44))
  {
    hide Walk;
  }

  lemma WalkEnd(m: Memory, pcmp: int, end: int, count: int, entry: int, off: int, ids: seq<int>, v: Visit)
    requires IsMemory(m) && 0 <= entry && count < 0x1_0000 && 44 <= off <= 44 + 20 * entry
    requires WalkedTo(m, pcmp, end, count, entry, off, ids, v) && !(entry < count && Addr(pcmp, off) < end)
    ensures v == Visit(ids, true)
  {
  }

  /** One entry of the walk, seen in memory as patched so far. */
  lemma WalkStep(m: Memory, pcmp: int, end: int, count: int, entry: int, off: int, ids: seq<int>, v: Visit, bsp: Byte)
    requires IsMemory(m) && 0 <= entry < count < 0x1_0000 && 44 <= off <= 44 + 20 * entry
    requires WalkedTo(m, pcmp, end, count, entry, off, ids, v) && Addr(pcmp, off) < end
    ensures var s := SetIds(m, pcmp, ids, bsp);
            var kind := At(s, pcmp, off);
            && At(s, pcmp, off + 1) == At(m, pcmp, off + 1)
            && (if kind == 0 then
                  if (Addr(pcmp, off) + 20) % SPACE > end then v == Visit(ids, false)
                  else
                    var more := if At(s, pcmp, off + 3) % 4 == 3 then ids + [off + 1] else ids;
                    WalkedTo(m, pcmp, end, count, entry + 1, off + 20, more, v)
                else if kind <= 4 then WalkedTo(m, pcmp, end, count, entry + 1, off + 8, ids, v)
                else v == Visit(ids, false))
  {
    hide Addr, At, SetIds;
    SetIdsAt(m, pcmp, ids, bsp, off);
    SetIdsAt(m, pcmp, ids, bsp, off + 1);
    SetIdsAt(m, pcmp, ids, bsp, off + 3);
    if At(m, pcmp, off) == 0 && (Addr(pcmp, off) + 20) % SPACE <= end {
      var rest := Walk(m, pcmp, end, count, entry + 1, off + 20).ids;
      assert ids + ([off + 1] + rest) == (ids + [off + 1]) + rest;
    }
    assert ids + [] == ids;
  }

  lemma OneMoreId(m: Memory, pcmp: int, ids: seq<int>, bsp: Byte, id: int)
    requires IsMemory(m) && At(SetIds(m, pcmp, ids, bsp), pcmp, id) == At(m, pcmp, id)
    ensures SetIds(m, pcmp, ids + [id], bsp) == SetIds(m, pcmp, ids, bsp)[Addr(pcmp, id) := bsp]
    ensures At(m, pcmp, id) == bsp ==> SetIds(m, pcmp, ids + [id], bsp) == SetIds(m, pcmp, ids, bsp)
    ensures Wrong(m, pcmp, ids + [id], bsp) <==> Wrong(m, pcmp, ids, bsp) || At(m, pcmp, id) != bsp
  {
    hide Addr;
    var more := ids + [id];
    assert more[..|ids|] == ids;
    if Wrong(m, pcmp, ids, bsp) {
      var k :| 0 <= k < |ids| && At(m, pcmp, ids[k]) != bsp;
      assert more[k] == ids[k];
    }
    if At(m, pcmp, id) != bsp { assert more[|ids|] == id; }
    var s := SetIds(m, pcmp, ids, bsp);
    if At(m, pcmp, id) == bsp { assert s[Addr(pcmp, id) := bsp] == s; }
  }

  /** Rewriting the length and entry count writes what is there. */
  lemma HeaderKept(m: Memory, pcmp: int, ids: seq<int>, bsp: Byte)
    requires IsMemory(m) && forall k :: 0 <= k < |ids| ==> 44 < ids[k] < SPACE
    ensures var s := SetIds(m, pcmp, ids, bsp);
            && At(s, pcmp, 4) == BaseLen(m, pcmp) % 256 && At(s, pcmp, 5) == BaseLen(m, pcmp) / 256
            && At(s, pcmp, 34) == EntryCount(m, pcmp) % 256 && At(s, pcmp, 35) == EntryCount(m, pcmp) / 256
            && s[Addr(pcmp, 4) := At(s, pcmp, 4)] == s && s[Addr(pcmp, 5) := At(s, pcmp, 5)] == s
            && s[Addr(pcmp, 34) := At(s, pcmp, 34)] == s && s[Addr(pcmp, 35) := At(s, pcmp, 35)] == s
  {
    hide SetIds, Addr;
    SetIdsAt(m, pcmp, ids, bsp, 4);
    SetIdsAt(m, pcmp, ids, bsp, 5);
    SetIdsAt(m, pcmp, ids, bsp, 34);
    SetIdsAt(m, pcmp, ids, bsp, 35);
  }

  lemma RemainderIs(k: int, r: int)
    requires 0 <= r < 256
    ensures (256 * k + r) % 256 == r
  {
  }

  lemma NegMod(s: int)
    ensures (0 - s % 256) % 256 == (0 - s) % 256
  {
    var q, r := s / 256, s % 256;
    if r == 0 {
      RemainderIs(-q, 0);
      assert 0 - s == 256 * -q + 0;
    } else {
      RemainderIs(-1, 256 - r);
      RemainderIs(-q - 1, 256 - r);
      assert 0 - s == 256 * (-q - 1) + (256 - r);
    }
  }

  lemma ChecksumByte(m: Memory, pcmp: int, n: nat, sum: Byte)
    requires IsMemory(m) && sum == Sum(m[Addr(pcmp, 7) := 0], pcmp, n) % 256
    ensures m[Addr(pcmp, 7) := 0][Addr(pcmp, 7) := (0 - sum) % 256] == FixChecksum(m, pcmp, n)
  {
    hide Sum, Addr;
    NegMod(Sum(m[Addr(pcmp, 7) := 0], pcmp, n));
  }
}
