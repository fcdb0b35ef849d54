/**
 Finding the MP floating pointer structure (src/apic_platform.c; section 4 of
 the Intel MultiProcessor Specification 1.1). Granules of plain memory are
 looked through by a direct pointer; the rest by bus reads.
 */
module MpSearch {
  import opened MpMemory
  import opened Optional

  const FP_SIGNATURE: int := 0x5f50_4d5f
  const PCMP_SIGNATURE: int := 0x504d_4350
  const GRANULE: int := 4096

  datatype Range = Range(base: int, len: int)
  datatype Found = Found(fps: int, pcmp: int)

  /** apic_platform_mp_pcmp_present. */
  predicate TablePresent(mem: Memory, pcmp: int)
    requires IsMemory(mem)
  {
    pcmp != 0 && pcmp <= 0xffff_fffc && Dword(mem, pcmp, 0) == PCMP_SIGNATURE
  }

  /** apic_platform_mp_fps_valid: signature, length 1, bytes summing to zero. */
  predicate PointerValid(mem: Memory, a: int)
    requires IsMemory(mem)
  {
    Dword(mem, a, 0) == FP_SIGNATURE && At(mem, a, 8) == 1 && Sum(mem, a, 16) % 256 == 0
  }

  /** A valid pointer with a table, or with none and a default configuration. */
  predicate Hit(mem: Memory, a: int)
    requires IsMemory(mem)
  {
    PointerValid(mem, a) &&
    var pcmp := Dword(mem, a, 4); TablePresent(mem, pcmp) || (pcmp == 0 && At(mem, a, 11) != 0)
  }

  // ---- Where to look ----

  predicate EbdaValid(segment: int) {
    segment != 0 && segment * 16 >= 0x400 && segment * 16 + 1024 <= 0xa_0000
  }

  /** apic_platform_mp_search_ranges, from the BIOS data area. */
  method SearchRanges(mem: Memory) returns (ranges: seq<Range>)
    requires IsMemory(mem)
    ensures ranges == Ranges(Word(mem, 0x40e, 0), Word(mem, 0x413, 0))
  {
    ranges := [];
    var segment := Word(mem, 0x40e, 0);
    var ebda := segment * 16;
    var ebdaValid := segment != 0 && ebda >= 0x400 && ebda + 1024 <= 0xa_0000;
    if ebdaValid {
      ranges := ranges + [Range(ebda, 1024)];
    }
    var kb := Word(mem, 0x413, 0);
    if !ebdaValid && kb != 0 && kb <= 640 {
      var base := kb * 1024 - 1024;
      var len := if kb < 640 then 2048 else 1024;
      if len != 0 && base < 0x10_0000 && len <= 0x10_0000 - base {
        ranges := ranges + [Range(base, len)];
      }
    }
    if ebdaValid && ebda != 0x9_fc00 {
      ranges := ranges + [Range(0x9_fc00, 1024)];
    }
    ranges := ranges + [Range(0xf_0000, 0x1_0000)];
  }

  /** The EBDA's first kilobyte and 639K, or the last kilobytes of base memory;
      then the BIOS. */
  function Ranges(segment: int, kb: int): (r: seq<Range>)
    requires 0 <= segment < 0x1_0000 && 0 <= kb < 0x1_0000
    ensures 1 <= |r| <= 3 && r[|r| - 1] == Range(0xf_0000, 0x1_0000)
    ensures forall i :: 0 <= i < |r| ==>
              0 <= r[i].base && r[i].base % 16 == 0 && 16 <= r[i].len && r[i].base + r[i].len <= 0x10_0000
  {
    var bios := [Range(0xf_0000, 0x1_0000)];
    if EbdaValid(segment) then
      var ebda := Range(segment * 16, 1024);
      if segment * 16 == 0x9_fc00 then [ebda] + bios else [ebda, Range(0x9_fc00, 1024)] + bios
    else if 1 <= kb <= 640 then [Range((kb - 1) * 1024, if kb < 640 then 2048 else 1024)] + bios
    else bios
  }

  // ---- The plain scan ----

  function Paragraph(base: int, k: int): int { base + 16 * k }

  /** Every paragraph of a range with room for a pointer. */
  function Paragraphs(r: Range): (s: seq<int>)
    requires 0 <= r.len
    ensures |s| == r.len / 16 && forall k :: 0 <= k < |s| ==> s[k] == Paragraph(r.base, k)
  {
    seq(r.len / 16, k => Paragraph(r.base, k))
  }

  function Candidates(ranges: seq<Range>): seq<int>
    requires forall i :: 0 <= i < |ranges| ==> 0 <= ranges[i].len
  {
    if ranges == [] then [] else Candidates(ranges[..|ranges| - 1]) + Paragraphs(ranges[|ranges| - 1])
  }

  function FirstHit(mem: Memory, cands: seq<int>): Option<int>
    requires IsMemory(mem)
  {
    if cands == [] then None else if Hit(mem, cands[0]) then Some(cands[0]) else FirstHit(mem, cands[1..])
  }

  lemma {:induction false} FirstHitNone(mem: Memory, cands: seq<int>)
    requires IsMemory(mem)
    requires forall k :: 0 <= k < |cands| ==> !Hit(mem, cands[k])
    ensures FirstHit(mem, cands) == None
  {
    hide Hit;
    if cands != [] {
      assert forall k :: 0 <= k < |cands[1..]| ==> cands[1..][k] == cands[k + 1];
      FirstHitNone(mem, cands[1..]);
    }
  }

  lemma {:induction false} FirstHitAt(mem: Memory, cands: seq<int>, n: int)
    requires IsMemory(mem)
    requires 0 <= n < |cands| && Hit(mem, cands[n]) && forall k :: 0 <= k < n ==> !Hit(mem, cands[k])
    ensures FirstHit(mem, cands) == Some(cands[n])
  {
    hide Hit;
    if n > 0 {
      assert forall k :: 0 <= k < n - 1 ==> cands[1..][k] == cands[k + 1];
      FirstHitAt(mem, cands[1..], n - 1);
    }
  }

  lemma {:induction false} FirstHitAppend(mem: Memory, a: seq<int>, b: seq<int>)
    requires IsMemory(mem)
    ensures FirstHit(mem, a + b) == if FirstHit(mem, a).Some? then FirstHit(mem, a) else FirstHit(mem, b)
  {
    hide Hit;
    if a == [] {
      assert a + b == b;
    } else {
      FirstHitAppend(mem, a[1..], b);
      assert (a + b)[1..] == a[1..] + b;
    }
  }

  lemma {:induction false} PrefixDecides(mem: Memory, ranges: seq<Range>, n: int)
    requires IsMemory(mem)
    requires forall i :: 0 <= i < |ranges| ==> 0 <= ranges[i].len
    requires 0 <= n <= |ranges| && FirstHit(mem, Candidates(ranges[..n])).Some?
    ensures FirstHit(mem, Candidates(ranges)) == FirstHit(mem, Candidates(ranges[..n]))
  {
    hide FirstHit;
    if n == |ranges| {
      assert ranges[..n] == ranges;
    } else {
      var rest := ranges[..|ranges| - 1];
      assert rest[..n] == ranges[..n];
      PrefixDecides(mem, rest, n);
      FirstHitAppend(mem, Candidates(rest), Paragraphs(ranges[|ranges| - 1]));
    }
  }

  // ---- The search ----

  /** Looks through [addr, stop) by direct pointer, a paragraph at a time, for
      the signature; stops at it or at the last paragraph. */
  method SkipGranule(mem: Memory, addr: int, stop: int) returns (at: int, found: bool, ghost m: nat)
    requires IsMemory(mem)
    requires addr + 16 <= stop
    ensures at == addr + 16 * m && at + 16 <= stop
    ensures found <==> Dword(mem, at, 0) == FP_SIGNATURE
    ensures forall k :: 0 <= k < m ==> Dword(mem, Paragraph(addr, k), 0) != FP_SIGNATURE
  {
    hide Dword;
    var paragraphs := (stop - addr - 16) / 16;
    var last := addr + 16 * paragraphs;
    at, m := addr, 0;
    while true
      invariant at == addr + 16 * m && m <= paragraphs
      invariant forall k :: 0 <= k < m ==> Dword(mem, Paragraph(addr, k), 0) != FP_SIGNATURE
      decreases paragraphs - m
    {
      found := Dword(mem, at, 0) == FP_SIGNATURE;
      if found || at == last {
        return;
      }
      at, m := at + 16, m + 1;
    }
  }

  /** One range of apic_platform_mp_find_table. `direct` says where a run of
      memory inside a granule can be read through a pointer. */
  method SearchRange(mem: Memory, direct: (int, int) -> bool, r: Range) returns (hit: Option<int>)
    requires IsMemory(mem)
    requires 0 <= r.base && 0 <= r.len
    ensures hit == FirstHit(mem, Paragraphs(r))
  {
    hide Hit, FirstHit, Dword;
    var end := r.base + r.len;
    var addr := r.base;
    ghost var cands, n: nat := Paragraphs(r), 0;
    while addr + 16 <= end
      invariant addr == Paragraph(r.base, n) && n <= |cands|
      invariant forall k :: 0 <= k < n ==> !Hit(mem, cands[k])
      decreases end - addr
    {
      var granuleEnd := (addr / GRANULE + 1) * GRANULE;
      var stop := if granuleEnd < end then granuleEnd else end;
      var check := true;
      if stop - addr >= 16 && direct(addr, stop - addr) {
        var at, found, m := SkipGranule(mem, addr, stop);
        NoneSkipped(mem, cands, r.base, n, addr, m);
        addr, n := at, n + m;
        check := found;
      }
      NeedsSignature(mem, addr);
      if check && Hit(mem, addr) {
        FirstHitAt(mem, cands, n);
        return Some(addr);
      }
      addr, n := addr + 16, n + 1;
    }
    FirstHitNone(mem, cands);
    return None;
  }

  lemma NoneSkipped(mem: Memory, cands: seq<int>, base: int, n: nat, addr: int, m: nat)
    requires IsMemory(mem)
    requires n + m <= |cands| && addr == Paragraph(base, n)
    requires forall k :: 0 <= k < |cands| ==> cands[k] == Paragraph(base, k)
    requires forall k :: 0 <= k < m ==> Dword(mem, Paragraph(addr, k), 0) != FP_SIGNATURE
    ensures forall k :: n <= k < n + m ==> !Hit(mem, cands[k])
  {
    hide Hit, Dword;
    forall k | n <= k < n + m ensures !Hit(mem, cands[k]) {
      assert Paragraph(addr, k - n) == cands[k];
      NeedsSignature(mem, cands[k]);
    }
  }

  lemma NeedsSignature(mem: Memory, a: int)
    requires IsMemory(mem)
    ensures Hit(mem, a) ==> Dword(mem, a, 0) == FP_SIGNATURE
  {
  }

  /** What FirstHit means: the earliest candidate that hits, or none does. */
  lemma {:induction false} FirstHitIsFirst(mem: Memory, cands: seq<int>)
    requires IsMemory(mem)
    ensures match FirstHit(mem, cands)
            case None => forall k :: 0 <= k < |cands| ==> !Hit(mem, cands[k])
            case Some(a) => exists n :: 0 <= n < |cands| && cands[n] == a && Hit(mem, a) &&
                              forall k :: 0 <= k < n ==> !Hit(mem, cands[k])
  {
    hide Hit;
    if cands != [] && !Hit(mem, cands[0]) {
      FirstHitIsFirst(mem, cands[1..]);
      match FirstHit(mem, cands)
      case None =>
        forall k | 0 <= k < |cands| ensures !Hit(mem, cands[k]) { if k > 0 { assert cands[k] == cands[1..][k - 1]; } }
      case Some(a) =>
        var n :| && 0 <= n < |cands[1..]| && cands[1..][n] == a && Hit(mem, a)
                 && forall k :: 0 <= k < n ==> !Hit(mem, cands[1..][k]);
        assert cands[n + 1] == a;
        forall k | 0 <= k < n + 1 ensures !Hit(mem, cands[k]) { if k > 0 { assert cands[k] == cands[1..][k - 1]; } }
    }
  }

  // ---- The search, by the bytes ----

  /** A floating pointer with a table behind it, or naming a default
      configuration instead. */
  predicate Pointer(mem: Memory, a: int)
    requires IsMemory(mem)
  {
    var p := At(mem, a, 4) + 0x100 * At(mem, a, 5) + 0x1_0000 * At(mem, a, 6) + 0x100_0000 * At(mem, a, 7);
    // _MP_, sixteen bytes, summing to zero
    && At(mem, a, 0) == 0x5f && At(mem, a, 1) == 0x4d && At(mem, a, 2) == 0x50 && At(mem, a, 3) == 0x5f
    && At(mem, a, 8) == 1
    && (At(mem, a, 0) + At(mem, a, 1) + At(mem, a, 2) + At(mem, a, 3) + At(mem, a, 4) + At(mem, a, 5)
        + At(mem, a, 6) + At(mem, a, 7) + At(mem, a, 8) + At(mem, a, 9) + At(mem, a, 10) + At(mem, a, 11)
        + At(mem, a, 12) + At(mem, a, 13) + At(mem, a, 14) + At(mem, a, 15)) % 256 == 0
    // PCMP, in memory
    && if p == 0 then At(mem, a, 11) != 0
       else && p + 4 <= 0x1_0000_0000 && At(mem, p, 0) == 0x50 && At(mem, p, 1) == 0x43
            && At(mem, p, 2) == 0x4d && At(mem, p, 3) == 0x50
  }

  lemma SignatureIs(mem: Memory, a: int)
    requires IsMemory(mem)
    ensures Dword(mem, a, 0) == FP_SIGNATURE <==>
            At(mem, a, 0) == 0x5f && At(mem, a, 1) == 0x4d && At(mem, a, 2) == 0x50 && At(mem, a, 3) == 0x5f
    ensures Dword(mem, a, 0) == PCMP_SIGNATURE <==>
            At(mem, a, 0) == 0x50 && At(mem, a, 1) == 0x43 && At(mem, a, 2) == 0x4d && At(mem, a, 3) == 0x50
  {
    hide At;
  }

  lemma SumIs(mem: Memory, a: int)
    requires IsMemory(mem)
    ensures Sum(mem, a, 16) ==
            At(mem, a, 0) + At(mem, a, 1) + At(mem, a, 2) + At(mem, a, 3) + At(mem, a, 4) + At(mem, a, 5)
            + At(mem, a, 6) + At(mem, a, 7) + At(mem, a, 8) + At(mem, a, 9) + At(mem, a, 10) + At(mem, a, 11)
            + At(mem, a, 12) + At(mem, a, 13) + At(mem, a, 14) + At(mem, a, 15)
  {
    hide At;
    assert Sum(mem, a, 4) == At(mem, a, 0) + At(mem, a, 1) + At(mem, a, 2) + At(mem, a, 3) by {
      assert Sum(mem, a, 1) == At(mem, a, 0);
      assert Sum(mem, a, 2) == At(mem, a, 0) + At(mem, a, 1);
    }
    assert Sum(mem, a, 6) == Sum(mem, a, 4) + At(mem, a, 4) + At(mem, a, 5);
    assert Sum(mem, a, 8) == Sum(mem, a, 6) + At(mem, a, 6) + At(mem, a, 7);
    assert Sum(mem, a, 10) == Sum(mem, a, 8) + At(mem, a, 8) + At(mem, a, 9);
    assert Sum(mem, a, 12) == Sum(mem, a, 10) + At(mem, a, 10) + At(mem, a, 11);
    assert Sum(mem, a, 14) == Sum(mem, a, 12) + At(mem, a, 12) + At(mem, a, 13);
    assert Sum(mem, a, 16) == Sum(mem, a, 14) + At(mem, a, 14) + At(mem, a, 15);
  }

  lemma HitIsPointer(mem: Memory, a: int)
    requires IsMemory(mem)
    ensures Hit(mem, a) <==> Pointer(mem, a)
  {
    hide At, Sum;
    SignatureIs(mem, a);
    SumIs(mem, a);
    SignatureIs(mem, Dword(mem, a, 4));
  }

  /** The paragraphs the MP specification has searched: the first kilobyte of the
      extended BIOS data area and the last below 640K, or without one the
      kilobytes around the end of base memory; and the BIOS. */
  predicate Searched(mem: Memory, x: int)
    requires IsMemory(mem)
  {
    var ebda := 16 * (At(mem, 0x40e, 0) + 0x100 * At(mem, 0x40f, 0));
    var kb := At(mem, 0x413, 0) + 0x100 * At(mem, 0x414, 0);
    && x % 16 == 0
    && (|| 0xf_0000 <= x < 0x10_0000
        || (if 0x400 <= ebda <= 0x9_fc00 then ebda <= x < ebda + 0x400 || 0x9_fc00 <= x < 0xa_0000
            else 1 <= kb <= 640 && 1024 * (kb - 1) <= x < 1024 * (kb + 1) && x < 0xa_0000))
  }

  /** Ranges by rising base, on paragraphs. */
  predicate Rising(ranges: seq<Range>) {
    && (forall i :: 0 <= i < |ranges| ==> 0 <= ranges[i].len && ranges[i].base % 16 == 0)
    && (forall i, j :: 0 <= i < j < |ranges| ==> ranges[i].base <= ranges[j].base)
  }

  predicate InRange(r: Range, x: int) { x % 16 == 0 && r.base <= x && x + 16 <= r.base + r.len }

  lemma ParagraphIn(r: Range, x: int)
    requires 0 <= r.len && r.base % 16 == 0
    ensures x in Paragraphs(r) <==> InRange(r, x)
  {
    if InRange(r, x) {
      var k := (x - r.base) / 16;
      assert Paragraphs(r)[k] == Paragraph(r.base, k) == x;
    }
  }

  lemma {:induction false} CandidateIn(ranges: seq<Range>, x: int)
    requires Rising(ranges)
    ensures x in Candidates(ranges) <==> exists i :: 0 <= i < |ranges| && InRange(ranges[i], x)
  {
    hide Paragraphs, InRange;
    if ranges != [] {
      var n := |ranges| - 1;
      CandidateIn(ranges[..n], x);
      ParagraphIn(ranges[n], x);
      assert forall i :: 0 <= i < n ==> ranges[..n][i] == ranges[i];
    }
  }

  /** The first hit is the lowest: no candidate below it is one. */
  lemma {:induction false} FirstIsLowest(mem: Memory, ranges: seq<Range>, x: int)
    requires IsMemory(mem) && Rising(ranges) && x in Candidates(ranges)
    ensures FirstHit(mem, Candidates(ranges)).Some? && x < FirstHit(mem, Candidates(ranges)).value ==> !Hit(mem, x)
    ensures FirstHit(mem, Candidates(ranges)).None? ==> !Hit(mem, x)
  {
    hide Hit, FirstHit, Paragraphs, InRange;
    var n := |ranges| - 1;
    var rest, last := ranges[..n], Paragraphs(ranges[n]);
    FirstHitAppend(mem, Candidates(rest), last);
    FirstHitIsFirst(mem, Candidates(rest));
    FirstHitIsFirst(mem, last);
    assert forall i :: 0 <= i < n ==> rest[i] == ranges[i];
    if x in Candidates(rest) {
      FirstIsLowest(mem, rest, x);
    } else if FirstHit(mem, Candidates(rest)).Some? {
      var a := FirstHit(mem, Candidates(rest)).value;
      CandidateIn(rest, a);
      CandidateIn(rest, x);
      ParagraphIn(ranges[n], x);
      if x < a { OverlapIn(rest, ranges[n], a, x); }
    } else {
      LowestIn(mem, ranges[n], x);
    }
  }

  lemma OverlapIn(rest: seq<Range>, last: Range, a: int, x: int)
    requires (exists i :: 0 <= i < |rest| && InRange(rest[i], a)) && InRange(last, x) && x < a
    requires forall i :: 0 <= i < |rest| ==> rest[i].base <= last.base
    ensures exists i :: 0 <= i < |rest| && InRange(rest[i], x)
  {
    var i :| 0 <= i < |rest| && InRange(rest[i], a);
    assert InRange(rest[i], x);
  }

  lemma LowestIn(mem: Memory, r: Range, x: int)
    requires IsMemory(mem) && 0 <= r.len && x in Paragraphs(r)
    ensures FirstHit(mem, Paragraphs(r)).Some? && x < FirstHit(mem, Paragraphs(r)).value ==> !Hit(mem, x)
    ensures FirstHit(mem, Paragraphs(r)).None? ==> !Hit(mem, x)
  {
    hide Hit, FirstHit;
    var cands := Paragraphs(r);
    FirstHitIsFirst(mem, cands);
    var k :| 0 <= k < |cands| && cands[k] == x;
    if FirstHit(mem, cands).Some? {
      var n :| && 0 <= n < |cands| && cands[n] == FirstHit(mem, cands).value
               && forall k :: 0 <= k < n ==> !Hit(mem, cands[k]);
      assert cands[n] == Paragraph(r.base, n) && cands[k] == Paragraph(r.base, k);
    }
  }

  lemma RangesRise(segment: int, kb: int)
    requires 0 <= segment < 0x1_0000 && 0 <= kb < 0x1_0000
    ensures Rising(Ranges(segment, kb))
  {
  }

  lemma SearchedIs(mem: Memory, x: int)
    requires IsMemory(mem)
    ensures Searched(mem, x) <==> x in Candidates(Ranges(Word(mem, 0x40e, 0), Word(mem, 0x413, 0)))
  {
    hide At, Candidates;
    assert Word(mem, 0x40e, 0) == At(mem, 0x40e, 0) + 0x100 * At(mem, 0x40f, 0) by { NextIs(mem, 0x40e); }
    assert Word(mem, 0x413, 0) == At(mem, 0x413, 0) + 0x100 * At(mem, 0x414, 0) by { NextIs(mem, 0x413); }
    var ranges := Ranges(Word(mem, 0x40e, 0), Word(mem, 0x413, 0));
    RangesRise(Word(mem, 0x40e, 0), Word(mem, 0x413, 0));
    CandidateIn(ranges, x);
    RangesHold(Word(mem, 0x40e, 0), Word(mem, 0x413, 0), x);
  }

  lemma NextIs(mem: Memory, a: int)
    requires IsMemory(mem)
    ensures At(mem, a, 1) == At(mem, a + 1, 0)
  {
  }

  lemma RangesHold(segment: int, kb: int, x: int)
    requires 0 <= segment < 0x1_0000 && 0 <= kb < 0x1_0000
    ensures var r, ebda := Ranges(segment, kb), 16 * segment;
            (exists i :: 0 <= i < |r| && InRange(r[i], x)) <==>
            && x % 16 == 0
            && (|| 0xf_0000 <= x < 0x10_0000
                || (if 0x400 <= ebda <= 0x9_fc00 then ebda <= x < ebda + 0x400 || 0x9_fc00 <= x < 0xa_0000
                    else 1 <= kb <= 640 && 1024 * (kb - 1) <= x < 1024 * (kb + 1) && x < 0xa_0000))
  {
    hide Ranges, InRange;
    RangesAre(segment, kb);
    var r := Ranges(segment, kb);
    BiosIn(x);
    if EbdaValid(segment) {
      KilobyteIn(16 * segment, 1024, x);
      KilobyteIn(0x9_fc00, 1024, x);
    } else if 1 <= kb <= 640 {
      KilobyteIn((kb - 1) * 1024, if kb < 640 then 2048 else 1024, x);
    }
    if |r| == 1 {
      assert (exists i :: 0 <= i < |r| && InRange(r[i], x)) <==> InRange(r[0], x);
    } else if |r| == 2 {
      assert (exists i :: 0 <= i < |r| && InRange(r[i], x)) <==> InRange(r[0], x) || InRange(r[1], x);
    } else {
      assert (exists i :: 0 <= i < |r| && InRange(r[i], x)) <==>
             InRange(r[0], x) || InRange(r[1], x) || InRange(r[2], x);
    }
  }

  lemma KilobyteIn(base: int, len: int, x: int)
    requires base % 16 == 0 && len % 16 == 0
    ensures InRange(Range(base, len), x) <==> x % 16 == 0 && base <= x < base + len
  {
  }

  lemma BiosIn(x: int)
    ensures InRange(Range(0xf_0000, 0x1_0000), x) <==> x % 16 == 0 && 0xf_0000 <= x < 0x10_0000
  {
    KilobyteIn(0xf_0000, 0x1_0000, x);
  }

  lemma RangesAre(segment: int, kb: int)
    requires 0 <= segment < 0x1_0000 && 0 <= kb < 0x1_0000
    ensures var bios, last := Range(0xf_0000, 0x1_0000), Range(0x9_fc00, 1024);
            Ranges(segment, kb) ==
            if EbdaValid(segment) then
              (if 16 * segment == 0x9_fc00 then [last, bios] else [Range(16 * segment, 1024), last, bios])
            else if 1 <= kb <= 640 then [Range((kb - 1) * 1024, if kb < 640 then 2048 else 1024), bios]
            else [bios]
  {
  }

  lemma DwordIs(mem: Memory, a: int)
    requires IsMemory(mem)
    ensures Dword(mem, a, 4) ==
            At(mem, a, 4) + 0x100 * At(mem, a, 5) + 0x1_0000 * At(mem, a, 6) + 0x100_0000 * At(mem, a, 7)
  {
    hide At;
  }

  lemma LowestFound(mem: Memory)
    requires IsMemory(mem)
    ensures match FirstHit(mem, Candidates(Ranges(Word(mem, 0x40e, 0), Word(mem, 0x413, 0))))
            case None => forall x :: Searched(mem, x) ==> !Pointer(mem, x)
            case Some(a) =>
              Searched(mem, a) && Pointer(mem, a) && forall x :: x < a && Searched(mem, x) ==> !Pointer(mem, x)
  {
    hide Hit, FirstHit, Candidates, Searched, Pointer, Ranges, Word;
    var ranges := Ranges(Word(mem, 0x40e, 0), Word(mem, 0x413, 0));
    RangesRise(Word(mem, 0x40e, 0), Word(mem, 0x413, 0));
    var first := FirstHit(mem, Candidates(ranges));
    forall x | Searched(mem, x)
      ensures first.Some? && x < first.value ==> !Pointer(mem, x)
      ensures first.None? ==> !Pointer(mem, x)
    {
      SearchedIs(mem, x);
      FirstIsLowest(mem, ranges, x);
      HitIsPointer(mem, x);
    }
    FirstHitIsFirst(mem, Candidates(ranges));
    match FirstHit(mem, Candidates(ranges))
    case None =>
    case Some(a) => SearchedIs(mem, a); HitIsPointer(mem, a);
  }

  /** apic_platform_mp_find_table: whatever can be read directly, the answer is
      the plain scan's. */
  method FindTable(mem: Memory, direct: (int, int) -> bool) returns (r: Option<Found>)
    requires IsMemory(mem)
    ensures var first := FirstHit(mem, Candidates(Ranges(Word(mem, 0x40e, 0), Word(mem, 0x413, 0))));
            r == match first case None => None case Some(a) => Some(Found(a, Dword(mem, a, 4)))
    // which is the lowest floating pointer of the paragraphs searched
    ensures match r
            case None => forall x :: Searched(mem, x) ==> !Pointer(mem, x)
            case Some(f) =>
              && Searched(mem, f.fps) && Pointer(mem, f.fps)
              && f.pcmp == At(mem, f.fps, 4) + 0x100 * At(mem, f.fps, 5) + 0x1_0000 * At(mem, f.fps, 6)
                           + 0x100_0000 * At(mem, f.fps, 7)
              && forall x :: x < f.fps && Searched(mem, x) ==> !Pointer(mem, x)
  {
    hide Hit, FirstHit, Dword, Ranges, Searched, Pointer;
    LowestFound(mem);
    var ranges := SearchRanges(mem);
    var n := 0;
    assert ranges[..0] == [];
    FirstHitNone(mem, Candidates(ranges[..0]));
    while n < |ranges|
      invariant 0 <= n <= |ranges|
      invariant FirstHit(mem, Candidates(ranges[..n])) == None
    {
      var hit := SearchRange(mem, direct, ranges[n]);
      assert ranges[..n + 1][..n] == ranges[..n];
      FirstHitAppend(mem, Candidates(ranges[..n]), Paragraphs(ranges[n]));
      if hit.Some? {
        PrefixDecides(mem, ranges, n + 1);
        DwordIs(mem, hit.value);
        return Some(Found(hit.value, Dword(mem, hit.value, 4)));
      }
      n := n + 1;
    }
    assert ranges[..n] == ranges;
    return None;
  }
}
