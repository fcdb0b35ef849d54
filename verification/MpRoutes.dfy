/**
 What an MP table teaches about interrupts (src/apic_platform.c): the walk that
 learns routes, and the routes it learns, by the table's bytes.
 */
module MpRoutes {
  import opened MpMemory

  function BaseLen(m: Memory, pcmp: int): int
    requires IsMemory(m)
  {
    Word(m, pcmp, 4)
  }

  function EntryCount(m: Memory, pcmp: int): int
    requires IsMemory(m)
  {
    Word(m, pcmp, 34)
  }

  /** The size a walk takes an entry for. */
  function Size(kind: Byte): int { if kind == 0 then 20 else 8 }

  datatype Route = Legacy(irq: int, pin: int) | Pci(bus: int, slot: int, line: int, pin: int)

  /** Which kinds of route the machine wants to be taught. */
  datatype Policy = Policy(legacy: bool, pci: bool)

  /** A bus type name: six characters, trailing blanks and NULs cut, then as far
      as the first NUL. */
  function Trimmed(s: seq<Byte>): seq<Byte> {
    if s != [] && (s[|s| - 1] == 0x20 || s[|s| - 1] == 0) then Trimmed(s[..|s| - 1]) else s
  }

  function CString(s: seq<Byte>): seq<Byte> {
    if s == [] || s[0] == 0 then [] else [s[0]] + CString(s[1..])
  }

  function BusName(m: Memory, pcmp: int, off: int): seq<Byte>
    requires IsMemory(m)
  {
    CString(Trimmed([At(m, pcmp, off + 2), At(m, pcmp, off + 3), At(m, pcmp, off + 4),
                     At(m, pcmp, off + 5), At(m, pcmp, off + 6), At(m, pcmp, off + 7)]))
  }

  const ISA: seq<Byte> := [0x49, 0x53, 0x41]
  const EISA: seq<Byte> := [0x45, 0x49, 0x53, 0x41]
  const MCA: seq<Byte> := [0x4d, 0x43, 0x41]
  const PCI: seq<Byte> := [0x50, 0x43, 0x49]

  /** The routes an I/O interrupt entry teaches, given the buses met so far. */
  function Taught(m: Memory, pcmp: int, policy: Policy, off: int, legacy: set<int>, pci: set<int>): seq<Route>
    requires IsMemory(m)
  {
    var bus, irq, pin := At(m, pcmp, off + 4), At(m, pcmp, off + 5), At(m, pcmp, off + 7);
    if At(m, pcmp, off + 1) != 0 then []
    else
      (if policy.legacy && bus in legacy && irq < 16 && pin < 24 then [Legacy(irq, pin)] else []) +
      (if policy.pci && bus in pci && irq / 4 < 32 && pin < 24 then [Pci(bus, irq / 4, irq % 4, pin)] else [])
  }

  /** The walk of apic_platform_mp_learn_legacy_irq_routes. */
  function Learn(m: Memory, pcmp: int, policy: Policy, end: int, count: int, entry: int, off: int,
      legacy: set<int>, pci: set<int>): seq<Route>
    requires IsMemory(m) && 0 <= entry && count < 0x1_0000 && 44 <= off <= 44 + 20 * entry
    decreases count - entry
  {
    if entry >= count || Addr(pcmp, off) >= end then []
    else
      var kind := At(m, pcmp, off);
      if kind == 0 then Learn(m, pcmp, policy, end, count, entry + 1, off + 20, legacy, pci)
      else if kind == 1 then
        if (Addr(pcmp, off) + 8) % SPACE > end then []
        else
          var id, name := At(m, pcmp, off + 1), BusName(m, pcmp, off);
          if name == ISA || name == EISA || name == MCA then
            Learn(m, pcmp, policy, end, count, entry + 1, off + 8, legacy + {id}, pci)
          else if name == PCI then Learn(m, pcmp, policy, end, count, entry + 1, off + 8, legacy, pci + {id})
          else Learn(m, pcmp, policy, end, count, entry + 1, off + 8, legacy, pci)
      else if kind == 3 then
        if (Addr(pcmp, off) + 8) % SPACE > end then []
        else
          Taught(m, pcmp, policy, off, legacy, pci) +
          Learn(m, pcmp, policy, end, count, entry + 1, off + 8, legacy, pci)
      else if kind <= 4 then Learn(m, pcmp, policy, end, count, entry + 1, off + 8, legacy, pci)
      else []
  }

  function Routes(m: Memory, pcmp: int, policy: Policy): seq<Route>
    requires IsMemory(m)
  {
    var n := BaseLen(m, pcmp);
    if (!policy.legacy && !policy.pci) || n < 44 || pcmp + n > SPACE then []
    else Learn(m, pcmp, policy, Addr(pcmp, n), EntryCount(m, pcmp), 0, 44, {}, {})
  }

  // ---- The routes, by the bytes ----

  /** Characters spell a name: it, and then a NUL or nothing but blanks and NULs. */
  predicate Spells(s: seq<Byte>, name: seq<Byte>)
    requires |name| < |s|
  {
    && s[..|name|] == name
    && (s[|name|] == 0 || forall k :: |name| <= k < |s| ==> s[k] == 0 || s[k] == 0x20)
  }

  /** The name of a bus entry, six bytes. */
  function Chars(m: Memory, pcmp: int, off: int): (s: seq<Byte>)
    requires IsMemory(m)
    ensures |s| == 6
  {
    [At(m, pcmp, off + 2), At(m, pcmp, off + 3), At(m, pcmp, off + 4),
     At(m, pcmp, off + 5), At(m, pcmp, off + 6), At(m, pcmp, off + 7)]
  }

  predicate LegacyBus(m: Memory, pcmp: int, off: int)
    requires IsMemory(m)
  {
    && At(m, pcmp, off) == 1
    && (|| Spells(Chars(m, pcmp, off), [0x49, 0x53, 0x41])
        || Spells(Chars(m, pcmp, off), [0x45, 0x49, 0x53, 0x41])
        || Spells(Chars(m, pcmp, off), [0x4d, 0x43, 0x41]))
  }

  predicate PciBus(m: Memory, pcmp: int, off: int)
    requires IsMemory(m)
  {
    At(m, pcmp, off) == 1 && Spells(Chars(m, pcmp, off), [0x50, 0x43, 0x49])
  }

  /** An entry is met: it starts below the table's end, its type is known, and a
      bus or an interrupt is all there. */
  predicate Met(m: Memory, pcmp: int, off: int)
    requires IsMemory(m)
  {
    var end := (pcmp + At(m, pcmp, 4) + 0x100 * At(m, pcmp, 5)) % SPACE;
    var at := (pcmp + off) % SPACE;
    at < end && At(m, pcmp, off) <= 4 && (At(m, pcmp, off) == 1 || At(m, pcmp, off) == 3 ==> (at + 8) % SPACE <= end)
  }

  /** The offset after an entry: processors have twenty bytes, others eight. */
  function After(m: Memory, pcmp: int, offs: seq<int>): int
    requires IsMemory(m)
  {
    if offs == [] then 44
    else var last := offs[|offs| - 1]; last + if At(m, pcmp, last) == 0 then 20 else 8
  }

  /** The entries a walk meets, up to the count the header gives. */
  predicate IsWalk(m: Memory, pcmp: int, offs: seq<int>)
    requires IsMemory(m)
  {
    var count := At(m, pcmp, 34) + 0x100 * At(m, pcmp, 35);
    && |offs| <= count
    && (forall j :: 0 <= j < |offs| ==> offs[j] == After(m, pcmp, offs[..j]) && Met(m, pcmp, offs[j]))
    && (|offs| == count || !Met(m, pcmp, After(m, pcmp, offs)))
  }

  /** Entry j teaches a route: an interrupt of the vectored kind, from a bus met
      before it. */
  predicate Teaches(m: Memory, pcmp: int, policy: Policy, offs: seq<int>, j: int, route: Route)
    requires IsMemory(m) && 0 <= j < |offs|
  {
    var off := offs[j];
    && At(m, pcmp, off) == 3 && At(m, pcmp, off + 1) == 0
    && match route
       case Legacy(irq, pin) =>
         && policy.legacy && At(m, pcmp, off + 5) == irq < 16 && At(m, pcmp, off + 7) == pin < 24
         && exists k :: 0 <= k < j && LegacyBus(m, pcmp, offs[k]) && At(m, pcmp, offs[k] + 1) == At(m, pcmp, off + 4)
       case Pci(bus, slot, line, pin) =>
         && policy.pci && At(m, pcmp, off + 4) == bus && 0 <= slot < 32 && 0 <= line < 4
         && At(m, pcmp, off + 5) == 4 * slot + line && At(m, pcmp, off + 7) == pin < 24
         && exists k :: 0 <= k < j && PciBus(m, pcmp, offs[k]) && At(m, pcmp, offs[k] + 1) == bus
  }

  // ---- Names ----

  /** What trimming leaves: the characters up to the last that is no blank. */
  lemma {:induction false} TrimmedIs(s: seq<Byte>)
    ensures |Trimmed(s)| <= |s| && Trimmed(s) == s[..|Trimmed(s)|]
    ensures forall k :: |Trimmed(s)| <= k < |s| ==> s[k] == 0 || s[k] == 0x20
    ensures Trimmed(s) != [] ==> var c := s[|Trimmed(s)| - 1]; c != 0 && c != 0x20
  {
    if s != [] && (s[|s| - 1] == 0x20 || s[|s| - 1] == 0) {
      TrimmedIs(s[..|s| - 1]);
      assert s[..|s| - 1][..|Trimmed(s)|] == s[..|Trimmed(s)|];
    } else {
      assert s[..|s|] == s;
    }
  }

  /** A string ends at its first NUL. */
  lemma {:induction false} CStringIs(s: seq<Byte>, name: seq<Byte>)
    requires 0 !in name
    ensures CString(s) == name <==> |name| <= |s| && s[..|name|] == name && (|s| == |name| || s[|name|] == 0)
  {
    if s == [] || s[0] == 0 {
      if name == [] { assert s[..0] == []; } else if s != [] { assert name[0] in name; }
    } else if name == [] {
      assert s[..0] == [];
    } else {
      CStringIs(s[1..], name[1..]);
      assert name == [name[0]] + name[1..];
      if |name| <= |s| { assert s[..|name|] == [s[0]] + s[1..][..|name| - 1]; }
    }
  }

  lemma NameSpelled(s: seq<Byte>, name: seq<Byte>)
    requires |name| < |s| && 0 < |name| && 0 !in name && name[|name| - 1] != 0x20
    ensures CString(Trimmed(s)) == name <==> Spells(s, name)
  {
    TrimmedIs(s);
    var t := Trimmed(s);
    CStringIs(t, name);
    assert name[|name| - 1] in name && s[..|name|][|name| - 1] == s[|name| - 1];
    if |name| <= |t| { assert t[..|name|] == s[..|name|]; }
  }

  lemma BusIs(m: Memory, pcmp: int, off: int)
    requires IsMemory(m) && At(m, pcmp, off) == 1
    ensures var name := BusName(m, pcmp, off);
            && ((name == ISA || name == EISA || name == MCA) <==> LegacyBus(m, pcmp, off))
            && (name == PCI <==> PciBus(m, pcmp, off))
            && !(LegacyBus(m, pcmp, off) && PciBus(m, pcmp, off))
  {
    hide At, CString, Trimmed, Spells;
    var s := Chars(m, pcmp, off);
    NameSpelled(s, ISA);
    NameSpelled(s, EISA);
    NameSpelled(s, MCA);
    NameSpelled(s, PCI);
    assert ISA[0] != PCI[0] && EISA[0] != PCI[0] && MCA[0] != PCI[0];
  }

  // ---- The walk learns what the entries teach ----

  /** The buses that learning knows when it comes to entry j. */
  predicate Known(m: Memory, pcmp: int, offs: seq<int>, j: int, legacy: set<int>, pci: set<int>)
    requires IsMemory(m) && 0 <= j <= |offs|
  {
    && (forall k :: 0 <= k < j && LegacyBus(m, pcmp, offs[k]) ==> At(m, pcmp, offs[k] + 1) in legacy)
    && (forall k :: 0 <= k < j && PciBus(m, pcmp, offs[k]) ==> At(m, pcmp, offs[k] + 1) in pci)
    && (forall b <- legacy :: exists k :: 0 <= k < j && LegacyBus(m, pcmp, offs[k]) && At(m, pcmp, offs[k] + 1) == b)
    && (forall b <- pci :: exists k :: 0 <= k < j && PciBus(m, pcmp, offs[k]) && At(m, pcmp, offs[k] + 1) == b)
  }

  /** `at` gives the entry that teaches each route. */
  ghost predicate Sourced(
      m: Memory, pcmp: int, policy: Policy, offs: seq<int>, j: int, routes: seq<Route>, at: seq<int>)
    requires IsMemory(m) && 0 <= j && |at| == |routes|
  {
    forall a :: 0 <= a < |at| ==> j <= at[a] < |offs| && Teaches(m, pcmp, policy, offs, at[a], routes[a])
  }

  /** Routes come in the order of entries, of one entry the legacy one first. */
  predicate InOrder(routes: seq<Route>, at: seq<int>)
    requires |at| == |routes|
  {
    forall a, b :: 0 <= a < b < |at| ==> at[a] < at[b] || (at[a] == at[b] && routes[a].Legacy? && routes[b].Pci?)
  }

  predicate Has(routes: seq<Route>, at: seq<int>, i: int, route: Route)
    requires |at| == |routes|
  {
    exists a :: 0 <= a < |at| && at[a] == i && routes[a] == route
  }

  /** No route is left out. */
  ghost predicate Complete(
      m: Memory, pcmp: int, policy: Policy, offs: seq<int>, j: int, routes: seq<Route>, at: seq<int>)
    requires IsMemory(m) && 0 <= j && |at| == |routes|
  {
    forall i, route :: j <= i < |offs| && Teaches(m, pcmp, policy, offs, i, route) ==> Has(routes, at, i, route)
  }

  ghost predicate Listed(m: Memory, pcmp: int, policy: Policy, offs: seq<int>, j: int, routes: seq<Route>, at: seq<int>)
    requires IsMemory(m) && 0 <= j <= |offs|
  {
    && |at| == |routes| && Sourced(m, pcmp, policy, offs, j, routes, at) && InOrder(routes, at)
    && Complete(m, pcmp, policy, offs, j, routes, at)
  }

  lemma TaughtIs(m: Memory, pcmp: int, policy: Policy, offs: seq<int>, j: int, legacy: set<int>, pci: set<int>)
    requires IsMemory(m) && 0 <= j < |offs| && Known(m, pcmp, offs, j, legacy, pci) && At(m, pcmp, offs[j]) == 3
    ensures TeachesAll(m, pcmp, policy, offs, j, Taught(m, pcmp, policy, offs[j], legacy, pci))
  {
    hide At, LegacyBus, PciBus;
  }

  ghost predicate TeachesAll(m: Memory, pcmp: int, policy: Policy, offs: seq<int>, j: int, first: seq<Route>)
    requires IsMemory(m) && 0 <= j < |offs|
  {
    && (forall route :: route in first <==> Teaches(m, pcmp, policy, offs, j, route))
    && |first| <= 2 && (|first| == 2 ==> first[0].Legacy? && first[1].Pci?)
  }

  lemma SourcedMore(m: Memory, pcmp: int, policy: Policy, offs: seq<int>, j: int, first: seq<Route>, rest: seq<Route>,
      at: seq<int>)
    requires IsMemory(m) && 0 <= j < |offs| && |at| == |rest| && Sourced(m, pcmp, policy, offs, j + 1, rest, at)
    requires TeachesAll(m, pcmp, policy, offs, j, first)
    ensures Sourced(m, pcmp, policy, offs, j, first + rest, seq(|first|, _ => j) + at)
  {
    hide Teaches;
    var routes, all := first + rest, seq(|first|, _ => j) + at;
    forall a | 0 <= a < |all| ensures j <= all[a] < |offs| && Teaches(m, pcmp, policy, offs, all[a], routes[a]) {
      if a < |first| { assert first[a] in first; } else { assert all[a] == at[a - |first|]; }
    }
  }

  lemma InOrderMore(j: int, first: seq<Route>, rest: seq<Route>, at: seq<int>)
    requires |at| == |rest| && InOrder(rest, at) && (forall a :: 0 <= a < |at| ==> j < at[a])
    requires |first| <= 2 && (|first| == 2 ==> first[0].Legacy? && first[1].Pci?)
    ensures InOrder(first + rest, seq(|first|, _ => j) + at)
  {
    var routes, all := first + rest, seq(|first|, _ => j) + at;
    forall a, b | 0 <= a < b < |all|
      ensures all[a] < all[b] || (all[a] == all[b] && routes[a].Legacy? && routes[b].Pci?)
    {
      if |first| <= a { assert all[a] == at[a - |first|] && all[b] == at[b - |first|]; }
    }
  }

  lemma CompleteMore(m: Memory, pcmp: int, policy: Policy, offs: seq<int>, j: int, first: seq<Route>, rest: seq<Route>,
      at: seq<int>)
    requires IsMemory(m) && 0 <= j < |offs| && |at| == |rest| && Complete(m, pcmp, policy, offs, j + 1, rest, at)
    requires TeachesAll(m, pcmp, policy, offs, j, first)
    ensures Complete(m, pcmp, policy, offs, j, first + rest, seq(|first|, _ => j) + at)
  {
    hide Teaches;
    var routes, all := first + rest, seq(|first|, _ => j) + at;
    forall i, route | j <= i < |offs| && Teaches(m, pcmp, policy, offs, i, route) ensures Has(routes, all, i, route) {
      if i == j {
        var a :| 0 <= a < |first| && first[a] == route;
        assert all[a] == i && routes[a] == route;
      } else {
        assert Has(rest, at, i, route);
        var a :| 0 <= a < |at| && at[a] == i && rest[a] == route;
        assert all[|first| + a] == i && routes[|first| + a] == route;
      }
    }
  }

  lemma ListedMore(m: Memory, pcmp: int, policy: Policy, offs: seq<int>, j: int, first: seq<Route>, rest: seq<Route>,
      at: seq<int>)
    requires IsMemory(m) && 0 <= j < |offs| && Listed(m, pcmp, policy, offs, j + 1, rest, at)
    requires TeachesAll(m, pcmp, policy, offs, j, first)
    ensures Listed(m, pcmp, policy, offs, j, first + rest, seq(|first|, _ => j) + at)
  {
    hide Teaches, Complete, InOrder;
    SourcedMore(m, pcmp, policy, offs, j, first, rest, at);
    InOrderMore(j, first, rest, at);
    CompleteMore(m, pcmp, policy, offs, j, first, rest, at);
  }

  lemma NothingTaught(m: Memory, pcmp: int, policy: Policy, offs: seq<int>, j: int)
    requires IsMemory(m) && 0 <= j < |offs| && At(m, pcmp, offs[j]) != 3
    ensures TeachesAll(m, pcmp, policy, offs, j, [])
  {
  }

  /** The buses known after entry j. */
  lemma KnownMore(m: Memory, pcmp: int, offs: seq<int>, j: int, legacy: set<int>, pci: set<int>)
    requires IsMemory(m) && 0 <= j < |offs| && Known(m, pcmp, offs, j, legacy, pci)
    ensures var id := At(m, pcmp, offs[j] + 1);
            Known(m, pcmp, offs, j + 1, if LegacyBus(m, pcmp, offs[j]) then legacy + {id} else legacy,
                  if PciBus(m, pcmp, offs[j]) then pci + {id} else pci)
  {
    hide At, LegacyBus, PciBus;
  }

  lemma {:induction false} LearnListed(m: Memory, pcmp: int, policy: Policy, offs: seq<int>, j: int, off: int,
      legacy: set<int>, pci: set<int>) returns (at: seq<int>)
    requires IsMemory(m) && IsWalk(m, pcmp, offs) && 0 <= j <= |offs| && Known(m, pcmp, offs, j, legacy, pci)
    requires off == After(m, pcmp, offs[..j]) && 44 <= off <= 44 + 20 * j
    ensures Listed(m, pcmp, policy, offs, j,
                   Learn(m, pcmp, policy, Addr(pcmp, BaseLen(m, pcmp)), EntryCount(m, pcmp), j, off, legacy, pci), at)
    decreases |offs| - j
  {
    hide At, Known, Listed, Taught, TeachesAll, LegacyBus, PciBus, BusName;
    var end, count := Addr(pcmp, BaseLen(m, pcmp)), EntryCount(m, pcmp);
    if j == |offs| {
      assert offs[..j] == offs;
      NothingListed(m, pcmp, policy, offs);
      at := [];
    } else {
      assert offs[j] == After(m, pcmp, offs[..j]) && Met(m, pcmp, offs[j]);
      assert offs[..j + 1][j] == offs[j] && |offs[..j + 1]| == j + 1;
      KnownMore(m, pcmp, offs, j, legacy, pci);
      KindsApart(m, pcmp, off);
      var id := At(m, pcmp, off + 1);
      var l := if LegacyBus(m, pcmp, off) then legacy + {id} else legacy;
      var p := if PciBus(m, pcmp, off) then pci + {id} else pci;
      at := LearnListed(m, pcmp, policy, offs, j + 1, After(m, pcmp, offs[..j + 1]), l, p);
      var rest := Learn(m, pcmp, policy, end, count, j + 1, After(m, pcmp, offs[..j + 1]), l, p);
      if At(m, pcmp, off) == 3 {
        TaughtIs(m, pcmp, policy, offs, j, legacy, pci);
        var first := Taught(m, pcmp, policy, off, legacy, pci);
        ListedMore(m, pcmp, policy, offs, j, first, rest, at);
        at := seq(|first|, _ => j) + at;
      } else {
        NothingTaught(m, pcmp, policy, offs, j);
        ListedMore(m, pcmp, policy, offs, j, [], rest, at);
        assert [] + rest == rest && seq(0, _ => j) + at == at;
      }
    }
  }

  lemma NothingListed(m: Memory, pcmp: int, policy: Policy, offs: seq<int>)
    requires IsMemory(m)
    ensures Listed(m, pcmp, policy, offs, |offs|, [], [])
  {
  }

  lemma KindsApart(m: Memory, pcmp: int, off: int)
    requires IsMemory(m)
    ensures LegacyBus(m, pcmp, off) || PciBus(m, pcmp, off) ==> At(m, pcmp, off) == 1
    ensures At(m, pcmp, off) == 1 ==>
              var name := BusName(m, pcmp, off);
              && ((name == ISA || name == EISA || name == MCA) <==> LegacyBus(m, pcmp, off))
              && (name == PCI <==> PciBus(m, pcmp, off))
              && !(LegacyBus(m, pcmp, off) && PciBus(m, pcmp, off))
  {
    hide At, Spells, BusName;
    if At(m, pcmp, off) == 1 { BusIs(m, pcmp, off); }
  }

  /** The header lets a walk begin, and someone is to be taught. */
  predicate Taken(m: Memory, pcmp: int, policy: Policy)
    requires IsMemory(m)
  {
    var n := At(m, pcmp, 4) + 0x100 * At(m, pcmp, 5);
    (policy.legacy || policy.pci) && 44 <= n && pcmp + n <= SPACE
  }

  /** The routes of a table, by its bytes. */
  ghost predicate RoutesOf(m: Memory, pcmp: int, policy: Policy, routes: seq<Route>)
    requires IsMemory(m)
  {
    if Taken(m, pcmp, policy) then
      exists offs, at :: IsWalk(m, pcmp, offs) && Listed(m, pcmp, policy, offs, 0, routes, at)
    else routes == []
  }

  lemma {:induction false} WalkOn(m: Memory, pcmp: int, offs: seq<int>) returns (all: seq<int>)
    requires IsMemory(m) && |offs| <= EntryCount(m, pcmp)
    requires forall j :: 0 <= j < |offs| ==> offs[j] == After(m, pcmp, offs[..j]) && Met(m, pcmp, offs[j])
    ensures IsWalk(m, pcmp, all)
    decreases EntryCount(m, pcmp) - |offs|
  {
    hide At, Met, After;
    var next := After(m, pcmp, offs);
    if |offs| == EntryCount(m, pcmp) || !Met(m, pcmp, next) {
      all := offs;
    } else {
      var more := offs + [next];
      forall j | 0 <= j < |more| ensures more[j] == After(m, pcmp, more[..j]) && Met(m, pcmp, more[j]) {
        assert more[..j] == offs[..j];
        if j == |offs| { assert offs[..j] == offs; }
      }
      all := WalkOn(m, pcmp, more);
    }
  }

  /** Learning gives exactly the routes the table's bytes spell out. */
  lemma RoutesByBytes(m: Memory, pcmp: int, policy: Policy)
    requires IsMemory(m)
    ensures RoutesOf(m, pcmp, policy, Routes(m, pcmp, policy))
  {
    hide Learn, At, IsWalk, Listed, Known;
    if Taken(m, pcmp, policy) {
      var offs := WalkOn(m, pcmp, []);
      NoneKnown(m, pcmp, offs);
      assert offs[..0] == [];
      var at := LearnListed(m, pcmp, policy, offs, 0, 44, {}, {});
    }
  }

  lemma NoneKnown(m: Memory, pcmp: int, offs: seq<int>)
    requires IsMemory(m)
    ensures Known(m, pcmp, offs, 0, {}, {})
  {
  }

  /** A route is learned if and only if an entry the walk meets teaches it. */
  lemma RouteExactly(m: Memory, pcmp: int, policy: Policy, offs: seq<int>, route: Route)
    requires IsMemory(m) && Taken(m, pcmp, policy) && IsWalk(m, pcmp, offs)
    ensures route in Routes(m, pcmp, policy) <==>
            exists j :: 0 <= j < |offs| && Teaches(m, pcmp, policy, offs, j, route)
  {
    hide Learn, At, IsWalk, Teaches, Known;
    NoneKnown(m, pcmp, offs);
    assert offs[..0] == [];
    var at := LearnListed(m, pcmp, policy, offs, 0, 44, {}, {});
  }
}
