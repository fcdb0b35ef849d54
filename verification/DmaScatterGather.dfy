/**
 Scatter-gather (src/dma.c; section 6.6 of the 82374EB data book): a list of
 descriptors in memory, and what a device reading through it visits.
 */
module DmaScatterGather {
  import opened Arithmetic
  import opened DmaChannel

  // ---- Status over every run ----

  predicate SgInvariant(sg: Sg) {
    && (sg.active ==> sg.cur || sg.base)
    && (sg.active && !sg.base ==> sg.nnl)
    && !(sg.active && sg.term)
  }

  /** Everything that can happen to a channel. Programming, masks, reset of
      other registers and the passage of the other channels are Program: any
      change that leaves the scatter-gather status alone. */
  datatype Op =
    | Command(cmd: Command)
    | Transfer(mem: Memory, groupOff: bool, soft: bool, wide: bool, val: (Byte, Byte, Byte, Byte))
    | ReadUncounted(mem: Memory, groupOff: bool, soft: bool)
    | CountLate
    | MasterClear
    | Program(ch: Channel)

  function Apply(cfg: Config, mem: Memory, ch: Channel, op: Op): (r: Channel)
    requires cfg.Valid() && ch.Valid(cfg)
    ensures r.Valid(cfg)
  {
    match op
    case Command(cmd) => SgCommand(cfg, mem, ch, cmd)
    case Transfer(m, groupOff, soft, wide, v) =>
      if ch.mode.kind.Read? then
        if wide then ReadWide(cfg, m, ch, groupOff, soft).ch else ReadNarrow(cfg, m, ch, groupOff, soft).ch
      else if wide then WriteWide(cfg, m, ch, [v.0, v.1, v.2, v.3], groupOff, soft).ch
      else WriteNarrow(cfg, m, ch, [v.0, v.1], groupOff, soft).ch
    case ReadUncounted(m, groupOff, soft) => ReadOnly(cfg, m, ch, groupOff, soft).ch
    case CountLate => Advance(cfg, ch).ch
    case MasterClear =>
      ch.(ab := 0, ac := 0, cb := 0, cc := 0, xferN := 0, masked := true,
          sg := ch.sg.(active := false, eop := false, nnl := false, int13 := false))
    case Program(p) => if p.Valid(cfg) then p.(sg := ch.sg) else ch
  }

  /** A run: each step with the memory there is when it happens. */
  function Run(cfg: Config, ch: Channel, steps: seq<(Memory, Op)>): (r: Channel)
    requires cfg.Valid() && ch.Valid(cfg)
    ensures r.Valid(cfg)
  {
    if steps == [] then ch
    else
      var last := steps[|steps| - 1];
      Apply(cfg, last.0, Run(cfg, ch, steps[..|steps| - 1]), last.1)
  }

  lemma FetchKeeps(cfg: Config, mem: Memory, ch: Channel)
    requires cfg.Valid() && ch.Valid(cfg)
    ensures var r := SgFetch(cfg, mem, ch);
            && r.sg.active == ch.sg.active && r.sg.term == ch.sg.term && r.sg.cur == ch.sg.cur
            && (r.sg.base == (ch.sg.base || !ch.sg.nnl)) && (ch.sg.nnl ==> r.sg.nnl)
  {
  }

  lemma LoadKeeps(cfg: Config, mem: Memory, ch: Channel)
    requires cfg.Valid() && ch.Valid(cfg) && SgInvariant(ch.sg)
    ensures SgInvariant(SgLoad(cfg, mem, ch).sg)
  {
    hide SgFetch;
    if ch.sg.active && !ch.sg.cur && ch.sg.base {
      FetchKeeps(cfg, mem, ch.(ac := ch.ab, cc := ch.cb, sg := ch.sg.(base := false, cur := true)));
    }
  }

  lemma CountOutKeeps(cfg: Config, ch: Channel)
    requires ch.Valid(cfg) && SgInvariant(ch.sg)
    ensures SgInvariant(CountOut(cfg, ch).ch.sg)
  {
    if ch.sg.active {
      if ch.sg.base { } else { }
    } else if cfg.eisa && ch.chain.on {
      if ch.chain.next { } else { }
    } else if ch.mode.autoInit {
    } else {
    }
  }

  lemma SettleKeeps(cfg: Config, ch: Channel)
    requires ch.Valid(cfg) && SgInvariant(ch.sg)
    ensures SgInvariant(Settle(cfg, ch).ch.sg) && SgInvariant(Advance(cfg, ch).ch.sg)
  {
    hide CountOut;
    var s := StopCheck(ch);
    CountOutKeeps(cfg, s.(cc := s.cc - CountTaken(cfg, s), xferN := 0));
  }

  lemma MoveKeeps(cfg: Config, ch: Channel)
    requires cfg.Valid() && ch.Valid(cfg)
    ensures Move(cfg, ch).sg == ch.sg
  {
    hide AdvanceBy, InWindow, XferBytes;
  }

  lemma TransferKeeps(cfg: Config, mem: Memory, ch: Channel)
    requires cfg.Valid() && ch.Valid(cfg) && SgInvariant(ch.sg)
    ensures SgInvariant(Prepared(cfg, mem, ch).sg)
    ensures SgInvariant(Settle(cfg, Move(cfg, Prepared(cfg, mem, ch))).ch.sg)
    ensures SgInvariant(Settle(cfg, Move(cfg, Prepared(cfg, mem, ch)).(pending := false)).ch.sg)
    ensures SgInvariant(Settle(cfg, Move(cfg, SgLoad(cfg, mem, ch)).(pending := false)).ch.sg)
  {
    hide SgLoad, Settle, Move;
    SettleKeeps(cfg, ch);
    LoadKeeps(cfg, mem, Advance(cfg, ch).ch);
    LoadKeeps(cfg, mem, ch);
    MoveKeeps(cfg, Prepared(cfg, mem, ch));
    MoveKeeps(cfg, SgLoad(cfg, mem, ch));
    SettleKeeps(cfg, Move(cfg, Prepared(cfg, mem, ch)));
    SettleKeeps(cfg, Move(cfg, Prepared(cfg, mem, ch)).(pending := false));
    SettleKeeps(cfg, Move(cfg, SgLoad(cfg, mem, ch)).(pending := false));
  }

  lemma CommandKeeps(cfg: Config, mem: Memory, ch: Channel, op: int)
    requires cfg.Valid() && ch.Valid(cfg) && SgInvariant(ch.sg)
    ensures SgInvariant(SgExecute(cfg, mem, ch, op).sg)
  {
    hide SgFetch;
    FetchKeeps(cfg, mem, ch.(sg := Sg(true, false, false, false, ch.sg.eop, false, false)));
    if op == 1 { } else if op == 2 { } else { }
  }

  lemma ApplyKeeps(cfg: Config, mem: Memory, ch: Channel, op: Op)
    requires cfg.Valid() && ch.Valid(cfg) && SgInvariant(ch.sg)
    ensures SgInvariant(Apply(cfg, mem, ch, op).sg)
  {
    hide Prepared, Settle, Move, SgLoad, SgExecute, XferBytes, Stride, NarrowData, Slice;
    match op
    case Command(cmd) => CommandKeeps(cfg, mem, SgChoose(ch, cmd), cmd.op);
    case Transfer(m, _, _, _, _) => TransferKeeps(cfg, m, ch);
    case ReadUncounted(m, _, _) => TransferKeeps(cfg, m, ch); MoveKeeps(cfg, Prepared(cfg, m, ch));
    case CountLate => SettleKeeps(cfg, ch);
    case MasterClear =>
    case Program(_) =>
  }

  /** Whatever happens from reset on, an active channel has a buffer, has more
      to fetch unless Next Link Null says not, and is not terminated. */
  lemma {:induction false} StatusInvariant(cfg: Config, ch: Channel, steps: seq<(Memory, Op)>)
    requires cfg.Valid() && ch.Valid(cfg) && !ch.sg.active
    ensures SgInvariant(Run(cfg, ch, steps).sg)
  {
    hide Apply;
    if steps != [] {
      var last := steps[|steps| - 1];
      StatusInvariant(cfg, ch, steps[..|steps| - 1]);
      ApplyKeeps(cfg, last.0, Run(cfg, ch, steps[..|steps| - 1]), last.1);
    }
  }

  // ---- Lists ----

  /** A descriptor table: n descriptors at `ptr`, as a channel in `mode` reads
      it. Only the last has End of List. */
  datatype Table = Table(cfg: Config, mode: Mode, mem: Memory, ptr: int, n: int) {
    predicate Valid() {
      && cfg.Valid() && cfg.advanced
      && (mode.width == 1 || mode.width == 2 || mode.width == 4) && 0 <= mode.extSize <= 3
      && mode.kind.Read? && mode.enabled && !mode.decrement && !mode.stopOn
      && 0 <= ptr < ADDRESS_SPACE && 0 < n
      && (forall i :: 0 <= i < n ==> (EndOfList(i) <==> i == n - 1))
    }

    function Pointer(i: int): int { (ptr + 8 * i) % ADDRESS_SPACE }

    /** Byte b of descriptor i, whose eight bytes start on a dword. */
    function At(i: int, b: int): Byte {
      mem((Pointer(i) / 4 * 4 + b) % ADDRESS_SPACE)
    }

    predicate EndOfList(i: int) { At(i, 7) >= 0x80 }

    /** Where buffer i starts. */
    function Start(i: int): int
      requires cfg.Valid()
    {
      (At(i, 0) + 0x100 * At(i, 1) + 0x1_0000 * At(i, 2) + 0x100_0000 * At(i, 3)) % cfg.space
    }

    /** Its length: 24 bits on an EISA controller, else an even 16; none is all. */
    function Length(i: int): (n: int)
      ensures 0 < n
    {
      if cfg.eisa then
        var n := At(i, 4) + 0x100 * At(i, 5) + 0x1_0000 * At(i, 6);
        if n == 0 then 0x100_0000 else n
      else
        var n := At(i, 4) / 2 * 2 + 0x100 * At(i, 5);
        if n == 0 then 0x1_0000 else n
    }

    /** A channel counts bytes, or units of its width. */
    predicate ByBytes() { cfg.eisa && (mode.extSize == 2 || mode.extSize == 3) }

    /** Its length in what the channel counts, at least one. */
    function Units(i: int): (u: int)
      requires Valid()
      ensures 0 < u
    {
      if ByBytes() then Length(i) else Max(1, Length(i) / mode.width)
    }

    /** Bytes that u counted units are. */
    function Span(u: int): int {
      if ByBytes() then u else u * mode.width
    }
  }

  /** The addresses of n bytes from addr on. */
  function Visit(space: int, addr: int, n: int): (s: seq<int>)
    requires 0 < space && 0 <= n
    ensures |s| == n && forall k :: 0 <= k < n ==> s[k] == (addr + k) % space
  {
    seq(n, k requires 0 <= k < n => (addr + k) % space)
  }

  /** The bytes of buffers i and after, concatenated in order. */
  function Buffers(t: Table, i: int): seq<int>
    requires t.Valid() && 0 <= i <= t.n
    decreases t.n - i
  {
    if i == t.n then [] else Visit(t.cfg.space, t.Start(i), t.Span(t.Units(i))) + Buffers(t, i + 1)
  }

  predicate AllMoved(outs: seq<Outcome>) {
    forall o :: o in outs ==> o.Moved? && 0 <= o.n
  }

  /** What a run of reads visits. */
  function Visited(space: int, outs: seq<Outcome>): seq<int>
    requires 0 < space && AllMoved(outs)
  {
    if outs == [] then [] else Visit(space, outs[0].addr, outs[0].n) + Visited(space, outs[1..])
  }

  function Reads(t: Table, ch: Channel, k: nat): (outs: seq<Outcome>)
    requires t.Valid() && ch.Valid(t.cfg)
    ensures |outs| == k
    decreases k
  {
    if k == 0 then []
    else var r := ReadWide(t.cfg, t.mem, ch, false, false); [r.out] + Reads(t, r.ch, k - 1)
  }

  function After(t: Table, ch: Channel, k: nat): (r: Channel)
    requires t.Valid() && ch.Valid(t.cfg)
    ensures r.Valid(t.cfg)
    decreases k
  {
    if k == 0 then ch else After(t, ReadWide(t.cfg, t.mem, ch, false, false).ch, k - 1)
  }

  predicate Open(t: Table, s: Channel) {
    && s.Valid(t.cfg) && s.mode == t.mode && s.sg.active && !s.sg.int13
    && !s.masked && !s.pending && s.xferN == 0
  }

  /** Descriptor i is in the base registers; the pointer is at the next one. */
  predicate Holds(t: Table, s: Channel, i: int)
    requires t.Valid()
  {
    && s.sg.base && 0 <= i < t.n && s.ab == t.Start(i) && s.cb == t.Units(i) - 1
    && (s.sg.nnl <==> i == t.n - 1)
    && (i < t.n - 1 ==> s.ptr == t.Pointer(i + 1))
  }

  /** Buffer i is moving with u units left, and the one after it, if any, is
      prefetched. */
  predicate Serving(t: Table, s: Channel, i: int, u: int)
    requires t.Valid()
  {
    && Open(t, s) && s.sg.cur && 0 <= i < t.n && 0 < u && s.cc == u - 1
    && s.ac == (t.Start(i) + t.Span(t.Units(i)) - t.Span(u)) % t.cfg.space
    && (if i == t.n - 1 then !s.sg.base && s.sg.nnl else Holds(t, s, i + 1))
  }

  /** Between buffers, or before the first: buffer i is next. */
  predicate Waiting(t: Table, s: Channel, i: int)
    requires t.Valid()
  {
    Open(t, s) && !s.sg.cur && Holds(t, s, i)
  }

  predicate Ended(t: Table, s: Channel, eop: bool) {
    && s.Valid(t.cfg) && s.masked && s.tcStatus
    && !s.sg.active && s.sg.term && !s.sg.cur && s.sg.int13 == !eop
  }

  /** What the fetch makes of the eight bytes. */
  lemma FetchReads(t: Table, i: int)
    requires t.Valid()
    ensures var d := t.Pointer(i) - t.Pointer(i) % 4;
            var info := Dword(t.mem, d + 4);
            && Dword(t.mem, d) % t.cfg.space == t.Start(i)
            && DescriptorUnits(t.cfg, t.mode, info) == t.Units(i)
            && (info >= 0x8000_0000 <==> t.EndOfList(i))
  {
    var p := t.Pointer(i);
    assert p - p % 4 == p / 4 * 4;
    InfoBytes(t.At(i, 4), t.At(i, 5), t.At(i, 6), t.At(i, 7));
  }

  lemma Low24(x: int, q: int)
    requires 0 <= x < 0x100_0000
    ensures (x + 0x100_0000 * q) % 0x100_0000 == x
  {
  }

  lemma Low16(x: int, q: int)
    requires 0 <= x < 0x1_0000
    ensures (x + 0x1_0000 * q) % 0x1_0000 == x
  {
  }

  lemma LowBit(x: int, q: int)
    ensures (x + 2 * q) % 2 == x - x / 2 * 2
  {
  }

  lemma InfoBytes(b0: Byte, b1: Byte, b2: Byte, b3: Byte)
    ensures var info := b0 + 0x100 * b1 + 0x1_0000 * b2 + 0x100_0000 * b3;
            && info % 0x100_0000 == b0 + 0x100 * b1 + 0x1_0000 * b2
            && info % 0x1_0000 - info % 2 == b0 / 2 * 2 + 0x100 * b1
            && (info >= 0x8000_0000 <==> b3 >= 0x80)
  {
    Low24(b0 + 0x100 * b1 + 0x1_0000 * b2, b3);
    Low16(b0 + 0x100 * b1, b2 + 0x100 * b3);
    LowBit(b0, 0x80 * b1 + 0x8000 * b2 + 0x80_0000 * b3);
  }

  lemma FetchHolds(t: Table, s: Channel, i: int)
    requires t.Valid() && s.Valid(t.cfg) && s.mode == t.mode
    requires 0 <= i < t.n && !s.sg.nnl && s.ptr == t.Pointer(i)
    ensures var r := SgFetch(t.cfg, t.mem, s);
            && Holds(t, r, i) && r.(ab := s.ab, cb := s.cb, ptr := s.ptr, sg := s.sg) == s
            && r.sg == s.sg.(base := true, nnl := r.sg.nnl)
  {
    hide Dword, DescriptorUnits, Wrap;
    PointerStep(t, i);
    FetchReads(t, i);
    if t.EndOfList(i) { } else { }
  }

  lemma PointerStep(t: Table, i: int)
    ensures Wrap(t.Pointer(i) + 8) == t.Pointer(i + 1)
  {
  }

  /** The first transfer from a waiting buffer moves it in and fetches ahead. */
  lemma LoadServes(t: Table, s: Channel, i: int)
    requires t.Valid() && Waiting(t, s, i)
    ensures Serving(t, SgLoad(t.cfg, t.mem, s), i, t.Units(i))
    ensures SgLoad(t.cfg, t.mem, s).sg.eop == s.sg.eop
  {
    hide Dword, DescriptorUnits, Wrap;
    var c := s.(ac := s.ab, cc := s.cb, sg := s.sg.(base := false, cur := true));
    assert SgLoad(t.cfg, t.mem, s) == SgFetch(t.cfg, t.mem, c);
    if i < t.n - 1 {
      hide SgFetch;
      FetchHolds(t, c, i + 1);
    } else {
      assert SgFetch(t.cfg, t.mem, c) == c;
    }
    SmallMod(t.Start(i), t.cfg.space);
  }

  /** What the step of a serving channel is. */
  function Taken(t: Table, p: Channel): int
    requires p.Valid(t.cfg)
  {
    if CountsBytes(t.cfg, t.mode) then XferBytes(t.cfg, p) else 1
  }

  lemma MoveServes(t: Table, p: Channel, i: int, u: int)
    requires t.Valid() && Serving(t, p, i, u)
    ensures 1 <= Taken(t, p) <= u && t.Span(u) == Stride(t.cfg, p) + t.Span(u - Taken(t, p))
    ensures var m := Move(t.cfg, p);
            && m == p.(ac := (p.ac + Stride(t.cfg, p)) % t.cfg.space, xferN := m.xferN)
            && CountTaken(t.cfg, m) == Taken(t, p)
  {
  }

  lemma SettleServes(t: Table, m: Channel, i: int, u: int, taken: int, step: int)
    requires t.Valid() && m.Valid(t.cfg)
        && Serving(t, m.(xferN := 0, ac := (t.Start(i) + t.Span(t.Units(i)) - t.Span(u)) % t.cfg.space), i, u)
    requires CountTaken(t.cfg, m) == taken && 1 <= taken <= u && t.Span(u) == step + t.Span(u - taken)
    requires m.ac == (t.Start(i) + t.Span(t.Units(i)) - t.Span(u - taken)) % t.cfg.space
    ensures var c := Settle(t.cfg, m);
            if taken < u then !c.tc && Serving(t, c.ch, i, u - taken) && c.ch.sg.eop == m.sg.eop
            else if i < t.n - 1 then !c.tc && Waiting(t, c.ch, i + 1) && c.ch.sg.eop == m.sg.eop
            else c.tc == m.sg.eop && Ended(t, c.ch, m.sg.eop)
  {
    if taken < u { } else if i < t.n - 1 { } else { }
  }

  /** A channel serving the table at (i, u): a read moves Stride bytes on. */
  predicate At(t: Table, s: Channel, i: int, u: int)
    requires t.Valid()
  {
    Open(t, s) && (Serving(t, s, i, u) || (Waiting(t, s, i) && u == t.Units(i)))
  }

  /** Some buffer of the list is moving or next, the one after it prefetched. */
  ghost predicate OnList(t: Table, s: Channel)
    requires t.Valid()
  {
    exists i, u :: At(t, s, i, u)
  }

  /** How much of a step's n bytes the device exchanges: the 8- and 16-bit
      interface has only two bytes for a step of four. */
  function Handed(cfg: Config, n: int): int { if cfg.eisa then n else Min(n, 2) }

  /** The device was handed the bytes from each step's address on. (A step over
      the top of a 24-bit space reads on above it, though the address it goes
      to is 0.) */
  predicate FromMemory(t: Table, outs: seq<Outcome>) {
    forall o :: o in outs ==> o.Moved? && 0 <= o.n && o.data == Slice(t.mem, o.addr, Handed(t.cfg, o.n))
  }

  lemma VisitSplit(space: int, addr: int, a: int, b: int)
    requires 0 < space && 0 <= a && 0 <= b
    ensures Visit(space, addr, a + b) == Visit(space, addr, a) + Visit(space, addr + a, b)
  {
  }

  lemma AddMod(a: int, k: int, m: int)
    requires m == ADDRESS_SPACE || m == 0x100_0000
    ensures (a % m + k) % m == (a + k) % m
  {
    if m == ADDRESS_SPACE { } else { }
  }

  lemma VisitWrapped(space: int, addr: int, n: int)
    requires (space == ADDRESS_SPACE || space == 0x100_0000) && 0 <= n
    ensures Visit(space, addr % space, n) == Visit(space, addr, n)
  {
    var a, b := Visit(space, addr % space, n), Visit(space, addr, n);
    forall k | 0 <= k < n ensures a[k] == b[k] {
      AddMod(addr, k, space);
    }
  }

  function Left(t: Table, i: int, u: int): seq<int>
    requires t.Valid() && 0 <= i < t.n && 0 < u
  {
    Visit(t.cfg.space, t.Start(i) + t.Span(t.Units(i)) - t.Span(u), t.Span(u)) + Buffers(t, i + 1)
  }

  /** One read of a channel serving the list. */
  lemma ReadServes(t: Table, s: Channel, i: int, u: int)
    requires t.Valid() && At(t, s, i, u)
    ensures var r := ReadWide(t.cfg, t.mem, s, false, false);
            var p := SgLoad(t.cfg, t.mem, s);
            var taken := Taken(t, p);
            && Serving(t, p, i, u)
            && r.out.Moved? && r.out.addr == p.ac && r.out.n == Stride(t.cfg, p)
            && r.out.data == Slice(t.mem, p.ac, Handed(t.cfg, r.out.n))
            && 1 <= taken <= u && t.Span(u) == Stride(t.cfg, p) + t.Span(u - taken)
            && if taken < u then !r.out.over && At(t, r.ch, i, u - taken) && r.ch.sg.eop == s.sg.eop
               else if i < t.n - 1 then !r.out.over && At(t, r.ch, i + 1, t.Units(i + 1)) && r.ch.sg.eop == s.sg.eop
               else r.out.over == s.sg.eop && Ended(t, r.ch, s.sg.eop)
  {
    hide Settle, Move, SgLoad, Holds, CountTaken, XferBytes, Slice, ReadWide, Stride;
    if Waiting(t, s, i) && !Serving(t, s, i, u) { LoadServes(t, s, i); } else { ServingLoaded(t, s, i, u); }
    var p := SgLoad(t.cfg, t.mem, s);
    ReadIs(t, s, p);
    MoveServes(t, p, i, u);
    var m := Move(t.cfg, p);
    NextAddress(t, i, u, u - Taken(t, p), Stride(t.cfg, p));
    assert m.(xferN := 0, ac := p.ac) == p;
    SettleServes(t, m, i, u, Taken(t, p), Stride(t.cfg, p));
  }

  /** What a read of a channel with nothing pending comes to. */
  lemma ReadIs(t: Table, s: Channel, p: Channel)
    requires t.Valid() && Open(t, s) && p == SgLoad(t.cfg, t.mem, s) && Open(t, p)
    ensures var r := ReadWide(t.cfg, t.mem, s, false, false);
            var c := Settle(t.cfg, Move(t.cfg, p));
            var n := Stride(t.cfg, p);
            r.ch == c.ch && r.out == Moved(p.ac, n, Slice(t.mem, p.ac, Handed(t.cfg, n)), c.tc)
  {
    hide Settle, Move, SgLoad, XferBytes, Slice, NarrowData;
    assert Prepared(t.cfg, t.mem, s) == p;
    MovePending(t.cfg, p);
    if !t.cfg.eisa || t.mode.width != 4 { NarrowIs(t.cfg, t.mem, p); }
  }

  lemma MovePending(cfg: Config, p: Channel)
    requires cfg.Valid() && p.Valid(cfg) && !p.pending
    ensures Move(cfg, p).(pending := false) == Move(cfg, p)
  {
    hide AdvanceBy, InWindow, XferBytes;
  }

  lemma NarrowIs(cfg: Config, mem: Memory, p: Channel)
    requires cfg.Valid() && p.Valid(cfg) && cfg.advanced && (cfg.eisa ==> p.mode.width <= 2)
    ensures NarrowData(cfg, mem, p) == Slice(mem, p.ac, Handed(cfg, Stride(cfg, p)))
  {
    hide Slice;
  }

  lemma ServingLoaded(t: Table, s: Channel, i: int, u: int)
    requires t.Valid() && Serving(t, s, i, u)
    ensures SgLoad(t.cfg, t.mem, s) == s
  {
  }

  lemma NextAddress(t: Table, i: int, u: int, v: int, step: int)
    requires t.Valid() && t.Span(u) == step + t.Span(v)
    ensures var e := t.Start(i) + t.Span(t.Units(i));
            ((e - t.Span(u)) % t.cfg.space + step) % t.cfg.space == (e - t.Span(v)) % t.cfg.space
  {
    AddMod(t.Start(i) + t.Span(t.Units(i)) - t.Span(u), step, t.cfg.space);
  }

  /** k reads from s visit `left` and end the list: no TC before the last read,
      which masks the channel, sets Terminate and gives EOP or IRQ13 as chosen.
      All the way, the buffer after the one moving is in the base registers. */
  ghost predicate Drains(t: Table, s: Channel, k: nat, left: seq<int>)
    requires t.Valid()
  {
    && s.Valid(t.cfg)
    && AllMoved(Reads(t, s, k)) && Visited(t.cfg.space, Reads(t, s, k)) == left
    && FromMemory(t, Reads(t, s, k))
    && (forall j :: 0 <= j < k ==> OnList(t, After(t, s, j)))
    && (forall j :: 0 <= j < k ==> (Reads(t, s, k)[j].over <==> j == k - 1 && s.sg.eop))
    && Ended(t, After(t, s, k), s.sg.eop)
  }

  /** One read in front of a run that drains the rest. */
  lemma DrainsStep(t: Table, s: Channel, j: nat, rest: seq<int>)
    requires t.Valid() && s.Valid(t.cfg) && OnList(t, s)
    requires var r := ReadWide(t.cfg, t.mem, s, false, false);
             && r.out.Moved? && 0 <= r.out.n && FromMemory(t, [r.out])
             && if j == 0 then rest == [] && r.out.over == s.sg.eop && Ended(t, r.ch, s.sg.eop)
                else !r.out.over && r.ch.sg.eop == s.sg.eop && Drains(t, r.ch, j, rest)
    ensures var r := ReadWide(t.cfg, t.mem, s, false, false);
            Drains(t, s, j + 1, Visit(t.cfg.space, r.out.addr, r.out.n) + rest)
  {
    hide ReadWide, Ended, At, OnList, Visit, Slice;
    var r := ReadWide(t.cfg, t.mem, s, false, false);
    ReadsStep(t, s, j);
    if j == 0 { assert Reads(t, r.ch, 0) == []; }
    AfterStep(t, s, j);
  }

  /** From any point of the list, some number of reads visits exactly what is
      left of it. */
  lemma {:induction false} Drain(t: Table, s: Channel, i: int, u: int) returns (k: nat)
    requires t.Valid() && At(t, s, i, u)
    ensures 0 < k && Drains(t, s, k, Left(t, i, u))
    decreases t.n - i, u
  {
    hide ReadWide, Holds, Serving, SgLoad, Stride, Waiting, Taken, Ended, Slice, Visit, Left, Visited, Drains;
    ReadServes(t, s, i, u);
    var r := ReadWide(t.cfg, t.mem, s, false, false);
    var p := SgLoad(t.cfg, t.mem, s);
    var taken := Taken(t, p);
    ServingAddress(t, p, i, u);
    LeftSplit(t, i, u, u - taken, Stride(t.cfg, p));
    var j: nat := 0;
    if taken < u {
      j := Drain(t, r.ch, i, u - taken);
      DrainsStep(t, s, j, Left(t, i, u - taken));
    } else if i < t.n - 1 {
      j := Drain(t, r.ch, i + 1, t.Units(i + 1));
      DrainsStep(t, s, j, Buffers(t, i + 1));
    } else {
      DrainsStep(t, s, 0, []);
    }
    k := j + 1;
  }

  lemma AfterStep(t: Table, s: Channel, j: nat)
    requires t.Valid() && s.Valid(t.cfg) && OnList(t, s)
    requires forall q :: 0 <= q < j ==> OnList(t, After(t, ReadWide(t.cfg, t.mem, s, false, false).ch, q))
    ensures forall q :: 0 <= q < j + 1 ==> OnList(t, After(t, s, q))
  {
    hide ReadWide, At, OnList;
    forall q | 0 <= q < j + 1 ensures OnList(t, After(t, s, q)) {
      if q > 0 { assert After(t, s, q) == After(t, ReadWide(t.cfg, t.mem, s, false, false).ch, q - 1); }
    }
  }

  /** What is left splits into what the next read moves and the rest. */
  lemma LeftSplit(t: Table, i: int, u: int, v: int, step: int)
    requires t.Valid() && 0 <= i < t.n && 0 < u && 0 <= v && 0 <= step && t.Span(u) == step + t.Span(v)
    ensures var first := (t.Start(i) + t.Span(t.Units(i)) - t.Span(u)) % t.cfg.space;
            Left(t, i, u) == Visit(t.cfg.space, first, step) + (if 0 < v then Left(t, i, v) else Buffers(t, i + 1))
    ensures i < t.n - 1 ==> Buffers(t, i + 1) == Left(t, i + 1, t.Units(i + 1))
  {
    hide Dword, DescriptorUnits, Visit, Wrap, CountsBytes;
    var first := t.Start(i) + t.Span(t.Units(i)) - t.Span(u);
    VisitWrapped(t.cfg.space, first, step);
    VisitSplit(t.cfg.space, first, step, t.Span(v));
  }

  lemma ReadsStep(t: Table, s: Channel, j: nat)
    requires t.Valid() && s.Valid(t.cfg)
    ensures var r := ReadWide(t.cfg, t.mem, s, false, false);
            && Reads(t, s, j + 1) == [r.out] + Reads(t, r.ch, j)
            && After(t, s, j + 1) == After(t, r.ch, j)
            && (r.out.Moved? && 0 <= r.out.n && AllMoved(Reads(t, r.ch, j)) ==>
                  && AllMoved(Reads(t, s, j + 1))
                  && Visited(t.cfg.space, Reads(t, s, j + 1)) ==
                       Visit(t.cfg.space, r.out.addr, r.out.n) + Visited(t.cfg.space, Reads(t, r.ch, j)))
            && (FromMemory(t, [r.out]) && FromMemory(t, Reads(t, r.ch, j)) ==> FromMemory(t, Reads(t, s, j + 1)))
  {
    hide ReadWide, Visit, Slice;
    var r := ReadWide(t.cfg, t.mem, s, false, false);
    assert ([r.out] + Reads(t, r.ch, j))[1..] == Reads(t, r.ch, j);
  }

  lemma ServingAddress(t: Table, p: Channel, i: int, u: int)
    requires t.Valid() && Serving(t, p, i, u)
    ensures 0 <= i < t.n && 0 < u && p.ac == (t.Start(i) + t.Span(t.Units(i)) - t.Span(u)) % t.cfg.space
  {
  }

  /** Start, then reads: the device gets the listed buffers, concatenated in
      order, and nothing else. */
  lemma StartVisitsList(t: Table, ch: Channel, cmd: Command) returns (k: nat)
    requires t.Valid() && ch.Valid(t.cfg) && ch.mode == t.mode && ch.ptr == t.ptr
    requires !ch.masked && !ch.pending && ch.xferN == 0 && cmd.op == 1
    ensures var s := SgCommand(t.cfg, t.mem, ch, cmd);
            && Drains(t, s, k, Buffers(t, 0))
            && s.sg.eop == (if cmd.choose then cmd.useEop else ch.sg.eop)
            && ReadWide(t.cfg, t.mem, After(t, s, k), false, false).out.NoData?
  {
    hide Ended, Dword, Visit, Visited, Reads;
    var c := SgChoose(ch, cmd);
    var d := c.(sg := Sg(true, false, false, false, c.sg.eop, false, false));
    FetchHolds(t, d, 0);
    k := Drain(t, SgCommand(t.cfg, t.mem, ch, cmd), 0, t.Units(0));
    LeftSplit(t, 0, t.Units(0), t.Units(0), 0);
    EndedMasked(t, After(t, SgCommand(t.cfg, t.mem, ch, cmd), k), c.sg.eop);
  }

  lemma EndedMasked(t: Table, s: Channel, eop: bool)
    requires t.Valid() && Ended(t, s, eop)
    ensures ReadWide(t.cfg, t.mem, s, false, false).out.NoData?
  {
  }

  /** A read more, at the end. */
  lemma {:induction false} ReadsSnoc(t: Table, s: Channel, j: nat)
    requires t.Valid() && s.Valid(t.cfg)
    ensures var r := ReadWide(t.cfg, t.mem, After(t, s, j), false, false);
            Reads(t, s, j + 1) == Reads(t, s, j) + [r.out] && After(t, s, j + 1) == r.ch
    decreases j
  {
    hide ReadWide;
    if j > 0 {
      var first := ReadWide(t.cfg, t.mem, s, false, false);
      ReadsSnoc(t, first.ch, j - 1);
      assert Reads(t, s, j + 1) == [first.out] + Reads(t, first.ch, j);
    }
  }

  /** The list is active until its last read. */
  lemma ActiveOnList(t: Table, s: Channel, k: nat, left: seq<int>, j: nat)
    requires t.Valid() && Drains(t, s, k, left) && j <= k
    ensures After(t, s, j).sg.active <==> j < k
  {
    hide Reads, Visited, FromMemory, ReadWide;
    if j < k {
      assert OnList(t, After(t, s, j));
      var i, u :| At(t, After(t, s, j), i, u);
    }
  }

  /** What draining comes to. */
  lemma Drained(t: Table, s: Channel, k: nat, left: seq<int>)
    requires t.Valid() && Drains(t, s, k, left)
    ensures AllMoved(Reads(t, s, k)) && Visited(t.cfg.space, Reads(t, s, k)) == left && FromMemory(t, Reads(t, s, k))
    ensures forall j :: 0 <= j < k ==> (Reads(t, s, k)[j].over <==> j == k - 1 && s.sg.eop)
    ensures Ended(t, After(t, s, k), s.sg.eop)
  {
    hide Reads, Visited, FromMemory, ReadWide, Ended, After, OnList, AllMoved;
  }
}
