/**
 Scatter-gather lists a device writes into (src/dma.c): the same walk as a read,
 whatever is written, as long as it does not fall on the descriptors.
 */
module DmaWrittenList {
  import opened Arithmetic
  import opened DmaChannel
  import opened DmaScatterGather

  // ---- A write walks the list as a read does ----

  predicate Written(k: Kind) { k.Write? || k.Verify? }

  /** The channel a device writes through, where `s` is the one it would read. */
  function AsWritten(s: Channel, k: Kind): Channel {
    s.(mode := s.mode.(kind := k))
  }

  lemma SameStatus(s: Channel, k: Kind)
    ensures AsWritten(s, k).sg == s.sg
  {
  }

  /** Memory in which the descriptors are still those of the table. */
  predicate Intact(t: Table, m: Memory)
    requires t.Valid()
  {
    forall i :: 0 <= i < t.n ==>
      var d := t.Pointer(i) - t.Pointer(i) % 4;
      Dword(m, d) == Dword(t.mem, d) && Dword(m, d + 4) == Dword(t.mem, d + 4)
  }

  lemma FetchIntact(t: Table, m: Memory, s: Channel, i: int)
    requires t.Valid() && Intact(t, m) && s.Valid(t.cfg) && 0 <= i < t.n && s.ptr == t.Pointer(i)
    ensures SgFetch(t.cfg, m, s) == SgFetch(t.cfg, t.mem, s)
  {
    hide Dword, DescriptorUnits, Wrap;
  }

  lemma LoadIntact(t: Table, m: Memory, s: Channel, i: int, u: int)
    requires t.Valid() && Intact(t, m) && At(t, s, i, u)
    ensures SgLoad(t.cfg, m, s) == SgLoad(t.cfg, t.mem, s)
  {
    hide Dword, DescriptorUnits, Wrap, SgFetch;
    if !s.sg.cur {
      var c := s.(ac := s.ab, cc := s.cb, sg := s.sg.(base := false, cur := true));
      if i < t.n - 1 { FetchIntact(t, m, c, i + 1); } else { NoFetch(t.cfg, m, c); NoFetch(t.cfg, t.mem, c); }
    }
  }

  lemma NoFetch(cfg: Config, m: Memory, s: Channel)
    requires cfg.Valid() && s.Valid(cfg) && s.sg.nnl
    ensures SgFetch(cfg, m, s) == s
  {
  }

  lemma UnitsWritten(cfg: Config, mode: Mode, k: Kind, info: int)
    requires mode.width == 1 || mode.width == 2 || mode.width == 4
    ensures DescriptorUnits(cfg, mode.(kind := k), info) == DescriptorUnits(cfg, mode, info)
  {
    hide DescriptorBytes;
  }

  lemma FetchWritten(cfg: Config, m: Memory, s: Channel, k: Kind)
    requires cfg.Valid() && s.Valid(cfg)
    ensures SgFetch(cfg, m, AsWritten(s, k)) == AsWritten(SgFetch(cfg, m, s), k)
    ensures SgFetch(cfg, m, s).sg.active == s.sg.active && SgFetch(cfg, m, s).mode == s.mode
    ensures SgFetch(cfg, m, s).pending == s.pending
  {
    hide Dword, Wrap, DescriptorUnits;
    UnitsWritten(cfg, s.mode, k, Dword(m, s.ptr - s.ptr % 4 + 4));
    if s.sg.nnl {
    } else if Dword(m, s.ptr - s.ptr % 4 + 4) >= 0x8000_0000 {
    } else {
    }
  }

  lemma LoadWritten(cfg: Config, m: Memory, s: Channel, k: Kind)
    requires cfg.Valid() && s.Valid(cfg)
    ensures SgLoad(cfg, m, AsWritten(s, k)) == AsWritten(SgLoad(cfg, m, s), k)
    ensures SgLoad(cfg, m, s).sg.active == s.sg.active && SgLoad(cfg, m, s).mode == s.mode
    ensures SgLoad(cfg, m, s).pending == s.pending
  {
    hide SgFetch;
    FetchWritten(cfg, m, s.(ac := s.ab, cc := s.cb, sg := s.sg.(base := false, cur := true)), k);
  }

  lemma AddressWritten(cfg: Config, s: Channel, k: Kind, delta: int)
    requires cfg.Valid() && s.Valid(cfg)
    ensures AdvanceBy(cfg, AsWritten(s, k), delta) == AdvanceBy(cfg, s, delta)
  {
    hide InWindow;
  }

  lemma BytesWritten(cfg: Config, s: Channel, k: Kind)
    requires cfg.Valid() && s.Valid(cfg)
    ensures XferBytes(cfg, AsWritten(s, k)) == XferBytes(cfg, s) && Stride(cfg, AsWritten(s, k)) == Stride(cfg, s)
  {
  }

  lemma MoveWritten(cfg: Config, s: Channel, k: Kind)
    requires cfg.Valid() && s.Valid(cfg) && cfg.advanced
    ensures Move(cfg, AsWritten(s, k)) == AsWritten(Move(cfg, s), k)
    ensures Move(cfg, s).sg == s.sg && Move(cfg, s).mode == s.mode && Move(cfg, s).pending == s.pending
  {
    hide AdvanceBy, InWindow, XferBytes;
    BytesWritten(cfg, s, k);
    var n := if cfg.eisa then XferBytes(cfg, s) else s.mode.width;
    AddressWritten(cfg, s, k, if s.mode.decrement then -n else n);
    if cfg.eisa { } else { }
  }

  lemma ExpireWritten(s: Channel, k: Kind)
    ensures SgExpire(AsWritten(s, k)) == Counted(AsWritten(SgExpire(s).ch, k), SgExpire(s).tc)
  {
    if s.sg.base { } else { }
  }

  lemma SettleWritten(cfg: Config, s: Channel, k: Kind)
    requires s.Valid(cfg) && s.sg.active
    ensures Settle(cfg, AsWritten(s, k)) == Counted(AsWritten(Settle(cfg, s).ch, k), Settle(cfg, s).tc)
  {
    hide SgExpire, StopCheck;
    StopWritten(s, k);
    var x := StopCheck(s);
    ExpireWritten(x.(cc := x.cc - CountTaken(cfg, x), xferN := 0), k);
  }

  lemma StopWritten(s: Channel, k: Kind)
    ensures StopCheck(AsWritten(s, k)) == AsWritten(StopCheck(s), k)
    ensures StopCheck(s).sg == s.sg && StopCheck(s).mode == s.mode
  {
  }

  /** One write of a channel on the list, against the read it mirrors. */
  lemma WriteMirrors(t: Table, m: Memory, s: Channel, k: Kind, val: seq<Byte>)
    requires t.Valid() && Intact(t, m) && OnList(t, s) && Written(k) && |val| == 4
    ensures var w := WriteWide(t.cfg, m, AsWritten(s, k), val, false, false);
            var r := ReadWide(t.cfg, t.mem, s, false, false);
            && w.ch == AsWritten(r.ch, k) && w.out.Moved? && r.out.Moved?
            && w.out.addr == r.out.addr && w.out.n == r.out.n && 1 <= r.out.n <= 4 && 0 <= r.out.addr < t.cfg.space
            && w.out.over == (if t.cfg.eisa && t.mode.width == 4 then r.out.over else r.ch.masked)
            && w.out.data == (if k.Verify? then [] else val[..Handed(t.cfg, r.out.n)])
  {
    hide SgLoad, Move, Settle, XferBytes, Stride, Serving, Waiting, Slice, NarrowData;
    var i, u :| At(t, s, i, u);
    LoadIntact(t, m, s, i, u);
    LoadWritten(t.cfg, m, s, k);
    var p := SgLoad(t.cfg, m, s);
    StepWritten(t.cfg, p, k);
    assert Prepared(t.cfg, t.mem, s) == p;
    assert val[..2][..1] == val[..1];
  }

  lemma StepWritten(cfg: Config, p: Channel, k: Kind)
    requires cfg.Valid() && p.Valid(cfg) && !p.pending && p.sg.active && cfg.advanced
    ensures var m := Move(cfg, AsWritten(p, k)).(pending := false);
            && m == AsWritten(Move(cfg, p), k) && Move(cfg, p).(pending := false) == Move(cfg, p) && m.sg.active
            && Settle(cfg, m) == Counted(AsWritten(Settle(cfg, Move(cfg, p)).ch, k), Settle(cfg, Move(cfg, p)).tc)
    ensures XferBytes(cfg, AsWritten(p, k)) == XferBytes(cfg, p) && Stride(cfg, AsWritten(p, k)) == Stride(cfg, p)
    ensures Stride(cfg, p) == if cfg.eisa then XferBytes(cfg, p) else p.mode.width
  {
    hide Move, Settle, XferBytes;
    BytesWritten(cfg, p, k);
    MoveWritten(cfg, p, k);
    SettleWritten(cfg, Move(cfg, p), k);
  }

  // ---- Writing a list ----

  type Quad = (Byte, Byte, Byte, Byte)

  function Bytes(v: Quad): (s: seq<Byte>)
    ensures |s| == 4
  {
    [v.0, v.1, v.2, v.3]
  }

  /** What of the device's four bytes goes to memory. */
  function Sent(cfg: Config, k: Kind, n: int, v: Quad): seq<Byte>
    requires n <= 4
  {
    if k.Verify? || n < 0 then [] else Bytes(v)[..Handed(cfg, n)]
  }

  /** Memory after a run of writes. */
  function Stores(mem: Memory, outs: seq<Outcome>): Memory {
    if outs == [] then mem else Stored(Stores(mem, outs[..|outs| - 1]), outs[|outs| - 1])
  }

  lemma NoneStored(mem: Memory)
    ensures Stores(mem, []) == mem
  {
  }

  lemma StoresMore(mem: Memory, outs: seq<Outcome>, out: Outcome)
    ensures Stores(mem, outs + [out]) == Stored(Stores(mem, outs), out)
  {
    hide Stored;
    assert (outs + [out])[..|outs|] == outs;
  }

  lemma CommandWritten(cfg: Config, mem: Memory, s: Channel, cmd: Command, k: Kind)
    requires cfg.Valid() && s.Valid(cfg) && cmd.op == 1
    ensures SgCommand(cfg, mem, AsWritten(s, k), cmd) == AsWritten(SgCommand(cfg, mem, s, cmd), k)
  {
    hide SgFetch;
    var c := SgChoose(s, cmd);
    FetchWritten(cfg, mem, c.(sg := Sg(true, false, false, false, c.sg.eop, false, false)), k);
    if cmd.choose { } else { }
  }

  /** What a write gives where the read that mirrors it gives `r`: its end is
      told by TC on a 32-bit EISA channel, on any other by the mask. */
  function WriteOutcome(t: Table, k: Kind, r: Transferred, v: Quad): Outcome
    requires r.out.Moved? && 1 <= r.out.n <= 4
  {
    Moved(r.out.addr, r.out.n, Sent(t.cfg, k, r.out.n, v),
      if t.cfg.eisa && t.mode.width == 4 then r.out.over else r.ch.masked)
  }

  ghost predicate Mirror(t: Table, s: Channel, k: Kind, outs: seq<Outcome>, vals: nat -> Quad)
    requires t.Valid() && s.Valid(t.cfg)
  {
    forall j :: 0 <= j < |outs| ==> MirrorAt(t, s, k, j, outs[j], vals(j))
  }

  ghost predicate MirrorAt(t: Table, s: Channel, k: Kind, j: nat, out: Outcome, v: Quad)
    requires t.Valid() && s.Valid(t.cfg)
  {
    var r := ReadWide(t.cfg, t.mem, After(t, s, j), false, false);
    r.out.Moved? && 1 <= r.out.n <= 4 && out == WriteOutcome(t, k, r, v)
  }

  lemma StartOfList(t: Table, s: Channel, k: Kind, vals: nat -> Quad)
    requires t.Valid() && s.Valid(t.cfg)
    ensures Mirror(t, s, k, [], vals) && Intact(t, t.mem) && After(t, s, 0) == s
  {
    hide Dword, MirrorAt;
  }

  lemma MirrorMore(t: Table, s: Channel, k: Kind, outs: seq<Outcome>, vals: nat -> Quad, out: Outcome)
    requires t.Valid() && s.Valid(t.cfg) && Mirror(t, s, k, outs, vals)
    requires MirrorAt(t, s, k, |outs|, out, vals(|outs|))
    ensures Mirror(t, s, k, outs + [out], vals)
  {
    hide MirrorAt, Table.Valid;
  }

  lemma {:induction false} ReadsAt(t: Table, s: Channel, k: nat, j: nat)
    requires t.Valid() && s.Valid(t.cfg) && j < k
    ensures Reads(t, s, k)[j] == ReadWide(t.cfg, t.mem, After(t, s, j), false, false).out
    ensures After(t, s, j + 1) == ReadWide(t.cfg, t.mem, After(t, s, j), false, false).ch
    decreases j
  {
    hide ReadWide;
    if j > 0 { ReadsAt(t, ReadWide(t.cfg, t.mem, s, false, false).ch, k - 1, j - 1); }
  }

  lemma {:induction false} SameVisits(space: int, a: seq<Outcome>, b: seq<Outcome>)
    requires 0 < space && AllMoved(a) && |a| == |b|
    requires forall j :: 0 <= j < |a| ==> b[j].Moved? && b[j].addr == a[j].addr && b[j].n == a[j].n
    ensures AllMoved(b) && Visited(space, b) == Visited(space, a)
  {
    hide Visit;
    forall o | o in b ensures o.Moved? && 0 <= o.n {
      var j :| 0 <= j < |b| && o == b[j];
      assert a[j] in a;
    }
    if a != [] {
      assert forall o <- a[1..] :: o in a;
      SameVisits(space, a[1..], b[1..]);
    }
  }

  lemma {:induction false} VisitedIn(space: int, outs: seq<Outcome>, j: nat)
    requires 0 < space && AllMoved(outs) && j < |outs| && outs[j].Moved? && 0 <= outs[j].n
    ensures forall a <- Visit(space, outs[j].addr, outs[j].n) :: a in Visited(space, outs)
  {
    hide Visit;
    assert outs[0] in outs;
    if j > 0 {
      assert forall o <- outs[1..] :: o in outs;
      VisitedIn(space, outs[1..], j - 1);
    }
  }

  /** A byte of the descriptor table. */
  ghost predicate TableByte(t: Table, x: int)
    requires t.Valid()
  {
    exists i, b :: 0 <= i < t.n && 0 <= b < 8 && x == DescriptorByte(t, i, b)
  }

  function DescriptorByte(t: Table, i: int, b: int): int {
    Wrap(t.Pointer(i) - t.Pointer(i) % 4 + b)
  }

  /** No buffer lies on the table, nor the table where a step over the top of a
      24-bit space ends. */
  ghost predicate Apart(t: Table)
    requires t.Valid()
  {
    forall x :: TableByte(t, x) ==>
      x !in Buffers(t, 0) && !(t.cfg.space == 0x100_0000 && 0x100_0000 <= x < 0x100_0003)
  }

  function StepByte(addr: int, k: int): int { Wrap(addr + k) }

  lemma StoredAt(m: Memory, out: Outcome, x: int)
    requires out.Moved? && |out.data| <= 4 && 0 <= x < ADDRESS_SPACE
    requires forall k :: 0 <= k < |out.data| ==> StepByte(out.addr, k) != x
    ensures Stored(m, out)(x) == m(x)
  {
    var k := Wrap(x - out.addr);
    assert StepByte(out.addr, k) == x;
  }

  /** A step's bytes fall in the buffers, or just above a 24-bit space. */
  lemma StepFalls(space: int, addr: int, n: nat, k: int)
    requires (space == 0x100_0000 || space == ADDRESS_SPACE) && 0 <= addr < space && 0 <= k < n <= 4
    ensures StepByte(addr, k) in Visit(space, addr, n)
            || (space == 0x100_0000 && 0x100_0000 <= StepByte(addr, k) < 0x100_0003)
  {
    assert Visit(space, addr, n)[k] == (addr + k) % space;
    if space == ADDRESS_SPACE { } else { }
  }

  lemma StoredIntact(t: Table, m: Memory, out: Outcome)
    requires t.Valid() && Intact(t, m) && Apart(t)
    requires out.Moved? && 0 <= out.addr < t.cfg.space && |out.data| <= out.n <= 4
    requires forall a <- Visit(t.cfg.space, out.addr, out.n) :: a in Buffers(t, 0)
    ensures Intact(t, Stored(m, out))
  {
    hide Stored, Wrap, StepByte, Visit;
    var q := Stored(m, out);
    forall i, b | 0 <= i < t.n && 0 <= b < 8 ensures q(DescriptorByte(t, i, b)) == m(DescriptorByte(t, i, b)) {
      var x := DescriptorByte(t, i, b);
      assert TableByte(t, x);
      forall k | 0 <= k < |out.data| ensures StepByte(out.addr, k) != x {
        StepFalls(t.cfg.space, out.addr, out.n, k);
      }
      StoredAt(m, out, x);
    }
    forall i | 0 <= i < t.n
      ensures var d := t.Pointer(i) - t.Pointer(i) % 4; Dword(q, d) == Dword(m, d) && Dword(q, d + 4) == Dword(m, d + 4)
    {
      DwordsSame(t, m, q, i);
    }
  }

  lemma DwordsSame(t: Table, m: Memory, q: Memory, i: int)
    requires t.Valid() && 0 <= i < t.n
    requires forall b :: 0 <= b < 8 ==> q(DescriptorByte(t, i, b)) == m(DescriptorByte(t, i, b))
    ensures var d := t.Pointer(i) - t.Pointer(i) % 4; Dword(q, d) == Dword(m, d) && Dword(q, d + 4) == Dword(m, d + 4)
  {
    hide Wrap;
    var d := t.Pointer(i) - t.Pointer(i) % 4;
    assert DescriptorByte(t, i, 0) == Wrap(d) && DescriptorByte(t, i, 1) == Wrap(d + 1);
    assert DescriptorByte(t, i, 2) == Wrap(d + 2) && DescriptorByte(t, i, 3) == Wrap(d + 3);
    assert DescriptorByte(t, i, 4) == Wrap(d + 4) && DescriptorByte(t, i, 5) == Wrap(d + 4 + 1);
    assert DescriptorByte(t, i, 6) == Wrap(d + 4 + 2) && DescriptorByte(t, i, 7) == Wrap(d + 4 + 3);
  }

  /** The j-th write of a list: it goes as the j-th read would, and leaves the
      descriptors as they are. */
  lemma ListWrite(t: Table, s: Channel, k: nat, kind: Kind, m: Memory, j: nat, v: Quad)
    requires t.Valid() && s.Valid(t.cfg) && Drains(t, s, k, Buffers(t, 0)) && j < k && Written(kind)
    requires Intact(t, m) && (kind.Write? ==> Apart(t))
    ensures var w := WriteWide(t.cfg, m, AsWritten(After(t, s, j), kind), Bytes(v), false, false);
            var r := ReadWide(t.cfg, t.mem, After(t, s, j), false, false);
            && w.ch == AsWritten(After(t, s, j + 1), kind) && r.out.Moved? && 1 <= r.out.n <= 4
            && w.out == WriteOutcome(t, kind, r, v) && MirrorAt(t, s, kind, j, w.out, v) && Intact(t, Stored(m, w.out))
  {
    hide WriteWide, ReadWide, Stored, Intact, Apart, Drains, OnList, Buffers;
    OnListAt(t, s, k, j);
    WriteMirrors(t, m, After(t, s, j), kind, Bytes(v));
    ReadsAt(t, s, k, j);
    var out := WriteWide(t.cfg, m, AsWritten(After(t, s, j), kind), Bytes(v), false, false).out;
    if kind.Verify? { NothingStored(t, m, out); } else { StoredIntact(t, m, out); }
  }

  lemma OnListAt(t: Table, s: Channel, k: nat, j: nat)
    requires t.Valid() && Drains(t, s, k, Buffers(t, 0)) && j < k
    ensures OnList(t, After(t, s, j))
    ensures var out := ReadWide(t.cfg, t.mem, After(t, s, j), false, false).out;
            out.Moved? && 0 <= out.n && forall a <- Visit(t.cfg.space, out.addr, out.n) :: a in Buffers(t, 0)
  {
    hide ReadWide, OnList, Visit, Visited, Buffers, FromMemory, Ended;
    ReadsAt(t, s, k, j);
    assert Reads(t, s, k)[j] in Reads(t, s, k);
    VisitedIn(t.cfg.space, Reads(t, s, k), j);
  }

  lemma NothingStored(t: Table, m: Memory, out: Outcome)
    requires t.Valid() && Intact(t, m) && out.Moved? && out.data == []
    ensures Intact(t, Stored(m, out))
  {
    var q := Stored(m, out);
    forall x ensures q(x) == m(x) { }
  }

  lemma WriteAt(t: Table, s: Channel, k: nat, kind: Kind, out: Outcome, v: Quad, j: nat)
    requires t.Valid() && Drains(t, s, k, Buffers(t, 0)) && j < k && MirrorAt(t, s, kind, j, out, v)
    ensures out.Moved? && out.n <= 4 && out.data == Sent(t.cfg, kind, out.n, v)
    ensures var r := Reads(t, s, k)[j]; r.Moved? && out.addr == r.addr && out.n == r.n
    ensures out.over <==> j == k - 1 && (s.sg.eop || !(t.cfg.eisa && t.mode.width == 4))
  {
    hide ReadWide, Reads, Visited, Buffers, FromMemory, Sent, Serving, Waiting, AllMoved;
    ReadsAt(t, s, k, j);
    if j + 1 < k {
      assert OnList(t, After(t, s, j + 1));
      var i, u :| At(t, After(t, s, j + 1), i, u);
    }
  }

  /** What the writes of a whole list come to: the buffers in order, the end
      told once, where EOP was chosen or the channel is not 32 bits wide. */
  lemma WritesDrain(t: Table, s: Channel, k: nat, kind: Kind, outs: seq<Outcome>, vals: nat -> Quad)
    requires t.Valid() && s.Valid(t.cfg) && Drains(t, s, k, Buffers(t, 0)) && |outs| == k
    requires Mirror(t, s, kind, outs, vals)
    ensures AllMoved(outs) && Visited(t.cfg.space, outs) == Buffers(t, 0)
    ensures Ended(t, AsWritten(After(t, s, k), kind), s.sg.eop)
    ensures forall j :: 0 <= j < k ==> outs[j].n <= 4 && outs[j].data == Sent(t.cfg, kind, outs[j].n, vals(j))
    ensures forall j :: 0 <= j < k ==>
              (outs[j].over <==> j == k - 1 && (s.sg.eop || !(t.cfg.eisa && t.mode.width == 4)))
  {
    hide Reads, Visited, Buffers, Drains, MirrorAt, Sent, After, AllMoved;
    forall j | 0 <= j < k
      ensures outs[j].Moved? && outs[j].n <= 4 && outs[j].data == Sent(t.cfg, kind, outs[j].n, vals(j))
      ensures Reads(t, s, k)[j].Moved? && outs[j].addr == Reads(t, s, k)[j].addr && outs[j].n == Reads(t, s, k)[j].n
      ensures outs[j].over <==> j == k - 1 && (s.sg.eop || !(t.cfg.eisa && t.mode.width == 4))
    {
      WriteAt(t, s, k, kind, outs[j], vals(j), j);
    }
    Drained(t, s, k, Buffers(t, 0));
    SameVisits(t.cfg.space, Reads(t, s, k), outs);
  }
}
