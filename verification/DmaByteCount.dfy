/**
 EISA channels counting by bytes (src/dma.c, dma_xfer_bytes, dma_count_take,
 dma_channel_read32/write32): the transfers tile the programmed byte range.
 */
module DmaByteCount {
  import opened DmaChannel

  /** A device moving data in the programmed direction, by hardware request. */
  function Transfer(cfg: Config, mem: Memory, ch: Channel, val: seq<Byte>): (r: Transferred)
    requires cfg.Valid() && ch.Valid(cfg) && |val| == 4
    ensures r.ch.Valid(cfg)
  {
    if ch.mode.kind.Read? then ReadWide(cfg, mem, ch, false, false)
    else WriteWide(cfg, mem, ch, val, false, false)
  }

  /** An incrementing channel counting by bytes, ready to move count + 1 of
      them from its current address. */
  predicate Ready(cfg: Config, ch: Channel) {
    && cfg.Valid() && cfg.eisa && ch.Valid(cfg)
    && ch.mode.extSize >= 2 && ch.mode.width == (if ch.mode.extSize == 2 then 4 else 2)
    && !ch.mode.decrement && !ch.mode.stopOn && ch.mode.enabled && !ch.mode.kind.Illegal?
    && !ch.sg.active && !ch.masked && !ch.pending && ch.xferN == 0 && 0 <= ch.cc
  }

  /** The address `off` bytes on, as the counter counts: through all 32 bits in
      extended address mode, within its 64 KB in compatibility mode. */
  function AddressAfter(cfg: Config, ch: Channel, off: int): int
    requires Ready(cfg, ch)
  {
    if ch.mode.extAddr then (ch.ac + off) % cfg.space else InWindow(cfg.space, ch.ac, off, 0x1_0000)
  }

  /** Bytes moved by the first k transfers of a run of `total` bytes from
      `start`: up to the first boundary of the width, then width by width. */
  function Offset(w: int, start: int, total: int, k: nat): (o: int)
    requires 0 < w && 0 < total
    ensures 0 <= o <= total
  {
    var head := w - start % w;
    if k == 0 then 0
    else if head + (k - 1) * w < total then (HeadNonNegative(head, k - 1, w); head + (k - 1) * w)
    else total
  }

  lemma HeadNonNegative(head: int, j: nat, w: int)
    requires 0 < w && 0 < head
    ensures 0 <= head + j * w
  {
  }

  /** How many transfers a run takes. */
  function Transfers(w: int, start: int, total: int): (n: int)
    requires 0 < w && 0 < total
  {
    var head := w - start % w;
    if total <= head then 1 else 1 + (total - head + w - 1) / w
  }

  function Total(ch: Channel): int { ch.cc + 1 }

  function OffsetOf(cfg: Config, ch: Channel, k: nat): (o: int)
    requires Ready(cfg, ch)
    ensures 0 <= o <= Total(ch)
  {
    Offset(ch.mode.width, ch.ac, Total(ch), k)
  }

  /** The offsets are a tiling: they start at 0, reach the total at the last
      transfer and not before, each is at most a width further, only the
      first and last steps are narrower, and all but the first transfer
      start on a boundary. */
  lemma OffsetsTile(w: int, start: int, total: int, k: nat)
    requires (w == 2 || w == 4) && 0 <= start && 0 < total
    ensures Offset(w, start, total, 0) == 0
    ensures Offset(w, start, total, k) == total <==> Transfers(w, start, total) <= k
    ensures k < Transfers(w, start, total) ==>
              1 <= Offset(w, start, total, k + 1) - Offset(w, start, total, k) <= w
    ensures 0 < k < Transfers(w, start, total) ==> (start + Offset(w, start, total, k)) % w == 0
    ensures 0 < k < Transfers(w, start, total) - 1 ==>
              Offset(w, start, total, k + 1) - Offset(w, start, total, k) == w
  {
    hide Offset, Transfers;
    OffsetEnds(w, start, total, k);
    OffsetSteps(w, start, total, k);
    OffsetAligned(w, start, total, k);
  }

  lemma OffsetEnds(w: int, start: int, total: int, k: nat)
    requires (w == 2 || w == 4) && 0 <= start && 0 < total
    ensures Offset(w, start, total, 0) == 0
    ensures Offset(w, start, total, k) == total <==> Transfers(w, start, total) <= k
  {
    if w == 2 { } else { }
  }

  lemma OffsetSteps(w: int, start: int, total: int, k: nat)
    requires (w == 2 || w == 4) && 0 <= start && 0 < total
    ensures k < Transfers(w, start, total) ==>
              1 <= Offset(w, start, total, k + 1) - Offset(w, start, total, k) <= w
    ensures 0 < k < Transfers(w, start, total) - 1 ==>
              Offset(w, start, total, k + 1) - Offset(w, start, total, k) == w
  {
    if w == 2 { } else { }
  }

  lemma OffsetAligned(w: int, start: int, total: int, k: nat)
    requires (w == 2 || w == 4) && 0 <= start && 0 < total
    ensures 0 < k < Transfers(w, start, total) ==> (start + Offset(w, start, total, k)) % w == 0
  {
    if w == 2 { } else { }
  }

  /** What dma_xfer_bytes answers is the step between offsets. */
  lemma NextStep(w: int, start: int, total: int, k: nat)
    requires (w == 2 || w == 4) && 0 <= start && 0 < total
    requires Offset(w, start, total, k) < total
    ensures var o := Offset(w, start, total, k);
            var n := w - (start + o) % w;
            Offset(w, start, total, k + 1) - o == if total - o < n then total - o else n
  {
    if w == 2 { } else { }
  }

  lemma ModOfMod(x: int, s: int, w: int)
    requires s == ADDRESS_SPACE || s == 0x100_0000 || s == 0x1_0000
    requires w == 2 || w == 4
    ensures (x % s) % w == x % w
  {
    var q, r := x / s, x % s;
    if s == ADDRESS_SPACE {
      ModOfModQ(0x4000_0000 * q, r, x, w);
    } else if s == 0x100_0000 {
      ModOfModQ(0x40_0000 * q, r, x, w);
    } else {
      ModOfModQ(0x4000 * q, r, x, w);
    }
  }

  lemma ModOfModQ(m: int, r: int, x: int, w: int)
    requires x == 4 * m + r && (w == 2 || w == 4)
    ensures r % w == x % w
  {
    if w == 2 { DropEven(2 * m, r); } else { DropQuads(m, r); }
  }

  lemma DropEven(m: int, y: int)
    ensures (2 * m + y) % 2 == y % 2
  {
    var p := m + y / 2;
    assert 2 * m + y == 2 * p + y % 2;
  }

  lemma DropQuads(m: int, y: int)
    ensures (4 * m + y) % 4 == y % 4
  {
    var q := m + y / 4;
    assert 4 * m + y == 4 * q + y % 4;
  }

  lemma ModAdd(x: int, n: int, s: int)
    requires s == ADDRESS_SPACE || s == 0x100_0000
    ensures (x % s + n) % s == (x + n) % s
  {
    if s == ADDRESS_SPACE { } else { }
  }

  lemma SameAlignment(cfg: Config, ch: Channel, off: int)
    requires Ready(cfg, ch)
    ensures AddressAfter(cfg, ch, off) % ch.mode.width == (ch.ac + off) % ch.mode.width
  {
    hide InWindow;
    var w, x := ch.mode.width, ch.ac + off;
    if ch.mode.extAddr {
      ModOfMod(x, cfg.space, w);
    } else {
      ModOfMod(AddressAfter(cfg, ch, off), 0x1_0000, w);
      ModOfMod(x, 0x1_0000, w);
    }
  }

  lemma SameInWindow(space: int, ac: int, off: int, n: int)
    requires (space == 0x100_0000 || space == ADDRESS_SPACE) && 0 <= ac < space
    ensures InWindow(space, InWindow(space, ac, off, 0x1_0000), n, 0x1_0000) == InWindow(space, ac, off + n, 0x1_0000)
  {
    hide InWindow;
    var r, t := InWindow(space, InWindow(space, ac, off, 0x1_0000), n, 0x1_0000),
        InWindow(space, ac, off + n, 0x1_0000);
    assert r / 0x1_0000 == t / 0x1_0000 && r % 0x1_0000 == t % 0x1_0000;
  }

  /** Two steps of the counter are one. */
  lemma AddressCompose(cfg: Config, ch: Channel, off: int, n: int, mid: Channel)
    requires Ready(cfg, ch) && mid.Valid(cfg) && mid.mode == ch.mode && mid.sg == ch.sg
    requires mid.ac == AddressAfter(cfg, ch, off)
    ensures AdvanceBy(cfg, mid, n) == AddressAfter(cfg, ch, off + n)
  {
    hide InWindow;
    ModAdd(ch.ac + off, n, cfg.space);
    SameInWindow(cfg.space, ch.ac, off, n);
  }

  /** The channel after k transfers of the run. */
  function StateAt(cfg: Config, ch: Channel, k: nat): (s: Channel)
    requires Ready(cfg, ch)
    ensures s.Valid(cfg)
  {
    var o := OffsetOf(cfg, ch, k);
    ch.(ac := AddressAfter(cfg, ch, o), cc := ch.cc - o)
  }

  lemma CoreTransfer(cfg: Config, mem: Memory, s: Channel, val: seq<Byte>)
    requires Ready(cfg, s) && |val| == 4
    ensures var t := Transfer(cfg, mem, s, val);
            var n := XferBytes(cfg, s);
            var c := Settle(cfg, Move(cfg, s));
            && t.out.Moved? && t.out.addr == s.ac && t.out.n == n && t.ch == c.ch
            && (!s.chain.on ==> t.out.over == c.tc)
            && t.out.data == (match s.mode.kind case Read => Slice(mem, s.ac, n) case Write => val[..n] case _ => [])
  {
    hide Settle, AdvanceBy;
    assert s.mode.width == 4 || s.mode.width == 2;
    var m := Move(cfg, s);
    assert m.(pending := false) == m && !m.sg.active && m.chain == s.chain;
    if s.mode.kind.Read? {
      assert Prepared(cfg, mem, s) == s;
    } else {
      assert SgLoad(cfg, mem, s) == s;
      assert val[..2][..1] == val[..1];
    }
  }

  lemma CoreSettle(cfg: Config, m: Channel)
    requires cfg.eisa && m.Valid(cfg) && m.mode.extSize >= 2 && !m.mode.stopOn && !m.sg.active && 0 < m.xferN
    ensures m.xferN <= m.cc ==> Settle(cfg, m) == Counted(m.(cc := m.cc - m.xferN, xferN := 0), false)
    ensures m.cc < m.xferN && !m.chain.on ==>
              Settle(cfg, m) == Counted(
                if m.mode.autoInit then m.(softRequest := false, tcStatus := true, cc := m.cb, ac := m.ab, xferN := 0)
                else m.(softRequest := false, tcStatus := true, cc := m.cc - m.xferN, masked := true, xferN := 0), true)
  {
  }

  lemma StepBytes(cfg: Config, ch: Channel, k: nat)
    requires Ready(cfg, ch) && k < Transfers(ch.mode.width, ch.ac, Total(ch))
    ensures OffsetOf(cfg, ch, k) < Total(ch) && Ready(cfg, StateAt(cfg, ch, k))
    ensures var s := StateAt(cfg, ch, k);
            var n := OffsetOf(cfg, ch, k + 1) - OffsetOf(cfg, ch, k);
            && XferBytes(cfg, s) == n && Move(cfg, s) ==
                s.(xferN := n, ac := AddressAfter(cfg, ch, OffsetOf(cfg, ch, k + 1)))
  {
    hide AddressAfter, AdvanceBy, InWindow;
    var s, o := StateAt(cfg, ch, k), OffsetOf(cfg, ch, k);
    OffsetsTile(ch.mode.width, ch.ac, Total(ch), k);
    NextStep(ch.mode.width, ch.ac, Total(ch), k);
    SameAlignment(cfg, ch, o);
    AddressCompose(cfg, ch, o, XferBytes(cfg, s), s);
  }

  /** Transfer k of the run moves exactly the bytes between offsets k and
      k + 1, whatever memory holds by then and whatever the device sends, and
      leaves the channel at offset k + 1. The last one finds the count at
      exactly -1 and gives TC; none before it does. */
  lemma KthTransfer(cfg: Config, mem: Memory, val: seq<Byte>, ch: Channel, k: nat)
    requires Ready(cfg, ch) && |val| == 4 && !ch.chain.on
    requires k < Transfers(ch.mode.width, ch.ac, Total(ch))
    ensures var t := Transfer(cfg, mem, StateAt(cfg, ch, k), val);
            var addr := AddressAfter(cfg, ch, OffsetOf(cfg, ch, k));
            var n := OffsetOf(cfg, ch, k + 1) - OffsetOf(cfg, ch, k);
            var last := k + 1 == Transfers(ch.mode.width, ch.ac, Total(ch));
            var data := match ch.mode.kind case Read => Slice(mem, addr, n) case Write => val[..n] case _ => [];
            && t.out == Moved(addr, n, data, last)
            && (!last ==> t.ch == StateAt(cfg, ch, k + 1))
            && (last ==> t.ch.tcStatus && if ch.mode.autoInit then t.ch.ac == ch.ab && t.ch.cc == ch.cb && !t.ch.masked
                                          else t.ch.cc == -1 && t.ch.masked)
  {
    hide Transfer, Settle, Move, XferBytes, AddressAfter, AdvanceBy, InWindow;
    var s := StateAt(cfg, ch, k);
    StepBytes(cfg, ch, k);
    OffsetsTile(ch.mode.width, ch.ac, Total(ch), k);
    OffsetsTile(ch.mode.width, ch.ac, Total(ch), k + 1);
    CoreTransfer(cfg, mem, s, val);
    CoreSettle(cfg, Move(cfg, s));
  }

  function After(cfg: Config, mems: nat -> Memory, vals: nat -> (Byte, Byte, Byte, Byte), ch: Channel,
      k: nat): (s: Channel)
    requires cfg.Valid() && ch.Valid(cfg)
    ensures s.Valid(cfg)
  {
    if k == 0 then ch
    else
      var v := vals(k - 1);
      Transfer(cfg, mems(k - 1), After(cfg, mems, vals, ch, k - 1), [v.0, v.1, v.2, v.3]).ch
  }

  /** The whole run follows: k transfers from Ready reach StateAt(k). With
      KthTransfer and OffsetsTile, the transfers cover each byte of the
      programmed range once, in order. */
  lemma {:induction false} RunTiles(
      cfg: Config, mems: nat -> Memory, vals: nat -> (Byte, Byte, Byte, Byte), ch: Channel, k: nat)
    requires Ready(cfg, ch) && !ch.chain.on
    requires k < Transfers(ch.mode.width, ch.ac, Total(ch))
    ensures After(cfg, mems, vals, ch, k) == StateAt(cfg, ch, k)
  {
    hide Transfer, AddressAfter;
    if k == 0 {
      AddressZero(cfg, ch);
    } else {
      RunTiles(cfg, mems, vals, ch, k - 1);
      var v := vals(k - 1);
      KthTransfer(cfg, mems(k - 1), [v.0, v.1, v.2, v.3], ch, k - 1);
    }
  }

  lemma AddressZero(cfg: Config, ch: Channel)
    requires Ready(cfg, ch)
    ensures AddressAfter(cfg, ch, 0) == ch.ac
  {
    var a := AddressAfter(cfg, ch, 0);
    if !ch.mode.extAddr { assert a / 0x1_0000 == ch.ac / 0x1_0000 && a % 0x1_0000 == ch.ac % 0x1_0000; }
  }
}
