/**
 The plain 8237 channel (no EISA, no scatter-gather): where the k-th transfer
 since programming goes, when terminal count comes, and how the two-step read
 relates to the one-step one (src/dma.c, dma_channel_*_legacy).
 */
module Dma8237 {
  import opened Arithmetic
  import opened DmaChannel

  /** A device driving the channel in the direction it is programmed for,
      by hardware request. `val` is what a device writing to memory sends. */
  function Transfer(cfg: Config, mem: Memory, ch: Channel, val: (Byte, Byte)): (r: Transferred)
    requires cfg.Valid() && ch.Valid(cfg)
    ensures r.ch.Valid(cfg)
  {
    if ch.mode.kind.Read? then ReadNarrow(cfg, mem, ch, false, false)
    else WriteNarrow(cfg, mem, ch, [val.0, val.1], false, false)
  }

  /** Base registers just copied to the current ones, nothing under way. */
  predicate Programmed(cfg: Config, ch: Channel) {
    && cfg.Valid() && !cfg.eisa && ch.Valid(cfg)
    && ch.ac == ch.ab && ch.cc == ch.cb
    && ch.mode.enabled && !ch.mode.kind.Illegal? && !ch.mode.stopOn
    && !ch.sg.active && !ch.masked && !ch.pending && ch.xferN == 0
  }

  /** The bytes a transfer at `addr` moves: from memory to a reading device, from
      a writing device to memory, none in a verify. */
  function Exchanged(mode: Mode, mem: Memory, addr: int, val: (Byte, Byte)): seq<Byte> {
    var n := if mode.width == 1 then 1 else 2;
    if mode.kind.Read? then Slice(mem, addr, n)
    else if mode.kind.Verify? then []
    else [val.0, val.1][..n]
  }

  function Window(cfg: Config, ch: Channel): int {
    if (if cfg.advanced then ch.mode.width == 2 else ch.mode.width != 1) then 0x2_0000 else 0x1_0000
  }

  /** Page plus the base address stepped k mod (count + 1) times, wrapped. */
  function AddressAt(cfg: Config, ch: Channel, k: nat): int
    requires Programmed(cfg, ch)
  {
    var w := Window(cfg, ch);
    var moved := Stride(cfg, ch) * (k % (ch.cb + 1));
    ch.ab / w * w + (if ch.mode.decrement then ch.ab - moved else ch.ab + moved) % w
  }

  /** The channel after k transfers, in closed form. */
  function StateAt(cfg: Config, ch: Channel, k: nat): (s: Channel)
    requires Programmed(cfg, ch)
    ensures s.Valid(cfg)
  {
    var w := Window(cfg, ch);
    var s := ch.(ac := AddressAt(cfg, ch, k), cc := ch.cb - k % (ch.cb + 1),
                 tcStatus := ch.tcStatus || k > ch.cb,
                 softRequest := ch.softRequest && k <= ch.cb);
    assert ch.ab / w * w + w <= cfg.space;
    s
  }

  function After(cfg: Config, mems: nat -> Memory, vals: nat -> (Byte, Byte), ch: Channel, k: nat): (s: Channel)
    requires cfg.Valid() && ch.Valid(cfg)
    ensures s.Valid(cfg)
  {
    if k == 0 then ch
    else Transfer(cfg, mems(k - 1), After(cfg, mems, vals, ch, k - 1), vals(k - 1)).ch
  }

  /** A counting step inside a window composes with the steps before it. */
  lemma WindowStep(from: int, moved: int, delta: int, w: int, ac: int, r: int)
    requires w == 0x1_0000 || w == 0x2_0000
    requires ac == from / w * w + (from + moved) % w
    requires r / w == ac / w && r % w == (ac + delta) % w
    ensures r == from / w * w + (from + moved + delta) % w
  {
    if w == 0x1_0000 { WindowStep64(from, moved, delta, ac, r); } else { WindowStep128(from, moved, delta, ac, r); }
  }

  lemma WindowStep64(from: int, moved: int, delta: int, ac: int, r: int)
    requires ac == from / 0x1_0000 * 0x1_0000 + (from + moved) % 0x1_0000
    requires r / 0x1_0000 == ac / 0x1_0000 && r % 0x1_0000 == (ac + delta) % 0x1_0000
    ensures r == from / 0x1_0000 * 0x1_0000 + (from + moved + delta) % 0x1_0000
  {
    var p, x := from / 0x1_0000, from + moved;
    assert ac / 0x1_0000 == p;
    assert x == 0x1_0000 * (x / 0x1_0000) + x % 0x1_0000;
    assert ac + delta == x + delta + 0x1_0000 * (p - x / 0x1_0000);
  }

  lemma WindowStep128(from: int, moved: int, delta: int, ac: int, r: int)
    requires ac == from / 0x2_0000 * 0x2_0000 + (from + moved) % 0x2_0000
    requires r / 0x2_0000 == ac / 0x2_0000 && r % 0x2_0000 == (ac + delta) % 0x2_0000
    ensures r == from / 0x2_0000 * 0x2_0000 + (from + moved + delta) % 0x2_0000
  {
    var p, x := from / 0x2_0000, from + moved;
    assert ac / 0x2_0000 == p;
    assert x == 0x2_0000 * (x / 0x2_0000) + x % 0x2_0000;
    assert ac + delta == x + delta + 0x2_0000 * (p - x / 0x2_0000);
  }

  lemma StrideKept(cfg: Config, ch: Channel, k: nat)
    requires Programmed(cfg, ch)
    ensures Stride(cfg, StateAt(cfg, ch, k)) == Stride(cfg, ch)
  {
    hide InWindow;
  }

  /** One step of the address stays in closed form. */
  lemma AddressStep(cfg: Config, ch: Channel, k: nat)
    requires Programmed(cfg, ch)
    requires k % (ch.cb + 1) != ch.cb
    ensures Move(cfg, StateAt(cfg, ch, k)) == StateAt(cfg, ch, k).(ac := AddressAt(cfg, ch, k + 1))
  {
    hide Move, InWindow, AdvanceBy, XferBytes;
    hide Stride;
    StrideKept(cfg, ch, k);
    var s, w, m := StateAt(cfg, ch, k), Window(cfg, ch), ch.cb + 1;
    ModSucc(k, m);
    var step := Stride(cfg, ch);
    assert step * (k % m + 1) == step * (k % m) + step;
    var delta := if ch.mode.decrement then -step else step;
    var r := InWindow(cfg.space, s.ac, delta, w);
    MoveInWindow(cfg, s, delta, w);
    WindowStep(ch.ab, if ch.mode.decrement then -(step * (k % m)) else step * (k % m), delta, w, s.ac, r);
  }

  lemma MoveInWindow(cfg: Config, s: Channel, delta: int, w: int)
    requires cfg.Valid() && s.Valid(cfg) && !cfg.eisa && !s.sg.active
    requires w == Window(cfg, s) && delta == if s.mode.decrement then -Stride(cfg, s) else Stride(cfg, s)
    ensures Move(cfg, s) == s.(ac := InWindow(cfg.space, s.ac, delta, w))
  {
    if cfg.advanced { } else if s.mode.width == 1 { } else { }
  }

  /** Counting on a plain channel. */
  lemma PlainSettle(cfg: Config, ch: Channel)
    requires ch.Valid(cfg) && !cfg.eisa && !ch.sg.active && !ch.mode.stopOn
    ensures 1 <= ch.cc ==> Settle(cfg, ch) == Counted(ch.(cc := ch.cc - 1, xferN := 0), false)
    ensures ch.cc <= 0 ==> Settle(cfg, ch) == Counted(
      if ch.mode.autoInit then ch.(softRequest := false, tcStatus := true, cc := ch.cb, ac := ch.ab, xferN := 0)
      else ch.(softRequest := false, tcStatus := true, cc := ch.cc - 1, masked := true, xferN := 0), true)
  {
  }

  /** The k-th transfer of a freshly programmed channel uses AddressAt(k), and
      gives TC exactly when it is the last of its block. With auto-init that
      goes on for ever; without it, for the count + 1 transfers there are. */
  lemma {:induction false} KthTransfer(cfg: Config, mems: nat -> Memory, vals: nat -> (Byte, Byte), ch: Channel, k: nat)
    requires Programmed(cfg, ch)
    requires ch.mode.autoInit || k <= ch.cb
    ensures After(cfg, mems, vals, ch, k) == StateAt(cfg, ch, k)
    ensures var o := Transfer(cfg, mems(k), After(cfg, mems, vals, ch, k), vals(k)).out;
            && o.Moved? && o.addr == AddressAt(cfg, ch, k) && o.n == Stride(cfg, ch)
            && o.data == Exchanged(ch.mode, mems(k), o.addr, vals(k))
            && (o.over <==> (k + 1) % (ch.cb + 1) == 0)
  {
    hide Transfer, Stride, Exchanged;
    if k == 0 {
      assert ch.ab == ch.ab / Window(cfg, ch) * Window(cfg, ch) + ch.ab % Window(cfg, ch);
      SmallMod(0, ch.cb + 1);
    } else {
      KthTransfer(cfg, mems, vals, ch, k - 1);
      TransferStep(cfg, mems(k - 1), vals(k - 1), ch, k - 1);
    }
    TransferStep(cfg, mems(k), vals(k), ch, k);
  }

  lemma PlainTransfer(cfg: Config, mem: Memory, val: (Byte, Byte), s: Channel)
    requires cfg.Valid() && s.Valid(cfg) && !cfg.eisa && !s.sg.active && !s.pending && !s.masked
    requires s.mode.enabled && !s.mode.kind.Illegal?
    ensures var t := Transfer(cfg, mem, s, val); var c := Settle(cfg, Move(cfg, s));
            t.ch == c.ch && t.out == Moved(s.ac, Stride(cfg, s), Exchanged(s.mode, mem, s.ac, val), c.tc)
  {
    var m := Move(cfg, s);
    assert !m.sg.active && m.(pending := false) == m;
    if s.mode.kind.Read? { assert Prepared(cfg, mem, s) == s; } else { assert SgLoad(cfg, mem, s) == s; }
  }

  lemma MoveKeepsRest(cfg: Config, s: Channel)
    requires cfg.Valid() && s.Valid(cfg)
    ensures var m := Move(cfg, s); m == s.(ac := m.ac, xferN := m.xferN) && (!cfg.eisa ==> m.xferN == s.xferN)
  {
    hide AdvanceBy, InWindow, XferBytes;
  }

  lemma TransferStep(cfg: Config, mem: Memory, val: (Byte, Byte), ch: Channel, k: nat)
    requires Programmed(cfg, ch)
    requires ch.mode.autoInit || k <= ch.cb
    ensures var t := Transfer(cfg, mem, StateAt(cfg, ch, k), val);
            && t.out.Moved? && t.out.addr == AddressAt(cfg, ch, k) && t.out.n == Stride(cfg, ch)
            && t.out.data == Exchanged(ch.mode, mem, t.out.addr, val)
            && (t.out.over <==> (k + 1) % (ch.cb + 1) == 0)
            && (ch.mode.autoInit || k < ch.cb ==> t.ch == StateAt(cfg, ch, k + 1))
            && (!ch.mode.autoInit && k == ch.cb ==> t.ch.masked && t.ch.tcStatus && t.ch.mode == ch.mode)
  {
    hide Transfer, Settle, Move, Stride, Exchanged;
    StrideKept(cfg, ch, k);
    var s, m, w := StateAt(cfg, ch, k), ch.cb + 1, Window(cfg, ch);
    ModSucc(k, m);
    MoveKeepsRest(cfg, s);
    PlainTransfer(cfg, mem, val, s);
    PlainSettle(cfg, Move(cfg, s));
    if k <= ch.cb { SmallMod(k, m); }
    if k % m != ch.cb {
      AddressStep(cfg, ch, k);
    } else {
      assert ch.ab / w * w + ch.ab % w == ch.ab;
    }
  }

  lemma MaskedTransfer(cfg: Config, mem: Memory, val: (Byte, Byte), s: Channel)
    requires cfg.Valid() && s.Valid(cfg) && s.masked
    ensures Transfer(cfg, mem, s, val) == Transferred(s, NoData)
  {
  }

  /** Without auto-init: exactly count + 1 transfers, then none ever. */
  lemma {:induction false} OneShot(cfg: Config, mems: nat -> Memory, vals: nat -> (Byte, Byte), ch: Channel, k: nat)
    requires Programmed(cfg, ch) && !ch.mode.autoInit
    ensures Transfer(cfg, mems(k), After(cfg, mems, vals, ch, k), vals(k)).out.NoData? <==> k > ch.cb
    ensures k > ch.cb ==> var s := After(cfg, mems, vals, ch, k); s.masked && s.tcStatus && s.mode == ch.mode
  {
    hide Transfer;
    if k <= ch.cb {
      KthTransfer(cfg, mems, vals, ch, k);
    } else if k == ch.cb + 1 {
      KthTransfer(cfg, mems, vals, ch, k - 1);
      TransferStep(cfg, mems(k - 1), vals(k - 1), ch, k - 1);
    } else {
      OneShot(cfg, mems, vals, ch, k - 1);
      MaskedTransfer(cfg, mems(k - 1), vals(k - 1), After(cfg, mems, vals, ch, k - 1));
    }
    if k > ch.cb {
      MaskedTransfer(cfg, mems(k), vals(k), After(cfg, mems, vals, ch, k));
    }
  }

  lemma CountOutIgnoresPending(cfg: Config, ch: Channel)
    requires ch.Valid(cfg)
    ensures CountOut(cfg, ch.(pending := true)) == Counted(CountOut(cfg, ch).ch.(pending := true), CountOut(cfg, ch).tc)
    ensures CountOut(cfg, ch).ch.pending == ch.pending
  {
    if ch.sg.active {
      if ch.sg.base { } else { }
    } else if cfg.eisa && ch.chain.on {
      if ch.chain.next { } else { }
    } else if ch.mode.autoInit {
    } else {
    }
  }

  lemma SettleIgnoresPending(cfg: Config, ch: Channel)
    requires ch.Valid(cfg)
    ensures Settle(cfg, ch.(pending := true)) == Counted(Settle(cfg, ch).ch.(pending := true), Settle(cfg, ch).tc)
    ensures Settle(cfg, ch).ch.pending == ch.pending
  {
    hide CountOut;
    var s := StopCheck(ch);
    assert StopCheck(ch.(pending := true)) == s.(pending := true);
    var c := s.(cc := s.cc - CountTaken(cfg, s), xferN := 0);
    CountOutIgnoresPending(cfg, c);
  }

  lemma PreparedNotPending(cfg: Config, mem: Memory, ch: Channel)
    requires cfg.Valid() && ch.Valid(cfg)
    ensures !Prepared(cfg, mem, ch).pending && !Move(cfg, Prepared(cfg, mem, ch)).pending
  {
    hide Settle, AdvanceBy, InWindow, XferBytes;
  }

  /** Reading without counting and counting right after is one read, on any
      channel: EISA, chained, scatter-gather, with a transfer already waiting. */
  lemma ReadOnlyThenAdvance(cfg: Config, mem: Memory, ch: Channel, groupOff: bool, soft: bool)
    requires cfg.Valid() && ch.Valid(cfg)
    ensures var r := ReadNarrow(cfg, mem, ch, groupOff, soft);
            var o := ReadOnly(cfg, mem, ch, groupOff, soft);
            if o.out.NoData? then r == o
            else
              var a := Advance(cfg, o.ch);
              r.ch == a.ch && r.out == o.out.(over := a.tc)
  {
    hide Settle, Move, SgLoad, Stride, NarrowData;
    if Gate(ch, groupOff, soft) && ch.mode.kind.Read? {
      PreparedNotPending(cfg, mem, ch);
      var m := Move(cfg, Prepared(cfg, mem, ch));
      SettleIgnoresPending(cfg, m);
    }
  }
}
