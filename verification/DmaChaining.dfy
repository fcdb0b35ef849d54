/**
 Buffer chaining, the ring buffer stop and the scatter-gather commands
 (src/dma.c; sections 3.2.17 to 3.2.21 of the 82374EB data book): what a device
 and the processor see of each, for every state of a channel.
 */
module DmaChaining {
  import opened Arithmetic
  import opened DmaChannel

  // ---- Chaining ----

  /** An EISA channel in chaining mode, nothing pending and no list. */
  predicate Chained(cfg: Config, ch: Channel) {
    && cfg.Valid() && ch.Valid(cfg) && cfg.eisa && ch.chain.on && !ch.sg.active
    && !ch.pending && ch.xferN == 0 && !ch.masked && ch.mode.enabled && !ch.mode.stopOn
  }

  /** What is left of the count after the next transfer. */
  function Remaining(cfg: Config, ch: Channel): int
    requires ch.Valid(cfg)
  {
    ch.cc - if ch.mode.extSize == 2 || ch.mode.extSize == 3 then XferBytes(cfg, ch) else 1
  }

  /** A channel after a transfer in chaining mode: within the buffer it goes on; at
      the end of one it goes on in the base registers, if the processor had
      marked them programmed, and has to be told again; else it masks itself.
      Each end is told by TC or by IRQ13. */
  predicate ChainStepped(cfg: Config, ch: Channel, r: Channel)
    requires ch.Valid(cfg)
  {
    var left := Remaining(cfg, ch);
    if left >= 0 then r.cc == left && !r.masked && r.chain == ch.chain && r.tcStatus == ch.tcStatus
    else
      && r.tcStatus && !r.softRequest && r.chain.on && r.chain.tc == ch.chain.tc
      && r.chain.int13 == (ch.chain.int13 || !ch.chain.tc) && !r.chain.next
      && (if ch.chain.next then r.ac == ch.ab && r.cc == ch.cb && !r.masked else r.masked)
  }

  lemma ChainSettles(cfg: Config, ch: Channel)
    requires Chained(cfg, ch)
    ensures var c := Settle(cfg, Move(cfg, ch));
            ChainStepped(cfg, ch, c.ch) && c.tc == (Remaining(cfg, ch) < 0 && ch.chain.tc)
  {
    hide XferBytes, AdvanceBy;
    if Remaining(cfg, ch) < 0 {
      if ch.chain.next { } else { }
    }
  }

  lemma NothingPending(cfg: Config, mem: Memory, ch: Channel)
    requires Chained(cfg, ch)
    ensures Prepared(cfg, mem, ch) == ch && Move(cfg, ch).(pending := false) == Move(cfg, ch)
  {
    hide XferBytes, AdvanceBy;
  }

  /** A read in chaining mode: terminal count with the last bytes of every buffer
      if TC was chosen, and with none otherwise. */
  lemma ChainRead(cfg: Config, mem: Memory, ch: Channel)
    requires Chained(cfg, ch) && ch.mode.kind.Read?
    ensures var r := ReadWide(cfg, mem, ch, false, false);
            && r.out == Moved(ch.ac, XferBytes(cfg, ch), Slice(mem, ch.ac, XferBytes(cfg, ch)), r.out.over)
            && ChainStepped(cfg, ch, r.ch) && r.out.over == (Remaining(cfg, ch) < 0 && ch.chain.tc)
  {
    hide XferBytes, Move, Settle, Prepared, Slice, ChainStepped, Remaining;
    NothingPending(cfg, mem, ch);
    ChainSettles(cfg, ch);
    TwoBytes(cfg, mem, ch);
  }

  lemma TwoBytes(cfg: Config, mem: Memory, ch: Channel)
    requires cfg.eisa && ch.Valid(cfg)
    ensures ch.mode.width <= 2 ==> NarrowData(cfg, mem, ch) == Slice(mem, ch.ac, XferBytes(cfg, ch))
    ensures Stride(cfg, ch) == XferBytes(cfg, ch)
  {
    hide Slice;
  }

  /** A write in chaining mode is told its end by the mask on a narrow channel, so
      only where the chain ends, and by TC on a 32-bit one. */
  lemma ChainWrite(cfg: Config, mem: Memory, ch: Channel, val: seq<Byte>)
    requires Chained(cfg, ch) && (ch.mode.kind.Write? || ch.mode.kind.Verify?) && |val| == 4
    ensures var r := WriteWide(cfg, mem, ch, val, false, false);
            && r.out.Moved? && r.out.addr == ch.ac && r.out.n == XferBytes(cfg, ch) && ChainStepped(cfg, ch, r.ch)
            && r.out.over == (Remaining(cfg, ch) < 0 && if ch.mode.width == 4 then ch.chain.tc else !ch.chain.next)
  {
    hide XferBytes, Move, Settle, Slice;
    NothingPending(cfg, mem, ch);
    ChainSettles(cfg, ch);
    TwoBytes(cfg, mem, ch);
    MoveChain(cfg, ch);
    assert SgLoad(cfg, mem, ch) == ch;
  }

  lemma MoveChain(cfg: Config, ch: Channel)
    requires cfg.Valid() && ch.Valid(cfg)
    ensures Move(cfg, ch).chain == ch.chain && Move(cfg, ch).sg == ch.sg
  {
    hide XferBytes, AdvanceBy, InWindow;
  }

  // ---- The ring buffer stop ----

  /** The 16 MB dword an address is in. */
  function DwordOf(a: int): int { a % 0x100_0000 / 4 }

  /** Bytes a transfer moved, as the stop takes them. */
  function LastMoved(ch: Channel): int { if ch.xferN != 0 then ch.xferN else ch.mode.width }

  /** A step of the address register, by `n` bytes: how far past the end of its
      64 or 128 KB, or of the space, it was taken back. */
  function Wound(before: int, after: int, n: int, down: bool): int {
    if down then after + n - before else after - n - before
  }

  /** After a transfer the stop masks the channel exactly if the address moved from
      is in its dword, where the address register did not wrap; where it did,
      the code looks as far away as the register was taken back. */
  lemma StopExactly(cfg: Config, ch: Channel)
    requires cfg.Valid() && ch.Valid(cfg)
    ensures var m := Move(cfg, ch);
            var s := StopCheck(m);
            var at := ch.ac + Wound(ch.ac, m.ac, LastMoved(m), ch.mode.decrement);
            && s == m.(masked := s.masked)
            && (s.masked <==> ch.masked || (ch.mode.stopOn && DwordOf(at) == DwordOf(ch.mode.stop)))
  {
    hide AdvanceBy, InWindow, XferBytes;
  }

  /** An address register that runs on through memory: the last address
      transferred before the channel is masked is the first in the stop's
      dword. */
  lemma StopLinear(cfg: Config, ch: Channel)
    requires cfg.Valid() && ch.Valid(cfg) && cfg.eisa && ch.mode.extAddr && ch.mode.stopOn && !ch.masked
    requires if ch.mode.decrement then XferBytes(cfg, ch) <= ch.ac else ch.ac + XferBytes(cfg, ch) < cfg.space
    ensures StopCheck(Move(cfg, ch)).masked <==> DwordOf(ch.ac) == DwordOf(ch.mode.stop)
  {
    hide Move, XferBytes, StopCheck, DwordOf;
    StopExactly(cfg, ch);
    LinearMove(cfg, ch);
  }

  lemma LinearMove(cfg: Config, ch: Channel)
    requires cfg.Valid() && ch.Valid(cfg) && cfg.eisa && ch.mode.extAddr
    requires if ch.mode.decrement then XferBytes(cfg, ch) <= ch.ac else ch.ac + XferBytes(cfg, ch) < cfg.space
    ensures var m, n := Move(cfg, ch), XferBytes(cfg, ch);
            m.ac == (if ch.mode.decrement then ch.ac - n else ch.ac + n) && LastMoved(m) == n
  {
    hide XferBytes, InWindow;
    var n := XferBytes(cfg, ch);
    SmallMod(if ch.mode.decrement then ch.ac - n else ch.ac + n, cfg.space);
  }

  /** A byte read at the end of a 64 KB window with the stop at it: the channel is
      not stopped. */
  lemma StopMissed(cfg: Config, mem: Memory, ch: Channel)
    requires cfg.Valid() && ch.Valid(cfg) && cfg.eisa && ch.mode.extSize == 0 && !ch.mode.extAddr && ch.mode.width == 1
    requires ch.mode.stopOn && ch.ac == ch.mode.stop == 0x1_ffff && ch.cc == 1 && !ch.mode.decrement
    requires !ch.masked && ch.mode.enabled && ch.mode.kind.Read? && !ch.pending && !ch.sg.active
    ensures var r := ReadWide(cfg, mem, ch, false, false); r.out.Moved? && r.out.addr == ch.mode.stop && !r.ch.masked
  {
    hide Slice;
    assert InWindow(cfg.space, 0x1_ffff, 1, 0x1_0000) == 0x1_0000;
  }

  // ---- Commands ----

  /** Start: the list is active, nothing of it moved yet, and IRQ13 withdrawn. */
  lemma StartCommand(cfg: Config, mem: Memory, ch: Channel, cmd: Command)
    requires cfg.Valid() && ch.Valid(cfg) && cmd.op == 1
    ensures var r := SgCommand(cfg, mem, ch, cmd);
            && r.sg.active && !r.sg.term && !r.sg.cur && r.sg.base && !r.sg.int13 && r.masked == ch.masked
            && r.sg.eop == (if cmd.choose then cmd.useEop else ch.sg.eop)
  {
    hide Dword, DescriptorUnits;
  }

  /** Stop: at once no more data, the status says terminated, and IRQ13 comes if a
      list was active and EOP not chosen. */
  lemma StopCommand(cfg: Config, mem: Memory, ch: Channel, cmd: Command)
    requires cfg.Valid() && ch.Valid(cfg) && cmd.op == 2
    ensures var r := SgCommand(cfg, mem, ch, cmd);
            var eop := if cmd.choose then cmd.useEop else ch.sg.eop;
            && !r.sg.active && r.sg.term && r.masked && r.sg.eop == eop
            && r.sg.int13 == (ch.sg.int13 || (ch.sg.active && !eop))
            && ReadWide(cfg, mem, r, false, false).out.NoData?
  {
  }

  /** Any other command only chooses between EOP and IRQ13. */
  lemma NoCommand(cfg: Config, mem: Memory, ch: Channel, cmd: Command)
    requires cfg.Valid() && ch.Valid(cfg) && cmd.op != 1 && cmd.op != 2
    ensures SgCommand(cfg, mem, ch, cmd) == ch.(sg := ch.sg.(eop := if cmd.choose then cmd.useEop else ch.sg.eop))
  {
  }
}
