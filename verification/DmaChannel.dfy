/**
 One channel of the 8237-compatible DMA controller and its EISA extensions
 (src/dma.c): partial first and last transfers, counts by bytes, buffer
 chaining, the ring buffer stop, and scatter-gather.

 The functions give the value of each step; `Controller` performs the same
 steps in place, field by field, and is proved to compute those values.
 Register bits are booleans; a mask `x & (2^k - 1)` is `x % 2^k`.
 */
module DmaChannel {

  type Byte = x: int | 0 <= x < 256

  /** Guest memory. Addresses are taken modulo ADDRESS_SPACE before use. */
  type Memory = int -> Byte

  const ADDRESS_SPACE: int := 0x1_0000_0000

  /** What the chipset has: `space` is the address mask plus one. */
  datatype Config = Config(eisa: bool, advanced: bool, space: int) {
    predicate Valid() {
      && (space == 0x100_0000 || space == ADDRESS_SPACE)
      && (eisa ==> advanced)
    }
  }

  /** The transfer type, bits 3:2 of the mode register. */
  datatype Kind = Verify | Write | Read | Illegal

  /** What programming sets and transfers leave alone: the mode and extended
      mode registers, the ring buffer stop, and the channel's enable. */
  datatype Mode = Mode(
    kind: Kind, autoInit: bool, decrement: bool,
    width: int, extSize: int, extAddr: bool,
    stopOn: bool, stop: int, enabled: bool)

  /** Scatter-gather status, and whether the list's end waits on IRQ13. */
  datatype Sg = Sg(active: bool, term: bool, cur: bool, base: bool, eop: bool, nnl: bool, int13: bool)

  /** Chaining mode: on, base registers programmed, TC (else IRQ13) at a
      buffer's end, and whether IRQ13 is waiting. */
  datatype Chain = Chain(on: bool, next: bool, tc: bool, int13: bool)

  datatype Channel = Channel(
    mode: Mode,
    // base and current address and count, and the descriptor table pointer
    ab: int, ac: int, cb: int, cc: int, ptr: int,
    // bytes the last transfer moved, until it is counted
    xferN: int,
    sg: Sg, chain: Chain,
    // the channel's bits of the mask, status, request and deferred-advance registers
    masked: bool, tcStatus: bool, softRequest: bool, pending: bool)
  {
    predicate Valid(cfg: Config) {
      && 0 <= ac < cfg.space && 0 <= ab < cfg.space && 0 <= cb && 0 <= ptr < ADDRESS_SPACE
      && (mode.width == 1 || mode.width == 2 || mode.width == 4)
      && 0 <= mode.extSize <= 3
      && 0 <= xferN
    }
  }

  /** What a device gets: nothing, or the bytes at `addr` (none in a verify),
      how far the address moved, and whether TC came with them. */
  datatype Outcome = NoData | Moved(addr: int, n: int, data: seq<Byte>, over: bool)

  /** The channel after a count, and whether TC goes to the device. */
  datatype Counted = Counted(ch: Channel, tc: bool)

  datatype Transferred = Transferred(ch: Channel, out: Outcome)

  function Wrap(a: int): (r: int)
    ensures 0 <= r < ADDRESS_SPACE
  {
    a % ADDRESS_SPACE
  }

  function Slice(mem: Memory, addr: int, n: nat): (s: seq<Byte>)
    ensures |s| == n && forall k :: 0 <= k < n ==> s[k] == mem(Wrap(addr + k))
  {
    seq(n, k requires 0 <= k < n => mem(Wrap(addr + k)))
  }

  function Dword(mem: Memory, a: int): (d: int)
    ensures 0 <= d < ADDRESS_SPACE
  {
    mem(Wrap(a)) + 0x100 * mem(Wrap(a + 1)) + 0x1_0000 * mem(Wrap(a + 2)) + 0x100_0000 * mem(Wrap(a + 3))
  }

  // ---- Counting ----

  predicate CountsBytes(cfg: Config, mode: Mode) {
    cfg.eisa && mode.extSize >= 2
  }

  /** Bytes the next transfer moves: the width, less at an odd start or at the
      end of a count by bytes. */
  function XferBytes(cfg: Config, ch: Channel): (n: int)
    requires ch.Valid(cfg)
    ensures 1 <= n <= ch.mode.width
  {
    if ch.mode.width < 2 || !CountsBytes(cfg, ch.mode) then ch.mode.width
    else
      var n := if ch.mode.decrement then ch.mode.width else ch.mode.width - ch.ac % ch.mode.width;
      if 0 <= ch.cc && ch.cc + 1 < n then ch.cc + 1 else n
  }

  /** What the transfer just made takes from the count. */
  function CountTaken(cfg: Config, ch: Channel): int {
    if CountsBytes(cfg, ch.mode) then (if ch.xferN != 0 then ch.xferN else ch.mode.width) else 1
  }

  // ---- Addresses ----

  /** The address counts within its `window` and leaves the rest alone. */
  function InWindow(space: int, ac: int, delta: int, window: int): (r: int)
    requires (space == 0x100_0000 || space == ADDRESS_SPACE) && (window == 0x1_0000 || window == 0x2_0000)
    requires 0 <= ac < space
    ensures 0 <= r < space
    ensures r / window == ac / window && r % window == (ac + delta) % window
  {
    assert (ac / window * window) % space == ac / window * window;
    (ac / window * window) % space + (ac + delta) % window
  }

  /** dma_advance_n and dma_retreat_n, with a signed step. */
  function AdvanceBy(cfg: Config, ch: Channel, delta: int): (r: int)
    requires cfg.Valid() && ch.Valid(cfg)
    ensures 0 <= r < cfg.space
  {
    if ch.sg.active || (cfg.eisa && ch.mode.extAddr) then (ch.ac + delta) % cfg.space
    else if (if cfg.eisa then ch.mode.extSize == 1 else delta == 2 || delta == -2) then
      InWindow(cfg.space, ch.ac, delta, 0x2_0000)
    else InWindow(cfg.space, ch.ac, delta, 0x1_0000)
  }

  /** The address registers after a transfer, and what it is charged. */
  function Move(cfg: Config, ch: Channel): (r: Channel)
    requires cfg.Valid() && ch.Valid(cfg)
    ensures r.Valid(cfg)
  {
    if cfg.eisa then
      var n := XferBytes(cfg, ch);
      ch.(xferN := n, ac := AdvanceBy(cfg, ch, if ch.mode.decrement then -n else n))
    else if cfg.advanced then
      ch.(ac := AdvanceBy(cfg, ch, if ch.mode.decrement then -ch.mode.width else ch.mode.width))
    else if ch.mode.width == 1 then
      ch.(ac := InWindow(cfg.space, ch.ac, if ch.mode.decrement then -1 else 1, 0x1_0000))
    else
      ch.(ac := InWindow(cfg.space, ch.ac, if ch.mode.decrement then -2 else 2, 0x2_0000))
  }

  // ---- Scatter-gather ----

  /** The byte count of a descriptor's second dword; zero is the whole range. */
  function DescriptorBytes(cfg: Config, info: int): (n: int)
    ensures 0 < n <= 0x100_0000
  {
    var n := if cfg.eisa then info % 0x100_0000 else info % 0x1_0000 - info % 2;
    if n != 0 then n else if cfg.eisa then 0x100_0000 else 0x1_0000
  }

  function DescriptorUnits(cfg: Config, mode: Mode, info: int): (n: int)
    requires mode.width == 1 || mode.width == 2 || mode.width == 4
    ensures 0 < n
  {
    var bytes := DescriptorBytes(cfg, info);
    if CountsBytes(cfg, mode) then bytes
    else if bytes / mode.width == 0 then 1 else bytes / mode.width
  }

  function SgFetch(cfg: Config, mem: Memory, ch: Channel): (r: Channel)
    requires cfg.Valid() && ch.Valid(cfg)
    ensures r.Valid(cfg)
  {
    if ch.sg.nnl then ch
    else
      var d := ch.ptr - ch.ptr % 4;
      var info := Dword(mem, d + 4);
      var c := ch.(ab := Dword(mem, d) % cfg.space, cb := DescriptorUnits(cfg, ch.mode, info) - 1);
      if info >= 0x8000_0000 then c.(sg := c.sg.(base := true, nnl := true))
      else c.(sg := c.sg.(base := true), ptr := Wrap(ch.ptr + 8))
  }

  function SgLoad(cfg: Config, mem: Memory, ch: Channel): (r: Channel)
    requires cfg.Valid() && ch.Valid(cfg)
    ensures r.Valid(cfg)
  {
    if ch.sg.active && !ch.sg.cur && ch.sg.base then
      SgFetch(cfg, mem, ch.(ac := ch.ab, cc := ch.cb, sg := ch.sg.(base := false, cur := true)))
    else ch
  }

  /** The list is over: TC to the device when EOP was chosen, else IRQ13. */
  function SgEnd(ch: Channel): Counted {
    Counted(ch.(sg := ch.sg.(active := false, term := true, int13 := ch.sg.int13 || !ch.sg.eop), masked := true,
        softRequest := false),
     ch.sg.eop)
  }

  function SgExpire(ch: Channel): Counted {
    if ch.sg.base then Counted(ch.(sg := ch.sg.(cur := false)), false)
    else SgEnd(ch.(sg := ch.sg.(cur := false), tcStatus := true))
  }

  function CountOut(cfg: Config, ch: Channel): (r: Counted)
    requires ch.Valid(cfg)
    ensures r.ch.Valid(cfg)
  {
    if ch.sg.active then SgExpire(ch)
    else
      var c := ch.(softRequest := false, tcStatus := true);
      if cfg.eisa && ch.chain.on then
        var d := c.(chain := c.chain.(int13 := c.chain.int13 || !c.chain.tc));
        if d.chain.next then Counted(d.(chain := d.chain.(next := false), cc := d.cb, ac := d.ab), d.chain.tc)
        else Counted(d.(masked := true), d.chain.tc)
      else if c.mode.autoInit then Counted(c.(cc := c.cb, ac := c.ab), true)
      else Counted(c.(masked := true), true)
  }

  datatype Command = Command(choose: bool, useEop: bool, op: int)

  function SgChoose(ch: Channel, cmd: Command): Channel {
    if cmd.choose then ch.(sg := ch.sg.(eop := cmd.useEop)) else ch
  }

  function SgExecute(cfg: Config, mem: Memory, ch: Channel, op: int): (r: Channel)
    requires cfg.Valid() && ch.Valid(cfg)
    ensures r.Valid(cfg)
  {
    if op == 1 then SgFetch(cfg, mem, ch.(sg := Sg(true, false, false, false, ch.sg.eop, false, false)))
    else if op != 2 then ch
    else if ch.sg.active then SgEnd(ch).ch
    else ch.(sg := ch.sg.(term := true), masked := true)
  }

  function SgCommand(cfg: Config, mem: Memory, ch: Channel, cmd: Command): (r: Channel)
    requires cfg.Valid() && ch.Valid(cfg)
    ensures r.Valid(cfg)
  {
    SgExecute(cfg, mem, SgChoose(ch, cmd), cmd.op)
  }

  // ---- Transfers ----

  /** The ring buffer stop compares the address just transferred. */
  function StopCheck(ch: Channel): Channel {
    if !ch.mode.stopOn then ch
    else
      var n := if ch.xferN != 0 then ch.xferN else ch.mode.width;
      var last := if ch.mode.decrement then ch.ac + n else ch.ac - n;
      if last % 0x100_0000 / 4 == ch.mode.stop % 0x100_0000 / 4 then ch.(masked := true) else ch
  }

  /** Stop check, count, and what happens when the count runs out. */
  function Settle(cfg: Config, ch: Channel): (r: Counted)
    requires ch.Valid(cfg)
    ensures r.ch.Valid(cfg)
  {
    var s := StopCheck(ch);
    var c := s.(cc := s.cc - CountTaken(cfg, s), xferN := 0);
    if c.cc < 0 then CountOut(cfg, c) else Counted(c, false)
  }

  /** dma_channel_advance_legacy: count a transfer made by ReadOnly. */
  function Advance(cfg: Config, ch: Channel): (r: Counted)
    requires ch.Valid(cfg)
    ensures r.ch.Valid(cfg)
  {
    if ch.pending then var r := Settle(cfg, ch); r.(ch := r.ch.(pending := false)) else Counted(ch, false)
  }

  predicate Gate(ch: Channel, groupOff: bool, soft: bool) {
    !groupOff && ch.mode.enabled && (!ch.masked || soft)
  }

  /** The channel as a read finds it: earlier transfer counted, buffer loaded. */
  function Prepared(cfg: Config, mem: Memory, ch: Channel): (r: Channel)
    requires cfg.Valid() && ch.Valid(cfg)
    ensures r.Valid(cfg)
  {
    SgLoad(cfg, mem, Advance(cfg, ch).ch)
  }

  /** The bytes the 8- and 16-bit interface hands over. */
  function NarrowData(cfg: Config, mem: Memory, ch: Channel): seq<Byte>
    requires ch.Valid(cfg)
  {
    Slice(mem, ch.ac, if (if cfg.eisa then XferBytes(cfg, ch) else ch.mode.width) == 1 then 1 else 2)
  }

  /** How far a transfer moves the address. */
  function Stride(cfg: Config, ch: Channel): (n: int)
    requires ch.Valid(cfg)
    ensures 1 <= n <= 4
  {
    if cfg.eisa then XferBytes(cfg, ch)
    else if cfg.advanced || ch.mode.width == 1 then ch.mode.width
    else 2
  }

  function ReadOnly(cfg: Config, mem: Memory, ch: Channel, groupOff: bool, soft: bool): (r: Transferred)
    requires cfg.Valid() && ch.Valid(cfg)
    ensures r.ch.Valid(cfg)
  {
    if !Gate(ch, groupOff, soft) || ch.mode.kind != Kind.Read then Transferred(ch, NoData)
    else
      var p := Prepared(cfg, mem, ch);
      Transferred(Move(cfg, p).(pending := true), Moved(p.ac, Stride(cfg, p), NarrowData(cfg, mem, p), false))
  }

  function ReadNarrow(cfg: Config, mem: Memory, ch: Channel, groupOff: bool, soft: bool): (r: Transferred)
    requires cfg.Valid() && ch.Valid(cfg)
    ensures r.ch.Valid(cfg)
  {
    if !Gate(ch, groupOff, soft) || ch.mode.kind != Kind.Read then Transferred(ch, NoData)
    else
      var p := Prepared(cfg, mem, ch);
      var m := Move(cfg, p);
      var s := Settle(cfg, m);
      Transferred(s.ch, Moved(p.ac, Stride(cfg, p), NarrowData(cfg, mem, p), s.tc))
  }

  /** dma_channel_read32: the whole transfer on an EISA 32-bit channel, the
      narrow one on any other. */
  function ReadWide(cfg: Config, mem: Memory, ch: Channel, groupOff: bool, soft: bool): (r: Transferred)
    requires cfg.Valid() && ch.Valid(cfg)
    ensures r.ch.Valid(cfg)
  {
    if !cfg.eisa || ch.mode.width != 4 then ReadNarrow(cfg, mem, ch, groupOff, soft)
    else if !Gate(ch, groupOff, soft) || ch.mode.kind != Kind.Read then Transferred(ch, NoData)
    else
      var p := Prepared(cfg, mem, ch);
      var m := Move(cfg, p).(pending := false);
      var s := Settle(cfg, m);
      Transferred(s.ch, Moved(p.ac, XferBytes(cfg, p), Slice(mem, p.ac, XferBytes(cfg, p)), s.tc))
  }

  /** Memory after the bytes of an outcome are written where it says. */
  function Stored(mem: Memory, out: Outcome): Memory {
    match out
    case NoData => mem
    case Moved(addr, _, data, _) => x => var k := Wrap(x - addr); if k < |data| then data[k] else mem(x)
  }

  /** dma_channel_write_legacy: what goes to memory, see Stored. A list or a
      chain reports its end by the mask. */
  function WriteNarrow(cfg: Config, mem: Memory, ch: Channel, val: seq<Byte>, groupOff: bool, soft: bool)
    : (r: Transferred)
    requires cfg.Valid() && ch.Valid(cfg) && |val| == 2
    ensures r.ch.Valid(cfg)
  {
    if !Gate(ch, groupOff, soft) || ch.mode.kind.Read? || ch.mode.kind.Illegal? then Transferred(ch, NoData)
    else
      var p := SgLoad(cfg, mem, ch);
      var one := (if cfg.eisa then XferBytes(cfg, p) else p.mode.width) == 1;
      var data := if p.mode.kind.Verify? then [] else if one then val[..1] else val;
      var m := Move(cfg, p).(pending := false);
      var s := Settle(cfg, m);
      var list := m.sg.active || (cfg.eisa && m.chain.on);
      Transferred(s.ch, Moved(p.ac, Stride(cfg, p), data, if list then s.ch.masked else s.tc))
  }

  /** dma_channel_write32: all the bytes on an EISA 32-bit channel, whose end
      is told by TC alone; the narrow write on any other. */
  function WriteWide(cfg: Config, mem: Memory, ch: Channel, val: seq<Byte>, groupOff: bool, soft: bool)
    : (r: Transferred)
    requires cfg.Valid() && ch.Valid(cfg) && |val| == 4
    ensures r.ch.Valid(cfg)
  {
    if !cfg.eisa || ch.mode.width != 4 then WriteNarrow(cfg, mem, ch, val[..2], groupOff, soft)
    else if !Gate(ch, groupOff, soft) || ch.mode.kind.Read? || ch.mode.kind.Illegal? then Transferred(ch, NoData)
    else
      var p := SgLoad(cfg, mem, ch);
      var n := XferBytes(cfg, p);
      var s := Settle(cfg, Move(cfg, p).(pending := false));
      Transferred(s.ch, Moved(p.ac, n, if p.mode.kind.Verify? then [] else val[..n], s.tc))
  }
}
