/**
 The DMA controller as it runs (src/dma.c): eight channels updated in place,
 one register at a time. Every method is proved to leave the channels as the
 functions of DmaChannel say, the other seven untouched, and every request to
 keep each channel's scatter-gather status consistent; and a list run through
 the controller visits exactly its buffers.
 */
module DmaController {
  import opened DmaChannel
  import Spec = DmaChannel
  import Lists = DmaScatterGather
  import Writes = DmaWrittenList

  /** No read leaves a list's status inconsistent. */
  lemma ReadKeeps(cfg: Config, mem: Memory, ch: Channel, groupOff: bool, soft: bool)
    requires cfg.Valid() && ch.Valid(cfg) && Lists.SgInvariant(ch.sg)
    ensures Lists.SgInvariant(Spec.ReadNarrow(cfg, mem, ch, groupOff, soft).ch.sg)
    ensures Lists.SgInvariant(Spec.ReadOnly(cfg, mem, ch, groupOff, soft).ch.sg)
    ensures Lists.SgInvariant(Spec.ReadWide(cfg, mem, ch, groupOff, soft).ch.sg)
  {
    hide Lists.SgInvariant, Prepared, Spec.Settle, Move, XferBytes, Stride, NarrowData, Slice;
    Lists.TransferKeeps(cfg, mem, ch);
    Lists.MoveKeeps(cfg, Prepared(cfg, mem, ch));
  }

  /** And no write. */
  lemma WriteKeeps(cfg: Config, mem: Memory, ch: Channel, val: seq<Byte>, groupOff: bool, soft: bool)
    requires cfg.Valid() && ch.Valid(cfg) && Lists.SgInvariant(ch.sg) && |val| == 4
    ensures Lists.SgInvariant(Spec.WriteNarrow(cfg, mem, ch, val[..2], groupOff, soft).ch.sg)
    ensures Lists.SgInvariant(Spec.WriteWide(cfg, mem, ch, val, groupOff, soft).ch.sg)
  {
    hide Lists.SgInvariant, Spec.SgLoad, Spec.Settle, Move, XferBytes, Stride;
    Lists.TransferKeeps(cfg, mem, ch);
  }

  class Controller {
    const cfg: Config
    var dma: seq<Channel>
    var mem: Memory
    /** The controllers' disable bits, and a software request in service. */
    var off0: bool
    var off1: bool
    var soft: bool

    predicate Wired()
      reads this
    {
      cfg.Valid() && |dma| == 8 && forall i :: 0 <= i < 8 ==> dma[i].Valid(cfg)
    }

    /** Between requests, every channel's list status is consistent: an active
        list has a buffer, one with none waiting has no link left, and none is
        both active and terminated. */
    predicate Valid()
      reads this
    {
      Wired() && forall i :: 0 <= i < 8 ==> Lists.SgInvariant(dma[i].sg)
    }

    constructor (cfg: Config, mem: Memory, ch: Channel)
      requires cfg.Valid() && ch.Valid(cfg) && !ch.sg.active
      ensures Valid() && this.cfg == cfg && this.mem == mem && dma == seq(8, _ => ch) && !off0 && !off1 && !soft
    {
      this.cfg, this.mem, this.dma := cfg, mem, seq(8, _ => ch);
      off0, off1, soft := false, false, false;
    }

    /** On an EISA controller the first group hangs off channel 4. */
    predicate GroupOff(c: int)
      requires Wired() && 0 <= c < 8
      reads this
    {
      if c >= 4 then off1 else off0 || (cfg.eisa && (off1 || dma[4].masked))
    }

    /** A device gets nothing: its channel is disabled, or masked with no software
        request in service, or its controller is switched off. The first hangs
        off channel 4 of the second on an EISA machine, and goes with it. */
    predicate Refuses(c: int)
      requires Wired() && 0 <= c < 8
      reads this
    {
      || !dma[c].mode.enabled || (dma[c].masked && !soft)
      || (c <= 3 && off0) || (c >= 4 && off1) || (c <= 3 && cfg.eisa && (off1 || dma[4].masked))
    }

    method CountUnits(c: int, info: int) returns (units: int)
      requires Wired() && 0 <= c < 8
      ensures units == DescriptorUnits(cfg, dma[c].mode, info)
    {
      var bytes := if cfg.eisa then info % 0x100_0000 else info % 0x1_0000 - info % 2;
      if bytes == 0 {
        bytes := if cfg.eisa then 0x100_0000 else 0x1_0000;
      }
      units := if CountsBytes(cfg, dma[c].mode) then bytes else bytes / dma[c].mode.width;
      if units == 0 {
        units := 1;
      }
    }

    method SgFetch(c: int)
      requires Wired() && 0 <= c < 8
      modifies this`dma
      ensures Wired() && dma == old(dma)[c := Spec.SgFetch(cfg, mem, old(dma)[c])]
    {
      hide Dword, DescriptorUnits;
      if dma[c].sg.nnl {
        return;
      }
      var d := dma[c].ptr - dma[c].ptr % 4;
      var addr, info := Dword(mem, d), Dword(mem, d + 4);
      var units := CountUnits(c, info);
      dma := dma[c := dma[c].(ab := addr % cfg.space, cb := units - 1)];
      dma := dma[c := dma[c].(sg := dma[c].sg.(base := true))];
      if info >= 0x8000_0000 {
        dma := dma[c := dma[c].(sg := dma[c].sg.(nnl := true))];
      } else {
        dma := dma[c := dma[c].(ptr := Wrap(dma[c].ptr + 8))];
      }
    }

    method SgLoad(c: int)
      requires Wired() && 0 <= c < 8
      modifies this`dma
      ensures Wired() && dma == old(dma)[c := Spec.SgLoad(cfg, mem, old(dma)[c])]
    {
      hide Spec.SgFetch;
      var sg := dma[c].sg;
      if !sg.active || sg.cur || !sg.base {
        return;
      }
      dma := dma[c := dma[c].(ac := dma[c].ab, cc := dma[c].cb)];
      dma := dma[c := dma[c].(sg := sg.(base := false, cur := true))];
      SgFetch(c);
    }

    method SgEnd(c: int) returns (tc: bool)
      requires Wired() && 0 <= c < 8
      modifies this`dma
      ensures Wired() && dma == old(dma)[c := Spec.SgEnd(old(dma)[c]).ch] && tc == Spec.SgEnd(old(dma)[c]).tc
    {
      dma := dma[c := dma[c].(sg := dma[c].sg.(active := false, term := true), masked := true, softRequest := false)];
      if dma[c].sg.eop {
        return true;
      }
      dma := dma[c := dma[c].(sg := dma[c].sg.(int13 := true))];
      return false;
    }

    method SgExpire(c: int) returns (tc: bool)
      requires Wired() && 0 <= c < 8
      modifies this`dma
      ensures Wired() && dma == old(dma)[c := Spec.SgExpire(old(dma)[c]).ch] && tc == Spec.SgExpire(old(dma)[c]).tc
    {
      dma := dma[c := dma[c].(sg := dma[c].sg.(cur := false))];
      if dma[c].sg.base {
        return false;
      }
      dma := dma[c := dma[c].(tcStatus := true)];
      tc := SgEnd(c);
    }

    method CountOut(c: int) returns (tc: bool)
      requires Wired() && 0 <= c < 8
      modifies this`dma
      ensures Wired() && dma == old(dma)[c := Spec.CountOut(cfg, old(dma)[c]).ch]
          && tc == Spec.CountOut(cfg, old(dma)[c]).tc
    {
      hide Spec.SgExpire;
      if dma[c].sg.active {
        tc := SgExpire(c);
        return;
      }
      dma := dma[c := dma[c].(softRequest := false, tcStatus := true)];
      if cfg.eisa && dma[c].chain.on {
        tc := dma[c].chain.tc;
        if !tc {
          dma := dma[c := dma[c].(chain := dma[c].chain.(int13 := true))];
        }
        if dma[c].chain.next {
          dma := dma[c := dma[c].(chain := dma[c].chain.(next := false), cc := dma[c].cb, ac := dma[c].ab)];
        } else {
          dma := dma[c := dma[c].(masked := true)];
        }
        return;
      }
      if dma[c].mode.autoInit {
        dma := dma[c := dma[c].(cc := dma[c].cb, ac := dma[c].ab)];
      } else {
        dma := dma[c := dma[c].(masked := true)];
      }
      return true;
    }

    /** dma_sg_command. */
    method SgCommand(c: int, cmd: Command)
      requires Valid() && 0 <= c < 8
      modifies this`dma
      ensures Valid() && dma == old(dma)[c := Spec.SgCommand(cfg, mem, old(dma)[c], cmd)]
    {
      hide Spec.SgFetch, Lists.SgInvariant;
      Lists.ApplyKeeps(cfg, mem, dma[c], Lists.Command(cmd));
      if cmd.choose {
        dma := dma[c := dma[c].(sg := dma[c].sg.(eop := cmd.useEop))];
      }
      if cmd.op == 1 {
        dma := dma[c := dma[c].(sg := Sg(true, false, false, false, dma[c].sg.eop, false, false))];
        SgFetch(c);
      } else if cmd.op == 2 {
        if dma[c].sg.active {
          var _ := SgEnd(c);
        } else {
          dma := dma[c := dma[c].(sg := dma[c].sg.(term := true), masked := true)];
        }
      }
    }

    method Settle(c: int) returns (tc: bool)
      requires Wired() && 0 <= c < 8
      modifies this`dma
      ensures Wired() && dma == old(dma)[c := Spec.Settle(cfg, old(dma)[c]).ch]
          && tc == Spec.Settle(cfg, old(dma)[c]).tc
    {
      hide Spec.CountOut;
      dma := dma[c := StopCheck(dma[c])];
      var n := if dma[c].xferN != 0 then dma[c].xferN else dma[c].mode.width;
      dma := dma[c := dma[c].(xferN := 0)];
      dma := dma[c := dma[c].(cc := dma[c].cc - if CountsBytes(cfg, dma[c].mode) then n else 1)];
      if dma[c].cc < 0 {
        tc := CountOut(c);
      } else {
        tc := false;
      }
    }

    /** The count of a read that did not count. */
    method Advance(c: int) returns (tc: bool)
      requires Wired() && 0 <= c < 8
      modifies this`dma
      ensures Wired() && (old(Valid()) ==> Valid())
      ensures dma == old(dma)[c := Spec.Advance(cfg, old(dma)[c]).ch] && tc == Spec.Advance(cfg, old(dma)[c]).tc
      ensures !dma[c].pending && (!old(dma)[c].pending ==> dma == old(dma) && !tc)
    {
      hide Spec.Settle;
      tc := false;
      if old(Valid()) { Lists.SettleKeeps(cfg, dma[c]); }
      if dma[c].pending {
        tc := Settle(c);
        dma := dma[c := dma[c].(pending := false)];
      }
    }

    /** dma_channel_read_legacy. */
    method Read(c: int) returns (out: Outcome)
      requires Valid() && 0 <= c < 8
      modifies this`dma
      ensures Valid()
      ensures out.NoData? <==> old(Refuses(c) || !dma[c].mode.kind.Read?)
      ensures var r := Spec.ReadNarrow(cfg, mem, old(dma)[c], old(GroupOff(c)), soft);
              dma == old(dma)[c := r.ch] && out == r.out
    {
      hide Spec.Settle, Spec.SgLoad, Spec.Advance, Move, Stride, NarrowData, Lists.SgInvariant;
      ReadKeeps(cfg, mem, dma[c], GroupOff(c), soft);
      if GroupOff(c) || !dma[c].mode.enabled || (dma[c].masked && !soft) || !dma[c].mode.kind.Read? {
        return NoData;
      }
      var _ := Advance(c);
      SgLoad(c);
      out := Moved(dma[c].ac, Stride(cfg, dma[c]), NarrowData(cfg, mem, dma[c]), false);
      dma := dma[c := Move(cfg, dma[c])];
      var tc := Settle(c);
      out := out.(over := tc);
    }

    /** dma_channel_read_only_legacy. */
    method ReadOnly(c: int) returns (out: Outcome)
      requires Valid() && 0 <= c < 8
      modifies this`dma
      ensures Valid()
      ensures out.NoData? <==> old(Refuses(c) || !dma[c].mode.kind.Read?)
      ensures var r := Spec.ReadOnly(cfg, mem, old(dma)[c], old(GroupOff(c)), soft);
              dma == old(dma)[c := r.ch] && out == r.out
    {
      hide Spec.Settle, Spec.SgLoad, Spec.Advance, Move, Stride, NarrowData, Lists.SgInvariant;
      ReadKeeps(cfg, mem, dma[c], GroupOff(c), soft);
      if GroupOff(c) || !dma[c].mode.enabled || (dma[c].masked && !soft) || !dma[c].mode.kind.Read? {
        return NoData;
      }
      var _ := Advance(c);
      SgLoad(c);
      out := Moved(dma[c].ac, Stride(cfg, dma[c]), NarrowData(cfg, mem, dma[c]), false);
      dma := dma[c := Move(cfg, dma[c])];
      dma := dma[c := dma[c].(pending := true)];
    }

    /** dma_channel_read32. */
    method Read32(c: int) returns (out: Outcome)
      requires Valid() && 0 <= c < 8
      modifies this`dma
      ensures Valid()
      ensures out.NoData? <==> old(Refuses(c) || !dma[c].mode.kind.Read?)
      ensures var r := Spec.ReadWide(cfg, mem, old(dma)[c], old(GroupOff(c)), soft);
              dma == old(dma)[c := r.ch] && out == r.out
    {
      hide Spec.Settle, Spec.SgLoad, Spec.Advance, Move, XferBytes, Spec.ReadNarrow, Lists.SgInvariant;
      ReadKeeps(cfg, mem, dma[c], GroupOff(c), soft);
      if !cfg.eisa || dma[c].mode.width != 4 {
        out := Read(c);
        return;
      }
      if GroupOff(c) || !dma[c].mode.enabled || (dma[c].masked && !soft) || !dma[c].mode.kind.Read? {
        return NoData;
      }
      var _ := Advance(c);
      SgLoad(c);
      var n := XferBytes(cfg, dma[c]);
      out := Moved(dma[c].ac, n, Slice(mem, dma[c].ac, n), false);
      dma := dma[c := Move(cfg, dma[c])];
      dma := dma[c := dma[c].(pending := false)];
      var tc := Settle(c);
      out := out.(over := tc);
    }

    /** dma_channel_write_legacy. */
    method Write(c: int, val: seq<Byte>) returns (out: Outcome)
      requires Valid() && 0 <= c < 8 && |val| == 2
      modifies this`dma, this`mem
      ensures Valid()
      ensures out.NoData? <==> old(Refuses(c) || !(dma[c].mode.kind.Write? || dma[c].mode.kind.Verify?))
      ensures var r := Spec.WriteNarrow(cfg, old(mem), old(dma)[c], val, old(GroupOff(c)), soft);
              dma == old(dma)[c := r.ch] && out == r.out && mem == Stored(old(mem), r.out)
    {
      hide Spec.WriteNarrow, Lists.SgInvariant, Stored;
      WriteKeeps(cfg, mem, dma[c], val + [0, 0], GroupOff(c), soft);
      assert (val + [0, 0])[..2] == val;
      out := WriteBytes(c, val);
    }

    method WriteBytes(c: int, val: seq<Byte>) returns (out: Outcome)
      requires Wired() && 0 <= c < 8 && |val| == 2
      modifies this`dma, this`mem
      ensures Wired()
      ensures out.NoData? <==> old(Refuses(c) || !(dma[c].mode.kind.Write? || dma[c].mode.kind.Verify?))
      ensures var r := Spec.WriteNarrow(cfg, old(mem), old(dma)[c], val, old(GroupOff(c)), soft);
              dma == old(dma)[c := r.ch] && out == r.out && mem == Stored(old(mem), r.out)
    {
      hide Spec.Settle, Spec.SgLoad, Move, Stride, XferBytes;
      if GroupOff(c) || !dma[c].mode.enabled || (dma[c].masked && !soft) ||
         dma[c].mode.kind.Read? || dma[c].mode.kind.Illegal? {
        return NoData;
      }
      SgLoad(c);
      var p := dma[c];
      var one := (if cfg.eisa then XferBytes(cfg, p) else p.mode.width) == 1;
      out := Moved(p.ac, Stride(cfg, p), if p.mode.kind.Verify? then [] else if one then val[..1] else val, false);
      dma := dma[c := Move(cfg, dma[c])];
      dma := dma[c := dma[c].(pending := false)];
      var list := dma[c].sg.active || (cfg.eisa && dma[c].chain.on);
      var tc := Settle(c);
      out := out.(over := if list then dma[c].masked else tc);
      mem := Stored(mem, out);
    }

    /** dma_channel_write32. */
    method Write32(c: int, val: seq<Byte>) returns (out: Outcome)
      requires Valid() && 0 <= c < 8 && |val| == 4
      modifies this`dma, this`mem
      ensures Valid()
      ensures out.NoData? <==> old(Refuses(c) || !(dma[c].mode.kind.Write? || dma[c].mode.kind.Verify?))
      ensures var r := Spec.WriteWide(cfg, old(mem), old(dma)[c], val, old(GroupOff(c)), soft);
              dma == old(dma)[c := r.ch] && out == r.out && mem == Stored(old(mem), r.out)
    {
      hide Spec.Settle, Spec.SgLoad, Move, XferBytes, Spec.WriteNarrow, Lists.SgInvariant;
      WriteKeeps(cfg, mem, dma[c], val, GroupOff(c), soft);
      if !cfg.eisa || dma[c].mode.width != 4 {
        out := Write(c, val[..2]);
        return;
      }
      if GroupOff(c) || !dma[c].mode.enabled || (dma[c].masked && !soft) ||
         dma[c].mode.kind.Read? || dma[c].mode.kind.Illegal? {
        return NoData;
      }
      SgLoad(c);
      var n := XferBytes(cfg, dma[c]);
      out := Moved(dma[c].ac, n, if dma[c].mode.kind.Verify? then [] else val[..n], false);
      dma := dma[c := Move(cfg, dma[c])];
      dma := dma[c := dma[c].(pending := false)];
      var tc := Settle(c);
      out := out.(over := tc);
      mem := Stored(mem, out);
    }

    /** A device that starts a list and reads until it is masked gets exactly
        the listed buffers, in order, and TC on the last read if so chosen; the
        other channels stay as they were. */
    method ReadList(c: int, cmd: Command, ghost t: Lists.Table) returns (outs: seq<Outcome>)
      requires Valid() && 0 <= c < 8 && !GroupOff(c) && !soft
      requires t.Valid() && t.cfg == cfg && t.mem == mem && dma[c].mode == t.mode && dma[c].ptr == t.ptr
      requires !dma[c].masked && !dma[c].pending && dma[c].xferN == 0 && cmd.op == 1
      modifies this`dma
      ensures Valid() && |dma| == 8 && forall i :: 0 <= i < 8 && i != c ==> dma[i] == old(dma)[i]
      ensures Lists.AllMoved(outs) && Lists.Visited(cfg.space, outs) == Lists.Buffers(t, 0)
      ensures Lists.FromMemory(t, outs)
      ensures var eop := if cmd.choose then cmd.useEop else old(dma)[c].sg.eop;
              && Lists.Ended(t, dma[c], eop)
              && forall j :: 0 <= j < |outs| ==> (outs[j].over <==> j == |outs| - 1 && eop)
    {
      hide Spec.SgCommand, Spec.ReadWide, Lists.SgInvariant, Lists.Drains, Lists.AllMoved, Lists.Visited, Lists.Buffers,
           Lists.FromMemory, Lists.Ended;
      ghost var k := Lists.StartVisitsList(t, dma[c], cmd);
      ghost var s := Spec.SgCommand(cfg, mem, dma[c], cmd);
      SgCommand(c, cmd);
      outs := [];
      while dma[c].sg.active
        invariant Valid() && |outs| <= k && forall i :: 0 <= i < 8 && i != c ==> dma[i] == old(dma)[i]
        invariant s.Valid(cfg) && dma[c] == Lists.After(t, s, |outs|) && outs == Lists.Reads(t, s, |outs|)
        invariant Lists.Drains(t, s, k, Lists.Buffers(t, 0))
        decreases k - |outs|
      {
        Lists.ActiveOnList(t, s, k, Lists.Buffers(t, 0), |outs|);
        Lists.ReadsSnoc(t, s, |outs|);
        var out := Read32(c);
        outs := outs + [out];
      }
      Lists.ActiveOnList(t, s, k, Lists.Buffers(t, 0), |outs|);
      Lists.Drained(t, s, k, Lists.Buffers(t, 0));
    }

    /** A device that starts a list and writes until it is masked fills exactly
        the listed buffers, in order, and changes memory by what it wrote. The
        end is told once, on the last write: where EOP was chosen, and without
        the 32-bit interface also where IRQ13 was. */
    method WriteList(c: int, cmd: Command, vals: nat -> Writes.Quad, ghost t: Lists.Table) returns (outs: seq<Outcome>)
      requires Valid() && 0 <= c < 8 && !GroupOff(c) && !soft
      requires t.Valid() && t.cfg == cfg && t.mem == mem && dma[c].ptr == t.ptr
      requires Writes.Written(dma[c].mode.kind) && dma[c].mode == t.mode.(kind := dma[c].mode.kind)
      requires dma[c].mode.kind.Write? ==> Writes.Apart(t)
      requires !dma[c].masked && !dma[c].pending && dma[c].xferN == 0 && cmd.op == 1
      modifies this`dma, this`mem
      ensures Valid() && |dma| == 8 && forall i :: 0 <= i < 8 && i != c ==> dma[i] == old(dma)[i]
      ensures Lists.AllMoved(outs) && Lists.Visited(cfg.space, outs) == Lists.Buffers(t, 0)
      ensures mem == Writes.Stores(old(mem), outs)
      ensures forall j :: 0 <= j < |outs| ==>
                outs[j].n <= 4 && outs[j].data == Writes.Sent(cfg, old(dma)[c].mode.kind, outs[j].n, vals(j))
      ensures var eop := if cmd.choose then cmd.useEop else old(dma)[c].sg.eop;
              && Lists.Ended(t, dma[c], eop)
              && forall j :: 0 <= j < |outs| ==>
                   (outs[j].over <==> j == |outs| - 1 && (eop || !(cfg.eisa && t.mode.width == 4)))
    {
      hide Spec.SgCommand, Spec.ReadWide, Spec.WriteWide, Lists.SgInvariant, Lists.Drains, Lists.AllMoved;
      hide Lists.Visited, Lists.Buffers, Lists.FromMemory, Lists.Ended, Lists.After, Stored;
      hide Writes.Intact, Writes.Apart, Writes.Mirror, Writes.Bytes, Writes.Sent, Writes.Stores;
      ghost var read := dma[c].(mode := t.mode);
      ghost var kind := dma[c].mode.kind;
      ghost var k := Lists.StartVisitsList(t, read, cmd);
      ghost var s := Spec.SgCommand(cfg, mem, read, cmd);
      Writes.CommandWritten(cfg, mem, read, cmd, kind);
      SgCommand(c, cmd);
      Writes.StartOfList(t, s, kind, vals);
      outs := WriteWhileActive(c, vals, t, s, k, kind);
      Writes.WritesDrain(t, s, k, kind, outs, vals);
    }

    method WriteNext(c: int, v: Writes.Quad, ghost t: Lists.Table, ghost s: Channel, ghost k: nat, ghost kind: Kind,
                     ghost j: nat)
      returns (out: Outcome)
      requires Valid() && 0 <= c < 8 && !GroupOff(c) && !soft && Writes.Written(kind)
      requires t.Valid() && t.cfg == cfg && s.Valid(cfg) && 0 < t.n
      requires Lists.Drains(t, s, k, Lists.Buffers(t, 0)) && j < k
      requires dma[c] == Writes.AsWritten(Lists.After(t, s, j), kind)
      requires Writes.Intact(t, mem) && (kind.Write? ==> Writes.Apart(t))
      modifies this`dma, this`mem
      ensures Valid() && Wired() && !GroupOff(c)
      ensures dma == old(dma)[c := Writes.AsWritten(Lists.After(t, s, j + 1), kind)]
      ensures Writes.MirrorAt(t, s, kind, j, out, v) && mem == Stored(old(mem), out) && Writes.Intact(t, mem)
    {
      hide Spec.ReadWide, Spec.WriteWide, Lists.SgInvariant, Lists.Drains, Lists.Buffers, Lists.After;
      hide Lists.Table.Valid, Writes.Intact, Writes.Apart, Writes.MirrorAt, Writes.Bytes, Writes.WriteOutcome, Stored;
      Writes.ListWrite(t, s, k, kind, mem, j, v);
      out := Write32(c, Writes.Bytes(v));
    }

    method WriteWhileActive(c: int, vals: nat -> Writes.Quad, ghost t: Lists.Table, ghost s: Channel, ghost k: nat,
                            ghost kind: Kind)
      returns (outs: seq<Outcome>)
      requires Valid() && 0 <= c < 8 && !GroupOff(c) && !soft && Writes.Written(kind)
      requires t.Valid() && t.cfg == cfg && s.Valid(cfg) && 0 < t.n && Lists.Drains(t, s, k, Lists.Buffers(t, 0))
      requires dma[c] == Writes.AsWritten(s, kind) && Writes.Intact(t, mem) && (kind.Write? ==> Writes.Apart(t))
      modifies this`dma, this`mem
      ensures Valid() && dma == old(dma)[c := Writes.AsWritten(Lists.After(t, s, k), kind)]
      ensures |outs| == k && Writes.Mirror(t, s, kind, outs, vals) && mem == Writes.Stores(old(mem), outs)
    {
      hide Spec.ReadWide, Spec.WriteWide, Lists.SgInvariant, Lists.Drains, Lists.Buffers, Lists.After;
      hide Lists.Table.Valid, Writes.Intact, Writes.Apart, Writes.Mirror, Writes.MirrorAt, Writes.Stores;
      hide Stored, Writes.AsWritten, Channel.Valid, Config.Valid, GroupOff;
      Writes.StartOfList(t, s, kind, vals);
      Writes.NoneStored(mem);
      outs := [];
      while dma[c].sg.active
        invariant Valid() && Wired() && !GroupOff(c) && |outs| <= k
        invariant dma == old(dma)[c := Writes.AsWritten(Lists.After(t, s, |outs|), kind)]
        invariant Writes.Mirror(t, s, kind, outs, vals)
        invariant Writes.Intact(t, mem) && mem == Writes.Stores(old(mem), outs)
        decreases k - |outs|
      {
        Lists.ActiveOnList(t, s, k, Lists.Buffers(t, 0), |outs|);
        Writes.SameStatus(Lists.After(t, s, |outs|), kind);
        var out := WriteNext(c, vals(|outs|), t, s, k, kind, |outs|);
        Writes.StoresMore(old(mem), outs, out);
        Writes.MirrorMore(t, s, kind, outs, vals, out);
        outs := outs + [out];
      }
      Writes.SameStatus(Lists.After(t, s, |outs|), kind);
      Lists.ActiveOnList(t, s, k, Lists.Buffers(t, 0), |outs|);
    }
  }
}
