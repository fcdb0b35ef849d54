/**
 Recording without a directory (src/automation.c, rec_q_*): frames wait in a
 growing circular queue, each XORed with the one queued before it unless it is
 a key frame, and compressed. Compression is any lossless pair that can fail.
 */
module FrameQueue {
  import opened Arithmetic
  import opened Optional



  const REC_QUEUE_MAX: int := 0x1000_0000
  const FIRST_CAPACITY: int := 256

  type Bytes = seq<bv8>

  /** A frame as RGB24. */
  datatype Frame = Frame(w: nat, h: nat, rgb: Bytes) {
    predicate Valid() { |rgb| == w * h * 3 }
  }

  datatype Codec = Codec(compress: Bytes -> Option<Bytes>, decompress: Bytes -> Bytes)

  ghost predicate Lossless(c: Codec) {
    forall x: Bytes :: c.compress(x).Some? ==> c.decompress(c.compress(x).value) == x
  }

  datatype Item = Item(w: nat, h: nat, key: bool, data: Bytes)

  // ---- The client ----

  function Xor(a: Bytes, b: Bytes): (r: Bytes)
    requires |a| == |b|
    ensures |r| == |a| && forall i :: 0 <= i < |a| ==> r[i] == a[i] ^ b[i]
  {
    seq(|a|, i requires 0 <= i < |a| => a[i] ^ b[i])
  }

  /** What a client makes of an item after `prev`: a key frame as it is, any
      other XORed with the last frame it decoded. */
  function DecodeOne(c: Codec, prev: Option<Frame>, item: Item): Option<Frame> {
    var x := c.decompress(item.data);
    if item.key then Some(Frame(item.w, item.h, x))
    else if prev.Some? && |prev.value.rgb| == |x| then Some(Frame(item.w, item.h, Xor(x, prev.value.rgb)))
    else None
  }

  /** Decoding the items in order from `prev` gives exactly the frames. */
  predicate Decodes(c: Codec, prev: Option<Frame>, items: seq<Item>, frames: seq<Frame>)
    decreases |items|
  {
    && |items| == |frames|
    && (items != [] ==>
          DecodeOne(c, prev, items[0]) == Some(frames[0]) && Decodes(c, Some(frames[0]), items[1..], frames[1..]))
  }

  /** The last frame a client has after decoding. */
  function LastOf(prev: Option<Frame>, frames: seq<Frame>): Option<Frame> {
    if frames == [] then prev else Some(frames[|frames| - 1])
  }

  lemma {:induction false} DecodesAppend(c: Codec, prev: Option<Frame>, items: seq<Item>, frames: seq<Frame>,
      item: Item, f: Frame)
    requires Decodes(c, prev, items, frames) && DecodeOne(c, LastOf(prev, frames), item) == Some(f)
    ensures Decodes(c, prev, items + [item], frames + [f])
    decreases |items|
  {
    if items == [] {
      assert items + [item] == [item] && frames + [f] == [f];
    } else {
      DecodesAppend(c, Some(frames[0]), items[1..], frames[1..], item, f);
      assert (items + [item])[1..] == items[1..] + [item] && (frames + [f])[1..] == frames[1..] + [f];
    }
  }

  lemma LastAppend(prev: Option<Frame>, frames: seq<Frame>, f: Frame)
    ensures LastOf(prev, frames + [f]) == Some(f)
  {
  }

  lemma LastSplit(prev: Option<Frame>, frames: seq<Frame>, n: nat)
    requires n <= |frames|
    ensures LastOf(LastOf(prev, frames[..n]), frames[n..]) == LastOf(prev, frames)
  {
  }

  lemma {:induction false} DecodesSplit(c: Codec, prev: Option<Frame>, items: seq<Item>, frames: seq<Frame>, n: nat)
    requires Decodes(c, prev, items, frames) && n <= |items|
    ensures Decodes(c, prev, items[..n], frames[..n])
    ensures Decodes(c, LastOf(prev, frames[..n]), items[n..], frames[n..])
    decreases n
  {
    if n > 0 {
      DecodesSplit(c, Some(frames[0]), items[1..], frames[1..], n - 1);
      assert items[..n][1..] == items[1..][..n - 1] && frames[..n][1..] == frames[1..][..n - 1];
      assert items[1..][n - 1..] == items[n..] && frames[1..][n - 1..] == frames[n..];
    }
  }

  lemma XorTwice(a: Bytes, b: Bytes)
    requires |a| == |b|
    ensures Xor(Xor(a, b), b) == a
  {
    var x := Xor(a, b);
    forall i | 0 <= i < |a| ensures x[i] ^ b[i] == a[i] {
      XorByte(a[i], b[i]);
    }
  }

  lemma XorByte(x: bv8, y: bv8)
    ensures (x ^ y) ^ y == x
  {
  }

  /** Key frames: the first, after a size change, after a gap. */
  predicate NeedsKey(prev: Option<Frame>, gap: bool, f: Frame) {
    gap || prev.None? || prev.value.w != f.w || prev.value.h != f.h
  }

  /** What is compressed of a frame. */
  function Payload(prev: Option<Frame>, gap: bool, f: Frame): Bytes
    requires f.Valid() && (prev.Some? ==> prev.value.Valid())
  {
    if NeedsKey(prev, gap, f) then f.rgb else Xor(f.rgb, prev.value.rgb)
  }

  // ---- The queue ----

  function SumLen(items: seq<Item>): nat {
    if items == [] then 0 else SumLen(items[..|items| - 1]) + |items[|items| - 1].data|
  }

  lemma SumAppend(items: seq<Item>, item: Item)
    ensures SumLen(items + [item]) == SumLen(items) + |item.data|
  {
    assert (items + [item])[..|items|] == items;
  }

  lemma {:induction false} SumTail(items: seq<Item>)
    requires items != []
    ensures SumLen(items) == |items[0].data| + SumLen(items[1..])
  {
    var n := |items| - 1;
    if n > 0 {
      SumTail(items[..n]);
      assert items[..n][1..] == items[1..][..n - 1];
    } else {
      assert items[1..] == [] && items[..0] == [];
    }
  }

  /** Slot i of a circular buffer. */
  function Slot(head: int, i: int, cap: int): (s: int)
    requires 0 <= head < cap && 0 <= i
    ensures 0 <= s < cap
  {
    (head + i) % cap
  }

  lemma DifferentSlots(head: int, i: int, j: int, cap: int)
    requires 0 <= head < cap && 0 <= i < j < cap
    ensures Slot(head, i, cap) != Slot(head, j, cap)
  {
    SlotIs(head, i, cap);
    SlotIs(head, j, cap);
  }

  lemma SlotIs(head: int, i: int, cap: int)
    requires 0 <= head < cap && 0 <= i < cap
    ensures Slot(head, i, cap) == if head + i < cap then head + i else head + i - cap
  {
    if head + i >= cap { assert (head + i - cap) % cap == (head + i) % cap by { ModSub(head + i, cap); } }
  }

  lemma ModSub(x: int, m: int)
    requires 0 < m <= x
    ensures (x - m) % m == x % m
  {
    var q := x / m;
    assert x == q * m + x % m;
    assert x - m == (q - 1) * m + x % m;
    ModUnique(x - m, m, q - 1, x % m);
  }

  lemma NothingQueued(c: Codec, prev: Option<Frame>)
    ensures Decodes(c, prev, [], []) && SumLen([]) == 0
  {
  }

  lemma DecodesLength(c: Codec, prev: Option<Frame>, items: seq<Item>, frames: seq<Frame>)
    requires Decodes(c, prev, items, frames)
    ensures |items| == |frames|
  {
  }

  /** The items of a circular buffer, oldest first. */
  function ItemsOf(q: array<Item>, head: nat, len: nat): (s: seq<Item>)
    requires len <= q.Length && (len == 0 || head < q.Length)
    reads q
    ensures |s| == len && forall i :: 0 <= i < len ==> s[i] == q[Slot(head, i, q.Length)]
  {
    seq(len, i requires 0 <= i < len && len <= q.Length && head < q.Length reads q => q[Slot(head, i, q.Length)])
  }

  class Recorder {
    const codec: Codec
    var q: array<Item>
    var head: nat
    var len: nat
    var bytes: nat
    var lost: nat
    var prev: Option<Frame>
    var needKey: bool
    /** Frames queued since the start (rec_frames). */
    var frames: nat

    /** Frames offered, frames queued, and frames a client has decoded since the
        start; and the last frame that client ever decoded. */
    ghost var attempts: nat
    ghost var history: seq<Frame>
    ghost var decoded: seq<Frame>
    ghost var client: Option<Frame>

    function Items(): seq<Item>
      requires len <= q.Length && (len == 0 || head < q.Length)
      reads this, q
    {
      ItemsOf(q, head, len)
    }

    /** The frames still to be pulled. */
    ghost function Waiting(): seq<Frame>
      requires |decoded| <= |history|
      reads this
    {
      history[|decoded|..]
    }

    ghost predicate Indices()
      reads this
    {
      len <= q.Length && (if q.Length == 0 then head == 0 else head < q.Length)
    }

    ghost predicate Valid()
      reads this, q
    {
      && Lossless(codec) && Indices()
      && bytes == SumLen(Items())
      // what the client has is the first part of what was queued
      && decoded <= history && |history| == frames
      && Decodes(codec, client, Items(), Waiting())
      // the next difference is against what the client will have then
      && (!needKey && prev.Some? ==> prev == LastOf(client, Waiting()))
      && (prev.Some? ==> prev.value.Valid())
      && attempts == frames + lost
    }

    constructor (codec: Codec)
      requires Lossless(codec)
      ensures Valid() && fresh(q) && this.codec == codec && history == [] && len == 0
    {
      this.codec := codec;
      q := new Item[0];
      head, len, bytes, lost, prev, needKey, frames := 0, 0, 0, 0, None, false, 0;
      attempts, history, decoded, client := 0, [], [], None;
    }

    /** rec_q_drop_oldest. */
    method DropOldest()
      requires Indices() && 0 < len && bytes >= |q[head].data|
      modifies this`bytes, this`head, this`len
      ensures Indices() && Items() == old(Items())[1..] && bytes == old(bytes) - |old(Items())[0].data|
    {
      ghost var was := Items();
      SlotIs(head, 0, q.Length);
      bytes := bytes - |q[head].data|;
      forall i | 0 <= i < len - 1 ensures was[i + 1] == q[Slot(Slot(head, 1, q.Length), i, q.Length)] {
        NextSlot(head, i, q.Length);
      }
      head := (head + 1) % q.Length;
      len := len - 1;
    }

    /** rec_q_clear and the rest of record start. */
    method Start()
      requires Valid()
      modifies this
      ensures Valid() && len == 0 && lost == 0 && frames == 0 && history == [] && attempts == 0
      ensures q == old(q) && client == old(client)
    {
      hide Decodes, SumLen, Slot, Lossless;
      while len > 0
        invariant Indices() && bytes == SumLen(Items()) && q == old(q) && client == old(client)
            && prev == old(prev) && Lossless(codec)
      {
        SumTail(Items());
        SlotIs(head, 0, q.Length);
        DropOldest();
      }
      head, lost, needKey, frames := 0, 0, true, 0;
      attempts, history, decoded := 0, [], [];
      assert Items() == [];
      NothingQueued(codec, client);
    }

    /** rec_q_push: doubles the buffer when it is full. */
    method Push(item: Item)
      requires Indices()
      modifies this`q, this`head, this`len, this`bytes, q
      ensures Indices() && Items() == old(Items()) + [item] && bytes == old(bytes) + |item.data|
      ensures q == old(q) || fresh(q)
    {
      ghost var was := Items();
      if len == q.Length {
        Grow();
      }
      label placed:
      ghost var at := Slot(head, len, q.Length);
      forall i | 0 <= i < len ensures Slot(head, i, q.Length) != at {
        DifferentSlots(head, i, len, q.Length);
      }
      q[(head + len) % q.Length] := item;
      len := len + 1;
      bytes := bytes + |item.data|;
      assert Items() == was + [item];
    }

    /** A buffer twice the size (256 to begin with), in order from slot 0. */
    method Grow()
      requires Indices() && len == q.Length
      modifies this`q, this`head
      ensures Indices() && fresh(q) && len < q.Length && Items() == old(Items())
      ensures q.Length == if old(q.Length) > 0 then 2 * old(q.Length) else FIRST_CAPACITY
    {
      ghost var was := Items();
      var cap := if q.Length > 0 then q.Length * 2 else FIRST_CAPACITY;
      var bigger := new Item[cap](_ => Item(0, 0, false, []));
      var i := 0;
      while i < len
        invariant 0 <= i <= len && Indices() && Items() == was && fresh(bigger) && bigger != q && bigger.Length == cap
        invariant forall k :: 0 <= k < i ==> bigger[k] == was[k]
      {
        bigger[i] := q[(head + i) % q.Length];
        i := i + 1;
      }
      forall k | 0 <= k < len ensures Slot(0, k, cap) == k { SlotIs(0, k, cap); }
      q := bigger;
      head := 0;
    }

    /** rec_q_frame: queued, or counted as lost when the client is too far
        behind or compression fails; the next one is then a key frame. */
    method Capture(f: Frame)
      requires Valid() && f.Valid()
      modifies this, q
      ensures Valid() && attempts == old(attempts) + 1 && client == old(client) && decoded == old(decoded)
      ensures q == old(q) || fresh(q)
      ensures if old(bytes) <= REC_QUEUE_MAX && codec.compress(old(Payload(prev, needKey, f))).Some? then
                && history == old(history) + [f] && lost == old(lost) && len == old(len) + 1
                && Items()[..old(len)] == old(Items()) && Items()[old(len)].key == old(NeedsKey(prev, needKey, f))
              else history == old(history) && lost == old(lost) + 1 && Items() == old(Items()) && needKey
    {
      hide Decodes, SumLen, Xor, DecodeOne, Slot, Lossless, ItemsOf, Payload, NeedsKey;
      attempts := attempts + 1;
      if bytes > REC_QUEUE_MAX {
        lost, needKey := lost + 1, true;
        return;
      }
      var item, ok := Encode(f);
      if !ok {
        lost, needKey := lost + 1, true;
        return;
      }
      Enqueue(f, item);
    }

    /** A frame encoded against the last one queued joins the queue. */
    method Enqueue(f: Frame, item: Item)
      requires Indices() && bytes == SumLen(Items()) && decoded <= history && |history| == frames && f.Valid()
      requires Decodes(codec, client, Items(), Waiting())
          && DecodeOne(codec, LastOf(client, Waiting()), item) == Some(f)
      modifies this`q, this`head, this`len, this`bytes, this`prev, this`needKey, this`frames, this`history, q
      ensures Indices() && bytes == SumLen(Items()) && decoded <= history && |history| == frames
      ensures Decodes(codec, client, Items(), Waiting()) && prev == Some(f) == LastOf(client, Waiting()) && !needKey
      ensures history == old(history) + [f] && Items() == old(Items()) + [item] && (q == old(q) || fresh(q))
    {
      hide Decodes, SumLen, DecodeOne, Slot, ItemsOf, LastOf;
      ghost var items, waiting := Items(), Waiting();
      DecodesAppend(codec, client, items, waiting, item, f);
      LastAppend(client, waiting, f);
      SumAppend(items, item);
      Push(item);
      prev, needKey, frames := Some(f), false, frames + 1;
      history := history + [f];
      assert Waiting() == waiting + [f];
    }

    /** The frame as an item: a key frame, or the difference from the last one
        queued. A client that has that one decodes it. */
    method Encode(f: Frame) returns (item: Item, ok: bool)
      requires Lossless(codec) && f.Valid() && (prev.Some? ==> prev.value.Valid())
      ensures ok == codec.compress(Payload(prev, needKey, f)).Some?
      ensures ok ==> item.key == NeedsKey(prev, needKey, f)
      ensures ok ==> forall last: Option<Frame> ::
                (!needKey && prev.Some? ==> last == prev) ==> DecodeOne(codec, last, item) == Some(f)
    {
      var key := needKey || prev.None? || prev.value.w != f.w || prev.value.h != f.h;
      var x := if key then f.rgb else Xor(f.rgb, prev.value.rgb);
      var packed := codec.compress(x);
      if packed.None? {
        return Item(0, 0, false, []), false;
      }
      item, ok := Item(f.w, f.h, key, packed.value), true;
      if !key { XorTwice(f.rgb, prev.value.rgb); }
    }

    /** record pull: the oldest frames, at most n of them. A client that decodes
        them gets exactly the frames that were queued. */
    method Pull(n: nat) returns (out: seq<Item>, pending: nat)
      requires Valid()
      modifies this
      ensures Valid() && q == old(q) && history == old(history) && lost == old(lost) && attempts == old(attempts)
      ensures |out| == (if n < old(len) then n else old(len)) && out + Items() == old(Items()) && pending == len
      ensures decoded == history[..|old(decoded)| + |out|]
      ensures Decodes(codec, old(client), out, history[|old(decoded)|..|decoded|])
      ensures client == LastOf(old(client), history[|old(decoded)|..|decoded|])
    {
      hide Decodes, SumLen, Slot, Lossless, ItemsOf, LastOf;
      ghost var items := Items();
      DecodesLength(codec, client, items, Waiting());
      var count := if n > len then len else n;
      out := TakeOldest(count);
      pending := len;
      ClientTakes(items, count);
    }

    /** What pulling `count` of the queued items gives a client that decodes
        them. */
    ghost method ClientTakes(items: seq<Item>, count: nat)
      requires decoded <= history && Decodes(codec, client, items, Waiting()) && count <= |items|
      modifies this`client, this`decoded
      ensures decoded == history[..|old(decoded)| + count] && |old(decoded)| + count <= |history|
      ensures Decodes(codec, old(client), items[..count], history[|old(decoded)|..|decoded|])
      ensures client == LastOf(old(client), history[|old(decoded)|..|decoded|])
      ensures Decodes(codec, client, items[count..], Waiting())
      ensures LastOf(client, Waiting()) == old(LastOf(client, Waiting()))
    {
      hide Decodes, LastOf;
      ghost var waiting := Waiting();
      DecodesLength(codec, client, items, waiting);
      DecodesSplit(codec, client, items, waiting, count);
      LastSplit(client, waiting, count);
      client := LastOf(client, waiting[..count]);
      decoded := history[..|decoded| + count];
      assert history[|old(decoded)|..|decoded|] == waiting[..count];
      assert Waiting() == waiting[count..];
    }

    method TakeOldest(count: nat) returns (out: seq<Item>)
      requires Indices() && bytes == SumLen(Items()) && count <= len
      modifies this`bytes, this`head, this`len
      ensures Indices() && bytes == SumLen(Items()) && len == old(len) - count
      ensures out == old(Items())[..count] && Items() == old(Items())[count..]
    {
      hide SumLen, Slot;
      ghost var items := Items();
      out := [];
      var i := 0;
      while i < count
        invariant 0 <= i <= count <= |items| && Indices() && len == old(len) - i
        invariant out == items[..i] && Items() == items[i..] && bytes == SumLen(Items())
      {
        SumTail(Items());
        SlotIs(head, 0, q.Length);
        out := out + [q[head]];
        assert items[i..][1..] == items[i + 1..] && items[..i + 1] == items[..i] + [items[i]];
        DropOldest();
        i := i + 1;
      }
    }
  }

  lemma NextSlot(head: int, i: int, cap: int)
    requires 0 <= head < cap && 0 <= i < cap - 1
    ensures Slot(Slot(head, 1, cap), i, cap) == Slot(head, i + 1, cap)
  {
    SlotIs(head, 1, cap);
    SlotIs(Slot(head, 1, cap), i, cap);
    SlotIs(head, i + 1, cap);
  }
}
