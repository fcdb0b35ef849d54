/**
 Position-addressed rings (src/automation.c): what a guest sends on a serial
 port, and the log. Positions count everything ever added; the ring keeps the
 last `cap` elements of that history.
 */
module PositionRing {
  import opened Arithmetic

  const SERIAL_OUT_MAX: nat := 65536

  function Oldest(pos: nat, cap: nat): nat {
    if pos > cap then pos - cap else 0
  }

  /** A reading position brought between the oldest element kept and the end. */
  function Clamp(from: nat, pos: nat, cap: nat): nat {
    if from < Oldest(pos, cap) then Oldest(pos, cap) else if from > pos then pos else from
  }

  /** The last elements of `history` are in their slots. */
  ghost predicate Kept<T>(data: seq<T>, history: seq<T>) {
    0 < |data| && forall p :: Oldest(|history|, |data|) <= p < |history| ==> data[p % |data|] == history[p]
  }

  lemma KeptAppend<T>(data: seq<T>, history: seq<T>, x: T)
    requires Kept(data, history)
    ensures Kept(data[|history| % |data| := x], history + [x])
  {
    var n, cap := |history|, |data|;
    var d, h := data[n % cap := x], history + [x];
    forall p | Oldest(n + 1, cap) <= p < n + 1 ensures d[p % cap] == h[p] {
      if p < n { SlotsDiffer(p, n, cap); }
    }
  }

  class Ring<T(0)> {
    const data: array<T>
    var pos: nat
    /** Everything ever added. */
    ghost var history: seq<T>

    ghost predicate Valid()
      reads this, data
    {
      |history| == pos && Kept(data[..], history)
    }

    constructor (cap: nat)
      requires 0 < cap
      ensures Valid() && fresh(data) && data.Length == cap && pos == 0
    {
      data := new T[cap];
      pos, history := 0, [];
    }

    /** automation_serial_out. */
    method Put(x: T)
      requires Valid()
      modifies this, data
      ensures Valid() && history == old(history) + [x]
    {
      KeptAppend(data[..], history, x);
      ghost var next := data[..][pos % data.Length := x];
      data[pos % data.Length] := x;
      assert data[..] == next;
      pos := pos + 1;
      history := history + [x];
    }

    /** log_ring_add: the position moves once the whole text is in. */
    method Add(text: seq<T>)
      requires Valid()
      modifies this, data
      ensures Valid() && history == old(history) + text
    {
      var i := 0;
      assert history + text[..0] == history;
      while i < |text|
        invariant 0 <= i <= |text| && pos == old(pos) && history == old(history) && |history| == pos
        invariant Kept(data[..], history + text[..i])
      {
        KeptAppend(data[..], history + text[..i], text[i]);
        ghost var next := data[..][(pos + i) % data.Length := text[i]];
        data[(pos + i) % data.Length] := text[i];
        assert data[..] == next;
        assert history + text[..i + 1] == history + text[..i] + [text[i]];
        i := i + 1;
      }
      assert text[..i] == text;
      pos := pos + |text|;
      history := history + text;
    }

    /** serial read and log: the history from position `from` on, at most `max`
        elements of it, and how many were overwritten before they were read. */
    method Read(from: nat, max: nat) returns (at: nat, out: seq<T>, lost: nat)
      requires Valid()
      ensures at == Clamp(from, pos, data.Length)
      ensures out == history[at..at + Min(pos - at, max)]
      ensures lost == |history[Min(from, Oldest(pos, data.Length))..Oldest(pos, data.Length)]|
    {
      var oldest := Oldest(pos, data.Length);
      at, lost := from, 0;
      if at < oldest {
        lost := oldest - at;
        at := oldest;
      }
      if at > pos {
        at := pos;
      }
      var n := if pos - at < max then pos - at else max;
      n := Min(n, data.Length);
      out := [];
      var i := 0;
      while i < n
        invariant 0 <= i <= n && |out| == i && out == history[at..at + i]
      {
        out := out + [data[(at + i) % data.Length]];
        assert history[at..at + i + 1] == history[at..at + i] + [history[at + i]];
        i := i + 1;
      }
    }
  }

  /** The serial read request: `max` must be between 1 and what the ring holds. */
  datatype Reply<T> = Error | Data(from: nat, next: nat, pos: nat, lost: nat, bytes: seq<T>)

  method SerialRead<T(0)>(ring: Ring<T>, from: nat, max: nat) returns (r: Reply<T>)
    requires ring.Valid()
    ensures r.Error? <==> max == 0 || max > ring.data.Length
    ensures r.Data? ==> && r.from == Clamp(from, ring.pos, ring.data.Length) && r.pos == ring.pos
                        && r.next == r.from + Min(ring.pos - r.from, max) && r.bytes == ring.history[r.from..r.next]
                        && (var oldest := Oldest(ring.pos, ring.data.Length);
                            r.lost == |ring.history[Min(from, oldest)..oldest]|)
  {
    if max == 0 || max > ring.data.Length {
      return Error;
    }
    var at, out, lost := ring.Read(from, max);
    return Data(at, at + |out|, ring.pos, lost, out);
  }

  /** What a guest sends, byte by byte. */
  method Send<T(0)>(ring: Ring<T>, sent: seq<T>)
    requires ring.Valid()
    modifies ring, ring.data
    ensures ring.Valid() && ring.history == old(ring.history) + sent
  {
    ghost var h := ring.history;
    var i := 0;
    while i < |sent|
      invariant 0 <= i <= |sent| && ring.Valid() && ring.history == h + sent[..i]
    {
      ring.Put(sent[i]);
      assert sent[..i + 1] == sent[..i] + [sent[i]];
      i := i + 1;
    }
    assert sent[..i] == sent;
  }

  /** Two serial reads, the second from the first one's `next`, and what the
      guest sent between them: nothing is given twice, what is missing between
      the two is what is reported lost, and together they are the history. */
  method ReadTwice<T(0)>(ring: Ring<T>, from: nat, max1: nat, sent: seq<T>, max2: nat)
    returns (r1: Reply<T>, r2: Reply<T>)
    requires ring.Valid()
    modifies ring, ring.data
    ensures ring.Valid() && ring.history == old(ring.history) + sent
    ensures r1.Error? <==> max1 == 0 || max1 > ring.data.Length
    ensures r2.Error? <==> r1.Error? || max2 == 0 || max2 > ring.data.Length
    ensures r2.Data? ==> && r1.from <= r1.next <= r2.from <= r2.next <= |ring.history|
                         && r2.from - r1.next == r2.lost == Max(0, Oldest(ring.pos, ring.data.Length) - r1.next)
                         && r1.bytes + ring.history[r1.next..r2.from] + r2.bytes == ring.history[r1.from..r2.next]
  {
    hide Kept;
    r1 := SerialRead(ring, from, max1);
    Send(ring, sent);
    if r1.Error? {
      return r1, Error;
    }
    r2 := SerialRead(ring, r1.next, max2);
    if r2.Data? { Joined(old(ring.history), ring.history, r1.from, r1.next, r2.from, r2.next); }
  }

  lemma Joined<T>(h1: seq<T>, h2: seq<T>, a: nat, b: nat, c: nat, d: nat)
    requires h1 <= h2 && a <= b <= |h1| && b <= c <= d <= |h2|
    ensures h1[a..b] + h2[b..c] + h2[c..d] == h2[a..d]
  {
    assert h1[a..b] == h2[a..b];
  }
}
