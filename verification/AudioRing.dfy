/**
 A sound stream's ring and its recording segments (src/automation.c,
 automation_audio, aud_close_seg and audio pull). `history` is every frame the
 stream ever received; the ring keeps the last thirty seconds at one rate.
 */
module AudioRing {
  import opened Arithmetic

  const RING_SECONDS: nat := 30
  const MAX_SEGS: nat := 16

  // ---- Slots ----

  /** The slot audio pull computes for a position is the one it was put in. */
  lemma PullSlot(t: nat, d: int, m: int)
    requires 0 < d <= m && d <= t
    ensures (t % m + m - d % m) % m == (t - d) % m
  {
    var q := t / m;
    assert t == q * m + t % m;
    if d == m {
      ModUnique(m, m, 1, 0);
      assert t % m + m - d % m == t % m + 1 * m;
      ModShift(t % m, 1, m);
      ModUnique(t % m, m, 0, t % m);
      assert t - d == t % m + (q - 1) * m;
      ModShift(t % m, q - 1, m);
    } else {
      ModUnique(d, m, 0, d);
      var x := t % m + m - d;
      assert t - d == x + (q - 1) * m;
      ModShift(x, q - 1, m);
    }
  }

  /** The ring holds the last of what came since it was made at `base`. */
  ghost predicate Kept<T>(ring: seq<T>, base: int, history: seq<T>) {
    && 0 < |ring| && 0 <= base <= |history|
    && forall p :: Max(base, |history| - |ring|) <= p < |history| ==> ring[(p - base) % |ring|] == history[p]
  }

  lemma KeptAt<T>(ring: seq<T>, base: int, history: seq<T>, p: int)
    requires Kept(ring, base, history) && Max(base, |history| - |ring|) <= p < |history|
    ensures 0 <= (p - base) % |ring| < |ring| && ring[(p - base) % |ring|] == history[p]
  {
  }

  /** The slot `d` frames back from where the next will go. */
  function SlotBack(ringPos: int, d: int, m: int): int
    requires 0 < m
  {
    (ringPos + m - d % m) % m
  }

  lemma SlotBackIs(base: int, total: int, p: int, m: int)
    requires 0 < m && base <= p < total && total - p <= m
    ensures SlotBack((total - base) % m, total - p, m) == (p - base) % m
  {
    var t, d := total - base, total - p;
    assert t - d == p - base;
    PullSlot(t, d, m);
  }

  lemma SlotHolds<T>(ring: seq<T>, base: int, ringPos: int, history: seq<T>, p: int)
    requires Kept(ring, base, history) && ringPos == (|history| - base) % |ring|
    requires Max(base, |history| - |ring|) <= p < |history|
    ensures var slot := SlotBack(ringPos, |history| - p, |ring|);
            0 <= slot < |ring| && ring[slot] == history[p]
  {
    hide SlotBack, Kept;
    SlotBackIs(base, |history|, p, |ring|);
    KeptAt(ring, base, history, p);
  }

  lemma KeptAppend<T>(ring: seq<T>, base: int, history: seq<T>, x: T)
    requires Kept(ring, base, history)
    ensures Kept(ring[(|history| - base) % |ring| := x], base, history + [x])
  {
    var n, m := |history|, |ring|;
    var r, h := ring[(n - base) % m := x], history + [x];
    forall p | Max(base, n + 1 - m) <= p < n + 1 ensures r[(p - base) % m] == h[p] {
      if p < n { SlotsDiffer(p - base, n - base, m); }
    }
  }

  // ---- When a segment starts ----

  /** What a recording goes by: whether a segment is open, at what rate, how
      many have ended, and how many frames are still to be skipped. */
  datatype Recorder = Recorder(recording: bool, open: bool, rate: nat, nsegs: nat, skip: nat)

  datatype Event<T> = Sound(rate: nat, block: seq<T>) | StartRecording(pending: nat) | StopRecording

  predicate Proper<T>(e: Event<T>) {
    e.Sound? ==> 0 < e.rate && e.block != []
  }

  function EndSegment(r: Recorder): Recorder {
    if r.open then r.(open := false, nsegs := Min(r.nsegs + 1, MAX_SEGS), skip := 0) else r
  }

  /** What a block finds: a new rate has ended the open segment. */
  function AtRate(r: Recorder, rate: nat): Recorder {
    (if r.rate == rate then r else EndSegment(r)).(rate := rate)
  }

  predicate Opens<T>(r: Recorder, e: Event<T>) {
    e.Sound? && var b := AtRate(r, e.rate); b.recording && !b.open && b.skip < |e.block| && b.nsegs < MAX_SEGS
  }

  function After<T>(r: Recorder, e: Event<T>): Recorder {
    match e
    case Sound(rate, block) =>
      var b := AtRate(r, rate);
      b.(open := b.open || Opens(r, e), skip := if b.recording then b.skip - Min(b.skip, |block|) else b.skip)
    case StartRecording(pending) => if r.recording then r else r.(recording := true, nsegs := 0, skip := pending)
    case StopRecording => if r.recording then EndSegment(r).(recording := false, nsegs := 0) else r
  }

  /** Whether some event of a run starts a segment. */
  predicate OpensIn<T>(r: Recorder, events: seq<Event<T>>)
    decreases |events|
  {
    events != [] && (Opens(r, events[0]) || OpensIn(After(r, events[0]), events[1..]))
  }

  /** What a pull answers: the segment's number, where it starts and ends in the
      segment, the frames, and how many it says were lost. */
  datatype Reply<T> = Nothing | Frames(segment: nat, from: int, next: int, data: seq<T>, lost: int)

  /** The answer for the segment from `origin` to `end`, of which everything
      from `low` on can still be read. */
  ghost predicate Answers<T>(r: Reply<T>, from: nat, max: nat, origin: int, end: int, low: int, history: seq<T>) {
    && r.Frames?
    && var at := origin + r.from;
    && at == Min(Max(origin + from, low), end) && r.next == r.from + Min(end - at, max)
    && 0 <= at <= origin + r.next <= |history| && r.data == history[at..origin + r.next]
    && r.lost == Max(0, low - (origin + from))
  }

  class Stream<T(0)> {
    var ring: array<T>
    var hasRing: bool
    var ringPos: nat
    var total: nat
    var ringBase: nat
    var rate: nat

    var recording: bool
    var open: bool
    var skip: nat
    var frames: nat
    var nsegs: nat
    var segOrigin: nat
    var segEnd: nat
    var segNo: nat

    ghost var history: seq<T>
    // how many segments have been started
    ghost var started: nat

    ghost predicate RingOk()
      reads this, ring
    {
      && |history| == total
      && (hasRing ==>
            && Kept(ring[..], ringBase, history) && ring.Length == rate * RING_SECONDS
            && ringPos == (total - ringBase) % ring.Length)
    }

    ghost predicate SegmentOk()
      reads this
    {
      && (open ==>
            && hasRing && recording && skip == 0
            && ringBase <= segOrigin && segOrigin + frames == total && 0 < frames)
      && (!open ==> frames == 0 && segOrigin <= segEnd <= total)
      && nsegs <= MAX_SEGS
    }

    ghost predicate Valid()
      reads this, ring
    {
      RingOk() && SegmentOk()
    }

    ghost function State(): Recorder
      reads this
    {
      Recorder(recording, open, rate, nsegs, skip)
    }

    /** Where the current or last segment ends. */
    ghost function SegmentEnd(): int
      reads this
    {
      if open then total else segEnd
    }

    /** The oldest frame of the segment that can still be read. */
    ghost function Low(): int
      reads this
    {
      Max(segOrigin, Max(ringBase, total - ring.Length))
    }

    /** The frames of the segment, from position `from` of it on, that can no
        longer be read. */
    ghost function Missing(from: nat): seq<T>
      requires Valid()
      reads this, ring
    {
      var end := Min(SegmentEnd(), Low());
      if segOrigin + from < end then history[segOrigin + from..end] else []
    }

    lemma Sizes()
      requires Valid()
      ensures |history| == total
      ensures hasRing ==> 0 < ring.Length == rate * RING_SECONDS && ringBase <= total
    {
    }

    lemma LossIs(from: nat)
      requires Valid()
      ensures |Missing(from)| == Max(0, Min(SegmentEnd(), Low()) - (segOrigin + from))
    {
    }

    lemma LowWithin()
      requires Valid()
      ensures open ==> Low() <= SegmentEnd()
    {
    }

    constructor ()
      ensures Valid() && fresh(ring) && history == [] && !hasRing && started == 0
      ensures State() == Recorder(false, false, 0, 0, 0)
    {
      ring := new T[0];
      hasRing, ringPos, total, ringBase, rate := false, 0, 0, 0, 0;
      recording, open, skip, frames, nsegs := false, false, 0, 0, 0;
      segOrigin, segEnd, segNo := 0, 0, 0;
      history, started := [], 0;
    }

    /** audio start: `pending` frames of the next blocks precede it. */
    method Start(pending: nat) returns (ok: bool)
      requires Valid()
      modifies this`recording, this`frames, this`nsegs, this`skip
      ensures Valid() && ok == !old(recording) && State() == After<T>(old(State()), StartRecording(pending))
      ensures recording && (ok ==> skip == pending && nsegs == 0) && open == old(open)
    {
      if recording {
        return false;
      }
      frames, nsegs, skip, recording := 0, 0, pending, true;
      return true;
    }

    /** aud_close_seg. */
    method CloseSegment()
      requires Valid()
      modifies this`open, this`segEnd, this`nsegs, this`frames
      ensures Valid() && State() == EndSegment(old(State())) && SegmentEnd() == old(SegmentEnd())
      ensures !open && (old(open) ==> segEnd == total && nsegs == Min(old(nsegs) + 1, 16))
    {
      if !open {
        return;
      }
      open := false;
      segEnd := segOrigin + frames;
      if nsegs < MAX_SEGS {
        nsegs := nsegs + 1;
      }
      frames := 0;
    }

    /** audio stop, as far as one stream goes. */
    method Stop() returns (ok: bool)
      requires Valid()
      modifies this`open, this`segEnd, this`nsegs, this`frames, this`recording
      ensures Valid() && ok == old(recording) && State() == After<T>(old(State()), StopRecording)
      ensures !recording && !open && (ok ==> nsegs == 0)
      ensures SegmentEnd() == old(SegmentEnd())
    {
      if !recording {
        return false;
      }
      CloseSegment();
      nsegs, recording := 0, false;
      return true;
    }

    /** A new ring for a new rate: an open segment ends. */
    method Remake(newRate: nat)
      requires Valid() && 0 < newRate
      modifies this
      ensures Valid() && hasRing && history == old(history) && fresh(ring) && ringBase == total
      ensures State() == EndSegment(old(State())).(rate := newRate) && SegmentEnd() == old(SegmentEnd())
      ensures segOrigin == old(segOrigin) && segNo == old(segNo) && started == old(started)
    {
      if open {
        CloseSegment();
        skip := 0;
      }
      rate := newRate;
      ring := new T[newRate * RING_SECONDS];
      hasRing, ringPos, ringBase := true, 0, total;
      ModUnique(0, ring.Length, 0, 0);
    }

    /** The samples go into the ring one by one. */
    method Fill(block: seq<T>)
      requires RingOk() && hasRing
      modifies this`ringPos, this`total, this`history, ring
      ensures RingOk() && history == old(history) + block
    {
      ghost var h := history;
      var i := 0;
      assert h + block[..0] == h;
      while i < |block|
        invariant 0 <= i <= |block| && total == old(total) && history == h && ring == old(ring)
        invariant Kept(ring[..], ringBase, h + block[..i]) && ringPos == (total + i - ringBase) % ring.Length
      {
        KeptAppend(ring[..], ringBase, h + block[..i], block[i]);
        ghost var next := ring[..][ringPos := block[i]];
        ring[ringPos] := block[i];
        assert ring[..] == next;
        assert h + block[..i + 1] == h + block[..i] + [block[i]];
        ModSucc(total + i - ringBase, ring.Length);
        ringPos := ringPos + 1;
        if ringPos == ring.Length {
          ringPos := 0;
        }
        i := i + 1;
      }
      assert block[..i] == block;
      total := total + |block|;
      history := history + block;
    }

    /** automation_audio: a block of frames at a rate. While recording, what
        comes after the skipped frames is one segment as long as the rate
        stays; seg_origin + frames == total all the way. */
    method Block(blockRate: nat, block: seq<T>)
      requires Valid() && 0 < blockRate && 0 < |block|
      modifies this, ring
      ensures Valid() && history == old(history) + block && hasRing && (ring == old(ring) || fresh(ring))
      // the ring goes on unless the rate changed
      ensures ringBase == if old(hasRing) && old(rate) == blockRate then old(ringBase) else old(total)
      ensures State() == After(old(State()), Sound(blockRate, block))
      // a segment starts where the skipped frames end, at once when the rate
      // has just ended one, and is numbered by those that ended
      ensures Opens(old(State()), Sound(blockRate, block)) ==>
                && open && started == old(started) + 1 && segNo == nsegs
                && segOrigin == old(total) + (if old(open) then 0 else old(skip))
      ensures !Opens(old(State()), Sound(blockRate, block)) ==>
                && started == old(started) && segNo == old(segNo) && segOrigin == old(segOrigin)
                && SegmentEnd() == if open then total else old(SegmentEnd())
    {
      if !hasRing || rate != blockRate {
        Remake(blockRate);
      }
      Fill(block);
      Record(|block|);
    }

    /** The segment as it is between a block's going into the ring and its
        being counted. */
    ghost predicate Behind(n: nat)
      reads this
    {
      && (open ==> recording && skip == 0 && ringBase <= segOrigin && segOrigin + frames == total - n && 0 < frames)
      && (!open ==> frames == 0 && segOrigin <= segEnd <= total - n)
      && nsegs <= MAX_SEGS && hasRing && ringBase <= total - n
    }

    /** The last `n` frames are counted, and start a segment where they may. */
    method Record(n: nat)
      requires 0 < n && Behind(n)
      modifies this`open, this`skip, this`frames, this`segOrigin, this`segNo, this`started
      ensures SegmentOk()
      ensures recording == old(recording) && skip == if recording then old(skip) - Min(old(skip), n) else old(skip)
      ensures if !old(open) && recording && old(skip) < n && nsegs < MAX_SEGS
              then && open && started == old(started) + 1 && segNo == nsegs && segOrigin == total - n + old(skip)
              else && open == old(open) && started == old(started) && segNo == old(segNo)
                   && segOrigin == old(segOrigin)
    {
      if recording {
        var from := if skip >= n then n else skip;
        skip := skip - from;
        if !open && from < n && nsegs < MAX_SEGS {
          open, segNo, segOrigin := true, nsegs, total - n + from;
          started := started + 1;
        }
        if open && from < n {
          frames := frames + (n - from);
        }
      }
    }

    /** audio pull: the segment from position `from` on, at most `max` frames. */
    method Pull(from: nat, max: nat) returns (r: Reply<T>)
      requires Valid()
      ensures r.Nothing? <==> !hasRing || (!open && segEnd == segOrigin)
      ensures r.Frames? ==>
                r.segment == segNo && Answers(r, from, max, segOrigin, SegmentEnd(), Low(), history)
      // the loss is that of the segment, unless all of it has left the ring
      ensures r.Frames? ==> (r.lost == |Missing(from)| <==> Low() <= SegmentEnd() || segOrigin + from >= Low())
      ensures r.Frames? && open ==> r.lost == |Missing(from)|
    {
      hide RingOk, Missing;
      if !hasRing || (!open && segEnd == segOrigin) {
        return Nothing;
      }
      LossIs(from);
      var at, n, lost := Window(from, max);
      var data := Copy(at, n);
      return Frames(segNo, at - segOrigin, at - segOrigin + n, data, lost);
    }

    /** What of the segment from position `from` on is still there. */
    method Window(from: nat, max: nat) returns (at: nat, n: nat, lost: nat)
      requires Valid() && hasRing
      ensures at == Min(Max(segOrigin + from, Low()), SegmentEnd()) && n == Min(SegmentEnd() - at, max)
      ensures at + n <= total == |history| && (n == 0 || Low() <= at) && segOrigin <= at
      ensures lost == Max(0, Low() - (segOrigin + from))
    {
      hide RingOk;
      Sizes();
      var hi := if open then total else segEnd;
      var lo;
      lo, at, lost := segOrigin, segOrigin + from, 0;
      if total - ring.Length > lo {
        lo := total - ring.Length;
      }
      if ringBase > lo {
        lo := ringBase;
      }
      if at < lo {
        lost := lo - at;
        at := lo;
      }
      if at > hi {
        at := hi;
      }
      n := hi - at;
      if n > max {
        n := max;
      }
    }

    /** n frames from position `at`, found by counting back from the end. */
    method Copy(at: nat, n: nat) returns (data: seq<T>)
      requires RingOk() && hasRing && at + n <= total
      requires n == 0 || Max(ringBase, total - ring.Length) <= at
      ensures data == history[at..at + n]
    {
      data := [];
      var k := 0;
      while k < n
        invariant 0 <= k <= n && data == history[at..at + k]
      {
        var m := ring.Length;
        var slot := SlotBack(ringPos, total - (at + k), m);
        SlotHolds(ring[..], ringBase, ringPos, history, at + k);
        data := data + [ring[slot]];
        assert history[at..at + k + 1] == history[at..at + k] + [history[at + k]];
        k := k + 1;
      }
    }
  }

  // ---- Pulls of one recording ----

  lemma OnlySound<T>(r: Recorder, e: Event<T>)
    ensures Opens(r, e) ==> e.Sound?
  {
  }

  /** One event: the segment changes only if it starts one. */
  method Take<T(0)>(s: Stream<T>, e: Event<T>)
    requires s.Valid() && Proper(e)
    modifies s, s.ring
    ensures s.Valid() && (old(s.hasRing) ==> s.hasRing) && (s.ring == old(s.ring) || fresh(s.ring))
    ensures old(s.history) <= s.history && |s.history| == s.total && s.State() == After(old(s.State()), e)
    ensures s.started == if Opens(old(s.State()), e) then old(s.started) + 1 else old(s.started)
    ensures if s.started == old(s.started)
            then s.segOrigin == old(s.segOrigin) && s.segNo == old(s.segNo) && old(s.SegmentEnd()) <= s.SegmentEnd()
            else old(s.total) <= s.segOrigin < s.SegmentEnd()
  {
    hide Stream.RingOk, After, Opens;
    s.Sizes();
    OnlySound(s.State(), e);
    match e {
      case Sound(rate, block) => s.Block(rate, block);
      case StartRecording(pending) => var _ := s.Start(pending);
      case StopRecording => var _ := s.Stop();
    }
    s.Sizes();
  }

  method Feed<T(0)>(s: Stream<T>, events: seq<Event<T>>)
    requires s.Valid() && (forall e <- events :: Proper(e))
    modifies s, s.ring
    ensures s.Valid() && (old(s.hasRing) ==> s.hasRing) && old(s.started) <= s.started
    ensures old(s.history) <= s.history && (s.ring == old(s.ring) || fresh(s.ring))
    ensures old(s.started) < s.started <==> OpensIn(old(s.State()), events)
    ensures if s.started == old(s.started)
            then s.segOrigin == old(s.segOrigin) && s.segNo == old(s.segNo) && old(s.SegmentEnd()) <= s.SegmentEnd()
            else old(s.total) <= s.segOrigin < s.SegmentEnd()
  {
    hide Stream.RingOk, Stream.SegmentOk, Stream.SegmentEnd, After, Opens;
    var i := 0;
    s.Sizes();
    assert events[0..] == events;
    while i < |events|
      invariant 0 <= i <= |events| && s.Valid() && (old(s.hasRing) ==> s.hasRing) && old(s.started) <= s.started
      invariant old(s.history) <= s.history && (s.ring == old(s.ring) || fresh(s.ring))
      invariant |s.history| == s.total
      invariant OpensIn(old(s.State()), events) <==>
                old(s.started) < s.started || OpensIn(s.State(), events[i..])
      invariant if s.started == old(s.started)
                then s.segOrigin == old(s.segOrigin) && s.segNo == old(s.segNo) && old(s.SegmentEnd()) <= s.SegmentEnd()
                else old(s.total) <= s.segOrigin < s.SegmentEnd()
    {
      assert events[i] in events && events[i..][0] == events[i] && events[i..][1..] == events[i + 1..];
      Take(s, events[i]);
      i := i + 1;
    }
  }

  /** Two pulls, the second from the first one's `next`, with any events between.
      They are of one segment exactly if no segment was started between them;
      then they join if none is reported lost, and while it goes on the gap is
      exactly what is reported. Otherwise frames are missed between them. */
  method PullTwice<T(0)>(s: Stream<T>, from: nat, max1: nat, events: seq<Event<T>>, max2: nat)
    returns (r1: Reply<T>, r2: Reply<T>)
    requires s.Valid() && (forall e <- events :: Proper(e))
    modifies s, s.ring
    ensures s.Valid() && (s.started == old(s.started) <==> !OpensIn(old(s.State()), events))
    ensures r1.Frames? ==> r2.Frames?
    ensures r1.Frames? && s.started == old(s.started) ==>
              && 0 <= r1.next <= r2.from <= r2.next && s.segOrigin + r2.next <= s.total && r1.segment == r2.segment
    ensures r1.Frames? && s.started == old(s.started) && r2.lost == 0 ==>
              && r1.next == r2.from && 0 <= s.segOrigin + r1.from <= s.segOrigin + r2.next <= |s.history|
              && r1.data + r2.data == s.history[s.segOrigin + r1.from..s.segOrigin + r2.next]
    ensures r1.Frames? && s.started == old(s.started) && s.open ==> r2.from - r1.next == r2.lost
    ensures r1.Frames? && s.started != old(s.started) && 0 < r1.next ==>
              old(s.segOrigin) + r1.next < s.segOrigin + r2.from
  {
    hide Stream.RingOk, Stream.Missing, OpensIn, Answers, Stream.Low;
    s.Sizes();
    r1 := s.Pull(from, max1);
    Feed(s, events);
    s.Sizes();
    if r1.Nothing? {
      return r1, Nothing;
    }
    AnswersWithin(r1, from, max1, old(s.segOrigin), old(s.SegmentEnd()), old(s.Low()), old(s.history));
    r2 := s.Pull(r1.next, max2);
    if s.started == old(s.started) {
      PullsJoin(r1, from, max1, r2, max2, s.segOrigin, old(s.SegmentEnd()), old(s.Low()), old(s.history),
                s.SegmentEnd(), s.Low(), s.history);
    } else {
      AnswersPast(r2, r1.next, max2, s.segOrigin, s.SegmentEnd(), s.Low(), s.history);
    }
    s.LowWithin();
  }

  lemma AnswersWithin<T>(r: Reply<T>, from: nat, max: nat, origin: int, end: int, low: int, h: seq<T>)
    requires Answers(r, from, max, origin, end, low, h) && origin <= end
    ensures 0 <= r.from <= r.next && origin + r.next <= end
  {
  }

  lemma AnswersPast<T>(r: Reply<T>, from: nat, max: nat, origin: int, end: int, low: int, h: seq<T>)
    requires Answers(r, from, max, origin, end, low, h) && origin < end
    ensures 0 < from ==> 0 < r.from
  {
  }

  /** Two answers for one segment, the second from the first one's `next`. */
  lemma PullsJoin<T>(r1: Reply<T>, from: nat, max1: nat, r2: Reply<T>, max2: nat, origin: int,
                     end1: int, low1: int, h1: seq<T>, end2: int, low2: int, h2: seq<T>)
    requires Answers(r1, from, max1, origin, end1, low1, h1) && origin <= end1 <= |h1|
    requires 0 <= r1.next && Answers(r2, r1.next, max2, origin, end2, low2, h2) && end1 <= end2 <= |h2| && h1 <= h2
    ensures 0 <= r1.next <= r2.from <= r2.next && origin + r2.next <= |h2|
    ensures low2 <= end2 ==> r2.from - r1.next == r2.lost
    ensures r2.lost == 0 ==>
              && r1.next == r2.from && 0 <= origin + r1.from <= origin + r2.next
              && r1.data + r2.data == h2[origin + r1.from..origin + r2.next]
  {
    if r2.lost == 0 { Joined(h1, h2, origin + r1.from, origin + r1.next, origin + r2.next); }
  }

  lemma Joined<T>(h1: seq<T>, h2: seq<T>, a: int, mid: int, end: int)
    requires h1 <= h2 && 0 <= a <= mid <= |h1| && mid <= end <= |h2|
    ensures h1[a..mid] + h2[mid..end] == h2[a..end]
  {
    assert h1[a..mid] == h2[a..mid];
  }

  /** Frames that come before the recording stops. */
  function FramesHeard<T>(events: seq<Event<T>>): nat {
    if events == [] || events[0].StopRecording? then 0
    else (if events[0].Sound? then |events[0].block| else 0) + FramesHeard(events[1..])
  }

  /** No new recording, and no new rate while a segment is open. */
  predicate OneRecording<T>(events: seq<Event<T>>, rate: nat, open: bool) {
    events == [] ||
    var e := events[0];
    && !e.StartRecording? && (e.Sound? && open ==> e.rate == rate)
    && OneRecording(events[1..], rate, open && e.Sound?)
  }

  /** Within one recording, the segment pulled from changes exactly if the
      recording had not begun one yet, may still begin one, and hears more than
      the frames it skips: the window between audio start and its first block. */
  lemma {:induction false} SegmentChanges<T>(r: Recorder, events: seq<Event<T>>)
    requires OneRecording(events, r.rate, r.open) && (forall e <- events :: Proper(e)) && (r.open ==> r.recording)
    ensures OpensIn(r, events) <==>
            r.recording && !r.open && r.nsegs < MAX_SEGS && r.skip < FramesHeard(events)
    decreases |events|
  {
    if events != [] {
      assert events[0] in events && (forall e <- events[1..] :: e in events);
      var s := After(r, events[0]);
      if r.open { SameRecording(events[1..], r.rate, s.rate, s.open); }
      else { SameRecording(events[1..], r.rate, s.rate, false); }
      if !Opens(r, events[0]) { SegmentChanges(s, events[1..]); }
    }
  }

  /** The rates of a recording's blocks, and how often they change. */
  function Changes(rates: seq<nat>): nat {
    if |rates| < 2 then 0
    else Changes(rates[..|rates| - 1]) + if rates[|rates| - 1] != rates[|rates| - 2] then 1 else 0
  }

  function Blocks<T>(rates: seq<nat>, block: seq<T>): seq<Event<T>> {
    seq(|rates|, i requires 0 <= i < |rates| => Sound(rates[i], block))
  }

  function Afterwards<T>(r: Recorder, events: seq<Event<T>>): Recorder {
    if events == [] then r else After(Afterwards(r, events[..|events| - 1]), events[|events| - 1])
  }

  /** A recording has one segment for each run of blocks of one rate, sixteen at
      most: after blocks of these rates, nothing skipped, as many have ended as
      the rate has changed, and the last block is in one unless sixteen ended. */
  lemma {:induction false} OneForEachRate<T>(r: Recorder, rates: seq<nat>, block: seq<T>)
    requires r.recording && !r.open && r.nsegs == 0 && r.skip == 0 && rates != [] && block != []
    ensures var t := Afterwards(r, Blocks(rates, block));
            && t.recording && t.rate == rates[|rates| - 1] && t.skip == 0
            && t.nsegs == Min(Changes(rates), 16) && t.open == (Changes(rates) < 16)
  {
    var n := |rates| - 1;
    var events := Blocks(rates, block);
    assert events[..n] == Blocks(rates[..n], block) && events[n] == Sound(rates[n], block);
    if n == 0 {
      assert Afterwards(r, events[..0]) == r;
    } else {
      OneForEachRate(r, rates[..n], block);
      assert rates[..n][n - 1] == rates[n - 1];
    }
  }

  lemma {:induction false} SameRecording<T>(events: seq<Event<T>>, r1: nat, r2: nat, open: bool)
    requires OneRecording(events, r1, open) && (open ==> r1 == r2)
    ensures OneRecording(events, r2, open)
  {
    if events != [] { SameRecording(events[1..], r1, r2, open && events[0].Sound?); }
  }

  /** A frame recorded, the recording stopped, and a new one started. */
  method Restarted() returns (s: Stream<int>)
    ensures fresh(s) && fresh(s.ring) && s.Valid() && s.State() == Recorder(true, false, 48000, 0, 0)
    ensures s.hasRing && s.history == [7] && s.segNo == 0 && s.segOrigin == 0 && s.segEnd == 1 && s.ringBase == 0
  {
    hide Stream.RingOk;
    s := new Stream<int>();
    s.Sizes();
    var _ := s.Start(0);
    s.Block(48000, [7]);
    s.Sizes();
    var _ := s.Stop();
    var _ := s.Start(0);
  }

  /** The new recording is pulled before its first block and after it: both
      replies are of segment 0 and report nothing lost, and 8 is in neither. */
  method RestartMissesFrame() returns (r1: Reply<int>, r2: Reply<int>)
    ensures r1 == Frames(0, 0, 1, [7], 0) && r2 == Frames(0, 1, 2, [9], 0)
  {
    hide Stream.RingOk, Stream.Missing, Answers;
    var s := Restarted();
    s.Sizes();
    assert s.SegmentEnd() == 1 && s.Low() == 0;
    r1 := s.Pull(0, 1000);
    PullAnswers(r1, [7], 0, 0, 1, 0);
    s.Block(48000, [8, 9]);
    s.Sizes();
    assert s.history == [7, 8, 9] && s.SegmentEnd() == 3 && s.Low() == 1;
    r2 := s.Pull(1, 1000);
    PullAnswers(r2, [7, 8, 9], 1, 1, 3, 1);
  }

  lemma PullAnswers(r: Reply<int>, h: seq<int>, from: nat, origin: nat, end: nat, low: nat)
    requires Answers(r, from, 1000, origin, end, low, h)
    requires low <= origin && origin + from <= end <= origin + from + 1000 && end <= |h|
    ensures r == Frames(r.segment, from, end - origin, h[origin + from..end], 0)
  {
  }

  /** One frame recorded at some rate, then half a minute or more with the
      recording stopped: a pull from the start reports more than it lost. */
  method LossOvercounted(rate: nat, n: nat) returns (r: Reply<int>, s: Stream<int>)
    requires 0 < rate && rate * RING_SECONDS <= n
    ensures fresh(s) && s.Valid() && r.Frames? && r.lost == n + 1 - rate * RING_SECONDS && |s.Missing(0)| == 1
  {
    hide Kept;
    s := new Stream<int>();
    var _ := s.Start(0);
    s.Block(rate, [7]);
    var _ := s.Stop();
    s.Block(rate, seq(n, _ => 0));
    r := s.Pull(0, 1000);
  }
}
