/**
 Waiting for text from a serial port (src/automation.c, serial_contains): each
 check searches what is new in the ring, and must find what a search of the
 full history would.
 */
module SerialSearch {
  import opened Arithmetic
  import opened Optional
  import opened PositionRing


  type Text = seq<bv8>

  predicate Occurs(history: Text, text: Text, p: nat) {
    p + |text| <= |history| && history[p..p + |text|] == text
  }

  /** The earliest occurrence at or after p. */
  function First(history: Text, text: Text, p: nat): (r: Option<nat>)
    ensures match r
            case Some(q) =>
              p <= q && Occurs(history, text, q) && forall k: nat :: p <= k < q ==> !Occurs(history, text, k)
            case None => forall k: nat :: p <= k ==> !Occurs(history, text, k)
    decreases |history| + 1 - p
  {
    if p + |text| > |history| then None
    else if Occurs(history, text, p) then Some(p)
    else First(history, text, p + 1)
  }

  /** Where a check that finds nothing leaves off: a match could still start in
      the last |text| - 1 bytes. */
  function Resume(history: Text, text: Text, from: nat): nat {
    if |history| + 1 - |text| > from then |history| + 1 - |text| else from
  }

  /** One check: what it finds and where the next one starts. */
  datatype Checked = Checked(found: Option<nat>, scan: nat)

  function Check(history: Text, text: Text, cap: nat, scan: nat): Checked {
    var from := Max(scan, Oldest(|history|, cap));
    var f := First(history, text, from);
    Checked(f, if f.Some? then from else Resume(history, text, from))
  }

  /** Whether the text is in the ring at position p. */
  method MatchAt(ring: Ring<bv8>, text: Text, p: nat) returns (here: bool)
    requires ring.Valid() && Oldest(ring.pos, ring.data.Length) <= p && p + |text| <= ring.pos
    ensures here <==> Occurs(ring.history, text, p)
  {
    var i := 0;
    while i < |text| && ring.data[(p + i) % ring.data.Length] == text[i]
      invariant 0 <= i <= |text| && ring.history[p..p + i] == text[..i]
    {
      assert ring.history[p..p + i + 1] == ring.history[p..p + i] + [ring.history[p + i]];
      assert text[..i + 1] == text[..i] + [text[i]];
      i := i + 1;
    }
    here := i == |text|;
    if here {
      assert text[..i] == text;
    } else {
      assert ring.history[p..p + |text|][i] == ring.history[p + i] != text[i];
    }
  }

  /** serial_contains, on the ring alone. */
  method Contains(ring: Ring<bv8>, text: Text, scan: nat) returns (r: Checked)
    requires ring.Valid()
    ensures r == Check(ring.history, text, ring.data.Length, scan)
  {
    var from := scan;
    if from < Oldest(ring.pos, ring.data.Length) {
      from := Oldest(ring.pos, ring.data.Length);
    }
    var p := from;
    while p + |text| <= ring.pos
      invariant from <= p && (p == from || p + |text| <= ring.pos + 1)
      invariant forall k: nat :: from <= k < p ==> !Occurs(ring.history, text, k)
      decreases ring.pos + 1 - p
    {
      var here := MatchAt(ring, text, p);
      if here {
        FirstIs(ring.history, text, from, p);
        return Checked(Some(p), from);
      }
      p := p + 1;
    }
    return Checked(None, p);
  }

  lemma FirstIs(history: Text, text: Text, from: nat, p: nat)
    requires from <= p && Occurs(history, text, p) && forall k: nat :: from <= k < p ==> !Occurs(history, text, k)
    ensures First(history, text, from) == Some(p)
  {
    var f := First(history, text, from);
    assert f.Some?;
  }

  // ---- Over a whole wait ----

  datatype Event = Sent(byte: bv8) | CheckNow

  /** `floor` is max(from, oldest kept) at the first check; `since` the bytes
      since the last check, `steady` whether none were ever too many. */
  datatype Wait = Wait(history: Text, scan: nat, found: Option<nat>, floor: Option<nat>, since: nat, steady: bool)

  function Next(w: Wait, text: Text, cap: nat, e: Event): Wait {
    match e
    case Sent(b) => w.(history := w.history + [b], since := w.since + 1)
    case CheckNow =>
      if w.found.Some? then w
      else
        var c := Check(w.history, text, cap, w.scan);
        w.(found := c.found, scan := c.scan, since := 0,
           floor := if w.floor.Some? then w.floor else Some(Max(w.scan, Oldest(|w.history|, cap))),
           steady := w.steady && (w.floor.None? || w.since + |text| <= cap + 1))
  }

  function Run(w: Wait, text: Text, cap: nat, events: seq<Event>): Wait {
    if events == [] then w else Next(Run(w, text, cap, events[..|events| - 1]), text, cap, events[|events| - 1])
  }

  /** Before any check: searching from `scan` in what was sent so far. */
  predicate Started(w: Wait) {
    w.found.None? && w.floor.None? && w.since == 0 && w.steady
  }

  /** The search is where a search of the whole history would be. */
  ghost predicate Exact(w: Wait, text: Text)
    requires w.floor.Some?
  {
    match w.found
    case Some(p) =>
      && w.floor.value <= p && Occurs(w.history, text, p)
      && forall k: nat :: w.floor.value <= k < p ==> !Occurs(w.history, text, k)
    case None =>
      && w.since <= |w.history|
      && (forall k: nat :: w.floor.value <= k && k + |text| <= |w.history| - w.since ==> !Occurs(w.history, text, k))
      && w.floor.value <= w.scan && |w.history| - w.since + 1 <= w.scan + |text|
      && (w.floor.value < w.scan ==> w.scan + |text| == |w.history| - w.since + 1)
  }

  ghost predicate Invariant(w: Wait, text: Text) {
    && (w.found.Some? ==> w.floor.Some? && Occurs(w.history, text, w.found.value))
    && (w.floor.Some? && w.steady ==> Exact(w, text))
    && (w.floor.None? ==> w.found.None?)
  }

  lemma OccursLater(history: Text, text: Text, b: bv8, p: nat)
    ensures p + |text| <= |history| ==> (Occurs(history + [b], text, p) <==> Occurs(history, text, p))
  {
    if p + |text| <= |history| { assert (history + [b])[p..p + |text|] == history[p..p + |text|]; }
  }

  lemma SentKeeps(w: Wait, text: Text, cap: nat, b: bv8)
    requires Invariant(w, text)
    ensures Invariant(Next(w, text, cap, Sent(b)), text)
  {
    var n := Next(w, text, cap, Sent(b));
    forall k: nat ensures k + |text| <= |w.history| ==> (Occurs(n.history, text, k) <==> Occurs(w.history, text, k)) {
      OccursLater(w.history, text, b, k);
    }
  }

  lemma CheckKeeps(w: Wait, text: Text, cap: nat)
    requires Invariant(w, text)
    ensures Invariant(Next(w, text, cap, CheckNow), text)
  {
    hide Occurs;
    var n := Next(w, text, cap, CheckNow);
    if w.found.None? && n.steady {
      var from := Max(w.scan, Oldest(|w.history|, cap));
      assert w.floor.Some? ==> from == w.scan;
      assert forall k: nat :: n.floor.value <= k < from ==> !Occurs(w.history, text, k);
    }
  }

  lemma {:induction false} RunKeeps(w: Wait, text: Text, cap: nat, events: seq<Event>)
    requires Invariant(w, text)
    ensures Invariant(Run(w, text, cap, events), text)
  {
    hide Invariant, Next;
    if events != [] {
      var before, e := Run(w, text, cap, events[..|events| - 1]), events[|events| - 1];
      RunKeeps(w, text, cap, events[..|events| - 1]);
      match e
      case Sent(b) => SentKeeps(before, text, cap, b);
      case CheckNow => CheckKeeps(before, text, cap);
    }
  }

  /** For every interleaving of bytes and checks: what is reported does occur in
      the full history; and when at most cap - |text| + 1 bytes come between
      checks, it is the earliest occurrence at or after the floor, and nothing
      is reported only while there is none among the bytes checked. */
  lemma EveryWait(w: Wait, text: Text, cap: nat, events: seq<Event>)
    requires Started(w)
    ensures var r := Run(w, text, cap, events);
            && (r.found.Some? ==> Occurs(r.history, text, r.found.value))
            && (r.found.Some? ==> r.floor.Some?)
            && (r.found.Some? && r.steady ==> r.found == First(r.history, text, r.floor.value))
            && (r.found.None? && r.floor.Some? && r.steady && r.since == 0 ==>
                First(r.history, text, r.floor.value) == None)
  {
    RunKeeps(w, text, cap, events);
    var r := Run(w, text, cap, events);
    if r.found.Some? && r.steady { FirstIs(r.history, text, r.floor.value, r.found.value); }
  }

  /** Exactly what too many bytes cost: a check after a steady search finds the
      earliest occurrence if and only if none started in the bytes that were
      overwritten unsearched. */
  lemma CheckExactly(w: Wait, text: Text, cap: nat)
    requires Invariant(w, text) && w.found.None? && w.floor.Some? && w.steady
    ensures var from := Max(w.scan, Oldest(|w.history|, cap));
            Check(w.history, text, cap, w.scan).found == First(w.history, text, w.floor.value) <==>
            forall k: nat :: w.scan <= k < from ==> !Occurs(w.history, text, k)
  {
    hide Occurs;
    var from, floor := Max(w.scan, Oldest(|w.history|, cap)), w.floor.value;
    var a, b := First(w.history, text, from), First(w.history, text, floor);
    assert forall k: nat :: floor <= k < w.scan ==> !Occurs(w.history, text, k);
    if forall k: nat :: w.scan <= k < from ==> !Occurs(w.history, text, k) {
      if b.Some? { assert !(floor <= b.value < from); }
    }
  }

  // ---- One byte more ----

  const SOUGHT: Text := [1, 2]

  function Zeros(n: nat): (z: Text)
    ensures |z| == n && forall i :: 0 <= i < n ==> z[i] == 0
  {
    seq(n, _ => 0)
  }

  /** A check, the rest of the text, and n more bytes. */
  function Burst(n: nat): seq<Event> {
    if n == 0 then [CheckNow, Sent(2)] else Burst(n - 1) + [Sent(0)]
  }

  lemma {:induction false} AfterBurst(cap: nat, n: nat)
    requires 2 <= cap
    ensures Run(Wait([9, 1], 0, None, None, 0, true), SOUGHT, cap, Burst(n)) ==
            Wait([9, 1, 2] + Zeros(n), 1, None, Some(0), n + 1, true)
  {
    var w := Wait([9, 1], 0, None, None, 0, true);
    if n == 0 {
      assert !Occurs(w.history, SOUGHT, 0) by { assert w.history[0..2][0] != SOUGHT[0]; }
      assert First(w.history, SOUGHT, 1) == None;
      assert First(w.history, SOUGHT, 0) == None;
      var a := Next(w, SOUGHT, cap, CheckNow);
      assert Burst(0)[..1] == [CheckNow] && Burst(0)[..1][..0] == [];
      assert Run(w, SOUGHT, cap, Burst(0)[..1]) == a;
      assert [9, 1] + [2] == [9, 1, 2] + Zeros(0);
    } else {
      AfterBurst(cap, n - 1);
      assert Burst(n)[..|Burst(n)| - 1] == Burst(n - 1);
      assert [9, 1, 2] + Zeros(n - 1) + [0] == [9, 1, 2] + Zeros(n);
    }
  }

  /** One byte more than is safe can hide a match, whatever the ring's size: of
      two bytes sought, one comes before a check, and the other and a ring less
      one of others between that check and the next. */
  lemma OneMoreCanHide(cap: nat)
    requires 2 <= cap
    ensures var w := Wait([9, 1], 0, None, None, 0, true);
            var b := Run(w, SOUGHT, cap, Burst(cap - 1));
            var r := Next(b, SOUGHT, cap, CheckNow);
            && Started(w) && b.since + |SOUGHT| == cap + 2
            && r.floor == Some(0) && Occurs(r.history, SOUGHT, 1) && r.found.None?
  {
    AfterBurst(cap, cap - 1);
    var h := [9, 1, 2] + Zeros(cap - 1);
    assert h[1..3] == SOUGHT;
    forall k: nat | 2 <= k ensures !Occurs(h, SOUGHT, k) {
      if k + 2 <= |h| { assert h[k..k + 2][0] == h[k] && h[k] != SOUGHT[0]; }
    }
    var f := First(h, SOUGHT, 2);
    assert f == None;
  }

  /** So it can in the serial port's. */
  lemma SerialCanHide()
    ensures var b := Run(Wait([9, 1], 0, None, None, 0, true), SOUGHT, SERIAL_OUT_MAX, Burst(SERIAL_OUT_MAX - 1));
            var r := Next(b, SOUGHT, SERIAL_OUT_MAX, CheckNow);
            Occurs(r.history, SOUGHT, 1) && r.found.None?
  {
    hide Run, Next, Burst, Occurs;
    OneMoreCanHide(SERIAL_OUT_MAX);
  }
}
