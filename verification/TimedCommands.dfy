/**
 Requests and commands that take emulated time (src/automation.c, begin_timed,
 end_timed, automation_poll, automation_quantum and key pacing). A listener
 hands over one request at a time; the CPU thread runs it between quanta.
 */
module TimedCommands {

  const KEY_GAP_MS: int := 2
  const KEY_QUEUE_MAX: int := 64
  /** Times are 64-bit. */
  const WRAP: int := 0x1_0000_0000_0000_0000

  datatype Key = Key(scan: int, down: bool)
  datatype Delivery = Delivery(ms: int, key: Key)

  datatype Command = NoCommand | Stepping | Waiting | Typing

  datatype Request =
    | Immediate
    | Hold
    | Release
    | StepFor(ms: int)
    | WaitUntil(ms: int, now: bool)
    | TypeKeys(keys: seq<Key>, wellFormed: bool)

  /** `pending` is the request in the mailbox; the fields from `submitted` on
      record what has happened. `wanted` is what the last hold or release said;
      `asked` the keys of requests accepted and not cut short. */
  datatype State = State(
    ms: int, held: bool, cmd: Command, wasHeld: bool, deadline: int,
    keys: seq<Key>, head: int, nextMs: int, pending: bool,
    submitted: nat, completed: nat, wanted: bool,
    asked: seq<Key>, delivered: seq<Delivery>, overflow: bool, cutShort: bool)

  function Wrapped(a: int): int { a % WRAP }

  // ---- The CPU thread ----

  function Complete(s: State): State {
    s.(pending := false, completed := s.completed + 1)
  }

  function BeginTimed(s: State, cmd: Command, ms: int): State {
    s.(cmd := cmd, wasHeld := s.held, deadline := Wrapped(s.ms + ms), held := false)
  }

  function EndTimed(s: State): State {
    Complete(s.(cmd := NoCommand, held := s.wasHeld))
  }

  /** A key reaches the keyboard; the next waits its gap. */
  function Deliver(s: State, k: Key): State {
    s.(delivered := s.delivered + [Delivery(s.ms, k)], nextMs := Wrapped(s.ms + KEY_GAP_MS),
       overflow := s.overflow || s.ms + KEY_GAP_MS >= WRAP)
  }

  function Handle(s: State, r: Request): State {
    match r
    case Immediate => Complete(s)
    case Hold => Complete(s.(held := true, wanted := true))
    case Release => Complete(s.(held := false, wanted := false))
    case StepFor(ms) => if ms == 0 then Complete(s) else BeginTimed(s, Stepping, ms)
    case WaitUntil(ms, now) => if now then EndTimed(BeginTimed(s, Waiting, ms)) else BeginTimed(s, Waiting, ms)
    case TypeKeys(keys, ok) =>
      if !ok || keys == [] || |keys| > KEY_QUEUE_MAX then Complete(s)
      else
        var t := BeginTimed(s.(keys := keys, asked := s.asked + keys), Typing, WRAP - 1 - s.ms);
        Deliver(t, keys[0]).(head := 1)
  }

  /** automation_poll: no request starts while a command runs. */
  function Poll(s: State, r: Request): State {
    if s.cmd != NoCommand || !s.pending then s else Handle(s, r)
  }

  /** The clock moved on. */
  function Ticked(s: State, ms: int): State {
    s.(ms := Wrapped(s.ms + ms), overflow := s.overflow || s.ms + ms >= WRAP)
  }

  /** The next key, once the last one has had its gap; the end, after the last. */
  function TypedNext(t: State): State {
    if t.ms < t.nextMs then t
    else if t.head >= |t.keys| || t.head < 0 then EndTimed(t)
    else Deliver(t, t.keys[t.head]).(head := t.head + 1)
  }

  /** automation_quantum: `ms` more of emulated time, or none at all while a
      debugger has the CPU stopped. */
  function Quantum(s: State, stopped: bool, satisfied: bool, ms: int): State {
    if stopped then
      if s.cmd == NoCommand then s
      else EndTimed(if s.cmd == Typing then CutShort(s) else s)
    else
      var t := Ticked(s, ms);
      match t.cmd
      case NoCommand => t
      case Typing => TypedNext(t)
      case Waiting => if satisfied || t.ms >= t.deadline then EndTimed(t) else t
      case Stepping => if t.ms >= t.deadline then EndTimed(t) else t
  }

  /** The debugger ended a key request: the keys not delivered never will be. */
  function CutShort(s: State): State {
    if 0 <= |s.keys| - s.head <= |s.asked| then
      s.(asked := s.asked[..|s.asked| - (|s.keys| - s.head)], cutShort := true)
    else s.(cutShort := true)
  }

  datatype Event =
    | Submitted
    | Polled(r: Request)
    | QuantumRan(stopped: bool, satisfied: bool, ms: int)

  function Next(s: State, e: Event): State {
    match e
    case Submitted => if s.pending then s else s.(pending := true, submitted := s.submitted + 1)
    case Polled(r) => Poll(s, r)
    case QuantumRan(stopped, satisfied, ms) => if 1 <= ms <= 10 then Quantum(s, stopped, satisfied, ms) else s
  }

  function Run(s: State, events: seq<Event>): State {
    if events == [] then s else Next(Run(s, events[..|events| - 1]), events[|events| - 1])
  }

  // ---- What every run keeps ----

  /** Every request handed over is completed exactly once; a command runs only
      for the request in the mailbox; and the machine is held as last asked,
      except while a command runs it. */
  predicate Accounted(s: State) {
    && s.submitted == s.completed + (if s.pending then 1 else 0)
    && (s.cmd != NoCommand ==> s.pending && !s.held && s.wasHeld == s.wanted)
    && (s.cmd == NoCommand ==> s.held == s.wanted)
    && 0 <= s.ms < WRAP
  }

  function KeysOf(d: seq<Delivery>): (k: seq<Key>)
    ensures |k| == |d| && forall i :: 0 <= i < |d| ==> k[i] == d[i].key
  {
    seq(|d|, i requires 0 <= i < |d| => d[i].key)
  }

  predicate Spaced(d: seq<Delivery>) {
    forall i :: 1 <= i < |d| ==> d[i - 1].ms + KEY_GAP_MS <= d[i].ms
  }

  /** Keys arrive in the order asked, none twice, none left out but the ones
      still to come; and at least the gap apart, across requests too. */
  predicate Paced(s: State) {
    && 0 <= s.ms < WRAP
    && (s.cmd == Typing ==>
          && 1 <= s.head <= |s.keys| && s.asked == KeysOf(s.delivered) + s.keys[s.head..] && s.delivered != [])
    && (s.cmd != Typing ==> s.asked == KeysOf(s.delivered))
    && (!s.overflow && !s.cutShort ==>
          && Spaced(s.delivered)
          && (s.delivered != [] ==>
                var last := s.delivered[|s.delivered| - 1].ms;
                && last <= s.ms
                && if s.cmd == Typing then s.nextMs == last + KEY_GAP_MS else last + KEY_GAP_MS <= s.ms))
  }

  lemma HandleAccounted(s: State, r: Request)
    requires Accounted(s) && s.cmd == NoCommand && s.pending
    ensures Accounted(Handle(s, r))
  {
  }

  lemma NextAccounted(s: State, e: Event)
    requires Accounted(s)
    ensures Accounted(Next(s, e))
  {
    match e
    case Submitted =>
    case Polled(r) => if s.cmd == NoCommand && s.pending { HandleAccounted(s, r); }
    case QuantumRan(stopped, satisfied, ms) =>
      if 1 <= ms <= 10 {
        match s.cmd
        case NoCommand =>
        case Typing =>
        case Waiting =>
        case Stepping =>
      }
  }

  /** Delivering one more key. */
  lemma DeliverPaced(s: State, k: Key, rest: seq<Key>)
    requires 0 <= s.ms < WRAP && s.asked == KeysOf(s.delivered) + [k] + rest
    requires !s.overflow && !s.cutShort ==>
               Spaced(s.delivered) && (s.delivered != [] ==> s.delivered[|s.delivered| - 1].ms + KEY_GAP_MS <= s.ms)
    ensures var t := Deliver(s, k);
            && t.asked == KeysOf(t.delivered) + rest && t.delivered != []
            && (!t.overflow && !t.cutShort ==> Spaced(t.delivered) && t.nextMs == t.ms + KEY_GAP_MS)
            && t.delivered[|t.delivered| - 1].ms == s.ms
  {
    var t := Deliver(s, k);
    assert KeysOf(t.delivered) == KeysOf(s.delivered) + [k];
    assert KeysOf(s.delivered) + [k] + rest == KeysOf(t.delivered) + rest;
  }

  /** A first key accepted while no command runs. */
  lemma TypePaced(s: State, keys: seq<Key>)
    requires Paced(s) && s.cmd == NoCommand && 1 <= |keys| <= KEY_QUEUE_MAX
    ensures Paced(Handle(s, TypeKeys(keys, true)))
  {
    hide Deliver, KeysOf, Spaced;
    var t := BeginTimed(s.(keys := keys, asked := s.asked + keys), Typing, WRAP - 1 - s.ms);
    assert keys == [keys[0]] + keys[1..];
    assert t.asked == KeysOf(t.delivered) + [keys[0]] + keys[1..];
    DeliverPaced(t, keys[0], keys[1..]);
    DeliverKeeps(t, keys[0]);
  }

  lemma HandlePaced(s: State, r: Request)
    requires Paced(s) && s.cmd == NoCommand
    ensures Paced(Handle(s, r))
  {
    hide Deliver, KeysOf, Spaced;
    match r {
      case Immediate =>
      case Hold =>
      case Release =>
      case StepFor(ms) => if ms == 0 { } else { }
      case WaitUntil(ms, now) => if now { } else { }
      case TypeKeys(keys, ok) => if ok && 1 <= |keys| <= KEY_QUEUE_MAX { TypePaced(s, keys); }
    }
  }

  lemma DeliverKeeps(s: State, k: Key)
    ensures var t := Deliver(s, k);
            t.cmd == s.cmd && t.keys == s.keys && t.head == s.head && t.ms == s.ms && t.cutShort == s.cutShort
            && (t.overflow || !s.overflow)
  {
  }

  /** A debugger stop: what was delivered is all that was asked. */
  lemma StopPaced(s: State, satisfied: bool, ms: int)
    requires Paced(s)
    ensures Paced(Quantum(s, true, satisfied, ms))
  {
    hide KeysOf, Spaced;
    if s.cmd == Typing {
      var rest := s.keys[s.head..];
      assert |rest| == |s.keys| - s.head;
      assert s.asked[..|s.asked| - |rest|] == KeysOf(s.delivered);
    }
  }

  lemma TypingPaced(s: State, satisfied: bool, ms: int)
    requires Paced(s) && 1 <= ms <= 10 && s.cmd == Typing
    ensures Paced(Quantum(s, false, satisfied, ms))
  {
    hide Deliver, KeysOf, Spaced;
    var t := Ticked(s, ms);
    if t.ms < t.nextMs {
    } else if t.head >= |t.keys| {
      assert t.keys[t.head..] == [] && KeysOf(t.delivered) + [] == KeysOf(t.delivered);
    } else {
      var k, rest := t.keys[t.head], t.keys[t.head + 1..];
      assert t.keys[t.head..] == [k] + rest;
      assert KeysOf(t.delivered) + ([k] + rest) == KeysOf(t.delivered) + [k] + rest;
      DeliverPaced(t, k, rest);
      DeliverKeeps(t, k);
    }
  }

  lemma TickedIs(s: State, ms: int)
    requires 0 <= s.ms < WRAP && 1 <= ms <= 10
    ensures var t := Ticked(s, ms);
            && t == s.(ms := t.ms, overflow := t.overflow) && 0 <= t.ms < WRAP
            && (s.overflow ==> t.overflow) && (!t.overflow ==> s.ms <= t.ms)
  {
  }

  /** A quantum that gives no key leaves what was delivered and is due alone. */
  lemma QuantumQuiet(s: State, stopped: bool, satisfied: bool, ms: int)
    requires 0 <= s.ms < WRAP && 1 <= ms <= 10 && (stopped || s.cmd != Typing)
    ensures var t := Quantum(s, stopped, satisfied, ms);
            && t.delivered == s.delivered && t.nextMs == s.nextMs && 0 <= t.ms < WRAP
            && (s.overflow ==> t.overflow) && (!t.overflow ==> s.ms <= t.ms)
            && (!stopped ==> t.cmd != Typing && t.asked == s.asked && t.cutShort == s.cutShort)
  {
    hide Ticked;
    TickedIs(s, ms);
    if stopped { } else { }
  }

  lemma QuietPaced(s: State, t: State)
    requires Paced(s) && s.cmd != Typing && t.cmd != Typing
    requires t.delivered == s.delivered && t.asked == s.asked && t.cutShort == s.cutShort && 0 <= t.ms < WRAP
    requires (s.overflow ==> t.overflow) && (!t.overflow ==> s.ms <= t.ms)
    ensures Paced(t)
  {
    hide KeysOf, Spaced;
  }

  lemma QuantumPaced(s: State, stopped: bool, satisfied: bool, ms: int)
    requires Paced(s) && 1 <= ms <= 10
    ensures Paced(Quantum(s, stopped, satisfied, ms))
  {
    hide Quantum, KeysOf, Spaced;
    if stopped {
      StopPaced(s, satisfied, ms);
    } else if s.cmd == Typing {
      TypingPaced(s, satisfied, ms);
    } else {
      QuantumQuiet(s, stopped, satisfied, ms);
      QuietPaced(s, Quantum(s, stopped, satisfied, ms));
    }
  }

  // ---- When keys keep their gap ----

  predicate Accepted(r: Request) {
    r.TypeKeys? && r.wellFormed && 1 <= |r.keys| <= KEY_QUEUE_MAX
  }

  /** A key request taken up. */
  predicate Accepts(s: State, e: Event) {
    e.Polled? && s.cmd == NoCommand && s.pending && Accepted(e.r)
  }

  /** The gap after the last key, if there was one, is over. */
  predicate GapOver(s: State) {
    s.delivered == [] || s.nextMs <= s.ms
  }

  /** Without overflow the clock knows when the gap after the last key ends. */
  predicate Clocked(s: State) {
    && 0 <= s.ms < WRAP
    && (!s.overflow && s.delivered != [] ==>
          var last := s.delivered[|s.delivered| - 1].ms;
          last <= s.ms && s.nextMs == last + KEY_GAP_MS)
  }

  /** Another key keeps the keys spaced exactly when the gap was over. */
  lemma DeliverSpaced(s: State, k: Key)
    requires Clocked(s) && !Deliver(s, k).overflow
    ensures Spaced(Deliver(s, k).delivered) <==> Spaced(s.delivered) && GapOver(s)
    ensures Clocked(Deliver(s, k))
  {
    var d, n := Deliver(s, k).delivered, |s.delivered|;
    assert d[..n] == s.delivered;
    if Spaced(d) {
      forall i | 1 <= i < n ensures s.delivered[i - 1].ms + KEY_GAP_MS <= s.delivered[i].ms {
        assert d[i - 1] == s.delivered[i - 1] && d[i] == s.delivered[i];
      }
      if n > 0 { assert d[n - 1].ms + KEY_GAP_MS <= d[n].ms; }
    }
  }

  /** What a step does to the spacing: nothing, or what its key does. */
  predicate StepSpaced(s: State, e: Event, t: State) {
    && Clocked(t) && (s.overflow ==> t.overflow)
    && (!t.overflow ==> (Spaced(t.delivered) <==> Spaced(s.delivered) && (Accepts(s, e) ==> GapOver(s))))
  }

  lemma AcceptSpaced(s: State, keys: seq<Key>)
    requires Clocked(s) && s.cmd == NoCommand && s.pending && 1 <= |keys| <= KEY_QUEUE_MAX
    ensures var r := TypeKeys(keys, true); StepSpaced(s, Polled(r), Handle(s, r))
  {
    hide Spaced, Deliver;
    var t := BeginTimed(s.(keys := keys, asked := s.asked + keys), Typing, WRAP - 1 - s.ms);
    var u := Deliver(t, keys[0]);
    DeliverKeeps(t, keys[0]);
    DeliverGrows(t, keys[0]);
    if !u.overflow { DeliverSpaced(t, keys[0]); }
  }

  lemma DeliverGrows(s: State, k: Key)
    ensures Deliver(s, k).delivered == s.delivered + [Delivery(s.ms, k)] && (s.overflow ==> Deliver(s, k).overflow)
  {
  }

  lemma HandleSpaced(s: State, r: Request)
    requires Clocked(s) && s.cmd == NoCommand && s.pending
    ensures StepSpaced(s, Polled(r), Handle(s, r))
  {
    hide Spaced, Deliver;
    match r {
      case Immediate =>
      case Hold =>
      case Release =>
      case StepFor(ms) => if ms == 0 { } else { }
      case WaitUntil(ms, now) => if now { } else { }
      case TypeKeys(keys, ok) => if ok && 1 <= |keys| <= KEY_QUEUE_MAX { AcceptSpaced(s, keys); }
    }
  }

  /** A step that delivers nothing. */
  lemma QuietSpaced(s: State, e: Event, t: State)
    requires Clocked(s) && !Accepts(s, e)
    requires t.delivered == s.delivered && t.nextMs == s.nextMs && 0 <= t.ms < WRAP && (s.overflow ==> t.overflow)
    requires !t.overflow ==> s.ms <= t.ms
    ensures StepSpaced(s, e, t)
  {
    hide Spaced;
  }

  lemma TypingSpaced(s: State, satisfied: bool, ms: int)
    requires Clocked(s) && 1 <= ms <= 10 && s.cmd == Typing
    ensures StepSpaced(s, QuantumRan(false, satisfied, ms), Quantum(s, false, satisfied, ms))
  {
    hide Spaced, Deliver, Ticked, StepSpaced, Accepts;
    var e, t, u := QuantumRan(false, satisfied, ms), Ticked(s, ms), Quantum(s, false, satisfied, ms);
    TickedIs(s, ms);
    NotAccepted(s, e);
    QuietSpaced(s, e, t);
    if t.ms < t.nextMs {
    } else if t.head >= |t.keys| || t.head < 0 {
      QuietSpaced(s, e, u);
    } else {
      KeySpaced(s, e, t, t.keys[t.head]);
    }
  }

  lemma NotAccepted(s: State, e: Event)
    requires e.QuantumRan?
    ensures !Accepts(s, e)
  {
  }

  /** The next key, once its gap is over. */
  lemma KeySpaced(s: State, e: Event, t: State, k: Key)
    requires StepSpaced(s, e, t) && !Accepts(s, e) && t.nextMs <= t.ms
    ensures StepSpaced(s, e, Deliver(t, k).(head := t.head + 1))
  {
    hide Spaced, Deliver, Accepts;
    DeliverKeeps(t, k);
    DeliverGrows(t, k);
    if !Deliver(t, k).overflow { DeliverSpaced(t, k); }
  }

  lemma QuantumSpaced(s: State, stopped: bool, satisfied: bool, ms: int)
    requires Clocked(s) && 1 <= ms <= 10
    ensures StepSpaced(s, QuantumRan(stopped, satisfied, ms), Quantum(s, stopped, satisfied, ms))
  {
    hide Spaced, StepSpaced, Accepts, Quantum;
    var e := QuantumRan(stopped, satisfied, ms);
    NotAccepted(s, e);
    if !stopped && s.cmd == Typing {
      TypingSpaced(s, satisfied, ms);
    } else {
      QuantumQuiet(s, stopped, satisfied, ms);
      QuietSpaced(s, e, Quantum(s, stopped, satisfied, ms));
    }
  }

  lemma NextSpaced(s: State, e: Event)
    requires Clocked(s)
    ensures StepSpaced(s, e, Next(s, e))
  {
    hide Handle, Quantum, Spaced;
    match e
    case Submitted =>
    case Polled(r) => if s.cmd == NoCommand && s.pending { HandleSpaced(s, r); }
    case QuantumRan(stopped, satisfied, ms) => if 1 <= ms <= 10 { QuantumSpaced(s, stopped, satisfied, ms); }
  }

  /** In a run, no key request was taken up before the gap was over. */
  predicate NoneEarly(s: State, events: seq<Event>) {
    events == [] ||
    var before, e := Run(s, events[..|events| - 1]), events[|events| - 1];
    NoneEarly(s, events[..|events| - 1]) && (Accepts(before, e) ==> GapOver(before))
  }

  /** In every run without overflow, debugger stops included, the keys are at
      least the gap apart if and only if no key request was taken up early. */
  lemma {:induction false} SpacedExactly(s: State, events: seq<Event>)
    requires Initial(s)
    ensures Clocked(Run(s, events))
    ensures !Run(s, events).overflow ==> (Spaced(Run(s, events).delivered) <==> NoneEarly(s, events))
  {
    if events == [] {
    } else {
      hide Next, Clocked, Accepts, GapOver;
      SpacedExactly(s, events[..|events| - 1]);
      NextSpaced(Run(s, events[..|events| - 1]), events[|events| - 1]);
    }
  }

  lemma NextPaced(s: State, e: Event)
    requires Paced(s)
    ensures Paced(Next(s, e))
  {
    hide Handle, Quantum;
    match e
    case Submitted =>
    case Polled(r) => if s.cmd == NoCommand && s.pending { HandlePaced(s, r); }
    case QuantumRan(stopped, satisfied, ms) => if 1 <= ms <= 10 { QuantumPaced(s, stopped, satisfied, ms); }
  }

  predicate Initial(s: State) {
    && s.cmd == NoCommand && !s.pending && s.submitted == s.completed == 0 && s.wanted == s.held && 0 <= s.ms < WRAP
    && s.asked == [] && s.delivered == [] && !s.overflow && !s.cutShort
  }

  /** For every run of submissions, polls and quanta. */
  lemma {:induction false} EveryRun(s: State, events: seq<Event>)
    requires Initial(s)
    ensures Accounted(Run(s, events)) && Paced(Run(s, events))
  {
    if events == [] {
      assert KeysOf(s.delivered) == [];
    } else {
      hide Next, Accounted, Paced;
      var before := Run(s, events[..|events| - 1]);
      EveryRun(s, events[..|events| - 1]);
      NextAccounted(before, events[|events| - 1]);
      NextPaced(before, events[|events| - 1]);
    }
  }

  // ---- How long a step takes ----

  /** k quanta of q ms, the debugger not stopping them. */
  function Quanta(s: State, q: int, k: nat): State {
    if k == 0 then s else Quantum(Quanta(s, q, k - 1), false, false, q)
  }

  function CeilDiv(m: int, q: int): int
    requires 0 < q
  {
    (m + q - 1) / q
  }

  lemma CeilDivIs(m: int, q: int, k: nat)
    requires 0 < m && (q == 1 || q == 10)
    ensures k * q >= m <==> k >= CeilDiv(m, q)
  {
    if q == 1 { } else { }
  }

  /** Which turn of the 64-bit clock a time falls in. */
  function Lap(ms: int): int { ms / WRAP }

  /** A request for a step of m ms taken up in s, with quanta of q ms. */
  predicate StepAsked(s: State, m: int, q: int) {
    s.cmd == NoCommand && s.pending && 0 <= s.ms < WRAP && 0 < m < WRAP && (q == 1 || q == 10)
  }

  /** The step runs for k quanta: not one more has gone by than the clock, in
      its lap, has to show. */
  predicate RunningAt(s: State, m: int, q: int, k: nat, t: State) {
    && t.cmd == Stepping && t.completed == s.completed && t.pending && !t.held && t.wasHeld == s.held
    && t.deadline == s.ms + m - Lap(s.ms + m) * WRAP
    && t.ms == if k == 0 then s.ms else s.ms + k * q - Lap(s.ms + q) * WRAP
  }

  /** The step is over, the request done and the machine held as before. */
  predicate OverAt(s: State, t: State) {
    t.cmd == NoCommand && t.completed == s.completed + 1 && !t.pending && t.held == s.held
  }

  lemma WrappedIs(a: int)
    ensures Wrapped(a) == a - Lap(a) * WRAP
  {
  }

  lemma StepStarts(s: State, m: int, q: int)
    requires StepAsked(s, m, q)
    ensures RunningAt(s, m, q, 0, Poll(s, StepFor(m)))
  {
    WrappedIs(s.ms + m);
  }

  /** One quantum of a running step. */
  lemma StepQuantum(s: State, m: int, q: int, k: nat, t: State, now: int)
    requires StepAsked(s, m, q) && RunningAt(s, m, q, k, t)
    requires now == Wrapped(t.ms + q)
    ensures var u := Quantum(t, false, false, q);
            u.ms == now && if now >= t.deadline then OverAt(s, u)
                           else u == t.(ms := now, overflow := u.overflow)
  {
    hide Wrapped;
  }

  lemma Next1(s: State, m: int, q: int, k: nat)
    requires StepAsked(s, m, q) && Lap(s.ms + (k + 1) * q) == Lap(s.ms + q)
    ensures var ms := if k == 0 then s.ms else s.ms + k * q - Lap(s.ms + q) * WRAP;
            Wrapped(ms + q) == s.ms + (k + 1) * q - Lap(s.ms + q) * WRAP
  {
    assert (k + 1) * q == k * q + q;
    var lap, x := Lap(s.ms + q), s.ms + (k + 1) * q;
    assert x - lap * WRAP == x % WRAP;
  }

  /** Between two times of one lap there is no other. */
  lemma LapBetween(a: int, b: int, c: int)
    requires a <= b <= c && Lap(a) == Lap(c)
    ensures Lap(b) == Lap(a)
  {
  }

  lemma QuantaStep(s: State, q: int, k: nat)
    requires 0 < k
    ensures Quanta(s, q, k) == Quantum(Quanta(s, q, k - 1), false, false, q)
  {
    hide Quantum;
  }

  /** With the first quantum's end and the deadline in one lap, the step runs
      for less than ceil(m / q) quanta. */
  lemma {:induction false} StepRuns(s: State, m: int, q: int, k: nat)
    requires StepAsked(s, m, q) && Lap(s.ms + q) == Lap(s.ms + m) && k < CeilDiv(m, q)
    ensures RunningAt(s, m, q, k, Quanta(Poll(s, StepFor(m)), q, k))
  {
    hide Wrapped, Quantum, CeilDiv, Lap;
    CeilDivIs(m, q, k);
    if k == 0 {
      StepStarts(s, m, q);
    } else {
      hide Poll, Quanta;
      var t := Quanta(Poll(s, StepFor(m)), q, k - 1);
      StepRuns(s, m, q, k - 1);
      Scaled(k, q);
      LapBetween(s.ms + q, s.ms + k * q, s.ms + m);
      Next1(s, m, q, k - 1);
      StepQuantum(s, m, q, k - 1, t, s.ms + k * q - Lap(s.ms + q) * WRAP);
      QuantaStep(Poll(s, StepFor(m)), q, k);
    }
  }

  lemma Scaled(k: nat, q: int)
    requires 1 <= k && (q == 1 || q == 10)
    ensures q <= k * q && (k - 1) * q + q == k * q
  {
    if q == 1 { } else { }
  }

  /** And with the end of that many quanta in the lap too, it is over then. */
  lemma StepEnds(s: State, m: int, q: int)
    requires StepAsked(s, m, q) && Lap(s.ms + q) == Lap(s.ms + m) == Lap(s.ms + CeilDiv(m, q) * q)
    ensures OverAt(s, Quanta(Poll(s, StepFor(m)), q, CeilDiv(m, q)))
  {
    hide Wrapped, Quantum, CeilDiv, Poll, Quanta, Lap;
    var k := LastQuantum(s, m, q);
    var t := Quanta(Poll(s, StepFor(m)), q, k);
    Next1(s, m, q, k);
    StepQuantum(s, m, q, k, t, s.ms + (k + 1) * q - Lap(s.ms + q) * WRAP);
    QuantaStep(Poll(s, StepFor(m)), q, k + 1);
  }

  /** The quanta before the last. */
  lemma LastQuantum(s: State, m: int, q: int) returns (k: nat)
    requires StepAsked(s, m, q) && Lap(s.ms + q) == Lap(s.ms + m)
    ensures k + 1 == CeilDiv(m, q) && m <= (k + 1) * q && k * q < m && (k + 1) * q == k * q + q
    ensures RunningAt(s, m, q, k, Quanta(Poll(s, StepFor(m)), q, k))
  {
    CeilPositive(m, q);
    k := CeilDiv(m, q) - 1;
    CeilDivIs(m, q, k);
    CeilDivIs(m, q, k + 1);
    StepRuns(s, m, q, k);
    Scaled(k + 1, q);
  }

  /** A clock that wraps in the last quantum, past the deadline, misses it. */
  lemma StepOverruns(s: State, m: int, q: int)
    requires StepAsked(s, m, q) && Lap(s.ms + q) == Lap(s.ms + m) != Lap(s.ms + CeilDiv(m, q) * q)
    ensures Quanta(Poll(s, StepFor(m)), q, CeilDiv(m, q)).cmd == Stepping
  {
    hide Quantum, CeilDiv, Poll, Quanta;
    var k := LastQuantum(s, m, q);
    var t := Quanta(Poll(s, StepFor(m)), q, k);
    WrapsPast(s, m, q, k, t);
    StepQuantum(s, m, q, k, t, Wrapped(t.ms + q));
    QuantaStep(Poll(s, StepFor(m)), q, k + 1);
  }

  lemma WrapsPast(s: State, m: int, q: int, k: nat, t: State)
    requires StepAsked(s, m, q) && RunningAt(s, m, q, k, t) && Lap(s.ms + q) == Lap(s.ms + m)
    requires m <= (k + 1) * q == k * q + q && k * q < m && Lap(s.ms + (k + 1) * q) != Lap(s.ms + m)
    ensures Wrapped(t.ms + q) < t.deadline
  {
    var x, lap := s.ms + (k + 1) * q, Lap(s.ms + m);
    assert Lap(x) == lap + 1;
    if k > 0 {
      assert t.ms + q == x - lap * WRAP;
      assert Wrapped(t.ms + q) == x - (lap + 1) * WRAP;
    }
  }

  // ---- What was asked ----

  /** A request is taken up when no command runs. */
  predicate TakenUp(s: State, e: Event) { e.Polled? && s.cmd == NoCommand && s.pending }

  /** What the last hold or release taken up in a run said. */
  function LastHeld(s: State, events: seq<Event>): bool {
    if events == [] then s.held
    else
      var before, e := Run(s, events[..|events| - 1]), events[|events| - 1];
      if TakenUp(before, e) && e.r.Hold? then true
      else if TakenUp(before, e) && e.r.Release? then false
      else LastHeld(s, events[..|events| - 1])
  }

  /** The keys of the key requests taken up: well-formed, of 1 to 64 keys. */
  function KeysAsked(s: State, events: seq<Event>): seq<Key> {
    if events == [] then []
    else
      var before, e := Run(s, events[..|events| - 1]), events[|events| - 1];
      var asked := KeysAsked(s, events[..|events| - 1]);
      if TakenUp(before, e) && e.r.TypeKeys? && e.r.wellFormed && 1 <= |e.r.keys| <= 64 then asked + e.r.keys
      else asked
  }

  lemma QuantumAsks(s: State, stopped: bool, satisfied: bool, ms: int)
    ensures var t := Quantum(s, stopped, satisfied, ms);
            t.wanted == s.wanted && (!t.cutShort ==> !s.cutShort && t.asked == s.asked)
  {
    if stopped { } else { }
  }

  /** What was asked for, and the clock. */
  predicate SameAsks(s: State, t: State) {
    t.wanted == s.wanted && t.cutShort == s.cutShort && t.asked == s.asked && t.ms == s.ms
  }

  lemma CompleteAsks(s: State)
    ensures SameAsks(s, Complete(s)) && Complete(s).overflow == s.overflow
  {
  }

  lemma BeginAsks(s: State, cmd: Command, ms: int)
    ensures var t := BeginTimed(s, cmd, ms); SameAsks(s, t) && t.overflow == s.overflow
  {
  }

  lemma EndAsks(s: State)
    ensures SameAsks(s, EndTimed(s)) && EndTimed(s).overflow == s.overflow
  {
  }

  lemma DeliverAsks(s: State, k: Key)
    ensures SameAsks(s, Deliver(s, k)) && Deliver(s, k).overflow == (s.overflow || s.ms + KEY_GAP_MS >= WRAP)
  {
  }

  lemma HandleAsks(s: State, r: Request)
    ensures var t := Handle(s, r);
            && t.wanted == (if r.Hold? then true else if r.Release? then false else s.wanted)
            && t.cutShort == s.cutShort && t.ms == s.ms && (s.ms + KEY_GAP_MS < WRAP ==> t.overflow == s.overflow)
            && t.asked == if r.TypeKeys? && r.wellFormed && 1 <= |r.keys| <= 64 then s.asked + r.keys else s.asked
  {
    hide BeginTimed, EndTimed, Complete, Deliver;
    match r
    case Immediate => CompleteAsks(s);
    case Hold => CompleteAsks(s.(held := true, wanted := true));
    case Release => CompleteAsks(s.(held := false, wanted := false));
    case StepFor(ms) =>
      CompleteAsks(s);
      BeginAsks(s, Stepping, ms);
    case WaitUntil(ms, now) =>
      BeginAsks(s, Waiting, ms);
      EndAsks(BeginTimed(s, Waiting, ms));
    case TypeKeys(keys, ok) =>
      CompleteAsks(s);
      if keys != [] {
        var q := s.(keys := keys, asked := s.asked + keys);
        BeginAsks(q, Typing, WRAP - 1 - s.ms);
        DeliverAsks(BeginTimed(q, Typing, WRAP - 1 - s.ms), keys[0]);
      }
  }

  /** In every run, while no command runs the machine is held as the last hold or
      release said; and without a debugger stop the keys delivered and to come
      are those of the requests accepted. */
  lemma {:induction false} AsAsked(s: State, events: seq<Event>)
    requires Initial(s)
    ensures var t := Run(s, events);
            && t.wanted == LastHeld(s, events) && (t.cmd == NoCommand ==> t.held == LastHeld(s, events))
            && (!t.cutShort ==> t.asked == KeysAsked(s, events))
            && (!t.cutShort && t.cmd != Typing ==> KeysOf(t.delivered) == KeysAsked(s, events))
  {
    EveryRun(s, events);
    AskedIs(s, events);
  }

  lemma {:induction false} AskedIs(s: State, events: seq<Event>)
    requires Initial(s)
    ensures var t := Run(s, events);
            t.wanted == LastHeld(s, events) && (!t.cutShort ==> t.asked == KeysAsked(s, events))
  {
    hide Quantum, Handle;
    if events == [] {
    } else {
      var before, e := Run(s, events[..|events| - 1]), events[|events| - 1];
      AskedIs(s, events[..|events| - 1]);
      match e {
        case Submitted =>
        case Polled(r) => HandleAsks(before, r);
        case QuantumRan(stopped, satisfied, ms) => QuantumAsks(before, stopped, satisfied, ms);
      }
    }
  }

  /** A key comes at the end of the first quantum at which the gap after the last
      one is over; after the last key the request is completed there. */
  lemma KeyExactly(s: State, satisfied: bool, q: int)
    requires s.cmd == Typing && 0 <= s.head
    ensures var now, t := (s.ms + q) % WRAP, Quantum(s, false, satisfied, q);
            && t.ms == now
            && if now < s.nextMs then t.delivered == s.delivered && t.cmd == Typing && t.completed == s.completed
               else if s.head < |s.keys| then
                 && t.delivered == s.delivered + [Delivery(now, s.keys[s.head])] && t.cmd == Typing
                 && t.head == s.head + 1 && t.nextMs == (now + 2) % WRAP
               else t.delivered == s.delivered && t.cmd == NoCommand && t.completed == s.completed + 1
  {
  }

  /** Milliseconds a run lasts, and the clock of a run that does not wrap. */
  function Lasts(events: seq<Event>): nat {
    if events == [] then 0
    else
      var e := events[|events| - 1];
      Lasts(events[..|events| - 1]) + if e.QuantumRan? && !e.stopped && 1 <= e.ms <= 10 then e.ms else 0
  }

  /** Runs that end two milliseconds before the 64-bit clock wraps are without
      overflow. */
  lemma {:induction false} NoOverflow(s: State, events: seq<Event>)
    requires Initial(s) && s.ms + Lasts(events) + KEY_GAP_MS < WRAP
    ensures !Run(s, events).overflow && Run(s, events).ms == s.ms + Lasts(events)
  {
    hide Quantum, Handle;
    if events == [] {
    } else {
      var before, e := Run(s, events[..|events| - 1]), events[|events| - 1];
      NoOverflow(s, events[..|events| - 1]);
      match e {
        case Submitted =>
        case Polled(r) => HandleAsks(before, r);
        case QuantumRan(stopped, satisfied, ms) =>
          if 1 <= ms <= 10 { QuantumClock(before, stopped, satisfied, ms); }
      }
    }
  }

  lemma QuantumClock(s: State, stopped: bool, satisfied: bool, ms: int)
    requires 0 <= s.ms && (stopped || (1 <= ms && s.ms + ms + KEY_GAP_MS < WRAP))
    ensures var t := Quantum(s, stopped, satisfied, ms);
            t.ms == s.ms + (if stopped then 0 else ms) && t.overflow == s.overflow
  {
    if stopped { } else { }
  }

  // ---- Waits ----

  /** A quantum with no debugger stop: whether the condition held at its end, and
      its length. */
  datatype Slice = Slice(satisfied: bool, ms: int)

  function Slices(s: State, slices: seq<Slice>): State {
    if slices == [] then s
    else var last := slices[|slices| - 1]; Quantum(Slices(s, slices[..|slices| - 1]), false, last.satisfied, last.ms)
  }

  function Elapsed(slices: seq<Slice>): int {
    if slices == [] then 0 else Elapsed(slices[..|slices| - 1]) + slices[|slices| - 1].ms
  }

  /** After the first i + 1 quanta the condition holds, or the clock, in 64 bits,
      has reached the deadline. */
  predicate WaitOver(start: int, m: int, slices: seq<Slice>, i: int)
    requires 0 <= i < |slices|
  {
    slices[i].satisfied || (start + Elapsed(slices[..i + 1])) % WRAP >= (start + m) % WRAP
  }

  /** A wait asked for in s, at a time: over or not. */
  predicate WaitAt(s: State, m: int, t: State, ms: int, over: bool) {
    && t.ms == ms
    && if over then t.cmd == NoCommand && t.held == s.held && !t.pending && t.completed == s.completed + 1
       else && t.cmd == Waiting && t.deadline == (s.ms + m) % WRAP
            && t.wasHeld == s.held && t.pending && t.completed == s.completed
  }

  lemma WaitStep(s: State, m: int, t: State, ms: int, over: bool, satisfied: bool, q: int)
    requires WaitAt(s, m, t, ms, over)
    ensures var now := (ms + q) % WRAP;
            WaitAt(s, m, Quantum(t, false, satisfied, q), now, over || satisfied || now >= (s.ms + m) % WRAP)
  {
    if over { } else if satisfied { } else { }
  }

  lemma WaitStarts(s: State, m: int, now: bool)
    requires Accounted(s) && s.cmd == NoCommand && s.pending
    ensures WaitAt(s, m, Poll(s, WaitUntil(m, now)), s.ms % WRAP, now)
  {
  }

  lemma WaitOverIs(start: int, m: int, slices: seq<Slice>, i: int)
    requires 0 <= i < |slices|
    ensures WaitOver(start, m, slices, i) <==>
            slices[i].satisfied || (start + Elapsed(slices[..i + 1])) % WRAP >= (start + m) % WRAP
  {
  }

  predicate AnyOver(start: int, m: int, slices: seq<Slice>) {
    exists i :: 0 <= i < |slices| && WaitOver(start, m, slices, i)
  }

  lemma AnyOverMore(start: int, m: int, slices: seq<Slice>)
    requires slices != []
    ensures var n := |slices| - 1;
            AnyOver(start, m, slices) <==> AnyOver(start, m, slices[..n]) || WaitOver(start, m, slices, n)
  {
    var n := |slices| - 1;
    forall i | 0 <= i < n ensures WaitOver(start, m, slices, i) == WaitOver(start, m, slices[..n], i) {
      assert slices[..n][..i + 1] == slices[..i + 1];
    }
  }

  /** A wait ends at once if its condition holds when it is asked for, and else
      at the end of the first quantum at which it does or the deadline is
      reached, and not before; then the request is completed, the machine held
      as it was. */
  lemma {:induction false} WaitExactly(s: State, m: int, now: bool, slices: seq<Slice>)
    requires Accounted(s) && s.cmd == NoCommand && s.pending
    ensures WaitAt(s, m, Slices(Poll(s, WaitUntil(m, now)), slices), (s.ms + Elapsed(slices)) % WRAP,
                   now || AnyOver(s.ms, m, slices))
  {
    hide Quantum, Poll, WaitAt, Accounted, WaitOver;
    if slices == [] {
      WaitStarts(s, m, now);
    } else {
      var n := |slices| - 1;
      WaitOverIs(s.ms, m, slices, n);
      WaitExactly(s, m, now, slices[..n]);
      var ms := (s.ms + Elapsed(slices[..n])) % WRAP;
      WaitStep(s, m, Slices(Poll(s, WaitUntil(m, now)), slices[..n]), ms, now || AnyOver(s.ms, m, slices[..n]),
               slices[n].satisfied, slices[n].ms);
      TickSum(s.ms, Elapsed(slices[..n]), slices[n].ms);
      AnyOverMore(s.ms, m, slices);
      assert slices[..n + 1] == slices;
    }
  }

  lemma TickSum(start: int, a: int, b: int)
    ensures ((start + a) % WRAP + b) % WRAP == (start + a + b) % WRAP
  {
  }

  /** A step of m ms with quanta of q (1, or 10) takes ceil(m / q) of them. */
  ghost predicate TakesItsTime(s: State, m: int, q: int)
    requires StepAsked(s, m, q)
  {
    CeilPositive(m, q);
    && (forall k: nat :: k < CeilDiv(m, q) ==> Quanta(Poll(s, StepFor(m)), q, k).cmd == Stepping)
    && OverAt(s, Quanta(Poll(s, StepFor(m)), q, CeilDiv(m, q)))
  }

  /** It does if and only if the end of its first quantum, its deadline and the
      end of its last quantum fall in one turn of the 64-bit clock. */
  lemma StepExactly(s: State, m: int, q: int)
    requires StepAsked(s, m, q)
    ensures TakesItsTime(s, m, q) <==> Lap(s.ms + q) == Lap(s.ms + m) == Lap(s.ms + CeilDiv(m, q) * q)
  {
    hide Quantum, Poll, Quanta, CeilDiv, Lap;
    CeilPositive(m, q);
    if Lap(s.ms + q) == Lap(s.ms + m) {
      if Lap(s.ms + m) == Lap(s.ms + CeilDiv(m, q) * q) {
        forall k: nat | k < CeilDiv(m, q) ensures Quanta(Poll(s, StepFor(m)), q, k).cmd == Stepping {
          StepRuns(s, m, q, k);
        }
        StepEnds(s, m, q);
      } else {
        StepOverruns(s, m, q);
      }
    } else {
      StepMistimed(s, m, q);
    }
  }

  /** With the first quantum's end in another lap than the deadline, the step
      ends at once, if the deadline wrapped, or not then, if the clock did. */
  lemma StepMistimed(s: State, m: int, q: int)
    requires StepAsked(s, m, q) && Lap(s.ms + q) != Lap(s.ms + m)
    ensures if m > q then 1 < CeilDiv(m, q) && OverAt(s, Quanta(Poll(s, StepFor(m)), q, 1))
            else CeilDiv(m, q) == 1 && Quanta(Poll(s, StepFor(m)), q, 1).cmd == Stepping
  {
    hide Quantum, Poll;
    CeilDivIs(m, q, 1);
    CeilPositive(m, q);
    StepStarts(s, m, q);
    var t := Poll(s, StepFor(m));
    WrappedIs(s.ms + q);
    StepQuantum(s, m, q, 0, t, Wrapped(t.ms + q));
    assert Quanta(t, q, 1) == Quantum(Quanta(t, q, 0), false, false, q);
    if m > q {
      assert Lap(s.ms + q) == 0 && Lap(s.ms + m) == 1;
    } else {
      assert Lap(s.ms + q) == 1 && Lap(s.ms + m) == 0;
    }
  }

  lemma CeilPositive(m: int, q: int)
    requires 0 < m && (q == 1 || q == 10)
    ensures 0 < CeilDiv(m, q)
  {
  }

  /** After a debugger stop cut a key request short, the next request's first
      key can follow at once: the gap is only kept without one. */
  lemma StopBreaksTheGap(s: State, k: Key)
    requires Initial(s) && s.ms + 10 < WRAP
    ensures var one := TypeKeys([k], true);
            var a := Next(Next(Next(s, Submitted), Polled(one)), QuantumRan(true, false, 1));
            var b := Next(Next(a, Submitted), Polled(one));
            KeysOf(b.delivered) == [k, k] && b.delivered[0].ms == b.delivered[1].ms
  {
    var one := TypeKeys([k], true);
    var a := Next(Next(Next(s, Submitted), Polled(one)), QuantumRan(true, false, 1));
    assert a.delivered == [Delivery(s.ms, k)] && a.cmd == NoCommand && !a.pending && a.ms == s.ms;
    var b := Next(Next(a, Submitted), Polled(one));
    assert b.delivered == [Delivery(s.ms, k), Delivery(s.ms, k)];
  }

  // ---- In place ----

  /** The automation thread's state. What has happened is ghost: the fields
      from `submitted` on. */
  class Automation {
    var ms: int
    var held: bool
    var cmd: Command
    var wasHeld: bool
    var deadline: int
    var keys: seq<Key>
    var head: int
    var nextMs: int
    var pending: bool
    ghost var submitted: nat
    ghost var completed: nat
    ghost var wanted: bool
    ghost var asked: seq<Key>
    ghost var delivered: seq<Delivery>
    ghost var overflow: bool
    ghost var cutShort: bool

    ghost function Now(): State
      reads this
    {
      State(ms, held, cmd, wasHeld, deadline, keys, head, nextMs, pending,
            submitted, completed, wanted, asked, delivered, overflow, cutShort)
    }

    /** Between calls: every request handed over is done or in the mailbox, the
        machine is held as asked or runs for a command, and the keys delivered
        are those asked for, in order and apart. */
    ghost predicate Valid()
      reads this
    {
      Accounted(Now()) && Paced(Now()) && Clocked(Now())
    }

    constructor (startHeld: bool)
      ensures Valid() && held == startHeld && !pending && submitted == completed == 0 && delivered == []
    {
      ms, held, cmd, wasHeld, deadline, keys, head, nextMs, pending := 0, startHeld, NoCommand, false, 0, [], 0,
          0, false;
      submitted, completed, wanted, asked, delivered, overflow, cutShort := 0, 0, startHeld, [], [], false, false;
    }

    /** The listener hands over a request once the last one is done. */
    method Submit()
      requires Valid() && !pending
      modifies this`pending, this`submitted
      ensures Valid() && Now() == Next(old(Now()), Submitted)
    {
      NextKeeps(Now(), Submitted);
      pending := true;
      submitted := submitted + 1;
    }

    method FinishRequest()
      modifies this
      ensures Now() == Complete(old(Now()))
    {
      pending := false;
      completed := completed + 1;
    }

    method StartTimed(which: Command, length: int)
      modifies this
      ensures Now() == BeginTimed(old(Now()), which, length)
    {
      hide Wrapped;
      cmd := which;
      wasHeld := held;
      deadline := Wrapped(ms + length);
      held := false;
    }

    method FinishTimed()
      modifies this
      ensures Now() == EndTimed(old(Now()))
    {
      cmd := NoCommand;
      held := wasHeld;
      FinishRequest();
    }

    method KeyboardInput(k: Key)
      modifies this
      ensures Now() == Deliver(old(Now()), k)
    {
      hide Wrapped;
      delivered := delivered + [Delivery(ms, k)];
      overflow := overflow || ms + KEY_GAP_MS >= WRAP;
      nextMs := Wrapped(ms + KEY_GAP_MS);
    }

    /** A key request: its keys wait behind the first, which goes at once. */
    method QueueKeys(queue: seq<Key>)
      requires 1 <= |queue| <= KEY_QUEUE_MAX
      modifies this
      ensures Now() == Handle(old(Now()), TypeKeys(queue, true))
    {
      hide Wrapped, Deliver, BeginTimed;
      keys, asked := queue, asked + queue;
      StartTimed(Typing, WRAP - 1 - ms);
      KeyboardInput(queue[0]);
      head := 1;
    }

    /** automation_poll and handle_request. */
    method PollRequest(r: Request)
      requires Valid()
      modifies this
      ensures Valid() && Now() == Poll(old(Now()), r)
    {
      hide Accounted, Paced, Clocked, Deliver, BeginTimed;
      NextKeeps(Now(), Polled(r));
      if cmd != NoCommand || !pending {
        return;
      }
      match r {
        case Immediate =>
        case Hold => held, wanted := true, true;
        case Release => held, wanted := false, false;
        case StepFor(length) =>
          if length != 0 {
            StartTimed(Stepping, length);
            return;
          }
        case WaitUntil(length, now) =>
          StartTimed(Waiting, length);
          if now {
            FinishTimed();
          }
          return;
        case TypeKeys(queue, ok) =>
          if ok && 1 <= |queue| <= KEY_QUEUE_MAX {
            QueueKeys(queue);
            return;
          }
      }
      FinishRequest();
    }

    /** automation_quantum. */
    method RunQuantum(stopped: bool, satisfied: bool, length: int)
      requires Valid() && (length == 1 || length == 10)
      modifies this
      ensures Valid() && Now() == Quantum(old(Now()), stopped, satisfied, length)
    {
      hide Accounted, Paced, Clocked, TypedNext, EndTimed, Ticked, CutShort;
      NextKeeps(Now(), QuantumRan(stopped, satisfied, length));
      if stopped {
        if cmd != NoCommand {
          StopCommand();
        }
        return;
      }
      Tick(length);
      if cmd == NoCommand {
        return;
      }
      if cmd == Typing {
        TypeNext();
      } else if ms >= deadline || (cmd == Waiting && satisfied) {
        FinishTimed();
      }
    }

    method Tick(length: int)
      modifies this`ms, this`overflow
      ensures Now() == Ticked(old(Now()), length)
    {
      hide Wrapped;
      overflow := overflow || ms + length >= WRAP;
      ms := Wrapped(ms + length);
    }

    /** A debugger stop ends the command; keys not delivered never will be. */
    method StopCommand()
      modifies this
      ensures Now() == EndTimed(if old(cmd) == Typing then CutShort(old(Now())) else old(Now()))
    {
      if cmd == Typing {
        asked, cutShort := CutShort(Now()).asked, true;
      }
      FinishTimed();
    }

    method TypeNext()
      modifies this
      ensures Now() == TypedNext(old(Now()))
    {
      hide EndTimed, Wrapped;
      if ms < nextMs {
        return;
      }
      if head >= |keys| || head < 0 {
        FinishTimed();
        return;
      }
      KeyboardInput(keys[head]);
      head := head + 1;
    }
  }

  /** A client's step: handed over, taken up, and run for the quanta it takes. */
  method Step(a: Automation, m: int, q: int) returns (quanta: nat)
    requires a.Valid() && a.cmd == NoCommand && !a.pending && 0 < m < WRAP && (q == 1 || q == 10)
    requires Lap(a.ms + q) == Lap(a.ms + m) == Lap(a.ms + CeilDiv(m, q) * q)
    modifies a
    ensures a.Valid() && quanta == CeilDiv(m, q) && a.cmd == NoCommand && !a.pending && a.held == old(a.held)
    ensures a.completed == old(a.completed) + 1
  {
    hide Accounted, Paced, Clocked, Poll, Quantum, Lap;
    a.Submit();
    ghost var s := a.Now();
    InRange(s);
    a.PollRequest(StepFor(m));
    quanta := 0;
    StepExactly(s, m, q);
    CeilPositive(m, q);
    while a.cmd == Stepping
      invariant a.Valid() && quanta <= CeilDiv(m, q) && a.Now() == Quanta(Poll(s, StepFor(m)), q, quanta)
      decreases CeilDiv(m, q) - quanta
    {
      assert quanta != CeilDiv(m, q);
      a.RunQuantum(false, false, q);
      quanta := quanta + 1;
      QuantaStep(Poll(s, StepFor(m)), q, quanta);
    }
  }

  lemma InRange(s: State)
    requires Accounted(s)
    ensures 0 <= s.ms < WRAP
  {
  }

  lemma NextKeeps(s: State, e: Event)
    requires Accounted(s) && Paced(s) && Clocked(s)
    ensures var t := Next(s, e); Accounted(t) && Paced(t) && Clocked(t)
  {
    hide Next, Accounted, Paced, Clocked;
    NextAccounted(s, e);
    NextPaced(s, e);
    NextSpaced(s, e);
  }
}
