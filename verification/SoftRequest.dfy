/**
 The cycle-aware 8237 and its software-request service loop (src/dma.c,
 dma_xt8237_* and dma_ibm5140_service). Bit registers are sets of channels.
 */
module SoftRequest {

  datatype Kind = Verify | Write | Read | Illegal
  datatype Service = Demand | Single | Block | Cascade

  datatype Chan = Chan(kind: Kind, service: Service, autoInit: bool, decrement: bool, ab: int, ac: int, cb: int,
      cc: int)

  datatype State = State(
    ch: seq<Chan>,
    // request lines and request register, channels holding the bus, EOP input
    drq: set<int>, sw: set<int>, demand: set<int>, block: set<int>, eop: set<int>,
    // mask, enable and TC status, transfers not counted yet, DACK
    mask: set<int>, enabled: set<int>, tc: set<int>, pend: set<int>, dack: set<int>,
    // last channel served, rotating priority, controller disabled
    last: int, rotating: bool, off: bool)
  {
    predicate Valid() {
      |ch| == 4
    }

    /** Software requests bypass the mask, not the priority. */
    function Eligible(requests: set<int>): set<int> {
      set c | c in requests && 0 <= c < 4 && c in enabled && (c !in mask || c in sw)
    }

    function Owners(requests: set<int>): set<int> {
      Eligible(requests) * (demand + block)
    }
  }

  function Lowest(r: set<int>): int {
    if 0 in r then 0 else if 1 in r then 1 else if 2 in r then 2 else if 3 in r then 3 else -1
  }

  function Rotated(r: set<int>, last: int): int {
    if (last + 1) % 4 in r then (last + 1) % 4
    else if (last + 2) % 4 in r then (last + 2) % 4
    else if (last + 3) % 4 in r then (last + 3) % 4
    else if last % 4 in r then last % 4 else -1
  }

  /** dma_xt8237_priority_pick: a channel already served keeps the bus. */
  function Pick(s: State, requests: set<int>): (c: int)
    ensures c >= 0 ==> c in s.Eligible(requests)
  {
    if s.off || s.Eligible(requests) == {} then -1
    else if s.Owners(requests) != {} then Lowest(s.Owners(requests))
    else if s.rotating then Rotated(s.Eligible(requests), s.last)
    else Lowest(s.Eligible(requests))
  }

  function ServiceRequests(s: State): set<int> { s.drq + s.sw + s.demand + s.block }

  predicate CanService(s: State, c: int, soft: bool)
    requires s.Valid() && 0 <= c < 4
  {
    var r := if c != 0 && !soft then ServiceRequests(s) * {c} else ServiceRequests(s);
    && !s.off && c in s.enabled && !(c in s.mask && c !in s.sw)
    && c in r && !s.ch[c].service.Cascade? && Pick(s, r) == c
  }

  function Release(s: State, c: int): State {
    s.(demand := s.demand - {c}, block := s.block - {c}, dack := s.dack - {c}, last := if s.rotating then c else s.last)
  }

  function Begin(s: State, c: int): State
    requires s.Valid() && 0 <= c < 4
  {
    var t := s.(dack := {c});
    match s.ch[c].service
    case Demand => t.(demand := t.demand + {c})
    case Block => t.(block := t.block + {c})
    case _ => t
  }

  /** The address counts within its 64 KB. */
  function Stepped(x: Chan): Chan {
    x.(ac := x.ac / 0x1_0000 * 0x1_0000 + (if x.decrement then x.ac - 1 else x.ac + 1) % 0x1_0000)
  }

  predicate Terminal(s: State, c: int)
    requires s.Valid() && 0 <= c < 4
  {
    s.ch[c].cc - 1 < 0 || c in s.eop
  }

  /** dma_xt8237_finish_transfer. */
  function Finish(s: State, c: int): (t: State)
    requires s.Valid() && 0 <= c < 4
    ensures t.Valid()
  {
    var x := s.ch[c].(cc := s.ch[c].cc - 1);
    if Terminal(s, c) then
      var t := s.(tc := s.tc + {c}, sw := s.sw - {c}, eop := s.eop - {c}, pend := s.pend - {c});
      if x.autoInit then Release(t.(ch := s.ch[c := x.(cc := x.cb, ac := x.ab)]), c)
      else Release(t.(ch := s.ch[c := x], mask := s.mask + {c}), c)
    else if x.service.Single? then
      s.(ch := s.ch[c := x], dack := s.dack - {c}, last := if s.rotating then c else s.last)
    else s.(ch := s.ch[c := x])
  }

  /** A read that left its count pending counts it before the next. */
  function Settled(s: State, c: int): (t: State)
    requires s.Valid() && 0 <= c < 4
    ensures t.Valid()
  {
    if c in s.pend then Finish(s.(pend := s.pend - {c}), c) else s
  }

  /** The transfer itself: bus owner, address, count. */
  function Moved(s: State, c: int): (t: State)
    requires s.Valid() && 0 <= c < 4
    ensures t.Valid()
  {
    var b := Begin(s, c);
    Finish(b.(ch := b.ch[c := Stepped(b.ch[c])]), c)
  }

  /** A refused access, or one transfer at an address. */
  datatype Access = NoData(s: State) | Done(s: State, addr: int)

  function ReadAccess(s: State, c: int, soft: bool): (a: Access)
    requires s.Valid() && 0 <= c < 4
    ensures a.s.Valid()
  {
    var t := Settled(s, c);
    if !CanService(t, c, soft) || !(t.ch[c].kind.Read? || t.ch[c].kind.Verify?) then NoData(t)
    else Done(Moved(t, c), t.ch[c].ac)
  }

  function WriteAccess(s: State, c: int, soft: bool): (a: Access)
    requires s.Valid() && 0 <= c < 4
    ensures a.s.Valid()
  {
    if !CanService(s, c, soft) || !(s.ch[c].kind.Write? || s.ch[c].kind.Verify?) then NoData(s)
    else Done(Moved(s.(pend := s.pend - {c}), c), s.ch[c].ac)
  }

  // ---- The service loop ----

  /** Block mode channels with a software request; channel 0 is not looked at. */
  function Startable(s: State): set<int>
    requires s.Valid()
  {
    set c | c in s.sw && (1 <= c < 4 ==> s.ch[c].service.Block?)
  }

  datatype Step = Stop(s: State) | Go(s: State, c: int, addr: int, requests: set<int>)

  function Next(s: State, requests: set<int>): (r: Step)
    requires s.Valid()
    ensures r.s.Valid()
  {
    var c := Pick(s, requests);
    if c < 0 || s.ch[c].kind.Illegal? then Stop(s)
    else
      var a := if s.ch[c].kind.Write? then WriteAccess(s, c, true) else ReadAccess(s, c, true);
      if a.NoData? then Stop(a.s) else Go(a.s, c, a.addr, requests * a.s.sw)
  }

  function Remaining(s: State, requests: set<int>, c: int): nat
    requires s.Valid() && 0 <= c < 4
  {
    if c in requests then (if s.ch[c].cc > 0 then s.ch[c].cc else 0) + 1 else 0
  }

  /** The summed remaining counts of the requested channels. */
  function Work(s: State, requests: set<int>): nat
    requires s.Valid()
  {
    Remaining(s, requests, 0) + Remaining(s, requests, 1) + Remaining(s, requests, 2) + Remaining(s, requests, 3)
  }

  /** What a transfer on c changes: its count goes down or its request goes,
      and every other channel is as it was. */
  predicate Progress(s: State, t: State, c: int)
    requires s.Valid() && t.Valid() && 0 <= c < 4
  {
    && (forall d :: 0 <= d < 4 && d != c ==> t.ch[d] == s.ch[d])
    && t.ch[c].kind == s.ch[c].kind && t.ch[c].service == s.ch[c].service && t.ch[c].autoInit == s.ch[c].autoInit
    && s.tc <= t.tc && s.mask <= t.mask && t.enabled == s.enabled && t.drq == s.drq && t.off == s.off
    && (if c in t.sw then t.sw == s.sw && 0 <= t.ch[c].cc < s.ch[c].cc
        else t.sw == s.sw - {c} && (c in s.sw ==> Finished(s, t, c)))
  }

  /** TC, request cleared, and masked unless the channel reinitialised. */
  predicate Finished(s: State, t: State, c: int)
    requires s.Valid() && t.Valid() && 0 <= c < 4
  {
    c in t.tc && c !in t.sw && (s.ch[c].autoInit || c in t.mask)
  }

  lemma FinishProgress(s: State, c: int)
    requires s.Valid() && 0 <= c < 4
    ensures Progress(s, Finish(s, c), c)
    ensures c in Finish(s, c).sw <==> c in s.sw && !Terminal(s, c)
  {
    if Terminal(s, c) {
      if s.ch[c].autoInit { } else { }
    } else if s.ch[c].service.Single? {
    } else {
    }
  }

  lemma MovedProgress(s: State, c: int)
    requires s.Valid() && 0 <= c < 4
    ensures Progress(s, Moved(s, c), c)
    ensures c in Moved(s, c).sw <==> c in s.sw && !Terminal(s, c)
  {
    hide Finish;
    var b := Begin(s, c);
    var m := b.(ch := b.ch[c := Stepped(b.ch[c])]);
    FinishProgress(m, c);
  }

  lemma ProgressTrans(s: State, q: State, t: State, c: int)
    requires s.Valid() && q.Valid() && t.Valid() && 0 <= c < 4
    requires Progress(s, q, c) && Progress(q, t, c)
    ensures Progress(s, t, c)
  {
  }

  /** Every round of the loop is progress on the channel it picked. */
  lemma NextProgress(s: State, requests: set<int>)
    requires s.Valid() && requests <= s.sw
    ensures var n := Next(s, requests);
            n.Go? ==> && 0 <= n.c < 4 && n.c in requests && Progress(s, n.s, n.c) && n.requests <= n.s.sw
                      && n.requests == if n.c in n.s.sw then requests else requests - {n.c}
    ensures var n := Next(s, requests);
            n.Stop? && n.s != s ==>
              exists c :: && 0 <= c < 4 && c in requests && !s.ch[c].kind.Write?
                          && n.s == Settled(s, c) && Progress(s, n.s, c)
  {
    hide Moved, Finish, CanService;
    var n, c := Next(s, requests), Pick(s, requests);
    if c >= 0 {
      var q := if s.ch[c].kind.Write? then s.(pend := s.pend - {c}) else Settled(s, c);
      MovedProgress(q, c);
      if !s.ch[c].kind.Write? && c in s.pend {
        FinishProgress(s.(pend := s.pend - {c}), c);
        assert Progress(s, q, c);
        ProgressTrans(s, q, Moved(q, c), c);
      }
    }
  }

  lemma WorkShrinks(s: State, requests: set<int>)
    requires s.Valid() && requests <= s.sw
    ensures var n := Next(s, requests); n.Go? ==> Work(n.s, n.requests) < Work(s, requests)
  {
    hide Next, Finish;
    NextProgress(s, requests);
  }

  /** The loop runs until nothing is left to serve, or a channel cannot be. */
  function Loop(s: State, requests: set<int>): (t: State)
    requires s.Valid() && requests <= s.sw
    ensures t.Valid()
    decreases Work(s, requests)
  {
    WorkShrinks(s, requests);
    NextProgress(s, requests);
    match Next(s, requests)
    case Stop(t) => t
    case Go(t, _, _, rest) => Loop(t, rest)
  }

  /** What the loop may do to a channel: nothing; finish it; or leave its
      request standing. */
  predicate Outcome(s: State, t: State, c: int)
    requires s.Valid() && t.Valid() && 0 <= c < 4
  {
    && t.ch[c].kind == s.ch[c].kind && t.ch[c].service == s.ch[c].service && t.ch[c].autoInit == s.ch[c].autoInit
    && s.tc <= t.tc && s.mask <= t.mask && t.sw <= s.sw
    && (c in s.sw && c !in t.sw ==> Finished(s, t, c))
  }

  lemma ProgressOutcome(s: State, t: State, c: int, d: int)
    requires s.Valid() && t.Valid() && 0 <= c < 4 && 0 <= d < 4 && Progress(s, t, c)
    ensures Outcome(s, t, d)
  {
  }

  /** From every register state: each channel whose request the loop took away
      was finished, with TC, no request, and its mask set unless it
      reinitialised; a channel nobody requested is untouched. */
  lemma {:induction false} LoopOutcome(s: State, requests: set<int>, d: int)
    requires s.Valid() && requests <= s.sw && 0 <= d < 4
    ensures Outcome(s, Loop(s, requests), d)
    ensures d !in requests ==> Loop(s, requests).ch[d] == s.ch[d]
    decreases Work(s, requests)
  {
    hide Next, Finish;
    NextProgress(s, requests);
    WorkShrinks(s, requests);
    var n := Next(s, requests);
    match n
    case Stop(t) =>
      if t != s {
        var c :| 0 <= c < 4 && c in requests && !s.ch[c].kind.Write? && t == Settled(s, c) && Progress(s, t, c);
        ProgressOutcome(s, t, c, d);
      }
    case Go(t, c, _, rest) =>
      ProgressOutcome(s, t, c, d);
      LoopOutcome(t, rest, d);
  }

  /** Why the loop stops in t, from the last round's state u: of the requests
      still standing none is eligible or the controller is off; or the channel
      picked has the illegal type; or it may not transfer, another requester or
      its own mode standing in its way. */
  predicate StopsIn(u: State, standing: set<int>, t: State)
    requires u.Valid() && t.Valid()
  {
    var c := Pick(u, standing);
    if c < 0 then t == u && (u.off || u.Eligible(standing) == {})
    else if u.ch[c].kind.Illegal? then t == u
    else t == (if u.ch[c].kind.Write? then u else Settled(u, c)) && !CanService(t, c, true)
  }

  lemma PickSome(s: State, requests: set<int>)
    requires !s.off && s.Eligible(requests) != {}
    ensures Pick(s, requests) >= 0
  {
    var c :| c in s.Eligible(requests);
    assert c == 0 || c == 1 || c == 2 || c == 3;
    RotatedFinds(s.Eligible(requests), s.last, c);
    if s.Owners(requests) != {} {
      var d :| d in s.Owners(requests);
      assert d == 0 || d == 1 || d == 2 || d == 3;
    }
  }

  lemma RotatedFinds(r: set<int>, last: int, c: int)
    requires c in r && 0 <= c < 4
    ensures Rotated(r, last) >= 0
  {
    var m := last % 4;
    assert (last + 1) % 4 == (m + 1) % 4 && (last + 2) % 4 == (m + 2) % 4 && (last + 3) % 4 == (m + 3) % 4;
    assert c == m || c == (m + 1) % 4 || c == (m + 2) % 4 || c == (m + 3) % 4;
  }

  /** The loop leaves no request it could have served: it goes on until one of
      the reasons of StopsIn holds. */
  lemma {:induction false} LoopStops(s: State, requests: set<int>) returns (u: State)
    requires s.Valid() && requests <= s.sw
    ensures u.Valid() && u.sw <= s.sw && StopsIn(u, requests * u.sw, Loop(s, requests))
    decreases Work(s, requests)
  {
    hide Finish, CanService, Settled, Moved;
    NextProgress(s, requests);
    WorkShrinks(s, requests);
    assert requests * s.sw == requests;
    match Next(s, requests)
    case Stop(t) =>
      u := s;
      if !s.off && s.Eligible(requests) != {} { PickSome(s, requests); }
    case Go(t, c, _, rest) =>
      assert rest == requests * t.sw;
      u := LoopStops(t, rest);
      assert rest * u.sw == requests * u.sw;
  }

  // ---- Addresses ----

  /** The address k transfers after ac: up, or down where the channel decrements,
      within its 64 KB. */
  function AddressAfter(down: bool, ac: int, k: int): int {
    ac - ac % 0x1_0000 + (ac % 0x1_0000 + (if down then -k else k)) % 0x1_0000
  }

  lemma AddressZero(down: bool, ac: int)
    ensures AddressAfter(down, ac, 0) == ac
  {
  }

  lemma AddressSum(down: bool, ac: int, k: int)
    ensures AddressAfter(down, AddressAfter(down, ac, 1), k) == AddressAfter(down, ac, k + 1)
  {
  }

  lemma SteppedIs(x: Chan)
    ensures Stepped(x) == x.(ac := AddressAfter(x.decrement, x.ac, 1))
  {
  }

  /** A read that left its last transfer uncounted: counting it ends the run. */
  predicate SettleEnds(s: State, c: int)
    requires s.Valid() && 0 <= c < 4
  {
    c in s.pend && !s.ch[c].kind.Write? && Terminal(s, c)
  }

  /** Counting moves no address, but the end of a run reloads it. */
  lemma FinishAddress(s: State, c: int)
    requires s.Valid() && 0 <= c < 4
    ensures var x, y := s.ch[c], Finish(s, c).ch[c];
            && y.ab == x.ab && y.cb == x.cb && y.decrement == x.decrement
            && y.ac == (if Terminal(s, c) && x.autoInit then x.ab else x.ac)
            && y.cc == (if Terminal(s, c) && x.autoInit then x.cb else x.cc - 1)
  {
    if Terminal(s, c) {
      if s.ch[c].autoInit { } else { }
    } else if s.ch[c].service.Single? {
    } else {
    }
  }

  /** A transfer moves it one on. */
  lemma MovedAddress(s: State, c: int)
    requires s.Valid() && 0 <= c < 4
    ensures var x, y := s.ch[c], Moved(s, c).ch[c];
            && y.ab == x.ab && y.cb == x.cb && y.decrement == x.decrement
            && y.ac == (if Terminal(s, c) && x.autoInit then x.ab else AddressAfter(x.decrement, x.ac, 1))
            && y.cc == (if Terminal(s, c) && x.autoInit then x.cb else x.cc - 1)
  {
    hide Finish, Stepped;
    var b := Begin(s, c);
    SteppedIs(b.ch[c]);
    FinishAddress(b.(ch := b.ch[c := Stepped(b.ch[c])]), c);
  }

  /** What an access does to the address and count: a read counts what was left
      uncounted first, which can end and reload the run. */
  predicate Accessed(s: State, t: State, c: int, addr: int, read: bool)
    requires s.Valid() && t.Valid() && 0 <= c < 4
  {
    var x, y := s.ch[c], t.ch[c];
    var settles := read && c in s.pend;
    var again := settles && Terminal(s, c) && x.autoInit;
    var start := if again then x.ab else x.ac;
    var left := if again then x.cb else if settles then x.cc - 1 else x.cc;
    var ends := left < 1 || (c in s.eop && !again);
    && addr == start
    && y.ac == (if ends && x.autoInit then x.ab else AddressAfter(x.decrement, start, 1))
    && y.cc == (if ends && x.autoInit then x.cb else left - 1)
  }

  lemma WriteAccessed(s: State, c: int, soft: bool)
    requires s.Valid() && 0 <= c < 4
    ensures var a := WriteAccess(s, c, soft); a.Done? ==> Accessed(s, a.s, c, a.addr, false)
  {
    hide Moved, CanService, AddressAfter;
    MovedAddress(s.(pend := s.pend - {c}), c);
  }

  lemma ReadAccessed(s: State, c: int, soft: bool)
    requires s.Valid() && 0 <= c < 4
    ensures var a := ReadAccess(s, c, soft); a.Done? ==> Accessed(s, a.s, c, a.addr, true)
  {
    hide Moved, Settled, Pick, AddressAfter;
    SettledAddress(s, c);
    MovedAddress(Settled(s, c), c);
  }

  /** What a round does to the address and count of the channel it serves. */
  predicate Served(s: State, t: State, c: int, addr: int)
    requires s.Valid() && t.Valid() && 0 <= c < 4
  {
    var x, y := s.ch[c], t.ch[c];
    && y.ab == x.ab && y.cb == x.cb && y.decrement == x.decrement && y.kind == x.kind && y.autoInit == x.autoInit
    && c !in t.pend
    && if SettleEnds(s, c) then
         && x.autoInit && c !in t.sw && addr == x.ab
         && y.ac == if x.cb < 1 then x.ab else AddressAfter(x.decrement, x.ab, 1)
       else
         && addr == x.ac
         && (if x.autoInit && c !in t.sw then y.ac == x.ab && y.cc == x.cb
             else y.ac == AddressAfter(x.decrement, x.ac, 1) &&
                  y.cc == x.cc - (if c in s.pend && !x.kind.Write? then 2 else 1))
  }

  /** And what it leaves alone of another. */
  predicate Passed(s: State, t: State, d: int)
    requires s.Valid() && t.Valid() && 0 <= d < 4
  {
    && t.ch[d] == s.ch[d] && (d in t.pend <==> d in s.pend) && (d in t.eop <==> d in s.eop)
    && (d in t.sw <==> d in s.sw)
  }

  lemma FinishPasses(s: State, c: int, d: int)
    requires s.Valid() && 0 <= c < 4 && 0 <= d < 4 && c != d
    ensures Passed(s, Finish(s, c), d)
  {
    if Terminal(s, c) {
      if s.ch[c].autoInit { } else { }
    } else if s.ch[c].service.Single? {
    } else {
    }
  }

  lemma FinishSets(s: State, c: int)
    requires s.Valid() && 0 <= c < 4
    ensures var t := Finish(s, c);
            && (c in t.pend ==> c in s.pend) && (c in t.eop <==> c in s.eop && !Terminal(s, c))
            && (Terminal(s, c) && !s.ch[c].autoInit ==> c in t.mask)
  {
    if Terminal(s, c) {
      if s.ch[c].autoInit { } else { }
    } else if s.ch[c].service.Single? {
    } else {
    }
  }

  lemma MovedPasses(s: State, c: int, d: int)
    requires s.Valid() && 0 <= c < 4 && 0 <= d < 4 && c != d
    ensures Passed(s, Moved(s, c), d)
  {
    hide Finish;
    var b := Begin(s, c);
    FinishPasses(b.(ch := b.ch[c := Stepped(b.ch[c])]), c, d);
  }

  lemma MovedSets(s: State, c: int)
    requires s.Valid() && 0 <= c < 4
    ensures c in Moved(s, c).pend ==> c in s.pend
  {
    hide Finish;
    var b := Begin(s, c);
    FinishSets(b.(ch := b.ch[c := Stepped(b.ch[c])]), c);
  }

  lemma NextServes(s: State, requests: set<int>)
    requires s.Valid() && requests <= s.sw && Next(s, requests).Go?
    ensures var n := Next(s, requests); 0 <= n.c < 4 && Served(s, n.s, n.c, n.addr)
    ensures var n := Next(s, requests); forall d :: 0 <= d < 4 && d != n.c ==> Passed(s, n.s, d)
  {
    hide Moved, Finish, Pick, AddressAfter;
    NextProgress(s, requests);
    var n := Next(s, requests);
    var c := n.c;
    var q := if s.ch[c].kind.Write? then s.(pend := s.pend - {c}) else Settled(s, c);
    assert n.s == Moved(q, c) && n.addr == q.ch[c].ac;
    MovedAddress(q, c);
    MovedProgress(q, c);
    MovedSets(q, c);
    SettledAddress(s, c);
    forall d | 0 <= d < 4 && d != c ensures Passed(s, n.s, d) {
      MovedPasses(q, c, d);
      if !s.ch[c].kind.Write? { SettledPasses(s, c, d); }
    }
  }

  lemma SettledAddress(s: State, c: int)
    requires s.Valid() && 0 <= c < 4
    ensures var x, t := s.ch[c], Settled(s, c);
            var y := t.ch[c];
            && c !in t.pend && y.kind == x.kind && y.autoInit == x.autoInit && y.service == x.service
            && y.ab == x.ab && y.cb == x.cb && y.decrement == x.decrement
            && (c !in s.pend ==> t == s)
            && (c in s.pend && Terminal(s, c) ==>
                  && c !in t.sw && c !in t.eop && (x.autoInit || c in t.mask)
                  && y.ac == (if x.autoInit then x.ab else x.ac) && y.cc == (if x.autoInit then x.cb else x.cc - 1))
            && (c in s.pend && !Terminal(s, c) ==>
                  && (c in t.sw <==> c in s.sw) && (c in t.eop <==> c in s.eop) && y.ac == x.ac && y.cc == x.cc - 1)
  {
    hide Finish;
    if c in s.pend {
      var p := s.(pend := s.pend - {c});
      FinishAddress(p, c);
      FinishSets(p, c);
      FinishProgress(p, c);
    }
  }

  lemma SettledPasses(s: State, c: int, d: int)
    requires s.Valid() && 0 <= c < 4 && 0 <= d < 4 && c != d
    ensures Passed(s, Settled(s, c), d)
  {
    hide Finish;
    if c in s.pend { FinishPasses(s.(pend := s.pend - {c}), c, d); }
  }

  /** The transfers of the loop, as channel and address. */
  function Trace(s: State, requests: set<int>): seq<(int, int)>
    requires s.Valid() && requests <= s.sw
    decreases Work(s, requests)
  {
    WorkShrinks(s, requests);
    NextProgress(s, requests);
    match Next(s, requests)
    case Stop(_) => []
    case Go(t, c, addr, rest) => [(c, addr)] + Trace(t, rest)
  }

  /** The addresses of one channel in it. */
  function Mine(trace: seq<(int, int)>, c: int): seq<int> {
    if trace == [] then []
    else (if trace[0].0 == c then [trace[0].1] else []) + Mine(trace[1..], c)
  }

  /** What the loop's transfers of channel d come to, from s to t: consecutive
      addresses from the channel's own on, one count for each and for one left
      uncounted, and a reload at the end with auto-initialise. */
  predicate Ran(s: State, t: State, d: int, a: seq<int>)
    requires s.Valid() && t.Valid() && 0 <= d < 4
  {
    var x, y := s.ch[d], t.ch[d];
    && y.ab == x.ab && y.cb == x.cb && y.decrement == x.decrement && y.kind == x.kind && y.autoInit == x.autoInit
    && (d in t.pend ==> d in s.pend)
    && if SettleEnds(s, d) then
         || (a == [] && y.ac == if d in t.pend || !x.autoInit then x.ac else x.ab)
         || (a == [x.ab] && x.autoInit && y.ac == if x.cb < 1 then x.ab else AddressAfter(x.decrement, x.ab, 1))
       else
         && (forall k :: 0 <= k < |a| ==> a[k] == AddressAfter(x.decrement, x.ac, k))
         && (if x.autoInit && d in s.sw && d !in t.sw then y.ac == x.ab && y.cc == x.cb
             else && y.ac == AddressAfter(x.decrement, x.ac, |a|)
                  && y.cc == x.cc - |a| - (if d in s.pend && d !in t.pend && !x.kind.Write? then 1 else 0))
  }

  lemma {:induction false} LoopAddresses(s: State, requests: set<int>, d: int)
    requires s.Valid() && requests <= s.sw && 0 <= d < 4
    ensures Ran(s, Loop(s, requests), d, Mine(Trace(s, requests), d))
    decreases Work(s, requests)
  {
    hide Finish, Moved, CanService, Settled, Pick, AddressAfter;
    NextProgress(s, requests);
    WorkShrinks(s, requests);
    AddressZero(s.ch[d].decrement, s.ch[d].ac);
    match Next(s, requests) {
      case Stop(t) =>
        if t != s {
          var c :| 0 <= c < 4 && c in requests && !s.ch[c].kind.Write? && t == Settled(s, c) && Progress(s, t, c);
          if c == d { SettledAddress(s, c); } else { SettledPasses(s, c, d); }
        }
      case Go(t, c, addr, rest) =>
        NextServes(s, requests);
        LoopAddresses(t, rest, d);
        TraceStep(s, requests, d);
        LoopOutcome(t, rest, d);
        if c == d {
          if d !in t.sw { NotMine(t, rest, d); }
          RanMore(s, t, Loop(t, rest), d, addr, Mine(Trace(t, rest), d));
        } else {
          assert [] + Mine(Trace(t, rest), d) == Mine(Trace(t, rest), d);
          RanPassed(s, t, Loop(t, rest), d, Mine(Trace(t, rest), d));
        }
    }
  }

  lemma TraceStep(s: State, requests: set<int>, d: int)
    requires s.Valid() && requests <= s.sw && Next(s, requests).Go?
    ensures var n := Next(s, requests);
            && n.requests <= n.s.sw && Loop(s, requests) == Loop(n.s, n.requests)
            && Mine(Trace(s, requests), d) ==
               (if n.c == d then [n.addr] else []) + Mine(Trace(n.s, n.requests), d)
  {
    hide Next;
    NextProgress(s, requests);
    var n := Next(s, requests);
    assert Trace(s, requests)[1..] == Trace(n.s, n.requests);
  }

  lemma RanPassed(s: State, t: State, u: State, d: int, a: seq<int>)
    requires s.Valid() && t.Valid() && u.Valid() && 0 <= d < 4 && Passed(s, t, d) && Ran(t, u, d, a)
    ensures Ran(s, u, d, a)
  {
    hide AddressAfter;
  }

  /** A channel without a request has no transfer. */
  lemma {:induction false} NotMine(s: State, requests: set<int>, d: int)
    requires s.Valid() && requests <= s.sw && d !in requests
    ensures Mine(Trace(s, requests), d) == []
    decreases Work(s, requests)
  {
    hide Next, Loop;
    NextProgress(s, requests);
    WorkShrinks(s, requests);
    var n := Next(s, requests);
    if n.Go? {
      NotMine(n.s, n.requests, d);
      TraceStep(s, requests, d);
    }
  }

  lemma RanMore(s: State, t: State, u: State, d: int, addr: int, a: seq<int>)
    requires s.Valid() && t.Valid() && u.Valid() && 0 <= d < 4 && d in s.sw
    requires Served(s, t, d, addr) && Ran(t, u, d, a) && u.sw <= t.sw
    requires d !in t.sw ==> a == [] && u.ch[d] == t.ch[d]
    ensures Ran(s, u, d, [addr] + a)
  {
    hide AddressAfter;
    var x := s.ch[d];
    var down := x.decrement;
    forall k: nat ensures AddressAfter(down, AddressAfter(down, x.ac, 1), k) == AddressAfter(down, x.ac, k + 1) {
      AddressSum(down, x.ac, k);
    }
    AddressZero(down, x.ac);
    AddressZero(down, t.ch[d].ac);
  }

  // ---- Which channel is picked ----

  /** d asks and is let in: enabled, and unmasked or asked for by software. */
  predicate Asks(s: State, r: set<int>, d: int) {
    d in r && 0 <= d < 4 && d in s.enabled && (d in s.mask ==> d in s.sw)
  }

  predicate Owns(s: State, r: set<int>, d: int) {
    Asks(s, r, d) && (d in s.demand || d in s.block)
  }

  /** How far behind `last` the turn of d comes: 0 for the channel after it. */
  function Turn(last: int, d: int): int {
    (d - last - 1) % 4
  }

  /** c comes before d: an owner before the others and by number, then in turn
      or by number. */
  predicate Before(s: State, r: set<int>, c: int, d: int) {
    if Owns(s, r, c) || Owns(s, r, d) then Owns(s, r, c) && (Owns(s, r, d) ==> c <= d)
    else if s.rotating then Turn(s.last, c) <= Turn(s.last, d)
    else c <= d
  }

  lemma LowestIs(r: set<int>, d: int)
    requires d in r && 0 <= d < 4
    ensures Lowest(r) in r && 0 <= Lowest(r) <= d
  {
  }

  lemma TurnIs(last: int, d: int)
    requires 0 <= d < 4
    ensures 0 <= Turn(last, d) < 4 && d == (last + 1 + Turn(last, d)) % 4
  {
    var q := (d - last - 1) / 4;
    assert last + 1 + Turn(last, d) == d - 4 * q;
  }

  lemma TurnOf(last: int, k: int)
    requires 0 <= k < 4
    ensures Turn(last, (last + 1 + k) % 4) == k
  {
    var q := (last + 1 + k) / 4;
    assert (last + 1 + k) % 4 - last - 1 == k - 4 * q;
  }

  lemma RotatedIs(r: set<int>, last: int, d: int)
    requires d in r && 0 <= d < 4
    ensures Rotated(r, last) in r && 0 <= Rotated(r, last) < 4
    ensures Turn(last, Rotated(r, last)) <= Turn(last, d)
  {
    hide Turn;
    TurnIs(last, d);
    var k := Turn(last, d);
    assert k == 0 || k == 1 || k == 2 || k == 3;
    TurnOf(last, 0);
    TurnOf(last, 1);
    TurnOf(last, 2);
    TurnOf(last, 3);
    assert last % 4 == (last + 1 + 3) % 4;
  }

  /** The pick is the first asker in the order above; there is none exactly
      when the controller is off or nothing asks. */
  lemma PickExactly(s: State, r: set<int>)
    ensures var c := Pick(s, r);
            && (c < 0 <==> s.off || forall d :: !Asks(s, r, d))
            && (c >= 0 ==> Asks(s, r, c) && forall d :: Asks(s, r, d) ==> Before(s, r, c, d))
  {
    var e, o := s.Eligible(r), s.Owners(r);
    hide Lowest, Rotated, Turn;
    forall d ensures (d in e <==> Asks(s, r, d)) && (d in o <==> Owns(s, r, d)) { }
    forall d | d in e ensures Lowest(e) in e && 0 <= Lowest(e) <= d { LowestIs(e, d); }
    forall d | d in o ensures Lowest(o) in o && 0 <= Lowest(o) <= d { LowestIs(o, d); }
    forall d | d in e
      ensures Rotated(e, s.last) in e && 0 <= Rotated(e, s.last) && Turn(s.last, Rotated(e, s.last)) <= Turn(s.last, d)
    {
      RotatedIs(e, s.last, d);
    }
    if e != {} { var d :| d in e; }
    if o != {} { var d :| d in o; }
  }

  // ---- What an access does to the rest ----

  /** c is let in now. A device on channels 1 to 3 that pulls its own data
      competes with no other request; channel 0 and software requests do. */
  predicate Ready(s: State, c: int, soft: bool)
    requires s.Valid() && 0 <= c < 4
  {
    var all := s.drq + s.sw + s.demand + s.block;
    && !s.off && Asks(s, all, c) && !s.ch[c].service.Cascade?
    && (c == 0 || soft ==> forall d :: 0 <= d < 4 && Asks(s, all, d) ==> Before(s, all, c, d))
  }

  lemma FirstIsOne(s: State, r: set<int>, c: int, d: int)
    requires Asks(s, r, c) && Asks(s, r, d) && Before(s, r, c, d) && Before(s, r, d, c)
    ensures c == d
  {
    if !Owns(s, r, c) && !Owns(s, r, d) && s.rotating {
      hide Turn;
      TurnIs(s.last, c);
      TurnIs(s.last, d);
    }
  }

  lemma AloneFirst(s: State, r: set<int>, c: int)
    requires r <= {c}
    ensures forall d :: Asks(s, r, d) ==> Before(s, r, c, d)
  {
  }

  lemma ReadyExactly(s: State, c: int, soft: bool)
    requires s.Valid() && 0 <= c < 4
    ensures CanService(s, c, soft) <==> Ready(s, c, soft)
  {
    var all := s.drq + s.sw + s.demand + s.block;
    var r := if c != 0 && !soft then all * {c} else all;
    PickExactly(s, r);
    if c != 0 && !soft { AloneFirst(s, r, c); }
    hide Pick, Before;
    var p := Pick(s, r);
    assert Asks(s, r, c) <==> Asks(s, all, c);
    if Ready(s, c, soft) && p >= 0 {
      FirstIsOne(s, r, c, p);
    }
  }

  /** One transfer of c counted, after it was begun and made (`begins`) or was
      left uncounted. At the end of the run it reports, gives up its request
      and the bus, and reloads or masks itself. */
  ghost predicate Counted(s: State, t: State, c: int, begins: bool)
    requires s.Valid() && t.Valid() && 0 <= c < 4
  {
    var x, y := s.ch[c], t.ch[c];
    var ends := x.cc < 1 || c in s.eop;
    && t.drq == s.drq && t.enabled == s.enabled && t.rotating == s.rotating && t.off == s.off
    && (forall d :: d in t.tc <==> d in s.tc || (d == c && ends))
    && (forall d :: d in t.mask <==> d in s.mask || (d == c && ends && !x.autoInit))
    && (forall d :: d in t.sw <==> d in s.sw && !(d == c && ends))
    && (forall d :: d in t.eop <==> d in s.eop && d != c)
    && (forall d :: d in t.pend <==> d in s.pend && !(d == c && ends))
    && (forall d :: d in t.demand <==> (d in s.demand || (begins && d == c && x.service.Demand?)) && !(d == c && ends))
    && (forall d :: d in t.block <==> (d in s.block || (begins && d == c && x.service.Block?)) && !(d == c && ends))
    && (forall d :: d in t.dack <==>
          (if begins then d == c else d in s.dack) && !(d == c && (ends || x.service.Single?)))
    && t.last == (if s.rotating && (ends || x.service.Single?) then c else s.last)
    && (forall d :: 0 <= d < 4 && d != c ==> t.ch[d] == s.ch[d])
    && y == x.(ac := if ends && x.autoInit then x.ab else if begins then AddressAfter(x.decrement, x.ac, 1) else x.ac,
               cc := if ends && x.autoInit then x.cb else x.cc - 1)
  }

  lemma FinishCounts(s: State, c: int)
    requires s.Valid() && 0 <= c < 4
    ensures Counted(s, Finish(s, c), c, false)
  {
    hide AddressAfter;
    if Terminal(s, c) {
      if s.ch[c].autoInit { } else { }
    } else if s.ch[c].service.Single? {
    } else {
    }
  }

  lemma MovedCounts(s: State, c: int)
    requires s.Valid() && 0 <= c < 4
    ensures Counted(s, Moved(s, c), c, true)
  {
    hide Finish, Stepped, AddressAfter;
    var b := Begin(s, c);
    SteppedIs(b.ch[c]);
    FinishCounts(b.(ch := b.ch[c := Stepped(b.ch[c])]), c);
  }

  /** A write: refused with nothing changed, or one transfer. */
  ghost predicate Wrote(s: State, c: int, soft: bool, a: Access)
    requires s.Valid() && a.s.Valid() && 0 <= c < 4
  {
    if Ready(s, c, soft) && (s.ch[c].kind.Write? || s.ch[c].kind.Verify?) then
      a.Done? && a.addr == s.ch[c].ac && Counted(s.(pend := s.pend - {c}), a.s, c, true)
    else a == NoData(s)
  }

  /** A read: what was left uncounted is counted first, giving q, even if the
      read is then refused. */
  ghost predicate ReadFrom(s: State, q: State, c: int, soft: bool, a: Access)
    requires s.Valid() && q.Valid() && a.s.Valid() && 0 <= c < 4
  {
    && (if c in s.pend then Counted(s.(pend := s.pend - {c}), q, c, false) else q == s)
    && if Ready(q, c, soft) && (q.ch[c].kind.Read? || q.ch[c].kind.Verify?) then
         a.Done? && a.addr == q.ch[c].ac && Counted(q, a.s, c, true)
       else a == NoData(q)
  }

  lemma WriteExactly(s: State, c: int, soft: bool)
    requires s.Valid() && 0 <= c < 4
    ensures Wrote(s, c, soft, WriteAccess(s, c, soft))
  {
    hide CanService, Ready, Moved, Counted;
    ReadyExactly(s, c, soft);
    MovedCounts(s.(pend := s.pend - {c}), c);
  }

  lemma ReadExactly(s: State, c: int, soft: bool)
    requires s.Valid() && 0 <= c < 4
    ensures exists q: State :: q.Valid() && ReadFrom(s, q, c, soft, ReadAccess(s, c, soft))
  {
    hide CanService, Ready, Moved, Counted, Finish;
    var q := Settled(s, c);
    if c in s.pend { FinishCounts(s.(pend := s.pend - {c}), c); }
    ReadyExactly(q, c, soft);
    MovedCounts(q, c);
    assert ReadFrom(s, q, c, soft, ReadAccess(s, c, soft));
  }

  // ---- Blocks are not preempted ----

  /** c holds the bus against every other requester in r. */
  predicate Holds(s: State, r: set<int>, c: int) {
    && !s.off && c in s.Owners(r)
    && (forall d :: d in s.Owners(r) ==> c <= d)
  }

  lemma HolderPicked(s: State, r: set<int>, c: int)
    requires Holds(s, r, c)
    ensures Pick(s, r) == c
  {
    assert 0 <= c < 4;
  }

  /** A channel just picked is the lowest owner, or there was none. */
  lemma PickedIsLowest(s: State, r: set<int>)
    requires Pick(s, r) >= 0
    ensures var c := Pick(s, r);
            !s.off && c in s.Eligible(r) && forall d :: d in s.Owners(r) ==> c <= d && c in s.Owners(r)
  {
    var o := s.Owners(r);
    if o != {} {
      var x :| x in o;
      assert 0 <= x < 4;
    }
  }

  /** Once the controller has begun a block and it is not over, its channel
      holds the bus, both in arbitration and among the loop's requests. */
  lemma BlockHolds(s: State, c: int, r: set<int>)
    requires s.Valid() && 0 <= c < 4 && s.ch[c].service.Block? && c in s.sw && !Terminal(s, c)
    requires Pick(s, r) == c
    ensures Holds(Moved(s, c), r, c)
  {
    hide Moved, Pick, AddressAfter;
    PickedIsLowest(s, r);
    MovedCounts(s, c);
    var t := Moved(s, c);
    assert t.Eligible(r) == s.Eligible(r);
    forall d | d in t.Owners(r) ensures c <= d {
      assert d == c || d in s.Owners(r);
    }
  }

  /** A software block in progress is served again by the very next round: no
      other software request comes between. */
  lemma NotPreempted(s: State, requests: set<int>)
    requires s.Valid() && requests <= s.sw
    requires var n := Next(s, requests); n.Go? && s.ch[n.c].service.Block? && n.c in n.requests
    ensures var n := Next(s, requests); var m := Next(n.s, n.requests); m.Go? && m.c == n.c
  {
    hide Finish, Moved;
    var n := Next(s, requests);
    var c := n.c;
    var q := if s.ch[c].kind.Write? then s.(pend := s.pend - {c}) else Settled(s, c);
    NextProgress(s, requests);
    MovedProgress(q, c);
    assert n.s == Moved(q, c);
    assert c in q.sw;
    if !s.ch[c].kind.Write? { SettledQuiet(s, c); }
    assert Pick(q, ServiceRequests(q)) == c && Pick(q, requests) == c;
    BlockHolds(q, c, requests);
    BlockHolds(q, c, ServiceRequests(q));
    MovedRequests(q, c);
    HolderPicked(n.s, n.requests, c);
    HolderPicked(n.s, ServiceRequests(n.s), c);
    assert c !in n.s.pend;
  }

  /** Counting a pending transfer that does not end the block changes nothing
      arbitration looks at. */
  lemma SettledQuiet(s: State, c: int)
    requires s.Valid() && 0 <= c < 4 && c in Settled(s, c).sw && s.ch[c].service.Block?
    ensures Settled(s, c) == s.(pend := s.pend - {c}, ch := Settled(s, c).ch)
    ensures c !in Settled(s, c).pend
  {
    if c !in s.pend { assert s.pend == s.pend - {c}; }
  }

  lemma MovedRequests(s: State, c: int)
    requires s.Valid() && 0 <= c < 4 && s.ch[c].service.Block? && c in s.sw && !Terminal(s, c) && c !in s.pend
    ensures var t := Moved(s, c);
            ServiceRequests(t) == ServiceRequests(s) && t.enabled == s.enabled && t.mask == s.mask && t.pend == s.pend
  {
  }

  /** c is served n + 1 times in a row, at consecutive addresses from ac on, the
      last time finishing it. */
  predicate Serves(s: State, requests: set<int>, c: int, n: nat, ac: int)
    requires s.Valid() && 0 <= c < 4
    decreases n
  {
    var r := Next(s, requests);
    var after := AddressAfter(s.ch[c].decrement, ac, 1);
    && r.Go? && r.c == c && r.addr == ac
    && if n == 0 then
         && c !in r.requests
         && (!SettleEnds(s, c) ==> r.s.ch[c].ac == if s.ch[c].autoInit then s.ch[c].ab else after)
       else c in r.requests && r.s.ch[c].ac == after && Serves(r.s, r.requests, c, n - 1, after)
  }

  /** The transfers of a block after the next one: its count, less one if a read
      left a transfer uncounted; none if the EOP input ends it. */
  function BlockLeft(s: State, c: int): nat
    requires s.Valid() && 0 <= c < 4
  {
    var cc := if c in s.pend && !s.ch[c].kind.Write? then s.ch[c].cc - 1 else s.ch[c].cc;
    if c in s.eop || cc < 0 then 0 else cc
  }

  /** A block once picked runs all its transfers without a break, from every
      register state. */
  lemma BlockRuns(s: State, requests: set<int>)
    requires s.Valid() && requests <= s.sw
    requires var n := Next(s, requests); n.Go? && s.ch[n.c].service.Block?
    ensures var c := Next(s, requests).c;
            && 0 <= c < 4
            && Serves(s, requests, c, BlockLeft(s, c), if SettleEnds(s, c) then s.ch[c].ab else s.ch[c].ac)
  {
    hide Finish, Moved, Pick, CanService, AddressAfter;
    NextServes(s, requests);
    var n := Next(s, requests);
    var c := n.c;
    NextProgress(s, requests);
    var q := if s.ch[c].kind.Write? then s.(pend := s.pend - {c}) else Settled(s, c);
    assert n.s == Moved(q, c);
    SettledIs(s, c);
    MovedIs(q, c);
    if c in n.requests {
      if !s.ch[c].kind.Write? { SettledQuiet(s, c); }
      NotPreempted(s, requests);
      MovedCount(q, c);
      BlockGoesOn(n.s, n.requests);
    }
  }

  lemma SettledIs(s: State, c: int)
    requires s.Valid() && 0 <= c < 4
    ensures Settled(s, c).sw <= s.sw && Settled(s, c).ch[c].service == s.ch[c].service
    ensures c in Settled(s, c).sw && c in s.pend ==>
              && Settled(s, c).ch[c].cc == s.ch[c].cc - 1 && 0 <= s.ch[c].cc - 1 && c !in s.eop
              && Settled(s, c).eop == s.eop
    ensures c in s.sw && c !in Settled(s, c).sw ==> c in s.pend && Terminal(s, c)
  {
  }

  lemma MovedIs(s: State, c: int)
    requires s.Valid() && 0 <= c < 4
    ensures c in Moved(s, c).sw <==> c in s.sw && !Terminal(s, c)
  {
  }

  lemma {:induction false} BlockGoesOn(s: State, requests: set<int>)
    requires s.Valid() && requests <= s.sw
    requires var n := Next(s, requests);
             n.Go? && s.ch[n.c].service.Block? && n.c !in s.eop && n.c !in s.pend && 0 <= s.ch[n.c].cc
    ensures var c := Next(s, requests).c; 0 <= c < 4 && Serves(s, requests, c, s.ch[c].cc, s.ch[c].ac)
    decreases s.ch[Next(s, requests).c].cc
  {
    hide Finish, Pick, CanService, AddressAfter;
    NextServes(s, requests);
    var n := Next(s, requests);
    var c := n.c;
    var q := if s.ch[c].kind.Write? then s.(pend := s.pend - {c}) else s;
    assert s.pend - {c} == s.pend;
    assert q == s && n.s == Moved(s, c);
    NextProgress(s, requests);
    MovedProgress(s, c);
    if s.ch[c].cc > 0 {
      NotPreempted(s, requests);
      MovedCount(s, c);
      BlockGoesOn(n.s, n.requests);
    }
  }

  lemma MovedCount(s: State, c: int)
    requires s.Valid() && 0 <= c < 4 && s.ch[c].service.Block? && c in s.sw && !Terminal(s, c)
    ensures var t := Moved(s, c);
            t.ch[c].cc == s.ch[c].cc - 1 && t.eop == s.eop && t.pend == s.pend && t.ch[c].service.Block?
  {
  }

  lemma StartableIs(s: State)
    requires s.Valid()
    ensures Startable(s) <= s.sw
    ensures forall d :: 0 <= d < 4 ==> (d in Startable(s) <==> d in s.sw && (d == 0 || s.ch[d].service.Block?))
  {
  }

  /** A round of the loop is the access its pick asks for. */
  lemma NextIs(s: State, requests: set<int>)
    requires s.Valid()
    ensures var c, n := Pick(s, requests), Next(s, requests);
            && c < 4
            && if c < 0 || s.ch[c].kind.Illegal? then n == Stop(s)
               else
                 var a := if s.ch[c].kind.Write? then WriteAccess(s, c, true) else ReadAccess(s, c, true);
                 n == if a.NoData? then Stop(a.s) else Go(a.s, c, a.addr, requests * a.s.sw)
  {
    hide Pick, WriteAccess, ReadAccess;
  }

  lemma LoopStep(s: State, requests: set<int>)
    requires s.Valid() && requests <= s.sw
    ensures match Next(s, requests)
            case Stop(t) => Loop(s, requests) == t && Trace(s, requests) == []
            case Go(t, c, addr, rest) =>
              && rest <= t.sw && Work(t, rest) < Work(s, requests)
              && Loop(s, requests) == Loop(t, rest) && Trace(s, requests) == [(c, addr)] + Trace(t, rest)
  {
    hide Next, Work, Progress;
    WorkShrinks(s, requests);
    NextProgress(s, requests);
  }

  /** The whole loop, for every channel. */
  lemma LoopMeans(s: State)
    requires s.Valid()
    ensures var t := Loop(s, Startable(s));
            forall d :: 0 <= d < 4 ==>
              && Outcome(s, t, d) && (d !in Startable(s) ==> t.ch[d] == s.ch[d])
              && Ran(s, t, d, Mine(Trace(s, Startable(s)), d))
  {
    hide Outcome, Ran, Loop, Trace, Mine;
    var t := Loop(s, Startable(s));
    forall d | 0 <= d < 4
      ensures Outcome(s, t, d) && (d !in Startable(s) ==> t.ch[d] == s.ch[d])
      ensures Ran(s, t, d, Mine(Trace(s, Startable(s)), d))
    {
      LoopOutcome(s, Startable(s), d);
      LoopAddresses(s, Startable(s), d);
    }
  }

  // ---- In place ----

  /** The controller as it runs: one register file, updated by every access. */
  class Xt8237 {
    var st: State
    /** Set while the service loop makes the accesses. */
    var soft: bool

    constructor (s: State)
      requires s.Valid()
      ensures st == s && !soft
    {
      st, soft := s, false;
    }

    method ReleaseOwner(c: int)
      modifies this`st
      ensures st == Release(old(st), c)
    {
      st := st.(demand := st.demand - {c});
      st := st.(block := st.block - {c});
      st := st.(dack := st.dack - {c});
      if st.rotating {
        st := st.(last := c);
      }
    }

    method FinishTransfer(c: int) returns (terminal: bool)
      requires st.Valid() && 0 <= c < 4
      modifies this`st
      ensures st == Finish(old(st), c) && terminal == Terminal(old(st), c) && Progress(old(st), st, c)
    {
      FinishProgress(st, c);
      terminal := false;
      st := st.(ch := st.ch[c := st.ch[c].(cc := st.ch[c].cc - 1)]);
      if st.ch[c].cc < 0 {
        terminal := true;
      }
      if c in st.eop {
        terminal := true;
      }
      if terminal {
        st := st.(tc := st.tc + {c}, sw := st.sw - {c}, eop := st.eop - {c}, pend := st.pend - {c});
        if st.ch[c].autoInit {
          st := st.(ch := st.ch[c := st.ch[c].(cc := st.ch[c].cb, ac := st.ch[c].ab)]);
        } else {
          st := st.(mask := st.mask + {c});
        }
        ReleaseOwner(c);
        return;
      }
      if st.ch[c].service.Single? {
        st := st.(dack := st.dack - {c});
        if st.rotating {
          st := st.(last := c);
        }
      }
    }

    method Transfer(c: int)
      requires st.Valid() && 0 <= c < 4
      modifies this`st
      ensures st == Moved(old(st), c) && Progress(old(st), st, c)
    {
      hide Finish;
      MovedProgress(st, c);
      st := Begin(st, c);
      st := st.(ch := st.ch[c := Stepped(st.ch[c])]);
      var _ := FinishTransfer(c);
    }

    method ReadChannel(c: int) returns (ok: bool, addr: int)
      requires st.Valid() && 0 <= c < 4
      modifies this`st
      ensures var a := ReadAccess(old(st), c, soft); st == a.s && ok == a.Done? && (ok ==> addr == a.addr)
      ensures ok ==> Accessed(old(st), st, c, addr, true)
      ensures exists q: State ::
                q.Valid() && ReadFrom(old(st), q, c, soft, if ok then Done(st, addr) else NoData(st))
      ensures if ok || c in old(st).pend then Progress(old(st), st, c) else st == old(st)
    {
      hide Finish, Moved, CanService, Accessed, ReadFrom;
      ReadAccessed(st, c, soft);
      ReadExactly(st, c, soft);
      if c in st.pend {
        st := st.(pend := st.pend - {c});
        var _ := FinishTransfer(c);
      }
      addr := st.ch[c].ac;
      if !CanService(st, c, soft) || !(st.ch[c].kind.Read? || st.ch[c].kind.Verify?) {
        return false, addr;
      }
      label settled:
      Transfer(c);
      if c in old(st).pend { ProgressTrans(old(st), old@settled(st), st, c); }
      return true, addr;
    }

    method WriteChannel(c: int) returns (ok: bool, addr: int)
      requires st.Valid() && 0 <= c < 4
      modifies this`st
      ensures var a := WriteAccess(old(st), c, soft); st == a.s && ok == a.Done? && (ok ==> addr == a.addr)
      ensures ok ==> Accessed(old(st), st, c, addr, false)
      ensures Wrote(old(st), c, soft, if ok then Done(st, addr) else NoData(st))
      ensures if ok then Progress(old(st), st, c) else st == old(st)
    {
      hide Moved, CanService, Accessed, Wrote;
      WriteAccessed(st, c, soft);
      WriteExactly(st, c, soft);
      addr := st.ch[c].ac;
      if !CanService(st, c, soft) || !(st.ch[c].kind.Write? || st.ch[c].kind.Verify?) {
        return false, addr;
      }
      st := st.(pend := st.pend - {c});
      Transfer(c);
      return true, addr;
    }

    /** Software starts block mode channels only. */
    method Requests() returns (requests: set<int>)
      requires st.Valid()
      ensures requests == Startable(st)
    {
      requests := st.sw;
      var c := 1;
      while c < 4
        invariant 1 <= c <= 4
        invariant requests == set d | d in st.sw && (1 <= d < c ==> st.ch[d].service.Block?)
      {
        if !st.ch[c].service.Block? {
          requests := requests - {c};
        }
        c := c + 1;
      }
    }

    /** dma_ibm5140_service: terminates from every register state, every request
        it took away finished and no channel without one touched; `last` is the
        state in which it had to stop. */
    method Serve() returns (trace: seq<(int, int)>, ghost last: State)
      requires st.Valid()
      modifies this
      ensures st == Loop(old(st), Startable(old(st))) && !soft
      // software starts a block; channel 0 in any mode
      ensures forall d :: 0 <= d < 4 ==>
                (d in Startable(old(st)) <==> d in old(st).sw && (d == 0 || old(st).ch[d].service.Block?))
      ensures forall d :: 0 <= d < 4 ==>
                Outcome(old(st), st, d) && (d !in Startable(old(st)) ==> st.ch[d] == old(st).ch[d])
      // the transfers made, at consecutive addresses for each channel
      ensures forall d :: 0 <= d < 4 ==> Ran(old(st), st, d, Mine(trace, d))
      ensures last.Valid() && last.sw <= old(st).sw && StopsIn(last, Startable(old(st)) * last.sw, st)
    {
      hide Outcome, StopsIn, Ran, Loop, Trace, Mine, Next, Pick, Work, ReadAccess, WriteAccess;
      hide Accessed, ReadFrom, Wrote, Progress, Startable;
      LoopMeans(st);
      StartableIs(st);
      last := LoopStops(st, Startable(st));
      trace := [];
      var requests := Requests();
      soft := true;
      var c := Pick(st, requests);
      while c >= 0
        invariant soft && st.Valid() && requests <= st.sw && c == Pick(st, requests)
        invariant Loop(st, requests) == Loop(old(st), Startable(old(st)))
        invariant trace + Trace(st, requests) == Trace(old(st), Startable(old(st)))
        decreases Work(st, requests)
      {
        NextIs(st, requests);
        LoopStep(st, requests);
        if st.ch[c].kind.Illegal? {
          break;
        }
        var ok, addr;
        if st.ch[c].kind.Write? {
          ok, addr := WriteChannel(c);
        } else {
          ok, addr := ReadChannel(c);
        }
        if !ok {
          assert trace + [] == trace;
          soft := false;
          return;
        }
        trace := trace + [(c, addr)];
        requests := requests * st.sw;
        c := Pick(st, requests);
      }
      NextIs(st, requests);
      LoopStep(st, requests);
      assert trace + [] == trace;
      soft := false;
    }
  }
}
