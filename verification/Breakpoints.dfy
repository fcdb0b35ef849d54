/**
 The debugger's breakpoint list (src/debugger.c): edited by one thread while
 the processor's thread scans it, each atomic load and store a step of its own.
 */
module Breakpoints {

  const MAX: int := 32

  ghost predicate Distinct(list: seq<int>) {
    forall i, j :: 0 <= i < j < |list| ==> list[i] != list[j]
  }

  function Elements(list: seq<int>): set<int> {
    set x | x in list
  }

  /** The list after a toggle of x: removed by moving the last entry into its
      place, appended, or (full) as it was. */
  function ToggleList(list: seq<int>, x: int): seq<int> {
    if x in list then RemoveAt(list, Find(list, x))
    else if |list| >= MAX then list
    else list + [x]
  }

  function Find(list: seq<int>, x: int): (i: int)
    requires x in list
    ensures 0 <= i < |list| && list[i] == x && x !in list[..i]
  {
    if list[0] == x then 0 else 1 + Find(list[1..], x)
  }

  function RemoveAt(list: seq<int>, i: int): seq<int>
    requires 0 <= i < |list|
  {
    list[i := list[|list| - 1]][..|list| - 1]
  }

  /** The set changes by exactly x, or not at all when full; the list stays
      free of duplicates. */
  function ToggleSet(s: set<int>, full: bool, x: int): set<int> {
    if x in s then s - {x} else if full then s else s + {x}
  }

  lemma ToggleChangesOne(list: seq<int>, x: int)
    requires Distinct(list) && |list| <= MAX
    ensures var t := ToggleList(list, x);
            Distinct(t) && |t| <= MAX && Elements(t) == ToggleSet(Elements(list), |list| >= MAX, x)
  {
    var t := ToggleList(list, x);
    if x in list {
      var k, n := Find(list, x), |list| - 1;
      forall y | y in list && y != x ensures y in t {
        var p :| 0 <= p < |list| && list[p] == y;
        if p == n { assert t[k] == y; } else { assert t[p] == y; }
      }
    } else if |list| < MAX {
      assert t[|list|] == x;
      forall y | y in list ensures y in t {
        var p :| 0 <= p < |list| && list[p] == y;
        assert t[p] == y;
      }
    }
  }

  // ---- The two threads ----

  /** The editing thread: where debugger_breakpoint_toggle(x) has got to, with
      the count n it loaded. */
  datatype Writer =
    | Idle
    | Searching(x: int, n: int, i: int)
    | LoadLast(x: int, n: int, i: int)
    | StoreEntry(x: int, n: int, i: int, v: int)
    | StoreLess(x: int, n: int, i: int)
    | StoreNew(x: int, n: int)
    | StoreMore(x: int, n: int)

  /** The scanning thread, looking for pc among the n entries there were. */
  datatype Reader = Resting | Scanning(pc: int, n: int, i: int)

  datatype Edit = NoEdit | Toggling(x: int) | Clearing

  /** What a finished scan said, the list when it started, the first edit that
      overlapped it and how many did. */
  datatype Report = Report(pc: int, hit: bool, list: seq<int>, edit: Edit, overlaps: nat)

  /** `list` is the list as of the last finished edit; `scan` the report of the
      scan under way. */
  datatype State = State(bp: seq<int>, num: int, w: Writer, r: Reader, list: seq<int>, scan: Report,
      reports: seq<Report>)

  datatype Step = StartToggle(x: int) | Clear | WriterStep | StartScan(pc: int) | ReaderStep

  /** An edit starts: a scan under way now overlaps it. */
  function Overlapped(s: State, e: Edit): State {
    if s.r.Resting? then s
    else s.(scan := s.scan.(overlaps := s.scan.overlaps + 1, edit := if s.scan.overlaps == 0 then e else s.scan.edit))
  }

  predicate Fits(s: State) {
    |s.bp| == MAX && 0 <= s.num <= MAX
  }

  function WriterNext(s: State): State
    requires Fits(s)
  {
    match s.w
    case Idle => s
    case Searching(x, n, i) =>
      if i >= n || i < 0 || i >= MAX then (if n >= MAX then s.(w := Idle) else s.(w := StoreNew(x, n)))
      else if s.bp[i] == x then s.(w := LoadLast(x, n, i))
      else s.(w := Searching(x, n, i + 1))
    case LoadLast(x, n, i) => if 0 < n <= MAX then s.(w := StoreEntry(x, n, i, s.bp[n - 1])) else s
    case StoreEntry(x, n, i, v) => if 0 <= i < MAX then s.(w := StoreLess(x, n, i), bp := s.bp[i := v]) else s
    case StoreLess(x, n, i) =>
      if 0 < n <= MAX then s.(w := Idle, num := n - 1, list := ToggleList(s.list, x)) else s
    case StoreNew(x, n) => if 0 <= n < MAX then s.(w := StoreMore(x, n), bp := s.bp[n := x]) else s
    case StoreMore(x, n) =>
      if 0 <= n < MAX then s.(w := Idle, num := n + 1, list := ToggleList(s.list, x)) else s
  }

  function ReaderNext(s: State): State
    requires Fits(s)
  {
    match s.r
    case Resting => s
    case Scanning(pc, n, i) =>
      if i >= n || i < 0 || i >= MAX then s.(r := Resting, reports := s.reports + [s.scan.(hit := false)])
      else if s.bp[i] == pc then s.(r := Resting, reports := s.reports + [s.scan.(hit := true)])
      else s.(r := Scanning(pc, n, i + 1))
  }

  function Next(s: State, step: Step): (t: State)
    requires Fits(s)
    ensures Fits(t)
  {
    match step
    case StartToggle(x) => if s.w.Idle? then Overlapped(s, Toggling(x)).(w := Searching(x, s.num, 0)) else s
    case Clear => if s.w.Idle? then Overlapped(s, Clearing).(num := 0, list := []) else s
    case WriterStep => WriterNext(s)
    case StartScan(pc) =>
      if !s.r.Resting? then s
      else
        var report := match s.w
                      case Idle => Report(pc, false, s.list, NoEdit, 0)
                      case _ => Report(pc, false, s.list, Toggling(s.w.x), 1);
        s.(r := Scanning(pc, s.num, 0), scan := report)
    case ReaderStep => ReaderNext(s)
  }

  function Run(s: State, steps: seq<Step>): (t: State)
    requires Fits(s)
    ensures Fits(t)
  {
    if steps == [] then s else Next(Run(s, steps[..|steps| - 1]), steps[|steps| - 1])
  }

  // ---- What every run keeps ----

  /** Memory against the list, by how far the edit is. */
  ghost predicate WriterOk(s: State) {
    && Fits(s) && Distinct(s.list) && |s.list| == s.num
    && match s.w
       case Idle => s.bp[..s.num] == s.list
       case Searching(x, n, i) => s.bp[..s.num] == s.list && n == s.num && 0 <= i <= n && x !in s.list[..i]
       case LoadLast(x, n, i) => s.bp[..s.num] == s.list && n == s.num && 0 <= i < n && s.list[i] == x
       case StoreEntry(x, n, i, v) =>
         s.bp[..s.num] == s.list && n == s.num && 0 <= i < n && s.list[i] == x && v == s.list[n - 1]
       case StoreLess(x, n, i) =>
         n == s.num && 0 <= i < n && s.list[i] == x && s.bp[..n] == s.list[i := s.list[n - 1]]
       case StoreNew(x, n) => s.bp[..s.num] == s.list && n == s.num && n < MAX && x !in s.list
       case StoreMore(x, n) => s.bp[..s.num] == s.list && n == s.num && n < MAX && x !in s.list && s.bp[n] == x
  }

  /** What one edit can have done to the entries of the list a scan looks at:
      nothing, or the removed entry overwritten by the last. */
  ghost predicate Entries(bp: seq<int>, list: seq<int>, edit: Edit)
    requires |list| <= |bp|
  {
    forall p :: 0 <= p < |list| ==>
      bp[p] == list[p] || (edit == Toggling(list[p]) && bp[p] == list[|list| - 1])
  }

  ghost predicate ReaderOk(s: State)
    requires Fits(s)
  {
    s.r.Scanning? ==>
      && s.r.pc == s.scan.pc && s.r.n == |s.scan.list| <= MAX && 0 <= s.r.i <= s.r.n
      && (s.scan.overlaps <= 1 ==>
            && Entries(s.bp, s.scan.list, s.scan.edit)
            // entries looked at and not being removed were not pc
            && (forall p :: 0 <= p < s.r.i && s.scan.edit != Toggling(s.scan.list[p]) ==> s.scan.list[p] != s.r.pc)
            // until the edit is done, the list is as the scan found it
            && (s.scan.overlaps == 0 ==> s.w.Idle? && s.scan.edit.NoEdit?)
            && (s.scan.overlaps == 0 || !s.w.Idle? ==> s.list == s.scan.list)
            && (!s.w.Idle? ==> s.scan.edit == Toggling(s.w.x)))
  }

  /** The promise: with at most one edit during the scan, an address set before
      and after it is reported, and one set in neither is not. */
  ghost predicate Honest(r: Report) {
    r.overlaps <= 1 ==>
      var before := Elements(r.list);
      var after := match r.edit
                   case NoEdit => before
                   case Toggling(x) => ToggleSet(before, |r.list| >= MAX, x)
                   case Clearing => {};
      && (r.pc in before && r.pc in after ==> r.hit)
      && (r.hit ==> r.pc in before || r.pc in after)
  }

  ghost predicate Invariant(s: State) {
    WriterOk(s) && ReaderOk(s) && forall k :: 0 <= k < |s.reports| ==> Honest(s.reports[k])
  }

  lemma FindIs(list: seq<int>, x: int, i: int)
    requires Distinct(list) && 0 <= i < |list| && list[i] == x
    ensures Find(list, x) == i
  {
    var k := Find(list, x);
    assert list[k] == list[i];
  }

  lemma WriterStepKeeps(s: State)
    requires WriterOk(s)
    ensures WriterOk(WriterNext(s))
  {
    var t := WriterNext(s);
    match s.w
    case Idle =>
    case Searching(x, n, i) =>
      if i < n {
        assert s.list[..i + 1] == s.list[..i] + [s.list[i]];
        assert s.bp[i] == s.bp[..s.num][i];
      } else {
        assert s.list[..i] == s.list;
      }
    case LoadLast(x, n, i) => assert s.bp[n - 1] == s.bp[..s.num][n - 1];
    case StoreEntry(x, n, i, v) => assert t.bp[..n] == s.bp[..n][i := v];
    case StoreLess(x, n, i) => RemovalKeeps(s);
    case StoreNew(x, n) => assert t.bp[..n] == s.bp[..n];
    case StoreMore(x, n) => AdditionKeeps(s);
  }

  lemma RemovalKeeps(s: State)
    requires WriterOk(s) && s.w.StoreLess?
    ensures WriterOk(WriterNext(s))
  {
    var n := s.w.n;
    ToggleChangesOne(s.list, s.w.x);
    FindIs(s.list, s.w.x, s.w.i);
    assert s.bp[..n - 1] == s.bp[..n][..n - 1];
  }

  lemma AdditionKeeps(s: State)
    requires WriterOk(s) && s.w.StoreMore?
    ensures WriterOk(WriterNext(s))
  {
    var n := s.w.n;
    ToggleChangesOne(s.list, s.w.x);
    assert s.bp[..n + 1] == s.bp[..n] + [s.w.x];
  }

  lemma WriterKeepsScan(s: State)
    requires Invariant(s)
    ensures ReaderOk(WriterNext(s))
  {
    var t := WriterNext(s);
    if s.r.Scanning? && s.scan.overlaps <= 1 && !s.w.Idle? {
      var l := s.scan.list;
      assert s.list == l && |l| == s.num;
      match s.w
      case StoreEntry(x, n, i, v) =>
        forall p | 0 <= p < |l| ensures t.bp[p] == l[p] || (s.scan.edit == Toggling(l[p]) && t.bp[p] == l[|l| - 1]) { }
      case _ =>
    }
  }

  /** A scan that ends says the truth. */
  lemma ScanHonest(s: State, hit: bool)
    requires Invariant(s) && s.r.Scanning?
    requires hit ==> s.r.i < s.r.n && s.bp[s.r.i] == s.r.pc
    requires !hit ==> s.r.i == s.r.n
    ensures Honest(s.scan.(hit := hit))
  {
    if s.scan.overlaps <= 1 {
      var l, pc := s.scan.list, s.r.pc;
      if hit {
        assert s.bp[s.r.i] == l[s.r.i] || s.bp[s.r.i] == l[|l| - 1];
        assert pc in l;
      } else if pc in l {
        var p :| 0 <= p < |l| && l[p] == pc;
        assert s.scan.edit == Toggling(pc);
      }
    }
  }

  lemma ToggleStarts(s: State, x: int)
    requires Invariant(s)
    ensures Invariant(Next(s, StartToggle(x)))
  {
    hide Honest;
  }

  lemma ClearKeeps(s: State)
    requires Invariant(s)
    ensures Invariant(Next(s, Clear))
  {
    hide Honest;
    assert s.bp[..0] == [];
  }

  lemma StepKeeps(s: State, step: Step)
    requires Invariant(s)
    ensures Invariant(Next(s, step))
  {
    match step
    case StartToggle(x) => ToggleStarts(s, x);
    case Clear => ClearKeeps(s);
    case WriterStep => WriterKeeps(s);
    case StartScan(pc) => if s.r.Resting? { ScanStarts(s, pc); }
    case ReaderStep => ReaderKeeps(s);
  }

  lemma WriterKeeps(s: State)
    requires Invariant(s)
    ensures Invariant(WriterNext(s))
  {
    hide Honest, WriterOk, ReaderOk;
    WriterStepKeeps(s);
    WriterKeepsScan(s);
  }

  lemma ReaderKeeps(s: State)
    requires Invariant(s)
    ensures Invariant(ReaderNext(s))
  {
    if s.r.Scanning? {
      if s.r.i == s.r.n { ScanEnds(s, false); }
      else if s.bp[s.r.i] == s.r.pc { ScanEnds(s, true); }
      else { ScanGoesOn(s); }
    }
  }

  lemma ScanEnds(s: State, hit: bool)
    requires Invariant(s) && s.r.Scanning?
    requires hit ==> s.r.i < s.r.n && s.bp[s.r.i] == s.r.pc
    requires !hit ==> s.r.i == s.r.n
    ensures Invariant(s.(r := Resting, reports := s.reports + [s.scan.(hit := hit)]))
  {
    ScanHonest(s, hit);
    hide Honest;
  }

  lemma ScanStarts(s: State, pc: int)
    requires Invariant(s) && s.r.Resting?
    ensures Invariant(Next(s, StartScan(pc)))
  {
    var t := Next(s, StartScan(pc));
    match s.w
    case StoreLess(x, n, i) =>
      forall p | 0 <= p < n
        ensures t.bp[p] == s.list[p] || (t.scan.edit == Toggling(s.list[p]) && t.bp[p] == s.list[n - 1])
      {
        assert s.bp[p] == s.bp[..n][p];
      }
    case _ =>
      forall p | 0 <= p < s.num ensures t.bp[p] == s.list[p] { assert s.bp[p] == s.bp[..s.num][p]; }
  }

  lemma ScanGoesOn(s: State)
    requires Invariant(s) && s.r.Scanning? && s.r.i < s.r.n && s.bp[s.r.i] != s.r.pc
    ensures ReaderOk(ReaderNext(s))
  {
  }

  lemma {:induction false} RunKeeps(s: State, steps: seq<Step>)
    requires Invariant(s)
    ensures Invariant(Run(s, steps))
  {
    if steps != [] {
      RunKeeps(s, steps[..|steps| - 1]);
      StepKeeps(Run(s, steps[..|steps| - 1]), steps[|steps| - 1]);
    }
  }

  /** Nothing under way; entries past the count are whatever they were. */
  function Initial(bp: seq<int>, n: int): State
    requires 0 <= n <= |bp|
  {
    State(bp, n, Idle, Resting, bp[..n], Report(0, false, [], NoEdit, 0), [])
  }

  /** For every interleaving of any number of edits and scans: every report is
      honest, and whenever no edit is under way memory holds the list, without
      duplicates. */
  lemma EveryScanHonest(bp: seq<int>, n: int, steps: seq<Step>)
    requires |bp| == MAX && 0 <= n <= MAX && Distinct(bp[..n])
    ensures var t := Run(Initial(bp, n), steps);
            && (forall k :: 0 <= k < |t.reports| ==> Honest(t.reports[k]))
            && (t.w.Idle? ==> t.bp[..t.num] == t.list && Distinct(t.list))
  {
    RunKeeps(Initial(bp, n), steps);
  }

  // ---- Edits and scans end ----

  /** The steps of its own an edit has still to take, at most. */
  function EditLeft(w: Writer): int {
    match w
    case Idle => 0
    case Searching(_, n, i) => n - i + 4
    case LoadLast(_, _, _) => 3
    case StoreEntry(_, _, _, _) => 2
    case StoreLess(_, _, _) => 1
    case StoreNew(_, _) => 2
    case StoreMore(_, _) => 1
  }

  function ScanLeft(r: Reader): int {
    match r
    case Resting => 0
    case Scanning(_, n, i) => n - i + 1
  }

  function Times(steps: seq<Step>, step: Step): int {
    if steps == [] then 0
    else Times(steps[..|steps| - 1], step) + if steps[|steps| - 1] == step then 1 else 0
  }

  /** An edit under way in s: still at it, or done with the list toggled. */
  ghost predicate EditAt(s: State, t: State, taken: int)
    requires !s.w.Idle?
  {
    if t.w.Idle? then t.list == ToggleList(s.list, s.w.x)
    else t.w.x == s.w.x && t.list == s.list && EditLeft(t.w) + taken <= EditLeft(s.w)
  }

  /** A scan under way in s: still at it, or its report the last one made. */
  ghost predicate ScanAt(s: State, t: State, taken: int)
    requires s.r.Scanning?
  {
    if t.r.Resting? then |t.reports| == |s.reports| + 1 && t.reports[|s.reports|].pc == s.scan.pc &&
                         t.reports[|s.reports|].list == s.scan.list
    else && t.reports == s.reports && t.scan.pc == s.scan.pc && t.scan.list == s.scan.list
         && ScanLeft(t.r) + taken <= ScanLeft(s.r)
  }

  lemma EditGoesOn(s: State, t: State, taken: int, step: Step)
    requires Invariant(t) && !s.w.Idle? && !t.w.Idle? && EditAt(s, t, taken)
    ensures EditAt(s, Next(t, step), taken + if step == WriterStep then 1 else 0)
  {
    hide Honest, ReaderOk, ToggleList;
    match step
    case WriterStep =>
      if t.w.Searching? && t.w.i >= t.w.n && t.w.n >= MAX { NoRoom(t.list, t.w.x); }
    case _ =>
  }

  lemma NoRoom(list: seq<int>, x: int)
    requires |list| >= MAX && x !in list[..|list|]
    ensures ToggleList(list, x) == list
  {
    assert list[..|list|] == list;
  }

  lemma ScanMoves(s: State, t: State, taken: int, step: Step)
    requires Invariant(t) && s.r.Scanning? && t.r.Scanning? && ScanAt(s, t, taken)
    ensures ScanAt(s, Next(t, step), taken + if step == ReaderStep then 1 else 0)
  {
    hide Honest, WriterOk, ToggleList;
  }

  /** After j of the steps the edit is done. */
  ghost predicate EditDone(s: State, steps: seq<Step>, j: int)
    requires Fits(s) && !s.w.Idle?
  {
    0 <= j <= |steps| && var t := Run(s, steps[..j]); t.w.Idle? && t.list == ToggleList(s.list, s.w.x)
  }

  ghost predicate ScanDone(s: State, steps: seq<Step>, j: int)
    requires Fits(s) && s.r.Scanning?
  {
    0 <= j <= |steps| && var t := Run(s, steps[..j]); t.r.Resting? && ScanAt(s, t, 0)
  }

  lemma {:induction false} EditRuns(s: State, steps: seq<Step>)
    requires Invariant(s) && !s.w.Idle?
    ensures || (!Run(s, steps).w.Idle? && EditAt(s, Run(s, steps), Times(steps, WriterStep)))
            || exists j :: EditDone(s, steps, j)
  {
    hide Honest, ReaderOk;
    if steps != [] {
      var n := |steps| - 1;
      EditRuns(s, steps[..n]);
      RunKeeps(s, steps[..n]);
      if j :| EditDone(s, steps[..n], j) {
        assert steps[..n][..j] == steps[..j];
        assert EditDone(s, steps, j);
      } else {
        EditGoesOn(s, Run(s, steps[..n]), Times(steps[..n], WriterStep), steps[n]);
      }
    }
    assert steps[..|steps|] == steps;
    if Run(s, steps).w.Idle? && !exists j :: EditDone(s, steps, j) { assert EditDone(s, steps, |steps|); }
  }

  /** However the threads interleave, an edit has taken effect once its own thread
      has taken its steps, n + 4 at most for a list of n. */
  lemma EveryEditEnds(s: State, steps: seq<Step>)
    requires Invariant(s) && !s.w.Idle? && Times(steps, WriterStep) >= s.num + 4
    ensures exists j :: EditDone(s, steps, j)
  {
    EditRuns(s, steps);
    RunKeeps(s, steps);
  }

  lemma {:induction false} ScanRuns(s: State, steps: seq<Step>)
    requires Invariant(s) && s.r.Scanning?
    ensures || (Run(s, steps).r.Scanning? && ScanAt(s, Run(s, steps), Times(steps, ReaderStep)))
            || exists j :: ScanDone(s, steps, j)
  {
    hide Honest;
    if steps != [] {
      var n := |steps| - 1;
      ScanRuns(s, steps[..n]);
      RunKeeps(s, steps[..n]);
      if j :| ScanDone(s, steps[..n], j) {
        assert steps[..n][..j] == steps[..j];
        assert ScanDone(s, steps, j);
      } else {
        ScanMoves(s, Run(s, steps[..n]), Times(steps[..n], ReaderStep), steps[n]);
      }
    }
    assert steps[..|steps|] == steps;
    if Run(s, steps).r.Resting? && !exists j :: ScanDone(s, steps, j) { assert ScanDone(s, steps, |steps|); }
  }

  /** And a scan has reported, on its own address and the list it found, once its
      thread has taken n + 1 steps. */
  lemma EveryScanEnds(s: State, steps: seq<Step>)
    requires Invariant(s) && s.r.Scanning? && Times(steps, ReaderStep) > |s.scan.list|
    ensures exists j :: ScanDone(s, steps, j)
  {
    ScanRuns(s, steps);
    RunKeeps(s, steps);
  }

  lemma {:induction false} RunAppend(s: State, a: seq<Step>, b: seq<Step>)
    requires Fits(s)
    ensures Run(s, a + b) == Run(Run(s, a), b)
  {
    if b == [] {
      assert a + b == a;
    } else {
      RunAppend(s, a, b[..|b| - 1]);
      assert (a + b)[..|a + b| - 1] == a + b[..|b| - 1];
    }
  }

  lemma RunTwo(s: State, a: Step, b: Step)
    requires Fits(s)
    ensures Run(s, [a, b]) == Next(Next(s, a), b)
  {
    assert [a, b][..1] == [a] && [a][..0] == [];
    assert Run(s, [a]) == Next(Run(s, []), a);
  }

  /** Toggling 1 out of [1, 2, 3], once a scan for 3 has passed entry 0. */
  lemma FirstToggle(s: State) returns (steps: seq<Step>, t: State)
    requires Fits(s) && s.bp[0] == 1 && s.bp[1] == 2 && s.bp[2] == 3 && s.num == 3 && s.list == [1, 2, 3]
    requires s.w.Idle? && s.r == Scanning(3, 3, 1)
    ensures Fits(t) && Run(s, steps) == t
    ensures t == Overlapped(s, Toggling(1)).(bp := s.bp[0 := 3], num := 2, list := [3, 2])
  {
    hide Run;
    var s1 := Overlapped(s, Toggling(1)).(w := LoadLast(1, 3, 0));
    RunTwo(s, StartToggle(1), WriterStep);
    var s2 := s1.(w := StoreLess(1, 3, 0), bp := s.bp[0 := 3]);
    RunTwo(s1, WriterStep, WriterStep);
    t := s2.(w := Idle, num := 2, list := [3, 2]);
    FindIs([1, 2, 3], 1, 0);
    RunTwo(s2, WriterStep, WriterStep);
    steps := [StartToggle(1), WriterStep] + [WriterStep, WriterStep] + [WriterStep, WriterStep];
    RunAppend(s, [StartToggle(1), WriterStep], [WriterStep, WriterStep]);
    RunAppend(s, [StartToggle(1), WriterStep] + [WriterStep, WriterStep], [WriterStep, WriterStep]);
  }

  /** Toggling 4 into [3, 2]: entry 2 is reused. */
  lemma SecondToggle(s: State) returns (steps: seq<Step>, t: State)
    requires Fits(s) && s.bp[0] == 3 && s.bp[1] == 2 && s.num == 2 && s.list == [3, 2]
    requires s.w.Idle? && s.r == Scanning(3, 3, 1)
    ensures Fits(t) && Run(s, steps) == t
    ensures t == Overlapped(s, Toggling(4)).(bp := s.bp[2 := 4], num := 3, list := [3, 2, 4])
  {
    hide Run;
    var s1 := Overlapped(s, Toggling(4)).(w := Searching(4, 2, 1));
    RunTwo(s, StartToggle(4), WriterStep);
    var s2 := s1.(w := StoreNew(4, 2));
    RunTwo(s1, WriterStep, WriterStep);
    t := s2.(w := Idle, bp := s.bp[2 := 4], num := 3, list := [3, 2, 4]);
    RunTwo(s2, WriterStep, WriterStep);
    steps := [StartToggle(4), WriterStep] + [WriterStep, WriterStep] + [WriterStep, WriterStep];
    RunAppend(s, [StartToggle(4), WriterStep], [WriterStep, WriterStep]);
    RunAppend(s, [StartToggle(4), WriterStep] + [WriterStep, WriterStep], [WriterStep, WriterStep]);
  }

  /** With two toggles during one scan, an address set throughout can be missed:
      the last entry moves behind the scan, and its old place is reused. */
  lemma TwoTogglesCanHide(bp: seq<int>) returns (steps: seq<Step>)
    requires |bp| == MAX && bp[..3] == [1, 2, 3]
    ensures var t := Run(Initial(bp, 3), steps);
            && t.reports == [Report(3, false, [1, 2, 3], Toggling(1), 2)]
            && t.list == [3, 2, 4]
  {
    hide Run;
    assert bp[0] == bp[..3][0] && bp[1] == bp[..3][1] && bp[2] == bp[..3][2];
    var s := Initial(bp, 3);
    var begin, stop := [StartScan(3), ReaderStep], [ReaderStep, ReaderStep];
    RunTwo(s, StartScan(3), ReaderStep);
    var one, t1 := FirstToggle(Run(s, begin));
    var two, t2 := SecondToggle(t1);
    RunTwo(t2, ReaderStep, ReaderStep);
    var t3 := Run(t2, stop);
    RunTwo(t3, ReaderStep, ReaderStep);
    steps := begin + one + two + stop + stop;
    RunAppend(s, begin, one);
    RunAppend(s, begin + one, two);
    RunAppend(s, begin + one + two, stop);
    RunAppend(s, begin + one + two + stop, stop);
  }

  // ---- In place ----

  /** The list as one thread sees it when no other is editing. */
  class BreakpointList {
    const bp: array<int>
    var num: nat

    ghost predicate Valid()
      reads this, bp
    {
      bp.Length == MAX && num <= MAX && Distinct(bp[..num])
    }

    constructor ()
      ensures Valid() && num == 0 && fresh(bp)
    {
      bp := new int[MAX](_ => 0);
      num := 0;
    }

    /** debugger_breakpoint_present. */
    method Present(x: int) returns (found: bool)
      requires Valid()
      ensures found <==> x in bp[..num]
    {
      var i := 0;
      while i < num
        invariant 0 <= i <= num && x !in bp[..i]
      {
        if bp[i] == x {
          return true;
        }
        i := i + 1;
      }
      return false;
    }

    /** debugger_breakpoint_toggle: 1 set, 0 removed, -1 full. */
    method Toggle(x: int) returns (r: int)
      requires Valid()
      modifies this, bp
      ensures Valid() && bp[..num] == ToggleList(old(bp[..num]), x)
      ensures r == if x in old(bp[..num]) then 0 else if old(num) >= MAX then -1 else 1
    {
      ghost var list := bp[..num];
      ToggleChangesOne(list, x);
      var i := 0;
      while i < num
        invariant 0 <= i <= num && bp[..num] == list && x !in list[..i] && num == old(num)
      {
        if bp[i] == x {
          FindIs(list, x, i);
          bp[i] := bp[num - 1];
          num := num - 1;
          assert bp[..num] == RemoveAt(list, i);
          return 0;
        }
        i := i + 1;
      }
      assert list[..i] == list;
      if num >= MAX {
        return -1;
      }
      bp[num] := x;
      num := num + 1;
      assert bp[..num] == list + [x];
      return 1;
    }
  }
}
