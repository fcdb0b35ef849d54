/**
 The NoContraction minimiser (scripts/nocon-min.py). It drops the decoration
 from float operations that cannot be half of a fused multiply-add.

 A module is its lines: a decoration, an instruction with a result, one
 without, or anything else. Line text beyond that does not matter here.
 */
module NoContraction {

  type Id = string

  datatype Line =
    | Decorate(target: Id)
    | Def(result: Id, op: string, operands: seq<Id>)
    | Use(op: string, operands: seq<Id>)
    | Other(text: string)

  datatype Inst = Inst(op: string, operands: seq<Id>)

  datatype Error = NoDecorations | HiddenMultiplyAdd | UndecodableTarget
  datatype Result = Ok(out: seq<Line>) | Err(error: Error)

  const FORWARDS: set<string> := {"Phi", "Store", "Select", "CopyObject", "CopyMemory", "CopyLogical"}
  const PARTNERS: set<string> := {"FAdd", "FSub"}
  const WRAPPED: set<string> := {"FMul", "FAdd", "FSub"}
  const SINKS: set<string> :=
    {"FMul", "FDiv", "FRem", "FMod", "FNegate",
     "FOrdEqual", "FOrdNotEqual", "FOrdLessThan", "FOrdGreaterThan",
     "FOrdLessThanEqual", "FOrdGreaterThanEqual",
     "FUnordEqual", "FUnordNotEqual", "FUnordLessThan",
     "FUnordGreaterThan", "FUnordLessThanEqual", "FUnordGreaterThanEqual",
     "IsNan", "IsInf", "ConvertFToS", "ConvertFToU", "FConvert",
     "ExtInst:Floor", "ExtInst:Ceil", "ExtInst:Trunc", "ExtInst:Round",
     "ExtInst:RoundEven", "ExtInst:Fract", "ExtInst:FAbs",
     "ExtInst:Sqrt", "ExtInst:InverseSqrt",
     "ExtInst:FMin", "ExtInst:FMax", "ExtInst:FClamp", "ExtInst:FSign"}
  const DROPPABLE: set<string> :=
    {"IAdd", "ISub", "IMul", "SDiv", "UDiv", "SRem", "SMod", "UMod",
     "ShiftLeftLogical", "ShiftRightLogical", "ShiftRightArithmetic",
     "FDiv", "FRem", "FMod", "FNegate", "FConvert", "ConvertFToS",
     "ConvertFToU", "ConvertSToF", "ConvertUToF"}
  const FUSABLE: set<string> :=
    {"Dot", "VectorTimesScalar", "VectorTimesMatrix", "MatrixTimesVector",
     "MatrixTimesScalar", "MatrixTimesMatrix",
     "ExtInst:Fma", "ExtInst:FMix", "ExtInst:Length", "ExtInst:Distance",
     "ExtInst:Normalize", "ExtInst:Cross", "ExtInst:Reflect",
     "ExtInst:Refract", "ExtInst:SmoothStep"}

  // ---- What a module says ----

  function Decorated(lines: seq<Line>): set<Id> {
    set l | l in lines && l.Decorate? :: l.target
  }

  /** A later definition of an id replaces an earlier one. */
  function Defs(lines: seq<Line>): map<Id, Inst> {
    if lines == [] then map[]
    else
      var l := lines[|lines| - 1];
      var m := Defs(lines[..|lines| - 1]);
      if l.Def? then m[l.result := Inst(l.op, l.operands)] else m
  }

  function Uses(lines: seq<Line>): seq<Inst> {
    if lines == [] then []
    else
      var l := lines[|lines| - 1];
      var u := Uses(lines[..|lines| - 1]);
      if l.Use? then u + [Inst(l.op, l.operands)] else u
  }

  /** The opcodes that consume i. */
  ghost predicate Consumes(defs: map<Id, Inst>, uses: seq<Inst>, op: string, i: Id) {
    || (exists j :: j in defs && defs[j].op == op && i in defs[j].operands)
    || (exists k :: 0 <= k < |uses| && uses[k].op == op && i in uses[k].operands)
  }

  predicate Feeds(defs: map<Id, Inst>, j: Id) {
    j in defs && (defs[j].op == "FMul" || defs[j].op in FORWARDS)
  }

  /** Whether the decoration on i has to stay. */
  ghost predicate Keeps(defs: map<Id, Inst>, uses: seq<Inst>, i: Id)
    requires i in defs
  {
    if defs[i].op !in WRAPPED then defs[i].op !in DROPPABLE
    else if defs[i].op == "FMul" then exists op :: op !in SINKS && Consumes(defs, uses, op, i)
    else exists o :: o in defs[i].operands && Feeds(defs, o)
  }

  ghost predicate Hidden(defs: map<Id, Inst>) {
    exists j :: j in defs && defs[j].op in FUSABLE
  }

  /** The lines left when decorations outside `keep` go. */
  function Filter(lines: seq<Line>, keep: set<Id>): seq<Line> {
    if lines == [] then []
    else
      var l := lines[|lines| - 1];
      var out := Filter(lines[..|lines| - 1], keep);
      if l.Decorate? && l.target !in keep then out else out + [l]
  }

  ghost function Kept(lines: seq<Line>): set<Id>
    requires Decorated(lines) <= Defs(lines).Keys
  {
    set i | i in Decorated(lines) && Keeps(Defs(lines), Uses(lines), i)
  }

  ghost function Spec(lines: seq<Line>): Result {
    if Decorated(lines) == {} then Err(NoDecorations)
    else if Hidden(Defs(lines)) then Err(HiddenMultiplyAdd)
    else if !(Decorated(lines) <= Defs(lines).Keys) then Err(UndecodableTarget)
    else Ok(Filter(lines, Kept(lines)))
  }

  // ---- The script ----

  /** The consumer map of the script, empty where it has no entry. */
  function Lookup(cons: map<Id, set<string>>, i: Id): set<string> {
    if i in cons then cons[i] else {}
  }

  method AddConsumer(cons: map<Id, set<string>>, op: string, operands: seq<Id>) returns (r: map<Id, set<string>>)
    ensures forall i :: Lookup(r, i) == Lookup(cons, i) + (if i in operands then {op} else {})
  {
    r := cons;
    var k := 0;
    while k < |operands|
      invariant 0 <= k <= |operands|
      invariant forall i :: Lookup(r, i) == Lookup(cons, i) + (if i in operands[..k] then {op} else {})
    {
      r := r[operands[k] := Lookup(r, operands[k]) + {op}];
      k := k + 1;
    }
    assert operands[..k] == operands;
  }

  /** Opcodes consuming i among some of the definitions and uses. */
  ghost predicate ConsumedIn(defs: map<Id, Inst>, seen: set<Id>, uses: seq<Inst>, op: string, i: Id)
    requires seen <= defs.Keys
  {
    || (exists j :: j in seen && defs[j].op == op && i in defs[j].operands)
    || (exists k :: 0 <= k < |uses| && uses[k].op == op && i in uses[k].operands)
  }

  method Consumers(defs: map<Id, Inst>, uses: seq<Inst>) returns (cons: map<Id, set<string>>)
    ensures forall i, op :: op in Lookup(cons, i) <==> Consumes(defs, uses, op, i)
  {
    cons := map[];
    var todo := defs.Keys;
    while todo != {}
      invariant todo <= defs.Keys
      invariant forall i, op :: op in Lookup(cons, i) <==> ConsumedIn(defs, defs.Keys - todo, [], op, i)
      decreases todo
    {
      var j :| j in todo;
      ghost var was, seen := cons, defs.Keys - todo;
      cons := AddConsumer(cons, defs[j].op, defs[j].operands);
      todo := todo - {j};
      assert defs.Keys - todo == seen + {j};
      forall i, op ensures op in Lookup(cons, i) <==> ConsumedIn(defs, seen + {j}, [], op, i) {
        assert op in Lookup(was, i) <==> ConsumedIn(defs, seen, [], op, i);
      }
    }
    assert defs.Keys - todo == defs.Keys;
    var k := 0;
    while k < |uses|
      invariant 0 <= k <= |uses|
      invariant forall i, op :: op in Lookup(cons, i) <==> ConsumedIn(defs, defs.Keys, uses[..k], op, i)
    {
      ghost var was := cons;
      cons := AddConsumer(cons, uses[k].op, uses[k].operands);
      forall i, op ensures op in Lookup(cons, i) <==> ConsumedIn(defs, defs.Keys, uses[..k + 1], op, i) {
        assert op in Lookup(was, i) <==> ConsumedIn(defs, defs.Keys, uses[..k], op, i);
        assert uses[..k + 1] == uses[..k] + [uses[k]];
        MoreUses(defs, uses[..k], uses[k], op, i);
      }
      k := k + 1;
    }
    assert uses[..k] == uses;
  }

  lemma MoreUses(defs: map<Id, Inst>, uses: seq<Inst>, u: Inst, op: string, i: Id)
    ensures ConsumedIn(defs, defs.Keys, uses + [u], op, i) <==>
            ConsumedIn(defs, defs.Keys, uses, op, i) || (u.op == op && i in u.operands)
  {
    var all := uses + [u];
    if ConsumedIn(defs, defs.Keys, uses, op, i) {
      if k :| 0 <= k < |uses| && uses[k].op == op && i in uses[k].operands { assert all[k] == uses[k]; }
    }
    if u.op == op && i in u.operands { assert all[|uses|] == u; }
  }

  /** main, from a parsed module. */
  method Minimise(lines: seq<Line>) returns (r: Result)
    ensures r == Spec(lines) && Answers(lines, r)
  {
    AnswersByLine(lines);
    hide Answers;
    var nocon: set<Id>, defs: map<Id, Inst>, uses: seq<Inst> := {}, map[], [];
    var n := 0;
    while n < |lines|
      invariant 0 <= n <= |lines|
      invariant nocon == Decorated(lines[..n]) && defs == Defs(lines[..n]) && uses == Uses(lines[..n])
    {
      assert lines[..n + 1][..n] == lines[..n];
      match lines[n] {
        case Decorate(i) => nocon := nocon + {i};
        case Def(i, op, ops) => defs := defs[i := Inst(op, ops)];
        case Use(op, ops) => uses := uses + [Inst(op, ops)];
        case Other(_) =>
      }
      AddLine(lines, n);
      n := n + 1;
    }
    assert lines[..n] == lines;
    if nocon == {} {
      return Err(NoDecorations);
    }
    var cons := Consumers(defs, uses);
    if exists j :: j in defs && defs[j].op in FUSABLE {
      return Err(HiddenMultiplyAdd);
    }
    var keep, todo := {}, nocon;
    while todo != {}
      invariant todo <= nocon && nocon - todo <= defs.Keys
      invariant keep == set i | i in nocon - todo && Keeps(defs, uses, i)
      decreases todo
    {
      var i :| i in todo;
      if i !in defs {
        return Err(UndecodableTarget);
      }
      var op, ops := defs[i].op, defs[i].operands;
      var stays := false;
      if op !in WRAPPED {
        stays := op !in DROPPABLE;
      } else if op == "FMul" {
        var escapes := Lookup(cons, i) - SINKS;
        stays := escapes != {};
        EscapesMeansKeeps(cons, defs, uses, i);
      } else {
        stays := exists o :: o in ops && Feeds(defs, o);
      }
      assert stays == Keeps(defs, uses, i);
      if stays {
        keep := keep + {i};
      }
      todo := todo - {i};
    }
    assert keep == Kept(lines);
    var out := [];
    n := 0;
    while n < |lines|
      invariant 0 <= n <= |lines|
      invariant out == Filter(lines[..n], keep)
    {
      assert lines[..n + 1][..n] == lines[..n];
      if !(lines[n].Decorate? && lines[n].target !in keep) {
        out := out + [lines[n]];
      }
      n := n + 1;
    }
    assert lines[..n] == lines;
    return Ok(out);
  }

  lemma EscapesMeansKeeps(cons: map<Id, set<string>>, defs: map<Id, Inst>, uses: seq<Inst>, i: Id)
    requires forall i, op :: op in Lookup(cons, i) <==> Consumes(defs, uses, op, i)
    requires i in defs && defs[i].op == "FMul"
    ensures Lookup(cons, i) - SINKS != {} <==> Keeps(defs, uses, i)
  {
    if Lookup(cons, i) - SINKS != {} {
      var op :| op in Lookup(cons, i) - SINKS;
      assert Consumes(defs, uses, op, i);
    }
    if Keeps(defs, uses, i) {
      var op :| op !in SINKS && Consumes(defs, uses, op, i);
      assert op in Lookup(cons, i) - SINKS;
    }
  }

  lemma AddLine(lines: seq<Line>, n: nat)
    requires n < |lines|
    ensures var l := lines[n];
            Decorated(lines[..n + 1]) == Decorated(lines[..n]) + (if l.Decorate? then {l.target} else {})
  {
    assert lines[..n + 1] == lines[..n] + [lines[n]];
  }

  // ---- What it promises ----

  /** Dropping decorations leaves the instructions as they are. */
  lemma {:induction false} FilterKeepsCode(lines: seq<Line>, keep: set<Id>)
    ensures var out := Filter(lines, keep);
            Defs(out) == Defs(lines) && Uses(out) == Uses(lines) && Decorated(out) == Decorated(lines) * keep
  {
    if lines != [] {
      var n := |lines| - 1;
      FilterKeepsCode(lines[..n], keep);
      var rest, l := Filter(lines[..n], keep), lines[n];
      assert (rest + [l])[..|rest|] == rest;
      AddLine(lines, n);
      AddLine(rest + [l], |rest|);
      assert lines[..n + 1] == lines && (rest + [l])[..|rest| + 1] == rest + [l];
    }
  }

  /** A decoration stays exactly when Keeps says so. */
  lemma StaysExactly(lines: seq<Line>, i: Id)
    requires Spec(lines).Ok?
    ensures i in Decorated(Spec(lines).out) <==> i in Decorated(lines) && Keeps(Defs(lines), Uses(lines), i)
  {
    FilterKeepsCode(lines, Kept(lines));
  }

  // ---- The same, line by line ----

  /** Line n holds the definition of i that counts, the last one. */
  predicate Holds(lines: seq<Line>, i: Id, n: int) {
    && 0 <= n < |lines| && lines[n].Def? && lines[n].result == i
    && (forall m :: n < m < |lines| && lines[m].Def? ==> lines[m].result != i)
  }

  /** Line n uses i: an instruction without a result, or a definition that counts. */
  predicate UsesAt(lines: seq<Line>, i: Id, n: int) {
    && 0 <= n < |lines| && (lines[n].Use? || (lines[n].Def? && Holds(lines, lines[n].result, n)))
    && i in lines[n].operands
  }

  ghost predicate UsedBy(lines: seq<Line>, op: string, i: Id) {
    exists n :: UsesAt(lines, i, n) && lines[n].op == op
  }

  ghost predicate Forwarded(lines: seq<Line>, o: Id) {
    exists m :: Holds(lines, o, m) && (lines[m].op == "FMul" || lines[m].op in FORWARDS)
  }

  /** The rule of the script for a decoration whose target line n defines. */
  ghost predicate Needed(lines: seq<Line>, n: int)
    requires 0 <= n < |lines| && lines[n].Def?
  {
    match lines[n].op
    case "FMul" => exists op :: op !in SINKS && UsedBy(lines, op, lines[n].result)
    case "FAdd" => exists o :: o in lines[n].operands && Forwarded(lines, o)
    case "FSub" => exists o :: o in lines[n].operands && Forwarded(lines, o)
    case op => op !in DROPPABLE
  }

  lemma {:induction false} DefsByLine(lines: seq<Line>, i: Id)
    ensures i in Defs(lines) <==> exists n :: Holds(lines, i, n)
    ensures forall n :: Holds(lines, i, n) ==> Defs(lines)[i] == Inst(lines[n].op, lines[n].operands)
  {
    if lines != [] {
      var last := |lines| - 1;
      var before := lines[..last];
      DefsByLine(before, i);
      if lines[last].Def? && lines[last].result == i {
        assert Holds(lines, i, last);
      } else {
        forall n ensures Holds(lines, i, n) <==> Holds(before, i, n) {
          if Holds(before, i, n) { assert before[n] == lines[n]; }
        }
      }
    }
  }

  lemma {:induction false} UsesByLine(lines: seq<Line>, u: Inst)
    ensures u in Uses(lines) <==> exists n :: 0 <= n < |lines| && lines[n] == Use(u.op, u.operands)
  {
    if lines != [] {
      var last := |lines| - 1;
      UsesByLine(lines[..last], u);
      if n :| 0 <= n < |lines| && lines[n] == Use(u.op, u.operands) {
        assert n < last ==> lines[..last][n] == lines[n];
      }
    }
  }

  lemma ConsumesByLine(lines: seq<Line>, op: string, i: Id)
    ensures Consumes(Defs(lines), Uses(lines), op, i) <==> UsedBy(lines, op, i)
  {
    hide Defs, Uses;
    var defs, uses := Defs(lines), Uses(lines);
    if j :| j in defs && defs[j].op == op && i in defs[j].operands {
      DefsByLine(lines, j);
      var n :| Holds(lines, j, n);
      assert UsesAt(lines, i, n);
    }
    if k :| 0 <= k < |uses| && uses[k].op == op && i in uses[k].operands {
      UsesByLine(lines, uses[k]);
      var n :| 0 <= n < |lines| && lines[n] == Use(uses[k].op, uses[k].operands);
      assert UsesAt(lines, i, n);
    }
    if n :| UsesAt(lines, i, n) && lines[n].op == op {
      if lines[n].Use? {
        var u := Inst(op, lines[n].operands);
        UsesByLine(lines, u);
        var k :| 0 <= k < |uses| && uses[k] == u;
      } else {
        DefsByLine(lines, lines[n].result);
      }
    }
  }

  lemma KeepsByLine(lines: seq<Line>, n: int)
    requires 0 <= n < |lines| && lines[n].Def? && Holds(lines, lines[n].result, n)
    ensures lines[n].result in Defs(lines)
    ensures Keeps(Defs(lines), Uses(lines), lines[n].result) <==> Needed(lines, n)
  {
    hide Defs, Uses, UsedBy, Consumes;
    var i := lines[n].result;
    DefsByLine(lines, i);
    forall op ensures Consumes(Defs(lines), Uses(lines), op, i) <==> UsedBy(lines, op, i) {
      ConsumesByLine(lines, op, i);
    }
    forall o ensures Feeds(Defs(lines), o) <==> Forwarded(lines, o) {
      DefsByLine(lines, o);
    }
  }

  /** The value of a multiply reaching an add, directly or through any chain of
      forwarding operations. */
  predicate Route(defs: map<Id, Inst>, path: seq<Id>) {
    && 2 <= |path| && (forall k :: 0 <= k < |path| ==> path[k] in defs)
    && defs[path[0]].op == "FMul" && defs[path[|path| - 1]].op in PARTNERS
    && (forall k :: 1 <= k < |path| - 1 ==> defs[path[k]].op in FORWARDS)
    && (forall k :: 1 <= k < |path| ==> path[k - 1] in defs[path[k]].operands)
  }

  /** Whichever end of such a route was decorated still is. */
  lemma RouteStaysGuarded(lines: seq<Line>, path: seq<Id>)
    requires Spec(lines).Ok? && Route(Defs(lines), path)
    ensures var out := Spec(lines).out; var mul, add := path[0], path[|path| - 1];
            && (mul in Decorated(lines) <==> mul in Decorated(out))
            && (add in Decorated(lines) <==> add in Decorated(out))
  {
    var mul, add := path[0], path[|path| - 1];
    RouteStartKept(lines, path);
    RouteEndKept(lines, path);
    hide Keeps, Spec, Decorated;
    StaysExactly(lines, mul);
    StaysExactly(lines, add);
  }

  lemma RouteStartKept(lines: seq<Line>, path: seq<Id>)
    requires Route(Defs(lines), path)
    ensures path[0] in Defs(lines) && Keeps(Defs(lines), Uses(lines), path[0])
  {
    hide Defs, Uses;
    var defs, uses := Defs(lines), Uses(lines);
    assert path[1 - 1] in defs[path[1]].operands;
    var op := defs[path[1]].op;
    assert op in FORWARDS || op in PARTNERS;
    assert op !in SINKS && Consumes(defs, uses, op, path[0]);
  }

  lemma RouteEndKept(lines: seq<Line>, path: seq<Id>)
    requires Route(Defs(lines), path)
    ensures path[|path| - 1] in Defs(lines) && Keeps(Defs(lines), Uses(lines), path[|path| - 1])
  {
    hide Defs, Uses;
    var defs, add := Defs(lines), path[|path| - 1];
    assert path[|path| - 1 - 1] in defs[add].operands && Feeds(defs, path[|path| - 2]);
  }

  /** A multiply whose value escapes into anything not known to be harmless
      keeps its decoration. */
  lemma EscapingMultiplyStays(lines: seq<Line>, i: Id, op: string)
    requires Spec(lines).Ok? && i in Decorated(lines) && i in Defs(lines) && Defs(lines)[i].op == "FMul"
    requires op !in SINKS && Consumes(Defs(lines), Uses(lines), op, i)
    ensures i in Decorated(Spec(lines).out)
  {
    StaysExactly(lines, i);
  }

  /** For a multiply that escapes and an add, however the value travels (through
      memory, say): one of the two is decorated afterwards exactly when the
      multiply was before, or the add was and takes a multiply or a
      forwarded value. */
  lemma PairGuardedExactly(lines: seq<Line>, mul: Id, add: Id, op: string)
    requires Spec(lines).Ok? && {mul, add} <= Defs(lines).Keys
    requires Defs(lines)[mul].op == "FMul" && Defs(lines)[add].op in PARTNERS
    requires op !in SINKS && Consumes(Defs(lines), Uses(lines), op, mul)
    ensures var out := Spec(lines).out;
            (mul in Decorated(out) || add in Decorated(out)) <==>
            || mul in Decorated(lines)
            || (add in Decorated(lines) && exists o :: o in Defs(lines)[add].operands && Feeds(Defs(lines), o))
  {
    StaysExactly(lines, mul);
    StaysExactly(lines, add);
  }

  lemma DefsAppend(lines: seq<Line>, l: Line) returns (r: seq<Line>)
    ensures r == lines + [l]
    ensures Defs(r) == if l.Def? then Defs(lines)[l.result := Inst(l.op, l.operands)] else Defs(lines)
  {
    r := lines + [l];
    assert r[..|lines|] == lines;
  }

  /** A multiply that goes to memory, comes back and is added. */
  function ThroughMemory(): seq<Line> {
    [Decorate("add")] + [Def("m", "FMul", ["a", "b"])] + [Use("Store", ["p", "m"])] + [Def("l", "Load", ["p"])] +
    [Def("add", "FAdd", ["l", "c"])]
  }

  lemma ThroughMemoryDefs()
    ensures Defs(ThroughMemory()) ==
            map["m" := Inst("FMul", ["a", "b"]), "l" := Inst("Load", ["p"]), "add" := Inst("FAdd", ["l", "c"])]
    ensures Decorated(ThroughMemory()) == {"add"}
  {
    var a: seq<Line> := [Decorate("add")];
    assert a[..0] == [];
    var b := DefsAppend(a, Def("m", "FMul", ["a", "b"]));
    var c := DefsAppend(b, Use("Store", ["p", "m"]));
    var d := DefsAppend(c, Def("l", "Load", ["p"]));
    var e := DefsAppend(d, Def("add", "FAdd", ["l", "c"]));
    assert ThroughMemory()[0] == Decorate("add");
  }

  /** So a guard on the add alone is lost when the undecorated multiply reaches
      it through a store and a load. */
  lemma GuardLostThroughMemory()
    ensures var lines := ThroughMemory();
            && "add" in Decorated(lines) && "m" !in Decorated(lines)
            && Spec(lines).Ok? && Decorated(Spec(lines).out) == {}
  {
    hide ThroughMemory;
    var lines := ThroughMemory();
    ThroughMemoryDefs();
    var defs := Defs(lines);
    assert !Feeds(defs, "l") && !Feeds(defs, "c");
    assert !Keeps(defs, Uses(lines), "add") by {
      assert forall o :: o in defs["add"].operands ==> o == "l" || o == "c";
    }
    assert "Load" !in FUSABLE && "FMul" !in FUSABLE && "FAdd" !in FUSABLE;
    FilterKeepsCode(lines, Kept(lines));
  }

  /** A second run drops nothing; with nothing left it says so. */
  lemma SecondRun(lines: seq<Line>)
    requires Spec(lines).Ok?
    ensures var out := Spec(lines).out;
            Spec(out) == if Decorated(out) == {} then Err(NoDecorations) else Ok(out)
  {
    var out := Spec(lines).out;
    FilterKeepsCode(lines, Kept(lines));
    assert Kept(out) == Kept(lines);
    FilterTwice(lines, Kept(lines));
  }

  lemma {:induction false} FilterTwice(lines: seq<Line>, keep: set<Id>)
    ensures Filter(Filter(lines, keep), keep) == Filter(lines, keep)
  {
    if lines != [] {
      var n := |lines| - 1;
      FilterTwice(lines[..n], keep);
      var rest := Filter(lines[..n], keep);
      assert (rest + [lines[n]])[..|rest|] == rest;
    }
  }

  predicate Dropped(l: Line, keep: set<Id>) { l.Decorate? && l.target !in keep }

  /** `out` is `lines` in their order, less exactly the dropped decorations:
      `at` says where each came from. */
  ghost predicate Places(lines: seq<Line>, keep: set<Id>, out: seq<Line>, at: seq<int>) {
    && |at| == |out| && (forall k :: 0 <= k < |at| ==> 0 <= at[k] < |lines| && out[k] == lines[at[k]])
    && (forall k, m :: 0 <= k < m < |at| ==> at[k] < at[m])
    && (forall n :: 0 <= n < |lines| ==> (n in at <==> !Dropped(lines[n], keep)))
  }

  lemma PlaceKept(lines: seq<Line>, keep: set<Id>, out: seq<Line>, at: seq<int>, l: Line)
    requires Places(lines, keep, out, at) && !Dropped(l, keep)
    ensures Places(lines + [l], keep, out + [l], at + [|lines|])
  {
    var more := at + [|lines|];
    assert more[|at|] == |lines|;
    forall n | 0 <= n < |lines + [l]| ensures n in more <==> !Dropped((lines + [l])[n], keep) {
      if n < |lines| { assert n in more <==> n in at; } else { }
    }
  }

  lemma PlaceDropped(lines: seq<Line>, keep: set<Id>, out: seq<Line>, at: seq<int>, l: Line)
    requires Places(lines, keep, out, at) && Dropped(l, keep)
    ensures Places(lines + [l], keep, out, at)
  {
    forall n | 0 <= n < |lines + [l]| ensures n in at <==> !Dropped((lines + [l])[n], keep) {
      if n < |lines| { assert (lines + [l])[n] == lines[n]; } else { }
    }
  }

  /** The output is the input's lines in their order, less exactly the dropped
      decorations. */
  lemma {:induction false} OrderKept(lines: seq<Line>, keep: set<Id>) returns (at: seq<int>)
    ensures Places(lines, keep, Filter(lines, keep), at)
  {
    if lines == [] {
      at := [];
    } else {
      hide Places;
      var n := |lines| - 1;
      var before, l := lines[..n], lines[n];
      at := OrderKept(before, keep);
      assert before + [l] == lines;
      if Dropped(l, keep) {
        PlaceDropped(before, keep, Filter(before, keep), at, l);
      } else {
        PlaceKept(before, keep, Filter(before, keep), at, l);
        at := at + [n];
      }
    }
  }

  /** The ids whose decoration has to stay. */
  ghost function NeededIds(lines: seq<Line>): set<Id> {
    set n | 0 <= n < |lines| && lines[n].Def? && Holds(lines, lines[n].result, n) && Needed(lines, n) :: lines[n].result
  }

  /** What the script answers: what it refuses, in its order; else the lines in
      their order, less exactly the decorations that need not stay. */
  ghost predicate Answers(lines: seq<Line>, r: Result) {
    if forall i :: Decorate(i) !in lines then r == Err(NoDecorations)
    else if exists i, n :: Holds(lines, i, n) && lines[n].op in FUSABLE then r == Err(HiddenMultiplyAdd)
    else if exists i :: Decorate(i) in lines && forall n :: !Holds(lines, i, n) then r == Err(UndecodableTarget)
    else r.Ok? && exists at :: Places(lines, NeededIds(lines), r.out, at)
  }

  lemma DecoratedByLine(lines: seq<Line>, i: Id)
    ensures i in Decorated(lines) <==> Decorate(i) in lines
  {
    if i in Decorated(lines) {
      var l :| l in lines && l.Decorate? && l.target == i;
      assert l == Decorate(i);
    }
  }

  lemma KeptIsNeeded(lines: seq<Line>, i: Id)
    requires Decorated(lines) <= Defs(lines).Keys && i in Decorated(lines)
    ensures i in Kept(lines) <==> i in NeededIds(lines)
  {
    DefsByLine(lines, i);
    var n :| Holds(lines, i, n);
    KeepsByLine(lines, n);
    hide Needed, Keeps, Defs, Uses, Decorated;
    if i in NeededIds(lines) {
      var m :| && 0 <= m < |lines| && lines[m].Def? && Holds(lines, lines[m].result, m) && Needed(lines, m)
               && lines[m].result == i;
      assert m == n;
    }
  }

  lemma RefusesByLine(lines: seq<Line>)
    ensures Decorated(lines) == {} <==> forall i :: Decorate(i) !in lines
    ensures Hidden(Defs(lines)) <==> exists i, n :: Holds(lines, i, n) && lines[n].op in FUSABLE
    ensures Decorated(lines) <= Defs(lines).Keys <==>
            !exists i :: Decorate(i) in lines && forall n :: !Holds(lines, i, n)
  {
    hide Decorated, Defs;
    forall i ensures i in Decorated(lines) <==> Decorate(i) in lines { DecoratedByLine(lines, i); }
    forall i
      ensures i in Defs(lines) <==> exists n :: Holds(lines, i, n)
      ensures forall n :: Holds(lines, i, n) ==> Defs(lines)[i] == Inst(lines[n].op, lines[n].operands)
    {
      DefsByLine(lines, i);
    }
    if i, n :| Holds(lines, i, n) && lines[n].op in FUSABLE {
      assert i in Defs(lines) && Defs(lines)[i].op in FUSABLE;
    }
    if Hidden(Defs(lines)) {
      var j :| j in Defs(lines) && Defs(lines)[j].op in FUSABLE;
      var n :| Holds(lines, j, n);
    }
  }

  /** The script, told from the lines alone. */
  lemma AnswersByLine(lines: seq<Line>)
    ensures Answers(lines, Spec(lines))
  {
    RefusesByLine(lines);
    hide Decorated, Defs, Hidden, NeededIds, Kept, Holds;
    if Spec(lines).Ok? {
      var at := OrderKept(lines, Kept(lines));
      hide Filter;
      forall n | 0 <= n < |lines| ensures Dropped(lines[n], Kept(lines)) <==> Dropped(lines[n], NeededIds(lines)) {
        if lines[n].Decorate? {
          DecoratedByLine(lines, lines[n].target);
          assert lines[n] == Decorate(lines[n].target);
          KeptIsNeeded(lines, lines[n].target);
        }
      }
      assert Places(lines, NeededIds(lines), Spec(lines).out, at);
    }
  }
}
