/** The CPLEX `.sol` reader (`Solution`): a strict state machine over the
    node stream of an XML reader.  A self-closing tag `<x/>` is a lone
    `Start` node, as the .NET reader reports it. */
module CplexSolution {
  import opened Wrappers
  import opened Strs
  import opened Num
  import opened ModelObjects

  /** The nodes the parser reacts to; every other node kind (text,
      whitespace, comments, declarations) is `Other`. */
  datatype XmlEvent =
    | Start(name: string, attrs: map<string, string>)
    | End(name: string)
    | Other

  datatype Solution = Solution(
    solution: Option<string>,
    feasible: bool,
    name2val: map<string, Double>,
    name2ReducedCost: map<string, Double>,
    var2val: map<ObjId, Double>,
    var2ReducedCost: map<ObjId, Double>,
    name2dual: map<string, Double>,
    rng2dual: map<ObjId, Double>,
    name2slack: map<string, Double>,
    rng2slack: map<ObjId, Double>,
    objective: Double,
    status: int,
    pfeas: bool,
    dfeas: bool)
  {
    predicate HasSolution() { solution.Some? }
  }

  /** A new solution object: nothing recorded, objective NaN, status -1. */
  const Fresh := Solution(None, false, map[], map[], map[], map[], map[], map[], map[], map[], NaN, -1, false, false)

  /** `new Solution(status)`. */
  function WithStatus(status: int): (r: Solution)
    ensures r.status == status && !r.feasible && !r.HasSolution()
    ensures r.name2val == map[] && r.name2dual == map[] && r.name2slack == map[]
  {
    Fresh.(status := status)
  }

  /** `Reset` as written: every field back to its initial value, except the
      reduced costs already moved to objects, which it does not clear. */
  function Reset(s: Solution): (r: Solution)
    ensures r == Fresh.(var2ReducedCost := s.var2ReducedCost)
  {
    s.(solution := None, feasible := false,
       name2val := map[], var2val := map[], name2ReducedCost := map[],
       name2dual := map[], rng2dual := map[], name2slack := map[], rng2slack := map[],
       objective := NaN, status := -1, pfeas := false, dfeas := false)
  }

  /** `Reset` clearing every map, the evident intent. */
  function ResetAll(s: Solution): (r: Solution)
    ensures r == Fresh
  {
    Reset(s).(var2ReducedCost := map[])
  }

  /** A reused solution object keeps reduced costs of an earlier solve
      through `Reset`. */
  lemma ResetKeepsStaleReducedCosts(v: ObjId, d: Double)
    ensures Reset(Fresh.(var2ReducedCost := map[v := d])).var2ReducedCost == map[v := d]
    ensures ResetAll(Fresh.(var2ReducedCost := map[v := d])).var2ReducedCost == map[]
  {
  }

  datatype PState =
    | Initial
    | InSolution
    | Header
    | Quality
    | Variables
    | LinearConstraints
    | UnknownSection
    | Finished

  /** The machine: its state, the stack of open unknown elements, the
      solution counter for messages, and the solution built so far. */
  datatype Parser = Parser(state: PState, stack: seq<string>, solnum: int, sol: Solution)

  const Malformed := "Malformed XML"

  /** `GetAttributes`: the value of an attribute, null when absent. */
  function Attr(attrs: map<string, string>, key: string): Option<string> {
    if key in attrs then Some(attrs[key]) else None
  }

  /** The fields the parser never writes are unchanged. */
  predicate Kept(a: Solution, b: Solution) {
    b.solution == a.solution && b.var2val == a.var2val && b.var2ReducedCost == a.var2ReducedCost &&
    b.rng2dual == a.rng2dual && b.rng2slack == a.rng2slack
  }

  /** `Dictionary.Add`: a second entry under the same key throws. */
  function Add(m: map<string, Double>, key: string, value: Double): (r: Result<map<string, Double>>)
    ensures key in m <==> r.Err?
    ensures r.Ok? ==> r.value == m[key := value]
  {
    if key in m then Err(DuplicateKey) else Ok(m[key := value])
  }

  /** `attr != null && Int32.Parse(attr) != 0`. */
  function Flag(a: Option<string>): (r: Result<bool>)
    ensures a.None? ==> r == Ok(false)
    ensures a.Some? ==> (r.Ok? <==> ParseInt(a.value).Ok?)
    ensures a.Some? && r.Ok? ==> r.value == (ParseInt(a.value).value != 0)
  {
    match a
    case None => Ok(false)
    case Some(t) =>
      var n :- ParseInt(t);
      Ok(n != 0)
  }

  /** The `<header>` element: objective and status are mandatory. */
  function ReadHeader(p: Parser, attrs: map<string, string>): (r: Result<Parser>)
    ensures Attr(attrs, "objectiveValue").None? ==> r == Err("No objective for solution " + ShowInt(p.solnum))
    ensures Attr(attrs, "objectiveValue").Some? && Attr(attrs, "solutionStatusValue").None? ==>
              r == Err("No solution status for solution " + ShowInt(p.solnum))
    ensures r.Ok? ==> r.value.state == Header && r.value.stack == p.stack && r.value.sol.solution == p.sol.solution
    ensures r.Ok? ==> Flag(Attr(attrs, "primalFeasible")) == Ok(r.value.sol.pfeas)
    ensures r.Ok? ==> Flag(Attr(attrs, "dualFeasible")) == Ok(r.value.sol.dfeas)
    ensures r.Ok? ==> ParseInt(attrs["solutionStatusValue"]) == Ok(r.value.sol.status)
    ensures r.Ok? ==> r.value.sol.name2val == p.sol.name2val && r.value.sol.name2dual == p.sol.name2dual
    ensures r.Ok? ==> r.value.sol.name2slack == p.sol.name2slack && r.value.sol.name2ReducedCost == p.sol.name2ReducedCost
    ensures r.Ok? ==> Kept(p.sol, r.value.sol)
  {
    var obj := Attr(attrs, "objectiveValue");
    var st := Attr(attrs, "solutionStatusValue");
    if obj.None? then Err("No objective for solution " + ShowInt(p.solnum))
    else if st.None? then Err("No solution status for solution " + ShowInt(p.solnum))
    else
      var status :- ParseInt(st.value);
      var pfeas :- Flag(Attr(attrs, "primalFeasible"));
      var dfeas :- Flag(Attr(attrs, "dualFeasible"));
      Ok(p.(state := Header,
            sol := p.sol.(objective := ParseDouble(obj.value), status := status, pfeas := pfeas, dfeas := dfeas)))
  }

  /** A `<variable>` element: a named one must carry a value; value and
      reduced cost are kept for known names only. */
  function ReadVariable(p: Parser, attrs: map<string, string>, knownVars: set<string>): (r: Result<Parser>)
    ensures Attr(attrs, "name").None? ==> r == Ok(p)
    ensures Attr(attrs, "name").Some? && Attr(attrs, "value").None? ==>
              r == Err("Variable without value in solution file for solution " + ShowInt(p.solnum))
    ensures r.Ok? && Attr(attrs, "name").Some? && attrs["name"] !in knownVars ==> r == Ok(p)
    ensures r.Ok? && Attr(attrs, "name").Some? && attrs["name"] in knownVars ==>
              r.value.sol.name2val == p.sol.name2val[attrs["name"] := ParseDouble(attrs["value"])]
    ensures r.Ok? && Attr(attrs, "name").Some? && attrs["name"] in knownVars && Attr(attrs, "reducedCost").Some? ==>
              r.value.sol.name2ReducedCost == p.sol.name2ReducedCost[attrs["name"] := ParseDouble(attrs["reducedCost"])]
    ensures r.Ok? ==> r.value.state == p.state && r.value.stack == p.stack && r.value.sol.solution == p.sol.solution
    ensures r.Ok? ==> r.value.sol.name2dual == p.sol.name2dual && r.value.sol.name2slack == p.sol.name2slack
    ensures r.Ok? ==> r.value.sol.name2val.Keys <= p.sol.name2val.Keys + knownVars
    ensures r.Ok? ==> r.value.sol.name2ReducedCost.Keys <= p.sol.name2ReducedCost.Keys + knownVars
    ensures r.Ok? ==> Kept(p.sol, r.value.sol)
  {
    match Attr(attrs, "name")
    case None => Ok(p)
    case Some(name) =>
      match Attr(attrs, "value")
      case None => Err("Variable without value in solution file for solution " + ShowInt(p.solnum))
      case Some(value) =>
        if name !in knownVars then Ok(p)
        else
          var vals :- Add(p.sol.name2val, name, ParseDouble(value));
          match Attr(attrs, "reducedCost")
          case None => Ok(p.(sol := p.sol.(name2val := vals)))
          case Some(rc) =>
            var costs :- Add(p.sol.name2ReducedCost, name, ParseDouble(rc));
            Ok(p.(sol := p.sol.(name2val := vals, name2ReducedCost := costs)))
  }

  /** An element inside `<linearConstraints>` or `<indicatorConstraints>`:
      dual and slack are each kept, for known names, when present. */
  function ReadConstraint(p: Parser, attrs: map<string, string>, knownCts: set<string>): (r: Result<Parser>)
    ensures Attr(attrs, "name").None? || attrs["name"] !in knownCts ==> r == Ok(p)
    ensures r.Ok? && Attr(attrs, "name").Some? && attrs["name"] in knownCts ==>
              r.value.sol.name2dual == (if "dual" in attrs then p.sol.name2dual[attrs["name"] := ParseDouble(attrs["dual"])] else p.sol.name2dual) &&
              r.value.sol.name2slack == (if "slack" in attrs then p.sol.name2slack[attrs["name"] := ParseDouble(attrs["slack"])] else p.sol.name2slack)
    ensures r.Ok? ==> r.value.state == p.state && r.value.stack == p.stack && r.value.sol.solution == p.sol.solution
    ensures r.Ok? ==> r.value.sol.name2val == p.sol.name2val && r.value.sol.name2ReducedCost == p.sol.name2ReducedCost
    ensures r.Ok? ==> r.value.sol.name2dual.Keys <= p.sol.name2dual.Keys + knownCts
    ensures r.Ok? ==> r.value.sol.name2slack.Keys <= p.sol.name2slack.Keys + knownCts
    ensures r.Ok? ==> Kept(p.sol, r.value.sol)
  {
    match Attr(attrs, "name")
    case None => Ok(p)
    case Some(name) =>
      if name !in knownCts then Ok(p)
      else
        var duals :- if "dual" in attrs then Add(p.sol.name2dual, name, ParseDouble(attrs["dual"])) else Ok(p.sol.name2dual);
        var slacks :- if "slack" in attrs then Add(p.sol.name2slack, name, ParseDouble(attrs["slack"])) else Ok(p.sol.name2slack);
        Ok(p.(sol := p.sol.(name2dual := duals, name2slack := slacks)))
  }

  /** The reaction to a start tag. */
  function OnStart(p: Parser, name: string, attrs: map<string, string>, knownVars: set<string>, knownCts: set<string>): (r: Result<Parser>)
    ensures p.state == Initial ==> (r.Ok? <==> name == "CPLEXSolution")
    ensures p.state == Initial && r.Ok? ==> r.value.state == InSolution && r.value.sol.feasible
    ensures p.state in {Header, Quality, Finished} ==> r == Err(Malformed)
    ensures p.state == Variables && name != "variable" ==> r == Err(Malformed)
    ensures p.state == UnknownSection ==> r == Ok(p.(stack := p.stack + [name]))
    ensures r.Ok? ==> Kept(p.sol, r.value.sol)
  {
    match p.state
    case Initial =>
      if name == "CPLEXSolution" then Ok(p.(solnum := p.solnum + 1, state := InSolution, sol := p.sol.(feasible := true)))
      else Err(Malformed)
    case Header => Err(Malformed)
    case Quality => Err(Malformed)
    case InSolution =>
      if name == "header" then ReadHeader(p, attrs)
      else if name == "quality" then Ok(p.(state := Quality))
      else if name == "variables" then Ok(p.(state := Variables))
      else if name == "linearConstraints" || name == "indicatorConstraints" then Ok(p.(state := LinearConstraints))
      else Ok(p.(state := UnknownSection, stack := p.stack + [name]))
    case Variables =>
      if name != "variable" then Err(Malformed) else ReadVariable(p, attrs, knownVars)
    case LinearConstraints => ReadConstraint(p, attrs, knownCts)
    case UnknownSection => Ok(p.(stack := p.stack + [name]))
    case Finished => Err(Malformed)
  }

  /** The reaction to an end tag: it must close the current section. */
  function OnEnd(p: Parser, name: string): (r: Result<Parser>)
    ensures p.state in {Initial, Finished} ==> r == Err(Malformed)
    ensures p.state == UnknownSection ==>
              (r.Ok? <==> |p.stack| > 0 && name == p.stack[|p.stack| - 1])
    ensures p.state == UnknownSection && r.Ok? ==>
              r.value.stack == p.stack[..|p.stack| - 1] &&
              (r.value.state == InSolution <==> |r.value.stack| == 0)
    ensures r.Ok? ==> r.value.sol == p.sol
  {
    match p.state
    case Initial => Err(Malformed)
    case InSolution => if name == "CPLEXSolution" then Ok(p.(state := Finished)) else Err(Malformed)
    case Header => if name == "header" then Ok(p.(state := InSolution)) else Err(Malformed)
    case Quality => if name == "quality" then Ok(p.(state := InSolution)) else Err(Malformed)
    case Variables =>
      if name == "variable" then Ok(p)
      else if name == "variables" then Ok(p.(state := InSolution))
      else Err(Malformed)
    case LinearConstraints =>
      if name == "constraint" then Ok(p)
      else if name == "linearConstraints" || name == "indicatorConstraints" then Ok(p.(state := InSolution))
      else Err(Malformed)
    case UnknownSection =>
      if |p.stack| == 0 || name != p.stack[|p.stack| - 1] then Err(Malformed)
      else
        var rest := p.stack[..|p.stack| - 1];
        Ok(p.(stack := rest, state := if |rest| == 0 then InSolution else UnknownSection))
    case Finished => Err(Malformed)
  }

  function Step(p: Parser, ev: XmlEvent, knownVars: set<string>, knownCts: set<string>): Result<Parser> {
    match ev
    case Start(name, attrs) => OnStart(p, name, attrs, knownVars, knownCts)
    case End(name) => OnEnd(p, name)
    case Other => Ok(p)
  }

  function Run(p: Parser, events: seq<XmlEvent>, knownVars: set<string>, knownCts: set<string>): Result<Parser>
    decreases |events|
  {
    if |events| == 0 then Ok(p)
    else
      var p' :- Step(p, events[0], knownVars, knownCts);
      Run(p', events[1..], knownVars, knownCts)
  }

  /** What every reachable machine satisfies: the stack is non-empty exactly
      inside an unknown section, and only known names are recorded. */
  predicate Good(p: Parser, knownVars: set<string>, knownCts: set<string>, costs: map<ObjId, Double>) {
    (p.state == UnknownSection <==> |p.stack| > 0) && p.sol.solution.None? &&
    p.sol.var2val == map[] && p.sol.rng2dual == map[] && p.sol.rng2slack == map[] && p.sol.var2ReducedCost == costs &&
    p.sol.name2val.Keys <= knownVars && p.sol.name2ReducedCost.Keys <= knownVars &&
    p.sol.name2dual.Keys <= knownCts && p.sol.name2slack.Keys <= knownCts
  }

  lemma StepGood(p: Parser, ev: XmlEvent, knownVars: set<string>, knownCts: set<string>, costs: map<ObjId, Double>)
    requires Good(p, knownVars, knownCts, costs)
    requires Step(p, ev, knownVars, knownCts).Ok?
    ensures Good(Step(p, ev, knownVars, knownCts).value, knownVars, knownCts, costs)
  {
    match ev
    case Start(name, attrs) =>
      match p.state {
        case InSolution =>
          if name == "header" {
            var h := ReadHeader(p, attrs).value;
            assert h.sol.solution == p.sol.solution;
          }
        case Variables =>
        case LinearConstraints =>
        case _ =>
      }
    case End(name) =>
    case Other =>
  }

  lemma {:induction false} RunGood(p: Parser, events: seq<XmlEvent>, knownVars: set<string>, knownCts: set<string>, costs: map<ObjId, Double>)
    requires Good(p, knownVars, knownCts, costs)
    requires Run(p, events, knownVars, knownCts).Ok?
    ensures Good(Run(p, events, knownVars, knownCts).value, knownVars, knownCts, costs)
    decreases |events|
  {
    if |events| > 0 {
      StepGood(p, events[0], knownVars, knownCts, costs);
      var p' := Step(p, events[0], knownVars, knownCts).value;
      RunGood(p', events[1..], knownVars, knownCts, costs);
    }
  }

  /** The machine a parse starts from, over a reset solution object. */
  function StartOn(prior: Solution): Parser {
    Parser(Initial, [], -1, Reset(prior))
  }

  /** `Parse(stream, knownVariables, knownConstraints)` over the reader's
      node stream, as written: it starts from `Reset` and never stores the
      document text. */
  function Parse(prior: Solution, events: seq<XmlEvent>, knownVars: set<string>, knownCts: set<string>): (r: Result<Solution>)
    ensures r.Ok? ==> r.value.name2val.Keys <= knownVars && r.value.name2ReducedCost.Keys <= knownVars
    ensures r.Ok? ==> r.value.name2dual.Keys <= knownCts && r.value.name2slack.Keys <= knownCts
    ensures r.Ok? ==> !r.value.HasSolution()
    ensures r.Ok? ==> r.value.var2val == map[] && r.value.rng2dual == map[] && r.value.rng2slack == map[]
    ensures r.Ok? ==> r.value.var2ReducedCost == prior.var2ReducedCost
  {
    var p :- Run(StartOn(prior), events, knownVars, knownCts);
    RunGood(StartOn(prior), events, knownVars, knownCts, prior.var2ReducedCost);
    Ok(p.sol)
  }

  /** Apart from the reduced costs `Reset` leaves behind, the result of a
      parse depends only on the node stream and the known names. */
  lemma ParseIgnoresPrior(a: Solution, b: Solution, events: seq<XmlEvent>, knownVars: set<string>, knownCts: set<string>)
    requires a.var2ReducedCost == b.var2ReducedCost
    ensures Parse(a, events, knownVars, knownCts) == Parse(b, events, knownVars, knownCts)
  {
    assert StartOn(a) == StartOn(b);
  }

  /** No object-keyed entry yet: the state of a decoded solution before the
      engine moves it to objects. */
  predicate Untransferred(s: Solution) {
    s.var2val == map[] && s.var2ReducedCost == map[] && s.rng2dual == map[] && s.rng2slack == map[]
  }

  /** The reader's node stream for a document; reading XML text is the
      runtime's job, and malformed text makes it fail. */
  type Reader = string -> Result<seq<XmlEvent>>

  /** `new Solution(solutionXml, knownVariables, knownConstraints)` as
      written: the document text is never kept, so `HasSolution` is false. */
  function FromXml(xml: string, read: Reader, knownVars: set<string>, knownCts: set<string>): (r: Result<Solution>)
    ensures r.Ok? ==> !r.value.HasSolution()
    ensures r.Ok? ==> r.value.name2val.Keys <= knownVars && r.value.name2ReducedCost.Keys <= knownVars
    ensures r.Ok? ==> r.value.name2dual.Keys <= knownCts && r.value.name2slack.Keys <= knownCts
    ensures r.Ok? ==> Untransferred(r.value)
  {
    var events :- read(xml);
    Parse(Fresh, events, knownVars, knownCts)
  }

  /** The decoder as evidently intended: a parsed document keeps its text,
      so that it can be sent back as a warm start. */
  function FromXmlKeepingText(xml: string, read: Reader, knownVars: set<string>, knownCts: set<string>): (r: Result<Solution>)
    ensures r.Ok? ==> r.value.HasSolution() && r.value.solution == Some(xml)
    ensures r.Ok? ==> r.value.name2val.Keys <= knownVars && r.value.name2ReducedCost.Keys <= knownVars
    ensures r.Ok? ==> r.value.name2dual.Keys <= knownCts && r.value.name2slack.Keys <= knownCts
    ensures r.Ok? ==> Untransferred(r.value)
    ensures r.Ok? <==> FromXml(xml, read, knownVars, knownCts).Ok?
  {
    var s :- FromXml(xml, read, knownVars, knownCts);
    Ok(s.(solution := Some(xml)))
  }

  /** The first start tag must be `<CPLEXSolution>`. */
  lemma FirstTagMustBeSolution(prior: Solution, name: string, attrs: map<string, string>, rest: seq<XmlEvent>, knownVars: set<string>, knownCts: set<string>)
    requires name != "CPLEXSolution"
    ensures Parse(prior, [Start(name, attrs)] + rest, knownVars, knownCts) == Err(Malformed)
  {
    assert ([Start(name, attrs)] + rest)[0] == Start(name, attrs);
  }

  /** `<header/>` written self-closing leaves the machine in the header
      state, so a following `<quality>` is rejected. */
  lemma SelfClosingHeaderThenQuality(hdr: map<string, string>, q: map<string, string>, knownVars: set<string>, knownCts: set<string>)
    requires "objectiveValue" in hdr && "solutionStatusValue" in hdr && hdr["solutionStatusValue"] == "1"
    requires "primalFeasible" !in hdr && "dualFeasible" !in hdr
    ensures Parse(Fresh, [Start("CPLEXSolution", map[]), Start("header", hdr), Start("quality", q)], knownVars, knownCts) == Err(Malformed)
  {
    assert ParseInt("1") == Ok(1) by { ParseIntOfPrinted("1", 1); }
    var evs := [Start("CPLEXSolution", map[]), Start("header", hdr), Start("quality", q)];
    var p0 := StartOn(Fresh);
    var p1 := p0.(solnum := 0, state := InSolution, sol := p0.sol.(feasible := true));
    assert Step(p0, evs[0], knownVars, knownCts) == Ok(p1);
    var p2 := p1.(state := Header, sol := p1.sol.(objective := ParseDouble(hdr["objectiveValue"]), status := 1, pfeas := false, dfeas := false));
    assert ReadHeader(p1, hdr) == Ok(p2);
    assert Step(p1, evs[1], knownVars, knownCts) == Ok(p2);
    assert Run(p2, evs[2..], knownVars, knownCts) == Err(Malformed);
    assert evs[1..][1..] == evs[2..];
    assert Run(p1, evs[1..], knownVars, knownCts) == Err(Malformed);
  }

  /** `ReadHeader` on attributes whose values all parse. */
  lemma ReadHeaderParsed(p: Parser, attrs: map<string, string>, status: int, pfeas: bool, dfeas: bool)
    requires "objectiveValue" in attrs && "solutionStatusValue" in attrs
    requires ParseInt(attrs["solutionStatusValue"]) == Ok(status)
    requires Flag(Attr(attrs, "primalFeasible")) == Ok(pfeas) && Flag(Attr(attrs, "dualFeasible")) == Ok(dfeas)
    ensures ReadHeader(p, attrs) ==
            Ok(p.(state := Header, sol := p.sol.(objective := ParseDouble(attrs["objectiveValue"]), status := status,
                                                 pfeas := pfeas, dfeas := dfeas)))
  {
  }

  /** The header of `HeaderRecorded` read inside a solution. */
  lemma HeaderOfOnes(p: Parser, obj: string, hdr: map<string, string>, knownVars: set<string>, knownCts: set<string>)
    requires hdr == map["objectiveValue" := obj, "solutionStatusValue" := "1", "primalFeasible" := "1"]
    requires p.state == InSolution
    ensures Step(p, Start("header", hdr), knownVars, knownCts) ==
            Ok(p.(state := Header, sol := p.sol.(objective := Finite(obj), status := 1, pfeas := true, dfeas := false)))
  {
    ParseIntOfPrinted("1", 1);
    assert Flag(Some("1")) == Ok(true);
    assert Attr(hdr, "primalFeasible") == Some("1") && Attr(hdr, "dualFeasible") == None;
    ReadHeaderParsed(p, hdr, 1, true, false);
  }

  /** A complete header sets the objective, the status and the two
      feasibility flags from their attributes. */
  lemma HeaderRecorded(obj: string, hdr: map<string, string>, knownVars: set<string>, knownCts: set<string>)
    requires hdr == map["objectiveValue" := obj, "solutionStatusValue" := "1", "primalFeasible" := "1"]
    ensures var r := Parse(Fresh, [Start("CPLEXSolution", map[]), Start("header", hdr), End("header"), End("CPLEXSolution")], knownVars, knownCts);
            r.Ok? && r.value.feasible && r.value.objective == Finite(obj) && r.value.status == 1 &&
            r.value.pfeas && !r.value.dfeas
  {
    var evs := [Start("CPLEXSolution", map[]), Start("header", hdr), End("header"), End("CPLEXSolution")];
    var p0 := StartOn(Fresh);
    var p1 := p0.(solnum := 0, state := InSolution, sol := p0.sol.(feasible := true));
    assert Step(p0, evs[0], knownVars, knownCts) == Ok(p1);
    var p2 := p1.(state := Header, sol := p1.sol.(objective := Finite(obj), status := 1, pfeas := true, dfeas := false));
    HeaderOfOnes(p1, obj, hdr, knownVars, knownCts);
    HeaderClosed(p2, knownVars, knownCts);
    assert evs[1..][1..] == [End("header"), End("CPLEXSolution")];
    assert Run(p0, evs, knownVars, knownCts) == Ok(p2.(state := Finished));
  }

  lemma HeaderClosed(p: Parser, knownVars: set<string>, knownCts: set<string>)
    requires p.state == Header && p.stack == []
    ensures Run(p, [End("header"), End("CPLEXSolution")], knownVars, knownCts) == Ok(p.(state := Finished))
  {
    var evs := [End("header"), End("CPLEXSolution")];
    var p3 := p.(state := InSolution);
    var p4 := p.(state := Finished);
    assert Run(p4, evs[2..], knownVars, knownCts) == Ok(p4);
    assert Run(p3, evs[1..], knownVars, knownCts) == Ok(p4);
  }
}
