/** The CP engine's solve entry points and solution getters (ExternalCP):
    name the model, run the remote solve, re-key the decoded solution from
    names to objects, restore the names, and answer name-based queries. */
module CpSolver {
  import opened Wrappers
  import opened Num
  import opened ModelObjects
  import opened CpNames
  import opened CpSolution

  /** The engine's state: the object names with the rename table, the last
      decoded solution and the last status (null when the document had no
      status section). */
  datatype Engine = Engine(naming: Naming, result: Option<WmlSolution>, status: Option<Status>)

  /** The answers of the local CP Optimizer engine, used as the fallback
      when no remote result covers a query; they come from a foreign API. */
  datatype Local = Local(
    value: string -> Result<int>,
    start: string -> Result<int>,
    end: string -> Result<int>,
    size: string -> Result<int>,
    intValue: ObjId -> Result<int>,
    numValue: ObjId -> Result<Double>,
    numValues: seq<ObjId> -> Outcome)

  /** Resolves the interval names of a sequence; an unknown name becomes a
      null entry of the list. */
  function ResolveList(names: seq<string>, dict: map<string, ObjId>): (r: seq<Option<ObjId>>)
    ensures |r| == |names|
    ensures forall i :: 0 <= i < |names| ==> (r[i].Some? <==> names[i] in dict)
    ensures forall i :: 0 <= i < |names| && names[i] in dict ==> r[i] == Some(dict[names[i]])
  {
    seq(|names|, i requires 0 <= i < |names| => if names[i] in dict then Some(dict[names[i]]) else None)
  }

  /** The transfer of a decoded solution to object keys, section by section. */
  function Transfer(sol: WmlSolution, d: Dictionaries): (r: Result<WmlSolution>)
    ensures r.Ok? ==> sol.name2val.Keys <= d.intVars.Keys && sol.name2start.Keys <= d.intervalVars.Keys
    ensures r.Ok? ==> sol.name2nameList.Keys <= d.sequenceVars.Keys && sol.name2segmentList.Keys <= d.stateFunctions.Keys
    ensures r.Ok? ==> forall n :: n in sol.name2val ==> d.intVars[n] in r.value.var2val && r.value.var2val[d.intVars[n]] == sol.name2val[n]
    ensures r.Ok? ==> forall n :: n in sol.name2start ==> d.intervalVars[n] in r.value.var2start && r.value.var2start[d.intervalVars[n]] == sol.name2start[n]
    ensures r.Ok? ==> r.value.name2val == sol.name2val && r.value.name2start == sol.name2start && r.value.name2end == sol.name2end
    ensures r.Ok? ==> r.value.objectiveValues == sol.objectiveValues
  {
    var vals :- Rekey(map[], sol.name2val, d.intVars);
    var starts :- Rekey(map[], sol.name2start, d.intervalVars);
    var sizes :- Rekey(map[], sol.name2size, d.intervalVars);
    var ends :- Rekey(map[], sol.name2end, d.intervalVars);
    var resolved := map n | n in sol.name2nameList :: ResolveList(sol.name2nameList[n], d.intervalVars);
    var lists :- Rekey(map[], resolved, d.sequenceVars);
    var segments :- Rekey(map[], sol.name2segmentList, d.stateFunctions);
    Ok(sol.(var2val := vals, var2start := starts, var2size := sizes, var2end := ends,
            var2intervalList := lists, var2segmentList := segments))
  }

  predicate Succeeded(status: Option<Status>) {
    status == Some(Feasible) || status == Some(Optimal)
  }

  /** `Solve`: names the model, runs the external solve (its status text,
      possibly null, or its failure is `solveStatus`), clears the result,
      decodes the solution (`solution`), re-keys it and restores the names.
      The restore is on the normal path only: every exception leaves the
      model under its generated names.  A null status makes the comparison
      with "infeasible_solution" throw once the result is cleared.  The
      answer is whether the status is Feasible or Optimal; a document
      without a status makes that test throw, after the restore. */
  function Solve(e: Engine, m: CpModel, solveStatus: Result<Option<string>>, solution: Result<WmlSolution>): (r: (Engine, Result<bool>))
    ensures r.1.Ok? ==> (r.1.value <==> Succeeded(r.0.status))
    ensures r.1 == Ok(true) ==> solveStatus.Ok? && solveStatus.value.Some? && solution.Ok? && r.0.result.Some?
    ensures Build(m, e.naming.names).Ok? && solveStatus.Ok? && r.0.result.Some? ==>
              solution.Ok? && r.0.result.value.objectiveValues == solution.value.objectiveValues
              && r.0.result.value.name2val == solution.value.name2val
  {
    match Build(m, e.naming.names)
    case Err(msg) => (e, Err(msg))
    case Ok((st, d)) =>
      var restored := Naming(Restore(st), st.renamed);
      match solveStatus
      case Err(msg) => (e.(naming := st), Err(msg))
      case Ok(status) =>
        match Json.Deref(status)
        case Err(msg) => (Engine(st, None, e.status), Err(msg))
        case Ok(text) =>
          if text == "infeasible_solution" then
            (Engine(restored, None, Some(Infeasible)), Ok(false))
          else
            match solution
            case Err(msg) => (Engine(st, None, e.status), Err(msg))
            case Ok(sol) =>
              match Transfer(sol, d)
              case Err(msg) => (Engine(st, Some(sol), sol.solutionStatus), Err(msg))
              case Ok(keyed) =>
                if sol.solutionStatus.None? then (Engine(restored, Some(keyed), None), Err(Json.NullReference))
                else (Engine(restored, Some(keyed), sol.solutionStatus), Ok(Succeeded(sol.solutionStatus)))
  }

  /** On its normal return Solve gives every object its original name back,
      and answers true exactly for a Feasible or Optimal status. */
  lemma SolveRestoresNames(e: Engine, m: CpModel, solveStatus: Result<Option<string>>, solution: Result<WmlSolution>)
    requires Solve(e, m, solveStatus, solution).1.Ok?
    ensures var (e', res) := Solve(e, m, solveStatus, solution);
            SameNames(e'.naming.names, e.naming.names) && (res.value <==> Succeeded(e'.status))
  {
    assert Build(m, e.naming.names).Ok?;
    var st := Build(m, e.naming.names).value.0;
    assert solveStatus.Ok? && solveStatus.value.Some?;
    assert Solve(e, m, solveStatus, solution).0.naming == Naming(Restore(st), st.renamed);
    BuildThenRestore(m, e.naming.names);
  }

  /** "infeasible_solution" records Infeasible, keeps no result and
      answers false. */
  lemma SolveInfeasible(e: Engine, m: CpModel, solution: Result<WmlSolution>)
    requires Build(m, e.naming.names).Ok?
    ensures var (e', res) := Solve(e, m, Ok(Some("infeasible_solution")), solution);
            res == Ok(false) && e'.status == Some(Infeasible) && e'.result.None?
  {
  }

  /** A failing external solve leaves the model under its generated names:
      the restore is not in a `finally`. */
  lemma SolveFailureKeepsGeneratedNames(e: Engine, m: CpModel, msg: string, solution: Result<WmlSolution>)
    requires Build(m, e.naming.names).Ok?
    ensures Solve(e, m, Err(msg), solution).0.naming == Build(m, e.naming.names).value.0
  {
  }

  /** A null status text clears the previous result before the comparison
      throws: no getter can answer from an earlier solve, the status is
      untouched and the names stay generated. */
  lemma SolveNullStatusClearsResult(e: Engine, m: CpModel, solution: Result<WmlSolution>)
    requires Build(m, e.naming.names).Ok?
    ensures var (e', res) := Solve(e, m, Ok(None), solution);
            e'.result.None? && ObjValue(e') == Err(NoSolution) && e'.status == e.status &&
            e'.naming == Build(m, e.naming.names).value.0 && res == Err(Json.NullReference)
  {
  }

  /** A document without a status section makes Solve throw even though the
      solve itself went through. */
  lemma SolveWithoutStatusThrows(e: Engine, m: CpModel, text: string, sol: WmlSolution)
    requires Build(m, e.naming.names).Ok? && text != "infeasible_solution"
    requires Transfer(sol, Build(m, e.naming.names).value.1).Ok?
    requires sol.solutionStatus.None?
    ensures Solve(e, m, Ok(Some(text)), Ok(sol)).1.Err?
  {
  }

  /** `RefineConflict`: names the model, runs the external conflict refiner
      and decodes the solution; when it holds conflicts, the conflicting
      constraints are resolved (unknown names give null entries) and so are
      the conflicting intervals (an unknown name throws).  The names are not
      restored on any path. */
  function RefineConflict(e: Engine, m: CpModel, refineStatus: Result<string>, solution: Result<WmlSolution>): (r: (Engine, Result<bool>))
    ensures r.1.Ok? ==> solution.Ok? && (r.1.value <==> solution.value.hasConflicts)
    ensures r.1.Ok? ==> Build(m, e.naming.names).Ok? && r.0.naming == Build(m, e.naming.names).value.0
    ensures r.1.Ok? && r.1.value ==>
              r.0.result.Some? &&
              r.0.result.value.conflictingConstraintList.Keys == solution.value.conflictingConstraints.Keys &&
              r.0.result.value.conflictingIntervalVarsList.Keys == solution.value.conflictingIntervalVars.Keys
  {
    match Build(m, e.naming.names)
    case Err(msg) => (e, Err(msg))
    case Ok((st, d)) =>
      match refineStatus
      case Err(msg) => (e.(naming := st), Err(msg))
      case Ok(_) =>
        match solution
        case Err(msg) => (e.(naming := st), Err(msg))
        case Ok(sol) =>
          if !sol.hasConflicts then (Engine(st, Some(sol), sol.solutionStatus), Ok(false))
          else
            var cts := map n | n in sol.conflictingConstraints :: if n in d.constraints then Some(d.constraints[n]) else None;
            if !(sol.conflictingIntervalVars.Keys <= d.intervalVars.Keys) then
              (Engine(st, Some(sol.(conflictingConstraintList := cts)), sol.solutionStatus), Err(Json.NullReference))
            else
              var itvs := map n | n in sol.conflictingIntervalVars :: d.intervalVars[n];
              var sol' := sol.(conflictingConstraintList := cts, conflictingIntervalVarsList := itvs);
              (Engine(st, Some(sol'), sol.solutionStatus), Ok(true))
  }

  /** `ObjValue`: the first objective value. */
  function ObjValue(e: Engine): (r: Result<Double>)
    ensures e.result.None? ==> r == Err(NoSolution)
    ensures r.Ok? ==> e.result.Some? && |e.result.value.objectiveValues| > 0 && r.value == e.result.value.objectiveValues[0]
  {
    if e.result.None? then Err(NoSolution)
    else if |e.result.value.objectiveValues| == 0 then Err(IndexOutOfRange)
    else Ok(e.result.value.objectiveValues[0])
  }

  /** `getObjValues`: a copy of the objective values. */
  function ObjValues(e: Engine): (r: Result<seq<Double>>)
    ensures r.Ok? <==> e.result.Some?
    ensures r.Ok? ==> r.value == e.result.value.objectiveValues
  {
    if e.result.None? then Err(NoSolution) else Ok(e.result.value.objectiveValues)
  }

  /** A remote value for the name when there is a result that holds one,
      otherwise the local engine's answer. */
  function ByName(e: Engine, pick: WmlSolution -> map<string, Double>, name: string, fallback: string -> Result<int>): (r: Result<int>)
    ensures e.result.Some? && name in pick(e.result.value) ==> r == ToInt32(pick(e.result.value)[name])
    ensures e.result.None? || name !in pick(e.result.value) ==> r == fallback(name)
  {
    if e.result.Some? && name in pick(e.result.value) then ToInt32(pick(e.result.value)[name]) else fallback(name)
  }

  function Vals(s: WmlSolution): map<string, Double> { s.name2val }
  function Starts(s: WmlSolution): map<string, Double> { s.name2start }
  function Sizes(s: WmlSolution): map<string, Double> { s.name2size }
  function Ends(s: WmlSolution): map<string, Double> { s.name2end }

  /** `GetValue(String)`. */
  function GetValueByName(e: Engine, l: Local, name: string): (r: Result<int>)
    ensures CheckNoDuplicate(e.naming, name).Fail? ==> r == Err(DuplicateName + name)
    ensures CheckNoDuplicate(e.naming, name).Pass? ==> r == ByName(e, Vals, name, l.value)
  {
    if CheckNoDuplicate(e.naming, name).Fail? then Err(DuplicateName + name)
    else ByName(e, Vals, name, l.value)
  }

  /** `IsPresent`: false without a result, otherwise whether the interval
      has a start value. */
  function IsPresent(e: Engine, name: string): (r: Result<bool>)
    ensures CheckNoDuplicate(e.naming, name).Fail? ==> r == Err(DuplicateName + name)
    ensures r.Ok? ==> (r.value <==> e.result.Some? && name in e.result.value.name2start)
  {
    if CheckNoDuplicate(e.naming, name).Fail? then Err(DuplicateName + name)
    else Ok(e.result.Some? && name in e.result.value.name2start)
  }

  /** `IsAbsent`. */
  function IsAbsent(e: Engine, name: string): (r: Result<bool>)
    ensures CheckNoDuplicate(e.naming, name).Fail? ==> r == Err(DuplicateName + name)
  {
    if CheckNoDuplicate(e.naming, name).Fail? then Err(DuplicateName + name)
    else
      var present :- IsPresent(e, name);
      Ok(!present)
  }

  lemma AbsentIsNotPresent(e: Engine, name: string)
    ensures IsAbsent(e, name).Ok? <==> IsPresent(e, name).Ok?
    ensures IsAbsent(e, name).Ok? ==> IsAbsent(e, name).value == !IsPresent(e, name).value
  {
  }

  /** `GetEnd`. */
  function GetEnd(e: Engine, l: Local, name: string): (r: Result<int>)
    ensures CheckNoDuplicate(e.naming, name).Fail? ==> r == Err(DuplicateName + name)
    ensures CheckNoDuplicate(e.naming, name).Pass? ==> r == ByName(e, Ends, name, l.end)
  {
    if CheckNoDuplicate(e.naming, name).Fail? then Err(DuplicateName + name)
    else ByName(e, Ends, name, l.end)
  }

  /** `GetStart`: whether a remote value exists is decided by the END map,
      the value is then read from the start map (0 when it is missing). */
  function GetStart(e: Engine, l: Local, name: string): (r: Result<int>)
    ensures CheckNoDuplicate(e.naming, name).Fail? ==> r == Err(DuplicateName + name)
    ensures CheckNoDuplicate(e.naming, name).Pass? && e.result.Some? && name in e.result.value.name2end ==>
              r == (if name in e.result.value.name2start then ToInt32(e.result.value.name2start[name]) else Ok(0))
    ensures CheckNoDuplicate(e.naming, name).Pass? && (e.result.None? || name !in e.result.value.name2end) ==>
              r == l.start(name)
  {
    if CheckNoDuplicate(e.naming, name).Fail? then Err(DuplicateName + name)
    else if e.result.Some? && name in e.result.value.name2end then
      if name in e.result.value.name2start then ToInt32(e.result.value.name2start[name]) else Ok(0)
    else l.start(name)
  }

  /** A decoded interval is present in the end map exactly when it is in the
      start map, so the end-map test of GetStart is harmless on decoded
      solutions. */
  lemma GetStartOnDecoded(e: Engine, l: Local, name: string, doc: Json.JObject)
    requires e.result.Some? && CpSolution.Parse(doc) == Ok(e.result.value)
    requires CheckNoDuplicate(e.naming, name).Pass?
    ensures GetStart(e, l, name) == ByName(e, Starts, name, l.start)
  {
  }

  /** `GetSize`. */
  function GetSize(e: Engine, l: Local, name: string): (r: Result<int>)
    ensures CheckNoDuplicate(e.naming, name).Fail? ==> r == Err(DuplicateName + name)
    ensures CheckNoDuplicate(e.naming, name).Pass? ==> r == ByName(e, Sizes, name, l.size)
  {
    if CheckNoDuplicate(e.naming, name).Fail? then Err(DuplicateName + name)
    else ByName(e, Sizes, name, l.size)
  }

  /** `GetLength`: end minus start in 32-bit arithmetic; without a result
      the local engine's SIZE is returned. */
  function GetLength(e: Engine, l: Local, name: string): (r: Result<int>)
    ensures CheckNoDuplicate(e.naming, name).Fail? ==> r == Err(DuplicateName + name)
    ensures CheckNoDuplicate(e.naming, name).Pass? && e.result.None? ==> r == l.size(name)
    ensures e.result.Some? && r.Ok? ==>
              GetEnd(e, l, name).Ok? && GetStart(e, l, name).Ok? &&
              r.value == Wrap32(GetEnd(e, l, name).value - GetStart(e, l, name).value)
  {
    if CheckNoDuplicate(e.naming, name).Fail? then Err(DuplicateName + name)
    else if e.result.None? then l.size(name)
    else
      var end :- GetEnd(e, l, name);
      var start :- GetStart(e, l, name);
      Ok(Wrap32(end - start))
  }

  /** All seven name-based getters reject a name that was the original name
      of a renamed object. */
  lemma GettersRejectAmbiguousNames(e: Engine, l: Local, name: string, o: ObjId)
    requires o in e.naming.renamed && e.naming.renamed[o] == Some(name)
    ensures GetValueByName(e, l, name) == Err(DuplicateName + name)
    ensures IsPresent(e, name) == Err(DuplicateName + name)
    ensures IsAbsent(e, name) == Err(DuplicateName + name)
    ensures GetEnd(e, l, name) == Err(DuplicateName + name)
    ensures GetStart(e, l, name) == Err(DuplicateName + name)
    ensures GetSize(e, l, name) == Err(DuplicateName + name)
    ensures GetLength(e, l, name) == Err(DuplicateName + name)
  {
  }

  /** `GetIntValue(IIntVar)`. */
  function GetIntValue(e: Engine, l: Local, v: ObjId): (r: Result<int>)
    ensures e.result.Some? && v in e.result.value.var2val ==> r == ToInt32(e.result.value.var2val[v])
    ensures e.result.None? || v !in e.result.value.var2val ==> r == l.intValue(v)
  {
    if e.result.Some? && v in e.result.value.var2val then ToInt32(e.result.value.var2val[v]) else l.intValue(v)
  }

  /** `GetValue(INumVar)`. */
  function GetValue(e: Engine, l: Local, v: ObjId): (r: Result<Double>)
    ensures e.result.Some? && v in e.result.value.var2val ==> r == Ok(e.result.value.var2val[v])
    ensures e.result.None? || v !in e.result.value.var2val ==> r == l.numValue(v)
  {
    if e.result.Some? && v in e.result.value.var2val then Ok(e.result.value.var2val[v]) else l.numValue(v)
  }

  /** `GetValues(vars, vals)` with an output array of length `outLength`:
      without a result the local engine is asked first (and its answer then
      overwritten); the lengths must agree; element i is `GetValue(vars[i])`. */
  function GetValues(e: Engine, l: Local, vars: seq<ObjId>, outLength: nat): (r: Result<seq<Double>>)
    ensures r.Ok? ==> |vars| == outLength && |r.value| == |vars|
    ensures r.Ok? ==> forall i :: 0 <= i < |vars| ==> GetValue(e, l, vars[i]) == Ok(r.value[i])
    ensures e.result.Some? && |vars| != outLength ==> r == Err("InPut arrays Length mIsmatch")
    ensures e.result.None? && l.numValues(vars).Fail? ==> r == Err(l.numValues(vars).msg)
    ensures (e.result.Some? || !l.numValues(vars).Fail?) && |vars| == outLength ==>
              (r.Ok? <==> forall i :: 0 <= i < |vars| ==> GetValue(e, l, vars[i]).Ok?)
  {
    if e.result.None? && l.numValues(vars).Fail? then Err(l.numValues(vars).msg)
    else if |vars| != outLength then Err("InPut arrays Length mIsmatch")
    else AllValues(e, l, vars)
  }

  /** The copy loop: the first variable that cannot answer stops it with
      its own error. */
  function AllValues(e: Engine, l: Local, vars: seq<ObjId>): (r: Result<seq<Double>>)
    ensures r.Ok? <==> forall i :: 0 <= i < |vars| ==> GetValue(e, l, vars[i]).Ok?
    ensures r.Err? ==> exists i :: 0 <= i < |vars| && GetValue(e, l, vars[i]) == Err(r.msg) &&
                                   forall j :: 0 <= j < i ==> GetValue(e, l, vars[j]).Ok?
    ensures r.Ok? ==> |r.value| == |vars|
    ensures r.Ok? ==> forall i :: 0 <= i < |vars| ==> GetValue(e, l, vars[i]) == Ok(r.value[i])
  {
    if |vars| == 0 then Ok([])
    else
      var head :- GetValue(e, l, vars[0]);
      var tail :- AllValues(e, l, vars[1..]);
      Ok([head] + tail)
  }
}
