/** The CPLEX engine (`ExternalCplex`): name the model, run the external
    solve, move the decoded solution from names to objects, restore the
    names in all cases, and answer solution queries from the result. */
module CplexSolver {
  import opened Wrappers
  import opened Strs
  import opened Num
  import opened ModelObjects
  import opened CplexNames
  import opened CplexSolution
  import Relaxations
  import Conflicts

  /** The engine's state: the object names and the last result. */
  datatype Engine = Engine(names: Names, result: Option<Solution>)

  /** What `ExternalSolve` receives: the names as renamed (the directive
      files are written from them), the names of the variables and ranges
      the solver is told about, and the optional relaxation or conflict
      directive. */
  datatype SolveRequest = SolveRequest(
    names: Names,
    knownVars: set<string>,
    knownRanges: set<string>,
    relax: Option<Relaxations.Relaxations>,
    conflicts: Option<Conflicts.Conflicts>)

  /** The external solve, a hook a subclass provides. */
  type ExternalSolve = SolveRequest -> Result<Solution>

  const NotSupported := "Not supported by the CPLEX WML Connector"
  const BadCall := "Bad call to internal feasopt"
  const OnlyRangesFeasopt := "Only ranges are supported by the feasopt."
  const ProblemWithConflict := "Problem with conflict"

  /** The request `Process` sends once the model is named. */
  function Request(st: Renaming, relax: Option<Relaxations.Relaxations>, conflicts: Option<Conflicts.Conflicts>): SolveRequest {
    SolveRequest(st.names, st.vars.byName.Keys, st.rngs.byName.Keys, relax, conflicts)
  }

  /** Every recorded range gets an entry, 0.0 where none was decoded. */
  function ZeroFill(m: map<ObjId, Double>, keys: set<ObjId>): (r: map<ObjId, Double>)
    ensures r.Keys == m.Keys + keys
    ensures forall o :: o in m ==> r[o] == m[o]
    ensures forall o :: o in keys && o !in m ==> r[o] == Zero
  {
    map o | o in m.Keys + keys :: if o in m then m[o] else Zero
  }

  /** A decoded solution as `ExternalSolve` must return it: only known names,
      nothing keyed by object yet. */
  predicate Decoded(sol: Solution, req: SolveRequest) {
    Untransferred(sol) &&
    sol.name2val.Keys <= req.knownVars && sol.name2ReducedCost.Keys <= req.knownVars &&
    sol.name2dual.Keys <= req.knownRanges && sol.name2slack.Keys <= req.knownRanges
  }

  /** The transfer of values, reduced costs, duals and slacks from names to
      objects, in that order, with the zero-fill of duals and slacks. */
  function Transfer(sol: Solution, st: Renaming): (r: Result<Solution>)
    ensures r.Ok? ==> r.value.name2val == map[] && r.value.name2ReducedCost == map[] &&
                      r.value.name2dual == map[] && r.value.name2slack == map[]
    ensures r.Ok? ==> st.rngs.originals.Keys <= r.value.rng2dual.Keys && st.rngs.originals.Keys <= r.value.rng2slack.Keys
    ensures r.Ok? ==> sol.name2val.Keys <= st.vars.byName.Keys && sol.name2dual.Keys <= st.rngs.byName.Keys
    ensures r.Ok? ==> forall n :: n in sol.name2val ==>
                        st.vars.byName[n] in r.value.var2val && r.value.var2val[st.vars.byName[n]] == sol.name2val[n]
    ensures r.Ok? ==> forall n :: n in sol.name2dual ==>
                        st.rngs.byName[n] in r.value.rng2dual && r.value.rng2dual[st.rngs.byName[n]] == sol.name2dual[n]
    ensures r.Ok? ==>
              forall o :: o in st.rngs.originals && o !in sol.rng2dual &&
                          (forall n :: n in sol.name2dual ==> st.rngs.byName[n] != o) ==>
                r.value.rng2dual[o] == Zero
    ensures r.Ok? ==> r.value.solution == sol.solution
    ensures r.Ok? ==> r.value.feasible == sol.feasible && r.value.objective == sol.objective &&
                      r.value.status == sol.status && r.value.pfeas == sol.pfeas && r.value.dfeas == sol.dfeas
    ensures !(sol.name2val.Keys <= st.vars.byName.Keys) ==> r == Err(NullKey)
  {
    var vals :- Rekey(sol.var2val, sol.name2val, st.vars.byName);
    var costs :- Rekey(sol.var2ReducedCost, sol.name2ReducedCost, st.vars.byName);
    var duals :- Rekey(sol.rng2dual, sol.name2dual, st.rngs.byName);
    var slacks :- Rekey(sol.rng2slack, sol.name2slack, st.rngs.byName);
    Ok(sol.(var2val := vals, name2val := map[],
            var2ReducedCost := costs, name2ReducedCost := map[],
            rng2dual := ZeroFill(duals, st.rngs.originals.Keys), name2dual := map[],
            rng2slack := ZeroFill(slacks, st.rngs.originals.Keys), name2slack := map[]))
  }

  /** A solution decoded against the request's known names always
      transfers: every name resolves, and to a distinct object. */
  lemma TransferSucceeds(orig: Names, st: Renaming, sol: Solution)
    requires Wf(orig, st) && Decoded(sol, Request(st, None, None))
    ensures Transfer(sol, st).Ok?
  {
    ByNameOneToOne(orig, st.names, st.vars, "vv", NumVar, sol.name2val.Keys);
    ByNameOneToOne(orig, st.names, st.vars, "vv", NumVar, sol.name2ReducedCost.Keys);
    ByNameOneToOne(orig, st.names, st.rngs, "cc", Range, sol.name2dual.Keys);
    ByNameOneToOne(orig, st.names, st.rngs, "cc", Range, sol.name2slack.Keys);
    TransferOk(sol, st);
  }

  /** The transfer succeeds once every name map resolves one-to-one and no
      object is keyed yet. */
  lemma TransferOk(sol: Solution, st: Renaming)
    requires Untransferred(sol)
    requires sol.name2val.Keys <= st.vars.byName.Keys && OneToOne(sol.name2val.Keys, st.vars.byName)
    requires sol.name2ReducedCost.Keys <= st.vars.byName.Keys && OneToOne(sol.name2ReducedCost.Keys, st.vars.byName)
    requires sol.name2dual.Keys <= st.rngs.byName.Keys && OneToOne(sol.name2dual.Keys, st.rngs.byName)
    requires sol.name2slack.Keys <= st.rngs.byName.Keys && OneToOne(sol.name2slack.Keys, st.rngs.byName)
    ensures Transfer(sol, st).Ok?
  {
    assert Rekey(sol.var2val, sol.name2val, st.vars.byName).Ok?;
    assert Rekey(sol.var2ReducedCost, sol.name2ReducedCost, st.vars.byName).Ok?;
    assert Rekey(sol.rng2dual, sol.name2dual, st.rngs.byName).Ok?;
    assert Rekey(sol.rng2slack, sol.name2slack, st.rngs.byName).Ok?;
  }

  /** `Process`: naming, the external solve, the transfer; the `finally`
      restores the names on every path.  The result field is set as soon
      as the solve returns. */
  function Process(e: Engine, m: CplexModel, relax: Option<Relaxations.Relaxations>, conflicts: Option<Conflicts.Conflicts>, solve: ExternalSolve): (r: (Engine, Result<bool>))
    ensures SameNames(r.0.names, e.names)
    ensures (exists i :: 0 <= i < |m.elements| && m.elements[i].Unhandled?) ==> r.1.Err? && r.0.result == e.result
    ensures r.1.Ok? ==> r.0.result.Some? && r.1.value == r.0.result.value.feasible
    ensures r.1.Ok? ==> var s := r.0.result.value;
                        s.name2val == map[] && s.name2ReducedCost == map[] && s.name2dual == map[] && s.name2slack == map[]
    ensures r.1.Ok? ==> forall o :: o in RangesOf(m.elements) ==> o in r.0.result.value.rng2dual && o in r.0.result.value.rng2slack
  {
    var (st, failure) := Naming(e.names, m);
    NamingAssignsTags(e.names, m);
    RestoreUndoes(e.names, st);
    var restored := Restore(st);
    if failure.Some? then (Engine(restored, e.result), Err(failure.value))
    else
      match solve(Request(st, relax, conflicts))
      case Err(msg) => (Engine(restored, e.result), Err(msg))
      case Ok(sol) =>
        match Transfer(sol, st)
        case Err(msg) => (Engine(restored, Some(sol)), Err(msg))
        case Ok(done) =>
          assert forall o :: o in RangesOf(m.elements) ==> o in st.rngs.originals;
          (Engine(restored, Some(done)), Ok(done.feasible))
  }

  /** `Solve`: a plain solve succeeds whenever the model holds only
      supported elements and the external solve returns a solution decoded
      against the names it was given; it reports the decoded feasibility. */
  lemma SolveSucceeds(e: Engine, m: CplexModel, solve: ExternalSolve, sol: Solution)
    requires forall i :: 0 <= i < |m.elements| ==> !m.elements[i].Unhandled?
    requires var st := Naming(e.names, m).0;
             solve(Request(st, None, None)) == Ok(sol) && Decoded(sol, Request(st, None, None))
    ensures Process(e, m, None, None, solve).1 == Ok(sol.feasible)
  {
    var st := Naming(e.names, m).0;
    NamingAssignsTags(e.names, m);
    TransferSucceeds(e.names, st, sol);
  }

  /** The names given to the solver are exactly the assigned tags. */
  lemma RequestNamesAreTags(e: Engine, m: CplexModel)
    ensures var st := Naming(e.names, m).0;
            Request(st, None, None).knownVars == Known("vv", |Extend([], m.variables)|)
  {
    NamingAssignsTags(e.names, m);
  }

  // ---------------------------------------------------------------------
  // Queries

  function ObjValue(e: Engine): (r: Result<Double>)
    ensures e.result.None? <==> r == Err(NoSolution)
    ensures e.result.Some? ==> r == Ok(e.result.value.objective)
  {
    match e.result
    case None => Err(NoSolution)
    case Some(s) => Ok(s.objective)
  }

  /** The four per-object queries of the result. */
  datatype Query = Value | ReducedCost | Dual | Slack

  /** The object-keyed map a query reads. */
  function Table(s: Solution, q: Query): map<ObjId, Double> {
    match q
    case Value => s.var2val
    case ReducedCost => s.var2ReducedCost
    case Dual => s.rng2dual
    case Slack => s.rng2slack
  }

  /** The message for an object missing from the map. */
  function Unknown(q: Query, o: ObjId): string {
    match q
    case Value => "Impossible to query variable value: Unkown variable " + Describe(o) + " in the solution."
    case ReducedCost => "Impossible to Get the reduced cost: Unkown variable " + Describe(o) + " in the solution"
    case Dual => "Impossible to query dual for range: Unknown range " + Describe(o) + " in the solution"
    case Slack => "Impossible to query the slack for range " + Describe(o) + ": Unkown range in the solution"
  }

  /** `GetValue`, `GetReducedCost`, `GetDual` and `GetSlack`: no result
      fails first, then an object the solution does not mention. */
  function Ask(e: Engine, q: Query, o: ObjId): (r: Result<Double>)
    ensures e.result.None? ==> r == Err(NoSolution)
    ensures e.result.Some? ==> (r.Ok? <==> o in Table(e.result.value, q))
    ensures e.result.Some? && o !in Table(e.result.value, q) ==> r == Err(Unknown(q, o))
    ensures r.Ok? ==> r.value == Table(e.result.value, q)[o]
  {
    match e.result
    case None => Err(NoSolution)
    case Some(s) => if o in Table(s, q) then Ok(Table(s, q)[o]) else Err(Unknown(q, o))
  }

  /** After a successful solve every range of the model has a dual and a
      slack, so neither query fails on it. */
  lemma RangesAlwaysAnswered(e: Engine, m: CplexModel, relax: Option<Relaxations.Relaxations>, conflicts: Option<Conflicts.Conflicts>, solve: ExternalSolve, rg: ObjId)
    requires Process(e, m, relax, conflicts, solve).1.Ok? && rg in RangesOf(m.elements)
    ensures Ask(Process(e, m, relax, conflicts, solve).0, Dual, rg).Ok?
    ensures Ask(Process(e, m, relax, conflicts, solve).0, Slack, rg).Ok?
  {
  }

  /** Elements `i` with `from <= i < to`, each queried in turn; an index
      outside the array fails when it is reached. */
  function Each(e: Engine, q: Query, xs: seq<ObjId>, from: int, to: int): (r: Result<seq<Double>>)
    ensures r.Ok? <==> to <= from || (0 <= from && to <= |xs| && forall i :: from <= i < to ==> Ask(e, q, xs[i]).Ok?)
    ensures r.Ok? && to <= from ==> r.value == []
    ensures r.Ok? && from < to ==> 0 <= from && to <= |xs| && |r.value| == to - from &&
                                   forall i :: from <= i < to ==> r.value[i - from] == Ask(e, q, xs[i]).value
    decreases if to <= from then 0 else to - from
  {
    if to <= from then Ok([])
    else if from < 0 || from >= |xs| then Err(IndexOutOfRange)
    else
      var x :- Ask(e, q, xs[from]);
      var rest :- Each(e, q, xs, from + 1, to);
      assert forall k :: 1 <= k < |rest| + 1 ==> ([x] + rest)[k] == rest[k - 1];
      Ok([x] + rest)
  }

  /** `GetValues(v)`, `GetDuals(r)` and `GetSlacks(r)`: no result fails
      first, then each element is queried. */
  function All(e: Engine, q: Query, xs: seq<ObjId>): (r: Result<seq<Double>>)
    ensures e.result.None? ==> r == Err(NoSolution)
    ensures e.result.Some? ==> (r.Ok? <==> forall i :: 0 <= i < |xs| ==> xs[i] in Table(e.result.value, q))
    ensures r.Ok? ==> |r.value| == |xs| && forall i :: 0 <= i < |xs| ==> r.value[i] == Table(e.result.value, q)[xs[i]]
  {
    if e.result.None? then Err(NoSolution) else Each(e, q, xs, 0, |xs|)
  }

  function Bounds(what: string, from: int, to: int): string {
    what + ShowInt(from) + " " + ShowInt(to)
  }

  /** The element count `end - start` of the slice overloads, computed in
      unchecked 32-bit arithmetic: a reversed range far enough apart wraps
      round to a positive count. */
  function Span(from: int, to: int): int {
    Wrap32(to - from)
  }

  /** How the count falls for 32-bit bounds: it is the true difference
      unless that leaves the 32-bit range, and then it is 2^32 away. */
  lemma SpanCases(from: int, to: int)
    requires IsInt32(from) && IsInt32(to)
    ensures Span(from, to) == 0 <==> from == to
    ensures IsInt32(to - from) ==> Span(from, to) == to - from
    ensures to - from > IntMax ==> Span(from, to) == to - from - 0x1_0000_0000 < 0
    ensures to - from < IntMin ==> Span(from, to) == to - from + 0x1_0000_0000 > 0
  {
  }

  /** `GetValues(v, start, end)` and `GetReducedCosts(v, start, end)`: the
      count is checked, then each element is queried directly, without a
      first check for a missing result. When the count has wrapped round
      to a positive value the copy loop never runs and the zeros of the
      fresh array come back. */
  function SliceQuery(e: Engine, q: Query, xs: seq<ObjId>, from: int, to: int): (r: Result<seq<Double>>)
    requires IsInt32(from) && IsInt32(to)
    ensures to < from && IntMin <= to - from ==> r == Err(Bounds("Cannot Get reduced cost: ", from, to))
    ensures from < to && IntMax < to - from ==> r == Err(Bounds("Cannot Get reduced cost: ", from, to))
    ensures to == from ==> r == Ok([])
    ensures to - from < IntMin ==> r == Ok(seq(to - from + 0x1_0000_0000, _ => Zero))
    ensures from < to <= from + IntMax && e.result.None? && 0 <= from < |xs| ==> r == Err(NoSolution)
    ensures from < to <= from + IntMax ==>
              (r.Ok? <==> 0 <= from && to <= |xs| && forall i :: from <= i < to ==> Ask(e, q, xs[i]).Ok?)
    ensures r.Ok? && from < to ==> |r.value| == to - from && forall i :: from <= i < to ==> r.value[i - from] == Ask(e, q, xs[i]).value
  {
    SpanCases(from, to);
    var size := Span(from, to);
    if size < 0 then Err(Bounds("Cannot Get reduced cost: ", from, to))
    else if size == 0 then Ok([])
    else if to <= from then Ok(seq(size, _ => Zero))
    else Each(e, q, xs, from, to)
  }

  /** `GetValues(v, 2147483637, -2147483643)`: the count wraps round to 16,
      and sixteen zeros come back whatever the engine holds. */
  lemma WrappedSliceGivesZeros(e: Engine, q: Query, xs: seq<ObjId>)
    ensures SliceQuery(e, q, xs, 2147483637, -2147483643) == Ok(seq(16, _ => Zero))
  {
    SpanCases(2147483637, -2147483643);
  }

  /** The slice is copied out first; an index outside the array fails. */
  function Copy<T>(xs: seq<T>, from: int, to: int): (r: Result<seq<T>>)
    requires from <= to
    ensures r.Ok? <==> (0 <= from && to <= |xs|) || from == to
    ensures r.Ok? ==> |r.value| == to - from && forall i :: from <= i < to ==> r.value[i - from] == xs[i]
    ensures r.Err? ==> r.msg == IndexOutOfRange
  {
    if from == to then Ok([])
    else if 0 <= from && to <= |xs| then Ok(xs[from..to]) else Err(IndexOutOfRange)
  }

  /** `GetDuals(r, start, end)` and `GetSlacks(r, start, end)`: the count
      is checked, the slice copied, and the array getter applied to it.
      When the count has wrapped round to a positive value nothing is
      copied, and the getter meets a null range: without a result it fails
      first, otherwise the solution's dictionary refuses the null key. */
  function CopyQuery(e: Engine, q: Query, rs: seq<ObjId>, from: int, to: int): (r: Result<seq<Double>>)
    requires IsInt32(from) && IsInt32(to)
    ensures to < from && IntMin <= to - from ==> r == Err(Bounds("Cannot Get Duals: ", from, to))
    ensures from < to && IntMax < to - from ==> r == Err(Bounds("Cannot Get Duals: ", from, to))
    ensures to == from ==> r == Ok([])
    ensures to - from < IntMin ==> r == (if e.result.None? then Err(NoSolution) else Err(NullKey))
    ensures from < to <= from + IntMax && (from < 0 || to > |rs|) ==> r == Err(IndexOutOfRange)
    ensures from < to <= from + IntMax && 0 <= from && to <= |rs| ==> r == All(e, q, rs[from..to])
  {
    SpanCases(from, to);
    var size := Span(from, to);
    if size < 0 then Err(Bounds("Cannot Get Duals: ", from, to))
    else if size == 0 then Ok([])
    else if to <= from then (if e.result.None? then Err(NoSolution) else Err(NullKey))
    else
      var part :- Copy(rs, from, to);
      All(e, q, part)
  }

  /** Within the array, a slice answers what the whole array answers for
      the same elements, whichever of the two slice flavours is used. */
  lemma SliceAgreesWithWhole(e: Engine, q: Query, xs: seq<ObjId>, from: int, to: int)
    requires 0 <= from < to <= |xs| && IsInt32(to) && All(e, q, xs).Ok?
    ensures SliceQuery(e, q, xs, from, to) == Ok(All(e, q, xs).value[from..to])
    ensures CopyQuery(e, q, xs, from, to) == Ok(All(e, q, xs).value[from..to])
  {
    var whole := All(e, q, xs).value;
    var a := SliceQuery(e, q, xs, from, to);
    assert a.Ok?;
    assert a.value == whole[from..to];
    var b := All(e, q, xs[from..to]);
    assert forall i :: 0 <= i < to - from ==> xs[from..to][i] == xs[from + i];
    assert b.Ok?;
    assert b.value == whole[from..to];
  }

  /** Without a result both slice flavours report the missing solution:
      the direct one from its first element query, the copying one from
      the array getter. */
  lemma SlicesWithoutResult(e: Engine, q: Query, xs: seq<ObjId>, from: int, to: int)
    requires e.result.None? && 0 <= from < to <= |xs| && IsInt32(to)
    ensures SliceQuery(e, q, xs, from, to) == Err(NoSolution)
    ensures CopyQuery(e, q, xs, from, to) == Err(NoSolution)
  {
  }

  /** The solver status as the CPLEX library encodes it; turning the code
      into the library's enumeration is the library's business. */
  datatype CplexStatus = UnknownCplexStatus | CplexCode(code: int)

  /** The algorithm status the library derives from code and flags. */
  datatype AlgorithmStatus = UnknownStatus | Made(code: int, pfeas: bool, dfeas: bool)

  function GetCplexStatus(e: Engine): (r: CplexStatus)
    ensures e.result.None? <==> r == UnknownCplexStatus
    ensures e.result.Some? ==> r == CplexCode(e.result.value.status)
  {
    match e.result
    case None => UnknownCplexStatus
    case Some(s) => CplexCode(s.status)
  }

  function GetStatus(e: Engine): (r: AlgorithmStatus)
    ensures e.result.None? <==> r == UnknownStatus
    ensures e.result.Some? ==> r == Made(e.result.value.status, e.result.value.pfeas, e.result.value.dfeas)
  {
    match e.result
    case None => UnknownStatus
    case Some(s) => Made(s.status, s.pfeas, s.dfeas)
  }

  function IsPrimalFeasible(e: Engine): bool { false }
  function IsDualFeasible(e: Engine): bool { false }

  /** The feasibility queries answer false even when the decoded header
      flags say feasible. */
  lemma FeasibilityQueriesIgnoreFlags(e: Engine)
    requires e.result.Some? && e.result.value.pfeas && e.result.value.dfeas
    ensures !IsPrimalFeasible(e) && !IsDualFeasible(e)
    ensures GetStatus(e).pfeas && GetStatus(e).dfeas
  {
  }

  // ---------------------------------------------------------------------
  // FeasOpt and the conflict refiner

  /** The loop over constraints and preferences of `_feasOpt`. */
  function AddConstraints(rx: Relaxations.Relaxations, cts: seq<Constraint>, prefs: seq<Double>): (r: Result<Relaxations.Relaxations>)
    requires |prefs| == |cts|
    ensures r.Ok? <==> forall i :: 0 <= i < |cts| ==> cts[i].shape.RangeShape?
    ensures r.Err? ==> r.msg == OnlyRangesFeasopt
    ensures r.Ok? ==> Relaxations.Size(r.value) == Relaxations.Size(rx) + |cts|
    ensures r.Ok? ==> r.value.lb == rx.lb && r.value.ub == rx.ub
    decreases |cts|
  {
    if |cts| == 0 then Ok(rx)
    else
      var n := |cts| - 1;
      var front :- AddConstraints(rx, cts[..n], prefs[..n]);
      assert forall i :: 0 <= i < n ==> cts[..n][i] == cts[i];
      if cts[n].shape.RangeShape? then Relaxations.AddConstraint(front, cts[n], prefs[n])
      else Err(OnlyRangesFeasopt)
  }

  /** The loops over bounded ranges or variables of `_feasOpt`. */
  function AddAllBounds(rx: Relaxations.Relaxations, objs: seq<ObjId>, lbs: seq<Double>, ubs: seq<Double>): (r: Relaxations.Relaxations)
    requires |lbs| == |objs| && |ubs| == |objs|
    ensures Relaxations.Size(r) == Relaxations.Size(rx) + 2 * |objs|
    ensures r.rhs == rx.rhs && r.rng == rx.rng
    decreases |objs|
  {
    if |objs| == 0 then rx
    else
      var n := |objs| - 1;
      Relaxations.AddBounds(AddAllBounds(rx, objs[..n], lbs[..n], ubs[..n]), objs[n], lbs[n], ubs[n])
  }

  /** Array arguments that must come with matching bound arrays. */
  function Bounded(objs: Option<seq<ObjId>>, lbs: Option<seq<Double>>, ubs: Option<seq<Double>>, rx: Relaxations.Relaxations): (r: Result<Relaxations.Relaxations>)
    ensures objs.None? ==> r == Ok(rx)
    ensures objs.Some? ==>
              (r.Ok? <==> lbs.Some? && |lbs.value| == |objs.value| && ubs.Some? && |ubs.value| == |objs.value|)
    ensures r.Err? ==> r.msg == BadCall
    ensures r.Ok? && objs.Some? ==> Relaxations.Size(r.value) == Relaxations.Size(rx) + 2 * |objs.value|
  {
    match objs
    case None => Ok(rx)
    case Some(os) =>
      if lbs.None? || |lbs.value| != |os| || ubs.None? || |ubs.value| != |os| then Err(BadCall)
      else Ok(AddAllBounds(rx, os, lbs.value, ubs.value))
  }

  /** The argument checks and relaxation building of `_feasOpt`: with
      constraints, preferences must come in equal number and every
      constraint must be a range; without, there must be no preferences. */
  function BuildRelaxer(
    cts: Option<seq<Constraint>>, prefs: Option<seq<Double>>,
    ranges: Option<seq<ObjId>>, rlbs: Option<seq<Double>>, rubs: Option<seq<Double>>,
    vars: Option<seq<ObjId>>, vlbs: Option<seq<Double>>, vubs: Option<seq<Double>>): (r: Result<Relaxations.Relaxations>)
    ensures cts.Some? && (prefs.None? || |prefs.value| != |cts.value|) ==> r == Err(BadCall)
    ensures cts.None? && prefs.Some? ==> r == Err(BadCall)
    ensures cts.Some? && prefs.Some? && |prefs.value| == |cts.value| ==>
              (r.Ok? <==> forall i :: 0 <= i < |cts.value| ==> cts.value[i].shape.RangeShape?)
    ensures cts.Some? && r.Ok? ==> Relaxations.Size(r.value) == |cts.value| && r.value.lb == [] && r.value.ub == []
  {
    match cts
    case Some(cs) =>
      if prefs.None? || |prefs.value| != |cs| then Err(BadCall)
      else AddConstraints(Relaxations.Empty, cs, prefs.value)
    case None =>
      if prefs.Some? then Err(BadCall)
      else
        var withRanges :- Bounded(ranges, rlbs, rubs, Relaxations.Empty);
        Bounded(vars, vlbs, vubs, withRanges)
  }

  /** `FeasOpt(IConstraint[], double[])`, the one supported overload:
      failed checks leave the engine untouched; otherwise the relaxation is
      solved like a plain solve. */
  function FeasOpt(e: Engine, m: CplexModel, cts: Option<seq<Constraint>>, prefs: Option<seq<Double>>, solve: ExternalSolve): (r: (Engine, Result<bool>))
    ensures SameNames(r.0.names, e.names)
    ensures cts.Some? && (prefs.None? || |prefs.value| != |cts.value|) ==> r == (e, Err(BadCall))
    ensures cts.None? && prefs.Some? ==> r == (e, Err(BadCall))
    ensures cts.None? && prefs.None? ==> r == Process(e, m, Some(Relaxations.Empty), None, solve)
    ensures cts.Some? && prefs.Some? && |prefs.value| == |cts.value| &&
            (exists i :: 0 <= i < |cts.value| && !cts.value[i].shape.RangeShape?) ==>
              r == (e, Err(OnlyRangesFeasopt))
  {
    match BuildRelaxer(cts, prefs, None, None, None, None, None, None)
    case Err(msg) => (e, Err(msg))
    case Ok(rx) => Process(e, m, Some(rx), None, solve)
  }

  /** The other `FeasOpt` overloads, `GetConflict` and `RefineConflict`
      with whole arrays are refused. */
  function Unsupported<T>(): Result<T> { Err(NotSupported) }

  /** `GetConflict(cts, start, end)` and `RefineConflict(cts, prefs, start,
      end)`: after their own checks and copies they reach a refused call.
      A count that wrapped round to a positive value copies nothing and
      reaches the refused call too. */
  function RefineConflictSlice(cts: seq<Constraint>, prefs: seq<Double>, from: int, to: int): (r: Result<bool>)
    requires IsInt32(from) && IsInt32(to)
    ensures r.Err?
    ensures |prefs| != |cts| ==> r == Err(ProblemWithConflict)
    ensures to <= from && IntMin <= to - from ==> r == Err(ProblemWithConflict)
    ensures from < to && IntMax < to - from ==> r == Err(ProblemWithConflict)
    ensures |prefs| == |cts| && to - from < IntMin ==> r == Err(NotSupported)
    ensures |prefs| == |cts| && 0 <= from < to <= |cts| && to - from <= IntMax ==> r == Err(NotSupported)
  {
    SpanCases(from, to);
    var size := Span(from, to);
    if |prefs| != |cts| then Err(ProblemWithConflict)
    else if size <= 0 then Err(ProblemWithConflict)
    else if to <= from then Unsupported()
    else
      // both arrays are copied in one loop; being of equal length, they
      // fail on the same index
      var _ :- Copy(cts, from, to);
      Unsupported()
  }

  function GetConflictSlice(cts: seq<Constraint>, from: int, to: int): (r: Result<seq<bool>>)
    requires IsInt32(from) && IsInt32(to)
    ensures r.Err?
    ensures to <= from && IntMin <= to - from ==> r == Err(ProblemWithConflict)
    ensures from < to && IntMax < to - from ==> r == Err(ProblemWithConflict)
    ensures to - from < IntMin ==> r == Err(NotSupported)
    ensures 0 <= from < to <= |cts| && to - from <= IntMax ==> r == Err(NotSupported)
  {
    SpanCases(from, to);
    var size := Span(from, to);
    if size <= 0 then Err(ProblemWithConflict)
    else if to <= from then Unsupported()
    else
      var _ :- Copy(cts, from, to);
      Unsupported()
  }

  /** No public entry point reaches `Process` with a conflict set: the
      conflict directive is never built by this engine. */
  lemma ConflictRefinerUnreachable(cts: seq<Constraint>, prefs: seq<Double>, from: int, to: int)
    requires IsInt32(from) && IsInt32(to)
    ensures RefineConflictSlice(cts, prefs, from, to).Err?
    ensures Unsupported<bool>() == Err(NotSupported)
  {
  }
}
