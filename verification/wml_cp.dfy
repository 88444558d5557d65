/** `WmlCP`: the CP Optimizer engine that solves on the service.  A run
    exports the model, sends it as one job with the CPO command to the
    deployment named after the engine's configuration, keeps the job's
    solve status and solution text, then deletes the job and closes the
    token.  It shares the name format and the request events with the
    CPLEX engine. */
module WmlCP {
  import opened Wrappers
  import opened Strs
  import opened Num
  import opened Json
  import opened WmlHelper
  import Cr = Credentials
  import J = JobImpl
  import ConnectorImpl
  import CpSolution
  import CpNames
  import CpSolver
  import ModelObjects
  import WmlCplex

  /** The solve parameter naming the command the CPO worker runs, and the
      three commands. */
  const CpoCommand := "oaas.cpo.command"
  const SolveCommand := "Solve"
  const RefineConflictCommand := "RefineConflict"
  const PropagateCommand := "Propagate"

  const ModelSuffix := ".cpo"

  // ---------------------------------------------------------------------
  // Construction

  /** The deployment name: the CPO prefix, then the configuration. */
  function DeploymentName(runtime: Runtime, size: TShirtSize, nodes: int): (r: string)
    ensures StartsWith(r, CpoPrefix) && r[|CpoPrefix|..] == WmlCplex.Configuration(runtime, size, nodes)
  {
    assert (CpoPrefix + WmlCplex.Configuration(runtime, size, nodes))[..|CpoPrefix|] == CpoPrefix;
    CpoPrefix + WmlCplex.Configuration(runtime, size, nodes)
  }

  /** Two CP engines share a deployment only when runtime, size and node
      count all agree. */
  lemma DeploymentNameInjective(r1: Runtime, s1: TShirtSize, n1: int, r2: Runtime, s2: TShirtSize, n2: int)
    requires DeploymentName(r1, s1, n1) == DeploymentName(r2, s2, n2)
    ensures r1 == r2 && s1 == s2 && n1 == n2
  {
    WmlCplex.ConfigurationInjective(r1, s1, n1, r2, s2, n2);
  }

  /** A CP engine never looks up the deployment of a CPLEX engine. */
  lemma DeploymentsApartFromCplex(r1: Runtime, s1: TShirtSize, n1: int, r2: Runtime, s2: TShirtSize, n2: int)
    ensures DeploymentName(r1, s1, n1) != WmlCplex.DeploymentName(r2, s2, n2)
  {
    assert DeploymentName(r1, s1, n1)[2] == CpoPrefix[2];
    assert WmlCplex.DeploymentName(r2, s2, n2)[2] == CplexPrefix[2];
  }

  /** The engine: its connector, the deployment name, the minutes setting,
      the job of a run whose deletion failed, and the solution text of the
      last run. */
  datatype WmlCp = WmlCp(connector: ConnectorImpl.Connector, name: string, minutes: int,
                         job: Option<J.Job>, solution: Option<string>)

  /** The constructor: the connector (with the JSON result format), the
      name, then the minutes setting. */
  function NewWmlCp(creds: Cr.Credentials, runtime: Runtime, size: TShirtSize, nodes: int, config: Config)
    : (r: Result<WmlCp>)
    ensures var c := ConnectorImpl.NewConnector(creds, runtime, size, nodes, Some("JSON"), config);
            var minutes := ParseInt(GetSettingOrDefault(config, WmlCplex.TimeLimitSetting, WmlCplex.DefaultMinutes));
            (r.Ok? <==> c.Ok? && minutes.Ok?) && (c.Err? ==> r == Err(c.msg))
    ensures r.Ok? ==> r.value.connector.format == Some("JSON") && r.value.connector.nodes == nodes
                      && r.value.job.None? && r.value.solution.None?
    ensures r.Ok? ==> r.value.connector == ConnectorImpl.NewConnector(creds, runtime, size, nodes, Some("JSON"), config).value
    ensures r.Ok? ==> r.value.name == DeploymentName(runtime, size, nodes)
    ensures r.Ok? ==> r.value.minutes == ParseInt(GetSettingOrDefault(config, WmlCplex.TimeLimitSetting, WmlCplex.DefaultMinutes)).value
  {
    var c :- ConnectorImpl.NewConnector(creds, runtime, size, nodes, Some("JSON"), config);
    var minutes :- ParseInt(GetSettingOrDefault(config, WmlCplex.TimeLimitSetting, WmlCplex.DefaultMinutes));
    Ok(WmlCp(c, DeploymentName(runtime, size, nodes), minutes, None, None))
  }

  /** Without settings, an engine on a non-zero node count is made with a
      60-minute limit, which a run sets as 3,600 seconds. */
  lemma UnsetSettingsDefaults(creds: Cr.Credentials, runtime: Runtime, size: TShirtSize, nodes: int, config: Config)
    requires config == map[] && nodes != 0
    ensures var r := NewWmlCp(creds, runtime, size, nodes, config);
            r.Ok? && r.value.minutes == 60 && WmlCplex.SolveLimit(r.value.minutes) == 3_600
  {
    ConnectorImpl.UnsetSettingsDefaults(creds, runtime, size, nodes, Some("JSON"), config);
    WmlCplex.DefaultMinutesParse(GetSettingOrDefault(config, WmlCplex.TimeLimitSetting, WmlCplex.DefaultMinutes));
  }

  // ---------------------------------------------------------------------
  // A run

  /** What the engine knows before a run: whether the user left the time
      limit at its default, and how exporting the model went. */
  datatype Export = Export(limitAtDefault: bool, written: Outcome)

  /** The answers of the service and of the runtime, in the order a run
      needs them: the token, the deployment id, the job run to completion,
      the deletion, and the stack trace the runtime gives a failure. */
  datatype Service = Service(token: Outcome, deployment: Result<string>, run: Result<J.Job>,
                             deletion: Outcome, trace: string)

  /** The engine afterwards, the time limit the run set, the requests made
      and the solve status text (which the service may leave unset). */
  datatype CpRun = CpRun(engine: WmlCp, limitSet: Option<int>, events: seq<WmlCplex.Event>,
                         outcome: Result<Option<string>>)

  /** What a finished job yields: its solve status and its solution text;
      none when the job has no solve state or one of the reads fails. */
  function Answer(job: J.Job): (r: Option<(Option<string>, Option<string>)>)
    ensures r.Some? <==> J.HasSolveState(job) == Ok(true) && J.GetSolveStatus(job).Ok? && J.GetSolution(job).Ok?
    ensures r.Some? ==> r.value.0 == J.GetSolveStatus(job).value && r.value.1 == J.GetSolution(job).value
  {
    match J.HasSolveState(job)
    case Err(_) => None
    case Ok(solved) =>
      if !solved then None
      else
        match (J.GetSolveStatus(job), J.GetSolution(job))
        case (Ok(st), Ok(sol)) => Some((st, sol))
        case _ => None
  }

  /** The inner `try` block reaches the job run. */
  predicate Entered(ex: Export, sv: Service) {
    sv.token.Pass? && ex.written.Pass?
  }

  predicate Reached(ex: Export, sv: Service) {
    Entered(ex, sv) && sv.deployment.Ok?
  }

  /** The job the `finally` block finds in the field: the one just run, or
      one a previous run failed to delete. */
  function Pending(w: WmlCp, ex: Export, sv: Service): Option<J.Job> {
    if Reached(ex, sv) && sv.run.Ok? then Some(sv.run.value) else w.job
  }

  /** The payload of a run: the deployment's id, the model file as the
      only file, and the command as the only overridden parameter. */
  function Payload(w: WmlCp, deploymentId: string, command: string): WmlCplex.Event {
    WmlCplex.Sent(deploymentId, [w.name + ModelSuffix], [(CpoCommand, command)])
  }

  /** The inner `try` block and its `finally`, on the engine whose solution
      text has been cleared. */
  function Guarded(w: WmlCp, command: string, ex: Export, sv: Service, limit: Option<int>): (r: CpRun)
    requires Entered(ex, sv)
    ensures r.limitSet == limit && |r.events| > 0 && r.events[0] == WmlCplex.TokenRequested
    ensures Reached(ex, sv) ==> |r.events| > 1 && r.events[1] == Payload(w, sv.deployment.value, command)
    ensures r.outcome.Err? ==> r.outcome == Err(sv.trace)
    ensures r.outcome.Ok? ==> Reached(ex, sv) && sv.run.Ok? && Answer(sv.run.value).Some?
                              && r.outcome.value == Answer(sv.run.value).value.0
    ensures Reached(ex, sv) && sv.run.Ok? && Answer(sv.run.value).Some? && sv.deletion.Pass? ==> r.outcome.Ok?
    ensures r.engine.solution == (if Reached(ex, sv) && sv.run.Ok? && Answer(sv.run.value).Some?
                                  then Answer(sv.run.value).value.1 else w.solution)
    ensures r.engine.job.Some? ==> r.outcome.Err?
    ensures WmlCplex.TokenClosed in r.events <==> Pending(w, ex, sv).None? || sv.deletion.Pass?
    ensures WmlCplex.TokenClosed in r.events ==>
              r.engine.job.None? && r.events[|r.events| - 1] == WmlCplex.TokenClosed
    ensures Pending(w, ex, sv).Some? ==>
              WmlCplex.DeleteRequested(Pending(w, ex, sv).value.jobId) in r.events
              && (r.engine.job.None? <==> sv.deletion.Pass?)
  {
    var (field, sent, answer) :=
      match sv.deployment
      case Err(_) => (w, [], None)
      case Ok(id) =>
        var sent := [Payload(w, id, command)];
        match sv.run
        case Err(_) => (w, sent, None)
        case Ok(job) =>
          match Answer(job)
          case None => (w.(job := Some(job)), sent, None)
          case Some((st, sol)) => (w.(job := Some(job), solution := sol), sent, Some(st));
    var events := [WmlCplex.TokenRequested] + sent;
    var outcome := if answer.Some? then Ok(answer.value) else Err(sv.trace);
    match field.job
    case None => CpRun(field, limit, events + [WmlCplex.TokenClosed], outcome)
    case Some(j) =>
      match sv.deletion
      case Fail(_) => CpRun(field, limit, events + [WmlCplex.DeleteRequested(j.jobId)], Err(sv.trace))
      case Pass =>
        CpRun(field.(job := None), limit, events + [WmlCplex.DeleteRequested(j.jobId), WmlCplex.TokenClosed], outcome)
  }

  /** `ExternalProcess(command)`: the token is started (outside the
      handler, so its failure keeps its message), the solution text is
      cleared, a limit left at its default is set to the minutes times 60
      seconds, the model is exported, and the job is run, deleted and the
      token closed.  Every failure after the token is reported by its stack
      trace only. */
  function ExternalProcess(w: WmlCp, command: string, ex: Export, sv: Service): (r: CpRun)
    ensures sv.token.Fail? ==> r == CpRun(w, None, [WmlCplex.TokenRequested], Err(sv.token.msg))
    ensures |r.events| > 0 && r.events[0] == WmlCplex.TokenRequested
    ensures r.limitSet == (if sv.token.Pass? && ex.limitAtDefault then Some(WmlCplex.SolveLimit(w.minutes)) else None)
    ensures sv.token.Pass? && r.outcome.Err? ==> r.outcome == Err(sv.trace)
    ensures Reached(ex, sv) ==> |r.events| > 1 && r.events[1] == Payload(w, sv.deployment.value, command)
    ensures r.outcome.Ok? ==> Reached(ex, sv) && sv.run.Ok? && Answer(sv.run.value).Some? && sv.deletion.Pass?
                              && r.outcome.value == Answer(sv.run.value).value.0
                              && r.engine.solution == Answer(sv.run.value).value.1
    ensures Reached(ex, sv) && sv.run.Ok? && Answer(sv.run.value).Some? && sv.deletion.Pass? ==> r.outcome.Ok?
    ensures sv.token.Pass? && !(Reached(ex, sv) && sv.run.Ok? && Answer(sv.run.value).Some?) ==> r.engine.solution.None?
    ensures r.engine.job.Some? ==> r.outcome.Err?
    ensures WmlCplex.TokenClosed in r.events <==> Entered(ex, sv) && (Pending(w, ex, sv).None? || sv.deletion.Pass?)
    ensures Entered(ex, sv) && Pending(w, ex, sv).Some? ==>
              WmlCplex.DeleteRequested(Pending(w, ex, sv).value.jobId) in r.events
              && (r.engine.job.None? <==> sv.deletion.Pass?)
  {
    match sv.token
    case Fail(msg) => CpRun(w, None, [WmlCplex.TokenRequested], Err(msg))
    case Pass =>
      var cleared := w.(solution := None);
      var limit := if ex.limitAtDefault then Some(WmlCplex.SolveLimit(w.minutes)) else None;
      match ex.written
      case Fail(_) => CpRun(cleared, limit, [WmlCplex.TokenRequested], Err(sv.trace))
      case Pass => Guarded(cleared, command, ex, sv, limit)
  }

  /** `GetSolution`: the kept text decoded, or an empty solution when the
      last run kept none.  Parsing JSON text is the runtime's job. */
  function GetSolution(w: WmlCp, parse: string -> Result<JObject>): (r: Result<CpSolution.WmlSolution>)
    ensures w.solution.None? ==> r == Ok(CpSolution.Empty)
    ensures w.solution.Some? && r.Ok? ==>
              parse(w.solution.value).Ok? && CpSolution.Parse(parse(w.solution.value).value) == r
    ensures w.solution.Some? && parse(w.solution.value).Err? ==> r == Err(parse(w.solution.value).msg)
  {
    match w.solution
    case None => Ok(CpSolution.Empty)
    case Some(text) =>
      var doc :- parse(text);
      CpSolution.Parse(doc)
  }

  /** `End`: a job left in the field is deleted, then the token is ended;
      as for the CPLEX engine, a failed deletion escapes the handler. */
  function End(w: WmlCp, deletion: Outcome): (r: (seq<WmlCplex.Event>, Outcome))
    ensures w.job.None? ==> r == ([WmlCplex.TokenEnded], Pass)
    ensures w.job.Some? ==> |r.0| > 0 && r.0[0] == WmlCplex.DeleteRequested(w.job.value.jobId)
    ensures WmlCplex.TokenEnded in r.0 <==> w.job.None? || deletion.Pass?
    ensures r.1 == (if w.job.Some? then deletion else Pass)
  {
    match w.job
    case None => ([WmlCplex.TokenEnded], Pass)
    case Some(j) =>
      match deletion
      case Fail(msg) => ([WmlCplex.DeleteRequested(j.jobId)], Fail(msg))
      case Pass => ([WmlCplex.DeleteRequested(j.jobId), WmlCplex.TokenEnded], Pass)
  }

  // ---------------------------------------------------------------------
  // The CP engine's entry points

  /** `Solve` on this engine: the model's names are checked first; then the
      status is reset to Error, the run is made with the Solve command, and
      the CP engine reads the status and the solution. */
  function Solve(e: CpSolver.Engine, m: CpNames.CpModel, w: WmlCp, ex: Export, sv: Service,
                 parse: string -> Result<JObject>): (r: (CpSolver.Engine, CpRun, Result<bool>))
    ensures CpNames.Build(m, e.naming.names).Err? ==> r.0 == e && r.1.engine == w && r.2.Err?
    ensures CpNames.Build(m, e.naming.names).Ok? ==> r.1 == ExternalProcess(w, SolveCommand, ex, sv)
    ensures CpNames.Build(m, e.naming.names).Ok? && r.1.outcome.Err? ==>
              r.0.status == Some(CpSolution.Error) && r.2 == Err(r.1.outcome.msg)
    ensures r.2.Ok? ==> (r.2.value <==> CpSolver.Succeeded(r.0.status))
    ensures r.2 == Ok(true) ==> r.1.outcome.Ok? && r.1.outcome.value.Some? && r.0.result.Some?
  {
    match CpNames.Build(m, e.naming.names)
    case Err(msg) => (e, CpRun(w, None, [], Err(msg)), Err(msg))
    case Ok(_) =>
      var run := ExternalProcess(w, SolveCommand, ex, sv);
      var (e', res) := CpSolver.Solve(e.(status := Some(CpSolution.Error)), m, run.outcome,
                                      GetSolution(run.engine, parse));
      (e', run, res)
  }

  /** `RefineConflict` on this engine: the same run with the RefineConflict
      command; the status text is only logged, so an unset one is fine. */
  function RefineConflict(e: CpSolver.Engine, m: CpNames.CpModel, w: WmlCp, ex: Export, sv: Service,
                          parse: string -> Result<JObject>): (r: (CpSolver.Engine, CpRun, Result<bool>))
    ensures CpNames.Build(m, e.naming.names).Err? ==> r.0 == e && r.1.engine == w && r.2.Err?
    ensures CpNames.Build(m, e.naming.names).Ok? ==> r.1 == ExternalProcess(w, RefineConflictCommand, ex, sv)
    ensures CpNames.Build(m, e.naming.names).Ok? && r.1.outcome.Err? ==>
              r.0.status == Some(CpSolution.Error) && r.2 == Err(r.1.outcome.msg)
    ensures r.2.Ok? ==> r.1.outcome.Ok? && GetSolution(r.1.engine, parse).Ok?
                        && (r.2.value <==> GetSolution(r.1.engine, parse).value.hasConflicts)
  {
    match CpNames.Build(m, e.naming.names)
    case Err(msg) => (e, CpRun(w, None, [], Err(msg)), Err(msg))
    case Ok(_) =>
      var run := ExternalProcess(w, RefineConflictCommand, ex, sv);
      var status := match run.outcome case Err(msg) => Err(msg) case Ok(st) => Ok(st.GetOr(""));
      var (e', res) := CpSolver.RefineConflict(e.(status := Some(CpSolution.Error)), m, status,
                                               GetSolution(run.engine, parse));
      (e', run, res)
  }

  // ---------------------------------------------------------------------
  // Properties of a run

  /** The command reaches the job's solve parameters: it is no default
      parameter, so the connector accepts it and puts it after the four
      defaults. */
  lemma CommandOverrideAccepted(c: ConnectorImpl.Connector, command: string)
    ensures var ps := ConnectorImpl.SolveParameters(c, [(CpoCommand, command)]);
            ps.Ok? && |ps.value| == 5 && ps.value[4] == (CpoCommand, Json.JStr(command))
  {
    var defaults := ConnectorImpl.Defaults(c);
    assert CpoCommand !in ConnectorImpl.PropKeys(defaults) by {
      assert CpoCommand != ConnectorImpl.LogTail && CpoCommand != ConnectorImpl.IncludeInput;
      assert CpoCommand != ConnectorImpl.ResultsFormat && CpoCommand != ConnectorImpl.EngineLogLevel;
    }
  }

  /** A run that solves and reads its answer but has no solution output
      leaves an empty solution, which has no status: `Solve` then fails
      even though the service answered. */
  lemma NoSolutionOutputFails(e: CpSolver.Engine, m: CpNames.CpModel, w: WmlCp, ex: Export, sv: Service,
                              parse: string -> Result<JObject>)
    requires CpNames.Build(m, e.naming.names).Ok?
    requires Reached(ex, sv) && sv.run.Ok? && sv.deletion.Pass?
    requires Answer(sv.run.value).Some? && Answer(sv.run.value).value.1.None?
    requires Answer(sv.run.value).value.0 != Some("infeasible_solution")
    ensures Solve(e, m, w, ex, sv, parse).2.Err?
  {
    var run := ExternalProcess(w, SolveCommand, ex, sv);
    var reset := e.(status := Some(CpSolution.Error));
    var d := CpNames.Build(m, e.naming.names).value.1;
    assert GetSolution(run.engine, parse) == Ok(CpSolution.Empty);
    match Answer(sv.run.value).value.0
    case None =>
    case Some(text) =>
      EmptyTransfers(d);
      CpSolver.SolveWithoutStatusThrows(reset, m, text, CpSolution.Empty);
  }

  /** A run whose answer has no solve status, or a null one, clears the
      engine's previous result: the CP engine's getters then answer
      "No solution available" instead of the previous solve's values. */
  lemma RunWithoutStatusClearsResult(e: CpSolver.Engine, m: CpNames.CpModel, w: WmlCp, ex: Export, sv: Service,
                                     parse: string -> Result<JObject>)
    requires CpNames.Build(m, e.naming.names).Ok?
    requires ExternalProcess(w, SolveCommand, ex, sv).outcome == Ok(None)
    ensures var (e', _, res) := Solve(e, m, w, ex, sv, parse);
            e'.result.None? && CpSolver.ObjValue(e') == Err(ModelObjects.NoSolution) &&
            e'.naming == CpNames.Build(m, e.naming.names).value.0 && res == Err(NullReference)
  {
    var run := ExternalProcess(w, SolveCommand, ex, sv);
    CpSolver.SolveNullStatusClearsResult(e.(status := Some(CpSolution.Error)), m, GetSolution(run.engine, parse));
  }

  /** The empty solution has nothing to re-key. */
  lemma EmptyTransfers(d: CpNames.Dictionaries)
    ensures CpSolver.Transfer(CpSolution.Empty, d).Ok?
  {
    var e := CpSolution.Empty;
    var none: map<string, seq<Option<ModelObjects.ObjId>>> := map[];
    assert (map n | n in e.name2nameList :: CpSolver.ResolveList(e.name2nameList[n], d.intervalVars)) == none;
    ModelObjects.RekeyNothing(map[], e.name2val, d.intVars);
    ModelObjects.RekeyNothing(map[], e.name2start, d.intervalVars);
    ModelObjects.RekeyNothing(map[], e.name2size, d.intervalVars);
    ModelObjects.RekeyNothing(map[], e.name2end, d.intervalVars);
    ModelObjects.RekeyNothing(map[], none, d.sequenceVars);
    ModelObjects.RekeyNothing(map[], e.name2segmentList, d.stateFunctions);
  }

  /** A run whose deletion fails reports the trace, keeps the job, and the
      engine's `End` first asks again for its deletion. */
  lemma UndeletedJobRetriedAtEnd(w: WmlCp, command: string, ex: Export, sv: Service, deletion: Outcome)
    requires Entered(ex, sv) && Pending(w, ex, sv).Some? && sv.deletion.Fail?
    ensures var run := ExternalProcess(w, command, ex, sv);
            run.outcome == Err(sv.trace) && run.engine.job == Pending(w, ex, sv)
            && End(run.engine, deletion).0[0] == WmlCplex.DeleteRequested(Pending(w, ex, sv).value.jobId)
  {
  }
}
