/** `WmlCplex`: the CPLEX engine that solves on the service.  A solve
    exports the model and its side files, sends them as one job to the
    deployment named after the engine's configuration, decodes the job's
    answer, and then deletes the job and closes the token. */
module WmlCplex {
  import opened Wrappers
  import opened Strs
  import opened Num
  import opened Json
  import opened WmlHelper
  import Cr = Credentials
  import J = JobImpl
  import ConnectorImpl
  import opened ModelObjects
  import opened CplexSolution
  import CplexSolver
  import CplexNames
  import Relaxations
  import Conflicts

  const FormatSetting := "wmlconnector.v4.cplex_format"
  const TimeLimitSetting := "wmlconnector.v4.time_limit"
  const DefaultFormat := ".sav.gz"
  const DefaultMinutes := "60"
  const BothDirectives := "Cannot run CPLEX with both relaxer and conflicts."
  const InfeasibleSolution := "infeasible_solution"

  /** `CplexStatus.Infeasible` and `CplexStatus.Unknown` of the CPLEX API. */
  const InfeasibleStatus := 3
  const UnknownStatus := 0

  // ---------------------------------------------------------------------
  // Construction

  /** How the runtime prints the `Runtime` and `TShirtSize` enum values. */
  function RuntimeName(r: Runtime): string {
    match r
    case Do12_9 => "DO_12_9"
    case Do12_10 => "DO_12_10"
    case Do20_1 => "DO_20_1"
    case Do22_1 => "DO_22_1"
  }

  function SizeName(s: TShirtSize): string {
    match s
    case S => "S"
    case M => "M"
    case XL => "XL"
  }

  /** The engine configuration as it appears in deployment names:
      runtime, size and node count joined by dots. */
  function Configuration(runtime: Runtime, size: TShirtSize, nodes: int): string {
    RuntimeName(runtime) + "." + SizeName(size) + "." + ShowInt(nodes)
  }

  /** The deployment name: the CPLEX prefix, then the configuration. */
  function DeploymentName(runtime: Runtime, size: TShirtSize, nodes: int): (r: string)
    ensures StartsWith(r, CplexPrefix) && r[|CplexPrefix|..] == Configuration(runtime, size, nodes)
  {
    assert (CplexPrefix + Configuration(runtime, size, nodes))[..|CplexPrefix|] == CplexPrefix;
    CplexPrefix + Configuration(runtime, size, nodes)
  }

  /** The default time limit as the constructor stores it: the minutes
      setting times 60 times 1000, in unchecked 32-bit arithmetic. */
  function StoredLimit(minutes: int): (r: int)
    ensures IsInt32(r) && (r - minutes * 60000) % 0x1_0000_0000 == 0
    ensures IsInt32(minutes * 60000) ==> r == minutes * 60000
  {
    var seconds := Wrap32(minutes * 60);
    ThousandfoldCongruence(seconds, minutes * 60);
    var r := Wrap32(seconds * 1000);
    CongruenceTransitive(r, seconds * 1000, minutes * 60000);
    assert IsInt32(minutes * 60000) ==> IsInt32(minutes * 60);
    r
  }

  /** Multiplying by 1000 keeps two numbers congruent modulo 2^32. */
  lemma ThousandfoldCongruence(y: int, x: int)
    requires (y - x) % 0x1_0000_0000 == 0
    ensures (y * 1000 - x * 1000) % 0x1_0000_0000 == 0
  {
    var k := (y - x) / 0x1_0000_0000;
    assert y - x == k * 0x1_0000_0000;
    assert y * 1000 - x * 1000 == (k * 1000) * 0x1_0000_0000;
  }

  lemma CongruenceTransitive(a: int, b: int, c: int)
    requires (a - b) % 0x1_0000_0000 == 0 && (b - c) % 0x1_0000_0000 == 0
    ensures (a - c) % 0x1_0000_0000 == 0
  {
    var k := (a - b) / 0x1_0000_0000;
    var j := (b - c) / 0x1_0000_0000;
    assert a - c == (k + j) * 0x1_0000_0000;
  }

  /** The engine: its connector, the deployment name, the export format,
      the minutes setting and the limit stored from it, and the job of a
      solve whose deletion failed. */
  datatype WmlCplex = WmlCplex(connector: ConnectorImpl.Connector, name: string, exportFormat: string,
                               minutes: int, timeLimit: int, job: Option<J.Job>)

  /** The constructor: the connector (with the XML result format), the
      name, then the two settings. */
  function NewWmlCplex(creds: Cr.Credentials, runtime: Runtime, size: TShirtSize, nodes: int, config: Config)
    : (r: Result<WmlCplex>)
    ensures var c := ConnectorImpl.NewConnector(creds, runtime, size, nodes, Some("XML"), config);
            var minutes := ParseInt(GetSettingOrDefault(config, TimeLimitSetting, DefaultMinutes));
            (r.Ok? <==> c.Ok? && minutes.Ok?) && (c.Err? ==> r == Err(c.msg))
    ensures r.Ok? ==> r.value.connector.format == Some("XML") && r.value.connector.nodes == nodes
                      && r.value.job.None?
    ensures r.Ok? ==> r.value.connector == ConnectorImpl.NewConnector(creds, runtime, size, nodes, Some("XML"), config).value
    ensures r.Ok? ==> r.value.name == DeploymentName(runtime, size, nodes)
    ensures r.Ok? ==> r.value.exportFormat == GetSettingOrDefault(config, FormatSetting, DefaultFormat)
    ensures r.Ok? ==> r.value.minutes == ParseInt(GetSettingOrDefault(config, TimeLimitSetting, DefaultMinutes)).value
                      && IsInt32(r.value.timeLimit)
                      && (IsInt32(r.value.minutes * 60000) ==> r.value.timeLimit == r.value.minutes * 60000)
  {
    var c :- ConnectorImpl.NewConnector(creds, runtime, size, nodes, Some("XML"), config);
    var format := GetSettingOrDefault(config, FormatSetting, DefaultFormat);
    var minutes :- ParseInt(GetSettingOrDefault(config, TimeLimitSetting, DefaultMinutes));
    Ok(WmlCplex(c, DeploymentName(runtime, size, nodes), format, minutes, StoredLimit(minutes), None))
  }

  /** Without settings, an engine on a non-zero node count is made with
      the compressed SAV export and a 60-minute limit stored as 3,600,000
      milliseconds. */
  lemma UnsetSettingsDefaults(creds: Cr.Credentials, runtime: Runtime, size: TShirtSize, nodes: int, config: Config)
    requires config == map[] && nodes != 0
    ensures var r := NewWmlCplex(creds, runtime, size, nodes, config);
            r.Ok? && r.value.exportFormat == ".sav.gz" && r.value.minutes == 60 && r.value.timeLimit == 3_600_000
  {
    ConnectorImpl.UnsetSettingsDefaults(creds, runtime, size, nodes, Some("XML"), config);
    DefaultMinutesParse(GetSettingOrDefault(config, TimeLimitSetting, DefaultMinutes));
  }

  lemma DefaultMinutesParse(s: string)
    requires s == DefaultMinutes
    ensures ParseInt(s) == Ok(60)
  {
    ParseIntOfPrinted(s, 60);
  }

  // ---------------------------------------------------------------------
  // Distinct configurations, distinct deployments

  predicate NoDot(t: string) {
    forall i :: 0 <= i < |t| ==> t[i] != '.'
  }

  lemma EnumNamesHaveNoDot(r: Runtime, s: TShirtSize)
    ensures NoDot(RuntimeName(r)) && NoDot(SizeName(s))
  {
  }

  /** In a text without dots, the first dot after it is the separator. */
  lemma FirstDot(a: string, b: string)
    requires NoDot(a)
    ensures IndexOf(a + "." + b, ".") == |a|
  {
    var s := a + "." + b;
    assert OccursAt(s, ".", |a|) by { assert s[|a|..|a| + 1] == "."; }
    forall j | 0 <= j < |a| ensures !OccursAt(s, ".", j) {
      assert s[j..j + 1][0] == a[j];
    }
  }

  /** Two dotted pairs whose heads have no dot are equal only part by
      part. */
  lemma DottedApart(a: string, b: string, c: string, d: string)
    requires NoDot(a) && NoDot(c)
    requires a + "." + b == c + "." + d
    ensures a == c && b == d
  {
    FirstDot(a, b);
    FirstDot(c, d);
    assert a == (a + "." + b)[..|a|];
    assert c == (c + "." + d)[..|c|];
    assert b == (a + "." + b)[|a| + 1..];
    assert d == (c + "." + d)[|c| + 1..];
  }

  lemma ShowIntSign(n: int)
    ensures |ShowInt(n)| > 0 && (ShowInt(n)[0] == '-' <==> n < 0)
  {
    if n >= 0 {
      assert IsDigit(NatToString(n)[0]);
    }
  }

  lemma ShowIntInjective(a: int, b: int)
    requires ShowInt(a) == ShowInt(b)
    ensures a == b
  {
    ShowIntSign(a);
    ShowIntSign(b);
    assert (a < 0) == (b < 0);
    if a < 0 {
      assert NatToString(-a) == ShowInt(a)[1..] && NatToString(-b) == ShowInt(b)[1..];
      NatToStringInjective(-a, -b);
    } else {
      NatToStringInjective(a, b);
    }
  }

  /** The configuration grouped as the runtime, a dot and the rest. */
  lemma ConfigurationParts(r: Runtime, s: TShirtSize, n: int)
    ensures Configuration(r, s, n) == RuntimeName(r) + "." + (SizeName(s) + "." + ShowInt(n))
  {
  }

  /** Distinct configurations are written differently. */
  lemma ConfigurationInjective(r1: Runtime, s1: TShirtSize, n1: int, r2: Runtime, s2: TShirtSize, n2: int)
    requires Configuration(r1, s1, n1) == Configuration(r2, s2, n2)
    ensures r1 == r2 && s1 == s2 && n1 == n2
  {
    ConfigurationParts(r1, s1, n1);
    ConfigurationParts(r2, s2, n2);
    EnumNamesHaveNoDot(r1, s1);
    EnumNamesHaveNoDot(r2, s2);
    DottedApart(RuntimeName(r1), SizeName(s1) + "." + ShowInt(n1), RuntimeName(r2), SizeName(s2) + "." + ShowInt(n2));
    DottedApart(SizeName(s1), ShowInt(n1), SizeName(s2), ShowInt(n2));
    ShowIntInjective(n1, n2);
  }

  /** The deployment is looked up by name, so two engines share a
      deployment only when runtime, size and node count all agree. */
  lemma DeploymentNameInjective(r1: Runtime, s1: TShirtSize, n1: int, r2: Runtime, s2: TShirtSize, n2: int)
    requires DeploymentName(r1, s1, n1) == DeploymentName(r2, s2, n2)
    ensures r1 == r2 && s1 == s2 && n1 == n2
  {
    ConfigurationInjective(r1, s1, n1, r2, s2, n2);
  }

  // ---------------------------------------------------------------------
  // The time limit of a solve

  /** The limit in seconds a solve sets when the user left the CPLEX time
      limit at its default, as written: the stored milliseconds times 60,
      in unchecked arithmetic. */
  function SolveLimitAsWritten(minutes: int): (r: int)
    ensures IsInt32(r) && (r - StoredLimit(minutes) * 60) % 0x1_0000_0000 == 0
  {
    Wrap32(StoredLimit(minutes) * 60)
  }

  /** The limit as evidently intended, and as the CP Optimizer engine
      computes it from the same setting: the minutes times 60 seconds. */
  function SolveLimit(minutes: int): (r: int)
    ensures IsInt32(r) && (r - minutes * 60) % 0x1_0000_0000 == 0
    ensures IsInt32(minutes * 60) ==> r == minutes * 60
  {
    Wrap32(minutes * 60)
  }

  /** The default hour becomes 216,000,000 seconds as written, and 3,600
      seconds as intended; 597 minutes overflow into a negative limit as
      written. */
  lemma SolveLimitUnits()
    ensures SolveLimitAsWritten(60) == 216_000_000 && SolveLimit(60) == 3_600
    ensures StoredLimit(597) == 35_820_000 && SolveLimitAsWritten(597) == -2_145_767_296
    ensures SolveLimit(597) == 35_820
  {
  }

  /** Every configured number of minutes up to the 32-bit bound of its
      seconds becomes exactly that many seconds, never a negative limit. */
  lemma SolveLimitInSeconds(minutes: int)
    requires 0 <= minutes <= IntMax / 60
    ensures SolveLimit(minutes) == minutes * 60 && SolveLimit(minutes) >= 0
  {
  }

  // ---------------------------------------------------------------------
  // The input data

  /** The files sent besides the model, in the order the solve adds them. */
  datatype Kind = Parameters | WarmStart | MipStart | Filters | Annotations | Relaxer | Refiner

  function Suffix(k: Kind): string {
    match k
    case Parameters => ".prm"
    case WarmStart => ".sol"
    case MipStart => ".mst"
    case Filters => ".flt"
    case Annotations => ".ann"
    case Relaxer => "-relaxations.feasibility"
    case Refiner => "-conflicts.feasibility"
  }

  function Rank(k: Kind): nat {
    match k
    case Parameters => 0
    case WarmStart => 1
    case MipStart => 2
    case Filters => 3
    case Annotations => 4
    case Relaxer => 5
    case Refiner => 6
  }

  /** A file the engine exports, or a text the solve already holds. */
  datatype Source = Exported | Text(content: string)

  datatype InputItem = InputItem(kind: Kind, source: Source)

  /** The id an item is sent under. */
  function Id(name: string, item: InputItem): string {
    name + Suffix(item.kind)
  }

  predicate Ascending(items: seq<InputItem>) {
    forall i, j :: 0 <= i < j < |items| ==> Rank(items[i].kind) < Rank(items[j].kind)
  }

  predicate Below(items: seq<InputItem>, n: nat) {
    forall i :: 0 <= i < |items| ==> Rank(items[i].kind) < n
  }

  /** What a solve sends besides the model: the previous solution's text,
      whether the MIP starts, the filters and the annotations go, and the
      texts of the directive files. */
  datatype Inputs = Inputs(warmStart: Option<string>, mipStart: bool, filters: bool, annotations: bool,
                           relaxer: Option<string>, refiner: Option<string>)

  /** The item of the kind of rank `k`, when the solve adds one: the
      parameters always, every other kind when its condition holds. */
  function Entry(inp: Inputs, k: nat): (r: Option<InputItem>)
    ensures r.Some? ==> Rank(r.value.kind) == k
    ensures k == 0 <==> r == Some(InputItem(Parameters, Exported))
  {
    if k == 0 then Some(InputItem(Parameters, Exported))
    else if k == 1 then (if inp.warmStart.Some? then Some(InputItem(WarmStart, Text(inp.warmStart.value))) else None)
    else if k == 2 then (if inp.mipStart then Some(InputItem(MipStart, Exported)) else None)
    else if k == 3 then (if inp.filters then Some(InputItem(Filters, Exported)) else None)
    else if k == 4 then (if inp.annotations then Some(InputItem(Annotations, Exported)) else None)
    else if k == 5 then (if inp.relaxer.Some? then Some(InputItem(Relaxer, Text(inp.relaxer.value))) else None)
    else if k == 6 then (if inp.refiner.Some? then Some(InputItem(Refiner, Text(inp.refiner.value))) else None)
    else None
  }

  /** `input_data.Add` for the kinds of rank below `n`, in rank order. */
  function Collect(inp: Inputs, n: nat): (r: seq<InputItem>)
    ensures Ascending(r) && Below(r, n)
    ensures forall k :: 0 <= k < n && Entry(inp, k).Some? ==> Entry(inp, k).value in r
    ensures n > 0 ==> |r| > 0 && r[0] == InputItem(Parameters, Exported)
    ensures n > 1 && inp.warmStart.Some? ==> |r| > 1 && r[1] == InputItem(WarmStart, Text(inp.warmStart.value))
    decreases n
  {
    if n == 0 then []
    else
      var init := Collect(inp, n - 1);
      match Entry(inp, n - 1)
      case None => init
      case Some(item) => init + [item]
  }

  /** The input array, in the order the solve adds to it. */
  function Items(inp: Inputs): (r: seq<InputItem>)
    ensures Ascending(r) && |r| > 0 && r[0] == InputItem(Parameters, Exported)
    ensures inp.warmStart.Some? ==> |r| > 1 && r[1] == InputItem(WarmStart, Text(inp.warmStart.value))
    ensures forall k :: 0 <= k < 7 && Entry(inp, k).Some? ==> Entry(inp, k).value in r
  {
    Collect(inp, 7)
  }

  /** The directive file of a relaxation or a refinement: none when absent
      or empty, else the text the directive writes. */
  function DirectiveText<D>(directive: Option<D>, size: D -> nat, makeFile: D -> Result<string>)
    : (r: Result<Option<string>>)
    ensures var present := directive.Some? && size(directive.value) > 0;
            (r.Err? <==> present && makeFile(directive.value).Err?)
            && (r.Ok? ==> (r.value.Some? <==> present) && (present ==> r.value == Some(makeFile(directive.value).value)))
  {
    if directive.Some? && size(directive.value) > 0 then
      var text :- makeFile(directive.value);
      Ok(Some(text))
    else Ok(None)
  }

  /** A prior solution whose document text can be sent back. */
  predicate HasPriorText(prior: Option<Solution>) {
    prior.Some? && prior.value.HasSolution()
  }

  function RelaxerText(names: Names, relax: Option<Relaxations.Relaxations>): Result<Option<string>> {
    DirectiveText(relax, Relaxations.Size, rx => Relaxations.MakeFile(names, rx))
  }

  function RefinerText(names: Names, conflicts: Option<Conflicts.Conflicts>): Result<Option<string>> {
    DirectiveText(conflicts, Conflicts.Size, cs => Conflicts.MakeFile(names, cs))
  }

  /** The choice of inputs of a solve: the previous solution's text only
      for a MIP with a previous solution that has one; the MIP starts when
      a MIP's could be written; the filters for every MIP; the annotations
      when there are any; a directive only when given and not empty, and a
      directive that cannot be written fails the solve. */
  function ChooseInputs(isMip: bool, prior: Option<Solution>, mstWritten: bool, hasAnnotation: bool,
                        names: Names, relax: Option<Relaxations.Relaxations>,
                        conflicts: Option<Conflicts.Conflicts>): (r: Result<Inputs>)
    ensures r.Err? <==> RelaxerText(names, relax).Err? || RefinerText(names, conflicts).Err?
    ensures r.Ok? ==> (r.value.warmStart.Some? <==> isMip && HasPriorText(prior))
                      && (r.value.warmStart.Some? ==> r.value.warmStart == prior.value.solution)
    ensures r.Ok? ==> (r.value.mipStart <==> isMip && mstWritten) && (r.value.filters <==> isMip)
                      && (r.value.annotations <==> hasAnnotation)
    ensures r.Ok? ==> (r.value.relaxer.Some? <==> relax.Some? && Relaxations.Size(relax.value) > 0)
                      && (r.value.refiner.Some? <==> conflicts.Some? && Conflicts.Size(conflicts.value) > 0)
    ensures r.Ok? && r.value.relaxer.Some? ==> Relaxations.MakeFile(names, relax.value) == Ok(r.value.relaxer.value)
    ensures r.Ok? && r.value.refiner.Some? ==> Conflicts.MakeFile(names, conflicts.value) == Ok(r.value.refiner.value)
  {
    var rx :- RelaxerText(names, relax);
    var cf :- RefinerText(names, conflicts);
    var warm := if isMip && HasPriorText(prior) then prior.value.solution else None;
    Ok(Inputs(warm, isMip && mstWritten, isMip, hasAnnotation, rx, cf))
  }

  /** Kinds in rank order give every item its own id. */
  lemma IdsDistinct(name: string, items: seq<InputItem>)
    requires Ascending(items)
    ensures forall i, j :: 0 <= i < j < |items| ==> Id(name, items[i]) != Id(name, items[j])
  {
    forall i, j | 0 <= i < j < |items| ensures Id(name, items[i]) != Id(name, items[j]) {
      var a, b := Suffix(items[i].kind), Suffix(items[j].kind);
      SuffixInjective(items[i].kind, items[j].kind);
      assert Id(name, items[i])[|name|..] == a;
      assert Id(name, items[j])[|name|..] == b;
    }
  }

  /** No two kinds share a suffix: their second characters differ. */
  lemma SuffixInjective(a: Kind, b: Kind)
    requires a != b
    ensures Suffix(a) != Suffix(b)
  {
    assert Suffix(a)[1] != Suffix(b)[1];
  }

  /** The ids of an input array, in order. */
  function Ids(name: string, items: seq<InputItem>): (r: seq<string>)
    ensures |r| == |items| && forall i :: 0 <= i < |items| ==> r[i] == Id(name, items[i])
  {
    seq(|items|, i requires 0 <= i < |items| => Id(name, items[i]))
  }

  // ---------------------------------------------------------------------
  // A solve

  /** What a solve asks of the service, in order: the token, the
      payload of a deployment's job (the ids of its files and the solve
      parameters it overrides), the deletion
      of a job, the closing of the token; and the ending of the token when
      the engine ends.  An event records the call, not its success: a
      token request that fails is still a `TokenRequested`. */
  datatype Event =
    | TokenRequested
    | Sent(deploymentId: string, ids: seq<string>, overrides: seq<(string, string)>)
    | DeleteRequested(id: Option<string>)
    | TokenClosed
    | TokenEnded

  /** What the engine knows about the exported model: whether it is a MIP,
      whether its MIP starts could be written, whether it has annotations,
      whether the user left the time limit at its default, and how writing
      the files went. */
  datatype Export = Export(isMip: bool, mstWritten: bool, hasAnnotation: bool, limitAtDefault: bool,
                           written: Outcome)

  /** The answers of the service and of the runtime, in the order the solve
      needs them: the token, the deployment id, the job run to completion,
      the XML reader, the printing of a job status, and the deletion. */
  datatype Service = Service(token: Outcome, deployment: Result<string>, run: Result<J.Job>,
                             read: Reader, show: JObject -> string, deletion: Outcome)

  /** The engine afterwards, the time limit the solve set (none when the
      user had set one), the requests made and the result. */
  datatype SolveRun = SolveRun(engine: WmlCplex, limitSet: Option<int>, events: seq<Event>, outcome: Result<Solution>)

  /** The answer of a finished job: an error when it has no solve state,
      an infeasible status, the decoded solution document, or an unknown
      status when there is no solution output.  As written, the decoded
      document does not keep its text. */
  function Answer(job: J.Job, req: CplexSolver.SolveRequest, read: Reader, show: JObject -> string)
    : (r: Result<Solution>)
    ensures r.Ok? ==> CplexSolver.Decoded(r.value, req) && !r.value.HasSolution()
  {
    var solved :- J.HasSolveState(job);
    if !solved then
      var status :- J.GetJobStatus(job);
      var o :- Deref(status);
      Err(show(o))
    else
      var solveStatus :- J.GetSolveStatus(job);
      var st :- Deref(solveStatus);
      if st == InfeasibleSolution then Ok(WithStatus(InfeasibleStatus))
      else
        var sol :- J.GetSolution(job);
        match sol
        case Some(xml) => FromXml(xml, read, req.knownVars, req.knownRanges)
        case None => Ok(WithStatus(UnknownStatus))
  }

  /** The cases of an answer: no solve state is an error, an infeasible
      status is reported as such, a feasible one without solution output
      is unknown, and otherwise the answer is the service's document
      decoded, which never carries the document's text. */
  lemma AnswerCases(job: J.Job, req: CplexSolver.SolveRequest, read: Reader, show: JObject -> string)
    ensures J.HasSolveState(job).Err? || J.HasSolveState(job) == Ok(false) ==> Answer(job, req, read, show).Err?
    ensures J.HasSolveState(job) == Ok(true) && J.GetSolveStatus(job) == Ok(Some(InfeasibleSolution)) ==>
              Answer(job, req, read, show) == Ok(WithStatus(InfeasibleStatus))
    ensures J.HasSolveState(job) == Ok(true) && J.GetSolveStatus(job).Ok? && J.GetSolveStatus(job).value.Some?
            && J.GetSolveStatus(job).value.value != InfeasibleSolution && J.GetSolution(job) == Ok(None) ==>
              Answer(job, req, read, show) == Ok(WithStatus(UnknownStatus))
    ensures J.HasSolveState(job) == Ok(true) && J.GetSolveStatus(job).Ok? && J.GetSolveStatus(job).value.Some?
            && J.GetSolveStatus(job).value.value != InfeasibleSolution
            && J.GetSolution(job).Ok? && J.GetSolution(job).value.Some? ==>
              Answer(job, req, read, show) == FromXml(J.GetSolution(job).value.value, read, req.knownVars, req.knownRanges)
    ensures Answer(job, req, read, show).Ok? ==> !Answer(job, req, read, show).value.HasSolution()
  {
  }

  /** The inner `try` block gets as far as the job run: there is a
      deployment and the directive files could be written. */
  predicate Runs(prior: Option<Solution>, ex: Export, sv: Service, req: CplexSolver.SolveRequest) {
    sv.deployment.Ok?
    && ChooseInputs(ex.isMip, prior, ex.mstWritten, ex.hasAnnotation, req.names, req.relax, req.conflicts).Ok?
  }

  /** The inner `try` block: the deployment, the input array, the job and
      its answer.  It gives the job field, the requests and the result; the
      field only changes once a job has run. */
  function Attempt(w: WmlCplex, prior: Option<Solution>, ex: Export, sv: Service, req: CplexSolver.SolveRequest)
    : (r: (Option<J.Job>, seq<Event>, Result<Solution>))
    ensures r.0 == (if Runs(prior, ex, sv, req) && sv.run.Ok? then Some(sv.run.value) else w.job)
    ensures |r.1| <= 1 && (|r.1| == 1 <==> Runs(prior, ex, sv, req)) && (|r.1| == 1 ==> r.1[0].Sent?)
    ensures r.2.Ok? ==> Runs(prior, ex, sv, req) && sv.run.Ok? && CplexSolver.Decoded(r.2.value, req)
    ensures Runs(prior, ex, sv, req) && sv.run.Ok? ==> r.2 == Answer(sv.run.value, req, sv.read, sv.show)
  {
    match sv.deployment
    case Err(msg) => (w.job, [], Err(msg))
    case Ok(id) =>
      match ChooseInputs(ex.isMip, prior, ex.mstWritten, ex.hasAnnotation, req.names, req.relax, req.conflicts)
      case Err(msg) => (w.job, [], Err(msg))
      case Ok(inp) =>
        var sent := [Sent(id, Ids(w.name, Items(inp)) + [w.name + w.exportFormat], [])];
        match sv.run
        case Err(msg) => (w.job, sent, Err(msg))
        case Ok(job) => (Some(job), sent, Answer(job, req, sv.read, sv.show))
  }

  /** The `finally` block: a job in the field is deleted and the field
      cleared, then the token closed.  A failed deletion replaces the
      result, keeps the field and skips the closing. */
  function Cleanup(w: WmlCplex, limit: Option<int>, events: seq<Event>, outcome: Result<Solution>, deletion: Outcome)
    : (r: SolveRun)
    requires TokenClosed !in events
    ensures r.limitSet == limit && |r.events| > |events| && r.events[..|events|] == events
    ensures TokenClosed in r.events <==> w.job.None? || deletion.Pass?
    ensures TokenClosed in r.events ==> r.engine.job.None? && r.events[|r.events| - 1] == TokenClosed
    ensures w.job.Some? ==> DeleteRequested(w.job.value.jobId) in r.events && (r.engine.job.None? <==> deletion.Pass?)
    ensures r.engine.job.Some? ==> r.outcome.Err?
    ensures w.job.None? || deletion.Pass? ==> r.outcome == outcome
    ensures r.outcome.Ok? ==> r.outcome == outcome
  {
    match w.job
    case None => SolveRun(w, limit, events + [TokenClosed], outcome)
    case Some(j) =>
      match deletion
      case Fail(msg) => SolveRun(w, limit, events + [DeleteRequested(j.jobId)], Err(msg))
      case Pass => SolveRun(w.(job := None), limit, events + [DeleteRequested(j.jobId), TokenClosed], outcome)
  }

  /** The solve enters its `try` block: no double directive, a token and
      the files written. */
  predicate Entered(ex: Export, sv: Service, req: CplexSolver.SolveRequest) {
    !(req.relax.Some? && req.conflicts.Some?) && sv.token.Pass? && ex.written.Pass?
  }

  /** The solve reaches the service's job run. */
  predicate Reached(prior: Option<Solution>, ex: Export, sv: Service, req: CplexSolver.SolveRequest) {
    Entered(ex, sv, req) && Runs(prior, ex, sv, req)
  }

  /** The job the `finally` block finds in the field: the one just run, or
      one a previous solve failed to delete. */
  function Pending(w: WmlCplex, prior: Option<Solution>, ex: Export, sv: Service, req: CplexSolver.SolveRequest): Option<J.Job> {
    if Reached(prior, ex, sv, req) && sv.run.Ok? then Some(sv.run.value) else w.job
  }

  /** The `try` block with its `finally`, once the token is started and
      the files are exported: the started token, the attempt's request,
      then the clean-up, which keeps the attempt's result unless a
      deletion failed. */
  function Guarded(w: WmlCplex, a: (Option<J.Job>, seq<Event>, Result<Solution>), limit: Option<int>, deletion: Outcome)
    : (r: SolveRun)
    requires |a.1| <= 1 && (|a.1| == 1 ==> a.1[0].Sent?)
    ensures r.limitSet == limit && |r.events| > |a.1| && r.events[0] == TokenRequested
    ensures |a.1| == 1 ==> r.events[1] == a.1[0]
    ensures r.engine.job.Some? ==> r.outcome.Err?
    ensures TokenClosed in r.events <==> a.0.None? || deletion.Pass?
    ensures TokenClosed in r.events ==> r.engine.job.None? && r.events[|r.events| - 1] == TokenClosed
    ensures a.0.Some? ==> DeleteRequested(a.0.value.jobId) in r.events && (r.engine.job.None? <==> deletion.Pass?)
    ensures a.0.None? || deletion.Pass? ==> r.outcome == a.2
    ensures r.outcome.Ok? ==> r.outcome == a.2
  {
    assert TokenClosed !in [TokenRequested] + a.1;
    var r := Cleanup(w.(job := a.0), limit, [TokenRequested] + a.1, a.2, deletion);
    assert r.events[0] == r.events[..1 + |a.1|][0];
    assert |a.1| == 1 ==> r.events[1] == r.events[..1 + |a.1|][1];
    r
  }

  /** `ExternalSolve`.  A relaxation with a conflict refinement is refused
      before anything else; the token is started; a limit left at its
      default is set; the files are exported; then the `try` block runs and
      the `finally` block cleans up.  Every failure keeps its message. */
  function ExternalSolve(w: WmlCplex, prior: Option<Solution>, ex: Export, sv: Service, req: CplexSolver.SolveRequest)
    : (r: SolveRun)
    ensures req.relax.Some? && req.conflicts.Some? ==> r == SolveRun(w, None, [], Err(BothDirectives))
    ensures !(req.relax.Some? && req.conflicts.Some?) ==> |r.events| > 0 && r.events[0] == TokenRequested
    ensures r.limitSet == (if !(req.relax.Some? && req.conflicts.Some?) && sv.token.Pass? && ex.limitAtDefault
                           then Some(SolveLimitAsWritten(w.minutes)) else None)
    ensures Reached(prior, ex, sv, req) ==> |r.events| > 1 && r.events[1] == Attempt(w, prior, ex, sv, req).1[0]
  {
    if req.relax.Some? && req.conflicts.Some? then SolveRun(w, None, [], Err(BothDirectives))
    else
      match sv.token
      case Fail(msg) => SolveRun(w, None, [TokenRequested], Err(msg))
      case Pass =>
        var limit := if ex.limitAtDefault then Some(SolveLimitAsWritten(w.minutes)) else None;
        match ex.written
        case Fail(msg) => SolveRun(w, limit, [TokenRequested], Err(msg))
        case Pass => Guarded(w, Attempt(w, prior, ex, sv, req), limit, sv.deletion)
  }

  /** A solve succeeds only with a decoded answer of a job it ran, and a
      job that ran and was deleted gives the solve its answer. */
  lemma ExternalSolveAnswer(w: WmlCplex, prior: Option<Solution>, ex: Export, sv: Service, req: CplexSolver.SolveRequest)
    ensures var r := ExternalSolve(w, prior, ex, sv, req);
            r.outcome.Ok? ==> CplexSolver.Decoded(r.outcome.value, req) && !r.outcome.value.HasSolution()
                              && Reached(prior, ex, sv, req) && sv.run.Ok?
    ensures Reached(prior, ex, sv, req) && sv.run.Ok? && sv.deletion.Pass? ==>
              ExternalSolve(w, prior, ex, sv, req).outcome == Answer(sv.run.value, req, sv.read, sv.show)
  {
  }

  /** The `finally` block of a solve: the token is closed exactly when the
      solve entered its `try` block and no job was pending or its deletion
      passed; a pending job is always asked to be deleted and stays in the
      field exactly when that failed, which fails the solve. */
  lemma ExternalSolveCleansUp(w: WmlCplex, prior: Option<Solution>, ex: Export, sv: Service, req: CplexSolver.SolveRequest)
    ensures var r := ExternalSolve(w, prior, ex, sv, req);
            (r.engine.job.Some? ==> r.outcome.Err?)
            && (TokenClosed in r.events <==> Entered(ex, sv, req) && (Pending(w, prior, ex, sv, req).None? || sv.deletion.Pass?))
            && (TokenClosed in r.events ==> r.engine.job.None? && r.events[|r.events| - 1] == TokenClosed)
    ensures var r := ExternalSolve(w, prior, ex, sv, req);
            Entered(ex, sv, req) && Pending(w, prior, ex, sv, req).Some? ==>
              DeleteRequested(Pending(w, prior, ex, sv, req).value.jobId) in r.events
              && (r.engine.job.None? <==> sv.deletion.Pass?)
  {
    var r := ExternalSolve(w, prior, ex, sv, req);
    if Entered(ex, sv, req) {
      var a := Attempt(w, prior, ex, sv, req);
      var limit := if ex.limitAtDefault then Some(SolveLimitAsWritten(w.minutes)) else None;
      assert r == Guarded(w, a, limit, sv.deletion);
      assert a.0 == Pending(w, prior, ex, sv, req);
    } else {
      assert r.engine == w && TokenClosed !in r.events && r.outcome.Err?;
    }
  }

  /** `End`: a job left in the field is deleted, then the connector's
      token is ended.  The handler around the deletion only catches the
      library's own exception type, which the connector's calls never
      throw, so a failed deletion escapes and the token is not ended. */
  function End(w: WmlCplex, deletion: Outcome): (r: (seq<Event>, Outcome))
    ensures w.job.None? ==> r == ([TokenEnded], Pass)
    ensures w.job.Some? ==> |r.0| > 0 && r.0[0] == DeleteRequested(w.job.value.jobId)
    ensures TokenEnded in r.0 <==> w.job.None? || deletion.Pass?
    ensures r.1 == (if w.job.Some? then deletion else Pass)
  {
    match w.job
    case None => ([TokenEnded], Pass)
    case Some(j) =>
      match deletion
      case Fail(msg) => ([DeleteRequested(j.jobId)], Fail(msg))
      case Pass => ([DeleteRequested(j.jobId), TokenEnded], Pass)
  }

  /** A job a solve could not delete stays in the field and is the first
      thing the engine's `End` asks the service to delete. */
  lemma UndeletedJobRetriedAtEnd(w: WmlCplex, prior: Option<Solution>, ex: Export, sv: Service,
                                 req: CplexSolver.SolveRequest, deletion: Outcome)
    requires Entered(ex, sv, req) && Pending(w, prior, ex, sv, req).Some? && sv.deletion.Fail?
    ensures var after := ExternalSolve(w, prior, ex, sv, req).engine;
            after.job == Pending(w, prior, ex, sv, req)
            && End(after, deletion).0[0] == DeleteRequested(Pending(w, prior, ex, sv, req).value.jobId)
  {
  }

  /** The payload of a job: the deployment's id, one id per input file,
      all different, the parameters first, the model file last, and no
      overridden solve parameter. */
  predicate Payload(e: Event, w: WmlCplex, deploymentId: string) {
    e.Sent? && e.deploymentId == deploymentId && e.overrides == []
    && var ids := e.ids;
       |ids| > 1 && ids[0] == w.name + Suffix(Parameters) && ids[|ids| - 1] == w.name + w.exportFormat
       && forall i, j :: 0 <= i < j < |ids| - 1 ==> ids[i] != ids[j]
  }

  /** The one event of a job run is its payload. */
  lemma AttemptPayload(w: WmlCplex, prior: Option<Solution>, ex: Export, sv: Service, req: CplexSolver.SolveRequest)
    requires Runs(prior, ex, sv, req)
    ensures Payload(Attempt(w, prior, ex, sv, req).1[0], w, sv.deployment.value)
  {
    var inp := ChooseInputs(ex.isMip, prior, ex.mstWritten, ex.hasAnnotation, req.names, req.relax, req.conflicts).value;
    var items := Items(inp);
    var ids := Ids(w.name, items) + [w.name + w.exportFormat];
    assert Attempt(w, prior, ex, sv, req).1 == [Sent(sv.deployment.value, ids, [])];
    IdsDistinct(w.name, items);
    assert ids[..|ids| - 1] == Ids(w.name, items);
  }

  /** A solve that reaches the service sends, right after starting its
      token, one job payload with distinct input ids. */
  lemma SentPayload(w: WmlCplex, prior: Option<Solution>, ex: Export, sv: Service, req: CplexSolver.SolveRequest)
    requires Reached(prior, ex, sv, req)
    ensures var events := ExternalSolve(w, prior, ex, sv, req).events;
            |events| > 1 && Payload(events[1], w, sv.deployment.value)
  {
    AttemptPayload(w, prior, ex, sv, req);
  }

  /** The hook the CPLEX engine calls, for one engine state, one previous
      result and one set of service answers. */
  function Hook(w: WmlCplex, prior: Option<Solution>, ex: Export, sv: Service): (r: CplexSolver.ExternalSolve)
    ensures forall req :: r(req).Ok? ==> CplexSolver.Decoded(r(req).value, req) && !r(req).value.HasSolution()
  {
    req => ExternalSolve(w, prior, ex, sv, req).outcome
  }

  /** With the minutes setting left at its hour, a solve that keeps the
      default CPLEX limit sets 216,000,000 seconds, not an hour. */
  lemma DefaultHourSetAsWritten(w: WmlCplex, prior: Option<Solution>, ex: Export, sv: Service, req: CplexSolver.SolveRequest)
    requires w.minutes == 60 && !(req.relax.Some? && req.conflicts.Some?) && sv.token.Pass? && ex.limitAtDefault
    ensures ExternalSolve(w, prior, ex, sv, req).limitSet == Some(216_000_000)
  {
    SolveLimitUnits();
  }

  /** A plain solve of a supported model through the service reports the
      feasibility of the job's decoded answer. */
  lemma ServiceSolveReportsAnswer(e: CplexSolver.Engine, m: CplexNames.CplexModel, w: WmlCplex, ex: Export,
                                  sv: Service, sol: Solution)
    requires forall i :: 0 <= i < |m.elements| ==> !m.elements[i].Unhandled?
    requires var req := CplexSolver.Request(CplexNames.Naming(e.names, m).0, None, None);
             Reached(e.result, ex, sv, req) && sv.run.Ok? && sv.deletion.Pass?
             && Answer(sv.run.value, req, sv.read, sv.show) == Ok(sol)
    ensures CplexSolver.Process(e, m, None, None, Hook(w, e.result, ex, sv)).1 == Ok(sol.feasible)
  {
    var req := CplexSolver.Request(CplexNames.Naming(e.names, m).0, None, None);
    ExternalSolveAnswer(w, e.result, ex, sv, req);
    assert Hook(w, e.result, ex, sv)(req) == Ok(sol);
    CplexSolver.SolveSucceeds(e, m, Hook(w, e.result, ex, sv), sol);
  }

  // ---------------------------------------------------------------------
  // The warm start

  /** As written, a previous result decoded from the service's answer has
      no text, so a MIP's warm-start file is never sent. */
  lemma WarmStartNeverSent(xml: string, read: Reader, st: CplexNames.Renaming, ex: Export,
                           names: Names, relax: Option<Relaxations.Relaxations>,
                           conflicts: Option<Conflicts.Conflicts>)
    requires FromXml(xml, read, st.vars.byName.Keys, st.rngs.byName.Keys).Ok?
    requires CplexSolver.Transfer(FromXml(xml, read, st.vars.byName.Keys, st.rngs.byName.Keys).value, st).Ok?
    ensures var prior := CplexSolver.Transfer(FromXml(xml, read, st.vars.byName.Keys, st.rngs.byName.Keys).value, st).value;
            var r := ChooseInputs(ex.isMip, Some(prior), ex.mstWritten, ex.hasAnnotation, names, relax, conflicts);
            r.Ok? ==> r.value.warmStart.None?
  {
  }

  /** With the decoder that keeps the text, a MIP's next solve sends the
      previous answer's document back as its warm start. */
  lemma WarmStartSent(xml: string, read: Reader, st: CplexNames.Renaming, ex: Export,
                      names: Names, relax: Option<Relaxations.Relaxations>,
                      conflicts: Option<Conflicts.Conflicts>)
    requires FromXmlKeepingText(xml, read, st.vars.byName.Keys, st.rngs.byName.Keys).Ok?
    requires CplexSolver.Transfer(FromXmlKeepingText(xml, read, st.vars.byName.Keys, st.rngs.byName.Keys).value, st).Ok?
    requires ex.isMip
    ensures var prior := CplexSolver.Transfer(FromXmlKeepingText(xml, read, st.vars.byName.Keys, st.rngs.byName.Keys).value, st).value;
            var r := ChooseInputs(ex.isMip, Some(prior), ex.mstWritten, ex.hasAnnotation, names, relax, conflicts);
            r.Ok? ==> r.value.warmStart == Some(xml)
  {
  }
}
