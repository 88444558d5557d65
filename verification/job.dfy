/** `JobImpl`: a deployment job of the service and the readings taken from
    the last status document the service returned for it. */
module JobImpl {
  import opened Wrappers
  import opened Strs
  import opened Json
  import opened WmlHelper
  import opened HttpUtils
  import Cr = Credentials

  const Entity := "entity"
  const DecisionOptimization := "decision_optimization"
  const SolveStateKey := "solve_state"
  const FailureKey := "failure"
  const SolveStatusKey := "solve_status"
  const StateKey := "state"
  const StatusKey := "status"
  const DetailsKey := "details"
  const ActivityKey := "latest_engine_activity"
  const OutputDataKey := "output_data"
  const ContentKey := "content"
  const IdKey := "id"
  const KpiPrefix := "KPI."
  const LogName := "log.txt"
  const MissingFailure := "Missing failure in WML answer."

  /** The job and the status document last read (null before the first
      successful update). */
  datatype Job = Job(deploymentId: string, jobId: Option<string>, status: Option<JObject>)

  function New(deploymentId: string, jobId: Option<string>): Job {
    Job(deploymentId, jobId, None)
  }

  /** The status request of `UpdateStatus`. */
  function StatusCall(job: Job, creds: Cr.Credentials, token: Option<string>): (r: Result<Call>)
    ensures r.Ok? <==> Cr.ContainsKey(creds, Cr.WmlHost) && WmlParams(creds).Ok?
    ensures r.Ok? ==> r.value.verb == Get
                      && r.value.target == BuildTargetUrl(creds.entries[Cr.WmlHost],
                                                          DeploymentJobs + "/" + job.jobId.GetOr(""),
                                                          Some(WmlParams(creds).value))
  {
    var headers := WmlHeaders(token) + [(Accept, ApplicationJson)];
    var host :- Cr.Get(creds, Cr.WmlHost);
    var params :- WmlParams(creds);
    Ok(Prepare(Get, host, DeploymentJobs + "/" + job.jobId.GetOr(""), Some(params), headers, None))
  }

  /** `UpdateStatus`: the answer replaces the status when it parses as a
      JSON object; a parse failure is logged and the old status kept; a
      null answer throws. */
  function UpdateStatus(job: Job, creds: Cr.Credentials, token: Option<string>, answer: Option<Body>): (r: Result<Job>)
    ensures StatusCall(job, creds, token).Err? ==> r.Err?
    ensures r.Ok? ==> r.value.deploymentId == job.deploymentId && r.value.jobId == job.jobId
    ensures StatusCall(job, creds, token).Ok? ==>
              (answer.None? ==> r == Err(ArgumentNull))
              && (answer.Some? && answer.value.parsed.Some? && answer.value.parsed.value.JObj? ==>
                    r == Ok(job.(status := Some(answer.value.parsed.value.fields))))
              && (answer.Some? && !(answer.value.parsed.Some? && answer.value.parsed.value.JObj?) ==>
                    r == Ok(job))
  {
    var _ :- StatusCall(job, creds, token);
    match answer
    case None => Err(ArgumentNull)
    case Some(Body(_, Some(JObj(m)))) => Ok(job.(status := Some(m)))
    case Some(_) => Ok(job)
  }

  /** `Value<JObject>(key)` called on what may be null. */
  function Child(o: Option<JObject>, key: string): (r: Result<Option<JObject>>)
    ensures o.None? ==> r == Err(NullReference)
    ensures o.Some? ==> r == GetObject(o.value, key)
  {
    var m :- Deref(o);
    GetObject(m, key)
  }

  /** The object at `key` of `o`, when there is one. */
  predicate HasObject(o: JObject, key: string) {
    key in o && o[key].JObj?
  }

  /** The "entity"/"decision_optimization" section of a status document. */
  predicate HasDo(job: Job) {
    job.status.Some? && HasObject(job.status.value, Entity)
    && HasObject(job.status.value[Entity].fields, DecisionOptimization)
  }

  function DoOf(job: Job): JObject
    requires HasDo(job)
  {
    job.status.value[Entity].fields[DecisionOptimization].fields
  }

  /** `GetDO`. */
  function GetDo(job: Job): (r: Result<Option<JObject>>)
    ensures HasDo(job) ==> r == Ok(Some(DoOf(job)))
    ensures job.status.None? ==> r == Err(NullReference)
    ensures job.status.Some? && Entity !in job.status.value ==> r == Err(NullReference)
  {
    var entity :- Child(job.status, Entity);
    Child(entity, DecisionOptimization)
  }

  /** The section read through `GetDO().Value<JObject>(key)`, which must be
      there. */
  function Section(job: Job, key: string): (r: Result<JObject>)
    ensures HasDo(job) && HasObject(DoOf(job), key) ==> r == Ok(DoOf(job)[key].fields)
    ensures HasDo(job) && key !in DoOf(job) ==> r == Err(NullReference)
  {
    var d :- GetDo(job);
    var s :- Child(d, key);
    Deref(s)
  }

  /** `GetState`: status.state of the decision-optimization section. */
  function GetState(job: Job): (r: Result<Option<string>>)
    ensures HasDo(job) && HasObject(DoOf(job), StatusKey) && StateKey in DoOf(job)[StatusKey].fields
            && DoOf(job)[StatusKey].fields[StateKey].JStr? ==>
              r == Ok(Some(DoOf(job)[StatusKey].fields[StateKey].s))
    ensures HasDo(job) && HasObject(DoOf(job), StatusKey) && StateKey !in DoOf(job)[StatusKey].fields ==>
              r == Ok(None)
    ensures !HasDo(job) && (job.status.None? || Entity !in job.status.value) ==> r.Err?
  {
    var status :- Section(job, StatusKey);
    GetString(status, StateKey)
  }

  /** `HasSolveState`. */
  function HasSolveState(job: Job): (r: Result<bool>)
    ensures HasDo(job) ==> r == Ok(SolveStateKey in DoOf(job))
  {
    var d :- GetDo(job);
    var m :- Deref(d);
    Ok(SolveStateKey in m)
  }

  /** `HasFailure`. */
  function HasFailure(job: Job): (r: Result<bool>)
    ensures HasDo(job) && HasObject(DoOf(job), StatusKey) ==>
              r == Ok(FailureKey in DoOf(job)[StatusKey].fields)
  {
    var status :- Section(job, StatusKey);
    Ok(FailureKey in status)
  }

  /** What `GetFailure` reports: the failure object, whose printing is the
      JSON library's, or the fixed text. */
  datatype FailureReport = Reported(failure: JObject) | NoFailure

  /** `GetFailure`. */
  function GetFailure(job: Job): (r: Result<FailureReport>)
    ensures HasFailure(job) == Ok(false) ==> r == Ok(NoFailure)
    ensures HasFailure(job).Err? ==> r.Err?
    ensures HasDo(job) && HasObject(DoOf(job), StatusKey) && HasObject(DoOf(job)[StatusKey].fields, FailureKey) ==>
              r == Ok(Reported(DoOf(job)[StatusKey].fields[FailureKey].fields))
  {
    var status :- Section(job, StatusKey);
    if FailureKey in status then
      var f :- GetObject(status, FailureKey);
      var m :- Deref(f);
      Ok(Reported(m))
    else Ok(NoFailure)
  }

  /** `GetSolveState`'s object, which must be there. */
  function SolveState(job: Job): (r: Result<JObject>)
    ensures HasDo(job) && HasObject(DoOf(job), SolveStateKey) ==> r == Ok(DoOf(job)[SolveStateKey].fields)
    ensures HasDo(job) && SolveStateKey !in DoOf(job) ==> r == Err(NullReference)
  {
    Section(job, SolveStateKey)
  }

  /** `HasSolveStatus`. */
  function HasSolveStatus(job: Job): (r: Result<bool>)
    ensures SolveState(job).Ok? ==> r == Ok(SolveStatusKey in SolveState(job).value)
    ensures SolveState(job).Err? ==> r.Err?
  {
    var ss :- SolveState(job);
    Ok(SolveStatusKey in ss)
  }

  /** `GetSolveStatus`. */
  function GetSolveStatus(job: Job): (r: Result<Option<string>>)
    ensures SolveState(job).Ok? ==> r == GetString(SolveState(job).value, SolveStatusKey)
    ensures SolveState(job).Err? ==> r.Err?
  {
    var ss :- SolveState(job);
    GetString(ss, SolveStatusKey)
  }

  /** `HasLatestEngineActivity`. */
  function HasLatestEngineActivity(job: Job): (r: Result<bool>)
    ensures SolveState(job).Ok? ==> r == Ok(ActivityKey in SolveState(job).value)
    ensures SolveState(job).Err? ==> r.Err?
  {
    var ss :- SolveState(job);
    Ok(ActivityKey in ss)
  }

  /** The loop of `GetLatestEngineActivity`: each line and a line feed; a
      null line adds only the line feed. */
  function ActivityText(lines: seq<Json>): (r: Result<string>)
    ensures r.Ok? <==> forall i :: 0 <= i < |lines| ==> AsString(lines[i]).Ok?
    decreases |lines|
  {
    if |lines| == 0 then Ok("")
    else
      var init := lines[..|lines| - 1];
      var head :- ActivityText(init);
      var line :- AsString(lines[|lines| - 1]);
      assert forall i :: 0 <= i < |init| ==> init[i] == lines[i];
      Ok(head + line.GetOr("") + "\n")
  }

  function StringTokens(ls: seq<string>): (r: seq<Json>)
    ensures |r| == |ls| && forall i :: 0 <= i < |ls| ==> r[i] == JStr(ls[i])
  {
    seq(|ls|, i requires 0 <= i < |ls| => JStr(ls[i]))
  }

  /** Lines that are all strings give each line followed by a line feed. */
  lemma {:induction false} ActivityOfStrings(ls: seq<string>)
    ensures ActivityText(StringTokens(ls)) == Ok(Lines(ls))
    decreases |ls|
  {
    if |ls| > 0 {
      var n := |ls| - 1;
      assert StringTokens(ls)[..n] == StringTokens(ls[..n]);
      ActivityOfStrings(ls[..n]);
    }
  }

  /** `GetLatestEngineActivity`. */
  function GetLatestEngineActivity(job: Job): (r: Result<string>)
    ensures SolveState(job).Ok? && ActivityKey !in SolveState(job).value ==> r == Err(NullReference)
    ensures SolveState(job).Ok? && ActivityKey in SolveState(job).value
            && SolveState(job).value[ActivityKey].JArr? ==>
              r == ActivityText(SolveState(job).value[ActivityKey].items)
  {
    var ss :- SolveState(job);
    var a :- GetArray(ss, ActivityKey);
    var lines :- Deref(a);
    ActivityText(lines)
  }

  /** The members of `details` named "KPI.<name>", under their names. */
  function Kpis(details: JObject): (r: map<string, Json>)
    ensures forall k :: k in r <==> KpiPrefix + k in details
    ensures forall k :: k in r ==> r[k] == details[KpiPrefix + k]
  {
    var names := set k | k in details && StartsWith(k, KpiPrefix) :: k[|KpiPrefix|..];
    var r := map k | k in names && KpiPrefix + k in details :: details[KpiPrefix + k];
    forall k | KpiPrefix + k in details ensures k in r {
      var full := KpiPrefix + k;
      assert StartsWith(full, KpiPrefix) && full[|KpiPrefix|..] == k;
    }
    r
  }

  /** `GetKPIs`: a missing `details` object throws. */
  function GetKpis(job: Job): (r: Result<map<string, Json>>)
    ensures SolveState(job).Ok? && HasObject(SolveState(job).value, DetailsKey) ==>
              r == Ok(Kpis(SolveState(job).value[DetailsKey].fields))
    ensures SolveState(job).Ok? && DetailsKey !in SolveState(job).value ==> r == Err(NullReference)
    ensures SolveState(job).Err? ==> r.Err?
  {
    var ss :- SolveState(job);
    var d :- GetObject(ss, DetailsKey);
    var details :- Deref(d);
    Ok(Kpis(details))
  }

  /** `GetJobStatus`. */
  function GetJobStatus(job: Job): (r: Result<Option<JObject>>)
    ensures HasDo(job) ==> r == GetObject(DoOf(job), StatusKey)
  {
    var d :- GetDo(job);
    Child(d, StatusKey)
  }

  /** `ExtractOutputData`: the catch of the source only covers JSON parse
      errors, which reading a parsed tree cannot raise. */
  function ExtractOutputData(job: Job): (r: Result<Option<seq<Json>>>)
    ensures HasDo(job) ==> r == GetArray(DoOf(job), OutputDataKey)
  {
    var d :- GetDo(job);
    var m :- Deref(d);
    GetArray(m, OutputDataKey)
  }

  /** `(JObject)it`. */
  function AsObject(j: Json): (r: Result<JObject>)
    ensures r.Ok? <==> j.JObj?
    ensures r.Ok? ==> r.value == j.fields
  {
    if j.JObj? then Ok(j.fields) else Err(InvalidCast)
  }

  /** The id of an output item, which must be a non-null string. */
  function ItemId(j: Json): (r: Result<string>)
    ensures j.JObj? && IdKey in j.fields && j.fields[IdKey].JStr? ==> r == Ok(j.fields[IdKey].s)
    ensures j.JObj? && IdKey !in j.fields ==> r == Err(NullReference)
  {
    var o :- AsObject(j);
    var id :- GetString(o, IdKey);
    Deref(id)
  }

  /** The Base64 "content" of an item, decoded; a null content throws. */
  function ItemContent(o: JObject): (r: Result<string>)
    ensures ContentKey in o && o[ContentKey].JStr? ==> r == DecodeBase64(o[ContentKey].s)
    ensures ContentKey !in o ==> r == Err(ArgumentNull)
  {
    var c :- GetString(o, ContentKey);
    match c
    case None => Err(ArgumentNull)
    case Some(text) => DecodeBase64(text)
  }

  /** An output item with the given id and Base64 content. */
  function Item(id: string, content: string): Json {
    JObj(map[IdKey := JStr(id), ContentKey := JStr(content)])
  }

  /** The loop of `GetLog`: the first item named "log.txt". */
  function FindLog(items: seq<Json>): (r: Result<Option<string>>)
    ensures (forall i :: 0 <= i < |items| ==> ItemId(items[i]).Ok? && ItemId(items[i]).value != LogName) ==> r == Ok(None)
    ensures r.Ok? && r.value.Some? ==> exists i :: 0 <= i < |items| && ItemId(items[i]) == Ok(LogName)
    decreases |items|
  {
    if |items| == 0 then Ok(None)
    else
      var id :- ItemId(items[0]);
      if id == LogName then
        var text :- ItemContent(items[0].fields);
        Ok(Some(text))
      else FindLog(items[1..])
  }

  /** `GetLog`: a missing output list throws. */
  function GetLog(job: Job): (r: Result<Option<string>>)
    ensures ExtractOutputData(job) == Ok(None) ==> r == Err(NullReference)
    ensures ExtractOutputData(job).Ok? && ExtractOutputData(job).value.Some? ==>
              r == FindLog(ExtractOutputData(job).value.value)
  {
    var out :- ExtractOutputData(job);
    var items :- Deref(out);
    FindLog(items)
  }

  /** Items named otherwise are passed over and the log text is returned
      decoded. */
  lemma {:induction false} LogFound(others: seq<Json>, text: string, rest: seq<Json>)
    requires forall i :: 0 <= i < |others| ==> ItemId(others[i]).Ok? && ItemId(others[i]).value != LogName
    ensures FindLog(others + [Item(LogName, EncodeBase64(text))] + rest) == Ok(Some(text))
    decreases |others|
  {
    var items := others + [Item(LogName, EncodeBase64(text))] + rest;
    if |others| == 0 {
      assert items[0] == Item(LogName, EncodeBase64(text));
      Base64TextRoundTrip(text);
    } else {
      assert items[0] == others[0];
      assert items[1..] == others[1..] + [Item(LogName, EncodeBase64(text))] + rest;
      LogFound(others[1..], text, rest);
    }
  }

  /** The cells of a csv row joined by ','; a null cell is empty. */
  function Cells(cells: seq<Json>): (r: Result<string>)
    ensures r.Ok? <==> forall i :: 0 <= i < |cells| ==> AsString(cells[i]).Ok?
    decreases |cells|
  {
    if |cells| == 0 then Ok("")
    else
      var init := cells[..|cells| - 1];
      var head :- Cells(init);
      var cell :- AsString(cells[|cells| - 1]);
      assert forall i :: 0 <= i < |init| ==> init[i] == cells[i];
      Ok(if |init| == 0 then cell.GetOr("") else head + "," + cell.GetOr(""))
  }

  /** The rows of a csv table, each followed by a line feed; a row must be
      an array. */
  function RowsText(rows: seq<Json>): (r: Result<string>)
    decreases |rows|
  {
    if |rows| == 0 then Ok("")
    else
      var head :- RowsText(rows[..|rows| - 1]);
      var row := rows[|rows| - 1];
      var cells :- if row.JArr? then Ok(row.items) else if row.JNull? then Err(NullReference) else Err(InvalidCast);
      var line :- Cells(cells);
      Ok(head + line + "\n")
  }

  /** One csv output: its id, the header of field names and the rows. */
  function CsvText(id: string, o: JObject): (r: Result<string>)
    ensures r.Ok? ==> StartsWith(r.value, id + "\n")
    ensures FieldsKey !in o ==> r == Err(NullReference)
  {
    var fs :- GetArray(o, FieldsKey);
    var fields :- Deref(fs);
    var header :- Cells(fields);
    var vs :- GetArray(o, ValuesKey);
    var values :- Deref(vs);
    var rows :- RowsText(values);
    var t := id + "\n" + header + "\n" + rows;
    assert t[..|id + "\n"|] == id + "\n";
    Ok(t)
  }

  const FieldsKey := "fields"
  const ValuesKey := "values"
  const SolutionJson := "solution.json"
  const SolutionXml := "solution.xml"

  predicate IsSolutionFile(id: string) {
    id == SolutionJson || id == SolutionXml
  }

  /** The loop of `GetSolution`: the first "solution.json" or
      "solution.xml" item is returned decoded; the csv tables met before it
      accumulate in `acc`, which is what is returned when no solution file
      comes. */
  function ScanSolution(items: seq<Json>, acc: Option<string>): (r: Result<Option<string>>)
    ensures r.Ok? && r.value != acc ==>
              exists i :: 0 <= i < |items| && ItemId(items[i]).Ok?
                          && (IsSolutionFile(ItemId(items[i]).value) || EndsWith(ItemId(items[i]).value, "csv"))
    decreases |items|
  {
    if |items| == 0 then Ok(acc)
    else
      var id :- ItemId(items[0]);
      if IsSolutionFile(id) then
        var text :- ItemContent(items[0].fields);
        Ok(Some(text))
      else if EndsWith(id, "csv") then
        var csv :- CsvText(id, items[0].fields);
        ScanSolution(items[1..], Some(acc.GetOr("") + csv))
      else ScanSolution(items[1..], acc)
  }

  /** `GetSolution`. */
  function GetSolution(job: Job): (r: Result<Option<string>>)
    ensures ExtractOutputData(job) == Ok(None) ==> r == Err(NullReference)
    ensures ExtractOutputData(job).Ok? && ExtractOutputData(job).value.Some? ==>
              r == ScanSolution(ExtractOutputData(job).value.value, None)
  {
    var out :- ExtractOutputData(job);
    var items :- Deref(out);
    ScanSolution(items, None)
  }

  /** A solution file returns its decoded content whatever came before it
      in the accumulator and whatever follows it. */
  lemma SolutionFileWins(id: string, text: string, rest: seq<Json>, acc: Option<string>)
    requires IsSolutionFile(id)
    ensures ScanSolution([Item(id, EncodeBase64(text))] + rest, acc) == Ok(Some(text))
  {
    var items := [Item(id, EncodeBase64(text))] + rest;
    assert items[0] == Item(id, EncodeBase64(text));
    Base64TextRoundTrip(text);
  }

  /** An output item that is neither a solution file nor a csv table. */
  predicate Unrelated(j: Json) {
    ItemId(j).Ok? && !IsSolutionFile(ItemId(j).value) && !EndsWith(ItemId(j).value, "csv")
  }

  /** Items that are neither solution files nor csv tables change nothing:
      with none of either the result is null. */
  lemma {:induction false} OtherItemsIgnored(items: seq<Json>, acc: Option<string>)
    requires forall i :: 0 <= i < |items| ==>
               Unrelated(items[i])
    ensures ScanSolution(items, acc) == Ok(acc)
    decreases |items|
  {
    if |items| > 0 {
      assert forall i :: 0 <= i < |items[1..]| ==> items[1..][i] == items[i + 1];
      OtherItemsIgnored(items[1..], acc);
    }
  }

  /** An output item `o` with id `id` that is a csv table whose text is `t`. */
  predicate CsvTable(id: string, o: JObject, t: string) {
    EndsWith(id, "csv") && !IsSolutionFile(id) && IdKey in o && o[IdKey] == JStr(id) && CsvText(id, o) == Ok(t)
  }

  /** A csv table adds its text to the accumulator. */
  lemma CsvStep(id: string, o: JObject, rest: seq<Json>, acc: Option<string>, t: string)
    requires CsvTable(id, o, t)
    ensures ScanSolution([JObj(o)] + rest, acc) == ScanSolution(rest, Some(acc.GetOr("") + t))
    ensures acc.None? ==> ScanSolution([JObj(o)] + rest, acc) == ScanSolution(rest, Some(t))
  {
    var items := [JObj(o)] + rest;
    assert items[0] == JObj(o) && items[1..] == rest;
    assert ItemId(JObj(o)) == Ok(id);
    assert "" + t == t;
  }

  /** Without a solution file the csv text is what is returned: one csv
      table followed by unrelated items gives that table's text. */
  lemma CsvReturnedWithoutSolutionFile(id: string, o: JObject, rest: seq<Json>, t: string)
    requires CsvTable(id, o, t)
    requires forall i :: 0 <= i < |rest| ==> Unrelated(rest[i])
    ensures ScanSolution([JObj(o)] + rest, None) == Ok(Some(t))
  {
    CsvStep(id, o, rest, None, t);
    OtherItemsIgnored(rest, Some(t));
  }
}
