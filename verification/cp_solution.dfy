/** The CP solution document returned by the job service (`WmlSolution` and
    `Segment`): a JSON object whose sections are decoded into name-keyed
    maps and lists. */
module CpSolution {
  import opened Wrappers
  import opened Strs
  import opened Num
  import opened Json
  import opened ModelObjects

  /** The CP Optimizer solve statuses. */
  datatype Status =
    | Feasible
    | Optimal
    | Infeasible
    | InfeasibleOrUnbounded
    | Unbounded
    | Unknown
    | Error

  /** The document's text for each status other than `Error`. */
  function StatusName(st: Status): string {
    match st
    case Feasible => "Feasible"
    case Optimal => "Optimal"
    case Infeasible => "Infeasible"
    case InfeasibleOrUnbounded => "InfeasibleOrUnbounded"
    case Unbounded => "Unbounded"
    case Unknown => "Unknown"
    case Error => "Error"
  }

  /** `GetStatus(String)`: a null or unrecognised text is `Error`. */
  function StatusOf(text: Option<string>): (r: Status)
    ensures r != Error ==> text == Some(StatusName(r))
  {
    match text
    case None => Error
    case Some(t) =>
      if t == "Feasible" then Feasible
      else if t == "Optimal" then Optimal
      else if t == "Infeasible" then Infeasible
      else if t == "InfeasibleOrUnbounded" then InfeasibleOrUnbounded
      else if t == "Unbounded" then Unbounded
      else if t == "Unknown" then Unknown
      else Error
  }

  /** Each of the six status texts decodes to the status of that name. */
  lemma StatusRoundTrip(st: Status)
    requires st != Error
    ensures StatusOf(Some(StatusName(st))) == st
  {
  }

  /** CP Optimizer's interval bounds and "no state" value. */
  const IntervalMin: int := -1073741823
  const IntervalMax: int := 1073741823
  const NoState: int := -1

  datatype Segment = Segment(start: int, end: int, value: int)

  const ArgumentNullS := "Value cannot be null. (Parameter 's')"

  /** One bound of a segment: absent or the sentinel text gives the
      sentinel, a null value throws, anything else goes to `int.Parse`. */
  function SegmentBound(seg: JObject, key: string, sentinelText: string, sentinel: int): (r: Result<int>)
    ensures key !in seg ==> r == Ok(sentinel)
    ensures key in seg && seg[key] == JStr(sentinelText) ==> r == Ok(sentinel)
    ensures key in seg && seg[key].JStr? && seg[key].s != sentinelText ==> r == ParseInt(seg[key].s)
  {
    if key !in seg then Ok(sentinel)
    else
      var text :- GetString(seg, key);
      var t :- Deref(text);
      if t == sentinelText then Ok(sentinel) else ParseInt(t)
  }

  /** `new Segment(segment)`, after the cast of the array item to an object. */
  function DecodeSegment(j: Json): (r: Result<Segment>)
    ensures r.Ok? ==> j.JObj?
    ensures !j.JObj? ==> r == Err(InvalidCast)
    ensures r.Ok? ==> SegmentBound(j.fields, "start", "intervalmin", IntervalMin) == Ok(r.value.start)
    ensures r.Ok? ==> SegmentBound(j.fields, "end", "intervalmax", IntervalMax) == Ok(r.value.end)
    ensures r.Ok? && "value" !in j.fields ==> r.value.value == NoState
    ensures r.Ok? && "value" in j.fields && j.fields["value"].JStr? ==> Ok(r.value.value) == ParseInt(j.fields["value"].s)
  {
    match j
    case JObj(seg) =>
      var start :- SegmentBound(seg, "start", "intervalmin", IntervalMin);
      var end :- SegmentBound(seg, "end", "intervalmax", IntervalMax);
      var value :- if "value" !in seg then Ok(NoState)
                   else
                     var text :- GetString(seg, "value");
                     if text.None? then Err(ArgumentNullS) else ParseInt(text.value);
      Ok(Segment(start, end, value))
    case _ => Err(InvalidCast)
  }

  /** Only the matching sentinel is special: the other one goes to
      `int.Parse` and fails. */
  lemma CrossedSentinelsFail(seg: JObject)
    requires ("start" in seg && seg["start"] == JStr("intervalmax")) ||
             ("end" in seg && seg["end"] == JStr("intervalmin"))
    ensures DecodeSegment(JObj(seg)).Err?
  {
    NumberBodyUntrimmed("intervalmax");
    NumberBodyUntrimmed("intervalmin");
    assert !AllDigits("intervalmax") by { assert !IsDigit("intervalmax"[0]); }
    assert !AllDigits("intervalmin") by { assert !IsDigit("intervalmin"[0]); }
  }

  /** `ParseDoubleFromString`: "infinity" in any letter case is +∞. */
  function ParseNumber(text: string): (r: Double)
    ensures r == PosInf <==> ToLower(text) == "infinity"
    ensures ToLower(text) != "infinity" ==> r == ParseDouble(text)
  {
    if ToLower(text) == "infinity" then PosInf else ParseDouble(text)
  }

  lemma InfinityAnyCase()
    ensures ParseNumber("Infinity") == PosInf
    ensures ParseNumber("INFINITY") == PosInf
    ensures ParseNumber("-Infinity") == ParseDouble("-Infinity")
  {
    assert ToLower("Infinity") == "infinity";
    assert ToLower("INFINITY") == "infinity";
    assert ToLower("-Infinity")[0] == '-';
  }

  datatype WmlSolution = WmlSolution(
    name2val: map<string, Double>,
    name2start: map<string, Double>,
    name2size: map<string, Double>,
    name2end: map<string, Double>,
    name2nameList: map<string, seq<string>>,
    name2segmentList: map<string, seq<Segment>>,
    var2val: map<ObjId, Double>,
    var2start: map<ObjId, Double>,
    var2size: map<ObjId, Double>,
    var2end: map<ObjId, Double>,
    var2intervalList: map<ObjId, seq<Option<ObjId>>>,
    var2segmentList: map<ObjId, seq<Segment>>,
    objectiveValues: seq<Double>,
    boundValues: seq<Double>,
    gapValues: seq<Double>,
    kpi2val: map<string, Double>,
    conflictingConstraints: map<string, Option<string>>,
    conflictingIntervalVars: map<string, Option<string>>,
    conflictingConstraintList: map<string, Option<ObjId>>,
    conflictingIntervalVarsList: map<string, ObjId>,
    solutionStatus: Option<Status>,
    hasConflicts: bool)

  const Empty := WmlSolution(map[], map[], map[], map[], map[], map[], map[], map[], map[], map[], map[], map[],
                             [], [], [], map[], map[], map[], map[], map[], None, false)

  /** `Reset`: clears the value maps, the lists and the conflict data; the
      sequence and state-function maps and the status are left as they are. */
  function Reset(s: WmlSolution): (r: WmlSolution)
    ensures r.name2val == map[] && r.var2val == map[]
    ensures r.name2start == map[] && r.name2size == map[] && r.name2end == map[]
    ensures r.var2start == map[] && r.var2size == map[] && r.var2end == map[]
    ensures r.objectiveValues == [] && r.boundValues == [] && r.gapValues == [] && r.kpi2val == map[]
    ensures r.conflictingConstraints == map[] && r.conflictingIntervalVars == map[]
    ensures r.conflictingConstraintList == map[] && r.conflictingIntervalVarsList == map[]
    ensures !r.hasConflicts
    ensures r.name2nameList == s.name2nameList && r.name2segmentList == s.name2segmentList
    ensures r.var2intervalList == s.var2intervalList && r.var2segmentList == s.var2segmentList
    ensures r.solutionStatus == s.solutionStatus
  {
    s.(name2val := map[], var2val := map[],
       name2start := map[], var2start := map[],
       name2size := map[], var2size := map[],
       name2end := map[], var2end := map[],
       objectiveValues := [], boundValues := [], gapValues := [],
       kpi2val := map[],
       conflictingConstraints := map[], conflictingIntervalVars := map[],
       conflictingConstraintList := map[], conflictingIntervalVarsList := map[],
       hasConflicts := false)
  }

  /** `GetStatus(JObject)`: no "solutionStatus" member gives null; a missing
      "solveStatus" inside it gives `Error`. */
  function DecodeStatus(doc: JObject): (r: Result<Option<Status>>)
    ensures "solutionStatus" !in doc ==> r == Ok(None)
    ensures r.Ok? && "solutionStatus" in doc ==> r.value.Some?
    ensures r.Ok? && "solutionStatus" in doc ==> doc["solutionStatus"].JObj?
    ensures r.Ok? && "solutionStatus" in doc && doc["solutionStatus"].JObj? && "solveStatus" !in doc["solutionStatus"].fields ==>
              r == Ok(Some(Error))
  {
    var sec :- ObjectSection(doc, "solutionStatus");
    match sec
    case None => Ok(None)
    case Some(m) =>
      var text :- GetString(m, "solveStatus");
      Ok(Some(StatusOf(text)))
  }

  /** One member of "intervalVars": start, size and end when it has a start
      (size and end default to 0), nothing otherwise. */
  function DecodeInterval(j: Json): (r: Result<Option<(Double, Double, Double)>>)
    ensures r.Ok? ==> j.JObj?
    ensures r.Ok? ==> (r.value.Some? <==> "start" in j.fields)
  {
    match j
    case JObj(iv) =>
      if "start" in iv then
        var start :- GetDouble(iv, "start");
        var size :- GetDouble(iv, "size");
        var end :- GetDouble(iv, "end");
        Ok(Some((start, size, end)))
      else Ok(None)
    case JNull => Err(NullReference)
    case _ => Err(InvalidCast)
  }

  /** One member of "sequenceVars": the interval names in document order. */
  function DecodeNameList(j: Json): (r: Result<seq<string>>)
    ensures r.Ok? ==> j.JArr? && |r.value| == |j.items|
    ensures r.Ok? ==> forall i :: 0 <= i < |j.items| ==> Ok(r.value[i]) == ScalarText(j.items[i])
    ensures j.JArr? ==> (r.Ok? <==> forall i :: 0 <= i < |j.items| ==> !j.items[i].JObj? && !j.items[i].JArr?)
  {
    match j
    case JArr(items) => ConvertItems(items, ScalarText)
    case JNull => Err(NullReference)
    case _ => Err(InvalidCast)
  }

  /** One member of "stateFunctions": the segments in document order. */
  function DecodeSegmentList(j: Json): (r: Result<seq<Segment>>)
    ensures r.Ok? ==> j.JArr? && |r.value| == |j.items|
    ensures r.Ok? ==> forall i :: 0 <= i < |j.items| ==> Ok(r.value[i]) == DecodeSegment(j.items[i])
  {
    match j
    case JArr(items) => ConvertItems(items, DecodeSegment)
    case JNull => Err(NullReference)
    case _ => Err(InvalidCast)
  }

  function NumberItem(j: Json): Result<Double> {
    var t :- ScalarText(j);
    Ok(ParseNumber(t))
  }

  /** The entries of an optional map-valued section. */
  function Members<V>(doc: JObject, key: string, conv: Json -> Result<V>): (r: Result<map<string, V>>)
    ensures key !in doc ==> r == Ok(map[])
    ensures r.Ok? && key in doc ==> doc[key].JObj? && r.value.Keys == doc[key].fields.Keys
    ensures r.Ok? && key in doc ==> forall k :: k in doc[key].fields ==> Ok(r.value[k]) == conv(doc[key].fields[k])
  {
    var sec :- ObjectSection(doc, key);
    match sec
    case None => Ok(map[])
    case Some(m) => ConvertValues(m, conv)
  }

  /** The numbers of an optional array section, in order. */
  function Numbers(doc: JObject, key: string): (r: Result<seq<Double>>)
    ensures key !in doc ==> r == Ok([])
    ensures r.Ok? && key in doc ==> doc[key].JArr? && |r.value| == |doc[key].items|
    ensures r.Ok? && key in doc ==> forall i :: 0 <= i < |doc[key].items| ==> Ok(r.value[i]) == NumberItem(doc[key].items[i])
  {
    var sec :- ArraySection(doc, key);
    match sec
    case None => Ok([])
    case Some(items) => ConvertItems(items, NumberItem)
  }

  /** The keys of a map whose entry is present. */
  function Present<V>(m: map<string, Option<V>>): (r: map<string, V>)
    ensures forall k :: k in r <==> k in m && m[k].Some?
    ensures forall k :: k in r ==> Some(r[k]) == m[k]
  {
    map k | k in m && m[k].Some? :: m[k].value
  }

  /** The conflict section: each of its two parts is decoded when present. */
  function DecodeConflict(doc: JObject): (r: Result<(map<string, Option<string>>, map<string, Option<string>>, bool)>)
    ensures "conflict" !in doc ==> r == Ok((map[], map[], false))
    ensures r.Ok? && "conflict" in doc ==>
              doc["conflict"].JObj? &&
              (r.value.2 <==> "constraints" in doc["conflict"].fields || "intervalVars" in doc["conflict"].fields)
    ensures r.Ok? && "conflict" in doc ==> Members(doc["conflict"].fields, "constraints", AsString) == Ok(r.value.0)
    ensures r.Ok? && "conflict" in doc ==> Members(doc["conflict"].fields, "intervalVars", AsString) == Ok(r.value.1)
  {
    var sec :- ObjectSection(doc, "conflict");
    match sec
    case None => Ok((map[], map[], false))
    case Some(c) =>
      var cts :- Members(c, "constraints", AsString);
      var itvs :- Members(c, "intervalVars", AsString);
      Ok((cts, itvs, "constraints" in c || "intervalVars" in c))
  }

  /** The member `n` of "intervalVars" is an object with a start. */
  predicate HasStart(doc: JObject, n: string) {
    "intervalVars" in doc && doc["intervalVars"].JObj? && n in doc["intervalVars"].fields &&
    doc["intervalVars"].fields[n].JObj? && "start" in doc["intervalVars"].fields[n].fields
  }

  /** The "intervalVars" section split into the start, size and end maps. */
  function DecodeIntervals(doc: JObject): (r: Result<(map<string, Double>, map<string, Double>, map<string, Double>)>)
    ensures r.Ok? ==> r.value.0.Keys == r.value.1.Keys == r.value.2.Keys
    ensures r.Ok? ==> forall n :: n in r.value.0 <==> HasStart(doc, n)
  {
    var intervals :- Members(doc, "intervalVars", DecodeInterval);
    var started := Present(intervals);
    Ok((map n | n in started :: started[n].0,
        map n | n in started :: started[n].1,
        map n | n in started :: started[n].2))
  }

  /** Every present section has the JSON type its decoder expects. */
  predicate SectionsShaped(doc: JObject) {
    (forall key :: key in {"solutionStatus", "intVars", "intervalVars", "sequenceVars", "stateFunctions", "KPIs", "conflict"} && key in doc ==> doc[key].JObj?) &&
    (forall key :: key in {"objectives", "bounds", "gaps"} && key in doc ==> doc[key].JArr?)
  }

  /** `new WmlSolution(json)`: `Parse` on a freshly reset solution. */
  function Parse(doc: JObject): (r: Result<WmlSolution>)
    ensures r.Ok? ==> SectionsShaped(doc)
    ensures r.Ok? ==> r.value.var2val == map[] && r.value.var2start == map[] && r.value.var2intervalList == map[]
    ensures r.Ok? ==> DecodeStatus(doc) == Ok(r.value.solutionStatus)
    ensures r.Ok? ==> r.value.name2val.Keys == (if "intVars" in doc then doc["intVars"].fields.Keys else {})
    ensures r.Ok? ==> (forall n :: n in r.value.name2start <==> HasStart(doc, n))
    ensures r.Ok? ==> r.value.name2start.Keys == r.value.name2size.Keys == r.value.name2end.Keys
    ensures r.Ok? ==> |r.value.objectiveValues| == (if "objectives" in doc then |doc["objectives"].items| else 0)
    ensures r.Ok? ==> (r.value.hasConflicts <==> "conflict" in doc && ("constraints" in doc["conflict"].fields || "intervalVars" in doc["conflict"].fields))
  {
    var status :- DecodeStatus(doc);
    var vals :- Members(doc, "intVars", AsDouble);
    var (starts, sizes, ends) :- DecodeIntervals(doc);
    var lists :- Members(doc, "sequenceVars", DecodeNameList);
    var segments :- Members(doc, "stateFunctions", DecodeSegmentList);
    var kpis :- Members(doc, "KPIs", AsDouble);
    var objectives :- Numbers(doc, "objectives");
    var bounds :- Numbers(doc, "bounds");
    var gaps :- Numbers(doc, "gaps");
    var (cts, itvs, hasConflicts) :- DecodeConflict(doc);
    Ok(Reset(Empty).(
      solutionStatus := status,
      name2val := vals,
      name2start := starts,
      name2size := sizes,
      name2end := ends,
      name2nameList := lists,
      name2segmentList := segments,
      kpi2val := kpis,
      objectiveValues := objectives,
      boundValues := bounds,
      gapValues := gaps,
      conflictingConstraints := cts,
      conflictingIntervalVars := itvs,
      hasConflicts := hasConflicts))
  }
}
