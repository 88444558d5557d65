/** `ConnectorImpl`: the connector that builds a job's payload, creates the
    job on the service, polls it to a terminal state and finds or plans the
    deployment that runs it.  Every answer of the service is a parameter;
    the service itself, the clock and the file system are outside the
    model. */
module ConnectorImpl {
  import opened Wrappers
  import opened Strs
  import opened Num
  import opened Json
  import opened TextCodec
  import opened WmlHelper
  import opened HttpUtils
  import Cr = Credentials
  import J = JobImpl

  const ZeroNodes := "Cannot set a 0 node number in "
  const Completed := "completed"
  const Failed := "failed"
  /** The states that end the polling (compared case-sensitively). */
  const Terminal: set<string> := {"completed", "failed", "canceled", "Deleted"}

  const MetadataKey := "metadata"
  const NameKey := "name"
  const ResourcesKey := "resources"
  const JobPrefix := "Job_for_"
  /** The placeholder the input data is spliced in for, quotes included. */
  const Placeholder := "\"XXX\""
  const EntityMark := "\"entity\""
  const MetadataMark := "\"metadata\""

  const StatusRateSetting := "wmlconnector.v4.status_rate"
  const ProgressSetting := "wmlconnector.v4.engine_progress"
  const LogLevelSetting := "wmlconnector.v4.engine_log_level"
  const HardDeleteSetting := "wmlconnector.v4.hard_Delete"
  /** Read by the base class, in minutes. */
  const RefreshSetting := "wmlconnector.v4.refresh_rate"

  const LogTail := "oaas.logTailEnabled"
  const IncludeInput := "oaas.includeInputData"
  const ResultsFormat := "oaas.resultsFormat"
  const EngineLogLevel := "oaas.engineLogLevel"

  /** What `Substring` throws for a negative length. */
  const NegativeLength := "Length cannot be less than zero. (Parameter 'length')"

  /** The output files every engine job asks for, as id patterns. */
  const OutputPatterns := [".*\\.csv", ".*\\.txt", ".*\\.json", ".*\\.xml"]

  // ---------------------------------------------------------------------
  // Construction

  /** The connector's configuration.  The status rate only sets how long
      the polling loop sleeps; the token refresh rate, in milliseconds, only
      how often the token is looked up again. */
  datatype Connector = Connector(creds: Cr.Credentials, runtime: Runtime, size: TShirtSize, nodes: int,
                                 format: Option<string>, statusRate: int, showEngineProgress: bool,
                                 engineLogLevel: string, tokenRefreshRate: int)

  /** What `Boolean.Parse` ignores around the word. */
  predicate IsBoolPadding(c: char) { IsWhiteSpace(c) || c == '\0' }

  /** The word `Boolean.Parse` compares: the text without leading and
      trailing white space and NUL characters. */
  function BoolWord(s: string): (r: string)
    ensures |r| <= |s|
    ensures |r| > 0 ==> !IsBoolPadding(r[0]) && !IsBoolPadding(r[|r| - 1])
  {
    TrimEnd(TrimStart(s, IsBoolPadding), IsBoolPadding)
  }

  /** `Convert.ToBoolean(string)`: "true" or "false" in any letter case,
      once the padding around the word is dropped. */
  function ParseBool(s: string): (r: Result<bool>)
    ensures r.Ok? <==> ToLower(BoolWord(s)) == "true" || ToLower(BoolWord(s)) == "false"
    ensures r.Ok? ==> (r.value <==> ToLower(BoolWord(s)) == "true")
    ensures r.Err? ==> r.msg == "String '" + s + "' was not recognized as a valid Boolean."
  {
    var t := ToLower(BoolWord(s));
    if t == "true" then Ok(true)
    else if t == "false" then Ok(false)
    else Err("String '" + s + "' was not recognized as a valid Boolean.")
  }

  /** Padding around a word is dropped, whatever its amount. */
  lemma {:induction false} BoolWordPadded(pre: string, word: string, post: string)
    requires forall i :: 0 <= i < |pre| ==> IsBoolPadding(pre[i])
    requires forall i :: 0 <= i < |post| ==> IsBoolPadding(post[i])
    requires |word| > 0 && !IsBoolPadding(word[0]) && !IsBoolPadding(word[|word| - 1])
    ensures BoolWord(pre + word + post) == word
  {
    assert pre + word + post == pre + (word + post);
    TrimStartPast(pre, word + post, IsBoolPadding);
    assert TrimStart(word + post, IsBoolPadding) == word + post;
    TrimEndPast(word, post, IsBoolPadding);
    assert TrimEnd(word, IsBoolPadding) == word;
  }

  /** A word between any amount of padding parses as the word itself. */
  lemma ParseBoolPadded(pre: string, word: string, post: string)
    requires forall i :: 0 <= i < |pre| ==> IsBoolPadding(pre[i])
    requires forall i :: 0 <= i < |post| ==> IsBoolPadding(post[i])
    requires |word| > 0 && !IsBoolPadding(word[0]) && !IsBoolPadding(word[|word| - 1])
    ensures ParseBool(word).Ok? ==> ParseBool(pre + word + post) == ParseBool(word)
    ensures ParseBool(word).Err? ==> ParseBool(pre + word + post).Err?
  {
    BoolWordPadded(pre, word, post);
    BoolWordBare(word);
  }

  lemma BoolWordBare(word: string)
    requires |word| > 0 && !IsBoolPadding(word[0]) && !IsBoolPadding(word[|word| - 1])
    ensures BoolWord(word) == word
  {
    assert TrimStart(word, IsBoolPadding) == word;
  }

  /** The refresh setting is read in minutes and kept in milliseconds,
      multiplied in unchecked 32-bit arithmetic. */
  function RefreshMillis(minutes: int): (r: int)
    ensures IsInt32(r)
    ensures 0 <= minutes <= 35_791 ==> r == minutes * 60_000
  {
    Wrap32(minutes * 60 * 1000)
  }

  /** The constructor.  The field initialisers run first: the status rate,
      the progress flag and the log level of this class, then the token
      refresh rate of the base class; a zero node count is refused only
      after all of them. */
  function NewConnector(creds: Cr.Credentials, runtime: Runtime, size: TShirtSize, nodes: int,
                        format: Option<string>, config: Config): (r: Result<Connector>)
    ensures var rate := GetSettingOrDefault(config, StatusRateSetting, "500");
            var progress := GetSettingOrDefault(config, ProgressSetting, "true");
            var refresh := GetSettingOrDefault(config, RefreshSetting, "10");
            r.Ok? <==> ParseInt(rate).Ok? && ParseBool(progress).Ok? && ParseInt(refresh).Ok? && nodes != 0
    ensures ParseInt(GetSettingOrDefault(config, StatusRateSetting, "500")).Err? ==>
              r == Err(ParseInt(GetSettingOrDefault(config, StatusRateSetting, "500")).msg)
    ensures ParseInt(GetSettingOrDefault(config, StatusRateSetting, "500")).Ok?
            && ParseBool(GetSettingOrDefault(config, ProgressSetting, "true")).Ok?
            && ParseInt(GetSettingOrDefault(config, RefreshSetting, "10")).Ok? && nodes == 0 ==>
              r == Err(ZeroNodes)
    ensures r.Ok? ==> r.value.creds == creds && r.value.runtime == runtime && r.value.size == size
                      && r.value.nodes == nodes && r.value.format == format
    ensures r.Ok? ==> ParseInt(GetSettingOrDefault(config, StatusRateSetting, "500")) == Ok(r.value.statusRate)
    ensures r.Ok? ==> r.value.engineLogLevel == GetSettingOrDefault(config, LogLevelSetting, "INFO")
    ensures r.Ok? ==> (r.value.showEngineProgress <==> ToLower(BoolWord(GetSettingOrDefault(config, ProgressSetting, "true"))) == "true")
    ensures r.Ok? ==> r.value.tokenRefreshRate == RefreshMillis(ParseInt(GetSettingOrDefault(config, RefreshSetting, "10")).value)
  {
    var rate :- ParseInt(GetSettingOrDefault(config, StatusRateSetting, "500"));
    var progress :- ParseBool(GetSettingOrDefault(config, ProgressSetting, "true"));
    var level := GetSettingOrDefault(config, LogLevelSetting, "INFO");
    var refresh :- ParseInt(GetSettingOrDefault(config, RefreshSetting, "10"));
    if nodes == 0 then Err(ZeroNodes)
    else Ok(Connector(creds, runtime, size, nodes, format, rate, progress, level, RefreshMillis(refresh)))
  }

  /** The one-argument constructor: runtime 20.1, size M, one node, no
      result format. */
  function DefaultConnector(creds: Cr.Credentials, config: Config): (r: Result<Connector>)
    ensures r.Ok? ==> r.value.runtime == Do20_1 && r.value.size == M && r.value.nodes == 1 && r.value.format == None
  {
    NewConnector(creds, Do20_1, M, 1, None, config)
  }

  /** Without any of the connector settings, construction succeeds with a
      status poll every 500 ms, the engine progress shown, the INFO level
      and a token refresh every ten minutes; only a zero node count fails. */
  lemma UnsetSettingsDefaults(creds: Cr.Credentials, runtime: Runtime, size: TShirtSize, nodes: int,
                              format: Option<string>, config: Config)
    requires StatusRateSetting !in config && ProgressSetting !in config && LogLevelSetting !in config
    requires RefreshSetting !in config
    ensures NewConnector(creds, runtime, size, nodes, format, config).Ok? <==> nodes != 0
    ensures nodes != 0 ==>
              var c := NewConnector(creds, runtime, size, nodes, format, config).value;
              c.statusRate == 500 && c.showEngineProgress && c.engineLogLevel == "INFO" && c.tokenRefreshRate == 600_000
  {
    StatusRateParses(GetSettingOrDefault(config, StatusRateSetting, "500"));
    RefreshParses(GetSettingOrDefault(config, RefreshSetting, "10"));
    TrueParses(GetSettingOrDefault(config, ProgressSetting, "true"));
  }

  lemma StatusRateParses(s: string)
    requires s == "500"
    ensures ParseInt(s) == Ok(500)
  {
    ParseIntOfPrinted(s, 500);
  }

  lemma RefreshParses(s: string)
    requires s == "10"
    ensures ParseInt(s) == Ok(10)
  {
    ParseIntOfPrinted(s, 10);
  }

  lemma TrueParses(s: string)
    requires s == "true"
    ensures ToLower(BoolWord(s)) == "true" && ParseBool(s) == Ok(true)
  {
    BoolWordBare(s);
    assert ToLower(s) == s;
  }

  // ---------------------------------------------------------------------
  // The payload

  /** A JSON object's members in insertion order. */
  type Props = seq<(string, Json)>

  function PropKeys(ps: Props): (r: set<string>)
    ensures forall i :: 0 <= i < |ps| ==> ps[i].0 in r
    ensures forall k :: k in r ==> exists i :: 0 <= i < |ps| && ps[i].0 == k
  {
    set i | 0 <= i < |ps| :: ps[i].0
  }

  function DuplicateProperty(key: string): string {
    "Can not add property " + key + " to Newtonsoft.Json.Linq.JObject. Property with the same name already exists on object."
  }

  /** `JObject.Add`: a member name may be used once. */
  function AddProp(ps: Props, key: string, value: Json): (r: Result<Props>)
    ensures r.Ok? <==> key !in PropKeys(ps)
    ensures r.Ok? ==> r.value == ps + [(key, value)]
    ensures r.Err? ==> r.msg == DuplicateProperty(key)
  {
    if key in PropKeys(ps) then Err(DuplicateProperty(key)) else Ok(ps + [(key, value)])
  }

  /** The overriding parameters added one after the other. */
  function AddOverrides(ps: Props, overrides: Pairs): (r: Result<Props>)
    ensures r.Ok? ==> |r.value| == |ps| + |overrides| && r.value[..|ps|] == ps
    ensures r.Ok? ==> forall i :: 0 <= i < |overrides| ==> r.value[|ps| + i] == (overrides[i].0, JStr(overrides[i].1))
    ensures r.Ok? ==> forall i :: 0 <= i < |overrides| ==> overrides[i].0 !in PropKeys(ps)
    ensures r.Ok? ==> forall i, j :: 0 <= i < j < |overrides| ==> overrides[i].0 != overrides[j].0
    decreases |overrides|
  {
    if |overrides| == 0 then Ok(ps)
    else
      var init := overrides[..|overrides| - 1];
      var last := overrides[|overrides| - 1];
      var qs :- AddOverrides(ps, init);
      var rs :- AddProp(qs, last.0, JStr(last.1));
      assert forall i :: 0 <= i < |ps| ==> qs[i] == ps[i];
      assert forall i :: 0 <= i < |init| ==> qs[|ps| + i].0 == init[i].0;
      Ok(rs)
  }

  /** The solve parameters every job starts with. */
  function Defaults(c: Connector): (r: Props)
    ensures |r| == 4
  {
    [(LogTail, JStr(if c.showEngineProgress then "true" else "false")),
     (IncludeInput, JStr("false")),
     (ResultsFormat, match c.format case Some(f) => JStr(f) case None => JNull),
     (EngineLogLevel, JStr(c.engineLogLevel))]
  }

  /** The `solve_parameters` object of `BuildPayload`: the defaults first,
      then every override; an override of a default, or a repeated one,
      is refused by the JSON object. */
  function SolveParameters(c: Connector, overrides: Pairs): (r: Result<Props>)
    ensures r.Ok? ==> |r.value| == 4 + |overrides| && r.value[..4] == Defaults(c)
    ensures r.Ok? ==> r.value[0] == (LogTail, JStr(if c.showEngineProgress then "true" else "false"))
                      && r.value[1] == (IncludeInput, JStr("false"))
                      && r.value[2].0 == ResultsFormat && (r.value[2].1.JNull? <==> c.format.None?)
    ensures r.Ok? ==> forall i :: 0 <= i < |overrides| ==> r.value[4 + i] == (overrides[i].0, JStr(overrides[i].1))
    ensures r.Ok? <==> Fresh(Defaults(c), overrides)
  {
    var d := Defaults(c);
    var r := AddOverrides(d, overrides);
    assert Fresh(d, overrides) ==> r.Ok? by {
      if Fresh(d, overrides) {
        OverridesAccepted(d, overrides);
      }
    }
    assert r.Ok? ==> r.value[0] == d[0] && r.value[1] == d[1] && r.value[2] == d[2] by {
      if r.Ok? {
        assert r.value[..4] == d;
        assert r.value[0] == r.value[..4][0] && r.value[1] == r.value[..4][1] && r.value[2] == r.value[..4][2];
      }
    }
    r
  }

  /** Overrides with names not among `ps` and different from each other. */
  predicate Fresh(ps: Props, overrides: Pairs) {
    (forall i :: 0 <= i < |overrides| ==> overrides[i].0 !in PropKeys(ps))
    && (forall i, j :: 0 <= i < j < |overrides| ==> overrides[i].0 != overrides[j].0)
  }

  /** Overrides with fresh, distinct names are all accepted. */
  lemma {:induction false} OverridesAccepted(ps: Props, overrides: Pairs)
    requires forall i :: 0 <= i < |overrides| ==> overrides[i].0 !in PropKeys(ps)
    requires forall i, j :: 0 <= i < j < |overrides| ==> overrides[i].0 != overrides[j].0
    ensures AddOverrides(ps, overrides).Ok?
    decreases |overrides|
  {
    if |overrides| > 0 {
      var init := overrides[..|overrides| - 1];
      var last := overrides[|overrides| - 1];
      OverridesAccepted(ps, init);
      var qs := AddOverrides(ps, init).value;
      forall i | 0 <= i < |qs| ensures qs[i].0 != last.0 {
        if i < |ps| {
          assert qs[i] == ps[i];
        } else {
          assert qs[i].0 == init[i - |ps|].0;
        }
      }
    }
  }

  /** The members as the JSON tree holds them. */
  function ObjectOf(ps: Props): (r: JObject)
    ensures r.Keys == PropKeys(ps)
    decreases |ps|
  {
    if |ps| == 0 then map[]
    else
      assert PropKeys(ps) == PropKeys(ps[..|ps| - 1]) + {ps[|ps| - 1].0};
      ObjectOf(ps[..|ps| - 1])[ps[|ps| - 1].0 := ps[|ps| - 1].1]
  }

  function IdItem(id: string): Json {
    JObj(map[J.IdKey := JStr(id)])
  }

  /** The payload object of `BuildPayload` before it is printed: the job
      name, the space, the deployment, the solve parameters, the four
      output patterns and the placeholder for the input data. */
  function PayloadObject(c: Connector, deploymentId: string, overrides: Pairs): (r: Result<JObject>)
    ensures Cr.Get(c.creds, Cr.WmlSpaceId).Err? ==> r.Err?
    ensures r.Ok? <==> Cr.ContainsKey(c.creds, Cr.WmlSpaceId) && SolveParameters(c, overrides).Ok?
    ensures r.Ok? ==>
              NameKey in r.value && r.value[NameKey] == JStr(JobPrefix + deploymentId)
              && SpaceIdParam in r.value && r.value[SpaceIdParam] == JStr(c.creds.entries[Cr.WmlSpaceId])
              && "deployment" in r.value && r.value["deployment"] == IdItem(deploymentId)
    ensures r.Ok? ==>
              J.DecisionOptimization in r.value && r.value[J.DecisionOptimization].JObj?
              && var d := r.value[J.DecisionOptimization].fields;
              "solve_parameters" in d && d["solve_parameters"] == JObj(ObjectOf(SolveParameters(c, overrides).value))
              && J.OutputDataKey in d && d[J.OutputDataKey] == JArr(seq(4, i requires 0 <= i < 4 => IdItem(OutputPatterns[i])))
              && "input_data" in d && d["input_data"] == JStr("XXX")
  {
    var space :- Cr.Get(c.creds, Cr.WmlSpaceId);
    var params :- SolveParameters(c, overrides);
    Ok(map[NameKey := JStr(JobPrefix + deploymentId),
           SpaceIdParam := JStr(space),
           "deployment" := IdItem(deploymentId),
           J.DecisionOptimization := JObj(DoSection(params))])
  }

  /** The `decision_optimization` member of the payload: the solve
      parameters, the four output patterns and the input placeholder. */
  function DoSection(params: Props): (r: JObject)
    ensures "solve_parameters" in r && r["solve_parameters"] == JObj(ObjectOf(params))
    ensures J.OutputDataKey in r && r[J.OutputDataKey] == JArr(seq(4, i requires 0 <= i < 4 => IdItem(OutputPatterns[i])))
    ensures "input_data" in r && r["input_data"] == JStr("XXX")
  {
    map["solve_parameters" := JObj(ObjectOf(params)),
        J.OutputDataKey := JArr(seq(4, i requires 0 <= i < 4 => IdItem(OutputPatterns[i]))),
        "input_data" := JStr("XXX")]
  }

  /** The separator between the caller's input items and the model item:
      none when the input array is empty. */
  function Separator(items: string): string {
    if |items| > 1 then "," else ""
  }

  /** The text the spliced payload encodes: the printed payload with its
      placeholder replaced by the input array, to which one more item is
      added — the model file, by id and Base64 content. */
  function SplicedText(before: string, items: string, sav: string, base64: string, after: string): string {
    before + items + Separator(items) + "{\"id\": \"" + sav + "\",\"content\": \"" + base64 + "\"}]" + after
  }

  /** The text before the model's content: the payload up to the
      placeholder, the input items, the separator and the model item's id. */
  function IdText(before: string, items: string, sav: string): string {
    before + items + Separator(items) + "{\"id\": \"" + sav + "\""
  }

  const ContentText := ",\"content\": \""

  function EndText(after: string): string {
    "\"}]" + after
  }

  lemma SplicedTextParts(before: string, items: string, sav: string, base64: string, after: string)
    ensures IdText(before, items, sav) + ContentText + base64 + EndText(after) == SplicedText(before, items, sav, base64, after)
  {
  }

  /** The four byte blocks copied into one array, in order. */
  method Splice(jsid: seq<Byte>, jscontent: seq<Byte>, encoded: seq<Byte>, jsend: seq<Byte>) returns (ret: seq<Byte>)
    ensures |ret| == |jsid| + |jscontent| + |jsend| + |encoded|
    ensures ret == jsid + jscontent + encoded + jsend
  {
    var whole := jsid + jscontent + encoded + jsend;
    var a := new Byte[|jsid| + |jscontent| + |jsend| + |encoded|];
    for i := 0 to |jsid|
      invariant forall j :: 0 <= j < i ==> a[j] == whole[j]
    {
      a[i] := jsid[i];
    }
    var at := |jsid|;
    for i := 0 to |jscontent|
      invariant forall j :: 0 <= j < at + i ==> a[j] == whole[j]
    {
      a[at + i] := jscontent[i];
    }
    at := at + |jscontent|;
    for i := 0 to |encoded|
      invariant forall j :: 0 <= j < at + i ==> a[j] == whole[j]
    {
      a[at + i] := encoded[i];
    }
    at := at + |encoded|;
    for i := 0 to |jsend|
      invariant forall j :: 0 <= j < at + i ==> a[j] == whole[j]
    {
      a[at + i] := jsend[i];
    }
    ret := a[..];
  }

  /** `BuildPayload`, from the printed payload object and the printed
      input array: the text before the placeholder, the input array
      without its closing bracket, the model item's id, its content
      header, the Base64 of the model file and the rest, each as UTF-8
      bytes, spliced together.  A payload without the placeholder, or an
      empty input text, makes `Substring` throw. */
  method BuildPayload(payloadText: string, inputText: string, sav: string, model: seq<Byte>)
    returns (r: Result<seq<Byte>>)
    ensures r.Ok? <==> IndexOf(payloadText, Placeholder) >= 0 && |inputText| > 0
    ensures r.Err? ==> r.msg == NegativeLength
    ensures r.Ok? ==>
              var where := IndexOf(payloadText, Placeholder);
              var text := SplicedText(payloadText[..where], inputText[..|inputText| - 1], sav, Encode(model),
                                      payloadText[where + |Placeholder|..]);
              r.value == Utf8(text) && Utf8Decode(r.value) == Ok(text)
  {
    var where := IndexOf(payloadText, Placeholder);
    if where < 0 {
      return Err(NegativeLength);
    }
    var before := payloadText[..where];
    var after := payloadText[where + |Placeholder|..];
    if |inputText| == 0 {
      return Err(NegativeLength);
    }
    var json := inputText[..|inputText| - 1];
    var jsid, jscontent, encoded, jsend := Blocks(before, json, sav, model, after);
    var bytes := Splice(jsid, jscontent, encoded, jsend);
    return Ok(bytes);
  }

  /** The four byte blocks of `BuildPayload`: the text up to the model
      item's id, its content header, the Base64 of the model file and the
      rest.  Together they are the UTF-8 bytes of the payload text. */
  method Blocks(before: string, items: string, sav: string, model: seq<Byte>, after: string)
    returns (jsid: seq<Byte>, jscontent: seq<Byte>, encoded: seq<Byte>, jsend: seq<Byte>)
    ensures var text := SplicedText(before, items, sav, Encode(model), after);
            jsid + jscontent + encoded + jsend == Utf8(text) && Utf8Decode(jsid + jscontent + encoded + jsend) == Ok(text)
  {
    jsid, jscontent, encoded, jsend := Utf8(IdText(before, items, sav)), Utf8(ContentText), EncodedFile(model), Utf8(EndText(after));
    SplicedPayload(before, items, sav, model, after);
  }

  /** The blocks `BuildPayload` splices are the UTF-8 bytes of the payload
      text, and decode back to it. */
  lemma SplicedPayload(before: string, items: string, sav: string, model: seq<Byte>, after: string)
    ensures var text := SplicedText(before, items, sav, Encode(model), after);
            var bytes := Utf8(IdText(before, items, sav)) + Utf8(ContentText) + EncodedFile(model) + Utf8(EndText(after));
            bytes == Utf8(text) && Utf8Decode(bytes) == Ok(text)
  {
    PayloadBytes(IdText(before, items, sav), ContentText, model, EndText(after));
    SplicedTextParts(before, items, sav, Encode(model), after);
  }

  /** The four blocks of `BuildPayload` are the UTF-8 bytes of the joined
      text, and decode back to it. */
  lemma PayloadBytes(idText: string, contentText: string, model: seq<Byte>, endText: string)
    ensures var text := idText + contentText + Encode(model) + endText;
            var bytes := Utf8(idText) + Utf8(contentText) + EncodedFile(model) + Utf8(endText);
            bytes == Utf8(text) && Utf8Decode(bytes) == Ok(text)
  {
    EncodedIsAscii(model);
    assert EncodedFile(model) == Utf8(Encode(model));
    SplicedBytes(idText, contentText, Encode(model), endText);
    Utf8RoundTrip(idText + contentText + Encode(model) + endText);
  }

  /** Encoding the parts one by one and joining the bytes is encoding the
      joined text. */
  lemma SplicedBytes(a: string, b: string, c: string, d: string)
    requires IsAscii(c)
    ensures Utf8(a) + Utf8(b) + Utf8(c) + Utf8(d) == Utf8(a + b + c + d)
  {
    Utf8Append(a, b);
    Utf8Append(a + b, c);
    Utf8Append(a + b + c, d);
  }

  /** When the placeholder first occurs right after `before` and the input
      is a bracketed array, the payload holds `before`, the input's items,
      the model item closing the array, and the rest of the payload: the
      placeholder has become the input array with the model appended. */
  lemma PlaceholderReplaced(before: string, after: string, items: string, sav: string, model: seq<Byte>)
    requires forall j :: 0 <= j < |before| ==> !OccursAt(before + Placeholder + after, Placeholder, j)
    ensures var text := before + Placeholder + after;
            IndexOf(text, Placeholder) == |before|
            && text[..|before|] == before && text[|before| + |Placeholder|..] == after
            && SplicedText(before, ("[" + items + "]")[..|items| + 1], sav, Encode(model), after)
               == before + "[" + items + Separator("[" + items) + "{\"id\": \"" + sav + "\",\"content\": \""
                  + Encode(model) + "\"}]" + after
  {
    var text := before + Placeholder + after;
    assert OccursAt(text, Placeholder, |before|) by {
      assert text[|before|..|before| + |Placeholder|] == Placeholder;
    }
    assert text[..|before|] == before;
    assert text[|before| + |Placeholder|..] == after;
    assert ("[" + items + "]")[..|items| + 1] == "[" + items;
  }

  /** With an empty input array the model file is the array's only item;
      with a non-empty one it follows the others after a comma. */
  lemma SeparatorOnlyBetweenItems(items: string)
    ensures Separator("[") == ""
    ensures |items| > 0 ==> Separator("[" + items) == ","
  {
  }

  // ---------------------------------------------------------------------
  // Creating the job

  /** The request of `CreateEngineJob`. */
  function EngineJobCall(c: Connector, token: Option<string>, payload: seq<Byte>): (r: Result<Call>)
    ensures r.Ok? <==> Cr.ContainsKey(c.creds, Cr.WmlHost) && WmlParams(c.creds).Ok?
    ensures r.Ok? ==> r.value.verb == Post && r.value.body == payload
                      && r.value.target == BuildTargetUrl(c.creds.entries[Cr.WmlHost], DeploymentJobs,
                                                          Some(WmlParams(c.creds).value))
    ensures r.Ok? ==> r.value.headers == WmlHeaders(token) + [(Accept, ApplicationJson), (ContentType, ApplicationJson)]
  {
    var headers := WmlHeaders(token) + [(Accept, ApplicationJson), (ContentType, ApplicationJson)];
    var host :- Cr.Get(c.creds, Cr.WmlHost);
    var params :- WmlParams(c.creds);
    Ok(Prepare(Post, host, DeploymentJobs, Some(params), headers, Some(payload)))
  }

  /** The cut applied to the creation answer before it is parsed: when
      "metadata" comes after "entity" the answer is reduced to an object
      that starts at "metadata"; otherwise the answer is cut before
      "entity" and each "}," made "}}" to close the objects left open.
      With neither mark the cut throws. */
  function CutAnswer(res: string): (r: Result<string>)
    ensures r.Err? <==> IndexOf(res, EntityMark) == -1 && IndexOf(res, MetadataMark) == -1
    ensures r.Err? ==> r.msg == NegativeLength
    ensures IndexOf(res, MetadataMark) > IndexOf(res, EntityMark) ==> r.Ok? && StartsWith(r.value, "{" + MetadataMark)
  {
    var entityIndex := IndexOf(res, EntityMark);
    var metadataIndex := IndexOf(res, MetadataMark);
    if metadataIndex > entityIndex then
      assert ("{" + res[metadataIndex..])[..1 + |MetadataMark|] == "{" + res[metadataIndex..metadataIndex + |MetadataMark|];
      Ok("{" + res[metadataIndex..])
    else if entityIndex < 0 then Err(NegativeLength)
    else Ok(Replace(res[..entityIndex], "},", "}}"))
  }

  /** An answer holding the entity before the metadata is cut down to an
      object with the metadata alone. */
  lemma EntityFirstKeepsMetadata(entity: string, metadata: string)
    requires forall j :: 0 <= j < 1 + |EntityMark| + |entity|
                         ==> !OccursAt("{" + EntityMark + entity + MetadataMark + metadata, MetadataMark, j)
    ensures CutAnswer("{" + EntityMark + entity + MetadataMark + metadata) == Ok("{" + MetadataMark + metadata)
  {
    var res := "{" + EntityMark + entity + MetadataMark + metadata;
    var k := 1 + |EntityMark| + |entity|;
    assert OccursAt(res, EntityMark, 1) by {
      assert res[1..1 + |EntityMark|] == EntityMark;
    }
    assert !OccursAt(res, EntityMark, 0) by {
      assert res[0] == '{';
    }
    assert IndexOf(res, EntityMark) == 1;
    assert OccursAt(res, MetadataMark, k) by {
      assert res[k..k + |MetadataMark|] == MetadataMark;
    }
    assert IndexOf(res, MetadataMark) == k;
    assert res[k..] == MetadataMark + metadata;
    assert CutAnswer(res) == Ok("{" + res[k..]);
    assert "{" + res[k..] == "{" + MetadataMark + metadata;
  }

  /** An answer holding the metadata first, as a flat object followed by
      "}," and then the entity, is cut before the entity with the metadata
      object closed: "}," becomes "}}". */
  lemma MetadataFirstClosesObject(metadata: string, gap: string, entity: string)
    requires Free(metadata, '}') && Free(gap, '}')
    requires forall j :: 0 <= j < 1 + |MetadataMark| + |metadata| + 2 + |gap|
                         ==> !OccursAt("{" + MetadataMark + metadata + "}," + gap + EntityMark + entity, EntityMark, j)
    ensures CutAnswer("{" + MetadataMark + metadata + "}," + gap + EntityMark + entity)
            == Ok("{" + MetadataMark + metadata + "}}" + gap)
  {
    var head := "{" + MetadataMark + metadata;
    var tail := "}," + gap;
    var res := head + tail + (EntityMark + entity);
    assert res == "{" + MetadataMark + metadata + "}," + gap + EntityMark + entity;
    var k := |head| + |tail|;
    assert res[1..1 + |MetadataMark|] == MetadataMark by {
      assert res[..|head|] == head;
    }
    assert res[k..k + |EntityMark|] == EntityMark by {
      assert res[k..] == EntityMark + entity;
    }
    CutBeforeEntity(res, k);
    assert res[..k] == head + tail;
    OpeningFree();
    FreeConcat("{" + MetadataMark, metadata, '}');
    ClosingReplaced(head, gap);
    assert head + "}}" + gap == "{" + MetadataMark + metadata + "}}" + gap;
  }

  lemma OpeningFree()
    ensures Free("{" + MetadataMark, '}')
  {
  }

  /** With "metadata" at position 1 and the first "entity" at `k`, the
      answer is cut before the entity. */
  lemma CutBeforeEntity(res: string, k: int)
    requires 1 + |MetadataMark| <= k <= |res| - |EntityMark|
    requires res[1..1 + |MetadataMark|] == MetadataMark && res[k..k + |EntityMark|] == EntityMark
    requires forall j :: 0 <= j < k ==> !OccursAt(res, EntityMark, j)
    ensures CutAnswer(res) == Ok(Replace(res[..k], "},", "}}"))
  {
    assert OccursAt(res, EntityMark, k);
    assert IndexOf(res, EntityMark) == k;
    assert OccursAt(res, MetadataMark, 1);
    assert res[1] == '"';
    assert !OccursAt(res, MetadataMark, 0) by {
      assert res[0..|MetadataMark|][1] == res[1];
    }
    assert IndexOf(res, MetadataMark) == 1;
  }

  /** A flat object's "}," followed by a gap without braces becomes "}}". */
  lemma ClosingReplaced(head: string, gap: string)
    requires Free(head, '}') && Free(gap, '}')
    ensures Replace(head + ("}," + gap), "},", "}}") == head + "}}" + gap
  {
    ReplaceSkips(head, "}," + gap, "},", "}}");
    ReplaceHit(gap, "},", "}}");
    ReplaceFree(gap, "},", "}}");
  }

  /** `CreateEngineJob`: the request, the cut of its answer, the parse of
      the cut text (the JSON library's, a parameter), and the job id read
      from metadata.id.  A null answer or a missing metadata object
      throws; the job starts without a status. */
  function CreateEngineJob(c: Connector, token: Option<string>, deploymentId: string, payload: seq<Byte>,
                           answer: Option<string>, parse: string -> Option<Json>): (r: Result<J.Job>)
    ensures EngineJobCall(c, token, payload).Err? || answer.None? ==> r.Err?
    ensures r.Ok? ==> answer.Some? && CutAnswer(answer.value).Ok?
    ensures r.Ok? ==> r.value.deploymentId == deploymentId && r.value.status.None?
    ensures r.Ok? ==>
              var cut := parse(CutAnswer(answer.value).value);
              cut.Some? && cut.value.JObj? && HasObjectAt(cut.value.fields, MetadataKey)
              && GetString(cut.value.fields[MetadataKey].fields, J.IdKey) == Ok(r.value.jobId)
  {
    var _ :- EngineJobCall(c, token, payload);
    var res :- Deref(answer);
    var cut :- CutAnswer(res);
    var json := ParseJson(Some(Body(cut, parse(cut)))).value;
    var metadata :- GetObject(json, MetadataKey);
    var m :- Deref(metadata);
    var id :- GetString(m, J.IdKey);
    Ok(J.New(deploymentId, id))
  }

  predicate HasObjectAt(o: JObject, key: string) {
    key in o && o[key].JObj?
  }

  // ---------------------------------------------------------------------
  // Waiting for completion

  /** Where the polling stands: finished in a terminal state, or still
      polling when the answers ran out. */
  datatype Waited = Done(job: J.Job, final: string) | Polling(job: J.Job, seen: Option<string>)

  predicate IsTerminal(state: Option<string>) {
    state.Some? && state.value in Terminal
  }

  /** One round of the loop: the status update, whose failures escape; the
      state read, whose failures are logged and keep the state observed
      before; and, for a null or failed state, the failure report. */
  function Poll(job: J.Job, creds: Cr.Credentials, token: Option<string>, answer: Option<Body>,
                state: Option<string>): (r: Result<(J.Job, Option<string>)>)
    ensures J.UpdateStatus(job, creds, token, answer).Err? ==> r.Err?
    ensures r.Ok? ==> r.value.0 == J.UpdateStatus(job, creds, token, answer).value
    ensures r.Ok? && J.GetState(r.value.0).Err? ==> r.value.1 == state
    ensures r.Ok? && J.GetState(r.value.0).Ok? ==> r.value.1 == J.GetState(r.value.0).value
    ensures r.Ok? && (r.value.1.None? || r.value.1 == Some(Failed)) ==> J.GetFailure(r.value.0).Ok?
  {
    var updated :- J.UpdateStatus(job, creds, token, answer);
    var s := match J.GetState(updated) case Ok(v) => v case Err(_) => state;
    if s.None? || s == Some(Failed) then
      var _ :- J.GetFailure(updated);
      Ok((updated, s))
    else Ok((updated, s))
  }

  /** The loop of `WaitCompletion` over the answers the service gives to
      successive status requests, from a state that does not end it: it
      stops at the first terminal state, reads the output data when that
      state is "completed", and otherwise keeps polling. */
  function PollUntilDone(job: J.Job, creds: Cr.Credentials, token: Option<string>, answers: seq<Option<Body>>,
                         state: Option<string>): (r: Result<Waited>)
    requires !IsTerminal(state)
    ensures r.Ok? && r.value.Done? ==> r.value.final in Terminal
    ensures r.Ok? && r.value.Polling? ==> !IsTerminal(r.value.seen)
    ensures |answers| == 0 ==> r == Ok(Polling(job, state))
    ensures r.Ok? && r.value.Done? && r.value.final == Completed ==> J.ExtractOutputData(r.value.job).Ok?
    ensures r.Ok? ==> r.value.job.deploymentId == job.deploymentId && r.value.job.jobId == job.jobId
    ensures |answers| > 0 && J.UpdateStatus(job, creds, token, answers[0]).Err? ==> r.Err?
    decreases |answers|
  {
    if |answers| == 0 then Ok(Polling(job, state))
    else
      var (j, s) :- Poll(job, creds, token, answers[0], state);
      if IsTerminal(s) then
        if s.value == Completed then
          var _ :- J.ExtractOutputData(j);
          Ok(Done(j, s.value))
        else Ok(Done(j, s.value))
      else PollUntilDone(j, creds, token, answers[1..], s)
  }

  /** `WaitCompletion`: the loop starts before any state is known. */
  function WaitCompletion(job: J.Job, creds: Cr.Credentials, token: Option<string>, answers: seq<Option<Body>>)
    : (r: Result<Waited>)
    ensures r.Ok? && r.value.Done? ==> r.value.final in Terminal
    ensures r.Ok? && r.value.Polling? ==> !IsTerminal(r.value.seen)
    ensures r.Ok? && r.value.Done? && r.value.final == Completed ==> J.ExtractOutputData(r.value.job).Ok?
  {
    PollUntilDone(job, creds, token, answers, None)
  }

  /** Once the loop has finished, later answers are never read. */
  lemma {:induction false} LaterAnswersUnread(job: J.Job, creds: Cr.Credentials, token: Option<string>,
                                              answers: seq<Option<Body>>, more: seq<Option<Body>>, state: Option<string>)
    requires !IsTerminal(state)
    requires PollUntilDone(job, creds, token, answers, state).Ok?
    requires PollUntilDone(job, creds, token, answers, state).value.Done?
    ensures PollUntilDone(job, creds, token, answers + more, state) == PollUntilDone(job, creds, token, answers, state)
    decreases |answers|
  {
    var all := answers + more;
    assert all[0] == answers[0];
    var p := Poll(job, creds, token, answers[0], state);
    if !IsTerminal(p.value.1) {
      assert all[1..] == answers[1..] + more;
      LaterAnswersUnread(p.value.0, creds, token, answers[1..], more, p.value.1);
    }
  }

  /** A loop still polling when its answers run out resumes, on further
      answers, from the job and state it reached. */
  lemma {:induction false} PollingResumes(job: J.Job, creds: Cr.Credentials, token: Option<string>,
                                          answers: seq<Option<Body>>, more: seq<Option<Body>>, state: Option<string>)
    requires !IsTerminal(state)
    requires PollUntilDone(job, creds, token, answers, state).Ok?
    requires PollUntilDone(job, creds, token, answers, state).value.Polling?
    ensures var w := PollUntilDone(job, creds, token, answers, state).value;
            PollUntilDone(job, creds, token, answers + more, state) == PollUntilDone(w.job, creds, token, more, w.seen)
    decreases |answers|
  {
    if |answers| == 0 {
      assert answers + more == more;
    } else {
      var all := answers + more;
      assert all[0] == answers[0];
      var p := Poll(job, creds, token, answers[0], state);
      assert all[1..] == answers[1..] + more;
      PollingResumes(p.value.0, creds, token, answers[1..], more, p.value.1);
    }
  }

  /** An answer that reports a state outside the terminal set, null
      included, never ends the loop: only the four terminal states do. */
  lemma OnlyTerminalStatesStop(job: J.Job, creds: Cr.Credentials, token: Option<string>, answer: Option<Body>,
                               state: Option<string>)
    requires !IsTerminal(state) && Poll(job, creds, token, answer, state).Ok?
    ensures var p := Poll(job, creds, token, answer, state).value;
            !IsTerminal(p.1) ==>
              PollUntilDone(job, creds, token, [answer], state) == Ok(Polling(p.0, p.1))
    ensures var p := Poll(job, creds, token, answer, state).value;
            IsTerminal(p.1) && p.1.value != Completed ==>
              PollUntilDone(job, creds, token, [answer], state) == Ok(Done(p.0, p.1.value))
  {
    var p := Poll(job, creds, token, answer, state).value;
    if !IsTerminal(p.1) {
      assert [answer][1..] == [];
    }
  }

  /** `CreateAndRunEngineJob`: create the job, then wait for it. */
  function CreateAndRunEngineJob(c: Connector, token: Option<string>, deploymentId: string, payload: seq<Byte>,
                                 answer: Option<string>, parse: string -> Option<Json>,
                                 answers: seq<Option<Body>>): (r: Result<Waited>)
    ensures CreateEngineJob(c, token, deploymentId, payload, answer, parse).Err? ==> r.Err?
    ensures r.Ok? ==> r.value.job.deploymentId == deploymentId
                      && r.value.job.jobId == CreateEngineJob(c, token, deploymentId, payload, answer, parse).value.jobId
  {
    var job :- CreateEngineJob(c, token, deploymentId, payload, answer, parse);
    WaitCompletion(job, c.creds, token, answers)
  }

  // ---------------------------------------------------------------------
  // Deployments

  /** The listing request of `GetDeployments`. */
  function DeploymentsCall(c: Connector, token: Option<string>): (r: Result<Call>)
    ensures r.Ok? <==> Cr.ContainsKey(c.creds, Cr.WmlHost) && WmlParams(c.creds).Ok?
    ensures r.Ok? ==> r.value.verb == Get
                      && r.value.target == BuildTargetUrl(c.creds.entries[Cr.WmlHost], Deployments,
                                                          Some(WmlParams(c.creds).value))
  {
    var headers := WmlHeaders(token) + [(Accept, ApplicationJson)];
    var host :- Cr.Get(c.creds, Cr.WmlHost);
    var params :- WmlParams(c.creds);
    Ok(Prepare(Get, host, Deployments, Some(params), headers, None))
  }

  /** The metadata of a listed resource, which must be there. */
  function ResourceMetadata(item: Json): (r: Result<JObject>)
    ensures item.JObj? && HasObjectAt(item.fields, MetadataKey) ==> r == Ok(item.fields[MetadataKey].fields)
    ensures r.Ok? ==> item.JObj? && HasObjectAt(item.fields, MetadataKey)
  {
    match item
    case JNull => Err(NullReference)
    case JObj(o) =>
      var m :- GetObject(o, MetadataKey);
      Deref(m)
    case _ => Err(InvalidCast)
  }

  /** A listed resource whose metadata name is `name`. */
  predicate NamedAs(item: Json, name: string) {
    item.JObj? && HasObjectAt(item.fields, MetadataKey)
    && GetString(item.fields[MetadataKey].fields, NameKey) == Ok(Some(name))
  }

  /** A listed resource with a metadata name other than `name`. */
  predicate NamedOtherwise(item: Json, name: string) {
    item.JObj? && HasObjectAt(item.fields, MetadataKey)
    && var n := GetString(item.fields[MetadataKey].fields, NameKey);
    n.Ok? && n.value.Some? && n.value.value != name
  }

  /** The loop of `GetDeploymentIdByName`: the id of the first resource
      with the name; a resource without metadata or name throws. */
  function FindDeployment(resources: seq<Json>, name: string): (r: Result<Option<string>>)
    ensures r.Ok? && r.value.Some? ==> exists i :: 0 <= i < |resources| && NamedAs(resources[i], name)
    ensures (forall i :: 0 <= i < |resources| ==> NamedOtherwise(resources[i], name)) ==> r == Ok(None)
    decreases |resources|
  {
    if |resources| == 0 then Ok(None)
    else
      var m :- ResourceMetadata(resources[0]);
      var n :- GetString(m, NameKey);
      var current :- Deref(n);
      if current == name then GetString(m, J.IdKey)
      else
        var r := FindDeployment(resources[1..], name);
        assert forall i :: 1 <= i < |resources| ==> resources[i] == resources[1..][i - 1];
        r
  }

  /** The first resource with the name decides, whatever follows. */
  lemma {:induction false} FirstMatchWins(others: seq<Json>, item: Json, rest: seq<Json>, name: string)
    requires forall i :: 0 <= i < |others| ==> NamedOtherwise(others[i], name)
    requires NamedAs(item, name)
    ensures FindDeployment(others + [item] + rest, name) == GetString(item.fields[MetadataKey].fields, J.IdKey)
    decreases |others|
  {
    var all := others + [item] + rest;
    if |others| == 0 {
      assert all == [item] + rest;
    } else {
      assert all[0] == others[0];
      assert all[1..] == others[1..] + [item] + rest;
      FirstMatchWins(others[1..], item, rest, name);
    }
  }

  /** `GetDeploymentIdByName`: the listing answer, its resources, and the
      first resource with the name; null when none has it. */
  function GetDeploymentIdByName(c: Connector, token: Option<string>, answer: Option<Body>, name: string)
    : (r: Result<Option<string>>)
    ensures DeploymentsCall(c, token).Err? || answer.None? ==> r.Err?
    ensures r.Ok? ==> ParseJson(answer).Ok? && GetArray(ParseJson(answer).value, ResourcesKey).Ok?
                      && GetArray(ParseJson(answer).value, ResourcesKey).value.Some?
                      && r == FindDeployment(GetArray(ParseJson(answer).value, ResourcesKey).value.value, name)
  {
    var _ :- DeploymentsCall(c, token);
    var json :- ParseJson(answer);
    var resources :- GetArray(json, ResourcesKey);
    var items :- Deref(resources);
    FindDeployment(items, name)
  }

  /** What `GetOrMakeDeployment` does: reuse the deployment found by name,
      or create a model of the connector's runtime for the engine and
      deploy it with the connector's size and node count. */
  datatype DeploymentPlan = Reuse(id: string) | Create(name: string, modelType: ModelType, size: TShirtSize, nodes: int)

  function GetOrMakeDeployment(c: Connector, token: Option<string>, answer: Option<Body>, name: string, isCplex: bool)
    : (r: Result<DeploymentPlan>)
    ensures var found := GetDeploymentIdByName(c, token, answer, name);
            (found.Err? <==> r.Err?)
            && (found.Ok? && found.value.Some? ==> r == Ok(Reuse(found.value.value)))
            && (found == Ok(None) ==> r.Ok? && r.value.Create?)
    ensures r.Ok? && r.value.Create? ==>
              r.value.name == name && r.value.size == c.size && r.value.nodes == c.nodes
              && r.value.modelType.runtime == c.runtime
              && (r.value.modelType.family == Cplex <==> isCplex)
              && ShortName(r.value.modelType) == (if isCplex then "do-cplex_" else "do-cpo_") + Version(c.runtime)
  {
    var found :- GetDeploymentIdByName(c, token, answer, name);
    match found
    case Some(id) => Ok(Reuse(id))
    case None =>
      var t := if isCplex then CplexModelType(c.runtime) else CpoModelType(c.runtime);
      Ok(Create(name, t, c.size, c.nodes))
  }

  /** The models created for the two engines never share a type name. */
  lemma EnginesGetDistinctModels(c: Connector, token: Option<string>, answer: Option<Body>, name: string)
    requires GetDeploymentIdByName(c, token, answer, name) == Ok(None)
    ensures ShortName(GetOrMakeDeployment(c, token, answer, name, true).value.modelType)
            != ShortName(GetOrMakeDeployment(c, token, answer, name, false).value.modelType)
  {
    var a := GetOrMakeDeployment(c, token, answer, name, true).value.modelType;
    var b := GetOrMakeDeployment(c, token, answer, name, false).value.modelType;
    ShortNameInjective(a, b);
  }

  // ---------------------------------------------------------------------
  // Deleting a job

  /** The request of `DeleteJob`: the WML parameters and hard_Delete,
      "true" exactly when the setting reads as true. */
  function DeleteJobCall(c: Connector, token: Option<string>, config: Config, id: Option<string>): (r: Result<Call>)
    ensures var flag := GetSettingOrDefault(config, HardDeleteSetting, "false");
            r.Ok? <==> ParseBool(flag).Ok? && WmlParams(c.creds).Ok? && Cr.ContainsKey(c.creds, Cr.WmlHost)
    ensures r.Ok? ==>
              var hard := ToLower(BoolWord(GetSettingOrDefault(config, HardDeleteSetting, "false"))) == "true";
              r.value.verb == Delete
              && r.value.target == BuildTargetUrl(c.creds.entries[Cr.WmlHost], DeploymentJobs + "/" + id.GetOr(""),
                                                  Some(WmlParams(c.creds).value + [("hard_Delete", if hard then "true" else "false")]))
  {
    var flag :- ParseBool(GetSettingOrDefault(config, HardDeleteSetting, "false"));
    var headers := WmlHeaders(token) + [(Accept, ApplicationJson)];
    var params :- WmlParams(c.creds);
    var host :- Cr.Get(c.creds, Cr.WmlHost);
    Ok(Prepare(Delete, host, DeploymentJobs + "/" + id.GetOr(""),
               Some(params + [("hard_Delete", if flag then "true" else "false")]), headers, None))
  }
}
