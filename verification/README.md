# DOForWMLWith.NET core, modelled in Dafny

DOForWMLWith.NET lets a .NET program build a CPLEX or CP Optimizer model
with the usual modelling API and have it solved on the Watson Machine
Learning (WML) job service. A solve names every object of the model, exports
the model, sends it with its side files as one deployment job, polls the job
until it finishes, and decodes the returned solution back onto the model's
objects. This project models the deterministic part of that round trip and
proves its properties:

| module | file | what it models |
|---|---|---|
| `Wrappers`, `Strs`, `Num`, `Json`, `ModelObjects` | `wrappers.dfy`, `strs.dfy`, `num.dfy`, `json.dfy`, `model_objects.dfy` | error results, string helpers, opaque doubles and .NET integer parsing, the JSON tree with Newtonsoft's accessors, object ids with their (possibly null) names |
| `Credentials` | `credentials.dfy` | the credential table and the choice between public and CPD configurations |
| `WmlHelper`, `TextCodec` | `wml_helper.dfy`, `text_codec.dfy` | runtime and model-type names, settings, Base64 over UTF-8 (section 4 of RFC 4648) |
| `HttpUtils` | `http.dfy` | URLs, parameters and headers of the service calls, token extraction and the token's life cycle |
| `JobImpl` | `job.dfy` | the queries over a job's status document: state, failure, KPIs, engine log, solution and log outputs |
| `ConnectorImpl` | `connector.dfy` | construction, solve parameters, the byte-level payload splice, job creation, the polling loop, deployment lookup |
| `CpNames`, `CpSolution`, `CpSolver` | `cp_names.dfy`, `cp_solution.dfy`, `cp_solver.dfy` | the CP engine: unique names, the JSON solution decoder with its segments, re-keying and the name-based getters |
| `CplexNames`, `CplexSolution`, `CplexSolver` | `cplex_names.dfy`, `cplex_solution.dfy`, `cplex_solver.dfy` | the CPLEX engine: the `vv<k>`/`cc<k>` naming, the `.sol` reader state machine, the transfer to objects and the solution queries |
| `Relaxations`, `Conflicts` | `relaxations.dfy`, `conflicts.dfy` | the FeasOpt and conflict-refiner directive documents |
| `WmlCplex`, `WmlCP` | `wml_cplex.dfy`, `wml_cp.dfy` | the two engines that solve on the service: inputs, outcome, clean-up, time limit |

The service and the runtime are parameters: every answer of the service (a
token, a deployment id, a finished job, a deletion), the XML reader's node
stream and the JSON parser are passed in, and the engines return the requests
they make as a sequence of events. Doubles are opaque tokens (`Num.Double`),
with the infinity and NaN the code distinguishes; configuration settings are a
map.

Behaviour kept as the code has it:

- The CP engine restores the original names only on its normal return path
  (`CpSolver.SolveFailureKeepsGeneratedNames`), while the CPLEX engine
  restores them on every path (`CplexSolver.Process`).
- The CPLEX reader fails on a named variable without a value and never looks
  for self-closing tags, so `<header/>` followed by `<quality>` is malformed
  (`CplexSolution.SelfClosingHeaderThenQuality`).
- `CplexSolution.Reset` does not clear the reduced costs already moved to
  objects (`CplexSolution.ResetKeepsStaleReducedCosts`). Every solution in
  the solve flow is freshly built, so no solve observes it.
- `GetStart` tests the end values but reads the start values
  (`CpSolver.GetStartOnDecoded`).
- CP re-keying looks a name up and adds the result unconditionally, so a
  name the model does not know fails the transfer (`CpSolver.Transfer`).
- A CPLEX job is deleted only once `CreateAndRunEngineJob` has returned it;
  a deletion that fails keeps the job for `End` (`WmlCplex.UndeletedJobRetriedAtEnd`).
- `End` of both engines only catches the modelling library's own exception
  type, which the connector never throws, so a failed deletion there escapes
  before the token is ended (`WmlCplex.End`, `WmlCP.End`).
- A CPLEX solve whose model export fails has started its token but never
  reaches the `finally` that closes it (`WmlCplex.ExternalSolve`).
- The CP engine reports a failure after the token by its stack trace only
  (`WmlCP.ExternalProcess`), where the CPLEX engine keeps the message.
- The `Runtime` enumeration of `Connector.cs` has three values, while
  `WMLHelper` also switches on `DO_22_1`; the model has the four runtimes
  `WmlHelper` handles.
- No public entry point of the CPLEX engine builds a conflict set
  (`CplexSolver.ConflictRefinerUnreachable`), so the `Conflicts` document is
  modelled but unreachable.

## Model

| member | source | states |
|---|---|---|
| Num.ParseInt | Source/WMLBase/COM.IBM.ML.ILOG/V4/ConnectorImpl.cs:63 | a setting converts to an integer only when it is a 32-bit value written as digits with at most one leading sign, once the white space around it and the trailing NUL characters are dropped; otherwise it fails with the runtime's format or overflow message |
| Num.ParseIntPadded | Source/WMLBase/COM.IBM.ML.ILOG/V4/ConnectorImpl.cs:63 | every 32-bit integer as printed, with any white space before and after it and NUL characters at the end, converts back to itself |
| Num.ToInt32 | Source/CP/ILOG/CP/ExternalCP.cs:386 | a double converts only when it is finite and then to a 32-bit integer; infinity and NaN fail with the overflow message |
| Num.ToInt32OfShowInt | Source/CP/ILOG/CP/ExternalCP.cs:386 | every 32-bit integer written out as a double converts back to itself |
| Json.Deref | Source/WMLBase/COM.IBM.ML.ILOG/V4/JobImpl.cs:59-62 | using what an accessor returned succeeds exactly when it is not null and gives that value; null is the null-reference failure |
| Json.GetObject | Source/CP/ILOG/CP/Solution.cs:135 | a missing key reads as null and a nested object as its members |
| Json.GetArray | Source/CP/ILOG/CP/Solution.cs:175 | a missing key reads as null and an array as its items |
| Json.GetString | Source/CP/ILOG/CP/Solution.cs:257 | a missing key reads as null and a string as its text |
| Json.GetDouble | Source/CP/ILOG/CP/Solution.cs:140 | a missing key reads as the default 0 and a number as its numeral |
| Json.ScalarText | Source/CP/ILOG/CP/Solution.cs:179 | the text of a scalar token: a string is its own text and null is empty; only an object or array has no text here |
| Credentials.Add | Source/WMLBase/COM.IBM.ML.ILOG/Credentials.cs:21-24 | adding succeeds exactly for a key not yet present, stores the value under it and keeps every other entry; a repeated key fails with the runtime's duplicate-key message, so a stored value is never overwritten |
| Credentials.Get | Source/WMLBase/COM.IBM.ML.ILOG/Credentials.cs:26-34 | the stored value for a present key; for an absent key the "Missing key" failure naming the key |
| Credentials.GetAfterAdd | Source/WMLBase/COM.IBM.ML.ILOG/Credentials.cs:21-34 | a value added under a fresh key is read back, and every other key reads as before |
| Credentials.AddFields | Source/WMLBase/COM.IBM.ML.ILOG/Credentials.cs:131-142 | the keys' settings are added in order: on success the store holds exactly the old keys plus the listed ones, each with its setting; a key missing from the settings always fails; with every key present, distinct and fresh it always succeeds |
| Credentials.FromSettings | Source/WMLBase/COM.IBM.ML.ILOG/Credentials.cs:131-142 | a store built from a key list holds exactly those keys with their settings, fails when a key is missing and succeeds when all are present and distinct |
| Credentials.CpdCredentials | Source/WMLBase/COM.IBM.ML.ILOG/Credentials.cs:144-149 | a complete Cloud Pak for Data configuration gives a CPD store holding the six fields plus the platform host, which is set to the WML host setting |
| Credentials.PublicCredentials | Source/WMLBase/COM.IBM.ML.ILOG/Credentials.cs:151-155 | a complete public-cloud configuration gives a non-CPD store holding exactly the seven public fields |
| Credentials.GetCredentials | Source/WMLBase/COM.IBM.ML.ILOG/Credentials.cs:82-129 | succeeds exactly when either configuration is complete, else fails with "unknown config type."; a complete public configuration wins over a CPD one; the CPD store carries the copied platform host; the COS fields are in the store exactly when all four are configured |
| Credentials.FieldsApart | Source/WMLBase/COM.IBM.ML.ILOG/Credentials.cs:57-80 | the three field lists have no repeats, and the COS fields are none of the connection fields nor the platform host, so the COS additions never collide |
| WmlHelper.GetSetting | Source/WMLBase/COM.IBM.ML.ILOG/WMLHelper.cs:29-34 | the value of a present setting; reading an absent one fails with the runtime's null-argument message |
| WmlHelper.GetSettingOrDefault | Source/WMLBase/COM.IBM.ML.ILOG/WMLHelper.cs:18-28 | the setting when it is configured, the given default otherwise |
| WmlHelper.RuntimeShortName | Source/WMLBase/COM.IBM.ML.ILOG/WMLHelper.cs:111-125 | each runtime's short name is "do_" followed by its version (12.9, 12.10, 20.1, 22.1) |
| WmlHelper.ShortName | Source/WMLBase/COM.IBM.ML.ILOG/WMLHelper.cs:127-165 | each of the sixteen model types is "do-", its engine, "_" and the same version text its runtime's short name carries |
| WmlHelper.CplexModelType | Source/WMLBase/COM.IBM.ML.ILOG/WMLHelper.cs:78-92 | the CPLEX model type of a runtime has that runtime and the short name "do-cplex_" + version |
| WmlHelper.CpoModelType | Source/WMLBase/COM.IBM.ML.ILOG/WMLHelper.cs:94-108 | the CP Optimizer model type of a runtime has that runtime and the short name "do-cpo_" + version |
| WmlHelper.RuntimeShortNameInjective | Source/WMLBase/COM.IBM.ML.ILOG/WMLHelper.cs:111-125 | no two runtimes share a short name |
| WmlHelper.ShortNameInjective | Source/WMLBase/COM.IBM.ML.ILOG/WMLHelper.cs:127-165 | no two model types share a short name, so the name identifies engine and runtime |
| WmlHelper.EncodeBase64 | Source/WMLBase/COM.IBM.ML.ILOG/WMLHelper.cs:166-174 | the result is ASCII Base64 text that decodes to the UTF-8 bytes of the input |
| WmlHelper.DecodeBase64 | Source/WMLBase/COM.IBM.ML.ILOG/WMLHelper.cs:176-180 | malformed Base64 fails with the runtime's message; a decoded text is one whose UTF-8 bytes are exactly the decoded bytes |
| WmlHelper.DecodedTextEncodes | Source/WMLBase/COM.IBM.ML.ILOG/WMLHelper.cs:176-180 | a byte sequence that decodes to a text is that text's UTF-8 encoding |
| WmlHelper.Base64TextRoundTrip | Source/WMLBase/COM.IBM.ML.ILOG/WMLHelper.cs:166-180 | decoding undoes encoding for every text |
| TextCodec.Utf8 | Source/WMLBase/COM.IBM.ML.ILOG/WMLHelper.cs:168 | a text's UTF-8 encoding has between one and four bytes per character |
| TextCodec.Utf8Append | Source/WMLBase/COM.IBM.ML.ILOG/WMLHelper.cs:168 | the encoding of a concatenation is the concatenation of the encodings |
| TextCodec.Utf8Ascii | Source/WMLBase/COM.IBM.ML.ILOG/WMLHelper.cs:168 | ASCII text encodes to one byte per character, each its code |
| TextCodec.DecodeEncodedChar | Source/WMLBase/COM.IBM.ML.ILOG/WMLHelper.cs:179 | the decoder reads back the character at the head of any encoded character's bytes, consuming exactly those bytes |
| TextCodec.Utf8RoundTrip | Source/WMLBase/COM.IBM.ML.ILOG/WMLHelper.cs:168-179 | decoding the UTF-8 bytes of a text gives the text back |
| TextCodec.Encode | Source/WMLBase/COM.IBM.ML.ILOG/WMLHelper.cs:171-174 | Base64 text is four characters per started group of three bytes, all from the alphabet or the pad |
| TextCodec.Decode | Source/WMLBase/COM.IBM.ML.ILOG/WMLHelper.cs:178 | spaces, tabs and line breaks anywhere in the text are skipped; text whose remaining length is not a multiple of four is refused; every failure carries the runtime's Base64 message |
| TextCodec.DecodeSkipsSpace | Source/WMLBase/COM.IBM.ML.ILOG/WMLHelper.cs:178 | inserting a space, tab, carriage return or line feed anywhere in the text does not change what it decodes to |
| TextCodec.DecodeQuad | Source/WMLBase/COM.IBM.ML.ILOG/WMLHelper.cs:171-178 | a full group of four characters decodes to its three bytes ahead of the rest |
| TextCodec.Base64RoundTrip | Source/WMLBase/COM.IBM.ML.ILOG/WMLHelper.cs:171-178 | decoding what was encoded gives the bytes back, as section 4 of RFC 4648 requires |
| TextCodec.EncodedIsAscii | Source/WMLBase/COM.IBM.ML.ILOG/WMLHelper.cs:171-174 | Base64 text is ASCII |
| HttpUtils.ParseJson | Source/WMLBase/COM.IBM.ML.ILOG/UTILS/HttpUtils.cs:86-97 | a null answer fails with the runtime's null-argument message (the only failure); a JSON object answer gives its fields; any other text reads as the empty object |
| HttpUtils.GetAuth | Source/WMLBase/COM.IBM.ML.ILOG/UTILS/HttpUtils.cs:98-103 | the authorization is "bearer", a space, and the token, a null token printing as nothing |
| HttpUtils.PlatformParams | Source/WMLBase/COM.IBM.ML.ILOG/UTILS/HttpUtils.cs:111-116 | succeeds exactly when the credentials hold the WML version, and then is the single pair version=value |
| HttpUtils.WmlParams | Source/WMLBase/COM.IBM.ML.ILOG/UTILS/HttpUtils.cs:118-123 | succeeds exactly when both the version and the space id are present, and lists the version before the space id |
| HttpUtils.WmlHeaders | Source/WMLBase/COM.IBM.ML.ILOG/UTILS/HttpUtils.cs:125-137 | the bearer authorization first, then cache-control: no-cache, and nothing else |
| HttpUtils.Base | Source/WMLBase/COM.IBM.ML.ILOG/UTILS/HttpUtils.cs:225-229 | the target starts with "https://" (added only when missing) and ends with the path |
| HttpUtils.BuildTargetUrl | Source/WMLBase/COM.IBM.ML.ILOG/UTILS/HttpUtils.cs:223-240 | with no parameters, or an empty dictionary, the URL is the base with no query |
| HttpUtils.TargetUrlQuery | Source/WMLBase/COM.IBM.ML.ILOG/UTILS/HttpUtils.cs:230-238 | when neither the base nor any key or value holds '?', the URL is the base, '?', and the key=value assignments in order joined by '&' |
| HttpUtils.QuestionMarkSwallowsSeparator | Source/WMLBase/COM.IBM.ML.ILOG/UTILS/HttpUtils.cs:233-237 | parameters are not escaped: a value ending in '?' makes the "?&" replacement also eat the '&' before the next parameter |
| HttpUtils.CurlMasksAuthorization | Source/WMLBase/COM.IBM.ML.ILOG/UTILS/HttpUtils.cs:268-281 | the logged curl line is the same for any two header lists that differ only in their authorization values, so no credential reaches the log |
| HttpUtils.Curl | Source/WMLBase/COM.IBM.ML.ILOG/UTILS/HttpUtils.cs:268-281 | the logged line starts with the curl request of the verb and the quoted target URL |
| HttpUtils.Prepare | Source/WMLBase/COM.IBM.ML.ILOG/UTILS/HttpUtils.cs:265-267 | a request goes to the built target URL with the given verb and headers; a null body is sent empty |
| HttpUtils.EncodedFile | Source/WMLBase/COM.IBM.ML.ILOG/UTILS/HttpUtils.cs:382-393 | the uploaded file is its Base64 text as one byte per character, four bytes per started group of three, and reads back as that text |
| HttpUtils.BasicAuth | Source/WMLBase/COM.IBM.ML.ILOG/UTILS/HttpUtils.cs:172-175 | the Cloud Pak for Data authorization is "Basic " followed by Base64 that decodes to user:password |
| HttpUtils.TokenCall | Source/WMLBase/COM.IBM.ML.ILOG/UTILS/HttpUtils.cs:154-220 | a Cloud Pak for Data login needs user name, password, host and login path and is a GET carrying Basic user:password; a public-cloud login needs API key, IAM host and IAM path and is a POST to the IAM URL with grant_type and apikey |
| HttpUtils.ExtractToken | Source/WMLBase/COM.IBM.ML.ILOG/UTILS/HttpUtils.cs:188-199 | the token is "access_token" when present, else "accessToken", else the call fails with "Missing token in authentication call"; a null answer fails |
| HttpUtils.LookupToken | Source/WMLBase/COM.IBM.ML.ILOG/UTILS/HttpUtils.cs:154-158 | a login request that cannot be built fails before any answer is read; otherwise the token is the one the answer carries |
| HttpUtils.InitToken | Source/WMLBase/COM.IBM.ML.ILOG/UTILS/HttpUtils.cs:144-152 | with a token already held nothing changes; otherwise it fails exactly when the lookup fails and on success holds the looked-up token and one more running refresh timer |
| HttpUtils.Close | Source/WMLBase/COM.IBM.ML.ILOG/UTILS/HttpUtils.cs:242-257 | the token is kept, the field no longer refers to a timer, and only the timer it referred to stops |
| HttpUtils.InitTokenIdempotent | Source/WMLBase/COM.IBM.ML.ILOG/UTILS/HttpUtils.cs:144-152 | once a token is obtained, initialising again changes nothing |
| HttpUtils.NullTokenLeaksTimers | Source/WMLBase/COM.IBM.ML.ILOG/UTILS/HttpUtils.cs:144-152 | a login answer with a JSON null token leaves no token, so a second initialisation starts a second timer and closing stops only one |
| JobImpl.StatusCall | Source/WMLBase/COM.IBM.ML.ILOG/V4/JobImpl.cs:38-44 | the status request is possible exactly when host, version and space id are configured, and is a GET of the deployment_jobs path followed by the job id |
| JobImpl.UpdateStatus | Source/WMLBase/COM.IBM.ML.ILOG/V4/JobImpl.cs:34-52 | a request that cannot be built or a null answer fails; a JSON object answer replaces the status; any other text is logged and the previous status kept; the ids never change |
| JobImpl.GetDo | Source/WMLBase/COM.IBM.ML.ILOG/V4/JobImpl.cs:59-62 | the entity/decision_optimization section when present; with no status yet, or no entity, a null dereference |
| JobImpl.Section | Source/WMLBase/COM.IBM.ML.ILOG/V4/JobImpl.cs:64-72 | a section of the decision-optimization object when present; a missing one is a null dereference |
| JobImpl.GetState | Source/WMLBase/COM.IBM.ML.ILOG/V4/JobImpl.cs:69-72 | status.state when it is a string, null when absent, and a failure when the status document is missing |
| JobImpl.HasSolveState | Source/WMLBase/COM.IBM.ML.ILOG/V4/JobImpl.cs:74-77 | true exactly when the decision-optimization object has a solve_state |
| JobImpl.HasFailure | Source/WMLBase/COM.IBM.ML.ILOG/V4/JobImpl.cs:86-89 | true exactly when status holds a failure entry |
| JobImpl.GetFailure | Source/WMLBase/COM.IBM.ML.ILOG/V4/JobImpl.cs:78-85 | the failure object when status holds one, the fixed missing-failure text when it holds none, and a failure when status itself cannot be read |
| JobImpl.SolveState | Source/WMLBase/COM.IBM.ML.ILOG/V4/JobImpl.cs:64-67 | the solve_state object, a null dereference when missing |
| JobImpl.HasSolveStatus | Source/WMLBase/COM.IBM.ML.ILOG/V4/JobImpl.cs:92-95 | whether solve_state holds solve_status; a failure when there is no solve_state |
| JobImpl.GetSolveStatus | Source/WMLBase/COM.IBM.ML.ILOG/V4/JobImpl.cs:98-101 | solve_state's solve_status read as a string |
| JobImpl.HasLatestEngineActivity | Source/WMLBase/COM.IBM.ML.ILOG/V4/JobImpl.cs:104-107 | whether solve_state holds latest_engine_activity |
| JobImpl.ActivityText | Source/WMLBase/COM.IBM.ML.ILOG/V4/JobImpl.cs:112-115 | the loop succeeds exactly when every line is a scalar (string, number or boolean) or null |
| JobImpl.ActivityOfStrings | Source/WMLBase/COM.IBM.ML.ILOG/V4/JobImpl.cs:112-115 | lines that are all strings give each line followed by a line feed, in order |
| JobImpl.GetLatestEngineActivity | Source/WMLBase/COM.IBM.ML.ILOG/V4/JobImpl.cs:109-116 | a missing activity array is a null dereference; otherwise the lines joined as above |
| JobImpl.Kpis | Source/WMLBase/COM.IBM.ML.ILOG/V4/JobImpl.cs:121-132 | a KPI is present under name k exactly when details holds "KPI." + k, with that value |
| JobImpl.GetKpis | Source/WMLBase/COM.IBM.ML.ILOG/V4/JobImpl.cs:119-133 | the KPIs of solve_state.details; a missing details object is a null dereference |
| JobImpl.GetJobStatus | Source/WMLBase/COM.IBM.ML.ILOG/V4/JobImpl.cs:212-215 | the status object of the decision-optimization section |
| JobImpl.ExtractOutputData | Source/WMLBase/COM.IBM.ML.ILOG/V4/JobImpl.cs:136-149 | the output_data array of the decision-optimization section |
| JobImpl.AsObject | Source/WMLBase/COM.IBM.ML.ILOG/V4/JobImpl.cs:157 | the cast succeeds exactly on JSON objects |
| JobImpl.ItemId | Source/WMLBase/COM.IBM.ML.ILOG/V4/JobImpl.cs:158 | the id of an output item; a missing id is a null dereference |
| JobImpl.ItemContent | Source/WMLBase/COM.IBM.ML.ILOG/V4/JobImpl.cs:160 | the Base64 content decoded as UTF-8 text; a missing content fails with the null-argument message |
| JobImpl.GetLog | Source/WMLBase/COM.IBM.ML.ILOG/V4/JobImpl.cs:152-164 | a missing output list is a null dereference; otherwise the scan for "log.txt" |
| JobImpl.LogFound | Source/WMLBase/COM.IBM.ML.ILOG/V4/JobImpl.cs:155-163 | items with other ids are passed over and the first "log.txt" item's decoded text is returned |
| JobImpl.FindLog | Source/WMLBase/COM.IBM.ML.ILOG/V4/JobImpl.cs:153-163 | with no item named "log.txt" the log is null; a log is only returned when some item is named "log.txt" |
| JobImpl.Cells | Source/WMLBase/COM.IBM.ML.ILOG/V4/JobImpl.cs:186-192 | a row's text is built exactly when every cell is a scalar (string, number or boolean) or null |
| JobImpl.CsvText | Source/WMLBase/COM.IBM.ML.ILOG/V4/JobImpl.cs:183-207 | a table's text starts with its id and a line feed; a missing field list is a null dereference |
| JobImpl.GetSolution | Source/WMLBase/COM.IBM.ML.ILOG/V4/JobImpl.cs:166-211 | a missing output list is a null dereference; otherwise the scan of the output items starting with no text |
| JobImpl.SolutionFileWins | Source/WMLBase/COM.IBM.ML.ILOG/V4/JobImpl.cs:173-180 | a "solution.json" or "solution.xml" item returns its decoded content, whatever came before and after it |
| JobImpl.OtherItemsIgnored | Source/WMLBase/COM.IBM.ML.ILOG/V4/JobImpl.cs:170-209 | items that are neither solution files nor csv tables leave the result unchanged |
| JobImpl.CsvStep | Source/WMLBase/COM.IBM.ML.ILOG/V4/JobImpl.cs:181-208 | a csv item appends its table text to what was gathered so far, a null start counting as empty |
| JobImpl.CsvReturnedWithoutSolutionFile | Source/WMLBase/COM.IBM.ML.ILOG/V4/JobImpl.cs:169-210 | without a solution file, a csv table followed by unrelated items gives that table's text |
| JobImpl.ScanSolution | Source/WMLBase/COM.IBM.ML.ILOG/V4/JobImpl.cs:166-210 | the result differs from what was gathered before only when some item is a solution file or a csv table |
| ConnectorImpl.ParseBool | Source/WMLBase/COM.IBM.ML.ILOG/V4/ConnectorImpl.cs:64 | the word left once white space and NUL characters around it are dropped is accepted exactly when it is "true" or "false" in any ASCII letter case, meaning what it says; any other text fails with the runtime's message naming the whole input |
| ConnectorImpl.ParseBoolPadded | Source/WMLBase/COM.IBM.ML.ILOG/V4/ConnectorImpl.cs:64 | any amount of white space and NUL characters around a word is dropped: a padded "true" or "false" parses as the word does, and a padded unknown word still fails |
| ConnectorImpl.NewConnector | Source/WMLBase/COM.IBM.ML.ILOG/V4/ConnectorImpl.cs:63-110 | the field initialisers run before the node check: construction fails exactly when the status rate is not an integer, the progress flag not a boolean, the base class's token refresh rate not an integer, or the node count zero; an unparsable status rate fails with its parse message, and zero nodes with the zero-node message only once all settings parse; on success it keeps the arguments, the parsed status rate, the progress flag, the log level setting with default INFO, and the refresh minutes as milliseconds |
| ConnectorImpl.RefreshMillis | Source/WMLBase/COM.IBM.ML.ILOG/UTILS/HttpUtils.cs:19 | the refresh setting in minutes is kept as milliseconds, a 32-bit value that is exactly the minutes times 60,000 whenever that fits |
| ConnectorImpl.DefaultConnector | Source/WMLBase/COM.IBM.ML.ILOG/V4/ConnectorImpl.cs:74-77 | the one-argument constructor uses runtime 20.1, size M, one node and no result format |
| ConnectorImpl.UnsetSettingsDefaults | Source/WMLBase/COM.IBM.ML.ILOG/V4/ConnectorImpl.cs:63-67 | with none of the connector settings configured, construction fails only for zero nodes and uses 500 ms, engine progress on, level INFO and a token refresh every 600,000 ms |
| ConnectorImpl.AddProp | Source/WMLBase/COM.IBM.ML.ILOG/V4/ConnectorImpl.cs:225 | a JSON member name may be added once: the add fails with the library's duplicate-property message exactly when the name is taken, and appends the member otherwise |
| ConnectorImpl.AddOverrides | Source/WMLBase/COM.IBM.ML.ILOG/V4/ConnectorImpl.cs:221-227 | accepted overrides follow the earlier members in order, each as a string, with names new to the object and pairwise distinct |
| ConnectorImpl.SolveParameters | Source/WMLBase/COM.IBM.ML.ILOG/V4/ConnectorImpl.cs:212-227 | the solve parameters are the four defaults (log tail as the progress flag, include-input false, the result format or null, the log level) and then every override in order; they are accepted exactly when no override repeats a default or another override |
| ConnectorImpl.OverridesAccepted | Source/WMLBase/COM.IBM.ML.ILOG/V4/ConnectorImpl.cs:223-226 | overrides with fresh, distinct names are always accepted |
| ConnectorImpl.ObjectOf | Source/WMLBase/COM.IBM.ML.ILOG/V4/ConnectorImpl.cs:212-227 | the JSON object has exactly the member names that were added |
| ConnectorImpl.PayloadObject | Source/WMLBase/COM.IBM.ML.ILOG/V4/ConnectorImpl.cs:203-247 | the payload names the job "Job_for_" + deployment id, carries the space id, the deployment, the solve parameters, the four output patterns and the placeholder; it fails exactly when the space id is missing or the solve parameters are refused |
| ConnectorImpl.Splice | Source/WMLBase/COM.IBM.ML.ILOG/V4/ConnectorImpl.cs:265-269 | the four byte blocks are copied into one array of the sum of their lengths, in order |
| ConnectorImpl.BuildPayload | Source/WMLBase/COM.IBM.ML.ILOG/V4/ConnectorImpl.cs:249-269 | the payload fails with the negative-length message exactly when the placeholder is missing or the input text is empty; otherwise it is the UTF-8 bytes of the payload text with the input items, the model item and its Base64 content in place of the placeholder, and decodes back to that text |
| ConnectorImpl.PayloadBytes | Source/WMLBase/COM.IBM.ML.ILOG/V4/ConnectorImpl.cs:259-269 | encoding the four parts separately and joining the bytes is the UTF-8 encoding of the joined text |
| ConnectorImpl.SplicedBytes | Source/WMLBase/COM.IBM.ML.ILOG/V4/ConnectorImpl.cs:261-263 | UTF-8 encoding of the parts concatenated equals encoding of their concatenation |
| ConnectorImpl.PlaceholderReplaced | Source/WMLBase/COM.IBM.ML.ILOG/V4/ConnectorImpl.cs:250-263 | the placeholder becomes the input array with the model item appended as its last element, the rest of the payload untouched |
| ConnectorImpl.SeparatorOnlyBetweenItems | Source/WMLBase/COM.IBM.ML.ILOG/V4/ConnectorImpl.cs:261 | an empty input array gets no comma before the model item; a non-empty one gets one |
| ConnectorImpl.EngineJobCall | Source/WMLBase/COM.IBM.ML.ILOG/V4/ConnectorImpl.cs:379-387 | the creation request is a POST of the payload to deployment_jobs with the WML parameters and the bearer, accept and content-type headers; possible exactly when host, version and space id are configured |
| ConnectorImpl.CutAnswer | Source/WMLBase/COM.IBM.ML.ILOG/V4/ConnectorImpl.cs:389-398 | the cut fails with the negative-length message exactly when the answer holds neither mark; with metadata after entity it keeps an object starting at metadata |
| ConnectorImpl.EntityFirstKeepsMetadata | Source/WMLBase/COM.IBM.ML.ILOG/V4/ConnectorImpl.cs:391-394 | an answer with the entity before the metadata is reduced to an object holding only the metadata part |
| ConnectorImpl.MetadataFirstClosesObject | Source/WMLBase/COM.IBM.ML.ILOG/V4/ConnectorImpl.cs:395-398 | an answer with a flat metadata object before the entity is cut before the entity with its "}," made "}}" |
| ConnectorImpl.CutBeforeEntity | Source/WMLBase/COM.IBM.ML.ILOG/V4/ConnectorImpl.cs:397 | with metadata first the answer is cut at the first entity mark and its "}," made "}}" |
| ConnectorImpl.ClosingReplaced | Source/WMLBase/COM.IBM.ML.ILOG/V4/ConnectorImpl.cs:397 | the replacement closes the object at its one "}," |
| ConnectorImpl.CreateEngineJob | Source/WMLBase/COM.IBM.ML.ILOG/V4/ConnectorImpl.cs:374-409 | an unbuildable request or a null answer fails; a created job belongs to the deployment, starts without a status, and its id is metadata.id of the cut answer |
| ConnectorImpl.Poll | Source/WMLBase/COM.IBM.ML.ILOG/V4/ConnectorImpl.cs:416-448 | a failed status update escapes; a state read that fails keeps the previously observed state; a null or failed state has its failure read |
| ConnectorImpl.PollUntilDone | Source/WMLBase/COM.IBM.ML.ILOG/V4/ConnectorImpl.cs:414-454 | polling stops only in a terminal state, a loop still running has seen none, a completed job's output data is readable, the job ids never change, and a first update failure fails the wait |
| ConnectorImpl.WaitCompletion | Source/WMLBase/COM.IBM.ML.ILOG/V4/ConnectorImpl.cs:411-456 | from an unknown state the wait ends only in completed, failed, canceled or Deleted, and a completed job's output data is read |
| ConnectorImpl.LaterAnswersUnread | Source/WMLBase/COM.IBM.ML.ILOG/V4/ConnectorImpl.cs:449 | once a terminal state is seen no further status answer is read |
| ConnectorImpl.PollingResumes | Source/WMLBase/COM.IBM.ML.ILOG/V4/ConnectorImpl.cs:414-449 | a wait that ran out of answers continues, on more answers, from the job and state it reached |
| ConnectorImpl.OnlyTerminalStatesStop | Source/WMLBase/COM.IBM.ML.ILOG/V4/ConnectorImpl.cs:445-449 | an answer with a non-terminal state, null included, never ends the loop; a terminal state other than completed ends it at once |
| ConnectorImpl.CreateAndRunEngineJob | Source/WMLBase/COM.IBM.ML.ILOG/V4/ConnectorImpl.cs:458-463 | a job that cannot be created fails the run; otherwise the job waited on is the created one |
| ConnectorImpl.DeploymentsCall | Source/WMLBase/COM.IBM.ML.ILOG/V4/ConnectorImpl.cs:589-606 | the listing is a GET of the deployments path with the WML parameters, possible exactly when host, version and space id are configured |
| ConnectorImpl.ResourceMetadata | Source/WMLBase/COM.IBM.ML.ILOG/V4/ConnectorImpl.cs:625 | a resource's metadata object, which must be there |
| ConnectorImpl.FindDeployment | Source/WMLBase/COM.IBM.ML.ILOG/V4/ConnectorImpl.cs:622-632 | a found id belongs to a resource with the wanted name, and a list of resources all named otherwise gives null |
| ConnectorImpl.FirstMatchWins | Source/WMLBase/COM.IBM.ML.ILOG/V4/ConnectorImpl.cs:623-629 | the first resource with the name gives its id, whatever follows |
| ConnectorImpl.GetDeploymentIdByName | Source/WMLBase/COM.IBM.ML.ILOG/V4/ConnectorImpl.cs:618-633 | an unbuildable request or a null answer fails; otherwise the search over the answer's resources |
| ConnectorImpl.GetOrMakeDeployment | Source/WMLBase/COM.IBM.ML.ILOG/V4/ConnectorImpl.cs:724-746 | a deployment found by name is reused and a failed lookup fails; otherwise a model of the connector's runtime for the engine (CPLEX or CP Optimizer) is created and deployed with the connector's size and nodes |
| ConnectorImpl.EnginesGetDistinctModels | Source/WMLBase/COM.IBM.ML.ILOG/V4/ConnectorImpl.cs:731-735 | the models created for the two engines never share a type name |
| ConnectorImpl.DeleteJobCall | Source/WMLBase/COM.IBM.ML.ILOG/V4/ConnectorImpl.cs:634-666 | the deletion is a DELETE of the job path with the WML parameters and hard_Delete, "true" exactly when the setting reads as true; an unreadable setting or missing host, version or space id fails |
| CpNames.CandidateInjective | Source/CP/ILOG/CP/ExternalCP.cs:76-80 | the names tried for one base (the base, then base_1, base_2, …) are pairwise different |
| CpNames.FirstFree | Source/CP/ILOG/CP/ExternalCP.cs:75-80 | the search stops at the first candidate not already taken, every earlier one being taken |
| CpNames.SetUniqueName | Source/CP/ILOG/CP/ExternalCP.cs:70-86 | the chosen name is free, is the least free candidate of the object's own name (or of the prefix when it has none); a free own name is kept with nothing recorded; a changed name is set and the original recorded, and recording an object twice fails |
| CpNames.SetUniqueNameTracks | Source/CP/ILOG/CP/ExternalCP.cs:81-85 | after a renaming, every recorded object's entry is its original name and every other object still carries its original name |
| CpNames.NameAll | Source/CP/ILOG/CP/ExternalCP.cs:120-125 | naming the objects of one kind gives one dictionary entry per object and the dictionary reaches every object |
| CpNames.NameAllFrame | Source/CP/ILOG/CP/ExternalCP.cs:120-125 | naming one kind leaves the name of every object outside it untouched |
| CpNames.NameAllNames | Source/CP/ILOG/CP/ExternalCP.cs:70-86 | for distinct objects, object i ends up named `base`, `base_1`, … at the least k whose earlier candidates are all dictionary keys of earlier objects, where `base` is its own name or else the prefix followed by i (plus the offset); the dictionary maps that name to the object |
| CpNames.NameAllTracks | Source/CP/ILOG/CP/ExternalCP.cs:120-125 | naming a whole kind keeps the record of original names exact |
| CpNames.NameAllCurrent | Source/CP/ILOG/CP/ExternalCP.cs:120-125 | for distinct objects each dictionary entry names the object that now carries that name |
| CpNames.Dedup | Source/CP/ILOG/CP/ExternalCP.cs:158-168 | the constraints taken once each: no repeats, the same members, no longer than the list |
| CpNames.Build | Source/CP/ILOG/CP/ExternalCP.cs:113-178 | one dictionary entry per integer variable, interval, sequence and state function, and one per distinct constraint |
| CpNames.BuildNames | Source/CP/ILOG/CP/ExternalCP.cs:113-176 | for a model whose kinds hold distinct objects and share none, an unnamed object falls back to `IntVar_i`, `IntervalVar_i`, `IntervalSequenceVar_i` or `StateFunction_i` (i its index in its kind) and the n-th distinct constraint to `Constraint_n` counted from 1, each then made unique with the least free `_k` suffix; each dictionary maps the final name to its object |
| CpNames.NamedAsSourceTransport | Source/CP/ILOG/CP/ExternalCP.cs:113-155 | later kinds, which do not touch an earlier kind's objects, keep that kind's naming as it was |
| CpNames.Restore | Source/CP/ILOG/CP/ExternalCP.cs:91-97 | every recorded object gets its original name back and every other object keeps its name |
| CpNames.BuildThenRestore | Source/CP/ILOG/CP/ExternalCP.cs:113-178 | naming a model and then restoring gives back exactly the names the model had |
| CpNames.CheckNoDuplicate | Source/CP/ILOG/CP/ExternalCP.cs:102-108 | a query name fails with "Duplicate model object name" exactly when it was the original name of a renamed object |
| CpSolution.StatusOf | Source/CP/ILOG/CP/Solution.cs:84-103 | a status other than Error is only produced from its own text |
| CpSolution.StatusRoundTrip | Source/CP/ILOG/CP/Solution.cs:84-103 | each of the six status texts decodes to the status of that name |
| CpSolution.SegmentBound | Source/CP/ILOG/CP/Segment.cs:15-47 | an absent bound or its sentinel text gives the sentinel; any other text goes through integer parsing |
| CpSolution.DecodeSegment | Source/CP/ILOG/CP/Segment.cs:13-58 | an item that is not an object, a JSON null included, fails the cast to an object; a segment's start and end are read as above with intervalmin and intervalmax as sentinels, and an absent value is the no-state value -1 |
| CpSolution.CrossedSentinelsFail | Source/CP/ILOG/CP/Segment.cs:15-47 | only the matching sentinel is special: intervalmax as a start or intervalmin as an end fails to parse |
| CpSolution.ParseNumber | Source/CP/ILOG/CP/Solution.cs:120-125 | "infinity" in any letter case is positive infinity; any other text is the runtime's double parse |
| CpSolution.InfinityAnyCase | Source/CP/ILOG/CP/Solution.cs:120-125 | "Infinity" and "INFINITY" are positive infinity while "-Infinity" goes to the runtime's parse |
| CpSolution.Reset | Source/CP/ILOG/CP/Solution.cs:54-82 | the values, bounds, gaps, KPIs and conflict data are cleared while the sequence and state-function maps and the status are left as they were |
| CpSolution.DecodeStatus | Source/CP/ILOG/CP/Solution.cs:105-113 | no solutionStatus section gives null; a section without solveStatus gives Error |
| CpSolution.DecodeInterval | Source/CP/ILOG/CP/Solution.cs:153-162 | an interval has start, size and end exactly when it has a start |
| CpSolution.DecodeNameList | Source/CP/ILOG/CP/Solution.cs:174-182 | a sequence keeps the interval names in document order, one per item; an array of scalar items always decodes |
| CpSolution.DecodeSegmentList | Source/CP/ILOG/CP/Solution.cs:194-201 | a state function keeps its segments in document order, one per item |
| CpSolution.Members | Source/CP/ILOG/CP/Solution.cs:133-143 | an absent section gives an empty map; a present one gives a value for exactly its members |
| CpSolution.Numbers | Source/CP/ILOG/CP/Solution.cs:219-244 | an absent list gives no values; a present one gives one value per item, in order |
| CpSolution.DecodeConflict | Source/CP/ILOG/CP/Solution.cs:246-273 | without a conflict section there are no conflicts; with one, conflicts are flagged exactly when it holds constraints or intervals, each decoded as text |
| CpSolution.DecodeIntervals | Source/CP/ILOG/CP/Solution.cs:146-164 | the start, size and end maps cover exactly the intervals that have a start |
| CpSolution.Parse | Source/CP/ILOG/CP/Solution.cs:127-274 | a decoded document has every section of the expected shape, its status decoded, a value per integer variable, start/size/end for exactly the started intervals, one objective per item, conflicts flagged as above, and no object-keyed values yet |
| CpSolver.ResolveList | Source/CP/ILOG/CP/ExternalCP.cs:250-256 | each interval name of a sequence resolves to its object when known and to a null entry otherwise |
| CpSolver.Transfer | Source/CP/ILOG/CP/ExternalCP.cs:207-268 | a transfer succeeds only when every name is known, and then each object carries the value its name had, with the name-keyed maps kept |
| CpSolver.Solve | Source/CP/ILOG/CP/ExternalCP.cs:188-275 | the answer, when there is one, is whether the status is Feasible or Optimal; true only after a successful solve with a set status and a decoded result; once the external solve has returned, any result held is this run's decoded document, never an earlier solve's |
| CpSolver.SolveNullStatusClearsResult | Source/CP/ILOG/CP/ExternalCP.cs:193-197 | a null status text clears the result before the comparison throws: the objective getter answers "No solution available", the status is untouched and the names stay generated |
| CpSolver.SolveRestoresNames | Source/CP/ILOG/CP/ExternalCP.cs:188-275 | on a normal return every object has its original name back |
| CpSolver.SolveInfeasible | Source/CP/ILOG/CP/ExternalCP.cs:197-200 | the infeasible_solution answer records Infeasible, keeps no result and answers false |
| CpSolver.SolveFailureKeepsGeneratedNames | Source/CP/ILOG/CP/ExternalCP.cs:190-193 | a failing external solve leaves the model under its generated names, the restore not being in a finally |
| CpSolver.SolveWithoutStatusThrows | Source/CP/ILOG/CP/ExternalCP.cs:204-274 | a solution document without a status section makes Solve fail even though the solve went through |
| CpSolver.RefineConflict | Source/CP/ILOG/CP/ExternalCP.cs:279-310 | the answer is whether the solution holds conflicts; the names stay generated; with conflicts, the conflicting constraints and intervals are resolved one per entry |
| CpSolver.ObjValue | Source/CP/ILOG/CP/ExternalCP.cs:357-363 | without a result "No solution available"; otherwise the first objective value |
| CpSolver.ObjValues | Source/CP/ILOG/CP/ExternalCP.cs:364-376 | the objective values exactly when there is a result |
| CpSolver.ByName | Source/CP/ILOG/CP/ExternalCP.cs:408-421 | a remote value when the result holds one, otherwise the local engine's answer |
| CpSolver.GetValueByName | Source/CP/ILOG/CP/ExternalCP.cs:408-421 | an ambiguous name fails; otherwise the remote integer value or the local one |
| CpSolver.IsPresent | Source/CP/ILOG/CP/ExternalCP.cs:424-430 | an ambiguous name fails; otherwise present exactly when a result exists and has a start for the interval |
| CpSolver.IsAbsent | Source/CP/ILOG/CP/ExternalCP.cs:432-436 | an ambiguous name fails |
| CpSolver.AbsentIsNotPresent | Source/CP/ILOG/CP/ExternalCP.cs:432-436 | absence is the negation of presence, failing together |
| CpSolver.GetEnd | Source/CP/ILOG/CP/ExternalCP.cs:438-451 | an ambiguous name fails; otherwise the remote end or the local one |
| CpSolver.GetStart | Source/CP/ILOG/CP/ExternalCP.cs:480-493 | whether the remote start is used is decided by the END map; the value then comes from the start map, 0 when missing |
| CpSolver.GetStartOnDecoded | Source/CP/ILOG/CP/ExternalCP.cs:480-493 | on a decoded solution the end-map test agrees with the start map, so the start is read as expected |
| CpSolver.GetSize | Source/CP/ILOG/CP/ExternalCP.cs:496-509 | an ambiguous name fails; otherwise the remote size or the local one |
| CpSolver.GetLength | Source/CP/ILOG/CP/ExternalCP.cs:512-518 | without a result the local SIZE is returned; otherwise end minus start in 32-bit arithmetic |
| CpSolver.GettersRejectAmbiguousNames | Source/CP/ILOG/CP/ExternalCP.cs:102-108 | all seven name-based getters reject a name that was the original name of a renamed object |
| CpSolver.GetIntValue | Source/CP/ILOG/CP/ExternalCP.cs:378-390 | a remote value converted to a 32-bit integer, failing when it does not fit, when the result holds one for the variable; otherwise the local engine's |
| CpSolver.GetValue | Source/CP/ILOG/CP/ExternalCP.cs:393-405 | the remote value when the result holds one for the variable, otherwise the local engine's |
| CpSolver.GetValues | Source/CP/ILOG/CP/ExternalCP.cs:454-477 | without a result a failing local query fails first; with a result, lengths that differ fail; with equal lengths it succeeds exactly when every variable answers; on success element i is the value of variable i |
| CpSolver.AllValues | Source/CP/ILOG/CP/ExternalCP.cs:462-463 | one value per variable, each its GetValue; it succeeds exactly when every variable answers, and otherwise fails with the error of the first one that does not |
| CplexNames.TagInjective | Source/Cplex/ILOG/CPLEX/ExternalCplex.cs:33 | the names `vv<k>` (and `cc<k>`) of two counts are equal exactly when the counts are |
| CplexNames.Register | Source/Cplex/ILOG/CPLEX/ExternalCplex.cs:26-49 | an object already in the dictionary of old names is skipped with nothing changed; a new one has its current name (null included) recorded, is renamed after the new count and is found under that name; no other object's name changes |
| CplexNames.RegisterOk | Source/Cplex/ILOG/CPLEX/ExternalCplex.cs:26-49 | registering an object keeps the bookkeeping consistent: each object recorded once with its pre-solve name, the i-th one named and found under the i-th tag |
| CplexNames.RegOkFrame | Source/Cplex/ILOG/CPLEX/ExternalCplex.cs:26-49 | renaming an object of the other kind does not disturb a kind's bookkeeping |
| CplexNames.AddVariableWf | Source/Cplex/ILOG/CPLEX/ExternalCplex.cs:26-37 | registering a variable keeps both kinds consistent and every unregistered object on its original name |
| CplexNames.AddRangeWf | Source/Cplex/ILOG/CPLEX/ExternalCplex.cs:39-49 | registering a range keeps both kinds consistent and every unregistered object on its original name |
| CplexNames.NameVarsOrder | Source/Cplex/ILOG/CPLEX/ExternalCplex.cs:164-165 | the loop over the engine's variables numbers them in order of first occurrence, duplicates skipped |
| CplexNames.NameRangesOrder | Source/Cplex/ILOG/CPLEX/ExternalCplex.cs:176-177 | the loop over an LP matrix's ranges numbers them in order of first occurrence |
| CplexNames.NameElement | Source/Cplex/ILOG/CPLEX/ExternalCplex.cs:168-197 | an element of an unhandled type stops the naming with "Cannot handle" and its description; any other element leaves the variables alone |
| CplexNames.NameElements | Source/Cplex/ILOG/CPLEX/ExternalCplex.cs:168-197 | the enumeration fails exactly when some element is unhandled, and then with the message of the first such element |
| CplexNames.NameElementOrder | Source/Cplex/ILOG/CPLEX/ExternalCplex.cs:170-193 | one handled element (an LP matrix, a standalone range, or an ignored kind) keeps the bookkeeping consistent and appends exactly the new ranges it contributes, in its own order |
| CplexNames.NameElementsOrder | Source/Cplex/ILOG/CPLEX/ExternalCplex.cs:168-197 | a complete enumeration numbers the ranges of LP matrices and standalone ranges in order of first occurrence, bookkeeping consistent |
| CplexNames.NamingAssignsTags | Source/Cplex/ILOG/CPLEX/ExternalCplex.cs:158-197 | after naming, the k-th distinct variable is called `vv<k>` and the k-th distinct range `cc<k>`, every original name is recorded |
| CplexNames.Naming | Source/Cplex/ILOG/CPLEX/ExternalCplex.cs:158-197 | naming fails exactly when the model has an element the bridge cannot handle, and then with the description of the first such element |
| CplexNames.TagsDistinct | Source/Cplex/ILOG/CPLEX/ExternalCplex.cs:158-165 | two different variables never share a name during the solve, whatever names they had before |
| CplexNames.RestoreUndoes | Source/Cplex/ILOG/CPLEX/ExternalCplex.cs:248-257 | the `finally` block gives every object back exactly the name it had before the solve, null included |
| CplexNames.Restore | Source/Cplex/ILOG/CPLEX/ExternalCplex.cs:248-257 | every recorded range gets its recorded name, every other recorded variable its recorded name, and every unrecorded object keeps its name |
| CplexNames.ByNameOneToOne | Source/Cplex/ILOG/CPLEX/ExternalCplex.cs:161-162 | the dictionaries from assigned name to object map different names to different objects |
| CplexSolution.WithStatus | Source/Cplex/ILOG/CPLEX/Solution.cs:77-80 | a solution built from a status alone has that status, no document, is infeasible and has no values |
| CplexSolution.Reset | Source/Cplex/ILOG/CPLEX/Solution.cs:98-120 | resetting clears every field back to a fresh solution's value except the object-keyed reduced costs, which it does not clear |
| CplexSolution.ResetAll | Source/Cplex/ILOG/CPLEX/Solution.cs:98-120 | a complete reset gives a fresh solution whatever the prior state |
| CplexSolution.ResetKeepsStaleReducedCosts | Source/Cplex/ILOG/CPLEX/Solution.cs:98-120 | a reused solution keeps an earlier solve's reduced costs through `Reset`, while the complete reset drops them |
| CplexSolution.Add | Source/Cplex/ILOG/CPLEX/Solution.cs:263 | recording a second entry under the same name fails; a new one is added |
| CplexSolution.Flag | Source/Cplex/ILOG/CPLEX/Solution.cs:229-230 | an absent feasibility attribute reads as false; a present one must parse as an integer and is true when non-zero |
| CplexSolution.ReadHeader | Source/Cplex/ILOG/CPLEX/Solution.cs:219-231 | a header without objective or without status fails with the matching message naming the solution number; otherwise objective, status and both flags come from the attributes and nothing else changes |
| CplexSolution.ReadVariable | Source/Cplex/ILOG/CPLEX/Solution.cs:255-275 | an unnamed variable is ignored; a named one without value fails; value and reduced cost are recorded only for known names; only known names are ever added |
| CplexSolution.ReadConstraint | Source/Cplex/ILOG/CPLEX/Solution.cs:277-301 | a constraint unnamed or unknown is ignored; for a known one, dual and slack are each recorded when present; only known names are ever added |
| CplexSolution.OnStart | Source/Cplex/ILOG/CPLEX/Solution.cs:197-309 | the first tag must be `CPLEXSolution` and marks the solution feasible; any tag inside header, quality or after the solution is malformed; inside `<variables>` only `variable` is allowed; inside an unknown element the tag is pushed |
| CplexSolution.OnEnd | Source/Cplex/ILOG/CPLEX/Solution.cs:312-368 | an end tag must close the open section; in an unknown section it must match the last pushed name, and the section ends when the stack is empty; end tags never change the decoded values |
| CplexSolution.StepGood | Source/Cplex/ILOG/CPLEX/Solution.cs:193-372 | each accepted node keeps the parser invariant: the stack is non-empty exactly inside an unknown section and only known names are recorded |
| CplexSolution.RunGood | Source/Cplex/ILOG/CPLEX/Solution.cs:193-372 | the invariant holds after any accepted node stream |
| CplexSolution.Parse | Source/Cplex/ILOG/CPLEX/Solution.cs:181-374 | a parsed solution records only known variable and constraint names, carries no object-keyed values and no document text |
| CplexSolution.ParseIgnoresPrior | Source/Cplex/ILOG/CPLEX/Solution.cs:126-131 | because parsing starts with `Reset`, two solution objects with the same leftover reduced costs parse a document to the same result |
| CplexSolution.FromXml | Source/Cplex/ILOG/CPLEX/Solution.cs:82-86 | a solution built from a document has no document text, only known names and nothing keyed by object |
| CplexSolution.FromXmlKeepingText | Source/Cplex/ILOG/CPLEX/Solution.cs:82-96 | the corrected decoder succeeds exactly when the as-written one does and keeps the document text, so `HasSolution` holds |
| CplexSolution.FirstTagMustBeSolution | Source/Cplex/ILOG/CPLEX/Solution.cs:204-212 | a document whose first tag is not `CPLEXSolution` is malformed |
| CplexSolution.SelfClosingHeaderThenQuality | Source/Cplex/ILOG/CPLEX/Solution.cs:215-221 | a self-closing `<header/>` leaves the parser in the header state, so a following `<quality>` tag is malformed |
| CplexSolution.HeaderRecorded | Source/Cplex/ILOG/CPLEX/Solution.cs:219-230 | a complete header yields a feasible solution with the objective, status and feasibility flags its attributes give |
| CplexSolver.ZeroFill | Source/Cplex/ILOG/CPLEX/ExternalCplex.cs:227-230 | every recorded range gets an entry: decoded values are kept, the others read 0.0 |
| CplexSolver.Transfer | Source/Cplex/ILOG/CPLEX/ExternalCplex.cs:204-244 | the transfer empties the four name-keyed maps, moves each decoded value to the object its name designates, gives every recorded range a dual and slack (0.0 when none was decoded) and keeps header fields; a variable name the solver was not told about fails |
| CplexSolver.TransferSucceeds | Source/Cplex/ILOG/CPLEX/ExternalCplex.cs:202-244 | a solution decoded against the names the solver was given always transfers |
| CplexSolver.TransferOk | Source/Cplex/ILOG/CPLEX/ExternalCplex.cs:202-240 | the four transfers cannot fail when no object is keyed yet and each name map resolves every name to a distinct object |
| CplexSolver.Process | Source/Cplex/ILOG/CPLEX/ExternalCplex.cs:150-258 | the names are restored on every path; an unhandled element fails and leaves the previous result; success reports the decoded feasibility, leaves nothing name-keyed, and every range of the model has a dual and a slack |
| CplexSolver.SolveSucceeds | Source/Cplex/ILOG/CPLEX/ExternalCplex.cs:146-149 | a supported model whose external solve returns a solution decoded against the given names solves, reporting its feasibility |
| CplexSolver.RequestNamesAreTags | Source/Cplex/ILOG/CPLEX/ExternalCplex.cs:202 | the variable names given to the external solve are exactly `vv1` … `vv<n>` for the n distinct variables |
| CplexSolver.ObjValue | Source/Cplex/ILOG/CPLEX/ExternalCplex.cs:279-284 | without a result the query fails with "No solution available"; otherwise it is the decoded objective |
| CplexSolver.Ask | Source/Cplex/ILOG/CPLEX/ExternalCplex.cs:288-296 | a single query fails without a result, fails with the query's own message for an object the solution does not mention, and otherwise returns the object's entry |
| CplexSolver.RangesAlwaysAnswered | Source/Cplex/ILOG/CPLEX/ExternalCplex.cs:227-244 | after a successful solve, dual and slack of every range of the model can be queried |
| CplexSolver.Each | Source/Cplex/ILOG/CPLEX/ExternalCplex.cs:318-319 | an element-wise query succeeds exactly when the bounds lie inside the array and every element answers, giving the answers in order |
| CplexSolver.All | Source/Cplex/ILOG/CPLEX/ExternalCplex.cs:299-309 | the array query fails without a result, succeeds exactly when every element is in the solution, and returns the entries in order |
| CplexSolver.SliceQuery | Source/Cplex/ILOG/CPLEX/ExternalCplex.cs:312-321 | the count `end - start` is a 32-bit difference: a reversed range fails with "Cannot Get reduced cost", and so does a forward one whose count overflows; an empty one gives no values even without a result; a reversed one whose count wraps round to a positive value gives that many zeros; otherwise it succeeds exactly when the slice lies in the array and each element answers, element by element |
| CplexSolver.Copy | Source/Cplex/ILOG/CPLEX/ExternalCplex.cs:391-393 | copying a slice fails exactly when it leaves the array, and otherwise returns those elements |
| CplexSolver.CopyQuery | Source/Cplex/ILOG/CPLEX/ExternalCplex.cs:386-395 | with the same 32-bit count: a reversed or overflowing range fails with "Cannot Get Duals"; an empty one gives no values; a reversed one whose count wraps round copies nothing and fails on the null range ("No solution available" without a result, the null dictionary key otherwise); a slice outside the array fails on the copy; otherwise it is the array query on the slice |
| CplexSolver.SliceAgreesWithWhole | Source/Cplex/ILOG/CPLEX/ExternalCplex.cs:299-321 | inside the array, both slice flavours answer what the whole-array query answers for the same elements |
| CplexSolver.SpanCases | Source/Cplex/ILOG/CPLEX/ExternalCplex.cs:312 | the 32-bit count is zero exactly for an empty range, the true difference when that fits, and 2^32 away from it otherwise |
| CplexSolver.WrappedSliceGivesZeros | Source/Cplex/ILOG/CPLEX/ExternalCplex.cs:312-321 | `GetValues(v, 2147483637, -2147483643)` gives sixteen zeros whatever the engine holds |
| CplexSolver.SlicesWithoutResult | Source/Cplex/ILOG/CPLEX/ExternalCplex.cs:312-321 | without a result both slice flavours fail with "No solution available" |
| CplexSolver.GetCplexStatus | Source/Cplex/ILOG/CPLEX/ExternalCplex.cs:355-360 | without a result the status is unknown; otherwise it is the decoded status code |
| CplexSolver.GetStatus | Source/Cplex/ILOG/CPLEX/ExternalCplex.cs:347-352 | without a result the algorithm status is unknown; otherwise it is built from code and both feasibility flags |
| CplexSolver.FeasibilityQueriesIgnoreFlags | Source/Cplex/ILOG/CPLEX/ExternalCplex.cs:432-444 | the primal and dual feasibility queries answer false even when the decoded flags say feasible |
| CplexSolver.AddConstraints | Source/Cplex/ILOG/CPLEX/ExternalCplex.cs:112-118 | adding constraints succeeds exactly when every one is a range, each adding one entry and no bound entries |
| CplexSolver.AddAllBounds | Source/Cplex/ILOG/CPLEX/ExternalCplex.cs:129-130 | adding bounds for n objects adds n lower-bound and n upper-bound entries |
| CplexSolver.Bounded | Source/Cplex/ILOG/CPLEX/ExternalCplex.cs:123-140 | an array of objects needs both bound arrays, present and of the same length, or the call is refused |
| CplexSolver.BuildRelaxer | Source/Cplex/ILOG/CPLEX/ExternalCplex.cs:104-141 | constraints need a preference each; without constraints no preferences may be given; a non-range constraint is refused |
| CplexSolver.FeasOpt | Source/Cplex/ILOG/CPLEX/ExternalCplex.cs:509-512 | failed argument checks leave the engine untouched; without constraints or preferences the empty relaxation is solved; names are always restored |
| CplexSolver.RefineConflictSlice | Source/Cplex/ILOG/CPLEX/ExternalCplex.cs:579-593 | every path fails: mismatched arrays, an empty or reversed range, or a forward range whose 32-bit count overflows fail with "Problem with conflict"; a reversed range whose count wraps round to a positive value and a slice inside the array reach the refused whole-array call |
| CplexSolver.GetConflictSlice | Source/Cplex/ILOG/CPLEX/ExternalCplex.cs:552-563 | every path fails: an empty or reversed range, or one whose 32-bit count overflows, with "Problem with conflict"; a reversed range whose count wraps round to a positive value and a slice inside the array with the refusal |
| CplexSolver.ConflictRefinerUnreachable | Source/Cplex/ILOG/CPLEX/ExternalCplex.cs:566-576 | no entry point of the CPLEX engine runs the conflict refiner |
| Relaxations.AddRange | Source/Cplex/ILOG/CPLEX/Relaxations.cs:97-100 | a range given as a range joins the `rng` bucket at the end; the other buckets are unchanged and the size grows by one |
| Relaxations.AddConstraint | Source/Cplex/ILOG/CPLEX/Relaxations.cs:102-115 | a constraint is accepted exactly when it is a range: a one-sided range (lower bound -MaxValue or upper bound MaxValue) joins `rhs`, any other range `rng`; anything else is refused with "Only ranges are supported in WML feasopt." |
| Relaxations.AddBounds | Source/Cplex/ILOG/CPLEX/Relaxations.cs:117-131 | relaxing the bounds of a range or variable adds one entry to `lb` and one to `ub` and nothing else |
| Relaxations.RepeatedAddCountsTwice | Source/Cplex/ILOG/CPLEX/Relaxations.cs:51-55 | each add makes a new entry, so the same pair added twice is counted and written twice |
| Relaxations.Lines | Source/Cplex/ILOG/CPLEX/Relaxations.cs:28-36 | the lines of a bucket are written exactly when every object has a name; otherwise the message names an unnamed object |
| Relaxations.LinesAppend | Source/Cplex/ILOG/CPLEX/Relaxations.cs:63-64 | the lines of two consecutive parts of a bucket are the lines of each, in order |
| Relaxations.Group | Source/Cplex/ILOG/CPLEX/Relaxations.cs:57-66 | an empty bucket writes nothing; a non-empty one is its tag around its lines |
| Relaxations.MakeFile | Source/Cplex/ILOG/CPLEX/Relaxations.cs:68-80 | the document is produced exactly when every entry is named, and opens with the `CPLEXFeasopt` header and closes with its footer |
| Relaxations.EmptyFile | Source/Cplex/ILOG/CPLEX/Relaxations.cs:68-80 | with nothing to relax the document is the bare root element |
| Relaxations.AddRangeAddsOneLine | Source/Cplex/ILOG/CPLEX/Relaxations.cs:57-80 | adding a named range keeps the document writable and appends exactly its `<relax>` line to the `rng` group |
| Conflicts.Find | Source/Cplex/ILOG/CPLEX/Conflicts.cs:79-83 | the group of a preference is found when one exists, and -1 means none has it |
| Conflicts.Add | Source/Cplex/ILOG/CPLEX/Conflicts.cs:72-85 | logical combinations are refused with a message naming the constraint; any other constraint grows the size by one, joins the group of its preference or opens a new last group, and preferences stay keys |
| Conflicts.DuplicatesKept | Source/Cplex/ILOG/CPLEX/Conflicts.cs:79-84 | the same constraint added twice under one preference is kept twice in one group |
| Conflicts.TypeTag | Source/Cplex/ILOG/CPLEX/Conflicts.cs:25-54 | SOS constraints are `sos`, if-then ones `ind`, linear ranges and other constraints `lin`; quadratic ranges fail with "This is not supported yet" and logical combinations with the unsupported-type message |
| Conflicts.Cons | Source/Cplex/ILOG/CPLEX/Conflicts.cs:87-92 | the lines of a group are written exactly when every constraint has a name and a type tag |
| Conflicts.GroupText | Source/Cplex/ILOG/CPLEX/Conflicts.cs:87-93 | a group is written, even empty, between its preference tag and `</group>` exactly when all its members are writable |
| Conflicts.GroupsText | Source/Cplex/ILOG/CPLEX/Conflicts.cs:99-102 | all groups are written exactly when every member of every group is writable |
| Conflicts.MakeFile | Source/Cplex/ILOG/CPLEX/Conflicts.cs:95-107 | the document is produced exactly when every constraint is writable, and opens with the `CPLEXRefineconflictext` header and closes with its footer |
| Conflicts.SingleEntryFile | Source/Cplex/ILOG/CPLEX/Conflicts.cs:72-107 | one writable constraint gives a document with one group holding exactly its line |
| WmlCplex.DeploymentName | Source/Cplex/ILOG/CPLEX/WmlCplex.cs:26 | the deployment name is the CPLEX prefix followed by the runtime, size and node count joined by dots |
| WmlCplex.DeploymentNameInjective | Source/Cplex/ILOG/CPLEX/WmlCplex.cs:26 | two engines share a deployment name only when runtime, size and node count all agree |
| WmlCplex.ConfigurationInjective | Source/Cplex/ILOG/CPLEX/WmlCplex.cs:26 | distinct runtime, size and node-count triples are written differently |
| WmlCplex.StoredLimit | Source/Cplex/ILOG/CPLEX/WmlCplex.cs:29 | the stored limit is the minutes setting times 60,000 in 32-bit arithmetic: exactly that product whenever it fits |
| WmlCplex.NewWmlCplex | Source/Cplex/ILOG/CPLEX/WmlCplex.cs:22-31 | the engine is made exactly when the connector is made (with the XML result format, all connector and token settings read) and the minutes setting parses; its connector is that connector; it has the configuration's deployment name, the export format setting or `.sav.gz`, no pending job, and the minutes stored as milliseconds |
| WmlCplex.UnsetSettingsDefaults | Source/Cplex/ILOG/CPLEX/WmlCplex.cs:28-29 | without settings the export format is `.sav.gz` and 60 minutes are stored as 3,600,000 milliseconds |
| WmlCplex.SolveLimitAsWritten | Source/Cplex/ILOG/CPLEX/WmlCplex.cs:59-62 | the limit a solve sets as written is the stored milliseconds times 60, wrapped to 32 bits |
| WmlCplex.SolveLimit | Source/Cplex/ILOG/CPLEX/WmlCplex.cs:59-62 | the corrected limit is the minutes times 60 seconds, exact whenever it fits in 32 bits |
| WmlCplex.SolveLimitUnits | Source/Cplex/ILOG/CPLEX/WmlCplex.cs:29-62 | the default hour becomes 216,000,000 seconds as written and 3,600 as intended; 597 minutes become a negative limit as written |
| WmlCplex.SolveLimitInSeconds | Source/Cplex/ILOG/CPLEX/WmlCplex.cs:59-62 | every non-negative number of minutes whose seconds fit in 32 bits becomes exactly that many seconds with the corrected limit |
| WmlCplex.Entry | Source/Cplex/ILOG/CPLEX/WmlCplex.cs:127-157 | the parameters are the one input every job has; any other input present is of the kind its position names |
| WmlCplex.Collect | Source/Cplex/ILOG/CPLEX/WmlCplex.cs:127-157 | the inputs of the first kinds come in the order of kinds, with every present input included, the parameters first and the previous solution second when sent |
| WmlCplex.Items | Source/Cplex/ILOG/CPLEX/WmlCplex.cs:127-157 | the input array holds every input whose condition holds, starts with the parameters, then the previous solution when sent, and keeps the order parameters, solution, MIP starts, filters, annotations, relaxations, conflicts |
| WmlCplex.DirectiveText | Source/Cplex/ILOG/CPLEX/WmlCplex.cs:143-158 | a relaxation or conflict set is sent only when given and not empty, as the document it writes; one that cannot be written fails the solve |
| WmlCplex.ChooseInputs | Source/Cplex/ILOG/CPLEX/WmlCplex.cs:88-158 | the previous solution's text is sent exactly for a MIP whose previous result has one; MIP starts exactly for a MIP whose starts could be written; filters exactly for a MIP; annotations exactly when the model has some; the directive files as written by their directives |
| WmlCplex.IdsDistinct | Source/Cplex/ILOG/CPLEX/WmlCplex.cs:129-157 | the inputs of one job all have different ids |
| WmlCplex.Ids | Source/Cplex/ILOG/CPLEX/WmlCplex.cs:129-157 | each input is sent under the deployment name followed by its kind's suffix |
| WmlCplex.Answer | Source/Cplex/ILOG/CPLEX/WmlCplex.cs:165-187 | a decoded answer only names what the solver was told about, keeps no object-keyed values and, as written, carries no document text |
| WmlCplex.AnswerCases | Source/Cplex/ILOG/CPLEX/WmlCplex.cs:165-187 | a job without solve state fails; an infeasible status gives an infeasible solution; no output gives an unknown status; a solution output is decoded by the as-written decoder, so no answer ever carries a document text |
| WmlCplex.Attempt | Source/Cplex/ILOG/CPLEX/WmlCplex.cs:123-188 | the inner block sends one payload exactly when there is a deployment and the directives can be written, records the job once it has run, and returns the job's answer |
| WmlCplex.Cleanup | Source/Cplex/ILOG/CPLEX/WmlCplex.cs:189-200 | a pending job is deleted and the field cleared, then the token closed; a failed deletion replaces the result, keeps the job in the field and leaves the token open |
| WmlCplex.Guarded | Source/Cplex/ILOG/CPLEX/WmlCplex.cs:123-200 | the token request is followed by the attempt's request; the outcome is the attempt's when nothing was pending or the deletion passed; the token is closed exactly then, as the last event |
| WmlCplex.ExternalSolve | Source/Cplex/ILOG/CPLEX/WmlCplex.cs:54-205 | both a relaxation and a conflict set are refused before anything is asked; otherwise the token is requested first; a limit is set only when the user's is at its default, and then it is the as-written stored milliseconds times 60; a solve that reaches the service sends the attempt's payload second |
| WmlCplex.DefaultHourSetAsWritten | Source/Cplex/ILOG/CPLEX/WmlCplex.cs:29-62 | a solve with the minutes setting at its default hour and the CPLEX limit at its default sets 216,000,000 seconds |
| WmlCplex.ExternalSolveAnswer | Source/Cplex/ILOG/CPLEX/WmlCplex.cs:54-205 | a solve succeeds only with a decoded answer, without document text, of a job it ran; a job that ran and was deleted gives the solve its answer |
| WmlCplex.ExternalSolveCleansUp | Source/Cplex/ILOG/CPLEX/WmlCplex.cs:189-200 | the token is closed exactly when the files were written and nothing was left to delete or the deletion passed; a pending job is always asked to be deleted and stays in the field, failing the solve, exactly when that failed |
| WmlCplex.End | Source/Cplex/ILOG/CPLEX/WmlCplex.cs:34-51 | without a pending job the token is ended; with one, it is deleted first, and a failed deletion escapes before the token is ended |
| WmlCplex.UndeletedJobRetriedAtEnd | Source/Cplex/ILOG/CPLEX/WmlCplex.cs:194-198 | a job a solve could not delete stays in the field and is the first thing `End` asks the service to delete |
| WmlCplex.AttemptPayload | Source/Cplex/ILOG/CPLEX/WmlCplex.cs:127-161 | a job's payload goes to the deployment, starts with the parameters, ends with the model file, has distinct input ids and overrides no solve parameter |
| WmlCplex.SentPayload | Source/Cplex/ILOG/CPLEX/WmlCplex.cs:58-165 | a solve that reaches the service sends, right after starting its token, one job payload of that shape |
| WmlCplex.Hook | Source/Cplex/ILOG/CPLEX/WmlCplex.cs:54-205 | the solve the CPLEX engine calls only succeeds with a solution decoded against the names it was given and carrying no document text |
| WmlCplex.ServiceSolveReportsAnswer | Source/Cplex/ILOG/CPLEX/WmlCplex.cs:54-205 | a plain solve of a supported model through the service reports the feasibility of the job's answer as the as-written decoder gives it |
| WmlCplex.WarmStartNeverSent | Source/Cplex/ILOG/CPLEX/WmlCplex.cs:131-132 | as written, a previous result decoded from the service has no text, so no warm-start file is ever sent |
| WmlCplex.WarmStartSent | Source/Cplex/ILOG/CPLEX/WmlCplex.cs:131-132 | with the corrected decoder that keeps the text (not the one the solve flow uses), a MIP's next solve sends the previous answer's document back |
| WmlCP.DeploymentName | Source/CP/ILOG/CP/WmlCP.cs:52 | the deployment name is the CPO prefix followed by the runtime, size and node count joined by dots |
| WmlCP.DeploymentNameInjective | Source/CP/ILOG/CP/WmlCP.cs:52 | two CP engines share a deployment name only when runtime, size and node count all agree |
| WmlCP.DeploymentsApartFromCplex | Source/CP/ILOG/CP/WmlCP.cs:52 | no CP engine's deployment name is ever a CPLEX engine's |
| WmlCP.NewWmlCp | Source/CP/ILOG/CP/WmlCP.cs:48-54 | the engine is made exactly when the connector is made (with the JSON result format, all connector and token settings read) and the minutes setting parses; its connector is that connector; it has the configuration's deployment name, no pending job and no solution text |
| WmlCP.UnsetSettingsDefaults | Source/CP/ILOG/CP/WmlCP.cs:53-86 | without settings the limit is 60 minutes, which a run sets as 3,600 seconds |
| WmlCP.Answer | Source/CP/ILOG/CP/WmlCP.cs:116-126 | a finished job yields its solve status and solution text exactly when it has a solve state and both reads succeed |
| WmlCP.Guarded | Source/CP/ILOG/CP/WmlCP.cs:97-139 | the token request is followed by the payload; a failure is reported by its stack trace; a kept answer gives the status and keeps the solution text; the token is closed exactly when nothing was pending or the deletion passed |
| WmlCP.ExternalProcess | Source/CP/ILOG/CP/WmlCP.cs:75-145 | a failed token keeps its message; otherwise the solution text is cleared, a limit at its default becomes the minutes times 60 seconds, the only file sent is the model with the command as the one overridden parameter, and any later failure reports only its stack trace; a pending job is deleted before the token is closed |
| WmlCP.GetSolution | Source/CP/ILOG/CP/WmlCP.cs:158-167 | without solution text the solution is empty; otherwise it is the decoded JSON document, and unparsable text fails |
| WmlCP.End | Source/CP/ILOG/CP/WmlCP.cs:57-73 | without a pending job the token is ended; with one, it is deleted first, and a failed deletion escapes before the token is ended |
| WmlCP.Solve | Source/CP/ILOG/CP/ExternalCP.cs:188-200 | a model with clashing names fails before the service is asked; otherwise the status is reset to Error, the run uses the Solve command, and a failed run leaves the status at Error; success is reported exactly for a feasible or optimal status |
| WmlCP.RefineConflict | Source/CP/ILOG/CP/ExternalCP.cs:279-310 | the run uses the RefineConflict command; a failed run leaves the status at Error; success reports whether the decoded solution has conflicts |
| WmlCP.CommandOverrideAccepted | Source/CP/ILOG/CP/WmlCP.cs:108-113 | the command is no default parameter, so the connector accepts it as a fifth solve parameter after the four defaults |
| WmlCP.RunWithoutStatusClearsResult | Source/CP/ILOG/CP/WmlCP.cs:81-127 | a run whose job answer has no solve status leaves no result from an earlier solve: `Solve` fails with the null-reference message and the objective getter answers "No solution available" |
| WmlCP.NoSolutionOutputFails | Source/CP/ILOG/CP/WmlCP.cs:126 | a job that solved but gave no solution output leaves an empty solution without status, so `Solve` fails even though the service answered |
| WmlCP.EmptyTransfers | Source/CP/ILOG/CP/ExternalCP.cs:207-268 | the empty solution has nothing to re-key |
| WmlCP.UndeletedJobRetriedAtEnd | Source/CP/ILOG/CP/WmlCP.cs:133-137 | a run whose deletion fails reports the trace, keeps the job, and `End` first asks again for its deletion |

## Left out

- HTTP transport, the `HttpClient`, the token refresh `Timer` and `Thread.Sleep`: I/O, clocks and concurrency; service answers are parameters and the model records which calls are made.
- File-system work (`ExportModel`, `WriteParam`, `WriteFilters`, `WriteMIPStarts`, `WriteAnnotations`, temporary files and their deletion, `File.WriteAllText` of the solution): I/O; the engines take whether writing succeeded as a parameter.
- The XML reader and Newtonsoft's JSON parser: the CPLEX reader takes the node stream, the CP decoder the JSON tree, and the text-to-tree step is a parameter that may fail.
- Floating-point semantics (`Double.Parse`, culture-dependent rendering, `computeQuadExprSum` and `computeLinearExprSum`, `GetValue(INumExpr)`): doubles are opaque tokens.
- The modelling API itself (Concert enumerators, `GetAllIlo*`, parameters, MIP starts, annotations, `CplexHelper.MakeStatus`): a foreign library; its answers are parameters and statuses stay integer codes.
- `NotSupportedCPLEX.cs`, `NotSupportedCP.cs` and the other always-refused overloads: one refusal (`CplexSolver.Unsupported`) stands for all of them.
- CP `WriteConflict`: it prints renderings produced by the modelling API to a text writer.
- COS connectors, `CreateNewModel`, `DeployModel`, `DeleteModel`, `DeleteDeployment`, `CleanSpace` and the space, catalog and storage queries of `ConnectorImpl`: network glue outside the solve path.
- Relaxations: entries are kept in insertion order; the source keeps them in a `HashSet`, whose enumeration order .NET does not specify, so the order of `<relax>` lines inside a bucket is a modelling choice.
- Conflicts: groups are kept in the order their preferences first appear, which is the order .NET's `Dictionary` enumerates when nothing is removed.
- WmlHelper.DecodeBase64: decodes UTF-8 strictly and fails on malformed byte sequences, where .NET substitutes U+FFFD; texts with lone surrogates are not modelled.
- ConnectorImpl.DeleteJobCall: whether the service accepted a deletion is the parameter the engines receive; an HTTP error answer that the transport does not turn into an exception counts as a passed deletion.
- WmlCplex.AttemptPayload: the model file's id is not proved apart from the other input ids, because the export-format setting could itself be one of their suffixes (for instance `.prm`).
- CplexSolver.Process: when the transfer fails part way, the model keeps the untransferred decoded solution as the result, while the source keeps the partly transferred one; both fail the solve with the same message.
- CpSolver.Solve, CpSolver.RefineConflict: when re-keying fails on a name the model does not know, the source has already added the earlier entries to the object-keyed maps (`Solve`) or the earlier interval names to the conflict list (`RefineConflict`); the model keeps the untransferred solution, or the list without interval entries, instead. Both fail with the same message.
- CpSolution.DecodeNameList, CpSolution.Numbers: an object or array item is printed by the runtime as indented JSON text, whose layout depends on the platform's line ending; the model fails on such an item instead. For `Numbers` the printed text would fail the number parse anyway, so only the message differs.
- CplexSolver.GetStatus: states which code and flags the status is built from, not the library's mapping to its enumeration.
- CpSolver.GetIntValue, CpSolver.GetValueByName, CpSolver.GetEnd, CpSolver.GetStart, CpSolver.GetSize: `Convert.ToInt32(double)` rounds a fractional value half to even; doubles are opaque numerals here, so a value written with a fraction or an exponent fails the conversion instead of being rounded.
- ConnectorImpl.ParseBool: letters are compared after ASCII lower-casing; the runtime's ordinal case-insensitive comparison also folds a few non-ASCII letters (such as U+017F, long s, to S), which is not modelled.
- Num.ParseInt: the invariant culture is assumed: only '-' and '+' as signs and only ASCII digits.
- CpSolution.ParseNumber, Conflicts.TypeTag, JobImpl.Kpis, JobImpl.ScanSolution, HttpUtils.Base, ConnectorImpl.BuildPayload, ConnectorImpl.CutAnswer: the source's `ToLower`, `StartsWith`, `EndsWith` and `IndexOf(string)` calls compare by the current culture; the model lower-cases ASCII letters and compares characters ordinally, as under the invariant culture. A culture with its own casing or collation rules (Turkish, where "INFINITY".ToLower() has a dotless i) can answer differently.

## Findings

The solve flow of the model (`WmlCplex.Answer`, `WmlCplex.ExternalSolve`) runs both defects as written; the corrected members stand apart and are not used by it.

| source | as written | input that shows it | evidently intended | confidence | as-written member | corrected member |
|---|---|---|---|---|---|---|
| Source/Cplex/ILOG/CPLEX/Solution.cs:82-96 | the constructor from a solution document never stores the document, so `HasSolution` is always false and the warm-start `.sol` input of `WmlCplex.cs` lines 131-132 is never sent | any MIP solved twice on one engine: the second job carries no previous solution | the decoded solution keeps its document text and a MIP's next solve sends it back | high (not executed) | WmlCplex.WarmStartNeverSent | WmlCplex.WarmStartSent |
| Source/Cplex/ILOG/CPLEX/WmlCplex.cs:29-62 | the minutes setting is stored in milliseconds (times 60,000) and then multiplied by 60 again when set as the solver's time limit in seconds, in 32-bit arithmetic | the default of 60 minutes gives a limit of 216,000,000 seconds; 597 minutes give -2,145,767,296 | the minutes times 60 seconds, as the CP engine computes it from the same setting | high (not executed) | WmlCplex.DefaultHourSetAsWritten | WmlCplex.SolveLimitInSeconds |
