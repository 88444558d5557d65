/** `HttpUtils`: how the bridge talks to the service — the target URL of a
    call, the headers and query parameters, the logged curl line, and the
    bearer token it obtains and keeps.  The network itself is outside the
    model: a call's answer is a parameter. */
module HttpUtils {
  import opened Wrappers
  import opened Strs
  import opened Json
  import opened TextCodec
  import opened WmlHelper
  import Cr = Credentials

  const Authorization := "Authorization"
  const Bearer := "bearer"
  const ApplicationJson := "application/json"
  const ContentType := "Content-Type"
  const Accept := "Accept"
  const AccessTokenKey := "access_token"
  const AccessTokenAltKey := "accessToken"
  const CacheControl := "cache-control"
  const NoCache := "no-cache"
  const VersionParam := "version"
  const SpaceIdParam := "space_id"
  const Https := "https://"

  const MlV4 := "/ml/v4"
  const DeploymentJobs := "/ml/v4/deployment_jobs"
  const Deployments := "/ml/v4/deployments"

  /** What the runtime throws when text to parse or decode is null. */
  const ArgumentNull := "Value cannot be null. (Parameter 's')"
  const MissingToken := "Missing token in authentication call"

  /** Header and query dictionaries, in insertion order. */
  type Pairs = seq<(string, string)>

  datatype Method = Get | Put | Post | Delete

  function MethodName(m: Method): string {
    match m
    case Get => "GET"
    case Put => "PUT"
    case Post => "POST"
    case Delete => "DELETE"
  }

  /** The text of a successful answer and the JSON tree the parser makes of
      it (None when the text is not JSON). */
  datatype Body = Body(text: string, parsed: Option<Json>)

  /** `ParseJson`: a null answer throws; text that is not a JSON object is
      logged and read as an empty object. */
  function ParseJson(answer: Option<Body>): (r: Result<JObject>)
    ensures r.Err? <==> answer.None?
    ensures r.Err? ==> r.msg == ArgumentNull
    ensures answer.Some? && answer.value.parsed.Some? && answer.value.parsed.value.JObj? ==>
              r == Ok(answer.value.parsed.value.fields)
    ensures answer.Some? && !(answer.value.parsed.Some? && answer.value.parsed.value.JObj?) ==>
              r == Ok(map[])
  {
    match answer
    case None => Err(ArgumentNull)
    case Some(Body(_, Some(JObj(m)))) => Ok(m)
    case Some(_) => Ok(map[])
  }

  /** `GetAuth`: a null token prints as nothing. */
  function GetAuth(token: Option<string>): (r: string)
    ensures StartsWith(r, Bearer + " ") && r[|Bearer| + 1..] == token.GetOr("")
  {
    assert (Bearer + " " + token.GetOr(""))[..|Bearer| + 1] == Bearer + " ";
    Bearer + " " + token.GetOr("")
  }

  /** `GetPlatformParams`. */
  function PlatformParams(creds: Cr.Credentials): (r: Result<Pairs>)
    ensures r.Ok? <==> Cr.ContainsKey(creds, Cr.WmlVersion)
    ensures r.Ok? ==> r.value == [(VersionParam, creds.entries[Cr.WmlVersion])]
  {
    var v :- Cr.Get(creds, Cr.WmlVersion);
    Ok([(VersionParam, v)])
  }

  /** `GetWMLParams`: the version, then the deployment space. */
  function WmlParams(creds: Cr.Credentials): (r: Result<Pairs>)
    ensures r.Ok? <==> Cr.ContainsKey(creds, Cr.WmlVersion) && Cr.ContainsKey(creds, Cr.WmlSpaceId)
    ensures r.Ok? ==> r.value == [(VersionParam, creds.entries[Cr.WmlVersion]),
                                  (SpaceIdParam, creds.entries[Cr.WmlSpaceId])]
  {
    var p :- PlatformParams(creds);
    var s :- Cr.Get(creds, Cr.WmlSpaceId);
    Ok(p + [(SpaceIdParam, s)])
  }

  /** `GetWMLHeaders`: the authorization, then no caching. */
  function WmlHeaders(token: Option<string>): (r: Pairs)
    ensures |r| == 2 && r[0] == (Authorization, GetAuth(token)) && r[1] == (CacheControl, NoCache)
  {
    [(Authorization, GetAuth(token))] + [(CacheControl, NoCache)]
  }

  function Assignment(p: (string, string)): string {
    p.0 + "=" + p.1
  }

  /** The loop of `BuildTargetUrl`: "&key=value" for each parameter. */
  function Appended(ps: Pairs): (r: string)
    decreases |ps|
  {
    if |ps| == 0 then "" else Appended(ps[..|ps| - 1]) + "&" + Assignment(ps[|ps| - 1])
  }

  function Assignments(ps: Pairs): (r: seq<string>)
    ensures |r| == |ps| && forall i :: 0 <= i < |ps| ==> r[i] == Assignment(ps[i])
  {
    seq(|ps|, i requires 0 <= i < |ps| => Assignment(ps[i]))
  }

  /** The host with "https://" in front unless it is already there, then
      the path. */
  function Base(host: string, path: string): (r: string)
    ensures StartsWith(r, Https) && EndsWith(r, path)
  {
    var h := if StartsWith(host, Https) then host else Https + host;
    assert (h + path)[..|Https|] == h[..|Https|];
    assert (h + path)[|h + path| - |path|..] == path;
    h + path
  }

  /** `BuildTargetUrl`: without parameters the base alone; otherwise
      '?', every "&key=value", and then each "?&" replaced by '?'.  Nothing
      is escaped. */
  function BuildTargetUrl(host: string, path: string, params: Option<Pairs>): (r: string)
    ensures (params.None? || |params.value| == 0) ==> r == Base(host, path)
  {
    match params
    case None => Base(host, path)
    case Some(ps) =>
      if |ps| == 0 then Base(host, path)
      else Replace(Base(host, path) + "?" + Appended(ps), "?&", "?")
  }

  predicate PlainPairs(ps: Pairs) {
    forall i :: 0 <= i < |ps| ==> Free(ps[i].0, '?') && Free(ps[i].1, '?')
  }

  lemma {:induction false} AppendedIsJoin(ps: Pairs)
    requires |ps| > 0
    ensures Appended(ps) == "&" + Join("&", Assignments(ps))
    decreases |ps|
  {
    var init := ps[..|ps| - 1];
    assert Assignments(ps)[..|ps| - 1] == Assignments(init);
    if |ps| == 1 {
      assert Appended(init) == "";
    } else {
      AppendedIsJoin(init);
    }
  }

  lemma {:induction false} JoinFree(parts: seq<string>, sep: string, c: char)
    requires Free(sep, c) && forall i :: 0 <= i < |parts| ==> Free(parts[i], c)
    ensures Free(Join(sep, parts), c)
    decreases |parts|
  {
    if |parts| > 1 {
      var init := parts[..|parts| - 1];
      JoinFree(init, sep, c);
      FreeConcat(Join(sep, init), sep, c);
      FreeConcat(Join(sep, init) + sep, parts[|parts| - 1], c);
    }
  }

  lemma AssignmentsFree(ps: Pairs)
    requires PlainPairs(ps)
    ensures forall i :: 0 <= i < |ps| ==> Free(Assignments(ps)[i], '?')
  {
    forall i | 0 <= i < |ps| ensures Free(Assignments(ps)[i], '?') {
      FreeConcat(ps[i].0, "=", '?');
      FreeConcat(ps[i].0 + "=", ps[i].1, '?');
    }
  }

  /** Replacing "?&" by "?" in base + "?&" + query leaves base + "?" + query
      when neither part holds a '?'. */
  lemma LeadingSeparator(b: string, j: string)
    requires Free(b, '?') && Free(j, '?')
    ensures Replace(b + ("?&" + j), "?&", "?") == b + "?" + j
  {
    ReplaceSkips(b, "?&" + j, "?&", "?");
    ReplaceHit(j, "?&", "?");
    ReplaceFree(j, "?&", "?");
    assert b + ("?" + j) == b + "?" + j;
  }

  lemma QueryFree(ps: Pairs)
    requires PlainPairs(ps)
    ensures Free(Join("&", Assignments(ps)), '?')
  {
    AssignmentsFree(ps);
    JoinFree(Assignments(ps), "&", '?');
  }

  /** With no '?' in the base, the keys or the values, the URL is the base,
      '?', and the "key=value" assignments joined by '&'. */
  lemma {:induction false} TargetUrlQuery(host: string, path: string, ps: Pairs)
    requires |ps| > 0 && Free(Base(host, path), '?') && PlainPairs(ps)
    ensures BuildTargetUrl(host, path, Some(ps)) == Base(host, path) + "?" + Join("&", Assignments(ps))
  {
    var b := Base(host, path);
    var j := Join("&", Assignments(ps));
    AppendedIsJoin(ps);
    assert b + "?" + Appended(ps) == b + ("?&" + j);
    QueryFree(ps);
    LeadingSeparator(b, j);
  }

  lemma AppendedTwo(p: (string, string), q: (string, string))
    ensures Appended([p, q]) == "&" + Assignment(p) + "&" + Assignment(q)
  {
    assert [p, q][..1] == [p];
    assert [p][..0] == [];
    assert Appended([p]) == "" + "&" + Assignment(p);
    assert "" + "&" + Assignment(p) == "&" + Assignment(p);
  }

  lemma SwallowedText(b: string, mid: string, tail: string)
    requires Free(b, '?') && Free(mid, '?') && Free(tail, '?')
    ensures Replace(b + ("?&" + (mid + ("?&" + tail))), "?&", "?") == b + ("?" + (mid + ("?" + tail)))
  {
    var rest := mid + ("?&" + tail);
    ReplaceSkips(b, "?&" + rest, "?&", "?");
    ReplaceHit(rest, "?&", "?");
    ReplaceSkips(mid, "?&" + tail, "?&", "?");
    ReplaceHit(tail, "?&", "?");
    ReplaceFree(tail, "?&", "?");
  }

  /** Parameters are not escaped: a value that ends in '?' swallows the
      '&' in front of the next parameter. */
  lemma QuestionMarkSwallowsSeparator(host: string, path: string, k1: string, v1: string, k2: string, v2: string)
    requires Free(Base(host, path), '?')
    requires Free(k1, '?') && Free(v1, '?') && Free(k2, '?') && Free(v2, '?')
    ensures BuildTargetUrl(host, path, Some([(k1, v1 + "?"), (k2, v2)])) ==
            Base(host, path) + ("?" + ((k1 + "=" + v1) + ("?" + (k2 + "=" + v2))))
  {
    var b := Base(host, path);
    var mid := k1 + "=" + v1;
    var tail := k2 + "=" + v2;
    var ps := [(k1, v1 + "?"), (k2, v2)];
    AppendedTwo(ps[0], ps[1]);
    assert Assignment(ps[0]) == mid + "?";
    FreeConcat(k1, "=", '?');
    FreeConcat(k1 + "=", v1, '?');
    FreeConcat(k2, "=", '?');
    FreeConcat(k2 + "=", v2, '?');
    assert b + "?" + Appended(ps) == b + ("?&" + (mid + ("?&" + tail)));
    SwallowedText(b, mid, tail);
  }

  /** One `--header` option of the logged curl line; the authorization
      value is masked. */
  function CurlHeader(h: (string, string)): string {
    if h.0 != Authorization then " --header \"" + h.0 + ": " + h.1 + "\""
    else " --header \"" + h.0 + ": " + Bearer + " ####\""
  }

  function CurlHeaders(headers: Pairs): string
    decreases |headers|
  {
    if |headers| == 0 then "" else CurlHeaders(headers[..|headers| - 1]) + CurlHeader(headers[|headers| - 1])
  }

  /** The curl line `DoCall` logs. */
  function Curl(m: Method, target: string, headers: Pairs): (r: string)
    ensures StartsWith(r, "curl --request " + MethodName(m) + " \"" + target + "\"")
  {
    "curl --request " + MethodName(m) + " \"" + target + "\"" + CurlHeaders(headers)
  }

  /** Two header lists that differ at most in their authorization values. */
  predicate SameButAuthorization(a: Pairs, b: Pairs) {
    |a| == |b| &&
    forall i :: 0 <= i < |a| ==> a[i].0 == b[i].0 && (a[i].0 != Authorization ==> a[i].1 == b[i].1)
  }

  /** The logged line never depends on the authorization value, so no
      token or password reaches the log. */
  lemma {:induction false} CurlMasksAuthorization(m: Method, target: string, a: Pairs, b: Pairs)
    requires SameButAuthorization(a, b)
    ensures Curl(m, target, a) == Curl(m, target, b)
  {
    CurlHeadersMask(a, b);
  }

  lemma {:induction false} CurlHeadersMask(a: Pairs, b: Pairs)
    requires SameButAuthorization(a, b)
    ensures CurlHeaders(a) == CurlHeaders(b)
    decreases |a|
  {
    if |a| > 0 {
      var n := |a| - 1;
      assert SameButAuthorization(a[..n], b[..n]) by {
        forall i | 0 <= i < n ensures a[..n][i] == a[i] && b[..n][i] == b[i] { }
      }
      CurlHeadersMask(a[..n], b[..n]);
      assert CurlHeader(a[n]) == CurlHeader(b[n]);
    }
  }

  /** A request as `DoCall` sends it; a null body is sent empty. */
  datatype Call = Call(verb: Method, target: string, headers: Pairs, body: seq<Byte>)

  function Prepare(m: Method, host: string, path: string, params: Option<Pairs>, headers: Pairs,
                   body: Option<seq<Byte>>): (c: Call)
    ensures c.target == BuildTargetUrl(host, path, params)
    ensures c.verb == m && c.headers == headers
    ensures body.None? ==> c.body == []
    ensures body.Some? ==> c.body == body.value
  {
    Call(m, BuildTargetUrl(host, path, params), headers, body.GetOr([]))
  }

  /** `GetFileContentAsEncoded64`: the Base64 text of a file's bytes, as
      UTF-8 bytes — one byte per character. */
  function EncodedFile(content: seq<Byte>): (r: seq<Byte>)
    ensures |r| == 4 * ((|content| + 2) / 3)
    ensures forall i :: 0 <= i < |r| ==> r[i] == Encode(content)[i] as int
    ensures Utf8Decode(r) == Ok(Encode(content))
  {
    EncodedIsAscii(content);
    Utf8Ascii(Encode(content));
    Utf8RoundTrip(Encode(content));
    Utf8(Encode(content))
  }

  // ---------------------------------------------------------------------
  // The bearer token

  /** The token, the refresh timers started and still running, and whether
      the `timer` field refers to one of them. */
  datatype TokenState = TokenState(token: Option<string>, running: nat, held: bool)

  const NoToken := TokenState(None, 0, false)

  const GrantType := "urn:ibm:params:oauth:grant-type:apikey"

  /** The "Basic" authorization of a Cloud Pak for Data login. */
  function BasicAuth(user: string, password: string): (r: string)
    ensures StartsWith(r, "Basic ")
    ensures DecodeBase64(r[6..]) == Ok(user + ":" + password)
  {
    var r := "Basic " + EncodeBase64(user + ":" + password);
    assert r[..6] == "Basic ";
    assert r[6..] == EncodeBase64(user + ":" + password);
    Base64TextRoundTrip(user + ":" + password);
    r
  }

  /** The login request of `LookupIcpToken` (Cloud Pak for Data, GET with
      Basic authorization) or of `LookupBearerToken` (public cloud, POST of
      the API key); the settings are read in the order the code reads
      them. */
  function TokenCall(creds: Cr.Credentials): (r: Result<Call>)
    ensures creds.isCpd ==>
              (r.Ok? <==> Cr.ContainsKey(creds, Cr.CpdUsername) && Cr.ContainsKey(creds, Cr.CpdPassword)
                          && Cr.ContainsKey(creds, Cr.WmlHost) && Cr.ContainsKey(creds, Cr.CpdUrl))
    ensures !creds.isCpd ==>
              (r.Ok? <==> Cr.ContainsKey(creds, Cr.WmlApiKey) && Cr.ContainsKey(creds, Cr.IamHost)
                          && Cr.ContainsKey(creds, Cr.IamUrl))
    ensures r.Ok? && creds.isCpd ==>
              r.value.verb == Get && |r.value.headers| == 2 && r.value.headers[1].0 == Authorization
              && |r.value.headers[1].1| >= 6
              && DecodeBase64(r.value.headers[1].1[6..]) ==
                   Ok(creds.entries[Cr.CpdUsername] + ":" + creds.entries[Cr.CpdPassword])
    ensures r.Ok? && !creds.isCpd ==>
              r.value.verb == Post && r.value.body == []
              && r.value.target == BuildTargetUrl(creds.entries[Cr.IamHost], creds.entries[Cr.IamUrl],
                                                  Some([("grant_type", GrantType), ("apikey", creds.entries[Cr.WmlApiKey])]))
  {
    if creds.isCpd then
      var user :- Cr.Get(creds, Cr.CpdUsername);
      var password :- Cr.Get(creds, Cr.CpdPassword);
      var headers := [(Accept, ApplicationJson), (Authorization, BasicAuth(user, password))];
      var host :- Cr.Get(creds, Cr.WmlHost);
      var url :- Cr.Get(creds, Cr.CpdUrl);
      Ok(Prepare(Get, host, url, Some([]), headers, None))
    else
      var headers := [(Accept, ApplicationJson), (ContentType, "application/x-www-form-urlencoded")];
      var key :- Cr.Get(creds, Cr.WmlApiKey);
      var params := [("grant_type", GrantType), ("apikey", key)];
      var host :- Cr.Get(creds, Cr.IamHost);
      var url :- Cr.Get(creds, Cr.IamUrl);
      Ok(Prepare(Post, host, url, Some(params), headers, None))
  }

  /** `ExtractToken`: "access_token", else "accessToken"; a JSON null
      reads as a null token. */
  function ExtractToken(answer: Option<Body>): (r: Result<Option<string>>)
    ensures answer.None? ==> r == Err(ArgumentNull)
    ensures answer.Some? && ParseJson(answer).Ok? ==>
              var j := ParseJson(answer).value;
              (AccessTokenKey !in j && AccessTokenAltKey !in j ==> r == Err(MissingToken))
              && (AccessTokenKey in j ==> r == AsString(j[AccessTokenKey]))
              && (AccessTokenKey !in j && AccessTokenAltKey in j ==> r == AsString(j[AccessTokenAltKey]))
  {
    var json :- ParseJson(answer);
    if AccessTokenKey in json then AsString(json[AccessTokenKey])
    else if AccessTokenAltKey in json then AsString(json[AccessTokenAltKey])
    else Err(MissingToken)
  }

  /** `LookupToken`: the login request must be buildable before its answer
      is read. */
  function LookupToken(creds: Cr.Credentials, answer: Option<Body>): (r: Result<Option<string>>)
    ensures TokenCall(creds).Err? ==> r == Err(TokenCall(creds).msg)
    ensures TokenCall(creds).Ok? ==> r == ExtractToken(answer)
  {
    var _ :- TokenCall(creds);
    ExtractToken(answer)
  }

  /** `InitToken`: nothing happens once a token is held; otherwise the token
      is looked up and a refresh timer started. */
  function InitToken(st: TokenState, creds: Cr.Credentials, answer: Option<Body>): (r: Result<TokenState>)
    ensures st.token.Some? ==> r == Ok(st)
    ensures st.token.None? && r.Ok? ==>
              LookupToken(creds, answer).Ok? && r.value.token == LookupToken(creds, answer).value
              && r.value.running == st.running + 1 && r.value.held
    ensures st.token.None? ==> (r.Err? <==> LookupToken(creds, answer).Err?)
  {
    if st.token.Some? then Ok(st)
    else
      var token :- LookupToken(creds, answer);
      Ok(TokenState(token, st.running + 1, true))
  }

  /** `Close`: disposes the timer the field refers to. */
  function Close(st: TokenState): (r: TokenState)
    ensures r.token == st.token && !r.held
    ensures r.running == if st.held && st.running > 0 then st.running - 1 else st.running
  {
    TokenState(st.token, if st.held && st.running > 0 then st.running - 1 else st.running, false)
  }

  /** Once a token is obtained, later initialisations change nothing. */
  lemma InitTokenIdempotent(st: TokenState, creds: Cr.Credentials, a: Option<Body>, b: Option<Body>)
    requires InitToken(st, creds, a).Ok? && InitToken(st, creds, a).value.token.Some?
    ensures InitToken(InitToken(st, creds, a).value, creds, b) == InitToken(st, creds, a)
  {
  }

  /** A login answer with a null token leaves no token, so each further
      initialisation starts one more timer, and closing stops only the
      last of them. */
  lemma NullTokenLeaksTimers(creds: Cr.Credentials, answer: Option<Body>)
    requires LookupToken(creds, answer) == Ok(None)
    ensures var once := InitToken(NoToken, creds, answer).value;
            var twice := InitToken(once, creds, answer).value;
            twice.running == 2 && Close(twice).running == 1
  {
  }
}
