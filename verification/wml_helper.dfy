/** `WMLHelper`: the runtimes and model types of the service, their short
    names, the setting prefixes, and the Base64 helpers. */
module WmlHelper {
  import opened Wrappers
  import opened TextCodec

  /** The Decision Optimization runtimes the helper's switches cover. */
  datatype Runtime = Do12_9 | Do12_10 | Do20_1 | Do22_1

  /** The kind of engine a deployed model runs. */
  datatype Family = Cplex | Cpo | Opl | Docplex

  /** A model type pairs an engine with a runtime version. */
  datatype ModelType = ModelType(family: Family, runtime: Runtime)

  datatype TShirtSize = S | M | XL

  /** The application settings, after environment expansion. */
  type Config = map<string, string>

  /** What the runtime throws when a setting is read that is not there. */
  const NullSetting := "Value cannot be null. (Parameter 'name')"

  /** `GetSetting`: the value of a setting that must exist. */
  function GetSetting(config: Config, path: string): (r: Result<string>)
    ensures r.Ok? <==> path in config
    ensures r.Ok? ==> r.value == config[path]
    ensures r.Err? ==> r.msg == NullSetting
  {
    if path in config then Ok(config[path]) else Err(NullSetting)
  }

  /** `GetSettingOrDefault`: the setting when it exists, else the default. */
  function GetSettingOrDefault(config: Config, path: string, default: string): (r: string)
    ensures path in config ==> r == config[path]
    ensures path !in config ==> r == default
  {
    if path in config then config[path] else default
  }

  const CplexPrefix := "CPLEXWithWML."
  const CpoPrefix := "CPOWithWML."
  const OplPrefix := "OPLWithWML."
  const PythonPrefix := "PythonWithWML."

  function Version(r: Runtime): string {
    match r
    case Do12_9 => "12.9"
    case Do12_10 => "12.10"
    case Do20_1 => "20.1"
    case Do22_1 => "22.1"
  }

  function FamilyName(f: Family): string {
    match f
    case Cplex => "cplex"
    case Cpo => "cpo"
    case Opl => "opl"
    case Docplex => "docplex"
  }

  /** `GetShortName(Runtime)`: "do_" and the version. */
  function RuntimeShortName(r: Runtime): (s: string)
    ensures |s| > 3 && s[..3] == "do_" && s[3..] == Version(r)
  {
    "do_" + Version(r)
  }

  /** `GetShortName(ModelType)`: "do-", the engine, '_' and the version. */
  function ShortName(m: ModelType): (s: string)
    ensures |s| > 3 && s[..3] == "do-" && s[3..] == FamilyName(m.family) + "_" + Version(m.runtime)
    ensures s[3..] == FamilyName(m.family) + "_" + RuntimeShortName(m.runtime)[3..]
  {
    "do-" + FamilyName(m.family) + "_" + Version(m.runtime)
  }

  /** `GetCPLEXModelType`: the CPLEX model type of a runtime. */
  function CplexModelType(r: Runtime): (m: ModelType)
    ensures m.family == Cplex && m.runtime == r
    ensures ShortName(m) == "do-cplex_" + Version(r)
  {
    ModelType(Cplex, r)
  }

  /** `GetCPOModelType`: the CP Optimizer model type of a runtime. */
  function CpoModelType(r: Runtime): (m: ModelType)
    ensures m.family == Cpo && m.runtime == r
    ensures ShortName(m) == "do-cpo_" + Version(r)
  {
    ModelType(Cpo, r)
  }

  lemma VersionsDistinct(a: Runtime, b: Runtime)
    ensures Version(a) == Version(b) ==> a == b
  {
  }

  /** No two runtimes share a short name. */
  lemma RuntimeShortNameInjective(a: Runtime, b: Runtime)
    ensures RuntimeShortName(a) == RuntimeShortName(b) ==> a == b
  {
    if RuntimeShortName(a) == RuntimeShortName(b) {
      assert Version(a) == RuntimeShortName(a)[3..];
      VersionsDistinct(a, b);
    }
  }

  /** The engine of a short name can be read at positions 3 and 5. */
  lemma FamilyMarks(m: ModelType)
    ensures var s := ShortName(m);
            |s| > 5 &&
            (m.family == Cplex <==> s[3] == 'c' && s[5] == 'l') &&
            (m.family == Cpo <==> s[3] == 'c' && s[5] == 'o') &&
            (m.family == Opl <==> s[3] == 'o') &&
            (m.family == Docplex <==> s[3] == 'd')
  {
  }

  /** No two model types share a short name, so the short name identifies
      a deployment's engine and runtime. */
  lemma ShortNameInjective(a: ModelType, b: ModelType)
    ensures ShortName(a) == ShortName(b) ==> a == b
  {
    if ShortName(a) == ShortName(b) {
      FamilyMarks(a);
      FamilyMarks(b);
      assert a.family == b.family;
      var k := 3 + |FamilyName(a.family)| + 1;
      assert ShortName(a)[k..] == Version(a.runtime);
      assert ShortName(b)[k..] == Version(b.runtime);
      VersionsDistinct(a.runtime, b.runtime);
    }
  }

  /** `EncodeBase64(string)`: Base64 of the UTF-8 bytes. */
  function EncodeBase64(value: string): (r: string)
    ensures IsAscii(r)
    ensures Decode(r) == Ok(Utf8(value))
  {
    EncodedIsAscii(Utf8(value));
    Base64RoundTrip(Utf8(value));
    Encode(Utf8(value))
  }

  /** `DecodeBase64`: the UTF-8 text of the Base64 bytes; malformed Base64
      fails with the runtime's message. */
  function DecodeBase64(value: string): (r: Result<string>)
    ensures Decode(value).Err? ==> r == Err(BadBase64)
    ensures r.Ok? ==> Decode(value).Ok? && Utf8(r.value) == Decode(value).value
  {
    var bytes :- Decode(value);
    var text :- Utf8Decode(bytes);
    DecodedTextEncodes(bytes, text);
    Ok(text)
  }

  /** Strict decoding only accepts the encoding of what it returns. */
  lemma {:induction false} DecodedTextEncodes(bs: seq<Byte>, s: string)
    requires Utf8Decode(bs) == Ok(s)
    ensures Utf8(s) == bs
    decreases |bs|
  {
    if |bs| > 0 {
      var first := DecodeFirst(bs);
      var c := first.value.0;
      var k := first.value.1;
      var rest := Utf8Decode(bs[k..]).value;
      assert s == [c] + rest;
      DecodedTextEncodes(bs[k..], rest);
      DecodedFirstEncodes(bs);
      assert s[0] == c && s[1..] == rest;
      assert bs == bs[..k] + bs[k..];
    }
  }

  lemma EncodesTwo(b0: Byte, b1: Byte)
    requires 0xC0 <= b0 < 0xE0 && IsCont(b1)
    requires IsScalar((b0 - 0xC0) * 64 + (b1 - 0x80)) && (b0 - 0xC0) * 64 + (b1 - 0x80) >= 0x80
    ensures EncodeChar(((b0 - 0xC0) * 64 + (b1 - 0x80)) as char) == [b0, b1]
  {
  }

  lemma EncodesThree(b0: Byte, b1: Byte, b2: Byte)
    requires 0xE0 <= b0 < 0xF0 && IsCont(b1) && IsCont(b2)
    requires var n := (b0 - 0xE0) * 4096 + (b1 - 0x80) * 64 + (b2 - 0x80); IsScalar(n) && n >= 0x800
    ensures EncodeChar(((b0 - 0xE0) * 4096 + (b1 - 0x80) * 64 + (b2 - 0x80)) as char) == [b0, b1, b2]
  {
  }

  lemma DivMod(q: int, r: int, d: int)
    requires d == 64 || d == 4096 || d == 262144
    requires 0 <= r < d
    ensures (q * d + r) / d == q && (q * d + r) % d == r
  {
    if d == 64 {
      assert (q * 64 + r) / 64 == q;
    } else if d == 4096 {
      assert (q * 4096 + r) / 4096 == q;
    } else {
      assert (q * 262144 + r) / 262144 == q;
    }
  }

  lemma EncodesFour(b0: Byte, b1: Byte, b2: Byte, b3: Byte)
    requires 0xF0 <= b0 < 0xF8 && IsCont(b1) && IsCont(b2) && IsCont(b3)
    requires var n := (b0 - 0xF0) * 262144 + (b1 - 0x80) * 4096 + (b2 - 0x80) * 64 + (b3 - 0x80);
             IsScalar(n) && n >= 0x1_0000
    ensures EncodeChar(((b0 - 0xF0) * 262144 + (b1 - 0x80) * 4096 + (b2 - 0x80) * 64 + (b3 - 0x80)) as char)
            == [b0, b1, b2, b3]
  {
    var hi, x1, x2, x3 := b0 - 0xF0, b1 - 0x80, b2 - 0x80, b3 - 0x80;
    var n := hi * 262144 + x1 * 4096 + x2 * 64 + x3;
    var n64 := hi * 4096 + x1 * 64 + x2;
    var n4096 := hi * 64 + x1;
    assert n == n64 * 64 + x3;
    DivMod(n64, x3, 64);
    assert n64 == n4096 * 64 + x2;
    DivMod(n4096, x2, 64);
    DivMod(hi, x1, 64);
    assert n / 4096 == n4096 by {
      assert n == n4096 * 4096 + (x2 * 64 + x3);
      DivMod(n4096, x2 * 64 + x3, 4096);
    }
    assert n / 262144 == hi by {
      assert n == hi * 262144 + (x1 * 4096 + x2 * 64 + x3);
      DivMod(hi, x1 * 4096 + x2 * 64 + x3, 262144);
    }
  }

  lemma DecodedFirstEncodes(bs: seq<Byte>)
    requires |bs| > 0 && DecodeFirst(bs).Some?
    ensures EncodeChar(DecodeFirst(bs).value.0) == bs[..DecodeFirst(bs).value.1]
  {
    var b0 := bs[0] as int;
    if b0 < 0x80 {
    } else if 0xC0 <= b0 < 0xE0 && |bs| >= 2 && IsCont(bs[1]) {
      EncodesTwo(bs[0], bs[1]);
      assert bs[..2] == [bs[0], bs[1]];
    } else if 0xE0 <= b0 < 0xF0 && |bs| >= 3 && IsCont(bs[1]) && IsCont(bs[2]) {
      EncodesThree(bs[0], bs[1], bs[2]);
      assert bs[..3] == [bs[0], bs[1], bs[2]];
    } else {
      EncodesFour(bs[0], bs[1], bs[2], bs[3]);
      assert bs[..4] == [bs[0], bs[1], bs[2], bs[3]];
    }
  }

  /** Decoding undoes `EncodeBase64` for every text. */
  lemma Base64TextRoundTrip(value: string)
    ensures DecodeBase64(EncodeBase64(value)) == Ok(value)
  {
    Utf8RoundTrip(value);
  }
}
