/** `Credentials`: the key/value store handed to a connector, and how it is
    filled from the application settings of a Cloud Pak for Data or a
    public-cloud installation. */
module Credentials {
  import opened Wrappers
  import opened WmlHelper

  datatype Credentials = Credentials(isCpd: bool, entries: map<string, string>)

  function New(isCpd: bool): Credentials {
    Credentials(isCpd, map[])
  }

  const IamUrl := "service.iam.url"
  const IamHost := "service.iam.host"
  const WmlHost := "service.wml.host"
  const WmlApiKey := "service.wml.api_key"
  const WmlSpaceId := "service.wml.space_id"
  const WmlVersion := "service.wml.version"
  const CpdUsername := "service.cpd.username"
  const CpdPassword := "service.cpd.password"
  const CpdUrl := "service.cpd.url"
  const PlatformHost := "service.platform.host"
  const CosEndpoint := "service.cos.endpoint"
  const CosBucket := "service.cos.bucket"
  const CosAccessKeyId := "service.cos.access_key_id"
  const CosSecretAccessKey := "service.cos.secret_access_key"

  const CosFields := [CosAccessKeyId, CosBucket, CosEndpoint, CosSecretAccessKey]
  const CpdFields := [CpdUsername, CpdPassword, WmlVersion, WmlSpaceId, WmlHost, CpdUrl]
  const PublicFields := [IamUrl, IamHost, WmlVersion, WmlSpaceId, WmlHost, WmlApiKey, PlatformHost]

  const DuplicateKey := "An item with the same key has already been added. Key: "
  /** How the runtime renders the dictionary and the key array in messages. */
  const DictionaryText := "System.Collections.Generic.Dictionary`2[System.String,System.String]"
  const KeysText := "System.String[]"
  const UnknownConfig := "unknown config type."

  /** `Add`: a key may be added once. */
  function Add(c: Credentials, key: string, value: string): (r: Result<Credentials>)
    ensures r.Ok? <==> key !in c.entries
    ensures r.Ok? ==> r.value.isCpd == c.isCpd && r.value.entries == c.entries[key := value]
    ensures r.Err? ==> r.msg == DuplicateKey + key
  {
    if key in c.entries then Err(DuplicateKey + key)
    else Ok(Credentials(c.isCpd, c.entries[key := value]))
  }

  /** `Get`: the value of a key, or the "Missing key" failure. */
  function Get(c: Credentials, key: string): (r: Result<string>)
    ensures r.Ok? <==> ContainsKey(c, key)
    ensures r.Ok? ==> r.value == c.entries[key]
    ensures r.Err? ==> r.msg == "Missing key" + key + " in the dictionary " + DictionaryText
  {
    if key in c.entries then Ok(c.entries[key])
    else Err("Missing key" + key + " in the dictionary " + DictionaryText)
  }

  predicate ContainsKey(c: Credentials, key: string) {
    key in c.entries
  }

  /** A value added under a fresh key is read back; every other key reads
      as before. */
  lemma GetAfterAdd(c: Credentials, key: string, value: string, other: string)
    requires !ContainsKey(c, key)
    ensures Get(Add(c, key, value).value, key) == Ok(value)
    ensures other != key ==> Get(Add(c, key, value).value, other) == Get(c, other)
  {
  }

  predicate Distinct(keys: seq<string>) {
    forall i, j :: 0 <= i < j < |keys| ==> keys[i] != keys[j]
  }

  predicate HasAll(config: Config, keys: seq<string>) {
    forall i :: 0 <= i < |keys| ==> keys[i] in config
  }

  predicate IsCpdConfig(config: Config) { HasAll(config, CpdFields) }
  predicate IsPublicConfig(config: Config) { HasAll(config, PublicFields) }
  predicate HasCosConfig(config: Config) { HasAll(config, CosFields) }

  function MissingKey(key: string): string {
    "Missing key " + key + " in config " + KeysText
  }

  /** The keys' settings added in order; a key absent from the settings
      fails, and so does a key already present. */
  function AddFields(c: Credentials, keys: seq<string>, config: Config): (r: Result<Credentials>)
    ensures r.Ok? ==> r.value.isCpd == c.isCpd
    ensures r.Ok? ==> r.value.entries.Keys == c.entries.Keys + set k | k in keys
    ensures r.Ok? ==> forall k :: k in c.entries ==> r.value.entries[k] == c.entries[k]
    ensures r.Ok? ==> forall k :: k in keys ==> k in config && r.value.entries[k] == config[k]
    ensures HasAll(config, keys) && Distinct(keys) && (forall k :: k in keys ==> k !in c.entries) ==> r.Ok?
    ensures !HasAll(config, keys) ==> r.Err?
    decreases |keys|
  {
    if |keys| == 0 then Ok(c)
    else
      var init := keys[..|keys| - 1];
      var key := keys[|keys| - 1];
      assert forall k :: k in keys <==> k in init || k == key;
      var d :- AddFields(c, init, config);
      if key in config then
        assert Distinct(keys) ==> key !in init;
        Add(d, key, config[key])
      else
        Err(MissingKey(key))
  }

  /** `GetCredentials(isCPD, keys)`. */
  function FromSettings(isCpd: bool, keys: seq<string>, config: Config): (r: Result<Credentials>)
    ensures r.Ok? ==> r.value.isCpd == isCpd && r.value.entries.Keys == set k | k in keys
    ensures r.Ok? ==> forall k :: k in keys ==> k in config && r.value.entries[k] == config[k]
    ensures HasAll(config, keys) && Distinct(keys) ==> r.Ok?
    ensures !HasAll(config, keys) ==> r.Err?
  {
    AddFields(New(isCpd), keys, config)
  }

  /** `GetCPDCredentials`: the six fields, then the platform host copied
      from the WML host setting. */
  function CpdCredentials(config: Config): (r: Result<Credentials>)
    ensures IsCpdConfig(config) ==> r.Ok?
    ensures r.Ok? ==> r.value.isCpd && r.value.entries.Keys == (set k | k in CpdFields) + {PlatformHost}
    ensures r.Ok? ==> WmlHost in config && r.value.entries[PlatformHost] == config[WmlHost]
  {
    var c :- FromSettings(true, CpdFields, config);
    // the WML host is one of the fields just read, so its setting exists
    assert WmlHost == CpdFields[4];
    Add(c, PlatformHost, config[WmlHost])
  }

  /** `GetPublicCredentials`. */
  function PublicCredentials(config: Config): (r: Result<Credentials>)
    ensures IsPublicConfig(config) ==> r.Ok?
    ensures r.Ok? ==> !r.value.isCpd && r.value.entries.Keys == set k | k in PublicFields
  {
    FromSettings(false, PublicFields, config)
  }

  /** The entries a store holds for the keys it was filled from. */
  predicate Holds(c: Credentials, keys: seq<string>, config: Config) {
    forall k :: k in keys ==> k in config && k in c.entries && c.entries[k] == config[k]
  }

  /** `GetCredentials()`: a complete public-cloud configuration wins over a
      complete Cloud Pak for Data one; with neither the call fails; the COS
      fields are added when all four are set. */
  function GetCredentials(config: Config): (r: Result<Credentials>)
    ensures r.Ok? <==> IsCpdConfig(config) || IsPublicConfig(config)
    ensures r.Err? ==> r.msg == UnknownConfig
    ensures r.Ok? ==> (r.value.isCpd <==> !IsPublicConfig(config))
    ensures r.Ok? && IsPublicConfig(config) ==> Holds(r.value, PublicFields, config)
    ensures r.Ok? && !IsPublicConfig(config) ==>
              Holds(r.value, CpdFields, config) && PlatformHost in r.value.entries && WmlHost in config
              && r.value.entries[PlatformHost] == config[WmlHost]
    ensures r.Ok? ==> (HasCosConfig(config) <==> Holds(r.value, CosFields, config))
  {
    var chosen :-
      if IsPublicConfig(config) then PublicCredentials(config)
      else if IsCpdConfig(config) then CpdCredentials(config)
      else Err(UnknownConfig);
    FieldsApart();
    if HasCosConfig(config) then
      AddFields(chosen, CosFields, config)
    else
      assert !Holds(chosen, CosFields, config) by {
        assert CosAccessKeyId !in chosen.entries;
      }
      Ok(chosen)
  }

  /** The field lists have no repeats, and the COS fields are none of the
      connection fields. */
  lemma FieldsApart()
    ensures Distinct(CosFields) && Distinct(CpdFields) && Distinct(PublicFields)
    ensures forall k :: k in CosFields ==> k !in CpdFields && k !in PublicFields && k != PlatformHost
    ensures PlatformHost !in CpdFields
  {
  }
}
