/** The `Station` record of src/api.rs and its null-defaulting decode.

    A JSON object is given already tokenised: a map from key to value, where a
    value is `null`, a string, or anything else (number, boolean, array,
    object). Each of the nine string fields of a station is decoded on its
    own: an absent key or `null` becomes "", a string is kept, and any other
    value makes the whole record fail. Keys that are not fields are ignored. */
module StationRecord {
  import opened Wrappers

  /** A tokenised JSON value, as far as a string field cares. */
  datatype JsonValue = JNull | JString(s: string) | JOther

  type JsonObject = map<string, JsonValue>

  datatype Station = Station(
    stationUuid: string,
    name: string,
    url: string,
    urlResolved: string,
    homepage: string,
    favicon: string,
    tags: string,
    country: string,
    language: string)

  /** The JSON keys of the nine fields, in declaration order. */
  const FieldNames: seq<string> :=
    ["stationuuid", "name", "url", "url_resolved", "homepage",
     "favicon", "tags", "country", "language"]

  /** The nine fields of a station, in the order of FieldNames. */
  function Fields(st: Station): (fs: seq<string>)
    ensures |fs| == |FieldNames|
  {
    [st.stationUuid, st.name, st.url, st.urlResolved, st.homepage,
     st.favicon, st.tags, st.country, st.language]
  }

  /** The station whose fields are `fs`, in the order of FieldNames. */
  function FromFields(fs: seq<string>): (st: Station)
    requires |fs| == |FieldNames|
    ensures Fields(st) == fs
  {
    Station(fs[0], fs[1], fs[2], fs[3], fs[4], fs[5], fs[6], fs[7], fs[8])
  }

  /** `st` with field number `i` replaced by `v`. */
  function WithField(st: Station, i: nat, v: string): Station
    requires i < |FieldNames|
  {
    FromFields(Fields(st)[i := v])
  }

  /** `deserialize_null_default` for `T = String`: a present value is read
      as `Option<String>`, so `null` gives the default "", a string is kept,
      and any other value is a type error (None). */
  function DeserializeNullDefault(v: JsonValue): Option<string> {
    match v
    case JNull => Some("")
    case JString(s) => Some(s)
    case JOther => None
  }

  /** One field under `#[serde(default, deserialize_with = ...)]`: an absent
      key takes `String::default()`, a present one goes through
      DeserializeNullDefault. */
  function DecodeField(obj: JsonObject, key: string): Option<string> {
    if key in obj then DeserializeNullDefault(obj[key]) else Some("")
  }

  /** The derived `Deserialize` of `Station` on one JSON object. The record
      decodes exactly when each of its nine fields does, and each field of the
      result is what that field's own key decodes to. */
  function DecodeStation(obj: JsonObject): (r: Option<Station>)
    ensures r.Some? <==> forall i :: 0 <= i < |FieldNames| ==> DecodeField(obj, FieldNames[i]).Some?
    ensures r.Some? ==> forall i :: 0 <= i < |FieldNames| ==> Fields(r.value)[i] == DecodeField(obj, FieldNames[i]).value
  {
    assert FieldNames[0] == "stationuuid" && FieldNames[1] == "name" && FieldNames[2] == "url"
      && FieldNames[3] == "url_resolved" && FieldNames[4] == "homepage" && FieldNames[5] == "favicon"
      && FieldNames[6] == "tags" && FieldNames[7] == "country" && FieldNames[8] == "language";
    var stationUuid :- DecodeField(obj, "stationuuid");
    var name :- DecodeField(obj, "name");
    var url :- DecodeField(obj, "url");
    var urlResolved :- DecodeField(obj, "url_resolved");
    var homepage :- DecodeField(obj, "homepage");
    var favicon :- DecodeField(obj, "favicon");
    var tags :- DecodeField(obj, "tags");
    var country :- DecodeField(obj, "country");
    var language :- DecodeField(obj, "language");
    Some(Station(stationUuid, name, url, urlResolved, homepage, favicon, tags, country, language))
  }

  /** `Vec<Station>` from a JSON array of objects: every element must decode,
      and the list keeps their order. */
  function DecodeStations(objs: seq<JsonObject>): (r: Option<seq<Station>>)
    ensures r.Some? <==> forall n :: 0 <= n < |objs| ==> DecodeStation(objs[n]).Some?
    ensures r.Some? ==> |r.value| == |objs|
    ensures r.Some? ==> forall n :: 0 <= n < |objs| ==> DecodeStation(objs[n]) == Some(r.value[n])
  {
    if objs == [] then Some([])
    else
      var first :- DecodeStation(objs[0]);
      var rest :- DecodeStations(objs[1..]);
      Some([first] + rest)
  }

  /** The derived `Serialize` of `Station`: every field as a JSON string
      under its own key. */
  function EncodeStation(st: Station): JsonObject {
    map["stationuuid" := JString(st.stationUuid), "name" := JString(st.name),
        "url" := JString(st.url), "url_resolved" := JString(st.urlResolved),
        "homepage" := JString(st.homepage), "favicon" := JString(st.favicon),
        "tags" := JString(st.tags), "country" := JString(st.country),
        "language" := JString(st.language)]
  }

  lemma FieldNamesDistinct()
    ensures forall i, j :: 0 <= i < j < |FieldNames| ==> FieldNames[i] != FieldNames[j]
  {
  }

  /** The per-value rule: null becomes "", a string is kept, anything else
      fails. */
  lemma NullDefaultRule(v: JsonValue)
    ensures DeserializeNullDefault(v).None? <==> v.JOther?
    ensures v.JNull? ==> DeserializeNullDefault(v) == Some("")
    ensures v.JString? ==> DeserializeNullDefault(v) == Some(v.s)
  {
  }

  /** An absent or null field decodes to "", a string field to that string,
      and either way the rest of the record is untouched. */
  lemma FieldDefaulting(obj: JsonObject, i: nat)
    requires i < |FieldNames|
    requires DecodeStation(obj).Some?
    ensures FieldNames[i] !in obj || obj[FieldNames[i]] == JNull ==> Fields(DecodeStation(obj).value)[i] == ""
    ensures FieldNames[i] in obj && obj[FieldNames[i]].JString? ==> Fields(DecodeStation(obj).value)[i] == obj[FieldNames[i]].s
  {
  }

  /** A single field of any type other than string or null fails the whole
      record, whatever the other fields hold. */
  lemma WrongTypeFailsRecord(obj: JsonObject, i: nat)
    requires i < |FieldNames|
    requires FieldNames[i] in obj && obj[FieldNames[i]] == JOther
    ensures DecodeStation(obj) == None
  {
  }

  /** A record decodes unless one of its nine keys holds a value that is
      neither null nor a string. */
  lemma DecodeSucceedsIff(obj: JsonObject)
    ensures DecodeStation(obj).Some? <==>
      forall i :: 0 <= i < |FieldNames| && FieldNames[i] in obj ==> obj[FieldNames[i]] != JOther
  {
  }

  /** Keys other than the nine fields are ignored. */
  lemma UnknownKeyIgnored(obj: JsonObject, key: string, v: JsonValue)
    requires key !in FieldNames
    ensures DecodeStation(obj[key := v]) == DecodeStation(obj)
  {
  }

  /** Two objects whose nine fields decode alike decode to the same record
      (or both fail). */
  lemma FieldsDetermineRecord(a: JsonObject, b: JsonObject)
    requires forall i :: 0 <= i < |FieldNames| ==> DecodeField(a, FieldNames[i]) == DecodeField(b, FieldNames[i])
    ensures DecodeStation(a) == DecodeStation(b)
  {
    if DecodeStation(a).Some? {
      FieldsInjective(DecodeStation(a).value, DecodeStation(b).value);
    }
  }

  lemma FieldsInjective(x: Station, y: Station)
    requires Fields(x) == Fields(y)
    ensures x == y
  {
  }

  /** Setting one field to null (or removing its key) in a decodable object
      empties that field only; setting it to a string puts exactly that string
      there. Fields are defaulted independently. */
  lemma OneFieldIndependent(obj: JsonObject, i: nat, v: JsonValue)
    requires i < |FieldNames|
    requires DecodeStation(obj).Some?
    requires v != JOther
    ensures DecodeStation(obj[FieldNames[i] := v])
         == Some(WithField(DecodeStation(obj).value, i, DeserializeNullDefault(v).value))
    ensures DecodeStation(obj - {FieldNames[i]})
         == Some(WithField(DecodeStation(obj).value, i, ""))
  {
    FieldNamesDistinct();
    var st := DecodeStation(obj).value;
    var set' := obj[FieldNames[i] := v];
    var removed := obj - {FieldNames[i]};
    var fs1 := Fields(st)[i := DeserializeNullDefault(v).value];
    var fs2 := Fields(st)[i := ""];
    forall j | 0 <= j < |FieldNames|
      ensures DecodeField(set', FieldNames[j]).Some? && DecodeField(set', FieldNames[j]).value == fs1[j]
      ensures DecodeField(removed, FieldNames[j]).Some? && DecodeField(removed, FieldNames[j]).value == fs2[j]
    {
      if j != i {
        assert FieldNames[j] != FieldNames[i];
        assert DecodeField(set', FieldNames[j]) == DecodeField(obj, FieldNames[j]);
        assert DecodeField(removed, FieldNames[j]) == DecodeField(obj, FieldNames[j]);
      }
    }
    FieldsInjective(DecodeStation(set').value, FromFields(fs1));
    FieldsInjective(DecodeStation(removed).value, FromFields(fs2));
  }

  /** Decoding what `Serialize` writes gives the station back. */
  lemma EncodeDecode(st: Station)
    ensures DecodeStation(EncodeStation(st)) == Some(st)
  {
  }
}
