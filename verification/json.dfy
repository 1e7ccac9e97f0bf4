/**
  JSON-like values: what `to_dict` produces and `from_dict` consumes, and what
  `json.dumps`/`json.loads` carry in and out of the knowledge graph. Python's
  `None` is `JNull`; a dict is a finite map from string keys, so insertion
  order never matters. Equal values here are equal under Python's `==`, but not
  conversely: Python also equates `1` with `True`, which stay apart here.
 */
module JsonValues {
  import opened Results

  datatype Json =
    | JNull
    | JBool(b: bool)
    | JNum(n: int)
    | JStr(s: string)
    | JArr(items: seq<Json>)
    | JObj(fields: map<string, Json>)

  /** Python truthiness: None, False, 0, "", [] and {} are false, everything else is true. */
  predicate Truthy(j: Json) {
    match j
    case JNull => false
    case JBool(b) => b
    case JNum(n) => n != 0
    case JStr(s) => s != ""
    case JArr(items) => items != []
    case JObj(fields) => fields != map[]
  }

  /** `d.get(key)`: the value stored under `key`, or None when it is absent. */
  function Get(d: map<string, Json>, key: string): (r: Json)
    ensures key !in d ==> r == JNull
    ensures key in d ==> r == d[key]
  {
    GetOr(d, key, JNull)
  }

  /** `d.get(key, default)`. */
  function GetOr(d: map<string, Json>, key: string, default: Json): (r: Json)
    ensures key in d ==> r == d[key]
    ensures key !in d ==> r == default
  {
    if key in d then d[key] else default
  }

  /** `d[key]`: the value stored under `key`, or a KeyError. */
  function Index(d: map<string, Json>, key: string): (r: Result<Json>)
    ensures r.Success? <==> key in d
    ensures r.Success? ==> r.value == d[key]
    ensures r.Failure? ==> r.error == KeyError(key)
  {
    if key in d then Success(d[key]) else Failure(KeyError(key))
  }

  /** The dict behind a value that is subscripted like one. */
  function AsMapping(j: Json): (r: Result<map<string, Json>>)
    ensures r.Success? <==> j.JObj?
    ensures r.Success? ==> j == JObj(r.value)
    ensures r.Failure? ==> r.error == NotAMapping
  {
    match j
    case JObj(d) => Success(d)
    case _ => Failure(NotAMapping)
  }

  /** A value read into a field annotated `str`. */
  function AsString(field: string, j: Json): (r: Result<string>)
    ensures r.Success? <==> j.JStr?
    ensures r.Success? ==> j == JStr(r.value)
    ensures r.Failure? ==> r.error == IllTyped(field)
  {
    match j
    case JStr(s) => Success(s)
    case _ => Failure(IllTyped(field))
  }

  /** Encoding of a field annotated `Optional[str]`. */
  function OptStringToJson(o: Option<string>): Json {
    match o
    case None => JNull
    case Some(s) => JStr(s)
  }

  /** A value read into a field annotated `Optional[str]`. */
  function AsOptString(field: string, j: Json): (r: Result<Option<string>>)
    ensures r.Success? <==> (j.JNull? || j.JStr?)
    ensures r.Success? ==> OptStringToJson(r.value) == j
    ensures r.Failure? ==> r.error == IllTyped(field)
  {
    match j
    case JNull => Success(None)
    case JStr(s) => Success(Some(s))
    case _ => Failure(IllTyped(field))
  }

  /** Encoding of a list of strings. */
  function StringsToJson(ss: seq<string>): (r: seq<Json>)
    ensures |r| == |ss|
    ensures forall i :: 0 <= i < |ss| ==> r[i] == JStr(ss[i])
  {
    seq(|ss|, i requires 0 <= i < |ss| => JStr(ss[i]))
  }

  /** The strings of a JSON list, when every item is a string. */
  function StringsOf(items: seq<Json>): (r: Option<seq<string>>)
    ensures r.Some? <==> forall i :: 0 <= i < |items| ==> items[i].JStr?
    ensures r.Some? ==> StringsToJson(r.value) == items
  {
    if items == [] then Some([])
    else
      AllStringsCons(items);
      match StringsOf(items[1..])
      case None => None
      case Some(rest) =>
        if items[0].JStr? then
          StringsToJsonCons(items[0].s, rest);
          assert items == [items[0]] + items[1..];
          Some([items[0].s] + rest)
        else None
  }

  lemma StringsToJsonCons(s: string, rest: seq<string>)
    ensures StringsToJson([s] + rest) == [JStr(s)] + StringsToJson(rest)
  {
    var whole := StringsToJson([s] + rest);
    var parts := [JStr(s)] + StringsToJson(rest);
    forall i | 0 <= i < |whole|
      ensures whole[i] == parts[i]
    {
      if i > 0 {
        assert ([s] + rest)[i] == rest[i - 1];
      }
    }
  }

  /** A list holds only strings when its head is one and its tail holds only strings. */
  lemma AllStringsCons(items: seq<Json>)
    requires items != []
    ensures (forall i :: 0 <= i < |items| ==> items[i].JStr?)
            <==> items[0].JStr? && forall i :: 0 <= i < |items[1..]| ==> items[1..][i].JStr?
  {
    assert forall i :: 0 <= i < |items[1..]| ==> items[1..][i] == items[i + 1];
  }

  /** Encoding of a list of dicts. */
  function MappingsToJson(ds: seq<map<string, Json>>): (r: seq<Json>)
    ensures |r| == |ds|
    ensures forall i :: 0 <= i < |ds| ==> r[i] == JObj(ds[i])
  {
    seq(|ds|, i requires 0 <= i < |ds| => JObj(ds[i]))
  }

  /** The dicts of a JSON list, when every item is a dict. */
  function MappingsOf(items: seq<Json>): (r: Option<seq<map<string, Json>>>)
    ensures r.Some? <==> forall i :: 0 <= i < |items| ==> items[i].JObj?
    ensures r.Some? ==> MappingsToJson(r.value) == items
  {
    if items == [] then Some([])
    else
      AllMappingsCons(items);
      match MappingsOf(items[1..])
      case None => None
      case Some(rest) =>
        if items[0].JObj? then
          MappingsToJsonCons(items[0].fields, rest);
          assert items == [items[0]] + items[1..];
          Some([items[0].fields] + rest)
        else None
  }

  lemma MappingsToJsonCons(d: map<string, Json>, rest: seq<map<string, Json>>)
    ensures MappingsToJson([d] + rest) == [JObj(d)] + MappingsToJson(rest)
  {
    var whole := MappingsToJson([d] + rest);
    var parts := [JObj(d)] + MappingsToJson(rest);
    forall i | 0 <= i < |whole|
      ensures whole[i] == parts[i]
    {
      if i > 0 {
        assert ([d] + rest)[i] == rest[i - 1];
      }
    }
  }

  /** A list holds only dicts when its head is one and its tail holds only dicts. */
  lemma AllMappingsCons(items: seq<Json>)
    requires items != []
    ensures (forall i :: 0 <= i < |items| ==> items[i].JObj?)
            <==> items[0].JObj? && forall i :: 0 <= i < |items[1..]| ==> items[1..][i].JObj?
  {
    assert forall i :: 0 <= i < |items[1..]| ==> items[1..][i] == items[i + 1];
  }

  lemma {:induction false} StringsRoundTrip(ss: seq<string>)
    ensures StringsOf(StringsToJson(ss)) == Some(ss)
  {
    if ss != [] {
      assert StringsToJson(ss)[1..] == StringsToJson(ss[1..]);
      StringsRoundTrip(ss[1..]);
      assert ss == [ss[0]] + ss[1..];
    }
  }

  lemma {:induction false} MappingsRoundTrip(ds: seq<map<string, Json>>)
    ensures MappingsOf(MappingsToJson(ds)) == Some(ds)
  {
    if ds != [] {
      assert MappingsToJson(ds)[1..] == MappingsToJson(ds[1..]);
      MappingsRoundTrip(ds[1..]);
      assert ds == [ds[0]] + ds[1..];
    }
  }

  /** Encoding of a field annotated `Optional[List[str]]`. */
  function OptStringsToJson(o: Option<seq<string>>): Json {
    match o
    case None => JNull
    case Some(ss) => JArr(StringsToJson(ss))
  }

  /** A value read into a field annotated `Optional[List[str]]`. */
  function AsOptStrings(field: string, j: Json): (r: Result<Option<seq<string>>>)
    ensures r.Success? <==> (j.JNull? || (j.JArr? && forall i :: 0 <= i < |j.items| ==> j.items[i].JStr?))
    ensures r.Success? ==> OptStringsToJson(r.value) == j
    ensures r.Failure? ==> r.error == IllTyped(field)
  {
    match j
    case JNull => Success(None)
    case JArr(items) =>
      (match StringsOf(items)
       case Some(ss) => Success(Some(ss))
       case None => Failure(IllTyped(field)))
    case _ => Failure(IllTyped(field))
  }

  /** Encoding of a field annotated `Optional[List[Dict]]`. */
  function OptMappingsToJson(o: Option<seq<map<string, Json>>>): Json {
    match o
    case None => JNull
    case Some(ds) => JArr(MappingsToJson(ds))
  }

  /** A value read into a field annotated `Optional[List[Dict]]`. */
  function AsOptMappings(field: string, j: Json): (r: Result<Option<seq<map<string, Json>>>>)
    ensures r.Success? <==> (j.JNull? || (j.JArr? && forall i :: 0 <= i < |j.items| ==> j.items[i].JObj?))
    ensures r.Success? ==> OptMappingsToJson(r.value) == j
    ensures r.Failure? ==> r.error == IllTyped(field)
  {
    match j
    case JNull => Success(None)
    case JArr(items) =>
      (match MappingsOf(items)
       case Some(ds) => Success(Some(ds))
       case None => Failure(IllTyped(field)))
    case _ => Failure(IllTyped(field))
  }

  lemma OptStringsRoundTrip(field: string, o: Option<seq<string>>)
    ensures AsOptStrings(field, OptStringsToJson(o)) == Success(o)
  {
    if o.Some? {
      StringsRoundTrip(o.value);
    }
  }

  lemma OptMappingsRoundTrip(field: string, o: Option<seq<map<string, Json>>>)
    ensures AsOptMappings(field, OptMappingsToJson(o)) == Success(o)
  {
    if o.Some? {
      MappingsRoundTrip(o.value);
    }
  }
}
