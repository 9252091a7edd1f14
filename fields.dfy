/**
 * The field extractor every adapter repeats: read one top-level key of the
 * parsed document, insist on one JSON kind, and fail with a message that
 * names the field. Also a table-driven reference reading of a whole list
 * of fields; each adapter's `…DecodeSpec` lemma proves that the adapter
 * fails exactly when this reading fails, and with the same error.
 */
module Fields {
  import opened Wrappers
  import opened Json
  import opened Geo

  /** One field an adapter reads: the name its error message uses, the
      JSON key it looks up, and the kind it demands there. */
  datatype FieldSpec = FieldSpec(name: string, key: string, kind: Kind)

  /** `match &parsed_json[key] { Value::K(x) => x, _ => return Err(...) }`
      followed by `x.to_string()`. */
  function Field(doc: Value, spec: FieldSpec): (r: Result<string, GeoError>)
    ensures r.Success? <==> HasKind(Index(doc, spec.key), spec.kind)
    ensures r.Success? ==> r.value == Render(Index(doc, spec.key))
    ensures r.Failure? ==> r.error == FieldNotFound(spec.name)
  {
    match Index(doc, spec.key)
    case String(s) =>
      if spec.kind == StringKind then Success(s) else Failure(FieldNotFound(spec.name))
    case Number(text) =>
      if spec.kind == NumberKind then Success(text) else Failure(FieldNotFound(spec.name))
    case _ => Failure(FieldNotFound(spec.name))
  }

  predicate Present(doc: Value, spec: FieldSpec)
  {
    Field(doc, spec).Success?
  }

  predicate AllPresent(doc: Value, table: seq<FieldSpec>)
  {
    forall i :: 0 <= i < |table| ==> Present(doc, table[i])
  }

  /** Field `i` is the first one of `table` that `doc` lacks. */
  predicate FirstMissing(doc: Value, table: seq<FieldSpec>, i: int)
  {
    && 0 <= i < |table|
    && !Present(doc, table[i])
    && forall j :: 0 <= j < i ==> Present(doc, table[j])
  }

  /** Reference reading of a whole table: fields in order, stopping at the
      first one that fails. */
  function ReadAll(doc: Value, table: seq<FieldSpec>): (r: Result<seq<string>, GeoError>)
    ensures r.Success? <==> AllPresent(doc, table)
    ensures r.Success? ==>
      |r.value| == |table| && forall i :: 0 <= i < |table| ==> r.value[i] == Field(doc, table[i]).value
    ensures r.Failure? ==>
      exists i :: FirstMissing(doc, table, i) && r.error == FieldNotFound(table[i].name)
    decreases |table|
  {
    if table == [] then
      Success([])
    else
      match Field(doc, table[0])
      case Failure(e) =>
        assert FirstMissing(doc, table, 0);
        Failure(e)
      case Success(x) =>
        match ReadAll(doc, table[1..])
        case Failure(e) =>
          var i :| FirstMissing(doc, table[1..], i) && e == FieldNotFound(table[1..][i].name);
          assert FirstMissing(doc, table, i + 1);
          Failure(e)
        case Success(xs) =>
          Success([x] + xs)
  }

  /** A missing key and a key of the wrong kind give the same error:
      serde_json reads a missing key as `Null`, which no arm accepts. */
  lemma MissingLikeWrongKind(m: map<string, Value>, spec: FieldSpec, v: Value)
    requires !HasKind(v, spec.kind)
    ensures Field(Object(m - {spec.key}), spec) == Failure(FieldNotFound(spec.name))
    ensures Field(Object(m[spec.key := v]), spec) == Failure(FieldNotFound(spec.name))
  {
  }

  /** A String where a Number is wanted fails, and the other way round:
      there is no coercion between the kinds. */
  lemma NoCoercion(m: map<string, Value>, name: string, key: string, text: string)
    ensures Field(Object(m[key := String(text)]), FieldSpec(name, key, NumberKind)) == Failure(FieldNotFound(name))
    ensures Field(Object(m[key := Number(text)]), FieldSpec(name, key, StringKind)) == Failure(FieldNotFound(name))
    ensures Field(Object(m[key := String(text)]), FieldSpec(name, key, StringKind)) == Success(text)
    ensures Field(Object(m[key := Number(text)]), FieldSpec(name, key, NumberKind)) == Success(text)
  {
  }

  /** Only one field can be the first missing one. */
  lemma FirstMissingUnique(doc: Value, table: seq<FieldSpec>, i: int, j: int)
    requires FirstMissing(doc, table, i) && FirstMissing(doc, table, j)
    ensures i == j
  {
  }

  /** When field `i` is the first one missing, the reference reading fails
      there and names it. */
  lemma ReadAllStopsAt(doc: Value, table: seq<FieldSpec>, i: int)
    requires FirstMissing(doc, table, i)
    ensures ReadAll(doc, table) == Failure(FieldNotFound(table[i].name))
  {
    var r := ReadAll(doc, table);
    if r.Failure? {
      var k :| FirstMissing(doc, table, k) && r.error == FieldNotFound(table[k].name);
      FirstMissingUnique(doc, table, i, k);
    }
  }
}
