/**
 JSON values and the part of JSON Schema 2020-12 that the provider contract uses: the keywords
 type, const, enum, minimum, maximum, required, properties and additionalProperties (Validation
 sections 6.1.1 to 6.1.3, 6.2.2, 6.2.4, 6.5.3; Core sections 10.3.2.1 and 10.3.2.3). A keyword
 constrains only instances of the type it applies to; other keywords are annotations.
 */
module Json {
  datatype Json =
    | Null
    | Bool(b: bool)
    | Number(n: real)
    | String(s: string)
    | Array(items: seq<Json>)
    | Object(fields: map<string, Json>)

  predicate HasType(v: Json, name: string) {
    match v
    case Null => name == "null"
    case Bool(_) => name == "boolean"
    case Number(_) => name == "number"
    case String(_) => name == "string"
    case Array(_) => name == "array"
    case Object(_) => name == "object"
  }

  predicate Keyword(k: map<string, Json>, v: Json) {
    && ("type" in k ==> k["type"].String? && HasType(v, k["type"].s))
    && ("const" in k ==> v == k["const"])
    && ("enum" in k ==> k["enum"].Array? && v in k["enum"].items)
    && ("minimum" in k && v.Number? ==> k["minimum"].Number? && k["minimum"].n <= v.n)
    && ("maximum" in k && v.Number? ==> k["maximum"].Number? && v.n <= k["maximum"].n)
    && ("required" in k && v.Object? ==>
          k["required"].Array? && forall x :: x in k["required"].items ==> x.String? && x.s in v.fields)
  }

  // The properties keyword's value, empty when the keyword is absent.
  function Properties(k: map<string, Json>): map<string, Json> {
    if "properties" in k && k["properties"].Object? then k["properties"].fields else map[]
  }

  predicate Conforms(schema: Json, v: Json) {
    && schema.Object?
    && Keyword(schema.fields, v)
    && (v.Object? ==>
          && (forall p :: p in Properties(schema.fields) && p in v.fields ==>
                Conforms(Properties(schema.fields)[p], v.fields[p]))
          && ("additionalProperties" in schema.fields && schema.fields["additionalProperties"] == Bool(false) ==>
                forall p :: p in v.fields ==> p in Properties(schema.fields)))
  }

  /** The schemas the generator builds */

  function Strings(names: seq<string>): seq<Json> {
    seq(|names|, i requires 0 <= i < |names| => String(names[i]))
  }

  function StrictObject(required: seq<string>, properties: map<string, Json>): Json {
    Object(map["type" := String("object"), "additionalProperties" := Bool(false),
               "required" := Array(Strings(required)), "properties" := Object(properties)])
  }

  function UnitNumber(): Json { Range(0.0, 1.0) }

  function Range(low: real, high: real): Json {
    Object(map["type" := String("number"), "minimum" := Number(low), "maximum" := Number(high)])
  }

  function ConstString(value: string): Json {
    Object(map["type" := String("string"), "const" := String(value)])
  }

  function EnumString(values: seq<string>): Json {
    Object(map["type" := String("string"), "enum" := Array(Strings(values))])
  }

  // names lists the keys, each at least once and nothing else.
  ghost predicate Lists(names: seq<string>, keys: set<string>) {
    forall x :: x in names <==> x in keys
  }

  lemma StringsMember(names: seq<string>, v: Json)
    ensures v in Strings(names) <==> v.String? && v.s in names
  {
    if v.String? && v.s in names {
      var i :| 0 <= i < |names| && names[i] == v.s;
      assert Strings(names)[i] == v;
    }
  }

  /** What each of them admits */

  ghost predicate Admits(schema: Json, values: iset<Json>) {
    forall v :: Conforms(schema, v) <==> v in values
  }

  ghost function Numbers(low: real, high: real): iset<Json> { iset v: Json | v.Number? && low <= v.n <= high }

  ghost function Names(values: set<string>): iset<Json> { iset v: Json | v.String? && v.s in values }

  // The values of each field of an object, and no other field.
  ghost predicate FieldsIn(values: map<string, iset<Json>>, f: map<string, Json>) {
    f.Keys == values.Keys && forall p :: p in f ==> f[p] in values[p]
  }

  ghost function Objects(values: map<string, iset<Json>>): iset<Json> {
    iset v: Json | v.Object? && FieldsIn(values, v.fields)
  }

  lemma StrictKeyword(required: seq<string>, properties: map<string, Json>, v: Json)
    ensures var k := StrictObject(required, properties).fields;
            && Properties(k) == properties && "additionalProperties" in k && k["additionalProperties"] == Bool(false)
            && (Keyword(k, v) <==> v.Object? && forall p :: p in required ==> p in v.fields)
  {
    forall x ensures x in Strings(required) <==> x.String? && x.s in required { StringsMember(required, x); }
    var k := StrictObject(required, properties).fields;
    assert k["type"] == String("object") && Properties(k) == properties;
    assert "enum" !in k && "const" !in k && "minimum" !in k && "maximum" !in k;
    if v.Object? && Keyword(k, v) {
      forall p | p in required ensures p in v.fields { assert String(p) in Strings(required); }
    }
  }

  lemma StrictObjectAdmits(required: seq<string>, properties: map<string, Json>, values: map<string, iset<Json>>)
    requires Lists(required, properties.Keys) && values.Keys == properties.Keys
    requires forall p :: p in properties ==> Admits(properties[p], values[p])
    ensures Admits(StrictObject(required, properties), Objects(values))
  {
    forall v ensures Conforms(StrictObject(required, properties), v) <==> v in Objects(values) {
      StrictKeyword(required, properties, v);
      if v.Object? && v.fields.Keys == properties.Keys {
        assert forall p :: p in v.fields ==> (Conforms(properties[p], v.fields[p]) <==> v.fields[p] in values[p]);
      }
    }
  }

  lemma RangeAdmits(low: real, high: real)
    ensures Admits(Range(low, high), Numbers(low, high))
  {
    var k := Range(low, high).fields;
    assert k["type"] == String("number");
    assert "enum" !in k && "const" !in k && "required" !in k && "additionalProperties" !in k && "properties" !in k;
  }

  lemma ConstAdmits(value: string)
    ensures Admits(ConstString(value), Names({value}))
  {
    var k := ConstString(value).fields;
    assert k["type"] == String("string");
    assert "enum" !in k && "required" !in k && "additionalProperties" !in k && "properties" !in k
           && "minimum" !in k && "maximum" !in k;
  }

  lemma EnumAdmits(values: seq<string>)
    ensures Admits(EnumString(values), Names(set x | x in values))
  {
    var k := EnumString(values).fields;
    assert k["type"] == String("string");
    assert "const" !in k && "required" !in k && "additionalProperties" !in k && "properties" !in k
           && "minimum" !in k && "maximum" !in k;
    forall v ensures v in Strings(values) <==> v.String? && v.s in values { StringsMember(values, v); }
  }

  const KEYWORDS := {"type", "const", "enum", "minimum", "maximum", "required", "properties", "additionalProperties"}

  // Keywords outside the vocabulary above change nothing.
  lemma AnnotationsAdmit(notes: map<string, Json>, fields: map<string, Json>, values: iset<Json>)
    requires notes.Keys !! KEYWORDS && Admits(Object(fields), values)
    ensures Admits(Object(notes + fields), values)
  {
    var noted := notes + fields;
    assert forall k :: k in KEYWORDS ==> (k in noted <==> k in fields) && (k in noted ==> noted[k] == fields[k]);
    assert Properties(noted) == Properties(fields);
    forall v ensures Conforms(Object(noted), v) <==> v in values {
      SameKeyword(noted, fields, v);
      assert Conforms(Object(fields), v) <==> v in values;
    }
  }

  lemma SameKeyword(a: map<string, Json>, b: map<string, Json>, v: Json)
    requires forall k :: k in KEYWORDS ==> (k in a <==> k in b) && (k in a ==> a[k] == b[k])
    ensures Keyword(a, v) == Keyword(b, v)
    ensures "additionalProperties" in a <==> "additionalProperties" in b
    ensures "additionalProperties" in a ==> a["additionalProperties"] == b["additionalProperties"]
  {
  }
}
