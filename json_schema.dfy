/**
 * The part of JSON Schema draft-07, as Ajv interprets it, that the meta-schemas of
 * src/interfaces use: `type`, Ajv's `nullable`, `properties`, `required` (section 6.5.3 of
 * the draft-07 validation specification), `additionalProperties` (6.5.6), `items` (6.4.1),
 * `enum` (6.1.2), `anyOf` (6.7.2), `oneOf` (6.7.3), and the custom keywords `isFunction` and
 * `isFunctionOrNull` registered in src/ajv.ts.
 *
 * Following Ajv, `properties` and `required` treat a property whose value is `undefined` as
 * absent, while `additionalProperties` looks at every enumerable key.
 */
module JsonSchema {
  import opened Js
  import opened Wrappers
  import AjvModel

  datatype JsonType = TObject | TArray | TString | TNumber | TBoolean | TNull

  /** The `additionalProperties` keyword: absent, `false`, or a schema. */
  datatype Additional = AnyAdditional | NoAdditional | AdditionalSchema(schema: Schema)

  /**
   * A schema object; each field is one keyword, at its "absent" value when not written.
   * `anyOf` and `oneOf` must be non-empty when written, so `[]` stands for "absent".
   */
  datatype Schema = Schema(
    types: seq<JsonType>,
    nullable: bool,
    properties: seq<(string, Schema)>,
    required: seq<string>,
    additional: Additional,
    items: Option<Schema>,
    enumValues: Option<seq<Value>>,
    anyOf: seq<Schema>,
    oneOf: seq<Schema>,
    isFunction: Value,
    isFunctionOrNull: Value)

  /** `{}`: accepts every value. */
  const EmptySchema: Schema :=
    Schema([], false, [], [], AnyAdditional, None, None, [], [], Undefined, Undefined)

  /** `{ type: t }`. */
  function Typed(t: JsonType): Schema
  {
    EmptySchema.(types := [t])
  }

  /** `{ type: t, nullable: true }`. */
  function NullableTyped(t: JsonType): Schema
  {
    EmptySchema.(types := [t], nullable := true)
  }

  /** `{ type: 'array', items: s }`. */
  function ArrayOf(s: Schema): Schema
  {
    EmptySchema.(types := [TArray], items := Some(s))
  }

  /** `{ type: 'object', properties, required }`: other keys are allowed. */
  function OpenRecord(properties: seq<(string, Schema)>, required: seq<string>): Schema
  {
    EmptySchema.(types := [TObject], properties := properties, required := required)
  }

  /** `{ type: 'object', properties, required, additionalProperties: false }`. */
  function Record(properties: seq<(string, Schema)>, required: seq<string>): Schema
  {
    OpenRecord(properties, required).(additional := NoAdditional)
  }

  /** `{ type: 'object', additionalProperties: s }` (with `required: []`, which asks nothing). */
  function Dictionary(s: Schema): Schema
  {
    EmptySchema.(types := [TObject], additional := AdditionalSchema(s))
  }

  predicate HasType(t: JsonType, v: Value)
  {
    match t
    case TObject => IsObject(v)
    case TArray => v.Arr?
    case TString => v.Str?
    case TNumber => v.Num?
    case TBoolean => v.Bool?
    case TNull => v.Null?
  }

  predicate HasSomeType(types: seq<JsonType>, v: Value)
  {
    exists i :: 0 <= i < |types| && HasType(types[i], v)
  }

  /** The type check: no `type` accepts everything; `nullable: true` adds null to a type list. */
  predicate TypeOk(s: Schema, v: Value)
  {
    |s.types| == 0 || HasSomeType(s.types, v) || (s.nullable && v.Null?)
  }

  /** The property names that `properties` declares. */
  function Declared(properties: seq<(string, Schema)>): set<string>
  {
    set p | p in properties :: p.0
  }

  /** What `properties` asks of one declared property: when present, it is valid. */
  predicate FieldOk(p: (string, Schema), v: Value)
  {
    Has(v, p.0) ==> Valid(p.1, Prop(v, p.0))
  }

  /** Whether `v` is valid against `s`: every keyword of `s` accepts `v`. */
  predicate Valid(s: Schema, v: Value)
    decreases s, 1
  {
    && TypeOk(s, v)
    && ObjectOk(s, v)
    && ItemsOk(s, v)
    && (s.enumValues.Some? ==> v in s.enumValues.value)
    && AnyOfOk(s, v)
    && OneOfOk(s, v)
    && AjvModel.IsFunctionKeyword(s.isFunction, v)
    && AjvModel.IsFunctionOrNullKeyword(s.isFunctionOrNull, v)
  }

  /** `properties`, `required` and `additionalProperties`, which only look at objects. */
  predicate ObjectOk(s: Schema, v: Value)
    decreases s, 0
  {
    IsObject(v) ==>
      && (forall i :: 0 <= i < |s.properties| && Has(v, s.properties[i].0) ==>
            Valid(s.properties[i].1, Prop(v, s.properties[i].0)))
      && (forall i :: 0 <= i < |s.required| ==> Has(v, s.required[i]))
      && (s.additional.NoAdditional? ==>
            forall k :: k in Props(v) ==> k in Declared(s.properties))
      && (s.additional.AdditionalSchema? ==>
            forall k :: k in Props(v) && k !in Declared(s.properties) ==>
              Valid(s.additional.schema, Props(v)[k]))
  }

  /** `items` in its single-schema form, which only looks at arrays. */
  predicate ItemsOk(s: Schema, v: Value)
    decreases s, 0
  {
    v.Arr? && s.items.Some? ==>
      forall j :: 0 <= j < |v.elems| ==> Valid(s.items.value, v.elems[j])
  }

  /** `anyOf`: at least one alternative accepts `v`. */
  predicate AnyOfOk(s: Schema, v: Value)
    decreases s, 0
  {
    s.anyOf != [] ==> exists i :: 0 <= i < |s.anyOf| && Valid(s.anyOf[i], v)
  }

  /** `oneOf`: exactly one alternative accepts `v`. */
  predicate OneOfOk(s: Schema, v: Value)
    decreases s, 0
  {
    s.oneOf != [] ==> Accepting(s.oneOf, v) == 1
  }

  /** How many of the schemas `alternatives` accept `v`. */
  function Accepting(alternatives: seq<Schema>, v: Value): nat
    decreases alternatives
  {
    if alternatives == [] then 0
    else (if Valid(alternatives[0], v) then 1 else 0) + Accepting(alternatives[1..], v)
  }

  /** `{}` accepts every value (a proof aid for the meta-schema lemmas, not a rule of its own). */
  lemma ValidEmpty(v: Value)
    ensures Valid(EmptySchema, v)
  {
  }

  /** `{ type: t }` accepts exactly the values of type `t`. */
  lemma ValidTyped(t: JsonType, v: Value)
    ensures Valid(Typed(t), v) <==> HasType(t, v)
  {
    if HasType(t, v) {
      assert HasType(Typed(t).types[0], v);
    }
  }

  /** `{ type: t, nullable: true }` accepts the values of type `t` and `null`. */
  lemma ValidNullableTyped(t: JsonType, v: Value)
    ensures Valid(NullableTyped(t), v) <==> HasType(t, v) || v.Null?
  {
    if HasType(t, v) {
      assert HasType(NullableTyped(t).types[0], v);
    }
  }

  /** `{ type: 'array', items: s }` accepts the arrays whose every element `s` accepts. */
  lemma ValidArrayOf(s: Schema, v: Value)
    ensures Valid(ArrayOf(s), v) <==> v.Arr? && forall j :: 0 <= j < |v.elems| ==> Valid(s, v.elems[j])
  {
    if v.Arr? {
      assert HasType(ArrayOf(s).types[0], v);
    }
  }

  /**
   * An open record schema accepts an object whose present declared properties are valid
   * and whose required properties are present.
   */
  lemma ValidOpenRecord(properties: seq<(string, Schema)>, required: seq<string>, v: Value)
    ensures Valid(OpenRecord(properties, required), v) <==>
      && IsObject(v)
      && (forall p :: p in properties ==> FieldOk(p, v))
      && (forall k :: k in required ==> Has(v, k))
  {
    var s := OpenRecord(properties, required);
    if IsObject(v) {
      assert HasType(s.types[0], v);
      assert (forall p :: p in properties ==> FieldOk(p, v)) <==>
        (forall i :: 0 <= i < |s.properties| && Has(v, s.properties[i].0) ==>
          Valid(s.properties[i].1, Prop(v, s.properties[i].0)))
      by {
        if forall p :: p in properties ==> FieldOk(p, v) {
          forall i | 0 <= i < |s.properties| && Has(v, s.properties[i].0)
            ensures Valid(s.properties[i].1, Prop(v, s.properties[i].0))
          {
            assert FieldOk(properties[i], v);
          }
        }
      }
    }
  }

  /** A record schema is an open record schema that also rejects every undeclared key. */
  lemma ValidRecord(properties: seq<(string, Schema)>, required: seq<string>, v: Value)
    ensures Valid(Record(properties, required), v) <==>
      && IsObject(v)
      && (forall p :: p in properties ==> FieldOk(p, v))
      && (forall k :: k in required ==> Has(v, k))
      && Props(v).Keys <= Declared(properties)
  {
    var s := Record(properties, required);
    ValidOpenRecord(properties, required, v);
    if IsObject(v) {
      assert HasType(s.types[0], v);
    }
  }

  /** A dictionary schema accepts an object each of whose values `s` accepts. */
  lemma ValidDictionary(s: Schema, v: Value)
    ensures Valid(Dictionary(s), v) <==> IsObject(v) && forall k :: k in Props(v) ==> Valid(s, Props(v)[k])
  {
    if IsObject(v) {
      assert HasType(Dictionary(s).types[0], v);
    }
  }

  /** `{ ...s, nullable: true }` for an object schema `s`: `s` or `null`. */
  lemma ValidNullable(s: Schema, v: Value)
    requires s.types == [TObject] && s.items.None? && s.enumValues.None?
    requires s.anyOf == [] && s.oneOf == []
    requires !Truthy(s.isFunction) && !Truthy(s.isFunctionOrNull)
    ensures Valid(s.(nullable := true), v) <==> v.Null? || Valid(s, v)
  {
    if IsObject(v) {
      assert HasType(s.types[0], v);
    }
  }

  // Proof aids, not rules of their own: they unfold a `properties` or `required`
  // list of fixed length into one conjunct per entry for the meta-schema lemmas.

  lemma Fields2(a: (string, Schema), b: (string, Schema), v: Value)
    ensures (forall p :: p in [a, b] ==> FieldOk(p, v)) <==> FieldOk(a, v) && FieldOk(b, v)
    ensures Declared([a, b]) == {a.0, b.0}
  {
  }

  lemma Fields3(a: (string, Schema), b: (string, Schema), c: (string, Schema), v: Value)
    ensures (forall p :: p in [a, b, c] ==> FieldOk(p, v)) <==> FieldOk(a, v) && FieldOk(b, v) && FieldOk(c, v)
    ensures Declared([a, b, c]) == {a.0, b.0, c.0}
  {
  }

  lemma Fields4(a: (string, Schema), b: (string, Schema), c: (string, Schema), d: (string, Schema), v: Value)
    ensures (forall p :: p in [a, b, c, d] ==> FieldOk(p, v)) <==>
      FieldOk(a, v) && FieldOk(b, v) && FieldOk(c, v) && FieldOk(d, v)
    ensures Declared([a, b, c, d]) == {a.0, b.0, c.0, d.0}
  {
  }

  lemma Fields5(a: (string, Schema), b: (string, Schema), c: (string, Schema), d: (string, Schema),
                e: (string, Schema), v: Value)
    ensures (forall p :: p in [a, b, c, d, e] ==> FieldOk(p, v)) <==>
      FieldOk(a, v) && FieldOk(b, v) && FieldOk(c, v) && FieldOk(d, v) && FieldOk(e, v)
    ensures Declared([a, b, c, d, e]) == {a.0, b.0, c.0, d.0, e.0}
  {
  }

  lemma FieldTyped(k: string, t: JsonType, v: Value)
    ensures FieldOk((k, Typed(t)), v) <==> (Has(v, k) ==> HasType(t, Prop(v, k)))
  {
    ValidTyped(t, Prop(v, k));
  }

  lemma FieldNullableTyped(k: string, t: JsonType, v: Value)
    ensures FieldOk((k, NullableTyped(t)), v) <==> (Has(v, k) ==> HasType(t, Prop(v, k)) || Prop(v, k).Null?)
  {
    ValidNullableTyped(t, Prop(v, k));
  }

  /** Proof aid: a `required` list of one name. */
  lemma Required1(a: string, v: Value)
    ensures (forall k :: k in [a] ==> Has(v, k)) <==> Has(v, a)
  {
  }

  lemma Required2(a: string, b: string, v: Value)
    ensures (forall k :: k in [a, b] ==> Has(v, k)) <==> Has(v, a) && Has(v, b)
  {
  }

  lemma Required3(a: string, b: string, c: string, v: Value)
    ensures (forall k :: k in [a, b, c] ==> Has(v, k)) <==> Has(v, a) && Has(v, b) && Has(v, c)
  {
  }

  // Record schemas with a fixed number of declared properties, one conjunct per property.

  lemma Record2(s: Schema, a: (string, Schema), b: (string, Schema), required: seq<string>, v: Value)
    requires s == Record([a, b], required)
    ensures Valid(s, v) <==>
      && IsObject(v) && FieldOk(a, v) && FieldOk(b, v)
      && (forall k :: k in required ==> Has(v, k))
      && Props(v).Keys <= {a.0, b.0}
  {
    ValidRecord([a, b], required, v);
    Fields2(a, b, v);
  }

  lemma Record3(s: Schema, a: (string, Schema), b: (string, Schema), c: (string, Schema),
                required: seq<string>, v: Value)
    requires s == Record([a, b, c], required)
    ensures Valid(s, v) <==>
      && IsObject(v) && FieldOk(a, v) && FieldOk(b, v) && FieldOk(c, v)
      && (forall k :: k in required ==> Has(v, k))
      && Props(v).Keys <= {a.0, b.0, c.0}
  {
    ValidRecord([a, b, c], required, v);
    Fields3(a, b, c, v);
  }

  lemma Record4(s: Schema, a: (string, Schema), b: (string, Schema), c: (string, Schema),
                d: (string, Schema), required: seq<string>, v: Value)
    requires s == Record([a, b, c, d], required)
    ensures Valid(s, v) <==>
      && IsObject(v) && FieldOk(a, v) && FieldOk(b, v) && FieldOk(c, v) && FieldOk(d, v)
      && (forall k :: k in required ==> Has(v, k))
      && Props(v).Keys <= {a.0, b.0, c.0, d.0}
  {
    ValidRecord([a, b, c, d], required, v);
    Fields4(a, b, c, d, v);
  }

  lemma Record5(s: Schema, a: (string, Schema), b: (string, Schema), c: (string, Schema),
                d: (string, Schema), e: (string, Schema), required: seq<string>, v: Value)
    requires s == Record([a, b, c, d, e], required)
    ensures Valid(s, v) <==>
      && IsObject(v) && FieldOk(a, v) && FieldOk(b, v) && FieldOk(c, v) && FieldOk(d, v) && FieldOk(e, v)
      && (forall k :: k in required ==> Has(v, k))
      && Props(v).Keys <= {a.0, b.0, c.0, d.0, e.0}
  {
    ValidRecord([a, b, c, d, e], required, v);
    Fields5(a, b, c, d, e, v);
  }

  lemma OpenRecord3(s: Schema, a: (string, Schema), b: (string, Schema), c: (string, Schema),
                    required: seq<string>, v: Value)
    requires s == OpenRecord([a, b, c], required)
    ensures Valid(s, v) <==>
      && IsObject(v) && FieldOk(a, v) && FieldOk(b, v) && FieldOk(c, v)
      && (forall k :: k in required ==> Has(v, k))
  {
    ValidOpenRecord([a, b, c], required, v);
    Fields3(a, b, c, v);
  }

  /** A property whose schema is `{ ...s, nullable: true }` for an object schema `s`. */
  lemma FieldNullable(k: string, s: Schema, v: Value)
    requires s.types == [TObject] && s.items.None? && s.enumValues.None?
    requires s.anyOf == [] && s.oneOf == []
    requires !Truthy(s.isFunction) && !Truthy(s.isFunctionOrNull)
    ensures FieldOk((k, s.(nullable := true)), v) <==> (Has(v, k) ==> Prop(v, k).Null? || Valid(s, Prop(v, k)))
  {
    ValidNullable(s, Prop(v, k));
  }

  /** `{ type: 'array', items: {} }` accepts every array. */
  lemma ValidArrayOfAny(v: Value)
    ensures Valid(ArrayOf(EmptySchema), v) <==> v.Arr?
  {
    ValidArrayOf(EmptySchema, v);
    if v.Arr? {
      forall j | 0 <= j < |v.elems| {
        ValidEmpty(v.elems[j]);
      }
    }
  }

  lemma AcceptingPair(a: Schema, b: Schema, v: Value)
    ensures Accepting([a, b], v) == (if Valid(a, v) then 1 else 0) + (if Valid(b, v) then 1 else 0)
  {
    assert [a, b][1..] == [b] && [b][1..] == [];
    assert Accepting([b], v) == (if Valid(b, v) then 1 else 0) + Accepting([], v);
  }

  /** `{ oneOf: [a, b] }` accepts a value that exactly one of `a` and `b` accepts. */
  lemma ValidOneOf2(a: Schema, b: Schema, v: Value)
    ensures Valid(EmptySchema.(oneOf := [a, b]), v) <==> (Valid(a, v) != Valid(b, v))
  {
    var s := EmptySchema.(oneOf := [a, b]);
    AcceptingPair(a, b, v);
    assert Valid(s, v) <==> Accepting([a, b], v) == 1;
  }
}
