/**
 * src/ajv.ts: the two custom keywords registered on the shared Ajv instance and `AjvCache`,
 * a memo table from schema objects to compiled validators keyed by object identity.
 *
 * Ajv itself is not modelled: `Ajv.Compile` stands for `ajv.compile` and returns a new
 * validator each time, recording the schemas it was asked to compile.
 */
module AjvModel {
  import opened Js

  /** The `isFunction` keyword: with a falsy keyword value anything passes. */
  predicate IsFunctionKeyword(keywordValue: Value, data: Value)
  {
    if !Truthy(keywordValue) then true else data.Func?
  }

  /** The `isFunctionOrNull` keyword: with a falsy keyword value anything passes. */
  predicate IsFunctionOrNullKeyword(keywordValue: Value, data: Value)
  {
    if !Truthy(keywordValue) then true else IsNullish(data) || data.Func?
  }

  /** The two keywords accept the same data except that the second also lets null through. */
  lemma KeywordsRelated(keywordValue: Value, data: Value)
    ensures IsFunctionOrNullKeyword(keywordValue, data) <==> IsFunctionKeyword(keywordValue, data) || IsNullish(data)
    ensures Truthy(keywordValue) ==> (IsFunctionKeyword(keywordValue, data) <==> data.Func?)
    ensures !Truthy(keywordValue) ==> IsFunctionKeyword(keywordValue, data) && IsFunctionOrNullKeyword(keywordValue, data)
  {
  }

  /** A schema object; two objects may hold equal JSON and still be different keys. */
  class Schema {
    const body: Value

    constructor (body: Value)
      ensures this.body == body
    {
      this.body := body;
    }
  }

  /** A compiled validation function; Ajv exposes the source schema as `validate.schema`. */
  class Validator {
    const schema: Schema

    constructor (schema: Schema)
      ensures this.schema == schema
    {
      this.schema := schema;
    }
  }

  /** The Ajv instance, seen only through `compile`. */
  class Ajv {
    /** The schemas `compile` has been called with, in order. */
    var compiled: seq<Schema>

    constructor ()
      ensures compiled == []
    {
      compiled := [];
    }

    method Compile(schema: Schema) returns (validate: Validator)
      modifies this
      ensures fresh(validate) && validate.schema == schema
      ensures compiled == old(compiled) + [schema]
    {
      validate := new Validator(schema);
      compiled := compiled + [schema];
    }
  }

  class AjvCache {
    const ajv: Ajv
    var cache: map<Schema, Validator>

    /** Every stored validator was compiled from the schema it is stored under. */
    ghost predicate Valid()
      reads this
    {
      forall s :: s in cache ==> cache[s].schema == s
    }

    constructor (ajv: Ajv)
      ensures Valid() && this.ajv == ajv && cache == map[]
    {
      this.ajv := ajv;
      cache := map[];
    }

    /**
     * A hit returns the stored validator and compiles nothing; a miss compiles once,
     * stores the result under `schema` alone and returns it.
     */
    method Compile(schema: Schema) returns (validate: Validator)
      requires Valid()
      modifies this, ajv
      ensures Valid() && validate.schema == schema
      ensures schema in old(cache) ==>
        && validate == old(cache)[schema]
        && cache == old(cache)
        && ajv.compiled == old(ajv.compiled)
      ensures schema !in old(cache) ==>
        && fresh(validate)
        && cache == old(cache)[schema := validate]
        && ajv.compiled == old(ajv.compiled) + [schema]
    {
      if schema in cache {
        return cache[schema];
      }
      validate := ajv.Compile(schema);
      cache := cache[schema := validate];
    }
  }

  /** Compiling the same schema object twice yields the identical validator, compiled at most once. */
  method CompileTwice(c: AjvCache, schema: Schema) returns (v1: Validator, v2: Validator)
    requires c.Valid()
    modifies c, c.ajv
    ensures v1 == v2 && schema in c.cache && c.cache[schema] == v1
    ensures |c.ajv.compiled| <= |old(c.ajv.compiled)| + 1
  {
    v1 := c.Compile(schema);
    v2 := c.Compile(schema);
  }

  /** Two distinct schema objects with equal contents get separate entries and validators. */
  method CompileEqualContents(c: AjvCache, s1: Schema, s2: Schema) returns (v1: Validator, v2: Validator)
    requires c.Valid()
    requires s1 != s2 && s1.body == s2.body
    requires s1 !in c.cache && s2 !in c.cache
    modifies c, c.ajv
    ensures v1 != v2 && v1.schema == s1 && v2.schema == s2
    ensures c.cache == old(c.cache)[s1 := v1][s2 := v2]
    ensures c.ajv.compiled == old(c.ajv.compiled) + [s1, s2]
  {
    v1 := c.Compile(s1);
    v2 := c.Compile(s2);
  }
}
