/**
 * src/interfaces/implemented.interface.ts: the meta-schemas of the implemented protocol the
 * binder produces, where `execute` and middleware entries are functions rather than path
 * strings. As for the declared protocol, each constant is paired with a plain predicate
 * and a lemma proving that the two accept the same values.
 */
module ImplementedInterface {
  import opened Js
  import opened JsonSchema

  /** `{ type: 'array', items: {} }`. */
  const AnyArray: Schema := ArrayOf(EmptySchema)

  const ServiceActionSchema: Schema := Record(
    [("input", Typed(TObject)), ("output", Typed(TObject)), ("execute", EmptySchema)],
    ["input", "output", "execute"])

  const ServiceActionsSchema: Schema := Dictionary(ServiceActionSchema)

  const ServiceSchema: Schema := Record(
    [("version", Typed(TNumber)), ("actions", ServiceActionsSchema)],
    ["version", "actions"])

  const ServicesSchema: Schema := Dictionary(ServiceSchema)

  /** `HTTPRouteSchema.properties.aliases`: all values strings, or all values arrays. */
  const AliasesSchema: Schema := EmptySchema.(oneOf := [Dictionary(Typed(TString)), Dictionary(AnyArray)])

  const HTTPRouteSchema: Schema := Record(
    [("middlewares", AnyArray.(nullable := true)), ("path", Typed(TString)), ("aliases", AliasesSchema)],
    ["path", "aliases"])

  const CronJobSchema: Schema := Record(
    [ ("name", Typed(TString)), ("pattern", Typed(TString)), ("execute", EmptySchema)
    , ("executeOnComplete", EmptySchema.(nullable := true)), ("disabled", NullableTyped(TBoolean))],
    ["name", "pattern", "execute"])

  const CronSchema: Schema := Record(
    [("timezone", NullableTyped(TString)), ("disabled", NullableTyped(TBoolean)), ("jobs", ArrayOf(CronJobSchema))],
    ["jobs"])

  /** `ProtocolSchema.properties.gateway` without its `nullable`. */
  const GatewaySchema: Schema := Record(
    [("middlewares", AnyArray), ("routes", ArrayOf(HTTPRouteSchema))],
    ["middlewares", "routes"])

  const ProtocolSchema: Schema := Record(
    [ ("services", ServicesSchema.(nullable := true)), ("gateway", GatewaySchema.(nullable := true))
    , ("cron", CronSchema.(nullable := true))],
    [])

  // Reference predicates, stated directly on values.

  predicate IsServiceAction(v: Value)
  {
    && IsObject(v)
    && Props(v).Keys <= {"input", "output", "execute"}
    && IsObject(Prop(v, "input"))
    && IsObject(Prop(v, "output"))
    && Has(v, "execute")
  }

  predicate IsServiceActions(v: Value)
  {
    IsObject(v) && forall k :: k in Props(v) ==> IsServiceAction(Props(v)[k])
  }

  predicate IsService(v: Value)
  {
    && IsObject(v)
    && Props(v).Keys <= {"version", "actions"}
    && Prop(v, "version").Num?
    && IsServiceActions(Prop(v, "actions"))
  }

  predicate IsServices(v: Value)
  {
    IsObject(v) && forall k :: k in Props(v) ==> IsService(Props(v)[k])
  }

  predicate AllStringValues(v: Value)
  {
    forall k :: k in Props(v) ==> Props(v)[k].Str?
  }

  predicate AllArrayValues(v: Value)
  {
    forall k :: k in Props(v) ==> Props(v)[k].Arr?
  }

  /** An object that is all-strings or all-arrays, but not both. */
  predicate IsAliases(v: Value)
  {
    IsObject(v) && AllStringValues(v) != AllArrayValues(v)
  }

  predicate IsHTTPRoute(v: Value)
  {
    && IsObject(v)
    && Props(v).Keys <= {"middlewares", "path", "aliases"}
    && (IsNullish(Prop(v, "middlewares")) || Prop(v, "middlewares").Arr?)
    && Prop(v, "path").Str?
    && IsAliases(Prop(v, "aliases"))
  }

  predicate IsHTTPRoutes(v: Value)
  {
    v.Arr? && forall j :: 0 <= j < |v.elems| ==> IsHTTPRoute(v.elems[j])
  }

  predicate IsCronJob(v: Value)
  {
    && IsObject(v)
    && Props(v).Keys <= {"name", "pattern", "execute", "executeOnComplete", "disabled"}
    && Prop(v, "name").Str?
    && Prop(v, "pattern").Str?
    && Has(v, "execute")
    && (IsNullish(Prop(v, "disabled")) || Prop(v, "disabled").Bool?)
  }

  predicate IsCronJobs(v: Value)
  {
    v.Arr? && forall j :: 0 <= j < |v.elems| ==> IsCronJob(v.elems[j])
  }

  predicate IsCron(v: Value)
  {
    && IsObject(v)
    && Props(v).Keys <= {"timezone", "disabled", "jobs"}
    && (IsNullish(Prop(v, "timezone")) || Prop(v, "timezone").Str?)
    && (IsNullish(Prop(v, "disabled")) || Prop(v, "disabled").Bool?)
    && IsCronJobs(Prop(v, "jobs"))
  }

  predicate IsGateway(v: Value)
  {
    && IsObject(v)
    && Props(v).Keys <= {"middlewares", "routes"}
    && Prop(v, "middlewares").Arr?
    && IsHTTPRoutes(Prop(v, "routes"))
  }

  predicate IsProtocol(v: Value)
  {
    && IsObject(v)
    && Props(v).Keys <= {"services", "gateway", "cron"}
    && (IsNullish(Prop(v, "services")) || IsServices(Prop(v, "services")))
    && (IsNullish(Prop(v, "gateway")) || IsGateway(Prop(v, "gateway")))
    && (IsNullish(Prop(v, "cron")) || IsCron(Prop(v, "cron")))
  }

  // The schemas accept exactly what the predicates describe.

  lemma ServiceActionFields(v: Value)
    ensures (FieldOk(("input", Typed(TObject)), v) && FieldOk(("output", Typed(TObject)), v)
             && FieldOk(("execute", EmptySchema), v)) <==>
      && (Has(v, "input") ==> IsObject(Prop(v, "input")))
      && (Has(v, "output") ==> IsObject(Prop(v, "output")))
  {
    FieldTyped("input", TObject, v);
    FieldTyped("output", TObject, v);
    ValidEmpty(Prop(v, "execute"));
  }

  lemma ServiceActionMeaning(v: Value)
    ensures Valid(ServiceActionSchema, v) <==> IsServiceAction(v)
  {
    Record3(ServiceActionSchema, ("input", Typed(TObject)), ("output", Typed(TObject)), ("execute", EmptySchema),
      ["input", "output", "execute"], v);
    Required3("input", "output", "execute", v);
    ServiceActionFields(v);
  }

  lemma ServiceActionsMeaning(v: Value)
    ensures Valid(ServiceActionsSchema, v) <==> IsServiceActions(v)
  {
    ValidDictionary(ServiceActionSchema, v);
    if IsObject(v) {
      forall k | k in Props(v) {
        ServiceActionMeaning(Props(v)[k]);
      }
    }
  }

  lemma ServiceMeaning(v: Value)
    ensures Valid(ServiceSchema, v) <==> IsService(v)
  {
    Record2(ServiceSchema, ("version", Typed(TNumber)), ("actions", ServiceActionsSchema), ["version", "actions"], v);
    Required2("version", "actions", v);
    FieldTyped("version", TNumber, v);
    ServiceActionsMeaning(Prop(v, "actions"));
  }

  /** Unlike a declared service, an implemented service may not carry `transports`. */
  lemma ServiceRejectsTransports(v: Value)
    requires "transports" in Props(v)
    ensures !Valid(ServiceSchema, v)
  {
    ServiceMeaning(v);
  }

  lemma ServicesMeaning(v: Value)
    ensures Valid(ServicesSchema, v) <==> IsServices(v)
  {
    ValidDictionary(ServiceSchema, v);
    if IsObject(v) {
      forall k | k in Props(v) {
        ServiceMeaning(Props(v)[k]);
      }
    }
  }

  lemma StringValuesMeaning(v: Value)
    ensures Valid(Dictionary(Typed(TString)), v) <==> IsObject(v) && AllStringValues(v)
  {
    ValidDictionary(Typed(TString), v);
    if IsObject(v) {
      forall k | k in Props(v) {
        ValidTyped(TString, Props(v)[k]);
      }
    }
  }

  lemma ArrayValuesMeaning(v: Value)
    ensures Valid(Dictionary(AnyArray), v) <==> IsObject(v) && AllArrayValues(v)
  {
    ValidDictionary(AnyArray, v);
    if IsObject(v) {
      forall k | k in Props(v) {
        ValidArrayOfAny(Props(v)[k]);
      }
    }
  }

  lemma AliasesMeaning(v: Value)
    ensures Valid(AliasesSchema, v) <==> IsAliases(v)
  {
    ValidOneOf2(Dictionary(Typed(TString)), Dictionary(AnyArray), v);
    StringValuesMeaning(v);
    ArrayValuesMeaning(v);
  }

  /** `{}` matches both alternatives of `oneOf`, so an empty aliases object is rejected. */
  lemma EmptyAliasesRejected(v: Value)
    requires IsObject(v) && Props(v) == map[]
    ensures !Valid(AliasesSchema, v)
  {
    AliasesMeaning(v);
  }

  /** For a non-empty object the two alternatives exclude each other. */
  lemma NonEmptyAliases(v: Value)
    requires IsObject(v) && Props(v) != map[]
    ensures Valid(AliasesSchema, v) <==> AllStringValues(v) || AllArrayValues(v)
  {
    AliasesMeaning(v);
    var k :| k in Props(v);
    if AllStringValues(v) {
      assert !Props(v)[k].Arr?;
    }
  }

  lemma HTTPRouteFields(v: Value)
    ensures (FieldOk(("middlewares", AnyArray.(nullable := true)), v) && FieldOk(("path", Typed(TString)), v)
             && FieldOk(("aliases", AliasesSchema), v)) <==>
      && (Has(v, "middlewares") ==> Prop(v, "middlewares").Null? || Prop(v, "middlewares").Arr?)
      && (Has(v, "path") ==> Prop(v, "path").Str?)
      && (Has(v, "aliases") ==> IsAliases(Prop(v, "aliases")))
  {
    ValidArrayOfAny(Prop(v, "middlewares"));
    FieldTyped("path", TString, v);
    AliasesMeaning(Prop(v, "aliases"));
  }

  lemma HTTPRouteMeaning(v: Value)
    ensures Valid(HTTPRouteSchema, v) <==> IsHTTPRoute(v)
  {
    Record3(HTTPRouteSchema, ("middlewares", AnyArray.(nullable := true)), ("path", Typed(TString)),
      ("aliases", AliasesSchema), ["path", "aliases"], v);
    Required2("path", "aliases", v);
    HTTPRouteFields(v);
  }

  lemma HTTPRoutesMeaning(v: Value)
    ensures Valid(ArrayOf(HTTPRouteSchema), v) <==> IsHTTPRoutes(v)
  {
    ValidArrayOf(HTTPRouteSchema, v);
    if v.Arr? {
      forall j | 0 <= j < |v.elems| {
        HTTPRouteMeaning(v.elems[j]);
      }
    }
  }

  lemma CronJobFields(v: Value)
    ensures (FieldOk(("name", Typed(TString)), v) && FieldOk(("pattern", Typed(TString)), v)
             && FieldOk(("execute", EmptySchema), v) && FieldOk(("executeOnComplete", EmptySchema.(nullable := true)), v)
             && FieldOk(("disabled", NullableTyped(TBoolean)), v)) <==>
      && (Has(v, "name") ==> Prop(v, "name").Str?)
      && (Has(v, "pattern") ==> Prop(v, "pattern").Str?)
      && (Has(v, "disabled") ==> Prop(v, "disabled").Bool? || Prop(v, "disabled").Null?)
  {
    FieldTyped("name", TString, v);
    FieldTyped("pattern", TString, v);
    ValidEmpty(Prop(v, "execute"));
    assert Valid(EmptySchema.(nullable := true), Prop(v, "executeOnComplete"));
    FieldNullableTyped("disabled", TBoolean, v);
  }

  lemma CronJobMeaning(v: Value)
    ensures Valid(CronJobSchema, v) <==> IsCronJob(v)
  {
    Record5(CronJobSchema, ("name", Typed(TString)), ("pattern", Typed(TString)), ("execute", EmptySchema),
      ("executeOnComplete", EmptySchema.(nullable := true)), ("disabled", NullableTyped(TBoolean)),
      ["name", "pattern", "execute"], v);
    Required3("name", "pattern", "execute", v);
    CronJobFields(v);
  }

  lemma CronJobsMeaning(v: Value)
    ensures Valid(ArrayOf(CronJobSchema), v) <==> IsCronJobs(v)
  {
    ValidArrayOf(CronJobSchema, v);
    if v.Arr? {
      forall j | 0 <= j < |v.elems| {
        CronJobMeaning(v.elems[j]);
      }
    }
  }

  lemma CronFields(v: Value)
    ensures (FieldOk(("timezone", NullableTyped(TString)), v) && FieldOk(("disabled", NullableTyped(TBoolean)), v)
             && FieldOk(("jobs", ArrayOf(CronJobSchema)), v)) <==>
      && (Has(v, "timezone") ==> Prop(v, "timezone").Str? || Prop(v, "timezone").Null?)
      && (Has(v, "disabled") ==> Prop(v, "disabled").Bool? || Prop(v, "disabled").Null?)
      && (Has(v, "jobs") ==> IsCronJobs(Prop(v, "jobs")))
  {
    FieldNullableTyped("timezone", TString, v);
    FieldNullableTyped("disabled", TBoolean, v);
    CronJobsMeaning(Prop(v, "jobs"));
  }

  lemma CronMeaning(v: Value)
    ensures Valid(CronSchema, v) <==> IsCron(v)
  {
    Record3(CronSchema, ("timezone", NullableTyped(TString)), ("disabled", NullableTyped(TBoolean)),
      ("jobs", ArrayOf(CronJobSchema)), ["jobs"], v);
    Required1("jobs", v);
    CronFields(v);
  }

  lemma GatewayMeaning(v: Value)
    ensures Valid(GatewaySchema, v) <==> IsGateway(v)
  {
    Record2(GatewaySchema, ("middlewares", AnyArray), ("routes", ArrayOf(HTTPRouteSchema)), ["middlewares", "routes"], v);
    Required2("middlewares", "routes", v);
    ValidArrayOfAny(Prop(v, "middlewares"));
    HTTPRoutesMeaning(Prop(v, "routes"));
  }

  lemma ProtocolFields(v: Value)
    ensures (FieldOk(("services", ServicesSchema.(nullable := true)), v)
             && FieldOk(("gateway", GatewaySchema.(nullable := true)), v)
             && FieldOk(("cron", CronSchema.(nullable := true)), v)) <==>
      && (Has(v, "services") ==> Prop(v, "services").Null? || IsServices(Prop(v, "services")))
      && (Has(v, "gateway") ==> Prop(v, "gateway").Null? || IsGateway(Prop(v, "gateway")))
      && (Has(v, "cron") ==> Prop(v, "cron").Null? || IsCron(Prop(v, "cron")))
  {
    FieldNullable("services", ServicesSchema, v);
    ServicesMeaning(Prop(v, "services"));
    FieldNullable("gateway", GatewaySchema, v);
    GatewayMeaning(Prop(v, "gateway"));
    FieldNullable("cron", CronSchema, v);
    CronMeaning(Prop(v, "cron"));
  }

  lemma ProtocolMeaning(v: Value)
    ensures Valid(ProtocolSchema, v) <==> IsProtocol(v)
  {
    Record3(ProtocolSchema, ("services", ServicesSchema.(nullable := true)), ("gateway", GatewaySchema.(nullable := true)),
      ("cron", CronSchema.(nullable := true)), [], v);
    ProtocolFields(v);
  }

  /** A gateway that is present and not null holds both `middlewares` and `routes` and nothing else. */
  lemma ProtocolGateway(v: Value)
    requires Valid(ProtocolSchema, v) && !IsNullish(Prop(v, "gateway"))
    ensures var g := Prop(v, "gateway");
      Has(g, "middlewares") && Has(g, "routes") && Props(g).Keys <= {"middlewares", "routes"}
  {
    ProtocolMeaning(v);
  }
}
