/**
 * src/interfaces/declarated.interface.ts: the meta-schemas a declared protocol document
 * (protocol.json) is checked against. Each constant is the schema as written; each
 * `Is...` predicate says in plain terms which values it accepts, and a `...Meaning` lemma
 * proves the two agree on every value.
 */
module DeclaratedInterface {
  import opened Js
  import opened JsonSchema
  import opened Wrappers

  /** `{ type: 'array', items: { type: 'string' } }`. */
  const StringArray: Schema := ArrayOf(Typed(TString))

  /** `Service.properties.transports`: an array of `'amqp'`. */
  const Transports: Schema := ArrayOf(Typed(TString).(enumValues := Some([Str("amqp")])))

  /** One entry of `Service.properties.actions`: a string, or an object naming three strings. */
  const ActionEntry: Schema := EmptySchema.(anyOf := [
    Typed(TString),
    OpenRecord(
      [("input", Typed(TString)), ("output", Typed(TString)), ("execute", Typed(TString))],
      ["input", "output", "execute"])
  ])

  const Service: Schema := Record(
    [("version", Typed(TNumber)), ("transports", Transports), ("actions", Dictionary(ActionEntry))],
    ["version", "transports", "actions"])

  const ServiceAction: Schema := Record(
    [("input", Typed(TObject)), ("output", Typed(TObject)), ("execute", EmptySchema.(isFunction := Bool(true)))],
    ["input", "output", "execute"])

  const Services: Schema := Dictionary(Service)

  const HTTPServiceAction: Schema := Record(
    [ ("headers", NullableTyped(TObject)), ("input", Typed(TObject)), ("output", Typed(TObject))
    , ("execute", EmptySchema.(isFunction := Bool(true)))],
    ["input", "output", "execute"])

  const HTTPRoute: Schema := Record(
    [ ("middlewares", StringArray.(nullable := true)), ("path", Typed(TString))
    , ("aliases", Dictionary(StringArray))],
    ["path", "aliases"])

  const Gateway: Schema := Record(
    [("middlewares", StringArray.(nullable := true)), ("routes", ArrayOf(HTTPRoute))],
    ["routes"])

  const CronJob: Schema := Record(
    [ ("name", Typed(TString)), ("pattern", Typed(TString)), ("execute", Typed(TString))
    , ("executeOnComplete", NullableTyped(TString)), ("disabled", NullableTyped(TBoolean))],
    ["name", "pattern", "execute"])

  const Cron: Schema := Record(
    [("timezone", NullableTyped(TString)), ("jobs", ArrayOf(CronJob)), ("disabled", NullableTyped(TBoolean))],
    ["jobs"])

  const Protocol: Schema := Record(
    [ ("services", Services.(nullable := true)), ("gateway", Gateway.(nullable := true))
    , ("cron", Cron.(nullable := true))],
    [])

  // Reference predicates, stated directly on values.

  predicate IsStringArray(v: Value)
  {
    v.Arr? && forall j :: 0 <= j < |v.elems| ==> v.elems[j].Str?
  }

  predicate IsTransports(v: Value)
  {
    v.Arr? && forall j :: 0 <= j < |v.elems| ==> v.elems[j] == Str("amqp")
  }

  predicate IsActionEntry(v: Value)
  {
    || v.Str?
    || (IsObject(v) && Prop(v, "input").Str? && Prop(v, "output").Str? && Prop(v, "execute").Str?)
  }

  predicate IsActionEntries(v: Value)
  {
    IsObject(v) && forall k :: k in Props(v) ==> IsActionEntry(Props(v)[k])
  }

  predicate IsService(v: Value)
  {
    && IsObject(v)
    && Props(v).Keys <= {"version", "transports", "actions"}
    && Prop(v, "version").Num?
    && IsTransports(Prop(v, "transports"))
    && IsActionEntries(Prop(v, "actions"))
  }

  predicate IsServiceAction(v: Value)
  {
    && IsObject(v)
    && Props(v).Keys <= {"input", "output", "execute"}
    && IsObject(Prop(v, "input"))
    && IsObject(Prop(v, "output"))
    && Prop(v, "execute").Func?
  }

  predicate IsServices(v: Value)
  {
    IsObject(v) && forall k :: k in Props(v) ==> IsService(Props(v)[k])
  }

  predicate IsHTTPServiceAction(v: Value)
  {
    && IsObject(v)
    && Props(v).Keys <= {"headers", "input", "output", "execute"}
    && (IsNullish(Prop(v, "headers")) || IsObject(Prop(v, "headers")))
    && IsObject(Prop(v, "input"))
    && IsObject(Prop(v, "output"))
    && Prop(v, "execute").Func?
  }

  predicate IsAliases(v: Value)
  {
    IsObject(v) && forall k :: k in Props(v) ==> IsStringArray(Props(v)[k])
  }

  predicate IsHTTPRoute(v: Value)
  {
    && IsObject(v)
    && Props(v).Keys <= {"middlewares", "path", "aliases"}
    && (IsNullish(Prop(v, "middlewares")) || IsStringArray(Prop(v, "middlewares")))
    && Prop(v, "path").Str?
    && IsAliases(Prop(v, "aliases"))
  }

  predicate IsHTTPRoutes(v: Value)
  {
    v.Arr? && forall j :: 0 <= j < |v.elems| ==> IsHTTPRoute(v.elems[j])
  }

  predicate IsGateway(v: Value)
  {
    && IsObject(v)
    && Props(v).Keys <= {"middlewares", "routes"}
    && (IsNullish(Prop(v, "middlewares")) || IsStringArray(Prop(v, "middlewares")))
    && IsHTTPRoutes(Prop(v, "routes"))
  }

  predicate IsCronJob(v: Value)
  {
    && IsObject(v)
    && Props(v).Keys <= {"name", "pattern", "execute", "executeOnComplete", "disabled"}
    && Prop(v, "name").Str?
    && Prop(v, "pattern").Str?
    && Prop(v, "execute").Str?
    && (IsNullish(Prop(v, "executeOnComplete")) || Prop(v, "executeOnComplete").Str?)
    && (IsNullish(Prop(v, "disabled")) || Prop(v, "disabled").Bool?)
  }

  predicate IsCronJobs(v: Value)
  {
    v.Arr? && forall j :: 0 <= j < |v.elems| ==> IsCronJob(v.elems[j])
  }

  predicate IsCron(v: Value)
  {
    && IsObject(v)
    && Props(v).Keys <= {"timezone", "jobs", "disabled"}
    && (IsNullish(Prop(v, "timezone")) || Prop(v, "timezone").Str?)
    && (IsNullish(Prop(v, "disabled")) || Prop(v, "disabled").Bool?)
    && IsCronJobs(Prop(v, "jobs"))
  }

  predicate IsProtocol(v: Value)
  {
    && IsObject(v)
    && Props(v).Keys <= {"services", "gateway", "cron"}
    && (IsNullish(Prop(v, "services")) || IsServices(Prop(v, "services")))
    && (IsNullish(Prop(v, "gateway")) || IsGateway(Prop(v, "gateway")))
    && (IsNullish(Prop(v, "cron")) || IsCron(Prop(v, "cron")))
  }

  // The schemas accept exactly what the predicates describe. Each record schema is handled
  // in two steps: what its `properties` ask of each present key, then the whole record.

  lemma StringArrayMeaning(v: Value)
    ensures Valid(StringArray, v) <==> IsStringArray(v)
  {
    ValidArrayOf(Typed(TString), v);
    if v.Arr? {
      forall j | 0 <= j < |v.elems| {
        ValidTyped(TString, v.elems[j]);
      }
    }
  }

  lemma NullableStringArrayMeaning(v: Value)
    ensures Valid(StringArray.(nullable := true), v) <==> v.Null? || IsStringArray(v)
  {
    StringArrayMeaning(v);
  }

  lemma TransportsMeaning(v: Value)
    ensures Valid(Transports, v) <==> IsTransports(v)
  {
    var amqp := Typed(TString).(enumValues := Some([Str("amqp")]));
    ValidArrayOf(amqp, v);
    if v.Arr? {
      forall j | 0 <= j < |v.elems|
        ensures Valid(amqp, v.elems[j]) <==> v.elems[j] == Str("amqp")
      {
        if v.elems[j] == Str("amqp") {
          assert HasType(amqp.types[0], v.elems[j]);
        }
      }
    }
  }

  lemma ActionEntryFields(v: Value)
    ensures (FieldOk(("input", Typed(TString)), v) && FieldOk(("output", Typed(TString)), v)
             && FieldOk(("execute", Typed(TString)), v)) <==>
      && (Has(v, "input") ==> Prop(v, "input").Str?)
      && (Has(v, "output") ==> Prop(v, "output").Str?)
      && (Has(v, "execute") ==> Prop(v, "execute").Str?)
  {
    FieldTyped("input", TString, v);
    FieldTyped("output", TString, v);
    FieldTyped("execute", TString, v);
  }

  lemma ActionEntryMeaning(v: Value)
    ensures Valid(ActionEntry, v) <==> IsActionEntry(v)
  {
    var obj := ActionEntry.anyOf[1];
    ValidTyped(TString, v);
    OpenRecord3(obj, ("input", Typed(TString)), ("output", Typed(TString)), ("execute", Typed(TString)),
      ["input", "output", "execute"], v);
    Required3("input", "output", "execute", v);
    ActionEntryFields(v);
    if IsActionEntry(v) {
      if v.Str? {
        assert Valid(ActionEntry.anyOf[0], v);
      } else {
        assert Valid(ActionEntry.anyOf[1], v);
      }
    }
  }

  lemma ActionEntriesMeaning(v: Value)
    ensures Valid(Dictionary(ActionEntry), v) <==> IsActionEntries(v)
  {
    ValidDictionary(ActionEntry, v);
    if IsObject(v) {
      forall k | k in Props(v) {
        ActionEntryMeaning(Props(v)[k]);
      }
    }
  }

  lemma ServiceFields(v: Value)
    ensures (FieldOk(("version", Typed(TNumber)), v) && FieldOk(("transports", Transports), v)
             && FieldOk(("actions", Dictionary(ActionEntry)), v)) <==>
      && (Has(v, "version") ==> Prop(v, "version").Num?)
      && (Has(v, "transports") ==> IsTransports(Prop(v, "transports")))
      && (Has(v, "actions") ==> IsActionEntries(Prop(v, "actions")))
  {
    FieldTyped("version", TNumber, v);
    TransportsMeaning(Prop(v, "transports"));
    ActionEntriesMeaning(Prop(v, "actions"));
  }

  lemma ServiceMeaning(v: Value)
    ensures Valid(Service, v) <==> IsService(v)
  {
    Record3(Service, ("version", Typed(TNumber)), ("transports", Transports), ("actions", Dictionary(ActionEntry)),
      ["version", "transports", "actions"], v);
    Required3("version", "transports", "actions", v);
    ServiceFields(v);
  }

  lemma ServiceActionFields(v: Value)
    ensures (FieldOk(("input", Typed(TObject)), v) && FieldOk(("output", Typed(TObject)), v)
             && FieldOk(("execute", EmptySchema.(isFunction := Bool(true))), v)) <==>
      && (Has(v, "input") ==> IsObject(Prop(v, "input")))
      && (Has(v, "output") ==> IsObject(Prop(v, "output")))
      && (Has(v, "execute") ==> Prop(v, "execute").Func?)
  {
    FieldTyped("input", TObject, v);
    FieldTyped("output", TObject, v);
  }

  lemma ServiceActionMeaning(v: Value)
    ensures Valid(ServiceAction, v) <==> IsServiceAction(v)
  {
    Record3(ServiceAction, ("input", Typed(TObject)), ("output", Typed(TObject)),
      ("execute", EmptySchema.(isFunction := Bool(true))), ["input", "output", "execute"], v);
    Required3("input", "output", "execute", v);
    ServiceActionFields(v);
  }

  lemma ServicesMeaning(v: Value)
    ensures Valid(Services, v) <==> IsServices(v)
  {
    ValidDictionary(Service, v);
    if IsObject(v) {
      forall k | k in Props(v) {
        ServiceMeaning(Props(v)[k]);
      }
    }
  }

  lemma HTTPServiceActionFields(v: Value)
    ensures (FieldOk(("headers", NullableTyped(TObject)), v) && FieldOk(("input", Typed(TObject)), v)
             && FieldOk(("output", Typed(TObject)), v)
             && FieldOk(("execute", EmptySchema.(isFunction := Bool(true))), v)) <==>
      && (Has(v, "headers") ==> IsObject(Prop(v, "headers")) || Prop(v, "headers").Null?)
      && (Has(v, "input") ==> IsObject(Prop(v, "input")))
      && (Has(v, "output") ==> IsObject(Prop(v, "output")))
      && (Has(v, "execute") ==> Prop(v, "execute").Func?)
  {
    FieldNullableTyped("headers", TObject, v);
    FieldTyped("input", TObject, v);
    FieldTyped("output", TObject, v);
  }

  lemma HTTPServiceActionMeaning(v: Value)
    ensures Valid(HTTPServiceAction, v) <==> IsHTTPServiceAction(v)
  {
    Record4(HTTPServiceAction, ("headers", NullableTyped(TObject)), ("input", Typed(TObject)),
      ("output", Typed(TObject)), ("execute", EmptySchema.(isFunction := Bool(true))),
      ["input", "output", "execute"], v);
    Required3("input", "output", "execute", v);
    HTTPServiceActionFields(v);
  }

  lemma AliasesMeaning(v: Value)
    ensures Valid(Dictionary(StringArray), v) <==> IsAliases(v)
  {
    ValidDictionary(StringArray, v);
    if IsObject(v) {
      forall k | k in Props(v) {
        StringArrayMeaning(Props(v)[k]);
      }
    }
  }

  lemma HTTPRouteFields(v: Value)
    ensures (FieldOk(("middlewares", StringArray.(nullable := true)), v) && FieldOk(("path", Typed(TString)), v)
             && FieldOk(("aliases", Dictionary(StringArray)), v)) <==>
      && (Has(v, "middlewares") ==> Prop(v, "middlewares").Null? || IsStringArray(Prop(v, "middlewares")))
      && (Has(v, "path") ==> Prop(v, "path").Str?)
      && (Has(v, "aliases") ==> IsAliases(Prop(v, "aliases")))
  {
    NullableStringArrayMeaning(Prop(v, "middlewares"));
    FieldTyped("path", TString, v);
    AliasesMeaning(Prop(v, "aliases"));
  }

  lemma HTTPRouteMeaning(v: Value)
    ensures Valid(HTTPRoute, v) <==> IsHTTPRoute(v)
  {
    Record3(HTTPRoute, ("middlewares", StringArray.(nullable := true)), ("path", Typed(TString)),
      ("aliases", Dictionary(StringArray)), ["path", "aliases"], v);
    Required2("path", "aliases", v);
    HTTPRouteFields(v);
  }

  lemma HTTPRoutesMeaning(v: Value)
    ensures Valid(ArrayOf(HTTPRoute), v) <==> IsHTTPRoutes(v)
  {
    ValidArrayOf(HTTPRoute, v);
    if v.Arr? {
      forall j | 0 <= j < |v.elems| {
        HTTPRouteMeaning(v.elems[j]);
      }
    }
  }

  lemma GatewayMeaning(v: Value)
    ensures Valid(Gateway, v) <==> IsGateway(v)
  {
    Record2(Gateway, ("middlewares", StringArray.(nullable := true)), ("routes", ArrayOf(HTTPRoute)), ["routes"], v);
    Required1("routes", v);
    NullableStringArrayMeaning(Prop(v, "middlewares"));
    HTTPRoutesMeaning(Prop(v, "routes"));
  }

  lemma CronJobFields(v: Value)
    ensures (FieldOk(("name", Typed(TString)), v) && FieldOk(("pattern", Typed(TString)), v)
             && FieldOk(("execute", Typed(TString)), v) && FieldOk(("executeOnComplete", NullableTyped(TString)), v)
             && FieldOk(("disabled", NullableTyped(TBoolean)), v)) <==>
      && (Has(v, "name") ==> Prop(v, "name").Str?)
      && (Has(v, "pattern") ==> Prop(v, "pattern").Str?)
      && (Has(v, "execute") ==> Prop(v, "execute").Str?)
      && (Has(v, "executeOnComplete") ==> Prop(v, "executeOnComplete").Str? || Prop(v, "executeOnComplete").Null?)
      && (Has(v, "disabled") ==> Prop(v, "disabled").Bool? || Prop(v, "disabled").Null?)
  {
    FieldTyped("name", TString, v);
    FieldTyped("pattern", TString, v);
    FieldTyped("execute", TString, v);
    FieldNullableTyped("executeOnComplete", TString, v);
    FieldNullableTyped("disabled", TBoolean, v);
  }

  lemma CronJobMeaning(v: Value)
    ensures Valid(CronJob, v) <==> IsCronJob(v)
  {
    Record5(CronJob, ("name", Typed(TString)), ("pattern", Typed(TString)), ("execute", Typed(TString)),
      ("executeOnComplete", NullableTyped(TString)), ("disabled", NullableTyped(TBoolean)),
      ["name", "pattern", "execute"], v);
    Required3("name", "pattern", "execute", v);
    CronJobFields(v);
  }

  lemma CronJobsMeaning(v: Value)
    ensures Valid(ArrayOf(CronJob), v) <==> IsCronJobs(v)
  {
    ValidArrayOf(CronJob, v);
    if v.Arr? {
      forall j | 0 <= j < |v.elems| {
        CronJobMeaning(v.elems[j]);
      }
    }
  }

  lemma CronFields(v: Value)
    ensures (FieldOk(("timezone", NullableTyped(TString)), v) && FieldOk(("jobs", ArrayOf(CronJob)), v)
             && FieldOk(("disabled", NullableTyped(TBoolean)), v)) <==>
      && (Has(v, "timezone") ==> Prop(v, "timezone").Str? || Prop(v, "timezone").Null?)
      && (Has(v, "jobs") ==> IsCronJobs(Prop(v, "jobs")))
      && (Has(v, "disabled") ==> Prop(v, "disabled").Bool? || Prop(v, "disabled").Null?)
  {
    FieldNullableTyped("timezone", TString, v);
    CronJobsMeaning(Prop(v, "jobs"));
    FieldNullableTyped("disabled", TBoolean, v);
  }

  lemma CronMeaning(v: Value)
    ensures Valid(Cron, v) <==> IsCron(v)
  {
    Record3(Cron, ("timezone", NullableTyped(TString)), ("jobs", ArrayOf(CronJob)), ("disabled", NullableTyped(TBoolean)),
      ["jobs"], v);
    Required1("jobs", v);
    CronFields(v);
  }

  lemma ProtocolFields(v: Value)
    ensures (FieldOk(("services", Services.(nullable := true)), v) && FieldOk(("gateway", Gateway.(nullable := true)), v)
             && FieldOk(("cron", Cron.(nullable := true)), v)) <==>
      && (Has(v, "services") ==> Prop(v, "services").Null? || IsServices(Prop(v, "services")))
      && (Has(v, "gateway") ==> Prop(v, "gateway").Null? || IsGateway(Prop(v, "gateway")))
      && (Has(v, "cron") ==> Prop(v, "cron").Null? || IsCron(Prop(v, "cron")))
  {
    FieldNullable("services", Services, v);
    ServicesMeaning(Prop(v, "services"));
    FieldNullable("gateway", Gateway, v);
    GatewayMeaning(Prop(v, "gateway"));
    FieldNullable("cron", Cron, v);
    CronMeaning(Prop(v, "cron"));
  }

  lemma ProtocolMeaning(v: Value)
    ensures Valid(Protocol, v) <==> IsProtocol(v)
  {
    Record3(Protocol, ("services", Services.(nullable := true)), ("gateway", Gateway.(nullable := true)),
      ("cron", Cron.(nullable := true)), [], v);
    ProtocolFields(v);
  }
}
