# dnip-devkit runner core, modelled in Dafny

This project models the start-up core of the dnip-devkit service runner:

- how the runner turns a declared protocol into the implemented protocol:
  - services and their actions;
  - gateway routes and middlewares;
  - cron jobs;
- the configuration it builds;
- the service dependencies and optional extensions it records;
- the JSON meta-schemas that describe declared and implemented protocols;
- the Ajv keywords and validator cache;
- the error taxonomy and its normaliser `createError`.

Modules, one per file:

- `Js` (js.dfy): the JavaScript values the source handles.
  - `undefined`, `null`, booleans, integers, strings, arrays, plain objects, functions and error objects.
  - Nullishness and truthiness.
  - `String.prototype.trim`.
  - Decimal rendering of integers, as a template literal prints them.
- `Wrappers` (wrappers.dfy): `Option` and `Result`.
- `Errors` (errors.dfy): `BaseError` and its eleven subclasses as functions from positional constructor arguments to error objects, and `createError`.
- `AjvModel` (ajv.dfy):
  - the `isFunction` and `isFunctionOrNull` keywords;
  - `AjvCache`, a class whose `cache` map from schema objects to validators its `Compile` method updates.
- `JsonSchema` (json_schema.dfy): a `Valid(schema, value)` interpreter for the Ajv keywords the meta-schemas use:
  - `type`, `nullable`, `properties`, `required`, `additionalProperties`, `items`, `enum`, `anyOf`, `oneOf`;
  - the two custom keywords.
- `DeclaratedInterface` (declarated.dfy) and `ImplementedInterface` (implemented.dfy): each meta-schema constant, written out as a schema. Each comes with a plain predicate on values and a lemma proving that the schema accepts exactly the values the predicate describes.
- `Binder` (binder.dfy): the binding step of `#implement` as pure functions over the declared protocol. The functions call an environment that stands for:
  - the implementation tree (`get`);
  - the schema registry;
  - the contract meta-schema.

  Lemmas state when binding succeeds, what each bound part holds, and which reference a failure names.
- `ConfigModel` (config.dfy): the `ConfigAdapter` class. Its constructor builds `values` step by step, as the source does, and is proved equal to the function `Configured`.
- `RunnerModel` (runner.dfy): the `Runner` class with the fields `config`, `dependencies`, `extensions` and `implemented`.
  - `LoadConfiguration` and `Implement` update those fields.
  - The loops of the source become `while` loops proved equal to the binder's specification functions.

Where the source and its surrounding documentation disagree, the model follows the source:

- A service action is `{contract, execute}`.
- Gateway routes are an object keyed by `"VERB url"`. Each value is a string (an alias of another action) or an object route.
- The alias check for an object route whose handler cannot be found is commented out. Such a route therefore always ends start-up.
- No version guard runs before binding.
- The declared-protocol meta-schema in src/interfaces/declarated.interface.ts describes gateway routes as an array of `{path, aliases}` objects. src/runner.ts reads them as an object keyed by route key. Each file is modelled as written.
- src/runner.ts calls `new ConfigAdapter(project, config, defaultConfig)`, but src/config.ts declares the parameters `(pkg, protocol)`. So the adapter's `protocol.gateway` test reads the `gateway` key of the project's configuration module. `Runner.LoadConfiguration` passes that module in the `protocol` position, and `ConfigAdapter` is modelled as declared.

A start-up error (`#err`, which prints and exits the process) is a `Failure` carrying a `BindError`, or `false` from `LoadConfiguration`.

## Model

| member | source | states |
|---|---|---|
| Errors.NewInstance | src/errors/base.error.ts:4-49 | A constructed error is a dnip-flagged BaseError instance named after its class. Its message is the given one or `''`. A falsy code becomes 500. Type and data are stored as given. |
| Errors.NewBaseError | src/errors/base.error.ts:37-49 | `new BaseError(message, code, type, data)`: the code defaults to 500 when falsy, and the other fields are kept. |
| Errors.NewValidationError | src/errors/validation.error.ts:4-12 | Code 422. The type defaults to `VALIDATION_ERROR` when nullish. Nullish data is dropped to `undefined`. |
| Errors.NewForbiddenError | src/errors/forbidden.error.ts:4-12 | Code 403. The type defaults to `FORBIDDEN` when nullish. Nullish data is dropped to `undefined`. |
| Errors.NewServerTemporarilyUnavailableError | src/errors/server-temporarily-unavailable.error.ts:3-11 | Code 503 and type `SERVICE_TEMPORARILY_UNAVAILABLE`. Nullish data becomes `undefined`. |
| Errors.NewBadConfigError | src/errors/bad-config.ts:3-12 | Code 500 and type `BAD_CONFIG`. Nullish data becomes `undefined`. |
| Errors.NewUnauthorizedError | src/errors/unauthorized.error.ts:4-12 | Code 401 and type `UNAUTHORIZED`. Nullish data becomes `undefined`. |
| Errors.NewBadResponseError | src/errors/bad-response.error.ts:4-12 | Code 500 and type `BAD_RESPONSE`. Nullish data becomes `undefined`. |
| Errors.NewBadRequestError | src/errors/bad-request.error.ts:4-12 | Code 400 and type `BAD_REQUEST`. Nullish data becomes `undefined`. |
| Errors.NewUnknownError | src/errors/unknown.error.ts:3-12 | Code 500 and type `UKNOWN`, spelled as in the source. Nullish data becomes `undefined`. |
| Errors.NewServerError | src/errors/server.error.ts:3-11 | Code 500 and type `SERVER_ERROR`. Nullish data becomes `undefined`. |
| Errors.NewHTTPClientError | src/errors/http.error.ts:3-11 | The caller's code, or 500 when falsy, with type `HTTP_CLIENT_ERROR`. Nullish data becomes `undefined`. |
| Errors.NewNotFoundError | src/errors/not-found.error.ts:3-7 | Code 404, type `NOT_FOUND`, no data. |
| Errors.NewDomainError | src/errors/domain.error.ts:3-8 | The message is prefixed with `[domain] `. The code is 475, overriding BaseError's 500. There is no type and no data. |
| Errors.ConstructNamed | src/errors/base.error.ts:37-49 | Calling a class's constructor with code, type and data passed by name gives a taxonomy error of that class. Each class reads only the parameters it declares (`ConstructNamedIgnores`). |
| Errors.ConstructNamedFields | src/errors/base.error.ts:37-49 | A class keeps the code it declares (or 500 when that code is falsy), and the type and data it declares when they are not null or undefined. |
| Errors.Construct | src/utils.ts:17-34 | `new C(message, ...args)` for a registered class: each positional argument lands in the parameter that class declares at that position. BaseError takes (code, type, data); Validation and Forbidden take (type, data); HTTPClient takes (code, data); NotFound and Domain take nothing; the rest take (data). The result is the named-parameter construction with those bindings, of class C. |
| Errors.RebuildArgs | src/utils.ts:25-34 | createError passes the longest prefix of (code, type, data) that holds no nullish value, and only that prefix. |
| Errors.CreateErrorAsWritten | src/utils.ts:3-35 | The source's behaviour on each input. A non-Error becomes an `UnknownError` wrapping `{err}`. A BaseError or dnip-flagged error is returned unchanged. An error of an unregistered class becomes an `UnknownError` with its message. A registered one becomes its class's constructor called positionally with the selected prefix of (code, type, data), so each value lands in whatever parameter the class declares at that position. The result is always the input or a taxonomy error. |
| Errors.Rebuild | src/utils.ts:25-34 | The corrected rebuild: code, type and data are handed to the registered class by parameter name, laid out in that class's own parameter order. The class keeps its own defaults for parameters it does not declare or that are absent. |
| Errors.CreateError | src/utils.ts:3-35 | createError with the corrected rebuild. Every other branch is unchanged, and the result is the input or a taxonomy error. |
| Errors.CreateErrorPreservesFields | src/utils.ts:23-34 | A rebuilt registered error is its class's constructor called by name with its message and with the code, type and data the source selects. A declared code is kept (500 when falsy); a declared type is kept when code and type are present; declared data is kept when all three are. Without a code it is exactly the source's message-only call. |
| Errors.CreateErrorAsWrittenBaseError | src/utils.ts:25-34 | For a registered BaseError the source's rebuild and the corrected one agree. |
| Errors.CreateErrorAgreesWithoutCode | src/utils.ts:31-34 | Without a code the source calls `new Instance(message)`, and the as-written and corrected rebuilds give the same error. |
| Errors.CreateErrorKeepsClassDefaults | src/utils.ts:25-34 | A rebuilt NotFoundError keeps code 404 and type `NOT_FOUND`; a rebuilt DomainError keeps code 475 and the `[domain] ` prefix, whatever code the thrown error carried. The two rebuilds agree on these classes. |
| Errors.CreateErrorIdempotent | src/utils.ts:8-13 | Normalising an already-normalised error returns it unchanged. This holds both as written and corrected. |
| Errors.CreateErrorAsWrittenLosesType | src/utils.ts:25-27 | Counterexample: a registered ValidationError with code 422, type `INVALID_EMAIL` and data `{}` is rebuilt with type 422 and data `INVALID_EMAIL`. The corrected rebuild keeps type and data. |
| AjvModel.KeywordsRelated | src/ajv.ts:6-22 | `isFunctionOrNull` accepts exactly what `isFunction` accepts plus nullish data. With a falsy keyword value both accept everything. With a truthy one, `isFunction` accepts exactly functions. |
| AjvModel.AjvCache.constructor | src/ajv.ts:25-26 | The cache starts empty, and every stored validator belongs to its key. |
| AjvModel.AjvCache.Compile | src/ajv.ts:28-35 | A cached schema object returns its stored validator with no compilation and no change. Otherwise Ajv compiles exactly once, and the new validator is stored under that schema and returned. Every entry stays keyed by its own schema. |
| AjvModel.CompileTwice | src/ajv.ts:28-35 | Compiling the same schema object twice returns the same validator and compiles at most once. |
| AjvModel.CompileEqualContents | src/ajv.ts:25-35 | The cache is keyed by object identity: two distinct schema objects with equal contents get two entries and two validators. |
| JsonSchema.ValidOneOf2 | src/interfaces/implemented.interface.ts:79-93 | A two-way `oneOf` accepts a value exactly when one alternative, and not both, accepts it. |
| JsonSchema.ValidNullable | src/interfaces/declarated.interface.ts:198-200 | An object schema spread with `nullable: true` accepts what the schema accepts, plus `null`. |
| Js.Trim | src/config.ts:35 | `trim()` removes exactly the leading and trailing ECMAScript whitespace: the result is the input after its whitespace prefix, only whitespace follows it, and it neither starts nor ends with whitespace. |
| Js.IntToDecimalInjective | src/runner.ts:233 | Distinct integer versions print as distinct decimal strings. |
| DeclaratedInterface.StringArrayMeaning | src/interfaces/declarated.interface.ts:116-119 | The string-array schema accepts exactly arrays of strings. |
| DeclaratedInterface.NullableStringArrayMeaning | src/interfaces/declarated.interface.ts:107-111 | The nullable string array accepts `null` or an array of strings. |
| DeclaratedInterface.TransportsMeaning | src/interfaces/declarated.interface.ts:28-31 | `transports` accepts exactly arrays whose every element is `'amqp'`. |
| DeclaratedInterface.ActionEntryMeaning | src/interfaces/declarated.interface.ts:32-49 | An action entry is a string, or an object with string `input`, `output` and `execute`. |
| DeclaratedInterface.ActionEntriesMeaning | src/interfaces/declarated.interface.ts:32-49 | `actions` is an object whose every value is an action entry. |
| DeclaratedInterface.ServiceMeaning | src/interfaces/declarated.interface.ts:24-55 | A declared service is an object with only `version` (a number), `transports` and `actions`, all required and each of its shape. |
| DeclaratedInterface.ServiceActionMeaning | src/interfaces/declarated.interface.ts:63-72 | A service action has only object `input` and `output` and a function `execute`, all required. |
| DeclaratedInterface.ServicesMeaning | src/interfaces/declarated.interface.ts:76-80 | `services` is an object whose every value is a declared service. |
| DeclaratedInterface.HTTPServiceActionMeaning | src/interfaces/declarated.interface.ts:86-96 | An HTTP action is a service action that may also have `headers`, either nullish or an object. |
| DeclaratedInterface.AliasesMeaning | src/interfaces/declarated.interface.ts:113-120 | `aliases` is an object whose every value is an array of strings. |
| DeclaratedInterface.HTTPRouteMeaning | src/interfaces/declarated.interface.ts:104-124 | A route has only `middlewares` (nullish or a string array), `path` (a string, required) and `aliases` (required). |
| DeclaratedInterface.HTTPRoutesMeaning | src/interfaces/declarated.interface.ts:139-142 | `routes` is an array of routes. |
| DeclaratedInterface.GatewayMeaning | src/interfaces/declarated.interface.ts:131-146 | A gateway has only optional `middlewares` and required `routes`. |
| DeclaratedInterface.CronJobMeaning | src/interfaces/declarated.interface.ts:156-167 | A job has only string `name`, `pattern` and `execute` (all required) and optional `executeOnComplete` (string) and `disabled` (boolean). |
| DeclaratedInterface.CronJobsMeaning | src/interfaces/declarated.interface.ts:179-182 | `jobs` is an array of jobs. |
| DeclaratedInterface.CronMeaning | src/interfaces/declarated.interface.ts:175-187 | A cron block has only optional `timezone` and `disabled` and required `jobs`. |
| DeclaratedInterface.ProtocolMeaning | src/interfaces/declarated.interface.ts:195-204 | A protocol has only `services`, `gateway` and `cron`. Each is optional and either null or of its shape. |
| ImplementedInterface.ServiceActionMeaning | src/interfaces/implemented.interface.ts:19-28 | An implemented action has only object `input` and `output` and a present `execute` of any type. |
| ImplementedInterface.ServiceActionsMeaning | src/interfaces/implemented.interface.ts:32-36 | `actions` is an object of implemented actions. |
| ImplementedInterface.ServiceMeaning | src/interfaces/implemented.interface.ts:44-52 | An implemented service has only a number `version` and its `actions`, both required. |
| ImplementedInterface.ServiceRejectsTransports | src/interfaces/implemented.interface.ts:44-52 | An implemented service that carries `transports`, as the runner builds it, is rejected by this schema. |
| ImplementedInterface.ServicesMeaning | src/interfaces/implemented.interface.ts:53-57 | `services` is an object of implemented services. |
| ImplementedInterface.StringValuesMeaning | src/interfaces/implemented.interface.ts:81-84 | The first `aliases` alternative accepts exactly objects whose values are all strings. |
| ImplementedInterface.ArrayValuesMeaning | src/interfaces/implemented.interface.ts:85-91 | The second `aliases` alternative accepts exactly objects whose values are all arrays. |
| ImplementedInterface.AliasesMeaning | src/interfaces/implemented.interface.ts:79-93 | `aliases` is all strings or all arrays, but not both. |
| ImplementedInterface.EmptyAliasesRejected | src/interfaces/implemented.interface.ts:79-93 | An empty `aliases` object matches both alternatives, so `oneOf` rejects it. |
| ImplementedInterface.NonEmptyAliases | src/interfaces/implemented.interface.ts:79-93 | A non-empty `aliases` object is accepted exactly when all its values are strings or all are arrays. |
| ImplementedInterface.HTTPRouteMeaning | src/interfaces/implemented.interface.ts:70-97 | A route has only `middlewares` (nullish or an array), a string `path` and valid `aliases`. |
| ImplementedInterface.HTTPRoutesMeaning | src/interfaces/implemented.interface.ts:160-163 | Gateway `routes` is an array of routes. |
| ImplementedInterface.CronJobMeaning | src/interfaces/implemented.interface.ts:107-118 | A job has only string `name` and `pattern`, a present `execute`, and optional `executeOnComplete` and `disabled` (boolean). |
| ImplementedInterface.CronJobsMeaning | src/interfaces/implemented.interface.ts:131-134 | `jobs` is an array of jobs. |
| ImplementedInterface.CronMeaning | src/interfaces/implemented.interface.ts:126-138 | A cron block has only optional `timezone` and `disabled` and required `jobs`. |
| ImplementedInterface.GatewayMeaning | src/interfaces/implemented.interface.ts:153-168 | A gateway has only `middlewares` (an array) and `routes`, both required. |
| ImplementedInterface.ProtocolMeaning | src/interfaces/implemented.interface.ts:149-173 | An implemented protocol has only `services`, `gateway` and `cron`. Each is optional and either null or of its shape. |
| ImplementedInterface.ProtocolGateway | src/interfaces/implemented.interface.ts:153-168 | A gateway inside a valid implemented protocol has both `middlewares` and `routes` and nothing else. |
| Binder.QualifiedNameInjective | src/runner.ts:233 | Two services get the same `<name>.v<version>` key only when both name and version are equal. |
| Binder.MatchMethod | src/runner.ts:302 | The matched verb is one of the candidates and prefixes the key, followed by whitespace. No verb means no candidate does. |
| Binder.SplitRouteKeyMeaning | src/runner.ts:302 | A route key yields a verb exactly when it starts with GET, POST, PUT, PATCH or DELETE followed by one whitespace character. The url is present exactly when the verb is. Verb, whitespace and url reassemble the key. |
| Binder.SplitRouteKeyInverse | src/runner.ts:302 | Joining a verb, a whitespace character and a url gives a key that splits back into that verb and url. |
| Binder.BindActionOutcome | src/runner.ts:240-253 | An action binds exactly when all of these hold: its contract is registered, the contract passes the contract meta-schema, its handler path resolves to a non-nullish value, and the contract has `properties`. The error reported follows that order. |
| Binder.BindActionFields | src/runner.ts:255-271 | A bound action has `x-meta` or `{}`, a headers validator exactly when the contract declares headers, and input and output validators from the contract's `$id`. It also has the resolved handler, its path, and no middlewares. |
| Binder.BindActionsMeaning | src/runner.ts:236-273 | A service's actions bind exactly when every non-`#` action binds. The result then has one entry per non-`#` action name, each the binding of that action. Otherwise the error is the error of a non-`#` action that failed. |
| Binder.BindServicesMeaning | src/runner.ts:226-284 | Services bind exactly when every non-`#` service binds. The result is keyed by `<name>.v<version>` for exactly the non-`#` services, each with its version, transports and bound actions. A failure names a failing non-`#` service. |
| Binder.ResolveMiddlewaresMeaning | src/runner.ts:287-293 | Middleware names resolve exactly when each one does, to the looked-up values in declaration order. Otherwise the first unresolved name is reported, with its route. |
| Binder.BindRouteMeaning | src/runner.ts:300-352 | A string route becomes an alias of its target. An object route binds exactly when its action binds and all its middlewares resolve. An unresolved handler always fails. A bound route carries the split verb and url, the handler, its path, and its middlewares in order (present exactly when declared). |
| Binder.AliasRoutesMeaning | src/runner.ts:303-309 | The synchronous pass collects one alias route per non-`#` string route, in declaration order, and never fails. |
| Binder.HandlerRoutesMeaning | src/runner.ts:311-353 | The pass after the awaits binds exactly the non-`#` object routes, in declaration order, each to a handler. It fails exactly when one of them does not bind, with that route's error. |
| Binder.BindRoutesMeaning | src/runner.ts:295-354 | Routes bind exactly when every non-`#` route does. The bound list then holds the binding of every non-`#` string route, in declaration order, followed by the binding of every non-`#` object route, in declaration order, and nothing else. A failure names a failing non-`#` object route; string routes never fail. |
| Binder.BindGatewayMiddlewares | src/runner.ts:356-359 | Gateway middlewares default to `[]`. Declared ones bind exactly when every name resolves. The bound routes are kept. |
| Binder.BindJobMeaning | src/runner.ts:366-391 | A job binds exactly when its handler resolves and, if it declares one, its completion handler resolves under its full path. Name, pattern and `disabled` are copied, and the completion handler is present exactly when declared. |
| Binder.BindJobAsWrittenMissesHandler | src/runner.ts:379-388 | Counterexample: with a handler registered under `cron.done`, the job binding as written looks up `c` and ends start-up. The corrected binding finds the handler. |
| Binder.BindJobAsWrittenAgrees | src/runner.ts:366-377 | For jobs without a completion handler the binding as written and the corrected binding coincide. |
| Binder.BindCronMeaning | src/runner.ts:362-393 | Cron binds exactly when every job binds. Timezone and `disabled` are copied, and jobs map one-to-one in order. A failure is the first failing job's error. |
| Binder.BindCronAsWrittenMeaning | src/runner.ts:362-393 | Cron as written binds exactly when every job binds as written, with the completion handler looked up by its path's first character. Timezone and `disabled` are copied and jobs map one-to-one in order. A failure is the first failing job's error. |
| Binder.BindCronAsWrittenAgrees | src/runner.ts:366-377 | When no job declares a completion handler, cron binds the same as written and corrected. |
| Binder.BindProtocolMeaning | src/runner.ts:222-394 | Binding succeeds exactly when each declared part (services, gateway, cron) binds. Each declared part is then replaced by its binding, and each undeclared part keeps its previous value. |
| Binder.DependenciesCoverServices | src/runner.ts:212-216 | There is one dependency per declared service. Every bound service key is a dependency, and a dependency is bound exactly when its service is not `#`-hidden. |
| ConfigModel.Configured | src/config.ts:12-38 | The configuration holds the package's name and version, `INFO`, the local AMQP URL, probe 5000 and an empty domain. It has an HTTP server on 0.0.0.0 exactly when a gateway is present, on `PORT` or 8080. The namespace is the trimmed namespace file, or `local`. |
| ConfigModel.ConfiguredOnlyOverrides | src/config.ts:12-22 | Apart from the namespace and the server block, the configuration depends only on the package. |
| Binder.BindProtocolAsWrittenMeaning | src/runner.ts:222-394 | The source's whole binding: it succeeds exactly when each declared part binds, cron as written. Each declared part is replaced by its binding and each undeclared part keeps its previous value. |
| Binder.BindProtocolAsWrittenAgrees | src/runner.ts:362-394 | When no cron job declares a completion handler, the binding as written and the corrected binding of a protocol are equal. |
| ConfigModel.ConfigAdapter.constructor | src/config.ts:8-39 | Applying the defaults, the server block and the namespace override in turn leaves `values` equal to `Configured`. |
| RunnerModel.ExtensionsMeaning | src/runner.ts:202-210 | An include is an extension exactly when one of its imports has a non-null default export. Its value is the last such export. |
| RunnerModel.CollectExtensions | src/runner.ts:202-210 | The reduce loop over the settled imports computes `ExtensionsOf`. |
| RunnerModel.Runner.LoadConfiguration | src/runner.ts:178-220 | A nullish project or configuration module throws before the configuration is stored: start-up ends and nothing changes. Otherwise the configuration is set. Start-up continues exactly when, in addition, the implementation factory is a function. Then `extensions` and `dependencies` (when services are declared) are recorded. Nothing is bound. |
| RunnerModel.Runner.Implement | src/runner.ts:222-394 | Succeeds exactly when `BindProtocol` does, and stores its result in `implemented`. On failure it reports the same error. The configuration, dependencies and extensions are unchanged. |
| RunnerModel.ImplementActions | src/runner.ts:236-273 | The loop over a service's actions computes `BindActions`. |
| RunnerModel.ImplementServices | src/runner.ts:229-283 | The loop over the services computes `BindServices`. |
| RunnerModel.ImplementRoutes | src/runner.ts:295-354 | The string routes, then the object routes, compute `BindRoutes`. |
| RunnerModel.ImplementAliasRoutes | src/runner.ts:298-310 | The loop over the route keys pushes every non-`#` string route, computing the string-route fold. |
| RunnerModel.ImplementHandlerRoutes | src/runner.ts:298-353 | The loop over the route keys binds every non-`#` object route, computing the object-route fold; the first that does not bind ends it. |

## Left out

- Module loading, the file system and the environment are inputs: imported modules, the `PORT` variable, and the namespace file read in src/config.ts:35. A failed import is `None`.
- `get` (src/runner.ts:396-402) delegates to a path resolver imported from `./utils.js` (src/runner.ts:19). src/utils.ts as modelled here defines only `createError`, so that resolver is not part of this model. It is the parameter `Env.lookup`, and path syntax is not modelled.
- Ajv is not modelled beyond the two custom keywords and `compile` as an opaque constructor.
  - `getSchema`, `compileAsync` and `$ref` resolution are left out.
  - A compiled validator is identified by its contract `$id` and property name.
  - The contract meta-schema (`contract.json`) is the parameter `Env.contractOk`.
  - Compilation failures are not modelled.
- Concurrency: the source binds services, actions and routes inside `Promise.all`.
  - The model binds them one after another in declaration order.
  - BindRoutesMeaning, Runner.Implement: the gateway's `routes` array holds the string routes first, in declaration order, because the source pushes them before any callback awaits. The object routes follow. Their order in the source depends on when each callback's `await`s finish; the model takes declaration order.
  - When several references fail, the source does not report them in declaration order. `#err` exits the process at once. A `#err` reached before a callback's first `await` therefore wins over an earlier action or route whose unregistered contract only rejected its promise with a TypeError (src/runner.ts:240-252, :311-350). It also wins over any failure found after an `await`, such as a route's middleware lookup (src/runner.ts:344). Only the order among failures found after an `await` depends on when the awaits finish. The model reports the first failure in declaration order, and a failure within one part always precedes the next part.
- `BindServices`: when two services share a `<name>.v<version>` key the source's concurrent writes keep one of them. The model keeps the later one.
- `#err` prints its arguments and exits the process. The model returns an error value, and the message text is not modelled.
- Numbers are integers. A fractional service version or port, and `parseInt` on a non-numeric `PORT` (which gives `NaN`), are not modelled.
- Strings are sequences of Unicode characters, not UTF-16 code units, so `s[0]` on a string starting with a surrogate pair is not modelled.
- BindCronMeaning, BindProtocolMeaning, Runner.Implement: these bind cron jobs with the corrected completion-handler lookup (the full path), not the source's first-character lookup; see the second finding. The source's behaviour is `BindCronAsWritten` and `BindProtocolAsWritten`, whose meaning lemmas state it, and `BindProtocolAsWrittenAgrees` shows the two bindings are equal whenever no job declares a completion handler.
- `BindJobAsWritten`: for an empty `executeOnComplete` string the source looks up `''[0]`, which is `undefined`. What the path resolver returns for that path is not part of this model. The model assumes it finds nothing, so the job fails.
- JsonSchema: `{nullable: true}` without a `type` is read as accepting anything; Ajv would refuse to compile it.
- Stack traces, the error `name`/`message` property descriptors and JavaScript's `instanceof` through the prototype chain are reduced to a class tag and a `dnip` flag.
- The error registry (`Errors[err.name]`) is a parameter of `createError`.
- The WeakMap in `AjvCache` is a map of object references. Garbage collection of unreachable keys is not modelled.
- The broker, the transport and HTTP adapters, service creation and the rest of the runner's lifecycle are outside this core.

## Findings

| source | as written | input that shows it | evidently intended | confidence | as-written member | corrected member |
|---|---|---|---|---|---|---|
| src/utils.ts:25-27 | A registered error is rebuilt with `new Instance(message, code, type, data)`, but most subclasses take `(msg, type, data)` or `(msg, data)` | A ValidationError with code 422, type `INVALID_EMAIL`, data `{}`: the rebuilt error has type 422 and data `INVALID_EMAIL` | Each of code, type and data reaches the parameter of that name, and the class keeps its own defaults for the rest | not executed | Errors.CreateErrorAsWrittenLosesType | Errors.CreateErrorPreservesFields |
| src/runner.ts:380-381 | The completion handler is looked up by `job.executeOnComplete[0]`, the first character of its path | A job with `executeOnComplete: 'cron.done'` and a handler at `cron.done`: the lookup of `c` fails and start-up ends | Look up the full path, as for `execute` | not executed | Binder.BindJobAsWrittenMissesHandler | Binder.BindJobMeaning |
