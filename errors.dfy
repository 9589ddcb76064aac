/**
 * The error taxonomy (src/errors) and the error normaliser `createError` (src/utils.ts).
 *
 * Every class extends `BaseError`; a constructor call is modelled as a function from its
 * positional arguments to the resulting error object. JavaScript passes arguments by
 * position, so `Construct` feeds a list of values to the class's own parameter list:
 * a missing argument is `undefined`.
 */
module Errors {
  import opened Js
  import opened Wrappers

  /** What every instance built by one of the taxonomy's constructors satisfies. */
  predicate IsTaxonomyError(e: ErrorObject)
  {
    && e.proto.BaseErrorInstance?
    && e.name == ClassName(e.proto.cls)
    && e.dnip == Bool(true)
    && Truthy(e.code)
  }

  /** `data != null ? data : undefined`: the value a subclass hands on as `data`. */
  function KeptData(data: Value): Value
  {
    if IsNullish(data) then Undefined else data
  }

  /**
   * `new BaseError(message, code, type, data)` run for an instance of class `cls`:
   * ExtendableError defaults the message to '' and names the error after its class;
   * BaseError sets `dnip`, replaces a falsy code with 500 and stores type and data as given.
   */
  function NewInstance(cls: ErrorClass, message: Option<string>, code: Value, errorType: Value, data: Value): (e: ErrorObject)
    ensures IsTaxonomyError(e) && e.proto == BaseErrorInstance(cls)
    ensures e.message == (if message.Some? then message.value else "")
    ensures Truthy(code) ==> e.code == code
    ensures !Truthy(code) ==> e.code == Num(500)
    ensures e.errorType == errorType && e.data == data
  {
    ErrorObject(
      BaseErrorInstance(cls),
      ClassName(cls),
      if message.Some? then message.value else "",
      if Truthy(code) then code else Num(500),
      errorType,
      data,
      Bool(true))
  }

  /** `new BaseError(message, code, type, data)`. */
  function NewBaseError(message: Option<string>, code: Value, errorType: Value, data: Value): (e: ErrorObject)
    ensures IsTaxonomyError(e) && e.proto.cls == BaseErrorClass && e.name == "BaseError"
    ensures e.code == (if Truthy(code) then code else Num(500))
    ensures e.errorType == errorType && e.data == data
    ensures e.message == (if message.Some? then message.value else "")
  {
    NewInstance(BaseErrorClass, message, code, errorType, data)
  }

  /** `new ValidationError(msg, type, data)`. */
  function NewValidationError(msg: Option<string>, errorType: Value, data: Value): (e: ErrorObject)
    ensures IsTaxonomyError(e) && e.proto.cls == Validation
    ensures e.code == Num(422)
    ensures e.errorType == (if IsNullish(errorType) then Str("VALIDATION_ERROR") else errorType)
    ensures e.data == KeptData(data)
    ensures e.message == (if msg.Some? then msg.value else "")
  {
    var t := if IsNullish(errorType) then Str("VALIDATION_ERROR") else errorType;
    if !IsNullish(data) then NewInstance(Validation, msg, Num(422), t, data)
    else NewInstance(Validation, msg, Num(422), t, Undefined)
  }

  /** `new ForbiddenError(msg, type, data)`. */
  function NewForbiddenError(msg: Option<string>, errorType: Value, data: Value): (e: ErrorObject)
    ensures IsTaxonomyError(e) && e.proto.cls == Forbidden
    ensures e.code == Num(403)
    ensures e.errorType == (if IsNullish(errorType) then Str("FORBIDDEN") else errorType)
    ensures e.data == KeptData(data)
    ensures e.message == (if msg.Some? then msg.value else "")
  {
    var t := if IsNullish(errorType) then Str("FORBIDDEN") else errorType;
    if !IsNullish(data) then NewInstance(Forbidden, msg, Num(403), t, data)
    else NewInstance(Forbidden, msg, Num(403), t, Undefined)
  }

  /** The shape shared by the subclasses whose code and type are fixed: `(msg, data?)`. */
  function NewFixed(cls: ErrorClass, code: int, errorType: string, msg: Option<string>, data: Value): (e: ErrorObject)
    requires code != 0
    ensures IsTaxonomyError(e) && e.proto.cls == cls
    ensures e.code == Num(code) && e.errorType == Str(errorType)
    ensures e.data == KeptData(data)
    ensures e.message == (if msg.Some? then msg.value else "")
  {
    if !IsNullish(data) then NewInstance(cls, msg, Num(code), Str(errorType), data)
    else NewInstance(cls, msg, Num(code), Str(errorType), Undefined)
  }

  /** `new ServerTemporarilyUnavailableError(message, data)`. */
  function NewServerTemporarilyUnavailableError(msg: Option<string>, data: Value): (e: ErrorObject)
    ensures IsTaxonomyError(e) && e.proto.cls == ServerTemporarilyUnavailable
    ensures e.code == Num(503) && e.errorType == Str("SERVICE_TEMPORARILY_UNAVAILABLE")
    ensures e.data == KeptData(data)
    ensures e.message == (if msg.Some? then msg.value else "")
  {
    NewFixed(ServerTemporarilyUnavailable, 503, "SERVICE_TEMPORARILY_UNAVAILABLE", msg, data)
  }

  /** `new BadConfigError(msg, data)`. */
  function NewBadConfigError(msg: Option<string>, data: Value): (e: ErrorObject)
    ensures IsTaxonomyError(e) && e.proto.cls == BadConfig
    ensures e.code == Num(500) && e.errorType == Str("BAD_CONFIG")
    ensures e.data == KeptData(data)
    ensures e.message == (if msg.Some? then msg.value else "")
  {
    NewFixed(BadConfig, 500, "BAD_CONFIG", msg, data)
  }

  /** `new UnauthorizedError(msg, data)`. */
  function NewUnauthorizedError(msg: Option<string>, data: Value): (e: ErrorObject)
    ensures IsTaxonomyError(e) && e.proto.cls == Unauthorized
    ensures e.code == Num(401) && e.errorType == Str("UNAUTHORIZED")
    ensures e.data == KeptData(data)
    ensures e.message == (if msg.Some? then msg.value else "")
  {
    NewFixed(Unauthorized, 401, "UNAUTHORIZED", msg, data)
  }

  /** `new BadResponseError(msg, data)`. */
  function NewBadResponseError(msg: Option<string>, data: Value): (e: ErrorObject)
    ensures IsTaxonomyError(e) && e.proto.cls == BadResponse
    ensures e.code == Num(500) && e.errorType == Str("BAD_RESPONSE")
    ensures e.data == KeptData(data)
    ensures e.message == (if msg.Some? then msg.value else "")
  {
    NewFixed(BadResponse, 500, "BAD_RESPONSE", msg, data)
  }

  /** `new BadRequestError(msg, data)`. */
  function NewBadRequestError(msg: Option<string>, data: Value): (e: ErrorObject)
    ensures IsTaxonomyError(e) && e.proto.cls == BadRequest
    ensures e.code == Num(400) && e.errorType == Str("BAD_REQUEST")
    ensures e.data == KeptData(data)
    ensures e.message == (if msg.Some? then msg.value else "")
  {
    NewFixed(BadRequest, 400, "BAD_REQUEST", msg, data)
  }

  /** `new UnknownError(msg, data)`; the type is spelled 'UKNOWN' in the source. */
  function NewUnknownError(msg: Option<string>, data: Value): (e: ErrorObject)
    ensures IsTaxonomyError(e) && e.proto.cls == Unknown
    ensures e.code == Num(500) && e.errorType == Str("UKNOWN")
    ensures e.data == KeptData(data)
    ensures e.message == (if msg.Some? then msg.value else "")
  {
    NewFixed(Unknown, 500, "UKNOWN", msg, data)
  }

  /** `new ServerError(message, data)`. */
  function NewServerError(msg: Option<string>, data: Value): (e: ErrorObject)
    ensures IsTaxonomyError(e) && e.proto.cls == Server
    ensures e.code == Num(500) && e.errorType == Str("SERVER_ERROR")
    ensures e.data == KeptData(data)
    ensures e.message == (if msg.Some? then msg.value else "")
  {
    NewFixed(Server, 500, "SERVER_ERROR", msg, data)
  }

  /** `new HTTPClientError(message, code, data)`: the caller's code, with BaseError's default. */
  function NewHTTPClientError(msg: Option<string>, code: Value, data: Value): (e: ErrorObject)
    ensures IsTaxonomyError(e) && e.proto.cls == HTTPClient
    ensures e.code == (if Truthy(code) then code else Num(500))
    ensures e.errorType == Str("HTTP_CLIENT_ERROR")
    ensures e.data == KeptData(data)
    ensures e.message == (if msg.Some? then msg.value else "")
  {
    if !IsNullish(data) then NewInstance(HTTPClient, msg, code, Str("HTTP_CLIENT_ERROR"), data)
    else NewInstance(HTTPClient, msg, code, Str("HTTP_CLIENT_ERROR"), Undefined)
  }

  /** `new NotFoundError(msg)`. */
  function NewNotFoundError(msg: Option<string>): (e: ErrorObject)
    ensures IsTaxonomyError(e) && e.proto.cls == NotFound
    ensures e.code == Num(404) && e.errorType == Str("NOT_FOUND") && e.data == Undefined
    ensures e.message == (if msg.Some? then msg.value else "")
  {
    NewInstance(NotFound, msg, Num(404), Str("NOT_FOUND"), Undefined)
  }

  /** `${message}` for the message argument of DomainError. */
  function MessageText(message: Option<string>): string
  {
    if message.Some? then message.value else "undefined"
  }

  /**
   * `new DomainError(message)`: BaseError's constructor runs first with the prefixed message
   * and sets code 500, which the subclass then overwrites.
   */
  function NewDomainError(message: Option<string>): (e: ErrorObject)
    ensures IsTaxonomyError(e) && e.proto.cls == Domain
    ensures e.message == "[domain] " + MessageText(message)
    ensures e.code == Num(475) && e.errorType == Undefined && e.data == Undefined
  {
    var base := NewInstance(Domain, Some("[domain] " + MessageText(message)), Undefined, Undefined, Undefined);
    base.(code := Num(475))
  }

  /** The `i`-th positional argument: `undefined` when the call passed fewer. */
  function Arg(args: seq<Value>, i: nat): Value
  {
    if i < |args| then args[i] else Undefined
  }

  /** A constructor parameter after the message. */
  datatype Param = CodeParam | TypeParam | DataParam

  /** The parameters each class's constructor declares after its message, in order. */
  function Params(cls: ErrorClass): seq<Param>
  {
    match cls
    case BaseErrorClass => [CodeParam, TypeParam, DataParam]
    case Validation => [TypeParam, DataParam]
    case Forbidden => [TypeParam, DataParam]
    case HTTPClient => [CodeParam, DataParam]
    case NotFound => []
    case Domain => []
    case BadConfig => [DataParam]
    case BadRequest => [DataParam]
    case BadResponse => [DataParam]
    case ServerTemporarilyUnavailable => [DataParam]
    case Server => [DataParam]
    case Unauthorized => [DataParam]
    case Unknown => [DataParam]
  }

  /** Where `p` stands in `ps`. */
  function IndexOf(ps: seq<Param>, p: Param): (i: nat)
    requires p in ps
    ensures i < |ps| && ps[i] == p
  {
    if ps[0] == p then 0 else 1 + IndexOf(ps[1..], p)
  }

  /**
   * The value a positional call `new C(message, ...args)` hands to parameter `p`:
   * `undefined` when the class declares no such parameter or the call passed fewer arguments.
   */
  function Bound(cls: ErrorClass, args: seq<Value>, p: Param): Value
  {
    if p in Params(cls) then Arg(args, IndexOf(Params(cls), p)) else Undefined
  }

  /**
   * `new C(...)` with code, type and data given by name. Each class reads the parameters it
   * declares and ignores the others.
   */
  function ConstructNamed(cls: ErrorClass, message: Option<string>, code: Value, errorType: Value, data: Value): (e: ErrorObject)
    ensures IsTaxonomyError(e) && e.proto.cls == cls
  {
    match cls
    case BaseErrorClass => NewBaseError(message, code, errorType, data)
    case BadConfig => NewBadConfigError(message, data)
    case BadRequest => NewBadRequestError(message, data)
    case BadResponse => NewBadResponseError(message, data)
    case Domain => NewDomainError(message)
    case Forbidden => NewForbiddenError(message, errorType, data)
    case HTTPClient => NewHTTPClientError(message, code, data)
    case NotFound => NewNotFoundError(message)
    case ServerTemporarilyUnavailable => NewServerTemporarilyUnavailableError(message, data)
    case Server => NewServerError(message, data)
    case Unauthorized => NewUnauthorizedError(message, data)
    case Unknown => NewUnknownError(message, data)
    case Validation => NewValidationError(message, errorType, data)
  }

  lemma IgnoresCode(cls: ErrorClass, message: Option<string>, code: Value, errorType: Value, data: Value)
    requires CodeParam !in Params(cls)
    ensures ConstructNamed(cls, message, code, errorType, data) == ConstructNamed(cls, message, Undefined, errorType, data)
  {
  }

  lemma IgnoresType(cls: ErrorClass, message: Option<string>, code: Value, errorType: Value, data: Value)
    requires TypeParam !in Params(cls)
    ensures ConstructNamed(cls, message, code, errorType, data) == ConstructNamed(cls, message, code, Undefined, data)
  {
  }

  lemma IgnoresData(cls: ErrorClass, message: Option<string>, code: Value, errorType: Value, data: Value)
    requires DataParam !in Params(cls)
    ensures ConstructNamed(cls, message, code, errorType, data) == ConstructNamed(cls, message, code, errorType, Undefined)
  {
  }

  lemma KeepsCode(cls: ErrorClass, message: Option<string>, code: Value, errorType: Value, data: Value)
    requires CodeParam in Params(cls)
    ensures ConstructNamed(cls, message, code, errorType, data).code == (if Truthy(code) then code else Num(500))
  {
    match cls {
      case BaseErrorClass =>
      case BadConfig =>
      case BadRequest =>
      case BadResponse =>
      case Domain =>
      case Forbidden =>
      case HTTPClient =>
      case NotFound =>
      case ServerTemporarilyUnavailable =>
      case Server =>
      case Unauthorized =>
      case Unknown =>
      case Validation =>
    }
  }

  lemma KeepsType(cls: ErrorClass, message: Option<string>, code: Value, errorType: Value, data: Value)
    requires TypeParam in Params(cls) && !IsNullish(errorType)
    ensures ConstructNamed(cls, message, code, errorType, data).errorType == errorType
  {
    match cls {
      case BaseErrorClass =>
      case BadConfig =>
      case BadRequest =>
      case BadResponse =>
      case Domain =>
      case Forbidden =>
      case HTTPClient =>
      case NotFound =>
      case ServerTemporarilyUnavailable =>
      case Server =>
      case Unauthorized =>
      case Unknown =>
      case Validation =>
    }
  }

  lemma KeepsData(cls: ErrorClass, message: Option<string>, code: Value, errorType: Value, data: Value)
    requires DataParam in Params(cls) && !IsNullish(data)
    ensures ConstructNamed(cls, message, code, errorType, data).data == data
  {
    match cls {
      case BaseErrorClass =>
      case BadConfig =>
      case BadRequest =>
      case BadResponse =>
      case Domain =>
      case Forbidden =>
      case HTTPClient =>
      case NotFound =>
      case ServerTemporarilyUnavailable =>
      case Server =>
      case Unauthorized =>
      case Unknown =>
      case Validation =>
    }
  }

  /** A class keeps the code, the type and the data it declares when they are given. */
  lemma ConstructNamedFields(cls: ErrorClass, message: Option<string>, code: Value, errorType: Value, data: Value)
    ensures var e := ConstructNamed(cls, message, code, errorType, data);
      && (CodeParam in Params(cls) ==> e.code == (if Truthy(code) then code else Num(500)))
      && (TypeParam in Params(cls) && !IsNullish(errorType) ==> e.errorType == errorType)
      && (DataParam in Params(cls) && !IsNullish(data) ==> e.data == data)
  {
    if CodeParam in Params(cls) {
      KeepsCode(cls, message, code, errorType, data);
    }
    if TypeParam in Params(cls) && !IsNullish(errorType) {
      KeepsType(cls, message, code, errorType, data);
    }
    if DataParam in Params(cls) && !IsNullish(data) {
      KeepsData(cls, message, code, errorType, data);
    }
  }

  /** A class ignores the named arguments for parameters it does not declare. */
  lemma ConstructNamedIgnores(cls: ErrorClass, message: Option<string>, code: Value, errorType: Value, data: Value)
    ensures var e := ConstructNamed(cls, message, code, errorType, data);
      && (CodeParam !in Params(cls) ==> e == ConstructNamed(cls, message, Undefined, errorType, data))
      && (TypeParam !in Params(cls) ==> e == ConstructNamed(cls, message, code, Undefined, data))
      && (DataParam !in Params(cls) ==> e == ConstructNamed(cls, message, code, errorType, Undefined))
  {
    if CodeParam !in Params(cls) {
      IgnoresCode(cls, message, code, errorType, data);
    }
    if TypeParam !in Params(cls) {
      IgnoresType(cls, message, code, errorType, data);
    }
    if DataParam !in Params(cls) {
      IgnoresData(cls, message, code, errorType, data);
    }
  }

  /**
   * `new C(message, ...args)` for the class `C` of the taxonomy: each positional argument
   * lands in the parameter the class declares at that position.
   */
  function Construct(cls: ErrorClass, message: Option<string>, args: seq<Value>): (e: ErrorObject)
    ensures IsTaxonomyError(e) && e.proto.cls == cls
    ensures e == ConstructNamed(cls, message, Bound(cls, args, CodeParam), Bound(cls, args, TypeParam), Bound(cls, args, DataParam))
  {
    match cls
    case BaseErrorClass => NewBaseError(message, Arg(args, 0), Arg(args, 1), Arg(args, 2))
    case BadConfig => NewBadConfigError(message, Arg(args, 0))
    case BadRequest => NewBadRequestError(message, Arg(args, 0))
    case BadResponse => NewBadResponseError(message, Arg(args, 0))
    case Domain => NewDomainError(message)
    case Forbidden => NewForbiddenError(message, Arg(args, 0), Arg(args, 1))
    case HTTPClient => NewHTTPClientError(message, Arg(args, 0), Arg(args, 1))
    case NotFound => NewNotFoundError(message)
    case ServerTemporarilyUnavailable => NewServerTemporarilyUnavailableError(message, Arg(args, 0))
    case Server => NewServerError(message, Arg(args, 0))
    case Unauthorized => NewUnauthorizedError(message, Arg(args, 0))
    case Unknown => NewUnknownError(message, Arg(args, 0))
    case Validation => NewValidationError(message, Arg(args, 0), Arg(args, 1))
  }

  /**
   * The arguments createError passes after the message when it rebuilds a registered
   * error: the longest prefix of (code, type, data) that holds no null or undefined.
   */
  function RebuildArgs(e: ErrorObject): (args: seq<Value>)
    ensures |args| <= 3 && args == [e.code, e.errorType, e.data][..|args|]
    ensures forall i :: 0 <= i < |args| ==> !IsNullish(args[i])
    ensures |args| < 3 ==> IsNullish([e.code, e.errorType, e.data][|args|])
  {
    if !IsNullish(e.code) && !IsNullish(e.errorType) && !IsNullish(e.data) then [e.code, e.errorType, e.data]
    else if !IsNullish(e.code) && !IsNullish(e.errorType) then [e.code, e.errorType]
    else if !IsNullish(e.code) then [e.code]
    else []
  }

  /** The data object `{ err }` that wraps an unrecognised thrown value. */
  function Wrapped(err: Value): Value
  {
    Obj(map["err" := err])
  }

  /** An error createError hands back untouched: a BaseError instance or a dnip-flagged error. */
  predicate PassesThrough(e: ErrorObject)
  {
    e.proto.BaseErrorInstance? || Truthy(e.dnip)
  }

  /**
   * `createError(err)` as written in src/utils.ts. `registry` stands for the error module's
   * exports looked up by name (`Errors[err.name]`). A registered error is rebuilt by
   * passing its code, type and data positionally, in BaseError's order, whatever order
   * its own class declares.
   */
  function CreateErrorAsWritten(err: Value, registry: string -> Option<ErrorClass>): (r: ErrorObject)
    ensures !err.Err? ==> r == NewUnknownError(Some("Unknown Error"), Wrapped(err))
    ensures err.Err? && PassesThrough(err.error) ==> r == err.error
    ensures err.Err? && !PassesThrough(err.error) && registry(err.error.name).None? ==>
              r == NewUnknownError(Some(err.error.message), Wrapped(err))
    ensures err.Err? && !PassesThrough(err.error) && registry(err.error.name).Some? ==>
              var cls, args := registry(err.error.name).value, RebuildArgs(err.error);
              r == ConstructNamed(cls, Some(err.error.message),
                                  Bound(cls, args, CodeParam), Bound(cls, args, TypeParam), Bound(cls, args, DataParam))
    ensures (err.Err? && r == err.error) || IsTaxonomyError(r)
  {
    if !err.Err? then NewUnknownError(Some("Unknown Error"), Wrapped(err))
    else
      var e := err.error;
      if PassesThrough(e) then e
      else match registry(e.name)
        case None => NewUnknownError(Some(e.message), Wrapped(err))
        case Some(cls) => Construct(cls, Some(e.message), RebuildArgs(e))
  }

  /** The value of parameter `p` among code, type and data. */
  function Pick(p: Param, code: Value, errorType: Value, data: Value): Value
  {
    match p
    case CodeParam => code
    case TypeParam => errorType
    case DataParam => data
  }

  /** Code, type and data laid out in the parameter order class `cls` declares. */
  function ClassArgs(cls: ErrorClass, code: Value, errorType: Value, data: Value): (args: seq<Value>)
    ensures |args| == |Params(cls)|
    ensures forall i :: 0 <= i < |args| ==> args[i] == Pick(Params(cls)[i], code, errorType, data)
  {
    seq(|Params(cls)|, i requires 0 <= i < |Params(cls)| => Pick(Params(cls)[i], code, errorType, data))
  }

  /** Arguments laid out in a class's own order reach the parameters they are named for. */
  lemma ClassArgsBound(cls: ErrorClass, code: Value, errorType: Value, data: Value, p: Param)
    ensures Bound(cls, ClassArgs(cls, code, errorType, data), p)
         == (if p in Params(cls) then Pick(p, code, errorType, data) else Undefined)
  {
  }

  /**
   * The rebuild createError evidently intends: the code, type and data it selects are handed
   * to the registered class by parameter name, so the class keeps its own defaults for the
   * ones it does not declare or that are absent.
   */
  function Rebuild(cls: ErrorClass, message: string, args: seq<Value>): (e: ErrorObject)
    ensures e == ConstructNamed(cls, Some(message), Arg(args, 0), Arg(args, 1), Arg(args, 2))
  {
    var code, errorType, data := Arg(args, 0), Arg(args, 1), Arg(args, 2);
    ClassArgsBound(cls, code, errorType, data, CodeParam);
    ClassArgsBound(cls, code, errorType, data, TypeParam);
    ClassArgsBound(cls, code, errorType, data, DataParam);
    ConstructNamedIgnores(cls, Some(message), code, errorType, data);
    Construct(cls, Some(message), ClassArgs(cls, code, errorType, data))
  }

  /** createError with the corrected rebuild step; every other branch is the source's. */
  function CreateError(err: Value, registry: string -> Option<ErrorClass>): (r: ErrorObject)
    ensures !err.Err? ==> r == NewUnknownError(Some("Unknown Error"), Wrapped(err))
    ensures err.Err? && PassesThrough(err.error) ==> r == err.error
    ensures err.Err? && !PassesThrough(err.error) && registry(err.error.name).None? ==>
              r == NewUnknownError(Some(err.error.message), Wrapped(err))
    ensures (err.Err? && r == err.error) || IsTaxonomyError(r)
  {
    if !err.Err? then NewUnknownError(Some("Unknown Error"), Wrapped(err))
    else
      var e := err.error;
      if PassesThrough(e) then e
      else match registry(e.name)
        case None => NewUnknownError(Some(e.message), Wrapped(err))
        case Some(cls) => Rebuild(cls, e.message, RebuildArgs(e))
  }

  /**
   * A registered error is rebuilt as its class's constructor called with the error's own
   * code, type and data by name (each only when the source selects it): a parameter the
   * class declares receives the field of that name, and with no code the class's own
   * defaults apply, exactly as the source's message-only call gives them.
   */
  lemma CreateErrorPreservesFields(e: ErrorObject, registry: string -> Option<ErrorClass>)
    requires !PassesThrough(e) && registry(e.name).Some?
    ensures var cls, r := registry(e.name).value, CreateError(Err(e), registry);
      var hasType := !IsNullish(e.code) && !IsNullish(e.errorType);
      var hasData := hasType && !IsNullish(e.data);
      && r == ConstructNamed(cls, Some(e.message),
                             if IsNullish(e.code) then Undefined else e.code,
                             if hasType then e.errorType else Undefined,
                             if hasData then e.data else Undefined)
      && (CodeParam in Params(cls) ==> r.code == (if Truthy(e.code) then e.code else Num(500)))
      && (TypeParam in Params(cls) && hasType ==> r.errorType == e.errorType)
      && (DataParam in Params(cls) && hasData ==> r.data == e.data)
      && (IsNullish(e.code) ==> r == Construct(cls, Some(e.message), []))
  {
    var cls := registry(e.name).value;
    var args := RebuildArgs(e);
    assert Arg(args, 0) == (if IsNullish(e.code) then Undefined else e.code);
    ConstructNamedFields(cls, Some(e.message), Arg(args, 0), Arg(args, 1), Arg(args, 2));
    if IsNullish(e.code) {
      assert args == [];
    }
  }

  /** With the class's own constructor, a rebuilt BaseError keeps its fields the same way. */
  lemma CreateErrorAsWrittenBaseError(e: ErrorObject, registry: string -> Option<ErrorClass>)
    requires !PassesThrough(e) && registry(e.name) == Some(BaseErrorClass)
    ensures CreateErrorAsWritten(Err(e), registry) == CreateError(Err(e), registry)
  {
  }

  /**
   * Without a code the source calls `new Instance(message)`, and the two rebuilds agree:
   * every class keeps its own code, type and message defaults.
   */
  lemma CreateErrorAgreesWithoutCode(e: ErrorObject, registry: string -> Option<ErrorClass>)
    requires !PassesThrough(e) && registry(e.name).Some? && IsNullish(e.code)
    ensures CreateErrorAsWritten(Err(e), registry) == CreateError(Err(e), registry)
  {
    CreateErrorPreservesFields(e, registry);
  }

  /**
   * A NotFoundError or DomainError declares nothing after its message, so its rebuild keeps
   * the class's own code and type (404 and `NOT_FOUND`, or 475 and the `[domain] ` prefix)
   * whatever code the thrown error carried; the source's rebuild agrees on these classes.
   */
  lemma CreateErrorKeepsClassDefaults(e: ErrorObject, registry: string -> Option<ErrorClass>)
    requires !PassesThrough(e) && registry(e.name) in {Some(NotFound), Some(Domain)}
    ensures var r := CreateError(Err(e), registry);
      && r == CreateErrorAsWritten(Err(e), registry)
      && (registry(e.name) == Some(NotFound) ==>
            r.code == Num(404) && r.errorType == Str("NOT_FOUND") && r.message == e.message)
      && (registry(e.name) == Some(Domain) ==>
            r.code == Num(475) && r.message == "[domain] " + e.message)
  {
    CreateErrorPreservesFields(e, registry);
  }

  /** Applying createError to its own result changes nothing. */
  lemma {:induction false} CreateErrorIdempotent(err: Value, registry: string -> Option<ErrorClass>)
    ensures var r := CreateError(err, registry); CreateError(Err(r), registry) == r
    ensures var r := CreateErrorAsWritten(err, registry); CreateErrorAsWritten(Err(r), registry) == r
  {
    var r := CreateError(err, registry);
    assert PassesThrough(r);
    var w := CreateErrorAsWritten(err, registry);
    assert PassesThrough(w);
  }

  /**
   * The source rebuilds a registered ValidationError through ValidationError(msg, type,
   * data) with BaseError's argument list: the code lands in `type` and the type in `data`.
   */
  lemma CreateErrorAsWrittenLosesType()
    ensures var e := ErrorObject(NativeError, "ValidationError", "invalid email", Num(422), Str("INVALID_EMAIL"), Obj(map[]), Undefined);
      var registry := (name: string) => if name == "ValidationError" then Some(Validation) else None;
      && CreateErrorAsWritten(Err(e), registry).errorType == Num(422)
      && CreateErrorAsWritten(Err(e), registry).data == Str("INVALID_EMAIL")
      && CreateError(Err(e), registry).errorType == Str("INVALID_EMAIL")
      && CreateError(Err(e), registry).data == Obj(map[])
  {
    var e := ErrorObject(NativeError, "ValidationError", "invalid email", Num(422), Str("INVALID_EMAIL"), Obj(map[]), Undefined);
    assert RebuildArgs(e) == [Num(422), Str("INVALID_EMAIL"), Obj(map[])];
  }
}
