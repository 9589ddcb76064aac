/**
 * The JavaScript values the modelled code inspects: JSON data (protocol documents, contract
 * schemas, configuration), functions from the implementation tree, and error objects.
 * Numbers are integers here; floating point and NaN are not modelled.
 */
module Js {

  /** The error classes of the taxonomy, one per file under src/errors. */
  datatype ErrorClass =
    | BaseErrorClass
    | BadConfig
    | BadRequest
    | BadResponse
    | Domain
    | Forbidden
    | HTTPClient
    | NotFound
    | ServerTemporarilyUnavailable
    | Server
    | Unauthorized
    | Unknown
    | Validation

  /** `this.constructor.name` of an instance of each class. */
  function ClassName(cls: ErrorClass): string
  {
    match cls
    case BaseErrorClass => "BaseError"
    case BadConfig => "BadConfigError"
    case BadRequest => "BadRequestError"
    case BadResponse => "BadResponseError"
    case Domain => "DomainError"
    case Forbidden => "ForbiddenError"
    case HTTPClient => "HTTPClientError"
    case NotFound => "NotFoundError"
    case ServerTemporarilyUnavailable => "ServerTemporarilyUnavailableError"
    case Server => "ServerError"
    case Unauthorized => "UnauthorizedError"
    case Unknown => "UnknownError"
    case Validation => "ValidationError"
  }

  /**
   * The prototype chain of an error object: a native `Error` (possibly deserialised from
   * another process and carrying copied fields), or an instance of one of the taxonomy's
   * classes, all of which extend `BaseError`.
   */
  datatype ErrorProto = NativeError | BaseErrorInstance(cls: ErrorClass)

  /**
   * An object for which `instanceof Error` holds; `errorType` is its `type` property.
   * `code`, `errorType`, `data` and `dnip` are `Undefined` when the object has no such
   * property.
   */
  datatype ErrorObject = ErrorObject(
    proto: ErrorProto,
    name: string,
    message: string,
    code: Value,
    errorType: Value,
    data: Value,
    dnip: Value)

  datatype Value =
    | Undefined
    | Null
    | Bool(b: bool)
    | Num(n: int)
    | Str(s: string)
    | Arr(elems: seq<Value>)
    | Obj(props: map<string, Value>)
    | Func(id: nat)
    | Err(error: ErrorObject)

  /** `v == null` in JavaScript: true of `null` and `undefined` only. */
  predicate IsNullish(v: Value)
  {
    v.Undefined? || v.Null?
  }

  /** JavaScript truthiness (NaN is not modelled). */
  predicate Truthy(v: Value)
  {
    match v
    case Undefined => false
    case Null => false
    case Bool(b) => b
    case Num(n) => n != 0
    case Str(s) => s != ""
    case _ => true
  }

  /** `typeof v === 'object' && v !== null && !Array.isArray(v)`. */
  predicate IsObject(v: Value)
  {
    v.Obj? || v.Err?
  }

  /**
   * The enumerable own properties of an object. An instance of the taxonomy always owns
   * `dnip`, `code`, `type` and `data` (the constructor assigns all four, possibly to
   * `undefined`); `message` and `name` are defined non-enumerable.
   */
  function Props(v: Value): map<string, Value>
  {
    match v
    case Obj(props) => props
    case Err(e) =>
      if e.proto.BaseErrorInstance? then
        map["dnip" := e.dnip, "code" := e.code, "type" := e.errorType, "data" := e.data]
      else
        Defined(Defined(Defined(Defined(map[], "dnip", e.dnip), "code", e.code), "type", e.errorType), "data", e.data)
    case _ => map[]
  }

  /** `m` with `k` set to `x`, unless `x` is `undefined`. */
  function Defined(m: map<string, Value>, k: string, x: Value): map<string, Value>
  {
    if x.Undefined? then m else m[k := x]
  }

  /** `v[k]` for a property that is not inherited: `undefined` when absent. */
  function Prop(v: Value, k: string): Value
  {
    if k in Props(v) then Props(v)[k] else Undefined
  }

  /** A property that is present with a value other than `undefined`. */
  predicate Has(v: Value, k: string)
  {
    k in Props(v) && !Props(v)[k].Undefined?
  }

  /**
   * The characters `\s` matches and `String.prototype.trim` removes: ECMAScript's
   * WhiteSpace and LineTerminator productions.
   */
  predicate IsWhitespace(c: char)
  {
    || c == '\t' || c == '\n' || c == '\U{000B}' || c == '\U{000C}' || c == '\r' || c == ' '
    || c == '\U{00A0}' || c == '\U{1680}' || ('\U{2000}' <= c <= '\U{200A}')
    || c == '\U{2028}' || c == '\U{2029}' || c == '\U{202F}' || c == '\U{205F}' || c == '\U{3000}'
    || c == '\U{FEFF}'
  }

  /** Length of the whitespace prefix of `s`. */
  function LeadingWhitespace(s: string): (n: nat)
    ensures n <= |s|
    ensures forall k :: 0 <= k < n ==> IsWhitespace(s[k])
    ensures n < |s| ==> !IsWhitespace(s[n])
  {
    if |s| == 0 || !IsWhitespace(s[0]) then 0 else 1 + LeadingWhitespace(s[1..])
  }

  /** Length of the whitespace suffix of `s`. */
  function TrailingWhitespace(s: string): (n: nat)
    ensures n <= |s|
    ensures forall k :: |s| - n <= k < |s| ==> IsWhitespace(s[k])
    ensures n < |s| ==> !IsWhitespace(s[|s| - 1 - n])
  {
    if |s| == 0 || !IsWhitespace(s[|s| - 1]) then 0 else 1 + TrailingWhitespace(s[..|s| - 1])
  }

  /** `s.trim()`. */
  function Trim(s: string): (r: string)
    ensures LeadingWhitespace(s) + |r| <= |s|
    ensures r == s[LeadingWhitespace(s)..LeadingWhitespace(s) + |r|]
    ensures forall k :: LeadingWhitespace(s) + |r| <= k < |s| ==> IsWhitespace(s[k])
    ensures |r| > 0 ==> !IsWhitespace(r[0]) && !IsWhitespace(r[|r| - 1])
  {
    var rest := s[LeadingWhitespace(s)..];
    rest[..|rest| - TrailingWhitespace(rest)]
  }

  function DigitChar(d: nat): char
    requires d < 10
  {
    "0123456789"[d]
  }

  predicate IsNumeralChar(c: char)
  {
    c == '-' || ('0' <= c <= '9')
  }

  /** The decimal numeral of a natural number. */
  function NatToDecimal(n: nat): (s: string)
    ensures |s| >= 1
    ensures forall k :: 0 <= k < |s| ==> '0' <= s[k] <= '9'
  {
    if n < 10 then [DigitChar(n)] else NatToDecimal(n / 10) + [DigitChar(n % 10)]
  }

  lemma DigitCharInjective(d: nat, e: nat)
    requires d < 10 && e < 10 && DigitChar(d) == DigitChar(e)
    ensures d == e
  {
  }

  lemma {:induction false} NatToDecimalInjective(a: nat, b: nat)
    requires NatToDecimal(a) == NatToDecimal(b)
    ensures a == b
    decreases a
  {
    var s := NatToDecimal(a);
    if a < 10 && b < 10 {
      DigitCharInjective(a, b);
    } else if a >= 10 && b >= 10 {
      var qa, ra, qb, rb := a / 10, a % 10, b / 10, b % 10;
      var pa, pb := NatToDecimal(qa), NatToDecimal(qb);
      assert s == pa + [DigitChar(ra)] && s == pb + [DigitChar(rb)];
      assert |pa| == |pb| == |s| - 1;
      assert pa == s[..|s| - 1] == pb;
      NatToDecimalInjective(qa, qb);
      assert DigitChar(ra) == s[|s| - 1] == DigitChar(rb);
      DigitCharInjective(ra, rb);
    }
  }

  /** `${n}` for an integer `n`. */
  function IntToDecimal(n: int): (s: string)
    ensures |s| >= 1
    ensures forall k :: 0 <= k < |s| ==> IsNumeralChar(s[k])
  {
    if n < 0 then "-" + NatToDecimal(-n) else NatToDecimal(n)
  }

  /** Distinct integers have distinct numerals. */
  lemma IntToDecimalInjective(a: int, b: int)
    requires IntToDecimal(a) == IntToDecimal(b)
    ensures a == b
  {
    var s := IntToDecimal(a);
    assert (a < 0) == (s[0] == '-') == (b < 0) by {
      assert '0' <= NatToDecimal(if a < 0 then -a else a)[0] <= '9';
      assert '0' <= NatToDecimal(if b < 0 then -b else b)[0] <= '9';
    }
    if a < 0 {
      assert NatToDecimal(-a) == s[1..] == NatToDecimal(-b);
      NatToDecimalInjective(-a, -b);
    } else {
      NatToDecimalInjective(a, b);
    }
  }
}
