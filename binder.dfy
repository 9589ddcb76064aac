/**
 * The binding step of the runner: a declared protocol (services with their
 * actions, gateway routes, cron jobs) becomes the implemented protocol by
 * resolving every referenced path in the implementation tree and every
 * contract in the schema registry. The first reference that cannot be
 * resolved ends start-up, which the model reports as a `Failure`.
 */
module Binder {
  import opened Wrappers
  import opened Js

  // ---------------------------------------------------------------------
  // The declared protocol (the shapes the binder reads)
  // ---------------------------------------------------------------------

  /** A service action: the id of its contract schema and the path of its handler. */
  datatype ActionDecl = ActionDecl(contract: string, execute: string)

  /** A declared service; `actions` lists the entries of its actions object in order. */
  datatype ServiceDecl = ServiceDecl(version: int, transports: seq<string>, actions: seq<(string, ActionDecl)>)

  /** A gateway route is either the name of another action or an inline action. */
  datatype RouteDecl =
    | StringRoute(target: string)
    | ObjectRoute(contract: string, execute: string, middlewares: Option<seq<string>>)

  datatype GatewayDecl = GatewayDecl(middlewares: Option<seq<string>>, routes: seq<(string, RouteDecl)>)

  datatype JobDecl = JobDecl(name: string, pattern: string, execute: string, executeOnComplete: Option<string>, disabled: Value)

  datatype CronDecl = CronDecl(timezone: Value, disabled: Value, jobs: seq<JobDecl>)

  /** Each part of the protocol is optional. */
  datatype ProtocolDecl = ProtocolDecl(
    services: Option<seq<(string, ServiceDecl)>>,
    gateway: Option<GatewayDecl>,
    cron: Option<CronDecl>)

  // ---------------------------------------------------------------------
  // The implemented protocol (what the binder produces)
  // ---------------------------------------------------------------------

  /** A compiled validator, known by the reference it was compiled from: `<$id>#/properties/<property>`. */
  datatype Validator = Validator(contractId: Value, property: string)

  datatype Action = Action(
    meta: Value,
    headers: Option<Validator>,
    input: Validator,
    output: Validator,
    execute: Value,
    executePath: string,
    middlewares: Option<seq<Value>>)

  datatype Service = Service(version: int, transports: seq<string>, actions: map<string, Action>)

  /** A route either names another action (a string route) or carries a bound handler. */
  datatype RouteTarget = AliasOf(target: string) | Handler(action: Action)

  /** `verb` and `url` are absent when the route key does not start with an HTTP verb. */
  datatype Route = Route(verb: Option<string>, url: Option<string>, target: RouteTarget)

  datatype Gateway = Gateway(middlewares: seq<Value>, routes: seq<Route>)

  datatype Job = Job(name: string, pattern: string, execute: Value, disabled: Value, executeOnComplete: Option<Value>)

  datatype Cron = Cron(timezone: Value, disabled: Value, jobs: seq<Job>)

  datatype Implemented = Implemented(
    services: Option<map<string, Service>>,
    gateway: Option<Gateway>,
    cron: Option<Cron>)

  /**
   * What the binder consults:
   *  - `lookup`: path lookup in the implementation tree (`Undefined` when nothing is there);
   *  - `schemaOf`: the schema registered under a contract id, `None` when there is none;
   *  - `contractOk`: the contract meta-schema.
   */
  datatype Env = Env(lookup: string -> Value, schemaOf: string -> Option<Value>, contractOk: Value -> bool)

  datatype Site = InService(fullName: string, action: string) | InRoute(alias: string)

  datatype BindError =
    | UnknownContract(contract: string)           // no schema under the id: reading `.schema` throws
    | InvalidContract(contract: string, site: Site)
    | MissingExecute(path: string, site: Site)
    | ContractWithoutProperties(contract: string) // `contract.properties` is nullish: destructuring throws
    | MissingMiddleware(name: string, route: Option<string>)
    | MissingJobExecute(path: string, job: string)
    | MissingJobOnComplete(path: string, job: string)

  // ---------------------------------------------------------------------
  // Left folds that stop at the first failure
  // ---------------------------------------------------------------------

  /** Feeds `xs` to `step` from the left, stopping at the first failure. */
  function Fold<A, S, E>(xs: seq<A>, init: S, step: (S, A) -> Result<S, E>): Result<S, E>
    decreases |xs|
  {
    if xs == [] then Success(init)
    else
      var acc :- Fold(xs[..|xs| - 1], init, step);
      step(acc, xs[|xs| - 1])
  }

  /** One more element of the input is one more step of the fold. */
  lemma FoldNext<A, S, E>(xs: seq<A>, init: S, step: (S, A) -> Result<S, E>, i: nat)
    requires i < |xs|
    ensures Fold(xs[..i + 1], init, step)
         == (match Fold(xs[..i], init, step)
             case Failure(e) => Failure(e)
             case Success(acc) => step(acc, xs[i]))
  {
    assert xs[..i + 1][..i] == xs[..i];
  }

  /** A failure on a prefix is the failure of the whole fold. */
  lemma {:induction false} FoldPrefixFailure<A, S, E>(xs: seq<A>, init: S, step: (S, A) -> Result<S, E>, k: nat)
    requires k <= |xs| && Fold(xs[..k], init, step).Failure?
    ensures Fold(xs, init, step) == Fold(xs[..k], init, step)
    decreases |xs| - k
  {
    if k == |xs| {
      assert xs[..k] == xs;
    } else {
      FoldNext(xs, init, step, k);
      FoldPrefixFailure(xs, init, step, k + 1);
    }
  }

  /** Keys starting with `#` are commented out and skipped. */
  predicate Hidden(key: string)
  {
    |key| > 0 && key[0] == '#'
  }

  /** The elements of `xs` that `skip` does not drop, in order. */
  function Keep<A>(skip: A -> bool, xs: seq<A>): seq<A>
    decreases |xs|
  {
    if xs == [] then []
    else Keep(skip, xs[..|xs| - 1]) + (if skip(xs[|xs| - 1]) then [] else [xs[|xs| - 1]])
  }

  /** Step of a fold building a dictionary: unless skipped, the bound value is stored under its key. */
  function KeyedStep<A, V, E>(skip: A -> bool, key: A -> string, bind: A -> Result<V, E>)
    : (map<string, V>, A) -> Result<map<string, V>, E>
  {
    (acc: map<string, V>, x: A) =>
      if skip(x) then Success(acc)
      else match bind(x)
        case Success(v) => Success(acc[key(x) := v])
        case Failure(e) => Failure(e)
  }

  /** Step of a fold building a list: unless skipped, the bound value is appended. */
  function ListStep<A, V, E>(skip: A -> bool, bind: A -> Result<V, E>): (seq<V>, A) -> Result<seq<V>, E>
  {
    (acc: seq<V>, x: A) =>
      if skip(x) then Success(acc)
      else match bind(x)
        case Success(v) => Success(acc + [v])
        case Failure(e) => Failure(e)
  }

  /** Index `i` is the last kept element of `xs` whose key is `k`. */
  ghost predicate LastWithKey<A>(xs: seq<A>, skip: A -> bool, key: A -> string, k: string, i: int)
  {
    0 <= i < |xs| && !skip(xs[i]) && key(xs[i]) == k
    && forall j :: i < j < |xs| && !skip(xs[j]) ==> key(xs[j]) != k
  }

  /** Index `i` holds the first kept element of `xs` that fails to bind. */
  ghost predicate FirstFailing<A, V, E>(xs: seq<A>, skip: A -> bool, bind: A -> Result<V, E>, i: int)
  {
    0 <= i < |xs| && !skip(xs[i]) && bind(xs[i]).Failure?
    && forall j :: 0 <= j < i && !skip(xs[j]) ==> bind(xs[j]).Success?
  }

  /** A dictionary fold succeeds exactly when every kept element binds. */
  lemma {:induction false} KeyedFoldSucceeds<A, V, E>(xs: seq<A>, skip: A -> bool, key: A -> string, bind: A -> Result<V, E>)
    ensures Fold(xs, map[], KeyedStep(skip, key, bind)).Success?
        <==> forall i :: 0 <= i < |xs| && !skip(xs[i]) ==> bind(xs[i]).Success?
    decreases |xs|
  {
    if xs != [] {
      var n := |xs| - 1;
      var p := xs[..n];
      KeyedFoldSucceeds(p, skip, key, bind);
      FoldNext(xs, map[], KeyedStep(skip, key, bind), n);
      assert xs[..n + 1] == xs;
      forall i | 0 <= i < n ensures xs[i] == p[i] { }
    }
  }

  /** A successful dictionary fold holds exactly the keys of the kept elements. */
  lemma {:induction false} KeyedFoldKeys<A, V, E>(xs: seq<A>, skip: A -> bool, key: A -> string, bind: A -> Result<V, E>)
    requires Fold(xs, map[], KeyedStep(skip, key, bind)).Success?
    ensures Fold(xs, map[], KeyedStep(skip, key, bind)).value.Keys
         == set i | 0 <= i < |xs| && !skip(xs[i]) :: key(xs[i])
    decreases |xs|
  {
    var step := KeyedStep(skip, key, bind);
    if xs != [] {
      var n := |xs| - 1;
      var p := xs[..n];
      FoldNext(xs, map[], step, n);
      assert xs[..n + 1] == xs;
      KeyedFoldKeys(p, skip, key, bind);
      var m := Fold(p, map[], step).value;
      var r := Fold(xs, map[], step).value;
      assert r == if skip(xs[n]) then m else m[key(xs[n]) := bind(xs[n]).value];
      forall k | k in r.Keys ensures exists i :: 0 <= i < |xs| && !skip(xs[i]) && key(xs[i]) == k {
        if !skip(xs[n]) && k == key(xs[n]) {
          assert 0 <= n < |xs| && !skip(xs[n]) && key(xs[n]) == k;
        } else {
          var i :| 0 <= i < |p| && !skip(p[i]) && key(p[i]) == k;
          assert xs[i] == p[i];
        }
      }
      forall i | 0 <= i < |xs| && !skip(xs[i]) ensures key(xs[i]) in r.Keys {
        if i < n {
          assert p[i] == xs[i];
        }
      }
    }
  }

  /** In a successful dictionary fold each key holds the binding of the last kept element with that key. */
  lemma {:induction false} KeyedFoldValues<A, V, E>(xs: seq<A>, skip: A -> bool, key: A -> string, bind: A -> Result<V, E>)
    requires Fold(xs, map[], KeyedStep(skip, key, bind)).Success?
    ensures var r := Fold(xs, map[], KeyedStep(skip, key, bind)).value;
      forall k :: k in r ==> exists i :: LastWithKey(xs, skip, key, k, i) && bind(xs[i]) == Success(r[k])
    decreases |xs|
  {
    var step := KeyedStep(skip, key, bind);
    if xs != [] {
      var n := |xs| - 1;
      var p := xs[..n];
      FoldNext(xs, map[], step, n);
      assert xs[..n + 1] == xs;
      KeyedFoldValues(p, skip, key, bind);
      var m := Fold(p, map[], step).value;
      var r := Fold(xs, map[], step).value;
      assert r == if skip(xs[n]) then m else m[key(xs[n]) := bind(xs[n]).value];
      forall k | k in r ensures exists i :: LastWithKey(xs, skip, key, k, i) && bind(xs[i]) == Success(r[k]) {
        if !skip(xs[n]) && k == key(xs[n]) {
          assert LastWithKey(xs, skip, key, k, n);
        } else {
          var i :| LastWithKey(p, skip, key, k, i) && bind(p[i]) == Success(m[k]);
          assert xs[i] == p[i];
          assert LastWithKey(xs, skip, key, k, i);
        }
      }
    }
  }

  /** A failed dictionary fold reports the first kept element that fails to bind. */
  lemma {:induction false} KeyedFoldFailure<A, V, E>(xs: seq<A>, skip: A -> bool, key: A -> string, bind: A -> Result<V, E>)
    requires Fold(xs, map[], KeyedStep(skip, key, bind)).Failure?
    ensures exists i ::
      FirstFailing(xs, skip, bind, i) && bind(xs[i]).error == Fold(xs, map[], KeyedStep(skip, key, bind)).error
    decreases |xs|
  {
    var step := KeyedStep(skip, key, bind);
    var n := |xs| - 1;
    var p := xs[..n];
    FoldNext(xs, map[], step, n);
    assert xs[..n + 1] == xs;
    var rp := Fold(p, map[], step);
    if rp.Success? {
      KeyedFoldSucceeds(p, skip, key, bind);
      assert FirstFailing(xs, skip, bind, n);
    } else {
      KeyedFoldFailure(p, skip, key, bind);
      var i :| FirstFailing(p, skip, bind, i) && bind(p[i]).error == rp.error;
      assert xs[i] == p[i];
      assert FirstFailing(xs, skip, bind, i);
    }
  }

  /**
   * A list fold succeeds exactly when every kept element binds; it then holds the
   * binding of each kept element, in order; otherwise it reports the first
   * failing element.
   */
  lemma {:induction false} ListFoldMeaning<A, V, E>(xs: seq<A>, skip: A -> bool, bind: A -> Result<V, E>)
    ensures var r := Fold(xs, [], ListStep(skip, bind));
      && (r.Success? <==> forall i :: 0 <= i < |xs| && !skip(xs[i]) ==> bind(xs[i]).Success?)
      && (r.Success? ==> |r.value| == |Keep(skip, xs)|)
      && (r.Success? ==> forall j :: 0 <= j < |r.value| ==> bind(Keep(skip, xs)[j]) == Success(r.value[j]))
      && (r.Failure? ==> exists i :: FirstFailing(xs, skip, bind, i) && bind(xs[i]).error == r.error)
    decreases |xs|
  {
    var step := ListStep(skip, bind);
    if xs != [] {
      var n := |xs| - 1;
      var p := xs[..n];
      ListFoldMeaning(p, skip, bind);
      FoldNext(xs, [], step, n);
      assert xs[..n + 1] == xs;
      var rp := Fold(p, [], step);
      if rp.Success? {
        var r := Fold(xs, [], step);
        assert r == step(rp.value, xs[n]);
        if r.Failure? {
          assert FirstFailing(xs, skip, bind, n);
        }
      } else {
        var i :| FirstFailing(p, skip, bind, i) && bind(p[i]).error == rp.error;
        assert xs[i] == p[i];
        assert FirstFailing(xs, skip, bind, i);
      }
    }
  }

  /** Nothing is dropped when nothing is skipped. */
  lemma {:induction false} KeepAll<A>(skip: A -> bool, xs: seq<A>)
    requires forall i :: 0 <= i < |xs| ==> !skip(xs[i])
    ensures Keep(skip, xs) == xs
    decreases |xs|
  {
    if xs != [] {
      KeepAll(skip, xs[..|xs| - 1]);
    }
  }

  /** Every element `Keep` keeps is one `skip` does not drop. */
  lemma {:induction false} KeepSkips<A>(skip: A -> bool, xs: seq<A>, j: nat)
    requires j < |Keep(skip, xs)|
    ensures !skip(Keep(skip, xs)[j])
    decreases |xs|
  {
    var n := |xs| - 1;
    var k := Keep(skip, xs[..n]);
    if j < |k| {
      KeepSkips(skip, xs[..n], j);
    }
  }

  /** The values of a successful list fold: the bindings of the kept elements, in order. */
  lemma ListFoldValues<A, V, E>(xs: seq<A>, skip: A -> bool, bind: A -> Result<V, E>)
    requires Fold(xs, [], ListStep(skip, bind)).Success?
    ensures var r := Fold(xs, [], ListStep(skip, bind)).value;
      && |r| == |Keep(skip, xs)|
      && forall j :: 0 <= j < |Keep(skip, xs)| ==> bind(Keep(skip, xs)[j]) == Success(r[j])
  {
    ListFoldMeaning(xs, skip, bind);
  }

  /**
   * Two successful list folds over the same elements, one after the other: the kept
   * elements of the first pass are bound at the front, those of the second after them.
   */
  lemma TwoPassValues<A, V, E>(xs: seq<A>, skip1: A -> bool, skip2: A -> bool, bind: A -> Result<V, E>)
    requires Fold(xs, [], ListStep(skip1, bind)).Success? && Fold(xs, [], ListStep(skip2, bind)).Success?
    ensures var r := Fold(xs, [], ListStep(skip1, bind)).value + Fold(xs, [], ListStep(skip2, bind)).value;
      var k1, k2 := Keep(skip1, xs), Keep(skip2, xs);
      && |r| == |k1| + |k2|
      && (forall j :: 0 <= j < |k1| ==> bind(k1[j]) == Success(r[j]))
      && (forall j :: 0 <= j < |k2| ==> bind(k2[j]) == Success(r[|k1| + j]))
  {
    ListFoldValues(xs, skip1, bind);
    ListFoldValues(xs, skip2, bind);
    var a, h := Fold(xs, [], ListStep(skip1, bind)).value, Fold(xs, [], ListStep(skip2, bind)).value;
    forall j | 0 <= j < |Keep(skip2, xs)| ensures (a + h)[|Keep(skip1, xs)| + j] == h[j] { }
  }

  /** Two list folds whose bindings agree on every element give the same result. */
  lemma {:induction false} ListFoldAgree<A, V, E>(xs: seq<A>, skip: A -> bool, bind1: A -> Result<V, E>, bind2: A -> Result<V, E>)
    requires forall i :: 0 <= i < |xs| ==> bind1(xs[i]) == bind2(xs[i])
    ensures Fold(xs, [], ListStep(skip, bind1)) == Fold(xs, [], ListStep(skip, bind2))
    decreases |xs|
  {
    if xs != [] {
      var n := |xs| - 1;
      var p := xs[..n];
      forall i | 0 <= i < |p| ensures bind1(p[i]) == bind2(p[i]) {
        assert p[i] == xs[i];
      }
      ListFoldAgree(p, skip, bind1, bind2);
      FoldNext(xs, [], ListStep(skip, bind1), n);
      FoldNext(xs, [], ListStep(skip, bind2), n);
      assert xs[..n + 1] == xs;
    }
  }

  // ---------------------------------------------------------------------
  // Names
  // ---------------------------------------------------------------------

  /** The key of a bound service: `<name>.v<version>`. */
  function QualifiedName(name: string, version: int): string
  {
    name + ".v" + IntToDecimal(version)
  }

  /** The separator before the version is the last dot of a qualified name. */
  lemma LastDot(name: string, version: int)
    ensures var s, d := QualifiedName(name, version), IntToDecimal(version);
      && s[|s| - |d| - 2] == '.'
      && forall j :: |s| - |d| - 2 < j < |s| ==> s[j] != '.'
  {
    var s, d := QualifiedName(name, version), IntToDecimal(version);
    forall j | |s| - |d| - 2 < j < |s| ensures s[j] != '.' {
      if j > |s| - |d| - 1 {
        assert s[j] == d[j - (|s| - |d|)];
      }
    }
  }

  /** Distinct services (by name or by version) get distinct keys. */
  lemma QualifiedNameInjective(n1: string, v1: int, n2: string, v2: int)
    requires QualifiedName(n1, v1) == QualifiedName(n2, v2)
    ensures n1 == n2 && v1 == v2
  {
    var s := QualifiedName(n1, v1);
    var d1, d2 := IntToDecimal(v1), IntToDecimal(v2);
    // no dot occurs in a numeral, so both readings put the separator at the same place
    LastDot(n1, v1);
    LastDot(n2, v2);
    if |d1| == |d2| {
      assert d1 == s[|s| - |d1|..] == d2;
      IntToDecimalInjective(v1, v2);
      assert n1 == s[..|n1|] == n2;
    }
  }

  const HttpMethods: seq<string> := ["GET", "POST", "PUT", "PATCH", "DELETE"]

  /** `key` starts with method `m` followed by one whitespace character. */
  predicate HasMethodPrefix(key: string, m: string)
  {
    |m| < |key| && key[..|m|] == m && IsWhitespace(key[|m|])
  }

  /** The first of `candidates` that `key` starts with, as the alternation of the route-key pattern tries them. */
  function MatchMethod(key: string, candidates: seq<string>): (r: Option<string>)
    ensures r.Some? ==> r.value in candidates && HasMethodPrefix(key, r.value)
    ensures r.None? ==> forall m :: m in candidates ==> !HasMethodPrefix(key, m)
  {
    if candidates == [] then None
    else if HasMethodPrefix(key, candidates[0]) then Some(candidates[0])
    else MatchMethod(key, candidates[1..])
  }

  /**
   * `s` without its first `n` characters, one character at a time; `DropIsSuffix`
   * shows it is the suffix `s[n..]`.
   */
  function Drop(s: string, n: nat): string
    requires n <= |s|
    decreases n
  {
    if n == 0 then s else Drop(s[1..], n - 1)
  }

  lemma {:induction false} DropIsSuffix(s: string, n: nat)
    requires n <= |s|
    ensures Drop(s, n) == s[n..]
    decreases n
  {
    if n > 0 {
      DropIsSuffix(s[1..], n - 1);
      assert s[1..][n - 1..] == s[n..];
    }
  }

  /** Splitting a route key on `^(GET|POST|PUT|PATCH|DELETE)\s`: the verb and the rest, or neither. */
  function SplitRouteKey(key: string): (Option<string>, Option<string>)
  {
    match MatchMethod(key, HttpMethods)
    case Some(m) => (Some(m), Some(Drop(key, |m| + 1)))
    case None => (None, None)
  }

  /** A key splits exactly when it starts with a verb and a whitespace character, and then reassembles from its parts. */
  lemma SplitRouteKeyMeaning(key: string)
    ensures var (verb, url) := SplitRouteKey(key);
      && (verb.Some? <==> exists m :: m in HttpMethods && HasMethodPrefix(key, m))
      && (verb.Some? <==> url.Some?)
      && (verb.Some? ==> verb.value in HttpMethods)
      && (verb.Some? ==> IsWhitespace(key[|verb.value|]))
      && (verb.Some? ==> key == verb.value + [key[|verb.value|]] + url.value)
  {
    var (verb, url) := SplitRouteKey(key);
    if verb.Some? {
      var m := verb.value;
      DropIsSuffix(key, |m| + 1);
      assert key == key[..|m|] + [key[|m|]] + key[|m| + 1..];
    }
  }

  /** No letter of a verb is whitespace. */
  lemma VerbLetter(m: string, i: nat)
    requires m in HttpMethods && i < |m|
    ensures !IsWhitespace(m[i])
  {
  }

  /** Joining a verb, one whitespace character and a url gives a key that splits back into that verb and url. */
  lemma SplitRouteKeyInverse(m: string, c: char, url: string)
    requires m in HttpMethods && IsWhitespace(c)
    ensures SplitRouteKey(m + [c] + url) == (Some(m), Some(url))
  {
    var key := m + [c] + url;
    assert key[..|m|] == m;
    assert key[|m|] == c;
    assert key[|m| + 1..] == url;
    DropIsSuffix(key, |m| + 1);
    var found := MatchMethod(key, HttpMethods);
    assert found.Some? by {
      assert HasMethodPrefix(key, m);
    }
    var f := found.value;
    // a shorter or a longer verb would be followed by one of the other verb's letters
    if |f| < |m| {
      assert key[|f|] == m[|f|];
      VerbLetter(m, |f|);
      assert false;
    } else if |m| < |f| {
      assert key[..|f|][|m|] == c;
      VerbLetter(f, |m|);
      assert false;
    }
    assert f == key[..|f|] == m;
  }

  // ---------------------------------------------------------------------
  // Binding
  // ---------------------------------------------------------------------

  /** The contract's `x-meta`, or `{}`. */
  function MetaOf(contract: Value): Value
  {
    if IsNullish(Prop(contract, "x-meta")) then Obj(map[]) else Prop(contract, "x-meta")
  }

  /**
   * Binds one action: fetches its contract, checks it against the contract
   * meta-schema, resolves its handler, and compiles its headers (when the
   * contract has them), input and output.
   */
  function BindAction(env: Env, decl: ActionDecl, site: Site): Result<Action, BindError>
  {
    match env.schemaOf(decl.contract)
    case None => Failure(UnknownContract(decl.contract))
    case Some(contract) =>
      if !env.contractOk(contract) then Failure(InvalidContract(decl.contract, site))
      else
        var execute := env.lookup(decl.execute);
        if IsNullish(execute) then Failure(MissingExecute(decl.execute, site))
        else
          var properties := Prop(contract, "properties");
          if IsNullish(properties) then Failure(ContractWithoutProperties(decl.contract))
          else
            var id := Prop(contract, "$id");
            Success(Action(
              MetaOf(contract),
              if IsNullish(Prop(properties, "headers")) then None else Some(Validator(id, "headers")),
              Validator(id, "input"),
              Validator(id, "output"),
              execute,
              decl.execute,
              Some([])))
  }

  /** The conditions under which an action binds, and the errors in the order they are checked. */
  lemma BindActionOutcome(env: Env, decl: ActionDecl, site: Site)
    ensures var r := BindAction(env, decl, site);
      && (r.Success? <==>
            && env.schemaOf(decl.contract).Some?
            && env.contractOk(env.schemaOf(decl.contract).value)
            && !IsNullish(env.lookup(decl.execute))
            && !IsNullish(Prop(env.schemaOf(decl.contract).value, "properties")))
      && (env.schemaOf(decl.contract).None? ==> r == Failure(UnknownContract(decl.contract)))
      && (env.schemaOf(decl.contract).Some? && !env.contractOk(env.schemaOf(decl.contract).value) ==>
            r == Failure(InvalidContract(decl.contract, site)))
      && (env.schemaOf(decl.contract).Some? && env.contractOk(env.schemaOf(decl.contract).value)
          && IsNullish(env.lookup(decl.execute)) ==>
            r == Failure(MissingExecute(decl.execute, site)))
  {
  }

  /** The fields of a bound action. */
  lemma BindActionFields(env: Env, decl: ActionDecl, site: Site)
    requires BindAction(env, decl, site).Success?
    ensures var a := BindAction(env, decl, site).value;
      var contract := env.schemaOf(decl.contract).value;
      var properties := Prop(contract, "properties");
      && (a.headers.Some? <==> !IsNullish(Prop(properties, "headers")))
      && a.meta == (if IsNullish(Prop(contract, "x-meta")) then Obj(map[]) else Prop(contract, "x-meta"))
      && a.input == Validator(Prop(contract, "$id"), "input")
      && a.output == Validator(Prop(contract, "$id"), "output")
      && a.execute == env.lookup(decl.execute) && !IsNullish(a.execute)
      && a.executePath == decl.execute
      && a.middlewares == Some([])
  {
  }

  function ActionsStep(env: Env, fullName: string)
    : (map<string, Action>, (string, ActionDecl)) -> Result<map<string, Action>, BindError>
  {
    KeyedStep(
      (e: (string, ActionDecl)) => Hidden(e.0),
      (e: (string, ActionDecl)) => e.0,
      (e: (string, ActionDecl)) => BindAction(env, e.1, InService(fullName, e.0)))
  }

  /** The bound actions of a service, keyed by action name. */
  function BindActions(env: Env, fullName: string, actions: seq<(string, ActionDecl)>): Result<map<string, Action>, BindError>
  {
    Fold(actions, map[], ActionsStep(env, fullName))
  }

  function BindService(env: Env, name: string, decl: ServiceDecl): Result<Service, BindError>
  {
    var actions :- BindActions(env, QualifiedName(name, decl.version), decl.actions);
    Success(Service(decl.version, decl.transports, actions))
  }

  function ServicesStep(env: Env)
    : (map<string, Service>, (string, ServiceDecl)) -> Result<map<string, Service>, BindError>
  {
    KeyedStep(
      (e: (string, ServiceDecl)) => Hidden(e.0),
      (e: (string, ServiceDecl)) => QualifiedName(e.0, e.1.version),
      (e: (string, ServiceDecl)) => BindService(env, e.0, e.1))
  }

  /** The bound services, keyed by `<name>.v<version>`. */
  function BindServices(env: Env, services: seq<(string, ServiceDecl)>): Result<map<string, Service>, BindError>
  {
    Fold(services, map[], ServicesStep(env))
  }

  /**
   * The actions of a service bind exactly when every non-hidden action binds;
   * there is then one entry per non-hidden action name, holding the binding of
   * the last action declared under that name.
   */
  lemma BindActionsMeaning(env: Env, fullName: string, actions: seq<(string, ActionDecl)>)
    ensures var r := BindActions(env, fullName, actions);
      && (r.Success? <==> forall i :: 0 <= i < |actions| && !Hidden(actions[i].0) ==>
            BindAction(env, actions[i].1, InService(fullName, actions[i].0)).Success?)
      && (r.Success? ==> r.value.Keys == set i | 0 <= i < |actions| && !Hidden(actions[i].0) :: actions[i].0)
      && (r.Success? ==> forall k :: k in r.value ==> exists i ::
            0 <= i < |actions| && actions[i].0 == k
            && BindAction(env, actions[i].1, InService(fullName, k)) == Success(r.value[k]))
      && (r.Failure? ==> exists i ::
            && 0 <= i < |actions| && !Hidden(actions[i].0)
            && BindAction(env, actions[i].1, InService(fullName, actions[i].0)) == Failure(r.error)
            && forall j :: 0 <= j < i && !Hidden(actions[j].0) ==>
                 BindAction(env, actions[j].1, InService(fullName, actions[j].0)).Success?)
  {
    var skip := (e: (string, ActionDecl)) => Hidden(e.0);
    var key := (e: (string, ActionDecl)) => e.0;
    var bind := (e: (string, ActionDecl)) => BindAction(env, e.1, InService(fullName, e.0));
    KeyedFoldSucceeds(actions, skip, key, bind);
    var r := BindActions(env, fullName, actions);
    if r.Success? {
      KeyedFoldKeys(actions, skip, key, bind);
      KeyedFoldValues(actions, skip, key, bind);
      forall k | k in r.value ensures exists i ::
        0 <= i < |actions| && actions[i].0 == k
        && BindAction(env, actions[i].1, InService(fullName, k)) == Success(r.value[k])
      {
        var i :| LastWithKey(actions, skip, key, k, i) && bind(actions[i]) == Success(r.value[k]);
      }
    } else {
      KeyedFoldFailure(actions, skip, key, bind);
      var i :| FirstFailing(actions, skip, bind, i) && bind(actions[i]).error == r.error;
    }
  }

  /**
   * The services bind exactly when every non-hidden service binds; there is
   * then one entry per non-hidden service under `<name>.v<version>`, with the
   * declared version and transports and the bound actions of that service.
   */
  lemma BindServicesMeaning(env: Env, services: seq<(string, ServiceDecl)>)
    ensures var r := BindServices(env, services);
      && (r.Success? <==> forall i :: 0 <= i < |services| && !Hidden(services[i].0) ==>
            BindService(env, services[i].0, services[i].1).Success?)
      && (r.Success? ==>
            r.value.Keys == set i | 0 <= i < |services| && !Hidden(services[i].0) :: QualifiedName(services[i].0, services[i].1.version))
      && (r.Success? ==> forall k :: k in r.value ==> exists i ::
            0 <= i < |services| && !Hidden(services[i].0)
            && QualifiedName(services[i].0, services[i].1.version) == k
            && r.value[k].version == services[i].1.version
            && r.value[k].transports == services[i].1.transports
            && BindActions(env, k, services[i].1.actions) == Success(r.value[k].actions))
      && (r.Failure? ==> exists i ::
            0 <= i < |services| && !Hidden(services[i].0) && BindService(env, services[i].0, services[i].1) == Failure(r.error))
  {
    var skip := (e: (string, ServiceDecl)) => Hidden(e.0);
    var key := (e: (string, ServiceDecl)) => QualifiedName(e.0, e.1.version);
    var bind := (e: (string, ServiceDecl)) => BindService(env, e.0, e.1);
    KeyedFoldSucceeds(services, skip, key, bind);
    var r := BindServices(env, services);
    if r.Success? {
      KeyedFoldKeys(services, skip, key, bind);
      KeyedFoldValues(services, skip, key, bind);
      forall k | k in r.value ensures exists i ::
        0 <= i < |services| && !Hidden(services[i].0)
        && QualifiedName(services[i].0, services[i].1.version) == k
        && r.value[k].version == services[i].1.version
        && r.value[k].transports == services[i].1.transports
        && BindActions(env, k, services[i].1.actions) == Success(r.value[k].actions)
      {
        var i :| LastWithKey(services, skip, key, k, i) && bind(services[i]) == Success(r.value[k]);
      }
    } else {
      KeyedFoldFailure(services, skip, key, bind);
      var i :| FirstFailing(services, skip, bind, i) && bind(services[i]).error == r.error;
    }
  }

  /** `applyMiddleware`: resolves each middleware name, in order; the first unresolved one is fatal. */
  function ResolveMiddlewares(env: Env, names: seq<string>, route: Option<string>): Result<seq<Value>, BindError>
  {
    Fold(names, [], ListStep(
      (name: string) => false,
      (name: string) => ResolveMiddleware(env, name, route)))
  }

  function ResolveMiddleware(env: Env, name: string, route: Option<string>): Result<Value, BindError>
  {
    var m := env.lookup(name);
    if IsNullish(m) then Failure(MissingMiddleware(name, route)) else Success(m)
  }

  /** Middlewares resolve exactly when every name does, to the looked-up values in declaration order. */
  lemma ResolveMiddlewaresMeaning(env: Env, names: seq<string>, route: Option<string>)
    ensures var r := ResolveMiddlewares(env, names, route);
      && (r.Success? <==> forall i :: 0 <= i < |names| ==> !IsNullish(env.lookup(names[i])))
      && (r.Success? ==> |r.value| == |names|)
      && (r.Success? ==> forall i :: 0 <= i < |names| ==> r.value[i] == env.lookup(names[i]))
      && (r.Failure? ==> exists i ::
            && 0 <= i < |names| && IsNullish(env.lookup(names[i]))
            && r.error == MissingMiddleware(names[i], route)
            && forall j :: 0 <= j < i ==> !IsNullish(env.lookup(names[j])))
  {
    var skip := (name: string) => false;
    var bind := (name: string) => ResolveMiddleware(env, name, route);
    ListFoldMeaning(names, skip, bind);
    KeepAll(skip, names);
    var r := ResolveMiddlewares(env, names, route);
    if r.Failure? {
      var i :| FirstFailing(names, skip, bind, i) && bind(names[i]).error == r.error;
    }
  }

  /** A route's own middlewares, when it declares any. */
  function ResolveRouteMiddlewares(env: Env, names: Option<seq<string>>, alias: string): Result<Option<seq<Value>>, BindError>
  {
    match names
    case None => Success(None)
    case Some(ns) =>
      var ms :- ResolveMiddlewares(env, ns, Some(alias));
      Success(Some(ms))
  }

  /**
   * Binds one route: a string route names its target; an object route is bound
   * like a service action and then gets its own middlewares resolved.
   */
  function BindRoute(env: Env, alias: string, decl: RouteDecl): Result<Route, BindError>
  {
    match decl
    case StringRoute(target) => Success(Route(SplitRouteKey(alias).0, SplitRouteKey(alias).1, AliasOf(target)))
    case ObjectRoute(contract, execute, names) => BindObjectRoute(env, alias, contract, execute, names)
  }

  /** An inline action route: its action must bind and its middlewares must resolve. */
  function BindObjectRoute(env: Env, alias: string, contract: string, execute: string, names: Option<seq<string>>): Result<Route, BindError>
  {
    var (verb, url) := SplitRouteKey(alias);
    var action :- BindAction(env, ActionDecl(contract, execute), InRoute(alias));
    var middlewares :- ResolveRouteMiddlewares(env, names, alias);
    Success(Route(verb, url, Handler(action.(middlewares := middlewares))))
  }

  /** What a route binds to, and when an object route fails. */
  lemma BindRouteMeaning(env: Env, alias: string, decl: RouteDecl)
    ensures var r := BindRoute(env, alias, decl);
      && (decl.StringRoute? ==> r == Success(Route(SplitRouteKey(alias).0, SplitRouteKey(alias).1, AliasOf(decl.target))))
      && (decl.ObjectRoute? ==>
            && (r.Success? <==>
                  BindAction(env, ActionDecl(decl.contract, decl.execute), InRoute(alias)).Success?
                  && (decl.middlewares.Some? ==>
                        forall i :: 0 <= i < |decl.middlewares.value| ==> !IsNullish(env.lookup(decl.middlewares.value[i]))))
            && (IsNullish(env.lookup(decl.execute)) ==> r.Failure?)
            && (r.Success? ==>
                  && r.value.verb == SplitRouteKey(alias).0
                  && r.value.url == SplitRouteKey(alias).1
                  && r.value.target.Handler?
                  && r.value.target.action.executePath == decl.execute
                  && r.value.target.action.execute == env.lookup(decl.execute)
                  && (r.value.target.action.middlewares.Some? <==> decl.middlewares.Some?)
                  && (decl.middlewares.Some? ==>
                        var ms := r.value.target.action.middlewares.value;
                        |ms| == |decl.middlewares.value|
                        && forall i :: 0 <= i < |ms| ==> ms[i] == env.lookup(decl.middlewares.value[i]))))
  {
    if decl.ObjectRoute? {
      BindActionOutcome(env, ActionDecl(decl.contract, decl.execute), InRoute(alias));
      if decl.middlewares.Some? {
        ResolveMiddlewaresMeaning(env, decl.middlewares.value, Some(alias));
      }
    }
  }

  /** Skipped when collecting string routes: hidden keys and object routes. */
  predicate NotAliasRoute(e: (string, RouteDecl))
  {
    Hidden(e.0) || e.1.ObjectRoute?
  }

  /** Skipped when collecting object routes: hidden keys and string routes. */
  predicate NotHandlerRoute(e: (string, RouteDecl))
  {
    Hidden(e.0) || e.1.StringRoute?
  }

  /** Binding a `(key, route)` entry of the gateway's routes. */
  function RouteBinding(env: Env): ((string, RouteDecl)) -> Result<Route, BindError>
  {
    (e: (string, RouteDecl)) => BindRoute(env, e.0, e.1)
  }

  function AliasRoutesStep(env: Env): (seq<Route>, (string, RouteDecl)) -> Result<seq<Route>, BindError>
  {
    ListStep(NotAliasRoute, RouteBinding(env))
  }

  function HandlerRoutesStep(env: Env): (seq<Route>, (string, RouteDecl)) -> Result<seq<Route>, BindError>
  {
    ListStep(NotHandlerRoute, RouteBinding(env))
  }

  /**
   * The bound routes, one per non-hidden route key. A string route is pushed while the
   * route callbacks are first run, before any of them awaits, so all string routes come
   * first, in declaration order; each object route is pushed after its validators are
   * compiled, and the model takes those in declaration order too.
   */
  function BindRoutes(env: Env, routes: seq<(string, RouteDecl)>): Result<seq<Route>, BindError>
  {
    var aliases :- Fold(routes, [], AliasRoutesStep(env));
    var handlers :- Fold(routes, [], HandlerRoutesStep(env));
    Success(aliases + handlers)
  }

  /** One step of collecting string routes: a non-hidden string route is appended. */
  lemma AliasRoutesStepMeaning(env: Env, acc: seq<Route>, e: (string, RouteDecl))
    ensures AliasRoutesStep(env)(acc, e)
         == if Hidden(e.0) || e.1.ObjectRoute? then Success(acc)
            else Success(acc + [Route(SplitRouteKey(e.0).0, SplitRouteKey(e.0).1, AliasOf(e.1.target))])
  {
    var bind := RouteBinding(env);
    assert AliasRoutesStep(env) == ListStep(NotAliasRoute, bind);
    if NotAliasRoute(e) {
      assert ListStep(NotAliasRoute, bind)(acc, e) == Success(acc);
    } else {
      assert bind(e) == Success(Route(SplitRouteKey(e.0).0, SplitRouteKey(e.0).1, AliasOf(e.1.target)));
      assert ListStep(NotAliasRoute, bind)(acc, e) == Success(acc + [bind(e).value]);
    }
  }

  /** One step of collecting object routes: a non-hidden object route is bound and appended. */
  lemma HandlerRoutesStepMeaning(env: Env, acc: seq<Route>, e: (string, RouteDecl))
    ensures HandlerRoutesStep(env)(acc, e)
         == if Hidden(e.0) || e.1.StringRoute? then Success(acc)
            else match BindRoute(env, e.0, e.1)
              case Success(v) => Success(acc + [v])
              case Failure(err) => Failure(err)
  {
    var bind := RouteBinding(env);
    assert HandlerRoutesStep(env) == ListStep(NotHandlerRoute, bind);
    if NotHandlerRoute(e) {
      assert ListStep(NotHandlerRoute, bind)(acc, e) == Success(acc);
    } else {
      assert bind(e) == BindRoute(env, e.0, e.1);
    }
  }

  /** The object-route pass over one more entry. */
  lemma HandlerRoutesNext(env: Env, routes: seq<(string, RouteDecl)>, i: nat, acc: seq<Route>)
    requires i < |routes| && Fold(routes[..i], [], HandlerRoutesStep(env)) == Success(acc)
    ensures Fold(routes[..i + 1], [], HandlerRoutesStep(env))
         == if Hidden(routes[i].0) || routes[i].1.StringRoute? then Success(acc)
            else match BindRoute(env, routes[i].0, routes[i].1)
              case Success(v) => Success(acc + [v])
              case Failure(err) => Failure(err)
  {
    FoldNext(routes, [], HandlerRoutesStep(env), i);
    HandlerRoutesStepMeaning(env, acc, routes[i]);
  }

  /** Each collected string route is the binding of a non-hidden string route, in order. */
  lemma AliasRoutesMeaning(env: Env, routes: seq<(string, RouteDecl)>)
    ensures var a, aliases := Fold(routes, [], AliasRoutesStep(env)), Keep(NotAliasRoute, routes);
      && a.Success? && |a.value| == |aliases|
      && forall j :: 0 <= j < |aliases| ==> BindRoute(env, aliases[j].0, aliases[j].1) == Success(a.value[j])
  {
    var bind := RouteBinding(env);
    ListFoldMeaning(routes, NotAliasRoute, bind);
  }

  /** Each collected object route is the binding of a non-hidden object route, in order. */
  lemma HandlerRoutesMeaning(env: Env, routes: seq<(string, RouteDecl)>)
    ensures var h, handlers := Fold(routes, [], HandlerRoutesStep(env)), Keep(NotHandlerRoute, routes);
      && (h.Success? <==> forall i :: 0 <= i < |routes| && !NotHandlerRoute(routes[i]) ==>
            BindRoute(env, routes[i].0, routes[i].1).Success?)
      && (h.Success? ==> |h.value| == |handlers|)
      && (h.Success? ==> forall j :: 0 <= j < |handlers| ==>
            BindRoute(env, handlers[j].0, handlers[j].1) == Success(h.value[j]))
      && (h.Failure? ==> exists i ::
            && 0 <= i < |routes| && !NotHandlerRoute(routes[i])
            && BindRoute(env, routes[i].0, routes[i].1) == Failure(h.error))
  {
    var bind := RouteBinding(env);
    ListFoldMeaning(routes, NotHandlerRoute, bind);
    var h := Fold(routes, [], HandlerRoutesStep(env));
    if h.Failure? {
      var i :| FirstFailing(routes, NotHandlerRoute, bind, i) && bind(routes[i]).error == h.error;
    }
  }

  /** The string routes and the object routes are the non-hidden keys of each kind. */
  lemma KeptRoutes(routes: seq<(string, RouteDecl)>)
    ensures var aliases := Keep(NotAliasRoute, routes);
      forall j :: 0 <= j < |aliases| ==> !Hidden(aliases[j].0) && aliases[j].1.StringRoute?
    ensures var handlers := Keep(NotHandlerRoute, routes);
      forall j :: 0 <= j < |handlers| ==> !Hidden(handlers[j].0) && handlers[j].1.ObjectRoute?
  {
    forall j | 0 <= j < |Keep(NotAliasRoute, routes)| ensures !NotAliasRoute(Keep(NotAliasRoute, routes)[j]) {
      KeepSkips(NotAliasRoute, routes, j);
    }
    forall j | 0 <= j < |Keep(NotHandlerRoute, routes)| ensures !NotHandlerRoute(Keep(NotHandlerRoute, routes)[j]) {
      KeepSkips(NotHandlerRoute, routes, j);
    }
  }

  /** String routes always bind, so the routes bind exactly when the object routes do. */
  lemma BindRoutesSucceeds(env: Env, routes: seq<(string, RouteDecl)>)
    ensures BindRoutes(env, routes).Success? <==>
      forall i :: 0 <= i < |routes| && !Hidden(routes[i].0) ==> BindRoute(env, routes[i].0, routes[i].1).Success?
  {
    AliasRoutesMeaning(env, routes);
    HandlerRoutesMeaning(env, routes);
    forall i | 0 <= i < |routes| && routes[i].1.StringRoute?
      ensures BindRoute(env, routes[i].0, routes[i].1).Success? {
    }
  }

  /**
   * The routes bind exactly when every non-hidden route does. The bound list then holds
   * the bindings of the string routes, in declaration order, followed by those of the
   * object routes; a failure is that of an object route.
   */
  lemma BindRoutesMeaning(env: Env, routes: seq<(string, RouteDecl)>)
    ensures var r := BindRoutes(env, routes);
      var aliases, handlers := Keep(NotAliasRoute, routes), Keep(NotHandlerRoute, routes);
      && (r.Success? <==> forall i :: 0 <= i < |routes| && !Hidden(routes[i].0) ==>
            BindRoute(env, routes[i].0, routes[i].1).Success?)
      && (forall j :: 0 <= j < |aliases| ==> !Hidden(aliases[j].0) && aliases[j].1.StringRoute?)
      && (forall j :: 0 <= j < |handlers| ==> !Hidden(handlers[j].0) && handlers[j].1.ObjectRoute?)
      && (r.Success? ==> |r.value| == |aliases| + |handlers|)
      && (r.Success? ==> forall j :: 0 <= j < |aliases| ==> RouteBinding(env)(aliases[j]) == Success(r.value[j]))
      && (r.Success? ==> forall j :: 0 <= j < |handlers| ==>
            RouteBinding(env)(handlers[j]) == Success(r.value[|aliases| + j]))
      && (r.Failure? ==> exists i ::
            && 0 <= i < |routes| && !Hidden(routes[i].0) && routes[i].1.ObjectRoute?
            && BindRoute(env, routes[i].0, routes[i].1) == Failure(r.error))
  {
    BindRoutesSucceeds(env, routes);
    KeptRoutes(routes);
    if BindRoutes(env, routes).Success? {
      BindRoutesValues(env, routes);
    } else {
      BindRoutesFailure(env, routes);
    }
  }

  /** A successful binding is the string-route pass followed by the object-route pass. */
  lemma BindRoutesSplit(env: Env, routes: seq<(string, RouteDecl)>)
    requires BindRoutes(env, routes).Success?
    ensures Fold(routes, [], AliasRoutesStep(env)).Success? && Fold(routes, [], HandlerRoutesStep(env)).Success?
    ensures BindRoutes(env, routes).value == Fold(routes, [], AliasRoutesStep(env)).value + Fold(routes, [], HandlerRoutesStep(env)).value
  {
  }

  /** A successful binding: the string routes' bindings, then the object routes' bindings. */
  lemma BindRoutesValues(env: Env, routes: seq<(string, RouteDecl)>)
    requires BindRoutes(env, routes).Success?
    ensures var r, aliases, handlers := BindRoutes(env, routes).value, Keep(NotAliasRoute, routes), Keep(NotHandlerRoute, routes);
      && |r| == |aliases| + |handlers|
      && (forall j :: 0 <= j < |aliases| ==> RouteBinding(env)(aliases[j]) == Success(r[j]))
      && (forall j :: 0 <= j < |handlers| ==> RouteBinding(env)(handlers[j]) == Success(r[|aliases| + j]))
  {
    BindRoutesSplit(env, routes);
    TwoPassValues(routes, NotAliasRoute, NotHandlerRoute, RouteBinding(env));
  }

  /** A failed binding reports a non-hidden object route that does not bind. */
  lemma BindRoutesFailure(env: Env, routes: seq<(string, RouteDecl)>)
    requires BindRoutes(env, routes).Failure?
    ensures exists i ::
      && 0 <= i < |routes| && !Hidden(routes[i].0) && routes[i].1.ObjectRoute?
      && BindRoute(env, routes[i].0, routes[i].1) == Failure(BindRoutes(env, routes).error)
  {
    AliasRoutesMeaning(env, routes);
    HandlerRoutesMeaning(env, routes);
    var h := Fold(routes, [], HandlerRoutesStep(env));
    assert h.Failure? && BindRoutes(env, routes) == Failure(h.error);
  }

  /** The gateway: its routes, and its own middlewares or `[]` when it declares none. */
  function BindGateway(env: Env, decl: GatewayDecl): Result<Gateway, BindError>
  {
    var routes :- BindRoutes(env, decl.routes);
    var middlewares :- if decl.middlewares.None? then Success([]) else ResolveMiddlewares(env, decl.middlewares.value, None);
    Success(Gateway(middlewares, routes))
  }

  /** Gateway middlewares default to `[]`; declared ones resolve in order or the gateway fails. */
  lemma BindGatewayMiddlewares(env: Env, decl: GatewayDecl)
    requires BindRoutes(env, decl.routes).Success?
    ensures var r := BindGateway(env, decl);
      && (decl.middlewares.None? ==> r == Success(Gateway([], BindRoutes(env, decl.routes).value)))
      && (decl.middlewares.Some? ==>
            (r.Success? <==> forall i :: 0 <= i < |decl.middlewares.value| ==> !IsNullish(env.lookup(decl.middlewares.value[i]))))
      && (r.Success? ==> r.value.routes == BindRoutes(env, decl.routes).value)
  {
    if decl.middlewares.Some? {
      ResolveMiddlewaresMeaning(env, decl.middlewares.value, None);
    }
  }

  /** Binds one cron job: its handler must resolve, and so must its completion handler when it has one. */
  function BindJob(env: Env, job: JobDecl): Result<Job, BindError>
  {
    var execute := env.lookup(job.execute);
    if IsNullish(execute) then Failure(MissingJobExecute(job.execute, job.name))
    else
      var result := Job(job.name, job.pattern, execute, job.disabled, None);
      match job.executeOnComplete
      case None => Success(result)
      case Some(path) =>
        var onComplete := env.lookup(path);
        if IsNullish(onComplete) then Failure(MissingJobOnComplete(path, job.name))
        else Success(result.(executeOnComplete := Some(onComplete)))
  }

  /** The first UTF-16 unit of a string, `s[0]`: absent for the empty string. */
  function FirstUnit(s: string): Option<string>
  {
    if s == [] then None else Some(s[..1])
  }

  /**
   * The cron job binding as written: the completion handler is looked up by
   * the first character of its path. An absent path (the empty string) is
   * treated as finding nothing.
   */
  function BindJobAsWritten(env: Env, job: JobDecl): Result<Job, BindError>
  {
    var execute := env.lookup(job.execute);
    if IsNullish(execute) then Failure(MissingJobExecute(job.execute, job.name))
    else
      var result := Job(job.name, job.pattern, execute, job.disabled, None);
      match job.executeOnComplete
      case None => Success(result)
      case Some(path) =>
        var onComplete := match FirstUnit(path) case None => Undefined case Some(p) => env.lookup(p);
        if IsNullish(onComplete) then Failure(MissingJobOnComplete(path, job.name))
        else Success(result.(executeOnComplete := Some(onComplete)))
  }

  /** A bound job copies its name, pattern and flag, and carries a completion handler exactly when one was declared. */
  lemma BindJobMeaning(env: Env, job: JobDecl)
    ensures var r := BindJob(env, job);
      && (r.Success? <==>
            && !IsNullish(env.lookup(job.execute))
            && (job.executeOnComplete.Some? ==> !IsNullish(env.lookup(job.executeOnComplete.value))))
      && (IsNullish(env.lookup(job.execute)) ==> r == Failure(MissingJobExecute(job.execute, job.name)))
      && (r.Success? ==>
            && r.value.name == job.name && r.value.pattern == job.pattern && r.value.disabled == job.disabled
            && r.value.execute == env.lookup(job.execute)
            && (r.value.executeOnComplete.Some? <==> job.executeOnComplete.Some?)
            && (job.executeOnComplete.Some? ==> r.value.executeOnComplete.value == env.lookup(job.executeOnComplete.value)))
  {
  }

  /**
   * A completion handler registered under a path longer than one character is
   * found by the corrected binding and missed by the binding as written.
   */
  lemma BindJobAsWrittenMissesHandler()
    ensures var env := Env((p: string) => if p == "cron.done" then Func(1) else if p == "cron.run" then Func(0) else Undefined,
                           (c: string) => None, (v: Value) => true);
      var job := JobDecl("nightly", "0 0 * * *", "cron.run", Some("cron.done"), Undefined);
      && BindJob(env, job).Success?
      && BindJob(env, job).value.executeOnComplete == Some(Func(1))
      && BindJobAsWritten(env, job) == Failure(MissingJobOnComplete("cron.done", "nightly"))
  {
    var path := "cron.done";
    assert path[..1] == "c";
  }

  /** The two bindings agree on every job without a completion handler. */
  lemma BindJobAsWrittenAgrees(env: Env, job: JobDecl)
    requires job.executeOnComplete.None?
    ensures BindJobAsWritten(env, job) == BindJob(env, job)
  {
  }

  /** The bound jobs: one per declared job, in order, with no `#` filtering. */
  function BindJobs(env: Env, jobs: seq<JobDecl>): Result<seq<Job>, BindError>
  {
    Fold(jobs, [], ListStep((job: JobDecl) => false, (job: JobDecl) => BindJob(env, job)))
  }

  function BindCron(env: Env, decl: CronDecl): Result<Cron, BindError>
  {
    var jobs :- BindJobs(env, decl.jobs);
    Success(Cron(decl.timezone, decl.disabled, jobs))
  }

  /** Cron binds exactly when every job does; timezone and flag are copied and jobs map one-to-one in order. */
  lemma BindCronMeaning(env: Env, decl: CronDecl)
    ensures var r := BindCron(env, decl);
      && (r.Success? <==> forall i :: 0 <= i < |decl.jobs| ==> BindJob(env, decl.jobs[i]).Success?)
      && (r.Success? ==>
            && r.value.timezone == decl.timezone && r.value.disabled == decl.disabled
            && |r.value.jobs| == |decl.jobs|
            && forall i :: 0 <= i < |decl.jobs| ==> BindJob(env, decl.jobs[i]) == Success(r.value.jobs[i]))
      && (r.Failure? ==> exists i ::
            && 0 <= i < |decl.jobs| && BindJob(env, decl.jobs[i]) == Failure(r.error)
            && forall j :: 0 <= j < i ==> BindJob(env, decl.jobs[j]).Success?)
  {
    var skip := (job: JobDecl) => false;
    var bind := (job: JobDecl) => BindJob(env, job);
    ListFoldMeaning(decl.jobs, skip, bind);
    KeepAll(skip, decl.jobs);
    var r := BindCron(env, decl);
    if r.Failure? {
      var i :| FirstFailing(decl.jobs, skip, bind, i) && bind(decl.jobs[i]).error == r.error;
    }
  }

  /**
   * The whole binding: services, then gateway, then cron. A part that is not
   * declared keeps what `prior` held for it.
   */
  function BindProtocol(env: Env, protocol: ProtocolDecl, prior: Implemented): Result<Implemented, BindError>
  {
    var services :- match protocol.services
      case None => Success(prior.services)
      case Some(s) => (var m :- BindServices(env, s); Success(Some(m)));
    var gateway :- match protocol.gateway
      case None => Success(prior.gateway)
      case Some(g) => (var b :- BindGateway(env, g); Success(Some(b)));
    var cron :- match protocol.cron
      case None => Success(prior.cron)
      case Some(c) => (var b :- BindCron(env, c); Success(Some(b)));
    Success(Implemented(services, gateway, cron))
  }

  /** Binding fails exactly when one of the declared parts fails, and each declared part is bound on its own. */
  lemma BindProtocolMeaning(env: Env, protocol: ProtocolDecl, prior: Implemented)
    ensures var r := BindProtocol(env, protocol, prior);
      && (r.Success? <==>
            && (protocol.services.Some? ==> BindServices(env, protocol.services.value).Success?)
            && (protocol.gateway.Some? ==> BindGateway(env, protocol.gateway.value).Success?)
            && (protocol.cron.Some? ==> BindCron(env, protocol.cron.value).Success?))
      && (r.Success? ==>
            && r.value.services == (if protocol.services.None? then prior.services else Some(BindServices(env, protocol.services.value).value))
            && r.value.gateway == (if protocol.gateway.None? then prior.gateway else Some(BindGateway(env, protocol.gateway.value).value))
            && r.value.cron == (if protocol.cron.None? then prior.cron else Some(BindCron(env, protocol.cron.value).value)))
  {
  }

  /** The bound jobs as written: each completion handler is looked up by its path's first character. */
  function BindJobsAsWritten(env: Env, jobs: seq<JobDecl>): Result<seq<Job>, BindError>
  {
    Fold(jobs, [], ListStep((job: JobDecl) => false, (job: JobDecl) => BindJobAsWritten(env, job)))
  }

  function BindCronAsWritten(env: Env, decl: CronDecl): Result<Cron, BindError>
  {
    var jobs :- BindJobsAsWritten(env, decl.jobs);
    Success(Cron(decl.timezone, decl.disabled, jobs))
  }

  /** Cron as written binds exactly when every job binds as written; jobs map one-to-one in order. */
  lemma BindCronAsWrittenMeaning(env: Env, decl: CronDecl)
    ensures var r := BindCronAsWritten(env, decl);
      && (r.Success? <==> forall i :: 0 <= i < |decl.jobs| ==> BindJobAsWritten(env, decl.jobs[i]).Success?)
      && (r.Success? ==>
            && r.value.timezone == decl.timezone && r.value.disabled == decl.disabled
            && |r.value.jobs| == |decl.jobs|
            && forall i :: 0 <= i < |decl.jobs| ==> BindJobAsWritten(env, decl.jobs[i]) == Success(r.value.jobs[i]))
      && (r.Failure? ==> exists i ::
            && 0 <= i < |decl.jobs| && BindJobAsWritten(env, decl.jobs[i]) == Failure(r.error)
            && forall j :: 0 <= j < i ==> BindJobAsWritten(env, decl.jobs[j]).Success?)
  {
    var skip := (job: JobDecl) => false;
    var bind := (job: JobDecl) => BindJobAsWritten(env, job);
    ListFoldMeaning(decl.jobs, skip, bind);
    KeepAll(skip, decl.jobs);
    var r := BindCronAsWritten(env, decl);
    if r.Failure? {
      var i :| FirstFailing(decl.jobs, skip, bind, i) && bind(decl.jobs[i]).error == r.error;
    }
  }

  /** Without completion handlers, cron binds the same as written and corrected. */
  lemma BindCronAsWrittenAgrees(env: Env, decl: CronDecl)
    requires forall i :: 0 <= i < |decl.jobs| ==> decl.jobs[i].executeOnComplete.None?
    ensures BindCronAsWritten(env, decl) == BindCron(env, decl)
  {
    var bind1 := (job: JobDecl) => BindJobAsWritten(env, job);
    var bind2 := (job: JobDecl) => BindJob(env, job);
    forall i | 0 <= i < |decl.jobs| ensures bind1(decl.jobs[i]) == bind2(decl.jobs[i]) {
      BindJobAsWrittenAgrees(env, decl.jobs[i]);
    }
    ListFoldAgree(decl.jobs, (job: JobDecl) => false, bind1, bind2);
  }

  /** The whole binding as written: services and gateway as corrected, cron as written. */
  function BindProtocolAsWritten(env: Env, protocol: ProtocolDecl, prior: Implemented): Result<Implemented, BindError>
  {
    var services :- match protocol.services
      case None => Success(prior.services)
      case Some(s) => (var m :- BindServices(env, s); Success(Some(m)));
    var gateway :- match protocol.gateway
      case None => Success(prior.gateway)
      case Some(g) => (var b :- BindGateway(env, g); Success(Some(b)));
    var cron :- match protocol.cron
      case None => Success(prior.cron)
      case Some(c) => (var b :- BindCronAsWritten(env, c); Success(Some(b)));
    Success(Implemented(services, gateway, cron))
  }

  /**
   * Binding as written differs from the corrected binding only in cron: it fails exactly
   * when a declared part fails as written, and a declared cron is its binding as written.
   */
  lemma BindProtocolAsWrittenMeaning(env: Env, protocol: ProtocolDecl, prior: Implemented)
    ensures var r := BindProtocolAsWritten(env, protocol, prior);
      && (r.Success? <==>
            && (protocol.services.Some? ==> BindServices(env, protocol.services.value).Success?)
            && (protocol.gateway.Some? ==> BindGateway(env, protocol.gateway.value).Success?)
            && (protocol.cron.Some? ==> BindCronAsWritten(env, protocol.cron.value).Success?))
      && (r.Success? ==>
            && r.value.services == (if protocol.services.None? then prior.services else Some(BindServices(env, protocol.services.value).value))
            && r.value.gateway == (if protocol.gateway.None? then prior.gateway else Some(BindGateway(env, protocol.gateway.value).value))
            && r.value.cron == (if protocol.cron.None? then prior.cron else Some(BindCronAsWritten(env, protocol.cron.value).value)))
  {
  }

  /** When no cron job declares a completion handler, the two bindings of a protocol agree. */
  lemma BindProtocolAsWrittenAgrees(env: Env, protocol: ProtocolDecl, prior: Implemented)
    requires protocol.cron.Some? ==>
      forall i :: 0 <= i < |protocol.cron.value.jobs| ==> protocol.cron.value.jobs[i].executeOnComplete.None?
    ensures BindProtocolAsWritten(env, protocol, prior) == BindProtocol(env, protocol, prior)
  {
    if protocol.cron.Some? {
      BindCronAsWrittenAgrees(env, protocol.cron.value);
    }
  }

  /** `<name>.v<version>` for every declared service, hidden ones included. */
  function Dependencies(services: seq<(string, ServiceDecl)>): seq<string>
  {
    seq(|services|, i requires 0 <= i < |services| => QualifiedName(services[i].0, services[i].1.version))
  }

  /**
   * Every bound service is a dependency, and a dependency is missing from the
   * bound services only when its service is hidden.
   */
  lemma DependenciesCoverServices(env: Env, services: seq<(string, ServiceDecl)>)
    requires BindServices(env, services).Success?
    ensures |Dependencies(services)| == |services|
    ensures forall k :: k in BindServices(env, services).value ==> k in Dependencies(services)
    ensures forall i :: 0 <= i < |services| ==>
      (Dependencies(services)[i] in BindServices(env, services).value <==> !Hidden(services[i].0))
  {
    BindServicesMeaning(env, services);
    var m := BindServices(env, services).value;
    var deps := Dependencies(services);
    forall k | k in m ensures k in deps {
      var i :| 0 <= i < |services| && !Hidden(services[i].0) && QualifiedName(services[i].0, services[i].1.version) == k;
      assert deps[i] == k;
    }
    forall i | 0 <= i < |services| ensures deps[i] in m <==> !Hidden(services[i].0) {
      if deps[i] in m {
        var j :| 0 <= j < |services| && !Hidden(services[j].0) && QualifiedName(services[j].0, services[j].1.version) == deps[i];
        QualifiedNameInjective(services[j].0, services[j].1.version, services[i].0, services[i].1.version);
      }
    }
  }
}
