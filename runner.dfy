/**
 * The runner's start-up state: the configuration, the list of services it
 * depends on, the optional extensions and the implemented protocol, filled in
 * by loading the configuration and then binding the declared protocol.
 */
module RunnerModel {
  import opened Wrappers
  import opened Js
  import opened Binder
  import opened ConfigModel

  /** The include's module loaded and exports a non-null `default`. */
  predicate HasDefault(loaded: Option<Value>)
  {
    loaded.Some? && !IsNullish(loaded.value)
  }

  /**
   * The extensions gathered from the optional includes: `loaded[i]` is the
   * `default` export of `includes[i]`, or `None` when importing it failed.
   */
  function ExtensionsOf(includes: seq<string>, loaded: seq<Option<Value>>): map<string, Value>
    requires |loaded| == |includes|
    decreases |includes|
  {
    if includes == [] then map[]
    else
      var n := |includes| - 1;
      var acc := ExtensionsOf(includes[..n], loaded[..n]);
      if HasDefault(loaded[n]) then acc[includes[n] := loaded[n].value] else acc
  }

  /** An include is an extension exactly when one of its imports has a non-null default export. */
  lemma {:induction false} ExtensionsKeys(includes: seq<string>, loaded: seq<Option<Value>>)
    requires |loaded| == |includes|
    ensures forall k :: k in ExtensionsOf(includes, loaded) <==>
      exists i :: 0 <= i < |includes| && includes[i] == k && HasDefault(loaded[i])
    decreases |includes|
  {
    if includes != [] {
      var n := |includes| - 1;
      var p, q := includes[..n], loaded[..n];
      ExtensionsKeys(p, q);
      var r := ExtensionsOf(includes, loaded);
      assert r == if HasDefault(loaded[n]) then ExtensionsOf(p, q)[includes[n] := loaded[n].value] else ExtensionsOf(p, q);
      forall k ensures k in r <==> exists i :: 0 <= i < |includes| && includes[i] == k && HasDefault(loaded[i]) {
        if k in r && !(k == includes[n] && HasDefault(loaded[n])) {
          var i :| 0 <= i < |p| && p[i] == k && HasDefault(q[i]);
          assert includes[i] == p[i] && loaded[i] == q[i];
        }
        if exists i :: 0 <= i < |includes| && includes[i] == k && HasDefault(loaded[i]) {
          var i :| 0 <= i < |includes| && includes[i] == k && HasDefault(loaded[i]);
          if i < n {
            assert p[i] == includes[i] && q[i] == loaded[i];
          }
        }
      }
    }
  }

  /** Each extension is the default export of the last import of its include that has one. */
  lemma {:induction false} ExtensionsLast(includes: seq<string>, loaded: seq<Option<Value>>)
    requires |loaded| == |includes|
    ensures forall k :: k in ExtensionsOf(includes, loaded) ==> exists i ::
      && 0 <= i < |includes| && includes[i] == k && HasDefault(loaded[i])
      && ExtensionsOf(includes, loaded)[k] == loaded[i].value
      && forall j :: i < j < |includes| && includes[j] == k ==> !HasDefault(loaded[j])
    decreases |includes|
  {
    if includes != [] {
      var n := |includes| - 1;
      var p, q := includes[..n], loaded[..n];
      ExtensionsLast(p, q);
      var r := ExtensionsOf(includes, loaded);
      assert r == if HasDefault(loaded[n]) then ExtensionsOf(p, q)[includes[n] := loaded[n].value] else ExtensionsOf(p, q);
      forall k | k in r ensures exists i ::
        && 0 <= i < |includes| && includes[i] == k && HasDefault(loaded[i])
        && r[k] == loaded[i].value
        && forall j :: i < j < |includes| && includes[j] == k ==> !HasDefault(loaded[j])
      {
        if !(k == includes[n] && HasDefault(loaded[n])) {
          assert k in ExtensionsOf(p, q) && r[k] == ExtensionsOf(p, q)[k];
          var i :| && 0 <= i < |p| && p[i] == k && HasDefault(q[i])
                   && ExtensionsOf(p, q)[k] == q[i].value
                   && forall j :: i < j < |p| && p[j] == k ==> !HasDefault(q[j]);
          assert includes[i] == p[i] && loaded[i] == q[i];
          forall j | i < j < |includes| && includes[j] == k ensures !HasDefault(loaded[j]) {
            if j < n {
              assert p[j] == includes[j] && q[j] == loaded[j];
            }
          }
        }
      }
    }
  }

  /**
   * An include is an extension exactly when one of its imports has a non-null
   * default export, and the extension is the last such export.
   */
  lemma ExtensionsMeaning(includes: seq<string>, loaded: seq<Option<Value>>)
    requires |loaded| == |includes|
    ensures forall k :: k in ExtensionsOf(includes, loaded) <==>
      exists i :: 0 <= i < |includes| && includes[i] == k && HasDefault(loaded[i])
    ensures forall k :: k in ExtensionsOf(includes, loaded) ==> exists i ::
      && 0 <= i < |includes| && includes[i] == k && HasDefault(loaded[i])
      && ExtensionsOf(includes, loaded)[k] == loaded[i].value
      && forall j :: i < j < |includes| && includes[j] == k ==> !HasDefault(loaded[j])
  {
    ExtensionsKeys(includes, loaded);
    ExtensionsLast(includes, loaded);
  }

  /** The `extensions` reduce: walks the settled imports in order, keeping each non-null default export under its include's name. */
  method CollectExtensions(includes: seq<string>, loaded: seq<Option<Value>>) returns (acc: map<string, Value>)
    requires |loaded| == |includes|
    ensures acc == ExtensionsOf(includes, loaded)
  {
    acc := map[];
    var index := 0;
    while index < |includes|
      invariant 0 <= index <= |includes|
      invariant acc == ExtensionsOf(includes[..index], loaded[..index])
    {
      assert includes[..index + 1][..index] == includes[..index];
      assert loaded[..index + 1][..index] == loaded[..index];
      var name := includes[index];
      if HasDefault(loaded[index]) {
        acc := acc[name := loaded[index].value];
      }
      index := index + 1;
    }
    assert includes[..index] == includes && loaded[..index] == loaded;
  }

  class Runner {
    var config: Option<Config>
    var dependencies: seq<string>
    var extensions: map<string, Value>
    var implemented: Implemented

    constructor()
      ensures config == None && dependencies == [] && extensions == map[]
      ensures implemented == Implemented(None, None, None)
    {
      config := None;
      dependencies := [];
      extensions := map[];
      implemented := Implemented(None, None, None);
    }

    /**
     * Loading the configuration, once the project's configuration module and
     * protocol module have been imported: the configuration is computed, the
     * implementation factory must be a function, then the extensions and the
     * dependencies are recorded. Returns false where start-up ends: a nullish
     * project or configuration module throws before the configuration is
     * stored, a non-function implementation right after.
     */
    method LoadConfiguration(
      project: Value, configModule: Value, implementation: Value,
      includes: seq<string>, loaded: seq<Option<Value>>,
      services: Option<seq<(string, ServiceDecl)>>,
      port: Option<int>, namespaceFile: Option<string>) returns (ok: bool)
      requires |loaded| == |includes|
      modifies this
      ensures config == if IsNullish(project) || IsNullish(configModule) then old(config)
                        else Some(Configured(project, configModule, port, namespaceFile))
      ensures ok <==> !IsNullish(project) && !IsNullish(configModule) && implementation.Func?
      ensures ok ==> extensions == ExtensionsOf(includes, loaded)
      ensures ok ==> dependencies == if services.Some? then Dependencies(services.value) else old(dependencies)
      ensures !ok ==> extensions == old(extensions) && dependencies == old(dependencies)
      ensures implemented == old(implemented)
    {
      if IsNullish(project) || IsNullish(configModule) {
        return false;
      }
      var adapter := new ConfigAdapter(project, configModule, port, namespaceFile);
      config := Some(adapter.values);
      if !implementation.Func? {
        return false;
      }
      extensions := CollectExtensions(includes, loaded);
      if services.Some? {
        dependencies := Dependencies(services.value);
      }
      return true;
    }

    /**
     * Binding the declared protocol: the services and their actions, then the
     * gateway routes and middlewares, then the cron jobs. Each part is stored
     * once it is bound; the first unresolved reference ends start-up.
     */
    method Implement(env: Env, protocol: ProtocolDecl) returns (r: Result<(), BindError>)
      modifies this
      ensures r.Success? <==> BindProtocol(env, protocol, old(implemented)).Success?
      ensures r.Success? ==> implemented == BindProtocol(env, protocol, old(implemented)).value
      ensures r.Failure? ==> r.error == BindProtocol(env, protocol, old(implemented)).error
      ensures config == old(config) && dependencies == old(dependencies) && extensions == old(extensions)
    {
      if protocol.services.Some? {
        var services := ImplementServices(env, protocol.services.value);
        if services.Failure? {
          return Failure(services.error);
        }
        implemented := implemented.(services := Some(services.value));
      }
      if protocol.gateway.Some? {
        var gateway := protocol.gateway.value;
        var routes := ImplementRoutes(env, gateway.routes);
        if routes.Failure? {
          return Failure(routes.error);
        }
        var middlewares := if gateway.middlewares.None? then Success([])
                           else ResolveMiddlewares(env, gateway.middlewares.value, None);
        if middlewares.Failure? {
          return Failure(middlewares.error);
        }
        implemented := implemented.(gateway := Some(Gateway(middlewares.value, routes.value)));
      }
      if protocol.cron.Some? {
        var cron := BindCron(env, protocol.cron.value);
        if cron.Failure? {
          return Failure(cron.error);
        }
        implemented := implemented.(cron := Some(cron.value));
      }
      return Success(());
    }
  }

  /** Fills the actions dictionary of one service, action by action; the first action that does not bind ends it. */
  method ImplementActions(env: Env, fullName: string, actions: seq<(string, ActionDecl)>)
    returns (r: Result<map<string, Action>, BindError>)
    ensures r == BindActions(env, fullName, actions)
  {
    var implementedServiceActions: map<string, Action> := map[];
    var j := 0;
    while j < |actions|
      invariant 0 <= j <= |actions|
      invariant BindActions(env, fullName, actions[..j]) == Success(implementedServiceActions)
    {
      var (actionName, action) := actions[j];
      FoldNext(actions, map[], ActionsStep(env, fullName), j);
      if !Hidden(actionName) {
        var bound := BindAction(env, action, InService(fullName, actionName));
        if bound.Failure? {
          FoldPrefixFailure(actions, map[], ActionsStep(env, fullName), j + 1);
          return Failure(bound.error);
        }
        implementedServiceActions := implementedServiceActions[actionName := bound.value];
      }
      j := j + 1;
    }
    assert actions[..j] == actions;
    return Success(implementedServiceActions);
  }

  /** Fills the services dictionary under `<name>.v<version>`, skipping hidden services. */
  method ImplementServices(env: Env, entries: seq<(string, ServiceDecl)>)
    returns (r: Result<map<string, Service>, BindError>)
    ensures r == BindServices(env, entries)
  {
    var implementedServices: map<string, Service> := map[];
    var i := 0;
    while i < |entries|
      invariant 0 <= i <= |entries|
      invariant BindServices(env, entries[..i]) == Success(implementedServices)
    {
      var (serviceName, service) := entries[i];
      FoldNext(entries, map[], ServicesStep(env), i);
      if !Hidden(serviceName) {
        var fullName := QualifiedName(serviceName, service.version);
        var actions := ImplementActions(env, fullName, service.actions);
        if actions.Failure? {
          FoldPrefixFailure(entries, map[], ServicesStep(env), i + 1);
          return Failure(actions.error);
        }
        implementedServices := implementedServices[fullName := Service(service.version, service.transports, actions.value)];
      }
      i := i + 1;
    }
    assert entries[..i] == entries;
    return Success(implementedServices);
  }

  /**
   * Pushes one route per non-hidden route key: every string route first, as the route
   * callbacks run, then every object route once its validators are compiled; the first
   * object route that does not bind ends it.
   */
  method ImplementRoutes(env: Env, entries: seq<(string, RouteDecl)>) returns (r: Result<seq<Route>, BindError>)
    ensures r == BindRoutes(env, entries)
  {
    var aliases := ImplementAliasRoutes(env, entries);
    var handlers := ImplementHandlerRoutes(env, entries);
    if handlers.Failure? {
      return Failure(handlers.error);
    }
    return Success(aliases + handlers.value);
  }

  /** The synchronous pass: a string route is pushed as an alias of the action it names. */
  method ImplementAliasRoutes(env: Env, entries: seq<(string, RouteDecl)>) returns (aliases: seq<Route>)
    ensures Fold(entries, [], AliasRoutesStep(env)) == Success(aliases)
  {
    aliases := [];
    var i := 0;
    while i < |entries|
      invariant 0 <= i <= |entries|
      invariant Fold(entries[..i], [], AliasRoutesStep(env)) == Success(aliases)
    {
      var (alias, route) := entries[i];
      FoldNext(entries, [], AliasRoutesStep(env), i);
      AliasRoutesStepMeaning(env, aliases, entries[i]);
      if !Hidden(alias) && route.StringRoute? {
        var (verb, url) := SplitRouteKey(alias);
        aliases := aliases + [Route(verb, url, AliasOf(route.target))];
      }
      i := i + 1;
    }
    assert entries[..i] == entries;
  }

  /** The pass after validators are compiled: each object route is bound to its action. */
  method ImplementHandlerRoutes(env: Env, entries: seq<(string, RouteDecl)>) returns (r: Result<seq<Route>, BindError>)
    ensures r == Fold(entries, [], HandlerRoutesStep(env))
  {
    var handlers: seq<Route> := [];
    var i := 0;
    while i < |entries|
      invariant 0 <= i <= |entries|
      invariant Fold(entries[..i], [], HandlerRoutesStep(env)) == Success(handlers)
    {
      var (alias, route) := entries[i];
      HandlerRoutesNext(env, entries, i, handlers);
      if !Hidden(alias) && route.ObjectRoute? {
        match BindRoute(env, alias, route)
        case Failure(err) =>
          FoldPrefixFailure(entries, [], HandlerRoutesStep(env), i + 1);
          return Failure(err);
        case Success(bound) =>
          handlers := handlers + [bound];
      }
      i := i + 1;
    }
    assert entries[..i] == entries;
    return Success(handlers);
  }
}
