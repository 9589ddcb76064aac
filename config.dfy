/**
 * The service configuration adapter: fixed defaults, an HTTP server block when
 * a gateway is declared, and the namespace taken from the cluster's namespace
 * file when that file can be read.
 */
module ConfigModel {
  import opened Wrappers
  import opened Js

  datatype NodeInfo = NodeInfo(namespace: string, name: Value, version: Value)

  datatype HttpServer = HttpServer(ip: string, port: int)

  /** `http` is present only when the configuration gets a server block. */
  datatype Config = Config(
    node: NodeInfo,
    logLevel: string,
    amqp: string,
    probe: int,
    domain: map<string, Value>,
    http: Option<HttpServer>)

  const DefaultPort := 8080

  /**
   * The configuration the adapter ends with for package `pkg` and protocol
   * `protocol`; `port` is the parsed `PORT` variable when it is set and
   * `namespaceFile` the namespace file's contents when it can be read.
   */
  function Configured(pkg: Value, protocol: Value, port: Option<int>, namespaceFile: Option<string>): (c: Config)
    ensures c.node.name == Prop(pkg, "name") && c.node.version == Prop(pkg, "version")
    ensures c.logLevel == "INFO" && c.amqp == "amqp://127.0.0.1:5672/local"
    ensures c.probe == 5000 && c.domain == map[]
    ensures c.http.Some? <==> !IsNullish(Prop(protocol, "gateway"))
    ensures c.http.Some? ==> c.http.value.ip == "0.0.0.0"
    ensures c.http.Some? && port.Some? ==> c.http.value.port == port.value
    ensures c.http.Some? && port.None? ==> c.http.value.port == DefaultPort
    ensures namespaceFile.None? ==> c.node.namespace == "local"
    ensures namespaceFile.Some? ==> c.node.namespace == Trim(namespaceFile.value)
  {
    Config(
      NodeInfo(
        if namespaceFile.Some? then Trim(namespaceFile.value) else "local",
        Prop(pkg, "name"),
        Prop(pkg, "version")),
      "INFO",
      "amqp://127.0.0.1:5672/local",
      5000,
      map[],
      if IsNullish(Prop(protocol, "gateway")) then None
      else Some(HttpServer("0.0.0.0", if port.Some? then port.value else DefaultPort)))
  }

  /** Whatever the inputs, only the namespace and the server block depend on anything but the package. */
  lemma ConfiguredOnlyOverrides(pkg: Value, protocol: Value, port: Option<int>, namespaceFile: Option<string>)
    ensures var c := Configured(pkg, protocol, port, namespaceFile);
      c.(node := c.node.(namespace := "local"), http := None) == Configured(pkg, Obj(map[]), None, None)
  {
  }

  class ConfigAdapter {
    var values: Config

    /**
     * Fixed defaults first, then the server block and the namespace override, one after the other.
     * Reading `name` of a nullish package or `gateway` of a nullish protocol throws, so the
     * caller must rule those out first.
     */
    constructor(pkg: Value, protocol: Value, port: Option<int>, namespaceFile: Option<string>)
      requires !IsNullish(pkg) && !IsNullish(protocol)
      ensures values == Configured(pkg, protocol, port, namespaceFile)
    {
      values := Config(
        NodeInfo("local", Prop(pkg, "name"), Prop(pkg, "version")),
        "INFO",
        "amqp://127.0.0.1:5672/local",
        5000,
        map[],
        None);
      new;
      if !IsNullish(Prop(protocol, "gateway")) {
        var p := if port.Some? then port.value else DefaultPort;
        values := values.(http := Some(HttpServer("0.0.0.0", p)));
      }
      if namespaceFile.Some? {
        values := values.(node := values.node.(namespace := Trim(namespaceFile.value)));
      }
    }
  }
}
