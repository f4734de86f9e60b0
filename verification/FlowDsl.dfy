/**
 * The part of a flow document that the endpoint managers read.
 *
 * A node's raw configuration is parsed by library code that is not part of this model. Parsing is
 * deterministic, so a node carries the outcome: `None` when the configuration is rejected, and
 * otherwise the configuration with its listen address, TLS fingerprint and route patterns already
 * in normal form.
 */
module FlowDsl {
  import opened Prelude

  datatype Router = Router(pattern: string, relation: string)

  datatype HttpConfig = HttpConfig(addr: string, https: bool, fp: string, allowCors: bool, routers: seq<Router>)

  datatype InConfig = InConfig(topic: string, connectAndRespond: bool)

  /** `managed` is the library's answer to "does this sender need a managed client?". */
  datatype OutConfig = OutConfig(managed: bool, reuseFrom: string, persistent: bool)

  datatype Node =
    | HttpNode(id: string, http: Option<HttpConfig>)
    | MqttInNode(id: string, inCfg: Option<InConfig>)
    | MqttOutNode(id: string, outCfg: Option<OutConfig>)
    | OtherNode(id: string)

  datatype Dsl = Dsl(id: string, name: string, nodes: seq<Node>)
}
