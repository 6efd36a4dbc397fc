/**
 * The configuration model of the reverse-proxy engine (YARP) that the gateway fills in:
 * routes, clusters and their destinations, and the builder that in-memory configuration
 * and request transforms are loaded into. The engine itself is foreign code; the builder
 * records only what was handed to it.
 */
module ProxyConfig {
  import opened Wrappers

  /**
   * A `System.Uri`. For an absolute URI, `absoluteUri` is the text that `Uri.AbsoluteUri`
   * returns; on a relative URI that property throws.
   */
  datatype Uri = Absolute(absoluteUri: string) | Relative(originalString: string)

  /** `RouteMatch`: the path pattern a route matches. */
  datatype RouteMatch = RouteMatch(path: string)

  /** `RouteConfig`: a forwarding rule and the cluster it forwards to. */
  datatype RouteConfig = RouteConfig(
    routeId: string,
    clusterId: string,
    routeMatch: RouteMatch,
    metadata: map<string, string>,
    transforms: seq<map<string, string>>)

  /** `DestinationConfig`: one backend address of a cluster. */
  datatype DestinationConfig = DestinationConfig(address: string)

  /** `ClusterConfig`: a named group of destinations. */
  datatype ClusterConfig = ClusterConfig(
    clusterId: string,
    destinations: map<string, DestinationConfig>)

  /** The two parallel lists that are loaded into the engine together. */
  datatype ProxyConfig = ProxyConfig(routes: seq<RouteConfig>, clusters: seq<ClusterConfig>)

  /** A request transform: overwrite the forwarded headers with the given public origin. */
  datatype RequestTransform = SetForwardedHeaders(origin: Option<Uri>)

  /**
   * `IReverseProxyBuilder`, reduced to the two calls the gateway makes on it: the
   * configuration loaded from memory (`None` until `LoadFromMemory` is called) and the
   * request transforms added so far.
   */
  class ReverseProxyBuilder {
    var loaded: Option<ProxyConfig>
    var requestTransforms: seq<RequestTransform>

    constructor ()
      ensures loaded == None && requestTransforms == []
    {
      loaded := None;
      requestTransforms := [];
    }

    /** `LoadFromMemory(routes, clusters)`: installs the given configuration. */
    method LoadFromMemory(routes: seq<RouteConfig>, clusters: seq<ClusterConfig>)
      modifies this
      ensures loaded == Some(ProxyConfig(routes, clusters))
      ensures requestTransforms == old(requestTransforms)
    {
      loaded := Some(ProxyConfig(routes, clusters));
    }

    /** `AddTransforms(builder => builder.AddRequestTransform(t))`: appends one transform. */
    method AddRequestTransform(t: RequestTransform)
      modifies this
      ensures requestTransforms == old(requestTransforms) + [t]
      ensures loaded == old(loaded)
    {
      requestTransforms := requestTransforms + [t];
    }
  }
}
