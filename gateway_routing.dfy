/**
 * The gateway's translation of its static route settings into the reverse-proxy
 * engine's in-memory configuration (`GatewayRouting.AddGatewayRoutes`): one route and
 * one single-destination cluster per route setting that has a path match, and a
 * configuration error for the first path-matched setting without a usable base URL.
 */
module GatewayRouting {
  import opened Wrappers
  import opened ProxyConfig

  /** `RouteSettings`, reduced to the two properties the translation reads. */
  datatype RouteSettings = RouteSettings(pathMatch: Option<string>, baseUrl: Option<Uri>)

  /** One entry of the `Routes` dictionary: the route key and its settings. */
  type RouteEntry = (string, RouteSettings)

  /**
   * `GatewayRoutingSettings`, reduced to what the translation reads: the routes in the
   * dictionary's enumeration order, and the public origin of the gateway.
   */
  datatype GatewayRoutingSettings = GatewayRoutingSettings(
    routes: seq<RouteEntry>,
    resourceProxy: Option<Uri>)

  /**
   * The `InvalidOperationException`s that stop the translation: the gateway's own, for a
   * path-matched route without a base URL, and the one `Uri.AbsoluteUri` raises for a
   * relative base URL.
   */
  datatype ConfigError = MissingBaseUrl(routeKey: string) | RelativeUri

  const RouteNameKey: string := "RouteName"
  const DefaultDestination: string := "default"
  /** The per-route transform that turns off the engine's default forwarded headers. */
  const ForwardedHeadersOff: map<string, string> := map["X-Forwarded" := "Off"]

  const MessagePrefix: string := "A 'BaseUrl' must be set for route '"
  const MessageSuffix: string := "'"
  /** The text of the .NET library's exception for `AbsoluteUri` on a relative URI. */
  const RelativeUriMessage: string := "This operation is not supported for a relative URI."

  /** `string.IsNullOrEmpty`: the string is `null` or has no characters. */
  predicate IsNullOrEmpty(s: Option<string>): (r: bool)
    ensures r <==> !(s.Some? && |s.value| > 0)
  {
    s.None? || s.value == ""
  }

  /** The settings ask for a gateway route. */
  predicate HasPathMatch(s: RouteSettings) {
    !IsNullOrEmpty(s.pathMatch)
  }

  /**
   * The settings ask for a gateway route but give it no usable destination: no base URL,
   * or a relative one whose `AbsoluteUri` throws.
   */
  predicate Rejected(s: RouteSettings) {
    HasPathMatch(s) && (s.baseUrl.None? || s.baseUrl.value.Relative?)
  }

  /** The exception a rejected entry raises. */
  function RejectionOf(e: RouteEntry): ConfigError
    requires Rejected(e.1)
  {
    if e.1.baseUrl.None? then MissingBaseUrl(e.0) else RelativeUri
  }

  /** Route keys are pairwise distinct, as the keys of a dictionary are. */
  ghost predicate DistinctKeys(entries: seq<RouteEntry>) {
    forall i, j :: 0 <= i < j < |entries| ==> entries[i].0 != entries[j].0
  }

  /**
   * The text of the exception for `e`. The route key can be read back from it, so
   * messages for different routes differ.
   */
  function Message(e: ConfigError): (m: string)
    ensures e.MissingBaseUrl? ==>
              && |m| == |MessagePrefix| + |e.routeKey| + |MessageSuffix|
              && m[..|MessagePrefix|] == MessagePrefix
              && m[|MessagePrefix|..|m| - |MessageSuffix|] == e.routeKey
  {
    match e
    case MissingBaseUrl(key) => MessagePrefix + key + MessageSuffix
    case RelativeUri => RelativeUriMessage
  }

  /** The route built for key `key` whose path pattern is `path`. */
  function GatewayRoute(key: string, path: string): (r: RouteConfig)
    ensures r.routeId == key && r.clusterId == key && r.routeMatch.path == path
    ensures r.metadata.Keys == {"RouteName"} && r.metadata["RouteName"] == key
    ensures |r.transforms| == 1 && r.transforms[0].Keys == {"X-Forwarded"}
    ensures r.transforms[0]["X-Forwarded"] == "Off"
  {
    RouteConfig(key, key, RouteMatch(path), map[RouteNameKey := key], [ForwardedHeadersOff])
  }

  /** The cluster built for key `key` whose only destination is at `address`. */
  function GatewayCluster(key: string, address: string): (r: ClusterConfig)
    ensures r.clusterId == key && r.destinations.Keys == {"default"}
    ensures r.destinations["default"].address == address
  {
    ClusterConfig(key, map[DefaultDestination := DestinationConfig(address)])
  }

  /** One pass of the `foreach` body over entry `e`, with `acc` the lists built so far. */
  function Visit(acc: ProxyConfig, e: RouteEntry): (r: Result<ProxyConfig, ConfigError>)
    ensures r.Failure? <==> Rejected(e.1)
    ensures r.Failure? ==> r.error == RejectionOf(e)
    ensures r.Success? ==>
              && |r.value.routes| - |acc.routes| == |r.value.clusters| - |acc.clusters|
                   == (if HasPathMatch(e.1) then 1 else 0)
              && r.value.routes[..|acc.routes|] == acc.routes
              && r.value.clusters[..|acc.clusters|] == acc.clusters
  {
    var (key, s) := e;
    if IsNullOrEmpty(s.pathMatch) then Success(acc)
    else if s.baseUrl.None? then Failure(MissingBaseUrl(key))
    else match s.baseUrl.value
      case Relative(_) => Failure(RelativeUri)
      case Absolute(address) =>
        Success(ProxyConfig(acc.routes + [GatewayRoute(key, s.pathMatch.value)],
                            acc.clusters + [GatewayCluster(key, address)]))
  }

  /**
   * The lists the `foreach` over `entries` builds, or the exception that stops it:
   * the body applied to each entry in enumeration order, the first failure ending it.
   */
  function Translate(entries: seq<RouteEntry>): (r: Result<ProxyConfig, ConfigError>)
    ensures r.Success? ==> |r.value.routes| == |r.value.clusters| <= |entries|
    decreases |entries|
  {
    if entries == [] then Success(ProxyConfig([], []))
    else match Translate(entries[..|entries| - 1])
      case Failure(e) => Failure(e)
      case Success(acc) => Visit(acc, entries[|entries| - 1])
  }

  /** Reference definition: the entries that ask for a gateway route, in enumeration order. */
  function Matched(entries: seq<RouteEntry>): (r: seq<RouteEntry>)
    ensures |r| <= |entries|
    decreases |entries|
  {
    if entries == [] then []
    else
      var rest := Matched(entries[..|entries| - 1]);
      if HasPathMatch(entries[|entries| - 1].1) then rest + [entries[|entries| - 1]] else rest
  }

  /** `i` is the first entry that asks for a gateway route without a usable base URL. */
  ghost predicate FirstRejected(entries: seq<RouteEntry>, i: int) {
    0 <= i < |entries| && Rejected(entries[i].1)
    && forall j :: 0 <= j < i ==> !Rejected(entries[j].1)
  }

  /** What a consistent engine configuration looks like. */
  ghost predicate WellFormed(c: ProxyConfig) {
    && |c.routes| == |c.clusters|
    && (forall k :: 0 <= k < |c.routes| ==>
          c.routes[k].clusterId == c.clusters[k].clusterId
          && c.routes[k].routeId == c.routes[k].clusterId
          && |c.routes[k].transforms| == 1
          && |c.clusters[k].destinations| == 1)
    && (forall i, j :: 0 <= i < j < |c.routes| ==> c.routes[i].routeId != c.routes[j].routeId)
    && (forall i, j :: 0 <= i < j < |c.clusters| ==> c.clusters[i].clusterId != c.clusters[j].clusterId)
  }

  // ---------------------------------------------------------------------------
  // The reference filter

  /** Every selected entry is an entry of the input and asks for a gateway route. */
  lemma {:induction false} MatchedSound(entries: seq<RouteEntry>)
    ensures forall k :: 0 <= k < |Matched(entries)| ==>
              Matched(entries)[k] in entries && HasPathMatch(Matched(entries)[k].1)
    decreases |entries|
  {
    if entries != [] {
      var init := entries[..|entries| - 1];
      MatchedSound(init);
      forall k | 0 <= k < |Matched(init)| ensures Matched(init)[k] in entries {
        var j :| 0 <= j < |init| && init[j] == Matched(init)[k];
        assert entries[j] == init[j];
      }
    }
  }

  /** Every entry that asks for a gateway route is selected. */
  lemma {:induction false} MatchedComplete(entries: seq<RouteEntry>)
    ensures forall i :: 0 <= i < |entries| && HasPathMatch(entries[i].1) ==> entries[i] in Matched(entries)
    decreases |entries|
  {
    if entries != [] {
      var init := entries[..|entries| - 1];
      MatchedComplete(init);
      forall i | 0 <= i < |entries| - 1 && HasPathMatch(entries[i].1)
        ensures entries[i] in Matched(entries)
      {
        assert entries[i] == init[i];
      }
    }
  }

  /** Selection keeps the enumeration order: it distributes over concatenation. */
  lemma {:induction false} MatchedAppend(p: seq<RouteEntry>, q: seq<RouteEntry>)
    ensures Matched(p + q) == Matched(p) + Matched(q)
    decreases |q|
  {
    if q == [] {
      assert p + q == p;
    } else {
      var q' := q[..|q| - 1];
      assert (p + q)[..|p + q| - 1] == p + q';
      assert (p + q)[|p + q| - 1] == q[|q| - 1];
      MatchedAppend(p, q');
    }
  }

  /** Selection keeps the keys distinct. */
  lemma {:induction false} MatchedDistinct(entries: seq<RouteEntry>)
    requires DistinctKeys(entries)
    ensures DistinctKeys(Matched(entries))
    decreases |entries|
  {
    if entries != [] {
      var init := entries[..|entries| - 1];
      var last := entries[|entries| - 1];
      assert DistinctKeys(init) by {
        forall i, j | 0 <= i < j < |init| ensures init[i].0 != init[j].0 {
          assert init[i] == entries[i] && init[j] == entries[j];
        }
      }
      MatchedDistinct(init);
      if HasPathMatch(last.1) {
        MatchedSound(init);
        var m := Matched(init);
        forall k | 0 <= k < |m| ensures m[k].0 != last.0 {
          var j :| 0 <= j < |init| && init[j] == m[k];
          assert entries[j] == init[j];
        }
        assert Matched(entries) == m + [last];
      }
    }
  }

  // ---------------------------------------------------------------------------
  // Properties of the translation

  /**
   * The translation fails exactly when some entry asks for a gateway route without a
   * usable base URL, and then its error is the one the first such entry in enumeration
   * order raises: `MissingBaseUrl` with its key when it has no base URL, `RelativeUri`
   * when its base URL is relative.
   */
  lemma {:induction false} TranslateFailure(entries: seq<RouteEntry>)
    ensures Translate(entries).Failure? <==>
              exists i :: 0 <= i < |entries| && Rejected(entries[i].1)
    ensures Translate(entries).Failure? ==>
              exists i :: FirstRejected(entries, i) && Translate(entries).error == RejectionOf(entries[i])
    decreases |entries|
  {
    if entries != [] {
      var n := |entries| - 1;
      var init := entries[..n];
      TranslateFailure(init);
      forall i | 0 <= i < n ensures entries[i] == init[i] { }
      match Translate(init)
      case Failure(e) =>
        var i :| FirstRejected(init, i) && e == RejectionOf(init[i]);
        assert FirstRejected(entries, i);
      case Success(_) =>
        if Rejected(entries[n].1) {
          assert FirstRejected(entries, n);
        }
    }
  }

  /**
   * When every path-matched entry has an absolute base URL the translation succeeds, and its i-th
   * route and i-th cluster are both built from the i-th path-matched entry: ids, metadata
   * and path from the entry's key and path match, one `X-Forwarded: Off` transform, and a
   * single destination named `default` at the entry's base URL.
   */
  lemma {:induction false} TranslateSuccess(entries: seq<RouteEntry>)
    requires forall i :: 0 <= i < |entries| ==> !Rejected(entries[i].1)
    ensures Translate(entries).Success?
    ensures var c := Translate(entries).value;
      && |c.routes| == |Matched(entries)| && |c.clusters| == |Matched(entries)|
      && forall k :: 0 <= k < |Matched(entries)| ==>
           var (key, s) := Matched(entries)[k];
           && s.pathMatch.Some? && s.pathMatch.value != "" && s.baseUrl.Some? && s.baseUrl.value.Absolute?
           && c.routes[k].routeId == key
           && c.routes[k].clusterId == key
           && c.routes[k].metadata == map["RouteName" := key]
           && c.routes[k].routeMatch == RouteMatch(s.pathMatch.value)
           && c.routes[k].transforms == [map["X-Forwarded" := "Off"]]
           && c.clusters[k].clusterId == key
           && c.clusters[k].destinations == map["default" := DestinationConfig(s.baseUrl.value.absoluteUri)]
    decreases |entries|
  {
    if entries != [] {
      var n := |entries| - 1;
      var init := entries[..n];
      forall i | 0 <= i < n ensures !Rejected(init[i].1) {
        assert init[i] == entries[i];
      }
      TranslateSuccess(init);
    }
  }

  /**
   * Translating a concatenation: the first part's error wins; otherwise the second part's
   * error; otherwise the second part's routes and clusters follow the first part's.
   */
  lemma {:induction false} TranslateAppend(p: seq<RouteEntry>, q: seq<RouteEntry>)
    ensures Translate(p + q) ==
      match Translate(p)
      case Failure(e) => Failure(e)
      case Success(a) =>
        match Translate(q)
        case Failure(e) => Failure(e)
        case Success(b) => Success(ProxyConfig(a.routes + b.routes, a.clusters + b.clusters))
    decreases |q|
  {
    if q == [] {
      assert p + q == p;
      match Translate(p)
      case Failure(_) =>
      case Success(a) =>
        assert a.routes + [] == a.routes && a.clusters + [] == a.clusters;
    } else {
      var q' := q[..|q| - 1];
      var y := q[|q| - 1];
      assert (p + q)[..|p + q| - 1] == p + q';
      assert (p + q)[|p + q| - 1] == y;
      TranslateAppend(p, q');
      match Translate(p)
      case Failure(_) =>
      case Success(a) =>
        match Translate(q')
        case Failure(_) =>
        case Success(b) =>
          var (key, s) := y;
          if HasPathMatch(s) && s.baseUrl.Some? && s.baseUrl.value.Absolute? {
            var r := GatewayRoute(key, s.pathMatch.value);
            var c := GatewayCluster(key, s.baseUrl.value.absoluteUri);
            assert (a.routes + b.routes) + [r] == a.routes + (b.routes + [r]);
            assert (a.clusters + b.clusters) + [c] == a.clusters + (b.clusters + [c]);
          }
    }
  }

  /**
   * An entry without a path match contributes nothing, wherever it stands and even
   * when it has no base URL either: removing it does not change the outcome.
   */
  lemma {:induction false} SkipWithoutPathMatch(p: seq<RouteEntry>, x: RouteEntry, q: seq<RouteEntry>)
    requires IsNullOrEmpty(x.1.pathMatch)
    ensures Translate(p + [x] + q) == Translate(p + q)
    decreases |q|
  {
    if q == [] {
      assert p + [x] + q == p + [x];
      assert (p + [x])[..|p|] == p;
      assert p + q == p;
    } else {
      var q' := q[..|q| - 1];
      var y := q[|q| - 1];
      assert (p + [x] + q)[..|p + [x] + q| - 1] == p + [x] + q';
      assert (p + [x] + q)[|p + [x] + q| - 1] == y;
      assert (p + q)[..|p + q| - 1] == p + q';
      assert (p + q)[|p + q| - 1] == y;
      SkipWithoutPathMatch(p, x, q');
    }
  }

  /**
   * With distinct keys a successful translation is a consistent engine configuration:
   * parallel lists whose i-th route points at the i-th cluster, pairwise distinct route
   * ids and cluster ids, one transform per route and one destination per cluster.
   */
  lemma TranslateWellFormed(entries: seq<RouteEntry>)
    requires DistinctKeys(entries)
    requires Translate(entries).Success?
    ensures WellFormed(Translate(entries).value)
  {
    TranslateFailure(entries);
    TranslateSuccess(entries);
    MatchedDistinct(entries);
  }

  /**
   * With distinct keys, every route's cluster id names exactly one cluster, and every
   * cluster is named by exactly one route.
   */
  lemma {:induction false} RoutesAndClustersCorrespond(entries: seq<RouteEntry>)
    requires DistinctKeys(entries)
    requires Translate(entries).Success?
    ensures var c := Translate(entries).value;
      && (forall r :: r in c.routes ==>
            exists cl :: cl in c.clusters && cl.clusterId == r.clusterId
              && forall cl' :: cl' in c.clusters && cl'.clusterId == r.clusterId ==> cl' == cl)
      && (forall cl :: cl in c.clusters ==>
            exists r :: r in c.routes && r.clusterId == cl.clusterId
              && forall r' :: r' in c.routes && r'.clusterId == cl.clusterId ==> r' == r)
  {
    TranslateWellFormed(entries);
    var c := Translate(entries).value;
    forall r | r in c.routes
      ensures exists cl :: cl in c.clusters && cl.clusterId == r.clusterId
                && forall cl' :: cl' in c.clusters && cl'.clusterId == r.clusterId ==> cl' == cl
    {
      var k :| 0 <= k < |c.routes| && c.routes[k] == r;
      assert c.clusters[k] in c.clusters;
      forall cl' | cl' in c.clusters && cl'.clusterId == r.clusterId ensures cl' == c.clusters[k] {
        var j :| 0 <= j < |c.clusters| && c.clusters[j] == cl';
        assert j == k;
      }
    }
    forall cl | cl in c.clusters
      ensures exists r :: r in c.routes && r.clusterId == cl.clusterId
                && forall r' :: r' in c.routes && r'.clusterId == cl.clusterId ==> r' == r
    {
      var k :| 0 <= k < |c.clusters| && c.clusters[k] == cl;
      assert c.routes[k] in c.routes;
      forall r' | r' in c.routes && r'.clusterId == cl.clusterId ensures r' == c.routes[k] {
        var j :| 0 <= j < |c.routes| && c.routes[j] == r';
        assert c.routes[j].clusterId == c.clusters[j].clusterId;
        assert j == k;
      }
    }
  }

  /** An error ends the translation: a failing prefix decides the whole outcome. */
  lemma PrefixFailure(entries: seq<RouteEntry>, n: nat)
    requires n <= |entries|
    requires Translate(entries[..n]).Failure?
    ensures Translate(entries) == Translate(entries[..n])
  {
    assert entries == entries[..n] + entries[n..];
    TranslateAppend(entries[..n], entries[n..]);
  }

  // ---------------------------------------------------------------------------
  // The operations

  /**
   * Lines 56-85 of `AddGatewayRoutes`: the `foreach` that fills the route and cluster
   * lists, skipping entries without a path match and throwing for the first path-matched
   * entry without a base URL or, on reading its `AbsoluteUri`, with a relative one. The
   * route is added before that read, as in the source; the lists are dropped on a throw.
   */
  method CollectRouteConfig(entries: seq<RouteEntry>) returns (r: Result<ProxyConfig, ConfigError>)
    ensures r == Translate(entries)
  {
    var routes: seq<RouteConfig> := [];
    var clusters: seq<ClusterConfig> := [];
    var i := 0;
    while i < |entries|
      invariant 0 <= i <= |entries|
      invariant Translate(entries[..i]) == Success(ProxyConfig(routes, clusters))
    {
      var (key, s) := entries[i];
      assert entries[..i + 1][..i] == entries[..i];
      if IsNullOrEmpty(s.pathMatch) {
        i := i + 1;
        continue;
      }
      if s.baseUrl.None? {
        PrefixFailure(entries, i + 1);
        return Failure(MissingBaseUrl(key));
      }
      routes := routes + [GatewayRoute(key, s.pathMatch.value)];
      if s.baseUrl.value.Relative? {
        PrefixFailure(entries, i + 1);
        return Failure(RelativeUri);
      }
      clusters := clusters + [GatewayCluster(key, s.baseUrl.value.absoluteUri)];
      i := i + 1;
    }
    assert entries[..i] == entries;
    return Success(ProxyConfig(routes, clusters));
  }

  /**
   * `AddGatewayRoutes`: builds the routes and clusters, then loads them into the engine
   * and adds the transform that sets the forwarded headers to the gateway's public
   * origin. When building fails, nothing is loaded and nothing is added.
   */
  method AddGatewayRoutes(builder: ReverseProxyBuilder, settings: GatewayRoutingSettings)
    returns (r: Result<(), ConfigError>)
    modifies builder
    ensures Translate(settings.routes).Failure? ==>
              r == Failure(Translate(settings.routes).error) && unchanged(builder)
    ensures Translate(settings.routes).Success? ==>
              && r == Success(())
              && builder.loaded == Some(Translate(settings.routes).value)
              && builder.requestTransforms ==
                   old(builder.requestTransforms) + [SetForwardedHeaders(settings.resourceProxy)]
  {
    var config := CollectRouteConfig(settings.routes);
    match config
    case Failure(e) =>
      return Failure(e);
    case Success(c) =>
      builder.LoadFromMemory(c.routes, c.clusters);
      builder.AddRequestTransform(SetForwardedHeaders(settings.resourceProxy));
      return Success(());
  }
}
