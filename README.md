# Gateway route and cluster configuration

A model of how the Fancy.ResourceLinker gateway turns its static route settings into the
in-memory configuration of its reverse-proxy engine (YARP). `AddGatewayRoutes` walks the
`Routes` dictionary of the gateway's routing settings. For every route key whose settings
have a non-empty `PathMatch`, it builds one forwarding route and one cluster:

- the route's id and cluster id are the key, and its `RouteName` metadata is the key;
- the route matches the entry's path pattern and carries one transform, `X-Forwarded: Off`;
- the cluster's single destination is named `default` and points at the entry's `BaseUrl`.

An entry without a path match is skipped, even when it has no base URL. The first
path-matched entry without a base URL aborts the build with an `InvalidOperationException`
naming the route; a path-matched entry whose base URL is relative aborts it too, because
reading `AbsoluteUri` of a relative `System.Uri` throws. Only after the loop are the two lists loaded into the engine, together
with a request transform that sets the forwarded headers to the gateway's public origin
(`ResourceProxy`).

Files:

- `wrappers.dfy`: `Option` (a nullable reference) and `Result` (a call that may throw).
- `proxy_config.dfy`: the engine's configuration records and `ReverseProxyBuilder`, a class
  that records what `LoadFromMemory` and `AddTransforms` were given.
- `gateway_routing.dfy`: the settings and the translation. It holds the specification
  function `Translate` (the `foreach` as a fold that stops at the first error), the
  reference filter `Matched`, the lemmas, the loop method `CollectRouteConfig` proved equal
  to `Translate`, and `AddGatewayRoutes`, which loads only on success.

Modelling choices:

- The dictionary is a sequence of (key, settings) pairs in enumeration order. Distinct keys
  are a precondition only of the lemmas that need them (`MatchedDistinct`,
  `TranslateWellFormed`, `RoutesAndClustersCorrespond`).
- `PathMatch` is `Option<string>`, so both `null` and `""` are covered by `IsNullOrEmpty`.
- `BaseUrl` is `Option<Uri>`. A `Uri` is either `Absolute`, whose `absoluteUri` field is
  what `Uri.AbsoluteUri` returns, or `Relative`, on which that property throws.
- The gateway's own exception is `Failure(MissingBaseUrl(key))`, and `Message` gives its
  text. The library's exception for a relative base URL is `Failure(RelativeUri)`.
- The check at line 65 tests `BaseUrl` only against `null`. Any non-null absolute `Uri` is
  accepted as a destination.

## Model

| member | source | states |
|---|---|---|
| GatewayRouting.CollectRouteConfig | src/Fancy.ResourceLinker.Gateway/Routing/GatewayRouting.cs:56-85 | the loop with its `continue` and `throw` returns exactly `Translate(entries)`: the same lists or the same error |
| GatewayRouting.AddGatewayRoutes | src/Fancy.ResourceLinker.Gateway/Routing/GatewayRouting.cs:54-90 | on error the builder is unchanged, so nothing is loaded and no transform is added; on success the translated routes and clusters are loaded and one forwarded-headers transform for `ResourceProxy` is appended |
| GatewayRouting.IsNullOrEmpty | src/Fancy.ResourceLinker.Gateway/Routing/GatewayRouting.cs:63 | a path match is absent exactly when it is `null` or has no characters |
| GatewayRouting.GatewayRoute | src/Fancy.ResourceLinker.Gateway/Routing/GatewayRouting.cs:66-78 | the route's id and cluster id are the key, its path is the path match, its only metadata is `RouteName` = key, and it has exactly one transform, `X-Forwarded` = `Off` |
| GatewayRouting.GatewayCluster | src/Fancy.ResourceLinker.Gateway/Routing/GatewayRouting.cs:80-84 | the cluster's id is the key and its only destination, `default`, is at the given address |
| GatewayRouting.Visit | src/Fancy.ResourceLinker.Gateway/Routing/GatewayRouting.cs:63-84 | one pass of the loop body fails exactly when the entry is path-matched without a usable base URL, with that entry's error; otherwise it adds one route and one cluster for a path-matched entry, none for another, and keeps what was built before |
| GatewayRouting.Translate | src/Fancy.ResourceLinker.Gateway/Routing/GatewayRouting.cs:60-85 | the whole `foreach`: on success the two lists have the same length, at most the number of entries |
| GatewayRouting.Matched | src/Fancy.ResourceLinker.Gateway/Routing/GatewayRouting.cs:60-63 | the entries that get a route are at most all of them |
| GatewayRouting.TranslateFailure | src/Fancy.ResourceLinker.Gateway/Routing/GatewayRouting.cs:63-65 | the build fails if and only if some entry has a non-empty path match and no base URL or a relative one; the error is the first such entry's: `MissingBaseUrl` with its key, or `RelativeUri` |
| GatewayRouting.TranslateSuccess | src/Fancy.ResourceLinker.Gateway/Routing/GatewayRouting.cs:60-85 | when every path-matched entry has an absolute base URL the build succeeds; routes and clusters both have one element per path-matched entry; the k-th route and k-th cluster come from the k-th path-matched entry, with ids, `RouteName` metadata, path, the single `X-Forwarded: Off` transform and the single `default` destination at `AbsoluteUri` of the base URL |
| GatewayRouting.TranslateAppend | src/Fancy.ResourceLinker.Gateway/Routing/GatewayRouting.cs:60-85 | translating a concatenation: the earlier part's error wins over anything later; otherwise the later part's routes and clusters follow the earlier part's, so output order is input order |
| GatewayRouting.SkipWithoutPathMatch | src/Fancy.ResourceLinker.Gateway/Routing/GatewayRouting.cs:63 | an entry with a null or empty path match can be removed from anywhere without changing the outcome, even when it has no base URL |
| GatewayRouting.PrefixFailure | src/Fancy.ResourceLinker.Gateway/Routing/GatewayRouting.cs:65 | once a prefix of the entries fails, later entries cannot change the outcome |
| GatewayRouting.TranslateWellFormed | src/Fancy.ResourceLinker.Gateway/Routing/GatewayRouting.cs:66-84 | with distinct keys a successful build has parallel lists, the k-th route forwarding to the k-th cluster, pairwise distinct route ids and cluster ids, one transform per route and one destination per cluster |
| GatewayRouting.RoutesAndClustersCorrespond | src/Fancy.ResourceLinker.Gateway/Routing/GatewayRouting.cs:69-82 | with distinct keys, every route's cluster id names exactly one cluster, and every cluster is named by exactly one route |
| GatewayRouting.MatchedSound | src/Fancy.ResourceLinker.Gateway/Routing/GatewayRouting.cs:60-63 | every entry that gets a route is an input entry with a non-empty path match |
| GatewayRouting.MatchedComplete | src/Fancy.ResourceLinker.Gateway/Routing/GatewayRouting.cs:60-63 | every input entry with a non-empty path match gets a route |
| GatewayRouting.MatchedAppend | src/Fancy.ResourceLinker.Gateway/Routing/GatewayRouting.cs:60-63 | the selected entries keep enumeration order, since selection distributes over concatenation |
| GatewayRouting.MatchedDistinct | src/Fancy.ResourceLinker.Gateway/Routing/GatewayRouting.cs:60-63 | distinct input keys stay distinct among the selected entries |
| GatewayRouting.Message | src/Fancy.ResourceLinker.Gateway/Routing/GatewayRouting.cs:65 | the exception text embeds the route key, which can be read back from it |
| ProxyConfig.ReverseProxyBuilder.LoadFromMemory | src/Fancy.ResourceLinker.Gateway/Routing/GatewayRouting.cs:87 | the builder holds exactly the routes and clusters handed to it, and its transforms are untouched |
| ProxyConfig.ReverseProxyBuilder.AddRequestTransform | src/Fancy.ResourceLinker.Gateway/Routing/GatewayRouting.cs:88-89 | one request transform is appended, and the loaded configuration is untouched |

## Left out

- `AddGatewayRouting` (service registration, lines 19-35) and `UseGatewayRouting` (middleware wiring, lines 41-47): dependency-injection and pipeline plumbing with no logic of their own.
- ProxyConfig.ReverseProxyBuilder.LoadFromMemory: YARP's own validation and installation of the configuration is foreign code; the model only records what it receives.
- ProxyConfig.ReverseProxyBuilder.AddRequestTransform: the transform is recorded as "set the forwarded headers to this origin"; what `SetForwardedHeaders` writes into a request is not part of this model.
- `Uri.AbsoluteUri`: the library's URI normalisation is not modelled; an absolute `Uri` carries its absolute text as a field.
- `AddRequestTransform`'s origin: the source registers a lambda that reads `settings.ResourceProxy` each time a request is transformed; the model records the value of `ResourceProxy` once, when the routes are added, so a later change to the settings object is not captured.
- The other properties of `RouteSettings` and `GatewayRoutingSettings` that the translation does not read, such as the authentication strategy of a route. Those types are not part of this model, so the nullability of `ResourceProxy` is modelled as optional.
- `ITokenStore`: an interface of asynchronous token-store operations without an implementation. Expiry, upsert and cleanup semantics cannot be stated from it.
- `DiscoveryDocument`: a data object with two string properties defaulting to `""` and JSON names; it has no behaviour.
- Concurrency is left out: the configuration is built once, at startup, on one thread.
