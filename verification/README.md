# Network API routes and Mercurial URL helpers, in Dafny

This project models two parts of the Docker daemon.

**The network API routes** are in `api/server/router/network/network_routes.go`:
- **List**: select networks by the `name` and `id` filters.
- **Get**: fetch one network.
- **Create**: apply the duplicate-name policy, then create.
- **Connect and disconnect**: attach a container to a network, or detach it.
- **Delete**: remove a network.
- **Resource builders**: turn a libnetwork network and its endpoints into the `NetworkResource` / `EndpointResource` records the API returns.

**The Mercurial URL helpers** are in `pkg/urlutil/hg.go`: `IsHgURL`, `IsHgTransport` and `CleanHgURL`.

Files:
- `types.dfy` (module `Types`): the libnetwork objects the routes read, containers, resource records and errors. A Go nil is an `Option`. A Go `(value, error)` return is a `Result`. The `Containers` map of a resource is `Option<map<…>>`, so a nil map and an allocated empty map stay distinct.
- `resources.dfy` (module `Resources`): `buildEndpointResource` and `buildNetworkResource`. MAC and address rendering goes through a `Formatter` whose two functions are uninterpreted parameters. The model only fixes *when* a field is rendered and when it is left empty.
- `network_routes.dfy` (module `NetworkRoutes`): the handlers. The daemon, libnetwork and the container runtime form a `Daemon` value whose fields are the lookups and actions the handlers call. Their behaviour (prefix matching, creation, deletion, attach and detach) is left abstract. Every handler except the list returns a `Reply`: its result plus the ordered trace of daemon calls it made. "Nothing is created" and "the container is never looked up" are therefore statements about that trace.
- `hg.dfy` (module `UrlUtil`): the three URL helpers. `IsURL` is a parameter `isURL`.

Behaviours of the code that the model keeps as written:
- The "invalid container" error formats the container value the failed lookup returned, which is nil, not the requested identifier. `InvalidContainer` therefore carries only the underlying cause.
- A `name` or `id` filter that is present but has no values still suppresses the full listing.
- A network that matches both filters is listed twice.

## Model

| member | source | states |
|---|---|---|
| Resources.BuildEndpointResource | api/server/router/network/network_routes.go:193-213 | A nil endpoint gives the zero `EndpointResource`. Otherwise `EndpointID` is the endpoint's id. With no interface, the MAC, IPv4 and IPv6 fields are all empty. With an interface, the MAC is rendered only when non-nil, and each address only when its IP has at least one byte. |
| Resources.RenderedFieldsAreSet | api/server/router/network/network_routes.go:199-211 | The converse, for every formatter: a non-empty MAC, IPv4 or IPv6 field implies that the endpoint, its interface and that value are all present. An unset address is never rendered. |
| Resources.ContainerMap | api/server/router/network/network_routes.go:180-189 | The map's keys are exactly the container ids of endpoints that have a sandbox. Each key maps to the resource of the last endpoint joined to that container. |
| Resources.BuildNetworkResource | api/server/router/network/network_routes.go:171-191 | A nil network gives the zero resource with a nil map. Otherwise name, id and driver are copied. The map is always allocated, keyed exactly by the sandboxed endpoints' container ids, and the later endpoint wins. |
| Resources.NoEndpointsEmptyMap | api/server/router/network/network_routes.go:180-189 | A network with no endpoints gets an allocated, empty map, never a nil one. |
| Resources.UnattachedEndpointIgnored | api/server/router/network/network_routes.go:182-186 | Inserting an endpoint without a sandbox anywhere in the endpoint list leaves the map unchanged. |
| Resources.SoleEndpointPresent | api/server/router/network/network_routes.go:182-189 | A sandboxed endpoint whose container no other endpoint shares appears under its container id, mapped to its own resource. This is a corollary of LastEndpointWins. |
| Resources.LastEndpointWins | api/server/router/network/network_routes.go:182-189 | A sandboxed endpoint that no later endpoint shares a container with is the one kept under that container id, whatever earlier endpoints of the same container exist. |
| NetworkRoutes.GetNetworksList | api/server/router/network/network_routes.go:28-52 | With neither a `name` nor an `id` filter, the list is exactly the daemon's full enumeration (`GetNetworksByID("")`), in order. Otherwise it is the name hits followed by the id hits. |
| NetworkRoutes.NameHits | api/server/router/network/network_routes.go:31-37 | The name part has at most one entry per listed name. |
| NetworkRoutes.NameHitsHit | api/server/router/network/network_routes.go:33-34 | A name whose exact lookup succeeds contributes exactly its network's resource. Together with NameHitsAppend and NameMissContributesNothing, this fixes the name part completely. |
| NetworkRoutes.IdHits | api/server/router/network/network_routes.go:39-45 | No ids give an empty id part. Every listed id's matches all fit in the list: its length is at least the number of networks any one listed id matches. |
| NetworkRoutes.NameHitsSound | api/server/router/network/network_routes.go:31-37 | Every resource in the name part is built from a successful exact-name lookup of one of the listed names. |
| NetworkRoutes.NameHitsAppend | api/server/router/network/network_routes.go:32-36 | Names contribute independently, in the order given. The hits of `a + b` are the hits of `a` followed by the hits of `b`. |
| NetworkRoutes.NameMissContributesNothing | api/server/router/network/network_routes.go:33-35 | A name whose lookup fails adds nothing and raises no error, wherever it is listed. |
| NetworkRoutes.IdHitsSound | api/server/router/network/network_routes.go:39-45 | Every resource in the id part is built from a network returned by the id lookup of one of the listed ids. |
| NetworkRoutes.IdHitsAppend | api/server/router/network/network_routes.go:40-44 | Ids contribute independently, in the order given. |
| NetworkRoutes.IdHitsSingle | api/server/router/network/network_routes.go:41-43 | One id contributes every network its lookup returns, in the daemon's order. |
| NetworkRoutes.ListFiltersConcatenate | api/server/router/network/network_routes.go:28-52 | With both filters present, the list is the name-only list followed by the id-only list: a concatenation, not an intersection. |
| NetworkRoutes.NameHitsComplete | api/server/router/network/network_routes.go:31-37 | The converse of NameHitsSound: every listed name whose exact lookup succeeds has its network's resource in the name part. |
| NetworkRoutes.IdHitsComplete | api/server/router/network/network_routes.go:39-45 | The converse of IdHitsSound: every network returned by the lookup of a listed id has its resource in the id part, including when the id matches several networks. |
| NetworkRoutes.ListedTwiceWhenBothMatch | api/server/router/network/network_routes.go:31-45 | For a single name and a single id that both find only the same network, the list is exactly that network's resource twice. |
| NetworkRoutes.ListedTwiceGeneral | api/server/router/network/network_routes.go:28-52 | For any filters, a network found by the exact lookup of some listed name and also among the matches of some listed id occurs at least twice in the list. More names or ids that hit it add more entries. |
| NetworkRoutes.ListFilterPresenceAndOtherFields | api/server/router/network/network_routes.go:29-52 | A `name` or `id` filter with no values still suppresses the full listing. Filter fields other than `name` and `id` do not change the result. |
| NetworkRoutes.GetNetwork | api/server/router/network/network_routes.go:61-65 | The network is resolved first. On failure, that error is returned. Otherwise the result is the network's full resource: its id, name and driver, and its allocated container map. No state-changing call is made. |
| NetworkRoutes.PostNetworkConnect | api/server/router/network/network_routes.go:120-129 | The network is resolved first, and on failure nothing else is called. A failed container lookup gives `InvalidContainer(cause)` with no state change. Otherwise the container is attached by the network's name, and that outcome is returned unchanged. |
| NetworkRoutes.PostNetworkDisconnect | api/server/router/network/network_routes.go:146-155 | Same as connect, but the detach call receives the resolved network object itself, not its name. |
| NetworkRoutes.DeleteNetwork | api/server/router/network/network_routes.go:163-168 | The network is resolved first; on failure no delete happens. Otherwise the result is exactly what the network's deletion returns. |
| NetworkRoutes.ActionsFollowResolution | api/server/router/network/network_routes.go:120-168 | For connect, disconnect and delete, a state-changing call happens if and only if every resolution succeeded. A success reply implies the underlying action succeeded. |
| NetworkRoutes.DuplicateWarning | api/server/router/network/network_routes.go:92 | The duplicate warning is never empty, and it contains both the existing network's name and its id. |
| NetworkRoutes.PostNetworkCreate | api/server/router/network/network_routes.go:84-103 | The name lookup comes first. A lookup error other than "no such network" is returned with nothing created. An existing network with `CheckDuplicate` gives `NetworkNameError(name)` with nothing created. Otherwise creation is requested with the given name, driver and options. A creation failure is returned as is; success returns the new id. The warning is empty when no network was found. When one was found, the warning is non-empty and contains the existing network's name and id. |
| NetworkRoutes.CreateCallsCreateIffAllowed | api/server/router/network/network_routes.go:84-98 | Creation is requested if and only if the lookup allows it. That means either no network was found ("no such network"), or one was found and duplicates are not checked. A successful create implies the daemon's creation succeeded. |
| UrlUtil.MatchesAnyPrefix | pkg/urlutil/hg.go:20-25 | The prefix loop returns true exactly when some prefix of the list is a prefix of the string. |
| UrlUtil.IsHgURL | pkg/urlutil/hg.go:5-25 | True if and only if the string starts with `hg::` or with `ssh://`. |
| UrlUtil.ShortStringsAreNotHgURLs | pkg/urlutil/hg.go:20-25 | Any string shorter than 4 characters, including the empty string, is rejected. |
| UrlUtil.IsHgTransport | pkg/urlutil/hg.go:30-32 | True whenever the string starts with `hg::` or `hg@`, whatever `IsURL` says. True whenever `IsURL` holds. Otherwise true exactly when one of the two prefixes matches. |
| UrlUtil.HgURLsAndTransports | pkg/urlutil/hg.go:13-32 | Every `hg::` URL is both a Mercurial URL and a transport. An `ssh://` URL that `IsURL` rejects is a Mercurial URL but not a transport. |
| UrlUtil.CleanHgURL | pkg/urlutil/hg.go:34-39 | When the string starts with `hg::`, the result is the string with that one prefix removed; otherwise the string is unchanged. The result is always a suffix of the input, of length `|s|` or `|s| - 4`. |
| UrlUtil.CleanHgURLRoundTrip | pkg/urlutil/hg.go:35-37 | `CleanHgURL("hg::" + t) == t` for every string `t`. |
| UrlUtil.CleanHgURLMarkRoundTrip | pkg/urlutil/hg.go:34-39 | A string starting with `hg::` is a Mercurial URL. Putting `hg::` back in front of its cleaned form gives the original string. |
| UrlUtil.CleanHgURLNotIdempotent | pkg/urlutil/hg.go:34-39 | Only one prefix occurrence is stripped: `hg::hg::x` cleans to `hg::x`, and cleaning again gives `x`. |

## Left out

- HTTP plumbing: `ParseForm`, `CheckForJSON`, JSON decoding, `WriteJSON` and status codes. Requests arrive decoded, responses are returned values, and the early returns on malformed requests are not modelled.
- `filters.FromParam` and its syntax errors: the list route takes the parsed filters as a `map<string, seq<string>>`.
- The semantics of the daemon and libnetwork (`GetNetwork`, `GetNetworksByID` prefix matching, `FindNetwork`, `CreateNetwork`, `Delete`) and of the container runtime (`Get`, `ConnectToNetwork`, `DisconnectFromNetwork`). They are arbitrary functions in `Daemon`, and every property is proved for all of them.
- The `Daemon` lookups return either a network or an error, never both and never neither. Go's `(nil, nil)` return is outside the model. Its effects in the code would be:
  - get would return the zero `NetworkResource`, because `buildNetworkResource` checks for nil;
  - delete would panic on `nw.Delete()`;
  - connect would panic on `nw.Name()` only once the container lookup had succeeded; a failed container lookup still returns the "invalid container" error;
  - disconnect would pass the nil network on to `DisconnectFromNetwork`, whose behaviour is not part of this model;
  - the list's name loop would append a zero `NetworkResource`;
  - create would go ahead as if no network had been found, with an empty warning.
- The list route does not return a call trace: its daemon calls are all lookups.
- The text of MAC and IP addresses (`HardwareAddr.String`, `IPNet.String`): the `Formatter` functions are uninterpreted.
- The exact text of the "invalid container" error: only the wrapped cause is kept.
- `IsURL`: it is a parameter of `IsHgTransport`. Its definition is not part of this model.
- Go strings are byte sequences; here they are sequences of characters. Every prefix involved is ASCII, so prefix tests and the 4-character strip agree either way.
- Concurrency: the routes hold no state or locks of their own, and races between requests belong to the daemon.
