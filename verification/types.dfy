/** The values the network routes work on: the libnetwork objects they read
    (networks, endpoints, sandboxes, interfaces), the containers of the
    container runtime, the wire-facing resource records they build, and the
    errors they return. Go's nil interfaces and nil slices are modelled with
    `Option`; Go's `(value, error)` returns with `Result`. */
module Types {

  /** A value that may be absent (Go's nil). */
  datatype Option<+T> = None | Some(value: T)

  /** The errors the routes can return. */
  datatype Error =
    /** libnetwork.ErrNoSuchNetwork: a lookup found no network of that name or id. */
    | NoSuchNetwork(name: string)
    /** libnetwork.NetworkNameError: a network of that name already exists. */
    | NetworkNameError(name: string)
    /** The "invalid container" error built when the container lookup fails;
        it wraps the lookup's error. Its text formats the (nil) container the
        lookup returned, so it carries no container identifier. */
    | InvalidContainer(cause: Error)
    /** Any other error of the daemon, libnetwork or the container runtime. */
    | Failure(message: string)

  /** The outcome of a call that either yields a value or fails. */
  datatype Result<+T> = Ok(value: T) | Err(error: Error)

  type byte = bv8

  /** A container's network namespace; only its container id is read. */
  datatype Sandbox = Sandbox(containerID: string)

  /** net.IPNet: an address and its mask, both as raw bytes (an unset
      address has no bytes). */
  datatype IPNet = IPNet(ip: seq<byte>, mask: seq<byte>)

  /** The interface of an endpoint: a MAC address that may be nil, and an
      IPv4 and an IPv6 address that may be unset. */
  datatype Iface = Iface(macAddress: Option<seq<byte>>, address: IPNet, addressIPv6: IPNet)

  /** A libnetwork endpoint: its id and what its info reports, the sandbox it
      is joined to (if any) and its interface (if any). */
  datatype Endpoint = Endpoint(id: string, sandbox: Option<Sandbox>, iface: Option<Iface>)

  /** A libnetwork network. Names are not unique: identity is the id. */
  datatype Network = Network(id: string, name: string, netType: string, endpoints: seq<Endpoint>)

  /** A container of the container runtime, as returned by its lookup. */
  datatype Container = Container(id: string, name: string)

  /** types.EndpointResource: every field is a rendered string or empty. */
  datatype EndpointResource = EndpointResource(
    endpointID: string,
    macAddress: string,
    ipv4Address: string,
    ipv6Address: string)

  /** types.NetworkResource. `containers` is `None` for Go's nil map and
      `Some(m)` for an allocated map `m`, possibly empty. */
  datatype NetworkResource = NetworkResource(
    name: string,
    id: string,
    driver: string,
    containers: Option<map<string, EndpointResource>>)

  /** Go's zero value of types.EndpointResource. */
  const ZeroEndpointResource := EndpointResource("", "", "", "")

  /** Go's zero value of types.NetworkResource: empty strings and a nil map. */
  const ZeroNetworkResource := NetworkResource("", "", "", None)
}
