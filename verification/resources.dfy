/** The two resource builders of the network routes: a network and its
    endpoints become a NetworkResource, an endpoint becomes an
    EndpointResource. Rendering of MAC and IP addresses is left to a
    `Formatter` whose functions are not interpreted: the model only tracks
    whether a field is rendered or left empty. */
module Resources {
  import opened Types

  /** The textual renderings of net.HardwareAddr and net.IPNet. */
  datatype Formatter = Formatter(mac: seq<byte> -> string, ipNet: IPNet -> string)

  /** True when endpoint `e` is joined to a sandbox of container `cid`. */
  predicate Attached(e: Endpoint, cid: string)
  {
    e.sandbox.Some? && e.sandbox.value.containerID == cid
  }

  /** The container ids of the sandboxes the endpoints are joined to. */
  function AttachedContainers(eps: seq<Endpoint>): set<string>
  {
    set i | 0 <= i < |eps| && eps[i].sandbox.Some? :: eps[i].sandbox.value.containerID
  }

  /** The position of the last endpoint joined to container `cid`, or -1. */
  function LastAttached(eps: seq<Endpoint>, cid: string): (i: int)
    ensures -1 <= i < |eps|
    ensures i >= 0 ==> Attached(eps[i], cid)
    ensures forall j :: i < j < |eps| ==> !Attached(eps[j], cid)
    ensures i == -1 <==> cid !in AttachedContainers(eps)
    decreases |eps|
  {
    if |eps| == 0 then -1
    else if Attached(eps[|eps| - 1], cid) then |eps| - 1
    else
      var i := LastAttached(eps[..|eps| - 1], cid);
      AttachedContainersSnoc(eps[..|eps| - 1], eps[|eps| - 1]);
      assert eps[..|eps| - 1] + [eps[|eps| - 1]] == eps;
      i
  }

  /** buildEndpointResource: a nil endpoint gives the zero resource; otherwise
      the endpoint id is copied, and when the interface is present the MAC is
      rendered only when non-nil and each address only when it has bytes. */
  function BuildEndpointResource(e: Option<Endpoint>, f: Formatter): (er: EndpointResource)
    ensures e.None? ==> er == ZeroEndpointResource
    ensures e.Some? ==> er.endpointID == e.value.id
    ensures e.Some? && e.value.iface.None? ==>
              er.macAddress == "" && er.ipv4Address == "" && er.ipv6Address == ""
    ensures e.Some? && e.value.iface.Some? ==>
              var iface := e.value.iface.value;
              && (iface.macAddress.None? ==> er.macAddress == "")
              && (iface.macAddress.Some? ==> er.macAddress == f.mac(iface.macAddress.value))
              && (|iface.address.ip| == 0 ==> er.ipv4Address == "")
              && (|iface.address.ip| > 0 ==> er.ipv4Address == f.ipNet(iface.address))
              && (|iface.addressIPv6.ip| == 0 ==> er.ipv6Address == "")
              && (|iface.addressIPv6.ip| > 0 ==> er.ipv6Address == f.ipNet(iface.addressIPv6))
  {
    match e
    case None => ZeroEndpointResource
    case Some(ep) =>
      match ep.iface
      case None => EndpointResource(ep.id, "", "", "")
      case Some(iface) =>
        var mac := if iface.macAddress.Some? then f.mac(iface.macAddress.value) else "";
        var v4 := if |iface.address.ip| > 0 then f.ipNet(iface.address) else "";
        var v6 := if |iface.addressIPv6.ip| > 0 then f.ipNet(iface.addressIPv6) else "";
        EndpointResource(ep.id, mac, v4, v6)
  }

  /** Appending an endpoint adds its container id, if it has a sandbox, to the
      container ids of the others. */
  lemma AttachedContainersSnoc(eps: seq<Endpoint>, e: Endpoint)
    ensures AttachedContainers(eps + [e]) ==
            AttachedContainers(eps) + (if e.sandbox.Some? then {e.sandbox.value.containerID} else {})
  {
    var all := eps + [e];
    forall cid | cid in AttachedContainers(all)
      ensures cid in AttachedContainers(eps) || (e.sandbox.Some? && cid == e.sandbox.value.containerID)
    {
      var j :| 0 <= j < |all| && all[j].sandbox.Some? && all[j].sandbox.value.containerID == cid;
      if j < |eps| {
        assert all[j] == eps[j];
      }
    }
    forall cid | cid in AttachedContainers(eps)
      ensures cid in AttachedContainers(all)
    {
      var j :| 0 <= j < |eps| && eps[j].sandbox.Some? && eps[j].sandbox.value.containerID == cid;
      assert all[j] == eps[j];
    }
    if e.sandbox.Some? {
      assert all[|eps|] == e;
    }
  }

  /** The Containers map of buildNetworkResource: the endpoints are visited in
      order, those without a sandbox are skipped, and each of the others is
      stored under its container id, overwriting an earlier entry. */
  function ContainerMap(eps: seq<Endpoint>, f: Formatter): (m: map<string, EndpointResource>)
    ensures m.Keys == AttachedContainers(eps)
    ensures forall cid :: cid in m ==>
              0 <= LastAttached(eps, cid) &&
              m[cid] == BuildEndpointResource(Some(eps[LastAttached(eps, cid)]), f)
    decreases |eps|
  {
    if |eps| == 0 then map[]
    else
      var init := eps[..|eps| - 1];
      var e := eps[|eps| - 1];
      var m := ContainerMap(init, f);
      AttachedContainersSnoc(init, e);
      assert init + [e] == eps;
      match e.sandbox
      case None => m
      case Some(sb) => m[sb.containerID := BuildEndpointResource(Some(e), f)]
  }

  /** buildNetworkResource: a nil network gives the zero resource with a nil
      map; otherwise name, id and driver are copied and the map is allocated
      and filled from the endpoints joined to a sandbox, the last endpoint of
      each container winning. */
  function BuildNetworkResource(nw: Option<Network>, f: Formatter): (r: NetworkResource)
    ensures nw.None? ==> r == ZeroNetworkResource
    ensures nw.Some? ==>
              && r.name == nw.value.name
              && r.id == nw.value.id
              && r.driver == nw.value.netType
              && r.containers.Some?
    ensures nw.Some? ==> r.containers.value.Keys == AttachedContainers(nw.value.endpoints)
    ensures nw.Some? ==>
              var eps := nw.value.endpoints;
              forall cid :: cid in r.containers.value ==>
                0 <= LastAttached(eps, cid) &&
                r.containers.value[cid] == BuildEndpointResource(Some(eps[LastAttached(eps, cid)]), f)
  {
    match nw
    case None => ZeroNetworkResource
    case Some(n) => NetworkResource(n.name, n.id, n.netType, Some(ContainerMap(n.endpoints, f)))
  }

  /** A network with no endpoints gets an allocated, empty map. */
  lemma NoEndpointsEmptyMap(n: Network, f: Formatter)
    requires n.endpoints == []
    ensures BuildNetworkResource(Some(n), f).containers == Some(map[])
  {
  }

  /** An endpoint that is not joined to a sandbox has no effect on the map,
      wherever it stands among the endpoints. */
  lemma {:induction false} UnattachedEndpointIgnored(a: seq<Endpoint>, e: Endpoint, b: seq<Endpoint>, f: Formatter)
    requires e.sandbox.None?
    ensures ContainerMap(a + [e] + b, f) == ContainerMap(a + b, f)
    decreases |b|
  {
    if |b| == 0 {
      assert a + [e] + b == a + [e];
      assert (a + [e])[..|a + [e]| - 1] == a;
      assert a + b == a;
    } else {
      var b' := b[..|b| - 1];
      var x := b[|b| - 1];
      UnattachedEndpointIgnored(a, e, b', f);
      assert (a + [e] + b)[..|a + [e] + b| - 1] == a + [e] + b';
      assert (a + [e] + b)[|a + [e] + b| - 1] == x;
      assert (a + b)[..|a + b| - 1] == a + b';
      assert (a + b)[|a + b| - 1] == x;
    }
  }

  /** An endpoint joined to a sandbox whose container no other endpoint
      shares appears in the map under that container id: a corollary of
      LastEndpointWins. */
  lemma SoleEndpointPresent(n: Network, f: Formatter, i: int)
    requires 0 <= i < |n.endpoints| && n.endpoints[i].sandbox.Some?
    requires forall k :: 0 <= k < |n.endpoints| && k != i ==>
               !Attached(n.endpoints[k], n.endpoints[i].sandbox.value.containerID)
    ensures var r := BuildNetworkResource(Some(n), f);
            var cid := n.endpoints[i].sandbox.value.containerID;
            cid in r.containers.value &&
            r.containers.value[cid] == BuildEndpointResource(Some(n.endpoints[i]), f)
  {
    LastEndpointWins(n, f, i);
  }

  /** The last endpoint joined to a container is the one kept for it:
      endpoint `j` wins when no later endpoint shares its container, whatever
      earlier endpoints of that container there are. */
  lemma LastEndpointWins(n: Network, f: Formatter, j: int)
    requires 0 <= j < |n.endpoints|
    requires n.endpoints[j].sandbox.Some?
    requires forall k :: j < k < |n.endpoints| ==> !Attached(n.endpoints[k], n.endpoints[j].sandbox.value.containerID)
    ensures var r := BuildNetworkResource(Some(n), f);
            var cid := n.endpoints[j].sandbox.value.containerID;
            cid in r.containers.value &&
            r.containers.value[cid] == BuildEndpointResource(Some(n.endpoints[j]), f)
  {
    var eps := n.endpoints;
    var cid := eps[j].sandbox.value.containerID;
    assert Attached(eps[j], cid);
    assert LastAttached(eps, cid) == j;
  }

  /** The converse of the endpoint builder's guarantees: a non-empty field is
      only ever produced from a value that is actually set, whatever the
      formatter renders. */
  lemma RenderedFieldsAreSet(e: Option<Endpoint>, f: Formatter)
    ensures var er := BuildEndpointResource(e, f);
            && (er.endpointID != "" ==> e.Some?)
            && (er.macAddress != "" ==>
                  e.Some? && e.value.iface.Some? && e.value.iface.value.macAddress.Some?)
            && (er.ipv4Address != "" ==>
                  e.Some? && e.value.iface.Some? && |e.value.iface.value.address.ip| > 0)
            && (er.ipv6Address != "" ==>
                  e.Some? && e.value.iface.Some? && |e.value.iface.value.addressIPv6.ip| > 0)
  {
  }
}
