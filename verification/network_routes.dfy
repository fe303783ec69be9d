/** The decision logic of the network API routes: which networks a list
    request returns, the duplicate-name policy of create, and the
    resolve-then-act order of get, connect, disconnect and delete.

    The daemon, libnetwork and the container runtime are a `Daemon` value
    whose fields are the lookups and actions the routes call; their own
    semantics are not modelled. Request parsing and response writing are left
    out: requests arrive decoded and responses are returned values. Every
    route except the list also returns the calls it made on the daemon, in
    order, so that "nothing was created" or "the container was not looked
    up" are statements about that trace. */
module NetworkRoutes {
  import opened Types
  import opened Resources

  /** What the routes call on the daemon, libnetwork and the container runtime. */
  datatype Daemon = Daemon(
    /** daemon.GetNetwork(name, daemon.NetworkByName) */
    networkByName: string -> Result<Network>,
    /** daemon.GetNetworksByID: may match by prefix and return several; "" lists all */
    networksByID: string -> seq<Network>,
    /** daemon.FindNetwork: resolves a name, id or id prefix */
    findNetwork: string -> Result<Network>,
    /** daemon.CreateNetwork(name, driver, options) */
    createNetwork: (string, string, map<string, string>) -> Result<Network>,
    /** Network.Delete() */
    deleteNetwork: Network -> Result<()>,
    /** daemon.Get: the container runtime's lookup by name or id */
    container: string -> Result<Container>,
    /** Container.ConnectToNetwork(networkName) */
    connectToNetwork: (Container, string) -> Result<()>,
    /** Container.DisconnectFromNetwork(network) */
    disconnectFromNetwork: (Container, Network) -> Result<()>)

  /** One call a route makes on the daemon. */
  datatype Call =
    | LookupByName(name: string)
    | Find(ref: string)
    | Create(name: string, driver: string, options: map<string, string>)
    | LookupContainer(ref: string)
    | Connect(container: Container, networkName: string)
    | Disconnect(container: Container, network: Network)
    | Delete(network: Network)

  /** A call that changes the daemon's state. */
  predicate Mutating(c: Call)
  {
    c.Create? || c.Connect? || c.Disconnect? || c.Delete?
  }

  /** No call of the trace changes the daemon's state. */
  predicate NoMutation(calls: seq<Call>)
  {
    forall k :: 0 <= k < |calls| ==> !Mutating(calls[k])
  }

  /** What a route returns, and the daemon calls it made in order. */
  datatype Reply<T> = Reply(result: Result<T>, calls: seq<Call>)

  /** types.NetworkCreate, decoded. */
  datatype NetworkCreate = NetworkCreate(
    name: string,
    driver: string,
    options: map<string, string>,
    checkDuplicate: bool)

  /** types.NetworkCreateResponse. */
  datatype NetworkCreateResponse = NetworkCreateResponse(id: string, warning: string)

  /** types.NetworkConnect and types.NetworkDisconnect, decoded: the
      container's name or id. */
  datatype ContainerRequest = ContainerRequest(container: string)

  /** The parsed "filters" query parameter: field name to listed values. */
  type Filters = map<string, seq<string>>

  /** `sub` occurs in `s` at position `i`. */
  predicate OccursAt(s: string, sub: string, i: int)
  {
    0 <= i && i + |sub| <= |s| && s[i..i + |sub|] == sub
  }

  /** `sub` occurs somewhere in `s`. */
  ghost predicate Contains(s: string, sub: string)
  {
    exists i :: OccursAt(s, sub, i)
  }

  // ---------------------------------------------------------------------
  // getNetworksList

  /** The values of a filter field; an absent field lists nothing. */
  function FilterValues(filters: Filters, field: string): seq<string>
  {
    if field in filters then filters[field] else []
  }

  /** The resources of the given networks, in order. */
  function ResourcesOf(nws: seq<Network>, f: Formatter): seq<NetworkResource>
  {
    seq(|nws|, k requires 0 <= k < |nws| => BuildNetworkResource(Some(nws[k]), f))
  }

  /** The name part of the list: each name is looked up exactly; a hit adds
      its network's resource, a miss adds nothing. */
  function NameHits(d: Daemon, names: seq<string>, f: Formatter): (r: seq<NetworkResource>)
    ensures |r| <= |names|
    decreases |names|
  {
    if |names| == 0 then []
    else
      match d.networkByName(names[0])
      case Ok(nw) => [BuildNetworkResource(Some(nw), f)] + NameHits(d, names[1..], f)
      case Err(_) => NameHits(d, names[1..], f)
  }

  /** The id part of the list: every network each id matches, id by id. */
  function IdHits(d: Daemon, ids: seq<string>, f: Formatter): (r: seq<NetworkResource>)
    ensures ids == [] ==> r == []
    ensures forall j :: 0 <= j < |ids| ==> |d.networksByID(ids[j])| <= |r|
    decreases |ids|
  {
    if |ids| == 0 then []
    else
      var rest := IdHits(d, ids[1..], f);
      assert forall j :: 1 <= j < |ids| ==> ids[1..][j - 1] == ids[j];
      ResourcesOf(d.networksByID(ids[0]), f) + rest
  }

  /** `res` is the resource of a network found by the exact lookup of one of
      the names. */
  ghost predicate FromNameLookup(d: Daemon, names: seq<string>, f: Formatter, res: NetworkResource)
  {
    exists j :: 0 <= j < |names| && d.networkByName(names[j]).Ok? &&
                res == BuildNetworkResource(Some(d.networkByName(names[j]).value), f)
  }

  /** `res` is the resource of one of the networks some id matched. */
  ghost predicate FromIdLookup(d: Daemon, ids: seq<string>, f: Formatter, res: NetworkResource)
  {
    exists j, m :: 0 <= j < |ids| && 0 <= m < |d.networksByID(ids[j])| &&
                   res == BuildNetworkResource(Some(d.networksByID(ids[j])[m]), f)
  }

  /** Every resource of the name part comes from a successful exact lookup of
      one of the names. */
  lemma {:induction false} NameHitsSound(d: Daemon, names: seq<string>, f: Formatter)
    ensures forall res :: res in NameHits(d, names, f) ==> FromNameLookup(d, names, f, res)
    decreases |names|
  {
    if |names| > 0 {
      NameHitsSound(d, names[1..], f);
      var rest := NameHits(d, names[1..], f);
      forall res | res in NameHits(d, names, f)
        ensures FromNameLookup(d, names, f, res)
      {
        if res in rest {
          assert FromNameLookup(d, names[1..], f, res);
          var j :| 0 <= j < |names[1..]| && d.networkByName(names[1..][j]).Ok? &&
                   res == BuildNetworkResource(Some(d.networkByName(names[1..][j]).value), f);
          assert names[1..][j] == names[j + 1];
        } else {
          assert d.networkByName(names[0]).Ok?;
          assert res == BuildNetworkResource(Some(d.networkByName(names[0]).value), f);
        }
      }
    }
  }

  /** Every resource of the id part is one of the networks some id matched. */
  lemma {:induction false} IdHitsSound(d: Daemon, ids: seq<string>, f: Formatter)
    ensures forall res :: res in IdHits(d, ids, f) ==> FromIdLookup(d, ids, f, res)
    decreases |ids|
  {
    if |ids| > 0 {
      IdHitsSound(d, ids[1..], f);
      var first := ResourcesOf(d.networksByID(ids[0]), f);
      var rest := IdHits(d, ids[1..], f);
      forall res | res in IdHits(d, ids, f)
        ensures FromIdLookup(d, ids, f, res)
      {
        if res in rest {
          assert FromIdLookup(d, ids[1..], f, res);
          var j, m :| 0 <= j < |ids[1..]| && 0 <= m < |d.networksByID(ids[1..][j])| &&
                      res == BuildNetworkResource(Some(d.networksByID(ids[1..][j])[m]), f);
          assert ids[1..][j] == ids[j + 1];
        } else {
          assert res in first;
          var m :| 0 <= m < |first| && first[m] == res;
          assert 0 <= m < |d.networksByID(ids[0])|;
        }
      }
    }
  }

  /** getNetworksList: with neither a "name" nor an "id" filter, every network
      in the daemon's order; otherwise the name hits followed by the id hits. */
  function GetNetworksList(d: Daemon, filters: Filters, f: Formatter): (r: seq<NetworkResource>)
    ensures "name" !in filters && "id" !in filters ==>
              var all := d.networksByID("");
              |r| == |all| && forall k :: 0 <= k < |all| ==> r[k] == BuildNetworkResource(Some(all[k]), f)
    ensures "name" in filters || "id" in filters ==>
              r == NameHits(d, FilterValues(filters, "name"), f) + IdHits(d, FilterValues(filters, "id"), f)
  {
    var byName := NameHits(d, FilterValues(filters, "name"), f);
    var byId := IdHits(d, FilterValues(filters, "id"), f);
    if "name" !in filters && "id" !in filters then
      var all := ResourcesOf(d.networksByID(""), f);
      assert byName == [] && byId == [];
      assert byName + byId + all == all;
      byName + byId + all
    else
      byName + byId
  }

  /** Names contribute independently: the hits of a concatenation of name
      lists are the concatenation of their hits. */
  lemma {:induction false} NameHitsAppend(d: Daemon, a: seq<string>, b: seq<string>, f: Formatter)
    ensures NameHits(d, a + b, f) == NameHits(d, a, f) + NameHits(d, b, f)
    decreases |a|
  {
    if |a| == 0 {
      assert a + b == b;
    } else {
      assert (a + b)[0] == a[0];
      assert (a + b)[1..] == a[1..] + b;
      NameHitsAppend(d, a[1..], b, f);
    }
  }

  /** A name with no exact match contributes nothing, wherever it is listed. */
  lemma NameMissContributesNothing(d: Daemon, a: seq<string>, name: string, b: seq<string>, f: Formatter)
    requires d.networkByName(name).Err?
    ensures NameHits(d, a + [name] + b, f) == NameHits(d, a + b, f)
  {
    assert NameHits(d, [name], f) == [] by {
      assert [name][1..] == [];
    }
    calc {
      NameHits(d, a + [name] + b, f);
      { NameHitsAppend(d, a + [name], b, f); }
      NameHits(d, a + [name], f) + NameHits(d, b, f);
      { NameHitsAppend(d, a, [name], f); }
      NameHits(d, a, f) + NameHits(d, b, f);
      { NameHitsAppend(d, a, b, f); }
      NameHits(d, a + b, f);
    }
  }

  /** A name whose exact lookup succeeds contributes its network's resource. */
  lemma NameHitsHit(d: Daemon, name: string, nw: Network, f: Formatter)
    requires d.networkByName(name) == Ok(nw)
    ensures NameHits(d, [name], f) == [BuildNetworkResource(Some(nw), f)]
  {
    assert [name][1..] == [];
  }

  /** Ids contribute independently, like names. */
  lemma {:induction false} IdHitsAppend(d: Daemon, a: seq<string>, b: seq<string>, f: Formatter)
    ensures IdHits(d, a + b, f) == IdHits(d, a, f) + IdHits(d, b, f)
    decreases |a|
  {
    if |a| == 0 {
      assert a + b == b;
    } else {
      assert (a + b)[0] == a[0];
      assert (a + b)[1..] == a[1..] + b;
      IdHitsAppend(d, a[1..], b, f);
    }
  }

  /** A single id lists every network it matches, in the daemon's order. */
  lemma IdHitsSingle(d: Daemon, id: string, f: Formatter)
    ensures var r := IdHits(d, [id], f);
            var nws := d.networksByID(id);
            |r| == |nws| && forall k :: 0 <= k < |nws| ==> r[k] == BuildNetworkResource(Some(nws[k]), f)
  {
    assert [id][1..] == [];
  }

  /** The filters are additive, not intersected: with both fields present
      the list is the name-only list followed by the id-only list. */
  lemma ListFiltersConcatenate(d: Daemon, filters: Filters, f: Formatter)
    requires "name" in filters && "id" in filters
    ensures GetNetworksList(d, filters, f) ==
            GetNetworksList(d, map["name" := filters["name"]], f) +
            GetNetworksList(d, map["id" := filters["id"]], f)
  {
    var n := map["name" := filters["name"]];
    var i := map["id" := filters["id"]];
    assert "id" !in n && "name" !in i;
    assert FilterValues(n, "id") == [] && FilterValues(i, "name") == [];
    assert IdHits(d, [], f) == [] && NameHits(d, [], f) == [];
  }

  /** A network matched by both a name and an id is listed twice. */
  lemma ListedTwiceWhenBothMatch(d: Daemon, name: string, id: string, nw: Network, f: Formatter)
    requires d.networkByName(name) == Ok(nw)
    requires d.networksByID(id) == [nw]
    ensures GetNetworksList(d, map["name" := [name], "id" := [id]], f) ==
            [BuildNetworkResource(Some(nw), f), BuildNetworkResource(Some(nw), f)]
  {
    var filters := map["name" := [name], "id" := [id]];
    assert FilterValues(filters, "name") == [name];
    assert FilterValues(filters, "id") == [id];
    assert [name][1..] == [] && [id][1..] == [];
    assert NameHits(d, [name], f) == [BuildNetworkResource(Some(nw), f)];
    assert ResourcesOf([nw], f) == [BuildNetworkResource(Some(nw), f)];
    assert IdHits(d, [id], f) == [BuildNetworkResource(Some(nw), f)];
  }

  /** The converse of NameHitsSound: every listed name whose exact lookup
      succeeds has its network's resource in the name part. */
  lemma NameHitsComplete(d: Daemon, names: seq<string>, f: Formatter, i: int)
    requires 0 <= i < |names| && d.networkByName(names[i]).Ok?
    ensures BuildNetworkResource(Some(d.networkByName(names[i]).value), f) in NameHits(d, names, f)
  {
    var a, b := names[..i], names[i + 1..];
    assert names == a + [names[i]] + b;
    NameHitsAppend(d, a + [names[i]], b, f);
    NameHitsAppend(d, a, [names[i]], f);
    NameHitsHit(d, names[i], d.networkByName(names[i]).value, f);
  }

  /** The converse of IdHitsSound: every network the lookup of a listed id
      returns has its resource in the id part. */
  lemma IdHitsComplete(d: Daemon, ids: seq<string>, f: Formatter, j: int, m: int)
    requires 0 <= j < |ids| && 0 <= m < |d.networksByID(ids[j])|
    ensures BuildNetworkResource(Some(d.networksByID(ids[j])[m]), f) in IdHits(d, ids, f)
  {
    var a, b := ids[..j], ids[j + 1..];
    assert ids == a + [ids[j]] + b;
    IdHitsAppend(d, a + [ids[j]], b, f);
    IdHitsAppend(d, a, [ids[j]], f);
    IdHitsSingle(d, ids[j], f);
    var pre := IdHits(d, a, f);
    assert IdHits(d, ids, f)[|pre| + m] == IdHits(d, [ids[j]], f)[m];
  }

  /** A network found both by the exact lookup of a listed name and by the
      lookup of a listed id is listed at least twice, whatever else the
      filters list. */
  lemma ListedTwiceGeneral(d: Daemon, filters: Filters, f: Formatter, i: int, j: int, m: int)
    requires "name" in filters && 0 <= i < |filters["name"]|
    requires d.networkByName(filters["name"][i]).Ok?
    requires "id" in filters && 0 <= j < |filters["id"]|
    requires 0 <= m < |d.networksByID(filters["id"][j])|
    requires d.networksByID(filters["id"][j])[m] == d.networkByName(filters["name"][i]).value
    ensures multiset(GetNetworksList(d, filters, f))[BuildNetworkResource(Some(d.networkByName(filters["name"][i]).value), f)] >= 2
  {
    var res := BuildNetworkResource(Some(d.networkByName(filters["name"][i]).value), f);
    var byName := NameHits(d, filters["name"], f);
    var byId := IdHits(d, filters["id"], f);
    NameHitsComplete(d, filters["name"], f, i);
    IdHitsComplete(d, filters["id"], f, j, m);
    assert multiset(byName)[res] >= 1 && multiset(byId)[res] >= 1;
    assert GetNetworksList(d, filters, f) == byName + byId;
    assert multiset(byName + byId) == multiset(byName) + multiset(byId);
  }

  /** A present filter field suppresses the full listing even when it lists
      no value, and only "name" and "id" are interpreted. */
  lemma ListFilterPresenceAndOtherFields(d: Daemon, filters: Filters, f: Formatter)
    ensures GetNetworksList(d, map["name" := []], f) == []
    ensures GetNetworksList(d, map["id" := []], f) == []
    ensures GetNetworksList(d, filters, f) ==
            GetNetworksList(d, map k | k in filters && (k == "name" || k == "id") :: filters[k], f)
  {
  }

  // ---------------------------------------------------------------------
  // getNetwork, postNetworkConnect, postNetworkDisconnect, deleteNetwork

  /** The trace starts by resolving `ref`, and ends there when that fails. */
  predicate ResolvedFirst(d: Daemon, ref: string, calls: seq<Call>)
  {
    |calls| >= 1 && calls[0] == Find(ref) &&
    (d.findNetwork(ref).Err? ==> |calls| == 1)
  }

  /** getNetwork: resolve the network, then build its resource. */
  function GetNetwork(d: Daemon, ref: string, f: Formatter): (r: Reply<NetworkResource>)
    ensures ResolvedFirst(d, ref, r.calls) && NoMutation(r.calls)
    ensures d.findNetwork(ref).Err? ==> r.result == Err(d.findNetwork(ref).error)
    ensures d.findNetwork(ref).Ok? ==>
              var nw := d.findNetwork(ref).value;
              r.result == Ok(BuildNetworkResource(Some(nw), f))
  {
    match d.findNetwork(ref)
    case Err(e) => Reply(Err(e), [Find(ref)])
    case Ok(nw) => Reply(Ok(BuildNetworkResource(Some(nw), f)), [Find(ref)])
  }

  /** postNetworkConnect: resolve the network, then the container (its
      failure wrapped as InvalidContainer), then attach the container to the
      network by the network's name. */
  function PostNetworkConnect(d: Daemon, ref: string, req: ContainerRequest): (r: Reply<()>)
    ensures ResolvedFirst(d, ref, r.calls)
    ensures d.findNetwork(ref).Err? ==> r.result == Err(d.findNetwork(ref).error)
    ensures d.findNetwork(ref).Ok? ==> |r.calls| >= 2 && r.calls[1] == LookupContainer(req.container)
    ensures d.findNetwork(ref).Ok? && d.container(req.container).Err? ==>
              r.result == Err(InvalidContainer(d.container(req.container).error)) && NoMutation(r.calls)
    ensures d.findNetwork(ref).Ok? && d.container(req.container).Ok? ==>
              var c := d.container(req.container).value;
              var name := d.findNetwork(ref).value.name;
              r.calls == [Find(ref), LookupContainer(req.container), Connect(c, name)] &&
              r.result == d.connectToNetwork(c, name)
  {
    match d.findNetwork(ref)
    case Err(e) => Reply(Err(e), [Find(ref)])
    case Ok(nw) =>
      match d.container(req.container)
      case Err(e) => Reply(Err(InvalidContainer(e)), [Find(ref), LookupContainer(req.container)])
      case Ok(c) =>
        Reply(d.connectToNetwork(c, nw.name), [Find(ref), LookupContainer(req.container), Connect(c, nw.name)])
  }

  /** postNetworkDisconnect: as connect, but the detach is given the
      resolved network itself. */
  function PostNetworkDisconnect(d: Daemon, ref: string, req: ContainerRequest): (r: Reply<()>)
    ensures ResolvedFirst(d, ref, r.calls)
    ensures d.findNetwork(ref).Err? ==> r.result == Err(d.findNetwork(ref).error)
    ensures d.findNetwork(ref).Ok? ==> |r.calls| >= 2 && r.calls[1] == LookupContainer(req.container)
    ensures d.findNetwork(ref).Ok? && d.container(req.container).Err? ==>
              r.result == Err(InvalidContainer(d.container(req.container).error)) && NoMutation(r.calls)
    ensures d.findNetwork(ref).Ok? && d.container(req.container).Ok? ==>
              var c := d.container(req.container).value;
              var nw := d.findNetwork(ref).value;
              r.calls == [Find(ref), LookupContainer(req.container), Disconnect(c, nw)] &&
              r.result == d.disconnectFromNetwork(c, nw)
  {
    match d.findNetwork(ref)
    case Err(e) => Reply(Err(e), [Find(ref)])
    case Ok(nw) =>
      match d.container(req.container)
      case Err(e) => Reply(Err(InvalidContainer(e)), [Find(ref), LookupContainer(req.container)])
      case Ok(c) =>
        Reply(d.disconnectFromNetwork(c, nw), [Find(ref), LookupContainer(req.container), Disconnect(c, nw)])
  }

  /** deleteNetwork: resolve the network, then return its deletion's outcome
      unchanged. */
  function DeleteNetwork(d: Daemon, ref: string): (r: Reply<()>)
    ensures ResolvedFirst(d, ref, r.calls)
    ensures d.findNetwork(ref).Err? ==> r.result == Err(d.findNetwork(ref).error)
    ensures d.findNetwork(ref).Ok? ==>
              var nw := d.findNetwork(ref).value;
              r.calls == [Find(ref), Delete(nw)] && r.result == d.deleteNetwork(nw)
  {
    match d.findNetwork(ref)
    case Err(e) => Reply(Err(e), [Find(ref)])
    case Ok(nw) => Reply(d.deleteNetwork(nw), [Find(ref), Delete(nw)])
  }

  /** Across connect, disconnect and delete: a route changes the daemon's
      state only after resolving the network (and, for connect and
      disconnect, the container), and succeeds only if that change did. */
  lemma ActionsFollowResolution(d: Daemon, ref: string, req: ContainerRequest)
    ensures var r := PostNetworkConnect(d, ref, req);
            !NoMutation(r.calls) <==> d.findNetwork(ref).Ok? && d.container(req.container).Ok?
    ensures var r := PostNetworkDisconnect(d, ref, req);
            !NoMutation(r.calls) <==> d.findNetwork(ref).Ok? && d.container(req.container).Ok?
    ensures var r := DeleteNetwork(d, ref);
            !NoMutation(r.calls) <==> d.findNetwork(ref).Ok?
    ensures PostNetworkConnect(d, ref, req).result.Ok? ==>
              d.findNetwork(ref).Ok? && d.container(req.container).Ok? &&
              d.connectToNetwork(d.container(req.container).value, d.findNetwork(ref).value.name).Ok?
    ensures PostNetworkDisconnect(d, ref, req).result.Ok? ==>
              d.findNetwork(ref).Ok? && d.container(req.container).Ok? &&
              d.disconnectFromNetwork(d.container(req.container).value, d.findNetwork(ref).value).Ok?
    ensures DeleteNetwork(d, ref).result.Ok? ==>
              d.findNetwork(ref).Ok? && d.deleteNetwork(d.findNetwork(ref).value).Ok?
  {
    var rc := PostNetworkConnect(d, ref, req);
    var rd := PostNetworkDisconnect(d, ref, req);
    var rx := DeleteNetwork(d, ref);
    if d.findNetwork(ref).Ok? && d.container(req.container).Ok? {
      assert Mutating(rc.calls[2]) && Mutating(rd.calls[2]);
    }
    if d.findNetwork(ref).Ok? {
      assert Mutating(rx.calls[1]);
    }
  }

  // ---------------------------------------------------------------------
  // postNetworkCreate

  /** The warning given when a network of the requested name exists. */
  function DuplicateWarning(existing: Network): (w: string)
    ensures w != ""
    ensures Contains(w, existing.name) && Contains(w, existing.id)
  {
    var w := "Network with name " + existing.name + " (id : " + existing.id + ") already exists";
    assert OccursAt(w, existing.name, 18);
    assert OccursAt(w, existing.id, 18 + |existing.name| + 7);
    w
  }

  /** The name lookup of create lets creation go ahead: nothing was found
      and duplicates are tolerated, or the lookup reported no such network. */
  predicate CreateProceeds(lookup: Result<Network>, checkDuplicate: bool)
  {
    match lookup
    case Ok(_) => !checkDuplicate
    case Err(e) => e.NoSuchNetwork?
  }

  /** postNetworkCreate: look the name up; an error other than "no such
      network" is returned; an existing network is a NetworkNameError when
      duplicates are checked and a warning otherwise; then create. */
  function PostNetworkCreate(d: Daemon, req: NetworkCreate): (r: Reply<NetworkCreateResponse>)
    ensures |r.calls| >= 1 && r.calls[0] == LookupByName(req.name)
    ensures var lookup := d.networkByName(req.name);
            lookup.Err? && !lookup.error.NoSuchNetwork? ==>
              r.result == Err(lookup.error) && NoMutation(r.calls)
    ensures var lookup := d.networkByName(req.name);
            lookup.Ok? && req.checkDuplicate ==>
              r.result == Err(NetworkNameError(req.name)) && NoMutation(r.calls)
    ensures CreateProceeds(d.networkByName(req.name), req.checkDuplicate) ==>
              var created := d.createNetwork(req.name, req.driver, req.options);
              && r.calls == [LookupByName(req.name), Create(req.name, req.driver, req.options)]
              && (created.Err? ==> r.result == Err(created.error))
              && (created.Ok? ==> r.result.Ok? && r.result.value.id == created.value.id)
    ensures r.result.Ok? ==>
              var lookup := d.networkByName(req.name);
              && (lookup.Err? ==> r.result.value.warning == "")
              && (lookup.Ok? ==> r.result.value.warning != "")
              && (lookup.Ok? ==> Contains(r.result.value.warning, lookup.value.name) &&
                                 Contains(r.result.value.warning, lookup.value.id))
  {
    var lookup := d.networkByName(req.name);
    if lookup.Err? && !lookup.error.NoSuchNetwork? then
      Reply(Err(lookup.error), [LookupByName(req.name)])
    else if lookup.Ok? && req.checkDuplicate then
      Reply(Err(NetworkNameError(req.name)), [LookupByName(req.name)])
    else
      var warning := if lookup.Ok? then DuplicateWarning(lookup.value) else "";
      var calls := [LookupByName(req.name), Create(req.name, req.driver, req.options)];
      match d.createNetwork(req.name, req.driver, req.options)
      case Err(e) => Reply(Err(e), calls)
      case Ok(nw) => Reply(Ok(NetworkCreateResponse(nw.id, warning)), calls)
  }

  /** Create asks the daemon to create a network exactly when the lookup
      allows it; a name is unique only when the request asks for it. */
  lemma CreateCallsCreateIffAllowed(d: Daemon, req: NetworkCreate)
    ensures var r := PostNetworkCreate(d, req);
            !NoMutation(r.calls) <==> CreateProceeds(d.networkByName(req.name), req.checkDuplicate)
    ensures var r := PostNetworkCreate(d, req);
            r.result.Ok? ==> CreateProceeds(d.networkByName(req.name), req.checkDuplicate) &&
                             d.createNetwork(req.name, req.driver, req.options).Ok?
  {
    var r := PostNetworkCreate(d, req);
    if CreateProceeds(d.networkByName(req.name), req.checkDuplicate) {
      assert Mutating(r.calls[1]);
    }
  }
}
