/**
  What preparing a bootstrap does, place by place: which filters it looks at, when it succeeds, and what the result
  holds at each place that matters.
*/
module EnvoyRules {
  import opened Wrappers
  import opened Envoy
  import opened EnvoyFrame

  // ---- places

  lemma {:induction false} SubAppend(j: Json, p: Path, q: Path)
    ensures Sub(j, p + q) == if Sub(j, p).Some? then Sub(Sub(j, p).value, q) else None
  {
    if p == [] {
      assert p + q == q;
    } else {
      assert (p + q)[1..] == p[1..] + q;
      match p[0]
      case At(key) => if j.Object? && key in j.fields { SubAppend(j.fields[key], p[1..], q); }
      case Nth(index) => if j.List? && index < |j.items| { SubAppend(j.items[index], p[1..], q); }
    }
  }

  lemma SubKey(j: Json, key: string)
    ensures Sub(j, [At(key)]) == if j.Object? && key in j.fields then Some(j.fields[key]) else None
  {
  }

  // An item of a list in a field.
  lemma SubItem(j: Json, key: string, i: nat)
    ensures Sub(j, [At(key), Nth(i)]) ==
            if i < |Items(Field(j, key))| then Some(Items(Field(j, key))[i]) else None
  {
    SubAppend(j, [At(key)], [Nth(i)]);
    assert [At(key)] + [Nth(i)] == [At(key), Nth(i)];
    SubKey(j, key);
    SubNth(Field(j, key), i);
  }

  lemma SubNth(j: Json, i: nat)
    ensures Sub(j, [Nth(i)]) == if j.List? && i < |j.items| then Some(j.items[i]) else None
  {
  }

  function ManagerPath(i: nat, j: nat, k: nat): Path {
    [At("static_resources"), At("listeners"), Nth(i), At("filter_chains"), Nth(j), At("filters"), Nth(k)]
  }

  function FilterPath(i: nat, j: nat, k: nat, l: nat): Path {
    ManagerPath(i, j, k) + [At("typed_config"), At("http_filters"), Nth(l)]
  }

  // The l-th HTTP filter of the connection manager at this place.
  ghost predicate FilterAt(b: Json, i: nat, j: nat, k: nat, l: nat, f: Json) {
    && Sub(b, ManagerPath(i, j, k) + [At("name")]) == Some(Text("envoy.filters.network.http_connection_manager"))
    && Sub(b, FilterPath(i, j, k, l)) == Some(f)
  }

  // An HTTP filter of the bootstrap.
  ghost predicate HasFilter(b: Json, f: Json) {
    exists i: nat, j: nat, k: nat, l: nat :: FilterAt(b, i, j, k, l, f)
  }

  // ---- the same, level by level

  ghost predicate InManager(filter: Json, l: nat, f: Json) {
    && Sub(filter, [At("name")]) == Some(Text("envoy.filters.network.http_connection_manager"))
    && Sub(filter, [At("typed_config"), At("http_filters"), Nth(l)]) == Some(f)
  }

  ghost predicate InChain(chain: Json, k: nat, l: nat, f: Json) {
    var at := Sub(chain, [At("filters"), Nth(k)]);
    at.Some? && InManager(at.value, l, f)
  }

  ghost predicate InListener(listener: Json, j: nat, k: nat, l: nat, f: Json) {
    var at := Sub(listener, [At("filter_chains"), Nth(j)]);
    at.Some? && InChain(at.value, k, l, f)
  }

  ghost predicate InStatic(static_: Json, i: nat, j: nat, k: nat, l: nat, f: Json) {
    var at := Sub(static_, [At("listeners"), Nth(i)]);
    at.Some? && InListener(at.value, j, k, l, f)
  }

  lemma ManagerIff(filter: Json, f: Json)
    ensures f in FiltersOfFilter(filter) <==> exists l: nat :: InManager(filter, l, f)
  {
    SubKey(filter, "name");
    var typed := Field(filter, "typed_config");
    forall l: nat
      ensures Sub(filter, [At("typed_config"), At("http_filters"), Nth(l)]) ==
              if l < |Items(Field(typed, "http_filters"))| then Some(Items(Field(typed, "http_filters"))[l]) else None
    {
      SubKey(filter, "typed_config");
      SubAppend(filter, [At("typed_config")], [At("http_filters"), Nth(l)]);
      assert [At("typed_config")] + [At("http_filters"), Nth(l)] == [At("typed_config"), At("http_filters"), Nth(l)];
      SubItem(typed, "http_filters", l);
    }
    if f in FiltersOfFilter(filter) {
      var l :| 0 <= l < |Items(Field(typed, "http_filters"))| && Items(Field(typed, "http_filters"))[l] == f;
      assert InManager(filter, l, f);
    }
  }

  lemma ChainIff(chain: Json, f: Json)
    ensures f in FiltersOfChain(chain) <==> exists k: nat, l: nat :: InChain(chain, k, l, f)
  {
    hide InManager, FiltersOfFilter;
    var items := Items(Field(chain, "filters"));
    forall k: nat ensures Sub(chain, [At("filters"), Nth(k)]) == if k < |items| then Some(items[k]) else None {
      SubItem(chain, "filters", k);
    }
    forall filter ensures f in FiltersOfFilter(filter) <==> exists l: nat :: InManager(filter, l, f) {
      ManagerIff(filter, f);
    }
    if f in FiltersOfChain(chain) {
      var k :| 0 <= k < |items| && f in FiltersOfFilter(items[k]);
      var l: nat :| InManager(items[k], l, f);
      assert InChain(chain, k, l, f);
    }
  }

  lemma ListenerIff(listener: Json, f: Json)
    ensures f in FiltersOfListener(listener) <==> exists j: nat, k: nat, l: nat :: InListener(listener, j, k, l, f)
  {
    hide InChain, FiltersOfChain;
    var items := Items(Field(listener, "filter_chains"));
    forall j: nat ensures Sub(listener, [At("filter_chains"), Nth(j)]) == if j < |items| then Some(items[j]) else None {
      SubItem(listener, "filter_chains", j);
    }
    forall chain ensures f in FiltersOfChain(chain) <==> exists k: nat, l: nat :: InChain(chain, k, l, f) {
      ChainIff(chain, f);
    }
    if f in FiltersOfListener(listener) {
      var j :| 0 <= j < |items| && f in FiltersOfChain(items[j]);
      var k: nat, l: nat :| InChain(items[j], k, l, f);
      assert InListener(listener, j, k, l, f);
    }
  }

  lemma StaticIff(static_: Json, f: Json)
    ensures f in FiltersOf(static_) <==> exists i: nat, j: nat, k: nat, l: nat :: InStatic(static_, i, j, k, l, f)
  {
    hide InListener, FiltersOfListener;
    var items := Items(Field(static_, "listeners"));
    forall i: nat ensures Sub(static_, [At("listeners"), Nth(i)]) == if i < |items| then Some(items[i]) else None {
      SubItem(static_, "listeners", i);
    }
    forall listener
      ensures f in FiltersOfListener(listener) <==> exists j: nat, k: nat, l: nat :: InListener(listener, j, k, l, f)
    {
      ListenerIff(listener, f);
    }
    if f in FiltersOf(static_) {
      var i :| 0 <= i < |items| && f in FiltersOfListener(items[i]);
      var j: nat, k: nat, l: nat :| InListener(items[i], j, k, l, f);
      assert InStatic(static_, i, j, k, l, f);
    }
  }

  // The value at a manager's place, level by level.
  lemma ManagerAt(b: Json, i: nat, j: nat, k: nat)
    ensures Sub(b, ManagerPath(i, j, k)) ==
            var s := Sub(b, [At("static_resources")]);
            if s.None? then None else
              var listener := Sub(s.value, [At("listeners"), Nth(i)]);
              if listener.None? then None else
                var chain := Sub(listener.value, [At("filter_chains"), Nth(j)]);
                if chain.None? then None else Sub(chain.value, [At("filters"), Nth(k)])
  {
    hide Sub;
    var p0, p1 := [At("static_resources")], [At("listeners"), Nth(i)];
    var p2, p3 := [At("filter_chains"), Nth(j)], [At("filters"), Nth(k)];
    assert ManagerPath(i, j, k) == p0 + (p1 + (p2 + p3));
    SubAppend(b, p0, p1 + (p2 + p3));
    if Sub(b, p0).Some? {
      var s := Sub(b, p0).value;
      SubAppend(s, p1, p2 + p3);
      if Sub(s, p1).Some? { SubAppend(Sub(s, p1).value, p2, p3); }
    }
  }

  lemma StaticManager(b: Json, i: nat, j: nat, k: nat, l: nat, f: Json)
    ensures (&& Sub(b, [At("static_resources")]).Some?
             && InStatic(Sub(b, [At("static_resources")]).value, i, j, k, l, f)) <==>
            Sub(b, ManagerPath(i, j, k)).Some? && InManager(Sub(b, ManagerPath(i, j, k)).value, l, f)
  {
    hide Sub, ManagerPath, InManager;
    ManagerAt(b, i, j, k);
  }

  lemma FilterManager(b: Json, i: nat, j: nat, k: nat, l: nat, f: Json)
    ensures FilterAt(b, i, j, k, l, f) <==>
            Sub(b, ManagerPath(i, j, k)).Some? && InManager(Sub(b, ManagerPath(i, j, k)).value, l, f)
  {
    hide Sub, ManagerPath;
    SubAppend(b, ManagerPath(i, j, k), [At("name")]);
    SubAppend(b, ManagerPath(i, j, k), [At("typed_config"), At("http_filters"), Nth(l)]);
  }

  lemma PlacesAgree(b: Json, i: nat, j: nat, k: nat, l: nat, f: Json)
    ensures FilterAt(b, i, j, k, l, f) <==>
            Sub(b, [At("static_resources")]).Some? && InStatic(Sub(b, [At("static_resources")]).value, i, j, k, l, f)
  {
    hide Sub, FilterAt, InStatic, InManager, ManagerPath;
    StaticManager(b, i, j, k, l, f);
    FilterManager(b, i, j, k, l, f);
  }

  // The filters preparing looks at are the HTTP filters of all connection managers.
  lemma FiltersIff(b: Json, f: Json)
    ensures f in FiltersOf(Field(b, "static_resources")) <==> HasFilter(b, f)
  {
    hide InStatic, FilterAt, FiltersOf;
    forall i: nat, j: nat, k: nat, l: nat
      ensures FilterAt(b, i, j, k, l, f) <==>
              Sub(b, [At("static_resources")]).Some? && InStatic(Sub(b, [At("static_resources")]).value, i, j, k, l, f)
    {
      PlacesAgree(b, i, j, k, l, f);
    }
    SubKey(b, "static_resources");
    StaticIff(Field(b, "static_resources"), f);
    if !Sub(b, [At("static_resources")]).Some? { NoFilters(); }
  }

  lemma NamedIff(j: Json, name: string)
    ensures Named(j, name) <==> Sub(j, [At("name")]) == Some(Text(name))
  {
    SubKey(j, "name");
  }

  // ---- when preparing succeeds

  ghost predicate ExtAuthz(f: Json) { Sub(f, [At("name")]) == Some(Text("envoy.filters.http.ext_authz")) }

  // Preparing succeeds exactly for an object without dynamic resources whose authorisation filters, if policy is to be
  // shared, exist and are all configured by objects.
  lemma PrepareIff(c: Config, b: Json)
    ensures Prepare(c, b).Some? <==>
            && b.Object? && Sub(b, [At("dynamic_resources")]) in {None, Some(Null)}
            && (c.policy ==>
                  && (exists f :: HasFilter(b, f) && ExtAuthz(f))
                  && forall f :: HasFilter(b, f) && ExtAuthz(f) ==>
                       Sub(f, [At("typed_config")]).Some? && Sub(f, [At("typed_config")]).value.Object?)
  {
    hide Prepare, HasFilter, FiltersOf;
    PrepareSucceeds(c, b);
    SubKey(b, "dynamic_resources");
    forall f ensures f in FiltersOf(Field(b, "static_resources")) <==> HasFilter(b, f) { FiltersIff(b, f); }
    forall f ensures Authorises(f) <==> ExtAuthz(f) { NamedIff(f, EXT_AUTHZ); }
    forall f ensures Field(f, "typed_config").Object? <==>
                     Sub(f, [At("typed_config")]).Some? && Sub(f, [At("typed_config")]).value.Object? {
      SubKey(f, "typed_config");
    }
  }

  // ---- what the result holds

  function Socket(path: string): Json {
    Object(map["pipe" := Object(map["path" := Text(path), "mode" := Number("384")])])
  }

  // The filter fails closed and decides on the complete body, up to 64 KiB.
  ghost predicate DecidesClosed(f: Json) {
    && Sub(f, [At("typed_config"), At("failure_mode_allow")]) == Some(Boolean(false))
    && Sub(f, [At("typed_config"), At("encode_raw_headers")]) == Some(Boolean(true))
    && Sub(f, [At("typed_config"), At("with_request_body"), At("allow_partial_message")]) == Some(Boolean(false))
    && Sub(f, [At("typed_config"), At("with_request_body"), At("max_request_bytes")]) == Some(Number("65536"))
    && Sub(f, [At("typed_config"), At("with_request_body"), At("pack_as_bytes")]) == Some(Boolean(true))
  }

  lemma SubField(j: Json, key: string, value: Json)
    requires value != Null
    ensures Field(j, key) == value ==> Sub(j, [At(key)]) == Some(value)
  {
    SubKey(j, key);
  }

  lemma SubField2(j: Json, outer: string, key: string, value: Json)
    requires value != Null && Field(Field(j, outer), key) == value
    ensures Sub(j, [At(outer), At(key)]) == Some(value)
  {
    SubKey(j, outer);
    SubAppend(j, [At(outer)], [At(key)]);
    assert [At(outer)] + [At(key)] == [At(outer), At(key)];
    SubField(Field(j, outer), key, value);
  }

  lemma SubField3(j: Json, outer: string, middle: string, key: string, value: Json)
    requires value != Null && Field(Field(Field(j, outer), middle), key) == value
    ensures Sub(j, [At(outer), At(middle), At(key)]) == Some(value)
  {
    SubKey(j, outer);
    SubAppend(j, [At(outer)], [At(middle), At(key)]);
    assert [At(outer)] + [At(middle), At(key)] == [At(outer), At(middle), At(key)];
    SubField2(Field(j, outer), middle, key, value);
  }

  lemma ClosedDecides(f: Json)
    requires FailsClosed(f)
    ensures DecidesClosed(f)
  {
    hide Sub;
    SubField2(f, "typed_config", "failure_mode_allow", Boolean(false));
    SubField2(f, "typed_config", "encode_raw_headers", Boolean(true));
    SubField3(f, "typed_config", "with_request_body", "allow_partial_message", Boolean(false));
    SubField3(f, "typed_config", "with_request_body", "max_request_bytes", Number("65536"));
    SubField3(f, "typed_config", "with_request_body", "pack_as_bytes", Boolean(true));
  }

  // In a prepared bootstrap with shared policy some filter authorises and each that does decides closed; every guard
  // filter has the configured source.
  lemma PreparedFiltersAt(c: Config, b: Json, f: Json)
    requires Prepare(c, b).Some? && HasFilter(Prepare(c, b).value, f)
    ensures c.policy && ExtAuthz(f) ==> DecidesClosed(f)
    ensures c.guard != Null && Sub(f, [At("name")]) in {Some(Text("gateway.request")), Some(Text("gateway.dispatch"))}
            ==> Sub(f, [At("typed_config")]) == Some(c.guard)
  {
    hide Prepare, HasFilter, FiltersOf, FailsClosed, DecidesClosed, Sub;
    PreparedFilters(c, b);
    FiltersIff(Prepare(c, b).value, f);
    NamedIff(f, EXT_AUTHZ);
    NamedIff(f, "gateway.request");
    NamedIff(f, "gateway.dispatch");
    if FailsClosed(f) { ClosedDecides(f); }
    if c.guard != Null { SubField(f, "typed_config", c.guard); }
  }

  lemma PreparedAuthorises(c: Config, b: Json)
    requires c.policy && Prepare(c, b).Some?
    ensures exists f :: HasFilter(Prepare(c, b).value, f) && ExtAuthz(f)
  {
    hide Prepare, HasFilter, FiltersOf;
    PreparedFilters(c, b);
    var r := Prepare(c, b).value;
    var f :| f in FiltersOf(Field(r, "static_resources")) && Authorises(f);
    FiltersIff(r, f);
    NamedIff(f, EXT_AUTHZ);
  }

  // A cluster on a private socket and nowhere else.
  ghost predicate SocketCluster(cluster: Json, name: string, path: string) {
    && Sub(cluster, [At("type")]) == Some(Text("STATIC"))
    && Sub(cluster, [At("load_assignment")]) ==
       Some(Object(map["cluster_name" := Text(name),
                       "endpoints" := List([Object(map["lb_endpoints" := List([
                         Object(map["endpoint" := Object(map["address" := Socket(path)])])])])])]))
  }

  lemma OnSocketCluster(cluster: Json, name: string, path: string)
    requires Named(cluster, name) && OnSocket(cluster, path)
    ensures SocketCluster(cluster, name, path)
  {
    hide Sub;
    SubField(cluster, "type", Text("STATIC"));
    SubField(cluster, "load_assignment", Endpoints(Text(name), path));
  }

  // The administration listener and the two local clusters of a prepared bootstrap are on their private sockets.
  lemma PreparedSocketsAt(c: Config, b: Json, i: nat, cluster: Json)
    requires Prepare(c, b).Some?
    ensures var r := Prepare(c, b).value;
            && Sub(r, [At("admin"), At("address")]) == Some(Socket(c.admin))
            && (Sub(r, [At("static_resources"), At("clusters"), Nth(i)]) == Some(cluster) ==>
                  && (Sub(cluster, [At("name")]) == Some(Text("opa")) ==> SocketCluster(cluster, "opa", c.opa))
                  && (Sub(cluster, [At("name")]) == Some(Text("inspection_sds")) ==>
                        SocketCluster(cluster, "inspection_sds", c.sds)))
  {
    hide Prepare, Sub, SocketCluster;
    PreparedSockets(c, b);
    var r := Prepare(c, b).value;
    SubField2(r, "admin", "address", Socket(c.admin));
    SubKey(r, "static_resources");
    SubAppend(r, [At("static_resources")], [At("clusters"), Nth(i)]);
    assert [At("static_resources")] + [At("clusters"), Nth(i)] == [At("static_resources"), At("clusters"), Nth(i)];
    SubItem(Field(r, "static_resources"), "clusters", i);
    if Sub(r, [At("static_resources"), At("clusters"), Nth(i)]) == Some(cluster) {
      assert Local(c, cluster);
      NamedIff(cluster, "opa");
      NamedIff(cluster, "inspection_sds");
      if Named(cluster, "opa") { OnSocketCluster(cluster, "opa", c.opa); }
      if Named(cluster, "inspection_sds") { OnSocketCluster(cluster, "inspection_sds", c.sds); }
    }
  }
}
