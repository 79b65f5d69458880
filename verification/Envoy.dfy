/**
  Preparing a standalone Envoy bootstrap: the administration address, the guard and authorisation filters of every
  listener and the two local clusters are rewritten, at fixed places of an otherwise untouched JSON tree.
*/
module Envoy {
  import opened Wrappers

  datatype Json =
    | Null
    | Boolean(value: bool)
    | Number(digits: string)
    | Text(text: string)
    | List(items: seq<Json>)
    | Object(fields: map<string, Json>)

  /** What the rewrite depends on besides the tree. */
  datatype Config = Config(policy: bool, admin: string, opa: string, sds: string, guard: Json)

  function Field(j: Json, key: string): Json {
    if j.Object? && key in j.fields then j.fields[key] else Null
  }

  function Items(j: Json): seq<Json> { if j.List? then j.items else [] }

  predicate Named(j: Json, name: string) { Field(j, "name") == Text(name) }

  // ---- rewriting below a field or an array

  type Rewrite = Json -> Option<Json>

  function Set(j: Json, key: string, value: Json): (r: Json)
    requires j.Object?
    ensures r.Object?
  {
    Object(j.fields[key := value])
  }

  function OnField(key: string, f: Rewrite, j: Json): Option<Json> {
    if !j.Object? || key !in j.fields then Some(j)
    else
      match f(j.fields[key])
      case None => None
      case Some(value) => Some(Set(j, key, value))
  }

  function OnAll(f: Rewrite, items: seq<Json>): (r: Option<seq<Json>>)
    ensures r.Some? <==> forall i :: 0 <= i < |items| ==> f(items[i]).Some?
    ensures r.Some? ==> |r.value| == |items| && forall i :: 0 <= i < |items| ==> f(items[i]) == Some(r.value[i])
  {
    if items == [] then Some([])
    else
      var k := |items| - 1;
      var before := OnAll(f, items[..k]);
      var last := f(items[k]);
      if before.None? || last.None? then None else Some(before.value + [last.value])
  }

  function OnItems(f: Rewrite, j: Json): Option<Json> {
    if !j.List? then Some(j)
    else
      match OnAll(f, j.items)
      case None => None
      case Some(items) => Some(List(items))
  }

  // A rewrite of items as a rewrite of the list, and one of a list as one of the object holding it.
  function Itemwise(f: Rewrite): Rewrite { j => OnItems(f, j) }

  function Within(key: string, f: Rewrite): Rewrite { j => OnField(key, f, j) }

  function OnEach(key: string, f: Rewrite, j: Json): Option<Json> { OnField(key, Itemwise(f), j) }

  // ---- the rewrite

  const EXT_AUTHZ: string := "envoy.filters.http.ext_authz"
  const MANAGER: string := "envoy.filters.network.http_connection_manager"

  function Pipe(path: string): Json {
    Object(map["pipe" := Object(map["path" := Text(path), "mode" := Number("384")])])
  }

  predicate Authorises(filter: Json) { Named(filter, EXT_AUTHZ) }

  predicate Guards(filter: Json) { Named(filter, "gateway.request") || Named(filter, "gateway.dispatch") }

  const CLOSED_BODY: Json :=
    Object(map["max_request_bytes" := Number("65536"), "allow_partial_message" := Boolean(false),
               "pack_as_bytes" := Boolean(true)])

  function Closed(typed: Json): (r: Json)
    requires typed.Object?
    ensures r.Object?
  {
    Set(Set(Set(typed, "failure_mode_allow", Boolean(false)), "encode_raw_headers", Boolean(true)),
        "with_request_body", CLOSED_BODY)
  }

  function HttpFilter(c: Config, filter: Json): Option<Json> {
    if c.policy && Authorises(filter) then
      var typed := Field(filter, "typed_config");
      if typed.Object? then Some(Set(filter, "typed_config", Closed(typed))) else None
    else if Guards(filter) then Some(Set(filter, "typed_config", c.guard))
    else Some(filter)
  }

  function HttpFilters(c: Config): Rewrite { filter => HttpFilter(c, filter) }

  // The filters of a connection manager; any other network filter stays as it is.
  function NetworkFilter(c: Config, filter: Json): Option<Json> {
    if !Named(filter, MANAGER) then Some(filter)
    else OnField("typed_config", Within("http_filters", Itemwise(HttpFilters(c))), filter)
  }

  function NetworkFilters(c: Config): Rewrite { filter => NetworkFilter(c, filter) }

  function FilterChains(c: Config): Rewrite { Within("filters", Itemwise(NetworkFilters(c))) }

  function Listeners(c: Config): Rewrite { Within("filter_chains", Itemwise(FilterChains(c))) }

  function Endpoints(name: Json, path: string): Json {
    var endpoint := Object(map["endpoint" := Object(map["address" := Pipe(path)])]);
    Object(map["cluster_name" := name,
               "endpoints" := List([Object(map["lb_endpoints" := List([endpoint])])])])
  }

  function Cluster(c: Config, cluster: Json): Option<Json> {
    if Named(cluster, "opa") || Named(cluster, "inspection_sds") then
      var path := if Named(cluster, "opa") then c.opa else c.sds;
      Some(Set(Set(cluster, "type", Text("STATIC")), "load_assignment", Endpoints(Field(cluster, "name"), path)))
    else Some(cluster)
  }

  function Clusters(c: Config): Rewrite { cluster => Cluster(c, cluster) }

  function Resource(c: Config, resources: Json): Option<Json> {
    match OnEach("listeners", Listeners(c), resources)
    case None => None
    case Some(listening) => OnEach("clusters", Clusters(c), listening)
  }

  function Resources(c: Config): Rewrite { resources => Resource(c, resources) }

  function Administered(c: Config, b: Json): Json
    requires b.Object?
  {
    var admin := Field(b, "admin");
    Set(b, "admin", Set(if admin.Object? then admin else Object(map[]), "address", Pipe(c.admin)))
  }

  // ---- the HTTP filters of a bootstrap

  function Flat(items: seq<Json>, f: Json -> seq<Json>): (r: seq<Json>)
    ensures forall x :: x in r <==> exists i :: 0 <= i < |items| && x in f(items[i])
  {
    if items == [] then [] else Flat(items[..|items| - 1], f) + f(items[|items| - 1])
  }

  function FiltersOfFilter(filter: Json): seq<Json> {
    if Named(filter, MANAGER) then Items(Field(Field(filter, "typed_config"), "http_filters")) else []
  }

  function FiltersOfChain(chain: Json): seq<Json> { Flat(Items(Field(chain, "filters")), FiltersOfFilter) }

  function FiltersOfListener(listener: Json): seq<Json> {
    Flat(Items(Field(listener, "filter_chains")), FiltersOfChain)
  }

  function FiltersOf(resources: Json): seq<Json> { Flat(Items(Field(resources, "listeners")), FiltersOfListener) }

  predicate Authorised(filters: seq<Json>) { exists filter :: filter in filters && Authorises(filter) }

  // `prepareEnvoy` between decoding and encoding.
  function Prepare(c: Config, b: Json): Option<Json> {
    if !b.Object? || Field(b, "dynamic_resources") != Null then None
    else
      match OnField("static_resources", Resources(c), Administered(c, b))
      case None => None
      case Some(prepared) =>
        if c.policy && !Authorised(FiltersOf(Field(b, "static_resources"))) then None else Some(prepared)
  }

  // ---- the same, loop by loop

  lemma OnAllIs(f: Rewrite, items: seq<Json>, done: seq<Json>)
    requires |done| == |items| && forall i :: 0 <= i < |items| ==> f(items[i]) == Some(done[i])
    ensures OnAll(f, items) == Some(done)
  {
    assert OnAll(f, items).value == done;
  }

  lemma FlatAppend(items: seq<Json>, f: Json -> seq<Json>, i: nat)
    requires i < |items|
    ensures Flat(items[..i + 1], f) == Flat(items[..i], f) + f(items[i])
  {
    assert items[..i + 1][..i] == items[..i];
  }

  lemma AuthorisedAppend(a: seq<Json>, b: seq<Json>)
    ensures Authorised(a + b) <==> Authorised(a) || Authorised(b)
  {
  }

  method RewriteHttpFilters(c: Config, items: seq<Json>) returns (r: Option<seq<Json>>, shared: bool)
    ensures r == OnAll(HttpFilters(c), items)
    ensures r.Some? ==> (shared <==> c.policy && Authorised(items))
  {
    hide Closed;
    var done: seq<Json> := [];
    shared := false;
    for i := 0 to |items|
      invariant |done| == i && forall k :: 0 <= k < i ==> HttpFilter(c, items[k]) == Some(done[k])
      invariant shared <==> c.policy && Authorised(items[..i])
    {
      var filter := items[i];
      assert items[..i + 1] == items[..i] + [filter];
      AuthorisedAppend(items[..i], [filter]);
      if c.policy && Named(filter, EXT_AUTHZ) {
        shared := true;
        var typed := Field(filter, "typed_config");
        if !typed.Object? {
          assert HttpFilters(c)(items[i]).None?;
          return None, shared;
        }
        filter := Set(filter, "typed_config", Closed(typed));
      }
      if Named(filter, "gateway.request") || Named(filter, "gateway.dispatch") {
        filter := Set(filter, "typed_config", c.guard);
      }
      done := done + [filter];
    }
    assert items[..|items|] == items;
    OnAllIs(HttpFilters(c), items, done);
    return Some(done), shared;
  }

  // Writing back what was there changes nothing.
  lemma SetSame(j: Json, key: string)
    requires j.Object? && key in j.fields
    ensures Set(j, key, j.fields[key]) == j
  {
    assert j.fields[key := j.fields[key]] == j.fields;
  }

  lemma Untouched(c: Config, filter: Json)
    requires !(Named(filter, MANAGER) && Field(Field(filter, "typed_config"), "http_filters").List?)
    ensures NetworkFilter(c, filter) == Some(filter) && FiltersOfFilter(filter) == []
  {
    hide HttpFilter;
    var typed := Field(filter, "typed_config");
    if typed.Object? && "http_filters" in typed.fields { SetSame(typed, "http_filters"); }
    if filter.Object? && "typed_config" in filter.fields { SetSame(filter, "typed_config"); }
  }

  method RewriteNetworkFilter(c: Config, filter: Json) returns (r: Option<Json>, shared: bool)
    ensures r == NetworkFilters(c)(filter)
    ensures r.Some? ==> (shared <==> c.policy && Authorised(FiltersOfFilter(filter)))
  {
    hide HttpFilter;
    var typed := Field(filter, "typed_config");
    var list := Field(typed, "http_filters");
    if !Named(filter, MANAGER) || !list.List? {
      Untouched(c, filter);
      return Some(filter), false;
    }
    var rewritten, found := RewriteHttpFilters(c, list.items);
    if rewritten.None? { return None, found; }
    return Some(Set(filter, "typed_config", Set(typed, "http_filters", List(rewritten.value)))), found;
  }

  lemma NoneAuthorised()
    ensures !Authorised([])
  {
  }

  // The loop over the network filters of a chain.
  method RewriteFilters(c: Config, items: seq<Json>) returns (r: Option<seq<Json>>, shared: bool)
    ensures r == OnAll(NetworkFilters(c), items)
    ensures r.Some? ==> (shared <==> c.policy && Authorised(Flat(items, FiltersOfFilter)))
  {
    hide NetworkFilter, FiltersOfFilter, Authorised, OnField, OnItems;
    var done: seq<Json> := [];
    shared := false;
    NoneAuthorised();
    for i := 0 to |items|
      invariant |done| == i && forall k :: 0 <= k < i ==> NetworkFilters(c)(items[k]) == Some(done[k])
      invariant shared <==> c.policy && Authorised(Flat(items[..i], FiltersOfFilter))
    {
      FlatAppend(items, FiltersOfFilter, i);
      AuthorisedAppend(Flat(items[..i], FiltersOfFilter), FiltersOfFilter(items[i]));
      var rewritten, found := RewriteNetworkFilter(c, items[i]);
      if rewritten.None? { return None, shared; }
      shared := shared || found;
      done := done + [rewritten.value];
    }
    assert items[..|items|] == items;
    OnAllIs(NetworkFilters(c), items, done);
    return Some(done), shared;
  }

  method RewriteChain(c: Config, chain: Json) returns (r: Option<Json>, shared: bool)
    ensures r == FilterChains(c)(chain)
    ensures r.Some? ==> (shared <==> c.policy && Authorised(FiltersOfChain(chain)))
  {
    hide NetworkFilter;
    var list := Field(chain, "filters");
    if !list.List? {
      if chain.Object? && "filters" in chain.fields { SetSame(chain, "filters"); }
      return Some(chain), false;
    }
    var rewritten, found := RewriteFilters(c, list.items);
    if rewritten.None? { return None, found; }
    return Some(Set(chain, "filters", List(rewritten.value))), found;
  }

  // The loop over the filter chains of a listener.
  method RewriteChains(c: Config, items: seq<Json>) returns (r: Option<seq<Json>>, shared: bool)
    ensures r == OnAll(FilterChains(c), items)
    ensures r.Some? ==> (shared <==> c.policy && Authorised(Flat(items, FiltersOfChain)))
  {
    hide NetworkFilter, FiltersOfChain, Authorised, OnField, OnItems;
    var done: seq<Json> := [];
    shared := false;
    NoneAuthorised();
    for i := 0 to |items|
      invariant |done| == i && forall k :: 0 <= k < i ==> FilterChains(c)(items[k]) == Some(done[k])
      invariant shared <==> c.policy && Authorised(Flat(items[..i], FiltersOfChain))
    {
      FlatAppend(items, FiltersOfChain, i);
      AuthorisedAppend(Flat(items[..i], FiltersOfChain), FiltersOfChain(items[i]));
      var rewritten, found := RewriteChain(c, items[i]);
      if rewritten.None? { return None, shared; }
      shared := shared || found;
      done := done + [rewritten.value];
    }
    assert items[..|items|] == items;
    OnAllIs(FilterChains(c), items, done);
    return Some(done), shared;
  }

  method RewriteListener(c: Config, listener: Json) returns (r: Option<Json>, shared: bool)
    ensures r == Listeners(c)(listener)
    ensures r.Some? ==> (shared <==> c.policy && Authorised(FiltersOfListener(listener)))
  {
    hide NetworkFilter;
    var list := Field(listener, "filter_chains");
    if !list.List? {
      if listener.Object? && "filter_chains" in listener.fields { SetSame(listener, "filter_chains"); }
      return Some(listener), false;
    }
    var rewritten, found := RewriteChains(c, list.items);
    if rewritten.None? { return None, found; }
    return Some(Set(listener, "filter_chains", List(rewritten.value))), found;
  }

  // The loop over the listeners.
  method RewriteListeners(c: Config, items: seq<Json>) returns (r: Option<seq<Json>>, shared: bool)
    ensures r == OnAll(Listeners(c), items)
    ensures r.Some? ==> (shared <==> c.policy && Authorised(Flat(items, FiltersOfListener)))
  {
    hide NetworkFilter, FiltersOfListener, Authorised, OnField, OnItems;
    var done: seq<Json> := [];
    shared := false;
    NoneAuthorised();
    for i := 0 to |items|
      invariant |done| == i && forall k :: 0 <= k < i ==> Listeners(c)(items[k]) == Some(done[k])
      invariant shared <==> c.policy && Authorised(Flat(items[..i], FiltersOfListener))
    {
      FlatAppend(items, FiltersOfListener, i);
      AuthorisedAppend(Flat(items[..i], FiltersOfListener), FiltersOfListener(items[i]));
      var rewritten, found := RewriteListener(c, items[i]);
      if rewritten.None? { return None, shared; }
      shared := shared || found;
      done := done + [rewritten.value];
    }
    assert items[..|items|] == items;
    OnAllIs(Listeners(c), items, done);
    return Some(done), shared;
  }

  // The loop over the clusters.
  method RewriteClusters(c: Config, items: seq<Json>) returns (r: seq<Json>)
    ensures OnAll(Clusters(c), items) == Some(r)
  {
    hide Endpoints;
    r := [];
    for i := 0 to |items|
      invariant |r| == i && forall k :: 0 <= k < i ==> Clusters(c)(items[k]) == Some(r[k])
    {
      var cluster := items[i];
      if Named(cluster, "opa") || Named(cluster, "inspection_sds") {
        var socket := if Named(cluster, "opa") then c.opa else c.sds;
        cluster := Set(Set(cluster, "type", Text("STATIC")), "load_assignment",
                       Endpoints(Field(cluster, "name"), socket));
      }
      r := r + [cluster];
    }
    OnAllIs(Clusters(c), items, r);
  }

  method PrepareResources(c: Config, resources: Json) returns (r: Option<Json>, shared: bool)
    ensures r == Resources(c)(resources)
    ensures r.Some? ==> (shared <==> c.policy && Authorised(FiltersOf(resources)))
  {
    hide Listeners, Clusters, FiltersOfListener, Authorised;
    var prepared := resources;
    shared := false;
    NoneAuthorised();
    var listeners := Field(resources, "listeners");
    if listeners.List? {
      var rewritten, found := RewriteListeners(c, listeners.items);
      if rewritten.None? { return None, found; }
      shared := found;
      prepared := Set(prepared, "listeners", List(rewritten.value));
    } else if resources.Object? && "listeners" in resources.fields {
      SetSame(resources, "listeners");
    }
    var clusters := Field(prepared, "clusters");
    if clusters.List? {
      var rewritten := RewriteClusters(c, clusters.items);
      prepared := Set(prepared, "clusters", List(rewritten));
    } else if prepared.Object? && "clusters" in prepared.fields {
      SetSame(prepared, "clusters");
    }
    return Some(prepared), shared;
  }

  method PrepareEnvoy(c: Config, b: Json) returns (r: Option<Json>)
    ensures r == Prepare(c, b)
  {
    hide Resource, FiltersOf, Authorised, Pipe;
    if !b.Object? || Field(b, "dynamic_resources") != Null { return None; }
    var admin := Field(b, "admin");
    if !admin.Object? { admin := Object(map[]); }
    var prepared := Set(b, "admin", Set(admin, "address", Pipe(c.admin)));
    var resources, shared := PrepareResources(c, Field(b, "static_resources"));
    if "static_resources" !in b.fields {
      NothingAuthorised(Null);
      return if c.policy then None else Some(prepared);
    }
    if resources.None? { return None; }
    if c.policy && !shared { return None; }
    return Some(Set(prepared, "static_resources", resources.value));
  }

  lemma NothingAuthorised(resources: Json)
    requires !Field(resources, "listeners").List?
    ensures !Authorised(FiltersOf(resources))
  {
  }
}
