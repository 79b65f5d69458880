/**
  What preparing a bootstrap does to the whole tree: it is idempotent, it writes at listed places and nowhere else,
  and every filter it must change ends as required.
*/
module EnvoyFrame {
  import opened Wrappers
  import opened Envoy

  // ---- idempotence

  ghost predicate Settles(f: Rewrite) {
    forall j :: f(j).Some? ==> f(f(j).value) == f(j)
  }

  lemma WithinSettles(key: string, f: Rewrite)
    requires Settles(f)
    ensures Settles(Within(key, f))
  {
    forall j | Within(key, f)(j).Some? ensures Within(key, f)(Within(key, f)(j).value) == Within(key, f)(j) {
      if j.Object? && key in j.fields {
        var value := f(j.fields[key]).value;
        assert f(value) == Some(value);
        SetSame(Set(j, key, value), key);
      }
    }
  }

  lemma ItemwiseSettles(f: Rewrite)
    requires Settles(f)
    ensures Settles(Itemwise(f))
  {
    forall j | Itemwise(f)(j).Some? ensures Itemwise(f)(Itemwise(f)(j).value) == Itemwise(f)(j) {
      if j.List? {
        var items := OnAll(f, j.items).value;
        forall i | 0 <= i < |items| ensures f(items[i]) == Some(items[i]) { assert f(j.items[i]) == Some(items[i]); }
        OnAllIs(f, items, items);
      }
    }
  }

  lemma SetTwice(j: Json, key: string, value: Json)
    requires j.Object?
    ensures Set(Set(j, key, value), key, value) == Set(j, key, value)
  {
    assert j.fields[key := value][key := value] == j.fields[key := value];
  }

  lemma ClosedTwice(typed: Json)
    requires typed.Object?
    ensures Closed(Closed(typed)) == Closed(typed)
  {
    assert Closed(Closed(typed)).fields == Closed(typed).fields;
  }

  lemma SetKeeps(j: Json, key: string, value: Json, other: string)
    requires j.Object?
    ensures Field(Set(j, key, value), key) == value
    ensures other != key ==> Field(Set(j, key, value), other) == Field(j, other)
  {
  }

  lemma HttpFiltersSettle(c: Config)
    ensures Settles(HttpFilters(c))
  {
    forall j | HttpFilters(c)(j).Some? ensures HttpFilters(c)(HttpFilters(c)(j).value) == HttpFilters(c)(j) {
      HttpFilterSettles(c, j);
    }
  }

  lemma HttpFilterSettles(c: Config, j: Json)
    requires HttpFilter(c, j).Some?
    ensures HttpFilter(c, HttpFilter(c, j).value) == HttpFilter(c, j)
  {
    hide Closed, Set, Field;
    var typed := Field(j, "typed_config");
    if c.policy && Authorises(j) {
      assert j.Object? by { NamedObject(j, EXT_AUTHZ); }
      ClosedTwice(typed);
      SetTwice(j, "typed_config", Closed(typed));
      SetKeeps(j, "typed_config", Closed(typed), "name");
    } else if Guards(j) {
      assert j.Object? by {
        NamedObject(j, if Named(j, "gateway.request") then "gateway.request" else "gateway.dispatch");
      }
      SetTwice(j, "typed_config", c.guard);
      SetKeeps(j, "typed_config", c.guard, "name");
    }
  }

  lemma NamedObject(j: Json, name: string)
    requires Named(j, name)
    ensures j.Object?
  {
  }

  lemma NetworkFiltersSettle(c: Config)
    ensures Settles(NetworkFilters(c))
  {
    hide HttpFilters, Itemwise;
    HttpFiltersSettle(c);
    ItemwiseSettles(HttpFilters(c));
    WithinSettles("http_filters", Itemwise(HttpFilters(c)));
    var inner := Within("http_filters", Itemwise(HttpFilters(c)));
    WithinSettles("typed_config", inner);
    forall j | NetworkFilter(c, j).Some? ensures NetworkFilter(c, NetworkFilter(c, j).value) == NetworkFilter(c, j) {
      if Named(j, MANAGER) {
        assert Within("typed_config", inner)(j) == NetworkFilter(c, j);
        assert Named(NetworkFilter(c, j).value, MANAGER);
        assert Within("typed_config", inner)(NetworkFilter(c, j).value) == NetworkFilter(c, NetworkFilter(c, j).value);
      }
    }
  }

  lemma ListenersSettle(c: Config)
    ensures Settles(Listeners(c))
  {
    hide NetworkFilters, Settles;
    NetworkFiltersSettle(c);
    ItemwiseSettles(NetworkFilters(c));
    WithinSettles("filters", Itemwise(NetworkFilters(c)));
    ItemwiseSettles(FilterChains(c));
    WithinSettles("filter_chains", Itemwise(FilterChains(c)));
  }

  lemma ClustersSettle(c: Config)
    ensures Settles(Clusters(c))
  {
    forall j | Clusters(c)(j).Some? ensures Clusters(c)(Clusters(c)(j).value) == Clusters(c)(j) {
      ClusterSettles(c, j);
    }
  }

  lemma ClusterSettles(c: Config, j: Json)
    ensures Cluster(c, j).Some? && Cluster(c, Cluster(c, j).value) == Cluster(c, j)
  {
    hide Endpoints, Field, Set;
    if Named(j, "opa") || Named(j, "inspection_sds") {
      assert j.Object? by { NamedObject(j, if Named(j, "opa") then "opa" else "inspection_sds"); }
      var path := if Named(j, "opa") then c.opa else c.sds;
      var endpoints := Endpoints(Field(j, "name"), path);
      SetKeeps(j, "type", Text("STATIC"), "name");
      SetKeeps(Set(j, "type", Text("STATIC")), "load_assignment", endpoints, "name");
      SetPairTwice(j, "type", Text("STATIC"), "load_assignment", endpoints);
    }
  }

  lemma SetPairTwice(j: Json, k: string, v: Json, l: string, w: Json)
    requires j.Object? && k != l
    ensures Set(Set(Set(Set(j, k, v), l, w), k, v), l, w) == Set(Set(j, k, v), l, w)
  {
    assert j.fields[k := v][l := w][k := v][l := w] == j.fields[k := v][l := w];
  }

  // Rewriting one field does not disturb a settled other one.
  lemma FieldsIndependent(key: string, other: string, f: Rewrite, g: Rewrite, j: Json)
    requires key != other && OnField(key, f, j) == Some(j) && OnField(other, g, j).Some?
    ensures OnField(key, f, OnField(other, g, j).value) == Some(OnField(other, g, j).value)
  {
    var r := OnField(other, g, j).value;
    if j.Object? && key in j.fields {
      assert Set(j, key, f(j.fields[key]).value).fields[key] == j.fields[key];
      SetSame(r, key);
    }
  }

  lemma ResourcesSettle(c: Config)
    ensures Settles(Resources(c))
  {
    hide Listeners, Clusters, Itemwise, OnField;
    ListenersSettle(c);
    ItemwiseSettles(Listeners(c));
    WithinSettles("listeners", Itemwise(Listeners(c)));
    ClustersSettle(c);
    ItemwiseSettles(Clusters(c));
    WithinSettles("clusters", Itemwise(Clusters(c)));
    forall j | Resource(c, j).Some? ensures Resource(c, Resource(c, j).value) == Resource(c, j) {
      var listening := OnField("listeners", Itemwise(Listeners(c)), j).value;
      assert Within("listeners", Itemwise(Listeners(c)))(j) == Some(listening);
      assert Within("listeners", Itemwise(Listeners(c)))(listening) == Some(listening);
      var r := OnField("clusters", Itemwise(Clusters(c)), listening).value;
      assert Within("clusters", Itemwise(Clusters(c)))(listening) == Some(r);
      assert Within("clusters", Itemwise(Clusters(c)))(r) == Some(r);
      FieldsIndependent("listeners", "clusters", Itemwise(Listeners(c)), Itemwise(Clusters(c)), listening);
    }
  }

  // ---- the filters, before and after

  ghost predicate Pointwise(f: Rewrite, before: seq<Json>, after: seq<Json>) {
    |before| == |after| && forall i :: 0 <= i < |before| ==> f(before[i]) == Some(after[i])
  }

  lemma PointwiseAppend(f: Rewrite, a: seq<Json>, b: seq<Json>, x: seq<Json>, y: seq<Json>)
    requires Pointwise(f, a, x) && Pointwise(f, b, y)
    ensures Pointwise(f, a + b, x + y)
  {
  }

  // If each item's filters are rewritten one by one, so are those of the list.
  lemma {:induction false} FlatPointwise(f: Rewrite, before: seq<Json>, after: seq<Json>, filters: Json -> seq<Json>)
    requires |before| == |after|
    requires forall i :: 0 <= i < |before| ==> Pointwise(f, filters(before[i]), filters(after[i]))
    ensures Pointwise(f, Flat(before, filters), Flat(after, filters))
  {
    hide Pointwise;
    if before == [] {
      assert Pointwise(f, [], []) by { NothingPointwise(f); }
    } else {
      var k := |before| - 1;
      FlatPointwise(f, before[..k], after[..k], filters);
      PointwiseAppend(f, Flat(before[..k], filters), filters(before[k]), Flat(after[..k], filters), filters(after[k]));
    }
  }

  lemma NothingPointwise(f: Rewrite)
    ensures Pointwise(f, [], [])
  {
  }

  lemma FilterPointwise(c: Config, before: Json, after: Json)
    requires NetworkFilters(c)(before) == Some(after)
    ensures Pointwise(HttpFilters(c), FiltersOfFilter(before), FiltersOfFilter(after))
  {
    hide HttpFilter;
  }

  lemma ListPointwise(c: Config, key: string, g: Rewrite, filters: Json -> seq<Json>, before: Json, after: Json)
    requires Within(key, Itemwise(g))(before) == Some(after)
    requires forall x, y :: g(x) == Some(y) ==> Pointwise(HttpFilters(c), filters(x), filters(y))
    ensures Pointwise(HttpFilters(c), Flat(Items(Field(before, key)), filters), Flat(Items(Field(after, key)), filters))
  {
    hide Pointwise, HttpFilters;
    FlatPointwise(HttpFilters(c), Items(Field(before, key)), Items(Field(after, key)), filters);
  }

  lemma ListenerPointwise(c: Config, before: Json, after: Json)
    requires Listeners(c)(before) == Some(after)
    ensures Pointwise(HttpFilters(c), FiltersOfListener(before), FiltersOfListener(after))
  {
    hide Pointwise, HttpFilters, NetworkFilters, FiltersOfFilter;
    forall x, y | FilterChains(c)(x) == Some(y)
      ensures Pointwise(HttpFilters(c), FiltersOfChain(x), FiltersOfChain(y))
    {
      forall f, g | NetworkFilters(c)(f) == Some(g)
        ensures Pointwise(HttpFilters(c), FiltersOfFilter(f), FiltersOfFilter(g))
      {
        FilterPointwise(c, f, g);
      }
      ListPointwise(c, "filters", NetworkFilters(c), FiltersOfFilter, x, y);
    }
    ListPointwise(c, "filter_chains", FilterChains(c), FiltersOfChain, before, after);
  }

  // The HTTP filters of the result are those of the input, each rewritten, in the same order.
  lemma FiltersPointwise(c: Config, before: Json, after: Json)
    requires Resources(c)(before) == Some(after)
    ensures Pointwise(HttpFilters(c), FiltersOf(before), FiltersOf(after))
  {
    hide Pointwise, HttpFilters, Listeners, Clusters, FiltersOfListener;
    forall x, y | Listeners(c)(x) == Some(y)
      ensures Pointwise(HttpFilters(c), FiltersOfListener(x), FiltersOfListener(y))
    {
      ListenerPointwise(c, x, y);
    }
    var listening := OnEach("listeners", Listeners(c), before).value;
    assert Within("listeners", Itemwise(Listeners(c)))(before) == Some(listening);
    ListPointwise(c, "listeners", Listeners(c), FiltersOfListener, before, listening);
    assert Field(after, "listeners") == Field(listening, "listeners");
  }

  lemma RewrittenAuthorises(c: Config, before: seq<Json>, after: seq<Json>)
    requires Pointwise(HttpFilters(c), before, after)
    ensures Authorised(before) <==> Authorised(after)
  {
    hide Closed;
    forall i | 0 <= i < |before| ensures Authorises(before[i]) <==> Authorises(after[i]) {
      assert HttpFilter(c, before[i]) == Some(after[i]);
    }
    if Authorised(before) {
      var f :| f in before && Authorises(f);
      var i :| 0 <= i < |before| && before[i] == f;
      assert after[i] in after;
    }
    if Authorised(after) {
      var f :| f in after && Authorises(f);
      var i :| 0 <= i < |after| && after[i] == f;
      assert before[i] in before;
    }
  }

  lemma AdministeredTwice(c: Config, b: Json)
    requires b.Object?
    ensures Administered(c, Administered(c, b)) == Administered(c, b)
  {
    hide Pipe;
    var admin := Field(b, "admin");
    SetTwice(if admin.Object? then admin else Object(map[]), "address", Pipe(c.admin));
    SetTwice(b, "admin", Field(Administered(c, b), "admin"));
  }

  // Preparing a prepared bootstrap changes nothing and succeeds.
  lemma PrepareIdempotent(c: Config, b: Json)
    requires Prepare(c, b).Some?
    ensures Prepare(c, Prepare(c, b).value) == Prepare(c, b)
  {
    hide Resources, FiltersOf, Authorised, Pipe, Settles;
    var administered := Administered(c, b);
    var r := Prepare(c, b).value;
    ResourcesSettle(c);
    WithinSettles("static_resources", Resources(c));
    assert Within("static_resources", Resources(c))(r) == Some(r) by {
      SettledAt(Within("static_resources", Resources(c)), administered);
    }
    AdministeredTwice(c, b);
    assert Administered(c, r) == r by { AdministeredElsewhere(c, administered, r); }
    if "static_resources" in b.fields {
      FiltersPointwise(c, b.fields["static_resources"], r.fields["static_resources"]);
      RewrittenAuthorises(c, FiltersOf(Field(b, "static_resources")), FiltersOf(Field(r, "static_resources")));
    }
  }

  lemma SettledAt(f: Rewrite, j: Json)
    requires Settles(f) && f(j).Some?
    ensures f(f(j).value) == f(j)
  {
  }

  lemma AdministeredElsewhere(c: Config, a: Json, r: Json)
    requires a.Object? && r.Object? && Administered(c, a) == a && "admin" in a.fields
    requires "admin" in r.fields && r.fields["admin"] == a.fields["admin"]
    ensures Administered(c, r) == r
  {
    hide Pipe;
    assert a.fields["admin"] == Administered(c, a).fields["admin"];
    SetSame(r, "admin");
  }

  // ---- when preparing succeeds

  ghost predicate Rewritable(c: Config, filters: seq<Json>) {
    forall filter :: filter in filters ==> HttpFilters(c)(filter).Some?
  }

  lemma FilterSucceeds(c: Config, filter: Json)
    ensures NetworkFilters(c)(filter).Some? <==> Rewritable(c, FiltersOfFilter(filter))
  {
    hide HttpFilters;
  }

  lemma ListSucceeds(c: Config, key: string, g: Rewrite, filters: Json -> seq<Json>, j: Json)
    requires forall x :: g(x).Some? <==> Rewritable(c, filters(x))
    ensures Within(key, Itemwise(g))(j).Some? <==> Rewritable(c, Flat(Items(Field(j, key)), filters))
  {
    hide HttpFilters;
    var items := Items(Field(j, key));
    assert Within(key, Itemwise(g))(j).Some? <==> forall i :: 0 <= i < |items| ==> g(items[i]).Some?;
  }

  lemma ListenerSucceeds(c: Config, listener: Json)
    ensures Listeners(c)(listener).Some? <==> Rewritable(c, FiltersOfListener(listener))
  {
    hide Rewritable, NetworkFilters, FiltersOfFilter;
    forall chain ensures FilterChains(c)(chain).Some? <==> Rewritable(c, FiltersOfChain(chain)) {
      forall filter ensures NetworkFilters(c)(filter).Some? <==> Rewritable(c, FiltersOfFilter(filter)) {
        FilterSucceeds(c, filter);
      }
      ListSucceeds(c, "filters", NetworkFilters(c), FiltersOfFilter, chain);
    }
    ListSucceeds(c, "filter_chains", FilterChains(c), FiltersOfChain, listener);
  }

  lemma ResourcesSucceed(c: Config, resources: Json)
    ensures Resources(c)(resources).Some? <==> Rewritable(c, FiltersOf(resources))
  {
    hide Rewritable, Listeners, FiltersOfListener, Cluster;
    forall listener ensures Listeners(c)(listener).Some? <==> Rewritable(c, FiltersOfListener(listener)) {
      ListenerSucceeds(c, listener);
    }
    ListSucceeds(c, "listeners", Listeners(c), FiltersOfListener, resources);
    assert Within("listeners", Itemwise(Listeners(c)))(resources) == OnEach("listeners", Listeners(c), resources);
    forall cluster ensures Clusters(c)(cluster).Some? { ClusterSettles(c, cluster); }
  }

  // With the policy extension some ext_authz filter must exist and each must be configured by an object; nothing else
  // about listeners or clusters makes preparing fail.
  lemma PrepareSucceeds(c: Config, b: Json)
    ensures var filters := FiltersOf(Field(b, "static_resources"));
            Prepare(c, b).Some? <==>
            && b.Object? && Field(b, "dynamic_resources") == Null
            && (c.policy ==>
                  && Authorised(filters)
                  && forall f :: f in filters && Authorises(f) ==> Field(f, "typed_config").Object?)
  {
    hide Resources, FiltersOf, Closed;
    if b.Object? && "static_resources" in b.fields {
      ResourcesSucceed(c, b.fields["static_resources"]);
    } else {
      assert FiltersOf(Null) == [] by { NoFilters(); }
    }
  }

  lemma NoFilters()
    ensures FiltersOf(Null) == []
  {
  }

  // ---- what a prepared bootstrap guarantees

  // The decision is required, and it is taken on the complete body.
  ghost predicate FailsClosed(filter: Json) {
    var typed := Field(filter, "typed_config");
    var body := Field(typed, "with_request_body");
    && Field(typed, "failure_mode_allow") == Boolean(false)
    && Field(typed, "encode_raw_headers") == Boolean(true)
    && Field(body, "allow_partial_message") == Boolean(false)
    && Field(body, "max_request_bytes") == Number("65536")
    && Field(body, "pack_as_bytes") == Boolean(true)
  }

  lemma ClosedFailsClosed(filter: Json)
    requires filter.Object? && Field(filter, "typed_config").Object?
    ensures FailsClosed(Set(filter, "typed_config", Closed(Field(filter, "typed_config"))))
  {
  }

  // Every authorisation filter of the result fails closed, and with the policy extension there is one; every guard
  // filter runs the configured guard.
  lemma PreparedFilters(c: Config, b: Json)
    requires Prepare(c, b).Some?
    ensures var filters := FiltersOf(Field(Prepare(c, b).value, "static_resources"));
            && (c.policy ==> Authorised(filters))
            && (c.policy ==> forall f :: f in filters && Authorises(f) ==> FailsClosed(f))
            && (forall f :: f in filters && Guards(f) ==> Field(f, "typed_config") == c.guard)
  {
    hide Resources, FiltersOf, Closed, FailsClosed;
    var r := Prepare(c, b).value;
    if "static_resources" in b.fields {
      var before := FiltersOf(b.fields["static_resources"]);
      var after := FiltersOf(r.fields["static_resources"]);
      FiltersPointwise(c, b.fields["static_resources"], r.fields["static_resources"]);
      RewrittenAuthorises(c, before, after);
      forall f | f in after
        ensures c.policy && Authorises(f) ==> FailsClosed(f)
        ensures Guards(f) ==> Field(f, "typed_config") == c.guard
      {
        var i :| 0 <= i < |after| && after[i] == f;
        assert HttpFilters(c)(before[i]) == Some(f);
        RewrittenFilter(c, before[i], f);
      }
    } else {
      assert FiltersOf(Null) == [] by { NoFilters(); }
    }
  }

  lemma RewrittenFilter(c: Config, before: Json, after: Json)
    requires HttpFilter(c, before) == Some(after)
    ensures c.policy && Authorises(after) ==> FailsClosed(after)
    ensures Guards(after) ==> Field(after, "typed_config") == c.guard
  {
    hide Closed, FailsClosed;
    if c.policy && Authorises(before) { ClosedFailsClosed(before); }
  }

  // The named cluster is a static one whose only endpoint is a private socket.
  ghost predicate OnSocket(cluster: Json, path: string) {
    && Field(cluster, "type") == Text("STATIC")
    && Field(cluster, "load_assignment") == Endpoints(Field(cluster, "name"), path)
  }

  ghost predicate Local(c: Config, cluster: Json) {
    && (Named(cluster, "opa") ==> OnSocket(cluster, c.opa))
    && (Named(cluster, "inspection_sds") ==> OnSocket(cluster, c.sds))
  }

  // The named clusters of the result have their private sockets and no other endpoint, and so the administration
  // listener.
  lemma PreparedSockets(c: Config, b: Json)
    requires Prepare(c, b).Some?
    ensures var r := Prepare(c, b).value;
            && Field(Field(r, "admin"), "address") == Pipe(c.admin)
            && forall k :: k in Items(Field(Field(r, "static_resources"), "clusters")) ==> Local(c, k)
  {
    hide Resources, FiltersOf, Pipe, Local;
    var r := Prepare(c, b).value;
    if "static_resources" in b.fields {
      ResourceSockets(c, b.fields["static_resources"], r.fields["static_resources"]);
    }
  }

  lemma ResourceSockets(c: Config, before: Json, after: Json)
    requires Resources(c)(before) == Some(after)
    ensures forall k :: k in Items(Field(after, "clusters")) ==> Local(c, k)
  {
    hide Listeners, Clusters, Local;
    var listening := OnEach("listeners", Listeners(c), before).value;
    var items := Items(Field(listening, "clusters"));
    var local := Items(Field(after, "clusters"));
    assert |items| == |local| && forall i :: 0 <= i < |items| ==> Clusters(c)(items[i]) == Some(local[i]);
    forall i | 0 <= i < |items| ensures Local(c, local[i]) { ClusterSockets(c, items[i], local[i]); }
  }

  lemma ClusterSockets(c: Config, before: Json, after: Json)
    requires Clusters(c)(before) == Some(after)
    ensures Local(c, after)
  {
    hide Endpoints;
  }

  // ---- the frame

  // A step into a tree.
  datatype Key = At(key: string) | Nth(index: nat)

  type Path = seq<Key>

  function Sub(j: Json, p: Path): Option<Json> {
    if p == [] then Some(j)
    else
      match p[0]
      case At(key) => if j.Object? && key in j.fields then Sub(j.fields[key], p[1..]) else None
      case Nth(index) => if j.List? && index < |j.items| then Sub(j.items[index], p[1..]) else None
  }

  // Neither place contains the other.
  predicate Apart(p: Path, q: Path) { !(p <= q) && !(q <= p) }

  // The places of a tree that a rewrite may write.
  type Places = (Json, Path) -> bool

  function Below(key: string, w: Places): Places {
    (j: Json, p: Path) => p != [] && p[0] == At(key) && j.Object? && key in j.fields && w(j.fields[key], p[1..])
  }

  function Each(w: Places): Places {
    (j: Json, p: Path) => p != [] && p[0].Nth? && j.List? && p[0].index < |j.items| && w(j.items[p[0].index], p[1..])
  }

  function FilterPlaces(c: Config): Places {
    (filter: Json, p: Path) =>
      || (c.policy && Authorises(filter) &&
          (|| p == [At("typed_config"), At("failure_mode_allow")]
           || p == [At("typed_config"), At("encode_raw_headers")]
           || p == [At("typed_config"), At("with_request_body")]))
      || (Guards(filter) && p == [At("typed_config")])
  }

  function ManagerPlaces(c: Config): Places {
    (filter: Json, p: Path) =>
      Named(filter, MANAGER) && Below("typed_config", Below("http_filters", Each(FilterPlaces(c))))(filter, p)
  }

  function ListenerPlaces(c: Config): Places {
    Below("filter_chains", Each(Below("filters", Each(ManagerPlaces(c)))))
  }

  function ClusterPlaces(): Places {
    (cluster: Json, p: Path) =>
      (Named(cluster, "opa") || Named(cluster, "inspection_sds")) && (p == [At("type")] || p == [At("load_assignment")])
  }

  function ResourcePlaces(c: Config): Places {
    (resources: Json, p: Path) =>
      || Below("listeners", Each(ListenerPlaces(c)))(resources, p)
      || Below("clusters", Each(ClusterPlaces()))(resources, p)
  }

  predicate AdminPlace(b: Json, p: Path) {
    p == if Field(b, "admin").Object? then [At("admin"), At("address")] else [At("admin")]
  }

  // Everything preparing may write.
  predicate Written(c: Config, b: Json, p: Path) {
    AdminPlace(b, p) || Below("static_resources", ResourcePlaces(c))(b, p)
  }

  ghost predicate Clear(w: Places, j: Json, p: Path) {
    forall q :: w(j, q) ==> Apart(p, q)
  }

  ghost predicate OnlyAt(f: Rewrite, w: Places) {
    forall j, p :: f(j).Some? && Clear(w, j, p) ==> Sub(f(j).value, p) == Sub(j, p)
  }

  lemma ApartBelow(k: Key, p: Path, q: Path)
    requires Apart([k] + p, [k] + q)
    ensures Apart(p, q)
  {
    assert p <= q ==> [k] + p <= [k] + q;
    assert q <= p ==> [k] + q <= [k] + p;
  }

  // Clear of the places below a step means clear of those places after the step.
  lemma ClearBelow(key: string, w: Places, j: Json, p: Path)
    requires j.Object? && key in j.fields && Clear(Below(key, w), j, p) && (p != [] ==> p[0] == At(key))
    ensures Clear(w, j.fields[key], if p == [] then [] else p[1..])
  {
    forall q | w(j.fields[key], q) ensures Apart(if p == [] then [] else p[1..], q) {
      var below := [At(key)] + q;
      assert below[1..] == q;
      assert Below(key, w)(j, below);
      if p != [] {
        assert p == [p[0]] + p[1..];
        ApartBelow(At(key), p[1..], q);
      }
    }
  }

  lemma WithinOnlyAt(key: string, f: Rewrite, w: Places)
    requires OnlyAt(f, w)
    ensures OnlyAt(Within(key, f), Below(key, w))
  {
    hide Clear, Below;
    forall j: Json, p: Path | Within(key, f)(j).Some? && Clear(Below(key, w), j, p)
      ensures Sub(Within(key, f)(j).value, p) == Sub(j, p)
    {
      if j.Object? && key in j.fields && (p == [] || p[0] == At(key)) {
        ClearBelow(key, w, j, p);
        var rest := if p == [] then [] else p[1..];
        assert Sub(f(j.fields[key]).value, rest) == Sub(j.fields[key], rest);
        if p == [] { SetSame(j, key); }
      }
    }
  }

  lemma ClearEach(w: Places, j: Json, i: nat, p: Path)
    requires j.List? && i < |j.items| && Clear(Each(w), j, p) && (p != [] ==> p[0] == Nth(i))
    ensures Clear(w, j.items[i], if p == [] then [] else p[1..])
  {
    forall q | w(j.items[i], q) ensures Apart(if p == [] then [] else p[1..], q) {
      var below := [Nth(i)] + q;
      assert below[1..] == q;
      assert Each(w)(j, below);
      if p != [] {
        assert p == [p[0]] + p[1..];
        ApartBelow(Nth(i), p[1..], q);
      }
    }
  }

  lemma ItemwiseOnlyAt(f: Rewrite, w: Places)
    requires OnlyAt(f, w)
    ensures OnlyAt(Itemwise(f), Each(w))
  {
    hide Clear, Each;
    forall j: Json, p: Path | Itemwise(f)(j).Some? && Clear(Each(w), j, p)
      ensures Sub(Itemwise(f)(j).value, p) == Sub(j, p)
    {
      if j.List? {
        var items := OnAll(f, j.items).value;
        if p == [] {
          forall i | 0 <= i < |items| ensures items[i] == j.items[i] {
            ClearEach(w, j, i, p);
            assert Sub(f(j.items[i]).value, []) == Sub(j.items[i], []);
          }
          assert items == j.items;
        } else if p[0].Nth? && p[0].index < |items| {
          ClearEach(w, j, p[0].index, p);
          assert f(j.items[p[0].index]) == Some(items[p[0].index]);
        }
      }
    }
  }

  // Writing one field is seen only there and below.
  lemma SetElsewhere(j: Json, key: string, value: Json, p: Path)
    requires j.Object? && Apart(p, [At(key)])
    ensures Sub(Set(j, key, value), p) == Sub(j, p)
  {
    assert p[0] == At(key) ==> [At(key)] <= p;
  }

  // The same two steps down.
  lemma SetUnder(j: Json, outer: string, key: string, value: Json, p: Path)
    requires Field(j, outer).Object? && Apart(p, [At(outer), At(key)])
    ensures Sub(Set(j, outer, Set(Field(j, outer), key, value)), p) == Sub(j, p)
  {
    assert p != [];
    if p[0] == At(outer) {
      assert p == [At(outer)] + p[1..] && [At(outer), At(key)] == [At(outer)] + [At(key)];
      ApartBelow(At(outer), p[1..], [At(key)]);
      SetElsewhere(Field(j, outer), key, value, p[1..]);
    }
  }

  lemma FilterOnlyAt(c: Config)
    ensures OnlyAt(HttpFilters(c), FilterPlaces(c))
  {
    hide HttpFilter, FilterPlaces, Clear, Sub;
    forall j: Json, p: Path | HttpFilters(c)(j).Some? && Clear(FilterPlaces(c), j, p)
      ensures Sub(HttpFilters(c)(j).value, p) == Sub(j, p)
    {
      FilterElsewhere(c, j, p);
    }
  }

  lemma FilterElsewhere(c: Config, j: Json, p: Path)
    requires HttpFilter(c, j).Some? && Clear(FilterPlaces(c), j, p)
    ensures Sub(HttpFilter(c, j).value, p) == Sub(j, p)
  {
    hide Closed, Set, Sub, Apart;
    if c.policy && Authorises(j) {
      assert FilterPlaces(c)(j, [At("typed_config"), At("failure_mode_allow")]);
      assert FilterPlaces(c)(j, [At("typed_config"), At("encode_raw_headers")]);
      assert FilterPlaces(c)(j, [At("typed_config"), At("with_request_body")]);
      ClosedElsewhere(j, p);
    } else if Guards(j) {
      assert FilterPlaces(c)(j, [At("typed_config")]);
      SetElsewhere(j, "typed_config", c.guard, p);
    }
  }

  lemma ClosedElsewhere(j: Json, p: Path)
    requires Field(j, "typed_config").Object?
    requires Apart(p, [At("typed_config"), At("failure_mode_allow")])
    requires Apart(p, [At("typed_config"), At("encode_raw_headers")])
    requires Apart(p, [At("typed_config"), At("with_request_body")])
    ensures Sub(Set(j, "typed_config", Closed(Field(j, "typed_config"))), p) == Sub(j, p)
  {
    hide Apart, Sub, Set;
    var typed := Field(j, "typed_config");
    var one := Set(typed, "failure_mode_allow", Boolean(false));
    var two := Set(one, "encode_raw_headers", Boolean(true));
    var j1 := Set(j, "typed_config", one);
    var j2 := Set(j, "typed_config", two);
    SetUnder(j, "typed_config", "failure_mode_allow", Boolean(false), p);
    SetKeeps(j, "typed_config", one, "typed_config");
    SetUnder(j1, "typed_config", "encode_raw_headers", Boolean(true), p);
    SetAgain(j, "typed_config", one, two);
    SetKeeps(j, "typed_config", two, "typed_config");
    SetUnder(j2, "typed_config", "with_request_body", CLOSED_BODY, p);
    SetAgain(j, "typed_config", two, Closed(typed));
  }

  lemma SetAgain(j: Json, key: string, v: Json, w: Json)
    requires j.Object?
    ensures Set(Set(j, key, v), key, w) == Set(j, key, w)
  {
    assert j.fields[key := v][key := w] == j.fields[key := w];
  }

  lemma ClusterOnlyAt(c: Config)
    ensures OnlyAt(Clusters(c), ClusterPlaces())
  {
    hide Cluster, ClusterPlaces, Clear, Sub;
    forall j: Json, p: Path | Clusters(c)(j).Some? && Clear(ClusterPlaces(), j, p)
      ensures Sub(Clusters(c)(j).value, p) == Sub(j, p)
    {
      ClusterElsewhere(c, j, p);
    }
  }

  lemma ClusterElsewhere(c: Config, j: Json, p: Path)
    requires Clear(ClusterPlaces(), j, p)
    ensures Sub(Cluster(c, j).value, p) == Sub(j, p)
  {
    hide Endpoints, Set, Sub, Apart, Clear, Named;
    if Named(j, "opa") || Named(j, "inspection_sds") {
      ClearCluster(j, p);
      var path := if Named(j, "opa") then c.opa else c.sds;
      LocalElsewhere(j, Endpoints(Field(j, "name"), path), p);
    }
  }

  lemma ClearCluster(j: Json, p: Path)
    requires Clear(ClusterPlaces(), j, p) && (Named(j, "opa") || Named(j, "inspection_sds"))
    ensures j.Object? && Apart(p, [At("type")]) && Apart(p, [At("load_assignment")])
  {
    hide Apart, Named;
    assert j.Object? by { NamedObject(j, if Named(j, "opa") then "opa" else "inspection_sds"); }
    assert ClusterPlaces()(j, [At("type")]);
    assert ClusterPlaces()(j, [At("load_assignment")]);
  }

  lemma LocalElsewhere(j: Json, endpoints: Json, p: Path)
    requires j.Object? && Apart(p, [At("type")]) && Apart(p, [At("load_assignment")])
    ensures Sub(Set(Set(j, "type", Text("STATIC")), "load_assignment", endpoints), p) == Sub(j, p)
  {
    hide Set, Sub, Apart;
    SetElsewhere(j, "type", Text("STATIC"), p);
    SetElsewhere(Set(j, "type", Text("STATIC")), "load_assignment", endpoints, p);
  }

  lemma ManagerOnlyAt(c: Config)
    ensures OnlyAt(NetworkFilters(c), ManagerPlaces(c))
  {
    hide HttpFilters, FilterPlaces, Itemwise, Each, Below;
    FilterOnlyAt(c);
    ItemwiseOnlyAt(HttpFilters(c), FilterPlaces(c));
    var inner := Within("http_filters", Itemwise(HttpFilters(c)));
    var places := Below("http_filters", Each(FilterPlaces(c)));
    WithinOnlyAt("http_filters", Itemwise(HttpFilters(c)), Each(FilterPlaces(c)));
    WithinOnlyAt("typed_config", inner, places);
    forall j: Json, p: Path | NetworkFilters(c)(j).Some? && Clear(ManagerPlaces(c), j, p)
      ensures Sub(NetworkFilters(c)(j).value, p) == Sub(j, p)
    {
      if Named(j, MANAGER) {
        assert NetworkFilters(c)(j) == Within("typed_config", inner)(j);
        assert Clear(Below("typed_config", places), j, p) by {
          forall q | Below("typed_config", places)(j, q) ensures Apart(p, q) {
            assert ManagerPlaces(c)(j, q);
          }
        }
      }
    }
  }

  lemma ListenerOnlyAt(c: Config)
    ensures OnlyAt(Listeners(c), ListenerPlaces(c))
  {
    hide OnlyAt, NetworkFilters, ManagerPlaces;
    ManagerOnlyAt(c);
    ItemwiseOnlyAt(NetworkFilters(c), ManagerPlaces(c));
    WithinOnlyAt("filters", Itemwise(NetworkFilters(c)), Each(ManagerPlaces(c)));
    ItemwiseOnlyAt(FilterChains(c), Below("filters", Each(ManagerPlaces(c))));
    WithinOnlyAt("filter_chains", Itemwise(FilterChains(c)), Each(Below("filters", Each(ManagerPlaces(c)))));
  }

  // Rewriting two fields in turn writes at the places of both.
  lemma FieldsOnlyAt(k: string, f: Rewrite, v: Places, l: string, g: Rewrite, w: Places, j: Json, p: Path)
    requires k != l && OnlyAt(Within(k, f), Below(k, v)) && OnlyAt(Within(l, g), Below(l, w))
    requires OnField(k, f, j).Some? && OnField(l, g, OnField(k, f, j).value).Some?
    requires Clear(Below(k, v), j, p) && Clear(Below(l, w), j, p)
    ensures Sub(OnField(l, g, OnField(k, f, j).value).value, p) == Sub(j, p)
  {
    hide Sub, Apart;
    var middle := OnField(k, f, j).value;
    assert Within(k, f)(j) == Some(middle);
    assert Clear(Below(l, w), middle, p) by {
      forall q | Below(l, w)(middle, q) ensures Apart(p, q) {
        assert Below(l, w)(j, q);
      }
    }
    assert Within(l, g)(middle).Some?;
  }

  lemma ResourceOnlyAt(c: Config)
    ensures OnlyAt(Resources(c), ResourcePlaces(c))
  {
    hide Listeners, ListenerPlaces, Clusters, ClusterPlaces, Itemwise, Each, Below, Sub, Apart, OnField;
    ListenerOnlyAt(c);
    ItemwiseOnlyAt(Listeners(c), ListenerPlaces(c));
    WithinOnlyAt("listeners", Itemwise(Listeners(c)), Each(ListenerPlaces(c)));
    ClusterOnlyAt(c);
    ItemwiseOnlyAt(Clusters(c), ClusterPlaces());
    WithinOnlyAt("clusters", Itemwise(Clusters(c)), Each(ClusterPlaces()));
    forall j: Json, p: Path | Resources(c)(j).Some? && Clear(ResourcePlaces(c), j, p)
      ensures Sub(Resources(c)(j).value, p) == Sub(j, p)
    {
      assert forall q :: Below("listeners", Each(ListenerPlaces(c)))(j, q) ==> ResourcePlaces(c)(j, q);
      assert forall q :: Below("clusters", Each(ClusterPlaces()))(j, q) ==> ResourcePlaces(c)(j, q);
      FieldsOnlyAt("listeners", Itemwise(Listeners(c)), Each(ListenerPlaces(c)),
                   "clusters", Itemwise(Clusters(c)), Each(ClusterPlaces()), j, p);
    }
  }

  lemma AdministeredElsewhereSame(c: Config, b: Json, p: Path)
    requires b.Object? && forall q :: AdminPlace(b, q) ==> Apart(p, q)
    ensures Sub(Administered(c, b), p) == Sub(b, p)
  {
    hide Pipe;
    if Field(b, "admin").Object? {
      assert AdminPlace(b, [At("admin"), At("address")]);
      SetUnder(b, "admin", "address", Pipe(c.admin), p);
    } else {
      assert AdminPlace(b, [At("admin")]);
      SetElsewhere(b, "admin", Set(Object(map[]), "address", Pipe(c.admin)), p);
    }
  }

  // The frame: a place apart from every written one holds afterwards what it held before, or still does not exist.
  lemma PrepareFrame(c: Config, b: Json, p: Path)
    requires Prepare(c, b).Some? && forall q :: Written(c, b, q) ==> Apart(p, q)
    ensures Sub(Prepare(c, b).value, p) == Sub(b, p)
  {
    hide Resources, ResourcePlaces, Sub, Apart, AdminPlace, Pipe, Set, FiltersOf, Authorised;
    var administered := Administered(c, b);
    assert forall q :: AdminPlace(b, q) ==> Written(c, b, q);
    AdministeredElsewhereSame(c, b, p);
    ResourceOnlyAt(c);
    WithinOnlyAt("static_resources", Resources(c), ResourcePlaces(c));
    SetKeeps(b, "admin", Field(administered, "admin"), "static_resources");
    assert Within("static_resources", Resources(c))(administered) == Prepare(c, b);
    assert Clear(Below("static_resources", ResourcePlaces(c)), administered, p) by {
      forall q | Below("static_resources", ResourcePlaces(c))(administered, q) ensures Apart(p, q) {
        SameBelow(c, b, q);
        assert Written(c, b, q);
      }
    }
  }

  lemma SameBelow(c: Config, b: Json, q: Path)
    requires b.Object?
    ensures Below("static_resources", ResourcePlaces(c))(Administered(c, b), q) <==>
            Below("static_resources", ResourcePlaces(c))(b, q)
  {
    hide ResourcePlaces, Pipe;
  }
}
