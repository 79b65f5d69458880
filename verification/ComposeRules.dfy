/**
  What composition puts into a Pod and what it accepts, stated on the Pods, the options and the managed specification
  alone.
*/
module ComposeRules {
  import opened Wrappers
  import opened Text
  import opened Compose

  // ---- managed containers

  function PolicyMounts(o: Options): seq<Mount> {
    if o.policy == "" then [] else [Mount("gateway-policy", "/etc/gateway/policy", "", true)]
  }

  function OriginMounts(o: Options): seq<Mount> {
    if o.originTrust == "" then [] else [Mount("origin-trust", "/etc/gateway/origin", "", true)]
  }

  // What every managed container takes from the options. (One named base-trust has a second command word.)
  predicate FromOptions(before: Container, after: Container, o: Options) {
    && after.name == before.name
    && after.pullPolicy == (if o.pullPolicy == "" then "IfNotPresent" else o.pullPolicy)
    && (if before.name == "base-trust" && |before.command| > 1
        then after.image == o.trustImage && after.command == before.command[1 := o.trustPath]
        else after.image == o.image && after.command == before.command)
    && after.devices == before.devices && after.runAsUser == before.runAsUser
    && after.runAsGroup == before.runAsGroup && after.rest == before.rest
  }

  predicate AsHelper(before: Container, after: Container, o: Options) {
    && FromOptions(before, after, o)
    && after.args == before.args && after.env == before.env && after.mounts == before.mounts
    && after.restartPolicy == before.restartPolicy && after.startupProbe == before.startupProbe
  }

  // The proxy has the fixed variables and the caller's, and policy and origin trust where they are configured. As the
  // main container of an egress Pod it is neither restarted as a sidecar nor probed at start.
  predicate AsProxy(before: Container, after: Container, o: Options) {
    && FromOptions(before, after, o)
    && after.env == BaseEnv(o) + o.proxyEnv
    && after.args == (if o.policy == "" then before.args else ["--policy", "/etc/gateway/policy/policy.rego"])
    && after.mounts == before.mounts + PolicyMounts(o) + OriginMounts(o)
    && (if o.role == Egress then after.restartPolicy == None && after.startupProbe == None
        else after.restartPolicy == before.restartPolicy && after.startupProbe == before.startupProbe)
  }

  predicate AsManaged(before: Container, after: Container, o: Options) {
    if before.name == "istio-proxy" then AsProxy(before, after, o) else AsHelper(before, after, o)
  }

  ghost predicate AllManaged(before: seq<Container>, after: seq<Container>, o: Options) {
    |after| == |before| && forall i :: 0 <= i < |before| ==> AsManaged(before[i], after[i], o)
  }

  // The containers without those of some names, and those of one name, in order.
  function Others(cs: seq<Container>, names: set<string>): seq<Container> {
    if cs == [] then []
    else Others(cs[..|cs| - 1], names) + (if cs[|cs| - 1].name in names then [] else [cs[|cs| - 1]])
  }

  function Called(cs: seq<Container>, name: string): seq<Container> {
    if cs == [] then []
    else Called(cs[..|cs| - 1], name) + (if cs[|cs| - 1].name == name then [cs[|cs| - 1]] else [])
  }

  // The volumes of one proxy.
  function ExtraVolumes(o: Options): seq<Volume> {
    (if o.policy == "" then [] else [Volume("gateway-policy", o.policy, false)]) +
    (if o.originTrust == "" then [] else [Volume("origin-trust", o.originTrust, false)])
  }

  function Times(volumes: seq<Volume>, k: nat): seq<Volume> {
    if k == 0 then [] else Times(volumes, k - 1) + volumes
  }

  const EGRESS_ELSEWHERE: set<string> := {"base-trust", "trust-init", "istio-proxy"}

  // Where the managed containers go, and what they bring.
  ghost predicate Placed(cs: seq<Container>, volumes: seq<Volume>, o: Options, t: Trusted) {
    && (if o.role == Egress
        then AllManaged(Others(cs, EGRESS_ELSEWHERE), t.initContainers, o)
             && AllManaged(Called(cs, "istio-proxy"), t.containers, o)
        else AllManaged(cs, t.initContainers, o) && t.containers == [])
    && t.volumes == volumes + Times(ExtraVolumes(o), |Called(cs, "istio-proxy")|)
  }

  lemma AllManagedMore(before: seq<Container>, after: seq<Container>, o: Options, b: Container, a: Container)
    requires AllManaged(before, after, o) && AsManaged(b, a, o)
    ensures AllManaged(before + [b], after + [a], o)
  {
    hide AsManaged;
  }

  // One managed container, once placed.
  function Finished(c: Container, o: Options): Container
    requires c.name == "istio-proxy" ==> ExtendEnv(BaseEnv(o), o.proxyEnv).Some?
  {
    var dressed := Dressed(c, o);
    if c.name != "istio-proxy" then dressed
    else
      var proxy := WithOrigin(WithPolicy(dressed, o).(env := ExtendEnv(BaseEnv(o), o.proxyEnv).value), o);
      if o.role == Egress then proxy.(restartPolicy := None, startupProbe := None) else proxy
  }

  lemma FinishedManaged(c: Container, o: Options)
    requires c.name == "istio-proxy" ==> ExtendEnv(BaseEnv(o), o.proxyEnv).Some?
    ensures AsManaged(c, Finished(c, o), o)
  {
    hide BaseEnv, ExtendEnv;
    if c.name == "istio-proxy" {
      BaseEnvDistinct(o);
      ExtendDistinct(BaseEnv(o), o.proxyEnv);
    }
  }

  lemma PlacedNext(cs: seq<Container>, volumes: seq<Volume>, o: Options, t: Trusted, c: Container)
    requires Placed(cs, volumes, o, t) && PlaceManaged(t, c, o).Some?
    ensures Placed(cs + [c], volumes, o, PlaceManaged(t, c, o).value)
  {
    hide BaseEnv, ExtendEnv, AllManaged, AsManaged, Dressed, WithPolicy, WithOrigin;
    var next := PlaceManaged(t, c, o).value;
    assert (cs + [c])[..|cs|] == cs;
    var k := |Called(cs, "istio-proxy")|;
    assert volumes + Times(ExtraVolumes(o), k) + ExtraVolumes(o) == volumes + Times(ExtraVolumes(o), k + 1);
    assert Called(cs + [c], "istio-proxy") ==
           if c.name == "istio-proxy" then Called(cs, "istio-proxy") + [c] else Called(cs, "istio-proxy");
    assert Others(cs + [c], EGRESS_ELSEWHERE) ==
           if c.name in EGRESS_ELSEWHERE then Others(cs, EGRESS_ELSEWHERE) else Others(cs, EGRESS_ELSEWHERE) + [c];
    if o.role == Egress {
      if c.name == "istio-proxy" {
        FinishedManaged(c, o);
        AllManagedMore(Called(cs, "istio-proxy"), t.containers, o, c, Finished(c, o));
      } else if c.name !in {"base-trust", "trust-init"} {
        FinishedManaged(c, o);
        AllManagedMore(Others(cs, EGRESS_ELSEWHERE), t.initContainers, o, c, Finished(c, o));
      }
    } else {
      FinishedManaged(c, o);
      AllManagedMore(cs, t.initContainers, o, c, Finished(c, o));
    }
  }

  lemma {:induction false} AllPlaced(cs: seq<Container>, volumes: seq<Volume>, o: Options)
    requires PlaceAll(cs, volumes, o).Some?
    ensures Placed(cs, volumes, o, PlaceAll(cs, volumes, o).value)
  {
    hide PlaceManaged, Placed;
    if cs == [] {
      NonePlaced(volumes, o);
    } else {
      var k := |cs| - 1;
      AllPlaced(cs[..k], volumes, o);
      PlacedNext(cs[..k], volumes, o, PlaceAll(cs[..k], volumes, o).value, cs[k]);
      assert cs[..k] + [cs[k]] == cs;
    }
  }

  lemma NonePlaced(volumes: seq<Volume>, o: Options)
    ensures Placed([], volumes, o, Trusted([], [], volumes))
  {
  }

  // A composed workload Pod has every managed container as an init container, in the managed order, before the
  // business ones; a composed egress Pod has them without the two trust containers, and the proxy as a main container
  // after the business ones. Volumes are the business, the managed and the proxy's own, in that order.
  lemma ManagedPlaced(p: Pod, o: Options, managed: Managed)
    requires Composed(Some(p), o, managed).Some?
    ensures var r := Composed(Some(p), o, managed).value;
            var n, m := |r.initContainers| - |p.initContainers|, |p.containers|;
            var cs := managed.initContainers;
            && 0 <= n && m <= |r.containers| && r.initContainers[n..] == p.initContainers
            && (o.role == Workload ==> AllManaged(cs, r.initContainers[..n], o) && |r.containers| == m)
            && (o.role == Egress ==>
                  && AllManaged(Others(cs, EGRESS_ELSEWHERE), r.initContainers[..n], o)
                  && AllManaged(Called(cs, "istio-proxy"), r.containers[m..], o))
            && r.volumes == p.volumes + managed.volumes + Times(ExtraVolumes(o), |Called(cs, "istio-proxy")|)
  {
    hide PlaceAll, Allowed, MountsAllowed, AllManaged, Annotated, ExtraVolumes;
    AllPlaced(managed.initContainers, managed.volumes, o);
    var t := PlaceAll(managed.initContainers, managed.volumes, o).value;
    var r := Composed(Some(p), o, managed).value;
    var n := |t.initContainers|;
    assert r.initContainers[..n] == t.initContainers && r.initContainers[n..] == p.initContainers;
    assert r.containers[|p.containers|..] == t.containers;
  }

  // ---- the proxy's fixed variables

  lemma FixedIdentity(o: Options)
    ensures var role := if o.role == Workload then "workload" else "egress";
            var env := BaseEnv(o);
            && |env| == 15
            && env[..4] == [Plain("GATEWAY_ROLE", role), Plain("GATEWAY_PROXY_MODE", "istio"),
                            Plain("ISTIO_META_WORKLOAD_NAME", role), Plain("CA_ADDR", o.discoveryAddress)]
            && env[4..9] == [Plain("JWT_POLICY", "third-party-jwt"), Plain("PILOT_CERT_PROVIDER", "istiod"),
                             Plain("ISTIO_META_CLUSTER_ID", "Kubernetes"), Plain("ISTIO_META_MESH_ID", "cluster.local"),
                             Plain("TRUST_DOMAIN", "cluster.local")]
            && env[9..11] == [Plain("ISTIO_META_INTERCEPTION_MODE", if o.role == Egress then "NONE" else "REDIRECT"),
                              Plain("PROXY_CONFIG", o.proxyConfig)]
            && env[11..] == [FieldRef("POD_NAME", "metadata.name"), FieldRef("POD_NAMESPACE", "metadata.namespace"),
                             FieldRef("INSTANCE_IP", "status.podIP"),
                             FieldRef("SERVICE_ACCOUNT", "spec.serviceAccountName")]
  {
  }

  // ---- what is accepted

  // The Gateway's own key space.
  ghost predicate GatewayKey(key: string) { exists a, b :: Around(key, a, "istio.io/", b) }

  predicate Around(key: string, before: string, part: string, after: string) { key == before + part + after }

  lemma GatewayKeyIff(key: string)
    ensures OwnedKey(key) <==> GatewayKey(key)
  {
    if OwnedKey(key) {
      var i :| 0 <= i <= |key| && "istio.io/" <= key[i..];
      assert Around(key, key[..i], "istio.io/", key[i + 9..]);
    }
    if a, b :| Around(key, a, "istio.io/", b) { assert "istio.io/" <= key[|a|..]; }
  }

  predicate Id1337(id: Option<int>) { id.Some? && id.value == 1337 }

  // A volume name that belongs to the Gateway.
  predicate GatewayVolume(name: string, managed: Managed) {
    || name == "origin-trust" || name == "gateway-policy"
    || exists i :: 0 <= i < |managed.volumes| && managed.volumes[i].name == name
  }

  predicate GatewayContainer(name: string, managed: Managed) {
    exists i :: 0 <= i < |managed.initContainers| && managed.initContainers[i].name == name
  }

  predicate ContainerApart(c: Container, managed: Managed) {
    && !GatewayContainer(c.name, managed) && !Id1337(c.runAsUser) && !Id1337(c.runAsGroup)
    && (forall i :: 0 <= i < |c.mounts| ==> !GatewayVolume(c.mounts[i].name, managed))
    && (forall i :: 0 <= i < |c.devices| ==> !GatewayVolume(c.devices[i], managed))
  }

  // The business Pod keeps to itself.
  ghost predicate PodApart(p: Pod, managed: Managed) {
    && (forall key :: key in p.labels || key in p.annotations ==> !GatewayKey(key))
    && p.automount != Some(true)
    && (forall i :: 0 <= i < |p.volumes| ==>
          !GatewayVolume(p.volumes[i].name, managed) && !p.volumes[i].projectsToken)
    && (p.security.Some? ==>
          && !Id1337(p.security.value.runAsUser) && !Id1337(p.security.value.runAsGroup)
          && !Id1337(p.security.value.fsGroup)
          && forall i :: 0 <= i < |p.security.value.supplementalGroups| ==>
               p.security.value.supplementalGroups[i] != 1337)
    && (forall i :: 0 <= i < |p.initContainers| ==> ContainerApart(p.initContainers[i], managed))
    && (forall i :: 0 <= i < |p.containers| ==> ContainerApart(p.containers[i], managed))
  }

  lemma VolumeIff(name: string, managed: Managed)
    ensures name in ReservedVolumes(managed) <==> GatewayVolume(name, managed)
  {
    if GatewayVolume(name, managed) && name != "origin-trust" && name != "gateway-policy" {
      var i :| 0 <= i < |managed.volumes| && managed.volumes[i].name == name;
      assert managed.volumes[i] in managed.volumes;
    }
  }

  lemma ContainerNameIff(name: string, managed: Managed)
    ensures name in ManagedNames(managed) <==> GatewayContainer(name, managed)
  {
    if GatewayContainer(name, managed) {
      var i :| 0 <= i < |managed.initContainers| && managed.initContainers[i].name == name;
      assert managed.initContainers[i] in managed.initContainers;
    }
  }

  lemma ContainerIff(c: Container, managed: Managed)
    ensures ContainerAllowed(c, ManagedNames(managed), ReservedVolumes(managed)) <==> ContainerApart(c, managed)
  {
    hide GatewayVolume, GatewayContainer, ReservedVolumes, ManagedNames;
    ContainerNameIff(c.name, managed);
    forall name ensures name in ReservedVolumes(managed) <==> GatewayVolume(name, managed) { VolumeIff(name, managed); }
    if ContainerApart(c, managed) {
      forall m | m in c.mounts ensures m.name !in ReservedVolumes(managed) {
        var i :| 0 <= i < |c.mounts| && c.mounts[i] == m;
      }
      forall d | d in c.devices ensures d !in ReservedVolumes(managed) {
        var i :| 0 <= i < |c.devices| && c.devices[i] == d;
      }
    }
  }

  // Exactly the business Pods that keep to themselves are accepted.
  lemma AllowedIff(p: Pod, managed: Managed)
    ensures Allowed(p, managed) <==> PodApart(p, managed)
  {
    hide OwnedKey, GatewayKey, GatewayVolume, ReservedVolumes, ContainerAllowed, ContainerApart;
    forall key ensures OwnedKey(key) <==> GatewayKey(key) { GatewayKeyIff(key); }
    forall name ensures name in ReservedVolumes(managed) <==> GatewayVolume(name, managed) { VolumeIff(name, managed); }
    forall c
      ensures ContainerAllowed(c, ManagedNames(managed), ReservedVolumes(managed)) <==> ContainerApart(c, managed)
    {
      ContainerIff(c, managed);
    }
    if PodApart(p, managed) {
      forall v | v in p.volumes ensures v.name !in ReservedVolumes(managed) && !v.projectsToken {
        var i :| 0 <= i < |p.volumes| && p.volumes[i] == v;
      }
      forall c | c in p.initContainers + p.containers ensures ContainerApart(c, managed) {
        if i :| 0 <= i < |p.initContainers| && p.initContainers[i] == c {
        } else {
          var i :| 0 <= i < |p.containers| && p.containers[i] == c;
        }
      }
      assert SecurityAllowed(p.security);
    }
    if Allowed(p, managed) {
      forall i | 0 <= i < |p.initContainers| ensures ContainerApart(p.initContainers[i], managed) {
        assert p.initContainers[i] in p.initContainers + p.containers;
      }
      forall i | 0 <= i < |p.containers| ensures ContainerApart(p.containers[i], managed) {
        assert p.containers[i] in p.initContainers + p.containers;
      }
    }
  }

  // ---- options and trust mounts

  // An absolute path of proper names, one slash before each.
  predicate ProperName(part: string) { part != "" && part != "." && part != ".." && '/' !in part }

  ghost predicate ProperPath(path: string) {
    exists parts: seq<string> ::
      parts != [] && path == "/" + Join(parts, '/') && forall part :: part in parts ==> ProperName(part)
  }

  lemma PathIff(path: string)
    ensures CleanPath(path) <==> ProperPath(path)
  {
    hide Split, Join;
    if CleanPath(path) {
      JoinSplit(path[1..], '/');
      assert path == "/" + path[1..];
    }
    if parts: seq<string> :| parts != [] && path == "/" + Join(parts, '/')
                             && forall part :: part in parts ==> ProperName(part)
    {
      SplitJoin(parts, '/');
      assert path[1..] == Join(parts, '/');
      assert parts[0] in parts;
      JoinNonempty(parts);
    }
  }

  lemma JoinNonempty(parts: seq<string>)
    requires parts != [] && parts[0] != ""
    ensures Join(parts, '/') != ""
  {
  }

  // The caller's variables are its own and set once.
  predicate EnvApart(o: Options) {
    forall i :: 0 <= i < |o.proxyEnv| ==>
      var name := o.proxyEnv[i].name;
      && !("GATEWAY_" <= name) && name != "OPA_CONFIG" && name != "ENVOY_CONFIG"
      && (forall e :: e in BaseEnv(o) ==> e.name != name)
      && (forall j :: 0 <= j < i ==> o.proxyEnv[j].name != name)
  }

  ghost predicate OptionsProper(o: Options) {
    && (o.role == Workload || o.role == Egress) && o.image != "" && o.discoveryAddress != "" && o.proxyConfig != ""
    && (o.role == Workload ==> o.trustImage != "" && ProperPath(o.trustPath))
  }

  // Each selected container exists, and its first namesake has nothing at the chosen path.
  ghost predicate MountsProper(p: Pod, o: Options) {
    forall name :: name in o.trustMounts ==>
      && o.role == Workload && ProperPath(o.trustMounts[name])
      && exists i :: 0 <= i < |p.containers| && Selected(p, o, name, i)
  }

  predicate Selected(p: Pod, o: Options, name: string, i: nat)
    requires i < |p.containers| && name in o.trustMounts
  {
    && p.containers[i].name == name
    && (forall j :: 0 <= j < i ==> p.containers[j].name != name)
    && (forall k :: 0 <= k < |p.containers[i].mounts| ==> p.containers[i].mounts[k].path != o.trustMounts[name])
  }

  // ---- when composition succeeds

  ghost predicate Fits(env: seq<EnvVar>, extra: seq<EnvVar>, i: nat)
    requires i < |extra|
  {
    && !("GATEWAY_" <= extra[i].name) && extra[i].name != "OPA_CONFIG" && extra[i].name != "ENVOY_CONFIG"
    && (forall e :: e in env ==> e.name != extra[i].name)
    && (forall j :: 0 <= j < i ==> extra[j].name != extra[i].name)
  }

  lemma {:induction false} ExtendIff(env: seq<EnvVar>, extra: seq<EnvVar>)
    ensures ExtendEnv(env, extra).Some? <==> forall i :: 0 <= i < |extra| ==> Fits(env, extra, i)
    decreases |extra|
  {
    if extra != [] {
      var longer, rest := env + [extra[0]], extra[1..];
      ExtendIff(longer, rest);
      assert Fits(env, extra, 0) <==> !OverridesGateway(extra[0]) && forall e :: e in env ==> e.name != extra[0].name;
      forall i | 0 <= i < |rest|
        ensures Fits(longer, rest, i) ==> Fits(env, extra, i + 1)
        ensures Fits(env, extra, 0) && Fits(env, extra, i + 1) ==> Fits(longer, rest, i)
      {
        FitsLater(env, extra, i);
      }
      if ExtendEnv(env, extra).Some? {
        forall i | 0 <= i < |extra| ensures Fits(env, extra, i) {
          if i > 0 { assert Fits(longer, rest, i - 1); }
        }
      }
    }
  }

  lemma FitsLater(env: seq<EnvVar>, extra: seq<EnvVar>, i: nat)
    requires i + 1 < |extra|
    ensures Fits(env + [extra[0]], extra[1..], i) <==>
            Fits(env, extra, i + 1)
  {
    var longer, rest := env + [extra[0]], extra[1..];
    assert rest[i] == extra[i + 1];
    if Fits(longer, rest, i) {
      assert extra[0] in longer;
      forall j | 0 <= j < i + 1 ensures extra[j].name != extra[i + 1].name {
        if j > 0 { assert rest[j - 1] == extra[j]; }
      }
    }
    if Fits(env, extra, i + 1) {
      forall j | 0 <= j < i ensures rest[j].name != rest[i].name { assert rest[j] == extra[j + 1]; }
    }
  }

  lemma EnvIff(o: Options)
    ensures ExtendEnv(BaseEnv(o), o.proxyEnv).Some? <==> EnvApart(o)
  {
    hide BaseEnv;
    ExtendIff(BaseEnv(o), o.proxyEnv);
    forall i | 0 <= i < |o.proxyEnv|
      ensures Fits(BaseEnv(o), o.proxyEnv, i) <==>
              var name := o.proxyEnv[i].name;
              && !("GATEWAY_" <= name) && name != "OPA_CONFIG" && name != "ENVOY_CONFIG"
              && (forall e :: e in BaseEnv(o) ==> e.name != name)
              && (forall j :: 0 <= j < i ==> o.proxyEnv[j].name != name)
    {
    }
  }

  lemma {:induction false} PlaceIff(cs: seq<Container>, volumes: seq<Volume>, o: Options)
    ensures PlaceAll(cs, volumes, o).Some? <==> Called(cs, "istio-proxy") == [] || EnvApart(o)
  {
    hide BaseEnv, ExtendEnv, EnvApart, Dressed, WithPolicy, WithOrigin, ProxyVolumes;
    EnvIff(o);
    if cs != [] { PlaceIff(cs[..|cs| - 1], volumes, o); }
  }

  lemma MountIff(p: Pod, o: Options, name: string)
    requires name in o.trustMounts
    ensures MountAllowed(p.containers, o.role, name, o.trustMounts[name]) <==>
            && o.role == Workload && ProperPath(o.trustMounts[name])
            && exists i :: 0 <= i < |p.containers| && Selected(p, o, name, i)
  {
    hide CleanPath, ProperPath;
    PathIff(o.trustMounts[name]);
    var index := IndexOf(p.containers, name);
    if i :| 0 <= i < |p.containers| && Selected(p, o, name, i) {
      assert p.containers[i] in p.containers;
      FirstUnique(p.containers, i, index.value);
      forall m | m in p.containers[i].mounts ensures m.path != o.trustMounts[name] {
        var k :| 0 <= k < |p.containers[i].mounts| && p.containers[i].mounts[k] == m;
      }
    }
    if MountAllowed(p.containers, o.role, name, o.trustMounts[name]) {
      assert Selected(p, o, name, index.value);
    }
  }

  // Composition succeeds exactly for a Pod that keeps to itself, proper options, variables that fit if there is a
  // proxy to give them to, and trust mounts that can be made.
  lemma ComposedIff(business: Option<Pod>, o: Options, managed: Managed)
    ensures Composed(business, o, managed).Some? <==>
            && business.Some? && PodApart(business.value, managed) && OptionsProper(o)
            && (GatewayContainer("istio-proxy", managed) ==> EnvApart(o))
            && MountsProper(business.value, o)
  {
    hide PlaceAll, Allowed, PodApart, MountAllowed, ProperPath, CleanPath, EnvApart, Annotated, Mounted, Selected;
    PathIff(o.trustPath);
    PlaceIff(managed.initContainers, managed.volumes, o);
    CalledIff(managed.initContainers, "istio-proxy");
    if business.Some? {
      AllowedIff(business.value, managed);
      forall name | name in o.trustMounts
        ensures MountAllowed(business.value.containers, o.role, name, o.trustMounts[name]) <==>
                && o.role == Workload && ProperPath(o.trustMounts[name])
                && exists i :: 0 <= i < |business.value.containers| && Selected(business.value, o, name, i)
      {
        MountIff(business.value, o, name);
      }
    }
  }

  lemma {:induction false} CalledIff(cs: seq<Container>, name: string)
    ensures Called(cs, name) != [] <==> exists i :: 0 <= i < |cs| && cs[i].name == name
  {
    if cs != [] {
      var k := |cs| - 1;
      CalledIff(cs[..k], name);
      assert forall i :: 0 <= i < k ==> cs[..k][i] == cs[i];
      assert (exists i :: 0 <= i < |cs| && cs[i].name == name) <==>
             (exists i :: 0 <= i < k && cs[i].name == name) || cs[k].name == name;
    }
  }

  // ---- annotations

  // The annotations afterwards: those of the business Pod and the Gateway's for the role.
  lemma AnnotationsExactly(p: Pod, o: Options, managed: Managed)
    requires Composed(Some(p), o, managed).Some?
    ensures Composed(Some(p), o, managed).value.annotations ==
            if o.role == Egress then p.annotations["sidecar.istio.io/inject" := "false"]
            else p.annotations["sidecar.istio.io/status" := SIDECAR_STATUS]
                              ["traffic.sidecar.istio.io/includeInboundPorts" := ""]
                              ["traffic.sidecar.istio.io/includeOutboundIPRanges" := "*"]
  {
    hide PlaceAll, MountsAllowed, OptionsComplete, OwnedKey, Mounted, ContainerAllowed, SIDECAR_STATUS;
    SidecarOwned();
    assert "sidecar.istio.io/inject" !in p.annotations;
    assert p.annotations - {"sidecar.istio.io/inject"} == p.annotations;
  }
}
