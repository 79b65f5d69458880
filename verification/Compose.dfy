/**
  Composing a business Pod with the Gateway's managed components: what a business Pod may not contain, the managed
  containers for a role, and the trust mounts, whose map is walked in an arbitrary order.
*/
module Compose {
  import opened Wrappers
  import opened Text

  datatype Role = Workload | Egress | Unsupported

  datatype Mount = Mount(name: string, path: string, subPath: string, readOnly: bool)

  datatype EnvVar = Plain(name: string, value: string) | FieldRef(name: string, path: string)

  /** A container; `rest` stands for every field composition does not touch. */
  datatype Container =
    Container(name: string, image: string, pullPolicy: string, command: seq<string>, args: seq<string>,
              env: seq<EnvVar>, mounts: seq<Mount>, devices: seq<string>, runAsUser: Option<int>,
              runAsGroup: Option<int>, restartPolicy: Option<string>, startupProbe: Option<nat>, rest: nat)

  /** A volume: its source, and whether it projects a service account token. */
  datatype Volume = Volume(name: string, source: string, projectsToken: bool)

  datatype PodSecurity =
    PodSecurity(runAsUser: Option<int>, runAsGroup: Option<int>, fsGroup: Option<int>, supplementalGroups: seq<int>)

  datatype Pod =
    Pod(labels: map<string, string>, annotations: map<string, string>, automount: Option<bool>,
        initContainers: seq<Container>, containers: seq<Container>, volumes: seq<Volume>,
        security: Option<PodSecurity>, rest: nat)

  datatype Managed = Managed(initContainers: seq<Container>, volumes: seq<Volume>)

  datatype Options =
    Options(role: Role, image: string, pullPolicy: string, trustImage: string, trustPath: string,
            trustMounts: map<string, string>, discoveryAddress: string, proxyConfig: string, proxyEnv: seq<EnvVar>,
            originTrust: string, policy: string)

  const GATEWAY_ID: int := 1337

  // ---- business boundary

  predicate Contains(s: string, part: string) {
    exists i :: 0 <= i <= |s| && part <= s[i..]
  }

  predicate OwnedKey(key: string) { Contains(key, "istio.io/") }

  predicate ReservedId(id: Option<int>) { id == Some(GATEWAY_ID) }

  function ReservedVolumes(managed: Managed): set<string> {
    {"origin-trust", "gateway-policy"} + set v | v in managed.volumes :: v.name
  }

  function ManagedNames(managed: Managed): set<string> { set c | c in managed.initContainers :: c.name }

  predicate ContainerAllowed(c: Container, names: set<string>, reserved: set<string>) {
    && c.name !in names && !ReservedId(c.runAsUser) && !ReservedId(c.runAsGroup)
    && (forall m :: m in c.mounts ==> m.name !in reserved)
    && (forall d :: d in c.devices ==> d !in reserved)
  }

  predicate SecurityAllowed(security: Option<PodSecurity>) {
    security.Some? ==>
      var s := security.value;
      !ReservedId(s.runAsUser) && !ReservedId(s.runAsGroup) && !ReservedId(s.fsGroup)
      && GATEWAY_ID !in s.supplementalGroups
  }

  // What a business Pod must satisfy to be composed.
  predicate Allowed(p: Pod, managed: Managed) {
    var reserved := ReservedVolumes(managed);
    && (forall key :: key in p.labels ==> !OwnedKey(key))
    && (forall key :: key in p.annotations ==> !OwnedKey(key))
    && p.automount != Some(true)
    && (forall v :: v in p.volumes ==> v.name !in reserved && !v.projectsToken)
    && SecurityAllowed(p.security)
    && (forall c :: c in p.initContainers + p.containers ==> ContainerAllowed(c, ManagedNames(managed), reserved))
  }

  // `protectBusiness`: fill the reserved names, then scan.
  method ProtectBusiness(p: Pod, managed: Managed) returns (ok: bool)
    ensures ok <==> Allowed(p, managed)
  {
    hide ContainerAllowed, OwnedKey, SecurityAllowed;
    if exists key :: key in p.labels && OwnedKey(key) { return false; }
    if exists key :: key in p.annotations && OwnedKey(key) { return false; }
    if p.automount == Some(true) { return false; }
    var reserved, names := {"origin-trust", "gateway-policy"}, {};
    for i := 0 to |managed.volumes|
      invariant reserved == {"origin-trust", "gateway-policy"} + set v | v in managed.volumes[..i] :: v.name
    {
      assert managed.volumes[..i + 1] == managed.volumes[..i] + [managed.volumes[i]];
      reserved := reserved + {managed.volumes[i].name};
    }
    for i := 0 to |managed.initContainers|
      invariant names == set c | c in managed.initContainers[..i] :: c.name
    {
      assert managed.initContainers[..i + 1] == managed.initContainers[..i] + [managed.initContainers[i]];
      names := names + {managed.initContainers[i].name};
    }
    assert managed.volumes[..|managed.volumes|] == managed.volumes;
    assert managed.initContainers[..|managed.initContainers|] == managed.initContainers;
    for i := 0 to |p.volumes|
      invariant forall v :: v in p.volumes[..i] ==> v.name !in reserved && !v.projectsToken
    {
      if p.volumes[i].name in reserved || p.volumes[i].projectsToken { return false; }
    }
    if !SecurityAllowed(p.security) { return false; }
    var group := p.initContainers + p.containers;
    for i := 0 to |group|
      invariant forall c :: c in group[..i] ==> ContainerAllowed(c, names, reserved)
    {
      assert group[i] in group;
      if !ContainerAllowed(group[i], names, reserved) { return false; }
    }
    return true;
  }

  // ---- trust mounts

  // An absolute path other than the root that `path.Clean` leaves alone.
  predicate CleanPath(p: string) {
    |p| > 1 && p[0] == '/' && forall part :: part in Split(p[1..], '/') ==> part !in {"", ".", ".."}
  }

  predicate First(containers: seq<Container>, i: nat)
    requires i < |containers|
  {
    forall j :: 0 <= j < i ==> containers[j].name != containers[i].name
  }

  function IndexOf(containers: seq<Container>, name: string): (r: Option<nat>)
    ensures r.None? ==> forall c :: c in containers ==> c.name != name
    ensures r.Some? ==> r.value < |containers| && containers[r.value].name == name && First(containers, r.value)
  {
    if containers == [] then None
    else if containers[0].name == name then Some(0)
    else
      var rest := IndexOf(containers[1..], name);
      if rest.None? then
        (assert forall c :: c in containers <==> c == containers[0] || c in containers[1..]; None)
      else Some(rest.value + 1)
  }

  function BundleMount(path: string): Mount { Mount("bundle", path, "ca-bundle.pem", true) }

  function WithBundle(c: Container, path: string): Container { c.(mounts := c.mounts + [BundleMount(path)]) }

  // Whether one selected container can be given its trust mount.
  predicate MountAllowed(containers: seq<Container>, role: Role, name: string, path: string) {
    && role == Workload && CleanPath(path)
    && var index := IndexOf(containers, name);
       index.Some? && forall m :: m in containers[index.value].mounts ==> m.path != path
  }

  // One round of the loop over `TrustMounts`.
  function MountOne(containers: seq<Container>, role: Role, name: string, path: string): Option<seq<Container>> {
    if !MountAllowed(containers, role, name, path) then None
    else
      var i := IndexOf(containers, name).value;
      Some(containers[i := WithBundle(containers[i], path)])
  }

  // The loop, for one order of the names.
  function MountAll(containers: seq<Container>, role: Role, mounts: map<string, string>, order: seq<string>)
    : Option<seq<Container>>
    requires forall name :: name in order ==> name in mounts
  {
    if order == [] then Some(containers)
    else
      var last := order[|order| - 1];
      assert last in order;
      assert forall name :: name in order[..|order| - 1] ==> name in order;
      var before := MountAll(containers, role, mounts, order[..|order| - 1]);
      if before.None? then None else MountOne(before.value, role, last, mounts[last])
  }

  // Without any order: the first container of each selected name has its bundle mount appended.
  function Mounted(containers: seq<Container>, mounts: map<string, string>, done: set<string>): (r: seq<Container>)
    ensures |r| == |containers|
    ensures forall i :: 0 <= i < |r| ==> r[i].name == containers[i].name
  {
    seq(|containers|, i requires 0 <= i < |containers| =>
      var c := containers[i];
      if c.name in done && c.name in mounts && First(containers, i) then WithBundle(c, mounts[c.name]) else c)
  }

  predicate MountsAllowed(containers: seq<Container>, role: Role, mounts: map<string, string>) {
    forall name :: name in mounts ==> MountAllowed(containers, role, name, mounts[name])
  }

  lemma FirstUnique(containers: seq<Container>, i: nat, j: nat)
    requires i < |containers| && j < |containers| && First(containers, i) && First(containers, j)
    requires containers[i].name == containers[j].name
    ensures i == j
  {
  }

  // What one round does is the same whichever rounds came before it.
  lemma MountStep(containers: seq<Container>, role: Role, mounts: map<string, string>, done: set<string>, name: string)
    requires name in mounts && name !in done
    ensures MountOne(Mounted(containers, mounts, done), role, name, mounts[name]) ==
            if MountAllowed(containers, role, name, mounts[name]) then Some(Mounted(containers, mounts, done + {name}))
            else None
  {
    hide CleanPath, WithBundle;
    var now := Mounted(containers, mounts, done);
    var index, index' := IndexOf(containers, name), IndexOf(now, name);
    if index.Some? {
      assert now[index.value] in now;
      assert First(now, index'.value) && First(containers, index'.value);
      FirstUnique(containers, index.value, index'.value);
      assert now[index.value] == containers[index.value];
    }
    if index'.Some? { assert containers[index'.value] in containers; }
    if MountAllowed(containers, role, name, mounts[name]) {
      var i := index.value;
      var then' := Mounted(containers, mounts, done + {name});
      forall j | 0 <= j < |containers| ensures then'[j] == now[i := WithBundle(now[i], mounts[name])][j] {
        if containers[j].name == name && First(containers, j) { FirstUnique(containers, i, j); }
      }
      assert then' == now[i := WithBundle(now[i], mounts[name])];
    }
  }

  lemma NothingMounted(containers: seq<Container>, mounts: map<string, string>, done: set<string>)
    requires done == {}
    ensures Mounted(containers, mounts, done) == containers
  {
  }

  // Every order of the names gives the same answer and the same containers.
  lemma {:induction false} OrderIndependent(containers: seq<Container>, role: Role, mounts: map<string, string>,
                                            order: seq<string>)
    requires (forall name :: name in order ==> name in mounts)
    requires forall i, j :: 0 <= i < j < |order| ==> order[i] != order[j]
    ensures MountAll(containers, role, mounts, order) ==
            if forall name :: name in order ==> MountAllowed(containers, role, name, mounts[name])
            then Some(Mounted(containers, mounts, Elements(order))) else None
  {
    hide MountOne, MountAllowed, First, WithBundle, Mounted, Elements;
    if order == [] {
      ElementsNone<string>();
      NothingMounted(containers, mounts, Elements(order));
    } else {
      var k := |order| - 1;
      var before := order[..k];
      assert order == before + [order[k]];
      assert forall name :: name in before ==> name in order;
      OrderIndependent(containers, role, mounts, before);
      ElementsAppend(before, order[k]);
      MountStep(containers, role, mounts, Elements(before), order[k]);
    }
  }

  // The source's loop, taking the names as the map yields them.
  method MountTrust(containers: seq<Container>, role: Role, mounts: map<string, string>)
    returns (r: Option<seq<Container>>)
    ensures r == if MountsAllowed(containers, role, mounts) then Some(Mounted(containers, mounts, mounts.Keys))
                 else None
  {
    hide MountAllowed, MountOne, First, WithBundle, Mounted;
    var now := containers;
    var todo := mounts.Keys;
    NothingMounted(containers, mounts, mounts.Keys - todo);
    while todo != {}
      invariant todo <= mounts.Keys
      invariant now == Mounted(containers, mounts, mounts.Keys - todo)
      invariant forall name :: name in mounts.Keys - todo ==> MountAllowed(containers, role, name, mounts[name])
      decreases |todo|
    {
      var name :| name in todo;
      MountStep(containers, role, mounts, mounts.Keys - todo, name);
      var next := MountOne(now, role, name, mounts[name]);
      if next.None? { return None; }
      assert mounts.Keys - (todo - {name}) == mounts.Keys - todo + {name};
      now, todo := next.value, todo - {name};
    }
    assert mounts.Keys - {} == mounts.Keys;
    return Some(now);
  }

  // ---- managed components

  function BaseEnv(o: Options): seq<EnvVar> {
    var role := if o.role == Workload then "workload" else "egress";
    [Plain("GATEWAY_ROLE", role), Plain("GATEWAY_PROXY_MODE", "istio"), Plain("ISTIO_META_WORKLOAD_NAME", role),
     Plain("CA_ADDR", o.discoveryAddress), Plain("JWT_POLICY", "third-party-jwt"),
     Plain("PILOT_CERT_PROVIDER", "istiod"), Plain("ISTIO_META_CLUSTER_ID", "Kubernetes"),
     Plain("ISTIO_META_MESH_ID", "cluster.local"), Plain("TRUST_DOMAIN", "cluster.local"),
     Plain("ISTIO_META_INTERCEPTION_MODE", if o.role == Egress then "NONE" else "REDIRECT"),
     Plain("PROXY_CONFIG", o.proxyConfig), FieldRef("POD_NAME", "metadata.name"),
     FieldRef("POD_NAMESPACE", "metadata.namespace"), FieldRef("INSTANCE_IP", "status.podIP"),
     FieldRef("SERVICE_ACCOUNT", "spec.serviceAccountName")]
  }

  ghost predicate DistinctEnv(env: seq<EnvVar>) {
    forall i, j :: 0 <= i < j < |env| ==> env[i].name != env[j].name
  }

  predicate OverridesGateway(e: EnvVar) { "GATEWAY_" <= e.name || e.name == "OPA_CONFIG" || e.name == "ENVOY_CONFIG" }

  // Append the caller's variables, refusing one already set and one that is the Gateway's own.
  function ExtendEnv(env: seq<EnvVar>, extra: seq<EnvVar>): Option<seq<EnvVar>>
    decreases |extra|
  {
    if extra == [] then Some(env)
    else if OverridesGateway(extra[0]) || exists e :: e in env && e.name == extra[0].name then None
    else ExtendEnv(env + [extra[0]], extra[1..])
  }

  /** The managed part of the result. */
  datatype Trusted = Trusted(initContainers: seq<Container>, containers: seq<Container>, volumes: seq<Volume>)

  function Dressed(c: Container, o: Options): Container {
    var named := c.(image := o.image, pullPolicy := if o.pullPolicy == "" then "IfNotPresent" else o.pullPolicy);
    if c.name == "base-trust" && |c.command| > 1
    then named.(image := o.trustImage, command := c.command[1 := o.trustPath])
    else named
  }

  function WithPolicy(c: Container, o: Options): Container {
    if o.policy == "" then c
    else c.(args := ["--policy", "/etc/gateway/policy/policy.rego"],
            mounts := c.mounts + [Mount("gateway-policy", "/etc/gateway/policy", "", true)])
  }

  function WithOrigin(c: Container, o: Options): Container {
    if o.originTrust == "" then c
    else c.(mounts := c.mounts + [Mount("origin-trust", "/etc/gateway/origin", "", true)])
  }

  function ProxyVolumes(o: Options): seq<Volume> {
    (if o.policy == "" then [] else [Volume("gateway-policy", o.policy, false)]) +
    (if o.originTrust == "" then [] else [Volume("origin-trust", o.originTrust, false)])
  }

  function PlaceManaged(t: Trusted, c: Container, o: Options): Option<Trusted> {
    var dressed := Dressed(c, o);
    if o.role == Egress && c.name in {"base-trust", "trust-init"} then Some(t)
    else if c.name != "istio-proxy" then Some(t.(initContainers := t.initContainers + [dressed]))
    else
      var env := ExtendEnv(BaseEnv(o), o.proxyEnv);
      if env.None? then None
      else
        var proxy := WithOrigin(WithPolicy(dressed, o).(env := env.value), o);
        var volumes := t.volumes + ProxyVolumes(o);
        if o.role == Egress then
          Some(t.(volumes := volumes,
                  containers := t.containers + [proxy.(restartPolicy := None, startupProbe := None)]))
        else Some(t.(volumes := volumes, initContainers := t.initContainers + [proxy]))
  }

  function PlaceAll(cs: seq<Container>, volumes: seq<Volume>, o: Options): Option<Trusted> {
    if cs == [] then Some(Trusted([], [], volumes))
    else
      var before := PlaceAll(cs[..|cs| - 1], volumes, o);
      if before.None? then None else PlaceManaged(before.value, cs[|cs| - 1], o)
  }

  // ---- the composition

  predicate OptionsComplete(o: Options) {
    && o.role != Unsupported
    && o.image != "" && o.discoveryAddress != "" && o.proxyConfig != ""
    && (o.role == Workload ==> o.trustImage != "" && CleanPath(o.trustPath))
  }

  const SIDECAR_STATUS: string :=
    "{\"initContainers\":[\"istio-proxy\"],\"containers\":[],\"volumes\":[],\"imagePullSecrets\":[]," +
    "\"revision\":\"default\"}"

  function Annotated(annotations: map<string, string>, role: Role): map<string, string> {
    if role == Egress then annotations["sidecar.istio.io/inject" := "false"]
    else (annotations - {"sidecar.istio.io/inject"})
         ["sidecar.istio.io/status" := SIDECAR_STATUS]
         ["traffic.sidecar.istio.io/includeInboundPorts" := ""]
         ["traffic.sidecar.istio.io/includeOutboundIPRanges" := "*"]
  }

  function Composed(business: Option<Pod>, o: Options, managed: Managed): Option<Pod> {
    if business.None? || !OptionsComplete(o) || !Allowed(business.value, managed) then None
    else
      var p := business.value;
      var trusted := PlaceAll(managed.initContainers, managed.volumes, o);
      if trusted.None? || !MountsAllowed(p.containers, o.role, o.trustMounts) then None
      else
        var t := trusted.value;
        Some(p.(automount := Some(false), annotations := Annotated(p.annotations, o.role),
                initContainers := t.initContainers + p.initContainers,
                containers := Mounted(p.containers, o.trustMounts, o.trustMounts.Keys) + t.containers,
                volumes := p.volumes + t.volumes))
  }

  // `ComposePod` up to the networking calls; the input Pod is a value and so never changes.
  method ComposePod(business: Option<Pod>, o: Options, managed: Managed) returns (r: Option<Pod>)
    ensures r == Composed(business, o, managed)
  {
    hide Allowed, OptionsComplete, PlaceManaged, MountsAllowed, Annotated, Mounted;
    if business.None? || !OptionsComplete(o) { return None; }
    var p := business.value;
    var allowed := ProtectBusiness(p, managed);
    if !allowed { return None; }
    p := p.(automount := Some(false), annotations := Annotated(p.annotations, o.role));
    var trusted := Trusted([], [], managed.volumes);
    for i := 0 to |managed.initContainers|
      invariant PlaceAll(managed.initContainers[..i], managed.volumes, o) == Some(trusted)
    {
      var placed := PlaceManaged(trusted, managed.initContainers[i], o);
      assert managed.initContainers[..i + 1][..i] == managed.initContainers[..i];
      if placed.None? {
        PlacingStops(managed.initContainers, managed.volumes, o, i + 1);
        return None;
      }
      trusted := placed.value;
    }
    assert managed.initContainers[..|managed.initContainers|] == managed.initContainers;
    var mounted := MountTrust(p.containers, o.role, o.trustMounts);
    if mounted.None? { return None; }
    return Some(p.(initContainers := trusted.initContainers + p.initContainers,
                   containers := mounted.value + trusted.containers,
                   volumes := p.volumes + trusted.volumes));
  }

  lemma {:induction false} PlacingStops(cs: seq<Container>, volumes: seq<Volume>, o: Options, k: nat)
    requires k <= |cs| && PlaceAll(cs[..k], volumes, o).None?
    ensures PlaceAll(cs, volumes, o).None?
  {
    hide PlaceManaged;
    if k < |cs| {
      assert cs[..|cs| - 1][..k] == cs[..k];
      PlacingStops(cs[..|cs| - 1], volumes, o, k);
    } else {
      assert cs[..k] == cs;
    }
  }

  // ---- what composition keeps

  lemma {:induction false} ExtendDistinct(env: seq<EnvVar>, extra: seq<EnvVar>)
    requires DistinctEnv(env) && ExtendEnv(env, extra).Some?
    ensures DistinctEnv(ExtendEnv(env, extra).value) && env <= ExtendEnv(env, extra).value
    ensures ExtendEnv(env, extra).value == env + extra
    decreases |extra|
  {
    if extra == [] {
      assert env + extra == env;
    } else {
      var longer := env + [extra[0]];
      forall i, j | 0 <= i < j < |longer| ensures longer[i].name != longer[j].name {
        assert longer[i] == env[i] && env[i] in env;
      }
      ExtendDistinct(longer, extra[1..]);
      assert longer + extra[1..] == env + extra;
    }
  }

  // Name length and first letter already tell the fifteen fixed names apart.
  function Fingerprints(): seq<(int, char)> {
    [(12, 'G'), (18, 'G'), (24, 'I'), (7, 'C'), (10, 'J'), (19, 'P'), (21, 'I'), (18, 'I'), (12, 'T'),
     (28, 'I'), (12, 'P'), (8, 'P'), (13, 'P'), (11, 'I'), (15, 'S')]
  }

  lemma BaseEnvFingerprints(o: Options)
    ensures var env := BaseEnv(o);
            |env| == |Fingerprints()|
            && forall i :: 0 <= i < |env| ==> env[i].name != [] && (|env[i].name|, env[i].name[0]) == Fingerprints()[i]
  {
  }

  lemma BaseEnvDistinct(o: Options)
    ensures DistinctEnv(BaseEnv(o))
  {
    hide BaseEnv;
    BaseEnvFingerprints(o);
    assert forall i, j :: 0 <= i < j < |Fingerprints()| ==> Fingerprints()[i] != Fingerprints()[j];
  }

  // Managed init containers keep their managed names and, in the proxy, distinct environment names.
  ghost predicate FromManaged(c: Container, names: set<string>) {
    c.name in names && (c.name == "istio-proxy" ==> DistinctEnv(c.env))
  }

  ghost predicate AllFromManaged(t: Trusted, names: set<string>) {
    && (forall c :: c in t.initContainers ==> FromManaged(c, names))
    && (forall c :: c in t.containers ==> FromManaged(c, names))
  }

  lemma PlaceFromManaged(t: Trusted, c: Container, o: Options, names: set<string>)
    requires AllFromManaged(t, names) && c.name in names && PlaceManaged(t, c, o).Some?
    ensures AllFromManaged(PlaceManaged(t, c, o).value, names)
  {
    hide BaseEnv, DistinctEnv, ExtendEnv;
    BaseEnvDistinct(o);
    if ExtendEnv(BaseEnv(o), o.proxyEnv).Some? { ExtendDistinct(BaseEnv(o), o.proxyEnv); }
  }

  lemma {:induction false} PlacedFromManaged(cs: seq<Container>, volumes: seq<Volume>, o: Options, names: set<string>)
    requires PlaceAll(cs, volumes, o).Some? && forall c :: c in cs ==> c.name in names
    ensures AllFromManaged(PlaceAll(cs, volumes, o).value, names)
  {
    hide PlaceManaged, FromManaged;
    if cs != [] {
      PlacedFromManaged(cs[..|cs| - 1], volumes, o, names);
      PlaceFromManaged(PlaceAll(cs[..|cs| - 1], volumes, o).value, cs[|cs| - 1], o, names);
    }
  }

  lemma OwnedAfter(key: string, i: nat)
    requires i <= |key| && "istio.io/" <= key[i..]
    ensures OwnedKey(key)
  {
  }

  lemma SidecarOwned()
    ensures OwnedKey("sidecar.istio.io/inject") && OwnedKey("sidecar.istio.io/status")
  {
    hide OwnedKey;
    OwnedAfter("sidecar.istio.io/inject", 8);
    OwnedAfter("sidecar.istio.io/status", 8);
  }

  lemma TrafficOwned()
    ensures OwnedKey("traffic.sidecar.istio.io/includeInboundPorts")
    ensures OwnedKey("traffic.sidecar.istio.io/includeOutboundIPRanges")
  {
    hide OwnedKey;
    OwnedAfter("traffic.sidecar.istio.io/includeInboundPorts", 16);
    OwnedAfter("traffic.sidecar.istio.io/includeOutboundIPRanges", 16);
  }

  // Business annotations survive, and every other one is the Gateway's.
  lemma AnnotationsKept(annotations: map<string, string>, role: Role)
    requires forall key :: key in annotations ==> !OwnedKey(key)
    ensures var r := Annotated(annotations, role);
            && (forall key :: key in annotations ==> key in r && r[key] == annotations[key])
            && (forall key :: key in r && key !in annotations ==> OwnedKey(key))
  {
    hide OwnedKey;
    SidecarOwned();
    TrafficOwned();
  }

  // Nothing of the business Pod's metadata and security changes but what is the Gateway's to set.
  lemma MetadataKept(p: Pod, o: Options, managed: Managed)
    requires Composed(Some(p), o, managed).Some?
    ensures var r := Composed(Some(p), o, managed).value;
            && r.labels == p.labels && r.security == p.security && r.rest == p.rest && r.automount == Some(false)
            && (forall key :: key in p.annotations ==> key in r.annotations && r.annotations[key] == p.annotations[key])
            && (forall key :: key in r.annotations && key !in p.annotations ==> OwnedKey(key))
            && (forall key :: key in p.labels || key in p.annotations ==> !OwnedKey(key))
  {
    hide PlaceAll, MountsAllowed, OptionsComplete, OwnedKey, Annotated, Mounted, ContainerAllowed;
    AnnotationsKept(p.annotations, o.role);
  }

  // Business containers keep contents and order, but for one bundle mount appended to the first container of each
  // selected name; managed init containers come first; no business container mounts a reserved volume other than the
  // read-only bundle file.
  lemma CompositionConservative(p: Pod, o: Options, managed: Managed)
    requires Composed(Some(p), o, managed).Some?
    ensures var r := Composed(Some(p), o, managed).value;
            var n, m := |r.initContainers| - |p.initContainers|, |p.containers|;
            && n >= 0 && m <= |r.containers|
            && r.initContainers[n..] == p.initContainers
            && (forall c :: c in r.initContainers[..n] + r.containers[m..] ==> FromManaged(c, ManagedNames(managed)))
            && (forall c :: c in p.initContainers + p.containers ==> c.name !in ManagedNames(managed))
            && (forall i :: 0 <= i < m ==>
                  r.containers[i] ==
                  if p.containers[i].name in o.trustMounts
                     && (forall j :: 0 <= j < i ==> p.containers[j].name != p.containers[i].name)
                  then var path := o.trustMounts[p.containers[i].name];
                       p.containers[i].(mounts := p.containers[i].mounts
                                                  + [Mount("bundle", path, "ca-bundle.pem", true)])
                  else p.containers[i])
            && (forall c, mount :: c in r.initContainers[n..] + r.containers[..m] && mount in c.mounts ==>
                  mount.name in ReservedVolumes(managed) ==>
                    c.name in o.trustMounts && mount == Mount("bundle", o.trustMounts[c.name], "ca-bundle.pem", true))
            && p.volumes <= r.volumes
  {
    hide PlaceAll, MountsAllowed, OptionsComplete, FromManaged, OwnedKey, SecurityAllowed, Annotated,
         ReservedVolumes;
    var r := Composed(Some(p), o, managed).value;
    var t := PlaceAll(managed.initContainers, managed.volumes, o).value;
    PlacedFromManaged(managed.initContainers, managed.volumes, o, ManagedNames(managed));
    var n, m := |t.initContainers|, |p.containers|;
    var mounted := Mounted(p.containers, o.trustMounts, o.trustMounts.Keys);
    assert forall c :: c in p.initContainers ==> c in p.initContainers + p.containers;
    assert r.initContainers[..n] == t.initContainers && r.initContainers[n..] == p.initContainers;
    assert r.containers[..m] == mounted && r.containers[m..] == t.containers;
    ReservedMounts(p, o.trustMounts, managed);
    assert r.initContainers[n..] + r.containers[..m] == p.initContainers + mounted;
  }

  // An allowed Pod mounts nothing reserved, so what is mounted afterwards is a bundle file.
  lemma ReservedMounts(p: Pod, mounts: map<string, string>, managed: Managed)
    requires Allowed(p, managed)
    ensures var mounted := Mounted(p.containers, mounts, mounts.Keys);
            forall c, mount :: c in p.initContainers + mounted && mount in c.mounts ==>
              mount.name in ReservedVolumes(managed) ==> c.name in mounts && mount == BundleMount(mounts[c.name])
  {
    hide OwnedKey, SecurityAllowed, First;
    var mounted := Mounted(p.containers, mounts, mounts.Keys);
    forall c, mount | c in p.initContainers + mounted && mount in c.mounts && mount.name in ReservedVolumes(managed)
      ensures c.name in mounts && mount == BundleMount(mounts[c.name])
    {
      assert c in p.initContainers ==> c in p.initContainers + p.containers;
      if c !in p.initContainers {
        var i :| 0 <= i < |mounted| && mounted[i] == c;
        assert p.containers[i] in p.initContainers + p.containers;
      }
    }
  }
}
