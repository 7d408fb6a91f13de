/** Resolving an installation's state from its marker, the live release values and the live cluster. */
module InstallResolve {
  import opened Wrappers
  import opened ObjectPath
  import opened Traefik
  import opened DependencyState
  import opened InstallState
  import opened ValuePaths

  datatype LiveIngress = LiveIngress(host: Option<string>, className: Option<string>, clusterIssuerName: Option<string>)

  /** What the cluster and the URL library answer. */
  datatype Live = Live(
    values: Fields,
    ingress: Option<LiveIngress>,
    imageRegistry: Option<string>,
    hostOfUrl: string -> Option<string>,
    registryHostOf: string -> string)

  datatype Installed = Installed(
    domain: string,
    imageRegistry: string,
    registryHost: string,
    platformId: string,
    ingressClassName: string,
    ingressControllerNamespace: string,
    storageClass: Option<string>,
    nodeSelector: Option<map<string, string>>,
    traefikValues: Fields,
    dependencies: DependencyMap,
    ha: bool,
    tenantPodSecurity: Option<string>,
    tenantRuntimeClass: Option<string>,
    registryMode: RegistryMode,
    registryInsecure: bool,
    registryIngressEnabled: bool,
    registryClusterIssuer: Option<string>,
    clusterIssuerName: Option<string>,
    upcloudAutoscaling: Option<Autoscaling>,
    tcpPortPool: TcpPortPool,
    clusterDnsPolicy: Option<DnsPolicy>)

  datatype Resolution = NoDomain | NoImageRegistry | Resolved(state: Installed)

  function LastIndex(s: string, c: char): int {
    if s == "" then -1
    else if s[|s| - 1] == c then |s| - 1
    else LastIndex(s[..|s| - 1], c)
  }

  /** The repository without its workload, or without its last path segment. */
  function ImageRegistryFromRepository(repository: Option<string>, workload: string): Option<string> {
    if repository.None? || repository.value == "" then None
    else
      var r, suffix := repository.value, "/" + workload;
      if |suffix| <= |r| && r[|r| - |suffix|..] == suffix then Some(r[..|r| - |suffix|])
      else
        var slash := LastIndex(r, '/');
        if 0 < slash < |r| then Some(r[..slash]) else None
  }

  function DependencyLegacy(marker: State, live: Live): Legacy {
    var root := Some(Obj(live.values));
    Legacy(
      NonEmpty(FirstOf(FirstOf(FirstOf(marker.ingressClassName,
                                       ReadString(root, ["ingress", "className"])),
                               ReadString(root, ["workloadIngress", "className"])),
                       if live.ingress.Some? then live.ingress.value.className else None)),
      NonEmpty(FirstOf(marker.ingressControllerNamespace, ReadString(root, ["workloadIngress", "controllerNamespace"]))),
      FirstOf(marker.traefikValues, ReadRecord(root, ["update", "dependencies", "traefik", "values"])))
  }

  function ResolveDomain(marker: State, live: Live): Option<string> {
    var root := Some(Obj(live.values));
    var url := ReadString(root, ["api", "env", "APP_BASE_URL"]);
    NonEmpty(FirstOf(FirstOf(FirstOf(marker.domain,
                                     ReadString(root, ["ingress", "host"])),
                             if url.Some? then live.hostOfUrl(url.value) else None),
                     if live.ingress.Some? then live.ingress.value.host else None))
  }

  function ResolveImageRegistry(marker: State, live: Live, registryOverride: Option<string>): Option<string> {
    var root := Some(Obj(live.values));
    NonEmpty(FirstOf(FirstOf(FirstOf(FirstOf(registryOverride,
                                             marker.imageRegistry),
                                     ImageRegistryFromRepository(ReadString(root, ["api", "image", "repository"]), "api")),
                             ImageRegistryFromRepository(ReadString(root, ["worker", "image", "repository"]), "worker")),
                     live.imageRegistry))
  }

  function ResolveMode(marker: State, live: Live): RegistryMode {
    var root := Some(Obj(live.values));
    var enabled := ReadBool(root, ["registry", "enabled"]);
    marker.registryMode.OrElse(
      if enabled == Some(true) then Platform
      else if ReadString(root, ["builds", "registry", "endpoint"]).Some? then External
      else if enabled == Some(false) then Unconfigured
      else Platform)
  }

  function InferPlatform(nodeSelector: Option<map<string, string>>): Option<string> {
    if nodeSelector.Some? && "cfke.io/provider" in nodeSelector.value && nodeSelector.value["cfke.io/provider"] == "hetzner"
    then Some("cloudfleet-hetzner") else None
  }

  /** `resolveInstallState`: the marker first, then the release values, then the cluster, then a default. */
  function Resolve(marker: State, live: Live, registryOverride: Option<string>): Resolution {
    var root := Some(Obj(live.values));
    var dependencies := ResolveDependencies(
      if marker.dependencies.Some? then Some(AsInput(marker.dependencies.value)) else None,
      None, Some(live.values), DependencyLegacy(marker, live));
    var domain := ResolveDomain(marker, live);
    var imageRegistry := ResolveImageRegistry(marker, live, registryOverride);
    if domain.None? then NoDomain
    else if imageRegistry.None? then NoImageRegistry
    else
      var mode := ResolveMode(marker, live);
      var ingressEnabled := marker.registryIngressEnabled.OrElse(
        mode.Platform? && ReadBool(root, ["registry", "ingress", "enabled"]).OrElse(false));
      var clusterIssuer := NonEmpty(FirstOf(FirstOf(FirstOf(FirstOf(marker.clusterIssuerName,
                                            ReadString(root, ["certManager", "clusterIssuer", "name"])),
                                    ReadString(root, ["workloadIngress", "clusterIssuer"])),
                            ReadString(root, ["ingress", "annotations", "cert-manager.io/cluster-issuer"])),
                    if live.ingress.Some? then live.ingress.value.clusterIssuerName else None));
      var registryIssuer := NonEmpty(FirstOf(FirstOf(marker.registryClusterIssuer,
                                             ReadString(root, ["registry", "ingress", "clusterIssuer"])),
                                     if ingressEnabled then clusterIssuer else None));
      Resolved(Installed(
        domain.value,
        imageRegistry.value,
        FirstOf(FirstOf(marker.registryHost, ReadString(root, ["registry", "ingress", "host"])),
                ReadString(root, ["builds", "registry", "endpoint"]))
          .OrElse(if mode.Platform? then live.registryHostOf(domain.value) else ""),
        FirstOf(marker.platformId,
                InferPlatform(FirstOf(marker.nodeSelector, ReadStringMap(root, ["api", "nodeSelector"])))).OrElse("unknown"),
        dependencies.traefik.ingressClassName,
        dependencies.traefik.namespace,
        NonEmpty(FirstOf(FirstOf(marker.storageClass, ReadString(root, ["postgres", "storage", "storageClassName"])),
                         ReadString(root, ["workloadStorage", "storageClassName"]))),
        FirstOf(FirstOf(marker.nodeSelector, ReadStringMap(root, ["api", "nodeSelector"])),
                ReadStringMap(root, ["worker", "nodeSelector"])),
        dependencies.traefik.helmValues,
        dependencies,
        FirstOf(marker.ha, ReadBool(root, ["ha", "enabled"])).OrElse(false),
        FirstOf(marker.tenantPodSecurity, ReadString(root, ["tenants", "podSecurity"])),
        FirstOf(marker.tenantRuntimeClass, ReadString(root, ["tenants", "runtimeClass", "default"])),
        mode,
        FirstOf(marker.registryInsecure, ReadBool(root, ["builds", "registry", "insecure"]))
          .OrElse(mode.Platform? && (!ingressEnabled || registryIssuer.None?)),
        ingressEnabled,
        registryIssuer,
        clusterIssuer,
        marker.upcloudAutoscaling,
        marker.tcpPortPool.OrElse(ResolvePool(ReadRecord(root, ["workloadIngress", "tcpPortPool"]))),
        marker.clusterDnsPolicy))
  }

  /** Every field present in `s` is the one in `r`; left out are the class name, the namespace and the Helm values of the
      ingress controller, which the dependency record has taken over, and the image registry, which can be overridden. */
  predicate Obeys(r: Installed, s: State) {
    && (s.domain.Some? ==> r.domain == s.domain.value)
    && (s.registryHost.Some? ==> r.registryHost == s.registryHost.value)
    && (s.platformId.Some? ==> r.platformId == s.platformId.value)
    && (s.storageClass.Some? ==> r.storageClass == s.storageClass)
    && (s.nodeSelector.Some? ==> r.nodeSelector == s.nodeSelector)
    && (s.ha.Some? ==> r.ha == s.ha.value)
    && (s.tenantPodSecurity.Some? ==> r.tenantPodSecurity == s.tenantPodSecurity)
    && (s.tenantRuntimeClass.Some? ==> r.tenantRuntimeClass == s.tenantRuntimeClass)
    && (s.registryMode.Some? ==> r.registryMode == s.registryMode.value)
    && (s.registryInsecure.Some? ==> r.registryInsecure == s.registryInsecure.value)
    && (s.registryIngressEnabled.Some? ==> r.registryIngressEnabled == s.registryIngressEnabled.value)
    && (s.registryClusterIssuer.Some? ==> r.registryClusterIssuer == s.registryClusterIssuer)
    && (s.clusterIssuerName.Some? ==> r.clusterIssuerName == s.clusterIssuerName)
    && (s.upcloudAutoscaling.Some? ==> r.upcloudAutoscaling == s.upcloudAutoscaling)
    && (s.tcpPortPool.Some? ==> r.tcpPortPool == s.tcpPortPool.value)
    && (s.clusterDnsPolicy.Some? ==> r.clusterDnsPolicy == s.clusterDnsPolicy)
  }

  /** The same for the dependency record: names as they are, Helm values covered, ports exactly the marker's. */
  predicate ObeysDependencies(r: Installed, deps: DependencyMap) {
    && r.dependencies.traefik.namespace == r.ingressControllerNamespace == deps.traefik.namespace
    && r.dependencies.traefik.releaseName == deps.traefik.releaseName
    && r.dependencies.traefik.ingressClassName == r.ingressClassName == deps.traefik.ingressClassName
    && r.dependencies.traefik.helmValues == r.traefikValues
    && r.dependencies.certManager == deps.certManager
    && r.dependencies.cnpg == deps.cnpg
    && Covers(Obj(r.traefikValues), Obj(deps.traefik.helmValues))
    && ("ports" in deps.traefik.helmValues ==> Field(r.traefikValues, "ports") == Field(deps.traefik.helmValues, "ports"))
  }

  /** The state the installer works with after reading a marker. */
  function FromMarker(d: Marker): State {
    Decode(d).OrElse(EMPTY_STATE)
  }

  /** A written marker, decoded: what it says about each field. */
  lemma WrittenMarker(s: State)
    requires WellFormed(s)
    ensures FromMarker(Encode(Some(s))) == Kept(s)
  {
    EncodeDecode(s);
  }

  lemma MarkerResolves(s: State, live: Live, registryOverride: Option<string>)
    requires WellFormed(s)
    ensures
      var r := Resolve(Kept(s), live, registryOverride);
      && (s.domain.Some? && (s.imageRegistry.Some? || NonEmpty(registryOverride).Some?) ==>
            (r.Resolved? || registryOverride == Some("")))
      && (r.Resolved? && s.imageRegistry.Some? ==> r.state.imageRegistry == registryOverride.OrElse(s.imageRegistry.value))
  {
    hide DefaultState, LayerState, ResolveDependencies, ReadString, ReadBool, ReadRecord, ReadStringMap, Renormalise;
    hide ImageRegistryFromRepository, InferPlatform, ResolvePool, DependencyLegacy, ValidAutoscaling, ValidPool, ValidDnsPolicy;
    hide ResolveMode;
  }

  lemma MarkerIsObeyed(s: State, live: Live, registryOverride: Option<string>)
    requires WellFormed(s)
    ensures
      var r := Resolve(Kept(s), live, registryOverride);
      r.Resolved? ==> Obeys(r.state, s)
  {
    hide DefaultState, LayerState, ResolveDependencies, ReadString, ReadBool, ReadRecord, ReadStringMap, Renormalise;
    hide ImageRegistryFromRepository, InferPlatform, ResolvePool, DependencyLegacy, ValidAutoscaling, ValidPool, ValidDnsPolicy;
    hide ResolveImageRegistry;
  }

  lemma MarkerFieldsWin(s: State, live: Live, registryOverride: Option<string>)
    requires WellFormed(s)
    ensures
      var r := Resolve(Kept(s), live, registryOverride);
      && (s.domain.Some? && (s.imageRegistry.Some? || NonEmpty(registryOverride).Some?) ==>
            (r.Resolved? || registryOverride == Some("")))
      && (r.Resolved? ==> Obeys(r.state, s))
      && (r.Resolved? && s.imageRegistry.Some? ==> r.state.imageRegistry == registryOverride.OrElse(s.imageRegistry.value))
  {
    hide Resolve, Obeys, WellFormed, Kept, NonEmpty;
    MarkerResolves(s, live, registryOverride);
    MarkerIsObeyed(s, live, registryOverride);
  }

  /** Renormalised dependencies over any legacy layer keep names, records and ports, and cover the values. */
  lemma RecordOverLegacy(deps: DependencyMap, legacy: Option<DependencyInput>)
    requires legacy.Some? ==> legacy.value.certManager.None? && legacy.value.cnpg.None?
    ensures
      var under := LayerState(DefaultState(), legacy);
      var result := LayerState(under, Some(AsInput(Renormalise(deps))));
      && result.(traefik := deps.traefik) == deps
      && result.traefik.(helmValues := deps.traefik.helmValues) == deps.traefik
      && Covers(Obj(result.traefik.helmValues), Obj(deps.traefik.helmValues))
      && ("ports" in deps.traefik.helmValues ==>
            Field(result.traefik.helmValues, "ports") == Field(deps.traefik.helmValues, "ports"))
  {
    DefaultRecords();
    hide DefaultState;
    var under := LayerState(DefaultState(), legacy);
    var values, normal := deps.traefik.helmValues, Renormalise(deps).traefik.helmValues;
    var result := Layer(under.traefik.helmValues, Some(normal));
    LayerCovers(DefaultState().traefik.helmValues, values);
    LayerCovers(under.traefik.helmValues, normal);
    CoversTransitive(Obj(result), Obj(normal), Obj(values));
    assert under.certManager == map[] && under.cnpg == map[];
    assert map[] + deps.certManager == deps.certManager && map[] + deps.cnpg == deps.cnpg;
  }

  function RecordInput(marker: State): Option<DependencyInput> {
    if marker.dependencies.Some? then Some(AsInput(marker.dependencies.value)) else None
  }

  lemma ResolvedFields(marker: State, live: Live, registryOverride: Option<string>)
    ensures
      var r := Resolve(marker, live, registryOverride);
      var deps := ResolveDependencies(RecordInput(marker), None, Some(live.values), DependencyLegacy(marker, live));
      r.Resolved? ==>
        && r.state.dependencies == deps
        && r.state.ingressClassName == deps.traefik.ingressClassName
        && r.state.ingressControllerNamespace == deps.traefik.namespace
        && r.state.traefikValues == deps.traefik.helmValues
  {
    hide ResolveDependencies, DependencyLegacy, ReadString, ReadBool, ReadRecord, ReadStringMap, ResolvePool;
    hide ImageRegistryFromRepository, InferPlatform, ResolveDomain, ResolveImageRegistry, ResolveMode;
  }

  lemma MarkerDependenciesWin(s: State, live: Live, registryOverride: Option<string>)
    requires s.dependencies.Some?
    ensures
      var r := Resolve(Kept(s), live, registryOverride);
      r.Resolved? ==> ObeysDependencies(r.state, s.dependencies.value)
  {
    var deps, legacy := s.dependencies.value, DependencyLegacy(Kept(s), live);
    RenormaliseTwice(deps);
    ResolvedFields(Kept(s), live, registryOverride);
    RecordOverLegacy(deps, LegacyState(Some(live.values), legacy));
    hide Resolve, DependencyLegacy, DefaultState, Renormalise, LegacyState, AsInput, LayerTraefik, Covers;
  }

  /** Marker authority: a well-formed state that is written to the marker and read back wins over whatever the
      live release, ingress and deployments say, in every field it has but the three of the ingress controller that
      the dependency record has taken over; only an explicit override changes the image registry. What becomes of the
      three is in `SupersededFieldsIff`. */
  lemma MarkerAuthority(s: State, live: Live, registryOverride: Option<string>)
    requires WellFormed(s)
    ensures
      var r := Resolve(FromMarker(Encode(Some(s))), live, registryOverride);
      && (s.domain.Some? && s.imageRegistry.Some? && registryOverride != Some("") ==> r.Resolved?)
      && (r.Resolved? ==>
            && Obeys(r.state, s)
            && (s.imageRegistry.Some? ==> r.state.imageRegistry == registryOverride.OrElse(s.imageRegistry.value))
            && (s.dependencies.Some? ==> ObeysDependencies(r.state, s.dependencies.value)))
  {
    hide Resolve, Obeys, ObeysDependencies, WellFormed;
    WrittenMarker(s);
    MarkerFieldsWin(s, live, registryOverride);
    if s.dependencies.Some? {
      MarkerDependenciesWin(s, live, registryOverride);
    }
  }

  /** The exception: an empty registry host is not written, so the live release decides again. */
  lemma EmptyRegistryHostIsDropped(s: State)
    ensures Encode(Some(s.(registryHost := Some("")))) == Encode(Some(s.(registryHost := None)))
  {
  }

  /** A marker that says pod security is off keeps it off under a release that says otherwise. */
  lemma PodSecurityOffSurvives(s: State, live: Live, registryOverride: Option<string>)
    requires WellFormed(s) && s.tenantPodSecurity == Some("")
    ensures
      var r := Resolve(FromMarker(Encode(Some(s))), live, registryOverride);
      r.Resolved? ==> r.state.tenantPodSecurity == Some("")
  {
  }

  // The three fields that the dependency record has taken over.

  /** What the live release and the cluster say about the ingress controller. */
  function LiveClassName(live: Live): Option<string> {
    var root := Some(Obj(live.values));
    NonEmpty(FirstOf(FirstOf(ReadString(root, ["ingress", "className"]), ReadString(root, ["workloadIngress", "className"])),
                     if live.ingress.Some? then live.ingress.value.className else None))
  }

  function LiveNamespace(live: Live): Option<string> {
    NonEmpty(ReadString(Some(Obj(live.values)), ["workloadIngress", "controllerNamespace"]))
  }

  function LiveTraefikValues(live: Live): Option<Fields> {
    ReadRecord(Some(Obj(live.values)), ["update", "dependencies", "traefik", "values"])
  }

  /** Where the three fields come from after a marker was written: from the dependency record if there is one, over
      the live release, over the defaults. The fields themselves have no part in it. */
  function ClassNameOf(s: State, live: Live): string {
    if s.dependencies.Some? then s.dependencies.value.traefik.ingressClassName
    else LiveClassName(live).OrElse(DefaultState().traefik.ingressClassName)
  }

  function NamespaceOf(s: State, live: Live): string {
    if s.dependencies.Some? then s.dependencies.value.traefik.namespace
    else LiveNamespace(live).OrElse(DefaultState().traefik.namespace)
  }

  function ValuesOf(s: State, live: Live): Fields {
    var base := DefaultState().traefik.helmValues;
    var under := Layer(base, LiveTraefikValues(live));
    if s.dependencies.Some? then Layer(under, Some(Layer(base, Some(s.dependencies.value.traefik.helmValues)))) else under
  }

  /** The sources of the Helm values: the defaults, the live release over them, and over that the record, which was put
      over the defaults when it was written. */
  function ValuesSource(s: State, live: Live): Source {
    var base, others := Given(DefaultState().traefik.helmValues), LiveTraefikValues(live);
    var under := if others.Some? then Over(base, Given(others.value)) else base;
    if s.dependencies.Some? then Over(under, Over(base, Given(s.dependencies.value.traefik.helmValues))) else under
  }

  /** The fields are not written at all. */
  lemma SupersededFieldsAreDropped(s: State, className: Option<string>, namespace: Option<string>, values: Option<Fields>)
    ensures Encode(Some(s.(ingressClassName := className, ingressControllerNamespace := namespace, traefikValues := values)))
      == Encode(Some(s))
  {
  }

  lemma ReadStringIsNonEmpty(root: Option<Json>, path: seq<string>)
    ensures ReadString(root, path) != Some("")
  {
  }

  /** What the legacy sources contribute when the marker holds none of the three fields. */
  lemma LiveSources(s: State, live: Live)
    ensures
      var traefik := LayerState(DefaultState(), LegacyState(Some(live.values), DependencyLegacy(Kept(s), live))).traefik;
      && traefik.ingressClassName == LiveClassName(live).OrElse(DefaultState().traefik.ingressClassName)
      && traefik.namespace == LiveNamespace(live).OrElse(DefaultState().traefik.namespace)
      && traefik.helmValues == Layer(DefaultState().traefik.helmValues, LiveTraefikValues(live))
  {
    var root := Some(Obj(live.values));
    ReadStringIsNonEmpty(root, ["ingress", "className"]);
    ReadStringIsNonEmpty(root, ["workloadIngress", "className"]);
    ReadStringIsNonEmpty(root, ["workloadIngress", "controllerNamespace"]);
    hide DefaultState, ReadString, ReadRecord, Renormalise, Layer;
    NoLayer(DefaultState().traefik.helmValues);
  }

  lemma SupersededSources(s: State, live: Live, registryOverride: Option<string>)
    ensures
      var r := Resolve(Kept(s), live, registryOverride);
      r.Resolved? ==>
        && r.state.ingressClassName == ClassNameOf(s, live)
        && r.state.ingressControllerNamespace == NamespaceOf(s, live)
        && r.state.traefikValues == ValuesOf(s, live)
  {
    hide Resolve, DependencyLegacy, DefaultState, Layer, LegacyState, Renormalise, LiveClassName, LiveNamespace;
    hide LiveTraefikValues;
    LiveSources(s, live);
    ResolvedFields(Kept(s), live, registryOverride);
    if s.dependencies.Some? {
      RenormaliseTwice(s.dependencies.value);
      RenormalisedTraefik(s.dependencies.value);
    }
  }

  lemma RenormalisedTraefik(deps: DependencyMap)
    ensures Renormalise(deps).traefik
      == deps.traefik.(helmValues := Layer(DefaultState().traefik.helmValues, Some(deps.traefik.helmValues)))
  {
    hide DefaultState, Layer;
  }

  /** The exact fate of the three fields of a well-formed state that is written and read back: each comes back exactly
      if it is what the dependency record, or without one the live release, says anyway; for the Helm values, at every
      path. */
  lemma SupersededFieldsIff(s: State, live: Live, registryOverride: Option<string>)
    requires WellFormed(s)
    ensures
      var r := Resolve(FromMarker(Encode(Some(s))), live, registryOverride);
      r.Resolved? ==>
        && (s.ingressClassName.Some? ==>
              (r.state.ingressClassName == s.ingressClassName.value <==> ClassNameOf(s, live) == s.ingressClassName.value))
        && (s.ingressControllerNamespace.Some? ==>
              (r.state.ingressControllerNamespace == s.ingressControllerNamespace.value
               <==> NamespaceOf(s, live) == s.ingressControllerNamespace.value))
        && (s.traefikValues.Some? ==>
              (r.state.traefikValues == s.traefikValues.value <==> Agree(s.traefikValues.value, ValuesSource(s, live))))
  {
    hide Resolve, WellFormed, ClassNameOf, NamespaceOf, ValuesOf, ValuesSource, Agree, Built;
    WrittenMarker(s);
    SupersededSources(s, live, registryOverride);
    SourceOfValues(s, live);
    if s.traefikValues.Some? {
      BuiltIff(ValuesSource(s, live), s.traefikValues.value);
    }
  }

  lemma SourceOfValues(s: State, live: Live)
    ensures Built(ValuesSource(s, live)) == ValuesOf(s, live)
  {
    hide DefaultState, LiveTraefikValues, Layer;
    var base, others := DefaultState().traefik.helmValues, LiveTraefikValues(live);
    NoLayer(base);
    assert others.Some? ==> Built(Over(Given(base), Given(others.value))) == Layer(base, others);
    if s.dependencies.Some? {
      var record := s.dependencies.value.traefik.helmValues;
      assert Built(Over(Given(base), Given(record))) == Layer(base, Some(record));
    }
  }

  /** For a state whose Helm values are those of its record, over the defaults as the installer builds them, they come
      back exactly if the live release holds no value beyond them, ports apart. */
  lemma RecordedValuesIff(s: State, live: Live, registryOverride: Option<string>)
    requires WellFormed(s) && s.dependencies.Some?
    requires
      var values := s.dependencies.value.traefik.helmValues;
      s.traefikValues == Some(values) && Layer(DefaultState().traefik.helmValues, Some(values)) == values
    ensures
      var r := Resolve(FromMarker(Encode(Some(s))), live, registryOverride);
      var values, others := s.dependencies.value.traefik.helmValues, LiveTraefikValues(live);
      r.Resolved? ==>
        (r.state.traefikValues == values
         <==> others.Some? ==> Within(others.value - {"ports"}, values - {"ports"}))
  {
    DefaultHasPorts();
    hide Resolve, WellFormed, DefaultState, LiveTraefikValues, Layer, Within;
    WrittenMarker(s);
    SupersededSources(s, live, registryOverride);
    var base, values := DefaultState().traefik.helmValues, s.dependencies.value.traefik.helmValues;
    var others := LiveTraefikValues(live);
    NoLayer(base);
    if others.Some? {
      LayersOverValues(base, others.value, values);
    }
  }

  lemma DefaultHasPorts()
    ensures "ports" in DefaultState().traefik.helmValues
  {
  }

  lemma LayersOverValues(base: Fields, lower: Fields, values: Fields)
    requires Layer(base, Some(values)) == values && "ports" in base
    ensures Layer(Layer(base, Some(lower)), Some(values)) == values <==> Within(lower - {"ports"}, values - {"ports"})
  {
    var under := Layer(base, Some(lower));
    LayerWithoutPorts(base, lower);
    LayerWithoutPorts(base, values);
    LayerWithoutPorts(under, values);
    MergeAddsNothing(base - {"ports"}, values - {"ports"});
    MergeAddsNothing(under - {"ports"}, values - {"ports"});
    MergeWithin(base - {"ports"}, lower - {"ports"}, values - {"ports"});
    hide Layer, Within;
    var result := Layer(under, Some(values));
    if result - {"ports"} == values - {"ports"} {
      SameButFor(result, values, "ports");
    }
  }

  const NOTHING_LIVE := Live(map[], None, None, _ => None, _ => "")

  /** A class name without a dependency record is forgotten on an empty release. */
  lemma ClassNameIsForgotten()
    ensures
      var s := EMPTY_STATE.(domain := Some("d"), imageRegistry := Some("r"), ingressClassName := Some("nginx"));
      var r := Resolve(FromMarker(Encode(Some(s))), NOTHING_LIVE, None);
      WellFormed(s) && r.Resolved? && r.state.ingressClassName == "traefik"
  {
    var s := EMPTY_STATE.(domain := Some("d"), imageRegistry := Some("r"), ingressClassName := Some("nginx"));
    assert WellFormed(s);
    NothingLive();
    assert DefaultState().traefik.ingressClassName == "traefik";
    hide Resolve, WellFormed, LiveClassName, DefaultState, Encode, FromMarker, Obeys, ObeysDependencies;
    MarkerAuthority(s, NOTHING_LIVE, None);
    SupersededFieldsIff(s, NOTHING_LIVE, None);
    WrittenMarker(s);
    SupersededSources(s, NOTHING_LIVE, None);
  }

  lemma NothingLive()
    ensures LiveClassName(NOTHING_LIVE) == None
  {
  }

  /** The same for markers of older releases, which do hold the names: a name that is read from its own key is kept
      exactly if the dependency record names no other. */
  lemma OldMarkerNamesIff(d: Marker, live: Live, registryOverride: Option<string>)
    ensures
      var s, record := FromMarker(d), RecordOf(d);
      var r := Resolve(s, live, registryOverride);
      r.Resolved? ==>
        && (s.ingressClassName.Some? ==>
              (r.state.ingressClassName == s.ingressClassName.value
               <==> record.None? || record.value.ingressClassName.OrElse(s.ingressClassName.value) == s.ingressClassName.value))
        && (s.ingressControllerNamespace.Some? ==>
              (r.state.ingressControllerNamespace == s.ingressControllerNamespace.value
               <==> record.None?
                    || record.value.namespace.OrElse(s.ingressControllerNamespace.value) == s.ingressControllerNamespace.value))
  {
    var s := FromMarker(d);
    hide ReadString, ReadBool, ReadRecord, ReadStringMap, ResolvePool, DefaultState, Layer, DependencyLegacy;
    hide ImageRegistryFromRepository, InferPlatform, ResolveDomain, ResolveImageRegistry, ResolveMode;
  }

  /** What the dependency record of a marker says about the ingress controller. */
  function RecordOf(d: Marker): Option<TraefikInput> {
    if d.dependencies_json.Some? && d.dependencies_json.value.Record? then d.dependencies_json.value.value.traefik else None
  }
}
