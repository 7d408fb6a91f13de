/** Where every plain field of a resolved installation comes from: the first source that has a value, in the installer's
    order, and otherwise the documented default. */
module ResolutionOrder {
  import opened Wrappers
  import opened ObjectPath
  import opened Traefik
  import opened DependencyState
  import opened InstallState
  import opened InstallResolve

  // What the release values say at a path.

  function TextAt(live: Live, path: seq<string>): Option<string> {
    match At(Some(Obj(live.values)), path)
    case Some(Str(s)) => if s == "" then None else Some(s)
    case _ => None
  }

  function FlagAt(live: Live, path: seq<string>): Option<bool> {
    match At(Some(Obj(live.values)), path)
    case Some(Bool(b)) => Some(b)
    case _ => None
  }

  function RecordAt(live: Live, path: seq<string>): Option<Fields> {
    match At(Some(Obj(live.values)), path)
    case Some(Obj(fields)) => Some(fields)
    case _ => None
  }

  /** The texts of a record that are not empty, if there is one. */
  function LabelsAt(live: Live, path: seq<string>): Option<map<string, string>> {
    match At(Some(Obj(live.values)), path)
    case Some(Obj(fields)) =>
      if exists k :: k in fields && fields[k].Str? && fields[k].s != "" then
        Some(map k | k in fields && fields[k].Str? && fields[k].s != "" :: fields[k].s)
      else None
    case _ => None
  }

  /** The first source that has a value. */
  function First<T>(sources: seq<Option<T>>): Option<T> {
    if sources == [] then None else if sources[0].Some? then sources[0] else First(sources[1..])
  }

  /** An empty text is no value. */
  function Filled(text: Option<string>): Option<string> {
    if text == Some("") then None else text
  }

  function FromIngress(live: Live): LiveIngress {
    if live.ingress.Some? then live.ingress.value else LiveIngress(None, None, None)
  }

  /** What a repository says about its registry: what stands before the workload's name, or, if it does not end in that,
      before its last segment, if there is anything. */
  predicate IsRegistryOf(repository: Option<string>, workload: string, registry: Option<string>) {
    if repository.None? || repository.value == "" then registry.None?
    else if EndsIn(repository.value, "/" + workload) then
      registry.Some? && repository.value == registry.value + "/" + workload
    else if registry.Some? then
      registry.value != "" && CutsLast(repository.value, registry.value)
    else
      '/' !in repository.value[1..]
  }

  predicate EndsIn(s: string, suffix: string) {
    |suffix| <= |s| && s[|s| - |suffix|..] == suffix
  }

  /** `head` is what stands before the last slash. */
  predicate CutsLast(s: string, head: string) {
    |head| < |s| && s[..|head|] == head && s[|head|] == '/' && '/' !in s[|head| + 1..]
  }

  lemma {:induction false} LastIndexIs(s: string)
    ensures -1 <= LastIndex(s, '/') < |s|
    ensures LastIndex(s, '/') >= 0 ==> s[LastIndex(s, '/')] == '/'
    ensures forall k | LastIndex(s, '/') < k < |s| :: s[k] != '/'
  {
    if s != "" {
      LastIndexIs(s[..|s| - 1]);
    }
  }

  lemma RepositoryIsRead(repository: Option<string>, workload: string)
    ensures IsRegistryOf(repository, workload, ImageRegistryFromRepository(repository, workload))
  {
    if repository.Some? && repository.value != "" {
      var s := repository.value;
      LastIndexIs(s);
      hide LastIndex;
      if EndsIn(s, "/" + workload) {
        var head := s[..|s| - |"/" + workload|];
        assert s == head + ("/" + workload) == head + "/" + workload;
      }
    }
  }

  /** And there is only one answer. */
  lemma RegistryIsUnique(repository: Option<string>, workload: string, a: Option<string>, b: Option<string>)
    requires IsRegistryOf(repository, workload, a) && IsRegistryOf(repository, workload, b)
    ensures a == b
  {
    if repository.Some? && repository.value != "" {
      var s := repository.value;
      if EndsIn(s, "/" + workload) {
        assert |a.value| == |b.value| && a.value == s[..|a.value|] && b.value == s[..|b.value|];
      } else {
        CutsDiffer(s);
      }
    }
  }

  lemma CutsDiffer(s: string)
    ensures forall x, y | CutsLast(s, x) && CutsLast(s, y) :: x == y
    ensures forall x | CutsLast(s, x) && x != "" :: '/' in s[1..]
  {
    forall x, y | CutsLast(s, x) && CutsLast(s, y) ensures x == y {
      NoLaterSlash(s, x, |y|);
      NoLaterSlash(s, y, |x|);
    }
    forall x | CutsLast(s, x) && x != "" ensures '/' in s[1..] {
      assert s[1..][|x| - 1] == '/';
    }
  }

  lemma NoLaterSlash(s: string, head: string, j: nat)
    requires CutsLast(s, head) && j < |s|
    ensures |head| < j ==> s[j] != '/'
  {
    if |head| < j {
      assert s[|head| + 1..][j - |head| - 1] == s[j];
    }
  }

  lemma ReadersAgree(live: Live, path: seq<string>)
    ensures ReadString(Some(Obj(live.values)), path) == TextAt(live, path)
    ensures ReadBool(Some(Obj(live.values)), path) == FlagAt(live, path)
    ensures ReadRecord(Some(Obj(live.values)), path) == RecordAt(live, path)
    ensures ReadStringMap(Some(Obj(live.values)), path) == LabelsAt(live, path)
  {
    var value := At(Some(Obj(live.values)), path);
    hide At;
    if value.Some? && value.value.Obj? {
      var fields := value.value.fields;
      var entries := map k | k in fields && fields[k].Str? && fields[k].s != "" :: fields[k].s;
      if k :| k in fields && fields[k].Str? && fields[k].s != "" {
        assert k in entries;
      } else {
        assert entries == map[];
      }
    }
  }

  // Where the fields come from.

  function Domain(marker: State, live: Live): Option<string> {
    var url := TextAt(live, ["api", "env", "APP_BASE_URL"]);
    Filled(First([marker.domain,
                  TextAt(live, ["ingress", "host"]),
                  if url.Some? then live.hostOfUrl(url.value) else None,
                  FromIngress(live).host]))
  }

  /** The registry of the images, given what the two workloads' repositories say. */
  function ImageRegistry(marker: State, live: Live, registryOverride: Option<string>, api: Option<string>,
                         worker: Option<string>): Option<string>
  {
    Filled(First([registryOverride, marker.imageRegistry, api, worker, live.imageRegistry]))
  }

  function Mode(marker: State, live: Live): Option<RegistryMode> {
    First([marker.registryMode,
           if FlagAt(live, ["registry", "enabled"]) == Some(true) then Some(Platform) else None,
           if TextAt(live, ["builds", "registry", "endpoint"]).Some? then Some(External) else None,
           if FlagAt(live, ["registry", "enabled"]) == Some(false) then Some(Unconfigured) else None,
           Some(Platform)])
  }

  function ClusterIssuer(marker: State, live: Live): Option<string> {
    Filled(First([marker.clusterIssuerName,
                  TextAt(live, ["certManager", "clusterIssuer", "name"]),
                  TextAt(live, ["workloadIngress", "clusterIssuer"]),
                  TextAt(live, ["ingress", "annotations", "cert-manager.io/cluster-issuer"]),
                  FromIngress(live).clusterIssuerName]))
  }

  /** The fields whose sources are texts and records of the release. */
  predicate PlainSources(r: Installed, marker: State, live: Live) {
    && r.storageClass == Filled(First([marker.storageClass,
                                       TextAt(live, ["postgres", "storage", "storageClassName"]),
                                       TextAt(live, ["workloadStorage", "storageClassName"])]))
    && r.nodeSelector == First([marker.nodeSelector,
                                LabelsAt(live, ["api", "nodeSelector"]),
                                LabelsAt(live, ["worker", "nodeSelector"])])
    && Some(r.ha) == First([marker.ha, FlagAt(live, ["ha", "enabled"]), Some(false)])
    && r.tenantPodSecurity == First([marker.tenantPodSecurity, TextAt(live, ["tenants", "podSecurity"])])
    && r.tenantRuntimeClass == First([marker.tenantRuntimeClass, TextAt(live, ["tenants", "runtimeClass", "default"])])
    && r.clusterIssuerName == ClusterIssuer(marker, live)
    && r.upcloudAutoscaling == marker.upcloudAutoscaling
    && r.clusterDnsPolicy == marker.clusterDnsPolicy
  }

  predicate IsHetzner(labels: Option<map<string, string>>) {
    labels.Some? && "cfke.io/provider" in labels.value && labels.value["cfke.io/provider"] == "hetzner"
  }

  /** Those that depend on other fields. */
  predicate DerivedSources(r: Installed, marker: State, live: Live) {
    && Some(r.registryMode) == Mode(marker, live)
    && Some(r.registryIngressEnabled) == First([
         marker.registryIngressEnabled,
         if r.registryMode == Platform then FlagAt(live, ["registry", "ingress", "enabled"]) else None,
         Some(false)])
    && r.registryClusterIssuer == Filled(First([
         marker.registryClusterIssuer,
         TextAt(live, ["registry", "ingress", "clusterIssuer"]),
         if r.registryIngressEnabled then r.clusterIssuerName else None]))
    && Some(r.registryInsecure) == First([
         marker.registryInsecure,
         FlagAt(live, ["builds", "registry", "insecure"]),
         Some(r.registryMode == Platform && (!r.registryIngressEnabled || r.registryClusterIssuer.None?))])
    && Some(r.registryHost) == First([
         marker.registryHost,
         TextAt(live, ["registry", "ingress", "host"]),
         TextAt(live, ["builds", "registry", "endpoint"]),
         Some(if r.registryMode == Platform then live.registryHostOf(r.domain) else "")])
    && Some(r.platformId) == First([
         marker.platformId,
         if IsHetzner(First([marker.nodeSelector, LabelsAt(live, ["api", "nodeSelector"])])) then Some("cloudfleet-hetzner")
         else None,
         Some("unknown")])
  }

  /** A pool of the settings: whole numbers, ports from 1024 to 65535, at most a hundred of them. */
  predicate PoolAllowed(pool: TcpPortPool) {
    && pool.start == pool.start.Floor as real && pool.size == pool.size.Floor as real
    && 1024.0 <= pool.start && 1.0 <= pool.size <= 100.0 && pool.start + pool.size <= 65536.0
  }

  /** The pool of a record: field by field over the default one, or the default as a whole. */
  predicate PoolSources(pool: TcpPortPool, record: Option<Fields>) {
    var fields := record.OrElse(map[]);
    var given := TcpPortPool(
      match Field(fields, "enabled") { case Some(Bool(b)) => b case _ => true },
      match Field(fields, "start") { case Some(Num(n)) => n case _ => 30100.0 },
      match Field(fields, "size") { case Some(Num(n)) => n case _ => 20.0 });
    pool == if PoolAllowed(given) then given else TcpPortPool(true, 30100.0, 20.0)
  }

  // The order is kept.

  lemma FirstOfTwo<T>(a: Option<T>, b: Option<T>)
    ensures First([a, b]) == FirstOf(a, b)
  {
    assert [a, b][1..] == [b] && [b][1..] == [];
    assert First([b]) == b;
  }

  lemma FirstOfThree<T>(a: Option<T>, b: Option<T>, c: Option<T>)
    ensures First([a, b, c]) == FirstOf(FirstOf(a, b), c)
  {
    FirstOfTwo(b, c);
    assert [a, b, c][1..] == [b, c];
  }

  lemma FirstOfFour<T>(a: Option<T>, b: Option<T>, c: Option<T>, d: Option<T>)
    ensures First([a, b, c, d]) == FirstOf(FirstOf(FirstOf(a, b), c), d)
  {
    FirstOfThree(b, c, d);
    assert [a, b, c, d][1..] == [b, c, d];
  }

  lemma FirstOfFive<T>(a: Option<T>, b: Option<T>, c: Option<T>, d: Option<T>, e: Option<T>)
    ensures First([a, b, c, d, e]) == FirstOf(FirstOf(FirstOf(FirstOf(a, b), c), d), e)
  {
    FirstOfFour(b, c, d, e);
    assert [a, b, c, d, e][1..] == [b, c, d, e];
  }

  lemma DomainInOrder(marker: State, live: Live)
    ensures ResolveDomain(marker, live) == Domain(marker, live)
  {
    hide ReadString, TextAt, First;
    ReadersAgree(live, ["api", "env", "APP_BASE_URL"]);
    ReadersAgree(live, ["ingress", "host"]);
    var url := TextAt(live, ["api", "env", "APP_BASE_URL"]);
    FirstOfFour(marker.domain, TextAt(live, ["ingress", "host"]),
                if url.Some? then live.hostOfUrl(url.value) else None, FromIngress(live).host);
  }

  lemma RegistryInOrder(marker: State, live: Live, registryOverride: Option<string>, api: Option<string>,
                        worker: Option<string>)
    requires IsRegistryOf(TextAt(live, ["api", "image", "repository"]), "api", api)
    requires IsRegistryOf(TextAt(live, ["worker", "image", "repository"]), "worker", worker)
    ensures ResolveImageRegistry(marker, live, registryOverride) == ImageRegistry(marker, live, registryOverride, api, worker)
  {
    hide ReadString, TextAt, First, ImageRegistryFromRepository, IsRegistryOf;
    var ofApi, ofWorker := TextAt(live, ["api", "image", "repository"]), TextAt(live, ["worker", "image", "repository"]);
    ReadersAgree(live, ["api", "image", "repository"]);
    ReadersAgree(live, ["worker", "image", "repository"]);
    RepositoryIsRead(ofApi, "api");
    RepositoryIsRead(ofWorker, "worker");
    RegistryIsUnique(ofApi, "api", api, ImageRegistryFromRepository(ofApi, "api"));
    RegistryIsUnique(ofWorker, "worker", worker, ImageRegistryFromRepository(ofWorker, "worker"));
    FirstOfFive(registryOverride, marker.imageRegistry, api, worker, live.imageRegistry);
  }

  lemma ModeInOrder(marker: State, live: Live)
    ensures Mode(marker, live) == Some(ResolveMode(marker, live))
  {
    hide ReadString, ReadBool, TextAt, FlagAt, First;
    ReadersAgree(live, ["registry", "enabled"]);
    ReadersAgree(live, ["builds", "registry", "endpoint"]);
    FirstOfFive(marker.registryMode,
                if FlagAt(live, ["registry", "enabled"]) == Some(true) then Some(Platform) else None,
                if TextAt(live, ["builds", "registry", "endpoint"]).Some? then Some(External) else None,
                if FlagAt(live, ["registry", "enabled"]) == Some(false) then Some(Unconfigured) else None,
                Some(Platform));
  }

  lemma PoolInOrder(record: Option<Fields>)
    ensures PoolSources(ResolvePool(record), record)
  {
  }

  lemma IssuerInOrder(marker: State, live: Live)
    ensures
      var root := Some(Obj(live.values));
      NonEmpty(FirstOf(FirstOf(FirstOf(FirstOf(marker.clusterIssuerName,
                                               ReadString(root, ["certManager", "clusterIssuer", "name"])),
                                       ReadString(root, ["workloadIngress", "clusterIssuer"])),
                               ReadString(root, ["ingress", "annotations", "cert-manager.io/cluster-issuer"])),
                       if live.ingress.Some? then live.ingress.value.clusterIssuerName else None))
      == ClusterIssuer(marker, live)
  {
    hide ReadString, TextAt, First;
    ReadersAgree(live, ["certManager", "clusterIssuer", "name"]);
    ReadersAgree(live, ["workloadIngress", "clusterIssuer"]);
    ReadersAgree(live, ["ingress", "annotations", "cert-manager.io/cluster-issuer"]);
    FirstOfFive(marker.clusterIssuerName, TextAt(live, ["certManager", "clusterIssuer", "name"]),
                TextAt(live, ["workloadIngress", "clusterIssuer"]),
                TextAt(live, ["ingress", "annotations", "cert-manager.io/cluster-issuer"]), FromIngress(live).clusterIssuerName);
  }

  lemma PlainInOrder(marker: State, live: Live, registryOverride: Option<string>)
    ensures
      var r := Resolve(marker, live, registryOverride);
      r.Resolved? ==> PlainSources(r.state, marker, live)
  {
    hide ReadString, ReadBool, ReadRecord, ReadStringMap, TextAt, FlagAt, RecordAt, LabelsAt, First, ClusterIssuer;
    hide ResolveDependencies, DependencyLegacy, ResolveDomain, ResolveImageRegistry, ResolveMode, ResolvePool, InferPlatform;
    IssuerInOrder(marker, live);
    ReadersAgree(live, ["postgres", "storage", "storageClassName"]);
    ReadersAgree(live, ["workloadStorage", "storageClassName"]);
    FirstOfThree(marker.storageClass, TextAt(live, ["postgres", "storage", "storageClassName"]),
                 TextAt(live, ["workloadStorage", "storageClassName"]));
    ReadersAgree(live, ["api", "nodeSelector"]);
    ReadersAgree(live, ["worker", "nodeSelector"]);
    FirstOfThree(marker.nodeSelector, LabelsAt(live, ["api", "nodeSelector"]), LabelsAt(live, ["worker", "nodeSelector"]));
    ReadersAgree(live, ["ha", "enabled"]);
    FirstOfThree(marker.ha, FlagAt(live, ["ha", "enabled"]), Some(false));
    ReadersAgree(live, ["tenants", "podSecurity"]);
    FirstOfTwo(marker.tenantPodSecurity, TextAt(live, ["tenants", "podSecurity"]));
    ReadersAgree(live, ["tenants", "runtimeClass", "default"]);
    FirstOfTwo(marker.tenantRuntimeClass, TextAt(live, ["tenants", "runtimeClass", "default"]));
  }

  /** What the derived fields are computed from. */
  lemma DerivedFields(marker: State, live: Live, registryOverride: Option<string>)
    ensures
      var r, root := Resolve(marker, live, registryOverride), Some(Obj(live.values));
      r.Resolved? ==>
        var s := r.state;
        && s.registryMode == ResolveMode(marker, live)
        && s.registryIngressEnabled == marker.registryIngressEnabled.OrElse(
             s.registryMode.Platform? && ReadBool(root, ["registry", "ingress", "enabled"]).OrElse(false))
        && s.registryClusterIssuer == NonEmpty(FirstOf(FirstOf(marker.registryClusterIssuer,
                                                               ReadString(root, ["registry", "ingress", "clusterIssuer"])),
                                                       if s.registryIngressEnabled then s.clusterIssuerName else None))
        && s.registryInsecure == FirstOf(marker.registryInsecure, ReadBool(root, ["builds", "registry", "insecure"]))
             .OrElse(s.registryMode.Platform? && (!s.registryIngressEnabled || s.registryClusterIssuer.None?))
        && s.registryHost == FirstOf(FirstOf(marker.registryHost, ReadString(root, ["registry", "ingress", "host"])),
                                     ReadString(root, ["builds", "registry", "endpoint"]))
             .OrElse(if s.registryMode.Platform? then live.registryHostOf(s.domain) else "")
        && s.platformId == FirstOf(marker.platformId,
                                   InferPlatform(FirstOf(marker.nodeSelector, ReadStringMap(root, ["api", "nodeSelector"]))))
             .OrElse("unknown")
        && s.tcpPortPool == marker.tcpPortPool.OrElse(ResolvePool(ReadRecord(root, ["workloadIngress", "tcpPortPool"])))
  {
    hide ReadString, ReadBool, ReadRecord, ReadStringMap;
    hide ResolveDependencies, DependencyLegacy, ResolveDomain, ResolveImageRegistry, ResolveMode, ResolvePool, InferPlatform;
  }

  lemma DerivedInOrder(marker: State, live: Live, registryOverride: Option<string>)
    ensures
      var r := Resolve(marker, live, registryOverride);
      r.Resolved? ==> DerivedSources(r.state, marker, live)
  {
    hide Resolve, ReadString, ReadBool, ReadStringMap, TextAt, FlagAt, LabelsAt, First, Mode, ResolveMode;
    DerivedFields(marker, live, registryOverride);
    ModeInOrder(marker, live);
    var r := Resolve(marker, live, registryOverride);
    if r.Resolved? {
      RegistryFieldsInOrder(r.state, marker, live);
      PlatformInOrder(r.state, marker, live);
    }
  }

  lemma RegistryFieldsInOrder(s: Installed, marker: State, live: Live)
    ensures
      var root := Some(Obj(live.values));
      First([marker.registryIngressEnabled,
             if s.registryMode == Platform then FlagAt(live, ["registry", "ingress", "enabled"]) else None, Some(false)])
      == Some(marker.registryIngressEnabled.OrElse(
           s.registryMode.Platform? && ReadBool(root, ["registry", "ingress", "enabled"]).OrElse(false)))
    ensures
      var root := Some(Obj(live.values));
      First([marker.registryClusterIssuer, TextAt(live, ["registry", "ingress", "clusterIssuer"]),
             if s.registryIngressEnabled then s.clusterIssuerName else None])
      == FirstOf(FirstOf(marker.registryClusterIssuer, ReadString(root, ["registry", "ingress", "clusterIssuer"])),
                 if s.registryIngressEnabled then s.clusterIssuerName else None)
    ensures
      var root := Some(Obj(live.values));
      var insecure := s.registryMode.Platform? && (!s.registryIngressEnabled || s.registryClusterIssuer.None?);
      First([marker.registryInsecure, FlagAt(live, ["builds", "registry", "insecure"]), Some(insecure)])
      == Some(FirstOf(marker.registryInsecure, ReadBool(root, ["builds", "registry", "insecure"])).OrElse(insecure))
  {
    hide ReadString, ReadBool, TextAt, FlagAt, First;
    ReadersAgree(live, ["registry", "ingress", "enabled"]);
    ReadersAgree(live, ["registry", "ingress", "clusterIssuer"]);
    ReadersAgree(live, ["builds", "registry", "insecure"]);
    FirstOfThree(marker.registryIngressEnabled,
                 if s.registryMode == Platform then FlagAt(live, ["registry", "ingress", "enabled"]) else None, Some(false));
    FirstOfThree(marker.registryClusterIssuer, TextAt(live, ["registry", "ingress", "clusterIssuer"]),
                 if s.registryIngressEnabled then s.clusterIssuerName else None);
    var insecure := s.registryMode.Platform? && (!s.registryIngressEnabled || s.registryClusterIssuer.None?);
    FirstOfThree(marker.registryInsecure, FlagAt(live, ["builds", "registry", "insecure"]), Some(insecure));
  }

  lemma PlatformInOrder(s: Installed, marker: State, live: Live)
    ensures
      var root, host := Some(Obj(live.values)), if s.registryMode.Platform? then live.registryHostOf(s.domain) else "";
      First([marker.registryHost, TextAt(live, ["registry", "ingress", "host"]),
             TextAt(live, ["builds", "registry", "endpoint"]), Some(host)])
      == Some(FirstOf(FirstOf(marker.registryHost, ReadString(root, ["registry", "ingress", "host"])),
                      ReadString(root, ["builds", "registry", "endpoint"])).OrElse(host))
    ensures
      var root := Some(Obj(live.values));
      First([marker.platformId,
             if IsHetzner(First([marker.nodeSelector, LabelsAt(live, ["api", "nodeSelector"])])) then Some("cloudfleet-hetzner")
             else None,
             Some("unknown")])
      == Some(FirstOf(marker.platformId,
                      InferPlatform(FirstOf(marker.nodeSelector, ReadStringMap(root, ["api", "nodeSelector"]))))
                .OrElse("unknown"))
  {
    hide ReadString, ReadStringMap, TextAt, LabelsAt, First;
    ReadersAgree(live, ["registry", "ingress", "host"]);
    ReadersAgree(live, ["builds", "registry", "endpoint"]);
    ReadersAgree(live, ["api", "nodeSelector"]);
    FirstOfFour(marker.registryHost, TextAt(live, ["registry", "ingress", "host"]),
                TextAt(live, ["builds", "registry", "endpoint"]),
                Some(if s.registryMode.Platform? then live.registryHostOf(s.domain) else ""));
    FirstOfTwo(marker.nodeSelector, LabelsAt(live, ["api", "nodeSelector"]));
    FirstOfThree(marker.platformId,
                 if IsHetzner(First([marker.nodeSelector, LabelsAt(live, ["api", "nodeSelector"])])) then
                   Some("cloudfleet-hetzner")
                 else None,
                 Some("unknown"));
  }

  /** The order of the sources, for every marker, release and cluster: when there is no domain or no image registry, and
      otherwise where every plain field comes from. */
  lemma FieldsInOrder(marker: State, live: Live, registryOverride: Option<string>, api: Option<string>,
                      worker: Option<string>)
    requires IsRegistryOf(TextAt(live, ["api", "image", "repository"]), "api", api)
    requires IsRegistryOf(TextAt(live, ["worker", "image", "repository"]), "worker", worker)
    ensures
      var r := Resolve(marker, live, registryOverride);
      var domain, images := Domain(marker, live), ImageRegistry(marker, live, registryOverride, api, worker);
      && (r.NoDomain? <==> domain.None?)
      && (r.NoImageRegistry? <==> domain.Some? && images.None?)
      && (r.Resolved? ==>
            && Some(r.state.domain) == domain && Some(r.state.imageRegistry) == images
            && PlainSources(r.state, marker, live) && DerivedSources(r.state, marker, live)
            && (marker.tcpPortPool.Some? ==> r.state.tcpPortPool == marker.tcpPortPool.value)
            && (marker.tcpPortPool.None? ==>
                  PoolSources(r.state.tcpPortPool, RecordAt(live, ["workloadIngress", "tcpPortPool"]))))
  {
    DomainInOrder(marker, live);
    RegistryInOrder(marker, live, registryOverride, api, worker);
    PlainInOrder(marker, live, registryOverride);
    DerivedInOrder(marker, live, registryOverride);
    DerivedFields(marker, live, registryOverride);
    ReadersAgree(live, ["workloadIngress", "tcpPortPool"]);
    PoolInOrder(RecordAt(live, ["workloadIngress", "tcpPortPool"]));
    ResolutionFails(marker, live, registryOverride);
    hide *;
  }

  lemma ResolutionFails(marker: State, live: Live, registryOverride: Option<string>)
    ensures
      var r := Resolve(marker, live, registryOverride);
      var domain, images := ResolveDomain(marker, live), ResolveImageRegistry(marker, live, registryOverride);
      && (r.NoDomain? <==> domain.None?) && (r.NoImageRegistry? <==> domain.Some? && images.None?)
      && (r.Resolved? ==> Some(r.state.domain) == domain && Some(r.state.imageRegistry) == images)
  {
    hide ReadString, ReadBool, ReadRecord, ReadStringMap;
    hide ResolveDependencies, DependencyLegacy, ResolveDomain, ResolveImageRegistry, ResolveMode, ResolvePool, InferPlatform;
  }

  /** The names and values of the ingress controller, for a marker without a dependency record. */
  lemma ControllerInOrder(marker: State, live: Live, registryOverride: Option<string>)
    requires marker.dependencies.None?
    ensures
      var r := Resolve(marker, live, registryOverride);
      r.Resolved? ==>
        && r.state.ingressClassName == Filled(First([
             Filled(marker.ingressClassName),
             TextAt(live, ["ingress", "className"]),
             TextAt(live, ["workloadIngress", "className"]),
             if marker.ingressClassName == Some("") then None else FromIngress(live).className])).OrElse("traefik")
        && r.state.ingressControllerNamespace == First([
             Filled(marker.ingressControllerNamespace),
             TextAt(live, ["workloadIngress", "controllerNamespace"])]).OrElse("traefik")
        && r.state.traefikValues == Layer(DefaultState().traefik.helmValues, First([
             marker.traefikValues, RecordAt(live, ["update", "dependencies", "traefik", "values"])]))
  {
    hide Resolve, ReadString, ReadRecord, TextAt, RecordAt, First, Layer;
    ResolvedFields(marker, live, registryOverride);
    DefaultNames();
    hide DefaultState;
    ReadersAgree(live, ["ingress", "className"]);
    ReadersAgree(live, ["workloadIngress", "className"]);
    ReadersAgree(live, ["workloadIngress", "controllerNamespace"]);
    ReadersAgree(live, ["update", "dependencies", "traefik", "values"]);
    TextIsFilled(live, ["ingress", "className"]);
    TextIsFilled(live, ["workloadIngress", "className"]);
    TextIsFilled(live, ["workloadIngress", "controllerNamespace"]);
    FirstOfFour(Filled(marker.ingressClassName), TextAt(live, ["ingress", "className"]),
                TextAt(live, ["workloadIngress", "className"]),
                if marker.ingressClassName == Some("") then None else FromIngress(live).className);
    FirstOfTwo(Filled(marker.ingressControllerNamespace), TextAt(live, ["workloadIngress", "controllerNamespace"]));
    FirstOfTwo(marker.traefikValues, RecordAt(live, ["update", "dependencies", "traefik", "values"]));
    NoLayer(DefaultState().traefik.helmValues);
  }

  lemma TextIsFilled(live: Live, path: seq<string>)
    ensures TextAt(live, path) != Some("")
  {
  }

  lemma DefaultNames()
    ensures DefaultState().traefik.ingressClassName == "traefik" && DefaultState().traefik.namespace == "traefik"
    ensures DefaultState().traefik.releaseName == "traefik"
  {
  }
}
