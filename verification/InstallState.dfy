/** The install marker: how an installation's settings are written to a config map, read back, and combined
    with what the live release says. JSON texts are represented by what parsing them yields. */
module InstallState {
  import opened Wrappers
  import opened Text
  import opened ObjectPath
  import opened Traefik
  import opened DependencyState

  datatype RegistryMode = Unconfigured | Platform | External

  datatype NodeGroup = NodeGroup(name: string, min: int, max: int)

  datatype Autoscaling = Autoscaling(enabled: bool, clusterUuid: string, nodeGroups: Option<seq<NodeGroup>>)

  datatype DnsPolicy = DnsPolicy(namespace: string, podLabels: map<string, string>, serviceIp: string)

  /** A partially known install state. */
  datatype State = State(
    domain: Option<string>,
    imageRegistry: Option<string>,
    registryHost: Option<string>,
    platformId: Option<string>,
    ingressClassName: Option<string>,
    ingressControllerNamespace: Option<string>,
    storageClass: Option<string>,
    nodeSelector: Option<map<string, string>>,
    traefikValues: Option<Fields>,
    dependencies: Option<DependencyMap>,
    ha: Option<bool>,
    tenantPodSecurity: Option<string>,
    tenantRuntimeClass: Option<string>,
    registryMode: Option<RegistryMode>,
    registryInsecure: Option<bool>,
    registryIngressEnabled: Option<bool>,
    registryClusterIssuer: Option<string>,
    clusterIssuerName: Option<string>,
    upcloudAutoscaling: Option<Autoscaling>,
    tcpPortPool: Option<TcpPortPool>,
    clusterDnsPolicy: Option<DnsPolicy>)

  const EMPTY_STATE := State(
    None, None, None, None, None, None, None, None, None, None, None,
    None, None, None, None, None, None, None, None, None, None)

  /** A JSON text under some key: not parseable (or empty), or the tree it parses to. */
  datatype JsonText = Malformed | Parsed(value: Json)

  /** The text of the dependency record, which is used without validation once it parses to a record. */
  datatype DependencyText = NoRecord | Record(value: DependencyInput)

  /** The marker's data, one field per key; the keys from `ingress_class_name` on are only read. */
  datatype Marker = Marker(
    domain: Option<string>,
    image_registry: Option<string>,
    registry_host: Option<string>,
    platform_id: Option<string>,
    storage_class: Option<string>,
    node_selector_json: Option<JsonText>,
    ha_enabled: Option<string>,
    tenant_pod_security: Option<string>,
    tenant_runtime_class: Option<string>,
    registry_mode: Option<string>,
    registry_insecure: Option<string>,
    registry_ingress_enabled: Option<string>,
    registry_cluster_issuer: Option<string>,
    cluster_issuer_name: Option<string>,
    dependencies_json: Option<DependencyText>,
    upcloud_autoscaling_json: Option<JsonText>,
    tcp_port_pool_json: Option<JsonText>,
    cluster_dns_policy_json: Option<JsonText>,
    ingress_class_name: Option<string>,
    ingress_controller_namespace: Option<string>,
    traefik_values_json: Option<JsonText>)

  const EMPTY_MARKER := Marker(
    None, None, None, None, None, None, None, None, None, None, None,
    None, None, None, None, None, None, None, None, None, None)

  function Boolean(b: bool): string {
    if b then "true" else "false"
  }

  function ModeName(mode: RegistryMode): string {
    match mode
    case Unconfigured => "unconfigured"
    case Platform => "platform"
    case External => "external"
  }

  function ParseRegistryMode(value: Option<string>): Option<RegistryMode> {
    if value == Some("unconfigured") then Some(Unconfigured)
    else if value == Some("platform") then Some(Platform)
    else if value == Some("external") then Some(External)
    else None
  }

  function StringMapJson(m: map<string, string>): Json {
    Obj(map k | k in m :: Str(m[k]))
  }

  function NodeGroupJson(g: NodeGroup): Json {
    Obj(map["name" := Str(g.name), "min" := Num(g.min as real), "max" := Num(g.max as real)])
  }

  function AutoscalingJson(a: Autoscaling): Json {
    var fields: Fields := map["enabled" := Bool(a.enabled), "clusterUuid" := Str(a.clusterUuid)];
    Obj(if a.nodeGroups.None? then fields
        else fields["nodeGroups" := Arr(seq(|a.nodeGroups.value|, i requires 0 <= i < |a.nodeGroups.value| =>
                                              NodeGroupJson(a.nodeGroups.value[i])))])
  }

  function DnsPolicyJson(p: DnsPolicy): Json {
    Obj(map["namespace" := Str(p.namespace), "podLabels" := StringMapJson(p.podLabels), "serviceIp" := Str(p.serviceIp)])
  }

  function ParseObject(raw: Option<JsonText>): Option<Fields> {
    if raw.Some? && raw.value.Parsed? && raw.value.value.Obj? then Some(raw.value.value.fields) else None
  }

  /** The string entries of a record, if there are any. */
  function ParseStringRecord(raw: Option<JsonText>): Option<map<string, string>> {
    var parsed := ParseObject(raw);
    if parsed.None? then None
    else
      var fields := parsed.value;
      var entries := map k | k in fields && fields[k].Str? :: fields[k].s;
      if entries == map[] then None else Some(entries)
  }

  predicate ValidGroup(g: NodeGroup) {
    g.name != "" && Tight(g.name) && 0 <= g.min <= g.max
  }

  /** One node group, unless its name is blank or its bounds are not whole numbers in order. */
  function ParseNodeGroup(item: Json): Option<NodeGroup> {
    if !item.Obj? then None
    else
      var name := if "name" in item.fields && item.fields["name"].Str? then Trim(item.fields["name"].s) else "";
      if name == "" || !HasWhole(item.fields, "min") || !HasWhole(item.fields, "max") then None
      else
        var min, max := item.fields["min"].n.Floor, item.fields["max"].n.Floor;
        if min < 0 || max < min then None else Some(NodeGroup(name, min, max))
  }

  predicate HasWhole(fields: Fields, key: string) {
    key in fields && fields[key].Num? && IsInteger(fields[key].n)
  }

  function NodeGroups(items: seq<Json>): seq<NodeGroup> {
    if items == [] then []
    else
      var group := ParseNodeGroup(items[0]);
      (if group.Some? then [group.value] else []) + NodeGroups(items[1..])
  }

  function ParseNodeGroups(raw: Option<Json>): Option<seq<NodeGroup>> {
    if raw.Some? && raw.value.Arr? && NodeGroups(raw.value.items) != [] then Some(NodeGroups(raw.value.items)) else None
  }

  method ParseUpcloudNodeGroups(raw: Option<Json>) returns (groups: Option<seq<NodeGroup>>)
    ensures groups == ParseNodeGroups(raw)
  {
    hide ParseNodeGroup;
    if raw.None? || !raw.value.Arr? {
      return None;
    }
    var items := raw.value.items;
    var found: seq<NodeGroup> := [];
    assert items[0..] == items;
    for i := 0 to |items|
      invariant found + NodeGroups(items[i..]) == NodeGroups(items)
    {
      assert items[i..][1..] == items[i + 1..];
      var group := ParseNodeGroup(items[i]);
      if group.None? {
        continue;
      }
      found := found + [group.value];
    }
    assert items[|items|..] == [] && found + [] == found;
    groups := if found == [] then None else Some(found);
  }

  function ParseAutoscaling(raw: Option<JsonText>): Option<Autoscaling> {
    var parsed := ParseObject(raw);
    if parsed.None? then None
    else
      var fields := parsed.value;
      if !("enabled" in fields && fields["enabled"].Bool?) then None
      else if !("clusterUuid" in fields && fields["clusterUuid"].Str? && Trim(fields["clusterUuid"].s) != "") then None
      else Some(Autoscaling(fields["enabled"].b, fields["clusterUuid"].s, ParseNodeGroups(Field(fields, "nodeGroups"))))
  }

  function ParseTcpPortPool(raw: Option<JsonText>): Option<TcpPortPool> {
    var parsed := ParseObject(raw);
    if parsed.None? then None else Some(ResolvePool(parsed))
  }

  function ParseDnsPolicy(raw: Option<JsonText>): Option<DnsPolicy> {
    var parsed := ParseObject(raw);
    if parsed.None? then None
    else
      var fields := parsed.value;
      if !("namespace" in fields && fields["namespace"].Str?) || !("serviceIp" in fields && fields["serviceIp"].Str?) then None
      else
        var podLabels := ReadStringMap(Some(Obj(fields)), ["podLabels"]);
        if podLabels.None? then None
        else Some(DnsPolicy(fields["namespace"].s, podLabels.value, fields["serviceIp"].s))
  }

  /** `encodeInstallStateData`. */
  function Encode(state: Option<State>): Marker {
    if state.None? then EMPTY_MARKER
    else
      var s := state.value;
      Marker(
        NonEmpty(s.domain),
        NonEmpty(s.imageRegistry),
        NonEmpty(s.registryHost),
        NonEmpty(s.platformId),
        NonEmpty(s.storageClass),
        if s.nodeSelector.None? then None else Some(Parsed(StringMapJson(s.nodeSelector.value))),
        if s.ha.None? then None else Some(Boolean(s.ha.value)),
        s.tenantPodSecurity,
        s.tenantRuntimeClass,
        if s.registryMode.None? then None else Some(ModeName(s.registryMode.value)),
        if s.registryInsecure.None? then None else Some(Boolean(s.registryInsecure.value)),
        if s.registryIngressEnabled.None? then None else Some(Boolean(s.registryIngressEnabled.value)),
        NonEmpty(s.registryClusterIssuer),
        NonEmpty(s.clusterIssuerName),
        if s.dependencies.None? then None
        else Some(Record(AsInput(ResolveDependencies(Some(AsInput(s.dependencies.value)), None, None, NO_LEGACY)))),
        if s.upcloudAutoscaling.None? then None else Some(Parsed(AutoscalingJson(s.upcloudAutoscaling.value))),
        if s.tcpPortPool.None? then None else Some(Parsed(Obj(PoolFields(s.tcpPortPool.value)))),
        if s.clusterDnsPolicy.None? then None else Some(Parsed(DnsPolicyJson(s.clusterDnsPolicy.value))),
        None, None, None)
  }

  /** Whether the marker holds any dependency data, of the current or of an older form. */
  predicate HasDependencyData(d: Marker) {
    || (d.dependencies_json.Some? && d.dependencies_json.value.Record?)
    || d.ingress_class_name.Some?
    || d.ingress_controller_namespace.Some?
    || ParseObject(d.traefik_values_json).Some?
  }

  function MarkerDependencies(d: Marker): Option<DependencyMap> {
    if !HasDependencyData(d) then None
    else Some(ResolveDependencies(
                if d.dependencies_json.Some? && d.dependencies_json.value.Record? then Some(d.dependencies_json.value.value)
                else None,
                None,
                None,
                Legacy(NonEmpty(d.ingress_class_name), NonEmpty(d.ingress_controller_namespace),
                       ParseObject(d.traefik_values_json))))
  }

  function Flag(value: Option<string>): Option<bool> {
    if value.None? then None else Some(value.value == "true")
  }

  /** The state a marker's keys describe. */
  function DecodeFields(d: Marker): State {
    State(
      NonEmpty(d.domain),
      NonEmpty(d.image_registry),
      NonEmpty(d.registry_host),
      NonEmpty(d.platform_id),
      NonEmpty(d.ingress_class_name),
      NonEmpty(d.ingress_controller_namespace),
      NonEmpty(d.storage_class),
      ParseStringRecord(d.node_selector_json),
      ParseObject(d.traefik_values_json),
      MarkerDependencies(d),
      Flag(d.ha_enabled),
      d.tenant_pod_security,
      d.tenant_runtime_class,
      ParseRegistryMode(d.registry_mode),
      Flag(d.registry_insecure),
      Flag(d.registry_ingress_enabled),
      NonEmpty(d.registry_cluster_issuer),
      NonEmpty(d.cluster_issuer_name),
      ParseAutoscaling(d.upcloud_autoscaling_json),
      ParseTcpPortPool(d.tcp_port_pool_json),
      ParseDnsPolicy(d.cluster_dns_policy_json))
  }

  /** `decodeInstallStateData` on data that is present. */
  function Decode(d: Marker): Option<State> {
    if d == EMPTY_MARKER || DecodeFields(d) == EMPTY_STATE then None else Some(DecodeFields(d))
  }

  // What writing and reading back does to each kind of field.

  lemma StringMapRoundTrip(m: map<string, string>)
    ensures ParseStringRecord(Some(Parsed(StringMapJson(m)))) == if m == map[] then None else Some(m)
  {
    var fields := StringMapJson(m).fields;
    var entries := map k | k in fields && fields[k].Str? :: fields[k].s;
    assert entries == m;
  }

  lemma ParsedStringRecordIsNonEmpty(raw: Option<JsonText>)
    ensures ParseStringRecord(raw) != Some(map[])
  {
  }

  lemma {:induction false} NodeGroupsRoundTrip(groups: seq<NodeGroup>, items: seq<Json>)
    requires |items| == |groups|
    requires forall i | 0 <= i < |groups| :: ValidGroup(groups[i]) && items[i] == NodeGroupJson(groups[i])
    ensures NodeGroups(items) == groups
  {
    if groups != [] {
      TrimTight(groups[0].name);
      assert items[0] == NodeGroupJson(groups[0]);
      NodeGroupsRoundTrip(groups[1..], items[1..]);
      assert [groups[0]] + groups[1..] == groups;
    }
  }

  lemma {:induction false} NodeGroupsAreValid(items: seq<Json>)
    ensures forall g | g in NodeGroups(items) :: ValidGroup(g)
  {
    if items != [] {
      NodeGroupsAreValid(items[1..]);
      if items[0].Obj? && "name" in items[0].fields && items[0].fields["name"].Str? {
        TrimIsTight(items[0].fields["name"].s);
      }
    }
  }

  predicate ValidAutoscaling(a: Autoscaling) {
    && Trim(a.clusterUuid) != ""
    && (a.nodeGroups.Some? ==> a.nodeGroups.value != [] && forall g | g in a.nodeGroups.value :: ValidGroup(g))
  }

  lemma AutoscalingRoundTrip(a: Autoscaling)
    requires ValidAutoscaling(a)
    ensures ParseAutoscaling(Some(Parsed(AutoscalingJson(a)))) == Some(a)
  {
    if a.nodeGroups.Some? {
      var groups := a.nodeGroups.value;
      var items := AutoscalingJson(a).fields["nodeGroups"].items;
      NodeGroupsRoundTrip(groups, items);
    }
  }

  lemma ParsedAutoscalingIsValid(raw: Option<JsonText>)
    ensures ParseAutoscaling(raw).Some? ==> ValidAutoscaling(ParseAutoscaling(raw).value)
  {
    var parsed := ParseObject(raw);
    if parsed.Some? && "nodeGroups" in parsed.value && parsed.value["nodeGroups"].Arr? {
      NodeGroupsAreValid(parsed.value["nodeGroups"].items);
    }
  }

  predicate ValidDnsPolicy(p: DnsPolicy) {
    p.podLabels != map[] && forall k | k in p.podLabels :: p.podLabels[k] != ""
  }

  lemma PathOfOne(fields: Fields, key: string)
    ensures At(Some(Obj(fields)), [key]) == Field(fields, key)
  {
  }

  lemma DnsPolicyRoundTrip(p: DnsPolicy)
    requires ValidDnsPolicy(p)
    ensures ParseDnsPolicy(Some(Parsed(DnsPolicyJson(p)))) == Some(p)
  {
    var fields := DnsPolicyJson(p).fields;
    PathOfOne(fields, "podLabels");
    var labels := StringMapJson(p.podLabels).fields;
    var entries := map k | k in labels && labels[k].Str? && labels[k].s != "" :: labels[k].s;
    assert entries == p.podLabels;
  }

  lemma ParsedDnsPolicyIsValid(raw: Option<JsonText>)
    ensures ParseDnsPolicy(raw).Some? ==> ValidDnsPolicy(ParseDnsPolicy(raw).value)
  {
  }

  lemma ParsedPoolIsValid(raw: Option<JsonText>)
    ensures ParseTcpPortPool(raw).Some? ==> ValidPool(ParseTcpPortPool(raw).value)
  {
  }

  /** The fields whose written form reads back to the same value. */
  predicate WellFormed(s: State) {
    && s.domain != Some("") && s.imageRegistry != Some("") && s.registryHost != Some("") && s.platformId != Some("")
    && s.storageClass != Some("") && s.registryClusterIssuer != Some("") && s.clusterIssuerName != Some("")
    && s.nodeSelector != Some(map[])
    && (s.upcloudAutoscaling.Some? ==> ValidAutoscaling(s.upcloudAutoscaling.value))
    && (s.tcpPortPool.Some? ==> ValidPool(s.tcpPortPool.value))
    && (s.clusterDnsPolicy.Some? ==> ValidDnsPolicy(s.clusterDnsPolicy.value))
  }

  /** What a marker keeps of a state: all but the fields the dependency record has taken over. */
  function Kept(s: State): State {
    s.(ingressClassName := None, ingressControllerNamespace := None, traefikValues := None,
       dependencies := if s.dependencies.None? then None else Some(Renormalise(Renormalise(s.dependencies.value))))
  }

  /** Everything that is read from a marker is well formed. */
  lemma DecodedIsWellFormed(d: Marker)
    ensures Decode(d).Some? ==> WellFormed(Decode(d).value)
  {
    ParsedStringRecordIsNonEmpty(d.node_selector_json);
    ParsedAutoscalingIsValid(d.upcloud_autoscaling_json);
    ParsedPoolIsValid(d.tcp_port_pool_json);
    ParsedDnsPolicyIsValid(d.cluster_dns_policy_json);
  }

  lemma ResolveMarkerOnly(state: DependencyMap)
    ensures ResolveDependencies(Some(AsInput(state)), None, None, NO_LEGACY) == Renormalise(state)
  {
  }

  lemma DependenciesRoundTrip(s: State)
    ensures MarkerDependencies(Encode(Some(s))) == Kept(s).dependencies
  {
    hide DefaultState;
    if s.dependencies.Some? {
      ResolveMarkerOnly(s.dependencies.value);
      ResolveMarkerOnly(Renormalise(s.dependencies.value));
    }
  }

  lemma EncodeIsEmpty(s: State)
    requires WellFormed(s) && Encode(Some(s)) == EMPTY_MARKER
    ensures Kept(s) == EMPTY_STATE
  {
  }

  lemma ModeRoundTrip(mode: RegistryMode)
    ensures ParseRegistryMode(Some(ModeName(mode))) == Some(mode)
  {
  }

  /** The fields written as JSON, one after the other. */
  lemma JsonFieldsRoundTrip(s: State)
    requires WellFormed(s)
    ensures ParseStringRecord(Encode(Some(s)).node_selector_json) == s.nodeSelector
    ensures ParseAutoscaling(Encode(Some(s)).upcloud_autoscaling_json) == s.upcloudAutoscaling
    ensures ParseTcpPortPool(Encode(Some(s)).tcp_port_pool_json) == s.tcpPortPool
    ensures ParseDnsPolicy(Encode(Some(s)).cluster_dns_policy_json) == s.clusterDnsPolicy
  {
    hide DefaultState, AutoscalingJson, DnsPolicyJson, StringMapJson, ParseAutoscaling, ParseDnsPolicy, ParseStringRecord;
    hide ResolvePool, PoolFields;
    if s.nodeSelector.Some? {
      StringMapRoundTrip(s.nodeSelector.value);
    }
    if s.upcloudAutoscaling.Some? {
      AutoscalingRoundTrip(s.upcloudAutoscaling.value);
    }
    if s.tcpPortPool.Some? {
      ResolvePoolRoundTrip(s.tcpPortPool.value);
    }
    if s.clusterDnsPolicy.Some? {
      DnsPolicyRoundTrip(s.clusterDnsPolicy.value);
    }
    NothingParses();
  }

  lemma NothingParses()
    ensures ParseStringRecord(None) == None && ParseAutoscaling(None) == None && ParseDnsPolicy(None) == None
  {
  }

  lemma PlainFieldsRoundTrip(s: State)
    requires WellFormed(s)
    ensures DecodeFields(Encode(Some(s))) ==
            Kept(s).(nodeSelector := ParseStringRecord(Encode(Some(s)).node_selector_json),
                     dependencies := MarkerDependencies(Encode(Some(s))),
                     upcloudAutoscaling := ParseAutoscaling(Encode(Some(s)).upcloud_autoscaling_json),
                     tcpPortPool := ParseTcpPortPool(Encode(Some(s)).tcp_port_pool_json),
                     clusterDnsPolicy := ParseDnsPolicy(Encode(Some(s)).cluster_dns_policy_json))
  {
    hide DefaultState, Renormalise, LayerState, ResolveDependencies, MarkerDependencies, AutoscalingJson, DnsPolicyJson;
    hide StringMapJson, ParseAutoscaling, ParseDnsPolicy, ParseStringRecord, ResolvePool, PoolFields;
    hide ValidAutoscaling, ValidDnsPolicy, ValidPool;
    if s.registryMode.Some? {
      ModeRoundTrip(s.registryMode.value);
    }
  }

  /** Encoding and decoding a well-formed state keeps every field, up to renormalised dependencies. */
  lemma EncodeDecode(s: State)
    requires WellFormed(s)
    ensures Decode(Encode(Some(s))) == if Kept(s) == EMPTY_STATE then None else Some(Kept(s))
  {
    JsonFieldsRoundTrip(s);
    DependenciesRoundTrip(s);
    PlainFieldsRoundTrip(s);
    if Encode(Some(s)) == EMPTY_MARKER {
      EncodeIsEmpty(s);
    }
    hide *;
    assert DecodeFields(Encode(Some(s))) == Kept(s);
  }

  function DependenciesOf(s: Option<State>): Option<DependencyMap> {
    if s.None? then None else s.value.dependencies
  }

  /** The legacy Helm values a marker holds, and those of its dependency record. */
  function LegacyValues(d: Marker): Option<Fields> {
    ParseObject(d.traefik_values_json)
  }

  function RecordValues(d: Marker): Option<Fields> {
    if d.dependencies_json.Some? && d.dependencies_json.value.Record? && d.dependencies_json.value.value.traefik.Some? then
      d.dependencies_json.value.value.traefik.value.helmValues
    else None
  }

  lemma RenormaliseIff(state: DependencyMap)
    ensures Renormalise(state) == state
            <==> Layer(DefaultState().traefik.helmValues, Some(state.traefik.helmValues)) == state.traefik.helmValues
  {
    DefaultRecords();
    hide DefaultState;
    var once := Renormalise(state);
    assert once.certManager == state.certManager && once.cnpg == state.cnpg;
  }

  lemma DefaultRecords()
    ensures DefaultState().certManager == map[] && DefaultState().cnpg == map[]
  {
  }

  lemma RenormaliseTwice(state: DependencyMap)
    ensures Renormalise(Renormalise(state)) == Renormalise(state)
  {
    hide DefaultState;
    LayerRenormalises(DefaultState().traefik.helmValues, state.traefik.helmValues);
  }

  lemma DecodedHelmValues(d: Marker)
    requires HasDependencyData(d)
    ensures MarkerDependencies(d).value.traefik.helmValues
            == Layer(Layer(DefaultState().traefik.helmValues, LegacyValues(d)), RecordValues(d))
  {
  }

  /** Marker migration: reading a marker of any age, writing it in the current form and reading it again gives
      the same dependencies for exactly the markers whose legacy values and dependency record, if both carry
      Helm values, agree in shape over the base values. */
  lemma MigrationIsLossless(d: Marker)
    ensures DependenciesOf(Decode(Encode(Decode(d)))) == DependenciesOf(Decode(d))
            <==> (LegacyValues(d).Some? && RecordValues(d).Some? ==>
                    LayersAgree(DefaultState().traefik.helmValues, LegacyValues(d).value, RecordValues(d).value))
  {
    var before, after := Decode(d), Decode(Encode(Decode(d)));
    if HasDependencyData(d) {
      assert before == Some(DecodeFields(d));
      var s := before.value;
      DecodedIsWellFormed(d);
      EncodeDecode(s);
      assert DependenciesOf(after) == Some(Renormalise(Renormalise(s.dependencies.value)));
      RenormaliseTwice(s.dependencies.value);
      RenormaliseIff(s.dependencies.value);
      DecodedHelmValues(d);
      LayeredValues(DefaultState().traefik.helmValues, LegacyValues(d), RecordValues(d));
    } else if before.Some? {
      DecodedIsWellFormed(d);
      EncodeDecode(before.value);
    }
  }

  /** A marker that migration changes: the legacy values put a number where the base and the record have records. */
  lemma MigrationCanChange()
    ensures
      var d := EMPTY_MARKER.(
        traefik_values_json := Some(Parsed(Obj(map["resources" := Num(5.0)]))),
        dependencies_json := Some(Record(DependencyInput(
          Some(TraefikInput(None, None, None, Some(map["resources" := Obj(map[])]))), None, None))));
      DependenciesOf(Decode(Encode(Decode(d)))) != DependenciesOf(Decode(d))
  {
    var lower: Fields, upper: Fields := map["resources" := Num(5.0)], map["resources" := Obj(map[])];
    var d := EMPTY_MARKER.(
      traefik_values_json := Some(Parsed(Obj(lower))),
      dependencies_json := Some(Record(DependencyInput(Some(TraefikInput(None, None, None, Some(upper))), None, None))));
    assert LegacyValues(d) == Some(lower) && RecordValues(d) == Some(upper);
    DefaultResources();
    ResourcesDisagree(DefaultState().traefik.helmValues, lower, upper);
    hide Decode, Encode, DefaultState, LayersAgree;
    MigrationIsLossless(d);
  }

  lemma DefaultResources()
    ensures
      var base := DefaultState().traefik.helmValues;
      "resources" in base && base["resources"].Obj? && base["resources"].fields != map[]
  {
    ObjectPath.MergeEmpty(BaseValues());
    assert BaseValues()["resources"].Obj? && "requests" in BaseValues()["resources"].fields;
    assert HelmValues(map[], map[]) == Merge(Merge(map[], BaseValues()), map[]);
    hide BaseValues;
  }

  lemma ResourcesDisagree(base: Fields, lower: Fields, upper: Fields)
    requires "resources" in base && base["resources"].Obj? && base["resources"].fields != map[]
    requires lower == map["resources" := Num(5.0)] && upper == map["resources" := Obj(map[])]
    ensures !LayersAgree(base, lower, upper)
  {
    assert !AssociableAt(base - {"ports"}, lower - {"ports"}, upper - {"ports"}, "resources");
  }

  lemma LayeredValues(base: Fields, lower: Option<Fields>, upper: Option<Fields>)
    ensures
      var state := Layer(Layer(base, lower), upper);
      Layer(base, Some(state)) == state
      <==> (lower.Some? && upper.Some? ==> LayersAgree(base, lower.value, upper.value))
  {
    if lower.Some? && upper.Some? {
      LayersRenormalise(base, lower.value, upper.value);
    } else if lower.Some? {
      LayerRenormalises(base, lower.value);
    } else if upper.Some? {
      LayerRenormalises(base, upper.value);
    } else {
      BaseRenormalises(base);
    }
  }

  /** Beside the dependencies, migration only drops the three fields the dependency record has taken over. */
  lemma MigrationKeepsTheRest(d: Marker)
    requires Decode(d).Some?
    ensures Decode(Encode(Decode(d))) == Some(Kept(Decode(d).value))
  {
    DecodedIsWellFormed(d);
    EncodeDecode(Decode(d).value);
  }
  // What is written under which key, and what is read from it.

  predicate Fills(text: Option<string>, value: Option<string>) {
    text == if value.Some? && value.value != "" then value else None
  }

  /** Every field under its own key: texts as they are unless they are empty, flags as `true` and `false`, modes by name,
      and everything else as JSON. */
  lemma WrittenKeys(s: State)
    ensures
      var d := Encode(Some(s));
      && Fills(d.domain, s.domain) && Fills(d.image_registry, s.imageRegistry) && Fills(d.registry_host, s.registryHost)
      && Fills(d.platform_id, s.platformId) && Fills(d.storage_class, s.storageClass)
      && Fills(d.registry_cluster_issuer, s.registryClusterIssuer) && Fills(d.cluster_issuer_name, s.clusterIssuerName)
      && d.tenant_pod_security == s.tenantPodSecurity && d.tenant_runtime_class == s.tenantRuntimeClass
      && FlagText(d.ha_enabled, s.ha) && FlagText(d.registry_insecure, s.registryInsecure)
      && FlagText(d.registry_ingress_enabled, s.registryIngressEnabled)
      && (d.registry_mode == match s.registryMode
            case None => None
            case Some(Unconfigured) => Some("unconfigured")
            case Some(Platform) => Some("platform")
            case Some(External) => Some("external"))
      && d.ingress_class_name == d.ingress_controller_namespace == None && d.traefik_values_json == None
    ensures
      var d := Encode(Some(s));
      && (s.nodeSelector.Some? ==>
            var labels := s.nodeSelector.value;
            Holds(d.node_selector_json, Obj(map k | k in labels :: Str(labels[k]))))
      && (s.tcpPortPool.Some? ==>
            var p := s.tcpPortPool.value;
            Holds(d.tcp_port_pool_json,
                  Obj(map["enabled" := Bool(p.enabled), "start" := Num(p.start), "size" := Num(p.size)])))
      && (s.clusterDnsPolicy.Some? ==>
            var p := s.clusterDnsPolicy.value;
            Holds(d.cluster_dns_policy_json,
                  Obj(map["namespace" := Str(p.namespace),
                          "podLabels" := Obj(map k | k in p.podLabels :: Str(p.podLabels[k])),
                          "serviceIp" := Str(p.serviceIp)])))
    ensures Encode(None) == EMPTY_MARKER
  {
    hide ResolveDependencies, AutoscalingJson;
  }

  predicate FlagText(text: Option<string>, flag: Option<bool>) {
    match flag
    case None => text == None
    case Some(b) => text == Some(if b then "true" else "false")
  }

  predicate Holds(text: Option<JsonText>, value: Json) {
    text == Some(Parsed(value))
  }

  /** Reading is the other way round, and a flag is true exactly if its text says so; a key that is missing or cannot be
      read leaves its field open. */
  lemma ReadKeys(d: Marker)
    ensures
      var s := DecodeFields(d);
      && Fills(s.domain, d.domain) && Fills(s.imageRegistry, d.image_registry) && Fills(s.registryHost, d.registry_host)
      && Fills(s.platformId, d.platform_id) && Fills(s.storageClass, d.storage_class)
      && Fills(s.registryClusterIssuer, d.registry_cluster_issuer) && Fills(s.clusterIssuerName, d.cluster_issuer_name)
      && Fills(s.ingressClassName, d.ingress_class_name)
      && Fills(s.ingressControllerNamespace, d.ingress_controller_namespace)
      && s.tenantPodSecurity == d.tenant_pod_security && s.tenantRuntimeClass == d.tenant_runtime_class
      && ReadsFlag(s.ha, d.ha_enabled) && ReadsFlag(s.registryInsecure, d.registry_insecure)
      && ReadsFlag(s.registryIngressEnabled, d.registry_ingress_enabled)
      && (s.registryMode == Some(Unconfigured) <==> d.registry_mode == Some("unconfigured"))
      && (s.registryMode == Some(Platform) <==> d.registry_mode == Some("platform"))
      && (s.registryMode == Some(External) <==> d.registry_mode == Some("external"))
    ensures
      var s := DecodeFields(d);
      && (s.traefikValues.Some? <==> exists fields :: Holds(d.traefik_values_json, Obj(fields)))
      && (s.traefikValues.Some? ==> Holds(d.traefik_values_json, Obj(s.traefikValues.value)))
      && (s.dependencies.Some? <==>
            || (exists record :: d.dependencies_json == Some(Record(record)))
            || d.ingress_class_name.Some? || d.ingress_controller_namespace.Some?
            || exists fields :: Holds(d.traefik_values_json, Obj(fields)))
  {
    hide ResolveDependencies, ParseStringRecord, ParseAutoscaling, ParseTcpPortPool, ParseDnsPolicy;
    if ParseObject(d.traefik_values_json).Some? {
      assert Holds(d.traefik_values_json, Obj(ParseObject(d.traefik_values_json).value));
    }
    if d.dependencies_json.Some? && d.dependencies_json.value.Record? {
      assert d.dependencies_json == Some(Record(d.dependencies_json.value.value));
    }
  }

  predicate ReadsFlag(flag: Option<bool>, text: Option<string>) {
    flag == if text.None? then None else Some(text.value == "true")
  }

  /** What is read of the JSON texts: the non-empty set of a record's texts; an autoscaling record with a flag and an id
      that is not blank; a policy with a namespace, an address and labels. */
  lemma ReadRecords(d: Marker, fields: Fields)
    ensures Holds(d.node_selector_json, Obj(fields)) ==>
      DecodeFields(d).nodeSelector ==
        if exists k :: k in fields && fields[k].Str? then Some(map k | k in fields && fields[k].Str? :: fields[k].s) else None
    ensures Holds(d.upcloud_autoscaling_json, Obj(fields)) ==>
      var a := DecodeFields(d).upcloudAutoscaling;
      && (a.Some? <==> "enabled" in fields && fields["enabled"].Bool? && "clusterUuid" in fields
                        && fields["clusterUuid"].Str? && Trim(fields["clusterUuid"].s) != "")
      && (a.Some? ==> a.value.enabled == fields["enabled"].b && a.value.clusterUuid == fields["clusterUuid"].s)
      && (a.Some? ==> ReadsGroups(a.value.nodeGroups, Field(fields, "nodeGroups")))
    ensures Holds(d.tcp_port_pool_json, Obj(fields)) ==> DecodeFields(d).tcpPortPool == Some(ResolvePool(Some(fields)))
    ensures Holds(d.cluster_dns_policy_json, Obj(fields)) ==>
      var p := DecodeFields(d).clusterDnsPolicy;
      && (p.Some? ==> Field(fields, "namespace") == Some(Str(p.value.namespace))
                      && Field(fields, "serviceIp") == Some(Str(p.value.serviceIp)))
      && (p.Some? <==> "namespace" in fields && fields["namespace"].Str? && "serviceIp" in fields && fields["serviceIp"].Str?
                        && ReadStringMap(Some(Obj(fields)), ["podLabels"]).Some?)
      && (p.Some? ==> Some(p.value.podLabels) == ReadStringMap(Some(Obj(fields)), ["podLabels"]))
  {
    hide ResolveDependencies, NodeGroups, Trim, ReadStringMap, HasDependencyData, ResolvePool;
    var entries := map k | k in fields && fields[k].Str? :: fields[k].s;
    if k :| k in fields && fields[k].Str? {
      assert k in entries;
    } else {
      assert entries == map[];
    }
  }

  predicate ReadsGroups(groups: Option<seq<NodeGroup>>, raw: Option<Json>) {
    match raw
    case Some(Arr(items)) => groups == if NodeGroups(items) == [] then None else Some(NodeGroups(items))
    case _ => groups == None
  }

  /** A JSON text that is missing, broken or no record gives nothing. */
  lemma ReadNothing(d: Marker)
    ensures (forall fields :: !Holds(d.node_selector_json, Obj(fields))) ==> DecodeFields(d).nodeSelector == None
    ensures (forall fields :: !Holds(d.upcloud_autoscaling_json, Obj(fields))) ==> DecodeFields(d).upcloudAutoscaling == None
    ensures (forall fields :: !Holds(d.tcp_port_pool_json, Obj(fields))) ==> DecodeFields(d).tcpPortPool == None
    ensures (forall fields :: !Holds(d.cluster_dns_policy_json, Obj(fields))) ==> DecodeFields(d).clusterDnsPolicy == None
  {
    hide ResolveDependencies, NodeGroups, Trim, ReadStringMap, HasDependencyData, ResolvePool;
    OnlyRecords(d.node_selector_json);
    OnlyRecords(d.upcloud_autoscaling_json);
    OnlyRecords(d.tcp_port_pool_json);
    OnlyRecords(d.cluster_dns_policy_json);
  }

  lemma OnlyRecords(text: Option<JsonText>)
    ensures ParseObject(text).Some? ==> Holds(text, Obj(ParseObject(text).value))
  {
  }

  /** A node group is read exactly if it is a record with a name that is not blank and whole bounds in order. */
  lemma ReadGroup(item: Json, group: NodeGroup)
    ensures ParseNodeGroup(item) == Some(group) <==>
      && item.Obj?
      && (exists name :: Field(item.fields, "name") == Some(Str(name)) && Trim(name) == group.name && group.name != "")
      && Field(item.fields, "min") == Some(Num(group.min as real))
      && Field(item.fields, "max") == Some(Num(group.max as real))
      && 0 <= group.min <= group.max
  {
    hide Trim;
  }

  /** The groups that can be read, in order. */
  lemma {:induction false} GroupsInOrder(items: seq<Json>, last: Json)
    ensures NodeGroups([]) == []
    ensures NodeGroups(items + [last])
      == NodeGroups(items) + if ParseNodeGroup(last).Some? then [ParseNodeGroup(last).value] else []
  {
    hide ParseNodeGroup;
    if items == [] {
      assert items + [last] == [last] && [last][1..] == [];
    } else {
      GroupsInOrder(items[1..], last);
      assert (items + [last])[1..] == items[1..] + [last];
    }
  }
}
