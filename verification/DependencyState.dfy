/** The installed dependencies' configuration: defaults, layered inputs, and the legacy sources they come from. */
module DependencyState {
  import opened Wrappers
  import opened ObjectPath
  import opened Traefik

  datatype TraefikState = TraefikState(namespace: string, releaseName: string, ingressClassName: string, helmValues: Fields)

  datatype TraefikInput = TraefikInput(
    namespace: Option<string>,
    releaseName: Option<string>,
    ingressClassName: Option<string>,
    helmValues: Option<Fields>)

  datatype DependencyMap = DependencyMap(traefik: TraefikState, certManager: Fields, cnpg: Fields)

  datatype DependencyInput = DependencyInput(traefik: Option<TraefikInput>, certManager: Option<Fields>, cnpg: Option<Fields>)

  function DefaultState(): DependencyMap {
    DependencyMap(TraefikState("traefik", "traefik", "traefik", HelmValues(map[], map[])), map[], map[])
  }

  /** A resolved state used as an input: every field present. */
  function AsInput(state: DependencyMap): DependencyInput {
    var t := state.traefik;
    DependencyInput(
      Some(TraefikInput(Some(t.namespace), Some(t.releaseName), Some(t.ingressClassName), Some(t.helmValues))),
      Some(state.certManager),
      Some(state.cnpg))
  }

  /** Deep merge, except that configured ports replace the ones below. */
  function Layer(base: Fields, input: Option<Fields>): Fields {
    if input.None? then base
    else
      var merged := Merge(base, input.value);
      if "ports" in input.value then merged["ports" := input.value["ports"]] else merged
  }

  function LayerTraefik(base: TraefikState, input: Option<TraefikInput>): TraefikState {
    if input.None? then base
    else TraefikState(
        input.value.namespace.OrElse(base.namespace),
        input.value.releaseName.OrElse(base.releaseName),
        input.value.ingressClassName.OrElse(base.ingressClassName),
        Layer(base.helmValues, input.value.helmValues))
  }

  function LayerState(state: DependencyMap, input: Option<DependencyInput>): DependencyMap {
    if input.None? then state
    else DependencyMap(
        LayerTraefik(state.traefik, input.value.traefik),
        state.certManager + input.value.certManager.OrElse(map[]),
        state.cnpg + input.value.cnpg.OrElse(map[]))
  }

  function LayeredOver(start: DependencyMap, inputs: seq<Option<DependencyInput>>): DependencyMap
    decreases |inputs|
  {
    if inputs == [] then start
    else LayeredOver(LayerState(start, inputs[0]), inputs[1..])
  }

  method MergeDependencyState(inputs: seq<Option<DependencyInput>>) returns (state: DependencyMap)
    ensures state == LayeredOver(DefaultState(), inputs)
  {
    state := DefaultState();
    for i := 0 to |inputs|
      invariant LayeredOver(state, inputs[i..]) == LayeredOver(DefaultState(), inputs)
    {
      if inputs[i].None? {
        continue;
      }
      var input := inputs[i].value;
      state := DependencyMap(
        LayerTraefik(state.traefik, input.traefik),
        state.certManager + input.certManager.OrElse(map[]),
        state.cnpg + input.cnpg.OrElse(map[]));
    }
  }

  /** The per-dependency values older releases kept outside the dependency record. */
  datatype Legacy = Legacy(
    ingressClassName: Option<string>,
    ingressControllerNamespace: Option<string>,
    traefikValues: Option<Fields>)

  const NO_LEGACY := Legacy(None, None, None)

  function NonEmpty(s: Option<string>): Option<string> {
    if s == Some("") then None else s
  }

  /** What the ingress controller's legacy sources contribute, if anything. */
  function LegacyState(helmValues: Option<Fields>, legacy: Legacy): Option<DependencyInput> {
    var root := if helmValues.Some? then Some(Obj(helmValues.value)) else None;
    var className := NonEmpty(FirstOf(FirstOf(legacy.ingressClassName,
                                              ReadString(root, ["ingress", "className"])),
                                      ReadString(root, ["workloadIngress", "className"])));
    var namespace := NonEmpty(FirstOf(legacy.ingressControllerNamespace,
                                      ReadString(root, ["workloadIngress", "controllerNamespace"])));
    var values := FirstOf(legacy.traefikValues, ReadRecord(root, ["update", "dependencies", "traefik", "values"]));
    if className.None? && namespace.None? && values.None? then None
    else Some(DependencyInput(Some(TraefikInput(namespace, None, className, values)), None, None))
  }

  function ResolveDependencies(
    markerState: Option<DependencyInput>,
    platformState: Option<DependencyInput>,
    helmValues: Option<Fields>,
    legacy: Legacy): DependencyMap
  {
    LayerState(LayerState(LayerState(DefaultState(), LegacyState(helmValues, legacy)), platformState), markerState)
  }

  lemma FiveLayers(
    start: DependencyMap,
    a: Option<DependencyInput>, b: Option<DependencyInput>, c: Option<DependencyInput>,
    d: Option<DependencyInput>, e: Option<DependencyInput>)
    ensures LayeredOver(start, [a, b, c, d, e])
            == LayerState(LayerState(LayerState(LayerState(LayerState(start, a), b), c), d), e)
  {
    var s1 := LayerState(start, a);
    var s2 := LayerState(s1, b);
    var s3 := LayerState(s2, c);
    var s4 := LayerState(s3, d);
    assert [a, b, c, d, e][1..] == [b, c, d, e] && [b, c, d, e][1..] == [c, d, e];
    assert [c, d, e][1..] == [d, e] && [d, e][1..] == [e] && [e][1..] == [];
    assert LayeredOver(s4, [e]) == LayerState(s4, e);
    assert LayeredOver(s3, [d, e]) == LayeredOver(s4, [e]);
    assert LayeredOver(s2, [c, d, e]) == LayeredOver(s3, [d, e]);
    assert LayeredOver(s1, [b, c, d, e]) == LayeredOver(s2, [c, d, e]);
  }

  /** Only the ingress controller has a legacy source; the other two dependencies contribute nothing. */
  method ResolveDependencyState(
    markerState: Option<DependencyInput>,
    platformState: Option<DependencyInput>,
    helmValues: Option<Fields>,
    legacy: Legacy) returns (state: DependencyMap)
    ensures state == ResolveDependencies(markerState, platformState, helmValues, legacy)
  {
    var first := LegacyState(helmValues, legacy);
    state := MergeDependencyState([first, None, None, platformState, markerState]);
    FiveLayers(DefaultState(), first, None, None, platformState, markerState);
  }

  /** Reading a resolved state back as the only input. */
  function Renormalise(state: DependencyMap): DependencyMap {
    LayerState(DefaultState(), Some(AsInput(state)))
  }

  /** The shapes two layers of Helm values may have over the base values; ports are replaced, never merged. */
  predicate LayersAgree(base: Fields, lower: Fields, upper: Fields) {
    Associable(base - {"ports"}, lower - {"ports"}, upper - {"ports"})
  }

  lemma LayerWithoutPorts(base: Fields, input: Fields)
    ensures Layer(base, Some(input)) - {"ports"} == Merge(base - {"ports"}, input - {"ports"})
    ensures Field(Layer(base, Some(input)), "ports") == FirstOf(Field(input, "ports"), Field(base, "ports"))
  {
  }

  lemma SameButFor(a: Fields, b: Fields, k: string)
    requires a - {k} == b - {k} && Field(a, k) == Field(b, k)
    ensures a == b
  {
    forall key ensures Field(a, key) == Field(b, key) {
      assert key != k ==> Field(a, key) == Field(a - {k}, key) && Field(b, key) == Field(b - {k}, key);
    }
    SameFields(a, b);
  }

  /** A base put under two layers that already lie on it changes nothing for exactly the agreeing layers. */
  lemma LayersRenormalise(base: Fields, lower: Fields, upper: Fields)
    ensures
      var state := Layer(Layer(base, Some(lower)), Some(upper));
      Layer(base, Some(state)) == state <==> LayersAgree(base, lower, upper)
  {
    var first := Layer(base, Some(lower));
    var state := Layer(first, Some(upper));
    LayerWithoutPorts(base, lower);
    LayerWithoutPorts(first, upper);
    LayerWithoutPorts(base, state);
    RenormaliseIsNoop(base - {"ports"}, lower - {"ports"}, upper - {"ports"});
    if Layer(base, Some(state)) - {"ports"} == state - {"ports"} {
      SameButFor(Layer(base, Some(state)), state, "ports");
    }
  }

  /** One layer always survives. */
  lemma LayerRenormalises(base: Fields, input: Fields)
    ensures Layer(base, Some(Layer(base, Some(input)))) == Layer(base, Some(input))
  {
    var state := Layer(base, Some(input));
    LayerWithoutPorts(base, input);
    LayerWithoutPorts(base, state);
    MergeAbsorbs(base - {"ports"}, input - {"ports"});
    SameButFor(Layer(base, Some(state)), state, "ports");
  }

  /** The default state renormalises to itself. */
  lemma BaseRenormalises(base: Fields)
    ensures Layer(base, Some(base)) == base
  {
    MergeSame(base);
  }

  lemma LayerCovers(base: Fields, input: Fields)
    ensures Covers(Obj(Layer(base, Some(input))), Obj(input))
    ensures "ports" in input ==> Layer(base, Some(input))["ports"] == input["ports"]
  {
    MergeCoversLater(base, input);
    if "ports" in input {
      CoversReflexive(input["ports"]);
    }
  }

  /** `withTcpPortPool`: the merged state with the pool's ports in place of whatever was there. */
  method WithTcpPortPool(state: DependencyInput, pool: TcpPortPool, printed: real -> string) returns (r: DependencyMap)
    ensures r == PoolConfigured(state, pool, printed)
  {
    hide DefaultState, PoolPorts, LayerState;
    var resolved := MergeDependencyState([Some(state)]);
    OneLayer(DefaultState(), Some(state));
    var ports := BuildTcpPoolPorts(pool, printed);
    r := resolved.(traefik := resolved.traefik.(helmValues := resolved.traefik.helmValues["ports" := Obj(ports)]));
  }

  lemma OneLayer(start: DependencyMap, input: Option<DependencyInput>)
    ensures LayeredOver(start, [input]) == LayerState(start, input)
  {
    assert [input][1..] == [];
  }

  function PoolConfigured(state: DependencyInput, pool: TcpPortPool, printed: real -> string): DependencyMap {
    var resolved := LayerState(DefaultState(), Some(state));
    resolved.(traefik := resolved.traefik.(helmValues := resolved.traefik.helmValues["ports" := Obj(PoolPorts(pool, printed))]))
  }

  /** A configured pool survives being read back as an input, and it is all there is under `ports`: one entry for each of
      its ports. */
  lemma PoolSurvives(state: DependencyInput, pool: TcpPortPool, printed: real -> string)
    requires PrintsNumbers(printed)
    ensures Renormalise(PoolConfigured(state, pool, printed)) == PoolConfigured(state, pool, printed)
    ensures
      var ports := Renormalise(PoolConfigured(state, pool, printed)).traefik.helmValues["ports"];
      && ports == Obj(PoolPorts(pool, printed))
      && |ports.fields| == if pool.enabled then Turns(pool.size) else 0
  {
    hide PoolPorts, HelmValues, Layer, PrintsNumbers;
    var base, configured := DefaultState(), PoolConfigured(state, pool, printed);
    var input := if state.traefik.Some? then state.traefik.value.helmValues else None;
    NoLayer(base.traefik.helmValues);
    PortsSurvive(base.traefik.helmValues, input, Obj(PoolPorts(pool, printed)));
    assert base.certManager + configured.certManager == configured.certManager;
    assert base.cnpg + configured.cnpg == configured.cnpg;
    assert Renormalise(configured) == configured;
    PoolPortsSize(pool, printed);
  }

  lemma PoolPortsSize(pool: TcpPortPool, printed: real -> string)
    requires PrintsNumbers(printed)
    ensures |PoolPorts(pool, printed)| == if pool.enabled then Turns(pool.size) else 0
  {
    PortsAreExact(pool.start, Turns(pool.size), printed);
    hide PortsFrom, Turns;
  }

  lemma NoLayer(base: Fields)
    ensures Layer(base, None) == base
  {
  }

  lemma PortsSurvive(base: Fields, input: Option<Fields>, ports: Json)
    ensures var values := Layer(base, input)["ports" := ports]; Layer(base, Some(values)) == values
  {
    var values := Layer(base, input)["ports" := ports];
    LayerWithoutPorts(base, values);
    assert values - {"ports"} == Layer(base, input) - {"ports"};
    if input.Some? {
      LayerWithoutPorts(base, input.value);
      MergeAbsorbs(base - {"ports"}, input.value - {"ports"});
    } else {
      MergeSame(base - {"ports"});
    }
    SameButFor(Layer(base, Some(values)), values, "ports");
  }
}
