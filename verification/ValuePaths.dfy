/** JSON trees read path by path: what a merge of layers holds at a path, said without merging anything. */
module ValuePaths {
  import opened Wrappers
  import opened Text
  import opened ObjectPath
  import opened Traefik
  import opened DependencyState

  /** What stands at a path: nothing, a record, or a value that is none. */
  datatype Reading = Nothing | Record | Value(value: Json)

  function Held(tree: Json, path: seq<string>): Reading {
    if path == [] then if tree.Obj? then Record else Value(tree)
    else if tree.Obj? && path[0] in tree.fields then Held(tree.fields[path[0]], path[1..])
    else Nothing
  }

  /** Some way up the path there is a value, so there is nothing at its end. */
  predicate Blocked(tree: Json, path: seq<string>) {
    exists n | 0 <= n < |path| :: Held(tree, path[..n]).Value?
  }

  lemma BlockedBelow(fields: Fields, path: seq<string>)
    requires path != [] && path[0] in fields
    ensures Blocked(Obj(fields), path) <==> Blocked(fields[path[0]], path[1..])
  {
    var below := fields[path[0]];
    forall n | 0 < n < |path| ensures Held(Obj(fields), path[..n]) == Held(below, path[1..][..n - 1]) {
      assert path[..n][1..] == path[1..][..n - 1];
    }
    if Blocked(below, path[1..]) {
      var m :| 0 <= m < |path[1..]| && Held(below, path[1..][..m]).Value?;
      assert Held(Obj(fields), path[..m + 1]).Value?;
    }
  }

  lemma BlockedByValue(tree: Json, path: seq<string>)
    requires !tree.Obj?
    ensures Blocked(tree, path) <==> path != []
  {
    if path != [] {
      assert Held(tree, path[..0]).Value?;
    }
  }

  lemma NotBlocked(fields: Fields, path: seq<string>)
    requires path == [] || path[0] !in fields
    ensures !Blocked(Obj(fields), path)
  {
    forall n | 0 <= n < |path| ensures !Held(Obj(fields), path[..n]).Value? {
      assert n > 0 ==> path[..n][0] == path[0];
    }
  }

  /** A merge holds what its later argument says, and what the earlier one says where the later says nothing and has
      no value in the way. */
  lemma {:induction false} MergeAt(a: Fields, b: Fields, path: seq<string>)
    ensures Held(Obj(Merge(a, b)), path) ==
            if Held(Obj(b), path) != Nothing then Held(Obj(b), path)
            else if Blocked(Obj(b), path) then Nothing
            else Held(Obj(a), path)
    decreases |path|
  {
    if path == [] || path[0] !in b {
      NotBlocked(b, path);
    } else {
      var k, rest := path[0], path[1..];
      BlockedBelow(b, path);
      if k in a && a[k].Obj? && b[k].Obj? {
        MergeAt(a[k].fields, b[k].fields, rest);
      } else if b[k].Obj? {
        assert Held(Obj(a), path) == if k in a then Held(a[k], rest) else Nothing;
        assert rest == [] ==> Held(Obj(b), path) == Record;
      } else {
        BlockedByValue(b[k], rest);
      }
    }
  }

  /** Trees with the same readings are the same. */
  lemma {:induction false} SameReadings(x: Json, y: Json)
    requires forall path :: Held(x, path) == Held(y, path)
    ensures x == y
    decreases x
  {
    assert Held(x, []) == Held(y, []);
    if x.Obj? {
      forall k ensures Field(x.fields, k) == Field(y.fields, k) {
        SameAt(x.fields, y.fields, k);
        if k in x.fields {
          SameReadings(x.fields[k], y.fields[k]);
        }
      }
      SameFields(x.fields, y.fields);
    }
  }

  lemma AtField(fields: Fields, k: string, path: seq<string>)
    ensures Held(Obj(fields), [k] + path) == if k in fields then Held(fields[k], path) else Nothing
    ensures path == [] && k in fields ==> Held(fields[k], path) != Nothing
  {
    assert ([k] + path)[1..] == path;
  }

  lemma SameAt(x: Fields, y: Fields, k: string)
    requires forall path :: Held(Obj(x), path) == Held(Obj(y), path)
    ensures k in x <==> k in y
    ensures k in x && k in y ==> forall path :: Held(x[k], path) == Held(y[k], path)
  {
    AtField(x, k, []);
    AtField(y, k, []);
    assert Held(Obj(x), [k] + []) == Held(Obj(y), [k] + []);
    if k in x && k in y {
      forall path ensures Held(x[k], path) == Held(y[k], path) {
        AtField(x, k, path);
        AtField(y, k, path);
        assert Held(Obj(x), [k] + path) == Held(Obj(y), [k] + path);
      }
    }
  }

  // Layers of Helm values.

  /** Where Helm values come from: given ones, or layers over others. */
  datatype Source = Given(values: Fields) | Over(lower: Source, upper: Source)

  function Built(s: Source): Fields {
    match s
    case Given(values) => values
    case Over(lower, upper) => Layer(Built(lower), Some(Built(upper)))
  }

  /** What a source says at a path: the upper layer decides, unless it says nothing there, has no value in the way, and
      does not bring ports of its own for a path among the ports. */
  function Says(s: Source, path: seq<string>): Reading
    decreases s, |path|
  {
    match s
    case Given(values) => Held(Obj(values), path)
    case Over(lower, upper) =>
      if Says(upper, path) != Nothing then Says(upper, path)
      else if exists n | 0 <= n < |path| :: Says(upper, path[..n]).Value? then Nothing
      else if path != [] && path[0] == "ports" && Says(upper, ["ports"]) != Nothing then Nothing
      else Says(lower, path)
  }

  lemma LayerAt(a: Fields, b: Fields, path: seq<string>)
    ensures Held(Obj(Layer(a, Some(b))), path) ==
            if Held(Obj(b), path) != Nothing then Held(Obj(b), path)
            else if Blocked(Obj(b), path) || (path != [] && path[0] == "ports" && "ports" in b) then Nothing
            else Held(Obj(a), path)
  {
    MergeAt(a, b, path);
    hide Merge, Blocked;
  }

  /** Layers built up hold what they say. */
  lemma {:induction false} BuiltSays(s: Source, path: seq<string>)
    ensures Held(Obj(Built(s)), path) == Says(s, path)
    decreases s, |path|
  {
    if s.Over? {
      LayerAt(Built(s.lower), Built(s.upper), path);
      BuiltSays(s.lower, path);
      BuiltSays(s.upper, path);
      BuiltSays(s.upper, ["ports"]);
      assert ["ports"][1..] == [];
      forall n | 0 <= n < |path| ensures Held(Obj(Built(s.upper)), path[..n]) == Says(s.upper, path[..n]) {
        BuiltSays(s.upper, path[..n]);
      }
    }
  }

  /** Values and a source say the same at every path. */
  ghost predicate Agree(values: Fields, s: Source) {
    forall path :: Held(Obj(values), path) == Says(s, path)
  }

  /** Values are those of a source exactly if they agree with it at every path. */
  lemma BuiltIff(s: Source, values: Fields)
    ensures Built(s) == values <==> Agree(values, s)
  {
    hide Held, Says, Built;
    forall path ensures Held(Obj(Built(s)), path) == Says(s, path) {
      BuiltSays(s, path);
    }
    if Agree(values, s) {
      SameReadings(Obj(Built(s)), Obj(values));
      assert Obj(Built(s)).fields == Obj(values).fields;
    }
  }
  // What drift, defaults and layers mean at a path.

  /** Without records in its arrays, what is wanted is there exactly if the live values say the same at every path at which
      it says anything. */
  lemma {:induction false} CoversByPath(live: Json, desired: Json)
    requires PlainArrays(desired)
    ensures Covers(live, desired) <==> SaysAll(live, desired)
    decreases desired
  {
    match desired
    case Obj(fields) =>
      if live.Obj? {
        forall k | k in fields
          ensures (k in live.fields && Covers(live.fields[k], fields[k])) <==>
            (k in live.fields && SaysAll(live.fields[k], fields[k]))
        {
          if k in live.fields {
            CoversByPath(live.fields[k], fields[k]);
          }
        }
        SaysByKey(live.fields, fields);
      } else {
        assert Held(desired, []) == Record && Held(live, []) != Record;
      }
    case Arr(items) =>
      PlainCovers(live, items);
      SaysItself(live, desired);
    case _ =>
      SaysItself(live, desired);
  }

  ghost predicate SaysAll(live: Json, desired: Json) {
    forall path :: Held(desired, path) != Nothing ==> Held(live, path) == Held(desired, path)
  }

  lemma SaysItself(live: Json, desired: Json)
    requires !desired.Obj?
    ensures SaysAll(live, desired) <==> live == desired
  {
    assert Held(desired, []) == Value(desired);
    if live == desired {
      assert SaysAll(live, desired);
    }
  }

  lemma SaysByKey(live: Fields, desired: Fields)
    ensures SaysAll(Obj(live), Obj(desired)) <==> forall k | k in desired :: k in live && SaysAll(live[k], desired[k])
  {
    if SaysAll(Obj(live), Obj(desired)) {
      forall k | k in desired ensures k in live && SaysAll(live[k], desired[k]) {
        AtField(live, k, []);
        AtField(desired, k, []);
        assert Held(Obj(desired), [k] + []) != Nothing;
        forall path | Held(desired[k], path) != Nothing ensures Held(live[k], path) == Held(desired[k], path) {
          AtField(live, k, path);
          AtField(desired, k, path);
          assert Held(Obj(live), [k] + path) == Held(Obj(desired), [k] + path);
        }
      }
    } else {
      var path :| Held(Obj(desired), path) != Nothing && Held(Obj(live), path) != Held(Obj(desired), path);
      var k, rest := path[0], path[1..];
      assert path == [k] + rest;
      AtField(live, k, rest);
      AtField(desired, k, rest);
    }
  }

  /** Arrays without records are compared as a whole. */
  lemma {:induction false} PlainCovers(live: Json, items: seq<Json>)
    requires PlainArrays(Arr(items))
    ensures Covers(live, Arr(items)) <==> live == Arr(items)
    decreases Arr(items)
  {
    if live.Arr? && |live.items| == |items| {
      forall i | 0 <= i < |items| ensures Covers(live.items[i], items[i]) <==> live.items[i] == items[i] {
        if items[i].Arr? {
          assert items[i] < Arr(items);
          PlainCovers(live.items[i], items[i].items);
        }
      }
      if forall i | 0 <= i < |items| :: live.items[i] == items[i] {
        assert live.items == items;
      }
    }
  }

  /** Arrays are compared item by item, and must be as long. */
  lemma CoversItems(live: Json, items: seq<Json>)
    ensures Covers(live, Arr(items)) <==>
      live.Arr? && |live.items| == |items| && forall i | 0 <= i < |items| :: Covers(live.items[i], items[i])
  {
  }

  /** What the walk over a path finds is what is held there. */
  lemma {:induction false} AtIsHeld(tree: Json, path: seq<string>)
    ensures At(Some(tree), path) ==
      match Held(tree, path)
      case Nothing => None
      case Value(v) => Some(v)
      case Record => At(Some(tree), path)
    ensures Held(tree, path).Record? ==> At(Some(tree), path).Some? && At(Some(tree), path).value.Obj?
    ensures Held(tree, path).Value? ==> !Held(tree, path).value.Obj?
    decreases |path|
  {
    if path != [] && tree.Obj? && path[0] in tree.fields {
      AtIsHeld(tree.fields[path[0]], path[1..]);
    }
  }

  /** The values written for a release, ports apart: what the configuration says, then the defaults, then the release. */
  lemma HelmValuesSay(config: Fields, existing: Fields, path: seq<string>)
    requires path == [] || path[0] != "ports"
    ensures Held(Obj(HelmValues(config, existing)), path)
      == Says(Over(Over(Given(existing), Given(BaseValues())), Given(config)), path)
  {
    var base := BaseValues();
    hide BaseValues;
    BuiltSays(Over(Over(Given(existing), Given(base)), Given(config)), path);
    assert Built(Over(Given(existing), Given(base))) == Layer(existing, Some(base));
    LayerAt(existing, base, path);
    LayerAt(Layer(existing, Some(base)), config, path);
    MergeAt(existing, base, path);
    MergeAt(Merge(existing, base), config, path);
    WithPorts(Merge(Merge(existing, base), config), HelmValues(config, existing), path);
    hide Merge, Blocked, Layer;
  }

  lemma WithPorts(a: Fields, b: Fields, path: seq<string>)
    requires path == [] || path[0] != "ports"
    requires b == a || ("ports" in b && b == a["ports" := b["ports"]])
    ensures Held(Obj(a), path) == Held(Obj(b), path)
  {
  }

  /** The ports are the configuration's own, if it has any, and otherwise the default ones over the release's. */
  lemma PortsSay(config: Fields, existing: Fields)
    ensures "ports" in config ==> Field(HelmValues(config, existing), "ports") == Some(config["ports"])
    ensures "ports" !in config ==>
      Field(HelmValues(config, existing), "ports") == Field(Merge(existing, BaseValues()), "ports")
  {
    hide BaseValues;
  }

  /** The defaults. */
  lemma DefaultValuesAre()
    ensures
      var base := BaseValues();
      && base.Keys == {"ingressClass", "resources", "ports"}
      && base["ingressClass"] == Obj(map["enabled" := Bool(true), "isDefaultClass" := Bool(true)])
      && base["resources"] == Obj(map["requests" := Obj(map["cpu" := Str("100m"), "memory" := Str("128Mi")])])
      && base["ports"] == Obj(PoolPortsFrom(30100, 20))
  {
  }

  /** One port of a pool. */
  lemma PortEntryIs(port: int)
    ensures PortKey(port) == "tcp-" + Decimal(port)
    ensures PortEntry(port as real) == Obj(map[
      "port" := Num(port as real), "exposedPort" := Num(port as real), "protocol" := Str("TCP"),
      "expose" := Obj(map["default" := Bool(true)])])
  {
  }

  /** What layers of inputs resolve to: each name from the topmost input that has it; values by layers; the other
      records key by key. */
  lemma LayersInOrder(markerState: Option<DependencyInput>, platformState: Option<DependencyInput>)
    ensures
      var r := ResolveDependencies(markerState, platformState, None, NO_LEGACY);
      var m, p := TraefikOf(markerState), TraefikOf(platformState);
      && r.traefik.namespace == FirstOf(m.namespace, p.namespace).OrElse("traefik")
      && r.traefik.releaseName == FirstOf(m.releaseName, p.releaseName).OrElse("traefik")
      && r.traefik.ingressClassName == FirstOf(m.ingressClassName, p.ingressClassName).OrElse("traefik")
    ensures
      var r := ResolveDependencies(markerState, platformState, None, NO_LEGACY);
      var m, p := InputOf(markerState), InputOf(platformState);
      && (forall k :: Field(r.certManager, k)
            == FirstOf(Field(m.certManager.OrElse(map[]), k), Field(p.certManager.OrElse(map[]), k)))
      && (forall k :: Field(r.cnpg, k) == FirstOf(Field(m.cnpg.OrElse(map[]), k), Field(p.cnpg.OrElse(map[]), k)))
  {
    hide HelmValues, Layer;
  }

  function InputOf(input: Option<DependencyInput>): DependencyInput {
    input.OrElse(DependencyInput(None, None, None))
  }

  function TraefikOf(input: Option<DependencyInput>): TraefikInput {
    InputOf(input).traefik.OrElse(TraefikInput(None, None, None, None))
  }

  /** And their Helm values at every path. */
  lemma LayeredValuesSay(marker: Fields, platform: Fields, path: seq<string>)
    ensures
      var input := (values: Fields) => Some(DependencyInput(Some(TraefikInput(None, None, None, Some(values))), None, None));
      var r := ResolveDependencies(input(marker), input(platform), None, NO_LEGACY);
      Held(Obj(r.traefik.helmValues), path)
        == Says(Over(Over(Given(DefaultState().traefik.helmValues), Given(platform)), Given(marker)), path)
  {
    hide HelmValues, Layer;
    var base := DefaultState().traefik.helmValues;
    BuiltSays(Over(Over(Given(base), Given(platform)), Given(marker)), path);
    assert Built(Over(Given(base), Given(platform))) == Layer(base, Some(platform));
  }
}
