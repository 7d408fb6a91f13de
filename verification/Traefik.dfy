/** The ingress controller's Helm values: the TCP port pool, the merge with an existing release, and drift. */
module Traefik {
  import opened Wrappers
  import opened Text
  import opened ObjectPath

  datatype TcpPortPool = TcpPortPool(enabled: bool, start: real, size: real)

  const DEFAULT_TCP_PORT_POOL := TcpPortPool(true, 30100.0, 20.0)
  const MIN_PORT := 1024
  const MAX_PORT := 65535
  const MAX_SIZE := 100

  predicate IsInteger(n: real) {
    n == n.Floor as real
  }

  predicate ValidPool(pool: TcpPortPool) {
    && IsInteger(pool.start)
    && IsInteger(pool.size)
    && MIN_PORT <= pool.start.Floor <= MAX_PORT
    && 1 <= pool.size.Floor <= MAX_SIZE
    && pool.start.Floor + pool.size.Floor - 1 <= MAX_PORT
  }

  /** The pool a settings record describes, field by field with a fallback, or the fallback as a whole. */
  function ResolvePool(v: Option<Fields>): (pool: TcpPortPool)
    ensures ValidPool(pool)
  {
    var fields := if v.Some? then v.value else map[];
    var resolved := TcpPortPool(
      if "enabled" in fields && fields["enabled"].Bool? then fields["enabled"].b else DEFAULT_TCP_PORT_POOL.enabled,
      if "start" in fields && fields["start"].Num? then fields["start"].n else DEFAULT_TCP_PORT_POOL.start,
      if "size" in fields && fields["size"].Num? then fields["size"].n else DEFAULT_TCP_PORT_POOL.size);
    if ValidPool(resolved) then resolved else DEFAULT_TCP_PORT_POOL
  }

  function PoolFields(pool: TcpPortPool): Fields {
    map["enabled" := Bool(pool.enabled), "start" := Num(pool.start), "size" := Num(pool.size)]
  }

  /** A valid pool survives being written down and resolved again. */
  lemma ResolvePoolRoundTrip(pool: TcpPortPool)
    ensures ResolvePool(Some(PoolFields(pool))) == pool <==> ValidPool(pool)
  {
  }

  function PortKey(port: int): string {
    "tcp-" + Decimal(port)
  }

  function PortEntry(port: real): Json {
    Obj(map["port" := Num(port), "expose" := Obj(map["default" := Bool(true)]),
            "exposedPort" := Num(port), "protocol" := Str("TCP")])
  }

  /** What a pool promises: one entry per port of the range, under that port's key, and nothing else. */
  ghost predicate IsPoolOf(ports: Fields, start: int, size: nat) {
    && (forall port | start <= port < start + size ::
          PortKey(port) in ports && ports[PortKey(port)] == PortEntry(port as real))
    && (forall key | key in ports :: exists port :: start <= port < start + size && key == PortKey(port))
  }

  lemma PortKeyInjective(p: int, q: int)
    requires PortKey(p) == PortKey(q)
    ensures p == q
  {
    assert PortKey(p)[4..] == Decimal(p) && PortKey(q)[4..] == Decimal(q);
    DecimalInjective(p, q);
  }

  lemma PortKeysDiffer()
    ensures forall p, q :: PortKey(p) == PortKey(q) ==> p == q
  {
    forall p, q | PortKey(p) == PortKey(q) ensures p == q {
      PortKeyInjective(p, q);
    }
  }

  function PoolPortsFrom(start: int, size: nat): Fields {
    PortKeysDiffer();
    map port | start <= port < start + size :: PortKey(port) := PortEntry(port as real)
  }

  lemma PoolHolds(start: int, size: nat)
    ensures IsPoolOf(PoolPortsFrom(start, size), start, size)
  {
    PortKeysDiffer();
    hide PortKey, PortEntry;
    var pool := PoolPortsFrom(start, size);
    forall port | start <= port < start + size
      ensures PortKey(port) in pool && pool[PortKey(port)] == PortEntry(port as real)
    {
    }
  }

  lemma PoolGrows(start: int, size: nat)
    ensures PoolPortsFrom(start, size + 1)
            == PoolPortsFrom(start, size)[PortKey(start + size) := PortEntry((start + size) as real)]
    ensures PortKey(start + size) !in PoolPortsFrom(start, size)
  {
    PoolHolds(start, size);
    PoolHolds(start, size + 1);
    PortKeysDiffer();
    hide PortKey, PortEntry, PoolPortsFrom;
    LargerPool(PoolPortsFrom(start, size), PoolPortsFrom(start, size + 1), start, size);
  }

  lemma LargerPool(pool: Fields, more: Fields, start: int, size: nat)
    requires IsPoolOf(pool, start, size) && IsPoolOf(more, start, size + 1)
    ensures more == pool[PortKey(start + size) := PortEntry((start + size) as real)]
    ensures PortKey(start + size) !in pool
  {
    PortKeysDiffer();
    hide PortKey, PortEntry;
    var grown := pool[PortKey(start + size) := PortEntry((start + size) as real)];
    forall key | key in more ensures key in grown && grown[key] == more[key] {
      var port :| start <= port < start + size + 1 && key == PortKey(port);
    }
    forall key | key in grown ensures key in more {
      if key in pool {
        var port :| start <= port < start + size && key == PortKey(port);
      }
    }
  }

  lemma {:induction false} PoolSize(start: int, size: nat)
    ensures |PoolPortsFrom(start, size)| == size
  {
    NoPorts(start);
    hide PoolPortsFrom, PortKey, PortEntry;
    if size > 0 {
      PoolSize(start, size - 1);
      PoolGrows(start, size - 1);
      OneMoreKey(PoolPortsFrom(start, size - 1), PortKey(start + size - 1), PortEntry((start + size - 1) as real));
    }
  }

  lemma NoPorts(start: int)
    ensures PoolPortsFrom(start, 0) == map[]
  {
  }

  lemma OneMoreKey(fields: Fields, key: string, value: Json)
    requires key !in fields
    ensures |fields[key := value]| == |fields| + 1
  {
    assert fields[key := value].Keys == fields.Keys + {key};
  }

  /** The pool has exactly its range's entries, and as many distinct keys as its size says. */
  lemma PoolIsExact(start: int, size: nat)
    ensures IsPoolOf(PoolPortsFrom(start, size), start, size)
    ensures |PoolPortsFrom(start, size)| == size
  {
    PoolHolds(start, size);
    PoolSize(start, size);
  }

  // Pools as the settings give them: any two numbers.

  predicate WholeNumbers(pool: TcpPortPool) {
    IsInteger(pool.start) && IsInteger(pool.size)
  }

  /** How often a counter that starts at zero is below `size`. */
  function Turns(size: real): nat {
    if size <= 0.0 then 0 else if IsInteger(size) then size.Floor else size.Floor + 1
  }

  lemma TurnsAre(size: real, i: nat)
    ensures i < Turns(size) <==> i as real < size
  {
  }

  /** What is known of the way the language prints numbers: integers in decimal, and different numbers differently. */
  ghost predicate PrintsNumbers(printed: real -> string) {
    && (forall n: int :: printed(n as real) == Decimal(n))
    && forall x, y :: printed(x) == printed(y) ==> x == y
  }

  function PortAt(start: real, i: nat): real {
    start + i as real
  }

  function PrintedKey(port: real, printed: real -> string): string {
    "tcp-" + printed(port)
  }

  function PortsFrom(start: real, n: nat, printed: real -> string): Fields {
    if n == 0 then map[]
    else
      var port := PortAt(start, n - 1);
      PortsFrom(start, n - 1, printed)[PrintedKey(port, printed) := PortEntry(port)]
  }

  function PoolPorts(pool: TcpPortPool, printed: real -> string): Fields {
    if pool.enabled then PortsFrom(pool.start, Turns(pool.size), printed) else map[]
  }

  method BuildTcpPoolPorts(pool: TcpPortPool, printed: real -> string) returns (ports: Fields)
    ensures ports == PoolPorts(pool, printed)
  {
    if !pool.enabled {
      return map[];
    }
    ports := map[];
    var i := 0;
    while i as real < pool.size
      invariant i <= Turns(pool.size) && ports == PortsFrom(pool.start, i, printed)
      decreases Turns(pool.size) - i
    {
      var port := pool.start + i as real;
      ports := ports["tcp-" + printed(port) := PortEntry(port)];
      i := i + 1;
    }
  }

  lemma KeysDiffer(start: real, i: nat, j: nat, printed: real -> string)
    requires PrintsNumbers(printed) && PrintedKey(PortAt(start, i), printed) == PrintedKey(PortAt(start, j), printed)
    ensures i == j
  {
    var x, y := PortAt(start, i), PortAt(start, j);
    assert PrintedKey(x, printed)[4..] == printed(x) && PrintedKey(y, printed)[4..] == printed(y);
  }

  /** One entry for each turn under the key of its port, and nothing else. */
  ghost predicate HoldsPorts(ports: Fields, start: real, n: nat, printed: real -> string) {
    && |ports| == n
    && (forall i: nat | i < n ::
          && PrintedKey(PortAt(start, i), printed) in ports
          && ports[PrintedKey(PortAt(start, i), printed)] == PortEntry(PortAt(start, i)))
    && forall key | key in ports :: exists i: nat :: i < n && key == PrintedKey(PortAt(start, i), printed)
  }

  /** So it is whatever the numbers are. */
  lemma {:induction false} PortsAreExact(start: real, n: nat, printed: real -> string)
    requires PrintsNumbers(printed)
    ensures HoldsPorts(PortsFrom(start, n, printed), start, n, printed)
  {
    hide PrintsNumbers, PortEntry, PortAt, PrintedKey;
    if n > 0 {
      PortsAreExact(start, n - 1, printed);
      forall i: nat | i < n - 1 ensures PrintedKey(PortAt(start, i), printed) != PrintedKey(PortAt(start, n - 1), printed) {
        if PrintedKey(PortAt(start, i), printed) == PrintedKey(PortAt(start, n - 1), printed) {
          KeysDiffer(start, i, n - 1, printed);
        }
      }
      OneMorePort(PortsFrom(start, n - 1, printed), start, n - 1, printed);
    }
  }

  lemma OneMorePort(ports: Fields, start: real, n: nat, printed: real -> string)
    requires HoldsPorts(ports, start, n, printed)
    requires forall i: nat | i < n :: PrintedKey(PortAt(start, i), printed) != PrintedKey(PortAt(start, n), printed)
    ensures HoldsPorts(ports[PrintedKey(PortAt(start, n), printed) := PortEntry(PortAt(start, n))], start, n + 1, printed)
  {
    hide PortEntry, PortAt, PrintedKey;
    var key, value := PrintedKey(PortAt(start, n), printed), PortEntry(PortAt(start, n));
    var more := ports[key := value];
    assert key !in ports;
    OneMoreKey(ports, key, value);
    forall i: nat | i < n + 1
      ensures
        && PrintedKey(PortAt(start, i), printed) in more
        && more[PrintedKey(PortAt(start, i), printed)] == PortEntry(PortAt(start, i))
    {
      assert i == n || PrintedKey(PortAt(start, i), printed) in ports;
    }
    forall k | k in more ensures exists i: nat :: i < n + 1 && k == PrintedKey(PortAt(start, i), printed) {
      if k != key {
        var i: nat :| i < n && k == PrintedKey(PortAt(start, i), printed);
      }
    }
  }

  lemma WholePort(start: int, i: nat, printed: real -> string)
    requires PrintsNumbers(printed)
    ensures PortAt(start as real, i) == (start + i) as real
    ensures PrintedKey(PortAt(start as real, i), printed) == PortKey(start + i)
  {
    assert start as real + i as real == (start + i) as real;
  }

  /** For whole numbers these are the ports of the range. */
  lemma {:induction false} WholePorts(start: int, n: nat, printed: real -> string)
    requires PrintsNumbers(printed)
    ensures PortsFrom(start as real, n, printed) == PoolPortsFrom(start, n)
  {
    NoPorts(start);
    hide PrintsNumbers, PortEntry, PortAt, PrintedKey, PortKey, PoolPortsFrom;
    if n > 0 {
      WholePort(start, n - 1, printed);
      WholePorts(start, n - 1, printed);
      PoolGrows(start, n - 1);
    }
  }

  /** A pool of whole numbers has exactly the keys of its range. */
  lemma WholePoolIsExact(pool: TcpPortPool, printed: real -> string)
    requires WholeNumbers(pool) && PrintsNumbers(printed)
    ensures
      var ports := PoolPorts(pool, printed);
      if pool.enabled then IsPoolOf(ports, pool.start.Floor, Turns(pool.size)) && |ports| == Turns(pool.size)
      else ports == map[]
  {
    WholePorts(pool.start.Floor, Turns(pool.size), printed);
    PoolIsExact(pool.start.Floor, Turns(pool.size));
    hide PoolPortsFrom, PortsFrom, IsPoolOf, PrintsNumbers;
  }

  function BaseValues(): Fields {
    map["ingressClass" := Obj(map["enabled" := Bool(true), "isDefaultClass" := Bool(true)]),
        "resources" := Obj(map["requests" := Obj(map["cpu" := Str("100m"), "memory" := Str("128Mi")])]),
        "ports" := Obj(PoolPortsFrom(DEFAULT_TCP_PORT_POOL.start.Floor, DEFAULT_TCP_PORT_POOL.size.Floor))]
  }

  /** Existing values, then base ones, then configured ones, with configured ports kept whole. */
  function ValuesOver(base: Fields, config: Fields, existing: Fields): Fields {
    var values := Merge(Merge(existing, base), config);
    if "ports" in config then values["ports" := config["ports"]] else values
  }

  /** The values written for a release. */
  function HelmValues(config: Fields, existing: Fields): Fields {
    ValuesOver(BaseValues(), config, existing)
  }

  method BuildTraefikHelmValues(config: Fields, existing: Fields) returns (values: Fields)
    ensures values == HelmValues(config, existing)
  {
    var base := BaseValues();
    values := MergeObjects([existing, base, config]);
    assert [existing, base, config][..2] == [existing, base];
    MergeAllPair(existing, base);
    if "ports" in config {
      values := values["ports" := config["ports"]];
    }
  }

  /** `traefikReleaseValuesDrifted` for a release whose live values could be read. */
  predicate Drifted(live: Fields, config: Fields) {
    !Covers(Obj(live), Obj(HelmValues(config, map[])))
  }

  lemma ValuesCover(base: Fields, config: Fields, existing: Fields)
    ensures Covers(Obj(ValuesOver(base, config, existing)), Obj(ValuesOver(base, config, map[])))
    ensures "ports" in config ==> ValuesOver(base, config, existing)["ports"] == config["ports"]
  {
    MergeEmpty(base);
    MergeCoversLater(existing, base);
    MergeMonotone(Merge(existing, base), base, config);
    if "ports" in config {
      CoversReflexive(config["ports"]);
    }
  }

  lemma ValuesRepeat(base: Fields, config: Fields, existing: Fields)
    ensures ValuesOver(base, config, ValuesOver(base, config, existing)) == ValuesOver(base, config, existing)
  {
    var merged := Merge(Merge(existing, base), config);
    MergePairRepeats(existing, base, config);
    if "ports" in config {
      var replaced := merged["ports" := config["ports"]];
      var once, twice := ValuesOver(base, config, existing), ValuesOver(base, config, replaced);
      forall k ensures Field(twice, k) == Field(once, k) {
        if k != "ports" {
          assert Field(replaced, k) == Field(merged, k);
          MergeIsLocal(replaced, merged, base, base, k);
          MergeIsLocal(Merge(replaced, base), Merge(merged, base), config, config, k);
        }
      }
      SameFields(twice, once);
    }
  }

  /** Repair converges: whatever release an install finds, the values it writes do not count as drifted,
      carry exactly the configured ports, and are written unchanged by the next install. */
  lemma RepairConverges(config: Fields, existing: Fields)
    ensures !Drifted(HelmValues(config, existing), config)
    ensures "ports" in config ==> HelmValues(config, existing)["ports"] == config["ports"]
    ensures HelmValues(config, HelmValues(config, existing)) == HelmValues(config, existing)
  {
    var base := BaseValues();
    ValuesCover(base, config, existing);
    ValuesRepeat(base, config, existing);
  }

  lemma CoversByKey(live: Fields, desired: Fields)
    ensures Covers(Obj(live), Obj(desired)) <==> forall k | k in desired :: k in live && Covers(live[k], desired[k])
  {
  }

  lemma PortsInside(live: Fields, desired: Fields, start: int, size: nat, wanted: int, count: nat)
    requires IsPoolOf(live, start, size) && IsPoolOf(desired, wanted, count)
    requires start <= wanted && wanted + count <= start + size
    ensures Covers(Obj(live), Obj(desired))
  {
    hide PortKey, PortEntry, Covers;
    forall key | key in desired ensures key in live && Covers(live[key], desired[key]) {
      var port :| wanted <= port < wanted + count && key == PortKey(port);
      CoversReflexive(PortEntry(port as real));
    }
    CoversByKey(live, desired);
  }

  lemma PortsOutside(live: Fields, desired: Fields, start: int, size: nat, wanted: int, count: nat)
    requires IsPoolOf(live, start, size) && IsPoolOf(desired, wanted, count)
    requires count > 0 && Covers(Obj(live), Obj(desired))
    ensures start <= wanted && wanted + count <= start + size
  {
    PortKeysDiffer();
    CoversByKey(live, desired);
    hide PortKey, PortEntry, Covers;
    assert PortKey(wanted) in desired && PortKey(wanted + count - 1) in desired;
  }

  /** A port table covers another exactly if the other's range is empty or inside its own. */
  lemma PoolsCoverIff(start: int, size: nat, wanted: int, count: nat)
    ensures Covers(Obj(PoolPortsFrom(start, size)), Obj(PoolPortsFrom(wanted, count)))
      <==> count == 0 || (start <= wanted && wanted + count <= start + size)
  {
    NoPorts(wanted);
    CoversByKey(PoolPortsFrom(start, size), map[]);
    hide PoolPortsFrom, IsPoolOf, Covers;
    var live, desired := PoolPortsFrom(start, size), PoolPortsFrom(wanted, count);
    PoolHolds(start, size);
    PoolHolds(wanted, count);
    if count > 0 {
      if Covers(Obj(live), Obj(desired)) {
        PortsOutside(live, desired, start, size, wanted, count);
      }
      if start <= wanted && wanted + count <= start + size {
        PortsInside(live, desired, start, size, wanted, count);
      }
    }
  }

  /** Two configurations that differ in their ports only: whether a release written for one has drifted from the other
      is decided by the ports. */
  lemma DriftIsInThePorts(config: Fields, existing: Fields, live: Json, desired: Json)
    ensures Drifted(HelmValues(config["ports" := live], existing), config["ports" := desired]) <==> !Covers(live, desired)
  {
    hide BaseValues;
    var base := BaseValues();
    PortsDecide(base, config["ports" := live], config["ports" := desired], existing);
  }

  lemma PortsDecide(base: Fields, live: Fields, desired: Fields, existing: Fields)
    requires "ports" in live && "ports" in desired && live - {"ports"} == desired - {"ports"}
    ensures Covers(Obj(ValuesOver(base, live, existing)), Obj(ValuesOver(base, desired, map[])))
      <==> Covers(live["ports"], desired["ports"])
  {
    var a, b, wanted := ValuesOver(base, live, existing), ValuesOver(base, desired, existing), ValuesOver(base, desired, map[]);
    ValuesCover(base, desired, existing);
    forall k | k != "ports" ensures Field(a, k) == Field(b, k) {
      assert Field(live, k) == Field(live - {"ports"}, k) && Field(desired, k) == Field(desired - {"ports"}, k);
      MergeIsLocal(Merge(existing, base), Merge(existing, base), live, desired, k);
    }
    hide ValuesOver, Merge;
    assert a["ports"] == live["ports"] && b["ports"] == desired["ports"];
    if Covers(live["ports"], desired["ports"]) {
      forall k | k in wanted ensures k in a && Covers(a[k], wanted[k]) {
        assert k in b && Covers(b[k], wanted[k]);
        assert k != "ports" ==> Field(a, k) == Field(b, k);
      }
    }
  }

  /** Drift detection sees a change of a managed pool exactly if the new pool is neither empty nor within the old one:
      no release written for the old pool counts as drifted from a pool that only gives up ports. */
  lemma PoolDriftIff(config: Fields, existing: Fields, start: int, size: nat, wanted: int, count: nat)
    ensures
      var live := HelmValues(config["ports" := Obj(PoolPortsFrom(start, size))], existing);
      Drifted(live, config["ports" := Obj(PoolPortsFrom(wanted, count))])
      <==> !(count == 0 || (start <= wanted && wanted + count <= start + size))
  {
    hide HelmValues, PoolPortsFrom;
    DriftIsInThePorts(config, existing, Obj(PoolPortsFrom(start, size)), Obj(PoolPortsFrom(wanted, count)));
    PoolsCoverIff(start, size, wanted, count);
  }

  /** A release keeps the ports of a pool that was made smaller or disabled. */
  lemma ShrunkPoolIsNotDrift(config: Fields, existing: Fields, start: int, size: nat, fewer: nat)
    requires fewer < size
    ensures
      var live := HelmValues(config["ports" := Obj(PoolPortsFrom(start, size))], existing);
      var desired := config["ports" := Obj(PoolPortsFrom(start, fewer))];
      !Drifted(live, desired) && live["ports"] != HelmValues(desired, existing)["ports"]
  {
    PoolIsExact(start, size);
    PoolIsExact(start, fewer);
    hide PoolPortsFrom, BaseValues, Merge;
    PoolDriftIff(config, existing, start, size, start, fewer);
  }
}
