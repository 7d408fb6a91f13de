/** Untyped JSON trees, their deep merge, and the "covers" relation that drift detection is built on.
    Objects are finite maps: the order of keys is not observable by anything modelled here. */
module ObjectPath {
  import opened Wrappers

  datatype Json =
    | Null
    | Bool(b: bool)
    | Num(n: real)
    | Str(s: string)
    | Arr(items: seq<Json>)
    | Obj(fields: map<string, Json>)

  type Fields = map<string, Json>

  /** Deep merge of two records: the later value wins unless both are records. */
  function Merge(a: Fields, b: Fields): Fields
    decreases Obj(b)
  {
    map k | k in a.Keys + b.Keys ::
      if k !in b then a[k]
      else if k in a && a[k].Obj? && b[k].Obj? then Obj(Merge(a[k].fields, b[k].fields))
      else b[k]
  }

  /** The merge of a list of records, left to right, starting from the empty record. */
  function MergeAll(objects: seq<Fields>): Fields {
    if objects == [] then map[]
    else Merge(MergeAll(objects[..|objects| - 1]), objects[|objects| - 1])
  }

  /** A merge is decided key by key. */
  lemma MergeIsLocal(a: Fields, a': Fields, b: Fields, b': Fields, k: string)
    requires Field(a, k) == Field(a', k) && Field(b, k) == Field(b', k)
    ensures Field(Merge(a, b), k) == Field(Merge(a', b'), k)
  {
  }

  /** Merging into the empty record copies. */
  lemma MergeEmpty(a: Fields)
    ensures Merge(map[], a) == a
  {
  }

  ghost function Records(objects: seq<Fields>): seq<Json> {
    seq(|objects|, i requires 0 <= i < |objects| => Obj(objects[i]))
  }

  /** The program's nested loops compute the left-to-right merge, whatever order the keys come in. */
  method MergeObjects(objects: seq<Fields>) returns (result: Fields)
    ensures result == MergeAll(objects)
    decreases if |objects| == 2 then Obj(objects[1]) else Arr(Records(objects))
  {
    NoneMerged();
    hide Merge, MergeAll, PartlyMerged;
    result := map[];
    assert objects[..0] == [];
    for i := 0 to |objects|
      invariant result == MergeAll(objects[..i])
    {
      var source := objects[i];
      ghost var before := result;
      NothingMerged(before, source);
      MergeAllStep(objects, i);
      assert source.Keys - source.Keys == {};
      var keys := source.Keys;
      while keys != {}
        invariant keys <= source.Keys && PartlyMerged(result, before, source, source.Keys - keys)
        decreases keys
      {
        var key :| key in keys;
        var value := source[key];
        NotYetMerged(result, before, source, source.Keys - keys, key);
        if key in result && result[key].Obj? && value.Obj? {
          assert value < Obj(source) == Records(objects)[i] < Arr(Records(objects));
          var merged := MergeObjects([result[key].fields, value.fields]);
          MergeAllPair(result[key].fields, value.fields);
          value := Obj(merged);
        }
        OneMoreMerged(result, before, source, source.Keys - keys, key, value);
        assert source.Keys - keys + {key} == source.Keys - (keys - {key});
        result := result[key := value];
        keys := keys - {key};
      }
      assert source.Keys - keys == source.Keys;
      AllKeysMerged(result, before, source);
    }
    assert objects[..|objects|] == objects;
  }

  /** Some keys of `source` have been merged. */
  predicate PartlyMerged(result: Fields, before: Fields, source: Fields, done: set<string>) {
    && done <= source.Keys && result.Keys == before.Keys + done
    && forall k | k in result :: result[k] == if k in done then Merge(before, source)[k] else before[k]
  }

  lemma OneMoreMerged(result: Fields, before: Fields, source: Fields, done: set<string>, key: string, value: Json)
    requires PartlyMerged(result, before, source, done) && key in source && key !in done
    requires value == if key in result && result[key].Obj? && source[key].Obj?
      then Obj(Merge(result[key].fields, source[key].fields)) else source[key]
    ensures PartlyMerged(result[key := value], before, source, done + {key})
  {
  }

  lemma NoneMerged()
    ensures MergeAll([]) == map[]
  {
  }

  lemma NothingMerged(before: Fields, source: Fields)
    ensures PartlyMerged(before, before, source, {})
  {
  }

  lemma NotYetMerged(result: Fields, before: Fields, source: Fields, done: set<string>, key: string)
    requires PartlyMerged(result, before, source, done) && key !in done
    ensures key in result ==> key in before
  {
  }

  lemma AllKeysMerged(result: Fields, before: Fields, source: Fields)
    requires PartlyMerged(result, before, source, source.Keys)
    ensures result == Merge(before, source)
  {
  }

  lemma MergeAllStep(objects: seq<Fields>, i: nat)
    requires i < |objects|
    ensures MergeAll(objects[..i + 1]) == Merge(MergeAll(objects[..i]), objects[i])
  {
    assert objects[..i + 1][..i] == objects[..i];
  }

  lemma MergeAllPair(a: Fields, b: Fields)
    ensures MergeAll([a, b]) == Merge(a, b)
  {
    MergeAllOne(a);
    assert [a, b][..1] == [a];
  }

  lemma MergeAllOne(a: Fields)
    ensures MergeAll([a]) == a
  {
  }

  /** The value a path of keys leads to. */
  function At(root: Option<Json>, path: seq<string>): Option<Json>
    decreases |path|
  {
    if path == [] then root
    else if root.Some? && root.value.Obj? then At(Field(root.value.fields, path[0]), path[1..])
    else None
  }

  function Field(fields: Fields, key: string): Option<Json> {
    if key in fields then Some(fields[key]) else None
  }

  lemma SameFields(a: Fields, b: Fields)
    requires forall k :: Field(a, k) == Field(b, k)
    ensures a == b
  {
    forall k ensures k in a <==> k in b {
      assert Field(a, k) == Field(b, k);
    }
    forall k | k in a ensures a[k] == b[k] {
      assert Field(a, k) == Field(b, k);
    }
  }

  method ReadPath(root: Option<Json>, path: seq<string>) returns (current: Option<Json>)
    ensures current == At(root, path)
  {
    current := root;
    for i := 0 to |path|
      invariant At(current, path[i..]) == At(root, path)
    {
      if !(current.Some? && current.value.Obj?) {
        return None;
      }
      current := Field(current.value.fields, path[i]);
    }
  }

  function ReadString(root: Option<Json>, path: seq<string>): Option<string> {
    var value := At(root, path);
    if value.Some? && value.value.Str? && value.value.s != "" then Some(value.value.s) else None
  }

  function ReadBool(root: Option<Json>, path: seq<string>): Option<bool> {
    var value := At(root, path);
    if value.Some? && value.value.Bool? then Some(value.value.b) else None
  }

  function ReadRecord(root: Option<Json>, path: seq<string>): Option<Fields> {
    var value := At(root, path);
    if value.Some? && value.value.Obj? then Some(value.value.fields) else None
  }

  /** The non-empty strings of a record, if it has any. */
  function ReadStringMap(root: Option<Json>, path: seq<string>): Option<map<string, string>> {
    var value := At(root, path);
    if value.Some? && value.value.Obj? then
      var fields := value.value.fields;
      var entries := map k | k in fields && fields[k].Str? && fields[k].s != "" :: fields[k].s;
      if entries == map[] then None else Some(entries)
    else None
  }

  /** `valuesSubsetOf`: every key of the desired tree is present in the live one with a covering value. */
  predicate Covers(live: Json, desired: Json)
    decreases desired
  {
    match desired
    case Obj(fields) =>
      && live.Obj?
      && forall k | k in fields :: k in live.fields && Covers(live.fields[k], fields[k])
    case Arr(items) =>
      && live.Arr?
      && |live.items| == |items|
      && forall i | 0 <= i < |items| :: Covers(live.items[i], items[i])
    case _ => live == desired
  }

  lemma {:induction false} CoversReflexive(v: Json)
    ensures Covers(v, v)
  {
    match v
    case Obj(fields) =>
      forall k | k in fields ensures Covers(fields[k], fields[k]) {
        CoversReflexive(fields[k]);
      }
    case Arr(items) =>
      forall i | 0 <= i < |items| ensures Covers(items[i], items[i]) {
        CoversReflexive(items[i]);
      }
    case _ =>
  }

  lemma {:induction false} CoversTransitive(a: Json, b: Json, c: Json)
    requires Covers(a, b) && Covers(b, c)
    ensures Covers(a, c)
    decreases c
  {
    match c
    case Obj(fields) =>
      forall k | k in fields ensures k in a.fields && Covers(a.fields[k], fields[k]) {
        CoversTransitive(a.fields[k], b.fields[k], fields[k]);
      }
    case Arr(items) =>
      forall i | 0 <= i < |items| ensures Covers(a.items[i], items[i]) {
        CoversTransitive(a.items[i], b.items[i], items[i]);
      }
    case _ =>
  }

  /** A merge covers its later argument. */
  lemma {:induction false} MergeCoversLater(a: Fields, b: Fields)
    ensures Covers(Obj(Merge(a, b)), Obj(b))
    decreases Obj(b)
  {
    forall k | k in b ensures Covers(Merge(a, b)[k], b[k]) {
      if k in a && a[k].Obj? && b[k].Obj? {
        MergeCoversLater(a[k].fields, b[k].fields);
      } else {
        CoversReflexive(b[k]);
      }
    }
  }

  /** Merge is monotone in its earlier argument for the drift relation, with no condition on shapes. */
  lemma {:induction false} MergeMonotone(a: Fields, b: Fields, c: Fields)
    requires Covers(Obj(a), Obj(b))
    ensures Covers(Obj(Merge(a, c)), Obj(Merge(b, c)))
    decreases Obj(c)
  {
    var desired := Merge(b, c);
    forall k | k in desired ensures k in Merge(a, c) && Covers(Merge(a, c)[k], desired[k]) {
      if k !in c {
        assert Covers(a[k], b[k]);
      } else if k in b && b[k].Obj? && c[k].Obj? {
        assert Covers(a[k], b[k]);
        MergeMonotone(a[k].fields, b[k].fields, c[k].fields);
      } else {
        assert desired[k] == c[k];
        MergeCoversLater(a, c);
      }
    }
  }

  /** No record inside an array: there the drift relation compares by equality, as merge replaces. */
  predicate PlainArrays(v: Json)
    decreases v
  {
    match v
    case Obj(fields) => forall k | k in fields :: PlainArrays(fields[k])
    case Arr(items) => forall i | 0 <= i < |items| :: !items[i].Obj? && PlainArrays(items[i])
    case _ => true
  }

  lemma {:induction false} PlainCoverIsEquality(live: Json, desired: Json)
    requires PlainArrays(desired) && !desired.Obj?
    ensures Covers(live, desired) <==> live == desired
    decreases desired
  {
    CoversReflexive(desired);
    if Covers(live, desired) && desired.Arr? {
      forall i | 0 <= i < |desired.items| ensures live.items[i] == desired.items[i] {
        PlainCoverIsEquality(live.items[i], desired.items[i]);
      }
    }
  }

  /** No drift means that applying the desired values again would change nothing. */
  lemma {:induction false} CoversIffReapplyChangesNothing(live: Fields, desired: Fields)
    requires PlainArrays(Obj(desired))
    ensures Covers(Obj(live), Obj(desired)) <==> Merge(live, desired) == live
    decreases Obj(desired)
  {
    var m := Merge(live, desired);
    if Covers(Obj(live), Obj(desired)) {
      assert m.Keys == live.Keys;
      forall k | k in desired ensures m[k] == live[k] {
        assert Covers(live[k], desired[k]);
        if desired[k].Obj? {
          CoversIffReapplyChangesNothing(live[k].fields, desired[k].fields);
        } else {
          PlainCoverIsEquality(live[k], desired[k]);
        }
      }
    } else if m == live {
      MergeCoversLater(live, desired);
    }
  }

  /** Nothing in `a` is missing from `c`: merging `c` over `a` adds nothing to `c`. */
  predicate Within(a: Fields, c: Fields)
    decreases Obj(c)
  {
    forall k | k in a ::
      k in c && (a[k].Obj? && c[k].Obj? ==> Within(a[k].fields, c[k].fields))
  }

  lemma {:induction false} MergeAddsNothing(a: Fields, c: Fields)
    ensures Merge(a, c) == c <==> Within(a, c)
    decreases Obj(c)
  {
    var m := Merge(a, c);
    forall k | k in a && k in c && a[k].Obj? && c[k].Obj?
      ensures m[k] == c[k] <==> Within(a[k].fields, c[k].fields)
    {
      MergeAddsNothing(a[k].fields, c[k].fields);
    }
    if Within(a, c) {
      assert m.Keys == c.Keys;
    } else {
      var k :| k in a && !(k in c && (a[k].Obj? && c[k].Obj? ==> Within(a[k].fields, c[k].fields)));
      assert k in m && (k !in c || m[k] != c[k]);
    }
  }

  /** A merge has nothing beyond `c` exactly if its later argument has nothing beyond it, where its earlier one has not. */
  lemma {:induction false} MergeWithin(a: Fields, b: Fields, c: Fields)
    requires Within(a, c)
    ensures Within(Merge(a, b), c) <==> Within(b, c)
    decreases Obj(c)
  {
    forall k | k in a && k in b && k in c && a[k].Obj? && b[k].Obj? && c[k].Obj?
      ensures Within(Merge(a[k].fields, b[k].fields), c[k].fields) <==> Within(b[k].fields, c[k].fields)
    {
      MergeWithin(a[k].fields, b[k].fields, c[k].fields);
    }
    var merged := Merge(a, b);
    if Within(merged, c) {
      forall k | k in b ensures k in c && (b[k].Obj? && c[k].Obj? ==> Within(b[k].fields, c[k].fields)) {
        assert k in merged;
      }
    }
    if Within(b, c) {
      forall k | k in merged ensures k in c && (merged[k].Obj? && c[k].Obj? ==> Within(merged[k].fields, c[k].fields)) {
        assert k in a || k in b;
      }
    }
  }

  /** The shapes for which deep merge is associative: wherever a value that is no record separates two
      records, the earlier record must already lie within the later one. */
  predicate Associable(a: Fields, b: Fields, c: Fields)
    decreases Obj(c), 1
  {
    forall k | k in c :: AssociableAt(a, b, c, k)
  }

  predicate AssociableAt(a: Fields, b: Fields, c: Fields, k: string)
    requires k in c
    decreases Obj(c), 0
  {
    k in a && k in b && a[k].Obj? && c[k].Obj? ==>
      if b[k].Obj? then Associable(a[k].fields, b[k].fields, c[k].fields)
      else Within(a[k].fields, c[k].fields)
  }

  lemma {:induction false} MergeAssociative(a: Fields, b: Fields, c: Fields)
    ensures Merge(Merge(a, b), c) == Merge(a, Merge(b, c)) <==> Associable(a, b, c)
    decreases Obj(c), 1
  {
    var left, right := Merge(Merge(a, b), c), Merge(a, Merge(b, c));
    assert left.Keys == right.Keys;
    forall k | k in c ensures left[k] == right[k] <==> AssociableAt(a, b, c, k) {
      MergeAssociativeAt(a, b, c, k);
    }
    forall k | k !in c ensures Field(left, k) == Field(right, k) {
      MergeIsLocal(a, a, Merge(b, c), b, k);
    }
    hide Merge, AssociableAt;
    if Associable(a, b, c) {
      forall k ensures Field(left, k) == Field(right, k) {
      }
      SameFields(left, right);
    }
  }

  lemma {:induction false} MergeAssociativeAt(a: Fields, b: Fields, c: Fields, k: string)
    requires k in c
    ensures Merge(Merge(a, b), c)[k] == Merge(a, Merge(b, c))[k] <==> AssociableAt(a, b, c, k)
    decreases Obj(c), 0
  {
    if k in a && k in b && a[k].Obj? && c[k].Obj? {
      if b[k].Obj? {
        MergeAssociative(a[k].fields, b[k].fields, c[k].fields);
      } else {
        MergeAddsNothing(a[k].fields, c[k].fields);
      }
    }
  }

  /** Three records for which the order of merging shows. */
  lemma MergeNotAssociative()
    ensures
      var a: Fields := map["k" := Obj(map["x" := Num(1.0)])];
      var b: Fields := map["k" := Num(5.0)];
      var c: Fields := map["k" := Obj(map["y" := Num(2.0)])];
      Merge(Merge(a, b), c) != Merge(a, Merge(b, c))
  {
    var a: Fields := map["k" := Obj(map["x" := Num(1.0)])];
    var b: Fields := map["k" := Num(5.0)];
    var c: Fields := map["k" := Obj(map["y" := Num(2.0)])];
    MergeAssociative(a, b, c);
    assert "x" in a["k"].fields && "x" !in c["k"].fields;
    assert !Within(a["k"].fields, c["k"].fields);
    assert !AssociableAt(a, b, c, "k");
  }

  /** Merging a base in a second time changes nothing. */
  lemma {:induction false} MergeAbsorbs(a: Fields, b: Fields)
    ensures Merge(a, Merge(a, b)) == Merge(a, b)
    decreases Obj(b)
  {
    var once, twice := Merge(a, b), Merge(a, Merge(a, b));
    assert once.Keys == twice.Keys;
    forall k | k in once ensures once[k] == twice[k] {
      if k in a && a[k].Obj? {
        if k in b && b[k].Obj? {
          MergeAbsorbs(a[k].fields, b[k].fields);
        } else if k !in b {
          MergeSame(a[k].fields);
        }
      }
    }
  }

  lemma {:induction false} MergeSame(a: Fields)
    ensures Merge(a, a) == a
    decreases Obj(a)
  {
    WithinSame(a);
    MergeAddsNothing(a, a);
  }

  lemma {:induction false} WithinSame(a: Fields)
    ensures Within(a, a)
    decreases Obj(a)
  {
    forall k | k in a && a[k].Obj? ensures Within(a[k].fields, a[k].fields) {
      WithinSame(a[k].fields);
    }
  }

  /** Repeating the last merge changes nothing. */
  lemma {:induction false} MergeRepeats(a: Fields, b: Fields)
    ensures Merge(Merge(a, b), b) == Merge(a, b)
    decreases Obj(b)
  {
    var once, twice := Merge(a, b), Merge(Merge(a, b), b);
    assert once.Keys == twice.Keys;
    forall k | k in b && b[k].Obj? ensures once[k] == twice[k] {
      if k in a && a[k].Obj? {
        MergeRepeats(a[k].fields, b[k].fields);
      } else {
        MergeSame(b[k].fields);
      }
    }
  }

  /** Repeating the last two merges changes nothing either, whatever the shapes. */
  lemma {:induction false} MergePairRepeats(a: Fields, b: Fields, c: Fields)
    ensures Merge(Merge(Merge(Merge(a, b), c), b), c) == Merge(Merge(a, b), c)
    decreases Obj(c)
  {
    var under := Merge(a, b);
    var once := Merge(under, c);
    var again := Merge(once, b);
    MergeRepeats(a, b);
    forall k ensures Field(Merge(again, c), k) == Field(once, k) {
      if k in c {
        MergePairRepeatsAt(a, b, c, k);
      } else {
        MergeIsLocal(under, once, b, b, k);
        MergeIsLocal(again, under, c, c, k);
      }
    }
    hide Merge;
    SameFields(Merge(again, c), once);
  }

  lemma {:induction false} MergePairRepeatsAt(a: Fields, b: Fields, c: Fields, k: string)
    requires k in c
    ensures Merge(Merge(Merge(Merge(a, b), c), b), c)[k] == Merge(Merge(a, b), c)[k]
    decreases Obj(c), 0
  {
    if c[k].Obj? {
      var inner := c[k].fields;
      if k in b && b[k].Obj? {
        var under := if k in a && a[k].Obj? then a[k].fields else map[];
        MergeEmpty(b[k].fields);
        assert Merge(a, b)[k] == Obj(Merge(under, b[k].fields));
        MergePairRepeats(under, b[k].fields, inner);
      } else if k in a && a[k].Obj? && k !in b {
        MergeRepeats(a[k].fields, inner);
      } else {
        MergeSame(inner);
      }
    }
  }

  /** Merging a base under two layers that already lie on it: a no-op for exactly the associable shapes. */
  lemma {:induction false} RenormaliseIsNoop(base: Fields, a: Fields, b: Fields)
    ensures Merge(base, Merge(Merge(base, a), b)) == Merge(Merge(base, a), b) <==> Associable(base, a, b)
    decreases Obj(b), 1
  {
    hide AssociableAt, Within;
    var once := Merge(Merge(base, a), b);
    var twice := Merge(base, once);
    assert once.Keys == twice.Keys;
    forall k | k in once
      ensures once[k] == twice[k] <==> (k in b ==> AssociableAt(base, a, b, k))
    {
      RenormaliseIsNoopAt(base, a, b, k);
    }
  }

  lemma {:induction false} RenormaliseIsNoopAt(base: Fields, a: Fields, b: Fields, k: string)
    requires k in Merge(Merge(base, a), b)
    ensures Merge(base, Merge(Merge(base, a), b))[k] == Merge(Merge(base, a), b)[k]
            <==> (k in b ==> AssociableAt(base, a, b, k))
    decreases Obj(b), 0
  {
    if k !in base || !base[k].Obj? {
    } else if k !in b {
      MergeAbsorbs(base, a);
      assert Merge(Merge(base, a), b)[k] == Merge(base, a)[k];
    } else if b[k].Obj? {
      if k !in a {
        MergeAbsorbs(base[k].fields, b[k].fields);
      } else if a[k].Obj? {
        RenormaliseIsNoop(base[k].fields, a[k].fields, b[k].fields);
      } else {
        MergeAddsNothing(base[k].fields, b[k].fields);
      }
    }
  }
}
