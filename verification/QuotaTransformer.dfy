/** Resource quota overrides from namespace annotations: the transformer that scans the
    annotations and overwrites keys of the quota it is given. */
module QuotaTransformer {
  import opened Basics
  import opened Text

  const STORAGE := "storageclass.storage.k8s.io"
  const STORAGE_CLASSES := "storageclasses"

  /** Reads a JSON object of strings; not part of this model beyond being a partial function. */
  type ParseStrings = string -> Option<StringMap>

  predicate EndsInSlash(labelBase: string) {
    labelBase != "" && labelBase[|labelBase| - 1] == '/'
  }

  /** The label base without one trailing slash. */
  function Trimmed(labelBase: string): string {
    if EndsInSlash(labelBase) then labelBase[..|labelBase| - 1] else labelBase
  }

  /** The label base, normalized to end with a slash: one trailing slash is trimmed, one is added. */
  function NormalizedBase(labelBase: string): string {
    Trimmed(labelBase) + "/"
  }

  function Decode(key: string): string {
    ReplaceAll(key, "_", "/")
  }

  // ---------- what a single annotation says ----------

  datatype Entry = Irrelevant | Malformed | Overrides(name: string, values: StringMap)

  function ParseAnnotation(base: string, parse: ParseStrings, k: string, v: string): Entry {
    if !HasPrefix(k, base) then Irrelevant
    else match CutAt(k[|base|..], '.')
      case NoCut => Malformed
      case Cut(name, key) =>
        if key == STORAGE_CLASSES then
          match parse(v)
          case None => Malformed
          case Some(conf) => Overrides(name, map c | c in conf && Contains(c, STORAGE) :: conf[c])
        else
          Overrides(name, map[Decode(key) := v])
  }

  /** What one annotation overrides of one quota. */
  function ValuesFor(base: string, parse: ParseStrings, annotations: StringMap, k: string, name: string): StringMap
  {
    if k !in annotations then map[]
    else
      var e := ParseAnnotation(base, parse, k, annotations[k]);
      if e.Overrides? && e.name == name then e.values else map[]
  }

  predicate IsMalformed(base: string, parse: ParseStrings, annotations: StringMap, k: string) {
    k in annotations && ParseAnnotation(base, parse, k, annotations[k]).Malformed?
  }

  ghost predicate AnyMalformed(base: string, parse: ParseStrings, annotations: StringMap) {
    exists k :: k in annotations && IsMalformed(base, parse, annotations, k)
  }

  /** An annotation is reported exactly when its key has the prefix and no '.' after it, or belongs to
      the storage classes of some quota and does not read as JSON. */
  lemma MalformedIff(base: string, parse: ParseStrings, annotations: StringMap, k: string)
    ensures IsMalformed(base, parse, annotations, k) <==>
            && k in annotations
            && ((exists rest :: k == base + rest && '.' !in rest)
                || (parse(annotations[k]).None?
                    && exists name :: '.' !in name && k == base + (name + ['.'] + STORAGE_CLASSES)))
  {
    HasPrefixIff(k, base);
    if HasPrefix(k, base) {
      var rest := k[|base|..];
      CutAtFirst(rest, '.');
      assert k == base + rest;
      assert forall r :: k == base + r ==> r == rest;
      forall name | '.' !in name && rest == name + ['.'] + STORAGE_CLASSES
        ensures CutAt(rest, '.') == Cut(name, STORAGE_CLASSES)
      {
        CutAtUnique(name, '.', STORAGE_CLASSES);
      }
    }
  }

  // ---------- reading the annotations in some order ----------

  ghost predicate Enumerates(order: seq<string>, keys: set<string>) {
    Distinct(order) && forall k :: k in order <==> k in keys
  }

  /** The overrides of one quota when the annotations are read in the given order: of two that
      name the same key, the later one stays. */
  ghost function Merged(base: string, parse: ParseStrings, annotations: StringMap, order: seq<string>, name: string)
    : StringMap
  {
    if order == [] then map[]
    else
      Merged(base, parse, annotations, order[..|order| - 1], name)
      + ValuesFor(base, parse, annotations, order[|order| - 1], name)
  }

  /** A list of overrides, applied one after the other. */
  datatype KV = KV(k: string, v: string)

  ghost function Applied(kvs: seq<KV>): StringMap {
    if kvs == [] then map[]
    else Applied(kvs[..|kvs| - 1])[kvs[|kvs| - 1].k := kvs[|kvs| - 1].v]
  }

  lemma AppliedAppend(kvs: seq<KV>, kv: KV)
    ensures Applied(kvs + [kv]) == Applied(kvs)[kv.k := kv.v]
  {
    assert (kvs + [kv])[..|kvs|] == kvs;
  }

  function Listed(overrides: map<string, seq<KV>>, name: string): seq<KV> {
    if name in overrides then overrides[name] else []
  }

  /** The overrides by quota name. Annotations are read in an arbitrary order; malformed ones are
      reported and drop out alone. */
  method OverridesFromObj(base: string, parse: ParseStrings, annotations: StringMap)
    returns (overrides: map<string, seq<KV>>, failed: bool, ghost order: seq<string>)
    ensures Enumerates(order, annotations.Keys)
    ensures failed <==> AnyMalformed(base, parse, annotations)
    ensures forall name :: Applied(Listed(overrides, name)) == Merged(base, parse, annotations, order, name)
    ensures forall name :: name in overrides ==> overrides[name] != []
  {
    overrides, failed, order := map[], false, [];
    var rest := annotations.Keys;
    while rest != {}
      invariant rest <= annotations.Keys
      invariant Enumerates(order, annotations.Keys - rest)
      invariant failed <==> exists k :: k in order && IsMalformed(base, parse, annotations, k)
      invariant forall name :: Applied(Listed(overrides, name)) == Merged(base, parse, annotations, order, name)
      invariant forall name :: name in overrides ==> overrides[name] != []
      decreases rest
    {
      var k :| k in rest;
      rest := rest - {k};
      MergedAppend(base, parse, annotations, order, k);
      EnumeratesAppend(order, annotations.Keys - rest - {k}, k);
      order := order + [k];
      assert annotations.Keys - rest - {k} + {k} == annotations.Keys - rest;
      var malformed;
      overrides, malformed := ReadAnnotation(base, parse, annotations, overrides, k);
      failed := failed || malformed;
    }
  }

  /** One round of the loop: what annotation k adds to the lists. */
  method ReadAnnotation(base: string, parse: ParseStrings, annotations: StringMap, overrides: map<string, seq<KV>>,
                        k: string)
    returns (updated: map<string, seq<KV>>, malformed: bool)
    requires k in annotations && forall n :: n in overrides ==> overrides[n] != []
    ensures malformed <==> IsMalformed(base, parse, annotations, k)
    ensures forall n :: n in updated ==> updated[n] != []
    ensures forall name :: Applied(Listed(updated, name)) ==
                           Applied(Listed(overrides, name)) + ValuesFor(base, parse, annotations, k, name)
  {
    match ParseAnnotation(base, parse, k, annotations[k])
    case Irrelevant =>
      updated, malformed := overrides, false;
    case Malformed =>
      updated, malformed := overrides, true;
    case Overrides(name, values) =>
      updated := AppendAll(overrides, name, values);
      malformed := false;
  }

  /** Appends every pair of a map to the list of one quota, in an arbitrary order. */
  method AppendAll(overrides: map<string, seq<KV>>, name: string, values: StringMap)
    returns (updated: map<string, seq<KV>>)
    requires forall n :: n in overrides ==> overrides[n] != []
    ensures Applied(Listed(updated, name)) == Applied(Listed(overrides, name)) + values
    ensures forall n :: n != name ==> Listed(updated, n) == Listed(overrides, n)
    ensures forall n :: n in updated ==> updated[n] != []
  {
    var kvs := Listed(overrides, name);
    ghost var before := Applied(kvs);
    var rest := values.Keys;
    while rest != {}
      invariant rest <= values.Keys
      invariant Applied(kvs) == before + (values - rest)
      invariant rest != values.Keys ==> kvs != []
      invariant rest == values.Keys ==> kvs == Listed(overrides, name)
      decreases rest
    {
      var c :| c in rest;
      rest := rest - {c};
      AppliedAppend(kvs, KV(c, values[c]));
      kvs := kvs + [KV(c, values[c])];
    }
    assert values - rest == values;
    updated := if values == map[] then overrides else overrides[name := kvs];
  }

  lemma MergedAppend(base: string, parse: ParseStrings, annotations: StringMap, order: seq<string>, k: string)
    ensures forall name :: Merged(base, parse, annotations, order + [k], name) ==
                           Merged(base, parse, annotations, order, name) + ValuesFor(base, parse, annotations, k, name)
  {
    assert (order + [k])[..|order|] == order;
  }

  // ---------- transforming an object ----------

  /** The `spec.hard` field of an unstructured object: missing, a map, or out of reach because
      something on the way is not a map. */
  datatype HardField = Absent | Hard(values: StringMap) | Blocked

  function Overwritten(field: HardField, values: StringMap): HardField {
    if values == map[] then field
    else match field
      case Absent => Hard(values)
      case Hard(present) => Hard(present + values)
      case Blocked => Blocked
  }

  /** Whatever can be reached is overwritten, and nothing else changes. */
  lemma OverwrittenKeys(field: HardField, values: StringMap, k: string)
    requires !field.Blocked? && (field.Hard? || values != map[])
    ensures
      var after := Overwritten(field, values);
      && after.Hard?
      && Find(after.values, k) == if k in values then Some(values[k])
                                  else if field.Hard? then Find(field.values, k)
                                  else None
  {
  }

  class Unstructured {
    const isQuota: bool
    const name: string
    var hard: HardField

    constructor (isQuota: bool, name: string, hard: HardField)
      ensures this.isQuota == isQuota && this.name == name && this.hard == hard
    {
      this.isQuota, this.name, this.hard := isQuota, name, hard;
    }

    /** SetNestedField on `spec.hard`. */
    method SetHard(k: string, v: string) returns (ok: bool)
      modifies this
      ensures hard == Overwritten(old(hard), map[k := v])
      ensures ok <==> !old(hard).Blocked?
    {
      assert k in map[k := v];
      match hard
      case Absent =>
        hard := Hard(map[k := v]);
        ok := true;
      case Hard(values) =>
        assert values[k := v] == values + map[k := v];
        hard := Hard(values[k := v]);
        ok := true;
      case Blocked =>
        ok := false;
    }

    /** Sets the given pairs one after the other; a failing one does not stop the rest. */
    method SetAll(kvs: seq<KV>) returns (failed: bool)
      modifies this
      ensures hard == Overwritten(old(hard), Applied(kvs))
      ensures failed <==> kvs != [] && old(hard).Blocked?
    {
      failed := false;
      for i := 0 to |kvs|
        invariant hard == Overwritten(old(hard), Applied(kvs[..i]))
        invariant failed <==> i > 0 && old(hard).Blocked?
      {
        OverwrittenStep(old(hard), kvs, i);
        var ok := SetHard(kvs[i].k, kvs[i].v);
        failed := failed || !ok;
      }
      assert kvs[..|kvs|] == kvs;
    }
  }

  lemma OverwrittenStep(field: HardField, kvs: seq<KV>, i: nat)
    requires i < |kvs|
    ensures Overwritten(field, Applied(kvs[..i + 1])) ==
            Overwritten(Overwritten(field, Applied(kvs[..i])), map[kvs[i].k := kvs[i].v])
  {
    assert kvs[..i] + [kvs[i]] == kvs[..i + 1];
    AppliedAppend(kvs[..i], kvs[i]);
    OverwrittenOneMore(field, Applied(kvs[..i]), kvs[i].k, kvs[i].v);
  }

  lemma OverwrittenOneMore(field: HardField, m: StringMap, k: string, v: string)
    ensures Overwritten(field, m[k := v]) == Overwritten(Overwritten(field, m), map[k := v])
  {
    var one := map[k := v];
    assert k in one && k in m[k := v];
    assert m[k := v] == m + one;
    match field
    case Absent =>
    case Blocked =>
    case Hard(values) =>
      assert values + (m + one) == (values + m) + one;
  }

  /** Overwrites the hard limits of a resource quota and leaves every other object alone. */
  method Transform(labelBase: string, parse: ParseStrings, u: Unstructured, annotations: StringMap)
    returns (failed: bool, ghost order: seq<string>)
    modifies u
    ensures !u.isQuota ==> u.hard == old(u.hard) && !failed
    ensures u.isQuota ==> Enumerates(order, annotations.Keys)
    ensures u.isQuota ==>
              var base := NormalizedBase(labelBase);
              var values := Merged(base, parse, annotations, order, u.name);
              && u.hard == Overwritten(old(u.hard), values)
              && (failed <==> AnyMalformed(base, parse, annotations) || (values != map[] && old(u.hard).Blocked?))
  {
    order := [];
    if !u.isQuota {
      return false, order;
    }
    var overrides, parseFailed, o := OverridesFromObj(NormalizedBase(labelBase), parse, annotations);
    order := o;
    failed := parseFailed;
    if u.name !in overrides {
      return;
    }
    var blocked := u.SetAll(overrides[u.name]);
    failed := failed || blocked;
    AppliedNonEmpty(overrides[u.name]);
  }

  lemma AppliedNonEmpty(kvs: seq<KV>)
    requires kvs != []
    ensures Applied(kvs) != map[]
  {
    assert kvs[|kvs| - 1].k in Applied(kvs);
  }

  // ---------- when the order does not matter ----------

  /** No two annotations give the same key of the quota different values. */
  ghost predicate ConflictFree(base: string, parse: ParseStrings, annotations: StringMap, name: string) {
    forall a, b, k :: a in annotations && b in annotations
                      && k in ValuesFor(base, parse, annotations, a, name)
                      && k in ValuesFor(base, parse, annotations, b, name)
                      ==> ValuesFor(base, parse, annotations, a, name)[k]
                          == ValuesFor(base, parse, annotations, b, name)[k]
  }

  ghost predicate OrderIrrelevant(base: string, parse: ParseStrings, annotations: StringMap, name: string) {
    forall o, o' :: Enumerates(o, annotations.Keys) && Enumerates(o', annotations.Keys) ==>
      Merged(base, parse, annotations, o, name) == Merged(base, parse, annotations, o', name)
  }

  /** Every merged value comes from an annotation, and every key an annotation names is merged. */
  lemma {:induction false} MergedOrigin(base: string, parse: ParseStrings, annotations: StringMap, order: seq<string>,
                                        name: string, k: string)
    ensures k in Merged(base, parse, annotations, order, name) <==>
            exists a :: a in order && k in ValuesFor(base, parse, annotations, a, name)
    ensures k in Merged(base, parse, annotations, order, name) ==>
              exists a :: a in order && k in ValuesFor(base, parse, annotations, a, name)
                          && ValuesFor(base, parse, annotations, a, name)[k]
                             == Merged(base, parse, annotations, order, name)[k]
  {
    if order != [] {
      var init, last := order[..|order| - 1], order[|order| - 1];
      assert order == init + [last];
      MergedOrigin(base, parse, annotations, init, name, k);
      if k in Merged(base, parse, annotations, order, name) {
        if k in ValuesFor(base, parse, annotations, last, name) {
          assert last in order;
        } else {
          var a :| a in init && k in ValuesFor(base, parse, annotations, a, name) &&
            ValuesFor(base, parse, annotations, a, name)[k] == Merged(base, parse, annotations, init, name)[k];
          assert a in order;
        }
      }
    }
  }

  ghost function SomeOrder(keys: set<string>): (order: seq<string>)
    ensures Enumerates(order, keys)
  {
    if keys == {} then []
    else
      var k :| k in keys;
      EnumeratesAppend(SomeOrder(keys - {k}), keys - {k}, k);
      SomeOrder(keys - {k}) + [k]
  }

  lemma EnumeratesAppend(order: seq<string>, keys: set<string>, k: string)
    requires Enumerates(order, keys) && k !in keys
    ensures Enumerates(order + [k], keys + {k})
  {
    assert k !in order;
  }

  /** The order in which a Go map is iterated shows in the result exactly when there is a conflict. */
  lemma OrderIrrelevantIff(base: string, parse: ParseStrings, annotations: StringMap, name: string)
    ensures OrderIrrelevant(base, parse, annotations, name) <==> ConflictFree(base, parse, annotations, name)
  {
    if OrderIrrelevant(base, parse, annotations, name) {
      forall a, b, k | a in annotations && b in annotations
                       && k in ValuesFor(base, parse, annotations, a, name)
                       && k in ValuesFor(base, parse, annotations, b, name)
        ensures ValuesFor(base, parse, annotations, a, name)[k] == ValuesFor(base, parse, annotations, b, name)[k]
      {
        LastOneStays(base, parse, annotations, name, a, k);
        LastOneStays(base, parse, annotations, name, b, k);
      }
    }
    if ConflictFree(base, parse, annotations, name) {
      forall o, o' | Enumerates(o, annotations.Keys) && Enumerates(o', annotations.Keys)
        ensures Merged(base, parse, annotations, o, name) == Merged(base, parse, annotations, o', name)
      {
        var m, m' := Merged(base, parse, annotations, o, name), Merged(base, parse, annotations, o', name);
        forall k ensures k in m <==> k in m'
                 ensures k in m ==> m[k] == m'[k]
        {
          SameKeys(o, o', annotations.Keys);
          MergedOrigin(base, parse, annotations, o, name, k);
          MergedOrigin(base, parse, annotations, o', name, k);
        }
      }
    }
  }

  /** Different orders can disagree on values only, and then the object shows it. */
  lemma SameMergedKeys(base: string, parse: ParseStrings, annotations: StringMap, o: seq<string>, o': seq<string>,
                       name: string)
    requires Enumerates(o, annotations.Keys) && Enumerates(o', annotations.Keys)
    ensures Merged(base, parse, annotations, o, name).Keys == Merged(base, parse, annotations, o', name).Keys
  {
    SameKeys(o, o', annotations.Keys);
    forall k ensures k in Merged(base, parse, annotations, o, name) <==> k in Merged(base, parse, annotations, o', name)
    {
      MergedOrigin(base, parse, annotations, o, name, k);
      MergedOrigin(base, parse, annotations, o', name, k);
    }
  }

  lemma OverwrittenDiffers(field: HardField, m: StringMap, m': StringMap)
    requires m.Keys == m'.Keys && m != m' && !field.Blocked?
    ensures Overwritten(field, m) != Overwritten(field, m')
  {
    var k :| k in m && m[k] != m'[k];
    assert m != map[] && m' != map[];
    if field.Hard? {
      assert (field.values + m)[k] == m[k] && (field.values + m')[k] == m'[k];
    }
  }

  lemma SameKeys(o: seq<string>, o': seq<string>, keys: set<string>)
    requires Enumerates(o, keys) && Enumerates(o', keys)
    ensures forall x :: x in o <==> x in o'
  {
    assert forall x :: x in o <==> x in keys;
    assert forall x :: x in o' <==> x in keys;
  }

  lemma LastOneStays(base: string, parse: ParseStrings, annotations: StringMap, name: string, a: string, k: string)
    requires a in annotations && k in ValuesFor(base, parse, annotations, a, name)
    ensures exists o :: Enumerates(o, annotations.Keys)
                        && k in Merged(base, parse, annotations, o, name)
                        && Merged(base, parse, annotations, o, name)[k]
                           == ValuesFor(base, parse, annotations, a, name)[k]
  {
    var rest := SomeOrder(annotations.Keys - {a});
    EnumeratesAppend(rest, annotations.Keys - {a}, a);
    assert annotations.Keys - {a} + {a} == annotations.Keys;
    MergedAppend(base, parse, annotations, rest, a);
    assert Enumerates(rest + [a], annotations.Keys);
  }
}
