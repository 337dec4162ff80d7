/** When the two quota override implementations agree. */
module QuotaAgreement {
  import opened Basics
  import opened Text
  import opened QuotaTransformer
  import opened LegacyQuota

  // ---------- the '_' for '/' encoding ----------

  /** Encoding and decoding are inverse to each other on keys without the character they produce. */
  lemma DecodeEncode(key: string)
    ensures Decode(Encode(key)) == key <==> '_' !in key
  {
    ReplaceCharPointwise(key, '/', '_');
    ReplaceCharPointwise(Encode(key), '_', '/');
    if '_' in key {
      var i :| 0 <= i < |key| && key[i] == '_';
      assert Decode(Encode(key))[i] == '/';
    }
  }

  lemma EncodeDecode(suffix: string)
    requires '/' !in suffix
    ensures Encode(Decode(suffix)) == suffix
  {
    ReplaceCharPointwise(suffix, '_', '/');
    ReplaceCharPointwise(Decode(suffix), '/', '_');
  }

  /** Two suffixes without '/' that decode to the same key are the same. */
  lemma DecodeInjective(a: string, b: string)
    requires '/' !in a && '/' !in b && Decode(a) == Decode(b)
    ensures a == b
  {
    EncodeDecode(a);
    EncodeDecode(b);
  }

  lemma EncodeIsSlashFree(key: string)
    ensures '/' !in Encode(key)
  {
    ReplaceCharPointwise(key, '/', '_');
  }

  /** Replacing characters by d cannot create an occurrence of a text without d. */
  lemma {:induction false} ReplaceKeepsAbsence(s: string, c: char, d: char, part: string)
    requires d !in part && Contains(ReplaceAll(s, [c], [d]), part)
    ensures Contains(s, part)
  {
    var r := ReplaceAll(s, [c], [d]);
    ReplaceCharPointwise(s, c, d);
    if part <= r {
      assert forall j :: 0 <= j < |part| ==> r[j] == part[j] != d;
      assert part <= s;
    } else {
      assert r[1..] == ReplaceAll(s[1..], [c], [d]);
      ReplaceKeepsAbsence(s[1..], c, d, part);
    }
  }

  /** Encoding and decoding keep a key on its side of the storage class distinction. */
  lemma StorageUnaffected(key: string)
    ensures Contains(Decode(key), STORAGE) ==> Contains(key, STORAGE)
    ensures Contains(Encode(key), STORAGE) ==> Contains(key, STORAGE)
  {
    if Contains(Decode(key), STORAGE) {
      ReplaceKeepsAbsence(key, '_', '/', STORAGE);
    }
    if Contains(Encode(key), STORAGE) {
      ReplaceKeepsAbsence(key, '/', '_', STORAGE);
    }
  }

  // ---------- which annotation overrides what ----------

  /** An annotation key splits at the first '.' after the base in one way only. */
  lemma ParsedKey(base: string, name: string, suffix: string)
    requires '.' !in name
    ensures
      var k := AnnotationKey(base, name, suffix);
      HasPrefix(k, base + "/") && CutAt(k[|base + "/"|..], '.') == Cut(name, suffix)
  {
    var k := AnnotationKey(base, name, suffix);
    assert k == (base + "/") + (name + ['.'] + suffix);
    assert k[|base + "/"|..] == name + ['.'] + suffix;
    CutAtUnique(name, '.', suffix);
  }

  lemma KeyOfParsed(base: string, k: string)
    requires HasPrefix(k, base + "/") && CutAt(k[|base + "/"|..], '.').Cut?
    ensures
      var cut := CutAt(k[|base + "/"|..], '.');
      '.' !in cut.before && k == AnnotationKey(base, cut.before, cut.after)
  {
    var rest := k[|base + "/"|..];
    CutAtFirst(rest, '.');
    var cut := CutAt(rest, '.');
    assert k == (base + "/") + rest;
    assert AnnotationKey(base, cut.before, cut.after) == (base + "/") + (cut.before + ['.'] + cut.after);
  }

  /** v comes for key k from the JSON annotation of the quota. */
  ghost predicate FromStorage(base: string, parse: ParseStrings, annotations: StringMap, a: string, name: string,
                              k: string, v: string)
  {
    && a in annotations && a == AnnotationKey(base, name, STORAGE_CLASSES)
    && Contains(k, STORAGE) && parse(annotations[a]).Some?
    && k in parse(annotations[a]).value && v == parse(annotations[a]).value[k]
  }

  /** v comes for key k from an annotation of its own. */
  ghost predicate FromDirect(base: string, annotations: StringMap, a: string, name: string, suffix: string,
                             k: string, v: string)
  {
    && a in annotations && a == AnnotationKey(base, name, suffix)
    && suffix != STORAGE_CLASSES && k == Decode(suffix) && v == annotations[a]
  }

  /** Every override of a quota comes from one of its own annotations. */
  lemma ValuesOrigin(base: string, parse: ParseStrings, annotations: StringMap, a: string, name: string, k: string)
    returns (suffix: string)
    requires k in ValuesFor(base + "/", parse, annotations, a, name)
    ensures
      var v := ValuesFor(base + "/", parse, annotations, a, name)[k];
      FromStorage(base, parse, annotations, a, name, k, v) || FromDirect(base, annotations, a, name, suffix, k, v)
  {
    KeyOfParsed(base, a);
    suffix := CutAt(a[|base + "/"|..], '.').after;
  }

  /** The other direction, for names without '.'. */
  lemma ValuesOfDirect(base: string, parse: ParseStrings, annotations: StringMap, name: string, suffix: string)
    requires '.' !in name && AnnotationKey(base, name, suffix) in annotations
    ensures
      var a := AnnotationKey(base, name, suffix);
      ValuesFor(base + "/", parse, annotations, a, name) ==
      if suffix == STORAGE_CLASSES then
        (match parse(annotations[a])
         case None => map[]
         case Some(conf) => map c | c in conf && Contains(c, STORAGE) :: conf[c])
      else map[Decode(suffix) := annotations[a]]
  {
    ParsedKey(base, name, suffix);
  }

  /** A name with '.' is never found in an annotation. */
  lemma DottedNameHasNoValues(base: string, parse: ParseStrings, annotations: StringMap, a: string, name: string)
    requires '.' in name
    ensures ValuesFor(base + "/", parse, annotations, a, name) == map[]
  {
    if a in annotations && HasPrefix(a, base + "/") && CutAt(a[|base + "/"|..], '.').Cut? {
      KeyOfParsed(base, a);
    }
  }

  // ---------- which keys the JSON annotation overrides ----------

  /** The transformer takes every limit whose key has the storage class suffix somewhere in it from
      the JSON annotation, unless another annotation sets the same key. */
  lemma StorageFromJson(base: string, parse: ParseStrings, annotations: StringMap, order: seq<string>, name: string,
                        storageClass: string, resource: string, conf: StringMap)
    requires
      var k := storageClass + STORAGE + resource;
      && k in conf && forall suffix :: AnnotationKey(base, name, suffix) in annotations && suffix != STORAGE_CLASSES ==>
                        Decode(suffix) != k
    requires '.' !in name && Enumerates(order, annotations.Keys)
    requires AnnotationKey(base, name, STORAGE_CLASSES) in annotations
    requires parse(annotations[AnnotationKey(base, name, STORAGE_CLASSES)]) == Some(conf)
    ensures
      var k := storageClass + STORAGE + resource;
      var merged := Merged(base + "/", parse, annotations, order, name);
      k in merged && merged[k] == conf[k]
  {
    var k := storageClass + STORAGE + resource;
    ContainsIff(k, STORAGE);
    ValuesOfDirect(base, parse, annotations, name, STORAGE_CLASSES);
    MergedOrigin(base + "/", parse, annotations, order, name, k);
    assert AnnotationKey(base, name, STORAGE_CLASSES) in order;
    var a :| a in order && k in ValuesFor(base + "/", parse, annotations, a, name)
      && ValuesFor(base + "/", parse, annotations, a, name)[k]
         == Merged(base + "/", parse, annotations, order, name)[k];
    var suffix := ValuesOrigin(base, parse, annotations, a, name, k);
  }

  /** It takes no other limit from there: each comes from an annotation of its own. */
  lemma OthersNotFromJson(base: string, parse: ParseStrings, annotations: StringMap, order: seq<string>, name: string,
                          k: string)
    returns (suffix: string)
    requires Enumerates(order, annotations.Keys) && k in Merged(base + "/", parse, annotations, order, name)
    requires forall storageClass, resource :: k != storageClass + STORAGE + resource
    ensures suffix != STORAGE_CLASSES && k == Decode(suffix) && AnnotationKey(base, name, suffix) in annotations
    ensures Merged(base + "/", parse, annotations, order, name)[k] == annotations[AnnotationKey(base, name, suffix)]
  {
    ContainsIff(k, STORAGE);
    MergedOrigin(base + "/", parse, annotations, order, name, k);
    var a :| a in order && k in ValuesFor(base + "/", parse, annotations, a, name)
      && ValuesFor(base + "/", parse, annotations, a, name)[k]
         == Merged(base + "/", parse, annotations, order, name)[k];
    suffix := ValuesOrigin(base, parse, annotations, a, name, k);
  }

  /** The legacy controller does the same, and takes all other limits from annotations of their own;
      what is missing, empty or unreadable keeps the default. */
  lemma LegacyLimits(base: string, quantity: ParseQuantity, list: ParseResourceList, annotations: StringMap,
                     name: string, k: string, default: Quantity)
    ensures
      var json := AnnotationKey(base, name, STORAGE_CLASSES);
      var own := AnnotationKey(base, name, Encode(k));
      var limit := Limit(base, quantity, list, annotations, name, k, default);
      if exists storageClass, resource :: k == storageClass + STORAGE + resource then
        limit == if json in annotations && annotations[json] != "" && list(annotations[json]).Some?
                    && k in list(annotations[json]).value
                 then list(annotations[json]).value[k] else default
      else
        limit == if own in annotations && annotations[own] != "" && quantity(annotations[own]).Some?
                 then quantity(annotations[own]).value else default
    ensures
      var own := AnnotationKey(base, name, Encode(k));
      LimitUnreadable(base, quantity, annotations, name, k) <==>
      && (forall storageClass, resource :: k != storageClass + STORAGE + resource)
      && own in annotations && annotations[own] != "" && quantity(annotations[own]).None?
    ensures
      var json := AnnotationKey(base, name, STORAGE_CLASSES);
      StorageUnreadable(base, list, annotations, name) <==>
      json in annotations && annotations[json] != "" && list(annotations[json]).None?
  {
    ContainsIff(k, STORAGE);
  }

  // ---------- independence of the iteration order ----------

  /** As Kubernetes demands of annotation keys: one '/' only. */
  ghost predicate OneSlash(base: string, annotations: StringMap) {
    forall a :: a in annotations && HasPrefix(a, base + "/") ==> '/' !in a[|base + "/"|..]
  }

  /** No annotation of its own sets a key that the JSON annotation of the same quota sets. */
  ghost predicate NoOverlap(base: string, parse: ParseStrings, annotations: StringMap, name: string) {
    forall a, b, suffix, k, v, w :: FromStorage(base, parse, annotations, a, name, k, v)
                                    ==> !FromDirect(base, annotations, b, name, suffix, k, w)
  }

  lemma SuffixIsSlashFree(base: string, annotations: StringMap, name: string, suffix: string)
    requires OneSlash(base, annotations) && AnnotationKey(base, name, suffix) in annotations
    ensures '/' !in suffix
  {
    var a := AnnotationKey(base, name, suffix);
    assert a == (base + "/") + (name + "." + suffix);
    assert a[|base + "/"|..] == name + "." + suffix;
    assert forall c :: c in suffix ==> c in name + "." + suffix;
  }

  /** With well-formed keys, the result does not depend on the order in which Go iterates. */
  lemma TransformIsDeterministic(base: string, parse: ParseStrings, annotations: StringMap, name: string)
    requires OneSlash(base, annotations) && NoOverlap(base, parse, annotations, name)
    ensures OrderIrrelevant(base + "/", parse, annotations, name)
  {
    forall a, b, k | a in annotations && b in annotations
                     && k in ValuesFor(base + "/", parse, annotations, a, name)
                     && k in ValuesFor(base + "/", parse, annotations, b, name)
      ensures ValuesFor(base + "/", parse, annotations, a, name)[k]
              == ValuesFor(base + "/", parse, annotations, b, name)[k]
    {
      var s := ValuesOrigin(base, parse, annotations, a, name, k);
      var t := ValuesOrigin(base, parse, annotations, b, name, k);
      if a != b {
        var v := ValuesFor(base + "/", parse, annotations, a, name)[k];
        var w := ValuesFor(base + "/", parse, annotations, b, name)[k];
        if FromDirect(base, annotations, a, name, s, k, v) && FromDirect(base, annotations, b, name, t, k, w) {
          SuffixIsSlashFree(base, annotations, name, s);
          SuffixIsSlashFree(base, annotations, name, t);
          DecodeInjective(s, t);
        }
      }
    }
    OrderIrrelevantIff(base + "/", parse, annotations, name);
  }

  /** A storage class limit set both by an annotation of its own and by the JSON annotation. */
  function Overlapping(base: string, name: string, k: string, v: string, json: string): StringMap {
    map[AnnotationKey(base, name, Encode(k)) := v, AnnotationKey(base, name, STORAGE_CLASSES) := json]
  }

  /** Without that the order can matter, although all keys are proper. */
  lemma OverlapConflicts(base: string, parse: ParseStrings, name: string, k: string, v: string, json: string)
    requires '.' !in name && '_' !in k && Contains(k, STORAGE)
    requires parse(json).Some? && k in parse(json).value && parse(json).value[k] != v
    ensures !ConflictFree(base + "/", parse, Overlapping(base, name, k, v, json), name)
  {
    var annotations := Overlapping(base, name, k, v, json);
    var a, b := AnnotationKey(base, name, Encode(k)), AnnotationKey(base, name, STORAGE_CLASSES);
    ContainsLength(k, STORAGE);
    EncodedStorageClasses(k);
    DecodeEncode(k);
    if a == b {
      KeyInjective(base, name, Encode(k), STORAGE_CLASSES);
      assert false;
    }
    assert annotations[a] == v && annotations[b] == json;
    ValuesOfDirect(base, parse, annotations, name, Encode(k));
    ValuesOfDirect(base, parse, annotations, name, STORAGE_CLASSES);
    assert ValuesFor(base + "/", parse, annotations, a, name)[k] == v;
    assert ValuesFor(base + "/", parse, annotations, b, name)[k] == parse(json).value[k];
  }

  lemma {:induction false} ContainsLength(s: string, part: string)
    requires Contains(s, part)
    ensures |part| <= |s|
  {
    if !(part <= s) {
      ContainsLength(s[1..], part);
    }
  }

  // ---------- agreement ----------

  /** Both JSON readers see the same storage class limits. */
  ghost predicate SameContent(quantity: ParseQuantity, parse: ParseStrings, list: ParseResourceList, raw: string) {
    if raw == "" then parse(raw).None?
    else match parse(raw)
      case None => list(raw).None?
      case Some(m) => list(raw).Some? && m.Keys == list(raw).value.Keys
                      && forall k :: k in m ==> quantity(m[k]) == Some(list(raw).value[k])
  }

  /** Overrides of a quota as its documentation asks for them: proper annotation keys, readable
      values, and storage class limits in the JSON annotation only. */
  ghost predicate WellFormedUnder(base: string, quantity: ParseQuantity, parse: ParseStrings, list: ParseResourceList,
                             annotations: StringMap, name: string)
  {
    && OneSlash(base, annotations)
    && (forall suffix :: AnnotationKey(base, name, suffix) in annotations && suffix != STORAGE_CLASSES ==>
          && annotations[AnnotationKey(base, name, suffix)] != ""
          && quantity(annotations[AnnotationKey(base, name, suffix)]).Some?
          && !Contains(Decode(suffix), STORAGE))
    && (AnnotationKey(base, name, STORAGE_CLASSES) in annotations ==>
          SameContent(quantity, parse, list, annotations[AnnotationKey(base, name, STORAGE_CLASSES)]))
  }

  /** Well-formed under the prefixes that the two implementations read, which differ for a base
      that ends in a slash: only the transformer trims it. */
  ghost predicate WellFormed(base: string, quantity: ParseQuantity, parse: ParseStrings, list: ParseResourceList,
                             annotations: StringMap, name: string)
  {
    && WellFormedUnder(Trimmed(base), quantity, parse, list, annotations, name)
    && WellFormedUnder(base, quantity, parse, list, annotations, name)
  }

  /** The limit the transformer leaves at key k, where the template has the default. */
  ghost function Transformed(base: string, quantity: ParseQuantity, parse: ParseStrings, annotations: StringMap,
                             order: seq<string>, name: string, k: string, default: Quantity): Option<Quantity>
  {
    var m := Merged(NormalizedBase(base), parse, annotations, order, name);
    if k in m then quantity(m[k]) else Some(default)
  }

  ghost predicate AgreeAt(base: string, quantity: ParseQuantity, parse: ParseStrings, list: ParseResourceList,
                          annotations: StringMap, name: string, k: string, default: Quantity)
  {
    forall order :: Enumerates(order, annotations.Keys) ==>
      Transformed(base, quantity, parse, annotations, order, name, k, default)
      == Some(Limit(base, quantity, list, annotations, name, k, default))
  }

  /** Annotation a overrides key k of the quota in the transformer. */
  ghost predicate Sets(base: string, parse: ParseStrings, annotations: StringMap, a: string, name: string, k: string) {
    k in ValuesFor(NormalizedBase(base), parse, annotations, a, name)
  }

  /** Whatever sets the key reads as the given limit, which is the default if nothing does. */
  ghost predicate ReadsAs(base: string, quantity: ParseQuantity, parse: ParseStrings, annotations: StringMap,
                          name: string, k: string, default: Quantity, limit: Quantity)
  {
    && (forall a :: a in annotations && Sets(base, parse, annotations, a, name, k) ==>
          quantity(ValuesFor(NormalizedBase(base), parse, annotations, a, name)[k]) == Some(limit))
    && ((forall a :: a in annotations ==> !Sets(base, parse, annotations, a, name, k)) ==> limit == default)
  }

  /** For any annotations at all: the two implementations agree at a key, in every order, exactly when
      every annotation that sets the key in the transformer reads as the limit of the legacy
      controller, and that is the default if there is none. */
  lemma AgreeAtIff(base: string, quantity: ParseQuantity, parse: ParseStrings, list: ParseResourceList,
                   annotations: StringMap, name: string, k: string, default: Quantity)
    ensures AgreeAt(base, quantity, parse, list, annotations, name, k, default) <==>
            ReadsAs(base, quantity, parse, annotations, name, k, default,
                    Limit(base, quantity, list, annotations, name, k, default))
  {
    var limit := Limit(base, quantity, list, annotations, name, k, default);
    if AgreeAt(base, quantity, parse, list, annotations, name, k, default) {
      AllOrdersRead(base, quantity, parse, annotations, name, k, default, limit);
    }
    if ReadsAs(base, quantity, parse, annotations, name, k, default, limit) {
      forall order | Enumerates(order, annotations.Keys)
        ensures Transformed(base, quantity, parse, annotations, order, name, k, default) == Some(limit)
      {
        TransformedReads(base, quantity, parse, annotations, order, name, k, default, limit);
      }
    }
  }

  lemma AllOrdersRead(base: string, quantity: ParseQuantity, parse: ParseStrings, annotations: StringMap,
                      name: string, k: string, default: Quantity, limit: Quantity)
    requires forall order :: Enumerates(order, annotations.Keys) ==>
               Transformed(base, quantity, parse, annotations, order, name, k, default) == Some(limit)
    ensures ReadsAs(base, quantity, parse, annotations, name, k, default, limit)
  {
    forall a | a in annotations && Sets(base, parse, annotations, a, name, k)
      ensures quantity(ValuesFor(NormalizedBase(base), parse, annotations, a, name)[k]) == Some(limit)
    {
      LastOneStays(NormalizedBase(base), parse, annotations, name, a, k);
    }
    if forall a :: a in annotations ==> !Sets(base, parse, annotations, a, name, k) {
      var order := SomeOrder(annotations.Keys);
      MergedOrigin(NormalizedBase(base), parse, annotations, order, name, k);
      assert forall a :: a in order ==> !Sets(base, parse, annotations, a, name, k);
      assert Transformed(base, quantity, parse, annotations, order, name, k, default) == Some(default);
    }
  }

  lemma TransformedReads(base: string, quantity: ParseQuantity, parse: ParseStrings, annotations: StringMap,
                         order: seq<string>, name: string, k: string, default: Quantity, limit: Quantity)
    requires ReadsAs(base, quantity, parse, annotations, name, k, default, limit)
    requires Enumerates(order, annotations.Keys)
    ensures Transformed(base, quantity, parse, annotations, order, name, k, default) == Some(limit)
  {
    var m := Merged(NormalizedBase(base), parse, annotations, order, name);
    MergedOrigin(NormalizedBase(base), parse, annotations, order, name, k);
    if k in m {
      var a :| a in order && k in ValuesFor(NormalizedBase(base), parse, annotations, a, name)
        && ValuesFor(NormalizedBase(base), parse, annotations, a, name)[k] == m[k];
      assert Sets(base, parse, annotations, a, name, k);
    } else {
      forall a | a in annotations ensures !Sets(base, parse, annotations, a, name, k) {
        assert a in order;
      }
    }
  }

  /** The limits that annotations can override by way of the transformer. */
  predicate TransformerReaches(name: string, k: string) {
    '.' !in name && (Contains(k, STORAGE) || ('_' !in k && k != STORAGE_CLASSES))
  }

  /** The bases under which the legacy controller finds annotations: to the others it adds a second
      slash, which annotation keys do not have. */
  predicate LegacyReaches(base: string) {
    !EndsInSlash(base)
  }

  lemma EncodedStorageClasses(k: string)
    ensures Encode(k) == STORAGE_CLASSES <==> k == STORAGE_CLASSES
  {
    ReplaceCharPointwise(k, '/', '_');
    if Encode(k) == STORAGE_CLASSES {
      assert forall i :: 0 <= i < |k| ==> Encode(k)[i] != '_';
    }
    if k == STORAGE_CLASSES {
      assert '/' !in k;
    }
  }

  lemma AgreeOnStorage(base: string, quantity: ParseQuantity, parse: ParseStrings, list: ParseResourceList,
                       annotations: StringMap, name: string, k: string, default: Quantity, order: seq<string>)
    requires !EndsInSlash(base) && WellFormed(base, quantity, parse, list, annotations, name)
    requires '.' !in name && Contains(k, STORAGE) && Enumerates(order, annotations.Keys)
    ensures Transformed(base, quantity, parse, annotations, order, name, k, default)
            == Some(Limit(base, quantity, list, annotations, name, k, default))
  {
    var m := Merged(base + "/", parse, annotations, order, name);
    var json := AnnotationKey(base, name, STORAGE_CLASSES);
    MergedOrigin(base + "/", parse, annotations, order, name, k);
    if k in m {
      var a :| a in order && k in ValuesFor(base + "/", parse, annotations, a, name)
        && ValuesFor(base + "/", parse, annotations, a, name)[k] == m[k];
      var suffix := ValuesOrigin(base, parse, annotations, a, name, k);
      assert FromStorage(base, parse, annotations, a, name, k, m[k]);
    } else if json in annotations {
      assert json in order;
      ValuesOfDirect(base, parse, annotations, name, STORAGE_CLASSES);
    }
  }

  lemma AgreeOnOther(base: string, quantity: ParseQuantity, parse: ParseStrings, list: ParseResourceList,
                     annotations: StringMap, name: string, k: string, default: Quantity, order: seq<string>)
    requires !EndsInSlash(base) && WellFormed(base, quantity, parse, list, annotations, name)
    requires TransformerReaches(name, k) && !Contains(k, STORAGE) && Enumerates(order, annotations.Keys)
    ensures Transformed(base, quantity, parse, annotations, order, name, k, default)
            == Some(Limit(base, quantity, list, annotations, name, k, default))
  {
    var m := Merged(base + "/", parse, annotations, order, name);
    var own := AnnotationKey(base, name, Encode(k));
    MergedOrigin(base + "/", parse, annotations, order, name, k);
    EncodedStorageClasses(k);
    DecodeEncode(k);
    if k in m {
      var a :| a in order && k in ValuesFor(base + "/", parse, annotations, a, name)
        && ValuesFor(base + "/", parse, annotations, a, name)[k] == m[k];
      var suffix := ValuesOrigin(base, parse, annotations, a, name, k);
      assert FromDirect(base, annotations, a, name, suffix, k, m[k]);
      SuffixIsSlashFree(base, annotations, name, suffix);
      EncodeDecode(suffix);
    } else if own in annotations {
      assert own in order;
      ValuesOfDirect(base, parse, annotations, name, Encode(k));
    }
  }

  /** Annotations that show a disagreement, when there is one to show. */
  function Witness(base: string, name: string, k: string, v: string, json: string): StringMap {
    if Contains(k, STORAGE) then map[AnnotationKey(base, name, STORAGE_CLASSES) := json]
    else map[AnnotationKey(base, name, Encode(k)) := v]
  }

  lemma KeyInjective(base: string, name: string, s: string, t: string)
    requires AnnotationKey(base, name, s) == AnnotationKey(base, name, t)
    ensures s == t
  {
    var head := base + "/" + name + ".";
    assert AnnotationKey(base, name, s) == head + s && AnnotationKey(base, name, t) == head + t;
    assert (head + s)[|head|..] == s && (head + t)[|head|..] == t;
  }

  lemma WitnessOneSlash(base: string, name: string, suffix: string, v: string)
    requires '/' !in name && '/' !in suffix
    ensures OneSlash(base, map[AnnotationKey(base, name, suffix) := v])
  {
    var a := AnnotationKey(base, name, suffix);
    assert a == (base + "/") + (name + "." + suffix);
    assert a[|base + "/"|..] == name + "." + suffix;
  }

  lemma WitnessWellFormed(base: string, quantity: ParseQuantity, parse: ParseStrings, list: ParseResourceList,
                          name: string, k: string, v: string, json: string)
    requires '/' !in name
    requires v != "" && quantity(v).Some? && parse(v).None? && list(v).None?
    requires json != "" && SameContent(quantity, parse, list, json)
    ensures WellFormedUnder(base, quantity, parse, list, Witness(base, name, k, v, json), name)
  {
    var w := Witness(base, name, k, v, json);
    var own := if Contains(k, STORAGE) then STORAGE_CLASSES else Encode(k);
    EncodeIsSlashFree(k);
    WitnessOneSlash(base, name, own, w[AnnotationKey(base, name, own)]);
    StorageUnaffected(k);
    StorageUnaffected(Encode(k));
    forall suffix | AnnotationKey(base, name, suffix) in w ensures suffix == own {
      KeyInjective(base, name, suffix, own);
    }
  }

  /** Proper annotation keys never have the prefix that the legacy controller reads under a base
      that ends in a slash. */
  lemma NoLegacyAnnotation(base: string, annotations: StringMap, a: string)
    requires EndsInSlash(base) && OneSlash(Trimmed(base), annotations) && a in annotations
    ensures !HasPrefix(a, base + "/")
  {
    assert base == Trimmed(base) + "/";
    if |a| > |base| && HasPrefix(a, base) {
      assert a[|base|..][0] == a[|base|];
    }
  }

  lemma LegacyKeepsDefault(base: string, quantity: ParseQuantity, list: ParseResourceList, annotations: StringMap,
                           name: string, k: string, default: Quantity)
    requires EndsInSlash(base) && OneSlash(Trimmed(base), annotations)
    ensures Limit(base, quantity, list, annotations, name, k, default) == default
  {
    forall suffix ensures AnnotationKey(base, name, suffix) !in annotations {
      var a := AnnotationKey(base, name, suffix);
      assert a == (base + "/") + (name + "." + suffix);
      if a in annotations {
        NoLegacyAnnotation(base, annotations, a);
      }
    }
  }

  lemma DecodedKeys(suffix: string)
    ensures '_' !in Decode(suffix)
    ensures Decode(suffix) == STORAGE_CLASSES ==> suffix == STORAGE_CLASSES
  {
    ReplaceCharPointwise(suffix, '_', '/');
    assert '/' !in STORAGE_CLASSES;
    if '_' in suffix {
      var i :| 0 <= i < |suffix| && suffix[i] == '_';
      assert Decode(suffix)[i] == '/';
    } else {
      assert Decode(suffix) == suffix;
    }
  }

  lemma TransformerKeepsDefault(base: string, parse: ParseStrings, annotations: StringMap, order: seq<string>,
                                name: string, k: string)
    requires !TransformerReaches(name, k)
    ensures k !in Merged(base + "/", parse, annotations, order, name)
  {
    MergedOrigin(base + "/", parse, annotations, order, name, k);
    if a :| a in order && k in ValuesFor(base + "/", parse, annotations, a, name) {
      if '.' in name {
        DottedNameHasNoValues(base, parse, annotations, a, name);
      } else {
        var suffix := ValuesOrigin(base, parse, annotations, a, name, k);
        DecodedKeys(suffix);
      }
    }
  }

  /** The two implementations give the same limit at a key for all well-formed annotations exactly
      when both of them can override it, or neither can: the transformer when the quota name has no
      '.' and the key is a storage class key, or has no '_' and is not "storageclasses"; the legacy
      controller when the base does not end in a slash. */
  lemma AgreementIff(base: string, quantity: ParseQuantity, parse: ParseStrings, list: ParseResourceList,
                     name: string, k: string, default: Quantity)
    requires '/' !in name && Overridable(quantity, parse, list, k, default)
    ensures (TransformerReaches(name, k) <==> LegacyReaches(base)) <==>
            forall annotations :: WellFormed(base, quantity, parse, list, annotations, name) ==>
              AgreeAt(base, quantity, parse, list, annotations, name, k, default)
  {
    if TransformerReaches(name, k) <==> LegacyReaches(base) {
      forall annotations, order | WellFormed(base, quantity, parse, list, annotations, name)
                                  && Enumerates(order, annotations.Keys)
        ensures Transformed(base, quantity, parse, annotations, order, name, k, default)
                == Some(Limit(base, quantity, list, annotations, name, k, default))
      {
        if !LegacyReaches(base) {
          LegacyKeepsDefault(base, quantity, list, annotations, name, k, default);
          TransformerKeepsDefault(Trimmed(base), parse, annotations, order, name, k);
        } else if Contains(k, STORAGE) {
          AgreeOnStorage(base, quantity, parse, list, annotations, name, k, default, order);
        } else {
          AgreeOnOther(base, quantity, parse, list, annotations, name, k, default, order);
        }
      }
    } else {
      var _ := Disagreement(base, quantity, parse, list, name, k, default);
    }
  }

  /** Some readable override, in both notations, differs from the default. */
  ghost predicate Overridable(quantity: ParseQuantity, parse: ParseStrings, list: ParseResourceList, k: string,
                              default: Quantity)
  {
    exists v, json :: Overrides(quantity, parse, list, k, default, v, json)
  }

  ghost predicate Overrides(quantity: ParseQuantity, parse: ParseStrings, list: ParseResourceList, k: string,
                            default: Quantity, v: string, json: string)
  {
    && v != "" && quantity(v).Some? && quantity(v).value != default && parse(v).None? && list(v).None?
    && json != "" && parse(json) == Some(map[k := v]) && list(json) == Some(map[k := quantity(v).value])
  }

  /** Annotations on which the two disagree, when only one of them can override the key. */
  lemma Disagreement(base: string, quantity: ParseQuantity, parse: ParseStrings, list: ParseResourceList,
                     name: string, k: string, default: Quantity) returns (annotations: StringMap)
    requires '/' !in name && Overridable(quantity, parse, list, k, default)
    requires TransformerReaches(name, k) != LegacyReaches(base)
    ensures WellFormed(base, quantity, parse, list, annotations, name)
    ensures !AgreeAt(base, quantity, parse, list, annotations, name, k, default)
  {
    var v, json :| Overrides(quantity, parse, list, k, default, v, json);
    annotations := Witness(Trimmed(base), name, k, v, json);
    WitnessWellFormed(Trimmed(base), quantity, parse, list, name, k, v, json);
    if EndsInSlash(base) {
      forall a | a in annotations ensures !HasPrefix(a, base + "/") {
        NoLegacyAnnotation(base, annotations, a);
      }
      forall suffix ensures AnnotationKey(base, name, suffix) !in annotations {
        assert AnnotationKey(base, name, suffix) == (base + "/") + (name + "." + suffix);
      }
      LegacyKeepsDefault(base, quantity, list, annotations, name, k, default);
      WitnessTransforms(base, quantity, parse, list, name, k, default, v, json);
    } else {
      WitnessDisagrees(base, quantity, parse, list, name, k, default, v, json);
    }
  }

  /** The only annotation, in the only order. */
  lemma WitnessMerged(base: string, parse: ParseStrings, name: string, k: string, v: string, json: string)
    returns (order: seq<string>)
    ensures
      var w := Witness(base, name, k, v, json);
      var own := if Contains(k, STORAGE) then STORAGE_CLASSES else Encode(k);
      && Enumerates(order, w.Keys)
      && Merged(base + "/", parse, w, order, name) ==
         ValuesFor(base + "/", parse, w, AnnotationKey(base, name, own), name)
  {
    var w := Witness(base, name, k, v, json);
    var own := if Contains(k, STORAGE) then STORAGE_CLASSES else Encode(k);
    order := [AnnotationKey(base, name, own)];
    assert order[..0] == [];
  }

  lemma WitnessTransforms(base: string, quantity: ParseQuantity, parse: ParseStrings, list: ParseResourceList,
                          name: string, k: string, default: Quantity, v: string, json: string)
    requires Overrides(quantity, parse, list, k, default, v, json) && TransformerReaches(name, k)
    requires
      Limit(base, quantity, list, Witness(Trimmed(base), name, k, v, json), name, k, default) == default
    ensures !AgreeAt(base, quantity, parse, list, Witness(Trimmed(base), name, k, v, json), name, k, default)
  {
    var w := Witness(Trimmed(base), name, k, v, json);
    var own := if Contains(k, STORAGE) then STORAGE_CLASSES else Encode(k);
    var order := WitnessMerged(Trimmed(base), parse, name, k, v, json);
    ValuesOfDirect(Trimmed(base), parse, w, name, own);
    EncodedStorageClasses(k);
    DecodeEncode(k);
    assert Transformed(base, quantity, parse, w, order, name, k, default) == quantity(v);
  }

  lemma WitnessDisagrees(base: string, quantity: ParseQuantity, parse: ParseStrings, list: ParseResourceList,
                         name: string, k: string, default: Quantity, v: string, json: string)
    requires Overrides(quantity, parse, list, k, default, v, json)
    requires !EndsInSlash(base) && !TransformerReaches(name, k)
    ensures !AgreeAt(base, quantity, parse, list, Witness(base, name, k, v, json), name, k, default)
  {
    var w := Witness(base, name, k, v, json);
    var order := WitnessMerged(base, parse, name, k, v, json);
    assert Limit(base, quantity, list, w, name, k, default) == quantity(v).value;
    TransformerKeepsDefault(base, parse, w, order, name, k);
    assert Transformed(base, quantity, parse, w, order, name, k, default) == Some(default);
  }

  // ---------- agreement on a whole quota ----------

  /** The default limits that a template spells out. */
  function Defaults(quantity: ParseQuantity, template: StringMap): ResourceList
    requires forall k :: k in template ==> quantity(template[k]).Some?
  {
    map k | k in template :: quantity(template[k]).value
  }

  /** The transformed template reads as the limits that the legacy controller writes, on all of its
      default keys. */
  ghost predicate SameLimits(base: string, quantity: ParseQuantity, parse: ParseStrings, list: ParseResourceList,
                             annotations: StringMap, order: seq<string>, name: string, template: StringMap)
    requires forall k :: k in template ==> quantity(template[k]).Some?
  {
    var m := Merged(NormalizedBase(base), parse, annotations, order, name);
    var hard := Overwritten(Hard(template), m);
    var limits := Limits(base, quantity, list, annotations, name, Defaults(quantity, template));
    && hard.Hard? && limits.Keys == template.Keys && hard.values.Keys == template.Keys + m.Keys
    && forall k :: k in template ==> quantity(hard.values[k]) == Some(limits[k])
  }

  /** The two implementations produce the same quota for all well-formed annotations exactly when
      they agree on each of its default keys. Further keys come from the transformer only. */
  lemma WholeAgreementIff(base: string, quantity: ParseQuantity, parse: ParseStrings, list: ParseResourceList,
                          name: string, template: StringMap)
    requires '/' !in name
    requires forall k :: k in template ==> quantity(template[k]).Some?
    requires forall k :: k in template ==> Overridable(quantity, parse, list, k, quantity(template[k]).value)
    ensures (forall k :: k in template ==> (TransformerReaches(name, k) <==> LegacyReaches(base))) <==>
            forall annotations, order :: WellFormed(base, quantity, parse, list, annotations, name)
                                         && Enumerates(order, annotations.Keys) ==>
              SameLimits(base, quantity, parse, list, annotations, order, name, template)
  {
    forall k | k in template
      ensures (TransformerReaches(name, k) <==> LegacyReaches(base)) <==>
              forall annotations :: WellFormed(base, quantity, parse, list, annotations, name) ==>
                AgreeAt(base, quantity, parse, list, annotations, name, k, quantity(template[k]).value)
    {
      AgreementIff(base, quantity, parse, list, name, k, quantity(template[k]).value);
    }
    forall annotations: StringMap, order | Enumerates(order, annotations.Keys)
      ensures SameLimits(base, quantity, parse, list, annotations, order, name, template) <==>
              forall k :: k in template ==>
                Transformed(base, quantity, parse, annotations, order, name, k, quantity(template[k]).value)
                == Some(Limit(base, quantity, list, annotations, name, k, quantity(template[k]).value))
    {
      SameLimitsIff(base, quantity, parse, list, annotations, order, name, template);
    }
  }

  lemma SameLimitsIff(base: string, quantity: ParseQuantity, parse: ParseStrings, list: ParseResourceList,
                      annotations: StringMap, order: seq<string>, name: string, template: StringMap)
    requires forall k :: k in template ==> quantity(template[k]).Some?
    ensures SameLimits(base, quantity, parse, list, annotations, order, name, template) <==>
            forall k :: k in template ==>
              Transformed(base, quantity, parse, annotations, order, name, k, quantity(template[k]).value)
              == Some(Limit(base, quantity, list, annotations, name, k, quantity(template[k]).value))
  {
    var m := Merged(NormalizedBase(base), parse, annotations, order, name);
    OverwrittenTemplate(template, m);
    forall k | k in template
      ensures quantity((template + m)[k])
              == Transformed(base, quantity, parse, annotations, order, name, k, quantity(template[k]).value)
    {
    }
    LimitsAt(base, quantity, list, annotations, name, Defaults(quantity, template));
  }

  lemma LimitsAt(base: string, quantity: ParseQuantity, list: ParseResourceList, annotations: StringMap,
                 name: string, defaults: ResourceList)
    ensures
      var limits := Limits(base, quantity, list, annotations, name, defaults);
      && limits.Keys == defaults.Keys
      && forall k :: k in defaults ==> limits[k] == Limit(base, quantity, list, annotations, name, k, defaults[k])
  {
  }

  lemma OverwrittenTemplate(template: StringMap, m: StringMap)
    ensures Overwritten(Hard(template), m) == Hard(template + m)
  {
    assert m == map[] ==> template + m == template;
  }
}
