/** The webhook that adds default node selectors to pods. */
module PodNodeSelector {
  import opened Basics
  import opened Json

  datatype Response =
    | Allowed
    | Errored(code: int)
    | Patched(patches: seq<Operation>)

  const SPEC := "spec"
  const NODE_SELECTOR := "nodeSelector"

  function AddOne(defaults: StringMap, k: string): Operation
    requires k in defaults
  {
    Operation.Add("/" + SPEC + "/" + NODE_SELECTOR + "/" + EscapeSegment(k), String(defaults[k]))
  }

  function AddWhole(defaults: StringMap): Operation {
    Operation.Add("/" + SPEC + "/" + NODE_SELECTOR, ToJson(defaults))
  }

  function OwnSelector(pod: Json): Nested<StringMap> {
    NestedStringMap(pod, [SPEC, NODE_SELECTOR])
  }

  /** The default labels whose keys the pod does not select by itself. */
  function MissingKeys(pod: Json, defaults: StringMap): set<string> {
    set k | k in defaults && !(OwnSelector(pod).Found? && k in OwnSelector(pod).value)
  }

  /** The operations, in any order: one per missing default, or a whole new selector. */
  ghost predicate IsPatchFor(pod: Json, defaults: StringMap, ops: seq<Operation>) {
    match OwnSelector(pod)
    case Found(_) =>
      && (forall op :: op in ops ==> exists k :: k in MissingKeys(pod, defaults) && op == AddOne(defaults, k))
      && (forall k :: k in MissingKeys(pod, defaults) ==> AddOne(defaults, k) in ops)
    case Missing => ops == [AddWhole(defaults)]
    case Malformed => false
  }

  // ---------- what the patches do ----------

  /** The pod has a spec for the selector to live in. */
  predicate HasSpec(pod: Json) {
    pod.Object? && SPEC in pod.members && pod.members[SPEC].Object?
  }

  /** The pod with its node selector set, everything else as it was. */
  function WithSelector(pod: Json, selector: StringMap): Json
    requires HasSpec(pod)
  {
    var spec := pod.members[SPEC].members;
    Object(pod.members[SPEC := Object(spec[NODE_SELECTOR := ToJson(selector)])])
  }

  function OwnOrEmpty(pod: Json): StringMap {
    if OwnSelector(pod).Found? then OwnSelector(pod).value else map[]
  }

  lemma ToJsonUpdate(m: StringMap, k: string, v: string)
    ensures ToJson(m).members[k := String(v)] == ToJson(m[k := v]).members
  {
  }

  lemma AddOneEffect(pod: Json, selector: StringMap, defaults: StringMap, k: string)
    requires HasSpec(pod) && k in defaults
    ensures Apply(WithSelector(pod, selector), AddOne(defaults, k))
            == Some(WithSelector(pod, selector[k := defaults[k]]))
  {
    var doc := WithSelector(pod, selector);
    ApplyThree(doc, SPEC, NODE_SELECTOR, k, String(defaults[k]));
    AddThree(doc, SPEC, NODE_SELECTOR, k, String(defaults[k]));
    ToJsonUpdate(selector, k, defaults[k]);
    Overwrite(pod.members[SPEC].members, NODE_SELECTOR, ToJson(selector), ToJson(selector[k := defaults[k]]));
    Overwrite(pod.members, SPEC, doc.members[SPEC],
              Object(pod.members[SPEC].members[NODE_SELECTOR := ToJson(selector[k := defaults[k]])]));
  }

  lemma Overwrite(m: map<string, Json>, k: string, v: Json, w: Json)
    ensures m[k := v][k := w] == m[k := w]
  {
  }

  lemma AddWholeEffect(pod: Json, defaults: StringMap)
    ensures Apply(pod, AddWhole(defaults)) == if HasSpec(pod) then Some(WithSelector(pod, defaults)) else None
  {
    ApplyTwo(pod, SPEC, NODE_SELECTOR, ToJson(defaults));
    AddTwo(pod, SPEC, NODE_SELECTOR, ToJson(defaults));
  }

  lemma OwnSelectorIsThere(pod: Json)
    requires OwnSelector(pod).Found?
    ensures HasSpec(pod) && pod == WithSelector(pod, OwnSelector(pod).value)
  {
    NestedTwo(pod, SPEC, NODE_SELECTOR);
    var j := pod.members[SPEC].members[NODE_SELECTOR];
    assert j.members == ToJson(OwnSelector(pod).value).members;
    var spec := pod.members[SPEC].members;
    assert spec[NODE_SELECTOR := j] == spec;
    assert pod.members[SPEC := pod.members[SPEC]] == pod.members;
  }

  /** The keys whose operation is among the given ones. */
  ghost function KeysAdded(pod: Json, defaults: StringMap, ops: seq<Operation>): set<string> {
    set k | k in MissingKeys(pod, defaults) && AddOne(defaults, k) in ops
  }

  function Restricted(m: StringMap, keys: set<string>): StringMap {
    map k | k in m && k in keys :: m[k]
  }

  lemma AddOneInjective(defaults: StringMap, j: string, k: string)
    requires j in defaults && k in defaults && AddOne(defaults, j) == AddOne(defaults, k)
    ensures j == k
  {
    var head := "/" + SPEC + "/" + NODE_SELECTOR + "/";
    assert (head + EscapeSegment(j))[|head|..] == EscapeSegment(j);
    assert (head + EscapeSegment(k))[|head|..] == EscapeSegment(k);
    EscapeInjective(j, k);
  }

  /** Operations for single keys can be applied in any order, even repeatedly. */
  lemma {:induction false} SinglesApply(pod: Json, defaults: StringMap, ops: seq<Operation>)
    requires OwnSelector(pod).Found?
    requires forall op :: op in ops ==> exists k :: k in MissingKeys(pod, defaults) && op == AddOne(defaults, k)
    ensures HasSpec(pod)
    ensures ApplyAll(pod, ops) ==
            Some(WithSelector(pod, OwnSelector(pod).value + Restricted(defaults, KeysAdded(pod, defaults, ops))))
  {
    var own := OwnSelector(pod).value;
    OwnSelectorIsThere(pod);
    if ops == [] {
      assert own + Restricted(defaults, KeysAdded(pod, defaults, [])) == own;
    } else {
      var init, op := ops[..|ops| - 1], ops[|ops| - 1];
      assert ops == init + [op];
      assert op in ops && forall o :: o in init ==> o in ops;
      SinglesApply(pod, defaults, init);
      var k :| k in MissingKeys(pod, defaults) && op == AddOne(defaults, k);
      var before := own + Restricted(defaults, KeysAdded(pod, defaults, init));
      AddOneEffect(pod, before, defaults, k);
      ApplyLast(pod, init, op);
      KeysAddedStep(pod, defaults, init, k);
      RestrictedStep(own, defaults, KeysAdded(pod, defaults, init), k);
    }
  }

  lemma RestrictedStep(own: StringMap, defaults: StringMap, keys: set<string>, k: string)
    requires k in defaults && k !in own && keys <= defaults.Keys
    ensures own + Restricted(defaults, keys + {k}) == (own + Restricted(defaults, keys))[k := defaults[k]]
  {
  }

  lemma KeysAddedStep(pod: Json, defaults: StringMap, init: seq<Operation>, k: string)
    requires k in MissingKeys(pod, defaults)
    ensures KeysAdded(pod, defaults, init + [AddOne(defaults, k)]) == KeysAdded(pod, defaults, init) + {k}
  {
    var ops := init + [AddOne(defaults, k)];
    assert ops[|init|] == AddOne(defaults, k);
    forall j | j in MissingKeys(pod, defaults) && AddOne(defaults, j) == AddOne(defaults, k) ensures j == k {
      AddOneInjective(defaults, j, k);
    }
    assert forall o :: o in ops <==> o in init || o == AddOne(defaults, k);
  }

  /** Whatever the order, the result selects the union of the defaults and the pod's own labels, the
      pod's own values winning; it fails to apply exactly when the pod has no spec. */
  lemma PatchMergesDefaults(pod: Json, defaults: StringMap, ops: seq<Operation>)
    requires IsPatchFor(pod, defaults, ops)
    ensures ApplyAll(pod, ops) == if HasSpec(pod) then Some(WithSelector(pod, defaults + OwnOrEmpty(pod))) else None
  {
    if OwnSelector(pod).Found? {
      SinglesApply(pod, defaults, ops);
      var own := OwnSelector(pod).value;
      assert KeysAdded(pod, defaults, ops) == MissingKeys(pod, defaults);
      assert own + Restricted(defaults, MissingKeys(pod, defaults)) == defaults + own;
    } else {
      ApplySingle(pod, AddWhole(defaults));
      AddWholeEffect(pod, defaults);
      assert defaults + OwnOrEmpty(pod) == defaults;
    }
  }

  lemma SelectorAfter(pod: Json, selector: StringMap)
    requires HasSpec(pod)
    ensures OwnSelector(WithSelector(pod, selector)) == Found(selector)
  {
    NestedTwo(WithSelector(pod, selector), SPEC, NODE_SELECTOR);
    var j := ToJson(selector);
    assert IsStringMap(j) && (map k | k in j.members :: j.members[k].s) == selector;
  }

  /** On its own result the mutator has nothing left to add. */
  lemma SecondPassIsEmpty(pod: Json, defaults: StringMap, ops: seq<Operation>, again: seq<Operation>)
    requires IsPatchFor(pod, defaults, ops) && HasSpec(pod)
    requires ApplyAll(pod, ops).Some? ==> IsPatchFor(ApplyAll(pod, ops).value, defaults, again)
    ensures again == []
  {
    PatchMergesDefaults(pod, defaults, ops);
    SelectorAfter(pod, defaults + OwnOrEmpty(pod));
    assert MissingKeys(ApplyAll(pod, ops).value, defaults) == {};
    EmptyIfNoMembers(again);
  }

  lemma EmptyIfNoMembers(ops: seq<Operation>)
    ensures (forall op :: op !in ops) ==> ops == []
  {
    if ops != [] {
      assert ops[0] in ops;
    }
  }

  // ---------- the webhook ----------

  /** The configured default, unless the namespace annotation says otherwise. */
  function DefaultLabels(annotation: string, configured: StringMap, parse: string -> Option<StringMap>,
                         nsAnnotations: StringMap): Option<StringMap>
  {
    var raw := Get(nsAnnotations, annotation);
    if annotation == "" || raw == "" then Some(configured) else parse(raw)
  }

  /** `skip`, `nsAnnotations` and `pod` are absent when the check, the lookup or the decoding fails. */
  method Handle(isPod: bool, skip: Option<bool>, nsAnnotations: Option<StringMap>, pod: Option<Json>,
                annotation: string, configured: StringMap, parse: string -> Option<StringMap>)
    returns (resp: Response)
    ensures
      var known := nsAnnotations.Some? && pod.Some?;
      var defaults :=
        if nsAnnotations.Some? then DefaultLabels(annotation, configured, parse, nsAnnotations.value) else None;
      if !isPod then resp == Errored(400)
      else if skip.None? then resp == Errored(500)
      else if skip.value then resp == Allowed
      else if nsAnnotations.None? then resp == Errored(500)
      else if pod.None? then resp == Errored(400)
      else if defaults.None? then resp == Errored(500)
      else if defaults.value == map[] then resp == Allowed
      else if OwnSelector(pod.value).Malformed? then resp == Errored(500)
      else
        && resp.Patched? && IsPatchFor(pod.value, defaults.value, resp.patches)
        && forall ops :: multiset(ops) == multiset(resp.patches) ==>
             ApplyAll(pod.value, ops) == if HasSpec(pod.value)
                                         then Some(WithSelector(pod.value, defaults.value + OwnOrEmpty(pod.value)))
                                         else None
  {
    if !isPod {
      return Errored(400);
    }
    if skip.None? {
      return Errored(500);
    }
    if skip.value {
      return Allowed;
    }
    if nsAnnotations.None? {
      return Errored(500);
    }
    if pod.None? {
      return Errored(400);
    }
    var d := DefaultLabels(annotation, configured, parse, nsAnnotations.value);
    if d.None? {
      return Errored(500);
    }
    if d.value == map[] {
      return Allowed;
    }
    if OwnSelector(pod.value).Malformed? {
      return Errored(500);
    }
    var patches := BuildPatches(pod.value, d.value);
    forall ops | multiset(ops) == multiset(patches)
      ensures ApplyAll(pod.value, ops) == if HasSpec(pod.value)
                                          then Some(WithSelector(pod.value, d.value + OwnOrEmpty(pod.value)))
                                          else None
    {
      ReorderedPatch(pod.value, d.value, patches, ops);
      PatchMergesDefaults(pod.value, d.value, ops);
    }
    resp := Patched(patches);
  }

  lemma ReorderedPatch(pod: Json, defaults: StringMap, patches: seq<Operation>, ops: seq<Operation>)
    requires IsPatchFor(pod, defaults, patches) && multiset(ops) == multiset(patches)
    ensures IsPatchFor(pod, defaults, ops)
  {
    assert forall op :: op in ops <==> op in multiset(ops);
    assert forall op :: op in patches <==> op in multiset(patches);
    assert |ops| == |multiset(ops)| == |multiset(patches)| == |patches|;
    if OwnSelector(pod).Missing? {
      assert ops[0] in patches;
    }
  }

  method BuildPatches(pod: Json, defaults: StringMap) returns (patches: seq<Operation>)
    requires !OwnSelector(pod).Malformed?
    ensures IsPatchFor(pod, defaults, patches)
  {
    if OwnSelector(pod).Missing? {
      return [AddWhole(defaults)];
    }
    patches := [];
    var rest := defaults.Keys;
    while rest != {}
      invariant rest <= defaults.Keys
      invariant forall op :: op in patches ==> exists k :: k in MissingKeys(pod, defaults) && op == AddOne(defaults, k)
      invariant forall k :: k in MissingKeys(pod, defaults) && k !in rest ==> AddOne(defaults, k) in patches
      decreases rest
    {
      var k :| k in rest;
      rest := rest - {k};
      if k !in OwnSelector(pod).value {
        patches := patches + [AddOne(defaults, k)];
      }
    }
  }
}
