/** The legacy controller that writes the default resource quotas of a namespace, overriding
    single limits from namespace annotations. */
module LegacyQuota {
  import opened Basics
  import opened Text
  import opened QuotaTransformer

  /** Quantities are compared and stored by the number they denote. */
  type Quantity = real
  type ResourceList = map<string, Quantity>
  type ParseQuantity = string -> Option<Quantity>
  type ParseResourceList = string -> Option<ResourceList>

  function Encode(key: string): string {
    ReplaceAll(key, "/", "_")
  }

  function AnnotationKey(base: string, name: string, suffix: string): string {
    base + "/" + name + "." + suffix
  }

  // ---------- what each limit should be ----------

  /** The storage class limits of a quota, empty when absent or unreadable. */
  function StorageQuotas(base: string, list: ParseResourceList, annotations: StringMap, name: string): ResourceList {
    var raw := Get(annotations, AnnotationKey(base, name, STORAGE_CLASSES));
    if raw == "" || list(raw).None? then map[] else list(raw).value
  }

  predicate StorageUnreadable(base: string, list: ParseResourceList, annotations: StringMap, name: string) {
    var raw := Get(annotations, AnnotationKey(base, name, STORAGE_CLASSES));
    raw != "" && list(raw).None?
  }

  /** A limit with an annotation of its own that is not a quantity. */
  predicate LimitUnreadable(base: string, quantity: ParseQuantity, annotations: StringMap, name: string, k: string) {
    var raw := Get(annotations, AnnotationKey(base, name, Encode(k)));
    !Contains(k, STORAGE) && raw != "" && quantity(raw).None?
  }

  /** Storage class limits come from the JSON annotation, all others from an annotation of their
      own; whatever is missing, empty or unreadable keeps the default. */
  function Limit(base: string, quantity: ParseQuantity, list: ParseResourceList, annotations: StringMap,
                 name: string, k: string, default: Quantity): Quantity
  {
    if Contains(k, STORAGE) then
      var storage := StorageQuotas(base, list, annotations, name);
      if k in storage then storage[k] else default
    else
      var raw := Get(annotations, AnnotationKey(base, name, Encode(k)));
      if raw == "" || quantity(raw).None? then default else quantity(raw).value
  }

  function Limits(base: string, quantity: ParseQuantity, list: ParseResourceList, annotations: StringMap,
                  name: string, defaults: ResourceList): ResourceList
  {
    map k | k in defaults :: Limit(base, quantity, list, annotations, name, k, defaults[k])
  }

  ghost predicate Fails(base: string, quantity: ParseQuantity, list: ParseResourceList, annotations: StringMap,
                        name: string, defaults: ResourceList)
  {
    || StorageUnreadable(base, list, annotations, name)
    || exists k :: k in defaults && LimitUnreadable(base, quantity, annotations, name, k)
  }

  // ---------- the controller ----------

  datatype Namespace = Namespace(labels: StringMap, annotations: StringMap, deleting: bool)

  class Reconciler {
    const organizationLabel: string
    const base: string
    const defaultQuotas: map<string, ResourceList>
    const defaultLimitRange: string
    const quantity: ParseQuantity
    const list: ParseResourceList

    /** The quotas stored in the namespace, by name, and its limit range. */
    var quotas: map<string, ResourceList>
    var limitRange: Option<string>

    constructor (organizationLabel: string, base: string, defaultQuotas: map<string, ResourceList>,
                 defaultLimitRange: string, quantity: ParseQuantity, list: ParseResourceList,
                 quotas: map<string, ResourceList>, limitRange: Option<string>)
      ensures this.organizationLabel == organizationLabel && this.base == base
      ensures this.defaultQuotas == defaultQuotas && this.defaultLimitRange == defaultLimitRange
      ensures this.quantity == quantity && this.list == list
      ensures this.quotas == quotas && this.limitRange == limitRange
    {
      this.organizationLabel, this.base := organizationLabel, base;
      this.defaultQuotas, this.defaultLimitRange := defaultQuotas, defaultLimitRange;
      this.quantity, this.list := quantity, list;
      this.quotas, this.limitRange := quotas, limitRange;
    }

    /** The limits of one quota: a copy of the defaults, overwritten key by key in any order. */
    method BuildSpec(name: string, annotations: StringMap) returns (spec: ResourceList, failed: bool)
      requires name in defaultQuotas
      ensures spec == Limits(base, quantity, list, annotations, name, defaultQuotas[name])
      ensures failed <==> Fails(base, quantity, list, annotations, name, defaultQuotas[name])
    {
      spec := defaultQuotas[name];
      var storage: ResourceList := map[];
      failed := false;
      var raw := Get(annotations, AnnotationKey(base, name, STORAGE_CLASSES));
      if raw != "" {
        match list(raw)
        case None => failed := true;
        case Some(l) => storage := l;
      }
      var rest := spec.Keys;
      while rest != {}
        invariant rest <= spec.Keys == defaultQuotas[name].Keys
        invariant forall k :: k in spec ==>
                    spec[k] == if k in rest then defaultQuotas[name][k]
                               else Limit(base, quantity, list, annotations, name, k, defaultQuotas[name][k])
        invariant failed <==>
                    || StorageUnreadable(base, list, annotations, name)
                    || exists k :: k in defaultQuotas[name] && k !in rest
                                   && LimitUnreadable(base, quantity, annotations, name, k)
        decreases rest
      {
        var k :| k in rest;
        rest := rest - {k};
        if Contains(k, STORAGE) {
          if k in storage {
            spec := spec[k := storage[k]];
          }
        } else {
          var a := Get(annotations, AnnotationKey(base, name, Encode(k)));
          if a != "" {
            match quantity(a)
            case None => failed := true;
            case Some(q) => spec := spec[k := q];
          }
        }
      }
    }

    ghost predicate Managed(ns: Option<Namespace>) {
      ns.Some? && !ns.value.deleting && organizationLabel in ns.value.labels
    }

    /** Writes every default quota and the limit range. A quota that cannot be written, or an
        override that cannot be read, is reported and does not keep the others from being written. */
    method Reconcile(ns: Option<Namespace>, unwritable: set<string>, limitRangeUnwritable: bool) returns (failed: bool)
      modifies this`quotas, this`limitRange
      ensures !Managed(ns) ==> quotas == old(quotas) && limitRange == old(limitRange) && !failed
      ensures Managed(ns) ==>
                && quotas.Keys == old(quotas).Keys + (defaultQuotas.Keys - unwritable)
                && (forall name :: name in quotas ==>
                      quotas[name] == if name in defaultQuotas && name !in unwritable
                                      then Limits(base, quantity, list, ns.value.annotations, name, defaultQuotas[name])
                                      else old(quotas)[name])
                && limitRange == (if limitRangeUnwritable then old(limitRange) else Some(defaultLimitRange))
                && (failed <==>
                      || limitRangeUnwritable
                      || exists name :: name in defaultQuotas && QuotaFails(ns.value.annotations, unwritable, name))
    {
      failed := false;
      if ns.None? || ns.value.deleting || organizationLabel !in ns.value.labels {
        return;
      }
      failed := WriteQuotas(ns.value.annotations, unwritable);
      if limitRangeUnwritable {
        failed := true;
      } else {
        limitRange := Some(defaultLimitRange);
      }
    }

    ghost predicate QuotaFails(annotations: StringMap, unwritable: set<string>, name: string)
      requires name in defaultQuotas
    {
      name in unwritable || Fails(base, quantity, list, annotations, name, defaultQuotas[name])
    }

    /** The loop over the default quotas, in any order. */
    method WriteQuotas(annotations: StringMap, unwritable: set<string>) returns (failed: bool)
      modifies this`quotas
      ensures quotas.Keys == old(quotas).Keys + (defaultQuotas.Keys - unwritable)
      ensures forall name :: name in quotas ==>
                quotas[name] == if name in defaultQuotas && name !in unwritable
                                then Limits(base, quantity, list, annotations, name, defaultQuotas[name])
                                else old(quotas)[name]
      ensures failed <==> exists name :: name in defaultQuotas
                                         && QuotaFails(annotations, unwritable, name)
    {
      failed := false;
      var rest := defaultQuotas.Keys;
      while rest != {}
        invariant rest <= defaultQuotas.Keys
        invariant quotas.Keys == old(quotas).Keys + (defaultQuotas.Keys - rest - unwritable)
        invariant forall name :: name in quotas ==>
                    quotas[name] == if name in defaultQuotas && name !in rest && name !in unwritable
                                    then Limits(base, quantity, list, annotations, name, defaultQuotas[name])
                                    else old(quotas)[name]
        invariant failed <==> exists name :: name in defaultQuotas && name !in rest
                                             && QuotaFails(annotations, unwritable, name)
        decreases rest
      {
        var name :| name in rest;
        rest := rest - {name};
        var spec, specFailed := BuildSpec(name, annotations);
        if specFailed {
          failed := true;
        }
        if name in unwritable {
          failed := true;
        } else {
          quotas := quotas[name := spec];
        }
      }
    }
  }
}
