/** The default node selectors of the mutating webhook and of the ratio validator fit together. */
module SelectorConsistency {
  import opened Basics
  import opened Workloads
  import P = PodNodeSelector
  import V = RatioValidator

  /** Reading a selector as labels: an error comes with the labels that were read before it. */
  datatype Parsed = Parsed(labels: StringMap, failed: bool)

  type ParseSelector = string -> Parsed

  /** The mutator gives up on an error. */
  function Strict(parse: ParseSelector): (strict: string -> Option<StringMap>)
    ensures forall raw :: strict(raw).Some? <==> !parse(raw).failed
  {
    raw => if parse(raw).failed then None else Some(parse(raw).labels)
  }

  /** The validator logs it and takes the labels all the same. */
  function NamespaceDefault(annotation: string, parse: ParseSelector, nsAnnotations: StringMap): Selector {
    Selector(parse(Get(nsAnnotations, annotation)).labels)
  }

  /** The labels that a pod selects once the mutator has been over it. */
  function Mutated(own: StringMap, defaults: StringMap): Selector {
    Selector(defaults + own)
  }

  /** A created workload is judged by a selector that the group of its mutated pods carries, so that
      group is among those it may be counted in. Of the parser this needs that only the empty text
      reads as no labels. */
  lemma MutatedGroupIncludesSelector(validator: V.RatioValidator, o: V.Object, annotation: string,
                                     parse: ParseSelector, nsAnnotations: StringMap)
    requires parse("") == Parsed(map[], false)
    requires forall raw :: raw != "" && !parse(raw).failed ==> parse(raw).labels != map[]
    requires annotation != "" || annotation !in nsAnnotations
    requires P.DefaultLabels(annotation, validator.defaultNodeSelector.labels, Strict(parse), nsAnnotations).Some?
    ensures
      var defaults :=
        P.DefaultLabels(annotation, validator.defaultNodeSelector.labels, Strict(parse), nsAnnotations).value;
      var s := validator.EffectiveSelector(o, NamespaceDefault(annotation, parse, nsAnnotations));
      V.Includes(Mutated(V.OwnSelector(o).labels, defaults), s)
  {
    var own := V.OwnSelector(o).labels;
    var defaults :=
      P.DefaultLabels(annotation, validator.defaultNodeSelector.labels, Strict(parse), nsAnnotations).value;
    assert defaults + own == (if own == map[] then defaults else defaults + own);
  }
}
