/** Fair-use limits selected by node labels. */
module Limits {
  import opened Basics

  /** A limit with its label selector; an invalid selector is absent, and a limit may be left
      without an amount. */
  datatype Limit = Limit(selector: Option<StringMap -> bool>, amount: Option<real>)

  predicate Applies(limit: Limit, nodeSelector: StringMap) {
    limit.selector.Some? && limit.selector.value(nodeSelector)
  }

  /** The amount of the first limit whose selector is valid and matches; nothing when there is
      none, and nothing when that first limit has no amount. */
  function GetLimitForNodeSelector(limits: seq<Limit>, nodeSelector: StringMap): (amount: Option<real>)
    ensures forall i :: 0 <= i < |limits| && Applies(limits[i], nodeSelector)
                        && (forall j :: 0 <= j < i ==> !Applies(limits[j], nodeSelector))
                        ==> amount == limits[i].amount
    ensures (forall i :: 0 <= i < |limits| ==> !Applies(limits[i], nodeSelector)) ==> amount == None
  {
    if limits == [] then None
    else if Applies(limits[0], nodeSelector) then limits[0].amount
    else GetLimitForNodeSelector(limits[1..], nodeSelector)
  }

  /** The limit that decides is the first one that has a selector which matches, and no limit without
      one ever does. */
  lemma FirstMatchDecides(limits: seq<Limit>, nodeSelector: StringMap, i: nat)
    requires i < |limits| && limits[i].selector.Some? && limits[i].selector.value(nodeSelector)
    requires forall j :: 0 <= j < i && limits[j].selector.Some? ==> !limits[j].selector.value(nodeSelector)
    ensures GetLimitForNodeSelector(limits, nodeSelector) == limits[i].amount
  {
    assert Applies(limits[i], nodeSelector);
  }

  lemma NoMatchNoLimit(limits: seq<Limit>, nodeSelector: StringMap)
    requires forall i :: 0 <= i < |limits| && limits[i].selector.Some? ==> !limits[i].selector.value(nodeSelector)
    ensures GetLimitForNodeSelector(limits, nodeSelector) == None
  {
  }
}
