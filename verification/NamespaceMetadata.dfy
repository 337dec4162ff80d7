/** The webhook that protects labels and annotations of namespaces. */
module NamespaceMetadata {
  import opened Basics
  import opened Text

  /** Whether a wildcard pattern matches; not part of this model beyond being a predicate. */
  type Match = (string, string) -> bool

  /** The keys whose presence or value differs. */
  ghost predicate Differ(a: StringMap, b: StringMap, k: string) {
    Find(a, k) != Find(b, k)
  }

  /** The list is exactly the differing keys, sorted and without duplicates. */
  ghost predicate IsChangeList(a: StringMap, b: StringMap, keys: seq<string>) {
    && Sorted(keys) && Distinct(keys)
    && forall k :: k in keys <==> Differ(a, b, k)
  }

  method ChangedKeys(a: StringMap, b: StringMap) returns (keys: seq<string>)
    ensures IsChangeList(a, b, keys)
  {
    var changed: set<string> := {};
    changed := InsertChanged(changed, a, b);
    changed := InsertChanged(changed, b, a);
    keys := SortedList(changed);
  }

  /** One of the two loops: the keys of a that b lacks or has otherwise. */
  method InsertChanged(changed: set<string>, a: StringMap, b: StringMap) returns (more: set<string>)
    ensures forall k :: k in more <==> k in changed || (k in a && Differ(a, b, k))
  {
    more := changed;
    var rest := a.Keys;
    while rest != {}
      invariant rest <= a.Keys
      invariant forall k :: k in more <==> k in changed || (k in a && k !in rest && Differ(a, b, k))
      decreases rest
    {
      var k :| k in rest;
      rest := rest - {k};
      if k !in b || a[k] != b[k] {
        more := more + {k};
      }
    }
  }

  /** sets.List */
  method SortedList(keys: set<string>) returns (list: seq<string>)
    ensures Sorted(list) && Distinct(list)
    ensures forall k :: k in list <==> k in keys
  {
    var s: seq<string> := [];
    var rest := keys;
    while rest != {}
      invariant rest <= keys && Distinct(s)
      invariant forall k :: k in s <==> k in keys && k !in rest
      decreases rest
    {
      var k :| k in rest;
      rest := rest - {k};
      s := s + [k];
    }
    SortKeepsDistinct(s);
    list := Sort(s);
  }

  lemma SortKeepsDistinct(s: seq<string>)
    requires Distinct(s)
    ensures Distinct(Sort(s))
    ensures forall k :: k in Sort(s) <==> k in s
  {
    var t := Sort(s);
    assert forall k :: k in t <==> k in multiset(t);
    assert forall k :: k in s <==> k in multiset(s);
    if !Distinct(t) {
      var i, j :| 0 <= i < j < |t| && t[i] == t[j];
      TwiceCounts(t, i, j);
      DistinctCounts(s, t[i]);
    }
  }

  lemma TwiceCounts(t: seq<string>, i: nat, j: nat)
    requires i < j < |t| && t[i] == t[j]
    ensures multiset(t)[t[i]] >= 2
  {
    assert t == t[..j] + [t[j]] + t[j + 1..];
    assert t[i] in t[..j];
  }

  lemma {:induction false} DistinctCounts(s: seq<string>, k: string)
    requires Distinct(s)
    ensures multiset(s)[k] <= 1
  {
    if s != [] {
      var n := |s| - 1;
      DistinctCounts(s[..n], k);
      assert s == s[..n] + [s[n]];
      if s[n] == k {
        assert k !in s[..n];
        assert multiset(s[..n])[k] == 0;
      }
    }
  }

  // ---------- the list as a measure of difference ----------

  /** Both directions have the same list, and a list is determined by the maps. */
  lemma ChangeListUnique(a: StringMap, b: StringMap, x: seq<string>, y: seq<string>)
    requires IsChangeList(a, b, x) && IsChangeList(b, a, y)
    ensures x == y
  {
    SameElementsSameMultiset(x, y);
    SortedUnique(x, y);
  }

  lemma SameElementsSameMultiset(x: seq<string>, y: seq<string>)
    requires Distinct(x) && Distinct(y) && forall k :: k in x <==> k in y
    ensures multiset(x) == multiset(y)
  {
    forall k ensures multiset(x)[k] == multiset(y)[k] {
      DistinctCounts(x, k);
      DistinctCounts(y, k);
      assert k in x <==> k in multiset(x);
      assert k in y <==> k in multiset(y);
    }
  }

  /** What changes from a to c changes on the way from a to b or from b to c. */
  lemma ChangeTriangle(a: StringMap, b: StringMap, c: StringMap, x: seq<string>, y: seq<string>, z: seq<string>)
    requires IsChangeList(a, b, x) && IsChangeList(b, c, y) && IsChangeList(a, c, z)
    ensures forall k :: k in z ==> k in x || k in y
  {
    forall k | k in z ensures k in x || k in y {
      assert Differ(a, c, k);
    }
  }

  // ---------- validation ----------

  /** Some allowed pattern matches the key. */
  predicate Modifiable(matches: Match, allowed: seq<string>, k: string) {
    exists i :: 0 <= i < |allowed| && matches(allowed[i], k)
  }

  lemma SomePattern(matches: Match, allowed: seq<string>, k: string)
    ensures Modifiable(matches, allowed, k) <==> exists p :: p in allowed && matches(p, k)
  {
  }

  /** Every key that matches no allowed pattern is as it was. */
  ghost predicate ProtectedKept(matches: Match, allowed: seq<string>, before: StringMap, after: StringMap) {
    forall k :: !Modifiable(matches, allowed, k) ==> Find(after, k) == Find(before, k)
  }

  /** The keys that may not be changed but were, in order. */
  method ValidateChangedMap(matches: Match, allowed: seq<string>, before: StringMap, after: StringMap)
    returns (errors: seq<string>)
    ensures errors == [] <==> ProtectedKept(matches, allowed, before, after)
    ensures forall k :: k in errors <==> Differ(before, after, k) && !Modifiable(matches, allowed, k)
  {
    var changed := ChangedKeys(before, after);
    errors := [];
    for i := 0 to |changed|
      invariant forall k :: k in errors <==> k in changed[..i] && !Modifiable(matches, allowed, k)
    {
      assert changed[..i + 1] == changed[..i] + [changed[i]];
      if !Modifiable(matches, allowed, changed[i]) {
        errors := errors + [changed[i]];
      }
    }
    assert changed[..|changed|] == changed;
    if errors == [] {
      forall k | !Modifiable(matches, allowed, k) ensures Find(after, k) == Find(before, k) {
        assert k !in errors;
      }
    } else {
      assert errors[0] in errors;
    }
  }

  datatype Metadata = Metadata(annotations: StringMap, labels: StringMap)

  datatype Response = Allowed | Denied | Errored(code: int)

  datatype Validator = Validator(
    matches: Match,
    reserved: seq<string>,
    allowedAnnotations: seq<string>,
    allowedLabels: seq<string>
  ) {
    ghost predicate Kept(before: Metadata, after: Metadata) {
      && ProtectedKept(matches, allowedAnnotations, before.annotations, after.annotations)
      && ProtectedKept(matches, allowedLabels, before.labels, after.labels)
    }

    predicate Reserved(name: string) {
      Modifiable(matches, reserved, name)
    }

    /** The response to the change of a namespace; a creation changes it from having no metadata.
        Objects that do not decode are absent. */
    ghost function Verdict(skip: Option<bool>, name: string, before: Option<Metadata>, after: Option<Metadata>)
      : Response
    {
      if skip.None? then Errored(500)
      else if skip.value then Allowed
      else if Reserved(name) then Denied
      else if before.None? || after.None? then Errored(400)
      else if Kept(before.value, after.value) then Allowed
      else Denied
    }

    /** A change is allowed if and only if no reserved pattern matches the name, and every annotation
        and every label that no pattern of its own list matches is there after as it was before. */
    lemma AllowedIff(name: string, before: Metadata, after: Metadata)
      ensures Verdict(Some(false), name, Some(before), Some(after)) == Allowed <==>
              && (forall p :: p in reserved ==> !matches(p, name))
              && (forall k :: (forall p :: p in allowedAnnotations ==> !matches(p, k)) ==>
                    Find(after.annotations, k) == Find(before.annotations, k))
              && (forall k :: (forall p :: p in allowedLabels ==> !matches(p, k)) ==>
                    Find(after.labels, k) == Find(before.labels, k))
    {
      forall patterns: seq<string>, k | patterns in {reserved, allowedAnnotations, allowedLabels}
        ensures Modifiable(matches, patterns, k) <==> exists p :: p in patterns && matches(p, k)
      {
        SomePattern(matches, patterns, k);
      }
    }

    /** A change is let through exactly when it is skipped, or the name is not reserved and no
        protected key changes. */
    method Handle(skip: Option<bool>, name: string, before: Option<Metadata>, after: Option<Metadata>)
      returns (resp: Response)
      ensures resp == Verdict(skip, name, before, after)
    {
      if skip.None? {
        return Errored(500);
      }
      if skip.value {
        return Allowed;
      }
      if Reserved(name) {
        return Denied;
      }
      if before.None? || after.None? {
        return Errored(400);
      }
      var errors := ValidateChangedMap(matches, allowedAnnotations, before.value.annotations, after.value.annotations);
      if errors != [] {
        return Denied;
      }
      errors := ValidateChangedMap(matches, allowedLabels, before.value.labels, after.value.labels);
      resp := if errors != [] then Denied else Allowed;
    }

    /** A sequence of admitted updates from one state of a namespace to another. */
    ghost predicate IsHistory(history: seq<Metadata>, first: Metadata, last: Metadata) {
      && |history| > 0 && history[0] == first && history[|history| - 1] == last
      && forall i :: 0 <= i < |history| - 1 ==> Kept(history[i], history[i + 1])
    }

    /** Over any sequence of admitted updates, every protected key keeps its presence and value. */
    lemma {:induction false} ProtectedForever(history: seq<Metadata>, first: Metadata, last: Metadata)
      requires IsHistory(history, first, last)
      ensures Kept(first, last)
    {
      if |history| > 1 {
        var n := |history| - 1;
        ProtectedForever(history[..n], first, history[n - 1]);
        assert Kept(history[n - 1], history[n]);
      }
    }

    /** The states that admitted updates can reach are exactly those that keep the protected keys. */
    lemma ReachableIffKept(first: Metadata, last: Metadata)
      ensures Kept(first, last) <==> exists history :: IsHistory(history, first, last)
    {
      if Kept(first, last) {
        assert IsHistory([first, last], first, last);
      }
      forall history | IsHistory(history, first, last) ensures Kept(first, last) {
        ProtectedForever(history, first, last);
      }
    }
  }
}
