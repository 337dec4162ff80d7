/** The parts of Go's string handling that the agent relies on: replacement, cutting,
    splitting, and the byte-wise ordering used when lists are sorted. */
module Text {

  predicate HasPrefix(s: string, prefix: string) {
    prefix <= s
  }

  lemma HasPrefixIff(s: string, prefix: string)
    ensures HasPrefix(s, prefix) <==> exists rest :: s == prefix + rest
  {
    if HasPrefix(s, prefix) {
      assert s == prefix + s[|prefix|..];
    }
  }

  predicate Contains(s: string, part: string) {
    part <= s || (s != "" && Contains(s[1..], part))
  }

  /** A text contains a part exactly when it is the part with something before and after. */
  lemma ContainsIff(s: string, part: string)
    ensures Contains(s, part) <==> exists before, after :: s == before + part + after
  {
    if Contains(s, part) {
      var before, after := SplitAround(s, part);
    }
    forall before, after | s == before + part + after ensures Contains(s, part) {
      ContainsBetween(before, part, after);
    }
  }

  lemma {:induction false} SplitAround(s: string, part: string) returns (before: string, after: string)
    requires Contains(s, part)
    ensures s == before + part + after
  {
    if part <= s {
      before, after := "", s[|part|..];
    } else {
      before, after := SplitAround(s[1..], part);
      before := [s[0]] + before;
    }
  }

  lemma {:induction false} ContainsBetween(before: string, part: string, after: string)
    ensures Contains(before + part + after, part)
  {
    var s := before + part + after;
    if before == "" {
      assert s[..|part|] == part;
    } else {
      ContainsBetween(before[1..], part, after);
      assert s[1..] == before[1..] + part + after;
    }
  }

  /** strings.ReplaceAll for a non-empty pattern: leftmost, non-overlapping. */
  function ReplaceAll(s: string, pattern: string, replacement: string): string
    requires pattern != ""
  {
    if s == "" then ""
    else if pattern <= s then replacement + ReplaceAll(s[|pattern|..], pattern, replacement)
    else [s[0]] + ReplaceAll(s[1..], pattern, replacement)
  }

  /** Replacing one character by one character works position by position. */
  lemma {:induction false} ReplaceCharPointwise(s: string, c: char, d: char)
    ensures |ReplaceAll(s, [c], [d])| == |s|
    ensures forall i :: 0 <= i < |s| ==> ReplaceAll(s, [c], [d])[i] == if s[i] == c then d else s[i]
  {
    if s != "" {
      ReplaceCharPointwise(s[1..], c, d);
      assert [c] <= s <==> s[0] == c;
      assert ReplaceAll(s, [c], [d]) == [if s[0] == c then d else s[0]] + ReplaceAll(s[1..], [c], [d]);
    }
  }

  /** The result of strings.Cut. */
  datatype CutResult = Cut(before: string, after: string) | NoCut

  /** strings.Cut at the first occurrence of a single character. */
  function CutAt(s: string, c: char): CutResult {
    if s == "" then NoCut
    else if s[0] == c then Cut("", s[1..])
    else match CutAt(s[1..], c)
      case NoCut => NoCut
      case Cut(b, a) => Cut([s[0]] + b, a)
  }

  /** Cut succeeds exactly when the character occurs, and splits at its first occurrence. */
  lemma {:induction false} CutAtFirst(s: string, c: char)
    ensures CutAt(s, c).NoCut? <==> c !in s
    ensures CutAt(s, c).Cut? ==> s == CutAt(s, c).before + [c] + CutAt(s, c).after && c !in CutAt(s, c).before
  {
    if s != "" && s[0] != c {
      CutAtFirst(s[1..], c);
      assert s == [s[0]] + s[1..];
    }
  }

  /** The converse: a split whose first half is free of the separator is the one Cut finds. */
  lemma {:induction false} CutAtUnique(before: string, c: char, after: string)
    requires c !in before
    ensures CutAt(before + [c] + after, c) == Cut(before, after)
  {
    var s := before + [c] + after;
    if before == "" {
      assert s[1..] == after;
    } else {
      CutAtUnique(before[1..], c, after);
      assert s[1..] == before[1..] + [c] + after;
      assert [before[0]] + before[1..] == before;
    }
  }

  /** strings.Split on a single character: all the parts, in order, never empty. */
  function Split(s: string, c: char): (parts: seq<string>)
    ensures |parts| >= 1
    decreases |s|
  {
    CutAtFirst(s, c);
    var cut := CutAt(s, c);
    if cut.NoCut? then [s] else [cut.before] + Split(cut.after, c)
  }

  lemma SplitNone(s: string, c: char)
    requires c !in s
    ensures Split(s, c) == [s]
  {
    CutAtFirst(s, c);
  }

  lemma SplitFirst(before: string, c: char, after: string)
    requires c !in before
    ensures Split(before + [c] + after, c) == [before] + Split(after, c)
  {
    CutAtUnique(before, c, after);
  }

  /** Splitting a text around a separator splits both halves. */
  lemma {:induction false} SplitConcat(a: string, c: char, b: string)
    ensures Split(a + [c] + b, c) == Split(a, c) + Split(b, c)
    decreases |a|
  {
    CutAtFirst(a, c);
    var cut := CutAt(a, c);
    if cut.NoCut? {
      SplitFirst(a, c, b);
    } else {
      SplitConcat(cut.after, c, b);
      assert a + [c] + b == cut.before + [c] + (cut.after + [c] + b);
      SplitFirst(cut.before, c, cut.after + [c] + b);
      assert [cut.before] + (Split(cut.after, c) + Split(b, c)) == Split(a, c) + Split(b, c);
    }
  }

  /** A single part means that there was no separator. */
  lemma SplitSingle(s: string, c: char)
    ensures |Split(s, c)| == 1 <==> c !in s
  {
    CutAtFirst(s, c);
  }

  // ---------- ordering and sorting ----------

  /** The ordering of Go strings. */
  predicate Le(a: string, b: string) {
    a == "" || (b != "" && (a[0] < b[0] || (a[0] == b[0] && Le(a[1..], b[1..]))))
  }

  lemma {:induction false} LeTotal(a: string, b: string)
    ensures Le(a, b) || Le(b, a)
  {
    if a != "" && b != "" && a[0] == b[0] {
      LeTotal(a[1..], b[1..]);
    }
  }

  lemma {:induction false} LeAntisymmetric(a: string, b: string)
    requires Le(a, b) && Le(b, a)
    ensures a == b
  {
    if a != "" {
      LeAntisymmetric(a[1..], b[1..]);
      assert a == [a[0]] + a[1..] && b == [b[0]] + b[1..];
    }
  }

  lemma {:induction false} LeTransitive(a: string, b: string, c: string)
    requires Le(a, b) && Le(b, c)
    ensures Le(a, c)
  {
    if a != "" && a[0] == b[0] == c[0] {
      LeTransitive(a[1..], b[1..], c[1..]);
    }
  }

  predicate Sorted(s: seq<string>) {
    forall i, j :: 0 <= i < j < |s| ==> Le(s[i], s[j])
  }

  lemma LeFirst(x: string, s: seq<string>)
    requires Sorted(s) && s != [] && Le(x, s[0])
    ensures forall y :: y in s ==> Le(x, y)
  {
    forall j | 0 < j < |s| ensures Le(x, s[j]) {
      LeTransitive(x, s[0], s[j]);
    }
  }

  lemma SortedCons(x: string, s: seq<string>)
    requires Sorted(s) && forall y :: y in s ==> Le(x, y)
    ensures Sorted([x] + s)
  {
  }

  lemma LeInserted(h: string, x: string, s: seq<string>, inserted: seq<string>)
    requires multiset(inserted) == multiset(s) + multiset{x}
    requires Le(h, x) && forall y :: y in s ==> Le(h, y)
    ensures forall y :: y in inserted ==> Le(h, y)
  {
    forall y | y in inserted ensures Le(h, y) {
      assert y in multiset(inserted);
      assert y != x ==> y in multiset(s);
    }
  }

  function Insert(x: string, s: seq<string>): (r: seq<string>)
    requires Sorted(s)
    ensures Sorted(r) && multiset(r) == multiset(s) + multiset{x}
  {
    if s == [] then [x]
    else if Le(x, s[0]) then
      LeFirst(x, s);
      SortedCons(x, s);
      [x] + s
    else
      LeTotal(x, s[0]);
      assert s == [s[0]] + s[1..];
      var rest := Insert(x, s[1..]);
      LeInserted(s[0], x, s[1..], rest);
      SortedCons(s[0], rest);
      [s[0]] + rest
  }

  /** slices.Sort and the ordering of sets.List. */
  function Sort(s: seq<string>): (r: seq<string>)
    ensures Sorted(r) && multiset(r) == multiset(s)
  {
    if s == [] then []
    else
      assert s == [s[0]] + s[1..];
      Insert(s[0], Sort(s[1..]))
  }

  /** Taking one element out of a list. */
  function Without<T>(s: seq<T>, i: nat): seq<T>
    requires i < |s|
  {
    s[..i] + s[i + 1..]
  }

  lemma WithoutMultiset<T>(s: seq<T>, i: nat)
    requires i < |s|
    ensures multiset(Without(s, i)) == multiset(s) - multiset{s[i]}
  {
    assert s == s[..i] + [s[i]] + s[i + 1..];
  }

  lemma HeadIsLeast(s: seq<string>, x: string)
    requires Sorted(s) && x in s
    ensures Le(s[0], x)
  {
    LeTotal(s[0], s[0]);
  }

  /** A sorted list is determined by its elements, so sorting forgets the order it was given. */
  lemma {:induction false} SortedUnique(a: seq<string>, b: seq<string>)
    requires Sorted(a) && Sorted(b) && multiset(a) == multiset(b)
    ensures a == b
  {
    SameLength(a, b);
    if a != [] {
      HeadIsLeast(a, b[0]);
      HeadIsLeast(b, a[0]);
      LeAntisymmetric(a[0], b[0]);
      TailMultiset(a, b);
      SortedUnique(a[1..], b[1..]);
      assert a == [a[0]] + a[1..] && b == [b[0]] + b[1..];
    }
  }

  lemma SameLength<T>(a: seq<T>, b: seq<T>)
    requires multiset(a) == multiset(b)
    ensures |a| == |b|
    ensures a != [] ==> a[0] in b && b[0] in a
  {
    assert |a| == |multiset(a)| && |b| == |multiset(b)|;
    if a != [] {
      assert a[0] in multiset(b) && b[0] in multiset(a);
    }
  }

  lemma TailMultiset<T>(a: seq<T>, b: seq<T>)
    requires a != [] && b != [] && a[0] == b[0] && multiset(a) == multiset(b)
    ensures multiset(a[1..]) == multiset(b[1..])
  {
    WithoutMultiset(a, 0);
    WithoutMultiset(b, 0);
    assert Without(a, 0) == a[1..] && Without(b, 0) == b[1..];
  }

  lemma SortForgetsOrder(a: seq<string>, b: seq<string>)
    requires multiset(a) == multiset(b)
    ensures Sort(a) == Sort(b)
  {
    SortedUnique(Sort(a), Sort(b));
  }
}
