/**
 * The flat input records and the ordered index of subcategories derived from them:
 * `[...new Set(rawData.map((d) => d.subcategory))]` keeps every subcategory once,
 * in the order in which it is first seen.
 */
module CategoryIndex {

  /** One input record: the bar (category), the layer (subcategory) and its value. */
  datatype Record = Record(category: string, subcategory: string, value: int)

  predicate Distinct<T(==)>(xs: seq<T>) {
    forall i, j :: 0 <= i < j < |xs| ==> xs[i] != xs[j]
  }

  /** The position of the first occurrence of `x` in `xs`, or `|xs|` when there is none. */
  function IndexOf<T(==)>(xs: seq<T>, x: T): (r: nat)
    ensures r <= |xs|
    ensures r < |xs| <==> x in xs
    ensures r < |xs| ==> xs[r] == x
    ensures forall j :: 0 <= j < r ==> xs[j] != x
  {
    if xs == [] then 0
    else if xs[0] == x then 0
    else 1 + IndexOf(xs[1..], x)
  }

  /**
   * A JavaScript `Set` built from `xs` and spread back into an array: each element is
   * inserted in turn and an element already present is skipped.
   */
  function Dedup<T(==)>(xs: seq<T>): (d: seq<T>)
    ensures Distinct(d)
    ensures forall x :: x in d ==> x in xs
    ensures forall x :: x in xs ==> x in d
    ensures |d| <= |xs|
  {
    if xs == [] then []
    else
      var prefix := Dedup(xs[..|xs| - 1]);
      var x := xs[|xs| - 1];
      if x in prefix then prefix else prefix + [x]
  }

  /** A sequence without repeats is its own deduplication. */
  lemma {:induction false} DedupOfDistinct<T>(xs: seq<T>)
    requires Distinct(xs)
    ensures Dedup(xs) == xs
  {
    if xs != [] {
      var init := xs[..|xs| - 1];
      assert Distinct(init);
      DedupOfDistinct(init);
      assert xs[|xs| - 1] !in init;
      assert init + [xs[|xs| - 1]] == xs;
    }
  }

  lemma {:induction false} IndexOfAppend<T>(xs: seq<T>, x: T, y: T)
    requires y in xs
    ensures IndexOf(xs + [x], y) == IndexOf(xs, y)
  {
    if xs[0] != y {
      assert (xs + [x])[1..] == xs[1..] + [x];
      IndexOfAppend(xs[1..], x, y);
    }
  }

  /** The deduplicated sequence lists its elements in the order of their first occurrence. */
  lemma {:induction false} DedupFirstSeenOrder<T>(xs: seq<T>, i: nat, j: nat)
    requires i < j < |Dedup(xs)|
    ensures IndexOf(xs, Dedup(xs)[i]) < IndexOf(xs, Dedup(xs)[j])
  {
    var init := xs[..|xs| - 1];
    var x := xs[|xs| - 1];
    assert xs == init + [x];
    var p := Dedup(init);
    var d := Dedup(xs);
    assert d[i] in init && d[i] in p by {
      assert d[i] in d;
      if x !in p { assert i < |p|; assert d[i] == p[i]; }
    }
    IndexOfAppend(init, x, d[i]);
    if j < |p| {
      DedupFirstSeenOrder(init, i, j);
      assert d[j] == p[j];
      assert d[j] in init;
      IndexOfAppend(init, x, d[j]);
    } else {
      assert x !in p && d[j] == x;
      assert x !in init;
      assert IndexOf(xs, x) == |init|;
    }
  }

  /** `a` lists its elements in the order of their first occurrences in `xs`. */
  predicate OrderedBy<T(==)>(xs: seq<T>, a: seq<T>) {
    forall i, j :: 0 <= i < j < |a| ==> IndexOf(xs, a[i]) < IndexOf(xs, a[j])
  }

  /** `d` lists each element of `xs` once, ordered by first occurrence in `xs`. */
  predicate FirstSeenOrder<T(==)>(xs: seq<T>, d: seq<T>) {
    Distinct(d) &&
    (forall i :: 0 <= i < |d| ==> d[i] in xs) &&
    (forall i :: 0 <= i < |xs| ==> xs[i] in d) &&
    OrderedBy(xs, d)
  }

  lemma FirstIsEarliest<T>(xs: seq<T>, a: seq<T>, x: T)
    requires x in a && OrderedBy(xs, a)
    ensures IndexOf(xs, a[0]) <= IndexOf(xs, x)
  {
    var k :| 0 <= k < |a| && a[k] == x;
    if k > 0 {
      assert IndexOf(xs, a[0]) < IndexOf(xs, a[k]);
    }
  }

  lemma TailOrdered<T>(xs: seq<T>, a: seq<T>)
    requires a != [] && Distinct(a) && OrderedBy(xs, a)
    ensures Distinct(a[1..]) && OrderedBy(xs, a[1..])
  {
    forall i, j | 0 <= i < j < |a| - 1
      ensures a[1..][i] != a[1..][j] && IndexOf(xs, a[1..][i]) < IndexOf(xs, a[1..][j])
    {
      assert a[1..][i] == a[i + 1] && a[1..][j] == a[j + 1];
    }
  }

  /** Two sequences in first-seen order over the elements of `xs` are the same sequence. */
  lemma {:induction false} FirstSeenOrderUnique<T>(xs: seq<T>, a: seq<T>, b: seq<T>, elems: set<T>)
    requires Distinct(a) && Distinct(b)
    requires forall x :: x in a <==> x in elems
    requires forall x :: x in b <==> x in elems
    requires forall x :: x in elems ==> x in xs
    requires OrderedBy(xs, a) && OrderedBy(xs, b)
    ensures a == b
    decreases |a|
  {
    NothingLeft(a, elems);
    NothingLeft(b, elems);
    if a != [] {
      var x := a[0];
      assert b[0] in elems && x in elems;
      FirstIsEarliest(xs, a, b[0]);
      FirstIsEarliest(xs, b, x);
      assert IndexOf(xs, x) == IndexOf(xs, b[0]) && x in xs;
      assert b[0] == x;
      TailOrdered(xs, a);
      TailOrdered(xs, b);
      TailElements(a, elems);
      TailElements(b, elems);
      FirstSeenOrderUnique(xs, a[1..], b[1..], elems - {x});
      assert a == [x] + a[1..] && b == [x] + b[1..];
    }
  }

  lemma NothingLeft<T>(b: seq<T>, elems: set<T>)
    requires forall x :: x in b <==> x in elems
    ensures b == [] <==> elems == {}
  {
    if b != [] {
      assert b[0] in elems;
    }
  }

  lemma TailElements<T>(a: seq<T>, elems: set<T>)
    requires a != [] && Distinct(a)
    requires forall x :: x in a <==> x in elems
    ensures forall x :: x in a[1..] <==> x in elems - {a[0]}
  {
    forall x ensures x in a[1..] <==> x in elems - {a[0]} {
      if x in a[1..] {
        var k :| 1 <= k < |a| && a[k] == x;
      }
      if x in elems && x != a[0] {
        var k :| 0 <= k < |a| && a[k] == x;
        assert k >= 1;
        assert a[1..][k - 1] == x;
      }
    }
  }

  /**
   * `Dedup` is the first-seen order of `xs`, and the only one: any sequence listing each
   * element of `xs` once, ordered by first occurrence, equals it.
   */
  lemma DedupIsFirstSeenOrder<T>(xs: seq<T>, d: seq<T>)
    ensures FirstSeenOrder(xs, Dedup(xs))
    ensures FirstSeenOrder(xs, d) ==> d == Dedup(xs)
  {
    forall i, j | 0 <= i < j < |Dedup(xs)| ensures IndexOf(xs, Dedup(xs)[i]) < IndexOf(xs, Dedup(xs)[j]) {
      DedupFirstSeenOrder(xs, i, j);
    }
    if FirstSeenOrder(xs, d) {
      var elems := set i | 0 <= i < |xs| :: xs[i];
      FirstSeenOrderUnique(xs, d, Dedup(xs), elems);
    }
  }

  /** The subcategory column of the records, in record order. */
  function Subcategories(records: seq<Record>): (s: seq<string>)
    ensures |s| == |records|
    ensures forall i :: 0 <= i < |records| ==> s[i] == records[i].subcategory
  {
    seq(|records|, i requires 0 <= i < |records| => records[i].subcategory)
  }

  /** The category column of the records, in record order. */
  function Categories(records: seq<Record>): (s: seq<string>)
    ensures |s| == |records|
    ensures forall i :: 0 <= i < |records| ==> s[i] == records[i].category
  {
    seq(|records|, i requires 0 <= i < |records| => records[i].category)
  }

  /** `subgroups`: the distinct subcategories in first-seen order. */
  function Subgroups(records: seq<Record>): seq<string> {
    Dedup(Subcategories(records))
  }

  /**
   * Every subcategory of the records occurs in `Subgroups` exactly once, nothing else does,
   * and two subgroups are ordered as their first records are.
   */
  lemma SubgroupsSpec(records: seq<Record>)
    ensures Distinct(Subgroups(records))
    ensures forall s :: s in Subgroups(records) <==> exists r :: r in records && r.subcategory == s
    ensures forall i, j :: 0 <= i < j < |Subgroups(records)| ==>
      IndexOf(Subcategories(records), Subgroups(records)[i]) < IndexOf(Subcategories(records), Subgroups(records)[j])
  {
    var sub := Subcategories(records);
    forall s | s in Subgroups(records) ensures exists r :: r in records && r.subcategory == s {
      var k :| 0 <= k < |sub| && sub[k] == s;
      assert records[k] in records;
    }
    forall i, j | 0 <= i < j < |Subgroups(records)|
      ensures IndexOf(sub, Subgroups(records)[i]) < IndexOf(sub, Subgroups(records)[j])
    {
      DedupFirstSeenOrder(sub, i, j);
    }
  }
}
