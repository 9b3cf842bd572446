/**
 * `groupedData`: the records collected per category by a `reduce` whose accumulator is an
 * object mapping each category to an array that the callback `push`es onto.
 */
module Grouping {
  import opened CategoryIndex

  /** The records of category `c`, in input order: what the accumulator holds for `c`. */
  function RecordsIn(records: seq<Record>, c: string): (g: seq<Record>)
    ensures |g| <= |records|
    ensures forall r :: r in g ==> r in records && r.category == c
  {
    if records == [] then []
    else
      var last := records[|records| - 1];
      RecordsIn(records[..|records| - 1], c) + (if last.category == c then [last] else [])
  }

  /** The keys the accumulator ends up with: every category that occurs in the records. */
  function CategorySet(records: seq<Record>): (cs: set<string>)
    ensures forall r :: r in records ==> r.category in cs
  {
    if records == [] then {}
    else
      var last := records[|records| - 1];
      var prefix := records[..|records| - 1];
      CategorySet(prefix) + {last.category}
  }

  /** `groups` is what the accumulator holds after the callback has seen `seen`. */
  predicate Accumulates(groups: map<string, seq<Record>>, seen: seq<Record>) {
    groups.Keys == CategorySet(seen) && forall c :: c in groups ==> groups[c] == RecordsIn(seen, c)
  }

  /** One call of the `reduce` callback keeps the accumulator in step with the records seen. */
  lemma AccumulatePush(groups: map<string, seq<Record>>, seen: seq<Record>, cur: Record)
    requires Accumulates(groups, seen)
    ensures Accumulates(groups[cur.category := (if cur.category in groups then groups[cur.category] else []) + [cur]],
                        seen + [cur])
  {
    var k := cur.category;
    var list := if k in groups then groups[k] else [];
    var next := groups[k := list + [cur]];
    if k !in groups {
      AbsentCategoryIsEmpty(seen, k);
    }
    assert list == RecordsIn(seen, k);
    CategorySetAppend(seen, cur);
    assert next.Keys == groups.Keys + {k};
    forall c | c in next ensures next[c] == RecordsIn(seen + [cur], c) {
      RecordsInAppend(seen, cur, c);
      if c != k {
        assert next[c] == groups[c];
      }
    }
  }

  /**
   * The `reduce` over `rawData`: `acc[cur.category] = acc[cur.category] || []` followed by
   * `acc[cur.category].push(cur)`.
   */
  method GroupByCategory(records: seq<Record>) returns (groups: map<string, seq<Record>>)
    ensures groups.Keys == CategorySet(records)
    ensures forall c :: c in groups ==> groups[c] == RecordsIn(records, c)
  {
    groups := map[];
    for i := 0 to |records|
      invariant Accumulates(groups, records[..i])
    {
      var cur := records[i];
      var list := if cur.category in groups then groups[cur.category] else [];
      assert records[..i + 1] == records[..i] + [cur];
      AccumulatePush(groups, records[..i], cur);
      groups := groups[cur.category := list + [cur]];
    }
    assert records[..|records|] == records;
    assert Accumulates(groups, records);
  }

  lemma RecordsInAppend(records: seq<Record>, r: Record, c: string)
    ensures RecordsIn(records + [r], c) == RecordsIn(records, c) + (if r.category == c then [r] else [])
  {
    assert (records + [r])[..|records|] == records;
  }

  lemma CategorySetAppend(records: seq<Record>, r: Record)
    ensures CategorySet(records + [r]) == CategorySet(records) + {r.category}
  {
    assert (records + [r])[..|records|] == records;
  }

  lemma AbsentCategoryIsEmpty(records: seq<Record>, c: string)
    requires c !in CategorySet(records)
    ensures RecordsIn(records, c) == []
  {
  }

  /** Each record lands in its own category's list and in no other. */
  lemma {:induction false} RecordInOwnGroup(records: seq<Record>, r: Record, c: string)
    requires r in records
    ensures r in RecordsIn(records, c) <==> r.category == c
  {
    var last := records[|records| - 1];
    var prefix := records[..|records| - 1];
    assert records == prefix + [last];
    if r != last {
      assert r in prefix;
      RecordInOwnGroup(prefix, r, c);
    }
  }

  /** One list per category of `order`, in that order: the values of the accumulator. */
  function Rows(records: seq<Record>, order: seq<string>): (rows: seq<seq<Record>>)
    ensures |rows| == |order|
    ensures forall i :: 0 <= i < |order| ==> rows[i] == RecordsIn(records, order[i])
  {
    seq(|order|, i requires 0 <= i < |order| => RecordsIn(records, order[i]))
  }

  function Flatten(rows: seq<seq<Record>>): seq<Record> {
    if rows == [] then [] else Flatten(rows[..|rows| - 1]) + rows[|rows| - 1]
  }

  /** Listing the rows of `order` is listing those of all but its last category, then that one's. */
  lemma RowsSnoc(rs: seq<Record>, order: seq<string>)
    requires order != []
    ensures Flatten(Rows(rs, order))
         == Flatten(Rows(rs, order[..|order| - 1])) + RecordsIn(rs, order[|order| - 1])
  {
    assert Rows(rs, order)[..|order| - 1] == Rows(rs, order[..|order| - 1]);
  }

  /** The groups of `order` listed one after another, without building the rows first. */
  function Grouped(rs: seq<Record>, order: seq<string>): seq<Record> {
    if order == [] then [] else Grouped(rs, order[..|order| - 1]) + RecordsIn(rs, order[|order| - 1])
  }

  lemma {:induction false} FlattenRowsIsGrouped(rs: seq<Record>, order: seq<string>)
    ensures Flatten(Rows(rs, order)) == Grouped(rs, order)
  {
    if order != [] {
      RowsSnoc(rs, order);
      FlattenRowsIsGrouped(rs, order[..|order| - 1]);
    }
  }

  lemma ConcatCounts(f0: seq<Record>, f1: seq<Record>, g0: seq<Record>, g1: seq<Record>,
                     e: multiset<Record>, e': multiset<Record>)
    requires multiset(f1) == multiset(f0) + e && multiset(g1) == multiset(g0) + e'
    ensures multiset(f1 + g1) == multiset(f0 + g0) + e + e'
  {
  }

  /** One more input record adds one record to the listing when its category is enumerated. */
  lemma {:induction false} GroupedAppendRecord(rs: seq<Record>, r: Record, order: seq<string>)
    requires Distinct(order)
    ensures multiset(Grouped(rs + [r], order))
         == multiset(Grouped(rs, order)) + (if r.category in order then multiset{r} else multiset{})
  {
    if order != [] {
      var init := order[..|order| - 1];
      var k := order[|order| - 1];
      assert order == init + [k];
      assert k !in init;
      assert r.category in order <==> r.category in init || r.category == k;
      RecordsInAppend(rs, r, k);
      GroupedAppendRecord(rs, r, init);
      ConcatCounts(Grouped(rs, init), Grouped(rs + [r], init),
                   RecordsIn(rs, k), RecordsIn(rs + [r], k),
                   if r.category in init then multiset{r} else multiset{},
                   if r.category == k then multiset{r} else multiset{});
    }
  }

  lemma {:induction false} GroupedEmpty(order: seq<string>)
    ensures Grouped([], order) == []
  {
    if order != [] {
      GroupedEmpty(order[..|order| - 1]);
    }
  }

  lemma {:induction false} GroupedPreservesRecords(records: seq<Record>, order: seq<string>)
    requires Distinct(order)
    requires CategorySet(records) <= set c | c in order
    ensures multiset(Grouped(records, order)) == multiset(records)
  {
    if records == [] {
      GroupedEmpty(order);
    } else {
      var prefix := records[..|records| - 1];
      var last := records[|records| - 1];
      assert records == prefix + [last];
      assert CategorySet(records) == CategorySet(prefix) + {last.category};
      GroupedPreservesRecords(prefix, order);
      GroupedAppendRecord(prefix, last, order);
      assert last.category in order;
    }
  }

  /**
   * Grouping loses and duplicates nothing: listing the groups of any enumeration of the
   * categories yields the input records as a multiset, so the counts agree too.
   */
  lemma GroupingPreservesRecords(records: seq<Record>, order: seq<string>)
    requires Distinct(order)
    requires CategorySet(records) <= set c | c in order
    ensures multiset(Flatten(Rows(records, order))) == multiset(records)
    ensures |Flatten(Rows(records, order))| == |records|
  {
    FlattenRowsIsGrouped(records, order);
    GroupedPreservesRecords(records, order);
    assert |multiset(Grouped(records, order))| == |Grouped(records, order)|;
  }

  /** The keys of the accumulator are exactly the categories of the records. */
  lemma {:induction false} CategorySetIsCategories(records: seq<Record>)
    ensures forall c :: c in CategorySet(records) <==> c in Categories(records)
  {
    if records != [] {
      var prefix := records[..|records| - 1];
      CategorySetIsCategories(prefix);
      assert Categories(records) == Categories(prefix) + [records[|records| - 1].category];
    }
  }

  /** The row order used for the stack: the categories as first seen. */
  function ChartOrder(records: seq<Record>): seq<string> {
    Dedup(Categories(records))
  }

  /**
   * The rows of the chart are the groups of its categories: no record is lost or doubled,
   * and every row is non-empty and made of its category's records, so the bar drawn at
   * `d.data[0].category` is the bar of that category whatever the row order.
   */
  lemma ChartRows(records: seq<Record>, i: nat)
    requires i < |ChartOrder(records)|
    ensures multiset(Flatten(Rows(records, ChartOrder(records)))) == multiset(records)
    ensures Rows(records, ChartOrder(records))[i] != []
    ensures forall r :: r in Rows(records, ChartOrder(records))[i] ==> r.category == ChartOrder(records)[i]
  {
    var order := ChartOrder(records);
    CategorySetIsCategories(records);
    GroupingPreservesRecords(records, order);
    var c := order[i];
    assert c in Categories(records);
    var k :| 0 <= k < |records| && records[k].category == c;
    RecordInOwnGroup(records, records[k], c);
  }
}
