/**
 * The stack layout: `stack().keys(subgroups).value(...)` over the grouped rows, with d3's
 * default order (series in key order) and default offset (each series starts where the
 * previous one ended), and `maxDataValue`, the largest row total.
 */
module Stacking {
  import opened Wrappers
  import opened CategoryIndex
  import opened Grouping

  /**
   * The value accessor: the value of the first record of the row whose subcategory is
   * `key`, or 0 when the row has none (`d.find(...)?.value || 0`).
   */
  function Lookup(row: seq<Record>, key: string): int {
    if row == [] then 0
    else if row[0].subcategory == key then row[0].value
    else Lookup(row[1..], key)
  }

  lemma {:induction false} LookupFindsFirst(row: seq<Record>, key: string)
    ensures Lookup(row, key) == (if IndexOf(Subcategories(row), key) < |row|
                                 then row[IndexOf(Subcategories(row), key)].value else 0)
  {
    if row != [] && row[0].subcategory != key {
      assert Subcategories(row)[1..] == Subcategories(row[1..]);
      LookupFindsFirst(row[1..], key);
    }
  }

  /** The sum of the looked-up values of `keys`: the height of the stack they form. */
  function SumLookups(row: seq<Record>, keys: seq<string>): int {
    if keys == [] then 0 else SumLookups(row, keys[..|keys| - 1]) + Lookup(row, keys[|keys| - 1])
  }

  /** The sum of the row's values: the `reduce((d, c) => d + c.value, 0)` of `maxDataValue`. */
  function RowTotal(row: seq<Record>): int {
    if row == [] then 0 else row[0].value + RowTotal(row[1..])
  }

  /** One stacked point: `[lower, upper]` with the row it was computed from as `data`. */
  datatype Point = Point(lower: int, upper: int, data: seq<Record>)

  /** One series of the stack: all points of one key, one per row. */
  datatype Series = Series(key: string, index: nat, points: seq<Point>)

  /**
   * The series from key `j` on: each point of series `j` starts at `base`, the uppers of
   * series `j - 1`, and is as tall as the looked-up value.
   */
  function StackFrom(rows: seq<seq<Record>>, keys: seq<string>, j: nat, base: seq<int>): (s: seq<Series>)
    requires |base| == |rows|
    ensures |s| == if j <= |keys| then |keys| - j else 0
    ensures forall m :: 0 <= m < |s| ==> s[m].key == keys[j + m] && |s[m].points| == |rows|
    decreases |keys| - j
  {
    if j >= |keys| then []
    else
      var points := seq(|rows|, i requires 0 <= i < |rows| => Point(base[i], base[i] + Lookup(rows[i], keys[j]), rows[i]));
      [Series(keys[j], j, points)] + StackFrom(rows, keys, j + 1, seq(|rows|, i requires 0 <= i < |rows| => points[i].upper))
  }

  function Stack(rows: seq<seq<Record>>, keys: seq<string>): (s: seq<Series>)
    ensures |s| == |keys|
    ensures forall j :: 0 <= j < |keys| ==> s[j].key == keys[j] && |s[j].points| == |rows|
  {
    StackFrom(rows, keys, 0, seq(|rows|, i => 0))
  }

  lemma {:induction false} StackFromClosedForm(rows: seq<seq<Record>>, keys: seq<string>, j: nat, base: seq<int>)
    requires j <= |keys| && |base| == |rows|
    requires forall i :: 0 <= i < |rows| ==> base[i] == SumLookups(rows[i], keys[..j])
    ensures |StackFrom(rows, keys, j, base)| == |keys| - j
    ensures forall m :: 0 <= m < |keys| - j ==>
      var s := StackFrom(rows, keys, j, base)[m];
      s.key == keys[j + m] && s.index == j + m && |s.points| == |rows| &&
      forall i :: 0 <= i < |rows| ==>
        s.points[i] == Point(SumLookups(rows[i], keys[..j + m]), SumLookups(rows[i], keys[..j + m + 1]), rows[i])
    decreases |keys| - j
  {
    if j < |keys| {
      var points := seq(|rows|, i requires 0 <= i < |rows| => Point(base[i], base[i] + Lookup(rows[i], keys[j]), rows[i]));
      var next := seq(|rows|, i requires 0 <= i < |rows| => points[i].upper);
      assert keys[..j + 1][..j] == keys[..j];
      forall i | 0 <= i < |rows| ensures next[i] == SumLookups(rows[i], keys[..j + 1]) { }
      StackFromClosedForm(rows, keys, j + 1, next);
      var whole := StackFrom(rows, keys, j, base);
      assert whole == [Series(keys[j], j, points)] + StackFrom(rows, keys, j + 1, next);
      forall m | 0 <= m < |keys| - j
        ensures whole[m].key == keys[j + m] && whole[m].index == j + m && |whole[m].points| == |rows|
        ensures forall i :: 0 <= i < |rows| ==>
          whole[m].points[i] == Point(SumLookups(rows[i], keys[..j + m]), SumLookups(rows[i], keys[..j + m + 1]), rows[i])
      {
        if m > 0 {
          assert whole[m] == StackFrom(rows, keys, j + 1, next)[m - 1];
        }
      }
    }
  }

  /**
   * The stack in closed form: one series per key, in key order, one point per row, and the
   * point of key `j` in row `i` spans from the sum of the values of the keys before `j` to
   * the sum including `j`.
   */
  lemma StackClosedForm(rows: seq<seq<Record>>, keys: seq<string>)
    ensures |Stack(rows, keys)| == |keys|
    ensures forall j :: 0 <= j < |keys| ==>
      var s := Stack(rows, keys)[j];
      s.key == keys[j] && s.index == j && |s.points| == |rows| &&
      forall i :: 0 <= i < |rows| ==>
        s.points[i] == Point(SumLookups(rows[i], keys[..j]), SumLookups(rows[i], keys[..j + 1]), rows[i])
  {
    StackFromClosedForm(rows, keys, 0, seq(|rows|, i => 0));
  }

  /** The point of key `j` in row `i`, in closed form. */
  lemma StackPoint(rows: seq<seq<Record>>, keys: seq<string>, j: nat, i: nat)
    requires j < |keys| && i < |rows|
    ensures Stack(rows, keys)[j].points[i]
         == Point(SumLookups(rows[i], keys[..j]), SumLookups(rows[i], keys[..j]) + Lookup(rows[i], keys[j]), rows[i])
  {
    StackClosedForm(rows, keys);
    assert keys[..j + 1][..j] == keys[..j];
  }

  /** The segment of the first key starts at 0. */
  lemma StackStartsAtZero(rows: seq<seq<Record>>, keys: seq<string>, i: nat)
    requires i < |rows| && |keys| > 0
    ensures Stack(rows, keys)[0].points[i].lower == 0
  {
    StackPoint(rows, keys, 0, i);
  }

  /** Each segment starts where the segment of the previous key ends. */
  lemma StackIsContiguous(rows: seq<seq<Record>>, keys: seq<string>, j: nat, i: nat)
    requires j + 1 < |keys| && i < |rows|
    ensures Stack(rows, keys)[j + 1].points[i].lower == Stack(rows, keys)[j].points[i].upper
  {
    StackPoint(rows, keys, j, i);
    StackPoint(rows, keys, j + 1, i);
    assert keys[..j + 1][..j] == keys[..j];
  }

  /** Each segment is as tall as the looked-up value of its key. */
  lemma StackSegmentHeight(rows: seq<seq<Record>>, keys: seq<string>, j: nat, i: nat)
    requires j < |keys| && i < |rows|
    ensures Stack(rows, keys)[j].points[i].upper - Stack(rows, keys)[j].points[i].lower == Lookup(rows[i], keys[j])
  {
    StackPoint(rows, keys, j, i);
  }

  /** The segment of the last key ends at the sum of all looked-up values. */
  lemma StackTop(rows: seq<seq<Record>>, keys: seq<string>, i: nat)
    requires i < |rows| && |keys| > 0
    ensures Stack(rows, keys)[|keys| - 1].points[i].upper == SumLookups(rows[i], keys)
  {
    StackPoint(rows, keys, |keys| - 1, i);
    assert SumLookups(rows[i], keys) == SumLookups(rows[i], keys[..|keys| - 1]) + Lookup(rows[i], keys[|keys| - 1]);
  }

  /** With non-negative values no segment is upside down. */
  lemma StackSegmentsNonNegative(rows: seq<seq<Record>>, keys: seq<string>, i: nat, j: nat)
    requires i < |rows| && j < |keys|
    requires forall r :: r in rows[i] ==> r.value >= 0
    ensures Stack(rows, keys)[j].points[i].lower <= Stack(rows, keys)[j].points[i].upper
  {
    StackSegmentHeight(rows, keys, j, i);
    LookupNonNegative(rows[i], keys[j]);
  }

  lemma {:induction false} LookupNonNegative(row: seq<Record>, key: string)
    requires forall r :: r in row ==> r.value >= 0
    ensures Lookup(row, key) >= 0
  {
    if row != [] && row[0].subcategory != key {
      LookupNonNegative(row[1..], key);
    }
  }

  /** `row` holds at most one record per subcategory. */
  predicate UniqueSubcategories(row: seq<Record>) {
    forall i, j :: 0 <= i < j < |row| ==> row[i].subcategory != row[j].subcategory
  }

  /** The row without its records of subcategory `key`. */
  function Without(row: seq<Record>, key: string): (w: seq<Record>)
    ensures forall r :: r in w ==> r in row && r.subcategory != key
  {
    if row == [] then []
    else if row[0].subcategory == key then Without(row[1..], key)
    else [row[0]] + Without(row[1..], key)
  }

  lemma {:induction false} WithoutKeepsOthers(row: seq<Record>, key: string, other: string)
    requires other != key
    ensures Lookup(Without(row, key), other) == Lookup(row, other)
  {
    if row != [] {
      WithoutKeepsOthers(row[1..], key, other);
    }
  }

  lemma {:induction false} WithoutKeepsUnique(row: seq<Record>, key: string)
    requires UniqueSubcategories(row)
    ensures UniqueSubcategories(Without(row, key))
  {
    if row != [] {
      WithoutKeepsUnique(row[1..], key);
      if row[0].subcategory != key {
        var w := Without(row[1..], key);
        forall r | r in w ensures r.subcategory != row[0].subcategory {
          var k :| 1 <= k < |row| && row[k] == r;
        }
      }
    }
  }

  lemma {:induction false} TotalSplits(row: seq<Record>, key: string)
    requires UniqueSubcategories(row)
    ensures RowTotal(row) == Lookup(row, key) + RowTotal(Without(row, key))
  {
    if row != [] {
      if row[0].subcategory == key {
        assert forall k :: 1 <= k < |row| ==> row[k].subcategory != key;
        NoMatchNoChange(row[1..], key);
      } else {
        TotalSplits(row[1..], key);
      }
    }
  }

  lemma {:induction false} NoMatchNoChange(row: seq<Record>, key: string)
    requires forall k :: 0 <= k < |row| ==> row[k].subcategory != key
    ensures Lookup(row, key) == 0 && Without(row, key) == row
  {
    if row != [] {
      NoMatchNoChange(row[1..], key);
    }
  }

  lemma {:induction false} SumLookupsWithout(row: seq<Record>, keys: seq<string>, key: string)
    requires key !in keys
    ensures SumLookups(Without(row, key), keys) == SumLookups(row, keys)
  {
    if keys != [] {
      SumLookupsWithout(row, keys[..|keys| - 1], key);
      WithoutKeepsOthers(row, key, keys[|keys| - 1]);
    }
  }

  /**
   * Stack conservation: when a row has at most one record per subcategory and every
   * subcategory of the row is among the distinct keys, the stack reaches exactly the row's
   * total.
   */
  lemma {:induction false} SumLookupsIsTotal(row: seq<Record>, keys: seq<string>)
    requires Distinct(keys) && UniqueSubcategories(row)
    requires forall r :: r in row ==> r.subcategory in keys
    ensures SumLookups(row, keys) == RowTotal(row)
    decreases |keys|
  {
    if keys != [] {
      var init := keys[..|keys| - 1];
      var key := keys[|keys| - 1];
      assert keys == init + [key];
      TotalSplits(row, key);
      SumLookupsWithout(row, init, key);
      WithoutKeepsUnique(row, key);
      SumLookupsIsTotal(Without(row, key), init);
    }
  }

  /** No two records share both category and subcategory. */
  predicate OneRecordPerPair(records: seq<Record>) {
    forall i, j :: 0 <= i < j < |records| && records[i].category == records[j].category ==>
      records[i].subcategory != records[j].subcategory
  }

  lemma {:induction false} GroupHasUniqueSubcategories(records: seq<Record>, c: string)
    requires OneRecordPerPair(records)
    ensures UniqueSubcategories(RecordsIn(records, c))
  {
    if records != [] {
      var prefix := records[..|records| - 1];
      var last := records[|records| - 1];
      assert records == prefix + [last];
      GroupHasUniqueSubcategories(prefix, c);
      RecordsInAppend(prefix, last, c);
      if last.category == c {
        forall r | r in RecordsIn(prefix, c) ensures r.subcategory != last.subcategory {
          var k :| 0 <= k < |prefix| && prefix[k] == r;
        }
      }
    }
  }

  /**
   * Stack conservation for the chart: with one record per (category, subcategory) pair, the
   * top of every category's stack over `subgroups` is that category's total.
   */
  lemma ChartStackConservation(records: seq<Record>, order: seq<string>, i: nat)
    requires OneRecordPerPair(records)
    requires i < |order| && |Subgroups(records)| > 0
    ensures Stack(Rows(records, order), Subgroups(records))[|Subgroups(records)| - 1].points[i].upper
         == RowTotal(RecordsIn(records, order[i]))
  {
    var keys := Subgroups(records);
    var row := RecordsIn(records, order[i]);
    StackTop(Rows(records, order), keys, i);
    GroupHasUniqueSubcategories(records, order[i]);
    SubgroupsSpec(records);
    SumLookupsIsTotal(row, keys);
  }

  /**
   * The largest row total (`max(...)` of the totals); `None` when there are no rows, where
   * d3's `max` gives `undefined`.
   */
  function MaxTotal(rows: seq<seq<Record>>): (m: Option<int>)
    ensures m.None? <==> rows == []
    ensures m.Some? ==> forall i :: 0 <= i < |rows| ==> RowTotal(rows[i]) <= m.value
    ensures m.Some? ==> exists i :: 0 <= i < |rows| && RowTotal(rows[i]) == m.value
  {
    if rows == [] then None
    else
      var last := RowTotal(rows[|rows| - 1]);
      match MaxTotal(rows[..|rows| - 1])
      case None => Some(last)
      case Some(m) => if m < last then Some(last) else Some(m)
  }

  /**
   * A worked example: records (2020, A, 10), (2020, B, 20), (2021, A, 5), (2021, B, 5) have
   * subgroups [A, B]; grouped by category they stack as A:[0,10], B:[10,30] for 2020 and
   * A:[0,5], B:[5,10] for 2021, and the largest total is 30.
   */
  lemma StackExample()
    ensures var records := [Record("2020", "A", 10), Record("2020", "B", 20), Record("2021", "A", 5), Record("2021", "B", 5)];
      Subgroups(records) == ["A", "B"]
    ensures var records := [Record("2020", "A", 10), Record("2020", "B", 20), Record("2021", "A", 5), Record("2021", "B", 5)];
      var rows := Rows(records, ChartOrder(records));
      var s := Stack(rows, Subgroups(records));
      s[0].points[0].lower == 0 && s[0].points[0].upper == 10 && s[1].points[0].lower == 10 && s[1].points[0].upper == 30 &&
      s[0].points[1].lower == 0 && s[0].points[1].upper == 5 && s[1].points[1].lower == 5 && s[1].points[1].upper == 10 &&
      MaxTotal(rows) == Some(30)
  {
    var records := [Record("2020", "A", 10), Record("2020", "B", 20), Record("2021", "A", 5), Record("2021", "B", 5)];
    SubgroupsExample(records);
    GroupedRowsExample(records);
    var rows := [[Record("2020", "A", 10), Record("2020", "B", 20)], [Record("2021", "A", 5), Record("2021", "B", 5)]];
    StackRowsExample(rows);
  }

  lemma SubgroupsExample(records: seq<Record>)
    requires records == [Record("2020", "A", 10), Record("2020", "B", 20), Record("2021", "A", 5), Record("2021", "B", 5)]
    ensures Subgroups(records) == ["A", "B"]
  {
    var sub := Subcategories(records);
    assert sub == ["A", "B", "A", "B"];
    assert sub[..1] == ["A"] && sub[..2][..1] == sub[..1] && sub[..3][..2] == sub[..2] && sub[..3] == sub[..|sub| - 1];
    assert Dedup(sub[..1]) == ["A"];
    assert Dedup(sub[..2]) == ["A", "B"];
    assert Dedup(sub[..3]) == ["A", "B"];
  }

  /** The example's records grouped by category, in first-seen category order. */
  lemma GroupedRowsExample(records: seq<Record>)
    requires records == [Record("2020", "A", 10), Record("2020", "B", 20), Record("2021", "A", 5), Record("2021", "B", 5)]
    ensures Rows(records, ChartOrder(records))
         == [[Record("2020", "A", 10), Record("2020", "B", 20)], [Record("2021", "A", 5), Record("2021", "B", 5)]]
  {
    ChartOrderExample(records);
    RecordsInExample(records);
  }

  lemma ChartOrderExample(records: seq<Record>)
    requires records == [Record("2020", "A", 10), Record("2020", "B", 20), Record("2021", "A", 5), Record("2021", "B", 5)]
    ensures ChartOrder(records) == ["2020", "2021"]
  {
    var cats := Categories(records);
    assert cats == ["2020", "2020", "2021", "2021"];
    assert cats[..1] == ["2020"] && cats[..2][..1] == cats[..1] && cats[..3][..2] == cats[..2] && cats[..3] == cats[..|cats| - 1];
    assert Dedup(cats[..1]) == ["2020"];
    assert Dedup(cats[..2]) == ["2020"];
    assert Dedup(cats[..3]) == ["2020", "2021"];
  }

  lemma RecordsInExample(records: seq<Record>)
    requires records == [Record("2020", "A", 10), Record("2020", "B", 20), Record("2021", "A", 5), Record("2021", "B", 5)]
    ensures RecordsIn(records, "2020") == [Record("2020", "A", 10), Record("2020", "B", 20)]
    ensures RecordsIn(records, "2021") == [Record("2021", "A", 5), Record("2021", "B", 5)]
  {
    assert "2020"[3] != "2021"[3];
    RecordsInPair(records, "2020", true);
    RecordsInPair(records, "2021", false);
  }

  /**
   * Four records whose categories are `c`, `c`, `d`, `d` (when `first`) or `d`, `d`, `c`, `c`
   * (otherwise), with `c != d`: the group of `c` is the pair of records of category `c`.
   */
  lemma RecordsInPair(records: seq<Record>, c: string, first: bool)
    requires |records| == 4
    requires records[0].category == records[1].category && records[2].category == records[3].category
    requires records[0].category != records[2].category
    requires c == (if first then records[0].category else records[2].category)
    ensures RecordsIn(records, c) == if first then records[..2] else records[2..]
  {
    var p1, p2, p3 := records[..1], records[..2], records[..3];
    assert p1 == [] + [records[0]] && p2 == p1 + [records[1]];
    assert p3 == p2 + [records[2]] && records == p3 + [records[3]];
    RecordsInAppend([], records[0], c);
    RecordsInAppend(p1, records[1], c);
    RecordsInAppend(p2, records[2], c);
    RecordsInAppend(p3, records[3], c);
    assert records[2..] == [records[2], records[3]];
  }

  lemma StackRowsExample(rows: seq<seq<Record>>)
    requires rows == [[Record("2020", "A", 10), Record("2020", "B", 20)], [Record("2021", "A", 5), Record("2021", "B", 5)]]
    ensures var s := Stack(rows, ["A", "B"]);
      s[0].points[0].lower == 0 && s[0].points[0].upper == 10 && s[1].points[0].lower == 10 && s[1].points[0].upper == 30 &&
      s[0].points[1].lower == 0 && s[0].points[1].upper == 5 && s[1].points[1].lower == 5 && s[1].points[1].upper == 10 &&
      MaxTotal(rows) == Some(30)
  {
    var keys := ["A", "B"];
    assert keys[..0] == [] && keys[..1] == ["A"] && keys[..2] == keys;
    assert Lookup(rows[0], "A") == 10 && Lookup(rows[0], "B") == 20;
    assert Lookup(rows[1], "A") == 5 && Lookup(rows[1], "B") == 5;
    StackPoint(rows, keys, 0, 0);
    StackPoint(rows, keys, 1, 0);
    StackPoint(rows, keys, 0, 1);
    StackPoint(rows, keys, 1, 1);
    assert RowTotal(rows[0]) == 30 && RowTotal(rows[1]) == 10;
    assert rows[..1] == [rows[0]];
  }
}
