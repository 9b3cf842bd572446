/**
 * The colour scale (`scaleOrdinal().domain(subgroups).range(COLOR_PALETTE)`) and the
 * vertical scale (`scaleLinear().domain([0, maxDataValue]).range([height, 0])`) that
 * turns a stacked point into a rectangle.
 */
module Scales {
  import opened CategoryIndex

  const ColorPalette: seq<string> := ["#0fb5ae", "#4046ea", "#f68511", "#de3d82", "#adadad"]

  /**
   * The ordinal scale applied to `key`. Setting the domain keeps each value once, in
   * first-seen order; the colour is the palette entry at the key's position in that domain,
   * cycling through the palette. A key outside the domain is appended to it (d3's implicit
   * unknown value), so it takes the position just past the last distinct value.
   */
  function ColorOf(domain: seq<string>, key: string): (c: string)
    ensures c in ColorPalette
  {
    ColorPalette[IndexOf(Dedup(domain), key) % |ColorPalette|]
  }

  /** The subgroup at position `i` gets palette entry `i` modulo the palette length. */
  lemma ColorOfSubgroup(domain: seq<string>, i: nat)
    requires Distinct(domain) && i < |domain|
    ensures ColorOf(domain, domain[i]) == ColorPalette[i % |ColorPalette|]
  {
    DedupOfDistinct(domain);
  }

  /**
   * A key outside the domain gets the entry at the number of distinct domain values, and
   * a repeated domain value takes no position of its own.
   */
  lemma ColorOfUnknown(domain: seq<string>, key: string)
    requires key !in domain
    ensures ColorOf(domain, key) == ColorPalette[|Dedup(domain)| % |ColorPalette|]
  {
  }

  /** With the domain `["A", "A"]`, the unknown key "B" takes the second colour, not the third. */
  lemma ColorOfRepeatedDomain()
    ensures ColorOf(["A", "A"], "B") == ColorPalette[1]
  {
    assert Dedup(["A", "A"][..1]) == ["A"];
    assert Dedup(["A", "A"]) == ["A"];
  }

  /** Past the fifth subgroup the palette repeats instead of running out. */
  lemma ColorsCycle(domain: seq<string>, i: nat)
    requires Distinct(domain) && i + |ColorPalette| < |domain|
    ensures ColorOf(domain, domain[i + |ColorPalette|]) == ColorOf(domain, domain[i])
  {
    ColorOfSubgroup(domain, i);
    ColorOfSubgroup(domain, i + |ColorPalette|);
  }

  /** The drawing height: 280 less the top margin of 20 and the bottom margin of 30. */
  const ChartHeight: real := 280.0 - 20.0 - 30.0

  /**
   * The linear scale from `[0, maxValue]` to `[ChartHeight, 0]`: d3 normalises `v` to
   * `t = v / maxValue` and interpolates `ChartHeight * (1 - t) + 0 * t`.
   */
  function YScale(maxValue: int, v: int): real
    requires maxValue > 0
  {
    var t := v as real / maxValue as real;
    ChartHeight * (1.0 - t) + 0.0 * t
  }

  /** 0 lands on the bottom edge, the maximum on the top edge, and larger values lie higher. */
  lemma YScaleEnds(maxValue: int, v: int, w: int)
    requires maxValue > 0
    ensures YScale(maxValue, 0) == ChartHeight
    ensures YScale(maxValue, maxValue) == 0.0
    ensures v <= w ==> YScale(maxValue, w) <= YScale(maxValue, v)
  {
    if v <= w {
      assert v as real / maxValue as real <= w as real / maxValue as real;
    }
  }

  /**
   * The rectangle of a point (`yScale(d[0]) - yScale(d[1])`) is as tall as the point's
   * extent scaled by `ChartHeight / maxValue`, so it is never negative for a point whose
   * lower end is not above its upper end.
   */
  lemma RectHeight(maxValue: int, lower: int, upper: int)
    requires maxValue > 0
    ensures YScale(maxValue, lower) - YScale(maxValue, upper)
         == (upper - lower) as real * ChartHeight / maxValue as real
    ensures lower <= upper ==> YScale(maxValue, lower) - YScale(maxValue, upper) >= 0.0
  {
    var m := maxValue as real;
    assert YScale(maxValue, lower) - YScale(maxValue, upper)
        == ChartHeight * (upper as real / m - lower as real / m);
    assert upper as real / m - lower as real / m == (upper - lower) as real / m;
  }
}
