/**
 * The hover highlighting shared by the chart and the legend. `chartMouseOver` dims every
 * series group, brings the groups of the hovered key back to full opacity and greys the
 * legend items of that key; `chartMouseOut` restores full opacity and a white background
 * everywhere. The DOM is abstracted to one opacity per series group and one background per
 * legend item.
 */
module Highlight {
  import opened Keys

  /** A legend item's `background` style: not set before the first hover, then grey or white. */
  datatype Background = Unset | Grey | White

  const Dimmed: real := 0.25
  const Opaque: real := 1.0

  /** The class every series group carries besides its normalised key. */
  const SeriesClass: string := "myRect"

  /**
   * As written, the series are picked by the selector `"." + k`, which matches a group
   * carrying `k` among its classes: its normalised key or `SeriesClass`.
   */
  predicate SelectedAsWritten(seriesKey: string, k: string) {
    k == SeriesClass || Normalize(seriesKey) == k
  }

  /** A series is highlighted when its normalised key is exactly the hovered key. */
  predicate SeriesMatches(seriesKey: string, k: string) {
    Normalize(seriesKey) == k
  }

  /** The legend filter: `ld?.trim().replace(/\s/g, "") === subCategory`. */
  predicate LegendMatches(datum: string, k: string) {
    Normalize(datum) == k
  }

  lemma NormalizeLiteral(s: string)
    requires forall i :: 0 <= i < |s| ==> 'A' <= s[i] <= 'Z' || 'a' <= s[i] <= 'z'
    ensures Normalize(s) == s
  {
    NormalizeIsStrip(s);
    StripKeepsClean(s);
  }

  /**
   * A subcategory named like the series class (`"myRect"`) selects every series group, not
   * only its own: hovering it leaves series "B" at full opacity although its key differs.
   */
  lemma SeriesClassSelectsAll()
    ensures HoveredKey(SeriesClass, "") == SeriesClass
    ensures SelectedAsWritten("B", HoveredKey(SeriesClass, ""))
    ensures !SeriesMatches("B", HoveredKey(SeriesClass, ""))
  {
    NormalizeLiteral(SeriesClass);
    NormalizeLiteral("B");
  }

  /** What the chart and legend show: the opacity of each series, the background of each legend item. */
  datatype View = View(opacity: seq<real>, background: seq<Background>)

  /** The state right after rendering: nothing dimmed, no background set. */
  function Initial(series: nat, items: nat): View {
    View(seq(series, i => Opaque), seq(items, i => Unset))
  }

  /** The effect of `chartMouseOver` with hovered key `k`. */
  function AfterOver(v: View, seriesKeys: seq<string>, legendData: seq<string>, k: string): (w: View)
    requires |v.background| == |legendData|
    ensures |w.opacity| == |seriesKeys| && |w.background| == |legendData|
  {
    View(seq(|seriesKeys|, i requires 0 <= i < |seriesKeys| => if SeriesMatches(seriesKeys[i], k) then Opaque else Dimmed),
         seq(|legendData|, i requires 0 <= i < |legendData| =>
           if LegendMatches(legendData[i], k) then Grey else v.background[i]))
  }

  /** The effect of `chartMouseOut`. */
  function AfterOut(v: View): (w: View)
    ensures |w.opacity| == |v.opacity| && |w.background| == |v.background|
  {
    View(seq(|v.opacity|, i => Opaque), seq(|v.background|, i => White))
  }

  /** Hovering twice over the same key shows the same as hovering once. */
  lemma {:induction false} OverIdempotent(v: View, seriesKeys: seq<string>, legendData: seq<string>, k: string)
    requires |v.background| == |legendData|
    ensures AfterOver(AfterOver(v, seriesKeys, legendData, k), seriesKeys, legendData, k)
         == AfterOver(v, seriesKeys, legendData, k)
  {
    var once := AfterOver(v, seriesKeys, legendData, k);
    var twice := AfterOver(once, seriesKeys, legendData, k);
    assert twice.opacity == once.opacity;
    assert twice.background == once.background;
  }

  /**
   * Hovering a new key without leaving the previous one first: the series show only the new
   * key, while the legend items of both keys stay grey, since `chartMouseOver` never clears
   * a legend background.
   */
  lemma OverWithoutOut(v: View, seriesKeys: seq<string>, legendData: seq<string>, k1: string, k2: string, i: nat)
    requires |v.background| == |legendData|
    ensures var w := AfterOver(AfterOver(v, seriesKeys, legendData, k1), seriesKeys, legendData, k2);
      w.opacity == AfterOver(v, seriesKeys, legendData, k2).opacity &&
      (i < |legendData| && (LegendMatches(legendData[i], k1) || LegendMatches(legendData[i], k2)) ==> w.background[i] == Grey)
  {
  }

  /** The mouse events the chart and the legend react to. */
  datatype Event = Over(seriesKey: string, datum: string) | Out

  function Apply(v: View, seriesKeys: seq<string>, legendData: seq<string>, e: Event): View
    requires |v.background| == |legendData|
  {
    match e
    case Over(seriesKey, datum) => AfterOver(v, seriesKeys, legendData, HoveredKey(seriesKey, datum))
    case Out => AfterOut(v)
  }

  /** The view after a sequence of events, each applied in turn. */
  function Replay(v: View, seriesKeys: seq<string>, legendData: seq<string>, events: seq<Event>): (w: View)
    requires |v.background| == |legendData|
    ensures |w.background| == |legendData|
  {
    if events == [] then v
    else Apply(Replay(v, seriesKeys, legendData, events[..|events| - 1]), seriesKeys, legendData, events[|events| - 1])
  }

  lemma {:induction false} ReplayKeepsSeriesCount(v: View, seriesKeys: seq<string>, legendData: seq<string>, events: seq<Event>)
    requires |v.opacity| == |seriesKeys| && |v.background| == |legendData|
    ensures |Replay(v, seriesKeys, legendData, events).opacity| == |seriesKeys|
  {
    if events != [] {
      ReplayKeepsSeriesCount(v, seriesKeys, legendData, events[..|events| - 1]);
    }
  }

  /**
   * Leaving resets everything, whatever came before: after any sequence of events ending in
   * `Out`, every series is fully opaque and every legend item white.
   */
  lemma OutResets(v: View, seriesKeys: seq<string>, legendData: seq<string>, events: seq<Event>)
    requires |v.opacity| == |seriesKeys| && |v.background| == |legendData|
    ensures Replay(v, seriesKeys, legendData, events + [Out])
         == View(seq(|seriesKeys|, i => Opaque), seq(|legendData|, i => White))
  {
    assert (events + [Out])[..|events|] == events;
    ReplayKeepsSeriesCount(v, seriesKeys, legendData, events);
  }

  /** No two keys normalise alike. */
  predicate CollisionFree(keys: seq<string>) {
    forall i, j :: 0 <= i < j < |keys| ==> Normalize(keys[i]) != Normalize(keys[j])
  }

  /**
   * With the subgroups as both series and legend items, and no two normalising alike,
   * hovering the series or the legend item of subgroup `j` brings exactly series `j` to full
   * opacity, dims all others, greys legend item `j` and leaves the other legend items as
   * they were.
   */
  lemma HoverHighlightsOneSubgroup(v: View, subgroups: seq<string>, j: nat, fromLegend: bool, datum: string)
    requires CollisionFree(subgroups) && j < |subgroups| && Normalize(subgroups[j]) != []
    requires |v.background| == |subgroups|
    ensures var w := AfterOver(v, subgroups, subgroups,
                               if fromLegend then HoveredKey("", subgroups[j]) else HoveredKey(subgroups[j], datum));
      (forall i :: 0 <= i < |subgroups| ==> (w.opacity[i] == Opaque <==> i == j)) &&
      (forall i :: 0 <= i < |subgroups| && i != j ==> w.opacity[i] == Dimmed) &&
      w.background[j] == Grey &&
      (forall i :: 0 <= i < |subgroups| && i != j ==> w.background[i] == v.background[i])
  {
    var k := if fromLegend then HoveredKey("", subgroups[j]) else HoveredKey(subgroups[j], datum);
    assert k == Normalize(subgroups[j]) by {
      assert Normalize("") == [];
    }
    HighlightByKey(v, subgroups, j, k);
  }

  lemma HighlightByKey(v: View, subgroups: seq<string>, j: nat, k: string)
    requires CollisionFree(subgroups) && j < |subgroups| && k == Normalize(subgroups[j])
    requires |v.background| == |subgroups|
    ensures var w := AfterOver(v, subgroups, subgroups, k);
      (forall i :: 0 <= i < |subgroups| ==> (w.opacity[i] == Opaque <==> i == j)) &&
      (forall i :: 0 <= i < |subgroups| && i != j ==> w.opacity[i] == Dimmed) &&
      w.background[j] == Grey &&
      (forall i :: 0 <= i < |subgroups| && i != j ==> w.background[i] == v.background[i])
  {
    forall i | 0 <= i < |subgroups| && i != j ensures Normalize(subgroups[i]) != k {
      if i < j {
        assert Normalize(subgroups[i]) != Normalize(subgroups[j]);
      } else {
        assert Normalize(subgroups[j]) != Normalize(subgroups[i]);
      }
    }
  }

  class ChartHighlight {
    /** The key of each series group, in stack order. */
    const seriesKeys: seq<string>
    /** The datum of each legend item, in legend order. */
    const legendData: seq<string>
    const opacity: array<real>
    const background: array<Background>

    ghost predicate Valid()
      reads this
    {
      opacity.Length == |seriesKeys| && background.Length == |legendData|
    }

    ghost function Shown(): View
      reads this, opacity, background
    {
      View(opacity[..], background[..])
    }

    constructor (seriesKeys: seq<string>, legendData: seq<string>)
      ensures Valid() && fresh(opacity) && fresh(background)
      ensures this.seriesKeys == seriesKeys && this.legendData == legendData
      ensures Shown() == Initial(|seriesKeys|, |legendData|)
    {
      this.seriesKeys := seriesKeys;
      this.legendData := legendData;
      opacity := new real[|seriesKeys|](i => Opaque);
      background := new Background[|legendData|](i => Unset);
    }

    /**
     * `chartMouseOver` for an element whose series key is `seriesKey` (empty on a legend
     * item) and whose datum is `datum`.
     */
    method MouseOver(seriesKey: string, datum: string)
      requires Valid()
      modifies opacity, background
      ensures Shown() == AfterOver(old(Shown()), seriesKeys, legendData, HoveredKey(seriesKey, datum))
    {
      var k := HoveredKey(seriesKey, datum);
      ghost var target := AfterOver(Shown(), seriesKeys, legendData, k);
      for i := 0 to opacity.Length
        modifies opacity
        invariant forall m :: 0 <= m < i ==> opacity[m] == Dimmed
      {
        opacity[i] := Dimmed;
      }
      for i := 0 to opacity.Length
        modifies opacity
        invariant forall m :: 0 <= m < i ==> opacity[m] == target.opacity[m]
        invariant forall m :: i <= m < opacity.Length ==> opacity[m] == Dimmed
      {
        if SeriesMatches(seriesKeys[i], k) {
          opacity[i] := Opaque;
        }
      }
      for i := 0 to background.Length
        modifies background
        invariant forall m :: 0 <= m < i ==> background[m] == target.background[m]
        invariant forall m :: i <= m < background.Length ==> background[m] == old(background[m])
      {
        if LegendMatches(legendData[i], k) {
          background[i] := Grey;
        }
      }
      assert opacity[..] == target.opacity;
      assert background[..] == target.background;
    }

    /** `chartMouseOut`: every series back to full opacity, every legend item white. */
    method MouseOut()
      requires Valid()
      modifies opacity, background
      ensures Shown() == AfterOut(old(Shown()))
    {
      for i := 0 to opacity.Length
        modifies opacity
        invariant forall m :: 0 <= m < i ==> opacity[m] == Opaque
      {
        opacity[i] := Opaque;
      }
      for i := 0 to background.Length
        modifies background
        invariant forall m :: 0 <= m < i ==> background[m] == White
      {
        background[i] := White;
      }
    }
  }
}
