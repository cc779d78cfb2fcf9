/**
 * The dynamic plotly chart: one filled rectangle per merit-order segment,
 * laid end to end, with very thin bars widened for visibility, the legend
 * shown at each type's first bar, and a demand of three quarters of the
 * total capacity.
 */
module DynamicChart {
  import opened Wrappers
  import opened Numbers
  import opened OfferCurves
  import opened MeritOrder
  import opened ResourceColours
  import opened PriceAxis

  /** `int(total_capacity * 0.75)`: the demand is never negative and never above the capacity. */
  function DemandFor(total: real): (d: int)
    ensures total >= 0.0 ==> 0 <= d && d as real <= total
    ensures total >= 0.0 ==> d as real <= total * 0.75 < d as real + 1.0
  {
    Truncate(total * 0.75)
  }

  /** A closed interval of load, in MW. */
  datatype Interval = Interval(lo: real, hi: real)

  /**
   * The drawn extent of the bar `[left, left + width]` when the whole supply
   * has `total` MW: a bar narrower than 0.1% of the total is widened about its
   * midpoint to `max(width, 0.0001 * total)`; any other bar is drawn as is.
   */
  function DisplayInterval(left: real, width: real, total: real): (r: Interval)
    ensures width < total * 0.001 ==>
      && (r.lo + r.hi) / 2.0 == left + width / 2.0
      && r.lo <= left && left + width <= r.hi
      && r.hi - r.lo == MaxReal(width, total * 0.0001)
    ensures width >= total * 0.001 ==> r.lo == left && r.hi == left + width
    ensures total >= 0.0 ==> r.hi - r.lo == MaxReal(width, total * 0.0001)
  {
    var displayWidth := MaxReal(width, total * 0.0001);
    if width < total * 0.001 then
      Interval(left - (displayWidth - width) / 2.0, left + width + (displayWidth - width) / 2.0)
    else
      Interval(left, left + width)
  }

  /** One rectangle of the figure. */
  datatype DrawnBar = DrawnBar(
    name: string,
    rtype: Option<string>,
    left: real,
    right: real,
    display: Interval,
    price: real,
    color: string,
    showLegend: bool)

  /** The placeholder rectangle drawn when no bar was created. */
  const TestBar: DrawnBar := DrawnBar("", Some("TEST"), 0.0, 1000.0, Interval(0.0, 1000.0), 50.0, "red", true)

  /** No segment before `i` has the type of segment `i`. */
  predicate FirstOfType(s: seq<Segment>, i: nat)
    requires i < |s|
  {
    forall j :: 0 <= j < i ==> s[j].rtype != s[i].rtype
  }

  /** Where and how segment `i` of `s` is drawn, colour aside. */
  predicate PlacedFor(s: seq<Segment>, i: nat, b: DrawnBar)
    requires i < |s|
  {
    && b.name == s[i].name
    && b.rtype == s[i].rtype
    && b.left == TotalMw(s[..i])
    && b.right == b.left + s[i].mw
    && b.display == DisplayInterval(b.left, s[i].mw, TotalMw(s))
    && b.price == s[i].price
    && b.showLegend == FirstOfType(s, i)
  }

  /** The types of the segments before `k`: the set `legend_added` once `k` bars are drawn. */
  ghost function TypesBefore(s: seq<Segment>, k: nat): set<Option<string>>
    requires k <= |s|
  {
    set j | 0 <= j < k :: s[j].rtype
  }

  /** Drawing bar `k` adds its type; the type is new exactly when bar `k` is its type's first. */
  lemma TypesBeforeStep(s: seq<Segment>, k: nat)
    requires k < |s|
    ensures TypesBefore(s, k + 1) == TypesBefore(s, k) + {s[k].rtype}
    ensures s[k].rtype !in TypesBefore(s, k) <==> FirstOfType(s, k)
  {
    assert forall j :: 0 <= j < k ==> s[j].rtype in TypesBefore(s, k);
  }

  /** The bar the loop draws for segment `i`, in colour `color`. */
  ghost function BarAt(s: seq<Segment>, i: nat, color: string): DrawnBar
    requires i < |s|
  {
    var left := TotalMw(s[..i]);
    DrawnBar(s[i].name, s[i].rtype, left, left + s[i].mw, DisplayInterval(left, s[i].mw, TotalMw(s)),
             s[i].price, color, FirstOfType(s, i))
  }

  /** The bars drawn for the first `k` segments, coloured by `colors`. */
  ghost function DrawnPrefix(s: seq<Segment>, colors: seq<string>, k: nat): seq<DrawnBar>
    requires k <= |s| == |colors|
  {
    if k == 0 then [] else DrawnPrefix(s, colors, k - 1) + [BarAt(s, k - 1, colors[k - 1])]
  }

  lemma {:induction false} DrawnPrefixPlaced(s: seq<Segment>, colors: seq<string>, k: nat)
    requires k <= |s| == |colors|
    ensures |DrawnPrefix(s, colors, k)| == k
    ensures forall i :: 0 <= i < k ==> PlacedFor(s, i, DrawnPrefix(s, colors, k)[i])
    ensures forall i :: 0 <= i < k ==> DrawnPrefix(s, colors, k)[i].color == colors[i]
    decreases k
  {
    if k > 0 {
      DrawnPrefixPlaced(s, colors, k - 1);
      var bars := DrawnPrefix(s, colors, k);
      forall i | 0 <= i < k
        ensures PlacedFor(s, i, bars[i])
        ensures bars[i].color == colors[i]
      {
        if i < k - 1 {
          assert bars[i] == DrawnPrefix(s, colors, k - 1)[i];
        } else {
          assert bars[i] == BarAt(s, i, colors[i]);
        }
      }
    }
  }

  /**
   * The bar loop of the chart: a running `prev_mw` places each bar right after
   * the previous one; a type's first bar is the one shown in the legend (the
   * set `legend_added` holds the types seen so far); each bar takes its row's
   * entry of the colour column. With no segment at all, a single test bar is
   * drawn.
   */
  method DrawBars(supply: seq<Segment>, colors: seq<string>) returns (bars: seq<DrawnBar>)
    requires |colors| == |supply|
    ensures supply == [] ==> bars == [TestBar]
    ensures supply != [] ==> |bars| == |supply|
    ensures supply != [] ==> forall i :: 0 <= i < |supply| ==> PlacedFor(supply, i, bars[i])
    ensures supply != [] ==> forall i :: 0 <= i < |supply| ==> bars[i].color == colors[i]
  {
    var total := TotalMw(supply);
    var legendAdded: set<Option<string>> := {};
    var prevMw := 0.0;
    var barsCreated := 0;
    bars := [];
    var k := 0;
    while k < |supply|
      invariant 0 <= k <= |supply|
      invariant barsCreated == k
      invariant prevMw == TotalMw(supply[..k])
      invariant legendAdded == TypesBefore(supply, k)
      invariant bars == DrawnPrefix(supply, colors, k)
    {
      var bar;
      bar, legendAdded := DrawBar(supply, k, prevMw, total, legendAdded, colors[k]);
      bars := bars + [bar];
      barsCreated := barsCreated + 1;
      TotalMwStep(supply, k);
      prevMw := prevMw + supply[k].mw;
      k := k + 1;
    }
    DrawnPrefixPlaced(supply, colors, k);
    if barsCreated == 0 {
      bars := [TestBar];
    }
  }

  /**
   * One pass of the bar loop, for segment `k` starting at `prev_mw`: the bar's
   * extent, its widened display extent, and whether it opens its type's
   * legend entry, which adds the type to `legend_added`.
   */
  method DrawBar(supply: seq<Segment>, k: nat, prevMw: real, total: real, legendAdded: set<Option<string>>, color: string)
    returns (bar: DrawnBar, legendAdded': set<Option<string>>)
    requires k < |supply|
    requires prevMw == TotalMw(supply[..k]) && total == TotalMw(supply)
    requires legendAdded == TypesBefore(supply, k)
    ensures bar == BarAt(supply, k, color)
    ensures legendAdded' == TypesBefore(supply, k + 1)
  {
    var seg := supply[k];
    var width := seg.mw;
    var displayWidth := MaxReal(width, total * 0.0001);
    var barLeft := prevMw;
    var barRight := prevMw + width;
    var displayLeft, displayRight;
    if width < total * 0.001 {
      displayLeft := barLeft - (displayWidth - width) / 2.0;
      displayRight := barRight + (displayWidth - width) / 2.0;
    } else {
      displayLeft := barLeft;
      displayRight := barRight;
    }
    TypesBeforeStep(supply, k);
    var showLegend := seg.rtype !in legendAdded;
    legendAdded' := legendAdded;
    if showLegend {
      legendAdded' := legendAdded + {seg.rtype};
    }
    bar := DrawnBar(seg.name, seg.rtype, barLeft, barRight, Interval(displayLeft, displayRight), seg.price, color, showLegend);
  }

  /**
   * Successive bars are contiguous: the first starts at 0, each starts where
   * the one before ended, and the last ends at the total capacity.
   */
  lemma BarsContiguous(s: seq<Segment>, bars: seq<DrawnBar>)
    requires |bars| == |s| > 0
    requires forall i :: 0 <= i < |s| ==> PlacedFor(s, i, bars[i])
    ensures bars[0].left == 0.0
    ensures forall i :: 0 <= i < |s| - 1 ==> bars[i + 1].left == bars[i].right
    ensures bars[|s| - 1].right == TotalMw(s)
  {
    assert PlacedFor(s, 0, bars[0]);
    assert s[..0] == [];
    forall i | 0 <= i < |s| - 1 ensures bars[i + 1].left == bars[i].right {
      assert PlacedFor(s, i, bars[i]) && PlacedFor(s, i + 1, bars[i + 1]);
      assert s[..i + 1][..i] == s[..i];
    }
    assert PlacedFor(s, |s| - 1, bars[|s| - 1]);
    assert s[..|s|] == s;
  }

  /**
   * The legend is shown once per resource type: two bars of one type are
   * never both in the legend, and every bar's type has its legend entry on
   * the first bar of that type.
   */
  lemma LegendOncePerType(s: seq<Segment>, bars: seq<DrawnBar>)
    requires |bars| == |s|
    requires forall i :: 0 <= i < |s| ==> PlacedFor(s, i, bars[i])
    ensures forall i, j :: 0 <= i < j < |s| && bars[i].rtype == bars[j].rtype ==> !bars[j].showLegend
    ensures forall i :: 0 <= i < |s| ==>
      var j := FirstIndexOfType(s, i);
      bars[j].rtype == bars[i].rtype && bars[j].showLegend
  {
    forall i, j | 0 <= i < j < |s| && bars[i].rtype == bars[j].rtype ensures !bars[j].showLegend {
      assert PlacedFor(s, i, bars[i]) && PlacedFor(s, j, bars[j]);
    }
    forall i | 0 <= i < |s|
      ensures var j := FirstIndexOfType(s, i);
        bars[j].rtype == bars[i].rtype && bars[j].showLegend
    {
      var first := FirstIndexOfType(s, i);
      assert PlacedFor(s, first, bars[first]) && PlacedFor(s, i, bars[i]);
    }
  }

  /** The first segment with the type of segment `i`. */
  ghost function FirstIndexOfType(s: seq<Segment>, i: nat): (j: nat)
    requires i < |s|
    ensures j <= i && s[j].rtype == s[i].rtype && FirstOfType(s, j)
    decreases i
  {
    if FirstOfType(s, i) then i
    else
      var m :| 0 <= m < i && s[m].rtype == s[i].rtype;
      FirstIndexOfType(s, m)
  }

  /** What the chart shows besides the titles and styling. */
  datatype Chart = Chart(bars: seq<DrawnBar>, demand: int, limits: Limits, yTicks: seq<int>)

  /**
   * `create_supply_curve_chart`: colour every row by its type, draw the bars,
   * set the demand at 75% of the capacity, and scale the price axis to the
   * price range. The colour is `get_color_for_resource`'s: this script's copy
   * has the same table and rules, and its `resource_type or ''` changes no
   * cell, since a NaN is truthy and an empty string is already ''. An empty supply has no price range (its minimum is NaN and
   * `int(max_capacity)` raises), so there is no chart.
   */
  method CreateChart(supply: seq<Segment>) returns (chart: Option<Chart>)
    ensures chart.None? <==> supply == []
    ensures chart.Some? ==>
      && |chart.value.bars| == |supply|
      && (forall i :: 0 <= i < |supply| ==> PlacedFor(supply, i, chart.value.bars[i]))
      && (forall i :: 0 <= i < |supply| ==> chart.value.bars[i].color == ColorForResource(supply[i].rtype))
      && chart.value.demand == DemandFor(TotalMw(supply))
      && chart.value.limits == YLimits(MinPrice(supply), MaxPrice(supply))
      && chart.value.yTicks == YTicks(MinPrice(supply), MaxPrice(supply))
  {
    if supply == [] {
      return None;
    }
    var totalCapacity := TotalMw(supply);
    var demand := DemandFor(totalCapacity);
    var colors := seq(|supply|, k requires 0 <= k < |supply| => ColorForResource(supply[k].rtype));
    var bars := DrawBars(supply, colors);
    var minPrice := MinPrice(supply);
    var maxPrice := MaxPrice(supply);
    chart := Some(Chart(bars, demand, YLimits(minPrice, maxPrice), YTicks(minPrice, maxPrice)));
  }
}
