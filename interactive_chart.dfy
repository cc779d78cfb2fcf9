/**
 * The interactive plotly chart: bars laid end to end in merit order, grouped
 * into one bar trace per resource type, and the clearing price read off the
 * running total at a fixed demand of 80000 MW.
 */
module InteractiveChart {
  import opened Wrappers
  import opened OfferCurves
  import opened MeritOrder
  import opened ResourceColours

  /** The fixed demand of the interactive chart, in MW. */
  const Demand: real := 80000.0

  /** Centres of the bars of type `t`: each bar starts where the previous bar of any type ended. */
  function CentersOf(s: seq<Segment>, t: Option<string>): seq<real>
  {
    if s == [] then []
    else
      var init := s[..|s| - 1];
      CentersOf(init, t) + (if s[|s| - 1].rtype == t then [TotalMw(init) + s[|s| - 1].mw / 2.0] else [])
  }

  /** Widths of the segments of type `t`, in supply order. */
  function MwsOf(s: seq<Segment>, t: Option<string>): seq<real>
  {
    if s == [] then []
    else MwsOf(s[..|s| - 1], t) + (if s[|s| - 1].rtype == t then [s[|s| - 1].mw] else [])
  }

  /** Prices of the segments of type `t`, in supply order. */
  function PricesOf(s: seq<Segment>, t: Option<string>): seq<real>
  {
    if s == [] then []
    else PricesOf(s[..|s| - 1], t) + (if s[|s| - 1].rtype == t then [s[|s| - 1].price] else [])
  }

  lemma {:induction false} OfTypeLengths(s: seq<Segment>, t: Option<string>)
    ensures |CentersOf(s, t)| == |MwsOf(s, t)| == |PricesOf(s, t)|
    decreases |s|
  {
    if s != [] {
      OfTypeLengths(s[..|s| - 1], t);
    }
  }

  /**
   * The j-th bar of type `t` is drawn for one segment `p` of that type: it is
   * as wide as that segment, has its price, and spans exactly the load
   * interval `[TotalMw(s[..p]), TotalMw(s[..p + 1])]` that the segment
   * occupies on the curve.
   */
  lemma {:induction false} BarOfTypeSpansItsSegment(s: seq<Segment>, t: Option<string>, j: nat)
    requires j < |MwsOf(s, t)|
    ensures |CentersOf(s, t)| == |MwsOf(s, t)| == |PricesOf(s, t)|
    ensures exists p :: (
      && 0 <= p < |s| && s[p].rtype == t
      && MwsOf(s, t)[j] == s[p].mw
      && PricesOf(s, t)[j] == s[p].price
      && CentersOf(s, t)[j] - MwsOf(s, t)[j] / 2.0 == TotalMw(s[..p])
      && CentersOf(s, t)[j] + MwsOf(s, t)[j] / 2.0 == TotalMw(s[..p + 1]))
    decreases |s|
  {
    OfTypeLengths(s, t);
    var init := s[..|s| - 1];
    var last := |s| - 1;
    OfTypeLengths(init, t);
    if j < |MwsOf(init, t)| {
      BarOfTypeSpansItsSegment(init, t, j);
      var p :| 0 <= p < |init| && init[p].rtype == t
        && MwsOf(init, t)[j] == init[p].mw
        && PricesOf(init, t)[j] == init[p].price
        && CentersOf(init, t)[j] - MwsOf(init, t)[j] / 2.0 == TotalMw(init[..p])
        && CentersOf(init, t)[j] + MwsOf(init, t)[j] / 2.0 == TotalMw(init[..p + 1]);
      assert init[..p] == s[..p] && init[..p + 1] == s[..p + 1];
      assert s[p] == init[p];
    } else {
      assert s[..last + 1] == s;
      assert TotalMw(s) == TotalMw(init) + s[last].mw;
    }
  }

  /** Sum of a list of widths. */
  function Sum(xs: seq<real>): real
  {
    if xs == [] then 0.0 else Sum(xs[..|xs| - 1]) + xs[|xs| - 1]
  }

  /** Total width of the traces of the types in `types`. */
  function WidthOfTypes(s: seq<Segment>, types: seq<Option<string>>): real
  {
    if types == [] then 0.0 else WidthOfTypes(s, types[..|types| - 1]) + Sum(MwsOf(s, types[|types| - 1]))
  }

  /** Adding a segment adds its width to the traces of exactly the one type it has, if listed. */
  lemma {:induction false} WidthOfTypesStep(init: seq<Segment>, x: Segment, types: seq<Option<string>>)
    requires forall i, j :: 0 <= i < j < |types| ==> types[i] != types[j]
    ensures WidthOfTypes(init + [x], types)
      == WidthOfTypes(init, types) + (if x.rtype in types then x.mw else 0.0)
    decreases |types|
  {
    if types != [] {
      var front := types[..|types| - 1];
      var t := types[|types| - 1];
      WidthOfTypesStep(init, x, front);
      assert (init + [x])[..|init + [x]| - 1] == init;
      var before := MwsOf(init, t);
      assert MwsOf(init + [x], t) == before + (if x.rtype == t then [x.mw] else []);
      if x.rtype == t {
        assert (before + [x.mw])[..|before|] == before;
        assert Sum(MwsOf(init + [x], t)) == Sum(before) + x.mw;
      } else {
        assert MwsOf(init + [x], t) == before;
      }
      assert WidthOfTypes(init + [x], types) == WidthOfTypes(init + [x], front) + Sum(MwsOf(init + [x], t));
      assert WidthOfTypes(init, types) == WidthOfTypes(init, front) + Sum(before);
      assert x.rtype in types <==> x.rtype in front || x.rtype == t;
      assert x.rtype == t ==> x.rtype !in front;
    }
  }

  /**
   * Every segment is drawn in exactly one trace: the widths of all traces,
   * one per distinct type, add up to the total MW.
   */
  lemma {:induction false} TracesPartitionSupply(s: seq<Segment>)
    ensures WidthOfTypes(s, UniqueTypes(s)) == TotalMw(s)
    decreases |s|
  {
    if s != [] {
      var init := s[..|s| - 1];
      var x := s[|s| - 1];
      var types := UniqueTypes(init);
      TracesPartitionSupply(init);
      assert init + [x] == s;
      WidthOfTypesStep(init, x, types);
      if x.rtype !in types {
        assert UniqueTypes(s) == types + [x.rtype];
        assert (types + [x.rtype])[..|types|] == types;
        NewTypeWidth(init, x);
      }
    }
  }

  /** A type absent from `init` has no width there, so after `x` its only width is `x`'s. */
  lemma NewTypeWidth(init: seq<Segment>, x: Segment)
    requires forall k :: 0 <= k < |init| ==> init[k].rtype != x.rtype
    ensures Sum(MwsOf(init + [x], x.rtype)) == x.mw
  {
    NoWidthOfAbsentType(init, x.rtype);
    assert (init + [x])[..|init + [x]| - 1] == init;
    assert MwsOf(init + [x], x.rtype) == [x.mw];
  }

  lemma {:induction false} NoWidthOfAbsentType(s: seq<Segment>, t: Option<string>)
    requires forall k :: 0 <= k < |s| ==> s[k].rtype != t
    ensures MwsOf(s, t) == []
    decreases |s|
  {
    if s != [] {
      NoWidthOfAbsentType(s[..|s| - 1], t);
    }
  }

  /** Per-type bar data collected by the layout loop. */
  datatype Group = Group(centers: seq<real>, prices: seq<real>, showLegend: bool)

  /** One `go.Bar` trace of the figure. */
  datatype BarTrace = BarTrace(
    name: string,
    centers: seq<real>,
    prices: seq<real>,
    widths: seq<real>,
    color: string,
    showLegend: bool)

  /** `tr` is the trace of type `t` for the supply `s`. */
  predicate TraceFor(s: seq<Segment>, t: Option<string>, tr: BarTrace)
  {
    && t == Some(tr.name)
    && tr.centers == CentersOf(s, t)
    && tr.prices == PricesOf(s, t)
    && tr.widths == MwsOf(s, t)
    && tr.color == ColorForResource(t)
    && tr.showLegend
  }

  /** One more segment extends the bars of its own type and of no other. */
  lemma OfTypeStep(s: seq<Segment>, k: nat, t: Option<string>)
    requires k < |s|
    ensures CentersOf(s[..k + 1], t)
      == CentersOf(s[..k], t) + (if s[k].rtype == t then [TotalMw(s[..k]) + s[k].mw / 2.0] else [])
    ensures PricesOf(s[..k + 1], t) == PricesOf(s[..k], t) + (if s[k].rtype == t then [s[k].price] else [])
  {
    assert s[..k + 1][..k] == s[..k];
  }

  lemma UniqueTypesStep(s: seq<Segment>, k: nat)
    requires k < |s|
    ensures UniqueTypes(s[..k + 1])
      == if s[k].rtype in UniqueTypes(s[..k]) then UniqueTypes(s[..k]) else UniqueTypes(s[..k]) + [s[k].rtype]
  {
    assert s[..k + 1][..k] == s[..k];
  }

  /** The group of type `t` once the segments `s` have been laid out. */
  function GroupOf(s: seq<Segment>, t: Option<string>): Group
  {
    Group(CentersOf(s, t), PricesOf(s, t), true)
  }

  /** `groups` holds exactly the types of `order`, each with its group for the segments `s`. */
  ghost predicate GroupsMatch(groups: map<Option<string>, Group>, order: seq<Option<string>>, s: seq<Segment>)
  {
    && (forall t :: t in groups <==> t in order)
    && (forall t :: t in groups ==> groups[t] == GroupOf(s, t))
  }

  /** The group a segment is added to: its type's group, or a new one shown in the legend. */
  function GroupFor(groups: map<Option<string>, Group>, t: Option<string>): Group
  {
    if t in groups then groups[t] else Group([], [], true)
  }

  /** The group of type `t` once segment `k` is added to it. */
  function Extended(groups: map<Option<string>, Group>, s: seq<Segment>, k: nat): map<Option<string>, Group>
    requires k < |s|
  {
    var g := GroupFor(groups, s[k].rtype);
    groups[s[k].rtype := g.(centers := g.centers + [TotalMw(s[..k]) + s[k].mw / 2.0], prices := g.prices + [s[k].price])]
  }

  /** One loop step: the segment's bar is appended to its type's group. */
  lemma GroupsStep(groups: map<Option<string>, Group>, s: seq<Segment>, k: nat)
    requires k < |s|
    requires GroupsMatch(groups, UniqueTypes(s[..k]), s[..k])
    ensures UniqueTypes(s[..k + 1])
      == if s[k].rtype in UniqueTypes(s[..k]) then UniqueTypes(s[..k]) else UniqueTypes(s[..k]) + [s[k].rtype]
    ensures GroupsMatch(Extended(groups, s, k), UniqueTypes(s[..k + 1]), s[..k + 1])
  {
    var after := Extended(groups, s, k);
    UniqueTypesStep(s, k);
    forall u | u in after ensures after[u] == GroupOf(s[..k + 1], u) {
      GroupsStepAt(groups, s, k, u);
    }
  }

  /** The step for one type `u`: its group after the step is its group for one more segment. */
  lemma GroupsStepAt(groups: map<Option<string>, Group>, s: seq<Segment>, k: nat, u: Option<string>)
    requires k < |s|
    requires GroupsMatch(groups, UniqueTypes(s[..k]), s[..k])
    requires u in Extended(groups, s, k)
    ensures Extended(groups, s, k)[u] == GroupOf(s[..k + 1], u)
  {
    var t := s[k].rtype;
    OfTypeStep(s, k, u);
    if u == t && t !in UniqueTypes(s[..k]) {
      NoWidthOfAbsentTypeAll(s[..k], t);
    }
  }

  /**
   * The bar-layout loop: walks the supply in merit order with a running
   * `prev_mw`, opening a group (legend shown) for each new type and adding the
   * bar's centre and price to its type's group.
   */
  method CollectGroups(supply: seq<Segment>) returns (groups: map<Option<string>, Group>, order: seq<Option<string>>)
    ensures order == UniqueTypes(supply)
    ensures GroupsMatch(groups, order, supply)
  {
    groups := map[];
    order := [];  // the dict's insertion order
    var legendAdded: set<Option<string>> := {};
    var prevMw := 0.0;
    var k := 0;
    while k < |supply|
      invariant 0 <= k <= |supply|
      invariant prevMw == TotalMw(supply[..k])
      invariant order == UniqueTypes(supply[..k])
      invariant GroupsMatch(groups, order, supply[..k])
      invariant legendAdded == groups.Keys
    {
      groups, order, legendAdded := AddBar(supply, k, prevMw, groups, order, legendAdded);
      TotalMwStep(supply, k);
      prevMw := prevMw + supply[k].mw;
      k := k + 1;
    }
    assert supply[..|supply|] == supply;
  }

  /**
   * One pass of the layout loop: the bar of segment `k`, centred at
   * `prev_mw + width / 2`, joins its type's group, which is opened (and shown
   * in the legend) when the type is new.
   */
  method AddBar(supply: seq<Segment>, k: nat, prevMw: real, groups: map<Option<string>, Group>,
                order: seq<Option<string>>, legendAdded: set<Option<string>>)
    returns (groups': map<Option<string>, Group>, order': seq<Option<string>>, legendAdded': set<Option<string>>)
    requires k < |supply|
    requires prevMw == TotalMw(supply[..k])
    requires order == UniqueTypes(supply[..k])
    requires GroupsMatch(groups, order, supply[..k])
    requires legendAdded == groups.Keys
    ensures order' == UniqueTypes(supply[..k + 1])
    ensures GroupsMatch(groups', order', supply[..k + 1])
    ensures legendAdded' == groups'.Keys
  {
    var seg := supply[k];
    var width := seg.mw;
    var rtype := seg.rtype;
    GroupsStep(groups, supply, k);
    var g := if rtype in groups then groups[rtype] else Group([], [], rtype !in legendAdded);
    assert g == GroupFor(groups, rtype);
    assert prevMw + width / 2.0 == TotalMw(supply[..k]) + supply[k].mw / 2.0;
    legendAdded', order' := legendAdded, order;
    if rtype !in groups {
      legendAdded' := legendAdded + {rtype};
      order' := order + [rtype];
    }
    groups' := groups[rtype := g.(centers := g.centers + [prevMw + width / 2.0], prices := g.prices + [seg.price])];
  }

  /**
   * The bar layout and the trace construction. One trace per distinct type,
   * in order of first appearance, each in the legend. A missing (NaN) type
   * makes the width lookup fail, since NaN compares unequal to itself and the
   * filtered column is empty: the model returns None then.
   */
  method LayoutBars(supply: seq<Segment>) returns (traces: Option<seq<BarTrace>>)
    ensures traces.None? <==> exists k :: 0 <= k < |supply| && supply[k].rtype.None?
    ensures traces.Some? ==>
      && |traces.value| == |UniqueTypes(supply)|
      && forall i :: 0 <= i < |traces.value| ==> TraceFor(supply, UniqueTypes(supply)[i], traces.value[i])
  {
    var groups, order := CollectGroups(supply);
    traces := BuildTraces(supply, groups, order);
  }

  /** The trace loop: one trace per type of `order`, in that order; a missing type stops it. */
  method BuildTraces(supply: seq<Segment>, groups: map<Option<string>, Group>, order: seq<Option<string>>)
    returns (traces: Option<seq<BarTrace>>)
    requires GroupsMatch(groups, order, supply)
    ensures traces.None? <==> None in order
    ensures traces.Some? ==>
      && |traces.value| == |order|
      && forall i :: 0 <= i < |order| ==> TraceFor(supply, order[i], traces.value[i])
  {
    var out: seq<BarTrace> := [];
    var i := 0;
    while i < |order|
      invariant 0 <= i <= |order|
      invariant |out| == i
      invariant None !in order[..i]
      invariant forall j :: 0 <= j < i ==> order[j].Some? && out[j] == TraceOf(supply, order[j])
    {
      var rtype := order[i];
      if rtype.None? {
        return None;
      }
      var tr := BuildTrace(supply, groups, rtype);
      out := out + [tr];
      assert order[..i + 1] == order[..i] + [rtype];
      i := i + 1;
    }
    assert order[..i] == order;
    traces := Some(out);
  }

  /** The trace of one type: its group's centres and prices, its segments' widths, its colour, in the legend. */
  method BuildTrace(supply: seq<Segment>, groups: map<Option<string>, Group>, rtype: Option<string>) returns (tr: BarTrace)
    requires rtype.Some? && rtype in groups && groups[rtype] == GroupOf(supply, rtype)
    ensures tr == TraceOf(supply, rtype)
  {
    var g := groups[rtype];
    var ofType := MwsOf(supply, rtype);
    OfTypeLengths(supply, rtype);
    var widths := seq(|g.centers|, j requires 0 <= j < |g.centers| => ofType[j]);
    assert widths == ofType;
    tr := BarTrace(rtype.value, g.centers, g.prices, widths, ColorForResource(rtype), g.showLegend);
  }

  /** The trace the layout builds for type `t`. */
  ghost function TraceOf(s: seq<Segment>, t: Option<string>): BarTrace
    requires t.Some?
  {
    BarTrace(t.value, CentersOf(s, t), PricesOf(s, t), MwsOf(s, t), ColorForResource(t), true)
  }

  /** A type that first appears now has no bars yet. */
  lemma NoWidthOfAbsentTypeAll(s: seq<Segment>, t: Option<string>)
    requires t !in UniqueTypes(s)
    ensures CentersOf(s, t) == [] && PricesOf(s, t) == [] && MwsOf(s, t) == []
  {
    OfTypeLengths(s, t);
    NoWidthOfAbsentType(s, t);
  }

  /** First index at or after `i` whose running total reaches `demand`, else the last index. */
  function FirstReaching(c: seq<real>, demand: real, i: nat): (r: nat)
    requires i < |c|
    ensures i <= r < |c|
    ensures forall j :: i <= j < r ==> c[j] < demand
    ensures c[r] >= demand || r == |c| - 1
    decreases |c| - i
  {
    if c[i] >= demand || i == |c| - 1 then i else FirstReaching(c, demand, i + 1)
  }

  /**
   * Index of the clearing segment: re-sorting by the running total changes
   * nothing, since with positive widths it already increases; then the first
   * segment whose running total reaches the demand, or the last segment when
   * none does. An empty supply has none (`iloc[-1]` raises).
   */
  function ClearingIndex(supply: seq<Segment>, demand: real): (r: Option<nat>)
    requires forall k :: 0 <= k < |supply| ==> supply[k].mw > 0.0
    ensures r.None? <==> supply == []
    ensures r.Some? ==> r.value < |supply| && |Cumulative(supply)| == |supply|
    ensures r.Some? && TotalMw(supply) >= demand ==>
      Cumulative(supply)[r.value] >= demand
      && forall j :: 0 <= j < r.value ==> Cumulative(supply)[j] < demand
    ensures r.Some? && TotalMw(supply) < demand ==> r.value == |supply| - 1
  {
    CumulativeIncreasing(supply);
    if supply == [] then None
    else Some(FirstReaching(Cumulative(supply), demand, 0))
  }

  /** The clearing price: the price of the clearing segment. */
  function ClearingPrice(supply: seq<Segment>, demand: real): (r: Option<real>)
    requires forall k :: 0 <= k < |supply| ==> supply[k].mw > 0.0
    ensures r.None? <==> supply == []
    ensures r.Some? ==> exists k :: 0 <= k < |supply| && r.value == supply[k].price
  {
    match ClearingIndex(supply, demand)
    case None => None
    case Some(i) => Some(supply[i].price)
  }

  /** More demand never moves the clearing segment to an earlier one. */
  lemma ClearingIndexMonotone(supply: seq<Segment>, d1: real, d2: real)
    requires forall k :: 0 <= k < |supply| ==> supply[k].mw > 0.0
    requires d1 <= d2 && supply != []
    ensures ClearingIndex(supply, d1).value <= ClearingIndex(supply, d2).value
  {
  }

  /** On a merit-ordered supply, the clearing price never falls as demand rises. */
  lemma ClearingPriceMonotone(supply: seq<Segment>, d1: real, d2: real)
    requires forall k :: 0 <= k < |supply| ==> supply[k].mw > 0.0
    requires MeritSorted(supply)
    requires d1 <= d2 && supply != []
    ensures ClearingPrice(supply, d1).value <= ClearingPrice(supply, d2).value
  {
    ClearingIndexMonotone(supply, d1, d2);
    var i1 := ClearingIndex(supply, d1).value;
    var i2 := ClearingIndex(supply, d2).value;
    if i1 < i2 {
      assert MeritLeq(supply[i1], supply[i2]);
    }
  }
}
