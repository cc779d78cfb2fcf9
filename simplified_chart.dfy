/**
 * The simplified plotly script: its own colour table searched key by key,
 * and the merging of consecutive small segments into mw-weighted bars of at
 * least 0.05% of the total capacity.
 */
module SimplifiedChart {
  import opened Wrappers
  import opened Strings
  import opened OfferCurves
  import opened MeritOrder
  import opened ResourceColours

  /** The `colors` dict of `get_color`, in its insertion order. */
  const SimplifiedColors: seq<(string, string)> := [
    ("WIND", "#32CD32"), ("PVGR", "#FFD700"), ("SOLAR", "#FFD700"), ("HYDRO", "#4169E1"),
    ("NUCLEAR", "#8A2BE2"), ("COAL", "#8B4513"), ("PWRSTR", "#9932CC"), ("SCGT90", "#FFA500"),
    ("CCGT90", "#FF8C00"), ("SCLE90", "#FFA500"), ("CCLE90", "#FF8C00"), ("DSL", "#708090"),
    ("GSREH", "#9932CC"), ("GSNONR", "#9932CC"), ("GSSUP", "#9932CC"), ("NUC", "#8A2BE2"),
    ("CLLIG", "#228B22")]

  /** The colour of a type that matches no key. */
  const DefaultColor: string := "#696969"

  /** A dict has each key once. */
  lemma SimplifiedKeysDistinct()
    ensures forall i, j :: 0 <= i < j < |SimplifiedColors| ==> SimplifiedColors[i].0 != SimplifiedColors[j].0
  {
  }

  /** `colors[u]` over the entries of `table` from `from` on: the colour of the entry whose key is `u`. */
  function ExactColor(table: seq<(string, string)>, u: string, from: nat): Option<string>
    requires from <= |table|
    decreases |table| - from
  {
    if from == |table| then None
    else if table[from].0 == u then Some(table[from].1)
    else ExactColor(table, u, from + 1)
  }

  /** `ExactColor` finds the first entry whose key is `u`, and nothing when there is none. */
  lemma {:induction false} ExactColorCorrect(table: seq<(string, string)>, u: string, from: nat)
    requires from <= |table|
    ensures forall i ::
              (from <= i < |table| && table[i].0 == u && forall j :: from <= j < i ==> table[j].0 != u)
              ==> ExactColor(table, u, from) == Some(table[i].1)
    ensures (forall i :: from <= i < |table| ==> table[i].0 != u) <==> ExactColor(table, u, from).None?
    decreases |table| - from
  {
    if from < |table| && table[from].0 != u {
      ExactColorCorrect(table, u, from + 1);
    }
  }

  /** The loop over `colors.items()` from entry `from` on: the colour of the first key occurring in `u`. */
  function ContainedColor(table: seq<(string, string)>, u: string, from: nat): Option<string>
    requires from <= |table|
    decreases |table| - from
  {
    if from == |table| then None
    else if Contains(u, table[from].0) then Some(table[from].1)
    else ContainedColor(table, u, from + 1)
  }

  /** `ContainedColor` finds the first entry whose key occurs in `u`, and nothing when there is none. */
  lemma {:induction false} ContainedColorCorrect(table: seq<(string, string)>, u: string, from: nat)
    requires from <= |table|
    ensures forall i ::
              (from <= i < |table| && Contains(u, table[i].0) && forall j :: from <= j < i ==> !Contains(u, table[j].0))
              ==> ContainedColor(table, u, from) == Some(table[i].1)
    ensures (forall i :: from <= i < |table| ==> !Contains(u, table[i].0)) <==> ContainedColor(table, u, from).None?
    decreases |table| - from
  {
    if from < |table| && !Contains(u, table[from].0) {
      ContainedColorCorrect(table, u, from + 1);
    }
  }

  /** Whatever either search finds is a colour of the table. */
  lemma {:induction false} FoundColorsInTable(table: seq<(string, string)>, u: string, from: nat)
    requires from <= |table|
    ensures ExactColor(table, u, from).Some? ==> exists i :: from <= i < |table| && ExactColor(table, u, from).value == table[i].1
    ensures ContainedColor(table, u, from).Some? ==> exists i :: from <= i < |table| && ContainedColor(table, u, from).value == table[i].1
    decreases |table| - from
  {
    if from < |table| {
      FoundColorsInTable(table, u, from + 1);
    }
  }

  /**
   * `get_color`: upper-case `str(resource_type)`; an exact key gives its
   * colour; otherwise the first key, in table order, that occurs in the text;
   * otherwise dim grey.
   */
  function GetColor(t: Option<string>): string
  {
    var u := Upper(TypeText(t));
    match ExactColor(SimplifiedColors, u, 0)
    case Some(c) => c
    case None =>
      match ContainedColor(SimplifiedColors, u, 0)
      case Some(c) => c
      case None => DefaultColor
  }

  /** A type whose upper-cased text is a key gets that key's colour. */
  lemma GetColorExact(t: Option<string>, i: nat)
    requires i < |SimplifiedColors| && SimplifiedColors[i].0 == Upper(TypeText(t))
    ensures GetColor(t) == SimplifiedColors[i].1
  {
    SimplifiedKeysDistinct();
    ExactColorCorrect(SimplifiedColors, Upper(TypeText(t)), 0);
  }

  /** Otherwise the earliest key, in table order, occurring in the text gives the colour. */
  lemma GetColorContained(t: Option<string>, i: nat)
    requires forall k :: 0 <= k < |SimplifiedColors| ==> SimplifiedColors[k].0 != Upper(TypeText(t))
    requires i < |SimplifiedColors| && Contains(Upper(TypeText(t)), SimplifiedColors[i].0)
    requires forall j :: 0 <= j < i ==> !Contains(Upper(TypeText(t)), SimplifiedColors[j].0)
    ensures GetColor(t) == SimplifiedColors[i].1
  {
    ExactColorCorrect(SimplifiedColors, Upper(TypeText(t)), 0);
    ContainedColorCorrect(SimplifiedColors, Upper(TypeText(t)), 0);
  }

  /** A text holding no key gets the default colour; the colour is always the default or one of the table's. */
  lemma GetColorDefault(t: Option<string>)
    ensures (forall k :: 0 <= k < |SimplifiedColors| ==> !Contains(Upper(TypeText(t)), SimplifiedColors[k].0)) ==> GetColor(t) == DefaultColor
    ensures GetColor(t) == DefaultColor || exists i :: 0 <= i < |SimplifiedColors| && GetColor(t) == SimplifiedColors[i].1
  {
    var u := Upper(TypeText(t));
    ExactColorCorrect(SimplifiedColors, u, 0);
    ContainedColorCorrect(SimplifiedColors, u, 0);
    FoundColorsInTable(SimplifiedColors, u, 0);
  }

  /** The lookup ignores case. */
  lemma GetColorIgnoresCase(a: string, b: string)
    requires Upper(a) == Upper(b)
    ensures GetColor(Some(a)) == GetColor(Some(b))
  {
  }

  /** No key is a part of "NAN", so a missing type gets the default colour. */
  lemma GetColorOfMissingType()
    ensures GetColor(None) == DefaultColor
  {
    assert Upper("nan") == "NAN";
    forall i | 0 <= i < |SimplifiedColors| ensures !Contains("NAN", SimplifiedColors[i].0) {
      var key := SimplifiedColors[i].0;
      assert |key| >= 3 && key != "NAN";
      assert !Contains("NAN"[1..], key);
    }
    GetColorDefault(None);
  }

  /** `price * mw` summed over the segments (`price_weighted_sum`). */
  function WeightedSum(s: seq<Segment>): real
  {
    if s == [] then 0.0 else WeightedSum(s[..|s| - 1]) + s[|s| - 1].price * s[|s| - 1].mw
  }

  lemma ScaleLeq(a: real, b: real, m: real)
    requires a <= b && m >= 0.0
    ensures a * m <= b * m
  {
  }

  lemma Distribute(a: real, b: real, c: real)
    ensures a * (b + c) == a * b + a * c
  {
  }

  /** A total between `lo` and `hi` times a positive width gives a quotient between `lo` and `hi`. */
  lemma QuotientBetween(w: real, t: real, lo: real, hi: real)
    requires t > 0.0 && lo * t <= w <= hi * t
    ensures lo <= w / t <= hi
  {
    var q := w / t;
    assert q * t == w;
    assert lo * t <= q * t <= hi * t;
  }

  /** With positive widths and prices within `[lo, hi]`, the weighted sum lies within `lo` and `hi` times the width. */
  lemma {:induction false} WeightedSumBounds(s: seq<Segment>, lo: real, hi: real)
    requires forall k :: 0 <= k < |s| ==> s[k].mw > 0.0 && lo <= s[k].price <= hi
    ensures lo * TotalMw(s) <= WeightedSum(s) <= hi * TotalMw(s)
    decreases |s|
  {
    if s != [] {
      var init := s[..|s| - 1];
      var x := s[|s| - 1];
      assert forall k :: 0 <= k < |init| ==> init[k] == s[k];
      WeightedSumBounds(init, lo, hi);
      ScaleLeq(lo, x.price, x.mw);
      ScaleLeq(x.price, hi, x.mw);
      Distribute(lo, TotalMw(init), x.mw);
      Distribute(hi, TotalMw(init), x.mw);
    }
  }

  lemma MeanFromBounds(s: seq<Segment>, lo: real, hi: real)
    requires TotalMw(s) > 0.0 && lo * TotalMw(s) <= WeightedSum(s) <= hi * TotalMw(s)
    ensures lo <= WeightedSum(s) / TotalMw(s) <= hi
  {
    QuotientBetween(WeightedSum(s), TotalMw(s), lo, hi);
  }

  /** The weighted mean of prices within `[lo, hi]` is within `[lo, hi]`. */
  lemma WeightedMeanBounds(s: seq<Segment>, lo: real, hi: real)
    requires s != []
    requires forall k :: 0 <= k < |s| ==> s[k].mw > 0.0 && lo <= s[k].price <= hi
    ensures TotalMw(s) > 0.0
    ensures lo <= WeightedSum(s) / TotalMw(s) <= hi
  {
    TotalMwPositive(s);
    WeightedSumBounds(s, lo, hi);
    MeanFromBounds(s, lo, hi);
  }

  /**
   * The price of a merged bar, `price_weighted_sum / mw`, is the mw-weighted
   * mean of its rows' prices: it lies between their lowest and highest price.
   */
  lemma WeightedMeanWithinPrices(s: seq<Segment>)
    requires s != []
    requires forall k :: 0 <= k < |s| ==> s[k].mw > 0.0
    ensures TotalMw(s) > 0.0
    ensures MinPrice(s) <= WeightedSum(s) / TotalMw(s) <= MaxPrice(s)
  {
    WeightedMeanBounds(s, MinPrice(s), MaxPrice(s));
  }

  /** The types of the segments (`resource_types`). */
  ghost function TypesOf(s: seq<Segment>): set<Option<string>>
  {
    set k | 0 <= k < |s| :: s[k].rtype
  }

  /** One visible bar of the chart: it is drawn from `start` to `start + width`. */
  datatype GroupedBar = GroupedBar(start: real, width: real, price: real, rtype: Option<string>, color: string)

  /** Row `r` is added to the group that began at row `start`: the group is still narrow and `r`'s label is not the last. */
  predicate Joins(supply: seq<Segment>, labels: seq<int>, minWidth: real, start: nat, r: nat)
    requires start <= r < |supply| == |labels|
  {
    TotalMw(supply[start..r]) < minWidth && labels[r] < |supply| - 1
  }

  /**
   * `bar` is the group of rows `[start, end)`: it starts at the MW of the
   * rows before them, its width is their MW, its price their weighted mean
   * and its type one of theirs; every row after the first joined it, and the
   * row after it, if any, did not.
   */
  ghost predicate GroupFits(supply: seq<Segment>, labels: seq<int>, minWidth: real, start: nat, end: nat, bar: GroupedBar)
    requires start < end <= |supply| == |labels|
  {
    && bar.start == TotalMw(supply[..start])
    && bar.width == TotalMw(supply[start..end])
    && bar.width > 0.0
    && bar.price == WeightedSum(supply[start..end]) / bar.width
    && bar.rtype in TypesOf(supply[start..end])
    && (forall r :: start < r < end ==> Joins(supply, labels, minWidth, start, r))
    && (end < |supply| ==> !Joins(supply, labels, minWidth, start, end))
  }

  /** The running totals of a group gain row `k`. */
  lemma GroupStep(supply: seq<Segment>, start: nat, k: nat)
    requires start <= k < |supply|
    ensures TotalMw(supply[start..k + 1]) == TotalMw(supply[start..k]) + supply[k].mw
    ensures WeightedSum(supply[start..k + 1]) == WeightedSum(supply[start..k]) + supply[k].price * supply[k].mw
    ensures TypesOf(supply[start..k + 1]) == TypesOf(supply[start..k]) + {supply[k].rtype}
  {
    assert supply[start..k + 1][..k - start] == supply[start..k];
    var t := supply[start..k + 1];
    forall x | x in TypesOf(t) ensures x in TypesOf(supply[start..k]) + {supply[k].rtype} {
      var j :| 0 <= j < |t| && t[j].rtype == x;
      if j < k - start {
        assert supply[start..k][j] == t[j];
      }
    }
    forall x | x in TypesOf(supply[start..k]) ensures x in TypesOf(t) {
      var j :| 0 <= j < k - start && supply[start..k][j].rtype == x;
      assert t[j] == supply[start..k][j];
    }
    assert t[k - start] == supply[k];
  }

  /**
   * The emitted groups: `starts` holds each group's first row and then the
   * first row not yet emitted; the groups, in order, fit consecutive
   * non-empty runs of rows from row 0.
   */
  ghost predicate Emitted(supply: seq<Segment>, labels: seq<int>, minWidth: real, groups: seq<GroupedBar>, starts: seq<nat>)
    requires |labels| == |supply|
    decreases |groups|
  {
    && |starts| == |groups| + 1 && starts[0] == 0
    && starts[|groups|] <= |supply|
    && (|groups| > 0 ==>
      var n := |groups| - 1;
      && starts[n] < starts[n + 1]
      && GroupFits(supply, labels, minWidth, starts[n], starts[n + 1], groups[n])
      && Emitted(supply, labels, minWidth, groups[..n], starts[..n + 1]))
  }

  /** The open group (`current_group`): its MW, weighted price sum, start and types. */
  datatype CurrentGroup = CurrentGroup(mw: real, weightedSum: real, startMw: real, types: set<Option<string>>)

  /** The open group `[start, k)`: its running totals, and every row after its first joined it. */
  ghost predicate Open(supply: seq<Segment>, labels: seq<int>, minWidth: real, start: nat, k: nat, cur: CurrentGroup)
    requires start <= k <= |supply| == |labels|
  {
    && cur.mw == TotalMw(supply[start..k])
    && cur.weightedSum == WeightedSum(supply[start..k])
    && cur.startMw == TotalMw(supply[..start])
    && cur.types == TypesOf(supply[start..k])
    && forall r :: start < r < k ==> Joins(supply, labels, minWidth, start, r)
  }

  /** Adding a row that joins keeps the open group's totals and its start. */
  lemma JoinStep(supply: seq<Segment>, labels: seq<int>, minWidth: real, start: nat, k: nat, cur: CurrentGroup)
    requires start <= k < |supply| == |labels|
    requires Open(supply, labels, minWidth, start, k, cur)
    requires start < k ==> Joins(supply, labels, minWidth, start, k)
    ensures Open(supply, labels, minWidth, start, k + 1,
                 cur.(mw := cur.mw + supply[k].mw,
                      weightedSum := cur.weightedSum + supply[k].price * supply[k].mw,
                      types := cur.types + {supply[k].rtype}))
  {
    GroupStep(supply, start, k);
  }

  /** A row that starts a group opens it with its own totals, at the MW of the rows before it. */
  lemma StartStep(supply: seq<Segment>, labels: seq<int>, minWidth: real, k: nat)
    requires k < |supply| == |labels|
    ensures Open(supply, labels, minWidth, k, k + 1,
                 CurrentGroup(supply[k].mw, supply[k].price * supply[k].mw, TotalMw(supply[..k]), {supply[k].rtype}))
  {
    assert supply[k..k] == [];
    GroupStep(supply, k, k);
  }

  /** Closing a non-empty open group whose next row, if any, did not join it emits a bar that fits it. */
  lemma CloseStep(supply: seq<Segment>, labels: seq<int>, minWidth: real, groups: seq<GroupedBar>, starts: seq<nat>,
                  k: nat, cur: CurrentGroup, rtype: Option<string>, color: string)
    requires k <= |supply| == |labels|
    requires forall j :: 0 <= j < |supply| ==> supply[j].mw > 0.0
    requires Emitted(supply, labels, minWidth, groups, starts)
    requires starts[|groups|] < k
    requires Open(supply, labels, minWidth, starts[|groups|], k, cur)
    requires k < |supply| ==> !Joins(supply, labels, minWidth, starts[|groups|], k)
    requires rtype in cur.types
    ensures cur.mw > 0.0
    ensures Emitted(supply, labels, minWidth,
                    groups + [GroupedBar(cur.startMw, cur.mw, cur.weightedSum / cur.mw, rtype, color)], starts + [k])
  {
    TotalMwPositive(supply[starts[|groups|]..k]);
    var bar := GroupedBar(cur.startMw, cur.mw, cur.weightedSum / cur.mw, rtype, color);
    assert GroupFits(supply, labels, minWidth, starts[|groups|], k, bar);
    EmittedAppend(supply, labels, minWidth, groups, starts, k, bar);
  }

  /** Appending a bar that fits the rows from the last start up to `k`. */
  lemma EmittedAppend(supply: seq<Segment>, labels: seq<int>, minWidth: real, groups: seq<GroupedBar>, starts: seq<nat>,
                      k: nat, bar: GroupedBar)
    requires k <= |supply| == |labels|
    requires Emitted(supply, labels, minWidth, groups, starts)
    requires starts[|groups|] < k
    requires GroupFits(supply, labels, minWidth, starts[|groups|], k, bar)
    ensures Emitted(supply, labels, minWidth, groups + [bar], starts + [k])
  {
    assert (groups + [bar])[..|groups|] == groups;
    assert (starts + [k])[..|groups| + 1] == starts;
  }

  /** Group `g` of the emitted ones runs from its start to the next, within the rows, and its bar fits those rows. */
  lemma {:induction false} EmittedGroupAt(supply: seq<Segment>, labels: seq<int>, minWidth: real, groups: seq<GroupedBar>, starts: seq<nat>, g: nat)
    requires |labels| == |supply|
    requires Emitted(supply, labels, minWidth, groups, starts)
    requires g < |groups|
    ensures starts[g] < starts[g + 1] <= |supply|
    ensures GroupFits(supply, labels, minWidth, starts[g], starts[g + 1], groups[g])
    decreases |groups|
  {
    var n := |groups| - 1;
    if g < n {
      var gs, ss := groups[..n], starts[..n + 1];
      EmittedGroupAt(supply, labels, minWidth, gs, ss, g);
      assert ss[g] == starts[g] && ss[g + 1] == starts[g + 1] && gs[g] == groups[g];
    }
  }

  /** The widths of the bars, summed. */
  function TotalWidth(groups: seq<GroupedBar>): real
  {
    if groups == [] then 0.0 else TotalWidth(groups[..|groups| - 1]) + groups[|groups| - 1].width
  }

  /** No MW is lost or counted twice: the emitted widths add up to the MW of the rows emitted so far. */
  lemma {:induction false} EmittedWidths(supply: seq<Segment>, labels: seq<int>, minWidth: real, groups: seq<GroupedBar>, starts: seq<nat>)
    requires |labels| == |supply|
    requires Emitted(supply, labels, minWidth, groups, starts)
    ensures TotalWidth(groups) == TotalMw(supply[..starts[|groups|]])
    decreases |groups|
  {
    if groups == [] {
      assert supply[..0] == [];
    } else {
      var n := |groups| - 1;
      EmittedWidths(supply, labels, minWidth, groups[..n], starts[..n + 1]);
      TotalMwSplit(supply, starts[n], starts[n + 1]);
    }
  }

  /** A bar's price lies between the lowest and the highest price of the rows it merges. */
  lemma GroupPriceWithinRows(supply: seq<Segment>, labels: seq<int>, minWidth: real, start: nat, end: nat, bar: GroupedBar)
    requires start < end <= |supply| == |labels|
    requires forall k :: 0 <= k < |supply| ==> supply[k].mw > 0.0
    requires GroupFits(supply, labels, minWidth, start, end, bar)
    ensures MinPrice(supply[start..end]) <= bar.price <= MaxPrice(supply[start..end])
  {
    WeightedMeanWithinPrices(supply[start..end]);
  }

  /** `min_bar_width`: 0.05% of the total MW. */
  function MinBarWidth(supply: seq<Segment>): real
  {
    TotalMw(supply) * 0.0005
  }

  /** Bar `g` ends where bar `g + 1` starts, and the last bar ends at the total MW. */
  lemma BarEnd(supply: seq<Segment>, labels: seq<int>, minWidth: real, groups: seq<GroupedBar>, starts: seq<nat>, g: nat)
    requires |labels| == |supply|
    requires Emitted(supply, labels, minWidth, groups, starts) && starts[|groups|] == |supply|
    requires g < |groups|
    ensures groups[g].start + groups[g].width == if g + 1 < |groups| then groups[g + 1].start else TotalMw(supply)
  {
    EmittedGroupAt(supply, labels, minWidth, groups, starts, g);
    TotalMwSplit(supply, starts[g], starts[g + 1]);
    if g + 1 < |groups| {
      EmittedGroupAt(supply, labels, minWidth, groups, starts, g + 1);
    } else {
      assert supply[..starts[g + 1]] == supply;
    }
  }

  /**
   * The bars tile the load axis: the first starts at 0, each ends where the
   * next starts, and the last ends at the total MW.
   */
  lemma BarsTile(supply: seq<Segment>, labels: seq<int>, minWidth: real, groups: seq<GroupedBar>, starts: seq<nat>)
    requires |labels| == |supply|
    requires Emitted(supply, labels, minWidth, groups, starts) && starts[|groups|] == |supply|
    ensures groups != [] ==> groups[0].start == 0.0
    ensures forall g :: 0 <= g < |groups| - 1 ==> groups[g].start + groups[g].width == groups[g + 1].start
    ensures groups != [] ==> groups[|groups| - 1].start + groups[|groups| - 1].width == TotalMw(supply)
  {
    if groups != [] {
      EmittedGroupAt(supply, labels, minWidth, groups, starts, 0);
      assert supply[..0] == [];
      BarEnd(supply, labels, minWidth, groups, starts, |groups| - 1);
    }
    forall g | 0 <= g < |groups| - 1 ensures groups[g].start + groups[g].width == groups[g + 1].start {
      BarEnd(supply, labels, minWidth, groups, starts, g);
    }
  }

  /**
   * The grouping loop of `create_chart_with_bars`. Rows are taken in merit
   * order; a row joins the current group while the group is narrower than
   * `min_bar_width` (0.05% of the total) and the row's index label is not the
   * last, and otherwise the current group is emitted and the row starts a new
   * one at the running total `cumulative`; the last group is emitted after
   * the loop. `labels` are the rows' DataFrame labels from before the sort.
   * The ghost `starts` gives each emitted group's first row, followed by the
   * row count.
   */
  method GroupSmallSegmentsWith(supply: seq<Segment>, labels: seq<int>, colorOf: Option<string> -> string)
    returns (groups: seq<GroupedBar>, ghost starts: seq<nat>)
    requires |labels| == |supply|
    requires forall k :: 0 <= k < |supply| ==> supply[k].mw > 0.0
    ensures Emitted(supply, labels, MinBarWidth(supply), groups, starts)
    ensures starts[|groups|] == |supply|
    ensures TotalWidth(groups) == TotalMw(supply)
    ensures Coloured(groups, colorOf)
  {
    var minBarWidth := MinBarWidth(supply);
    groups := [];
    starts := [0];
    var cur := CurrentGroup(0.0, 0.0, 0.0, {});
    var cumulative := 0.0;
    ProgressAtStart(supply, labels, minBarWidth, colorOf);
    var k := 0;
    while k < |supply|
      invariant k <= |supply|
      invariant Progress(supply, labels, minBarWidth, colorOf, groups, starts, k, cumulative, cur)
    {
      groups, starts, cumulative, cur := Step(supply, labels, minBarWidth, colorOf, groups, starts, k, cumulative, cur);
      k := k + 1;
    }
    groups, starts := Finish(supply, labels, minBarWidth, colorOf, groups, starts, cumulative, cur);
  }

  /** Before the first row nothing is emitted, and the open group is empty and starts at 0 MW. */
  lemma ProgressAtStart(supply: seq<Segment>, labels: seq<int>, minWidth: real, colorOf: Option<string> -> string)
    requires |labels| == |supply|
    requires forall k :: 0 <= k < |supply| ==> supply[k].mw > 0.0
    ensures Progress(supply, labels, minWidth, colorOf, [], [0], 0, 0.0, CurrentGroup(0.0, 0.0, 0.0, {}))
  {
    assert supply[..0] == [] && supply[0..0] == [];
  }

  /** Each bar has the colour of its type. */
  predicate Coloured(groups: seq<GroupedBar>, colorOf: Option<string> -> string)
  {
    forall g :: 0 <= g < |groups| ==> groups[g].color == colorOf(groups[g].rtype)
  }

  /**
   * The state of the grouping loop before row `k`: `groups` are emitted and
   * coloured, `cumulative` is the MW of the rows before `k`, and the open
   * group runs from the last start to `k`.
   */
  ghost predicate Progress(supply: seq<Segment>, labels: seq<int>, minWidth: real, colorOf: Option<string> -> string,
                           groups: seq<GroupedBar>, starts: seq<nat>, k: nat, cumulative: real, cur: CurrentGroup)
  {
    && |labels| == |supply|
    && (forall j :: 0 <= j < |supply| ==> supply[j].mw > 0.0)
    && Emitted(supply, labels, minWidth, groups, starts)
    && starts[|groups|] <= k <= |supply|
    && (k > 0 ==> starts[|groups|] < k)
    && cumulative == TotalMw(supply[..k])
    && Open(supply, labels, minWidth, starts[|groups|], k, cur)
    && Coloured(groups, colorOf)
  }

  /**
   * One iteration of the grouping loop, on row `k`: the row joins the open
   * group, or that group is emitted and the row opens the next one; then
   * `cumulative` gains the row's MW.
   */
  method Step(supply: seq<Segment>, labels: seq<int>, minWidth: real, colorOf: Option<string> -> string,
              groups: seq<GroupedBar>, ghost starts: seq<nat>, k: nat, cumulative: real, cur: CurrentGroup)
    returns (groups': seq<GroupedBar>, ghost starts': seq<nat>, cumulative': real, cur': CurrentGroup)
    requires k < |supply|
    requires Progress(supply, labels, minWidth, colorOf, groups, starts, k, cumulative, cur)
    ensures Progress(supply, labels, minWidth, colorOf, groups', starts', k + 1, cumulative', cur')
  {
    if cur.mw < minWidth && labels[k] < |supply| - 1 {
      groups', starts' := groups, starts;
      cur' := AddRow(supply, labels, minWidth, starts[|groups|], k, cur);
    } else {
      groups', starts' := CloseIfOpen(supply, labels, minWidth, colorOf, groups, starts, k, cumulative, cur);
      cur' := StartGroup(supply, labels, minWidth, k, cumulative);
    }
    TotalMwStep(supply, k);
    cumulative' := cumulative + supply[k].mw;
  }

  /** Row `k` opens a new group, starting at `cumulative`, the MW of the rows before it. */
  method StartGroup(supply: seq<Segment>, labels: seq<int>, minWidth: real, k: nat, cumulative: real)
    returns (cur': CurrentGroup)
    requires k < |supply| == |labels|
    requires cumulative == TotalMw(supply[..k])
    ensures Open(supply, labels, minWidth, k, k + 1, cur')
  {
    StartStep(supply, labels, minWidth, k);
    var row := supply[k];
    cur' := CurrentGroup(row.mw, row.price * row.mw, cumulative, {row.rtype});
  }

  /** Before row `k` opens a group: the open group is emitted unless it is empty. */
  method CloseIfOpen(supply: seq<Segment>, labels: seq<int>, minWidth: real, colorOf: Option<string> -> string,
                     groups: seq<GroupedBar>, ghost starts: seq<nat>, k: nat, ghost cumulative: real, cur: CurrentGroup)
    returns (groups': seq<GroupedBar>, ghost starts': seq<nat>)
    requires k < |supply|
    requires Progress(supply, labels, minWidth, colorOf, groups, starts, k, cumulative, cur)
    requires !(cur.mw < minWidth && labels[k] < |supply| - 1)
    ensures Emitted(supply, labels, minWidth, groups', starts') && starts'[|groups'|] == k
    ensures Coloured(groups', colorOf)
  {
    if cur.mw > 0.0 {
      groups', starts' := CloseGroup(supply, labels, minWidth, colorOf, groups, starts, k, cumulative, cur);
    } else {
      TotalMwPositive(supply[starts[|groups|]..k]);
      groups', starts' := groups, starts;
    }
  }

  /** Row `k` joins the open group: its MW, weighted price and type are added, and the start stays. */
  method AddRow(supply: seq<Segment>, labels: seq<int>, minWidth: real, ghost start: nat, k: nat, cur: CurrentGroup)
    returns (cur': CurrentGroup)
    requires start <= k < |supply| == |labels|
    requires Open(supply, labels, minWidth, start, k, cur)
    requires cur.mw < minWidth && labels[k] < |supply| - 1
    ensures Open(supply, labels, minWidth, start, k + 1, cur')
  {
    var row := supply[k];
    JoinStep(supply, labels, minWidth, start, k, cur);
    cur' := cur.(mw := cur.mw + row.mw,
                 weightedSum := cur.weightedSum + row.price * row.mw,
                 types := cur.types + {row.rtype});
  }

  /**
   * The non-empty open group is emitted, either because row `k` does not join
   * it or, with `k` the row count, after the loop. The `max` key of a type
   * is row `k`'s MW when the row has that type and 0 otherwise; a NaN type
   * equals nothing, not even itself. So the bar's type is row `k`'s type when
   * that type is present and the group holds it, and otherwise every key
   * ties and set order picks one of the group's types.
   */
  method CloseGroup(supply: seq<Segment>, labels: seq<int>, minWidth: real, colorOf: Option<string> -> string,
                    groups: seq<GroupedBar>, ghost starts: seq<nat>, k: nat, ghost cumulative: real, cur: CurrentGroup)
    returns (groups': seq<GroupedBar>, ghost starts': seq<nat>)
    requires k <= |supply|
    requires Progress(supply, labels, minWidth, colorOf, groups, starts, k, cumulative, cur)
    requires k < |supply| ==> !(cur.mw < minWidth && labels[k] < |supply| - 1)
    requires cur.mw > 0.0
    ensures Emitted(supply, labels, minWidth, groups', starts') && starts'[|groups'|] == k
    ensures Coloured(groups', colorOf)
    ensures |groups'| == |groups| + 1
    ensures k < |supply| && supply[k].rtype.Some? && supply[k].rtype in cur.types ==> groups'[|groups|].rtype == supply[k].rtype
    ensures groups'[|groups|].rtype in cur.types
  {
    TotalMwPositive(supply[starts[|groups|]..k]);
    assert supply[starts[|groups|]..k][0].rtype in cur.types;
    var mainResource;
    if k < |supply| && supply[k].rtype.Some? && supply[k].rtype in cur.types {
      mainResource := supply[k].rtype;
    } else {
      mainResource :| mainResource in cur.types;
    }
    var bar := EmitGroup(supply, labels, minWidth, groups, starts, k, cur, mainResource, colorOf);
    groups', starts' := groups + [bar], starts + [k];
  }

  /** After the loop: the last open group, if not empty, is emitted with any of its types. */
  method Finish(supply: seq<Segment>, labels: seq<int>, minWidth: real, colorOf: Option<string> -> string,
                groups: seq<GroupedBar>, ghost starts: seq<nat>, ghost cumulative: real, cur: CurrentGroup)
    returns (groups': seq<GroupedBar>, ghost starts': seq<nat>)
    requires Progress(supply, labels, minWidth, colorOf, groups, starts, |supply|, cumulative, cur)
    ensures Emitted(supply, labels, minWidth, groups', starts')
    ensures starts'[|groups'|] == |supply|
    ensures TotalWidth(groups') == TotalMw(supply)
    ensures Coloured(groups', colorOf)
  {
    if cur.mw > 0.0 {
      groups', starts' := CloseGroup(supply, labels, minWidth, colorOf, groups, starts, |supply|, cumulative, cur);
    } else {
      TotalMwPositive(supply[starts[|groups|]..]);
      groups', starts' := groups, starts;
    }
    EmittedWidths(supply, labels, minWidth, groups', starts');
    assert supply[..|supply|] == supply;
  }

  /**
   * Finalising the open group `[starts[|groups|], k)`: its bar starts at the
   * group's start and takes the group's MW, the weighted mean price, one of
   * its types and that type's colour.
   */
  method EmitGroup(supply: seq<Segment>, labels: seq<int>, minWidth: real, groups: seq<GroupedBar>, ghost starts: seq<nat>,
                   k: nat, cur: CurrentGroup, mainResource: Option<string>, colorOf: Option<string> -> string)
    returns (bar: GroupedBar)
    requires k <= |supply| == |labels|
    requires forall j :: 0 <= j < |supply| ==> supply[j].mw > 0.0
    requires Emitted(supply, labels, minWidth, groups, starts)
    requires starts[|groups|] < k
    requires Open(supply, labels, minWidth, starts[|groups|], k, cur)
    requires k < |supply| ==> !Joins(supply, labels, minWidth, starts[|groups|], k)
    requires mainResource in cur.types
    ensures Emitted(supply, labels, minWidth, groups + [bar], starts + [k])
    ensures bar.rtype == mainResource && bar.color == colorOf(bar.rtype)
  {
    TotalMwPositive(supply[starts[|groups|]..k]);
    var avgPrice := cur.weightedSum / cur.mw;
    var color := colorOf(mainResource);
    CloseStep(supply, labels, minWidth, groups, starts, k, cur, mainResource, color);
    bar := GroupedBar(cur.startMw, cur.mw, avgPrice, mainResource, color);
  }

  /** `create_chart_with_bars`'s grouping, colouring each bar with `get_color`. */
  method GroupSmallSegments(supply: seq<Segment>, labels: seq<int>) returns (groups: seq<GroupedBar>, ghost starts: seq<nat>)
    requires |labels| == |supply|
    requires forall k :: 0 <= k < |supply| ==> supply[k].mw > 0.0
    ensures Emitted(supply, labels, MinBarWidth(supply), groups, starts)
    ensures starts[|groups|] == |supply|
    ensures TotalWidth(groups) == TotalMw(supply)
    ensures forall g :: 0 <= g < |groups| ==> groups[g].color == GetColor(groups[g].rtype)
  {
    groups, starts := GroupSmallSegmentsWith(supply, labels, GetColor);
  }

  /** One `go.Bar` trace: its centre on the load axis, price, width, colour, name and whether it shows in the legend. */
  datatype BarTrace = BarTrace(center: real, price: real, width: real, color: string, name: Option<string>, showLegend: bool)

  /** The trace drawn for bar `i`: centred on the bar, in the legend when no earlier bar has its type. */
  ghost predicate DrawnAs(groups: seq<GroupedBar>, i: nat, tr: BarTrace)
    requires i < |groups|
  {
    && tr.center - tr.width / 2.0 == groups[i].start
    && tr.center + tr.width / 2.0 == groups[i].start + groups[i].width
    && tr.price == groups[i].price && tr.width == groups[i].width
    && tr.color == groups[i].color && tr.name == groups[i].rtype
    && (tr.showLegend <==> forall j :: 0 <= j < i ==> groups[j].rtype != groups[i].rtype)
  }

  /** The types of the bars before bar `i` (`legend_added` on reaching it). */
  ghost function LegendBefore(groups: seq<GroupedBar>, i: nat): set<Option<string>>
    requires i <= |groups|
  {
    set j | 0 <= j < i :: groups[j].rtype
  }

  /** The drawing loop of `create_chart_with_bars`: one trace per bar, each type shown once in the legend. */
  method DrawGroupedBars(groups: seq<GroupedBar>) returns (traces: seq<BarTrace>)
    ensures |traces| == |groups|
    ensures forall i :: 0 <= i < |groups| ==> DrawnAs(groups, i, traces[i])
  {
    traces := [];
    var legendAdded: set<Option<string>> := {};
    var i := 0;
    while i < |groups|
      invariant i <= |groups| && |traces| == i
      invariant legendAdded == LegendBefore(groups, i)
      invariant forall j :: 0 <= j < i ==> DrawnAs(groups, j, traces[j])
    {
      var bar := groups[i];
      var showLegend := bar.rtype !in legendAdded;
      if showLegend {
        legendAdded := legendAdded + {bar.rtype};
      }
      assert LegendBefore(groups, i + 1) == LegendBefore(groups, i) + {bar.rtype};
      traces := traces + [BarTrace(bar.start + bar.width / 2.0, bar.price, bar.width, bar.color, bar.rtype, showLegend)];
      i := i + 1;
    }
  }

  /**
   * The loop's `start_mw` bookkeeping as written: the open group's MW and
   * start, `cumulative`, and the starts of the bars emitted so far.
   */
  datatype StartBookkeeping = StartBookkeeping(mw: real, startMw: real, cumulative: real, emitted: seq<real>)

  /**
   * The bookkeeping after rows `[0, k)`. A joining row sets `start_mw` to
   * `cumulative` while it is 0; a restart emits the open group's `start_mw`
   * and opens the next group at `cumulative + current_group['mw']`, although
   * `cumulative` already counts the closed group's rows.
   */
  function ReplayStarts(supply: seq<Segment>, labels: seq<int>, minWidth: real, k: nat): StartBookkeeping
    requires k <= |supply| == |labels|
  {
    if k == 0 then StartBookkeeping(0.0, 0.0, 0.0, [])
    else
      var st := ReplayStarts(supply, labels, minWidth, k - 1);
      var row := supply[k - 1];
      if st.mw < minWidth && labels[k - 1] < |supply| - 1 then
        StartBookkeeping(st.mw + row.mw, if st.startMw == 0.0 then st.cumulative else st.startMw,
                         st.cumulative + row.mw, st.emitted)
      else
        StartBookkeeping(row.mw, st.cumulative + st.mw, st.cumulative + row.mw,
                         if st.mw > 0.0 then st.emitted + [st.startMw] else st.emitted)
  }

  /** The bars' `start` values as written, the final group's included. */
  function StartsAsWritten(supply: seq<Segment>, labels: seq<int>): seq<real>
    requires |supply| == |labels|
  {
    var st := ReplayStarts(supply, labels, MinBarWidth(supply), |supply|);
    if st.mw > 0.0 then st.emitted + [st.startMw] else st.emitted
  }

  /** Two 10 MW rows, at $1 and $2. */
  const TwoRows: seq<Segment> := [Segment("A", Some("WIND"), 10.0, 1.0, "ON"), Segment("B", Some("WIND"), 10.0, 2.0, "ON")]

  /**
   * On two 10 MW rows the second bar is drawn from 20 MW, where the supply
   * ends, instead of from 10 MW; the grouping puts each bar at the MW of the
   * rows before its group.
   */
  lemma StartsAsWrittenShifted(groups: seq<GroupedBar>, starts: seq<nat>)
    requires Emitted(TwoRows, [0, 1], MinBarWidth(TwoRows), groups, starts) && starts[|groups|] == 2
    ensures StartsAsWritten(TwoRows, [0, 1]) == [0.0, 20.0]
    ensures TotalMw(TwoRows) == 20.0
    ensures |groups| == 2 && groups[0].start == 0.0 && groups[1].start == 10.0
  {
    var s := TwoRows;
    assert s[..1] == [s[0]] && s[..1][..0] == [] && s[..|s| - 1] == s[..1];
    assert TotalMw(s) == 20.0;
    assert s[0..1] == s[..1];
    assert !Joins(s, [0, 1], MinBarWidth(s), 0, 1);
    EmittedGroupAt(s, [0, 1], MinBarWidth(s), groups, starts, 0);
    assert starts[1] == 1;
    EmittedGroupAt(s, [0, 1], MinBarWidth(s), groups, starts, 1);
    assert |groups| <= 2 by {
      if |groups| > 2 {
        EmittedGroupAt(s, [0, 1], MinBarWidth(s), groups, starts, 2);
      }
    }
  }

  /** Two 0.01 MW rows followed by a 100 MW row. */
  const ThreeRows: seq<Segment> := [
    Segment("A", Some("WIND"), 0.01, 1.0, "ON"), Segment("B", Some("WIND"), 0.01, 2.0, "ON"),
    Segment("C", Some("COAL"), 100.0, 3.0, "ON")]

  /**
   * When the first group takes a second row, `start_mw` is still 0 and is
   * moved to that row's offset, so the first bar no longer starts at 0 MW;
   * the next bar is shifted as well. Here the two bars are written at 0.01
   * and 0.04 MW, while their rows begin at 0 and 0.02 MW.
   */
  lemma StartsAsWrittenFirstGroup()
    ensures StartsAsWritten(ThreeRows, [0, 1, 2]) == [0.01, 0.04]
    ensures TotalMw(ThreeRows[..0]) == 0.0 && TotalMw(ThreeRows[..2]) == 0.02
  {
    var s := ThreeRows;
    assert s[..1][..0] == [] && s[..0] == [];
    assert TotalMw(s[..1]) == 0.01;
    assert s[..2][..1] == s[..1];
    assert TotalMw(s[..2]) == 0.02;
    assert s[..|s| - 1] == s[..2];
    assert TotalMw(s) == 100.02;
    var st1 := ReplayStarts(s, [0, 1, 2], MinBarWidth(s), 1);
    assert st1 == StartBookkeeping(0.01, 0.0, 0.01, []);
    var st2 := ReplayStarts(s, [0, 1, 2], MinBarWidth(s), 2);
    assert st2 == StartBookkeeping(0.02, 0.01, 0.02, []);
  }

  /** The demand line sits at three quarters of the total MW. */
  function DemandLine(total: real): (d: real)
    ensures total >= 0.0 ==> 0.0 <= d <= total
  {
    total * 0.75
  }
}
