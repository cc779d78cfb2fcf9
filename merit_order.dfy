/**
 * The part of the pipeline shared by all four scripts after expansion:
 * drop segments of unavailable resources, keep positive widths, sort into
 * merit order by `(price, mw)` and attach the running total `cumulative_mw`.
 */
module MeritOrder {
  import opened Wrappers
  import opened OfferCurves

  /** Telemetered statuses whose segments are dropped by the `isin` filter. */
  const UnavailableStatuses: set<string> := {"ONTEST", "OFFQS", "OFFNS", "OFF", "OUT", "SHUTDOWN"}

  /** `curve_df[~ curve_df['telemetered_status'].isin([...])]` */
  function KeepAvailable(segs: seq<Segment>): (r: seq<Segment>)
    ensures forall s :: s in r <==> s in segs && s.status !in UnavailableStatuses
  {
    if segs == [] then []
    else (if segs[0].status !in UnavailableStatuses then [segs[0]] else []) + KeepAvailable(segs[1..])
  }

  /** `curve_df[curve_df['mw'] > 0]` */
  function KeepPositive(segs: seq<Segment>): (r: seq<Segment>)
    ensures forall s :: s in r <==> s in segs && s.mw > 0.0
  {
    if segs == [] then []
    else (if segs[0].mw > 0.0 then [segs[0]] else []) + KeepPositive(segs[1..])
  }

  lemma {:induction false} KeepAvailableAppend(a: seq<Segment>, b: seq<Segment>)
    ensures KeepAvailable(a + b) == KeepAvailable(a) + KeepAvailable(b)
    decreases |a|
  {
    if a != [] {
      var ab := a + b;
      assert ab[0] == a[0] && ab[1..] == a[1..] + b;
      KeepAvailableAppend(a[1..], b);
      var head := if a[0].status !in UnavailableStatuses then [a[0]] else [];
      assert KeepAvailable(ab) == head + (KeepAvailable(a[1..]) + KeepAvailable(b));
      ConcatAssoc(head, KeepAvailable(a[1..]), KeepAvailable(b));
    } else {
      assert a + b == b;
    }
  }

  lemma {:induction false} KeepPositiveAppend(a: seq<Segment>, b: seq<Segment>)
    ensures KeepPositive(a + b) == KeepPositive(a) + KeepPositive(b)
    decreases |a|
  {
    if a != [] {
      KeepPositiveAppend(a[1..], b);
      KeepPositiveHead(a);
      KeepPositiveHeadAppend(a, b);
      var head := if a[0].mw > 0.0 then [a[0]] else [];
      ConcatAssoc(head, KeepPositive(a[1..]), KeepPositive(b));
    } else {
      assert a + b == b;
    }
  }

  lemma ConcatAssoc(x: seq<Segment>, y: seq<Segment>, z: seq<Segment>)
    ensures x + (y + z) == (x + y) + z
  {
  }

  lemma KeepPositiveHeadAppend(a: seq<Segment>, b: seq<Segment>)
    requires a != []
    ensures KeepPositive(a + b) == (if a[0].mw > 0.0 then [a[0]] else []) + KeepPositive(a[1..] + b)
  {
    assert (a + b)[0] == a[0] && (a + b)[1..] == a[1..] + b;
  }

  lemma KeepPositiveHead(s: seq<Segment>)
    requires s != []
    ensures KeepPositive(s) == (if s[0].mw > 0.0 then [s[0]] else []) + KeepPositive(s[1..])
  {
  }

  /** Segments that survive both filters, before sorting. */
  function Candidates(rows: seq<Resource>): (r: seq<Segment>)
    ensures forall s :: s in r <==> s in ExpandAll(rows) && s.status !in UnavailableStatuses && s.mw > 0.0
  {
    KeepPositive(KeepAvailable(ExpandAll(rows)))
  }

  lemma UnavailableRowKeepsNothing(r: Resource)
    requires r.curve.Unparsable? || r.curve == Parsed([]) || r.status in UnavailableStatuses
    ensures KeepAvailable(RowSegments(r)) == []
  {
    var segs := RowSegments(r);
    if r.curve.Parsed? && r.curve.points != [] {
      ExpandEmitsClosedSegments(r, r.curve.points, 0.0);
      assert forall s :: s in segs ==> s.status in UnavailableStatuses;
    } else {
      assert segs == [];
    }
    AllUnavailableKeepsNothing(segs);
  }

  lemma {:induction false} AllUnavailableKeepsNothing(segs: seq<Segment>)
    requires forall s :: s in segs ==> s.status in UnavailableStatuses
    ensures KeepAvailable(segs) == []
    decreases |segs|
  {
    if segs != [] {
      assert segs[0] in segs;
      AllUnavailableKeepsNothing(segs[1..]);
    }
  }

  /**
   * A row contributes nothing to the supply curve when its curve fails to
   * parse, when its curve is empty, or when its status is unavailable.
   */
  lemma ExcludedRowContributesNothing(before: seq<Resource>, r: Resource, after: seq<Resource>)
    requires r.curve.Unparsable? || r.curve == Parsed([]) || r.status in UnavailableStatuses
    ensures Candidates(before + [r] + after) == Candidates(before + after)
  {
    ExpandAllAppend(before + [r], after);
    ExpandAllAppend(before, [r]);
    ExpandAllAppend(before, after);
    assert ExpandAll([r]) == RowSegments(r) by {
      assert [r][..0] == [];
    }
    UnavailableRowKeepsNothing(r);
    KeepAvailableAppend(ExpandAll(before) + RowSegments(r), ExpandAll(after));
    KeepAvailableAppend(ExpandAll(before), RowSegments(r));
    KeepAvailableAppend(ExpandAll(before), ExpandAll(after));
    assert KeepAvailable(ExpandAll(before)) + [] == KeepAvailable(ExpandAll(before));
  }

  /** The `(price, mw)` order used by `sort_values(['price', 'mw'])`. */
  predicate MeritLeq(a: Segment, b: Segment)
  {
    a.price < b.price || (a.price == b.price && a.mw <= b.mw)
  }

  predicate MeritSorted(s: seq<Segment>)
  {
    forall i, j :: 0 <= i < j < |s| ==> MeritLeq(s[i], s[j])
  }

  function Insert(x: Segment, s: seq<Segment>): seq<Segment>
  {
    if s == [] then [x]
    else if MeritLeq(x, s[0]) then [x] + s
    else [s[0]] + Insert(x, s[1..])
  }

  /** One concrete sort into merit order; stability is not part of its contract. */
  function MeritSort(s: seq<Segment>): seq<Segment>
  {
    if s == [] then [] else Insert(s[0], MeritSort(s[1..]))
  }

  lemma {:induction false} InsertPermutes(x: Segment, s: seq<Segment>)
    ensures multiset(Insert(x, s)) == multiset(s) + multiset{x}
    ensures forall y :: y in Insert(x, s) ==> y == x || y in s
    decreases |s|
  {
    if s != [] && !MeritLeq(x, s[0]) {
      InsertPermutes(x, s[1..]);
      assert s == [s[0]] + s[1..];
    }
  }

  lemma {:induction false} InsertSorted(x: Segment, s: seq<Segment>)
    requires MeritSorted(s)
    ensures MeritSorted(Insert(x, s))
    decreases |s|
  {
    if s != [] && !MeritLeq(x, s[0]) {
      InsertSorted(x, s[1..]);
      InsertPermutes(x, s[1..]);
      var tail := Insert(x, s[1..]);
      forall z | z in tail ensures MeritLeq(s[0], z) {
        assert z in multiset(tail);
        if z != x {
          var k :| 0 <= k < |s[1..]| && s[1..][k] == z;
          assert s[k + 1] == z;
        }
      }
      SortedCons(s[0], tail);
    } else if s != [] {
      forall z | z in s ensures MeritLeq(x, z) {
        var k :| 0 <= k < |s| && s[k] == z;
        if k > 0 {
          assert MeritLeq(s[0], s[k]);
        }
      }
      SortedCons(x, s);
    }
  }

  /** A head in order with every element of a sorted tail gives a sorted list. */
  lemma SortedCons(y: Segment, t: seq<Segment>)
    requires MeritSorted(t)
    requires forall z :: z in t ==> MeritLeq(y, z)
    ensures MeritSorted([y] + t)
  {
    var r := [y] + t;
    forall i, j | 0 <= i < j < |r| ensures MeritLeq(r[i], r[j]) {
      if i == 0 {
        assert r[j] == t[j - 1] && t[j - 1] in t;
      } else {
        assert r[i] == t[i - 1] && r[j] == t[j - 1];
      }
    }
  }


  /** The sort yields a permutation of its input in `(price, mw)` order. */
  lemma {:induction false} MeritSortCorrect(s: seq<Segment>)
    ensures MeritSorted(MeritSort(s))
    ensures multiset(MeritSort(s)) == multiset(s)
    decreases |s|
  {
    if s != [] {
      MeritSortCorrect(s[1..]);
      InsertSorted(s[0], MeritSort(s[1..]));
      InsertPermutes(s[0], MeritSort(s[1..]));
      assert s == [s[0]] + s[1..];
    }
  }

  /** `supply_df['mw'].cumsum()` */
  function Cumulative(s: seq<Segment>): (r: seq<real>)
    ensures |r| == |s|
  {
    if s == [] then [] else Cumulative(s[..|s| - 1]) + [TotalMw(s)]
  }

  /**
   * `cumulative_mw[i]` is the sum of the widths up to and including row i;
   * each entry adds its own row's width to the one before.
   */
  lemma {:induction false} CumulativeIsPrefixSum(s: seq<Segment>)
    ensures |Cumulative(s)| == |s|
    ensures forall i :: 0 <= i < |s| ==> Cumulative(s)[i] == TotalMw(s[..i + 1])
    ensures |s| > 0 ==> Cumulative(s)[0] == s[0].mw
    ensures forall i :: 0 < i < |s| ==> Cumulative(s)[i] == Cumulative(s)[i - 1] + s[i].mw
    decreases |s|
  {
    if s != [] {
      var init := s[..|s| - 1];
      CumulativeIsPrefixSum(init);
      forall i | 0 <= i < |s| ensures Cumulative(s)[i] == TotalMw(s[..i + 1]) {
        if i < |s| - 1 {
          assert init[..i + 1] == s[..i + 1];
        } else {
          assert s[..i + 1] == s;
        }
      }
      assert TotalMw(s[..1]) == TotalMw(s[..1][..0]) + s[0].mw;
      forall i | 0 < i < |s| ensures Cumulative(s)[i] == Cumulative(s)[i - 1] + s[i].mw {
        assert s[..i + 1][..i] == s[..i];
      }
    }
  }

  /**
   * With positive widths the running total is strictly increasing, so its
   * maximum is its last entry, the total MW of the curve.
   */
  lemma PrefixSumsIncrease(s: seq<Segment>, i: nat, j: nat)
    requires i < j <= |s|
    requires forall k :: 0 <= k < |s| ==> s[k].mw > 0.0
    ensures TotalMw(s[..i]) < TotalMw(s[..j])
  {
    var middle := s[i..j];
    assert forall k :: 0 <= k < |middle| ==> middle[k] == s[i + k];
    TotalMwPositive(middle);
    TotalMwAppend(s[..i], middle);
    assert s[..i] + middle == s[..j];
  }

  lemma CumulativeIncreasing(s: seq<Segment>)
    requires forall k :: 0 <= k < |s| ==> s[k].mw > 0.0
    ensures |Cumulative(s)| == |s|
    ensures forall i, j :: 0 <= i < j < |s| ==> Cumulative(s)[i] < Cumulative(s)[j]
    ensures |s| > 0 ==> Cumulative(s)[|s| - 1] == TotalMw(s)
    ensures forall i :: 0 <= i < |s| ==> 0.0 < Cumulative(s)[i] <= TotalMw(s)
  {
    CumulativeIsPrefixSum(s);
    var c := Cumulative(s);
    forall i, j | 0 <= i < j < |s| ensures c[i] < c[j] {
      PrefixSumsIncrease(s, i + 1, j + 1);
    }
    assert s[..|s|] == s;
    forall i | 0 <= i < |s| ensures 0.0 < c[i] <= TotalMw(s) {
      PrefixSumsIncrease(s, 0, i + 1);
      if i + 1 < |s| {
        PrefixSumsIncrease(s, i + 1, |s|);
      }
    }
  }

  /** Why the loading step raises instead of producing a supply. */
  datatype LoadError =
    | CurveNotIterable(row: nat)  // `for point in curve` over the NaN of an empty curve cell: TypeError
    | NoColumns                   // no segment at all, so `pd.DataFrame([])` has no `telemetered_status` column: KeyError

  /** The merit-ordered supply and its running total `cumulative_mw`. */
  datatype Loaded = Loaded(supply: seq<Segment>, cumulative: seq<real>)

  predicate HasEmptyCell(rows: seq<Resource>)
  {
    exists k :: 0 <= k < |rows| && rows[k].curve.EmptyCell?
  }

  /**
   * The shared loading step of all four scripts: expand every row's curve,
   * drop unavailable statuses and non-positive widths, sort into merit order
   * and attach the running total. It raises at the first row whose curve
   * cell is empty, and, after the loop, when no row produced a segment.
   */
  method LoadAndProcess(rows: seq<Resource>) returns (r: Result<Loaded, LoadError>)
    ensures HasEmptyCell(rows) ==>
      r.Failure? && r.error.CurveNotIterable? && r.error.row < |rows| && rows[r.error.row].curve.EmptyCell?
      && forall j :: 0 <= j < r.error.row ==> !rows[j].curve.EmptyCell?
    ensures r == Failure(NoColumns) <==> !HasEmptyCell(rows) && ExpandAll(rows) == []
    ensures r.Success? <==> !HasEmptyCell(rows) && ExpandAll(rows) != []
    ensures r.Success? ==>
      var supply := r.value.supply;
      var cumulative := r.value.cumulative;
      && supply == MeritSort(Candidates(rows))
      && MeritSorted(supply)
      && multiset(supply) == multiset(Candidates(rows))
      && (forall k :: 0 <= k < |supply| ==> supply[k].mw > 0.0 && supply[k].status !in UnavailableStatuses)
      && |cumulative| == |supply|
      && (forall i :: 0 <= i < |supply| ==> cumulative[i] == TotalMw(supply[..i + 1]))
      && (forall i, j :: 0 <= i < j < |supply| ==> cumulative[i] < cumulative[j])
      && (|supply| > 0 ==> cumulative[|supply| - 1] == TotalMw(supply))
  {
    var expanded: seq<Segment> := [];
    var k := 0;
    while k < |rows|
      invariant 0 <= k <= |rows|
      invariant expanded == ExpandAll(rows[..k])
      invariant forall j :: 0 <= j < k ==> !rows[j].curve.EmptyCell?
    {
      if rows[k].curve.EmptyCell? {
        return Failure(CurveNotIterable(k));
      }
      expanded := ExpandRow(rows[k], expanded);
      assert rows[..k + 1][..k] == rows[..k];
      k := k + 1;
    }
    assert rows[..|rows|] == rows;
    if expanded == [] {
      return Failure(NoColumns);
    }
    var supply := MeritSort(KeepPositive(KeepAvailable(expanded)));
    MeritSortCorrect(Candidates(rows));
    forall k | 0 <= k < |supply| ensures supply[k].mw > 0.0 && supply[k].status !in UnavailableStatuses {
      assert supply[k] in multiset(Candidates(rows));
    }
    CumulativeIsPrefixSum(supply);
    CumulativeIncreasing(supply);
    r := Success(Loaded(supply, Cumulative(supply)));
  }

  /** One pass of the row loop: the `for point in curve` walk with its running `prev_mw`. */
  method ExpandRow(row: Resource, expanded: seq<Segment>) returns (expanded': seq<Segment>)
    requires !row.curve.EmptyCell?
    ensures expanded' == expanded + RowSegments(row)
  {
    expanded' := expanded;
    if row.curve.Parsed? && row.curve.points != [] {
      var points := row.curve.points;
      var prevMw := 0.0;
      var i := 0;
      while i < |points|
        invariant 0 <= i <= |points|
        invariant expanded' + Expand(row, points[i..], prevMw) == expanded + Expand(row, points, 0.0)
      {
        var point := points[i];
        assert points[i..][1..] == points[i + 1..];
        if |point| == 2 {
          var currentMw := point[0];
          var price := point[1];
          var incrementalMw := currentMw - prevMw;
          if incrementalMw > 0.0 {
            expanded' := expanded' + [Segment(row.name, row.rtype, incrementalMw, price, row.status)];
          }
          prevMw := currentMw;
        }
        i := i + 1;
      }
      assert points[|points|..] == [];
    }
  }

  /** Lowest price of a non-empty supply (`supply_df['price'].min()`). */
  function MinPrice(s: seq<Segment>): (r: real)
    requires s != []
    ensures forall k :: 0 <= k < |s| ==> r <= s[k].price
    ensures exists k :: 0 <= k < |s| && r == s[k].price
  {
    if |s| == 1 then s[0].price
    else
      var rest := MinPrice(s[1..]);
      assert forall k :: 1 <= k < |s| ==> s[k] == s[1..][k - 1];
      if s[0].price <= rest then s[0].price else rest
  }

  /** Highest price of a non-empty supply (`supply_df['price'].max()`). */
  function MaxPrice(s: seq<Segment>): (r: real)
    requires s != []
    ensures forall k :: 0 <= k < |s| ==> s[k].price <= r
    ensures exists k :: 0 <= k < |s| && r == s[k].price
  {
    if |s| == 1 then s[0].price
    else
      var rest := MaxPrice(s[1..]);
      assert forall k :: 1 <= k < |s| ==> s[k] == s[1..][k - 1];
      if s[0].price >= rest then s[0].price else rest
  }

  /** Resource types in order of first appearance (`resource_type.unique()`). */
  function UniqueTypes(s: seq<Segment>): (r: seq<Option<string>>)
    ensures forall t :: t in r <==> exists k :: 0 <= k < |s| && s[k].rtype == t
    ensures forall i, j :: 0 <= i < j < |r| ==> r[i] != r[j]
  {
    if s == [] then []
    else
      var init := UniqueTypes(s[..|s| - 1]);
      var last := s[|s| - 1].rtype;
      assert forall k :: 0 <= k < |s| - 1 ==> s[k] == s[..|s| - 1][k];
      if last in init then init else init + [last]
  }

  /**
   * Every occurrence in `s` of a type listed in `u` is preceded by an
   * occurrence of each type listed before it.
   */
  predicate InFirstAppearanceOrder(s: seq<Segment>, u: seq<Option<string>>)
  {
    forall i, j, k :: 0 <= i < j < |u| && 0 <= k < |s| && s[k].rtype == u[j] ==>
      exists m :: 0 <= m < k && s[m].rtype == u[i]
  }

  /** `unique()` lists types in the order of their first appearance. */
  lemma {:induction false} UniqueTypesFirstAppearance(s: seq<Segment>)
    ensures InFirstAppearanceOrder(s, UniqueTypes(s))
    decreases |s|
  {
    if s != [] {
      var init := s[..|s| - 1];
      var last := s[|s| - 1].rtype;
      var u := UniqueTypes(s);
      var u' := UniqueTypes(init);
      UniqueTypesFirstAppearance(init);
      assert forall k :: 0 <= k < |init| ==> init[k] == s[k];
      forall i, j, k | 0 <= i < j < |u| && 0 <= k < |s| && s[k].rtype == u[j]
        ensures exists m :: 0 <= m < k && s[m].rtype == u[i]
      {
        if j < |u'| {
          assert u[i] == u'[i] && u[j] == u'[j];
          var k' := k;
          if k == |s| - 1 {
            assert u'[j] in u';
            k' :| 0 <= k' < |init| && init[k'].rtype == u'[j];
          }
          assert 0 <= i < j < |u'| && 0 <= k' < |init| && init[k'].rtype == u'[j];
          var m :| 0 <= m < k' && init[m].rtype == u'[i];
          assert s[m].rtype == u[i];
        } else {
          assert last !in u' && u == u' + [last] && u[j] == last;
          assert k == |s| - 1;
          assert u'[i] in u';
          var m :| 0 <= m < |init| && init[m].rtype == u'[i];
          assert s[m].rtype == u[i];
        }
      }
    }
  }
}
