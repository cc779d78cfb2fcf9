/**
 * The matplotlib script: bars placed end to end by a running `prev_mw`, and
 * a legend with one entry per resource type, in sorted order.
 */
module MatplotlibChart {
  import opened Wrappers
  import opened Strings
  import opened OfferCurves
  import opened MeritOrder
  import opened ResourceColours

  /**
   * The bar loop: bar i is centred at `prev_mw + width / 2`, so it covers
   * exactly the load interval between the running totals before and after
   * it; once the loop is over, `prev_mw` is the total MW and `bars_created`
   * the number of segments.
   */
  method PlaceBars(supply: seq<Segment>) returns (centers: seq<real>, endMw: real, barsCreated: nat)
    ensures |centers| == |supply| && barsCreated == |supply|
    ensures forall i :: 0 <= i < |supply| ==>
      centers[i] - supply[i].mw / 2.0 == TotalMw(supply[..i])
      && centers[i] + supply[i].mw / 2.0 == TotalMw(supply[..i + 1])
    ensures endMw == TotalMw(supply)
  {
    var prevMw := 0.0;
    barsCreated := 0;
    centers := [];
    var k := 0;
    while k < |supply|
      invariant 0 <= k <= |supply|
      invariant |centers| == k && barsCreated == k
      invariant prevMw == TotalMw(supply[..k])
      invariant forall i :: 0 <= i < k ==> centers[i] == TotalMw(supply[..i]) + supply[i].mw / 2.0
    {
      var width := supply[k].mw;
      centers := centers + [prevMw + width / 2.0];
      TotalMwStep(supply, k);
      prevMw := prevMw + width;
      barsCreated := barsCreated + 1;
      k := k + 1;
    }
    forall i | 0 <= i < |supply| ensures centers[i] + supply[i].mw / 2.0 == TotalMw(supply[..i + 1]) {
      TotalMwStep(supply, i);
    }
    assert supply[..k] == supply;
    endMw := prevMw;
  }

  /**
   * With positive widths, the final `prev_mw` is both the last and the
   * largest running total: `max(cumulative_mw)`, where the x-ticks stop.
   */
  lemma EndIsLargestCumulative(supply: seq<Segment>)
    requires supply != []
    requires forall k :: 0 <= k < |supply| ==> supply[k].mw > 0.0
    ensures |Cumulative(supply)| == |supply|
    ensures Cumulative(supply)[|supply| - 1] == TotalMw(supply)
    ensures forall i :: 0 <= i < |supply| ==> Cumulative(supply)[i] <= TotalMw(supply)
  {
    CumulativeIncreasing(supply);
  }

  /** One legend handle: a rectangle in the type's colour, labelled with the type. */
  datatype LegendEntry = LegendEntry(name: string, color: string)

  /** The types of `types` that are not missing, in order. */
  function PresentTypes(types: seq<Option<string>>): (r: seq<string>)
    ensures forall x :: x in r <==> Some(x) in types
    ensures (forall i, j :: 0 <= i < j < |types| ==> types[i] != types[j])
      ==> (forall i, j :: 0 <= i < j < |r| ==> r[i] != r[j])
  {
    if types == [] then []
    else
      var init := PresentTypes(types[..|types| - 1]);
      var last := types[|types| - 1];
      assert forall t :: t in types <==> t in types[..|types| - 1] || t == last;
      if last.Some? then init + [last.value] else init
  }

  /** Strictly increasing in Python's string order. */
  predicate StrSorted(s: seq<string>)
  {
    forall i, j :: 0 <= i < j < |s| ==> StrLess(s[i], s[j])
  }

  function InsertStr(x: string, s: seq<string>): seq<string>
  {
    if s == [] then [x]
    else if StrLess(x, s[0]) then [x] + s
    else [s[0]] + InsertStr(x, s[1..])
  }

  /** `sorted` on a list of distinct strings. */
  function SortStrings(s: seq<string>): seq<string>
  {
    if s == [] then [] else InsertStr(s[0], SortStrings(s[1..]))
  }

  lemma {:induction false} InsertStrPermutes(x: string, s: seq<string>)
    ensures multiset(InsertStr(x, s)) == multiset(s) + multiset{x}
    ensures forall y :: y in InsertStr(x, s) <==> y == x || y in s
    decreases |s|
  {
    if s != [] && !StrLess(x, s[0]) {
      InsertStrPermutes(x, s[1..]);
      assert s == [s[0]] + s[1..];
    }
  }

  /** A sorted list's head is below everything after it, and its tail is sorted. */
  lemma SortedSplit(s: seq<string>)
    requires StrSorted(s) && s != []
    ensures forall y :: y in s[1..] ==> StrLess(s[0], y)
    ensures StrSorted(s[1..])
  {
    forall i, j | 0 <= i < j < |s[1..]| ensures StrLess(s[1..][i], s[1..][j]) {
      assert s[1..][i] == s[i + 1] && s[1..][j] == s[j + 1];
    }
  }

  /** A head below every element of a sorted tail gives a sorted list. */
  lemma SortedJoin(x: string, s: seq<string>)
    requires StrSorted(s)
    requires forall y :: y in s ==> StrLess(x, y)
    ensures StrSorted([x] + s)
  {
    var r := [x] + s;
    forall i, j | 0 <= i < j < |r| ensures StrLess(r[i], r[j]) {
      if i == 0 {
        assert r[j] == s[j - 1];
      } else {
        assert r[i] == s[i - 1] && r[j] == s[j - 1];
      }
    }
  }

  lemma {:induction false} InsertStrSorted(x: string, s: seq<string>)
    requires StrSorted(s) && x !in s
    ensures StrSorted(InsertStr(x, s))
    decreases |s|
  {
    if s != [] {
      SortedSplit(s);
      if StrLess(x, s[0]) {
        forall y | y in s ensures StrLess(x, y) {
          if y != s[0] {
            assert y in s[1..] by {
              assert s == [s[0]] + s[1..];
            }
            StrLessTransitive(x, s[0], y);
          }
        }
        SortedJoin(x, s);
      } else {
        StrLessTotal(x, s[0]);
        InsertStrSorted(x, s[1..]);
        InsertStrPermutes(x, s[1..]);
        SortedJoin(s[0], InsertStr(x, s[1..]));
      }
    } else {
      SortedJoin(x, []);
    }
  }

  /** On distinct strings, the sort yields a permutation in strictly increasing order. */
  lemma {:induction false} SortStringsCorrect(s: seq<string>)
    requires forall i, j :: 0 <= i < j < |s| ==> s[i] != s[j]
    ensures StrSorted(SortStrings(s))
    ensures multiset(SortStrings(s)) == multiset(s)
    ensures forall y :: y in SortStrings(s) <==> y in s
    decreases |s|
  {
    if s != [] {
      var rest := s[1..];
      assert forall i, j :: 0 <= i < j < |rest| ==> rest[i] != rest[j] by {
        forall i, j | 0 <= i < j < |rest| ensures rest[i] != rest[j] {
          assert rest[i] == s[i + 1] && rest[j] == s[j + 1];
        }
      }
      SortStringsCorrect(rest);
      assert s[0] !in rest;
      InsertStrSorted(s[0], SortStrings(rest));
      InsertStrPermutes(s[0], SortStrings(rest));
      assert s == [s[0]] + rest;
    }
  }

  /** The legend entries for a list of names, each in its type's colour. */
  function Entries(names: seq<string>): (r: seq<LegendEntry>)
    ensures |r| == |names|
    ensures forall i :: 0 <= i < |r| ==> r[i].name == names[i] && r[i].color == ColorForResource(Some(names[i]))
  {
    seq(|names|, i requires 0 <= i < |names| => LegendEntry(names[i], ColorForResource(Some(names[i]))))
  }

  /** The legend's labels: the distinct types that are not missing, sorted. */
  function LegendNames(supply: seq<Segment>): seq<string>
  {
    SortStrings(PresentTypes(UniqueTypes(supply)))
  }

  /**
   * The intended legend: one entry per distinct type that is not missing, in
   * sorted order, coloured by `get_color_for_resource`.
   */
  function Legend(supply: seq<Segment>): seq<LegendEntry>
  {
    Entries(LegendNames(supply))
  }

  /** The labels are exactly the present types, each once, in increasing order. */
  lemma LegendNamesCorrect(supply: seq<Segment>)
    ensures forall x :: x in LegendNames(supply) <==> exists k :: 0 <= k < |supply| && supply[k].rtype == Some(x)
    ensures StrSorted(LegendNames(supply))
  {
    SortStringsCorrect(PresentTypes(UniqueTypes(supply)));
  }

  /**
   * The legend as written: `sorted(unique_resources)` runs before the NaN
   * test, and Python cannot order a NaN (a float) against a string, so the
   * sort raises as soon as a missing type sits beside any other type. A
   * missing type alone sorts fine and is then skipped.
   */
  function LegendAsWritten(supply: seq<Segment>): Option<seq<LegendEntry>>
  {
    var unique := UniqueTypes(supply);
    if None in unique && |unique| >= 2 then None
    else Some(Legend(supply))
  }

  /** The script fails exactly when a missing and a present type are both in the supply. */
  lemma LegendAsWrittenFails(supply: seq<Segment>)
    ensures LegendAsWritten(supply).None? <==>
      (exists k :: 0 <= k < |supply| && supply[k].rtype.None?)
      && (exists k :: 0 <= k < |supply| && supply[k].rtype.Some?)
  {
    var unique := UniqueTypes(supply);
    if (exists k :: 0 <= k < |supply| && supply[k].rtype.None?)
      && (exists k :: 0 <= k < |supply| && supply[k].rtype.Some?) {
      var j :| 0 <= j < |supply| && supply[j].rtype.None?;
      var k :| 0 <= k < |supply| && supply[k].rtype.Some?;
      assert supply[j].rtype in unique && supply[k].rtype in unique;
      var a :| 0 <= a < |unique| && unique[a] == supply[j].rtype;
      var b :| 0 <= b < |unique| && unique[b] == supply[k].rtype;
      assert a != b;
    }
    if None in unique && |unique| >= 2 {
      var other := if unique[0] == None then unique[1] else unique[0];
      assert other in unique && other.Some?;
    }
  }

  /** One wind segment and one segment with an empty type: the script raises, while the intended legend has the wind entry. */
  lemma LegendCounterexample()
    ensures LegendAsWritten(MixedSupply) == None
    ensures Legend(MixedSupply) == [LegendEntry("WIND", "#32CD32")]
  {
    LegendAsWrittenFails(MixedSupply);
    assert MixedSupply[1].rtype.None? && MixedSupply[0].rtype.Some?;
    MixedSupplyNames();
    WindColour();
  }

  /** A wind segment followed by one whose type cell is empty. */
  const MixedSupply: seq<Segment> := [Segment("A", Some("WIND"), 10.0, 5.0, "ON"), Segment("B", None, 10.0, 7.0, "ON")]

  lemma MixedSupplyNames()
    ensures LegendNames(MixedSupply) == ["WIND"]
  {
    var supply := MixedSupply;
    assert supply[..1][..0] == [];
    assert UniqueTypes(supply[..1]) == [Some("WIND")];
    assert supply[..1] == supply[..|supply| - 1];
    var unique := UniqueTypes(supply);
    assert unique == [Some("WIND"), None];
    assert unique[..1] == [Some("WIND")];
    assert PresentTypes(unique[..1]) == ["WIND"];
    assert PresentTypes(unique) == ["WIND"];
  }

  lemma WindColour()
    ensures ColorForResource(Some("WIND")) == "#32CD32"
  {
    assert Upper("WIND") == "WIND";
  }
}
