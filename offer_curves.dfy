/**
 * Expansion of a generator's offer curve into incremental MW segments.
 *
 * Every script walks a row's curve, a list of `[cumulative_mw, price]` points,
 * with a running `prev_mw` that starts at 0. A point that is not a pair is
 * skipped and leaves `prev_mw` alone; a pair emits a segment of width
 * `cumulative_mw - prev_mw` at the pair's price when that width is positive,
 * and then moves `prev_mw` to its own MW.
 */
module OfferCurves {
  import opened Wrappers

  /**
   * A row's offer-curve cell. pandas reads an empty cell as NaN, a float
   * that is neither parsed nor skipped; text that is not a Python literal
   * is skipped; any other cell holds its list of points.
   */
  datatype CurveCell = EmptyCell | Unparsable | Parsed(points: seq<seq<real>>)

  /**
   * One CSV row: a resource's name, its type (None for an empty cell, which
   * pandas reads as NaN), its telemetered status and its offer-curve cell.
   */
  datatype Resource = Resource(
    name: string,
    rtype: Option<string>,
    status: string,
    curve: CurveCell)

  /** One entry of `expanded_data`: an incremental slice of a resource's offer. */
  datatype Segment = Segment(
    name: string,
    rtype: Option<string>,
    mw: real,
    price: real,
    status: string)

  /** The `len(point) == 2` test. */
  predicate IsPair(point: seq<real>)
  {
    |point| == 2
  }

  /** Segments emitted for `points` when the walk starts with `prev_mw == prev`. */
  function Expand(r: Resource, points: seq<seq<real>>, prev: real): seq<Segment>
  {
    if points == [] then []
    else if IsPair(points[0]) then
      var increment := points[0][0] - prev;
      (if increment > 0.0 then [Segment(r.name, r.rtype, increment, points[0][1], r.status)] else [])
      + Expand(r, points[1..], points[0][0])
    else Expand(r, points[1..], prev)
  }

  /** The value of `prev_mw` once the walk over `points` is over. */
  function PrevAfter(points: seq<seq<real>>, prev: real): real
  {
    if points == [] then prev
    else PrevAfter(points[1..], if IsPair(points[0]) then points[0][0] else prev)
  }

  /** The pairs of a curve, in order. */
  function Pairs(points: seq<seq<real>>): (r: seq<seq<real>>)
    ensures forall j :: 0 <= j < |r| ==> |r[j]| == 2
  {
    if points == [] then []
    else (if IsPair(points[0]) then [points[0]] else []) + Pairs(points[1..])
  }

  /**
   * Segments a whole row contributes: nothing for an unparsable or empty
   * curve. An empty cell has none either; the loading step fails on it
   * before any later row is read.
   */
  function RowSegments(r: Resource): seq<Segment>
  {
    match r.curve
    case EmptyCell => []
    case Unparsable => []
    case Parsed(points) => if points == [] then [] else Expand(r, points, 0.0)
  }

  /** `expanded_data` after the loop over `rows`. */
  function ExpandAll(rows: seq<Resource>): seq<Segment>
  {
    if rows == [] then []
    else ExpandAll(rows[..|rows| - 1]) + RowSegments(rows[|rows| - 1])
  }

  /** Sum of the segments' widths (`df['mw'].sum()`). */
  function TotalMw(s: seq<Segment>): real
  {
    if s == [] then 0.0 else TotalMw(s[..|s| - 1]) + s[|s| - 1].mw
  }

  lemma {:induction false} TotalMwAppend(a: seq<Segment>, b: seq<Segment>)
    ensures TotalMw(a + b) == TotalMw(a) + TotalMw(b)
    decreases |b|
  {
    if b != [] {
      assert (a + b)[..|a + b| - 1] == a + b[..|b| - 1];
      assert (a + b)[|a + b| - 1] == b[|b| - 1];
      TotalMwAppend(a, b[..|b| - 1]);
      assert TotalMw(a + b) == TotalMw(a + b[..|b| - 1]) + b[|b| - 1].mw;
    } else {
      assert a + b == a;
    }
  }

  /** A prefix one segment longer adds that segment's width. */
  lemma TotalMwStep(s: seq<Segment>, i: nat)
    requires i < |s|
    ensures TotalMw(s[..i + 1]) == TotalMw(s[..i]) + s[i].mw
  {
    assert s[..i + 1][..i] == s[..i];
  }

  /** The MW of a prefix is that of a shorter prefix plus that of the rows between them. */
  lemma TotalMwSplit(s: seq<Segment>, a: nat, b: nat)
    requires a <= b <= |s|
    ensures TotalMw(s[..b]) == TotalMw(s[..a]) + TotalMw(s[a..b])
  {
    assert s[..b] == s[..a] + s[a..b];
    TotalMwAppend(s[..a], s[a..b]);
  }

  lemma {:induction false} TotalMwPositive(s: seq<Segment>)
    requires forall k :: 0 <= k < |s| ==> s[k].mw > 0.0
    ensures s != [] ==> TotalMw(s) > 0.0
    ensures TotalMw(s) >= 0.0
    decreases |s|
  {
    if s != [] {
      TotalMwPositive(s[..|s| - 1]);
    }
  }

  lemma {:induction false} ExpandAllAppend(a: seq<Resource>, b: seq<Resource>)
    ensures ExpandAll(a + b) == ExpandAll(a) + ExpandAll(b)
    decreases |b|
  {
    if b != [] {
      assert (a + b)[..|a + b| - 1] == a + b[..|b| - 1];
      assert (a + b)[|a + b| - 1] == b[|b| - 1];
      ExpandAllAppend(a, b[..|b| - 1]);
      assert ExpandAll(a + b) == ExpandAll(a + b[..|b| - 1]) + RowSegments(b[|b| - 1]);
    } else {
      assert a + b == a;
    }
  }

  /**
   * Every emitted segment has a positive width and carries the row's name,
   * type and status; its price is the price of a pair of the curve, and its
   * width is that pair's MW less the value `prev_mw` had on reaching it.
   */
  lemma {:induction false} ExpandEmitsClosedSegments(r: Resource, points: seq<seq<real>>, prev: real)
    ensures forall s :: s in Expand(r, points, prev) ==>
      && s.mw > 0.0
      && s.name == r.name && s.rtype == r.rtype && s.status == r.status
      && exists j :: 0 <= j < |points| && IsPair(points[j])
           && s.price == points[j][1]
           && s.mw == points[j][0] - PrevAfter(points[..j], prev)
    decreases |points|
  {
    if points != [] {
      var next := if IsPair(points[0]) then points[0][0] else prev;
      ExpandEmitsClosedSegments(r, points[1..], next);
      forall s | s in Expand(r, points, prev)
        ensures && s.mw > 0.0
                && s.name == r.name && s.rtype == r.rtype && s.status == r.status
                && exists j :: 0 <= j < |points| && IsPair(points[j])
                     && s.price == points[j][1]
                     && s.mw == points[j][0] - PrevAfter(points[..j], prev)
      {
        if s in Expand(r, points[1..], next) {
          var j :| 0 <= j < |points[1..]| && IsPair(points[1..][j])
                   && s.price == points[1..][j][1]
                   && s.mw == points[1..][j][0] - PrevAfter(points[1..][..j], next);
          assert points[..j + 1][1..] == points[1..][..j];
          assert PrevAfter(points[..j + 1], prev) == PrevAfter(points[1..][..j], next);
          assert points[j + 1] == points[1..][j];
        } else {
          assert IsPair(points[0]) && s.price == points[0][1];
          assert PrevAfter(points[..0], prev) == prev;
        }
      }
    }
  }

  /** Points that are not pairs emit nothing and do not move `prev_mw`. */
  lemma {:induction false} ExpandIgnoresNonPairs(r: Resource, points: seq<seq<real>>, prev: real)
    ensures Expand(r, points, prev) == Expand(r, Pairs(points), prev)
    ensures PrevAfter(points, prev) == PrevAfter(Pairs(points), prev)
    decreases |points|
  {
    if points != [] {
      if IsPair(points[0]) {
        ExpandIgnoresNonPairs(r, points[1..], points[0][0]);
        assert Pairs(points) == [points[0]] + Pairs(points[1..]);
        assert (Pairs(points))[1..] == Pairs(points[1..]);
      } else {
        ExpandIgnoresNonPairs(r, points[1..], prev);
        assert Pairs(points) == Pairs(points[1..]);
      }
    }
  }

  /** MW of consecutive pairs never decreases, and the first is at least `prev`. */
  predicate MonotoneFrom(pairs: seq<seq<real>>, prev: real)
    requires forall j :: 0 <= j < |pairs| ==> |pairs[j]| == 2
  {
    && (|pairs| > 0 ==> prev <= pairs[0][0])
    && forall j :: 0 < j < |pairs| ==> pairs[j - 1][0] <= pairs[j][0]
  }

  /** On a monotone curve the increments telescope: their sum is the last MW less `prev`. */
  lemma {:induction false} ExpandTelescopes(r: Resource, pairs: seq<seq<real>>, prev: real)
    requires forall j :: 0 <= j < |pairs| ==> |pairs[j]| == 2
    requires MonotoneFrom(pairs, prev)
    ensures TotalMw(Expand(r, pairs, prev)) == PrevAfter(pairs, prev) - prev
    ensures pairs != [] ==> PrevAfter(pairs, prev) == pairs[|pairs| - 1][0]
    decreases |pairs|
  {
    if pairs != [] {
      var rest := pairs[1..];
      assert MonotoneFrom(rest, pairs[0][0]) by {
        forall j | 0 < j < |rest| ensures rest[j - 1][0] <= rest[j][0] {
          assert rest[j - 1] == pairs[j] && rest[j] == pairs[j + 1];
        }
        if |rest| > 0 {
          assert rest[0] == pairs[1];
        }
      }
      ExpandTelescopes(r, rest, pairs[0][0]);
      var increment := pairs[0][0] - prev;
      var head: seq<Segment> := if increment > 0.0 then [Segment(r.name, r.rtype, increment, pairs[0][1], r.status)] else [];
      TotalMwAppend(head, Expand(r, rest, pairs[0][0]));
      if increment > 0.0 {
        assert TotalMw(head) == TotalMw(head[..0]) + increment;
      }
    }
  }

  /**
   * When a row's pairs have non-negative, non-decreasing MW, its segment
   * widths add up to the MW of its last pair.
   */
  lemma RowSegmentsTotal(r: Resource)
    requires r.curve.Parsed?
    requires forall j :: 0 <= j < |Pairs(r.curve.points)| ==> Pairs(r.curve.points)[j][0] >= 0.0
    requires MonotoneFrom(Pairs(r.curve.points), 0.0)
    ensures var pairs := Pairs(r.curve.points);
      TotalMw(RowSegments(r)) == if pairs == [] then 0.0 else pairs[|pairs| - 1][0]
  {
    var points := r.curve.points;
    ExpandIgnoresNonPairs(r, points, 0.0);
    ExpandTelescopes(r, Pairs(points), 0.0);
  }
}
