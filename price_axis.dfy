/**
 * Axis scaling and tick labelling shared by the matplotlib and the dynamic
 * plotly scripts: the y-limits derived from the price range, the fixed tick
 * list filtered to those limits, the price label text, and the x-ticks every
 * 10000 MW with their "k" labels.
 */
module PriceAxis {
  import opened Wrappers
  import opened Numbers
  import opened Strings

  /** The y-axis range `[yMin, yMax]`. */
  datatype Limits = Limits(yMin: real, yMax: real)

  /**
   * y-limits for prices in `[minPrice, maxPrice]`: a 20% margin below a
   * negative minimum, otherwise 80% of the minimum but never under 0.1; the
   * top is 120% of the maximum.
   */
  function YLimits(minPrice: real, maxPrice: real): (r: Limits)
    ensures minPrice < 0.0 ==> r.yMin < minPrice
    ensures minPrice >= 0.0 ==> r.yMin >= 0.1
    ensures minPrice >= 0.1 ==> r.yMin <= minPrice
    ensures 0.0 <= minPrice < 0.1 ==> minPrice < r.yMin
    ensures maxPrice > 0.0 ==> maxPrice < r.yMax
    ensures maxPrice < 0.0 ==> r.yMax < maxPrice
    ensures maxPrice == 0.0 ==> r.yMax == 0.0
  {
    var yMin := if minPrice < 0.0 then minPrice * 1.2 else MaxReal(0.1, minPrice * 0.8);
    Limits(yMin, maxPrice * 1.2)
  }

  /**
   * Every price of a range whose minimum is negative or at least 0.1 and whose
   * maximum is not negative lies within the limits.
   */
  lemma PricesWithinLimits(minPrice: real, maxPrice: real, p: real)
    requires minPrice <= p <= maxPrice
    requires minPrice < 0.0 || minPrice >= 0.1
    requires maxPrice >= 0.0
    ensures YLimits(minPrice, maxPrice).yMin <= p <= YLimits(minPrice, maxPrice).yMax
  {
  }

  const NegativeTicks: seq<int> := [-5000, -2500, -1000, -500, -250, -100, -50, -25, -10, -1]
  const PositiveTicks: seq<int> := [0, 1, 10, 25, 50, 100, 250, 500, 1000, 1500, 2000, 2500, 3000, 4000, 5000]

  /** The tick list before filtering: the negative ticks only for a negative minimum. */
  function CandidateTicks(minPrice: real): seq<int>
  {
    if minPrice < 0.0 then NegativeTicks + PositiveTicks else PositiveTicks
  }

  predicate Increasing(s: seq<int>)
  {
    forall i, j :: 0 <= i < j < |s| ==> s[i] < s[j]
  }

  lemma CandidateTicksIncreasing(minPrice: real)
    ensures Increasing(CandidateTicks(minPrice))
  {
  }

  /** `[y for y in ticks if y_min <= y <= y_max]`. */
  function FilterTicks(ticks: seq<int>, lim: Limits): (r: seq<int>)
    ensures forall t :: t in r <==> t in ticks && lim.yMin <= t as real <= lim.yMax
  {
    if ticks == [] then []
    else
      (if lim.yMin <= ticks[0] as real <= lim.yMax then [ticks[0]] else [])
      + FilterTicks(ticks[1..], lim)
  }

  /** Filtering keeps the relative order: an increasing list stays increasing. */
  lemma {:induction false} FilterTicksIncreasing(ticks: seq<int>, lim: Limits)
    requires Increasing(ticks)
    ensures Increasing(FilterTicks(ticks, lim))
    decreases |ticks|
  {
    if ticks != [] {
      var rest := FilterTicks(ticks[1..], lim);
      FilterTicksIncreasing(ticks[1..], lim);
      forall t | t in rest ensures ticks[0] < t {
        var k :| 0 <= k < |ticks[1..]| && ticks[1..][k] == t;
        assert ticks[k + 1] == t;
      }
      var r := FilterTicks(ticks, lim);
      if lim.yMin <= ticks[0] as real <= lim.yMax {
        assert r == [ticks[0]] + rest;
        forall i, j | 0 <= i < j < |r| ensures r[i] < r[j] {
          if i == 0 {
            assert r[j] == rest[j - 1];
            assert rest[j - 1] in rest;
          } else {
            assert r[i] == rest[i - 1] && r[j] == rest[j - 1];
          }
        }
      } else {
        assert r == rest;
      }
    }
  }

  /**
   * The y-ticks: exactly the candidate ticks inside the limits, in increasing
   * order; with a non-negative minimum no tick is negative, and 0 is dropped
   * too because the lower limit is then at least 0.1.
   */
  function YTicks(minPrice: real, maxPrice: real): (r: seq<int>)
    ensures forall t :: t in r <==>
      t in CandidateTicks(minPrice)
      && YLimits(minPrice, maxPrice).yMin <= t as real <= YLimits(minPrice, maxPrice).yMax
    ensures Increasing(r)
    ensures minPrice >= 0.0 ==> forall k :: 0 <= k < |r| ==> r[k] >= 1
  {
    CandidateTicksIncreasing(minPrice);
    FilterTicksIncreasing(CandidateTicks(minPrice), YLimits(minPrice, maxPrice));
    var r := FilterTicks(CandidateTicks(minPrice), YLimits(minPrice, maxPrice));
    assert forall k :: 0 <= k < |r| ==> r[k] in r;
    r
  }

  /** A negative tick appears only when some price is negative. */
  lemma NegativeTickNeedsNegativePrice(minPrice: real, maxPrice: real, t: int)
    requires t in YTicks(minPrice, maxPrice) && t < 0
    ensures minPrice < 0.0
  {
  }

  /**
   * `format_price_labels` on the integer ticks the scripts pass it: magnitudes
   * below 1000 and multiples of 100. The first branch below 1 never applies
   * to a nonzero integer.
   */
  function FormatPriceLabel(x: int): (r: string)
    requires -1000 < x < 1000 || x % 100 == 0
    ensures x == 0 ==> r == "0"
    ensures 0 < Abs(x) < 500 ==> r == IntToString(x)
    ensures 500 <= Abs(x) < 1000 ==> r == IntToString(if x > 0 then 500 else -500)
    ensures Abs(x) >= 1000 ==> |r| >= 2 && r[|r| - 1] == 'k'
  {
    if x == 0 then "0"
    else if Abs(x) < 500 then IntToString(x)
    else if Abs(x) < 1000 then IntToString(Truncate(x as real / 500.0) * 500)
    else if x % 1000 == 0 then IntToString(x / 1000) + "k"
    else
      var m := Abs(x) / 100;
      IntToString(if x < 0 then -(m / 10) else m / 10) + "." + [DigitChar(m % 10)] + "k"
  }

  /** Reads a label back: an integer, or thousands with an optional single decimal and a "k". */
  function ReadLabel(s: string): Option<int>
  {
    if |s| > 0 && s[|s| - 1] == 'k' then ReadThousands(s[..|s| - 1]) else ParseInt(s)
  }

  function ReadThousands(t: string): Option<int>
  {
    if |t| >= 3 && t[|t| - 2] == '.' && IsDigit(t[|t| - 1]) then
      match ParseInt(t[..|t| - 2])
      case None => None
      case Some(w) =>
        var d := t[|t| - 1] as int - '0' as int;
        Some(if t[0] == '-' then w * 1000 - d * 100 else w * 1000 + d * 100)
    else
      match ParseInt(t)
      case None => None
      case Some(w) => Some(w * 1000)
  }

  /** A label of the integer branches is a plain integer, with no "k". */
  lemma {:induction false} IntLabelReadsBack(v: int)
    ensures ReadLabel(IntToString(v)) == Some(v)
  {
    var r := IntToString(v);
    IntToStringRoundTrip(v);
    assert IsDigit(r[|r| - 1]) by {
      if v < 0 {
        assert r[|r| - 1] == r[1..][|r| - 2];
      }
    }
  }

  /** A whole number of thousands `w` written as `str(w) + "k"` reads back as `1000 * w`. */
  lemma WholeThousandsReadBack(w: int)
    ensures ReadLabel(IntToString(w) + "k") == Some(w * 1000)
  {
    var t := IntToString(w);
    var r := t + "k";
    IntToStringRoundTrip(w);
    assert r[..|r| - 1] == t;
    assert !(|t| >= 3 && t[|t| - 2] == '.') by {
      if |t| >= 3 {
        if w < 0 {
          assert t[|t| - 2] == t[1..][|t| - 3];
        }
        assert IsDigit(t[|t| - 2]);
      }
    }
  }

  /** One decimal of thousands, `±q.d` followed by "k", reads back as `±(1000 * q + 100 * d)`. */
  lemma DecimalThousandsReadBack(q: nat, d: nat, negative: bool)
    requires q >= 1 && d < 10
    ensures ReadLabel(IntToString(if negative then -(q as int) else q) + "." + [DigitChar(d)] + "k")
      == Some(if negative then -(q * 1000 + d * 100) else q * 1000 + d * 100)
  {
    var whole := if negative then -(q as int) else q;
    var w := IntToString(whole);
    var t := w + "." + [DigitChar(d)];
    var r := t + "k";
    assert r[..|r| - 1] == t;
    assert t[..|t| - 2] == w;
    IntToStringRoundTrip(whole);
    assert t[0] == w[0];
    assert t[0] == '-' <==> negative by {
      if !negative {
        assert IsDigit(w[0]);
      }
    }
  }

  lemma ThousandsLabelReadsBack(x: int)
    requires Abs(x) >= 1000 && x % 100 == 0
    ensures ReadLabel(FormatPriceLabel(x)) == Some(x)
  {
    if x % 1000 == 0 {
      WholeThousandsReadBack(x / 1000);
      assert FormatPriceLabel(x) == IntToString(x / 1000) + "k";
      assert x / 1000 * 1000 == x;
    } else {
      var m := Abs(x) / 100;
      DecimalThousandsReadBack(m / 10, m % 10, x < 0);
      assert FormatPriceLabel(x)
        == IntToString(if x < 0 then -(m / 10) else m / 10) + "." + [DigitChar(m % 10)] + "k";
      assert (m / 10) * 1000 + (m % 10) * 100 == m * 100;
      assert m * 100 == Abs(x);
    }
  }

  /**
   * A price label names the tick it labels, except that magnitudes from 500
   * up to 1000 are truncated towards zero to a multiple of 500.
   */
  lemma FormatPriceLabelReadsBack(x: int)
    requires -1000 < x < 1000 || x % 100 == 0
    ensures Abs(x) < 500 || Abs(x) >= 1000 ==> ReadLabel(FormatPriceLabel(x)) == Some(x)
    ensures 500 <= Abs(x) < 1000 ==> ReadLabel(FormatPriceLabel(x)) == Some(if x > 0 then 500 else -500)
  {
    if Abs(x) < 1000 {
      var v := if Abs(x) < 500 then x else if x > 0 then 500 else -500;
      IntLabelReadsBack(v);
      assert FormatPriceLabel(x) == IntToString(v);
    } else {
      ThousandsLabelReadsBack(x);
    }
  }

  /** `np.arange(0, stop, 10000)` and `range(0, stop, 10000)`: the multiples of 10000 below `stop`. */
  function TickRange(stop: real): (r: seq<int>)
    ensures forall k :: 0 <= k < |r| ==> r[k] == 10000 * k && (r[k] as real) < stop
    ensures (|r| * 10000) as real >= stop
  {
    var y := stop / 10000.0;
    var n: nat := if y <= 0.0 then 0 else if y.Floor as real == y then y.Floor else y.Floor + 1;
    seq(n, k requires 0 <= k < n => 10000 * k)
  }

  /** The matplotlib x-ticks: stop at `max_mw + 10000`, so the last tick reaches the largest load. */
  function XTicks(maxMw: real): (r: seq<int>)
    ensures maxMw >= 0.0 ==> |r| > 0 && (r[|r| - 1] as real) >= maxMw
  {
    TickRange(maxMw + 10000.0)
  }

  /**
   * The plotly x-ticks stop at `int(max_capacity) + 10000`: the last tick
   * reaches the truncated largest load, which may fall short of the load itself.
   */
  function PlotlyXTicks(maxCapacity: real): (r: seq<int>)
    ensures maxCapacity >= 0.0 ==> |r| > 0 && r[|r| - 1] >= Truncate(maxCapacity)
  {
    TickRange((Truncate(maxCapacity) + 10000) as real)
  }

  /** The label of an x-tick: thousands with a "k", and "0" at or below zero. */
  function XTickLabel(x: int): (r: string)
    ensures x <= 0 ==> r == "0"
    ensures x > 0 ==> |r| >= 2 && r[|r| - 1] == 'k'
  {
    if x > 0 then IntToString(Truncate(x as real / 1000.0)) + "k" else "0"
  }

  /** Every x-tick's label reads back as the tick itself. */
  lemma XTickLabelReadsBack(k: nat)
    ensures ReadLabel(XTickLabel(10000 * k)) == Some(10000 * k)
  {
    if k == 0 {
      IntLabelReadsBack(0);
    } else {
      assert Truncate((10000 * k) as real / 1000.0) == 10 * k;
      WholeThousandsReadBack(10 * k);
    }
  }
}
