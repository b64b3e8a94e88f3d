/** backtest_segment of build_symbol_reports.py: the SMA 20/50 strategy on real-valued, positive
    closes, without NaN rows. */
module SmaBacktest {

  const FAST: nat := 20
  const SLOW: nat := 50
  const MIN_ROWS: nat := 60

  ghost predicate Prices(close: seq<real>) { forall i :: 0 <= i < |close| ==> close[i] > 0.0 }

  function Sum(xs: seq<real>): real { if xs == [] then 0.0 else xs[0] + Sum(xs[1..]) }

  /** rolling(n).mean() at i, once n rows are there. */
  function Mean(close: seq<real>, i: nat, n: nat): real
    requires n > 0 && n <= i + 1 <= |close|
  {
    Sum(close[i + 1 - n..i + 1]) / n as real
  }

  /** sma20 > sma50, false while the slow mean is still NaN. */
  predicate Signal(close: seq<real>, i: nat)
    requires i < |close|
  {
    i + 1 >= SLOW && Mean(close, i, FAST) > Mean(close, i, SLOW)
  }

  /** The executed positions: on each day yesterday's signal, flat on the first. */
  function Positions(close: seq<real>): seq<bool> {
    seq(|close|, i requires 0 <= i < |close| => i > 0 && Signal(close, i - 1))
  }

  function Return(close: seq<real>, i: nat): real
    requires i < |close| && Prices(close)
  {
    if i == 0 then 0.0 else close[i] / close[i - 1] - 1.0
  }

  /** Whether the position changes on day i, from flat before day 0. */
  predicate Switches(pos: seq<bool>, i: nat)
    requires i < |pos|
  {
    pos[i] != (i > 0 && pos[i - 1])
  }

  /** Daily strategy returns: the position's return less the fee of a switch. */
  function Daily(close: seq<real>, pos: seq<bool>, fee: real): seq<real>
    requires |pos| == |close| && Prices(close)
  {
    seq(|close|, i requires 0 <= i < |close| =>
      (if pos[i] then Return(close, i) else 0.0) - (if Switches(pos, i) then fee else 0.0))
  }

  /** cumprod(1 + x), last value. */
  function Compound(xs: seq<real>): real {
    if xs == [] then 1.0 else Compound(xs[..|xs| - 1]) * (1.0 + xs[|xs| - 1])
  }

  /** The equity after n days. */
  function Equity(close: seq<real>, fee: real, n: nat): real
    requires n <= |close| && Prices(close)
  {
    Compound(Daily(close, Positions(close), fee)[..n])
  }

  /** The equity after each number of days, from none to all. */
  function EquityCurve(close: seq<real>, fee: real): seq<real>
    requires Prices(close)
  {
    seq(|close| + 1, n requires 0 <= n <= |close| => Equity(close, fee, n))
  }

  // ---- What is held, earned and paid ----

  lemma {:induction false} SumAppend(xs: seq<real>, ys: seq<real>)
    ensures Sum(xs + ys) == Sum(xs) + Sum(ys)
  {
    if xs == [] {
      assert xs + ys == ys;
    } else {
      assert (xs + ys)[1..] == xs[1..] + ys;
      SumAppend(xs[1..], ys);
    }
  }

  lemma SumOne(x: real)
    ensures Sum([x]) == x && Sum([]) == 0.0
  {
    assert [x][1..] == [];
  }

  /** On day i the position is held exactly if fifty closes lay behind on the day before and the
      last twenty of them were higher on average than all fifty. */
  lemma HeldAfterCrossing(close: seq<real>, i: nat)
    requires i < |close|
    ensures Positions(close)[i] <==>
              i >= 50 && Sum(close[i - 20..i]) * 50.0 > Sum(close[i - 50..i]) * 20.0
  {
    if i >= 50 {
      MeansCompare(Sum(close[i - 20..i]), Sum(close[i - 50..i]));
    }
  }

  lemma MeansCompare(fast: real, slow: real)
    ensures fast / 20.0 > slow / 50.0 <==> fast * 50.0 > slow * 20.0
  {
  }

  /** A day earns the change of the close if the position is held, nothing if not, and pays the fee
      if the position differs from the day before; before the first day it is flat. */
  lemma DayEarns(close: seq<real>, pos: seq<bool>, fee: real, i: nat)
    requires |pos| == |close| && Prices(close) && i < |close|
    ensures var held, before := pos[i], i > 0 && pos[i - 1];
            var growth := if i > 0 then close[i] / close[i - 1] - 1.0 else 0.0;
            var day := Daily(close, pos, fee)[i];
            && (held && before ==> day == growth) && (held && !before ==> day == growth - fee)
            && (!held && before ==> day == 0.0 - fee) && (!held && !before ==> day == 0.0)
  {
  }

  /** Compounding starts at one, and each return multiplies by one plus itself. */
  lemma CompoundsOneByOne(xs: seq<real>, i: nat)
    requires i < |xs|
    ensures Compound(xs[..0]) == 1.0
    ensures Compound(xs[..i + 1]) == Compound(xs[..i]) * (1.0 + xs[i])
  {
    assert xs[..i + 1][..i] == xs[..i];
  }

  /** On day i the curve is multiplied by one plus the day's earnings. */
  ghost predicate Earned(curve: seq<real>, earnings: seq<real>, i: nat)
    requires i < |earnings| && |curve| == |earnings| + 1
  {
    curve[i + 1] == curve[i] * (1.0 + earnings[i])
  }

  ghost predicate CompoundCurve(curve: seq<real>, earnings: seq<real>) {
    |curve| == |earnings| + 1 && forall n :: 0 <= n <= |earnings| ==> curve[n] == Compound(earnings[..n])
  }

  lemma CurveEarns(curve: seq<real>, earnings: seq<real>, i: nat)
    requires CompoundCurve(curve, earnings) && i < |earnings|
    ensures curve[0] == 1.0 && Earned(curve, earnings, i)
  {
    CompoundsOneByOne(earnings, i);
  }

  lemma EquityIsCompound(close: seq<real>, fee: real)
    requires Prices(close)
    ensures CompoundCurve(EquityCurve(close, fee), Daily(close, Positions(close), fee))
  {
  }

  /** The equity starts at one, and each day earns what Daily says, fee included. */
  lemma EquityEarnsDays(close: seq<real>, fee: real, i: nat)
    requires Prices(close) && i < |close|
    ensures EquityCurve(close, fee)[0] == 1.0
    ensures Earned(EquityCurve(close, fee), Daily(close, Positions(close), fee), i)
  {
    EquityIsCompound(close, fee);
    CurveEarns(EquityCurve(close, fee), Daily(close, Positions(close), fee), i);
  }

  // ---- No look-ahead ----

  lemma SignalSeesPrefix(a: seq<real>, b: seq<real>, k: nat, i: nat)
    requires k <= |a| && k <= |b| && a[..k] == b[..k] && i < k
    ensures Signal(a, i) == Signal(b, i)
  {
    if i + 1 >= SLOW {
      SameSlice(a, b, k, i + 1 - FAST, i + 1);
      SameSlice(a, b, k, i + 1 - SLOW, i + 1);
    }
  }

  lemma SameSlice(a: seq<real>, b: seq<real>, k: nat, lo: nat, hi: nat)
    requires k <= |a| && k <= |b| && a[..k] == b[..k] && lo <= hi <= k
    ensures a[lo..hi] == b[lo..hi]
  {
    forall i | lo <= i < hi ensures a[i] == b[i] {
      assert a[..k][i] == a[i] && b[..k][i] == b[i];
    }
    assert forall j :: 0 <= j < hi - lo ==> a[lo..hi][j] == a[lo + j] && b[lo..hi][j] == b[lo + j];
  }

  lemma DailySeesPrefix(a: seq<real>, b: seq<real>, p: seq<bool>, q: seq<bool>, fee: real, k: nat, i: nat)
    requires |p| == |a| && |q| == |b| && i < k <= |a| && k <= |b| && Prices(a) && Prices(b)
    requires a[..k] == b[..k] && p[..k] == q[..k]
    ensures Daily(a, p, fee)[i] == Daily(b, q, fee)[i]
  {
    assert a[i] == a[..k][i] == b[i] && p[i] == p[..k][i] == q[i];
    if i > 0 {
      assert a[i - 1] == a[..k][i - 1] == b[i - 1] && p[i - 1] == p[..k][i - 1] == q[i - 1];
    }
  }

  /** Two series that agree on their first k closes get the same positions up to day k and the
      same equity up to day k - 1, whatever comes after. */
  lemma NoLookAhead(a: seq<real>, b: seq<real>, fee: real, k: nat)
    requires k <= |a| && k <= |b| && a[..k] == b[..k] && Prices(a) && Prices(b)
    ensures forall i :: 0 <= i <= k && i < |a| && i < |b| ==> Positions(a)[i] == Positions(b)[i]
    ensures forall n :: 0 <= n <= k ==> Equity(a, fee, n) == Equity(b, fee, n)
  {
    var p, q := Positions(a), Positions(b);
    forall i | 0 <= i <= k && i < |a| && i < |b| ensures p[i] == q[i] {
      if i > 0 {
        SignalSeesPrefix(a, b, k, i - 1);
      }
    }
    assert p[..k] == q[..k];
    var x, y := Daily(a, p, fee), Daily(b, q, fee);
    forall i | 0 <= i < k ensures x[i] == y[i] {
      DailySeesPrefix(a, b, p, q, fee, k, i);
    }
    forall n | 0 <= n <= k ensures Equity(a, fee, n) == Equity(b, fee, n) {
      assert x[..n] == y[..n];
    }
  }

  // ---- Trades ----

  /** A completed trade: bought on the day the position opens, sold on the day it is gone. */
  datatype Trade = Trade(entry: nat, exit: nat, gain: real)

  /** Position changes charged with a fee over the first n days. */
  function Turnover(pos: seq<bool>, n: nat): nat
    requires n <= |pos|
  {
    if n == 0 then 0 else Turnover(pos, n - 1) + (if Switches(pos, n - 1) then 1 else 0)
  }

  /** A position opened on day `entry` and held until before day i. */
  ghost predicate Running(pos: seq<bool>, entry: nat, i: nat)
    requires i <= |pos|
  {
    entry < i && Switches(pos, entry) && forall d :: entry <= d < i ==> pos[d]
  }

  /** The trade is one whole stretch of holding, priced at the closes of its two switches. */
  ghost predicate WholeStretch(close: seq<real>, pos: seq<bool>, t: Trade)
    requires Prices(close) && |pos| == |close|
  {
    && t.exit < |close| && Running(pos, t.entry, t.exit) && !pos[t.exit]
    && t.gain == close[t.exit] / close[t.entry] - 1.0
  }

  /** The completed trades of the first n days, in order and apart. */
  ghost predicate TradesSoFar(close: seq<real>, pos: seq<bool>, trades: seq<Trade>, n: nat)
    requires Prices(close) && |pos| == |close|
  {
    && (forall k :: 0 <= k < |trades| ==> WholeStretch(close, pos, trades[k]) && trades[k].exit < n)
    && (forall j, k :: 0 <= j < k < |trades| ==> trades[j].exit < trades[k].entry)
  }

  /** The trade loop.  The fees charged in vector form are two per completed trade and one for a
      position still open at the end; short series are not traded at all. */
  method Trades(close: seq<real>) returns (trades: seq<Trade>, open: bool, enough: bool)
    requires Prices(close)
    ensures enough == (|close| >= 60)
    ensures !enough ==> trades == []
    ensures enough ==>
              && Turnover(Positions(close), |close|) == 2 * |trades| + (if open then 1 else 0)
              && open == Positions(close)[|close| - 1]
              && TradesSoFar(close, Positions(close), trades, |close|)
  {
    if |close| < MIN_ROWS {
      return [], false, false;
    }
    trades, open := TradeLoop(close, Positions(close));
    enough := true;
  }

  method TradeLoop(close: seq<real>, pos: seq<bool>) returns (trades: seq<Trade>, open: bool)
    requires Prices(close) && |pos| == |close|
    ensures Turnover(pos, |pos|) == 2 * |trades| + (if open then 1 else 0)
    ensures open == (pos != [] && pos[|pos| - 1])
    ensures TradesSoFar(close, pos, trades, |close|)
  {
    trades, open := [], false;
    var entry := 0;
    for i := 0 to |close|
      invariant open == (i > 0 && pos[i - 1])
      invariant open ==> Running(pos, entry, i) && (trades != [] ==> trades[|trades| - 1].exit < entry)
      invariant Turnover(pos, i) == 2 * |trades| + (if open then 1 else 0)
      invariant TradesSoFar(close, pos, trades, i)
    {
      if pos[i] && !open {
        entry, open := i, true;
      } else if !pos[i] && open {
        trades := trades + [Trade(entry, i, close[i] / close[entry] - 1.0)];
        open := false;
      }
    }
  }

  // ---- What the equity curve earns over a trade ----

  /** Multiplying by x and then by the growth from b to c, when x is the growth from a to b. */
  lemma Grow(start: real, a: real, b: real, c: real, before: real, after: real)
    requires a > 0.0 && b > 0.0
    requires before == start * (b / a) && after == before * (1.0 + (c / b - 1.0))
    ensures after == start * (c / a)
  {
    Chain(a, b, c);
    Associate(start, b / a, 1.0 + (c / b - 1.0));
  }

  lemma Associate(x: real, y: real, z: real)
    ensures (x * y) * z == x * (y * z)
  {
  }

  lemma Chain(a: real, b: real, c: real)
    requires a > 0.0 && b > 0.0
    ensures (b / a) * (1.0 + (c / b - 1.0)) == c / a
  {
    assert b * (c / b) == c;
    assert (b / a) * (c / b) == (b * (c / b)) / a;
  }

  /** On day d the curve grows as the close does. */
  ghost predicate DayGrows(curve: seq<real>, close: seq<real>, d: nat)
    requires Prices(close) && |curve| == |close| + 1 && 0 < d < |close|
  {
    curve[d + 1] == curve[d] * (1.0 + (close[d] / close[d - 1] - 1.0))
  }

  /** A day that only holds multiplies the fee-free equity by its growth in price. */
  lemma HoldingDay(close: seq<real>, i: nat)
    requires Prices(close) && 0 < i < |close| && Positions(close)[i]
    ensures DayGrows(EquityCurve(close, 0.0), close, i)
  {
    var xs := Daily(close, Positions(close), 0.0);
    CompoundsOneByOne(xs, i);
    assert xs[i] == Return(close, i);
  }

  /** From day i to day j the curve grows as the closes do. */
  ghost predicate GrowsWith(curve: seq<real>, close: seq<real>, i: nat, j: nat)
    requires Prices(close) && |curve| == |close| + 1 && 0 < i <= j <= |close|
  {
    forall d :: i <= d < j ==> DayGrows(curve, close, d)
  }

  /** Over the days from i to j the curve is multiplied by the ratio of the closes before them. */
  ghost predicate Telescopes(curve: seq<real>, close: seq<real>, i: nat, j: nat)
    requires Prices(close) && |curve| == |close| + 1 && 0 < i <= j <= |close|
  {
    curve[j] == curve[i] * (close[j - 1] / close[i - 1])
  }

  lemma {:induction false} GrowthTelescopes(curve: seq<real>, close: seq<real>, i: nat, j: nat)
    requires Prices(close) && |curve| == |close| + 1 && 0 < i <= j <= |close|
    requires GrowsWith(curve, close, i, j)
    ensures Telescopes(curve, close, i, j)
  {
    if i == j {
      Unchanged(curve[i], close[i - 1]);
    } else {
      GrowthTelescopes(curve, close, i, j - 1);
      assert DayGrows(curve, close, j - 1);
      Grow(curve[i], close[i - 1], close[j - 2], close[j - 1], curve[j - 1], curve[j]);
    }
  }

  lemma HoldingGrows(close: seq<real>, i: nat, j: nat)
    requires Prices(close) && 0 < i <= j <= |close|
    requires forall d :: i <= d < j ==> Positions(close)[d]
    ensures GrowsWith(EquityCurve(close, 0.0), close, i, j)
  {
    var curve := EquityCurve(close, 0.0);
    forall d | i <= d < j ensures DayGrows(curve, close, d) {
      HoldingDay(close, d);
    }
  }

  /** While a position is held without fees, the equity telescopes to a ratio of closes. */
  lemma HoldingTelescopes(close: seq<real>, i: nat, j: nat)
    requires Prices(close) && 0 < i <= j <= |close|
    requires forall d :: i <= d < j ==> Positions(close)[d]
    ensures Telescopes(EquityCurve(close, 0.0), close, i, j)
  {
    HoldingGrows(close, i, j);
    GrowthTelescopes(EquityCurve(close, 0.0), close, i, j);
  }

  lemma Unchanged(start: real, a: real)
    requires a > 0.0
    ensures start == start * (a / a)
  {
    assert a / a == 1.0;
  }

  /** Over a trade's stretch the fee-free equity grows by the closes of the days before its entry
      and before its exit: one day earlier than the closes the trade itself is booked at. */
  lemma EquityEarnsADayBeforeTheTrade(close: seq<real>, t: Trade)
    requires Prices(close) && WholeStretch(close, Positions(close), t)
    ensures t.entry >= 1
    ensures Telescopes(EquityCurve(close, 0.0), close, t.entry, t.exit)
    ensures t.gain == close[t.exit] / close[t.entry] - 1.0
  {
    assert Positions(close)[t.entry];
    HoldingTelescopes(close, t.entry, t.exit);
  }
}
