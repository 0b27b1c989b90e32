/** The signal and P&L rules of `Server._calc_signal` and `Server._calc_pnl`.
    A price frame is a sequence of columns, one per ticker, each a sequence of
    prices over the same rows. Python's NaN is `None`. The rolling mean and
    sample standard deviation are inputs, not computed here. */
module Analytics {
  import opened Wrappers
  import opened PyText

  // ---------------------------------------------------------------------------
  // Window length: `24 * (60 // int(freq.split("m")[0]))`

  datatype FrequencyError =
    | NotAnInteger(text: string)  // int() raised ValueError
    | ZeroMinutes                 // 60 // 0 raised ZeroDivisionError
    | NegativeWindow(window: int) // rolling() refuses a negative window: ValueError

  /** Python's `a // b`: the quotient rounded towards minus infinity. */
  function FloorDiv(a: int, b: int): (q: int)
    requires b != 0
    ensures b > 0 ==> q * b <= a < q * b + b
    ensures b < 0 ==> q * b >= a > q * b + b
  {
    if b > 0 then a / b else (-a) / (-b)
  }

  /** The number of rows of the rolling window for sampling frequency `freq`,
      such as "1min" or "5min". */
  function WindowLength(freq: string): (r: Result<int, FrequencyError>)
    ensures r.Ok? <==> ParseInt(BeforeFirst(freq, 'm')).Some? && ParseInt(BeforeFirst(freq, 'm')).value > 0
    ensures r.Ok? ==>
      var n := ParseInt(BeforeFirst(freq, 'm')).value;
      // a multiple of 24 rows spanning at most one day, short of it by less than 24 rows
      r.value >= 0 && r.value % 24 == 0 && r.value * n <= 1440 < r.value * n + 24 * n
  {
    var text := BeforeFirst(freq, 'm');
    match ParseInt(text)
    case None => Err(NotAnInteger(text))
    case Some(n) =>
      if n == 0 then Err(ZeroMinutes)
      else
        WindowArithmetic(n);
        var window := 24 * FloorDiv(60, n);
        if window < 0 then Err(NegativeWindow(window)) else Ok(window)
  }

  /** `24 * (60 // n)` is non-negative exactly for positive `n`. It then spans
      at most one day, short of it by `24 * (60 % n)` minutes: less than 24
      sampling periods, and nothing when `n` divides 60. */
  lemma WindowArithmetic(n: int)
    requires n != 0
    ensures var w := 24 * FloorDiv(60, n);
      (w >= 0 <==> n > 0) && (n > 0 ==> w % 24 == 0 && w * n <= 1440 < w * n + 24 * n)
    ensures n > 0 ==> 1440 - 24 * FloorDiv(60, n) * n == 24 * (60 % n)
  {
    var q := FloorDiv(60, n);
    if n > 0 {
      assert (q + 1) * n > 60;
      if q < 0 {
        NonPositiveProduct(q + 1, n);
      }
      assert q >= 0;
      assert (24 * q) * n == 24 * (q * n);
    } else {
      assert q * n >= 60;
      assert q < 0;
    }
  }

  lemma ShortDigits(n: nat)
    requires n < 100
    ensures |Digits(n)| <= 2
  {
    if n >= 10 {
      assert Digits(n) == Digits(n / 10) + [DigitChar(n % 10)];
    }
  }

  lemma NonPositiveProduct(a: int, b: int)
    requires a <= 0 && b > 0
    ensures a * b <= 0
  {
  }

  /** When the sampling period divides an hour, the window spans exactly one day. */
  lemma WindowSpansOneDay(n: int, suffix: string)
    requires 0 < n && 60 % n == 0
    ensures WindowLength(DecimalString(n) + "m" + suffix) == Ok(24 * (60 / n))
    ensures 24 * (60 / n) * n == 1440
  {
    WholeHour(n);
    ShortDigits(n);
    FrequencyText(n, suffix);
  }

  /** The number before the first "m" of a frequency written as digits. */
  lemma FrequencyText(n: nat, suffix: string)
    requires |Digits(n)| <= MAX_STR_DIGITS
    ensures ParseInt(BeforeFirst(DecimalString(n) + "m" + suffix, 'm')) == Some(n)
  {
    var freq := DecimalString(n) + "m" + suffix;
    NoLetterInDecimal(n);
    assert BeforeFirst(freq, 'm') == DecimalString(n) by {
      BeforeFirstStops(DecimalString(n), 'm', suffix);
      assert freq == DecimalString(n) + (['m'] + suffix);
    }
    ParseDecimalString(n);
  }

  lemma WholeHour(n: int)
    requires 0 < n && 60 % n == 0
    ensures FloorDiv(60, n) == 60 / n && 24 * (60 / n) * n == 1440
    ensures n <= 60
  {
    assert (60 / n) * n == 60;
    assert 24 * (60 / n) * n == 24 * ((60 / n) * n);
  }

  lemma NoLetterInDecimal(n: int)
    ensures 'm' !in DecimalString(n)
  {
  }

  lemma {:induction false} BeforeFirstStops(s: string, sep: char, rest: string)
    requires sep !in s
    ensures BeforeFirst(s + ([sep] + rest), sep) == s
    decreases |s|
  {
    if s != [] {
      BeforeFirstStops(s[1..], sep, rest);
      assert (s + ([sep] + rest))[1..] == s[1..] + ([sep] + rest);
    }
  }

  /** The default frequency "1min" gives a window of 1440 rows. */
  lemma DefaultWindow()
    ensures WindowLength("1min") == Ok(1440)
  {
    WindowSpansOneDay(1, "in");
    assert DecimalString(1) + "m" + "in" == "1min";
  }

  // ---------------------------------------------------------------------------
  // Signal: mask the crossings of the bands, then forward-fill

  /** `a + b` on two possibly-NaN numbers. */
  function AddOpt(a: Option<real>, b: Option<real>): Option<real> {
    if a.Some? && b.Some? then Some(a.value + b.value) else None
  }

  /** `a - b` on two possibly-NaN numbers. */
  function SubOpt(a: Option<real>, b: Option<real>): Option<real> {
    if a.Some? && b.Some? then Some(a.value - b.value) else None
  }

  /** The rolling mean and sample standard deviation of one ticker, row by row. */
  datatype Rolling = Rolling(mean: seq<Option<real>>, std: seq<Option<real>>)

  predicate Aligned(prices: seq<real>, rolling: Rolling) {
    |rolling.mean| == |prices| && |rolling.std| == |prices|
  }

  /** `prices > S_avg + S_sigma` at row `t`; every comparison with NaN is False. */
  predicate AboveBand(prices: seq<real>, rolling: Rolling, t: nat)
    requires Aligned(prices, rolling) && t < |prices|
  {
    var band := AddOpt(rolling.mean[t], rolling.std[t]);
    band.Some? && prices[t] > band.value
  }

  /** `prices < S_avg - S_sigma` at row `t`. */
  predicate BelowBand(prices: seq<real>, rolling: Rolling, t: nat)
    requires Aligned(prices, rolling) && t < |prices|
  {
    var band := SubOpt(rolling.mean[t], rolling.std[t]);
    band.Some? && prices[t] < band.value
  }

  /** A column of NaN: the signal frame as created. */
  function Unset(n: nat): (col: seq<Option<int>>)
    ensures |col| == n
  {
    seq(n, t => None)
  }

  /** `col.mask(cond, v)`: `v` where `cond` holds, `col` elsewhere. */
  function Mask(col: seq<Option<int>>, cond: seq<bool>, v: int): (r: seq<Option<int>>)
    requires |cond| == |col|
    ensures |r| == |col|
  {
    seq(|col|, t requires 0 <= t < |col| => if cond[t] then Some(v) else col[t])
  }

  /** The column of the two masks before forward-filling: +1 above the upper
      band, then -1 below the lower band. */
  function Marks(prices: seq<real>, rolling: Rolling): (col: seq<Option<int>>)
    requires Aligned(prices, rolling)
    ensures |col| == |prices|
  {
    var n := |prices|;
    var above := seq(n, t requires 0 <= t < n => AboveBand(prices, rolling, t));
    var below := seq(n, t requires 0 <= t < n => BelowBand(prices, rolling, t));
    Mask(Mask(Unset(n), above, 1), below, -1)
  }

  /** `ffill`: every NaN takes the last value above it; leading NaN stay. */
  function ForwardFill(col: seq<Option<int>>): (r: seq<Option<int>>)
    ensures |r| == |col|
    ensures forall t :: 0 <= t < |col| && col[t].Some? ==> r[t] == col[t]
    ensures forall t :: 0 < t < |col| && col[t].None? ==> r[t] == r[t - 1]
    ensures |col| > 0 && col[0].None? ==> r[0].None?
    decreases |col|
  {
    if col == [] then []
    else
      var filled := ForwardFill(col[..|col| - 1]);
      var last := col[|col| - 1];
      filled + [if last.Some? || filled == [] then last else filled[|filled| - 1]]
  }

  /** The signal column of one ticker. */
  function SignalColumn(prices: seq<real>, rolling: Rolling): (col: seq<Option<int>>)
    requires Aligned(prices, rolling)
    ensures |col| == |prices|
  {
    ForwardFill(Marks(prices, rolling))
  }

  /** The second mask overrides the first: a point below the lower band is
      marked -1, one only above the upper band +1, any other point is NaN. */
  lemma MarkAt(prices: seq<real>, rolling: Rolling, t: nat)
    requires Aligned(prices, rolling) && t < |prices|
    ensures Marks(prices, rolling)[t] ==
      if BelowBand(prices, rolling, t) then Some(-1)
      else if AboveBand(prices, rolling, t) then Some(1)
      else None
  {
  }

  /** A forward-filled point is the value of the last non-NaN point at or
      before it, and NaN exactly when there is none. */
  lemma {:induction false} FilledIsLastValue(col: seq<Option<int>>, t: nat)
    requires t < |col|
    ensures ForwardFill(col)[t].Some? <==> exists j :: 0 <= j <= t && col[j].Some?
    ensures ForwardFill(col)[t].Some? ==>
      exists j :: 0 <= j <= t && col[j] == ForwardFill(col)[t] && forall k :: j < k <= t ==> col[k].None?
    decreases t
  {
    var r := ForwardFill(col);
    if col[t].Some? {
    } else if t == 0 {
    } else {
      FilledIsLastValue(col, t - 1);
      if r[t].Some? {
        var j :| 0 <= j <= t - 1 && col[j] == r[t - 1] && forall k :: j < k <= t - 1 ==> col[k].None?;
        assert forall k :: j < k <= t ==> col[k].None?;
      }
    }
  }

  /** Every signal is NaN, +1 or -1; never 0. */
  lemma SignalValues(prices: seq<real>, rolling: Rolling, t: nat)
    requires Aligned(prices, rolling) && t < |prices|
    ensures var s := SignalColumn(prices, rolling)[t]; s == None || s == Some(1) || s == Some(-1)
  {
    var marks := Marks(prices, rolling);
    FilledIsLastValue(marks, t);
    if SignalColumn(prices, rolling)[t].Some? {
      var j :| 0 <= j <= t && marks[j] == SignalColumn(prices, rolling)[t];
      MarkAt(prices, rolling, j);
    }
  }

  /** A point below the lower band is -1, even when it is also above the upper band. */
  lemma ShortWins(prices: seq<real>, rolling: Rolling, t: nat)
    requires Aligned(prices, rolling) && t < |prices|
    requires BelowBand(prices, rolling, t)
    ensures SignalColumn(prices, rolling)[t] == Some(-1)
  {
    MarkAt(prices, rolling, t);
  }

  /** A point above the upper band and not below the lower band is +1. */
  lemma LongAboveBand(prices: seq<real>, rolling: Rolling, t: nat)
    requires Aligned(prices, rolling) && t < |prices|
    requires AboveBand(prices, rolling, t) && !BelowBand(prices, rolling, t)
    ensures SignalColumn(prices, rolling)[t] == Some(1)
  {
    MarkAt(prices, rolling, t);
  }

  /** A point that crosses neither band carries the previous row's signal. */
  lemma QuietPointCarries(prices: seq<real>, rolling: Rolling, t: nat)
    requires Aligned(prices, rolling) && 0 < t < |prices|
    requires !AboveBand(prices, rolling, t) && !BelowBand(prices, rolling, t)
    ensures SignalColumn(prices, rolling)[t] == SignalColumn(prices, rolling)[t - 1]
  {
    MarkAt(prices, rolling, t);
  }

  /** A signal is NaN exactly until the first crossing of either band. */
  lemma UnsetUntilFirstCrossing(prices: seq<real>, rolling: Rolling, t: nat)
    requires Aligned(prices, rolling) && t < |prices|
    ensures SignalColumn(prices, rolling)[t].None? <==>
      forall j :: 0 <= j <= t ==> !AboveBand(prices, rolling, j) && !BelowBand(prices, rolling, j)
  {
    var marks := Marks(prices, rolling);
    FilledIsLastValue(marks, t);
    forall j | 0 <= j <= t
      ensures marks[j].Some? <==> AboveBand(prices, rolling, j) || BelowBand(prices, rolling, j)
    {
      MarkAt(prices, rolling, j);
    }
  }

  /** Rows where the rolling mean or deviation is still NaN leave the signal
      NaN up to the first row where both exist. */
  lemma UnsetBeforeBands(prices: seq<real>, rolling: Rolling, t: nat)
    requires Aligned(prices, rolling) && t < |prices|
    requires forall j :: 0 <= j <= t ==> rolling.mean[j].None? || rolling.std[j].None?
    ensures SignalColumn(prices, rolling)[t].None?
  {
    UnsetUntilFirstCrossing(prices, rolling, t);
  }

  /** `_calc_signal`: the column-by-column masking loop, then `ffill`. Each
      ticker's signal depends only on its own prices and rolling statistics. */
  method CalcSignal(prices: seq<seq<real>>, rolling: seq<Rolling>) returns (signals: seq<seq<Option<int>>>)
    requires |rolling| == |prices|
    requires forall c :: 0 <= c < |prices| ==> Aligned(prices[c], rolling[c])
    ensures |signals| == |prices|
    ensures forall c :: 0 <= c < |prices| ==> signals[c] == SignalColumn(prices[c], rolling[c])
  {
    var masked := seq(|prices|, c requires 0 <= c < |prices| => Unset(|prices[c]|));
    for c := 0 to |prices|
      invariant |masked| == |prices|
      invariant forall k :: 0 <= k < c ==> masked[k] == Marks(prices[k], rolling[k])
      invariant forall k :: c <= k < |prices| ==> masked[k] == Unset(|prices[k]|)
    {
      var n := |prices[c]|;
      var above := seq(n, t requires 0 <= t < n => AboveBand(prices[c], rolling[c], t));
      var below := seq(n, t requires 0 <= t < n => BelowBand(prices[c], rolling[c], t));
      masked := masked[c := Mask(masked[c], above, 1)];
      masked := masked[c := Mask(masked[c], below, -1)];
    }
    signals := seq(|masked|, c requires 0 <= c < |masked| => ForwardFill(masked[c]));
  }

  // ---------------------------------------------------------------------------
  // P&L: `signals * prices.diff().shift(-1)`

  /** `prices.diff()`: the change from the row before; NaN in the first row. */
  function Diff(prices: seq<real>): (d: seq<Option<real>>)
    ensures |d| == |prices|
  {
    seq(|prices|, t requires 0 <= t < |prices| => if t == 0 then None else Some(prices[t] - prices[t - 1]))
  }

  /** `.shift(-1)`: each row takes the next row's value; NaN in the last row. */
  function ShiftUp(s: seq<Option<real>>): (r: seq<Option<real>>)
    ensures |r| == |s|
  {
    seq(|s|, t requires 0 <= t < |s| => if t + 1 < |s| then s[t + 1] else None)
  }

  /** A position of `signal` units held over a price change of `change`. */
  function Scale(signal: int, change: real): real {
    signal as real * change
  }

  /** Row-by-row product; NaN wherever either side is NaN. */
  function Times(signal: seq<Option<int>>, x: seq<Option<real>>): (r: seq<Option<real>>)
    requires |x| == |signal|
    ensures |r| == |signal|
  {
    seq(|signal|, t requires 0 <= t < |signal| =>
      if signal[t].Some? && x[t].Some? then Some(Scale(signal[t].value, x[t].value)) else None)
  }

  function PnlColumn(signal: seq<Option<int>>, prices: seq<real>): (pnl: seq<Option<real>>)
    requires |signal| == |prices|
    ensures |pnl| == |prices|
  {
    Times(signal, ShiftUp(Diff(prices)))
  }

  /** Row t's P&L is row t's signal times the price change from row t to row
      t+1; NaN in the last row and wherever the signal is NaN. */
  lemma PnlAt(signal: seq<Option<int>>, prices: seq<real>, t: nat)
    requires |signal| == |prices| && t < |prices|
    ensures PnlColumn(signal, prices)[t] ==
      if t + 1 < |prices| && signal[t].Some?
      then Some(Scale(signal[t].value, prices[t + 1] - prices[t]))
      else None
  {
    var next := ShiftUp(Diff(prices));
    assert next[t] == if t + 1 < |prices| then Diff(prices)[t + 1] else None;
    if t + 1 < |prices| {
      assert Diff(prices)[t + 1] == Some(prices[t + 1] - prices[t]);
    }
  }

  /** `_calc_pnl`: each ticker's P&L in a row is that row's signal times the
      price change to the next row; NaN in the last row and where the signal is NaN. */
  function CalcPnl(signals: seq<seq<Option<int>>>, prices: seq<seq<real>>): (pnl: seq<seq<Option<real>>>)
    requires |signals| == |prices|
    requires forall c :: 0 <= c < |prices| ==> |signals[c]| == |prices[c]|
    ensures |pnl| == |prices|
    ensures forall c :: 0 <= c < |prices| ==> |pnl[c]| == |prices[c]|
    ensures forall c, t :: 0 <= c < |prices| && 0 <= t < |prices[c]| ==>
      pnl[c][t] ==
        if t + 1 < |prices[c]| && signals[c][t].Some?
        then Some(Scale(signals[c][t].value, prices[c][t + 1] - prices[c][t]))
        else None
  {
    PnlRows(signals, prices);
    seq(|prices|, c requires 0 <= c < |prices| => PnlColumn(signals[c], prices[c]))
  }

  lemma PnlRows(signals: seq<seq<Option<int>>>, prices: seq<seq<real>>)
    requires |signals| == |prices|
    requires forall c :: 0 <= c < |prices| ==> |signals[c]| == |prices[c]|
    ensures forall c, t :: 0 <= c < |prices| && 0 <= t < |prices[c]| ==>
      PnlColumn(signals[c], prices[c])[t] ==
        if t + 1 < |prices[c]| && signals[c][t].Some?
        then Some(Scale(signals[c][t].value, prices[c][t + 1] - prices[c][t]))
        else None
  {
    forall c, t | 0 <= c < |prices| && 0 <= t < |prices[c]|
      ensures PnlColumn(signals[c], prices[c])[t] ==
        if t + 1 < |prices[c]| && signals[c][t].Some?
        then Some(Scale(signals[c][t].value, prices[c][t + 1] - prices[c][t]))
        else None
    {
      PnlAt(signals[c], prices[c], t);
    }
  }

  /** `pnl[t]` depends only on `signal[t]`, `price[t]` and `price[t+1]`. */
  lemma PnlIsLocal(signal: seq<Option<int>>, prices: seq<real>, signal': seq<Option<int>>, prices': seq<real>, t: nat)
    requires |signal| == |prices| == |signal'| == |prices'| && t < |prices|
    requires signal[t] == signal'[t] && prices[t] == prices'[t]
    requires t + 1 < |prices| ==> prices[t + 1] == prices'[t + 1]
    ensures PnlColumn(signal, prices)[t] == PnlColumn(signal', prices')[t]
  {
    PnlAt(signal, prices, t);
    PnlAt(signal', prices', t);
  }

  /** The textbook rule: the position decided in row t-1 earns the price change
      from row t-1 to row t; NaN in the first row. */
  function RealizedPnl(signal: seq<Option<int>>, prices: seq<real>): (r: seq<Option<real>>)
    requires |signal| == |prices|
    ensures |r| == |prices|
  {
    seq(|prices|, t requires 0 <= t < |prices| =>
      if t > 0 && signal[t - 1].Some? then Some(Scale(signal[t - 1].value, prices[t] - prices[t - 1])) else None)
  }

  /** The source books each period's P&L one row early: row t holds what the
      textbook rule puts in row t+1, and the last row is NaN. */
  lemma PnlBooksNextRow(signal: seq<Option<int>>, prices: seq<real>)
    requires |signal| == |prices| && |prices| > 0
    ensures PnlColumn(signal, prices) == RealizedPnl(signal, prices)[1..] + [None]
  {
    var pnl := PnlColumn(signal, prices);
    var shifted := RealizedPnl(signal, prices)[1..] + [None];
    forall t | 0 <= t < |prices|
      ensures pnl[t] == shifted[t]
    {
      PnlAt(signal, prices, t);
    }
  }

  /** The sum of the non-NaN values, as `DataFrame.sum()` skips NaN. */
  function Total(s: seq<Option<real>>): real
    decreases |s|
  {
    if s == [] then 0.0 else (if s[0].Some? then s[0].value else 0.0) + Total(s[1..])
  }

  lemma {:induction false} TotalAppendNone(s: seq<Option<real>>)
    ensures Total(s + [None]) == Total(s)
    decreases |s|
  {
    if s != [] {
      TotalAppendNone(s[1..]);
      assert (s + [None])[1..] == s[1..] + [None];
    }
  }

  /** Booking one row early loses and adds nothing: the column totals agree. */
  lemma TotalPnlAgrees(signal: seq<Option<int>>, prices: seq<real>)
    requires |signal| == |prices|
    ensures Total(PnlColumn(signal, prices)) == Total(RealizedPnl(signal, prices))
  {
    if |prices| > 0 {
      var realized := RealizedPnl(signal, prices);
      PnlBooksNextRow(signal, prices);
      TotalAppendNone(realized[1..]);
      assert realized[0].None?;
    }
  }
}
