/**
  The decision part of the screener in app.py: the row-count gate, the
  mean-volume filter `volum_filter`, dropping the rows whose RSI is undefined,
  swing detection, counting the swings with enough price growth, and the
  share gate that decides whether an instrument is reported.

  Prices and volumes are exact reals. The RSI column is an input: `None`
  marks a row where the oscillator is undefined (NaN).
 */
module Screening {
  import opened Wrappers
  import opened RsiSwings

  /** The least number of downloaded rows an instrument needs. */
  const MinRows: nat := 50

  /** One downloaded row: closing price and traded volume. */
  datatype Bar = Bar(close: real, volume: real)

  /** One row that survives dropping undefined RSI values. */
  datatype Sample = Sample(close: real, rsi: real)

  /** The screener's settings, as the user interface passes them. */
  datatype Config = Config(
    volumeMin: real,     // least mean daily volume
    rsiLow: real,        // lower RSI threshold
    rsiHigh: real,       // upper RSI threshold
    minSwings: nat,      // least number of swings
    minGrowthPct: real,  // least price growth per swing, in percent
    minShare: real       // least share of swings with that growth
  )

  /** The record reported for an instrument that passes every gate. */
  datatype Hit = Hit(ticker: string, swingCount: nat, share: real)

  /**
    The row before every pair's start lies at most one past the frame's end,
    so `iloc[start_idx-1]` can be evaluated. For any other pair the counting
    loop raises an IndexError. Every detected swing meets this condition.
   */
  predicate PricesIndexable(close: seq<real>, ps: seq<Period>) {
    forall k :: 0 <= k < |ps| ==> ps[k].0 <= |close|
  }

  predicate PositiveCloses(bars: seq<Bar>) {
    forall k :: 0 <= k < |bars| ==> bars[k].close > 0.0
  }

  // ---------------------------------------------------------------------
  // volum_filter
  // ---------------------------------------------------------------------

  function VolumeSum(bars: seq<Bar>): real
    decreases |bars|
  {
    if |bars| == 0 then 0.0 else VolumeSum(bars[..|bars| - 1]) + bars[|bars| - 1].volume
  }

  /** `df['Volume'].mean()` */
  function MeanVolume(bars: seq<Bar>): real
    requires |bars| > 0
  {
    VolumeSum(bars) / |bars| as real
  }

  /** `volum_filter`: an empty frame fails; otherwise the mean volume must reach the minimum. */
  function VolumeFilter(bars: seq<Bar>, volumeMin: real): (ok: bool)
    ensures ok <==> |bars| > 0 && VolumeSum(bars) >= volumeMin * |bars| as real
  {
    if |bars| == 0 then false else MeanVolume(bars) >= volumeMin
  }

  lemma {:induction false} VolumeSumBounds(bars: seq<Bar>, m: real)
    ensures (forall k :: 0 <= k < |bars| ==> bars[k].volume >= m) ==> VolumeSum(bars) >= m * |bars| as real
    ensures (forall k :: 0 <= k < |bars| ==> bars[k].volume < m) && |bars| > 0 ==> VolumeSum(bars) < m * |bars| as real
    decreases |bars|
  {
    if |bars| > 0 {
      var init := bars[..|bars| - 1];
      VolumeSumBounds(init, m);
      assert forall k :: 0 <= k < |init| ==> init[k] == bars[k];
    }
  }

  /** Every day reaching the minimum lets a non-empty frame pass; every day below it makes it fail. */
  lemma VolumeFilterUniform(bars: seq<Bar>, m: real)
    ensures |bars| > 0 && (forall k :: 0 <= k < |bars| ==> bars[k].volume >= m) ==> VolumeFilter(bars, m)
    ensures (forall k :: 0 <= k < |bars| ==> bars[k].volume < m) ==> !VolumeFilter(bars, m)
  {
    VolumeSumBounds(bars, m);
  }

  // ---------------------------------------------------------------------
  // dropna(subset=['RSI'])
  // ---------------------------------------------------------------------

  /** Keeps, in order, the rows whose RSI is defined. */
  function DropNa(bars: seq<Bar>, rsi: seq<Option<real>>): (frame: seq<Sample>)
    requires |rsi| == |bars|
    ensures |frame| <= |bars|
    ensures forall k :: 0 <= k < |frame| ==>
      exists j :: 0 <= j < |bars| && bars[j].close == frame[k].close && rsi[j] == Some(frame[k].rsi)
    ensures |frame| == |bars| <==> forall j :: 0 <= j < |rsi| ==> rsi[j].Some?
    ensures (forall j :: 0 <= j < |rsi| ==> rsi[j].None?) ==> frame == []
    ensures PositiveCloses(bars) ==> forall k :: 0 <= k < |frame| ==> frame[k].close > 0.0
    decreases |bars|
  {
    if |bars| == 0 then []
    else
      var n := |bars| - 1;
      var init := DropNa(bars[..n], rsi[..n]);
      assert forall k :: 0 <= k < n ==> bars[..n][k] == bars[k] && rsi[..n][k] == rsi[k];
      init + (if rsi[n].Some? then [Sample(bars[n].close, rsi[n].value)] else [])
  }

  /** The positions of the rows whose RSI is defined, in increasing order. */
  function DefinedRows(rsi: seq<Option<real>>): (idx: seq<nat>)
    ensures forall k :: 0 <= k < |idx| ==> idx[k] < |rsi| && rsi[idx[k]].Some?
    ensures forall j, k :: 0 <= j < k < |idx| ==> idx[j] < idx[k]
    decreases |rsi|
  {
    if |rsi| == 0 then []
    else
      var n := |rsi| - 1;
      var init := DefinedRows(rsi[..n]);
      assert forall k :: 0 <= k < n ==> rsi[..n][k] == rsi[k];
      init + (if rsi[n].Some? then [n] else [])
  }

  /** Every row whose RSI is defined is among `DefinedRows(rsi)`. */
  lemma {:induction false} DefinedRowsCover(rsi: seq<Option<real>>)
    ensures forall j :: 0 <= j < |rsi| && rsi[j].Some? ==> j in DefinedRows(rsi)
    decreases |rsi|
  {
    if |rsi| > 0 {
      var n := |rsi| - 1;
      var ri := rsi[..n];
      DefinedRowsCover(ri);
      assert DefinedRows(rsi) == DefinedRows(ri) + (if rsi[n].Some? then [n] else []);
      forall j | 0 <= j < |rsi| && rsi[j].Some?
        ensures j in DefinedRows(rsi)
      {
        if j < n {
          assert ri[j] == rsi[j];
          assert j in DefinedRows(ri);
        }
      }
    }
  }

  /** Dropping undefined rows and selecting defined positions each add one entry per defined row. */
  lemma DropNaLast(bars: seq<Bar>, rsi: seq<Option<real>>)
    requires |rsi| == |bars| > 0
    ensures
      var n := |bars| - 1;
      && DropNa(bars, rsi) == DropNa(bars[..n], rsi[..n]) + (if rsi[n].Some? then [Sample(bars[n].close, rsi[n].value)] else [])
      && DefinedRows(rsi) == DefinedRows(rsi[..n]) + (if rsi[n].Some? then [n] else [])
  {
  }

  /**
    Dropping undefined rows keeps exactly the rows at `DefinedRows(rsi)`:
    every row with a defined RSI, each once, in their original order.
   */
  lemma {:induction false} DropNaSelects(bars: seq<Bar>, rsi: seq<Option<real>>)
    requires |rsi| == |bars|
    ensures |DropNa(bars, rsi)| == |DefinedRows(rsi)|
    ensures forall k :: 0 <= k < |DropNa(bars, rsi)| ==>
      DropNa(bars, rsi)[k] == Sample(bars[DefinedRows(rsi)[k]].close, rsi[DefinedRows(rsi)[k]].value)
    decreases |bars|
  {
    if |bars| > 0 {
      var n := |bars| - 1;
      var bi, ri := bars[..n], rsi[..n];
      DropNaSelects(bi, ri);
      DropNaLast(bars, rsi);
      var frame, init := DropNa(bars, rsi), DropNa(bi, ri);
      var idx, initIdx := DefinedRows(rsi), DefinedRows(ri);
      forall k | 0 <= k < |frame|
        ensures frame[k] == Sample(bars[idx[k]].close, rsi[idx[k]].value)
      {
        if k < |init| {
          var j := initIdx[k];
          assert frame[k] == init[k] && idx[k] == j;
          assert bi[j] == bars[j] && ri[j] == rsi[j];
        }
      }
    }
  }

  /** `dropna` keeps every row whose RSI is defined. */
  lemma DropNaKeepsDefined(bars: seq<Bar>, rsi: seq<Option<real>>)
    requires |rsi| == |bars|
    ensures forall j :: 0 <= j < |bars| && rsi[j].Some? ==> Sample(bars[j].close, rsi[j].value) in DropNa(bars, rsi)
  {
    DefinedRowsCover(rsi);
    DropNaSelects(bars, rsi);
    var frame, idx := DropNa(bars, rsi), DefinedRows(rsi);
    forall j | 0 <= j < |bars| && rsi[j].Some?
      ensures Sample(bars[j].close, rsi[j].value) in frame
    {
      var k :| 0 <= k < |idx| && idx[k] == j;
      assert frame[k] == Sample(bars[j].close, rsi[j].value);
    }
  }

  function Closes(frame: seq<Sample>): (close: seq<real>)
    ensures |close| == |frame|
    ensures forall k :: 0 <= k < |frame| ==> close[k] == frame[k].close
  {
    seq(|frame|, k requires 0 <= k < |frame| => frame[k].close)
  }

  function Oscillator(frame: seq<Sample>): (osc: seq<real>)
    ensures |osc| == |frame|
    ensures forall k :: 0 <= k < |frame| ==> osc[k] == frame[k].rsi
  {
    seq(|frame|, k requires 0 <= k < |frame| => frame[k].rsi)
  }

  // ---------------------------------------------------------------------
  // Price growth over a swing
  // ---------------------------------------------------------------------

  /** `(pris_rsi_high - pris_rsi_low) / pris_rsi_low * 100` */
  function PercentGrowth(lo: real, hi: real): real
    requires lo > 0.0
  {
    (hi - lo) / lo * 100.0
  }

  predicate GrowthHit(lo: real, hi: real, minPct: real)
    requires lo > 0.0
  {
    PercentGrowth(lo, hi) >= minPct
  }

  /** The growth test without division. */
  lemma GrowthHitScaled(lo: real, hi: real, minPct: real)
    requires lo > 0.0
    ensures GrowthHit(lo, hi, minPct) <==> 100.0 * (hi - lo) >= minPct * lo
  {
    var g := PercentGrowth(lo, hi);
    assert g * lo == 100.0 * (hi - lo);
    if g >= minPct {
      assert g * lo >= minPct * lo;
    } else {
      assert g * lo < minPct * lo;
    }
  }

  /**
    One iteration of the counting loop: the swing is counted when both of
    its prices exist (the start's previous row and the end row are inside
    the frame) and the growth between them reaches the minimum.
   */
  predicate Counts(close: seq<real>, p: Period, minPct: real)
    requires forall k :: 0 <= k < |close| ==> close[k] > 0.0
    requires p.0 <= |close|
  {
    p.0 >= 1 && p.1 < |close| && GrowthHit(close[p.0 - 1], close[p.1], minPct)
  }

  /** `antall_ok`: the number of counted swings. */
  function GoodCount(close: seq<real>, ps: seq<Period>, minPct: real): (n: nat)
    requires forall k :: 0 <= k < |close| ==> close[k] > 0.0
    requires PricesIndexable(close, ps)
    ensures n <= |ps|
    ensures n == 0 <== forall k :: 0 <= k < |ps| ==> !Counts(close, ps[k], minPct)
    decreases |ps|
  {
    if |ps| == 0 then 0
    else
      var init := ps[..|ps| - 1];
      assert forall k :: 0 <= k < |init| ==> init[k] == ps[k];
      GoodCount(close, init, minPct) + (if Counts(close, ps[|ps| - 1], minPct) then 1 else 0)
  }

  /** The swings that count among the first `n` swings. */
  ghost function GoodSet(close: seq<real>, ps: seq<Period>, minPct: real, n: nat): set<nat>
    requires forall k :: 0 <= k < |close| ==> close[k] > 0.0
    requires PricesIndexable(close, ps)
    requires n <= |ps|
  {
    set k: nat | k < n && Counts(close, ps[k], minPct)
  }

  /** Adding a swing that counts adds its position to the set of counted swings. */
  lemma GoodSetGrows(close: seq<real>, ps: seq<Period>, minPct: real, n: nat)
    requires forall k :: 0 <= k < |close| ==> close[k] > 0.0
    requires PricesIndexable(close, ps)
    requires n < |ps| && Counts(close, ps[n], minPct)
    ensures n !in GoodSet(close, ps, minPct, n)
    ensures GoodSet(close, ps, minPct, n + 1) == GoodSet(close, ps, minPct, n) + {n}
  {
  }

  /** Adding a swing that does not count leaves the set of counted swings unchanged. */
  lemma GoodSetKeeps(close: seq<real>, ps: seq<Period>, minPct: real, n: nat)
    requires forall k :: 0 <= k < |close| ==> close[k] > 0.0
    requires PricesIndexable(close, ps)
    requires n < |ps| && !Counts(close, ps[n], minPct)
    ensures GoodSet(close, ps, minPct, n + 1) == GoodSet(close, ps, minPct, n)
  {
  }

  /** Counting the first `n` swings does not depend on the swings after them. */
  lemma GoodSetPrefix(close: seq<real>, ps: seq<Period>, minPct: real, n: nat)
    requires forall k :: 0 <= k < |close| ==> close[k] > 0.0
    requires PricesIndexable(close, ps)
    requires n <= |ps|
    ensures GoodSet(close, ps[..n], minPct, n) == GoodSet(close, ps, minPct, n)
  {
    assert forall k :: 0 <= k < n ==> ps[..n][k] == ps[k];
  }

  /** `antall_ok` is the number of swings that count. */
  lemma {:induction false} GoodCountCardinality(close: seq<real>, ps: seq<Period>, minPct: real)
    requires forall k :: 0 <= k < |close| ==> close[k] > 0.0
    requires PricesIndexable(close, ps)
    ensures GoodCount(close, ps, minPct) == |GoodSet(close, ps, minPct, |ps|)|
    decreases |ps|
  {
    if |ps| == 0 {
      assert GoodSet(close, ps, minPct, 0) == {};
    } else {
      var n := |ps| - 1;
      var init := ps[..n];
      GoodCountCardinality(close, init, minPct);
      GoodSetPrefix(close, ps, minPct, n);
      if Counts(close, ps[n], minPct) {
        GoodSetGrows(close, ps, minPct, n);
      } else {
        GoodSetKeeps(close, ps, minPct, n);
      }
    }
  }

  /** The loop of lines 94-102, counting the swings with enough growth. */
  method CountGoodSwings(close: seq<real>, swings: seq<Period>, minPct: real) returns (count: nat)
    requires forall k :: 0 <= k < |close| ==> close[k] > 0.0
    requires PricesIndexable(close, swings)
    ensures count == GoodCount(close, swings, minPct)
  {
    count := 0;
    var i := 0;
    while i < |swings|
      invariant i <= |swings|
      invariant count == GoodCount(close, swings[..i], minPct)
    {
      var (start, end) := swings[i];
      assert swings[..i + 1][..i] == swings[..i];
      if start >= 1 && end < |close| {
        if GrowthHit(close[start - 1], close[end], minPct) {
          count := count + 1;
        }
      }
      i := i + 1;
    }
    assert swings[..|swings|] == swings;
  }

  /**
    For swings found on an oscillator aligned with the closing prices, both
    prices always exist, so the skip branch never fires and a swing counts
    exactly when its growth reaches the minimum.
   */
  lemma SwingPricesExist(close: seq<real>, osc: seq<real>, low: real, high: real, minPct: real)
    requires |close| == |osc|
    requires forall k :: 0 <= k < |close| ==> close[k] > 0.0
    ensures forall k :: 0 <= k < |Periods(osc, low, high)| ==>
      var (s, e) := Periods(osc, low, high)[k];
      && 0 <= s - 1 && e < |close|
      && (Counts(close, (s, e), minPct) <==> 100.0 * (close[e] - close[s - 1]) >= minPct * close[s - 1])
  {
    var ps := Periods(osc, low, high);
    forall k | 0 <= k < |ps|
      ensures Counts(close, ps[k], minPct) <==> 100.0 * (close[ps[k].1] - close[ps[k].0 - 1]) >= minPct * close[ps[k].0 - 1]
    {
      GrowthHitScaled(close[ps[k].0 - 1], close[ps[k].1], minPct);
    }
  }

  // ---------------------------------------------------------------------
  // screener
  // ---------------------------------------------------------------------

  /** `andel_ok = antall_ok / len(svingninger)` */
  function Share(good: nat, n: nat): real
    requires n > 0
  {
    good as real / n as real
  }

  /** The share gate of line 105 without division: `good / n >= minShare` multiplied out. */
  predicate ShareReached(good: nat, n: nat, minShare: real) {
    good as real >= minShare * n as real
  }

  /** The share scaled back by the swing count is the good count; it lies in [0, 1] and its gate needs no division. */
  lemma ShareBounds(good: nat, n: nat, minShare: real)
    requires 0 < n && good <= n
    ensures Share(good, n) * n as real == good as real
    ensures 0.0 <= Share(good, n) <= 1.0
    ensures Share(good, n) >= minShare <==> ShareReached(good, n, minShare)
  {
    var share := Share(good, n);
    assert share * n as real == good as real;
    if share >= minShare {
      assert share * n as real >= minShare * n as real;
    } else {
      assert share * n as real < minShare * n as real;
    }
  }

  /**
    Lines 90-113, given the swings detected on the frame left after dropping
    undefined RSI values: reject too few swings, count the swings with enough
    growth, and reject a share below the minimum.
   */
  function Decide(ticker: string, close: seq<real>, swings: seq<Period>, cfg: Config): (r: Option<Hit>)
    requires PricesIndexable(close, swings)
    requires forall k :: 0 <= k < |close| ==> close[k] > 0.0
    requires cfg.minSwings >= 1
    ensures
      var good := GoodCount(close, swings, cfg.minGrowthPct);
      && (r.Some? <==> |swings| >= cfg.minSwings && Share(good, |swings|) >= cfg.minShare)
      && (r.Some? ==>
            && r.value.ticker == ticker
            && r.value.swingCount == |swings| >= cfg.minSwings
            && r.value.share == Share(good, |swings|)
            && cfg.minShare <= r.value.share <= 1.0)
  {
    if |swings| < cfg.minSwings then None
    else
      var good := GoodCount(close, swings, cfg.minGrowthPct);
      var share := Share(good, |swings|);
      ShareBounds(good, |swings|, cfg.minShare);
      if share < cfg.minShare then None
      else Some(Hit(ticker, |swings|, share))
  }

  /** The decision logic of `screener` for one instrument's downloaded rows. */
  function Screen(ticker: string, bars: seq<Bar>, rsi: seq<Option<real>>, cfg: Config): (r: Option<Hit>)
    requires |rsi| == |bars|
    requires PositiveCloses(bars)
    requires cfg.minSwings >= 1
    ensures |bars| < MinRows ==> r == None
    ensures !VolumeFilter(bars, cfg.volumeMin) ==> r == None
    ensures |bars| >= MinRows && VolumeFilter(bars, cfg.volumeMin) ==>
      r == Decide(ticker, Closes(DropNa(bars, rsi)), Periods(Oscillator(DropNa(bars, rsi)), cfg.rsiLow, cfg.rsiHigh), cfg)
  {
    if |bars| == 0 || |bars| < MinRows then None
    else if !VolumeFilter(bars, cfg.volumeMin) then None
    else
      var frame := DropNa(bars, rsi);
      Decide(ticker, Closes(frame), Periods(Oscillator(frame), cfg.rsiLow, cfg.rsiHigh), cfg)
  }

  /** The share gate of `Decide` without division, and the share scaled back by the swing count. */
  lemma DecideReports(ticker: string, close: seq<real>, swings: seq<Period>, cfg: Config)
    requires PricesIndexable(close, swings)
    requires forall k :: 0 <= k < |close| ==> close[k] > 0.0
    requires cfg.minSwings >= 1
    ensures
      var r := Decide(ticker, close, swings, cfg);
      var good := GoodCount(close, swings, cfg.minGrowthPct);
      && (r.Some? <==> |swings| >= cfg.minSwings && ShareReached(good, |swings|, cfg.minShare))
      && (r.Some? ==> r.value.share == Share(good, |swings|))
  {
    if |swings| >= cfg.minSwings {
      ShareBounds(GoodCount(close, swings, cfg.minGrowthPct), |swings|, cfg.minShare);
    }
  }

  /** What a reported instrument carries, and exactly when an instrument is reported. */
  lemma ScreenReports(ticker: string, bars: seq<Bar>, rsi: seq<Option<real>>, cfg: Config)
    requires |rsi| == |bars|
    requires PositiveCloses(bars)
    requires cfg.minSwings >= 1
    ensures
      var r := Screen(ticker, bars, rsi, cfg);
      var frame := DropNa(bars, rsi);
      var swings := Periods(Oscillator(frame), cfg.rsiLow, cfg.rsiHigh);
      var good := GoodCount(Closes(frame), swings, cfg.minGrowthPct);
      && (r.Some? <==>
            && |bars| >= MinRows
            && VolumeFilter(bars, cfg.volumeMin)
            && |swings| >= cfg.minSwings
            && ShareReached(good, |swings|, cfg.minShare))
      && (r.Some? ==>
            && r.value.ticker == ticker
            && r.value.swingCount == |swings|
            && r.value.share == Share(good, |swings|)
            && cfg.minShare <= r.value.share <= 1.0)
  {
    var frame := DropNa(bars, rsi);
    var close := Closes(frame);
    var swings := Periods(Oscillator(frame), cfg.rsiLow, cfg.rsiHigh);
    DecideReports(ticker, close, swings, cfg);
  }

  /** A frame whose RSI is undefined everywhere (a flat price run) has no swings and is never reported. */
  lemma FlatSeriesRejected(ticker: string, bars: seq<Bar>, rsi: seq<Option<real>>, cfg: Config)
    requires |rsi| == |bars|
    requires PositiveCloses(bars)
    requires cfg.minSwings >= 1
    requires forall j :: 0 <= j < |rsi| ==> rsi[j].None?
    ensures Screen(ticker, bars, rsi, cfg) == None
  {
    var frame := DropNa(bars, rsi);
    PeriodCountBound(Oscillator(frame), cfg.rsiLow, cfg.rsiHigh);
  }

  /** Three swings with growth 15 %, 8 % and 20 % against a 10 % minimum: two count, a share of 2/3. */
  lemma ExampleThreeSwings()
    ensures
      var close := [100.0, 110.0, 115.0, 100.0, 105.0, 108.0, 100.0, 110.0, 120.0];
      var swings := [(1, 2), (4, 5), (7, 8)];
      && GoodCount(close, swings, 10.0) == 2
      && Share(GoodCount(close, swings, 10.0), |swings|) == 2.0 / 3.0
  {
  }
}
