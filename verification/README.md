# RSI swing screener — a Dafny model

This project models the decision core of a stock screener (`app.py`). For
each instrument the screener looks at an RSI oscillator series and finds
*swings*. A swing opens when the RSI crosses the lower threshold upwards and
closes when the RSI crosses the upper threshold upwards. For each swing it
measures the price growth from the close just before the swing opened to the
close where it ended. An instrument is reported when all of these hold:

- it has at least 50 downloaded rows;
- its mean daily volume reaches a minimum;
- it has enough swings;
- a large enough share of those swings grew by at least a minimum percentage.

Modules:

- `Wrappers` (`wrappers.dfy`): `Option`, which stands for the screener's `None` return.
- `RsiSwings` (`rsi_swings.dfy`): `finn_rsi_svingninger`, modelled three ways:
  - `Scan`/`Periods`: a recursive two-state scan (`Seeking`, `Open(start)`);
  - `FindPeriods`: the loop as written, proved equal to `Periods`;
  - `Follows`: a declarative reference definition. A pair opens at the first
    upward cross of the lower threshold after the previous pair, and closes at
    the first strict upward cross of the upper threshold after its start.
    After the last pair, no period completes.

  `PeriodsCharacterized` proves that `Periods` is the one and only list that
  satisfies `Follows`.
- `Screening` (`screening.dfy`):
  - `VolumeFilter` models `volum_filter`.
  - `DropNa` models dropping the rows whose RSI is undefined (`dropna`).
    `DefinedRows` lists the positions of those rows and serves as its
    reference.
  - `GoodCount` and `CountGoodSwings` model the counting loop.
  - `Decide` models the swing-count and share gates.
  - `Screen` models the whole screener decision.

The conventions of `app.py` that the model keeps:

- A period opens on an upward cross of the lower threshold: the previous value
  is `< low` and the current value is `>= low`.
- While a period is open, further crosses of the lower threshold are ignored,
  so the first crossing wins.
- A period closes on a strict upward cross of the upper threshold: the
  previous value is `<= high` and the current value is `> high`.
- A period still open when the series ends yields no swing.
  `ExampleOpenPeriodDropped` shows this on `[22, 20, 19, 71, 70]` with
  thresholds 20/70: a period opens at index 3 and never closes.
- An instrument needs at least 50 downloaded rows.
- An instrument with fewer than `min_svingninger` swings gives `None`.

Inputs of the model:

- An instrument's downloaded rows, as a sequence of `Bar(close, volume)`.
  Prices and volumes are exact reals, and every closing price is positive.
- The RSI column, as a sequence of `Option<real>` of the same length. `None`
  marks a NaN.
- The `Config` values the user interface passes.

## Model

| member | source | states |
|---|---|---|
| `RsiSwings.ScanCrossings` | app.py:52-62 | From any state the scan can be in, every emitted pair lies inside the series. It opens on an upward cross of `low` (`rsi[i-1] < low <= rsi[i]`) and closes on a strict upward cross of `high` (`rsi[i-1] <= high < rsi[i]`). |
| `RsiSwings.ScanStarts` | app.py:53-56 | No pair emitted from index `i` starts before `i`. If a period is already open, no pair starts before that period's `start_idx`. |
| `RsiSwings.ScanChained` | app.py:53-62 | From any state the scan can be in, every emitted pair starts strictly after every earlier pair ends. |
| `RsiSwings.Periods` | app.py:42-63 | Every returned pair satisfies `1 <= start < end <= len-1`. `start` is an index with `rsi[i-1] < low <= rsi[i]`, and `end` is an index with `rsi[i-1] <= high < rsi[i]`. Every pair starts after every earlier pair ends. |
| `RsiSwings.PeriodCountBound` | app.py:52-62 | A series of length 0 or 1 yields no pairs. Otherwise the number of pairs is at most `(len-1)/2`. |
| `RsiSwings.ChainedCount` | app.py:52-62 | Non-overlapping pairs that start at or after `lo` and end before `n` number at most `(n-lo)/2`. |
| `RsiSwings.ScanFollows` | app.py:52-63 | From any reachable scan state, the scan's output meets the reference definition. Each start is the first upward cross of `low` after the previous pair, so the first crossing wins. Each end is the first closing cross after that start. A period still open at the end is not emitted. |
| `RsiSwings.FollowsUnique` | app.py:52-63 | At most one list of pairs meets the reference definition. |
| `RsiSwings.PeriodsCharacterized` | app.py:42-63 | A list of pairs meets the reference definition if and only if it equals `Periods`. |
| `RsiSwings.FindPeriods` | app.py:48-63 | The imperative loop with `in_period`/`start_idx` returns exactly `Periods`. |
| `RsiSwings.ExampleFirstCrossingWins` | app.py:53-56 | On `[10, 25, 10, 25, 80]` with thresholds 20/70, the second upward cross of 20 at index 3 does not move the start. The only pair is `(1, 4)`. |
| `RsiSwings.ExampleThresholdEquality` | app.py:54-58 | An RSI equal to `low` after a value below it opens a period. An RSI equal to `high` does not close it. |
| `RsiSwings.ExampleOpenPeriodDropped` | app.py:53-63 | On `[22, 20, 19, 71, 70]` with thresholds 20/70, index 3 is an opening cross and index 4 is not a closing cross, so the period opened at 3 never closes and no pair is returned. |
| `Screening.VolumeFilter` | app.py:72-76 | The filter passes if and only if the frame is non-empty and the volume sum is at least `volum_min` times the row count, i.e. the mean volume is `>= volum_min`. An empty frame fails. |
| `Screening.VolumeSumBounds` | app.py:75 | If every volume is `>= m`, the sum is `>= m·len`. If every volume is `< m` and the frame is non-empty, the sum is `< m·len`. |
| `Screening.VolumeFilterUniform` | app.py:72-76 | A non-empty frame whose every volume reaches the minimum passes. A frame whose every volume is below it fails. |
| `Screening.DropNa` | app.py:87 | At most as many rows survive as were given. Each surviving row's close and RSI come from one input row whose RSI was defined. Every row survives exactly when no RSI is undefined. All-undefined RSI leaves nothing. Positive closes stay positive. |
| `Screening.DefinedRows` | app.py:87 | The positions it lists are strictly increasing, and each one is a row whose RSI is defined. |
| `Screening.DefinedRowsCover` | app.py:87 | Every row whose RSI is defined is among those positions. |
| `Screening.DropNaSelects` | app.py:87 | The rows that survive are exactly the rows at those positions, in order: as many rows as there are defined RSI values, and row `k` carries the close and RSI of the `k`-th defined row. |
| `Screening.DropNaKeepsDefined` | app.py:87 | Every row whose RSI is defined survives with its close and RSI. |
| `Screening.GrowthHitScaled` | app.py:100-101 | `(hi - lo) / lo * 100 >= min` holds exactly when `100·(hi - lo) >= min·lo`, for `lo > 0`. |
| `Screening.GoodCount` | app.py:94-102 | `antall_ok` is between 0 and the number of swings. It is 0 when no swing counts. |
| `Screening.GoodCountCardinality` | app.py:94-102 | `antall_ok` equals the number of swing positions whose swing counts: both prices exist and the growth reaches the minimum. |
| `Screening.CountGoodSwings` | app.py:94-102 | The loop, including its skip branch for a missing price, computes `GoodCount`. |
| `Screening.SwingPricesExist` | app.py:95-102 | For swings found on an oscillator aligned with the closes, `start-1 >= 0` and `end < len`, so the skip at lines 98-99 never fires. A swing counts exactly when `100·(close[end] - close[start-1]) >= min·close[start-1]`. |
| `Screening.ShareBounds` | app.py:104-105 | `andel_ok` times the swing count gives back `antall_ok`. It lies in `[0, 1]`. It passes the `min_prosent_andel` gate exactly when `antall_ok >= min_prosent_andel · len(svingninger)`. |
| `Screening.Decide` | app.py:90-113 | A result exists exactly when `len(svingninger) >= min_svingninger` and `andel_ok >= min_prosent_andel`. It carries the ticker, `antall_svingninger = len(svingninger) >= min_svingninger` and `andel_ok = antall_ok/len(svingninger)`, with `min_prosent_andel <= andel_ok <= 1`. |
| `Screening.DecideReports` | app.py:104-106 | The decision's share gate holds exactly when `antall_ok >= min_prosent_andel · len(svingninger)`. |
| `Screening.Screen` | app.py:78-113 | Fewer than 50 rows gives `None`, and so does a failing volume filter. Neither gate depends on the RSI column. Past both gates, the result is the decision on the swings of the NaN-free frame. |
| `Screening.ScreenReports` | app.py:78-113 | An instrument is reported exactly when it has at least 50 rows, passes the volume filter, has `>= min_svingninger` swings, and `antall_ok >= min_prosent_andel · len(svingninger)`. The report carries the ticker, the swing count and the share in `[min_prosent_andel, 1]`. |
| `Screening.FlatSeriesRejected` | app.py:86-91 | If the RSI is undefined on every row (a flat price run), no swings are found and nothing is reported. |
| `Screening.ExampleThreeSwings` | app.py:94-104 | Three swings with growth 15 %, 8 % and 20 % against a 10 % minimum give `antall_ok = 2` and `andel_ok = 2/3`. |

## Left out

- `beregn_rsi` (app.py:32-40) is not part of this model. It uses pandas rolling means and IEEE division: `avg_loss == 0` gives infinity and then 100, and `0/0` gives NaN. The model takes its output as an input column, with `None` for NaN.
- The ticker-list downloads (app.py:11-30) and `hent_data` (app.py:65-70) are left out. They are network I/O and Streamlit caching.
- The Streamlit interface, progress bar and per-ticker exception catching (app.py:115-178) are left out. They are presentation and orchestration.
- The `'data': df` field of the result record (app.py:112) is left out. It is a DataFrame passed through for display.
- Floating-point rounding is not modelled. Prices, volumes, RSI values and the share are exact reals.
- NaN volumes, which pandas `mean` would skip, are not modelled.
- `Screen` requires every closing price to be positive, so the growth division at app.py:100 is defined.
- `Screen` requires `min_svingninger >= 1`, as the input field at app.py:123 enforces. Without it the division at app.py:104 could be by zero.
- `Screening.GoodCount`, `Screening.CountGoodSwings` and `Screening.Decide` require `start_idx - 1 < len(df)` for every pair (`PricesIndexable`). For any other pair, `iloc[start_idx-1]` at app.py:96 raises an IndexError, and the caller at app.py:142-147 records the ticker as failed. The model does not represent that failure. Every detected swing meets the condition, so `Screen` never reaches it.
