/**
  Swing detection over an oscillator (RSI) series: the two-state scan of
  `finn_rsi_svingninger` in app.py.

  The scan walks the indices 1 .. |rsi|-1. While no period is open it opens
  one at the first index where the oscillator crosses the lower threshold
  upwards (previous value strictly below, current value at or above). While
  a period is open it ignores the lower threshold and closes the period at
  the first index where the oscillator crosses the upper threshold strictly
  upwards (previous value at or below, current value strictly above). A
  period still open when the series ends is dropped.
 */
module RsiSwings {

  /** A detected swing: (start index, end index) into the oscillator series. */
  type Period = (nat, nat)

  /** The scan state: `in_period = False`, or `in_period = True` with its `start_idx`. */
  datatype Phase = Seeking | Open(start: nat)

  /** Index `i` is an upward cross of `low`: the condition that opens a period. */
  predicate OpensAt(rsi: seq<real>, i: nat, low: real) {
    1 <= i < |rsi| && rsi[i - 1] < low && rsi[i] >= low
  }

  /** Index `i` is a strict upward cross of `high`: the condition that closes a period. */
  predicate ClosesAt(rsi: seq<real>, i: nat, high: real) {
    1 <= i < |rsi| && rsi[i - 1] <= high && rsi[i] > high
  }

  /** The scan state at index `i` is one the scan can actually be in. */
  predicate PhaseOk(rsi: seq<real>, low: real, i: nat, phase: Phase) {
    phase.Open? ==> phase.start < i && OpensAt(rsi, phase.start, low)
  }

  /** Every pair lies inside the series, starts before it ends, and starts on an opening cross and ends on a closing cross. */
  ghost predicate Crossings(rsi: seq<real>, low: real, high: real, ps: seq<Period>) {
    forall k :: 0 <= k < |ps| ==>
      1 <= ps[k].0 < ps[k].1 < |rsi| && OpensAt(rsi, ps[k].0, low) && ClosesAt(rsi, ps[k].1, high)
  }

  /** No pair starts before `b`. */
  ghost predicate StartsFrom(ps: seq<Period>, b: nat) {
    forall k :: 0 <= k < |ps| ==> ps[k].0 >= b
  }

  /** Each pair starts strictly after every earlier pair ends. */
  ghost predicate Chained(ps: seq<Period>) {
    forall j, k :: 0 <= j < k < |ps| ==> ps[j].1 < ps[k].0
  }

  /** The scan from index `i` in state `phase` to the end of the series. */
  function Scan(rsi: seq<real>, low: real, high: real, i: nat, phase: Phase): seq<Period>
    decreases |rsi| - i
  {
    if i >= |rsi| then []
    else
      match phase
      case Seeking =>
        if OpensAt(rsi, i, low) then Scan(rsi, low, high, i + 1, Open(i))
        else Scan(rsi, low, high, i + 1, Seeking)
      case Open(s) =>
        if ClosesAt(rsi, i, high) then [(s, i)] + Scan(rsi, low, high, i + 1, Seeking)
        else Scan(rsi, low, high, i + 1, Open(s))
  }

  /** From a state the scan can be in, every emitted pair lies inside the series on the crossings that open and close it. */
  lemma {:induction false} ScanCrossings(rsi: seq<real>, low: real, high: real, i: nat, phase: Phase)
    requires PhaseOk(rsi, low, i, phase)
    ensures Crossings(rsi, low, high, Scan(rsi, low, high, i, phase))
    decreases |rsi| - i
  {
    if i < |rsi| {
      match phase
      case Seeking =>
        if OpensAt(rsi, i, low) {
          assert Scan(rsi, low, high, i, phase) == Scan(rsi, low, high, i + 1, Open(i));
          ScanCrossings(rsi, low, high, i + 1, Open(i));
        } else {
          assert Scan(rsi, low, high, i, phase) == Scan(rsi, low, high, i + 1, Seeking);
          ScanCrossings(rsi, low, high, i + 1, Seeking);
        }
      case Open(s) =>
        if ClosesAt(rsi, i, high) {
          var rest := Scan(rsi, low, high, i + 1, Seeking);
          var ps := [(s, i)] + rest;
          assert Scan(rsi, low, high, i, phase) == ps;
          ScanCrossings(rsi, low, high, i + 1, Seeking);
          assert forall k :: 1 <= k < |ps| ==> ps[k] == rest[k - 1];
        } else {
          assert Scan(rsi, low, high, i, phase) == Scan(rsi, low, high, i + 1, Open(s));
          ScanCrossings(rsi, low, high, i + 1, Open(s));
        }
    }
  }

  /** No pair emitted from index `i` starts before `i`, or before the start of the period already open. */
  lemma {:induction false} ScanStarts(rsi: seq<real>, low: real, high: real, i: nat, phase: Phase)
    requires PhaseOk(rsi, low, i, phase)
    ensures StartsFrom(Scan(rsi, low, high, i, phase), if phase.Open? then phase.start else i)
    decreases |rsi| - i
  {
    if i < |rsi| {
      match phase
      case Seeking =>
        if OpensAt(rsi, i, low) {
          assert Scan(rsi, low, high, i, phase) == Scan(rsi, low, high, i + 1, Open(i));
          ScanStarts(rsi, low, high, i + 1, Open(i));
        } else {
          assert Scan(rsi, low, high, i, phase) == Scan(rsi, low, high, i + 1, Seeking);
          ScanStarts(rsi, low, high, i + 1, Seeking);
        }
      case Open(s) =>
        if ClosesAt(rsi, i, high) {
          var rest := Scan(rsi, low, high, i + 1, Seeking);
          var ps := [(s, i)] + rest;
          assert Scan(rsi, low, high, i, phase) == ps;
          ScanStarts(rsi, low, high, i + 1, Seeking);
          assert forall k :: 1 <= k < |ps| ==> ps[k] == rest[k - 1];
        } else {
          assert Scan(rsi, low, high, i, phase) == Scan(rsi, low, high, i + 1, Open(s));
          ScanStarts(rsi, low, high, i + 1, Open(s));
        }
    }
  }

  /** From a state the scan can be in, every emitted pair starts after every earlier pair ends. */
  lemma {:induction false} ScanChained(rsi: seq<real>, low: real, high: real, i: nat, phase: Phase)
    requires PhaseOk(rsi, low, i, phase)
    ensures Chained(Scan(rsi, low, high, i, phase))
    decreases |rsi| - i
  {
    if i < |rsi| {
      match phase
      case Seeking =>
        if OpensAt(rsi, i, low) {
          assert Scan(rsi, low, high, i, phase) == Scan(rsi, low, high, i + 1, Open(i));
          ScanChained(rsi, low, high, i + 1, Open(i));
        } else {
          assert Scan(rsi, low, high, i, phase) == Scan(rsi, low, high, i + 1, Seeking);
          ScanChained(rsi, low, high, i + 1, Seeking);
        }
      case Open(s) =>
        if ClosesAt(rsi, i, high) {
          var rest := Scan(rsi, low, high, i + 1, Seeking);
          var ps := [(s, i)] + rest;
          assert Scan(rsi, low, high, i, phase) == ps;
          ScanChained(rsi, low, high, i + 1, Seeking);
          ScanStarts(rsi, low, high, i + 1, Seeking);
          forall j, k | 0 <= j < k < |ps| ensures ps[j].1 < ps[k].0 {
            assert ps[k] == rest[k - 1];
            if j > 0 {
              assert ps[j] == rest[j - 1];
            } else {
              assert ps[j] == (s, i);
              assert rest[k - 1].0 >= i + 1;
            }
          }
        } else {
          assert Scan(rsi, low, high, i, phase) == Scan(rsi, low, high, i + 1, Open(s));
          ScanChained(rsi, low, high, i + 1, Open(s));
        }
    }
  }

  /** `finn_rsi_svingninger(rsi, low, high)`: the closed periods of the whole series. */
  function Periods(rsi: seq<real>, low: real, high: real): (ps: seq<Period>)
    ensures forall k :: 0 <= k < |ps| ==> 1 <= ps[k].0 < ps[k].1 <= |rsi| - 1
    ensures forall k :: 0 <= k < |ps| ==> OpensAt(rsi, ps[k].0, low) && ClosesAt(rsi, ps[k].1, high)
    ensures forall j, k :: 0 <= j < k < |ps| ==> ps[j].1 < ps[k].0
  {
    ScanCrossings(rsi, low, high, 1, Seeking);
    ScanChained(rsi, low, high, 1, Seeking);
    Scan(rsi, low, high, 1, Seeking)
  }

  /** Chained pairs that start at or after `lo` and end before `n` use two distinct indices each. */
  lemma {:induction false} ChainedCount(ps: seq<Period>, lo: nat, n: nat)
    requires Chained(ps)
    requires forall k :: 0 <= k < |ps| ==> lo <= ps[k].0 < ps[k].1 < n
    ensures 2 * |ps| <= n - lo || (|ps| == 0 && n < lo)
    decreases |ps|
  {
    if |ps| > 0 {
      var rest := ps[1..];
      assert forall k :: 0 <= k < |rest| ==> rest[k] == ps[k + 1];
      ChainedCount(rest, ps[0].1 + 1, n);
    }
  }

  /** A series of length 0 or 1 has no periods; otherwise at most (len-1)/2 of them. */
  lemma PeriodCountBound(rsi: seq<real>, low: real, high: real)
    ensures |rsi| <= 1 ==> Periods(rsi, low, high) == []
    ensures 2 * |Periods(rsi, low, high)| <= |rsi| - 1 || |rsi| == 0
  {
    var ps := Periods(rsi, low, high);
    ChainedCount(ps, 1, |rsi|);
  }

  // ---------------------------------------------------------------------
  // A declarative reference definition of the scan's output
  // ---------------------------------------------------------------------

  /** `s` is the first opening cross at or after `from` (the first crossing wins). */
  ghost predicate FirstOpen(rsi: seq<real>, low: real, from: nat, s: nat) {
    from <= s && OpensAt(rsi, s, low) && forall j :: from <= j < s ==> !OpensAt(rsi, j, low)
  }

  /** `e` is the first closing cross strictly after `s`. */
  ghost predicate FirstClose(rsi: seq<real>, high: real, s: nat, e: nat) {
    s < e && ClosesAt(rsi, e, high) && forall j :: s < j < e ==> !ClosesAt(rsi, j, high)
  }

  /** From `from` on, a period may open but never closes, so nothing more is emitted. */
  ghost predicate NoClosedPeriod(rsi: seq<real>, low: real, high: real, from: nat) {
    forall s :: FirstOpen(rsi, low, from, s) ==> forall e :: s < e ==> !ClosesAt(rsi, e, high)
  }

  /**
    `ps` is exactly the list of periods found when scanning from `from`: each
    pair opens at the first opening cross after the previous pair and closes
    at the first closing cross after its start, and after the last pair no
    period is completed.
   */
  ghost predicate Follows(rsi: seq<real>, low: real, high: real, from: nat, ps: seq<Period>)
    decreases |ps|
  {
    if |ps| == 0 then NoClosedPeriod(rsi, low, high, from)
    else
      && FirstOpen(rsi, low, from, ps[0].0)
      && FirstClose(rsi, high, ps[0].0, ps[0].1)
      && Follows(rsi, low, high, ps[0].1 + 1, ps[1..])
  }

  lemma FirstOpenUnique(rsi: seq<real>, low: real, from: nat, s: nat, t: nat)
    requires FirstOpen(rsi, low, from, s) && FirstOpen(rsi, low, from, t)
    ensures s == t
  {
  }

  lemma FirstCloseUnique(rsi: seq<real>, high: real, s: nat, e: nat, f: nat)
    requires FirstClose(rsi, high, s, e) && FirstClose(rsi, high, s, f)
    ensures e == f
  {
  }

  /** The recursive scan meets the reference definition from any consistent state. */
  lemma {:induction false} ScanFollows(rsi: seq<real>, low: real, high: real, i: nat, phase: Phase, from: nat)
    requires PhaseOk(rsi, low, i, phase)
    requires phase.Seeking? ==> from <= i && forall j :: from <= j < i ==> !OpensAt(rsi, j, low)
    requires phase.Open? ==>
      && FirstOpen(rsi, low, from, phase.start)
      && forall j :: phase.start < j < i ==> !ClosesAt(rsi, j, high)
    ensures Follows(rsi, low, high, from, Scan(rsi, low, high, i, phase))
    decreases |rsi| - i
  {
    var ps := Scan(rsi, low, high, i, phase);
    if i >= |rsi| {
      assert ps == [];
      forall s | FirstOpen(rsi, low, from, s)
        ensures forall e :: s < e ==> !ClosesAt(rsi, e, high)
      {
        if phase.Open? {
          FirstOpenUnique(rsi, low, from, s, phase.start);
        }
      }
    } else {
      match phase
      case Seeking =>
        if OpensAt(rsi, i, low) {
          ScanFollows(rsi, low, high, i + 1, Open(i), from);
        } else {
          ScanFollows(rsi, low, high, i + 1, Seeking, from);
        }
      case Open(s) =>
        if ClosesAt(rsi, i, high) {
          var rest := Scan(rsi, low, high, i + 1, Seeking);
          assert ps == [(s, i)] + rest;
          assert ps[1..] == rest;
          ScanFollows(rsi, low, high, i + 1, Seeking, i + 1);
        } else {
          ScanFollows(rsi, low, high, i + 1, Open(s), from);
        }
    }
  }

  /** The reference definition admits at most one list of periods. */
  lemma {:induction false} FollowsUnique(rsi: seq<real>, low: real, high: real, from: nat, ps: seq<Period>, qs: seq<Period>)
    requires Follows(rsi, low, high, from, ps) && Follows(rsi, low, high, from, qs)
    ensures ps == qs
    decreases |ps|
  {
    if |ps| == 0 && |qs| > 0 {
      assert false;
    } else if |ps| > 0 && |qs| == 0 {
      assert false;
    } else if |ps| > 0 {
      FirstOpenUnique(rsi, low, from, ps[0].0, qs[0].0);
      FirstCloseUnique(rsi, high, ps[0].0, ps[0].1, qs[0].1);
      FollowsUnique(rsi, low, high, ps[0].1 + 1, ps[1..], qs[1..]);
      assert ps == [ps[0]] + ps[1..] && qs == [qs[0]] + qs[1..];
    }
  }

  /** `Periods` is exactly the list the reference definition describes, and the only one. */
  lemma PeriodsCharacterized(rsi: seq<real>, low: real, high: real, ps: seq<Period>)
    ensures Follows(rsi, low, high, 1, ps) <==> ps == Periods(rsi, low, high)
  {
    ScanFollows(rsi, low, high, 1, Seeking, 1);
    if Follows(rsi, low, high, 1, ps) {
      FollowsUnique(rsi, low, high, 1, ps, Periods(rsi, low, high));
    }
  }

  /** The loop of `finn_rsi_svingninger`, with `in_period`/`start_idx` held in `phase`. */
  method FindPeriods(rsi: seq<real>, low: real, high: real) returns (periods: seq<Period>)
    ensures periods == Periods(rsi, low, high)
  {
    periods := [];
    var phase := Seeking;
    var i := 1;
    while i < |rsi|
      invariant 1 <= i
      invariant PhaseOk(rsi, low, i, phase)
      invariant periods + Scan(rsi, low, high, i, phase) == Scan(rsi, low, high, 1, Seeking)
      decreases |rsi| - i
    {
      ghost var rest := Scan(rsi, low, high, i, phase);
      match phase {
        case Seeking =>
          if rsi[i - 1] < low && rsi[i] >= low {
            phase := Open(i);
          }
          assert rest == Scan(rsi, low, high, i + 1, phase);
        case Open(s) =>
          if rsi[i - 1] <= high && rsi[i] > high {
            ghost var later := Scan(rsi, low, high, i + 1, Seeking);
            assert rest == [(s, i)] + later;
            assert periods + rest == (periods + [(s, i)]) + later;
            periods := periods + [(s, i)];
            phase := Seeking;
          } else {
            assert rest == Scan(rsi, low, high, i + 1, phase);
          }
      }
      assert periods + Scan(rsi, low, high, i + 1, phase) == Scan(rsi, low, high, 1, Seeking);
      i := i + 1;
    }
  }

  // ---------------------------------------------------------------------
  // Worked examples of the boundary rules
  // ---------------------------------------------------------------------

  /** The second upward cross of the lower threshold (at 3) does not move the start (1). */
  lemma ExampleFirstCrossingWins()
    ensures Periods([10.0, 25.0, 10.0, 25.0, 80.0], 20.0, 70.0) == [(1, 4)]
  {
  }

  /** Reaching the lower threshold exactly opens a period; reaching the upper one exactly does not close it. */
  lemma ExampleThresholdEquality()
    ensures Periods([19.0, 20.0, 70.0, 71.0], 20.0, 70.0) == [(1, 3)]
  {
  }

  /** A period opened at 3 is still open when the series ends, so nothing is reported. */
  lemma ExampleOpenPeriodDropped()
    ensures OpensAt([22.0, 20.0, 19.0, 71.0, 70.0], 3, 20.0)
    ensures !ClosesAt([22.0, 20.0, 19.0, 71.0, 70.0], 4, 70.0)
    ensures Periods([22.0, 20.0, 19.0, 71.0, 70.0], 20.0, 70.0) == []
  {
  }
}
