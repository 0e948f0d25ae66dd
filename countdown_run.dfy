/** The interval callback and the uninterrupted runs it produces, for both
    versions of the page. The versions differ only in when the callback
    clears its interval: countdown.js once the count is below 0,
    countdown_bu.js once it is 0 or below. Both are "below `lowest`", the
    lowest count at which the interval is kept: 0 for countdown.js, 1 for
    countdown_bu.js. */
module CountdownRun {
  import opened StartSequence

  /** The interval callback: count down, show, dispatch the entries at the
      new count, and clear the interval once the count is below `lowest`.
      The buttons and the selection are untouched. */
  function Ticked(c: Catalog, s: State, lowest: int): (r: State)
    ensures r.timeLeft == s.timeLeft - 1
    ensures r.ticking <==> s.ticking && r.timeLeft >= lowest
    ensures r.(timeLeft := s.timeLeft, ticking := s.ticking, played := s.played, status := s.status) == s
  {
    var t := s.timeLeft - 1;
    var s := Dispatch(c, s.(timeLeft := t));
    if t < lowest then s.(ticking := false) else s
  }

  /** The state after `n` timer periods: each period runs the callback while
      the interval is still set. The count falls by at most one per period,
      and without an interval nothing changes. */
  function Run(c: Catalog, s: State, lowest: int, n: nat): (r: State)
    ensures r.selected == s.selected
    ensures s.timeLeft - n <= r.timeLeft <= s.timeLeft
    ensures !s.ticking ==> r == s
  {
    if n == 0 then s
    else
      var p := Run(c, s, lowest, n - 1);
      if p.ticking then Ticked(c, p, lowest) else p
  }

  /** What every handler keeps: the count never drops below `lowest - 1`,
      and an interval is only set for a known sequence with a count between
      `lowest` and its duration. */
  predicate Consistent(c: Catalog, s: State, lowest: int) {
    s.timeLeft >= lowest - 1 &&
    (s.ticking ==> s.selected in c && lowest <= s.timeLeft <= c[s.selected].duration)
  }

  /** Start, tick, stop, selector change and horn keep the state
      consistent, for either version's `lowest`. */
  lemma HandlersKeepConsistent(c: Catalog, s: State, key: string, lowest: int)
    requires WellFormedCatalog(c) && lowest <= 1 && Consistent(c, s, lowest)
    ensures Consistent(c, Stopped(c, s), lowest) && Consistent(c, Reselected(c, s, key), lowest)
    ensures Consistent(c, Started(c, s), lowest) && Consistent(c, HornSounded(s), lowest)
    ensures s.ticking ==> Consistent(c, Ticked(c, s, lowest), lowest)
  {
  }

  /** One tick lowers the count by exactly one, dispatches exactly the
      entries at the new count and clears the interval exactly when the new
      count is below `lowest`. */
  lemma TickStep(c: Catalog, s: State, lowest: int)
    requires s.selected in c && s.ticking
    ensures var t := s.timeLeft - 1; var m := Matching(c[s.selected].signals, t);
      Ticked(c, s, lowest) == s.(timeLeft := t, ticking := t >= lowest,
                                 played := s.played + Sounds(m), status := LastText(m, s.status))
  {
  }

  /** The state `k` periods into an uninterrupted run started from `s`:
      count `duration - k`, the interval still set while the count is at
      least `lowest`, and exactly the entries for the counts visited so far
      dispatched. */
  function Progress(c: Catalog, s: State, lowest: int, k: int): State
    requires s.selected in c
  {
    var q := c[s.selected];
    var t := q.duration - k;
    var fired := FiredFrom(q.signals, q.duration, t);
    s.(timeLeft := t, ticking := t >= lowest,
       startDisabled := true, stopDisabled := false,
       played := s.played + Sounds(fired), status := LastText(fired, s.status))
  }

  /** A run follows `Progress` period by period until the interval is
      cleared, `duration + 1 - lowest` periods after the start. */
  lemma {:induction false} RunProgress(c: Catalog, s: State, lowest: int, k: nat)
    requires s.selected in c && c[s.selected].duration >= lowest
    requires k <= c[s.selected].duration + 1 - lowest
    ensures Run(c, Started(c, s), lowest, k) == Progress(c, s, lowest, k)
  {
    if k == 0 {
      ProgressAtStart(c, s, lowest);
    } else {
      RunProgress(c, s, lowest, k - 1);
      ProgressByTick(c, s, lowest, k);
    }
  }

  /** Start is the run's first state. */
  lemma ProgressAtStart(c: Catalog, s: State, lowest: int)
    requires s.selected in c && c[s.selected].duration >= lowest
    ensures Started(c, s) == Progress(c, s, lowest, 0)
  {
    var q := c[s.selected];
    assert FiredFrom(q.signals, q.duration - 1, q.duration) == [];
    assert FiredFrom(q.signals, q.duration, q.duration) == Matching(q.signals, q.duration);
  }

  /** Each tick of the run moves it one period on. */
  lemma ProgressByTick(c: Catalog, s: State, lowest: int, k: int)
    requires s.selected in c && 1 <= k <= c[s.selected].duration + 1 - lowest
    ensures Progress(c, s, lowest, k - 1).ticking
    ensures Ticked(c, Progress(c, s, lowest, k - 1), lowest) == Progress(c, s, lowest, k)
  {
    var q := c[s.selected];
    var t := q.duration - k;
    var before := FiredFrom(q.signals, q.duration, t + 1);
    var p := Progress(c, s, lowest, k - 1);
    assert p == s.(timeLeft := t + 1, ticking := true, startDisabled := true, stopDisabled := false,
                   played := s.played + Sounds(before), status := LastText(before, s.status));
    TraceStep(q.signals, q.duration, t, s.played, s.status);
  }

  /** An uninterrupted run of a well-formed sequence keeps its interval for
      `duration + 1 - lowest` ticks and then ends at `lowest - 1` with the
      interval cleared, having played every sound of the sequence once, in
      descending time order, with the last entry's text as status. */
  lemma RunToEnd(c: Catalog, s: State, lowest: int)
    requires WellFormedCatalog(c) && s.selected in c && lowest <= 1
    ensures var d := c[s.selected].duration;
      forall k :: 0 <= k <= d - lowest ==> Run(c, Started(c, s), lowest, k).ticking
    ensures var q := c[s.selected]; var r := Run(c, Started(c, s), lowest, q.duration + 1 - lowest);
      r.timeLeft == lowest - 1 && !r.ticking &&
      r.played == s.played + Sounds(q.signals) &&
      r.status == q.signals[|q.signals| - 1].text
  {
    var d := c[s.selected].duration;
    assert WellFormed(c[s.selected]);
    forall k | 0 <= k <= d - lowest ensures Run(c, Started(c, s), lowest, k).ticking {
      RunProgress(c, s, lowest, k);
    }
    RunEnd(c, s, lowest);
  }

  /** The state in which an uninterrupted run of a well-formed sequence
      ends. */
  lemma RunEnd(c: Catalog, s: State, lowest: int)
    requires s.selected in c && WellFormed(c[s.selected]) && lowest <= 1
    ensures var q := c[s.selected]; var r := Run(c, Started(c, s), lowest, q.duration + 1 - lowest);
      r.timeLeft == lowest - 1 && !r.ticking &&
      r.played == s.played + Sounds(q.signals) &&
      r.status == q.signals[|q.signals| - 1].text
  {
    ProgressEnd(c, s, lowest);
    RunProgress(c, s, lowest, c[s.selected].duration + 1 - lowest);
  }

  /** The last state of the run, read off `Progress`. */
  lemma ProgressEnd(c: Catalog, s: State, lowest: int)
    requires s.selected in c && WellFormed(c[s.selected]) && lowest <= 1
    ensures var q := c[s.selected]; var p := Progress(c, s, lowest, q.duration + 1 - lowest);
      p.timeLeft == lowest - 1 && !p.ticking &&
      p.played == s.played + Sounds(q.signals) &&
      p.status == q.signals[|q.signals| - 1].text
  {
    RunFiresEachSignalOnce(c[s.selected], lowest - 1);
  }

  /** Once the interval is cleared, further periods change nothing: the
      count never moves again without a new start. */
  lemma {:induction false} RunStaysFinished(c: Catalog, s: State, lowest: int, m: nat, n: nat)
    requires m <= n && !Run(c, s, lowest, m).ticking
    ensures Run(c, s, lowest, n) == Run(c, s, lowest, m)
  {
    if n > m {
      RunStaysFinished(c, s, lowest, m, n - 1);
    }
  }

  /** However many periods pass after a start, the count stays between
      `lowest - 1` and the duration. */
  lemma RunStaysInRange(c: Catalog, s: State, lowest: int, n: nat)
    requires WellFormedCatalog(c) && s.selected in c && lowest <= 1
    ensures lowest - 1 <= Run(c, Started(c, s), lowest, n).timeLeft <= c[s.selected].duration
  {
    var e := c[s.selected].duration + 1 - lowest;
    if n <= e {
      RunProgress(c, s, lowest, n);
    } else {
      RunProgress(c, s, lowest, e);
      RunStaysFinished(c, Started(c, s), lowest, e, n);
    }
  }
}
