/** The start-sequence countdown of countdown_bu.js, the older version of
    the page: its own catalog, a display that is always `m:ss`, and an
    interval that is cleared as soon as the count reaches 0. The handlers
    and runs are those of the shared modules, with this version's catalog
    and interval test. */
module CountdownBackup {
  import opened JsSemantics
  import opened ClockFace
  import opened StartSequence
  import opened CountdownRun

  /** The `sequences` object of countdown_bu.js. Both sequences have
      distinct signal times within [0, duration], listed from the duration
      down to 0, both included, and end on the starting signal. */
  function Sequences(): (c: Catalog)
    ensures c.Keys == {"5", "3"} && WellFormedCatalog(c)
    ensures forall key :: key in c ==> EndsOn(c[key], Signal(0, Value(StartSignal), "Starting Signal"))
  {
    CatalogOf(FiveMinuteSequence(), ThreeMinuteSequence())
  }

  /** The selector's two keys bound to the five- and three-minute
      sequences. */
  function CatalogOf(five: Sequence, three: Sequence): (c: Catalog)
    requires WellFormed(five) && EndsOn(five, Signal(0, Value(StartSignal), "Starting Signal"))
    requires WellFormed(three) && EndsOn(three, Signal(0, Value(StartSignal), "Starting Signal"))
    ensures c.Keys == {"5", "3"} && WellFormedCatalog(c)
    ensures forall key :: key in c ==> EndsOn(c[key], Signal(0, Value(StartSignal), "Starting Signal"))
  {
    var c := map["5" := five, "3" := three];
    assert c.Keys == {"5", "3"} && c["5"] == five && c["3"] == three;
    c
  }

  /** The five-minute sequence of countdown_bu.js (rule 26 of the Racing Rules of Sailing). */
  function FiveMinuteSequence(): (q: Sequence)
    ensures WellFormed(q) && q.duration == 300 && EndsOn(q, Signal(0, Value(StartSignal), "Starting Signal"))
  {
    Sequence(300, [
      Signal(300, Value(WarningSignal), "Warning Signal (5 Min)"),
      Signal(240, Value(PreparatorySignal), "Preparatory Signal (4 Min)"),
      Signal(60, Value(OneMinuteSignal), "One Minute Signal"),
      Signal(0, Value(StartSignal), "Starting Signal")])
  }

  /** The three-minute sequence of countdown_bu.js. */
  function ThreeMinuteSequence(): (q: Sequence)
    ensures WellFormed(q) && q.duration == 180 && EndsOn(q, Signal(0, Value(StartSignal), "Starting Signal"))
  {
    Sequence(180, [
      Signal(180, Value(WarningSignal), "Warning Signal (3 Min)"),
      Signal(120, Value(PreparatorySignal), "Preparatory Signal (2 Min)"),
      Signal(60, Value(OneMinuteSignal), "One Minute Signal"),
      Signal(0, Value(StartSignal), "Starting Signal")])
  }

  /** The interval callback clears the interval once `timeLeft <= 0`, so it
      keeps running only down to a count of 1. */
  const LowestRunningCount := 1

  /** `updateDisplay` has no "GO!" case: a count of 0 shows "0:00". */
  lemma DisplayExamples()
    ensures ClockText(300) == "5:00" && ClockText(65) == "1:05" && ClockText(9) == "0:09"
    ensures ClockText(0) == "0:00"
  {
    ClockExamples();
    ClockTextOfNatural(0);
  }

  /** However many periods pass after a start, the count never goes
      negative and never exceeds the duration. */
  lemma RunNeverNegative(c: Catalog, s: State, n: nat)
    requires WellFormedCatalog(c) && s.selected in c
    ensures 0 <= Run(c, Started(c, s), LowestRunningCount, n).timeLeft <= c[s.selected].duration
  {
    RunStaysInRange(c, s, LowestRunningCount, n);
  }

  /** On the page's own catalog a run ticks exactly `duration` times and
      ends at 0 showing "0:00" with status "Starting Signal". */
  lemma PageRunEndsOnStart(s: State)
    requires s.selected in Sequences()
    ensures var r := Run(Sequences(), Started(Sequences(), s), LowestRunningCount, Sequences()[s.selected].duration);
      r.status == "Starting Signal" && ClockText(r.timeLeft) == "0:00" && r.timeLeft == 0 && !r.ticking
  {
    RunToEnd(Sequences(), s, LowestRunningCount);
    DisplayExamples();
  }

  /** The page: the closure variables and DOM properties the countdown
      handlers read and write. */
  class CountdownPage {
    const sequences: Catalog
    var selected: string
    var timeLeft: int
    var ticking: bool
    var display: string
    var status: string
    var startDisabled: bool
    var stopDisabled: bool
    var played: seq<Sound>

    function Snapshot(): State
      reads this
    {
      State(selected, timeLeft, ticking, status, startDisabled, stopDisabled, played)
    }

    ghost predicate Valid()
      reads this
    {
      WellFormedCatalog(sequences) && Consistent(sequences, Snapshot(), LowestRunningCount) &&
      display == ClockText(timeLeft)
    }

    /** `DOMContentLoaded`: wire the handlers, then `stopCountdown()`. */
    constructor (selection: string)
      ensures Valid() && sequences == Sequences()
      ensures Snapshot() == Stopped(Sequences(), Initial(selection))
    {
      sequences := Sequences();
      selected, timeLeft, ticking := selection, 0, false;
      display, status := "", "";
      startDisabled, stopDisabled := false, false;
      played := [];
      new;
      StopCountdown();
    }

    /** `updateDisplay`. */
    method UpdateDisplay()
      modifies this
      ensures Snapshot() == old(Snapshot()) && display == ClockText(timeLeft)
    {
      var minutes := FloorDiv(timeLeft, 60);
      var seconds := Rem(timeLeft, 60);
      display := IntText(minutes) + ":" + (if seconds < 10 then "0" else "") + IntText(seconds);
    }

    /** `playSignal`: the `forEach` over the matching entries. */
    method PlaySignal()
      modifies this
      ensures Snapshot() == Dispatch(sequences, old(Snapshot())) && display == old(display)
    {
      if selected !in sequences {
        return;
      }
      var upcoming := Matching(sequences[selected].signals, timeLeft);
      PlayEach(upcoming);
    }

    /** The `forEach` callback over the matching entries: play the sound,
        if any, and show the text. */
    method PlayEach(upcoming: seq<Signal>)
      modifies this
      ensures Snapshot() == old(Snapshot()).(played := old(played) + Sounds(upcoming),
                                             status := LastText(upcoming, old(status)))
      ensures display == old(display)
    {
      var i := 0;
      while i < |upcoming|
        invariant 0 <= i <= |upcoming|
        invariant played == old(played) + Sounds(upcoming[..i])
        invariant status == LastText(upcoming[..i], old(status))
        invariant selected == old(selected) && timeLeft == old(timeLeft) && ticking == old(ticking)
        invariant startDisabled == old(startDisabled) && stopDisabled == old(stopDisabled)
        invariant display == old(display)
      {
        var signal := upcoming[i];
        PrefixStep(upcoming, i, old(status));
        if signal.sound.Value? {
          assert (old(played) + Sounds(upcoming[..i])) + [signal.sound.value] ==
                 old(played) + (Sounds(upcoming[..i]) + [signal.sound.value]);
          played := played + [signal.sound.value];
        }
        status := signal.text;
        i := i + 1;
      }
      assert upcoming[..i] == upcoming;
    }

    /** `startCountdown`. */
    method StartCountdown()
      requires Valid()
      modifies this
      ensures Valid()
      ensures Snapshot() == Started(sequences, old(Snapshot()))
    {
      ticking := false;
      if selected !in sequences {
        return;
      }
      timeLeft := sequences[selected].duration;
      UpdateDisplay();
      PlaySignal();
      ticking := true;
      startDisabled := true;
      stopDisabled := false;
    }

    /** The interval callback; it only runs while the interval is set. */
    method OnTick()
      requires Valid() && ticking
      modifies this
      ensures Valid()
      ensures Snapshot() == Ticked(sequences, old(Snapshot()), LowestRunningCount)
    {
      timeLeft := timeLeft - 1;
      UpdateDisplay();
      PlaySignal();
      if timeLeft <= 0 {
        ticking := false;
      }
    }

    /** `stopCountdown`. */
    method StopCountdown()
      requires WellFormedCatalog(sequences)
      modifies this
      ensures Valid()
      ensures Snapshot() == Stopped(sequences, old(Snapshot()))
    {
      ticking := false;
      timeLeft := if selected in sequences then sequences[selected].duration else DefaultDuration;
      UpdateDisplay();
      status := StoppedText;
      startDisabled := false;
      stopDisabled := true;
    }

    /** The sequence selector's `change` listener. */
    method ChangeSequence(key: string)
      requires Valid()
      modifies this
      ensures Valid()
      ensures Snapshot() == Reselected(sequences, old(Snapshot()), key)
    {
      selected := key;
      StopCountdown();
    }

    /** The manual horn button's `click` listener. */
    method SoundHorn()
      requires Valid()
      modifies this
      ensures Valid()
      ensures Snapshot() == HornSounded(old(Snapshot()))
    {
      played := played + [ManualHornSound];
      status := HornText;
    }
  }
}
