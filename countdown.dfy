/** The start-sequence countdown of countdown.js: its catalog, the display
    with "GO!", and the page whose handlers update it. The timer is the
    `ticking` flag (an interval is set) and an explicit `OnTick` call. The
    handlers and runs are stated over the catalog `c` they read, which on
    the page is always `Sequences()`. */
module Countdown {
  import opened JsSemantics
  import opened ClockFace
  import opened StartSequence
  import opened CountdownRun

  /** The `sequences` object of countdown.js. Both sequences list distinct
      times from their duration down to 0, both included, and end on the
      silent "GO!" entry. */
  function Sequences(): (c: Catalog)
    ensures c.Keys == {"5", "3"} && WellFormedCatalog(c)
    ensures forall key :: key in c ==> EndsOn(c[key], Signal(0, Null, "GO!"))
  {
    CatalogOf(FiveMinuteSequence(), ThreeMinuteSequence())
  }

  /** The selector's two keys bound to the five- and three-minute
      sequences. */
  function CatalogOf(five: Sequence, three: Sequence): (c: Catalog)
    requires WellFormed(five) && EndsOn(five, Signal(0, Null, "GO!"))
    requires WellFormed(three) && EndsOn(three, Signal(0, Null, "GO!"))
    ensures c.Keys == {"5", "3"} && WellFormedCatalog(c)
    ensures forall key :: key in c ==> EndsOn(c[key], Signal(0, Null, "GO!"))
  {
    var c := map["5" := five, "3" := three];
    assert c.Keys == {"5", "3"} && c["5"] == five && c["3"] == three;
    c
  }

  /** The five-minute sequence of countdown.js. */
  function FiveMinuteSequence(): (q: Sequence)
    ensures WellFormed(q) && q.duration == 300 && EndsOn(q, Signal(0, Null, "GO!"))
  {
    Sequence(300, [
      Signal(300, Value(WarningSignal), "Warning Signal (5 Min)"),
      Signal(240, Value(PreparatorySignal), "Preparatory Signal (4 Min)"),
      Signal(180, Value(PreparatorySignal), "3 Minutes to Start"),
      Signal(120, Value(PreparatorySignal), "2 Minutes to Start"),
      Signal(60, Value(PreparatorySignal), "1 Minute to Start"),
      Signal(30, Value(PreparatorySignal), "30 Seconds"),
      Signal(20, Value(PreparatorySignal), "20 Seconds"),
      Signal(10, Value(PreparatorySignal), "10 Seconds"),
      Signal(3, Value(StartSignal), "Starting Signal Imminent"),
      Signal(0, Null, "GO!")])
  }

  /** The three-minute sequence of countdown.js. */
  function ThreeMinuteSequence(): (q: Sequence)
    ensures WellFormed(q) && q.duration == 180 && EndsOn(q, Signal(0, Null, "GO!"))
  {
    Sequence(180, [
      Signal(180, Value(WarningSignal), "Warning Signal (3 Min)"),
      Signal(120, Value(PreparatorySignal), "2 Minutes to Start"),
      Signal(60, Value(PreparatorySignal), "1 Minute to Start"),
      Signal(30, Value(PreparatorySignal), "30 Seconds"),
      Signal(20, Value(PreparatorySignal), "20 Seconds"),
      Signal(10, Value(PreparatorySignal), "10 Seconds"),
      Signal(3, Value(StartSignal), "Starting Signal Imminent"),
      Signal(0, Null, "GO!")])
  }

  /** The interval callback clears the interval once `timeLeft < 0`, so it
      keeps running down to a count of 0. */
  const LowestRunningCount := 0

  /** `updateCountdownDisplay`: "GO!" exactly when the count is not
      positive, and otherwise an `m:ss` text that reads back as the count. */
  function Display(t: int): (r: string)
    ensures r == "GO!" <==> t <= 0
    ensures t > 0 ==> ParseClock(r) == Value(t)
  {
    if t <= 0 then "GO!"
    else
      ParseClockText(t);
      ClockText(t)
  }

  /** For a positive count the display is the minutes, a colon and exactly
      two digits of seconds. */
  lemma DisplayText(t: int)
    requires t > 0
    ensures Display(t) == NatText(t / 60) + ":" + [DigitChar(t % 60 / 10), DigitChar(t % 60 % 10)]
  {
    ClockTextOfNatural(t);
  }

  lemma DisplayExamples()
    ensures Display(300) == "5:00" && Display(65) == "1:05" && Display(9) == "0:09"
    ensures Display(0) == "GO!" && Display(-1) == "GO!"
  {
    ClockExamples();
  }

  /** An uninterrupted run ticks `duration + 1` times: the last tick takes
      the count from 0 to -1, plays nothing and leaves "GO!" on display. */
  lemma FinalTickSilent(c: Catalog, s: State)
    requires WellFormedCatalog(c) && s.selected in c
    ensures var d := c[s.selected].duration;
      var before := Run(c, Started(c, s), LowestRunningCount, d);
      var after := Run(c, Started(c, s), LowestRunningCount, d + 1);
      before.timeLeft == 0 && after.timeLeft == -1 && !after.ticking &&
      after.played == before.played && Display(after.timeLeft) == "GO!"
  {
    var q := c[s.selected];
    assert WellFormed(q);
    RunProgress(c, s, LowestRunningCount, q.duration);
    RunProgress(c, s, LowestRunningCount, q.duration + 1);
    RunFiresEachSignalOnce(q, 0);
    RunFiresEachSignalOnce(q, -1);
  }

  /** On the page's own catalog a run ends at -1 with display and status
      "GO!". */
  lemma PageRunEndsOnGo(s: State)
    requires s.selected in Sequences()
    ensures var r := Run(Sequences(), Started(Sequences(), s), LowestRunningCount, Sequences()[s.selected].duration + 1);
      r.status == "GO!" && Display(r.timeLeft) == "GO!" && r.timeLeft == -1
  {
    RunToEnd(Sequences(), s, LowestRunningCount);
  }

  /** The page: the closure variables and DOM properties the countdown
      handlers read and write. */
  class CountdownPage {
    const sequences: Catalog
    var selected: string
    var timeLeft: int
    var ticking: bool
    var display: string
    var status: string
    var startDisabled: bool
    var stopDisabled: bool
    var played: seq<Sound>

    function Snapshot(): State
      reads this
    {
      State(selected, timeLeft, ticking, status, startDisabled, stopDisabled, played)
    }

    ghost predicate Valid()
      reads this
    {
      WellFormedCatalog(sequences) && Consistent(sequences, Snapshot(), LowestRunningCount) &&
      display == Display(timeLeft)
    }

    /** `DOMContentLoaded`: wire the handlers, then `stopCountdown()`. */
    constructor (selection: string)
      ensures Valid() && sequences == Sequences()
      ensures Snapshot() == Stopped(Sequences(), Initial(selection))
    {
      sequences := Sequences();
      selected, timeLeft, ticking := selection, 0, false;
      display, status := "", "";
      startDisabled, stopDisabled := false, false;
      played := [];
      new;
      StopCountdown();
    }

    /** `updateCountdownDisplay`. */
    method UpdateCountdownDisplay()
      modifies this
      ensures Snapshot() == old(Snapshot()) && display == Display(timeLeft)
    {
      var minutes := FloorDiv(timeLeft, 60);
      var seconds := Rem(timeLeft, 60);
      if timeLeft <= 0 {
        display := "GO!";
      } else {
        display := IntText(minutes) + ":" + (if seconds < 10 then "0" else "") + IntText(seconds);
      }
    }

    /** `playCountdownSignal`: the `forEach` over the matching entries. */
    method PlayCountdownSignal()
      modifies this
      ensures Snapshot() == Dispatch(sequences, old(Snapshot())) && display == old(display)
    {
      if selected !in sequences {
        return;
      }
      var upcoming := Matching(sequences[selected].signals, timeLeft);
      PlayEach(upcoming);
    }

    /** The `forEach` callback over the matching entries: play the sound,
        if any, and show the text. */
    method PlayEach(upcoming: seq<Signal>)
      modifies this
      ensures Snapshot() == old(Snapshot()).(played := old(played) + Sounds(upcoming),
                                             status := LastText(upcoming, old(status)))
      ensures display == old(display)
    {
      var i := 0;
      while i < |upcoming|
        invariant 0 <= i <= |upcoming|
        invariant played == old(played) + Sounds(upcoming[..i])
        invariant status == LastText(upcoming[..i], old(status))
        invariant selected == old(selected) && timeLeft == old(timeLeft) && ticking == old(ticking)
        invariant startDisabled == old(startDisabled) && stopDisabled == old(stopDisabled)
        invariant display == old(display)
      {
        var signal := upcoming[i];
        PrefixStep(upcoming, i, old(status));
        if signal.sound.Value? {
          assert (old(played) + Sounds(upcoming[..i])) + [signal.sound.value] ==
                 old(played) + (Sounds(upcoming[..i]) + [signal.sound.value]);
          played := played + [signal.sound.value];
        }
        status := signal.text;
        i := i + 1;
      }
      assert upcoming[..i] == upcoming;
    }

    /** `startCountdown`. */
    method StartCountdown()
      requires Valid()
      modifies this
      ensures Valid()
      ensures Snapshot() == Started(sequences, old(Snapshot()))
    {
      ticking := false;
      if selected !in sequences {
        return;
      }
      timeLeft := sequences[selected].duration;
      UpdateCountdownDisplay();
      PlayCountdownSignal();
      ticking := true;
      startDisabled := true;
      stopDisabled := false;
    }

    /** The interval callback; it only runs while the interval is set. */
    method OnTick()
      requires Valid() && ticking
      modifies this
      ensures Valid()
      ensures Snapshot() == Ticked(sequences, old(Snapshot()), LowestRunningCount)
    {
      timeLeft := timeLeft - 1;
      UpdateCountdownDisplay();
      PlayCountdownSignal();
      if timeLeft < 0 {
        ticking := false;
      }
    }

    /** `stopCountdown`. */
    method StopCountdown()
      requires WellFormedCatalog(sequences)
      modifies this
      ensures Valid()
      ensures Snapshot() == Stopped(sequences, old(Snapshot()))
    {
      ticking := false;
      timeLeft := if selected in sequences then sequences[selected].duration else DefaultDuration;
      UpdateCountdownDisplay();
      status := StoppedText;
      startDisabled := false;
      stopDisabled := true;
    }

    /** The sequence selector's `change` listener. */
    method ChangeSequence(key: string)
      requires Valid()
      modifies this
      ensures Valid()
      ensures Snapshot() == Reselected(sequences, old(Snapshot()), key)
    {
      selected := key;
      StopCountdown();
    }

    /** The manual horn button's `click` listener. */
    method SoundHorn()
      requires Valid()
      modifies this
      ensures Valid()
      ensures Snapshot() == HornSounded(old(Snapshot()))
    {
      played := played + [ManualHornSound];
      status := HornText;
    }
  }
}
