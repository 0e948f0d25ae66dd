/** What the two versions of the countdown page share: the shape of a
    sequence catalog, the state the page keeps, and the signal dispatch
    (`signals.filter(s => s.time === timeLeft).forEach(...)`). */
module StartSequence {
  import opened JsSemantics

  /** The page's audio elements. */
  datatype Sound = WarningSignal | PreparatorySignal | OneMinuteSignal | StartSignal | ManualHornSound

  /** A catalog entry `{ time, sound, text }`: at `time` seconds left, play
      `sound` (when it is not `null`) and show `text` as the status. */
  datatype Signal = Signal(time: int, sound: Nullable<Sound>, text: string)

  /** A catalog sequence `{ duration, signals }`. */
  datatype Sequence = Sequence(duration: int, signals: seq<Signal>)

  /** The `sequences` object, keyed by the value of the sequence selector. */
  type Catalog = map<string, Sequence>

  /** Everything the countdown changes: the selector's value, `timeLeft`,
      whether an interval is set, the status text, the two buttons'
      `disabled` flags and the sounds played so far. The display text is
      always the rendering of `timeLeft` (every write of the count is
      followed by a display update), so the page classes keep it as an
      invariant rather than as part of this state. */
  datatype State = State(
    selected: string,
    timeLeft: int,
    ticking: bool,
    status: string,
    startDisabled: bool,
    stopDisabled: bool,
    played: seq<Sound>)

  const StoppedText := "Sequence Stopped/Reset."
  const HornText := "Manual Horn Sounded"

  /** The count `stopCountdown` falls back to when the selector's value is
      not a catalog key. */
  const DefaultDuration := 300

  /** `signals.filter(s => s.time === t)`. */
  function Matching(sigs: seq<Signal>, t: int): (r: seq<Signal>)
    ensures forall x :: x in r ==> x.time == t
    ensures |r| <= |sigs|
  {
    if sigs == [] then []
    else (if sigs[0].time == t then [sigs[0]] else []) + Matching(sigs[1..], t)
  }

  /** The filter keeps exactly the entries at time `t`. */
  lemma {:induction false} MatchingMembers(sigs: seq<Signal>, t: int)
    ensures forall x :: x in Matching(sigs, t) <==> x in sigs && x.time == t
  {
    if sigs != [] {
      MatchingMembers(sigs[1..], t);
      assert forall x :: x in sigs <==> x == sigs[0] || x in sigs[1..];
    }
  }

  /** Filtering keeps definition order: it distributes over concatenation. */
  lemma {:induction false} MatchingAppend(a: seq<Signal>, b: seq<Signal>, t: int)
    ensures Matching(a + b, t) == Matching(a, t) + Matching(b, t)
  {
    if a == [] {
      assert a + b == b;
    } else {
      assert (a + b)[0] == a[0] && (a + b)[1..] == a[1..] + b;
      MatchingAppend(a[1..], b, t);
      var head := if a[0].time == t then [a[0]] else [];
      assert Matching(a, t) == head + Matching(a[1..], t);
      assert head + (Matching(a[1..], t) + Matching(b, t)) == (head + Matching(a[1..], t)) + Matching(b, t);
    }
  }

  /** Nothing matches a time no entry carries. */
  lemma MatchingNone(sigs: seq<Signal>, t: int)
    requires forall x :: x in sigs ==> x.time != t
    ensures Matching(sigs, t) == []
  {
    MatchingMembers(sigs, t);
    var r := Matching(sigs, t);
    assert forall i :: 0 <= i < |r| ==> r[i] in r;
  }

  /** The sounds a run over `sigs` plays: the non-null ones, in order. */
  function Sounds(sigs: seq<Signal>): seq<Sound> {
    if sigs == [] then []
    else (if sigs[0].sound.Value? then [sigs[0].sound.value] else []) + Sounds(sigs[1..])
  }

  lemma {:induction false} SoundsAppend(a: seq<Signal>, b: seq<Signal>)
    ensures Sounds(a + b) == Sounds(a) + Sounds(b)
  {
    if a == [] {
      assert a + b == b;
    } else {
      assert (a + b)[0] == a[0] && (a + b)[1..] == a[1..] + b;
      var head := if a[0].sound.Value? then [a[0].sound.value] else [];
      assert Sounds(a + b) == head + Sounds(a[1..] + b);
      SoundsAppend(a[1..], b);
      assert Sounds(a) == head + Sounds(a[1..]);
      assert head + (Sounds(a[1..]) + Sounds(b)) == (head + Sounds(a[1..])) + Sounds(b);
    }
  }

  /** The status text after `forEach` has written each entry's text in turn:
      the last entry's, or `status` when there is none. */
  function LastText(sigs: seq<Signal>, status: string): string {
    if sigs == [] then status else sigs[|sigs| - 1].text
  }

  /** Writing the texts of `a` and then of `b` leaves the text `a + b` leaves. */
  lemma LastTextAppend(a: seq<Signal>, b: seq<Signal>, status: string)
    ensures LastText(a + b, status) == LastText(b, LastText(a, status))
  {
    if b == [] {
      assert a + b == a;
    }
  }

  /** One more entry of a `forEach` over `sigs`: its sound, if any, is
      played after the earlier ones, and its text becomes the status. */
  lemma PrefixStep(sigs: seq<Signal>, i: int, status: string)
    requires 0 <= i < |sigs|
    ensures Sounds(sigs[..i + 1]) ==
      Sounds(sigs[..i]) + (if sigs[i].sound.Value? then [sigs[i].sound.value] else [])
    ensures LastText(sigs[..i + 1], status) == sigs[i].text
  {
    assert sigs[..i + 1] == sigs[..i] + [sigs[i]];
    SoundsAppend(sigs[..i], [sigs[i]]);
  }

  /** `playSignal` / `playCountdownSignal`: nothing for a selector value
      that is not a key; otherwise every matching entry in order plays its
      sound, if any, and overwrites the status. */
  function Dispatch(catalog: Catalog, s: State): (r: State)
    ensures r.(played := s.played, status := s.status) == s
    ensures |s.played| <= |r.played| && r.played[..|s.played|] == s.played
  {
    if s.selected !in catalog then s
    else
      var m := Matching(catalog[s.selected].signals, s.timeLeft);
      s.(played := s.played + Sounds(m), status := LastText(m, s.status))
  }

  /** With no entry at the current count, dispatch changes nothing. */
  lemma DispatchWithoutMatch(catalog: Catalog, s: State)
    requires s.selected in catalog
    requires forall x :: x in catalog[s.selected].signals ==> x.time != s.timeLeft
    ensures Dispatch(catalog, s) == s
  {
    MatchingNone(catalog[s.selected].signals, s.timeLeft);
  }

  /** Every sound dispatch plays is the sound of a catalog entry at the
      current count. */
  lemma DispatchFrame(catalog: Catalog, s: State)
    requires s.selected in catalog
    ensures forall snd :: snd in Dispatch(catalog, s).played[|s.played|..] ==>
      exists x :: x in catalog[s.selected].signals && x.time == s.timeLeft && x.sound == Value(snd)
  {
    var m := Matching(catalog[s.selected].signals, s.timeLeft);
    assert Dispatch(catalog, s).played[|s.played|..] == Sounds(m);
    SoundsFrom(m);
    MatchingMembers(catalog[s.selected].signals, s.timeLeft);
  }

  lemma {:induction false} SoundsFrom(sigs: seq<Signal>)
    ensures forall snd :: snd in Sounds(sigs) ==> exists x :: x in sigs && x.sound == Value(snd)
  {
    if sigs != [] {
      SoundsFrom(sigs[1..]);
      forall snd | snd in Sounds(sigs) ensures exists x :: x in sigs && x.sound == Value(snd) {
        if snd in Sounds(sigs[1..]) {
          var x :| x in sigs[1..] && x.sound == Value(snd);
          assert x in sigs;
        } else {
          assert sigs[0].sound == Value(snd);
        }
      }
    }
  }

  /** The manual horn button's listener: play the horn and say so. Only
      the played sounds and the status text change: the count, the interval
      and the buttons are untouched. */
  function HornSounded(s: State): (r: State)
    ensures r.(played := s.played, status := s.status) == s
    ensures r.status == HornText && r.played == s.played + [ManualHornSound]
  {
    s.(played := s.played + [ManualHornSound], status := HornText)
  }

  /** `selectedSequence ? selectedSequence.duration : 300`: for a
      well-formed catalog the count a reset leaves is always positive. */
  function ResetDuration(catalog: Catalog, key: string): (d: int)
    ensures key in catalog ==> d == catalog[key].duration
    ensures key !in catalog ==> d == 300
    ensures WellFormedCatalog(catalog) ==> d > 0
  {
    if key in catalog then catalog[key].duration else DefaultDuration
  }

  /** Entry times strictly decrease along the list. */
  predicate Descending(sigs: seq<Signal>) {
    |sigs| <= 1 || (sigs[0].time > sigs[1].time && Descending(sigs[1..]))
  }

  /** A sequence whose entries have distinct times, listed from `duration`
      down to 0, both included. */
  predicate WellFormed(q: Sequence) {
    q.duration > 0 && |q.signals| > 0 &&
    q.signals[0].time == q.duration && q.signals[|q.signals| - 1].time == 0 &&
    Descending(q.signals)
  }

  /** The sequence's list ends on `last`. */
  predicate EndsOn(q: Sequence, last: Signal) {
    q.signals != [] && q.signals[|q.signals| - 1] == last
  }

  /** Every sequence of the catalog is well formed. */
  predicate WellFormedCatalog(c: Catalog) {
    forall key :: key in c ==> WellFormed(c[key])
  }

  /** In a descending list every later entry is earlier in the countdown. */
  lemma {:induction false} DescendingHead(sigs: seq<Signal>)
    requires Descending(sigs) && sigs != []
    ensures forall x :: x in sigs[1..] ==> x.time < sigs[0].time
    ensures forall x :: x in sigs ==> sigs[|sigs| - 1].time <= x.time <= sigs[0].time
  {
    if |sigs| > 1 {
      DescendingHead(sigs[1..]);
      assert sigs[1..][1..] == sigs[2..];
      assert forall x :: x in sigs[1..] ==> x == sigs[1] || x in sigs[2..];
    }
  }

  /** The entries dispatched while the count visits `hi`, `hi - 1`, ...,
      `lo`, in that order. */
  function FiredFrom(sigs: seq<Signal>, hi: int, lo: int): seq<Signal>
    decreases hi - lo
  {
    if hi < lo then [] else Matching(sigs, hi) + FiredFrom(sigs, hi - 1, lo)
  }

  /** One more second at the bottom of the range appends its entries. */
  lemma {:induction false} FiredFromExtend(sigs: seq<Signal>, hi: int, lo: int)
    requires lo <= hi + 1
    ensures FiredFrom(sigs, hi, lo - 1) == FiredFrom(sigs, hi, lo) + Matching(sigs, lo - 1)
    decreases hi - lo
  {
    if hi >= lo {
      FiredFromExtend(sigs, hi - 1, lo);
    }
  }

  /** An entry later than the whole range is never dispatched in it. */
  lemma {:induction false} FiredFromSkip(sigs: seq<Signal>, hi: int, lo: int)
    requires sigs != [] && sigs[0].time > hi
    ensures FiredFrom(sigs, hi, lo) == FiredFrom(sigs[1..], hi, lo)
    decreases hi - lo
  {
    if hi >= lo {
      FiredFromSkip(sigs, hi - 1, lo);
    }
  }

  /** Counting down over a range that holds every entry of a descending list
      dispatches each entry exactly once, in list order. */
  lemma {:induction false} FiredFromAll(sigs: seq<Signal>, hi: int, lo: int)
    requires Descending(sigs)
    requires forall x :: x in sigs ==> lo <= x.time <= hi
    ensures FiredFrom(sigs, hi, lo) == sigs
    decreases hi - lo
  {
    if sigs == [] {
      FiredFromNothing(hi, lo);
    } else {
      assert sigs[0] in sigs;
      if sigs[0].time == hi {
        FiredFromAtHead(sigs, hi, lo);
      } else {
        NothingAtTop(sigs, hi, lo);
        FiredFromAll(sigs, hi - 1, lo);
      }
    }
  }

  lemma {:induction false} FiredFromNothing(hi: int, lo: int)
    ensures FiredFrom([], hi, lo) == []
    decreases hi - lo
  {
    if hi >= lo {
      FiredFromNothing(hi - 1, lo);
    }
  }

  /** The step of FiredFromAll where the list's head sits at the top of the range. */
  lemma {:induction false} FiredFromAtHead(sigs: seq<Signal>, hi: int, lo: int)
    requires Descending(sigs) && sigs != [] && sigs[0].time == hi
    requires forall x :: x in sigs ==> lo <= x.time <= hi
    ensures FiredFrom(sigs, hi, lo) == sigs
    decreases hi - lo, 0
  {
    var rest := sigs[1..];
    MatchingAtHead(sigs);
    RestInRange(sigs, lo);
    FiredFromSkip(sigs, hi - 1, lo);
    FiredFromAll(rest, hi - 1, lo);
    assert FiredFrom(sigs, hi, lo) == [sigs[0]] + FiredFrom(sigs, hi - 1, lo);
    assert [sigs[0]] + rest == sigs;
  }

  /** In a descending list only the head carries the head's time. */
  lemma MatchingAtHead(sigs: seq<Signal>)
    requires Descending(sigs) && sigs != []
    ensures Matching(sigs, sigs[0].time) == [sigs[0]]
  {
    DescendingHead(sigs);
    MatchingNone(sigs[1..], sigs[0].time);
    assert Matching(sigs, sigs[0].time) == [sigs[0]] + Matching(sigs[1..], sigs[0].time);
  }

  /** Below the head of a descending list, every entry lies between the
      list's lower bound and the head's time, exclusive. */
  lemma RestInRange(sigs: seq<Signal>, lo: int)
    requires Descending(sigs) && sigs != []
    requires forall x :: x in sigs ==> lo <= x.time
    ensures forall x :: x in sigs[1..] ==> lo <= x.time < sigs[0].time
  {
    DescendingHead(sigs);
    assert forall x :: x in sigs[1..] ==> x in sigs;
  }

  /** The step of FiredFromAll where no entry sits at the top of the range. */
  lemma NothingAtTop(sigs: seq<Signal>, hi: int, lo: int)
    requires Descending(sigs) && !(sigs != [] && sigs[0].time == hi)
    requires forall x :: x in sigs ==> lo <= x.time <= hi
    ensures forall x :: x in sigs ==> lo <= x.time <= hi - 1
    ensures FiredFrom(sigs, hi, lo) == FiredFrom(sigs, hi - 1, lo)
  {
    if sigs != [] {
      DescendingHead(sigs);
      assert sigs[0] in sigs;
    }
    MatchingNone(sigs, hi);
  }

  /** An uninterrupted countdown of a well-formed sequence from its duration
      to 0 dispatches every entry once, in descending time order, and going
      on below 0 adds nothing. */
  lemma RunFiresEachSignalOnce(q: Sequence, lo: int)
    requires WellFormed(q) && lo <= 0
    ensures FiredFrom(q.signals, q.duration, lo) == q.signals
  {
    DescendingHead(q.signals);
    FiredFromAll(q.signals, q.duration, lo);
  }

  /** `stopCountdown`: clear the interval, reset the count to the selected
      duration (300 for an unknown selection), show it, and toggle the
      buttons so that only Start is enabled. */
  function Stopped(c: Catalog, s: State): (r: State)
    ensures !r.ticking && !r.startDisabled && r.stopDisabled && r.status == StoppedText
    ensures r.timeLeft == ResetDuration(c, s.selected)
    ensures r.selected == s.selected && r.played == s.played
  {
    var t := ResetDuration(c, s.selected);
    s.(ticking := false, timeLeft := t, status := StoppedText,
       startDisabled := false, stopDisabled := true)
  }

  /** The selector's `change` listener: take the new value, then stop. The
      result is a stopped page for the new key; reselecting the current key
      is a plain stop. */
  function Reselected(c: Catalog, s: State, key: string): (r: State)
    ensures r.selected == key && r.played == s.played
    ensures Stopped(c, r) == r
    ensures key == s.selected ==> r == Stopped(c, s)
  {
    Stopped(c, s.(selected := key))
  }

  /** `startCountdown`: clear any interval; for an unknown selection stop
      there; otherwise set the count to the duration, show it, dispatch the
      signals at the top of the sequence, set the interval and toggle the
      buttons. */
  function Started(c: Catalog, s: State): (r: State)
    ensures r.selected == s.selected
    ensures r.ticking <==> s.selected in c
    ensures !r.ticking ==> r == s.(ticking := false)
    ensures r.ticking ==> r.timeLeft == c[s.selected].duration && r.startDisabled && !r.stopDisabled
  {
    var s := s.(ticking := false);
    if s.selected !in c then s
    else
      var d := c[s.selected].duration;
      var s := Dispatch(c, s.(timeLeft := d));
      s.(ticking := true, startDisabled := true, stopDisabled := false)
  }

  /** What the page holds once it is loaded: nothing played yet and the
      initial selector value; the rest is overwritten by `stopCountdown`. */
  function Initial(selection: string): State {
    State(selection, 0, false, "", false, false, [])
  }

  /** Stopping twice is stopping once. */
  lemma StopIdempotent(c: Catalog, s: State)
    ensures Stopped(c, Stopped(c, s)) == Stopped(c, s)
  {
  }

  /** For a known selection start sets the count to the duration, sets one
      interval, disables Start and enables Stop, and dispatches exactly the
      entries at the duration. */
  lemma StartKnown(c: Catalog, s: State)
    requires s.selected in c
    ensures var d := c[s.selected].duration; var m := Matching(c[s.selected].signals, d);
      Started(c, s) == s.(timeLeft := d, ticking := true,
                          startDisabled := true, stopDisabled := false,
                          played := s.played + Sounds(m), status := LastText(m, s.status))
  {
  }

  /** Starting twice in a row gives the same count, interval and buttons as
      starting once; only the signals at the top are dispatched again. */
  lemma RestartSameCount(c: Catalog, s: State)
    ensures Started(c, Started(c, s)).(played := Started(c, s).played, status := Started(c, s).status)
      == Started(c, s)
  {
  }

  /** Dispatching the entries at `t` after those from `hi` down to `t + 1`
      extends the sounds and the status text as dispatching the whole range. */
  lemma TraceStep(sigs: seq<Signal>, hi: int, t: int, played: seq<Sound>, status: string)
    requires t <= hi
    ensures var before := FiredFrom(sigs, hi, t + 1); var m := Matching(sigs, t);
      var after := FiredFrom(sigs, hi, t);
      (played + Sounds(before)) + Sounds(m) == played + Sounds(after) &&
      LastText(m, LastText(before, status)) == LastText(after, status)
  {
    var before := FiredFrom(sigs, hi, t + 1);
    var m := Matching(sigs, t);
    FiredFromExtend(sigs, hi, t + 1);
    SoundsAppend(before, m);
    LastTextAppend(before, m, status);
  }

}
