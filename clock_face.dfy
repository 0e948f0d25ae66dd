/** The `m:ss` text both versions of the page write into the countdown
    display: `${minutes}:${seconds < 10 ? '0' : ''}${seconds}` with
    `minutes = Math.floor(t / 60)` and `seconds = t % 60`. */
module ClockFace {
  import opened JsSemantics

  /** The template literal, evaluated for any integer the way JavaScript
      does (for a negative `t` it would read e.g. "-1:0-1"). */
  function ClockText(t: int): string {
    var minutes := FloorDiv(t, 60);
    var seconds := Rem(t, 60);
    IntText(minutes) + ":" + (if seconds < 10 then "0" else "") + IntText(seconds)
  }

  /** For a non-negative count the text is the decimal minutes, a colon and
      exactly two digits of seconds. */
  lemma ClockTextOfNatural(t: int)
    requires t >= 0
    ensures ClockText(t) == NatText(t / 60) + ":" + [DigitChar(t % 60 / 10), DigitChar(t % 60 % 10)]
  {
    var s := t % 60;
    assert Rem(t, 60) == s;
    if s < 10 {
      assert NatText(s) == [DigitChar(s)];
      assert "0" == [DigitChar(0)];
    } else {
      assert NatText(s) == NatText(s / 10) + [DigitChar(s % 10)];
      assert NatText(s / 10) == [DigitChar(s / 10)];
    }
  }

  /** Reads an `m:ss` text back as a number of seconds; `Null` when the text
      is not of that shape. */
  function ParseClock(s: string): Nullable<nat> {
    if |s| >= 4 && s[|s| - 3] == ':' && IsDigits(s[..|s| - 3]) && IsDigits(s[|s| - 2..]) && s[|s| - 2] <= '5'
    then Value(ParseNat(s[..|s| - 3]) * 60 + ParseNat(s[|s| - 2..]))
    else Null
  }

  /** The display text of a non-negative count determines the count. */
  lemma ParseClockText(t: int)
    requires t >= 0
    ensures ParseClock(ClockText(t)) == Value(t)
  {
    ClockTextOfNatural(t);
    var text := ClockText(t);
    var m := NatText(t / 60);
    var ss := [DigitChar(t % 60 / 10), DigitChar(t % 60 % 10)];
    assert text[..|text| - 3] == m;
    assert text[|text| - 2..] == ss;
    ParseNatText(t / 60);
    assert ParseNat(ss) == t % 60 by {
      assert ss[..1] == [DigitChar(t % 60 / 10)];
      assert ParseNat(ss[..1]) == ParseNat([]) * 10 + DigitValue(ss[0]);
    }
  }

  /** Two different non-negative counts never show the same text. */
  lemma ClockTextInjective(a: int, b: int)
    requires a >= 0 && b >= 0 && ClockText(a) == ClockText(b)
    ensures a == b
  {
    ParseClockText(a);
    ParseClockText(b);
  }

  /** The renderings the page is expected to show. */
  lemma ClockExamples()
    ensures ClockText(300) == "5:00"
    ensures ClockText(65) == "1:05"
    ensures ClockText(9) == "0:09"
  {
    ClockTextOfNatural(300);
    ClockTextOfNatural(65);
    ClockTextOfNatural(9);
  }
}
