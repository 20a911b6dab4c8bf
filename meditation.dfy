/** The meditation timer: guided sessions of a fixed number of minutes, a
    custom duration slider, and the `mm:ss` display of the time remaining. */
module Meditation {
  import opened Wrappers

  /** The decimal digit character of `d`. */
  function DigitChar(d: int): char
    requires 0 <= d < 10
  {
    ('0' as int + d) as char
  }

  predicate IsDigit(c: char)
  {
    '0' <= c <= '9'
  }

  /** `Number.prototype.toString()` of a non-negative whole number. */
  function NatToString(n: nat): (r: string)
    ensures |r| >= 1 && forall i :: 0 <= i < |r| ==> IsDigit(r[i])
    ensures |r| == 1 <==> n < 10
    ensures |r| <= 2 <==> n < 100
    ensures r[0] == '0' ==> n == 0
    decreases n
  {
    if n < 10 then [DigitChar(n)] else NatToString(n / 10) + [DigitChar(n % 10)]
  }

  /** `toString()` of any whole number: a minus sign before the magnitude. */
  function IntToString(n: int): (r: string)
    ensures |r| >= 1
    ensures n < 0 <==> r[0] == '-'
    ensures n < 0 ==> |r| >= 2 && forall i :: 1 <= i < |r| ==> IsDigit(r[i])
    ensures n >= 0 ==> forall i :: 0 <= i < |r| ==> IsDigit(r[i])
    ensures n >= 0 ==> ParseNat(r) == n && (r[0] == '0' ==> n == 0)
    ensures n < 0 ==> ParseNat(r[1..]) == -n && r[1] != '0'
  {
    ParseNatToString(if n < 0 then -n else n);
    assert n < 0 ==> ("-" + NatToString(-n))[1..] == NatToString(-n);
    if n < 0 then "-" + NatToString(-n) else NatToString(n)
  }

  /** `padStart(2, '0')`. */
  function PadStart2(s: string): (r: string)
    ensures |s| >= 2 ==> r == s
    ensures |s| < 2 ==> |r| == 2 && r[2 - |s|..] == s
    ensures |s| < 2 ==> forall i :: 0 <= i < 2 - |s| ==> r[i] == '0'
  {
    if |s| >= 2 then s else seq(2 - |s|, _ => '0') + s
  }

  /** JavaScript's `seconds % 60`: the remainder takes the sign of the
      dividend, and differs from the dividend by a multiple of 60. */
  function JsRem60(a: int): (r: int)
    ensures a >= 0 ==> 0 <= r < 60
    ensures a < 0 ==> -60 < r <= 0
    ensures (a - r) % 60 == 0
  {
    if a >= 0 then a % 60 else -((-a) % 60)
  }

  /** `formatTime`: `Math.floor(seconds / 60)` and `seconds % 60`, each
      converted with `toString` and left-padded with zeros to two characters.
      Dafny's `/` by a positive divisor already rounds down, as `Math.floor` does. */
  function FormatTime(seconds: int): (r: string)
    ensures |r| >= 5
    ensures seconds < 0 <==> r[0] == '-'
    ensures seconds >= 0 ==> r[|r| - 3] == ':'
  {
    PadStart2(IntToString(seconds / 60)) + ":" + PadStart2(IntToString(JsRem60(seconds)))
  }

  /** The value of a string of decimal digits. */
  function ParseNat(s: string): (r: nat)
    requires forall i :: 0 <= i < |s| ==> IsDigit(s[i])
    decreases |s|
  {
    if s == [] then 0
    else
      assert IsDigit(s[|s| - 1]);
      ParseNat(s[..|s| - 1]) * 10 + (s[|s| - 1] as int - '0' as int)
  }

  /** Reads `mm:ss` back: the digits before the last three characters are the
      minutes, the last two the seconds. */
  function ParseTime(t: string): Option<int>
  {
    if |t| >= 4 && t[|t| - 3] == ':' &&
       (forall i :: 0 <= i < |t| && i != |t| - 3 ==> IsDigit(t[i]))
    then Some(ParseNat(t[..|t| - 3]) * 60 + ParseNat(t[|t| - 2..]))
    else None
  }

  /** Parsing undoes `NatToString`. */
  lemma {:induction false} ParseNatToString(n: nat)
    ensures ParseNat(NatToString(n)) == n
    decreases n
  {
    if n >= 10 {
      var s := NatToString(n);
      assert s[..|s| - 1] == NatToString(n / 10);
      ParseNatToString(n / 10);
    }
  }

  /** Leading zeros do not change the value. */
  lemma {:induction false} ParseNatLeadingZero(s: string)
    requires forall i :: 0 <= i < |s| ==> IsDigit(s[i])
    ensures ParseNat(['0'] + s) == ParseNat(s)
    decreases |s|
  {
    if s != [] {
      var t := ['0'] + s;
      assert t[..|t| - 1] == ['0'] + s[..|s| - 1];
      ParseNatLeadingZero(s[..|s| - 1]);
    }
  }

  /** The padded form of a non-negative number is all digits with the same value. */
  lemma PaddedValue(n: nat)
    ensures var p := PadStart2(NatToString(n));
            |p| >= 2 && (forall i :: 0 <= i < |p| ==> IsDigit(p[i])) && ParseNat(p) == n
    ensures n < 100 ==> |PadStart2(NatToString(n))| == 2
  {
    var s := NatToString(n);
    ParseNatToString(n);
    if |s| < 2 {
      assert PadStart2(s) == ['0'] + s;
      ParseNatLeadingZero(s);
    }
  }

  /** Reading back a display made of two digit strings and a colon. */
  lemma ParseTimeOf(m: string, sec: string, mins: nat, secs: nat)
    requires |m| >= 2 && |sec| == 2
    requires forall i :: 0 <= i < |m| ==> IsDigit(m[i])
    requires forall i :: 0 <= i < |sec| ==> IsDigit(sec[i])
    requires ParseNat(m) == mins && ParseNat(sec) == secs
    ensures ParseTime(m + ":" + sec) == Some(mins * 60 + secs)
  {
    var t := m + ":" + sec;
    assert t[..|t| - 3] == m;
    assert t[|t| - 2..] == sec;
    assert t[|t| - 3] == ':';
    forall i | 0 <= i < |t| && i != |t| - 3 ensures IsDigit(t[i]) {
      if i < |m| {
        assert t[i] == m[i];
      } else {
        assert t[i] == sec[i - |m| - 1];
      }
    }
  }

  /** For a non-negative time the display is the padded minutes, a colon and
      exactly two digits of seconds, and reading it back gives the time. */
  lemma FormatTimeRoundTrip(seconds: int)
    requires seconds >= 0
    ensures var m := PadStart2(NatToString(seconds / 60));
            && FormatTime(seconds) == m + ":" + PadStart2(NatToString(seconds % 60))
            && |FormatTime(seconds)| == |m| + 3
            && ParseTime(FormatTime(seconds)) == Some(seconds)
  {
    assert JsRem60(seconds) == seconds % 60;
    var t := PadStart2(NatToString(seconds / 60)) + ":" + PadStart2(NatToString(seconds % 60));
    assert FormatTime(seconds) == t;
    ReadBack(seconds);
    assert ParseTime(t) == Some(seconds);
  }

  /** Padded minutes, a colon and padded seconds read back as the total
      number of seconds. */
  lemma ReadBack(seconds: nat)
    ensures |PadStart2(NatToString(seconds % 60))| == 2
    ensures ParseTime(PadStart2(NatToString(seconds / 60)) + ":" +
                      PadStart2(NatToString(seconds % 60))) == Some(seconds)
  {
    var mins: nat := seconds / 60;
    var secs: nat := seconds % 60;
    assert seconds == mins * 60 + secs;
    var m := PadStart2(NatToString(mins));
    var sec := PadStart2(NatToString(secs));
    PaddedValue(mins);
    PaddedValue(secs);
    ParseTimeOf(m, sec, mins, secs);
  }

  /** Below 100 minutes the display has exactly five characters with the colon
      in the middle; from 100 minutes on it is longer. */
  lemma FormatTimeWidth(seconds: int)
    requires seconds >= 0
    ensures |FormatTime(seconds)| == 5 <==> seconds < 6000
    ensures seconds < 6000 ==> FormatTime(seconds)[2] == ':'
  {
    FormatTimeRoundTrip(seconds);
    PaddedValue(seconds / 60);
  }

  /** A whole number of minutes always shows `:00`. */
  lemma WholeMinutes(seconds: int)
    requires seconds >= 0 && seconds % 60 == 0
    ensures FormatTime(seconds)[|FormatTime(seconds)| - 3..] == ":00"
  {
    FormatTimeRoundTrip(seconds);
    var m := PadStart2(NatToString(seconds / 60));
    assert PadStart2(NatToString(0)) == "00";
    var t := m + ":" + "00";
    assert FormatTime(seconds) == t;
    assert t[|t| - 3..] == ":00";
  }

  /** What the clock face shows for a time that is not negative. */
  lemma ShownTime(seconds: int)
    ensures seconds >= 0 ==> ParseTime(FormatTime(seconds)) == Some(seconds)
    ensures seconds >= 0 && seconds % 60 == 0 ==>
      FormatTime(seconds)[|FormatTime(seconds)| - 3..] == ":00"
  {
    if seconds >= 0 {
      FormatTimeRoundTrip(seconds);
      if seconds % 60 == 0 {
        WholeMinutes(seconds);
      }
    }
  }

  /** Half a minute below zero is shown as `-1:-30`, since minutes round down
      and the remainder keeps the sign. */
  lemma NegativeTime()
    ensures FormatTime(-30) == "-1:-30"
  {
    assert -30 / 60 == -1;
    assert JsRem60(-30) == -30;
    assert NatToString(30) == "30";
  }

  /** `handleCustomDurationChange`'s stored duration: the value when positive, else 1. */
  function ClampedDuration(value: int): (r: int)
    ensures r >= 1
    ensures value > 0 ==> r == value
    ensures value <= 0 ==> r == 1
  {
    if value > 0 then value else 1
  }

  /** Within the slider's range 1..60 the stored duration is the value and the
      time set is one to sixty minutes. */
  lemma SliderRange(value: int)
    requires 1 <= value <= 60
    ensures ClampedDuration(value) == value
    ensures 60 <= value * 60 <= 3600
  {
  }

  datatype Guide = Guide(title: string, duration: int)

  /** The guided sessions and their lengths in minutes. */
  const Guides: seq<Guide> := [
    Guide("Breath Awareness", 5),
    Guide("Body Scan", 10),
    Guide("Loving-Kindness", 15),
    Guide("Chakra Alignment", 20),
    Guide("Third Eye Activation", 10),
    Guide("Sound Meditation", 5)
  ]

  /** The meditation page's timer state. */
  class MeditationPage {
    var selectedGuide: Guide
    var isPlaying: bool
    var timeRemaining: int
    var customDuration: int

    /** Every handler sets a whole number of minutes, and the stored custom
        duration is at least one. */
    ghost predicate Valid()
      reads this
    {
      timeRemaining % 60 == 0 && customDuration >= 1
    }

    constructor ()
      ensures Valid()
      ensures selectedGuide == Guides[0] && !isPlaying
      ensures timeRemaining == 300 && customDuration == 5
    {
      selectedGuide := Guides[0];
      isPlaying := false;
      timeRemaining := Guides[0].duration * 60;
      customDuration := 5;
    }

    /** `handleSelectGuide`. */
    method SelectGuide(guide: Guide)
      requires Valid()
      modifies this
      ensures Valid()
      ensures selectedGuide == guide && timeRemaining == guide.duration * 60 && !isPlaying
      ensures customDuration == old(customDuration)
    {
      selectedGuide := guide;
      timeRemaining := guide.duration * 60;
      isPlaying := false;
    }

    /** `handleTogglePlay`: only the play flag changes; no handler counts down. */
    method TogglePlay()
      requires Valid()
      modifies this
      ensures Valid()
      ensures isPlaying == !old(isPlaying)
      ensures selectedGuide == old(selectedGuide) && timeRemaining == old(timeRemaining)
      ensures customDuration == old(customDuration)
    {
      isPlaying := !isPlaying;
    }

    /** `handleReset`: back to the selected guide's full length, paused. */
    method Reset()
      requires Valid()
      modifies this
      ensures Valid()
      ensures timeRemaining == selectedGuide.duration * 60 && !isPlaying
      ensures selectedGuide == old(selectedGuide) && customDuration == old(customDuration)
    {
      timeRemaining := selectedGuide.duration * 60;
      isPlaying := false;
    }

    /** `handleCustomDurationChange` with the slider's parsed value: the stored
        duration is clamped to at least 1, the time set is not. */
    method CustomDurationChange(value: int)
      requires Valid()
      modifies this
      ensures Valid()
      ensures customDuration == ClampedDuration(value) && timeRemaining == value * 60
      ensures selectedGuide == old(selectedGuide) && isPlaying == old(isPlaying)
    {
      customDuration := if value > 0 then value else 1;
      timeRemaining := value * 60;
    }

    /** The clock face. A non-negative time reads back as itself, and a whole
        number of minutes, as every handler sets, ends in `:00`. */
    function Display(): (r: string)
      reads this
      ensures timeRemaining >= 0 ==> ParseTime(r) == Some(timeRemaining)
      ensures timeRemaining >= 0 && timeRemaining % 60 == 0 ==> r[|r| - 3..] == ":00"
    {
      ShownTime(timeRemaining);
      FormatTime(timeRemaining)
    }
  }
}
