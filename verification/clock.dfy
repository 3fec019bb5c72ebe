/**
 * The clock label of updateClock (Appsbar.js:426-438): the hour in 12- or
 * 24-hour form, the minutes padded to two digits, and an AM/PM suffix; and the
 * "HH:MM" string that checkTimers compares timers against (Appsbar.js:498).
 */
module Clock {

  predicate IsDigit(c: char) { '0' <= c <= '9' }

  predicate AllDigits(s: string) { forall i :: 0 <= i < |s| ==> IsDigit(s[i]) }

  function Digit(d: nat): (c: char)
    requires d < 10
    ensures IsDigit(c)
  {
    ('0' as int + d) as char
  }

  function DigitValue(c: char): (d: nat)
    requires IsDigit(c)
    ensures d < 10
  {
    c as int - '0' as int
  }

  /** String(n): decimal digits, no leading zero. */
  function Numeral(n: nat): (r: string)
    ensures |r| >= 1 && AllDigits(r)
    ensures n < 10 ==> |r| == 1
    ensures 10 <= n < 100 ==> |r| == 2
    decreases n
  {
    if n < 10 then [Digit(n)] else Numeral(n / 10) + [Digit(n % 10)]
  }

  /** The value of a string of decimal digits (parseInt of digits only). */
  function ReadNumeral(s: string): nat
    requires AllDigits(s)
    decreases |s|
  {
    if s == [] then 0 else ReadNumeral(s[..|s| - 1]) * 10 + DigitValue(s[|s| - 1])
  }

  lemma {:induction false} ReadNumeralOfNumeral(n: nat)
    ensures ReadNumeral(Numeral(n)) == n
    decreases n
  {
    if n >= 10 {
      var r := Numeral(n);
      assert r[..|r| - 1] == Numeral(n / 10);
      ReadNumeralOfNumeral(n / 10);
    }
  }

  /** A leading zero does not change the value read. */
  lemma {:induction false} ReadNumeralLeadingZero(s: string)
    requires AllDigits(s)
    ensures AllDigits("0" + s) && ReadNumeral("0" + s) == ReadNumeral(s)
    decreases |s|
  {
    var z := "0" + s;
    if s != [] {
      assert z[..|z| - 1] == "0" + s[..|s| - 1];
      ReadNumeralLeadingZero(s[..|s| - 1]);
    } else {
      assert z[..|z| - 1] == [];
    }
  }

  /** String(n).padStart(2, '0'). */
  function Pad2(n: nat): (r: string)
    requires n < 100
    ensures |r| == 2 && AllDigits(r)
    ensures ReadNumeral(r) == n
  {
    ReadNumeralOfNumeral(n);
    var s := Numeral(n);
    if |s| >= 2 then s else (ReadNumeralLeadingZero(s); "0" + s)
  }

  /** The 12-hour form of hour h: ((h + 11) % 12) + 1. */
  function Hour12(h: nat): (r: nat)
    requires h < 24
    ensures 1 <= r <= 12
    ensures r % 12 == h % 12
  {
    (h + 11) % 12 + 1
  }

  /** The suffix of the 12-hour clock. */
  function Meridiem(h: nat): string {
    if h >= 12 then " PM" else " AM"
  }

  /** Reading a 12-hour value and its half of the day back as an hour 0..23. */
  function To24(h12: nat, pm: bool): (h: nat)
    requires 1 <= h12 <= 12
    ensures h < 24 && (pm <==> h >= 12)
  {
    if pm then (if h12 == 12 then 12 else h12 + 12) else (if h12 == 12 then 0 else h12)
  }

  /** Hour 12 and hour 0 both show as 12; midnight is AM and noon PM. */
  lemma TwelveHourLandmarks()
    ensures Hour12(0) == 12 && Meridiem(0) == " AM"
    ensures Hour12(12) == 12 && Meridiem(12) == " PM"
    ensures Hour12(1) == 1 && Hour12(13) == 1 && Hour12(23) == 11
  {
  }

  /** The suffix is PM exactly for the hours 12..23. */
  lemma MeridiemIsPm(h: nat)
    requires h < 24
    ensures Meridiem(h) == " PM" <==> h >= 12
    ensures Meridiem(h) == " AM" <==> h < 12
  {
  }

  /** The 12-hour value together with its suffix determines the hour. */
  lemma TwelveHourRoundTrip(h: nat)
    requires h < 24
    ensures To24(Hour12(h), h >= 12) == h
  {
  }

  /** Whether the stored preference asks for the 24-hour clock (loadClockPrefs, Appsbar.js:524-531). */
  datatype PrefsStore = NoPrefs | UnreadablePrefs | SavedPrefs(format: string)

  function ClockFormat(p: PrefsStore): (format: string)
  {
    match p
    case SavedPrefs(f) => f
    case _ => "12"
  }

  predicate Uses24Hour(p: PrefsStore) {
    ClockFormat(p) == "24"
  }

  function DisplayHour(h: nat, use24: bool): (r: nat)
    requires h < 24
    ensures r < 24
  {
    if use24 then h else Hour12(h)
  }

  function Suffix(h: nat, use24: bool): string {
    if use24 then "" else Meridiem(h)
  }

  /** The text of the clock: `${hours}:${minutes}${ampm}` (Appsbar.js:435). */
  function ClockText(h: nat, m: nat, use24: bool): string
    requires h < 24 && m < 60
  {
    Numeral(DisplayHour(h, use24)) + ":" + Pad2(m) + Suffix(h, use24)
  }

  /** Reads a clock text back as (hour, minute); (0, 0) for text of the wrong shape. */
  function ReadClockText(t: string, use24: bool): (nat, nat)
  {
    var core := if use24 || |t| < 3 then t else t[..|t| - 3];
    var pm := !use24 && |t| >= 3 && t[|t| - 3..] == " PM";
    if |core| < 4 || !AllDigits(core[..|core| - 3]) || !AllDigits(core[|core| - 2..]) then (0, 0)
    else
      var shown := ReadNumeral(core[..|core| - 3]);
      var minute := ReadNumeral(core[|core| - 2..]);
      if use24 then (shown, minute)
      else if 1 <= shown <= 12 then (To24(shown, pm), minute)
      else (0, 0)
  }

  /** The clock text shows the time unambiguously: hour and minute can be read back. */
  lemma ReadClockTextRoundTrip(h: nat, m: nat, use24: bool)
    requires h < 24 && m < 60
    ensures ReadClockText(ClockText(h, m, use24), use24) == (h, m)
  {
    var hour := Numeral(DisplayHour(h, use24));
    var core := hour + ":" + Pad2(m);
    var t := ClockText(h, m, use24);
    assert t == core + Suffix(h, use24);
    assert core[..|core| - 3] == hour;
    assert core[|core| - 2..] == Pad2(m);
    ReadNumeralOfNumeral(DisplayHour(h, use24));
    if use24 {
      assert t == core;
    } else {
      assert t[..|t| - 3] == core;
      assert t[|t| - 3..] == Meridiem(h);
      assert (t[|t| - 3..] == " PM") == (h >= 12);
      TwelveHourRoundTrip(h);
    }
  }

  /** toTimeString().slice(0, 5): the wall-clock minute as "HH:MM". */
  function NowString(h: nat, m: nat): (r: string)
    requires h < 24 && m < 60
    ensures |r| == 5 && r[2] == ':'
  {
    Pad2(h) + ":" + Pad2(m)
  }

  /** Distinct minutes give distinct "HH:MM" strings, so a timer matches one minute only. */
  lemma NowStringInjective(h: nat, m: nat, h': nat, m': nat)
    requires h < 24 && m < 60 && h' < 24 && m' < 60
    requires NowString(h, m) == NowString(h', m')
    ensures h == h' && m == m'
  {
    var s, s' := NowString(h, m), NowString(h', m');
    assert s[..2] == Pad2(h) && s'[..2] == Pad2(h');
    assert s[3..] == Pad2(m) && s'[3..] == Pad2(m');
  }
}
