/** The schedule's game time: a 12-hour local clock reading on the fixed
    date 2025-01-22, shifted by five hours and written as a UTC timestamp. */
module GameTime {
  import opened Wrappers
  import opened Text

  /** A clock reading `%I:%M %p`. */
  datatype Clock = Clock(hour12: nat, minute: nat, pm: bool)

  function DigitValue(c: char): (v: nat)
    requires IsDigit(c)
    ensures v < 10
  {
    c as int - '0' as int
  }

  /** `%I` at `i`: the alternatives `1[0-2]`, `0[1-9]`, `[1-9]` in that
      order; as a `:` must follow, the first that applies is the only one
      that can lead to a match. Gives the hour and where it ends. */
  function HourAt(s: string, i: nat): (r: Option<(nat, nat)>)
    requires i <= |s|
    ensures r.Some? ==> 1 <= r.value.0 <= 12 && i < r.value.1 <= |s|
  {
    if i + 1 < |s| && s[i] == '1' && '0' <= s[i + 1] <= '2' then Some((10 + DigitValue(s[i + 1]), i + 2))
    else if i + 1 < |s| && s[i] == '0' && '1' <= s[i + 1] <= '9' then Some((DigitValue(s[i + 1]), i + 2))
    else if i < |s| && '1' <= s[i] <= '9' then Some((DigitValue(s[i]), i + 1))
    else None
  }

  /** `%M` at `i`: `[0-5]\d` before `\d`; whitespace must follow, so again
      the first alternative that applies decides. */
  function MinuteAt(s: string, i: nat): (r: Option<(nat, nat)>)
    requires i <= |s|
    ensures r.Some? ==> r.value.0 < 60 && i < r.value.1 <= |s|
  {
    if i + 1 < |s| && '0' <= s[i] <= '5' && IsDigit(s[i + 1])
    then Some((10 * DigitValue(s[i]) + DigitValue(s[i + 1]), i + 2))
    else if i < |s| && IsDigit(s[i]) then Some((DigitValue(s[i]), i + 1))
    else None
  }

  /** `strptime(f"2025-01-22 {t}", "%Y-%m-%d %I:%M %p")` restricted to the
      time part: the format's space is `\s+`, `%p` is `AM`/`PM` in any
      case, and nothing may follow. `None` is the `ValueError`. */
  function ParseClock(t: string): (r: Option<Clock>)
    ensures r.Some? ==> 1 <= r.value.hour12 <= 12 && r.value.minute < 60
  {
    var h := HourAt(t, SpaceRun(t, 0));
    if h.None? || h.value.1 >= |t| || t[h.value.1] != ':' then None
    else
      var m := MinuteAt(t, h.value.1 + 1);
      if m.None? then None
      else
        var w := SpaceRun(t, m.value.1);
        var p := m.value.1 + w;
        if w == 0 || p + 2 != |t| || (t[p + 1] != 'm' && t[p + 1] != 'M') then None
        else if t[p] == 'a' || t[p] == 'A' then Some(Clock(h.value.0, m.value.0, false))
        else if t[p] == 'p' || t[p] == 'P' then Some(Clock(h.value.0, m.value.0, true))
        else None
  }

  /** The 24-hour hour: 12 AM is midnight, 12 PM is noon. */
  function Hour24(c: Clock): (h: nat)
    requires 1 <= c.hour12 <= 12
    ensures h < 24
    ensures h % 12 == c.hour12 % 12
    ensures h >= 12 <==> c.pm
  {
    if c.pm then (if c.hour12 == 12 then 12 else c.hour12 + 12)
    else (if c.hour12 == 12 then 0 else c.hour12)
  }

  /** Two decimal digits, zero padded. */
  function TwoDigits(n: nat): (s: string)
    requires n < 100
    ensures |s| == 2 && AllDigits(s) && DigitsValue(s) == n
  {
    var a, b := '0' + (n / 10) as char, '0' + (n % 10) as char;
    var s := [a, b];
    assert s[..1] == [a] && [a][..0] == [];
    assert DigitsValue([a]) == n / 10;
    s
  }

  /** `%Y-%m-%dT%H:%M:%SZ` for a day of January 2025; seconds are zero. */
  function Stamp(day: nat, hour: nat, minute: nat): (s: string)
    requires day < 100 && hour < 100 && minute < 100
    ensures |s| == 20
  {
    "2025-01-" + TwoDigits(day) + "T" + TwoDigits(hour) + ":" + TwoDigits(minute) + ":00Z"
  }

  /** Reads a `Stamp` back: the day, hour and minute fields. */
  function StampFields(s: string): Option<(nat, nat, nat)> {
    if |s| == 20 && s[..8] == "2025-01-" && s[10] == 'T' && s[13] == ':' && s[16..] == ":00Z"
       && AllDigits(s[8..10]) && AllDigits(s[11..13]) && AllDigits(s[14..16])
    then Some((DigitsValue(s[8..10]), DigitsValue(s[11..13]), DigitsValue(s[14..16])))
    else None
  }

  /** Distinct fields give distinct stamps: the fields read back exactly. */
  lemma {:induction false} StampRoundTrip(day: nat, hour: nat, minute: nat)
    requires day < 100 && hour < 100 && minute < 100
    ensures StampFields(Stamp(day, hour, minute)) == Some((day, hour, minute))
  {
    var s := Stamp(day, hour, minute);
    assert s[8..10] == TwoDigits(day);
    assert s[11..13] == TwoDigits(hour);
    assert s[14..16] == TwoDigits(minute);
    assert s[..8] == "2025-01-";
    assert s[16..] == ":00Z";
  }

  /** The local reading plus five hours, as (day, hour, minute) of January. */
  function UtcFields(c: Clock): (r: (nat, nat, nat))
    requires 1 <= c.hour12 <= 12 && c.minute < 60
    ensures 22 <= r.0 <= 23 && r.1 < 24 && r.2 < 60
    ensures (r.0 - 22) * 1440 + r.1 * 60 + r.2 == Hour24(c) * 60 + c.minute + 300
  {
    var total := Hour24(c) * 60 + c.minute + 300;
    (22 + total / 1440, (total % 1440) / 60, total % 60)
  }

  /** The game time written for a scraped local time, or `None` where
      `strptime` raises. */
  function UtcGameTime(localTime: string): (r: Option<string>)
    ensures r.Some? <==> ParseClock(localTime).Some?
    ensures r.Some? ==>
              var c := ParseClock(localTime).value;
              StampFields(r.value) == Some(UtcFields(c))
  {
    var c := ParseClock(localTime);
    if c.None? then None
    else
      var f := UtcFields(c.value);
      StampRoundTrip(f.0, f.1, f.2);
      Some(Stamp(f.0, f.1, f.2))
  }

  /** The schedule's own example reading. */
  lemma {:induction false} UtcGameTimeEvening()
    ensures UtcGameTime("06:00 PM") == Some(Stamp(22, 23, 0))
  {
    assert ParseClock("06:00 PM") == Some(Clock(6, 0, true));
    assert UtcFields(Clock(6, 0, true)) == (22, 23, 0);
  }

  /** A late game rolls over to the next day. */
  lemma {:induction false} UtcGameTimeRollover()
    ensures UtcGameTime("7:30 pm") == Some(Stamp(23, 0, 30))
  {
    assert ParseClock("7:30 pm") == Some(Clock(7, 30, true));
    assert UtcFields(Clock(7, 30, true)) == (23, 0, 30);
  }

  /** Twelve in the morning is midnight. */
  lemma {:induction false} UtcGameTimeMidnight()
    ensures UtcGameTime("12:05 AM") == Some(Stamp(22, 5, 5))
  {
    assert ParseClock("12:05 AM") == Some(Clock(12, 5, false));
    assert UtcFields(Clock(12, 5, false)) == (22, 5, 5);
  }

  /** An hour outside the 12-hour dial is rejected. */
  lemma {:induction false} UtcGameTimeRejects()
    ensures UtcGameTime("13:00 PM") == None
  {
    assert HourAt("13:00 PM", 0) == Some((1, 1));
  }
}
