/** Elapsed-time text of the status line (src/duration.rs; the same two functions are
    repeated verbatim in src/message.rs and are modelled once here). */
module Duration {
  import opened Errors
  import opened Numbers

  /** The components `duration_to_dhm` prints, in the form it chooses for the input. */
  datatype Dhm =
    | Minutes(m: nat)                          // "{m}m"
    | HoursMinutes(h: nat, m: nat)             // "{h}h{m}m"
    | DaysHoursMinutes(d: nat, h: nat, m: nat) // "{d}d{h}h{m}m"

  /** The seconds the whole days, hours and minutes of `x` add up to. */
  function Seconds(x: Dhm): nat
  {
    match x
    case Minutes(m) => m * 60
    case HoursMinutes(h, m) => h * 3600 + m * 60
    case DaysHoursMinutes(d, h, m) => d * 86400 + h * 3600 + m * 60
  }

  /** `x` is the breakdown of `secs`: the form follows the size of `secs`, every component
      below the first is within its unit's range, and the parts give `secs` to the minute. */
  ghost predicate Describes(x: Dhm, secs: nat)
  {
    && (secs < 3600 <==> x.Minutes?)
    && (3600 <= secs < 86400 <==> x.HoursMinutes?)
    && (match x
        case Minutes(m) => m < 60
        case HoursMinutes(h, m) => 1 <= h < 24 && m < 60
        case DaysHoursMinutes(d, h, m) => d >= 1 && h < 24 && m < 60)
    && Seconds(x) <= secs < Seconds(x) + 60
  }

  /** `duration_to_dhm`, with the source's integer arithmetic.  Each intermediate is a `nat`,
      so each of the source's u64 subtractions is proved not to underflow. */
  function DurationToDhm(secs: U64): string
  {
    if secs < 3600 then
      var minutes: nat := secs / 60;
      NatToString(minutes) + "m"
    else if secs < 86400 then
      var hours: nat := secs / 3600;
      var remainder: nat := secs - hours * 3600;
      var minutes: nat := remainder / 60;
      NatToString(hours) + "h" + NatToString(minutes) + "m"
    else
      var days: nat := secs / 86400;
      var afterDays: nat := secs - days * 86400;
      var hours: nat := afterDays / 3600;
      var afterHours: nat := secs - days * 86400 - hours * 3600;
      var minutes: nat := afterHours / 60;
      NatToString(days) + "d" + NatToString(hours) + "h" + NatToString(minutes) + "m"
  }

  /** `shorthand_duration`, with the clock reading passed in.  The source subtracts two u64
      values, so a start time after `now` underflows: callers must not pass one. */
  function ShorthandDuration(startTime: U64, now: U64): (r: string)
    requires startTime <= now
    ensures ParseDhm(r).Some? && Describes(ParseDhm(r).value, now - startTime)
  {
    DurationRoundTrip(now - startTime);
    DurationToDhm(now - startTime)
  }

  /** Reads one number and the unit letter after it. */
  function ReadUnit(s: string): Option<(nat, char, string)>
  {
    var k := DigitRun(s);
    if k == 0 || k == |s| then None else Some((DecimalValue(s[..k]), s[k], s[k + 1..]))
  }

  /** Reads the text `duration_to_dhm` prints back into its components. */
  function ParseDhm(s: string): Option<Dhm>
  {
    var a := ReadUnit(s);
    if a.None? then None
    else if a.value.1 == 'm' && a.value.2 == "" then Some(Minutes(a.value.0))
    else if a.value.1 == 'h' then
      var b := ReadUnit(a.value.2);
      if b.Some? && b.value.1 == 'm' && b.value.2 == "" then Some(HoursMinutes(a.value.0, b.value.0))
      else None
    else if a.value.1 == 'd' then
      var b := ReadUnit(a.value.2);
      if b.None? || b.value.1 != 'h' then None
      else
        var c := ReadUnit(b.value.2);
        if c.Some? && c.value.1 == 'm' && c.value.2 == ""
        then Some(DaysHoursMinutes(a.value.0, b.value.0, c.value.0))
        else None
    else None
  }

  lemma ReadFormatted(n: nat, u: char, rest: string)
    requires !IsDigit(u)
    ensures ReadUnit(NatToString(n) + [u] + rest) == Some((n, u, rest))
  {
    var d := NatToString(n);
    var s := d + [u] + rest;
    assert s == d + ([u] + rest);
    DigitRunOfFormatted(n, [u] + rest);
    assert s[..|d|] == d;
    assert s[|d| + 1..] == rest;
    DecimalRoundTrip(n);
  }

  /** What `duration_to_dhm` prints reads back as the breakdown of its input: minutes below
      an hour, hours and minutes below a day, days, hours and minutes otherwise. */
  lemma DurationRoundTrip(secs: U64)
    ensures ParseDhm(DurationToDhm(secs)).Some?
    ensures Describes(ParseDhm(DurationToDhm(secs)).value, secs)
  {
    if secs < 3600 {
      MinutesRoundTrip(secs);
    } else if secs < 86400 {
      HoursRoundTrip(secs);
    } else {
      DaysRoundTrip(secs);
    }
  }

  lemma MinutesRoundTrip(secs: U64)
    requires secs < 3600
    ensures ParseDhm(DurationToDhm(secs)) == Some(Minutes(secs / 60))
    ensures Describes(Minutes(secs / 60), secs)
  {
    assert DurationToDhm(secs) == NatToString(secs / 60) + "m";
    ParseMinutes(secs / 60);
  }

  lemma HoursRoundTrip(secs: U64)
    requires 3600 <= secs < 86400
    ensures var h := secs / 3600; var m := (secs - h * 3600) / 60;
      ParseDhm(DurationToDhm(secs)) == Some(HoursMinutes(h, m)) && Describes(HoursMinutes(h, m), secs)
  {
    var h := secs / 3600;
    var m := (secs - h * 3600) / 60;
    assert DurationToDhm(secs) == NatToString(h) + "h" + NatToString(m) + "m";
    ParseHoursMinutes(h, m);
    HoursArithmetic(secs);
  }

  lemma DaysRoundTrip(secs: U64)
    requires 86400 <= secs
    ensures var d := secs / 86400; var h := (secs - d * 86400) / 3600;
      var m := (secs - d * 86400 - h * 3600) / 60;
      ParseDhm(DurationToDhm(secs)) == Some(DaysHoursMinutes(d, h, m))
      && Describes(DaysHoursMinutes(d, h, m), secs)
  {
    var d := secs / 86400;
    var h := (secs - d * 86400) / 3600;
    var m := (secs - d * 86400 - h * 3600) / 60;
    assert DurationToDhm(secs) == NatToString(d) + "d" + NatToString(h) + "h" + NatToString(m) + "m";
    ParseDaysHoursMinutes(d, h, m);
    DaysArithmetic(secs);
  }

  lemma ParseMinutes(m: nat)
    ensures ParseDhm(NatToString(m) + "m") == Some(Minutes(m))
  {
    ReadFormatted(m, 'm', "");
    assert NatToString(m) + "m" == NatToString(m) + ['m'] + "";
  }

  lemma ParseHoursMinutes(h: nat, m: nat)
    ensures ParseDhm(NatToString(h) + "h" + NatToString(m) + "m") == Some(HoursMinutes(h, m))
  {
    ReadFormatted(h, 'h', NatToString(m) + "m");
    ReadFormatted(m, 'm', "");
    assert NatToString(h) + "h" + NatToString(m) + "m" == NatToString(h) + ['h'] + (NatToString(m) + "m");
    assert NatToString(m) + "m" == NatToString(m) + ['m'] + "";
  }

  lemma ParseDaysHoursMinutes(d: nat, h: nat, m: nat)
    ensures ParseDhm(NatToString(d) + "d" + NatToString(h) + "h" + NatToString(m) + "m")
      == Some(DaysHoursMinutes(d, h, m))
  {
    var tail := NatToString(m) + "m";
    var middle := NatToString(h) + "h" + tail;
    var s := NatToString(d) + "d" + NatToString(h) + "h" + NatToString(m) + "m";
    assert s == NatToString(d) + ['d'] + middle;
    assert middle == NatToString(h) + ['h'] + tail;
    assert tail == NatToString(m) + ['m'] + "";
    ReadFormatted(d, 'd', middle);
    ReadFormatted(h, 'h', tail);
    ReadFormatted(m, 'm', "");
    assert ReadUnit(s) == Some((d, 'd', middle));
    assert ReadUnit(middle) == Some((h, 'h', tail));
    assert ReadUnit(tail) == Some((m, 'm', ""));
  }

  lemma HoursArithmetic(secs: nat)
    requires 3600 <= secs < 86400
    ensures var h := secs / 3600; var m := (secs - h * 3600) / 60;
      1 <= h < 24 && m < 60 && h * 3600 + m * 60 <= secs < h * 3600 + m * 60 + 60
  {
  }

  lemma DaysArithmetic(secs: nat)
    requires 86400 <= secs
    ensures var d := secs / 86400; var h := (secs - d * 86400) / 3600;
      var m := (secs - d * 86400 - h * 3600) / 60;
      d >= 1 && h < 24 && m < 60 && d * 86400 + h * 3600 + m * 60 <= secs < d * 86400 + h * 3600 + m * 60 + 60
  {
  }

  /** A breakdown is unique: `Describes` pins down what `duration_to_dhm` must print. */
  lemma DescribesUnique(x: Dhm, y: Dhm, secs: nat)
    requires Describes(x, secs) && Describes(y, secs)
    ensures x == y
  {
    match x
    case Minutes(m) =>
      MinuteUnique(m, y.m, secs);
    case HoursMinutes(h, m) =>
      PairUnique(h, m, y.h, y.m, secs - 0);
    case DaysHoursMinutes(d, h, m) =>
      TripleUnique(d, h, m, y.d, y.h, y.m, secs);
  }

  lemma MinuteUnique(a: nat, b: nat, secs: nat)
    requires a * 60 <= secs < a * 60 + 60 && b * 60 <= secs < b * 60 + 60
    ensures a == b
  {
  }

  lemma PairUnique(h1: nat, m1: nat, h2: nat, m2: nat, secs: nat)
    requires m1 < 60 && m2 < 60
    requires h1 * 3600 + m1 * 60 <= secs < h1 * 3600 + m1 * 60 + 60
    requires h2 * 3600 + m2 * 60 <= secs < h2 * 3600 + m2 * 60 + 60
    ensures h1 == h2 && m1 == m2
  {
    MinuteUnique(h1 * 60 + m1, h2 * 60 + m2, secs);
    assert h1 * 60 + m1 == h2 * 60 + m2;
  }

  lemma TripleUnique(d1: nat, h1: nat, m1: nat, d2: nat, h2: nat, m2: nat, secs: nat)
    requires h1 < 24 && m1 < 60 && h2 < 24 && m2 < 60
    requires d1 * 86400 + h1 * 3600 + m1 * 60 <= secs < d1 * 86400 + h1 * 3600 + m1 * 60 + 60
    requires d2 * 86400 + h2 * 3600 + m2 * 60 <= secs < d2 * 86400 + h2 * 3600 + m2 * 60 + 60
    ensures d1 == d2 && h1 == h2 && m1 == m2
  {
    MinuteUnique(d1 * 1440 + h1 * 60 + m1, d2 * 1440 + h2 * 60 + m2, secs);
    assert d1 * 24 + h1 == d2 * 24 + h2;
  }
}
