/**
 * Reading a duration label back into seconds. A label names a number of
 * seconds, minutes, hours, days or 30-day months, optionally followed by a
 * finer field; `ParseLabel` gives the seconds it denotes. The main theorem
 * says that every `FormatTime` label reads back, never overstates its
 * duration, and understates it by less than the precision of its band.
 */
module DurationLabel {
  import opened Wrappers
  import opened Decimal
  import opened DurationFormat

  /** The seconds a duration label denotes, or None when it is not a label. */
  function ParseLabel(t: string): Option<nat> {
    match ReadNumeral(t)
    case None => None
    case Some((a, rest)) => ParseUnits(a, rest)
  }

  /** The seconds denoted by a leading count `a` followed by `rest`. */
  function ParseUnits(a: nat, rest: string): Option<nat> {
    if |rest| == 0 then None
    else if rest[0] == ':' then ParseSubField(rest[1..], 60 * a, 1, 3600 * a, 60)
    else if |rest| > 6 && rest[..6] == " days " then ParseDayHours(86400 * a, rest[6..])
    else if rest == "s" then Some(a)
    else if rest == " min" then Some(60 * a)
    else if rest == " hrs" then Some(3600 * a)
    else if rest == " days" then Some(86400 * a)
    else if rest == " months" then Some(2592000 * a)
    else None
  }

  /** The minutes of "m:ss min" or the hours of "h:mm hrs", after the ':'. */
  function ParseSubField(t: string, minBase: nat, minFactor: nat, hrsBase: nat, hrsFactor: nat): Option<nat> {
    match ReadNumeral(t)
    case None => None
    case Some((b, tail)) =>
      if tail == " min" then Some(minBase + minFactor * b)
      else if tail == " hrs" then Some(hrsBase + hrsFactor * b)
      else None
  }

  /** The hours of "d days {h}h" (hour count unpadded, then the letter h), after "d days ". */
  function ParseDayHours(base: nat, t: string): Option<nat> {
    match ReadNumeral(t)
    case None => None
    case Some((b, tail)) => if tail == "h" then Some(base + 3600 * b) else None
  }

  /**
   * How finely a label shows `s`: the label's value is within this many
   * seconds below `s`. 1 means the label is exact.
   */
  function Precision(s: nat): nat {
    if s < 60 then 1
    else if s < 600 then 10
    else if s < 3600 then 60
    else if s < 43200 then 600
    else if s < 604800 then 3600
    else if s < 5184000 then 86400
    else 2592000
  }

  lemma UnitsAfterColon(a: nat, x: string)
    ensures ParseUnits(a, ":" + x) == ParseSubField(x, 60 * a, 1, 3600 * a, 60)
  {
    assert (":" + x)[0] == ':';
    assert (":" + x)[1..] == x;
  }

  lemma UnitsAfterDays(a: nat, x: string)
    ensures ParseUnits(a, " days " + x) == ParseDayHours(86400 * a, x)
  {
    var rest := " days " + x;
    assert rest[0] == ' ';
    assert rest[..6] == " days ";
    assert rest[6..] == x;
  }

  lemma UnitsSingle(a: nat, unit: string)
    requires unit == "s" || unit == " min" || unit == " hrs" || unit == " days" || unit == " months"
    ensures unit == "s" ==> ParseUnits(a, unit) == Some(a)
    ensures unit == " min" ==> ParseUnits(a, unit) == Some(60 * a)
    ensures unit == " hrs" ==> ParseUnits(a, unit) == Some(3600 * a)
    ensures unit == " days" ==> ParseUnits(a, unit) == Some(86400 * a)
    ensures unit == " months" ==> ParseUnits(a, unit) == Some(2592000 * a)
  {
    if unit == " months" {
      assert unit[..6][1] == 'm' != " days "[1];
    }
  }

  /** Regrouping a four-part concatenation to the right. */
  lemma RegroupRight(p: string, q: string, r: string, u: string)
    ensures p + q + r + u == p + (q + (r + u))
  {
  }

  /** A numeral followed by a non-digit rest reads as its value applied to that rest. */
  lemma ParseLabelOfNumeral(a: nat, rest: string)
    requires |rest| > 0 && !IsDigitChar(rest[0])
    ensures ParseLabel(NatToString(a) + rest) == ParseUnits(a, rest)
  {
    ReadNumeralOfNatToString(a, rest);
  }

  lemma ReadSingleUnit(n: nat, unit: string)
    requires unit == "s" || unit == " min" || unit == " hrs" || unit == " days" || unit == " months"
    ensures ParseLabel(NatToString(n) + unit) == ParseUnits(n, unit)
  {
    ParseLabelOfNumeral(n, unit);
  }

  lemma SubFieldOfNumeral(b: nat, unit: string, minBase: nat, hrsBase: nat)
    requires unit == " min" || unit == " hrs"
    ensures unit == " min" ==> ParseSubField(NatToString(b) + unit, minBase, 1, hrsBase, 60) == Some(minBase + b)
    ensures unit == " hrs" ==> ParseSubField(NatToString(b) + unit, minBase, 1, hrsBase, 60) == Some(hrsBase + 60 * b)
  {
    ReadNumeralOfNatToString(b, unit);
  }

  /** A label "a:b" + unit reads as the numeral before the colon and the field after it. */
  lemma ReadColonPair(a: nat, b: nat, unit: string)
    requires unit == " min" || unit == " hrs"
    ensures ParseLabel(NatToString(a) + ":" + NatToString(b) + unit)
            == ParseSubField(NatToString(b) + unit, 60 * a, 1, 3600 * a, 60)
  {
    var x := NatToString(b) + unit;
    RegroupRight(NatToString(a), ":", NatToString(b), unit);
    ParseLabelOfNumeral(a, ":" + x);
    UnitsAfterColon(a, x);
  }

  lemma DayHoursOfNumeral(base: nat, h: nat)
    ensures ParseDayHours(base, NatToString(h) + "h") == Some(base + 3600 * h)
  {
    ReadNumeralOfNatToString(h, "h");
  }

  /** A label "d days h" + "h" reads as the day numeral and the hour field after it. */
  lemma ReadDaysHours(d: nat, h: nat)
    ensures ParseLabel(NatToString(d) + " days " + NatToString(h) + "h") == ParseDayHours(86400 * d, NatToString(h) + "h")
  {
    var x := NatToString(h) + "h";
    RegroupRight(NatToString(d), " days ", NatToString(h), "h");
    ParseLabelOfNumeral(d, " days " + x);
    UnitsAfterDays(d, x);
  }

  /**
   * Every label `FormatTime` produces reads back to a value `v` with
   * `v <= s < v + Precision(s)`: the label truncates, never rounds up.
   */
  lemma FormatTimeReadBack(s: nat)
    ensures ParseLabel(FormatTime(s)).Some?
    ensures ParseLabel(FormatTime(s)).value <= s < ParseLabel(FormatTime(s)).value + Precision(s)
  {
    if s < 60 {
      FormatTimeSeconds(s);
      ReadSingleUnit(s, "s");
      UnitsSingle(s, "s");
    } else if s < 3600 {
      FormatTimeMinutes(s);
      if s / 60 < 10 && s % 60 > 9 {
        ReadColonPair(s / 60, s % 60, " min");
        SubFieldOfNumeral(s % 60, " min", 60 * (s / 60), 3600 * (s / 60));
      } else {
        ReadSingleUnit(s / 60, " min");
        UnitsSingle(s / 60, " min");
      }
    } else if s < 172800 {
      FormatTimeHours(s);
      if s / 3600 < 12 && s % 3600 / 60 > 9 {
        ReadColonPair(s / 3600, s % 3600 / 60, " hrs");
        SubFieldOfNumeral(s % 3600 / 60, " hrs", 60 * (s / 3600), 3600 * (s / 3600));
      } else {
        ReadSingleUnit(s / 3600, " hrs");
        UnitsSingle(s / 3600, " hrs");
      }
    } else if s < 5184000 {
      FormatTimeDays(s);
      if s / 86400 < 7 && s % 86400 / 3600 > 0 {
        ReadDaysHours(s / 86400, s % 86400 / 3600);
        DayHoursOfNumeral(86400 * (s / 86400), s % 86400 / 3600);
      } else {
        ReadSingleUnit(s / 86400, " days");
        UnitsSingle(s / 86400, " days");
      }
    } else {
      FormatTimeMonths(s);
      ReadSingleUnit(s / 2592000, " months");
      UnitsSingle(s / 2592000, " months");
    }
  }
}
