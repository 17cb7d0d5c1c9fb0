/**
 * `RrdPlotly.formatTime`: the compact duration label used on the archive
 * picker. A second count is cut into seconds, minutes, hours, days and
 * 30-day months, and the first band whose conditions hold decides the label.
 */
module DurationFormat {
  import opened Decimal

  /** The characters a duration label is made of: digits, ':', ' ' and unit letters. */
  predicate IsLabelChar(c: char) {
    IsDigitChar(c) || c == ':' || c == ' ' || c in "sminhrdayot"
  }

  predicate IsLabelText(t: string) {
    forall i :: 0 <= i < |t| ==> IsLabelChar(t[i])
  }

  lemma LabelTextConcat(a: string, b: string)
    requires IsLabelText(a) && IsLabelText(b)
    ensures IsLabelText(a + b)
  {
  }

  lemma NumeralIsLabelText(n: nat)
    ensures IsLabelText(NatToString(n))
  {
  }

  /** The label for `s` seconds, branch for branch as `formatTime` computes it. */
  function FormatTime(s: nat): (r: string)
  {
    if s < 60 then NatToString(s) + "s"
    else
      var s60 := s % 60;
      var m := (s - s60) / 60;
      if m < 10 && s60 > 9 then NatToString(m) + ":" + NatToString(s60) + " min"
      else if m < 60 then NatToString(m) + " min"
      else
        var m60 := m % 60;
        var h := (m - m60) / 60;
        if h < 12 && m60 > 9 then NatToString(h) + ":" + NatToString(m60) + " hrs"
        else if h < 48 then NatToString(h) + " hrs"
        else
          var h24 := h % 24;
          var d := (h - h24) / 24;
          if d < 7 && h24 > 0 then NatToString(d) + " days " + NatToString(h24) + "h"
          else if d < 60 then NatToString(d) + " days"
          else
            var d30 := d % 30;
            var mt := (d - d30) / 30;
            NatToString(mt) + " months"
  }

  /** Under a minute the label is the second count followed by "s". */
  lemma FormatTimeSeconds(s: nat)
    requires s < 60
    ensures FormatTime(s) == NatToString(s) + "s"
  {
  }

  /**
   * From one minute up to an hour: "m:r min" while m < 10 and r > 9, else
   * "m min", where m and r are the whole minutes and leftover seconds.
   */
  lemma FormatTimeMinutes(s: nat)
    requires 60 <= s < 3600
    ensures s / 60 < 10 && s % 60 > 9 ==>
              FormatTime(s) == NatToString(s / 60) + ":" + NatToString(s % 60) + " min"
    ensures !(s / 60 < 10 && s % 60 > 9) ==> FormatTime(s) == NatToString(s / 60) + " min"
  {
    assert (s - s % 60) / 60 == s / 60;
  }

  /** m == s / 60, h == s / 3600 and d == s / 86400 are the nested quotients `formatTime` computes. */
  lemma Quotients(s: nat)
    ensures (s - s % 60) / 60 == s / 60
    ensures (s / 60 - s / 60 % 60) / 60 == s / 3600
    ensures s / 60 % 60 == s % 3600 / 60
    ensures s / 3600 % 24 == s % 86400 / 3600
    ensures (s / 3600 - s / 3600 % 24) / 24 == s / 86400
    ensures (s / 86400 - s / 86400 % 30) / 30 == s / 2592000
  {
    var d, x := s / 86400, s % 86400;
    var rh, y := x / 3600, x % 3600;
    assert s == 3600 * (24 * d + rh) + y;
    assert s / 3600 == 24 * d + rh;
  }

  /**
   * From one hour up to two days: "h:mm hrs" while h < 12 and the leftover
   * minutes exceed 9, else "h hrs".
   */
  lemma FormatTimeHours(s: nat)
    requires 3600 <= s < 172800
    ensures s / 3600 < 12 && s % 3600 / 60 > 9 ==>
              FormatTime(s) == NatToString(s / 3600) + ":" + NatToString(s % 3600 / 60) + " hrs"
    ensures !(s / 3600 < 12 && s % 3600 / 60 > 9) ==> FormatTime(s) == NatToString(s / 3600) + " hrs"
  {
    Quotients(s);
  }

  /**
   * From two days up to sixty days: "d days {rh}h" (hours unpadded) while d < 7 and there are
   * leftover hours, else "d days".
   */
  lemma FormatTimeDays(s: nat)
    requires 172800 <= s < 5184000
    ensures s / 86400 < 7 && s % 86400 / 3600 > 0 ==>
              FormatTime(s) == NatToString(s / 86400) + " days " + NatToString(s % 86400 / 3600) + "h"
    ensures !(s / 86400 < 7 && s % 86400 / 3600 > 0) ==> FormatTime(s) == NatToString(s / 86400) + " days"
  {
    var m := (s - s % 60) / 60;
    var h := (m - m % 60) / 60;
    var d := (h - h % 24) / 24;
    Quotients(s);
    assert m == s / 60 && h == s / 3600 && d == s / 86400 && h % 24 == s % 86400 / 3600;
    assert !(m < 60) && !(h < 48);
  }

  /** From sixty days on, the label counts whole 30-day months. */
  lemma FormatTimeMonths(s: nat)
    requires 5184000 <= s
    ensures FormatTime(s) == NatToString(s / 2592000) + " months"
  {
    Quotients(s);
  }

  lemma NumeralThen(n: nat, suffix: string)
    requires IsLabelText(suffix)
    ensures IsLabelText(NatToString(n) + suffix)
  {
    NumeralIsLabelText(n);
    LabelTextConcat(NatToString(n), suffix);
  }

  lemma PairThen(a: nat, sep: string, b: nat, suffix: string)
    requires IsLabelText(sep) && IsLabelText(suffix)
    ensures IsLabelText(NatToString(a) + sep + NatToString(b) + suffix)
  {
    NumeralThen(a, sep);
    NumeralThen(b, suffix);
    assert NatToString(a) + sep + NatToString(b) + suffix == (NatToString(a) + sep) + (NatToString(b) + suffix);
    LabelTextConcat(NatToString(a) + sep, NatToString(b) + suffix);
  }

  /** A label is a non-empty string of digits, ':', ' ' and unit letters; it has no parentheses. */
  lemma FormatTimeIsLabelText(s: nat)
    ensures |FormatTime(s)| > 0
    ensures IsLabelText(FormatTime(s))
  {
    if s < 60 {
      FormatTimeSeconds(s);
      NumeralThen(s, "s");
    } else if s < 3600 {
      FormatTimeMinutes(s);
      NumeralThen(s / 60, " min");
      PairThen(s / 60, ":", s % 60, " min");
    } else if s < 172800 {
      FormatTimeHours(s);
      NumeralThen(s / 3600, " hrs");
      PairThen(s / 3600, ":", s % 3600 / 60, " hrs");
    } else if s < 5184000 {
      FormatTimeDays(s);
      NumeralThen(s / 86400, " days");
      PairThen(s / 86400, " days ", s % 86400 / 3600, "h");
    } else {
      FormatTimeMonths(s);
      NumeralThen(s / 2592000, " months");
    }
  }

  /** Sample labels, as the code computes them. */
  lemma FormatTimeExamples()
    ensures FormatTime(45) == "45s"
    ensures FormatTime(75) == "1:15 min"
    ensures FormatTime(125) == "2 min"
    ensures FormatTime(3600) == "1 hrs"
    ensures FormatTime(90000) == "25 hrs"
  {
    FormatTimeSeconds(45);
    assert NatToString(45) == "45";
    FormatTimeMinutes(75);
    assert NatToString(15) == "15";
    FormatTimeMinutes(125);
    FormatTimeHours(3600);
    FormatTimeHours(90000);
    assert NatToString(25) == "25";
  }

  /** Sixty days read as two months, as the code computes it. */
  lemma FormatTimeExampleMonths()
    ensures FormatTime(5184000) == "2 months"
  {
    FormatTimeMonths(5184000);
  }

  /** A sample label with days and leftover hours, as the code computes it. */
  lemma FormatTimeExampleDays()
    ensures FormatTime(277200) == "3 days 5h"
  {
    FormatTimeDays(277200);
    assert 277200 / 86400 == 3 && 277200 % 86400 / 3600 == 5;
    assert NatToString(3) + " days " + NatToString(5) + "h" == "3 days 5h";
  }
}
