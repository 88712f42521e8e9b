/** The `GMT±HH[:MM]` label synthesised from an offset in minutes, and a reader
    for it that shows the label loses no information. */
module OffsetLabel {
  import opened Results
  import opened Text

  function Abs(x: int): nat { if x < 0 then -x else x }

  /** Whole hours padded to two digits, then the remaining minutes only when
      they are not zero: the part of the label after the sign. */
  function Magnitude(minutes: nat): string
  {
    PadStart2(Decimal(minutes / 60)) + (if minutes % 60 != 0 then ":" + PadStart2(Decimal(minutes % 60)) else "")
  }

  /** The offset label of `getTimezoneAbbreviation`: "GMT", the sign ("+" for
      zero), then the magnitude. */
  function GmtLabel(offset: int): (r: string)
    ensures |r| >= 6 && r[..3] == "GMT"
    ensures r[3] == if offset >= 0 then '+' else '-'
  {
    var sign := if offset >= 0 then "+" else "-";
    "GMT" + sign + Magnitude(Abs(offset))
  }

  /** A head without ":", digit hours and, when asked for, ":" and two digit
      minutes: the ":" is there exactly when the minutes are. */
  lemma AssembledShape(head: string, hoursText: string, minutesText: string, withMinutes: bool)
    requires ':' !in head && AllDigits(hoursText) && AllDigits(minutesText) && |minutesText| == 2
    ensures var s := head + hoursText + (if withMinutes then ":" + minutesText else "");
      && ((':' in s) <==> withMinutes)
      && |s| == |head| + |hoursText| + (if withMinutes then 3 else 0)
  {
    var s := head + hoursText + (if withMinutes then ":" + minutesText else "");
    assert ':' !in hoursText && ':' !in minutesText;
    if withMinutes {
      assert s[|head| + |hoursText|] == ':';
    }
  }

  /** The padded texts of a whole-hours count and a remainder: digits of
      their values, the remainder's exactly two, the hours' exactly two below 100. */
  lemma PaddedFields(hours: nat, rest: nat) returns (hoursText: string, minutesText: string)
    requires rest < 60
    ensures hoursText == PadStart2(Decimal(hours)) && minutesText == PadStart2(Decimal(rest))
    ensures |hoursText| >= 2 && AllDigits(hoursText) && ValueOf(hoursText) == hours
    ensures hours < 100 ==> |hoursText| == 2
    ensures |minutesText| == 2 && AllDigits(minutesText) && ValueOf(minutesText) == rest
  {
    hoursText := PadStart2(Decimal(hours));
    minutesText := PadStart2(Decimal(rest));
    PaddedValue(hours);
    PaddedValue(rest);
    DecimalBelowHundred(rest);
    if hours < 100 {
      DecimalBelowHundred(hours);
    }
  }

  /** The magnitude split into its fields: the hours text and, when `minutes`
      is not a whole number of hours, ":" and the minutes text, each field the
      digits of its value (the hours exactly two below 100). */
  lemma MagnitudeFields(minutes: nat) returns (hoursText: string, minutesText: string)
    ensures Magnitude(minutes) == hoursText + (if minutes % 60 != 0 then ":" + minutesText else "")
    ensures |hoursText| >= 2 && AllDigits(hoursText) && ValueOf(hoursText) == minutes / 60
    ensures minutes / 60 < 100 ==> |hoursText| == 2
    ensures |minutesText| == 2 && AllDigits(minutesText) && ValueOf(minutesText) == minutes % 60
  {
    hoursText, minutesText := PaddedFields(minutes / 60, minutes % 60);
  }

  /** The label is "GMT±HH" or "GMT±HH:MM" below 100 hours: a ":" appears
      exactly when the offset is not a whole number of hours, and the hours
      take exactly two digits. */
  lemma GmtLabelShape(offset: int)
    ensures (':' in GmtLabel(offset)) <==> Abs(offset) % 60 != 0
    ensures Abs(offset) / 60 < 100 ==> |GmtLabel(offset)| == if Abs(offset) % 60 != 0 then 9 else 6
  {
    var head := "GMT" + (if offset >= 0 then "+" else "-");
    var hoursText, minutesText := MagnitudeFields(Abs(offset));
    AssembledShape(head, hoursText, minutesText, Abs(offset) % 60 != 0);
    assert GmtLabel(offset) == head + Magnitude(Abs(offset));
  }

  /** Reads hours and optional two-digit minutes back into a count of minutes;
      the minutes, when present, must be a remainder the label writes (1 to 59). */
  function ParseMagnitude(body: string): Option<nat>
  {
    var (hoursText, minutesText) := SplitAt(body, ':');
    if hoursText == [] || !AllDigits(hoursText) then None
    else if minutesText.Some? && !MinutesField(minutesText.value) then None
    else Some(ValueOf(hoursText) * 60 + (if minutesText.Some? then ValueOf(minutesText.value) else 0))
  }

  /** Two digits denoting a non-zero remainder of an hour. */
  predicate MinutesField(t: string)
  {
    |t| == 2 && AllDigits(t) && 0 < ValueOf(t) < 60
  }

  /** Reads a `GMT±H…[:MM]` label back into an offset in minutes. */
  function ParseGmtLabel(s: string): Option<int>
  {
    if |s| < 4 || s[..3] != "GMT" || (s[3] != '+' && s[3] != '-') then None
    else
      match ParseMagnitude(s[4..])
      case None => None
      case Some(m) => Some(if s[3] == '+' then m as int else -(m as int))
  }

  /** Digit hours, then optionally ":" and a minutes field, parse as that many minutes. */
  lemma ParseMagnitudeOf(hoursText: string, minutesText: Option<string>)
    requires hoursText != [] && AllDigits(hoursText)
    requires minutesText.Some? ==> MinutesField(minutesText.value)
    ensures ParseMagnitude(hoursText + (if minutesText.Some? then ":" + minutesText.value else ""))
         == Some(ValueOf(hoursText) * 60 + (if minutesText.Some? then ValueOf(minutesText.value) else 0))
  {
    SplitAtAfterDigits(hoursText, ':', minutesText);
  }

  /** A number below 100 has at most two decimal digits. */
  lemma DecimalBelowHundred(n: nat)
    requires n < 100
    ensures |Decimal(n)| <= 2
  {
    if n >= 10 {
      assert |Decimal(n)| == |Decimal(n / 10)| + 1;
    }
  }

  /** Texts that read as the whole hours and the two-digit remainder of
      `minutes`, assembled as the label assembles them, parse back as `minutes`. */
  lemma BodyRoundTrip(minutes: nat, hoursText: string, minutesText: string)
    requires hoursText != [] && AllDigits(hoursText) && ValueOf(hoursText) == minutes / 60
    requires |minutesText| == 2 && AllDigits(minutesText) && ValueOf(minutesText) == minutes % 60
    ensures ParseMagnitude(hoursText + (if minutes % 60 != 0 then ":" + minutesText else "")) == Some(minutes)
  {
    if minutes % 60 != 0 {
      ParseMagnitudeOf(hoursText, Some(minutesText));
    } else {
      ParseMagnitudeOf(hoursText, None);
      assert hoursText + "" == hoursText;
    }
  }

  lemma MagnitudeRoundTrip(minutes: nat)
    ensures ParseMagnitude(Magnitude(minutes)) == Some(minutes)
  {
    PaddedValue(minutes / 60);
    PaddedValue(minutes % 60);
    DecimalBelowHundred(minutes % 60);
    BodyRoundTrip(minutes, PadStart2(Decimal(minutes / 60)), PadStart2(Decimal(minutes % 60)));
  }

  /** Every label reads back as the offset it was built from. */
  lemma GmtLabelRoundTrip(offset: int)
    ensures ParseGmtLabel(GmtLabel(offset)) == Some(offset)
  {
    var r := GmtLabel(offset);
    assert r[4..] == Magnitude(Abs(offset));
    MagnitudeRoundTrip(Abs(offset));
  }

  /** Distinct offsets never share a label. */
  lemma GmtLabelInjective(a: int, b: int)
    requires GmtLabel(a) == GmtLabel(b)
    ensures a == b
  {
    GmtLabelRoundTrip(a);
    GmtLabelRoundTrip(b);
  }

  /** Two two-digit texts with the same value are the same text. */
  lemma TwoDigitsUnique(t: string, u: string)
    requires |t| == 2 && |u| == 2 && AllDigits(t) && AllDigits(u) && ValueOf(t) == ValueOf(u)
    ensures t == u
  {
    assert ValueOf(t[..1]) == t[0] as int - '0' as int by { assert t[..1][..0] == []; }
    assert ValueOf(u[..1]) == u[0] as int - '0' as int by { assert u[..1][..0] == []; }
  }

  /** A magnitude text of the label's length that reads back as `minutes` is
      the given two-digit hours text, then ":" and the given two-digit minutes
      text exactly when `minutes` is not a whole number of hours. */
  lemma MagnitudeFromFields(minutes: nat, body: string, hoursText: string, minutesText: string)
    requires |hoursText| == 2 && AllDigits(hoursText) && ValueOf(hoursText) == minutes / 60
    requires |minutesText| == 2 && AllDigits(minutesText) && ValueOf(minutesText) == minutes % 60
    requires |body| == if minutes % 60 != 0 then 5 else 2
    requires ParseMagnitude(body) == Some(minutes)
    ensures body == hoursText + (if minutes % 60 != 0 then ":" + minutesText else "")
  {
    var (h, mt) := SplitAt(body, ':');
    if minutes % 60 == 0 {
      if mt.Some? {
        assert false;
      }
      assert h == body && ValueOf(h) * 60 == minutes;
      TwoDigitsUnique(h, hoursText);
    } else {
      if mt.None? {
        assert false;
      }
      var m := mt.value;
      assert body == h + [':'] + m;
      assert MinutesField(m) && ValueOf(h) * 60 + ValueOf(m) == minutes;
      assert minutes / 60 == ValueOf(h) && minutes % 60 == ValueOf(m);
      TwoDigitsUnique(h, hoursText);
      TwoDigitsUnique(m, minutesText);
    }
  }

  /** Below 100 hours, the label is the only text with its sign and length
      that reads back as the offset: together with `GmtLabelShape` and
      `GmtLabelRoundTrip`, these facts pin the label down completely. */
  lemma GmtLabelCanonical(offset: int, s: string)
    requires Abs(offset) / 60 < 100
    requires |s| == if Abs(offset) % 60 != 0 then 9 else 6
    requires s[..3] == "GMT" && s[3] == if offset >= 0 then '+' else '-'
    requires ParseGmtLabel(s) == Some(offset)
    ensures s == GmtLabel(offset)
  {
    var hoursText, minutesText := MagnitudeFields(Abs(offset));
    MagnitudeFromFields(Abs(offset), s[4..], hoursText, minutesText);
    assert s == s[..3] + [s[3]] + s[4..];
    assert GmtLabel(offset) == s[..3] + [s[3]] + Magnitude(Abs(offset));
  }

  /** A single digit pads to a leading zero and that digit. */
  lemma PadOneDigit(d: nat)
    requires d < 10
    ensures PadStart2(Decimal(d)) == ['0', DigitChar(d)]
  {
    assert Decimal(d) == [DigitChar(d)];
  }

  lemma LabelOfZero()
    ensures GmtLabel(0) == "GMT+00"
  {
    assert Magnitude(0) == PadStart2(Decimal(0)) + "";
    PadOneDigit(0);
  }

  lemma LabelOfHalfHourEast()
    ensures GmtLabel(330) == "GMT+05:30"
  {
    assert 330 / 60 == 5 && 330 % 60 == 30;
    assert Magnitude(330) == PadStart2(Decimal(5)) + ":" + PadStart2(Decimal(30));
    PadOneDigit(5);
    var thirty := Decimal(30);
    assert thirty == Decimal(3) + [DigitChar(0)];
    assert thirty == "30";
    assert PadStart2(thirty) == "30";
  }

  lemma LabelOfWholeHoursWest()
    ensures GmtLabel(-300) == "GMT-05"
  {
    assert Abs(-300) == 300 && 300 / 60 == 5 && 300 % 60 == 0;
    assert Magnitude(300) == PadStart2(Decimal(5)) + "";
    PadOneDigit(5);
  }

  /** The three labels of the sign and minutes rules: zero is "+", minutes
      appear only when not zero, and hours are padded to two digits. */
  lemma GmtLabelExamples()
    ensures GmtLabel(0) == "GMT+00"
    ensures GmtLabel(330) == "GMT+05:30"
    ensures GmtLabel(-300) == "GMT-05"
  {
    LabelOfZero();
    LabelOfHalfHourEast();
    LabelOfWholeHoursWest();
  }
}
