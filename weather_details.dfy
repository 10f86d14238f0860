/**
 * src/components/WeatherDetails.tsx: the "H:MM AM/PM" time format used for
 * sunrise and sunset, and which detail items are shown.
 */
module WeatherDetails {
  import opened Wrappers
  import opened Text
  import opened TwelveHourClock

  /** `minutes.toString().padStart(2, '0')`. */
  function TwoDigitMinutes(minutes: int): (r: string)
    requires 0 <= minutes < 60
    ensures |r| == 2 && AllDigits(r)
  {
    PadStart(NatToDecimal(minutes), 2, '0')
  }

  /** The two digits read back as the minute, with a leading zero below ten. */
  lemma {:induction false} TwoDigitMinutesValue(minutes: int)
    requires 0 <= minutes < 60
    ensures DecimalValue(TwoDigitMinutes(minutes)) == minutes
    ensures minutes < 10 <==> TwoDigitMinutes(minutes)[0] == '0'
  {
    var digits := NatToDecimal(minutes);
    DecimalRoundTrip(minutes);
    if minutes < 10 {
      assert TwoDigitMinutes(minutes) == "0" + digits;
      LeadingZeroValue(digits);
    } else {
      assert TwoDigitMinutes(minutes) == digits;
    }
  }

  /** `formatTime`: the local hour and minute as "H:MM AM" or "H:MM PM". */
  function FormatTime(hours: int, minutes: int): (r: string)
    requires 0 <= hours < 24 && 0 <= minutes < 60
  {
    NatToDecimal(DisplayHour(hours)) + ":" + TwoDigitMinutes(minutes) + " " + Meridiem(hours)
  }

  /** Where each field of an "H:MM XM" text sits, whatever the fields hold. */
  lemma TimeFields(h: string, mm: string, suffix: string)
    requires |mm| == 2 && |suffix| == 2
    ensures var r := h + ":" + mm + " " + suffix;
      && |r| == |h| + 6
      && r[..|r| - 6] == h && r[|r| - 6] == ':' && r[|r| - 5..|r| - 3] == mm
      && r[|r| - 3] == ' ' && r[|r| - 2..] == suffix
  {
    var r := h + ":" + mm + " " + suffix;
    assert r == h + (":" + mm + " " + suffix);
  }

  /** A one-digit hour gives a seven-character text, listed character by character. */
  lemma ShortTimeChars(h: string, mm: string, suffix: string)
    requires |h| == 1 && |mm| == 2 && |suffix| == 2
    ensures h + ":" + mm + " " + suffix == [h[0], ':', mm[0], mm[1], ' ', suffix[0], suffix[1]]
  {
    TimeFields(h, mm, suffix);
  }

  /** The text splits into the dial hour, a colon, two minute digits, a space and the half of the day. */
  lemma {:induction false} FormatTimeParts(hours: int, minutes: int)
    requires 0 <= hours < 24 && 0 <= minutes < 60
    ensures var r := FormatTime(hours, minutes);
      && 7 <= |r| <= 8
      && AllDigits(r[..|r| - 6]) && DecimalValue(r[..|r| - 6]) == DisplayHour(hours)
      && r[|r| - 6] == ':'
      && AllDigits(r[|r| - 5..|r| - 3]) && DecimalValue(r[|r| - 5..|r| - 3]) == minutes
      && r[|r| - 3] == ' '
      && (r[|r| - 2..] == "AM" <==> hours < 12)
      && (r[|r| - 2..] == "PM" <==> hours >= 12)
  {
    var h := NatToDecimal(DisplayHour(hours));
    var mm := TwoDigitMinutes(minutes);
    var suffix := Meridiem(hours);
    TimeFields(h, mm, suffix);
    DecimalRoundTrip(DisplayHour(hours));
    TwoDigitMinutesValue(minutes);
  }

  /** Two "H:MM XM" texts that are equal have equal fields. */
  lemma TimeFieldsInjective(h1: string, mm1: string, s1: string, h2: string, mm2: string, s2: string)
    requires |mm1| == 2 && |s1| == 2 && |mm2| == 2 && |s2| == 2
    requires h1 + ":" + mm1 + " " + s1 == h2 + ":" + mm2 + " " + s2
    ensures h1 == h2 && mm1 == mm2 && s1 == s2
  {
    TimeFields(h1, mm1, s1);
    TimeFields(h2, mm2, s2);
  }

  /** Different times of day get different texts. */
  lemma {:induction false} FormatTimeInjective(h1: int, m1: int, h2: int, m2: int)
    requires 0 <= h1 < 24 && 0 <= m1 < 60 && 0 <= h2 < 24 && 0 <= m2 < 60
    requires FormatTime(h1, m1) == FormatTime(h2, m2)
    ensures h1 == h2 && m1 == m2
  {
    var d1, d2 := DisplayHour(h1), DisplayHour(h2);
    var mm1, mm2 := TwoDigitMinutes(m1), TwoDigitMinutes(m2);
    var s1, s2 := Meridiem(h1), Meridiem(h2);
    TimeFieldsInjective(NatToDecimal(d1), mm1, s1, NatToDecimal(d2), mm2, s2);
    NatToDecimalInjective(d1, d2);
    DialDeterminesHour(h1, h2);
    TwoDigitMinutesValue(m1);
    TwoDigitMinutesValue(m2);
  }

  /** Midnight reads "12:00 AM". */
  lemma MidnightExample()
    ensures FormatTime(0, 0) == "12:00 AM"
  {
    assert DigitChar(0) == '0' && DigitChar(1) == '1' && DigitChar(2) == '2';
    assert NatToDecimal(12) == "12" && TwoDigitMinutes(0) == "00";
    assert FormatTime(0, 0) == "12" + ":" + "00" + " " + "AM";
  }

  /** A minute below ten gets a leading zero: "6:05 AM". */
  lemma EarlyMorningExample()
    ensures FormatTime(6, 5) == "6:05 AM"
  {
    assert DigitChar(0) == '0' && DigitChar(5) == '5' && DigitChar(6) == '6';
    assert NatToDecimal(6) == "6" && TwoDigitMinutes(5) == "05";
    assert FormatTime(6, 5) == "6" + ":" + "05" + " " + "AM";
  }

  /** Half past noon is "12:30 PM". */
  lemma NoonExample()
    ensures FormatTime(12, 30) == "12:30 PM"
  {
    assert DigitChar(0) == '0' && DigitChar(1) == '1' && DigitChar(2) == '2' && DigitChar(3) == '3';
    assert DisplayHour(12) == 12 && Meridiem(12) == "PM";
    assert NatToDecimal(12) == "12";
    assert NatToDecimal(30) == "30" by {
      assert 30 / 10 == 3 && 30 % 10 == 0;
      assert NatToDecimal(3) == "3";
    }
    assert TwoDigitMinutes(30) == PadStart("30", 2, '0') == "30";
    assert FormatTime(12, 30) == "12" + ":" + "30" + " " + "PM";
  }

  /** The minute 45 is written "45". */
  lemma FortyFiveMinutes()
    ensures TwoDigitMinutes(45) == "45"
  {
    assert DigitChar(4) == '4' && DigitChar(5) == '5';
    assert NatToDecimal(45) == "45" by {
      assert 45 / 10 == 4 && 45 % 10 == 5;
      assert NatToDecimal(4) == "4";
    }
  }

  /** The hour 19 is written "7" on the dial, in the afternoon half. */
  lemma SevenInTheEvening()
    ensures NatToDecimal(DisplayHour(19)) == "7" && Meridiem(19) == "PM"
  {
    assert DisplayHour(19) == 7;
    assert DigitChar(7) == '7';
  }

  /** 19:45 reads "7:45 PM". */
  lemma EveningExample()
    ensures FormatTime(19, 45) == "7:45 PM"
  {
    SevenInTheEvening();
    FortyFiveMinutes();
    ShortTimeChars(NatToDecimal(DisplayHour(19)), TwoDigitMinutes(45), Meridiem(19));
  }

  datatype DetailItem = Humidity | WindSpeed | Precipitation | Sunrise | Sunset

  /** The detail items rendered, in order; `precipitationProbability !== undefined`, `sunrise &&`, `sunset &&`. */
  function ShownDetails(precipitationProbability: Option<real>, sunrise: Option<string>, sunset: Option<string>): (r: seq<DetailItem>)
  {
    [Humidity, WindSpeed]
    + (if precipitationProbability.Some? then [Precipitation] else [])
    + (if Truthy(sunrise) then [Sunrise] else [])
    + (if Truthy(sunset) then [Sunset] else [])
  }

  /** Which items appear, and that they appear once each in the fixed order. */
  lemma ShownDetailsMeaning(precipitationProbability: Option<real>, sunrise: Option<string>, sunset: Option<string>)
    ensures var r := ShownDetails(precipitationProbability, sunrise, sunset);
      && r[..2] == [Humidity, WindSpeed]
      && (Precipitation in r <==> precipitationProbability.Some?)
      && (Sunrise in r <==> sunrise.Some? && sunrise.value != "")
      && (Sunset in r <==> sunset.Some? && sunset.value != "")
      && (forall i, j :: 0 <= i < j < |r| ==> r[i] != r[j])
      && |r| == 2 + (if precipitationProbability.Some? then 1 else 0)
                  + (if Truthy(sunrise) then 1 else 0) + (if Truthy(sunset) then 1 else 0)
  {
  }

  /** A zero probability is still shown; an empty sunrise text is not. */
  lemma ShownDetailsEdgeCases()
    ensures Precipitation in ShownDetails(Some(0.0), None, None)
    ensures Sunrise !in ShownDetails(None, Some(""), None)
  {
    assert ShownDetails(Some(0.0), None, None)[2] == Precipitation;
  }
}
