/**
 * src/components/HourlyForecast.tsx: the first `maxHours` entries of the
 * hourly series, zipped with their temperatures and weather codes, and the
 * "H AM/PM" label of each hour.
 */
module HourlyForecast {
  import opened Wrappers
  import opened Text
  import opened TwelveHourClock
  import WeatherCodes

  const DefaultMaxHours := 24

  /** One element of `hourlyData`; an index past the end of its array reads `undefined`. */
  datatype HourEntry = HourEntry(time: string, temperature: Option<real>, weatherCode: Option<int>)

  /** `xs[i]` in JavaScript: `undefined` past the end. */
  function At<T>(xs: seq<T>, i: nat): (r: Option<T>)
    ensures r == None <==> i >= |xs|
    ensures i < |xs| ==> r == Some(xs[i])
  {
    if i < |xs| then Some(xs[i]) else None
  }

  /** The end index of `slice(0, end)` on an array of length `len`; a negative end counts from the back. */
  function SliceEnd(len: nat, end: int): (n: nat)
    ensures n <= len
    ensures end >= 0 ==> n == if end < len then end else len
    ensures end < 0 ==> n == if len + end > 0 then len + end else 0
  {
    if end >= 0 then (if end < len then end else len)
    else if len + end > 0 then len + end else 0
  }

  /** `times.slice(0, maxHours).map((time, index) => ({ time, temperature: temperatures[index], weatherCode: weatherCodes[index] }))`. */
  function HourlyData(times: seq<string>, temperatures: seq<real>, weatherCodes: seq<int>, maxHours: int): (r: seq<HourEntry>)
    ensures |r| == SliceEnd(|times|, maxHours)
  {
    var n := SliceEnd(|times|, maxHours);
    seq(n, i requires 0 <= i < n => HourEntry(times[i], At(temperatures, i), At(weatherCodes, i)))
  }

  /** The series is a prefix of the times, in order, each paired with the same index of the other arrays. */
  lemma HourlyDataIsZippedPrefix(times: seq<string>, temperatures: seq<real>, weatherCodes: seq<int>, maxHours: int)
    ensures var r := HourlyData(times, temperatures, weatherCodes, maxHours);
      && (maxHours >= 0 ==> |r| == if maxHours < |times| then maxHours else |times|)
      && (forall i :: 0 <= i < |r| ==> r[i].time == times[i])
      && (forall i :: 0 <= i < |r| && i < |temperatures| ==> r[i].temperature == Some(temperatures[i]))
      && (forall i :: 0 <= i < |r| && i >= |temperatures| ==> r[i].temperature == None)
      && (forall i :: 0 <= i < |r| && i < |weatherCodes| ==> r[i].weatherCode == Some(weatherCodes[i]))
      && (forall i :: 0 <= i < |r| && i >= |weatherCodes| ==> r[i].weatherCode == None)
  {
  }

  /** The 24-hour default keeps at most a day of entries. */
  lemma DefaultKeepsOneDay(times: seq<string>, temperatures: seq<real>, weatherCodes: seq<int>)
    ensures |HourlyData(times, temperatures, weatherCodes, DefaultMaxHours)| == if |times| < 24 then |times| else 24
  {
  }

  /** The icon of an hour; a missing weather code reads as an unknown one. */
  function HourIcon(e: HourEntry): (icon: string)
    ensures e.weatherCode == None ==> icon == "help-circle"
    ensures e.weatherCode.Some? ==> icon == WeatherCodes.GetWeatherInfo(e.weatherCode.value).icon
  {
    match e.weatherCode
    case Some(code) => WeatherCodes.GetWeatherInfo(code).icon
    case None => WeatherCodes.UnknownInfo.icon
  }

  /** `formatTime`: "H AM" or "H PM" from the local hour. */
  function FormatHour(hours: int): (r: string)
    requires 0 <= hours < 24
  {
    NatToDecimal(DisplayHour(hours)) + " " + Meridiem(hours)
  }

  /** The label splits into a numeral for the dial hour, one space and the half of the day. */
  lemma {:induction false} FormatHourParts(hours: int)
    requires 0 <= hours < 24
    ensures var r := FormatHour(hours);
      && 3 <= |r| <= 5
      && AllDigits(r[..|r| - 3]) && DecimalValue(r[..|r| - 3]) == DisplayHour(hours)
      && 1 <= DecimalValue(r[..|r| - 3]) <= 12
      && r[|r| - 3] == ' '
      && (r[|r| - 2..] == "AM" <==> hours < 12)
      && (r[|r| - 2..] == "PM" <==> hours >= 12)
  {
    var r := FormatHour(hours);
    var digits := NatToDecimal(DisplayHour(hours));
    assert r[..|r| - 3] == digits;
    assert r[|r| - 2..] == Meridiem(hours);
    DecimalRoundTrip(DisplayHour(hours));
  }

  /** Different hours of the day get different labels. */
  lemma {:induction false} FormatHourInjective(h1: int, h2: int)
    requires 0 <= h1 < 24 && 0 <= h2 < 24
    requires FormatHour(h1) == FormatHour(h2)
    ensures h1 == h2
  {
    FormatHourParts(h1);
    FormatHourParts(h2);
    DialDeterminesHour(h1, h2);
  }

  lemma FormatHourExamples()
    ensures FormatHour(0) == "12 AM"
    ensures FormatHour(12) == "12 PM"
    ensures FormatHour(9) == "9 AM"
    ensures FormatHour(23) == "11 PM"
  {
  }
}
