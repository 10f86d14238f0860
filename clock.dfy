/**
 * The 12-hour clock arithmetic shared by both `formatTime` helpers
 * (src/components/HourlyForecast.tsx and src/components/WeatherDetails.tsx):
 * `hours % 12 || 12` and `hours >= 12 ? 'PM' : 'AM'`, for the hours
 * `Date.prototype.getHours` returns.
 */
module TwelveHourClock {

  /** `hours % 12 || 12`: a zero remainder is falsy and becomes 12. */
  function DisplayHour(hours: int): (d: nat)
    requires 0 <= hours < 24
    ensures 1 <= d <= 12
  {
    if hours % 12 == 0 then 12 else hours % 12
  }

  function Meridiem(hours: int): (m: string)
    requires 0 <= hours < 24
    ensures |m| == 2
  {
    if hours >= 12 then "PM" else "AM"
  }

  /**
   * The hour on the dial and the half of the day together determine the
   * hour: the value the display hour stands for is `hours mod 12`, with 12
   * standing for 0.
   */
  lemma DialDeterminesHour(h1: int, h2: int)
    requires 0 <= h1 < 24 && 0 <= h2 < 24
    requires DisplayHour(h1) == DisplayHour(h2) && Meridiem(h1) == Meridiem(h2)
    ensures h1 == h2
  {
    assert Meridiem(h1) == "PM" <==> h1 >= 12;
    assert Meridiem(h2) == "PM" <==> h2 >= 12;
  }

  lemma DisplayHourMeaning(hours: int)
    requires 0 <= hours < 24
    ensures DisplayHour(hours) % 12 == hours % 12
    ensures Meridiem(hours) == "AM" <==> hours < 12
  {
  }
}
