/**
 * src/components/WeatherHeader.tsx: the city, the optional region line and
 * the condition label and icon of the current weather. Temperatures, which
 * are only rounded for display, are not modelled.
 */
module WeatherHeader {
  import opened Wrappers
  import opened Text
  import WeatherCodes
  import LocationLabel

  datatype HeaderView = HeaderView(cityName: string, locationLine: Option<string>, icon: string, condition: string)

  /** `(admin1 || country) &&` guards the region line. */
  function Render(cityName: string, weatherCode: int, admin1: Option<string>, country: Option<string>): (v: HeaderView)
  {
    var weatherInfo := WeatherCodes.GetWeatherInfo(weatherCode);
    HeaderView(cityName,
               if Truthy(admin1) || Truthy(country) then Some(LocationLabel.Label(admin1, country)) else None,
               weatherInfo.icon,
               weatherInfo.labelText)
  }

  /** The region line is rendered exactly when it would not be empty. */
  lemma {:induction false} LocationLineShownIffNonEmpty(cityName: string, weatherCode: int, admin1: Option<string>, country: Option<string>)
    ensures var v := Render(cityName, weatherCode, admin1, country);
      (v.locationLine.Some? <==> LocationLabel.Label(admin1, country) != "")
      && (v.locationLine.Some? ==> v.locationLine.value == LocationLabel.Label(admin1, country))
  {
    LocationLabel.LabelEmptyIff(admin1, country);
  }

  /** The condition text and icon come from the code table; an unknown code reads "Unknown" with a help icon. */
  lemma ConditionFromTable(cityName: string, weatherCode: int, admin1: Option<string>, country: Option<string>)
    ensures var v := Render(cityName, weatherCode, admin1, country);
      && (weatherCode in WeatherCodes.WeatherCodeMap ==>
            v.condition == WeatherCodes.WeatherCodeMap[weatherCode].labelText
            && v.icon == WeatherCodes.WeatherCodeMap[weatherCode].icon)
      && (weatherCode !in WeatherCodes.WeatherCodeMap ==> v.condition == "Unknown" && v.icon == "help-circle")
  {
  }
}
