/**
 * src/components/LocationCard.tsx: what a saved-location card shows.
 * Layout, styles and the rounding of the temperature are not modelled.
 */
module LocationCard {
  import opened Wrappers
  import WeatherCodes
  import LocationLabel

  /** The visible parts of a card: the name, the region line, the weather icon if any, and whether the remove control exists. */
  datatype CardView = CardView(name: string, location: string, weatherIcon: Option<string>, temperature: Option<real>, removable: bool)

  /**
   * `weatherInfo && temperature !== undefined` guards the icon and the
   * temperature, where `weatherInfo` is the lookup of a defined code;
   * `onRemove &&` guards the remove control.
   */
  function Render(name: string, country: string, admin1: Option<string>, temperature: Option<real>,
                  weatherCode: Option<int>, hasOnRemove: bool): (v: CardView)
  {
    var weatherInfo := if weatherCode.Some? then Some(WeatherCodes.GetWeatherInfo(weatherCode.value)) else None;
    var showWeather := weatherInfo.Some? && temperature.Some?;
    CardView(name, LocationLabel.Label(admin1, Some(country)),
             if showWeather then Some(weatherInfo.value.icon) else None,
             if showWeather then temperature else None,
             hasOnRemove)
  }

  lemma RenderMeaning(name: string, country: string, admin1: Option<string>, temperature: Option<real>,
                      weatherCode: Option<int>, hasOnRemove: bool)
    ensures var v := Render(name, country, admin1, temperature, weatherCode, hasOnRemove);
      && v.name == name
      && (v.weatherIcon.Some? <==> weatherCode.Some? && temperature.Some?)
      && (v.temperature.Some? <==> weatherCode.Some? && temperature.Some?)
      && (v.weatherIcon.Some? ==> v.weatherIcon.value == WeatherCodes.GetWeatherInfo(weatherCode.value).icon
                                  && v.temperature == temperature)
      && (v.removable <==> hasOnRemove)
      && (country != "" && (admin1 == None || admin1 == Some("")) ==> v.location == country)
      && (country != "" && admin1.Some? && admin1.value != "" ==> v.location == admin1.value + ", " + country)
      && (country == "" && (admin1 == None || admin1 == Some("")) ==> v.location == "")
      && (country == "" && admin1.Some? && admin1.value != "" ==> v.location == admin1.value)
  {
    LocationLabel.LabelCases(admin1, Some(country));
  }
}
