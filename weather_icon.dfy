/**
 * The range-based choice of weather picture in
 * src/components/AnimatedWeatherIcon.tsx, with the asset files it picks
 * modelled as an enumeration, and its agreement with the code table.
 */
module AnimatedWeatherIcon {
  import WeatherCodes

  datatype WeatherImage = Sunny | PartlyCloudy | Cloudy | Rainy | Snowy | Thunderstorm

  /** `getWeatherImage(code)`: the first range test that holds decides. */
  function GetWeatherImage(code: int): WeatherImage {
    if code <= 1 then Sunny
    else if code == 2 then PartlyCloudy
    else if code == 3 || code == 45 || code == 48 then Cloudy
    else if (51 <= code <= 67) || (80 <= code <= 82) then Rainy
    else if (71 <= code <= 77) || (85 <= code <= 86) then Snowy
    else if 95 <= code <= 99 then Thunderstorm
    else Sunny
  }

  /** The full inverse picture: which codes give each image. */
  lemma ImageRanges(code: int)
    ensures GetWeatherImage(code) == PartlyCloudy <==> code == 2
    ensures GetWeatherImage(code) == Cloudy <==> code in {3, 45, 48}
    ensures GetWeatherImage(code) == Rainy <==> 51 <= code <= 67 || 80 <= code <= 82
    ensures GetWeatherImage(code) == Snowy <==> 71 <= code <= 77 || 85 <= code <= 86
    ensures GetWeatherImage(code) == Thunderstorm <==> 95 <= code <= 99
    ensures GetWeatherImage(code) == Sunny <==>
      !(code == 2 || code in {3, 45, 48} || 51 <= code <= 67 || 80 <= code <= 82 ||
        71 <= code <= 77 || 85 <= code <= 86 || 95 <= code <= 99)
  {
  }

  /** Every code up to 1, negative ones included, shows the sunny picture. */
  lemma LowCodesSunny(code: int)
    requires code <= 1
    ensures GetWeatherImage(code) == Sunny
  {
  }

  /**
   * Codes in the rain ranges that the table does not know (52, 60, ...) still
   * get the rainy picture, while their label is "Unknown".
   */
  lemma RainyBeyondTable()
    ensures GetWeatherImage(52) == Rainy && WeatherCodes.GetWeatherInfo(52).labelText == "Unknown"
    ensures GetWeatherImage(60) == Rainy && WeatherCodes.GetWeatherInfo(60).labelText == "Unknown"
  {
  }

  /** The picture of a table code agrees with its background type, and shows a storm exactly for a storm icon. */
  predicate AgreesWithTable(code: int)
    requires code in WeatherCodes.WeatherCodeMap
  {
    var info := WeatherCodes.WeatherCodeMap[code];
    && (info.backgroundType == WeatherCodes.Clear ==> GetWeatherImage(code) == Sunny)
    && (info.backgroundType == WeatherCodes.Cloudy ==> GetWeatherImage(code) in {PartlyCloudy, Cloudy})
    && (info.backgroundType == WeatherCodes.Rain ==> GetWeatherImage(code) in {Rainy, Thunderstorm})
    && (info.backgroundType == WeatherCodes.Snow ==> GetWeatherImage(code) == Snowy)
    && (GetWeatherImage(code) == Thunderstorm <==> info.icon == "thunderstorm")
  }

  // The table codes in five groups, one branch per entry.

  lemma ClearAndCloudyAgree(code: int)
    requires code in WeatherCodes.WeatherCodeMap && code <= 48
    ensures AgreesWithTable(code)
  {
    if code == 0 {} else if code == 1 {} else if code == 2 {} else if code == 3 {} else if code == 45 {} else if code == 48 {}
  }

  lemma DrizzleAgrees(code: int)
    requires code in WeatherCodes.WeatherCodeMap && 48 < code <= 57
    ensures AgreesWithTable(code)
  {
    if code == 51 {} else if code == 53 {} else if code == 55 {} else if code == 56 {} else if code == 57 {}
  }

  lemma RainAgrees(code: int)
    requires code in WeatherCodes.WeatherCodeMap && 57 < code <= 67
    ensures AgreesWithTable(code)
  {
    if code == 61 {} else if code == 63 {} else if code == 65 {} else if code == 66 {} else if code == 67 {}
  }

  lemma SnowAndShowersAgree(code: int)
    requires code in WeatherCodes.WeatherCodeMap && 67 < code <= 86
    ensures AgreesWithTable(code)
  {
    if code == 71 {} else if code == 73 {} else if code == 75 {} else if code == 77 {} else
    if code == 80 {} else if code == 81 {} else if code == 82 {} else if code == 85 {} else if code == 86 {}
  }

  lemma ThunderstormsAgree(code: int)
    requires code in WeatherCodes.WeatherCodeMap && 86 < code
    ensures AgreesWithTable(code)
  {
    if code == 95 {} else if code == 96 {} else if code == 99 {}
  }

  /** For every code in the table, the picture agrees with the background type. */
  lemma ImageAgreesWithBackground(code: int)
    requires code in WeatherCodes.WeatherCodeMap
    ensures WeatherCodes.WeatherCodeMap[code].backgroundType == WeatherCodes.Clear ==> GetWeatherImage(code) == Sunny
    ensures WeatherCodes.WeatherCodeMap[code].backgroundType == WeatherCodes.Cloudy ==> GetWeatherImage(code) in {PartlyCloudy, Cloudy}
    ensures WeatherCodes.WeatherCodeMap[code].backgroundType == WeatherCodes.Rain ==> GetWeatherImage(code) in {Rainy, Thunderstorm}
    ensures WeatherCodes.WeatherCodeMap[code].backgroundType == WeatherCodes.Snow ==> GetWeatherImage(code) == Snowy
    ensures GetWeatherImage(code) == Thunderstorm <==> WeatherCodes.WeatherCodeMap[code].icon == "thunderstorm"
  {
    if code <= 48 {
      ClearAndCloudyAgree(code);
    } else if code <= 57 {
      DrizzleAgrees(code);
    } else if code <= 67 {
      RainAgrees(code);
    } else if code <= 86 {
      SnowAndShowersAgree(code);
    } else {
      ThunderstormsAgree(code);
    }
  }
}
