/**
 * The table of WMO weather interpretation codes and its lookup
 * (src/utils/weatherCodes.ts): each known code has a label, an Ionicons
 * icon name and a background type; every other code gets a fixed default.
 */
module WeatherCodes {

  datatype BackgroundType = Clear | Cloudy | Rain | Snow

  datatype WeatherInfo = WeatherInfo(labelText: string, icon: string, backgroundType: BackgroundType)

  const WeatherCodeMap: map<int, WeatherInfo> := map[
    0 := WeatherInfo("Clear sky", "sunny", Clear),
    1 := WeatherInfo("Mainly clear", "sunny", Clear),
    2 := WeatherInfo("Partly cloudy", "partly-sunny", Cloudy),
    3 := WeatherInfo("Overcast", "cloudy", Cloudy),
    45 := WeatherInfo("Foggy", "cloud", Cloudy),
    48 := WeatherInfo("Depositing rime fog", "cloud", Cloudy),
    51 := WeatherInfo("Light drizzle", "rainy", Rain),
    53 := WeatherInfo("Moderate drizzle", "rainy", Rain),
    55 := WeatherInfo("Dense drizzle", "rainy", Rain),
    56 := WeatherInfo("Light freezing drizzle", "rainy", Rain),
    57 := WeatherInfo("Dense freezing drizzle", "rainy", Rain),
    61 := WeatherInfo("Slight rain", "rainy", Rain),
    63 := WeatherInfo("Moderate rain", "rainy", Rain),
    65 := WeatherInfo("Heavy rain", "rainy", Rain),
    66 := WeatherInfo("Light freezing rain", "rainy", Rain),
    67 := WeatherInfo("Heavy freezing rain", "rainy", Rain),
    71 := WeatherInfo("Slight snow", "snow", Snow),
    73 := WeatherInfo("Moderate snow", "snow", Snow),
    75 := WeatherInfo("Heavy snow", "snow", Snow),
    77 := WeatherInfo("Snow grains", "snow", Snow),
    80 := WeatherInfo("Slight rain showers", "rainy", Rain),
    81 := WeatherInfo("Moderate rain showers", "rainy", Rain),
    82 := WeatherInfo("Violent rain showers", "rainy", Rain),
    85 := WeatherInfo("Slight snow showers", "snow", Snow),
    86 := WeatherInfo("Heavy snow showers", "snow", Snow),
    95 := WeatherInfo("Thunderstorm", "thunderstorm", Rain),
    96 := WeatherInfo("Thunderstorm with slight hail", "thunderstorm", Rain),
    99 := WeatherInfo("Thunderstorm with heavy hail", "thunderstorm", Rain)
  ]

  /** The codes the table knows, in ascending order. */
  const KnownCodes: seq<int> :=
    [0, 1, 2, 3, 45, 48, 51, 53, 55, 56, 57, 61, 63, 65, 66, 67,
     71, 73, 75, 77, 80, 81, 82, 85, 86, 95, 96, 99]

  const UnknownInfo := WeatherInfo("Unknown", "help-circle", Clear)

  /** `getWeatherInfo(code)`: the table entry, or the default for a code the table lacks. */
  function GetWeatherInfo(code: int): (r: WeatherInfo)
    ensures code in WeatherCodeMap ==> r == WeatherCodeMap[code]
    ensures code !in WeatherCodeMap ==> r.labelText == "Unknown" && r.icon == "help-circle" && r.backgroundType == Clear
  {
    if code in WeatherCodeMap then WeatherCodeMap[code] else UnknownInfo
  }

  /** A looked-up entry is the default exactly for codes outside the table. */
  lemma UnknownExactlyOutsideTable(code: int)
    ensures GetWeatherInfo(code).labelText == "Unknown" <==> code !in WeatherCodeMap
  {
    if code in WeatherCodeMap {
      assert WeatherCodeMap[code].labelText != "Unknown";
    }
  }

  /** The table has exactly the 28 listed keys. */
  lemma {:induction false} TableKeys()
    ensures WeatherCodeMap.Keys == set c | c in KnownCodes
    ensures |WeatherCodeMap| == |KnownCodes| == 28
  {
    var keys := set c | c in KnownCodes;
    assert WeatherCodeMap.Keys == keys;
    DistinctCardinality(KnownCodes);
  }

  /** A strictly increasing sequence has as many distinct elements as entries. */
  lemma {:induction false} DistinctCardinality(s: seq<int>)
    requires forall i, j :: 0 <= i < j < |s| ==> s[i] < s[j]
    ensures |set c | c in s| == |s|
  {
    if s != [] {
      var rest := s[1..];
      DistinctCardinality(rest);
      assert (set c | c in s) == {s[0]} + (set c | c in rest);
      assert s[0] !in (set c | c in rest);
    }
  }

  /** Within the table, the icon is 'snow' exactly when the background is snow. */
  lemma SnowIconIffSnowBackground(code: int)
    requires code in WeatherCodeMap
    ensures WeatherCodeMap[code].icon == "snow" <==> WeatherCodeMap[code].backgroundType == Snow
    ensures WeatherCodeMap[code].backgroundType == Snow <==> code in {71, 73, 75, 77, 85, 86}
  {
  }

  /** Thunderstorm codes show a thunderstorm icon over a rain background. */
  lemma ThunderstormOnRain(code: int)
    requires code in {95, 96, 99}
    ensures GetWeatherInfo(code).icon == "thunderstorm" && GetWeatherInfo(code).backgroundType == Rain
  {
  }

  /** Codes 0 and 1 are clear; 2, 3, 45 and 48 are cloudy. */
  lemma ClearAndCloudyCodes(code: int)
    ensures code in {0, 1} ==> GetWeatherInfo(code).backgroundType == Clear
    ensures code in {2, 3, 45, 48} ==> GetWeatherInfo(code).backgroundType == Cloudy
  {
  }
}
