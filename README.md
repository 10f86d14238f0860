# Weather application core, modelled in Dafny

This project models the logic of a React Native weather application.

- **Saved-locations store.** `src/db/sqlite.ts` holds at most five places, with no two of the same name. On the web they live in an in-memory array. On native platforms they live in the SQLite table `saved_locations`, whose `id` column is `AUTOINCREMENT` and whose `name` column is `UNIQUE`.
  - Module `SavedLocations` first states the store's rules on plain sequences: the capacity check, then the duplicate-name check, then the append; removal by id; the `ORDER BY created_at DESC` listing.
  - The class `SavedLocationStore` then follows `initDatabase`, `getSavedLocations`, `addSavedLocation`, `removeSavedLocation` and `getSavedLocationsCount` step by step over explicit state. Each method is proved to produce exactly what those rules say, and to keep the store's invariant.
- **Weather-code table.** `src/utils/weatherCodes.ts` gives each of 28 WMO codes a label, an icon and a background type; every other code gets a fixed default (module `WeatherCodes`).
- **Picture classifier.** `getWeatherImage` in `src/components/AnimatedWeatherIcon.tsx` picks the weather picture by code ranges (module `AnimatedWeatherIcon`). It is proved to agree with the table's background types.
- **Display logic.** Module `TwelveHourClock` holds the 12-hour clock arithmetic shared by both time formatters. The other modules cover:
  - `HourlyForecast`: the slice and zip of the hourly series, and its "H AM/PM" labels;
  - `WeatherDetails`: the "H:MM AM/PM" sunrise/sunset text, and which detail items appear;
  - `LocationLabel`: the `[admin1, country].filter(Boolean).join(', ')` region line;
  - `LocationCard` and `WeatherHeader`: what each component renders.

`Text` models the JavaScript built-ins these use:
- `toString` on natural numbers;
- `padStart`;
- `join`;
- the binary order SQLite uses to compare TEXT values.

`Wrappers` defines `Option` and `Result`.

How the model represents the source:
- **Optional values.** JavaScript's `undefined` and `null` are `None`.
- **Thrown exceptions.** The store's thrown errors are `Failure` values:
  - `DatabaseNotInitialized` is the `if (!db)` guards;
  - `OpenFailed` is a failure to open the database file.
- **Outside inputs.** These become parameters:
  - whether opening the database succeeds;
  - the `Date.now()` value used as a web id;
  - the ISO timestamp used as `created_at`;
  - the hour and minute of a timestamp.

The web branch returns the array in insertion order (src/db/sqlite.ts:57-58); only the native query sorts by `created_at DESC` (src/db/sqlite.ts:67). The model keeps that difference: `GetSavedLocations` returns `rows` unchanged on the web.

## Model

| member | source | states |
|---|---|---|
| Text.NatToDecimal | src/components/WeatherDetails.tsx:27 | the numeral of a number is non-empty and all digits; it is one digit exactly below 10 and has no leading zero |
| Text.DecimalRoundTrip | src/components/HourlyForecast.tsx:31 | reading a rendered numeral back gives the number |
| Text.NatToDecimalInjective | src/components/HourlyForecast.tsx:31 | distinct numbers get distinct numerals |
| Text.PadStart | src/components/WeatherDetails.tsx:27 | the padded text has the target width (or more), ends with the original text and is filled in front with the fill character |
| Text.Join | src/components/LocationCard.tsx:37 | joining a single part gives that part |
| Text.LexLe | src/db/sqlite.ts:67 | the BINARY order SQLite uses to compare `created_at` texts, no ensures of its own; `LexLeTotal`, `LexLeTransitive` and `LexLeAntisymmetric` state that it is a total order |
| Text.LexLeTotal | src/db/sqlite.ts:67 | any two `created_at` texts are comparable |
| Text.LexLeTransitive | src/db/sqlite.ts:67 | the order of `created_at` texts is transitive |
| Text.LexLeAntisymmetric | src/db/sqlite.ts:67 | texts ordered both ways are equal |
| WeatherCodes.WeatherCodeMap | src/utils/weatherCodes.ts:10-39 | the table itself, no ensures of its own; `TableKeys`, `SnowIconIffSnowBackground`, `ThunderstormOnRain` and `ClearAndCloudyCodes` state its contents |
| WeatherCodes.GetWeatherInfo | src/utils/weatherCodes.ts:44-50 | a code in the table gets its entry; any other code gets "Unknown", "help-circle", clear |
| WeatherCodes.UnknownExactlyOutsideTable | src/utils/weatherCodes.ts:44-50 | the label is "Unknown" exactly for codes the table lacks |
| WeatherCodes.TableKeys | src/utils/weatherCodes.ts:10-39 | the table's keys are exactly the 28 listed codes |
| WeatherCodes.SnowIconIffSnowBackground | src/utils/weatherCodes.ts:10-39 | within the table the snow icon goes with the snow background, exactly for codes 71, 73, 75, 77, 85, 86 |
| WeatherCodes.ThunderstormOnRain | src/utils/weatherCodes.ts:36-38 | codes 95, 96, 99 show a thunderstorm icon on a rain background |
| WeatherCodes.ClearAndCloudyCodes | src/utils/weatherCodes.ts:11-16 | codes 0 and 1 are clear; 2, 3, 45 and 48 are cloudy |
| AnimatedWeatherIcon.GetWeatherImage | src/components/AnimatedWeatherIcon.tsx:17-48 | `getWeatherImage`, no ensures of its own; `ImageRanges`, `LowCodesSunny` and `ImageAgreesWithBackground` state its meaning |
| AnimatedWeatherIcon.ImageRanges | src/components/AnimatedWeatherIcon.tsx:14-49 | for each picture, exactly the codes that get it; sunny is the fallback for every code outside the listed ranges |
| AnimatedWeatherIcon.LowCodesSunny | src/components/AnimatedWeatherIcon.tsx:17-20 | every code up to 1, negative ones included, is sunny |
| AnimatedWeatherIcon.RainyBeyondTable | src/components/AnimatedWeatherIcon.tsx:32-35 | 52 and 60 show the rainy picture although the table labels them "Unknown" |
| AnimatedWeatherIcon.ImageAgreesWithBackground | src/components/AnimatedWeatherIcon.tsx:14-49 | for every table code, a clear background gives sunny, cloudy gives partly cloudy or cloudy, rain gives rainy or thunderstorm, snow gives snowy; the storm picture appears exactly for the storm icon |
| TwelveHourClock.DisplayHour | src/components/HourlyForecast.tsx:30 | the dial hour is between 1 and 12 |
| TwelveHourClock.Meridiem | src/components/HourlyForecast.tsx:29 | the half-of-day text has two characters |
| TwelveHourClock.DisplayHourMeaning | src/components/HourlyForecast.tsx:29-30 | the dial hour agrees with the hour modulo 12; "AM" exactly before noon |
| TwelveHourClock.DialDeterminesHour | src/components/HourlyForecast.tsx:29-30 | the dial hour and the half of the day together determine the hour |
| HourlyForecast.At | src/components/HourlyForecast.tsx:22-23 | an index past the end of an array reads `undefined` |
| HourlyForecast.SliceEnd | src/components/HourlyForecast.tsx:20 | the slice end clamps to the length and counts a negative end from the back |
| HourlyForecast.HourlyData | src/components/HourlyForecast.tsx:20-24 | the series is as long as the slice of the times |
| HourlyForecast.HourlyDataIsZippedPrefix | src/components/HourlyForecast.tsx:20-24 | the series keeps the first `maxHours` times in order, each paired with the same index of the temperatures and codes, `undefined` past their ends |
| HourlyForecast.DefaultKeepsOneDay | src/components/HourlyForecast.tsx:18-20 | with the default of 24 the series has min(24, number of times) entries |
| HourlyForecast.HourIcon | src/components/HourlyForecast.tsx:43 | an hour takes its code's icon; a missing code gives "help-circle" |
| HourlyForecast.FormatHour | src/components/HourlyForecast.tsx:26-32 | `formatTime` of the hourly list, no ensures of its own; `FormatHourParts`, `FormatHourInjective` and `FormatHourExamples` state its meaning |
| HourlyForecast.FormatHourParts | src/components/HourlyForecast.tsx:26-32 | the label is the dial-hour numeral (value 1 to 12), one space, then "AM" exactly before noon and "PM" from noon |
| HourlyForecast.FormatHourInjective | src/components/HourlyForecast.tsx:26-32 | different hours of the day get different labels |
| HourlyForecast.FormatHourExamples | src/components/HourlyForecast.tsx:26-32 | 0, 12, 9 and 23 read "12 AM", "12 PM", "9 AM", "11 PM" |
| WeatherDetails.TwoDigitMinutes | src/components/WeatherDetails.tsx:27 | the minute is written with exactly two digits |
| WeatherDetails.TwoDigitMinutesValue | src/components/WeatherDetails.tsx:27 | the two digits read back as the minute, with a leading zero exactly below ten |
| WeatherDetails.FormatTime | src/components/WeatherDetails.tsx:21-28 | `formatTime` of the details panel, no ensures of its own; `FormatTimeParts`, `FormatTimeInjective` and the four example lemmas state its meaning |
| WeatherDetails.FormatTimeParts | src/components/WeatherDetails.tsx:21-28 | the text is the dial hour, ':', two minute digits, a space and "AM"/"PM" by the half of the day, 7 or 8 characters long |
| WeatherDetails.TimeFieldsInjective | src/components/WeatherDetails.tsx:27 | two equal "H:MM XM" texts have the same hour, minute and half-of-day fields |
| WeatherDetails.FormatTimeInjective | src/components/WeatherDetails.tsx:21-28 | different times of day get different texts |
| WeatherDetails.MidnightExample | src/components/WeatherDetails.tsx:21-28 | 00:00 reads "12:00 AM" |
| WeatherDetails.EarlyMorningExample | src/components/WeatherDetails.tsx:21-28 | 06:05 reads "6:05 AM" |
| WeatherDetails.NoonExample | src/components/WeatherDetails.tsx:21-28 | 12:30 reads "12:30 PM" |
| WeatherDetails.EveningExample | src/components/WeatherDetails.tsx:21-28 | 19:45 reads "7:45 PM" |
| WeatherDetails.ShownDetails | src/components/WeatherDetails.tsx:34-68 | the detail items rendered, in order, no ensures of its own; `ShownDetailsMeaning` and `ShownDetailsEdgeCases` state its meaning |
| WeatherDetails.ShownDetailsMeaning | src/components/WeatherDetails.tsx:34-68 | humidity and wind always come first; precipitation appears exactly when defined, sunrise and sunset exactly when non-empty; each appears at most once |
| WeatherDetails.ShownDetailsEdgeCases | src/components/WeatherDetails.tsx:46-54 | a 0 % probability is shown; an empty sunrise text is not |
| LocationLabel.KeepTruthy | src/components/LocationCard.tsx:37 | the kept parts are exactly the present, non-empty ones |
| LocationLabel.Label | src/components/LocationCard.tsx:37 | `[admin1, country].filter(Boolean).join(', ')`, no ensures of its own; `LabelCases`, `LabelEmptyIff` and `LabelLength` state its meaning |
| LocationLabel.LabelCases | src/components/LocationCard.tsx:37 | region and country joined by ", " when both are present, either alone otherwise, empty when neither is |
| LocationLabel.LabelEmptyIff | src/components/WeatherHeader.tsx:29-31 | the line is empty exactly when both parts are absent or empty |
| LocationLabel.LabelLength | src/components/LocationCard.tsx:37 | the line's length counts both parts and the separator when both are present |
| LocationCard.Render | src/components/LocationCard.tsx:26-64 | what the card renders, no ensures of its own; `RenderMeaning` states its meaning |
| LocationCard.RenderMeaning | src/components/LocationCard.tsx:26-64 | the card shows the name and the region line (both parts joined by ", ", either alone, or empty); it shows an icon and a temperature only when both a code and a temperature are given; it shows a remove control exactly when a handler is given |
| WeatherHeader.Render | src/components/WeatherHeader.tsx:24-40 | what the header renders, no ensures of its own; `LocationLineShownIffNonEmpty` and `ConditionFromTable` state its meaning |
| WeatherHeader.LocationLineShownIffNonEmpty | src/components/WeatherHeader.tsx:29-33 | the region line is rendered exactly when it is non-empty |
| WeatherHeader.ConditionFromTable | src/components/WeatherHeader.tsx:24-40 | the condition text and icon are the table's for a known code, "Unknown" and "help-circle" otherwise |
| SavedLocations.MaximumMessageText | src/db/sqlite.ts:92 | the capacity message names the limit 5 |
| SavedLocations.FindByName | src/db/sqlite.ts:97 | the result is the first record with exactly that name, and it exists exactly when some record has the name |
| SavedLocations.ResultOf | src/db/sqlite.ts:89-115 | an add reports success exactly when it was accepted |
| SavedLocations.AddOutcomeOf | src/db/sqlite.ts:87-103 | the capacity-then-duplicate decision, no ensures of its own; `AddOutcomeMeaning` and `ResultOf` state its meaning |
| SavedLocations.AddOutcomeMeaning | src/db/sqlite.ts:86-103 | an add is accepted exactly when there is room and the name is new; a full store reports the limit even for a duplicate name |
| SavedLocations.NormalizeAdmin1 | src/db/sqlite.ts:112 | an absent or empty region is stored as null; any other is kept |
| SavedLocations.NewRecord | src/db/sqlite.ts:106-114 | the stored record carries the given fields, id and timestamp; the region is kept as given when non-empty and stored as null otherwise |
| SavedLocations.AfterAdd | src/db/sqlite.ts:105-115 | the records after an add, no ensures of its own; `AddKeepsInvariant`, `AddNewName` and `AddsOfNewNamesAppend` state its meaning |
| SavedLocations.AddKeepsInvariant | src/db/sqlite.ts:86-115 | an add keeps at most five records with distinct names |
| SavedLocations.AddNewName | src/db/sqlite.ts:105-115 | a new name with room to spare is appended at the end |
| SavedLocations.AddsOfNewNamesAppend | src/db/sqlite.ts:86-115 | adds of fresh distinct names, while there is room, append each in turn |
| SavedLocations.WithoutId | src/db/sqlite.ts:145 | the records kept are exactly those with another id |
| SavedLocations.WithoutIdAppend | src/db/sqlite.ts:145 | filtering splits over concatenation, so the kept records stay in order |
| SavedLocations.WithoutAbsentId | src/db/sqlite.ts:145 | removing an id no record has changes nothing |
| SavedLocations.WithoutPresentIdShrinks | src/db/sqlite.ts:145 | removing an id some record has shortens the list |
| SavedLocations.WithoutIdKeepsDistinctNames | src/db/sqlite.ts:145 | removal keeps names distinct |
| SavedLocations.WithoutIdKeepsIdsIncreasing | src/db/sqlite.ts:154 | removal keeps the table's ids increasing |
| SavedLocations.RemoveKeepsInvariant | src/db/sqlite.ts:143-159 | removal keeps at most five records with distinct names |
| SavedLocations.RemoveThenAddAgain | src/db/sqlite.ts:143-159 | after removing a name's record, adding that name again is accepted |
| SavedLocations.RemoveMakesRoom | src/db/sqlite.ts:143-159 | removing a stored record makes room, so a name the store lacks is then accepted |
| SavedLocations.RunKeepsInvariant | src/db/sqlite.ts:79-159 | no sequence of adds and removes breaks the five-record bound or the distinct names |
| SavedLocations.FromEmptyStaysBounded | src/db/sqlite.ts:15-20 | from the empty store, any sequence of adds and removes leaves at most five records with distinct names |
| SavedLocations.CapacityScenario | src/db/sqlite.ts:89-94 | five distinct adds are stored; a sixth name is refused for the limit; after removing one record it is accepted |
| SavedLocations.DuplicateScenario | src/db/sqlite.ts:97-103 | adding "Paris" beside a stored "Paris" is refused with "This location is already saved." |
| SavedLocations.InsertNewestFirst | src/db/sqlite.ts:67 | insertion adds exactly the one record |
| SavedLocations.InsertNewestFirstSorted | src/db/sqlite.ts:67 | inserting into a newest-first list gives a newest-first list |
| SavedLocations.SortNewestFirst | src/db/sqlite.ts:67 | the listing is a permutation of the rows |
| SavedLocations.SortNewestFirstSorted | src/db/sqlite.ts:67 | the listing is ordered by `created_at`, newest first |
| SavedLocations.NewestFirstUnique | src/db/sqlite.ts:67 | with no two records sharing a `created_at`, any two newest-first orders of the same records are equal |
| SavedLocations.ListingDeterminedWithoutTies | src/db/sqlite.ts:66-69 | with no equal timestamps, every newest-first permutation of the rows is the listing the model returns |
| SavedLocations.HasNameOrderFree | src/db/sqlite.ts:87-97 | whether a name is present does not depend on the order of the listing |
| SavedLocations.SavedLocationStore.constructor | src/db/sqlite.ts:18-20 | the store starts empty, with no database handle |
| SavedLocations.SavedLocationStore.InitDatabase | src/db/sqlite.ts:25-51 | the web does nothing; native sets the handle when opening succeeds and reports the failure otherwise; rows are kept |
| SavedLocations.SavedLocationStore.GetSavedLocations | src/db/sqlite.ts:56-74 | web returns the array as stored; native without a handle fails; native otherwise returns the rows, permuted, newest first |
| SavedLocations.SavedLocationStore.GetSavedLocationsCount | src/db/sqlite.ts:164-167 | the count is the number of stored records, and fails exactly when the listing fails |
| SavedLocations.SavedLocationStore.InsertRow | src/db/sqlite.ts:123-134 | the INSERT appends a row with the next AUTOINCREMENT id, unless the UNIQUE name constraint refuses it |
| SavedLocations.SavedLocationStore.AddSavedLocation | src/db/sqlite.ts:79-138 | the result and the new rows are those of the capacity-then-duplicate rule, with the web id or the next AUTOINCREMENT id; the invariant is kept |
| SavedLocations.SavedLocationStore.RemoveSavedLocation | src/db/sqlite.ts:143-159 | every record with the id is dropped, and an unknown id is no error; native without a handle fails; the invariant is kept |

## Left out

- **Concurrency.** The functions are `async`, and concurrent calls (two adds racing past the capacity check) are not modelled. Each call runs to completion before the next.
- **Failures of the database calls.** The model leaves out failures of `execAsync`, `getAllAsync` and `runAsync` other than the UNIQUE constraint; their rethrowing is I/O. Console logging is left out.
- **The second database check.** The `if (!db)` check at src/db/sqlite.ts:118-120 is not modelled, because it cannot fire: on native platforms `getSavedLocations` has already thrown for a missing handle.
- **Persistence.** The SQLite file keeps rows across restarts; the model starts each store empty. `InitDatabase` keeps whatever rows the store already has.
- **Aliasing.** On the web `getSavedLocations` returns the storage array itself, aliased, so a caller could mutate it; the model returns a value.
- **Ties in the listing.** SQLite leaves the order of equal `created_at` values open; `SortNewestFirst` picks one order. `ListingDeterminedWithoutTies` shows that this choice matters only when two records share a timestamp.
- **Dates and clocks.** The model takes as parameters the parsing of ISO timestamps into local hours and minutes, the time zone, and `Date.now()` / `new Date().toISOString()`. An invalid date (NaN hours) is not modelled; the formatters require an hour in 0..23 and a minute in 0..59.
- **Rounding.** `Math.round` of temperatures and wind speed is left out: those values are displayed, never decided on. Temperatures are passed through unrounded.
- **Weather codes.** The model takes integer codes only; a fractional code (which the table never holds) is not modelled.
- **Layout.** Styles, images and layout are left out; the model keeps only what is shown and under which condition.
- **Other source files.** src/api/openMeteo.ts, src/components/AnimatedBackground.tsx and the screens under app/ are not part of this model. The screens' check that a place is already saved (coordinates within 0.001) is screen logic, not store logic.
- TwelveHourClock.Meridiem: its ensures states only the length; which half is meant is stated by TwelveHourClock.DisplayHourMeaning and the formatter lemmas.
- Text.Join: its ensures covers a single part only; the label cases the source uses are proved in LocationLabel.LabelCases.
