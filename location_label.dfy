/**
 * `[admin1, country].filter(Boolean).join(', ')`, the region line of
 * src/components/LocationCard.tsx and src/components/WeatherHeader.tsx.
 */
module LocationLabel {
  import opened Wrappers
  import opened Text

  /** `filter(Boolean)` on optional strings: drops `undefined`, `null` and `""`. */
  function KeepTruthy(parts: seq<Option<string>>): (r: seq<string>)
    ensures |r| <= |parts|
    ensures forall i :: 0 <= i < |r| ==> r[i] != ""
    ensures forall s :: s in r <==> Some(s) in parts && s != ""
  {
    if parts == [] then []
    else if Truthy(parts[0]) then [parts[0].value] + KeepTruthy(parts[1..])
    else KeepTruthy(parts[1..])
  }

  function Label(admin1: Option<string>, country: Option<string>): (r: string)
  {
    Join(KeepTruthy([admin1, country]), ", ")
  }

  /** The four cases of the label; the separator appears only between two present parts. */
  lemma {:induction false} LabelCases(admin1: Option<string>, country: Option<string>)
    ensures Truthy(admin1) && Truthy(country) ==> Label(admin1, country) == admin1.value + ", " + country.value
    ensures Truthy(admin1) && !Truthy(country) ==> Label(admin1, country) == admin1.value
    ensures !Truthy(admin1) && Truthy(country) ==> Label(admin1, country) == country.value
    ensures !Truthy(admin1) && !Truthy(country) ==> Label(admin1, country) == ""
  {
    var parts := [admin1, country];
    assert parts[1..] == [country];
    assert [country][1..] == [];
    assert KeepTruthy([country]) == if Truthy(country) then [country.value] else [];
  }

  /** The label is empty exactly when neither part is a non-empty string. */
  lemma LabelEmptyIff(admin1: Option<string>, country: Option<string>)
    ensures Label(admin1, country) == "" <==> !Truthy(admin1) && !Truthy(country)
  {
    LabelCases(admin1, country);
  }

  /** Its length counts both parts and, when both are present, the two separator characters. */
  lemma LabelLength(admin1: Option<string>, country: Option<string>)
    ensures |Label(admin1, country)| ==
      (if Truthy(admin1) then |admin1.value| else 0) + (if Truthy(country) then |country.value| else 0)
      + (if Truthy(admin1) && Truthy(country) then 2 else 0)
  {
    LabelCases(admin1, country);
  }
}
