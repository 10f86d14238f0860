/**
 * The saved-locations store of src/db/sqlite.ts: a list of at most five
 * places, without two of the same name, kept either in an in-memory array
 * (the web platform) or in the SQLite table `saved_locations` (native
 * platforms). The first half states the store's rules on plain sequences;
 * the class at the end follows the source's functions step by step and is
 * proved to follow those rules.
 */
module SavedLocations {
  import opened Wrappers
  import opened Text

  const MaxSavedLocations: nat := 5

  /** A row of `saved_locations`. Coordinates are stored and never computed on. */
  datatype SavedLocation = SavedLocation(
    id: int,
    name: string,
    latitude: real,
    longitude: real,
    country: string,
    admin1: Option<string>,
    createdAt: string)

  /** The `{ success, message }` object `addSavedLocation` resolves to. */
  datatype AddResult = AddResult(success: bool, message: string)

  /** What the store throws: a missing database handle, or a failure to open the database file. */
  datatype StoreError = DatabaseNotInitialized | OpenFailed

  datatype Platform = Web | Native

  const MaximumMessage: string :=
    "Maximum of " + NatToDecimal(MaxSavedLocations) + " locations reached. Please remove one first."
  const DuplicateMessage: string := "This location is already saved."
  const SavedMessage: string := "Location saved successfully!"

  /** The capacity message names the limit as the numeral 5. */
  lemma MaximumMessageText()
    ensures MaximumMessage == "Maximum of " + "5" + " locations reached. Please remove one first."
  {
    assert DigitChar(5) == '5';
    assert NatToDecimal(MaxSavedLocations) == "5";
  }

  // ---------------------------------------------------------------------
  // The rules on sequences of records
  // ---------------------------------------------------------------------

  predicate HasName(locations: seq<SavedLocation>, name: string) {
    exists i :: 0 <= i < |locations| && locations[i].name == name
  }

  predicate DistinctNames(locations: seq<SavedLocation>) {
    forall i, j :: 0 <= i < j < |locations| ==> locations[i].name != locations[j].name
  }

  /** What the store keeps true: at most five records, no two with the same name. */
  predicate StoreInvariant(locations: seq<SavedLocation>) {
    |locations| <= MaxSavedLocations && DistinctNames(locations)
  }

  /** `locations.find(loc => loc.name === name)`: the first record with that exact name. */
  function FindByName(locations: seq<SavedLocation>, name: string): (r: Option<SavedLocation>)
    ensures r.Some? <==> HasName(locations, name)
    ensures r.Some? ==> r.value in locations && r.value.name == name
    ensures r.Some? ==> exists i :: 0 <= i < |locations| && locations[i] == r.value
                                    && forall j :: 0 <= j < i ==> locations[j].name != name
  {
    if locations == [] then None
    else if locations[0].name == name then Some(locations[0])
    else
      var r := FindByName(locations[1..], name);
      assert r.Some? ==> exists i :: 0 <= i < |locations| && locations[i] == r.value
                                     && forall j :: 0 <= j < i ==> locations[j].name != name by {
        if r.Some? {
          var k :| 0 <= k < |locations| - 1 && locations[1..][k] == r.value
                   && forall j :: 0 <= j < k ==> locations[1..][j].name != name;
          assert locations[k + 1] == r.value;
          assert forall j :: 0 <= j < k + 1 ==> locations[j].name != name by {
            forall j | 0 <= j < k + 1 ensures locations[j].name != name {
              if j > 0 { assert locations[j] == locations[1..][j - 1]; }
            }
          }
        }
      }
      assert HasName(locations[1..], name) ==> HasName(locations, name) by {
        if HasName(locations[1..], name) {
          var k :| 0 <= k < |locations| - 1 && locations[1..][k].name == name;
          assert locations[k + 1].name == name;
        }
      }
      assert HasName(locations, name) ==> HasName(locations[1..], name) by {
        if HasName(locations, name) {
          var k :| 0 <= k < |locations| && locations[k].name == name;
          assert locations[1..][k - 1].name == name;
        }
      }
      r
  }

  /** The three ways `addSavedLocation` can end when the database is usable. */
  datatype AddOutcome = Saved | MaximumReached | AlreadySaved

  /** Capacity is checked first, then an exact name match. */
  function AddOutcomeOf(locations: seq<SavedLocation>, name: string): AddOutcome {
    if |locations| >= MaxSavedLocations then MaximumReached
    else if FindByName(locations, name).Some? then AlreadySaved
    else Saved
  }

  /** The value `addSavedLocation` resolves to for each outcome. */
  function ResultOf(outcome: AddOutcome): (r: AddResult)
    ensures r.success <==> outcome == Saved
  {
    match outcome
    case Saved => AddResult(true, SavedMessage)
    case MaximumReached => AddResult(false, MaximumMessage)
    case AlreadySaved => AddResult(false, DuplicateMessage)
  }

  /** An add is accepted exactly when there is room and the name is new; a full store reports the limit even for a duplicate. */
  lemma AddOutcomeMeaning(locations: seq<SavedLocation>, name: string)
    ensures AddOutcomeOf(locations, name) == Saved <==> |locations| < MaxSavedLocations && !HasName(locations, name)
    ensures AddOutcomeOf(locations, name) == MaximumReached <==> |locations| >= MaxSavedLocations
    ensures AddOutcomeOf(locations, name) == AlreadySaved <==> |locations| < MaxSavedLocations && HasName(locations, name)
  {
  }

  /** `admin1 || null`: an absent or empty region is stored as null. */
  function NormalizeAdmin1(admin1: Option<string>): (r: Option<string>)
    ensures r == None <==> admin1 == None || admin1 == Some("")
    ensures r.Some? ==> r == admin1
  {
    if Truthy(admin1) then admin1 else None
  }

  /** The record an accepted add stores. */
  function NewRecord(id: int, name: string, latitude: real, longitude: real, country: string,
                     admin1: Option<string>, createdAt: string): (r: SavedLocation)
    ensures r.name == name && r.latitude == latitude && r.longitude == longitude && r.country == country
    ensures r.id == id && r.createdAt == createdAt
    ensures r.admin1 == None <==> !Truthy(admin1)
    ensures Truthy(admin1) ==> r.admin1 == admin1
  {
    SavedLocation(id, name, latitude, longitude, country, NormalizeAdmin1(admin1), createdAt)
  }

  /** The list after an add of `location`: appended at the end when accepted, unchanged otherwise. */
  function AfterAdd(locations: seq<SavedLocation>, location: SavedLocation): seq<SavedLocation> {
    if AddOutcomeOf(locations, location.name) == Saved then locations + [location] else locations
  }

  lemma AddKeepsInvariant(locations: seq<SavedLocation>, location: SavedLocation)
    requires StoreInvariant(locations)
    ensures StoreInvariant(AfterAdd(locations, location))
  {
    if AddOutcomeOf(locations, location.name) == Saved {
      var r := locations + [location];
      forall i, j | 0 <= i < j < |r| ensures r[i].name != r[j].name {
        if j == |locations| {
          assert r[i] == locations[i];
        }
      }
    }
  }

  /** `locations.filter(loc => loc.id !== id)`. */
  function WithoutId(locations: seq<SavedLocation>, id: int): (r: seq<SavedLocation>)
    ensures |r| <= |locations|
    ensures forall x :: x in r <==> x in locations && x.id != id
  {
    if locations == [] then []
    else if locations[0].id != id then [locations[0]] + WithoutId(locations[1..], id)
    else WithoutId(locations[1..], id)
  }

  /** Filtering splits over concatenation, so the kept records stay in their order. */
  lemma {:induction false} WithoutIdAppend(a: seq<SavedLocation>, b: seq<SavedLocation>, id: int)
    ensures WithoutId(a + b, id) == WithoutId(a, id) + WithoutId(b, id)
  {
    if a == [] {
      assert a + b == b;
    } else {
      assert (a + b)[1..] == a[1..] + b;
      WithoutIdAppend(a[1..], b, id);
    }
  }

  /** Removing an id no record has changes nothing. */
  lemma {:induction false} WithoutAbsentId(locations: seq<SavedLocation>, id: int)
    requires forall i :: 0 <= i < |locations| ==> locations[i].id != id
    ensures WithoutId(locations, id) == locations
  {
    if locations != [] {
      WithoutAbsentId(locations[1..], id);
    }
  }

  /** Removing an id some record has makes the list strictly shorter. */
  lemma {:induction false} WithoutPresentIdShrinks(locations: seq<SavedLocation>, id: int)
    requires exists i :: 0 <= i < |locations| && locations[i].id == id
    ensures |WithoutId(locations, id)| < |locations|
  {
    if locations[0].id != id {
      var i :| 0 <= i < |locations| && locations[i].id == id;
      assert locations[1..][i - 1].id == id;
      WithoutPresentIdShrinks(locations[1..], id);
    }
  }

  predicate IdsIncreasing(locations: seq<SavedLocation>) {
    forall i, j :: 0 <= i < j < |locations| ==> locations[i].id < locations[j].id
  }

  /** A list with distinct names: its tail keeps them distinct, and no later record shares the head's name. */
  lemma DistinctNamesSplit(locations: seq<SavedLocation>)
    requires locations != [] && DistinctNames(locations)
    ensures DistinctNames(locations[1..])
    ensures forall y :: y in locations[1..] ==> y.name != locations[0].name
  {
    var rest := locations[1..];
    forall i, j | 0 <= i < j < |rest| ensures rest[i].name != rest[j].name {
      assert rest[i] == locations[i + 1] && rest[j] == locations[j + 1];
    }
    forall y | y in rest ensures y.name != locations[0].name {
      var m :| 0 <= m < |rest| && rest[m] == y;
      assert locations[m + 1] == y;
    }
  }

  /** A record whose name no record of a distinct-named list has can go in front of it. */
  lemma DistinctNamesCons(x: SavedLocation, w: seq<SavedLocation>)
    requires DistinctNames(w) && forall y :: y in w ==> y.name != x.name
    ensures DistinctNames([x] + w)
  {
    var r := [x] + w;
    forall i, j | 0 <= i < j < |r| ensures r[i].name != r[j].name {
      assert r[j] == w[j - 1];
      if i > 0 { assert r[i] == w[i - 1]; }
    }
  }

  /** Filtering keeps distinct names distinct. */
  lemma {:induction false} WithoutIdKeepsDistinctNames(locations: seq<SavedLocation>, id: int)
    requires DistinctNames(locations)
    ensures DistinctNames(WithoutId(locations, id))
  {
    if locations != [] {
      DistinctNamesSplit(locations);
      WithoutIdKeepsDistinctNames(locations[1..], id);
      if locations[0].id != id {
        DistinctNamesCons(locations[0], WithoutId(locations[1..], id));
      }
    }
  }

  /** A list with increasing ids: its tail keeps them increasing, and every later id exceeds the head's. */
  lemma IdsIncreasingSplit(locations: seq<SavedLocation>)
    requires locations != [] && IdsIncreasing(locations)
    ensures IdsIncreasing(locations[1..])
    ensures forall y :: y in locations[1..] ==> locations[0].id < y.id
  {
    var rest := locations[1..];
    forall i, j | 0 <= i < j < |rest| ensures rest[i].id < rest[j].id {
      assert rest[i] == locations[i + 1] && rest[j] == locations[j + 1];
    }
    forall y | y in rest ensures locations[0].id < y.id {
      var m :| 0 <= m < |rest| && rest[m] == y;
      assert locations[m + 1] == y;
    }
  }

  /** A record with an id below every id of an increasing list can go in front of it. */
  lemma IdsIncreasingCons(x: SavedLocation, w: seq<SavedLocation>)
    requires IdsIncreasing(w) && forall y :: y in w ==> x.id < y.id
    ensures IdsIncreasing([x] + w)
  {
    var r := [x] + w;
    forall i, j | 0 <= i < j < |r| ensures r[i].id < r[j].id {
      assert r[j] == w[j - 1];
      if i > 0 { assert r[i] == w[i - 1]; }
    }
  }

  /** Filtering keeps increasing ids increasing. */
  lemma {:induction false} WithoutIdKeepsIdsIncreasing(locations: seq<SavedLocation>, id: int)
    requires IdsIncreasing(locations)
    ensures IdsIncreasing(WithoutId(locations, id))
  {
    if locations != [] {
      IdsIncreasingSplit(locations);
      WithoutIdKeepsIdsIncreasing(locations[1..], id);
      if locations[0].id != id {
        IdsIncreasingCons(locations[0], WithoutId(locations[1..], id));
      }
    }
  }

  lemma RemoveKeepsInvariant(locations: seq<SavedLocation>, id: int)
    requires StoreInvariant(locations)
    ensures StoreInvariant(WithoutId(locations, id))
  {
    WithoutIdKeepsDistinctNames(locations, id);
  }

  /** Removing the record of a name frees both its slot and its name, so adding the name again is accepted. */
  lemma {:induction false} RemoveThenAddAgain(locations: seq<SavedLocation>, id: int, name: string)
    requires StoreInvariant(locations)
    requires exists i :: 0 <= i < |locations| && locations[i].name == name && locations[i].id == id
    ensures AddOutcomeOf(WithoutId(locations, id), name) == Saved
  {
    var i :| 0 <= i < |locations| && locations[i].name == name && locations[i].id == id;
    WithoutPresentIdShrinks(locations, id);
    var w := WithoutId(locations, id);
    forall k | 0 <= k < |w| ensures w[k].name != name {
      assert w[k] in locations && w[k].id != id;
      var m :| 0 <= m < |locations| && locations[m] == w[k];
      assert m != i;
    }
  }

  /** One user action on the store. */
  datatype Op = AddOp(location: SavedLocation) | RemoveOp(id: int)

  function Apply(locations: seq<SavedLocation>, op: Op): seq<SavedLocation> {
    match op
    case AddOp(location) => AfterAdd(locations, location)
    case RemoveOp(id) => WithoutId(locations, id)
  }

  function Run(locations: seq<SavedLocation>, ops: seq<Op>): seq<SavedLocation>
    decreases |ops|
  {
    if ops == [] then locations else Run(Apply(locations, ops[0]), ops[1..])
  }

  /** No sequence of adds and removes, from the empty store or any valid one, breaks the bound or the distinct names. */
  lemma {:induction false} RunKeepsInvariant(locations: seq<SavedLocation>, ops: seq<Op>)
    requires StoreInvariant(locations)
    ensures StoreInvariant(Run(locations, ops))
    decreases |ops|
  {
    if ops != [] {
      match ops[0] {
        case AddOp(location) => AddKeepsInvariant(locations, location);
        case RemoveOp(id) => RemoveKeepsInvariant(locations, id);
      }
      RunKeepsInvariant(Apply(locations, ops[0]), ops[1..]);
    }
  }

  lemma FromEmptyStaysBounded(ops: seq<Op>)
    ensures |Run([], ops)| <= MaxSavedLocations && DistinctNames(Run([], ops))
  {
    RunKeepsInvariant([], ops);
  }

  /** A new name with room to spare is appended. */
  lemma AddNewName(locations: seq<SavedLocation>, location: SavedLocation)
    requires |locations| < MaxSavedLocations
    requires forall i :: 0 <= i < |locations| ==> locations[i].name != location.name
    ensures AfterAdd(locations, location) == locations + [location]
  {
  }

  /** One add per record, in order. */
  function AddOps(records: seq<SavedLocation>): (ops: seq<Op>)
    ensures |ops| == |records| && forall i :: 0 <= i < |records| ==> ops[i] == AddOp(records[i])
  {
    seq(|records|, i requires 0 <= i < |records| => AddOp(records[i]))
  }

  /** Adding records with fresh, distinct names while there is room appends each of them in turn. */
  lemma {:induction false} AddsOfNewNamesAppend(saved: seq<SavedLocation>, records: seq<SavedLocation>)
    requires |saved| + |records| <= MaxSavedLocations
    requires DistinctNames(saved + records)
    ensures Run(saved, AddOps(records)) == saved + records
    decreases |records|
  {
    var all := saved + records;
    if records == [] {
      assert all == saved;
    } else {
      var x := records[0];
      forall i | 0 <= i < |saved| ensures saved[i].name != x.name {
        assert all[i] == saved[i] && all[|saved|] == x;
      }
      AddNewName(saved, x);
      assert AddOps(records)[1..] == AddOps(records[1..]);
      assert (saved + [x]) + records[1..] == all;
      AddsOfNewNamesAppend(saved + [x], records[1..]);
    }
  }

  /** Removing a record that is there frees a slot, so a name the store lacks is then accepted. */
  lemma RemoveMakesRoom(locations: seq<SavedLocation>, id: int, name: string)
    requires |locations| <= MaxSavedLocations && !HasName(locations, name)
    requires exists i :: 0 <= i < |locations| && locations[i].id == id
    ensures AddOutcomeOf(WithoutId(locations, id), name) == Saved
  {
    WithoutPresentIdShrinks(locations, id);
    var w := WithoutId(locations, id);
    forall k | 0 <= k < |w| ensures w[k].name != name {
      assert w[k] in locations;
      var m :| 0 <= m < |locations| && locations[m] == w[k];
    }
  }

  /**
   * Five adds of distinct names are all accepted, a sixth distinct name is
   * refused for capacity, and after removing one of the five the sixth is
   * accepted.
   */
  lemma CapacityScenario(a: SavedLocation, b: SavedLocation, c: SavedLocation,
                         d: SavedLocation, e: SavedLocation, f: SavedLocation)
    requires DistinctNames([a, b, c, d, e, f])
    ensures Run([], AddOps([a, b, c, d, e])) == [a, b, c, d, e]
    ensures AddOutcomeOf([a, b, c, d, e], f.name) == MaximumReached
    ensures AddOutcomeOf(WithoutId([a, b, c, d, e], c.id), f.name) == Saved
  {
    var six, five := [a, b, c, d, e, f], [a, b, c, d, e];
    assert DistinctNames([] + five) by {
      forall i, j | 0 <= i < j < 5 ensures five[i].name != five[j].name {
        assert five[i] == six[i] && five[j] == six[j];
      }
    }
    AddsOfNewNamesAppend([], five);
    assert !HasName(five, f.name) by {
      forall i | 0 <= i < 5 ensures five[i].name != f.name {
        assert five[i] == six[i] && six[5] == f;
      }
    }
    assert five[2] == c;
    RemoveMakesRoom(five, c.id, f.name);
  }

  /** A second add of the name "Paris" is refused as already saved, whatever its coordinates. */
  lemma DuplicateScenario()
    ensures var paris := NewRecord(1, "Paris", 48.8566, 2.3522, "France", None, "2025-01-01T00:00:00.000Z");
      AddOutcomeOf([paris], "Paris") == AlreadySaved
      && ResultOf(AddOutcomeOf([paris], "Paris")) == AddResult(false, "This location is already saved.")
  {
  }

  // ---------------------------------------------------------------------
  // Native listing: ORDER BY created_at DESC
  // ---------------------------------------------------------------------

  /** Newest first: no record is preceded by one with a smaller `created_at` text. */
  predicate NewestFirst(locations: seq<SavedLocation>) {
    forall i, j :: 0 <= i < j < |locations| ==> LexLe(locations[j].createdAt, locations[i].createdAt)
  }

  /** Places `x` before the first record whose `created_at` is not greater. */
  function InsertNewestFirst(x: SavedLocation, locations: seq<SavedLocation>): (r: seq<SavedLocation>)
    ensures multiset(r) == multiset(locations) + multiset{x}
  {
    if locations == [] then [x]
    else if LexLe(locations[0].createdAt, x.createdAt) then [x] + locations
    else
      assert locations == [locations[0]] + locations[1..];
      [locations[0]] + InsertNewestFirst(x, locations[1..])
  }

  /** A newest-first list: its tail stays newest first, and no later record is newer than the head. */
  lemma NewestFirstSplit(locations: seq<SavedLocation>)
    requires locations != [] && NewestFirst(locations)
    ensures NewestFirst(locations[1..])
    ensures forall y :: y in locations[1..] ==> LexLe(y.createdAt, locations[0].createdAt)
  {
    var rest := locations[1..];
    forall i, j | 0 <= i < j < |rest| ensures LexLe(rest[j].createdAt, rest[i].createdAt) {
      assert rest[i] == locations[i + 1] && rest[j] == locations[j + 1];
    }
    forall y | y in rest ensures LexLe(y.createdAt, locations[0].createdAt) {
      var m :| 0 <= m < |rest| && rest[m] == y;
      assert locations[m + 1] == y;
    }
  }

  /** A record at least as new as every record of a newest-first list can go in front of it. */
  lemma NewestFirstCons(x: SavedLocation, w: seq<SavedLocation>)
    requires NewestFirst(w) && forall y :: y in w ==> LexLe(y.createdAt, x.createdAt)
    ensures NewestFirst([x] + w)
  {
    var r := [x] + w;
    forall i, j | 0 <= i < j < |r| ensures LexLe(r[j].createdAt, r[i].createdAt) {
      assert r[j] == w[j - 1];
      if i > 0 { assert r[i] == w[i - 1]; }
    }
  }

  lemma {:induction false} InsertNewestFirstSorted(x: SavedLocation, locations: seq<SavedLocation>)
    requires NewestFirst(locations)
    ensures NewestFirst(InsertNewestFirst(x, locations))
  {
    if locations == [] {
    } else {
      var head := locations[0];
      NewestFirstSplit(locations);
      assert locations == [head] + locations[1..];
      if LexLe(head.createdAt, x.createdAt) {
        forall y | y in locations ensures LexLe(y.createdAt, x.createdAt) {
          if y != head {
            LexLeTransitive(y.createdAt, head.createdAt, x.createdAt);
          }
        }
        NewestFirstCons(x, locations);
      } else {
        LexLeTotal(head.createdAt, x.createdAt);
        InsertNewestFirstSorted(x, locations[1..]);
        var w := InsertNewestFirst(x, locations[1..]);
        forall y | y in w ensures LexLe(y.createdAt, head.createdAt) {
          assert y in multiset(w);
        }
        NewestFirstCons(head, w);
      }
    }
  }

  /** The order the native listing returns; SQLite leaves the order of equal timestamps open and this picks one. */
  function SortNewestFirst(locations: seq<SavedLocation>): (r: seq<SavedLocation>)
    ensures multiset(r) == multiset(locations) && |r| == |locations|
  {
    if locations == [] then []
    else
      assert locations == [locations[0]] + locations[1..];
      InsertNewestFirst(locations[0], SortNewestFirst(locations[1..]))
  }

  lemma {:induction false} SortNewestFirstSorted(locations: seq<SavedLocation>)
    ensures NewestFirst(SortNewestFirst(locations))
  {
    if locations != [] {
      SortNewestFirstSorted(locations[1..]);
      InsertNewestFirstSorted(locations[0], SortNewestFirst(locations[1..]));
    }
  }

  /** No two different records share a `created_at` value. */
  predicate DistinctTimestamps(locations: seq<SavedLocation>) {
    forall x, y :: x in locations && y in locations && x.createdAt == y.createdAt ==> x == y
  }

  /**
   * Without equal timestamps there is only one newest-first order of a set
   * of records: any two newest-first lists of the same records are equal.
   */
  lemma {:induction false} NewestFirstUnique(a: seq<SavedLocation>, b: seq<SavedLocation>)
    requires NewestFirst(a) && NewestFirst(b) && multiset(a) == multiset(b)
    requires DistinctTimestamps(a)
    ensures a == b
  {
    if a == [] {
      assert |b| == |multiset(b)| == 0;
    } else {
      assert a[0] in multiset(b);
      assert b != [];
      assert b[0] in multiset(a);
      NewestFirstSplit(a);
      NewestFirstSplit(b);
      if a[0] != b[0] {
        assert a[0] in b[1..] by { assert b == [b[0]] + b[1..]; }
        assert b[0] in a[1..] by { assert a == [a[0]] + a[1..]; }
        LexLeAntisymmetric(a[0].createdAt, b[0].createdAt);
      }
      assert a[0] == b[0];
      assert a == [a[0]] + a[1..] && b == [b[0]] + b[1..];
      assert multiset(a) == multiset{a[0]} + multiset(a[1..]);
      assert multiset(b) == multiset{b[0]} + multiset(b[1..]);
      assert multiset(a[1..]) == multiset(a) - multiset{a[0]} == multiset(b) - multiset{b[0]} == multiset(b[1..]);
      assert DistinctTimestamps(a[1..]);
      NewestFirstUnique(a[1..], b[1..]);
    }
  }

  /** Without equal timestamps, the native listing is the one newest-first order of the rows. */
  lemma ListingDeterminedWithoutTies(rows: seq<SavedLocation>, listing: seq<SavedLocation>)
    requires DistinctTimestamps(rows)
    requires NewestFirst(listing) && multiset(listing) == multiset(rows)
    ensures listing == SortNewestFirst(rows)
  {
    var sorted := SortNewestFirst(rows);
    SortNewestFirstSorted(rows);
    forall x, y | x in sorted && y in sorted && x.createdAt == y.createdAt ensures x == y {
      assert x in multiset(rows) && y in multiset(rows);
    }
    NewestFirstUnique(sorted, listing);
  }

  /** Whether a name is present does not depend on the order of the records. */
  lemma HasNameOrderFree(a: seq<SavedLocation>, b: seq<SavedLocation>, name: string)
    requires multiset(a) == multiset(b)
    ensures HasName(a, name) <==> HasName(b, name)
  {
    if HasName(a, name) {
      var i :| 0 <= i < |a| && a[i].name == name;
      assert a[i] in multiset(b);
      var j :| 0 <= j < |b| && b[j] == a[i];
    }
    if HasName(b, name) {
      var i :| 0 <= i < |b| && b[i].name == name;
      assert b[i] in multiset(a);
      var j :| 0 <= j < |a| && a[j] == b[i];
    }
  }

  // ---------------------------------------------------------------------
  // The store as the source keeps it
  // ---------------------------------------------------------------------

  /**
   * The module state of src/db/sqlite.ts. `rows` is `webFallbackStorage` on
   * the web and the table's rows, in insertion order, on native platforms;
   * `dbOpen` says whether the `db` handle is set; `lastRowId` is the
   * counter SQLite keeps for the AUTOINCREMENT id column.
   */
  class SavedLocationStore {
    const platform: Platform
    var dbOpen: bool
    var rows: seq<SavedLocation>
    var lastRowId: nat

    ghost predicate Valid()
      reads this
    {
      && StoreInvariant(rows)
      && (platform == Native ==> IdsIncreasing(rows))
      && (platform == Native ==> forall i :: 0 <= i < |rows| ==> 1 <= rows[i].id <= lastRowId)
    }

    /** Process start with an empty store and no database handle yet. */
    constructor (platform: Platform)
      ensures Valid()
      ensures this.platform == platform && rows == [] && !dbOpen && lastRowId == 0
    {
      this.platform := platform;
      dbOpen := false;
      rows := [];
      lastRowId := 0;
    }

    /**
     * `initDatabase`: nothing on the web; on native platforms, open the
     * database (whether opening succeeds is a parameter) and create the
     * table if it does not exist, which keeps existing rows.
     */
    method InitDatabase(openSucceeds: bool) returns (r: Result<(), StoreError>)
      requires Valid()
      modifies this
      ensures Valid() && rows == old(rows) && lastRowId == old(lastRowId)
      ensures platform == Web ==> r == Success(()) && dbOpen == old(dbOpen)
      ensures platform == Native && openSucceeds ==> r == Success(()) && dbOpen
      ensures platform == Native && !openSucceeds ==> r == Failure(OpenFailed) && dbOpen == old(dbOpen)
    {
      if platform == Web {
        return Success(());
      }
      if !openSucceeds {
        return Failure(OpenFailed);
      }
      dbOpen := true;
      r := Success(());
    }

    /** `getSavedLocations`: the array itself on the web, the table newest first on native platforms. */
    function GetSavedLocations(): (r: Result<seq<SavedLocation>, StoreError>)
      reads this
      ensures platform == Web ==> r == Success(rows)
      ensures platform == Native && !dbOpen ==> r == Failure(DatabaseNotInitialized)
      ensures platform == Native && dbOpen ==>
        r.Success? && NewestFirst(r.value) && multiset(r.value) == multiset(rows)
    {
      if platform == Web then Success(rows)
      else if !dbOpen then Failure(DatabaseNotInitialized)
      else
        SortNewestFirstSorted(rows);
        Success(SortNewestFirst(rows))
    }

    /** `getSavedLocationsCount`: the length of the listing, which is the number of stored records. */
    function GetSavedLocationsCount(): (r: Result<nat, StoreError>)
      reads this
      ensures r.Success? <==> GetSavedLocations().Success?
      ensures r.Success? ==> r.value == |GetSavedLocations().value| == |rows|
      ensures r.Failure? ==> r.error == DatabaseNotInitialized
    {
      match GetSavedLocations()
      case Success(locations) => Success(|locations|)
      case Failure(e) => Failure(e)
    }

    /** The id an accepted add gives its record: `Date.now()` on the web, the next AUTOINCREMENT value on native platforms. */
    function NextId(now: int): int
      reads this
    {
      if platform == Web then now else lastRowId + 1
    }

    /**
     * The native INSERT: the table's UNIQUE constraint on `name` refuses a
     * name already stored; otherwise the row is appended with the next id.
     */
    method InsertRow(name: string, latitude: real, longitude: real, country: string,
                     admin1: Option<string>, createdAt: string) returns (inserted: bool)
      requires Valid() && platform == Native
      requires |rows| < MaxSavedLocations
      modifies this
      ensures Valid() && dbOpen == old(dbOpen)
      ensures inserted <==> !HasName(old(rows), name)
      ensures inserted ==> rows == old(rows) + [NewRecord(old(lastRowId) + 1, name, latitude, longitude, country, admin1, createdAt)]
                           && lastRowId == old(lastRowId) + 1
      ensures !inserted ==> rows == old(rows) && lastRowId == old(lastRowId)
    {
      if FindByName(rows, name).Some? {
        return false;
      }
      var row := NewRecord(lastRowId + 1, name, latitude, longitude, country, admin1, createdAt);
      AddKeepsInvariant(rows, row);
      rows := rows + [row];
      lastRowId := lastRowId + 1;
      inserted := true;
    }

    /**
     * `addSavedLocation`. `now` and `createdAt` stand for `Date.now()` and
     * `new Date().toISOString()`.
     */
    method AddSavedLocation(name: string, latitude: real, longitude: real, country: string,
                            admin1: Option<string>, now: int, createdAt: string)
      returns (r: Result<AddResult, StoreError>)
      requires Valid()
      modifies this
      ensures Valid() && dbOpen == old(dbOpen)
      ensures old(GetSavedLocations()).Failure? ==>
        r == Failure(DatabaseNotInitialized) && rows == old(rows) && lastRowId == old(lastRowId)
      ensures old(GetSavedLocations()).Success? ==>
        && r == Success(ResultOf(AddOutcomeOf(old(rows), name)))
        && rows == AfterAdd(old(rows), NewRecord(old(NextId(now)), name, latitude, longitude, country, admin1, createdAt))
      ensures platform == Native ==> lastRowId == old(lastRowId) + (if r.Success? && r.value.success then 1 else 0)
      ensures platform == Web ==> lastRowId == old(lastRowId)
    {
      var current := GetSavedLocations();
      if current.Failure? {
        return Failure(current.error);
      }
      var currentLocations := current.value;
      ghost var record := NewRecord(NextId(now), name, latitude, longitude, country, admin1, createdAt);
      HasNameOrderFree(currentLocations, rows, name);

      if |currentLocations| >= MaxSavedLocations {
        return Success(AddResult(false, MaximumMessage));
      }

      var duplicate := FindByName(currentLocations, name);
      if duplicate.Some? {
        return Success(AddResult(false, DuplicateMessage));
      }

      if platform == Web {
        var location := NewRecord(now, name, latitude, longitude, country, admin1, createdAt);
        AddKeepsInvariant(rows, location);
        rows := rows + [location];
        return Success(AddResult(true, SavedMessage));
      }

      var inserted := InsertRow(name, latitude, longitude, country, admin1, createdAt);
      if !inserted {
        return Success(AddResult(false, DuplicateMessage));
      }
      r := Success(AddResult(true, SavedMessage));
    }

    /** `removeSavedLocation`: drops every record with the id; an unknown id is no error. */
    method RemoveSavedLocation(id: int) returns (r: Result<(), StoreError>)
      requires Valid()
      modifies this
      ensures Valid() && dbOpen == old(dbOpen) && lastRowId == old(lastRowId)
      ensures platform == Native && !old(dbOpen) ==> r == Failure(DatabaseNotInitialized) && rows == old(rows)
      ensures platform == Web || old(dbOpen) ==> r == Success(()) && rows == WithoutId(old(rows), id)
    {
      if platform == Web {
        RemoveKeepsInvariant(rows, id);
        rows := WithoutId(rows, id);
        return Success(());
      }
      if !dbOpen {
        return Failure(DatabaseNotInitialized);
      }
      RemoveKeepsInvariant(rows, id);
      WithoutIdKeepsIdsIncreasing(rows, id);
      rows := WithoutId(rows, id);
      r := Success(());
    }
  }
}
