/** The preferences store: the user's ordered city selection and the display
    options, each written to the key-value store whenever it is assigned, and
    the pure queries over them (effective time format, preferred screen,
    localized city name). */
module Settings {
  import opened Wrappers
  import opened Storage
  import opened Localization
  import opened CityDatabase
  import opened Seqs

  // ---------------------------------------------------------------------------
  // Time format
  // ---------------------------------------------------------------------------

  datatype TimeFormat = Format24 | Format12 | FormatShort | Custom

  function FormatRawValue(f: TimeFormat): string {
    match f
    case Format24 => "HH:mm:ss"
    case Format12 => "h:mm:ss a"
    case FormatShort => "HH:mm"
    case Custom => ""
  }

  /** `TimeFormat(rawValue:)`. */
  function ParseTimeFormat(raw: string): (r: Option<TimeFormat>)
    ensures r.Some? ==> FormatRawValue(r.value) == raw
  {
    if raw == "HH:mm:ss" then Some(Format24)
    else if raw == "h:mm:ss a" then Some(Format12)
    else if raw == "HH:mm" then Some(FormatShort)
    else if raw == "" then Some(Custom)
    else None
  }

  /** Raw values are distinct, so every format parses back to itself. */
  lemma ParseFormatRawValue(f: TimeFormat)
    ensures ParseTimeFormat(FormatRawValue(f)) == Some(f)
  {}

  /** The pattern handed to the date formatter: the custom string when the
      custom format is chosen and the string is non-empty, otherwise the
      format's raw value. */
  function EffectiveTimeFormat(format: TimeFormat, customFormatString: string): (r: string)
    ensures format == Custom && customFormatString != "" ==> r == customFormatString
    ensures !(format == Custom && customFormatString != "") ==> r == FormatRawValue(format)
  {
    if format == Custom && customFormatString != "" then customFormatString
    else FormatRawValue(format)
  }

  /** The pattern is empty exactly when the custom format is chosen with an
      empty string. */
  lemma EffectiveTimeFormatEmpty(format: TimeFormat, customFormatString: string)
    ensures EffectiveTimeFormat(format, customFormatString) == "" <==> format == Custom && customFormatString == ""
  {}

  // ---------------------------------------------------------------------------
  // Preferred screen
  // ---------------------------------------------------------------------------

  /** `preferredScreen`: the screen at the index, or the main screen (which may
      be missing) for an index outside the screen list. */
  function PreferredScreen<S>(index: int, screens: seq<S>, main: Option<S>): (r: Option<S>)
    ensures 0 <= index < |screens| ==> r == Some(screens[index])
    ensures !(0 <= index < |screens|) ==> r == main
  {
    if index < 0 || index >= |screens| then main else Some(screens[index])
  }

  // ---------------------------------------------------------------------------
  // Localized city name
  // ---------------------------------------------------------------------------

  /** The position of the first city in the zone, if any. */
  function FirstInZone(cities: seq<City>, zone: string): (r: Option<nat>)
    ensures r.Some? ==> r.value < |cities| && cities[r.value].timeZoneIdentifier == zone
    ensures r.Some? ==> forall j :: 0 <= j < r.value ==> cities[j].timeZoneIdentifier != zone
    ensures r.None? ==> forall j :: 0 <= j < |cities| ==> cities[j].timeZoneIdentifier != zone
  {
    if |cities| == 0 then None
    else if cities[0].timeZoneIdentifier == zone then Some(0)
    else match FirstInZone(cities[1..], zone)
      case Some(k) => Some(k + 1)
      case None => None
  }

  /** `localizedCityName`: the display name of the first directory city in the
      entry's zone, or the stored name when no city is in that zone. */
  function LocalizedCityName(entry: CityTimeZone, cities: seq<City>, language: AppLanguage): (r: string)
    ensures (forall c :: c in cities ==> c.timeZoneIdentifier != entry.timeZoneIdentifier) ==> r == entry.cityName
    ensures forall k :: 0 <= k < |cities| && cities[k].timeZoneIdentifier == entry.timeZoneIdentifier &&
                        (forall j :: 0 <= j < k ==> cities[j].timeZoneIdentifier != entry.timeZoneIdentifier)
                        ==> r == DisplayName(cities[k], language)
  {
    match FirstInZone(cities, entry.timeZoneIdentifier)
    case Some(k) =>
      assert forall k' :: 0 <= k' < |cities| && cities[k'].timeZoneIdentifier == entry.timeZoneIdentifier &&
                          (forall j :: 0 <= j < k' ==> cities[j].timeZoneIdentifier != entry.timeZoneIdentifier)
                          ==> k' == k;
      DisplayName(cities[k], language)
    case None => entry.cityName
  }

  /** A stored "Shanghai" entry shows under the directory's first Shanghai-zone
      city, Beijing. */
  lemma LocalizedShanghaiIsBeijing(id: nat)
    ensures LocalizedCityName(CityTimeZone(id, "Shanghai", "Asia/Shanghai"), AllCities, English) == "Beijing"
    ensures LocalizedCityName(CityTimeZone(id, "Shanghai", "Asia/Shanghai"), AllCities, Chinese) == "北京"
  {
    assert AllCities[0] == City("Beijing", "北京", "Asia/Shanghai", ["Peking"], "China", "中国", true);
  }

  // ---------------------------------------------------------------------------
  // Persistence
  // ---------------------------------------------------------------------------

  const CitiesKey: string := "cities"
  const TimeFormatKey: string := "timeFormat"
  const CustomFormatStringKey: string := "customFormatString"
  const PreferredScreenIndexKey: string := "preferredScreenIndex"

  /** The four preset cities. Each load creates fresh identifiers; they are
      drawn from `idSeed`. */
  function DefaultCities(idSeed: nat): (r: seq<CityTimeZone>)
    ensures |r| == 4
    ensures forall i, j :: 0 <= i < j < 4 ==> r[i].id != r[j].id
  {
    [ CityTimeZone(idSeed, "Beijing", "Asia/Shanghai"),
      CityTimeZone(idSeed + 1, "Tokyo", "Asia/Tokyo"),
      CityTimeZone(idSeed + 2, "Los Angeles", "America/Los_Angeles"),
      CityTimeZone(idSeed + 3, "London", "Europe/London") ]
  }

  /** `loadCities`: the stored list when it decodes, the presets when the key
      is missing or its data does not decode. */
  function LoadCities(entries: map<string, Stored>, idSeed: nat): (r: seq<CityTimeZone>)
    ensures CitiesKey in entries && entries[CitiesKey].CityList? ==> r == entries[CitiesKey].entries
    ensures !(CitiesKey in entries && entries[CitiesKey].CityList?) ==> r == DefaultCities(idSeed)
  {
    if CitiesKey in entries && entries[CitiesKey].CityList? then entries[CitiesKey].entries
    else DefaultCities(idSeed)
  }

  /** A missing or undecodable list loads as Beijing, Tokyo, Los Angeles and
      London, in that order. */
  lemma LoadFallbackPresets(entries: map<string, Stored>, idSeed: nat)
    requires CitiesKey !in entries || entries[CitiesKey] == Undecodable
    ensures var r := LoadCities(entries, idSeed);
      && |r| == 4
      && r[0].cityName == "Beijing" && r[0].timeZoneIdentifier == "Asia/Shanghai"
      && r[1].cityName == "Tokyo" && r[1].timeZoneIdentifier == "Asia/Tokyo"
      && r[2].cityName == "Los Angeles" && r[2].timeZoneIdentifier == "America/Los_Angeles"
      && r[3].cityName == "London" && r[3].timeZoneIdentifier == "Europe/London"
  {}

  /** Saving a list and loading it again gives back the same entries, ids,
      names and zones, in the same order. */
  lemma SaveLoadRoundTrip(entries: map<string, Stored>, cities: seq<CityTimeZone>, idSeed: nat)
    ensures LoadCities(entries[CitiesKey := CityList(cities)], idSeed) == cities
  {}

  /** The time format read at start-up: the stored raw value when it parses,
      otherwise 24-hour. */
  function StoredTimeFormat(entries: map<string, Stored>): (f: TimeFormat)
    ensures f != Format24 ==> TimeFormatKey in entries && entries[TimeFormatKey] == Text(FormatRawValue(f))
  {
    if TimeFormatKey in entries && entries[TimeFormatKey].Text? then
      match ParseTimeFormat(entries[TimeFormatKey].text)
      case Some(f) => f
      case None => Format24
    else Format24
  }

  /** The custom pattern read at start-up, with its preset default. */
  function StoredCustomFormatString(entries: map<string, Stored>): (s: string)
    ensures CustomFormatStringKey !in entries ==> s == "yyyy-MM-dd HH:mm:ss"
  {
    if CustomFormatStringKey in entries && entries[CustomFormatStringKey].Text? then entries[CustomFormatStringKey].text
    else "yyyy-MM-dd HH:mm:ss"
  }

  /** The screen index read at start-up; a missing value reads as 0. */
  function StoredScreenIndex(entries: map<string, Stored>): (i: int)
    ensures PreferredScreenIndexKey !in entries ==> i == 0
  {
    if PreferredScreenIndexKey in entries && entries[PreferredScreenIndexKey].Integer? then
      entries[PreferredScreenIndexKey].number
    else 0
  }

  /** What a setter writes is what the next start reads back. */
  lemma ScalarSettingsRoundTrip(entries: map<string, Stored>, f: TimeFormat, custom: string, index: int)
    ensures StoredTimeFormat(entries[TimeFormatKey := Text(FormatRawValue(f))]) == f
    ensures StoredCustomFormatString(entries[CustomFormatStringKey := Text(custom)]) == custom
    ensures StoredScreenIndex(entries[PreferredScreenIndexKey := Integer(index)]) == index
  {
    ParseFormatRawValue(f);
  }

  // ---------------------------------------------------------------------------
  // The store object
  // ---------------------------------------------------------------------------

  class AppSettings {
    var cities: seq<CityTimeZone>
    var timeFormat: TimeFormat
    var customFormatString: string
    var preferredScreenIndex: int
    const defaults: UserDefaults

    /** The stored list is the current list. */
    ghost predicate CitiesPersisted()
      reads this, defaults
    {
      CitiesKey in defaults.entries && defaults.entries[CitiesKey] == CityList(cities)
    }

    /** Loads every setting; the initial assignments do not write back. */
    constructor(defaults: UserDefaults, idSeed: nat)
      ensures this.defaults == defaults
      ensures cities == LoadCities(defaults.entries, idSeed)
      ensures timeFormat == StoredTimeFormat(defaults.entries)
      ensures customFormatString == StoredCustomFormatString(defaults.entries)
      ensures preferredScreenIndex == StoredScreenIndex(defaults.entries)
    {
      this.defaults := defaults;
      cities := LoadCities(defaults.entries, idSeed);
      timeFormat := StoredTimeFormat(defaults.entries);
      customFormatString := StoredCustomFormatString(defaults.entries);
      preferredScreenIndex := StoredScreenIndex(defaults.entries);
    }

    /** Assigning `cities`: the observer writes the encoded list under "cities". */
    method SetCities(newCities: seq<CityTimeZone>)
      modifies this, defaults
      ensures cities == newCities
      ensures defaults.entries == old(defaults.entries)[CitiesKey := CityList(newCities)]
      ensures CitiesPersisted()
      ensures timeFormat == old(timeFormat) && customFormatString == old(customFormatString)
      ensures preferredScreenIndex == old(preferredScreenIndex)
    {
      cities := newCities;
      defaults.Set(CitiesKey, CityList(cities));
    }

    /** Appends one entry at the end. */
    method AddCity(name: string, timeZoneIdentifier: string, id: nat)
      modifies this, defaults
      ensures cities == old(cities) + [CityTimeZone(id, name, timeZoneIdentifier)]
      ensures defaults.entries == old(defaults.entries)[CitiesKey := CityList(cities)]
      ensures CitiesPersisted()
      ensures timeFormat == old(timeFormat) && customFormatString == old(customFormatString)
      ensures preferredScreenIndex == old(preferredScreenIndex)
    {
      SetCities(cities + [CityTimeZone(id, name, timeZoneIdentifier)]);
    }

    /** Removes the entries at the given offsets. */
    method RemoveCity(offsets: set<int>)
      requires forall o :: o in offsets ==> 0 <= o < |cities|
      modifies this, defaults
      ensures cities == RemoveAtOffsets(old(cities), offsets)
      ensures |cities| == |old(cities)| - |offsets|
      ensures defaults.entries == old(defaults.entries)[CitiesKey := CityList(cities)]
      ensures CitiesPersisted()
      ensures timeFormat == old(timeFormat) && customFormatString == old(customFormatString)
      ensures preferredScreenIndex == old(preferredScreenIndex)
    {
      RemoveAtOffsetsSpec(cities, offsets);
      SetCities(RemoveAtOffsets(cities, offsets));
    }

    /** Moves the entries at `source` to `destination`. */
    method MoveCity(source: set<int>, destination: int)
      requires forall o :: o in source ==> 0 <= o < |cities|
      requires 0 <= destination <= |cities|
      modifies this, defaults
      ensures cities == MoveOffsets(old(cities), source, destination)
      ensures multiset(cities) == multiset(old(cities))
      ensures defaults.entries == old(defaults.entries)[CitiesKey := CityList(cities)]
      ensures CitiesPersisted()
      ensures timeFormat == old(timeFormat) && customFormatString == old(customFormatString)
      ensures preferredScreenIndex == old(preferredScreenIndex)
    {
      MoveOffsetsPermutation(cities, source, destination);
      SetCities(MoveOffsets(cities, source, destination));
    }

    /** Assigning `timeFormat` writes its raw value. */
    method SetTimeFormat(f: TimeFormat)
      modifies this, defaults
      ensures timeFormat == f
      ensures defaults.entries == old(defaults.entries)[TimeFormatKey := Text(FormatRawValue(f))]
      ensures cities == old(cities) && customFormatString == old(customFormatString)
      ensures preferredScreenIndex == old(preferredScreenIndex)
    {
      timeFormat := f;
      defaults.Set(TimeFormatKey, Text(FormatRawValue(f)));
    }

    /** Assigning `customFormatString` writes it. */
    method SetCustomFormatString(custom: string)
      modifies this, defaults
      ensures customFormatString == custom
      ensures defaults.entries == old(defaults.entries)[CustomFormatStringKey := Text(custom)]
      ensures cities == old(cities) && timeFormat == old(timeFormat)
      ensures preferredScreenIndex == old(preferredScreenIndex)
    {
      customFormatString := custom;
      defaults.Set(CustomFormatStringKey, Text(custom));
    }

    /** Assigning `preferredScreenIndex` writes it. */
    method SetPreferredScreenIndex(index: int)
      modifies this, defaults
      ensures preferredScreenIndex == index
      ensures defaults.entries == old(defaults.entries)[PreferredScreenIndexKey := Integer(index)]
      ensures cities == old(cities) && timeFormat == old(timeFormat)
      ensures customFormatString == old(customFormatString)
    {
      preferredScreenIndex := index;
      defaults.Set(PreferredScreenIndexKey, Integer(index));
    }

    /** `resetToDefaults`: reloads the list from the store (which, after any
        edit, holds the current list), sets 24-hour format and screen 0, and
        leaves the custom pattern alone. */
    method ResetToDefaults(idSeed: nat)
      modifies this, defaults
      ensures cities == LoadCities(old(defaults.entries), idSeed)
      ensures old(CitiesPersisted()) ==> cities == old(cities)
      ensures timeFormat == Format24 && preferredScreenIndex == 0
      ensures customFormatString == old(customFormatString)
      ensures CitiesPersisted()
      ensures defaults.entries == old(defaults.entries)[CitiesKey := CityList(cities)]
                                                       [TimeFormatKey := Text(FormatRawValue(Format24))]
                                                       [PreferredScreenIndexKey := Integer(0)]
    {
      SetCities(LoadCities(defaults.entries, idSeed));
      SetTimeFormat(Format24);
      SetPreferredScreenIndex(0);
    }
  }
}
