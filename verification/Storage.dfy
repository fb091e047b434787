/** The platform key-value store (`UserDefaults.standard`) as an abstract map
    from keys to stored values. Both the preferences store and the localization
    manager hold a reference to the one shared instance. */
module Storage {

  /** One entry of the user's city selection, as it is persisted. The `id`
      stands for the entry's UUID. */
  datatype CityTimeZone = CityTimeZone(id: nat, cityName: string, timeZoneIdentifier: string)

  /** What a key can hold. `CityList` is a city list that decodes; `Undecodable`
      is data under a key that the decoder rejects. The JSON encoding itself is
      not modelled. */
  datatype Stored =
    | Text(text: string)
    | Integer(number: int)
    | CityList(entries: seq<CityTimeZone>)
    | Undecodable

  class UserDefaults {
    var entries: map<string, Stored>

    constructor(initial: map<string, Stored>)
      ensures entries == initial
    {
      entries := initial;
    }

    /** `set(_:forKey:)`: overwrites one key and nothing else. */
    method Set(key: string, value: Stored)
      modifies this
      ensures entries == old(entries)[key := value]
    {
      entries := entries[key := value];
    }
  }
}
