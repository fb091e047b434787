/** The static city directory: the city record, its display and search text,
    the UTC-offset label, and the directory queries (popular cities, search,
    sort by time zone, grouping by first letter). The table never changes after
    start-up, so it is a constant and every query is a function of it.
    Time-zone offsets come from the system at call time; they are passed in as
    `offsetOf`, which gives `None` for an identifier the system does not know. */
module CityDatabase {
  import opened Wrappers
  import opened Text
  import opened Seqs
  import opened Localization

  datatype City = City(
    englishName: string,
    chineseName: string,
    timeZoneIdentifier: string,
    aliases: seq<string>,
    country: string,
    countryZh: string,
    isPopular: bool)

  /** East Asia. */
  const EastAsia: seq<City> := [
    City("Beijing", "北京", "Asia/Shanghai", ["Peking"], "China", "中国", true),
    City("Shanghai", "上海", "Asia/Shanghai", [], "China", "中国", true),
    City("Hong Kong", "香港", "Asia/Hong_Kong", ["HK"], "China", "中国", true),
    City("Taipei", "台北", "Asia/Taipei", [], "Taiwan", "中国台湾", true),
    City("Tokyo", "东京", "Asia/Tokyo", [], "Japan", "日本", true),
    City("Seoul", "首尔", "Asia/Seoul", ["서울"], "South Korea", "韩国", true)
  ]

  /** Southeast Asia. */
  const SoutheastAsia: seq<City> := [
    City("Singapore", "新加坡", "Asia/Singapore", [], "Singapore", "新加坡", true),
    City("Bangkok", "曼谷", "Asia/Bangkok", [], "Thailand", "泰国", true),
    City("Ho Chi Minh", "胡志明市", "Asia/Ho_Chi_Minh", ["Saigon"], "Vietnam", "越南", false),
    City("Jakarta", "雅加达", "Asia/Jakarta", [], "Indonesia", "印度尼西亚", false),
    City("Manila", "马尼拉", "Asia/Manila", [], "Philippines", "菲律宾", false)
  ]

  /** South Asia. */
  const SouthAsia: seq<City> := [
    City("Mumbai", "孟买", "Asia/Kolkata", ["Bombay"], "India", "印度", false),
    City("New Delhi", "新德里", "Asia/Kolkata", ["Delhi"], "India", "印度", true)
  ]

  /** West Asia. */
  const WestAsia: seq<City> := [
    City("Dubai", "迪拜", "Asia/Dubai", [], "UAE", "阿联酋", true),
    City("Tel Aviv", "特拉维夫", "Asia/Jerusalem", ["Jerusalem"], "Israel", "以色列", false),
    City("Istanbul", "伊斯坦布尔", "Europe/Istanbul", [], "Turkey", "土耳其", false)
  ]

  /** Western Europe. */
  const WesternEurope: seq<City> := [
    City("London", "伦敦", "Europe/London", [], "UK", "英国", true),
    City("Paris", "巴黎", "Europe/Paris", [], "France", "法国", true),
    City("Berlin", "柏林", "Europe/Berlin", [], "Germany", "德国", true),
    City("Amsterdam", "阿姆斯特丹", "Europe/Amsterdam", [], "Netherlands", "荷兰", false),
    City("Brussels", "布鲁塞尔", "Europe/Brussels", [], "Belgium", "比利时", false)
  ]

  /** Southern Europe. */
  const SouthernEurope: seq<City> := [
    City("Rome", "罗马", "Europe/Rome", [], "Italy", "意大利", true),
    City("Madrid", "马德里", "Europe/Madrid", [], "Spain", "西班牙", false),
    City("Barcelona", "巴塞罗那", "Europe/Madrid", [], "Spain", "西班牙", false)
  ]

  /** Northern Europe. */
  const NorthernEurope: seq<City> := [
    City("Stockholm", "斯德哥尔摩", "Europe/Stockholm", [], "Sweden", "瑞典", false),
    City("Copenhagen", "哥本哈根", "Europe/Copenhagen", [], "Denmark", "丹麦", false)
  ]

  /** Eastern Europe. */
  const EasternEurope: seq<City> := [
    City("Moscow", "莫斯科", "Europe/Moscow", [], "Russia", "俄罗斯", true),
    City("Zurich", "苏黎世", "Europe/Zurich", [], "Switzerland", "瑞士", false)
  ]

  /** North America. */
  const NorthAmerica: seq<City> := [
    City("New York", "纽约", "America/New_York", ["NYC"], "USA", "美国", true),
    City("Los Angeles", "洛杉矶", "America/Los_Angeles", ["LA"], "USA", "美国", true),
    City("Chicago", "芝加哥", "America/Chicago", [], "USA", "美国", true),
    City("San Francisco", "旧金山", "America/Los_Angeles", ["SF"], "USA", "美国", true),
    City("Seattle", "西雅图", "America/Los_Angeles", [], "USA", "美国", false),
    City("Boston", "波士顿", "America/New_York", [], "USA", "美国", false),
    City("Washington DC", "华盛顿", "America/New_York", ["DC"], "USA", "美国", false),
    City("Toronto", "多伦多", "America/Toronto", [], "Canada", "加拿大", true),
    City("Vancouver", "温哥华", "America/Vancouver", [], "Canada", "加拿大", false)
  ]

  /** Central and South America. */
  const LatinAmerica: seq<City> := [
    City("Mexico City", "墨西哥城", "America/Mexico_City", [], "Mexico", "墨西哥", false),
    City("Sao Paulo", "圣保罗", "America/Sao_Paulo", [], "Brazil", "巴西", false),
    City("Buenos Aires", "布宜诺斯艾利斯", "America/Argentina/Buenos_Aires", [], "Argentina", "阿根廷", false)
  ]

  /** Oceania. */
  const Oceania: seq<City> := [
    City("Sydney", "悉尼", "Australia/Sydney", [], "Australia", "澳大利亚", true),
    City("Melbourne", "墨尔本", "Australia/Melbourne", [], "Australia", "澳大利亚", false),
    City("Auckland", "奥克兰", "Pacific/Auckland", [], "New Zealand", "新西兰", false)
  ]

  /** Africa. */
  const Africa: seq<City> := [
    City("Cairo", "开罗", "Africa/Cairo", [], "Egypt", "埃及", false),
    City("Johannesburg", "约翰内斯堡", "Africa/Johannesburg", [], "South Africa", "南非", false)
  ]

  /** The built-in table, in its original order. */
  const AllCities: seq<City> :=
    EastAsia + SoutheastAsia + SouthAsia + WestAsia +
    WesternEurope + SouthernEurope + NorthernEurope + EasternEurope +
    NorthAmerica + LatinAmerica + Oceania + Africa

  // ---------------------------------------------------------------------------
  // Per-city properties
  // ---------------------------------------------------------------------------

  /** The name in the effective language: Chinese for Chinese, English otherwise. */
  function DisplayName(c: City, language: AppLanguage): (r: string)
    ensures language == Chinese ==> r == c.chineseName
    ensures language != Chinese ==> r == c.englishName
  {
    if language == Chinese then c.chineseName else c.englishName
  }

  /** The country in the effective language: Chinese for Chinese, English otherwise. */
  function DisplayCountry(c: City, language: AppLanguage): (r: string)
    ensures language == Chinese ==> r == c.countryZh
    ensures language != Chinese ==> r == c.country
  {
    if language == Chinese then c.countryZh else c.country
  }

  /** The fields a search looks at, in the order they are joined. */
  function SearchFields(c: City): (fields: seq<string>)
    ensures |fields| == 5 + |c.aliases|
  {
    [c.englishName, c.chineseName, c.timeZoneIdentifier, c.country, c.countryZh] + c.aliases
  }

  /** The lower-cased, single-space join of the search fields; it contains every
      field in lower case. */
  function SearchText(c: City): (r: string)
    ensures forall k :: 0 <= k < |SearchFields(c)| ==> Contains(r, Lower(SearchFields(c)[k]))
  {
    var joined := Join(SearchFields(c), " ");
    assert forall k :: 0 <= k < |SearchFields(c)| ==> Contains(Lower(joined), Lower(SearchFields(c)[k])) by {
      forall k | 0 <= k < |SearchFields(c)|
        ensures Contains(Lower(joined), Lower(SearchFields(c)[k]))
      {
        JoinContainsPart(SearchFields(c), " ", k);
        ContainsLower(joined, SearchFields(c)[k]);
      }
    }
    Lower(joined)
  }

  // ---------------------------------------------------------------------------
  // UTC-offset label, with Swift's truncating integer division
  // ---------------------------------------------------------------------------

  function Abs(x: int): (r: nat)
    ensures r == x || r == -x
  {
    if x < 0 then -x else x
  }

  /** Swift's `a / b` for b > 0: the quotient rounded toward zero. */
  function TruncDiv(a: int, b: int): (q: int)
    requires b > 0
    ensures -b < a - q * b < b
    ensures a >= 0 ==> a - q * b >= 0
    ensures a <= 0 ==> a - q * b <= 0
  {
    if a >= 0 then a / b else -((-a) / b)
  }

  /** Swift's `a % b` for b > 0: the remainder carries the sign of `a`. */
  function TruncRem(a: int, b: int): (r: int)
    requires b > 0
    ensures a == TruncDiv(a, b) * b + r
    ensures -b < r < b
    ensures a >= 0 ==> r >= 0
    ensures a <= 0 ==> r <= 0
  {
    a - TruncDiv(a, b) * b
  }

  /** Whole hours of an offset as displayed, rounded toward zero. */
  function OffsetHours(seconds: int): int {
    TruncDiv(seconds, 3600)
  }

  /** Minutes past the whole hour as displayed, always 0 to 59. */
  function OffsetMinutes(seconds: int): (m: nat)
    ensures m < 60
  {
    Abs(TruncRem(seconds, 3600)) / 60
  }

  /** The "UTC±h" or "UTC±h:mm" label, or "" for an unknown time zone. */
  function UtcOffset(offset: Option<int>): (r: string)
    ensures offset.None? <==> r == ""
    ensures offset.Some? ==> |r| >= 5 && r[..3] == "UTC"
    ensures offset.Some? ==> (r[3] == '-' <==> offset.value <= -3600)
  {
    match offset
    case None => ""
    case Some(seconds) =>
      var hours := OffsetHours(seconds);
      var minutes := OffsetMinutes(seconds);
      if minutes == 0 then "UTC" + SignedToString(hours)
      else "UTC" + SignedToString(hours) + ":" + Pad2(minutes)
  }

  /** The remainder modulo an hour of whole hours plus less than an hour. */
  lemma ModHour(a: int, q: int, x: int)
    requires a == q * 3600 + x && 0 <= x < 3600
    ensures a % 3600 == x
  {
    var q', x' := a / 3600, a % 3600;
    assert (q - q') * 3600 == x' - x;
  }

  /** The remainder modulo a minute of whole minutes plus less than a minute. */
  lemma ModMinute(a: int, q: int, x: int)
    requires a == q * 60 + x && 0 <= x < 60
    ensures a % 60 == x
  {
    var q', x' := a / 60, a % 60;
    assert (q - q') * 60 == x' - x;
  }

  /** The label shows the magnitude of the offset truncated to whole minutes; a
      non-zero hour part carries the sign of the offset. */
  lemma OffsetPartsMeaning(seconds: int)
    ensures Abs(seconds) == Abs(OffsetHours(seconds)) * 3600 + OffsetMinutes(seconds) * 60 + Abs(seconds) % 60
    ensures OffsetHours(seconds) != 0 ==> (OffsetHours(seconds) < 0 <==> seconds < 0)
    ensures OffsetMinutes(seconds) == 0 <==> Abs(seconds) % 3600 < 60
  {
    var a := Abs(seconds);
    var p := Abs(OffsetHours(seconds));
    var x := Abs(TruncRem(seconds, 3600));
    assert a == p * 3600 + x && 0 <= x < 3600;
    ModHour(a, p, x);
    var m := x / 60;
    var y := x % 60;
    assert x == m * 60 + y;
    assert a == (p * 60 + m) * 60 + y;
    ModMinute(a, p * 60 + m, y);
  }

  /** A whole-hour offset shows only the signed hour count. */
  lemma UtcOffsetWholeHours(hours: int)
    ensures UtcOffset(Some(hours * 3600)) == "UTC" + SignedToString(hours)
  {
    assert OffsetHours(hours * 3600) == hours;
  }

  lemma UtcOffsetExamples()
    ensures UtcOffset(Some(-12600)) == "UTC-3:30"
    ensures UtcOffset(Some(-1800)) == "UTC+0:30"
    ensures UtcOffset(Some(19800)) == "UTC+5:30"
    ensures UtcOffset(Some(28800)) == "UTC+8"
    ensures UtcOffset(Some(0)) == "UTC+0"
    ensures UtcOffset(None) == ""
  {
    NewfoundlandLabel();
    HalfHourWestLabel();
    IndiaLabel();
    ChinaLabel();
    UtcLabel();
  }

  lemma NewfoundlandLabel()
    ensures UtcOffset(Some(-12600)) == "UTC-3:30"
  {
    assert OffsetHours(-12600) == -3 && OffsetMinutes(-12600) == 30;
    assert SignedToString(-3) == "-3" && Pad2(30) == "30";
  }

  lemma HalfHourWestLabel()
    ensures UtcOffset(Some(-1800)) == "UTC+0:30"
  {
    assert OffsetHours(-1800) == 0 && OffsetMinutes(-1800) == 30;
    ZeroNumerals();
    assert Pad2(30) == "30";
  }

  lemma IndiaLabel()
    ensures UtcOffset(Some(19800)) == "UTC+5:30"
  {
    assert OffsetHours(19800) == 5 && OffsetMinutes(19800) == 30;
    assert SignedToString(5) == "+5" && Pad2(30) == "30";
  }

  lemma ChinaLabel()
    ensures UtcOffset(Some(28800)) == "UTC+8"
  {
    assert OffsetHours(28800) == 8 && OffsetMinutes(28800) == 0;
    assert SignedToString(8) == "+8";
  }

  lemma UtcLabel()
    ensures UtcOffset(Some(0)) == "UTC+0"
  {
    assert OffsetHours(0) == 0 && OffsetMinutes(0) == 0;
    ZeroNumerals();
  }

  /** For offsets strictly between minus one hour and minus one minute the
      hour part is zero, so the label reads as a positive offset. */
  lemma UtcOffsetDropsSign(seconds: int)
    requires -3600 < seconds <= -60
    ensures UtcOffset(Some(seconds))[3] == '+'
    ensures UtcOffsetSigned(Some(seconds))[3] == '-'
  {}

  /** The label with the sign taken from the offset itself rather than from
      its truncated hour count: negative exactly when the displayed hours and
      minutes are not both zero and the offset is negative. */
  function UtcOffsetSigned(offset: Option<int>): (r: string)
    ensures offset.None? <==> r == ""
    ensures offset.Some? ==> |r| >= 5 && r[..3] == "UTC"
    ensures offset.Some? ==> (r[3] == '-' <==> offset.value <= -60)
  {
    match offset
    case None => ""
    case Some(seconds) =>
      var hours := Abs(OffsetHours(seconds));
      var minutes := OffsetMinutes(seconds);
      var sign := if seconds <= -60 then "-" else "+";
      assert seconds <= -3600 ==> hours >= 1;
      assert -3600 < seconds <= -60 ==> minutes >= 1;
      if minutes == 0 then "UTC" + sign + NatToString(hours)
      else "UTC" + sign + NatToString(hours) + ":" + Pad2(minutes)
  }

  /** Outside the band of UtcOffsetDropsSign both labels coincide. */
  lemma UtcOffsetSignedAgrees(seconds: int)
    requires seconds <= -3600 || seconds >= 0
    ensures UtcOffsetSigned(Some(seconds)) == UtcOffset(Some(seconds))
  {
    if seconds < 0 {
      assert OffsetHours(seconds) < 0;
      assert SignedToString(OffsetHours(seconds)) == "-" + NatToString(Abs(OffsetHours(seconds)));
    } else {
      assert SignedToString(OffsetHours(seconds)) == "+" + NatToString(Abs(OffsetHours(seconds)));
    }
  }

  lemma UtcOffsetSignedExamples()
    ensures UtcOffsetSigned(Some(-1800)) == "UTC-0:30"
    ensures UtcOffsetSigned(Some(-12600)) == "UTC-3:30"
    ensures UtcOffsetSigned(Some(0)) == "UTC+0"
  {
    HalfHourWestSignedLabel();
    NewfoundlandSignedLabel();
    assert OffsetHours(0) == 0 && OffsetMinutes(0) == 0;
    ZeroNumerals();
  }

  lemma HalfHourWestSignedLabel()
    ensures UtcOffsetSigned(Some(-1800)) == "UTC-0:30"
  {
    assert OffsetHours(-1800) == 0 && OffsetMinutes(-1800) == 30;
    ZeroNumerals();
    assert Pad2(30) == "30";
  }

  lemma NewfoundlandSignedLabel()
    ensures UtcOffsetSigned(Some(-12600)) == "UTC-3:30"
  {
    assert OffsetHours(-12600) == -3 && OffsetMinutes(-12600) == 30;
    assert NatToString(3) == "3" && Pad2(30) == "30";
  }

  // ---------------------------------------------------------------------------
  // Popular cities and search
  // ---------------------------------------------------------------------------

  function IsPopular(c: City): bool {
    c.isPopular
  }

  /** `getPopularCities`: the popular-flagged cities in table order. */
  function PopularCities(cities: seq<City>): (r: seq<City>)
    ensures forall c :: c in r <==> c in cities && c.isPopular
  {
    Filter(cities, IsPopular)
  }

  /** The popular cities keep their table order: each lands right after the
      popular cities before it. */
  lemma PopularCitiesTableOrder(cities: seq<City>)
    ensures forall i :: 0 <= i < |cities| && cities[i].isPopular ==>
              |PopularCities(cities[..i])| < |PopularCities(cities)| &&
              PopularCities(cities)[|PopularCities(cities[..i])|] == cities[i]
  {
    FilterKeepsOrder(cities, IsPopular);
  }

  /** The search match: the city's search text contains the lower-cased query. */
  predicate Matches(c: City, query: string) {
    Contains(SearchText(c), Lower(query))
  }

  /** Search order: popular before non-popular, then by display name. */
  function SearchLess(language: AppLanguage): (less: (City, City) -> bool) {
    (a: City, b: City) =>
      if a.isPopular != b.isPopular then a.isPopular
      else Less(DisplayName(a, language), DisplayName(b, language))
  }

  lemma SearchLessStrictOrder(language: AppLanguage)
    ensures StrictOrder(SearchLess(language))
  {
    var less := SearchLess(language);
    forall a: City ensures !less(a, a) {
      LessIrreflexive(DisplayName(a, language));
    }
    forall a: City, b: City, c: City | less(a, b) && less(b, c) ensures less(a, c) {
      if a.isPopular == b.isPopular == c.isPopular {
        LessTransitive(DisplayName(a, language), DisplayName(b, language), DisplayName(c, language));
      }
    }
  }

  /** `searchCities`: the popular cities for an empty query; otherwise the
      matching cities, sorted. */
  function SearchCities(cities: seq<City>, query: string, language: AppLanguage): (r: seq<City>)
    ensures query == "" ==> r == PopularCities(cities)
  {
    if query == "" then PopularCities(cities)
    else Sort(Filter(cities, c => Matches(c, query)), SearchLess(language))
  }

  /** A non-empty query returns each matching city as often as the table holds
      it, and nothing else. */
  lemma SearchFindsExactlyMatches(cities: seq<City>, query: string, language: AppLanguage)
    requires query != ""
    ensures forall c :: c in SearchCities(cities, query, language) <==> c in cities && Matches(c, query)
    ensures forall c :: multiset(SearchCities(cities, query, language))[c] ==
                        if Matches(c, query) then multiset(cities)[c] else 0
  {
    var r := SearchCities(cities, query, language);
    assert multiset(r) == multiset(Filter(cities, c => Matches(c, query)));
    forall c ensures c in r <==> c in cities && Matches(c, query) {
      assert c in r <==> c in multiset(r);
    }
  }

  /** A non-empty query that occurs, ignoring case, in any one search field of a
      table city finds that city. */
  lemma FieldMatchFinds(cities: seq<City>, query: string, language: AppLanguage, c: City, k: int)
    requires query != "" && c in cities
    requires 0 <= k < |SearchFields(c)| && Contains(Lower(SearchFields(c)[k]), Lower(query))
    ensures c in SearchCities(cities, query, language)
  {
    ContainsTransitive(SearchText(c), Lower(SearchFields(c)[k]), Lower(query));
    SearchFindsExactlyMatches(cities, query, language);
  }

  /** In a non-empty-query result every popular city comes before every other
      one, and within each group display names ascend. */
  lemma SearchOrder(cities: seq<City>, query: string, language: AppLanguage)
    requires query != ""
    ensures var r := SearchCities(cities, query, language);
      forall i, j :: 0 <= i < j < |r| ==>
        && (r[i].isPopular || !r[j].isPopular)
        && (r[i].isPopular == r[j].isPopular ==>
              r[i] == r[j] || DisplayName(r[i], language) == DisplayName(r[j], language) ||
              Less(DisplayName(r[i], language), DisplayName(r[j], language)))
  {
    var r := SearchCities(cities, query, language);
    SearchLessStrictOrder(language);
    SortSorted(Filter(cities, c => Matches(c, query)), SearchLess(language));
    forall i, j | 0 <= i < j < |r| && r[i].isPopular == r[j].isPopular
      ensures DisplayName(r[i], language) == DisplayName(r[j], language) ||
              Less(DisplayName(r[i], language), DisplayName(r[j], language))
    {
      assert !SearchLess(language)(r[j], r[i]);
      if DisplayName(r[i], language) != DisplayName(r[j], language) {
        LessTotal(DisplayName(r[i], language), DisplayName(r[j], language));
      }
    }
  }

  // ---------------------------------------------------------------------------
  // Sort by time zone
  // ---------------------------------------------------------------------------

  /** The comparator: by offset, ties by display name, and never "less" when
      either city's time zone is unknown. */
  function TimeZoneLess(offsetOf: string -> Option<int>, language: AppLanguage): (less: (City, City) -> bool) {
    (a: City, b: City) =>
      match (offsetOf(a.timeZoneIdentifier), offsetOf(b.timeZoneIdentifier))
      case (Some(o1), Some(o2)) =>
        if o1 == o2 then Less(DisplayName(a, language), DisplayName(b, language)) else o1 < o2
      case _ => false
  }

  lemma TimeZoneLessStrictOrder(offsetOf: string -> Option<int>, language: AppLanguage)
    ensures StrictOrder(TimeZoneLess(offsetOf, language))
  {
    var less := TimeZoneLess(offsetOf, language);
    forall a: City ensures !less(a, a) {
      LessIrreflexive(DisplayName(a, language));
    }
    forall a: City, b: City, c: City | less(a, b) && less(b, c) ensures less(a, c) {
      var oa, ob, oc := offsetOf(a.timeZoneIdentifier), offsetOf(b.timeZoneIdentifier), offsetOf(c.timeZoneIdentifier);
      if oa.value == ob.value == oc.value {
        LessTransitive(DisplayName(a, language), DisplayName(b, language), DisplayName(c, language));
      }
    }
  }

  /** `getAllCitiesSortedByTimeZone`. */
  function SortedByTimeZone(cities: seq<City>, offsetOf: string -> Option<int>, language: AppLanguage): (r: seq<City>)
    ensures multiset(r) == multiset(cities)
  {
    Sort(cities, TimeZoneLess(offsetOf, language))
  }

  /** For cities whose zones are all known, as in the built-in table, offsets
      ascend and equal offsets are ordered by display name. With an unknown
      zone the comparator is no strict weak order, and `sorted(by:)` then
      promises no particular order. */
  lemma SortedByTimeZoneOrder(cities: seq<City>, offsetOf: string -> Option<int>, language: AppLanguage)
    requires forall c :: c in cities ==> offsetOf(c.timeZoneIdentifier).Some?
    ensures var r := SortedByTimeZone(cities, offsetOf, language);
      forall i, j :: 0 <= i < j < |r| ==>
        offsetOf(r[i].timeZoneIdentifier).Some? && offsetOf(r[j].timeZoneIdentifier).Some? &&
        var oi, oj := offsetOf(r[i].timeZoneIdentifier).value, offsetOf(r[j].timeZoneIdentifier).value;
        oi < oj ||
        (oi == oj && (DisplayName(r[i], language) == DisplayName(r[j], language) ||
                      Less(DisplayName(r[i], language), DisplayName(r[j], language))))
  {
    var r := SortedByTimeZone(cities, offsetOf, language);
    TimeZoneLessStrictOrder(offsetOf, language);
    SortSorted(cities, TimeZoneLess(offsetOf, language));
    forall k | 0 <= k < |r| ensures offsetOf(r[k].timeZoneIdentifier).Some? {
      assert r[k] in multiset(r);
    }
    forall i, j | 0 <= i < j < |r| &&
        offsetOf(r[i].timeZoneIdentifier).value == offsetOf(r[j].timeZoneIdentifier).value &&
        DisplayName(r[i], language) != DisplayName(r[j], language)
      ensures Less(DisplayName(r[i], language), DisplayName(r[j], language))
    {
      assert !TimeZoneLess(offsetOf, language)(r[j], r[i]);
      LessTotal(DisplayName(r[i], language), DisplayName(r[j], language));
    }
  }

  // ---------------------------------------------------------------------------
  // Grouping by first letter
  // ---------------------------------------------------------------------------

  /** `String(displayName.prefix(1))`: the first character, or "" for an empty name. */
  function FirstLetter(c: City, language: AppLanguage): (k: string)
    ensures HasPrefix(DisplayName(c, language), k)
    ensures |k| == if DisplayName(c, language) == "" then 0 else 1
  {
    var name := DisplayName(c, language);
    if |name| == 0 then "" else name[..1]
  }

  ghost predicate StrictlyAscending(keys: seq<string>) {
    forall i, j :: 0 <= i < j < |keys| ==> Less(keys[i], keys[j])
  }

  /** Adds `k` to an ascending list of distinct keys unless it is already there. */
  function InsertKey(k: string, keys: seq<string>): (r: seq<string>)
    ensures forall x :: x in r <==> x in keys || x == k
  {
    if |keys| == 0 then [k]
    else if k == keys[0] then keys
    else if Less(k, keys[0]) then [k] + keys
    else
      assert keys == [keys[0]] + keys[1..];
      [keys[0]] + InsertKey(k, keys[1..])
  }

  lemma {:induction false} InsertKeyAscending(k: string, keys: seq<string>)
    requires StrictlyAscending(keys)
    ensures StrictlyAscending(InsertKey(k, keys))
  {
    if |keys| > 0 && k != keys[0] {
      var r := InsertKey(k, keys);
      if Less(k, keys[0]) {
        forall i, j | 0 <= i < j < |r| ensures Less(r[i], r[j]) {
          if i == 0 && j > 1 {
            LessTransitive(k, keys[0], keys[j - 1]);
          }
        }
      } else {
        LessTotal(k, keys[0]);
        InsertKeyAscending(k, keys[1..]);
        var t := InsertKey(k, keys[1..]);
        forall i, j | 0 <= i < j < |r| ensures Less(r[i], r[j]) {
          if i == 0 {
            assert r[j] in t;
          } else {
            assert r[i] == t[i - 1] && r[j] == t[j - 1];
          }
        }
      }
    }
  }

  /** The distinct first letters of the cities, ascending. */
  function Letters(cities: seq<City>, language: AppLanguage): (r: seq<string>)
    ensures forall x :: x in r <==> exists k :: 0 <= k < |cities| && FirstLetter(cities[k], language) == x
  {
    if |cities| == 0 then []
    else
      var prefix := cities[..|cities| - 1];
      var r := InsertKey(FirstLetter(cities[|cities| - 1], language), Letters(prefix, language));
      assert forall k :: 0 <= k < |prefix| ==> prefix[k] == cities[k];
      r
  }

  lemma {:induction false} LettersAscending(cities: seq<City>, language: AppLanguage)
    ensures StrictlyAscending(Letters(cities, language))
  {
    if |cities| > 0 {
      LettersAscending(cities[..|cities| - 1], language);
      InsertKeyAscending(FirstLetter(cities[|cities| - 1], language), Letters(cities[..|cities| - 1], language));
    }
  }

  datatype Group = Group(letter: string, cities: seq<City>)

  /** The cities whose first letter is `letter`, in table order. */
  function WithLetter(cities: seq<City>, language: AppLanguage, letter: string): (r: seq<City>)
    ensures forall c :: c in r <==> c in cities && FirstLetter(c, language) == letter
    ensures forall c :: FirstLetter(c, language) == letter ==> multiset(r)[c] == multiset(cities)[c]
  {
    Filter(cities, c => FirstLetter(c, language) == letter)
  }

  /** Within a group the cities keep their table order: each lands right after
      the cities with the same letter that come before it in the table. */
  lemma WithLetterTableOrder(cities: seq<City>, language: AppLanguage, letter: string)
    ensures forall i :: 0 <= i < |cities| && FirstLetter(cities[i], language) == letter ==>
              |WithLetter(cities[..i], language, letter)| < |WithLetter(cities, language, letter)| &&
              WithLetter(cities, language, letter)[|WithLetter(cities[..i], language, letter)|] == cities[i]
  {
    FilterKeepsOrder(cities, c => FirstLetter(c, language) == letter);
  }

  /** `getCitiesGroupedByLetter`: one group per distinct first letter, in
      ascending letter order; each group keeps the table order. */
  function GroupedByLetter(cities: seq<City>, language: AppLanguage): (r: seq<Group>)
    ensures |r| == |Letters(cities, language)|
    ensures forall i :: 0 <= i < |r| ==> r[i].letter == Letters(cities, language)[i]
    ensures forall i, c :: 0 <= i < |r| && c in r[i].cities ==>
              c in cities && FirstLetter(c, language) == r[i].letter
    ensures forall i, c :: 0 <= i < |r| && FirstLetter(c, language) == r[i].letter ==>
              multiset(r[i].cities)[c] == multiset(cities)[c]
  {
    var letters := Letters(cities, language);
    seq(|letters|, i requires 0 <= i < |letters| => Group(letters[i], WithLetter(cities, language, letters[i])))
  }

  /** Group letters ascend strictly. */
  lemma GroupsAscending(cities: seq<City>, language: AppLanguage)
    ensures var g := GroupedByLetter(cities, language);
      forall i, j :: 0 <= i < j < |g| ==> Less(g[i].letter, g[j].letter)
  {
    LettersAscending(cities, language);
  }

  /** No group is empty. */
  lemma GroupsNonEmpty(cities: seq<City>, language: AppLanguage)
    ensures var g := GroupedByLetter(cities, language);
      forall i :: 0 <= i < |g| ==> |g[i].cities| > 0
  {
    var g := GroupedByLetter(cities, language);
    var letters := Letters(cities, language);
    forall i | 0 <= i < |g| ensures |g[i].cities| > 0 {
      var l := letters[i];
      assert l in letters;
      var k :| 0 <= k < |cities| && FirstLetter(cities[k], language) == l;
      var members := WithLetter(cities, language, l);
      assert cities[k] in members;
      assert g[i].cities == members;
    }
  }

  /** The group a city of the table sits in. */
  lemma GroupOf(cities: seq<City>, language: AppLanguage, k: int) returns (i: int)
    requires 0 <= k < |cities|
    ensures var g := GroupedByLetter(cities, language);
      0 <= i < |g| && cities[k] in g[i].cities
  {
    var g := GroupedByLetter(cities, language);
    var letters := Letters(cities, language);
    var l := FirstLetter(cities[k], language);
    assert l in letters;
    i :| 0 <= i < |letters| && letters[i] == l;
    assert g[i].letter == l;
    assert multiset(cities)[cities[k]] > 0;
    assert multiset(g[i].cities)[cities[k]] > 0;
  }

  /** Every city of the table sits in some group ... */
  lemma GroupsCover(cities: seq<City>, language: AppLanguage)
    ensures var g := GroupedByLetter(cities, language);
      forall k :: 0 <= k < |cities| ==> exists i :: 0 <= i < |g| && cities[k] in g[i].cities
  {
    var g := GroupedByLetter(cities, language);
    forall k | 0 <= k < |cities| ensures exists i :: 0 <= i < |g| && cities[k] in g[i].cities {
      var i := GroupOf(cities, language, k);
    }
  }

  /** ... and in only one. */
  lemma GroupsDisjoint(cities: seq<City>, language: AppLanguage)
    ensures var g := GroupedByLetter(cities, language);
      forall i, j, c :: 0 <= i < |g| && 0 <= j < |g| && c in g[i].cities && c in g[j].cities ==> i == j
  {
    var g := GroupedByLetter(cities, language);
    var letters := Letters(cities, language);
    LettersAscending(cities, language);
    forall i, j, c | 0 <= i < |g| && 0 <= j < |g| && c in g[i].cities && c in g[j].cities
      ensures i == j
    {
      assert g[i].letter == FirstLetter(c, language) == g[j].letter;
      assert letters[i] == letters[j];
      LessIrreflexive(letters[i]);
      assert !Less(letters[i], letters[j]) && !Less(letters[j], letters[i]);
    }
  }
}
