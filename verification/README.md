# time-shifty, modelled in Dafny

time-shifty is a macOS menu-bar world clock. It shows a small floating panel
with one row per chosen city. When the mouse enters the panel, it jumps
clockwise to the next screen corner. This project models the app's core:

- **Config** (`Config.dfy`): the panel's layout constants and its height for
  a number of city rows.
- **WindowManager** (`WindowManager.dfy`): the four corner positions, and the
  corner-hopping controller as a class.
  - The controller keeps its debounce lock from the start of an animated move
    until the cooldown after the animation ends.
  - The animation's completion and the cooldown's expiry are explicit events.
  - The screen frame a move targets is an input.
- **CityDatabase** (`CityDatabase.dfy`): the built-in table of 45 cities and
  the operations on it:
  - localized names;
  - the "UTC±h[:mm]" label, using Swift's truncating division;
  - case-insensitive search, with popular cities first and then by name;
  - the list sorted by UTC offset;
  - grouping by first letter.
- **Settings** (`Settings.dfy`): the persisted user settings as a class over a
  key-value store. Setting a property writes it through to the store,
  following the `didSet` observers in the source. Also here:
  - the city-list edits: append, remove at offsets, move offsets;
  - the fallback values used when the store holds nothing usable;
  - reset;
  - the choice of target screen.
- **Localization** (`Localization.dfy`): the language setting as a class, the
  system-language rule, and the two string tables.
  - The tables are complete: no lookup ever falls back to the raw key.

Supporting modules:

- `Storage.dfy`: the shared key-value store (`UserDefaults`) and the stored
  city record.
- `Text.dfy`: string helpers:
  - ASCII lower-casing;
  - substring search;
  - joining;
  - lexicographic order;
  - `%d`/`%+d`/`%02d` rendering, with parsers that invert it.
- `Seqs.dfy`: filtering, and a stable insertion sort proved to produce a
  sorted permutation. Also here are Swift's `remove(atOffsets:)` and
  `move(fromOffsets:toOffset:)`, which the city-list edits use.

Several behaviours are model inputs:

- **Time-zone offsets:** the function `offsetOf` maps a zone identifier to its
  current offset in seconds, or to `None` for an unknown identifier.
- **The user's preferred languages:** a sequence of language tags.
- **Fresh UUIDs:** a natural number for each new city entry. `idSeed` stands
  for the four defaults; they are given distinct ids.
- **Screen frames:** an `Option<Rect>`.

Where the prose description of the app and the code disagree, the model
follows the code:

- `searchCities("")` returns the popular cities in table order. They are not
  sorted by name.
- With no stored value, the preferred screen index is 0 (the first screen).
  It is not -1, which would mean the main screen.
- `resetToDefaults` reloads the city list from the store. The list was saved
  on every change, so a reset leaves a persisted list as it is (see
  `Settings.AppSettings.ResetToDefaults`).

## Model

| member | source | states |
|---|---|---|
| Config.WindowHeight | time-shifty/Config.swift:28-35 | the height is never negative |
| Config.WindowHeightEmpty | time-shifty/Config.swift:29 | no rows gives height 0 |
| Config.WindowHeightRowsAndGaps | time-shifty/Config.swift:28-35 | n ≥ 1 rows give 28·n + 14·(n−1) = 42·n − 14 points |
| Config.WindowHeightExamples | time-shifty/Config.swift:28-35 | 1 city → 28, 4 cities → 154 |
| Config.WindowHeightStep | time-shifty/Config.swift:28-35 | each extra city adds one row height and one spacing |
| Config.WindowHeightIncreasing | time-shifty/Config.swift:28-35 | the height strictly increases with the city count from 0 |
| WindowManager.NextCorner | time-shifty/WindowManager.swift:76 | the next corner is in 0..3 and wraps from 3 to 0 |
| WindowManager.FourAdvancesReturn | time-shifty/WindowManager.swift:76 | four advances return to the starting corner |
| WindowManager.CornerPosition | time-shifty/WindowManager.swift:113-127 | in each corner the panel is exactly the padding (40) away from that corner's two screen edges, using the panel's width and height |
| WindowManager.CornerPositionExamples | time-shifty/WindowManager.swift:113-127 | on a 1920×1080 frame: 4 cities → top-left (40,886), top-right (1580,886); 3 cities → (40,928), (1580,928); bottom corners at y = 40 |
| WindowManager.TargetFrame | time-shifty/WindowManager.swift:89-93 | the preferred screen's frame when its index is valid, the main screen's frame (or none) otherwise; no frame only when the index is invalid and there is no main screen |
| WindowManager.WindowManager.constructor | time-shifty/WindowManager.swift:19-31 | starts in corner 1 (top-left), unlocked, without a window |
| WindowManager.WindowManager.CreateWindow | time-shifty/WindowManager.swift:36-57 | the new panel is at the origin, placed in the current corner without animation and shown; the lock ends released when a screen is available |
| WindowManager.WindowManager.MoveToNextCorner | time-shifty/WindowManager.swift:62-78 | while locked, nothing changes; otherwise the corner advances (even if no window or screen is available), and with both the panel moves there animated and the lock is held |
| WindowManager.WindowManager.MoveToCorner | time-shifty/WindowManager.swift:82-110 | without a window or a screen nothing changes; otherwise the panel is at the corner position and the lock is held exactly when the move is animated |
| WindowManager.WindowManager.AnimationComplete | time-shifty/WindowManager.swift:130-154 | completing an animation schedules a cooldown and does not release the lock; the invariant "locked ⇒ something pending" is kept |
| WindowManager.WindowManager.CooldownElapsed | time-shifty/WindowManager.swift:150-153 | the cooldown releases the lock and moves nothing |
| WindowManager.WindowManager.ShowWindow | time-shifty/WindowManager.swift:159-162 | an existing panel becomes visible; nothing else changes |
| WindowManager.WindowManager.HideWindow | time-shifty/WindowManager.swift:165-168 | an existing panel becomes hidden; nothing else changes |
| WindowManager.WindowManager.ToggleWindow | time-shifty/WindowManager.swift:171-177 | visibility flips when a window exists |
| WindowManager.HoverDebounceScenario | time-shifty/WindowManager.swift:68-78 | in a run of hovers, the corner advances only on the first hover and on the hover after the cooldown; hovers during the animation or the cooldown are dropped, and the lock is held from the move to the end of the cooldown |
| WindowManager.WindowManager.UpdateWindowPosition | time-shifty/WindowManager.swift:180-183 | re-places the panel animated in the same corner, ignoring the lock; the window, its visibility and the pending cooldowns are unchanged, and without a window or screen nothing changes |
| Localization.ParseLanguage | time-shifty/Localization.swift:13-17 | a parsed language has exactly the given raw value |
| Localization.ParseRawValue | time-shifty/Localization.swift:13-17 | parsing a language's raw value gives that language back |
| Localization.SystemLanguage | time-shifty/Localization.swift:29-36 | never "system"; Chinese exactly when a first preferred language exists and starts with "zh" (English when the list is empty) |
| Localization.EffectiveLanguage | time-shifty/Localization.swift:55-57 | never "system"; an explicit choice wins, "system" defers to SystemLanguage |
| Localization.StoredLanguage | time-shifty/Localization.swift:59-66 | a language other than "system" is read only from its own raw value under "appLanguage" |
| Localization.StoredLanguageRoundTrip | time-shifty/Localization.swift:46-66 | a saved language is read back unchanged |
| Localization.LocalizationManager.constructor | time-shifty/Localization.swift:59-66 | restores the stored language without writing |
| Localization.LocalizationManager.SetCurrentLanguage | time-shifty/Localization.swift:46-52 | the language changes and its raw value is written under "appLanguage" and nothing else; the store then reads back that language |
| Localization.LocalizationManager.Effective | time-shifty/Localization.swift:55-57 | the effective language is never "system" |
| Localization.LocalizationManager.String | time-shifty/Localization.swift:69-71 | the lookup in the effective language |
| Localization.Lookup | time-shifty/Localization.swift:254-257 | the Chinese table for Chinese, the English table otherwise; the raw key if the table lacks it |
| Localization.LookupNeverFallsBack | time-shifty/Localization.swift:75-251 | both tables define every key, so a lookup is always a table entry |
| Localization.LookupExamples | time-shifty/Localization.swift:136-251 | "Quit" is "退出" in Chinese and "Quit" otherwise; the app name is the same in both |
| CityDatabase.DisplayName | time-shifty/CityDatabase.swift:26-29 | the Chinese name in Chinese, the English name otherwise |
| CityDatabase.DisplayCountry | time-shifty/CityDatabase.swift:32-35 | the Chinese country name in Chinese, the English one otherwise |
| CityDatabase.SearchFields | time-shifty/CityDatabase.swift:57-59 | five fixed fields plus every alias |
| CityDatabase.SearchText | time-shifty/CityDatabase.swift:57-59 | every field and alias, lower-cased, occurs in the search text |
| CityDatabase.TruncDiv | time-shifty/CityDatabase.swift:46 | Swift's division: the remainder is below the divisor in size and has the dividend's sign |
| CityDatabase.FieldMatchFinds | time-shifty/CityDatabase.swift:205-211 | a non-empty query that occurs, ignoring case, in any one field or alias of a table city finds that city |
| CityDatabase.TruncRem | time-shifty/CityDatabase.swift:47 | Swift's remainder: `a == (a / b) * b + a % b` with the truncating quotient, below the divisor in size, with the dividend's sign |
| CityDatabase.OffsetMinutes | time-shifty/CityDatabase.swift:47 | the displayed minutes are below 60 |
| CityDatabase.UtcOffset | time-shifty/CityDatabase.swift:43-54 | "" exactly for an unknown zone; otherwise starts with "UTC", and the sign is '-' exactly for offsets of minus one hour or less |
| CityDatabase.OffsetPartsMeaning | time-shifty/CityDatabase.swift:45-47 | hours and minutes add up to the offset's size truncated to whole minutes; non-zero hours carry the offset's sign; minutes vanish exactly when the offset is within a minute of a whole hour |
| CityDatabase.UtcOffsetWholeHours | time-shifty/CityDatabase.swift:49-50 | a whole-hour offset prints only the signed hours |
| CityDatabase.UtcOffsetExamples | time-shifty/CityDatabase.swift:43-54 | −12600 → "UTC-3:30", 19800 → "UTC+5:30", 28800 → "UTC+8", 0 → "UTC+0", −1800 → "UTC+0:30", unknown → "" |
| CityDatabase.UtcOffsetDropsSign | time-shifty/CityDatabase.swift:45-53 | for offsets in (−3600, −60] the label shows '+' although the offset is negative |
| CityDatabase.UtcOffsetSigned | time-shifty/CityDatabase.swift:43-54 | corrected label: the sign is '-' exactly for offsets of minus one minute or less |
| CityDatabase.UtcOffsetSignedAgrees | time-shifty/CityDatabase.swift:43-54 | outside (−3600, 0) the corrected label equals the original |
| CityDatabase.UtcOffsetSignedExamples | time-shifty/CityDatabase.swift:43-54 | −1800 → "UTC-0:30", −12600 → "UTC-3:30", 0 → "UTC+0" |
| CityDatabase.PopularCities | time-shifty/CityDatabase.swift:200-202 | exactly the popular cities of the table |
| CityDatabase.PopularCitiesTableOrder | time-shifty/CityDatabase.swift:200-202 | the popular cities keep their table order: each lands right after the popular cities before it |
| CityDatabase.SearchCities | time-shifty/CityDatabase.swift:205-207 | the empty query gives the popular cities unchanged |
| CityDatabase.SearchLessStrictOrder | time-shifty/CityDatabase.swift:211-217 | the search comparator is a strict order |
| CityDatabase.SearchFindsExactlyMatches | time-shifty/CityDatabase.swift:205-218 | a non-empty query finds exactly the cities whose lower-cased search text contains the lower-cased query, each as often as in the table |
| CityDatabase.SearchOrder | time-shifty/CityDatabase.swift:211-217 | in the results every popular city comes before every other, and within each group display names ascend |
| CityDatabase.TimeZoneLessStrictOrder | time-shifty/CityDatabase.swift:230-243 | the time-zone comparator is a strict order |
| CityDatabase.SortedByTimeZone | time-shifty/CityDatabase.swift:229-245 | a permutation of the input |
| CityDatabase.SortedByTimeZoneOrder | time-shifty/CityDatabase.swift:229-245 | when every zone in the list is known (as in the table), offsets ascend, and equal offsets are ordered by display name |
| CityDatabase.FirstLetter | time-shifty/CityDatabase.swift:222-224 | the key is the display name's first character, or empty for an empty name |
| CityDatabase.InsertKeyAscending | time-shifty/CityDatabase.swift:225 | inserting a key keeps a key list strictly ascending |
| CityDatabase.Letters | time-shifty/CityDatabase.swift:222-225 | the keys are exactly the first letters that occur |
| CityDatabase.LettersAscending | time-shifty/CityDatabase.swift:225 | the keys are strictly ascending, so each occurs once |
| CityDatabase.WithLetter | time-shifty/CityDatabase.swift:222-224 | exactly the cities with that first letter, with their multiplicities |
| CityDatabase.WithLetterTableOrder | time-shifty/CityDatabase.swift:222-224 | the cities of one letter keep their table order: each lands right after the cities with that letter before it |
| CityDatabase.GroupedByLetter | time-shifty/CityDatabase.swift:221-226 | one group per key, in key order; each group holds exactly the cities with its letter |
| CityDatabase.GroupsAscending | time-shifty/CityDatabase.swift:225 | group letters strictly ascend |
| CityDatabase.GroupsNonEmpty | time-shifty/CityDatabase.swift:222-224 | no group is empty |
| CityDatabase.GroupsCover | time-shifty/CityDatabase.swift:221-226 | every city is in some group |
| CityDatabase.GroupsDisjoint | time-shifty/CityDatabase.swift:221-226 | no city is in two groups |
| Settings.ParseTimeFormat | time-shifty/Settings.swift:14-19 | a parsed format has exactly the given raw value |
| Settings.ParseFormatRawValue | time-shifty/Settings.swift:14-19 | parsing a format's raw value gives it back |
| Settings.EffectiveTimeFormat | time-shifty/Settings.swift:103-108 | the custom string only for a custom format with a non-empty string; the preset pattern otherwise |
| Settings.EffectiveTimeFormatEmpty | time-shifty/Settings.swift:103-108 | the pattern is empty exactly for a custom format with an empty string |
| Settings.PreferredScreen | time-shifty/Settings.swift:194-200 | the indexed screen for a valid index, the main screen otherwise (including negative indices) |
| Settings.FirstInZone | time-shifty/Settings.swift:52 | the first table index with the zone, or none if no entry has it |
| Settings.LocalizedCityName | time-shifty/Settings.swift:50-58 | the display name of the first table city with the entry's zone; the stored name if there is none |
| Settings.LocalizedShanghaiIsBeijing | time-shifty/Settings.swift:50-58 | an entry for Asia/Shanghai shows "Beijing" or "北京", the first table city in that zone, whatever name was stored |
| Settings.DefaultCities | time-shifty/Settings.swift:173-178 | four presets with distinct ids |
| Settings.LoadCities | time-shifty/Settings.swift:169-181 | the stored list when it decodes; the four presets otherwise |
| Settings.LoadFallbackPresets | time-shifty/Settings.swift:169-181 | a missing or undecodable list gives Beijing, Tokyo, Los Angeles and London, in that order |
| Settings.SaveLoadRoundTrip | time-shifty/Settings.swift:162-181 | a saved list loads back unchanged |
| Settings.StoredTimeFormat | time-shifty/Settings.swift:124-130 | a format other than 24-hour is read only from its own raw value |
| Settings.StoredCustomFormatString | time-shifty/Settings.swift:133 | defaults to "yyyy-MM-dd HH:mm:ss" when absent |
| Settings.StoredScreenIndex | time-shifty/Settings.swift:136 | defaults to 0 when absent |
| Settings.ScalarSettingsRoundTrip | time-shifty/Settings.swift:87-136 | the format, the custom string and the screen index each read back as written |
| Seqs.SelectSplit | time-shifty/Settings.swift:150-157 | selecting over a range is selecting over its two halves |
| Seqs.SelectPosition | time-shifty/Settings.swift:150-157 | a selected element lands after the selected elements before it |
| Seqs.SelectComplement | time-shifty/Settings.swift:150-157 | the chosen and the unchosen elements of a prefix together are that prefix as a multiset |
| Seqs.SelectCount | time-shifty/Settings.swift:150-157 | as many elements are chosen as there are offsets in the range |
| Seqs.SelectPrefix | time-shifty/Settings.swift:150-157 | a selection depends only on the range |
| Seqs.SelectPrefixOf | time-shifty/Settings.swift:150-157 | a selection depends only on the range |
| Seqs.RemoveAtOffsetsSpec | time-shifty/Settings.swift:150-152 | removing valid offsets shortens the list by their number and keeps every other element, in its original order |
| Seqs.MoveOffsetsPermutation | time-shifty/Settings.swift:155-157 | moving offsets keeps the list's length and contents |
| Settings.AppSettings.constructor | time-shifty/Settings.swift:120-139 | every setting is loaded from the store with its fallback, and nothing is written |
| Settings.AppSettings.SetCities | time-shifty/Settings.swift:79-84 | the new list is saved under "cities" and nothing else changes |
| Settings.AppSettings.AddCity | time-shifty/Settings.swift:144-147 | the new entry is appended and the list is saved |
| Settings.AppSettings.RemoveCity | time-shifty/Settings.swift:150-152 | the entries at the offsets are removed, the length drops by their number, and the list is saved |
| Settings.AppSettings.MoveCity | time-shifty/Settings.swift:155-157 | the list is rearranged as a permutation and saved |
| Settings.AppSettings.SetTimeFormat | time-shifty/Settings.swift:87-92 | the format's raw value is written and nothing else changes |
| Settings.AppSettings.SetCustomFormatString | time-shifty/Settings.swift:95-100 | the string is written and nothing else changes |
| Settings.AppSettings.SetPreferredScreenIndex | time-shifty/Settings.swift:111-116 | the index is written and nothing else changes |
| Settings.AppSettings.ResetToDefaults | time-shifty/Settings.swift:184-189 | cities are reloaded from the store, so a persisted list stays as it is; the format becomes 24-hour and the screen index 0; the custom string is untouched; all three are written |
| Storage.UserDefaults.Set | time-shifty/Settings.swift:89 | one key is overwritten and no other key changes |
| Text.ContainsTransitive | time-shifty/CityDatabase.swift:58 | a run inside a run of a text is a run of the text |
| Text.ZeroNumerals | time-shifty/CityDatabase.swift:50 | zero renders as "0", and as "+0" under `%+d` |
| Text.Lower | time-shifty/CityDatabase.swift:58 | lower-casing keeps the length and maps each character |
| Text.LowerIdempotent | time-shifty/CityDatabase.swift:58 | lower-casing twice is lower-casing once |
| Text.ContainsLower | time-shifty/CityDatabase.swift:209-211 | a substring stays a substring after both are lower-cased |
| Text.JoinContainsPart | time-shifty/CityDatabase.swift:58 | every part occurs in the joined text |
| Text.LessTransitive | time-shifty/CityDatabase.swift:216 | string order is transitive |
| Text.LessTotal | time-shifty/CityDatabase.swift:216 | distinct strings are ordered one way or the other |
| Text.SignedRoundTrip | time-shifty/CityDatabase.swift:50 | `%+d` can be read back to the number |
| Text.Pad2RoundTrip | time-shifty/CityDatabase.swift:52 | `%02d` can be read back to the number |
| Seqs.Filter | time-shifty/CityDatabase.swift:201 | exactly the elements that satisfy the predicate, with their multiplicities |
| Seqs.FilterAppend | time-shifty/CityDatabase.swift:201 | filtering a concatenation filters each part |
| Seqs.FilterKeepsOrder | time-shifty/CityDatabase.swift:201 | the kept elements stay in input order: each lands right after the kept elements before it |
| Seqs.Sort | time-shifty/CityDatabase.swift:209-217 | a permutation of the input |
| Seqs.SortSorted | time-shifty/CityDatabase.swift:209-217 | with a strict order, no later element is less than an earlier one |

## Left out

- Unicode: `lowercased()` is modelled on ASCII letters only. `hasPrefix` and
  `prefix(1)` work on characters, not grapheme clusters.
- String order: `<` on Swift strings is modelled as lexicographic order on
  characters.
- JSON: the encoding of the city list is not modelled. A stored list either
  decodes (`CityList`) or does not (`Undecodable`). The encoder's failure path
  in `saveCities` is not modelled, and every save succeeds.
- UserDefaults: its type conversions are left out. A screen index stored as
  anything other than an integer reads back as 0.
- Clock rendering: `DateFormatter`, the clock, and the rendering of times
  with a format pattern are not part of this model. Only the choice of
  pattern is modelled.
- Time zones: offsets, including daylight-saving changes, come from the
  `offsetOf` input, which is a snapshot. Zone lookup itself is not modelled.
- Animation: timing, easing and intermediate frames are left out. Completion
  and cooldown are discrete events.
- Screen discovery: `NSScreen` enumeration is left out; frames are inputs.
  The second fallback in `moveToCorner` to the main screen is subsumed by
  `TargetFrame`.
- CityDatabase.SearchCities: its own contract only covers the empty query.
  `SearchFindsExactlyMatches` and `SearchOrder` state the rest.
  - Concrete search results over the full 45-city table (for example,
    "tokyo" giving only Tokyo) are not stated as lemmas, because they are
    too costly to evaluate symbolically.
- CityDatabase.SortedByTimeZoneOrder: the order is stated only for lists
  whose zones are all known, as they are in the built-in table. With an
  unknown zone, the source comparator is not a strict weak ordering, so
  Swift's `sorted` promises no particular order and none is stated.
- Sorting: Swift's `sorted` algorithm is unspecified and not guaranteed to be
  stable. The model uses an insertion sort and proves only what any correct
  sort provides.
- UUIDs: generation is an input.
- Logging: `Logger` output is left out.
- Views and app wiring: the SwiftUI views, the menu bar, the settings window,
  the tracking view and the app delegate are not part of this model. The
  only exceptions are the panel's initial frame at the origin (time-shifty/PanelWindow.swift:24) and the re-placement on a change of preferred screen (time-shifty/AppDelegate.swift:60-66).
- Corner names: `cornerName` produces log output only and is left out.
- Screen re-placement timing: `@Published` announces a change before the
  new value is stored. The sink at time-shifty/AppDelegate.swift:60-66 calls
  `updateWindowPosition()`, which reads `preferredScreen` at
  time-shifty/WindowManager.swift:89 and so may still see the previous
  index. The panel would then go to the previous screen. The model passes
  the screen to `UpdateWindowPosition` as an input, so this ordering is
  outside it. This comes from reading the code and was not executed.
- Change notifications: `objectWillChange` and Combine publishers are left
  out.

## Findings

| source | as written | input that shows it | evidently intended | confidence | as-written member | corrected member |
|---|---|---|---|---|---|---|
| time-shifty/CityDatabase.swift:45-53 | the label's sign comes from the truncated hour count, so a negative offset under one hour prints with '+' | an offset of −1800 seconds gives "UTC+0:30" | "UTC-0:30": the sign of the offset itself | medium; not executed; no zone in the table currently has such an offset | CityDatabase.UtcOffsetDropsSign | CityDatabase.UtcOffsetSigned |
