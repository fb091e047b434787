/** Language selection and string lookup: the `AppLanguage` enum with its raw
    values, the detection of the system language, the language manager that
    persists the user's choice, and the two string tables with their lookup. */
module Localization {
  import opened Wrappers
  import opened Text
  import Storage

  datatype AppLanguage = System | English | Chinese

  function RawValue(l: AppLanguage): string {
    match l
    case System => "system"
    case English => "en"
    case Chinese => "zh-Hans"
  }

  /** `AppLanguage(rawValue:)`. */
  function ParseLanguage(raw: string): (r: Option<AppLanguage>)
    ensures r.Some? ==> RawValue(r.value) == raw
  {
    if raw == "system" then Some(System)
    else if raw == "en" then Some(English)
    else if raw == "zh-Hans" then Some(Chinese)
    else None
  }

  /** Raw values are distinct, so every language parses back to itself. */
  lemma ParseRawValue(l: AppLanguage)
    ensures ParseLanguage(RawValue(l)) == Some(l)
  {}

  /** `AppLanguage.systemLanguage`: Chinese exactly when the first preferred
      language starts with "zh"; with no preferred language, "en" is assumed. */
  function SystemLanguage(preferredLanguages: seq<string>): (r: AppLanguage)
    ensures r != System
    ensures r == Chinese <==> |preferredLanguages| > 0 && HasPrefix(preferredLanguages[0], "zh")
  {
    var preferred := if |preferredLanguages| > 0 then preferredLanguages[0] else "en";
    assert !HasPrefix("en", "zh") by { assert "en"[..2][0] != "zh"[0]; }
    if HasPrefix(preferred, "zh") then Chinese else English
  }

  /** The language actually shown: `.system` is resolved, any other choice stands. */
  function EffectiveLanguage(current: AppLanguage, preferredLanguages: seq<string>): (r: AppLanguage)
    ensures r != System
    ensures current != System ==> r == current
    ensures current == System ==> r == SystemLanguage(preferredLanguages)
  {
    if current == System then SystemLanguage(preferredLanguages) else current
  }

  /** The key under which the chosen language is persisted. */
  const LanguageKey: string := "appLanguage"

  /** The language the manager starts with: the stored one when its raw value
      parses, otherwise `.system`. */
  function StoredLanguage(entries: map<string, Storage.Stored>): (l: AppLanguage)
    ensures l != System ==> LanguageKey in entries && entries[LanguageKey] == Storage.Text(RawValue(l))
  {
    if LanguageKey in entries && entries[LanguageKey].Text? then
      match ParseLanguage(entries[LanguageKey].text)
      case Some(l) => l
      case None => System
    else System
  }

  /** What is written on a language change is what the next start reads back. */
  lemma StoredLanguageRoundTrip(entries: map<string, Storage.Stored>, l: AppLanguage)
    ensures StoredLanguage(entries[LanguageKey := Storage.Text(RawValue(l))]) == l
  {
    ParseRawValue(l);
  }

  class LocalizationManager {
    var currentLanguage: AppLanguage
    const defaults: Storage.UserDefaults

    /** Restores the persisted choice; the initial assignment does not write back. */
    constructor(defaults: Storage.UserDefaults)
      ensures this.defaults == defaults
      ensures currentLanguage == StoredLanguage(defaults.entries)
    {
      this.defaults := defaults;
      currentLanguage := StoredLanguage(defaults.entries);
    }

    /** Assigning `currentLanguage` stores its raw value under "appLanguage". */
    method SetCurrentLanguage(l: AppLanguage)
      modifies this, defaults
      ensures currentLanguage == l
      ensures defaults.entries == old(defaults.entries)[LanguageKey := Storage.Text(RawValue(l))]
      ensures StoredLanguage(defaults.entries) == l
    {
      currentLanguage := l;
      defaults.Set(LanguageKey, Storage.Text(RawValue(l)));
      StoredLanguageRoundTrip(old(defaults.entries), l);
    }

    /** `effectiveLanguage`, given the system's preferred languages. */
    function Effective(preferredLanguages: seq<string>): (r: AppLanguage)
      reads this
      ensures r != System
    {
      EffectiveLanguage(currentLanguage, preferredLanguages)
    }

    /** `string(_:)`: the table lookup in the effective language. */
    function String(key: LocalizedStringKey, preferredLanguages: seq<string>): (r: string)
      reads this
      ensures r == Lookup(key, EffectiveLanguage(currentLanguage, preferredLanguages))
    {
      Lookup(key, Effective(preferredLanguages))
    }
  }

  datatype LocalizedStringKey =
      AppName
    | Ok
    | Cancel
    | Add
    | Delete
    | Save
    | Reset
    | MenuSettings
    | MenuQuit
    | MenuShow
    | MenuHide
    | SettingsTitle
    | SettingsTabCities
    | SettingsTabDisplay
    | CitiesTitle
    | CitiesAdd
    | CitiesDelete
    | CitiesResetToDefault
    | CitiesAddTitle
    | CitiesAddDescription
    | CitiesSelectCity
    | CitiesSelectPlaceholder
    | CitiesSelectedCity
    | CitiesTimeZone
    | CitiesOffset
    | DisplayTitle
    | DisplayTimeFormat
    | DisplayFormat24h
    | DisplayFormat12h
    | DisplayFormatShort
    | DisplayFormatCustom
    | DisplayCustomFormatPlaceholder
    | DisplayCustomFormatExamples
    | DisplayCustomFormatPreview
    | DisplayScreen
    | DisplayScreenMain
    | DisplayScreenExternal
    | DisplayLanguage
    | DisplayRestoreDefaults
    | FormatExample24h
    | FormatExample12h
    | FormatExampleDateTime
    | FormatExampleShortDate
    | FormatExampleTimeOnly

  /** The key's raw value, which is also what a lookup falls back to. */
  function KeyRawValue(key: LocalizedStringKey): string {
    match key
    case AppName => "app_name"
    case Ok => "ok"
    case Cancel => "cancel"
    case Add => "add"
    case Delete => "delete"
    case Save => "save"
    case Reset => "reset"
    case MenuSettings => "menu_settings"
    case MenuQuit => "menu_quit"
    case MenuShow => "menu_show"
    case MenuHide => "menu_hide"
    case SettingsTitle => "settings_title"
    case SettingsTabCities => "settings_tab_cities"
    case SettingsTabDisplay => "settings_tab_display"
    case CitiesTitle => "cities_title"
    case CitiesAdd => "cities_add"
    case CitiesDelete => "cities_delete"
    case CitiesResetToDefault => "cities_reset_to_default"
    case CitiesAddTitle => "cities_add_title"
    case CitiesAddDescription => "cities_add_description"
    case CitiesSelectCity => "cities_select_city"
    case CitiesSelectPlaceholder => "cities_select_placeholder"
    case CitiesSelectedCity => "cities_selected_city"
    case CitiesTimeZone => "cities_time_zone"
    case CitiesOffset => "cities_offset"
    case DisplayTitle => "display_title"
    case DisplayTimeFormat => "display_time_format"
    case DisplayFormat24h => "display_format_24h"
    case DisplayFormat12h => "display_format_12h"
    case DisplayFormatShort => "display_format_short"
    case DisplayFormatCustom => "display_format_custom"
    case DisplayCustomFormatPlaceholder => "display_custom_format_placeholder"
    case DisplayCustomFormatExamples => "display_custom_format_examples"
    case DisplayCustomFormatPreview => "display_custom_format_preview"
    case DisplayScreen => "display_screen"
    case DisplayScreenMain => "display_screen_main"
    case DisplayScreenExternal => "display_screen_external"
    case DisplayLanguage => "display_language"
    case DisplayRestoreDefaults => "display_restore_defaults"
    case FormatExample24h => "format_example_24h"
    case FormatExample12h => "format_example_12h"
    case FormatExampleDateTime => "format_example_datetime"
    case FormatExampleShortDate => "format_example_short_date"
    case FormatExampleTimeOnly => "format_example_time_only"
  }

  /** Simplified Chinese strings. A key the table lacks maps to `None`. */
  function ZhHans(key: LocalizedStringKey): Option<string> {
    match key
    case AppName => Some("Time Shifty")
    case Ok => Some("确定")
    case Cancel => Some("取消")
    case Add => Some("添加")
    case Delete => Some("删除")
    case Save => Some("保存")
    case Reset => Some("重置")
    case MenuSettings => Some("设置...")
    case MenuQuit => Some("退出")
    case MenuShow => Some("显示")
    case MenuHide => Some("隐藏")
    case SettingsTitle => Some("Time Shifty - 设置")
    case SettingsTabCities => Some("城市")
    case SettingsTabDisplay => Some("显示")
    case CitiesTitle => Some("城市和时区")
    case CitiesAdd => Some("添加城市")
    case CitiesDelete => Some("删除")
    case CitiesResetToDefault => Some("重置为默认")
    case CitiesAddTitle => Some("添加城市")
    case CitiesAddDescription => Some("城市按时区从早到晚排列（UTC-12 到 UTC+14）")
    case CitiesSelectCity => Some("选择城市：")
    case CitiesSelectPlaceholder => Some("请选择...")
    case CitiesSelectedCity => Some("城市：")
    case CitiesTimeZone => Some("时区：")
    case CitiesOffset => Some("偏移：")
    case DisplayTitle => Some("显示设置")
    case DisplayTimeFormat => Some("时间格式")
    case DisplayFormat24h => Some("24 小时制 (14:30:00)")
    case DisplayFormat12h => Some("12 小时制 (2:30:00 PM)")
    case DisplayFormatShort => Some("24 小时制 - 简短 (14:30)")
    case DisplayFormatCustom => Some("自定义格式")
    case DisplayCustomFormatPlaceholder => Some("格式字符串")
    case DisplayCustomFormatExamples => Some("示例：")
    case DisplayCustomFormatPreview => Some("预览：")
    case DisplayScreen => Some("显示屏幕")
    case DisplayScreenMain => Some("主屏幕")
    case DisplayScreenExternal => Some("屏幕")
    case DisplayLanguage => Some("语言")
    case DisplayRestoreDefaults => Some("恢复默认设置")
    case FormatExample24h => Some("14:30:00 (24小时)")
    case FormatExample12h => Some("2:30:00 PM (12小时)")
    case FormatExampleDateTime => Some("2026-01-15 14:30")
    case FormatExampleShortDate => Some("01/15 14:30")
    case FormatExampleTimeOnly => Some("14:30 (仅时分)")
  }

  /** English strings. A key the table lacks maps to `None`. */
  function En(key: LocalizedStringKey): Option<string> {
    match key
    case AppName => Some("Time Shifty")
    case Ok => Some("OK")
    case Cancel => Some("Cancel")
    case Add => Some("Add")
    case Delete => Some("Delete")
    case Save => Some("Save")
    case Reset => Some("Reset")
    case MenuSettings => Some("Settings...")
    case MenuQuit => Some("Quit")
    case MenuShow => Some("Show")
    case MenuHide => Some("Hide")
    case SettingsTitle => Some("Time Shifty - Settings")
    case SettingsTabCities => Some("Cities")
    case SettingsTabDisplay => Some("Display")
    case CitiesTitle => Some("Cities & Time Zones")
    case CitiesAdd => Some("Add City")
    case CitiesDelete => Some("Delete")
    case CitiesResetToDefault => Some("Reset to Default")
    case CitiesAddTitle => Some("Add City")
    case CitiesAddDescription => Some("Cities sorted by time zone (UTC-12 to UTC+14)")
    case CitiesSelectCity => Some("Select City:")
    case CitiesSelectPlaceholder => Some("Please select...")
    case CitiesSelectedCity => Some("City:")
    case CitiesTimeZone => Some("Time Zone:")
    case CitiesOffset => Some("Offset:")
    case DisplayTitle => Some("Display Settings")
    case DisplayTimeFormat => Some("Time Format")
    case DisplayFormat24h => Some("24-Hour (14:30:00)")
    case DisplayFormat12h => Some("12-Hour (2:30:00 PM)")
    case DisplayFormatShort => Some("24-Hour - Short (14:30)")
    case DisplayFormatCustom => Some("Custom Format")
    case DisplayCustomFormatPlaceholder => Some("Format String")
    case DisplayCustomFormatExamples => Some("Examples:")
    case DisplayCustomFormatPreview => Some("Preview:")
    case DisplayScreen => Some("Display Screen")
    case DisplayScreenMain => Some("Main Screen")
    case DisplayScreenExternal => Some("Screen")
    case DisplayLanguage => Some("Language")
    case DisplayRestoreDefaults => Some("Restore Defaults")
    case FormatExample24h => Some("14:30:00 (24-hour)")
    case FormatExample12h => Some("2:30:00 PM (12-hour)")
    case FormatExampleDateTime => Some("2026-01-15 14:30")
    case FormatExampleShortDate => Some("01/15 14:30")
    case FormatExampleTimeOnly => Some("14:30 (time only)")
  }

  /** `L10n.string`: the Chinese table for `.chinese`, the English one for any
      other language, and the key's raw value when the table lacks the key. */
  function Lookup(key: LocalizedStringKey, language: AppLanguage): (r: string)
    ensures language == Chinese && ZhHans(key).Some? ==> r == ZhHans(key).value
    ensures language != Chinese && En(key).Some? ==> r == En(key).value
    ensures (if language == Chinese then ZhHans(key) else En(key)) == None ==> r == KeyRawValue(key)
  {
    var table := if language == Chinese then ZhHans(key) else En(key);
    match table
    case Some(text) => text
    case None => KeyRawValue(key)
  }

  /** Both tables translate every key, so the raw-value fallback is never taken:
      the lookup is exactly the selected table's entry. */
  lemma LookupNeverFallsBack(key: LocalizedStringKey, language: AppLanguage)
    ensures ZhHans(key).Some? && En(key).Some?
    ensures Lookup(key, language) == if language == Chinese then ZhHans(key).value else En(key).value
  {
    ZhHansTranslatesAll(key);
    EnTranslatesAll(key);
  }

  lemma ZhHansTranslatesAll(key: LocalizedStringKey)
    ensures ZhHans(key).Some?
  {}

  lemma EnTranslatesAll(key: LocalizedStringKey)
    ensures En(key).Some?
  {}

  lemma LookupExamples()
    ensures Lookup(MenuQuit, Chinese) == "退出"
    ensures Lookup(MenuQuit, English) == "Quit"
    ensures Lookup(MenuQuit, System) == "Quit"
    ensures Lookup(AppName, Chinese) == Lookup(AppName, English)
  {}
}
