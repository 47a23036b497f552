/**
 * `PreferenceRepositoryImpl` (data/repository/PreferenceRepositoryImpl.kt):
 * two integer preferences in a key-value store, each read with a default
 * when it is absent. The store is modelled as a map from key name to value;
 * the flows the getters return are modelled as the value in the current state.
 */
module Preferences {

  /** `intPreferencesKey(name = "theme_option")`. */
  const THEME_OPTIONS: string := "theme_option"
  /** `intPreferencesKey(name = "language_key")`. */
  const LANGUAGE_KEY: string := "language_key"

  /** AppCompat's `MODE_NIGHT_FOLLOW_SYSTEM`, the theme when none is stored. */
  const MODE_NIGHT_FOLLOW_SYSTEM: int := -1
  /** The language when none is stored. */
  const LANGUAGE_SYSTEM_DEFAULT: int := 0

  /** The theme a preference map yields. */
  function ThemeOf(preferences: map<string, int>): (r: int)
    ensures THEME_OPTIONS in preferences ==> r == preferences[THEME_OPTIONS]
    ensures THEME_OPTIONS !in preferences ==> r == MODE_NIGHT_FOLLOW_SYSTEM
  {
    if THEME_OPTIONS in preferences then preferences[THEME_OPTIONS] else MODE_NIGHT_FOLLOW_SYSTEM
  }

  /** The language a preference map yields. */
  function LanguageOf(preferences: map<string, int>): (r: int)
    ensures LANGUAGE_KEY in preferences ==> r == preferences[LANGUAGE_KEY]
    ensures LANGUAGE_KEY !in preferences ==> r == LANGUAGE_SYSTEM_DEFAULT
  {
    if LANGUAGE_KEY in preferences then preferences[LANGUAGE_KEY] else LANGUAGE_SYSTEM_DEFAULT
  }

  /** Saving a theme is read back, overwrites any earlier theme and leaves the language alone. */
  lemma SaveThemeReadBack(preferences: map<string, int>, v: int)
    ensures ThemeOf(preferences[THEME_OPTIONS := v]) == v
    ensures LanguageOf(preferences[THEME_OPTIONS := v]) == LanguageOf(preferences)
  {
  }

  /** Setting a language is read back, overwrites any earlier language and leaves the theme alone. */
  lemma SetLanguageReadBack(preferences: map<string, int>, n: int)
    ensures LanguageOf(preferences[LANGUAGE_KEY := n]) == n
    ensures ThemeOf(preferences[LANGUAGE_KEY := n]) == ThemeOf(preferences)
  {
  }

  class PreferenceRepositoryImpl {
    /** The preference store's contents. */
    var preferences: map<string, int>

    /** A store with nothing saved yet. */
    constructor ()
      ensures preferences == map[]
      ensures GetTheme() == MODE_NIGHT_FOLLOW_SYSTEM && GetLanguage() == LANGUAGE_SYSTEM_DEFAULT
    {
      preferences := map[];
    }

    /** `saveTheme(themeValue)`. */
    method SaveTheme(themeValue: int)
      modifies this
      ensures preferences == old(preferences)[THEME_OPTIONS := themeValue]
      ensures GetTheme() == themeValue && GetLanguage() == old(GetLanguage())
    {
      preferences := preferences[THEME_OPTIONS := themeValue];
    }

    /** `getTheme()`: the stored theme, else follow the system. */
    function GetTheme(): (r: int)
      reads this
      ensures THEME_OPTIONS in preferences ==> r == preferences[THEME_OPTIONS]
      ensures THEME_OPTIONS !in preferences ==> r == MODE_NIGHT_FOLLOW_SYSTEM
    {
      ThemeOf(preferences)
    }

    /** `setLanguage(languageNumber)`. */
    method SetLanguage(languageNumber: int)
      modifies this
      ensures preferences == old(preferences)[LANGUAGE_KEY := languageNumber]
      ensures GetLanguage() == languageNumber && GetTheme() == old(GetTheme())
    {
      preferences := preferences[LANGUAGE_KEY := languageNumber];
    }

    /** `getLanguage()`: the stored language, else the system default. */
    function GetLanguage(): (r: int)
      reads this
      ensures LANGUAGE_KEY in preferences ==> r == preferences[LANGUAGE_KEY]
      ensures LANGUAGE_KEY !in preferences ==> r == LANGUAGE_SYSTEM_DEFAULT
    {
      LanguageOf(preferences)
    }

    /** `clear()`: every key is removed, so both getters fall back to their defaults. */
    method Clear()
      modifies this
      ensures preferences == map[]
      ensures GetTheme() == MODE_NIGHT_FOLLOW_SYSTEM && GetLanguage() == LANGUAGE_SYSTEM_DEFAULT
    {
      preferences := map[];
    }
  }
}
