/**
 * The language lookups of `LanguageUtils`
 * (presentation/language/LanguageUtils.kt): a fixed table from language
 * number to language tag, read in both directions.
 */
module Languages {
  import opened Wrappers
  import Preferences

  /** The presentation layer's own definition of this constant is not part of this model;
      it is taken to be the value the preference store falls back to. */
  const LANGUAGE_SYSTEM_DEFAULT: int := Preferences.LANGUAGE_SYSTEM_DEFAULT
  const ENGLISH: int := 1
  const SWAHILI: int := 2

  /** `languageMap`'s entries in iteration order (`mapOf` keeps insertion order). */
  const languageEntries: seq<(int, string)> := [(ENGLISH, "en"), (SWAHILI, "sw")]

  /** `languageMap`. */
  const languageMap: map<int, string> := map[ENGLISH := "en", SWAHILI := "sw"]

  /** The entries are the map's. */
  lemma EntriesAreTheMap()
    ensures forall i :: 0 <= i < |languageEntries| ==>
      languageEntries[i].0 in languageMap && languageMap[languageEntries[i].0] == languageEntries[i].1
    ensures forall n :: n in languageMap ==> exists i :: 0 <= i < |languageEntries| && languageEntries[i].0 == n
  {
    assert languageEntries[0].0 == ENGLISH && languageEntries[1].0 == SWAHILI;
  }

  /** `entries.find { it.value == code }?.key`: the key of the first entry whose value is
      exactly `code`. */
  function FindKeyByValue(entries: seq<(int, string)>, code: string): (r: Option<int>)
    ensures r.Some? ==> exists i :: 0 <= i < |entries| && entries[i] == (r.value, code)
                           && forall j :: 0 <= j < i ==> entries[j].1 != code
    ensures r.None? <==> forall i :: 0 <= i < |entries| ==> entries[i].1 != code
  {
    if entries == [] then None
    else if entries[0].1 == code then Some(entries[0].0)
    else
      var rest := FindKeyByValue(entries[1..], code);
      assert rest.Some? ==> exists i :: 0 <= i < |entries| && entries[i] == (rest.value, code)
                              && forall j :: 0 <= j < i ==> entries[j].1 != code by {
        if rest.Some? {
          var i :| 0 <= i < |entries[1..]| && entries[1..][i] == (rest.value, code)
                   && forall j :: 0 <= j < i ==> entries[1..][j].1 != code;
          assert entries[i + 1] == (rest.value, code);
          forall j | 0 <= j < i + 1 ensures entries[j].1 != code {
            if j > 0 {
              assert entries[j] == entries[1..][j - 1];
            }
          }
        }
      }
      rest
  }

  /** Of two entries with the same tag, the earlier one wins. */
  lemma FirstMatchWins()
    ensures FindKeyByValue([(ENGLISH, "en"), (SWAHILI, "en")], "en") == Some(ENGLISH)
  {
  }

  /** `getLanguageNumberByCode(code)`: the number of the language whose tag is exactly
      `code` (case matters), else the system default. */
  function GetLanguageNumberByCode(code: string): (r: int)
    ensures r == ENGLISH <==> code == "en"
    ensures r == SWAHILI <==> code == "sw"
    ensures r == LANGUAGE_SYSTEM_DEFAULT <==> code != "en" && code != "sw"
  {
    var found := FindKeyByValue(languageEntries, code);
    assert languageEntries[0] == (ENGLISH, "en") && languageEntries[1] == (SWAHILI, "sw");
    assert found.Some? ==> found.value == ENGLISH || found.value == SWAHILI;
    found.GetOr(LANGUAGE_SYSTEM_DEFAULT)
  }

  /** `getLanguageConfiguration(languageNumber)`: the tag of a known number, else "". */
  function GetLanguageConfiguration(languageNumber: int): (r: string)
    ensures r == "en" <==> languageNumber == ENGLISH
    ensures r == "sw" <==> languageNumber == SWAHILI
    ensures r == "" <==> languageNumber !in languageMap
  {
    if languageNumber in languageMap then languageMap[languageNumber] else ""
  }

  /** A known number goes to its tag and back; any other number, the system default
      included, comes back as the system default. */
  lemma NumberRoundTrip(n: int)
    ensures GetLanguageNumberByCode(GetLanguageConfiguration(n)) ==
      if n in languageMap then n else LANGUAGE_SYSTEM_DEFAULT
  {
  }

  /** A known tag goes to its number and back. */
  lemma CodeRoundTrip(code: string)
    requires code in languageMap.Values
    ensures GetLanguageConfiguration(GetLanguageNumberByCode(code)) == code
  {
    assert code == "en" || code == "sw" by {
      var n :| n in languageMap && languageMap[n] == code;
    }
  }

  /** `languageNumber.getLanguageNumber()` on a device at API level `sdkInt`. Below 33 the
      stored number is kept; from 33 on the number is read back from the first locale the
      platform reports (`firstLocaleTag`, absent when there is none, which Kotlin turns
      into the string "null"). */
  function GetLanguageNumber(languageNumber: int, sdkInt: int, firstLocaleTag: Option<string>): (r: int)
    ensures sdkInt < 33 ==> r == languageNumber
    ensures sdkInt >= 33 && firstLocaleTag.None? ==> r == LANGUAGE_SYSTEM_DEFAULT
    ensures sdkInt >= 33 && firstLocaleTag.Some? ==> r == GetLanguageNumberByCode(firstLocaleTag.value)
  {
    if sdkInt >= 33 then
      GetLanguageNumberByCode(if firstLocaleTag.Some? then firstLocaleTag.value else "null")
    else languageNumber
  }

  /** From API 33 on, a regional tag such as "en-US" is not "en" and reads back as the
      system default. */
  lemma RegionalTagIsNotALanguage()
    ensures GetLanguageNumber(ENGLISH, 33, Some("en-US")) == LANGUAGE_SYSTEM_DEFAULT
  {
  }
}
