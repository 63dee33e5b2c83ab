/**
 * The plugin's string catalogue: the `Language` enum, one fixed table of
 * messages per language, and the (language, id) lookup.
 */
module Lang {
  import opened Wrappers
  import opened CStr

  /** The enum `Language`: its members and the count that closes it. */
  const LANG_DE: Int32 := 0
  const LANG_EN: Int32 := 1
  const LANG_COUNT: Int32 := 2

  /** A value of the enum that names a language (LANG_COUNT does not). */
  predicate IsLanguage(l: Int32) {
    0 <= l < LANG_COUNT
  }

  /**
   * The German table. Its fourth entry is spelt in lang.h with the two
   * characters U+00C3 U+00BC where "ue" with umlaut is meant; the model
   * keeps the characters as they stand.
   */
  const STR_DE: seq<CString> := [
    "Astyle Optionen datei:",
    "AStyle Optionen:",
    "Dokumentation",
    "Ung\U{00C3}\U{00BC}ltige oder unbekannte Sprache"
  ]

  /** The English table. */
  const STR_EN: seq<CString> := [
    "AStyle option file:",
    "AStyle options:",
    "Documentation",
    "Invalid or unknown language"
  ]

  /** The number of message ids, taken from the German table alone. */
  const LANG_NUM_ENTRIES: nat := |STR_DE|

  /**
   * `lang_getString`: the message `id` in language `lang`, or None (NULL)
   * when `id`, compared as an unsigned `size_t`, is not below the number of
   * entries, or when `lang` is neither LANG_DE nor LANG_EN.
   */
  function GetString(lang: Int32, id: Int32): (r: Option<CString>)
    ensures r.Some? <==> IsLanguage(lang) && 0 <= id as int < LANG_NUM_ENTRIES
    ensures r.Some? && lang == LANG_DE ==> r.value == STR_DE[id]
    ensures r.Some? && lang == LANG_EN ==> r.value == STR_EN[id]
  {
    if ToSizeT(id) >= LANG_NUM_ENTRIES then None
    else if lang == LANG_DE then Some(STR_DE[id])
    else if lang == LANG_EN then Some(STR_EN[id])
    else None
  }

  /** The valid languages are exactly the two named members of the enum. */
  lemma LanguagesAreClosed(l: Int32)
    ensures IsLanguage(l) <==> l == LANG_DE || l == LANG_EN
    ensures !IsLanguage(LANG_COUNT)
  {
  }

  /**
   * The entry count computed from the German table also covers the English
   * one, so no in-range id falls into a gap of either table.
   */
  lemma TablesAligned()
    ensures LANG_NUM_ENTRIES == 4
    ensures |STR_EN| == LANG_NUM_ENTRIES
  {
  }

  /** Every id outside 0..3, negative ones included, yields NULL in every language. */
  lemma OutOfRangeIdIsNull(lang: Int32, id: Int32)
    requires id < 0 || id as int >= LANG_NUM_ENTRIES
    ensures GetString(lang, id) == None
  {
  }
}
