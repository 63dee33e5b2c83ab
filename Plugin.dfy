/**
 * The AStyle plugin for Geany: its settings record with the defaults, load,
 * save and configure-dialog transitions; the composition of the formatter's
 * options argument; and the rule that replaces the editor's text only when
 * the formatter produced a result.
 */
module Plugin {
  import opened Wrappers
  import opened CStr
  import Lang
  import opened KeyFiles

  const VERSION_STR: CString := "0.2"
  const DEFAULT_OPT_STR: CString := "--style=gnu"

  /** The dialog responses that commit the configure dialog (GTK_RESPONSE_OK, GTK_RESPONSE_APPLY). */
  const GTK_RESPONSE_OK: Int32 := -5
  const GTK_RESPONSE_APPLY: Int32 := -10

  /** The global settings record: formatter options and interface language. */
  datatype Settings = Settings(optStr: CString, lang: Int32)

  /**
   * The formatting engine: given the source text and the options argument it
   * yields the formatted text, or None (NULL) when it fails.
   */
  type Engine = (CString, CString) -> Option<CString>

  // ---------------------------------------------------------------- language

  /**
   * `detectLanguage`: German when the LANG environment value is set and
   * starts with "de", English otherwise. `env` is that value (None: unset).
   */
  function DetectLanguage(env: Option<CString>): (l: Int32)
    ensures Lang.IsLanguage(l)
    ensures l == Lang.LANG_DE <==> env.Some? && |env.value| >= 2 && env.value[..2] == "de"
    ensures l != Lang.LANG_DE ==> l == Lang.LANG_EN
  {
    if env.Some? then
      StrNCmpZeroIff(env.value, "de", 2);
      if StrNCmp(env.value, "de", 2) == 0 then Lang.LANG_DE else Lang.LANG_EN
    else
      Lang.LANG_EN
  }

  /** `setDefaultSettings`: options "--style=gnu" and the detected language. */
  function DefaultSettings(env: Option<CString>): (s: Settings)
    ensures s.optStr == "--style=gnu"
    ensures Lang.IsLanguage(s.lang)
    ensures s.lang == Lang.LANG_DE <==> env.Some? && |env.value| >= 2 && env.value[..2] == "de"
  {
    Settings(DEFAULT_OPT_STR, DetectLanguage(env))
  }

  // ---------------------------------------------------------------- key file

  /** The key file `saveSettings` builds from the settings record. */
  function SavedKeyFile(s: Settings): (kf: KeyFile)
    ensures kf.Keys == {("General", "version"), ("General", "language"), ("AStyle", "optStr")}
    ensures KeyFiles.GetString(kf, "General", "version") == Some(VERSION_STR)
    ensures GetInteger(kf, "General", "language") == s.lang
    ensures KeyFiles.GetString(kf, "AStyle", "optStr") == Some(s.optStr)
  {
    var withVersion := SetString(map[], "General", "version", VERSION_STR);
    var withLanguage := SetInteger(withVersion, "General", "language", s.lang);
    IntegerRoundTrip(withVersion, "General", "language", s.lang);
    SetString(withLanguage, "AStyle", "optStr", s.optStr)
  }

  /** The language integer `loadSettings` reads from a key file. */
  function StoredLanguage(kf: KeyFile): Int32 {
    GetInteger(kf, "General", "language")
  }

  /**
   * The settings after `loadSettings` merged a loaded key file into `s`: a
   * language outside the enum becomes LANG_EN, an in-range one is taken
   * as it is; the options are replaced only when the key is present.
   */
  function LoadedSettings(s: Settings, kf: KeyFile): (r: Settings)
    ensures Lang.IsLanguage(r.lang)
    ensures Lang.IsLanguage(StoredLanguage(kf)) ==> r.lang == StoredLanguage(kf)
    ensures !Lang.IsLanguage(StoredLanguage(kf)) ==> r.lang == Lang.LANG_EN
    ensures ("AStyle", "optStr") in kf ==> r.optStr == kf[("AStyle", "optStr")]
    ensures ("AStyle", "optStr") !in kf ==> r.optStr == s.optStr
  {
    var v := StoredLanguage(kf);
    var lang := if v < 0 || v >= Lang.LANG_COUNT then Lang.LANG_EN else v;
    match KeyFiles.GetString(kf, "AStyle", "optStr")
    case Some(o) => Settings(o, lang)
    case None => Settings(s.optStr, lang)
  }

  /**
   * The notice `loadSettings` shows for an out-of-range language `v`: the
   * catalogue's message 3 in the language in force before the load, ": ",
   * and `v`. A NULL message would be printed by glibc as "(null)".
   */
  function LanguageNotice(current: Int32, v: Int32): (r: string)
    ensures current == Lang.LANG_DE ==> r == Lang.STR_DE[3] + ": " + IntegerText(v as int)
    ensures current == Lang.LANG_EN ==> r == Lang.STR_EN[3] + ": " + IntegerText(v as int)
    ensures !Lang.IsLanguage(current) ==> r == "(null): " + IntegerText(v as int)
  {
    Lang.GetString(current, 3).GetOr("(null)") + ": " + IntegerText(v as int)
  }

  /** Saving valid settings and loading the result restores them, whatever was in force before. */
  lemma SaveLoadRoundTrip(before: Settings, s: Settings)
    requires Lang.IsLanguage(s.lang)
    ensures LoadedSettings(before, SavedKeyFile(s)) == s
  {
  }

  /**
   * A key file without a language key reads as language 0, LANG_DE: the
   * language in force before the load is not kept.
   */
  lemma MissingLanguageReadsAsGerman(s: Settings, kf: KeyFile)
    requires ("General", "language") !in kf
    ensures LoadedSettings(s, kf).lang == Lang.LANG_DE
  {
  }

  // ---------------------------------------------------------------- formatting

  /** No character of `s` is a space. */
  predicate NoSpace(s: string) {
    forall i :: 0 <= i < |s| ==> s[i] != ' '
  }

  /**
   * The AStyle mode flag for a file-type name, chosen by exact,
   * case-sensitive comparison: C and C++, Java, C#, or none.
   */
  function ModeFlag(fileType: CString): (m: CString)
    ensures fileType == "C" || fileType == "C++" ==> m == "--mode=c"
    ensures fileType == "Java" ==> m == "--mode=java"
    ensures fileType == "C#" ==> m == "--mode=cs"
    ensures fileType !in {"C", "C++", "Java", "C#"} ==> m == ""
    ensures NoSpace(m)
  {
    StrCmpZeroIff(fileType, "C");
    StrCmpZeroIff(fileType, "C++");
    StrCmpZeroIff(fileType, "Java");
    StrCmpZeroIff(fileType, "C#");
    if StrCmp(fileType, "C") == 0 || StrCmp(fileType, "C++") == 0 then "--mode=c"
    else if StrCmp(fileType, "Java") == 0 then "--mode=java"
    else if StrCmp(fileType, "C#") == 0 then "--mode=cs"
    else ""
  }

  /**
   * The options argument handed to the engine (`g_strconcat(mode, " ",
   * optStr)`): it splits at its first space into exactly the mode flag and
   * the user's options, so the options reach the engine verbatim.
   */
  function OptionsArgument(fileType: CString, optStr: CString): (arg: CString)
    ensures FirstSpace(arg) == |ModeFlag(fileType)| < |arg|
    ensures arg[..FirstSpace(arg)] == ModeFlag(fileType)
    ensures arg[FirstSpace(arg) + 1..] == optStr
  {
    FirstSpaceAfterWord(ModeFlag(fileType), optStr);
    ModeFlag(fileType) + " " + optStr
  }

  /** The index of the first space in `s`, or |s| when there is none. */
  function FirstSpace(s: string): (i: nat)
    ensures i <= |s|
    ensures i < |s| ==> s[i] == ' '
    ensures NoSpace(s[..i])
  {
    if |s| == 0 then 0
    else if s[0] == ' ' then 0
    else
      var j := FirstSpace(s[1..]);
      assert s[..1 + j] == [s[0]] + s[1..][..j];
      1 + j
  }

  /** A space-free prefix followed by a space ends at the first space. */
  lemma {:induction false} FirstSpaceAfterWord(w: string, rest: string)
    requires NoSpace(w)
    ensures FirstSpace(w + " " + rest) == |w|
  {
    if |w| > 0 {
      assert (w + " " + rest)[1..] == w[1..] + " " + rest;
      FirstSpaceAfterWord(w[1..], rest);
    }
  }

  /**
   * For an unknown file type the mode flag is empty and the argument starts
   * with the separating space; for a known one it starts with "--mode=".
   */
  lemma OptionsArgumentLeadingSpace(fileType: CString, optStr: CString)
    ensures fileType !in {"C", "C++", "Java", "C#"} ==> OptionsArgument(fileType, optStr) == " " + optStr
    ensures fileType in {"C", "C++", "Java", "C#"} ==> OptionsArgument(fileType, optStr)[..7] == "--mode="
  {
  }

  /** A C document and an unknown file type, both with GNU style. */
  lemma OptionsArgumentExamples()
    ensures OptionsArgument("C", "--style=gnu") == "--mode=c --style=gnu"
    ensures OptionsArgument("Python", "--style=gnu") == " --style=gnu"
  {
  }

  /**
   * `formatCode`: nothing when there is no current document (`docType` is
   * None); otherwise what the engine makes of the code under the options
   * argument composed from the document's file type.
   */
  function FormatCode(docType: Option<CString>, code: CString, optStr: CString, engine: Engine): (r: Option<CString>)
    ensures docType.None? ==> r.None?
    ensures docType.Some? ==> r == engine(code, ModeFlag(docType.value) + " " + optStr)
  {
    match docType
    case None => None
    case Some(t) => engine(code, OptionsArgument(t, optStr))
  }

  // ---------------------------------------------------------------- editor

  /** The number of lines of a text, a line ending being CR LF, LF or CR. */
  function LineCount(s: string): (n: nat)
    ensures n >= 1
    ensures n <= |s| + 1
  {
    if |s| == 0 then 1
    else if s[0] == '\r' && |s| > 1 && s[1] == '\n' then 1 + LineCount(s[2..])
    else if s[0] == '\r' || s[0] == '\n' then 1 + LineCount(s[1..])
    else LineCount(s[1..])
  }

  /**
   * `sci_get_contents(sci, bufferLen)`: a buffer of `bufferLen` units that
   * holds the first `bufferLen - 1` units of the text and the terminator;
   * NULL for a zero length; the whole text for a negative one. The model's
   * unit is a character, where the editor's is a UTF-8 byte.
   */
  function SciGetContents(text: CString, bufferLen: int): (r: Option<CString>)
    ensures r.None? <==> bufferLen == 0
    ensures r.Some? ==> r.value <= text
    ensures bufferLen < 0 || bufferLen > |text| ==> r == Some(text)
    ensures 0 < bufferLen <= |text| ==> |r.value| == bufferLen - 1
  {
    if bufferLen == 0 then None
    else if bufferLen < 0 || bufferLen > |text| then Some(text)
    else Some(text[..bufferLen - 1])
  }

  /**
   * The new text of a document holding `text` after a menu activation that
   * fetches its contents with a buffer of `bufferLen`; None when the
   * document is left as it is.
   */
  function Replacement(text: CString, fileType: CString, optStr: CString, engine: Engine, bufferLen: int): Option<CString> {
    match SciGetContents(text, bufferLen)
    case None => None
    case Some(code) => FormatCode(Some(fileType), code, optStr, engine)
  }

  /**
   * The document after a menu activation whose formatting gave `r`: as it
   * was when `r` is None; otherwise holding `r` with the caret on its former
   * line, or on the last line when the new text is shorter.
   */
  predicate ReplacedOnSuccess(r: Option<CString>, textBefore: CString, caretBefore: nat, textAfter: CString, caretAfter: nat) {
    match r
    case None => textAfter == textBefore && caretAfter == caretBefore
    case Some(t) =>
      textAfter == t &&
      caretAfter == (if caretBefore < LineCount(t) then caretBefore else LineCount(t) - 1)
  }

  /** An engine that hands back the code it is given. */
  const IDENTITY_ENGINE: Engine := (code: CString, options: CString) => Some(code)

  /**
   * With a buffer of the text's length, as `on_menuitem_activate` asks for,
   * the formatter never sees the last character, and an empty document is
   * never formatted.
   */
  lemma ContentsAsWritten(text: CString)
    ensures |text| == 0 ==> SciGetContents(text, |text|) == None
    ensures |text| > 0 ==> SciGetContents(text, |text|) == Some(text[..|text| - 1])
  {
  }

  /** Formatting "int x;\n" with an engine that changes nothing drops the final newline. */
  lemma LastCharacterLost()
    ensures Replacement("int x;\n", "C", "--style=gnu", IDENTITY_ENGINE, |"int x;\n"|) == Some("int x;")
  {
    var text: CString := "int x;\n";
    assert text[..6] == "int x;";
  }

  /** An empty document is left as it is, whatever the engine would give. */
  lemma EmptyDocumentSkipped(fileType: CString, optStr: CString, engine: Engine)
    ensures Replacement("", fileType, optStr, engine, 0) == None
  {
  }

  /** With a buffer one longer than the text, room for the terminator, the engine receives the whole text. */
  lemma WholeTextFormatted(text: CString, fileType: CString, optStr: CString, engine: Engine)
    ensures Replacement(text, fileType, optStr, engine, |text| + 1) == engine(text, OptionsArgument(fileType, optStr))
  {
  }

  /** With the whole text fetched, an engine that changes nothing leaves the document's text as it was. */
  lemma IdentityEngineKeepsText(text: CString, fileType: CString, optStr: CString)
    ensures Replacement(text, fileType, optStr, IDENTITY_ENGINE, |text| + 1) == Some(text)
  {
    WholeTextFormatted(text, fileType, optStr, IDENTITY_ENGINE);
  }

  /** The current document's editor: its file type, text and caret line. */
  class Document {
    const fileTypeName: CString
    var text: CString
    var caretLine: nat

    ghost predicate Valid()
      reads this
    {
      caretLine < LineCount(text)
    }

    constructor (fileTypeName: CString, text: CString)
      ensures Valid()
      ensures this.fileTypeName == fileTypeName && this.text == text && caretLine == 0
    {
      this.fileTypeName := fileTypeName;
      this.text := text;
      caretLine := 0;
    }

    /** `sci_set_text`: the whole text is replaced and the caret goes to its start. */
    method SetText(t: CString)
      modifies this
      ensures Valid()
      ensures text == t && caretLine == 0
    {
      text := t;
      caretLine := 0;
    }

    /** `sci_goto_line`: the caret moves to `line`, or to the last line when the text is shorter. */
    method GotoLine(line: nat)
      modifies this
      ensures Valid()
      ensures text == old(text)
      ensures caretLine == if line < LineCount(text) then line else LineCount(text) - 1
    {
      caretLine := if line < LineCount(text) then line else LineCount(text) - 1;
    }
  }

  // ---------------------------------------------------------------- plugin state

  /** The plugin's global state: the settings record and the notices shown to the user. */
  class AStylePlugin {
    var optStr: CString
    var lang: Int32
    /** The messages shown with `msgBox`, oldest first. */
    var notices: seq<string>

    /** The settings record always names a language of the enum. */
    ghost predicate Valid()
      reads this
    {
      Lang.IsLanguage(lang)
    }

    /** The settings record the fields hold. */
    function Current(): Settings
      reads this
    {
      Settings(optStr, lang)
    }

    /** The settings part of `plugin_init`: no options yet, then `setDefaultSettings`. */
    constructor (env: Option<CString>)
      ensures Valid()
      ensures Current() == DefaultSettings(env) && notices == []
    {
      optStr := "";
      lang := Lang.LANG_DE;
      notices := [];
      new;
      SetDefaultSettings(env);
    }

    /** `getString`: message `id` of the catalogue in the current language. */
    function GetString(id: Int32): (r: Option<CString>)
      reads this
      ensures Valid() && 0 <= id < 4 ==> r.Some?
      ensures r.Some? ==> 0 <= id < 4
      ensures r.Some? && lang == Lang.LANG_DE ==> r.value == Lang.STR_DE[id]
      ensures r.Some? && lang != Lang.LANG_DE ==> r.value == Lang.STR_EN[id]
    {
      Lang.GetString(lang, id)
    }

    /** `setDefaultSettings`. */
    method SetDefaultSettings(env: Option<CString>)
      modifies this
      ensures Valid()
      ensures Current() == DefaultSettings(env)
      ensures notices == old(notices)
    {
      optStr := DEFAULT_OPT_STR;
      lang := DetectLanguage(env);
    }

    /**
     * `saveSettings`: builds the key file from the settings and hands it to
     * the file writer, whose status `writeStatus` it returns.
     */
    method SaveSettings(writeStatus: Int32) returns (ret: Int32, written: KeyFile)
      ensures ret == writeStatus
      ensures written == SavedKeyFile(Current())
      ensures GetInteger(written, "General", "language") == lang
      ensures KeyFiles.GetString(written, "AStyle", "optStr") == Some(optStr)
    {
      written := SavedKeyFile(Settings(optStr, lang));
      ret := writeStatus;
    }

    /**
     * `loadSettings`: `file` is the key file read from the configuration
     * file, None when it could not be loaded. Returns 1 and changes nothing
     * when there is no file; otherwise merges it, showing one notice for an
     * out-of-range language, and returns 0.
     */
    method LoadSettings(file: Option<KeyFile>) returns (ret: Int32)
      requires Valid()
      modifies this
      ensures Valid()
      ensures ret == 0 || ret == 1
      ensures ret == 1 <==> file.None?
      ensures file.None? ==> Current() == old(Current()) && notices == old(notices)
      ensures file.Some? ==> Current() == LoadedSettings(old(Current()), file.value)
      ensures file.Some? ==>
        notices == old(notices) +
          (if Lang.IsLanguage(StoredLanguage(file.value)) then []
           else [LanguageNotice(old(lang), StoredLanguage(file.value))])
    {
      match file
      case None =>
        ret := 1;
      case Some(config) =>
        var v := GetInteger(config, "General", "language");
        if v < 0 || v >= Lang.LANG_COUNT {
          notices := notices + [LanguageNotice(lang, v)];
          lang := Lang.LANG_EN;
        } else {
          lang := v;
        }
        var o := KeyFiles.GetString(config, "AStyle", "optStr");
        if o.Some? {
          optStr := o.value;
        }
        ret := 0;
    }

    /**
     * `on_configure_response`: for OK or Apply the options become the entry's
     * text and the settings are saved (`written` is the key file handed to
     * the writer, whose status is ignored); any other response changes nothing.
     */
    method ConfigureResponse(response: Int32, entryText: CString) returns (written: Option<KeyFile>)
      requires Valid()
      modifies this
      ensures Valid()
      ensures lang == old(lang) && notices == old(notices)
      ensures response == GTK_RESPONSE_OK || response == GTK_RESPONSE_APPLY ==>
        optStr == entryText && written == Some(SavedKeyFile(Settings(entryText, lang)))
      ensures response != GTK_RESPONSE_OK && response != GTK_RESPONSE_APPLY ==>
        optStr == old(optStr) && written == None
    {
      written := None;
      if response == GTK_RESPONSE_OK || response == GTK_RESPONSE_APPLY {
        optStr := entryText;
        // the writer's status is discarded, so any value stands in for it
        var _, kf := SaveSettings(0);
        written := Some(kf);
      }
    }

    /**
     * `on_menuitem_activate` as written: the contents are fetched with a
     * buffer of the text's length, so the formatter gets the text without its
     * last character, and an empty document is left alone. Only when the
     * engine yields a result is the text replaced and the caret sent back to
     * its former line.
     */
    method MenuItemActivate(doc: Document, engine: Engine)
      requires doc.Valid()
      modifies doc
      ensures doc.Valid()
      ensures ReplacedOnSuccess(Replacement(old(doc.text), doc.fileTypeName, optStr, engine, |old(doc.text)|),
                                old(doc.text), old(doc.caretLine), doc.text, doc.caretLine)
    {
      var len := |doc.text|;
      var code := SciGetContents(doc.text, len);
      if code.None? {
        return;
      }
      var formatted := FormatCode(Some(doc.fileTypeName), code.value, optStr, engine);
      if formatted.Some? {
        var lineNr := doc.caretLine;
        doc.SetText(formatted.value);
        doc.GotoLine(lineNr);
      }
    }

    /**
     * `on_menuitem_activate` with the buffer one longer than the text, so
     * that the whole text, an empty one included, reaches the formatter.
     */
    method MenuItemActivateWholeText(doc: Document, engine: Engine)
      requires doc.Valid()
      modifies doc
      ensures doc.Valid()
      ensures ReplacedOnSuccess(engine(old(doc.text), OptionsArgument(doc.fileTypeName, optStr)),
                                old(doc.text), old(doc.caretLine), doc.text, doc.caretLine)
    {
      var len := |doc.text|;
      var code := SciGetContents(doc.text, len + 1);
      if code.None? {
        return;
      }
      var formatted := FormatCode(Some(doc.fileTypeName), code.value, optStr, engine);
      if formatted.Some? {
        var lineNr := doc.caretLine;
        doc.SetText(formatted.value);
        doc.GotoLine(lineNr);
      }
    }
  }
}
