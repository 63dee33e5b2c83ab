# AStyle plugin for Geany — a Dafny model

This project models the decisions made by the Geany "AStyle" plugin. The plugin passes the
current document to the Artistic Style formatter. The model covers:

- **The string catalogue** (`Lang.dfy`, from `lang.h`): the `Language` enum
  (`LANG_DE = 0`, `LANG_EN = 1`, `LANG_COUNT = 2`), the German and English message tables,
  and `lang_getString`. The lookup compares the `int` id against the unsigned entry count,
  so a negative id also yields NULL.
- **C-level comparisons** (`CStr.dfy`): 32-bit `int`, the conversion to `size_t`, NUL-free C
  strings, and `strcmp`/`strncmp` as the plugin uses them. These are proved to be exact
  equality and a two-character prefix test.
- **The key file** (`KeyFiles.dfy`): GLib's key file as a map from (group, key) to the stored
  text. Integers are stored as decimal text, and reading back what was written gives the same
  integer.
- **The plugin** (`Plugin.dfy`, from `main.c`):
  - **Settings record.** The global record (`optStr`, `lang`) is class `AStylePlugin`. Its
    methods model `setDefaultSettings`, `saveSettings`, `loadSettings` and
    `on_configure_response`, and every method keeps `lang` a member of the enum. Messages
    shown with `msgBox` are recorded in `notices`.
  - **Options argument.** Mode-flag selection and option concatenation come from
    `formatCode`. The AStyle engine is a function parameter that returns an optional text.
  - **Replace-on-success.** `on_menuitem_activate` is the method
    `AStylePlugin.MenuItemActivate`, which takes the editor `Document` (its text and caret
    line). It replaces the text and restores the caret line only when the engine produced a
    result.

GLib's integer getter yields 0 for a missing key, so a key file without a `language` key sets
the language to `LANG_DE`. The language in force is not kept
(`Plugin.MissingLanguageReadsAsGerman`).

## Model

| member | source | states |
|---|---|---|
| CStr.StrCmpZeroIff | main.c:180-185 | `strcmp(a, b) == 0` holds exactly when `a == b`, so the file-type tests are exact and case-sensitive |
| CStr.StrNCmpZeroIff | main.c:84 | `strncmp(a, b, n) == 0` holds exactly when the first `n` characters agree, with a shorter string's terminator taking part |
| CStr.ToSizeT | lang.h:33 | an `int` compared with `sizeof`-derived `size_t` is taken modulo 2^64 (a 64-bit target), and a negative value becomes at least 2^64 - 2^31 |
| Lang.GetString | lang.h:31-44 | returns a message exactly when the language is LANG_DE or LANG_EN and 0 <= id < LANG_NUM_ENTRIES: `STR_DE[id]` for LANG_DE, `STR_EN[id]` for LANG_EN, NULL otherwise (negative ids included) |
| Lang.LanguagesAreClosed | lang.h:10-12 | the valid languages are exactly LANG_DE and LANG_EN; LANG_COUNT is not one |
| Lang.TablesAligned | lang.h:15-28 | LANG_NUM_ENTRIES, computed from the German table alone, is 4 and equals the English table's length |
| Lang.OutOfRangeIdIsNull | lang.h:28-33 | any id that is negative or at least 4 yields NULL for every language |
| KeyFiles.GetString | main.c:136 | the string getter yields the stored text when the (group, key) is present, and NULL exactly when it is absent |
| KeyFiles.SetString | main.c:105 | the setter stores the value under its key and leaves every other key as it was |
| KeyFiles.SetInteger | main.c:106 | the integer setter adds its key and leaves every other key as it was |
| KeyFiles.GetInteger | main.c:128 | the integer getter yields the stored integer when its text is an integer that fits an `int`, and 0 when the key is absent, the text is not an integer, or it does not fit |
| KeyFiles.DigitsRoundTrip | main.c:106 | reading the decimal digits written for a natural number gives the number back |
| KeyFiles.IntegerTextRoundTrip | main.c:106 | parsing the "%d" text of any integer gives the integer back |
| KeyFiles.IntegerRoundTrip | main.c:128 | an integer stored with the integer setter is read back unchanged by the integer getter |
| Plugin.DetectLanguage | main.c:80-90 | the result is LANG_DE exactly when LANG is set and its first two characters are "de"; otherwise it is LANG_EN, so it is always a valid language |
| Plugin.DefaultSettings | main.c:92-97 | the defaults are options "--style=gnu" and the detected language, which is always valid |
| Plugin.SavedKeyFile | main.c:104-107 | the saved key file holds exactly General/version = "0.2", General/language = lang and AStyle/optStr = optStr |
| Plugin.LoadedSettings | main.c:128-141 | after a successful load the language is always valid: the stored value when it is in [0, LANG_COUNT), LANG_EN otherwise; the options are replaced only when AStyle/optStr is present |
| Plugin.SaveLoadRoundTrip | main.c:128-141 | loading the key file saved from valid settings restores the same optStr and lang, whatever was in force before |
| Plugin.MissingLanguageReadsAsGerman | main.c:128-134 | a key file without a language key sets the language to LANG_DE rather than keeping the current one |
| Plugin.LanguageNotice | main.c:131 | the notice is message 3 of the language in force before the load, ": " and the decimal text of the rejected value ("(null)" in place of the message for an invalid language) |
| Plugin.ModeFlag | main.c:178-186 | "C" and "C++" give "--mode=c", "Java" gives "--mode=java", "C#" gives "--mode=cs", every other name gives "" (no flag contains a space) |
| Plugin.OptionsArgument | main.c:189 | the options argument splits at its first space into exactly the mode flag and the user's options, so the options reach the engine verbatim |
| Plugin.OptionsArgumentLeadingSpace | main.c:180-189 | for an unknown file type the argument is " " + optStr, with the leading space; for a known one it starts with "--mode=" |
| Plugin.OptionsArgumentExamples | main.c:180-189 | a C document with "--style=gnu" gives "--mode=c --style=gnu"; a Python document gives " --style=gnu" |
| Plugin.FormatCode | main.c:173-197 | with no current document there is no result; otherwise the result is the engine's output for the code and mode flag + " " + optStr |
| Plugin.SciGetContents | main.c:205-206 | the contents fetched with a buffer of n units are the first n - 1 units of the text, a unit being a character in the model (the whole text when n exceeds its length or is negative), and NULL for n = 0 |
| Plugin.ContentsAsWritten | main.c:205-208 | with a buffer of the text's length the formatter gets the text without its last character, and an empty document yields NULL, so the handler returns early |
| Plugin.LastCharacterLost | main.c:205-218 | with an engine that changes nothing, a document holding "int x;\n" is replaced by "int x;" |
| Plugin.EmptyDocumentSkipped | main.c:205-208 | an empty document is left as it is, whatever the engine would give |
| Plugin.WholeTextFormatted | main.c:205-210 | with a buffer one longer than the text, the engine receives the whole text and the options argument |
| Plugin.IdentityEngineKeepsText | main.c:205-218 | with the whole text fetched, an engine that changes nothing leaves the document's text as it was |
| Plugin.Document.SetText | main.c:215 | setting the text replaces the whole text and puts the caret on the first line |
| Plugin.Document.GotoLine | main.c:216 | the caret goes to the requested line, or to the last line when the text has fewer lines; the text is unchanged |
| Plugin.AStylePlugin.constructor | main.c:257-258 | start-up leaves the defaults in force, with no notices |
| Plugin.AStylePlugin.GetString | main.c:57-60 | under a valid language every id 0..3 has a message, taken from the current language's table |
| Plugin.AStylePlugin.SetDefaultSettings | main.c:92-97 | the record becomes the defaults for the given LANG value; no notice is shown |
| Plugin.AStylePlugin.SaveSettings | main.c:100-117 | the key file handed to the writer stores the current lang and optStr; the writer's status is returned; the settings are unchanged |
| Plugin.AStylePlugin.LoadSettings | main.c:119-154 | returns 1 and changes nothing when the file cannot be loaded; otherwise returns 0 and merges the file as LoadedSettings says; exactly one notice is shown for an out-of-range language, in the previous language, and none otherwise; lang stays valid |
| Plugin.AStylePlugin.ConfigureResponse | main.c:224-232 | for OK or Apply, optStr becomes the entry text and that record is saved; any other response changes nothing and saves nothing; lang is never touched |
| Plugin.AStylePlugin.MenuItemActivate | main.c:202-221 | as written: an empty document is left alone; otherwise the engine gets the text without its last character; when it yields nothing, the text and caret are unchanged; otherwise the text becomes the result and the caret returns to its former line, or to the last line if the result is shorter |
| Plugin.AStylePlugin.MenuItemActivateWholeText | main.c:202-221 | corrected: the engine gets the whole text; the document is replaced only when it yields a result, with the caret returned to its former line, or to the last line if the result is shorter |

## Left out

- GTK user interface: building the configure dialog, the menu item and its signal wiring
  (`plugin_configure`, `plugin_cleanup`, and `plugin_init` apart from its settings steps).
  Of those steps, the constructor covers the first two: `optStr = NULL` and
  `setDefaultSettings`. The `loadSettings` call that follows is left to the caller, as
  `AStylePlugin.LoadSettings`.
- Key-file file I/O: `g_key_file_load_from_file`, `g_key_file_to_data`, `utils_write_file`
  and the file name. A load is given as the key file it produced, or None when it failed. A
  save is modelled as the key file it writes plus the writer's status, taken as a parameter.
  The text format of the key file and its escaping are not modelled.
- KeyFiles.GetInteger: it reads only canonical decimal text (an optional "-" then digits),
  which is what the integer setter writes. Other text that GLib's `strtol`-based parser would
  accept (leading or trailing blanks, a "+" sign) reads as 0 here.
- The AStyle engine (`AStyleMain`, `AStyleGetVersion`) is an arbitrary function parameter.
  Its error callback (`printf`) and allocation callback (`g_malloc`) are not modelled, nor is
  who frees the buffers. Two memory defects are not represented:
  - The `g_free(optstr)` after the `return` in `formatCode` never runs, so that string leaks.
  - In `loadSettings`, the first `g_key_file_new()` is overwritten by a second one and leaks.
- `formatCode` checks for a NULL document, but `on_menuitem_activate` has already
  dereferenced the document before calling it. MenuItemActivate is therefore given an
  existing document, and pointer dereference is not modelled.
- Plugin.SciGetContents: the text is modelled as characters, while Scintilla counts UTF-8
  bytes. With a buffer of `sci_get_length` the source drops only the last byte. A document
  that ends in a multi-byte character therefore reaches the engine with a stray partial
  character, where the model drops the whole character.
- Plugin.ContentsAsWritten: "the text without its last character" holds in the source only
  when that character is a single byte. Otherwise the source drops its last byte (see
  Plugin.SciGetContents).
- Plugin.AStylePlugin.MenuItemActivate: the engine receives the text minus its last
  character, while the source cuts the last UTF-8 byte. The two differ for a document ending
  in a multi-byte character (see Plugin.SciGetContents).
- The editor (Scintilla, through Geany's `sci_*` wrappers) is modelled only as a text plus a
  caret line:
  - `sci_get_length` is the text's length.
  - `sci_get_contents` follows Geany's documented contract (`Plugin.SciGetContents`). The
    buffer length includes the terminator, and a zero length yields NULL.
  - `sci_set_text` replaces the text, and `sci_goto_line` moves the caret, clamped to the
    last line.
  - Lines end at CR LF, LF or CR.
  - Text lengths beyond the range of `gint` are not modelled.
- `getenv` and the `msgBox` formatting are not modelled. The LANG value is a parameter, and a
  notice is the text `msgBox` would show. Under the language invariant the catalogue never
  returns NULL there, so glibc's "(null)" rendering applies only in the unreachable case.
- Before `plugin_init`, `settings.optStr` is NULL. The constructor stores an empty text
  there, which `setDefaultSettings` overwrites at once.

## Findings

| source | as written | input that shows it | evidently intended | confidence | as-written member | corrected member |
|---|---|---|---|---|---|---|
| main.c:205-206 | `sci_get_contents(sci, sci_get_length(sci))` asks for a buffer of the text's length. That buffer includes the terminator, so the formatter gets every byte but the last (for a document ending in a single-byte character, every character but the last), and an empty document yields NULL and is skipped. | a document holding "int x;\n" and an engine that returns its input: the document becomes "int x;" | a buffer of `sci_get_length(sci) + 1`, so that the whole text is formatted | medium, not executed (rests on Geany's documented `sci_get_contents` contract) | Plugin.AStylePlugin.MenuItemActivate, Plugin.LastCharacterLost | Plugin.AStylePlugin.MenuItemActivateWholeText, Plugin.IdentityEngineKeepsText |
