/** The translation manager: a table of per-language dictionaries read from
    JSON files in the `language` folder, a current language, and a lookup that
    falls back from the current language to English and then to the input. */
module Translation {
  import opened Wrappers
  import opened Text

  /** A language file's object of translations. */
  type Dictionary = map<string, string>

  /** What `json.load` gives for a language file: `null`, an object, or any other
      JSON value (a list, a number, a string). */
  datatype Json = Null | Object(entries: Dictionary) | Other

  const LanguageFolder := "language"
  const JsonSuffix := ".json"
  const English := "en"

  // ---------------------------------------------------------------------------
  // Filling the table
  // ---------------------------------------------------------------------------

  /** The names the constructor picks out of the listing. */
  predicate IsLanguageFile(file: string) {
    EndsWith(file, JsonSuffix)
  }

  /** `str(Path(file).with_suffix(""))` for a name ending in `.json`: the suffix is
      dropped, except from the bare name `.json`, which has no suffix. */
  function LanguageName(file: string): string
    requires IsLanguageFile(file)
  {
    if |file| == |JsonSuffix| then file else file[..|file| - |JsonSuffix|]
  }

  /** The language name with `.json` appended is the file name, except for the
      bare name `.json`, which is its own language name. */
  lemma LanguageNameRestores(file: string)
    requires IsLanguageFile(file)
    ensures file == JsonSuffix ==> LanguageName(file) == file
    ensures file != JsonSuffix ==> LanguageName(file) + JsonSuffix == file
  {
    if file != JsonSuffix {
      assert file[..|file| - |JsonSuffix|] + file[|file| - |JsonSuffix|..] == file;
    }
  }

  /** The path the constructor opens for a listed name. */
  function FilePath(file: string): string {
    JoinPath(LanguageFolder, file)
  }

  /** A listed name that adds an entry: it ends in `.json`, and opening and
      parsing it succeeded. `loaded` maps each path whose `open` and `json.load`
      succeed to the parsed value; a path missing from it raised, which the
      constructor catches and reports. */
  predicate Loads(file: string, loaded: map<string, Json>) {
    IsLanguageFile(file) && FilePath(file) in loaded
  }

  /** One iteration of the constructor's loop. */
  function Step(table: map<string, Json>, file: string, loaded: map<string, Json>): map<string, Json> {
    if Loads(file, loaded) then table[LanguageName(file) := loaded[FilePath(file)]] else table
  }

  /** The table after the loop has gone through `files` in order. */
  function Fill(table: map<string, Json>, files: seq<string>, loaded: map<string, Json>): map<string, Json>
    decreases |files|
  {
    if files == [] then table
    else Step(Fill(table, files[..|files| - 1], loaded), files[|files| - 1], loaded)
  }

  /** A language has an entry after the loop exactly when it had one before or a
      listed file that loads is named after it. */
  lemma {:induction false} FillDomain(table: map<string, Json>, files: seq<string>, loaded: map<string, Json>, lang: string)
    ensures lang in Fill(table, files, loaded)
        <==> lang in table || exists i :: 0 <= i < |files| && Loads(files[i], loaded) && LanguageName(files[i]) == lang
    decreases |files|
  {
    if files != [] {
      var init := files[..|files| - 1];
      FillDomain(table, init, loaded, lang);
      assert forall i :: 0 <= i < |init| ==> init[i] == files[i];
      if lang in table || exists i :: 0 <= i < |files| && Loads(files[i], loaded) && LanguageName(files[i]) == lang {
        if !(lang in table) && !(exists i :: 0 <= i < |init| && Loads(init[i], loaded) && LanguageName(init[i]) == lang) {
          var i :| 0 <= i < |files| && Loads(files[i], loaded) && LanguageName(files[i]) == lang;
          assert i == |files| - 1;
        }
      }
    }
  }

  /** The entry of a language comes from the last listed file named after it
      that loads: a later file of the same language overwrites an earlier one. */
  lemma {:induction false} FillLatest(table: map<string, Json>, files: seq<string>, loaded: map<string, Json>, i: nat)
    requires i < |files| && Loads(files[i], loaded)
    requires forall j :: i < j < |files| && Loads(files[j], loaded) ==> LanguageName(files[j]) != LanguageName(files[i])
    ensures LanguageName(files[i]) in Fill(table, files, loaded)
    ensures Fill(table, files, loaded)[LanguageName(files[i])] == loaded[FilePath(files[i])]
    decreases |files|
  {
    var init := files[..|files| - 1];
    var last := files[|files| - 1];
    assert Fill(table, files, loaded) == Step(Fill(table, init, loaded), last, loaded);
    if i < |files| - 1 {
      assert init[i] == files[i];
      forall j | i < j < |init| && Loads(init[j], loaded)
        ensures LanguageName(init[j]) != LanguageName(init[i])
      {
        assert init[j] == files[j];
      }
      FillLatest(table, init, loaded, i);
      assert !Loads(last, loaded) || LanguageName(last) != LanguageName(files[i]);
    }
  }

  /** A language no listed, loading file is named after keeps its entry, or its
      absence. */
  lemma {:induction false} FillKeeps(table: map<string, Json>, files: seq<string>, loaded: map<string, Json>, lang: string)
    requires forall i :: 0 <= i < |files| && Loads(files[i], loaded) ==> LanguageName(files[i]) != lang
    ensures lang in Fill(table, files, loaded) <==> lang in table
    ensures lang in table ==> Fill(table, files, loaded)[lang] == table[lang]
    decreases |files|
  {
    if files != [] {
      var init := files[..|files| - 1];
      assert forall i :: 0 <= i < |init| ==> init[i] == files[i];
      FillKeeps(table, init, loaded, lang);
    }
  }

  // ---------------------------------------------------------------------------
  // Translating
  // ---------------------------------------------------------------------------

  /** `dictionary is not None` for the entry of `lang`: a missing entry and a
      file holding `null` both count as absent. */
  predicate Has(translations: map<string, Json>, lang: string) {
    lang in translations && translations[lang] != Null
  }

  /** The dictionary `translate` settles on: the current language's, else
      English's, else none. */
  function Chosen(translations: map<string, Json>, language: string): (d: Option<Json>)
    ensures d.None? <==> !Has(translations, language) && !Has(translations, English)
    ensures Has(translations, language) ==> d == Some(translations[language])
    ensures !Has(translations, language) && Has(translations, English) ==> d == Some(translations[English])
  {
    if Has(translations, language) then Some(translations[language])
    else if Has(translations, English) then Some(translations[English])
    else None
  }

  /** What `translate` returns, with `None` for the `AttributeError` raised when
      the chosen file holds a JSON value other than an object. `formatMap` is
      `str.format_map`, giving `None` where it raises; the exception is caught
      and the unformatted text returned. */
  function Translated(translations: map<string, Json>, language: string, input: string,
                      mapping: Option<map<string, string>>,
                      formatMap: (string, map<string, string>) -> Option<string>): (r: Option<string>)
    ensures Chosen(translations, language).None? ==> r == Some(input)
    ensures Chosen(translations, language) == Some(Other) <==> r.None?
    ensures Chosen(translations, language).Some? && Chosen(translations, language).value.Object? ==>
      var d := Chosen(translations, language).value.entries;
      var looked := if input in d then d[input] else input;
      r.Some? &&
      (mapping.None? ==> r.value == looked) &&
      (mapping.Some? && formatMap(looked, mapping.value).None? ==> r.value == looked) &&
      (mapping.Some? && formatMap(looked, mapping.value).Some? ==> r.value == formatMap(looked, mapping.value).value)
  {
    match Chosen(translations, language)
    case None => Some(input)
    case Some(json) =>
      if !json.Object? then None
      else
        var res := if input in json.entries then json.entries[input] else input;
        if mapping.None? then Some(res)
        else Some(formatMap(res, mapping.value).GetOr(res))
  }

  /** As long as the current language has a dictionary, the English one plays no part. */
  lemma EnglishIrrelevant(translations: map<string, Json>, language: string, english: Json, input: string,
                          mapping: Option<map<string, string>>,
                          formatMap: (string, map<string, string>) -> Option<string>)
    requires language != English && Has(translations, language)
    ensures Translated(translations[English := english], language, input, mapping, formatMap)
         == Translated(translations, language, input, mapping, formatMap)
  {
    assert Has(translations[English := english], language);
  }

  /** When only object files have been read, `translate` never raises. */
  lemma TranslateReturns(translations: map<string, Json>, language: string, input: string,
                         mapping: Option<map<string, string>>,
                         formatMap: (string, map<string, string>) -> Option<string>)
    requires forall lang :: lang in translations ==> translations[lang] != Other
    ensures Translated(translations, language, input, mapping, formatMap).Some?
  {
    if Has(translations, language) {
      assert translations[language] != Other;
    } else if Has(translations, English) {
      assert translations[English] != Other;
    }
  }

  /** A language file read last for the current language decides the
      translation, whatever was in the table before. */
  lemma TranslateAfterFill(table: map<string, Json>, files: seq<string>, loaded: map<string, Json>, i: nat,
                           input: string, mapping: Option<map<string, string>>,
                           formatMap: (string, map<string, string>) -> Option<string>)
    requires i < |files| && Loads(files[i], loaded) && loaded[FilePath(files[i])].Object?
    requires forall j :: i < j < |files| && Loads(files[j], loaded) ==> LanguageName(files[j]) != LanguageName(files[i])
    ensures var d := loaded[FilePath(files[i])].entries;
      Translated(Fill(table, files, loaded), LanguageName(files[i]), input, None, formatMap)
      == Some(if input in d then d[input] else input)
  {
    FillLatest(table, files, loaded, i);
  }

  // ---------------------------------------------------------------------------
  // The objects
  // ---------------------------------------------------------------------------

  /** The class attribute `translations`: one table shared by every manager. */
  class TranslationTable {
    var translations: map<string, Json>

    constructor()
      ensures translations == map[]
    {
      translations := map[];
    }
  }

  /** A `TranslationManager` instance over the shared table. */
  class TranslationManager {
    const table: TranslationTable
    var language: string

    /** `__init__`: `files` is what `os.listdir("language")` returns. Every
        entry is written into the shared table; nothing else in it changes. */
    constructor(table: TranslationTable, files: seq<string>, loaded: map<string, Json>)
      modifies table
      ensures this.table == table && language == English
      ensures table.translations == Fill(old(table.translations), files, loaded)
    {
      this.table := table;
      language := English;
      new;
      for i := 0 to |files|
        invariant language == English
        invariant table.translations == Fill(old(table.translations), files[..i], loaded)
      {
        assert files[..i + 1][..i] == files[..i];
        var file := files[i];
        if EndsWith(file, JsonSuffix) {
          var filePath := JoinPath(LanguageFolder, file);
          var langName := LanguageName(file);
          if filePath in loaded {
            table.translations := table.translations[langName := loaded[filePath]];
          }
        }
      }
      assert files[..|files|] == files;
    }

    /** `set_language`: only the current language changes. */
    method SetLanguage(language: string)
      modifies this
      ensures this.language == language
      ensures unchanged(table)
    {
      this.language := language;
    }

    /** `translate`, which reads the table and the current language and changes neither. */
    function Translate(input: string, mapping: Option<map<string, string>>,
                       formatMap: (string, map<string, string>) -> Option<string>): Option<string>
      reads this, table
    {
      Translated(table.translations, language, input, mapping, formatMap)
    }
  }
}
