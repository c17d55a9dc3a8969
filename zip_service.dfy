/** The naming rules of services/zipService.js: which files a project
    download holds, the README it writes, the extension table, and the file
    name of a custom download. The archive encoding itself is not modelled:
    a zip is the list of its entries. */
module ZipService {
  import opened JsString

  /** `{ name, content }`, one archive entry. */
  datatype Entry = Entry(name: string, content: string)

  /** The lower-cased languages `createProjectZip` has a layout for. */
  predicate IsProjectLanguage(key: string)
  {
    key == "html" || key == "javascript" || key == "java" || key == "python" || key == "c" || key == "cpp"
  }

  /** The source file of a listed layout, and for any other key that of the
      `default` case, with the key in place of the spelling. */
  function ProjectSourceName(key: string): string
  {
    if key == "html" then "index.html"
    else if key == "javascript" then "script.js"
    else if key == "java" then "Main.java"
    else if key == "python" then "main.py"
    else if key == "c" then "main.c"
    else if key == "cpp" then "main.cpp"
    else "code." + key
  }

  function ProjectKind(key: string): string
  {
    if key == "html" then "HTML"
    else if key == "javascript" then "JavaScript"
    else if key == "java" then "Java"
    else if key == "python" then "Python"
    else if key == "c" then "C"
    else if key == "cpp" then "C++"
    else "Code"
  }

  /** The source file's name in `createProjectZip`, by lower-cased
      language; any other language is kept as written after `code.`. */
  function SourceName(language: string): string
  {
    var key := ToLower(language);
    if IsProjectLanguage(key) then ProjectSourceName(key) else "code." + language
  }

  /** The project kind the README names. */
  function Kind(language: string): string
  {
    ProjectKind(ToLower(language))
  }

  /** `new Date().toISOString().split('T')[0]`: everything before the first
      `T` of the timestamp. */
  function DateOf(iso: string): (date: string)
    ensures 'T' !in date
    ensures date == iso || StartsWith(iso, date + "T")
  {
    var parts := Split(iso, 'T');
    if 'T' in iso then
      var i := IndexOf(iso, 'T');
      assert parts[0] == iso[..i];
      assert iso[..i + 1] == iso[..i] + "T";
      parts[0]
    else
      parts[0]
  }

  function Readme(kind: string, date: string, language: string): string
  {
    kind + " Project" + "\n" + "Created: " + date + "\n" + "Language: " + language
  }

  /** The entries `createProjectZip(code, language)` archives, given the
      clock's ISO timestamp. */
  function ProjectFiles(code: string, language: string, iso: string): seq<Entry>
  {
    [Entry(SourceName(language), code), Entry("README.txt", Readme(Kind(language), DateOf(iso), language))]
  }

  /** `getFileExtension(language)`: the seven languages of the table, by
      lower-cased name, and `txt` for any other. */
  function FileExtension(language: string): string
  {
    ExtensionOf(ToLower(language))
  }

  /** The `extensions` table, with `txt` for a key it lacks. */
  function ExtensionOf(key: string): string
  {
    if key == "python" then "py"
    else if key == "java" then "java"
    else if key == "c" then "c"
    else if key == "cpp" then "cpp"
    else if key == "javascript" then "js"
    else if key == "html" then "html"
    else if key == "css" then "css"
    else "txt"
  }

  /** The file name of `createCustomDownload`: the custom name, with
      `.<extension>` appended unless it already ends with it. */
  function CustomFilename(customName: string, language: string): string
  {
    var suffix := "." + FileExtension(language);
    if EndsWith(customName, suffix) then customName else customName + suffix
  }

  /** The entries `createCustomDownload(code, language, customName)`
      archives. */
  function CustomDownload(code: string, language: string, customName: string): seq<Entry>
  {
    [Entry(CustomFilename(customName, language), code)]
  }

  // -------------------------------------------------------------- lemmas

  /** A project holds exactly the source, verbatim, then `README.txt` with
      the kind, the date and the language as given; the two entries never
      share a name, so neither overwrites the other in the archive. */
  lemma ProjectFilesSpec(code: string, language: string, iso: string)
    ensures |ProjectFiles(code, language, iso)| == 2
    ensures ProjectFiles(code, language, iso)[0] == Entry(SourceName(language), code)
    ensures ProjectFiles(code, language, iso)[1].name == "README.txt"
    ensures ProjectFiles(code, language, iso)[1].content == Readme(Kind(language), DateOf(iso), language)
    ensures ProjectFiles(code, language, iso)[0].name != ProjectFiles(code, language, iso)[1].name
  {
    assert SourceName(language)[0] != 'R';
  }

  /** The README is three lines, the kind, the date and the language, when
      none of them holds a line break. */
  lemma ReadmeLines(kind: string, date: string, language: string)
    ensures '\n' !in kind && '\n' !in date && '\n' !in language ==>
      Split(Readme(kind, date, language), '\n') == [kind + " Project", "Created: " + date, "Language: " + language]
  {
    if '\n' !in kind && '\n' !in date && '\n' !in language {
      var lines := [kind + " Project", "Created: " + date, "Language: " + language];
      assert Join(lines, '\n') == Readme(kind, date, language) by {
        assert lines[1..] == [lines[1], lines[2]] && lines[1..][1..] == [lines[2]];
        assert Join([lines[2]], '\n') == lines[2];
      }
      forall k | 0 <= k < |lines|
        ensures '\n' !in lines[k]
      {
      }
      SplitJoin(lines, '\n');
    }
  }

  /** The kind holds no line break, nor does the date of a timestamp without
      one. */
  lemma ReadmeFieldsAreLines(language: string, iso: string)
    ensures '\n' !in Kind(language)
    ensures '\n' !in iso ==> '\n' !in DateOf(iso)
  {
    var date := DateOf(iso);
    if date != iso {
      assert date == iso[..|date|];
    }
  }

  /** Names ignore letter case. */
  lemma ProjectNamesIgnoreCase(language: string)
    ensures IsProjectLanguage(ToLower(language)) ==> SourceName(ToLower(language)) == SourceName(language)
    ensures Kind(ToLower(language)) == Kind(language)
  {
    ToLowerIdempotent(language);
  }

  /** Any other language keeps its spelling in `code.<language>` and is a
      `Code` project. */
  lemma OtherLanguageIsCode(language: string)
    ensures !IsProjectLanguage(ToLower(language)) ==> SourceName(language) == "code." + language && Kind(language) == "Code"
  {
  }

  /** A name made of a stem, a dot and an extension ends with the dotted extension. */
  lemma NamedWith(name: string, stem: string, ext: string)
    requires name == stem + "." + ext
    ensures EndsWith(name, "." + ext)
  {
    assert name == stem + ("." + ext);
    EndsWithAppend(stem, "." + ext);
  }

  /** Each listed layout's source file ends with that language's extension. */
  lemma ProjectSourceHasExtension(key: string)
    ensures IsProjectLanguage(key) ==> EndsWith(ProjectSourceName(key), "." + ExtensionOf(key))
  {
    if key == "html" {
      NamedWith(ProjectSourceName(key), "index", ExtensionOf(key));
    } else if key == "javascript" {
      NamedWith(ProjectSourceName(key), "script", ExtensionOf(key));
    } else if key == "java" {
      NamedWith(ProjectSourceName(key), "Main", ExtensionOf(key));
    } else if key == "python" || key == "c" || key == "cpp" {
      NamedWith(ProjectSourceName(key), "main", ExtensionOf(key));
    }
  }

  /** Each listed language's source file ends with its extension. */
  lemma SourceNameHasExtension(language: string)
    ensures IsProjectLanguage(ToLower(language)) ==> EndsWith(SourceName(language), "." + FileExtension(language))
  {
    ProjectSourceHasExtension(ToLower(language));
  }

  /** The extension ignores letter case, and is `txt` for a language outside
      the table. */
  lemma FileExtensionIgnoresCase(language: string)
    ensures FileExtension(ToLower(language)) == FileExtension(language)
    ensures !(ToLower(language) in {"python", "java", "c", "cpp", "javascript", "html", "css"}) ==> FileExtension(language) == "txt"
  {
    ToLowerIdempotent(language);
  }

  /** Every extension is one of the table's seven or `txt`, and holds no
      dot. */
  lemma ExtensionValues(key: string)
    ensures ExtensionOf(key) in {"py", "java", "c", "cpp", "js", "html", "css", "txt"}
    ensures '.' !in ExtensionOf(key)
  {
  }

  /** The file name always ends with `.<extension>`; it is the custom name
      exactly when that already did; and the rule applied to its own output
      changes nothing. */
  lemma CustomFilenameSpec(customName: string, language: string)
    ensures EndsWith(CustomFilename(customName, language), "." + FileExtension(language))
    ensures CustomFilename(customName, language) == customName <==> EndsWith(customName, "." + FileExtension(language))
    ensures CustomFilename(CustomFilename(customName, language), language) == CustomFilename(customName, language)
  {
    var suffix := "." + FileExtension(language);
    var f := CustomFilename(customName, language);
    if !EndsWith(customName, suffix) {
      assert f[|f| - |suffix|..] == suffix;
    }
  }

  /** A custom download is the one entry holding the source verbatim. */
  lemma CustomDownloadSpec(code: string, language: string, customName: string)
    ensures |CustomDownload(code, language, customName)| == 1
    ensures CustomDownload(code, language, customName)[0].content == code
    ensures StartsWith(CustomDownload(code, language, customName)[0].name, customName)
  {
    var f := CustomFilename(customName, language);
    assert f[..|customName|] == customName;
  }
}
