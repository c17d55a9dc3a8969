/** The language registry of the process-backed runner
    (services/JavaScriptRunner.js): the source file name per language, the
    dispatch of `runCode`, and the artifacts `cleanupFiles` removes.

    Paths are names inside the scratch directory (`os.tmpdir()`): the source
    file is its bare file name, the compiled C/C++ binary is that name with
    `.exe` appended, and javac's output is `Main.class`. */
module ProcessRegistry {
  import opened Wrappers
  import opened JsString

  /** The five run paths of `runCode`; each passes its own tag to
      `handleProcess` and `cleanupFiles`. */
  datatype Lang = Python | Java | C | Cpp | JavaScript

  /** The tag string of a run path. */
  function Name(l: Lang): string
  {
    match l
    case Python => "python"
    case Java => "java"
    case C => "c"
    case Cpp => "cpp"
    case JavaScript => "javascript"
  }

  predicate IsCompiled(l: Lang)
  {
    l == Java || l == C || l == Cpp
  }

  /** `getFilename(language)`: a lookup on the lower-cased name, defaulting to
      the python file. */
  function Filename(language: string): string
  {
    var key := ToLower(language);
    if key == "python" then "main.py"
    else if key == "java" then "Main.java"
    else if key == "c" then "main.c"
    else if key == "cpp" then "main.cpp"
    else if key == "javascript" then "script.js"
    else "main.py"
  }

  /** The `switch (language.toLowerCase())` of `runCode`; its default is the
      python path. */
  function Dispatch(language: string): Lang
  {
    match ToLower(language)
    case "python" => Python
    case "java" => Java
    case "c" => C
    case "cpp" => Cpp
    case "javascript" => JavaScript
    case _ => Python
  }

  /** The file a run path expects to find its source in. */
  function SourceFile(l: Lang): string
  {
    match l
    case Python => "main.py"
    case Java => "Main.java"
    case C => "main.c"
    case Cpp => "main.cpp"
    case JavaScript => "script.js"
  }

  predicate IsKnownName(key: string)
  {
    key == "python" || key == "java" || key == "c" || key == "cpp" || key == "javascript"
  }

  /** The file `runCode` writes is the file the dispatched run path compiles
      or runs, for every language identifier, spelled in any case. */
  lemma FilenameMatchesDispatch(language: string)
    ensures Filename(language) == SourceFile(Dispatch(language))
  {
  }

  /** `getFilename` and the dispatch ignore letter case. */
  lemma CaseInsensitive(language: string)
    ensures Filename(ToLower(language)) == Filename(language)
    ensures Dispatch(ToLower(language)) == Dispatch(language)
  {
    ToLowerIdempotent(language);
  }

  /** Any identifier outside the five is run as python from main.py; an
      identifier lower-casing to one of the five gets that language. */
  lemma UnknownLanguageIsPython(language: string)
    ensures !IsKnownName(ToLower(language)) ==> Dispatch(language) == Python && Filename(language) == "main.py"
    ensures IsKnownName(ToLower(language)) ==> Name(Dispatch(language)) == ToLower(language)
  {
  }

  /** What `cleanupFiles(language, filePath)` tries to delete, in order: the
      source, then `<src>.exe` for c/cpp, then `Main.class` for java. */
  function Artifacts(l: Lang, filePath: string): seq<string>
  {
    [filePath]
    + (if l == C || l == Cpp then [filePath + ".exe"] else [])
    + (if l == Java then ["Main.class"] else [])
  }

  /** The file a successful compile leaves in the scratch directory: `javac`
      writes `Main.class`, `gcc`/`g++ -o` the binary `<src>.exe`; the
      interpreted languages produce none. These are exactly the artifacts
      cleanup removes after the source. */
  function CompilerOutput(l: Lang, filePath: string): (r: Option<string>)
    ensures Artifacts(l, filePath) == [filePath] + (if r.Some? then [r.value] else [])
    ensures r.Some? <==> IsCompiled(l)
  {
    if l == C || l == Cpp then Some(filePath + ".exe")
    else if l == Java then Some("Main.class")
    else None
  }

  /** The directory after deleting `arts` in order from `files`; an
      `unlinkSync` that throws (a file in `undeletable`) ends the deletions,
      because the whole body of `cleanupFiles` sits in one try block. */
  function AfterCleanup(files: set<string>, undeletable: set<string>, arts: seq<string>): set<string>
    decreases |arts|
  {
    if arts == [] then files
    else if arts[0] in files && arts[0] in undeletable then files
    else AfterCleanup(files - {arts[0]}, undeletable, arts[1..])
  }

  /** Whether deleting `arts` in order from `files` hits an undeletable file,
      the case in which `cleanupFiles` logs its warning. */
  function CleanupWarns(files: set<string>, undeletable: set<string>, arts: seq<string>): bool
    decreases |arts|
  {
    if arts == [] then false
    else if arts[0] in files && arts[0] in undeletable then true
    else CleanupWarns(files - {arts[0]}, undeletable, arts[1..])
  }

  /** The warning is logged exactly when some artifact was present and undeletable. */
  lemma {:induction false} CleanupWarnsSpec(files: set<string>, undeletable: set<string>, arts: seq<string>)
    ensures CleanupWarns(files, undeletable, arts) <==>
      exists k :: 0 <= k < |arts| && arts[k] in files && arts[k] in undeletable
    decreases |arts|
  {
    if arts != [] && !(arts[0] in files && arts[0] in undeletable) {
      CleanupWarnsSpec(files - {arts[0]}, undeletable, arts[1..]);
      if CleanupWarns(files, undeletable, arts) {
        var j :| 0 <= j < |arts[1..]| && arts[1..][j] in files - {arts[0]} && arts[1..][j] in undeletable;
        assert arts[j + 1] == arts[1..][j];
      } else {
        forall k | 0 <= k < |arts| && arts[k] in files
          ensures arts[k] !in undeletable
        {
          if k > 0 && arts[k] != arts[0] {
            assert arts[1..][k - 1] == arts[k];
          }
        }
      }
    }
  }

  /** Cleanup deletes only artifacts; with nothing undeletable it deletes all of them. */
  lemma {:induction false} AfterCleanupSpec(files: set<string>, undeletable: set<string>, arts: seq<string>)
    ensures AfterCleanup(files, undeletable, arts) <= files
    ensures forall f :: f in files && f !in AfterCleanup(files, undeletable, arts) ==> f in arts
    ensures (forall k :: 0 <= k < |arts| ==> arts[k] !in undeletable) ==>
      AfterCleanup(files, undeletable, arts) == files - set k | 0 <= k < |arts| :: arts[k]
    decreases |arts|
  {
    if arts != [] && !(arts[0] in files && arts[0] in undeletable) {
      AfterCleanupSpec(files - {arts[0]}, undeletable, arts[1..]);
      var rest := set k | 0 <= k < |arts[1..]| :: arts[1..][k];
      var all := set k | 0 <= k < |arts| :: arts[k];
      assert all == {arts[0]} + rest by {
        forall x | x in all ensures x in {arts[0]} + rest {
          var k :| 0 <= k < |arts| && arts[k] == x;
          if k > 0 {
            assert arts[1..][k - 1] == x;
          }
        }
        forall x | x in rest ensures x in all {
          var k :| 0 <= k < |arts[1..]| && arts[1..][k] == x;
          assert arts[k + 1] == x;
        }
      }
    }
  }

  /** Running the cleanup a second time changes nothing. */
  lemma {:induction false} AfterCleanupIdempotent(files: set<string>, undeletable: set<string>, arts: seq<string>)
    ensures AfterCleanup(AfterCleanup(files, undeletable, arts), undeletable, arts)
         == AfterCleanup(files, undeletable, arts)
    decreases |arts|
  {
    if arts != [] && !(arts[0] in files && arts[0] in undeletable) {
      var r := AfterCleanup(files - {arts[0]}, undeletable, arts[1..]);
      AfterCleanupIdempotent(files - {arts[0]}, undeletable, arts[1..]);
      AfterCleanupSpec(files - {arts[0]}, undeletable, arts[1..]);
      assert r - {arts[0]} == r;
    }
  }

  /** The scratch directory the process-backed runner writes its sources to
      and deletes its artifacts from. */
  class ScratchDir {
    var files: set<string>
    /** Files whose deletion throws (permissions, a file in use). */
    const undeletable: set<string>

    constructor (initial: set<string>, locked: set<string>)
      ensures files == initial && undeletable == locked
    {
      files := initial;
      undeletable := locked;
    }

    /** `writeFileSync(filePath, code)`. */
    method Write(name: string)
      modifies this
      ensures files == old(files) + {name}
    {
      files := files + {name};
    }

    /** `cleanupFiles(language, filePath)`: every deletion is guarded by
        `existsSync`, and an exception is caught and only logged, so the method
        always returns; `warned` says whether it logged a warning. */
    method Cleanup(l: Lang, filePath: string) returns (warned: bool)
      modifies this
      ensures files == AfterCleanup(old(files), undeletable, Artifacts(l, filePath))
      ensures warned == CleanupWarns(old(files), undeletable, Artifacts(l, filePath))
      ensures warned <==> (exists k :: 0 <= k < |Artifacts(l, filePath)| &&
                             Artifacts(l, filePath)[k] in old(files) && Artifacts(l, filePath)[k] in undeletable)
    {
      ghost var arts := Artifacts(l, filePath);
      CleanupWarnsSpec(files, undeletable, arts);
      assert arts[0] == filePath;
      warned := false;
      if filePath in files {
        if filePath in undeletable {
          warned := true;
          return;
        }
        files := files - {filePath};
      } else {
        assert files - {filePath} == files;
      }
      ghost var rest := arts[1..];
      assert AfterCleanup(old(files), undeletable, arts) == AfterCleanup(files, undeletable, rest);
      assert CleanupWarns(old(files), undeletable, arts) == CleanupWarns(files, undeletable, rest);
      if l == C || l == Cpp {
        var exePath := filePath + ".exe";
        assert rest[0] == exePath;
        if exePath in files {
          if exePath in undeletable {
            warned := true;
            return;
          }
          files := files - {exePath};
        } else {
          assert files - {exePath} == files;
        }
        rest := rest[1..];
      }
      assert AfterCleanup(old(files), undeletable, arts) == AfterCleanup(files, undeletable, rest);
      assert CleanupWarns(old(files), undeletable, arts) == CleanupWarns(files, undeletable, rest);
      if l == Java {
        var classPath := "Main.class";
        assert rest[0] == classPath;
        if classPath in files {
          if classPath in undeletable {
            warned := true;
            return;
          }
          files := files - {classPath};
        } else {
          assert files - {classPath} == files;
        }
        rest := rest[1..];
      }
      assert AfterCleanup(old(files), undeletable, arts) == AfterCleanup(files, undeletable, rest);
      assert CleanupWarns(old(files), undeletable, arts) == CleanupWarns(files, undeletable, rest);
      assert rest == [];
    }
  }
}
