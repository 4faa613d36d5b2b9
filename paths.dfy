/** The parts of `pathlib.Path` the ingestion pipeline reads: the final component
    (`name`), its extension (`suffix`) and the name without it (`stem`). A path is taken
    as written: separators are `/`, with no normalisation. */
module Paths {
  import opened PyStr

  /** `s.rfind(c)`: the last index holding `c`, or -1. */
  function RFind(s: string, c: char): (i: int)
    ensures -1 <= i < |s|
    ensures i >= 0 ==> s[i] == c
    ensures forall j :: i < j < |s| ==> s[j] != c
    decreases |s|
  {
    if s == [] then -1 else if s[|s| - 1] == c then |s| - 1 else RFind(s[..|s| - 1], c)
  }

  /** `Path(path).name`: the text after the last separator. */
  function Name(path: string): (name: string)
    ensures |name| <= |path| && name == path[|path| - |name|..]
    ensures forall j :: 0 <= j < |name| ==> name[j] != '/'
    ensures |name| < |path| ==> path[|path| - |name| - 1] == '/'
  {
    var i := RFind(path, '/');
    path[i + 1..]
  }

  /** The dot that starts the suffix: the last dot, unless it is the first or the last
      character of the name. */
  predicate HasSuffix(name: string) {
    0 < RFind(name, '.') < |name| - 1
  }

  /** `path.suffix`. */
  function Suffix(name: string): string {
    if HasSuffix(name) then name[RFind(name, '.')..] else ""
  }

  /** `path.stem`. */
  function Stem(name: string): string {
    if HasSuffix(name) then name[..RFind(name, '.')] else name
  }

  /** The stem and the suffix split the name: the suffix is empty, or a dot followed by
      at least one character and no further dot, and the stem is then not empty. */
  lemma StemSuffix(name: string)
    ensures Stem(name) + Suffix(name) == name
    ensures Suffix(name) == [] || (|Suffix(name)| >= 2 && Suffix(name)[0] == '.' && Stem(name) != [])
    ensures forall j :: 0 < j < |Suffix(name)| ==> Suffix(name)[j] != '.'
  {
    if HasSuffix(name) {
      var i := RFind(name, '.');
      assert name[..i] + name[i..] == name;
    }
  }

  /** The name of a file in a directory is the file's own name. */
  lemma NameInDirectory(dir: string, file: string)
    requires forall j :: 0 <= j < |file| ==> file[j] != '/'
    ensures Name(dir + "/" + file) == file
  {
    var path := dir + "/" + file;
    assert path[|dir|] == '/';
    assert forall j :: |dir| < j < |path| ==> path[j] == file[j - |dir| - 1];
    assert RFind(path, '/') == |dir|;
    assert path[|dir| + 1..] == file;
  }

  /** A name `stem.ext`, with a non-empty stem and a non-empty extension without dots,
      has suffix `.ext` and stem `stem`. */
  lemma SplitName(stem: string, ext: string)
    requires stem != [] && ext != []
    requires forall j :: 0 <= j < |ext| ==> ext[j] != '.'
    ensures Suffix(stem + "." + ext) == "." + ext
    ensures Stem(stem + "." + ext) == stem
  {
    var name := stem + "." + ext;
    assert name[|stem|] == '.';
    assert forall j :: |stem| < j < |name| ==> name[j] == ext[j - |stem| - 1];
    var i := RFind(name, '.');
    assert i == |stem|;
    assert name[i..] == "." + ext;
    assert name[..i] == stem;
  }

  /** A hidden file such as `.md` has no suffix: its only dot comes first. */
  lemma HiddenFileNoSuffix(ext: string)
    requires forall j :: 0 <= j < |ext| ==> ext[j] != '.'
    ensures Suffix("." + ext) == ""
    ensures Stem("." + ext) == "." + ext
  {
    var name := "." + ext;
    assert name[0] == '.';
    assert forall j :: 0 < j < |name| ==> name[j] == ext[j - 1];
    assert RFind(name, '.') == 0;
  }

  /** How `ingest_path` reads a file, decided by its lower-cased suffix. */
  datatype Kind = Pdf | PlainText | Unsupported

  function KindOf(path: string): (k: Kind)
    ensures k == Pdf <==> Lower(Suffix(Name(path))) == ".pdf"
    ensures k == PlainText <==> Lower(Suffix(Name(path))) in {".txt", ".md"}
  {
    var s := Lower(Suffix(Name(path)));
    if s == ".pdf" then Pdf else if s == ".txt" || s == ".md" then PlainText else Unsupported
  }

  /** A file `stem.ext` in a directory has suffix `.ext` and stem `stem`. */
  lemma FileSuffix(dir: string, stem: string, suffix: string)
    requires stem != [] && |suffix| >= 2 && suffix[0] == '.'
    requires forall j :: 0 <= j < |stem| ==> stem[j] != '/'
    requires forall j :: 0 < j < |suffix| ==> suffix[j] != '/' && suffix[j] != '.'
    ensures Suffix(Name(dir + "/" + stem + suffix)) == suffix
    ensures Stem(Name(dir + "/" + stem + suffix)) == stem
  {
    var ext := suffix[1..];
    assert suffix == "." + ext;
    var file := stem + suffix;
    assert file == stem + "." + ext;
    assert forall j :: 0 <= j < |file| ==> file[j] != '/' by {
      forall j | 0 <= j < |file|
        ensures file[j] != '/'
      {
        if j >= |stem| {
          assert file[j] == suffix[j - |stem|];
        }
      }
    }
    assert dir + "/" + stem + suffix == dir + "/" + file;
    NameInDirectory(dir, file);
    SplitName(stem, ext);
  }

  /** The check ignores case: `NOTES.MD` is read as text. */
  lemma UpperCaseText(dir: string, stem: string)
    requires stem != [] && forall j :: 0 <= j < |stem| ==> stem[j] != '/'
    ensures KindOf(dir + "/" + stem + ".MD") == PlainText
  {
    FileSuffix(dir, stem, ".MD");
    LowerSuffixes();
  }

  /** The check ignores case: `Report.PDF` is read as a PDF. */
  lemma UpperCasePdf(dir: string, stem: string)
    requires stem != [] && forall j :: 0 <= j < |stem| ==> stem[j] != '/'
    ensures KindOf(dir + "/" + stem + ".PDF") == Pdf
  {
    FileSuffix(dir, stem, ".PDF");
    LowerSuffixes();
  }

  lemma LowerSuffixes()
    ensures Lower(".MD") == ".md" && Lower(".PDF") == ".pdf"
  {
    assert Lower(".MD") == ".md";
    assert Lower(".PDF") == ".pdf";
  }

  /** A file named just `.md` or `.txt` is skipped. */
  lemma HiddenFileSkipped(dir: string)
    ensures KindOf(dir + "/.md") == Unsupported
    ensures KindOf(dir + "/.txt") == Unsupported
  {
    assert dir + "/.md" == dir + "/" + ("." + "md");
    assert dir + "/.txt" == dir + "/" + ("." + "txt");
    NameInDirectory(dir, "." + "md");
    NameInDirectory(dir, "." + "txt");
    HiddenFileNoSuffix("md");
    HiddenFileNoSuffix("txt");
  }
}
