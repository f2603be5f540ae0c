/**
 * Path strings as the explorer builds and takes them apart: joined with the
 * platform separator, split on it to go up, split on either slash to find a
 * file name, and split on `.` to find an extension.
 */
module Paths {
  import opened Results
  import opened Text

  /** `NL_OS === 'Windows'` selects the Windows rules; every other value the others. */
  datatype Platform = Windows | Posix

  function Separator(platform: Platform): char {
    if platform == Windows then '\\' else '/'
  }

  /** `${dir}\\${name}` on Windows, `${dir}/${name}` elsewhere. */
  function Child(platform: Platform, dir: string, name: string): string {
    dir + [Separator(platform)] + name
  }

  /** The listing's root test: a path of at most three characters on Windows ("C:\"), exactly "/" elsewhere. */
  predicate IsRoot(platform: Platform, path: string) {
    if platform == Windows then |path| <= 3 else path == "/"
  }

  /**
   * `navigateToParentDirectory`: None when the source returns without moving
   * (Windows, and the path splits into at most two pieces); otherwise all
   * pieces but the last, joined again, with the empty result replaced by the
   * separator.
   */
  function Parent(platform: Platform, path: string): Option<string> {
    var sep := Separator(platform);
    var parts := Split(path, {sep});
    if platform == Windows && |parts| <= 2 then None
    else
      var joined := Join(parts[..|parts| - 1], sep);
      Some(if joined == "" then [sep] else joined)
  }

  /** `path.split(/[\\/]/).pop()` (see AfterLastIsLastPiece) */
  function Basename(path: string): string {
    AfterLast(path, {'/', '\\'})
  }

  /** `name.split('.').pop().toLowerCase()` (see AfterLastIsLastPiece) */
  function Extension(name: string): string {
    ToLower(AfterLast(name, {'.'}))
  }

  /** A string holding a separator splits into at least two pieces. */
  lemma SeparatorGivesTwoPieces(s: string, c: char)
    requires c in s
    ensures |Split(s, {c})| >= 2
  {
    if |Split(s, {c})| == 1 {
      SplitSingle(s, {c});
    }
  }

  /**
   * Going up from a directory the explorer entered returns to where it came
   * from, provided the origin is not empty and, on Windows, itself contains a
   * separator (otherwise the source treats the child as a drive root).
   */
  lemma ParentOfChild(platform: Platform, dir: string, name: string)
    requires dir != [] && Free(name, {Separator(platform)})
    requires platform == Windows ==> Separator(platform) in dir
    ensures Parent(platform, Child(platform, dir, name)) == Some(dir)
  {
    var sep := Separator(platform);
    SplitAround(dir, sep, name, {sep});
    SplitFree(name, {sep});
    var parts := Split(Child(platform, dir, name), {sep});
    assert parts == Split(dir, {sep}) + [name];
    assert parts[..|parts| - 1] == Split(dir, {sep});
    JoinSplit(dir, sep);
    if platform == Windows {
      SeparatorGivesTwoPieces(dir, sep);
    }
  }

  /** Joining all pieces is joining all but the last, then the separator and the last. */
  lemma JoinInitLast(parts: seq<string>, sep: char)
    requires |parts| >= 2
    ensures Join(parts, sep) == Join(parts[..|parts| - 1], sep) + [sep] + Last(parts)
  {
    var n := |parts|;
    assert parts == parts[..n - 1] + [parts[n - 1]];
    JoinSnoc(parts[..n - 1], parts[n - 1], sep);
  }

  /**
   * What going up produces: never the empty string, and either the root
   * separator or a path that, joined with the last piece, gives back the
   * original path.
   */
  lemma ParentShape(platform: Platform, path: string)
    requires Parent(platform, path).Some?
    ensures var q := Parent(platform, path).value;
      var sep := Separator(platform);
      q != [] && (q == [sep] || path == q + [sep] + Last(Split(path, {sep})))
  {
    var sep := Separator(platform);
    var parts := Split(path, {sep});
    var n := |parts|;
    var init := parts[..n - 1];
    var joined := Join(init, sep);
    assert Parent(platform, path) == Some(if joined == "" then [sep] else joined);
    if joined != "" {
      assert n >= 2;
      JoinSplit(path, sep);
      JoinInitLast(parts, sep);
    }
  }

  /** On Windows the parent of `C:\Users` is no move at all: it splits into two pieces. */
  lemma WindowsDriveChildStays()
    ensures Parent(Windows, "C:\\Users") == None
  {
    SplitAround("C:", '\\', "Users", {'\\'});
    SplitFree("C:", {'\\'});
    SplitFree("Users", {'\\'});
    assert "C:" + ['\\'] + "Users" == "C:\\Users";
  }

  /**
   * On Windows a four-character path such as `C:\a` is not a root, so the
   * listing offers the parent entry, yet clicking it does not move.
   */
  lemma WindowsParentEntryDeadEnd()
    ensures !IsRoot(Windows, "C:\\a") && Parent(Windows, "C:\\a") == None
  {
    SplitAround("C:", '\\', "a", {'\\'});
    SplitFree("C:", {'\\'});
    SplitFree("a", {'\\'});
    assert "C:" + ['\\'] + "a" == "C:\\a";
  }

  /** Elsewhere, "/" is its own parent and "/home" goes up to "/". */
  lemma PosixParentOfTopLevel()
    ensures Parent(Posix, "/") == Some("/")
    ensures Parent(Posix, "/home") == Some("/")
  {
    SplitAround([], '/', [], {'/'});
    assert [] + ['/'] + [] == "/";
    SplitAround([], '/', "home", {'/'});
    SplitFree("home", {'/'});
    assert [] + ['/'] + "home" == "/home";
  }

  /** Entering `etc` from "/" gives "//etc"; going up from there gives "/" back. */
  lemma PosixChildOfRoot()
    ensures Child(Posix, "/", "etc") == "//etc"
    ensures Parent(Posix, "//etc") == Some("/")
  {
    SplitFree("etc", {'/'});
    ParentOfChild(Posix, "/", "etc");
  }

  /** The file name of a path built by Child is the name it was built from. */
  lemma BasenameOfChild(platform: Platform, dir: string, name: string)
    requires Free(name, {'/', '\\'})
    ensures Basename(Child(platform, dir, name)) == name
  {
    AfterLastAfterSeparator(dir, Separator(platform), name, {'/', '\\'});
  }

  /** A file name holds no slash of either kind and ends the path. */
  lemma BasenameShape(path: string)
    ensures Free(Basename(path), {'/', '\\'})
    ensures |Basename(path)| <= |path| && path[|path| - |Basename(path)|..] == Basename(path)
  {
    AfterLastShape(path, {'/', '\\'});
  }

  /**
   * An extension holds no dot and no upper-case letter; a name without a dot
   * is its own (lower-cased) extension.
   */
  lemma ExtensionShape(name: string)
    ensures Free(Extension(name), {'.'})
    ensures forall i :: 0 <= i < |Extension(name)| ==> !('A' <= Extension(name)[i] <= 'Z')
    ensures Free(name, {'.'}) ==> Extension(name) == ToLower(name)
  {
    AfterLastShape(name, {'.'});
    if Free(name, {'.'}) {
      AfterLastFree(name, {'.'});
    }
  }

  /** The extension of `stem.ext` is `ext`, lower-cased, when `ext` has no dot. */
  lemma ExtensionAfterDot(stem: string, ext: string)
    requires Free(ext, {'.'})
    ensures Extension(stem + "." + ext) == ToLower(ext)
  {
    AfterLastAfterSeparator(stem, '.', ext, {'.'});
  }

  /** The file name of the Windows folder `C:\Users` is `Users`. */
  lemma BasenameOfDriveFolder()
    ensures Basename("C:\\Users") == "Users"
  {
    AfterLastAfterSeparator("C:", '\\', "Users", {'/', '\\'});
    assert "C:" + ['\\'] + "Users" == "C:\\Users";
  }
}
