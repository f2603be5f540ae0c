/**
 * The host filesystem as the explorer reaches it through Neutralino's
 * `filesystem` calls. Paths are compared as exact strings (the model does
 * no normalisation); a directory's listing is kept in the order the host
 * reports it, which is not sorted.
 */
module FileSystem {
  import opened Results
  import opened Text
  import opened Paths

  /** `entry.type` in a `readDirectory` result. */
  datatype Kind = Directory | File

  /** One raw `readDirectory` result, `{entry, type}`. */
  datatype Entry = Entry(name: string, kind: Kind)

  /**
   * files: the text of every file; dirs: the raw listing of every directory;
   * locked: paths the host refuses to write or remove (permissions, locks).
   */
  datatype Volume = Volume(files: map<string, string>, dirs: map<string, seq<Entry>>, locked: set<string>)

  /** The directory a path lies in and its last piece: the path split at its last separator. */
  function ParentAndName(platform: Platform, path: string): Option<(string, string)>
    decreases |path|
  {
    if path == [] then None
    else if Last(path) == Separator(platform) then Some((path[..|path| - 1], []))
    else match ParentAndName(platform, path[..|path| - 1])
      case None => None
      case Some((dir, name)) => Some((dir, name + [Last(path)]))
  }

  lemma {:induction false} ParentAndNameOfChild(platform: Platform, dir: string, name: string)
    requires Free(name, {Separator(platform)})
    ensures ParentAndName(platform, Child(platform, dir, name)) == Some((dir, name))
    decreases |name|
  {
    var path := Child(platform, dir, name);
    if name == [] {
      assert path[..|path| - 1] == dir;
    } else {
      var shorter := name[..|name| - 1];
      assert path[..|path| - 1] == Child(platform, dir, shorter);
      ParentAndNameOfChild(platform, dir, shorter);
      assert shorter + [Last(path)] == name;
    }
  }

  /** `readDirectory(path)` */
  function DirectoryOf(v: Volume, path: string): Outcome<seq<Entry>> {
    if path in v.dirs then Ok(v.dirs[path]) else Err("cannot read directory " + path)
  }

  /** `readFile(path)` and `readBinaryFile(path)` */
  function FileOf(v: Volume, path: string): Outcome<string> {
    if path in v.files then Ok(v.files[path]) else Err("cannot read file " + path)
  }

  /** A listing with a file entry `name`, added at the end if it was not there. */
  function WithFile(entries: seq<Entry>, name: string): seq<Entry> {
    if Entry(name, File) in entries then entries else entries + [Entry(name, File)]
  }

  /** A listing without any file entry `name`, the rest in the same order. */
  function WithoutFile(entries: seq<Entry>, name: string): (r: seq<Entry>)
    ensures Entry(name, File) !in r
    ensures forall e :: e in entries && e != Entry(name, File) ==> e in r
  {
    if entries == [] then []
    else (if entries[0] == Entry(name, File) then [] else [entries[0]]) + WithoutFile(entries[1..], name)
  }

  /**
   * `writeFile(path, content)` / `writeBinaryFile(path, content)`: refused for
   * a locked path, a directory, or a path whose directory does not exist;
   * otherwise the file holds `content` and its directory lists it.
   */
  function AfterWrite(platform: Platform, v: Volume, path: string, content: string): Outcome<Volume> {
    if path in v.locked || path in v.dirs then Err("cannot write file " + path)
    else match ParentAndName(platform, path)
      case None => Err("cannot write file " + path)
      case Some((dir, name)) =>
        if dir !in v.dirs then Err("cannot write file " + path)
        else Ok(Volume(v.files[path := content], v.dirs[dir := WithFile(v.dirs[dir], name)], v.locked))
  }

  /**
   * `remove(path)` for a file: refused for a locked or missing path;
   * otherwise the file is gone from the files and from its directory's listing.
   */
  function AfterRemove(platform: Platform, v: Volume, path: string): Outcome<Volume> {
    if path in v.locked || path !in v.files then Err("cannot remove " + path)
    else
      var dirs := match ParentAndName(platform, path)
        case None => v.dirs
        case Some((dir, name)) => if dir in v.dirs then v.dirs[dir := WithoutFile(v.dirs[dir], name)] else v.dirs;
      Ok(Volume(v.files - {path}, dirs, v.locked))
  }

  /**
   * Writing `dir` + separator + `name` succeeds exactly when the target is not
   * locked, is not a directory and `dir` exists; afterwards the file holds the
   * content, the listing of `dir` shows it, and no other file changed.
   */
  lemma WriteChild(platform: Platform, v: Volume, dir: string, name: string, content: string)
    requires Free(name, {Separator(platform)})
    ensures var path := Child(platform, dir, name);
      AfterWrite(platform, v, path, content).Ok? <==> path !in v.locked && path !in v.dirs && dir in v.dirs
    ensures var path := Child(platform, dir, name);
      AfterWrite(platform, v, path, content).Ok? ==>
        var w := AfterWrite(platform, v, path, content).value;
        && FileOf(w, path) == Ok(content)
        && dir in w.dirs && Entry(name, File) in w.dirs[dir]
        && (forall q :: q != path ==> FileOf(w, q) == FileOf(v, q))
  {
    ParentAndNameOfChild(platform, dir, name);
  }

  /**
   * Removing `dir` + separator + `name` succeeds exactly when the file exists
   * and is not locked; afterwards it can no longer be read and the listing of
   * `dir` no longer shows it.
   */
  lemma RemoveChild(platform: Platform, v: Volume, dir: string, name: string)
    requires Free(name, {Separator(platform)})
    ensures var path := Child(platform, dir, name);
      AfterRemove(platform, v, path).Ok? <==> path !in v.locked && path in v.files
    ensures var path := Child(platform, dir, name);
      AfterRemove(platform, v, path).Ok? ==>
        var w := AfterRemove(platform, v, path).value;
        && FileOf(w, path).Err?
        && (dir in v.dirs ==> Entry(name, File) !in w.dirs[dir])
        && (forall q :: q != path ==> FileOf(w, q) == FileOf(v, q))
  {
    ParentAndNameOfChild(platform, dir, name);
  }

  /** The host behind the Neutralino calls the explorer makes. */
  class Host {
    const platform: Platform
    /** The answer of `os.getPath('documents')`: the path, or the error's message. */
    const documents: Outcome<string>
    var volume: Volume

    constructor (platform: Platform, documents: Outcome<string>, volume: Volume)
      ensures this.platform == platform && this.documents == documents && this.volume == volume
    {
      this.platform := platform;
      this.documents := documents;
      this.volume := volume;
    }

    method ReadDirectory(path: string) returns (r: Outcome<seq<Entry>>)
      ensures r == DirectoryOf(volume, path)
    {
      r := DirectoryOf(volume, path);
    }

    method ReadFile(path: string) returns (r: Outcome<string>)
      ensures r == FileOf(volume, path)
    {
      r := FileOf(volume, path);
    }

    method WriteFile(path: string, content: string) returns (r: Outcome<()>)
      modifies this
      ensures match AfterWrite(platform, old(volume), path, content)
        case Ok(w) => r == Ok(()) && volume == w
        case Err(m) => r == Err(m) && volume == old(volume)
    {
      match AfterWrite(platform, volume, path, content)
      case Ok(w) => volume := w; r := Ok(());
      case Err(m) => r := Err(m);
    }

    method Remove(path: string) returns (r: Outcome<()>)
      modifies this
      ensures match AfterRemove(platform, old(volume), path)
        case Ok(w) => r == Ok(()) && volume == w
        case Err(m) => r == Err(m) && volume == old(volume)
    {
      match AfterRemove(platform, volume, path)
      case Ok(w) => volume := w; r := Ok(());
      case Err(m) => r := Err(m);
    }
  }
}
