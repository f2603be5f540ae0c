/**
 * The file-explorer half of the `app` object: where it is, what it lists,
 * the dialog it shows, and the actions that move, create, upload, preview
 * and delete. The host is reached through `FileSystem.Host`, the console
 * through `Logging.Console`; notifications and the DOM are not modelled.
 */
module Explorer {
  import opened Results
  import opened Text
  import opened Html
  import opened Literal
  import opened Paths
  import opened FileSystem
  import opened Lookups
  import opened Listing
  import opened Logging
  import opened Upload

  /** The file list: the directory it shows and the entries read from it, drawn as `Drawn`. */
  datatype View = View(path: string, entries: seq<Entry>)

  /** What a preview shows: an image by its file URL, or escaped text to highlight in a language. */
  datatype PreviewBody = Picture(source: string) | Code(language: string, text: string)

  /** The modal dialog. */
  datatype Dialog =
    | ConfirmDeletion(fileName: string, literal: string)
    | Preview(fileName: string, icon: string, body: PreviewBody)

  /** The rows on screen for a file list: `..` unless at a root, then the entries in listing order. */
  function Drawn(platform: Platform, view: View): seq<Row> {
    ListingView(platform, view.path, view.entries, CodePointCompare)
  }

  /** The file list after a load of `path`: rebuilt when the directory can be read, left as it was otherwise. */
  function Loaded(view: Option<View>, v: Volume, path: string): Option<View> {
    match DirectoryOf(v, path)
    case Ok(entries) => Some(View(path, entries))
    case Err(_) => view
  }

  /**
   * After a successful load the screen shows `..` exactly when the location
   * is not a root, and then every entry of the directory once, directories
   * first and each kind in name order.
   */
  lemma LoadedListing(platform: Platform, v: Volume, path: string, view: Option<View>)
    requires DirectoryOf(v, path).Ok?
    ensures var rows := Drawn(platform, Loaded(view, v, path).value);
      && (ParentRow in rows <==> !IsRoot(platform, path))
      && multiset(EntriesOf(rows)) == multiset(v.dirs[path])
      && Sorted(CodePointCompare, EntriesOf(rows))
  {
    CodePointConsistent();
    ListingViewCorrect(platform, path, v.dirs[path], CodePointCompare);
  }

  /** The console lines a load of `path` writes. */
  function LoadLog(v: Volume, path: string): seq<LogLine> {
    match DirectoryOf(v, path)
    case Ok(_) => []
    case Err(m) => [LogLine(Error, "Error loading files: " + m)]
  }

  /** The dialog `previewFile` opens for the file at `path` holding `content`. */
  function PreviewOf(path: string, content: string): Dialog {
    var name := Basename(path);
    var extension := Extension(name);
    Preview(name, FileIcon(extension, File),
      if IsImageFile(extension) then Picture("file://" + path) else Code(FileLanguage(extension), Escape(content)))
  }

  /**
   * The dialog `deleteFile` opens: the file name and the body of the quoted
   * path in the button's handler, escaped as the source does (quotes only).
   */
  function DeletionOf(path: string): Dialog {
    ConfirmDeletion(Basename(path), EscapeQuotes(CleanPath(path)))
  }

  /** The same dialog with the corrected escaping: backslashes doubled before quotes are escaped. */
  function FixedDeletionOf(path: string): Dialog {
    ConfirmDeletion(Basename(path), EscapeLiteral(CleanPath(path)))
  }

  /**
   * A preview of a file entered from the listing shows the entry's name and
   * the icon of its row; an image is shown from its own path, and any other
   * file as text that holds no markup and unescapes to the content.
   */
  lemma PreviewShows(platform: Platform, dir: string, name: string, content: string)
    requires Free(name, {'/', '\\'})
    ensures var d := PreviewOf(Child(platform, dir, name), content);
      && d.fileName == name
      && d.icon == IconFor(Entry(name, File))
      && (d.body.Picture? <==> IsImageFile(Extension(name)))
      && (d.body.Picture? ==> d.body.source == "file://" + Child(platform, dir, name))
      && (d.body.Code? ==> Free(d.body.text, {'<', '>'}) && Unescape(d.body.text) == content)
  {
    BasenameOfChild(platform, dir, name);
    EscapeHasNoAngles(content);
    UnescapeEscape(content);
  }

  /**
   * As written, the delete button hands `confirmDelete` the cleaned path
   * only when that path holds no backslash (nor a raw line break); cleaning
   * it once more there leaves it as it is.
   */
  lemma DeleteButtonWithoutBackslash(path: string)
    requires Free(CleanPath(path), {'\\', '\n', '\r'})
    ensures DeletionOf(path).fileName == Basename(path)
    ensures DecodeLiteral(DeletionOf(path).literal) == Some(CleanPath(path))
    ensures CleanPath(CleanPath(path)) == CleanPath(path)
  {
    EscapeQuotesWithoutBackslash(CleanPath(path));
    CleanPathIdempotent(path);
  }

  /**
   * As written, the delete button of the Windows folder `C:\Users` hands
   * `confirmDelete` the path `C:Users`: another file than the one named.
   */
  lemma DeleteButtonDropsDriveBackslash()
    ensures DeletionOf("C:\\Users").fileName == "Users"
    ensures DecodeLiteral(DeletionOf("C:\\Users").literal) == Some("C:Users")
    ensures CleanPath("C:\\Users") == "C:\\Users" != "C:Users"
  {
    CleanDriveFolder();
    BasenameOfDriveFolder();
    EscapeQuotesDropsDriveBackslash();
  }

  /**
   * With the corrected escaping the button hands `confirmDelete` the cleaned
   * path, and cleaning it once more there leaves it as it is, so the file
   * removed is the one listed (for paths without line breaks, which a
   * literal cannot hold raw).
   */
  lemma DeleteButtonTarget(path: string)
    requires Free(CleanPath(path), {'\n', '\r'})
    ensures FixedDeletionOf(path).fileName == Basename(path)
    ensures DecodeLiteral(FixedDeletionOf(path).literal) == Some(CleanPath(path))
    ensures CleanPath(CleanPath(path)) == CleanPath(path)
  {
    EscapeRoundTrip(CleanPath(path));
    CleanPathIdempotent(path);
  }

  class Explorer {
    const host: Host
    const console: Console
    /** `NL_CWD`, where the explorer starts. */
    const cwd: string
    /** `state.fileExplorer.currentPath` */
    var currentPath: string
    /** The file list; None until the first load succeeds. */
    var view: Option<View>
    /** The open modal, if any. */
    var modal: Option<Dialog>
    /** How many times the file list has been (re)loaded. */
    ghost var loads: nat

    /** The location is never empty: it starts at `NL_CWD` and every move builds a non-empty path. */
    ghost predicate Valid()
      reads this
    {
      currentPath != ""
    }

    constructor (host: Host, console: Console, cwd: string)
      requires cwd != ""
      ensures Valid()
      ensures this.host == host && this.console == console && this.cwd == cwd
      ensures currentPath == cwd && view == None && modal == None && loads == 0
    {
      this.host := host;
      this.console := console;
      this.cwd := cwd;
      currentPath := cwd;
      view := None;
      modal := None;
      loads := 0;
    }

    /**
     * `getCurrentDirectory`: the current location; when there is none, the
     * documents folder, remembered, or `NL_CWD` if the host cannot say.
     */
    method CurrentDirectory() returns (dir: string)
      modifies this, console
      ensures old(currentPath) != "" ==> dir == currentPath == old(currentPath) && console.lines == old(console.lines)
      ensures old(currentPath) == "" ==>
        match host.documents
        case Ok(d) => dir == currentPath == d && console.lines == old(console.lines)
        case Err(m) =>
          && dir == cwd && currentPath == ""
          && console.lines == old(console.lines) + [LogLine(Error, "Error getting current directory: " + m)]
      ensures view == old(view) && modal == old(modal) && loads == old(loads)
    {
      if currentPath == "" {
        match host.documents
        case Ok(d) =>
          currentPath := d;
        case Err(m) =>
          console.Log(Error, "Error getting current directory: " + m);
          dir := cwd;
          return;
      }
      dir := currentPath;
    }

    /** `loadFileExplorer`: rebuilds the list for the current location, or logs and keeps the old list. */
    method LoadFileExplorer()
      requires Valid()
      modifies this, console
      ensures Valid() && currentPath == old(currentPath) && modal == old(modal)
      ensures view == Loaded(old(view), host.volume, currentPath)
      ensures console.lines == old(console.lines) + LoadLog(host.volume, currentPath)
      ensures loads == old(loads) + 1
    {
      var dir := CurrentDirectory();
      var read := host.ReadDirectory(dir);
      loads := loads + 1;
      match read
      case Ok(entries) =>
        view := Some(View(dir, entries));
      case Err(m) =>
        console.Log(Error, "Error loading files: " + m);
    }

    /** `refreshFileList`: a load, then a note in the console. */
    method RefreshFileList()
      requires Valid()
      modifies this, console
      ensures Valid() && currentPath == old(currentPath) && modal == old(modal)
      ensures view == Loaded(old(view), host.volume, currentPath)
      ensures console.lines == old(console.lines) + LoadLog(host.volume, currentPath) + [LogLine(Info, "File list refreshed")]
      ensures loads == old(loads) + 1
    {
      LoadFileExplorer();
      console.Log(Info, "File list refreshed");
    }

    /** `previewFile(path)`: opens the preview, or logs when the file cannot be read. */
    method PreviewFile(path: string)
      modifies this, console
      ensures currentPath == old(currentPath) && view == old(view) && loads == old(loads)
      ensures match FileOf(host.volume, path)
        case Ok(content) => modal == Some(PreviewOf(path, content)) && console.lines == old(console.lines)
        case Err(m) => modal == old(modal) && console.lines == old(console.lines) + [LogLine(Error, "Error previewing file: " + m)]
    {
      var read := host.ReadFile(path);
      match read
      case Ok(content) =>
        modal := Some(PreviewOf(path, content));
      case Err(m) =>
        console.Log(Error, "Error previewing file: " + m);
    }

    /** `handleFileClick(entry)`: a directory is entered and listed, a file is previewed. */
    method HandleFileClick(entry: Entry)
      requires Valid()
      modifies this, console
      ensures Valid()
      ensures var target := Child(host.platform, old(currentPath), entry.name);
        if entry.kind == Directory then
          && currentPath == target && modal == old(modal) && loads == old(loads) + 1
          && view == Loaded(old(view), host.volume, target)
          && console.lines == old(console.lines) + LoadLog(host.volume, target)
        else
          && currentPath == old(currentPath) && view == old(view) && loads == old(loads)
          && match FileOf(host.volume, target)
             case Ok(content) => modal == Some(PreviewOf(target, content)) && console.lines == old(console.lines)
             case Err(m) => modal == old(modal) && console.lines == old(console.lines) + [LogLine(Error, "Error previewing file: " + m)]
    {
      var dir := CurrentDirectory();
      var target := Child(host.platform, dir, entry.name);
      if entry.kind == Directory {
        currentPath := target;
        LoadFileExplorer();
      } else {
        PreviewFile(target);
      }
    }

    /**
     * `navigateToParentDirectory`: moves to the parent and lists it, or does
     * nothing where the source treats the location as a Windows root.
     */
    method NavigateToParentDirectory()
      requires Valid()
      modifies this, console
      ensures Valid() && modal == old(modal)
      ensures match Parent(host.platform, old(currentPath))
        case None =>
          currentPath == old(currentPath) && view == old(view) && loads == old(loads) && console.lines == old(console.lines)
        case Some(up) =>
          && currentPath == up && loads == old(loads) + 1
          && view == Loaded(old(view), host.volume, up)
          && console.lines == old(console.lines) + LoadLog(host.volume, up)
    {
      var dir := CurrentDirectory();
      match Parent(host.platform, dir)
      case None =>
        return;
      case Some(up) =>
        ParentShape(host.platform, dir);
        currentPath := up;
        LoadFileExplorer();
    }

    /**
     * `createNewFile`, given the prompt's answer (None for Cancel): an empty
     * file named by the answer in the current directory, then a fresh list.
     */
    method CreateNewFile(answer: Option<string>)
      requires Valid()
      modifies this, host, console
      ensures Valid() && currentPath == old(currentPath) && modal == None
      ensures answer == None || answer == Some("") ==>
        && host.volume == old(host.volume) && view == old(view) && loads == old(loads)
        && console.lines == old(console.lines)
      ensures answer != None && answer != Some("") ==>
        var name := answer.value;
        match AfterWrite(host.platform, old(host.volume), Child(host.platform, currentPath, name), "")
        case Ok(w) =>
          && host.volume == w && loads == old(loads) + 1
          && view == Loaded(old(view), w, currentPath)
          && console.lines == old(console.lines) + [LogLine(Success, "File created: " + name)] + LoadLog(w, currentPath)
        case Err(m) =>
          && host.volume == old(host.volume) && view == old(view) && loads == old(loads)
          && console.lines == old(console.lines) + [LogLine(Error, "Error creating file: " + m)]
    {
      modal := None;
      if answer == None || answer == Some("") {
        return;
      }
      var name := answer.value;
      var dir := CurrentDirectory();
      var written := host.WriteFile(Child(host.platform, dir, name), "");
      match written
      case Ok(_) =>
        console.Log(Success, "File created: " + name);
        LoadFileExplorer();
      case Err(m) =>
        console.Log(Error, "Error creating file: " + m);
    }

    /** One turn of `uploadFile`'s loop: the file copied as CopyOne says, and its console line. */
    method UploadOne(source: string)
      requires Valid()
      modifies this, host, console
      ensures Valid() && currentPath == old(currentPath) && modal == old(modal)
      ensures view == old(view) && loads == old(loads)
      ensures var c := CopyOne(host.platform, old(host.volume), currentPath, source);
        host.volume == c.volume && console.lines == old(console.lines) + [c.line]
    {
      var name := Basename(source);
      var dir := CurrentDirectory();
      var read := host.ReadFile(source);
      match read {
        case Err(m) =>
          console.Log(Error, "Error uploading file " + name + ": " + m);
        case Ok(content) =>
          var written := host.WriteFile(Child(host.platform, dir, name), content);
          match written {
            case Ok(_) =>
              console.Log(Success, "File uploaded: " + name);
            case Err(m) =>
              console.Log(Error, "Error uploading file " + name + ": " + m);
          }
      }
    }

    /**
     * `uploadFile`, given what the open dialog returned (an empty selection
     * also stands for `null`): every selected file copied in order into the
     * current directory, one console line each, then a single refresh.
     */
    method UploadFile(selection: Outcome<seq<string>>)
      requires Valid()
      modifies this, host, console
      ensures Valid() && currentPath == old(currentPath) && modal == old(modal)
      ensures match selection
        case Err(m) =>
          && host.volume == old(host.volume) && view == old(view) && loads == old(loads)
          && console.lines == old(console.lines) + [LogLine(Error, "Error uploading files: " + m)]
        case Ok(sources) =>
          if sources == [] then
            host.volume == old(host.volume) && view == old(view) && loads == old(loads) && console.lines == old(console.lines)
          else
            var w := CopyAll(host.platform, old(host.volume), currentPath, sources);
            && host.volume == w && loads == old(loads) + 1
            && view == Loaded(old(view), w, currentPath)
            && console.lines == old(console.lines) + UploadLog(host.platform, old(host.volume), currentPath, sources) + LoadLog(w, currentPath)
    {
      match selection
      case Err(m) =>
        console.Log(Error, "Error uploading files: " + m);
      case Ok(sources) =>
        if sources == [] {
          return;
        }
        var i := 0;
        while i < |sources|
          invariant 0 <= i <= |sources|
          invariant Valid() && currentPath == old(currentPath) && modal == old(modal)
          invariant view == old(view) && loads == old(loads)
          invariant host.volume == CopyAll(host.platform, old(host.volume), currentPath, sources[..i])
          invariant console.lines == old(console.lines) + UploadLog(host.platform, old(host.volume), currentPath, sources[..i])
          decreases |sources| - i
        {
          UploadOne(sources[i]);
          assert sources[..i + 1][..i] == sources[..i];
          i := i + 1;
        }
        assert sources[..i] == sources;
        LoadFileExplorer();
    }

    /** `deleteFile(path)`: only opens the confirmation; nothing is removed yet. */
    method DeleteFile(path: string)
      modifies this
      ensures modal == Some(DeletionOf(path))
      ensures currentPath == old(currentPath) && view == old(view) && loads == old(loads)
    {
      modal := Some(DeletionOf(path));
    }

    /**
     * `confirmDelete(path)`: removes the cleaned path; on success closes the
     * dialog, logs and lists again, on failure logs and closes the dialog
     * without listing again.
     */
    method ConfirmDelete(path: string)
      requires Valid()
      modifies this, host, console
      ensures Valid() && currentPath == old(currentPath) && modal == None
      ensures match AfterRemove(host.platform, old(host.volume), CleanPath(path))
        case Ok(w) =>
          && host.volume == w && loads == old(loads) + 1
          && view == Loaded(old(view), w, currentPath)
          && console.lines == old(console.lines) + [LogLine(Success, "File deleted: " + Basename(path))] + LoadLog(w, currentPath)
        case Err(m) =>
          && host.volume == old(host.volume) && view == old(view) && loads == old(loads)
          && console.lines == old(console.lines) + [LogLine(Error, "Error deleting file: " + m)]
    {
      var removed := host.Remove(CleanPath(path));
      match removed
      case Ok(_) =>
        modal := None;
        console.Log(Success, "File deleted: " + Basename(path));
        LoadFileExplorer();
      case Err(m) =>
        console.Log(Error, "Error deleting file: " + m);
        modal := None;
    }

    /** `closeModal`: the Cancel button and the close cross. */
    method CloseModal()
      modifies this
      ensures modal == None
      ensures currentPath == old(currentPath) && view == old(view) && loads == old(loads)
    {
      modal := None;
    }
  }
}
