/** The three lookup tables of the explorer: icons, image extensions and highlighting languages. */
module Lookups {
  import opened Results
  import opened Text
  import opened FileSystem

  const FolderIcon: string := "fas fa-folder"
  const DefaultIcon: string := "fas fa-file"
  const ImageIcon: string := "fas fa-file-image"

  /** `getFileIcon`'s table, keyed by lower-case extension. */
  const IconTable: seq<(string, string)> := [
    ("pdf", "fas fa-file-pdf"),
    ("doc", "fas fa-file-word"), ("docx", "fas fa-file-word"),
    ("xls", "fas fa-file-excel"), ("xlsx", "fas fa-file-excel"),
    ("ppt", "fas fa-file-powerpoint"), ("pptx", "fas fa-file-powerpoint"),
    ("jpg", ImageIcon), ("jpeg", ImageIcon), ("png", ImageIcon), ("gif", ImageIcon),
    ("mp3", "fas fa-file-audio"), ("wav", "fas fa-file-audio"),
    ("mp4", "fas fa-file-video"), ("mov", "fas fa-file-video"),
    ("zip", "fas fa-file-archive"), ("rar", "fas fa-file-archive"),
    ("txt", "fas fa-file-alt"),
    ("js", "fab fa-js"), ("html", "fab fa-html5"), ("css", "fab fa-css3"),
    ("json", "fas fa-file-code")
  ]

  /** `isImageFile`'s list. */
  const ImageExtensions: seq<string> := ["jpg", "jpeg", "png", "gif", "bmp", "webp"]

  /** `getFileLanguage`'s table. */
  const LanguageTable: seq<(string, string)> := [
    ("js", "javascript"), ("ts", "typescript"), ("py", "python"),
    ("html", "html"), ("css", "css"), ("json", "json"), ("xml", "xml"),
    ("md", "markdown"), ("sql", "sql"), ("php", "php"), ("java", "java"),
    ("cpp", "cpp"), ("c", "c"), ("cs", "csharp"), ("go", "go"),
    ("rb", "ruby"), ("rs", "rust"), ("swift", "swift"), ("kt", "kotlin"),
    ("sh", "bash"), ("bat", "batch"), ("ps1", "powershell"),
    ("yaml", "yaml"), ("yml", "yaml"), ("txt", "plaintext")
  ]

  /** `table[key]` on an object literal: the value of the pair with that key (the tables' keys are unique). */
  function Lookup(table: seq<(string, string)>, key: string): (r: Option<string>)
    ensures r.Some? ==> (key, r.value) in table
    ensures r.None? ==> forall i :: 0 <= i < |table| ==> table[i].0 != key
  {
    if table == [] then None
    else if table[0].0 == key then Some(table[0].1)
    else Lookup(table[1..], key)
  }

  /** The pair at `i` answers the lookup when no earlier pair has the same key. */
  lemma {:induction false} LookupAt(table: seq<(string, string)>, key: string, i: nat)
    requires i < |table| && table[i].0 == key
    requires forall j :: 0 <= j < i ==> table[j].0 != key
    ensures Lookup(table, key) == Some(table[i].1)
    decreases i
  {
    if i > 0 {
      assert table[0].0 != key;
      LookupAt(table[1..], key, i - 1);
    }
  }

  /** `getFileIcon(extension, type)`: the folder icon for directories; the table entry or the generic icon for files. */
  function FileIcon(extension: string, kind: Kind): string {
    if kind == Directory then FolderIcon
    else match Lookup(IconTable, extension)
      case Some(icon) => icon
      case None => DefaultIcon
  }

  /** `isImageFile(extension)`, which lower-cases its argument itself. */
  predicate IsImageFile(extension: string) {
    ToLower(extension) in ImageExtensions
  }

  /** `getFileLanguage(extension)`, which lower-cases its argument itself; plain text by default. */
  function FileLanguage(extension: string): string {
    match Lookup(LanguageTable, ToLower(extension))
    case Some(language) => language
    case None => "plaintext"
  }

  /** Both lower-casing lookups give the same answer for any spelling of an extension. */
  lemma LookupsIgnoreCase(extension: string)
    ensures IsImageFile(extension) == IsImageFile(ToLower(extension))
    ensures FileLanguage(extension) == FileLanguage(ToLower(extension))
  {
    ToLowerIdempotent(extension);
  }

  /** No file gets the folder icon: the icon alone tells a directory row from a file row. */
  lemma FolderIconOnlyForDirectories(extension: string, kind: Kind)
    ensures FileIcon(extension, kind) == FolderIcon <==> kind == Directory
  {
    assert forall i :: 0 <= i < |IconTable| ==> IconTable[i].1 != FolderIcon;
  }

  /** The first four image extensions (jpg, jpeg, png, gif) have the image icon. */
  lemma ImageIcons(k: nat)
    requires k < 4
    ensures FileIcon(ImageExtensions[k], File) == ImageIcon
  {
    LookupAt(IconTable, ImageExtensions[k], 7 + k);
  }

  /** The other two (bmp, webp) are previewed as images but listed with the generic file icon. */
  lemma ImagesWithGenericIcon(k: nat)
    requires 4 <= k < 6
    ensures FileIcon(ImageExtensions[k], File) == DefaultIcon
  {
    var e := ImageExtensions[k];
    assert |e| in {3, 4} && e[0] in {'b', 'w'};
    assert forall i :: 0 <= i < |IconTable| ==> IconTable[i].0 != e;
  }
}
