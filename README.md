# MyFileExplorer core, modelled in Dafny

MyFileExplorer is a desktop app built on Neutralino. Its whole behaviour
lives in one object, `app`, in `resources/js/main.js`. This project models
the two parts of that object that hold state and logic.

**The file explorer.** It covers:
- the current location and how it is found (`getCurrentDirectory`);
- loading and ordering a directory listing, with the `..` row unless the
  location is a root (`loadFileExplorer`, `refreshFileList`);
- entering a directory and going up (`handleFileClick`,
  `navigateToParentDirectory`);
- creating an empty file (`createNewFile`) and copying picked files into the
  current directory (`uploadFile`);
- the two-step delete (`deleteFile`, `confirmDelete`);
- the preview dialog (`previewFile`);
- the pure helpers behind these: file name and extension splitting, the icon
  and language tables, `isImageFile`, the HTML escape chain, and the path
  cleaning and quote escaping of the delete button.

**The memory monitor.** It covers one sample (`updateSystemStats`), with its
percentage rounded to one decimal and its colour band. It also covers the
single interval timer that `startSystemMonitoring` and
`stopSystemMonitoring` keep.

The modules, one per file:

| module | file | contents |
|---|---|---|
| `Results` | results.dfy | `Option` and `Outcome`; `Outcome` holds a value or an error message |
| `Text` | text.dfy | the JavaScript string operations used: `split`, `join`, `pop`, ASCII `toLowerCase`, `trim`, and global `replace` with a literal pattern |
| `Paths` | paths.dfy | child paths, the root test, going up, file name and extension |
| `FileSystem` | filesystem.dfy | the host filesystem as a value (`Volume`), plus the `Host` class that the Neutralino calls go through |
| `Lookups` | lookups.dfy | the icon, image and language tables |
| `Listing` | listing.dfy | the listing comparator, the sort, and the rows drawn |
| `Html` | html.dfy | the preview's escape chain and its inverse |
| `Literal` | literal.dfy | the delete path: cleaning it, escaping it into the button's quoted literal, and decoding that literal as JavaScript does |
| `Logging` | logging.dfy | the console pane |
| `Upload` | upload.dfy | the upload loop as functions over the volume |
| `Explorer` | explorer.dfy | the explorer state as a class, with one method per operation |
| `Sampler` | sampler.dfy | the memory readout, the band and the timers |

Each state-changing method is specified against functions of the old state:
`Loaded`, `LoadLog`, `CopyAll`, `UploadLog`, `AfterWrite`, `AfterRemove`,
`Sampled` and `StartTimers`. The lemmas then state what those functions
guarantee.

## Model

| member | source | states |
|---|---|---|
| Text.AfterLastIsLastPiece | resources/js/main.js:660 | the text after the last separator is exactly the last piece of `split(re)`, i.e. what `pop()` returns |
| Text.JoinSplit | resources/js/main.js:413-420 | joining the pieces of a one-character `split` with that character gives back the string |
| Text.SplitAround | resources/js/main.js:413 | splitting at a separator splits the text on either side of it independently |
| Text.TrimStartShape | resources/js/main.js:432 | `trim` removes exactly the leading white space: it stops at the first other character, and what it drops is all white space |
| Text.TrimEndShape | resources/js/main.js:432 | the same for trailing white space |
| Paths.Child | resources/js/main.js:392-394 | the path of an entry: the directory, the platform separator and the name (its inverse is `FileSystem.ParentAndNameOfChild`, and `Paths.BasenameOfChild` gives the name back) |
| Paths.IsRoot | resources/js/main.js:312-314 | the listing's root test: at most three characters on Windows, exactly `/` elsewhere (its consequences are `Paths.WindowsParentEntryDeadEnd` and `Listing.ListingViewCorrect`) |
| Paths.Parent | resources/js/main.js:409-426 | the going-up rule: None on Windows when the path splits into at most two pieces, otherwise every piece but the last joined again, with the separator in place of an empty result (proved in `Paths.ParentOfChild` and `Paths.ParentShape`) |
| Paths.Basename | resources/js/main.js:262 | the file name of a path: the text after its last slash of either kind (proved in `Paths.BasenameShape` and `Paths.BasenameOfChild`) |
| Paths.Extension | resources/js/main.js:340 | the lower-cased text after the last dot of a name (proved in `Paths.ExtensionShape` and `Paths.ExtensionAfterDot`) |
| Paths.BasenameOfDriveFolder | resources/js/main.js:430 | the file name of `C:\Users` is `Users` |
| Paths.BasenameOfChild | resources/js/main.js:262-266 | the file name of `dir + separator + name` is `name` when `name` has no slash |
| Paths.BasenameShape | resources/js/main.js:660 | a file name holds no slash of either kind and ends the path |
| Paths.ExtensionShape | resources/js/main.js:340 | an extension holds no dot and no upper-case letter; a name without a dot is its own lower-cased extension |
| Paths.ExtensionAfterDot | resources/js/main.js:661 | the extension of `stem.ext` is `ext` lower-cased when `ext` has no dot |
| Paths.SeparatorGivesTwoPieces | resources/js/main.js:413-418 | a path holding the separator splits into at least two pieces |
| Paths.ParentOfChild | resources/js/main.js:409-426 | going up from a directory entered from `dir` returns to `dir`. On Windows this needs `dir` to hold a separator |
| Paths.ParentShape | resources/js/main.js:414-422 | going up never yields the empty string. It yields either the bare separator or a path that, followed by the separator and the last piece, is the original path |
| Paths.WindowsDriveChildStays | resources/js/main.js:416-418 | on Windows, going up from `C:\Users` does not move |
| Paths.WindowsParentEntryDeadEnd | resources/js/main.js:312-316 | on Windows, `C:\a` is not a root, so `..` is shown, yet going up from it does not move |
| Paths.PosixParentOfTopLevel | resources/js/main.js:421-422 | elsewhere, `/` is its own parent, and `/home` goes up to `/` |
| Paths.PosixChildOfRoot | resources/js/main.js:393-396 | entering `etc` from `/` gives `//etc`, and going up from there gives `/` |
| FileSystem.ParentAndNameOfChild | resources/js/main.js:264-266 | the host splits the path the explorer builds back into the directory and the name it was built from |
| FileSystem.AfterWrite | resources/js/main.js:240 | the volume after a write: refused for a locked path, a directory or a missing parent directory; otherwise the file holds the content and its directory lists it (proved in `FileSystem.WriteChild`) |
| FileSystem.AfterRemove | resources/js/main.js:465 | the volume after a removal: refused for a locked or missing file; otherwise the file and its listing entry are gone (proved in `FileSystem.RemoveChild`) |
| FileSystem.WriteChild | resources/js/main.js:240 | writing `dir + separator + name` succeeds iff the target is neither locked nor a directory and `dir` exists. Afterwards the file holds the content, `dir` lists it, and no other file changes |
| FileSystem.RemoveChild | resources/js/main.js:465 | removing `dir + separator + name` succeeds iff the file exists and is not locked. Afterwards it can no longer be read, `dir` no longer lists it, and no other file changes |
| FileSystem.WithoutFile | resources/js/main.js:465 | the listing after a removal has no entry for the removed file and keeps every other entry |
| Lookups.FileIcon | resources/js/main.js:625-654 | the folder icon for a directory; for a file the icon table's entry for its extension, or the generic file icon (proved in `Lookups.FolderIconOnlyForDirectories`, `Lookups.ImageIcons` and `Lookups.ImagesWithGenericIcon`) |
| Lookups.IsImageFile | resources/js/main.js:710-711 | whether the lower-cased extension is one of the six image extensions (proved in `Lookups.LookupsIgnoreCase` and `Lookups.ImagesWithGenericIcon`) |
| Lookups.FileLanguage | resources/js/main.js:715-744 | the language table's entry for the lower-cased extension, or `plaintext` (proved in `Lookups.LookupsIgnoreCase`) |
| Lookups.Lookup | resources/js/main.js:653 | a table lookup answers only with a value paired with the key, and answers nothing only when no pair has the key |
| Lookups.LookupAt | resources/js/main.js:627-653 | the first pair with the key answers the lookup |
| Lookups.FolderIconOnlyForDirectories | resources/js/main.js:625-626 | a row gets the folder icon iff it is a directory; no file extension maps to it |
| Lookups.ImageIcons | resources/js/main.js:634-637 | jpg, jpeg, png and gif get the image icon |
| Lookups.ImagesWithGenericIcon | resources/js/main.js:710-711 | bmp and webp are previewed as images but listed with the generic file icon |
| Lookups.LookupsIgnoreCase | resources/js/main.js:710-743 | `isImageFile` and `getFileLanguage` give the same answer for every spelling of an extension |
| Listing.CompareEntries | resources/js/main.js:328-333 | the listing comparator: a directory before a file, and the name order within a kind (proved in `Listing.EntryOrder`) |
| Listing.Sort | resources/js/main.js:328 | the sort of the entries read (proved in `Listing.SortCorrect`) |
| Listing.ListingView | resources/js/main.js:312-382 | the rows drawn: `..` unless at a root, then one row per sorted entry (proved in `Listing.ListingViewCorrect`) |
| Listing.EntryOrder | resources/js/main.js:328-333 | the entry comparator is antisymmetric in sign and transitive whenever the name comparator is |
| Listing.InsertPermutes | resources/js/main.js:328 | inserting adds exactly the one entry |
| Listing.InsertSorted | resources/js/main.js:328 | inserting into a sorted list keeps it sorted |
| Listing.SortCorrect | resources/js/main.js:328-333 | the sorted listing is sorted, and it is a permutation of the entries read |
| Listing.SortedListingOrder | resources/js/main.js:328-333 | in a sorted listing no file comes before a directory, and entries of the same kind are in name order |
| Listing.CodePointConsistent | resources/js/main.js:330 | code-point string order is a valid comparator: consistent in sign and transitive |
| Listing.Rows | resources/js/main.js:335-382 | one entry row per entry, in order |
| Listing.EntriesOfRows | resources/js/main.js:335-382 | the entries shown by the rows are the entries they were drawn from |
| Listing.ListingViewCorrect | resources/js/main.js:312-333 | the rows are one per entry, plus `..` iff the location is not a root, and then `..` comes first. The entries shown are a sorted permutation of those read |
| Html.Escape | resources/js/main.js:672-675 | the preview's three replacements, `&` first (proved in `Html.EscapeIsExpand`, `Html.EscapeHasNoAngles` and `Html.UnescapeEscape`) |
| Html.EscapeIsExpand | resources/js/main.js:672-675 | because `&` is replaced first, the chain escapes every `&`, `<` and `>` exactly once |
| Html.EscapeHasNoAngles | resources/js/main.js:672-675 | the escaped text has no raw `<` or `>` |
| Html.UnescapeEscape | resources/js/main.js:672-675 | undoing `&lt;`, `&gt;` and then `&amp;` gives back the original content |
| Literal.CleanPath | resources/js/main.js:432 | the cleaned path holds no tab and has no white space at either end |
| Literal.CleanPathIdempotent | resources/js/main.js:463 | cleaning a second time, as `confirmDelete` does, changes nothing |
| Literal.EscapeQuotes | resources/js/main.js:433 | the source's escaping of the delete path: every `'` gets a backslash, nothing else changes (its effect is proved in `Literal.EscapeQuotesWithoutBackslash` and `Literal.EscapeQuotesDropsBackslash`) |
| Literal.CleanDriveFolder | resources/js/main.js:432 | `C:\Users` is already clean |
| Literal.EscapeQuotesWithoutBackslash | resources/js/main.js:433 | for a path with no backslash or line break, the source's escaping decodes back to the path |
| Literal.EscapeQuotesDropsBackslash | resources/js/main.js:433-442 | for a path with a backslash before a letter such as `U`, the source's escaping decodes to the path without that backslash |
| Literal.EscapeQuotesDropsDriveBackslash | resources/js/main.js:433 | `C:\Users` reaches `confirmDelete` as `C:Users` |
| Literal.EscapeRoundTrip | resources/js/main.js:433-442 | with backslashes escaped first, decoding the button's literal gives back exactly the path, for any path without a raw line break |
| Upload.CopyOne | resources/js/main.js:261-281 | one turn of the loop: read the file, write it under its own name into the directory, and the one line that reports it (proved in `Upload.CopyOneReports` and `Upload.UploadedFileArrives`) |
| Upload.CopyAll | resources/js/main.js:261-282 | the volume after the whole selection, file after file (proved in `Upload.CopyAllAppend` and `Upload.FailedFileSkipped`) |
| Upload.UploadLog | resources/js/main.js:261-282 | the lines the selection writes (proved in `Upload.UploadLogLines`) |
| Upload.CopyOneReports | resources/js/main.js:261-281 | one file's turn logs an error exactly when it changed nothing and did not succeed. A success may also leave the volume as it was (the same content written again), and it leaves the content readable at the target. No turn logs at info level |
| Upload.UploadedFileArrives | resources/js/main.js:262-276 | a readable file lands in the current directory, under its own name and with its content, iff the target is neither locked nor a directory and the directory exists |
| Upload.CopyAllAppend | resources/js/main.js:261-282 | the selection is processed file after file: processing it in two parts is processing it whole |
| Upload.UploadLogLines | resources/js/main.js:261-282 | one console line per selected file, in selection order. Each line reports that file as processed after all the files before it |
| Upload.FailedFileSkipped | resources/js/main.js:277-281 | a file that fails does not stop the loop: the files after it end up exactly as if it had not been selected |
| Explorer.Loaded | resources/js/main.js:297-333 | the file list after a load: rebuilt from the directory when it can be read, left as it was otherwise (proved in `Explorer.LoadedListing`) |
| Explorer.PreviewOf | resources/js/main.js:657-700 | the preview dialog: the file name, its row's icon, and the image path or the escaped text in its language (proved in `Explorer.PreviewShows`) |
| Explorer.DeletionOf | resources/js/main.js:428-442 | the confirmation dialog as the source builds it: the file name, and the cleaned path with only its quotes escaped (proved in `Explorer.DeleteButtonWithoutBackslash` and `Explorer.DeleteButtonDropsDriveBackslash`) |
| Explorer.FixedDeletionOf | resources/js/main.js:428-442 | the same dialog with backslashes doubled before quotes are escaped (proved in `Explorer.DeleteButtonTarget`) |
| Explorer.DeleteButtonWithoutBackslash | resources/js/main.js:428-466 | as written, for a path with no backslash or line break, the button decodes to the cleaned path, which cleaning again leaves unchanged, so the file removed is the one named |
| Explorer.DeleteButtonDropsDriveBackslash | resources/js/main.js:428-466 | as written, the dialog for the Windows folder `C:\Users` names `Users`, but its button hands `confirmDelete` the path `C:Users` |
| Explorer.LoadedListing | resources/js/main.js:297-333 | after a successful load, `..` is shown iff the location is not a root. Every entry of the directory is shown once, directories first and each kind in name order |
| Explorer.PreviewShows | resources/js/main.js:657-700 | the preview of a file entered from the listing shows its name and its row's icon. An image is shown from its own path; any other file is shown as text that holds no markup and unescapes to the content |
| Explorer.DeleteButtonTarget | resources/js/main.js:428-466 | with the corrected escaping, the confirmation names the file, and its button decodes to the cleaned path for every path without a line break. Cleaning again leaves that path unchanged, so the file removed is the one named |
| Explorer.Explorer.CurrentDirectory | resources/js/main.js:216-226 | returns the current location if there is one. Otherwise it takes the documents folder and remembers it, or logs and falls back to `NL_CWD` when the host cannot say |
| Explorer.Explorer.LoadFileExplorer | resources/js/main.js:297-385 | the file list is rebuilt from the directory read at the current location. If the read fails, one line is logged and the old list stays |
| Explorer.Explorer.RefreshFileList | resources/js/main.js:291-294 | a load followed by one info line |
| Explorer.Explorer.PreviewFile | resources/js/main.js:657-707 | opens `PreviewOf` the file's content, or logs when the file cannot be read and leaves the dialog as it was |
| Explorer.Explorer.HandleFileClick | resources/js/main.js:388-406 | a directory moves the location to the child path and lists it; a file is previewed |
| Explorer.Explorer.NavigateToParentDirectory | resources/js/main.js:409-426 | moves to `Parent` and lists it, or changes nothing when `Parent` refuses (a Windows path of at most two pieces) |
| Explorer.Explorer.CreateNewFile | resources/js/main.js:230-248 | Cancel and an empty name change nothing. Otherwise an empty file is written at `dir + separator + name`; success logs and lists again, failure logs and leaves the volume and list unchanged |
| Explorer.Explorer.UploadOne | resources/js/main.js:261-281 | one turn of the loop changes the volume as `CopyOne` does and writes its one line |
| Explorer.Explorer.UploadFile | resources/js/main.js:251-289 | an empty or null selection changes nothing. Otherwise the volume becomes `CopyAll` of the selection in order, the log gets `UploadLog` and then one load's lines, and the list is loaded exactly once; a dialog error only logs |
| Explorer.Explorer.DeleteFile | resources/js/main.js:428-456 | only opens the confirmation dialog `DeletionOf` the path, escaped as the source does; the volume, the location and the list do not change |
| Explorer.Explorer.ConfirmDelete | resources/js/main.js:458-475 | removes the cleaned path. Success closes the dialog, logs and lists again; failure logs, closes the dialog and does not list again |
| Explorer.Explorer.CloseModal | resources/js/main.js:566-568 | closes the dialog and changes nothing else |
| Logging.Console.Log | resources/js/main.js:581-586 | exactly one line is appended |
| Sampler.PercentTenths | resources/js/main.js:99 | the percentage in tenths, or None for a zero total (proved in `Sampler.NoTotalIsNormal`) |
| Sampler.BandOf | resources/js/main.js:112-118 | the strict thresholds: above 90.0 critical, above 70.0 a warning, otherwise normal (proved in `Sampler.CriticalExactly`, `Sampler.WarningExactly` and `Sampler.BoundariesAreStrict`) |
| Sampler.Sampled | resources/js/main.js:91-123 | the readout after one sample: the new values, or the old ones after a failed query (proved in `Sampler.FailedSampleKeepsReadout`) |
| Sampler.StartTimers | resources/js/main.js:125-135 | a new timer only when the field is empty (proved in `Sampler.AtMostOneTimer` and `Sampler.StartStopIdempotent`) |
| Sampler.StopTimers | resources/js/main.js:138-143 | the held timer cleared and the field emptied (proved in `Sampler.StopClearsAll` and `Sampler.StartStopIdempotent`) |
| Sampler.RoundTenths | resources/js/main.js:99 | the percentage in tenths is the integer nearest to `1000 * used / total`, with ties going away from zero |
| Sampler.DivReaches | resources/js/main.js:112-115 | integer division reaches a threshold exactly when the dividend reaches the threshold times the divisor |
| Sampler.CriticalExactly | resources/js/main.js:112-113 | in exact arithmetic, the band is Critical iff `used` is at least 90.05% of `total` |
| Sampler.WarningExactly | resources/js/main.js:114-115 | in exact arithmetic, the band is Warning iff `used` is at least 70.05% and below 90.05% of `total` |
| Sampler.BoundariesAreStrict | resources/js/main.js:112-118 | exactly 70.0% is Normal, exactly 90.0% is Warning, and 90.06% shows as 90.1, which is Critical |
| Sampler.NoTotalIsNormal | resources/js/main.js:99-118 | with a zero total there is no number, and the band is Normal |
| Sampler.FailedSampleKeepsReadout | resources/js/main.js:120-122 | a failed query leaves the displayed values as they were and logs one line |
| Sampler.CallKeepsTracked | resources/js/main.js:125-143 | each start or stop keeps the field and the running timers in step |
| Sampler.AtMostOneTimer | resources/js/main.js:125-143 | after any sequence of starts and stops at most one timer runs, and it is the one held in `monitoringInterval` |
| Sampler.StartStopIdempotent | resources/js/main.js:130-141 | a second start creates no timer, and a second stop clears nothing |
| Sampler.StopClearsAll | resources/js/main.js:138-143 | after a stop no timer runs |
| Sampler.Monitor.UpdateSystemStats | resources/js/main.js:91-123 | a successful query replaces the readout with its used, total, percentage and band. A failed one keeps the readout and logs one line |
| Sampler.Monitor.StartSystemMonitoring | resources/js/main.js:125-135 | always takes one sample, and adds a timer only when none is held |
| Sampler.Monitor.StopSystemMonitoring | resources/js/main.js:138-143 | clears the held timer if there is one; the readout does not change |
| Sampler.Monitor.Tick | resources/js/main.js:131-133 | each tick of the timer is one more sample and leaves the timers alone |

## Left out

- The DOM, the notifications and the loading overlay are left out. `showNotification` only displays, so the model keeps the console lines and the dialog state and drops the notifications.
- Neutralino's filesystem, `os.getPath`, `showOpenDialog` and `computer.getMemoryInfo` are not modelled as such. They become the `Volume` value held by `FileSystem.Host`, the `documents` constant, and the `selection` and `query` parameters. The host does no path normalisation: paths are compared as exact strings.
- Removing a directory is not modelled: `AfterRemove` removes files only, which is all the listing offers to delete.
- Binary and text content are not told apart: `readBinaryFile`/`writeBinaryFile` and `readFile`/`writeFile` carry the same content string.
- The `await` interleavings are not modelled. Each operation runs to completion in the order the source awaits its steps, and `startSystemMonitoring`'s unawaited first sample is taken before the timer is set.
- `setInterval` timing is reduced to which handles are running; `Tick` is one delivery. Handles are the host's positive numbers, so the `!this.monitoringInterval` test is the same as "no handle".
- `Listing.ListingView`: the sort lemmas hold for any comparator that is consistent in sign and transitive. The explorer is instantiated with code-point order (`Listing.CodePointCompare`) in place of `localeCompare`, because locale collation is not modelled.
- `Explorer.View`: the file list keeps the raw entries read and their directory; the rows on screen are derived by `Explorer.Drawn`. Markup and click handlers are not modelled.
- `Text.ToLower`: only ASCII letters are lower-cased. JavaScript's `toLowerCase` also maps letters outside ASCII, a few of them onto ASCII keys. For example KELVIN SIGN (U+212A) becomes `k`, so JavaScript maps the extension `\u212At` to `kotlin`, where the model gives `plaintext`.
- Strings are sequences of Unicode scalar values, not UTF-16 code units as in JavaScript. For characters outside the Basic Multilingual Plane this changes lengths and order:
  - `Paths.IsRoot` counts such a character once where `path.length` counts two;
  - `Listing.CodePointCompare` puts such a character after U+E000-U+FFFF, where JavaScript's `<` puts it before.
- `Sampler.RoundTenths`: the percentage is the exact rational rounded half away from zero. JavaScript rounds the binary floating-point value of `(used / total) * 100`, which can fall just below an exact tie; 1801 of 2000 and 9005 of 10000 both show as 90.0, not 90.1.
- `Sampler.CriticalExactly`, `Sampler.WarningExactly` and `Sampler.BoundariesAreStrict` are facts about the exact-rational model. At exact ties the source rounds down: 90.05% (1801 of 2000) shows as 90.0, a Warning, and 70.05% (1401 of 2000) as 70.0, Normal.
- `Sampler.Readout`: `used` and `total` are kept in bytes; `formatBytes` (logarithms and floating point) is not modelled.
- `Lookups.Lookup`: lookups are over the table's own keys only. In JavaScript, keys such as `constructor` or `toString` would also hit `Object.prototype`.
- `Literal.DecodeLiteral`: it decodes the single-character escapes of a JavaScript string literal. Every escape of a digit yields None: `\0` (NUL in JavaScript), `\8` and `\9` (read as `8` and `9` outside strict mode) and the octal escapes. So do `\x`, `\u` and line continuations.
- The HTML attribute layer around the button's literal is not modelled. A `"` or `&` in a path is read by the HTML parser before the JavaScript parser sees it.
- The prompt dialog is not modelled: `createNewFile` receives the prompt's answer as a parameter. The prompt's own handlers close the dialog, which is why `CreateNewFile` ends with no dialog open.
- `loadSystemInfo`, `getStorageInfo`, the tools view, the clipboard, `executeCommand`, `openFile`, `switchView` and `clearConsole` are outside this model.
- The outer `catch` blocks of `handleFileClick`, `navigateToParentDirectory`, `deleteFile` and the listing's rendering guard against DOM failures only. With no DOM in the model they cannot be reached.
- On a failed load, the source leaves the previous list on screen: the read fails before the list element is cleared. The model keeps the old `View` accordingly.
- `confirmDelete` lists the directory again only after a successful removal. On failure it logs and closes the dialog, and the model follows that.

## Findings

| source | as written | input that shows it | evidently intended | confidence | as-written member | corrected member |
|---|---|---|---|---|---|---|
| resources/js/main.js:433 | the path put into the delete button's single-quoted handler gets only its `'` characters escaped, so each backslash starts an escape sequence and a backslash before an ordinary letter vanishes | `C:\Users` decodes to `C:Users`, so `confirmDelete` asks to remove a different path | double each backslash first, then escape quotes, so the handler receives the path unchanged | high; not executed | Literal.EscapeQuotesDropsBackslash | Literal.EscapeRoundTrip |

The explorer class keeps the source's escaping: `Explorer.Explorer.DeleteFile`
opens `Explorer.DeletionOf`, and `Explorer.DeleteButtonDropsDriveBackslash`
shows its button naming `C:Users` for `C:\Users`. `Explorer.FixedDeletionOf`
builds the same dialog with the corrected escaping (`Literal.EscapeLiteral`),
and `Explorer.DeleteButtonTarget` proves that its button carries the cleaned
path exactly.
