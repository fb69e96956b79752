# File organizer bot: a Dafny model of `organizeFile`

The file organizer bot watches a download folder and, for every file created there, decides
where the file belongs and moves it. This project models that per-file decision: the
`organizeFile` routine and its `getExtension` helper in `java/FileOrganizerBot.java`.

For one file the routine

1. skips the path when it is a directory;
2. waits, at most five times, while the file does not exist yet, and gives up when it still
   does not exist afterwards;
3. takes the extension (the lower-cased text after the last dot) and looks its category up in a
   fixed table: Documents, Images, Music, Videos, Software, or Others for everything else;
4. creates the category folder next to the file unless something is already there;
5. stops when the file's own folder already carries the category's name;
6. uses the file's name in the category folder or, when that is taken, the base name, `_`, a
   timestamp and the extension from the last dot on;
7. moves the file there, replacing whatever file is at that path.

Modules:

- `Text` (`text.dfy`): `String.lastIndexOf` and `String.toLowerCase`.
- `Classifier` (`classifier.dfy`): the extension, the category table and the folder names.
- `Storage` (`storage.dfy`): the file system as a set of file paths and a set of directory
  paths. A `Disk` value is one state of it. The `FileSystem` class holds the same two sets as
  mutable fields and offers `exists`, `isDirectory`, `mkdir` and a replacing `move`. A path is the
  sequence of names from the root.
- `Organizer` (`organizer.dfy`): the settle loop, the destination and collision name, and
  `Organize`, the whole routine as a function of the file system state. `OrganizeFile` is the
  routine as a method over a `FileSystem` object, proved equal to `Organize`.
- `Wrappers` (`wrappers.dfy`): `Option`.

The existence checks on the watched file (lines 46 and 50) are answers of an oracle
`probe: nat -> bool`. `probe(k)` is the answer to the k-th check, since another process may
still be writing the file. When the final check reports the file, the file is there from then
on. If the file system did not hold it yet and its folder is a directory, the file is added to
the file system at that point (`Storage.ArriveFile`, `Storage.FileSystem.Arrive`). So a
download that appears during the settle loop is organized like any other file
(`ArrivingFileIsMoved`, `LateArrival`). All other steps act on the `FileSystem` object. The
timestamp is a parameter. The sleep does nothing; only the number of waits is kept.

Three quirks of the code are kept as written:

- the category folder is created before the already-organized check, so a skipped file can
  still leave a new empty folder behind (`AlreadyOrganizedStillCreatesFolder`,
  `ReorganizeIsSkipped`);
- a colliding name without a dot makes `substring(0, -1)` throw. The model ends such a call
  with `Failed(IndexOutOfBounds)` (`NoDotCollision`);
- the move uses `REPLACE_EXISTING`, so a collision name that is itself taken replaces the file
  there, and two collisions with the same timestamp lose a file (`MovedFileCount`).

Also, `getExtension` returns `""` both for a name with no dot and for a name that ends in a dot
(`EmptyExtension`).

## Model

| member | source | states |
|---|---|---|
| `Text.LastIndexOf` | java/FileOrganizerBot.java:88 | the result is -1 exactly when the character does not occur; otherwise the character is at that index and does not occur after it |
| `Text.Lower` | java/FileOrganizerBot.java:89 | `toLowerCase` character by character; `LowerCharacters` states what it does to each character |
| `Text.LowerCharacters` | java/FileOrganizerBot.java:89 | an upper-case letter becomes the lower-case letter 32 code points on, every other character is kept, and no upper-case letter is left |
| `Text.LowerIdempotent` | java/FileOrganizerBot.java:89 | lower-casing an already lower-cased text changes nothing |
| `Text.LastIndexOfLower` | java/FileOrganizerBot.java:88-89 | lower-casing does not move the last occurrence of a non-letter such as the dot |
| `Classifier.GetExtension` | java/FileOrganizerBot.java:87-90 | a name without a dot has extension `""`; the extension never contains a dot or an upper-case letter |
| `Classifier.ExtensionAfterLastDot` | java/FileOrganizerBot.java:87-90 | the extension is the lower-cased text after the last dot |
| `Classifier.EmptyExtension` | java/FileOrganizerBot.java:87-90 | the extension is `""` exactly when the name has no dot or ends in one |
| `Classifier.LastDotUnique` | java/FileOrganizerBot.java:88 | only one position can be a dot with no dot after it |
| `Classifier.Classify` | java/FileOrganizerBot.java:59-65 | the switch on the extension, with Others for anything it does not list; `ClassifyTable` states what it gives |
| `Classifier.ClassifyTable` | java/FileOrganizerBot.java:56-65 | each category holds exactly the extensions of its case (pdf, docx, txt, xlsx; jpg, jpeg, png, gif, webp; mp3, wav; mp4, mkv; exe, msi), whatever the order of the cases, and Others exactly the rest |
| `Classifier.CategoryOf` | java/FileOrganizerBot.java:55-65 | the category of a file name: the switch applied to its extension |
| `Classifier.NoExtensionIsOthers` | java/FileOrganizerBot.java:56-65 | a name with no dot or ending in a dot is in Others |
| `Classifier.CategoryOfExtension` | java/FileOrganizerBot.java:55-65 | a name `base.e` with a dot-free `e` is classified by `e` lower-cased, whatever the base holds |
| `Classifier.GetExtensionIgnoresCase` | java/FileOrganizerBot.java:89 | a name and its lower-cased form have the same extension |
| `Classifier.CategoryIgnoresCase` | java/FileOrganizerBot.java:55-65 | two names equal up to letter case get the same category |
| `Classifier.ImageNamesIgnoreCase` | java/FileOrganizerBot.java:61 | `IMG.PNG` and `img.png` are both Images |
| `Classifier.LastExtensionCounts` | java/FileOrganizerBot.java:87-90 | only the text after the last dot counts: `photo.tar.jpeg` is Images |
| `Classifier.OthersByDefault` | java/FileOrganizerBot.java:56-65 | no extension (`README`, `pdf`) or an empty one (`archive.`) gives Others |
| `Storage.MakeDir` | java/FileOrganizerBot.java:68 | mkdir succeeds exactly when nothing is at the path and its parent is a directory; afterwards something is at the path if the parent is a directory; files are untouched; the tree stays well formed |
| `Storage.MoveFile` | java/FileOrganizerBot.java:83 | the move succeeds exactly when the source is a file, the target's parent is a directory and the target is not a directory; then the source is gone, the target is a file, every other path is as before and the tree stays well formed |
| `Storage.MoveFileCount` | java/FileOrganizerBot.java:83 | a move onto an existing file removes one file from the count (it is replaced); onto a free path the count is kept |
| `Storage.ArriveFile` | java/FileOrganizerBot.java:46-50 | once a check has seen the file, a file is at its path: it is added when nothing was there and its folder is a directory; no directory and no other path changes; the tree stays well formed |
| `Storage.FileSystem.Arrive` | java/FileOrganizerBot.java:46-50 | the new state is that of `ArriveFile`; the tree stays well formed |
| `Storage.FileSystem.Mkdir` | java/FileOrganizerBot.java:68 | the new state and the answer are those of `MakeDir`; the tree stays well formed |
| `Storage.FileSystem.Move` | java/FileOrganizerBot.java:83 | the new state is that of `MoveFile` when it succeeds and the old state when it fails |
| `Organizer.WaitsFrom` | java/FileOrganizerBot.java:45-49 | the loop stops at the first try at which the file exists, or after five waits, whichever comes first |
| `Organizer.PresentFileFoundAtOnce` | java/FileOrganizerBot.java:45-50 | when every existence check sees the file, the loop does not wait and the final check finds it |
| `Organizer.Settle` | java/FileOrganizerBot.java:45-53 | at most five waits, none of them after the file was seen; the final check's answer is returned |
| `Organizer.TargetFolder` | java/FileOrganizerBot.java:55-65 | the folder name of the file name's category; `TargetFolderChoice` states which |
| `Organizer.TargetFolderChoice` | java/FileOrganizerBot.java:56-65 | the target folder is one of the six category folders, and it stays Others exactly when the switch lists no case for the extension |
| `Organizer.DestDir` | java/FileOrganizerBot.java:67 | the category folder sits next to the file and is named after the file's category |
| `Organizer.CollisionName` | java/FileOrganizerBot.java:76-80 | there is no collision name (Java throws) exactly when the name has no dot; otherwise it is one plus the timestamp longer than the name, so it differs from it |
| `Organizer.CollisionNameParts` | java/FileOrganizerBot.java:77-80 | the collision name is the text before the last dot, `_`, the timestamp, then the extension from the last dot on |
| `Organizer.CollisionKeepsExtension` | java/FileOrganizerBot.java:77-80 | with a dot-free timestamp the collision name has the same extension and category as the name |
| `Organizer.Destination` | java/FileOrganizerBot.java:73-81 | the destination is a direct child of the category folder; there is none exactly when the plain name is taken and has no dot |
| `Organizer.Prepared` | java/FileOrganizerBot.java:50-68 | after the arrival and the mkdir only the watched file and the category folder can have changed; the category folder exists when it did or the file's folder is a directory; at most that one directory is new; the tree stays well formed |
| `Organizer.Organize` | java/FileOrganizerBot.java:41-85 | a directory is skipped and a file never found is given up, both with nothing changed; otherwise the category folder exists afterwards (when the file's folder is a directory) and is the only directory that can be created; the already-organized skip happens exactly when the parent folder is named after the category; the index failure happens exactly on a dot-less collision; without a move the files are unchanged except that the watched file may have arrived; the tree stays well formed |
| `Organizer.MovedFile` | java/FileOrganizerBot.java:46-83 | a move happens only for a file that was there or arrived during the settle loop; afterwards the source is gone and the destination is a file in the category folder, under its own name when that was free and the collision name otherwise; no other file changed |
| `Organizer.MovedFileCount` | java/FileOrganizerBot.java:83 | a move onto a file that already existed loses that file: the count is that of the other files; otherwise it is one more, the moved file |
| `Organizer.ArrivingFileIsMoved` | java/FileOrganizerBot.java:46-83 | a file missing at the start that the final check reports, with its name free in its category folder, ends up there under its name, the folder being created |
| `Organizer.LateArrival` | java/FileOrganizerBot.java:45-83 | a download missing at the first check and present from the second waits once and is then moved from `D/a.pdf` to `D/Documents/a.pdf` |
| `Organizer.ReorganizeIsSkipped` | java/FileOrganizerBot.java:67-71 | a file just moved is already organized when handed over again, and stays put, but a category folder is created inside its folder |
| `Organizer.MoveUnderOwnName` | java/FileOrganizerBot.java:67-83 | a file whose name is free in its category folder ends up there under its name, with the folder present |
| `Organizer.MoveUnderCollisionName` | java/FileOrganizerBot.java:73-83 | a file whose name is taken ends up in its category folder under the collision name |
| `Organizer.TwoFilesOneFolder` | java/FileOrganizerBot.java:67-83 | two files of one category both land in one category folder, created once |
| `Organizer.CollisionScenario` | java/FileOrganizerBot.java:73-83 | a second `report.pdf` becomes `Documents/report_<timestamp>.pdf` beside the first |
| `Organizer.NoDotCollision` | java/FileOrganizerBot.java:76-77 | a colliding `README` makes the call fail with nothing changed |
| `Organizer.AlreadyOrganizedStillCreatesFolder` | java/FileOrganizerBot.java:67-71 | a PDF in a folder named Documents stays, but an empty `Documents/Documents` folder is created |
| `Organizer.Prepare` | java/FileOrganizerBot.java:50-68 | the new file system is `Prepared` of the old: the arrival, then mkdir of the category folder unless something is there; the tree stays well formed |
| `Organizer.ChooseDestination` | java/FileOrganizerBot.java:73-81 | the chosen destination is `Destination` of the current file system: the own name when free, else the collision name, none for a dot-less name; nothing changes |
| `Organizer.OrganizeFile` | java/FileOrganizerBot.java:41-85 | the method's outcome and new file system are those of `Organize` for the answer of the check after the settle loop; the tree stays well formed |

## Left out

- The watch loop in `main` (registration, `take`, `pollEvents`, `reset`) and the hard-coded watch
  folder: operating-system event plumbing.
- One thread per event and the per-thread catch of `IOException`: concurrency. Each call is
  modelled alone, as if no other call changed the file system while it runs. Outside changes
  to the watched file reach the model only through the probe oracle, which may report the file
  as missing or present at each check. A file that the final check reports but that is removed
  again before the move is not modelled.
- `Thread.sleep(500)`: only the number of waits is modelled.
- `SimpleDateFormat` and `Date`: the timestamp is an opaque string parameter. Its
  `yyyyMMdd_HHmmss` format has no dot, which `CollisionKeepsExtension` assumes.
- Console output.
- `Text.Lower`: lowercases ASCII letters only, and assumes a default locale that maps A-Z to
  a-z. Java's `toLowerCase()` uses the default locale: under a Turkish or Azerbaijani locale `I`
  becomes the dotless `ı`, so `ICON.GIF` gives `gıf` and goes to Others, which the model does
  not capture. Java also maps other letters, for example the Kelvin sign to `k`, which could
  make a non-ASCII extension match the table.
- `Storage.MakeDir` and `Storage.MoveFile`: permission, disk-full and cross-device failures are
  not modelled. A move onto an empty directory fails in the model; Java would replace the
  directory. Atomicity of the move is not modelled.
- File systems that compare names without regard to case are not modelled; names are compared
  exactly.
- `Organizer.OrganizeFile` requires a path with a parent folder that has a name. `main` always
  builds the path as the watch folder plus the file name. Java would throw a
  `NullPointerException` for a parent-less path.
- `Organizer.OrganizeFile` does not tie the probe oracle to the file system: the oracle may
  report a file that the file system holds as missing, so the call can wait for it or give up
  with `NotFound` while it stays in place. Java's `exists` answers that way only when another
  process removes the file meanwhile. `PresentFileFoundAtOnce` shows that an oracle that always
  sees the file gives no wait and a found file.
- `Organizer.OrganizeFile` reads `isDirectory` on the same file system state the rest of the call
  acts on. A directory that appears at the path during the settle loop is not modelled.
