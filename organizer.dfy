/** organizeFile: settle a newly created file, pick its category folder, create that folder,
    choose a collision-free name and move the file there. */
module Organizer {
  import opened Wrappers
  import opened Text
  import opened Classifier
  import opened Storage

  /** The exceptions organizeFile can end with. */
  datatype Error =
    | IndexOutOfBounds  // substring(0, -1) on a colliding name without a dot
    | IOFailure         // Files.move threw an IOException

  /** How one call of organizeFile ends. */
  datatype Outcome =
    | SkippedDirectory  // the path is a directory
    | NotFound          // the file still did not exist after the waits
    | AlreadyOrganized  // the file's folder is already named after its category
    | Moved(dest: Path)
    | Failed(error: Error)

  /** The number of sleeps the settle loop allows. */
  const MaxTries := 5

  // ---------------------------------------------------------------- settling

  /** The value of tries when the settle loop stops, having reached try k: the first try at which
      the file existed, or MaxTries. probe(j) is the answer of the j-th existence query. */
  function WaitsFrom(probe: nat -> bool, k: nat): (n: nat)
    requires k <= MaxTries
    ensures k <= n <= MaxTries
    ensures forall j :: k <= j < n ==> !probe(j)
    ensures n < MaxTries ==> probe(n)
    decreases MaxTries - k
  {
    if probe(k) || k == MaxTries then k else WaitsFrom(probe, k + 1)
  }

  /** The number of sleeps the settle loop performs. */
  function Waits(probe: nat -> bool): nat {
    WaitsFrom(probe, 0)
  }

  /** When every existence check sees the file, as when nothing else touches a file that is already
      there, the loop does not wait and the final check finds the file. */
  lemma PresentFileFoundAtOnce(probe: nat -> bool)
    requires forall k :: probe(k)
    ensures Waits(probe) == 0 && probe(Waits(probe) + 1)
  {
    assert probe(0);
  }

  /** The settle loop of organizeFile followed by its final existence check: waits while the file
      does not exist, at most MaxTries times, and reports whether the file then exists. */
  method Settle(probe: nat -> bool) returns (tries: nat, found: bool)
    ensures tries == Waits(probe) && tries <= MaxTries
    ensures forall j :: 0 <= j < tries ==> !probe(j)
    ensures found == probe(tries + 1)
  {
    tries := 0;
    while !probe(tries) && tries < MaxTries
      invariant tries <= MaxTries
      invariant WaitsFrom(probe, tries) == Waits(probe)
      decreases MaxTries - tries
    {
      tries := tries + 1;
    }
    found := probe(tries + 1);
  }

  // ---------------------------------------------------------------- placement

  /** The name of the category folder a file name belongs in. */
  function TargetFolder(fileName: string): string {
    FolderName(CategoryOf(fileName))
  }

  /** The folder is one of the six category folders, and Others exactly when the switch lists no
      case for the extension. */
  lemma TargetFolderChoice(fileName: string)
    ensures TargetFolder(fileName) in {"Documents", "Images", "Music", "Videos", "Software", "Others"}
    ensures TargetFolder(fileName) == "Others" <==> GetExtension(fileName) !in KnownExtensions
  {
    ClassifyTable(GetExtension(fileName));
  }

  /** The category folder next to the file. */
  function DestDir(file: Path): (dir: Path)
    requires |file| >= 2
    ensures dir != [] && Parent(dir) == Parent(file) && Name(dir) == TargetFolder(Name(file))
  {
    Parent(file) + [TargetFolder(Name(file))]
  }

  /** The name used when the plain destination is taken: the base before the last dot, "_",
      the timestamp, then the extension from the last dot on. None where Java throws because
      the name has no dot. */
  function CollisionName(name: string, timestamp: string): (r: Option<string>)
    ensures r.None? <==> '.' !in name
    ensures r.Some? ==> |r.value| == |name| + 1 + |timestamp| && r.value != name
  {
    var dot := LastIndexOf(name, '.');
    if dot == -1 then None else Some(name[..dot] + "_" + timestamp + name[dot..])
  }

  /** The renamed file starts with the base, then "_" and the timestamp, and ends with the
      original extension, dot included. */
  lemma CollisionNameParts(name: string, timestamp: string, k: int)
    requires 0 <= k < |name| && name[k] == '.' && '.' !in name[k + 1..]
    ensures CollisionName(name, timestamp) == Some(name[..k] + "_" + timestamp + name[k..])
  {
    LastDotUnique(name, LastIndexOf(name, '.'));
  }

  /** A timestamp without dots keeps the renamed file's extension, so it stays in the same
      category. */
  lemma CollisionKeepsExtension(name: string, timestamp: string)
    requires '.' !in timestamp
    requires CollisionName(name, timestamp).Some?
    ensures GetExtension(CollisionName(name, timestamp).value) == GetExtension(name)
    ensures TargetFolder(CollisionName(name, timestamp).value) == TargetFolder(name)
  {
    var dot := LastIndexOf(name, '.');
    var renamed := name[..dot] + "_" + timestamp + name[dot..];
    var at := dot + 1 + |timestamp|;
    assert renamed[at] == '.';
    assert renamed[at + 1..] == name[dot + 1..];
    ExtensionAfterLastDot(renamed, at);
    ExtensionAfterLastDot(name, dot);
  }

  /** The destination chosen in destDir: the file's own name when nothing is there, otherwise the
      collision name; None where that throws. */
  function Destination(d: Disk, destDir: Path, name: string, timestamp: string): (r: Option<Path>)
    ensures r.Some? ==> |r.value| == |destDir| + 1 && r.value[..|destDir|] == destDir
    ensures r.None? <==> ExistsIn(d, destDir + [name]) && '.' !in name
  {
    if !ExistsIn(d, destDir + [name]) then Some(destDir + [name])
    else match CollisionName(name, timestamp)
      case None => None
      case Some(renamed) => Some(destDir + [renamed])
  }

  /** The file system once the settle loop has seen the file and the category folder has been
      made unless something was at its path (lines 67-68). */
  function Prepared(d: Disk, file: Path): (r: Disk)
    requires |file| >= 2
    ensures r.files == ArriveFile(d, file).files
    ensures r.dirs == d.dirs || r.dirs == d.dirs + {DestDir(file)}
    ensures forall p :: p != file && p != DestDir(file) ==> (ExistsIn(r, p) <==> ExistsIn(d, p))
    ensures ExistsIn(r, DestDir(file)) <==> ExistsIn(ArriveFile(d, file), DestDir(file)) || Parent(file) in d.dirs
    ensures WellFormed(d) ==> WellFormed(r)
  {
    var d0 := ArriveFile(d, file);
    if ExistsIn(d0, DestDir(file)) then d0 else MakeDir(d0, DestDir(file)).0
  }

  /** The whole of organizeFile on the file system d it starts from, where found is the answer of
      the existence check after the settle loop. A file that check reports is there from then on:
      if it was missing at the start, the process writing it has created it meanwhile. */
  function Organize(d: Disk, file: Path, timestamp: string, found: bool): (r: (Outcome, Disk))
    requires |file| >= 2
    // the early exits change nothing
    ensures r.0 == SkippedDirectory <==> file in d.dirs
    ensures r.0 == NotFound <==> file !in d.dirs && !found
    ensures r.0 == SkippedDirectory || r.0 == NotFound ==> r.1 == d
    // past the early exits the category folder exists, whether or not it did before
    ensures file !in d.dirs && found && Parent(file) in d.dirs ==> ExistsIn(r.1, DestDir(file))
    // and it is the only directory that may be created
    ensures r.1.dirs == d.dirs || r.1.dirs == d.dirs + {DestDir(file)}
    ensures r.0 == AlreadyOrganized <==>
      file !in d.dirs && found && Name(Parent(file)) == TargetFolder(Name(file))
    ensures r.0 == Failed(IndexOutOfBounds) <==>
      file !in d.dirs && found && Name(Parent(file)) != TargetFolder(Name(file))
      && ExistsIn(d, DestDir(file) + [Name(file)]) && '.' !in Name(file)
    // only a move takes a file away; otherwise at most the arrived file is new
    ensures !r.0.Moved? ==> r.1.files == d.files || r.1.files == d.files + {file}
    ensures WellFormed(d) ==> WellFormed(r.1)
  {
    if file in d.dirs then (SkippedDirectory, d)
    else if !found then (NotFound, d)
    else
      var destDir := DestDir(file);
      var d1 := Prepared(d, file);
      assert destDir + [Name(file)] != file;
      if Name(Parent(file)) == TargetFolder(Name(file)) then (AlreadyOrganized, d1)
      else match Destination(d1, destDir, Name(file), timestamp)
        case None => (Failed(IndexOutOfBounds), d1)
        case Some(dest) =>
          match MoveFile(d1, file, dest)
          case None => (Failed(IOFailure), d1)
          case Some(d2) => (Moved(dest), d2)
  }

  /** What a successful move did: the file left its folder for a path in its category folder,
      under its own name when that was free and under the collision name otherwise, and no other
      file appeared or disappeared. */
  lemma MovedFile(d: Disk, file: Path, timestamp: string, found: bool)
    requires |file| >= 2
    requires Organize(d, file, timestamp, found).0.Moved?
    ensures var r := Organize(d, file, timestamp, found);
      var dest, after := r.0.dest, r.1;
      && (file in d.files || (!ExistsIn(d, file) && Parent(file) in d.dirs))
      && file !in after.files && dest in after.files
      && dest != [] && Parent(dest) == DestDir(file)
      && after.files == d.files - {file} + {dest}
      && (!ExistsIn(d, DestDir(file) + [Name(file)]) ==> Name(dest) == Name(file))
      && (ExistsIn(d, DestDir(file) + [Name(file)]) ==>
            CollisionName(Name(file), timestamp) == Some(Name(dest)))
  {
    assert found && file !in d.dirs && Name(Parent(file)) != TargetFolder(Name(file));
    var destDir := DestDir(file);
    var d1 := Prepared(d, file);
    assert destDir + [Name(file)] != file;
    var dest := Destination(d1, destDir, Name(file), timestamp).value;
    assert dest == destDir + [Name(dest)];
    var d2 := MoveFile(d1, file, dest).value;
    assert Organize(d, file, timestamp, found) == (Moved(dest), d2);
    assert d2.files == d1.files - {file} + {dest};
  }

  /** REPLACE_EXISTING: a move onto an existing file (a second collision within the same
      timestamp) loses that file, so one file fewer is there than before plus the moved one;
      otherwise no file is lost. */
  lemma MovedFileCount(d: Disk, file: Path, timestamp: string, found: bool)
    requires |file| >= 2
    requires Organize(d, file, timestamp, found).0.Moved?
    ensures var r := Organize(d, file, timestamp, found);
      |r.1.files| == if r.0.dest in d.files then |d.files - {file}| else |d.files - {file}| + 1
  {
    MovedFile(d, file, timestamp, found);
    var r := Organize(d, file, timestamp, found);
    var rest := d.files - {file};
    assert r.1.files == rest + {r.0.dest};
    assert r.0.dest in d.files <==> r.0.dest in rest;
    AddCount(rest, r.0.dest);
  }

  /** Adding an element grows a set by one unless it was there. */
  lemma AddCount(s: set<Path>, x: Path)
    ensures |s + {x}| == if x in s then |s| else |s| + 1
  {
    if x in s {
      assert s + {x} == s;
    }
  }

  /** A file that was missing when the call started but that the check after the settle loop
      reports is moved into its category folder like any other. */
  lemma ArrivingFileIsMoved(d: Disk, file: Path, timestamp: string)
    requires WellFormed(d) && |file| >= 2
    requires !ExistsIn(d, file) && Parent(file) in d.dirs
    requires Name(Parent(file)) != TargetFolder(Name(file)) && Name(file) != TargetFolder(Name(file))
    requires DestDir(file) !in d.files && !ExistsIn(d, DestDir(file) + [Name(file)])
    ensures Organize(d, file, timestamp, true) ==
      (Moved(DestDir(file) + [Name(file)]),
       Disk(d.files + {DestDir(file) + [Name(file)]}, d.dirs + {DestDir(file)}))
  {
    var d0 := ArriveFile(d, file);
    assert d0 == Disk(d.files + {file}, d.dirs);
    assert file != DestDir(file) by {
      assert Name(DestDir(file)) != Name(file);
    }
    MoveUnderOwnName(d0, file, timestamp);
    assert Organize(d0, file, timestamp, true) == Organize(d, file, timestamp, true);
    assert d.files + {file} - {file} == d.files;
  }

  /** A download that is missing at the first check and there from the second on: one wait, then
      D/a.pdf is moved to D/Documents/a.pdf, the folder being created on the way. */
  lemma LateArrival()
    ensures var probe := (k: nat) => k >= 1;
      var d := Disk({}, {[], ["D"]});
      && Waits(probe) == 1
      && Organize(d, ["D", "a.pdf"], "20240101_000000", probe(Waits(probe) + 1))
         == (Moved(["D", "Documents", "a.pdf"]),
             Disk({["D", "Documents", "a.pdf"]}, {[], ["D"], ["D", "Documents"]}))
  {
    var probe := (k: nat) => k >= 1;
    assert WaitsFrom(probe, 1) == 1;
    assert Waits(probe) == 1;
    assert probe(2);
    ArrivingPdf();
  }

  /** The file system part of LateArrival. */
  lemma ArrivingPdf()
    ensures Organize(Disk({}, {[], ["D"]}), ["D", "a.pdf"], "20240101_000000", true)
      == (Moved(["D", "Documents", "a.pdf"]),
          Disk({["D", "Documents", "a.pdf"]}, {[], ["D"], ["D", "Documents"]}))
  {
    var d := Disk({}, {[], ["D"]});
    var file := ["D", "a.pdf"];
    APdfPaths();
    DownloadsWellFormed();
    ArrivingFileIsMoved(d, file, "20240101_000000");
    assert d.files + {["D", "Documents", "a.pdf"]} == {["D", "Documents", "a.pdf"]};
    assert d.dirs + {["D", "Documents"]} == {[], ["D"], ["D", "Documents"]};
  }

  /** The paths in LateArrival: D/a.pdf goes to D/Documents/a.pdf. */
  lemma APdfPaths()
    ensures Parent(["D", "a.pdf"]) == ["D"] && Name(["D", "a.pdf"]) == "a.pdf"
    ensures Name(["D"]) == "D" && Parent(["D"]) == []
    ensures DestDir(["D", "a.pdf"]) == ["D", "Documents"]
    ensures DestDir(["D", "a.pdf"]) + [Name(["D", "a.pdf"])] == ["D", "Documents", "a.pdf"]
  {
    APdfIsDocument();
  }

  /** The file system of LateArrival: the root and one folder D. */
  lemma DownloadsWellFormed()
    ensures WellFormed(Disk({}, {[], ["D"]}))
  {
    var d := Disk({}, {[], ["D"]});
    forall p | p in d.dirs && p != []
      ensures Parent(p) in d.dirs
    {
      assert p == ["D"];
    }
  }

  /** a.pdf belongs in Documents. */
  lemma APdfIsDocument()
    ensures TargetFolder("a.pdf") == "Documents"
  {
    CategoryOfExtension("a", "pdf");
    assert "a" + "." + "pdf" == "a.pdf";
    assert Lower("pdf") == "pdf";
  }

  /** A file that was just moved is already organized: handing it over again leaves every file
      where it is, although the category folder is created once more inside the category folder
      (the folder is made before the already-organized check). */
  lemma ReorganizeIsSkipped(d: Disk, file: Path, timestamp: string, later: string)
    requires WellFormed(d) && |file| >= 2 && '.' !in timestamp
    requires Organize(d, file, timestamp, true).0.Moved?
    ensures var (first, after) := Organize(d, file, timestamp, true);
      var dest := first.dest;
      |dest| >= 2
      && Organize(after, dest, later, true).0 == AlreadyOrganized
      && Organize(after, dest, later, true).1.files == after.files
      && DestDir(dest) == DestDir(file) + [TargetFolder(Name(file))]
      && (DestDir(dest) in Organize(after, dest, later, true).1.dirs || DestDir(dest) in after.files)
  {
    MovedFile(d, file, timestamp, true);
    var (first, after) := Organize(d, file, timestamp, true);
    var dest := first.dest;
    if Name(dest) != Name(file) {
      CollisionKeepsExtension(Name(file), timestamp);
    }
    assert TargetFolder(Name(dest)) == TargetFolder(Name(file));
    assert dest == DestDir(file) + [Name(dest)];
    assert Parent(dest) in after.dirs;
  }

  /** A file whose name is still free in its category folder is moved there under that name; the
      category folder is there afterwards and nothing else changes. */
  lemma MoveUnderOwnName(d: Disk, file: Path, timestamp: string)
    requires WellFormed(d) && |file| >= 2 && file in d.files
    requires Name(Parent(file)) != TargetFolder(Name(file))
    requires DestDir(file) !in d.files && !ExistsIn(d, DestDir(file) + [Name(file)])
    ensures Organize(d, file, timestamp, true) ==
      (Moved(DestDir(file) + [Name(file)]),
       Disk(d.files - {file} + {DestDir(file) + [Name(file)]}, d.dirs + {DestDir(file)}))
  {
    var destDir := DestDir(file);
    var dest := destDir + [Name(file)];
    ParentOfChild(destDir, Name(file));
    assert Parent(file) in d.dirs;
    assert ArriveFile(d, file) == d;
    var d1 := Disk(d.files, d.dirs + {destDir});
    assert (if ExistsIn(d, destDir) then d else MakeDir(d, destDir).0) == d1;
    assert !ExistsIn(d1, dest);
    assert Destination(d1, destDir, Name(file), timestamp) == Some(dest);
    assert MoveFile(d1, file, dest) == Some(Disk(d.files - {file} + {dest}, d1.dirs));
  }

  /** A file whose name is taken in its category folder is moved there under the collision name. */
  lemma MoveUnderCollisionName(d: Disk, file: Path, timestamp: string)
    requires WellFormed(d) && |file| >= 2 && file in d.files && '.' in Name(file)
    requires Name(Parent(file)) != TargetFolder(Name(file))
    requires ExistsIn(d, DestDir(file) + [Name(file)])
    requires DestDir(file) + [CollisionName(Name(file), timestamp).value] !in d.dirs
    ensures var dest := DestDir(file) + [CollisionName(Name(file), timestamp).value];
      Organize(d, file, timestamp, true) == (Moved(dest), Disk(d.files - {file} + {dest}, d.dirs))
  {
    var dest := DestDir(file) + [CollisionName(Name(file), timestamp).value];
    ParentOfChild(DestDir(file), Name(file));
    ParentOfChild(DestDir(file), CollisionName(Name(file), timestamp).value);
    assert DestDir(file) in d.dirs;
    assert ArriveFile(d, file) == d;
  }

  /** Two files of one category arriving in a folder that has no category folder yet both land in
      it under their own names, and the category folder is created once. */
  lemma TwoFilesOneFolder(d: Disk, dir: Path, a: string, b: string, t1: string, t2: string)
    requires WellFormed(d) && dir != [] && a != b
    requires dir + [a] in d.files && dir + [b] in d.files
    requires TargetFolder(a) == TargetFolder(b) && Name(dir) != TargetFolder(a)
    requires !ExistsIn(d, dir + [TargetFolder(a)])
    ensures var folder := dir + [TargetFolder(a)];
      var (first, mid) := Organize(d, dir + [a], t1, true);
      var (second, last) := Organize(mid, dir + [b], t2, true);
      && first == Moved(folder + [a]) && second == Moved(folder + [b])
      && last.dirs == d.dirs + {folder}
      && last.files == d.files - {dir + [a], dir + [b]} + {folder + [a], folder + [b]}
  {
    var folder := dir + [TargetFolder(a)];
    ParentOfChild(dir, a);
    ParentOfChild(dir, b);
    ParentOfChild(folder, a);
    ParentOfChild(folder, b);
    assert DestDir(dir + [a]) == folder && DestDir(dir + [b]) == folder;
    assert folder + [a] !in d.files && folder + [a] !in d.dirs;
    MoveUnderOwnName(d, dir + [a], t1);
    var mid := Disk(d.files - {dir + [a]} + {folder + [a]}, d.dirs + {folder});
    assert WellFormed(mid);
    assert folder + [b] != folder + [a];
    assert folder + [b] !in mid.files && folder + [b] !in mid.dirs;
    MoveUnderOwnName(mid, dir + [b], t2);
  }

  /** A second report.pdf arriving while Documents/report.pdf exists is renamed with the
      timestamp and placed beside the first one. */
  lemma CollisionScenario(d: Disk, dir: Path, timestamp: string)
    requires WellFormed(d) && dir != [] && Name(dir) != "Documents"
    requires dir + ["report.pdf"] in d.files && dir + ["Documents", "report.pdf"] in d.files
    requires dir + ["Documents", "report_" + timestamp + ".pdf"] !in d.dirs
    ensures var (outcome, after) := Organize(d, dir + ["report.pdf"], timestamp, true);
      && outcome == Moved(dir + ["Documents", "report_" + timestamp + ".pdf"])
      && dir + ["Documents", "report.pdf"] in after.files
      && dir + ["Documents", "report_" + timestamp + ".pdf"] in after.files
      && dir + ["report.pdf"] !in after.files
  {
    ReportPdfNames(timestamp);
    var file := dir + ["report.pdf"];
    var renamed := "report_" + timestamp + ".pdf";
    ParentOfChild(dir, "report.pdf");
    assert DestDir(file) == dir + ["Documents"];
    assert DestDir(file) + ["report.pdf"] == dir + ["Documents", "report.pdf"];
    assert DestDir(file) + [renamed] == dir + ["Documents", renamed];
    MoveUnderCollisionName(d, file, timestamp);
  }

  /** The names in CollisionScenario: report.pdf is a document and its collision name is
      report_<timestamp>.pdf. */
  lemma ReportPdfNames(timestamp: string)
    ensures TargetFolder("report.pdf") == "Documents" && '.' in "report.pdf"
    ensures CollisionName("report.pdf", timestamp) == Some("report_" + timestamp + ".pdf")
  {
    ReportPdfIsDocument();
    CollisionNameParts("report.pdf", timestamp, 6);
    assert "report.pdf"[..6] == "report" && "report.pdf"[6..] == ".pdf";
    assert "report" + "_" + timestamp + ".pdf" == "report_" + timestamp + ".pdf";
  }

  /** report.pdf belongs in Documents. */
  lemma ReportPdfIsDocument()
    ensures TargetFolder("report.pdf") == "Documents" && '.' in "report.pdf"
    ensures "report.pdf"[6] == '.' && '.' !in "report.pdf"[7..]
  {
    assert "report.pdf"[6] == '.' && "report.pdf"[7..] == "pdf" == ['p', 'd', 'f'];
    ExtensionAfterLastDot("report.pdf", 6);
    assert Lower("pdf") == "pdf";
  }

  /** A name without a dot whose place in Others is taken makes substring(0, -1) throw: the call
      fails after creating nothing new and moving nothing. */
  lemma NoDotCollision(d: Disk, dir: Path, timestamp: string)
    requires WellFormed(d) && dir != [] && Name(dir) != "Others"
    requires dir + ["README"] in d.files && dir + ["Others", "README"] in d.files
    ensures Organize(d, dir + ["README"], timestamp, true) == (Failed(IndexOutOfBounds), d)
  {
    assert '.' !in "README" by {
      assert "README" == ['R', 'E', 'A', 'D', 'M', 'E'];
    }
    var file := dir + ["README"];
    ParentOfChild(dir, "README");
    assert ArriveFile(d, file) == d;
    assert DestDir(file) == dir + ["Others"];
    assert DestDir(file) + ["README"] == dir + ["Others", "README"];
    assert Parent(dir + ["Others", "README"]) == dir + ["Others"];
  }

  /** In a folder that is itself named Documents, a PDF is already organized and stays, yet an
      empty Documents folder is created inside it first. */
  lemma AlreadyOrganizedStillCreatesFolder(d: Disk, dir: Path, timestamp: string)
    requires WellFormed(d) && dir != [] && Name(dir) == "Documents"
    requires dir + ["a.pdf"] in d.files && !ExistsIn(d, dir + ["Documents"])
    ensures Organize(d, dir + ["a.pdf"], timestamp, true)
      == (AlreadyOrganized, Disk(d.files, d.dirs + {dir + ["Documents"]}))
  {
    APdfIsDocument();
    ParentOfChild(dir, "a.pdf");
    assert Parent(dir + ["a.pdf"]) in d.dirs;
    assert ArriveFile(d, dir + ["a.pdf"]) == d;
  }

  // ---------------------------------------------------------------- the imperative method

  /** The arrival of the watched file and the creation of its category folder (lines 67-68). */
  method Prepare(fs: FileSystem, file: Path)
    requires fs.Valid() && |file| >= 2
    modifies fs
    ensures fs.Valid()
    ensures fs.State() == Prepared(old(fs.State()), file)
  {
    fs.Arrive(file);
    var destDir := Parent(file) + [TargetFolder(Name(file))];
    if !fs.Exists(destDir) {
      var made := fs.Mkdir(destDir);
    }
  }

  /** The destination in destDir: the file's own name, or the collision name when that is taken;
      None where substring throws. */
  method ChooseDestination(fs: FileSystem, destDir: Path, name: string, timestamp: string)
    returns (destFile: Option<Path>)
    ensures destFile == Destination(fs.State(), destDir, name, timestamp)
  {
    destFile := Some(destDir + [name]);
    if fs.Exists(destDir + [name]) {
      var dot := LastIndexOf(name, '.');
      if dot == -1 {
        return None;
      }
      destFile := Some(destDir + [name[..dot] + "_" + timestamp + name[dot..]]);
    }
  }

  /** organizeFile on the mutable file system; probe answers the existence queries made on the
      file while another process may still be writing it. */
  method OrganizeFile(fs: FileSystem, file: Path, timestamp: string, probe: nat -> bool)
    returns (outcome: Outcome)
    requires fs.Valid() && |file| >= 2
    modifies fs
    ensures fs.Valid()
    ensures (outcome, fs.State()) == Organize(old(fs.State()), file, timestamp, probe(Waits(probe) + 1))
  {
    ghost var d := fs.State();
    if fs.IsDirectory(file) {
      assert Organize(d, file, timestamp, probe(Waits(probe) + 1)) == (SkippedDirectory, d);
      return SkippedDirectory;
    }
    var tries, found := Settle(probe);
    if !found {
      assert Organize(d, file, timestamp, found) == (NotFound, d);
      return NotFound;
    }
    Prepare(fs, file);
    ghost var d1 := fs.State();
    var name := Name(file);
    var targetFolder := TargetFolder(name);
    var destDir := Parent(file) + [targetFolder];
    assert destDir == DestDir(file);
    if Name(Parent(file)) == targetFolder {
      assert Organize(d, file, timestamp, true) == (AlreadyOrganized, d1);
      return AlreadyOrganized;
    }
    var destFile := ChooseDestination(fs, destDir, name, timestamp);
    if destFile.None? {
      assert Organize(d, file, timestamp, true) == (Failed(IndexOutOfBounds), d1);
      return Failed(IndexOutOfBounds);
    }
    var moved := fs.Move(file, destFile.value);
    if !moved {
      assert Organize(d, file, timestamp, true) == (Failed(IOFailure), d1);
      return Failed(IOFailure);
    }
    assert Organize(d, file, timestamp, true) == (Moved(destFile.value), fs.State());
    return Moved(destFile.value);
  }
}
