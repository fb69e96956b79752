/** The file system the organizer acts on: a set of file paths and a set of directory paths,
    with the three operations the organizer uses (exists, mkdir and a replacing move). */
module Storage {
  import opened Wrappers

  /** A path as its sequence of names from the root; [] is the root itself. */
  type Path = seq<string>

  /** File.getParent: the path without its last name. */
  function Parent(p: Path): Path
    requires p != []
  {
    p[..|p| - 1]
  }

  /** File.getName: the last name of the path. */
  function Name(p: Path): string
    requires p != []
  {
    p[|p| - 1]
  }

  /** Appending a name and taking it off again gives back both halves. */
  lemma ParentOfChild(dir: Path, name: string)
    ensures Parent(dir + [name]) == dir && Name(dir + [name]) == name
  {
  }

  /** A snapshot of the file system: which paths are regular files and which are directories. */
  datatype Disk = Disk(files: set<Path>, dirs: set<Path>)

  /** File.exists: something, file or directory, is at p. */
  predicate ExistsIn(d: Disk, p: Path) {
    p in d.files || p in d.dirs
  }

  /** A file system is a tree: nothing is both a file and a directory, and everything but the
      root sits in a directory. */
  predicate WellFormed(d: Disk) {
    d.files !! d.dirs
    && (forall p :: p in d.files ==> p != [] && Parent(p) in d.dirs)
    && (forall p :: p in d.dirs && p != [] ==> Parent(p) in d.dirs)
  }

  /** File.mkdir: creates the directory p when nothing is there yet and its parent is a directory,
      and answers whether it did. */
  function MakeDir(d: Disk, p: Path): (r: (Disk, bool))
    requires p != []
    ensures r.1 <==> !ExistsIn(d, p) && Parent(p) in d.dirs
    ensures ExistsIn(r.0, p) <==> ExistsIn(d, p) || Parent(p) in d.dirs
    ensures r.0.files == d.files
    ensures r.0.dirs == d.dirs || r.0.dirs == d.dirs + {p}
    ensures WellFormed(d) ==> WellFormed(r.0)
  {
    if !ExistsIn(d, p) && Parent(p) in d.dirs then (Disk(d.files, d.dirs + {p}), true) else (d, false)
  }

  /** The watched file as the process writing it leaves it once an existence check has seen it:
      a file at p, created there if nothing was at p yet and its parent is a directory. */
  function ArriveFile(d: Disk, p: Path): (r: Disk)
    requires p != []
    ensures r.dirs == d.dirs
    ensures p in r.files <==> p in d.files || (!ExistsIn(d, p) && Parent(p) in d.dirs)
    ensures forall q :: q != p ==> (q in r.files <==> q in d.files)
    ensures WellFormed(d) ==> WellFormed(r)
  {
    if !ExistsIn(d, p) && Parent(p) in d.dirs then Disk(d.files + {p}, d.dirs) else d
  }

  /** Files.move with REPLACE_EXISTING: the regular file src is renamed to dst, replacing a file
      already at dst; it fails (None) when src is not a file, dst's parent is not a directory
      or a directory stands at dst. */
  function MoveFile(d: Disk, src: Path, dst: Path): (r: Option<Disk>)
    requires dst != []
    ensures r.Some? <==> src in d.files && Parent(dst) in d.dirs && dst !in d.dirs
    ensures r.Some? ==> dst in r.value.files && (src != dst ==> src !in r.value.files)
    ensures r.Some? ==> forall p :: p != src && p != dst ==> (p in r.value.files <==> p in d.files)
    ensures r.Some? ==> r.value.dirs == d.dirs
    ensures r.Some? && WellFormed(d) ==> WellFormed(r.value)
  {
    if src in d.files && Parent(dst) in d.dirs && dst !in d.dirs then
      Some(Disk(d.files - {src} + {dst}, d.dirs))
    else
      None
  }

  /** Moving onto an existing file replaces it: the number of files drops by one; moving onto a
      free path keeps the number of files. */
  lemma MoveFileCount(d: Disk, src: Path, dst: Path)
    requires dst != [] && src != dst
    requires MoveFile(d, src, dst).Some?
    ensures |MoveFile(d, src, dst).value.files| == if dst in d.files then |d.files| - 1 else |d.files|
  {
    var rest := d.files - {src};
    assert |rest| == |d.files| - 1;
    if dst in d.files {
      assert rest + {dst} == rest;
    } else {
      assert |rest + {dst}| == |rest| + 1;
    }
  }

  /** The mutable file system seen through java.io.File and java.nio.file.Files. */
  class FileSystem {
    var files: set<Path>
    var dirs: set<Path>

    /** The current contents as a value. */
    function State(): Disk
      reads this
    {
      Disk(files, dirs)
    }

    ghost predicate Valid()
      reads this
    {
      WellFormed(State())
    }

    constructor (initial: Disk)
      requires WellFormed(initial)
      ensures Valid() && State() == initial
    {
      files := initial.files;
      dirs := initial.dirs;
    }

    /** File.exists. */
    predicate Exists(p: Path)
      reads this
    {
      ExistsIn(State(), p)
    }

    /** File.isDirectory. */
    predicate IsDirectory(p: Path)
      reads this
    {
      p in dirs
    }

    /** The process writing the watched file has created it by the time an existence check
        reports it. */
    method Arrive(p: Path)
      requires Valid() && p != []
      modifies this
      ensures Valid()
      ensures State() == ArriveFile(old(State()), p)
    {
      if !Exists(p) && Parent(p) in dirs {
        files := files + {p};
      }
    }

    /** File.mkdir. */
    method Mkdir(p: Path) returns (made: bool)
      requires Valid() && p != []
      modifies this
      ensures Valid()
      ensures (State(), made) == MakeDir(old(State()), p)
    {
      made := !Exists(p) && Parent(p) in dirs;
      if made {
        dirs := dirs + {p};
      }
    }

    /** Files.move(src, dst, REPLACE_EXISTING); false where Java throws an IOException. */
    method Move(src: Path, dst: Path) returns (ok: bool)
      requires Valid() && dst != []
      modifies this
      ensures Valid()
      ensures ok == MoveFile(old(State()), src, dst).Some?
      ensures State() == if ok then MoveFile(old(State()), src, dst).value else old(State())
    {
      ok := src in files && Parent(dst) in dirs && dst !in dirs;
      if ok {
        files := files - {src} + {dst};
      }
    }
  }
}
