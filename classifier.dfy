/** Classification of a file name: its extension and the category folder it belongs in. */
module Classifier {
  import opened Text

  /** The six category folders; every file belongs to exactly one. */
  datatype Category = Documents | Images | Music | Videos | Software | Others

  /** The name of the folder a category's files are moved into. */
  function FolderName(c: Category): string {
    match c
    case Documents => "Documents"
    case Images => "Images"
    case Music => "Music"
    case Videos => "Videos"
    case Software => "Software"
    case Others => "Others"
  }

  /** getExtension: the lower-cased text after the last dot, or "" when the name has no dot.
      The result never holds a dot or an upper-case letter; ExtensionAfterLastDot and
      EmptyExtension say which text it is. */
  function GetExtension(fileName: string): (ext: string)
    ensures '.' !in fileName ==> ext == ""
    ensures '.' !in ext
    ensures forall i :: 0 <= i < |ext| ==> !IsUpper(ext[i])
  {
    var dot := LastIndexOf(fileName, '.');
    if dot == -1 then ""
    else
      LowerOfDotFree(fileName[dot + 1..]);
      Lower(fileName[dot + 1..])
  }

  /** The extension is the text after the last dot, lower-cased. */
  lemma ExtensionAfterLastDot(fileName: string, k: int)
    requires 0 <= k < |fileName| && fileName[k] == '.' && '.' !in fileName[k + 1..]
    ensures GetExtension(fileName) == Lower(fileName[k + 1..])
  {
    LastDotUnique(fileName, LastIndexOf(fileName, '.'));
  }

  /** The extension is empty exactly when the name has no dot or ends in one. */
  lemma EmptyExtension(fileName: string)
    ensures GetExtension(fileName) == "" <==> '.' !in fileName || fileName[|fileName| - 1] == '.'
  {
    var dot := LastIndexOf(fileName, '.');
    if dot != -1 {
      LowerOfDotFree(fileName[dot + 1..]);
      if fileName[|fileName| - 1] == '.' {
        LastDotUnique(fileName, dot);
        assert fileName[|fileName|..] == [];
      }
    }
  }

  /** Only one position of a name can be a dot with no dot after it. */
  lemma LastDotUnique(s: string, dot: int)
    requires 0 <= dot < |s| && s[dot] == '.' && '.' !in s[dot + 1..]
    ensures forall k :: 0 <= k < |s| && s[k] == '.' && '.' !in s[k + 1..] ==> k == dot
  {
  }

  /** Lowering a dot-free text keeps it dot-free and leaves no upper-case letter. */
  lemma LowerOfDotFree(s: string)
    requires '.' !in s
    ensures |Lower(s)| == |s|
    ensures '.' !in Lower(s)
    ensures forall i :: 0 <= i < |s| ==> !IsUpper(Lower(s)[i])
  {
    forall i | 0 <= i < |s|
      ensures Lower(s)[i] != '.'
    {
      assert s[i] != '.';
    }
  }

  /** The extensions listed in each case of the switch. */
  const DocumentExtensions: set<string> := {"pdf", "docx", "txt", "xlsx"}
  const ImageExtensions: set<string> := {"jpg", "jpeg", "png", "gif", "webp"}
  const MusicExtensions: set<string> := {"mp3", "wav"}
  const VideoExtensions: set<string> := {"mp4", "mkv"}
  const SoftwareExtensions: set<string> := {"exe", "msi"}

  /** Every extension the switch lists. */
  const KnownExtensions: set<string> :=
    DocumentExtensions + ImageExtensions + MusicExtensions + VideoExtensions + SoftwareExtensions

  /** The switch on the extension; anything it does not list, "" included, goes to Others. */
  function Classify(ext: string): Category {
    if ext in DocumentExtensions then Documents
    else if ext in ImageExtensions then Images
    else if ext in MusicExtensions then Music
    else if ext in VideoExtensions then Videos
    else if ext in SoftwareExtensions then Software
    else Others
  }

  /** The cases of the switch list disjoint extensions, so each category holds exactly the
      extensions of its case, whatever the order of the cases, and Others holds the rest. */
  lemma ClassifyTable(ext: string)
    ensures Classify(ext) == Documents <==> ext in DocumentExtensions
    ensures Classify(ext) == Images <==> ext in ImageExtensions
    ensures Classify(ext) == Music <==> ext in MusicExtensions
    ensures Classify(ext) == Videos <==> ext in VideoExtensions
    ensures Classify(ext) == Software <==> ext in SoftwareExtensions
    ensures Classify(ext) == Others <==> ext !in KnownExtensions
  {
  }

  /** The category of a file name. */
  function CategoryOf(fileName: string): Category {
    Classify(GetExtension(fileName))
  }

  /** A name without an extension, having no dot or ending in one, is in Others. */
  lemma NoExtensionIsOthers(fileName: string)
    requires '.' !in fileName || fileName[|fileName| - 1] == '.'
    ensures CategoryOf(fileName) == Others
  {
    EmptyExtension(fileName);
  }

  /** A name ending in "." followed by a dot-free extension e is classified by e, lower-cased:
      whatever the base name holds, only the text after the last dot matters. */
  lemma CategoryOfExtension(base: string, e: string)
    requires '.' !in e
    ensures GetExtension(base + "." + e) == Lower(e)
    ensures CategoryOf(base + "." + e) == Classify(Lower(e))
  {
    var name := base + "." + e;
    assert name[|base|] == '.' && name[|base| + 1..] == e;
    ExtensionAfterLastDot(name, |base|);
  }

  /** The extension does not depend on the case of the name. */
  lemma GetExtensionIgnoresCase(fileName: string)
    ensures GetExtension(Lower(fileName)) == GetExtension(fileName)
  {
    LastIndexOfLower(fileName, '.');
    var dot := LastIndexOf(fileName, '.');
    if dot != -1 {
      assert Lower(fileName)[dot + 1..] == Lower(fileName[dot + 1..]);
      LowerIdempotent(fileName[dot + 1..]);
    }
  }

  /** Two names that agree up to the case of their letters fall into the same category. */
  lemma CategoryIgnoresCase(name1: string, name2: string)
    requires Lower(name1) == Lower(name2)
    ensures CategoryOf(name1) == CategoryOf(name2)
  {
    GetExtensionIgnoresCase(name1);
    GetExtensionIgnoresCase(name2);
  }

  /** Upper-case and lower-case spellings of an image name land in the same folder. */
  lemma ImageNamesIgnoreCase()
    ensures CategoryOf("IMG.PNG") == CategoryOf("img.png") == Images
  {
    LowerPngIsImage();
    LowerImgPng();
    CategoryIgnoresCase("IMG.PNG", "img.png");
  }

  /** img.png is an image. */
  lemma LowerPngIsImage()
    ensures CategoryOf("img.png") == Images
  {
    ImgPngExtension();
    assert "png" !in DocumentExtensions && "png" in ImageExtensions;
  }

  /** The extension of img.png is png. */
  lemma ImgPngExtension()
    ensures GetExtension("img.png") == "png"
  {
    assert "img.png"[3] == '.' && "img.png"[4..] == "png" == ['p', 'n', 'g'];
    ExtensionAfterLastDot("img.png", 3);
    assert Lower("png") == "png";
  }

  /** IMG.PNG and img.png lower-case to the same name. */
  lemma LowerImgPng()
    ensures Lower("IMG.PNG") == Lower("img.png") == "img.png"
  {
    assert LowerChar('I') == 'i' && LowerChar('M') == 'm' && LowerChar('G') == 'g';
    assert LowerChar('P') == 'p' && LowerChar('N') == 'n';
  }

  /** Only the text after the last dot counts. */
  lemma LastExtensionCounts()
    ensures CategoryOf("photo.tar.jpeg") == Images
  {
    CategoryOfExtension("photo.tar", "jpeg");
    assert "photo.tar" + "." + "jpeg" == "photo.tar.jpeg";
    assert Lower("jpeg") == "jpeg";
  }

  /** A missing or empty extension means Others. */
  lemma OthersByDefault()
    ensures CategoryOf("README") == Others && CategoryOf("archive.") == Others
    ensures CategoryOf("pdf") == Others
  {
    assert '.' !in "README" by {
      assert "README" == ['R', 'E', 'A', 'D', 'M', 'E'];
    }
    assert '.' !in "pdf" by {
      assert "pdf" == ['p', 'd', 'f'];
    }
    EmptyExtension("archive.");
    assert "archive."[|"archive."| - 1] == '.';
  }
}
