/**
 * The file-type gate of createShrunkenImage and the name of the file it writes:
 * a path is shrunk only when its last '.' is not its first character and the text
 * after that '.', lower-cased, is jpg, jpeg, png or bmp; the reduced copy is
 * written next to it with "_smaller" inserted before the extension.
 */
module FileTypes {
  import opened Wrappers
  import opened Strings

  const SupportedExtensions: set<string> := {"jpg", "jpeg", "png", "bmp"}
  const SmallerSuffix: string := "_smaller"

  /** The extension test, exactly as the source writes it (lastIndexOf('.') > 0 and a lower-cased match). */
  predicate IsKnownType(fileName: string)
    ensures IsKnownType(fileName) ==> '.' in fileName
  {
    var dot := LastIndexOf(fileName, '.');
    dot > 0 && ToLower(fileName[dot + 1..]) in SupportedExtensions
  }

  /** The text before the last '.'. */
  function Stem(fileName: string): string
    requires '.' in fileName
  {
    fileName[..LastIndexOf(fileName, '.')]
  }

  /** The text after the last '.', with its casing kept. */
  function Extension(fileName: string): string
    requires '.' in fileName
  {
    fileName[LastIndexOf(fileName, '.') + 1..]
  }

  /** Every name with a '.' is its stem, a '.', and an extension free of '.'. */
  lemma NameSplits(fileName: string)
    requires '.' in fileName
    ensures fileName == Stem(fileName) + "." + Extension(fileName)
    ensures '.' !in Extension(fileName)
  {
    var dot := LastIndexOf(fileName, '.');
    assert forall k :: 0 <= k < |Extension(fileName)| ==> Extension(fileName)[k] == fileName[dot + 1 + k];
  }

  /** Stem and extension are recovered from any such split. */
  lemma SplitParts(stem: string, ext: string)
    requires '.' !in ext
    ensures '.' in stem + "." + ext
    ensures Stem(stem + "." + ext) == stem && Extension(stem + "." + ext) == ext
  {
    LastIndexOfSplit(stem, '.', ext);
    assert (stem + "." + ext)[|stem|] == '.';
  }

  /**
   * The gate in terms of the parts of the name: a name whose extension has no '.'
   * is accepted exactly when its stem is not empty and its lower-cased extension is supported.
   */
  lemma {:induction false} KnownTypeIff(stem: string, ext: string)
    requires '.' !in ext
    ensures IsKnownType(stem + "." + ext) <==> stem != [] && ToLower(ext) in SupportedExtensions
  {
    SplitParts(stem, ext);
    LastIndexOfSplit(stem, '.', ext);
  }

  /** A name without any '.' is refused. */
  lemma NoDotRefused(fileName: string)
    requires '.' !in fileName
    ensures !IsKnownType(fileName)
  {
  }

  /** A name whose only '.' is its first character, such as ".png", is refused. */
  lemma {:induction false} LeadingDotRefused(ext: string)
    requires '.' !in ext
    ensures !IsKnownType("." + ext)
  {
    assert "." + ext == [] + "." + ext;
    KnownTypeIff([], ext);
  }

  /**
   * createShrunkenImage's destination: the text before the last '.', then
   * "_smaller.", then the original extension with its casing kept.
   */
  function SmallerPath(fileName: string): (r: string)
    requires '.' in fileName
    ensures '.' in r
    ensures Stem(r) == Stem(fileName) + SmallerSuffix
    ensures Extension(r) == Extension(fileName)
  {
    NameSplits(fileName);
    SplitParts(Stem(fileName) + SmallerSuffix, Extension(fileName));
    assert Stem(fileName) + "_smaller." + Extension(fileName)
        == (Stem(fileName) + SmallerSuffix) + "." + Extension(fileName);
    Stem(fileName) + "_smaller." + Extension(fileName)
  }

  /** Removes "_smaller" from before the last '.', if it is there. */
  function WithoutSmaller(path: string): Option<string>
  {
    if '.' in path && |Stem(path)| >= |SmallerSuffix|
         && Stem(path)[|Stem(path)| - |SmallerSuffix|..] == SmallerSuffix
    then Some(Stem(path)[..|Stem(path)| - |SmallerSuffix|] + "." + Extension(path))
    else None
  }

  /** Taking "_smaller" out of the destination gives back the source path. */
  lemma {:induction false} WithoutSmallerInverts(fileName: string)
    requires '.' in fileName
    ensures WithoutSmaller(SmallerPath(fileName)) == Some(fileName)
  {
    var p := SmallerPath(fileName);
    var stem := Stem(fileName) + SmallerSuffix;
    assert Stem(p)[|stem| - |SmallerSuffix|..] == SmallerSuffix;
    assert Stem(p)[..|stem| - |SmallerSuffix|] == Stem(fileName);
    NameSplits(fileName);
  }

  /** The destination of an accepted file is itself of an accepted type, with the same extension. */
  lemma {:induction false} SmallerPathKnownType(fileName: string)
    requires IsKnownType(fileName)
    ensures IsKnownType(SmallerPath(fileName))
  {
    var p := SmallerPath(fileName);
    NameSplits(fileName);
    NameSplits(p);
    KnownTypeIff(Stem(fileName), Extension(fileName));
    KnownTypeIff(Stem(p), Extension(p));
  }

  /** Worked cases: extension casing is ignored and the last '.' decides. */
  lemma AcceptedExamples()
    ensures IsKnownType("photo.PNG") && IsKnownType("a.b.Jpeg")
  {
    assert ToLower("PNG") == "png";
    assert ToLower("Jpeg") == "jpeg";
    assert "photo.PNG" == "photo" + "." + "PNG";
    assert "a.b.Jpeg" == "a.b" + "." + "Jpeg";
    KnownTypeIff("photo", "PNG");
    KnownTypeIff("a.b", "Jpeg");
  }

  /** Worked case: a name whose stem is empty is refused. */
  lemma LeadingDotExample()
    ensures !IsKnownType(".png")
  {
    assert ".png" == "." + "png";
    LeadingDotRefused("png");
  }

  /** Worked case: an unsupported extension is refused. */
  lemma UnsupportedExample()
    ensures !IsKnownType("notes.txt")
  {
    assert "notes.txt" == "notes" + "." + "txt";
    KnownTypeIff("notes", "txt");
    assert ToLower("txt") == "txt";
  }

  /** Worked case: only the text after the last '.' is the extension. */
  lemma InnerExtensionExample()
    ensures !IsKnownType("photo.png.gz")
  {
    assert "photo.png.gz" == "photo.png" + "." + "gz";
    KnownTypeIff("photo.png", "gz");
    assert ToLower("gz") == "gz";
  }

  /**
   * Worked case: the gate looks at the whole path, so a hidden file in a
   * directory is accepted; only the first character of the path is tested.
   */
  lemma HiddenFileInDirectoryExample()
    ensures IsKnownType("/d/.png")
  {
    assert "/d/.png" == "/d/" + "." + "png";
    assert ToLower("png") == "png";
    KnownTypeIff("/d/", "png");
  }

  /** Worked case: the hidden file's destination sits beside it. */
  lemma HiddenFileDestinationExample()
    ensures SmallerPath("/d/.png") == "/d/_smaller.png"
  {
    assert "/d/.png" == "/d/" + "." + "png";
    SplitParts("/d/", "png");
    assert "/d/" + "_smaller." + "png" == "/d/_smaller.png";
  }

  /** Worked case: the extension keeps its casing in the destination. */
  lemma SmallerPathExample()
    ensures SmallerPath("photo.PNG") == "photo_smaller.PNG"
  {
    assert "photo.PNG" == "photo" + "." + "PNG";
    SplitParts("photo", "PNG");
    assert "photo" + "_smaller." + "PNG" == "photo_smaller.PNG";
  }
}
