/** A whole run worked through: three files, one of an unsupported type, every codec call succeeding. */
module Scenarios {
  import opened Strings
  import opened FileTypes
  import opened Sorting
  import opened Batch

  const Args: seq<string> := ["photo.jpg", "notes.txt", "logo.png"]

  /** Every argument is a regular file. */
  predicate EveryPathIsAFile(p: string) { true }

  /** Every read and write succeeds. */
  predicate CodecAlwaysSucceeds(p: string) { true }

  /** The paths have no directory part, so each is its own display name. */
  function OwnName(p: string): string { p }

  lemma ImagesAreKnown()
    ensures IsKnownType("photo.jpg") && IsKnownType("logo.png")
  {
    assert "photo.jpg" == "photo" + "." + "jpg";
    assert "logo.png" == "logo" + "." + "png";
    assert ToLower("jpg") == "jpg";
    assert ToLower("png") == "png";
    KnownTypeIff("photo", "jpg");
    KnownTypeIff("logo", "png");
  }

  lemma NotesIsUnknown()
    ensures !IsKnownType("notes.txt")
  {
    assert "notes.txt" == "notes" + "." + "txt";
    assert ToLower("txt") == "txt";
    KnownTypeIff("notes", "txt");
  }

  lemma ScenarioFiles()
    ensures Files(Args, EveryPathIsAFile) == Args
  {
    assert Args[..2] == ["photo.jpg", "notes.txt"];
    assert Args[..2][..1] == ["photo.jpg"];
    assert Args[..2][..1][..0] == [];
    assert Files([], EveryPathIsAFile) == [];
    assert Files(["photo.jpg"], EveryPathIsAFile) == ["photo.jpg"];
    assert Files(["photo.jpg", "notes.txt"], EveryPathIsAFile) == ["photo.jpg", "notes.txt"];
  }

  lemma ScenarioOrder()
    ensures ProcessingOrder(Args, EveryPathIsAFile) == ["logo.png", "notes.txt", "photo.jpg"]
  {
    ScenarioFiles();
    assert Key("photo.jpg") == "photo.jpg";
    assert Key("notes.txt") == "notes.txt";
    assert Key("logo.png") == "logo.png";
    assert Args[1..] == ["notes.txt", "logo.png"] && Args[1..][1..] == ["logo.png"];
    assert SortByLowerKey(["logo.png"]) == ["logo.png"];
    assert SortByLowerKey(["notes.txt", "logo.png"]) == ["logo.png", "notes.txt"];
  }

  lemma ScenarioVerdicts()
    ensures Succeeds("logo.png", CodecAlwaysSucceeds) && !Succeeds("notes.txt", CodecAlwaysSucceeds)
    ensures Succeeds("photo.jpg", CodecAlwaysSucceeds)
  {
    ImagesAreKnown();
    NotesIsUnknown();
  }

  lemma ScenarioOutcomes()
    ensures Successes(["logo.png", "notes.txt", "photo.jpg"], CodecAlwaysSucceeds) == ["logo.png", "photo.jpg"]
    ensures Failures(["logo.png", "notes.txt", "photo.jpg"], CodecAlwaysSucceeds) == ["notes.txt"]
  {
    ScenarioVerdicts();
    ProcessOneMore([], "logo.png", CodecAlwaysSucceeds, OwnName);
    assert [] + ["logo.png"] == ["logo.png"];
    ProcessOneMore(["logo.png"], "notes.txt", CodecAlwaysSucceeds, OwnName);
    assert ["logo.png"] + ["notes.txt"] == ["logo.png", "notes.txt"];
    ProcessOneMore(["logo.png", "notes.txt"], "photo.jpg", CodecAlwaysSucceeds, OwnName);
    assert ["logo.png", "notes.txt"] + ["photo.jpg"] == ["logo.png", "notes.txt", "photo.jpg"];
  }

  lemma ScenarioLines()
    ensures Lines(["logo.png", "photo.jpg"], OwnName) == "\nlogo.png\nphoto.jpg"
    ensures Lines(["notes.txt"], OwnName) == "\nnotes.txt"
  {
    assert ["logo.png", "photo.jpg"][..1] == ["logo.png"];
    assert ["logo.png"][..0] == [];
    assert ["notes.txt"][..0] == [];
  }

  lemma ScenarioHeaders()
    ensures SuccessHeader(2, 2) == "Successfully shrunk 2 files (by a factor of 2):"
    ensures FailureSummary(1, "\nnotes.txt") == "\n\nUnable to shrink 1 file:\nnotes.txt"
  {
    assert NatToString(2) == "2" && NatToString(1) == "1";
  }

  lemma ScenarioText()
    ensures ReportText(2, 1, 2, "\nlogo.png\nphoto.jpg", "\nnotes.txt")
         == "Successfully shrunk 2 files (by a factor of 2):" + "\nlogo.png\nphoto.jpg" + "\n\nUnable to shrink 1 file:\nnotes.txt"
  {
    ScenarioHeaders();
  }

  /**
   * Two files shrunk and the text file reported as failed: the unsupported type
   * is counted as a failure. The report lists the names in sorted order.
   */
  lemma ScenarioReport()
    ensures Run(Args, EveryPathIsAFile, 2, CodecAlwaysSucceeds, OwnName)
         == Shown("Successfully shrunk 2 files (by a factor of 2):" + "\nlogo.png\nphoto.jpg" + "\n\nUnable to shrink 1 file:\nnotes.txt")
  {
    ScenarioFiles();
    ScenarioOrder();
    ScenarioOutcomes();
    ScenarioLines();
    ScenarioText();
  }
}
