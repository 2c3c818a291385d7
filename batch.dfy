/**
 * The body of start(): keep the arguments that are files, stop when there are
 * none or no factor was chosen, sort the paths, shrink each one while
 * collecting the success and failure lines, and assemble the report text.
 * The filesystem, the codec and File.getName are parameters: `isFile` says
 * which arguments are regular files, `codecOk` whether reading and writing a
 * path succeeded when it was tried, and `name` gives a path's display name.
 */
module Batch {
  import opened Strings
  import opened FileTypes
  import opened Downscaler
  import opened Sorting

  /** The arguments for which isFile holds, in their order. */
  function Files(args: seq<string>, isFile: string -> bool): (r: seq<string>)
    ensures |r| <= |args|
    ensures forall i :: 0 <= i < |r| ==> isFile(r[i])
  {
    if args == [] then []
    else Files(args[..|args| - 1], isFile) + (if isFile(args[|args| - 1]) then [args[|args| - 1]] else [])
  }

  /** Collecting the file arguments keeps exactly those, in order, as many times as they occur. */
  lemma {:induction false} FilesAreTheFiles(args: seq<string>, isFile: string -> bool)
    ensures forall p :: multiset(Files(args, isFile))[p] == if isFile(p) then multiset(args)[p] else 0
    ensures forall p :: p in Files(args, isFile) <==> p in args && isFile(p)
  {
    if args != [] {
      var init := args[..|args| - 1];
      FilesAreTheFiles(init, isFile);
      assert args == init + [args[|args| - 1]];
    }
  }

  /** The loop over getParameters().getRaw() that keeps what new File(p).isFile() accepts. */
  method CollectFiles(args: seq<string>, isFile: string -> bool) returns (imageList: seq<string>)
    ensures imageList == Files(args, isFile)
  {
    imageList := [];
    for i := 0 to |args|
      invariant imageList == Files(args[..i], isFile)
    {
      assert args[..i + 1][..i] == args[..i];
      if isFile(args[i]) {
        imageList := imageList + [args[i]];
      }
    }
    assert args[..|args|] == args;
  }

  /** Whether shrinking `path` succeeds: its type is accepted and the codec reads and writes it. */
  predicate Succeeds(path: string, codecOk: string -> bool)
  {
    IsKnownType(path) && codecOk(path)
  }

  /** The paths of `paths` that were shrunk, in processing order. */
  function Successes(paths: seq<string>, codecOk: string -> bool): seq<string>
  {
    if paths == [] then []
    else Successes(paths[..|paths| - 1], codecOk)
         + (if Succeeds(paths[|paths| - 1], codecOk) then [paths[|paths| - 1]] else [])
  }

  /** The paths of `paths` that could not be shrunk, in processing order. */
  function Failures(paths: seq<string>, codecOk: string -> bool): seq<string>
  {
    if paths == [] then []
    else Failures(paths[..|paths| - 1], codecOk)
         + (if Succeeds(paths[|paths| - 1], codecOk) then [] else [paths[|paths| - 1]])
  }

  /** The report lines for `paths`: a newline and the display name of each, in order. */
  function Lines(paths: seq<string>, name: string -> string): string
  {
    if paths == [] then [] else Lines(paths[..|paths| - 1], name) + "\n" + name(paths[|paths| - 1])
  }

  /** Every path goes to exactly one of the two lists: together they are the input, file for file. */
  lemma {:induction false} SuccessesAndFailuresPartition(paths: seq<string>, codecOk: string -> bool)
    ensures |Successes(paths, codecOk)| + |Failures(paths, codecOk)| == |paths|
    ensures multiset(Successes(paths, codecOk)) + multiset(Failures(paths, codecOk)) == multiset(paths)
    ensures forall p :: p in Successes(paths, codecOk) ==> Succeeds(p, codecOk)
    ensures forall p :: p in Failures(paths, codecOk) ==> !Succeeds(p, codecOk)
  {
    if paths != [] {
      var init := paths[..|paths| - 1];
      SuccessesAndFailuresPartition(init, codecOk);
      assert paths == init + [paths[|paths| - 1]];
    }
  }

  /** Processing one more path adds its line to exactly one of the two texts. */
  lemma ProcessOneMore(done: seq<string>, path: string, codecOk: string -> bool, name: string -> string)
    ensures Successes(done + [path], codecOk) == Successes(done, codecOk) + (if Succeeds(path, codecOk) then [path] else [])
    ensures Failures(done + [path], codecOk) == Failures(done, codecOk) + (if Succeeds(path, codecOk) then [] else [path])
    ensures Lines(Successes(done, codecOk) + [path], name) == Lines(Successes(done, codecOk), name) + ("\n" + name(path))
    ensures Lines(Failures(done, codecOk) + [path], name) == Lines(Failures(done, codecOk), name) + ("\n" + name(path))
  {
    assert (done + [path])[..|done|] == done;
    var ok, failed := Successes(done, codecOk), Failures(done, codecOk);
    assert (ok + [path])[..|ok|] == ok;
    assert (failed + [path])[..|failed|] == failed;
  }

  /** ProcessOneMore, for the path after a prefix of a list. */
  lemma ProcessNext(paths: seq<string>, i: nat, codecOk: string -> bool, name: string -> string)
    requires i < |paths|
    ensures var ok, failed, path := Successes(paths[..i], codecOk), Failures(paths[..i], codecOk), paths[i];
            && Successes(paths[..i + 1], codecOk) == ok + (if Succeeds(path, codecOk) then [path] else [])
            && Failures(paths[..i + 1], codecOk) == failed + (if Succeeds(path, codecOk) then [] else [path])
            && Lines(ok + [path], name) == Lines(ok, name) + ("\n" + name(path))
            && Lines(failed + [path], name) == Lines(failed, name) + ("\n" + name(path))
  {
    assert paths[..i + 1] == paths[..i] + [paths[i]];
    ProcessOneMore(paths[..i], paths[i], codecOk, name);
  }

  /**
   * The loop of start() over the sorted paths: each outcome's line goes to the
   * success text or to the failure text, and the matching counter goes up.
   */
  method ShrinkAll(imageList: seq<string>, codecOk: string -> bool, name: string -> string)
    returns (countOfSuccesses: nat, countOfFails: nat, alertText: string, failsText: string)
    ensures countOfSuccesses == |Successes(imageList, codecOk)|
    ensures countOfFails == |Failures(imageList, codecOk)|
    ensures alertText == Lines(Successes(imageList, codecOk), name)
    ensures failsText == Lines(Failures(imageList, codecOk), name)
  {
    countOfSuccesses, countOfFails := 0, 0;
    alertText, failsText := "", "";
    ghost var ok, failed := [], [];
    for i := 0 to |imageList|
      invariant ok == Successes(imageList[..i], codecOk) && failed == Failures(imageList[..i], codecOk)
      invariant countOfSuccesses == |ok| && countOfFails == |failed|
      invariant alertText == Lines(ok, name) && failsText == Lines(failed, name)
    {
      var path := imageList[i];
      ProcessNext(imageList, i, codecOk, name);
      var returnObject := ShrinkOutcome(path, codecOk(path), name(path));
      if returnObject.success {
        countOfSuccesses := countOfSuccesses + 1;
        alertText := alertText + returnObject.text;
        ok := ok + [path];
      } else {
        countOfFails := countOfFails + 1;
        failsText := failsText + returnObject.text;
        failed := failed + [path];
      }
    }
    assert imageList[..|imageList|] == imageList;
  }

  const UnsupportedMessage: string :=
    "Could not shrink any images - imageShrink works on JPEG (.jpg and .jpeg), PNG (.png) and bitmap (.bmp) files only"

  /** The plural ending of "file" for a count. */
  function Plural(count: nat): (r: string)
    ensures r == "s" <==> count > 1
    ensures r == "" <==> count <= 1
  {
    if count > 1 then "s" else ""
  }

  /** The failure block of the report: nothing added when no file failed. */
  function FailureSummary(countOfFails: nat, failsText: string): (r: string)
    ensures countOfFails == 0 ==> r == failsText
    ensures countOfFails > 0 ==> "\n\nUnable to shrink " <= r && |failsText| <= |r| && r[|r| - |failsText|..] == failsText
  {
    if countOfFails > 0
    then "\n\nUnable to shrink " + NatToString(countOfFails) + " file" + Plural(countOfFails) + ":" + failsText
    else failsText
  }

  /** The first line of a report on at least one shrunk file. */
  function SuccessHeader(countOfSuccesses: nat, reduceBy: nat): (r: string)
    ensures "Successfully shrunk " <= r && r[|r| - 2..] == "):"
  {
    "Successfully shrunk " + NatToString(countOfSuccesses) + " file" + Plural(countOfSuccesses)
      + " (by a factor of " + NatToString(reduceBy) + "):"
  }

  /**
   * The message shown at the end of a run: the successes, then the failures;
   * or, when nothing was shrunk, the fixed list of supported formats.
   */
  function ReportText(countOfSuccesses: nat, countOfFails: nat, reduceBy: nat, alertText: string, failsText: string): (r: string)
    ensures countOfSuccesses == 0 ==> r == UnsupportedMessage
    ensures countOfSuccesses > 0 ==> SuccessHeader(countOfSuccesses, reduceBy) + alertText <= r
    ensures countOfSuccesses > 0 ==> |failsText| <= |r| && r[|r| - |failsText|..] == failsText
  {
    if countOfSuccesses > 0
    then SuccessHeader(countOfSuccesses, reduceBy) + alertText + FailureSummary(countOfFails, failsText)
    else UnsupportedMessage
  }

  /** The first step of the finalisation: the failure lines get their heading when some file failed. */
  method FinaliseFails(countOfFails: nat, failsText: string) returns (fails: string)
    ensures fails == FailureSummary(countOfFails, failsText)
  {
    fails := failsText;
    if countOfFails > 0 {
      fails := ":" + fails;
      if countOfFails > 1 {
        fails := "s" + fails;
      }
      assert fails == Plural(countOfFails) + ":" + failsText;
      fails := "\n\nUnable to shrink " + NatToString(countOfFails) + " file" + fails;
    }
  }

  /**
   * The second step: the success lines get their heading and the failure block
   * is appended; with no success the whole text is the fixed message.
   */
  method FinaliseSuccesses(countOfSuccesses: nat, reduceBy: nat, alertText: string, fails: string)
    returns (report: string)
    ensures countOfSuccesses > 0 ==> report == SuccessHeader(countOfSuccesses, reduceBy) + alertText + fails
    ensures countOfSuccesses == 0 ==> report == UnsupportedMessage
  {
    if countOfSuccesses > 0 {
      var n, f := NatToString(countOfSuccesses), NatToString(reduceBy);
      report := " (by a factor of " + f + "):" + alertText;
      if countOfSuccesses > 1 {
        report := "s" + report;
      }
      assert report == Plural(countOfSuccesses) + " (by a factor of " + f + "):" + alertText;
      report := "Successfully shrunk " + n + " file" + report + fails;
    } else {
      report := UnsupportedMessage;
    }
  }

  /** The finalisation of start(): the failure block first, then the whole report. */
  method FinaliseReport(countOfSuccesses: nat, countOfFails: nat, reduceBy: nat, alertText: string, failsText: string)
    returns (report: string)
    ensures report == ReportText(countOfSuccesses, countOfFails, reduceBy, alertText, failsText)
  {
    var fails := FinaliseFails(countOfFails, failsText);
    report := FinaliseSuccesses(countOfSuccesses, reduceBy, alertText, fails);
  }

  /** With no failure the report is the header and the success lines alone. */
  lemma ReportWithoutFailures(countOfSuccesses: nat, reduceBy: nat, alertText: string)
    requires countOfSuccesses > 0
    ensures ReportText(countOfSuccesses, 0, reduceBy, alertText, "") == SuccessHeader(countOfSuccesses, reduceBy) + alertText
  {
  }

  /** With nothing shrunk the report is the fixed message, whatever failed. */
  lemma ReportWithoutSuccesses(countOfFails: nat, reduceBy: nat, alertText: string, failsText: string)
    ensures ReportText(0, countOfFails, reduceBy, alertText, failsText) == UnsupportedMessage
  {
  }

  /** How a run of start() ends. */
  datatype RunResult =
    | NoFilesFound          // "No files found" is shown, then System.exit(0)
    | NoFactorChosen        // the factor dialog gave no answer, then System.exit(1)
    | Shown(report: string) // the report dialog

  /** The order in which start() shrinks the files among `args`. */
  function ProcessingOrder(args: seq<string>, isFile: string -> bool): seq<string>
  {
    SortByLowerKey(Files(args, isFile))
  }

  /**
   * What start() shows for the arguments `args`, `reduceBy` being the factor
   * dialog's answer (0 when there was none). The two early exits come before
   * any file is touched; otherwise the report covers every file, in sorted order.
   */
  function Run(args: seq<string>, isFile: string -> bool, reduceBy: nat, codecOk: string -> bool, name: string -> string)
    : (r: RunResult)
    ensures r == NoFilesFound <==> Files(args, isFile) == []
    ensures r == NoFactorChosen <==> Files(args, isFile) != [] && reduceBy == 0
  {
    var files := Files(args, isFile);
    if files == [] then NoFilesFound
    else if reduceBy == 0 then NoFactorChosen
    else
      var order := SortByLowerKey(files);
      var ok, failed := Successes(order, codecOk), Failures(order, codecOk);
      Shown(ReportText(|ok|, |failed|, reduceBy, Lines(ok, name), Lines(failed, name)))
  }

  /** start() itself: collect the files, check the factor, sort, shrink each, finalise the text. */
  method Start(args: seq<string>, isFile: string -> bool, reduceBy: nat, codecOk: string -> bool, name: string -> string)
    returns (result: RunResult)
    ensures result == Run(args, isFile, reduceBy, codecOk, name)
  {
    var imageList := CollectFiles(args, isFile);
    if |imageList| == 0 {
      return NoFilesFound;
    }
    if reduceBy == 0 {
      return NoFactorChosen;
    }
    imageList := SortByLowerKey(imageList);
    var countOfSuccesses, countOfFails, alertText, failsText := ShrinkAll(imageList, codecOk, name);
    var report := FinaliseReport(countOfSuccesses, countOfFails, reduceBy, alertText, failsText);
    return Shown(report);
  }

  /**
   * A run that gets as far as the report processes every file exactly once,
   * in an order sorted by the lower-cased path: the shrunk and the failed
   * files together are the files among the arguments, as many times each.
   */
  lemma {:induction false} RunAccountsForEveryFile(args: seq<string>, isFile: string -> bool, codecOk: string -> bool)
    ensures var order := ProcessingOrder(args, isFile);
            && SortedByKey(order)
            && multiset(order) == multiset(Files(args, isFile))
            && |Successes(order, codecOk)| + |Failures(order, codecOk)| == |Files(args, isFile)|
            && multiset(Successes(order, codecOk)) + multiset(Failures(order, codecOk)) == multiset(Files(args, isFile))
  {
    var files := Files(args, isFile);
    var order := ProcessingOrder(args, isFile);
    SortSorted(files);
    SortPermutes(files);
    SuccessesAndFailuresPartition(order, codecOk);
    assert |order| == |multiset(order)| == |multiset(files)| == |files|;
  }

  /** When no path of a list can be shrunk, no success is recorded. */
  lemma {:induction false} NoSuccesses(paths: seq<string>, codecOk: string -> bool)
    requires forall p :: p in paths ==> !Succeeds(p, codecOk)
    ensures Successes(paths, codecOk) == []
  {
    if paths != [] {
      NoSuccesses(paths[..|paths| - 1], codecOk);
    }
  }

  /** A run where no file has a supported type shows the fixed message, however many files failed. */
  lemma {:induction false} RunWithoutSuccess(args: seq<string>, isFile: string -> bool, reduceBy: nat, codecOk: string -> bool, name: string -> string)
    requires Files(args, isFile) != [] && reduceBy > 0
    requires forall p :: p in args ==> !IsKnownType(p)
    ensures Run(args, isFile, reduceBy, codecOk, name) == Shown(UnsupportedMessage)
  {
    var files := Files(args, isFile);
    var order := SortByLowerKey(files);
    FilesAreTheFiles(args, isFile);
    SortPermutes(files);
    forall p | p in order ensures !Succeeds(p, codecOk) {
      assert p in multiset(order);
    }
    NoSuccesses(order, codecOk);
  }
}
