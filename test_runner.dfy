/**
 * Reading pytest's output (my_engineer/shared_utils/tests/test_runner.py): whether a run
 * counts as passing, and the name of the first test that failed.
 *
 * Running pytest itself is left out; the output text is the input here.
 */
module TestRunner {
  import opened Wrappers
  import opened Text

  const SkippedPrefix := "Tests skipped:"
  const SkippedOutput := "Tests skipped: pytest.ini not found."
  const CollectionErrors := "errors during collection"
  const CollectingMarker := "ERROR collecting"
  const FailedPrefix := "FAILED "
  const TestSeparator := "::"
  const IndexError := "list index out of range"

  /**
   * `check_test_results`: a chain of substring tests, the last three on the lowercased text.
   * A run passes exactly when it was skipped, or its lowercased output mentions "passed" and
   * neither "failed" nor "error". The test for "errors during collection" never decides
   * anything on its own: such output also contains "error".
   */
  function CheckTestResults(output: string): (r: bool)
    ensures r <==> StartsWith(output, SkippedPrefix)
                   || (!Contains(Lower(output), "failed") && !Contains(Lower(output), "error") && Contains(Lower(output), "passed"))
  {
    if StartsWith(output, SkippedPrefix) then true
    else if Contains(output, CollectionErrors) then CollectionErrorsMentionError(output); false
    else if Contains(Lower(output), "failed") then false
    else if Contains(Lower(output), "error") then false
    else Contains(Lower(output), "passed")
  }

  /** Output with "errors during collection" mentions "error" once lowercased. */
  lemma CollectionErrorsMentionError(output: string)
    requires Contains(output, CollectionErrors)
    ensures Contains(Lower(output), "error")
  {
    CollectionErrorsSplit();
    ContainsPrefixOf(output, "error", "s during collection");
    LowerContains(output, "error");
    LowerError();
  }

  lemma CollectionErrorsSplit()
    ensures CollectionErrors == "error" + "s during collection"
  {
  }

  lemma LowerError()
    ensures Lower("error") == "error"
  {
  }

  lemma LowerFailed()
    ensures Lower("FAILED") == "failed"
  {
  }

  /** "FAILED" in capitals, as pytest prints it, makes the run fail unless it was skipped. */
  lemma UppercaseFailedFails(output: string)
    requires !StartsWith(output, SkippedPrefix) && Contains(output, "FAILED")
    ensures !CheckTestResults(output)
  {
    LowerContains(output, "FAILED");
    LowerFailed();
  }

  /** The runner's message for a project without pytest.ini counts as passing. */
  lemma SkippedRunPasses()
    ensures CheckTestResults(SkippedOutput)
  {
    assert SkippedPrefix <= SkippedOutput;
  }

  /** Any mention of "error", in any case, makes a run that was not skipped fail. */
  lemma ErrorFails(output: string)
    requires !StartsWith(output, SkippedPrefix) && Contains(Lower(output), "error")
    ensures !CheckTestResults(output)
  {
  }

  /** The runner's message for a pytest that could not be run counts as failing. */
  lemma RunnerErrorFails(detail: string)
    ensures !CheckTestResults("Error running pytest: " + detail)
  {
    var a := "Error running pytest: " + detail;
    var rest := " running pytest: " + detail;
    assert a == "Error" + rest;
    ContainsFront("Error", rest);
    LowerContains(a, "Error");
    LowerCapitalError();
    assert a[0] == 'E';
    ErrorFails(a);
  }

  /** The runner's message for an unexpected exception counts as failing. */
  lemma UnexpectedErrorFails(detail: string)
    ensures !CheckTestResults("Unexpected error running pytest: " + detail)
  {
    var b := "Unexpected error running pytest: " + detail;
    var rest := " running pytest: " + detail;
    assert b == "Unexpected " + ("error" + rest) + "";
    ContainsFront("error", rest);
    ContainsInfix("Unexpected ", "error" + rest, "", "error");
    LowerContains(b, "error");
    LowerError();
    assert b[0] == 'U';
    ErrorFails(b);
  }

  lemma ContainsFront(x: string, y: string)
    ensures Contains(x + y, x)
  {
    ContainsAt(x + y, x, 0);
  }

  lemma LowerCapitalError()
    ensures Lower("Error") == "error"
  {
  }

  /** Empty output does not pass. */
  lemma EmptyOutputFails()
    ensures !CheckTestResults("")
  {
    if Contains(Lower(""), "passed") {
      var i := ContainsWitness(Lower(""), "passed");
    }
  }

  // ---------------------------------------------------------------------------
  // get_first_failed_test
  // ---------------------------------------------------------------------------

  predicate IsCollectingLine(line: string) {
    Contains(line, CollectingMarker)
  }

  predicate IsFailedLine(line: string) {
    StartsWith(line, FailedPrefix)
  }

  /** The index of the first line that `matches`, as a `for ... return` scan finds it. */
  function FirstMatch(lines: seq<string>, matches: string -> bool): (r: Option<nat>)
    ensures r.Some? ==> r.value < |lines| && matches(lines[r.value])
    ensures r.Some? ==> forall j :: 0 <= j < r.value ==> !matches(lines[j])
    ensures r.None? <==> forall j :: 0 <= j < |lines| ==> !matches(lines[j])
  {
    if lines == [] then None
    else if matches(lines[0]) then Some(0)
    else match FirstMatch(lines[1..], matches)
      case None => None
      case Some(k) => Some(k + 1)
  }

  /** `line.split("ERROR collecting")[-1].strip()`. */
  function CollectedName(line: string): string {
    var parts := SplitOn(line, CollectingMarker);
    Strip(parts[|parts| - 1])
  }

  /** `line.split("::")[1].split()[0]`, with the IndexError either index can raise. */
  function FailedName(line: string): (r: Result<string, string>)
    ensures r.Failure? ==> r.error == IndexError
    ensures r.Success? ==> Contains(line, TestSeparator) && r.value != []
  {
    var parts := SplitOn(line, TestSeparator);
    if !Contains(line, TestSeparator) then SplitAbsent(line, TestSeparator); Failure(IndexError)
    else if |parts| < 2 then Failure(IndexError)
    else
      var words := Words(parts[1]);
      if words == [] then Failure(IndexError) else Success(words[0])
  }

  /** `get_first_failed_test`; `Failure` is the IndexError it can raise. */
  function GetFirstFailedTest(output: string): (r: Result<Option<string>, string>)
    ensures r.Failure? ==> r.error == IndexError
    ensures r == Success(None) <==>
              forall j :: 0 <= j < |Lines(output)| ==> !IsCollectingLine(Lines(output)[j]) && !IsFailedLine(Lines(output)[j])
  {
    var lines := Lines(output);
    match FirstMatch(lines, IsCollectingLine)
    case Some(k) => Success(Some(CollectedName(lines[k])))
    case None =>
      match FirstMatch(lines, IsFailedLine)
      case None => Success(None)
      case Some(k) =>
        match FailedName(lines[k])
        case Success(name) => Success(Some(name))
        case Failure(e) => Failure(e)
  }

  /**
   * The name from a collection error is the stripped text after the last "ERROR collecting"
   * of its line: the line is `p + "ERROR collecting" + tail` with no marker in `tail`.
   */
  lemma CollectedNameSpec(line: string) returns (p: string, tail: string)
    requires IsCollectingLine(line)
    ensures line == p + (CollectingMarker + tail)
    ensures !Contains(tail, CollectingMarker)
    ensures CollectedName(line) == Strip(tail)
  {
    var parts := SplitOn(line, CollectingMarker);
    p := SplitPresent(line, CollectingMarker);
    SplitLastClean(line, CollectingMarker);
    tail := parts[|parts| - 1];
  }

  /** A "FAILED " line without "::" raises IndexError. */
  lemma FailedNameWithoutSeparator(line: string)
    requires !Contains(line, TestSeparator)
    ensures FailedName(line) == Failure(IndexError)
  {
    SplitAbsent(line, TestSeparator);
  }

  /**
   * With "::", the line raises IndexError when only whitespace follows its first "::" up to
   * the next; otherwise the name is the first whitespace-free run there.
   */
  lemma FailedNameSpec(line: string)
    requires Contains(line, TestSeparator)
    ensures |SplitOn(line, TestSeparator)| >= 2
            && var piece := SplitOn(line, TestSeparator)[1];
               && (FailedName(line).Success? <==> !IsBlank(piece))
               && (FailedName(line).Failure? ==> FailedName(line).error == IndexError)
               && (FailedName(line).Success? ==>
                     var name := FailedName(line).value;
                     name == NonSpacePrefix(LStrip(piece)) && |name| > 0
                     && forall i :: 0 <= i < |name| ==> !IsSpace(name[i]))
  {
    var _ := SplitPresent(line, TestSeparator);
    var piece := SplitOn(line, TestSeparator)[1];
    if IsBlank(piece) {
      BlankNoWords(piece);
    } else {
      FirstWord(piece);
    }
  }

  /** A line with "ERROR collecting" decides the answer, whatever "FAILED " lines come before it. */
  lemma CollectingTakesPriority(output: string, k: nat)
    requires k < |Lines(output)| && IsCollectingLine(Lines(output)[k])
    requires forall j :: 0 <= j < k ==> !IsCollectingLine(Lines(output)[j])
    ensures GetFirstFailedTest(output) == Success(Some(CollectedName(Lines(output)[k])))
  {
    var r := FirstMatch(Lines(output), IsCollectingLine);
    assert r.Some?;
    assert r.value == k;
  }

  /**
   * Without a collection error, the first "FAILED " line decides the answer; without either
   * kind of line the answer is None.
   */
  lemma FailedLineDecides(output: string)
    requires forall j :: 0 <= j < |Lines(output)| ==> !IsCollectingLine(Lines(output)[j])
    ensures var f := FirstMatch(Lines(output), IsFailedLine);
            && (f.None? ==> GetFirstFailedTest(output) == Success(None))
            && (f.Some? ==>
                  var line := Lines(output)[f.value];
                  && (forall j :: 0 <= j < f.value ==> !IsFailedLine(Lines(output)[j]))
                  && (FailedName(line).Failure? <==> GetFirstFailedTest(output).Failure?)
                  && (FailedName(line).Success? ==> GetFirstFailedTest(output) == Success(Some(FailedName(line).value))))
  {
  }
}
