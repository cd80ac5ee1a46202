/**
 * Concatenating the project's source files into one text dump
 * (my_engineer/codebase_concatenator/concatenator.py).
 *
 * The disk is a map from full path to file content: a path outside the map cannot be opened.
 * The output buffer and the list of processed files are fields of the concatenator that every
 * call appends to; neither is ever reset.
 */
module Concatenator {
  import opened Wrappers
  import opened Text
  import opened ConcatConfig
  import FileUtils

  type Files = map<string, string>

  const Header := "This file contains my whole source code (excluding tests) concatenated into a single txt file. "
                  + "Comments and import have been excluded from the dump to save space. "
                  + "Each file is separated by ###.\n\n"

  const ManifestHeading := "\n\n###FILES PROCESSED:\n"

  /**
   * `os.path.relpath(p, root)` for a path under the root: the part after "root/". A path
   * outside the root is kept whole.
   */
  function RelPath(p: string, root: string): (r: string)
    ensures |r| <= |p|
    ensures StartsWith(p, root + "/") ==> root + "/" + r == p
  {
    if StartsWith(p, root + "/") then p[|root| + 1..] else p
  }

  /** The relative path as it is printed: backslashes turned into forward slashes. */
  function DisplayPath(p: string, root: string): (r: string)
    ensures '\\' !in r
  {
    ReplaceRemoves(RelPath(p, root), '\\', "/");
    Replace(RelPath(p, root), "\\", "/")
  }

  /** `_should_process_file`: not a test (unless tests are included), allowed extension, not a lock file. */
  predicate ShouldProcess(config: Config, root: string, fullPath: string)
    requires WellTyped(config)
    ensures ShouldProcess(config, root, fullPath) ==> !EndsWith(fullPath, "package-lock.json")
    ensures ShouldProcess(config, root, fullPath) ==>
              exists e :: e in config["include_file_extensions"].exts && EndsWith(fullPath, e)
  {
    var isTest := Contains(Lower(RelPath(fullPath, root)), "test");
    && (!isTest || config["include_tests"].flag)
    && (exists k :: 0 <= k < |config["include_file_extensions"].exts|
                    && EndsWith(fullPath, config["include_file_extensions"].exts[k]))
    && !EndsWith(fullPath, "package-lock.json")
  }

  /** The full paths `concat_files` processes, in input order (duplicates kept). */
  function Selected(config: Config, root: string, fileList: seq<string>): (r: seq<string>)
    requires WellTyped(config)
    ensures |r| <= |fileList|
  {
    if fileList == [] then []
    else
      var full := PathJoin(root, fileList[|fileList| - 1]);
      Selected(config, root, fileList[..|fileList| - 1]) + (if ShouldProcess(config, root, full) then [full] else [])
  }

  /** The block of one file: heading, filtered content, a newline if it lacks one, and the end marker. */
  function FileBlock(rel: string, filtered: string): (r: string)
    ensures StartsWith(r, "\n\n###FILENAME: " + rel + "\n")
    ensures EndsWith(r, "\n###END\n")
  {
    var body := filtered + (if EndsWith(filtered, "\n") then "" else "\n");
    assert body[|body| - 1] == '\n';
    var b := "\n\n###FILENAME: " + rel + "\n" + body + "###END\n";
    assert b == ("\n\n###FILENAME: " + rel + "\n" + body) + "###END\n";
    assert b[|b| - 8..] == [body[|body| - 1]] + "###END\n";
    b
  }

  /** `_write_file_content`: the block of a readable file; an unreadable one writes nothing. */
  function BlockOf(files: Files, root: string, fullPath: string): string {
    if fullPath in files then FileBlock(DisplayPath(fullPath, root), FileUtils.FilterContent(files[fullPath], fullPath))
    else ""
  }

  function Blocks(files: Files, root: string, fulls: seq<string>): string {
    if fulls == [] then ""
    else Blocks(files, root, fulls[..|fulls| - 1]) + BlockOf(files, root, fulls[|fulls| - 1])
  }

  /** The number of '\n' characters. */
  function NewlineCount(s: string): nat {
    if s == [] then 0 else NewlineCount(s[..|s| - 1]) + (if s[|s| - 1] == '\n' then 1 else 0)
  }

  /** The lines a file iteration yields: one per '\n', plus a final unterminated line. */
  function LineCount(content: string): nat {
    NewlineCount(content) + (if content != [] && content[|content| - 1] != '\n' then 1 else 0)
  }

  function ManifestLine(rel: string, count: nat): string {
    rel + " (" + NatToString(count) + " lines)\n"
  }

  /**
   * The manifest lines of `_write_file_list`, or the first processed path that cannot be
   * opened (its `open` is not caught).
   */
  function ManifestLines(files: Files, root: string, processed: seq<string>): (r: Result<string, string>)
    ensures r.Failure? ==> r.error in processed && r.error !in files
  {
    if processed == [] then Success("")
    else
      var last := processed[|processed| - 1];
      match ManifestLines(files, root, processed[..|processed| - 1])
      case Failure(p) => Failure(p)
      case Success(m) =>
        if last in files then Success(m + ManifestLine(DisplayPath(last, root), LineCount(files[last])))
        else Failure(last)
  }

  /** `get_files_to_concatenate`: the inputs (as given) whose full path is processed, as a set. */
  function FilesToConcatenate(config: Config, root: string, fileList: seq<string>): set<string>
    requires WellTyped(config)
  {
    set p | p in fileList && ShouldProcess(config, root, PathJoin(root, p))
  }

  class CodebaseConcatenator {
    var config: Config
    var outputStream: string
    var processedFiles: seq<string>
    var rootDir: string

    predicate Valid()
      reads this
    {
      WellTyped(config)
    }

    /** `__init__(**kwargs)`: the defaults updated with the keyword arguments; empty buffer and list. */
    constructor(kwargs: Config, cwd: string)
      requires ("include_file_extensions" in kwargs ==> kwargs["include_file_extensions"].Exts?)
      requires ("include_tests" in kwargs ==> kwargs["include_tests"].Flag?)
      requires ("root_dir" in kwargs ==> kwargs["root_dir"].PathValue?)
      ensures Valid()
      ensures config == DefaultConfig + kwargs
      ensures outputStream == [] && processedFiles == []
      ensures rootDir == if "root_dir" in kwargs then kwargs["root_dir"].path else cwd
    {
      config := DefaultConfig + kwargs;
      outputStream := [];
      processedFiles := [];
      rootDir := if "root_dir" in kwargs then kwargs["root_dir"].path else cwd;
    }

    /** `output_stream.write`: the buffer grows by `s`. */
    method Write(s: string)
      modifies this
      ensures outputStream == old(outputStream) + s
      ensures config == old(config) && processedFiles == old(processedFiles) && rootDir == old(rootDir)
    {
      outputStream := outputStream + s;
    }

    /** `_write_header`. */
    method WriteHeader()
      modifies this
      ensures outputStream == old(outputStream) + Header
      ensures config == old(config) && processedFiles == old(processedFiles) && rootDir == old(rootDir)
    {
      Write(Header);
    }

    /** `_write_file_content`: a read error is caught and nothing is written. */
    method WriteFileContent(fullPath: string, files: Files)
      modifies this
      ensures outputStream == old(outputStream) + BlockOf(files, rootDir, fullPath)
      ensures config == old(config) && processedFiles == old(processedFiles) && rootDir == old(rootDir)
    {
      if fullPath !in files {
        return;
      }
      var content := files[fullPath];
      var filtered := FileUtils.FilterContent(content, fullPath);
      var relativePath := DisplayPath(fullPath, rootDir);
      WriteBlock(relativePath, filtered);
    }

    /** The writes of `_write_file_content` once the file is read and filtered. */
    method WriteBlock(relativePath: string, filtered: string)
      modifies this
      ensures outputStream == old(outputStream) + FileBlock(relativePath, filtered)
      ensures config == old(config) && processedFiles == old(processedFiles) && rootDir == old(rootDir)
    {
      Write("\n\n###FILENAME: " + relativePath + "\n");
      Write(filtered);
      if !EndsWith(filtered, "\n") {
        Write("\n");
      }
      Write("###END\n");
    }

    /**
     * `_write_file_list`: the manifest is built in a local string and written at the end; a
     * processed file that cannot be opened raises before anything is written.
     */
    method WriteFileList(files: Files) returns (r: Result<(), string>)
      modifies this
      ensures match ManifestLines(files, rootDir, processedFiles)
              case Success(m) => r == Success(()) && outputStream == old(outputStream) + ManifestHeading + m
              case Failure(p) => r == Failure(p) && outputStream == old(outputStream)
      ensures config == old(config) && processedFiles == old(processedFiles) && rootDir == old(rootDir)
    {
      var fileList := ManifestHeading;
      var processed := processedFiles;
      var root := rootDir;
      for i := 0 to |processed|
        invariant ManifestLines(files, root, processed[..i]).Success?
        invariant fileList == ManifestHeading + ManifestLines(files, root, processed[..i]).value
        invariant unchanged(this)
      {
        var filePath := processed[i];
        if filePath !in files {
          ManifestFailsAt(files, root, processed, i + 1);
          return Failure(filePath);
        }
        var lineCount := LineCount(files[filePath]);
        var relativePath := DisplayPath(filePath, root);
        ManifestAppend(files, root, processed, i, fileList);
        fileList := fileList + ManifestLine(relativePath, lineCount);
      }
      assert processed[..|processed|] == processed;
      Write(fileList);
      r := Success(());
    }

    /** `get_files_to_concatenate`. */
    function GetFilesToConcatenate(fileList: seq<string>): (r: set<string>)
      reads this
      requires Valid()
      ensures forall p :: p in r ==> p in fileList
      ensures forall x :: x in Selected(config, rootDir, fileList) <==> exists p :: p in r && PathJoin(rootDir, p) == x
    {
      SelectedMatchesSet(config, rootDir, fileList);
      FilesToConcatenate(config, rootDir, fileList)
    }

    /**
     * `concat_files`: the header, then a block per processed input in order, each processed
     * full path appended to the list, then the manifest of every file processed so far, by
     * this call and by earlier ones. The result is the whole buffer; when the manifest raises,
     * the header and blocks stay written and the call fails.
     */
    method ConcatFiles(fileList: seq<string>, files: Files) returns (r: Result<string, string>)
      requires Valid()
      modifies this
      ensures Valid() && config == old(config) && rootDir == old(rootDir)
      ensures processedFiles == old(processedFiles) + Selected(config, rootDir, fileList)
      ensures var body := old(outputStream) + Header + Blocks(files, rootDir, Selected(config, rootDir, fileList));
              match ManifestLines(files, rootDir, processedFiles)
              case Success(m) => outputStream == body + ManifestHeading + m && r == Success(outputStream)
              case Failure(p) => outputStream == body && r == Failure(p)
    {
      WriteHeader();
      ghost var start := outputStream;
      ghost var before := processedFiles;
      ghost var cfg, root := config, rootDir;
      for i := 0 to |fileList|
        invariant config == cfg && rootDir == root
        invariant ConcatPrefix(cfg, root, files, fileList, i, start, before, outputStream, processedFiles)
      {
        var filePath := fileList[i];
        var fullPath := PathJoin(rootDir, filePath);
        ConcatStep(cfg, root, files, fileList, i, start, before, outputStream, processedFiles);
        if ShouldProcess(config, rootDir, fullPath) {
          WriteFileContent(fullPath, files);
          processedFiles := processedFiles + [fullPath];
        }
      }
      ConcatPrefixDone(cfg, root, files, fileList, start, before, outputStream, processedFiles);
      var listed := WriteFileList(files);
      if listed.Failure? {
        return Failure(listed.error);
      }
      r := Success(outputStream);
    }
  }

  // ---------------------------------------------------------------------------
  // Helpers of the loops
  // ---------------------------------------------------------------------------

  lemma ManifestStep(files: Files, root: string, processed: seq<string>, i: nat)
    requires i < |processed| && processed[i] in files && ManifestLines(files, root, processed[..i]).Success?
    ensures ManifestLines(files, root, processed[..i + 1])
              == Success(ManifestLines(files, root, processed[..i]).value
                         + ManifestLine(DisplayPath(processed[i], root), LineCount(files[processed[i]])))
  {
    assert processed[..i + 1][..i] == processed[..i];
  }

  /** After the first `i` inputs of `concat_files`: their blocks written, their full paths listed. */
  ghost predicate ConcatPrefix(cfg: Config, root: string, files: Files, fileList: seq<string>, i: nat,
                               start: string, before: seq<string>, out: string, processed: seq<string>)
  {
    && WellTyped(cfg) && i <= |fileList|
    && processed == before + Selected(cfg, root, fileList[..i])
    && out == start + Blocks(files, root, Selected(cfg, root, fileList[..i]))
  }

  lemma ConcatStep(cfg: Config, root: string, files: Files, fileList: seq<string>, i: nat,
                   start: string, before: seq<string>, out: string, processed: seq<string>)
    requires ConcatPrefix(cfg, root, files, fileList, i, start, before, out, processed) && i < |fileList|
    ensures var full := PathJoin(root, fileList[i]);
            if ShouldProcess(cfg, root, full)
            then ConcatPrefix(cfg, root, files, fileList, i + 1, start, before, out + BlockOf(files, root, full), processed + [full])
            else ConcatPrefix(cfg, root, files, fileList, i + 1, start, before, out, processed)
  {
    var full := PathJoin(root, fileList[i]);
    var sel := Selected(cfg, root, fileList[..i]);
    SelectedStep(cfg, root, fileList, i);
    if ShouldProcess(cfg, root, full) {
      OutStep(files, root, start, sel, full);
      ListStep(before, sel, full);
    } else {
      assert sel + [] == sel;
    }
  }

  lemma OutStep(files: Files, root: string, start: string, sel: seq<string>, full: string)
    ensures start + Blocks(files, root, sel + [full]) == start + Blocks(files, root, sel) + BlockOf(files, root, full)
  {
    BlocksSnoc(files, root, sel, full);
    Assoc(start, Blocks(files, root, sel), BlockOf(files, root, full));
  }

  lemma ListStep(before: seq<string>, sel: seq<string>, full: string)
    ensures before + (sel + [full]) == before + sel + [full]
  {
  }

  lemma ConcatPrefixDone(cfg: Config, root: string, files: Files, fileList: seq<string>,
                         start: string, before: seq<string>, out: string, processed: seq<string>)
    requires ConcatPrefix(cfg, root, files, fileList, |fileList|, start, before, out, processed)
    ensures processed == before + Selected(cfg, root, fileList)
    ensures out == start + Blocks(files, root, Selected(cfg, root, fileList))
  {
    assert fileList[..|fileList|] == fileList;
  }

  lemma SelectedStep(config: Config, root: string, fileList: seq<string>, i: nat)
    requires WellTyped(config) && i < |fileList|
    ensures var full := PathJoin(root, fileList[i]);
            Selected(config, root, fileList[..i + 1])
              == Selected(config, root, fileList[..i]) + (if ShouldProcess(config, root, full) then [full] else [])
  {
    assert fileList[..i + 1][..i] == fileList[..i];
  }

  /** One step of the manifest loop. */
  lemma ManifestAppend(files: Files, root: string, processed: seq<string>, i: nat, acc: string)
    requires i < |processed| && processed[i] in files && ManifestLines(files, root, processed[..i]).Success?
    requires acc == ManifestHeading + ManifestLines(files, root, processed[..i]).value
    ensures ManifestLines(files, root, processed[..i + 1]).Success?
    ensures acc + ManifestLine(DisplayPath(processed[i], root), LineCount(files[processed[i]]))
              == ManifestHeading + ManifestLines(files, root, processed[..i + 1]).value
  {
    ManifestStep(files, root, processed, i);
    Assoc(ManifestHeading, ManifestLines(files, root, processed[..i]).value,
          ManifestLine(DisplayPath(processed[i], root), LineCount(files[processed[i]])));
  }

  lemma Assoc(a: string, b: string, c: string)
    ensures a + b + c == a + (b + c)
  {
  }

  lemma BlocksSnoc(files: Files, root: string, fulls: seq<string>, p: string)
    ensures Blocks(files, root, fulls + [p]) == Blocks(files, root, fulls) + BlockOf(files, root, p)
  {
    assert (fulls + [p])[..|fulls|] == fulls;
  }

  /** The manifest fails at the first unopenable path, whatever follows it. */
  lemma {:induction false} ManifestFailsAt(files: Files, root: string, processed: seq<string>, n: nat)
    requires 0 < n <= |processed| && processed[n - 1] !in files
    requires ManifestLines(files, root, processed[..n - 1]).Success?
    ensures ManifestLines(files, root, processed) == Failure(processed[n - 1])
    decreases |processed|
  {
    if n < |processed| {
      var init := processed[..|processed| - 1];
      assert init[..n - 1] == processed[..n - 1];
      ManifestFailsAt(files, root, init, n);
    } else {
      assert processed[..n - 1] == processed[..|processed| - 1];
    }
  }

  // ---------------------------------------------------------------------------
  // Properties
  // ---------------------------------------------------------------------------

  /** The test check is a plain substring test: "latest.py" under the root is excluded by default. */
  lemma LatestExcludedByDefault(root: string)
    ensures !ShouldProcess(DefaultConfig, root, root + "/latest.py")
  {
    var p := root + "/latest.py";
    assert StartsWith(p, root + "/");
    assert RelPath(p, root) == "latest.py";
    LowerNoop("latest.py");
    assert "latest.py"[2..6] == "test";
    ContainsAt("latest.py", "test", 2);
  }

  /** With tests included the same file is processed. */
  lemma LatestIncludedWithTests(root: string)
    ensures ShouldProcess(DefaultConfig["include_tests" := Flag(true)], root, root + "/latest.py")
  {
    var c := DefaultConfig["include_tests" := Flag(true)];
    var p := root + "/latest.py";
    assert c["include_file_extensions"].exts == DefaultExtensions;
    assert p[|p| - 3..] == ".py" == DefaultExtensions[0];
    assert EndsWith(p, c["include_file_extensions"].exts[0]);
    assert p[|p| - 1] == 'y';
    assert "package-lock.json"[16] == 'n';
  }

  lemma {:induction false} NewlineCountAppend(a: string, b: string)
    ensures NewlineCount(a + b) == NewlineCount(a) + NewlineCount(b)
    decreases |b|
  {
    if b != [] {
      assert (a + b)[..|a + b| - 1] == a + b[..|b| - 1];
      NewlineCountAppend(a, b[..|b| - 1]);
    } else {
      assert a + b == a;
    }
  }

  lemma {:induction false} NewlineCountFree(s: string)
    requires '\n' !in s
    ensures NewlineCount(s) == 0
    decreases |s|
  {
    if s != [] {
      NewlineCountFree(s[..|s| - 1]);
    }
  }

  /** Lines joined with '\n' hold one '\n' fewer than there are lines. */
  lemma {:induction false} NewlineCountUnlines(ls: seq<string>)
    requires |ls| >= 1 && forall k :: 0 <= k < |ls| ==> '\n' !in ls[k]
    ensures NewlineCount(Unlines(ls)) == |ls| - 1
    decreases |ls|
  {
    if |ls| == 1 {
      NewlineCountFree(ls[0]);
    } else {
      UnlinesCons(ls[0], ls[1..]);
      NewlineCountUnlines(ls[1..]);
      NewlineCountFree(ls[0]);
      NewlineCountAppend(ls[0], "\n");
      NewlineCountAppend(ls[0] + "\n", Unlines(ls[1..]));
    }
  }

  /**
   * The manifest count is the number of lines a file iteration yields: for lines joined with
   * '\n', every line when the last one is not empty (a final unterminated line counts), and
   * one fewer when the text ends with '\n'.
   */
  lemma LineCountOfLines(ls: seq<string>)
    requires |ls| >= 1 && forall k :: 0 <= k < |ls| ==> '\n' !in ls[k]
    ensures LineCount(Unlines(ls)) == if ls[|ls| - 1] == [] then |ls| - 1 else |ls|
  {
    NewlineCountUnlines(ls);
    var s := Unlines(ls);
    if |ls| > 1 {
      UnlinesLast(ls);
    }
  }

  lemma UnlinesLast(ls: seq<string>)
    requires |ls| > 1
    ensures Unlines(ls) == Unlines(ls[..|ls| - 1]) + "\n" + ls[|ls| - 1]
  {
    JoinSnoc(ls[..|ls| - 1], ls[|ls| - 1], "\n");
    assert ls[..|ls| - 1] + [ls[|ls| - 1]] == ls;
  }

  /** The manifest can be written exactly when every processed file can be opened. */
  lemma {:induction false} ManifestSucceedsIff(files: Files, root: string, processed: seq<string>)
    ensures ManifestLines(files, root, processed).Success? <==> forall k :: 0 <= k < |processed| ==> processed[k] in files
    decreases |processed|
  {
    if processed != [] {
      var init := processed[..|processed| - 1];
      ManifestSucceedsIff(files, root, init);
      assert forall k :: 0 <= k < |init| ==> init[k] == processed[k];
    }
  }

  /** The processed full paths are the full paths of the files `get_files_to_concatenate` reports. */
  lemma {:induction false} SelectedMatchesSet(config: Config, root: string, fileList: seq<string>)
    requires WellTyped(config)
    ensures forall x :: x in Selected(config, root, fileList)
              <==> exists p :: p in FilesToConcatenate(config, root, fileList) && PathJoin(root, p) == x
    decreases |fileList|
  {
    if fileList != [] {
      var init := fileList[..|fileList| - 1];
      SelectedMatchesSet(config, root, init);
      assert fileList == init + [fileList[|fileList| - 1]];
    }
  }

  /** Listing the same files twice is possible when listing them once is. */
  lemma ManifestTwice(files: Files, root: string, ps: seq<string>)
    requires ManifestLines(files, root, ps).Success?
    ensures ManifestLines(files, root, ps + ps).Success?
  {
    ManifestSucceedsIff(files, root, ps);
    ManifestSucceedsIff(files, root, ps + ps);
    assert forall k :: 0 <= k < |ps + ps| ==> (ps + ps)[k] in ps;
  }

  lemma PrefixOfSum(a: string, x: string, y: string, z: string)
    ensures StartsWith(a + x + y + z, a)
  {
    assert (a + x + y + z)[..|a|] == a;
  }

  /**
   * Nothing is reset between calls: a second `concat_files` on the same concatenator with the
   * same inputs returns the first result followed by a second header, and lists every file
   * twice.
   */
  method TwoCalls(kwargs: Config, cwd: string, fileList: seq<string>, files: Files)
    returns (first: Result<string, string>, second: Result<string, string>)
    requires ("include_file_extensions" in kwargs ==> kwargs["include_file_extensions"].Exts?)
    requires ("include_tests" in kwargs ==> kwargs["include_tests"].Flag?)
    requires ("root_dir" in kwargs ==> kwargs["root_dir"].PathValue?)
    ensures first.Success? ==> second.Success?
    ensures first.Success? ==> StartsWith(second.value, first.value + Header)
    ensures var root := if "root_dir" in kwargs then kwargs["root_dir"].path else cwd;
            var sel := Selected(DefaultConfig + kwargs, root, fileList);
            first.Success? ==>
              && ManifestLines(files, root, sel + sel).Success?
              && second == Success(first.value + Header + Blocks(files, root, sel) + ManifestHeading
                                + ManifestLines(files, root, sel + sel).value)
  {
    var c := new CodebaseConcatenator(kwargs, cwd);
    first := c.ConcatFiles(fileList, files);
    ghost var sel := Selected(c.config, c.rootDir, fileList);
    ghost var root := c.rootDir;
    ghost var out1 := c.outputStream;
    assert [] + sel == sel;
    assert c.processedFiles == sel;
    assert first.Success? ==> ManifestLines(files, root, sel).Success? && first.value == out1;
    second := c.ConcatFiles(fileList, files);
    assert c.processedFiles == sel + sel;
    if first.Success? {
      ManifestTwice(files, root, sel);
      ghost var m := ManifestLines(files, root, sel + sel).value;
      PrefixOfSum(out1 + Header, Blocks(files, root, sel), ManifestHeading, m);
    }
  }
}
