/**
 * Applying a batch of patches to the project files (my_engineer/patch_processor/patch_processor.py).
 *
 * The files are a map from full path to content: reading a path that is not in the map fails.
 * The patch service is a parameter `apply` from (original content, patch content, file path) to
 * the updated content or an error. Each write is recorded, so that a patch whose result equals
 * the file is seen to write nothing.
 */
module PatchProcessor {
  import opened Wrappers
  import opened Text
  import opened ResponseModels
  import PatchService

  type Files = map<string, string>

  type Applier = (string, string, string) -> Result<string, PatchService.PatchError>

  /** The first line of the original file: the text before the first '\n', "" for an empty file. */
  function OriginalFirstLine(content: string): string {
    if content == [] then [] else Lines(content)[0]
  }

  /**
   * The first-line guard: when the updated first line differs from the original one and is
   * blank, the original first line is put back; otherwise the updated content is kept.
   */
  function GuardFirstLine(updated: string, originalFirst: string): string {
    var lines := Lines(updated);
    if lines[0] != originalFirst && IsBlank(lines[0]) then Unlines([originalFirst] + lines[1..])
    else updated
  }

  /** What processing one patch does. */
  datatype Outcome =
    | ReadFailed                          // the target could not be read: logged, skipped
    | ApplyFailed(error: PatchService.PatchError)  // the service raised: logged, skipped
    | Written(path: string, content: string)       // the file was rewritten and the patch marked
    | Unchanged(path: string)                      // nothing to write; the patch is still marked

  function PatchOutcome(files: Files, root: string, p: PatchInstruction, apply: Applier): Outcome {
    var fullPath := PathJoin(root, p.filePath);
    if fullPath !in files then ReadFailed
    else
      var original := files[fullPath];
      match apply(original, p.patchContent, p.filePath)
      case Failure(e) => ApplyFailed(e)
      case Success(updated) =>
        var guarded := GuardFirstLine(updated, OriginalFirstLine(original));
        if guarded != original then Written(fullPath, guarded) else Unchanged(fullPath)
  }

  /** The files after one outcome. */
  function FilesAfter(files: Files, o: Outcome): Files {
    if o.Written? then files[o.path := o.content] else files
  }

  /** The patch record after one outcome: marked with the full path when it was processed. */
  function Marked(p: PatchInstruction, o: Outcome): PatchInstruction {
    match o
    case Written(path, _) => p.(processedPatchPath := Some(path))
    case Unchanged(path) => p.(processedPatchPath := Some(path))
    case _ => p
  }

  /** The outcomes of a batch, each patch seeing the files as the earlier ones left them. */
  function Outcomes(files: Files, root: string, ps: seq<PatchInstruction>, apply: Applier): (os: seq<Outcome>)
    ensures |os| == |ps|
  {
    if ps == [] then []
    else
      var o := PatchOutcome(files, root, ps[0], apply);
      [o] + Outcomes(FilesAfter(files, o), root, ps[1..], apply)
  }

  /** The files after a batch. */
  function BatchFiles(files: Files, root: string, ps: seq<PatchInstruction>, apply: Applier): Files {
    if ps == [] then files
    else BatchFiles(FilesAfter(files, PatchOutcome(files, root, ps[0], apply)), root, ps[1..], apply)
  }

  /** The writes of a batch, in order. */
  function Writes(os: seq<Outcome>): seq<(string, string)> {
    if os == [] then []
    else
      var o := os[|os| - 1];
      Writes(os[..|os| - 1]) + (if o.Written? then [(o.path, o.content)] else [])
  }

  /**
   * The body of the loop of `process_patches` for one patch: read the target, apply the patch,
   * guard the first line, write only a changed file, and mark the record.
   */
  method ProcessPatch(p: PatchInstruction, root: string, files: Files, apply: Applier)
    returns (newFiles: Files, marked: PatchInstruction, write: Option<(string, string)>)
    ensures var o := PatchOutcome(files, root, p, apply);
            && newFiles == FilesAfter(files, o)
            && marked == Marked(p, o)
            && write == (if o.Written? then Some((o.path, o.content)) else None)
  {
    newFiles, marked, write := files, p, None;
    var fullPath := PathJoin(root, p.filePath);
    if fullPath !in files {
      return;
    }
    var original := files[fullPath];
    var originalFirstLine := OriginalFirstLine(original);
    var result := apply(original, p.patchContent, p.filePath);
    if result.Failure? {
      return;
    }
    var updatedContent := result.value;
    var updatedLines := Lines(updatedContent);
    if updatedLines[0] != originalFirstLine && IsBlank(updatedLines[0]) {
      updatedLines := updatedLines[0 := originalFirstLine];
      assert updatedLines == [originalFirstLine] + Lines(result.value)[1..];
      updatedContent := Unlines(updatedLines);
    }
    if updatedContent != original {
      newFiles := files[fullPath := updatedContent];
      write := Some((fullPath, updatedContent));
    }
    marked := p.(processedPatchPath := Some(fullPath));
  }

  /** One step of the batch: the next patch's outcome, then the rest on the files it leaves. */
  lemma BatchStep(files: Files, root: string, ps: seq<PatchInstruction>, apply: Applier, i: nat)
    requires i < |ps|
    ensures var o := PatchOutcome(files, root, ps[i], apply);
            && Outcomes(files, root, ps[i..], apply) == [o] + Outcomes(FilesAfter(files, o), root, ps[i + 1..], apply)
            && BatchFiles(files, root, ps[i..], apply) == BatchFiles(FilesAfter(files, o), root, ps[i + 1..], apply)
  {
    assert ps[i..][0] == ps[i] && ps[i..][1..] == ps[i + 1..];
  }

  lemma WritesSnoc(os: seq<Outcome>, o: Outcome)
    ensures Writes(os + [o]) == Writes(os) + (if o.Written? then [(o.path, o.content)] else [])
  {
    assert (os + [o])[..|os|] == os;
  }

  /**
   * After the first `i` patches of a batch: `done` holds their outcomes, `cur` the files they
   * left, and `writes` their writes.
   */
  ghost predicate BatchPrefix(files: Files, root: string, ps: seq<PatchInstruction>, apply: Applier,
                              i: nat, cur: Files, done: seq<Outcome>, writes: seq<(string, string)>)
  {
    && i <= |ps|
    && |done| == i
    && done + Outcomes(cur, root, ps[i..], apply) == Outcomes(files, root, ps, apply)
    && BatchFiles(cur, root, ps[i..], apply) == BatchFiles(files, root, ps, apply)
    && writes == Writes(done)
  }

  lemma BatchPrefixStep(files: Files, root: string, ps: seq<PatchInstruction>, apply: Applier,
                        i: nat, cur: Files, done: seq<Outcome>, writes: seq<(string, string)>)
    requires BatchPrefix(files, root, ps, apply, i, cur, done, writes) && i < |ps|
    ensures var o := PatchOutcome(cur, root, ps[i], apply);
            BatchPrefix(files, root, ps, apply, i + 1, FilesAfter(cur, o), done + [o],
                        writes + (if o.Written? then [(o.path, o.content)] else []))
  {
    var o := PatchOutcome(cur, root, ps[i], apply);
    var rest := Outcomes(FilesAfter(cur, o), root, ps[i + 1..], apply);
    BatchStep(cur, root, ps, apply, i);
    WritesSnoc(done, o);
    assert (done + [o]) + rest == done + ([o] + rest);
  }

  lemma BatchPrefixDone(files: Files, root: string, ps: seq<PatchInstruction>, apply: Applier,
                        cur: Files, done: seq<Outcome>, writes: seq<(string, string)>)
    requires BatchPrefix(files, root, ps, apply, |ps|, cur, done, writes)
    ensures done == Outcomes(files, root, ps, apply)
    ensures cur == BatchFiles(files, root, ps, apply)
    ensures writes == Writes(Outcomes(files, root, ps, apply))
  {
    assert ps[|ps|..] == [];
    assert done + [] == done;
  }

  /**
   * `PatchProcessor.process_patches`: each patch is processed in turn on the files the earlier
   * ones left; a failing patch is skipped and the loop goes on. The records are updated in place;
   * the new files and the writes are returned.
   */
  method ProcessPatches(patches: array<PatchInstruction>, root: string, files: Files, apply: Applier)
    returns (newFiles: Files, writes: seq<(string, string)>)
    modifies patches
    ensures var os := Outcomes(files, root, old(patches[..]), apply);
            && newFiles == BatchFiles(files, root, old(patches[..]), apply)
            && writes == Writes(os)
            && forall k :: 0 <= k < patches.Length ==> patches[k] == Marked(old(patches[k]), os[k])
  {
    ghost var ps := patches[..];
    ghost var done: seq<Outcome> := [];
    newFiles, writes := files, [];
    assert ps[0..] == ps;
    for i := 0 to patches.Length
      invariant BatchPrefix(files, root, ps, apply, i, newFiles, done, writes)
      invariant forall k :: 0 <= k < patches.Length ==> patches[k] == (if k < i then Marked(ps[k], done[k]) else ps[k])
    {
      ghost var o := PatchOutcome(newFiles, root, ps[i], apply);
      BatchPrefixStep(files, root, ps, apply, i, newFiles, done, writes);
      var marked, write;
      newFiles, marked, write := ProcessPatch(patches[i], root, newFiles, apply);
      patches[i] := marked;
      if write.Some? {
        writes := writes + [write.value];
      }
      done := done + [o];
    }
    BatchPrefixDone(files, root, ps, apply, newFiles, done, writes);
  }

  // ---------------------------------------------------------------------------
  // Properties
  // ---------------------------------------------------------------------------

  /** The original first line holds no '\n' and begins the file; a one-line file is its own first line. */
  lemma OriginalFirstLineIsPrefix(content: string)
    ensures '\n' !in OriginalFirstLine(content) && OriginalFirstLine(content) <= content
    ensures '\n' !in content ==> OriginalFirstLine(content) == content
  {
    if content != [] {
      LinesHaveNoNewline(content);
      FirstLinePrefix(content);
      if '\n' !in content {
        LinesUnlines([content]);
      }
    }
  }

  /**
   * The guard touches the first line only: every later line is kept, and the first line is
   * the original one exactly when the updated one differed from it and was blank. Otherwise the
   * updated content is returned as produced.
   */
  lemma GuardFirstLineLines(updated: string, originalFirst: string)
    requires '\n' !in originalFirst
    ensures var ls := Lines(updated);
            var gs := Lines(GuardFirstLine(updated, originalFirst));
            var restore := ls[0] != originalFirst && IsBlank(ls[0]);
            && |gs| == |ls|
            && gs[1..] == ls[1..]
            && gs[0] == (if restore then originalFirst else ls[0])
            && (GuardFirstLine(updated, originalFirst) == updated <==> !restore)
  {
    var ls := Lines(updated);
    if ls[0] != originalFirst && IsBlank(ls[0]) {
      LinesHaveNoNewline(updated);
      LinesUnlines([originalFirst] + ls[1..]);
      assert ([originalFirst] + ls[1..])[1..] == ls[1..];
    }
  }

  /**
   * A shebang survives a patch result whose first line came back empty:
   * "#!/bin/sh\necho hi" patched to "\necho bye" is written as "#!/bin/sh\necho bye".
   */
  lemma ShebangExample(path: string, p: PatchInstruction, apply: Applier)
    requires p.filePath == path && StartsWith(path, "/")
    requires apply(Unlines(["#!/bin/sh", "echo hi"]), p.patchContent, path) == Success(Unlines(["", "echo bye"]))
    ensures PatchOutcome(map[path := Unlines(["#!/bin/sh", "echo hi"])], "/root", p, apply)
              == Written(path, Unlines(["#!/bin/sh", "echo bye"]))
  {
    var original := Unlines(["#!/bin/sh", "echo hi"]);
    var updated := Unlines(["", "echo bye"]);
    LinesUnlines(["#!/bin/sh", "echo hi"]);
    LinesUnlines(["", "echo bye"]);
    assert OriginalFirstLine(original) == "#!/bin/sh";
    assert Lines(updated)[1..] == ["echo bye"];
    assert GuardFirstLine(updated, "#!/bin/sh") == Unlines(["#!/bin/sh", "echo bye"]);
    assert Unlines(["#!/bin/sh", "echo bye"]) != original by {
      LinesUnlines(["#!/bin/sh", "echo bye"]);
    }
  }

  /**
   * The four outcomes of one patch: a read failure, a failure of the service, a write exactly
   * when the guarded content differs from the file, and a no-op otherwise. The record is marked
   * with the full path exactly when the file was read and the service succeeded.
   */
  lemma OutcomeCases(files: Files, root: string, p: PatchInstruction, apply: Applier)
    ensures var full := PathJoin(root, p.filePath);
            var o := PatchOutcome(files, root, p, apply);
            var applied := if full in files then apply(files[full], p.patchContent, p.filePath) else Failure(PatchService.MalformedOutput);
            && (o.ReadFailed? <==> full !in files)
            && (o.ApplyFailed? <==> full in files && applied.Failure?)
            && (o.Written? <==> full in files && applied.Success?
                                && GuardFirstLine(applied.value, OriginalFirstLine(files[full])) != files[full])
            && (o.Written? ==> o.path == full && o.content == GuardFirstLine(applied.value, OriginalFirstLine(files[full])))
            && (o.Unchanged? ==> o.path == full)
            && Marked(p, o) == (if full in files && applied.Success? then p.(processedPatchPath := Some(full)) else p)
  {
  }

  /** A write never repeats the file's current content. */
  lemma WriteOnlyOnChange(files: Files, root: string, p: PatchInstruction, apply: Applier)
    ensures var o := PatchOutcome(files, root, p, apply);
            o.Written? ==> o.path in files && files[o.path] != o.content
  {
  }

  /**
   * A patch that cannot be read or applied is skipped: it leaves the files and its record as
   * they were, and the rest of the batch runs on the same files.
   */
  lemma FailedPatchSkipped(files: Files, root: string, p: PatchInstruction, rest: seq<PatchInstruction>, apply: Applier)
    requires PatchOutcome(files, root, p, apply).ReadFailed? || PatchOutcome(files, root, p, apply).ApplyFailed?
    ensures Marked(p, PatchOutcome(files, root, p, apply)) == p
    ensures Outcomes(files, root, [p] + rest, apply) == [PatchOutcome(files, root, p, apply)] + Outcomes(files, root, rest, apply)
    ensures BatchFiles(files, root, [p] + rest, apply) == BatchFiles(files, root, rest, apply)
  {
    assert ([p] + rest)[0] == p && ([p] + rest)[1..] == rest;
  }

  /** A batch only rewrites files that exist: the set of paths never grows or shrinks. */
  lemma {:induction false} BatchKeepsPaths(files: Files, root: string, ps: seq<PatchInstruction>, apply: Applier)
    ensures BatchFiles(files, root, ps, apply).Keys == files.Keys
    decreases |ps|
  {
    if ps != [] {
      var o := PatchOutcome(files, root, ps[0], apply);
      BatchKeepsPaths(FilesAfter(files, o), root, ps[1..], apply);
    }
  }

  /** Every write of a batch is to a path of the original files. */
  lemma {:induction false} WritesToExistingFiles(files: Files, root: string, ps: seq<PatchInstruction>, apply: Applier)
    ensures forall w :: w in Writes(Outcomes(files, root, ps, apply)) ==> w.0 in files
    decreases |ps|
  {
    if ps != [] {
      var o := PatchOutcome(files, root, ps[0], apply);
      var os := Outcomes(FilesAfter(files, o), root, ps[1..], apply);
      WritesToExistingFiles(FilesAfter(files, o), root, ps[1..], apply);
      WritesConcat([o], os);
    }
  }

  lemma {:induction false} WritesConcat(a: seq<Outcome>, b: seq<Outcome>)
    ensures Writes(a + b) == Writes(a) + Writes(b)
    decreases |b|
  {
    if b == [] {
      assert a + b == a;
    } else {
      var l := b[..|b| - 1];
      WritesConcat(a, l);
      assert a + b == (a + l) + [b[|b| - 1]];
      WritesSnoc(a + l, b[|b| - 1]);
      WritesSnoc(l, b[|b| - 1]);
      assert l + [b[|b| - 1]] == b;
    }
  }
}
