/**
 * Git branch names for a pipeline run (my_engineer/shared_utils/pipeline_helpers.py): the
 * commit name is sanitised and appended to the run directory's name.
 *
 * Running git and checking for uncommitted changes are left out. `\w` and `lower` are taken
 * on ASCII.
 */
module PipelineHelpers {
  import opened Text

  /** One character of `re.sub(r'[^\w-]', '-', name)`. */
  function DashChar(c: char): char {
    if IsWordChar(c) || c == '-' then c else '-'
  }

  /** A character that may appear in a sanitised name. */
  predicate BranchChar(c: char) {
    (IsWordChar(c) || c == '-') && !('A' <= c <= 'Z')
  }

  function Dashed(name: string): (r: string)
    ensures |r| == |name| && forall i :: 0 <= i < |name| ==> r[i] == DashChar(name[i])
  {
    seq(|name|, i requires 0 <= i < |name| => DashChar(name[i]))
  }

  /** `sanitize_branch_name`: dashes for other characters, outer underscores stripped, lowercased. */
  function SanitizeBranchName(name: string): (r: string)
    ensures |r| <= |name|
    ensures forall i :: 0 <= i < |r| ==> BranchChar(r[i])
    ensures r == [] || (r[0] != '_' && r[|r| - 1] != '_')
  {
    var s := StripChar(Dashed(name), '_');
    StrippedDashed(name);
    LowerKeepsBranchChars(s);
    Lower(s)
  }

  /** After the dashes and the strip, only word characters and dashes remain. */
  lemma StrippedDashed(name: string)
    ensures var s := StripChar(Dashed(name), '_');
            forall i :: 0 <= i < |s| ==> IsWordChar(s[i]) || s[i] == '-'
  {
    var d := Dashed(name);
    var s := StripChar(d, '_');
    forall i | 0 <= i < |s|
      ensures IsWordChar(s[i]) || s[i] == '-'
    {
      assert s[i] in d;
    }
  }

  /** Lowercasing word characters and dashes gives branch characters, and keeps '_' where it was. */
  lemma LowerKeepsBranchChars(s: string)
    requires forall i :: 0 <= i < |s| ==> IsWordChar(s[i]) || s[i] == '-'
    requires s == [] || (s[0] != '_' && s[|s| - 1] != '_')
    ensures forall i :: 0 <= i < |s| ==> BranchChar(Lower(s)[i])
    ensures s == [] || (Lower(s)[0] != '_' && Lower(s)[|s| - 1] != '_')
  {
  }

  /** Text that is already a sanitised name passes every step unchanged. */
  lemma SanitizeNoop(s: string)
    requires forall i :: 0 <= i < |s| ==> BranchChar(s[i])
    requires s == [] || (s[0] != '_' && s[|s| - 1] != '_')
    ensures SanitizeBranchName(s) == s
  {
    assert Dashed(s) == s;
    assert StripChar(s, '_') == s;
    LowerNoop(s);
  }

  /** Sanitising twice is sanitising once. */
  lemma SanitizeIdempotent(name: string)
    ensures SanitizeBranchName(SanitizeBranchName(name)) == SanitizeBranchName(name)
  {
    SanitizeNoop(SanitizeBranchName(name));
  }

  /** Leading and trailing blanks become dashes, which are not stripped. */
  lemma OuterSpacesBecomeDashes()
    ensures SanitizeBranchName(" fix ") == "-fix-"
  {
    assert Dashed(" fix ") == "-fix-";
    assert StripChar("-fix-", '_') == "-fix-";
    LowerNoop("-fix-");
  }

  /**
   * The branch name of `create_git_branch`: the run directory's base name, '_', the sanitised
   * name. It never contains '/', and it ends with '_' and the sanitised commit name, which
   * consists of lowercase word characters and dashes only.
   */
  function BranchName(runDir: string, commitName: string): (r: string)
    ensures '/' !in r
    ensures EndsWith(r, "_" + SanitizeBranchName(commitName))
  {
    SlashFreeJoin(Basename(runDir), SanitizeBranchName(commitName));
    Basename(runDir) + "_" + SanitizeBranchName(commitName)
  }

  lemma SlashFreeJoin(b: string, s: string)
    requires '/' !in b && forall i :: 0 <= i < |s| ==> BranchChar(s[i])
    ensures '/' !in b + "_" + s && EndsWith(b + "_" + s, "_" + s)
  {
    assert b + "_" + s == b + ("_" + s);
    assert (b + ("_" + s))[|b|..] == "_" + s;
  }
}
