/**
 * Content filtering for the concatenated dump (my_engineer/codebase_concatenator/file_utils.py):
 * a `.env` file has every `KEY=value` line redacted; any other file loses its comment lines and
 * its blank lines.
 *
 * Text is ASCII with '\n' line breaks, so `str.splitlines()` and `split('\n')` keep the same
 * non-blank lines.
 */
module FileUtils {
  import opened Text

  // ---------------------------------------------------------------------------
  // The .env branch: re.sub(r'^(\w+)=.*$', r'\1=REDACTED', text, flags=re.MULTILINE).strip()
  // ---------------------------------------------------------------------------

  /** The longest prefix of word characters. */
  function WordPrefix(s: string): (r: string)
    ensures r <= s
    ensures forall i :: 0 <= i < |r| ==> IsWordChar(r[i])
    ensures |r| < |s| ==> !IsWordChar(s[|r|])
  {
    if |s| > 0 && IsWordChar(s[0]) then [s[0]] + WordPrefix(s[1..]) else []
  }

  /**
   * One line under the substitution: the pattern matches when a non-empty run of word
   * characters starting the line is followed by '=' (`\w+` cannot stop short of '=' since
   * '=' is not a word character); the match covers the whole line.
   */
  function RedactLine(line: string): (r: string)
    ensures r == line || exists k :: 0 < k < |line| && line[k] == '=' && r == line[..k] + "=REDACTED"
  {
    var w := WordPrefix(line);
    assert w == line[..|w|];
    if 0 < |w| < |line| && line[|w|] == '=' then w + "=REDACTED" else line
  }

  /** The substitution applied to each line. */
  function RedactLines(ls: seq<string>): (r: seq<string>)
    ensures |r| == |ls| && forall i :: 0 <= i < |ls| ==> r[i] == RedactLine(ls[i])
  {
    seq(|ls|, i requires 0 <= i < |ls| => RedactLine(ls[i]))
  }

  /** The substitution line by line, then the strip of the whole text. */
  function Redact(text: string): string {
    Strip(Unlines(RedactLines(Lines(text))))
  }

  // ---------------------------------------------------------------------------
  // Any other file: drop comment lines and blank lines
  // ---------------------------------------------------------------------------

  /** `not line.lstrip().startswith('#') and line.strip()`. */
  predicate KeepLine(line: string) {
    !StartsWith(LStrip(line), "#") && !IsBlank(line)
  }

  /** The list comprehension over the lines. */
  function KeepLines(ls: seq<string>): (r: seq<string>)
    ensures |r| <= |ls|
  {
    if ls == [] then []
    else
      var init := KeepLines(ls[..|ls| - 1]);
      var last := ls[|ls| - 1];
      if KeepLine(last) then init + [last] else init
  }

  /** The kept lines joined with '\n' (no trailing newline). */
  function DropComments(text: string): string {
    Unlines(KeepLines(Lines(text)))
  }

  /** `FileUtils.filter_content`: the basename decides, `.env` exactly. */
  function FilterContent(text: string, filePath: string): string {
    if Basename(filePath) == ".env" then Redact(text) else DropComments(text)
  }

  // ---------------------------------------------------------------------------
  // Properties
  // ---------------------------------------------------------------------------

  /** The word prefix is any all-word-character prefix that is followed by a non-word character or the end. */
  lemma {:induction false} WordPrefixIs(s: string, k: nat)
    requires k <= |s| && (forall i :: 0 <= i < k ==> IsWordChar(s[i])) && (k < |s| ==> !IsWordChar(s[k]))
    ensures WordPrefix(s) == s[..k]
    decreases k
  {
    if k > 0 {
      WordPrefixIs(s[1..], k - 1);
      assert s[..k] == [s[0]] + s[1..][..k - 1];
    }
  }

  /**
   * `RedactLine` agrees with the regular expression read directly: a line of the form
   * `key + "=" + rest` with a non-empty all-word-character key becomes `key=REDACTED`, and a
   * line of no such form is left as it is.
   */
  lemma RedactLineMatches(key: string, rest: string)
    requires |key| > 0 && forall i :: 0 <= i < |key| ==> IsWordChar(key[i])
    ensures RedactLine(key + "=" + rest) == key + "=REDACTED"
  {
    var line := key + "=" + rest;
    WordPrefixIs(line, |key|);
    assert line[..|key|] == key;
  }

  lemma RedactLineNoMatch(line: string)
    requires !exists k: nat :: 0 < k < |line| && line[k] == '=' && forall i :: 0 <= i < k ==> IsWordChar(line[i])
    ensures RedactLine(line) == line
  {
    var w := WordPrefix(line);
    forall i | 0 <= i < |w|
      ensures IsWordChar(line[i])
    {
      assert line[i] == w[i];
    }
  }

  /** "export X=1" and a comment are not `KEY=value` lines. */
  lemma RedactLeavesOthers()
    ensures RedactLine("export X=1") == "export X=1"
    ensures RedactLine("# KEY=1") == "# KEY=1"
  {
    WordPrefixIs("export X=1", 6);
    WordPrefixIs("# KEY=1", 0);
  }

  /** `os.path.basename` of a path ending in "/name" is the name. */
  lemma {:induction false} BasenameAfterSlash(dir: string, name: string)
    requires '/' !in name
    ensures Basename(dir + "/" + name) == name
    decreases |name|
  {
    if name != [] {
      var n := name[..|name| - 1];
      BasenameAfterSlash(dir, n);
      assert (dir + "/" + name)[..|dir + "/" + name| - 1] == dir + "/" + n;
    }
  }

  predicate IsKey(key: string) {
    |key| > 0 && forall i :: 0 <= i < |key| ==> IsWordChar(key[i])
  }

  /** A path ending in "/.env" is redacted. */
  lemma EnvFileIsRedacted(dir: string, text: string)
    ensures FilterContent(text, dir + "/.env") == Redact(text)
  {
    BasenameAfterSlash(dir, ".env");
    assert dir + "/" + ".env" == dir + "/.env";
  }

  /** Two lines that start and end with non-whitespace are left alone by the final strip. */
  lemma StripTwoLines(x: string, y: string)
    requires |x| > 0 && |y| > 0 && !IsSpace(x[0]) && !IsSpace(y[|y| - 1])
    ensures Strip(Unlines([x, y])) == Unlines([x, y])
  {
    UnlinesCons(x, [y]);
    StripNoop(Unlines([x, y]));
  }

  /** The redaction of two `KEY=value` lines is the two keys, each followed by "=REDACTED". */
  lemma RedactTwoLines(k1: string, v1: string, k2: string, v2: string)
    requires IsKey(k1) && IsKey(k2) && '\n' !in v1 && '\n' !in v2 && '\n' !in k1 && '\n' !in k2
    ensures Redact(Unlines([k1 + "=" + v1, k2 + "=" + v2])) == Unlines([k1 + "=REDACTED", k2 + "=REDACTED"])
  {
    var ls := [k1 + "=" + v1, k2 + "=" + v2];
    LinesUnlines(ls);
    RedactLineMatches(k1, v1);
    RedactLineMatches(k2, v2);
    var out := [k1 + "=REDACTED", k2 + "=REDACTED"];
    assert RedactLines(ls) == out;
    StripTwoLines(k1 + "=REDACTED", k2 + "=REDACTED");
  }

  /**
   * A `.env` file of two `KEY=value` lines is filtered to the two keys, each followed by
   * "=REDACTED", on two lines; with the keys "API_KEY" and "FOO" this is the filtering of
   * "API_KEY=abc123\nFOO=bar" to "API_KEY=REDACTED\nFOO=REDACTED".
   */
  lemma EnvTwoLines(dir: string, k1: string, v1: string, k2: string, v2: string)
    requires IsKey(k1) && IsKey(k2) && '\n' !in v1 && '\n' !in v2 && '\n' !in k1 && '\n' !in k2
    ensures FilterContent(Unlines([k1 + "=" + v1, k2 + "=" + v2]), dir + "/.env")
              == Unlines([k1 + "=REDACTED", k2 + "=REDACTED"])
  {
    EnvFileIsRedacted(dir, Unlines([k1 + "=" + v1, k2 + "=" + v2]));
    RedactTwoLines(k1, v1, k2, v2);
  }

  /** Only a basename of exactly ".env" is redacted: ".env.local" takes the comment filter. */
  lemma EnvLocalIsFiltered(text: string)
    ensures FilterContent(text, "/app/.env.local") == DropComments(text)
  {
    BasenameAfterSlash("/app", ".env.local");
    assert "/app" + "/" + ".env.local" == "/app/.env.local";
  }

  /** The filter keeps exactly the lines that qualify, in order: it distributes over `+`. */
  lemma {:induction false} KeepLinesAppend(a: seq<string>, b: seq<string>)
    ensures KeepLines(a + b) == KeepLines(a) + KeepLines(b)
    decreases |b|
  {
    if b == [] {
      assert a + b == a;
    } else {
      var l := b[..|b| - 1];
      assert (a + b)[..|a + b| - 1] == a + l;
      KeepLinesAppend(a, l);
    }
  }

  /** A single line is kept exactly when it qualifies. */
  lemma KeepLinesOne(line: string)
    ensures KeepLines([line]) == (if KeepLine(line) then [line] else [])
  {
    assert [line][..0] == [];
  }

  /** Every kept line is one of the input lines, and every qualifying input line is kept. */
  lemma {:induction false} KeepLinesMembers(ls: seq<string>)
    ensures forall x :: x in KeepLines(ls) <==> x in ls && KeepLine(x)
    decreases |ls|
  {
    if ls != [] {
      var init := ls[..|ls| - 1];
      KeepLinesMembers(init);
      assert ls == init + [ls[|ls| - 1]];
    }
  }

  /** Lines that all qualify pass through unchanged. */
  lemma {:induction false} KeepLinesAll(ls: seq<string>)
    requires forall k :: 0 <= k < |ls| ==> KeepLine(ls[k])
    ensures KeepLines(ls) == ls
    decreases |ls|
  {
    if ls != [] {
      var init := ls[..|ls| - 1];
      assert forall k :: 0 <= k < |init| ==> init[k] == ls[k];
      KeepLinesAll(init);
      assert KeepLine(ls[|ls| - 1]);
      InitLast(ls);
    }
  }

  /** Filtering a non-`.env` file twice is filtering it once. */
  lemma DropCommentsIdempotent(text: string)
    ensures DropComments(DropComments(text)) == DropComments(text)
  {
    var kept := KeepLines(Lines(text));
    if kept == [] {
      assert Lines([]) == [""];
      assert !KeepLine("");
      KeepLinesOne("");
    } else {
      LinesHaveNoNewline(text);
      KeepLinesMembers(Lines(text));
      forall k | 0 <= k < |kept|
        ensures '\n' !in kept[k] && KeepLine(kept[k])
      {
        assert kept[k] in kept;
        assert kept[k] in Lines(text);
      }
      LinesUnlines(kept);
      KeepLinesAll(kept);
    }
  }

  /** The filtered text has no blank line and no comment line. */
  lemma DropCommentsClean(text: string)
    ensures DropComments(text) == "" || forall k :: 0 <= k < |Lines(DropComments(text))| ==> KeepLine(Lines(DropComments(text))[k])
  {
    var kept := KeepLines(Lines(text));
    if kept != [] {
      LinesHaveNoNewline(text);
      KeepLinesMembers(Lines(text));
      forall k | 0 <= k < |kept|
        ensures '\n' !in kept[k] && KeepLine(kept[k])
      {
        assert kept[k] in kept;
        assert kept[k] in Lines(text);
      }
      LinesUnlines(kept);
    }
  }
}
