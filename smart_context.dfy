/**
 * File selection for the model's context (my_engineer/context_management/smart_context_builder.py):
 * the always-include patterns, the files they match, the sorted merge with the files the model
 * picked, the matching of the model's comma-separated reply, the per-file declarations and
 * the yes/no decision that fixes the files the context is built from.
 *
 * The model's reply, the user's answers, `fnmatch`, `ast.parse` and the token counter are
 * parameters; the disk is a map from path to content.
 */
module SmartContext {
  import opened Wrappers
  import opened Text
  import ConcatConfig
  import Concatenator

  type Files = map<string, string>

  // ---------------------------------------------------------------------------
  // _load_always_include_patterns
  // ---------------------------------------------------------------------------

  /** A line of the patterns file that is kept: not blank and not a comment once stripped. */
  predicate IsPattern(line: string) {
    Strip(line) != "" && !StartsWith(Strip(line), "#")
  }

  /** The stripped pattern lines, in file order. */
  function PatternsOf(ls: seq<string>): seq<string> {
    if ls == [] then []
    else
      var last := ls[|ls| - 1];
      PatternsOf(ls[..|ls| - 1]) + (if IsPattern(last) then [Strip(last)] else [])
  }

  /**
   * `_load_always_include_patterns`: `content` is the patterns file, `None` when it is missing
   * or cannot be read (both are caught and give no patterns).
   */
  method LoadAlwaysIncludePatterns(content: Option<string>) returns (patterns: seq<string>)
    ensures patterns == if content.None? then [] else PatternsOf(Lines(content.value))
  {
    patterns := [];
    if content.Some? {
      var ls := Lines(content.value);
      for i := 0 to |ls|
        invariant patterns == PatternsOf(ls[..i])
      {
        PatternsStep(ls, i);
        var line := Strip(ls[i]);
        if line != "" && !StartsWith(line, "#") {
          patterns := patterns + [line];
        }
      }
      assert ls[..|ls|] == ls;
    }
  }

  lemma PatternsStep(ls: seq<string>, i: nat)
    requires i < |ls|
    ensures PatternsOf(ls[..i + 1]) == PatternsOf(ls[..i]) + (if IsPattern(ls[i]) then [Strip(ls[i])] else [])
  {
    assert ls[..i + 1][..i] == ls[..i];
  }

  /** A pattern is a stripped line of the file that is neither blank nor a comment, and every such line is a pattern. */
  lemma {:induction false} PatternsMembers(ls: seq<string>)
    ensures forall x :: x in PatternsOf(ls) <==> exists l :: l in ls && IsPattern(l) && Strip(l) == x
    decreases |ls|
  {
    if ls != [] {
      var init := ls[..|ls| - 1];
      PatternsMembers(init);
      assert ls == init + [ls[|ls| - 1]];
    }
  }

  /** Patterns are stripped, non-empty and never start with '#'. */
  lemma {:induction false} PatternsClean(ls: seq<string>)
    ensures forall k :: 0 <= k < |PatternsOf(ls)| ==>
              var p := PatternsOf(ls)[k]; p != "" && !StartsWith(p, "#") && Strip(p) == p
    decreases |ls|
  {
    if ls != [] {
      PatternsClean(ls[..|ls| - 1]);
      StripIdempotent(ls[|ls| - 1]);
    }
  }

  // ---------------------------------------------------------------------------
  // _filter_always_include_files
  // ---------------------------------------------------------------------------

  /** The files one pattern matches, in file order. */
  function MatchesOf(pattern: string, files: seq<string>, fnmatch: (string, string) -> bool): seq<string> {
    if files == [] then []
    else
      var last := files[|files| - 1];
      MatchesOf(pattern, files[..|files| - 1], fnmatch) + (if fnmatch(last, pattern) then [last] else [])
  }

  /** The matches of every pattern, pattern by pattern (duplicates kept). */
  function AllMatches(patterns: seq<string>, files: seq<string>, fnmatch: (string, string) -> bool): seq<string> {
    if patterns == [] then []
    else AllMatches(patterns[..|patterns| - 1], files, fnmatch) + MatchesOf(patterns[|patterns| - 1], files, fnmatch)
  }

  predicate Distinct(xs: seq<string>) {
    forall i, j :: 0 <= i < j < |xs| ==> xs[i] != xs[j]
  }

  /**
   * `list(set(xs))`. Python leaves the order of the result unspecified; this model keeps
   * first occurrences, and nothing below depends on the order.
   */
  function Dedup(xs: seq<string>): (r: seq<string>)
    ensures Distinct(r) && forall x :: x in r <==> x in xs
  {
    if xs == [] then []
    else
      var init := Dedup(xs[..|xs| - 1]);
      var last := xs[|xs| - 1];
      assert xs == xs[..|xs| - 1] + [last];
      init + (if last in init then [] else [last])
  }

  /** `_filter_always_include_files`: every pattern against every file, then duplicates dropped. */
  method FilterAlwaysIncludeFiles(patterns: seq<string>, files: seq<string>, fnmatch: (string, string) -> bool)
    returns (r: seq<string>)
    ensures r == Dedup(AllMatches(patterns, files, fnmatch))
  {
    var acc := [];
    for i := 0 to |patterns|
      invariant acc == AllMatches(patterns[..i], files, fnmatch)
    {
      assert patterns[..i + 1][..i] == patterns[..i];
      for j := 0 to |files|
        invariant acc == AllMatches(patterns[..i], files, fnmatch) + MatchesOf(patterns[i], files[..j], fnmatch)
      {
        assert files[..j + 1][..j] == files[..j];
        if fnmatch(files[j], patterns[i]) {
          acc := acc + [files[j]];
        }
      }
      assert files[..|files|] == files;
    }
    assert patterns[..|patterns|] == patterns;
    r := Dedup(acc);
  }

  lemma {:induction false} MatchesOfMembers(pattern: string, files: seq<string>, fnmatch: (string, string) -> bool)
    ensures forall x :: x in MatchesOf(pattern, files, fnmatch) <==> x in files && fnmatch(x, pattern)
    decreases |files|
  {
    if files != [] {
      var init := files[..|files| - 1];
      MatchesOfMembers(pattern, init, fnmatch);
      assert files == init + [files[|files| - 1]];
    }
  }

  lemma {:induction false} AllMatchesMembers(patterns: seq<string>, files: seq<string>, fnmatch: (string, string) -> bool)
    ensures forall x :: x in AllMatches(patterns, files, fnmatch)
              <==> x in files && exists p :: p in patterns && fnmatch(x, p)
    decreases |patterns|
  {
    if patterns != [] {
      var init := patterns[..|patterns| - 1];
      var last := patterns[|patterns| - 1];
      AllMatchesMembers(init, files, fnmatch);
      MatchesOfMembers(last, files, fnmatch);
      assert patterns == init + [last];
      forall x
        ensures x in AllMatches(patterns, files, fnmatch) <==> x in files && exists p :: p in patterns && fnmatch(x, p)
      {
        if x in files && fnmatch(x, last) {
          assert last in patterns;
        }
        if x in files && exists p :: p in init && fnmatch(x, p) {
          var p :| p in init && fnmatch(x, p);
          assert p in patterns;
        }
        if x in files && exists p :: p in patterns && fnmatch(x, p) {
          var p :| p in patterns && fnmatch(x, p);
          assert p in init || p == last;
        }
      }
    }
  }

  /** The always-include files are the files that match at least one pattern, each once. */
  lemma AlwaysIncludeMembers(patterns: seq<string>, files: seq<string>, fnmatch: (string, string) -> bool)
    ensures Distinct(Dedup(AllMatches(patterns, files, fnmatch)))
    ensures forall x :: x in Dedup(AllMatches(patterns, files, fnmatch))
              <==> x in files && exists p :: p in patterns && fnmatch(x, p)
  {
    AllMatchesMembers(patterns, files, fnmatch);
  }

  // ---------------------------------------------------------------------------
  // _merge_file_lists: the sorted, de-duplicated union
  // ---------------------------------------------------------------------------

  /** Python's string order: code point by code point, a proper prefix first. */
  predicate Below(a: string, b: string) {
    if a == [] then b != []
    else if b == [] then false
    else if a[0] != b[0] then a[0] < b[0]
    else Below(a[1..], b[1..])
  }

  lemma {:induction false} BelowIrreflexive(a: string)
    ensures !Below(a, a)
    decreases |a|
  {
    if a != [] {
      BelowIrreflexive(a[1..]);
    }
  }

  lemma {:induction false} BelowTransitive(a: string, b: string, c: string)
    requires Below(a, b) && Below(b, c)
    ensures Below(a, c)
    decreases |a|
  {
    if a != [] && b != [] && c != [] && a[0] == b[0] == c[0] {
      BelowTransitive(a[1..], b[1..], c[1..]);
    }
  }

  lemma {:induction false} BelowTotal(a: string, b: string)
    requires a != b
    ensures Below(a, b) || Below(b, a)
    decreases |a|
  {
    if a != [] && b != [] && a[0] == b[0] {
      assert a == [a[0]] + a[1..] && b == [b[0]] + b[1..];
      BelowTotal(a[1..], b[1..]);
    }
  }

  lemma {:induction false} BelowAsymmetric(a: string, b: string)
    requires Below(a, b)
    ensures !Below(b, a)
    decreases |a|
  {
    if a != [] && b != [] && a[0] == b[0] {
      BelowAsymmetric(a[1..], b[1..]);
    }
  }

  predicate StrictlySorted(xs: seq<string>) {
    forall i, j :: 0 <= i < j < |xs| ==> Below(xs[i], xs[j])
  }

  /** One element put in its place in a strictly sorted list (nothing added when it is there already). */
  function Insert(x: string, xs: seq<string>): (r: seq<string>)
    requires StrictlySorted(xs)
    ensures StrictlySorted(r) && forall y :: y in r <==> y in xs || y == x
  {
    if xs == [] then [x]
    else if x == xs[0] then xs
    else if Below(x, xs[0]) then
      assert forall j :: 0 < j < |xs| ==> Below(x, xs[j]) by {
        forall j | 0 < j < |xs| {
          BelowTransitive(x, xs[0], xs[j]);
        }
      }
      [x] + xs
    else
      BelowTotal(x, xs[0]);
      var rest := Insert(x, xs[1..]);
      assert forall y :: y in rest ==> Below(xs[0], y) by {
        forall y | y in rest
          ensures Below(xs[0], y)
        {
          if y != x {
            var j :| 0 <= j < |xs[1..]| && xs[1..][j] == y;
            assert xs[j + 1] == y;
          }
        }
      }
      [xs[0]] + rest
  }

  /** `sorted(set(xs))`. */
  function SortUnique(xs: seq<string>): (r: seq<string>)
    ensures StrictlySorted(r) && forall y :: y in r <==> y in xs
  {
    if xs == [] then []
    else
      var init := xs[..|xs| - 1];
      assert xs == init + [xs[|xs| - 1]];
      Insert(xs[|xs| - 1], SortUnique(init))
  }

  /** `_merge_file_lists`. */
  function MergeFileLists(llmSelected: seq<string>, alwaysInclude: seq<string>): (r: seq<string>)
    ensures StrictlySorted(r) && Distinct(r)
    ensures forall f :: f in r <==> f in llmSelected || f in alwaysInclude
  {
    var r := SortUnique(llmSelected + alwaysInclude);
    assert Distinct(r) by {
      forall i, j | 0 <= i < j < |r|
        ensures r[i] != r[j]
      {
        BelowIrreflexive(r[i]);
      }
    }
    r
  }

  /** A strictly sorted list is determined by its elements. */
  lemma {:induction false} SortedDetermined(a: seq<string>, b: seq<string>)
    requires StrictlySorted(a) && StrictlySorted(b)
    requires forall x :: x in a <==> x in b
    ensures a == b
    decreases |a|
  {
    if a != [] {
      assert a[0] in a;
    }
    if b != [] {
      assert b[0] in b;
    }
    if a != [] && b != [] {
      if a[0] != b[0] {
        assert a[0] in a && b[0] in b;
        var i :| 0 <= i < |b| && b[i] == a[0];
        var j :| 0 <= j < |a| && a[j] == b[0];
        assert i > 0 && j > 0;
        BelowAsymmetric(b[0], a[0]);
        assert false;
      }
      forall x
        ensures x in a[1..] <==> x in b[1..]
      {
        if x in a[1..] {
          var j :| 0 <= j < |a[1..]| && a[1..][j] == x;
          assert Below(a[0], x) && a[j + 1] == x;
          BelowIrreflexive(x);
          assert x in b && x != b[0];
          assert b == [b[0]] + b[1..];
        }
        if x in b[1..] {
          var j :| 0 <= j < |b[1..]| && b[1..][j] == x;
          assert Below(b[0], x) && b[j + 1] == x;
          BelowIrreflexive(x);
          assert x in a && x != a[0];
          assert a == [a[0]] + a[1..];
        }
      }
      SortedDetermined(a[1..], b[1..]);
      assert a == [a[0]] + a[1..] && b == [b[0]] + b[1..];
    }
  }

  /** The merge does not depend on which list a file came from, nor on the order or repetitions within them. */
  lemma MergeSymmetric(llmSelected: seq<string>, alwaysInclude: seq<string>)
    ensures MergeFileLists(llmSelected, alwaysInclude) == MergeFileLists(alwaysInclude, llmSelected)
  {
    SortedDetermined(MergeFileLists(llmSelected, alwaysInclude), MergeFileLists(alwaysInclude, llmSelected));
  }

  // ---------------------------------------------------------------------------
  // Matching the model's reply in _select_relevant_files_with_llm
  // ---------------------------------------------------------------------------

  /** `[file.strip() for file in response.split(',')]`. */
  function ReplyTokens(reply: string): (r: seq<string>)
    ensures var parts := SplitOn(reply, ",");
            |r| == |parts| && forall k :: 0 <= k < |r| ==> r[k] == Strip(parts[k])
  {
    var parts := SplitOn(reply, ",");
    seq(|parts|, k requires 0 <= k < |parts| => Strip(parts[k]))
  }

  /** Some token of the reply is a substring of the path. */
  predicate Mentioned(f: string, tokens: seq<string>) {
    exists k :: 0 <= k < |tokens| && Contains(f, tokens[k])
  }

  /** The tracked files, in order, that the reply mentions and that exist on disk. */
  function MentionedFiles(tracked: seq<string>, tokens: seq<string>, disk: Files): (r: seq<string>)
    ensures |r| <= |tracked|
  {
    if tracked == [] then []
    else
      var f := tracked[|tracked| - 1];
      MentionedFiles(tracked[..|tracked| - 1], tokens, disk) + (if Mentioned(f, tokens) && f in disk then [f] else [])
  }

  /**
   * The files the model's reply selects: a tracked file is selected exactly when it exists and
   * some stripped token of the reply is a substring of its path; the selection has no duplicates.
   */
  function MatchReply(reply: string, tracked: seq<string>, disk: Files): (r: seq<string>)
    ensures Distinct(r)
    ensures forall f :: f in r <==> f in tracked && f in disk && Mentioned(f, ReplyTokens(reply))
  {
    MentionedMembers(tracked, ReplyTokens(reply), disk);
    Dedup(MentionedFiles(tracked, ReplyTokens(reply), disk))
  }

  lemma {:induction false} MentionedMembers(tracked: seq<string>, tokens: seq<string>, disk: Files)
    ensures forall f :: f in MentionedFiles(tracked, tokens, disk) <==> f in tracked && Mentioned(f, tokens) && f in disk
    decreases |tracked|
  {
    if tracked != [] {
      var init := tracked[..|tracked| - 1];
      MentionedMembers(init, tokens, disk);
      assert tracked == init + [tracked[|tracked| - 1]];
    }
  }

  /** A string that ends with the separator splits into at least two pieces, the last one empty. */
  lemma {:induction false} SplitEndsEmpty(s: string, sep: char)
    requires |s| > 0 && s[|s| - 1] == sep
    ensures var r := SplitOn(s, [sep]); |r| >= 2 && r[|r| - 1] == ""
    decreases |s|
  {
    var r := SplitOn(s, [sep]);
    var t := SplitOn(s[1..], [sep]);
    if [sep] <= s {
      assert s[|[sep]|..] == s[1..];
      assert r == [""] + t;
      if |s| > 1 {
        SplitEndsEmpty(s[1..], sep);
      } else {
        assert s[1..] == [];
        assert t == [""];
      }
    } else {
      assert s != [];
      assert r == [[s[0]] + t[0]] + t[1..];
      SplitEndsEmpty(s[1..], sep);
    }
  }

  /**
   * An empty token is a substring of every path: a reply that is empty or ends with a comma
   * selects every tracked file that exists.
   */
  lemma EmptyTokenSelectsAll(reply: string, tracked: seq<string>, disk: Files)
    requires reply == "" || EndsWith(reply, ",")
    ensures forall f :: f in MatchReply(reply, tracked, disk) <==> f in tracked && f in disk
  {
    var tokens := ReplyTokens(reply);
    var parts := SplitOn(reply, ",");
    var k: nat;
    if reply == "" {
      k := 0;
    } else {
      SplitEndsEmpty(reply, ',');
      k := |parts| - 1;
    }
    assert parts[k] == "" && tokens[k] == Strip("");
    forall f {
      ContainsAt(f, tokens[k], 0);
    }
  }

  // ---------------------------------------------------------------------------
  // _extract_file_declarations over a top-level syntax tree
  // ---------------------------------------------------------------------------

  /** The top-level statements `ast.parse` yields, reduced to what the extraction looks at. */
  datatype Node = FunctionDef(name: string) | AsyncFunctionDef(name: string) | ClassDef(name: string, body: seq<Node>) | OtherNode

  /** (type, name). */
  type Declaration = (string, string)

  /** A class's direct methods that are plain `def`s, in order. */
  function MethodDecls(body: seq<Node>): seq<Declaration> {
    if body == [] then []
    else
      var n := body[|body| - 1];
      MethodDecls(body[..|body| - 1]) + (if n.FunctionDef? then [("FunctionDef", n.name)] else [])
  }

  /** `visit_node`. */
  function NodeDecls(n: Node): seq<Declaration> {
    match n
    case FunctionDef(name) => [("FunctionDef", name)]
    case AsyncFunctionDef(name) => [("AsyncFunctionDef", name)]
    case ClassDef(name, body) => [("ClassDef", name)] + MethodDecls(body)
    case OtherNode => []
  }

  function TreeDecls(nodes: seq<Node>): seq<Declaration> {
    if nodes == [] then []
    else TreeDecls(nodes[..|nodes| - 1]) + NodeDecls(nodes[|nodes| - 1])
  }

  predicate IsDeclKind(t: string) {
    t == "FunctionDef" || t == "AsyncFunctionDef" || t == "ClassDef"
  }

  /**
   * `_extract_file_declarations`: the sentinel, then for a ".py" file that can be read and
   * parsed (`parse` returns `None` on a syntax error) the declarations of its top-level nodes.
   */
  function ExtractFileDeclarations(filePath: string, root: string, disk: Files, parse: string -> Option<seq<Node>>)
    : (r: seq<Declaration>)
    ensures |r| >= 1 && r[0] == ("FILE", filePath)
    ensures forall k :: 1 <= k < |r| ==> IsDeclKind(r[k].0) && r[k].0 != "FILE"
  {
    var full := PathJoin(root, filePath);
    if EndsWith(filePath, ".py") && full in disk && parse(disk[full]).Some? then
      TreeDeclsKinds(parse(disk[full]).value);
      [("FILE", filePath)] + TreeDecls(parse(disk[full]).value)
    else
      [("FILE", filePath)]
  }

  lemma {:induction false} MethodDeclsKinds(body: seq<Node>)
    ensures forall k :: 0 <= k < |MethodDecls(body)| ==> MethodDecls(body)[k].0 == "FunctionDef"
    decreases |body|
  {
    if body != [] {
      MethodDeclsKinds(body[..|body| - 1]);
    }
  }

  lemma {:induction false} TreeDeclsKinds(nodes: seq<Node>)
    ensures forall k :: 0 <= k < |TreeDecls(nodes)| ==> IsDeclKind(TreeDecls(nodes)[k].0)
    decreases |nodes|
  {
    if nodes != [] {
      TreeDeclsKinds(nodes[..|nodes| - 1]);
      var n := nodes[|nodes| - 1];
      if n.ClassDef? {
        MethodDeclsKinds(n.body);
      }
    }
  }

  /** A file that is not ".py", cannot be read or does not parse yields the sentinel alone. */
  lemma SentinelOnly(filePath: string, root: string, disk: Files, parse: string -> Option<seq<Node>>)
    requires var full := PathJoin(root, filePath);
             !EndsWith(filePath, ".py") || full !in disk || parse(disk[full]).None?
    ensures ExtractFileDeclarations(filePath, root, disk, parse) == [("FILE", filePath)]
  {
  }

  /** A class lists exactly its direct plain methods: nested async methods and nested classes are skipped. */
  lemma {:induction false} MethodDeclsMembers(body: seq<Node>)
    ensures forall d :: d in MethodDecls(body) <==> exists k :: 0 <= k < |body| && body[k].FunctionDef? && d == ("FunctionDef", body[k].name)
    decreases |body|
  {
    if body != [] {
      var init := body[..|body| - 1];
      MethodDeclsMembers(init);
      forall d | d in MethodDecls(body)
        ensures exists k :: 0 <= k < |body| && body[k].FunctionDef? && d == ("FunctionDef", body[k].name)
      {
        if d in MethodDecls(init) {
          var k :| 0 <= k < |init| && init[k].FunctionDef? && d == ("FunctionDef", init[k].name);
          assert body[k] == init[k];
        }
      }
      forall k | 0 <= k < |body| && body[k].FunctionDef?
        ensures ("FunctionDef", body[k].name) in MethodDecls(body)
      {
        if k < |init| {
          assert init[k] == body[k];
        }
      }
    }
  }

  /** The kind of declaration a top-level node contributes first. */
  function KindOf(n: Node): string
    requires !n.OtherNode?
  {
    match n
    case FunctionDef(_) => "FunctionDef"
    case AsyncFunctionDef(_) => "AsyncFunctionDef"
    case ClassDef(_, _) => "ClassDef"
  }

  /** Every top-level function, async function and class is listed under its own kind. */
  lemma {:induction false} TopLevelListed(nodes: seq<Node>)
    ensures forall k :: 0 <= k < |nodes| && !nodes[k].OtherNode? ==> (KindOf(nodes[k]), nodes[k].name) in TreeDecls(nodes)
    decreases |nodes|
  {
    if nodes != [] {
      var init := nodes[..|nodes| - 1];
      TopLevelListed(init);
      forall k | 0 <= k < |nodes| && !nodes[k].OtherNode?
        ensures (KindOf(nodes[k]), nodes[k].name) in TreeDecls(nodes)
      {
        if k < |init| {
          assert init[k] == nodes[k];
        } else {
          assert NodeDecls(nodes[k])[0] == (KindOf(nodes[k]), nodes[k].name);
        }
      }
    }
  }

  // ---------------------------------------------------------------------------
  // _format_declarations_for_llm
  // ---------------------------------------------------------------------------

  /** "type: name" for each declaration that is not a "FILE" entry. */
  function InfoLines(decls: seq<Declaration>): seq<string> {
    if decls == [] then []
    else
      var d := decls[|decls| - 1];
      InfoLines(decls[..|decls| - 1]) + (if d.0 != "FILE" then [d.0 + ": " + d.1] else [])
  }

  /** One file's paragraph: "File: path", then the entries after the first. */
  function FileInfo(file: string, decls: seq<Declaration>): (r: string)
    ensures StartsWith(r, "File: " + file)
  {
    Unlines(["File: " + file] + InfoLines(if |decls| > 0 then decls[1..] else []))
  }

  /** The paragraphs of the files in table order, separated by a blank line. */
  function FormatDeclarations(keys: seq<string>, table: map<string, seq<Declaration>>): (r: string)
    requires forall k :: k in keys ==> k in table
    ensures keys == [] ==> r == ""
    ensures |keys| == 1 ==> r == FileInfo(keys[0], table[keys[0]])
  {
    Join(seq(|keys|, i requires 0 <= i < |keys| => FileInfo(keys[i], table[keys[i]])), "\n\n")
  }

  /** One more file adds a blank line and its paragraph after the paragraphs before it. */
  lemma FormatDeclarationsSnoc(keys: seq<string>, k: string, table: map<string, seq<Declaration>>)
    requires |keys| >= 1 && k in table && forall x :: x in keys ==> x in table
    ensures FormatDeclarations(keys + [k], table) == FormatDeclarations(keys, table) + "\n\n" + FileInfo(k, table[k])
  {
    var ks := keys + [k];
    var ps := seq(|keys|, i requires 0 <= i < |keys| => FileInfo(keys[i], table[keys[i]]));
    var qs := seq(|ks|, i requires 0 <= i < |ks| => FileInfo(ks[i], table[ks[i]]));
    assert qs == ps + [FileInfo(k, table[k])];
    JoinSnoc(ps, FileInfo(k, table[k]), "\n\n");
  }

  lemma {:induction false} InfoLinesAll(decls: seq<Declaration>)
    requires forall k :: 0 <= k < |decls| ==> decls[k].0 != "FILE"
    ensures InfoLines(decls) == seq(|decls|, k requires 0 <= k < |decls| => decls[k].0 + ": " + decls[k].1)
    decreases |decls|
  {
    if decls != [] {
      var init := decls[..|decls| - 1];
      var d := decls[|decls| - 1];
      InfoLinesAll(init);
      var rest := seq(|init|, k requires 0 <= k < |init| => init[k].0 + ": " + init[k].1);
      assert InfoLines(decls) == rest + [d.0 + ": " + d.1];
      assert forall k :: 0 <= k < |init| ==> rest[k] == decls[k].0 + ": " + decls[k].1;
    }
  }

  /**
   * On extracted declarations the "FILE" filter drops nothing: the paragraph has one line per
   * declaration, the sentinel rendered as "File: path".
   */
  lemma FileInfoOfExtracted(filePath: string, root: string, disk: Files, parse: string -> Option<seq<Node>>)
    ensures var decls := ExtractFileDeclarations(filePath, root, disk, parse);
            FileInfo(filePath, decls)
              == Unlines(["File: " + filePath] + seq(|decls| - 1, k requires 0 <= k < |decls| - 1 => decls[k + 1].0 + ": " + decls[k + 1].1))
  {
    var decls := ExtractFileDeclarations(filePath, root, disk, parse);
    var tail := decls[1..];
    InfoLinesAll(tail);
    assert InfoLines(tail) == seq(|decls| - 1, k requires 0 <= k < |decls| - 1 => decls[k + 1].0 + ": " + decls[k + 1].1);
  }

  /** A file with the sentinel only is the single line "File: path"; an empty table formats to "". */
  lemma FormatSmallCases(file: string)
    ensures FileInfo(file, [("FILE", file)]) == "File: " + file
    ensures FormatDeclarations([], map[]) == ""
  {
    assert [("FILE", file)][1..] == [];
  }

  // ---------------------------------------------------------------------------
  // _count_tokens_for_files
  // ---------------------------------------------------------------------------

  /** The token total of the files, or the first one that cannot be opened. */
  function TokenSum(fileList: seq<string>, disk: Files, count: string -> nat): (r: Result<nat, string>)
    ensures r.Failure? ==> r.error in fileList && r.error !in disk
  {
    if fileList == [] then Success(0)
    else
      var last := fileList[|fileList| - 1];
      match TokenSum(fileList[..|fileList| - 1], disk, count)
      case Failure(p) => Failure(p)
      case Success(n) => if last in disk then Success(n + count(disk[last])) else Failure(last)
  }

  lemma {:induction false} TokenSumKeepsFailure(fileList: seq<string>, i: nat, disk: Files, count: string -> nat)
    requires i <= |fileList| && TokenSum(fileList[..i], disk, count).Failure?
    ensures TokenSum(fileList, disk, count) == TokenSum(fileList[..i], disk, count)
    decreases |fileList| - i
  {
    if i < |fileList| {
      var init := fileList[..|fileList| - 1];
      assert init[..i] == fileList[..i];
      TokenSumKeepsFailure(init, i, disk, count);
    } else {
      assert fileList[..i] == fileList;
    }
  }

  /** `_count_tokens_for_files`: the counts added up file by file; an unopenable file raises. */
  method CountTokensForFiles(fileList: seq<string>, disk: Files, count: string -> nat) returns (r: Result<nat, string>)
    ensures r == TokenSum(fileList, disk, count)
  {
    var total := 0;
    for i := 0 to |fileList|
      invariant TokenSum(fileList[..i], disk, count) == Success(total)
    {
      assert fileList[..i + 1][..i] == fileList[..i];
      if fileList[i] !in disk {
        TokenSumKeepsFailure(fileList, i + 1, disk, count);
        return Failure(fileList[i]);
      }
      total := total + count(disk[fileList[i]]);
    }
    assert fileList[..|fileList|] == fileList;
    r := Success(total);
  }

  /** A failing count names the first listed file that cannot be opened. */
  lemma {:induction false} TokenSumFirstMissing(fileList: seq<string>, disk: Files, count: string -> nat)
    requires TokenSum(fileList, disk, count).Failure?
    ensures exists i :: 0 <= i < |fileList| && fileList[i] == TokenSum(fileList, disk, count).error
                        && fileList[i] !in disk && forall j :: 0 <= j < i ==> fileList[j] in disk
    decreases |fileList|
  {
    var init := fileList[..|fileList| - 1];
    if TokenSum(init, disk, count).Failure? {
      TokenSumFirstMissing(init, disk, count);
      var i :| 0 <= i < |init| && init[i] == TokenSum(init, disk, count).error
               && init[i] !in disk && forall j :: 0 <= j < i ==> init[j] in disk;
      assert fileList[i] == init[i];
    } else {
      TokenSumSucceedsIff(init, disk, count);
      assert forall j :: 0 <= j < |init| ==> fileList[j] == init[j];
    }
  }

  /** The count succeeds exactly when every file can be opened. */
  lemma {:induction false} TokenSumSucceedsIff(fileList: seq<string>, disk: Files, count: string -> nat)
    ensures TokenSum(fileList, disk, count).Success? <==> forall k :: 0 <= k < |fileList| ==> fileList[k] in disk
    decreases |fileList|
  {
    if fileList != [] {
      var init := fileList[..|fileList| - 1];
      TokenSumSucceedsIff(init, disk, count);
      assert forall k :: 0 <= k < |init| ==> init[k] == fileList[k];
    }
  }

  /** The total of two lists is the sum of their totals. */
  lemma {:induction false} TokenSumAppend(a: seq<string>, b: seq<string>, disk: Files, count: string -> nat)
    requires TokenSum(a, disk, count).Success? && TokenSum(b, disk, count).Success?
    ensures TokenSum(a + b, disk, count) == Success(TokenSum(a, disk, count).value + TokenSum(b, disk, count).value)
    decreases |b|
  {
    if b == [] {
      assert a + b == a;
    } else {
      var init := b[..|b| - 1];
      assert (a + b)[..|a + b| - 1] == a + init;
      TokenSumAppend(a, init, disk, count);
    }
  }

  // ---------------------------------------------------------------------------
  // _extract_declarations: the per-file table, in insertion order
  // ---------------------------------------------------------------------------

  /** `table[k] = v` on an insertion-ordered dict: a new key goes last, an existing one keeps its place. */
  function Put(keys: seq<string>, table: map<string, seq<Declaration>>, k: string, v: seq<Declaration>)
    : (seq<string>, map<string, seq<Declaration>>)
  {
    (if k in table then keys else keys + [k], table[k := v])
  }

  /** The table after the declarations of every tracked file, under its path relative to the root, are stored. */
  function StoreAll(keys: seq<string>, table: map<string, seq<Declaration>>, root: string, tracked: seq<string>,
                    disk: Files, parse: string -> Option<seq<Node>>): (r: (seq<string>, map<string, seq<Declaration>>))
    ensures keys <= r.0 && table.Keys <= r.1.Keys
  {
    if tracked == [] then (keys, table)
    else
      var prev := StoreAll(keys, table, root, tracked[..|tracked| - 1], disk, parse);
      var rel := Concatenator.RelPath(tracked[|tracked| - 1], root);
      Put(prev.0, prev.1, rel, ExtractFileDeclarations(rel, root, disk, parse))
  }

  /** The dict's keys listed once each, in the order they were first set. */
  predicate InSync(keys: seq<string>, table: map<string, seq<Declaration>>) {
    Distinct(keys) && table.Keys == set k | k in keys
  }

  /** Storing keeps the key list in sync with the table and keeps the keys already there in front. */
  lemma {:induction false} StoreAllInSync(keys: seq<string>, table: map<string, seq<Declaration>>, root: string,
                                          tracked: seq<string>, disk: Files, parse: string -> Option<seq<Node>>)
    requires InSync(keys, table)
    ensures var r := StoreAll(keys, table, root, tracked, disk, parse);
            InSync(r.0, r.1) && keys <= r.0
    decreases |tracked|
  {
    if tracked != [] {
      StoreAllInSync(keys, table, root, tracked[..|tracked| - 1], disk, parse);
    }
  }

  /**
   * After storing, the keys are the old ones and the relative paths of the tracked files,
   * and each tracked file's entry is its own extraction.
   */
  lemma {:induction false} StoreAllEntries(keys: seq<string>, table: map<string, seq<Declaration>>, root: string,
                                           tracked: seq<string>, disk: Files, parse: string -> Option<seq<Node>>)
    ensures var r := StoreAll(keys, table, root, tracked, disk, parse);
            && (forall k :: k in r.1 <==> k in table || exists f :: f in tracked && Concatenator.RelPath(f, root) == k)
            && (forall f :: f in tracked ==>
                  var rel := Concatenator.RelPath(f, root); rel in r.1 && r.1[rel] == ExtractFileDeclarations(rel, root, disk, parse))
    decreases |tracked|
  {
    if tracked != [] {
      var init := tracked[..|tracked| - 1];
      StoreAllEntries(keys, table, root, init, disk, parse);
      assert tracked == init + [tracked[|tracked| - 1]];
    }
  }

  // ---------------------------------------------------------------------------
  // The decision in build_smart_context
  // ---------------------------------------------------------------------------

  /** The files the context is built from, or `relevant_files` left unbound. */
  datatype Choice = UseFiles(files: seq<string>) | Unbound

  /**
   * `approveAll` answers "include all files?" (asked only when the model selected nothing),
   * `approveSelected` answers "include only these selected files?" (asked only otherwise).
   */
  function Decide(llmSelected: seq<string>, merged: seq<string>, tracked: seq<string>,
                  approveAll: bool, approveSelected: bool): (c: Choice)
    ensures c.Unbound? <==> llmSelected == [] && !approveAll
    ensures c.UseFiles? ==> c.files == merged || c.files == tracked
    ensures c == UseFiles(merged) && merged != tracked ==> llmSelected != [] && approveSelected
  {
    var useAll := llmSelected == [] && approveAll;
    if useAll then UseFiles(tracked)
    else if llmSelected != [] then (if approveSelected then UseFiles(merged) else UseFiles(tracked))
    else Unbound
  }

  /**
   * Each of the four answers, stated outright: a non-empty selection gives the merged list on
   * a yes and every tracked file on a no; no selection gives every tracked file on a yes and
   * leaves `relevant_files` unbound on a no. The merged list holds every file the model picked.
   */
  lemma DecideSpec(llmSelected: seq<string>, alwaysInclude: seq<string>, tracked: seq<string>,
                   approveAll: bool, approveSelected: bool)
    ensures var merged := MergeFileLists(llmSelected, alwaysInclude);
            var c := Decide(llmSelected, merged, tracked, approveAll, approveSelected);
            && (llmSelected != [] && approveSelected ==> c == UseFiles(merged))
            && (llmSelected != [] && !approveSelected ==> c == UseFiles(tracked))
            && (llmSelected == [] && approveAll ==> c == UseFiles(tracked))
            && (llmSelected == [] && !approveAll ==> c == Unbound)
            && (forall f :: f in llmSelected ==> f in merged)
  {
  }

  /**
   * What `build_smart_context` settles before building the context: the files chosen, or the
   * error raised first. When the model selected files, the merged list is counted (for the
   * question about it) before the chosen list is; when it selected none and the user says yes,
   * only the tracked files are counted.
   */
  function ChooseFiles(llmSelected: seq<string>, merged: seq<string>, tracked: seq<string>,
                       approveAll: bool, approveSelected: bool, disk: Files, count: string -> nat)
    : Result<seq<string>, BuildError>
  {
    match Decide(llmSelected, merged, tracked, approveAll, approveSelected)
    case Unbound => Failure(RelevantFilesUnbound)
    case UseFiles(files) =>
      var shown := if llmSelected != [] then TokenSum(merged, disk, count) else Success(0);
      if shown.Failure? then Failure(Unreadable(shown.error))
      else if TokenSum(files, disk, count).Failure? then Failure(Unreadable(TokenSum(files, disk, count).error))
      else Success(files)
  }

  /**
   * The choice succeeds exactly when the decision names files and every counted file can be
   * opened; an `Unreadable` error names a counted file missing from the disk.
   */
  lemma ChooseFilesSpec(llmSelected: seq<string>, merged: seq<string>, tracked: seq<string>,
                        approveAll: bool, approveSelected: bool, disk: Files, count: string -> nat)
    ensures var r := ChooseFiles(llmSelected, merged, tracked, approveAll, approveSelected, disk, count);
            var c := Decide(llmSelected, merged, tracked, approveAll, approveSelected);
            && (r.Success? <==> c.UseFiles?
                                && (forall k :: 0 <= k < |c.files| ==> c.files[k] in disk)
                                && (llmSelected != [] ==> forall k :: 0 <= k < |merged| ==> merged[k] in disk))
            && (r.Success? ==> r.value == c.files)
            && (r == Failure(RelevantFilesUnbound) <==> c.Unbound?)
            && (r.Failure? && r.error.Unreadable? ==>
                  r.error.path !in disk && (r.error.path in merged || r.error.path in tracked))
  {
    var c := Decide(llmSelected, merged, tracked, approveAll, approveSelected);
    if c.UseFiles? {
      TokenSumSucceedsIff(merged, disk, count);
      TokenSumSucceedsIff(c.files, disk, count);
    }
  }

  /** Why building the context raises. */
  datatype BuildError = Unreadable(path: string) | RelevantFilesUnbound

  class SmartContextBuilder {
    var rootDir: string
    var alwaysIncludePatterns: seq<string>
    var declKeys: seq<string>
    var declarations: map<string, seq<Declaration>>
    var concatenator: Concatenator.CodebaseConcatenator

    ghost predicate Valid()
      reads this, concatenator
    {
      InSync(declKeys, declarations) && concatenator.Valid()
    }

    /**
     * `__init__`: an empty declaration table, a concatenator over the default configuration
     * with `root_dir` set, and the always-include patterns read from the patterns file
     * (`None` when it is missing).
     */
    constructor(root: string, patternsFile: Option<string>)
      ensures Valid() && fresh(concatenator)
      ensures rootDir == root && declKeys == [] && declarations == map[]
      ensures alwaysIncludePatterns == if patternsFile.None? then [] else PatternsOf(Lines(patternsFile.value))
      ensures concatenator.config == ConcatConfig.DefaultConfig["root_dir" := ConcatConfig.PathValue(root)]
      ensures concatenator.rootDir == root && concatenator.outputStream == [] && concatenator.processedFiles == []
    {
      var config := ConcatConfig.GetConfig()["root_dir" := ConcatConfig.PathValue(root)];
      var c := new Concatenator.CodebaseConcatenator(config, root);
      assert ConcatConfig.DefaultConfig + config == config;
      var patterns := LoadAlwaysIncludePatterns(patternsFile);
      rootDir := root;
      declKeys := [];
      declarations := map[];
      concatenator := c;
      alwaysIncludePatterns := patterns;
    }

    /** `_extract_declarations`: each tracked file's declarations stored under its relative path. */
    method ExtractDeclarations(tracked: seq<string>, disk: Files, parse: string -> Option<seq<Node>>)
      requires Valid()
      modifies this
      ensures Valid()
      ensures rootDir == old(rootDir) && alwaysIncludePatterns == old(alwaysIncludePatterns) && concatenator == old(concatenator)
      ensures (declKeys, declarations) == StoreAll(old(declKeys), old(declarations), rootDir, tracked, disk, parse)
    {
      ghost var keys0, table0 := declKeys, declarations;
      for i := 0 to |tracked|
        invariant rootDir == old(rootDir) && alwaysIncludePatterns == old(alwaysIncludePatterns) && concatenator == old(concatenator)
        invariant (declKeys, declarations) == StoreAll(keys0, table0, rootDir, tracked[..i], disk, parse)
        invariant InSync(declKeys, declarations)
      {
        assert tracked[..i + 1][..i] == tracked[..i];
        var rel := Concatenator.RelPath(tracked[i], rootDir);
        var decls := ExtractFileDeclarations(rel, rootDir, disk, parse);
        if rel !in declarations {
          declKeys := declKeys + [rel];
        }
        declarations := declarations[rel := decls];
      }
      assert tracked[..|tracked|] == tracked;
    }

    /** `_format_declarations_for_llm` on the table. */
    function FormattedDeclarations(): (r: string)
      reads this
      requires InSync(declKeys, declarations)
      ensures declKeys == [] ==> r == ""
      ensures |declKeys| == 1 ==> r == FileInfo(declKeys[0], declarations[declKeys[0]])
      ensures |declKeys| >= 2 ==>
                var n := |declKeys|;
                r == FormatDeclarations(declKeys[..n - 1], declarations) + "\n\n"
                     + FileInfo(declKeys[n - 1], declarations[declKeys[n - 1]])
    {
      var n := |declKeys|;
      if n >= 2 then
        var init := declKeys[..n - 1];
        assert init + [declKeys[n - 1]] == declKeys;
        assert forall x :: x in init ==> x in declKeys;
        FormatDeclarationsSnoc(init, declKeys[n - 1], declarations);
        FormatDeclarations(declKeys, declarations)
      else
        FormatDeclarations(declKeys, declarations)
    }

    /** `_build_context`: "" for no files, otherwise the concatenator's dump of them. */
    method BuildContext(relevant: seq<string>, disk: Files) returns (r: Result<string, string>)
      requires Valid()
      modifies concatenator
      ensures Valid()
      ensures relevant == [] ==> r == Success("") && unchanged(concatenator)
      ensures concatenator.config == old(concatenator.config) && concatenator.rootDir == old(concatenator.rootDir)
      ensures relevant != [] ==>
                var sel := Concatenator.Selected(concatenator.config, concatenator.rootDir, relevant);
                var body := old(concatenator.outputStream) + Concatenator.Header + Concatenator.Blocks(disk, concatenator.rootDir, sel);
                && concatenator.processedFiles == old(concatenator.processedFiles) + sel
                && match Concatenator.ManifestLines(disk, concatenator.rootDir, concatenator.processedFiles)
                   case Success(m) =>
                     concatenator.outputStream == body + Concatenator.ManifestHeading + m && r == Success(concatenator.outputStream)
                   case Failure(p) => concatenator.outputStream == body && r == Failure(p)
    {
      if relevant == [] {
        return Success("");
      }
      r := concatenator.ConcatFiles(relevant, disk);
    }

    /**
     * `build_smart_context` for the tracked files `tracked`: the declarations are stored, the
     * model's `reply` is matched, the always-include files are merged in, and the user's
     * answers decide the files; the token counts raise on a file that cannot be opened
     * (the count of the merged list comes before the question about it).
     */
    method BuildSmartContext(tracked: seq<string>, disk: Files, parse: string -> Option<seq<Node>>, reply: string,
                             fnmatch: (string, string) -> bool, count: string -> nat,
                             approveAll: bool, approveSelected: bool)
      returns (r: Result<(string, seq<string>), BuildError>)
      requires Valid()
      modifies this, concatenator
      ensures Valid()
      ensures rootDir == old(rootDir) && alwaysIncludePatterns == old(alwaysIncludePatterns)
      ensures (declKeys, declarations) == StoreAll(old(declKeys), old(declarations), rootDir, tracked, disk, parse)
      ensures concatenator == old(concatenator)
      ensures concatenator.config == old(concatenator.config) && concatenator.rootDir == old(concatenator.rootDir)
      ensures var llm := MatchReply(reply, tracked, disk);
              var merged := MergeFileLists(llm, Dedup(AllMatches(alwaysIncludePatterns, tracked, fnmatch)));
              match ChooseFiles(llm, merged, tracked, approveAll, approveSelected, disk, count)
              case Failure(e) =>
                && r == Failure(e)
                && concatenator.outputStream == old(concatenator.outputStream)
                && concatenator.processedFiles == old(concatenator.processedFiles)
              case Success(files) =>
                if files == [] then
                  && r == Success(("", files))
                  && concatenator.outputStream == old(concatenator.outputStream)
                  && concatenator.processedFiles == old(concatenator.processedFiles)
                else
                  var sel := Concatenator.Selected(concatenator.config, concatenator.rootDir, files);
                  var body := old(concatenator.outputStream) + Concatenator.Header + Concatenator.Blocks(disk, concatenator.rootDir, sel);
                  && concatenator.processedFiles == old(concatenator.processedFiles) + sel
                  && match Concatenator.ManifestLines(disk, concatenator.rootDir, concatenator.processedFiles)
                     case Success(m) =>
                       concatenator.outputStream == body + Concatenator.ManifestHeading + m
                       && r == Success((concatenator.outputStream, files))
                     case Failure(p) => concatenator.outputStream == body && r == Failure(Unreadable(p))
    {
      ExtractDeclarations(tracked, disk, parse);
      var llm := MatchReply(reply, tracked, disk);
      var always := FilterAlwaysIncludeFiles(alwaysIncludePatterns, tracked, fnmatch);
      var merged := MergeFileLists(llm, always);
      ghost var choice := ChooseFiles(llm, merged, tracked, approveAll, approveSelected, disk, count);
      DecideSpec(llm, always, tracked, approveAll, approveSelected);
      var useAll := false;
      if llm == [] {
        useAll := approveAll;
      }
      var relevant: Option<seq<string>> := None;
      if useAll {
        var total := CountTokensForFiles(tracked, disk, count);
        if total.Failure? {
          assert choice == Failure(Unreadable(total.error));
          return Failure(Unreadable(total.error));
        }
        relevant := Some(tracked);
      } else if llm != [] {
        var shown := CountTokensForFiles(merged, disk, count);
        if shown.Failure? {
          assert choice == Failure(Unreadable(shown.error));
          return Failure(Unreadable(shown.error));
        }
        var chosen := if approveSelected then merged else tracked;
        var total := CountTokensForFiles(chosen, disk, count);
        if total.Failure? {
          assert choice == Failure(Unreadable(total.error));
          return Failure(Unreadable(total.error));
        }
        relevant := Some(chosen);
      }
      if relevant.None? {
        assert choice == Failure(RelevantFilesUnbound);
        return Failure(RelevantFilesUnbound);
      }
      assert choice == Success(relevant.value);
      var context := BuildContext(relevant.value, disk);
      if context.Failure? {
        return Failure(Unreadable(context.error));
      }
      r := Success((context.value, relevant.value));
    }
  }
}
