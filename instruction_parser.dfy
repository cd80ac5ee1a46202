/**
 * Parsing a model reply into action blocks, a commit name and the prose around the blocks
 * (my_engineer/shared_models/llm_response/instruction_parser.py).
 *
 * The two regular expressions are modelled as Python's backtracking matcher runs them:
 * a greedy quantifier tries its longest run first and gives characters back one at a time,
 * a lazy one tries its shortest run first.
 */
module InstructionParser {
  import opened Wrappers
  import opened Text

  /** A parsed block: the lowercased action, the target path and the content lines. */
  datatype Block = Block(action: string, path: string, lines: seq<string>)

  /** The parser's four results: blocks, preamble, postamble and commit name. */
  datatype Parsed = Parsed(
    blocks: seq<Block>,
    preamble: Option<string>,
    postamble: Option<string>,
    commitName: Option<string>)

  // ---------------------------------------------------------------------------
  // Runs and searches used by both patterns
  // ---------------------------------------------------------------------------

  /** Length of the whitespace run (`\s*`, greedy) that starts at `i`: it stops at a non-space. */
  function WsRun(t: string, i: nat): (n: nat)
    requires i <= |t|
    ensures i + n <= |t| && (i + n == |t| || !IsSpace(t[i + n]))
    decreases |t| - i
  {
    if i < |t| && IsSpace(t[i]) then 1 + WsRun(t, i + 1) else 0
  }

  /** Length of the word-character run (`\w+`, greedy) that starts at `i`. */
  function WordRun(t: string, i: nat): (n: nat)
    requires i <= |t|
    ensures i + n <= |t| && (i + n == |t| || !IsWordChar(t[i + n]))
    decreases |t| - i
  {
    if i < |t| && IsWordChar(t[i]) then 1 + WordRun(t, i + 1) else 0
  }

  /** Length of the non-whitespace run (`\S+`, greedy) that starts at `i`. */
  function TokenRun(t: string, i: nat): (n: nat)
    requires i <= |t|
    ensures i + n <= |t| && (i + n == |t| || IsSpace(t[i + n]))
    decreases |t| - i
  {
    if i < |t| && !IsSpace(t[i]) then 1 + TokenRun(t, i + 1) else 0
  }

  /** The greedy `\s*` takes exactly the whitespace characters in front of the first non-space. */
  lemma {:induction false} WsRunIs(t: string, i: nat, n: nat)
    requires i + n <= |t| && (forall k :: i <= k < i + n ==> IsSpace(t[k]))
    requires i + n == |t| || !IsSpace(t[i + n])
    ensures WsRun(t, i) == n
    decreases n
  {
    if n > 0 {
      WsRunIs(t, i + 1, n - 1);
    }
  }

  /** The greedy `\w+` takes exactly the word characters in front of the first non-word one. */
  lemma {:induction false} WordRunIs(t: string, i: nat, n: nat)
    requires i + n <= |t| && (forall k :: i <= k < i + n ==> IsWordChar(t[k]))
    requires i + n == |t| || !IsWordChar(t[i + n])
    ensures WordRun(t, i) == n
    decreases n
  {
    if n > 0 {
      WordRunIs(t, i + 1, n - 1);
    }
  }

  /** The greedy `\S+` takes exactly the non-space characters in front of the first space. */
  lemma {:induction false} TokenRunIs(t: string, i: nat, n: nat)
    requires i + n <= |t| && (forall k :: i <= k < i + n ==> !IsSpace(t[k]))
    requires i + n == |t| || IsSpace(t[i + n])
    ensures TokenRun(t, i) == n
    decreases n
  {
    if n > 0 {
      TokenRunIs(t, i + 1, n - 1);
    }
  }

  /** Every character a `\w+` run takes is a word character. */
  lemma {:induction false} WordRunChars(t: string, i: nat)
    requires i <= |t|
    ensures forall k :: i <= k < i + WordRun(t, i) ==> IsWordChar(t[k])
    decreases |t| - i
  {
    if i < |t| && IsWordChar(t[i]) {
      WordRunChars(t, i + 1);
    }
  }

  /** Every character a `\S+` run takes is a non-space. */
  lemma {:induction false} TokenRunChars(t: string, i: nat)
    requires i <= |t|
    ensures forall k :: i <= k < i + TokenRun(t, i) ==> !IsSpace(t[k])
    decreases |t| - i
  {
    if i < |t| && !IsSpace(t[i]) {
      TokenRunChars(t, i + 1);
    }
  }

  // ---------------------------------------------------------------------------
  // The commit pattern  ###COMMIT\s*:?\s*(.+)   (no DOTALL: `.` stops at '\n')
  // ---------------------------------------------------------------------------

  const CommitTag := "###COMMIT"

  /** End of the line holding position `p`: the first '\n' at or after `p`, or the end. */
  function LineEnd(t: string, p: nat): (e: nat)
    requires p <= |t|
    ensures p <= e <= |t| && (e == |t| || t[e] == '\n')
    decreases |t| - p
  {
    if p == |t| || t[p] == '\n' then p else LineEnd(t, p + 1)
  }

  /** `(.+)` at `p`: at least one non-newline character, then greedily to the end of the line. */
  function DotPlus(t: string, p: nat): Option<string>
    requires p <= |t|
  {
    if p < |t| && t[p] != '\n' then Some(t[p..LineEnd(t, p)]) else None
  }

  /** The second `\s*`, tried with `k`, `k - 1`, ..., `0` characters from `q`. */
  function SecondWs(t: string, q: nat, k: nat): Option<string>
    requires q + k <= |t|
    decreases k
  {
    var g := DotPlus(t, q + k);
    if g.Some? then g else if k == 0 then None else SecondWs(t, q, k - 1)
  }

  /** `:?` at `q` (the colon is tried first) followed by the greedy second `\s*`. */
  function OptColon(t: string, q: nat): Option<string>
    requires q <= |t|
  {
    var withColon := if q < |t| && t[q] == ':' then SecondWs(t, q + 1, WsRun(t, q + 1)) else None;
    if withColon.Some? then withColon else SecondWs(t, q, WsRun(t, q))
  }

  /** The first `\s*`, tried with `k`, `k - 1`, ..., `0` characters. */
  function FirstWs(t: string, k: nat): Option<string>
    requires k <= |t|
    decreases k
  {
    var g := OptColon(t, k);
    if g.Some? then g else if k == 0 then None else FirstWs(t, k - 1)
  }

  /** Group 1 of the commit pattern matched against the text that follows "###COMMIT". */
  function CommitGroup(t: string): Option<string> {
    FirstWs(t, WsRun(t, 0))
  }

  /** "###COMMIT" starts at `k`, compared character by character. */
  predicate TagAt(text: string, k: nat) {
    && k + 9 <= |text|
    && text[k] == '#' && text[k + 1] == '#' && text[k + 2] == '#'
    && text[k + 3] == 'C' && text[k + 4] == 'O' && text[k + 5] == 'M'
    && text[k + 6] == 'M' && text[k + 7] == 'I' && text[k + 8] == 'T'
  }

  /** The commit pattern matches at `k`: the tag is there and its group matches after it. */
  predicate CommitAt(text: string, k: nat) {
    TagAt(text, k) && CommitGroup(text[k + |CommitTag|..]).Some?
  }

  /** `re.search`: the first start position from `i` on where the whole pattern matches. */
  function CommitPos(text: string, i: nat): (p: Option<nat>)
    requires i <= |text|
    ensures p.Some? ==> i <= p.value && p.value + |CommitTag| <= |text|
    decreases |text| - i
  {
    if i + |CommitTag| > |text| then None
    else if CommitAt(text, i) then Some(i)
    else CommitPos(text, i + 1)
  }

  /** Group 1 of the first match of the commit pattern. */
  function CommitSearch(text: string): Option<string> {
    match CommitPos(text, 0)
    case Some(p) => CommitGroup(text[p + |CommitTag|..])
    case None => None
  }

  /** The commit name: the stripped group of the first match, if any. */
  function CommitName(text: string): (r: Option<string>)
    ensures r.Some? ==> Strip(r.value) == r.value
    ensures CommitPos(text, 0).None? ==> r == None
  {
    match CommitSearch(text)
    case Some(g) => StripIdempotent(g); Some(Strip(g))
    case None => None
  }

  // ---------------------------------------------------------------------------
  // The block pattern  ###(\w+):\s*(\S+)\s*```(?:.*?)\n(.*?)```   (DOTALL)
  // ---------------------------------------------------------------------------

  /** A match of the block pattern at the start of a suffix `u` of the text; `len` is its length. */
  datatype BlockMatch = BlockMatch(action: string, path: string, content: string, len: nat)

  /**
   * Where the groups of a match sit in `u`: the action at `3..3 + w`, the path at `r..r + l`
   * and the content at `lo..hi`, with the closing fence right after it.
   */
  datatype Span = Span(w: nat, r: nat, l: nat, lo: nat, hi: nat)

  /** The positions of a span lie inside `u`, in the order the pattern reads them. */
  predicate SpanIn(u: string, s: Span) {
    3 + s.w <= s.r && s.r + s.l <= s.lo <= s.hi && s.hi + 3 <= |u|
  }

  /** `u` starts with the marker "###". */
  predicate MarkerAt(u: string) {
    3 <= |u| && u[0] == '#' && u[1] == '#' && u[2] == '#'
  }

  /** A fence "```" starts at `i`. */
  predicate FenceAt(u: string, i: nat) {
    i + 3 <= |u| && u[i] == '`' && u[i + 1] == '`' && u[i + 2] == '`'
  }

  /** `FenceAt` is an occurrence of "```". */
  lemma FenceAtOccurs(u: string, i: nat)
    ensures FenceAt(u, i) <==> OccursAt(u, "```", i)
  {
    if i + 3 <= |u| {
      assert u[i..][..3] == [u[i], u[i + 1], u[i + 2]];
    }
  }

  /** No fence starts in `lo..hi`. */
  predicate NoFenceFrom(u: string, lo: nat, hi: nat) {
    forall j :: lo <= j < hi ==> !FenceAt(u, j)
  }

  /** A region where no fence starts holds no "```" (the lazy `(.*?)```` stops at the first one). */
  lemma NoFenceIn(u: string, lo: nat, hi: nat)
    requires lo <= hi <= |u| && NoFenceFrom(u, lo, hi)
    ensures !Contains(u[lo..hi], "```")
  {
    var v := u[lo..hi];
    forall i | 0 <= i <= |v|
      ensures !OccursAt(v, "```", i)
    {
      FenceAtOccurs(v, i);
      if i + 3 <= |v| {
        assert !FenceAt(u, lo + i);
        assert v[i] == u[lo + i] && v[i + 1] == u[lo + i + 1] && v[i + 2] == u[lo + i + 2];
      }
    }
  }

  /** The first line break at or after `i`. */
  function FindNewline(u: string, i: nat): (n: Option<nat>)
    requires i <= |u|
    ensures n.Some? ==> i <= n.value < |u|
    decreases |u| - i
  {
    if i == |u| then None
    else if u[i] == '\n' then Some(i)
    else FindNewline(u, i + 1)
  }

  /** The first fence starting at or after `i`. */
  function FindFence(u: string, i: nat): (c: Option<nat>)
    requires i <= |u|
    ensures c.Some? ==> i <= c.value && c.value + 3 <= |u|
    decreases |u| - i
  {
    if FenceAt(u, i) then Some(i)
    else if i == |u| then None
    else FindFence(u, i + 1)
  }

  /** The newline search reports a line break, and there is none before it (none at all when it fails). */
  lemma {:induction false} FindNewlineSpec(u: string, i: nat)
    requires i <= |u|
    ensures var n := FindNewline(u, i);
            && (n.Some? ==> u[n.value] == '\n')
            && forall j :: i <= j < (if n.Some? then n.value else |u|) ==> u[j] != '\n'
    decreases |u| - i
  {
    if i < |u| && u[i] != '\n' {
      FindNewlineSpec(u, i + 1);
    }
  }

  /** The fence search reports a fence, and none starts before it (none at all when it fails). */
  lemma {:induction false} FindFenceSpec(u: string, i: nat)
    requires i <= |u|
    ensures var c := FindFence(u, i);
            && (c.Some? ==> FenceAt(u, c.value) && NoFenceFrom(u, i, c.value))
            && (c.None? ==> NoFenceFrom(u, i, |u| + 1))
    decreases |u| - i
  {
    if !FenceAt(u, i) && i < |u| {
      FindFenceSpec(u, i + 1);
    }
  }

  /**
   * `(?:.*?)\n(.*?)```` from `x`: the lazy groups take the first '\n' at or after `x` and then
   * the first "```" after it (when that fails, no later newline can succeed).
   */
  function Tail(u: string, w: nat, r: nat, l: nat, x: nat): (m: Option<Span>)
    requires 3 + w <= r && r + l <= x <= |u|
    ensures m.Some? ==> SpanIn(u, m.value) && m.value.w == w && m.value.r == r && m.value.l == l
  {
    match FindNewline(u, x)
    case None => None
    case Some(n) =>
      match FindFence(u, n + 1)
      case None => None
      case Some(c) => Some(Span(w, r, l, n + 1, c))
  }

  /** `\s*```` after a path of length `l`: the whitespace run is tried with `k`, `k - 1`, ..., `0`. */
  function AfterPath(u: string, w: nat, r: nat, l: nat, k: nat): (m: Option<Span>)
    requires 3 + w <= r && r + l + k <= |u|
    ensures m.Some? ==> SpanIn(u, m.value) && m.value.w == w && m.value.r == r && m.value.l == l
    decreases k
  {
    var f := r + l + k;
    var m := if FenceAt(u, f) then Tail(u, w, r, l, f + 3) else None;
    if m.Some? then m else if k == 0 then None else AfterPath(u, w, r, l, k - 1)
  }

  /** `(\S+)` from `r`, tried with `l`, `l - 1`, ..., `1` characters. */
  function PathTry(u: string, w: nat, r: nat, l: nat): (m: Option<Span>)
    requires 3 + w <= r && 0 < l && r + l <= |u|
    ensures m.Some? ==> SpanIn(u, m.value) && m.value.w == w && m.value.r == r && 0 < m.value.l <= l
    decreases l
  {
    var m := AfterPath(u, w, r, l, WsRun(u, r + l));
    if m.Some? then m else if l == 1 then None else PathTry(u, w, r, l - 1)
  }

  /** The block pattern anchored at the start of `u`, as the positions of its groups. */
  function SpanAt(u: string): (m: Option<Span>)
    ensures m.Some? ==> MarkerAt(u) && SpanIn(u, m.value) && 0 < m.value.w && 0 < m.value.l
  {
    if !MarkerAt(u) then None
    else
      var w := WordRun(u, 3);
      if w == 0 || 3 + w == |u| || u[3 + w] != ':' then None
      else
        var r := 4 + w + WsRun(u, 4 + w);
        var l := TokenRun(u, r);
        if l == 0 then None
        else
          PathTry(u, w, r, l)
  }

  /** The block pattern anchored at the start of `u`: its three groups and its length. */
  function MatchBlockAt(u: string): (m: Option<BlockMatch>)
    ensures m.Some? ==> MarkerAt(u) && 0 < m.value.len <= |u|
  {
    match SpanAt(u)
    case None => None
    case Some(s) => Some(BlockMatch(u[3..3 + s.w], u[s.r..s.r + s.l], u[s.lo..s.hi], s.hi + 3))
  }

  lemma TailNoFence(u: string, w: nat, r: nat, l: nat, x: nat)
    requires 3 + w <= r && r + l <= x <= |u| && Tail(u, w, r, l, x).Some?
    ensures NoFenceFrom(u, Tail(u, w, r, l, x).value.lo, Tail(u, w, r, l, x).value.hi)
  {
    var n := FindNewline(u, x).value;
    FindFenceSpec(u, n + 1);
  }

  lemma {:induction false} AfterPathNoFence(u: string, w: nat, r: nat, l: nat, k: nat)
    requires 3 + w <= r && r + l + k <= |u| && AfterPath(u, w, r, l, k).Some?
    ensures NoFenceFrom(u, AfterPath(u, w, r, l, k).value.lo, AfterPath(u, w, r, l, k).value.hi)
    decreases k
  {
    var f := r + l + k;
    if FenceAt(u, f) && Tail(u, w, r, l, f + 3).Some? {
      TailNoFence(u, w, r, l, f + 3);
    } else {
      AfterPathNoFence(u, w, r, l, k - 1);
    }
  }

  lemma {:induction false} PathTryNoFence(u: string, w: nat, r: nat, l: nat)
    requires 3 + w <= r && 0 < l && r + l <= |u| && PathTry(u, w, r, l).Some?
    ensures NoFenceFrom(u, PathTry(u, w, r, l).value.lo, PathTry(u, w, r, l).value.hi)
    decreases l
  {
    if AfterPath(u, w, r, l, WsRun(u, r + l)).Some? {
      AfterPathNoFence(u, w, r, l, WsRun(u, r + l));
    } else {
      PathTryNoFence(u, w, r, l - 1);
    }
  }

  /** What every match of the block pattern satisfies. */
  predicate WellFormedMatch(m: BlockMatch) {
    && |m.action| > 0
    && (forall i :: 0 <= i < |m.action| ==> IsWordChar(m.action[i]))
    && |m.path| > 0
    && (forall i :: 0 <= i < |m.path| ==> !IsSpace(m.path[i]))
    && !Contains(m.content, "```")
  }

  /**
   * A match has a word as action, a whitespace-free path and content without "```"
   * (the lazy group stops at the first one).
   */
  lemma MatchWellFormed(u: string)
    requires MatchBlockAt(u).Some?
    ensures WellFormedMatch(MatchBlockAt(u).value)
  {
    SpanWellFormed(u);
    SpanMatchWellFormed(u, SpanAt(u).value);
  }

  /** The match built from a span whose characters are as the pattern demands. */
  lemma SpanMatchWellFormed(u: string, s: Span)
    requires SpanIn(u, s) && 0 < s.w && 0 < s.l && SpanChars(u, s)
    ensures WellFormedMatch(BlockMatch(u[3..3 + s.w], u[s.r..s.r + s.l], u[s.lo..s.hi], s.hi + 3))
  {
    NoFenceIn(u, s.lo, s.hi);
    var path := u[s.r..s.r + s.l];
    forall i | 0 <= i < |path|
      ensures !IsSpace(path[i])
    {
      assert path[i] == u[s.r + i];
    }
    var action := u[3..3 + s.w];
    forall i | 0 <= i < |action|
      ensures IsWordChar(action[i])
    {
      assert action[i] == u[3 + i];
    }
  }

  /** The characters of `u` that the groups of a span cover. */
  predicate SpanChars(u: string, s: Span)
    requires SpanIn(u, s)
  {
    && (forall i :: 3 <= i < 3 + s.w ==> IsWordChar(u[i]))
    && (forall i :: s.r <= i < s.r + s.l ==> !IsSpace(u[i]))
    && NoFenceFrom(u, s.lo, s.hi)
  }

  lemma SpanWellFormed(u: string)
    requires SpanAt(u).Some?
    ensures SpanChars(u, SpanAt(u).value)
  {
    var s := SpanAt(u).value;
    var w := WordRun(u, 3);
    var r := 4 + w + WsRun(u, 4 + w);
    var l := TokenRun(u, r);
    assert PathTry(u, w, r, l) == Some(s);
    PathTryNoFence(u, w, r, l);
    WordRunChars(u, 3);
    TokenRunChars(u, r);
  }

  /** A match found by `re.finditer`, with its start in the whole text. */
  datatype Found = Found(start: nat, m: BlockMatch)

  /** The end of the last match found. */
  function End(found: seq<Found>): nat
    requires |found| > 0
  {
    found[|found| - 1].start + found[|found| - 1].m.len
  }

  /** The pattern tried at every position of `text`, the end included. */
  function Attempts(text: string): (ms: seq<Option<BlockMatch>>)
    ensures |ms| == |text| + 1
    ensures forall j {:trigger MatchBlockAt(text[j..])} :: 0 <= j <= |text| ==> ms[j] == MatchBlockAt(text[j..])
  {
    AttemptsFrom(text, 0)
  }

  /** The attempts at positions `i` to `|text|`. */
  function AttemptsFrom(text: string, i: nat): (ms: seq<Option<BlockMatch>>)
    requires i <= |text| + 1
    ensures |ms| == |text| + 1 - i
    ensures forall j {:trigger MatchBlockAt(text[j..])} :: i <= j <= |text| ==> ms[j - i] == MatchBlockAt(text[j..])
    decreases |text| + 1 - i
  {
    if i == |text| + 1 then [] else [MatchBlockAt(text[i..])] + AttemptsFrom(text, i + 1)
  }

  /** Every attempt that succeeds consumes at least one character and stays inside the text. */
  ghost predicate Fits(ms: seq<Option<BlockMatch>>) {
    forall j :: 0 <= j < |ms| && ms[j].Some? ==> 0 < ms[j].value.len && j + ms[j].value.len < |ms|
  }

  lemma AttemptsFit(text: string)
    ensures Fits(Attempts(text))
  {
    var ms := Attempts(text);
    forall j | 0 <= j < |ms| && ms[j].Some?
      ensures 0 < ms[j].value.len && j + ms[j].value.len < |ms|
    {
      assert ms[j] == MatchBlockAt(text[j..]);
    }
  }

  /**
   * `re.finditer` over the attempts `ms`: from `i`, take the match there and resume at its end,
   * otherwise resume at `i + 1`.
   */
  function Scan(ms: seq<Option<BlockMatch>>, i: nat): seq<Found>
    requires Fits(ms) && i <= |ms|
    decreases |ms| - i
  {
    if i == |ms| then []
    else if ms[i].Some? then [Found(i, ms[i].value)] + Scan(ms, i + ms[i].value.len)
    else Scan(ms, i + 1)
  }

  /** `r` lists successful attempts at or after `i`, in order and without overlap. */
  ghost predicate Reported(ms: seq<Option<BlockMatch>>, i: nat, r: seq<Found>) {
    && (forall k :: 0 <= k < |r| ==>
          i <= r[k].start && r[k].start + r[k].m.len < |ms| && ms[r[k].start] == Some(r[k].m))
    && (forall k1, k2 :: 0 <= k1 < k2 < |r| ==> r[k1].start + r[k1].m.len <= r[k2].start)
  }

  /** A successful attempt at `f.start`, followed by what was reported from its end. */
  lemma ReportedCons(ms: seq<Option<BlockMatch>>, f: Found, tail: seq<Found>)
    requires f.start + f.m.len < |ms| && ms[f.start] == Some(f.m)
    requires Reported(ms, f.start + f.m.len, tail)
    ensures Reported(ms, f.start, [f] + tail)
  {
    var r := [f] + tail;
    forall k | 0 <= k < |r|
      ensures f.start <= r[k].start && r[k].start + r[k].m.len < |ms| && ms[r[k].start] == Some(r[k].m)
    {
      if k > 0 {
        assert r[k] == tail[k - 1];
      }
    }
    forall k1, k2 | 0 <= k1 < k2 < |r|
      ensures r[k1].start + r[k1].m.len <= r[k2].start
    {
      assert r[k2] == tail[k2 - 1];
      if k1 > 0 {
        assert r[k1] == tail[k1 - 1];
      }
    }
  }

  /** What `Scan` reports: successful attempts, each inside the text, in text order. */
  lemma {:induction false} ScanSound(ms: seq<Option<BlockMatch>>, i: nat)
    requires Fits(ms) && i <= |ms|
    ensures Reported(ms, i, Scan(ms, i))
    decreases |ms| - i
  {
    if i < |ms| {
      if ms[i].Some? {
        var n := i + ms[i].value.len;
        ScanSound(ms, n);
        ReportedCons(ms, Found(i, ms[i].value), Scan(ms, n));
      } else {
        ScanSound(ms, i + 1);
        assert Scan(ms, i) == Scan(ms, i + 1);
      }
    }
  }

  /** `re.finditer(pattern, text)`. */
  function FindBlocks(text: string): seq<Found> {
    AttemptsFit(text);
    Scan(Attempts(text), 0)
  }

  /**
   * Every match `re.finditer` reports is the pattern's match at its start, inside the text;
   * matches come out in text order and do not overlap.
   */
  lemma FindBlocksSound(text: string)
    ensures var r := FindBlocks(text);
            && (forall k :: 0 <= k < |r| ==>
                  r[k].start + r[k].m.len <= |text| && MatchBlockAt(text[r[k].start..]) == Some(r[k].m))
            && (forall k1, k2 :: 0 <= k1 < k2 < |r| ==> r[k1].start + r[k1].m.len <= r[k2].start)
  {
    var ms := Attempts(text);
    AttemptsFit(text);
    ScanSound(ms, 0);
    var r := FindBlocks(text);
    assert r == Scan(ms, 0);
    forall k | 0 <= k < |r|
      ensures r[k].start + r[k].m.len <= |text| && MatchBlockAt(text[r[k].start..]) == Some(r[k].m)
    {
      assert ms[r[k].start] == MatchBlockAt(text[r[k].start..]);
    }
  }

  // ---------------------------------------------------------------------------
  // Content normalisation
  // ---------------------------------------------------------------------------

  /** Drops the leading lines that are blank after strip (`not line.strip()`). */
  function DropLeadingBlank(ls: seq<string>): seq<string> {
    if |ls| > 0 && IsBlank(ls[0]) then DropLeadingBlank(ls[1..]) else ls
  }

  /** Drops the trailing lines that are blank after strip. */
  function DropTrailingBlank(ls: seq<string>): seq<string> {
    if |ls| > 0 && IsBlank(ls[|ls| - 1]) then DropTrailingBlank(ls[..|ls| - 1]) else ls
  }

  /** `_process_content` as a function: leading and trailing blank lines removed. */
  function TrimBlankLines(ls: seq<string>): seq<string> {
    DropTrailingBlank(DropLeadingBlank(ls))
  }

  /** `_process_content`: split on '\n' and pop blank lines from the front, then from the back. */
  method ProcessContent(content: string) returns (lines: seq<string>)
    ensures lines == TrimBlankLines(Lines(content))
  {
    lines := Lines(content);
    while |lines| > 0 && IsBlank(lines[0])
      invariant DropLeadingBlank(lines) == DropLeadingBlank(Lines(content))
    {
      lines := lines[1..];
    }
    while |lines| > 0 && IsBlank(lines[|lines| - 1])
      invariant DropTrailingBlank(lines) == TrimBlankLines(Lines(content))
    {
      lines := lines[..|lines| - 1];
    }
  }

  /** A line that strips to exactly ```. */
  predicate IsFenceLine(line: string) {
    var t := Strip(line);
    |t| == 3 && t[0] == '`' && t[1] == '`' && t[2] == '`'
  }

  /** `strip_code_block`: drop a first and a last line that strip to ```, join, strip. */
  function StripCodeBlock(content: string): (r: string)
    ensures Strip(r) == r
  {
    StripIdempotent(Unlines(DropFenceLines(Lines(content))));
    Strip(Unlines(DropFenceLines(Lines(content))))
  }

  /** Drops a first line and then a last line that are fences. */
  function DropFenceLines(ls: seq<string>): seq<string> {
    var a := if |ls| > 0 && IsFenceLine(ls[0]) then ls[1..] else ls;
    if |a| > 0 && IsFenceLine(a[|a| - 1]) then a[..|a| - 1] else a
  }

  // ---------------------------------------------------------------------------
  // extract_instructions
  // ---------------------------------------------------------------------------

  function ToBlock(m: BlockMatch): Block {
    Block(Lower(m.action), m.path, TrimBlankLines(Lines(m.content)))
  }

  function Blocks(found: seq<Found>): (r: seq<Block>)
    ensures |r| == |found|
    ensures forall k :: 0 <= k < |found| ==> r[k] == ToBlock(found[k].m)
  {
    seq(|found|, k requires 0 <= k < |found| => ToBlock(found[k].m))
  }

  /** `x or None` for a stripped string: the empty string becomes None. */
  function NonEmpty(s: string): Option<string> {
    if s == [] then None else Some(s)
  }

  /** `InstructionParser.extract_instructions`. */
  function ExtractInstructions(text: string): Parsed {
    var commit := CommitName(text);
    var found := FindBlocks(text);
    FindBlocksSound(text);
    if found == [] then
      Parsed([], Some(Strip(text)), None, commit)
    else
      var first := found[0].start;
      var last := End(found);
      var preamble := if first > 0 then NonEmpty(Strip(text[..first])) else None;
      var postamble := if last < |text| then NonEmpty(Strip(text[last..])) else None;
      Parsed(Blocks(found), preamble, postamble, commit)
  }

  // ---------------------------------------------------------------------------
  // Properties of the commit name
  // ---------------------------------------------------------------------------

  /** `re.search` reports the leftmost position where the pattern matches. */
  lemma {:induction false} CommitPosLeftmost(text: string, i: nat)
    requires i <= |text| && CommitPos(text, i).Some?
    ensures CommitAt(text, CommitPos(text, i).value)
    ensures forall k :: i <= k < CommitPos(text, i).value ==> !CommitAt(text, k)
    decreases |text| - i
  {
    if !CommitAt(text, i) {
      CommitPosLeftmost(text, i + 1);
    }
  }

  /** When `re.search` finds nothing, the pattern matches nowhere from `i` on. */
  lemma {:induction false} CommitPosNone(text: string, i: nat)
    requires i <= |text| && CommitPos(text, i).None?
    ensures forall k :: i <= k ==> !CommitAt(text, k)
    decreases |text| - i
  {
    if i + |CommitTag| <= |text| {
      CommitPosNone(text, i + 1);
    }
  }

  /**
   * With a colon, the group is the rest of the first line that has a non-whitespace character
   * after it: `\s*` runs across line breaks, so "###COMMIT:\n  fix" names the commit "fix".
   * `t` is the text after the tag: blanks up to the colon at `q`, `n` blanks, then the name.
   */
  lemma CommitGroupAfterColon(t: string, q: nat, n: nat)
    requires q + 1 + n < |t| && t[q] == ':' && !IsSpace(t[q + 1 + n])
    requires forall k :: 0 <= k < q ==> IsSpace(t[k])
    requires forall k :: q + 1 <= k < q + 1 + n ==> IsSpace(t[k])
    ensures CommitGroup(t) == Some(t[q + 1 + n..LineEnd(t, q + 1 + n)])
  {
    WsRunIs(t, 0, q);
    WsRunIs(t, q + 1, n);
    ColonGroup(t, q, n, t[q + 1 + n..LineEnd(t, q + 1 + n)]);
  }

  /** The group read off the positions: blank run, colon, blank run, then `(.+)`. */
  lemma ColonGroup(t: string, q: nat, n: nat, g: string)
    requires q < |t| && t[q] == ':' && q + 1 + n <= |t|
    requires WsRun(t, 0) == q && WsRun(t, q + 1) == n && DotPlus(t, q + 1 + n) == Some(g)
    ensures CommitGroup(t) == Some(g)
  {
    SecondWsHit(t, q + 1, n);
    OptColonHit(t, q);
    FirstWsHit(t, q);
  }

  lemma SecondWsHit(t: string, q: nat, k: nat)
    requires q + k <= |t| && DotPlus(t, q + k).Some?
    ensures SecondWs(t, q, k) == DotPlus(t, q + k)
  {
  }

  lemma OptColonHit(t: string, q: nat)
    requires q < |t| && t[q] == ':' && SecondWs(t, q + 1, WsRun(t, q + 1)).Some?
    ensures OptColon(t, q) == SecondWs(t, q + 1, WsRun(t, q + 1))
  {
  }

  lemma FirstWsHit(t: string, k: nat)
    requires k <= |t| && OptColon(t, k).Some?
    ensures FirstWs(t, k) == OptColon(t, k)
  {
  }

  /** Without a colon, the group starts at the first non-whitespace character `q` after the tag. */
  lemma CommitGroupNoColon(t: string, q: nat)
    requires q < |t| && !IsSpace(t[q]) && t[q] != ':'
    requires forall k :: 0 <= k < q ==> IsSpace(t[k])
    ensures CommitGroup(t) == Some(t[q..LineEnd(t, q)])
  {
    WsRunIs(t, 0, q);
    WsRunIs(t, q, 0);
    SecondWsHit(t, q, 0);
    FirstWsHit(t, q);
  }

  // ---------------------------------------------------------------------------
  // Properties of the blocks
  // ---------------------------------------------------------------------------

  /**
   * What every extracted block satisfies: a lowercase word as action, one whitespace-free token
   * as path, and content lines with no line break and no "```".
   */
  predicate WellFormedBlock(b: Block) {
    && |b.action| > 0
    && (forall i :: 0 <= i < |b.action| ==> IsWordChar(b.action[i]) && !('A' <= b.action[i] <= 'Z'))
    && |b.path| > 0
    && (forall i :: 0 <= i < |b.path| ==> !IsSpace(b.path[i]))
    && (forall k :: 0 <= k < |b.lines| ==> '\n' !in b.lines[k] && !Contains(b.lines[k], "```"))
  }

  /** A line of a string holds "```" only if the string does. */
  lemma LinesKeepFence(s: string)
    ensures forall k :: 0 <= k < |Lines(s)| ==> Contains(Lines(s)[k], "```") ==> Contains(s, "```")
  {
    forall k | 0 <= k < |Lines(s)| && Contains(Lines(s)[k], "```")
      ensures Contains(s, "```")
    {
      var a, b := LinePiece(s, k);
      ContainsInfix(a, Lines(s)[k], b, "```");
    }
  }

  lemma ToBlockWellFormed(m: BlockMatch)
    requires WellFormedMatch(m)
    ensures WellFormedBlock(ToBlock(m))
  {
    var ls := Lines(m.content);
    LinesHaveNoNewline(m.content);
    LinesKeepFence(m.content);
    var a, b := TrimBlankLinesSlice(ls);
    forall i | 0 <= i < |ToBlock(m).action|
      ensures IsWordChar(ToBlock(m).action[i]) && !('A' <= ToBlock(m).action[i] <= 'Z')
    {
      assert ToBlock(m).action[i] == LowerChar(m.action[i]);
    }
    forall k | 0 <= k < |ToBlock(m).lines|
      ensures '\n' !in ToBlock(m).lines[k] && !Contains(ToBlock(m).lines[k], "```")
    {
      assert ToBlock(m).lines[k] == ls[a + k];
    }
  }

  /** Every extracted block is well formed. */
  lemma ExtractedBlocksWellFormed(text: string)
    ensures forall k :: 0 <= k < |ExtractInstructions(text).blocks| ==>
              WellFormedBlock(ExtractInstructions(text).blocks[k])
  {
    var found := FindBlocks(text);
    FindBlocksSound(text);
    forall k | 0 <= k < |ExtractInstructions(text).blocks|
      ensures WellFormedBlock(ExtractInstructions(text).blocks[k])
    {
      MatchWellFormed(text[found[k].start..]);
      ToBlockWellFormed(found[k].m);
    }
  }

  /** A block is found only where the text holds "###". */
  lemma BlockNeedsMarker(text: string)
    ensures FindBlocks(text) != [] ==> Contains(text, "###")
  {
    var found := FindBlocks(text);
    FindBlocksSound(text);
    if found != [] {
      var s := found[0].start;
      assert MarkerAt(text[s..]);
      assert text[s..s + 3] == "###" by {
        assert text[s] == text[s..][0] && text[s + 1] == text[s..][1] && text[s + 2] == text[s..][2];
      }
      ContainsAt(text, "###", s);
    }
  }

  /** A reply without "###" has no blocks: all of it, stripped, becomes the preamble. */
  lemma NoMarkerAllPreamble(text: string)
    requires !Contains(text, "###")
    ensures ExtractInstructions(text) == Parsed([], Some(Strip(text)), None, CommitName(text))
  {
    BlockNeedsMarker(text);
  }

  /** A "###COMMIT" tag written before the first block is kept inside the preamble. */
  lemma CommitTagStaysInPreamble(text: string, p: nat)
    requires p + |CommitTag| <= |text| && CommitTag <= text[p..]
    requires FindBlocks(text) != [] && p + |CommitTag| <= FindBlocks(text)[0].start
    ensures ExtractInstructions(text).preamble.Some?
    ensures Contains(ExtractInstructions(text).preamble.value, CommitTag)
  {
    FindBlocksSound(text);
    var first := FindBlocks(text)[0].start;
    assert text[..first][p..p + |CommitTag|] == CommitTag;
    ContainsAt(text[..first], CommitTag, p);
    StripKeepsInfix(text[..first], CommitTag);
  }

  // ---------------------------------------------------------------------------
  // Properties of the content normalisation
  // ---------------------------------------------------------------------------

  lemma {:induction false} DropLeadingSlice(ls: seq<string>) returns (a: nat)
    ensures a <= |ls| && DropLeadingBlank(ls) == ls[a..]
    ensures forall k :: 0 <= k < a ==> IsBlank(ls[k])
    ensures a == |ls| || !IsBlank(ls[a])
    decreases |ls|
  {
    if |ls| > 0 && IsBlank(ls[0]) {
      var a' := DropLeadingSlice(ls[1..]);
      a := a' + 1;
      assert ls[1..][a'..] == ls[a..];
      forall k | 0 <= k < a
        ensures IsBlank(ls[k])
      {
        if k > 0 {
          assert ls[k] == ls[1..][k - 1];
        }
      }
    } else {
      a := 0;
    }
  }

  lemma {:induction false} DropTrailingSlice(ls: seq<string>) returns (b: nat)
    ensures b <= |ls| && DropTrailingBlank(ls) == ls[..b]
    ensures forall k :: b <= k < |ls| ==> IsBlank(ls[k])
    ensures b == 0 || !IsBlank(ls[b - 1])
    decreases |ls|
  {
    if |ls| > 0 && IsBlank(ls[|ls| - 1]) {
      var init := ls[..|ls| - 1];
      b := DropTrailingSlice(init);
      assert init[..b] == ls[..b];
      forall k | b <= k < |ls|
        ensures IsBlank(ls[k])
      {
        if k < |ls| - 1 {
          assert ls[k] == init[k];
        }
      }
    } else {
      b := |ls|;
    }
  }

  /**
   * `_process_content` keeps a contiguous run of the lines: everything it drops is blank and
   * what it keeps starts and ends with a non-blank line.
   */
  lemma TrimBlankLinesSlice(ls: seq<string>) returns (a: nat, b: nat)
    ensures a <= b <= |ls| && TrimBlankLines(ls) == ls[a..b]
    ensures forall k :: 0 <= k < a || b <= k < |ls| ==> IsBlank(ls[k])
    ensures a < b ==> !IsBlank(ls[a]) && !IsBlank(ls[b - 1])
  {
    a := DropLeadingSlice(ls);
    var rest := ls[a..];
    var b' := DropTrailingSlice(rest);
    b := a + b';
    assert rest[..b'] == ls[a..b];
    forall k | b <= k < |ls|
      ensures IsBlank(ls[k])
    {
      assert ls[k] == rest[k - a];
    }
    if a < b {
      assert ls[a] == rest[0];
      assert ls[b - 1] == rest[b' - 1];
    }
  }

  /** `_process_content` applied to its own output changes nothing. */
  lemma TrimBlankLinesIdempotent(ls: seq<string>)
    ensures TrimBlankLines(TrimBlankLines(ls)) == TrimBlankLines(ls)
  {
    var a, b := TrimBlankLinesSlice(ls);
    var t := ls[a..b];
    assert DropLeadingBlank(t) == t;
    assert DropTrailingBlank(t) == t;
  }

  /** `strip_code_block` of a fenced text gives the stripped text between the fences. */
  lemma StripCodeBlockFenced(mid: seq<string>)
    requires forall k :: 0 <= k < |mid| ==> '\n' !in mid[k]
    ensures StripCodeBlock(Unlines(["```"] + mid + ["```"])) == Strip(Unlines(mid))
  {
    var ls := ["```"] + mid + ["```"];
    LinesUnlines(ls);
    StripNoop("```");
    assert IsFenceLine("```");
    assert ls[1..] == mid + ["```"];
    assert (mid + ["```"])[..|mid|] == mid;
  }

  /** `strip_code_block` only strips a text whose first and last lines are not fences alone. */
  lemma StripCodeBlockNoFence(s: string)
    requires !IsFenceLine(Lines(s)[0]) && !IsFenceLine(Lines(s)[|Lines(s)| - 1])
    ensures StripCodeBlock(s) == Strip(s)
  {
    DropFenceLinesNoop(Lines(s));
    UnlinesLines(s);
  }

  lemma DropFenceLinesNoop(ls: seq<string>)
    requires |ls| > 0 && !IsFenceLine(ls[0]) && !IsFenceLine(ls[|ls| - 1])
    ensures DropFenceLines(ls) == ls
  {
  }

  // ---------------------------------------------------------------------------
  // Round trip: rendering blocks and parsing them back
  // ---------------------------------------------------------------------------

  /** The block syntax the parser expects: `###action: path`, then the lines in a fence. */
  function RenderBlock(b: Block): string {
    "###" + b.action + ": " + b.path + "\n```\n" + Unlines(b.lines) + "\n```"
  }

  /** Blocks rendered one after another, separated by a line break. */
  function Render(bs: seq<Block>): string
    requires |bs| > 0
  {
    if |bs| == 1 then RenderBlock(bs[0]) else RenderBlock(bs[0]) + "\n" + Render(bs[1..])
  }

  /** A block that parsing gives back unchanged once rendered. */
  predicate Renderable(b: Block) {
    && |b.action| > 0
    && (forall i :: 0 <= i < |b.action| ==> IsWordChar(b.action[i]))
    && (forall i :: 0 <= i < |b.action| ==> !('A' <= b.action[i] <= 'Z'))
    && |b.path| > 0
    && (forall i :: 0 <= i < |b.path| ==> !IsSpace(b.path[i]))
    && |b.lines| > 0
    && (forall k :: 0 <= k < |b.lines| ==> '\n' !in b.lines[k])
    && !IsBlank(b.lines[0]) && !IsBlank(b.lines[|b.lines| - 1])
    && !Contains(Unlines(b.lines), "```")
  }

  /**
   * `u` starts with a block laid out as `###action: path\n```\nbody\n````, the path starting
   * at `r` and `l` characters long.
   */
  predicate Layout(u: string, action: string, path: string, body: string, r: nat, l: nat) {
    && r == 5 + |action| && l == |path|
    && r + l + 9 + |body| <= |u| && MarkerAt(u)
    && u[3..3 + |action|] == action && u[3 + |action|] == ':' && u[4 + |action|] == ' '
    && u[r..r + l] == path
    && u[r + l] == '\n' && FenceAt(u, r + l + 1)
    && u[r + l + 4] == '\n' && u[r + l + 5..r + l + 5 + |body|] == body
    && u[r + l + 5 + |body|] == '\n' && FenceAt(u, r + l + 6 + |body|)
  }

  /** Where the parts of a rendered block sit. */
  lemma RenderedLayout(u: string, b: Block, rest: string)
    requires u == RenderBlock(b) + rest
    ensures Layout(u, b.action, b.path, Unlines(b.lines), 5 + |b.action|, |b.path|)
    ensures |RenderBlock(b)| == RenderedMatch(b).len
  {
    RenderedHead(b, rest);
    RenderedOpen(b, rest);
    RenderedBody(b, rest);
  }

  /** `###action: path` at the start of a rendered block. */
  lemma RenderedHead(b: Block, rest: string)
    ensures var u := RenderBlock(b) + rest; var r := 5 + |b.action|; var l := |b.path|;
            && |u| == r + l + 9 + |Unlines(b.lines)| + |rest| && MarkerAt(u)
            && u[3..3 + |b.action|] == b.action && u[3 + |b.action|] == ':' && u[4 + |b.action|] == ' '
            && u[r..r + l] == b.path
  {
    var u := RenderBlock(b) + rest;
    var head := "###" + b.action + ": " + b.path;
    assert u == head + ("\n```\n" + Unlines(b.lines) + "\n```" + rest);
    assert u[..|head|] == head;
    assert u[0] == head[0] && u[1] == head[1] && u[2] == head[2];
    assert u[3..3 + |b.action|] == head[3..3 + |b.action|];
    assert u[3 + |b.action|] == head[3 + |b.action|] && u[4 + |b.action|] == head[4 + |b.action|];
    assert u[5 + |b.action|..|head|] == head[5 + |b.action|..];
  }

  /** The line break, the opening fence and the line break after the path. */
  lemma RenderedOpen(b: Block, rest: string)
    ensures var u := RenderBlock(b) + rest; var p := 5 + |b.action| + |b.path|;
            && p + 5 <= |u| && u[p] == '\n' && FenceAt(u, p + 1) && u[p + 4] == '\n'
  {
    var u := RenderBlock(b) + rest;
    var head := "###" + b.action + ": " + b.path;
    var open := "\n```\n";
    assert u == head + (open + (Unlines(b.lines) + "\n```" + rest));
    var p := |head|;
    assert u[p..p + 5] == open;
    assert u[p] == open[0] && u[p + 1] == open[1] && u[p + 2] == open[2];
    assert u[p + 3] == open[3] && u[p + 4] == open[4];
  }

  /** The body, the line break after it and the closing fence. */
  lemma RenderedBody(b: Block, rest: string)
    ensures var u := RenderBlock(b) + rest; var p := 5 + |b.action| + |b.path| + 5;
            var body := Unlines(b.lines);
            && p + |body| + 4 <= |u| && u[p..p + |body|] == body
            && u[p + |body|] == '\n' && FenceAt(u, p + |body| + 1)
  {
    var u := RenderBlock(b) + rest;
    var pre := "###" + b.action + ": " + b.path + "\n```\n";
    var body := Unlines(b.lines);
    var close := "\n```";
    assert u == pre + (body + (close + rest));
    var p := |pre|;
    assert u[p..p + |body|] == body;
    var e := p + |body|;
    assert u[e..e + 4] == close;
    assert u[e] == close[0] && u[e + 1] == close[1] && u[e + 2] == close[2] && u[e + 3] == close[3];
  }

  /** `FindFence` from `i` stops at `c` when a fence starts there and none before. */
  lemma {:induction false} FindFenceIs(u: string, i: nat, c: nat)
    requires i <= c && FenceAt(u, c) && NoFenceFrom(u, i, c)
    ensures FindFence(u, i) == Some(c)
    decreases c - i
  {
    if i < c {
      FindFenceIs(u, i + 1, c);
    }
  }

  /** A body free of fences followed by a line break and a fence: the first fence from `lo` closes it. */
  lemma FenceAfterBody(u: string, lo: nat, body: string)
    requires lo + |body| + 1 <= |u|
    requires u[lo..lo + |body|] == body && u[lo + |body|] == '\n'
    requires FenceAt(u, lo + |body| + 1)
    requires !Contains(body, "```")
    ensures FindFence(u, lo) == Some(lo + |body| + 1)
  {
    var B := |body|;
    var c := lo + B + 1;
    forall j | lo <= j < c
      ensures !FenceAt(u, j)
    {
      if j + 3 <= lo + B {
        FenceAtOccurs(body, j - lo);
        assert body[j - lo] == u[j] && body[j - lo + 1] == u[j + 1] && body[j - lo + 2] == u[j + 2];
      } else {
        assert u[lo + B] == '\n';
      }
    }
    FindFenceIs(u, lo, c);
  }

  /** The lazy tail of a rendered block: the first line break, then the body up to the closing fence. */
  lemma TailRendered(u: string, w: nat, r: nat, l: nat, x: nat, body: string)
    requires 3 + w <= r && r + l <= x && x + 2 + |body| <= |u|
    requires u[x] == '\n' && u[x + 1..x + 1 + |body|] == body && u[x + 1 + |body|] == '\n'
    requires FenceAt(u, x + 2 + |body|)
    requires !Contains(body, "```")
    ensures Tail(u, w, r, l, x) == Some(Span(w, r, l, x + 1, x + 2 + |body|))
  {
    assert FindNewline(u, x) == Some(x);
    FenceAfterBody(u, x + 1, body);
  }

  /** After a path of length `l` at `r`: one line break, the opening fence, then the tail. */
  lemma PathTryRendered(u: string, w: nat, r: nat, l: nat, body: string)
    requires 3 + w <= r && 0 < l && r + l + 9 + |body| <= |u|
    requires u[r + l] == '\n' && FenceAt(u, r + l + 1)
    requires u[r + l + 4] == '\n' && u[r + l + 5..r + l + 5 + |body|] == body
    requires u[r + l + 5 + |body|] == '\n' && FenceAt(u, r + l + 6 + |body|)
    requires !Contains(body, "```")
    ensures PathTry(u, w, r, l) == Some(Span(w, r, l, r + l + 5, r + l + 6 + |body|))
  {
    WsRunIs(u, r + l, 1);
    TailRendered(u, w, r, l, r + l + 4, body);
  }

  /** The three greedy runs of the head `###action: path` of a rendered block. */
  lemma HeadRuns(u: string, action: string, path: string, r: nat, l: nat)
    requires |action| > 0 && 0 < l
    requires forall i :: 0 <= i < |action| ==> IsWordChar(action[i])
    requires forall i :: 0 <= i < |path| ==> !IsSpace(path[i])
    requires r == 5 + |action| && l == |path| && r + l < |u|
    requires u[3..3 + |action|] == action && u[3 + |action|] == ':' && u[4 + |action|] == ' '
    requires u[r..r + l] == path && u[r + l] == '\n'
    ensures WordRun(u, 3) == |action|
    ensures WsRun(u, 4 + |action|) == 1
    ensures TokenRun(u, r) == l
  {
    var A := |action|;
    forall k | 3 <= k < 3 + A
      ensures IsWordChar(u[k])
    {
      assert u[k] == u[3..3 + A][k - 3];
    }
    WordRunIs(u, 3, A);
    assert u[r] == path[0] by { assert u[r] == u[r..r + l][0]; }
    WsRunIs(u, 4 + A, 1);
    forall k | r <= k < r + l
      ensures !IsSpace(u[k])
    {
      assert u[k] == u[r..r + l][k - r];
    }
    TokenRunIs(u, r, l);
  }

  /** The head `###action: path` of a rendered block: the match is decided by the path tries. */
  lemma HeadRendered(u: string, action: string, path: string, r: nat, l: nat)
    requires |action| > 0 && 0 < l && MarkerAt(u)
    requires forall i :: 0 <= i < |action| ==> IsWordChar(action[i])
    requires forall i :: 0 <= i < |path| ==> !IsSpace(path[i])
    requires r == 5 + |action| && l == |path| && r + l < |u|
    requires u[3..3 + |action|] == action && u[3 + |action|] == ':' && u[4 + |action|] == ' '
    requires u[r..r + l] == path && u[r + l] == '\n'
    ensures SpanAt(u) == PathTry(u, |action|, r, l)
  {
    HeadRuns(u, action, path, r, l);
  }

  /** A match at the start of `u` laid out as `###action: path\n```\nbody\n```...`. */
  lemma MatchLayout(u: string, action: string, path: string, body: string, r: nat, l: nat)
    requires |action| > 0 && 0 < l && !Contains(body, "```")
    requires forall i :: 0 <= i < |action| ==> IsWordChar(action[i])
    requires forall i :: 0 <= i < |path| ==> !IsSpace(path[i])
    requires Layout(u, action, path, body, r, l)
    ensures MatchBlockAt(u) == Some(BlockMatch(action, path, body + "\n", r + l + 9 + |body|))
  {
    SpanLayout(u, action, path, body, r, l);
    LayoutGroups(u, action, path, body, r, l);
    MatchOfSpan(u, |action|, r, l, r + l + 5, r + l + 6 + |body|);
  }

  /** The slices of a laid-out block that the three groups cover. */
  lemma LayoutGroups(u: string, action: string, path: string, body: string, r: nat, l: nat)
    requires Layout(u, action, path, body, r, l)
    ensures u[3..3 + |action|] == action && u[r..r + l] == path
    ensures u[r + l + 5..r + l + 6 + |body|] == body + "\n"
  {
    assert u[r + l + 5..r + l + 6 + |body|] == u[r + l + 5..r + l + 5 + |body|] + [u[r + l + 5 + |body|]];
  }

  /** The groups of a match are the slices its span marks. */
  lemma MatchOfSpan(u: string, w: nat, r: nat, l: nat, lo: nat, hi: nat)
    requires SpanAt(u) == Some(Span(w, r, l, lo, hi))
    ensures MatchBlockAt(u) == Some(BlockMatch(u[3..3 + w], u[r..r + l], u[lo..hi], hi + 3))
  {
  }

  /** The group positions the pattern finds in a laid-out block. */
  lemma SpanLayout(u: string, action: string, path: string, body: string, r: nat, l: nat)
    requires |action| > 0 && 0 < l && !Contains(body, "```")
    requires forall i :: 0 <= i < |action| ==> IsWordChar(action[i])
    requires forall i :: 0 <= i < |path| ==> !IsSpace(path[i])
    requires Layout(u, action, path, body, r, l)
    ensures SpanAt(u) == Some(Span(|action|, r, l, r + l + 5, r + l + 6 + |body|))
  {
    HeadRendered(u, action, path, r, l);
    PathTryRendered(u, |action|, r, l, body);
  }

  /** The lines of a rendered block survive splitting and blank-line trimming. */
  lemma RenderedLines(b: Block)
    requires Renderable(b)
    ensures TrimBlankLines(Lines(Unlines(b.lines) + "\n")) == b.lines
  {
    var ls := b.lines;
    JoinSnoc(ls, "", "\n");
    assert Unlines(ls + [""]) == Unlines(ls) + "\n";
    LinesUnlines(ls + [""]);
    assert DropLeadingBlank(ls + [""]) == ls + [""];
    assert (ls + [""])[..|ls|] == ls;
    assert IsBlank("");
    assert DropTrailingBlank(ls + [""]) == DropTrailingBlank(ls);
  }

  /** `re.finditer` over rendered blocks finds exactly those blocks, one after another. */
  /** `Scan` records a match where there is one and resumes after it. */
  lemma ScanHit(ms: seq<Option<BlockMatch>>, j: nat, m: BlockMatch)
    requires Fits(ms) && j < |ms| && ms[j] == Some(m)
    ensures Scan(ms, j) == [Found(j, m)] + Scan(ms, j + m.len)
  {
  }

  /** `Scan` moves past a position where the pattern fails. */
  lemma ScanMiss(ms: seq<Option<BlockMatch>>, j: nat)
    requires Fits(ms) && j < |ms| && ms[j] == None
    ensures Scan(ms, j) == Scan(ms, j + 1)
  {
  }

  /** A match followed by a failed attempt right after it. */
  lemma ScanHitMiss(ms: seq<Option<BlockMatch>>, j: nat, m: BlockMatch)
    requires Fits(ms) && j < |ms| && ms[j] == Some(m) && ms[j + m.len] == None
    ensures Scan(ms, j) == [Found(j, m)] + Scan(ms, j + m.len + 1)
  {
    ScanHit(ms, j, m);
    ScanMiss(ms, j + m.len);
  }

  /** Splitting rendered blocks, followed by `post`, into the first one and the rest. */
  lemma RenderFirst(t: string, j: nat, bs: seq<Block>, post: string) returns (rest: string)
    requires |bs| > 0 && j <= |t| && t[j..] == Render(bs) + post
    ensures j + |RenderBlock(bs[0])| <= |t|
    ensures t[j..] == RenderBlock(bs[0]) + rest
    ensures |bs| == 1 ==> rest == post && j + |RenderBlock(bs[0])| == |t| - |post|
    ensures |bs| > 1 ==> j + |RenderBlock(bs[0])| < |t|
    ensures |bs| > 1 ==> t[j + |RenderBlock(bs[0])|] == '\n'
    ensures |bs| > 1 ==> t[j + |RenderBlock(bs[0])| + 1..] == Render(bs[1..]) + post
  {
    rest := if |bs| == 1 then post else "\n" + Render(bs[1..]) + post;
    assert t[j..] == RenderBlock(bs[0]) + rest;
    var len := |RenderBlock(bs[0])|;
    assert t[j + len..] == t[j..][len..];
    if |bs| > 1 {
      assert t[j + len] == rest[0];
      assert t[j + len + 1..] == rest[1..];
    }
  }

  /** What the block pattern reports for a rendered block. */
  function RenderedMatch(b: Block): BlockMatch {
    BlockMatch(b.action, b.path, Unlines(b.lines) + "\n", 5 + |b.action| + |b.path| + 9 + |Unlines(b.lines)|)
  }

  /** The first rendered block of `t[j..]`, laid out, and what follows it. */
  lemma RenderedAt(t: string, j: nat, bs: seq<Block>, post: string)
    requires |bs| > 0 && j <= |t| && t[j..] == Render(bs) + post
    ensures Layout(t[j..], bs[0].action, bs[0].path, Unlines(bs[0].lines), 5 + |bs[0].action|, |bs[0].path|)
    ensures j + RenderedMatch(bs[0]).len <= |t|
    ensures |bs| == 1 ==> j + RenderedMatch(bs[0]).len == |t| - |post|
    ensures |bs| > 1 ==> j + RenderedMatch(bs[0]).len < |t|
    ensures |bs| > 1 ==> t[j + RenderedMatch(bs[0]).len] == '\n'
    ensures |bs| > 1 ==> t[j + RenderedMatch(bs[0]).len + 1..] == Render(bs[1..]) + post
  {
    var rest := RenderFirst(t, j, bs, post);
    RenderedLayout(t[j..], bs[0], rest);
  }

  /** The block pattern matches a laid-out block exactly. */
  lemma MatchLaidOut(u: string, b: Block)
    requires Renderable(b)
    requires Layout(u, b.action, b.path, Unlines(b.lines), 5 + |b.action|, |b.path|)
    ensures MatchBlockAt(u) == Some(RenderedMatch(b))
  {
    assert RenderedMatch(b) == BlockMatch(b.action, b.path, Unlines(b.lines) + "\n", 5 + |b.action| + |b.path| + 9 + |Unlines(b.lines)|);
    MatchLayout(u, b.action, b.path, Unlines(b.lines), 5 + |b.action|, |b.path|);
  }

  /** The match of a rendered block reads back as the block. */
  lemma ReadBackRendered(b: Block)
    requires Renderable(b)
    ensures ToBlock(RenderedMatch(b)) == b
  {
    RenderedLines(b);
    LowerNoop(b.action);
  }

  /** The first rendered block is found where it starts, and reads back as itself. */
  lemma FirstRendered(t: string, j: nat, bs: seq<Block>, post: string) returns (m: BlockMatch)
    requires |bs| > 0 && Renderable(bs[0]) && j <= |t| && t[j..] == Render(bs) + post
    ensures Attempts(t)[j] == Some(m) && ToBlock(m) == bs[0] && j + m.len <= |t|
    ensures |bs| == 1 ==> j + m.len == |t| - |post|
    ensures |bs| > 1 ==> j + m.len < |t|
    ensures |bs| > 1 ==> t[j + m.len] == '\n' && t[j + m.len + 1..] == Render(bs[1..]) + post
  {
    RenderedAt(t, j, bs, post);
    MatchLaidOut(t[j..], bs[0]);
    ReadBackRendered(bs[0]);
    m := RenderedMatch(bs[0]);
    assert Attempts(t)[j] == MatchBlockAt(t[j..]);
  }

  /** Every block of `bs` is renderable, stated one block at a time. */
  predicate AllRenderable(bs: seq<Block>)
    decreases |bs|
  {
    |bs| > 0 ==> Renderable(bs[0]) && AllRenderable(bs[1..])
  }

  lemma {:induction false} AllRenderableOf(bs: seq<Block>)
    requires forall k :: 0 <= k < |bs| ==> Renderable(bs[k])
    ensures AllRenderable(bs)
    decreases |bs|
  {
    if |bs| > 0 {
      assert forall k :: 0 <= k < |bs| - 1 ==> bs[1..][k] == bs[k + 1];
      AllRenderableOf(bs[1..]);
    }
  }

  /** `r` found exactly the blocks `bs`, the first at `j`, the last ending at `n`. */
  predicate FoundExactly(r: seq<Found>, bs: seq<Block>, j: nat, n: nat) {
    |r| > 0 && Blocks(r) == bs && r[0].start == j && End(r) == n
  }

  /**
   * Blocks rendered from `j` and followed by `post` are found exactly, and the scan then
   * goes on from the end of the last one.
   */
  lemma {:induction false} ScanRendered(t: string, j: nat, bs: seq<Block>, post: string) returns (fs: seq<Found>)
    requires |bs| > 0 && AllRenderable(bs)
    requires j <= |t| && t[j..] == Render(bs) + post
    requires Fits(Attempts(t))
    ensures FoundExactly(fs, bs, j, |t| - |post|)
    ensures Scan(Attempts(t), j) == fs + Scan(Attempts(t), |t| - |post|)
    decreases |bs|, 1
  {
    var m := FirstRendered(t, j, bs, post);
    ScanHit(Attempts(t), j, m);
    if |bs| == 1 {
      fs := [Found(j, m)];
    } else {
      fs := ScanRenderedMore(t, j, bs, post, m);
    }
  }

  /** The step of `ScanRendered` past a block that is not the last one. */
  lemma {:induction false} ScanRenderedMore(t: string, j: nat, bs: seq<Block>, post: string, m: BlockMatch)
    returns (fs: seq<Found>)
    requires |bs| > 1 && AllRenderable(bs[1..]) && Fits(Attempts(t))
    requires j + m.len < |t| && |post| <= |t| && Attempts(t)[j] == Some(m) && ToBlock(m) == bs[0]
    requires Scan(Attempts(t), j) == [Found(j, m)] + Scan(Attempts(t), j + m.len)
    requires t[j + m.len] == '\n' && t[j + m.len + 1..] == Render(bs[1..]) + post
    ensures FoundExactly(fs, bs, j, |t| - |post|)
    ensures Scan(Attempts(t), j) == fs + Scan(Attempts(t), |t| - |post|)
    decreases |bs|, 0
  {
    NoBlockAtBreak(t, j + m.len);
    ScanMiss(Attempts(t), j + m.len);
    var tail := ScanRendered(t, j + m.len + 1, bs[1..], post);
    fs := [Found(j, m)] + tail;
    FoundExactlyCons(Found(j, m), tail, bs);
  }

  /** A block found in front of the blocks found after it. */
  lemma FoundExactlyCons(f: Found, tail: seq<Found>, bs: seq<Block>)
    requires |bs| > 1 && ToBlock(f.m) == bs[0] && |tail| > 0 && FoundExactly(tail, bs[1..], tail[0].start, End(tail))
    ensures FoundExactly([f] + tail, bs, f.start, End(tail))
  {
    BlocksAppend([f], tail);
    assert Blocks([f]) == [bs[0]];
    assert bs == [bs[0]] + bs[1..];
    EndCons(f, tail);
  }

  /** Nothing matches at the end of the text or at a line break. */
  lemma NoBlockAtBreak(t: string, e: nat)
    requires e < |t| ==> t[e] == '\n'
    requires e <= |t|
    ensures Attempts(t)[e] == None
  {
    assert Attempts(t)[e] == MatchBlockAt(t[e..]);
    if e < |t| {
      assert t[e..][0] == '\n';
    }
  }

  lemma EndCons(f: Found, tail: seq<Found>)
    requires |tail| > 0
    ensures End([f] + tail) == End(tail)
  {
    assert ([f] + tail)[|tail|] == tail[|tail| - 1];
  }

  // ---------------------------------------------------------------------------
  // Text around and between the blocks
  // ---------------------------------------------------------------------------

  /**
   * No match starts at `k` in `t[a..b]` when that region holds no "###" and is followed
   * either by the end of the text or by "###": a marker that starts in the region runs past
   * its end, where `\w+` finds a '#'.
   */
  lemma QuietAt(t: string, a: nat, b: nat, k: nat)
    requires a <= k < b <= |t| && !Contains(t[a..b], "###")
    requires b == |t| || MarkerAt(t[b..])
    ensures MatchBlockAt(t[k..]) == None
  {
    var u := t[k..];
    if MarkerAt(u) {
      if k + 3 <= b {
        assert t[a..b][k - a..k - a + 3] == "###" by {
          assert t[a..b][k - a] == u[0] && t[a..b][k - a + 1] == u[1] && t[a..b][k - a + 2] == u[2];
        }
        ContainsAt(t[a..b], "###", k - a);
      } else {
        assert u[3] == t[b..][k + 3 - b];
      }
    }
  }

  /** `Scan` moves past a region of the text where no match can start. */
  lemma ScanAcross(t: string, a: nat, b: nat)
    requires Fits(Attempts(t)) && a <= b <= |t| && !Contains(t[a..b], "###")
    requires b == |t| || MarkerAt(t[b..])
    ensures Scan(Attempts(t), a) == Scan(Attempts(t), b)
  {
    forall k | a <= k < b
      ensures Attempts(t)[k] == None
    {
      QuietAt(t, a, b, k);
    }
    ScanSkip(Attempts(t), a, b);
  }

  /** Scanning a tail of the text that holds no "###" finds nothing. */
  lemma ScanTail(t: string, e: nat)
    requires Fits(Attempts(t)) && e <= |t| && !Contains(t[e..], "###")
    ensures Scan(Attempts(t), e) == []
  {
    assert t[e..|t|] == t[e..];
    ScanAcross(t, e, |t|);
    NoBlockAtBreak(t, |t|);
    ScanMiss(Attempts(t), |t|);
  }

  /** `Scan` moves past a stretch of failed attempts. */
  lemma {:induction false} ScanSkip(ms: seq<Option<BlockMatch>>, a: nat, b: nat)
    requires Fits(ms) && a <= b <= |ms| && forall k :: a <= k < b ==> ms[k] == None
    ensures Scan(ms, a) == Scan(ms, b)
    decreases b - a
  {
    if a < b {
      ScanMiss(ms, a);
      ScanSkip(ms, a + 1, b);
    }
  }

  /** Rendered blocks start with "###", whatever follows them. */
  lemma RenderMarker(bs: seq<Block>, post: string)
    requires |bs| > 0
    ensures MarkerAt(Render(bs) + post)
  {
    var t := Render(bs) + post;
    assert t[0..] == t;
    var rest := RenderFirst(t, 0, bs, post);
    RenderedHead(bs[0], rest);
  }

  /** Where the three parts of `x + y + z` sit. */
  lemma ThreeParts(x: string, y: string, z: string)
    ensures var t := x + y + z;
            && t[..|x|] == x && t[0..|x|] == x && t[|x|..] == y + z
            && t[|x| + |y|..] == z && |t| - |z| == |x| + |y|
  {
  }

  /** The parsed result once the blocks found are known: the text around them is stripped. */
  lemma ExtractFromFound(t: string, fs: seq<Found>, bs: seq<Block>, s: nat, e: nat)
    requires FindBlocks(t) == fs && FoundExactly(fs, bs, s, e) && s <= e <= |t|
    ensures ExtractInstructions(t)
            == Parsed(bs, if s > 0 then NonEmpty(Strip(t[..s])) else None,
                      if e < |t| then NonEmpty(Strip(t[e..])) else None, CommitName(t))
  {
  }

  /** From the start of rendered blocks followed by text without "###", the scan finds exactly those blocks. */
  lemma ScanRunToEnd(t: string, s: nat, bs: seq<Block>, post: string) returns (fs: seq<Found>)
    requires |bs| > 0 && AllRenderable(bs) && s <= |t| && t[s..] == Render(bs) + post
    requires Fits(Attempts(t)) && !Contains(t[|t| - |post|..], "###")
    ensures Scan(Attempts(t), s) == fs && FoundExactly(fs, bs, s, |t| - |post|)
  {
    fs := ScanRendered(t, s, bs, post);
    ScanTail(t, |t| - |post|);
    assert fs + [] == fs;
  }

  /** From the start of rendered blocks followed by a gap without "###", the scan finds those blocks and goes on after the gap. */
  lemma ScanRunThenGap(t: string, s: nat, bs: seq<Block>, s2: nat) returns (fs: seq<Found>)
    requires |bs| > 0 && AllRenderable(bs) && s + |Render(bs)| <= s2 <= |t|
    requires t[s..] == Render(bs) + t[s + |Render(bs)|..]
    requires Fits(Attempts(t)) && !Contains(t[s + |Render(bs)|..s2], "###") && (s2 == |t| || MarkerAt(t[s2..]))
    ensures Scan(Attempts(t), s) == fs + Scan(Attempts(t), s2) && FoundExactly(fs, bs, s, s + |Render(bs)|)
  {
    var e := s + |Render(bs)|;
    fs := ScanRendered(t, s, bs, t[e..]);
    ScanAcross(t, e, s2);
  }

  /** The blocks `re.finditer` finds in a text that holds rendered blocks from `s` on and no other "###". */
  lemma FindFramed(t: string, s: nat, bs: seq<Block>, post: string) returns (fs: seq<Found>)
    requires |bs| > 0 && AllRenderable(bs) && s <= |t| && t[s..] == Render(bs) + post
    requires !Contains(t[0..s], "###") && !Contains(t[|t| - |post|..], "###")
    ensures FindBlocks(t) == fs && FoundExactly(fs, bs, s, |t| - |post|)
  {
    AttemptsFit(t);
    RenderMarker(bs, post);
    ScanAcross(t, 0, s);
    fs := ScanRunToEnd(t, s, bs, post);
  }

  /**
   * The blocks found in a text that holds two runs of rendered blocks, from `s1` and from
   * `s2`, and no other "###".
   */
  lemma FindTwoRuns(t: string, s1: nat, bs1: seq<Block>, s2: nat, bs2: seq<Block>, post: string)
    returns (fs: seq<Found>)
    requires |bs1| > 0 && AllRenderable(bs1) && |bs2| > 0 && AllRenderable(bs2)
    requires s1 + |Render(bs1)| <= s2 <= |t|
    requires t[s1..] == Render(bs1) + t[s1 + |Render(bs1)|..] && t[s2..] == Render(bs2) + post
    requires !Contains(t[0..s1], "###") && !Contains(t[s1 + |Render(bs1)|..s2], "###")
    requires !Contains(t[|t| - |post|..], "###")
    ensures FindBlocks(t) == fs && FoundExactly(fs, bs1 + bs2, s1, |t| - |post|)
  {
    AttemptsFit(t);
    RenderMarker(bs1, t[s1 + |Render(bs1)|..]);
    RenderMarker(bs2, post);
    ScanAcross(t, 0, s1);
    var fs1 := ScanRunThenGap(t, s1, bs1, s2);
    var fs2 := ScanRunToEnd(t, s2, bs2, post);
    fs := fs1 + fs2;
    TwoRunsFound(fs1, fs2, bs1, bs2, s1, |t| - |post|);
  }

  /** `FindTwoRuns` on a text made of its parts. */
  lemma FindInterleaved(pre: string, bs1: seq<Block>, mid: string, bs2: seq<Block>, post: string)
    returns (fs: seq<Found>)
    requires |bs1| > 0 && AllRenderable(bs1) && |bs2| > 0 && AllRenderable(bs2)
    requires !Contains(pre, "###") && !Contains(mid, "###") && !Contains(post, "###")
    ensures var t := pre + Render(bs1) + mid + Render(bs2) + post;
            FindBlocks(t) == fs && FoundExactly(fs, bs1 + bs2, |pre|, |t| - |post|)
  {
    var t := pre + Render(bs1) + mid + Render(bs2) + post;
    FiveParts(pre, Render(bs1), mid, Render(bs2), post);
    fs := FindTwoRuns(t, |pre|, bs1, |pre| + |Render(bs1)| + |mid|, bs2, post);
  }

  /** Two runs of blocks found one after the other are the blocks of both runs. */
  lemma TwoRunsFound(fs1: seq<Found>, fs2: seq<Found>, bs1: seq<Block>, bs2: seq<Block>, s: nat, e: nat)
    requires |fs1| > 0 && FoundExactly(fs1, bs1, s, End(fs1)) && |fs2| > 0 && FoundExactly(fs2, bs2, fs2[0].start, e)
    ensures FoundExactly(fs1 + fs2, bs1 + bs2, s, e)
  {
    BlocksAppend(fs1, fs2);
    EndAppend(fs1, fs2);
  }

  /**
   * Text without "###" before and after rendered blocks does not change the blocks found:
   * the text before them, stripped, is the preamble and the text after them, stripped, the
   * postamble (each `None` when it strips to nothing).
   */
  lemma ParseFramed(pre: string, bs: seq<Block>, post: string)
    requires |bs| > 0 && forall k :: 0 <= k < |bs| ==> Renderable(bs[k])
    requires !Contains(pre, "###") && !Contains(post, "###")
    ensures var text := pre + Render(bs) + post;
            ExtractInstructions(text) == Parsed(bs, NonEmpty(Strip(pre)), NonEmpty(Strip(post)), CommitName(text))
  {
    var t := pre + Render(bs) + post;
    ThreeParts(pre, Render(bs), post);
    AllRenderableOf(bs);
    var fs := FindFramed(t, |pre|, bs, post);
    ExtractFromFound(t, fs, bs, |pre|, |pre| + |Render(bs)|);
    assert Strip("") == "";
  }

  /**
   * Text without "###" between two runs of rendered blocks is neither a block nor part of the
   * preamble or the postamble: the blocks of both runs are found, in order.
   */
  lemma ParseInterleaved(pre: string, bs1: seq<Block>, mid: string, bs2: seq<Block>, post: string)
    requires |bs1| > 0 && forall k :: 0 <= k < |bs1| ==> Renderable(bs1[k])
    requires |bs2| > 0 && forall k :: 0 <= k < |bs2| ==> Renderable(bs2[k])
    requires !Contains(pre, "###") && !Contains(mid, "###") && !Contains(post, "###")
    ensures var text := pre + Render(bs1) + mid + Render(bs2) + post;
            ExtractInstructions(text) == Parsed(bs1 + bs2, NonEmpty(Strip(pre)), NonEmpty(Strip(post)), CommitName(text))
  {
    var t := pre + Render(bs1) + mid + Render(bs2) + post;
    FiveParts(pre, Render(bs1), mid, Render(bs2), post);
    AllRenderableOf(bs1);
    AllRenderableOf(bs2);
    var fs := FindInterleaved(pre, bs1, mid, bs2, post);
    ExtractFromFound(t, fs, bs1 + bs2, |pre|, |t| - |post|);
    assert Strip("") == "";
  }

  /** Where the five parts of `a + x + b + y + c` sit. */
  lemma FiveParts(a: string, x: string, b: string, y: string, c: string)
    ensures var t := a + x + b + y + c;
            var e1 := |a| + |x|;
            && t[0..|a|] == a && t[..|a|] == a && t[|a|..] == x + t[e1..]
            && t[e1..e1 + |b|] == b && t[e1 + |b|..] == y + c
            && |t| - |c| == e1 + |b| + |y| && t[|t| - |c|..] == c
  {
    var t := a + x + b + y + c;
    var e1 := |a| + |x|;
    assert t == a + x + (b + y + c);
    assert t[e1..] == b + y + c;
    assert t[e1 + |b|..] == t[e1..][|b|..];
    assert t[e1..e1 + |b|] == t[e1..][..|b|];
  }

  lemma BlocksAppend(a: seq<Found>, b: seq<Found>)
    ensures Blocks(a + b) == Blocks(a) + Blocks(b)
  {
  }

  lemma EndAppend(a: seq<Found>, b: seq<Found>)
    requires |b| > 0
    ensures End(a + b) == End(b)
  {
    assert (a + b)[|a + b| - 1] == b[|b| - 1];
  }

  /**
   * Parsing rendered blocks gives them back, with no preamble and no postamble: the parser
   * is a left inverse of the block syntax.
   */
  lemma ParseRender(bs: seq<Block>)
    requires |bs| > 0 && forall k :: 0 <= k < |bs| ==> Renderable(bs[k])
    ensures var p := ExtractInstructions(Render(bs));
            p.blocks == bs && p.preamble == None && p.postamble == None
  {
    assert "" + Render(bs) + "" == Render(bs);
    assert !Contains("", "###");
    ParseFramed("", bs, "");
  }
}