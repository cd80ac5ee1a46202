/**
 * Python `str` operations on `string` (a `seq<char>`), restricted to ASCII text
 * whose only line break is '\n'.
 */
module Text {

  /** `str.isspace` on one ASCII character: space, \t \n \v \f \r and 0x1c..0x1f. */
  predicate IsSpace(c: char) {
    c == ' ' || (9 <= c as int <= 13) || (28 <= c as int <= 31)
  }

  /** `\w` on ASCII: letters, digits and '_'. */
  predicate IsWordChar(c: char) {
    ('a' <= c <= 'z') || ('A' <= c <= 'Z') || ('0' <= c <= '9') || c == '_'
  }

  /** True when every character is whitespace (so `s.strip()` is empty). */
  predicate IsBlank(s: string) {
    forall i :: 0 <= i < |s| ==> IsSpace(s[i])
  }

  /** `s.lstrip()`: the suffix after the longest all-whitespace prefix. */
  function LStrip(s: string): (r: string)
    ensures |r| <= |s| && r == s[|s| - |r|..]
    ensures r == [] || !IsSpace(r[0])
    ensures IsBlank(s[..|s| - |r|])
  {
    if |s| > 0 && IsSpace(s[0]) then
      var r := LStrip(s[1..]);
      assert s[..|s| - |r|] == [s[0]] + s[1..][..|s| - 1 - |r|];
      r
    else s
  }

  /** `s.rstrip()`: the prefix before the longest all-whitespace suffix. */
  function RStrip(s: string): (r: string)
    ensures |r| <= |s| && r == s[..|r|]
    ensures r == [] || !IsSpace(r[|r| - 1])
    ensures IsBlank(s[|r|..])
  {
    if |s| > 0 && IsSpace(s[|s| - 1]) then
      var r := RStrip(s[..|s| - 1]);
      assert s[|r|..] == s[..|s| - 1][|r|..] + [s[|s| - 1]];
      r
    else s
  }

  /** `s.strip()`. */
  function Strip(s: string): string {
    RStrip(LStrip(s))
  }

  lemma {:induction false} BlankLStrip(s: string)
    requires IsBlank(s)
    ensures LStrip(s) == []
  {
    if |s| > 0 {
      BlankLStrip(s[1..]);
    }
  }

  lemma {:induction false} NonBlankLStrip(s: string)
    requires !IsBlank(s)
    ensures LStrip(s) != [] && !IsSpace(LStrip(s)[0])
  {
    if |s| > 0 && IsSpace(s[0]) {
      NonBlankLStrip(s[1..]);
    }
  }

  lemma {:induction false} RStripKeepsHead(s: string)
    requires |s| > 0 && !IsSpace(s[0])
    ensures RStrip(s) != [] && RStrip(s)[0] == s[0]
  {
    if IsSpace(s[|s| - 1]) {
      RStripKeepsHead(s[..|s| - 1]);
    }
  }

  lemma StripEmptyIffBlank(s: string)
    ensures Strip(s) == [] <==> IsBlank(s)
  {
    if IsBlank(s) {
      BlankLStrip(s);
    } else {
      NonBlankLStrip(s);
      RStripKeepsHead(LStrip(s));
    }
  }

  /** The ends of a stripped string are not whitespace. */
  lemma StripEnds(s: string)
    ensures Strip(s) == [] || (!IsSpace(Strip(s)[0]) && !IsSpace(Strip(s)[|Strip(s)| - 1]))
  {
    var l := LStrip(s);
    var r := RStrip(l);
    if r != [] {
      assert r[0] == l[0];
    }
  }

  /** Strip removes nothing from a string whose ends are not whitespace. */
  lemma StripNoop(s: string)
    requires s == [] || (!IsSpace(s[0]) && !IsSpace(s[|s| - 1]))
    ensures Strip(s) == s
  {
  }

  lemma StripIdempotent(s: string)
    ensures Strip(Strip(s)) == Strip(s)
  {
    StripEnds(s);
    StripNoop(Strip(s));
  }

  /** `s.strip(c)` for one character `c`. */
  function StripChar(s: string, c: char): (r: string)
    ensures |r| <= |s|
    ensures r == [] || (r[0] != c && r[|r| - 1] != c)
    ensures forall i :: 0 <= i < |r| ==> r[i] in s
  {
    if |s| > 0 && s[0] == c then StripChar(s[1..], c)
    else if |s| > 0 && s[|s| - 1] == c then StripChar(s[..|s| - 1], c)
    else s
  }

  /** `str.lower()` on ASCII. */
  function LowerChar(c: char): char {
    if 'A' <= c <= 'Z' then (c as int + 32) as char else c
  }

  function Lower(s: string): (r: string)
    ensures |r| == |s| && forall i :: 0 <= i < |s| ==> r[i] == LowerChar(s[i])
  {
    seq(|s|, i requires 0 <= i < |s| => LowerChar(s[i]))
  }

  /** Lowercasing a string without uppercase letters changes nothing. */
  lemma LowerNoop(s: string)
    requires forall i :: 0 <= i < |s| ==> !('A' <= s[i] <= 'Z')
    ensures Lower(s) == s
  {
  }

  /** `s.startswith(p)`. */
  predicate StartsWith(s: string, p: string) {
    p <= s
  }

  /** `s.endswith(p)`. */
  predicate EndsWith(s: string, p: string) {
    |p| <= |s| && s[|s| - |p|..] == p
  }

  /** `sub` occurs in `s` starting at index `i`. */
  predicate OccursAt(s: string, sub: string, i: nat) {
    i <= |s| && sub <= s[i..]
  }

  /** `sub in s`. */
  predicate Contains(s: string, sub: string) {
    exists i :: 0 <= i <= |s| && OccursAt(s, sub, i)
  }

  lemma ContainsAt(s: string, sub: string, i: nat)
    requires i + |sub| <= |s| && s[i..i + |sub|] == sub
    ensures Contains(s, sub)
  {
    assert s[i..][..|sub|] == sub;
    assert OccursAt(s, sub, i);
  }

  lemma ContainsWitness(s: string, sub: string) returns (i: nat)
    requires Contains(s, sub)
    ensures i + |sub| <= |s| && s[i..i + |sub|] == sub
  {
    i :| 0 <= i <= |s| && OccursAt(s, sub, i);
    assert s[i..][..|sub|] == s[i..i + |sub|];
  }

  /** An occurrence inside `x` is an occurrence inside any string that has `x` in the middle. */
  lemma ContainsInfix(a: string, x: string, b: string, sub: string)
    requires Contains(x, sub)
    ensures Contains(a + x + b, sub)
  {
    var i := ContainsWitness(x, sub);
    assert (a + x + b)[|a| + i..|a| + i + |sub|] == x[i..i + |sub|];
    ContainsAt(a + x + b, sub, |a| + i);
  }

  /** `lstrip` keeps every character from the first non-whitespace one on. */
  lemma {:induction false} LStripKeeps(s: string, k: nat)
    requires k < |s| && !IsSpace(s[k])
    ensures |s| - |LStrip(s)| <= k
    decreases |s|
  {
    if IsSpace(s[0]) {
      LStripKeeps(s[1..], k - 1);
    }
  }

  /** `rstrip` keeps every character up to the last non-whitespace one. */
  lemma {:induction false} RStripKeeps(s: string, k: nat)
    requires k < |s| && !IsSpace(s[k])
    ensures k < |RStrip(s)|
    decreases |s|
  {
    if IsSpace(s[|s| - 1]) {
      RStripKeeps(s[..|s| - 1], k);
    }
  }

  lemma LStripKeepsAt(s: string, sub: string, i: nat) returns (j: nat)
    requires i + |sub| <= |s| && s[i..i + |sub|] == sub && |sub| > 0 && !IsSpace(sub[0])
    ensures j + |sub| <= |LStrip(s)| && LStrip(s)[j..j + |sub|] == sub
  {
    assert s[i] == sub[0];
    LStripKeeps(s, i);
    var l := LStrip(s);
    var d := |s| - |l|;
    j := i - d;
    assert l[j..j + |sub|] == s[d..][j..j + |sub|];
  }

  lemma RStripKeepsAt(s: string, sub: string, i: nat)
    requires i + |sub| <= |s| && s[i..i + |sub|] == sub && |sub| > 0 && !IsSpace(sub[|sub| - 1])
    ensures i + |sub| <= |RStrip(s)| && RStrip(s)[i..i + |sub|] == sub
  {
    assert s[i + |sub| - 1] == sub[|sub| - 1];
    RStripKeeps(s, i + |sub| - 1);
    var r := RStrip(s);
    assert r[i..i + |sub|] == s[..|r|][i..i + |sub|];
  }

  /** Stripping never removes an occurrence of a substring whose two ends are not whitespace. */
  lemma StripKeepsInfix(s: string, sub: string)
    requires Contains(s, sub) && |sub| > 0 && !IsSpace(sub[0]) && !IsSpace(sub[|sub| - 1])
    ensures Contains(Strip(s), sub)
  {
    var i := ContainsWitness(s, sub);
    var j := LStripKeepsAt(s, sub, i);
    RStripKeepsAt(LStrip(s), sub, j);
    ContainsAt(Strip(s), sub, j);
  }

  lemma NotContainsChar(s: string, sub: string, c: char)
    requires |sub| > 0 && sub[0] == c && c !in s
    ensures !Contains(s, sub)
  {
    forall i | 0 <= i <= |s|
      ensures !OccursAt(s, sub, i)
    {
      if i < |s| {
        assert s[i] in s;
        assert s[i..][0] == s[i];
      }
    }
  }

  /** `s.split(sep)` for a non-empty separator: always at least one piece. */
  function SplitOn(s: string, sep: string): (r: seq<string>)
    requires |sep| > 0
    ensures |r| >= 1
    decreases |s|
  {
    if sep <= s then [""] + SplitOn(s[|sep|..], sep)
    else if s == [] then [""]
    else
      var t := SplitOn(s[1..], sep);
      [[s[0]] + t[0]] + t[1..]
  }

  /** `s.split('\n')`. */
  function Lines(s: string): (r: seq<string>)
    ensures |r| >= 1
  {
    SplitOn(s, "\n")
  }

  /** `sep.join(parts)`. */
  function Join(parts: seq<string>, sep: string): string {
    if |parts| == 0 then ""
    else if |parts| == 1 then parts[0]
    else parts[0] + sep + Join(parts[1..], sep)
  }

  /** `'\n'.join(parts)`. */
  function Unlines(parts: seq<string>): string {
    Join(parts, "\n")
  }

  lemma {:induction false} LinesHaveNoNewline(s: string)
    ensures forall k :: 0 <= k < |Lines(s)| ==> '\n' !in Lines(s)[k]
    decreases |s|
  {
    if "\n" <= s {
      LinesHaveNoNewline(s[1..]);
      assert Lines(s) == [""] + Lines(s[1..]);
    } else if s != [] {
      var t := Lines(s[1..]);
      LinesHaveNoNewline(s[1..]);
      assert s[0] != '\n' by { assert [s[0]] == s[..1]; }
      assert Lines(s) == [[s[0]] + t[0]] + t[1..];
      assert '\n' !in [s[0]] + t[0];
      forall k | 0 <= k < |Lines(s)|
        ensures '\n' !in Lines(s)[k]
      {
        if k > 0 {
          assert Lines(s)[k] == t[k];
        }
      }
    }
  }

  /** The first piece of a split is a prefix of the string. */
  lemma {:induction false} FirstLinePrefix(s: string)
    ensures Lines(s)[0] <= s
    decreases |s|
  {
    if !("\n" <= s) && s != [] {
      FirstLinePrefix(s[1..]);
      assert s == [s[0]] + s[1..];
    }
  }

  /** Every piece of a split sits inside the string: `s == a + piece + b`. */
  lemma {:induction false} LinePiece(s: string, k: nat) returns (a: string, b: string)
    requires k < |Lines(s)|
    ensures a + Lines(s)[k] + b == s
    decreases |s|
  {
    if k == 0 {
      FirstLinePrefix(s);
      a, b := "", s[|Lines(s)[0]|..];
      assert s == s[..|Lines(s)[0]|] + b;
    } else if "\n" <= s {
      assert Lines(s) == [""] + Lines(s[1..]);
      var a', b' := LinePiece(s[1..], k - 1);
      a, b := "\n" + a', b';
      assert s == [s[0]] + s[1..];
    } else {
      var t := Lines(s[1..]);
      assert Lines(s) == [[s[0]] + t[0]] + t[1..];
      assert Lines(s)[k] == t[k];
      var a', b' := LinePiece(s[1..], k);
      a, b := [s[0]] + a', b';
      assert s == [s[0]] + s[1..];
    }
  }

  /** Joining a piece in front of at least one more piece puts the separator between them. */
  lemma UnlinesCons(a: string, rest: seq<string>)
    requires |rest| > 0
    ensures Unlines([a] + rest) == a + "\n" + Unlines(rest)
  {
    assert ([a] + rest)[1..] == rest;
  }

  /** Joining one more piece appends the separator and the piece. */
  lemma {:induction false} JoinSnoc(ps: seq<string>, x: string, sep: string)
    requires |ps| >= 1
    ensures Join(ps + [x], sep) == Join(ps, sep) + sep + x
    decreases |ps|
  {
    if |ps| > 1 {
      assert (ps + [x])[1..] == ps[1..] + [x];
      JoinSnoc(ps[1..], x, sep);
    }
  }

  /** Joining the pieces of a split gives the string back. */
  lemma {:induction false} UnlinesLines(s: string)
    ensures Unlines(Lines(s)) == s
    decreases |s|
  {
    if "\n" <= s {
      UnlinesLines(s[1..]);
      assert s == "\n" + s[1..];
    } else if s != [] {
      var t := Lines(s[1..]);
      UnlinesLines(s[1..]);
      assert s == [s[0]] + s[1..];
      if |t| == 1 {
      } else {
        assert t == [t[0]] + t[1..];
        assert Unlines(t) == t[0] + "\n" + Unlines(t[1..]);
      }
    }
  }

  /** Splitting a string that starts with a newline-free piece `a`. */
  lemma {:induction false} LinesPrefix(a: string, rest: string)
    requires '\n' !in a
    ensures Lines(a + rest) == [a + Lines(rest)[0]] + Lines(rest)[1..]
    decreases |a|
  {
    if a != [] {
      assert (a + rest)[1..] == a[1..] + rest;
      assert !("\n" <= a + rest) by { assert (a + rest)[0] == a[0]; }
      LinesPrefix(a[1..], rest);
      assert [a[0]] + (a[1..] + Lines(rest)[0]) == a + Lines(rest)[0];
    } else {
      assert a + rest == rest;
      var t := Lines(rest);
      assert t == [t[0]] + t[1..];
      assert a + t[0] == t[0];
    }
  }

  /** Splitting the join of newline-free pieces gives the pieces back. */
  lemma {:induction false} LinesUnlines(ps: seq<string>)
    requires |ps| >= 1
    requires forall k :: 0 <= k < |ps| ==> '\n' !in ps[k]
    ensures Lines(Unlines(ps)) == ps
    decreases |ps|
  {
    if |ps| == 1 {
      LinesPrefix(ps[0], "");
      assert ps[0] + "" == ps[0];
    } else {
      var rest := "\n" + Unlines(ps[1..]);
      assert Unlines(ps) == ps[0] + rest;
      LinesPrefix(ps[0], rest);
      LinesUnlines(ps[1..]);
      assert "\n" <= rest;
      assert rest[1..] == Unlines(ps[1..]);
      assert Lines(rest) == [""] + ps[1..];
      assert ps[0] + "" == ps[0];
    }
  }

  /** `old.replace(...)`-style left-to-right replacement of every non-overlapping `pat`. */
  function Replace(s: string, pat: string, rep: string): string
    requires |pat| > 0
    decreases |s|
  {
    if pat <= s then rep + Replace(s[|pat|..], pat, rep)
    else if s == [] then []
    else [s[0]] + Replace(s[1..], pat, rep)
  }

  /** Replacement introduces a character only through the replacement text. */
  lemma {:induction false} ReplaceKeepsOut(s: string, pat: string, rep: string, c: char)
    requires |pat| > 0 && c !in s && c !in rep
    ensures c !in Replace(s, pat, rep)
    decreases |s|
  {
    if pat <= s {
      ReplaceKeepsOut(s[|pat|..], pat, rep, c);
    } else if s != [] {
      ReplaceKeepsOut(s[1..], pat, rep, c);
    }
  }

  /** Replacing a one-character pattern removes every occurrence of it when the replacement lacks it. */
  lemma {:induction false} ReplaceRemoves(s: string, c: char, rep: string)
    requires c !in rep
    ensures c !in Replace(s, [c], rep)
    decreases |s|
  {
    if [c] <= s {
      ReplaceRemoves(s[1..], c, rep);
    } else if s != [] {
      assert s[0] != c;
      ReplaceRemoves(s[1..], c, rep);
    }
  }

  /** Replacement changes nothing in a string that lacks the pattern's first character. */
  lemma {:induction false} ReplaceAbsent(s: string, pat: string, rep: string)
    requires |pat| > 0 && pat[0] !in s
    ensures Replace(s, pat, rep) == s
    decreases |s|
  {
    if s != [] {
      assert s[0] in s;
      ReplaceAbsent(s[1..], pat, rep);
      assert s == [s[0]] + s[1..];
    }
  }

  lemma {:induction false} RStripBlankTail(x: string, w: string)
    requires x != [] && !IsSpace(x[|x| - 1]) && IsBlank(w)
    ensures RStrip(x + w) == x
    decreases |w|
  {
    if w != [] {
      assert (x + w)[..|x + w| - 1] == x + w[..|w| - 1];
      RStripBlankTail(x, w[..|w| - 1]);
    } else {
      assert x + w == x;
    }
  }

  /** Stripping a text that starts and ends with non-whitespace, followed by whitespace, gives the text. */
  lemma StripBlankTail(x: string, w: string)
    requires x != [] && !IsSpace(x[0]) && !IsSpace(x[|x| - 1]) && IsBlank(w)
    ensures Strip(x + w) == x
  {
    assert (x + w)[0] == x[0];
    RStripBlankTail(x, w);
  }

  /** The longest prefix free of whitespace. */
  function NonSpacePrefix(s: string): (r: string)
    ensures r <= s && (|r| < |s| ==> IsSpace(s[|r|]))
    ensures |s| > 0 && !IsSpace(s[0]) ==> |r| > 0
    ensures forall i :: 0 <= i < |r| ==> !IsSpace(r[i])
  {
    if |s| > 0 && !IsSpace(s[0]) then [s[0]] + NonSpacePrefix(s[1..]) else []
  }

  /** `s.split()`: the maximal runs of non-whitespace characters. */
  function Words(s: string): seq<string>
    decreases |s|
  {
    var t := LStrip(s);
    if t == [] then []
    else
      WordsStep(s);
      var w := NonSpacePrefix(t);
      [w] + Words(t[|w|..])
  }

  lemma WordsStep(s: string)
    requires LStrip(s) != []
    ensures 0 < |NonSpacePrefix(LStrip(s))| <= |LStrip(s)| <= |s|
  {
    var t := LStrip(s);
    assert !IsSpace(t[0]);
  }

  /** The first word is the non-whitespace run that starts after the leading whitespace. */
  lemma FirstWord(s: string)
    requires !IsBlank(s)
    ensures Words(s) != [] && Words(s)[0] == NonSpacePrefix(LStrip(s))
  {
    NonBlankLStrip(s);
  }

  /** A blank string has no words (so `s.split()[0]` raises IndexError). */
  lemma BlankNoWords(s: string)
    requires IsBlank(s)
    ensures Words(s) == []
  {
    BlankLStrip(s);
  }

  /** A non-empty sequence is its front and its last element. */
  lemma InitLast<T>(s: seq<T>)
    requires |s| > 0
    ensures s[..|s| - 1] + [s[|s| - 1]] == s
  {
  }

  /** An occurrence of `a + b` is an occurrence of `a`. */
  lemma ContainsPrefixOf(s: string, a: string, b: string)
    requires Contains(s, a + b)
    ensures Contains(s, a)
  {
    var i := ContainsWitness(s, a + b);
    assert s[i..i + |a|] == (a + b)[..|a|];
    ContainsAt(s, a, i);
  }

  /** Lowercasing keeps every occurrence, lowercased. */
  lemma LowerContains(s: string, sub: string)
    requires Contains(s, sub)
    ensures Contains(Lower(s), Lower(sub))
  {
    var i := ContainsWitness(s, sub);
    assert Lower(s)[i..i + |sub|] == Lower(sub);
    ContainsAt(Lower(s), Lower(sub), i);
  }

  /** An occurrence after the first character is an occurrence. */
  lemma ContainsTail(s: string, sub: string)
    requires |s| > 0 && Contains(s[1..], sub)
    ensures Contains(s, sub)
  {
    var i := ContainsWitness(s[1..], sub);
    assert s[i + 1..i + 1 + |sub|] == s[1..][i..i + |sub|];
    ContainsAt(s, sub, i + 1);
  }

  /** An occurrence that is not at the start is an occurrence after the first character. */
  lemma ContainsNotAtStart(s: string, sub: string)
    requires |s| > 0 && |sub| > 0 && Contains(s, sub) && !(sub <= s)
    ensures Contains(s[1..], sub)
  {
    var i := ContainsWitness(s, sub);
    if i == 0 {
      assert false;
    }
    assert s[1..][i - 1..i - 1 + |sub|] == s[i..i + |sub|];
    ContainsAt(s[1..], sub, i - 1);
  }

  /** Without an occurrence of `sep`, `s.split(sep)` is `[s]`. */
  lemma {:induction false} SplitAbsent(s: string, sep: string)
    requires |sep| > 0 && !Contains(s, sep)
    ensures SplitOn(s, sep) == [s]
    decreases |s|
  {
    if sep <= s {
      ContainsAt(s, sep, 0);
    } else if s != [] {
      if Contains(s[1..], sep) {
        ContainsTail(s, sep);
      }
      SplitAbsent(s[1..], sep);
      assert s == [s[0]] + s[1..];
    }
  }

  lemma ConcatAssoc<T>(a: seq<T>, b: seq<T>, c: seq<T>)
    ensures a + b + c == a + (b + c)
  {
  }

  /** The pieces of a text that starts with `sep` are an empty piece and those of the rest. */
  lemma SplitAtStart(s: string, sep: string)
    requires |sep| > 0 && sep <= s
    ensures s == sep + s[|sep|..]
    ensures SplitOn(s, sep) == [""] + SplitOn(s[|sep|..], sep)
  {
  }

  /** Otherwise the first character joins the first piece of the rest. */
  lemma SplitAfterFirst(s: string, sep: string)
    requires |sep| > 0 && !(sep <= s) && s != []
    ensures s == [s[0]] + s[1..]
    ensures var t := SplitOn(s[1..], sep);
            SplitOn(s, sep) == [[s[0]] + t[0]] + t[1..]
  {
  }

  /** With an occurrence, there are two pieces or more and the last follows the last occurrence. */
  lemma {:induction false} SplitPresent(s: string, sep: string) returns (p: string)
    requires |sep| > 0 && Contains(s, sep)
    ensures |SplitOn(s, sep)| >= 2
    ensures s == p + (sep + SplitOn(s, sep)[|SplitOn(s, sep)| - 1])
    decreases |s|, 1
  {
    if sep <= s {
      p := SplitPresentAtStart(s, sep);
    } else {
      ContainsNotAtStart(s, sep);
      p := SplitPresentLater(s, sep);
    }
  }

  /** `SplitPresent` when `s` starts with `sep`. */
  lemma {:induction false} SplitPresentAtStart(s: string, sep: string) returns (p: string)
    requires |sep| > 0 && sep <= s
    ensures |SplitOn(s, sep)| >= 2
    ensures s == p + (sep + SplitOn(s, sep)[|SplitOn(s, sep)| - 1])
    decreases |s|, 0
  {
    var rest := s[|sep|..];
    var t := SplitOn(rest, sep);
    SplitAtStart(s, sep);
    if Contains(rest, sep) {
      var p' := SplitPresent(rest, sep);
      p := sep + p';
      ConcatAssoc(sep, p', sep + t[|t| - 1]);
    } else {
      SplitAbsent(rest, sep);
      p := "";
    }
  }

  /** `SplitPresent` when the occurrence comes after the first character. */
  lemma {:induction false} SplitPresentLater(s: string, sep: string) returns (p: string)
    requires |sep| > 0 && s != [] && !(sep <= s) && Contains(s[1..], sep)
    ensures |SplitOn(s, sep)| >= 2
    ensures s == p + (sep + SplitOn(s, sep)[|SplitOn(s, sep)| - 1])
    decreases |s|, 0
  {
    var t := SplitOn(s[1..], sep);
    var p' := SplitPresent(s[1..], sep);
    SplitAfterFirst(s, sep);
    p := [s[0]] + p';
    ConcatAssoc([s[0]], p', sep + t[|t| - 1]);
  }

  /** The last piece of `s.split(sep)` holds no occurrence of `sep`. */
  lemma {:induction false} SplitLastClean(s: string, sep: string)
    requires |sep| > 0
    ensures var r := SplitOn(s, sep); !Contains(r[|r| - 1], sep)
    decreases |s|, 1
  {
    if !Contains(s, sep) {
      SplitAbsent(s, sep);
    } else if sep <= s {
      SplitLastCleanAtStart(s, sep);
    } else {
      ContainsNotAtStart(s, sep);
      SplitLastCleanLater(s, sep);
    }
  }

  /** `SplitLastClean` when `s` starts with `sep`. */
  lemma {:induction false} SplitLastCleanAtStart(s: string, sep: string)
    requires |sep| > 0 && sep <= s
    ensures var r := SplitOn(s, sep); !Contains(r[|r| - 1], sep)
    decreases |s|, 0
  {
    SplitLastClean(s[|sep|..], sep);
    SplitAtStart(s, sep);
  }

  /** `SplitLastClean` when the first occurrence comes after the first character. */
  lemma {:induction false} SplitLastCleanLater(s: string, sep: string)
    requires |sep| > 0 && s != [] && !(sep <= s) && Contains(s[1..], sep)
    ensures var r := SplitOn(s, sep); !Contains(r[|r| - 1], sep)
    decreases |s|, 0
  {
    var _ := SplitPresent(s[1..], sep);
    SplitLastClean(s[1..], sep);
    SplitAfterFirst(s, sep);
  }

  /** `os.path.basename(p)`: the text after the last '/'. */
  function Basename(p: string): (r: string)
    ensures '/' !in r && EndsWith(p, r)
  {
    if p == [] || p[|p| - 1] == '/' then []
    else Basename(p[..|p| - 1]) + [p[|p| - 1]]
  }

  /** `os.path.join(root, p)` for POSIX paths: an absolute `p` replaces the root. */
  function PathJoin(root: string, p: string): string {
    if StartsWith(p, "/") || root == [] then p
    else if EndsWith(root, "/") then root + p
    else root + "/" + p
  }

  /** `str(n)` for a natural number: its decimal digits, most significant first. */
  function NatToString(n: nat): (r: string)
    ensures |r| > 0 && forall i :: 0 <= i < |r| ==> '0' <= r[i] <= '9'
  {
    if n < 10 then [(48 + n) as char] else NatToString(n / 10) + [(48 + n % 10) as char]
  }
}
