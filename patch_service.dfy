/**
 * Size-tiered patch application (my_engineer/patch_processor/src/patch_service.py): the token
 * count of the original file picks a model tier, the model is asked for the whole updated file,
 * and the updated content is cut out of the fenced block of its reply.
 *
 * The token counter and the model are outside the model: the count is a parameter, and the
 * model's reply is a function of the tier and of the two texts the prompt template embeds.
 */
module PatchService {
  import opened Wrappers
  import opened Text

  const HaikuTokenLimit: nat := 3500
  const SonnetTokenLimit: nat := 7500

  datatype Tier = Haiku | Sonnet

  /** The errors `apply_patch` raises: the two `ValueError`s, and a failure of the model call. */
  datatype PatchError =
    | TooLarge(tokenCount: nat)
    | MalformedOutput
    | ProviderFailure(reason: string)

  /** The template each tier loads: both load the same file. */
  function PromptFile(t: Tier): string {
    match t
    case Haiku => "haiku_prompt.txt"
    case Sonnet => "haiku_prompt.txt"
  }

  /** The message of `MalformedOutput`. */
  const MalformedMessage := "LLM response does not contain properly formatted updated content"

  /** The tier chosen for a token count, or the too-large error when no tier fits. */
  function SelectTier(count: nat): (r: Result<Tier, PatchError>)
    ensures r == Success(Haiku) <==> count <= HaikuTokenLimit
    ensures r == Success(Sonnet) <==> HaikuTokenLimit < count <= SonnetTokenLimit
    ensures r == Failure(TooLarge(count)) <==> SonnetTokenLimit < count
  {
    if count <= HaikuTokenLimit then Success(Haiku)
    else if count <= SonnetTokenLimit then Success(Sonnet)
    else Failure(TooLarge(count))
  }

  // ---------------------------------------------------------------------------
  // Cutting the updated content out of the reply
  // ---------------------------------------------------------------------------

  /**
   * A line whose stripped form starts with ``` opens or closes the fenced block: after its
   * leading whitespace it starts with ``` (`FenceLineIsStripped` ties this to `strip`).
   */
  predicate IsFence(line: string) {
    if |line| > 0 && IsSpace(line[0]) then IsFence(line[1..]) else StartsWith(line, "```")
  }

  /** `next(i for i, line in enumerate(ls) if ...)` from index `i` on. */
  function FirstFence(ls: seq<string>, i: nat): (r: Option<nat>)
    requires i <= |ls|
    ensures r.Some? ==> i <= r.value < |ls| && IsFence(ls[r.value])
    ensures forall k :: i <= k < (if r.Some? then r.value else |ls|) ==> !IsFence(ls[k])
    decreases |ls| - i
  {
    if i == |ls| then None
    else if IsFence(ls[i]) then Some(i)
    else FirstFence(ls, i + 1)
  }

  /** The same search over `reversed(ls)`: `e` counts from the last line backwards. */
  function LastFence(ls: seq<string>, e: nat): (r: Option<nat>)
    requires e <= |ls|
    ensures r.Some? ==> e <= r.value < |ls| && IsFence(ls[|ls| - 1 - r.value])
    ensures forall j :: |ls| - (if r.Some? then r.value else |ls|) <= j < |ls| - e ==> !IsFence(ls[j])
    decreases |ls| - e
  {
    if e == |ls| then None
    else if IsFence(ls[|ls| - 1 - e]) then Some(e)
    else LastFence(ls, e + 1)
  }

  /**
   * The fence extraction of `_apply_patch_with_model`: the lines after the first fence line,
   * with the last fence line and everything after it cut off (`content_lines[:-end_index-1]`).
   */
  function ExtractUpdatedContent(reply: string): (r: Result<string, PatchError>)
    ensures r.Failure? ==> r.error == MalformedOutput
  {
    ExtractFromLines(Lines(reply))
  }

  /** The extraction on the reply's lines. */
  function ExtractFromLines(lines: seq<string>): Result<string, PatchError> {
    match FirstFence(lines, 0)
    case None => Failure(MalformedOutput)
    case Some(start) =>
      var contentLines := lines[start + 1..];
      match LastFence(contentLines, 0)
      case None => Failure(MalformedOutput)
      case Some(endIndex) => Success(Unlines(contentLines[..|contentLines| - endIndex - 1]))
  }

  /**
   * `apply_patch`: a count above the Sonnet limit fails before the model is called; otherwise
   * the chosen tier's reply is asked for and its fenced content returned.
   */
  function ApplyPatch(count: nat, generate: (Tier, string, string) -> Result<string, string>,
                      originalContent: string, patchContent: string): (r: Result<string, PatchError>)
    ensures count > SonnetTokenLimit ==> r == Failure(TooLarge(count))
    ensures r.Success? ==> count <= SonnetTokenLimit
    ensures r.Failure? && r.error.ProviderFailure? ==>
              count <= SonnetTokenLimit
              && generate(if count <= HaikuTokenLimit then Haiku else Sonnet, originalContent, patchContent)
                 == Failure(r.error.reason)
  {
    match SelectTier(count)
    case Failure(e) => Failure(e)
    case Success(tier) =>
      match generate(tier, originalContent, patchContent)
      case Failure(reason) => Failure(ProviderFailure(reason))
      case Success(reply) => ExtractUpdatedContent(reply)
  }

  // ---------------------------------------------------------------------------
  // Properties
  // ---------------------------------------------------------------------------

  /** `IsFence` is `line.strip().startswith('```')`. */
  lemma {:induction false} FenceLineIsStripped(line: string)
    ensures IsFence(line) <==> StartsWith(Strip(line), "```")
  {
    if |line| > 0 && IsSpace(line[0]) {
      FenceLineIsStripped(line[1..]);
      assert LStrip(line) == LStrip(line[1..]);
    } else {
      assert LStrip(line) == line;
      if StartsWith(line, "```") {
        assert line[2] == '`';
        RStripKeeps(line, 2);
        assert RStrip(line)[..3] == line[..3];
      } else if |RStrip(line)| >= 3 {
        assert RStrip(line)[..3] == line[..3];
      }
    }
  }

  /** Both tiers fill in the same template file. */
  lemma SameTemplate()
    ensures PromptFile(Haiku) == PromptFile(Sonnet) == "haiku_prompt.txt"
  {
  }

  /**
   * A file over the Sonnet limit is refused whatever the model would answer: the model is
   * never consulted.
   */
  lemma TooLargeWithoutModel(count: nat, g1: (Tier, string, string) -> Result<string, string>,
                             g2: (Tier, string, string) -> Result<string, string>, o: string, p: string)
    requires count > SonnetTokenLimit
    ensures ApplyPatch(count, g1, o, p) == ApplyPatch(count, g2, o, p) == Failure(TooLarge(count))
  {
  }

  /** Within the limits the reply of the tier `SelectTier` picks is the one that is used. */
  lemma ApplyUsesTier(count: nat, g: (Tier, string, string) -> Result<string, string>, o: string, p: string)
    requires count <= SonnetTokenLimit && g(if count <= HaikuTokenLimit then Haiku else Sonnet, o, p).Success?
    ensures ApplyPatch(count, g, o, p)
              == ExtractUpdatedContent(g(if count <= HaikuTokenLimit then Haiku else Sonnet, o, p).value)
  {
  }

  /**
   * A successful extraction is the text strictly between the first fence line and the last
   * fence line after it.
   */
  lemma ExtractedBetweenFences(reply: string) returns (s: nat, c: nat)
    requires ExtractUpdatedContent(reply).Success?
    ensures var ls := Lines(reply);
            && s < c < |ls| && IsFence(ls[s]) && IsFence(ls[c])
            && (forall k :: 0 <= k < s ==> !IsFence(ls[k]))
            && (forall k :: c < k < |ls| ==> !IsFence(ls[k]))
            && ExtractUpdatedContent(reply).value == Unlines(ls[s + 1..c])
  {
    var ls := Lines(reply);
    s := FirstFence(ls, 0).value;
    var cl := ls[s + 1..];
    var e := LastFence(cl, 0).value;
    c := s + 1 + (|cl| - 1 - e);
    assert ExtractFromLines(ls) == Success(Unlines(cl[..|cl| - e - 1]));
    assert ls[c] == cl[|cl| - 1 - e];
    assert cl[..|cl| - e - 1] == ls[s + 1..c];
    forall k | c < k < |ls|
      ensures !IsFence(ls[k])
    {
      assert ls[k] == cl[|cl| - 1 - (|ls| - 1 - k)];
    }
  }

  /** Extraction fails exactly when no fence line has another fence line after it. */
  lemma ExtractFailsIffNoPair(reply: string)
    ensures (ExtractUpdatedContent(reply) == Failure(MalformedOutput))
              <==> !exists s, c :: 0 <= s < c < |Lines(reply)| && IsFence(Lines(reply)[s]) && IsFence(Lines(reply)[c])
  {
    var ls := Lines(reply);
    if ExtractFromLines(ls).Success? {
      var s, c := ExtractedBetweenFences(reply);
    } else {
      match FirstFence(ls, 0)
      case None =>
      case Some(s) =>
        var cl := ls[s + 1..];
        assert LastFence(cl, 0).None?;
        forall s', c' | 0 <= s' < c' < |ls| && IsFence(ls[s'])
          ensures !IsFence(ls[c'])
        {
          assert s <= s';
          assert ls[c'] == cl[|cl| - 1 - (|cl| - 1 - (c' - s - 1))];
        }
    }
  }

  /**
   * The example reply "intro\n```\nLINE1\nLINE2\n```\noutro", given by its lines, gives
   * "LINE1\nLINE2".
   */
  lemma ExtractExample()
    ensures ExtractFromLines(["intro", "```", "LINE1", "LINE2", "```", "outro"]) == Success("LINE1\nLINE2")
  {
    var ls := ["intro", "```", "LINE1", "LINE2", "```", "outro"];
    var cl := ls[2..];
    assert FirstFence(ls, 0) == Some(1) by {
      assert !IsFence("intro") && IsFence("```");
    }
    assert LastFence(cl, 0) == Some(1) by {
      assert cl == ["LINE1", "LINE2", "```", "outro"];
      assert !IsFence("outro") && IsFence("```");
    }
    assert cl[..2] == ["LINE1", "LINE2"];
    assert ExtractFromLines(ls) == Success(Unlines(cl[..2]));
    assert Unlines(["LINE1", "LINE2"]) == "LINE1\nLINE2";
  }
}
