/**
 * Turning parsed blocks into typed instructions
 * (my_engineer/shared_models/llm_response/instruction_processor.py).
 *
 * Each block's lines are joined, stripped and passed through `strip_code_block`; the block then
 * becomes a patch, a new file or a bash script according to its action, and any other action
 * is dropped. The loop of the source is `ProcessInstructions`; `Patches`, `NewFiles` and
 * `BashScripts` are the lists it builds, as functions.
 */
module InstructionProcessor {
  import opened Text
  import opened ResponseModels
  import InstructionParser

  type Block = InstructionParser.Block

  /** The content a block contributes: lines joined with '\n', stripped, fences removed. */
  function BlockContent(lines: seq<string>): string {
    InstructionParser.StripCodeBlock(Strip(Unlines(lines)))
  }

  /** A block with its content normalised: what the loop body of the source dispatches on. */
  datatype Item = Item(action: string, path: string, content: string)

  /** The loop body's first two statements: the block's content joined, stripped and unfenced. */
  function Prepare(b: Block): Item {
    Item(b.action, b.path, BlockContent(b.lines))
  }

  function PrepareAll(bs: seq<Block>): (r: seq<Item>)
    ensures |r| == |bs| && forall k :: 0 <= k < |bs| ==> r[k] == Prepare(bs[k])
  {
    seq(|bs|, k requires 0 <= k < |bs| => Prepare(bs[k]))
  }

  /** An action the processor recognises; the comparison is exact, so case matters. */
  predicate Recognised(action: string) {
    action == "patch" || action == "new" || action == "bash"
  }

  /** The patch instructions, one per block whose action is "patch", in order. */
  function Patches(items: seq<Item>): seq<PatchInstruction> {
    if items == [] then []
    else
      var it := items[|items| - 1];
      Patches(items[..|items| - 1])
        + (if it.action == "patch" then [PatchInstruction(it.path, it.content)] else [])
  }

  /** The new-file instructions, one per block whose action is "new", in order. */
  function NewFiles(items: seq<Item>): seq<NewFileInstruction> {
    if items == [] then []
    else
      var it := items[|items| - 1];
      NewFiles(items[..|items| - 1])
        + (if it.action == "new" then [NewFileInstruction(it.path, it.content)] else [])
  }

  /** The bash-script instructions, one per block whose action is "bash", in order. */
  function BashScripts(items: seq<Item>): seq<BashScriptInstruction> {
    if items == [] then []
    else
      var it := items[|items| - 1];
      BashScripts(items[..|items| - 1])
        + (if it.action == "bash" then [BashScriptInstruction(it.path, it.content)] else [])
  }

  /** One more item extends each list by that item's instruction, if any. */
  lemma ProcessStep(items: seq<Item>, i: nat)
    requires i < |items|
    ensures Patches(items[..i + 1]) == Patches(items[..i])
      + (if items[i].action == "patch" then [PatchInstruction(items[i].path, items[i].content)] else [])
    ensures NewFiles(items[..i + 1]) == NewFiles(items[..i])
      + (if items[i].action == "new" then [NewFileInstruction(items[i].path, items[i].content)] else [])
    ensures BashScripts(items[..i + 1]) == BashScripts(items[..i])
      + (if items[i].action == "bash" then [BashScriptInstruction(items[i].path, items[i].content)] else [])
  {
    assert items[..i + 1][..i] == items[..i];
  }

  /** `InstructionProcessor.process_instructions`: one pass, appending to three lists. */
  method ProcessInstructions(bs: seq<Block>)
    returns (patches: seq<PatchInstruction>, newFiles: seq<NewFileInstruction>,
             bashScripts: seq<BashScriptInstruction>)
    ensures patches == Patches(PrepareAll(bs))
    ensures newFiles == NewFiles(PrepareAll(bs))
    ensures bashScripts == BashScripts(PrepareAll(bs))
  {
    ghost var items := PrepareAll(bs);
    patches, newFiles, bashScripts := [], [], [];
    for i := 0 to |bs|
      invariant patches == Patches(items[..i])
      invariant newFiles == NewFiles(items[..i])
      invariant bashScripts == BashScripts(items[..i])
    {
      var it := Prepare(bs[i]);
      ProcessStep(items, i);
      if it.action == "patch" {
        patches := patches + [PatchInstruction(it.path, it.content)];
      } else if it.action == "new" {
        newFiles := newFiles + [NewFileInstruction(it.path, it.content)];
      } else if it.action == "bash" {
        bashScripts := bashScripts + [BashScriptInstruction(it.path, it.content)];
      }
    }
    assert items[..|bs|] == items;
  }

  // ---------------------------------------------------------------------------
  // Properties
  // ---------------------------------------------------------------------------

  /** The number of items with a recognised action. */
  function RecognisedCount(items: seq<Item>): (n: nat)
    ensures n <= |items|
  {
    if items == [] then 0
    else RecognisedCount(items[..|items| - 1]) + (if Recognised(items[|items| - 1].action) then 1 else 0)
  }

  /**
   * Every recognised item yields exactly one instruction and every other item none, so the
   * three lists together are as long as the input exactly when every action is recognised.
   */
  lemma {:induction false} OutputCount(items: seq<Item>)
    ensures |Patches(items)| + |NewFiles(items)| + |BashScripts(items)| == RecognisedCount(items)
    ensures RecognisedCount(items) == |items| <==> forall k :: 0 <= k < |items| ==> Recognised(items[k].action)
  {
    if items != [] {
      var init := items[..|items| - 1];
      OutputCount(init);
      assert forall k :: 0 <= k < |init| ==> init[k] == items[k];
    }
  }

  /** The lists are built item by item: processing `a + b` appends the results for `b`. */
  lemma {:induction false} ProcessAppend(a: seq<Item>, b: seq<Item>)
    ensures Patches(a + b) == Patches(a) + Patches(b)
    ensures NewFiles(a + b) == NewFiles(a) + NewFiles(b)
    ensures BashScripts(a + b) == BashScripts(a) + BashScripts(b)
    decreases |b|
  {
    if b == [] {
      assert a + b == a;
    } else {
      var b' := b[..|b| - 1];
      ProcessAppend(a, b');
      assert (a + b)[..|a + b| - 1] == a + b';
      assert (a + b)[|a + b| - 1] == b[|b| - 1];
    }
  }

  /** One block: its instruction, in the list its action names exactly, and nothing elsewhere. */
  lemma ProcessOne(b: Block)
    ensures Patches(PrepareAll([b])) ==
              if b.action == "patch" then [PatchInstruction(b.path, BlockContent(b.lines))] else []
    ensures NewFiles(PrepareAll([b])) ==
              if b.action == "new" then [NewFileInstruction(b.path, BlockContent(b.lines))] else []
    ensures BashScripts(PrepareAll([b])) ==
              if b.action == "bash" then [BashScriptInstruction(b.path, BlockContent(b.lines))] else []
  {
    var items := PrepareAll([b]);
    assert items[..0] == [];
    assert items[0] == Prepare(b);
  }

  /**
   * The patches are the patch items in input order: the `k`-th patch comes from an item whose
   * action is exactly "patch", and exactly `k` patches come from the items before it.
   */
  lemma {:induction false} PatchesFromItems(items: seq<Item>, k: nat)
    requires k < |Patches(items)|
    ensures exists i :: 0 <= i < |items| && items[i].action == "patch"
              && Patches(items)[k] == PatchInstruction(items[i].path, items[i].content)
              && |Patches(items[..i])| == k
  {
    var init := items[..|items| - 1];
    if k < |Patches(init)| {
      PatchesFromItems(init, k);
      var i :| 0 <= i < |init| && init[i].action == "patch"
                && Patches(init)[k] == PatchInstruction(init[i].path, init[i].content)
                && |Patches(init[..i])| == k;
      assert init[..i] == items[..i];
      assert items[i] == init[i];
    } else {
      var i := |items| - 1;
      assert items[..i] == init;
      assert items[i].action == "patch" && Patches(items)[k] == PatchInstruction(items[i].path, items[i].content);
    }
  }

  /** A processed patch has not been applied yet. */
  lemma {:induction false} PatchesUnapplied(items: seq<Item>)
    ensures forall p :: p in Patches(items) ==> p.processedPatchPath.None?
  {
    if items != [] {
      PatchesUnapplied(items[..|items| - 1]);
    }
  }

  /** A text that starts and ends with a backtick is left alone by `strip`. */
  lemma StripBackticked(x: string)
    requires |x| >= 3 && x[..3] == "```"
    ensures Strip(x + "\n```") == x + "\n```"
  {
    var s := x + "\n```";
    assert s[0] == x[..3][0] == '`' && s[|s| - 1] == '`';
    StripNoop(s);
  }

  /** The text of a fenced body: the opening fence and body, then a newline and the closing fence. */
  lemma FencedText(mid: seq<string>)
    ensures Unlines(["```"] + mid + ["```"]) == Unlines(["```"] + mid) + "\n```"
    ensures |Unlines(["```"] + mid)| >= 3 && Unlines(["```"] + mid)[..3] == "```"
  {
    var ps := ["```"] + mid;
    JoinSnoc(ps, "```", "\n");
    assert ps + ["```"] == ["```"] + mid + ["```"];
    if |mid| > 0 {
      assert ps == ["```"] + ps[1..];
    }
  }

  /** A fenced body is already stripped: it starts and ends with a fence. */
  lemma FencedStripped(mid: seq<string>)
    ensures Strip(Unlines(["```"] + mid + ["```"])) == Unlines(["```"] + mid + ["```"])
  {
    FencedText(mid);
    StripBackticked(Unlines(["```"] + mid));
  }

  lemma FencedUnwrapped(mid: seq<string>)
    requires forall k :: 0 <= k < |mid| ==> '\n' !in mid[k]
    ensures InstructionParser.StripCodeBlock(Strip(Unlines(["```"] + mid + ["```"]))) == Strip(Unlines(mid))
  {
    FencedStripped(mid);
    InstructionParser.StripCodeBlockFenced(mid);
  }

  /** A fenced block body loses its fence lines and keeps what lies between them, stripped. */
  lemma BlockContentFenced(mid: seq<string>)
    requires forall k :: 0 <= k < |mid| ==> '\n' !in mid[k]
    ensures BlockContent(["```"] + mid + ["```"]) == Strip(Unlines(mid))
  {
    FencedUnwrapped(mid);
  }
}
