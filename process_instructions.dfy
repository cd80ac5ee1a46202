/**
 * Assembling the response record from a raw model reply (my_engineer/instruction_processor/main.py):
 * parse the reply, turn its blocks into typed instructions, and wrap everything with fixed
 * metadata.
 */
module InstructionPipeline {
  import opened Wrappers
  import opened Text
  import opened ResponseModels
  import InstructionParser
  import InstructionProcessor

  /** The reply as the caller hands it over: one string, or a list of lines. */
  datatype RawInstructions = RawText(text: string) | RawLines(lines: seq<string>)

  /** The text the parser sees: a list is joined with '\n' first. */
  function ReplyText(raw: RawInstructions): string {
    match raw
    case RawText(text) => text
    case RawLines(lines) => Unlines(lines)
  }

  /** Joining a list of lines loses nothing: the parser's text splits back into the same lines. */
  lemma ReplyTextOfLines(lines: seq<string>)
    requires |lines| >= 1 && forall k :: 0 <= k < |lines| ==> '\n' !in lines[k]
    ensures Lines(ReplyText(RawLines(lines))) == lines
  {
    LinesUnlines(lines);
  }

  /** The fixed metadata of a locally assembled response. */
  const GeneratedMetadata := LLMResponseMetadata("generated", "unknown", "assistant", "text", map[])

  /**
   * `process_instructions`: the response holds the raw text as its one content item, the fixed
   * metadata, the processor's three lists on the parser's blocks, and the parser's preamble,
   * postamble and commit name. `runDir` is accepted and not used.
   */
  method ProcessInstructions(raw: RawInstructions, runDir: string) returns (r: LLMResponse)
    ensures var text := ReplyText(raw);
            var parsed := InstructionParser.ExtractInstructions(text);
            var items := InstructionProcessor.PrepareAll(parsed.blocks);
            && r.content == [LLMResponseContent(text, "text")]
            && r.metadata == LLMResponseMetadata("generated", "unknown", "assistant", "text", map[], None, None)
            && r.patches == InstructionProcessor.Patches(items)
            && r.newFiles == InstructionProcessor.NewFiles(items)
            && r.bashScripts == InstructionProcessor.BashScripts(items)
            && r.preambleInstructions == parsed.preamble
            && r.postambleInstructions == parsed.postamble
            && r.commitName == parsed.commitName
  {
    var text := ReplyText(raw);
    var parsed := InstructionParser.ExtractInstructions(text);
    var patches, newFiles, bashScripts := InstructionProcessor.ProcessInstructions(parsed.blocks);
    var content := [LLMResponseContent(text := text, kind := "text")];
    r := LLMResponse(
      content := content,
      metadata := GeneratedMetadata,
      patches := patches,
      newFiles := newFiles,
      bashScripts := bashScripts,
      preambleInstructions := parsed.preamble,
      postambleInstructions := parsed.postamble,
      commitName := parsed.commitName);
  }
}
