/**
 * The response records built from a model reply (pydantic models with defaults).
 * A constructor parameter written `name: T := v` has the model's default value `v`.
 */
module ResponseModels {
  import opened Wrappers

  /** One item of the response content; `kind` is the `type` field, default "text". */
  datatype LLMResponseContent = LLMResponseContent(text: string, kind: string := "text")

  /** A patch to apply; `processedPatchPath` is set once the patch has been applied. */
  datatype PatchInstruction = PatchInstruction(
    filePath: string,
    patchContent: string,
    processedPatchPath: Option<string> := None)

  datatype NewFileInstruction = NewFileInstruction(filePath: string, content: string)

  datatype BashScriptInstruction = BashScriptInstruction(scriptName: string, scriptContent: string)

  datatype LLMResponseMetadata = LLMResponseMetadata(
    id: string,
    model: string,
    role: string,
    kind: string,
    usage: map<string, int>,
    stopReason: Option<string> := None,
    stopSequence: Option<string> := None)

  /** `content` and `metadata` are required; every other field has a default. */
  datatype LLMResponse = LLMResponse(
    content: seq<LLMResponseContent>,
    metadata: LLMResponseMetadata,
    patches: seq<PatchInstruction> := [],
    newFiles: seq<NewFileInstruction> := [],
    bashScripts: seq<BashScriptInstruction> := [],
    preambleInstructions: Option<string> := None,
    postambleInstructions: Option<string> := None,
    commitName: Option<string> := None)

  /**
   * The defaults: a patch starts unapplied, a content item is of kind "text", the metadata has
   * no stop reason or sequence, and a response built from its content and metadata alone has
   * no instructions, no preamble, no postamble and no commit name.
   */
  lemma Defaults(text: string, filePath: string, patchContent: string, m: LLMResponseMetadata,
                 content: seq<LLMResponseContent>, id: string, model: string, role: string, kind: string,
                 usage: map<string, int>)
    ensures PatchInstruction(filePath, patchContent).processedPatchPath == None
    ensures LLMResponseContent(text).kind == "text"
    ensures var md := LLMResponseMetadata(id, model, role, kind, usage);
            md.stopReason == None && md.stopSequence == None
    ensures var r := LLMResponse(content, m);
            && r.content == content && r.metadata == m
            && r.patches == [] && r.newFiles == [] && r.bashScripts == []
            && r.preambleInstructions == None && r.postambleInstructions == None && r.commitName == None
  {
  }
}
