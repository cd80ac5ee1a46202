# my-engineer core, modelled in Dafny

my-engineer is a command-line assistant. It sends a user's request, with a context made from
the project's files, to a language model, and turns the model's reply into changes to the
project. This project models the parts of it that compute something:

- reading the reply: the commit name, the `###action: path` code blocks, the preamble and
  postamble, and the typed instructions they become (`InstructionParser`,
  `InstructionProcessor`, `ResponseModels`, `InstructionPipeline`);
- applying patches: the model tier chosen by token count, the fenced content cut out of the
  model's answer, and the batch loop that guards the first line of every file, writes only
  changed content and marks what it processed (`PatchService`, `PatchProcessor`);
- building the context: the per-file content filter with `.env` redaction, the configuration
  and the concatenator that dumps the selected files behind a header and ahead of a manifest
  (`FileUtils`, `ConcatConfig`, `Concatenator`), and the smart selection that merges the
  model's picks with the always-include patterns (`SmartContext`);
- the per-file summaries kept in an insertion-ordered dictionary (`ProjectSummarizer`);
- the request sent to the model: message preparation, prompt-cache marks and request fields
  (`ProviderUtils`, `ClaudeProvider`);
- the conversation: message records, the role-alternation validator, the saved-state
  round trip (`ChatModels`) and the history updates of a chat turn (`ChatEngine`);
- reading pytest's output (`TestRunner`), branch names (`PipelineHelpers`), the user settings
  (`Settings`) and the editor command line (`EditorUtils`).

`Wrappers` holds `Option` and `Result`; `Text` holds Python's string operations on
`seq<char>` (`strip`, `split`, `join`, `lower`, `startswith`, `in`, `os.path.basename` and
`os.path.join`).

Each module follows the form of its source file. Functions and lemmas model the parts that
only compute. Methods with loop invariants model the loops that build lists: pattern loading,
pattern matching, token counting, message preparation, the validator and `_process_content`.
Methods on classes model the objects the source updates in place: `Concatenator.CodebaseConcatenator`
(its output buffer and processed-file list), `ProjectSummarizer.Summarizer` (its summary
dictionary), `SmartContext.SmartContextBuilder` (its declaration dictionary),
`ChatModels.ConversationState` (its message list) and `Settings.Config`. The patch loop works
on an `array` of patch records and sets their `processedPatchPath` in place. Each method's
`ensures` states its result and its new state in full, in terms of functions of its inputs and
its old state (for `BuildSmartContext`, the stored declarations, the decision, the token counts,
the blocks and the manifest), and the lemmas state what the source promises about those
functions.

The model's replies, the user's yes/no answers, `fnmatch`, `ast.parse`, the token counter
and the file system are parameters. The file system is a map from path to content: a path
missing from the map cannot be opened.

## Model

| member | source | states |
|---|---|---|
| InstructionParser.WsRunIs | my_engineer/shared_models/llm_response/instruction_parser.py:13 | The greedy `\s*` takes exactly the whitespace characters up to the first non-space character. |
| InstructionParser.WordRunIs | my_engineer/shared_models/llm_response/instruction_parser.py:19 | The greedy `\w+` takes exactly the word characters up to the first character that is not one. |
| InstructionParser.TokenRunIs | my_engineer/shared_models/llm_response/instruction_parser.py:19 | The greedy `\S+` takes exactly the non-space characters up to the first space. |
| InstructionParser.LineEnd | my_engineer/shared_models/llm_response/instruction_parser.py:13 | `(.+)` without DOTALL ends at a line break or at the end of the text, never before its start. |
| InstructionParser.CommitPos | my_engineer/shared_models/llm_response/instruction_parser.py:13-14 | A position `re.search` reports lies at or after the search start, with room for the "###COMMIT" tag. |
| InstructionParser.CommitPosLeftmost | my_engineer/shared_models/llm_response/instruction_parser.py:13-14 | The commit pattern matches at the reported position and at no earlier one. |
| InstructionParser.CommitPosNone | my_engineer/shared_models/llm_response/instruction_parser.py:14-16 | When the search finds nothing, the pattern matches at no position, so the commit name is None. |
| InstructionParser.CommitName | my_engineer/shared_models/llm_response/instruction_parser.py:13-16 | The commit name, when there is one, is already stripped; without a match of the pattern there is none. |
| InstructionParser.CommitGroupAfterColon | my_engineer/shared_models/llm_response/instruction_parser.py:13-16 | With a colon after the tag, the name is the rest of the first line that has a non-space character after the colon. `\s*` crosses line breaks, so "###COMMIT:\n  fix" names the commit "fix". |
| InstructionParser.CommitGroupNoColon | my_engineer/shared_models/llm_response/instruction_parser.py:13-16 | Without a colon, the name runs from the first non-space character after the tag to the end of that line. |
| InstructionParser.FindNewlineSpec | my_engineer/shared_models/llm_response/instruction_parser.py:19 | The line-break search reports a line break with none before it, or the text has none from there on. |
| InstructionParser.FindFenceSpec | my_engineer/shared_models/llm_response/instruction_parser.py:19 | The fence search reports a "```" with none starting before it, or none starts from there on. |
| InstructionParser.NoFenceIn | my_engineer/shared_models/llm_response/instruction_parser.py:19 | A stretch where no fence starts contains no "```". So the lazy `(.*?)```` stops at the first closing fence. |
| InstructionParser.MatchBlockAt | my_engineer/shared_models/llm_response/instruction_parser.py:19 | A match of the block pattern starts with "###" and consumes at least one character and no more than the text holds. |
| InstructionParser.MatchWellFormed | my_engineer/shared_models/llm_response/instruction_parser.py:19 | Every match has a non-empty word as action, a whitespace-free path, and content without "```". |
| InstructionParser.Attempts | my_engineer/shared_models/llm_response/instruction_parser.py:22 | The pattern is tried at every position of the text, the end included. |
| InstructionParser.ScanSound | my_engineer/shared_models/llm_response/instruction_parser.py:22 | The left-to-right scan reports only successful attempts, in text order, each resuming after the previous one. |
| InstructionParser.FindBlocksSound | my_engineer/shared_models/llm_response/instruction_parser.py:19-22 | Each match `re.finditer` reports is the pattern's match at its start and lies inside the text. Matches come in text order and do not overlap. |
| InstructionParser.FindBlocks | my_engineer/shared_models/llm_response/instruction_parser.py:19-22 | `re.finditer` as a left-to-right scan of the pattern's attempts; what it reports is stated by FindBlocksSound, ParseFramed and ParseInterleaved. |
| InstructionParser.Blocks | my_engineer/shared_models/llm_response/instruction_parser.py:33-35 | One block per match, in match order, each built from its own match's groups. |
| InstructionParser.ProcessContent | my_engineer/shared_models/llm_response/instruction_parser.py:44-51 | The two pop loops leave the content's lines with the leading and trailing blank lines removed. |
| InstructionParser.TrimBlankLines | my_engineer/shared_models/llm_response/instruction_parser.py:44-51 | The two pop loops as a function; its shape is stated by TrimBlankLinesSlice and TrimBlankLinesIdempotent. |
| InstructionParser.TrimBlankLinesSlice | my_engineer/shared_models/llm_response/instruction_parser.py:44-51 | The result is a contiguous run of the lines. Everything dropped is blank, and a non-empty result starts and ends with a non-blank line. |
| InstructionParser.TrimBlankLinesIdempotent | my_engineer/shared_models/llm_response/instruction_parser.py:44-51 | Trimming blank lines twice is the same as trimming once. |
| InstructionParser.ExtractedBlocksWellFormed | my_engineer/shared_models/llm_response/instruction_parser.py:19-35 | Every extracted block has a lowercase word as action and one whitespace-free token as path. Its content lines contain no line break and no "```". |
| InstructionParser.BlockNeedsMarker | my_engineer/shared_models/llm_response/instruction_parser.py:19-24 | Blocks are found only in text that contains "###". |
| InstructionParser.NoMarkerAllPreamble | my_engineer/shared_models/llm_response/instruction_parser.py:24-26 | A reply without "###" gives no blocks, the whole stripped reply as preamble, no postamble, and the commit name as searched. |
| InstructionParser.CommitTagStaysInPreamble | my_engineer/shared_models/llm_response/instruction_parser.py:13-16 | A "###COMMIT" tag written before the first block stays inside the preamble, which is then present. |
| InstructionParser.StripCodeBlock | my_engineer/shared_models/llm_response/instruction_parser.py:53-60 | The result is already stripped: stripping it again changes nothing. |
| InstructionParser.StripCodeBlockFenced | my_engineer/shared_models/llm_response/instruction_parser.py:54-60 | A text whose first and last lines are lone fences gives the stripped text between them. |
| InstructionParser.StripCodeBlockNoFence | my_engineer/shared_models/llm_response/instruction_parser.py:54-60 | When neither the first nor the last line is a lone fence, the text is only stripped. |
| InstructionParser.ParseRender | my_engineer/shared_models/llm_response/instruction_parser.py:19-41 | Rendering well-formed blocks as `###action: path`, fence, body, fence and parsing the text gives back the same blocks, with no preamble and no postamble. |
| InstructionParser.ExtractInstructions | my_engineer/shared_models/llm_response/instruction_parser.py:5-41 | The parser as a whole; NoMarkerAllPreamble, ParseRender, ParseFramed and ParseInterleaved state what it returns. |
| InstructionParser.ParseFramed | my_engineer/shared_models/llm_response/instruction_parser.py:19-41 | Blocks rendered between a preamble and a postamble that hold no "###" parse back to the same blocks, with the stripped preamble and postamble (None when blank). |
| InstructionParser.ParseInterleaved | my_engineer/shared_models/llm_response/instruction_parser.py:19-41 | With text free of "###" between two runs of rendered blocks, the blocks of both runs come back in order, and the text between them belongs to neither the preamble nor the postamble. |
| InstructionProcessor.PrepareAll | my_engineer/shared_models/llm_response/instruction_processor.py:12-14 | One item per block, in order. Each item's content is the block's lines joined, stripped, and passed through `strip_code_block`. |
| InstructionProcessor.ProcessInstructions | my_engineer/shared_models/llm_response/instruction_processor.py:7-23 | The loop's three lists are the patch, new-file and bash records of the prepared blocks, in input order. |
| InstructionProcessor.RecognisedCount | my_engineer/shared_models/llm_response/instruction_processor.py:15-21 | No more records than inputs. |
| InstructionProcessor.OutputCount | my_engineer/shared_models/llm_response/instruction_processor.py:15-21 | The three lists hold one record per block whose action is "patch", "new" or "bash", compared case-sensitively. All blocks give records exactly when all actions are recognised. |
| InstructionProcessor.ProcessAppend | my_engineer/shared_models/llm_response/instruction_processor.py:12-21 | Processing distributes over concatenation, so each output list keeps input order. |
| InstructionProcessor.ProcessOne | my_engineer/shared_models/llm_response/instruction_processor.py:16-21 | "patch" gives PatchInstruction(path, content), "new" gives NewFileInstruction(path, content), "bash" gives BashScriptInstruction(path, content), and any other action gives nothing. |
| InstructionProcessor.PatchesFromItems | my_engineer/shared_models/llm_response/instruction_processor.py:16-17 | Every patch record comes from a "patch" item with the same path and content, and the items before it give exactly the records before it. |
| InstructionProcessor.PatchesUnapplied | my_engineer/shared_models/llm_response/instruction_processor.py:16-17 | No patch the processor makes has a processed path yet. |
| InstructionProcessor.BlockContentFenced | my_engineer/shared_models/llm_response/instruction_processor.py:13-14 | A block whose lines are a body between two fence lines gives the stripped body. |
| ResponseModels.Defaults | my_engineer/shared_models/llm_response/llm_response_models.py:4-38 | A patch's processed path defaults to None and a content item's type to "text". The stop fields default to None. A response made from content and metadata alone has empty instruction lists and no preamble, postamble or commit name. |
| InstructionPipeline.ReplyTextOfLines | my_engineer/instruction_processor/main.py:10-11 | A list of lines is joined with '\n', and the text the parser sees splits back into the same lines. |
| InstructionPipeline.ProcessInstructions | my_engineer/instruction_processor/main.py:9-37 | The response holds the raw text as its one "text" content item and the fixed metadata ("generated", "unknown", "assistant", "text", empty usage). Its lists are the processor's output on the parser's blocks. Preamble, postamble and commit name pass through from the parser, and `run_dir` plays no part. |
| PatchService.SelectTier | my_engineer/patch_processor/src/patch_service.py:38-47 | Haiku exactly when the count is at most 3500; Sonnet exactly when it is above 3500 and at most 7500; the too-large error exactly when it is above 7500. |
| PatchService.FirstFence | my_engineer/patch_processor/src/patch_service.py:58 | The first line from the start whose stripped form starts with "```", with no such line before it. |
| PatchService.LastFence | my_engineer/patch_processor/src/patch_service.py:62 | The search over the reversed lines: the reported line counted from the end is a fence, and no line after it is. |
| PatchService.FenceLineIsStripped | my_engineer/patch_processor/src/patch_service.py:58 | The fence test equals `line.strip().startswith('```')`. |
| PatchService.SameTemplate | my_engineer/patch_processor/src/patch_service.py:17-18 | Both tiers load "haiku_prompt.txt". |
| PatchService.TooLargeWithoutModel | my_engineer/patch_processor/src/patch_service.py:46-47 | Above 7500 tokens the result is the too-large error, whatever the model would have answered. |
| PatchService.ApplyUsesTier | my_engineer/patch_processor/src/patch_service.py:41-45 | Within the limits, the result is the fenced content of the chosen tier's reply. |
| PatchService.ExtractedBetweenFences | my_engineer/patch_processor/src/patch_service.py:57-66 | A successful extraction is the lines strictly between the first fence line and the last fence line after it, joined with '\n'. |
| PatchService.ExtractFailsIffNoPair | my_engineer/patch_processor/src/patch_service.py:58-70 | Extraction fails with "does not contain properly formatted updated content" exactly when no fence line has another fence line after it. |
| PatchService.ExtractExample | my_engineer/patch_processor/src/patch_service.py:57-66 | A reply whose lines are "intro", "```", "LINE1", "LINE2", "```", "outro" gives "LINE1\nLINE2". |
| PatchService.ExtractUpdatedContent | my_engineer/patch_processor/src/patch_service.py:57-70 | The only error is the malformed-output one. |
| PatchService.ApplyPatch | my_engineer/patch_processor/src/patch_service.py:38-47 | Above 7500 tokens the result is the too-large error, and a success needs a count within the limit. A provider error is passed on from the tier the count chose. |
| PatchProcessor.Outcomes | my_engineer/patch_processor/patch_processor.py:32 | One outcome per patch of the batch. |
| PatchProcessor.ProcessPatch | my_engineer/patch_processor/patch_processor.py:33-69 | One patch: the disk after it, the record as marked, and the write it makes, all as its outcome prescribes. |
| PatchProcessor.ProcessPatches | my_engineer/patch_processor/patch_processor.py:28-72 | The loop over the patch array: each record is marked in place as its outcome prescribes, and the disk and the writes are those of the batch, in order. |
| PatchProcessor.OriginalFirstLineIsPrefix | my_engineer/patch_processor/patch_processor.py:39 | The original first line is a prefix of the content without a line break, and all of a content without one. |
| PatchProcessor.GuardFirstLineLines | my_engineer/patch_processor/patch_processor.py:51-57 | The guard keeps the number of lines and every line after the first. The first line reverts to the original exactly when it changed and is blank; otherwise the content is untouched. |
| PatchProcessor.ShebangExample | my_engineer/patch_processor/patch_processor.py:51-67 | A patch that blanks the "#!/bin/sh" line of a file keeps that line and writes the rest of the patched content. |
| PatchProcessor.OutcomeCases | my_engineer/patch_processor/patch_processor.py:35-69 | The target is read from root joined with the patch path. Unreadable means read failure; a raised `apply_patch` means skipped; otherwise the guarded content is written if it differs. The record is marked with the full path exactly when reading and patching succeeded, no-op included. |
| PatchProcessor.WriteOnlyOnChange | my_engineer/patch_processor/patch_processor.py:60-67 | A write goes to an existing file and differs from its content. |
| PatchProcessor.FailedPatchSkipped | my_engineer/patch_processor/patch_processor.py:41-49 | A patch that cannot be read or applied stays unmarked, changes no file, and the batch goes on with the next patch. |
| PatchProcessor.BatchKeepsPaths | my_engineer/patch_processor/patch_processor.py:32-67 | A batch creates and deletes no file. |
| PatchProcessor.WritesToExistingFiles | my_engineer/patch_processor/patch_processor.py:35-64 | Every write of a batch goes to a path that existed before it. |
| PatchProcessor.WritesConcat | my_engineer/patch_processor/patch_processor.py:32 | The writes of consecutive runs are the first run's writes followed by the second's. |
| FileUtils.WordPrefix | my_engineer/codebase_concatenator/file_utils.py:19 | `^(\w+)`: the longest prefix of word characters. |
| FileUtils.WordPrefixIs | my_engineer/codebase_concatenator/file_utils.py:19 | The prefix is exactly the word characters in front of the first non-word character. |
| FileUtils.RedactLines | my_engineer/codebase_concatenator/file_utils.py:19 | With MULTILINE, every line is redacted on its own and the number of lines is kept. |
| FileUtils.RedactLineMatches | my_engineer/codebase_concatenator/file_utils.py:19 | A line `KEY=anything` with a word-character KEY becomes `KEY=REDACTED`. |
| FileUtils.RedactLineNoMatch | my_engineer/codebase_concatenator/file_utils.py:19 | A line without a word-character key right before an '=' is left unchanged. |
| FileUtils.RedactLine | my_engineer/codebase_concatenator/file_utils.py:19 | A line is either unchanged or cut after some key before an '=', followed by "=REDACTED". |
| FileUtils.RedactLeavesOthers | my_engineer/codebase_concatenator/file_utils.py:19 | "export X=1" and "# KEY=1" are left unchanged. |
| FileUtils.BasenameAfterSlash | my_engineer/codebase_concatenator/file_utils.py:18 | The base name of `dir/name` is `name` when `name` has no '/'. |
| FileUtils.EnvFileIsRedacted | my_engineer/codebase_concatenator/file_utils.py:18-19 | A file named exactly ".env" takes the redaction branch. |
| FileUtils.RedactTwoLines | my_engineer/codebase_concatenator/file_utils.py:19 | Two `KEY=value` lines become two `KEY=REDACTED` lines, and the final strip removes nothing. |
| FileUtils.EnvTwoLines | my_engineer/codebase_concatenator/file_utils.py:18-19 | A ".env" file such as "API_KEY=abc123\nFOO=bar" becomes "API_KEY=REDACTED\nFOO=REDACTED". |
| FileUtils.EnvLocalIsFiltered | my_engineer/codebase_concatenator/file_utils.py:18-22 | ".env.local" takes the comment filter, not redaction. |
| FileUtils.KeepLines | my_engineer/codebase_concatenator/file_utils.py:21 | No more lines come out than go in. |
| FileUtils.KeepLinesOne | my_engineer/codebase_concatenator/file_utils.py:21 | A single line is kept exactly when it is not blank and its left-stripped form does not start with '#'. |
| FileUtils.KeepLinesAppend | my_engineer/codebase_concatenator/file_utils.py:21 | Filtering distributes over concatenation, so kept lines keep their relative order. |
| FileUtils.KeepLinesMembers | my_engineer/codebase_concatenator/file_utils.py:21 | A line comes out exactly when it went in and is neither blank nor a comment. |
| FileUtils.KeepLinesAll | my_engineer/codebase_concatenator/file_utils.py:21 | Lines that are all kept come out unchanged. |
| FileUtils.DropCommentsIdempotent | my_engineer/codebase_concatenator/file_utils.py:20-22 | The comment filter applied to its own output changes nothing. |
| FileUtils.DropCommentsClean | my_engineer/codebase_concatenator/file_utils.py:20-22 | The lines of a non-empty filtered text are neither blank nor comments. |
| FileUtils.DropComments | my_engineer/codebase_concatenator/file_utils.py:20-22 | The comment filter as a function; its effect is stated by KeepLinesMembers, DropCommentsIdempotent and DropCommentsClean. |
| FileUtils.FilterContent | my_engineer/codebase_concatenator/file_utils.py:17-22 | `filter_content`: redaction for a base name of exactly ".env", the comment filter otherwise, as EnvFileIsRedacted, EnvTwoLines and EnvLocalIsFiltered state. |
| ConcatConfig.GetConfig | my_engineer/codebase_concatenator/config.py:4-13 | The copy has the three keys, with `include_tests` and `verbose` False and the default extension list. |
| ConcatConfig.EnvAllowed | my_engineer/codebase_concatenator/config.py:6 | ".env" is in the allow-list, and the configuration is well typed. |
| ConcatConfig.DtsRedundant | my_engineer/codebase_concatenator/config.py:6 | A path ending in ".d.ts" also ends in ".ts", which is listed. |
| ConcatConfig.CopyIsIndependent | my_engineer/codebase_concatenator/config.py:12-13 | Setting a key on the copy changes that key only and leaves `DEFAULT_CONFIG` as it was. |
| Concatenator.Selected | my_engineer/codebase_concatenator/concatenator.py:23-27 | No more files are processed than listed. |
| Concatenator.RelPath | my_engineer/codebase_concatenator/concatenator.py:48 | Never longer than the path; a path under "root/" is that prefix followed by the result. |
| Concatenator.FilesToConcatenate | my_engineer/codebase_concatenator/concatenator.py:39-45 | The set of listed paths whose full path would be processed; SelectedMatchesSet states it. |
| Concatenator.CodebaseConcatenator.GetFilesToConcatenate | my_engineer/codebase_concatenator/concatenator.py:32-45 | Every returned path is a listed one, and joined with the root the returned paths are exactly the files `concat_files` would process. |
| Concatenator.ManifestLines | my_engineer/codebase_concatenator/concatenator.py:73-79 | A failing manifest names a processed file that cannot be opened. |
| Concatenator.CodebaseConcatenator.constructor | my_engineer/codebase_concatenator/concatenator.py:10-15 | The configuration is the defaults updated with the keyword arguments. The buffer and file list start empty, and the root is `root_dir` or the working directory. |
| Concatenator.CodebaseConcatenator.Write | my_engineer/codebase_concatenator/concatenator.py:57 | Appends to the buffer and changes nothing else. |
| Concatenator.CodebaseConcatenator.WriteHeader | my_engineer/codebase_concatenator/concatenator.py:53-57 | Appends the fixed header. |
| Concatenator.CodebaseConcatenator.WriteFileContent | my_engineer/codebase_concatenator/concatenator.py:59-71 | Appends the file's block, or nothing when the file cannot be read. |
| Concatenator.CodebaseConcatenator.WriteBlock | my_engineer/codebase_concatenator/concatenator.py:64-69 | Appends the heading with the relative path, the filtered content, a '\n' only if the content lacks one, and "###END\n". |
| Concatenator.CodebaseConcatenator.WriteFileList | my_engineer/codebase_concatenator/concatenator.py:73-79 | Appends the manifest, or raises on the first processed file that cannot be opened, leaving the buffer as it was. |
| Concatenator.CodebaseConcatenator.ConcatFiles | my_engineer/codebase_concatenator/concatenator.py:20-30 | The buffer grows by a header, the blocks of the selected files in input order and the manifest of every file processed so far. The list grows by the selected files, including those whose block was skipped. The result is the whole buffer. |
| Concatenator.ManifestFailsAt | my_engineer/codebase_concatenator/concatenator.py:75-76 | The manifest fails on the first processed file that cannot be opened. |
| Concatenator.ManifestSucceedsIff | my_engineer/codebase_concatenator/concatenator.py:75-79 | The manifest succeeds exactly when every processed file can be opened. |
| Concatenator.DisplayPath | my_engineer/codebase_concatenator/concatenator.py:64 | Printed relative paths contain no backslash: every one becomes '/'. |
| Concatenator.ShouldProcess | my_engineer/codebase_concatenator/concatenator.py:47-51 | A processed path never ends in "package-lock.json" and ends with one of the configured extensions. |
| Concatenator.LatestExcludedByDefault | my_engineer/codebase_concatenator/concatenator.py:48-49 | With the default configuration, "latest.py" is excluded: "test" is a plain substring test. |
| Concatenator.LatestIncludedWithTests | my_engineer/codebase_concatenator/concatenator.py:48-49 | With `include_tests` set, "latest.py" is processed. |
| Concatenator.LineCountOfLines | my_engineer/codebase_concatenator/concatenator.py:76 | The line count is the number of lines, a final unterminated line included. |
| Concatenator.FileBlock | my_engineer/codebase_concatenator/concatenator.py:65-69 | A block starts with "\n\n###FILENAME: rel\n" and ends with "\n###END\n". |
| Concatenator.SelectedMatchesSet | my_engineer/codebase_concatenator/concatenator.py:32-51 | The set `get_files_to_concatenate` returns holds exactly the listed paths that `concat_files` would process. |
| Concatenator.ManifestTwice | my_engineer/codebase_concatenator/concatenator.py:73-79 | A manifest that can be written for a list can be written for the list repeated. |
| Concatenator.TwoCalls | my_engineer/codebase_concatenator/concatenator.py:13-30 | A second `concat_files` on the same instance succeeds when the first did. Its result is the first result, a second header, the blocks again, and a manifest over the selected files listed twice, because `processed_files` is never cleared. |
| SmartContext.LoadAlwaysIncludePatterns | my_engineer/context_management/smart_context_builder.py:42-56 | The patterns are the stripped, non-blank, non-comment lines in file order. A missing or unreadable file gives none. |
| SmartContext.PatternsMembers | my_engineer/context_management/smart_context_builder.py:47-50 | A pattern is the stripped form of a line that is neither blank nor a comment, and every such line gives one. |
| SmartContext.PatternsClean | my_engineer/context_management/smart_context_builder.py:48-50 | Every pattern is non-empty, already stripped, and does not start with '#'. |
| SmartContext.Dedup | my_engineer/context_management/smart_context_builder.py:64 | `list(set(xs))`: no duplicates, and the same members as `xs`. |
| SmartContext.FilterAlwaysIncludeFiles | my_engineer/context_management/smart_context_builder.py:58-64 | The nested loops collect every file that matches each pattern, pattern by pattern, then drop duplicates. |
| SmartContext.MatchesOfMembers | my_engineer/context_management/smart_context_builder.py:61-63 | The files one pattern collects are exactly the files that match it. |
| SmartContext.AllMatchesMembers | my_engineer/context_management/smart_context_builder.py:60-63 | The files collected are exactly those that match some pattern. |
| SmartContext.AlwaysIncludeMembers | my_engineer/context_management/smart_context_builder.py:58-64 | The always-include files are the files, as given, that match at least one pattern, each listed once. |
| SmartContext.BelowIrreflexive | my_engineer/context_management/smart_context_builder.py:68 | Python's string order: no string sorts before itself. |
| SmartContext.BelowTransitive | my_engineer/context_management/smart_context_builder.py:68 | Python's string order is transitive. |
| SmartContext.BelowTotal | my_engineer/context_management/smart_context_builder.py:68 | Of two different strings, one sorts before the other. |
| SmartContext.BelowAsymmetric | my_engineer/context_management/smart_context_builder.py:68 | Two strings never sort before each other. |
| SmartContext.Insert | my_engineer/context_management/smart_context_builder.py:68 | Inserting into a strictly sorted list keeps it strictly sorted and adds exactly that element. |
| SmartContext.SortUnique | my_engineer/context_management/smart_context_builder.py:67-68 | `sorted(set(xs))`: strictly sorted, with the members of `xs`. |
| SmartContext.MergeFileLists | my_engineer/context_management/smart_context_builder.py:66-69 | The merged list is sorted and free of duplicates, and holds exactly the files in either list. |
| SmartContext.SortedDetermined | my_engineer/context_management/smart_context_builder.py:67-68 | Two strictly sorted lists with the same members are equal, so the merge does not depend on set order. |
| SmartContext.MergeSymmetric | my_engineer/context_management/smart_context_builder.py:66-69 | Merging is symmetric in its two lists. |
| SmartContext.ReplyTokens | my_engineer/context_management/smart_context_builder.py:184 | One token per comma-separated piece of the reply, stripped. |
| SmartContext.MentionedFiles | my_engineer/context_management/smart_context_builder.py:186-189 | The loop never selects more files than are tracked. |
| SmartContext.MentionedMembers | my_engineer/context_management/smart_context_builder.py:186-189 | A tracked file is selected exactly when it exists and some token is a substring of its path. |
| SmartContext.MatchReply | my_engineer/context_management/smart_context_builder.py:184-189 | The selected files are free of duplicates and are exactly the existing tracked files that some reply token occurs in. |
| SmartContext.SplitEndsEmpty | my_engineer/context_management/smart_context_builder.py:184 | A reply ending in the separator has an empty last piece. |
| SmartContext.EmptyTokenSelectsAll | my_engineer/context_management/smart_context_builder.py:184-188 | An empty reply, or one that ends with a comma, selects every existing tracked file. |
| SmartContext.MethodDeclsKinds | my_engineer/context_management/smart_context_builder.py:269-271 | A class's methods are listed as "FunctionDef". |
| SmartContext.TreeDeclsKinds | my_engineer/context_management/smart_context_builder.py:264-274 | Every declaration found is a FunctionDef, AsyncFunctionDef or ClassDef. |
| SmartContext.ExtractFileDeclarations | my_engineer/context_management/smart_context_builder.py:255-279 | The list starts with ("FILE", path), and every later entry is a FunctionDef, AsyncFunctionDef or ClassDef declaration. |
| SmartContext.SentinelOnly | my_engineer/context_management/smart_context_builder.py:256-276 | A non-.py file, an unreadable file, or one that does not parse gives the sentinel only. |
| SmartContext.MethodDeclsMembers | my_engineer/context_management/smart_context_builder.py:269-271 | A class contributes exactly its direct non-async methods. |
| SmartContext.TopLevelListed | my_engineer/context_management/smart_context_builder.py:265-274 | Every top-level function, async function and class is listed with its kind. |
| SmartContext.InfoLinesAll | my_engineer/context_management/smart_context_builder.py:222-224 | Without "FILE" entries, there is one "type: name" line per declaration, in order. |
| SmartContext.FileInfo | my_engineer/context_management/smart_context_builder.py:221-224 | A file's entry starts with "File: " and its path. |
| SmartContext.FormatDeclarations | my_engineer/context_management/smart_context_builder.py:218-227 | No files format as ""; a single file formats as its own paragraph. |
| SmartContext.FormatDeclarationsSnoc | my_engineer/context_management/smart_context_builder.py:218-227 | The paragraphs come in key order, each further file adding a blank line and its own paragraph after those before it. |
| SmartContext.FileInfoOfExtracted | my_engineer/context_management/smart_context_builder.py:218-227 | A file's entry is "File: path" and then "type: name" for each declaration after the sentinel, joined with '\n'. |
| SmartContext.FormatSmallCases | my_engineer/context_management/smart_context_builder.py:218-227 | A file with the sentinel only formats as "File: path"; no files format as "". |
| SmartContext.TokenSumKeepsFailure | my_engineer/context_management/smart_context_builder.py:141-143 | Once a file cannot be opened, the count fails with that file. |
| SmartContext.TokenSum | my_engineer/context_management/smart_context_builder.py:139-146 | A failing count names a listed file that cannot be opened. |
| SmartContext.TokenSumFirstMissing | my_engineer/context_management/smart_context_builder.py:139-146 | The file a failing count names is the first listed file that cannot be opened; every earlier one can. |
| SmartContext.CountTokensForFiles | my_engineer/context_management/smart_context_builder.py:139-146 | The loop sums the per-file counts, or raises on the first file that cannot be opened. |
| SmartContext.TokenSumSucceedsIff | my_engineer/context_management/smart_context_builder.py:139-146 | Counting succeeds exactly when every listed file can be opened. |
| SmartContext.TokenSumAppend | my_engineer/context_management/smart_context_builder.py:139-146 | The total for two lists is the sum of their totals. |
| SmartContext.StoreAllInSync | my_engineer/context_management/smart_context_builder.py:148-154 | Storing declarations keeps the dictionary's key order in step with its keys and only appends new keys. |
| SmartContext.StoreAll | my_engineer/context_management/smart_context_builder.py:148-154 | Storing only adds: every old key stays, in place at the front of the key order. |
| SmartContext.StoreAllEntries | my_engineer/context_management/smart_context_builder.py:148-154 | After extraction, every tracked file's relative path holds its declarations, and no other key is added. |
| SmartContext.DecideSpec | my_engineer/context_management/smart_context_builder.py:95-117 | The four cases outright: a non-empty pick that is approved uses the merged list, one that is declined uses all tracked files; no pick uses all tracked files when the user accepts them and leaves `relevant_files` unbound otherwise. The merged list contains every picked file. |
| SmartContext.Decide | my_engineer/context_management/smart_context_builder.py:95-117 | `relevant_files` is unbound exactly when the model picked nothing and the user declines all files. Otherwise it is the merged list or all tracked files, and the merged list, when it differs, only after approval of a non-empty pick. |
| SmartContext.ChooseFiles | my_engineer/context_management/smart_context_builder.py:95-113 | The decision followed by the token counts: of the merged list for the approval question when the model picked files, then of the chosen files; ChooseFilesSpec states it. |
| SmartContext.ChooseFilesSpec | my_engineer/context_management/smart_context_builder.py:95-113 | Succeeds exactly when the decision binds files that can all be opened, and so can the merged list whenever the model picked files, returning the decided files. Fails as unbound exactly in the unbound case; an unreadable file it names is missing and was chosen. |
| SmartContext.SmartContextBuilder.constructor | my_engineer/context_management/smart_context_builder.py:25-40 | No declarations, the patterns loaded from the file, and a concatenator over the root with the default configuration. |
| SmartContext.SmartContextBuilder.ExtractDeclarations | my_engineer/context_management/smart_context_builder.py:148-156 | The declaration dictionary is updated as the store function prescribes; nothing else changes. |
| SmartContext.SmartContextBuilder.FormattedDeclarations | my_engineer/context_management/smart_context_builder.py:218-227 | The stored files' paragraphs in the table's key order, separated by blank lines: none give "", one gives its paragraph, and the last of several follows the others after a blank line. |
| SmartContext.SmartContextBuilder.BuildContext | my_engineer/context_management/smart_context_builder.py:240-245 | No files give "" and leave the concatenator alone. Otherwise the concatenator's `concat_files` runs on them: its file list grows by the selected files, its buffer by the header and their blocks, then the manifest of every file processed so far; the result is the whole buffer, or the first unopenable processed file when the manifest fails. |
| SmartContext.SmartContextBuilder.BuildSmartContext | my_engineer/context_management/smart_context_builder.py:83-119 | Declarations are stored first. The model's picks are the reply's matches, merged with the always-include files. When the decision or a token count fails, that error is returned and the concatenator is untouched. No chosen files give ("", []). Otherwise the context is the concatenator's output over the chosen files, as for `_build_context`, returned with the files. |
| ProjectSummarizer.Summarizer.constructor | my_engineer/shared_utils/project_summarizer.py:8-13 | The summaries start as the loaded dictionary, in its key order. |
| ProjectSummarizer.Summarizer.GetSummary | my_engineer/shared_utils/project_summarizer.py:60-61 | The stored summary, or "" for an unknown path. |
| ProjectSummarizer.Summarizer.UpdateSummaries | my_engineer/shared_utils/project_summarizer.py:26-43 | The keys become (old ∩ current) ∪ {new files with a non-empty summary}. Kept entries are untouched, new ones are sanitised summaries, and the surviving old keys keep their order. The cache is saved exactly when a file was added or removed. |
| ProjectSummarizer.Summarizer.AddSummaries | my_engineer/shared_utils/project_summarizer.py:33-37 | The loop over new files appends, once each, exactly those with a non-empty summary, storing their sanitised summaries and keeping every older entry. |
| ProjectSummarizer.Summarizer.RemoveSummaries | my_engineer/shared_utils/project_summarizer.py:39-40 | Deletes exactly the removed keys and keeps the order of the rest. |
| ProjectSummarizer.Summarizer.FormatSummaryForLlm | my_engineer/shared_utils/project_summarizer.py:66-72 | The loop's text is, in dictionary order, "path:\nsummary\n\n" for each non-blank summary, stripped. |
| ProjectSummarizer.SummaryOf | my_engineer/shared_utils/project_summarizer.py:48-58 | `_generate_summary`: the provider's reply stripped, or "" when it fails; AddSummaries states how it is used. |
| ProjectSummarizer.Entries | my_engineer/shared_utils/project_summarizer.py:66-72 | The text of `format_summary_for_llm` before the final strip; BlankEntriesSkipped, OneEntry and EntryStripped state it. |
| ProjectSummarizer.WithoutMembers | my_engineer/shared_utils/project_summarizer.py:39-40 | After deletion a key remains exactly when it was there and was not deleted. |
| ProjectSummarizer.WithoutDistinct | my_engineer/shared_utils/project_summarizer.py:39-40 | Deletion keeps the keys free of duplicates. |
| ProjectSummarizer.AddedInSync | my_engineer/shared_utils/project_summarizer.py:33-37 | Appending new keys with their entries keeps the key order in step with the dictionary. |
| ProjectSummarizer.RemovedInSync | my_engineer/shared_utils/project_summarizer.py:39-40 | Deleting keys and their entries keeps the key order in step with the dictionary. |
| ProjectSummarizer.RetriedAndStable | my_engineer/shared_utils/project_summarizer.py:30-37 | A new file without a summary is left out and so is new again on the next call; with the same files and summaries, a second update changes nothing. |
| ProjectSummarizer.SanitizeForYaml | my_engineer/shared_utils/project_summarizer.py:75-79 | A sanitised summary never contains a single quote. |
| ProjectSummarizer.SanitizePlain | my_engineer/shared_utils/project_summarizer.py:75-79 | Text without quotes or colons is left unchanged. |
| ProjectSummarizer.BlankEntriesSkipped | my_engineer/shared_utils/project_summarizer.py:68-70 | Entries with blank summaries contribute nothing. |
| ProjectSummarizer.OneEntry | my_engineer/shared_utils/project_summarizer.py:66-72 | A single entry formats as "path:\n" and the stripped summary. |
| ProviderUtils.GetMaxTokens | my_engineer/llm_providers/providers/utils.py:6-12 | 4096 for Haiku, 8192 for Sonnet, 4096 for any other model. |
| ProviderUtils.PrepareMessages | my_engineer/llm_providers/providers/utils.py:14-22 | The loop gives the prepared list its specification function describes. |
| ProviderUtils.KeptOf | my_engineer/llm_providers/providers/utils.py:17 | Only user and assistant messages with non-blank content are kept. |
| ProviderUtils.Roles | my_engineer/llm_providers/providers/utils.py:18 | One role per message; the last role is that of the last message. |
| ProviderUtils.Compress | my_engineer/llm_providers/providers/utils.py:18-21 | Cutting runs of one role to one never lengthens the list and keeps its last role. |
| ProviderUtils.PreparedShape | my_engineer/llm_providers/providers/utils.py:17-21 | No two neighbours of the output have the same role, and every output message is a kept one. |
| ProviderUtils.PreparedEmptyIff | my_engineer/llm_providers/providers/utils.py:15-22 | The output is empty exactly when no message is kept; empty input gives empty output. |
| ProviderUtils.PreparedContents | my_engineer/llm_providers/providers/utils.py:18-21 | Merging loses and reorders nothing: the output's contents, joined with '\n', equal the kept messages' contents joined the same way. |
| ProviderUtils.PreparedRoles | my_engineer/llm_providers/providers/utils.py:18-21 | The output's roles are those of the kept messages, with each run of one role cut to one. |
| ClaudeProvider.Init | my_engineer/llm_providers/providers/claude_provider.py:15-18 | The model is CLAUDE_MODEL or the Sonnet default, and max_tokens is looked up for it. |
| ClaudeProvider.InitializeRequestData | my_engineer/llm_providers/providers/claude_provider.py:68-79 | Request data always has the model, the prompt-caching beta header, max_tokens and no messages yet. "system" is present exactly when the system prompt is a non-empty string, holding it as one text block. |
| ClaudeProvider.ApplyCacheControl | my_engineer/llm_providers/providers/claude_provider.py:93-96 | One text block holding the message, marked for caching exactly when its index is at least total − 4. |
| ClaudeProvider.ProcessSingleMessage | my_engineer/llm_providers/providers/claude_provider.py:89-91 | Keeps the role, and the content becomes one text block, cache-marked exactly when the index is at least total − 4. |
| ClaudeProvider.ProcessMessages | my_engineer/llm_providers/providers/claude_provider.py:81-87 | Fails with "No valid messages provided" exactly when preparation keeps nothing; otherwise one message per prepared message. |
| ClaudeProvider.PrepareRequestData | my_engineer/llm_providers/providers/claude_provider.py:23-27 | Fails exactly when preparation keeps nothing; otherwise the request has messages and the configured model and max_tokens. |
| ClaudeProvider.ValidateRequestData | my_engineer/llm_providers/providers/claude_provider.py:98-100 | Passes the request unchanged exactly when it has messages, and otherwise fails with "No valid messages after preparation". |
| ClaudeProvider.ProcessMessagesSpec | my_engineer/llm_providers/providers/claude_provider.py:81-96 | Fails with "No valid messages provided" exactly when preparation keeps nothing. Otherwise one message per prepared message, same role, content one text block, cache-marked exactly when its index is at least total − 4. |
| ClaudeProvider.CachedCountOfMarks | my_engineer/llm_providers/providers/claude_provider.py:93-96 | Counting marks: only the messages from index total − 4 on are marked. |
| ClaudeProvider.CachedLastFour | my_engineer/llm_providers/providers/claude_provider.py:93-96 | Exactly the last min(4, n) messages carry a cache mark. |
| ClaudeProvider.ValidationUnreachable | my_engineer/llm_providers/providers/claude_provider.py:23-31 | Preparing the request fails exactly when no message is kept. A prepared request has the configured fields and always passes `_validate_request_data`. |
| ChatModels.ParseRole | my_engineer/shared_models/chat_models.py:9 | Only "system", "user" and "assistant" are roles, and a parsed role prints as its text. |
| ChatModels.RoleRoundTrip | my_engineer/shared_models/chat_models.py:9 | Printing a role and parsing it gives the role back. |
| ChatModels.ParseItem | my_engineer/shared_models/chat_models.py:4-6 | A content item needs a text, and its type, when given, must be "text". |
| ChatModels.ParseItems | my_engineer/shared_models/chat_models.py:10 | A list parses exactly when every item does, item by item. |
| ChatModels.ParseContent | my_engineer/shared_models/chat_models.py:10-16 | A string is plain content and a list is parsed item by item. A dict is wrapped into one item, which the str-or-list field rejects. |
| ChatModels.MessageFromDict | my_engineer/shared_models/chat_models.py:13-17 | A message is built exactly when the role is valid and the content parses; otherwise the validation error. |
| ChatModels.MessageToDict | my_engineer/shared_models/chat_models.py:8-17 | Reading back the dict a message dumps to gives the same message. |
| ChatModels.FirstBreakFrom | my_engineer/shared_models/chat_models.py:25-29 | The first index whose message may not follow its predecessor; every earlier pair is allowed; none exactly when all pairs are. |
| ChatModels.CheckSequence | my_engineer/shared_models/chat_models.py:22-30 | Accepts exactly the lists where a user message is followed by an assistant message and vice versa, returning them unchanged. Otherwise the error names the predecessor of the first offending pair, every pair before it being allowed. |
| ChatModels.ValidateMessageSequence | my_engineer/shared_models/chat_models.py:22-30 | The loop accepts or rejects as the validator's specification does, with the same error. |
| ChatModels.ShortAlwaysWellFormed | my_engineer/shared_models/chat_models.py:24 | Lists of at most one message are always accepted. |
| ChatModels.SystemRule | my_engineer/shared_models/chat_models.py:26-29 | Any role may follow a system message, and a system message may follow only another system message. |
| ChatModels.WellFormedAlternates | my_engineer/shared_models/chat_models.py:22-30 | Without system messages, an accepted list alternates roles. |
| ChatModels.AppendTurn | my_engineer/shared_models/chat_models.py:22-30 | Appending a user message and an assistant reply to an accepted list not ending in a user message gives an accepted list ending in the reply. |
| ChatModels.ConversationState.constructor | my_engineer/shared_models/chat_models.py:32-37 | Turn 1, no messages, no previous run, no context, smart context not added. |
| ChatModels.ConversationState.FromFields | my_engineer/shared_models/chat_models.py:32-37 | A state with the given fields, turn number at least 1. |
| ChatModels.MessagesFromDicts | my_engineer/shared_models/chat_models.py:42 | Every nested message is converted by `Message.from_dict`; one failure fails the whole list. |
| ChatModels.StateFromDict | my_engineer/shared_models/chat_models.py:32-43 | `from_dict` succeeds exactly when every message converts, the turn number is absent or at least 1, and the messages pass the validator. It then keeps every given field, message by message, and fills in the defaults. |
| ChatModels.EmptyDictDefaults | my_engineer/shared_models/chat_models.py:32-43 | An empty dict gives the default state. |
| ChatModels.StateToDict | my_engineer/shared_models/chat_models.py:32-43 | Reading back the dict a valid state dumps to gives the same state. |
| ChatModels.ConversationStateFromDict | my_engineer/shared_models/chat_models.py:39-43 | Builds a new state object exactly when `from_dict` succeeds, holding its fields, and otherwise reports its error. |
| ChatEngine.Texts | my_engineer/llm_prompter/src/chat_engine.py:83 | The texts of the items, in order. |
| ChatEngine.Entries | my_engineer/llm_prompter/src/chat_engine.py:79-88 | One entry per history message with its role and flattened content, then the user prompt as a final user entry. |
| ChatEngine.Turn | my_engineer/llm_prompter/src/chat_engine.py:25-49 | A turn only appends to the history, and at most the two seeding messages, the prompt and the reply. |
| ChatEngine.Engine.constructor | my_engineer/llm_prompter/src/chat_engine.py:16-21 | The engine keeps the given run directory. |
| ChatEngine.Engine.SetRunDir | my_engineer/llm_prompter/src/chat_engine.py:90-91 | Sets the run directory. |
| ChatEngine.Engine.InitializeConversationState | my_engineer/llm_prompter/src/chat_engine.py:51-76 | Fails on a missing run directory, then on an empty request. Otherwise it appends the `<context>…</context>` user message and the assistant acknowledgement, and nothing else changes. |
| ChatEngine.Engine.PrepareMessages | my_engineer/llm_prompter/src/chat_engine.py:79-88 | The loop builds the entries of the history followed by the prompt. |
| ChatEngine.Engine.GetRawInstructions | my_engineer/llm_prompter/src/chat_engine.py:23-49 | The history and result are those of the turn. The request is sent exactly when the run directory is set and the history, seeded when empty, has something to send, and what is sent is the seeded history followed by the prompt. |
| ChatEngine.TurnSuccess | my_engineer/llm_prompter/src/chat_engine.py:25-43 | A turn succeeds exactly when the run directory is set, the request can seed an empty history, and the reply is a non-blank string. Exactly the prompt and the reply are then appended to the seeded history. |
| ChatEngine.TurnFailure | my_engineer/llm_prompter/src/chat_engine.py:25-49 | A failed turn never appends the prompt or a reply. A missing run directory or request changes nothing, and a non-string or blank reply raises the empty-response error after seeding. |
| ChatEngine.TurnAnswered | my_engineer/llm_prompter/src/chat_engine.py:37-43 | With a non-blank reply, the turn's history is the seeded history plus the prompt and reply. |
| ChatEngine.TurnUnanswered | my_engineer/llm_prompter/src/chat_engine.py:37-49 | With a run directory and something to send, a provider error or a blank reply leaves the seeded history and reports that error or the empty-response error. |
| ChatEngine.TurnKeepsWellFormed | my_engineer/llm_prompter/src/chat_engine.py:26-41 | A turn keeps the history acceptable to the validator and never leaves a user message last; a successful turn ends with the assistant's reply. |
| ChatEngine.Flatten | my_engineer/llm_prompter/src/chat_engine.py:82-83 | A one-item list flattens to its text. |
| ChatEngine.FirstRequest | my_engineer/llm_prompter/src/chat_engine.py:26-28 | The first request of a conversation is the context message, the acknowledgement and the prompt. |
| ChatEngine.PlainSentUnchanged | my_engineer/llm_prompter/src/chat_engine.py:84-86 | String content is sent unchanged, with the message's role. |
| TestRunner.CheckTestResults | my_engineer/shared_utils/tests/test_runner.py:50-62 | A run passes exactly when its output starts with "Tests skipped:", or its lowercased output contains "passed" and neither "failed" nor "error". |
| TestRunner.CollectionErrorsMentionError | my_engineer/shared_utils/tests/test_runner.py:56-61 | Output containing "errors during collection" contains "error" once lowercased, so that test never decides the result alone. |
| TestRunner.UppercaseFailedFails | my_engineer/shared_utils/tests/test_runner.py:58-59 | "FAILED" in capitals fails a run that was not skipped. |
| TestRunner.SkippedRunPasses | my_engineer/shared_utils/tests/test_runner.py:54-55 | The "Tests skipped: pytest.ini not found." message passes. |
| TestRunner.ErrorFails | my_engineer/shared_utils/tests/test_runner.py:60-61 | Any "error", in any case, fails a run that was not skipped. |
| TestRunner.RunnerErrorFails | my_engineer/shared_utils/tests/test_runner.py:42 | The "Error running pytest: …" message fails. |
| TestRunner.UnexpectedErrorFails | my_engineer/shared_utils/tests/test_runner.py:48 | The "Unexpected error running pytest: …" message fails. |
| TestRunner.EmptyOutputFails | my_engineer/shared_utils/tests/test_runner.py:62 | Empty output does not pass. |
| TestRunner.FirstMatch | my_engineer/shared_utils/tests/test_runner.py:69-75 | The index of the first matching line, none before it; none exactly when no line matches. |
| TestRunner.CollectedNameSpec | my_engineer/shared_utils/tests/test_runner.py:70-71 | The line is `p + "ERROR collecting" + tail` with no marker in `tail`, and the name is `tail` stripped. |
| TestRunner.FailedNameWithoutSeparator | my_engineer/shared_utils/tests/test_runner.py:74 | A "FAILED " line without "::" raises IndexError. |
| TestRunner.FailedNameSpec | my_engineer/shared_utils/tests/test_runner.py:74 | With "::", IndexError exactly when the piece after the first "::" is blank; otherwise the name is the first whitespace-free run of that piece. |
| TestRunner.FailedName | my_engineer/shared_utils/tests/test_runner.py:74 | The only error is IndexError, and a name is found only on a line with "::" and is never empty. |
| TestRunner.GetFirstFailedTest | my_engineer/shared_utils/tests/test_runner.py:64-75 | The only error is IndexError, and the answer is None exactly when no line is an "ERROR collecting" or a "FAILED " line. |
| TestRunner.CollectingTakesPriority | my_engineer/shared_utils/tests/test_runner.py:68-71 | The first "ERROR collecting" line decides the answer, whatever "FAILED " lines come before it. |
| TestRunner.FailedLineDecides | my_engineer/shared_utils/tests/test_runner.py:72-75 | Without a collection error the first "FAILED " line decides the answer, and without either kind of line the answer is None. |
| PipelineHelpers.Dashed | my_engineer/shared_utils/pipeline_helpers.py:134 | Every character outside `[\w-]` becomes '-', and the rest are kept. |
| PipelineHelpers.SanitizeBranchName | my_engineer/shared_utils/pipeline_helpers.py:132-136 | The result is no longer than the name, holds only lowercase word characters and '-', and neither starts nor ends with '_'. |
| PipelineHelpers.SanitizeNoop | my_engineer/shared_utils/pipeline_helpers.py:132-136 | A name that is already sanitised is returned unchanged. |
| PipelineHelpers.SanitizeIdempotent | my_engineer/shared_utils/pipeline_helpers.py:132-136 | Sanitising twice is sanitising once. |
| PipelineHelpers.OuterSpacesBecomeDashes | my_engineer/shared_utils/pipeline_helpers.py:134-136 | " fix " becomes "-fix-": outer dashes are not stripped. |
| PipelineHelpers.BranchName | my_engineer/shared_utils/pipeline_helpers.py:140-141 | A branch name has no '/' and ends with '_' and the sanitised commit name. |
| Settings.Lookup | my_engineer/shared_utils/config.py:14-15 | The stored value, or the default for a missing key. |
| Settings.Config.Get | my_engineer/shared_utils/config.py:14-15 | The stored value when the key is present, and the caller's default otherwise. |
| Settings.Config.UseCursor | my_engineer/shared_utils/config.py:17-19 | The stored use_cursor value, or False when it is absent. |
| Settings.Config.Editor | my_engineer/shared_utils/config.py:21-23 | The stored editor value, or "vscode" when it is absent. |
| Settings.Config.constructor | my_engineer/shared_utils/config.py:4-9 | Starts with editor "vscode" and use_cursor False. |
| Settings.Config.Set | my_engineer/shared_utils/config.py:11-12 | Stores the value under the key and changes no other key. |
| Settings.SetThenGet | my_engineer/shared_utils/config.py:11-15 | After `set(k, v)`, `get(k)` returns `v` whatever the default. |
| Settings.SetKeepsOthers | my_engineer/shared_utils/config.py:11-15 | `set(k, v)` does not change what `get` returns for any other key. |
| Settings.Defaults | my_engineer/shared_utils/config.py:4-23 | A fresh configuration reads as editor "vscode" and use_cursor False, and any other key as the supplied default. |
| EditorUtils.GetEditorCommandSpec | my_engineer/shared_utils/editor_utils.py:6-22 | A known editor gives its table command; an absent or unknown editor gives "code". |
| EditorUtils.CommandFor | my_engineer/shared_utils/editor_utils.py:6-22 | The command is always one of the table's, and a known editor gives its own. |
| EditorUtils.GetEditorCommand | my_engineer/shared_utils/editor_utils.py:19-22 | The command is always one of the table's, and a configuration without an editor gives "code". |
| EditorUtils.UseCursorIgnored | my_engineer/shared_utils/editor_utils.py:19-22 | Setting use_cursor does not change the editor command. |
| EditorUtils.QuotedOnlyForTextEdit | my_engineer/shared_utils/editor_utils.py:6-29 | Of all editors, only TextEdit's command contains a space, so only its file path is quoted. |
| EditorUtils.OpenCommand | my_engineer/shared_utils/editor_utils.py:24-29 | The command line is the command and a space, then the path, wrapped in single quotes exactly when the command contains a space. |

## Left out

- Calls to the language model, Anthropic's token counter, `fnmatch`, `ast.parse`, `git ls-files` and the user's yes/no answers are parameters. These are foreign code or interactive input.
- Reading and writing files, logging, console output, timestamps, the saving of requests, replies, declarations and contexts, and YAML loading and saving are left out: they are I/O. The disk is a map from path to content.
- `run_unit_tests` in test_runner.py, `create_git_branch`'s `git checkout`, the editor launch of `open_file_in_editor`, and the rest of pipeline_helpers.py are left out: they run subprocesses.
- `get_config` in config.py, the process-wide `Config` instance, is left out: the model passes a `Config` to whoever reads it.
- `get_all_summaries` in project_summarizer.py is left out: it only returns the dictionary.
- `concat_files(None)` and `get_files_to_concatenate(None)`, which ask git for the file list, are left out: the file list is always given.
- `Concatenator.RelPath`: `os.path.relpath` is modelled as cutting "root/" off a path under the root; other paths stay whole instead of gaining "../" steps.
- Unicode is left out: `\w`, `\s`, `str.lower` and `str.strip` are taken on ASCII, and `splitlines` as splitting on '\n'.
- `SmartContext.Dedup`, `SmartContext.MatchReply`, `Concatenator.SelectedMatchesSet`: `list(set(...))` has no defined order in Python. The model keeps first occurrences, and the contracts state membership and the absence of duplicates only.
- `ProviderUtils.PrepareMessages`: the source appends the caller's message dicts and then extends the last one's content in place, so the caller's messages change. The model works on values and does not capture this aliasing.
- `ChatModels.ParseContent`: pydantic coercion is not modelled. Content must already be a string or a list of items, and a dict, which `from_dict` wraps into a single item, is rejected as the str-or-list field does.
- `ChatModels.StateFromDict`: when several fields are invalid, the model reports one error rather than pydantic's collected list.
- `ChatEngine.Engine.InitializeConversationState`: the context is a parameter; `get_context` and its `include_tests` flag are not part of this model.
- `ChatEngine.Engine.GetRawInstructions`: the reply is a parameter, and the provider's errors, the overloaded one included, are one `ProviderError` case that leaves the history seeded.
- `ClaudeProvider.Init`: the environment's CLAUDE_MODEL is a parameter; `_make_api_call`, `_process_response` and `generate_response`'s sending are left out as network calls.
- `InstructionParser.ExtractInstructions`: `extract_instructions` is modelled on a string. llm_response_handler.py, which passes it a list, is not part of this model.
- The prompt texts sent to the model (summaries, file selection, patch template) are left out: they are parameters of foreign calls.
