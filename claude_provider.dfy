/**
 * How the Claude provider shapes a request
 * (my_engineer/llm_providers/providers/claude_provider.py): the fixed request fields, the
 * optional system prompt, and the message list, in which every message's content becomes a
 * one-element list of text blocks and the last four messages are marked for prompt caching.
 *
 * The model name comes from the environment; it is the parameter `envModel` here. Sending
 * the request, logging it to a file and reading the reply are left out.
 */
module ClaudeProvider {
  import opened Wrappers
  import opened ProviderUtils

  /** A `{"type": "text", "text": ...}` block, with `cache_control: {"type": "ephemeral"}` when `cached`. */
  datatype TextBlock = TextBlock(text: string, cached: bool)

  /** A processed message: its role and its list of blocks. */
  datatype ApiMessage = ApiMessage(role: string, content: seq<TextBlock>)

  /**
   * The request dict: "model", the "anthropic-beta" entry of "extra_headers", "max_tokens",
   * "messages", and "system" (a one-element text list) only when `system` is `Some`.
   */
  datatype RequestData = RequestData(
    model: string,
    betaHeader: string,
    maxTokens: nat,
    system: Option<seq<TextBlock>>,
    messages: seq<ApiMessage>)

  const DefaultModel := "claude-3-5-sonnet-20240620"
  const PromptCachingBeta := "prompt-caching-2024-07-31"
  const NoValidMessages := "No valid messages provided"
  const NoValidAfterPreparation := "No valid messages after preparation"

  /** The number of trailing messages that carry a cache mark. */
  const CachedTail := 4

  /** The provider's settings: `model` and `max_tokens` as `__init__` sets them. */
  datatype Settings = Settings(model: string, maxTokens: nat)

  /** `__init__`: the model from `CLAUDE_MODEL` (the Sonnet model when unset) and its token budget. */
  function Init(envModel: Option<string>): (r: Settings)
    ensures envModel.None? ==> r.model == DefaultModel && r.maxTokens == 8192
    ensures envModel.Some? ==> r.model == envModel.value && r.maxTokens == GetMaxTokens(envModel.value)
  {
    var model := if envModel.Some? then envModel.value else DefaultModel;
    Settings(model, GetMaxTokens(model))
  }

  /**
   * `_initialize_request_data`: the fixed fields and an empty message list; the system prompt
   * is added only when it is truthy (given and not empty).
   */
  function InitializeRequestData(settings: Settings, systemPrompt: Option<string>): (r: RequestData)
    ensures r.model == settings.model && r.betaHeader == PromptCachingBeta && r.maxTokens == settings.maxTokens
    ensures r.messages == []
    ensures r.system.Some? <==> systemPrompt.Some? && systemPrompt.value != ""
    ensures r.system.Some? ==> r.system.value == [TextBlock(systemPrompt.value, false)]
  {
    RequestData(
      settings.model, PromptCachingBeta, settings.maxTokens,
      if systemPrompt.Some? && systemPrompt.value != "" then Some([TextBlock(systemPrompt.value, false)]) else None,
      [])
  }

  /** `_apply_cache_control`: a one-element text list, marked when `index >= total - 4`. */
  function ApplyCacheControl(message: string, index: nat, total: nat): (r: seq<TextBlock>)
    ensures |r| == 1 && r[0].text == message
    ensures r[0].cached <==> index + 4 >= total
  {
    if index >= total - CachedTail then [TextBlock(message, true)] else [TextBlock(message, false)]
  }

  /** `_process_single_message`. */
  function ProcessSingleMessage(msg: RawMessage, index: nat, total: nat): (r: ApiMessage)
    ensures r.role == msg.role && |r.content| == 1 && r.content[0].text == msg.content
    ensures r.content[0].cached <==> total <= index + 4
  {
    ApiMessage(msg.role, ApplyCacheControl(msg.content, index, total))
  }

  /**
   * `_process_messages`: `prepare_messages`, then a ValueError when nothing is left, otherwise
   * each message processed with its index and the count.
   */
  function ProcessMessages(messages: seq<RawMessage>): (r: Result<seq<ApiMessage>, string>)
    ensures r.Failure? <==> Prepared(messages) == []
    ensures r.Failure? ==> r.error == NoValidMessages
    ensures r.Success? ==> |r.value| == |Prepared(messages)|
  {
    var prepared := Prepared(messages);
    if prepared == [] then Failure(NoValidMessages)
    else Success(seq(|prepared|, i requires 0 <= i < |prepared| => ProcessSingleMessage(prepared[i], i, |prepared|)))
  }

  /** `_prepare_request_data`. */
  function PrepareRequestData(settings: Settings, messages: seq<RawMessage>, systemPrompt: Option<string>)
    : (r: Result<RequestData, string>)
    ensures r.Failure? <==> Prepared(messages) == []
    ensures r.Success? ==> r.value.messages != [] && r.value.model == settings.model && r.value.maxTokens == settings.maxTokens
  {
    var data := InitializeRequestData(settings, systemPrompt);
    match ProcessMessages(messages)
    case Failure(e) => Failure(e)
    case Success(processed) => Success(data.(messages := processed))
  }

  /** `_validate_request_data`. */
  function ValidateRequestData(data: RequestData): (r: Result<RequestData, string>)
    ensures r.Success? <==> data.messages != []
    ensures r.Success? ==> r.value == data
    ensures r.Failure? ==> r.error == NoValidAfterPreparation
  {
    if data.messages == [] then Failure(NoValidAfterPreparation) else Success(data)
  }

  /**
   * Processing fails, with "No valid messages provided", exactly when no message is from the
   * user or the assistant with non-blank content; otherwise there is one processed message per
   * prepared one, with its role, its content as the only text block, and a cache mark exactly
   * on the last four.
   */
  lemma ProcessMessagesSpec(messages: seq<RawMessage>)
    ensures var r := ProcessMessages(messages);
            && (r.Failure? <==> KeptOf(messages) == [])
            && (r.Failure? ==> r.error == NoValidMessages)
            && (r.Success? ==>
                  var p := Prepared(messages);
                  |r.value| == |p| > 0
                  && forall i :: 0 <= i < |p| ==>
                       && r.value[i].role == p[i].role
                       && |r.value[i].content| == 1
                       && r.value[i].content[0].text == p[i].content
                       && (r.value[i].content[0].cached <==> i >= |p| - CachedTail))
  {
    PreparedEmptyIff(messages);
  }

  /** The number of messages that carry a cache mark. */
  function CachedCount(ms: seq<ApiMessage>): nat {
    if ms == [] then 0
    else CachedCount(ms[..|ms| - 1]) + if exists b :: b in ms[|ms| - 1].content && b.cached then 1 else 0
  }

  lemma {:induction false} CachedCountOfMarks(ms: seq<ApiMessage>, total: nat)
    requires forall i :: 0 <= i < |ms| ==> |ms[i].content| == 1 && (ms[i].content[0].cached <==> i >= total - CachedTail)
    requires |ms| <= total
    ensures var first := if total >= CachedTail then total - CachedTail else 0;
            CachedCount(ms) == if |ms| <= first then 0 else |ms| - first
    decreases |ms|
  {
    if ms != [] {
      var init := ms[..|ms| - 1];
      var last := ms[|ms| - 1];
      CachedCountOfMarks(init, total);
      assert last.content == [last.content[0]];
      if last.content[0].cached {
        assert last.content[0] in last.content;
      }
    }
  }

  /** Exactly the last min(4, n) of the n processed messages are marked for caching. */
  lemma CachedLastFour(messages: seq<RawMessage>)
    ensures var r := ProcessMessages(messages);
            r.Success? ==> CachedCount(r.value) == if |r.value| < CachedTail then |r.value| else CachedTail
  {
    ProcessMessagesSpec(messages);
    var r := ProcessMessages(messages);
    if r.Success? {
      CachedCountOfMarks(r.value, |r.value|);
    }
  }

  /**
   * A prepared request always has the fixed fields and at least one message, so the check in
   * `_validate_request_data` never fails after it.
   */
  lemma ValidationUnreachable(settings: Settings, messages: seq<RawMessage>, systemPrompt: Option<string>)
    ensures var r := PrepareRequestData(settings, messages, systemPrompt);
            && (r.Failure? <==> KeptOf(messages) == [])
            && (r.Success? ==>
                  && r.value.model == settings.model && r.value.betaHeader == PromptCachingBeta
                  && r.value.maxTokens == settings.maxTokens
                  && (r.value.system.Some? <==> systemPrompt.Some? && systemPrompt.value != "")
                  && ValidateRequestData(r.value) == Success(r.value))
  {
    ProcessMessagesSpec(messages);
  }
}
