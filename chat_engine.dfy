/**
 * The prompter's conversation loop (my_engineer/llm_prompter/src/chat_engine.py): an empty
 * history is seeded with the project context, every turn sends the history flattened to
 * plain role/content entries plus the new prompt, and a usable reply is recorded with its
 * prompt in the history.
 *
 * The context text (`get_context`) and the provider's reply are parameters: the reply is
 * what the provider answers to the entries it is sent. Logging and the console spinner are
 * left out.
 */
module ChatEngine {
  import opened Wrappers
  import opened Text
  import opened ChatModels

  /** A message as sent to the provider: `{"role": ..., "content": ...}`. */
  datatype ChatEntry = ChatEntry(role: string, content: string)

  /** What the provider gives back: a string, some other value, or an exception it raised. */
  datatype Reply = Reply(text: string) | NonString | ProviderError(error: string)

  const RunDirMissing := "run_dir must be provided when initializing ChatEngine"
  const UserRequestMissing := "user_request must exist"
  const EmptyResponse := "Received an empty or invalid response from the LLM provider"
  const Acknowledgement := "Thank you for providing this initial context. How can I help?"

  /** A run directory that passes `assert self.run_dir`: given and not empty. */
  predicate HasRunDir(runDir: Option<string>) {
    runDir.Some? && runDir.value != ""
  }

  function Texts(items: seq<MessageContent>): (r: seq<string>)
    ensures |r| == |items| && forall i :: 0 <= i < |items| ==> r[i] == items[i].text
  {
    seq(|items|, i requires 0 <= i < |items| => items[i].text)
  }

  /** A message's content as one string: list content is its texts joined by single spaces. */
  function Flatten(c: Content): (r: string)
    ensures c.Parts? && |c.items| == 1 ==> r == c.items[0].text
  {
    match c
    case Plain(s) => s
    case Parts(items) => Join(Texts(items), " ")
  }

  function ToEntry(m: Message): ChatEntry {
    ChatEntry(RoleName(m.role), Flatten(m.content))
  }

  /** The entries sent for `history` and `prompt`: one per message, then the prompt from the user. */
  function Entries(history: seq<Message>, prompt: string): (r: seq<ChatEntry>)
    ensures |r| == |history| + 1
    ensures forall i :: 0 <= i < |history| ==> r[i] == ToEntry(history[i])
    ensures r[|history|] == ChatEntry("user", prompt)
  {
    seq(|history|, i requires 0 <= i < |history| => ToEntry(history[i])) + [ChatEntry("user", prompt)]
  }

  /** The two messages that open a conversation. */
  function OpeningMessages(context: string): seq<Message> {
    [Message(User, Parts([MessageContent("<context>" + context + "</context>")])),
     Message(Assistant, Parts([MessageContent(Acknowledgement)]))]
  }

  /** The history a turn works on: the opening messages when it is empty. */
  function Seeded(history: seq<Message>, context: string): seq<Message> {
    if history == [] then OpeningMessages(context) else history
  }

  /** The history after a turn, and what the turn returns or raises. */
  datatype TurnOutcome = TurnOutcome(history: seq<Message>, result: Result<string, string>)

  /**
   * One call of `get_raw_instructions`. The run directory is checked first; an empty history
   * is then seeded, which needs a non-empty prompt; a reply that is not a string, is blank or
   * was raised fails after the seeding, so the seeded history stays.
   */
  function Turn(runDir: Option<string>, history: seq<Message>, context: string, prompt: string, reply: Reply)
    : (r: TurnOutcome)
    ensures history <= r.history && |r.history| <= |history| + 4
  {
    if !HasRunDir(runDir) then TurnOutcome(history, Failure(RunDirMissing))
    else if history == [] && prompt == "" then TurnOutcome(history, Failure(UserRequestMissing))
    else
      var h := Seeded(history, context);
      match reply
      case ProviderError(e) => TurnOutcome(h, Failure(e))
      case NonString => TurnOutcome(h, Failure(EmptyResponse))
      case Reply(t) =>
        if IsBlank(t) then TurnOutcome(h, Failure(EmptyResponse))
        else TurnOutcome(h + [Message(User, Plain(prompt)), Message(Assistant, Plain(t))], Success(t))
  }

  /** The engine: the provider and logger are left out, the run directory stays. */
  class Engine {
    var runDir: Option<string>

    constructor (runDir: Option<string>)
      ensures this.runDir == runDir
    {
      this.runDir := runDir;
    }

    /** `set_run_dir`. */
    method SetRunDir(runDir: string)
      modifies this
      ensures this.runDir == Some(runDir)
    {
      this.runDir := Some(runDir);
    }

    /**
     * `initialize_conversation_state`: after the two assertions, the context message and the
     * acknowledgement are appended to the history; a failed assertion changes nothing.
     */
    method InitializeConversationState(state: ConversationState, context: string, userRequest: string)
      returns (r: Result<(), string>)
      modifies state
      ensures !HasRunDir(runDir) ==> r == Failure(RunDirMissing)
      ensures HasRunDir(runDir) && userRequest == "" ==> r == Failure(UserRequestMissing)
      ensures r.Success? <==> HasRunDir(runDir) && userRequest != ""
      ensures r.Success? ==> state.messages == old(state.messages) + OpeningMessages(context)
      ensures r.Failure? ==> state.messages == old(state.messages)
      ensures state.turnNumber == old(state.turnNumber) && state.previousRun == old(state.previousRun)
      ensures state.context == old(state.context) && state.smartContextAdded == old(state.smartContextAdded)
    {
      if !HasRunDir(runDir) {
        return Failure(RunDirMissing);
      }
      if userRequest == "" {
        return Failure(UserRequestMissing);
      }
      var contextMessage := Message(User, Parts([MessageContent("<context>" + context + "</context>")]));
      var assistantMessage := Message(Assistant, Parts([MessageContent(Acknowledgement)]));
      state.messages := state.messages + [contextMessage];
      state.messages := state.messages + [assistantMessage];
      r := Success(());
    }

    /** `prepare_messages`: a new list of plain entries, the history's and then the prompt. */
    method PrepareMessages(state: ConversationState, prompt: string) returns (messages: seq<ChatEntry>)
      ensures messages == Entries(state.messages, prompt)
    {
      var history := state.messages;
      messages := [];
      for i := 0 to |history|
        invariant |messages| == i
        invariant forall j :: 0 <= j < i ==> messages[j] == ToEntry(history[j])
      {
        var msg := history[i];
        var content;
        if msg.content.Parts? {
          content := Join(Texts(msg.content.items), " ");
        } else {
          content := msg.content.s;
        }
        messages := messages + [ChatEntry(RoleName(msg.role), content)];
      }
      messages := messages + [ChatEntry("user", prompt)];
    }

    /**
     * `get_raw_instructions`. `sent` is what the provider is given (`None` when an assertion
     * fails before the request); the history and the result are those of `Turn`.
     */
    method GetRawInstructions(state: ConversationState, prompt: string, context: string, reply: Reply)
      returns (result: Result<string, string>, sent: Option<seq<ChatEntry>>)
      modifies state
      ensures TurnOutcome(state.messages, result) == Turn(runDir, old(state.messages), context, prompt, reply)
      ensures sent.Some? <==> HasRunDir(runDir) && (old(state.messages) != [] || prompt != "")
      ensures sent.Some? ==> sent.value == Entries(Seeded(old(state.messages), context), prompt)
      ensures state.turnNumber == old(state.turnNumber) && state.previousRun == old(state.previousRun)
      ensures state.context == old(state.context) && state.smartContextAdded == old(state.smartContextAdded)
    {
      if !HasRunDir(runDir) {
        return Failure(RunDirMissing), None;
      }
      if state.messages == [] {
        var init := InitializeConversationState(state, context, prompt);
        if init.Failure? {
          assert prompt == "" && init.error == UserRequestMissing;
          return Failure(init.error), None;
        }
        assert state.messages == OpeningMessages(context);
      }
      assert state.messages == Seeded(old(state.messages), context);
      var messages := PrepareMessages(state, prompt);
      sent := Some(messages);
      if reply.Reply? && Strip(reply.text) != "" {
        var response := reply.text;
        StripEmptyIffBlank(response);
        TurnAnswered(runDir, old(state.messages), context, prompt, response);
        state.messages := state.messages + [Message(User, Plain(prompt)), Message(Assistant, Plain(response))];
        result := Success(response);
      } else {
        if reply.Reply? {
          StripEmptyIffBlank(reply.text);
        }
        TurnUnanswered(runDir, old(state.messages), context, prompt, reply);
        result := Failure(if reply.ProviderError? then reply.error else EmptyResponse);
      }
    }
  }

  /** The outcome of a turn that gets a usable reply. */
  lemma TurnAnswered(runDir: Option<string>, history: seq<Message>, context: string, prompt: string, t: string)
    requires HasRunDir(runDir) && (history != [] || prompt != "") && !IsBlank(t)
    ensures Turn(runDir, history, context, prompt, Reply(t))
            == TurnOutcome(Seeded(history, context) + [Message(User, Plain(prompt)), Message(Assistant, Plain(t))], Success(t))
  {
  }

  /** The outcome of a turn whose reply is an error, not a string, or blank: the seeded history stays. */
  lemma TurnUnanswered(runDir: Option<string>, history: seq<Message>, context: string, prompt: string, reply: Reply)
    requires HasRunDir(runDir) && (history != [] || prompt != "")
    requires reply.Reply? ==> IsBlank(reply.text)
    ensures Turn(runDir, history, context, prompt, reply)
            == TurnOutcome(Seeded(history, context), Failure(if reply.ProviderError? then reply.error else EmptyResponse))
  {
  }

  /**
   * A turn succeeds exactly when the run directory is set, an empty history comes with a
   * prompt, and the reply is a non-blank string; it then returns the reply, and the history
   * gains exactly the prompt and the reply, after the opening messages when it was empty.
   */
  lemma TurnSuccess(runDir: Option<string>, history: seq<Message>, context: string, prompt: string, reply: Reply)
    ensures var o := Turn(runDir, history, context, prompt, reply);
            && (o.result.Success? <==>
                  HasRunDir(runDir) && (history != [] || prompt != "") && reply.Reply? && !IsBlank(reply.text))
            && (o.result.Success? ==>
                  && o.result.value == reply.text
                  && o.history == Seeded(history, context) + [Message(User, Plain(prompt)), Message(Assistant, Plain(reply.text))])
  {
  }

  /**
   * A failed turn leaves a non-empty history as it was; an empty one is seeded only when the
   * failure is the reply's, and a blank or non-string reply reports the empty-response error.
   */
  lemma TurnFailure(runDir: Option<string>, history: seq<Message>, context: string, prompt: string, reply: Reply)
    ensures var o := Turn(runDir, history, context, prompt, reply);
            o.result.Failure? ==>
              && (history != [] ==> o.history == history)
              && (!HasRunDir(runDir) ==> o.history == history && o.result.error == RunDirMissing)
              && (HasRunDir(runDir) && history == [] && prompt == "" ==> o.history == history && o.result.error == UserRequestMissing)
              && (HasRunDir(runDir) && (history != [] || prompt != "") ==>
                    && o.history == Seeded(history, context)
                    && (reply.NonString? || (reply.Reply? && IsBlank(reply.text)) ==> o.result.error == EmptyResponse))
  {
  }

  /**
   * A history that follows the alternation rule and does not end with a user message still
   * follows it and still does not end with one after a turn; after a successful turn it ends
   * with the assistant.
   */
  lemma TurnKeepsWellFormed(runDir: Option<string>, history: seq<Message>, context: string, prompt: string, reply: Reply)
    requires WellFormed(history)
    requires history == [] || history[|history| - 1].role != User
    ensures var o := Turn(runDir, history, context, prompt, reply);
            && WellFormed(o.history)
            && (o.history == [] || o.history[|o.history| - 1].role != User)
            && (o.result.Success? ==> o.history[|o.history| - 1].role == Assistant)
  {
    var o := Turn(runDir, history, context, prompt, reply);
    var s := Seeded(history, context);
    if history == [] {
      assert WellFormed(s);
    }
    if o.result.Success? {
      AppendTurn(s, Plain(prompt), Plain(reply.text));
    }
  }

  /**
   * The first request of a conversation opens with the wrapped context from the user and the
   * acknowledgement from the assistant, and closes with the prompt.
   */
  lemma FirstRequest(context: string, prompt: string)
    ensures var e := Entries(Seeded([], context), prompt);
            e == [ChatEntry("user", "<context>" + context + "</context>"),
                  ChatEntry("assistant", Acknowledgement),
                  ChatEntry("user", prompt)]
  {
  }

  /** Plain content is sent unchanged, with the message's role. */
  lemma PlainSentUnchanged(history: seq<Message>, prompt: string, i: nat)
    requires i < |history| && history[i].content.Plain?
    ensures Entries(history, prompt)[i] == ChatEntry(RoleName(history[i].role), history[i].content.s)
  {
  }
}
