/**
 * The conversation records shared by the prompter and the pipeline
 * (my_engineer/shared_models/chat_models.py): a message with its role and content, the
 * rule that user and assistant messages alternate, and the conversation state that is
 * saved between turns and rebuilt with `from_dict`.
 *
 * A dict given to `from_dict` is one of the `...Dict` values below: a key that is absent
 * or null is `None`, and each value is already of the kind the record expects. Validation
 * failures become `Failure` with the reason.
 */
module ChatModels {
  import opened Wrappers

  /** The three values `Message.role` accepts. */
  datatype Role = System | User | Assistant

  function RoleName(r: Role): string {
    match r
    case System => "system"
    case User => "user"
    case Assistant => "assistant"
  }

  /** Validation of the `Literal["system", "user", "assistant"]` field. */
  function ParseRole(s: string): (r: Option<Role>)
    ensures r.Some? <==> s == "system" || s == "user" || s == "assistant"
    ensures r.Some? ==> RoleName(r.value) == s
  {
    if s == "system" then Some(System)
    else if s == "user" then Some(User)
    else if s == "assistant" then Some(Assistant)
    else None
  }

  lemma RoleRoundTrip(r: Role)
    ensures ParseRole(RoleName(r)) == Some(r)
  {
  }

  /** `MessageContent`: its `type` can only be "text", so the text is all it carries. */
  datatype MessageContent = MessageContent(text: string)

  /** `Union[str, List[MessageContent]]`. */
  datatype Content = Plain(s: string) | Parts(items: seq<MessageContent>)

  datatype Message = Message(role: Role, content: Content)

  const InvalidMessage := "invalid message"
  const AssistantMustFollowUser := "An assistant message must follow each user message"
  const UserMustFollowAssistant := "A user message must follow each assistant message"
  const TurnNumberTooSmall := "turn_number must be greater than or equal to 1"

  // ---------------------------------------------------------------------------
  // Message.from_dict
  // ---------------------------------------------------------------------------

  /** A content item as a dict: its "type" and "text" entries. */
  datatype ItemDict = ItemDict(kind: Option<string>, text: Option<string>)

  /** The "content" entry of a message dict: a string, a list of item dicts, one dict, or anything else. */
  datatype ContentDict = StringContent(s: string) | ListContent(items: seq<ItemDict>) | DictContent(item: ItemDict) | OtherContent

  datatype MessageDict = MessageDict(role: Option<string>, content: Option<ContentDict>)

  /** An item validates when its type is absent (it defaults to "text") or "text", and it has a text. */
  function ParseItem(d: ItemDict): (r: Option<MessageContent>)
    ensures r.Some? <==> (d.kind.None? || d.kind == Some("text")) && d.text.Some?
    ensures r.Some? ==> r.value.text == d.text.value
  {
    if (d.kind.None? || d.kind == Some("text")) && d.text.Some? then Some(MessageContent(d.text.value)) else None
  }

  function ParseItems(ds: seq<ItemDict>): (r: Option<seq<MessageContent>>)
    ensures r.Some? <==> forall i :: 0 <= i < |ds| ==> ParseItem(ds[i]).Some?
    ensures r.Some? ==> |r.value| == |ds| && forall i :: 0 <= i < |ds| ==> Some(r.value[i]) == ParseItem(ds[i])
  {
    if ds == [] then Some([])
    else
      match (ParseItem(ds[0]), ParseItems(ds[1..]))
      case (Some(c), Some(cs)) => Some([c] + cs)
      case _ => None
  }

  /**
   * The content union: a string is kept, a list validates item by item. A single dict is
   * first turned into a `MessageContent`, which is neither a string nor a list, so it is
   * refused, like any other value.
   */
  function ParseContent(d: ContentDict): (r: Option<Content>)
    ensures d.DictContent? || d.OtherContent? ==> r.None?
    ensures d.StringContent? ==> r == Some(Plain(d.s))
    ensures d.ListContent? ==> (r.Some? <==> ParseItems(d.items).Some?)
  {
    match d
    case StringContent(s) => Some(Plain(s))
    case ListContent(items) => (match ParseItems(items) case Some(cs) => Some(Parts(cs)) case None => None)
    case DictContent(_) => None
    case OtherContent => None
  }

  /** `Message.from_dict`: both fields are required and must validate. */
  function MessageFromDict(d: MessageDict): (r: Result<Message, string>)
    ensures r.Success? <==> d.role.Some? && ParseRole(d.role.value).Some? && d.content.Some? && ParseContent(d.content.value).Some?
    ensures r.Success? ==> RoleName(r.value.role) == d.role.value && Some(r.value.content) == ParseContent(d.content.value)
    ensures r.Failure? ==> r.error == InvalidMessage
  {
    if d.role.None? || d.content.None? then Failure(InvalidMessage)
    else
      match (ParseRole(d.role.value), ParseContent(d.content.value))
      case (Some(role), Some(content)) => Success(Message(role, content))
      case _ => Failure(InvalidMessage)
  }

  /** `model_dump` of an item, a content and a message. */
  function ItemToDict(c: MessageContent): ItemDict {
    ItemDict(Some("text"), Some(c.text))
  }

  function ContentToDict(c: Content): ContentDict {
    match c
    case Plain(s) => StringContent(s)
    case Parts(items) => ListContent(seq(|items|, i requires 0 <= i < |items| => ItemToDict(items[i])))
  }

  /** `model_dump` of a message; reading the dict back gives the same message. */
  function MessageToDict(m: Message): (r: MessageDict)
    ensures MessageFromDict(r) == Success(m)
  {
    RoleRoundTrip(m.role);
    var r := MessageDict(Some(RoleName(m.role)), Some(ContentToDict(m.content)));
    if m.content.Parts? then
      var items := m.content.items;
      var ds := ContentToDict(m.content).items;
      assert forall i :: 0 <= i < |ds| ==> ParseItem(ds[i]) == Some(items[i]);
      assert ParseItems(ds).value == items;
      r
    else r
  }

  // ---------------------------------------------------------------------------
  // MessageSequence.validate_message_sequence
  // ---------------------------------------------------------------------------

  /** `next` may come right after `prev`: a user message is answered by the assistant and vice versa. */
  predicate Follows(prev: Role, next: Role) {
    (prev == User ==> next == Assistant) && (prev == Assistant ==> next == User)
  }

  /** Every neighbouring pair is allowed. */
  predicate WellFormed(ms: seq<Message>) {
    forall i :: 1 <= i < |ms| ==> Follows(ms[i - 1].role, ms[i].role)
  }

  /** The ValueError raised for a message that cannot follow a `prev` message. */
  function BreakMessage(prev: Role): string {
    if prev == User then AssistantMustFollowUser else UserMustFollowAssistant
  }

  /** The first index from `i` on whose message may not follow its predecessor. */
  function FirstBreakFrom(ms: seq<Message>, i: nat): (r: Option<nat>)
    requires 1 <= i
    ensures r.Some? ==> i <= r.value < |ms| && !Follows(ms[r.value - 1].role, ms[r.value].role)
    ensures r.Some? ==> forall j :: i <= j < r.value ==> Follows(ms[j - 1].role, ms[j].role)
    ensures r.None? <==> forall j :: i <= j < |ms| ==> Follows(ms[j - 1].role, ms[j].role)
    decreases |ms| - i
  {
    if i >= |ms| then None
    else if !Follows(ms[i - 1].role, ms[i].role) then Some(i)
    else FirstBreakFrom(ms, i + 1)
  }

  /** What the validator does with `ms`: accept it, or raise for its first bad pair. */
  function CheckSequence(ms: seq<Message>): (r: Result<seq<Message>, string>)
    ensures r.Success? <==> WellFormed(ms)
    ensures r.Success? ==> r.value == ms
    ensures r.Failure? ==>
              exists k :: 1 <= k < |ms| && WellFormed(ms[..k])
                       && !Follows(ms[k - 1].role, ms[k].role)
                       && r.error == BreakMessage(ms[k - 1].role)
  {
    match FirstBreakFrom(ms, 1)
    case None => Success(ms)
    case Some(k) =>
      assert WellFormed(ms[..k]);
      Failure(BreakMessage(ms[k - 1].role))
  }

  /** `validate_message_sequence`. */
  method ValidateMessageSequence(messages: seq<Message>) returns (r: Result<seq<Message>, string>)
    ensures r == CheckSequence(messages)
  {
    var i := 1;
    while i < |messages|
      invariant 1 <= i
      invariant FirstBreakFrom(messages, i) == FirstBreakFrom(messages, 1)
    {
      if messages[i - 1].role == User && messages[i].role != Assistant {
        assert FirstBreakFrom(messages, i) == Some(i);
        return Failure(AssistantMustFollowUser);
      }
      if messages[i - 1].role == Assistant && messages[i].role != User {
        assert FirstBreakFrom(messages, i) == Some(i);
        return Failure(UserMustFollowAssistant);
      }
      assert FirstBreakFrom(messages, i) == FirstBreakFrom(messages, i + 1);
      i := i + 1;
    }
    assert FirstBreakFrom(messages, i) == None;
    r := Success(messages);
  }

  /** A list of at most one message is always accepted. */
  lemma ShortAlwaysWellFormed(ms: seq<Message>)
    requires |ms| <= 1
    ensures CheckSequence(ms) == Success(ms)
  {
  }

  /** Any role may follow a system message, and a system message may follow only a system message. */
  lemma SystemRule(r: Role)
    ensures Follows(System, r)
    ensures Follows(r, System) <==> r == System
  {
  }

  /** Without system messages, the roles of a well-formed list alternate. */
  lemma WellFormedAlternates(ms: seq<Message>)
    requires WellFormed(ms)
    requires forall i :: 0 <= i < |ms| ==> ms[i].role != System
    ensures forall i :: 1 <= i < |ms| ==> ms[i].role != ms[i - 1].role
  {
  }

  /**
   * A user message and its answer can be appended to a well-formed list that is empty or
   * ends with the assistant or the system; the result is well-formed and ends with the assistant.
   */
  lemma {:induction false} AppendTurn(ms: seq<Message>, question: Content, answer: Content)
    requires WellFormed(ms)
    requires ms == [] || ms[|ms| - 1].role != User
    ensures var ms' := ms + [Message(User, question), Message(Assistant, answer)];
            WellFormed(ms') && ms'[|ms'| - 1].role == Assistant
  {
    var ms' := ms + [Message(User, question), Message(Assistant, answer)];
    forall i | 1 <= i < |ms'|
      ensures Follows(ms'[i - 1].role, ms'[i].role)
    {
      if i < |ms| {
        assert ms'[i - 1] == ms[i - 1] && ms'[i] == ms[i];
      }
    }
  }

  // ---------------------------------------------------------------------------
  // ConversationState
  // ---------------------------------------------------------------------------

  /** The fields of a conversation state, as a value. */
  datatype StateFields = StateFields(
    turnNumber: int,
    messages: seq<Message>,
    previousRun: Option<string>,
    context: Option<string>,
    smartContextAdded: bool)

  /** The state of a conversation; the chat engine appends to its messages in place. */
  class ConversationState {
    var turnNumber: int
    var messages: seq<Message>
    var previousRun: Option<string>
    var context: Option<string>
    var smartContextAdded: bool

    /**
     * `turn_number` is at least 1, its `ge=1` constraint. The sequence rule is checked only when a
     * state is built from a dict (`StateFromDict`), and later appends in place are not re-validated,
     * so it is not part of this invariant.
     */
    ghost predicate Valid()
      reads this
    {
      turnNumber >= 1
    }

    function Fields(): StateFields
      reads this
    {
      StateFields(turnNumber, messages, previousRun, context, smartContextAdded)
    }

    /** The defaults: turn 1, no messages, no previous run, no context, no smart context yet. */
    constructor ()
      ensures Valid()
      ensures Fields() == DefaultFields
    {
      turnNumber := 1;
      messages := [];
      previousRun := None;
      context := None;
      smartContextAdded := false;
    }

    /** A state with the given fields, once they have validated. */
    constructor FromFields(f: StateFields)
      requires f.turnNumber >= 1
      ensures Valid() && Fields() == f
    {
      turnNumber := f.turnNumber;
      messages := f.messages;
      previousRun := f.previousRun;
      context := f.context;
      smartContextAdded := f.smartContextAdded;
    }
  }

  const DefaultFields := StateFields(1, [], None, None, false)

  /**
   * A state dict. `messages` is the "messages" list inside "message_sequence", `None` when
   * either key is missing (the sequence then defaults to an empty list).
   */
  datatype StateDict = StateDict(
    turnNumber: Option<int>,
    messages: Option<seq<MessageDict>>,
    previousRun: Option<string>,
    context: Option<string>,
    smartContextAdded: Option<bool>)

  /** The list comprehension of `ConversationState.from_dict`: every message through `Message.from_dict`. */
  function MessagesFromDicts(ds: seq<MessageDict>): (r: Result<seq<Message>, string>)
    ensures r.Success? <==> forall i :: 0 <= i < |ds| ==> MessageFromDict(ds[i]).Success?
    ensures r.Success? ==> |r.value| == |ds| && forall i :: 0 <= i < |ds| ==> Success(r.value[i]) == MessageFromDict(ds[i])
    ensures r.Failure? ==> r.error == InvalidMessage
  {
    if ds == [] then Success([])
    else
      match (MessageFromDict(ds[0]), MessagesFromDicts(ds[1..]))
      case (Success(m), Success(ms)) => Success([m] + ms)
      case _ => Failure(InvalidMessage)
  }

  /**
   * `ConversationState.from_dict`: the messages are converted first; then the fields
   * validate, the sequence rule included, and absent fields take their defaults.
   */
  function StateFromDict(d: StateDict): (r: Result<StateFields, string>)
    ensures var raw := if d.messages.Some? then d.messages.value else [];
            && (r.Success? <==>
                  && (forall i :: 0 <= i < |raw| ==> MessageFromDict(raw[i]).Success?)
                  && (d.turnNumber.None? || d.turnNumber.value >= 1)
                  && WellFormed(MessagesFromDicts(raw).value))
            && (r.Success? ==>
                  && r.value.turnNumber >= 1
                  && (d.turnNumber.None? ==> r.value.turnNumber == 1)
                  && (d.turnNumber.Some? ==> r.value.turnNumber == d.turnNumber.value)
                  && |r.value.messages| == |raw|
                  && (forall i :: 0 <= i < |raw| ==> Success(r.value.messages[i]) == MessageFromDict(raw[i]))
                  && r.value.previousRun == d.previousRun && r.value.context == d.context
                  && (d.smartContextAdded.None? ==> !r.value.smartContextAdded)
                  && (d.smartContextAdded.Some? ==> r.value.smartContextAdded == d.smartContextAdded.value))
  {
    var raw := if d.messages.Some? then d.messages.value else [];
    match MessagesFromDicts(raw)
    case Failure(e) => Failure(e)
    case Success(ms) =>
      var turn := if d.turnNumber.Some? then d.turnNumber.value else 1;
      if turn < 1 then Failure(TurnNumberTooSmall)
      else
        match CheckSequence(ms)
        case Failure(e) => Failure(e)
        case Success(_) =>
          Success(StateFields(turn, ms, d.previousRun, d.context,
                              if d.smartContextAdded.Some? then d.smartContextAdded.value else false))
  }

  /** An empty dict gives the default state. */
  lemma EmptyDictDefaults()
    ensures StateFromDict(StateDict(None, None, None, None, None)) == Success(DefaultFields)
  {
  }

  /** `model_dump` of a state. */
  function StateToDict(f: StateFields): (r: StateDict)
    ensures f.turnNumber >= 1 && WellFormed(f.messages) ==> StateFromDict(r) == Success(f)
  {
    var ds := seq(|f.messages|, i requires 0 <= i < |f.messages| => MessageToDict(f.messages[i]));
    assert forall i :: 0 <= i < |ds| ==> MessageFromDict(ds[i]) == Success(f.messages[i]);
    assert MessagesFromDicts(ds).Success? ==> MessagesFromDicts(ds).value == f.messages;
    StateDict(Some(f.turnNumber), Some(ds), f.previousRun, f.context, Some(f.smartContextAdded))
  }

  /** A state built from a dict. */
  method ConversationStateFromDict(d: StateDict) returns (r: Result<ConversationState, string>)
    ensures r.Failure? <==> StateFromDict(d).Failure?
    ensures r.Failure? ==> r.error == StateFromDict(d).error
    ensures r.Success? ==> fresh(r.value) && r.value.Valid() && r.value.Fields() == StateFromDict(d).value
  {
    var parsed := StateFromDict(d);
    if parsed.Failure? {
      r := Failure(parsed.error);
    } else {
      var s := new ConversationState.FromFields(parsed.value);
      r := Success(s);
    }
  }
}
