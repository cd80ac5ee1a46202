/**
 * The helpers shared by the model providers (my_engineer/llm_providers/providers/utils.py):
 * the output-token budget per model, and `prepare_messages`, which drops the messages the
 * API would refuse and merges runs of messages from the same speaker.
 *
 * A message dict is the value `RawMessage`; the source appends the caller's dict itself and
 * then extends its content in place, which the caller can observe. The model builds new
 * values instead.
 */
module ProviderUtils {
  import opened Text

  /** A message dict: its "role" and its "content" string. */
  datatype RawMessage = RawMessage(role: string, content: string)

  const HaikuModel := "claude-3-haiku-20240307"
  const SonnetModel := "claude-3-5-sonnet-20240620"

  /** `MODEL_MAX_TOKENS`. */
  const ModelMaxTokens: map<string, nat> := map[HaikuModel := 4096, SonnetModel := 8192]

  /** `get_max_tokens`: the table's budget, 4096 for a model it does not list. */
  function GetMaxTokens(model: string): (r: nat)
    ensures model == HaikuModel ==> r == 4096
    ensures model == SonnetModel ==> r == 8192
    ensures model != HaikuModel && model != SonnetModel ==> r == 4096
  {
    if model in ModelMaxTokens then ModelMaxTokens[model] else 4096
  }

  // ---------------------------------------------------------------------------
  // prepare_messages
  // ---------------------------------------------------------------------------

  /**
   * A message that is passed on: from the user or the assistant, with content that is not
   * blank (`content.strip()` is not empty; see `StripEmptyIffBlank`).
   */
  predicate Kept(m: RawMessage) {
    (m.role == "user" || m.role == "assistant") && !IsBlank(m.content)
  }

  /** One turn of the loop: skip, append, or extend the last message's content after a newline. */
  function Add(acc: seq<RawMessage>, m: RawMessage): seq<RawMessage> {
    if !Kept(m) then acc
    else if acc == [] || acc[|acc| - 1].role != m.role then acc + [m]
    else
      var last := acc[|acc| - 1];
      acc[..|acc| - 1] + [RawMessage(last.role, last.content + "\n" + m.content)]
  }

  /** What `prepare_messages` returns for `ms`. */
  function Prepared(ms: seq<RawMessage>): seq<RawMessage> {
    if ms == [] then [] else Add(Prepared(ms[..|ms| - 1]), ms[|ms| - 1])
  }

  /** `prepare_messages`. */
  method PrepareMessages(messages: seq<RawMessage>) returns (prepared: seq<RawMessage>)
    ensures prepared == Prepared(messages)
  {
    prepared := [];
    for i := 0 to |messages|
      invariant prepared == Prepared(messages[..i])
    {
      assert messages[..i + 1][..i] == messages[..i];
      assert Prepared(messages[..i + 1]) == Add(prepared, messages[i]);
      var message := messages[i];
      StripEmptyIffBlank(message.content);
      if (message.role == "user" || message.role == "assistant") && Strip(message.content) != "" {
        if prepared == [] || prepared[|prepared| - 1].role != message.role {
          prepared := prepared + [message];
        } else {
          var last := prepared[|prepared| - 1];
          prepared := prepared[..|prepared| - 1] + [RawMessage(last.role, last.content + "\n" + message.content)];
        }
      }
    }
    assert messages[..|messages|] == messages;
  }

  /** No two neighbours share a role. */
  predicate Alternating(ms: seq<RawMessage>) {
    forall i :: 0 <= i < |ms| - 1 ==> ms[i].role != ms[i + 1].role
  }

  /** The messages that pass the filter, in order. */
  function KeptOf(ms: seq<RawMessage>): (r: seq<RawMessage>)
    ensures forall m :: m in r ==> Kept(m)
  {
    if ms == [] then []
    else KeptOf(ms[..|ms| - 1]) + if Kept(ms[|ms| - 1]) then [ms[|ms| - 1]] else []
  }

  function Contents(ms: seq<RawMessage>): (r: seq<string>)
    ensures |r| == |ms|
  {
    if ms == [] then [] else Contents(ms[..|ms| - 1]) + [ms[|ms| - 1].content]
  }

  function Roles(ms: seq<RawMessage>): (r: seq<string>)
    ensures |r| == |ms| && (ms != [] ==> r[|r| - 1] == ms[|ms| - 1].role)
  {
    if ms == [] then [] else Roles(ms[..|ms| - 1]) + [ms[|ms| - 1].role]
  }

  /** `rs` with each run of equal neighbours cut down to one. */
  function Compress(rs: seq<string>): (r: seq<string>)
    ensures |r| <= |rs|
    ensures rs != [] ==> r != [] && r[|r| - 1] == rs[|rs| - 1]
  {
    if rs == [] then []
    else
      var c := Compress(rs[..|rs| - 1]);
      if c != [] && c[|c| - 1] == rs[|rs| - 1] then c else c + [rs[|rs| - 1]]
  }

  lemma NotBlankExtended(a: string, b: string)
    requires !IsBlank(a)
    ensures !IsBlank(a + b)
  {
    var i :| 0 <= i < |a| && !IsSpace(a[i]);
    assert (a + b)[i] == a[i];
  }

  /**
   * Every prepared message is from the user or the assistant with non-blank content, and no
   * two neighbours have the same role.
   */
  lemma {:induction false} PreparedShape(ms: seq<RawMessage>)
    ensures Alternating(Prepared(ms))
    ensures forall m :: m in Prepared(ms) ==> Kept(m)
    decreases |ms|
  {
    if ms != [] {
      var acc := Prepared(ms[..|ms| - 1]);
      PreparedShape(ms[..|ms| - 1]);
      var m := ms[|ms| - 1];
      if Kept(m) && acc != [] && acc[|acc| - 1].role == m.role {
        var last := acc[|acc| - 1];
        assert last in acc;
        NotBlankExtended(last.content, "\n" + m.content);
        assert last.content + "\n" + m.content == last.content + ("\n" + m.content);
      }
    }
  }

  /** Nothing comes out exactly when no message passes the filter (so empty input gives empty output). */
  lemma {:induction false} PreparedEmptyIff(ms: seq<RawMessage>)
    ensures Prepared(ms) == [] <==> KeptOf(ms) == []
    decreases |ms|
  {
    if ms != [] {
      PreparedEmptyIff(ms[..|ms| - 1]);
    }
  }

  /** Extending the last of the joined pieces extends the joined text. */
  lemma UnlinesExtendLast(ps: seq<string>, c: string)
    requires |ps| >= 1
    ensures Unlines(ps[..|ps| - 1] + [ps[|ps| - 1] + "\n" + c]) == Unlines(ps) + "\n" + c
  {
    var n := |ps|;
    if n > 1 {
      JoinSnoc(ps[..n - 1], ps[n - 1] + "\n" + c, "\n");
      JoinSnoc(ps[..n - 1], ps[n - 1], "\n");
      assert ps[..n - 1] + [ps[n - 1]] == ps;
    }
  }

  lemma UnlinesAppend(ps: seq<string>, c: string)
    ensures Unlines(ps + [c]) == if ps == [] then c else Unlines(ps) + "\n" + c
  {
    if ps != [] {
      JoinSnoc(ps, c, "\n");
    }
  }

  /** The contents of the kept messages come out in order: joining them line by line gives the same text. */
  lemma {:induction false} PreparedContents(ms: seq<RawMessage>)
    ensures Unlines(Contents(Prepared(ms))) == Unlines(Contents(KeptOf(ms)))
    decreases |ms|
  {
    if ms != [] {
      var init := ms[..|ms| - 1];
      var m := ms[|ms| - 1];
      var acc := Prepared(init);
      PreparedContents(init);
      PreparedEmptyIff(init);
      if Kept(m) {
        assert Contents(KeptOf(ms)) == Contents(KeptOf(init)) + [m.content];
        UnlinesAppend(Contents(KeptOf(init)), m.content);
        if acc == [] || acc[|acc| - 1].role != m.role {
          assert (acc + [m])[..|acc|] == acc;
          UnlinesAppend(Contents(acc), m.content);
        } else {
          var last := acc[|acc| - 1];
          var ps := Contents(acc);
          assert Contents(Prepared(ms)) == ps[..|ps| - 1] + [ps[|ps| - 1] + "\n" + m.content];
          UnlinesExtendLast(ps, m.content);
        }
      } else {
        assert KeptOf(ms) == KeptOf(init) + [];
        assert KeptOf(init) + [] == KeptOf(init);
      }
    }
  }

  lemma MergeKeepsRoles(acc: seq<RawMessage>, merged: RawMessage, rs: seq<string>)
    requires |acc| > 0 && merged.role == acc[|acc| - 1].role && Roles(acc) == Compress(rs)
    ensures Roles(acc[..|acc| - 1] + [merged]) == Compress(rs + [merged.role])
  {
    RolesSnoc(acc[..|acc| - 1], merged);
    RolesSnoc(acc[..|acc| - 1], acc[|acc| - 1]);
    InitLast(acc);
    CompressSnoc(rs, merged.role);
  }

  lemma RolesSnoc(ms: seq<RawMessage>, m: RawMessage)
    ensures Roles(ms + [m]) == Roles(ms) + [m.role]
  {
    assert (ms + [m])[..|ms|] == ms;
  }

  lemma CompressSnoc(rs: seq<string>, x: string)
    ensures var c := Compress(rs);
            Compress(rs + [x]) == if c != [] && c[|c| - 1] == x then c else c + [x]
  {
    var ys := rs + [x];
    assert ys[..|ys| - 1] == rs;
    assert ys[|ys| - 1] == x;
  }

  lemma RolesStep(acc: seq<RawMessage>, kept: seq<RawMessage>, m: RawMessage)
    requires Roles(acc) == Compress(Roles(kept))
    ensures Roles(Add(acc, m)) == Compress(Roles(kept + if Kept(m) then [m] else []))
  {
    var rs := Roles(kept);
    if Kept(m) {
      RolesSnoc(kept, m);
      CompressSnoc(rs, m.role);
      if acc == [] || acc[|acc| - 1].role != m.role {
        RolesSnoc(acc, m);
      } else {
        var last := acc[|acc| - 1];
        MergeKeepsRoles(acc, RawMessage(last.role, last.content + "\n" + m.content), rs);
      }
    } else {
      assert kept + [] == kept;
    }
  }

  /** The roles that come out are those of the kept messages with each run of one role cut to one. */
  lemma {:induction false} PreparedRoles(ms: seq<RawMessage>)
    ensures Roles(Prepared(ms)) == Compress(Roles(KeptOf(ms)))
    decreases |ms|
  {
    if ms != [] {
      PreparedRoles(ms[..|ms| - 1]);
      RolesStep(Prepared(ms[..|ms| - 1]), KeptOf(ms[..|ms| - 1]), ms[|ms| - 1]);
    }
  }
}
