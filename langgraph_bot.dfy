/**
 * The chat bot of langgraph_bot.py: one graph node, `chat_node`, that answers
 * the last message of the conversation, and the command-line loop that feeds
 * it one user line at a time.
 *
 * The node lower-cases the last message and looks for the trigger phrase in
 * it. On a match it runs the weekly digest with delivery to Teams and answers
 * with a fixed acknowledgement; otherwise it forwards the message, as typed,
 * to the chat model and answers with the model's text. The completion service
 * is the `llm` oracle of the digest's `Env`, which gives `None` when the
 * completion raises or its reply has no content; the model treats both as a
 * failed turn.
 */
module Bot {
  import opened Wrappers
  import opened Text
  import opened Fetch

  const TriggerPhrase: string := "send the new tools to the team"
  const Acknowledgement: string := "\U{2705} I've sent the latest AI tools digest to your Microsoft Teams!"
  const AssistantPersona: string := "You are a helpful assistant."

  /** The digest the trigger runs: at most five summaries, posted to Teams. */
  const DigestMaxTools: int := 5
  const DigestPostsToTeams: bool := true

  /** The trigger phrase occurs in the lower-cased message. */
  predicate IsTrigger(message: string) {
    Contains(Lower(message), TriggerPhrase)
  }

  /** The completion request for a message that is not the trigger: the assistant persona and the message as typed. */
  function ChatRequest(message: string): Request {
    Request(AssistantPersona, message, None, None)
  }

  /** The reply to `message`, or `None` when the completion raises or its reply has no content. */
  function Answer(message: string, env: Env): Option<string> {
    if IsTrigger(message) then Some(Acknowledgement) else env.llm(ChatRequest(message))
  }

  /**
   * The outcome of one `chat_node` call: the new message list together with
   * the digest run it started, if any; or the completion raised or gave no content.
   */
  datatype Turn = Replied(messages: seq<string>, digest: Option<DigestRun>) | CompletionFailed

  /**
   * `chat_node`: the old message list with exactly one reply appended. The
   * trigger runs the digest once, with five tools and delivery on, and the
   * reply is the acknowledgement; any other message reaches the model unchanged
   * and the reply is the model's text.
   */
  function ChatNode(messages: seq<string>, env: Env): (t: Turn)
    requires |messages| > 0
    ensures var last := messages[|messages| - 1];
            && (t.CompletionFailed? <==> !IsTrigger(last) && env.llm(ChatRequest(last)).None?)
            && (t.Replied? ==> |t.messages| == |messages| + 1 && t.messages[..|messages|] == messages)
            && (t.Replied? ==> (t.digest.Some? <==> IsTrigger(last)))
            && (t.Replied? && IsTrigger(last) ==>
                  t.messages[|messages|] == Acknowledgement
                  && t.digest == Some(Digest(DigestMaxTools, DigestPostsToTeams, env)))
            && (t.Replied? && !IsTrigger(last) ==>
                  Some(t.messages[|messages|]) == env.llm(Request(AssistantPersona, last, None, None)))
  {
    var last := messages[|messages| - 1];
    match Answer(last, env)
    case None => CompletionFailed
    case Some(reply) =>
      Replied(messages + [reply],
              if IsTrigger(last) then Some(Digest(DigestMaxTools, DigestPostsToTeams, env)) else None)
  }

  /** Upper-casing or lower-casing a message does not change whether it triggers the digest. */
  lemma TriggerIgnoresCase(message: string)
    ensures IsTrigger(Upper(message)) <==> IsTrigger(message)
    ensures IsTrigger(Lower(message)) <==> IsTrigger(message)
  {
    LowerForgetsCase(message);
  }

  /** The reply depends on the last message only, not on the rest of the history. */
  lemma ReplyDependsOnLastOnly(a: seq<string>, b: seq<string>, env: Env)
    requires |a| > 0 && |b| > 0 && a[|a| - 1] == b[|b| - 1]
    ensures ChatNode(a, env).Replied? <==> ChatNode(b, env).Replied?
    ensures ChatNode(a, env).Replied? ==>
              ChatNode(a, env).messages[|a|] == ChatNode(b, env).messages[|b|]
              && ChatNode(a, env).digest == ChatNode(b, env).digest
  {
  }

  /** On the trigger, the acknowledgement is sent whatever the digest found, and the turn cannot fail. */
  lemma AcknowledgementIgnoresDigest(messages: seq<string>, env: Env, other: Env)
    requires |messages| > 0 && IsTrigger(messages[|messages| - 1])
    ensures ChatNode(messages, env).Replied? && ChatNode(messages, other).Replied?
    ensures ChatNode(messages, env).messages == ChatNode(messages, other).messages
  {
  }

  /** The stretch of `message` at offset `i` spells `phrase` in some mixture of upper and lower case. */
  predicate SpellsAt(message: string, phrase: string, i: int) {
    0 <= i && i + |phrase| <= |message| && Lower(message[i..i + |phrase|]) == phrase
  }

  /**
   * A message triggers the digest exactly when some stretch of it spells the
   * trigger phrase in any mixture of upper and lower case.
   */
  lemma TriggerIffPhraseAnyCase(message: string)
    ensures IsTrigger(message) <==> exists i :: SpellsAt(message, TriggerPhrase, i)
  {
    var n := |TriggerPhrase|;
    ContainsIffOccurs(Lower(message), TriggerPhrase);
    if IsTrigger(message) {
      var i :| OccursAt(Lower(message), TriggerPhrase, i);
      LowerSlice(message, i, i + n);
      assert SpellsAt(message, TriggerPhrase, i);
    }
    if i :| SpellsAt(message, TriggerPhrase, i) {
      LowerSlice(message, i, i + n);
      assert OccursAt(Lower(message), TriggerPhrase, i);
    }
  }

  /** "Hello, how are you?" does not trigger the digest: it has no `s` at all. */
  lemma OrdinaryQuestion()
    ensures !IsTrigger("Hello, how are you?")
  {
    var lowered := "hello, how are you?";
    assert Lower("Hello, how are you?") == lowered;
    MissingFirstChar(lowered, TriggerPhrase);
  }

  /** The trigger phrase with a capital first letter lower-cases to the phrase. */
  lemma CapitalisedPhrase()
    ensures Lower("Send the new tools to the team") == TriggerPhrase
  {
  }

  /** The request the bot is used for triggers the digest, whatever its capitals and whatever follows the phrase. */
  lemma TeamRequestTriggers()
    ensures IsTrigger("Send the new tools to the team please")
  {
    var message := "Send the new tools to the team please";
    var n := |TriggerPhrase|;
    assert message[0..n] == "Send the new tools to the team";
    CapitalisedPhrase();
    LowerSlice(message, 0, n);
    assert IsPrefix(TriggerPhrase, Lower(message));
  }

  // ---------------------------------------------------------------------------
  // The command-line loop

  /** The history a run of successful turns adds: each input followed by its reply. */
  function Dialogue(inputs: seq<string>, env: Env): seq<string>
    requires forall k :: 0 <= k < |inputs| ==> Answer(inputs[k], env).Some?
    decreases |inputs|
  {
    if inputs == [] then [] else [inputs[0], Answer(inputs[0], env).value] + Dialogue(inputs[1..], env)
  }

  /** Successful turns alternate user and bot: input `k` at position `2k`, its reply right after it. */
  lemma {:induction false} DialogueAlternates(inputs: seq<string>, env: Env)
    requires forall k :: 0 <= k < |inputs| ==> Answer(inputs[k], env).Some?
    ensures |Dialogue(inputs, env)| == 2 * |inputs|
    ensures forall k :: 0 <= k < |inputs| ==>
              Dialogue(inputs, env)[2 * k] == inputs[k]
              && Dialogue(inputs, env)[2 * k + 1] == Answer(inputs[k], env).value
    decreases |inputs|
  {
    if inputs != [] {
      var rest := inputs[1..];
      DialogueAlternates(rest, env);
      var d := Dialogue(inputs, env);
      assert d == [inputs[0], Answer(inputs[0], env).value] + Dialogue(rest, env);
      forall k | 1 <= k < |inputs|
        ensures d[2 * k] == inputs[k] && d[2 * k + 1] == Answer(inputs[k], env).value
      {
        assert rest[k - 1] == inputs[k];
        assert d[2 * k] == Dialogue(rest, env)[2 * (k - 1)];
        assert d[2 * k + 1] == Dialogue(rest, env)[2 * (k - 1) + 1];
      }
    }
  }

  /** The turns of two runs of input, one after the other. */
  lemma {:induction false} DialogueAppend(a: seq<string>, b: seq<string>, env: Env)
    requires forall k :: 0 <= k < |a| ==> Answer(a[k], env).Some?
    requires forall k :: 0 <= k < |b| ==> Answer(b[k], env).Some?
    ensures forall k :: 0 <= k < |a + b| ==> Answer((a + b)[k], env).Some?
    ensures Dialogue(a + b, env) == Dialogue(a, env) + Dialogue(b, env)
    decreases |a|
  {
    assert forall k :: 0 <= k < |a + b| ==> (a + b)[k] == if k < |a| then a[k] else b[k - |a|];
    if a != [] {
      assert (a + b)[0] == a[0] && (a + b)[1..] == a[1..] + b;
      DialogueAppend(a[1..], b, env);
    } else {
      assert a + b == b;
    }
  }

  /** One more successful turn adds that input and its reply. */
  lemma DialogueSnoc(inputs: seq<string>, i: nat, env: Env)
    requires i < |inputs|
    requires forall k :: 0 <= k <= i ==> Answer(inputs[k], env).Some?
    ensures Dialogue(inputs[..i + 1], env) == Dialogue(inputs[..i], env) + [inputs[i], Answer(inputs[i], env).value]
  {
    var input := inputs[i];
    assert inputs[..i + 1] == inputs[..i] + [input];
    DialogueAppend(inputs[..i], [input], env);
    assert Dialogue([input], env) == [input, Answer(input, env).value];
  }

  /** Answering a history that ends in `input`: one reply, the input's answer, or a failed turn. */
  lemma TurnAnswers(history: seq<string>, input: string, env: Env)
    ensures var t := ChatNode(history + [input], env);
            && (t.Replied? <==> Answer(input, env).Some?)
            && (t.Replied? ==> t.messages == history + [input, Answer(input, env).value])
  {
    var t := ChatNode(history + [input], env);
    if t.Replied? {
      assert t.messages == history + [input] + [Answer(input, env).value];
    }
  }

  /**
   * The state of the command-line loop: the message list that is appended to
   * in place and replaced by what the graph returns.
   */
  class Session {
    var messages: seq<string>

    /** `state = {"messages": []}`. */
    constructor()
      ensures messages == []
    {
      messages := [];
    }

    /**
     * One pass of the loop: the input is appended to the list in place, then
     * the graph answers and its list replaces the old one. When the
     * completion raises or gives no content, the list keeps the input and
     * gets no reply.
     */
    method Submit(input: string, env: Env) returns (turn: Turn)
      modifies this
      ensures turn == ChatNode(old(messages) + [input], env)
      ensures messages == if turn.Replied? then turn.messages else old(messages) + [input]
    {
      messages := messages + [input];
      turn := ChatNode(messages, env);
      if turn.Replied? {
        messages := turn.messages;
      }
    }

    /**
     * The `while True` loop over a finite run of user inputs. Every answered
     * input grows the history by two entries, the input and then its reply;
     * the loop ends at the end of the inputs or at the first completion that
     * raises or gives no content, whose input stays in the history unanswered.
     */
    method Converse(inputs: seq<string>, env: Env) returns (answered: nat)
      modifies this
      ensures answered <= |inputs|
      ensures forall k :: 0 <= k < answered ==> Answer(inputs[k], env).Some?
      ensures answered < |inputs| ==> Answer(inputs[answered], env).None?
      ensures messages == old(messages) + Dialogue(inputs[..answered], env)
                          + (if answered < |inputs| then [inputs[answered]] else [])
    {
      answered := 0;
      while answered < |inputs|
        invariant answered <= |inputs|
        invariant forall k :: 0 <= k < answered ==> Answer(inputs[k], env).Some?
        invariant messages == old(messages) + Dialogue(inputs[..answered], env)
        decreases |inputs| - answered
      {
        var input := inputs[answered];
        var turn := Submit(input, env);
        TurnAnswers(old(messages) + Dialogue(inputs[..answered], env), input, env);
        if turn.CompletionFailed? {
          return;
        }
        DialogueSnoc(inputs, answered, env);
        answered := answered + 1;
      }
    }
  }
}
