/**
 * The assistant chat: sending a non-blank input appends it as a user
 * message, clears the input, and streams the reply into a new assistant
 * message, each chunk appended to that last message's content. A failed
 * call or stream adds an apology message after whatever was shown. The
 * language model itself is replaced by the outcome it produces: the
 * chunks it streams and whether it fails.
 */
module Chat {
  import opened Wrappers
  import opened Text

  datatype ChatRole = User | Assistant
  datatype ChatMessage = ChatMessage(role: ChatRole, content: string)

  const Apology: string := "Sorry, I encountered an error. Please try again."

  /** What the model does with the history: fail before streaming, or stream chunks and possibly fail after them. */
  datatype Outcome = CallFails | Streams(chunks: seq<string>, thenFails: bool)

  /** The chunks concatenated in order. */
  function Concat(chunks: seq<string>): string {
    if chunks == [] then "" else Concat(chunks[..|chunks| - 1]) + chunks[|chunks| - 1]
  }

  lemma {:induction false} ConcatAppend(a: seq<string>, b: seq<string>)
    ensures Concat(a + b) == Concat(a) + Concat(b)
    decreases |b|
  {
    if b == [] {
      assert a + b == a;
    } else {
      var t := b[..|b| - 1];
      ConcatAppend(a, t);
      var ab := a + b;
      assert ab != [] && ab[|ab| - 1] == b[|b| - 1] && ab[..|ab| - 1] == a + t;
    }
  }

  /** The streamed reply is the chunks joined with nothing between them. */
  lemma {:induction false} ConcatIsJoin(chunks: seq<string>)
    ensures Concat(chunks) == Join(chunks, "")
  {
    if |chunks| > 1 {
      ConcatIsJoin(chunks[1..]);
      ConcatAppend([chunks[0]], chunks[1..]);
      assert chunks == [chunks[0]] + chunks[1..];
      assert Concat([chunks[0]]) == Concat([]) + chunks[0];
    } else if |chunks| == 1 {
      assert Concat(chunks) == Concat([]) + chunks[0];
    }
  }

  /** The messages after the call: the reply so far, then the apology if it failed. */
  function Reply(outcome: Outcome): (added: seq<ChatMessage>)
    ensures outcome.CallFails? ==> added == [ChatMessage(Assistant, Apology)]
    ensures outcome.Streams? ==> |added| == if outcome.thenFails then 2 else 1
    ensures outcome.Streams? ==> added[0] == ChatMessage(Assistant, Concat(outcome.chunks))
    ensures outcome.Streams? && outcome.thenFails ==> added[1] == ChatMessage(Assistant, Apology)
  {
    match outcome
    case CallFails => [ChatMessage(Assistant, Apology)]
    case Streams(chunks, thenFails) =>
      [ChatMessage(Assistant, Concat(chunks))] + (if thenFails then [ChatMessage(Assistant, Apology)] else [])
  }

  class ChatBox {
    var messages: seq<ChatMessage>
    var input: string
    var isLoading: bool

    constructor()
      ensures messages == [] && input == "" && !isLoading
    {
      messages := [];
      input := "";
      isLoading := false;
    }

    method SetInput(s: string)
      modifies this
      ensures input == s && messages == old(messages) && isLoading == old(isLoading)
    {
      input := s;
    }

    /**
     * `handleSendMessage`. Returns the history sent to the model, or
     * nothing when the input is blank and nothing happens.
     */
    method HandleSendMessage(outcome: Outcome) returns (history: Option<seq<ChatMessage>>)
      modifies this
      ensures IsBlank(old(input)) ==>
        history.None? && messages == old(messages) && input == old(input) && isLoading == old(isLoading)
      ensures !IsBlank(old(input)) ==>
        && history == Some(old(messages) + [ChatMessage(User, old(input))])
        && messages == history.value + Reply(outcome)
        && input == "" && !isLoading
    {
      if IsBlank(input) {
        return None;
      }
      var userMessage := ChatMessage(User, input);
      messages := messages + [userMessage];
      input := "";
      isLoading := true;
      history := Some(messages);
      match outcome {
        case CallFails =>
          messages := messages + [ChatMessage(Assistant, Apology)];
        case Streams(chunks, thenFails) =>
          var base := messages;
          var assistantMessage := ChatMessage(Assistant, "");
          messages := messages + [assistantMessage];
          var i := 0;
          while i < |chunks|
            invariant 0 <= i <= |chunks|
            invariant assistantMessage == ChatMessage(Assistant, Concat(chunks[..i]))
            invariant messages == base + [assistantMessage]
            invariant input == "" && isLoading
          {
            assert chunks[..i + 1][..i] == chunks[..i];
            assistantMessage := assistantMessage.(content := assistantMessage.content + chunks[i]);
            messages := messages[..|messages| - 1] + [assistantMessage];
            i := i + 1;
          }
          assert chunks[..i] == chunks;
          if thenFails {
            messages := messages + [ChatMessage(Assistant, Apology)];
          }
      }
      isLoading := false;
    }
  }
}
