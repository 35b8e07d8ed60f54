/** The chat sidebar: the message list, the input box and the typing flag
    around one awaited reply. */
module ChatSidebar {
  import opened Wrappers
  import opened Strings
  import opened Types

  /** Shown when the reply is empty. */
  const Apology := "I'm sorry, I couldn't process that."

  /** `response || apology`. */
  function ReplyText(response: string): (text: string)
    ensures text != ""
    ensures response != "" ==> text == response
    ensures response == "" ==> text == Apology
  {
    if response == "" then Apology else response
  }

  class ChatPanel {
    var messages: seq<ChatMessage>
    var input: string
    var isTyping: bool

    constructor()
      ensures messages == [] && input == "" && !isTyping
    {
      messages := [];
      input := "";
      isTyping := false;
    }

    /** The input box. */
    method EditInput(text: string)
      modifies this`input
      ensures input == text
    {
      input := text;
    }

    /** `handleSend` up to the awaited reply. A blank input or a pending reply
        makes it a no-op; otherwise the untrimmed input becomes one user message,
        the box is cleared and the typing flag raised. `prompt` is what is sent. */
    method BeginSend(timestamp: string) returns (sent: bool, prompt: string)
      modifies this`messages, this`input, this`isTyping
      ensures sent <==> !AllWhitespace(old(input)) && !old(isTyping)
      ensures !sent ==> messages == old(messages) && input == old(input) && isTyping == old(isTyping)
      ensures sent ==> messages == old(messages) + [ChatMessage(User, old(input), timestamp)] &&
                       input == "" && isTyping && prompt == old(input)
    {
      TrimBlankIff(input);
      if Trim(input) == "" || isTyping {
        return false, "";
      }
      prompt := input;
      messages := messages + [ChatMessage(User, input, timestamp)];
      input := "";
      isTyping := true;
      sent := true;
    }

    /** `handleSend` after the reply: `reply` is the reply text, `None` when the
        call failed. One model message on success, none on failure; the flag drops. */
    method FinishSend(reply: Option<string>, timestamp: string)
      modifies this`messages, this`isTyping
      ensures !isTyping
      ensures reply.Some? ==> messages == old(messages) + [ChatMessage(Model, ReplyText(reply.value), timestamp)]
      ensures reply.None? ==> messages == old(messages)
    {
      if reply.Some? {
        messages := messages + [ChatMessage(Model, ReplyText(reply.value), timestamp)];
      }
      isTyping := false;
    }

    /** The "new conversation" button. */
    method NewConversation()
      modifies this`messages
      ensures messages == []
    {
      messages := [];
    }
  }
}
