/** What the two chat components share (components/AdminConversation.js and
    components/ContactDrawer.js): the message shape of the conversation model
    (models/Conversation.js), the rule for what may be sent, and how a loaded
    conversation replaces the shown messages. */
module Chat {
  import opened Common

  /** The `sender` enum of the message schema. */
  datatype Sender = Admin | User

  /** A shown message; the timestamp is the clock reading, in milliseconds. */
  datatype Message = Message(sender: Sender, content: string, timestamp: int)

  /** The body of the POST to the conversation endpoint. */
  datatype PostBody = PostBody(content: string, sender: Sender)

  /** A POST as sent: the conversation's user id and the body. */
  datatype Post = Post(userId: string, body: PostBody)

  /** The component's state at the moment a POST goes out: the input field, the
      `sending` flag and the shown messages. */
  datatype PostState = PostState(input: string, sending: bool, shown: seq<Message>)

  /** The conversation load: it throws, or its body may carry a `messages` list. */
  datatype MessagesReply = MessagesThrew | MessagesReply(messages: Option<seq<Message>>)

  /** `newMessage.trim()` is not empty. */
  predicate CanSend(input: string) {
    Trim(input) != ""
  }

  /** The message to send: the trimmed input, from `sender`. */
  function Outgoing(input: string, sender: Sender): PostBody {
    PostBody(Trim(input), sender)
  }

  /** The optimistic copy shown at once: the body with the current time. */
  function Optimistic(body: PostBody, now: int): Message {
    Message(body.sender, body.content, now)
  }

  /** `setMessages(data?.messages || [])`, and no change when the request throws. */
  function LoadedMessages(reply: MessagesReply, current: seq<Message>): seq<Message> {
    match reply
    case MessagesThrew => current
    case MessagesReply(ms) => if ms.Some? then ms.value else []
  }

  /** What is sent is never blank, has no surrounding white space, and is the
      same whether trimmed again or not. */
  lemma OutgoingIsTrimmed(input: string, sender: Sender)
    requires CanSend(input)
    ensures var c := Outgoing(input, sender).content;
      && c != []
      && !IsJsWhitespace(c[0]) && !IsJsWhitespace(c[|c| - 1])
      && Trim(c) == c
      && Outgoing(input, sender).sender == sender
  {
    TrimIdempotent(input);
  }
}
