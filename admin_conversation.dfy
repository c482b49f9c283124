/** The conversation pane of the admin contacts page (components/AdminConversation.js):
    loads the admin's avatar and the selected user's messages, and sends the admin's
    replies, showing each reply at once, before the server has answered. */
module AdminConversation {
  import opened Common
  import opened Chat

  const DefaultImage := "/user.png"
  const MsgAdminFailed := "Erreur lors du chargement de l'admin"
  const MsgLoadFailed := "Erreur lors du chargement des messages"
  const MsgSendFailed := "Erreur lors de l'envoi du message"

  /** The `/api/user/me` request: it throws, or its body may carry a user image. */
  datatype AdminReply = AdminThrew | AdminReply(image: Option<string>)

  /** `selectedUser?._id` is truthy. */
  predicate HasId(selectedUserId: Option<string>) {
    selectedUserId.Some? && selectedUserId.value != ""
  }

  class ConversationPane {
    var messages: seq<Message>
    var loadingMessages: bool
    var adminImage: string
    var newMessage: string
    var sending: bool
    /** The POSTs sent, in order, and the pane's state as each went out. */
    ghost var posts: seq<Post>
    ghost var atPost: seq<PostState>
    ghost var toasts: seq<string>

    constructor()
      ensures messages == [] && !loadingMessages && adminImage == DefaultImage && newMessage == "" && !sending
      ensures posts == [] && atPost == [] && toasts == []
    {
      messages := [];
      loadingMessages := false;
      adminImage := DefaultImage;
      newMessage := "";
      sending := false;
      posts := [];
      atPost := [];
      toasts := [];
    }

    method Type(value: string)
      modifies this
      ensures newMessage == value
      ensures messages == old(messages) && loadingMessages == old(loadingMessages) && sending == old(sending)
      ensures adminImage == old(adminImage) && posts == old(posts) && atPost == old(atPost) && toasts == old(toasts)
    {
      newMessage := value;
    }

    /** The avatar load: the user's image when it has a non-empty one, the default
        image otherwise; a failed request keeps the current image and shows a toast. */
    method FetchAdmin(reply: AdminReply)
      modifies this
      ensures reply.AdminReply? ==>
                && adminImage == (if reply.image.Some? && reply.image.value != "" then reply.image.value else DefaultImage)
                && toasts == old(toasts)
      ensures reply.AdminThrew? ==> adminImage == old(adminImage) && toasts == old(toasts) + [MsgAdminFailed]
      ensures old(adminImage) != "" ==> adminImage != ""
      ensures messages == old(messages) && loadingMessages == old(loadingMessages) && newMessage == old(newMessage)
      ensures sending == old(sending) && posts == old(posts) && atPost == old(atPost)
    {
      match reply {
        case AdminThrew =>
          toasts := toasts + [MsgAdminFailed];
        case AdminReply(image) =>
          adminImage := if image.Some? && image.value != "" then image.value else DefaultImage;
      }
    }

    /** The load for the selected user: nothing without an id; otherwise the list
        is replaced by the fetched one (or emptied), or a toast shows. */
    method FetchMessages(selectedUserId: Option<string>, reply: MessagesReply)
      modifies this
      ensures !HasId(selectedUserId) ==>
                messages == old(messages) && loadingMessages == old(loadingMessages) && toasts == old(toasts)
      ensures HasId(selectedUserId) ==>
                && messages == LoadedMessages(reply, old(messages))
                && !loadingMessages
                && toasts == old(toasts) + (if reply.MessagesThrew? then [MsgLoadFailed] else [])
      ensures adminImage == old(adminImage) && newMessage == old(newMessage) && sending == old(sending)
      ensures posts == old(posts) && atPost == old(atPost)
    {
      if !HasId(selectedUserId) {
        return;
      }
      loadingMessages := true;
      match reply {
        case MessagesThrew =>
          toasts := toasts + [MsgLoadFailed];
        case MessagesReply(ms) =>
          messages := if ms.Some? then ms.value else [];
      }
      loadingMessages := false;
    }

    /** The send. With a blank input or no selected user nothing happens. Otherwise
        the trimmed reply is shown at once with the time `now`, the input is
        cleared and the POST goes out; a failed POST only adds a toast, the shown
        reply stays. */
    method HandleSendMessage(selectedUserId: Option<string>, now: int, postSucceeds: bool)
      modifies this
      ensures !CanSend(old(newMessage)) || !HasId(selectedUserId) ==>
                && messages == old(messages) && newMessage == old(newMessage) && sending == old(sending)
                && posts == old(posts) && atPost == old(atPost) && toasts == old(toasts)
      ensures CanSend(old(newMessage)) && HasId(selectedUserId) ==>
                var body := Outgoing(old(newMessage), Admin);
                && body.content == Trim(old(newMessage))
                && messages == old(messages) + [Optimistic(body, now)]
                && newMessage == ""
                && posts == old(posts) + [Post(selectedUserId.value, body)]
                && atPost == old(atPost) + [PostState("", true, messages)]
                && !sending
                && toasts == old(toasts) + (if postSucceeds then [] else [MsgSendFailed])
      ensures loadingMessages == old(loadingMessages) && adminImage == old(adminImage)
    {
      if !CanSend(newMessage) || !HasId(selectedUserId) {
        return;
      }
      Submit(selectedUserId.value, Outgoing(newMessage, Admin), now, postSucceeds);
    }

    /** The send once the guard has passed, of `msgToSend` to `userId`: when the
        POST goes out, `sending` is set, the input is empty and the reply is
        already shown last; `sending` is reset whatever the POST does. */
    method Submit(userId: string, msgToSend: PostBody, now: int, postSucceeds: bool)
      modifies this
      ensures messages == old(messages) + [Optimistic(msgToSend, now)]
      ensures newMessage == ""
      ensures posts == old(posts) + [Post(userId, msgToSend)]
      ensures atPost == old(atPost) + [PostState("", true, messages)]
      ensures !sending
      ensures toasts == old(toasts) + (if postSucceeds then [] else [MsgSendFailed])
      ensures loadingMessages == old(loadingMessages) && adminImage == old(adminImage)
    {
      sending := true;
      messages := messages + [Optimistic(msgToSend, now)];
      newMessage := "";
      posts := posts + [Post(userId, msgToSend)];
      atPost := atPost + [PostState(newMessage, sending, messages)];
      if !postSucceeds {
        toasts := toasts + [MsgSendFailed];
      }
      sending := false;
    }
  }

  /** A reply whose POST fails is still shown, last, with the trimmed text and
      the admin as sender, and the input is empty afterwards. */
  method FailedSendKeepsReply(shown: seq<Message>, input: string, userId: string, now: int)
    returns (after: seq<Message>, inputAfter: string)
    requires CanSend(input) && userId != ""
    ensures after == shown + [Message(Admin, Trim(input), now)]
    ensures inputAfter == ""
  {
    var pane := new ConversationPane();
    pane.FetchMessages(Some(userId), MessagesReply(Some(shown)));
    pane.Type(input);
    pane.HandleSendMessage(Some(userId), now, false);
    after, inputAfter := pane.messages, pane.newMessage;
  }
}
