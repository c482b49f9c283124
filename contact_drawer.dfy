/** The visitor's chat drawer (components/ContactDrawer.js): when opened it loads the
    signed-in user, then that user's conversation, and sends the user's messages,
    showing each at once, before the server has answered. */
module ContactDrawer {
  import opened Common
  import opened Chat

  const MsgUserFailed := "Erreur utilisateur"
  const MsgLoadFailed := "Erreur messages"
  const MsgSendFailed := "Erreur d'envoi"

  /** The `/api/user/me` request: it throws, or its body may carry a user (by id). */
  datatype UserReply = UserThrew | UserReply(user: Option<string>)

  class Drawer {
    /** The signed-in user's id, once loaded. */
    var user: Option<string>
    var messages: seq<Message>
    var loadingMessages: bool
    var newMessage: string
    var sending: bool
    /** The POSTs sent, in order, and the drawer's state as each went out. */
    ghost var posts: seq<Post>
    ghost var atPost: seq<PostState>
    ghost var toasts: seq<string>

    constructor()
      ensures user.None? && messages == [] && loadingMessages && newMessage == "" && !sending
      ensures posts == [] && atPost == [] && toasts == []
    {
      user := None;
      messages := [];
      loadingMessages := true;
      newMessage := "";
      sending := false;
      posts := [];
      atPost := [];
      toasts := [];
    }

    method Type(value: string)
      modifies this
      ensures newMessage == value
      ensures user == old(user) && messages == old(messages) && loadingMessages == old(loadingMessages)
      ensures sending == old(sending) && posts == old(posts) && atPost == old(atPost) && toasts == old(toasts)
    {
      newMessage := value;
    }

    /** The user load runs only while the drawer is open. */
    method FetchUser(open: bool, reply: UserReply)
      modifies this
      ensures !open ==> user == old(user) && toasts == old(toasts)
      ensures open && reply.UserReply? ==> user == reply.user && toasts == old(toasts)
      ensures open && reply.UserThrew? ==> user == old(user) && toasts == old(toasts) + [MsgUserFailed]
      ensures messages == old(messages) && loadingMessages == old(loadingMessages) && newMessage == old(newMessage)
      ensures sending == old(sending) && posts == old(posts) && atPost == old(atPost)
    {
      if !open {
        return;
      }
      match reply {
        case UserThrew =>
          toasts := toasts + [MsgUserFailed];
        case UserReply(u) =>
          user := u;
      }
    }

    /** The conversation load runs only once a user is known. */
    method FetchMessages(reply: MessagesReply)
      modifies this
      ensures user.None? ==>
                messages == old(messages) && loadingMessages == old(loadingMessages) && toasts == old(toasts)
      ensures user.Some? ==>
                && messages == LoadedMessages(reply, old(messages))
                && !loadingMessages
                && toasts == old(toasts) + (if reply.MessagesThrew? then [MsgLoadFailed] else [])
      ensures user == old(user) && newMessage == old(newMessage) && sending == old(sending)
      ensures posts == old(posts) && atPost == old(atPost)
    {
      if user.None? {
        return;
      }
      loadingMessages := true;
      match reply {
        case MessagesThrew =>
          toasts := toasts + [MsgLoadFailed];
        case MessagesReply(ms) =>
          messages := if ms.Some? then ms.value else [];
      }
      loadingMessages := false;
    }

    /** The send. With a blank input or no user nothing happens. Otherwise
        `sending` is set, the trimmed message is shown at once with the time
        `now` and the input cleared, all before the POST; a failed POST only adds
        a toast, and `sending` is reset in every case. */
    method HandleSend(now: int, postSucceeds: bool)
      modifies this
      ensures !CanSend(old(newMessage)) || user.None? ==>
                && messages == old(messages) && newMessage == old(newMessage) && sending == old(sending)
                && posts == old(posts) && atPost == old(atPost) && toasts == old(toasts)
      ensures CanSend(old(newMessage)) && user.Some? ==>
                var body := Outgoing(old(newMessage), User);
                && body.content == Trim(old(newMessage))
                && messages == old(messages) + [Optimistic(body, now)]
                && newMessage == ""
                && posts == old(posts) + [Post(user.value, body)]
                && atPost == old(atPost) + [PostState("", true, messages)]
                && !sending
                && toasts == old(toasts) + (if postSucceeds then [] else [MsgSendFailed])
      ensures user == old(user) && loadingMessages == old(loadingMessages)
    {
      if !CanSend(newMessage) || user.None? {
        return;
      }
      Submit(Outgoing(newMessage, User), now, postSucceeds);
    }

    /** The send once the guard has passed, for the message `messageData`: when
        the POST goes out, `sending` is set, the input is empty and the message is
        already shown last; `sending` is reset whatever the POST does. */
    method Submit(messageData: PostBody, now: int, postSucceeds: bool)
      requires user.Some?
      modifies this
      ensures user == old(user) && loadingMessages == old(loadingMessages)
      ensures messages == old(messages) + [Optimistic(messageData, now)]
      ensures newMessage == ""
      ensures posts == old(posts) + [Post(user.value, messageData)]
      ensures atPost == old(atPost) + [PostState("", true, messages)]
      ensures !sending
      ensures toasts == old(toasts) + (if postSucceeds then [] else [MsgSendFailed])
    {
      sending := true;
      messages := messages + [Optimistic(messageData, now)];
      newMessage := "";
      posts := posts + [Post(user.value, messageData)];
      atPost := atPost + [PostState(newMessage, sending, messages)];
      if !postSucceeds {
        toasts := toasts + [MsgSendFailed];
      }
      sending := false;
    }
  }

  /** A closed drawer loads nothing: neither the user nor, therefore, any
      conversation, and a send does nothing. */
  method ClosedDrawerStaysEmpty(userReply: UserReply, messagesReply: MessagesReply, input: string, now: int)
    returns (user: Option<string>, shown: seq<Message>, ghost posts: seq<Post>)
    ensures user.None? && shown == [] && posts == []
  {
    var d := new Drawer();
    d.FetchUser(false, userReply);
    d.FetchMessages(messagesReply);
    d.Type(input);
    d.HandleSend(now, true);
    user, shown, posts := d.user, d.messages, d.posts;
  }
}
