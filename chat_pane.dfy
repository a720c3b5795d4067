/** The decision logic of the chat page in the browser: which incoming
    messages are shown, when a draft is sent and what is sent, what selecting
    a user does, and the online and "my message" predicates. */
module ChatPane {
  import opened Protocol
  import Conversation

  /** A user record as the user list and the login session hold it. */
  datatype User = User(id: UserId, name: string)

  /** The characters `String.prototype.trim` strips: ECMAScript WhiteSpace
      (tab, vertical tab, form feed, no-break space, byte order mark and every
      space separator) and LineTerminator (line feed, carriage return, line
      and paragraph separators). */
  predicate IsTrimmable(c: char) {
    var n := c as int;
    || n == 0x09 || n == 0x0A || n == 0x0B || n == 0x0C || n == 0x0D || n == 0x20
    || n == 0xA0 || n == 0x1680 || (0x2000 <= n <= 0x200A) || n == 0x2028 || n == 0x2029
    || n == 0x202F || n == 0x205F || n == 0x3000 || n == 0xFEFF
  }

  function TrimStart(s: string): string {
    if s != [] && IsTrimmable(s[0]) then TrimStart(s[1..]) else s
  }

  function TrimEnd(s: string): string {
    if s != [] && IsTrimmable(s[|s| - 1]) then TrimEnd(s[..|s| - 1]) else s
  }

  /** `s.trim()`: empty exactly when every character of s is whitespace or a
      line terminator (the empty string included). */
  function Trim(s: string): (r: string)
    ensures r == "" <==> Blank(s)
  {
    TrimEmptyIffBlank(s);
    TrimStart(TrimEnd(s))
  }

  predicate Blank(s: string) {
    forall i :: 0 <= i < |s| ==> IsTrimmable(s[i])
  }

  lemma {:induction false} TrimStartEmpty(s: string)
    ensures TrimStart(s) == "" <==> Blank(s)
  {
    if s != [] && IsTrimmable(s[0]) {
      TrimStartEmpty(s[1..]);
      assert Blank(s) <==> Blank(s[1..]) by {
        if Blank(s[1..]) {
          forall i | 0 <= i < |s| ensures IsTrimmable(s[i]) {
            if i > 0 { assert s[i] == s[1..][i - 1]; }
          }
        }
      }
    }
  }

  lemma {:induction false} TrimEndEmpty(s: string)
    ensures TrimEnd(s) == "" <==> Blank(s)
  {
    if s != [] && IsTrimmable(s[|s| - 1]) {
      var p := s[..|s| - 1];
      TrimEndEmpty(p);
      assert Blank(s) <==> Blank(p) by {
        if Blank(p) {
          forall i | 0 <= i < |s| ensures IsTrimmable(s[i]) {
            if i < |s| - 1 { assert s[i] == p[i]; }
          }
        }
      }
    }
  }

  lemma TrimEmptyIffBlank(s: string)
    ensures TrimStart(TrimEnd(s)) == "" <==> Blank(s)
  {
    TrimEndEmpty(s);
    if TrimEnd(s) != "" {
      var t := TrimEnd(s);
      TrimStartEmpty(t);
      TrimEndKeepsLast(s);
    }
  }

  /** When something survives the end trim, its last character is not trimmable. */
  lemma {:induction false} TrimEndKeepsLast(s: string)
    requires TrimEnd(s) != ""
    ensures !IsTrimmable(TrimEnd(s)[|TrimEnd(s)| - 1])
  {
    if s != [] && IsTrimmable(s[|s| - 1]) {
      TrimEndKeepsLast(s[..|s| - 1]);
    }
  }

  /** The guard of `sendMessage`: a non-blank draft and a selected user. */
  predicate CanSend(draft: string, selected: Option<User>)
    ensures CanSend(draft, selected) <==> selected.Some? && !Blank(draft)
  {
    Trim(draft) != "" && selected.Some?
  }

  /** The `receiveMessage` filter: a user is selected and the message is from
      or to that user. */
  predicate Relevant(selected: Option<User>, msg: Message)
    ensures Relevant(selected, msg) <==>
      selected.Some? && exists other :: Conversation.Between(msg, other, selected.value.id)
  {
    if selected.None? then false
    else
      ConversationWith(msg, selected.value.id);
      msg.sender == selected.value.id || msg.receiver == selected.value.id
  }

  /** A message is from or to u exactly when it belongs to u's conversation
      with somebody. */
  lemma ConversationWith(msg: Message, u: UserId)
    ensures (msg.sender == u || msg.receiver == u) <==> exists other :: Conversation.Between(msg, other, u)
  {
    if msg.sender == u {
      assert Conversation.Between(msg, msg.receiver, u);
    } else if msg.receiver == u {
      assert Conversation.Between(msg, msg.sender, u);
    }
  }

  /** For a message delivered to this client (its own room, so the signed-in
      user is sender or receiver) and a selected user other than the signed-in
      one, the live filter admits exactly what the history route returns for
      the same pair. */
  lemma RelevantAgreesWithHistory(me: UserId, selected: User, msg: Message)
    requires msg.sender == me || msg.receiver == me
    requires selected.id != me
    ensures Relevant(Some(selected), msg) <==> Conversation.Between(msg, me, selected.id)
  {
  }

  /** With the signed-in user selecting themself, every message they send to
      someone else passes the live filter, though the history route for that
      pair never returns it. */
  lemma SelfSelectionAdmitsOtherConversations(me: User, msg: Message)
    requires msg.sender == me.id && msg.receiver != me.id
    ensures Relevant(Some(me), msg) && !Conversation.Between(msg, me.id, me.id)
  {
  }

  /** A socket that also joined another user's room (an earlier sign-in in the
      same tab) receives that user's messages; one from the selected user to
      someone other than the signed-in user passes the live filter, though it
      is not part of their conversation. */
  lemma ForeignMessageAdmitted(me: UserId, selected: User, msg: Message)
    requires msg.sender == selected.id && msg.receiver != me
    ensures Relevant(Some(selected), msg) && !Conversation.Between(msg, me, selected.id)
  {
  }

  /** The chat page's React state, its outgoing socket events and HTTP
      requests. `user` is the signed-in user, fixed for the page's lifetime;
      the code re-reads it from `localStorage` on every render. */
  class Pane {
    const user: User
    var onlineUsers: seq<UserId>
    var selectedUser: Option<User>
    var messages: seq<Message>
    var draft: string
    /** `sendMessage` payloads emitted on the socket, oldest first. */
    var sent: seq<SendData>
    /** History requests issued, as the (`user._id`, receiver id) of the URL. */
    var fetches: seq<(UserId, UserId)>

    /** Every payload this page emits names the signed-in user as sender. */
    ghost predicate Valid()
      reads this
    {
      forall k :: 0 <= k < |sent| ==> sent[k].sender == user.id
    }

    /** Initial state; the mount effect emits `joinRoom(user._id)`, which the
        server side models. */
    constructor (user: User)
      ensures Valid() && this.user == user
      ensures onlineUsers == [] && selectedUser == None && messages == []
      ensures draft == "" && sent == [] && fetches == []
    {
      this.user := user;
      onlineUsers, selectedUser, messages := [], None, [];
      draft, sent, fetches := "", [], [];
    }

    /** The `updateOnlineUsers` listener: keep the last broadcast. */
    method UpdateOnlineUsers(data: seq<UserId>)
      requires Valid()
      modifies this
      ensures Valid()
      ensures onlineUsers == data
      ensures selectedUser == old(selectedUser) && messages == old(messages)
      ensures draft == old(draft) && sent == old(sent) && fetches == old(fetches)
    {
      onlineUsers := data;
    }

    /** The `receiveMessage` listener: append a relevant message, ignore others. */
    method ReceiveMessage(msg: Message)
      requires Valid()
      modifies this
      ensures Valid()
      ensures Relevant(selectedUser, msg) ==> messages == old(messages) + [msg]
      ensures !Relevant(selectedUser, msg) ==> messages == old(messages)
      ensures onlineUsers == old(onlineUsers) && selectedUser == old(selectedUser)
      ensures draft == old(draft) && sent == old(sent) && fetches == old(fetches)
    {
      if Relevant(selectedUser, msg) {
        messages := messages + [msg];
      }
    }

    /** The input's `onChange`: the draft becomes the field's text. */
    method EditDraft(text: string)
      requires Valid()
      modifies this
      ensures Valid()
      ensures draft == text
      ensures onlineUsers == old(onlineUsers) && selectedUser == old(selectedUser)
      ensures messages == old(messages) && sent == old(sent) && fetches == old(fetches)
    {
      draft := text;
    }

    /** `selectUser(u)`: select u and start the history request for (me, u). */
    method SelectUser(u: User)
      requires Valid()
      modifies this
      ensures Valid()
      ensures selectedUser == Some(u)
      ensures fetches == old(fetches) + [(user.id, u.id)]
      ensures onlineUsers == old(onlineUsers) && messages == old(messages)
      ensures draft == old(draft) && sent == old(sent)
    {
      selectedUser := Some(u);
      fetches := fetches + [(user.id, u.id)];
    }

    /** A history response arriving: on success the list is replaced wholesale
        with the fetched conversation; on failure only a log line is written. */
    method FetchMessagesDone(response: Option<seq<Message>>)
      requires Valid()
      modifies this
      ensures Valid()
      ensures response.Some? ==> messages == response.value
      ensures response.None? ==> messages == old(messages)
      ensures onlineUsers == old(onlineUsers) && selectedUser == old(selectedUser)
      ensures draft == old(draft) && sent == old(sent) && fetches == old(fetches)
    {
      if response.Some? {
        messages := response.value;
      }
    }

    /** `sendMessage()`: nothing happens to a blank draft or with nobody
        selected; otherwise the untrimmed draft is emitted and cleared. */
    method SendMessage()
      requires Valid()
      modifies this
      ensures Valid()
      ensures !CanSend(old(draft), old(selectedUser)) ==> sent == old(sent) && draft == old(draft)
      ensures CanSend(old(draft), old(selectedUser)) ==>
        && sent == old(sent) + [SendData(user.id, old(selectedUser).value.id, old(draft))]
        && draft == ""
      ensures onlineUsers == old(onlineUsers) && selectedUser == old(selectedUser)
      ensures messages == old(messages) && fetches == old(fetches)
    {
      if Trim(draft) == "" || selectedUser.None? {
        return;
      }
      sent := sent + [SendData(user.id, selectedUser.value.id, draft)];
      draft := "";
    }

    /** The status dot in the user list and the chat header: online iff the
        id is in the last broadcast. */
    predicate ShowsOnline(id: UserId)
      reads this
    {
      id in onlineUsers
    }

    /** A message is drawn on "my" side iff the signed-in user sent it. */
    predicate IsMine(m: Message) {
      m.sender == user.id
    }
  }

  /** In a conversation with another user, "my" side holds exactly the
      messages sent to that user, and the other side those received from them. */
  lemma MineIffToSelected(p: Pane, m: Message, selected: UserId)
    requires Conversation.Between(m, p.user.id, selected) && selected != p.user.id
    ensures p.IsMine(m) <==> m.receiver == selected
    ensures !p.IsMine(m) <==> m.sender == selected
  {
  }
}
