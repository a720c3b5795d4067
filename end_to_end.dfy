/** Facts that connect the server's state to what one chat page draws. */
module EndToEnd {
  import opened Protocol
  import opened Registry
  import ChatServer
  import ChatPane

  /** A page whose online list is the server's last broadcast shows a user as
      online exactly when the server's map has an entry for that user. */
  lemma ShownOnlineIffBound(s: ChatServer.Server, p: ChatPane.Pane, id: UserId)
    requires s.Valid() && s.broadcasts != []
    requires p.onlineUsers == s.broadcasts[|s.broadcasts| - 1]
    ensures p.ShowsOnline(id) <==> Lookup(s.onlineUsers, id).Some?
  {
  }

  /** The record the server stores and echoes for any payload this page sent
      is drawn on the page's own side. */
  lemma EchoDrawnAsMine(p: ChatPane.Pane, k: int, id: string, createdAt: int)
    requires p.Valid() && 0 <= k < |p.sent|
    ensures p.IsMine(ChatServer.Persisted(p.sent[k], id, createdAt))
  {
  }
}
