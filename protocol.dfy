/** Values exchanged between the chat server, its storage and the browser client. */
module Protocol {

  /** A user's `_id`, as the client sends it in `joinRoom` and `sendMessage`. */
  type UserId = string

  /** A socket.io connection's `socket.id`. */
  type SocketId = string

  datatype Option<T> = None | Some(value: T)

  /** A persisted message document: the three fields the relay supplies plus
      the identifier and creation time the storage layer assigns. */
  datatype Message = Message(id: string, sender: UserId, receiver: UserId, text: string, createdAt: int)

  /** The payload of a `sendMessage` event. */
  datatype SendData = SendData(sender: UserId, receiver: UserId, text: string)
}
