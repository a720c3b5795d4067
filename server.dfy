/** The socket.io connection handlers of the chat server: `connection`,
    `joinRoom`, `sendMessage` and `disconnect`. Each handler runs to completion before the
    next event is handled, so each is one method call. */
module ChatServer {
  import opened Protocol
  import opened Registry

  /** What `Message.create` does: store the record and hand back the identifier
      and creation time it assigned, or throw. */
  datatype StoreOutcome = Created(id: string, createdAt: int) | Failed

  /** The record `Message.create` stores for payload `data`, with the
      identifier and creation time storage assigned. */
  function Persisted(data: SendData, id: string, createdAt: int): Message {
    Message(id, data.sender, data.receiver, data.text, createdAt)
  }

  /** One `io.to(room).emit("receiveMessage", msg)`: the room addressed, the
      sockets in that room at the time, and the record sent. */
  datatype Emission = Emission(room: UserId, sockets: set<SocketId>, msg: Message)

  /** Room membership agrees with its history: a room holds exactly the
      sockets that were added to it and have not disconnected. */
  ghost predicate RoomsMatch(rooms: map<UserId, set<SocketId>>, joins: set<(UserId, SocketId)>, closed: set<SocketId>) {
    && (forall r :: r in rooms ==> forall s :: s in rooms[r] ==> (r, s) in joins && s !in closed)
    && (forall r, s :: (r, s) in joins && s !in closed ==> r in rooms && s in rooms[r])
  }

  /** Adding an open socket to a room keeps membership in step with the history. */
  lemma RoomsAdd(rooms: map<UserId, set<SocketId>>, joins: set<(UserId, SocketId)>, closed: set<SocketId>,
                 room: UserId, socket: SocketId)
    requires RoomsMatch(rooms, joins, closed) && socket !in closed
    ensures RoomsMatch(rooms[room := (if room in rooms then rooms[room] else {}) + {socket}],
                       joins + {(room, socket)}, closed)
  {
  }

  /** Taking a closed socket out of every room keeps membership in step with the history. */
  lemma RoomsClose(rooms: map<UserId, set<SocketId>>, joins: set<(UserId, SocketId)>, closed: set<SocketId>,
                   socket: SocketId)
    requires RoomsMatch(rooms, joins, closed)
    ensures RoomsMatch(map r | r in rooms :: rooms[r] - {socket}, joins, closed + {socket})
  {
  }

  class Server {
    /** `onlineUsers`, in insertion order. */
    var onlineUsers: seq<Entry>
    /** socket.io room membership: which sockets are in the room of a given name
        (a user id, or a socket's own id). */
    var rooms: map<UserId, set<SocketId>>
    /** The message collection in storage. */
    var store: seq<Message>
    /** Every `updateOnlineUsers` payload sent to all clients, oldest first. */
    var broadcasts: seq<seq<UserId>>
    /** Every `receiveMessage` emission, oldest first. */
    var emissions: seq<Emission>
    /** Every (room, socket) pair added: by `joinRoom`, or the socket's own-id
        room at connection. */
    ghost var joins: set<(UserId, SocketId)>
    /** Every socket that has disconnected. */
    ghost var closed: set<SocketId>

    ghost predicate Valid()
      reads this
    {
      && NoDup(Keys(onlineUsers))
      && (forall k :: 0 <= k < |broadcasts| ==> NoDup(broadcasts[k]))
      // every client that heard the last broadcast holds the current keys
      && (broadcasts != [] ==> broadcasts[|broadcasts| - 1] == Keys(onlineUsers))
      && RoomsMatch(rooms, joins, closed)
    }

    /** The sockets that a message sent to room `room` reaches: those that
        joined it and have not disconnected since. */
    function RoomMembers(room: UserId): (r: set<SocketId>)
      requires Valid()
      reads this
      ensures forall s :: s in r <==> (room, s) in joins && s !in closed
    {
      if room in rooms then rooms[room] else {}
    }

    constructor ()
      ensures Valid()
      ensures onlineUsers == [] && rooms == map[] && store == []
      ensures broadcasts == [] && emissions == []
      ensures joins == {} && closed == {}
    {
      onlineUsers, rooms, store := [], map[], [];
      broadcasts, emissions := [], [];
      joins, closed := {}, {};
    }

    /** The `connection` event: socket.io puts the new socket into the room
        named by its own id, so `io.to(socket.id)` reaches it without any
        `joinRoom`. The handler itself only registers its listeners. */
    method Connect(socket: SocketId)
      requires Valid()
      requires socket !in closed
      modifies this
      ensures Valid()
      ensures rooms == old(rooms)[socket := old(RoomMembers(socket)) + {socket}]
      ensures joins == old(joins) + {(socket, socket)} && closed == old(closed)
      ensures onlineUsers == old(onlineUsers) && broadcasts == old(broadcasts)
      ensures store == old(store) && emissions == old(emissions)
    {
      RoomsAdd(rooms, joins, closed, socket, socket);
      rooms := rooms[socket := RoomMembers(socket) + {socket}];
      joins := joins + {(socket, socket)};
    }

    /** `joinRoom(userId)` from socket `socket`. */
    method JoinRoom(socket: SocketId, userId: UserId)
      requires Valid()
      // socket.io delivers no event from a socket after its disconnect
      requires socket !in closed
      modifies this
      ensures Valid()
      ensures rooms == old(rooms)[userId := old(RoomMembers(userId)) + {socket}]
      ensures onlineUsers == MapSet(old(onlineUsers), userId, socket)
      ensures broadcasts == old(broadcasts) + [Keys(onlineUsers)]
      ensures store == old(store) && emissions == old(emissions)
      ensures joins == old(joins) + {(userId, socket)} && closed == old(closed)
      // last join wins, and no other user's binding moves
      ensures Lookup(onlineUsers, userId) == Some(socket)
      ensures forall v :: v != userId ==> Lookup(onlineUsers, v) == old(Lookup(onlineUsers, v))
      // a rejoin keeps the key's place; a new user goes last
      ensures Keys(onlineUsers) == if userId in old(Keys(onlineUsers)) then old(Keys(onlineUsers))
                                   else old(Keys(onlineUsers)) + [userId]
    {
      RoomsAdd(rooms, joins, closed, userId, socket);
      MapSetNoDup(onlineUsers, userId, socket);
      rooms := rooms[userId := RoomMembers(userId) + {socket}];
      joins := joins + {(userId, socket)};
      onlineUsers := MapSet(onlineUsers, userId, socket);
      broadcasts := broadcasts + [Keys(onlineUsers)];
    }

    /** `sendMessage(data)`: persist, then on success emit the stored record to
        the receiver's room and then to the sender's room. */
    method SendMessage(data: SendData, outcome: StoreOutcome)
      requires Valid()
      modifies this
      ensures Valid()
      ensures onlineUsers == old(onlineUsers) && rooms == old(rooms) && broadcasts == old(broadcasts)
      ensures joins == old(joins) && closed == old(closed)
      ensures outcome.Failed? ==> store == old(store) && emissions == old(emissions)
      ensures outcome.Created? ==>
        var m := Persisted(data, outcome.id, outcome.createdAt);
        && store == old(store) + [m]
        && emissions == old(emissions) + [Emission(data.receiver, old(RoomMembers(data.receiver)), m),
                                          Emission(data.sender, old(RoomMembers(data.sender)), m)]
    {
      match outcome
      case Failed =>
        // the catch block only logs
      case Created(id, createdAt) =>
        var message := Persisted(data, id, createdAt);
        var toReceiver, toSender := RoomMembers(data.receiver), RoomMembers(data.sender);
        store := store + [message];
        emissions := emissions + [Emission(data.receiver, toReceiver, message)];
        emissions := emissions + [Emission(data.sender, toSender, message)];
    }

    /** `disconnect` of socket `socket`: scan the entries in insertion order,
        delete the first one holding this socket, then broadcast in any case.
        socket.io itself takes the closed socket out of every room it joined. */
    method Disconnect(socket: SocketId)
      requires Valid()
      modifies this
      ensures Valid()
      ensures onlineUsers == DeleteFirstBySocket(old(onlineUsers), socket)
      ensures broadcasts == old(broadcasts) + [Keys(onlineUsers)]
      ensures rooms == map r | r in old(rooms) :: old(rooms)[r] - {socket}
      ensures store == old(store) && emissions == old(emissions)
      ensures joins == old(joins) && closed == old(closed) + {socket}
    {
      ghost var removed := false;
      var i := 0;
      while i < |onlineUsers|
        invariant 0 <= i <= |onlineUsers|
        invariant !removed && onlineUsers == old(onlineUsers)
        invariant forall j :: 0 <= j < i ==> onlineUsers[j].socket != socket
      {
        if onlineUsers[i].socket == socket {
          DeleteFirstBySocketAt(onlineUsers, socket, i);
          UniqueKeyBefore(onlineUsers, i);
          MapDeleteAt(onlineUsers, i);
          DeleteFirstBySocketNoDup(onlineUsers, socket);
          onlineUsers := MapDelete(onlineUsers, onlineUsers[i].user);
          removed := true;
          break;
        }
        i := i + 1;
      }
      if !removed {
        DeleteFirstBySocketNoMatch(onlineUsers, socket);
      }
      RoomsClose(rooms, joins, closed, socket);
      rooms := map r | r in rooms :: rooms[r] - {socket};
      closed := closed + {socket};
      broadcasts := broadcasts + [Keys(onlineUsers)];
    }
  }
}
