/** The chat server's socket handlers: `join_room` subscribes the calling socket to the room named
    by its argument, and `send_message` relays the payload unchanged to every socket in the room
    the payload names, then once more to the sender. Rooms have no other rules. */
module SocketRouter {
  import opened ChatMessages

  type SocketId = string

  class Router {
    /** The live sockets. */
    var connected: set<SocketId>
    /** Room name to the sockets that joined it. */
    var rooms: map<string, set<SocketId>>

    function Members(room: string): set<SocketId>
      reads this
    {
      if room in rooms then rooms[room] else {}
    }

    /** Only live sockets sit in rooms, and each live socket is in the room named by its own id
        (the transport puts it there on connection). */
    ghost predicate Valid()
      reads this
    {
      && (forall r :: r in rooms ==> rooms[r] <= connected)
      && (forall s :: s in connected ==> s in Members(s))
    }

    constructor ()
      ensures Valid() && connected == {} && rooms == map[]
    {
      connected := {};
      rooms := map[];
    }

    /** A new connection: the transport gives it a fresh id and joins it to the room of that id. */
    method Connect(s: SocketId)
      requires Valid() && s !in connected
      modifies this
      ensures Valid()
      ensures connected == old(connected) + {s}
      ensures rooms == old(rooms)[s := old(Members(s)) + {s}]
    {
      connected := connected + {s};
      rooms := rooms[s := Members(s) + {s}];
    }

    /** `join_room(username)`: `socket.join(username)`. */
    method JoinRoom(s: SocketId, username: string)
      requires Valid() && s in connected
      modifies this
      ensures Valid()
      ensures connected == old(connected)
      ensures Members(username) == old(Members(username)) + {s}
      ensures forall r :: r != username ==> Members(r) == old(Members(r))
    {
      rooms := rooms[username := Members(username) + {s}];
    }

    /** `send_message(data)`: `io.to(data.room).emit(...)` reaches every member of the room, the
        sender included when it is one; `socket.emit(...)` then reaches the sender. Returns how
        many copies of the payload each socket receives, and the payload, which is `data` itself. */
    method SendMessage(sender: SocketId, data: ChatMessage) returns (recipients: multiset<SocketId>, payload: ChatMessage)
      requires Valid() && sender in connected
      ensures payload == data
      ensures forall s :: recipients[s] == (if s in Members(data.room) then 1 else 0) + (if s == sender then 1 else 0)
      ensures forall s :: s in recipients ==> s in connected
      ensures |recipients| == |Members(data.room)| + 1
    {
      recipients := multiset(Members(data.room)) + multiset{sender};
      payload := data;
    }
  }
}
