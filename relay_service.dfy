/**
 * The path-scoped relay of the web application: a socket.io server created
 * lazily by `initSocket` and kept in a module-level variable. It keeps no
 * presence table; it only joins connections to rooms and fans messages out.
 */
module RelayService {
  import Rooms
  import opened Messages

  type ConnId = Rooms.ConnId

  /** `io?.to(message.chatId).emit("receiveMessage", message)`, received by the connections in `to`. */
  datatype Delivery = Delivery(to: set<ConnId>, message: ChatMessage)

  /** The server `initSocket` creates, with the connection handlers it registers. */
  class Relay {
    /** the HTTP server it was attached to */
    const httpServer: nat
    var rooms: Rooms.RoomTable
    var outbox: seq<Delivery>

    constructor (httpServer: nat)
      ensures this.httpServer == httpServer
      ensures rooms == map[] && outbox == []
    {
      this.httpServer := httpServer;
      rooms := map[];
      outbox := [];
    }

    /** `joinChat`: joins without looking at current membership; a second join changes nothing. */
    method JoinChat(conn: ConnId, chatId: string)
      modifies this
      ensures rooms == Rooms.Join(old(rooms), chatId, conn)
      ensures conn in Rooms.Members(old(rooms), chatId) ==> rooms == old(rooms)
      ensures outbox == old(outbox)
    {
      if conn in Rooms.Members(rooms, chatId) {
        Rooms.JoinMember(rooms, chatId, conn);
      }
      rooms := Rooms.Join(rooms, chatId, conn);
    }

    /** `sendMessage`: the message, unchanged, to exactly the members of its room. */
    method SendMessage(conn: ConnId, message: ChatMessage)
      modifies this
      ensures rooms == old(rooms)
      ensures outbox == old(outbox) + [Delivery(Rooms.Members(rooms, message.chatId), message)]
    {
      outbox := outbox + [Delivery(Rooms.Members(rooms, message.chatId), message)];
    }

    /** `disconnect`: only logs, so no state of the relay changes. */
    method Disconnect(conn: ConnId)
      ensures rooms == old(rooms) && outbox == old(outbox)
    {
    }
  }

  /** The module that owns the `io` variable. */
  class SocketModule {
    /** `io`: null until the first `initSocket` */
    var io: Relay?

    constructor ()
      ensures io == null
    {
      io := null;
    }

    /**
     * `initSocket`: only the first call creates a server, attached to the
     * HTTP server it was given; later calls keep that server and its state,
     * so its handlers are registered once.
     */
    method InitSocket(httpServer: nat)
      modifies this
      ensures old(io) == null ==>
        io != null && fresh(io) && io.httpServer == httpServer && io.rooms == map[] && io.outbox == []
      ensures old(io) != null ==> io == old(io) && unchanged(io)
    {
      if io == null {
        io := new Relay(httpServer);
      }
    }
  }
}
