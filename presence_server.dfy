/**
 * The presence table and room relay of the standalone socket.io server.
 * Each connection may declare who it is (`userOnline`) and withdraw that
 * (`userOffline`); every change to the table is broadcast to all connections
 * as the list of distinct declared values. Connections join rooms and a
 * message is fanned out to the members of its `chatId` room.
 *
 * Handlers run one at a time, so the server is a sequential state machine:
 * one method per handler, each called with the id of the connection whose
 * event it handles. What the server sends is appended to `outbox`.
 */
module PresenceServer {
  import JsMap
  import Rooms
  import opened Messages

  type ConnId = Rooms.ConnId

  /** One emit of the server. */
  datatype Emission<V> =
      /** `io.emit("updateUserList", users)` to every connection */
    | UserList(users: seq<V>)
      /** `io.emit("updateUserList", Array.from(activeUsers))`: the raw entries, to every connection */
    | UserEntries(entries: seq<(ConnId, V)>)
      /** `io.to(message.chatId).emit("receiveMessage", message)`: to the connections in `to` */
    | Relayed(to: set<ConnId>, message: ChatMessage)

  /**
   * `socket.id === item` where item is what `for (... of activeUsers)` yields:
   * a two-element [key, value] array. A string and an array are never
   * strictly equal, whatever they hold.
   */
  predicate StrictEqualsEntry<V>(id: ConnId, item: (ConnId, V)) {
    false
  }

  /**
   * The server. V is the type of the value a client declares with
   * `userOnline`; equality of V is JavaScript's identity of that value.
   */
  class Server<V(==)> {
    /** `activeUsers`: connection id to declared value, in insertion order */
    var activeUsers: seq<(ConnId, V)>
    /** which connections are joined to which room */
    var rooms: Rooms.RoomTable
    /** every emit so far, oldest first */
    var outbox: seq<Emission<V>>

    ghost predicate Valid()
      reads this
    {
      JsMap.UniqueKeys(activeUsers)
    }

    /** Who is online: each connection with an entry, and the value it declared. */
    function Online(): map<ConnId, V>
      reads this
    {
      JsMap.ToMap(activeUsers)
    }

    /** The payload of a presence broadcast: `Array.from(new Set(activeUsers.values()))`. */
    function UserListPayload(): seq<V>
      reads this
    {
      JsMap.Distinct(JsMap.Values(activeUsers))
    }

    constructor ()
      ensures Valid()
      ensures activeUsers == [] && rooms == map[] && outbox == []
    {
      activeUsers := [];
      rooms := map[];
      outbox := [];
    }

    /** The broadcast payload lists every online value once and nothing else. */
    lemma UserListIsOnline()
      requires Valid()
      ensures JsMap.NoDuplicates(UserListPayload())
      ensures forall x :: x in UserListPayload() <==> x in Online().Values
    {
      JsMap.DistinctValuesAreOnline(activeUsers);
    }

    /** `userOnline`: record (or overwrite) this connection's value, then broadcast. */
    method UserOnline(conn: ConnId, userId: V)
      requires Valid()
      modifies this
      ensures Valid()
      ensures activeUsers == JsMap.Set(old(activeUsers), conn, userId)
      ensures Online() == old(Online())[conn := userId]
      ensures rooms == old(rooms)
      ensures outbox == old(outbox) + [UserList(UserListPayload())]
    {
      JsMap.SetToMap(activeUsers, conn, userId);
      JsMap.SetUniqueKeys(activeUsers, conn, userId);
      activeUsers := JsMap.Set(activeUsers, conn, userId);
      outbox := outbox + [UserList(JsMap.Distinct(JsMap.Values(activeUsers)))];
    }

    /** `userOffline`: when this connection has an entry, delete it and broadcast; otherwise do nothing. */
    method UserOffline(conn: ConnId)
      requires Valid()
      modifies this
      ensures Valid()
      ensures rooms == old(rooms)
      ensures conn in old(Online()) ==>
        && activeUsers == JsMap.Delete(old(activeUsers), conn)
        && Online() == old(Online()) - {conn}
        && outbox == old(outbox) + [UserList(UserListPayload())]
      ensures conn !in old(Online()) ==>
        activeUsers == old(activeUsers) && outbox == old(outbox)
    {
      JsMap.HasIffInMap(activeUsers, conn);
      if JsMap.Has(activeUsers, conn) {
        JsMap.DeleteToMap(activeUsers, conn);
        activeUsers := JsMap.Delete(activeUsers, conn);
        outbox := outbox + [UserList(JsMap.Distinct(JsMap.Values(activeUsers)))];
      }
    }

    /** `joinChat`: a member of the room returns at once; anyone else is added to it. */
    method JoinChat(conn: ConnId, chatId: string)
      requires Valid()
      modifies this
      ensures Valid()
      ensures activeUsers == old(activeUsers) && outbox == old(outbox)
      ensures conn in Rooms.Members(old(rooms), chatId) ==> rooms == old(rooms)
      ensures rooms == Rooms.Join(old(rooms), chatId, conn)
    {
      var isJoined := conn in Rooms.Members(rooms, chatId);
      if isJoined {
        Rooms.JoinMember(rooms, chatId, conn);
        return;
      }
      rooms := Rooms.Join(rooms, chatId, conn);
    }

    /**
     * `sendMessage`: the message, unchanged, to exactly the members of its
     * room. The sender need not be one of them.
     */
    method SendMessage(conn: ConnId, message: ChatMessage)
      requires Valid()
      modifies this
      ensures Valid()
      ensures activeUsers == old(activeUsers) && rooms == old(rooms)
      ensures outbox == old(outbox) + [Relayed(Rooms.Members(rooms, message.chatId), message)]
    {
      outbox := outbox + [Relayed(Rooms.Members(rooms, message.chatId), message)];
    }

    /**
     * `disconnect`, as written: the loop compares the connection id with each
     * [key, value] item, which never matches, so nothing is removed and
     * nothing is emitted. Room memberships are not touched either.
     */
    method Disconnect(conn: ConnId)
      requires Valid()
      modifies this
      ensures activeUsers == old(activeUsers) && rooms == old(rooms) && outbox == old(outbox)
    {
      var emits: seq<Emission<V>> := [];
      for i := 0 to |activeUsers|
        invariant emits == []
      {
        var userId := activeUsers[i];
        if StrictEqualsEntry(conn, userId) {
          // activeUsers.delete(userId) looks the array up as a key; every key
          // is a string, so it removes nothing.
          emits := [UserEntries(activeUsers)];
          break;
        }
      }
      outbox := outbox + emits;
    }

    /**
     * `disconnect` as it is evidently meant: find this connection's entry,
     * delete it, broadcast the distinct values once, and stop.
     */
    method DisconnectIntended(conn: ConnId)
      requires Valid()
      modifies this
      ensures Valid()
      ensures rooms == old(rooms)
      ensures conn in old(Online()) ==>
        && activeUsers == JsMap.Delete(old(activeUsers), conn)
        && Online() == old(Online()) - {conn}
        && outbox == old(outbox) + [UserList(UserListPayload())]
      ensures conn !in old(Online()) ==>
        activeUsers == old(activeUsers) && outbox == old(outbox)
    {
      JsMap.HasIffInMap(activeUsers, conn);
      JsMap.DeleteToMap(activeUsers, conn);
      var i := 0;
      while i < |activeUsers|
        invariant 0 <= i <= |activeUsers|
        invariant activeUsers == old(activeUsers) && outbox == old(outbox)
        invariant forall j :: 0 <= j < i ==> activeUsers[j].0 != conn
      {
        var (connId, _) := activeUsers[i];
        if connId == conn {
          activeUsers := JsMap.Delete(activeUsers, connId);
          outbox := outbox + [UserList(JsMap.Distinct(JsMap.Values(activeUsers)))];
          break;
        }
        i := i + 1;
      }
    }
  }

  /** A user with two connections stays online until both have gone offline. */
  lemma StillOnlineFromOtherConnection<V>(e: seq<(ConnId, V)>, c1: ConnId, c2: ConnId)
    requires JsMap.UniqueKeys(e)
    requires c1 != c2 && c1 in JsMap.ToMap(e) && c2 in JsMap.ToMap(e)
    ensures JsMap.ToMap(e)[c2] in JsMap.ToMap(JsMap.Delete(e, c1)).Values
  {
    JsMap.DeleteToMap(e, c1);
    assert c2 in JsMap.ToMap(JsMap.Delete(e, c1));
  }

  /** Going offline twice has the effect of going offline once. */
  lemma OfflineTwiceIsOnce<V>(e: seq<(ConnId, V)>, c: ConnId)
    requires JsMap.UniqueKeys(e)
    ensures !JsMap.Has(JsMap.Delete(e, c), c)
    ensures JsMap.Delete(JsMap.Delete(e, c), c) == JsMap.Delete(e, c)
  {
    JsMap.DeleteToMap(e, c);
    JsMap.HasIffInMap(JsMap.Delete(e, c), c);
  }
}
