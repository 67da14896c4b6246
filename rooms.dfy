/**
 * Room membership as the relays use it: a table from a room name to the set
 * of connection ids joined to it. A room nobody joined has no entry and no
 * members; a room is never removed.
 */
module Rooms {

  type ConnId = string
  type RoomTable = map<string, set<ConnId>>

  /** The connections `io.to(room)` reaches. */
  function Members(t: RoomTable, room: string): set<ConnId> {
    if room in t then t[room] else {}
  }

  /** `socket.join(room)`: adds conn to room and to no other room. */
  function Join(t: RoomTable, room: string, conn: ConnId): (t': RoomTable)
    ensures room in t'
    ensures forall r :: r in t && r != room ==> r in t' && t'[r] == t[r]
    ensures forall r :: r in t' ==> r in t || r == room
    ensures Members(t', room) == Members(t, room) + {conn}
  {
    t[room := Members(t, room) + {conn}]
  }

  /** Joining leaves every other membership as it was: a connection may sit in several rooms. */
  lemma JoinKeepsOtherRooms(t: RoomTable, room: string, conn: ConnId, other: string, c: ConnId)
    requires other != room || c != conn
    ensures c in Members(Join(t, room, conn), other) <==> c in Members(t, other)
  {
  }

  /** Joining a room one already belongs to changes nothing. */
  lemma JoinMember(t: RoomTable, room: string, conn: ConnId)
    requires conn in Members(t, room)
    ensures Join(t, room, conn) == t
  {
    assert room in t;
    assert t[room] + {conn} == t[room];
  }

  /** Joining twice is joining once, because members are a set. */
  lemma JoinIdempotent(t: RoomTable, room: string, conn: ConnId)
    ensures Join(Join(t, room, conn), room, conn) == Join(t, room, conn)
  {
  }
}
