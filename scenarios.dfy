/**
 * Whole conversations: chat pages emitting events, the presence server
 * handling them one at a time, and what each page then shows. Each presence
 * declaration reaches the server as a new object, so the server's values are
 * objects compared by identity.
 */
module Scenarios {
  import opened Wrappers
  import JsMap
  import JsStrings
  import Rooms
  import opened Messages
  import PresenceServer
  import RelayService
  import ChatPage
  import VerifiedUsers

  /** The `{ userId }` object one `userOnline` event delivers to the server. */
  class Payload {
    const userId: string

    constructor (userId: string)
      ensures this.userId == userId
    {
      this.userId := userId;
    }
  }

  /** A presence broadcast as a page receives it: the same fields, no identity. */
  function Serialize(users: seq<Payload>): (r: seq<ChatPage.OnlinePayload>)
    ensures |r| == |users|
    ensures forall i :: 0 <= i < |users| ==> r[i].userId == users[i].userId
  {
    if users == [] then [] else [ChatPage.OnlinePayload(users[0].userId)] + Serialize(users[1..])
  }

  /** Two connections declaring two different values, in this order, are listed in this order. */
  lemma TwoDeclarations<V>(c1: string, p1: V, c2: string, p2: V)
    requires c1 != c2 && p1 != p2
    ensures JsMap.Set(JsMap.Set([], c1, p1), c2, p2) == [(c1, p1), (c2, p2)]
    ensures JsMap.Distinct(JsMap.Values([(c1, p1), (c2, p2)])) == [p1, p2]
  {
    assert JsMap.Set([], c1, p1) == [(c1, p1)];
    assert JsMap.Find([(c1, p1)], c2) == 1;
    var e := [(c1, p1), (c2, p2)];
    JsMap.KeysAndValues(e);
    assert JsMap.Values(e) == [p1, p2];
    JsMap.DistinctOfDistinct([p1, p2]);
  }

  /** Deleting the first of two connections leaves the second, listed alone. */
  lemma OneLeft<V>(c1: string, p1: V, c2: string, p2: V)
    requires c1 != c2
    ensures JsMap.Delete([(c1, p1), (c2, p2)], c1) == [(c2, p2)]
    ensures JsMap.Distinct(JsMap.Values([(c2, p2)])) == [p2]
  {
    assert JsMap.Find([(c1, p1), (c2, p2)], c1) == 0;
    JsMap.KeysAndValues([(c2, p2)]);
    JsMap.DistinctOfDistinct([p2]);
  }

  /** Two declarations reach a page as their two ids, in order. */
  lemma TwoListed(p1: Payload, p2: Payload)
    ensures ChatPage.UserIds(Serialize([p1, p2])) == [p1.userId, p2.userId]
  {
  }

  /**
   * Alice on connection c1 and Bob on c2 declare themselves online: the
   * second broadcast lists both, and a page receiving it shows both online.
   */
  method BothOnline() returns (online: seq<string>)
    ensures online == ["alice", "bob"]
  {
    var server := new PresenceServer.Server<Payload>();
    var p1 := new Payload("alice");
    server.UserOnline("c1", p1);
    var p2 := new Payload("bob");
    server.UserOnline("c2", p2);
    TwoDeclarations("c1", p1, "c2", p2);
    assert server.activeUsers == [("c1", p1), ("c2", p2)];
    var list := server.outbox[|server.outbox| - 1].users;
    assert list == [p1, p2];
    TwoListed(p1, p2);
    online := ChatPage.UserIds(Serialize(list));
  }

  /** Alice's page on c1 and Bob's page on c2 each select the other, and the server joins both to their room. */
  method OpenConversation(server: PresenceServer.Server<Payload>) returns (room: string)
    requires server.Valid() && server.rooms == map[]
    modifies server
    ensures server.Valid() && server.outbox == old(server.outbox)
    ensures room == "alice_bob" && Rooms.Members(server.rooms, room) == {"c1", "c2"}
  {
    ChatPage.ChatKeyOrder("alice", "bob", "alice", "bob");
    ChatPage.ChatKeyOrder("bob", "alice", "alice", "bob");
    var alice := new ChatPage.ChatView(Some("alice"));
    alice.SelectUser(VerifiedUsers.VerifiedUser("bob", None, "Bob"));
    room := alice.emitted[|alice.emitted| - 1].chatId;
    server.JoinChat("c1", room);
    var bob := new ChatPage.ChatView(Some("bob"));
    bob.SelectUser(VerifiedUsers.VerifiedUser("alice", None, "Alice"));
    server.JoinChat("c2", bob.emitted[|bob.emitted| - 1].chatId);
  }

  /**
   * Once Alice and Bob have opened their conversation, Alice says "hi": the
   * message reaches both connections unchanged.
   */
  method AliceGreetsBob() returns (room: string, receivers: set<string>, received: seq<ChatMessage>)
    ensures room == "alice_bob"
    ensures receivers == {"c1", "c2"}
    ensures received == [ChatMessage("alice", "bob", "hi", 1000, "alice_bob")]
  {
    var server := new PresenceServer.Server<Payload>();
    room := OpenConversation(server);
    var alice := new ChatPage.ChatView(Some("alice"));
    alice.SelectUser(VerifiedUsers.VerifiedUser("bob", None, "Bob"));
    ChatPage.ChatKeyOrder("alice", "bob", "alice", "bob");
    alice.TypeText("hi");
    assert !JsStrings.IsWhitespace("hi"[0]);
    alice.HandleSendMessage(1000);
    var message := alice.emitted[|alice.emitted| - 1].message;
    assert message == ChatMessage("alice", "bob", "hi", 1000, "alice_bob");
    server.SendMessage("c1", message);
    var delivery := server.outbox[|server.outbox| - 1];
    receivers := delivery.to;
    var bob := new ChatPage.ChatView(Some("bob"));
    bob.OnReceiveMessage(delivery.message);
    received := bob.messages;
  }

  /**
   * The disconnect handler as written: Alice goes online on c1 and her
   * connection closes without `userOffline`. Her entry stays in the table
   * and no broadcast follows the one for her arrival.
   */
  method StaleEntryAfterDisconnect() returns (stillListed: bool, broadcasts: nat)
    ensures stillListed && broadcasts == 1
  {
    var server := new PresenceServer.Server<Payload>();
    var p := new Payload("alice");
    server.UserOnline("c1", p);
    server.Disconnect("c1");
    stillListed := "c1" in server.Online();
    broadcasts := |server.outbox|;
  }

  /**
   * The corrected disconnect: the same events remove Alice's entry and end
   * with exactly one more broadcast, of the now empty list.
   */
  method DisconnectRemovesEntry() returns (stillListed: bool, broadcasts: nat, last: seq<Payload>)
    ensures !stillListed && broadcasts == 2 && last == []
  {
    var server := new PresenceServer.Server<Payload>();
    var p := new Payload("alice");
    server.UserOnline("c1", p);
    assert "c1" in server.Online();
    server.DisconnectIntended("c1");
    stillListed := "c1" in server.Online();
    broadcasts := |server.outbox|;
    assert server.activeUsers == [];
    last := server.outbox[|server.outbox| - 1].users;
  }

  /** A list of declarations all made by one user reaches a page as that user's id, once per declaration. */
  lemma OneUserListed(ps: seq<Payload>, uid: string)
    requires forall i :: 0 <= i < |ps| ==> ps[i].userId == uid
    ensures ChatPage.UserIds(Serialize(ps)) == seq(|ps|, _ => uid)
  {
  }

  /**
   * Alice in two tabs (c1 and c3): each declaration is its own object, so
   * the broadcast lists her twice, and after one tab goes offline she is
   * still listed, once.
   */
  lemma TwoTabs(p1: Payload, p3: Payload)
    requires p1 != p3 && p1.userId == "alice" && p3.userId == "alice"
    ensures var both := JsMap.Set(JsMap.Set([], "c1", p1), "c3", p3);
      && ChatPage.UserIds(Serialize(JsMap.Distinct(JsMap.Values(both)))) == ["alice", "alice"]
      && ChatPage.UserIds(Serialize(JsMap.Distinct(JsMap.Values(JsMap.Delete(both, "c1"))))) == ["alice"]
  {
    TwoDeclarations("c1", p1, "c3", p3);
    OneLeft("c1", p1, "c3", p3);
    OneUserListed([p1, p3], "alice");
    OneUserListed([p3], "alice");
  }

  /**
   * The path-scoped relay: a second `initSocket` keeps the first server, a
   * repeated join changes nothing, and a message reaches the room's member.
   */
  method SingletonRelay() returns (attachedTo: nat, receivers: set<string>)
    ensures attachedTo == 1 && receivers == {"c1"}
  {
    var service := new RelayService.SocketModule();
    service.InitSocket(1);
    var io := service.io;
    service.InitSocket(2);
    assert service.io == io;
    io.JoinChat("c1", "alice_bob");
    io.JoinChat("c1", "alice_bob");
    io.SendMessage("c2", ChatMessage("bob", "alice", "yo", 5, "alice_bob"));
    attachedTo := io.httpServer;
    receivers := io.outbox[|io.outbox| - 1].to;
  }
}
