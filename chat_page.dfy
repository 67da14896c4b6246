/**
 * The chat page of the web client. Pure parts: the conversation key both
 * participants compute, and the user-search filter. Stateful part: the
 * page's state fields (`messages`, `activeUids`, `messageText`, the signed-in
 * and selected users) and the handlers that update them, with the events the
 * page emits on its socket recorded in `emitted`.
 */
module ChatPage {
  import opened Wrappers
  import JsStrings
  import opened Messages
  import VerifiedUsers

  /** A user of the list, as the verified-users endpoint returns it. */
  type User = VerifiedUsers.VerifiedUser

  /** `[a, b].sort().join("_")`: the room of the conversation between a and b. */
  function ChatKey(a: string, b: string): (r: string)
    ensures r == a + "_" + b || r == b + "_" + a
  {
    var sorted := if JsStrings.Less(b, a) then [b, a] else [a, b];
    sorted[0] + "_" + sorted[1]
  }

  /** Both participants compute the same room, whichever of them computes it. */
  lemma ChatKeySymmetric(a: string, b: string)
    ensures ChatKey(a, b) == ChatKey(b, a)
  {
    if a != b {
      JsStrings.LessTotal(a, b);
      JsStrings.LessAsymmetric(a, b);
    }
  }

  /** The key is the smaller uid, "_", then the larger. */
  lemma ChatKeyOrder(a: string, b: string, lo: string, hi: string)
    requires multiset{lo, hi} == multiset{a, b}
    requires !JsStrings.Less(hi, lo)
    ensures ChatKey(a, b) == lo + "_" + hi
  {
    assert lo == a || lo == b;
    JsStrings.LessIrreflexive(a);
    if lo != hi {
      JsStrings.LessTotal(lo, hi);
      JsStrings.LessAsymmetric(lo, hi);
    }
  }

  /** Position of the first "_" in s, or |s| when there is none. */
  function SeparatorAt(s: string): (i: nat)
    ensures i <= |s|
    ensures forall j :: 0 <= j < i ==> s[j] != '_'
    ensures i < |s| ==> s[i] == '_'
  {
    if s == [] then 0 else if s[0] == '_' then 0 else 1 + SeparatorAt(s[1..])
  }

  lemma SeparatorAtJoin(x: string, y: string)
    requires '_' !in x
    ensures SeparatorAt(x + "_" + y) == |x|
  {
    var s := x + "_" + y;
    assert s[|x|] == '_';
    assert forall j :: 0 <= j < |x| ==> s[j] == x[j];
  }

  /** The text before the first "_" of x + "_" + y, when x holds no "_", is x. */
  lemma SplitAtSeparator(x: string, y: string, x': string, y': string)
    requires '_' !in x && '_' !in x'
    requires x + "_" + y == x' + "_" + y'
    ensures x == x' && y == y'
  {
    var s := x + "_" + y;
    SeparatorAtJoin(x, y);
    SeparatorAtJoin(x', y');
    assert x == s[..|x|] == x';
    assert y == s[|x| + 1..] == y';
  }

  /**
   * Room isolation: when uids hold no "_", two conversations share a room only
   * if they are between the same two users.
   */
  lemma ChatKeyDeterminesPair(a: string, b: string, c: string, d: string)
    requires '_' !in a && '_' !in b && '_' !in c && '_' !in d
    requires ChatKey(a, b) == ChatKey(c, d)
    ensures multiset{a, b} == multiset{c, d}
  {
    var lo1, hi1 := if JsStrings.Less(b, a) then b else a, if JsStrings.Less(b, a) then a else b;
    var lo2, hi2 := if JsStrings.Less(d, c) then d else c, if JsStrings.Less(d, c) then c else d;
    SplitAtSeparator(lo1, hi1, lo2, hi2);
  }

  /**
   * `user.displayName.toLowerCase().includes(search.toLowerCase())`: a name
   * holding the search as written always matches, and every name matches the
   * empty search.
   */
  function Matches(u: User, search: string): (b: bool)
    ensures JsStrings.Includes(u.displayName, search) ==> b
    ensures search == "" ==> b
  {
    JsStrings.IncludesEmptyAndSelf(u.displayName);
    JsStrings.IncludesToLower(u.displayName, search);
    JsStrings.Includes(JsStrings.ToLower(u.displayName), JsStrings.ToLower(search))
  }

  /** `users.filter(...)` with the case-insensitive match. */
  function KeepMatching(users: seq<User>, search: string): (r: seq<User>)
    ensures |r| <= |users|
    ensures forall i :: 0 <= i < |r| ==> r[i] in users && Matches(r[i], search)
    ensures forall i :: 0 <= i < |users| && Matches(users[i], search) ==> users[i] in r
  {
    if users == [] then []
    else if Matches(users[0], search) then [users[0]] + KeepMatching(users[1..], search)
    else KeepMatching(users[1..], search)
  }

  /** Every user matches the empty search, so filtering with it keeps the whole list. */
  lemma {:induction false} KeepMatchingEmptySearch(users: seq<User>)
    ensures KeepMatching(users, "") == users
  {
    if users != [] {
      KeepMatchingEmptySearch(users[1..]);
    }
  }

  /**
   * `filteredUser`: every user for an empty search, else the matching ones.
   * The `!search` guard is only a shortcut: the result is always the filter.
   */
  function FilterUsers(users: seq<User>, search: string): (r: seq<User>)
    ensures r == KeepMatching(users, search)
  {
    if search == "" then
      KeepMatchingEmptySearch(users);
      users
    else KeepMatching(users, search)
  }

  /** The filter's result: all users for an empty search, else exactly the matching users. */
  lemma FilterUsersSpec(users: seq<User>, search: string)
    ensures search == "" ==> FilterUsers(users, search) == users
    ensures search != "" ==>
      forall u :: u in FilterUsers(users, search) <==> u in users && Matches(u, search)
  {
  }

  /** The kept users stay in their original order. */
  lemma {:induction false} KeepMatchingAppend(a: seq<User>, b: seq<User>, search: string)
    ensures KeepMatching(a + b, search) == KeepMatching(a, search) + KeepMatching(b, search)
  {
    if a == [] {
      assert a + b == b;
    } else {
      assert (a + b)[0] == a[0] && (a + b)[1..] == a[1..] + b;
      KeepMatchingAppend(a[1..], b, search);
    }
  }

  /** The `{ userId }` object a page sends with `userOnline` and `userOffline`. */
  datatype OnlinePayload = OnlinePayload(userId: string)

  /** What the page emits on its socket. */
  datatype ClientEmit =
    | UserOnline(payload: OnlinePayload)
    | UserOffline(payload: OnlinePayload)
    | JoinChat(chatId: string)
    | SendMessage(message: ChatMessage)

  /** The `userId` fields of a received user list, in order. */
  function UserIds(users: seq<OnlinePayload>): (r: seq<string>)
    ensures |r| == |users|
    ensures forall i :: 0 <= i < |users| ==> r[i] == users[i].userId
  {
    if users == [] then [] else [users[0].userId] + UserIds(users[1..])
  }

  /** The state of one open chat page. */
  class ChatView {
    /** uid of the signed-in user, if any */
    var currentUser: Option<string>
    var selectedUser: Option<User>
    var messages: seq<ChatMessage>
    var messageText: string
    var activeUids: seq<string>
    /** every `socket.emit` of this page, oldest first */
    var emitted: seq<ClientEmit>

    constructor (currentUser: Option<string>)
      ensures this.currentUser == currentUser
      ensures selectedUser == None && messages == [] && messageText == ""
      ensures activeUids == [] && emitted == []
    {
      this.currentUser := currentUser;
      selectedUser := None;
      messages := [];
      messageText := "";
      activeUids := [];
      emitted := [];
    }

    /** The avatar shows a user as online when its uid is in `activeUids`. */
    predicate IsOnline(uid: string)
      reads this
    {
      uid in activeUids
    }

    /** `setUserOnline`: emits only for a signed-in user whose page is visible. */
    method SetUserOnline(visible: bool)
      modifies this`emitted
      ensures currentUser.Some? && visible ==>
        emitted == old(emitted) + [UserOnline(OnlinePayload(currentUser.value))]
      ensures currentUser.None? || !visible ==> emitted == old(emitted)
    {
      if currentUser.None? {
        return;
      }
      if visible {
        emitted := emitted + [UserOnline(OnlinePayload(currentUser.value))];
      }
    }

    /** `setUserOffline`: emits whenever a user is signed in. */
    method SetUserOffline()
      modifies this`emitted
      ensures currentUser.Some? ==>
        emitted == old(emitted) + [UserOffline(OnlinePayload(currentUser.value))]
      ensures currentUser.None? ==> emitted == old(emitted)
    {
      if currentUser.None? {
        return;
      }
      emitted := emitted + [UserOffline(OnlinePayload(currentUser.value))];
    }

    /** The `updateUserList` handler: a user is online exactly when some entry of the list carries its uid. */
    method OnUpdateUserList(users: seq<OnlinePayload>)
      modifies this`activeUids
      ensures activeUids == UserIds(users)
      ensures forall uid :: IsOnline(uid) <==> exists i :: 0 <= i < |users| && users[i].userId == uid
    {
      activeUids := UserIds(users);
    }

    /** The `receiveMessage` handler: the message goes last, earlier ones stay. */
    method OnReceiveMessage(message: ChatMessage)
      modifies this`messages
      ensures |messages| == |old(messages)| + 1
      ensures messages[..|old(messages)|] == old(messages) && messages[|old(messages)|] == message
    {
      messages := messages + [message];
    }

    /** A fetched history replaces the whole list. */
    method OnMessagesFetched(history: seq<ChatMessage>)
      modifies this`messages
      ensures messages == history
    {
      messages := history;
    }

    /** The input field's `onChange`. */
    method TypeText(text: string)
      modifies this`messageText
      ensures messageText == text
    {
      messageText := text;
    }

    /**
     * Clicking a user: selects it. The effect keyed on `selectedUser` runs
     * only when the selection changes; with a signed-in user it joins their
     * conversation's room. Re-selecting the selected user leaves the state
     * as it is, so nothing is emitted.
     */
    method SelectUser(user: User)
      modifies this`selectedUser, this`emitted
      ensures selectedUser == Some(user)
      ensures old(selectedUser) == Some(user) ==> emitted == old(emitted)
      ensures old(selectedUser) != Some(user) && currentUser.Some? ==>
        emitted == old(emitted) + [JoinChat(ChatKey(currentUser.value, user.uid))]
      ensures currentUser.None? ==> emitted == old(emitted)
    {
      if selectedUser == Some(user) {
        return;
      }
      selectedUser := Some(user);
      if currentUser.None? {
        return;
      }
      var chatId := ChatKey(currentUser.value, user.uid);
      emitted := emitted + [JoinChat(chatId)];
    }

    /**
     * `handleSendMessage`: nothing happens for blank text or without a
     * selected or signed-in user; otherwise the untrimmed text goes out once,
     * addressed to the conversation's room, and the input is cleared.
     */
    method HandleSendMessage(now: int)
      modifies this`emitted, this`messageText
      ensures ((forall i :: 0 <= i < |old(messageText)| ==> JsStrings.IsWhitespace(old(messageText)[i]))
               || selectedUser.None? || currentUser.None?) ==>
        emitted == old(emitted) && messageText == old(messageText)
      ensures ((exists i :: 0 <= i < |old(messageText)| && !JsStrings.IsWhitespace(old(messageText)[i]))
               && selectedUser.Some? && currentUser.Some?) ==>
        && emitted == old(emitted) + [SendMessage(ChatMessage(
             currentUser.value, selectedUser.value.uid, old(messageText), now,
             ChatKey(currentUser.value, selectedUser.value.uid)))]
        && messageText == ""
    {
      if JsStrings.Trim(messageText) == "" || selectedUser.None? || currentUser.None? {
        return;
      }
      var chatId := ChatKey(currentUser.value, selectedUser.value.uid);
      var newMessage := ChatMessage(currentUser.value, selectedUser.value.uid, messageText, now, chatId);
      emitted := emitted + [SendMessage(newMessage)];
      messageText := "";
    }
  }
}
