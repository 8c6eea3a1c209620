/**
 * The in-memory part of the chat client: messages, users, chat rooms and the
 * session state the client keeps globally (the message log across all rooms
 * and the logged-in user).
 *
 * The HTTP POST that broadcasts an accepted message is replaced by appending
 * its JSON payload to the session's outbox, so that what would have been sent
 * can be stated. Timestamps are passed in instead of read from the clock.
 */
module Chat {

  const MaxMessageLength := 200
  const MaxUsernameLength := 20

  /** A message as stored in a room's history and in the global log. */
  datatype ChatMessage = ChatMessage(username: string, message: string, timestamp: int)

  /** The JSON body broadcastMessage posts to the server. */
  datatype Payload = Payload(chatroom: string, username: string, message: string, timestamp: int)

  /** The stored message a payload was built from. */
  function MessageOf(p: Payload): ChatMessage {
    ChatMessage(p.username, p.message, p.timestamp)
  }

  /** The payload for message m posted in the room named roomName: it carries m unchanged, tagged with the room. */
  function PayloadOf(roomName: string, m: ChatMessage): (p: Payload)
    ensures p.chatroom == roomName && MessageOf(p) == m
    ensures forall q: Payload :: q.chatroom == roomName && MessageOf(q) == m ==> q == p
  {
    Payload(roomName, m.username, m.message, m.timestamp)
  }

  /**
   * Array.prototype.indexOf on a list of objects: the position of the first
   * element identical to x, or -1 when there is none.
   */
  function IndexOf<T(==)>(s: seq<T>, x: T): (i: int)
    ensures -1 <= i < |s|
    ensures i == -1 <==> x !in s
    ensures 0 <= i ==> s[i] == x && x !in s[..i]
  {
    if |s| == 0 then -1
    else if s[0] == x then 0
    else
      var j := IndexOf(s[1..], x);
      if j == -1 then -1
      else
        assert s[..j + 1] == [s[0]] + s[1..][..j];
        j + 1
  }

  /**
   * The list with its first occurrence of x taken out (the list itself when x
   * does not occur): exactly one copy of x fewer, order otherwise kept.
   */
  function RemoveFirst<T(==)>(s: seq<T>, x: T): (r: seq<T>)
    ensures x !in s ==> r == s
    ensures x in s ==> |r| == |s| - 1
  {
    if |s| == 0 then []
    else if s[0] == x then s[1..]
    else
      assert s == [s[0]] + s[1..];
      [s[0]] + RemoveFirst(s[1..], x)
  }

  /** RemoveFirst takes out exactly one copy of x, or none when x is absent. */
  lemma {:induction false} RemoveFirstMultiset<T>(s: seq<T>, x: T)
    ensures multiset(RemoveFirst(s, x)) == multiset(s) - multiset{x}
  {
    if s != [] {
      assert s == [s[0]] + s[1..];
      if s[0] != x {
        RemoveFirstMultiset(s[1..], x);
      }
    }
  }

  /** Splicing out the element indexOf finds is RemoveFirst. */
  lemma {:induction false} SpliceAtIndexOf<T>(s: seq<T>, x: T)
    requires x in s
    ensures s[..IndexOf(s, x)] + s[IndexOf(s, x) + 1..] == RemoveFirst(s, x)
  {
    if s[0] == x {
      assert IndexOf(s, x) == 0 && RemoveFirst(s, x) == s[1..];
      assert s[..0] + s[1..] == s[1..];
    } else {
      var t := s[1..];
      assert s == [s[0]] + t;
      var j := IndexOf(t, x);
      assert IndexOf(s, x) == j + 1;
      assert RemoveFirst(s, x) == [s[0]] + RemoveFirst(t, x);
      SpliceAtIndexOf(t, x);
      SpliceBehindHead(s, j);
    }
  }

  /** Splicing position j + 1 out of s is splicing position j out of its tail, behind the head. */
  lemma SpliceBehindHead<T>(s: seq<T>, j: nat)
    requires j + 1 < |s|
    ensures s[..j + 1] + s[j + 2..] == [s[0]] + (s[1..][..j] + s[1..][j + 1..])
  {
    assert s[..j + 1] == [s[0]] + s[1..][..j];
    assert s[j + 2..] == s[1..][j + 1..];
  }

  /** Appending x to a list without x and removing the first x gives the list back. */
  lemma {:induction false} AppendAbsentThenRemoveFirst<T>(s: seq<T>, x: T)
    requires x !in s
    ensures RemoveFirst(s + [x], x) == s
  {
    if s == [] {
      assert s + [x] == [x];
    } else {
      AppendAbsentThenRemoveFirst(s[1..], x);
      assert s + [x] == [s[0]] + (s[1..] + [x]);
      assert (s + [x])[1..] == s[1..] + [x];
      assert s == [s[0]] + s[1..];
    }
  }

  /**
   * Appending x and then removing the first x gives the list back when x was
   * absent, and otherwise a list with the same elements, each as often as before.
   */
  lemma AppendThenRemoveFirst<T>(s: seq<T>, x: T)
    ensures x !in s ==> RemoveFirst(s + [x], x) == s
    ensures multiset(RemoveFirst(s + [x], x)) == multiset(s)
    ensures |RemoveFirst(s + [x], x)| == |s|
  {
    assert (s + [x])[|s|] == x;
    assert multiset(s + [x]) == multiset(s) + multiset{x};
    RemoveFirstMultiset(s + [x], x);
    if x !in s {
      AppendAbsentThenRemoveFirst(s, x);
    }
  }

  /** The logged-in user and the global message log, plus the recorded broadcasts. */
  class Session {
    var currentUser: User?
    var chatMessages: seq<ChatMessage>
    var outbox: seq<Payload>

    /** The state before login: no user, no messages, nothing sent. */
    constructor ()
      ensures currentUser == null && chatMessages == [] && outbox == []
    {
      currentUser := null;
      chatMessages := [];
      outbox := [];
    }
  }

  class User {
    var username: string
    var chatrooms: seq<Chatroom>

    constructor (username: string)
      ensures this.username == username && chatrooms == []
    {
      this.username := username;
      chatrooms := [];
    }

    /** Records room at the end of this user's room list; no duplicate check. */
    method JoinChatroom(room: Chatroom)
      modifies this
      ensures chatrooms == old(chatrooms) + [room]
      ensures username == old(username)
    {
      chatrooms := chatrooms + [room];
    }
  }

  class Chatroom {
    var name: string
    var messages: seq<ChatMessage>
    var users: seq<User>

    constructor (name: string)
      ensures this.name == name && messages == [] && users == []
    {
      this.name := name;
      messages := [];
      users := [];
    }

    /**
     * Accepts text of at most MaxMessageLength characters: stores one message
     * from the session's current user at the end of this room's history and of
     * the global log, and broadcasts it once. Longer text changes nothing.
     */
    method SendMessage(session: Session, text: string, timestamp: int)
      requires |text| <= MaxMessageLength ==> session.currentUser != null
      modifies this, session
      ensures name == old(name) && users == old(users)
      ensures session.currentUser == old(session.currentUser)
      ensures |text| > MaxMessageLength ==>
        messages == old(messages) &&
        session.chatMessages == old(session.chatMessages) &&
        session.outbox == old(session.outbox)
      ensures |text| <= MaxMessageLength ==>
        var m := ChatMessage(session.currentUser.username, text, timestamp);
        messages == old(messages) + [m] &&
        session.chatMessages == old(session.chatMessages) + [m] &&
        session.outbox == old(session.outbox) + [PayloadOf(name, m)]
    {
      if |text| > MaxMessageLength {
        // rejected: only console.error is called
      } else {
        var m := ChatMessage(session.currentUser.username, text, timestamp);
        messages := messages + [m];
        session.chatMessages := session.chatMessages + [m];
        BroadcastMessage(session, m);
      }
    }

    /** Records the payload that would be posted to the server for m. */
    method BroadcastMessage(session: Session, m: ChatMessage)
      modifies session
      ensures session.outbox == old(session.outbox) + [PayloadOf(name, m)]
      ensures session.currentUser == old(session.currentUser)
      ensures session.chatMessages == old(session.chatMessages)
    {
      session.outbox := session.outbox + [PayloadOf(name, m)];
    }

    /**
     * Adds user to the end of the roster and this room to the end of the
     * user's room list, unless the user name is longer than
     * MaxUsernameLength, in which case nothing changes. Joining twice adds
     * both entries twice.
     */
    method Join(user: User)
      modifies this, user
      ensures name == old(name) && messages == old(messages)
      ensures user.username == old(user.username)
      ensures |user.username| > MaxUsernameLength ==>
        users == old(users) && user.chatrooms == old(user.chatrooms)
      ensures |user.username| <= MaxUsernameLength ==>
        users == old(users) + [user] && user.chatrooms == old(user.chatrooms) + [this]
    {
      if |user.username| > MaxUsernameLength {
        // rejected: only console.error is called
      } else {
        users := users + [user];
        user.JoinChatroom(this);
      }
    }

    /**
     * Removes the first roster entry identical to user; the roster stays as
     * it is when user is absent. The user's own room list is not touched.
     */
    method Leave(user: User)
      modifies this
      ensures users == RemoveFirst(old(users), user)
      ensures name == old(name) && messages == old(messages)
      ensures user.chatrooms == old(user.chatrooms)
    {
      var index := IndexOf(users, user);
      if index != -1 {
        SpliceAtIndexOf(users, user);
        users := users[..index] + users[index + 1..];
      }
    }
  }

  /**
   * Join followed by Leave with the same user: the roster is back to its
   * former size and elements (back exactly when the user was not on it),
   * while the user's room list keeps the room Join added.
   */
  method JoinThenLeave(room: Chatroom, user: User)
    requires |user.username| <= MaxUsernameLength
    modifies room, user
    ensures |room.users| == |old(room.users)|
    ensures multiset(room.users) == multiset(old(room.users))
    ensures user !in old(room.users) ==> room.users == old(room.users)
    ensures user.chatrooms == old(user.chatrooms) + [room]
  {
    room.Join(user);
    room.Leave(user);
    AppendThenRemoveFirst(old(room.users), user);
  }
}
