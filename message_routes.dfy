/** The handlers of server/routes/messageRoutes.js: one conversation, newest
    first, and sending a message with its two room events. */
module MessageRoutes {
  import opened Strings
  import opened Models
  import opened Stores
  import opened Seqs

  /** The query's `$or`: sent by `a` to `b`, or by `b` to `a`. */
  function Between(a: UserId, b: UserId): Message -> bool {
    (m: Message) => (m.from == a && m.to == b) || (m.from == b && m.to == a)
  }

  /** GET /:friendId, sorted by `createdAt` descending. */
  method Conversation(db: MessageDb, me: UserId, friendId: UserId) returns (r: seq<Message>)
    ensures r == Reverse(Filter(db.messages, Between(me, friendId)))
  {
    r := Reverse(Filter(db.messages, Between(me, friendId)));
  }

  /** The conversation holds exactly the messages between the two users, in
      either direction, and lists them newest first. */
  lemma ConversationSpec(messages: seq<Message>, me: UserId, friendId: UserId)
    requires Ascending(messages, MessageTime)
    ensures forall m :: m in Reverse(Filter(messages, Between(me, friendId))) <==>
      m in messages && ((m.from == me && m.to == friendId) || (m.from == friendId && m.to == me))
    ensures Descending(Reverse(Filter(messages, Between(me, friendId))), MessageTime)
  {
    ReverseFilterSpec(messages, Between(me, friendId), MessageTime);
  }

  /** Either participant sees the same conversation. */
  lemma {:induction false} ConversationSymmetric(messages: seq<Message>, a: UserId, b: UserId)
    ensures Filter(messages, Between(a, b)) == Filter(messages, Between(b, a))
  {
    if messages != [] {
      ConversationSymmetric(messages[1..], a, b);
      assert Between(a, b)(messages[0]) == Between(b, a)(messages[0]);
    }
  }

  /** POST /send/:friendId. The message is stored whoever the recipient is;
      the recipient's room gets the message, and then a notification naming
      the sender when the sender's record is found. */
  method Send(db: MessageDb, users: UserDb, relay: Relay, me: UserId, friendId: UserId, text: string)
    returns (r: Reply<Message>)
    requires db.Valid()
    modifies db, relay
    ensures db.Valid()
    ensures r.status == 200 && r.data.Some?
    ensures var m := r.data.value;
      && db.messages == old(db.messages) + [m]
      && m.from == me && m.to == friendId && m.text == text
      && (forall q | q in old(db.messages) :: q.createdAt < m.createdAt)
      && relay.emitted == old(relay.emitted) + [Emission(friendId, "newMessage", Chat(me, text, m.createdAt))]
           + (if me in users.users
              then [Emission(friendId, "notification", Notice("New message from " + users.users[me].fullName))]
              else [])
      && relay.rooms == old(relay.rooms)
  {
    var m := db.Create(me, friendId, text);
    relay.Emit(friendId, "newMessage", Chat(me, m.text, m.createdAt));
    if me in users.users {
      var sender := users.users[me];
      relay.Emit(friendId, "notification", Notice("New message from " + sender.fullName));
    }
    r := Reply(200, "", Some(m));
  }
}
