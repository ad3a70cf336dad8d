/** The MongoDB collections and the two outward channels (Socket.IO rooms
    and the mailer) the route handlers act on, as in-memory objects. Every
    Mongoose call the handlers make (`findOne`, `findById`, `save`,
    `create`, `deleteMany`, `deleteOne`) is one method here. */
module Stores {
  import opened Strings
  import opened Models
  import opened Seqs
  import FriendGraph

  // ---------------------------------------------------------------------------
  // Users

  /** The unique index on `email`. */
  predicate EmailsUnique(users: map<UserId, User>) {
    forall a, b | a in users && b in users && a != b :: users[a].email != users[b].email
  }

  /** The sparse unique index on `username`: only present usernames clash. */
  predicate UsernamesUnique(users: map<UserId, User>) {
    forall a, b | a in users && b in users && a != b && users[a].username.Some? ::
      users[a].username != users[b].username
  }

  /** `User.findOne({ email })` finds a record: the filter value goes through
      the schema's `lowercase` setter before it is compared. */
  predicate EmailTaken(users: map<UserId, User>, email: string) {
    exists k | k in users :: users[k].email == NormalizeEmail(email)
  }

  /** A change that keeps every key, email and username keeps both unique
      indexes. */
  lemma IndexesKept(before: map<UserId, User>, after: map<UserId, User>)
    requires after.Keys == before.Keys
    requires forall k | k in before :: after[k].email == before[k].email && after[k].username == before[k].username
    ensures EmailsUnique(before) ==> EmailsUnique(after)
    ensures UsernamesUnique(before) ==> UsernamesUnique(after)
  {
  }

  class UserDb {
    var users: map<UserId, User>
    var next: nat   // source of fresh ids: id n is the numeral Show(n)

    ghost predicate Valid()
      reads this
    {
      && (forall k | k in users :: ParseNat(k) < next)
      && FriendGraph.WellFormed(users)
      && EmailsUnique(users)
      && UsernamesUnique(users)
    }

    constructor ()
      ensures Valid() && users == map[]
    {
      users := map[];
      next := 0;
    }

    /** `User.findOne({ email })`. */
    method FindByEmail(email: string) returns (id: Option<UserId>)
      ensures id.Some? ==> id.value in users && users[id.value].email == NormalizeEmail(email)
      ensures id.None? <==> !EmailTaken(users, email)
    {
      var e := NormalizeEmail(email);
      if k :| k in users && users[k].email == e {
        id := Some(k);
      } else {
        id := None;
      }
    }

    /** `User.findOne({ username })`: the filter goes through the `trim` and
        `lowercase` setters. */
    method FindByUsername(username: string) returns (id: Option<UserId>)
      ensures id.Some? ==> id.value in users && users[id.value].username == Some(NormalizeUsername(username))
      ensures id.None? <==> forall k | k in users :: users[k].username != Some(NormalizeUsername(username))
    {
      var name := Some(NormalizeUsername(username));
      if k :| k in users && users[k].username == name {
        id := Some(k);
      } else {
        id := None;
      }
    }

    /** `new User({...}).save()` for a record with no username and no friends,
        whose email no stored user has. The new id is fresh. */
    method Create(u: User) returns (id: UserId)
      requires Valid()
      requires u.friends == [] && u.username == None
      requires forall k | k in users :: users[k].email != u.email
      modifies this
      ensures Valid()
      ensures id !in old(users) && users == old(users)[id := u]
    {
      id := Show(next);
      ParseShow(next);
      FriendGraph.InsertLonely(users, id, u);
      users := users[id := u];
      next := next + 1;
    }

    /** `doc.save()` of a loaded record. */
    method Save(id: UserId, u: User)
      requires id in users
      modifies this
      ensures users == old(users)[id := u] && next == old(next)
    {
      users := users[id := u];
    }
  }

  // ---------------------------------------------------------------------------
  // One-time password-reset codes

  /** What `OTP.deleteMany({ email })` leaves. */
  function WithoutEmail(s: seq<OtpRecord>, email: string): (r: seq<OtpRecord>)
    ensures forall x :: x in r <==> x in s && x.email != email
    ensures |r| <= |s|
  {
    if s == [] then []
    else if s[0].email == email then WithoutEmail(s[1..], email)
    else [s[0]] + WithoutEmail(s[1..], email)
  }

  /** The codes stored for one email, in insertion order. */
  function CodesFor(s: seq<OtpRecord>, email: string): (r: seq<string>)
    ensures forall c :: c in r <==> OtpRecord(email, c) in s
  {
    if s == [] then []
    else if s[0].email == email then [s[0].otp] + CodesFor(s[1..], email)
    else CodesFor(s[1..], email)
  }

  lemma {:induction false} CodesForAppend(s: seq<OtpRecord>, t: seq<OtpRecord>, email: string)
    ensures CodesFor(s + t, email) == CodesFor(s, email) + CodesFor(t, email)
  {
    if s == [] {
      assert s + t == t;
    } else {
      assert (s + t)[1..] == s[1..] + t;
      CodesForAppend(s[1..], t, email);
    }
  }

  /** Deleting every code of an email and then storing one leaves exactly that
      one code for the email, and the codes of every other email as they were. */
  lemma ReplaceCodes(s: seq<OtpRecord>, email: string, code: string)
    ensures CodesFor(WithoutEmail(s, email) + [OtpRecord(email, code)], email) == [code]
    ensures forall e | e != email ::
      CodesFor(WithoutEmail(s, email) + [OtpRecord(email, code)], e) == CodesFor(s, e)
  {
    var w := WithoutEmail(s, email);
    CodesForAppend(w, [OtpRecord(email, code)], email);
    NoCodesLeft(s, email);
    forall e | e != email
      ensures CodesFor(w + [OtpRecord(email, code)], e) == CodesFor(s, e)
    {
      CodesForAppend(w, [OtpRecord(email, code)], e);
      assert CodesFor([OtpRecord(email, code)], e) == [];
      WithoutOtherEmail(s, email, e);
    }
  }

  lemma {:induction false} NoCodesLeft(s: seq<OtpRecord>, email: string)
    ensures CodesFor(WithoutEmail(s, email), email) == []
  {
    if s != [] {
      NoCodesLeft(s[1..], email);
    }
  }

  lemma {:induction false} WithoutOtherEmail(s: seq<OtpRecord>, email: string, e: string)
    requires e != email
    ensures CodesFor(WithoutEmail(s, email), e) == CodesFor(s, e)
  {
    if s != [] {
      WithoutOtherEmail(s[1..], email, e);
    }
  }

  /** The OTP collection. Its schema file is not part of this model, so a
      record is matched on the email exactly as the request gave it. */
  class OtpDb {
    var records: seq<OtpRecord>

    constructor ()
      ensures records == []
    {
      records := [];
    }

    /** `OTP.deleteMany({ email })`. */
    method DeleteMany(email: string)
      modifies this
      ensures records == WithoutEmail(old(records), email)
    {
      records := WithoutEmail(records, email);
    }

    /** `OTP.create({ email, otp })`. */
    method Create(email: string, otp: string)
      modifies this
      ensures records == old(records) + [OtpRecord(email, otp)]
    {
      records := records + [OtpRecord(email, otp)];
    }

    /** `OTP.findOne({ email, otp })` found a record. */
    method FindOne(email: string, otp: string) returns (found: bool)
      ensures found <==> OtpRecord(email, otp) in records
    {
      found := OtpRecord(email, otp) in records;
    }
  }

  // ---------------------------------------------------------------------------
  // Posts and messages. `timestamps: true` stamps each record with a
  // `createdAt`. Here it comes from a counter that grows with every insert,
  // so insertion order is `createdAt` order and no two records tie.

  function PostTime(p: Post): int { p.createdAt }
  function MessageTime(m: Message): int { m.createdAt }

  /** The posts collection, in insertion order. */
  class PostDb {
    var posts: seq<Post>
    var next: nat    // source of fresh ids
    var clock: nat   // the next `createdAt`

    ghost predicate Valid()
      reads this
    {
      && (forall i | 0 <= i < |posts| :: ParseNat(posts[i].id) < next && posts[i].createdAt < clock)
      && (forall i, j | 0 <= i < j < |posts| :: posts[i].id != posts[j].id)
      && Ascending(posts, PostTime)
    }

    constructor ()
      ensures Valid() && posts == []
    {
      posts := [];
      next := 0;
      clock := 0;
    }

    /** `Post.findById(id)`: the position of the post with that id. */
    method FindById(id: PostId) returns (i: Option<nat>)
      ensures i.Some? ==> i.value < |posts| && posts[i.value].id == id
      ensures i.None? <==> forall j | 0 <= j < |posts| :: posts[j].id != id
    {
      if j :| 0 <= j < |posts| && posts[j].id == id {
        i := Some(j);
      } else {
        i := None;
      }
    }

    /** `Post.create({...})`: appends a post with a fresh id, stamped later
        than every stored post. */
    method Create(owner: UserId, authorEmail: string, text: Option<string>,
                  imageThumb: Option<string>, attachments: seq<Attachment>) returns (p: Post)
      requires Valid()
      modifies this
      ensures Valid()
      ensures posts == old(posts) + [p]
      ensures p == NewPost(p.id, owner, authorEmail, text, imageThumb, attachments, p.createdAt)
      ensures forall q | q in old(posts) :: q.id != p.id && q.createdAt < p.createdAt
    {
      ParseShow(next);
      p := NewPost(Show(next), owner, authorEmail, text, imageThumb, attachments, clock);
      posts := posts + [p];
      next := next + 1;
      clock := clock + 1;
    }

    /** `post.text = ...; post.save()`. */
    method SetText(i: nat, text: string)
      requires Valid() && i < |posts|
      modifies this
      ensures Valid()
      ensures posts == old(posts)[i := old(posts)[i].(text := text)]
      ensures next == old(next) && clock == old(clock)
    {
      posts := posts[i := posts[i].(text := text)];
    }

    /** `post.deleteOne()`. */
    method DeleteAt(i: nat)
      requires Valid() && i < |posts|
      modifies this
      ensures Valid()
      ensures posts == old(posts)[..i] + old(posts)[i + 1..]
      ensures next == old(next) && clock == old(clock)
    {
      ghost var s := posts;
      posts := posts[..i] + posts[i + 1..];
      assert forall j | 0 <= j < |posts| :: posts[j] == s[if j < i then j else j + 1];
    }
  }

  /** The messages collection, in insertion order. */
  class MessageDb {
    var messages: seq<Message>
    var clock: nat

    ghost predicate Valid()
      reads this
    {
      && (forall i | 0 <= i < |messages| :: messages[i].createdAt < clock)
      && Ascending(messages, MessageTime)
    }

    constructor ()
      ensures Valid() && messages == []
    {
      messages := [];
      clock := 0;
    }

    /** `Message.create({ from, to, text })`. */
    method Create(from: UserId, to: UserId, text: string) returns (m: Message)
      requires Valid()
      modifies this
      ensures Valid()
      ensures messages == old(messages) + [m]
      ensures m.from == from && m.to == to && m.text == text
      ensures forall q | q in old(messages) :: q.createdAt < m.createdAt
    {
      m := Message(from, to, text, clock);
      messages := messages + [m];
      clock := clock + 1;
    }
  }

  // ---------------------------------------------------------------------------
  // Socket.IO rooms and emitted events, and the outgoing mail

  type SocketId = string

  datatype Payload =
    | Notice(message: string)                                 // "notification"
    | Chat(from: UserId, text: string, createdAt: nat)        // "newMessage"

  datatype Emission = Emission(room: string, event: string, payload: Payload)

  /** The Socket.IO server: which rooms each socket has joined, and the log of
      `io.to(room).emit(event, payload)` calls. */
  class Relay {
    var rooms: map<SocketId, set<string>>
    var emitted: seq<Emission>

    constructor ()
      ensures rooms == map[] && emitted == []
    {
      rooms := map[];
      emitted := [];
    }

    method Emit(room: string, event: string, payload: Payload)
      modifies this
      ensures emitted == old(emitted) + [Emission(room, event, payload)]
      ensures rooms == old(rooms)
    {
      emitted := emitted + [Emission(room, event, payload)];
    }

    /** `socket.join(room)`. */
    method Join(socket: SocketId, room: string)
      modifies this
      ensures rooms == old(rooms)[socket := (if socket in old(rooms) then old(rooms)[socket] else {}) + {room}]
      ensures emitted == old(emitted)
    {
      var current := if socket in rooms then rooms[socket] else {};
      rooms := rooms[socket := current + {room}];
    }
  }

  datatype Mail =
    | WelcomeMail(to: string, name: string)
    | ResetCodeMail(to: string, code: string)

  /** The mail the server hands to its mail provider, in order. */
  class Mailer {
    var outbox: seq<Mail>

    constructor ()
      ensures outbox == []
    {
      outbox := [];
    }

    method Send(m: Mail)
      modifies this
      ensures outbox == old(outbox) + [m]
    {
      outbox := outbox + [m];
    }
  }
}
