/** The Mongoose schemas of server/models/user.js and server/models/post.js,
    plus the message and one-time-code records the routes store. A schema's
    defaults and its `trim` / `lowercase` setters become the functions that
    build a record. */
module Models {
  import opened Strings

  type UserId = string
  type PostId = string

  /** A bcrypt hash, kept symbolic: it remembers the password and the salt it
      was made from, and comparing succeeds exactly for the hashed password. */
  datatype PasswordHash = Bcrypt(password: string, salt: nat)

  function HashPassword(password: string, salt: nat): PasswordHash {
    Bcrypt(password, salt)
  }

  predicate PasswordMatches(password: string, h: PasswordHash) {
    h.password == password
  }

  /** bcrypt.compare(p, bcrypt.hash(q, salt)) holds exactly when p == q,
      whatever the salt. */
  lemma HashThenCompare(p: string, q: string, salt: nat)
    ensures PasswordMatches(p, HashPassword(q, salt)) <==> p == q
  {
  }

  /** A signed session token for a user id (the JWT is kept symbolic). */
  datatype Token = Jwt(subject: UserId)

  datatype User = User(
    fullName: string,
    username: Option<string>,       // sparse: absent until a profile sets it
    email: string,
    passwordHash: PasswordHash,
    qualification: string,
    branch: string,
    year: string,
    subjects: seq<string>,
    college: string,
    bio: string,
    profileImageUrl: Option<string>,
    profileCreated: bool,
    friends: seq<UserId>)

  /** The `lowercase` setter of `email`. */
  function NormalizeEmail(email: string): string {
    Lower(email)
  }

  /** The `trim` and `lowercase` setters of `username`. */
  function NormalizeUsername(username: string): string {
    Lower(Trim(username))
  }

  /** Normalising a username or an email a second time changes nothing, so a
      stored value and a query cast through the same setters agree. */
  lemma NormalizeIdempotent(s: string)
    ensures NormalizeUsername(NormalizeUsername(s)) == NormalizeUsername(s)
    ensures NormalizeEmail(NormalizeEmail(s)) == NormalizeEmail(s)
  {
    TrimLowerCommute(Trim(s));
    TrimIdempotent(s);
    LowerIdempotent(Trim(s));
    LowerIdempotent(s);
  }

  function OrDefault(v: Option<string>): string {
    if v.Some? then v.value else ""
  }

  /** `new User({...})`: absent fields take the schema's defaults, and the
      setters trim `fullName` and lower-case `email`. */
  function NewUser(fullName: string, email: string, hash: PasswordHash,
                   qualification: Option<string>, branch: Option<string>, year: Option<string>,
                   subjects: Option<seq<string>>): User
  {
    User(fullName := Trim(fullName),
         username := None,
         email := NormalizeEmail(email),
         passwordHash := hash,
         qualification := OrDefault(qualification),
         branch := OrDefault(branch),
         year := OrDefault(year),
         subjects := if subjects.Some? then subjects.value else [],
         college := "",
         bio := "",
         profileImageUrl := None,
         profileCreated := false,
         friends := [])
  }

  /** A fresh account has the schema defaults: empty profile strings, no
      subjects, no image, no username, no friends, and profileCreated false. */
  lemma NewUserDefaults(fullName: string, email: string, hash: PasswordHash)
    ensures var u := NewUser(fullName, email, hash, None, None, None, None);
      && u.qualification == "" && u.branch == "" && u.year == "" && u.subjects == []
      && u.college == "" && u.bio == "" && u.profileImageUrl == None
      && u.username == None && !u.profileCreated && u.friends == []
      && u.email == Lower(email) && u.fullName == Trim(fullName)
  {
  }

  /** Mongoose's `required` validator: a required string may not be empty.
      (`passwordHash` is always present in this model.) */
  predicate UserRequiredPresent(u: User) {
    u.fullName != "" && u.email != ""
  }

  datatype Attachment = Attachment(name: string, url: string)

  datatype Post = Post(
    id: PostId,
    user: UserId,                   // owner reference
    authorEmail: string,
    text: string,
    imageThumb: Option<string>,
    attachments: seq<Attachment>,
    createdAt: nat)

  /** `Post.create({...})`; `text` defaults to "" and `imageThumb` to null. */
  function NewPost(id: PostId, owner: UserId, authorEmail: string, text: Option<string>,
                   imageThumb: Option<string>, attachments: seq<Attachment>, createdAt: nat): Post
  {
    Post(id, owner, authorEmail, OrDefault(text), imageThumb, attachments, createdAt)
  }

  lemma NewPostDefaults(id: PostId, owner: UserId, authorEmail: string, createdAt: nat)
    ensures var p := NewPost(id, owner, authorEmail, None, None, [], createdAt);
      p.text == "" && p.imageThumb == None && p.user == owner && p.authorEmail == authorEmail
  {
  }

  predicate PostRequiredPresent(p: Post) {
    p.user != "" && p.authorEmail != ""
  }

  datatype Message = Message(from: UserId, to: UserId, text: string, createdAt: nat)

  /** One stored password-reset code. */
  datatype OtpRecord = OtpRecord(email: string, otp: string)

  /** An HTTP reply: status code, the `message` (or `error`) text, and the
      payload, if any. */
  datatype Reply<D> = Reply(status: nat, message: string, data: Option<D>)
}
