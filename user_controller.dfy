/** server/controllers/userController.js: an older register / login /
    profile-update trio with its own reply shapes. Register has no input
    validation and sends no welcome mail; the profile update merges
    `fullName`, `bio` and `profileImageUrl`. */
module UserController {
  import opened Strings
  import opened Models
  import opened Stores
  import UserRoutes
  import FriendGraph

  /** Mongoose's message for a failed `required` check on the user schema,
      one clause per failing path in schema order. */
  function RequiredMessage(u: User): string {
    if u.fullName == "" && u.email == "" then
      "User validation failed: fullName: Path `fullName` is required., email: Path `email` is required."
    else if u.fullName == "" then UserRoutes.NameRequired
    else "User validation failed: email: Path `email` is required."
  }

  /** The 201 body of `registerUser`. */
  datatype Registered = Registered(id: UserId, fullName: string, email: string, profileCreated: bool, token: Token)

  /** `registerUser`. `fullName` may be absent from the body; the record is
      made with the schema defaults for everything but name, email and hash. */
  method RegisterUser(db: UserDb, fullName: Option<string>, email: string, password: Option<string>, salt: nat)
    returns (r: Reply<Registered>)
    requires db.Valid()
    modifies db
    ensures db.Valid()
    ensures EmailTaken(old(db.users), email) ==>
      r == Reply(400, "User already exists", None) && db.users == old(db.users)
    ensures !EmailTaken(old(db.users), email) && password.None? ==>
      r == Reply(500, UserRoutes.IllegalArguments, None) && db.users == old(db.users)
    ensures r.status == 201 ==> password.Some?
    ensures password.Some? ==>
      var u := NewUser(OrDefault(fullName), email, HashPassword(password.value, salt), None, None, None, None);
      && (!EmailTaken(old(db.users), email) && !UserRequiredPresent(u) ==>
            r == Reply(500, RequiredMessage(u), None) && db.users == old(db.users))
      && (r.status == 201 <==> !EmailTaken(old(db.users), email) && UserRequiredPresent(u))
      && (r.status == 201 ==>
            && r.data.Some?
            && var a := r.data.value;
               && a == Registered(a.id, u.fullName, u.email, false, Jwt(a.id))
               && a.id !in old(db.users) && db.users == old(db.users)[a.id := u])
  {
    var existing := db.FindByEmail(email);
    if existing.Some? {
      return Reply(400, "User already exists", None);
    }
    if password.None? {
      // `bcrypt.hash(undefined, salt)` rejects; the catch answers 500
      return Reply(500, UserRoutes.IllegalArguments, None);
    }
    var u := NewUser(OrDefault(fullName), email, HashPassword(password.value, salt), None, None, None, None);
    if !UserRequiredPresent(u) {
      return Reply(500, RequiredMessage(u), None);
    }
    var id := db.Create(u);
    r := Reply(201, "", Some(Registered(id, u.fullName, u.email, u.profileCreated, Jwt(id))));
  }

  /** `loginUser`: the same credential test as the route, one error for every
      failure. */
  method LoginUser(db: UserDb, email: string, password: Option<string>) returns (r: Reply<Registered>)
    requires db.Valid()
    ensures r.status == 200 <==> password.Some? && UserRoutes.CredentialsMatch(db.users, email, password.value)
    ensures password.None? && EmailTaken(db.users, email) ==> r == Reply(500, UserRoutes.IllegalArguments, None)
    ensures (password.Some? || !EmailTaken(db.users, email)) && r.status != 200 ==>
      r == Reply(400, "Invalid email or password", None)
    ensures r.status == 200 ==>
      && r.data.Some?
      && var a := r.data.value;
         && a.id in db.users && db.users[a.id].email == NormalizeEmail(email)
         && PasswordMatches(password.value, db.users[a.id].passwordHash)
         && a == Registered(a.id, db.users[a.id].fullName, db.users[a.id].email,
                            db.users[a.id].profileCreated, Jwt(a.id))
  {
    var found := db.FindByEmail(email);
    if found.Some? && password.None? {
      // `bcrypt.compare(undefined, hash)` rejects; the catch answers 500
      return Reply(500, UserRoutes.IllegalArguments, None);
    }
    if found.Some? && PasswordMatches(password.value, db.users[found.value].passwordHash) {
      var id := found.value;
      var u := db.users[id];
      r := Reply(200, "", Some(Registered(id, u.fullName, u.email, u.profileCreated, Jwt(id))));
    } else {
      assert password.Some? ==> !UserRoutes.CredentialsMatch(db.users, email, password.value);
      r := Reply(400, "Invalid email or password", None);
    }
  }

  /** The record after `updateProfile`'s assignments: `fullName` and `bio`
      through `||` and the schema's `trim`, the image only when truthy.
      `education` is not a schema path, so strict mode keeps it out of the
      stored record; see `Echoed`. */
  function Merge(u: User, fullName: Option<string>, bio: Option<string>, profileImageUrl: Option<string>): User {
    u.(fullName := if Truthy(fullName) then Trim(fullName.value) else u.fullName,
       bio := if Truthy(bio) then Trim(bio.value) else u.bio,
       profileImageUrl := if Truthy(profileImageUrl) then profileImageUrl else u.profileImageUrl,
       profileCreated := true)
  }

  /** Falsy values keep the stored field; `profileCreated` ends true; the
      other fields are untouched. */
  lemma MergeKeeps(u: User, fullName: Option<string>, bio: Option<string>, profileImageUrl: Option<string>)
    ensures var m := Merge(u, fullName, bio, profileImageUrl);
      && m.profileCreated
      && (!Truthy(fullName) ==> m.fullName == u.fullName)
      && (!Truthy(bio) ==> m.bio == u.bio)
      && (!Truthy(profileImageUrl) ==> m.profileImageUrl == u.profileImageUrl)
      && (Truthy(profileImageUrl) ==> m.profileImageUrl == profileImageUrl)
      && m == u.(fullName := m.fullName, bio := m.bio, profileImageUrl := m.profileImageUrl, profileCreated := true)
  {
  }

  /** On the fields both accept, the controller's merge and the route's agree. */
  lemma MergesAgree(u: User, bio: Option<string>, profileImageUrl: Option<string>)
    ensures var a := Merge(u, None, bio, profileImageUrl);
            var b := UserRoutes.MergeProfile(u, None, None, bio, profileImageUrl);
      a == b
  {
  }

  /** The body of a successful update. `education` is absent (`undefined`,
      which `res.json` leaves out) unless the request gave a truthy one. */
  datatype Profile = Profile(id: UserId, fullName: string, email: string, bio: string,
                             education: Option<string>, profileImageUrl: Option<string>, profileCreated: bool)

  /** `user.education = req.body.education || user.education` on a document
      freshly read from the store: the assignment is to a path the schema
      does not know, so it is an own property of that one document, which
      `save()` resolves to, and the stored record never has it. */
  function Echoed(education: Option<string>): (r: Option<string>)
    ensures r.Some? <==> Truthy(education)
    ensures r.Some? ==> r == education
  {
    if Truthy(education) then education else None
  }

  /** `updateProfile`. A `fullName` of only spaces trims to "" and fails the
      schema's `required` check on save. */
  method UpdateProfile(db: UserDb, me: UserId, fullName: Option<string>, bio: Option<string>,
                       education: Option<string>, profileImageUrl: Option<string>)
    returns (r: Reply<Profile>)
    requires db.Valid()
    modifies db
    ensures db.Valid()
    ensures me !in old(db.users) ==> r == Reply(404, "User not found", None) && db.users == old(db.users)
    ensures me in old(db.users) ==>
      var m := Merge(old(db.users)[me], fullName, bio, profileImageUrl);
      && (m.fullName == "" ==> r == Reply(500, UserRoutes.NameRequired, None) && db.users == old(db.users))
      && (m.fullName != "" ==>
            && db.users == old(db.users)[me := m]
            && r == Reply(200, "", Some(Profile(me, m.fullName, m.email, m.bio, Echoed(education), m.profileImageUrl, true))))
  {
    if me !in db.users {
      return Reply(404, "User not found", None);
    }
    var m := Merge(db.users[me], fullName, bio, profileImageUrl);
    if m.fullName == "" {
      return Reply(500, UserRoutes.NameRequired, None);
    }
    FriendGraph.SaveKeepsFriends(db.users, me, m);
    StoresKeepIndexes(db.users, me, m);
    db.Save(me, m);
    r := Reply(200, "", Some(Profile(me, m.fullName, m.email, m.bio, Echoed(education), m.profileImageUrl, true)));
  }

  /** Saving a record with the same email and username keeps both unique. */
  lemma StoresKeepIndexes(users: map<UserId, User>, id: UserId, u: User)
    requires id in users && u.email == users[id].email && u.username == users[id].username
    ensures EmailsUnique(users) ==> EmailsUnique(users[id := u])
    ensures UsernamesUnique(users) ==> UsernamesUnique(users[id := u])
  {
    IndexesKept(users, users[id := u]);
  }
}
