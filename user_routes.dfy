/** The handlers of server/routes/userRoutes.js: registration, login,
    profile update, the friend add/remove pair and the one-time-code password
    reset. Each handler is a method on the stores it touches; the `protect`
    middleware is represented by the requester id `me` it would have put on
    the request. */
module UserRoutes {
  import opened Strings
  import opened Models
  import opened Stores
  import FriendGraph

  // ---------------------------------------------------------------------------
  // Request validation (express-validator)

  /** An approximation of express-validator's `isEmail`: one `@` with a
      non-empty local part, a domain holding a dot that neither starts nor ends
      it, and no spaces. */
  predicate IsEmail(s: string) {
    var local := BeforeFirst(s, '@');
    && 0 < |local| < |s|
    && var domain := s[|local| + 1..];
       && '@' !in domain && ' ' !in s && '.' in domain
       && domain[0] != '.' && domain[|domain| - 1] != '.'
  }

  /** The three checks in front of /register: `fullName` a string of at least
      two characters, `email` an address, `password` at least six characters. */
  predicate RegisterValid(fullName: Option<string>, email: Option<string>, password: Option<string>) {
    && fullName.Some? && |fullName.value| >= 2
    && email.Some? && IsEmail(email.value)
    && password.Some? && |password.value| >= 6
  }

  lemma IsEmailNonEmpty(s: string)
    requires IsEmail(s)
    ensures |NormalizeEmail(s)| > 0
  {
  }

  /** The `data` of a successful register or login. */
  datatype Account = Account(id: UserId, fullName: string, email: string,
                             profileCreated: Option<bool>, token: Token)

  /** The message of the Mongoose validation error raised when `fullName` trims
      to the empty string. */
  const NameRequired := "User validation failed: fullName: Path `fullName` is required."

  /** What `user.friends` throws when the requester's record is gone. */
  const NullFriends := "Cannot read properties of null (reading 'friends')"

  // ---------------------------------------------------------------------------
  // POST /register

  method Register(db: UserDb, mailer: Mailer, fullName: Option<string>, email: Option<string>,
                  password: Option<string>, qualification: Option<string>, branch: Option<string>,
                  year: Option<string>, subjects: Option<seq<string>>, salt: nat)
    returns (r: Reply<Account>)
    requires db.Valid()
    modifies db, mailer
    ensures db.Valid()
    ensures !RegisterValid(fullName, email, password) ==>
      r == Reply(400, "Validation failed", None)
      && db.users == old(db.users) && mailer.outbox == old(mailer.outbox)
    ensures RegisterValid(fullName, email, password) && EmailTaken(old(db.users), email.value) ==>
      r == Reply(400, "User already exists", None)
      && db.users == old(db.users) && mailer.outbox == old(mailer.outbox)
    ensures RegisterValid(fullName, email, password) && !EmailTaken(old(db.users), email.value)
            && Trim(fullName.value) == "" ==>
      r == Reply(500, NameRequired, None)
      && db.users == old(db.users) && mailer.outbox == old(mailer.outbox)
    ensures r.status == 201 <==>
      RegisterValid(fullName, email, password) && !EmailTaken(old(db.users), email.value)
      && Trim(fullName.value) != ""
    ensures r.status == 201 ==>
      && r.data.Some?
      && var a := r.data.value;
         var u := NewUser(fullName.value, email.value, HashPassword(password.value, salt),
                          qualification, branch, year, subjects);
         && a == Account(a.id, u.fullName, u.email, None, Jwt(a.id))
         && a.id !in old(db.users) && db.users == old(db.users)[a.id := u]
         && mailer.outbox == old(mailer.outbox) + [WelcomeMail(u.email, u.fullName)]
  {
    if !RegisterValid(fullName, email, password) {
      return Reply(400, "Validation failed", None);
    }
    var existing := db.FindByEmail(email.value);
    if existing.Some? {
      return Reply(400, "User already exists", None);
    }
    var u := NewUser(fullName.value, email.value, HashPassword(password.value, salt),
                     qualification, branch, year, subjects);
    IsEmailNonEmpty(email.value);
    if !UserRequiredPresent(u) {
      return Reply(500, NameRequired, None);
    }
    var id := db.Create(u);
    // a failed welcome mail is logged and ignored
    mailer.Send(WelcomeMail(u.email, u.fullName));
    r := Reply(201, "User registered successfully", Some(Account(id, u.fullName, u.email, None, Jwt(id))));
  }

  // ---------------------------------------------------------------------------
  // POST /login

  /** Some stored user has this email (after the `lowercase` cast) and this
      password. */
  predicate CredentialsMatch(users: map<UserId, User>, email: string, password: string) {
    exists k | k in users :: users[k].email == NormalizeEmail(email) && PasswordMatches(password, users[k].passwordHash)
  }

  /** The message bcryptjs rejects `compare` with when the password is not a
      string. */
  const IllegalArguments := "Illegal arguments: undefined, string"

  /** Login succeeds exactly when the credentials match a stored user; an
      unknown email and a wrong password give the same reply. A request
      without a password that names a stored email makes `bcrypt.compare`
      reject, and the catch answers 500. */
  method Login(db: UserDb, email: string, password: Option<string>) returns (r: Reply<Account>)
    requires db.Valid()
    ensures r.status == 200 <==> password.Some? && CredentialsMatch(db.users, email, password.value)
    ensures password.None? && EmailTaken(db.users, email) ==> r == Reply(500, IllegalArguments, None)
    ensures (password.Some? || !EmailTaken(db.users, email)) && r.status != 200 ==>
      r == Reply(400, "Invalid email or password", None)
    ensures r.status == 200 ==>
      && r.data.Some?
      && var a := r.data.value;
         && a.id in db.users && db.users[a.id].email == NormalizeEmail(email)
         && PasswordMatches(password.value, db.users[a.id].passwordHash)
         && a == Account(a.id, db.users[a.id].fullName, db.users[a.id].email,
                         Some(db.users[a.id].profileCreated), Jwt(a.id))
  {
    var found := db.FindByEmail(email);
    if found.None? {
      return Reply(400, "Invalid email or password", None);
    }
    var id := found.value;
    var u := db.users[id];
    if password.None? {
      return Reply(500, IllegalArguments, None);
    }
    if !PasswordMatches(password.value, u.passwordHash) {
      // the only user with this email is `id`, so no other can match
      assert !CredentialsMatch(db.users, email, password.value);
      return Reply(400, "Invalid email or password", None);
    }
    r := Reply(200, "", Some(Account(id, u.fullName, u.email, Some(u.profileCreated), Jwt(id))));
  }

  // ---------------------------------------------------------------------------
  // POST /profile

  /** A different stored user already holds the requested username. */
  predicate UsernameClash(users: map<UserId, User>, me: UserId, username: Option<string>) {
    Truthy(username)
    && exists k | k in users :: k != me && users[k].username == Some(NormalizeUsername(username.value))
  }

  /** The record after a profile update: each of `username`, `college`, `bio`
      and `profileImageUrl` is overwritten only when the request's value is
      truthy (through the schema's setters), and `profileCreated` is set. */
  function MergeProfile(u: User, username: Option<string>, college: Option<string>,
                        bio: Option<string>, profileImageUrl: Option<string>): User
  {
    u.(username := if Truthy(username) then Some(NormalizeUsername(username.value)) else u.username,
       college := if Truthy(college) then Trim(college.value) else u.college,
       bio := if Truthy(bio) then Trim(bio.value) else u.bio,
       profileImageUrl := if Truthy(profileImageUrl) then profileImageUrl else u.profileImageUrl,
       profileCreated := true)
  }

  /** The merge sets `profileCreated`, keeps every field whose new value is
      falsy, and never touches the name, email, password, study details or
      friends. */
  lemma MergeProfileKeeps(u: User, username: Option<string>, college: Option<string>,
                          bio: Option<string>, profileImageUrl: Option<string>)
    ensures var m := MergeProfile(u, username, college, bio, profileImageUrl);
      && m.profileCreated
      && (!Truthy(username) ==> m.username == u.username)
      && (!Truthy(college) ==> m.college == u.college)
      && (!Truthy(bio) ==> m.bio == u.bio)
      && (!Truthy(profileImageUrl) ==> m.profileImageUrl == u.profileImageUrl)
      && (Truthy(profileImageUrl) ==> m.profileImageUrl == profileImageUrl)
      && m.fullName == u.fullName && m.email == u.email && m.passwordHash == u.passwordHash
      && m.qualification == u.qualification && m.branch == u.branch && m.year == u.year
      && m.subjects == u.subjects && m.friends == u.friends
  {
  }

  /** Asking again for the username one already holds is never a clash. */
  lemma KeepOwnUsername(users: map<UserId, User>, me: UserId, name: string)
    requires UsernamesUnique(users) && me in users
    requires users[me].username == Some(NormalizeUsername(name))
    ensures !UsernameClash(users, me, Some(name))
  {
  }

  /** A merge whose username no other user holds keeps both unique indexes. */
  lemma MergeProfileIndexes(users: map<UserId, User>, me: UserId, username: Option<string>,
                            college: Option<string>, bio: Option<string>, profileImageUrl: Option<string>)
    requires me in users && EmailsUnique(users) && UsernamesUnique(users)
    requires !UsernameClash(users, me, username)
    ensures var after := users[me := MergeProfile(users[me], username, college, bio, profileImageUrl)];
      EmailsUnique(after) && UsernamesUnique(after)
  {
    var m := MergeProfile(users[me], username, college, bio, profileImageUrl);
    var after := users[me := m];
    forall a, b | a in after && b in after && a != b && after[a].username.Some?
      ensures after[a].username != after[b].username
    {
      if a == me && Truthy(username) {
        assert after[b] == users[b];
      } else if b == me && Truthy(username) {
        assert after[a] == users[a];
      }
    }
  }

  method UpdateProfile(db: UserDb, me: UserId, username: Option<string>, college: Option<string>,
                       bio: Option<string>, profileImageUrl: Option<string>)
    returns (r: Reply<User>)
    requires db.Valid()
    modifies db
    ensures db.Valid()
    ensures me !in old(db.users) ==>
      r == Reply(404, "User not found", None) && db.users == old(db.users)
    ensures me in old(db.users) && UsernameClash(old(db.users), me, username) ==>
      r == Reply(400, "Username is already taken.", None) && db.users == old(db.users)
    ensures r.status == 200 <==> me in old(db.users) && !UsernameClash(old(db.users), me, username)
    ensures r.status == 200 ==>
      && db.users == old(db.users)[me := MergeProfile(old(db.users)[me], username, college, bio, profileImageUrl)]
      && r == Reply(200, "Profile updated successfully", Some(db.users[me]))
  {
    if me !in db.users {
      return Reply(404, "User not found", None);
    }
    if Truthy(username) {
      var holder := db.FindByUsername(username.value);
      if holder.Some? && holder.value != me {
        assert UsernameClash(db.users, me, username) by {
          assert holder.value in db.users && holder.value != me;
        }
        return Reply(400, "Username is already taken.", None);
      }
      if holder.Some? {
        KeepOwnUsername(db.users, me, username.value);
      }
    }
    assert !UsernameClash(db.users, me, username);
    var u := MergeProfile(db.users[me], username, college, bio, profileImageUrl);
    FriendGraph.SaveKeepsFriends(db.users, me, u);
    MergeProfileIndexes(db.users, me, username, college, bio, profileImageUrl);
    db.Save(me, u);
    r := Reply(200, "Profile updated successfully", Some(u));
  }

  // ---------------------------------------------------------------------------
  // POST /add-friend and POST /remove-friend

  /** The checks both friend handlers make, in order, before touching any
      record; `None` means they all pass. */
  function FriendRequestError(users: map<UserId, User>, me: UserId, friendId: string, verb: string)
    : (e: Option<Reply<seq<UserId>>>)
    ensures e.None? <==> friendId != "" && friendId != me && friendId in users && me in users
  {
    if friendId == "" then Some(Reply(400, "friendId required", None))
    else if friendId == me then Some(Reply(400, "Cannot " + verb + " yourself", None))
    else if friendId !in users then Some(Reply(404, "Friend not found", None))
    else if me !in users then Some(Reply(500, NullFriends, None))
    else None
  }

  /** The add-friend failure cases: a missing id, oneself and an unknown
      target, in that order of precedence. */
  lemma FriendRequestErrors(users: map<UserId, User>, me: UserId, friendId: string, verb: string)
    ensures friendId == "" ==> FriendRequestError(users, me, friendId, verb) == Some(Reply(400, "friendId required", None))
    ensures friendId != "" && friendId == me ==>
      FriendRequestError(users, me, friendId, verb) == Some(Reply(400, "Cannot " + verb + " yourself", None))
    ensures friendId != "" && friendId != me && friendId !in users ==>
      FriendRequestError(users, me, friendId, verb) == Some(Reply(404, "Friend not found", None))
  {
  }

  method AddFriend(db: UserDb, relay: Relay, me: UserId, friendId: string)
    returns (r: Reply<seq<UserId>>)
    requires db.Valid()
    modifies db, relay
    ensures db.Valid()
    ensures FriendRequestError(old(db.users), me, friendId, "add").Some? ==>
      && r == FriendRequestError(old(db.users), me, friendId, "add").value
      && db.users == old(db.users) && relay.emitted == old(relay.emitted)
    ensures FriendRequestError(old(db.users), me, friendId, "add").None? ==>
      && db.users == FriendGraph.Befriend(old(db.users), me, friendId)
      && r == Reply(200, "Friend added!", Some(db.users[me].friends))
      && relay.emitted == old(relay.emitted) + [
           Emission(friendId, "notification", Notice(old(db.users)[me].fullName + " added you as a friend!")),
           Emission(me, "notification", Notice("You are now friends with " + old(db.users)[friendId].fullName + "!"))]
    ensures relay.rooms == old(relay.rooms)
  {
    var e := FriendRequestError(db.users, me, friendId, "add");
    if e.Some? {
      return e.value;
    }
    var user, friend := db.users[me], db.users[friendId];
    ghost var before := db.users;
    FriendGraph.BefriendWellFormed(before, me, friendId);
    db.Save(me, user.(friends := FriendGraph.AddIfAbsent(user.friends, friendId)));
    db.Save(friendId, friend.(friends := FriendGraph.AddIfAbsent(friend.friends, me)));
    assert db.users == FriendGraph.Befriend(before, me, friendId);
    FriendGraph.BefriendLinks(before, me, friendId);
    IndexesKept(before, db.users);
    relay.Emit(friendId, "notification", Notice(user.fullName + " added you as a friend!"));
    relay.Emit(me, "notification", Notice("You are now friends with " + friend.fullName + "!"));
    r := Reply(200, "Friend added!", Some(db.users[me].friends));
  }

  method RemoveFriend(db: UserDb, relay: Relay, me: UserId, friendId: string)
    returns (r: Reply<seq<UserId>>)
    requires db.Valid()
    modifies db, relay
    ensures db.Valid()
    ensures FriendRequestError(old(db.users), me, friendId, "remove").Some? ==>
      && r == FriendRequestError(old(db.users), me, friendId, "remove").value
      && db.users == old(db.users) && relay.emitted == old(relay.emitted)
    ensures FriendRequestError(old(db.users), me, friendId, "remove").None? ==>
      && db.users == FriendGraph.Unfriend(old(db.users), me, friendId)
      && r == Reply(200, "Friend removed.", Some(db.users[me].friends))
      && relay.emitted == old(relay.emitted) + [
           Emission(friendId, "notification", Notice(old(db.users)[me].fullName + " removed you from friends.")),
           Emission(me, "notification", Notice("You removed " + old(db.users)[friendId].fullName + " from friends."))]
    ensures relay.rooms == old(relay.rooms)
  {
    var e := FriendRequestError(db.users, me, friendId, "remove");
    if e.Some? {
      return e.value;
    }
    var user, friend := db.users[me], db.users[friendId];
    ghost var before := db.users;
    FriendGraph.UnfriendWellFormed(before, me, friendId);
    db.Save(me, user.(friends := FriendGraph.Remove(user.friends, friendId)));
    db.Save(friendId, friend.(friends := FriendGraph.Remove(friend.friends, me)));
    assert db.users == FriendGraph.Unfriend(before, me, friendId);
    FriendGraph.UnfriendSeparates(before, me, friendId);
    IndexesKept(before, db.users);
    relay.Emit(friendId, "notification", Notice(user.fullName + " removed you from friends."));
    relay.Emit(me, "notification", Notice("You removed " + friend.fullName + " from friends."));
    r := Reply(200, "Friend removed.", Some(db.users[me].friends));
  }

  // ---------------------------------------------------------------------------
  // Password reset: POST /password/send-otp (and /forgot-password),
  // /password/verify-otp, /password/reset (and /reset-password,
  // /forgot-password/reset)

  /** `Math.floor(100000 + Math.random() * 900000).toString()`, with the
      random draw as a parameter. */
  function OtpCode(draw: nat): string {
    Show(100000 + draw % 900000)
  }

  /** Every code is a six-digit numeral of a number in [100000, 999999]. */
  lemma OtpCodeShape(draw: nat)
    ensures var c := OtpCode(draw);
      && |c| == 6 && (forall i | 0 <= i < 6 :: IsDigit(c[i]))
      && 100000 <= ParseNat(c) <= 999999
  {
    ShowSixDigits(100000 + draw % 900000);
    ParseShow(100000 + draw % 900000);
  }

  /** Send-otp and its legacy copy /forgot-password. `devMode` is the
      `DEV_LOG_OTP` switch and `delivered` the mail provider's answer. */
  method SendOtp(db: UserDb, otps: OtpDb, mailer: Mailer, email: string, draw: nat,
                 devMode: bool, delivered: bool)
    returns (r: Reply<bool>)
    modifies otps, mailer
    ensures !IsEmail(email) ==>
      r == Reply(400, "Validation failed", None)
      && otps.records == old(otps.records) && mailer.outbox == old(mailer.outbox)
    ensures IsEmail(email) && !EmailTaken(db.users, email) ==>
      r == Reply(404, "No user found with this email", None)
      && otps.records == old(otps.records) && mailer.outbox == old(mailer.outbox)
    ensures IsEmail(email) && EmailTaken(db.users, email) ==>
      && otps.records == WithoutEmail(old(otps.records), email) + [OtpRecord(email, OtpCode(draw))]
      && (devMode ==> r == Reply(200, "OTP generated (DEV mode)", Some(true))
                      && mailer.outbox == old(mailer.outbox))
      && (!devMode ==> mailer.outbox == old(mailer.outbox) + [ResetCodeMail(email, OtpCode(draw))]
                       && r == if delivered then Reply(200, "OTP sent to email", None)
                               else Reply(500, "Failed to send OTP email", None))
  {
    if !IsEmail(email) {
      return Reply(400, "Validation failed", None);
    }
    var user := db.FindByEmail(email);
    if user.None? {
      return Reply(404, "No user found with this email", None);
    }
    otps.DeleteMany(email);
    var code := OtpCode(draw);
    otps.Create(email, code);
    if devMode {
      return Reply(200, "OTP generated (DEV mode)", Some(true));
    }
    mailer.Send(ResetCodeMail(email, code));
    if !delivered {
      return Reply(500, "Failed to send OTP email", None);
    }
    r := Reply(200, "OTP sent to email", None);
  }

  /** After a send-otp that found the user, exactly one code is stored for
      the email, and every other email keeps its codes. */
  lemma SendOtpLeavesOneCode(records: seq<OtpRecord>, email: string, draw: nat)
    ensures var after := WithoutEmail(records, email) + [OtpRecord(email, OtpCode(draw))];
      && CodesFor(after, email) == [OtpCode(draw)]
      && forall e | e != email :: CodesFor(after, e) == CodesFor(records, e)
  {
    ReplaceCodes(records, email, OtpCode(draw));
  }

  predicate CodeRequestValid(email: string, otp: string) {
    IsEmail(email) && |otp| >= 4
  }

  /** Verify-otp only looks the pair up; it never removes it. */
  method VerifyOtp(otps: OtpDb, email: string, otp: string) returns (r: Reply<bool>)
    ensures !CodeRequestValid(email, otp) ==> r == Reply(400, "Validation failed", None)
    ensures CodeRequestValid(email, otp) ==>
      r == if OtpRecord(email, otp) in otps.records then Reply(200, "OTP verified", None)
           else Reply(400, "Invalid or expired OTP", None)
  {
    if !CodeRequestValid(email, otp) {
      return Reply(400, "Validation failed", None);
    }
    var found := otps.FindOne(email, otp);
    if !found {
      return Reply(400, "Invalid or expired OTP", None);
    }
    r := Reply(200, "OTP verified", None);
  }

  /** The user map after the password of the account with this email is
      replaced. */
  function WithPassword(users: map<UserId, User>, email: string, hash: PasswordHash): (r: map<UserId, User>)
    ensures r.Keys == users.Keys
  {
    map k | k in users :: if users[k].email == NormalizeEmail(email) then users[k].(passwordHash := hash) else users[k]
  }

  /** The three reset routes (/password/reset, /reset-password and
      /forgot-password/reset) run this same handler. A success consumes every
      code of the email, so replaying the code fails. */
  method ResetPassword(db: UserDb, otps: OtpDb, email: string, otp: string, newPassword: string, salt: nat)
    returns (r: Reply<bool>)
    requires db.Valid()
    modifies db, otps
    ensures db.Valid()
    ensures !(CodeRequestValid(email, otp) && |newPassword| >= 6) ==>
      r == Reply(400, "Validation failed", None)
      && db.users == old(db.users) && otps.records == old(otps.records)
    ensures CodeRequestValid(email, otp) && |newPassword| >= 6 && OtpRecord(email, otp) !in old(otps.records) ==>
      r == Reply(400, "Invalid or expired OTP", None)
      && db.users == old(db.users) && otps.records == old(otps.records)
    ensures CodeRequestValid(email, otp) && |newPassword| >= 6 && OtpRecord(email, otp) in old(otps.records)
            && !EmailTaken(old(db.users), email) ==>
      r == Reply(404, "User not found", None)
      && db.users == old(db.users) && otps.records == old(otps.records)
    ensures r.status == 200 <==>
      CodeRequestValid(email, otp) && |newPassword| >= 6 && OtpRecord(email, otp) in old(otps.records)
      && EmailTaken(old(db.users), email)
    ensures r.status == 200 ==>
      && r == Reply(200, "Password reset successful", None)
      && db.users == WithPassword(old(db.users), email, HashPassword(newPassword, salt))
      && otps.records == WithoutEmail(old(otps.records), email)
      && forall code :: OtpRecord(email, code) !in otps.records
  {
    if !(CodeRequestValid(email, otp) && |newPassword| >= 6) {
      return Reply(400, "Validation failed", None);
    }
    var found := otps.FindOne(email, otp);
    if !found {
      return Reply(400, "Invalid or expired OTP", None);
    }
    var id := db.FindByEmail(email);
    if id.None? {
      return Reply(404, "User not found", None);
    }
    var k := id.value;
    var u := db.users[k].(passwordHash := HashPassword(newPassword, salt));
    ghost var before := db.users;
    FriendGraph.SaveKeepsFriends(before, k, u);
    db.Save(k, u);
    assert db.users == WithPassword(before, email, HashPassword(newPassword, salt));
    otps.DeleteMany(email);
    r := Reply(200, "Password reset successful", None);
  }

  /** A code is single-use: once a reset with it succeeds, the same request
      again finds no stored pair and gets 400, leaving the new password in
      place. */
  method ResetCodeIsSingleUse(db: UserDb, otps: OtpDb, email: string, otp: string,
                              newPassword: string, salt: nat, replaySalt: nat)
    returns (first: Reply<bool>, replay: Reply<bool>)
    requires db.Valid()
    modifies db, otps
    ensures db.Valid()
    ensures first.status == 200 ==>
      && replay == Reply(400, "Invalid or expired OTP", None)
      && db.users == WithPassword(old(db.users), email, HashPassword(newPassword, salt))
  {
    first := ResetPassword(db, otps, email, otp, newPassword, salt);
    replay := ResetPassword(db, otps, email, otp, newPassword, replaySalt);
  }

  /** A reset changes the password of the one account with that email and no
      other record: afterwards the new password logs in and the old one (if
      different) does not. */
  lemma ResetThenLogin(users: map<UserId, User>, email: string, oldPassword: string,
                       newPassword: string, salt: nat)
    requires EmailsUnique(users) && EmailTaken(users, email) && oldPassword != newPassword
    ensures var after := WithPassword(users, email, HashPassword(newPassword, salt));
      && CredentialsMatch(after, email, newPassword)
      && !CredentialsMatch(after, email, oldPassword)
      && forall k | k in users && users[k].email != NormalizeEmail(email) :: after[k] == users[k]
  {
    var after := WithPassword(users, email, HashPassword(newPassword, salt));
    var k :| k in users && users[k].email == NormalizeEmail(email);
    assert after[k].email == NormalizeEmail(email) && PasswordMatches(newPassword, after[k].passwordHash);
  }
}
