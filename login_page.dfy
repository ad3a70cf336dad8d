/** frontend/src/pages/LoginPage.jsx: the sign-in handler (its storage
    writes, the profile flags and the page it moves to) and the three-step
    password-reset dialog. */
module LoginPage {
  import opened Strings
  import opened Browser
  import AppRoutes

  /** The `data` of a login reply, as the page reads it. */
  datatype LoggedUser = LoggedUser(id: string, email: Option<string>, token: string, profileCreated: bool)

  /** What the login request gave: a reply (its `success`, `message` and
      `data`, which may be null), or a thrown error. */
  datatype LoginAnswer = LoginReply(success: bool, message: string, user: Option<LoggedUser>) | LoginThrew

  /** What a reset request gave: success, or a thrown error carrying the
      reply's `message`, if any. */
  datatype ResetAnswer = ResetOk | ResetThrew(message: Option<string>)

  /** The storage writes of a successful login, the same in both areas: the
      email, token and id when the user has an email; then the flag is
      removed, and set to "true" for a user whose profile exists. */
  function AfterLogin(s: Storage, u: LoggedUser): (r: Storage)
    ensures Truthy(u.email) ==> (
      && Item(r, "userEmail") == u.email && Item(r, "token") == Some(u.token) && Item(r, "userId") == Some(u.id))
    ensures !Truthy(u.email) ==> r - {"profileCreated"} == s - {"profileCreated"}
    ensures u.profileCreated ==> Item(r, "profileCreated") == Some("true")
    ensures !u.profileCreated ==> "profileCreated" !in r
  {
    var stored := if Truthy(u.email) then s["userEmail" := u.email.value]["token" := u.token]["userId" := u.id] else s;
    var cleared := stored - {"profileCreated"};
    if u.profileCreated then cleared["profileCreated" := "true"] else cleared
  }

  /** The page a login moves to is the one its guard then shows: with a
      token stored, a user with a profile reaches the protected pages, and
      one without reaches the profile-creation page. */
  lemma LoginLandsOnGuardedPage(session: Storage, local: Storage, u: LoggedUser)
    requires Truthy(u.email) && u.token != ""
    ensures var s, l := AfterLogin(session, u), AfterLogin(local, u);
      && AppRoutes.IsAuthenticated(s, l)
      && (u.profileCreated ==> AppRoutes.ProtectedRoute(s, l) == AppRoutes.Children)
      && (!u.profileCreated ==> AppRoutes.CreateProfileRoute(s, l) == AppRoutes.CreationPage)
  {
    var s, l := AfterLogin(session, u), AfterLogin(local, u);
    assert Item(s, "token") == Some(u.token);
  }

  class Login {
    var session: Storage
    var local: Storage
    var message: string
    var route: Option<string>
    var resetStep: nat
    var resetEmail: string
    var otp: string
    var newPassword: string
    var resetMessage: string
    /** The three-second timer after a successful reset is pending. */
    var resetTimer: bool

    /** The dialog has three steps: closed, email, and code plus password. */
    ghost predicate Valid()
      reads this
    {
      resetStep <= 2
    }

    constructor (session: Storage, local: Storage)
      ensures Valid() && this.session == session && this.local == local
      ensures message == "" && route == None && resetStep == 0 && !resetTimer
      ensures resetEmail == "" && otp == "" && newPassword == "" && resetMessage == ""
    {
      this.session := session;
      this.local := local;
      message := "";
      route := None;
      resetStep := 0;
      resetEmail := "";
      otp := "";
      newPassword := "";
      resetMessage := "";
      resetTimer := false;
    }

    /** `handleSubmit`. A reply without success shows its message; a reply
        whose `data` is null fails on `user.profileCreated` after the flags
        are removed, and lands in the `catch` like a thrown request. */
    method HandleSubmit(answer: LoginAnswer)
      modifies this
      ensures answer.LoginThrew? ==>
        message == "❌ Invalid email or password." && session == old(session) && local == old(local) && route == old(route)
      ensures answer.LoginReply? && !answer.success ==>
        message == "❌ " + answer.message && session == old(session) && local == old(local) && route == old(route)
      ensures answer.LoginReply? && answer.success && answer.user.None? ==> (
        && message == "❌ Invalid email or password." && route == old(route)
        && session == old(session) - {"profileCreated"} && local == old(local) - {"profileCreated"})
      ensures answer.LoginReply? && answer.success && answer.user.Some? ==> (
        && message == "✅ Login successful! Welcome back."
        && session == AfterLogin(old(session), answer.user.value)
        && local == AfterLogin(old(local), answer.user.value)
        && route == Some(if answer.user.value.profileCreated then "/home" else "/create-profile"))
      ensures resetStep == old(resetStep) && resetEmail == old(resetEmail) && resetTimer == old(resetTimer)
      ensures otp == old(otp) && newPassword == old(newPassword) && resetMessage == old(resetMessage)
    {
      message := "Logging in...";
      if answer.LoginThrew? {
        message := "❌ Invalid email or password.";
        return;
      }
      if !answer.success {
        message := "❌ " + answer.message;
        return;
      }
      SignedIn(answer.user);
    }

    /** The part of `handleSubmit` after a reply with success: the storage
        writes, the flags, and the page to move to. */
    method SignedIn(user: Option<LoggedUser>)
      modifies this
      ensures user.None? ==> (
        && message == "❌ Invalid email or password." && route == old(route)
        && session == old(session) - {"profileCreated"} && local == old(local) - {"profileCreated"})
      ensures user.Some? ==> (
        && message == "✅ Login successful! Welcome back."
        && session == AfterLogin(old(session), user.value)
        && local == AfterLogin(old(local), user.value)
        && route == Some(if user.value.profileCreated then "/home" else "/create-profile"))
      ensures resetStep == old(resetStep) && resetEmail == old(resetEmail) && resetTimer == old(resetTimer)
      ensures otp == old(otp) && newPassword == old(newPassword) && resetMessage == old(resetMessage)
    {
      message := "✅ Login successful! Welcome back.";
      if user.Some? && Truthy(user.value.email) {
        var u := user.value;
        session := session["userEmail" := u.email.value];
        local := local["userEmail" := u.email.value];
        session := session["token" := u.token];
        local := local["token" := u.token];
        session := session["userId" := u.id];
        local := local["userId" := u.id];
      }
      session := session - {"profileCreated"};
      local := local - {"profileCreated"};
      if user.None? {
        message := "❌ Invalid email or password.";
        return;
      }
      var u := user.value;
      if !u.profileCreated {
        route := Some("/create-profile");
      } else {
        session := session["profileCreated" := "true"];
        local := local["profileCreated" := "true"];
        route := Some("/home");
      }
    }

    /** "Forgot Password?": the dialog opens on its first step. */
    method ForgotPassword()
      requires Valid()
      modifies this
      ensures Valid() && resetStep == 1
      ensures resetEmail == old(resetEmail) && session == old(session) && local == old(local)
      ensures message == old(message) && route == old(route) && otp == old(otp) && newPassword == old(newPassword)
      ensures resetMessage == old(resetMessage) && resetTimer == old(resetTimer)
    {
      resetStep := 1;
    }

    /** The close button: the dialog closes from any step. */
    method Close()
      requires Valid()
      modifies this
      ensures Valid() && resetStep == 0
      ensures resetEmail == old(resetEmail) && otp == old(otp) && session == old(session) && local == old(local)
      ensures message == old(message) && route == old(route) && newPassword == old(newPassword)
      ensures resetMessage == old(resetMessage) && resetTimer == old(resetTimer)
    {
      resetStep := 0;
    }

    /** `requestPasswordReset`: success moves to the code step; a failure
        stays where it is and shows the reply's message or the fallback. */
    method RequestPasswordReset(answer: ResetAnswer)
      requires Valid()
      modifies this
      ensures Valid()
      ensures answer.ResetOk? ==> resetStep == 2 && resetMessage == "✅ OTP sent to your email."
      ensures answer.ResetThrew? ==> resetStep == old(resetStep)
      ensures answer.ResetThrew? ==>
        resetMessage == "❌ " + (if Truthy(answer.message) then answer.message.value else "Failed to send OTP.")
      ensures resetEmail == old(resetEmail) && session == old(session) && local == old(local)
      ensures message == old(message) && route == old(route) && otp == old(otp) && newPassword == old(newPassword)
      ensures resetTimer == old(resetTimer)
    {
      resetMessage := "Sending OTP...";
      match answer
      case ResetOk =>
        resetMessage := "✅ OTP sent to your email.";
        resetStep := 2;
      case ResetThrew(m) =>
        resetMessage := "❌ " + (if Truthy(m) then m.value else "Failed to send OTP.");
    }

    /** `verifyOTPAndResetPassword`: success shows its message and starts the
        timer; a failure shows the reply's message or the fallback. */
    method VerifyAndReset(answer: ResetAnswer)
      requires Valid()
      modifies this
      ensures Valid() && resetStep == old(resetStep)
      ensures answer.ResetOk? ==> resetTimer && resetMessage == "✅ Password reset successful! You can now login."
      ensures answer.ResetThrew? ==> resetTimer == old(resetTimer)
      ensures answer.ResetThrew? ==>
        resetMessage == "❌ " + (if Truthy(answer.message) then answer.message.value else "Failed to reset password.")
      ensures resetEmail == old(resetEmail) && otp == old(otp) && newPassword == old(newPassword)
      ensures session == old(session) && local == old(local) && message == old(message) && route == old(route)
    {
      resetMessage := "Resetting password...";
      match answer
      case ResetOk =>
        resetMessage := "✅ Password reset successful! You can now login.";
        resetTimer := true;
      case ResetThrew(m) =>
        resetMessage := "❌ " + (if Truthy(m) then m.value else "Failed to reset password.");
    }

    /** The timer fires: the dialog closes and its fields are cleared. */
    method ResetTimerFires()
      requires Valid() && resetTimer
      modifies this
      ensures Valid() && !resetTimer
      ensures resetStep == 0 && resetEmail == "" && otp == "" && newPassword == ""
      ensures session == old(session) && local == old(local) && message == old(message) && route == old(route)
      ensures resetMessage == old(resetMessage)
    {
      resetTimer := false;
      resetStep := 0;
      resetEmail := "";
      otp := "";
      newPassword := "";
    }
  }
}
