/** The route guards of frontend/src/App.js: which page each guarded route
    shows for a given state of session and local storage. */
module AppRoutes {
  import opened Strings
  import opened Browser

  /** `sessionStorage.getItem("token") || localStorage.getItem("token")`. */
  function Token(session: Storage, local: Storage): Option<string> {
    Or(Item(session, "token"), Item(local, "token"))
  }

  /** `isAuthenticated`: a non-empty token in either storage area. */
  predicate IsAuthenticated(session: Storage, local: Storage) {
    Truthy(Token(session, local))
  }

  /** `isProfileCreated`: the first truthy `profileCreated` entry, session
      first, is the string "true". */
  predicate IsProfileCreated(session: Storage, local: Storage) {
    Or(Item(session, "profileCreated"), Item(local, "profileCreated")) == Some("true")
  }

  lemma IsAuthenticatedSpec(session: Storage, local: Storage)
    ensures IsAuthenticated(session, local) <==>
      Truthy(Item(session, "token")) || Truthy(Item(local, "token"))
  {
  }

  /** The session flag wins whenever it is set at all: a session "false"
      hides a local "true". */
  lemma IsProfileCreatedSpec(session: Storage, local: Storage)
    ensures IsProfileCreated(session, local) <==>
      if Truthy(Item(session, "profileCreated")) then session["profileCreated"] == "true"
      else Item(local, "profileCreated") == Some("true")
  {
  }

  /** What a guard renders: a redirect, the profile-creation page, or the
      guarded children. */
  datatype View = Redirect(to: string) | CreationPage | Children

  function CreateProfileRoute(session: Storage, local: Storage): (v: View)
    ensures !IsAuthenticated(session, local) ==> v == Redirect("/login")
    ensures IsAuthenticated(session, local) && IsProfileCreated(session, local) ==> v == Redirect("/home")
    ensures v == CreationPage <==> IsAuthenticated(session, local) && !IsProfileCreated(session, local)
  {
    if !Truthy(Token(session, local)) then Redirect("/login")
    else if IsProfileCreated(session, local) then Redirect("/home")
    else CreationPage
  }

  function ProtectedRoute(session: Storage, local: Storage): (v: View)
    ensures !IsAuthenticated(session, local) ==> v == Redirect("/login")
    ensures IsAuthenticated(session, local) && !IsProfileCreated(session, local) ==> v == Redirect("/create-profile")
    ensures v == Children <==> IsAuthenticated(session, local) && IsProfileCreated(session, local)
  {
    if !Truthy(Token(session, local)) then Redirect("/login")
    else if !IsProfileCreated(session, local) then Redirect("/create-profile")
    else Children
  }

  function PublicOnlyRoute(session: Storage, local: Storage): (v: View)
    ensures v == Redirect("/home") <==> IsAuthenticated(session, local) && IsProfileCreated(session, local)
    ensures v != Redirect("/home") ==> v == Children
  {
    if IsAuthenticated(session, local) && IsProfileCreated(session, local) then Redirect("/home") else Children
  }

  /** In no storage state are both the protected pages and the
      profile-creation page shown; and whenever a public page is hidden, the
      protected pages are shown instead. */
  lemma GuardsExclusive(session: Storage, local: Storage)
    ensures !(ProtectedRoute(session, local) == Children && CreateProfileRoute(session, local) == CreationPage)
    ensures PublicOnlyRoute(session, local) == Redirect("/home") <==> ProtectedRoute(session, local) == Children
  {
  }

  /** The guards never redirect a page to itself: /create-profile never
      sends to /create-profile, and a public page's redirect target is a
      protected page that renders. */
  lemma NoRedirectLoop(session: Storage, local: Storage)
    ensures CreateProfileRoute(session, local) != Redirect("/create-profile")
    ensures ProtectedRoute(session, local) == Redirect("/create-profile") ==>
      CreateProfileRoute(session, local) == CreationPage
    ensures CreateProfileRoute(session, local) == Redirect("/home") ==> ProtectedRoute(session, local) == Children
  {
  }
}
