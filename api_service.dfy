/** frontend/src/services/apiService.js: the base URL, the token the request
    interceptor attaches, and `removeFriendSmart`, which tries five
    endpoints in turn. */
module ApiService {
  import opened Strings
  import opened Browser
  import AppRoutes

  /** `REACT_APP_API_URL || window.location.origin.replace(':3000', ':5000')`,
      or "" when there is no window. */
  function ApiOrigin(envUrl: Option<string>, windowOrigin: Option<string>): (r: string)
    ensures Truthy(envUrl) ==> r == envUrl.value
    ensures !Truthy(envUrl) && windowOrigin.None? ==> r == ""
  {
    if Truthy(envUrl) then envUrl.value
    else if windowOrigin.Some? then ReplaceFirst(windowOrigin.value, ":3000", ":5000")
    else ""
  }

  /** Without a configured URL, a page served from port 3000 talks to the
      same host on port 5000: the only ":3000" of such an origin is its port. */
  lemma DevOriginMapsToApi(origin: string, k: nat)
    requires k + 5 == |origin| && origin[k..] == ":3000"
    requires forall j | 0 <= j < k :: !StartsWith(origin[j..], ":3000")
    ensures ApiOrigin(None, Some(origin)) == origin[..k] + ":5000"
  {
    ReplaceFirstSuffix(origin, k);
  }

  /** Replacing the first occurrence of ":3000" when it only occurs at k. */
  lemma {:induction false} ReplaceFirstSuffix(s: string, k: nat)
    requires k + 5 == |s| && s[k..] == ":3000"
    requires forall j | 0 <= j < k :: !StartsWith(s[j..], ":3000")
    ensures ReplaceFirst(s, ":3000", ":5000") == s[..k] + ":5000"
    decreases k
  {
    if k == 0 {
      ReplaceFirstAtStart(s, ":3000", ":5000");
    } else {
      assert !StartsWith(s[0..], ":3000");
      assert s[0..] == s;
      forall j | 0 <= j < k - 1 ensures !StartsWith(s[1..][j..], ":3000") {
        assert s[1..][j..] == s[j + 1..];
      }
      assert s[1..][k - 1..] == s[k..];
      ReplaceFirstSuffix(s[1..], k - 1);
      assert s[..k] == [s[0]] + s[1..][..k - 1];
    }
  }

  /** `API_ORIGIN.replace(/\/+$/, '')`. */
  function ApiUrl(origin: string): (r: string)
    ensures StartsWith(origin, r)
    ensures r == [] || r[|r| - 1] != '/'
    ensures forall i | |r| <= i < |origin| :: origin[i] == '/'
  {
    StripTrailing(origin, '/')
  }

  /** Stripping is idempotent, and the axios base URL never holds "//" at the
      joint. */
  lemma ApiUrlSpec(origin: string)
    ensures ApiUrl(ApiUrl(origin)) == ApiUrl(origin)
    ensures var base := ApiUrl(origin) + "/api";
      base[|ApiUrl(origin)|..] == "/api" && (ApiUrl(origin) == [] || base[|ApiUrl(origin)| - 1] != '/')
  {
  }

  /** `localStorage.getItem("token") || sessionStorage.getItem("token")`. */
  function GetToken(local: Storage, session: Storage): (t: Option<string>)
    ensures Truthy(Item(local, "token")) ==> t == Item(local, "token")
    ensures !Truthy(Item(local, "token")) ==> t == Item(session, "token")
  {
    Or(Item(local, "token"), Item(session, "token"))
  }

  /** The guards let a user in exactly when requests will carry a token, but
      the two reads prefer different areas: with both set and different, the
      guards see the session's token and the requests send the local one. */
  lemma TokenReadsAgreeOnPresence(local: Storage, session: Storage)
    ensures AppRoutes.IsAuthenticated(session, local) <==> Truthy(GetToken(local, session))
    ensures Truthy(Item(local, "token")) && Truthy(Item(session, "token")) && local["token"] != session["token"] ==>
      GetToken(local, session) != AppRoutes.Token(session, local)
  {
  }

  /** The request interceptor: `Authorization: Bearer <token>` (section 2.1
      of RFC 6750) when there is a token, the headers untouched otherwise. */
  function Authorize(headers: map<string, string>, local: Storage, session: Storage): (h: map<string, string>)
    ensures Truthy(GetToken(local, session)) ==>
      h == headers["Authorization" := "Bearer " + GetToken(local, session).value]
    ensures !Truthy(GetToken(local, session)) ==> h == headers
  {
    var token := GetToken(local, session);
    if Truthy(token) then headers["Authorization" := "Bearer " + token.value] else headers
  }

  /** A request carries a bearer token exactly when the route guards count
      the visitor as signed in, and the token it carries is the one
      `getToken` reads. */
  lemma AuthorizedIffAuthenticated(headers: map<string, string>, local: Storage, session: Storage)
    requires "Authorization" !in headers
    ensures AppRoutes.IsAuthenticated(session, local) <==> "Authorization" in Authorize(headers, local, session)
    ensures "Authorization" in Authorize(headers, local, session) ==>
      Authorize(headers, local, session)["Authorization"] == "Bearer " + GetToken(local, session).value
  {
    TokenReadsAgreeOnPresence(local, session);
  }

  // ---------------------------------------------------------------------------
  // removeFriendSmart

  /** One request of the fallback list; `sendsId` says whether it carries the
      body `{ friendId }`. */
  datatype Attempt = Attempt(verb: string, url: string, sendsId: bool)

  function Attempts(friendId: string): seq<Attempt> {
    [ Attempt("post", "/users/remove-friend", true),
      Attempt("post", "/users/unfriend", true),
      Attempt("delete", "/users/friends/" + friendId, false),
      Attempt("delete", "/friends/" + friendId, false),
      Attempt("post", "/friends/remove", true) ]
  }

  /** A thrown axios error: the response it carried, if any, and its own
      message. */
  datatype ErrorResponse = ErrorResponse(status: nat, message: Option<string>)
  datatype HttpError = HttpError(response: Option<ErrorResponse>, message: Option<string>)

  /** What `api.request` gave for one attempt: a response (axios by default
      throws on a status outside 2xx, but the loop tests it anyway), or a
      thrown error. */
  datatype Outcome = Responded(status: nat, data: string) | Threw(error: HttpError)

  predicate Succeeded(o: Outcome) {
    o.Responded? && 200 <= o.status < 300
  }

  datatype SmartResult = SmartResult(success: bool, status: Option<nat>, data: Option<string>, message: string)

  /** The last error thrown among the outcomes, if any. */
  function LastError(outcomes: seq<Outcome>): Option<HttpError> {
    if outcomes == [] then None
    else if outcomes[|outcomes| - 1].Threw? then Some(outcomes[|outcomes| - 1].error)
    else LastError(outcomes[..|outcomes| - 1])
  }

  predicate SomeThrew(outcomes: seq<Outcome>) {
    exists i | 0 <= i < |outcomes| :: outcomes[i].Threw?
  }

  /** The outcome at `i` threw `e` and no later outcome threw. */
  predicate LatestThrowAt(outcomes: seq<Outcome>, i: nat, e: HttpError) {
    i < |outcomes| && outcomes[i] == Threw(e) && forall j | i < j < |outcomes| :: !outcomes[j].Threw?
  }

  /** Some outcome threw exactly when there is a last error, and then it is
      thrown by an outcome that no later throw follows. */
  lemma {:induction false} LastErrorSpec(outcomes: seq<Outcome>)
    ensures LastError(outcomes).Some? <==> SomeThrew(outcomes)
    ensures LastError(outcomes).Some? ==> exists i: nat :: LatestThrowAt(outcomes, i, LastError(outcomes).value)
  {
    if outcomes != [] {
      var n := |outcomes| - 1;
      if outcomes[n].Threw? {
        assert LatestThrowAt(outcomes, n, LastError(outcomes).value);
      } else {
        var init := outcomes[..n];
        LastErrorSpec(init);
        assert LastError(outcomes) == LastError(init);
        if LastError(init).Some? {
          var i: nat :| LatestThrowAt(init, i, LastError(init).value);
          assert init[i] == outcomes[i];
          assert forall j | i < j < n :: init[j] == outcomes[j];
          assert LatestThrowAt(outcomes, i, LastError(outcomes).value);
        } else {
          assert forall i | 0 <= i < n :: init[i] == outcomes[i];
        }
      }
    }
  }

  /** `lastError?.response?.data?.message || lastError?.message || 'Unknown error'`. */
  function FailureMessage(e: Option<HttpError>): string {
    if e.Some? && e.value.response.Some? && Truthy(e.value.response.value.message) then e.value.response.value.message.value
    else if e.Some? && Truthy(e.value.message) then e.value.message.value
    else "Unknown error"
  }

  function FailureStatus(e: Option<HttpError>): Option<nat> {
    if e.Some? && e.value.response.Some? then Some(e.value.response.value.status) else None
  }

  function Outcomes(attempts: seq<Attempt>, respond: Attempt -> Outcome): (r: seq<Outcome>)
    ensures |r| == |attempts| && forall i | 0 <= i < |attempts| :: r[i] == respond(attempts[i])
  {
    if attempts == [] then [] else [respond(attempts[0])] + Outcomes(attempts[1..], respond)
  }

  /** The loop of `removeFriendSmart` over its list of attempts. `respond`
      is what the server answers to each request; `issued` lists the requests
      made, in order. The first 2xx response ends the loop; otherwise every
      attempt is made and the last thrown error is reported. */
  method TryInOrder(all: seq<Attempt>, respond: Attempt -> Outcome)
    returns (r: SmartResult, issued: seq<Attempt>)
    ensures |issued| <= |all| && issued == all[..|issued|]
    ensures forall i | 0 <= i < |issued| - 1 :: !Succeeded(respond(issued[i]))
    ensures r.success <==> exists i | 0 <= i < |all| :: Succeeded(respond(all[i]))
    ensures r.success ==> (
      && |issued| > 0 && Succeeded(respond(issued[|issued| - 1]))
      && r == SmartResult(true, Some(respond(issued[|issued| - 1]).status), Some(respond(issued[|issued| - 1]).data), ""))
    ensures !r.success ==> (
      && issued == all
      && r == SmartResult(false, FailureStatus(LastError(Outcomes(all, respond))), None,
                          FailureMessage(LastError(Outcomes(all, respond)))))
  {
    var lastError: Option<HttpError> := None;
    issued := [];
    var i := 0;
    while i < |all|
      invariant 0 <= i <= |all|
      invariant issued == all[..i]
      invariant forall j | 0 <= j < i :: !Succeeded(respond(all[j]))
      invariant lastError == LastError(Outcomes(all[..i], respond))
    {
      var attempt := all[i];
      issued := issued + [attempt];
      var outcome := respond(attempt);
      OutcomesSnoc(all, i, respond);
      if outcome.Threw? {
        lastError := Some(outcome.error);
      } else if 200 <= outcome.status < 300 {
        assert Succeeded(respond(all[i]));
        assert issued == all[..i + 1] && issued[|issued| - 1] == attempt;
        return SmartResult(true, Some(outcome.status), Some(outcome.data), ""), issued;
      }
      i := i + 1;
    }
    assert all[..i] == all;
    assert !exists j | 0 <= j < |all| :: Succeeded(respond(all[j]));
    r := SmartResult(false, FailureStatus(lastError), None, FailureMessage(lastError));
  }

  lemma OutcomesSnoc(all: seq<Attempt>, i: nat, respond: Attempt -> Outcome)
    requires i < |all|
    ensures Outcomes(all[..i + 1], respond) == Outcomes(all[..i], respond) + [respond(all[i])]
    ensures LastError(Outcomes(all[..i + 1], respond)) ==
      if respond(all[i]).Threw? then Some(respond(all[i]).error) else LastError(Outcomes(all[..i], respond))
  {
    var s := Outcomes(all[..i + 1], respond);
    assert s == Outcomes(all[..i], respond) + [respond(all[i])];
    assert s[..|s| - 1] == Outcomes(all[..i], respond);
  }

  /** `removeFriendSmart(friendId)`: the five attempts, tried in order. */
  method RemoveFriendSmart(friendId: string, respond: Attempt -> Outcome)
    returns (r: SmartResult, issued: seq<Attempt>)
    ensures |issued| <= 5 && issued == Attempts(friendId)[..|issued|]
    ensures forall i | 0 <= i < |issued| - 1 :: !Succeeded(respond(issued[i]))
    ensures r.success <==> exists i | 0 <= i < 5 :: Succeeded(respond(Attempts(friendId)[i]))
    ensures r.success ==> |issued| > 0 && Succeeded(respond(issued[|issued| - 1]))
    ensures !r.success ==> (
      && issued == Attempts(friendId)
      && r.status == FailureStatus(LastError(Outcomes(Attempts(friendId), respond)))
      && r.message == FailureMessage(LastError(Outcomes(Attempts(friendId), respond))))
  {
    r, issued := TryInOrder(Attempts(friendId), respond);
  }
}
