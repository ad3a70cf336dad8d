/** server/server.js: the origin allow-list shared by the HTTP CORS
    middleware and the Socket.IO server, the order of the middleware an HTTP
    request meets, and the socket `register` handler. */
module Server {
  import opened Strings
  import opened Models
  import opened Stores
  import UseFeed

  /** An entry of `allowedOrigins`: a literal origin or a `/\.suffix$/`
      pattern (JavaScript's `$` without the `m` flag anchors at the very end). */
  datatype OriginPattern = Exact(origin: string) | Suffix(suffix: string)

  const AllowedOrigins: seq<OriginPattern> :=
    [Exact("http://localhost:3000"), Suffix(".vercel.app"), Suffix(".onrender.com")]

  predicate Matches(p: OriginPattern, origin: string) {
    match p
    case Exact(o) => o == origin
    case Suffix(s) => EndsWith(origin, s)
  }

  /** `patterns.some(o => ...)`. */
  function AnyMatches(patterns: seq<OriginPattern>, origin: string): (b: bool)
    ensures b <==> exists i | 0 <= i < |patterns| :: Matches(patterns[i], origin)
  {
    if patterns == [] then false
    else Matches(patterns[0], origin) || AnyMatches(patterns[1..], origin)
  }

  /** The `origin` callback's test: no Origin header (or an empty one) is let
      through, like a request from curl; otherwise some entry must match. */
  predicate OriginAllowed(origin: Option<string>) {
    !Truthy(origin) || AnyMatches(AllowedOrigins, origin.value)
  }

  /** The allow-list spelled out: no origin, the local development origin,
      or any host under vercel.app or onrender.com. */
  lemma OriginAllowedSpec(origin: Option<string>)
    ensures OriginAllowed(origin) <==>
      || origin == None || origin == Some("")
      || origin == Some("http://localhost:3000")
      || (origin.Some? && (EndsWith(origin.value, ".vercel.app") || EndsWith(origin.value, ".onrender.com")))
  {
    if origin.Some? && origin.value != "" {
      var o := origin.value;
      assert Matches(AllowedOrigins[0], o) <==> o == "http://localhost:3000";
      assert Matches(AllowedOrigins[1], o) <==> EndsWith(o, ".vercel.app");
      assert Matches(AllowedOrigins[2], o) <==> EndsWith(o, ".onrender.com");
    }
  }

  /** What an `origin` callback reports: allowed, or the error it raises. */
  datatype CorsVerdict = Allow | Deny(error: string)

  function HttpCors(origin: Option<string>): (v: CorsVerdict)
    ensures v.Allow? <==> OriginAllowed(origin)
    ensures v.Deny? ==> v.error == "Not allowed by Express CORS"
  {
    if OriginAllowed(origin) then Allow else Deny("Not allowed by Express CORS")
  }

  function SocketCors(origin: Option<string>): (v: CorsVerdict)
    ensures v.Allow? <==> OriginAllowed(origin)
    ensures v.Deny? ==> v.error == "Not allowed by Socket.io CORS"
  {
    if OriginAllowed(origin) then Allow else Deny("Not allowed by Socket.io CORS")
  }

  /** The HTTP server and the socket server admit the same origins; only the
      error text differs. */
  lemma SameAllowList(origin: Option<string>)
    ensures HttpCors(origin).Allow? <==> SocketCors(origin).Allow?
  {
  }

  /** A response: status and `message`. */
  datatype Response = Response(status: nat, message: string)

  /** The middleware mounted on `/api`: OPTIONS is answered 200 at once;
      anything else goes to the rate limiter (`underLimit` says whether this
      client is still below 100 requests in its window) and then on. */
  function ApiGate(httpMethod: string, underLimit: bool, next: Response): (r: Response)
    ensures httpMethod == "OPTIONS" ==> r == Response(200, "")
    ensures httpMethod != "OPTIONS" && !underLimit ==> r == Response(429, "Too many requests, try later.")
    ensures httpMethod != "OPTIONS" && underLimit ==> r == next
  {
    if httpMethod == "OPTIONS" then Response(200, "")
    else if underLimit then next
    else Response(429, "Too many requests, try later.")
  }

  /** The request pipeline: the CORS middleware first (a refused origin
      reaches the error handler, status 500 with the error's message; the cors
      package answers an OPTIONS request itself with 204), then, under
      `/api`, the gate above, then the routes (`routed`). */
  function Pipeline(origin: Option<string>, httpMethod: string, underApi: bool, underLimit: bool,
                    routed: Response): (r: Response)
    ensures !OriginAllowed(origin) ==> r == Response(500, "Not allowed by Express CORS")
    ensures OriginAllowed(origin) && httpMethod == "OPTIONS" ==> r == Response(204, "")
    ensures OriginAllowed(origin) && httpMethod != "OPTIONS" ==>
      r == (if underApi then ApiGate(httpMethod, underLimit, routed) else routed)
  {
    match HttpCors(origin)
    case Deny(e) => Response(500, e)
    case Allow =>
      if httpMethod == "OPTIONS" then Response(204, "")
      else if underApi then ApiGate(httpMethod, underLimit, routed)
      else routed
  }

  /** Preflight requests never meet the rate limiter; and since the cors
      package answers them first, the gate's own 200 for OPTIONS is never
      sent. */
  lemma PreflightNotLimited(origin: Option<string>, underApi: bool, routed: Response)
    ensures Pipeline(origin, "OPTIONS", underApi, true, routed) == Pipeline(origin, "OPTIONS", underApi, false, routed)
    ensures Pipeline(origin, "OPTIONS", underApi, true, routed).status != 200
  {
  }

  /** `socket.on("register", (userId) => socket.join(userId))`: any socket
      may join any room; nothing checks who it belongs to. */
  method RegisterSocket(relay: Relay, socket: SocketId, userId: string)
    modifies relay
    ensures socket in relay.rooms && userId in relay.rooms[socket]
    ensures forall s | s in old(relay.rooms) && s != socket :: s in relay.rooms && relay.rooms[s] == old(relay.rooms)[s]
    ensures socket in old(relay.rooms) ==> relay.rooms[socket] == old(relay.rooms)[socket] + {userId}
    ensures relay.emitted == old(relay.emitted)
  {
    relay.Join(socket, userId);
  }

  /** The feed hook's `register` emit met by the server's handler: a client
      with a stored user id ends up in exactly that room, and a client
      without one joins nothing. */
  method ClientRegisters(relay: Relay, socket: SocketId, userId: Option<string>)
    modifies relay
    ensures Truthy(userId) ==> socket in relay.rooms && userId.value in relay.rooms[socket]
    ensures Truthy(userId) && socket in old(relay.rooms) ==>
      relay.rooms[socket] == old(relay.rooms)[socket] + {userId.value}
    ensures !Truthy(userId) ==> relay.rooms == old(relay.rooms)
    ensures forall s | s in old(relay.rooms) && s != socket :: s in relay.rooms && relay.rooms[s] == old(relay.rooms)[s]
    ensures relay.emitted == old(relay.emitted)
  {
    var room := UseFeed.RegisterEvent(userId);
    if room.Some? {
      RegisterSocket(relay, socket, room.value);
    }
  }
}
