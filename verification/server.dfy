/**
 * The connection loop of the WebSocket server (server.py): the rate-limiter choice
 * made from the configuration, the decision taken for each incoming frame, the
 * routing of the handler's reply, and what opening and closing a connection does
 * to the set of connected clients.
 *
 * Authentication and the command handler are inputs here: the outcome of an
 * authentication attempt is the username it establishes (or none), and the
 * handler's reply is abstracted to whether it is falsy and whether it is global.
 */
module ChatServer {
  import opened Wrappers
  import opened WebsocketUtils

  /** The `rate_limiting` section of the configuration; an absent key is `None`. */
  datatype RateLimitConfig = RateLimitConfig(
    enabled: Option<bool>,
    messagesPerMinute: Option<int>,
    burstLimit: Option<int>,
    cooldownSeconds: Option<int>)

  /** The arguments the rate limiter is built with. */
  datatype RateLimiter = RateLimiter(messagesPerMinute: int, burstLimit: int, cooldownSeconds: int)

  const DefaultMessagesPerMinute := 30
  const DefaultBurstLimit := 5
  const DefaultCooldownSeconds := 60

  function IntOr(v: Option<int>, default: int): int {
    if v.Some? then v.value else default
  }

  /** The limiter is built only when `enabled` is present and true; each setting falls back to its default. */
  function RateLimiterFor(cfg: Option<RateLimitConfig>): (r: Option<RateLimiter>)
    ensures r.Some? <==> cfg.Some? && cfg.value.enabled == Some(true)
    ensures r.Some? ==> r.value.messagesPerMinute == IntOr(cfg.value.messagesPerMinute, 30)
    ensures r.Some? ==> r.value.burstLimit == IntOr(cfg.value.burstLimit, 5)
    ensures r.Some? ==> r.value.cooldownSeconds == IntOr(cfg.value.cooldownSeconds, 60)
    ensures r.Some? && cfg.value.messagesPerMinute.None? && cfg.value.burstLimit.None? && cfg.value.cooldownSeconds.None?
      ==> r.value == RateLimiter(30, 5, 60)
  {
    var section := if cfg.Some? then cfg.value else RateLimitConfig(None, None, None, None);
    if section.enabled == Some(true) then
      Some(RateLimiter(
        IntOr(section.messagesPerMinute, DefaultMessagesPerMinute),
        IntOr(section.burstLimit, DefaultBurstLimit),
        IntOr(section.cooldownSeconds, DefaultCooldownSeconds)))
    else None
  }

  /** An incoming text frame after `json.loads`. */
  datatype Inbound =
    | Malformed               // not valid JSON
    | NotAnObject             // valid JSON without `.get` (a list, a number, ...)
    | Object(cmd: Option<string>)

  /** What the loop does with one frame. */
  datatype FrameRoute =
    | Dropped       // the error is logged and the loop goes on
    | Authenticate  // handed to authentication
    | RequireAuth   // answered with `auth_error` "Authentication required"
    | Dispatch      // handed to the command handler

  /** The reply text sent to an unauthenticated session. */
  const AuthRequired := "Authentication required"

  /** The decision for one frame given whether the session is authenticated. */
  function RouteFrame(authenticated: bool, frame: Inbound): (r: FrameRoute)
    ensures r == Dropped <==> !frame.Object?
    ensures r == Authenticate <==> frame == Object(Some("auth")) && !authenticated
    ensures r == RequireAuth <==> frame.Object? && frame != Object(Some("auth")) && !authenticated
    ensures r == Dispatch <==> frame.Object? && authenticated
  {
    match frame
    case Malformed => Dropped
    case NotAnObject => Dropped
    case Object(cmd) =>
      if cmd == Some("auth") && !authenticated then Authenticate
      else if !authenticated then RequireAuth
      else Dispatch
  }

  /** The handler's reply as the loop sees it. `Raised` is an exception, logged and swallowed. */
  datatype Response = Raised | Falsy | Truthy(global: bool)

  /** Where a reply goes. */
  datatype ReplyRoute = Nowhere | Broadcast | Unicast

  function RouteReply(response: Response): (r: ReplyRoute)
    ensures r == Nowhere <==> response.Raised? || response.Falsy?
    ensures r == Broadcast <==> response == Truthy(true)
    ensures r == Unicast <==> response == Truthy(false)
  {
    match response
    case Raised => Nowhere
    case Falsy => Nowhere
    case Truthy(global) => if global then Broadcast else Unicast
  }

  /** The per-connection attributes: the `authenticated` flag and the username. */
  datatype Session = Session(authenticated: bool, username: Option<string>)

  const NewSession := Session(false, None)

  /** One frame with the username its authentication attempt would establish, if any. */
  datatype Event = Event(frame: Inbound, authResult: Option<string>)

  /** The session after one frame: a successful authentication sets it, nothing else changes it. */
  function Step(s: Session, e: Event): (r: Session)
    ensures RouteFrame(s.authenticated, e.frame) == Authenticate && e.authResult.Some? ==> r == Session(true, e.authResult)
    ensures r != s ==> RouteFrame(s.authenticated, e.frame) == Authenticate && e.authResult.Some?
  {
    if RouteFrame(s.authenticated, e.frame) == Authenticate && e.authResult.Some? then
      Session(true, e.authResult)
    else s
  }

  /**
   * The session after a sequence of frames. It keeps the invariant that a username is set
   * exactly when the session is authenticated, and a session still unauthenticated at the
   * end was never changed.
   */
  function Run(s: Session, events: seq<Event>): (r: Session)
    ensures (s.authenticated <==> s.username.Some?) ==> (r.authenticated <==> r.username.Some?)
    ensures !r.authenticated ==> r == s
  {
    if |events| == 0 then s else Step(Run(s, events[..|events| - 1]), events[|events| - 1])
  }

  /** Once authenticated, a session never changes again: no frame re-authenticates it or renames it. */
  lemma {:induction false} AuthenticatedIsFinal(s: Session, events: seq<Event>)
    requires s.authenticated
    ensures Run(s, events) == s
  {
    if |events| > 0 {
      AuthenticatedIsFinal(s, events[..|events| - 1]);
    }
  }

  /** Frame `j` of `events` was an authentication attempt that succeeded. */
  predicate AuthenticatedAt(s: Session, events: seq<Event>, j: nat)
    requires j < |events|
  {
    RouteFrame(Run(s, events[..j]).authenticated, events[j].frame) == Authenticate && events[j].authResult.Some?
  }

  /** A session that starts unauthenticated and ends authenticated went through a successful authentication. */
  lemma {:induction false} AuthenticatedOnlyByAuth(s: Session, events: seq<Event>)
    requires !s.authenticated && Run(s, events).authenticated
    ensures exists j :: 0 <= j < |events| && AuthenticatedAt(s, events, j)
  {
    var n := |events|;
    var init := events[..n - 1];
    if Run(s, init).authenticated {
      AuthenticatedOnlyByAuth(s, init);
      var j :| 0 <= j < |init| && AuthenticatedAt(s, init, j);
      assert init[..j] == events[..j];
      assert AuthenticatedAt(s, events, j);
    } else {
      assert events[..n - 1] == init;
      assert AuthenticatedAt(s, events, n - 1);
    }
  }

  /** No frame reaches the command handler before some earlier frame authenticated the connection. */
  lemma DispatchOnlyAfterAuth(events: seq<Event>, i: nat)
    requires i < |events|
    requires RouteFrame(Run(NewSession, events[..i]).authenticated, events[i].frame) == Dispatch
    ensures exists j :: 0 <= j < i && AuthenticatedAt(NewSession, events, j)
  {
    var prefix := events[..i];
    AuthenticatedOnlyByAuth(NewSession, prefix);
    var j :| 0 <= j < |prefix| && AuthenticatedAt(NewSession, prefix, j);
    assert prefix[..j] == events[..j];
    assert AuthenticatedAt(NewSession, events, j);
  }

  /** The server: the shared set of connected clients and the settings fixed at start. */
  class OriginChatsServer {
    const clients: ClientSet
    const rateLimiter: Option<RateLimiter>
    const heartbeatInterval: nat

    /** `__init__`: no clients yet; the limiter as the configuration asks. */
    constructor (rateConfig: Option<RateLimitConfig>)
      ensures fresh(clients) && clients.members == {}
      ensures rateLimiter == RateLimiterFor(rateConfig)
      ensures heartbeatInterval == 30
    {
      clients := new ClientSet();
      rateLimiter := RateLimiterFor(rateConfig);
      heartbeatInterval := 30;
    }

    /** A new connection joins the client set. */
    method Connect(ws: Connection)
      modifies clients
      ensures clients.members == old(clients.members) + {ws}
    {
      clients.members := clients.members + {ws};
    }

    /**
     * One pass of the frame loop. An authentication attempt may establish the session;
     * the authentication handler is handed the client set, and `authPruned` are the
     * clients its own sends dropped. A dispatched frame's reply is dropped, broadcast
     * (pruning failed clients) or sent back to the sender only. `outcome` is what a send
     * to each client does.
     */
    method OnFrame(ws: Connection, e: Event, authPruned: set<Connection>, response: Response,
                   outcome: Connection -> SendOutcome)
        returns (route: FrameRoute, delivery: ReplyRoute)
      modifies ws, clients
      ensures route == RouteFrame(old(ws.authenticated), e.frame)
      ensures Session(ws.authenticated, ws.username) == Step(old(Session(ws.authenticated, ws.username)), e)
      ensures delivery == (if route == Dispatch then RouteReply(response) else Nowhere)
      ensures route == Authenticate ==> clients.members == old(clients.members) - authPruned
      ensures delivery == Broadcast ==> clients.members == old(clients.members) - Failed(old(clients.members), outcome)
      ensures route != Authenticate && delivery != Broadcast ==> clients.members == old(clients.members)
    {
      route := RouteFrame(ws.authenticated, e.frame);
      delivery := Nowhere;
      if route == Authenticate {
        if e.authResult.Some? {
          ws.authenticated := true;
          ws.username := e.authResult;
        }
        clients.members := clients.members - authPruned;
      } else if route == Dispatch {
        delivery := RouteReply(response);
        if delivery == Broadcast {
          var _, _ := BroadcastToAll(clients, response, outcome);
        }
      }
    }

    /**
     * The `finally` clean-up: the connection leaves the set; if it was still there and
     * authenticated, `user_disconnect` is broadcast to the remaining clients.
     */
    method Disconnect(ws: Connection, outcome: Connection -> SendOutcome) returns (announced: bool)
      modifies clients
      ensures announced <==> ws in old(clients.members) && ws.authenticated
      ensures ws !in clients.members
      ensures announced ==>
        (clients.members == (old(clients.members) - {ws}) - Failed(old(clients.members) - {ws}, outcome))
      ensures !announced ==> clients.members == old(clients.members) - {ws}
    {
      announced := false;
      if ws in clients.members {
        clients.members := clients.members - {ws};
        if ws.authenticated {
          var _, _ := BroadcastToAll(clients, ws.username, outcome);
          announced := true;
        }
      }
    }
  }
}
