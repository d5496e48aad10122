/**
 * The connection-time authentication decision for each auth mode, and the
 * check that gates chat messages.
 */
module AuthHandler {
  import opened Wrappers
  import opened Strings
  import opened Config
  import Auth
  import Transport

  datatype AuthResult = Success | Failed | Guest | HandshakeOnly

  /** `ctx.queryParam(name)`: absent parameters are null. */
  function QueryParam(params: map<string, string>, name: string): Option<string> {
    if name in params then Some(params[name]) else None
  }

  /**
   * The result of `handleConnection` once the LINKED-mode session lookup is
   * known. No mode ever rejects: missing or wrong credentials leave the
   * connection in the handshake state.
   */
  function Decide(mode: AuthMode, params: map<string, string>, webPassword: string, session: Option<Auth.Session>): (r: AuthResult)
    ensures r == Success || r == HandshakeOnly
    ensures mode == NoAuth ==>
              (r == Success <==> "username" in params && exists i :: 0 <= i < |params["username"]| && params["username"][i] > ' ')
    ensures mode == Simple ==> (r == Success <==> "password" in params && params["password"] == webPassword)
    ensures mode == Linked ==> (r == Success <==> session.Some?)
  {
    match mode
    case NoAuth =>
      var user := QueryParam(params, "username");
      if user.Some? && Trim(user.value) != "" then Success else HandshakeOnly
    case Simple =>
      var pass := QueryParam(params, "password");
      if pass.Some? && pass.value == webPassword then Success else HandshakeOnly
    case Linked =>
      if session.Some? then Success else HandshakeOnly
  }

  /** `isAuthorized`: only LINKED mode looks at the connection's `authenticated` attribute. */
  predicate IsAuthorized(mode: AuthMode, authenticated: Option<bool>) {
    match mode
    case NoAuth => true
    case Simple => true
    case Linked => authenticated == Some(true)
  }

  /**
   * With the `authenticated` attribute set from the connection decision, a
   * connection may chat exactly when the mode is not LINKED or its token
   * resolved to a session; outside LINKED mode the attribute is never consulted.
   */
  lemma AuthorizationFollowsDecision(mode: AuthMode, params: map<string, string>, webPassword: string, session: Option<Auth.Session>)
    ensures (IsAuthorized(mode, Some(Decide(mode, params, webPassword, session) == Success))
             <==> (mode != Linked || session.Some?))
    ensures mode != Linked ==> forall a :: IsAuthorized(mode, a)
  {
  }

  /** `handleConnection`: LINKED mode looks the token up (which may evict it) and binds the session's identity. */
  method HandleConnection(cfg: ModConfig, params: map<string, string>, ctx: Transport.Conn,
                          store: Auth.AuthManager, now: int) returns (r: AuthResult)
    modifies ctx`uuid, ctx`username, store`sessions, store`saveRequests
    ensures r == Success || r == HandshakeOnly
    ensures cfg.authMode != Linked ==>
              && r == Decide(cfg.authMode, params, cfg.webPassword, None)
              && unchanged(store) && unchanged(ctx)
    ensures cfg.authMode == Linked ==>
              var l := Auth.LookupSession(old(store.sessions), QueryParam(params, "token"), now);
              && r == Decide(Linked, params, cfg.webPassword, l.found)
              && store.sessions == l.sessions
              && store.saveRequests == old(store.saveRequests) + (if l.evicted then 1 else 0)
              && (l.found.Some? ==> ctx.uuid == Some(l.found.value.uuid) && ctx.username == Some(l.found.value.username))
              && (l.found.None? ==> unchanged(ctx))
  {
    match cfg.authMode
    case NoAuth =>
      var user := QueryParam(params, "username");
      if user.Some? && Trim(user.value) != "" {
        return Success;
      }
      return HandshakeOnly;
    case Simple =>
      var pass := QueryParam(params, "password");
      if pass.Some? && pass.value == cfg.webPassword {
        return Success;
      }
      return HandshakeOnly;
    case Linked =>
      var token := QueryParam(params, "token");
      var session := store.VerifySession(token, now);
      if session.Some? {
        ctx.uuid := Some(session.value.uuid);
        ctx.username := Some(session.value.username);
        return Success;
      }
      return HandshakeOnly;
  }
}
