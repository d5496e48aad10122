/**
 * The WebSocket entry points of the web chat: client address resolution,
 * display-name assignment and registration on connect, the inbound chat
 * pipeline, the one-time-code login commands, and deregistration on close.
 */
module Web {
  import opened Wrappers
  import opened Strings
  import opened Config
  import opened Transport
  import Auth
  import AuthHandler
  import Moderation
  import Bridge

  // ---------------------------------------------------------------------------
  // Client address

  /**
   * The address text of `getRemoteAddress().toString()`: one leading '/' is
   * dropped, then everything from the first ':' on, unless that ':' is the
   * first character.
   */
  function PeerIp(raw: string): (ip: string)
    ensures var s := if raw != [] && raw[0] == '/' then raw[1..] else raw;
            && StartsWith(s, ip)
            && (ip == s || (0 < |ip| < |s| && s[|ip|] == ':' && ':' !in ip))
            && (ip == s ==> s == [] || s[0] == ':' || ':' !in s)
  {
    var s := if raw != [] && raw[0] == '/' then raw[1..] else raw;
    var col := IndexOf(s, ':');
    if col > 0 then s[..col] else s
  }

  /** A socket address rendered as "/host:port" resolves to its host. */
  lemma PeerIpOfSocketAddress(host: string, port: string)
    requires host != [] && ':' !in host
    ensures PeerIp("/" + host + ":" + port) == host
  {
    var raw := "/" + host + ":" + port;
    var s := raw[1..];
    assert s == host + ":" + port;
    assert s[..|host|] == host && s[|host|] == ':';
  }

  /**
   * `header.split(",")[0].trim()`. Java's split drops trailing empty pieces,
   * so a header made only of commas yields no piece at all and indexing it
   * throws: that is `None`.
   */
  function FirstForwarded(header: string): (r: Option<string>)
    ensures r.None? <==> forall i :: 0 <= i < |header| ==> header[i] == ','
    ensures r.Some? ==> ',' !in r.value && r.value == Trim(r.value)
  {
    if forall i :: 0 <= i < |header| ==> header[i] == ',' then None
    else
      var k := IndexOf(header, ',');
      var first := if k >= 0 then header[..k] else header;
      TrimKeepsChars(first);
      Some(Trim(first))
  }

  /**
   * The first entry of a forwarding list is the text before its first comma,
   * trimmed, and so possibly empty, unless the whole header is commas.
   */
  lemma FirstForwardedOfList(client: string, rest: string)
    requires ',' !in client
    requires client != [] || exists i :: 0 <= i < |rest| && rest[i] != ','
    ensures FirstForwarded(client + "," + rest) == Some(Trim(client))
  {
    var h := client + "," + rest;
    assert h[..|client|] == client && h[|client|] == ',';
    if client != [] {
      assert h[0] == client[0] && h[0] != ',';
    } else {
      var i :| 0 <= i < |rest| && rest[i] != ',';
      assert h[|client| + 1 + i] == rest[i];
    }
    assert IndexOf(h, ',') == |client|;
  }

  /** A header holding a single entry resolves to that entry, trimmed. */
  lemma FirstForwardedOfSingle(header: string)
    requires header != [] && ',' !in header
    ensures FirstForwarded(header) == Some(Trim(header))
  {
    assert header[0] != ',';
    assert IndexOf(header, ',') == -1;
  }

  /**
   * The address a connection is judged by: the peer address, "0.0.0.0" when
   * there is none, or, when the proxy is trusted and the header is present
   * and non-empty, the first X-Forwarded-For entry. `None` is the exception
   * an all-comma header raises.
   */
  function ResolveIp(remote: Option<string>, forwarded: Option<string>, trustProxy: bool): (ip: Option<string>)
    ensures !trustProxy || forwarded.None? || forwarded.value == [] ==>
              ip == Some(if remote.Some? then PeerIp(remote.value) else "0.0.0.0")
    ensures trustProxy && forwarded.Some? && forwarded.value != [] ==> ip == FirstForwarded(forwarded.value)
  {
    if trustProxy && forwarded.Some? && forwarded.value != [] then FirstForwarded(forwarded.value)
    else Some(if remote.Some? then PeerIp(remote.value) else "0.0.0.0")
  }

  // ---------------------------------------------------------------------------
  // Display names

  const MaxNameLength: nat := 16

  /** The characters a display name keeps: `[a-zA-Z0-9_]`. */
  predicate IsNameChar(c: char) {
    'a' <= c <= 'z' || 'A' <= c <= 'Z' || '0' <= c <= '9' || c == '_'
  }

  predicate IsNameText(s: string) {
    forall i :: 0 <= i < |s| ==> IsNameChar(s[i])
  }

  /** `replaceAll("[^a-zA-Z0-9_]", "")`: the name characters of `s`, in order. */
  function KeepNameChars(s: string): (r: string)
    ensures |r| <= |s| && IsNameText(r)
    ensures IsNameText(s) ==> r == s
    ensures (forall i :: 0 <= i < |s| ==> !IsNameChar(s[i])) ==> r == []
  {
    if s == [] then []
    else if IsNameChar(s[0]) then [s[0]] + KeepNameChars(s[1..])
    else KeepNameChars(s[1..])
  }

  /** The sanitising step: cut to 16 characters first, then drop every character that is not a name character. */
  function NormalizeName(name: string): string {
    KeepNameChars(if |name| > MaxNameLength then name[..MaxNameLength] else name)
  }

  /** A normalised name is at most 16 name characters, and normalising it again changes nothing. */
  lemma NormalizeNameShape(name: string)
    ensures |NormalizeName(name)| <= MaxNameLength && IsNameText(NormalizeName(name))
    ensures NormalizeName(NormalizeName(name)) == NormalizeName(name)
  {
  }

  /** A short name made of name characters is kept as it is. */
  lemma NormalizeNameKeepsValid(name: string)
    requires |name| <= MaxNameLength && IsNameText(name)
    ensures NormalizeName(name) == name
  {
  }

  /**
   * Because the cut comes first, a name whose first 16 characters are all
   * outside the name alphabet normalises to the empty name, even when name
   * characters follow.
   */
  lemma NormalizeNameMayBeEmpty(name: string)
    requires |name| >= MaxNameLength
    requires forall i :: 0 <= i < MaxNameLength ==> !IsNameChar(name[i])
    ensures NormalizeName(name) == []
  {
    assert forall i :: 0 <= i < MaxNameLength ==> name[..MaxNameLength][i] == name[i];
  }

  /** The random guest name loses its dash: "Guest-123" is registered as "Guest123". */
  lemma GuestNameLosesDash(n: nat)
    requires n < 1000
    ensures NormalizeName("Guest-" + DecimalString(n)) == "Guest" + DecimalString(n)
  {
    var d := DecimalString(n);
    ShortDecimal(n);
    var s := "Guest-" + d;
    assert |s| <= MaxNameLength;
    assert s == "Guest" + ("-" + d);
    KeepNameCharsAppend("Guest", "-" + d);
    assert KeepNameChars("Guest") == "Guest" by {
      assert IsNameText("Guest");
    }
    var tail := "-" + d;
    assert tail[1..] == d && !IsNameChar(tail[0]);
    assert KeepNameChars(tail) == KeepNameChars(d);
    KeepDigits(d);
    assert NormalizeName(s) == KeepNameChars(s);
    assert KeepNameChars(s) == "Guest" + d;
  }

  lemma ShortDecimal(n: nat)
    requires n < 1000
    ensures |DecimalString(n)| <= 3
  {
    if n == 0 {
    } else if n < 10 {
      DecimalLength(n, 0);
    } else if n < 100 {
      DecimalLength(n, 1);
    } else {
      DecimalLength(n, 2);
    }
  }

  lemma KeepDigits(d: string)
    requires forall i :: 0 <= i < |d| ==> IsDigit(d[i])
    ensures KeepNameChars(d) == d
  {
    assert IsNameText(d);
  }

  lemma {:induction false} KeepNameCharsAppend(a: string, b: string)
    ensures KeepNameChars(a + b) == KeepNameChars(a) + KeepNameChars(b)
  {
    if a == [] {
      assert a + b == b;
    } else {
      var ab := a + b;
      assert ab[0] == a[0] && ab[1..] == a[1..] + b;
      KeepNameCharsAppend(a[1..], b);
    }
  }

  /** The name asked for: the LINKED session's name when one was bound, else the `username` parameter. */
  function RequestedName(session: Option<Auth.Session>, params: map<string, string>): Option<string> {
    if session.Some? then Some(session.value.username) else AuthHandler.QueryParam(params, "username")
  }

  /**
   * A missing or blank name becomes "Guest" in LINKED mode and
   * "Guest-<roll>" otherwise, `roll` being `(int) (Math.random() * 1000)`.
   */
  function WithFallback(requested: Option<string>, mode: AuthMode, roll: nat): (name: string)
    requires roll < 1000
    ensures requested.Some? && !IsBlank(requested.value) ==> name == requested.value
    ensures (requested.None? || IsBlank(requested.value)) && mode == Linked ==> name == "Guest"
    ensures (requested.None? || IsBlank(requested.value)) && mode != Linked ==>
              && name == "Guest-" + DecimalString(roll)
              && NormalizeName(name) == "Guest" + DecimalString(roll)
  {
    if requested.None? || Trim(requested.value) == [] then
      if mode == Linked then "Guest"
      else
        GuestNameLosesDash(roll);
        "Guest-" + DecimalString(roll)
    else requested.value
  }

  /**
   * Deduplication against the names already registered: a taken name gets
   * "_" and `roll`, `(int) (Math.random() * 999)`, appended once, with no
   * second check.
   */
  function Deduplicated(name: string, taken: set<string>, roll: nat): (r: string)
    requires roll < 999
    ensures name !in taken ==> r == name
    ensures name in taken ==> r == name + "_" + DecimalString(roll) && r != name
    ensures IsNameText(name) ==> IsNameText(r)
  {
    if name in taken then
      var r := name + "_" + DecimalString(roll);
      assert r[|name|] == '_';
      r
    else name
  }

  /** The suffix is not checked again: it can land on a name that is itself already taken. */
  lemma DeduplicatedMayStillCollide()
    ensures var taken := {"Steve", "Steve_7"};
            Deduplicated("Steve", taken, 7) in taken
  {
    assert DecimalString(7) == "7";
    assert "Steve" + "_" + "7" == "Steve_7";
  }

  /** The whole name assignment of `onConnect`. */
  function AssignName(requested: Option<string>, mode: AuthMode, guestRoll: nat, taken: set<string>, dedupRoll: nat): (name: string)
    requires guestRoll < 1000 && dedupRoll < 999
    ensures IsNameText(name)
    ensures |name| <= MaxNameLength + 4
    ensures NormalizeName(WithFallback(requested, mode, guestRoll)) !in taken ==> |name| <= MaxNameLength
  {
    var base := NormalizeName(WithFallback(requested, mode, guestRoll));
    NormalizeNameShape(WithFallback(requested, mode, guestRoll));
    ShortDecimal(dedupRoll);
    Deduplicated(base, taken, dedupRoll)
  }

  // ---------------------------------------------------------------------------
  // The chat text pipeline

  /** The characters the regular expression `.` does not match: \n, \r, U+0085, U+2028 and U+2029. */
  predicate IsLineTerminator(c: char) {
    c == '\n' || c == '\r' || c == '\U{85}' || c == '\U{2028}' || c == '\U{2029}'
  }

  /** No section sign introduces a formatting code: every '§' is last or followed by a line terminator. */
  predicate NoColorCode(s: string) {
    forall i :: 0 <= i < |s| - 1 && s[i] == '§' ==> IsLineTerminator(s[i + 1])
  }

  /** `replaceAll("§.", "")`: scanning left to right, each '§' and the character after it go, unless that character is a line terminator. */
  function StripColorCodes(s: string): (r: string)
    ensures |r| <= |s|
    ensures NoColorCode(r)
    ensures s != [] && s[0] != '§' ==> r != [] && r[0] == s[0]
    ensures '§' !in s ==> r == s
  {
    if s == [] then []
    else if s[0] == '§' && |s| >= 2 && !IsLineTerminator(s[1]) then StripColorCodes(s[2..])
    else
      var rest := StripColorCodes(s[1..]);
      var r := [s[0]] + rest;
      assert forall i :: 1 <= i < |r| ==> r[i] == rest[i - 1];
      r
  }

  /** Stripping twice strips nothing more. */
  lemma {:induction false} StripColorCodesIdempotent(s: string)
    ensures StripColorCodes(StripColorCodes(s)) == StripColorCodes(s)
  {
    StripKeepsClean(StripColorCodes(s));
  }

  lemma {:induction false} StripKeepsClean(s: string)
    requires NoColorCode(s)
    ensures StripColorCodes(s) == s
    decreases |s|
  {
    if s != [] {
      assert NoColorCode(s[1..]) by {
        forall i | 0 <= i < |s| - 2 && s[1..][i] == '§' ensures IsLineTerminator(s[1..][i + 1]) {
          assert s[i + 1] == '§';
        }
      }
      StripKeepsClean(s[1..]);
    }
  }

  /** The block-list test of `containsProfanity`: some listed word occurs in the message, ignoring case. */
  predicate Profane(message: string, words: seq<string>) {
    exists k | 0 <= k < |words| :: Contains(Lower(message), Lower(words[k]))
  }

  /** `containsProfanity`: the search loop over the block list. */
  method ContainsProfanity(message: string, words: seq<string>) returns (found: bool)
    ensures found <==> Profane(message, words)
  {
    var lower := Lower(message);
    var i := 0;
    while i < |words|
      invariant 0 <= i <= |words|
      invariant forall k :: 0 <= k < i ==> !Contains(lower, Lower(words[k]))
    {
      if Contains(lower, Lower(words[i])) {
        return true;
      }
      i := i + 1;
    }
    return false;
  }

  /** An empty entry in the block list occurs in every message, so it blocks all chat. */
  lemma EmptyWordBlocksEverything(message: string, words: seq<string>)
    requires "" in words
    ensures Profane(message, words)
  {
    var k :| 0 <= k < |words| && words[k] == "";
    assert OccursAt(Lower(message), Lower(words[k]), 0);
  }

  /** Where the chat text pipeline stops once the message has passed the rate limit. */
  datatype Screened =
    | ClampFailed          // a negative maximum length makes `substring` throw
    | Blocked              // a block-list word occurs in the text
    | Blank                // nothing but characters up to U+0020 is left
    | Clean(text: string)  // the text handed to the game

  /** Length clamp, colour-code strip, block list, blank check: the steps of `onMessage` after the rate limit. */
  function Screen(message: string, maxLen: int, filterOn: bool, words: seq<string>): Screened {
    if maxLen < 0 then ClampFailed
    else
      var clamped := if |message| > maxLen then message[..maxLen] else message;
      var text := StripColorCodes(clamped);
      if filterOn && Profane(text, words) then Blocked
      else if Trim(text) == [] then Blank
      else Clean(text)
  }

  /**
   * Only a negative limit makes the clamp throw; relayed text is within the
   * limit, free of colour codes, not on the block list and not blank; only
   * an enabled filter blocks.
   */
  lemma ScreenGuarantees(message: string, maxLen: int, filterOn: bool, words: seq<string>)
    ensures var s := Screen(message, maxLen, filterOn, words);
            && (s == ClampFailed <==> maxLen < 0)
            && (s.Clean? ==>
                  && |s.text| <= maxLen
                  && NoColorCode(s.text)
                  && !(filterOn && Profane(s.text, words))
                  && !IsBlank(s.text))
            && (s == Blocked ==> filterOn)
  {
  }

  /** Plain text within the length limit, with no section sign, not blank and not blocked, is relayed unchanged. */
  lemma ScreenPassesPlainText(message: string, maxLen: int, filterOn: bool, words: seq<string>)
    requires |message| <= maxLen && '§' !in message
    requires !IsBlank(message) && !(filterOn && Profane(message, words))
    ensures Screen(message, maxLen, filterOn, words) == Clean(message)
  {
  }

  /** Java's `long` division, which truncates toward zero. */
  function JavaDiv(a: int, b: int): (q: int)
    requires b > 0
    ensures a >= 0 ==> q == a / b
    ensures a < 0 ==> -(q * b) <= -a < -(q * b) + b
  {
    if a >= 0 then a / b else -((-a) / b)
  }

  /** `Math.max(0, (reset - now) / 1000)`: the whole seconds left, never negative. */
  function WaitSeconds(reset: int, now: int): (secs: nat)
    ensures reset > now ==> secs * 1000 <= reset - now < secs * 1000 + 1000
    ensures reset <= now ==> secs == 0
  {
    var q := JavaDiv(reset - now, 1000);
    if q > 0 then q else 0
  }

  /** A chat denial reports at most 60 seconds, and 0 when less than a second is left. */
  lemma RateLimitWaitBounds(limits: map<string, Moderation.Window>, ip: string, now: int, maxPerMin: int)
    requires !Moderation.Check(limits, ip, now, maxPerMin).allowed
    requires ip in limits ==> limits[ip].end <= now + Moderation.WindowMillis
    ensures var reset := Moderation.ResetTime(Moderation.Check(limits, ip, now, maxPerMin).limits, ip);
            && WaitSeconds(reset, now) <= 60
            && (reset - now < 1000 ==> WaitSeconds(reset, now) == 0)
  {
    Moderation.DeniedResetWithinAMinute(limits, ip, now, maxPerMin);
  }

  function RateLimitNotice(secs: nat): string {
    "Rate limit exceeded. Try again in " + DecimalString(secs) + "s."
  }

  function OtpCooldownNotice(secs: nat): string {
    "Rate limit exceeded. Please wait " + DecimalString(secs) + "s."
  }

  function LoginCodeText(code: string): string {
    "§e[WebChat] Your Login Code: §b§l" + code
  }

  const ProfanityNotice: string := "Message blocked: contains profanity."

  // ---------------------------------------------------------------------------
  // The WebSocket handlers

  /** A parsed JSON command: its `type` and the `username` and `code` fields, when present. */
  datatype JsonCommand = JsonCommand(kind: string, username: Option<string>, code: Option<string>)

  datatype ConnectOutcome =
    | Aborted                                            // resolving the address threw
    | Banned                                             // closed with 1008 before authentication
    | Connected(result: AuthHandler.AuthResult, name: string)

  datatype ChatOutcome =
    | Ignored                    // the keep-alive "PING"
    | Dispatched(command: CommandOutcome)   // handed to `handleJsonMessage`
    | Unauthorized
    | NullIp                     // `checkRateLimit(null)` throws
    | RateLimited(seconds: nat)
    | Screening(result: Screened)

  /** What `handleJsonMessage` did with a one-time-code command. */
  datatype CommandOutcome =
    | NotRun                                        // no game server, or an unknown command type
    | CoolingDown(seconds: nat)                     // the address asked for a code too recently
    | MissingField                                  // a field the command needs is absent (or an empty username)
    | NoSuchPlayer                                  // no online player has that exact name
    | CodeSent(player: Bridge.Player, code: string)
    | CodeRejected(player: Bridge.Player)
    | SignedIn(player: Bridge.Player, token: string)

  /** A frame that reaches the chat path of `onMessage`: neither the keep-alive nor a login command. */
  predicate IsChat(message: string, json: Option<JsonCommand>) {
    message != "PING" && !(StartsWith(message, "{") && json.Some?)
  }

  /** The attributes a handler relies on: a connection with an address also has a name. */
  predicate Attributed(ctx: Conn)
    reads ctx`ip, ctx`username
  {
    ctx.ip.Some? ==> ctx.username.Some?
  }

  class WebServer {
    const cfg: ModConfig
    const bridge: Bridge.ChatBridge
    const moderation: Moderation.ModerationManager
    const auth: Auth.AuthManager

    constructor (cfg: ModConfig, bridge: Bridge.ChatBridge, moderation: Moderation.ModerationManager, auth: Auth.AuthManager)
      ensures this.cfg == cfg && this.bridge == bridge && this.moderation == moderation && this.auth == auth
    {
      this.cfg := cfg;
      this.bridge := bridge;
      this.moderation := moderation;
      this.auth := auth;
    }

    /** The session a LINKED connection's token resolves to at `now`; none in the other modes. */
    function BoundSession(params: map<string, string>, now: int): Option<Auth.Session>
      reads auth
    {
      if cfg.authMode == Linked then Auth.LookupSession(auth.sessions, AuthHandler.QueryParam(params, "token"), now).found else None
    }

    function StatusFrame(authenticated: bool, name: string): Frame {
      Status(authenticated, cfg.authMode, name, cfg.favicon, cfg.defaultSound, cfg.soundPresets)
    }

    /**
     * `onConnect`. `remote` is the peer address text (absent when the
     * transport has none), `forwarded` the X-Forwarded-For header, and the
     * two rolls are the draws of the guest-name and the collision suffix.
     * Only an authenticated connection is registered, gets its address
     * attribute, receives the history and is announced; its status frame
     * sits between the history and the join notice.
     */
    method OnConnect(ctx: Conn, remote: Option<string>, forwarded: Option<string>, params: map<string, string>,
                     now: int, guestRoll: nat, dedupRoll: nat) returns (o: ConnectOutcome)
      requires guestRoll < 1000 && dedupRoll < 999
      requires bridge.Valid() && ctx !in bridge.activeSessions
      requires ctx.username == None && ctx.ip == None   // a new context carries no attributes yet
      modifies ctx, bridge`activeSessions, bridge`sessionUsernames, bridge`game, bridge`history,
               bridge.activeSessions`outbox, auth`sessions, auth`saveRequests
      ensures bridge.Valid() && Attributed(ctx)
      ensures o.Connected? ==>
                var ip := ResolveIp(remote, forwarded, cfg.trustProxy);
                && ip.Some? && LookedUp(ctx, params, now)
                && Settled(ctx, ip.value, o.result == AuthHandler.Success, o.name, now)
      ensures o == Aborted <==> ResolveIp(remote, forwarded, cfg.trustProxy).None?
      ensures o == Banned <==> ResolveIp(remote, forwarded, cfg.trustProxy).Some? && moderation.IsBanned(ResolveIp(remote, forwarded, cfg.trustProxy).value)
      ensures !o.Connected? ==> unchanged(bridge) && unchanged(auth)
      ensures o == Aborted ==> unchanged(ctx)
      ensures o == Banned ==>
                && !ctx.open && ctx.closedWith == Some((1008, "Banned"))
                && ctx.outbox == old(ctx.outbox) && ctx.authenticated == old(ctx.authenticated)
                && ctx.username == old(ctx.username) && ctx.ip == old(ctx.ip) && ctx.uuid == old(ctx.uuid)
      ensures o.Connected? ==> ctx.open == old(ctx.open) && ctx.closedWith == old(ctx.closedWith)
      ensures o.Connected? ==>
                var session := old(BoundSession(params, now));
                && o.result == AuthHandler.Decide(cfg.authMode, params, cfg.webPassword, session)
                && o.name == AssignName(RequestedName(session, params), cfg.authMode, guestRoll,
                                        old(bridge.sessionUsernames.Values), dedupRoll)
                && ctx.authenticated == Some(o.result == AuthHandler.Success)
                && ctx.username == Some(o.name)
                && (AuthHandler.IsAuthorized(cfg.authMode, ctx.authenticated)
                    <==> cfg.authMode != Linked || ctx in bridge.activeSessions)
      ensures o.Connected? ==>
                && (o.result == AuthHandler.Success <==> ctx in bridge.activeSessions)
                && (bridge.sessionUsernames == if o.result == AuthHandler.Success
                                               then old(bridge.sessionUsernames)[ctx := o.name]
                                               else old(bridge.sessionUsernames))
                && (ctx.ip == if o.result == AuthHandler.Success then ResolveIp(remote, forwarded, cfg.trustProxy) else None)
    {
      var ip := ResolveIp(remote, forwarded, cfg.trustProxy);
      if ip.None? {
        return Aborted;
      }
      if moderation.IsBanned(ip.value) {
        ctx.Close(1008, "Banned");
        return Banned;
      }
      var result, name := Authenticate(ctx, params, now, guestRoll, dedupRoll);
      Settle(ctx, ip.value, result == AuthHandler.Success, name, now);
      return Connected(result, name);
    }

    /**
     * The end of `onConnect` between `old` and now, for a connection named
     * `name` at address `ip`: an authenticated one is registered, replayed
     * the history, greeted with its status frame and then announced (the
     * announcement only while the game server is up); a handshake one only
     * receives its status frame.
     */
    twostate predicate Settled(ctx: Conn, ip: string, authenticated: bool, name: string, now: int)
      reads ctx, bridge, bridge.activeSessions
    {
      && (authenticated ==>
            && bridge.activeSessions == old(bridge.activeSessions) + {ctx}
            && bridge.sessionUsernames == old(bridge.sessionUsernames)[ctx := name]
            && ctx.ip == Some(ip))
      && (!authenticated ==>
            && bridge.activeSessions == old(bridge.activeSessions)
            && bridge.sessionUsernames == old(bridge.sessionUsernames)
            && bridge.game == old(bridge.game) && bridge.history == old(bridge.history)
            && ctx.ip == old(ctx.ip)
            && ctx.outbox == old(ctx.outbox) + [StatusFrame(false, name)]
            && (forall c :: c in old(bridge.activeSessions) ==> c.outbox == old(c.outbox)))
      && (authenticated && bridge.serverUp ==>
            && bridge.game == old(bridge.game) + [Bridge.WebNotice("[WEB] " + (name + " joined the chat."))]
            && bridge.history == Bridge.Trimmed(old(bridge.history) + [Bridge.HistoricMessage(now, "System", name + " joined the chat.")], now)
            && ctx.outbox == old(ctx.outbox) + Bridge.HistoryFrames(old(bridge.history)) + [StatusFrame(true, name)]
                             + Bridge.Delivered(ctx, [Message("System", name + " joined the chat."), bridge.Roster()])
            && (forall c :: c in old(bridge.activeSessions) ==>
                  c.outbox == old(c.outbox) + Bridge.Delivered(c, [Message("System", name + " joined the chat."), bridge.Roster()])))
      && (authenticated && !bridge.serverUp ==>
            && bridge.game == old(bridge.game) && bridge.history == old(bridge.history)
            && ctx.outbox == old(ctx.outbox) + Bridge.HistoryFrames(old(bridge.history)) + [StatusFrame(true, name)]
            && (forall c :: c in old(bridge.activeSessions) ==> c.outbox == old(c.outbox)))
    }

    /** The end of `onConnect`: register and announce an authenticated connection, or only greet a handshake one. */
    method Settle(ctx: Conn, ip: string, authenticated: bool, name: string, now: int)
      requires bridge.Valid() && ctx !in bridge.activeSessions
      modifies ctx`ip, ctx`outbox, bridge`activeSessions, bridge`sessionUsernames, bridge`game, bridge`history,
               bridge.activeSessions`outbox
      ensures bridge.Valid()
      ensures Settled(ctx, ip, authenticated, name, now)
    {
      if authenticated {
        Enroll(ctx, name, ip, now);
      } else {
        ctx.Send(StatusFrame(false, name));
      }
    }

    /**
     * The session store and the `uuid` attribute between `old` and now after
     * `onConnect`'s token lookup: in LINKED mode the lookup may evict an
     * expired token (which asks for a save) and a live session binds its
     * player; the other modes touch neither.
     */
    twostate predicate LookedUp(ctx: Conn, params: map<string, string>, now: int)
      reads ctx, auth
    {
      if cfg.authMode == Linked then
        var l := Auth.LookupSession(old(auth.sessions), AuthHandler.QueryParam(params, "token"), now);
        && auth.sessions == l.sessions
        && auth.saveRequests == old(auth.saveRequests) + (if l.evicted then 1 else 0)
        && ctx.uuid == (if l.found.Some? then Some(l.found.value.uuid) else old(ctx.uuid))
      else
        auth.sessions == old(auth.sessions) && auth.saveRequests == old(auth.saveRequests) && ctx.uuid == old(ctx.uuid)
    }

    /** The middle of `onConnect`: the authentication decision, the `authenticated` attribute and the assigned name. */
    method Authenticate(ctx: Conn, params: map<string, string>, now: int, guestRoll: nat, dedupRoll: nat)
      returns (result: AuthHandler.AuthResult, name: string)
      requires guestRoll < 1000 && dedupRoll < 999
      requires ctx.username == None
      modifies ctx`uuid, ctx`username, ctx`authenticated, auth`sessions, auth`saveRequests
      ensures var session := old(BoundSession(params, now));
              && result == AuthHandler.Decide(cfg.authMode, params, cfg.webPassword, session)
              && name == AssignName(RequestedName(session, params), cfg.authMode, guestRoll,
                                    bridge.sessionUsernames.Values, dedupRoll)
              && ctx.authenticated == Some(result == AuthHandler.Success)
              && ctx.username == Some(name)
      ensures LookedUp(ctx, params, now)
    {
      ghost var session := BoundSession(params, now);
      result := AuthHandler.HandleConnection(cfg, params, ctx, auth, now);
      ctx.authenticated := Some(result == AuthHandler.Success);
      var requested := if ctx.username.Some? then ctx.username else AuthHandler.QueryParam(params, "username");
      assert requested == RequestedName(session, params);
      name := Deduplicated(NormalizeName(WithFallback(requested, cfg.authMode, guestRoll)),
                           bridge.sessionUsernames.Values, dedupRoll);
      ctx.username := Some(name);
    }

    /**
     * The authenticated branch of `onConnect`: register the connection under
     * its name, replay the history, send the status frame, then announce the
     * join.
     */
    method Enroll(ctx: Conn, name: string, ip: string, now: int)
      requires bridge.Valid() && ctx !in bridge.activeSessions
      modifies ctx`ip, ctx`outbox, bridge`activeSessions, bridge`sessionUsernames, bridge`game, bridge`history,
               bridge.activeSessions`outbox
      ensures bridge.Valid()
      ensures && bridge.activeSessions == old(bridge.activeSessions) + {ctx}
              && bridge.sessionUsernames == old(bridge.sessionUsernames)[ctx := name]
              && ctx.ip == Some(ip)
      ensures bridge.serverUp ==>
                && bridge.game == old(bridge.game) + [Bridge.WebNotice("[WEB] " + (name + " joined the chat."))]
                && bridge.history == Bridge.Trimmed(old(bridge.history) + [Bridge.HistoricMessage(now, "System", name + " joined the chat.")], now)
                && ctx.outbox == old(ctx.outbox) + Bridge.HistoryFrames(old(bridge.history)) + [StatusFrame(true, name)]
                                 + Bridge.Delivered(ctx, [Message("System", name + " joined the chat."), bridge.Roster()])
                && (forall c :: c in old(bridge.activeSessions) ==>
                      c.outbox == old(c.outbox) + Bridge.Delivered(c, [Message("System", name + " joined the chat."), bridge.Roster()]))
      ensures !bridge.serverUp ==>
                && bridge.game == old(bridge.game) && bridge.history == old(bridge.history)
                && ctx.outbox == old(ctx.outbox) + Bridge.HistoryFrames(old(bridge.history)) + [StatusFrame(true, name)]
                && (forall c :: c in old(bridge.activeSessions) ==> c.outbox == old(c.outbox))
    {
      Register(ctx, name, ip);
      bridge.NotifyWebJoin(name, now);
    }

    /** Registration proper: record the connection and its name, replay the history, send the status frame. */
    method Register(ctx: Conn, name: string, ip: string)
      requires bridge.Valid() && ctx !in bridge.activeSessions
      modifies ctx`ip, ctx`outbox, bridge`activeSessions, bridge`sessionUsernames
      ensures bridge.Valid()
      ensures && bridge.activeSessions == old(bridge.activeSessions) + {ctx}
              && bridge.sessionUsernames == old(bridge.sessionUsernames)[ctx := name]
              && ctx.ip == Some(ip)
              && ctx.outbox == old(ctx.outbox) + Bridge.HistoryFrames(bridge.history) + [StatusFrame(true, name)]
    {
      bridge.activeSessions := bridge.activeSessions + {ctx};
      bridge.sessionUsernames := bridge.sessionUsernames[ctx := name];
      ctx.ip := Some(ip);
      bridge.SendHistoryTo(ctx);
      ctx.Send(StatusFrame(true, name));
    }

    /**
     * `handleOtpRequest` between `old` and now, with outcome `r`: the
     * cooldown is consulted and charged only for a connection with an
     * address; a code goes to the named player only when that player is
     * online. Sessions are not touched.
     */
    twostate predicate OtpRequested(ctx: Conn, cmd: JsonCommand, now: int, otpRoll: int, r: CommandOutcome)
      reads ctx, auth, bridge
    {
      var window := cfg.otpRateLimitSeconds * 1000;
      && (r.CoolingDown? || r == MissingField || r == NoSuchPlayer || r.CodeSent?)
      && auth.sessions == old(auth.sessions) && auth.saveRequests == old(auth.saveRequests)
      && (auth.otpRateLimit == if ctx.ip.Some? then Auth.OtpRequestStep(old(auth.otpRateLimit), ctx.ip.value, now, window)
                               else old(auth.otpRateLimit))
      && (r.CoolingDown? <==> ctx.ip.Some? && !Auth.OtpAllowed(old(auth.otpRateLimit), ctx.ip.value, now, window))
      && (r.CoolingDown? ==>
            && r.seconds == WaitSeconds(Auth.OtpResetTime(old(auth.otpRateLimit), ctx.ip.value, window), now)
            && ctx.outbox == old(ctx.outbox) + [Error(OtpCooldownNotice(r.seconds))])
      && (!r.CoolingDown? ==> (r == MissingField <==> cmd.username.None? || cmd.username.value == []))
      && (r == MissingField ==> ctx.outbox == old(ctx.outbox))
      && (!r.CoolingDown? && r != MissingField ==> (r.CodeSent? <==> bridge.FindPlayer(cmd.username.value).Some?))
      && (r.CodeSent? ==>
            && r.player == bridge.FindPlayer(cmd.username.value).value
            && |r.code| == 6 && ParseDecimal(r.code) == otpRoll
            && auth.otpCache == old(auth.otpCache)[r.player.uuid := r.code]
            && bridge.game == old(bridge.game) + [Bridge.Whisper(r.player.uuid, LoginCodeText(r.code))]
            && ctx.outbox == old(ctx.outbox) + [OtpSent])
      && (!r.CodeSent? ==> auth.otpCache == old(auth.otpCache) && bridge.game == old(bridge.game))
      && (r == NoSuchPlayer ==> ctx.outbox == old(ctx.outbox) + [Error("Player not online")])
    }

    /**
     * `handleOtpRequest`: the per-address cooldown (skipped for a connection
     * without an address attribute), then a code for the named online
     * player, whispered to that player in game. `otpRoll` is the draw of
     * `nextInt(100000, 999999)`.
     */
    method HandleOtpRequest(ctx: Conn, cmd: JsonCommand, now: int, otpRoll: int) returns (r: CommandOutcome)
      requires 100000 <= otpRoll < 999999
      modifies ctx`outbox, auth`otpCache, auth`otpRateLimit, bridge`game
      ensures OtpRequested(ctx, cmd, now, otpRoll, r)
    {
      if ctx.ip.Some? {
        var allowed := auth.CanRequestOtp(ctx.ip.value, now, cfg.otpRateLimitSeconds);
        if !allowed {
          var secs := WaitSeconds(auth.GetOtpResetTime(ctx.ip.value, cfg.otpRateLimitSeconds), now);
          ctx.Send(Error(OtpCooldownNotice(secs)));
          return CoolingDown(secs);
        }
      }
      if cmd.username.None? || cmd.username.value == [] {
        return MissingField;
      }
      var player := bridge.FindPlayer(cmd.username.value);
      if player.Some? {
        var code := auth.GenerateOtp(player.value.uuid, otpRoll);
        bridge.SendToPlayer(player.value.uuid, LoginCodeText(code));
        ctx.Send(OtpSent);
        return CodeSent(player.value, code);
      }
      ctx.Send(Error("Player not online"));
      return NoSuchPlayer;
    }

    /**
     * `handleOtpVerify` between `old` and now, with outcome `r`: a code is
     * checked (and consumed or kept, as the cache decides) only for a named
     * online player, and a session is opened only when it matches. The
     * cooldown and the game are not touched.
     */
    twostate predicate OtpVerified(ctx: Conn, cmd: JsonCommand, now: int, token: string, r: CommandOutcome)
      reads ctx, auth, bridge
    {
      && auth.otpRateLimit == old(auth.otpRateLimit) && bridge.game == old(bridge.game)
      && (cmd.username.None? || cmd.code.None? ==> r == MissingField && unchanged(auth) && ctx.outbox == old(ctx.outbox))
      && (cmd.username.Some? && cmd.code.Some? && bridge.FindPlayer(cmd.username.value).None? ==>
            && r == NoSuchPlayer && unchanged(auth)
            && ctx.outbox == old(ctx.outbox) + [Error("Player not online to verify")])
      && (cmd.username.Some? && cmd.code.Some? && bridge.FindPlayer(cmd.username.value).Some? ==>
            var p := bridge.FindPlayer(cmd.username.value).value;
            var check := Auth.VerifyOtpStep(old(auth.otpCache), p.uuid, cmd.code.value);
            && auth.otpCache == check.codes
            && (check.ok ==>
                  && r == SignedIn(p, token)
                  && auth.sessions == old(auth.sessions)[token := Auth.Session(p.uuid, p.name, now + Auth.SessionLifetimeMillis)]
                  && auth.saveRequests == old(auth.saveRequests) + 1
                  && ctx.outbox == old(ctx.outbox) + [AuthSuccess(token, p.name)])
            && (!check.ok ==>
                  && r == CodeRejected(p)
                  && auth.sessions == old(auth.sessions) && auth.saveRequests == old(auth.saveRequests)
                  && ctx.outbox == old(ctx.outbox) + [Error("Invalid Code")]))
    }

    /**
     * `handleOtpVerify`: a matching code for the named online player opens a
     * thirty-day session under the player's own name. The connection's own
     * attributes are left as they were. `token` is the rendering of
     * `UUID.randomUUID()`.
     */
    method HandleOtpVerify(ctx: Conn, cmd: JsonCommand, now: int, token: string) returns (r: CommandOutcome)
      requires |token| == 36
      modifies ctx`outbox, auth`otpCache, auth`sessions, auth`saveRequests
      ensures OtpVerified(ctx, cmd, now, token, r)
    {
      if cmd.username.None? || cmd.code.None? {
        return MissingField;
      }
      var player := bridge.FindPlayer(cmd.username.value);
      if player.None? {
        ctx.Send(Error("Player not online to verify"));
        return NoSuchPlayer;
      }
      var p := player.value;
      var ok := auth.VerifyOtp(p.uuid, cmd.code.value);
      if ok {
        var issued := auth.CreateSession(p.uuid, p.name, now, token);
        ctx.Send(AuthSuccess(issued, p.name));
        return SignedIn(p, issued);
      }
      ctx.Send(Error("Invalid Code"));
      return CodeRejected(p);
    }

    /**
     * `handleJsonMessage` between `old` and now, with outcome `r`: the two
     * login commands run, each as its handler specifies, only while the game
     * server is up; anything else changes nothing.
     */
    twostate predicate Handled(ctx: Conn, cmd: JsonCommand, now: int, otpRoll: int, token: string, r: CommandOutcome)
      reads ctx, auth, bridge
    {
      && (r == NotRun <==> !bridge.serverUp || (cmd.kind != "request_otp" && cmd.kind != "verify_otp"))
      && (r == NotRun ==> unchanged(auth) && ctx.outbox == old(ctx.outbox) && bridge.game == old(bridge.game))
      && (bridge.serverUp && cmd.kind == "request_otp" ==> OtpRequested(ctx, cmd, now, otpRoll, r))
      && (bridge.serverUp && cmd.kind == "verify_otp" ==> OtpVerified(ctx, cmd, now, token, r))
    }

    /** `handleJsonMessage`: the two login commands run only while the game server is up; anything else is ignored. */
    method HandleJsonMessage(ctx: Conn, cmd: JsonCommand, now: int, otpRoll: int, token: string) returns (r: CommandOutcome)
      requires bridge.Valid()
      requires 100000 <= otpRoll < 999999 && |token| == 36
      modifies ctx`outbox, auth`otpCache, auth`otpRateLimit, auth`sessions, auth`saveRequests, bridge`game
      ensures bridge.Valid()
      ensures Handled(ctx, cmd, now, otpRoll, token, r)
    {
      if !bridge.serverUp {
        return NotRun;
      }
      if cmd.kind == "request_otp" {
        r := HandleOtpRequest(ctx, cmd, now, otpRoll);
      } else if cmd.kind == "verify_otp" {
        r := HandleOtpVerify(ctx, cmd, now, token);
      } else {
        r := NotRun;
      }
    }

    /**
     * The chat path of `onMessage` between `old` and now, with outcome `o`:
     * authorisation, the per-address rate limit, then screening and relaying.
     */
    twostate predicate Chatted(ctx: Conn, now: int, prune: bool, o: ChatOutcome)
      reads ctx, moderation, bridge, bridge.activeSessions
    {
      var authorized := AuthHandler.IsAuthorized(cfg.authMode, ctx.authenticated);
      var maxPerMin := cfg.rateLimitMessagesPerMinute;
      && (o == Unauthorized <==> !authorized)
      && (o == NullIp <==> authorized && ctx.ip.None?)
      && (o.RateLimited? <==> authorized && ctx.ip.Some? && !Moderation.Check(old(moderation.rateLimits), ctx.ip.value, now, maxPerMin).allowed)
      && (o == Unauthorized ==> moderation.rateLimits == old(moderation.rateLimits))
      && (o == NullIp ==>
            moderation.rateLimits == if prune then Moderation.Pruned(old(moderation.rateLimits), now) else old(moderation.rateLimits))
      && (o.RateLimited? || o.Screening? ==>
            && ctx.ip.Some?
            && moderation.rateLimits == Moderation.Check(if prune then Moderation.Pruned(old(moderation.rateLimits), now) else old(moderation.rateLimits),
                                                         ctx.ip.value, now, maxPerMin).limits
            && ctx.ip.value in moderation.rateLimits
            && moderation.rateLimits[ctx.ip.value] == Moderation.Check(old(moderation.rateLimits), ctx.ip.value, now, maxPerMin).limits[ctx.ip.value])
      && (o.RateLimited? ==>
            && o.seconds == WaitSeconds(moderation.GetRateLimitReset(ctx.ip.value), now)
            && ctx.outbox == old(ctx.outbox) + [Message("System", RateLimitNotice(o.seconds))])
      && (o.Screening? && o.result.Clean? ==>
            && ctx.username.Some?
            && bridge.game == old(bridge.game) + (if bridge.serverUp then [Bridge.WebChat(ctx.username.value, o.result.text)] else [])
            && (bridge.history == if bridge.serverUp then Bridge.Trimmed(old(bridge.history) + [Bridge.HistoricMessage(now, ctx.username.value, o.result.text)], now)
                                  else old(bridge.history))
            && (forall c :: c in bridge.activeSessions && old(allocated(c)) ==>
                  c.outbox == old(c.outbox) + Bridge.Delivered(c, if bridge.serverUp then [Message(ctx.username.value, o.result.text)] else []))
            && (ctx !in bridge.activeSessions ==> ctx.outbox == old(ctx.outbox)))
      && (!(o.Screening? && o.result.Clean?) ==>
            && bridge.game == old(bridge.game) && bridge.history == old(bridge.history)
            && (forall c :: c in bridge.activeSessions && c != ctx && old(allocated(c)) ==> c.outbox == old(c.outbox))
            && (!o.RateLimited? ==>
                  ctx.outbox == old(ctx.outbox) + (if o == Screening(Blocked) then [Message("System", ProfanityNotice)] else [])))
    }

    /**
     * `onClose`: the connection leaves both registries; if it had a name
     * there, the remaining connections and the game hear that it left.
     */
    method OnClose(ctx: Conn, now: int)
      requires bridge.Valid()
      modifies bridge`activeSessions, bridge`sessionUsernames, bridge`game, bridge`history, bridge.activeSessions`outbox
      ensures bridge.Valid()
      ensures bridge.activeSessions == old(bridge.activeSessions) - {ctx}
      ensures bridge.sessionUsernames == old(bridge.sessionUsernames) - {ctx}
      ensures ctx.outbox == old(ctx.outbox)
      ensures ctx in old(bridge.sessionUsernames) ==>
                var name := old(bridge.sessionUsernames[ctx]);
                var quit := if bridge.serverUp then [Message("System", name + " left the chat."), bridge.Roster()] else [];
                && bridge.game == old(bridge.game) + (if bridge.serverUp then [Bridge.WebNotice("[WEB] " + (name + " left the chat."))] else [])
                && (bridge.history == if bridge.serverUp then Bridge.Trimmed(old(bridge.history) + [Bridge.HistoricMessage(now, "System", name + " left the chat.")], now)
                                      else old(bridge.history))
                && (forall c :: c in bridge.activeSessions ==> c.outbox == old(c.outbox) + Bridge.Delivered(c, quit))
      ensures ctx !in old(bridge.sessionUsernames) ==>
                && bridge.game == old(bridge.game) && bridge.history == old(bridge.history)
                && (forall c :: c in bridge.activeSessions ==> c.outbox == old(c.outbox))
    {
      bridge.activeSessions := bridge.activeSessions - {ctx};
      var name := if ctx in bridge.sessionUsernames then Some(bridge.sessionUsernames[ctx]) else None;
      bridge.sessionUsernames := bridge.sessionUsernames - {ctx};
      if name.Some? {
        bridge.NotifyWebQuit(name.value, now);
      }
    }

    /**
     * `onMessage`. `json` is what parsing the frame as a JSON object with a
     * `type` field yields (none when it does not parse or has no type);
     * `prune` is the rate limiter's coin flip, `otpRoll` and `token` the
     * draws a login command may use.
     */
    method OnMessage(ctx: Conn, message: string, json: Option<JsonCommand>, now: int, prune: bool,
                     otpRoll: int, token: string) returns (o: ChatOutcome)
      requires bridge.Valid() && Attributed(ctx)
      requires 100000 <= otpRoll < 999999 && |token| == 36
      modifies ctx`outbox, moderation`rateLimits, auth`otpCache, auth`otpRateLimit, auth`sessions, auth`saveRequests,
               bridge`game, bridge`history, bridge.activeSessions`outbox
      ensures bridge.Valid()
      ensures o == Ignored <==> message == "PING"
      ensures o.Dispatched? <==> message != "PING" && StartsWith(message, "{") && json.Some?
      ensures o == Ignored ==> unchanged(moderation) && unchanged(auth) && unchanged(bridge) && ctx.outbox == old(ctx.outbox)
      ensures o.Dispatched? ==>
                && unchanged(moderation) && bridge.history == old(bridge.history)
                && (forall c :: c in bridge.activeSessions && c != ctx ==> c.outbox == old(c.outbox))
                && Handled(ctx, json.value, now, otpRoll, token, o.command)
      ensures IsChat(message, json) ==> unchanged(auth) && Chatted(ctx, now, prune, o)
      ensures o.Screening? ==> o.result == Screen(message, cfg.maxMessageLength, cfg.enableProfanityFilter, cfg.profanityList)
    {
      if message == "PING" {
        return Ignored;
      }
      if StartsWith(message, "{") && json.Some? {
        var r := HandleJsonMessage(ctx, json.value, now, otpRoll, token);
        return Dispatched(r);
      }
      ghost var names, active := bridge.sessionUsernames, bridge.activeSessions;
      o := Chat(ctx, message, now, prune);
      assert bridge.sessionUsernames == names && bridge.activeSessions == active;
    }

    /** The chat path of `onMessage`. */
    method Chat(ctx: Conn, message: string, now: int, prune: bool) returns (o: ChatOutcome)
      requires Attributed(ctx) && |bridge.history| <= Bridge.HistoryLimit
      modifies ctx`outbox, moderation`rateLimits, bridge`game, bridge`history, bridge.activeSessions`outbox
      ensures |bridge.history| <= Bridge.HistoryLimit
      ensures o.Unauthorized? || o.NullIp? || o.RateLimited? || o.Screening?
      ensures Chatted(ctx, now, prune, o)
      ensures o.Screening? ==> o.result == Screen(message, cfg.maxMessageLength, cfg.enableProfanityFilter, cfg.profanityList)
    {
      if !AuthHandler.IsAuthorized(cfg.authMode, ctx.authenticated) {
        return Unauthorized;
      }
      var verdict := moderation.CheckRateLimit(ctx.ip, now, cfg.rateLimitMessagesPerMinute, prune);
      if verdict == Moderation.NullKey {
        return NullIp;
      }
      if verdict == Moderation.Deny {
        var secs := WaitSeconds(moderation.GetRateLimitReset(ctx.ip.value), now);
        ctx.Send(Message("System", RateLimitNotice(secs)));
        return RateLimited(secs);
      }
      var s := ScreenMessage(message);
      Relay(ctx, ctx.username.value, s, now);
      return Screening(s);
    }

    /**
     * The end of `onMessage`: a blocked text earns the sender a notice, a
     * clean one is relayed under the connection's name.
     */
    method Relay(ctx: Conn, name: string, s: Screened, now: int)
      requires |bridge.history| <= Bridge.HistoryLimit
      modifies ctx`outbox, bridge`game, bridge`history, bridge.activeSessions`outbox
      ensures |bridge.history| <= Bridge.HistoryLimit
      ensures s.Clean? ==>
                && bridge.game == old(bridge.game) + (if bridge.serverUp then [Bridge.WebChat(name, s.text)] else [])
                && (bridge.history == if bridge.serverUp then Bridge.Trimmed(old(bridge.history) + [Bridge.HistoricMessage(now, name, s.text)], now)
                                      else old(bridge.history))
                && (forall c :: c in bridge.activeSessions ==>
                      c.outbox == old(c.outbox) + Bridge.Delivered(c, if bridge.serverUp then [Message(name, s.text)] else []))
                && (ctx !in bridge.activeSessions ==> ctx.outbox == old(ctx.outbox))
      ensures !s.Clean? ==>
                && bridge.game == old(bridge.game) && bridge.history == old(bridge.history)
                && (forall c :: c in bridge.activeSessions && c != ctx ==> c.outbox == old(c.outbox))
                && ctx.outbox == old(ctx.outbox) + (if s == Blocked then [Message("System", ProfanityNotice)] else [])
    {
      if s == Blocked {
        ctx.Send(Message("System", ProfanityNotice));
      } else if s.Clean? {
        bridge.SendToGame(name, s.text, now);
      }
    }

    /** The screening steps of `onMessage` in their order, with the block-list scan as a loop. */
    method ScreenMessage(message: string) returns (s: Screened)
      ensures s == Screen(message, cfg.maxMessageLength, cfg.enableProfanityFilter, cfg.profanityList)
    {
      var maxLen := cfg.maxMessageLength;
      if maxLen < 0 {
        return ClampFailed;
      }
      var text := if |message| > maxLen then message[..maxLen] else message;
      text := StripColorCodes(text);
      if cfg.enableProfanityFilter {
        var found := ContainsProfanity(text, cfg.profanityList);
        if found {
          return Blocked;
        }
      }
      if Trim(text) == [] {
        return Blank;
      }
      return Clean(text);
    }
  }
}
