# Web chat server engine — a Dafny model

This project models the core of a Minecraft (Fabric) web-chat mod. Browsers
connect to the mod over a WebSocket, authenticate in one of three modes
(NONE, SIMPLE, LINKED), and chat with the players in game. The model covers:

- **Moderation** (`moderation.dfy`, class `ModerationManager`): the IP ban set and the
  per-IP fixed-window chat rate limiter. The window is 60 s and is opened lazily. A 1%
  prune of ended windows is an input flag.
- **Auth store** (`auth_manager.dfy`, class `AuthManager`):
  - six-digit one-time login codes, single-use and overwritten by a newer code;
  - the per-IP cooldown on requesting codes;
  - bearer-token sessions valid for 30 days, evicted lazily on lookup and in bulk by `cleanup`.
- **Connection decision** (`auth_handler.dfy`): `handleConnection` per auth mode and the
  `isAuthorized` chat gate.
- **Bridge** (`chat_bridge.dfy`, class `ChatBridge`):
  - the history deque, trimmed after each append by age (30 minutes), then by count (50);
  - replay of the history to a new connection;
  - fan-out of frames to open connections;
  - the roster frame;
  - join and leave notices;
  - hand-off of web chat to the game.
- **WebSocket handlers** (`web_server.dfy`, class `WebServer`):
  - `onConnect`: address resolution, ban check, authentication, name normalisation and
    de-duplication, and registration of authenticated connections only;
  - `onMessage`: keep-alive, login-command dispatch, authorisation, rate limit, length
    clamp, colour-code strip, block list, blank check and relay;
  - the one-time-code request and verify commands;
  - `onClose`.
- **Browser client** (`client.dfy`): `escapeHtml`, and the @-mention autocomplete of the
  message box (class `Composer`).

Supporting modules:

- `wrappers.dfy`: `Option`.
- `strings.dfy`: the Java and JavaScript string routines the code relies on (`String.valueOf`,
  `trim`, `toLowerCase`, `contains`, `indexOf`, `lastIndexOf`).
- `config.dfy`: the configuration fields the core reads, as one record.
- `transport.dfy`: a connection context (`Conn`) whose sends append to an outbox log.

**State and inputs.**
- The static maps and sets of the Java classes are fields of the service objects. The
  handlers change them in place.
- Every frame sent is appended to the receiving connection's `outbox`.
- Everything handed to the game (chat lines, join/leave notices, whispers of login codes) is
  appended to `ChatBridge.game`.
- The clock (`now`), every random draw (guest-name roll, collision suffix, login code, session
  token, prune coin) and the parsed JSON command are parameters. Each draw carries its
  range as a precondition.

**Where the code and the written design differ, the model follows the code:**
- The history limits are hard-coded (50 entries, 30 minutes). The configuration fields for
  them are not read.
- The name is cut to 16 characters before invalid characters are stripped. The registered
  name can therefore be empty; the design describes a guest-name fallback instead.
  `Guest-123` is registered as `Guest123`.
- The collision suffix is not checked again and can land on a taken name
  (`DeduplicatedMayStillCollide`).
- The rate-limit notice can report a wait of 0 seconds. The design describes it as positive.
- The `ip` attribute is set only on authenticated connections, with these consequences:
  - the cooldown on login-code requests is skipped for handshake connections;
  - in NONE and SIMPLE mode, chat from a handshake connection passes `isAuthorized` and
    then fails in `checkRateLimit(null)`, which throws. The model reports this as the
    `NullIp` outcome;
  - a successful code verification only sends `auth_success`; it does not upgrade the
    connection.
- `handleConnection` never returns FAILED or GUEST, so the FAILED branch of `onConnect` is
  unreachable.

## Model

| member | source | states |
|---|---|---|
| Moderation.CurrentWindow | src/main/java/net/ven/webchat/web/ModerationManager.java:63-70 | the window a check uses is the stored one while `now <= end`, else a fresh `(0, now + 60000)` |
| Moderation.CheckSemantics | src/main/java/net/ven/webchat/web/ModerationManager.java:63-77 | a check allows iff the window's count is below the limit; allowing adds exactly one, denying keeps the window; other IPs' entries are untouched |
| Moderation.FirstCheckOpensWindow | src/main/java/net/ven/webchat/web/ModerationManager.java:63-75 | the first check of an unknown IP opens a window ending 60 s later and, with a positive limit, allows with count 1 |
| Moderation.WindowRollover | src/main/java/net/ven/webchat/web/ModerationManager.java:66-70 | past the end the count restarts and the end moves to now + 60 s; at the end instant the old window still applies |
| Moderation.ResetTimeIsCheckedWindowEnd | src/main/java/net/ven/webchat/web/ModerationManager.java:80-85 | the reset time is 0 for an unknown IP and otherwise exactly the end of the window the last check used |
| Moderation.DeniedResetWithinAMinute | src/main/java/net/ven/webchat/web/ModerationManager.java:66-84 | after a denial the reported end lies in `[now, now + 60 s]` |
| Moderation.PruneIsInvisible | src/main/java/net/ven/webchat/web/ModerationManager.java:59-70 | the prune keeps only entries not yet ended, and never changes the verdict or the stored window of the check that follows |
| Moderation.ChecksWithinWindow | src/main/java/net/ven/webchat/web/ModerationManager.java:72-77 | within one window the k-th further check is allowed iff stored count + k is below the limit |
| Moderation.CheckKeepsEndBound | src/main/java/net/ven/webchat/web/ModerationManager.java:60-77 | with a clock that never goes back, a check or a prune keeps every stored window ending at most 60 s after the current time |
| Moderation.BurstFromFreshIp | src/main/java/net/ven/webchat/web/ModerationManager.java:63-77 | a burst from a new IP inside one minute is allowed exactly for its first maxPerMin checks; check maxPerMin + 1 is denied |
| Moderation.ModerationManager.constructor | src/main/java/net/ven/webchat/web/ModerationManager.java:23-32 | starts with the loaded ban set and an empty rate table |
| Moderation.ModerationManager.Ban | src/main/java/net/ven/webchat/web/ModerationManager.java:38-41 | the IP becomes banned, no other IP's status changes, one save is requested |
| Moderation.ModerationManager.Unban | src/main/java/net/ven/webchat/web/ModerationManager.java:43-46 | the IP is no longer banned, no other IP's status changes, one save is requested |
| Moderation.ModerationManager.CheckRateLimit | src/main/java/net/ven/webchat/web/ModerationManager.java:54-78 | the verdict and the new table are those of one check on the (optionally pruned) table; the verdict equals the unpruned one; a null IP gives `NullKey` after the prune |
| Strings.DecimalString | src/main/java/net/ven/webchat/auth/AuthManager.java:40 | digits only, no leading zero except for 0 itself |
| Strings.DecimalRoundTrip | src/main/java/net/ven/webchat/auth/AuthManager.java:39-40 | the decimal rendering reads back as the number |
| Strings.DecimalLength | src/main/java/net/ven/webchat/auth/AuthManager.java:39-40 | a number with k + 1 significant digits renders as k + 1 characters |
| Strings.Trim | src/main/java/net/ven/webchat/web/WebServer.java:106 | `String.trim`: result is empty iff every character is at most U+0020, and otherwise starts and ends above U+0020 |
| Strings.TrimKeepsChars | src/main/java/net/ven/webchat/web/WebServer.java:77 | trimming only removes characters and is idempotent |
| Strings.IndexOf | src/main/java/net/ven/webchat/web/WebServer.java:69 | the first position of the character, or -1 when absent |
| Strings.LastIndexOf | src/main/resources/webchat-client/app.js:529 | the last position of the character, or -1 when absent |
| Auth.OtpCodeFormat | src/main/java/net/ven/webchat/auth/AuthManager.java:39-40 | every draw in [100000, 999999) renders as six digits that read back as the draw |
| Auth.OtpSingleUse | src/main/java/net/ven/webchat/auth/AuthManager.java:41-52 | an issued code verifies once and then fails; a wrong code fails and leaves the code usable; other players' codes are untouched |
| Auth.NewCodeReplacesOld | src/main/java/net/ven/webchat/auth/AuthManager.java:37-52 | after a second code is issued the first no longer verifies and the second does |
| Auth.OtpResetTimeMatchesDecision | src/main/java/net/ven/webchat/auth/AuthManager.java:54-70 | a request is allowed iff now has reached the reported reset time; a denial changes nothing |
| Auth.FirstAllowedAfterCooldown | src/main/java/net/ven/webchat/auth/AuthManager.java:54-64 | the first allowed request of a run comes at least the cooldown after the stored time |
| Auth.AllowedOtpRequestsSpaced | src/main/java/net/ven/webchat/auth/AuthManager.java:54-64 | two consecutive allowed requests from one IP are at least `otpRateLimitSeconds * 1000` ms apart |
| Auth.LookupSemantics | src/main/java/net/ven/webchat/auth/AuthManager.java:83-96 | a lookup finds a session iff the token is non-empty, known and not expired; a hit changes nothing; exactly an expired known token is evicted |
| Auth.SessionValidForThirtyDays | src/main/java/net/ven/webchat/auth/AuthManager.java:72-96 | a created session is returned unchanged by every lookup up to its expiry, 30 days after creation |
| Auth.ExpiredSessionEvictedOnce | src/main/java/net/ven/webchat/auth/AuthManager.java:83-96 | the first lookup after expiry evicts the entry; later lookups find nothing and evict nothing |
| Auth.SweepAgreesWithLookup | src/main/java/net/ven/webchat/auth/AuthManager.java:128-134 | the bulk session sweep never changes what a later lookup returns |
| Auth.OtpSweepInvisible | src/main/java/net/ven/webchat/auth/AuthManager.java:136-138 | the cooldown sweep never changes a later request's verdict |
| Auth.AuthManager.constructor | src/main/java/net/ven/webchat/auth/AuthManager.java:98-115 | starts with the loaded sessions and empty code and cooldown tables |
| Auth.AuthManager.GenerateOtp | src/main/java/net/ven/webchat/auth/AuthManager.java:37-43 | returns a six-digit code that reads back as the draw, stored for the player over any earlier one |
| Auth.AuthManager.VerifyOtp | src/main/java/net/ven/webchat/auth/AuthManager.java:45-52 | succeeds iff the stored code equals the input; success removes it, failure changes nothing |
| Auth.AuthManager.CanRequestOtp | src/main/java/net/ven/webchat/auth/AuthManager.java:54-64 | denies iff `now - last < limit` (last defaults to 0); allowing stamps `now`, denying changes nothing |
| Auth.AuthManager.CreateSession | src/main/java/net/ven/webchat/auth/AuthManager.java:72-81 | stores `(uuid, username, now + 2592000000)` under the token, returns the token, requests one save |
| Auth.AuthManager.VerifySession | src/main/java/net/ven/webchat/auth/AuthManager.java:83-96 | result and new table are those of the lookup; a save is requested exactly when an expired entry is evicted |
| Auth.AuthManager.Cleanup | src/main/java/net/ven/webchat/auth/AuthManager.java:128-149 | removes exactly the expired sessions and the cooldowns older than the limit; the code table is untouched; a save is requested iff a session was removed |
| AuthHandler.Decide | src/main/java/net/ven/webchat/auth/AuthHandler.java:16-55 | never FAILED or GUEST; NONE succeeds iff a non-blank username is given, SIMPLE iff the password matches exactly, LINKED iff the token resolves to a session |
| AuthHandler.AuthorizationFollowsDecision | src/main/java/net/ven/webchat/auth/AuthHandler.java:58-79 | with the attribute set from the decision, chat is authorised iff the mode is not LINKED or the token resolved; NONE and SIMPLE authorise any connection |
| AuthHandler.HandleConnection | src/main/java/net/ven/webchat/auth/AuthHandler.java:16-55 | returns the decision; LINKED performs the session lookup (with its eviction) and binds the session's uuid and name; the other modes change nothing |
| Bridge.DropExpired | src/main/java/net/ven/webchat/bridge/ChatBridge.java:155-158 | the age trim leaves a suffix of the history |
| Bridge.DropExpiredStopsAtFresh | src/main/java/net/ven/webchat/bridge/ChatBridge.java:156-158 | after the age trim the head is not older than the cutoff |
| Bridge.DropExpiredDropsOnlyStale | src/main/java/net/ven/webchat/bridge/ChatBridge.java:156-158 | every entry the age trim drops is older than the cutoff |
| Bridge.DropExpiredKeepsFreshLast | src/main/java/net/ven/webchat/bridge/ChatBridge.java:149-158 | a recent last entry keeps the age trim from emptying the history |
| Bridge.DropExcess | src/main/java/net/ven/webchat/bridge/ChatBridge.java:161-163 | the count trim keeps the newest `min(size, 50)` entries in order |
| Bridge.Trimmed | src/main/java/net/ven/webchat/bridge/ChatBridge.java:149-164 | the trimmed history never holds more than 50 entries |
| Bridge.AppendKeepsNewestWithinBound | src/main/java/net/ven/webchat/bridge/ChatBridge.java:149-164 | after an append the history holds 1 to 50 entries and ends with the new one |
| Bridge.AppendKeepsSuffix | src/main/java/net/ven/webchat/bridge/ChatBridge.java:149-164 | the survivors are a suffix of old history plus the new entry, in order |
| Bridge.TrimmedChronological | src/main/java/net/ven/webchat/bridge/ChatBridge.java:153-163 | trimming keeps a time-ordered history in time order |
| Bridge.TrimmedFresh | src/main/java/net/ven/webchat/bridge/ChatBridge.java:153-163 | trimming a time-ordered history leaves nothing older than 30 minutes |
| Bridge.AppendDropsStaleEntries | src/main/java/net/ven/webchat/bridge/ChatBridge.java:149-164 | with appends in time order, no surviving entry is older than now − 1,800,000 ms and the history stays ordered |
| Bridge.HistoryFrames | src/main/java/net/ven/webchat/bridge/ChatBridge.java:98-104 | one `message` frame per entry, same user and text, oldest first |
| Bridge.PlayerNames | src/main/java/net/ven/webchat/bridge/ChatBridge.java:76-78 | the players' names in the game's order |
| Bridge.ChatBridge.constructor | src/main/java/net/ven/webchat/bridge/ChatBridge.java:13-16 | empty registries, history and game log |
| Bridge.ChatBridge.FindPlayer | src/main/java/net/ven/webchat/web/WebServer.java:296 | a found player is online under exactly that name; none means no online player has it |
| Bridge.ChatBridge.AddToHistory | src/main/java/net/ven/webchat/bridge/ChatBridge.java:149-164 | the new history is the trim of old history plus the new entry, at most 50 long |
| Bridge.ChatBridge.DropExpiredEntries | src/main/java/net/ven/webchat/bridge/ChatBridge.java:155-158 | the first loop computes the age trim |
| Bridge.ChatBridge.DropExcessEntries | src/main/java/net/ven/webchat/bridge/ChatBridge.java:161-163 | the second loop computes the count trim |
| Bridge.ChatBridge.SendHistoryTo | src/main/java/net/ven/webchat/bridge/ChatBridge.java:97-105 | appends the history's frames to the connection in order; the history is only read |
| Bridge.ChatBridge.Deliver | src/main/java/net/ven/webchat/bridge/ChatBridge.java:63-67 | every open active connection gets the frame once, closed ones get nothing |
| Bridge.ChatBridge.BroadcastToWeb | src/main/java/net/ven/webchat/bridge/ChatBridge.java:52-68 | records the message in history, then sends the identical frame to every open active connection and to no closed one |
| Bridge.ChatBridge.BroadcastUserList | src/main/java/net/ven/webchat/bridge/ChatBridge.java:70-95 | with the server up, every open connection gets the roster built from the online players and the registered names; otherwise nothing |
| Bridge.ChatBridge.Notify | src/main/java/net/ven/webchat/bridge/ChatBridge.java:108-130 | with the server up: a "[WEB] " notice to the game, a "System" message in history and on every open connection, then the roster; otherwise nothing |
| Bridge.ChatBridge.Announce | src/main/java/net/ven/webchat/bridge/ChatBridge.java:115-116 | each open connection gets the "System" message followed by the roster |
| Bridge.ChatBridge.NotifyWebJoin | src/main/java/net/ven/webchat/bridge/ChatBridge.java:108-118 | the notice reads "<name> joined the chat."; nothing happens without the server |
| Bridge.ChatBridge.NotifyWebQuit | src/main/java/net/ven/webchat/bridge/ChatBridge.java:120-130 | the notice reads "<name> left the chat."; nothing happens without the server |
| Bridge.ChatBridge.SendToPlayer | src/main/java/net/ven/webchat/web/WebServer.java:300-301 | the game log gains one whisper to that player |
| Bridge.ChatBridge.SendToGame | src/main/java/net/ven/webchat/bridge/ChatBridge.java:29-49 | with the server up, the game shows (user, message) and the same pair is echoed to the web through the history; otherwise nothing |
| Web.PeerIp | src/main/java/net/ven/webchat/web/WebServer.java:65-75 | after one leading '/' is dropped, the address is the text before a ':' at index > 0, else the whole text |
| Web.PeerIpOfSocketAddress | src/main/java/net/ven/webchat/web/WebServer.java:65-72 | "/host:port" resolves to host |
| Web.FirstForwarded | src/main/java/net/ven/webchat/web/WebServer.java:77 | fails iff the header is only commas; otherwise a trimmed entry without commas |
| Web.FirstForwardedOfList | src/main/java/net/ven/webchat/web/WebServer.java:76-77 | the first comma-separated entry, trimmed (empty when that entry is blank), unless the whole header is commas |
| Web.FirstForwardedOfSingle | src/main/java/net/ven/webchat/web/WebServer.java:76-77 | a header with a single entry resolves to that entry, trimmed |
| Web.ResolveIp | src/main/java/net/ven/webchat/web/WebServer.java:63-77 | the forwarded entry when the proxy is trusted and the header is non-empty, else the peer address or "0.0.0.0" |
| Web.KeepNameChars | src/main/java/net/ven/webchat/web/WebServer.java:117 | keeps only `[a-zA-Z0-9_]`, leaves valid text unchanged, removes everything from text with no valid character |
| Web.NormalizeNameShape | src/main/java/net/ven/webchat/web/WebServer.java:115-117 | a normalised name has at most 16 valid characters, and normalising is idempotent |
| Web.NormalizeNameKeepsValid | src/main/java/net/ven/webchat/web/WebServer.java:115-117 | a valid name of at most 16 characters is kept |
| Web.NormalizeNameMayBeEmpty | src/main/java/net/ven/webchat/web/WebServer.java:115-117 | 16 leading invalid characters give the empty name, whatever follows |
| Web.GuestNameLosesDash | src/main/java/net/ven/webchat/web/WebServer.java:111-117 | "Guest-n" normalises to "Guestn" |
| Web.WithFallback | src/main/java/net/ven/webchat/web/WebServer.java:101-113 | a missing or blank name becomes "Guest" in LINKED mode and exactly "Guest-" followed by the roll's digits otherwise (which normalisation turns into "Guest" and the digits); any other name is kept |
| Web.Deduplicated | src/main/java/net/ven/webchat/web/WebServer.java:120-125 | a free name is kept; a taken one gets "_" and the roll appended, once |
| Web.DeduplicatedMayStillCollide | src/main/java/net/ven/webchat/web/WebServer.java:120-125 | the suffixed name can itself be taken |
| Web.AssignName | src/main/java/net/ven/webchat/web/WebServer.java:100-125 | the assigned name is valid text of at most 20 characters, at most 16 when it did not collide |
| Web.StripColorCodes | src/main/java/net/ven/webchat/web/WebServer.java:209 | the result has no '§' followed by a character other than a line terminator, and text without '§' is kept |
| Web.StripColorCodesIdempotent | src/main/java/net/ven/webchat/web/WebServer.java:209 | stripping twice strips nothing more |
| Web.StripKeepsClean | src/main/java/net/ven/webchat/web/WebServer.java:209 | text already free of codes is unchanged |
| Web.ContainsProfanity | src/main/java/net/ven/webchat/web/WebServer.java:345-352 | true iff some listed word occurs in the message, ignoring case |
| Web.EmptyWordBlocksEverything | src/main/java/net/ven/webchat/web/WebServer.java:345-352 | an empty entry in the list blocks every message |
| Web.ScreenGuarantees | src/main/java/net/ven/webchat/web/WebServer.java:203-222 | only a negative limit makes the clamp throw; relayed text is within the limit, free of colour codes, not blocked and not blank; only an enabled filter blocks |
| Web.ScreenPassesPlainText | src/main/java/net/ven/webchat/web/WebServer.java:203-222 | plain text within the limit, not blank and not blocked, is relayed unchanged |
| Web.JavaDiv | src/main/java/net/ven/webchat/web/WebServer.java:195 | `long` division truncating toward zero |
| Web.WaitSeconds | src/main/java/net/ven/webchat/web/WebServer.java:195 | the whole seconds until the reset, 0 once it has passed |
| Web.RateLimitWaitBounds | src/main/java/net/ven/webchat/web/WebServer.java:193-199 | a chat denial reports at most 60 s, and 0 when less than a second is left |
| Web.WebServer.OnConnect | src/main/java/net/ven/webchat/web/WebServer.java:59-164 | an unresolvable address aborts and a banned one is closed with 1008 before authentication, neither touching any state; otherwise the session store and `uuid` change exactly as the token lookup says, the decision, name and attributes follow the source, only SUCCESS registers and gets the `ip` attribute, and the history, status frame, join notice, game queue and every connection's outbox end up as `Settle` states; a ban closes with 1008 and leaves the other attributes alone, and a connection that gets through is never closed |
| Web.WebServer.Authenticate | src/main/java/net/ven/webchat/web/WebServer.java:85-125 | the decision of `handleConnection`, the `authenticated` attribute, the name assigned from the session or parameter, and in LINKED mode the lookup's effect on the session store (eviction asks for one save) and on `uuid`; other modes leave both alone |
| Web.WebServer.Settle | src/main/java/net/ven/webchat/web/WebServer.java:127-163 | an authenticated connection is registered and gets history, then status, then the join notice and roster; a handshake one gets only its status frame |
| Web.WebServer.Enroll | src/main/java/net/ven/webchat/web/WebServer.java:129-163 | registration, history replay, status frame and join notice, in that order, with the notice reaching every earlier open connection |
| Web.WebServer.Register | src/main/java/net/ven/webchat/web/WebServer.java:129-137 | the connection enters both registries under its name, gets its address attribute and the history |
| Web.WebServer.HandleOtpRequest | src/main/java/net/ven/webchat/web/WebServer.java:278-312 | cooldown only with an `ip` attribute, with the wait notice; a missing or empty name does nothing; an online player gets a fresh six-digit code by whisper and the client `otp_sent`; otherwise "Player not online" |
| Web.WebServer.HandleOtpVerify | src/main/java/net/ven/webchat/web/WebServer.java:314-343 | a missing field does nothing; an offline player gets "Player not online to verify"; a matching code opens a 30-day session and sends `auth_success` with it; a wrong one sends "Invalid Code" |
| Web.WebServer.HandleJsonMessage | src/main/java/net/ven/webchat/web/WebServer.java:258-276 | only "request_otp" and "verify_otp" run, and only with the server up, each with exactly its handler's effect and outcome; anything else changes nothing |
| Web.WebServer.OnClose | src/main/java/net/ven/webchat/web/WebServer.java:225-231 | the connection leaves both registries; if it was named, the game and the remaining connections hear that it left |
| Web.WebServer.OnMessage | src/main/java/net/ven/webchat/web/WebServer.java:166-223 | PING is ignored, a parsed command has exactly `handleJsonMessage`'s effect, anything else goes down the chat path; the registries stay consistent and the history bounded |
| Web.WebServer.Chat | src/main/java/net/ven/webchat/web/WebServer.java:185-222 | unauthorised connections are dropped, a null address throws, a rate-limited one gets the wait notice, a blocked text gets the profanity notice, and only clean text is relayed under the connection's name; once the address is checked, the whole rate table is the (optionally pruned) table after that one check, so other addresses' windows are untouched; the history stays within its bound |
| Web.WebServer.Relay | src/main/java/net/ven/webchat/web/WebServer.java:211-222 | blocked text earns the sender a notice; clean text goes to the game and every open connection; the history stays within its bound |
| Web.WebServer.ScreenMessage | src/main/java/net/ven/webchat/web/WebServer.java:203-222 | the step-by-step screening computes exactly the screening outcome |
| Client.Entity | src/main/resources/webchat-client/app.js:465 | `&` becomes `&amp;`, `<` `&lt;`, `>` `&gt;`, `"` `&quot;` and `'` `&#039;` (none with raw markup); every other character stays |
| Client.EscapeText | src/main/resources/webchat-client/app.js:465 | the output holds no raw `< > " '` and is never shorter; text without special characters is unchanged |
| Client.EscapeTextAppend | src/main/resources/webchat-client/app.js:465 | encoding works character by character: it distributes over concatenation |
| Client.EscapeChar | src/main/resources/webchat-client/app.js:465 | a single character is encoded as its entity |
| Client.UnescapeEscape | src/main/resources/webchat-client/app.js:465 | decoding the encoding gives the text back |
| Client.EscapeHtml | src/main/resources/webchat-client/app.js:465 | a missing or empty text gives '' |
| Client.WithMention | src/main/resources/webchat-client/app.js:468-471 | appends "@name ", after a space only when the text is non-empty and does not end in one |
| Client.MentionQuery | src/main/resources/webchat-client/app.js:527-541 | a query exists iff there is an '@' before the caret and no space between the last one and the caret; it is exactly that text |
| Client.FilterByPrefix | src/main/resources/webchat-client/app.js:568 | keeps exactly the users whose lower-case form starts with the lower-case query |
| Client.FilterByPrefixAppend | src/main/resources/webchat-client/app.js:568 | filtering a concatenation concatenates the filtered parts, so the filter keeps the users' order |
| Client.FilterByPrefixSingle | src/main/resources/webchat-client/app.js:568 | a single user is kept exactly when it matches |
| Client.Spliced | src/main/resources/webchat-client/app.js:603-612 | text before the last '@' ahead of the caret, then "@name ", then the text from the caret on |
| Client.SpliceReplacesQuery | src/main/resources/webchat-client/app.js:603-612 | selecting replaces exactly the typed "@query" by "@name ", keeping both outer parts |
| Client.Composer.constructor | src/main/resources/webchat-client/app.js:476 | an empty input with no suggestions |
| Client.Composer.UpdateLists | src/main/resources/webchat-client/app.js:478-479 | remembers the web users for autocomplete |
| Client.Composer.MentionUser | src/main/resources/webchat-client/app.js:468-471 | the input becomes the text with the mention appended |
| Client.Composer.ShowSuggestions | src/main/resources/webchat-client/app.js:566-578 | the matches are the filtered users; an empty result hides the dropdown, otherwise the highlight resets to 0 |
| Client.Composer.OnInput | src/main/resources/webchat-client/app.js:523-543 | suggestions are shown exactly when there is a query before the caret; otherwise the dropdown is hidden |
| Client.Composer.SelectSuggestion | src/main/resources/webchat-client/app.js:603-613 | the input becomes the spliced text and the dropdown is hidden |
| Client.Composer.OnKeyDown | src/main/resources/webchat-client/app.js:545-564 | acts only while the dropdown is shown: the arrows move the highlight clamped to the matches, Enter/Tab insert a non-empty highlighted name, Escape hides |
| Client.Composer.Choose | src/main/resources/webchat-client/app.js:555-559 | an empty (falsy) highlighted name is not inserted |

## Left out

- Server construction, SSL, static files, the server thread, `start` and `stop`: transport
  plumbing with no logic of the core.
- Disk persistence of bans and sessions. Each save is modelled only as a counter of
  requested saves (`banSaves`, `saveRequests`).
- Concurrency: concurrent collections, the non-atomic update of the rate window and the
  `server.execute` hand-offs are modelled as immediate sequential calls. In the source,
  the roster of a join or leave notice is sent from a second scheduled task.
- The clock and randomness are parameters. A single `now` serves a whole handler.
- The idle timeout of the connection.
- Minecraft text formatting. The game side is a log of `GameEvent`s.
- Bridge.ChatBridge.FindPlayer: player lookup is an exact-name search of the online
  list. The game's own lookup by name may ignore case; case-insensitive matching is not
  modelled, so a differently-cased name finds no player here.
- JSON encoding and parsing: frames are a datatype, and a parsed command arrives as an
  optional `JsonCommand`.
- Configuration loading and migration: the fields are a record.
- The `com.example` tree, a stale copy that does not build, is not part of this model.
- `WebChatMod.java` is not part of this model.
- `getUsernameColor`, message rendering, the suggestion list's DOM, sound, storage and the
  reconnect timer of the browser client.
- Bridge.ChatBridge.Roster: the web-user list is the set of registered names. Two
  connections under the same name appear once, and the iteration order of the map is not
  modelled.
- Strings.Lower: lower-casing covers the ASCII letters only, not Java's and JavaScript's
  full Unicode case mapping.
- Strings: text is a sequence of characters. Lengths and indexes of UTF-16 surrogate pairs
  are not modelled.
- Java's `long` arithmetic is unbounded here; no value in the core comes near overflow.
- Web.WebServer.OnConnect: an exception thrown while the address is resolved is an
  `Aborted` outcome; how Javalin then handles the connection is not modelled.
- Web.WebServer.Chat: the `NullIp` outcome stands for the exception thrown by
  `checkRateLimit(null)`. A negative maximum length, which makes `substring` throw, is
  `ClampFailed`.
- Web.WebServer.OnConnect: the FAILED branch is not modelled because it is unreachable.
- Client.Composer.SelectSuggestion: assigning the text moves the caret to its end, as
  browsers do; the commented-out caret restore is not modelled.
