/**
 * The identity store behind LINKED mode: one-time login codes per player, a
 * per-IP cooldown on requesting them, and bearer-token sessions that expire
 * thirty days after they are created.
 */
module Auth {
  import opened Wrappers
  import opened Strings

  /** A player's game identity (a java.util.UUID). */
  datatype Uuid = Uuid(text: string)

  /** Who a bearer token belongs to, and the instant (ms) after which it is no longer valid. */
  datatype Session = Session(uuid: Uuid, username: string, expiry: int)

  const SessionLifetimeMillis: int := 30 * 24 * 60 * 60 * 1000

  predicate Expired(s: Session, now: int) {
    now > s.expiry
  }

  // ---------------------------------------------------------------- one-time codes

  datatype OtpCheck = OtpCheck(ok: bool, codes: map<Uuid, string>)

  /** `verifyOTP` on the code table: a match consumes the stored code. */
  function VerifyOtpStep(codes: map<Uuid, string>, player: Uuid, code: string): OtpCheck {
    if player in codes && codes[player] == code then OtpCheck(true, codes - {player})
    else OtpCheck(false, codes)
  }

  /** The random draw in [100000, 999999) always renders as six digits that read back as the draw. */
  lemma OtpCodeFormat(n: nat)
    requires 100000 <= n < 999999
    ensures |DecimalString(n)| == 6
    ensures forall i :: 0 <= i < 6 ==> IsDigit(DecimalString(n)[i])
    ensures ParseDecimal(DecimalString(n)) == n
  {
    assert Pow10(5) == 100000 && Pow10(6) == 1000000;
    DecimalLength(n, 5);
    DecimalRoundTrip(n);
  }

  /** A freshly issued code verifies once; the same code then fails, and other players' codes are untouched. */
  lemma OtpSingleUse(codes: map<Uuid, string>, player: Uuid, code: string, wrong: string)
    requires wrong != code
    ensures var issued := codes[player := code];
            var first := VerifyOtpStep(issued, player, code);
            && first.ok
            && !VerifyOtpStep(first.codes, player, code).ok
            && (forall p :: p != player && p in codes ==> p in first.codes && first.codes[p] == codes[p])
    ensures var issued := codes[player := code];
            var miss := VerifyOtpStep(issued, player, wrong);
            && !miss.ok
            && miss.codes == issued
            && VerifyOtpStep(miss.codes, player, code).ok
  {
  }

  /** Issuing a second code silently invalidates the first. */
  lemma NewCodeReplacesOld(codes: map<Uuid, string>, player: Uuid, oldCode: string, newCode: string)
    requires oldCode != newCode
    ensures !VerifyOtpStep(codes[player := oldCode][player := newCode], player, oldCode).ok
    ensures VerifyOtpStep(codes[player := oldCode][player := newCode], player, newCode).ok
  {
  }

  // ---------------------------------------------------------------- OTP request cooldown

  /** The last allowed request time of an IP, 0 when it never made one. */
  function LastOtpRequest(last: map<string, int>, ip: string): int {
    if ip in last then last[ip] else 0
  }

  predicate OtpAllowed(last: map<string, int>, ip: string, now: int, limitMillis: int) {
    !(now - LastOtpRequest(last, ip) < limitMillis)
  }

  /** `getOtpResetTime` */
  function OtpResetTime(last: map<string, int>, ip: string, limitMillis: int): int {
    LastOtpRequest(last, ip) + limitMillis
  }

  /** `canRequestOtp` on the table: an allowed request stamps `now`, a denied one changes nothing. */
  function OtpRequestStep(last: map<string, int>, ip: string, now: int, limitMillis: int): map<string, int> {
    if OtpAllowed(last, ip, now, limitMillis) then last[ip := now] else last
  }

  /** The reset time is read from the very state the decision uses: a request is allowed exactly from that instant on. */
  lemma OtpResetTimeMatchesDecision(last: map<string, int>, ip: string, now: int, limitMillis: int)
    ensures OtpAllowed(last, ip, now, limitMillis) <==> now >= OtpResetTime(last, ip, limitMillis)
    ensures !OtpAllowed(last, ip, now, limitMillis) ==> OtpRequestStep(last, ip, now, limitMillis) == last
  {
  }

  /** The verdicts of successive OTP requests from one IP at the given times. */
  function OtpReplay(last: map<string, int>, ip: string, nows: seq<int>, limitMillis: int): (verdicts: seq<bool>)
    ensures |verdicts| == |nows|
    decreases |nows|
  {
    if nows == [] then []
    else
      [OtpAllowed(last, ip, nows[0], limitMillis)]
        + OtpReplay(OtpRequestStep(last, ip, nows[0], limitMillis), ip, nows[1..], limitMillis)
  }

  /** The first allowed request of a run is at least the cooldown after the stored time. */
  lemma {:induction false} FirstAllowedAfterCooldown(last: map<string, int>, ip: string, nows: seq<int>, limitMillis: int, j: nat)
    requires j < |nows| && OtpReplay(last, ip, nows, limitMillis)[j]
    requires forall k :: 0 <= k < j ==> !OtpReplay(last, ip, nows, limitMillis)[k]
    ensures nows[j] - LastOtpRequest(last, ip) >= limitMillis
  {
    if j > 0 {
      assert !OtpReplay(last, ip, nows, limitMillis)[0];
      var rest := OtpReplay(last, ip, nows[1..], limitMillis);
      assert OtpReplay(last, ip, nows, limitMillis) == [false] + rest;
      forall k | 0 <= k < j - 1 ensures !rest[k] {
        assert rest[k] == OtpReplay(last, ip, nows, limitMillis)[k + 1];
      }
      FirstAllowedAfterCooldown(last, ip, nows[1..], limitMillis, j - 1);
    }
  }

  /** Two consecutive allowed OTP requests from one IP are at least the cooldown apart. */
  lemma {:induction false} AllowedOtpRequestsSpaced(last: map<string, int>, ip: string, nows: seq<int>, limitMillis: int, i: nat, j: nat)
    requires i < j < |nows|
    requires OtpReplay(last, ip, nows, limitMillis)[i] && OtpReplay(last, ip, nows, limitMillis)[j]
    requires forall k :: i < k < j ==> !OtpReplay(last, ip, nows, limitMillis)[k]
    ensures nows[j] - nows[i] >= limitMillis
    decreases i
  {
    var next := OtpRequestStep(last, ip, nows[0], limitMillis);
    var rest := OtpReplay(next, ip, nows[1..], limitMillis);
    assert OtpReplay(last, ip, nows, limitMillis) == [OtpAllowed(last, ip, nows[0], limitMillis)] + rest;
    if i == 0 {
      assert LastOtpRequest(next, ip) == nows[0];
      forall k | 0 <= k < j - 1 ensures !rest[k] {
        assert rest[k] == OtpReplay(last, ip, nows, limitMillis)[k + 1];
      }
      FirstAllowedAfterCooldown(next, ip, nows[1..], limitMillis, j - 1);
    } else {
      forall k | i - 1 < k < j - 1 ensures !rest[k] {
        assert rest[k] == OtpReplay(last, ip, nows, limitMillis)[k + 1];
      }
      AllowedOtpRequestsSpaced(next, ip, nows[1..], limitMillis, i - 1, j - 1);
    }
  }

  // ---------------------------------------------------------------- sessions

  datatype SessionLookup = SessionLookup(found: Option<Session>, sessions: map<string, Session>, evicted: bool)

  /** `verifySession` on the token table: an expired entry is evicted on sight. */
  function LookupSession(sessions: map<string, Session>, token: Option<string>, now: int): SessionLookup {
    match token
    case None => SessionLookup(None, sessions, false)
    case Some(t) =>
      if t == "" || t !in sessions then SessionLookup(None, sessions, false)
      else if Expired(sessions[t], now) then SessionLookup(None, sessions - {t}, true)
      else SessionLookup(Some(sessions[t]), sessions, false)
  }

  /** The session sweep of `cleanup`: keep the sessions that have not expired. */
  function SweepSessions(sessions: map<string, Session>, now: int): map<string, Session> {
    map t | t in sessions && !Expired(sessions[t], now) :: sessions[t]
  }

  /** The cooldown sweep of `cleanup`: keep the IPs whose last request is at most the cooldown ago. */
  function SweepOtpThrottle(last: map<string, int>, now: int, limitMillis: int): map<string, int> {
    map ip | ip in last && !(now - last[ip] > limitMillis) :: last[ip]
  }

  /** A lookup that finds a session changes nothing; one that finds none removes at most the expired entry. */
  lemma LookupSemantics(sessions: map<string, Session>, token: Option<string>, now: int)
    ensures var l := LookupSession(sessions, token, now);
            && (l.found.Some? <==> token.Some? && token.value != "" && token.value in sessions && !Expired(sessions[token.value], now))
            && (l.found.Some? ==> l.found.value == sessions[token.value] && l.sessions == sessions && !l.evicted)
            && (l.evicted <==> token.Some? && token.value in sessions && token.value != "" && Expired(sessions[token.value], now))
            && (l.evicted ==> l.sessions == sessions - {token.value})
            && (!l.evicted ==> l.sessions == sessions)
  {
  }

  /** A created session is returned by every lookup up to and including its expiry instant. */
  lemma SessionValidForThirtyDays(sessions: map<string, Session>, token: string, uuid: Uuid, username: string, created: int, now: int)
    requires token != "" && now <= created + SessionLifetimeMillis
    ensures var stored := sessions[token := Session(uuid, username, created + SessionLifetimeMillis)];
            LookupSession(stored, Some(token), now) == SessionLookup(Some(Session(uuid, username, created + SessionLifetimeMillis)), stored, false)
  {
  }

  /** After expiry the first lookup evicts the entry; later lookups find nothing and evict nothing more. */
  lemma ExpiredSessionEvictedOnce(sessions: map<string, Session>, token: string, now: int, later: int)
    requires token in sessions && token != "" && Expired(sessions[token], now)
    ensures var first := LookupSession(sessions, Some(token), now);
            && first.found.None? && first.evicted && token !in first.sessions
            && LookupSession(first.sessions, Some(token), later) == SessionLookup(None, first.sessions, false)
  {
  }

  /** The bulk sweep is invisible to lookups made at or after it: it only drops sessions a lookup would reject. */
  lemma {:induction false} SweepAgreesWithLookup(sessions: map<string, Session>, now: int, token: Option<string>, later: int)
    requires later >= now
    ensures LookupSession(SweepSessions(sessions, now), token, later).found == LookupSession(sessions, token, later).found
  {
    if token.Some? && token.value in sessions && token.value != "" {
      var s := sessions[token.value];
      if Expired(s, now) {
        assert Expired(s, later);
        assert token.value !in SweepSessions(sessions, now);
      } else {
        assert SweepSessions(sessions, now)[token.value] == s;
      }
    }
  }

  /**
   * The cooldown sweep drops only IPs whose cooldown has passed, so it never
   * changes a later request's verdict (request times are never negative).
   */
  lemma {:induction false} OtpSweepInvisible(last: map<string, int>, now: int, limitMillis: int, ip: string, later: int)
    requires forall k :: k in last ==> last[k] >= 0
    requires later >= now
    ensures OtpAllowed(SweepOtpThrottle(last, now, limitMillis), ip, later, limitMillis) == OtpAllowed(last, ip, later, limitMillis)
  {
    var swept := SweepOtpThrottle(last, now, limitMillis);
    if ip in last && ip !in swept {
      assert now - last[ip] > limitMillis;
      assert LastOtpRequest(swept, ip) == 0;
    } else if ip in last {
      assert swept[ip] == last[ip];
    }
  }

  // ---------------------------------------------------------------- the store

  class AuthManager {
    var sessions: map<string, Session>
    var otpCache: map<Uuid, string>
    var otpRateLimit: map<string, int>
    /** How many asynchronous rewrites of the session file were scheduled. */
    var saveRequests: nat

    /** The state after `loadSessions` has read `loaded` from disk. */
    constructor (loaded: map<string, Session>)
      ensures sessions == loaded && otpCache == map[] && otpRateLimit == map[] && saveRequests == 0
    {
      sessions := loaded;
      otpCache := map[];
      otpRateLimit := map[];
      saveRequests := 0;
    }

    /** `generateOTP`; `random` is the draw of `nextInt(100000, 999999)`. */
    method GenerateOtp(player: Uuid, random: int) returns (code: string)
      requires 100000 <= random < 999999
      modifies this`otpCache
      ensures |code| == 6 && (forall i :: 0 <= i < 6 ==> IsDigit(code[i])) && ParseDecimal(code) == random
      ensures otpCache == old(otpCache)[player := code]
    {
      OtpCodeFormat(random);
      code := DecimalString(random);
      otpCache := otpCache[player := code];
    }

    method VerifyOtp(player: Uuid, code: string) returns (ok: bool)
      modifies this`otpCache
      ensures OtpCheck(ok, otpCache) == VerifyOtpStep(old(otpCache), player, code)
    {
      ok := player in otpCache && otpCache[player] == code;
      if ok {
        otpCache := otpCache - {player};
      }
    }

    method CanRequestOtp(ip: string, now: int, otpRateLimitSeconds: int) returns (allowed: bool)
      modifies this`otpRateLimit
      ensures allowed == OtpAllowed(old(otpRateLimit), ip, now, otpRateLimitSeconds * 1000)
      ensures otpRateLimit == OtpRequestStep(old(otpRateLimit), ip, now, otpRateLimitSeconds * 1000)
    {
      var last := if ip in otpRateLimit then otpRateLimit[ip] else 0;
      var limit := otpRateLimitSeconds * 1000;
      if now - last < limit {
        return false;
      }
      otpRateLimit := otpRateLimit[ip := now];
      allowed := true;
    }

    function GetOtpResetTime(ip: string, otpRateLimitSeconds: int): int
      reads this
    {
      OtpResetTime(otpRateLimit, ip, otpRateLimitSeconds * 1000)
    }

    /** `createSession`; `token` is the rendering of `UUID.randomUUID()`. */
    method CreateSession(uuid: Uuid, username: string, now: int, token: string) returns (issued: string)
      requires |token| == 36
      modifies this`sessions, this`saveRequests
      ensures issued == token
      ensures sessions == old(sessions)[token := Session(uuid, username, now + SessionLifetimeMillis)]
      ensures saveRequests == old(saveRequests) + 1
    {
      sessions := sessions[token := Session(uuid, username, now + SessionLifetimeMillis)];
      saveRequests := saveRequests + 1;
      issued := token;
    }

    method VerifySession(token: Option<string>, now: int) returns (found: Option<Session>)
      modifies this`sessions, this`saveRequests
      ensures var l := LookupSession(old(sessions), token, now);
              && found == l.found
              && sessions == l.sessions
              && saveRequests == old(saveRequests) + (if l.evicted then 1 else 0)
    {
      if token.None? || token.value == "" {
        return None;
      }
      var t := token.value;
      if t in sessions {
        var s := sessions[t];
        if now > s.expiry {
          sessions := sessions - {t};
          saveRequests := saveRequests + 1;
          return None;
        }
        return Some(s);
      }
      return None;
    }

    /** `cleanup`: sweep expired sessions and stale cooldowns; the code table is left alone. */
    method Cleanup(now: int, otpRateLimitSeconds: int)
      modifies this`sessions, this`otpRateLimit, this`saveRequests
      ensures sessions == SweepSessions(old(sessions), now)
      ensures otpRateLimit == SweepOtpThrottle(old(otpRateLimit), now, otpRateLimitSeconds * 1000)
      ensures saveRequests == old(saveRequests) + (if sessions != old(sessions) then 1 else 0)
    {
      var swept := SweepSessions(sessions, now);
      var changed := swept != sessions;
      sessions := swept;
      otpRateLimit := SweepOtpThrottle(otpRateLimit, now, otpRateLimitSeconds * 1000);
      if changed {
        saveRequests := saveRequests + 1;
      }
    }
  }
}
