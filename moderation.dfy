/**
 * The ban list and the per-IP chat rate limiter. Each IP owns a fixed window
 * of 60 seconds holding a message count; the window is opened lazily, on the
 * first check after its end has passed, never aligned to the wall clock.
 */
module Moderation {
  import opened Wrappers

  const WindowMillis: int := 60000

  /** The `{count, windowEnd}` pair kept for one IP. */
  datatype Window = Window(count: int, end: int)

  /** The window a check at `now` works on: the stored one, or a fresh one when there is none or it has ended. */
  function CurrentWindow(limits: map<string, Window>, ip: string, now: int): (w: Window)
    ensures ip in limits && now <= limits[ip].end ==> w == limits[ip]
    ensures ip !in limits || now > limits[ip].end ==> w == Window(0, now + WindowMillis)
  {
    if ip !in limits then Window(0, now + WindowMillis)
    else if now > limits[ip].end then Window(0, now + WindowMillis)
    else limits[ip]
  }

  datatype RateStep = RateStep(allowed: bool, limits: map<string, Window>)

  /** One rate-limit check on the table, without the opportunistic prune. */
  function Check(limits: map<string, Window>, ip: string, now: int, maxPerMin: int): RateStep {
    var w := CurrentWindow(limits, ip, now);
    if w.count < maxPerMin then RateStep(true, limits[ip := Window(w.count + 1, w.end)])
    else RateStep(false, limits[ip := w])
  }

  /** The prune: drop every entry whose window ended before `now`. */
  function Pruned(limits: map<string, Window>, now: int): map<string, Window> {
    map ip | ip in limits && !(limits[ip].end < now) :: limits[ip]
  }

  /** `getRateLimitReset`: the stored window end, or 0 for an IP never checked. */
  function ResetTime(limits: map<string, Window>, ip: string): int {
    if ip in limits then limits[ip].end else 0
  }

  /**
   * A single check: allowed exactly when the current window still has room;
   * allowing adds one to the count, denying keeps the current window as it is,
   * and no other IP's entry changes.
   */
  lemma CheckSemantics(limits: map<string, Window>, ip: string, now: int, maxPerMin: int)
    ensures var w := CurrentWindow(limits, ip, now);
            var r := Check(limits, ip, now, maxPerMin);
            && (r.allowed <==> w.count < maxPerMin)
            && ip in r.limits
            && r.limits[ip] == (if r.allowed then Window(w.count + 1, w.end) else w)
            && (forall other :: other != ip ==> (other in r.limits <==> other in limits))
            && (forall other :: other != ip && other in limits ==> r.limits[other] == limits[other])
  {
  }

  /** The first check for an unknown IP opens a window ending a minute later and, with room, counts one message. */
  lemma FirstCheckOpensWindow(limits: map<string, Window>, ip: string, now: int, maxPerMin: int)
    requires ip !in limits
    ensures var r := Check(limits, ip, now, maxPerMin);
            && r.allowed == (maxPerMin > 0)
            && r.limits[ip] == Window(if maxPerMin > 0 then 1 else 0, now + WindowMillis)
  {
  }

  /** Past the window end the count starts again from zero; at the end itself the old window still applies. */
  lemma WindowRollover(limits: map<string, Window>, ip: string, now: int, maxPerMin: int)
    requires ip in limits
    ensures now > limits[ip].end ==>
              Check(limits, ip, now, maxPerMin).allowed == (0 < maxPerMin) &&
              Check(limits, ip, now, maxPerMin).limits[ip].end == now + WindowMillis
    ensures now == limits[ip].end ==>
              Check(limits, ip, now, maxPerMin).allowed == (limits[ip].count < maxPerMin) &&
              Check(limits, ip, now, maxPerMin).limits[ip].end == limits[ip].end
  {
  }

  /** The reset time reported after a check is the end of the very window that check used. */
  lemma ResetTimeIsCheckedWindowEnd(limits: map<string, Window>, ip: string, now: int, maxPerMin: int)
    ensures ResetTime(Check(limits, ip, now, maxPerMin).limits, ip) == CurrentWindow(limits, ip, now).end
    ensures ip !in limits ==> ResetTime(limits, ip) == 0
  {
  }

  /** After a denial the reported end is never in the past, and at most one window length ahead. */
  lemma DeniedResetWithinAMinute(limits: map<string, Window>, ip: string, now: int, maxPerMin: int)
    requires !Check(limits, ip, now, maxPerMin).allowed
    requires ip in limits ==> limits[ip].end <= now + WindowMillis
    ensures now <= ResetTime(Check(limits, ip, now, maxPerMin).limits, ip) <= now + WindowMillis
  {
  }

  /** Every stored window ends at most a minute after `now`. */
  predicate EndsWithinAMinute(limits: map<string, Window>, now: int) {
    forall ip :: ip in limits ==> limits[ip].end <= now + WindowMillis
  }

  /**
   * Under a clock that never goes back, the bound the reset-time lemmas
   * assume is kept by every check and every prune: a window is only ever
   * opened at the time of the check that opens it.
   */
  lemma CheckKeepsEndBound(limits: map<string, Window>, ip: string, now: int, later: int, maxPerMin: int)
    requires EndsWithinAMinute(limits, now) && now <= later
    ensures EndsWithinAMinute(Pruned(limits, later), later)
    ensures EndsWithinAMinute(Check(limits, ip, later, maxPerMin).limits, later)
    ensures EndsWithinAMinute(Check(Pruned(limits, later), ip, later, maxPerMin).limits, later)
  {
  }

  /** Pruning before a check never changes that check's verdict or the entry it leaves for the IP. */
  lemma PruneIsInvisible(limits: map<string, Window>, ip: string, now: int, maxPerMin: int)
    ensures Check(Pruned(limits, now), ip, now, maxPerMin).allowed == Check(limits, ip, now, maxPerMin).allowed
    ensures Check(Pruned(limits, now), ip, now, maxPerMin).limits[ip] == Check(limits, ip, now, maxPerMin).limits[ip]
    ensures forall other :: other in Pruned(limits, now) ==> other in limits && limits[other].end >= now
  {
    assert CurrentWindow(Pruned(limits, now), ip, now) == CurrentWindow(limits, ip, now);
  }

  /** The verdicts of successive checks from one IP at the given times. */
  function Replay(limits: map<string, Window>, ip: string, nows: seq<int>, maxPerMin: int): (verdicts: seq<bool>)
    ensures |verdicts| == |nows|
    decreases |nows|
  {
    if nows == [] then []
    else
      var r := Check(limits, ip, nows[0], maxPerMin);
      [r.allowed] + Replay(r.limits, ip, nows[1..], maxPerMin)
  }

  /**
   * Inside one window (no check later than its end) the k-th further check is
   * allowed exactly when the count already stored plus k is below the limit.
   */
  lemma {:induction false} ChecksWithinWindow(limits: map<string, Window>, ip: string, nows: seq<int>, maxPerMin: int)
    requires ip in limits && limits[ip].count >= 0
    requires forall k :: 0 <= k < |nows| ==> nows[k] <= limits[ip].end
    ensures forall k :: 0 <= k < |nows| ==>
              Replay(limits, ip, nows, maxPerMin)[k] == (limits[ip].count + k < maxPerMin)
  {
    if nows != [] {
      var c := limits[ip].count;
      var r := Check(limits, ip, nows[0], maxPerMin);
      ChecksWithinWindow(r.limits, ip, nows[1..], maxPerMin);
      if c < maxPerMin {
        assert r.limits[ip] == Window(c + 1, limits[ip].end);
      } else {
        assert r.limits[ip] == limits[ip];
      }
      forall k | 0 <= k < |nows|
        ensures Replay(limits, ip, nows, maxPerMin)[k] == (c + k < maxPerMin)
      {
        if k > 0 {
          assert Replay(limits, ip, nows, maxPerMin)[k] == Replay(r.limits, ip, nows[1..], maxPerMin)[k - 1];
        }
      }
    }
  }

  /**
   * An IP with no window: a burst of checks all within a minute of the first is
   * allowed exactly maxPerMin times, the first maxPerMin of them, so check
   * number maxPerMin + 1 is the first one denied.
   */
  lemma {:induction false} BurstFromFreshIp(limits: map<string, Window>, ip: string, nows: seq<int>, maxPerMin: int)
    requires ip !in limits && nows != []
    requires forall k :: 0 <= k < |nows| ==> nows[k] <= nows[0] + WindowMillis
    ensures forall k :: 0 <= k < |nows| ==> Replay(limits, ip, nows, maxPerMin)[k] == (k < maxPerMin)
  {
    var r := Check(limits, ip, nows[0], maxPerMin);
    var w := r.limits[ip];
    assert w.end == nows[0] + WindowMillis;
    ChecksWithinWindow(r.limits, ip, nows[1..], maxPerMin);
    forall k | 0 <= k < |nows|
      ensures Replay(limits, ip, nows, maxPerMin)[k] == (k < maxPerMin)
    {
      if k > 0 {
        assert Replay(limits, ip, nows, maxPerMin)[k] == Replay(r.limits, ip, nows[1..], maxPerMin)[k - 1];
        assert nows[1..][k - 1] == nows[k];
      }
    }
  }

  /** Outcome of `checkRateLimit`: a Java null IP makes `computeIfAbsent` throw before any decision. */
  datatype Verdict = Allow | Deny | NullKey

  class ModerationManager {
    var bannedIps: set<string>
    var rateLimits: map<string, Window>
    /** How many times the ban file was rewritten. */
    var banSaves: nat

    /** The state after `loadBans` has read `loaded` from disk. */
    constructor (loaded: set<string>)
      ensures bannedIps == loaded && rateLimits == map[] && banSaves == 0
    {
      bannedIps := loaded;
      rateLimits := map[];
      banSaves := 0;
    }

    predicate IsBanned(ip: string)
      reads this
    {
      ip in bannedIps
    }

    method Ban(ip: string)
      modifies this`bannedIps, this`banSaves
      ensures IsBanned(ip)
      ensures forall other :: other != ip ==> (IsBanned(other) <==> old(IsBanned(other)))
      ensures banSaves == old(banSaves) + 1
    {
      bannedIps := bannedIps + {ip};
      banSaves := banSaves + 1;
    }

    method Unban(ip: string)
      modifies this`bannedIps, this`banSaves
      ensures !IsBanned(ip)
      ensures forall other :: other != ip ==> (IsBanned(other) <==> old(IsBanned(other)))
      ensures banSaves == old(banSaves) + 1
    {
      bannedIps := bannedIps - {ip};
      banSaves := banSaves + 1;
    }

    /**
     * `checkRateLimit`. `prune` is the outcome of the 1% coin flip; the prune
     * happens before the null IP is rejected.
     */
    method CheckRateLimit(ip: Option<string>, now: int, maxPerMin: int, prune: bool) returns (v: Verdict)
      modifies this`rateLimits
      ensures var table := if prune then Pruned(old(rateLimits), now) else old(rateLimits);
              match ip
              case None => v == NullKey && rateLimits == table
              case Some(key) =>
                var r := Check(table, key, now, maxPerMin);
                && (v == if r.allowed then Allow else Deny)
                && rateLimits == r.limits
                && r.allowed == Check(old(rateLimits), key, now, maxPerMin).allowed
                && rateLimits[key] == Check(old(rateLimits), key, now, maxPerMin).limits[key]
    {
      if prune {
        rateLimits := Pruned(rateLimits, now);
      }
      if ip.None? {
        return NullKey;
      }
      var key := ip.value;
      PruneIsInvisible(old(rateLimits), key, now, maxPerMin);
      var w := CurrentWindow(rateLimits, key, now);
      if w.count < maxPerMin {
        rateLimits := rateLimits[key := Window(w.count + 1, w.end)];
        v := Allow;
      } else {
        rateLimits := rateLimits[key := w];
        v := Deny;
      }
    }

    function GetRateLimitReset(ip: string): int
      reads this
    {
      ResetTime(rateLimits, ip)
    }
  }
}
