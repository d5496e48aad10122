/**
 * The bridge between the web clients and the game: the bounded chat history,
 * replay of that history to a new connection, fan-out of chat and roster
 * frames to the open web connections, and the hand-off of web chat and
 * join/leave notices to the game.
 */
module Bridge {
  import opened Wrappers
  import opened Transport
  import Auth

  /** The history bounds are fixed in the code: 50 entries and 30 minutes. */
  const HistoryLimit: nat := 50
  const RetentionMillis: int := 30 * 60 * 1000

  datatype HistoricMessage = HistoricMessage(timestamp: int, user: string, message: string)

  /** A player on the game server. */
  datatype Player = Player(uuid: Auth.Uuid, name: string)

  /** What the core hands to the game's own thread. */
  datatype GameEvent =
    | WebChat(user: string, message: string)   // "[WEB] user: message", broadcast to every player
    | WebNotice(text: string)                  // "[WEB] name joined/left the chat.", broadcast to every player
    | Whisper(to: Auth.Uuid, text: string)     // a message to one player only

  /** The first trim loop: drop entries from the head while the head is older than `cutoff`. */
  function DropExpired(h: seq<HistoricMessage>, cutoff: int): (r: seq<HistoricMessage>)
    ensures |r| <= |h| && r == h[|h| - |r|..]
    decreases |h|
  {
    if h != [] && h[0].timestamp < cutoff then
      var r := DropExpired(h[1..], cutoff);
      assert h[1..][|h| - 1 - |r|..] == h[|h| - |r|..];
      r
    else h
  }

  /** The age trim stops at the first entry that is not too old. */
  lemma {:induction false} DropExpiredStopsAtFresh(h: seq<HistoricMessage>, cutoff: int)
    ensures var r := DropExpired(h, cutoff); r == [] || r[0].timestamp >= cutoff
    decreases |h|
  {
    if h != [] && h[0].timestamp < cutoff {
      DropExpiredStopsAtFresh(h[1..], cutoff);
    }
  }

  /** The age trim drops only entries older than `cutoff`. */
  lemma {:induction false} DropExpiredDropsOnlyStale(h: seq<HistoricMessage>, cutoff: int)
    ensures forall i :: 0 <= i < |h| - |DropExpired(h, cutoff)| ==> h[i].timestamp < cutoff
    decreases |h|
  {
    if h != [] && h[0].timestamp < cutoff {
      DropExpiredDropsOnlyStale(h[1..], cutoff);
      var r := DropExpired(h, cutoff);
      forall i | 1 <= i < |h| - |r| ensures h[i].timestamp < cutoff {
        assert h[i] == h[1..][i - 1];
      }
    }
  }

  /** An entry that is recent enough at the tail keeps the age trim from emptying the history. */
  lemma {:induction false} DropExpiredKeepsFreshLast(h: seq<HistoricMessage>, cutoff: int)
    requires h != [] && h[|h| - 1].timestamp >= cutoff
    ensures DropExpired(h, cutoff) != []
    decreases |h|
  {
    if h[0].timestamp < cutoff {
      assert |h| > 1;
      DropExpiredKeepsFreshLast(h[1..], cutoff);
    }
  }

  /** What the second trim loop leaves: the newest `limit` entries, or all of them when there are fewer. */
  function DropExcess(h: seq<HistoricMessage>, limit: nat): (r: seq<HistoricMessage>)
    ensures |r| == if |h| > limit then limit else |h|
    ensures r == h[|h| - |r|..]
  {
    if |h| > limit then h[|h| - limit..] else h
  }

  /** The history `addToHistory` leaves after appending at `now`: first the age trim, then the count trim. */
  function Trimmed(h: seq<HistoricMessage>, now: int): (r: seq<HistoricMessage>)
    ensures |r| <= HistoryLimit
  {
    DropExcess(DropExpired(h, now - RetentionMillis), HistoryLimit)
  }

  ghost predicate Chronological(h: seq<HistoricMessage>) {
    forall i, j :: 0 <= i < j < |h| ==> h[i].timestamp <= h[j].timestamp
  }

  /** After an append the history is non-empty, holds at most 50 entries and ends with the new entry. */
  lemma {:induction false} AppendKeepsNewestWithinBound(h: seq<HistoricMessage>, e: HistoricMessage, now: int)
    requires e.timestamp == now
    ensures var r := Trimmed(h + [e], now); 1 <= |r| <= HistoryLimit && r[|r| - 1] == e
  {
    var all := h + [e];
    var cutoff := now - RetentionMillis;
    DropExpiredKeepsFreshLast(all, cutoff);
    var aged := DropExpired(all, cutoff);
    var r := DropExcess(aged, HistoryLimit);
    assert aged[|aged| - 1] == e;
    assert r[|r| - 1] == aged[|aged| - 1];
  }

  /** After an append the history is a suffix of the old history followed by the new entry. */
  lemma AppendKeepsSuffix(h: seq<HistoricMessage>, e: HistoricMessage, now: int)
    ensures var r := Trimmed(h + [e], now); r == (h + [e])[|h| + 1 - |r|..]
  {
    var all := h + [e];
    var aged := DropExpired(all, now - RetentionMillis);
    var r := DropExcess(aged, HistoryLimit);
    assert r == all[|all| - |r|..];
  }

  /** Any suffix of a history in time order is in time order. */
  lemma SuffixChronological(h: seq<HistoricMessage>, k: nat)
    requires k <= |h| && Chronological(h)
    ensures Chronological(h[k..])
  {
    forall i, j | 0 <= i < j < |h| - k
      ensures h[k..][i].timestamp <= h[k..][j].timestamp
    {
      assert h[k..][i] == h[k + i] && h[k..][j] == h[k + j];
    }
  }

  /** Appending an entry no older than every stored one keeps the history in time order. */
  lemma AppendChronological(h: seq<HistoricMessage>, e: HistoricMessage)
    requires Chronological(h)
    requires forall i :: 0 <= i < |h| ==> h[i].timestamp <= e.timestamp
    ensures Chronological(h + [e])
  {
    var all := h + [e];
    forall i, j | 0 <= i < j < |all| ensures all[i].timestamp <= all[j].timestamp {
      if j < |h| { assert all[i] == h[i] && all[j] == h[j]; } else { assert all[i] == h[i]; }
    }
  }

  /** Every entry is at least as recent as `cutoff`. */
  ghost predicate AllFresh(h: seq<HistoricMessage>, cutoff: int) {
    forall i :: 0 <= i < |h| ==> h[i].timestamp >= cutoff
  }

  /** In a history in time order, a recent enough first entry makes every entry recent enough. */
  lemma HeadFreshAllFresh(h: seq<HistoricMessage>, cutoff: int)
    requires Chronological(h)
    requires h == [] || h[0].timestamp >= cutoff
    ensures AllFresh(h, cutoff)
  {
    forall i | 0 <= i < |h| ensures h[i].timestamp >= cutoff {
      if i > 0 { assert h[0].timestamp <= h[i].timestamp; }
    }
  }

  lemma SuffixFresh(h: seq<HistoricMessage>, k: nat, cutoff: int)
    requires k <= |h| && AllFresh(h, cutoff)
    ensures AllFresh(h[k..], cutoff)
  {
    forall i | 0 <= i < |h| - k ensures h[k..][i].timestamp >= cutoff {
      assert h[k..][i] == h[k + i];
    }
  }

  /** Trimming keeps a history in time order. */
  lemma TrimmedChronological(h: seq<HistoricMessage>, now: int)
    requires Chronological(h)
    ensures Chronological(Trimmed(h, now))
  {
    var aged := DropExpired(h, now - RetentionMillis);
    SuffixChronological(h, |h| - |aged|);
    var r := DropExcess(aged, HistoryLimit);
    SuffixChronological(aged, |aged| - |r|);
  }

  /** Trimming a history in time order leaves no entry older than the retention window. */
  lemma TrimmedFresh(h: seq<HistoricMessage>, now: int)
    requires Chronological(h)
    ensures AllFresh(Trimmed(h, now), now - RetentionMillis)
  {
    var cutoff := now - RetentionMillis;
    var aged := DropExpired(h, cutoff);
    DropExpiredStopsAtFresh(h, cutoff);
    SuffixChronological(h, |h| - |aged|);
    HeadFreshAllFresh(aged, cutoff);
    var r := DropExcess(aged, HistoryLimit);
    SuffixFresh(aged, |aged| - |r|, cutoff);
  }

  /**
   * With appends made in time order, no entry older than the retention window
   * survives a trim, and the history stays in time order.
   */
  lemma AppendDropsStaleEntries(h: seq<HistoricMessage>, e: HistoricMessage, now: int)
    requires e.timestamp == now
    requires Chronological(h)
    requires forall i :: 0 <= i < |h| ==> h[i].timestamp <= now
    ensures var r := Trimmed(h + [e], now);
            && Chronological(r)
            && AllFresh(r, now - RetentionMillis)
  {
    AppendChronological(h, e);
    TrimmedChronological(h + [e], now);
    TrimmedFresh(h + [e], now);
  }

  /** The `message` frame each history entry is replayed as. */
  function HistoryFrames(h: seq<HistoricMessage>): (frames: seq<Frame>)
    ensures |frames| == |h|
    ensures forall i :: 0 <= i < |h| ==> frames[i] == Message(h[i].user, h[i].message)
  {
    seq(|h|, i requires 0 <= i < |h| => Message(h[i].user, h[i].message))
  }

  function PlayerNames(players: seq<Player>): (names: seq<string>)
    ensures |names| == |players|
    ensures forall i :: 0 <= i < |players| ==> names[i] == players[i].name
  {
    seq(|players|, i requires 0 <= i < |players| => players[i].name)
  }

  /** What each web connection receives from one fan-out of `frames`: all of them if open, none if closed. */
  function Delivered(c: Conn, frames: seq<Frame>): seq<Frame>
    reads c`open
  {
    if c.open then frames else []
  }

  class ChatBridge {
    /** `server != null`: whether the game server is available. */
    var serverUp: bool
    /** The game's online players, in its own order. */
    var online: seq<Player>
    /** Everything handed to the game, in order. */
    var game: seq<GameEvent>
    var activeSessions: set<Conn>
    var sessionUsernames: map<Conn, string>
    var history: seq<HistoricMessage>

    /** The registries hold the same connections, and the history never exceeds its bound. */
    ghost predicate Valid()
      reads this
    {
      sessionUsernames.Keys == activeSessions && |history| <= HistoryLimit
    }

    constructor (serverUp: bool, online: seq<Player>)
      ensures Valid()
      ensures this.serverUp == serverUp && this.online == online
      ensures game == [] && activeSessions == {} && sessionUsernames == map[] && history == []
    {
      this.serverUp := serverUp;
      this.online := online;
      game := [];
      activeSessions := {};
      sessionUsernames := map[];
      history := [];
    }

    /** `getPlayer(name)` of the game's player manager, as an exact-name lookup. */
    function FindPlayer(name: string): (p: Option<Player>)
      reads this
      ensures p.Some? ==> p.value in online && p.value.name == name
      ensures p.None? ==> forall q :: q in online ==> q.name != name
    {
      FirstNamed(online, name)
    }

    static function FirstNamed(players: seq<Player>, name: string): (p: Option<Player>)
      ensures p.Some? ==> p.value in players && p.value.name == name
      ensures p.None? ==> forall q :: q in players ==> q.name != name
    {
      if players == [] then None
      else if players[0].name == name then Some(players[0])
      else FirstNamed(players[1..], name)
    }

    /** `addToHistory`: append, then the age trim, then the count trim. */
    method AddToHistory(user: string, message: string, now: int)
      modifies this`history
      ensures history == Trimmed(old(history) + [HistoricMessage(now, user, message)], now)
      ensures |history| <= HistoryLimit
    {
      history := history + [HistoricMessage(now, user, message)];
      DropExpiredEntries(now - RetentionMillis);
      DropExcessEntries();
    }

    /** The first loop of `addToHistory`: drop the head while it is older than `cutoff`. */
    method DropExpiredEntries(cutoff: int)
      modifies this`history
      ensures history == DropExpired(old(history), cutoff)
    {
      while history != [] && history[0].timestamp < cutoff
        invariant DropExpired(history, cutoff) == DropExpired(old(history), cutoff)
        decreases |history|
      {
        history := history[1..];
      }
    }

    /** The second loop of `addToHistory`: drop the head while there are more than 50 entries. */
    method DropExcessEntries()
      modifies this`history
      ensures history == DropExcess(old(history), HistoryLimit)
    {
      while |history| > HistoryLimit
        invariant DropExcess(history, HistoryLimit) == DropExcess(old(history), HistoryLimit)
        decreases |history|
      {
        assert history[1..][|history| - 1 - HistoryLimit..] == history[|history| - HistoryLimit..];
        history := history[1..];
      }
    }

    /** `sendHistoryTo`: one `message` frame per entry, oldest first; the history is only read. */
    method SendHistoryTo(ctx: Conn)
      modifies ctx`outbox
      ensures ctx.outbox == old(ctx.outbox) + HistoryFrames(history)
    {
      var i := 0;
      while i < |history|
        invariant 0 <= i <= |history|
        invariant ctx.outbox == old(ctx.outbox) + HistoryFrames(history)[..i]
      {
        ctx.Send(Message(history[i].user, history[i].message));
        i := i + 1;
      }
    }

    /** The fan-out loop shared by the broadcasts: `f` goes to every active connection that is open. */
    method Deliver(f: Frame)
      modifies activeSessions`outbox
      ensures forall c :: c in activeSessions ==> c.outbox == old(c.outbox) + Delivered(c, [f])
    {
      var pending := activeSessions;
      while pending != {}
        invariant pending <= activeSessions
        invariant forall c :: c in activeSessions && c !in pending ==> c.outbox == old(c.outbox) + Delivered(c, [f])
        invariant forall c :: c in pending ==> c.outbox == old(c.outbox)
        decreases pending
      {
        var c :| c in pending;
        if c.open {
          c.Send(f);
        }
        pending := pending - {c};
      }
    }

    /** `broadcastToWeb`: record in history first, then send the same frame to every open active connection. */
    method BroadcastToWeb(sender: string, message: string, now: int)
      modifies this`history, activeSessions`outbox
      ensures history == Trimmed(old(history) + [HistoricMessage(now, sender, message)], now)
      ensures forall c :: c in activeSessions ==> c.outbox == old(c.outbox) + Delivered(c, [Message(sender, message)])
    {
      AddToHistory(sender, message, now);
      Deliver(Message(sender, message));
    }

    /** The roster frame: the game's players and exactly the names registered for web connections. */
    function Roster(): Frame
      reads this`online, this`sessionUsernames
    {
      PlayerList(PlayerNames(online), sessionUsernames.Values)
    }

    /** `broadcastUserList`: nothing happens while the game server is absent. */
    method BroadcastUserList()
      modifies activeSessions`outbox
      ensures forall c :: c in activeSessions ==>
                c.outbox == old(c.outbox) + Delivered(c, if serverUp then [Roster()] else [])
    {
      if !serverUp {
        return;
      }
      Deliver(Roster());
    }

    /** The notice shared by `notifyWebJoin` and `notifyWebQuit`. */
    method Notify(text: string, now: int)
      modifies this`game, this`history, activeSessions`outbox
      ensures serverUp ==>
                && game == old(game) + [WebNotice("[WEB] " + text)]
                && history == Trimmed(old(history) + [HistoricMessage(now, "System", text)], now)
                && (forall c :: c in activeSessions ==> c.outbox == old(c.outbox) + Delivered(c, [Message("System", text), Roster()]))
      ensures !serverUp ==>
                && game == old(game) && history == old(history)
                && (forall c :: c in activeSessions ==> c.outbox == old(c.outbox))
    {
      if !serverUp {
        return;
      }
      Announce(text, now);
      game := game + [WebNotice("[WEB] " + text)];
    }

    /** The web side of a notice: a "System" message (recorded in history), then the refreshed roster. */
    method Announce(text: string, now: int)
      requires serverUp
      modifies this`history, activeSessions`outbox
      ensures history == Trimmed(old(history) + [HistoricMessage(now, "System", text)], now)
      ensures forall c :: c in activeSessions ==> c.outbox == old(c.outbox) + Delivered(c, [Message("System", text), Roster()])
    {
      ghost var before := map c | c in activeSessions :: c.outbox;
      BroadcastToWeb("System", text, now);
      ghost var middle := map c | c in activeSessions :: c.outbox;
      BroadcastUserList();
      forall c | c in activeSessions
        ensures c.outbox == old(c.outbox) + Delivered(c, [Message("System", text), Roster()])
      {
        assert middle[c] == before[c] + Delivered(c, [Message("System", text)]);
        assert c.outbox == middle[c] + Delivered(c, [Roster()]);
      }
    }

    method NotifyWebJoin(username: string, now: int)
      modifies this`game, this`history, activeSessions`outbox
      ensures serverUp ==>
                && game == old(game) + [WebNotice("[WEB] " + (username + " joined the chat."))]
                && history == Trimmed(old(history) + [HistoricMessage(now, "System", username + " joined the chat.")], now)
                && (forall c :: c in activeSessions ==>
                      c.outbox == old(c.outbox) + Delivered(c, [Message("System", username + " joined the chat."), Roster()]))
      ensures !serverUp ==>
                && game == old(game) && history == old(history)
                && (forall c :: c in activeSessions ==> c.outbox == old(c.outbox))
    {
      Notify(username + " joined the chat.", now);
    }

    method NotifyWebQuit(username: string, now: int)
      modifies this`game, this`history, activeSessions`outbox
      ensures serverUp ==>
                && game == old(game) + [WebNotice("[WEB] " + (username + " left the chat."))]
                && history == Trimmed(old(history) + [HistoricMessage(now, "System", username + " left the chat.")], now)
                && (forall c :: c in activeSessions ==>
                      c.outbox == old(c.outbox) + Delivered(c, [Message("System", username + " left the chat."), Roster()]))
      ensures !serverUp ==>
                && game == old(game) && history == old(history)
                && (forall c :: c in activeSessions ==> c.outbox == old(c.outbox))
    {
      Notify(username + " left the chat.", now);
    }

    /** `player.sendMessage`: a line shown to one player only. */
    method SendToPlayer(to: Auth.Uuid, text: string)
      modifies this`game
      ensures game == old(game) + [GameEvent.Whisper(to, text)]
    {
      game := game + [GameEvent.Whisper(to, text)];
    }

    /** `sendToGame`: the game shows the web message, and the same (username, message) is echoed to the web. */
    method SendToGame(username: string, message: string, now: int)
      modifies this`game, this`history, activeSessions`outbox
      ensures serverUp ==>
                && game == old(game) + [WebChat(username, message)]
                && history == Trimmed(old(history) + [HistoricMessage(now, username, message)], now)
                && (forall c :: c in activeSessions ==> c.outbox == old(c.outbox) + Delivered(c, [Message(username, message)]))
      ensures !serverUp ==>
                && game == old(game) && history == old(history)
                && (forall c :: c in activeSessions ==> c.outbox == old(c.outbox))
    {
      if !serverUp {
        return;
      }
      game := game + [WebChat(username, message)];
      BroadcastToWeb(username, message, now);
    }
  }
}
