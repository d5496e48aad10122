/**
 * What the core sees of the WebSocket layer: a connection context with its
 * attributes and its open state, and the JSON frames sent over it. Every
 * send is an append to the connection's outbox.
 */
module Transport {
  import opened Wrappers
  import Config
  import Auth

  /** The outbound frame kinds, by their `type` field. */
  datatype Frame =
    | Status(authenticated: bool, authMode: Config.AuthMode, username: string,
             favicon: string, defaultSound: string, soundPresets: seq<string>)
    | Message(user: string, message: string)
    | PlayerList(players: seq<string>, webUsers: set<string>)
    | OtpSent
    | AuthSuccess(token: string, username: string)
    | Error(message: string)

  /** A connection context (WsContext): transport state, outbox and the attributes the handlers set. */
  class Conn {
    var open: bool
    /** The close code and reason, once the server closed the connection. */
    var closedWith: Option<(int, string)>
    var outbox: seq<Frame>
    var authenticated: Option<bool>
    var username: Option<string>
    var ip: Option<string>
    var uuid: Option<Auth.Uuid>

    constructor ()
      ensures open && closedWith == None && outbox == []
      ensures authenticated == None && username == None && ip == None && uuid == None
    {
      open := true;
      closedWith := None;
      outbox := [];
      authenticated := None;
      username := None;
      ip := None;
      uuid := None;
    }

    method Send(f: Frame)
      modifies this`outbox
      ensures outbox == old(outbox) + [f]
    {
      outbox := outbox + [f];
    }

    method Close(code: int, reason: string)
      modifies this`open, this`closedWith
      ensures !open && closedWith == Some((code, reason))
    {
      open := false;
      closedWith := Some((code, reason));
    }
  }
}
