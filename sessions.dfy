/**
 * What one message does to the sessions of `conn_info`. No message creates a session; the
 * sessions of other connections are at most taken out of their room (or discarded when a
 * send to them fails); the sender's login fields change only on login, and a session's chat
 * clock only ever moves to the time of an accepted chat.
 */
module Sessions {
  import opened Wrappers
  import opened Strings
  import opened Protocol
  import opened Registry

  /** How a session may change: `mine` for the sender, `login` when it logged in, `clock` the time of an accepted chat. */
  predicate Moved(a: Info, b: Info, mine: bool, login: bool, clock: Option<int>) {
    if mine then
      && (login || (b.authed == a.authed && b.username == a.username && b.role == a.role))
      && (b.lastChat == a.lastChat || Some(b.lastChat) == clock)
    else
      b == a || b == a.(room := None)
  }

  /** Every session of `t` existed in `s` and moved from there as `Moved` allows. */
  ghost predicate Frame(s: State, t: State, ws: ConnId, login: bool, clock: Option<int>) {
    forall c | c in t.info :: c in s.info && Moved(s.info[c], t.info[c], c == ws, login, clock)
  }

  lemma MovedTrans(a: Info, b: Info, c: Info, mine: bool, login: bool, clock: Option<int>)
    requires Moved(a, b, mine, login, clock) && Moved(b, c, mine, login, clock)
    ensures Moved(a, c, mine, login, clock)
  {
  }

  lemma FrameTrans(s: State, t: State, u: State, ws: ConnId, login: bool, clock: Option<int>)
    requires Frame(s, t, ws, login, clock) && Frame(t, u, ws, login, clock)
    ensures Frame(s, u, ws, login, clock)
  {
    forall c | c in u.info
      ensures c in s.info && Moved(s.info[c], u.info[c], c == ws, login, clock)
    {
      MovedTrans(s.info[c], t.info[c], u.info[c], c == ws, login, clock);
    }
  }

  /** Any frame also holds with the login and the chat clock allowed. */
  lemma FrameWeaken(s: State, t: State, ws: ConnId, login: bool, clock: Option<int>)
    requires Frame(s, t, ws, false, None)
    ensures Frame(s, t, ws, login, clock)
  {
  }

  /** Every session of `t` is a session of `s`, unchanged: a step that at most discards sessions. */
  ghost predicate Discards(s: State, t: State) {
    forall c | c in t.info :: c in s.info && t.info[c] == s.info[c]
  }

  /** Every session of `t` is a session of `s`, and all but the sender's are unchanged. */
  ghost predicate OnlySender(s: State, t: State, ws: ConnId) {
    forall c | c in t.info :: c in s.info && (c != ws ==> t.info[c] == s.info[c])
  }

  /** A direct send changes no session, whether or not it fails. */
  lemma SendFrame(s: State, to: ConnId, e: Event, dead: set<ConnId>, ws: ConnId)
    ensures Send(s, to, e, dead).info == s.info
    ensures Frame(s, Send(s, to, e, dead), ws, false, None)
  {
  }

  /** A room broadcast only discards the sessions it fails to reach. */
  lemma BroadcastFrame(s: State, r: string, e: Event, dead: set<ConnId>, ws: ConnId)
    ensures Discards(s, Broadcast(s, r, e, dead))
    ensures Frame(s, Broadcast(s, r, e, dead), ws, false, None)
  {
  }

  /** The room-list broadcast only discards the sessions it fails to reach. */
  lemma BroadcastRoomListFrame(s: State, dead: set<ConnId>, ws: ConnId)
    ensures Discards(s, BroadcastRoomList(s, dead))
    ensures Frame(s, BroadcastRoomList(s, dead), ws, false, None)
  {
  }

  /**
   * `leave_room(ws)` clears the sender's room and nothing else of its session; every other
   * session is discarded or unchanged.
   */
  lemma LeaveRoomFrame(s: State, ws: ConnId, dead: set<ConnId>)
    ensures var t := LeaveRoom(s, ws, dead);
      && OnlySender(s, t, ws)
      && (ws in t.info ==> t.info[ws] == s.info[ws].(room := None))
    ensures Frame(s, LeaveRoom(s, ws, dead), ws, false, None)
  {
    if ws in s.info {
      var i := s.info[ws];
      if Truthy(i.room) && i.room.value in s.rooms && Truthy(i.username) {
        var r := i.room.value;
        var u := i.username.value;
        var s1 := s.(rooms := s.rooms[r := Room(s.rooms[r].users - {u}, s.rooms[r].conns - {ws})],
                     info := s.info[ws := i.(room := None)]);
        var s2 := Broadcast(s1, r, System(LeftRoom(u)), dead);
        BroadcastFrame(s1, r, System(LeftRoom(u)), dead, ws);
        FrameTrans(s, s1, s2, ws, false, None);
        var s3 := if s2.rooms[r].users == {} then DeleteRoom(s2, r) else s2;
        BroadcastRoomListFrame(s3, dead, ws);
        FrameTrans(s, s3, BroadcastRoomList(s3, dead), ws, false, None);
      }
    }
  }

  /** The teardown discards the connection's session and otherwise only discards sessions. */
  lemma DisconnectFrame(s: State, ws: ConnId, dead: set<ConnId>)
    ensures Discards(s, Disconnect(s, ws, dead)) && ws !in Disconnect(s, ws, dead).info
    ensures Frame(s, Disconnect(s, ws, dead), ws, false, None)
  {
    LeaveRoomFrame(s, ws, dead);
    var s1 := LeaveRoom(s, ws, dead);
    var s2 := s1.(clients := s1.clients - {ws}, info := s1.info - {ws});
    BroadcastRoomListFrame(s2, dead, ws);
    FrameTrans(s, s1, s2, ws, false, None);
    FrameTrans(s, s2, BroadcastRoomList(s2, dead), ws, false, None);
  }

  /**
   * Login changes only the sender's login fields: its room and chat clock stay, and every
   * other session is discarded or unchanged.
   */
  lemma LoginFrame(s: State, ws: ConnId, user: Option<string>, pass: Option<string>,
                   account: Option<Account>, dead: set<ConnId>)
    ensures var t := HandleLogin(s, ws, user, pass, account, dead).state;
      && OnlySender(s, t, ws)
      && (ws in t.info ==> t.info[ws].room == s.info[ws].room && t.info[ws].lastChat == s.info[ws].lastChat)
    ensures Frame(s, HandleLogin(s, ws, user, pass, account, dead).state, ws, true, None)
  {
    if ValidateCredentials(Clean(user), OrEmpty(pass)).None? && account.Some? {
      if ws !in s.info {
        DisconnectFrame(s, ws, dead);
        FrameWeaken(s, Disconnect(s, ws, dead), ws, true, None);
      } else {
        var a := account.value;
        var s1 := s.(info := s.info[ws := s.info[ws].(authed := true, username := Some(a.username), role := Some(a.role))]);
        var s2 := Send(s1, ws, LoginOk(a.role), dead);
        BroadcastRoomListFrame(s2, dead, ws);
        FrameWeaken(s2, BroadcastRoomList(s2, dead), ws, true, None);
        FrameTrans(s, s2, BroadcastRoomList(s2, dead), ws, true, None);
      }
    }
  }

  /** Entering a room: the sender may leave its old room and records the new one. */
  lemma EnterFrame(s: State, ws: ConnId, u: string, r: string, dead: set<ConnId>)
    requires ws in s.info
    ensures var s2 := AddMember(LeaveIfSwitching(s, ws, r, dead), r, u, ws);
      Frame(s, s2, ws, false, None) &&
      (ws in s2.info ==> Frame(s, s2.(info := s2.info[ws := s2.info[ws].(room := Some(r))]), ws, false, None))
  {
    LeaveRoomFrame(s, ws, dead);
  }

  lemma CreateRoomFrame(s: State, ws: ConnId, u: string, room: Option<string>, dead: set<ConnId>)
    requires ws in s.info
    ensures Frame(s, HandleCreateRoom(s, ws, u, room, dead).state, ws, false, None)
  {
    var r := Clean(room);
    if RoomMin <= |r| <= RoomMax {
      EnterFrame(s, ws, u, r, dead);
      var s2 := AddMember(LeaveIfSwitching(s, ws, r, dead), r, u, ws);
      if ws !in s2.info {
        DisconnectFrame(s2, ws, dead);
        FrameTrans(s, s2, Disconnect(s2, ws, dead), ws, false, None);
      } else {
        var s3 := s2.(info := s2.info[ws := s2.info[ws].(room := Some(r))]);
        var s4 := Send(s3, ws, RoomJoined(r), dead);
        BroadcastRoomListFrame(s4, dead, ws);
        FrameTrans(s, s4, BroadcastRoomList(s4, dead), ws, false, None);
      }
    }
  }

  lemma JoinRoomFrame(s: State, ws: ConnId, u: string, room: Option<string>, dead: set<ConnId>)
    requires ws in s.info
    ensures Frame(s, HandleJoinRoom(s, ws, u, room, dead).state, ws, false, None)
  {
    var r := Clean(room);
    if r in s.rooms {
      EnterFrame(s, ws, u, r, dead);
      var s2 := AddMember(LeaveIfSwitching(s, ws, r, dead), r, u, ws);
      if ws !in s2.info {
        DisconnectFrame(s2, ws, dead);
        FrameTrans(s, s2, Disconnect(s2, ws, dead), ws, false, None);
      } else {
        var s3 := s2.(info := s2.info[ws := s2.info[ws].(room := Some(r))]);
        var s4 := Send(s3, ws, RoomJoined(r), dead);
        BroadcastFrame(s4, r, System(EnteredRoom(u)), dead, ws);
        FrameTrans(s, s4, Broadcast(s4, r, System(EnteredRoom(u)), dead), ws, false, None);
      }
    }
  }

  /** A chat changes at most the sender's clock, to `now`; every other session is discarded or unchanged. */
  lemma ChatFrame(s: State, ws: ConnId, u: string, room: Option<string>, message: Option<string>,
                  now: int, dead: set<ConnId>)
    requires ws in s.info
    ensures var t := HandleChat(s, ws, u, room, message, now, dead);
      && OnlySender(s, t, ws)
      && (ws in t.info ==> t.info[ws] == s.info[ws] || t.info[ws] == s.info[ws].(lastChat := now))
    ensures Frame(s, HandleChat(s, ws, u, room, message, now, dead), ws, false, Some(now))
  {
    var r := Clean(room);
    var m := Clean(message);
    var i := s.info[ws];
    if Truthy(i.room) && r == i.room.value && ChatMin <= |m| <= ChatMax && now - i.lastChat >= ChatCooldownMs {
      var s1 := s.(info := s.info[ws := i.(lastChat := now)]);
      assert Frame(s, s1, ws, false, Some(now));
      BroadcastFrame(s1, r, ChatLine(u, m), dead, ws);
      FrameWeaken(s1, Broadcast(s1, r, ChatLine(u, m), dead), ws, false, Some(now));
      FrameTrans(s, s1, Broadcast(s1, r, ChatLine(u, m), dead), ws, false, Some(now));
    } else {
      assert HandleChat(s, ws, u, room, message, now, dead).info == s.info;
    }
  }

  lemma CloseRoomFrame(s: State, ws: ConnId, r: string, dead: set<ConnId>)
    ensures Frame(s, AdminCloseRoom(s, ws, r, dead), ws, false, None)
  {
    if IsAdmin(s, ws) && r in s.rooms {
      var s1 := Broadcast(s, r, System(ClosedByAdmin), dead);
      BroadcastFrame(s, r, System(ClosedByAdmin), dead, ws);
      var s3 := DeleteRoom(s1.(info := ClearRooms(s1.info, s1.rooms[r].conns)), r);
      FrameTrans(s, s1, s3, ws, false, None);
      BroadcastRoomListFrame(s3, dead, ws);
      FrameTrans(s, s3, BroadcastRoomList(s3, dead), ws, false, None);
    }
  }

  lemma KickFrame(s: State, ws: ConnId, r: string, u: string, target: Option<ConnId>, dead: set<ConnId>)
    ensures Frame(s, AdminKickUser(s, ws, r, u, target, dead), ws, false, None)
  {
    if IsAdmin(s, ws) && r in s.rooms && target.Some? {
      var s2 := Send(Evict(s, r, u, target.value), target.value, System(RemovedYou), dead);
      var s3 := Broadcast(s2, r, System(RemovedByAdmin(u)), dead);
      BroadcastFrame(s2, r, System(RemovedByAdmin(u)), dead, ws);
      FrameTrans(s, s2, s3, ws, false, None);
      var s4 := if s3.rooms[r].users == {} then DeleteRoom(s3, r) else s3;
      BroadcastRoomListFrame(s4, dead, ws);
      FrameTrans(s, s4, BroadcastRoomList(s4, dead), ws, false, None);
    }
  }

  lemma DispatchFrame(s: State, ws: ConnId, cmd: Command, now: int, dead: set<ConnId>, target: Option<ConnId>)
    requires Inv(s)
    ensures Frame(s, Dispatch(s, ws, cmd, now, dead, target).state, ws, false, if cmd.Chat? then Some(now) else None)
  {
    var clock := if cmd.Chat? then Some(now) else None;
    var t := Dispatch(s, ws, cmd, now, dead, target).state;
    if ws !in s.info {
      DisconnectFrame(s, ws, dead);
    } else if s.info[ws].authed {
      var u := s.info[ws].username.value;
      match cmd
      case CloseRoom(room) => CloseRoomFrame(s, ws, Clean(room), dead);
      case Kick(room, user) => KickFrame(s, ws, Clean(room), Clean(user), target, dead);
      case CreateRoom(room) => CreateRoomFrame(s, ws, u, room, dead);
      case JoinRoom(room) => JoinRoomFrame(s, ws, u, room, dead);
      case Leave => LeaveRoomFrame(s, ws, dead);
      case Chat(room, message) => ChatFrame(s, ws, u, room, message, now, dead);
      case _ =>
    }
    if !cmd.Chat? {
      FrameWeaken(s, t, ws, false, clock);
    }
  }

  /**
   * One message from `ws` at time `now`: no session appears, other connections' sessions
   * at most leave their room, the sender's login fields change only on login, and a chat
   * clock moves only to `now` and only on chat.
   */
  lemma HandleFrame(s: State, ws: ConnId, cmd: Command, now: int, dead: set<ConnId>,
                    created: bool, account: Option<Account>, target: Option<ConnId>)
    requires Inv(s)
    ensures Frame(s, Handle(s, ws, cmd, now, dead, created, account, target).state, ws,
                  cmd.Login?, if cmd.Chat? then Some(now) else None)
  {
    match cmd
    case Login(user, pass) => LoginFrame(s, ws, user, pass, account, dead);
    case Malformed =>
    case Register(_, _) =>
    case _ => DispatchFrame(s, ws, cmd, now, dead, target);
  }

  /** Only a login message logs a session in, renames it or gives it a role. */
  lemma OnlyLoginAuthenticates(s: State, ws: ConnId, cmd: Command, now: int, dead: set<ConnId>,
                               created: bool, account: Option<Account>, target: Option<ConnId>)
    requires Inv(s) && !cmd.Login?
    ensures var t := Handle(s, ws, cmd, now, dead, created, account, target).state;
      forall c | c in t.info ::
        c in s.info && t.info[c].authed == s.info[c].authed &&
        t.info[c].username == s.info[c].username && t.info[c].role == s.info[c].role
  {
    HandleFrame(s, ws, cmd, now, dead, created, account, target);
  }

  /**
   * Whatever the clock says, no message moves a last-chat time backwards: a chat is accepted
   * only once `now` is at least the cooldown past the last one.
   */
  lemma ChatClockNeverBack(s: State, ws: ConnId, cmd: Command, now: int, dead: set<ConnId>,
                           created: bool, account: Option<Account>, target: Option<ConnId>)
    requires Inv(s)
    ensures var t := Handle(s, ws, cmd, now, dead, created, account, target).state;
      forall c | c in t.info :: c in s.info && s.info[c].lastChat <= t.info[c].lastChat
  {
    HandleFrame(s, ws, cmd, now, dead, created, account, target);
  }

  /**
   * With the clock never behind any session's last chat, the last-chat times also never pass
   * `now`: the cooldown is measured from the last accepted chat.
   */
  lemma ChatClockMonotone(s: State, ws: ConnId, cmd: Command, now: int, dead: set<ConnId>,
                          created: bool, account: Option<Account>, target: Option<ConnId>)
    requires Inv(s)
    requires forall c | c in s.info :: s.info[c].lastChat <= now
    ensures var t := Handle(s, ws, cmd, now, dead, created, account, target).state;
      forall c | c in t.info :: c in s.info && s.info[c].lastChat <= t.info[c].lastChat <= now
  {
    HandleFrame(s, ws, cmd, now, dead, created, account, target);
  }
}
