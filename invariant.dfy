/**
 * The registry invariant `Inv` and its preservation: every operation of the server, and
 * so every message a connection sends, keeps it.
 */
module Invariant {
  import opened Wrappers
  import opened Strings
  import opened Protocol
  import opened Registry

  // ---------------------------------------------------------------------------
  // The invariant
  // ---------------------------------------------------------------------------

  /** `is_admin` holds only of a logged-in session, since only login sets a role. */
  lemma AdminIsLoggedIn(s: State, ws: ConnId)
    requires Inv(s) && IsAdmin(s, ws)
    ensures s.info[ws].authed
  {
  }

  /** Broadcasting prunes sessions and room connections together, and touches no username. */
  lemma BroadcastKeepsInv(s: State, r: string, e: Event, dead: set<ConnId>)
    requires SessionsOk(s) && RoomsOk(s)
    ensures var t := Broadcast(s, r, e, dead);
      SessionsOk(t) && RoomsOk(t) && (NoEmptyRoom(s) ==> NoEmptyRoom(t))
  {
  }

  lemma BroadcastRoomListKeepsInv(s: State, dead: set<ConnId>)
    requires SessionsOk(s) && RoomsOk(s)
    ensures var t := BroadcastRoomList(s, dead);
      SessionsOk(t) && RoomsOk(t) && (NoEmptyRoom(s) ==> NoEmptyRoom(t))
  {
  }

  lemma DeleteRoomKeepsInv(s: State, r: string)
    requires SessionsOk(s) && RoomsOk(s)
    ensures var t := DeleteRoom(s, r);
      SessionsOk(t) && RoomsOk(t) && r !in t.rooms &&
      (forall k | k in t.rooms :: k in s.rooms && t.rooms[k] == s.rooms[k])
  {
  }

  /** `leave_room` keeps the invariant: the room it empties of usernames is the one it deletes. */
  lemma LeaveRoomKeepsInv(s: State, ws: ConnId, dead: set<ConnId>)
    requires Inv(s)
    ensures Inv(LeaveRoom(s, ws, dead))
  {
    if ws in s.info {
      var i := s.info[ws];
      if Truthy(i.room) && i.room.value in s.rooms && Truthy(i.username) {
        var r := i.room.value;
        var u := i.username.value;
        var s1 := s.(rooms := s.rooms[r := Room(s.rooms[r].users - {u}, s.rooms[r].conns - {ws})],
                     info := s.info[ws := i.(room := None)]);
        assert SessionsOk(s1) && RoomsOk(s1);
        BroadcastKeepsInv(s1, r, System(LeftRoom(u)), dead);
        var s2 := Broadcast(s1, r, System(LeftRoom(u)), dead);
        var s3 := if s2.rooms[r].users == {} then DeleteRoom(s2, r) else s2;
        DeleteRoomKeepsInv(s2, r);
        assert NoEmptyRoom(s3);
        BroadcastRoomListKeepsInv(s3, dead);
      }
    }
  }

  /** `leave_room` adds no room and changes no room other than the one the connection was recorded in. */
  lemma LeaveRoomKeepsOtherRooms(s: State, ws: ConnId, dead: set<ConnId>)
    ensures var t := LeaveRoom(s, ws, dead);
      && t.rooms.Keys <= s.rooms.Keys
      && forall k | k in s.rooms && (ws in s.info ==> s.info[ws].room != Some(k)) ::
           k in t.rooms && t.rooms[k] == s.rooms[k]
  {
  }

  lemma DisconnectKeepsInv(s: State, ws: ConnId, dead: set<ConnId>)
    requires Inv(s)
    ensures Inv(Disconnect(s, ws, dead))
  {
    LeaveRoomKeepsInv(s, ws, dead);
    var s1 := LeaveRoom(s, ws, dead);
    BroadcastRoomListKeepsInv(s1.(clients := s1.clients - {ws}, info := s1.info - {ws}), dead);
  }

  lemma ConnectKeepsInv(s: State, ws: ConnId)
    requires Inv(s)
    ensures Inv(Connect(s, ws))
  {
  }

  /** Adding a member keeps the invariant when a new room's name is valid. */
  lemma AddMemberKeepsInv(s: State, r: string, u: string, ws: ConnId)
    requires Inv(s) && ValidRoomName(r)
    ensures Inv(AddMember(s, r, u, ws))
  {
    var t := AddMember(s, r, u, ws);
    if r !in s.rooms {
      assert r !in s.order;
      forall i, j | 0 <= i < j < |t.order|
        ensures t.order[i] != t.order[j]
      {
        if j == |s.order| {
          assert t.order[i] == s.order[i];
        }
      }
    }
  }

  lemma LoginKeepsInv(s: State, ws: ConnId, user: Option<string>, pass: Option<string>,
                      account: Option<Account>, dead: set<ConnId>)
    requires Inv(s)
    ensures Inv(HandleLogin(s, ws, user, pass, account, dead).state)
  {
    if ValidateCredentials(Clean(user), OrEmpty(pass)).None? && account.Some? {
      if ws !in s.info {
        DisconnectKeepsInv(s, ws, dead);
      } else {
        var a := account.value;
        var s1 := s.(info := s.info[ws := s.info[ws].(authed := true, username := Some(a.username), role := Some(a.role))]);
        BroadcastRoomListKeepsInv(Send(s1, ws, LoginOk(a.role), dead), dead);
      }
    }
  }

  lemma SwitchKeepsInv(s: State, ws: ConnId, r: string, dead: set<ConnId>)
    requires Inv(s) && ws in s.info
    ensures Inv(LeaveIfSwitching(s, ws, r, dead))
  {
    LeaveRoomKeepsInv(s, ws, dead);
  }

  /** Recording the room a connection entered keeps the invariant. */
  lemma SetRoomKeepsInv(s: State, ws: ConnId, r: string)
    requires Inv(s) && ws in s.info
    ensures Inv(s.(info := s.info[ws := s.info[ws].(room := Some(r))]))
  {
  }

  lemma CreateRoomKeepsInv(s: State, ws: ConnId, u: string, room: Option<string>, dead: set<ConnId>)
    requires Inv(s) && ws in s.info
    ensures Inv(HandleCreateRoom(s, ws, u, room, dead).state)
  {
    var r := Clean(room);
    if RoomMin <= |r| <= RoomMax {
      var s1 := LeaveIfSwitching(s, ws, r, dead);
      SwitchKeepsInv(s, ws, r, dead);
      AddMemberKeepsInv(s1, r, u, ws);
      var s2 := AddMember(s1, r, u, ws);
      if ws !in s2.info {
        DisconnectKeepsInv(s2, ws, dead);
      } else {
        SetRoomKeepsInv(s2, ws, r);
        var s3 := s2.(info := s2.info[ws := s2.info[ws].(room := Some(r))]);
        BroadcastRoomListKeepsInv(Send(s3, ws, RoomJoined(r), dead), dead);
      }
    } else {
      assert HandleCreateRoom(s, ws, u, room, dead).state.(log := s.log) == s;
    }
  }

  lemma JoinRoomKeepsInv(s: State, ws: ConnId, u: string, room: Option<string>, dead: set<ConnId>)
    requires Inv(s) && ws in s.info
    ensures Inv(HandleJoinRoom(s, ws, u, room, dead).state)
  {
    var r := Clean(room);
    if r in s.rooms {
      var s1 := LeaveIfSwitching(s, ws, r, dead);
      SwitchKeepsInv(s, ws, r, dead);
      LeaveRoomKeepsOtherRooms(s, ws, dead);
      assert ValidRoomName(r);
      AddMemberKeepsInv(s1, r, u, ws);
      var s2 := AddMember(s1, r, u, ws);
      if ws !in s2.info {
        DisconnectKeepsInv(s2, ws, dead);
      } else {
        SetRoomKeepsInv(s2, ws, r);
        var s3 := s2.(info := s2.info[ws := s2.info[ws].(room := Some(r))]);
        BroadcastKeepsInv(Send(s3, ws, RoomJoined(r), dead), r, System(EnteredRoom(u)), dead);
      }
    }
  }

  lemma ChatKeepsInv(s: State, ws: ConnId, u: string, room: Option<string>, message: Option<string>,
                     now: int, dead: set<ConnId>)
    requires Inv(s) && ws in s.info
    ensures Inv(HandleChat(s, ws, u, room, message, now, dead))
  {
    var r := Clean(room);
    var m := Clean(message);
    var i := s.info[ws];
    if Truthy(i.room) && r == i.room.value && ChatMin <= |m| <= ChatMax && now - i.lastChat >= ChatCooldownMs {
      var s1 := s.(info := s.info[ws := i.(lastChat := now)]);
      assert Inv(s1);
      ChatBroadcasts(s, ws, u, room, message, now, dead);
      BroadcastKeepsInv(s1, r, ChatLine(u, m), dead);
    } else {
      assert HandleChat(s, ws, u, room, message, now, dead).(log := s.log) == s;
    }
  }

  lemma CloseRoomKeepsInv(s: State, ws: ConnId, r: string, dead: set<ConnId>)
    requires Inv(s)
    ensures Inv(AdminCloseRoom(s, ws, r, dead))
  {
    if IsAdmin(s, ws) && r in s.rooms {
      BroadcastKeepsInv(s, r, System(ClosedByAdmin), dead);
      var s1 := Broadcast(s, r, System(ClosedByAdmin), dead);
      var s2 := s1.(info := ClearRooms(s1.info, s1.rooms[r].conns));
      assert SessionsOk(s2);
      DeleteRoomKeepsInv(s2, r);
      BroadcastRoomListKeepsInv(DeleteRoom(s2, r), dead);
    }
  }

  lemma KickKeepsInv(s: State, ws: ConnId, r: string, u: string, target: Option<ConnId>, dead: set<ConnId>)
    requires Inv(s)
    ensures Inv(AdminKickUser(s, ws, r, u, target, dead))
  {
    if IsAdmin(s, ws) && r in s.rooms && target.Some? {
      var t := target.value;
      var s1 := Evict(s, r, u, t);
      assert SessionsOk(s1) && RoomsOk(s1);
      var s2 := Send(s1, t, System(RemovedYou), dead);
      BroadcastKeepsInv(s2, r, System(RemovedByAdmin(u)), dead);
      var s3 := Broadcast(s2, r, System(RemovedByAdmin(u)), dead);
      DeleteRoomKeepsInv(s3, r);
      var s4 := if s3.rooms[r].users == {} then DeleteRoom(s3, r) else s3;
      assert NoEmptyRoom(s4);
      BroadcastRoomListKeepsInv(s4, dead);
    }
  }

  lemma DispatchKeepsInv(s: State, ws: ConnId, cmd: Command, now: int, dead: set<ConnId>, target: Option<ConnId>)
    requires Inv(s)
    ensures Inv(Dispatch(s, ws, cmd, now, dead, target).state)
  {
    if ws !in s.info {
      DisconnectKeepsInv(s, ws, dead);
    } else if s.info[ws].authed {
      var u := s.info[ws].username.value;
      match cmd
      case CloseRoom(room) => CloseRoomKeepsInv(s, ws, Clean(room), dead);
      case Kick(room, user) => KickKeepsInv(s, ws, Clean(room), Clean(user), target, dead);
      case CreateRoom(room) => CreateRoomKeepsInv(s, ws, u, room, dead);
      case JoinRoom(room) => JoinRoomKeepsInv(s, ws, u, room, dead);
      case Leave => LeaveRoomKeepsInv(s, ws, dead);
      case Chat(room, message) => ChatKeepsInv(s, ws, u, room, message, now, dead);
      case _ =>
    }
  }

  /** Every message a connection sends keeps the registry invariant. */
  lemma HandleKeepsInv(s: State, ws: ConnId, cmd: Command, now: int, dead: set<ConnId>,
                       created: bool, account: Option<Account>, target: Option<ConnId>)
    requires Inv(s)
    ensures Inv(Handle(s, ws, cmd, now, dead, created, account, target).state)
  {
    match cmd
    case Login(user, pass) => LoginKeepsInv(s, ws, user, pass, account, dead);
    case Malformed =>
    case Register(_, _) =>
    case _ => DispatchKeepsInv(s, ws, cmd, now, dead, target);
  }
}
