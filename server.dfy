/**
 * The server's registry as the source keeps it: mutable collections updated in place by
 * the handler's command branches, with loops that try every recipient of a broadcast and
 * then discard the failed ones. Every method is proved to have exactly the effect that a
 * function in `Registry` describes, on the value `Snapshot()` of the fields: mostly the
 * function of the same name, `Registry.Send` for `SafeSend`, and `Registry.AddMember` for
 * `SetDefaultAndAdd` and `AddToRoom`. `Prune`, one discard step of the broadcast loops, has
 * no registry counterpart and states the fields it changes.
 */
module Server {
  import opened Wrappers
  import opened Strings
  import opened Protocol
  import opened Registry
  import Invariant

  class Lobby {
    var rooms: map<string, Room>
    var order: seq<string>
    var clients: set<ConnId>
    var info: map<ConnId, Info>
    var log: seq<Outbound>

    function Snapshot(): State
      reads this
    {
      State(rooms, order, clients, info, log)
    }

    ghost predicate Valid()
      reads this
    {
      Inv(Snapshot())
    }

    constructor ()
      ensures Snapshot() == Initial && Valid()
    {
      rooms, order, clients, info, log := map[], [], {}, map[], [];
    }

    /** `safe_send`: true when the message went out. */
    method SafeSend(ws: ConnId, e: Event, dead: set<ConnId>) returns (ok: bool)
      modifies this
      ensures ok <==> ws !in dead
      ensures Snapshot() == Registry.Send(old(Snapshot()), ws, e, dead)
    {
      ok := ws !in dead;
      log := log + [Outbound(if ok then {ws} else {}, e)];
    }

    /** Discards one failed connection from the room `r`, `clients` and `conn_info`. */
    method Prune(r: Option<string>, c: ConnId)
      requires r.Some? ==> r.value in rooms
      modifies this
      ensures rooms == if r.Some? then old(rooms)[r.value := old(rooms)[r.value].(conns := old(rooms)[r.value].conns - {c})]
                       else old(rooms)
      ensures clients == old(clients) - {c} && info == old(info) - {c}
      ensures order == old(order) && log == old(log)
    {
      if r.Some? {
        rooms := rooms[r.value := rooms[r.value].(conns := rooms[r.value].conns - {c})];
      }
      clients := clients - {c};
      info := info - {c};
    }

    method Broadcast(r: string, e: Event, dead: set<ConnId>)
      modifies this
      ensures Snapshot() == Registry.Broadcast(old(Snapshot()), r, e, dead)
    {
      if r !in rooms {
        return;
      }
      var recipients := rooms[r].conns;
      var pending, delivered, failed := recipients, {}, {};
      while pending != {}
        invariant pending <= recipients
        invariant delivered == (recipients - pending) - dead
        invariant failed == (recipients - pending) * dead
        invariant Snapshot() == old(Snapshot())
        decreases pending
      {
        var c :| c in pending;
        if c in dead {
          failed := failed + {c};
        } else {
          delivered := delivered + {c};
        }
        pending := pending - {c};
      }
      log := log + [Outbound(delivered, e)];
      ghost var before := Snapshot();
      var rest := failed;
      ghost var pruned := {};
      assert before.rooms[r].(conns := recipients - pruned) == before.rooms[r];
      while rest != {}
        invariant rest <= failed && pruned == failed - rest
        invariant r in rooms
        invariant rooms == before.rooms[r := before.rooms[r].(conns := recipients - pruned)]
        invariant clients == before.clients - pruned
        invariant info == before.info - pruned
        invariant order == before.order && log == before.log
        decreases rest
      {
        var c :| c in rest;
        assert (recipients - pruned) - {c} == recipients - (pruned + {c});
        Prune(Some(r), c);
        rest, pruned := rest - {c}, pruned + {c};
        assert info == before.info - pruned;
      }
      assert recipients - pruned == recipients - recipients * dead;
    }

    method BroadcastRoomList(dead: set<ConnId>)
      modifies this
      ensures Snapshot() == Registry.BroadcastRoomList(old(Snapshot()), dead)
    {
      var recipients := clients;
      var pending, delivered, failed := recipients, {}, {};
      while pending != {}
        invariant pending <= recipients
        invariant delivered == (recipients - pending) - dead
        invariant failed == (recipients - pending) * dead
        invariant Snapshot() == old(Snapshot())
        decreases pending
      {
        var c :| c in pending;
        if c in dead {
          failed := failed + {c};
        } else {
          delivered := delivered + {c};
        }
        pending := pending - {c};
      }
      log := log + [Outbound(delivered, RoomList(order))];
      ghost var before := Snapshot();
      var rest := failed;
      ghost var pruned := {};
      while rest != {}
        invariant rest <= failed && pruned == failed - rest
        invariant clients == before.clients - pruned
        invariant info == before.info - pruned
        invariant rooms == before.rooms && order == before.order && log == before.log
        decreases rest
      {
        var c :| c in rest;
        Prune(None, c);
        rest, pruned := rest - {c}, pruned + {c};
        assert info == before.info - pruned;
      }
    }

    method DeleteRoom(r: string)
      modifies this
      ensures Snapshot() == Registry.DeleteRoom(old(Snapshot()), r)
    {
      rooms := rooms - {r};
      order := Without(order, r);
    }

    method LeaveRoom(ws: ConnId, dead: set<ConnId>)
      modifies this
      ensures Snapshot() == Registry.LeaveRoom(old(Snapshot()), ws, dead)
    {
      if ws !in info {
        return;
      }
      var roomName := info[ws].room;
      var username := info[ws].username;
      if !Truthy(roomName) || roomName.value !in rooms || !Truthy(username) {
        info := info[ws := info[ws].(room := None)];
        return;
      }
      var r, u := roomName.value, username.value;
      rooms := rooms[r := rooms[r].(users := rooms[r].users - {u})];
      rooms := rooms[r := rooms[r].(conns := rooms[r].conns - {ws})];
      info := info[ws := info[ws].(room := None)];
      Broadcast(r, System(LeftRoom(u)), dead);
      if rooms[r].users == {} {
        DeleteRoom(r);
      }
      BroadcastRoomList(dead);
    }

    /** A new connection is accepted. */
    method Connect(ws: ConnId)
      modifies this
      ensures Snapshot() == Registry.Connect(old(Snapshot()), ws)
      ensures old(Valid()) ==> Valid()
    {
      clients := clients + {ws};
      info := info[ws := FreshInfo];
    }

    /** The handler's `finally` block. */
    method Disconnect(ws: ConnId, dead: set<ConnId>)
      modifies this
      ensures Snapshot() == Registry.Disconnect(old(Snapshot()), ws, dead)
      ensures old(Valid()) ==> Valid()
    {
      if Valid() {
        Invariant.DisconnectKeepsInv(Snapshot(), ws, dead);
      }
      LeaveRoom(ws, dead);
      clients := clients - {ws};
      info := info - {ws};
      BroadcastRoomList(dead);
    }

    method HandleRegister(ws: ConnId, user: Option<string>, pass: Option<string>, created: bool, dead: set<ConnId>)
      modifies this
      ensures Snapshot() == Registry.HandleRegister(old(Snapshot()), ws, user, pass, created, dead)
    {
      var username := Clean(user);
      var password := OrEmpty(pass);
      var err := ValidateCredentials(username, password);
      if err.Some? {
        var _ := SafeSend(ws, Error(err.value), dead);
      } else if created {
        var _ := SafeSend(ws, RegisterOk, dead);
      } else {
        var _ := SafeSend(ws, Error(AccountNotCreated), dead);
      }
    }

    method HandleLogin(ws: ConnId, user: Option<string>, pass: Option<string>, account: Option<Account>,
                       dead: set<ConnId>) returns (alive: bool)
      modifies this
      ensures Step(Snapshot(), alive) == Registry.HandleLogin(old(Snapshot()), ws, user, pass, account, dead)
    {
      var username := Clean(user);
      var password := OrEmpty(pass);
      var err := ValidateCredentials(username, password);
      if err.Some? {
        var _ := SafeSend(ws, Error(err.value), dead);
        return true;
      }
      if account.None? {
        var _ := SafeSend(ws, Error(InvalidLogin), dead);
        return true;
      }
      if ws !in info {
        Disconnect(ws, dead);
        return false;
      }
      var a := account.value;
      info := info[ws := info[ws].(authed := true, username := Some(a.username), role := Some(a.role))];
      var _ := SafeSend(ws, LoginOk(a.role), dead);
      BroadcastRoomList(dead);
      return true;
    }

    /** `rooms.setdefault(r, ...)`, then the username and the connection join the room. */
    method SetDefaultAndAdd(r: string, u: string, ws: ConnId)
      modifies this
      ensures Snapshot() == Registry.AddMember(old(Snapshot()), r, u, ws)
    {
      if r !in rooms {
        rooms := rooms[r := Room({}, {})];
        order := order + [r];
      }
      rooms := rooms[r := rooms[r].(users := rooms[r].users + {u})];
      rooms := rooms[r := rooms[r].(conns := rooms[r].conns + {ws})];
    }

    /** The username and the connection join the existing room `r`. */
    method AddToRoom(r: string, u: string, ws: ConnId)
      requires r in rooms
      modifies this
      ensures Snapshot() == Registry.AddMember(old(Snapshot()), r, u, ws)
    {
      rooms := rooms[r := rooms[r].(users := rooms[r].users + {u})];
      rooms := rooms[r := rooms[r].(conns := rooms[r].conns + {ws})];
    }

    method HandleCreateRoom(ws: ConnId, u: string, room: Option<string>, dead: set<ConnId>) returns (alive: bool)
      requires ws in info
      modifies this
      ensures Step(Snapshot(), alive) == Registry.HandleCreateRoom(old(Snapshot()), ws, u, room, dead)
    {
      var r := Clean(room);
      var err := ValidateLen(RoomField, r, RoomMin, RoomMax);
      if err.Some? {
        var _ := SafeSend(ws, Error(err.value), dead);
        return true;
      }
      ghost var s0 := Snapshot();
      if Truthy(info[ws].room) && info[ws].room.value != r {
        LeaveRoom(ws, dead);
      }
      ghost var s1 := Snapshot();
      assert s1 == Registry.LeaveIfSwitching(s0, ws, r, dead);
      SetDefaultAndAdd(r, u, ws);
      if ws !in info {
        Disconnect(ws, dead);
        return false;
      }
      info := info[ws := info[ws].(room := Some(r))];
      var _ := SafeSend(ws, RoomJoined(r), dead);
      BroadcastRoomList(dead);
      return true;
    }

    method HandleJoinRoom(ws: ConnId, u: string, room: Option<string>, dead: set<ConnId>) returns (alive: bool)
      requires ws in info
      modifies this
      ensures Step(Snapshot(), alive) == Registry.HandleJoinRoom(old(Snapshot()), ws, u, room, dead)
    {
      var r := Clean(room);
      if r !in rooms {
        var _ := SafeSend(ws, Error(NoSuchRoom), dead);
        return true;
      }
      ghost var s0 := Snapshot();
      if Truthy(info[ws].room) && info[ws].room.value != r {
        Invariant.LeaveRoomKeepsOtherRooms(Snapshot(), ws, dead);
        LeaveRoom(ws, dead);
      }
      ghost var s1 := Snapshot();
      assert s1 == Registry.LeaveIfSwitching(s0, ws, r, dead);
      AddToRoom(r, u, ws);
      if ws !in info {
        Disconnect(ws, dead);
        return false;
      }
      info := info[ws := info[ws].(room := Some(r))];
      var _ := SafeSend(ws, RoomJoined(r), dead);
      Broadcast(r, System(EnteredRoom(u)), dead);
      return true;
    }

    method HandleChat(ws: ConnId, u: string, room: Option<string>, message: Option<string>, now: int,
                      dead: set<ConnId>)
      requires ws in info
      modifies this
      ensures Snapshot() == Registry.HandleChat(old(Snapshot()), ws, u, room, message, now, dead)
    {
      var r := Clean(room);
      var m := Clean(message);
      if !Truthy(info[ws].room) {
        var _ := SafeSend(ws, Error(NotInARoom), dead);
        return;
      }
      if r != info[ws].room.value {
        var _ := SafeSend(ws, Error(NotInThatRoom), dead);
        return;
      }
      var err := ValidateLen(MessageField, m, ChatMin, ChatMax);
      if err.Some? {
        var _ := SafeSend(ws, Error(err.value), dead);
        return;
      }
      if now - info[ws].lastChat < ChatCooldownMs {
        var _ := SafeSend(ws, Error(TooFast), dead);
        return;
      }
      info := info[ws := info[ws].(lastChat := now)];
      Broadcast(r, ChatLine(u, m), dead);
    }

    method AdminListRooms(ws: ConnId, dead: set<ConnId>)
      requires forall k | k in order :: k in rooms
      modifies this
      ensures Snapshot() == Registry.AdminListRooms(old(Snapshot()), ws, dead)
    {
      if !IsAdmin(Snapshot(), ws) {
        var _ := SafeSend(ws, Error(NoPermission), dead);
        return;
      }
      var payload := [];
      var i := 0;
      while i < |order|
        invariant 0 <= i <= |order| && |payload| == i
        invariant forall k | k in order :: k in rooms
        invariant forall j | 0 <= j < i :: payload[j] == RoomEntry(order[j], SortedOf(rooms[order[j]].users))
        invariant Snapshot() == old(Snapshot())
      {
        var names := SortNames(rooms[order[i]].users);
        payload := payload + [RoomEntry(order[i], names)];
        i := i + 1;
      }
      assert payload == RoomEntries(rooms, order);
      var _ := SafeSend(ws, AdminRooms(payload), dead);
    }

    method AdminCloseRoom(ws: ConnId, r: string, dead: set<ConnId>)
      modifies this
      ensures Snapshot() == Registry.AdminCloseRoom(old(Snapshot()), ws, r, dead)
    {
      if !IsAdmin(Snapshot(), ws) {
        var _ := SafeSend(ws, Error(NoPermission), dead);
        return;
      }
      if r !in rooms {
        var _ := SafeSend(ws, Error(NoSuchRoom), dead);
        return;
      }
      Broadcast(r, System(ClosedByAdmin), dead);
      var occupants := rooms[r].conns;
      var pending := occupants;
      ghost var before := Snapshot();
      while pending != {}
        invariant pending <= occupants
        invariant info == ClearRooms(before.info, occupants - pending)
        invariant rooms == before.rooms && order == before.order && clients == before.clients && log == before.log
        decreases pending
      {
        var c :| c in pending;
        if c in info {
          info := info[c := info[c].(room := None)];
        }
        pending := pending - {c};
      }
      DeleteRoom(r);
      BroadcastRoomList(dead);
      var _ := SafeSend(ws, AdminOk(RoomClosed(r)), dead);
    }

    /** Takes the username and the connection `t` out of room `r` and clears `t`'s room. */
    method Evict(r: string, u: string, t: ConnId)
      requires r in rooms
      modifies this
      ensures Snapshot() == Registry.Evict(old(Snapshot()), r, u, t)
    {
      rooms := rooms[r := rooms[r].(users := rooms[r].users - {u})];
      rooms := rooms[r := rooms[r].(conns := rooms[r].conns - {t})];
      if t in info {
        info := info[t := info[t].(room := None)];
      }
    }

    /** Returns the connection the search found, if any. */
    method AdminKickUser(ws: ConnId, r: string, u: string, dead: set<ConnId>) returns (target: Option<ConnId>)
      modifies this
      ensures IsAdmin(old(Snapshot()), ws) ==> KickChoice(old(Snapshot()), r, u, target)
      ensures Snapshot() == Registry.AdminKickUser(old(Snapshot()), ws, r, u, target, dead)
    {
      target := None;
      if !IsAdmin(Snapshot(), ws) {
        var _ := SafeSend(ws, Error(NoPermission), dead);
        return;
      }
      if r !in rooms {
        var _ := SafeSend(ws, Error(NoSuchRoom), dead);
        return;
      }
      var candidates := rooms[r].conns;
      var pending := candidates;
      while pending != {} && target.None?
        invariant pending <= candidates
        invariant target.None? ==> forall c | c in candidates - pending :: !IsKickTarget(Snapshot(), r, u, c)
        invariant target.Some? ==> IsKickTarget(Snapshot(), r, u, target.value)
        invariant Snapshot() == old(Snapshot())
        decreases pending
      {
        var c :| c in pending;
        if c in info && info[c].username == Some(u) {
          target := Some(c);
        }
        pending := pending - {c};
      }
      if target.None? {
        var _ := SafeSend(ws, Error(UserNotInRoom), dead);
        return;
      }
      var t := target.value;
      Evict(r, u, t);
      var _ := SafeSend(t, System(RemovedYou), dead);
      Broadcast(r, System(RemovedByAdmin(u)), dead);
      ghost var s3 := Snapshot();
      if rooms[r].users == {} {
        DeleteRoom(r);
      }
      assert Snapshot() == if s3.rooms[r].users == {} then Registry.DeleteRoom(s3, r) else s3;
      BroadcastRoomList(dead);
      var _ := SafeSend(ws, AdminOk(UserKicked(u, r)), dead);
    }

    /** The handler's loop body after register and login: the login gate, then the command branches. */
    method Dispatch(ws: ConnId, cmd: Command, now: int, dead: set<ConnId>) returns (alive: bool, target: Option<ConnId>)
      requires Valid()
      modifies this
      ensures cmd.Kick? && IsAdmin(old(Snapshot()), ws) ==>
        KickChoice(old(Snapshot()), Clean(cmd.room), Clean(cmd.user), target)
      ensures Step(Snapshot(), alive) == Registry.Dispatch(old(Snapshot()), ws, cmd, now, dead, target)
    {
      alive, target := true, None;
      if ws !in info {
        Disconnect(ws, dead);
        return false, None;
      }
      if !info[ws].authed {
        var _ := SafeSend(ws, Error(LoginFirst), dead);
        return;
      }
      alive, target := Execute(ws, info[ws].username.value, cmd, now, dead);
    }

    /** The command branches, for the logged-in session of `ws` under username `u`. */
    method Execute(ws: ConnId, u: string, cmd: Command, now: int, dead: set<ConnId>)
      returns (alive: bool, target: Option<ConnId>)
      requires Valid() && ws in info
      modifies this
      ensures cmd.Kick? && IsAdmin(old(Snapshot()), ws) ==>
        KickChoice(old(Snapshot()), Clean(cmd.room), Clean(cmd.user), target)
      ensures Step(Snapshot(), alive) == Registry.Execute(old(Snapshot()), ws, u, cmd, now, dead, target)
    {
      alive, target := true, None;
      match cmd
      case ListRooms => AdminListRooms(ws, dead);
      case CloseRoom(room) => AdminCloseRoom(ws, Clean(room), dead);
      case Kick(room, user) => target := AdminKickUser(ws, Clean(room), Clean(user), dead);
      case CreateRoom(room) => alive := HandleCreateRoom(ws, u, room, dead);
      case JoinRoom(room) => alive := HandleJoinRoom(ws, u, room, dead);
      case Leave => LeaveRoom(ws, dead);
      case Chat(room, message) => HandleChat(ws, u, room, message, now, dead);
      case _ => var _ := SafeSend(ws, Error(UnknownType), dead);
    }

    /**
     * One message from connection `ws`, handled at time `now`: `created` and `account` are the
     * credential store's answers, `alive` says whether the handler goes on, and `target` is the
     * connection a kick found. The registry invariant is kept.
     */
    method Handle(ws: ConnId, cmd: Command, now: int, dead: set<ConnId>, created: bool, account: Option<Account>)
      returns (alive: bool, target: Option<ConnId>)
      requires Valid()
      modifies this
      ensures Valid()
      ensures cmd.Kick? && IsAdmin(old(Snapshot()), ws) ==>
        KickChoice(old(Snapshot()), Clean(cmd.room), Clean(cmd.user), target)
      ensures Step(Snapshot(), alive) == Registry.Handle(old(Snapshot()), ws, cmd, now, dead, created, account, target)
    {
      ghost var s0 := Snapshot();
      alive, target := true, None;
      match cmd {
        case Malformed => var _ := SafeSend(ws, Error(InvalidJson), dead);
        case Register(user, pass) => HandleRegister(ws, user, pass, created, dead);
        case Login(user, pass) => alive := HandleLogin(ws, user, pass, account, dead);
        case _ => alive, target := Dispatch(ws, cmd, now, dead);
      }
      Invariant.HandleKeepsInv(s0, ws, cmd, now, dead, created, account, target);
    }
  }
}
