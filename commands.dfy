/**
 * What each command of the handler does: the replies it sends, the rooms and sessions it
 * changes, and the rejections that change nothing but the outbound log.
 */
module Commands {
  import opened Wrappers
  import opened Strings
  import opened Protocol
  import opened Registry
  import Invariant

  /** `t` is `s` with one more send attempt, of `e` to `ws`, and no other change. */
  ghost predicate RepliedOnly(s: State, t: State, ws: ConnId, e: Event, dead: set<ConnId>) {
    && t.rooms == s.rooms && t.order == s.order && t.clients == s.clients && t.info == s.info
    && t.log == s.log + [Outbound(if ws in dead then {} else {ws}, e)]
  }

  // ---------------------------------------------------------------------------
  // Rejections
  // ---------------------------------------------------------------------------

  /** A payload that is not JSON gets the invalid-JSON error and the loop goes on. */
  lemma MalformedRejected(s: State, ws: ConnId, now: int, dead: set<ConnId>,
                          created: bool, account: Option<Account>, target: Option<ConnId>)
    requires Inv(s)
    ensures var t := Handle(s, ws, Malformed, now, dead, created, account, target);
      t.alive && RepliedOnly(s, t.state, ws, Error(InvalidJson), dead)
  {
  }

  /** Before login, every command except register and login gets the login-first error and changes nothing else. */
  lemma LoginRequired(s: State, ws: ConnId, cmd: Command, now: int, dead: set<ConnId>,
                      created: bool, account: Option<Account>, target: Option<ConnId>)
    requires Inv(s) && ws in s.info && !s.info[ws].authed
    requires !cmd.Register? && !cmd.Login? && !cmd.Malformed?
    ensures var t := Handle(s, ws, cmd, now, dead, created, account, target);
      t.alive && RepliedOnly(s, t.state, ws, Error(LoginFirst), dead)
  {
  }

  /** A logged-in session sending an unknown type gets the unknown-type error. */
  lemma UnknownRejected(s: State, ws: ConnId, now: int, dead: set<ConnId>,
                        created: bool, account: Option<Account>, target: Option<ConnId>)
    requires Inv(s) && ws in s.info && s.info[ws].authed
    ensures var t := Handle(s, ws, Unknown, now, dead, created, account, target);
      t.alive && RepliedOnly(s, t.state, ws, Error(UnknownType), dead)
  {
  }

  /**
   * A session that was discarded by an earlier failed send raises at the login gate: the
   * handler ends, and its `finally` only refreshes the room list, since the session is gone.
   */
  lemma DiscardedSessionEnds(s: State, ws: ConnId, cmd: Command, now: int, dead: set<ConnId>,
                             created: bool, account: Option<Account>, target: Option<ConnId>)
    requires Inv(s) && ws !in s.info
    requires !cmd.Register? && !cmd.Login? && !cmd.Malformed?
    ensures var t := Handle(s, ws, cmd, now, dead, created, account, target);
      !t.alive && t.state.rooms == s.rooms && t.state.order == s.order &&
      t.state.clients == s.clients - dead && t.state.info == s.info - dead &&
      t.state.log == s.log + [Outbound(s.clients - dead, RoomList(s.order))]
  {
    assert s.clients - {ws} == s.clients && s.info - {ws} == s.info;
  }

  // ---------------------------------------------------------------------------
  // Register and login
  // ---------------------------------------------------------------------------

  /**
   * Registering never changes the registry: it answers once, with `register_ok` exactly when
   * both lengths are valid and the account was created, and with the username's length
   * error whenever that length is out of bounds.
   */
  lemma RegisterRepliesOnce(s: State, ws: ConnId, user: Option<string>, pass: Option<string>,
                            now: int, dead: set<ConnId>, created: bool, account: Option<Account>,
                            target: Option<ConnId>)
    requires Inv(s)
    ensures var t := Handle(s, ws, Register(user, pass), now, dead, created, account, target);
      t.alive && |t.state.log| == |s.log| + 1 &&
      var e := t.state.log[|s.log|].event;
      && RepliedOnly(s, t.state, ws, e, dead)
      && (e == RegisterOk <==> ValidateCredentials(Clean(user), OrEmpty(pass)).None? && created)
      && (!(UsernameMin <= |Clean(user)| <= UsernameMax) ==> e == Error(LengthError(UserField, UsernameMin, UsernameMax)))
  {
  }

  /**
   * A login with valid lengths and a matching account sets the session's `authed`,
   * `username` and `role` from the stored account, answers `login_ok` with the role, and
   * sends the room list to every client.
   */
  lemma LoginSucceeds(s: State, ws: ConnId, user: Option<string>, pass: Option<string>, a: Account,
                      now: int, dead: set<ConnId>, created: bool, target: Option<ConnId>)
    requires Inv(s) && ws in s.info
    requires ValidateCredentials(Clean(user), OrEmpty(pass)).None?
    ensures var t := Handle(s, ws, Login(user, pass), now, dead, created, Some(a), target);
      && t.alive
      && t.state.rooms == s.rooms
      && (ws in t.state.info <==> ws !in dead)
      && (ws in t.state.info ==>
            t.state.info[ws] == s.info[ws].(authed := true, username := Some(a.username), role := Some(a.role)))
      && t.state.log == s.log + [Outbound(if ws in dead then {} else {ws}, LoginOk(a.role)),
                                 Outbound(s.clients - dead, RoomList(s.order))]
  {
  }

  /**
   * A login from a connection whose session was discarded raises exactly when the lengths
   * and the credentials pass, at the first write to its session; the handler then ends.
   */
  lemma LoginFromDiscardedEnds(s: State, ws: ConnId, user: Option<string>, pass: Option<string>,
                               now: int, dead: set<ConnId>, created: bool, account: Option<Account>,
                               target: Option<ConnId>)
    requires Inv(s) && ws !in s.info
    ensures !Handle(s, ws, Login(user, pass), now, dead, created, account, target).alive <==>
      ValidateCredentials(Clean(user), OrEmpty(pass)).None? && account.Some?
  {
  }

  /** A login with valid lengths and no matching account is refused and changes nothing else. */
  lemma LoginRefused(s: State, ws: ConnId, user: Option<string>, pass: Option<string>,
                     now: int, dead: set<ConnId>, created: bool, target: Option<ConnId>)
    requires Inv(s)
    requires ValidateCredentials(Clean(user), OrEmpty(pass)).None?
    ensures var t := Handle(s, ws, Login(user, pass), now, dead, created, None, target);
      t.alive && RepliedOnly(s, t.state, ws, Error(InvalidLogin), dead)
  {
  }

  // ---------------------------------------------------------------------------
  // Admin commands
  // ---------------------------------------------------------------------------

  /** The three admin commands from a logged-in non-admin get the same refusal and change nothing else. */
  lemma NonAdminRefused(s: State, ws: ConnId, cmd: Command, now: int, dead: set<ConnId>,
                        created: bool, account: Option<Account>, target: Option<ConnId>)
    requires Inv(s) && ws in s.info && s.info[ws].authed && !IsAdmin(s, ws)
    requires cmd.ListRooms? || cmd.CloseRoom? || cmd.Kick?
    ensures var t := Handle(s, ws, cmd, now, dead, created, account, target);
      t.alive && RepliedOnly(s, t.state, ws, Error(NoPermission), dead)
  {
  }

  /** Closing or kicking in a room that does not exist is refused and changes nothing else. */
  lemma AdminMissingRoom(s: State, ws: ConnId, cmd: Command, now: int, dead: set<ConnId>,
                         created: bool, account: Option<Account>, target: Option<ConnId>)
    requires Inv(s) && ws in s.info && s.info[ws].authed && IsAdmin(s, ws)
    requires cmd.CloseRoom? || cmd.Kick?
    requires Clean(cmd.room) !in s.rooms
    ensures var t := Handle(s, ws, cmd, now, dead, created, account, target);
      t.alive && RepliedOnly(s, t.state, ws, Error(NoSuchRoom), dead)
  {
  }

  /** Listing the rooms changes nothing and answers with every room, in creation order, with its usernames sorted. */
  lemma ListRoomsReplies(s: State, ws: ConnId, now: int, dead: set<ConnId>,
                         created: bool, account: Option<Account>, target: Option<ConnId>)
    requires Inv(s) && ws in s.info && s.info[ws].authed && IsAdmin(s, ws)
    ensures var t := Handle(s, ws, ListRooms, now, dead, created, account, target);
      t.alive && RepliedOnly(s, t.state, ws, AdminRooms(RoomEntries(s.rooms, s.order)), dead)
  {
  }

  /** The admin listing names each room exactly once and gives the code-point-sorted list of its usernames. */
  lemma RoomEntriesComplete(s: State)
    requires Inv(s)
    ensures var es := RoomEntries(s.rooms, s.order);
      && (forall k :: k in s.rooms <==> exists j | 0 <= j < |es| :: es[j].room == k)
      && (forall i, j | 0 <= i < j < |es| :: es[i].room != es[j].room)
      && (forall j | 0 <= j < |es| ::
            es[j].room in s.rooms && StrictlySorted(es[j].users) &&
            forall x :: x in es[j].users <==> x in s.rooms[es[j].room].users)
  {
    var es := RoomEntries(s.rooms, s.order);
    forall k | k in s.rooms
      ensures exists j | 0 <= j < |es| :: es[j].room == k
    {
      var j :| 0 <= j < |s.order| && s.order[j] == k;
      assert es[j].room == k;
    }
  }

  /** Closing a room: its members are told, their sessions forget it, it is deleted, and everyone gets the new list. */
  lemma CloseRoomEffect(s: State, ws: ConnId, r: string, dead: set<ConnId>)
    requires Inv(s) && IsAdmin(s, ws) && r in s.rooms
    ensures var t := AdminCloseRoom(s, ws, r, dead); var members := s.rooms[r].conns;
      && t.rooms == s.rooms - {r}
      && t.order == Without(s.order, r)
      && t.clients == s.clients - dead
      && t.info.Keys == s.info.Keys - dead
      && (forall c | c in t.info :: t.info[c] == if c in members then s.info[c].(room := None) else s.info[c])
      && t.log == s.log + [Outbound(members - dead, System(ClosedByAdmin)),
                           Outbound(s.clients - dead, RoomList(Without(s.order, r))),
                           Outbound(if ws in dead then {} else {ws}, AdminOk(RoomClosed(r)))]
  {
    var members := s.rooms[r].conns;
    var s1 := Broadcast(s, r, System(ClosedByAdmin), dead);
    assert s1.clients - s1.clients * dead == s.clients - dead;
    assert (s.clients - members * dead) - dead == s.clients - dead;
  }

  /** A kick whose search found nothing is refused and changes nothing else. */
  lemma KickNotFound(s: State, ws: ConnId, r: string, u: string, dead: set<ConnId>)
    requires Inv(s) && IsAdmin(s, ws) && r in s.rooms
    requires KickChoice(s, r, u, None)
    ensures RepliedOnly(s, AdminKickUser(s, ws, r, u, None, dead), ws, Error(UserNotInRoom), dead)
  {
  }

  /**
   * A kick of the connection `x` found for username `u`, on the rooms: `u` and `x` leave the
   * room, which also drops the connections the notice fails to reach, and is deleted once it
   * has no username left; other rooms are untouched.
   */
  lemma KickRooms(s: State, ws: ConnId, r: string, u: string, x: ConnId, dead: set<ConnId>)
    requires Inv(s) && IsAdmin(s, ws) && r in s.rooms
    requires KickChoice(s, r, u, Some(x))
    ensures var t := AdminKickUser(s, ws, r, u, Some(x), dead); var room := s.rooms[r];
      && (r in t.rooms <==> room.users - {u} != {})
      && (r in t.rooms ==> t.rooms[r] == Room(room.users - {u}, room.conns - {x} - dead))
      && (forall k | k in s.rooms && k != r :: k in t.rooms && t.rooms[k] == s.rooms[k])
  {
    var room := s.rooms[r];
    var s2 := Send(Evict(s, r, u, x), x, System(RemovedYou), dead);
    assert s2.rooms[r] == Room(room.users - {u}, room.conns - {x});
    assert (room.conns - {x}) - (room.conns - {x}) * dead == room.conns - {x} - dead;
    var s3 := Broadcast(s2, r, System(RemovedByAdmin(u)), dead);
    assert s3.rooms == s.rooms[r := Room(room.users - {u}, room.conns - {x} - dead)];
  }

  /**
   * A kick on the sessions: `x` forgets its room, and is gone only if a send to it failed;
   * every other surviving session is as it was.
   */
  lemma KickSessions(s: State, ws: ConnId, r: string, u: string, x: ConnId, dead: set<ConnId>)
    requires Inv(s) && IsAdmin(s, ws) && r in s.rooms
    requires KickChoice(s, r, u, Some(x))
    ensures var t := AdminKickUser(s, ws, r, u, Some(x), dead);
      && (x in t.info <==> x !in dead)
      && (x in t.info ==> t.info[x] == s.info[x].(room := None))
      && (forall c | c in t.info && c != x :: t.info[c] == s.info[c])
  {
    var room := s.rooms[r];
    var s2 := Send(Evict(s, r, u, x), x, System(RemovedYou), dead);
    assert s2.info == s.info[x := s.info[x].(room := None)];
    var s3 := Broadcast(s2, r, System(RemovedByAdmin(u)), dead);
    assert s3.info == s2.info - (room.conns - {x}) * dead;
    assert s3.clients == s.clients - (room.conns - {x}) * dead;
  }

  /**
   * A kick's messages: `x` is told, then the rest of the room, then every client gets the
   * room list, then the admin gets the confirmation.
   */
  lemma KickLog(s: State, ws: ConnId, r: string, u: string, x: ConnId, dead: set<ConnId>)
    requires Inv(s) && IsAdmin(s, ws) && r in s.rooms
    requires KickChoice(s, r, u, Some(x))
    ensures var t := AdminKickUser(s, ws, r, u, Some(x), dead); var room := s.rooms[r];
      && |t.log| == |s.log| + 4
      && t.log[|s.log|] == Outbound(if x in dead then {} else {x}, System(RemovedYou))
      && t.log[|s.log| + 1] == Outbound(room.conns - {x} - dead, System(RemovedByAdmin(u)))
      && t.log[|s.log| + 2].event == RoomList(t.order)
      && t.log[|s.log| + 3] == Outbound(if ws in dead then {} else {ws}, AdminOk(UserKicked(u, r)))
  {
    var room := s.rooms[r];
    var s2 := Send(Evict(s, r, u, x), x, System(RemovedYou), dead);
    var s3 := Broadcast(s2, r, System(RemovedByAdmin(u)), dead);
    assert s3.log == s.log + [Outbound(if x in dead then {} else {x}, System(RemovedYou)),
                              Outbound(room.conns - {x} - dead, System(RemovedByAdmin(u)))];
  }

  // ---------------------------------------------------------------------------
  // Leaving, entering and chatting
  // ---------------------------------------------------------------------------

  /** `leave_room` of a connection without a session does nothing. */
  lemma LeaveWithoutSession(s: State, ws: ConnId, dead: set<ConnId>)
    requires ws !in s.info
    ensures LeaveRoom(s, ws, dead) == s
  {
  }

  /**
   * `leave_room` of a session that is in no room, in a room that no longer exists, or has no
   * username only clears its room field, and sends nothing.
   */
  lemma LeaveWithoutRoom(s: State, ws: ConnId, dead: set<ConnId>)
    requires ws in s.info
    requires !Truthy(s.info[ws].room) || s.info[ws].room.value !in s.rooms || !Truthy(s.info[ws].username)
    ensures var t := LeaveRoom(s, ws, dead);
      t.rooms == s.rooms && t.order == s.order && t.clients == s.clients && t.log == s.log &&
      t.info == s.info[ws := s.info[ws].(room := None)]
  {
  }

  /**
   * `leave_room` of a member of room `r` under username `u`: `u` and the connection leave `r`,
   * whose failed connections are discarded by the departure notice; `r` is deleted exactly
   * when no username is left; other rooms are untouched; the session forgets the room; the
   * notice goes to the rest of the room, then the new room list to every client.
   */
  lemma LeaveRoomEffect(s: State, ws: ConnId, dead: set<ConnId>)
    requires Inv(s) && ws in s.info
    requires Truthy(s.info[ws].room) && s.info[ws].room.value in s.rooms && Truthy(s.info[ws].username)
    ensures var r := s.info[ws].room.value; var u := s.info[ws].username.value;
      var room := s.rooms[r]; var t := LeaveRoom(s, ws, dead);
      && (r in t.rooms <==> room.users - {u} != {})
      && (r in t.rooms ==> t.rooms[r] == Room(room.users - {u}, room.conns - {ws} - dead))
      && (forall k | k in s.rooms && k != r :: k in t.rooms && t.rooms[k] == s.rooms[k])
      && t.order == (if r in t.rooms then s.order else Without(s.order, r))
      && (ws in t.info <==> ws !in dead)
      && (ws in t.info ==> t.info[ws] == s.info[ws].(room := None))
      && (forall c | c in t.info && c != ws :: t.info[c] == s.info[c])
      && t.log == s.log + [Outbound(room.conns - {ws} - dead, System(LeftRoom(u))),
                           Outbound(s.clients - dead, RoomList(t.order))]
  {
    var r := s.info[ws].room.value;
    var room := s.rooms[r];
    assert (s.clients - (room.conns - {ws}) * dead) - dead == s.clients - dead;
  }

  /** A live connection that left its room is still connected and logged in, in no room. */
  lemma LeaveKeepsSession(s: State, ws: ConnId, dead: set<ConnId>)
    requires Inv(s) && ws in s.info && ws !in dead
    ensures var t := LeaveRoom(s, ws, dead);
      ws in t.info && ws in t.clients && t.info[ws] == s.info[ws].(room := None)
  {
    var i := s.info[ws];
    if Truthy(i.room) && i.room.value in s.rooms && Truthy(i.username) {
      LeaveRoomEffect(s, ws, dead);
    }
  }

  /**
   * Creating a room, from a live logged-in connection with a valid name: afterwards the room
   * exists with the user and the connection in it, and the session records it; the
   * connection gets `room_joined`, then every client the new room list.
   */
  lemma CreateRoomEnters(s: State, ws: ConnId, room: Option<string>, now: int, dead: set<ConnId>,
                         created: bool, account: Option<Account>, target: Option<ConnId>)
    requires Inv(s) && ws in s.info && s.info[ws].authed && ws !in dead
    requires RoomMin <= |Clean(room)| <= RoomMax
    ensures var r := Clean(room); var u := s.info[ws].username.value;
      var t := Handle(s, ws, CreateRoom(room), now, dead, created, account, target);
      && t.alive
      && r in t.state.rooms && u in t.state.rooms[r].users && ws in t.state.rooms[r].conns
      && ws in t.state.info && t.state.info[ws] == s.info[ws].(room := Some(r))
      && |t.state.log| >= |s.log| + 2
      && t.state.log[|t.state.log| - 2] == Outbound({ws}, RoomJoined(r))
      && t.state.log[|t.state.log| - 1].event == RoomList(t.state.order)
  {
    var r := Clean(room);
    var u := s.info[ws].username.value;
    CreateRoutes(s, ws, room, now, dead, created, account, target);
    LeaveKeepsSession(s, ws, dead);
    var s1 := LeaveIfSwitching(s, ws, r, dead);
    assert ws in s1.info && s1.info[ws] == s.info[ws].(room := s1.info[ws].room);
    var s2 := AddMember(s1, r, u, ws);
    assert ws in s2.info;
    var s3 := s2.(info := s2.info[ws := s2.info[ws].(room := Some(r))]);
    var s4 := Send(s3, ws, RoomJoined(r), dead);
    assert HandleCreateRoom(s, ws, u, room, dead) == Step(BroadcastRoomList(s4, dead), true);
  }

  /**
   * Creating a room changes the rooms exactly: the named room gains the user and the
   * connection (it is created, last in the creation order, when new), the room the connection
   * leaves may shrink or go, and every other room is untouched.
   */
  lemma CreateRoomRooms(s: State, ws: ConnId, room: Option<string>, now: int, dead: set<ConnId>,
                        created: bool, account: Option<Account>, target: Option<ConnId>)
    requires Inv(s) && ws in s.info && s.info[ws].authed && ws !in dead
    requires RoomMin <= |Clean(room)| <= RoomMax
    ensures var r := Clean(room); var u := s.info[ws].username.value;
      var old_ := if r in s.rooms then s.rooms[r] else Room({}, {});
      var t := Handle(s, ws, CreateRoom(room), now, dead, created, account, target).state;
      && r in t.rooms && t.rooms[r] == Room(old_.users + {u}, old_.conns + {ws})
      && t.rooms.Keys <= s.rooms.Keys + {r}
      && (forall k | k in s.rooms && k != r && Some(k) != s.info[ws].room :: k in t.rooms && t.rooms[k] == s.rooms[k])
      && (r !in s.rooms ==> |t.order| > 0 && t.order[|t.order| - 1] == r)
  {
    var r := Clean(room);
    var u := s.info[ws].username.value;
    CreateRoutes(s, ws, room, now, dead, created, account, target);
    LeaveKeepsSession(s, ws, dead);
    Invariant.LeaveRoomKeepsOtherRooms(s, ws, dead);
    var s1 := LeaveIfSwitching(s, ws, r, dead);
    assert ws in s1.info;
    assert r in s1.rooms <==> r in s.rooms;
    assert r in s.rooms ==> s1.rooms[r] == s.rooms[r];
    var s2 := AddMember(s1, r, u, ws);
    AddMemberEffect(s1, r, u, ws);
    var s3 := s2.(info := s2.info[ws := s2.info[ws].(room := Some(r))]);
    var s4 := Send(s3, ws, RoomJoined(r), dead);
    assert HandleCreateRoom(s, ws, u, room, dead) == Step(BroadcastRoomList(s4, dead), true);
  }

  /**
   * Creating the room the connection is already recorded in does not leave it: no departure
   * notice is sent, and when the user and the connection are already members the rooms are
   * unchanged by the re-add.
   */
  lemma CreateSameRoom(s: State, ws: ConnId, room: Option<string>, now: int, dead: set<ConnId>,
                       created: bool, account: Option<Account>, target: Option<ConnId>)
    requires Inv(s) && ws in s.info && s.info[ws].authed && ws !in dead
    requires RoomMin <= |Clean(room)| <= RoomMax && s.info[ws].room == Some(Clean(room))
    requires Clean(room) in s.rooms && s.info[ws].username.value in s.rooms[Clean(room)].users
    requires ws in s.rooms[Clean(room)].conns
    ensures var t := Handle(s, ws, CreateRoom(room), now, dead, created, account, target);
      t.state.rooms == s.rooms && t.state.order == s.order &&
      t.state.log == s.log + [Outbound({ws}, RoomJoined(Clean(room))), Outbound(s.clients - dead, RoomList(s.order))]
  {
    var r := Clean(room);
    var u := s.info[ws].username.value;
    assert s.rooms[r].(users := s.rooms[r].users + {u}, conns := s.rooms[r].conns + {ws}) == s.rooms[r];
  }

  /**
   * Creating a room while recorded in another, existing room first leaves that one: the
   * first new send is the departure notice to the rest of the old room, and the old room,
   * if it remains, no longer lists the user or the connection.
   */
  lemma CreateRoomSwitches(s: State, ws: ConnId, room: Option<string>, now: int, dead: set<ConnId>,
                           created: bool, account: Option<Account>, target: Option<ConnId>)
    requires Inv(s) && ws in s.info && s.info[ws].authed && ws !in dead
    requires RoomMin <= |Clean(room)| <= RoomMax
    requires Truthy(s.info[ws].room) && s.info[ws].room.value != Clean(room)
    requires s.info[ws].room.value in s.rooms && Truthy(s.info[ws].username)
    ensures var o := s.info[ws].room.value; var u := s.info[ws].username.value;
      var t := Handle(s, ws, CreateRoom(room), now, dead, created, account, target);
      && |t.state.log| > |s.log|
      && t.state.log[|s.log|] == Outbound(s.rooms[o].conns - {ws} - dead, System(LeftRoom(u)))
      && (o in t.state.rooms ==> u !in t.state.rooms[o].users && ws !in t.state.rooms[o].conns)
  {
    var r := Clean(room);
    var u := s.info[ws].username.value;
    CreateRoutes(s, ws, room, now, dead, created, account, target);
    LeaveRoomEffect(s, ws, dead);
    var s1 := LeaveRoom(s, ws, dead);
    assert LeaveIfSwitching(s, ws, r, dead) == s1;
    var s2 := AddMember(s1, r, u, ws);
    assert s2.log == s1.log;
    assert ws in s2.info;
    var s3 := s2.(info := s2.info[ws := s2.info[ws].(room := Some(r))]);
    var t := BroadcastRoomList(Send(s3, ws, RoomJoined(r), dead), dead);
    assert HandleCreateRoom(s, ws, u, room, dead) == Step(t, true);
    assert t.log[|s.log|] == s1.log[|s.log|];
  }

  /**
   * Creating room `Clean(room)` while in another one, from a connection whose sends fail:
   * the room list sent on leaving the old room discards the session, so the handler ends,
   * yet the new room has already been created with the user and the dead connection as
   * members, and nothing will ever remove them.
   */
  lemma CreateAfterFailedLeave(s: State, ws: ConnId, room: Option<string>, dead: set<ConnId>)
    requires SessionsOk(s) && ws in s.info && ws in dead
    requires RoomMin <= |Clean(room)| <= RoomMax
    requires Truthy(s.info[ws].room) && s.info[ws].room.value != Clean(room)
    requires s.info[ws].room.value in s.rooms && Truthy(s.info[ws].username)
    ensures var r := Clean(room); var u := s.info[ws].username.value;
      var t := HandleCreateRoom(s, ws, u, room, dead);
      && !t.alive
      && r in t.state.rooms && u in t.state.rooms[r].users && ws in t.state.rooms[r].conns
      && (r !in s.rooms ==> t.state.rooms[r] == Room({u}, {ws}))
      && ws !in t.state.clients && ws !in t.state.info
  {
    var r := Clean(room);
    var u := s.info[ws].username.value;
    var s1 := LeaveRoom(s, ws, dead);
    FailedLeaveDropsSession(s, ws, dead);
    assert LeaveIfSwitching(s, ws, r, dead) == s1;
    var s2 := AddMember(s1, r, u, ws);
    assert ws !in s2.info && LeaveRoom(s2, ws, dead) == s2;
  }

  /** Leaving a room from a dead connection discards its session, and creates no room. */
  lemma FailedLeaveDropsSession(s: State, ws: ConnId, dead: set<ConnId>)
    requires SessionsOk(s) && ws in s.info && ws in dead
    requires Truthy(s.info[ws].room) && s.info[ws].room.value in s.rooms && Truthy(s.info[ws].username)
    ensures var t := LeaveRoom(s, ws, dead); ws !in t.info && t.rooms.Keys <= s.rooms.Keys
  {
  }

  /** Past the login gate, `create_room` is handled for the session's username. */
  lemma CreateRoutes(s: State, ws: ConnId, room: Option<string>, now: int, dead: set<ConnId>,
                     created: bool, account: Option<Account>, target: Option<ConnId>)
    requires Inv(s) && ws in s.info && s.info[ws].authed
    ensures Handle(s, ws, CreateRoom(room), now, dead, created, account, target)
         == HandleCreateRoom(s, ws, s.info[ws].username.value, room, dead)
  {
  }

  /** A room name whose stripped length is out of bounds is refused and nothing else changes. */
  lemma CreateRoomBadName(s: State, ws: ConnId, room: Option<string>, now: int, dead: set<ConnId>,
                          created: bool, account: Option<Account>, target: Option<ConnId>)
    requires Inv(s) && ws in s.info && s.info[ws].authed
    requires !(RoomMin <= |Clean(room)| <= RoomMax)
    ensures var t := Handle(s, ws, CreateRoom(room), now, dead, created, account, target);
      t.alive && RepliedOnly(s, t.state, ws, Error(LengthError(RoomField, RoomMin, RoomMax)), dead)
  {
  }

  /** Joining a room that does not exist is refused and nothing else changes. */
  lemma JoinMissingRoom(s: State, ws: ConnId, room: Option<string>, now: int, dead: set<ConnId>,
                        created: bool, account: Option<Account>, target: Option<ConnId>)
    requires Inv(s) && ws in s.info && s.info[ws].authed
    requires Clean(room) !in s.rooms
    ensures var t := Handle(s, ws, JoinRoom(room), now, dead, created, account, target);
      t.alive && RepliedOnly(s, t.state, ws, Error(NoSuchRoom), dead)
  {
  }

  /**
   * Joining an existing room from a live logged-in connection: the user and the connection
   * are in it and the session records it; the connection gets `room_joined` and then, with
   * the rest of the room, the arrival notice.
   */
  lemma JoinRoomEnters(s: State, ws: ConnId, room: Option<string>, now: int, dead: set<ConnId>,
                       created: bool, account: Option<Account>, target: Option<ConnId>)
    requires Inv(s) && ws in s.info && s.info[ws].authed && ws !in dead
    requires Clean(room) in s.rooms
    ensures var r := Clean(room); var u := s.info[ws].username.value;
      var t := Handle(s, ws, JoinRoom(room), now, dead, created, account, target);
      && t.alive
      && r in t.state.rooms && u in t.state.rooms[r].users && ws in t.state.rooms[r].conns
      && ws in t.state.info && t.state.info[ws] == s.info[ws].(room := Some(r))
      && |t.state.log| >= |s.log| + 2
      && t.state.log[|t.state.log| - 2] == Outbound({ws}, RoomJoined(r))
      && t.state.log[|t.state.log| - 1].event == System(EnteredRoom(u))
      && ws in t.state.log[|t.state.log| - 1].to
  {
    var r := Clean(room);
    var u := s.info[ws].username.value;
    JoinRoutes(s, ws, room, now, dead, created, account, target);
    Invariant.LeaveRoomKeepsOtherRooms(s, ws, dead);
    LeaveKeepsSession(s, ws, dead);
    var s1 := LeaveIfSwitching(s, ws, r, dead);
    assert ws in s1.info && s1.info[ws] == s.info[ws].(room := s1.info[ws].room);
    var s2 := AddMember(s1, r, u, ws);
    assert ws in s2.info;
    var s3 := s2.(info := s2.info[ws := s2.info[ws].(room := Some(r))]);
    var s4 := Send(s3, ws, RoomJoined(r), dead);
    assert HandleJoinRoom(s, ws, u, room, dead) == Step(Broadcast(s4, r, System(EnteredRoom(u)), dead), true);
  }

  /**
   * Joining a room changes the rooms exactly: the joined room gains the user and the
   * connection and loses the connections the arrival notice fails to reach, the room the
   * connection leaves may shrink or go, and every other room is untouched.
   */
  lemma JoinRoomRooms(s: State, ws: ConnId, room: Option<string>, now: int, dead: set<ConnId>,
                      created: bool, account: Option<Account>, target: Option<ConnId>)
    requires Inv(s) && ws in s.info && s.info[ws].authed && ws !in dead
    requires Clean(room) in s.rooms
    ensures var r := Clean(room); var u := s.info[ws].username.value;
      var t := Handle(s, ws, JoinRoom(room), now, dead, created, account, target).state;
      && r in t.rooms && t.rooms[r] == Room(s.rooms[r].users + {u}, (s.rooms[r].conns + {ws}) - dead)
      && t.rooms.Keys <= s.rooms.Keys
      && (forall k | k in s.rooms && k != r && Some(k) != s.info[ws].room :: k in t.rooms && t.rooms[k] == s.rooms[k])
      && t.order == LeaveIfSwitching(s, ws, r, dead).order
  {
    var r := Clean(room);
    var u := s.info[ws].username.value;
    JoinRoutes(s, ws, room, now, dead, created, account, target);
    LeaveKeepsSession(s, ws, dead);
    Invariant.LeaveRoomKeepsOtherRooms(s, ws, dead);
    var s1 := LeaveIfSwitching(s, ws, r, dead);
    assert ws in s1.info;
    assert r in s1.rooms && s1.rooms[r] == s.rooms[r];
    var s2 := AddMember(s1, r, u, ws);
    AddMemberEffect(s1, r, u, ws);
    var s3 := s2.(info := s2.info[ws := s2.info[ws].(room := Some(r))]);
    var s4 := Send(s3, ws, RoomJoined(r), dead);
    assert HandleJoinRoom(s, ws, u, room, dead) == Step(Broadcast(s4, r, System(EnteredRoom(u)), dead), true);
  }

  /**
   * Joining sends exactly two messages after the implicit leave's: `room_joined` to the
   * connection, then the arrival notice to the room's live connections. There is no room
   * list of its own, and without a switch nothing precedes them.
   */
  lemma JoinRoomLog(s: State, ws: ConnId, room: Option<string>, now: int, dead: set<ConnId>,
                    created: bool, account: Option<Account>, target: Option<ConnId>)
    requires Inv(s) && ws in s.info && s.info[ws].authed && ws !in dead
    requires Clean(room) in s.rooms
    ensures var r := Clean(room); var u := s.info[ws].username.value;
      var t := Handle(s, ws, JoinRoom(room), now, dead, created, account, target).state;
      && t.log == LeaveIfSwitching(s, ws, r, dead).log
           + [Outbound({ws}, RoomJoined(r)), Outbound((s.rooms[r].conns + {ws}) - dead, System(EnteredRoom(u)))]
      && (!Truthy(s.info[ws].room) || s.info[ws].room.value == r ==> |t.log| == |s.log| + 2)
  {
    var r := Clean(room);
    var u := s.info[ws].username.value;
    JoinRoutes(s, ws, room, now, dead, created, account, target);
    LeaveKeepsSession(s, ws, dead);
    Invariant.LeaveRoomKeepsOtherRooms(s, ws, dead);
    var s1 := LeaveIfSwitching(s, ws, r, dead);
    assert ws in s1.info;
    assert r in s1.rooms && s1.rooms[r] == s.rooms[r];
    var s2 := AddMember(s1, r, u, ws);
    AddMemberEffect(s1, r, u, ws);
    var s3 := s2.(info := s2.info[ws := s2.info[ws].(room := Some(r))]);
    var s4 := Send(s3, ws, RoomJoined(r), dead);
    assert HandleJoinRoom(s, ws, u, room, dead) == Step(Broadcast(s4, r, System(EnteredRoom(u)), dead), true);
  }

  /** Past the login gate, `join_room` is handled for the session's username. */
  lemma JoinRoutes(s: State, ws: ConnId, room: Option<string>, now: int, dead: set<ConnId>,
                   created: bool, account: Option<Account>, target: Option<ConnId>)
    requires Inv(s) && ws in s.info && s.info[ws].authed
    ensures Handle(s, ws, JoinRoom(room), now, dead, created, account, target)
         == HandleJoinRoom(s, ws, s.info[ws].username.value, room, dead)
  {
  }

  /**
   * An accepted chat sets the session's clock to `now` and goes, stripped, to the connections
   * of its room; failed ones are discarded, and no username or room changes.
   */
  lemma ChatDelivered(s: State, ws: ConnId, room: Option<string>, message: Option<string>, now: int,
                      dead: set<ConnId>, created: bool, account: Option<Account>, target: Option<ConnId>)
    requires Inv(s) && ws in s.info && s.info[ws].authed
    requires ChatAccepted(s.info[ws], room, message, now) && Clean(room) in s.rooms
    ensures var r := Clean(room); var u := s.info[ws].username.value;
      var t := Handle(s, ws, Chat(room, message), now, dead, created, account, target);
      && t.alive
      && t.state.rooms.Keys == s.rooms.Keys
      && (forall k | k in s.rooms :: t.state.rooms[k].users == s.rooms[k].users)
      && (ws !in dead ==> ws in t.state.info && t.state.info[ws] == s.info[ws].(lastChat := now))
      && t.state.log == s.log + [Outbound(s.rooms[r].conns - dead, ChatLine(u, Clean(message)))]
  {
    var u := s.info[ws].username.value;
    ChatRoutes(s, ws, room, message, now, dead, created, account, target);
    ChatBroadcasts(s, ws, u, room, message, now, dead);
  }

  /** Past the login gate, a chat is handled by the chat branch for the session's username. */
  lemma ChatRoutes(s: State, ws: ConnId, room: Option<string>, message: Option<string>, now: int,
                   dead: set<ConnId>, created: bool, account: Option<Account>, target: Option<ConnId>)
    requires Inv(s) && ws in s.info && s.info[ws].authed
    ensures Handle(s, ws, Chat(room, message), now, dead, created, account, target)
         == Step(HandleChat(s, ws, s.info[ws].username.value, room, message, now, dead), true)
  {
  }

  /**
   * A chat that is not accepted gets one error and changes nothing else; when only the
   * cooldown fails, the error is the rate limit.
   */
  lemma ChatRefused(s: State, ws: ConnId, room: Option<string>, message: Option<string>, now: int,
                    dead: set<ConnId>, created: bool, account: Option<Account>, target: Option<ConnId>)
    requires Inv(s) && ws in s.info && s.info[ws].authed
    requires !ChatAccepted(s.info[ws], room, message, now)
    ensures var t := Handle(s, ws, Chat(room, message), now, dead, created, account, target);
      t.alive && |t.state.log| == |s.log| + 1 &&
      var e := t.state.log[|s.log|].event;
      && e.Error?
      && RepliedOnly(s, t.state, ws, e, dead)
      && ((Truthy(s.info[ws].room) && Clean(room) == s.info[ws].room.value &&
           ChatMin <= |Clean(message)| <= ChatMax) ==> e == Error(TooFast))
  {
    var u := s.info[ws].username.value;
    var t := HandleChat(s, ws, u, room, message, now, dead);
    assert Handle(s, ws, Chat(room, message), now, dead, created, account, target) == Step(t, true);
  }

  /** The handler's `finally`: the connection leaves its room and is forgotten. */
  lemma DisconnectForgets(s: State, ws: ConnId, dead: set<ConnId>)
    requires Inv(s)
    ensures var t := Disconnect(s, ws, dead);
      && ws !in t.clients && ws !in t.info
      && (forall c | c in t.clients :: c in s.clients && c !in dead)
      && (ws in s.info && Truthy(s.info[ws].room) && s.info[ws].room.value in t.rooms && Truthy(s.info[ws].username) ==>
            s.info[ws].username.value !in t.rooms[s.info[ws].room.value].users &&
            ws !in t.rooms[s.info[ws].room.value].conns)
  {
    var i := if ws in s.info then s.info[ws] else FreshInfo;
    if ws in s.info && Truthy(i.room) && i.room.value in s.rooms && Truthy(i.username) {
      LeaveRoomEffect(s, ws, dead);
    }
  }
}
