/**
 * The lobby's shared state as a value, and the effect of every operation of the server on it.
 *
 * The source keeps three module-level collections: `rooms` (room name to the set of member
 * usernames and the set of member connections), `clients` (the live connections) and
 * `conn_info` (per-connection session fields). `State` holds them, plus `order`, the
 * insertion order of the room names that Python's dict preserves, and `log`, every send
 * attempt made so far. The functions below are the specifications that the methods of the
 * `Server` class are proved to implement: mostly the method of the same name, with
 * `Send` for `SafeSend` and `AddMember` for `SetDefaultAndAdd` and `AddToRoom`. `Without`
 * and `LeaveIfSwitching` are steps inside other operations and have no method of their own.
 *
 * Sending is an oracle: a send to a connection in `dead` fails (the socket is gone), any
 * other send succeeds. A failed broadcast send prunes the connection; a failed direct
 * reply is ignored, as in the source.
 */
module Registry {
  import opened Wrappers
  import opened Strings
  import opened Protocol

  /** A connection handle (the websocket object in the source). */
  type ConnId = nat

  /** A room: usernames shown to admins, and connections that receive the room's broadcasts. */
  datatype Room = Room(users: set<string>, conns: set<ConnId>)

  /** The `conn_info` record of one connection. `lastChat` is in milliseconds. */
  datatype Info = Info(authed: bool, username: Option<string>, role: Option<string>, room: Option<string>, lastChat: int)

  /** One send attempt or broadcast: the event and the connections that did receive it. */
  datatype Outbound = Outbound(to: set<ConnId>, event: Event)

  /** What a successful credential check yields: the stored username and role. */
  datatype Account = Account(username: string, role: string)

  datatype State = State(
    rooms: map<string, Room>,
    order: seq<string>,
    clients: set<ConnId>,
    info: map<ConnId, Info>,
    log: seq<Outbound>)

  /** The state after handling one message, and whether the connection's handler is still running. */
  datatype Step = Step(state: State, alive: bool)

  const Initial := State(map[], [], {}, map[], [])

  /** The session record of a freshly accepted connection. */
  const FreshInfo := Info(false, None, None, None, 0)

  /** Python truthiness of an optional string: present and non-empty. */
  predicate Truthy(o: Option<string>) {
    o.Some? && o.value != ""
  }

  ghost predicate Distinct(s: seq<string>) {
    forall i, j | 0 <= i < j < |s| :: s[i] != s[j]
  }

  /**
   * Every live connection has a session record and vice versa; a logged-in session has a
   * username, and one that has not logged in has neither a username nor a role.
   */
  ghost predicate SessionsOk(s: State) {
    && s.info.Keys == s.clients
    && (forall c | c in s.info ::
          if s.info[c].authed then s.info[c].username.Some?
          else s.info[c].username.None? && s.info[c].role.None?)
  }

  /** A name `create_room` accepts and stores: stripped, of valid length. */
  ghost predicate ValidRoomName(r: string) {
    RoomMin <= |r| <= RoomMax && !IsSpace(r[0]) && !IsSpace(r[|r| - 1])
  }

  /** Room names are valid and `order` lists each room exactly once. */
  ghost predicate RoomsOk(s: State) {
    && (forall r | r in s.rooms :: ValidRoomName(r))
    && Distinct(s.order)
    && (forall r :: r in s.order <==> r in s.rooms)
  }

  /** A room stays in the registry only while it has a username. */
  ghost predicate NoEmptyRoom(s: State) {
    forall r | r in s.rooms :: s.rooms[r].users != {}
  }

  /** What every operation keeps true. */
  ghost predicate Inv(s: State) {
    SessionsOk(s) && RoomsOk(s) && NoEmptyRoom(s)
  }

  /** Removing a key from the insertion order of a dict. */
  function Without(s: seq<string>, x: string): (r: seq<string>)
    ensures forall y :: y in r <==> y in s && y != x
    ensures Distinct(s) ==> Distinct(r)
  {
    if s == [] then []
    else if s[0] == x then Without(s[1..], x)
    else
      assert Distinct(s) ==> Distinct(s[1..]) && s[0] !in s[1..];
      [s[0]] + Without(s[1..], x)
  }

  /**
   * Removing a name that is absent changes nothing; removing a name from a listing without
   * duplicates cuts out its one position and keeps every other name in its relative order.
   */
  lemma {:induction false} WithoutKeepsOrder(s: seq<string>, x: string)
    ensures x !in s ==> Without(s, x) == s
    ensures Distinct(s) && x in s ==>
      exists k | 0 <= k < |s| :: s[k] == x && Without(s, x) == s[..k] + s[k + 1..]
  {
    if s != [] {
      WithoutKeepsOrder(s[1..], x);
      if s[0] == x {
        if Distinct(s) {
          assert s[0] == x && Without(s, x) == s[..0] + s[1..];
        }
      } else if Distinct(s) && x in s {
        assert Distinct(s[1..]) && x in s[1..];
        var k :| 0 <= k < |s| - 1 && s[1..][k] == x && Without(s[1..], x) == s[1..][..k] + s[1..][k + 1..];
        assert s[..k + 1] + s[k + 2..] == [s[0]] + (s[1..][..k] + s[1..][k + 1..]);
        assert s[k + 1] == x && Without(s, x) == s[..k + 1] + s[k + 2..];
      }
    }
  }

  // ---------------------------------------------------------------------------
  // Sending and broadcasting
  // ---------------------------------------------------------------------------

  /** `safe_send`: one attempt, received unless the target is dead; failure changes nothing else. */
  function Send(s: State, to: ConnId, e: Event, dead: set<ConnId>): (t: State)
  {
    s.(log := s.log + [Outbound(if to in dead then {} else {to}, e)])
  }

  /** A send appends one log entry, addressed to `to` exactly when `to` is alive, and changes nothing else. */
  lemma SendEffect(s: State, to: ConnId, e: Event, dead: set<ConnId>)
    ensures var t := Send(s, to, e, dead);
      && t.rooms == s.rooms && t.order == s.order && t.clients == s.clients && t.info == s.info
      && |t.log| == |s.log| + 1 && t.log[..|s.log|] == s.log && t.log[|s.log|].event == e
      && t.log[|s.log|].to <= {to} && (to in t.log[|s.log|].to <==> to !in dead)
  {
  }

  /**
   * `broadcast`: every connection of the room is tried; the ones that fail are removed from
   * the room's connections, from `clients` and from `conn_info`, but their usernames stay.
   */
  function Broadcast(s: State, r: string, e: Event, dead: set<ConnId>): (t: State)
    ensures t.rooms.Keys == s.rooms.Keys && t.order == s.order
    ensures forall k | k in s.rooms :: t.rooms[k].users == s.rooms[k].users
  {
    if r !in s.rooms then s
    else
      var gone := s.rooms[r].conns * dead;
      s.(rooms := s.rooms[r := s.rooms[r].(conns := s.rooms[r].conns - gone)],
         clients := s.clients - gone,
         info := s.info - gone,
         log := s.log + [Outbound(s.rooms[r].conns - dead, e)])
  }

  /**
   * A broadcast to a missing room does nothing. Otherwise the room's connections that fail
   * are dropped from the room, from `clients` and from the sessions, every other room is
   * unchanged, and one entry records the delivery to the room's live connections.
   */
  lemma BroadcastEffect(s: State, r: string, e: Event, dead: set<ConnId>)
    ensures r !in s.rooms ==> Broadcast(s, r, e, dead) == s
    ensures r in s.rooms ==>
      var t := Broadcast(s, r, e, dead); var cs := s.rooms[r].conns;
      && t.rooms == s.rooms[r := s.rooms[r].(conns := cs - dead)]
      && t.clients == s.clients - cs * dead && t.info == s.info - cs * dead
      && t.log == s.log + [Outbound(cs - dead, e)]
  {
    if r in s.rooms {
      var cs := s.rooms[r].conns;
      assert cs - cs * dead == cs - dead;
    }
  }

  /** `broadcast_room_list`: the room names, in order, to every client; failures are pruned. */
  function BroadcastRoomList(s: State, dead: set<ConnId>): (t: State)
    ensures t.rooms == s.rooms && t.order == s.order
  {
    var gone := s.clients * dead;
    s.(clients := s.clients - gone,
       info := s.info - gone,
       log := s.log + [Outbound(s.clients - dead, RoomList(s.order))])
  }

  /** `del rooms[r]`. */
  function DeleteRoom(s: State, r: string): (t: State)
    ensures t.rooms == s.rooms - {r}
  {
    s.(rooms := s.rooms - {r}, order := Without(s.order, r))
  }

  /**
   * Deleting a room removes its name from the rooms and from the creation order, keeps every
   * other room and its place in the order, and touches no session and no log entry.
   */
  lemma DeleteRoomEffect(s: State, r: string)
    ensures var t := DeleteRoom(s, r);
      && r !in t.rooms && t.rooms.Keys <= s.rooms.Keys
      && (forall k | k in s.rooms && k != r :: k in t.rooms && t.rooms[k] == s.rooms[k])
      && (forall y :: y in t.order <==> y in s.order && y != r)
      && (Distinct(s.order) ==> Distinct(t.order))
      && (r !in s.order ==> t.order == s.order)
      && (Distinct(s.order) && r in s.order ==>
            exists k | 0 <= k < |s.order| :: s.order[k] == r && t.order == s.order[..k] + s.order[k + 1..])
      && t.clients == s.clients && t.info == s.info && t.log == s.log
  {
    WithoutKeepsOrder(s.order, r);
  }

  // ---------------------------------------------------------------------------
  // Room membership
  // ---------------------------------------------------------------------------

  /** `leave_room(ws)`. */
  function LeaveRoom(s: State, ws: ConnId, dead: set<ConnId>): State {
    if ws !in s.info then s
    else
      var i := s.info[ws];
      if !Truthy(i.room) || i.room.value !in s.rooms || !Truthy(i.username) then
        s.(info := s.info[ws := i.(room := None)])
      else
        var r := i.room.value;
        var u := i.username.value;
        var s1 := s.(rooms := s.rooms[r := Room(s.rooms[r].users - {u}, s.rooms[r].conns - {ws})],
                     info := s.info[ws := i.(room := None)]);
        var s2 := Broadcast(s1, r, System(LeftRoom(u)), dead);
        var s3 := if s2.rooms[r].users == {} then DeleteRoom(s2, r) else s2;
        BroadcastRoomList(s3, dead)
  }

  /** `rooms.setdefault(r, ...)` followed by adding the username and the connection. */
  function AddMember(s: State, r: string, u: string, ws: ConnId): (t: State)
    ensures r in t.rooms && u in t.rooms[r].users && ws in t.rooms[r].conns
  {
    var room := if r in s.rooms then s.rooms[r] else Room({}, {});
    s.(rooms := s.rooms[r := Room(room.users + {u}, room.conns + {ws})],
       order := if r in s.rooms then s.order else s.order + [r])
  }

  /**
   * Adding a member grows exactly the named room by the name and the connection, creating the
   * room at the end of the creation order when it is new; every other room, every session and
   * the log stay as they were.
   */
  lemma AddMemberEffect(s: State, r: string, u: string, ws: ConnId)
    ensures var t := AddMember(s, r, u, ws);
      && (r in s.rooms ==> t.rooms[r] == Room(s.rooms[r].users + {u}, s.rooms[r].conns + {ws}) && t.order == s.order)
      && (r !in s.rooms ==> t.rooms[r] == Room({u}, {ws}) && t.order == s.order + [r])
      && t.rooms.Keys == s.rooms.Keys + {r}
      && (forall k | k in s.rooms && k != r :: t.rooms[k] == s.rooms[k])
      && t.clients == s.clients && t.info == s.info && t.log == s.log
  {
  }

  /** Accepting a connection: it joins `clients` with a fresh, logged-out session. */
  function Connect(s: State, ws: ConnId): (t: State)
  {
    s.(clients := s.clients + {ws}, info := s.info[ws := FreshInfo])
  }

  /** A new connection is registered with a fresh session; nothing else changes. */
  lemma ConnectEffect(s: State, ws: ConnId)
    ensures var t := Connect(s, ws);
      && t.clients == s.clients + {ws} && t.info.Keys == s.info.Keys + {ws} && t.info[ws] == FreshInfo
      && (forall c | c in s.info && c != ws :: t.info[c] == s.info[c])
      && t.rooms == s.rooms && t.order == s.order && t.log == s.log
  {
  }

  /** The handler's `finally`: leave the room, forget the connection, refresh everyone's room list. */
  function Disconnect(s: State, ws: ConnId, dead: set<ConnId>): State {
    var s1 := LeaveRoom(s, ws, dead);
    BroadcastRoomList(s1.(clients := s1.clients - {ws}, info := s1.info - {ws}), dead)
  }

  // ---------------------------------------------------------------------------
  // Commands
  // ---------------------------------------------------------------------------

  /** `handle_register`; `created` is what the credential store answers to the new account. */
  function HandleRegister(s: State, ws: ConnId, user: Option<string>, pass: Option<string>,
                          created: bool, dead: set<ConnId>): State
  {
    match ValidateCredentials(Clean(user), OrEmpty(pass))
    case Some(err) => Send(s, ws, Error(err), dead)
    case None =>
      if created then Send(s, ws, RegisterOk, dead) else Send(s, ws, Error(AccountNotCreated), dead)
  }

  /**
   * `handle_login`; `account` is the stored record when the user exists and the password
   * matches, None otherwise. Writing the session of a connection that was already pruned
   * raises, which ends the handler.
   */
  function HandleLogin(s: State, ws: ConnId, user: Option<string>, pass: Option<string>,
                       account: Option<Account>, dead: set<ConnId>): Step
  {
    match ValidateCredentials(Clean(user), OrEmpty(pass))
    case Some(err) => Step(Send(s, ws, Error(err), dead), true)
    case None =>
      if account.None? then Step(Send(s, ws, Error(InvalidLogin), dead), true)
      else if ws !in s.info then Step(Disconnect(s, ws, dead), false)
      else
        var a := account.value;
        var s1 := s.(info := s.info[ws := s.info[ws].(authed := true, username := Some(a.username), role := Some(a.role))]);
        Step(BroadcastRoomList(Send(s1, ws, LoginOk(a.role), dead), dead), true)
  }

  /** Before entering room `r`, a connection recorded in another room leaves it. */
  function LeaveIfSwitching(s: State, ws: ConnId, r: string, dead: set<ConnId>): State
    requires ws in s.info
  {
    var cur := s.info[ws].room;
    if Truthy(cur) && cur.value != r then LeaveRoom(s, ws, dead) else s
  }

  /** The `create_room` branch of the handler, for the logged-in user `u`. */
  function HandleCreateRoom(s: State, ws: ConnId, u: string, room: Option<string>, dead: set<ConnId>): Step
    requires ws in s.info
  {
    var r := Clean(room);
    match ValidateLen(RoomField, r, RoomMin, RoomMax)
    case Some(err) => Step(Send(s, ws, Error(err), dead), true)
    case None =>
      var s1 := LeaveIfSwitching(s, ws, r, dead);
      var s2 := AddMember(s1, r, u, ws);
      if ws !in s2.info then Step(Disconnect(s2, ws, dead), false)
      else
        var s3 := s2.(info := s2.info[ws := s2.info[ws].(room := Some(r))]);
        Step(BroadcastRoomList(Send(s3, ws, RoomJoined(r), dead), dead), true)
  }

  /** The `join_room` branch of the handler, for the logged-in user `u`. */
  function HandleJoinRoom(s: State, ws: ConnId, u: string, room: Option<string>, dead: set<ConnId>): Step
    requires ws in s.info
  {
    var r := Clean(room);
    if r !in s.rooms then Step(Send(s, ws, Error(NoSuchRoom), dead), true)
    else
      var s1 := LeaveIfSwitching(s, ws, r, dead);
      var s2 := AddMember(s1, r, u, ws);
      if ws !in s2.info then Step(Disconnect(s2, ws, dead), false)
      else
        var s3 := s2.(info := s2.info[ws := s2.info[ws].(room := Some(r))]);
        Step(Broadcast(Send(s3, ws, RoomJoined(r), dead), r, System(EnteredRoom(u)), dead), true)
  }

  /** The `chat` branch of the handler at time `now` (milliseconds), for the logged-in user `u`. */
  function HandleChat(s: State, ws: ConnId, u: string, room: Option<string>, message: Option<string>,
                      now: int, dead: set<ConnId>): State
    requires ws in s.info
  {
    var r := Clean(room);
    var m := Clean(message);
    var i := s.info[ws];
    if !Truthy(i.room) then Send(s, ws, Error(NotInARoom), dead)
    else if r != i.room.value then Send(s, ws, Error(NotInThatRoom), dead)
    else
      match ValidateLen(MessageField, m, ChatMin, ChatMax)
      case Some(err) => Send(s, ws, Error(err), dead)
      case None =>
        if now - i.lastChat < ChatCooldownMs then Send(s, ws, Error(TooFast), dead)
        else Broadcast(s.(info := s.info[ws := i.(lastChat := now)]), r, ChatLine(u, m), dead)
  }

  /** The four conditions, in the source's order, under which a chat is accepted at time `now`. */
  predicate ChatAccepted(i: Info, room: Option<string>, message: Option<string>, now: int) {
    Truthy(i.room) && Clean(room) == i.room.value && ChatMin <= |Clean(message)| <= ChatMax &&
    now - i.lastChat >= ChatCooldownMs
  }

  /** An accepted chat is the broadcast of the stripped message after the clock is set. */
  lemma ChatBroadcasts(s: State, ws: ConnId, u: string, room: Option<string>, message: Option<string>,
                       now: int, dead: set<ConnId>)
    requires ws in s.info && ChatAccepted(s.info[ws], room, message, now)
    ensures HandleChat(s, ws, u, room, message, now, dead)
         == Broadcast(s.(info := s.info[ws := s.info[ws].(lastChat := now)]), Clean(room), ChatLine(u, Clean(message)), dead)
  {
  }

  // ---------------------------------------------------------------------------
  // Admin commands
  // ---------------------------------------------------------------------------

  /** `is_admin(ws)`. */
  predicate IsAdmin(s: State, ws: ConnId) {
    ws in s.info && s.info[ws].role == Some(AdminRole)
  }

  /** The `admin_rooms` payload: every room in dict order with its usernames sorted. */
  ghost function RoomEntries(rooms: map<string, Room>, order: seq<string>): seq<RoomEntry>
    requires forall k | k in order :: k in rooms
  {
    seq(|order|, j requires 0 <= j < |order| => RoomEntry(order[j], SortedOf(rooms[order[j]].users)))
  }

  /** `admin_list_rooms(ws)`. */
  ghost function AdminListRooms(s: State, ws: ConnId, dead: set<ConnId>): State
    requires forall k | k in s.order :: k in s.rooms
  {
    if !IsAdmin(s, ws) then Send(s, ws, Error(NoPermission), dead)
    else Send(s, ws, AdminRooms(RoomEntries(s.rooms, s.order)), dead)
  }

  /** Clearing the current room of every session among `cs`. */
  function ClearRooms(info: map<ConnId, Info>, cs: set<ConnId>): map<ConnId, Info> {
    map c | c in info :: if c in cs then info[c].(room := None) else info[c]
  }

  /** `admin_close_room(ws, r)`. */
  function AdminCloseRoom(s: State, ws: ConnId, r: string, dead: set<ConnId>): State {
    if !IsAdmin(s, ws) then Send(s, ws, Error(NoPermission), dead)
    else if r !in s.rooms then Send(s, ws, Error(NoSuchRoom), dead)
    else
      var s1 := Broadcast(s, r, System(ClosedByAdmin), dead);
      var s2 := s1.(info := ClearRooms(s1.info, s1.rooms[r].conns));
      var s3 := DeleteRoom(s2, r);
      Send(BroadcastRoomList(s3, dead), ws, AdminOk(RoomClosed(r)), dead)
  }

  /** A connection of room `r` whose session carries the username `u`. */
  predicate IsKickTarget(s: State, r: string, u: string, c: ConnId) {
    r in s.rooms && c in s.rooms[r].conns && c in s.info && s.info[c].username == Some(u)
  }

  /**
   * The search of `admin_kick_user` stops at the first matching connection in the set's
   * iteration order, which the source does not fix: any match may be the one found, and
   * none is found only when there is none.
   */
  ghost predicate KickChoice(s: State, r: string, u: string, target: Option<ConnId>) {
    match target
    case None => forall c :: !IsKickTarget(s, r, u, c)
    case Some(t) => IsKickTarget(s, r, u, t)
  }

  /** The kick itself: username `u` and connection `t` leave room `r`, and `t`'s session forgets the room. */
  function Evict(s: State, r: string, u: string, t: ConnId): (e: State)
    requires r in s.rooms
    ensures r in e.rooms
  {
    var room := s.rooms[r];
    s.(rooms := s.rooms[r := Room(room.users - {u}, room.conns - {t})],
       info := if t in s.info then s.info[t := s.info[t].(room := None)] else s.info)
  }

  /** `admin_kick_user(ws, r, u)`, given the connection its search found. */
  function AdminKickUser(s: State, ws: ConnId, r: string, u: string, target: Option<ConnId>,
                         dead: set<ConnId>): State
  {
    if !IsAdmin(s, ws) then Send(s, ws, Error(NoPermission), dead)
    else if r !in s.rooms then Send(s, ws, Error(NoSuchRoom), dead)
    else if target.None? then Send(s, ws, Error(UserNotInRoom), dead)
    else
      var t := target.value;
      var s2 := Send(Evict(s, r, u, t), t, System(RemovedYou), dead);
      var s3 := Broadcast(s2, r, System(RemovedByAdmin(u)), dead);
      var s4 := if s3.rooms[r].users == {} then DeleteRoom(s3, r) else s3;
      Send(BroadcastRoomList(s4, dead), ws, AdminOk(UserKicked(u, r)), dead)
  }

  // ---------------------------------------------------------------------------
  // The dispatcher
  // ---------------------------------------------------------------------------

  /**
   * One iteration of the handler's loop for connection `ws`: `now` is the clock, `created`
   * and `account` are the credential store's answers, `target` the kick search's result.
   * Register and login come first; every other command needs a logged-in session, and a
   * connection already pruned from `conn_info` raises there, which ends the handler.
   */
  ghost function Handle(s: State, ws: ConnId, cmd: Command, now: int, dead: set<ConnId>,
                        created: bool, account: Option<Account>, target: Option<ConnId>): Step
    requires Inv(s)
  {
    match cmd
    case Malformed => Step(Send(s, ws, Error(InvalidJson), dead), true)
    case Register(user, pass) => Step(HandleRegister(s, ws, user, pass, created, dead), true)
    case Login(user, pass) => HandleLogin(s, ws, user, pass, account, dead)
    case _ => Dispatch(s, ws, cmd, now, dead, target)
  }

  /** The rest of the handler's loop: the login gate, then the command branches. */
  ghost function Dispatch(s: State, ws: ConnId, cmd: Command, now: int, dead: set<ConnId>,
                          target: Option<ConnId>): Step
    requires Inv(s)
  {
    if ws !in s.info then Step(Disconnect(s, ws, dead), false)
    else if !s.info[ws].authed then Step(Send(s, ws, Error(LoginFirst), dead), true)
    else Execute(s, ws, s.info[ws].username.value, cmd, now, dead, target)
  }

  /** The command branches, for the logged-in session of `ws` under username `u`. */
  ghost function Execute(s: State, ws: ConnId, u: string, cmd: Command, now: int, dead: set<ConnId>,
                         target: Option<ConnId>): Step
    requires Inv(s) && ws in s.info
  {
    match cmd
    case ListRooms => Step(AdminListRooms(s, ws, dead), true)
    case CloseRoom(room) => Step(AdminCloseRoom(s, ws, Clean(room), dead), true)
    case Kick(room, user) => Step(AdminKickUser(s, ws, Clean(room), Clean(user), target, dead), true)
    case CreateRoom(room) => HandleCreateRoom(s, ws, u, room, dead)
    case JoinRoom(room) => HandleJoinRoom(s, ws, u, room, dead)
    case Leave => Step(LeaveRoom(s, ws, dead), true)
    case Chat(room, message) => Step(HandleChat(s, ws, u, room, message, now, dead), true)
    case _ => Step(Send(s, ws, Error(UnknownType), dead), true)
  }
}
