# Lobby registry of the truco chat server

This project models the in-memory lobby of `server/server.py`, a websocket chat server.
The lobby has three module-level collections:

- `rooms`: each room name maps to the set of usernames in the room and the set of connections that receive its broadcasts.
- `clients`: the live connections.
- `conn_info`: the session of each connection, with fields `authed`, `username`, `role`, `room` and `last_chat`.

The handler's command loop drives these collections. The model covers register, login, create room, join room, leave room, chat, the three admin commands, and the teardown in `finally`.

The model has two layers.

- **Values** (`Registry`). The lobby is the value `State`. It holds:
  - `rooms`, `clients` and `info`;
  - `order`, the insertion order that Python's dict gives to room names, which the room list and the admin listing follow;
  - `log`, every send attempt made so far.

  Each operation of the source is a function from the old state to the new one. A handler step returns `Step(state, alive)`; `alive` is false once the handler's loop has ended.
- **Imperative** (`Server.Lobby`). A class with the same fields as mutable state. Its methods change the fields in place and loop where the source loops:
  - the broadcast loops, which collect the dead connections and then discard them;
  - the occupant loop of `admin_close_room`;
  - the search loop of `admin_kick_user`;
  - the listing loop of `admin_list_rooms`.

  Each method is proved to leave `Snapshot()` equal to the matching registry function applied to the old snapshot. Mostly that function has the method's name. The exceptions:
  - `SafeSend` matches `Registry.Send`.
  - `SetDefaultAndAdd` and `AddToRoom` both match `Registry.AddMember`.
  - `Prune` is one discard step of the broadcast loops. It has no registry counterpart, and its contract states the fields it changes.

  `Handle` also keeps the registry invariant.

Inputs that come from outside the program are parameters:

- `safe_send` is an oracle: a send to a connection in the set `dead` fails, any other send succeeds.
- The clock is an integer number of milliseconds, so the 0.35 s cooldown is 350.
- The credential store answers through `created` (did `create_user` succeed) and `account` (the stored username and role when the password matches).
- The kick search returns `target`. The source leaves the order in which it meets the room's connections unspecified, so the model allows any matching connection (`KickChoice`).

The properties proved about the values are:

- `Invariant`: every message keeps the registry invariant `Inv`.
  - Sessions exist exactly for the connections in `clients`.
  - A logged-out session has no username or role.
  - Room names are valid and stripped.
  - `order` lists each room once.
  - No room has an empty set of usernames.
- `Sessions`: what one message may do to the sessions.
- `Commands`: the effect of each command, error paths included.
- `Strings`: `_clean` and the sort that the admin listing uses.
- `Scenarios`: concrete runs that show where this code departs from an idealised lobby.

## Model

| member | source | states |
|---|---|---|
| Strings.Strip | server/server.py:66 | The stripped string is no longer than the input and has no whitespace at either end |
| Strings.Clean | server/server.py:65-66 | An absent field reads as `""`; a present one is stripped; the result has no whitespace at either end |
| Strings.OrEmpty | server/server.py:172 | `data.get("pass") or ""`: a missing password reads as the empty string; used by register and login |
| Strings.StripTrimmed | server/server.py:66 | A string with no whitespace at either end strips to itself |
| Strings.StripIdempotent | server/server.py:66 | Stripping twice is stripping once |
| Strings.StripIsSlice | server/server.py:66 | The stripped string is a contiguous slice of the input, and everything outside the slice is whitespace |
| Strings.StripEmptyIffAllSpace | server/server.py:66 | A field strips to `""` exactly when it is all whitespace |
| Strings.AllSpaceStripsEmpty | server/server.py:66 | An all-whitespace string strips to `""` |
| Strings.LexIrreflexive | server/server.py:227 | Python string order is irreflexive |
| Strings.LexTransitive | server/server.py:227 | Python string order is transitive |
| Strings.LexTotal | server/server.py:227 | Any two different strings are ordered one way or the other |
| Strings.LexAsymmetric | server/server.py:227 | Python string order is asymmetric |
| Strings.LeastExists | server/server.py:227 | A non-empty set of names has a least element |
| Strings.SortedOf | server/server.py:227 | `sorted(list(users))` is strictly increasing, as long as the set, and holds exactly the set's names |
| Strings.SortedUnique | server/server.py:227 | Two strictly increasing listings of the same names are equal, so the sorted listing is unique |
| Strings.TailMembers | server/server.py:227 | Two equal-member sorted listings with the same head have tails with the same members |
| Strings.InsertKeepsSorted | server/server.py:227 | Inserting a name at its place keeps a listing strictly sorted and adds exactly that name |
| Strings.SortNames | server/server.py:227 | The listing built by insertion is `sorted(list(users))` |
| Protocol.ValidateLen | server/server.py:69-72 | No error exactly when `min <= len <= max`; otherwise the error names the field and both bounds |
| Protocol.ValidateCredentials | server/server.py:174-177 | No error exactly when both lengths are in bounds; a bad username gets the username's length error; with a good username, a bad password gets the password's length error |
| Registry.Without | server/server.py:159-160 | Deleting a key from the dict order keeps the other keys, drops that one, and keeps them distinct; their relative order is `Registry.WithoutKeepsOrder` |
| Registry.WithoutKeepsOrder | server/server.py:159-160 | Deleting an absent key changes nothing; deleting a present key from a duplicate-free order cuts out its one position and keeps the others in their relative order |
| Registry.Send | server/server.py:75-80 | Specification of `safe_send`; its effect is `Registry.SendEffect` |
| Registry.SendEffect | server/server.py:75-80 | A send appends exactly one log entry with that event, which reaches the target exactly when it is not dead; nothing else changes |
| Registry.Connect | server/server.py:284-285 | Specification of the handler's opening; its effect is `Registry.ConnectEffect` |
| Registry.ConnectEffect | server/server.py:284-285 | The connection joins `clients` with a fresh logged-out session; every other session, every room and the log are unchanged |
| Registry.Broadcast | server/server.py:128-140 | A room broadcast keeps the set of rooms, the room order and every room's usernames; which connections it prunes is `Registry.BroadcastEffect` |
| Registry.BroadcastEffect | server/server.py:128-140 | A broadcast to a missing room changes nothing; otherwise the room loses exactly its dead connections, `clients` and the sessions lose the same ones, every other room is unchanged, and one log entry reaches the room's live connections |
| Registry.BroadcastRoomList | server/server.py:116-125 | The global room-list broadcast changes no room and not the order |
| Registry.LeaveRoom | server/server.py:143-162 | Specification of `leave_room`; its properties are `Commands.LeaveRoomEffect`, `Commands.LeaveWithoutSession`, `Commands.LeaveWithoutRoom`, `Invariant.LeaveRoomKeepsInv` and `Sessions.LeaveRoomFrame` |
| Registry.Disconnect | server/server.py:392-401 | Specification of the teardown; its properties are `Commands.DisconnectForgets`, `Invariant.DisconnectKeepsInv` and `Sessions.DisconnectFrame` |
| Registry.HandleRegister | server/server.py:170-187 | Specification of `handle_register`; its property is `Commands.RegisterRepliesOnce` |
| Registry.HandleLogin | server/server.py:190-217 | Specification of `handle_login`; its properties are `Commands.LoginSucceeds`, `Commands.LoginRefused`, `Invariant.LoginKeepsInv` and `Sessions.LoginFrame` |
| Registry.LeaveIfSwitching | server/server.py:330-331 | Specification of the implicit leave before entering a room; its properties are `Invariant.SwitchKeepsInv`, `Commands.CreateSameRoom` and `Commands.CreateRoomSwitches` |
| Registry.HandleCreateRoom | server/server.py:324-340 | Specification of the `create_room` branch; its properties are `Commands.CreateRoomEnters`, `Commands.CreateRoomRooms`, `Commands.CreateRoomBadName`, `Commands.CreateAfterFailedLeave` and `Invariant.CreateRoomKeepsInv` |
| Registry.HandleJoinRoom | server/server.py:342-356 | Specification of the `join_room` branch; its properties are `Commands.JoinRoomEnters`, `Commands.JoinRoomRooms`, `Commands.JoinMissingRoom` and `Invariant.JoinRoomKeepsInv` |
| Registry.HandleChat | server/server.py:362-385 | Specification of the `chat` branch; its properties are `Registry.ChatBroadcasts`, `Commands.ChatDelivered`, `Commands.ChatRefused`, `Invariant.ChatKeepsInv` and `Sessions.ChatFrame` |
| Registry.IsAdmin | server/server.py:165-167 | `is_admin`: the session exists and its role is `admin`; `Invariant.AdminIsLoggedIn` proves such a session is logged in |
| Registry.AdminListRooms | server/server.py:221-228 | Specification of `admin_list_rooms`; its properties are `Commands.ListRoomsReplies`, `Commands.RoomEntriesComplete` and `Commands.NonAdminRefused` |
| Registry.AdminCloseRoom | server/server.py:231-247 | Specification of `admin_close_room`; its properties are `Commands.CloseRoomEffect`, `Commands.AdminMissingRoom`, `Invariant.CloseRoomKeepsInv` and `Sessions.CloseRoomFrame` |
| Registry.Evict | server/server.py:270-273 | Removing the username and the target from the room keeps the room in the map; the full kick effect is `Commands.KickRooms` and `Commands.KickSessions` |
| Registry.AdminKickUser | server/server.py:250-280 | Specification of `admin_kick_user`; its properties are `Commands.KickNotFound`, `Commands.KickRooms`, `Commands.KickSessions`, `Commands.KickLog`, `Invariant.KickKeepsInv` and `Sessions.KickFrame` |
| Registry.Handle | server/server.py:289-387 | Specification of one pass of the handler loop; its properties are `Invariant.HandleKeepsInv`, `Sessions.HandleFrame`, `Commands.MalformedRejected` and `Commands.UnknownRejected` |
| Registry.Dispatch | server/server.py:306-310 | Specification of the login gate; its properties are `Commands.LoginRequired`, `Commands.DiscardedSessionEnds` and `Invariant.DispatchKeepsInv` |
| Registry.Execute | server/server.py:312-387 | Specification of the command branches past the gate; the routing lemmas `Commands.CreateRoutes`, `Commands.JoinRoutes` and `Commands.ChatRoutes` tie it to the handlers |
| Registry.DeleteRoom | server/server.py:160 | `del rooms[r]`: the room map loses exactly `r`; the full effect is `Registry.DeleteRoomEffect` |
| Registry.DeleteRoomEffect | server/server.py:159-160 | Deleting a room removes it from the rooms and cuts its one position out of a duplicate-free order, so every other room keeps its record and its relative place; the order stays distinct; sessions, clients and log are unchanged |
| Registry.AddMember | server/server.py:333-335 | After `setdefault` and the two adds, the room exists and holds the username and the connection; the exact change is `Registry.AddMemberEffect` |
| Registry.AddMemberEffect | server/server.py:333-335 | The named room becomes its old users and connections plus the new ones, or just the new ones when it is new, which appends it to the order; no other room, session, client or log entry changes |
| Registry.ChatBroadcasts | server/server.py:362-384 | A chat that passes the four checks sets the clock to `now`, then broadcasts the stripped message to the room |
| Invariant.AdminIsLoggedIn | server/server.py:165-167 | An admin session is logged in, since only login sets a role |
| Invariant.BroadcastKeepsInv | server/server.py:128-140 | A room broadcast keeps sessions and room records consistent and never empties a room of usernames |
| Invariant.BroadcastRoomListKeepsInv | server/server.py:116-125 | The room-list broadcast keeps the invariant |
| Invariant.DeleteRoomKeepsInv | server/server.py:159-160 | Deleting a room keeps the records consistent and leaves every other room as it was |
| Invariant.LeaveRoomKeepsInv | server/server.py:143-162 | `leave_room` keeps the invariant; the room it empties of usernames is the one it deletes |
| Invariant.LeaveRoomKeepsOtherRooms | server/server.py:143-162 | `leave_room` adds no room, and every room other than the one the session was in keeps its record unchanged |
| Invariant.DisconnectKeepsInv | server/server.py:392-401 | The teardown in `finally` keeps the invariant |
| Invariant.ConnectKeepsInv | server/server.py:284-285 | Accepting a connection with a fresh session keeps the invariant |
| Invariant.AddMemberKeepsInv | server/server.py:333-335 | Adding a member to a room with a valid name keeps the invariant, and the order stays free of duplicates |
| Invariant.LoginKeepsInv | server/server.py:190-217 | Every outcome of `handle_login` keeps the invariant |
| Invariant.SwitchKeepsInv | server/server.py:330-331 | The implicit leave before entering another room keeps the invariant |
| Invariant.SetRoomKeepsInv | server/server.py:336 | Recording the entered room in the session keeps the invariant |
| Invariant.CreateRoomKeepsInv | server/server.py:324-340 | Every outcome of `create_room` keeps the invariant |
| Invariant.JoinRoomKeepsInv | server/server.py:342-356 | Every outcome of `join_room` keeps the invariant |
| Invariant.ChatKeepsInv | server/server.py:362-385 | Every outcome of `chat` keeps the invariant |
| Invariant.CloseRoomKeepsInv | server/server.py:231-247 | Every outcome of `admin_close_room` keeps the invariant |
| Invariant.KickKeepsInv | server/server.py:250-280 | Every outcome of `admin_kick_user` keeps the invariant, for any connection the search may find |
| Invariant.DispatchKeepsInv | server/server.py:306-387 | Every command after the login gate keeps the invariant |
| Invariant.HandleKeepsInv | server/server.py:289-387 | Every message the handler reads keeps the invariant |
| Sessions.MovedTrans | server/server.py:283-401 | The allowed change to one session composes |
| Sessions.FrameTrans | server/server.py:283-401 | The allowed change to all sessions composes over steps |
| Sessions.FrameWeaken | server/server.py:283-401 | A change that allows no login and no clock move also fits any larger allowance |
| Sessions.SendFrame | server/server.py:75-80 | A direct send leaves the sessions exactly as they were, whether it succeeds or fails |
| Sessions.BroadcastFrame | server/server.py:128-140 | Every session left after a room broadcast existed before and is unchanged: the broadcast only discards sessions |
| Sessions.BroadcastRoomListFrame | server/server.py:116-125 | Every session left after the room-list broadcast existed before and is unchanged: it only discards sessions |
| Sessions.LeaveRoomFrame | server/server.py:143-162 | `leave_room` clears the sender's room and nothing else of its session; every other session is discarded or unchanged |
| Sessions.DisconnectFrame | server/server.py:392-401 | After the teardown the connection has no session, and every session kept existed before and is unchanged |
| Sessions.LoginFrame | server/server.py:190-217 | Login changes only the sender's login fields, never its room or clock; every other session is discarded or unchanged |
| Sessions.EnterFrame | server/server.py:330-336 | The implicit leave and the add that enter a room change no login field or chat clock |
| Sessions.CreateRoomFrame | server/server.py:324-340 | `create_room` changes only the sender's room; other sessions are discarded or lose their room |
| Sessions.JoinRoomFrame | server/server.py:342-356 | `join_room` changes only the sender's room; other sessions are discarded or lose their room |
| Sessions.ChatFrame | server/server.py:362-385 | `chat` changes at most the sender's clock, and only to `now`; every other session is discarded or unchanged |
| Sessions.CloseRoomFrame | server/server.py:231-247 | Closing a room changes no login field or chat clock; sessions are at most discarded or lose their room |
| Sessions.KickFrame | server/server.py:250-280 | A kick changes no login field or chat clock; sessions are at most discarded or lose their room |
| Sessions.DispatchFrame | server/server.py:306-387 | Every command after the login gate changes sessions only as allowed |
| Sessions.HandleFrame | server/server.py:289-387 | A message creates no session; login fields change only on login; a clock moves only to `now` on chat; other sessions at most lose their room |
| Sessions.OnlyLoginAuthenticates | server/server.py:212-214 | Only a login message logs a session in or sets its username or role |
| Sessions.ChatClockNeverBack | server/server.py:378-382 | For any clock, no message moves a last-chat time backwards |
| Sessions.ChatClockMonotone | server/server.py:378-382 | If the clock is never behind any session's last chat, last-chat times never decrease and never pass `now` |
| Commands.MalformedRejected | server/server.py:290-294 | A payload that is not JSON gets one error; nothing else changes and the loop goes on |
| Commands.LoginRequired | server/server.py:306-308 | Before login, every other command gets exactly one error; rooms, clients and sessions are unchanged |
| Commands.UnknownRejected | server/server.py:387 | An unknown type gets exactly one error and nothing else changes |
| Commands.DiscardedSessionEnds | server/server.py:306 | A command from a connection whose session was discarded raises at the gate; the handler ends and its teardown only refreshes the room list |
| Commands.RegisterRepliesOnce | server/server.py:170-187 | Register changes no registry state and replies once, with `register_ok` exactly when the lengths are valid and the account was created |
| Commands.LoginSucceeds | server/server.py:190-217 | A valid login sets the session's `authed`, username and role from the account, answers `login_ok`, and sends the room list to every client |
| Commands.LoginRefused | server/server.py:202-210 | A login with no matching account gets one error and nothing else changes |
| Commands.LoginFromDiscardedEnds | server/server.py:190-214 | For a connection without a session, login ends the handler exactly when the lengths pass and an account matched |
| Commands.NonAdminRefused | server/server.py:222-224 | From a non-admin, all three admin commands get the same error and nothing else changes |
| Commands.AdminMissingRoom | server/server.py:235-238 | Closing or kicking in a missing room gets one error and nothing else changes |
| Commands.ListRoomsReplies | server/server.py:221-228 | Listing the rooms changes nothing and answers with the listing of every room |
| Commands.RoomEntriesComplete | server/server.py:225-227 | The listing names every room exactly once, with exactly that room's usernames in sorted order |
| Commands.CloseRoomEffect | server/server.py:231-247 | Exactly that room is deleted; its connections' sessions forget it; the rest gets the notice, then the room list, then the admin the confirmation |
| Commands.KickNotFound | server/server.py:259-268 | When no connection of the room has that username, the kick gets one error and nothing else changes |
| Commands.KickRooms | server/server.py:270-278 | The username and the target connection leave the room; the room is deleted exactly when it has no username left; other rooms are untouched |
| Commands.KickSessions | server/server.py:272-273 | Only the target's session forgets its room; other surviving sessions are unchanged |
| Commands.KickLog | server/server.py:275-280 | A kick sends four messages, in order: to the target, to the room, the room list, and the confirmation to the admin |
| Commands.LeaveWithoutSession | server/server.py:144-146 | `leave_room` for a connection without a session does nothing |
| Commands.LeaveWithoutRoom | server/server.py:147-151 | With no room, a missing room or no username, `leave_room` only clears the session's room |
| Commands.LeaveRoomEffect | server/server.py:143-162 | The username and the connection leave the room; the room is deleted exactly when no username is left; other rooms are untouched; the departure notice goes out, then the room list |
| Commands.LeaveKeepsSession | server/server.py:143-162 | A live leaver keeps its session, with only the room cleared |
| Commands.CreateRoomEnters | server/server.py:324-340 | After a valid `create_room` the room exists with the username and the connection, the session records it, and `room_joined` and the room list follow |
| Commands.CreateRoomRooms | server/server.py:324-339 | After a valid `create_room` the room holds exactly its old users and connections plus the sender's, and is last in the order when new; no room is added besides it, and every room other than it and the one left is unchanged |
| Commands.CreateSameRoom | server/server.py:330-336 | Creating the room the session is already in sends no departure notice and leaves the rooms unchanged |
| Commands.CreateRoomSwitches | server/server.py:330-331 | Creating a room while in another one first leaves that one, and the departure notice is the first message |
| Commands.CreateAfterFailedLeave | server/server.py:330-336 | A dead connection that switches rooms loses its session on leaving, and the handler ends, but the new room keeps its username and connection |
| Commands.FailedLeaveDropsSession | server/server.py:143-162 | Leaving from a dead connection discards its session and creates no room |
| Commands.CreateRoutes | server/server.py:306-324 | Past the gate, `create_room` runs for the session's username |
| Commands.CreateRoomBadName | server/server.py:325-329 | A room name with a stripped length out of bounds gets one error and nothing else changes |
| Commands.JoinMissingRoom | server/server.py:343-346 | Joining a missing room gets one error and nothing else changes |
| Commands.JoinRoomEnters | server/server.py:342-356 | Joining an existing room puts the username and the connection in it, records it in the session, and sends `room_joined` and then the arrival notice |
| Commands.JoinRoomRooms | server/server.py:342-355 | After joining, the room holds exactly its old users plus the sender's, and its old connections plus the sender's less those the arrival notice failed to reach; no room is added, and every room other than it and the one left is unchanged |
| Commands.JoinRoomLog | server/server.py:342-355 | Joining logs exactly the implicit leave's messages, then `room_joined` and the arrival notice to the room's live connections; with no switch, exactly two messages |
| Commands.JoinRoutes | server/server.py:306-342 | Past the gate, `join_room` runs for the session's username |
| Commands.ChatDelivered | server/server.py:362-384 | An accepted chat sets the clock to `now` and reaches the room's live connections, stripped; no room or username changes |
| Commands.ChatRoutes | server/server.py:306-362 | Past the gate, `chat` runs for the session's username |
| Commands.ChatRefused | server/server.py:366-381 | A refused chat gets one error and changes nothing, the clock included; when only the cooldown fails, the error is the rate limit |
| Commands.DisconnectForgets | server/server.py:392-401 | After the teardown the connection has no session and no client entry, and it is no longer a member of its old room |
| Scenarios.ScenarioStatesValid | server/server.py:92-94 | The example states satisfy the invariant |
| Scenarios.SharedNameLeaveDeletesRoom | server/server.py:153-160 | When one of two sessions sharing a username leaves, the room is deleted while the other session still names it |
| Scenarios.ChatToDeletedRoomIsLost | server/server.py:362-384 | That session's chat to the deleted room passes every check and reaches no one |
| Scenarios.KickSharedNameDeletesRoom | server/server.py:270-278 | Kicking one of two sessions sharing a username deletes the room under the other |
| Scenarios.PruneKeepsUsername | server/server.py:137-140 | A failed broadcast send discards the connection but keeps its username in the room |
| Scenarios.LoneDeadMemberKeepsRoom | server/server.py:128-140 | When a room's only connection fails a broadcast, the room stays with its username and no connection, and the lobby still satisfies the invariant |
| Scenarios.CooldownRefuses | server/server.py:378-381 | A chat 100 ms after the last one is refused as too fast |
| Scenarios.CooldownAccepts | server/server.py:378-384 | A chat 400 ms after the last one is accepted and delivered |
| Scenarios.DeadCreatorStrandsRoom | server/server.py:330-336 | A dead connection that creates a room while in another one ends its handler and leaves the new room holding its username and connection |
| Server.Lobby.constructor | server/server.py:92-94 | The lobby starts empty and satisfies the invariant |
| Server.Lobby.SafeSend | server/server.py:75-80 | A send succeeds exactly when the target is not dead, and it is recorded in the log |
| Server.Lobby.Prune | server/server.py:137-140 | Discarding one dead connection removes it from the room, `clients` and `conn_info` |
| Server.Lobby.Broadcast | server/server.py:128-140 | The send-then-discard loop implements `Registry.Broadcast` |
| Server.Lobby.BroadcastRoomList | server/server.py:116-125 | The loop implements `Registry.BroadcastRoomList` |
| Server.Lobby.DeleteRoom | server/server.py:160 | Implements `Registry.DeleteRoom` |
| Server.Lobby.LeaveRoom | server/server.py:143-162 | Implements `Registry.LeaveRoom` |
| Server.Lobby.Connect | server/server.py:284-285 | Implements `Registry.Connect` and keeps the invariant |
| Server.Lobby.Disconnect | server/server.py:392-401 | Implements `Registry.Disconnect` and keeps the invariant |
| Server.Lobby.HandleRegister | server/server.py:170-187 | Implements `Registry.HandleRegister` |
| Server.Lobby.HandleLogin | server/server.py:190-217 | Implements `Registry.HandleLogin`, ending the handler when the session is gone |
| Server.Lobby.SetDefaultAndAdd | server/server.py:333-335 | Implements `Registry.AddMember` for a room that may be new |
| Server.Lobby.AddToRoom | server/server.py:350-351 | Implements `Registry.AddMember` for an existing room |
| Server.Lobby.HandleCreateRoom | server/server.py:324-340 | Implements `Registry.HandleCreateRoom` |
| Server.Lobby.HandleJoinRoom | server/server.py:342-356 | Implements `Registry.HandleJoinRoom` |
| Server.Lobby.HandleChat | server/server.py:362-385 | Implements `Registry.HandleChat` |
| Server.Lobby.AdminListRooms | server/server.py:221-228 | The listing loop implements `Registry.AdminListRooms` |
| Server.Lobby.AdminCloseRoom | server/server.py:231-247 | The occupant loop implements `Registry.AdminCloseRoom` |
| Server.Lobby.Evict | server/server.py:270-273 | Implements `Registry.Evict` |
| Server.Lobby.AdminKickUser | server/server.py:250-280 | The search finds a connection with that username in the room exactly when there is one, and the kick implements `Registry.AdminKickUser` |
| Server.Lobby.Dispatch | server/server.py:306-310 | Implements the login gate of `Registry.Dispatch` |
| Server.Lobby.Execute | server/server.py:312-387 | Implements the command branches of `Registry.Execute` |
| Server.Lobby.Handle | server/server.py:289-387 | One message implements `Registry.Handle` and keeps the invariant |

## Where the code departs from an idealised lobby

The model follows the code. The points below are where the code differs from what one would expect of a lobby. Each is proved as it is written.

- Rooms are deleted when their set of usernames becomes empty, not their set of connections (`Commands.LeaveRoomEffect`, `Commands.KickRooms`). Leaving or being kicked removes the username even while another session of the same user is still in the room. When that username was the room's last one, the room is deleted, the other session's `room` names a deleted room, and its chats there go nowhere without an error (`Scenarios.SharedNameLeaveDeletesRoom`, `Scenarios.KickSharedNameDeletesRoom`, `Scenarios.ChatToDeletedRoomIsLost`).
- A failed send in a broadcast discards the connection and its session but keeps its username in the room (`Scenarios.PruneKeepsUsername`). A room can therefore outlive all of its connections (`Scenarios.LoneDeadMemberKeepsRoom`).
- Switching rooms always announces the departure to the old room (`Commands.CreateRoomSwitches`). No path suppresses the notice.
- A connection whose session was discarded by an earlier failed send raises at the login gate on its next command, and its handler then ends (`Commands.DiscardedSessionEnds`). A login from such a connection raises too, but only once the lengths and the credentials have passed (`Commands.LoginFromDiscardedEnds`).
- A dead connection that switches rooms has its session discarded by the room-list broadcast of its own implicit leave. The handler raises when it then records the new room, after adding the username and the connection to it. The new room keeps both (`Commands.CreateAfterFailedLeave`, `Scenarios.DeadCreatorStrandsRoom`).
- `join_room` sends no room list of its own, only the arrival notice (`Commands.JoinRoomLog`). `create_room` always sends the room list, even when the room already existed (`Commands.CreateRoomEnters`).

## Left out

- JSON decoding, the websockets transport, `async for`, `main` and `log`. Commands arrive decoded; `Malformed` stands for a payload that is not JSON.
- Payload fields that are present but not strings, and payloads that are JSON but not objects. The model reads every field as an optional string.
- The text of messages. Events are structured values that carry their parameters.
- Password hashing and the database (`create_user`, `get_user_by_username`, schema checks). They become the `created` and `account` parameters. The bootstrap admin created from environment variables at startup is left out.
- `time.time()`. It becomes an integer millisecond parameter `now`, so floating-point rounding of the cooldown is not modelled.
- Concurrency between handlers. Each message is handled as one atomic step, because the model does not interleave the `await` points of different connections.
- The order of sends inside one broadcast. A broadcast is one log entry listing the connections that received it.
- Server.Lobby.AdminKickUser: the source stops at the first match in the set's iteration order, which Python does not fix. The contract allows any matching connection.
- The `dead` oracle is fixed for a whole message. A connection cannot take one send and fail a later one within the same message.
- The exceptions swallowed in `finally`. The teardown is modelled as leave, forget, then room-list broadcast, as the code normally runs it.
- Strings.SortNames: it stands in for Python's built-in `sorted`. It builds the same listing by insertion, and is not a loop the source contains.
- The client programs under `client/` and `inspect_db.py`. They hold no lobby logic.
