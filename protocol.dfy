/**
 * The wire protocol of the lobby server as structured values: the limits it enforces,
 * the inbound commands (already decoded from JSON), and the outbound events.
 * Message texts are represented by constructors carrying their parameters.
 */
module Protocol {
  import opened Wrappers

  const UsernameMin := 3
  const UsernameMax := 20
  const PasswordMin := 5
  const PasswordMax := 20
  const RoomMin := 1
  const RoomMax := 24
  const ChatMin := 1
  const ChatMax := 200
  /** The 0.35 second chat cooldown, with time counted in milliseconds. */
  const ChatCooldownMs := 350
  const AdminRole := "admin"

  /** The field named in a length error ("Usuário", "Senha", "Sala", "Mensagem"). */
  datatype Field = UserField | PasswordField | RoomField | MessageField

  datatype ErrorMsg =
    | InvalidJson                                  // payload was not JSON
    | LoginFirst                                   // command before login
    | LengthError(field: Field, min: int, max: int)
    | AccountNotCreated                            // create_user refused
    | InvalidLogin                                 // unknown user or wrong password
    | NoPermission                                 // admin command from a non-admin
    | NoSuchRoom                                   // room name not in the registry
    | UserNotInRoom                                // kick target not found in the room
    | NotInARoom                                   // chat while in no room
    | NotInThatRoom                                // chat to a room other than the current one
    | TooFast                                      // chat inside the cooldown
    | UnknownType                                  // unrecognised command type

  /** The `system` messages. */
  datatype Notice =
    | LeftRoom(user: string)          // "<user> saiu da sala"
    | EnteredRoom(user: string)       // "<user> entrou na sala"
    | ClosedByAdmin
    | RemovedYou                      // sent to the kicked connection only
    | RemovedByAdmin(user: string)    // sent to the room after a kick

  /** The `admin_ok` confirmations. */
  datatype AdminAck = RoomClosed(room: string) | UserKicked(user: string, room: string)

  datatype RoomEntry = RoomEntry(room: string, users: seq<string>)

  datatype Event =
    | RegisterOk
    | LoginOk(role: string)
    | RoomList(rooms: seq<string>)
    | RoomJoined(room: string)
    | System(notice: Notice)
    | ChatLine(user: string, message: string)
    | Error(error: ErrorMsg)
    | AdminRooms(entries: seq<RoomEntry>)
    | AdminOk(ack: AdminAck)

  /**
   * A decoded inbound message. Fields the client may omit are optional; `Malformed` is a
   * payload that is not valid JSON and `Unknown` one whose `type` is none of the others.
   */
  datatype Command =
    | Register(user: Option<string>, pass: Option<string>)     // "register"
    | Login(user: Option<string>, pass: Option<string>)        // "login"
    | CreateRoom(room: Option<string>)                         // "create_room"
    | JoinRoom(room: Option<string>)                           // "join_room"
    | Leave                                                    // "leave_room"
    | Chat(room: Option<string>, message: Option<string>)      // "chat"
    | ListRooms                                                // "admin_list_rooms"
    | CloseRoom(room: Option<string>)                          // "admin_close_room"
    | Kick(room: Option<string>, user: Option<string>)         // "admin_kick"
    | Unknown
    | Malformed

  /** `validate_len`: no error exactly when the length lies within the bounds, else the error naming them. */
  function ValidateLen(field: Field, value: string, minLen: int, maxLen: int): (r: Option<ErrorMsg>)
    ensures r.None? <==> minLen <= |value| <= maxLen
    ensures r.Some? ==> r.value == LengthError(field, minLen, maxLen)
  {
    if minLen <= |value| <= maxLen then None else Some(LengthError(field, minLen, maxLen))
  }

  /** The credential check of register and login: the username, then the password. */
  function ValidateCredentials(user: string, pass: string): (r: Option<ErrorMsg>)
    ensures r.None? <==> UsernameMin <= |user| <= UsernameMax && PasswordMin <= |pass| <= PasswordMax
    ensures !(UsernameMin <= |user| <= UsernameMax) ==> r == Some(LengthError(UserField, UsernameMin, UsernameMax))
    ensures UsernameMin <= |user| <= UsernameMax && !(PasswordMin <= |pass| <= PasswordMax) ==>
      r == Some(LengthError(PasswordField, PasswordMin, PasswordMax))
  {
    match ValidateLen(UserField, user, UsernameMin, UsernameMax)
    case Some(e) => Some(e)
    case None => ValidateLen(PasswordField, pass, PasswordMin, PasswordMax)
  }
}
