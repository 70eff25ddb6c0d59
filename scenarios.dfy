/**
 * Concrete runs of the registry that show where the code's behaviour departs from an
 * idealised lobby: a username is a room member only once, however many connections use it,
 * and a failed send discards a connection but not its username.
 */
module Scenarios {
  import opened Wrappers
  import opened Strings
  import opened Protocol
  import opened Registry
  import opened Commands

  /** A logged-in session of user `name` in room `room`, whose last chat was at time `last`. */
  function Member(name: string, room: string, last: int): Info {
    Info(true, Some(name), Some("user"), Some(room), last)
  }

  /** Connections 1 and 2 are both logged in as "ana" and both in room "mesa". */
  function TwoAnas(): State {
    State(map["mesa" := Room({"ana"}, {1, 2})], ["mesa"], {1, 2},
          map[1 := Member("ana", "mesa", 0), 2 := Member("ana", "mesa", 0)], [])
  }

  /** "ana" on connection 1 and "bia" on connection 2 share room "mesa". */
  function AnaAndBia(): State {
    State(map["mesa" := Room({"ana", "bia"}, {1, 2})], ["mesa"], {1, 2},
          map[1 := Member("ana", "mesa", 0), 2 := Member("bia", "mesa", 0)], [])
  }

  /** Both example states satisfy the registry invariant. */
  lemma ScenarioStatesValid()
    ensures Inv(TwoAnas()) && Inv(AnaAndBia())
  {
    assert Distinct(["mesa"]);
  }

  /**
   * When one of two connections sharing a username leaves, the username leaves the room;
   * with no other username the room is deleted, and the other connection's session still
   * names it.
   */
  lemma SharedNameLeaveDeletesRoom()
    ensures var t := LeaveRoom(TwoAnas(), 1, {});
      "mesa" !in t.rooms && 2 in t.info && t.info[2].room == Some("mesa")
  {
    var s := TwoAnas();
    assert s.rooms["mesa"].users - {"ana"} == {};
  }

  /**
   * The remaining connection can still chat to the deleted room: the chat passes every
   * check, sets its clock, and reaches nobody, without an error.
   */
  lemma ChatToDeletedRoomIsLost()
    ensures var t := LeaveRoom(TwoAnas(), 1, {});
      var c := HandleChat(t, 2, "ana", Some("mesa"), Some("oi"), 1000, {});
      c.log == t.log && 2 in c.info && c.info[2].lastChat == 1000
  {
    SharedNameLeaveDeletesRoom();
    var t := LeaveRoom(TwoAnas(), 1, {});
    StripTrimmed("mesa");
    StripTrimmed("oi");
  }

  /** Kicking "ana" through connection 1 removes the username, so the room goes although connection 2 is still in it. */
  lemma KickSharedNameDeletesRoom()
    ensures KickChoice(TwoAnas(), "mesa", "ana", Some(1))
    ensures var t := AdminKickUser(TwoAnas().(info := TwoAnas().info[3 := Info(true, Some("root"), Some(AdminRole), None, 0)],
                                               clients := {1, 2, 3}),
                                   3, "mesa", "ana", Some(1), {});
      "mesa" !in t.rooms && 2 in t.info && t.info[2].room == Some("mesa")
  {
    var s := TwoAnas().(info := TwoAnas().info[3 := Info(true, Some("root"), Some(AdminRole), None, 0)], clients := {1, 2, 3});
    assert IsAdmin(s, 3);
    assert s.rooms["mesa"].users - {"ana"} == {};
  }

  /** A broadcast that fails to reach "bia" discards that connection and session, but "bia" stays a member for the admin listing. */
  lemma PruneKeepsUsername()
    ensures var t := Broadcast(AnaAndBia(), "mesa", ChatLine("ana", "oi"), {2});
      t.rooms["mesa"] == Room({"ana", "bia"}, {1}) && 2 !in t.info && 2 !in t.clients
  {
  }

  /** "ana" alone in room "mesa" on connection 1. */
  function LoneAna(): State {
    State(map["mesa" := Room({"ana"}, {1})], ["mesa"], {1}, map[1 := Member("ana", "mesa", 0)], [])
  }

  /**
   * When the room's only connection fails a broadcast, the room outlives it: it stays in the
   * lobby with its username and no connection, and still satisfies the invariant.
   */
  lemma LoneDeadMemberKeepsRoom()
    ensures var t := Broadcast(LoneAna(), "mesa", ChatLine("ana", "oi"), {1});
      "mesa" in t.rooms && t.rooms["mesa"] == Room({"ana"}, {}) && t.clients == {} && t.info == map[] && Inv(t)
  {
    assert Distinct(["mesa"]);
    var t := Broadcast(LoneAna(), "mesa", ChatLine("ana", "oi"), {1});
    assert {1} - {1} * {1} == {};
    assert t.info == map[];
  }

  /** "ana" on connection 1 last chatted at 1000 ms. */
  function AnaChatted(): State {
    AnaAndBia().(info := AnaAndBia().info[1 := Member("ana", "mesa", 1000)])
  }

  /** A chat 100 ms after the last one is refused as too fast and changes nothing else. */
  lemma CooldownRefuses()
    ensures HandleChat(AnaChatted(), 1, "ana", Some("mesa"), Some("oi"), 1100, {})
         == Send(AnaChatted(), 1, Error(TooFast), {})
  {
    StripTrimmed("mesa");
    StripTrimmed("oi");
    var i := AnaChatted().info[1];
    assert Truthy(i.room) && i.room.value == Clean(Some("mesa"));
    assert 1100 - i.lastChat < ChatCooldownMs;
  }

  /** A chat 400 ms after the last one is accepted: the clock moves and "bia" receives it. */
  lemma CooldownAccepts()
    ensures var t := HandleChat(AnaChatted(), 1, "ana", Some("mesa"), Some("oi"), 1400, {});
      1 in t.info && t.info[1].lastChat == 1400 && t.log == [Outbound({1, 2}, ChatLine("ana", "oi"))]
  {
    StripTrimmed("mesa");
    StripTrimmed("oi");
    var i := AnaChatted().info[1];
    assert Truthy(i.room) && i.room.value == Clean(Some("mesa"));
    assert 1400 - i.lastChat >= ChatCooldownMs;
    assert ChatAccepted(i, Some("mesa"), Some("oi"), 1400);
    ChatBroadcasts(AnaChatted(), 1, "ana", Some("mesa"), Some("oi"), 1400, {});
    var s1 := AnaChatted().(info := AnaChatted().info[1 := i.(lastChat := 1400)]);
    var room := s1.rooms["mesa"];
    assert room.conns * {} == {} && room.conns - {} == {1, 2};
    assert s1.info - {} == s1.info && s1.clients - {} == s1.clients;
    assert room.(conns := room.conns - {}) == room;
  }

  /**
   * A connection whose socket has died moves from "mesa" to a new room "sala": leaving
   * "mesa" refreshes the room list, which discards its session, so the handler raises after
   * it was already added to "sala". The `finally` cannot clean up a session that is gone:
   * "sala" is left with the username and the dead connection.
   */
  lemma DeadCreatorStrandsRoom()
    ensures var t := Handle(AnaAndBia(), 1, CreateRoom(Some("sala")), 0, {1}, false, None, None);
      !t.alive && "sala" in t.state.rooms && t.state.rooms["sala"] == Room({"ana"}, {1}) &&
      1 !in t.state.clients && 1 !in t.state.info
  {
    ScenarioStatesValid();
    StripTrimmed("sala");
    CreateRoutes(AnaAndBia(), 1, Some("sala"), 0, {1}, false, None, None);
    CreateAfterFailedLeave(AnaAndBia(), 1, Some("sala"), {1});
  }
}
