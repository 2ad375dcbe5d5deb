/**
 * The socket.io connection handlers of backend/server.js as a class whose
 * fields are the server's module-level dictionaries. Each handler updates
 * the fields in place and returns the events it emits; its postcondition
 * says that the new fields and the events are exactly the transition of
 * the same name in module Session.
 */
module Server {

  import opened Session

  class RoomServer {
    /** block id -> socket ids that joined it, in join order */
    var sessions: map<BlockId, seq<ConnId>>
    /** block id -> current shared code */
    var codeBlocks: map<BlockId, string>
    /** socket id -> the `role` field set on that socket by join-room */
    var roles: map<ConnId, Role>

    /** The fields as one value. */
    function Snapshot(): ServerState
      reads this
    {
      ServerState(sessions, codeBlocks, roles)
    }

    /**
     * A freshly started server: no rooms and no roles; `seed` is whatever
     * code the start-up query loaded into `codeBlocks`.
     */
    constructor (seed: map<BlockId, string>)
      ensures Snapshot() == ServerState(map[], seed, map[])
      ensures OneMentorPerRoom(Snapshot())
    {
      sessions := map[];
      codeBlocks := seed;
      roles := map[];
    }

    /** The join-room handler. */
    method JoinRoom(conn: ConnId, blockId: BlockId) returns (events: seq<Event>)
      modifies this
      ensures Step(Snapshot(), events) == Join(old(Snapshot()), conn, blockId)
    {
      if blockId !in sessions {
        sessions := sessions[blockId := []];
      }
      var role := if |sessions[blockId]| == 0 then Mentor else Student;
      roles := roles[conn := role];
      sessions := sessions[blockId := sessions[blockId] + [conn]];
      events := [AssignedRole(conn, role), UserCount(Group(blockId), |sessions[blockId]|)];
    }

    /** The code-change handler. */
    method ChangeCode(blockId: BlockId, newCode: string) returns (events: seq<Event>)
      modifies this
      ensures Step(Snapshot(), events) == CodeChange(old(Snapshot()), blockId, newCode)
    {
      if blockId !in codeBlocks {
        codeBlocks := codeBlocks[blockId := ""];
      }
      codeBlocks := codeBlocks[blockId := newCode];
      events := [UpdateCode(Group(blockId), newCode)];
    }

    /**
     * The disconnect handler. `order` is the order in which `for...in`
     * visits the keys of `sessions`.
     */
    method Disconnect(conn: ConnId, order: seq<BlockId>) returns (events: seq<Event>)
      requires KeyOrder(order, sessions)
      modifies this
      ensures Step(Snapshot(), events) == Session.Disconnect(old(Snapshot()), conn, order)
    {
      events := [];
      var i := 0;
      while i < |order|
        invariant 0 <= i <= |order|
        invariant forall p :: 0 <= p < i ==> conn !in sessions[order[p]]
        invariant Snapshot() == old(Snapshot()) && events == []
      {
        var blockId := order[i];
        var userIndex := IndexOf(sessions[blockId], conn);
        if userIndex != -1 {
          var wasMentor := conn in roles && roles[conn] == Mentor;
          sessions := sessions[blockId := sessions[blockId][..userIndex] + sessions[blockId][userIndex + 1..]];
          if wasMentor {
            events := [MentorLeft(Group(blockId))];
            sessions := sessions - {blockId};
          } else {
            events := [UserCount(Group(blockId), |sessions[blockId]|)];
          }
          assert i == FirstRoomIndex(order, old(sessions), conn);
          break;
        }
        i := i + 1;
      }
    }
  }

  /**
   * The scenario of one room "42": A joins and is mentor, B joins and is
   * student, A's edit reaches the room's group, and A's departure tears the
   * room down.
   */
  method RoomScenario()
  {
    var server := new RoomServer(map[]);
    assert Group("42") == "room-42";
    var e1 := server.JoinRoom("A", "42");
    assert e1 == [AssignedRole("A", Mentor), UserCount("room-42", 1)];
    assert "42" in server.sessions && server.sessions["42"] == ["A"];
    assert server.sessions == map["42" := ["A"]];
    var e2 := server.JoinRoom("B", "42");
    assert e2 == [AssignedRole("B", Student), UserCount("room-42", 2)];
    assert ["A"] + ["B"] == ["A", "B"];
    assert server.sessions == map["42" := ["A", "B"]];
    var e3 := server.ChangeCode("42", "x=1");
    assert e3 == [UpdateCode("room-42", "x=1")];
    assert server.sessions == map["42" := ["A", "B"]] && server.roles["A"] == Mentor;
    var e4 := server.Disconnect("A", ["42"]);
    assert e4 == [MentorLeft("room-42")];
    assert "42" !in server.sessions && server.codeBlocks["42"] == "x=1";
  }
}
