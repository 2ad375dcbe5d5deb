/**
 * The live-session coordination of the backend (backend/server.js), as pure
 * functions over the server's in-memory state. Each socket.io handler
 * (join-room, code-change, disconnect) is one transition from a state to a
 * new state plus the list of events it emits. The class in server.dfy
 * performs the same transitions in place and is proved equal to them.
 */
module Session {

  import opened Wrappers

  type BlockId = string
  type ConnId = string

  datatype Role = Mentor | Student

  /** An outbound socket.io event. `group` is the broadcast group `room-<blockId>`. */
  datatype Event =
    | AssignedRole(conn: ConnId, role: Role)      // socket.emit("role", ...) to the joiner only
    | UserCount(group: string, count: nat)        // io.to(group).emit("user-count", ...)
    | UpdateCode(group: string, code: string)     // io.to(group).emit("update-code", ...)
    | MentorLeft(group: string)                   // io.to(group).emit("mentor-left")

  /**
   * The server's mutable state: `sessions` maps a block id to the ordered
   * list of socket ids that joined it, `codeBlocks` maps a block id to its
   * current shared code, and `roles` is the `role` field of each socket.
   */
  datatype ServerState = ServerState(
    sessions: map<BlockId, seq<ConnId>>,
    codeBlocks: map<BlockId, string>,
    roles: map<ConnId, Role>)

  /** The outcome of handling one inbound event. */
  datatype Step = Step(state: ServerState, events: seq<Event>)

  /** The socket.io broadcast group of a block: "room-" followed by the block id, which can be read back. */
  function Group(b: BlockId): (r: string)
    ensures |r| == |b| + 5 && r[..5] == "room-" && r[5..] == b
  {
    "room-" + b
  }

  /** Distinct blocks broadcast to distinct groups, so a broadcast reaches one room only. */
  lemma GroupInjective(a: BlockId, b: BlockId)
    ensures Group(a) == Group(b) <==> a == b
  {
    if Group(a) == Group(b) {
      assert a == Group(a)[5..];
      assert b == Group(b)[5..];
    }
  }

  /** Two maps agree at key `k`: both lack it, or both hold the same value there. */
  predicate SameAt<K, V(==)>(m: map<K, V>, m': map<K, V>, k: K)
  {
    (k in m <==> k in m') && (k in m ==> m[k] == m'[k])
  }

  /** The member list of a block; a block never joined has none. */
  function Members(sessions: map<BlockId, seq<ConnId>>, b: BlockId): seq<ConnId>
  {
    if b in sessions then sessions[b] else []
  }

  /** Array.prototype.indexOf: the first position of `x` in `s`, or -1. */
  function IndexOf(s: seq<ConnId>, x: ConnId): (r: int)
    ensures -1 <= r < |s|
    ensures r == -1 <==> x !in s
    ensures r != -1 ==> s[r] == x && x !in s[..r]
  {
    if s == [] then -1
    else if s[0] == x then 0
    else
      var k := IndexOf(s[1..], x);
      if k == -1 then -1
      else
        assert s[..k + 1] == [s[0]] + s[1..][..k];
        k + 1
  }

  /** `s.splice(i, 1)` removes exactly one occurrence of `s[i]` and keeps the rest in order. */
  lemma {:induction false} SpliceRemovesOne(s: seq<ConnId>, i: nat)
    requires i < |s|
    ensures multiset(s[..i] + s[i + 1..]) == multiset(s) - multiset{s[i]}
    ensures |s[..i] + s[i + 1..]| == |s| - 1
  {
    assert s == s[..i] + [s[i]] + s[i + 1..];
  }

  // ---------------------------------------------------------------- join-room

  /**
   * join-room: create the block's list if it is missing, make the joiner the
   * mentor exactly when the list is empty, append it, send it its role and
   * broadcast the new member count.
   */
  function Join(s: ServerState, conn: ConnId, b: BlockId): (r: Step)
    ensures b in r.state.sessions && conn in r.state.roles
    ensures r.state.roles[conn] == Mentor <==> b !in s.sessions || s.sessions[b] == []
    ensures r.state.sessions[b] == Members(s.sessions, b) + [conn]
    ensures forall k :: k != b ==> SameAt(s.sessions, r.state.sessions, k)
    ensures forall c :: c != conn ==> SameAt(s.roles, r.state.roles, c)
    ensures r.state.codeBlocks == s.codeBlocks
    ensures r.events == [AssignedRole(conn, r.state.roles[conn]), UserCount(Group(b), |r.state.sessions[b]|)]
  {
    var created := if b in s.sessions then s.sessions else s.sessions[b := []];
    var role := if |created[b]| == 0 then Mentor else Student;
    var joined := created[b := created[b] + [conn]];
    Step(s.(sessions := joined, roles := s.roles[conn := role]),
         [AssignedRole(conn, role), UserCount(Group(b), |joined[b]|)])
  }

  /** A run of join-room events for one block, one per connection, in order. */
  function JoinAll(s: ServerState, conns: seq<ConnId>, b: BlockId): Step
    decreases |conns|
  {
    if conns == [] then Step(s, [])
    else
      var first := Join(s, conns[0], b);
      var rest := JoinAll(first.state, conns[1..], b);
      Step(rest.state, first.events + rest.events)
  }

  /** After a run of joins the block's list is the old list followed by the joiners, in order. */
  lemma {:induction false} JoinAllMembers(s: ServerState, conns: seq<ConnId>, b: BlockId)
    ensures Members(JoinAll(s, conns, b).state.sessions, b) == Members(s.sessions, b) + conns
    decreases |conns|
  {
    if conns != [] {
      var first := Join(s, conns[0], b);
      JoinAllMembers(first.state, conns[1..], b);
      assert Members(s.sessions, b) + conns == Members(first.state.sessions, b) + conns[1..];
    }
  }

  /** A run of joins emits two events per joiner. */
  lemma {:induction false} JoinAllLength(s: ServerState, conns: seq<ConnId>, b: BlockId)
    ensures |JoinAll(s, conns, b).events| == 2 * |conns|
    decreases |conns|
  {
    if conns != [] {
      JoinAllLength(Join(s, conns[0], b).state, conns[1..], b);
    }
  }

  /**
   * The events of the k-th joiner of a run: it is told it is mentor exactly
   * when it is the first joiner of an empty room, and the count broadcast
   * is the old size plus k + 1.
   */
  lemma {:induction false} JoinAllEventsAt(s: ServerState, conns: seq<ConnId>, b: BlockId, k: nat)
    requires k < |conns|
    ensures |JoinAll(s, conns, b).events| == 2 * |conns|
    ensures JoinAll(s, conns, b).events[2 * k] ==
      AssignedRole(conns[k], if k == 0 && Members(s.sessions, b) == [] then Mentor else Student)
    ensures JoinAll(s, conns, b).events[2 * k + 1] == UserCount(Group(b), |Members(s.sessions, b)| + k + 1)
    decreases k
  {
    JoinAllLength(s, conns, b);
    var first := Join(s, conns[0], b);
    var rest := JoinAll(first.state, conns[1..], b).events;
    assert JoinAll(s, conns, b).events == first.events + rest;
    if k > 0 {
      assert Members(first.state.sessions, b) == Members(s.sessions, b) + [conns[0]];
      JoinAllEventsAt(first.state, conns[1..], b, k - 1);
      assert conns[1..][k - 1] == conns[k];
    }
  }

  /**
   * N joins to a room that has no members: the first joiner is the mentor,
   * every later joiner a student, the last count broadcast is N and the
   * room's list is exactly the joiners.
   */
  lemma FreshRoomJoins(s: ServerState, conns: seq<ConnId>, b: BlockId)
    requires Members(s.sessions, b) == [] && conns != []
    ensures var r := JoinAll(s, conns, b);
      && |r.events| == 2 * |conns|
      && r.events[0] == AssignedRole(conns[0], Mentor)
      && (forall k :: 0 < k < |conns| ==> r.events[2 * k] == AssignedRole(conns[k], Student))
      && r.events[|r.events| - 1] == UserCount(Group(b), |conns|)
      && Members(r.state.sessions, b) == conns
  {
    JoinAllMembers(s, conns, b);
    JoinAllEventsAt(s, conns, b, 0);
    JoinAllEventsAt(s, conns, b, |conns| - 1);
    forall k | 0 < k < |conns|
      ensures JoinAll(s, conns, b).events[2 * k] == AssignedRole(conns[k], Student)
    {
      JoinAllEventsAt(s, conns, b, k);
    }
  }

  /**
   * What `obj[k]` reads on a plain JavaScript object `obj` that has no own
   * entry `k` but inherits one from Object.prototype (ECMAScript, sections
   * 20.1.3 and B.2.2): a method, whose `length` is its declared number of
   * parameters, or, for `__proto__`, the prototype object itself, whose
   * `length` is undefined.
   */
  datatype InheritedValue = Method(length: nat) | Prototype

  /** The Object.prototype member a block id names, if any. */
  function Inherited(k: BlockId): Option<InheritedValue>
  {
    if k == "constructor" then Some(Method(1))
    else if k == "toString" || k == "toLocaleString" || k == "valueOf" then Some(Method(0))
    else if k == "hasOwnProperty" || k == "isPrototypeOf" || k == "propertyIsEnumerable" then Some(Method(1))
    else if k == "__lookupGetter__" || k == "__lookupSetter__" then Some(Method(1))
    else if k == "__defineGetter__" || k == "__defineSetter__" then Some(Method(2))
    else if k == "__proto__" then Some(Prototype)
    else None
  }

  /** The outcome of a handler that may throw: it completes with a step, or throws after changing `state`. */
  datatype Outcome = Completed(step: Step) | Threw(state: ServerState)

  /**
   * join-room as written, on the plain object `sessions`: an id naming an
   * inherited member finds that member, which is truthy, so no list is
   * created; the role is set from its `length`, and then `push`, which the
   * member lacks, throws before the socket joins its group or anything is
   * emitted. Every other id behaves as `Join`.
   */
  function JoinAsWritten(s: ServerState, conn: ConnId, b: BlockId): (r: Outcome)
    ensures b in s.sessions || Inherited(b) == None ==> r == Completed(Join(s, conn, b))
    ensures b !in s.sessions && Inherited(b) != None ==>
      && r.Threw?
      && r.state.sessions == s.sessions && r.state.codeBlocks == s.codeBlocks
      && conn in r.state.roles
      && (r.state.roles[conn] == Mentor <==> Inherited(b) == Some(Method(0)))
      && (forall c :: c != conn ==> SameAt(s.roles, r.state.roles, c))
  {
    if b in s.sessions || Inherited(b) == None then Completed(Join(s, conn, b))
    else
      var role := if Inherited(b) == Some(Method(0)) then Mentor else Student;
      Threw(s.(roles := s.roles[conn := role]))
  }

  /**
   * The ids "constructor" and "toString" show the discrepancy: on a fresh
   * server the written handler throws, leaving the joiner in no room with
   * the role student or mentor, where `Join` opens the room with the joiner
   * as its mentor and emits both events.
   */
  lemma InheritedIdJoinThrows(seed: map<BlockId, string>)
    ensures var s := ServerState(map[], seed, map[]);
      && JoinAsWritten(s, "A", "constructor") == Threw(s.(roles := map["A" := Student]))
      && JoinAsWritten(s, "A", "toString") == Threw(s.(roles := map["A" := Mentor]))
      && Join(s, "A", "constructor").state.sessions == map["constructor" := ["A"]]
      && Join(s, "A", "constructor").state.roles == map["A" := Mentor]
      && |Join(s, "A", "constructor").events| == 2
  {
    var s := ServerState(map[], seed, map[]);
    var j := Join(s, "A", "constructor").state.sessions;
    assert "constructor" in j && j["constructor"] == [] + ["A"] == ["A"];
    assert forall k :: k in j <==> k == "constructor";
  }

  // -------------------------------------------------------------- code-change

  /**
   * code-change: create the block's code as "" if it is missing, overwrite it
   * with the new text (last write wins) and broadcast that text to the block's
   * group.
   */
  function CodeChange(s: ServerState, b: BlockId, newCode: string): (r: Step)
    ensures b in r.state.codeBlocks && r.state.codeBlocks[b] == newCode
    ensures forall k :: k != b ==> SameAt(s.codeBlocks, r.state.codeBlocks, k)
    ensures r.state.sessions == s.sessions && r.state.roles == s.roles
    ensures r.events == [UpdateCode(Group(b), newCode)]
  {
    var created := if b in s.codeBlocks then s.codeBlocks else s.codeBlocks[b := ""];
    Step(s.(codeBlocks := created[b := newCode]), [UpdateCode(Group(b), newCode)])
  }

  /** Two successive edits of a block leave only the second text, whatever the first was. */
  lemma CodeChangeLastWriteWins(s: ServerState, b: BlockId, first: string, second: string)
    ensures CodeChange(CodeChange(s, b, first).state, b, second).state == CodeChange(s, b, second).state
  {
  }

  // --------------------------------------------------------------- disconnect

  /**
   * The key order a `for...in` over `sessions` visits: every listed key is a
   * present key and every present key is listed.
   */
  predicate KeyOrder(order: seq<BlockId>, sessions: map<BlockId, seq<ConnId>>)
  {
    (forall i :: 0 <= i < |order| ==> order[i] in sessions) &&
    (forall k :: k in sessions ==> k in order)
  }

  /** The connection is in no room's list. */
  predicate InNoRoom(sessions: map<BlockId, seq<ConnId>>, conn: ConnId)
  {
    forall k :: k in sessions ==> conn !in sessions[k]
  }

  /** The position in `order` of the first room whose list holds `conn`, or -1. */
  function FirstRoomIndex(order: seq<BlockId>, sessions: map<BlockId, seq<ConnId>>, conn: ConnId): (r: int)
    requires forall i :: 0 <= i < |order| ==> order[i] in sessions
    ensures -1 <= r < |order|
    ensures r == -1 <==> forall i :: 0 <= i < |order| ==> conn !in sessions[order[i]]
    ensures r != -1 ==> conn in sessions[order[r]] && forall i :: 0 <= i < r ==> conn !in sessions[order[i]]
  {
    if order == [] then -1
    else if conn in sessions[order[0]] then 0
    else
      var k := FirstRoomIndex(order[1..], sessions, conn);
      if k == -1 then -1 else k + 1
  }

  /** `socket.role === "mentor"`; a socket that never joined has no role. */
  predicate WasMentor(roles: map<ConnId, Role>, conn: ConnId)
  {
    conn in roles && roles[conn] == Mentor
  }

  /**
   * disconnect: find the first room (in key order) whose list holds the
   * socket, splice out its first occurrence there, then either delete the
   * room and broadcast mentor-left (the socket was mentor) or broadcast the
   * new count (the room is kept, even when empty). Later rooms are not visited.
   */
  function Disconnect(s: ServerState, conn: ConnId, order: seq<BlockId>): (r: Step)
    requires KeyOrder(order, s.sessions)
    ensures r.state.codeBlocks == s.codeBlocks && r.state.roles == s.roles
    ensures InNoRoom(s.sessions, conn) ==> r == Step(s, [])
    ensures var i := FirstRoomIndex(order, s.sessions, conn);
      i != -1 ==>
        var b := order[i];
        var before := s.sessions[b];
        var j := IndexOf(before, conn);
        && (forall k :: k != b ==> SameAt(s.sessions, r.state.sessions, k))
        && (WasMentor(s.roles, conn) ==> b !in r.state.sessions && r.events == [MentorLeft(Group(b))])
        && (!WasMentor(s.roles, conn) ==>
              && b in r.state.sessions
              && r.state.sessions[b] == before[..j] + before[j + 1..]
              && multiset(r.state.sessions[b]) == multiset(before) - multiset{conn}
              && r.events == [UserCount(Group(b), |before| - 1)])
  {
    var i := FirstRoomIndex(order, s.sessions, conn);
    if i == -1 then
      Step(s, [])
    else
      var b := order[i];
      var j := IndexOf(s.sessions[b], conn);
      var left := s.sessions[b][..j] + s.sessions[b][j + 1..];
      SpliceRemovesOne(s.sessions[b], j);
      var spliced := s.sessions[b := left];
      if WasMentor(s.roles, conn) then
        Step(s.(sessions := spliced - {b}), [MentorLeft(Group(b))])
      else
        Step(s.(sessions := spliced), [UserCount(Group(b), |spliced[b]|)])
  }

  // ----------------------------------------------- the one-mentor invariant

  /** The first member of a room is its mentor and every later member a student. */
  predicate RolesByPosition(members: seq<ConnId>, roles: map<ConnId, Role>)
  {
    forall i :: 0 <= i < |members| ==> members[i] in roles && roles[members[i]] == (if i == 0 then Mentor else Student)
  }

  /** No socket id occurs twice, in one room's list or across rooms. */
  predicate SingleMembership(sessions: map<BlockId, seq<ConnId>>)
  {
    forall b1, b2, i, j ::
      (b1 in sessions && b2 in sessions && 0 <= i < |sessions[b1]| && 0 <= j < |sessions[b2]| &&
       sessions[b1][i] == sessions[b2][j]) ==> b1 == b2 && i == j
  }

  /** Every room has exactly one mentor, its first member, and every socket is in at most one room. */
  predicate OneMentorPerRoom(s: ServerState)
  {
    (forall b :: b in s.sessions ==> RolesByPosition(s.sessions[b], s.roles)) &&
    SingleMembership(s.sessions)
  }

  /** Under the invariant a member of a room was told mentor exactly when it is the room's first member. */
  lemma MentorIsFirstMember(s: ServerState, b: BlockId, p: nat)
    requires OneMentorPerRoom(s) && b in s.sessions && p < |s.sessions[b]|
    ensures WasMentor(s.roles, s.sessions[b][p]) <==> p == 0
  {
    assert RolesByPosition(s.sessions[b], s.roles);
  }

  /** The server starts with no rooms, whatever code was seeded. */
  lemma InitialOneMentorPerRoom(codeBlocks: map<BlockId, string>)
    ensures OneMentorPerRoom(ServerState(map[], codeBlocks, map[]))
  {
  }

  /**
   * join-room keeps one mentor per room when the joining socket is in no
   * room yet (each browser page joins once per socket).
   */
  lemma JoinKeepsOneMentorPerRoom(s: ServerState, conn: ConnId, b: BlockId)
    requires OneMentorPerRoom(s) && InNoRoom(s.sessions, conn)
    ensures OneMentorPerRoom(Join(s, conn, b).state)
  {
  }

  /** code-change touches neither the member lists nor the roles. */
  lemma CodeChangeKeepsOneMentorPerRoom(s: ServerState, b: BlockId, newCode: string)
    requires OneMentorPerRoom(s)
    ensures OneMentorPerRoom(CodeChange(s, b, newCode).state)
  {
  }

  /** Splicing out a student (any member but the first) keeps the mentor first and the rest students. */
  lemma SpliceKeepsRolesByPosition(before: seq<ConnId>, roles: map<ConnId, Role>, j: nat)
    requires RolesByPosition(before, roles) && 0 < j < |before|
    ensures RolesByPosition(before[..j] + before[j + 1..], roles)
  {
  }

  /** Splicing one member out of one room keeps every socket id unique. */
  lemma SpliceKeepsSingleMembership(sessions: map<BlockId, seq<ConnId>>, b: BlockId, j: nat)
    requires SingleMembership(sessions) && b in sessions && j < |sessions[b]|
    ensures SingleMembership(sessions[b := sessions[b][..j] + sessions[b][j + 1..]])
  {
  }

  /**
   * disconnect keeps one mentor per room: under the invariant the departing
   * socket is mentor exactly when it is the first member of its room, so a
   * student's departure keeps the mentor first, and a mentor's departure
   * removes the room.
   */
  lemma DisconnectKeepsOneMentorPerRoom(s: ServerState, conn: ConnId, order: seq<BlockId>)
    requires OneMentorPerRoom(s) && KeyOrder(order, s.sessions)
    ensures OneMentorPerRoom(Disconnect(s, conn, order).state)
  {
    var i := FirstRoomIndex(order, s.sessions, conn);
    if i != -1 {
      var b := order[i];
      var before := s.sessions[b];
      var j := IndexOf(before, conn);
      var spliced := s.sessions[b := before[..j] + before[j + 1..]];
      SpliceKeepsSingleMembership(s.sessions, b, j);
      if WasMentor(s.roles, conn) {
        assert Disconnect(s, conn, order).state.sessions == spliced - {b};
      } else {
        assert RolesByPosition(before, s.roles);
        SpliceKeepsRolesByPosition(before, s.roles, j);
        assert Disconnect(s, conn, order).state.sessions == spliced;
      }
    }
  }

  /** When no socket id occurs twice, disconnect leaves the socket in no room. */
  lemma DisconnectLeavesNoRoom(s: ServerState, conn: ConnId, order: seq<BlockId>)
    requires SingleMembership(s.sessions) && KeyOrder(order, s.sessions)
    ensures InNoRoom(Disconnect(s, conn, order).state.sessions, conn)
  {
  }

  /**
   * A second disconnect of the same socket is a no-op: when no socket id
   * occurs twice, the first disconnect leaves it in no room.
   */
  lemma DisconnectTwiceIsNoop(s: ServerState, conn: ConnId, order: seq<BlockId>, order': seq<BlockId>)
    requires SingleMembership(s.sessions) && KeyOrder(order, s.sessions)
    requires KeyOrder(order', Disconnect(s, conn, order).state.sessions)
    ensures var t := Disconnect(s, conn, order).state;
      Disconnect(t, conn, order') == Step(t, [])
  {
    DisconnectLeavesNoRoom(s, conn, order);
  }

  /**
   * After the mentor disconnects its room is gone, so the next socket to
   * join that block is elected mentor afresh.
   */
  lemma MentorLeftThenFreshElection(s: ServerState, conn: ConnId, order: seq<BlockId>, next: ConnId)
    requires KeyOrder(order, s.sessions) && WasMentor(s.roles, conn)
    requires FirstRoomIndex(order, s.sessions, conn) != -1
    ensures var b := order[FirstRoomIndex(order, s.sessions, conn)];
      var r := Join(Disconnect(s, conn, order).state, next, b);
      r.state.roles[next] == Mentor && r.events[1] == UserCount(Group(b), 1)
  {
  }

  // ------------------------------------------------------------ empty rooms

  /** Every room has at least one member. */
  predicate NoEmptyRoom(sessions: map<BlockId, seq<ConnId>>)
  {
    forall b :: b in sessions ==> sessions[b] != []
  }

  /** join-room never leaves a room empty: the room it touches gains a member. */
  lemma JoinKeepsNoEmptyRoom(s: ServerState, conn: ConnId, b: BlockId)
    requires NoEmptyRoom(s.sessions)
    ensures NoEmptyRoom(Join(s, conn, b).state.sessions)
  {
  }

  /**
   * Under the one-mentor invariant disconnect never leaves a room empty: a
   * departing student is not its room's first member, so at least the
   * mentor stays. An empty room therefore needs a join by a socket still in a room.
   */
  lemma DisconnectKeepsNoEmptyRoom(s: ServerState, conn: ConnId, order: seq<BlockId>)
    requires OneMentorPerRoom(s) && NoEmptyRoom(s.sessions) && KeyOrder(order, s.sessions)
    ensures NoEmptyRoom(Disconnect(s, conn, order).state.sessions)
  {
    var i := FirstRoomIndex(order, s.sessions, conn);
    if i != -1 && !WasMentor(s.roles, conn) {
      var b := order[i];
      var j := IndexOf(s.sessions[b], conn);
      MentorIsFirstMember(s, b, j);
      assert |s.sessions[b]| >= 2;
    }
  }

  /** The state after X joins room 1, then A joins room 2, then X joins room 2 as well. */
  lemma RejoinState(seed: map<BlockId, string>)
    ensures var s1 := Join(ServerState(map[], seed, map[]), "X", "1").state;
      var s3 := Join(Join(s1, "A", "2").state, "X", "2").state;
      s3 == ServerState(map["1" := ["X"], "2" := ["A", "X"]], seed, map["A" := Mentor, "X" := Student])
  {
    var s1 := Join(ServerState(map[], seed, map[]), "X", "1").state;
    assert s1.sessions["1"] == [] + ["X"] == ["X"];
    var s2 := Join(s1, "A", "2").state;
    assert s2.sessions["2"] == [] + ["A"] == ["A"] && s2.sessions["1"] == ["X"];
    var s3 := Join(s2, "X", "2").state;
    assert s3.sessions["2"] == ["A"] + ["X"] == ["A", "X"] && s3.sessions["1"] == ["X"];
    assert forall k :: k in s3.sessions <==> k == "1" || k == "2";
    assert forall c :: c in s3.roles <==> c == "A" || c == "X";
  }

  /**
   * A socket that joins a second room becomes a student there, and the
   * role field is overwritten while it is still the first member of its
   * first room. `for...in` visits the integer-like keys "1" and "2" in
   * ascending order, so its departure is taken from room 1, which is then
   * kept with no members.
   */
  lemma RejoinLeavesEmptyRoom(seed: map<BlockId, string>)
    ensures var s1 := Join(ServerState(map[], seed, map[]), "X", "1").state;
      var s3 := Join(Join(s1, "A", "2").state, "X", "2").state;
      && KeyOrder(["1", "2"], s3.sessions)
      && !OneMentorPerRoom(s3)
      && var r := Disconnect(s3, "X", ["1", "2"]);
         "1" in r.state.sessions && r.state.sessions["1"] == [] && r.events == [UserCount("room-1", 0)]
  {
    RejoinState(seed);
    var s3 := ServerState(map["1" := ["X"], "2" := ["A", "X"]], seed, map["A" := Mentor, "X" := Student]);
    assert s3.sessions["1"][0] == "X" && s3.roles["X"] != Mentor;
    assert !RolesByPosition(s3.sessions["1"], s3.roles);
    assert FirstRoomIndex(["1", "2"], s3.sessions, "X") == 0;
    assert IndexOf(s3.sessions["1"], "X") == 0;
    assert Group("1") == "room-1";
  }
}
