# Live coding rooms: a verified model of the session coordination

The system pairs one mentor with any number of students in a live-coding
room keyed by a code-block id. The backend keeps three pieces of in-memory
state: `sessions` maps a block id to the ordered list of socket ids that
joined it, `codeBlocks` maps a block id to its current shared code, and each
socket has a `role` field. Three socket.io handlers change this state.

- **join-room** makes the joiner the mentor exactly when the room's list is
  missing or empty. It appends the joiner, sends it its role and broadcasts
  the new member count.
- **code-change** creates the block's code as `""` when it is missing. It
  then overwrites the code (last write wins) and broadcasts the text
  unchanged.
- **disconnect** visits the rooms in key order and stops at the first room
  whose list holds the socket. It splices out the first occurrence there.
  A departing mentor deletes the room and triggers `mentor-left`. Otherwise
  the new count is broadcast and the room is kept, even when it is empty.

On the client, `normalizeCode` deletes all whitespace. `handleCodeChange`
stores an edit, sends it to the server and shows the smiley when the edit
matches the solution up to whitespace.

Files:

- `session.dfy`, module `Session`: the server state as a value. It holds
  each handler as a transition function that returns the new state and the
  emitted events, and the lemmas about these transitions. The main lemmas
  cover runs of joins, last-write-wins, a second disconnect doing nothing,
  and the one-mentor-per-room invariant.
- `server.dfy`, module `Server`: class `RoomServer`. Its fields are
  `sessions`, `codeBlocks` and the per-socket roles. The handler methods
  update the fields in place, and each method is proved to perform exactly
  its `Session` transition. The `disconnect` handler keeps the source's
  `for...in` loop with its early `break`. `RoomScenario` checks the
  four steps of a room "42" (two joins, an edit, the mentor's departure)
  by assertions about the class's fields and events.
- `editor.dfy`, module `Editor`: `normalizeCode` as functions (a global
  replace of whitespace runs, then `trim`). A reference function
  `WithoutSpace` drops each whitespace character, and the lemmas relate the
  two. Class `CodeBlockPage` holds the state `handleCodeChange` writes.
- `wrappers.dfy`, module `Wrappers`: `Option`.

Events are values, not deliveries. `AssignedRole(conn, role)` is the unicast
`role` event. `UserCount(group, n)`, `UpdateCode(group, text)` and
`MentorLeft(group)` are broadcasts to the group `room-<blockId>`.
`GroupInjective` shows that distinct blocks have distinct groups, so a
broadcast reaches one room only.

Two consequences of the code are worth stating:

- Only a mentor's departure deletes a room. A student's departure keeps the
  room, and the next joiner of an emptied room is elected mentor. A room
  can become empty only after a socket joined while still in a room:
  `DisconnectKeepsNoEmptyRoom` shows that under the one-mentor invariant a
  departing student is never its room's first member, and
  `RejoinLeavesEmptyRoom` gives a double join that leaves a room empty
  under the key order `for...in` really uses.
- One mentor per room holds as long as every `join-room` comes from a
  socket that is in no room. The page emits `join-room` once per socket, so
  the shipped client always meets this. A join by a socket that is still in
  a room overwrites `socket.role` and breaks the invariant.
  `JoinKeepsOneMentorPerRoom` therefore requires the joiner to be in no
  room.
  `DisconnectKeepsOneMentorPerRoom` and `CodeChangeKeepsOneMentorPerRoom`
  need no extra assumption.

## Model

| member | source | states |
|---|---|---|
| Session.Group | backend/server.js:72 | the group of a block is `room-` followed by the block id, which can be read back from it |
| Session.GroupInjective | backend/server.js:72-76 | `room-<a>` and `room-<b>` are the same group exactly when a and b are the same block |
| Session.IndexOf | backend/server.js:90 | the result is -1 exactly when the socket is absent; otherwise it is a position holding the socket, with no earlier occurrence |
| Session.SpliceRemovesOne | backend/server.js:94 | `splice(i, 1)` removes exactly one occurrence of the element at i (as multisets) and shortens the list by one |
| Session.Join | backend/server.js:64-77 | the joiner is mentor iff the room's list was absent or empty, else student; the room's list becomes the old list plus the joiner at the end; other rooms, other sockets' roles and the code are unchanged; the events are the role (to the joiner) then a count equal to the new list length |
| Session.JoinAsWritten | backend/server.js:64-71 | on a plain object, an id naming an Object.prototype member (not an own entry) makes the handler throw: no list is created, nothing is emitted, and the role is set from the member's `length` (mentor iff it is 0), and the other sockets' roles and the code are unchanged; every other id behaves exactly as `Session.Join` |
| Session.InheritedIdJoinThrows | backend/server.js:65-71 | on a fresh server, join-room with id "constructor" throws leaving the joiner student in no room, with "toString" it throws leaving it mentor in no room, whereas `Session.Join` opens the room with the joiner as mentor and emits two events |
| Session.JoinAllMembers | backend/server.js:65-71 | after a run of joins the room's list is the old list followed by the joiners in order |
| Session.JoinAllLength | backend/server.js:74-76 | a run of joins emits exactly two events per joiner |
| Session.JoinAllEventsAt | backend/server.js:69-76 | in a run of joins the k-th joiner is told mentor iff it is the first joiner of an empty room, else student, and the k-th count broadcast is the old size plus k+1 |
| Session.FreshRoomJoins | backend/server.js:65-76 | N joins to an empty room: the first joiner is mentor, all later ones students, the last count is N, and the list is exactly the joiners |
| Session.CodeChange | backend/server.js:79-86 | the block's code becomes the new text, creating the entry if absent; other blocks' code, the lists and the roles are unchanged; the only event is the text, unchanged, to this block's group |
| Session.CodeChangeLastWriteWins | backend/server.js:80-84 | two successive edits of a block leave the same state as the second edit alone |
| Session.FirstRoomIndex | backend/server.js:89-103 | the first position in key order whose room holds the socket; -1 exactly when no room holds it |
| Session.Disconnect | backend/server.js:88-105 | a socket in no room changes nothing and emits nothing; otherwise only the first room holding it changes: a mentor deletes it and emits mentor-left; a student has its first occurrence spliced out (one occurrence fewer), the room is kept and the count emitted is the old length minus one; code and roles are unchanged |
| Session.MentorIsFirstMember | backend/server.js:93 | under the one-mentor invariant `socket.role === "mentor"` holds for a room's member exactly when it is the room's first member |
| Session.InitialOneMentorPerRoom | backend/server.js:15-17 | the empty starting state satisfies the one-mentor invariant, whatever code was seeded |
| Session.JoinKeepsOneMentorPerRoom | backend/server.js:64-77 | if every room's first member is its mentor, every other member is a student and no socket id occurs twice, a join by a socket in no room keeps all of that |
| Session.CodeChangeKeepsOneMentorPerRoom | backend/server.js:79-86 | code-change keeps the one-mentor invariant |
| Session.SpliceKeepsRolesByPosition | backend/server.js:94 | splicing out any member but the first keeps the first member mentor and the rest students |
| Session.SpliceKeepsSingleMembership | backend/server.js:94 | splicing one member out of one room keeps every socket id unique |
| Session.DisconnectKeepsOneMentorPerRoom | backend/server.js:88-105 | disconnect keeps the one-mentor invariant: a student's departure never removes a mentor, and a mentor's departure removes the whole room |
| Session.DisconnectLeavesNoRoom | backend/server.js:89-103 | when no socket id occurs twice, after disconnect the socket is in no room's list |
| Session.DisconnectTwiceIsNoop | backend/server.js:89-103 | when no socket id occurs twice, a second disconnect of the same socket changes nothing and emits nothing |
| Session.MentorLeftThenFreshElection | backend/server.js:96-98 | after the mentor leaves, the next joiner of that block is elected mentor and the count restarts at 1 |
| Session.JoinKeepsNoEmptyRoom | backend/server.js:65-71 | join-room never leaves a room without members |
| Session.DisconnectKeepsNoEmptyRoom | backend/server.js:89-103 | under the one-mentor invariant disconnect never leaves a room without members: a departing student is not the first member, so the mentor stays |
| Session.RejoinLeavesEmptyRoom | backend/server.js:64-105 | X joins room 1, A joins room 2, X joins room 2 as a student: the invariant is broken, and X's departure, visiting "1" before "2" as `for...in` does, leaves room 1 kept with no members and broadcasts a count of 0 to it |
| Server.RoomServer.constructor | backend/server.js:15-29 | a started server has no rooms and no roles; its code map is whatever the start-up query loaded; the invariant holds |
| Server.RoomServer.JoinRoom | backend/server.js:64-77 | the in-place handler leaves the fields and returns the events of `Session.Join` |
| Server.RoomServer.ChangeCode | backend/server.js:79-86 | the in-place handler leaves the fields and returns the events of `Session.CodeChange` |
| Server.RoomServer.Disconnect | backend/server.js:88-105 | the `for...in` loop with `break` leaves the fields and returns the events of `Session.Disconnect` for the given key order |
| Editor.DropLeadingSpace | frontend/src/CodeBlockPage.jsx:81 | skipping leading whitespace never lengthens the text, shortens it when it starts with whitespace, and leaves text that is empty or starts with a non-whitespace character |
| Editor.DropLeadingSpaceIsSuffix | frontend/src/CodeBlockPage.jsx:81 | the leading-whitespace skip returns the rest of the text after a prefix made only of whitespace |
| Editor.DropTrailingSpace | frontend/src/CodeBlockPage.jsx:81 | the result of trimEnd is a prefix of the text that is empty or ends with a non-whitespace character, and it keeps every non-whitespace character |
| Editor.DropTrailingSpaceDropsSpace | frontend/src/CodeBlockPage.jsx:81 | every character trimEnd drops is whitespace |
| Editor.Trim | frontend/src/CodeBlockPage.jsx:81 | `trim` never lengthens the text, its result neither starts nor ends with whitespace, and it keeps every non-whitespace character |
| Editor.TrimIsInfix | frontend/src/CodeBlockPage.jsx:81 | `trim` returns one contiguous part of the text, interior whitespace included, and only whitespace lies before and after it |
| Editor.ReplaceSpaceRuns | frontend/src/CodeBlockPage.jsx:81 | replacing every maximal whitespace run by "" equals dropping each whitespace character and keeping the others in order |
| Editor.NormalizeCode | frontend/src/CodeBlockPage.jsx:80-82 | normalizeCode equals the input with every whitespace character removed and the others kept in order, and its result contains no whitespace |
| Editor.WithoutSpaceAppend | frontend/src/CodeBlockPage.jsx:81 | removing whitespace works character by character, in order: it distributes over concatenation |
| Editor.WithoutSpaceIsSpaceless | frontend/src/CodeBlockPage.jsx:81 | the text with whitespace removed contains no whitespace |
| Editor.WithoutSpaceOfSpaceless | frontend/src/CodeBlockPage.jsx:81 | removing whitespace from text without whitespace changes nothing |
| Editor.DropLeadingSpaceKeepsText | frontend/src/CodeBlockPage.jsx:81 | skipping a whitespace run loses no non-whitespace character |
| Editor.TrimSpaceless | frontend/src/CodeBlockPage.jsx:81 | `trim` of text without whitespace changes nothing |
| Editor.NormalizeCodeIdempotent | frontend/src/CodeBlockPage.jsx:80-82 | normalizing twice equals normalizing once |
| Editor.SolvedIffSameText | frontend/src/CodeBlockPage.jsx:92 | the normalized edit equals the normalized solution iff both have the same non-whitespace characters in the same order |
| Editor.InsertedSpaceIsIgnored | frontend/src/CodeBlockPage.jsx:79-82 | inserting a whitespace character anywhere leaves the normalized text unchanged |
| Editor.CodeBlockPage.constructor | frontend/src/CodeBlockPage.jsx:22-26 | a page starts with empty code and the smiley hidden |
| Editor.CodeBlockPage.HandleCodeChange | frontend/src/CodeBlockPage.jsx:84-98 | the code always becomes the edit; with a socket the edit is sent for this block and the smiley is shown iff the edit matches the solution up to whitespace; without a socket nothing is sent and the smiley is unchanged |

## Left out

- The REST endpoints `/code-blocks` and `/code-block/:id` (backend/server.js:35-61) are database queries and HTTP responses, not session logic.
- backend/db.js is PostgreSQL pool configuration; the start-up seeding query (backend/server.js:20-29) appears only as the constructor's arbitrary `seed` map, and its failure path as an empty seed.
- The socket.io transport: `socket.join`, the delivery of `io.to(...).emit` to connected sockets, CORS and `server.listen`. Broadcasts are returned event values naming their group. Socket-group membership is not modelled, so a socket that edits without joining is not tracked as a group member.
- Server.RoomServer.Disconnect: the `for...in` key order of a JavaScript object (integer-like keys ascending, then insertion order) is not computed; the caller supplies it as `order`, required only to list exactly the present keys.
- Session.Disconnect: the departed socket's `role` stays in the role map, as the source never clears `socket.role`; no later event can come from that socket.
- A missing `blockId` in a payload (key `"undefined"` in JavaScript) is not modelled.
- Session.Join, Session.CodeChange, Session.Disconnect: `sessions` and `codeBlocks` are plain objects, so an id naming an Object.prototype member ("constructor", "toString", "toLocaleString", "valueOf", "hasOwnProperty", "isPrototypeOf", "propertyIsEnumerable", "__defineGetter__", "__defineSetter__", "__lookupGetter__", "__lookupSetter__", "__proto__") reads that member. For join-room this is modelled as written by `Session.JoinAsWritten` (the handler throws; see Findings); the rest of the model treats such ids as ordinary keys. What the thrown TypeError then does to the server process is not modelled.
- Session.CodeChange: code-change with one of these ids does not throw. With "__proto__" it sets `code` on Object.prototype itself, after which every `for...in` over `sessions` also visits a key "code"; with the others it stores the code on the shared inherited function. Neither effect is modelled: both are reachable only through a client-chosen id naming an inherited member, and the model treats `sessions` and `codeBlocks` as holding their own keys only. After the "__proto__" write, the `for...in` of disconnect (backend/server.js:89) visits "code" and throws at `splice` when the text contains the socket's id, and a join-room with id "code" throws at `push`; neither is modelled.
- Editor: the exact Unicode set of `\s` and `trim` is the parameter `ws`. The model uses one set for both, as ECMAScript does.
- Editor.CodeBlockPage: the React parts are not modelled. This covers hooks and effects, the axios fetch that sets `code` and `solution`, the socket listeners that set role, count and code, navigation, alerts, the Monaco editor and the JSX layout. The fetched solution and the presence of the socket are constructor parameters. LobbyPage.jsx and App.jsx (routing and lists) are not part of this model.
- Concurrency: the server handles one event at a time, so each handler is one atomic step; interleavings across processes are not modelled.

## Findings

| source | as written | input that shows it | evidently intended | confidence | as-written member | corrected member |
|---|---|---|---|---|---|---|
| backend/server.js:65-71 | `!sessions[blockId]` is false for an id naming an inherited Object.prototype member, so no list is created, `socket.role` is set from that member's `length`, and `sessions[blockId].push` throws a TypeError before the socket joins its group or any event is sent | join-room with blockId "constructor" (or "toString", "__proto__", …) on a fresh server | every block id opens its own room: the first joiner is mentor, it is appended, and the role and count events are sent | not executed | Session.JoinAsWritten, Session.InheritedIdJoinThrows | Session.Join |
