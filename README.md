# Signalling relay: peer registry and message router

This project models the core of a WebRTC signalling server written in
TypeScript on socket.io. The server keeps a list of connected socket ids,
`activeSockets`. When a socket connects, the `connection` handler checks for
the id with `find` and, if the check lets it through, pushes the id. It then
sends the new peer the roster of the other peers and tells everybody else the
new id. A `disconnect` handler filters the id out and broadcasts its
removal. Three signalling handlers (`call-user`, `make-answer`,
`reject-call`) reshape a peer's message and forward it to the peer it names,
stamped with the sender's id.

Files:

- `registry.dfy` (module `Registry`) holds the pure parts of the registry.
  These are `find` (as `Find`), the truthiness guard (`Admits`), `filter`
  (`Without`) and the registry after one connection (`AfterConnect`). It also
  holds histories of connects and disconnects (`Op`, `Run`) and the
  no-duplicates and membership lemmas about them.
- `events.dfy` (module `Events`) holds the outbox records
  `Event(recipients, name, payload)`, the events each handler emits
  (`ConnectEvents`, `Routed`) and lemmas about them.
  Offer and answer blobs are a type parameter `Blob`, so they are never
  inspected and pass through unchanged.
- `server.dfy` (module `SignalingServer`) holds the class `Server<Blob>`.
  Its field `activeSockets` is reassigned in place by the handler methods,
  and its field `outbox` records every emitted event in order. A ghost field
  `history` keeps the handler runs so far. The class invariant `Valid()`
  says the registry equals `Run([], history)` and lists no non-empty id
  twice.

The duplicate check tests the truthiness of what `find` returns, and it is
modelled as written. An empty id is therefore admitted again even when it is
already listed (`EmptyIdReadmitted`, `EmptyIdAnnouncedAgain`). The invariant
that always holds is "no duplicates except of the empty id". "No duplicates
at all" holds whenever no connection uses the empty id (`RunDistinct`).

The constructor registers the `connection` handler twice, once through
`initialize` and once directly. Every real connection therefore runs the
handler twice. `Server.OnConnection` runs `Connect` twice, and its contract
states that for a non-empty id the effect is that of a single run, while the
empty id is admitted and announced twice (four events).

Three facts about the code shape the model:

- The router does not look the target up in the registry. It emits to the
  socket.io room named by the target id (src/server.ts:66,73,80), and the
  model records exactly that address (`Room(id)`).
- The roster sent to a new peer is an ordered list: the registry after the
  push, filtered (src/server.ts:44-49).
- The id is the one socket.io gives the socket (`socket.id`). The server does
  not assign it.

## Model

| member | source | states |
|---|---|---|
| Registry.Find | src/server.ts:39-41 | the lookup finds something exactly when the id is listed, and what it finds is that id |
| Registry.Admits | src/server.ts:39-43 | the guard lets an id through exactly when it is not listed or is the empty (falsy) id |
| Registry.Without | src/server.ts:57-59 | the filter keeps exactly the entries different from the id: membership is the old one minus the id, and the multiset of entries is the old one with every copy of the id removed |
| Registry.AfterConnect | src/server.ts:39-44 | an absent id is appended at the end; a listed non-empty id leaves the registry unchanged; the empty id is always appended; afterwards the id is listed |
| Registry.WithoutConcat | src/server.ts:57-59 | filtering distributes over concatenation, so the remaining ids keep their relative order |
| Registry.WithoutAbsent | src/server.ts:57-59 | disconnecting an id that is not listed leaves the registry unchanged |
| Registry.WithoutIdempotent | src/server.ts:57-59 | disconnecting twice equals disconnecting once |
| Registry.WithoutKeepsDistinct | src/server.ts:57-59 | filtering preserves the no-duplicates invariant |
| Registry.ConnectKeepsDistinct | src/server.ts:39-44 | a connection preserves "no duplicate of a non-empty id" |
| Registry.EmptyIdReadmitted | src/server.ts:39-44 | an empty id that is already listed is pushed again, and the registry then holds a duplicate |
| Registry.ConnectTwice | src/server.ts:39-44 | for a non-empty id a second connection run leaves the registry as the first left it |
| Registry.RunKeepsDistinct | src/server.ts:39-59 | no history of connects and disconnects brings a duplicate non-empty id into a registry that has none |
| Registry.RunListsConnected | src/server.ts:39-59 | every listed id was connected at some point of the history |
| Registry.RunDistinct | src/server.ts:39-59 | if no connect in the history uses the empty id (disconnects may), the registry never holds a duplicate |
| Registry.LiveStep | src/server.ts:39-59 | an id is live after one more handler run exactly when that run connected it, or it was live before and the run did not disconnect it |
| Registry.RunMembership | src/server.ts:39-59 | an id is listed exactly when it was connected and not disconnected since (ids admitted minus ids removed) |
| Events.Routed | src/server.ts:65-83 | call-user becomes call-made to the target with the offer unchanged; make-answer becomes answer-made to the target with the answer unchanged; reject-call becomes call-rejected addressed to `from`; each is stamped with the sender |
| Events.ConnectEvents | src/server.ts:43-54 | one connection run emits something exactly when the guard admits the id; then it emits two events: first update-user-list to the new peer with a roster drawn from the registry that never contains the new id, then update-user-list with `[id]` to every other peer |
| Events.FreshAdmission | src/server.ts:39-54 | admitting an absent id appends it and keeps every other entry at its position; the new peer first gets update-user-list with exactly the previous registry in order, which never contains its own id; then everyone else gets update-user-list with `[id]` |
| Events.DuplicateAdmission | src/server.ts:39-43 | connecting a listed non-empty id changes nothing and emits nothing |
| Events.SecondRunSilent | src/server.ts:15-29 | with the handler registered twice, the second run for a non-empty id changes nothing and emits nothing |
| Events.EmptyIdAnnouncedAgain | src/server.ts:39-54 | a listed empty id is announced again by both notifications, and its roster leaves out every listed empty id |
| Events.Departure | src/server.ts:57-59 | disconnect removes every occurrence of the id and keeps every other id |
| Events.RouteRoundTrip | src/server.ts:65-83 | the sender and the whole inbound message can be recovered from the forwarded event, so nothing is lost or altered |
| Events.CallFlow | src/server.ts:65-83 | a call from A to B reaches B stamped with A; B's answer or rejection sent back to that stamp reaches A stamped with B |
| SignalingServer.Server.constructor | src/server.ts:13 | the registry, the outbox and the history of handler runs start empty, so the history lemmas apply to the runs a client makes |
| SignalingServer.Server.Connect | src/server.ts:38-54 | one handler run: the registry becomes `AfterConnect` of the old one, the outbox gains `ConnectEvents` in order, and the invariant is kept |
| SignalingServer.Server.OnConnection | src/server.ts:15-29 | both registered handler runs for one socket: the registry and the outbox are those of two consecutive runs; for a non-empty id that is the result of a single run, and for the empty id four events are emitted |
| SignalingServer.Server.Disconnect | src/server.ts:56-62 | the registry is filtered, then remove-user with `socketId = id`, addressed to every peer but the departing one, is appended to the outbox; the invariant is kept |
| SignalingServer.Server.Route | src/server.ts:65-83 | the reshaped message is appended to the outbox and the registry is unchanged |

## Left out

- Express setup, the `/` route, static file serving, `listen` and the port
  (src/server.ts:22-35, 88-96) are HTTP plumbing with no registry logic.
- socket.io delivery is left out: rooms, the sender's exclusion from
  `socket.to`, what happens when no socket is in the target room, and how far
  `broadcast` reaches. An event is modelled only as its addressed outbox
  record. A message routed to a peer that is not connected is therefore
  recorded, not dropped.
- Handler registration per socket is not tracked. The `disconnect` and
  signalling handlers are registered only in the admitted branch.
  `Disconnect` and `Route` may be called for any id, and the double
  registration of those handlers for a re-admitted empty id is not modelled.
- Inbound messages are assumed well-formed: `Inbound` always carries the
  fields its kind needs. The handlers read `data.to`, `data.offer`,
  `data.answer` and `data.from` without checks (src/server.ts:65-82). A message
  sent with no payload makes `data.to` or `data.from` throw a TypeError inside
  the handler, and a payload without `to` makes the handler call
  `socket.to(undefined)`. Neither case is modelled.
- Concurrency is left out. Node's event loop runs one handler at a time, so
  each handler run is one atomic method call.
- Server.Disconnect: the outbox does not record registry snapshots. That the
  broadcast comes after the removal is visible only in the method body, not
  in its contract.
