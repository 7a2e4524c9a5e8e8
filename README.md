# Livestream signalling coordinator, in Dafny

This project models the signalling coordinator of the livestream page
(`res/module/main.js`): the `start(isCreator)` closure and `cleanupOnExit`.
Two pages share a screen-capture stream over a direct peer connection. They
first exchange an offer, an answer and ICE candidates through a Firebase
Realtime Database room at `livestream/rooms/<roomId>`. The creator makes up an
8-character room id and publishes the offer. The joiner types the id in,
applies the offer and publishes an answer. Each side pushes its own candidates
to its own log (`callerCandidates` for the creator, `calleeCandidates` for
the joiner). Each side also subscribes to the other side's log. A remote
candidate that arrives before the remote description is held in
`pendingCandidates` and applied once that description is set. On page exit the
participant record goes away, and the room goes too once nobody is left.

Files, one module each:

- `signaling.dfy` (`Signaling`): the opaque values (session descriptions,
  candidates), a room node, candidate routing and how the room id is chosen.
- `room_store.dfy` (`RoomStore`): the store as a map from room id to room.
  Each write is a function over that map, and `AfterCleanup` is the exit
  cleanup. Lemmas cover the cleanup. The class `Database` is the store
  itself; its methods change the map exactly as those functions say.
  `CleanupAsWritten` is the exit cleanup as the page reads it (see
  "## Findings"). As in
  Firebase, a node left without children is not kept (`Put`).
- `engine.dfy` (`Engine`): the observable state of the `RTCPeerConnection`.
  That is its local and remote descriptions and the candidates handed to
  `addIceCandidate`, which the engine accepts only once a remote description
  is set.
- `negotiation.dfy` (`Negotiation`): what the answer, offer and candidate-log
  handlers do to one side's state, as functions. It also runs them over a
  sequence of store notifications and holds the lemmas about such runs.
- `coordinator.dfy` (`Coordinator`): the class `Session`. It holds the state
  the closure shares (`roomId`, `peerConnection`, `pendingCandidates`, the
  captured `isCreator`) and the store, with one method per callback. Each
  callback is proved to change the peer state exactly as the `Negotiation`
  function for it says. `Valid()` holds between callbacks. It says the
  presence marker is this page's first store write, every write goes to this
  page's room, candidates go only to this side's own log, an offer is
  published only while it is the local description, and that whenever an
  answer write is recorded, a remote description is set and the local one
  is that answer. It also says that no candidate is held once a remote
  description is set.
- `scenario.dfy` (`Scenario`): two pages on one store run the whole exchange,
  and a join with an empty room id changes nothing.

Modelling choices:

- Each callback runs atomically. The handler's snapshot value is a parameter.
  So are the engine's outputs (`createOffer`, `createAnswer`), the UUID, the
  prompt reply and whether screen capture was granted.
- A cancelled prompt (null) and an empty reply both leave `roomId` as the
  empty string. With one `start` per page only its falsiness matters
  afterwards. The page itself also uses the value: line 34 builds the exit
  read from it, so after a cancelled second prompt that read goes to
  `rooms/null` (see "## Findings").
- The description guard reads `currentRemoteDescription` (lines 88 and 109).
  The candidate path reads `remoteDescription` (lines 98 and 123). The model
  keeps a single `remoteDescription` for both. Once the handlers are atomic,
  both are set or both unset at the end of every handler: the creator's
  answer and the joiner's offer-then-answer each leave the connection stable.
- Where a signalling layer would usually do otherwise, the model follows
  what the code does:
  - A replayed snapshot is handled again, with no deduplication, so one
    candidate can be applied twice (`ReplayReappliesCandidate`,
    `ReplayBuffersCandidateTwice`). Nothing makes each candidate apply at
    most once.
  - A null (end-of-candidates) event is dropped, not forwarded.
  - Remove-on-disconnect removes only the participant record. It never
    deletes the room, so a room whose last page drops without running the
    exit cleanup is left behind (`DisconnectLeavesOrphan`).
  - Subscriptions are never cancelled. A callback may still run after
    `CleanupOnExit`, and a push then writes the room node back
    (`Appended` ensures the room exists afterwards).
  - An empty or cancelled join makes `start` return quietly. No error is
    reported.

## Model

| member | source | states |
|---|---|---|
| `Signaling.OwnLog` | res/module/main.js:76 | a side's own candidates go to `callerCandidates` exactly when it is the creator, else to `calleeCandidates` |
| `Signaling.RemoteLog` | res/module/main.js:95 | the log a side subscribes to is never its own: the creator reads `calleeCandidates`, the joiner `callerCandidates`; `Session.OnRemoteCandidates` requires its snapshot to be that log |
| `Signaling.Slice8` | res/module/main.js:42 | `slice(0, 8)` yields a prefix of the string, of length 8 or the whole string when shorter |
| `Signaling.ChooseRoomId` | res/module/main.js:42-43 | `start` goes on exactly when the id is truthy: the creator's is a prefix of at most 8 characters of the UUID, present exactly when the UUID is non-empty; the joiner's is the prompt reply, present exactly when it is neither cancelled nor empty |
| `Signaling.CreatorRoomIdIsEightHexDigits` | res/module/main.js:42 | for a UUID in the shape `crypto.randomUUID()` returns, the creator's room id is its first 8 characters, all hex digits, so never falsy |
| `RoomStore.WithParticipant` | res/module/main.js:54 | the presence write adds this user to the room's participants, creates the room if absent and leaves every other room unchanged |
| `RoomStore.WithoutParticipant` | res/module/main.js:33 | removing the participant record drops only this user; the rest of the room and every other room are unchanged |
| `RoomStore.WithOffer` | res/module/main.js:84 | writing the offer fills the `offer` slot of this room and changes nothing else |
| `RoomStore.WithAnswer` | res/module/main.js:113 | writing the answer fills the `answer` slot of this room and changes nothing else |
| `RoomStore.Appended` | res/module/main.js:77 | a push puts the candidate at the end of the named log; earlier entries, the other log, both slots, the participants and other rooms are unchanged |
| `RoomStore.AfterCleanup` | res/module/main.js:32-39 | after the exit cleanup this user is gone; the room still exists exactly when other participants remain, and then only the participant set changed; other rooms are unchanged |
| `RoomStore.CleanupIdempotent` | res/module/main.js:32-39 | running the exit cleanup twice gives the same store as running it once |
| `RoomStore.BothLeavingDeletesRoom` | res/module/main.js:32-39 | when both participants of a room run the cleanup one after the other, the whole room is deleted and nothing else changes |
| `RoomStore.CleanupAsWritten` | res/module/main.js:32-39 | the cleanup as written: it removes the captured room's participant record, and deletes the captured room whenever the node `roomId` names at exit has no participants, whatever the captured room holds |
| `RoomStore.CleanupAsWrittenOnCapturedRoom` | res/module/main.js:32-39 | while `roomId` still names the captured room, the cleanup as written is `AfterCleanup` |
| `RoomStore.StaleReadDeletesOccupiedRoom` | res/module/main.js:34-37 | when `roomId` names another node without participants, the cleanup as written deletes a captured room that still has participants, which `AfterCleanup` keeps |
| `RoomStore.ReentryDeletesJoinersRoom` | res/module/main.js:34-43 | the creator of a two-party room presses join again and cancels: on exit its cleanup deletes the whole room, joiner included |
| `RoomStore.DisconnectLeavesOrphan` | res/module/main.js:55 | the store's removal on disconnect removes only the participant record: the room's offer stays even when no participant is left |
| `RoomStore.Database.SetParticipant` | res/module/main.js:54 | the store after `set(participantRef, true)` |
| `RoomStore.Database.ArmRemoveOnDisconnect` | res/module/main.js:55 | `onDisconnect(participantRef).remove()` arms removal of exactly this room's record of this user |
| `RoomStore.Database.SetOffer` | res/module/main.js:84 | the store after `set(offerRef, offer)` |
| `RoomStore.Database.SetAnswer` | res/module/main.js:113 | the store after `set(answerRef, answer)` |
| `RoomStore.Database.Push` | res/module/main.js:77 | the store after `push(targetRef, candidate)` |
| `RoomStore.Database.RemoveParticipant` | res/module/main.js:33 | the store after `remove(participantRef)` |
| `RoomStore.Database.RemoveRoom` | res/module/main.js:37 | `remove(roomRef)` deletes the whole room subtree and nothing else |
| `RoomStore.Database.ParticipantsExist` | res/module/main.js:34-36 | the participants node exists exactly when the room has at least one participant |
| `RoomStore.Database.Disconnect` | res/module/main.js:55 | an armed removal, when the connection drops, removes that participant record once and nothing else |
| `Engine.PeerConnection.SetLocalDescription` | res/module/main.js:83 | sets the local description |
| `Engine.PeerConnection.SetRemoteDescription` | res/module/main.js:89 | sets the remote description |
| `Engine.PeerConnection.AddIceCandidate` | res/module/main.js:99 | appends one candidate to those applied; may only be called once a remote description is set |
| `Negotiation.Deliver` | res/module/main.js:95-104 | a candidate-log snapshot appends all its children, in snapshot order, to the applied candidates if a remote description is set and to the end of the buffer otherwise; the descriptions are unchanged |
| `Negotiation.AcceptAnswer` | res/module/main.js:86-93 | the answer handler changes the remote description exactly when the value is present and none is set yet; it then applies the buffer oldest first and empties it; otherwise nothing changes; applied-then-held stays the same sequence |
| `Negotiation.AcceptOffer` | res/module/main.js:107-118 | the offer handler, under the same guard, sets the offer as remote and the answer as local description and drains the buffer oldest first; otherwise nothing changes |
| `Negotiation.StepKeepsSettled` | res/module/main.js:86-129 | each handler keeps "no candidate held once a remote description is set", never changes a set remote description, and adds to applied-then-held exactly the candidates it delivers |
| `Negotiation.RunConserves` | res/module/main.js:86-129 | over any sequence of notifications, the applied candidates followed by the held ones are exactly the delivered ones in delivery order: none lost, none reordered |
| `Negotiation.RunRemoteStable` | res/module/main.js:88-99 | a remote description, once set, never changes; while none is set, no candidate is applied |
| `Negotiation.RemoteSetAtMostOnce` | res/module/main.js:86-93 | over any notification sequence, replayed descriptions included, `setRemoteDescription` is called at most once, and never once a remote description is set |
| `Negotiation.CandidatesFollowDelivery` | res/module/main.js:86-104 | from a fresh side: with a remote description, all delivered candidates are applied in delivery order and none is held; without one, none is applied and all are held in order |
| `Negotiation.RolesAgree` | res/module/main.js:81-130 | fed the same notifications with the offer and answer slots swapped, creator and joiner end with the same remote description, applied candidates and buffer |
| `Negotiation.ReplayReappliesCandidate` | res/module/main.js:96-103 | after the remote description is set, a replayed snapshot applies an already-applied candidate again |
| `Negotiation.ReplayBuffersCandidateTwice` | res/module/main.js:86-104 | before the remote description, a replayed snapshot buffers a candidate twice, and the drain applies it twice |
| `Coordinator.Session.constructor` | res/module/main.js:20-26 | the page starts idle: no room, no peer connection, empty buffer, no store write |
| `Coordinator.Session.Start` | res/module/main.js:41-84 | with a falsy id nothing is written and no peer connection is made; otherwise presence is written first and armed for disconnect; without screen capture it stops there; with it a fresh peer connection is made, and the creator sets then publishes its offer |
| `Coordinator.Session.EnterRoom` | res/module/main.js:52-57 | presence marker written as this page's first write, its disconnect removal armed, the exit listener registered |
| `Coordinator.Session.OpenPeerConnection` | res/module/main.js:66-84 | a fresh connection with nothing set; the creator's offer is set locally before it is written to `offer`; the joiner writes nothing |
| `Coordinator.Session.OnIceCandidate` | res/module/main.js:74-79 | a candidate is appended to this side's own log, existing entries kept; a null event writes nothing |
| `Coordinator.Session.DrainPending` | res/module/main.js:90-91 | every buffered candidate is applied in enqueue order and the buffer ends empty |
| `Coordinator.Session.OnAnswer` | res/module/main.js:86-93 | the snapshot is this room's `answer` slot as the store holds it; the creator's peer state changes exactly as `AcceptAnswer` says, and the session invariant is kept |
| `Coordinator.Session.OnOffer` | res/module/main.js:107-118 | the snapshot is this room's `offer` slot as the store holds it; the joiner's peer state changes exactly as `AcceptOffer` says; the answer is written exactly when the guard admits the offer, else the store is unchanged |
| `Coordinator.Session.OnRemoteCandidates` | res/module/main.js:95-104 | the snapshot is this room's `RemoteLog(isCreator)` as the store holds it, and the peer state changes exactly as `Deliver` says for its children; the joiner's mirror at lines 120-129 is the same method |
| `Coordinator.Session.CleanupOnExit` | res/module/main.js:32-39 | the store ends as `AfterCleanup` says; the room is removed exactly when no participant remains |
| `Scenario.CreatorThenJoiner` | res/module/main.js:41-130 | creator publishes offer and two candidates, joiner joins, buffers both, answers: both sides hold the other's description, the joiner applied exactly the two candidates in order, both are present |
| `Scenario.JoinWithoutRoomId` | res/module/main.js:42-43 | a join with an empty or cancelled room id leaves the store unchanged and opens no peer connection |

## Findings

| source | as written | input that shows it | evidently intended | confidence | as-written member | corrected member |
|---|---|---|---|---|---|---|
| res/module/main.js:34 | the exit cleanup reads `rooms/${roomId}/participants` with the page-wide `roomId`, which line 42 reassigns on every button press before the falsy check at line 43, while the participant and room it removes were captured at lines 47, 52 and 57 | a creator in room "abcd1234" with a joiner present presses "join" and cancels the prompt; on exit the read goes to `rooms/null`, finds nothing, and `remove(roomRef)` deletes "abcd1234" with the joiner still in it | read the participants of the room the listener captured, so an occupied room is never deleted | not executed | `RoomStore.CleanupAsWritten`, `RoomStore.ReentryDeletesJoinersRoom` | `RoomStore.AfterCleanup`, `RoomStore.StaleReadDeletesOccupiedRoom` |

## Left out

- Firebase initialisation and configuration loading (lines 1-8): network I/O and library setup.
- The DOM, `updateVideoView`, the view buttons and `currentView` (lines 11-16, 28-30, 45, 132-145): user interface only.
- `getDisplayMedia`, `addTrack`, `ontrack` and `remoteStream` (lines 60-72): media capture and playback. Whether capture is granted is a boolean parameter of `Start`. The alert on refusal is not modelled.
- The internals of `createOffer`, `createAnswer`, SDP and ICE: a foreign engine, specified by RFC 8829. Their results are opaque parameters.
- Engine rejections: `setRemoteDescription`, `setLocalDescription` or `addIceCandidate` failing at run time (a malformed description, say) is not modelled. The model's engine accepts every description.
- Overlapping `async` handler runs: every callback is atomic. So is `start` after the room id is known, and so are the store writes, with no acknowledgement or failure.
- The timing of the store's remove-on-disconnect: it is modelled as an ordinary participant removal (`Database.Disconnect`), fired at whatever point the caller chooses.
- The push keys the store generates: a log is a sequence in push order.
- The randomness of `crypto.randomUUID()`: the UUID is a parameter. Its shape is stated by `IsUuid`.
- Coordinator.Session.Start: requires `phase == Idle`, so the model allows one successful `start` per page. A second `start` would reassign `roomId` and `peerConnection` but keep `pendingCandidates` and the first start's subscriptions.
- Coordinator.Session.CleanupOnExit: reads the captured room's participants, because with one `start` per page `roomId` never changes. The page reads the node the page-wide `roomId` names at exit, which after a second `start` can be another room, `rooms/null` after a cancelled prompt, or, after an empty reply, `livestream/rooms//participants`, which the store reads as the node `rooms/participants` because it drops empty path segments; `RoomStore.CleanupAsWritten` models that read and the finding below states its consequence.
- Path validity of a typed room id (characters the store forbids in keys): a room id is an opaque key.
