# Campus-talk matchmaking engine, in Dafny

This project models the engine of an anonymous chat server. Clients connect over socket.io and ask to join a
"text" or "video" queue. The server pairs two waiting clients into a two-seat room and tells both sides with
`matched`. It then relays chat messages, typing notices and WebRTC signalling (`call-offer`, `call-answer`,
`ice-candidate`) to the other seat of the sender's room. The remaining events tear rooms down:

- `end-call` and `disconnect` end the room.
- `find-new` asks the peer whether to find new partners.
- `peer-confirm-find-new` confirms that request.

On teardown the occupants are put back in the queue of the room's mode.

All of this lives in `index.js`, in three pieces of state:

- two arrays, `textQueue` and `videoQueue`;
- a Map, `activeRooms`, from room id to `{id, mode, users, createdAt}`;
- the `emit` calls that go out to connections.

The model has the following modules:

- `Model` (model.dfy) holds the records: users, rooms, modes, outbound events, and the whole state as a value. The outbox is the sequence of every `emit` so far.
- `Queues` (queues.dfy) covers connection lookup and removal in a queue. It has `shuffleArray` as an in-place method on an `array` and `findMatch` as a method. Both are proved against the specification functions `Shuffled` and `MatchOutcome`.
- `Rooms` (rooms.dfy) is the registry. The Map is a sequence of its entries in insertion order:
  - `set` replaces in place or appends;
  - `delete` removes the entry.

  It also has the `for…of`/`break` scan as a loop method (`ScanRooms`), the "notify every other occupant" `forEach` (`ToOthers`) and the duplicate-free requeue (`AddAbsent`).
- `Protocol` (protocol.dfy) gives, for every helper and handler, a function from the state before to the state after. The two lookups `getUserFromQueue` and `getUserBySocketId` change nothing and are only functions here (`UserFromQueue`, `UserBySocketId`); `shuffleArray` and `findMatch` are the methods `ShuffleArray` and `FindMatch` of `Queues`.
- `Server` (engine.dfy) is the class `Engine`. Its fields are the two queues, the room registry and the outbox. It has a method for `removeFromQueues`, for `leaveRoom` (with `NotifyOthers` and `Requeue` for its two `forEach` loops), for the matchmaking block, for `proceedToFindNew` and for every handler. Each method updates the fields step by step and ends exactly in the state its `Protocol` function gives.
- `Invariant` (invariant.dfy) holds the placement invariant `Wf`:
  - every connection is in at most one place (one queue entry or one room seat);
  - the text queue holds text users and the video queue the rest;
  - every room has two seats whose users' modes select the same queue as the room's mode;
  - room ids are distinct.

  The module proves that every handler keeps `Wf`, with one exception: `join-queue` from a connection that already sits in a room. It also proves that this exception is real.
- `Properties` (properties.dfy) states the observable effect of each helper and handler: who gets which events, in which order, and what happens to the queues and rooms.

Randomness is injected. Step `i` of the Fisher–Yates loop swaps `i` with `rng(i) % (i + 1)`, for an arbitrary `rng: nat -> nat`. So every choice of `j` in `[0, i]` is covered. Each room id is a parameter of the operation that creates the room.

Behaviour of the code worth knowing:

- `end-call` calls `leaveRoom(socket.id)` with its default `requeue = true`. Both occupants are requeued, and the peer gets `call-ended`, `user-disconnected` and `peer-disconnected`.
- `leaveRoom` sends `user-disconnected` and then `peer-disconnected` to every other occupant.
- `peer-confirm-find-new` tears the room down before it calls `proceedToFindNew`. When neither party sits in any other room, as in every state satisfying `Wf`, each of those calls then finds no room and returns. Nobody is matched: both occupants just end up in the queue of the room's mode (`Properties.PeerConfirmFindNewEffect`). A party that `join-queue` has seated in a further room is different. `leaveRoom` only tears down the first room it finds, so `proceedToFindNew` finds that further room, leaves it and matches that party again. `Properties.SeatedTwiceReachable` and `Properties.PeerConfirmFindNewSeatedTwice` show this for a sender seated twice; the same happens to a peer that sits in two rooms besides the sender's, since its own `leaveRoom` removes only one of them. The handler's own comments ("Disconnect both", then "Proceed to re-match both", index.js:274-279) show that a re-match of both parties was intended; in a valid state the code never performs it.
- `disconnect` first calls `leaveRoom(s, true)`, which requeues both occupants, and only then `removeFromQueues(s)`.
- `join-queue` does not take its sender out of a room it is in (`Invariant.JoinQueueFromRoomBreaksWf`).
- The mode is not checked. Any mode other than "text" selects the video queue, but the room keeps the raw mode, and call signalling needs exactly "video". In the model such a mode is `Other` (`Properties.OtherModeGap`).

## Model

| member | source | states |
|---|---|---|
| Queues.Shuffled | index.js:32-38 | the specification of `shuffleArray` for the draws `rng`: steps `i` = n-1 down to 1 each swap `i` with `rng(i) % (i + 1)`; its properties are proved in `Queues.ShuffledPermutes` and `Queues.ShuffledSids` |
| Queues.RemoveConn | index.js:57-62 | the `findIndex`/`splice` removal: drops the first entry of the connection, if any; proved in `Queues.RemoveConnCounts`, `Queues.RemoveConnIsWithout` and `Queues.RemoveConnClears` |
| Queues.MatchOutcome | index.js:56-73 | the specification of `findMatch`: remove the caller's entry, shuffle, then take the head as the match, or push the caller when nobody is left; proved in `Queues.MatchOutcomeFound`, `Queues.MatchOutcomeNotSelf` and `Queues.MatchOutcomeEmpty` |
| Queues.ShuffleArray | index.js:32-38 | the array ends as `Shuffled` of its old contents for the given draws, and as a permutation (same multiset) of them |
| Queues.ShuffledPermutes | index.js:32-38 | for every draw function the shuffle keeps the length and the multiset of entries |
| Queues.ShuffledSids | index.js:32-38 | shuffling keeps the multiset of connection ids |
| Queues.ShuffleQueue | index.js:64 | shuffling the queue's entries in an array yields `Shuffled` of the queue |
| Queues.IndexOf | index.js:57-59 | `findIndex` by connection returns an index holding the connection with none before it, or -1 when no entry holds it |
| Queues.FindMatch | index.js:56-73 | the new queue and match are `MatchOutcome` of the inputs; a match was in the queue, and the new queue plus the match is the queue without the caller's entry; with no match the queue is exactly `[currentUser]` |
| Queues.MatchOutcomeFound | index.js:56-69 | when someone besides the caller is waiting, the match is one of them; the queue loses the caller's entry and the match, and the caller is not enqueued |
| Queues.MatchOutcomeNotSelf | index.js:56-69 | when the caller was queued at most once, the match is never the caller's own connection |
| Queues.MatchOutcomeEmpty | index.js:66-72 | when nobody else is waiting, there is no match and the queue is exactly `[currentUser]` |
| Queues.RemoveConnCounts | index.js:57-62 | the `findIndex`/`splice` removal drops one occurrence of the connection's id and adds no entry |
| Queues.RemoveConnIsWithout | index.js:75-88 | on a queue that holds the connection at most once, removal keeps every other entry in its original order |
| Queues.RemoveConnClears | index.js:75-88 | on a queue that holds the connection at most once, no entry of it is left after removal |
| Queues.RemoveConnIdempotent | index.js:75-88 | on a queue that holds the connection at most once, removing it a second time changes nothing |
| Rooms.FirstRoom | index.js:91-92 | the scan stops at a room that hosts the connection (and is a video room for the call handlers) with none before it, or returns -1 when no room qualifies |
| Rooms.ScanRooms | index.js:187-200 | the `for…of`/`break` loop stops at the first selected room, or at -1 when there is none |
| Rooms.FirstRoomFinds | index.js:91-92 | the scan finds a room exactly when some room seats the connection |
| Rooms.KeyIndex | index.js:272 | `activeRooms.get(id)` finds the entry whose key is `id`, or none |
| Rooms.OccupantOf | index.js:188 | `users.find` by connection returns an occupant of the room on that connection |
| Rooms.PeerOf | index.js:272 | `users.find(u => u.socketId !== s)`: any result is an occupant on another connection; no result means every occupant is on `s` |
| Rooms.Put | index.js:171 | `activeRooms.set`: an existing key keeps its place with the new room, a new key is appended; proved in `Rooms.PutFresh`, `Rooms.PutKeepsDistinct` and `Rooms.RoomSidsPut` |
| Rooms.Delete | index.js:116 | `activeRooms.delete`: the entry with the key goes, the others keep their order; proved in `Rooms.DeleteAt` and `Rooms.DeleteKeepsDistinct` |
| Rooms.ToOthers | index.js:93-98 | the per-occupant `forEach` of `leaveRoom` and the relays: the events, in order, to each occupant not on the given connection; proved in `Rooms.ToOthersTargets`, `Rooms.ToOthersReaches` and `Rooms.ToOthersPair` |
| Rooms.AddAbsent | index.js:102-114 | the requeue `forEach`: each occupant is pushed unless the queue already has its connection at that moment; proved in `Rooms.AddAbsentSpec`, `Rooms.AddAbsentCounts` and `Rooms.AddAbsentMembers` |
| Rooms.ToOthersTargets | index.js:93-98 | the per-occupant notices never go to the leaving connection, only to occupants, and only carry the given events |
| Rooms.ToOthersReaches | index.js:93-98 | every occupant on another connection receives every one of the notices |
| Rooms.ToOthersPair | index.js:93-98 | in a room `[a, b]`, "everyone but `a`" is exactly `b` |
| Rooms.AddAbsentSpec | index.js:102-114 | the requeue only appends; every occupant's connection is in the queue afterwards; each new entry is an occupant whose connection was absent |
| Rooms.AddAbsentCounts | index.js:102-114 | the requeue never makes a connection appear twice, and adds only occupants' ids |
| Rooms.AddAbsentMembers | index.js:102-114 | the requeue adds nothing but occupants |
| Rooms.DeleteAt | index.js:116 | with distinct keys, deleting the key of entry `k` removes exactly that entry and keeps the others in order |
| Rooms.DeleteKeepsDistinct | index.js:116 | `delete` keeps the keys distinct |
| Rooms.PutFresh | index.js:171 | `set` with a fresh key appends the room at the end of the iteration order |
| Rooms.PutKeepsDistinct | index.js:171 | `set` keeps the keys distinct |
| Rooms.RoomSidsAppend | index.js:171 | `set` with a fresh key adds exactly the new room's occupants to the seated ids |
| Rooms.RoomSidsReplace | index.js:171 | overwriting an entry drops exactly its occupants' ids and adds the new room's |
| Rooms.RoomSidsPut | index.js:171 | `set` with a fresh key adds exactly the new room's occupants; over an existing key it drops exactly the replaced room's occupants and adds the new ones |
| Rooms.RoomSidsRemoveAt | index.js:116 | removing an entry removes exactly its occupants' ids |
| Protocol.UserFromQueue | index.js:40-44 | `getUserFromQueue`: the text queue's entry for the connection, else the video queue's, else none; proved in `Properties.UserFromQueueFinds` |
| Protocol.UserBySocketId | index.js:46-54 | `getUserBySocketId`: the connection's record in the first room seating it, with that room's id, or none; proved in `Properties.UserBySocketIdFinds` |
| Protocol.PeerInRoom | index.js:272 | `activeRooms.get(roomId)?.users.find(u => u.socketId !== s)`: the first occupant of that room on another connection, or none |
| Protocol.RemoveFromQueues | index.js:75-88 | `removeFromQueues`: the connection's first entry leaves each queue; proved in `Properties.RemoveFromQueuesClears` and `Invariant.RemoveFromQueuesWf` |
| Protocol.LeaveRoom | index.js:90-120 | `leaveRoom(s, requeue)`: the first room seating `s` is torn down, its other occupants notified and, with requeue, every occupant requeued; proved in `Protocol.LeaveRoomShape`, `Properties.LeaveRoomEffect` and `Invariant.LeaveRoomWf` |
| Protocol.LeaveRoomShape | index.js:90-120 | for a seated connection, `leaveRoom` deletes the room's key, appends the two notices for every other occupant, and changes only the queue of the room's mode (requeue) or none (no requeue) |
| Protocol.Matchmake | index.js:159-183 | the matchmaking block: `findMatch` on the queue of the user's mode, then on a match `set` of room `[user, match]` and `matched` to both; proved in `Protocol.MatchmakeShape`, `Properties.MatchmakeOutcome` and `Invariant.MatchmakeWf` |
| Protocol.OnJoinQueue | index.js:147-184 | the `join-queue` handler: `removeFromQueues`, then the matchmaking block; proved in `Properties.JoinQueueOutcome` and `Invariant.OnJoinQueueWf` |
| Protocol.Relay | index.js:203-215 | the relay shared by `typing` and the call handlers: the event to the other occupants of the first selected room; proved in `Properties.RelayOnlyToRoom`, `Properties.RelayToPeer` and `Invariant.RelayWf` |
| Protocol.OnSendMessage | index.js:186-201 | the `send-message` handler: the text with the sender's name to the other occupants of its first room; proved in `Properties.SendMessageOnlyToRoom` |
| Protocol.OnTyping | index.js:203-215 | the `typing` handler as a relay through any room; its `Wf` preservation is in `Invariant.RelayHandlersWf` |
| Protocol.OnCallOffer | index.js:217-232 | the `call-offer` handler as a relay through a "video" room only; proved in `Properties.CallNeedsVideoRoom` |
| Protocol.OnCallAnswer | index.js:234-249 | the `call-answer` handler as a relay through a "video" room only; proved in `Properties.CallNeedsVideoRoom` |
| Protocol.OnIceCandidate | index.js:251-266 | the `ice-candidate` handler as a relay through any room; proved in `Properties.RelayToPeer` |
| Protocol.ProceedToFindNew | index.js:122-144 | `proceedToFindNew`: nothing for an unseated connection, else `leaveRoom` with requeue and the matchmaking block for its record; proved in `Invariant.ProceedToFindNewWf` |
| Protocol.OnPeerConfirmFindNew | index.js:268-281 | the `peer-confirm-find-new` handler: both teardowns, then `proceedToFindNew` for both parties; proved in `Properties.PeerConfirmFindNewEffect` and `Invariant.OnPeerConfirmFindNewWf` |
| Protocol.OnFindNew | index.js:283-314 | the `find-new` handler: from a room, prompt the peer; from a queue, the matchmaking block; proved in `Properties.FindNewFromRoom`, `Properties.FindNewFromQueue` and `Invariant.OnFindNewWf` |
| Protocol.OnEndCall | index.js:318-332 | the `end-call` handler: `call-ended` to the other occupants, then `leaveRoom` with requeue; proved in `Properties.EndCallEffect` and `Invariant.OnEndCallWf` |
| Protocol.OnDisconnect | index.js:334-342 | the `disconnect` handler: `leaveRoom(s, true)`, then `removeFromQueues(s)`; proved in `Properties.DisconnectClears` and `Invariant.OnDisconnectWf` |
| Protocol.MatchmakeShape | index.js:159-183 | the matchmaking block sets the mode's queue to the `findMatch` result and leaves the other queue alone; with no match nothing else changes; with a match it sets room `[user, match]` and emits `matched` to both |
| Server.Engine.constructor | index.js:24-26 | the engine starts with empty queues, no rooms and nothing emitted |
| Server.Engine.RemoveFromQueues | index.js:75-88 | the engine's state after `removeFromQueues` is `Protocol.RemoveFromQueues` of the state before |
| Server.Engine.NotifyOthers | index.js:93-98 | the `forEach` appends exactly `ToOthers` of the occupants to the outbox and changes nothing else |
| Server.Engine.Requeue | index.js:102-114 | the requeue `forEach` leaves the queue of the room's mode as `AddAbsent` of it and changes nothing else |
| Server.Engine.LeaveRoom | index.js:90-120 | the state after `leaveRoom` is `Protocol.LeaveRoom` of the state before |
| Server.Engine.Matchmake | index.js:159-183 | the state after the matchmaking block is `Protocol.Matchmake` of the state before |
| Server.Engine.ProceedToFindNew | index.js:122-144 | the state after `proceedToFindNew` is `Protocol.ProceedToFindNew` of the state before |
| Server.Engine.OnJoinQueue | index.js:147-184 | the state after `join-queue` is `Protocol.OnJoinQueue` of the state before |
| Server.Engine.Relay | index.js:203-215 | the shared relay ends in `Protocol.Relay` of the state before |
| Server.Engine.OnSendMessage | index.js:186-201 | the state after `send-message` is `Protocol.OnSendMessage` of the state before |
| Server.Engine.OnTyping | index.js:203-215 | the state after `typing` is `Protocol.OnTyping` of the state before |
| Server.Engine.OnCallOffer | index.js:217-232 | the state after `call-offer` is `Protocol.OnCallOffer` of the state before |
| Server.Engine.OnCallAnswer | index.js:234-249 | the state after `call-answer` is `Protocol.OnCallAnswer` of the state before |
| Server.Engine.OnIceCandidate | index.js:251-266 | the state after `ice-candidate` is `Protocol.OnIceCandidate` of the state before |
| Server.Engine.OnPeerConfirmFindNew | index.js:268-281 | the state after `peer-confirm-find-new` is `Protocol.OnPeerConfirmFindNew` of the state before |
| Server.Engine.OnFindNew | index.js:283-314 | the state after `find-new` is `Protocol.OnFindNew` of the state before |
| Server.Engine.OnEndCall | index.js:318-332 | the state after `end-call` is `Protocol.OnEndCall` of the state before |
| Server.Engine.OnDisconnect | index.js:334-342 | the state after `disconnect` is `Protocol.OnDisconnect` of the state before |
| Invariant.SeatsDistinct | index.js:167 | in a valid state, every room has two seats on different connections |
| Invariant.SeatedOnlyThere | index.js:90-120 | in a valid state, a seated connection is in neither queue and in no other room |
| Invariant.SendKeepsWf | index.js:95-96 | emitting events keeps the invariant |
| Invariant.RemoveFromQueuesWf | index.js:75-88 | `removeFromQueues` keeps the invariant and leaves the connection in neither queue |
| Invariant.LeaveRoomWf | index.js:90-120 | `leaveRoom` keeps the invariant, with or without requeue |
| Invariant.MatchmakeWf | index.js:159-183 | the matchmaking block keeps the invariant for a user who is in no room and not in the other mode's queue |
| Invariant.MatchmakeWaitingWf | index.js:71-72 | enqueueing a user when nobody else waits keeps the invariant |
| Invariant.MatchmakeFoundWf | index.js:162-180 | seating the user with a match keeps the invariant |
| Invariant.MatchmakeFoundPlaced | index.js:162-180 | after a match, each connection still has at most one place |
| Invariant.MatchmakeFoundSeats | index.js:164-171 | with a match, the registry becomes exactly `set` of room `[user, match]` under the new id; the match was queued on another connection, and no other new seats appear |
| Invariant.MatchmakeFoundQueues | index.js:56-69 | after a match, the queued places are the old ones minus the user's and the match's |
| Invariant.MatchmakeFoundShapes | index.js:164-171 | after a match, queues still hold users of their mode, the new room's seats select the same queue as its mode, and room ids stay distinct |
| Invariant.QueuedAtMostOnce | index.js:56-62 | in a valid state, a queue holds each connection at most once |
| Invariant.OnJoinQueueWf | index.js:147-184 | `join-queue` keeps the invariant when its sender sits in no room |
| Invariant.JoinQueueFromRoomBreaksWf | index.js:157-160 | in a valid state where `a` shares a text room, `a`'s `join-queue` for video leaves `a` both seated and queued; the invariant fails |
| Invariant.RelayWf | index.js:203-215 | every relay keeps the invariant |
| Invariant.RelayHandlersWf | index.js:186-266 | `send-message`, `typing`, `call-offer`, `call-answer` and `ice-candidate` keep the invariant |
| Invariant.LeaveRoomFrees | index.js:90-120 | in a valid state, after `leaveRoom` with requeue the leaver's occupant is seated nowhere and is not in the queue of the other mode |
| Invariant.ProceedToFindNewWf | index.js:122-144 | `proceedToFindNew` keeps the invariant |
| Invariant.OnPeerConfirmFindNewWf | index.js:268-281 | `peer-confirm-find-new` keeps the invariant |
| Invariant.FindNewQueuedKeepsWf | index.js:285-306 | matchmaking for a queued connection that sits in no room keeps the invariant |
| Invariant.OnFindNewWf | index.js:283-314 | `find-new` keeps the invariant |
| Invariant.OnEndCallWf | index.js:318-332 | `end-call` keeps the invariant |
| Invariant.OnDisconnectWf | index.js:334-342 | `disconnect` keeps the invariant |
| Properties.UserFromQueueFinds | index.js:40-44 | an entry is found exactly when a queue holds the connection; it is that connection's entry; the text queue wins when both hold it |
| Properties.UserBySocketIdFinds | index.js:46-54 | a record is found exactly when some room seats the connection; it comes from the first such room, with that room's id |
| Properties.RemoveFromQueuesClears | index.js:75-88 | on queues holding the connection at most once each, it ends in neither queue; other entries keep their order; rooms and emits are untouched; a second call changes nothing |
| Properties.LeaveRoomAbsent | index.js:90-120 | for a connection no room seats, `leaveRoom` changes nothing and emits nothing |
| Properties.LeaveRoomEffect | index.js:90-120 | only the first room seating the connection is removed, and the other rooms keep their order; every other occupant gets `user-disconnected` then `peer-disconnected`, and the leaver gets nothing; without requeue the queues are untouched; with requeue only the room-mode queue changes, by `AddAbsent` |
| Properties.LeaveRoomRequeueNoDuplicates | index.js:102-114 | after the requeue, the old room-mode queue is a prefix of the new one and every occupant is in it; a connection queued at most once stays at most once |
| Properties.AddAbsentPair | index.js:102-114 | two absent occupants on different connections are appended in seat order |
| Properties.MatchmakeOutcome | index.js:159-183 | with nobody else waiting, the user becomes the only entry of its queue and nothing is emitted; otherwise the match is another waiting user, both leave the queue, a new room of the user's mode seating `[user, match]` is appended, and each side gets `matched` naming the other |
| Properties.JoinQueueOutcome | index.js:147-184 | from a connection in no queue: either it waits alone in the empty queue of its mode with nothing emitted, or it is paired with a waiting user in a new room and both get `matched` with the other party's id and name |
| Properties.RelayOnlyToRoom | index.js:203-215 | a relay changes neither the queues nor the rooms; it only emits the event to other occupants of the first selected room, and does nothing without one |
| Properties.RelayToPeer | index.js:251-266 | in a valid state, a relay from a seated connection reaches exactly its one peer, once |
| Properties.PairRelay | index.js:203-215 | in a two-seat room of different connections, a relay from one seat reaches exactly the other seat |
| Properties.SendMessageOnlyToRoom | index.js:186-201 | `send-message` only emits the text, with the sender's name, to the other occupants of the sender's first room, and does nothing without one |
| Properties.CallNeedsVideoRoom | index.js:217-249 | `call-offer` and `call-answer` do nothing unless a "video" room seats the sender |
| Properties.OtherModeGap | index.js:217-232 | a user asking for a third mode is paired from the video queue with a video user; `typing` then reaches them but `call-offer` is dropped |
| Properties.FindNewFromRoom | index.js:309-313 | from a seated connection, `find-new` changes no queue or room and only sends `peer-wants-find-new` to the peer |
| Properties.FindNewFromQueue | index.js:284-307 | from a connection in no room, `find-new` is the matchmaking block for its queued entry (text queue first), and nothing when it is not queued |
| Properties.FindNewQueuedWf | index.js:286-306 | in a valid state, the queued entry found by `find-new` is in the queue of its mode exactly once |
| Properties.SeatedPair | index.js:90-120 | in a valid state, the sender's room has the sender and one peer, and neither is queued or seated elsewhere |
| Properties.LeaveRoomPair | index.js:90-120 | leaving a two-seat room with requeue sends the peer the two notices, removes the room and appends both occupants in seat order |
| Properties.PairTeardown | index.js:90-120 | for a two-seat room of different connections, neither queued: the key's `delete` removes that entry, the requeue appends both seats in order, and the peer gets exactly the two notices |
| Properties.EndCallEffect | index.js:318-332 | in a valid state, the peer gets `call-ended`, `user-disconnected` and `peer-disconnected` in that order; the room is removed; both occupants are appended to the room-mode queue in seat order |
| Properties.PeerConfirmFindNewEffect | index.js:268-281 | in a valid state nobody is matched: the room is removed, both occupants are appended to the room-mode queue in seat order, and the peer gets only `user-disconnected` and `peer-disconnected` |
| Properties.SeatedTwiceReachable | index.js:147-184 | four `join-queue` events from the empty engine seat connection `a` in two rooms, `[b, a]` and `[a, c]` |
| Properties.PeerConfirmFindNewSeatedTwice | index.js:268-281 | from that state, `a`'s `peer-confirm-find-new` does match: `proceedToFindNew(a)` finds the second room, leaves it and pairs `a` with `c` in a new room |
| Properties.DisconnectLeavesNothing | index.js:334-342 | in a valid state, after `disconnect` the connection is in no room and in neither queue |
| Properties.DisconnectClears | index.js:334-342 | whenever the connection sat in at most one room and was queued at most once per queue, `disconnect` leaves it in no room and in neither queue; this includes the seated-and-queued states that `join-queue` produces |
| Properties.DisconnectPair | index.js:334-342 | `disconnect` from a two-seat room of different connections, neither of them in the room-mode queue, whether or not the leaver also waits in the other queue, emits exactly the two notices to the peer, removes the room, and appends only the peer to the room-mode queue, once; the leaver's entry in the other queue, if any, is removed |
| Properties.DisconnectNotifiesPeer | index.js:334-342 | the former peer gets `user-disconnected` and `peer-disconnected` once each, the room is removed, and the peer is appended to the room-mode queue, where it appears exactly once |

## Left out

- Transport and bootstrap are not modelled: express, http, socket.io, cors, dotenv and `server.listen` (index.js:1-22, 345-349). Each `io.to(x).emit(e, payload)` and `socket.emit` is an append to the outbox.
- The `console.log` calls and the commented-out monitoring interval are diagnostics only and are left out.
- `Math.random` is replaced by an arbitrary draw function `rng`. `generateRoomId` is replaced by a room id parameter. Uniformity of the draws is a probabilistic claim and is not stated.
- `createdAt: new Date()` is wall-clock time with no effect on behaviour; rooms do not carry it.
- Payloads (`data.text`, `data.offer`, `data.answer`, `data.candidate`) are opaque strings forwarded unchanged.
- Interleaving across connections is not modelled. Each handler is one atomic step on the shared state, as the single-threaded event loop runs it.
- The `roomId` field is not kept on the occupant record. `getUserBySocketId` returns `{...user, roomId}`, and `proceedToFindNew` seats or enqueues that object, so the stored user carries an extra `roomId` that no code reads. The lookup result pairs the record with the room id instead.
- The queue arrays are values in the model. `findMatch` and `removeFromQueues` return the new queue, and the engine assigns it to its field, rather than splicing a shared array. The only in-place array is the one `shuffleArray` works on. No code aliases a queue except `findMatch`'s argument, which is always one of the two engine queues.
- Room-id collisions are only a hypothesis. The handlers follow the Map's `set` (an existing id is overwritten in place). Only `Properties.MatchmakeOutcome` and `Properties.JoinQueueOutcome` assume a fresh id, where they claim that the new room is appended.
- Properties.DisconnectNotifiesPeer: assumes the full placement invariant `Wf` rather than only "in at most one room and at most once per queue". `Wf` also fixes the queue of each mode and the two seats. Beyond `Wf`, `Properties.DisconnectPair` states the peer's half of `disconnect` for any two-seat room whose occupants are not yet in the room-mode queue, including a leaver that also waits in the other queue.
- Properties.RelayToPeer: "exactly one peer" needs `Wf` (two seats on different connections). Without it, `Properties.RelayOnlyToRoom` states that relays go only to other occupants of the sender's room.
- Properties.EndCallEffect: the exact event sequence and requeue are stated for valid states only. `Properties.LeaveRoomEffect` covers `leaveRoom` in any state with distinct room ids.
