# Verified model of the remote-support backend

An agent on a Windows machine helps a person who holds a phone: the two meet in a signaling room,
exchange frames through a relay, and the agent's pointer becomes an annotation in the phone's camera
picture. This project models the parts of that system whose correctness depends on interleavings,
deadlines or accumulated state, and proves what they promise.

| file | models |
|---|---|
| `Rooms.dfy` | names shared by all models |
| `Redis.dfy` | Redis counters with a deadline |
| `Presence.dfy` | the two presence stores, as classes and against the history of connections |
| `Mailbox.dfy` | the bounded, closable queue in front of each WebSocket writer |
| `Hub.dfy` | the hub of one instance: slot map, join, leave, relay |
| `Roster.dfy` | slots, presence and each connection's progress, one atomic step per critical section |
| `Wire.dfy` | frames in transit, with the in-process fanout or Redis pub/sub on many instances |
| `Relay.dfy` | both together: all interleavings, and the theorems over all runs |
| `Transcript.dfy` | the relay's state and what its clients get, read off the steps of a run |
| `Delivery.dfy` | which frames arrive and which are dropped |
| `Reconnect.dfy` | a run in which an old agent's bye follows the new agent's join |
| `Session.dfy` | connection tokens and session rows: each store statement, and the service methods |
| `Attempts.dfy` | how many PIN comparisons one token gets when calls come one at a time |
| `Lifecycle.dfy` | mint, redeem, sweep, admission and room-ended callback, interleaved |
| `Guessing.dfy` | how many PIN comparisons one token gets when calls overlap |
| `Serial.dfy` | a service call that runs alone is a run of the life cycle |
| `Ledger.dfy` | join tokens, admissions and the history of rooms, read off the steps of a run |
| `SingleUse.dfy` | which calls can still be accepted, before and after a token has been |
| `Reentry.dfy` | when a session's room can be occupied again |
| `Ending.dfy` | which active sessions can still end |
| `Orphans.dfy` | which rows a Mint leaves behind |
| `Refinement.dfy` | relay steps and runs are steps and runs of the life cycle's rooms |
| `Overtaking.dfy` | runs that show where the life-cycle theorems stop being true |
| `Auth.dfy` | issued tokens and their checks |
| `Identity.dfy` | users, login, refresh, logout and disablement, one at a time and interleaved |
| `Limiter.dfy` | the fixed-window rate limiter |
| `Migrations.dfy` | the migration runner, alone and with any number of runners |
| `Annotations.dfy` | the phone's anchor store and 2D overlay |
| `Geometry.dfy` | the letterbox mapping and the two mappings on the phone |

A class method states its whole effect by a function on the stored value (`Presence.LocalLeave`,
`Hub.Put`, `Mailbox.Box.Offer`, `Session.RedeemStore`, ...), and the main ones also field by field. The step
systems apply the same functions, so their theorems are about what the methods do; `Serial` says so of whole
calls. `Transcript` and `Ledger` tie what the step systems record to the steps of the run alone.

## Assumptions

- Peer ids and session ids are never handed out twice (UUIDs).
- One clock that never goes back serves Redis, Postgres and the processes. Times are reals.
- Redis pub/sub delivers every frame to every instance, in one order, and no Publish fails.
- A presence key does not expire while somebody is present, and Joins on it succeed. Redis Leaves may
  fail, applied or not, everywhere.
- Signatures are ideal and the PIN hash is injective; a token is the pair of its key and its claims.
- The room-ended callback is registered before the first peer joins (`Hub.LocalHub` covers both cases).
- Join tokens are enforced in `Lifecycle`; roles are `agent` and `phone`, as the endpoint demands.
- Lower case and white space are any two functions on characters for which lower case is lower case
  already and a space is a space in either case (`Identity.Letters`); Go and Postgres agree on them, and
  users are distinct by lower-case email, as the unique index makes them.
- The overlay is attached, and nobody but the two annotation stores destroys their objects.
- All migration runners see the same list of distinct file names, given in its sorted order.

## Where the code and its documentation disagree

The model follows the code.

- `RedisPresence` is said to mirror `LocalPresence` exactly. It does so for a Leave exactly if the count
  is positive (`Presence.LeaveAgreesExactlyWhenMatched`). Its counts are the connections present, put out
  by one for each transaction lost at that place (`Presence.RedisCounts`), and a newcomer is told the truth
  exactly if for no other role that turns nobody into somebody or back (`Presence.JoinIsTrueExactly`);
  `Presence.LostJoinHidesNextPeer` is a history in which it does.
- A Leave that fails is said to just delay the room-ended signal (backend/internal/signaling/redis.go:144-146). If it was not
  applied, no later Leave of that room ever reports it empty while the key lives
  (`Presence.LostLeaveSilencesRoom`), and the room's emptyings are signalled exactly up to then
  (`Relay.OneCallbackPerEmptying`).
- A token is called single-use. Once it has been accepted and its `DEL` has worked, it can be accepted
  again by exactly the calls that had read it before, and after a failed `DEL`, which is ignored, by every
  later call too while the token is live (`SingleUse.ReusableExactlyByReaders`). Runs:
  `Overtaking.OverlappingRedeemsBothJoin`, `Attempts.FailedDeleteAcceptsTwice`.
- Five tries per token: for calls that come one at a time that is the limit exactly if the mint found no
  live counter of an earlier token for the same connect id and no call lets time pass between reading the
  token and counting itself (`Attempts.FiveTriesExactly`). A left-over counter makes it nine, a dawdling
  call one more, and both are reached (`Attempts.BoundIsExact`). When calls overlap, no number bounds the
  comparisons, not even without a left-over counter and without any time passing
  (`Guessing.OverlappingGuessesAreUnbounded`): the `DEL` of a call beyond the limit removes the counter
  together with the token, and the calls that have read the token go on. The calls that count themselves
  while the token is live are held to five, or nine, and every further comparison is owed to a call that
  counts itself after the token has gone (`Guessing.MoreComparisonsAreLate`).
- The sweep is said never to race a token about to be redeemed. That holds exactly if the two delays
  together fit into the token's lifetime (`Overtaking.SweepIsSafeExactly`).

## What the code does not promise

- A `bye` does not mean that the role is gone: an old socket's `bye` can follow a reconnect
  (`Reconnect.ByeCanFollowReconnect`). It does exactly if on every instance the last connection to
  register for the role has left (`Relay.ByeMeansGoneExactly`).
- An older peer does not get its slot back (`Relay.SlotIsLatestJoiner`).
- A room whose session has ended can be joined again (`Overtaking.EndedRoomCanBeJoined`), exactly as long
  as somebody is admitted, a join token is unexpired or can still be handed out, or the connection token
  is live (`Reentry.EndedRoomIsJoinedAgainExactly`).
- A session can stay active for ever although its room is empty: exactly if no callback is in flight, and a
  Leave of the room was not applied or every way into it is closed (`Ending.CanEndExactly`).
- A frame can be dropped: exactly if nobody holds the slot at its look-up, or the holder's box is full or
  closed at its Send (`Delivery.EachFrameHasOneFate`).
- One annotation can be in both stores (`Annotations.HitThenMissIsInBoth`), exactly as long as a miss
  follows its last anchorable hit (`Annotations.InBothExactly`).

## Model

| member | source | states |
|---|---|---|
| Presence.LocalPresence.Join | backend/internal/signaling/presence_local.go:17-32 | counts the role in and returns, without repeats, exactly the other roles with a positive count |
| Presence.LocalPresence.Leave | backend/internal/signaling/presence_local.go:34-52 | clamps at zero, drops the role and the room when they are empty, and reports empty exactly if no count is positive |
| Presence.TidyIsCanonical | backend/internal/signaling/presence_local.go:34-52 | a store without zero counts and empty rooms is determined by its counts |
| Presence.LocalLeaveCounts | backend/internal/signaling/presence_local.go:34-52 | a Leave keeps the store tidy, lowers its own positive count by one and no other, and removes the room exactly if nobody is left |
| Presence.Positive | backend/internal/signaling/presence_local.go:25-31 | the loop over the room's fields finds exactly the positive roles, each once |
| Presence.RedisPresence.Join | backend/internal/signaling/redis.go:115-134 | a transaction that raises the field and reads them all; on an error nobody is reported, whether it was applied or not |
| Presence.RedisPresence.Leave | backend/internal/signaling/redis.go:136-161 | lowers the field, below zero if need be; empty exactly if the transaction succeeded and no field is positive |
| Presence.LocalCounts | backend/internal/signaling/presence_local.go:17-52 | after every well-formed history each count is the number of connections between their Join and their Leave |
| Presence.RedisCounts | backend/internal/signaling/redis.go:115-161 | after every well-formed history, whatever Joins and Leaves fail, applied or not, each count is the number of live connections plus the Leaves and minus the Joins of that place that were not applied |
| Presence.LostLeaves | backend/internal/signaling/redis.go:136-161 | while Joins succeed no count is too low, and a count is right if and only if no Leave of its place was lost |
| Presence.JoinIsTrueExactly | backend/internal/signaling/redis.go:115-134 | a Join that succeeds is told the truth if and only if for each other role what was lost there does not change whether the count is positive |
| Presence.EmptyIsReportedExactly | backend/internal/signaling/redis.go:136-161 | while Joins succeed a Leave reports the room empty if and only if it succeeds, nobody is present, and no Leave of this room was ever lost |
| Presence.LocalIsTrue | backend/internal/signaling/fanout.go:34-47 | every answer is the one the interface promises, said of connections and not of counters |
| Presence.RedisIsTrue | backend/internal/signaling/fanout.go:34-47 | the same for an error-free Redis store that keeps zero fields |
| Presence.RedisRefinesLocal | backend/internal/signaling/redis.go:87-100 | on every history the two stores return the same other roles and the same empty flag at every step |
| Presence.FailedLeavesAreSafe | backend/internal/signaling/redis.go:144-146 | with any failing Leaves, empty is never reported while a connection is present |
| Presence.LostLeaveSilencesRoom | backend/internal/signaling/redis.go:144-156 | after a Leave that was not applied no later Leave of its room reports it empty |
| Presence.LeaveAgreesExactlyWhenMatched | backend/internal/signaling/redis.go:99-100 | a Leave keeps stores with equal counts equal if and only if the count was positive |
| Presence.LostJoinHidesNextPeer | backend/internal/signaling/redis.go:115-134 | a well-formed history with one Join that was not applied: a later phone is told of nobody although an agent that joined without error is present |
| Presence.FiresOncePerEmptying | backend/internal/signaling/hub.go:106-109 | the empty flag is raised at exactly the events that take a room from occupied to unoccupied |
| Presence.JoinBetweenFirings | backend/internal/signaling/hub.go:112-115 | between two raised flags for a room some connection joined it |
| Presence.AllHeardExactly | backend/internal/signaling/redis.go:136-161 | the emptyings reported are at most the emptyings, and all of them if and only if each one's Leave succeeds and comes before any lost Leave of the room |
| Mailbox.WsPeer.Send | backend/internal/signaling/handlers.go:52-64 | accepts a frame exactly if the channel is open and has room, appends it and nothing else, and never closes the channel nor blocks |
| Mailbox.WsPeer.CloseSend | backend/internal/signaling/handlers.go:66-76 | idempotent; the channel is closed, and what it buffers stays |
| Mailbox.WsPeer.Receive | backend/internal/signaling/handlers.go:199-206 | the writer gets the oldest frame, also from a closed channel, and neither closes nor reopens it |
| Mailbox.RunsKeepOrder | backend/internal/signaling/handlers.go:19-76 | over any operations accepted frames are taken frames followed by queued ones and only grow, at most 32 wait, and a closed queue accepts nothing more |
| Mailbox.ClosedExactly | backend/internal/signaling/handlers.go:52-76 | after any operations a queue is closed if and only if it was, or a close is among them |
| Mailbox.AcceptedExactly | backend/internal/signaling/handlers.go:52-64 | after any operations a Send is refused if and only if a close came before or 32 accepted frames are not taken yet; it takes nothing and closes nothing |
| Mailbox.TakenExactly | backend/internal/signaling/handlers.go:199-206 | after any operations a receive hands out the oldest accepted frame not taken yet |
| Hub.LocalHub.Register | backend/internal/signaling/hub.go:71-76 | the newcomer takes the slot, whoever held it |
| Hub.LocalHub.SendBoth | backend/internal/signaling/hub.go:81-83 | peer-ready goes to the newcomer and to the holder of the opposite slot, and to nobody else |
| Hub.LocalHub.Join | backend/internal/signaling/hub.go:70-87 | slot, presence, and both peers told exactly if the counterpart is present |
| Hub.Includes | backend/internal/signaling/hub.go:79-86 | the loop finds the counterpart exactly if it is among the roles present |
| Hub.LocalHub.Unregister | backend/internal/signaling/hub.go:94-104 | frees the slot only if the peer with this id still holds it, and leaves no empty room |
| Hub.LocalHub.Leave | backend/internal/signaling/hub.go:93-110 | slot, presence, and one callback for the room exactly if it is empty and a callback is registered |
| Hub.LocalHub.Relay | backend/internal/signaling/hub.go:124-126 | the frame is offered to the opposite role of the sender's room only |
| Hub.LocalHub.DeliverLocal | backend/internal/signaling/hub.go:130-140 | the holder of the slot is offered the frame, every other peer is untouched |
| Hub.LocalHub.RoomCount | backend/internal/signaling/hub.go:142-147 | the number of rooms in which some role is held |
| Hub.PutAt | backend/internal/signaling/hub.go:71-76 | registering changes one slot and no other |
| Hub.IdsOfPut | backend/internal/signaling/hub.go:71-76 | the hub's registration of a peer is the step system's registration of its id |
| Hub.DropAt | backend/internal/signaling/hub.go:94-102 | a Leave evicts its own peer and nobody else, and keeps the map free of empty rooms |
| Hub.IdsOfDrop | backend/internal/signaling/hub.go:94-102 | the hub's Leave on peers is the step system's Leave on their ids |
| Roster.CountsAreConserved | backend/internal/signaling/redis.go:90-100 | in every state of the step system the stored count is the number of present connections plus the lost Leaves of that place, in both stores |
| Roster.CountInSeesCounterpart | backend/internal/signaling/hub.go:78-86 | a newcomer goes on to announce itself if and only if a counterpart is present on any instance or a Leave of the counterpart's place was lost |
| Roster.CountOutSignalsEmptied | backend/internal/signaling/hub.go:106-109 | a leaver calls back if and only if its Leave succeeds, nobody else is present in the room, and no Leave of this room was lost |
| Wire.PublishInv | backend/internal/signaling/redis.go:47-55 | publishing keeps numbering, addressing and order of frames on every carrier |
| Wire.HandOverInv | backend/internal/signaling/hub.go:137-139 | a delivery keeps order and isolation although the look-up and the Send are separate steps |
| Wire.TakenFromCounterpart | backend/internal/signaling/handlers.go:192-217 | each frame a writer has taken was published as it is by the opposite role of its own room, with its stamp, or is a peer-ready or an error message of its own goroutine |
| Wire.TakenInOrder | backend/internal/signaling/handlers.go:192-217 | frames of one sender are taken in sending order, none twice |
| Relay.RelayIsOrderedAndIsolated | backend/internal/signaling/handlers.go:161-217 | after every run, for all that any writer has taken: isolation, stamp and origin of each frame, and sending order of any two of one sender |
| Relay.NoLostPeerReady | backend/internal/signaling/hub.go:68-87 | in every state of every run, a current agent and a current phone that have both finished Join have both been offered a peer-ready since both are present, or with pub/sub it is queued at their instance |
| Relay.SlotIsLatestJoiner | backend/internal/signaling/hub.go:70-104 | after every run a slot holds the last connection to register there if it has not left, and else nobody; no empty room remains |
| Relay.RoleIsGoneExactly | backend/internal/signaling/hub.go:93-104 | after every run no instance holds a peer for the role if and only if on each the last connection to register has left, or none registered |
| Relay.ByeMeansGoneExactly | backend/internal/signaling/handlers.go:162-168 | after a bye its sender holds no slot, and its role is gone if and only if on every instance the last to register is the sender or has left |
| Relay.PresenceIsConserved | backend/internal/signaling/hub.go:70-110 | after every run each count is the number of connections between their presence Join and their presence Leave, plus the lost Leaves of that place |
| Relay.CallbackFindsRoomEmpty | backend/internal/signaling/redis.go:136-161 | in every reachable state a leaver goes on to call back if and only if its Leave succeeds, nobody else is present, and no Leave of this room was lost |
| Relay.OneCallbackPerEmptying | backend/internal/signaling/hub.go:89-110 | the callbacks made and about to be made for a room are exactly its emptyings by a Leave that succeeded before any of the room was lost; so one per emptying if and only if all are of that kind |
| Relay.RunInv | backend/internal/signaling/hub.go:43-147 | the inductive invariant behind the theorems above, for every interleaving |
| Reconnect.ByeCanFollowReconnect | backend/internal/signaling/handlers.go:162-168 | a run in which the phone reads the bye of an old agent while the new agent holds the slot and is in its read loop |
| Transcript.SentIsSaid | backend/internal/signaling/handlers.go:165-191 | after every run the frames a connection has published are, in order, those of its own steps: its client's messages with kind and payload as sent and its role for from, its peer-ready, its bye, each for the other role of its room |
| Transcript.TakenIsWhatWasSaid | backend/internal/signaling/handlers.go:161-217 | after every run each published frame a client has taken was said by a step of a client of the other role in its room, word for word but for from, and what it has taken of one client comes in that client's order, nothing twice |
| Transcript.OwnFramesAreWritten | backend/internal/signaling/handlers.go:186-189 | every other frame a client has taken is its own goroutine's peer-ready or its answer to a malformed message |
| Transcript.BoxIsItsRun | backend/internal/signaling/handlers.go:52-76 | after every run each box is what the Sends, takes and the close of the run make of an empty one |
| Transcript.ClosedExactlyByOwner | backend/internal/signaling/handlers.go:66-76 | after every run a box is closed if and only if its own connection has closed it |
| Transcript.BothAreTold | backend/internal/signaling/hub.go:68-87 | the peer-ready theorem said of the steps: each of the two was offered a peer-ready by a step after both were counted in, or with pub/sub one published after that is queued at its instance |
| Transcript.LogIsTheRun | backend/internal/signaling/hub.go:78-109 | after every run the presence calls, their outcomes and the callbacks on record are those of the run's steps, in order |
| Transcript.HandsAreLookedUp | backend/internal/signaling/hub.go:130-140 | the receiver of a frame that is being delivered is the last connection to have registered for its place at the look-up, if it had not left |
| Transcript.ConnectionsKeepOrder | backend/internal/signaling/handlers.go:145-192 | in every run each connection's own steps are in program order: slot, count in, both peer-readys or none, messages, slot freed, count out, callback or not, close, bye |
| Delivery.EachFrameHasOneFate | backend/internal/signaling/hub.go:124-140 | in every state of every run each published frame has exactly one fate on each of its carriers: it waits there, a receiver served by it has accepted it, or it was dropped because nobody held the slot at its look-up or the holder's box was full or closed at its Send |
| Refinement.RelayStepsAreLifecycleSteps | backend/cmd/server/main.go:85-113 | every step of every relay run, Leaves failing in any way, is an admission, entry, exit or callback of the life-cycle model with the same peers and the same missed rooms before and after, or changes none |
| Refinement.RelayRunsAreLifecycleRuns | backend/cmd/server/main.go:85-113 | every relay run, Leaves failing in any way, given join tokens for its newcomers, continues a life-cycle run that has seen no peer yet to a state with the same peers |
| Session.Service.Mint | backend/internal/session/service.go:85-141 | the first try whose id names no live token is taken; five live ones fail, with the rows unchanged if and only if every roll-back worked; the outcome and the rows and keys for an error at any statement of any try, whether the statement was applied or not |
| Session.TriesLeaveRows | backend/internal/session/service.go:138-139 | tries that met live ids change no earlier row and leave exactly the rows whose roll-back failed, all pending |
| Session.MintedExactly | backend/internal/session/service.go:97-139 | what the last try of a Mint answers and leaves: one pending row with its time, a token with PIN and lifetime if the connect id was free, the rows whose roll-back failed, and no other change |
| Session.CounterExactly | backend/internal/session/service.go:156-167 | a Redeem is counted exactly if it has read a live token and its INCR is applied; who starts a counter sets its lifetime; an accepted or excessive call removes it |
| Session.Service.Invalidate | backend/internal/session/service.go:247-249 | removes the token and its counter, or neither exactly if the DEL was not applied; its error is ignored |
| Session.Service.Redeem | backend/internal/session/service.go:146-204 | accepted if and only if no statement before the UPDATE fails, the token was live, the PIN is its PIN and fewer than five calls were counted by a live counter; too many attempts if and only if five or more were; the answer's session, the row with its times, and the keys after every course and every failing statement, applied or not |
| Session.Service.EndSession | backend/internal/session/service.go:212-228 | the row is ended afterwards exactly if it was ended before or was active and the UPDATE applied; an error is reported, applied or not; idempotent; every other row and all other times stay |
| Session.Service.ExpireStalePending | backend/internal/session/service.go:230-245 | exactly the pending rows older than the limit change, to expired and keeping their times, and the number returned is the number of rows changed; an UPDATE that fails returns an error, applied or not |
| Attempts.ComparisonsAreBounded | backend/internal/session/service.go:157-178 | for timed calls that come one at a time one minted token gets at most 5 comparisons, 9 with a left-over counter, one more for a late call; at most one PIN accepted unless a DEL failed |
| Attempts.ClosedMeansRefused | backend/internal/session/service.go:165-183 | for calls that come one at a time: after success or too many attempts every call is refused without a comparison until the id is minted again |
| Attempts.BoundIsExact | backend/internal/session/service.go:146-178 | for calls that come one at a time, given left-over counter and greatest delay between GET and INCR, a number bounds the comparisons of every token if and only if it is at least 5 or 9, plus one if the delay is not zero |
| Attempts.FiveTriesExactly | backend/internal/session/service.go:157-167 | for calls that come one at a time no token gets more than five comparisons if and only if there is no left-over counter and no such delay |
| Attempts.LimitIsReached | backend/internal/session/service.go:146-167 | runs of calls one at a time with 5, 6, 9 and 10 comparisons |
| Attempts.FailedDeleteAcceptsTwice | backend/internal/session/service.go:182-183 | a run in which one token is redeemed twice because its DEL failed |
| Guessing.ComparisonsAreCovered | backend/internal/session/service.go:146-183 | in every run of overlapping calls, DELs failing or not, the calls that count themselves within the limit while the token is live are at most 5, or 9 with a left-over counter, and the comparisons are at most those and the ones that do so later |
| Guessing.MoreComparisonsAreLate | backend/internal/session/service.go:146-183 | so every comparison beyond 5, or 9, is owed to a call that counts itself after the token has gone; with no such call and no left-over counter five is the limit |
| Guessing.OverlappingGuessesAreUnbounded | backend/internal/session/service.go:146-183 | for every number a run with more comparisons, without a left-over counter and without any time passing |
| Lifecycle.StatusStep | backend/internal/session/service.go:185-191 | a row's status only goes pending, active, ended, or pending, expired; a deleted row does not come back |
| Lifecycle.RowsAndTokensAgree | backend/internal/session/service.go:97-139 | after every run connected_at is set exactly if active or ended, ended_at exactly if ended; tokens name distinct existing sessions |
| Lifecycle.ActivatedAtMostOnce | backend/internal/session/service.go:185-191 | a session is activated at most once, and exactly if its row is active or ended |
| Lifecycle.UpdateFindsNoExpired | backend/internal/session/service.go:185-191 | at a Redeem's UPDATE the row is not expired if the two delays fit into the token's lifetime |
| Lifecycle.JoinInfoNamesActivated | backend/internal/session/service.go:185-203 | under that bound every JoinInfo returned names a session that was activated |
| Lifecycle.PhonesComeWithRedeemedSessions | backend/cmd/server/main.go:102-113 | every phone in a room implies an active or ended session, every agent an existing one, after every run under that bound |
| Lifecycle.SessionsDoEnd | backend/cmd/server/main.go:85-100 | with no callback in flight, an active session's room is occupied, or nobody has left it since the activation, or an emptying since then was missed: a Leave of the room or the callback's UPDATE failed |
| Lifecycle.EndedRoomsWereEmptied | backend/internal/signaling/hub.go:106-109 | no session is ended unless some Leave had found its room empty |
| Lifecycle.RunInv | backend/internal/session/service.go:85-245 | the inductive invariant over rows, tokens, calls, grants and peers |
| Serial.RedeemIsItsSteps | backend/internal/session/service.go:146-204 | for every state, PIN, timing and failing statements: a Redeem's steps, run alone at the times of its statements, leave the store that the method leaves, and return a JoinInfo with a phone's token for that session exactly when it does |
| Serial.MintIsItsSteps | backend/internal/session/service.go:85-141 | the same for a Mint that ends with its n-th try |
| Serial.ExhaustedMintIsItsSteps | backend/internal/session/service.go:85-141 | the same for a Mint that uses up its five tries |
| Ledger.GrantsAreSigned | backend/internal/session/service.go:125-203 | after every run the join tokens there are, are exactly those signed at the end of a Mint for the agent and at the end of a Redeem for the phone, for the call's session and lifetime |
| Ledger.TokensComeWithAnswers | backend/internal/session/service.go:193-203 | after every run a phone's join token for a session exists if and only if some Redeem has returned a JoinInfo for it, and an agent's if and only if some Mint has returned |
| Ledger.AdmissionIsAuthorized | backend/cmd/server/main.go:102-113 | a peer is admitted to a room as a role by a signed token if and only if the endpoint's check of room, role and expiry succeeds |
| Ledger.PeersWereAdmitted | backend/internal/signaling/handlers.go:120-132 | every peer of every run was admitted by a step with an unexpired join token for its room and role |
| Ledger.AtMostFiveTries | backend/internal/session/service.go:97-139 | in every run a Mint inserts at most five rows |
| Ledger.RecordsAreTheRun | backend/cmd/server/main.go:85-100 | after every run, which rooms lost a Leave, were found empty, were left or missed since the activation is what the steps say |
| Ledger.SessionsEndWithTheirRooms | backend/cmd/server/main.go:85-100 | said of the steps: an active session's room without a callback in flight is occupied, or not left since the activation, or its emptying was missed; an ended session's room was found empty by a Leave that worked |
| SingleUse.WhoCanBeAccepted | backend/internal/session/service.go:146-183 | after every run a call can still be accepted for a stored session if and only if it has read the token, has its PIN and has not counted itself out, or has not begun and the token is live |
| SingleUse.ReusableExactlyByReaders | backend/internal/session/service.go:146-183 | once a call is accepted: if its DEL works, exactly the other calls that had read the token, have its PIN and have not counted themselves out can still be; if it fails, also those that have not begun while the token is live |
| SingleUse.AcceptedTwiceMeansOverlap | backend/internal/session/service.go:182-183 | in every run with two acceptances of one session, the first with a working DEL, the second call is another one and had read the token before the first acceptance |
| SingleUse.SerialCallsAreRefused | backend/internal/session/service.go:182-183 | a call that begins after such an acceptance is never accepted |
| Reentry.OccupiedAgainExactly | backend/cmd/server/main.go:85-113 | after every run the room of a stored session can be occupied, now or later, if and only if somebody is inside or admitted, a join token is unexpired in whole seconds, a Mint or a Redeem within its delay can still hand one out, or the connection token is live |
| Reentry.InsideAgainExactly | backend/cmd/server/main.go:85-113 | the same for each role: an agent's ways in go through a Mint, a phone's through a Redeem |
| Reentry.EitherRoleGetsIn | backend/cmd/server/main.go:102-113 | a run with an agent inside a room, and one with a phone inside |
| Reentry.EndedRoomIsJoinedAgainExactly | backend/internal/session/service.go:212-228 | the same for every session that has ended |
| Ending.CanEndExactly | backend/cmd/server/main.go:85-100 | after every run an active session can still end if and only if a callback of its room is in flight, or no Leave of the room was lost and the room is or can be occupied |
| Orphans.ExhaustedMintLeavesNothing | backend/internal/session/service.go:97-140 | under any interleaving, of the rows a Mint without a current try has inserted, exactly those whose roll-back failed are left |
| Orphans.RowsOfMint | backend/internal/session/service.go:97-139 | at any time, of the rows a Mint has inserted, those left are its current or granted one and the failed roll-backs |
| Orphans.EveryRowHasAnOwner | backend/internal/session/service.go:97-139 | after every run each row's session had its token stored, is private to the current try of some Mint, or is a failed roll-back |
| Overtaking.SweepCanOvertake | backend/cmd/server/main.go:208-224 | longer delays: a run in which a JoinInfo names an expired session |
| Overtaking.SweepIsSafeExactly | backend/cmd/server/main.go:208-224 | the sweep never overtakes a Redeem if and only if the two delays together are at most the token's lifetime |
| Overtaking.OverlappingRedeemsBothJoin | backend/internal/session/service.go:182-183 | a run in which two overlapping calls both redeem one token |
| Overtaking.EndedRoomCanBeJoined | backend/cmd/server/main.go:85-113 | a run in which a peer is inside a room whose session has ended |
| Auth.IssueParseRoundTrip | backend/internal/auth/jwt.go:97-138 | what was issued is read back under the same key, strictly before its expiry in whole seconds, and otherwise refused |
| Auth.WholeSeconds | backend/internal/auth/jwt.go:97-138 | token times are the last whole second not after the moment meant |
| Auth.JoinTokensAreSpecific | backend/cmd/server/main.go:102-113 | a join token opens one room for one role until its expiry, under its own key; access and refresh tokens open none |
| Identity.Handlers.Login | backend/internal/identity/service.go:121-149 | success exactly for an enabled user with this email, in any case and spacing, and this password; the password is checked before the flag; store errors are told apart; both tokens carry that user, organization and version, their own kind and expiry |
| Identity.NormalizedIsLower | backend/internal/identity/service.go:213-215 | a normalized email is in lower case and stays as it is when normalized again |
| Identity.TrimExactly | backend/internal/identity/service.go:213-215 | trimming takes away all the outer spaces of an email and nothing else |
| Identity.NormalizedExactly | backend/internal/identity/service.go:213-215 | an email between any spaces normalizes to its own lower case |
| Identity.Handlers.Refresh | backend/internal/identity/handlers.go:97-126 | each refusal exactly by key, expiry, kind, claims and stored user, a failed read like a missing user; a new pair carries the subject, organization and version of the old token, its own kinds and expiries, and can be refreshed in turn, its access token cannot |
| Identity.Handlers.Logout | backend/internal/identity/handlers.go:128-141 | the version goes up by one and every refresh token issued to this user so far is refused from now on; no other user and no other field changes; an error changes nothing |
| Identity.Handlers.SetDisabled | backend/internal/identity/service.go:174-190 | succeeds exactly for a user of that organization; disabling also refuses every refresh token issued so far, enabling leaves the version; nothing else changes |
| Identity.KindsDoNotMix | backend/internal/identity/handlers.go:103-107 | only refresh tokens pass the refresh check and only join tokens the endpoint's; no issued token of another kind passes either |
| Identity.IssuedExactly | backend/internal/identity/handlers.go:156-175 | after every interleaving the tokens there are, are exactly the pairs issued by a handler for the user it had read, with the organization and version read and the expiry from its issuing |
| Identity.RunInv | backend/internal/identity/handlers.go:97-175 | after every interleaving each issued or in-flight version is at most the stored one, and less while the user is disabled |
| Identity.NewcomerIsIn | backend/internal/identity/handlers.go:54-62 | the tokens a registration answers with are accepted until they expire, the newcomer can log in, and no other user changes |
| Identity.DisabledCannotRefresh | backend/internal/identity/handlers.go:108-125 | a disabled user neither logs in nor refreshes, although Refresh never reads the flag |
| Identity.RefusedStaysRefused | backend/internal/identity/handlers.go:120-124 | a token refused as revoked is refused in every later state |
| Identity.DisablingRevokesForGood | backend/internal/identity/service.go:174-181 | versions issued or in flight at a disablement never refresh again, even after the user is enabled |
| Limiter.Limiter.Allow | backend/internal/ratelimit/ratelimit.go:83-98 | refuses exactly if the live counter had reached the limit, allows on errors, starts the window with the first event; the key's counter and deadline after every INCR and EXPIRE that fails, applied or not; every other key stays |
| Limiter.RefusedOnlyAtTheLimit | backend/internal/ratelimit/ratelimit.go:86-98 | for every arrival sequence a refusal means max were admitted since the counter began, INCR errors apart |
| Limiter.WindowHoldsTwiceTheLimit | backend/internal/ratelimit/ratelimit.go:86-98 | any span as long as the window holds at most twice the limit, however late the EXPIRE is and even if it never comes, INCR errors apart |
| Limiter.TwiceTheLimitExactly | backend/internal/ratelimit/ratelimit.go:86-98 | a number bounds the admissions of every span as long as the window if and only if it is at least twice the limit, INCR errors apart |
| Limiter.AllowIsArrival | backend/internal/ratelimit/ratelimit.go:86-98 | the method and the arrival step leave the same counter and admit the same calls |
| Migrations.Store.Migrate | backend/internal/store/store.go:86-118 | from any recorded versions the missing files are applied once, in the list's order, after what was there; all of them on success; it stops before the first missing file that fails and undoes nothing |
| Migrations.MissingExactly | backend/internal/store/store.go:86-118 | the files a run applies are exactly those of the list that are not recorded, each once, in the list's order |
| Migrations.CatchingUpCompletesPrefix | backend/internal/store/store.go:64-66 | from a prefix of the list a run that succeeds completes the list |
| Migrations.MigrationsRunOnceInOrder | backend/internal/store/store.go:64-119 | from any prefix of the list, any number of runners, each stopped anywhere: the recorded versions are a prefix at least as long, the schema is that prefix applied once in order, and a runner at the end implies the whole list |
| Annotations.Overlay.PlaceOrMove | mobile-client/Assets/Scripts/AR/Annotation2DOverlay.cs:37-57 | an existing marker is moved, a missing one made; nothing else changes |
| Annotations.Overlay.Remove | mobile-client/Assets/Scripts/AR/Annotation2DOverlay.cs:59-66 | one id goes, and its object with it |
| Annotations.Overlay.Clear | mobile-client/Assets/Scripts/AR/Annotation2DOverlay.cs:68-73 | empties the map and destroys exactly its objects |
| Annotations.DestroyAll | mobile-client/Assets/Scripts/AR/AnnotationAnchorManager.cs:133-137 | the loop destroys exactly the objects of the map |
| Annotations.AnchorManager.Remove | mobile-client/Assets/Scripts/AR/AnnotationAnchorManager.cs:121-129 | one anchor goes, and its object with it |
| Annotations.AnchorManager.ClearAnchors | mobile-client/Assets/Scripts/AR/AnnotationAnchorManager.cs:131-139 | empties the anchor map and destroys exactly its objects |
| Annotations.AnchorManager.CreateAnchor | mobile-client/Assets/Scripts/AR/AnnotationAnchorManager.cs:85-93 | a new object of its own for the id |
| Annotations.AnchorManager.PlaceOrMove | mobile-client/Assets/Scripts/AR/AnnotationAnchorManager.cs:58-95 | a miss goes to the overlay and keeps an old anchor; a hit removes both before the new anchor is tried |
| Annotations.AnchorManager.Apply | mobile-client/Assets/Scripts/AR/AnnotationAnchorManager.cs:39-56 | for every event and raycast outcome both stores stay the replay of the log, and the objects alive are exactly theirs, unshared |
| Annotations.Replay | mobile-client/Assets/Scripts/AR/AnnotationAnchorManager.cs:39-95 | what the log says of an id depends on its last relevant event only |
| Annotations.ReplayStep | mobile-client/Assets/Scripts/AR/AnnotationAnchorManager.cs:39-95 | the effect of one event on the maps keeps them equal to the replay |
| Annotations.MissKeepsOldAnchor | mobile-client/Assets/Scripts/AR/AnnotationAnchorManager.cs:69-76 | after a placement that misses, an id is in the overlay and still has the anchor it had |
| Annotations.OverlayExactly | mobile-client/Assets/Scripts/AR/AnnotationAnchorManager.cs:39-95 | after every log an id has a marker if and only if one of its placements missed and no hit, delete or clear of it came later |
| Annotations.AnchorExactly | mobile-client/Assets/Scripts/AR/AnnotationAnchorManager.cs:39-95 | after every log an id has an anchor if and only if one of its hits was anchorable and no other hit, delete or clear of it came later |
| Annotations.InBothExactly | mobile-client/Assets/Scripts/AR/AnnotationAnchorManager.cs:58-95 | an id is in both stores if and only if an anchorable hit of it is followed by a miss and by no other hit and no removal |
| Annotations.HitThenMissIsInBoth | mobile-client/Assets/Scripts/AR/AnnotationAnchorManager.cs:69-76 | two events that put an id into both stores |
| Geometry.OneBarPairIsEmpty | windows-agent/src/AR.Agent.Core/Geometry/VideoCoords.cs:25-32 | the frame fits, keeps its aspect ratio, is centred, and one pair of bars is empty |
| Geometry.NormalizedIsShown | windows-agent/src/AR.Agent.Core/Geometry/VideoCoords.cs:17-40 | null exactly in the bars or on degenerate sizes, else a point in [0,1] squared, u from the frame's left and v from its top, that is shown at that pixel |
| Geometry.ShownIsNormalized | windows-agent/src/AR.Agent.Core/Geometry/VideoCoords.cs:17-40 | the pixel at which a frame point is shown maps back to that point |
| Geometry.RayIsCastAtTheShare | mobile-client/Assets/Scripts/AR/AnnotationAnchorManager.cs:63-66 | the ray is cast as far from the screen's left and top as the point is from the frame's, with y up |
| Geometry.OverlayMatchesRaycast | mobile-client/Assets/Scripts/AR/AnnotationAnchorManager.cs:63-66 | the overlay marker stands where the ray is cast, for every point, if and only if the canvas fills the screen |

## Left out

- WebSocket, HTTP, JSON, SQL and Redis clients: a statement or MULTI/EXEC pipeline is one atomic step on maps.
- argon2, HMAC, SHA, PIN digits and JWT encoding; the user's role in tokens; presigned URLs and TURN credentials.
- Ping and pong timers, read deadlines, liveness: a connection may end at any time.
- Expiry of the presence key, and failing Redis Joins in the step system: connections are then not counted at all.
- Failing or reordered pub/sub: delivery is assumed reliable and in order.
- A hub class over Redis: `Hub.LocalHub` has the in-process fanout; pub/sub is in `Wire` only.
- Limiter.WindowHoldsTwiceTheLimit: counts no arrival whose INCR fails, because such an arrival is always allowed and no number bounds them; the same holds of the other laws about arrival sequences.
- Identity: `LoginRead` stands for a login whose email and password were right; the others are single branches of `Identity.Handlers.Login`.
- Lifecycle: a statement error that ends its call appears as a call that goes no further, before or after the statement; the ignored errors of the roll-back and of the DEL, and those of a Leave and of the callback's UPDATE, are steps.
- Migrations.MigrationsRunOnceInOrder: runners with different file lists are not modelled.
- Migrations.Store.Migrate: errors before the first file (creating the table, reading the directory) leave the database as it is and are not modelled.
- Geometry: floating-point rounding; the arithmetic is over exact reals.
- Marker colours, the AnchorEstablished event and AR tracking; anchor and marker prefab count as one object.
- The rate limiter's middleware and proxy list, recordings, email validation, metrics, user interfaces and media: single branches or foreign calls.
