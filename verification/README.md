# Gocord signaling: a model and its proofs

Gocord pairs two browsers for a WebRTC call. A Go server keeps rooms, admits two clients to each,
relays their session descriptions and forgets the room afterwards; a page negotiates the call. This
project models the parts of the program in which something can go wrong without anybody noticing, and
proves what they promise.

## What is modelled

**Rooms and the signaling protocol.** `Rooms` gives the room directory as a value and the effect of
each critical section of the manager on it, generic in what identifies a connection. `RoomManager` has
the manager, its rooms and its peers as objects updated in place; every method is proved to do to the
directory, and to the dead flags, exactly what `Rooms` says. `Protocol` is the transition system: a
step is one critical section, one of the two selects of an Enqueue, one receive of a write pump, one
step of a handler or a tick of the clock, so a run is any interleaving of them. A connection is
identified by its own number, never by its client ID, as the program identifies it by its pointer.
`ProtocolRooms`, `ProtocolMessages`, `ProtocolIsolation` and `ProtocolRuns` hold the invariants, the
last also the induction over runs; `ProtocolTheorems`, `ProtocolEntry`, `ProtocolHandlers`,
`ProtocolBroadcasts`, `ProtocolWelcome` and `ProtocolDrain` hold the results, `ProtocolExamples` a run
that two comments of the program rule out.
`Mailbox` is one connection's queue, dead flag and pump.

**Negotiation.** `Negotiation` composes that transition system with any number of client pages that
join, reconnect, change their room, read, negotiate and close in any interleaving, and shows that the
role learned in a room lets one client ID alone offer there. `NegotiationSteps` is what each message
makes a page do; `NegotiationStale` is what a role or an unfinished offer taken along from another room
allows.

**Rate limiting.** `RateLimit` compares the token bucket with a sliding window over the whole log of
admissions; `RateLimiter` is the limiter object, proved to be that function.

**Text and bytes.** `Text` (split, join, trim), `Sdp` and `SdpCandidates` (the sanitizer for session
descriptions and the candidates it lets pass: section 5 of RFC 8866, section 5.1 of RFC 8839), `Push`
(HKDF-Expand of section 2.3 of RFC 5869 and the message encryption of RFC 8188 and RFC 8291), `Base64`
and `Base64Digits` (the four dialects of RFC 4648, the client's codec and UTF-8, RFC 3629). `Fmtp`,
`FmtpReads`, `FmtpStability` and `FmtpPasses` merge codec parameters (section 6.15 of RFC 8866), once and
again; `OpusSdp` and `OpusPasses` enhance the lines of a description; `FmtpBreaks`, `OpusText`,
`OpusExact`, `OpusLocality` and `OpusRepeats` carry that to its text, whose line breaks (`Breaks`) the
code decides anew on every pass.

Each operation is written as the program has it, and beside it stands what it does without its own
words: `RateLimit.Allowance`, `SdpCandidates.Passes`, `Push.StandardKeys` and `Push.StandardReads`,
`Base64Digits.Carries`, `FmtpReads.ReadsPair` and `OpusExact.Spells` use none of the functions they are
compared with.

### Assumptions

- In `Negotiation` every client is a page running the program's code; in `Protocol` clients may send
  anything.
- Fresh room IDs were never used before; fresh tokens are not empty. Randomness and clock readings are
  parameters of the steps; the clock never runs backwards inside the room manager, and a reading made
  before the lock was taken may be late.
- Hashes, ECDH, AES-GCM and HMAC are functions with three laws: the two sides of a key agreement
  agree, opening undoes sealing (which adds 16 bytes), and an HMAC has 32 bytes. `net.ParseIP` is an
  arbitrary predicate. `toLowerCase` is any function with the laws of `Fmtp.Lowers`: among them, it
  changes nothing the second time and introduces no semicolon, equals sign or line break.
- Tokens and rates of the limiter are real numbers; times are whole nanoseconds.
- Strings are sequences of Unicode scalar values.

### Where the code and its comments differ

The model follows the code.

- internal/push/encrypt.go:100 asks for at least one byte of plaintext; the length check admits an
  empty one, and `Push.DecryptInvertsEncrypt` covers it.
- web/ui.go:4882-4883 says of a received hangup that the server has already deleted the room; the
  server deletes it two seconds after the hangup (internal/signaling/handler.go:137-141).
  `ProtocolExamples.HangupFindsTheRoom` is a run in which the hangup is read and the room is there, and
  by `ProtocolDrain.HangupLeavesTheRoom` it is there throughout those two seconds, unless its expiry or
  its grace period ends first or an earlier hangup is already due to delete it.
- internal/signaling/handler.go:93 sends "joined" first, but the connection can be reached by a
  broadcast as soon as Join returns. `ProtocolExamples.WelcomeComesSecond` is a run in which it is the
  second message accepted; `ProtocolWelcome.WelcomeLeadsExactly` says when it is the first.

### Properties that do not hold, and exactly when they do

- Sanitizing twice is not the same as sanitizing once on text with mixed line breaks
  (`Sdp.MixedBreaksAreNotStable`); `Sdp.IdempotentExactlyWhenBreaksSurvive` says on which texts it is.
- A sanitized text can still hold an invalid candidate at its own line breaks, so a description is
  relayed with one (`Sdp.UncleanOfferIsRelayed`); it is clean on exactly the same texts
  (`Sdp.CleanExactlyWhenBreaksSurvive`, `Sdp.RelayedMessagesAreClean`).
- Merging parameters twice is not the same as merging once when a parameter has no name
  (`FmtpStability.NamelessIsNotStable`); `FmtpStability.IdempotentExactlyWhenNamesReadable` says when,
  on the existing parameters. Two merges are not always enough either
  (`FmtpPasses.TwoMergesAreNotEnough`, on `x;=`), `FmtpPasses.TwoMergesSufficeExactly` says when they
  are, and three always are (`FmtpPasses.ThreeMergesSuffice`).
- Enhancing a description twice is not the same as enhancing it once
  (`OpusRepeats.EnhancedTwiceDiffers`, on a lone Opus map); `OpusRepeats.EnhancedTwiceExactly` says when
  it is. The third enhancement can still change the text (`OpusRepeats.EnhancedThriceDiffers`);
  `OpusRepeats.EnhancedThriceExactly` says when it does not, and the fourth never does
  (`OpusRepeats.ThreeEnhancementsSuffice`).
- The enhanced text does not always break where the text received did: a line added after a last line
  that ends in a carriage return makes a CRLF, and the next enhancement may then find no Opus map
  (`OpusRepeats.CRLFHidesTheMap`). `OpusRepeats.BreaksKeptExactly` says when the breaks are kept.
- One offerer per room fails for a page that changes its room. It keeps its role until the new room
  answers (`NegotiationStale.StaleRolesOffer`), and an offer begun before the change goes out to the new
  room even after that told the page that it is the callee (`NegotiationStale.InFlightOffers`: nothing
  is looked at again after the awaits of web/ui.go:4632-4641). What such a page does next breaks the
  rule exactly when its room seated it as the callee, its socket is open, and it has an offer on its way
  or takes itself for the caller with the call not over and no restart in flight
  (`NegotiationStale.IntrudesExactlyWhenItMay`); then it does so on a role learned elsewhere
  (`NegotiationStale.IntruderCameFromElsewhere`). Whether everybody in a room keeps to the part of their
  seat is decided by what was sent there on such grounds alone (`Negotiation.EverybodyFitsExactly`).

## Model

| member | source | states |
|---|---|---|
| `ProtocolTheorems.Pairing` | internal/signaling/handler.go:77-101 | In every reachable state, of two connections current in one room, the later of which is past its peer-ready broadcast, each is dead or has accepted that connection's own peer-ready |
| `ProtocolTheorems.NoReadyBeforeJoin` | internal/signaling/handler.go:93-101 | Nobody has accepted a peer-ready of a connection that has not joined yet, so the peer-ready of Pairing was sent when both had joined |
| `ProtocolTheorems.SupersessionIsFinal` | internal/rooms/manager.go:199-231 | A connection that is not current is never current again in any later run, relays at most one more message, its Leave changes nothing, and unless it left itself nobody ever accepts its peer-left |
| `ProtocolTheorems.TwoPartiesForLife` | internal/rooms/manager.go:170-196 | Over a whole run at most two client IDs are ever admitted to a room; within a room, IDs and roles correspond one to one; in a live room peers are among the roles, roles and tokens have the same keys, and the empty stamp is set exactly while a used room stands empty |
| `ProtocolTheorems.SeatsNeverChange` | internal/rooms/manager.go:184-196 | A seat's role and token are the same at the end of any run that leaves the room in place |
| `ProtocolTheorems.ReconnectAlwaysWorks` | internal/rooms/manager.go:155-196 | After any run, in a room still there and unexpired, an ID that held a seat is readmitted if and only if it presents the room secret and the token it was issued; it gets its old role and token; a refusal changes nothing |
| `ProtocolTheorems.NoThirdParty` | internal/rooms/manager.go:170-174 | Once two IDs hold the seats, a third one is refused after any run, whatever it presents |
| `ProtocolEntry.EverybodyKnewTheSecret` | internal/rooms/manager.go:107-197 | In any run, every connection there ever was joined by a request for its room and ID, made after the one creation of that room, with a secret of the same digest as the one the room was created with; every room has the digest and the expiry (stamp plus ttl) of its creation |
| `ProtocolTheorems.Delivery` | internal/rooms/manager.go:45-64 | What a pump wrote is a prefix, in order, of what Enqueue accepted; the buffer stays within its capacity; a refusal implies death; logs only grow and death is permanent over every run |
| `ProtocolTheorems.RoomsAreIsolated` | internal/rooms/manager.go:236-258 | Whatever a connection accepts from a broadcast was broadcast in its own room, and relays, hangups and departures always come from the other client ID |
| `ProtocolBroadcasts.BroadcastIsComplete` | internal/rooms/manager.go:236-258 | Whoever was current in the room when a peer-ready, peer-left, hangup or relayed message was broadcast had not accepted that very message before and is, at any later moment of any run, dead or has accepted it, unless the handler is still busy with that broadcast and has yet to come to it |
| `ProtocolBroadcasts.BroadcastIsNew` | internal/signaling/handler.go:145-162 | A broadcast is told from every earlier one: when it starts nobody has accepted it, even if the sender relayed the same body before |
| `ProtocolBroadcasts.LeavingSomebodyIsAnnounced` | internal/signaling/handler.go:103-111 | A current connection that leaves while the other party is current goes on to broadcast its departure |
| `ProtocolHandlers.LeavesExactly` | internal/signaling/handler.go:103-111 | A leaving connection is out of its room, by its own Leave exactly when it was current; its departure is due to be announced exactly when it was and somebody else is still in the room |
| `ProtocolHandlers.WhatFollows` | internal/signaling/handler.go:93-164 | Once everybody has been offered its payload a handler announces itself after the welcome exactly when there are two, answers "peer_unavailable" to exactly the relays that nobody accepted, leaves after a hangup with the deletion due two seconds later, is done after its departure, and otherwise reads on |
| `ProtocolHandlers.RepliesAreOwed` | internal/signaling/handler.go:123-160 | A ping is answered with "pong", undecodable JSON with "bad_json" and an unusable message with a rejection: the reply is on its way, accepted or the connection dead after every run |
| `ProtocolHandlers.CurrentReadsAreHandled` | internal/signaling/handler.go:113-121 | A message that arrives is handled, whatever it is, exactly when the connection is current |
| `ProtocolHandlers.HandlerEnds` | internal/signaling/handler.go:103-121 | After a failed read, a read when no longer current, or a hangup, the handler only leaves, and once it has left it holds no place in its room, after every run |
| `ProtocolHandlers.ReadyMeansTwo` | internal/signaling/handler.go:96-101 | Whatever peer-ready anybody accepted comes from a connection that was told on joining that there are two |
| `ProtocolHandlers.DiesExactly` | internal/rooms/manager.go:45-64 | A live connection dies in a step exactly when a payload is pushed to its full buffer of 64, or its room is reclaimed or deleted while it is current there |
| `ProtocolHandlers.NeverStuck` | internal/signaling/handler.go:93-166 | In every reachable state every handler that is not done can take its next step, whatever the socket brings |
| `ProtocolHandlers.StepKeepsHandlers` | internal/rooms/manager.go:251-257 | Every step keeps the count of a broadcast equal to the number of connections that accepted it |
| `ProtocolBroadcasts.RunKeepsOwing` | internal/rooms/manager.go:251-257 | A payload, with its number among those of its sender, still owed to a connection stays owed until it is accepted or the connection is dead, whoever takes the steps |
| `ProtocolWelcome.WelcomeLeadsExactly` | internal/signaling/handler.go:89-101 | In every reachable state the first message a connection accepted is a welcome if and only if it is not a broadcast of another handler in its room; all else that its own handler queued, its own peer-ready included, comes after a welcome, which carries its role; and a handler past the greeting has had it accepted or its connection is dead |
| `ProtocolWelcome.StepKeepsLeads` | internal/signaling/handler.go:93-162 | Every step of anybody keeps the order of what a handler queues for its own connection |
| `ProtocolExamples.WelcomeComesSecond` | internal/signaling/handler.go:77-95 | A run in which a message relayed to a connection is accepted before its welcome |
| `ProtocolTheorems.HangupBeforePeerLeft` | internal/signaling/handler.go:103-142 | Whoever accepts a hangup and a peer-left of one sender accepts the hangup first |
| `ProtocolDrain.HangupLeavesTheRoom` | internal/signaling/handler.go:134-142 | After a hangup in a room with somebody in it, and no deletion of it pending, the room is there at the end of every run that ends within two seconds, within the grace period and before the expiry, so for everybody who hears of the hangup by then |
| `ProtocolHandlers.HangupLeadsToDeletion` | internal/signaling/handler.go:134-142 | After a hangup and any run, the hangup is still being broadcast, or the room is gone, or its deletion is pending, due two seconds after some moment since |
| `ProtocolHandlers.HangupIsDeletion` | internal/signaling/handler.go:137-141 | When the broadcast of a hangup ends, a deletion of the room is due exactly two seconds later; after any run it is pending or the room is gone; from its due time on it can be taken, and then the room is gone |
| `ProtocolExamples.HangupFindsTheRoom` | web/ui.go:4881-4884 | A run in which a hangup has been written to the other party while the room is there |
| `ProtocolTheorems.DeletionIsFinal` | internal/rooms/manager.go:260-267 | After the delayed deletion everybody then current in the room is dead for good, and in every later state a Join to it is told that it is not found |
| `ProtocolTheorems.RemovalHasCause` | internal/rooms/manager.go:286-299 | A room disappears only by a hangup's deletion, after its expiry, or when it has been empty for the grace period; so, a hangup aside, never before its expiry while anybody is current in it |
| `ProtocolTheorems.EmptyStampIsExact` | internal/rooms/manager.go:214-218 | The empty stamp of a room is the clock of the very step that emptied it |
| `ProtocolTheorems.GraceWindow` | internal/rooms/manager.go:193-299 | From every state the server can reach, along any run that admits nobody to an emptied room and deletes it on no hangup, the room is unchanged while it exists, exists until its grace or its expiry is over, and is removed by the first sweep after the grace |
| `ProtocolTheorems.Capacity` | internal/rooms/manager.go:130-141 | No reachable state has more rooms than the bound, and Create is refused exactly when that many rooms are not collectable at its clock reading |
| `ProtocolRuns.RunKeepsSound` | internal/rooms/manager.go:151-299 | The whole invariant (rooms, places, mailboxes, continuations, logs, order, pairing, isolation, capacity) survives any run of anybody's steps |
| `ProtocolRuns.RunEvolves` | internal/rooms/manager.go:193-231 | What no run takes back: clock, seats, used IDs, currency once lost, logs, death, and the bound on further relays |
| `ProtocolRooms.StepKeepsInv` | internal/rooms/manager.go:170-218 | Every step of anybody keeps peers within roles, places true to the record, and seats one to one over the whole run |
| `ProtocolMessages.CurrencyIsNeverRegained` | internal/rooms/manager.go:193-231 | A connection current after a step was current before it |
| `ProtocolMessages.StepKeepsPairs` | internal/signaling/handler.go:93-101 | Every step keeps the pairing promise: the later of two current connections has told the other, or is still on its way to |
| `ProtocolMessages.StepKeepsOrder` | internal/signaling/handler.go:134-142 | Every step keeps each sender's hangup before its departure in every log |
| `ProtocolIsolation.StepKeepsIsolation` | internal/rooms/manager.go:243-258 | Every step keeps fan-outs aimed, and logs filled, from the right room and the right party only |
| `ProtocolRuns.StepKeepsCapacity` | internal/rooms/manager.go:130-141 | Every step keeps the number of rooms within the bound |
| `Mailbox.PushIsFaithful` | internal/rooms/manager.go:51-57 | The second select keeps the accounts of a mailbox true and kills it when it refuses |
| `Mailbox.PumpIsFaithful` | internal/signaling/handler.go:203-207 | A pump receive keeps them true whether or not the socket write succeeds |
| `Mailbox.OfferIsAllOrDeath` | internal/rooms/manager.go:45-58 | With nothing between its two selects, Enqueue succeeds if and only if the mailbox is alive with room in its buffer, appends exactly that payload, and otherwise leaves the mailbox dead; after a refusal it never succeeds |
| `ProtocolHandlers.StoppedPumpIsSilent` | internal/signaling/handler.go:196-215 | A pump that stopped, or whose write failed, never writes anything again |
| `Rooms.AdmitKeepsRoom` | internal/rooms/manager.go:165-196 | Admission keeps a room at two parties, the first the caller and the second the callee, and changes nothing when it refuses |
| `Rooms.AdmitSeats` | internal/rooms/manager.go:170-196 | Admission keeps every seat, and the reply names the seat and the number of peers the room then has |
| `Rooms.SeatIsGuarded` | internal/rooms/manager.go:186-191 | A seat holder is admitted if and only if it presents the secret and its own token |
| `Rooms.ThirdPartyIsRefused` | internal/rooms/manager.go:171-174 | With two seats taken anybody else is refused: room full with the right secret, unauthorized without |
| `Rooms.NewcomerIsGuarded` | internal/rooms/manager.go:165-187 | With a seat free, a newcomer to a present and unexpired room is admitted if and only if it presents the room secret and a token can be drawn, as the caller if and only if nobody has a seat; each refusal names its reason and changes nothing |
| `Rooms.SecretIsNeeded` | internal/rooms/manager.go:165-168 | Nobody is admitted with another digest than the room has |
| `Rooms.JoinChangesOneRoom` | internal/rooms/manager.go:184-196 | An admission puts the connection, its seat and its token into that one room, clears the empty stamp and changes nothing else; the reply counts the peers |
| `Rooms.AbsentOrExpired` | internal/rooms/manager.go:155-163 | An absent room is not found; an expired one is said to be expired and is dropped, and no other |
| `Rooms.CreatedRoomAdmits` | internal/rooms/manager.go:107-169 | The secret given to Create admits its holder as the caller until the stamp plus the ttl, another secret never, and after that nobody |
| `Rooms.VacateKeepsRoom` | internal/rooms/manager.go:214-218 | Leaving keeps the room invariant (the stamp is set exactly while a used room is empty) and every seat |
| `Rooms.LeaveExactly` | internal/rooms/manager.go:201-220 | Exactly the connection a room holds under its ID can leave it; only that entry and, if the room is then empty, the stamp change; the reply counts who remains |
| `Rooms.EvictExactly` | internal/rooms/manager.go:287-299 | Exactly the rooms stay that are before their expiry and not empty for the grace period, unchanged |
| `Rooms.CreateRespectsCapacity` | internal/rooms/manager.go:130-141 | Create stays within the bound and succeeds exactly when fewer rooms than the bound are live |
| `Rooms.CreateChanges` | internal/rooms/manager.go:130-141 | Create reclaims only at the bound and then exactly the expired and the too long empty rooms; it adds the new room exactly when it succeeds and touches no other |
| `RoomManager.Peer.Enqueue` | internal/rooms/manager.go:45-58 | As one step, a payload is queued exactly when the peer is alive with room in its buffer, and otherwise the peer is dead and the queue unchanged; answer, queue and dead flag are those of the two selects of the transition system taken together |
| `RoomManager.Peer.Kill` | internal/rooms/manager.go:62-64 | The peer is dead, and nothing else changed |
| `RoomManager.Room.constructor` | internal/rooms/manager.go:119-128 | A new room has the terms it was created with and nobody in it |
| `RoomManager.Manager.Create` | internal/rooms/manager.go:119-142 | Directory and outcome are those of `Rooms.Create`; exactly the peers of the rooms that were reclaimed are killed |
| `RoomManager.Manager.Reserve` | internal/rooms/manager.go:132-139 | Reclaims only at capacity, and gives up only if the bound is still reached |
| `RoomManager.Manager.Join` | internal/rooms/manager.go:151-197 | Reply and directory are those of `Rooms.Join`; an expired room is dropped without killing anybody |
| `RoomManager.Manager.AdmitLocked` | internal/rooms/manager.go:165-196 | The fields of one room end up exactly as `Rooms.Admit` says |
| `RoomManager.Manager.Leave` | internal/rooms/manager.go:201-220 | Reply and directory are those of `Rooms.Leave`, by the identity of the connection |
| `RoomManager.Manager.IsCurrent` | internal/rooms/manager.go:222-231 | True exactly for the connection object the room holds under the ID |
| `RoomManager.Manager.Broadcast` | internal/rooms/manager.go:236-258 | Every peer but the excepted one is offered the payload once; those that cannot take it are dead; the result counts those that could |
| `RoomManager.Manager.Delete` | internal/rooms/manager.go:260-267 | Exactly that room is gone and exactly its peers are killed |
| `RoomManager.Manager.Cleanup` | internal/rooms/manager.go:279-284 | The directory is the evicted one and the result counts the rooms removed |
| `RoomManager.Manager.EvictLocked` | internal/rooms/manager.go:287-299 | Exactly the rooms that are not collectable remain, old size is new size plus the count, and exactly the peers of the removed rooms are killed |
| `RoomManager.Manager.EvictLoop` | internal/rooms/manager.go:289-297 | Deleting from the map while ranging over it skips no room: exactly the collectable ones are gone, counted, and their peers killed |
| `RoomManager.Manager.KillPeersLocked` | internal/rooms/manager.go:301-305 | Every peer of the room is dead afterwards |
| `Negotiation.SingleOfferer` | web/ui.go:4563-4578 | In every state of server and pages, a page that makes, has outstanding or ever sent an offer on the role it learned in a room belongs to the one client ID admitted there as caller, and so does every other such page |
| `Negotiation.OffersComeFromTheCaller` | web/ui.go:4623-4645 | Every offer ever sent to a room that was sent nothing stale came from the client ID admitted there as caller |
| `Negotiation.StayingPagesOfferAsCaller` | web/ui.go:4648-4675 | So did every offer ever sent to any room, as long as no page changes its room |
| `Negotiation.StayingPagesSendNothingStale` | web/ui.go:4648-4675 | As long as no page changes its room, no room is ever sent a stale description, and whatever offer a page makes is on the role it learned in its own room |
| `Negotiation.EverybodyFitsExactly` | web/ui.go:4791-4835 | No offer to a room ever came from its callee and no answer from its caller if and only if this holds of the stale descriptions sent to it |
| `Negotiation.CallerNeverAnswers` | web/ui.go:4791-4835 | In such a room whoever holds or ever answered an offer heard there has the ID admitted as callee, never that of a page that offers |
| `Negotiation.HeardFromTheOther` | web/ui.go:4791-4835 | Whatever was sent to a room, a description that reaches a page was sent there by a page of the other ID, which was out of the part of its seat if and only if the hearer is out of its own |
| `Negotiation.NoGlare` | web/ui.go:4791-4824 | In such a room a description that reaches a page was sent there by a page of the other ID, and an offer never reaches a page that is offering, nor an answer one that answers |
| `Negotiation.HearerRole` | internal/rooms/manager.go:243-247 | In such a room only a callee's connection ever accepts an offer, only a caller's an answer |
| `NegotiationStale.OffersExactlyWhenItMay` | web/ui.go:4563-4645 | In every world, a page can go on by itself to send one more offer to the room its socket goes to if and only if the socket is open and an offer is on its way, or the page takes itself for the caller, the call is not over and no restart is in flight |
| `NegotiationStale.IntrudesExactlyWhenItMay` | web/ui.go:4563-4645 | In every world, it can so send one to a room that seats its ID as the callee if and only if the room does and that condition holds, whatever role the page takes itself for |
| `NegotiationStale.IntruderCameFromElsewhere` | web/ui.go:3769-3809 | Such a page offers on a role that it learned in another room |
| `NegotiationStale.StaleRolesOffer` | web/ui.go:3769-3809 | A run in which the caller of one room goes to another, is admitted there as callee and sends it an offer, next to the caller that room has |
| `NegotiationStale.InFlightOffers` | web/ui.go:4630-4645 | A run in which it does so after it has read that it is the callee there, finishing an offer begun before |
| `Negotiation.PlayKeeps` | web/ui.go:4623-4645 | Every run of page actions and server steps keeps pages, ownership of connections and relayed descriptions consistent |
| `Negotiation.RolesAreUnique` | internal/rooms/manager.go:170-185 | Within a room, over the whole run, one ID has one role and one role one ID |
| `NegotiationSteps.BeginsExactly` | web/ui.go:4791-4824 | A message makes a page begin an offer if and only if its socket is open, its connection stable and no offer on its way, and it is the caller and reads a peer-ready, or is welcomed as the caller of two with no media flowing |
| `NegotiationSteps.HandlesExactly` | web/ui.go:4789-4893 | What each message does to the role, the end of the call, and the state of the peer connection; nothing else changes and nothing is sent |
| `NegotiationSteps.OfferFinishesExactly` | web/ui.go:4630-4645 | An offer is sent exactly when the browser made it, the connection is stable or has only an offer of this page outstanding, and the socket is open; otherwise another one can be begun and nothing else changes |
| `NegotiationSteps.AnswerFinishesExactly` | web/ui.go:4828-4845 | An answer is sent exactly when the browser made it and the socket is open; made, it settles the offer |
| `NegotiationSteps.NegotiationSettles` | web/ui.go:4623-4645 | A peer-ready makes the caller send one offer, the offer makes the callee send one answer, and the answer brings the caller back to the stable state, as the callee is |
| `RateLimit.BucketIsSlidingWindow` | internal/httpapp/ratelimit.go:46-63 | For every history with a non-decreasing clock, a request is admitted if and only if the burst is at least one and from every earlier admission on, admissions and request number at most the burst plus the rate times the seconds since |
| `RateLimit.LevelMeansWindow` | internal/httpapp/ratelimit.go:52-62 | A level of at least one token means that the window policy allows the request |
| `RateLimit.SweepIsInvisible` | internal/httpapp/ratelimit.go:66-79 | Sweeping and never sweeping give the same answer to every request of every key |
| `RateLimit.NoRateNoLimit` | internal/httpapp/ratelimit.go:37-40 | With a rate of zero or less every request is admitted and nothing is recorded |
| `RateLimit.LogIsTheAdmissions` | internal/httpapp/ratelimit.go:46-63 | The log of a key is the stamps of its admitted requests, in order |
| `RateLimit.SweptExactly` | internal/httpapp/ratelimit.go:69-79 | Only a new key sweeps, and then exactly the buckets idle for more than the time of a whole refill and a minute go |
| `RateLimit.IdleEarnsBurst` | internal/httpapp/ratelimit.go:73-77 | A bucket idle for longer than the truncated threshold plus a nanosecond has refilled completely |
| `RateLimit.RejectionsAreFree` | internal/httpapp/ratelimit.go:46-63 | Deleting a denied request from a history changes no later answer |
| `RateLimit.NobodyStarves` | internal/httpapp/ratelimit.go:52-63 | A key whose earlier requests are at least one refill period old is always admitted |
| `RateLimit.SkewedAdmissionsAreBounded` | internal/httpapp/ratelimit.go:41-57 | With stamps applied less than 30 seconds out of order, any stretch of requests of a key admits at most the burst plus the rate times the seconds from its first to its last stamp, across sweeps |
| `RateLimit.WorthNeverRises` | internal/httpapp/ratelimit.go:52-62 | Tokens minus what the clock has earned never rise, and an admission costs exactly one |
| `RateLimiter.Limiter.Allow` | internal/httpapp/ratelimit.go:37-64 | Answer and table of the limiter object are those of the function the theorems are about |
| `RateLimiter.Limiter.Open` | internal/httpapp/ratelimit.go:46-57 | A known key is refilled in place, an unknown one gets a fresh bucket after a sweep |
| `RateLimiter.Limiter.SweepLocked` | internal/httpapp/ratelimit.go:69-79 | The loop discards exactly the buckets idle beyond the threshold |
| `Text.JoinOfSplit` | internal/signaling/candidate.go:45-54 | Joining undoes splitting |
| `Text.SplitOfJoin` | internal/signaling/candidate.go:45-54 | Splitting undoes joining, for parts free of the separator |
| `Sdp.SanitizeSDP` | internal/signaling/candidate.go:40-55 | The loop computes the join of the kept lines |
| `Sdp.PicksAreTheKept` | internal/signaling/candidate.go:47-53 | The picks are the increasing indices of exactly the lines that are not invalid candidates |
| `Sdp.KeptAreTheKeptLines` | internal/signaling/candidate.go:47-53 | The kept lines are, byte for byte and in order, the lines at those indices |
| `Sdp.OutputLines` | internal/signaling/candidate.go:40-55 | Split again at the separator of the input, the output is exactly the kept lines |
| `Sdp.IdentityIffNothingInvalid` | internal/signaling/candidate.go:40-55 | The text is unchanged if and only if none of its lines is an invalid candidate |
| `Sdp.NoCRLFIntroduced` | internal/signaling/candidate.go:41-54 | A text without CRLF has none afterwards |
| `Sdp.IdempotentExactlyWhenBreaksSurvive` | internal/signaling/candidate.go:40-55 | Sanitizing twice equals once if and only if the text has no CRLF, or does not shrink to one line, or that line hides no invalid candidate between its own line feeds |
| `Sdp.IdempotentOnUniformBreaks` | internal/signaling/candidate.go:40-55 | Hence on every text with uniform line breaks |
| `Sdp.HiddenCandidateIsNotStable` | internal/signaling/candidate.go:41-54 | The family of texts with mixed breaks on which it fails |
| `Sdp.MixedBreaksAreNotStable` | internal/signaling/candidate.go:41-54 | One such text, for every address parser |
| `Sdp.CleanExactlyWhenBreaksSurvive` | internal/signaling/candidate.go:40-55 | At its own line breaks the output is free of invalid candidates if and only if the text is one on which sanitizing twice equals once |
| `Sdp.UncleanOfferIsRelayed` | internal/signaling/candidate.go:10-55 | An offer relayed with an invalid candidate among its lines, for every address parser |
| `Sdp.FieldsAreTheText` | internal/signaling/candidate.go:60-63 | A list of texts is the fields of a line if and only if each of them is not empty and free of white space and the line is made of them in order, with white space, and nothing else, around and at least some between them |
| `SdpCandidates.AddressExactly` | internal/signaling/candidate.go:65-68 | What is looked up is the address in the field: all brackets around it and the zone from the last percent sign on are off, and nothing else |
| `SdpCandidates.ValidExactly` | internal/signaling/candidate.go:57-71 | A text is a valid candidate if and only if, "a=" off the front of its first field, it has six fields or more, the first starts with "candidate:" and the fifth has an address that is an IP address |
| `SdpCandidates.DroppedExactly` | internal/signaling/candidate.go:47-53 | A line is dropped if and only if its first field starts with "a=candidate:" and its fields do not pass |
| `SdpCandidates.RelaysExactly` | internal/signaling/candidate.go:10-55 | A candidate is relayed, unchanged, if and only if its fields pass; a description of its own kind always is, with exactly the surviving lines, in order and unchanged, at the breaks received; everything else is refused with its reason |
| `SdpCandidates.HostCandidate` | internal/signaling/candidate.go:57-71 | A host candidate is relayed exactly when the address in its field, bracketed, with a zone or bare, is an IP address |
| `SdpCandidates.HostNamesAreRefused` | internal/signaling/candidate.go:65-70 | The host name `printer.local` in its place is refused unless the address parser takes it |
| `Text.SpacesExactly` | internal/signaling/candidate.go:48-60 | White space, by code point, as the Go library has it |
| `Sdp.RelayedMessagesAreClean` | internal/signaling/candidate.go:10-38 | Whatever is relayed is a valid candidate, or a description of the message's own kind none of whose lines, at the breaks of the text received, is an invalid candidate; at its own breaks it is clean if and only if the breaks of the text received survived |
| `Push.HkdfExpand` | internal/push/encrypt.go:177-191 | The loop, with its wrapping byte counter, terminates with the stream cut to length |
| `Push.ExpandIsStandard` | internal/push/encrypt.go:177-191 | Up to 255 blocks the output is the prefix of T(1), T(2), ... of the standard |
| `Push.UnpadInvertsPadding` | internal/push/encrypt.go:156-165 | Unpadding yields a plaintext if and only if the record is that plaintext, a delimiter 1 or 2, and zeros |
| `Push.Layout` | internal/push/encrypt.go:79-94 | Every field of the message is where the header says, the record size written as 4096; the ciphertext is sealed with the keys of the standard; the record fits its declared size if and only if the plaintext has at most 4079 bytes |
| `Push.DecryptInvertsEncrypt` | internal/push/encrypt.go:27-165 | The subscriber recovers every plaintext, empty or ending in any bytes |
| `Push.DecryptAcceptsPadding` | internal/push/encrypt.go:99-165 | It also recovers it from any message a sender writes who knows the standards only, with zeros after the delimiter and whatever record size is declared |
| `Push.StandardReceiverReads` | internal/push/encrypt.go:27-95 | A receiver written from RFC 8188 and RFC 8291 alone reads exactly the plaintext from the message, if it has at most 4079 bytes, and nothing otherwise |
| `Push.DeriveIsStandard` | internal/push/encrypt.go:51-66 | The keys are those of the standard: the info texts with a zero byte, the receiver's key before the sender's, one block of HKDF-Expand each |
| `Push.DecryptsExactly` | internal/push/encrypt.go:99-166 | Which messages are decoded to which plaintext, with the keys of the standard, and the error of the first check that fails for all others |
| `Push.EncryptsExactly` | internal/push/encrypt.go:27-41 | Which keys and secrets are refused, and with which error; with all others encryption succeeds |
| `Push.EncryptPayload` | internal/push/encrypt.go:27-95 | The buffer code returns that message, or the error of the first check that fails |
| `Push.DecryptPayload` | internal/push/encrypt.go:99-166 | The parser, with its padding loop, returns that plaintext or error |
| `Base64.DecodeInvertsEncode` | internal/push/vapid.go:166-185 | In each of the four dialects decoding undoes encoding |
| `Base64.DialectsAgree` | internal/push/vapid.go:166-185 | Two dialects that both accept a text read the same bytes |
| `Base64.FlexibleIsAnyDialect` | internal/push/vapid.go:166-185 | The flexible decoder returns bytes if and only if some dialect reads them from the trimmed text |
| `Base64.FlexibleReadsEveryDialect` | internal/push/vapid.go:166-185 | Hence it recovers every byte string from each of its four encodings, with white space around |
| `Base64.Utf8RoundTrip` | web/ui.go:3337-3348 | Decoding UTF-8 undoes encoding it |
| `Base64.Utf8IsUnique` | web/ui.go:3344-3348 | Only the encoding of a text is accepted as that text: no overlong forms, no surrogates |
| `Base64.ClientWritesRawURL` | web/ui.go:3337-3342 | The client's encoder writes the unpadded URL dialect |
| `Base64.ServerReadsClient` | web/ui.go:3337-3342 | The server's flexible decoder reads what the client's encoder writes |
| `Base64.ClientRoundTrip` | web/ui.go:3337-3348 | The client's decoder undoes its encoder on every text |
| `Base64.EncodeInvertsDecodeExactly` | web/ui.go:3337-3348 | The client's encoder undoes its decoder on a text it accepts if and only if that text is canonical: unpadded URL alphabet, a possible length, nothing in the unused bits |
| `Base64.EncodedIsCanonical` | web/ui.go:3337-3342 | What the encoder writes is canonical |
| `Base64.DecodeBase64URL` | web/ui.go:3344-3348 | The padding loop terminates and the decoder returns the text, or says whether the alphabet or the encoding of the characters was wrong |
| `Base64Digits.AlphabetExactly` | web/ui.go:3337-3342 | Characters and values correspond as in the two alphabets of RFC 4648 |
| `Base64Digits.CarriesExactly` | internal/push/vapid.go:166-185 | Characters are decoded to bytes exactly when there are just enough of them and each group of four is the same number as its group of three bytes, bits beyond the end aside |
| `Base64Digits.EncodingExactly` | internal/push/vapid.go:160-163 | What an encoder of each dialect writes: the characters that carry the bytes with nothing beyond their end, filled up to a multiple of four or not |
| `Base64Digits.DecodingExactly` | internal/push/vapid.go:166-185 | What a decoder of each dialect accepts, and as which bytes: line breaks aside, characters that carry them, filled up or not |
| `Base64Digits.BreaksAreSkipped` | internal/push/vapid.go:166-185 | Just carriage returns and line feeds are skipped |
| `Base64Digits.AtobExactly` | web/ui.go:3344-3348 | What the browser's decoder accepts, and as which bytes: ASCII white space aside, characters that carry them, filled up or bare |
| `Base64Digits.SpacesAreSkipped` | web/ui.go:3344-3348 | Just the white space of ASCII is skipped |
| `Base64Digits.Utf8CharExactly` | web/ui.go:3337-3342 | The bytes of a character are those of the table in section 3 of RFC 3629 |
| `Base64Digits.Utf8Exactly` | web/ui.go:3337-3348 | A text is encoded character by character, and exactly the encoding of a text is decoded as that text |
| `Base64Digits.ClientDecodesExactly` | web/ui.go:3344-3348 | A text is read from its standard form exactly when the browser's decoder gives its UTF-8 bytes; no bytes at all is told apart from bytes that are no text |
| `Fmtp.MergeFmtpParams` | web/ui.go:3211-3236 | The loops over both texts and over the map compute the merged text |
| `Fmtp.PutPairs` | web/ui.go:3214-3230 | From the map of any parameters, the loop over the pairs of a text reaches the map of those parameters followed by the text's |
| `Fmtp.TableIsFirstSeenLastWins` | web/ui.go:3212-3230 | The map holds every key once, in the order in which keys were first seen, with the value it was last given |
| `Fmtp.DesiredWins` | web/ui.go:3211-3230 | Desired keys get their desired values, every other key keeps its last existing value |
| `FmtpReads.ReadsExactly` | web/ui.go:3214-3230 | A piece is read as a name in small letters and a value around the first equals sign, or as a bare word, white space around either aside, and otherwise as nothing |
| `FmtpReads.EntriesExactly` | web/ui.go:3214-3215 | The parameters of a text are those of its pieces between semicolons, in order |
| `FmtpReads.MergesExactly` | web/ui.go:3211-3236 | The merged text is a table of every key once, where it was first seen, with its last value, written with "=" if it has one and joined by a semicolon and a blank |
| `Fmtp.JsSpacesExactly` | web/ui.go:3215-3221 | White space, by code point, as `trim` has it |
| `FmtpStability.MergedIsReadBack` | web/ui.go:3231-3235 | When every parameter has a name, reading the merged text gives back the map it was written from |
| `FmtpStability.OpusWins` | web/ui.go:3181-3190 | Whatever the line said, the merged text read again asks for each requested Opus parameter with its requested value |
| `FmtpStability.IdempotentExactlyWhenNamesReadable` | web/ui.go:3211-3236 | Merging the same named parameters twice equals merging once if and only if every existing parameter without a name can be read back where it stands and at most one of them comes after the first place, or nothing is asked for and one blank parameter is all there is |
| `FmtpStability.IdempotentWhenNamed` | web/ui.go:3211-3236 | Hence whenever every parameter has a name |
| `FmtpStability.NamelessIsNotStable` | web/ui.go:3217-3235 | The input `" ="`, on which it fails |
| `FmtpPasses.TwoMergesSufficeExactly` | web/ui.go:3211-3236 | The third merge changes nothing if and only if, among the existing parameters, the last one that will be read back without a name has a value, in small letters if a blank one in front of it leaves it the first place; or nothing is asked for and only a blank one is left |
| `FmtpPasses.ThreeMergesSuffice` | web/ui.go:3211-3236 | The fourth merge changes nothing, whatever the text |
| `FmtpPasses.TwoMergesAreNotEnough` | web/ui.go:3211-3236 | The input `"x;="`, on which the third merge still changes the text |
| `FmtpBreaks.MergedFree` | web/ui.go:3211-3236 | A merged text has no line break of a kind that neither text had |
| `OpusSdp.EnhanceOpusSDP` | web/ui.go:3165-3208 | The loops compute the enhanced description |
| `OpusExact.PayloadExactly` | web/ui.go:3171-3177 | A line maps a payload type to Opus if and only if it is "a=rtpmap:", digits, white space and "opus/48000", letters in either case, and then anything |
| `OpusExact.MapsExactly` | web/ui.go:3199-3203 | A line is followed by a new one if and only if it is "a=rtpmap:", the payload type, white space and "opus", and then anything |
| `OpusExact.FirstPayloadExactly` | web/ui.go:3171-3179 | The payload type is that of the first such line |
| `OpusExact.EnhancesExactly` | web/ui.go:3165-3208 | Without such a line the text is unchanged. With parameter lines for the type exactly those change, to the wanted parameters merged into their own; without, every line stays and the wanted parameters, written out, follow each line that names the codec for it |
| `OpusText.EnhancedTextLines` | web/ui.go:3165-3208 | Split again where the text received was split, the enhanced text is exactly the enhanced lines |
| `OpusRepeats.OtherLinesOfText` | web/ui.go:3185-3208 | Split so, all lines of the enhanced text but the fmtp lines of the Opus payload are those received, unchanged and in order, and no other line is added |
| `OpusRepeats.OpusLinesOfText` | web/ui.go:3185-3206 | Split so, the enhanced text has an fmtp line for the Opus payload, and every such line asks for every requested parameter |
| `OpusRepeats.PayloadOfText` | web/ui.go:3167-3177 | At its own breaks the enhanced text has the same Opus payload, unless a CRLF was made; then it has the one that the whole text received, read as a single line, maps to Opus, if any |
| `OpusRepeats.BreaksKeptExactly` | web/ui.go:3167-3208 | The enhanced text breaks where the text received did, unless that breaks at line feeds and its last line ends in a carriage return, maps Opus and has a line added after it |
| `OpusRepeats.EnhancedTwiceExactly` | web/ui.go:3165-3208 | A second enhancement of the text changes nothing if and only if it maps nothing to Opus; or it has fmtp lines for the payload whose parameters can all be read back; or the added line makes a CRLF and the whole text, read as a single line, maps nothing to Opus |
| `OpusRepeats.EnhancedThriceExactly` | web/ui.go:3165-3208 | The third enhancement changes nothing if and only if the fmtp lines that the text came with can be read back after one merge, or, where the first made a CRLF, the whole text read as a single line maps the same payload to Opus or none |
| `OpusRepeats.ThreeEnhancementsSuffice` | web/ui.go:3165-3208 | The fourth enhancement changes nothing, whatever the text |
| `OpusRepeats.EnhancedTwiceDiffers` | web/ui.go:3185-3208 | A lone Opus map, on which the second enhancement changes the text |
| `OpusRepeats.CRLFHidesTheMap` | web/ui.go:3167-3208 | A text on which the second enhancement changes nothing because the first made a CRLF that hides the map, while it would change the lines |
| `OpusRepeats.EnhancedThriceDiffers` | web/ui.go:3185-3236 | An Opus map with the fmtp line `x;=`, on which the third enhancement changes the text |
| `OpusLocality.StartDecides` | web/ui.go:3171-3175 | Where a text is read as a single line, what follows a line that maps Opus plays no part in the payload found |

## Left out

- HTTP routing, WebSocket upgrade and origin check, deadlines and ping frames, logging, JSON encoding,
  environment parsing: input and output around the logic. A message arrives already decoded, or as
  undecodable.
- The limits on a client ID's length and on a first message: they only refuse more.
- `Count`, `Status`, `clientKey`, VAPID keys and tokens: easy members.
- Strength of cryptography, constant-time comparison, curve arithmetic, the address parser: abstract.
- Rounding of floating-point tokens, overflow of durations: tokens are real and times unbounded.
- The salt default of `hkdfExtract`: both callers pass a salt.
- The record size that DecryptPayload reads and ignores: any value is accepted, as in the program.
- The class model is sequential, one critical section or one Enqueue a call; interleavings are the
  subject of the transition system, which shares its specification functions.
- The order in which a map is ranged over: any order, in the class model and the transition system.
- That the pump stops when its connection is dead or its handler returns: the pump may stop at any
  time, so every such stop is covered, but that it does stop is not stated.
- The content of descriptions in `Negotiation`: a description is represented by its type. Browser
  media, device selection, timers and the recovery machine beyond the role guards are not modelled;
  whether an offer is ever answered is not stated.
- A session description the browser refuses is a choice of the environment in `Negotiation`.
- Strings of UTF-16 code units that are not Unicode text, and the regular expression engine: the two
  patterns of `enhanceOpusSDP` are written out as predicates on a line.
- IdempotentExactlyWhenNamesReadable: asks that the desired parameters have names, as the program's
  constant does.
- TwoMergesSufficeExactly: likewise asks that the desired parameters have names.
- ThreeMergesSuffice: likewise.
- NoGlare: asks that no stale offer was sent to the room by its callee and no stale answer by its
  caller; by EverybodyFitsExactly that is the case exactly as long as everybody keeps to the part of
  their seat. What remains true otherwise is HeardFromTheOther.
- CallerNeverAnswers: likewise.
- HearerRole: likewise.
- OffersExactlyWhenItMay: is about what a page does by itself, not about messages it reads meanwhile.
- IntrudesExactlyWhenItMay: likewise.
- SweptExactly: asks that the burst is not negative, as the configuration does where there is a rate.
