/**
 The room directory of the signaling server as a value, and the effect of every critical
 section of the room manager on it (internal/rooms/manager.go).

 A room stores its connections under the client ID, but the identity of a connection is the
 connection itself (a pointer in the program). `P` stands for that identity: the protocol model
 instantiates it with a connection number, the class model with a reference.
 */
module Rooms {
  import opened Wrappers

  /** Nanoseconds on the server's clock. */
  type Time = int
  type RoomId = string
  type ClientId = string
  type Token = string
  type Digest = Bytes

  datatype Role = Caller | Callee

  datatype Room<P> = Room(
    expiresAt: Time,
    secretHash: Digest,
    peers: map<ClientId, P>,
    roles: map<ClientId, Role>,
    tokens: map<ClientId, Token>,
    hadParticipants: bool,
    emptySince: Option<Time>
  )

  type Directory<P> = map<RoomId, Room<P>>

  /** `hash` is the digest of room secrets; its strength plays no part here. */
  datatype Config = Config(ttl: Time, emptyGrace: Time, maxRooms: int, hash: string -> Digest)

  datatype JoinError = RoomNotFound | RoomExpired | Unauthorized | RoomFull | NoEntropy

  datatype JoinReply =
    | Joined(role: Role, participants: nat, token: Token)
    | Refused(error: JoinError, participants: nat)

  /** `minted` is the random token drawn for a new ID, `None` when the random source fails. */
  datatype JoinRequest = JoinRequest(
    room: RoomId, id: ClientId, secret: string, presented: Token, minted: Option<Token>)

  // ---- The critical sections ----

  function TokenOf<P>(room: Room<P>, id: ClientId): Token {
    if id in room.tokens then room.tokens[id] else ""
  }

  /** The common tail of a successful Join. */
  function Enter<P>(room: Room<P>, id: ClientId, peer: P): Room<P> {
    room.(peers := room.peers[id := peer], hadParticipants := true, emptySince := None)
  }

  function Assign(roles: map<ClientId, Role>, id: ClientId): map<ClientId, Role> {
    roles[id := if |roles| == 0 then Caller else Callee]
  }

  function Seat<P>(room: Room<P>, id: ClientId, token: Token): Room<P> {
    room.(roles := Assign(room.roles, id), tokens := room.tokens[id := token])
  }

  /** Join on an unexpired room: the reply, and the room afterwards. */
  function Admit<P>(cfg: Config, room: Room<P>, req: JoinRequest, peer: P): (JoinReply, Room<P>) {
    if cfg.hash(req.secret) != room.secretHash then (Refused(Unauthorized, 0), room)
    else if req.id in room.roles then
      var expected := TokenOf(room, req.id);
      if expected == "" || req.presented != expected then (Refused(Unauthorized, |room.peers|), room)
      else
        var room' := Enter(room, req.id, peer);
        (Joined(room.roles[req.id], |room'.peers|, expected), room')
    else if |room.roles| >= 2 then (Refused(RoomFull, |room.peers|), room)
    else if req.minted.None? then (Refused(NoEntropy, 0), room)
    else
      var room' := Enter(Seat(room, req.id, req.minted.value), req.id, peer);
      (Joined(room'.roles[req.id], |room'.peers|, req.minted.value), room')
  }

  function Join<P>(cfg: Config, rooms: Directory<P>, now: Time, req: JoinRequest, peer: P)
    : (JoinReply, Directory<P>)
  {
    if req.room !in rooms then (Refused(RoomNotFound, 0), rooms)
    else if now >= rooms[req.room].expiresAt then (Refused(RoomExpired, 0), rooms - {req.room})
    else
      var (reply, room') := Admit(cfg, rooms[req.room], req, peer);
      (reply, rooms[req.room := room'])
  }

  predicate IsCurrent<P(==)>(rooms: Directory<P>, room: RoomId, id: ClientId, peer: P) {
    room in rooms && id in rooms[room].peers && rooms[room].peers[id] == peer
  }

  datatype LeaveReply = LeaveReply(remaining: nat, removed: bool)

  function Vacate<P>(room: Room<P>, id: ClientId, now: Time): Room<P> {
    var left := room.peers - {id};
    room.(peers := left,
    emptySince := if |left| == 0 && room.hadParticipants then Some(now) else room.emptySince)
  }

  function Leave<P(==)>(rooms: Directory<P>, now: Time, room: RoomId, id: ClientId, peer: P)
    : (LeaveReply, Directory<P>)
  {
    if room !in rooms then (LeaveReply(0, false), rooms)
    else if !IsCurrent(rooms, room, id, peer) then (LeaveReply(|rooms[room].peers|, false), rooms)
    else
      var room' := Vacate(rooms[room], id, now);
      (LeaveReply(|room'.peers|, true), rooms[room := room'])
  }

  /** The connections a broadcast addresses; the empty string excludes nobody. */
  function Snapshot<P(==)>(rooms: Directory<P>, room: RoomId, except: ClientId): set<P> {
    if room !in rooms then {}
    else set id | id in rooms[room].peers && id != except :: rooms[room].peers[id]
  }

  predicate Collectable<P>(cfg: Config, room: Room<P>, now: Time) {
    || now >= room.expiresAt
    || (room.emptySince.Some? && now - room.emptySince.value >= cfg.emptyGrace)
  }

  function Evict<P>(cfg: Config, rooms: Directory<P>, now: Time): Directory<P> {
    map id | id in rooms && !Collectable(cfg, rooms[id], now) :: rooms[id]
  }

  /** The connections of the rooms in `gone`: those an eviction or a deletion kills. */
  function Occupants<P(==)>(rooms: Directory<P>, gone: set<RoomId>): set<P> {
    set r, id | r in gone && r in rooms && id in rooms[r].peers :: rooms[r].peers[id]
  }

  function NewRoom<P>(cfg: Config, stamp: Time, secret: string): Room<P> {
    Room(stamp + cfg.ttl, cfg.hash(secret), map[], map[], map[], false, None)
  }

  /** `false` is the at-capacity refusal. The stamp was read before the lock was taken. */
  function Create<P>(cfg: Config, rooms: Directory<P>, stamp: Time, id: RoomId, secret: string)
    : (bool, Directory<P>)
  {
    if cfg.maxRooms > 0 && |rooms| >= cfg.maxRooms then
      var kept := Evict(cfg, rooms, stamp);
      if |kept| >= cfg.maxRooms then (false, kept)
      else (true, kept[id := NewRoom(cfg, stamp, secret)])
    else (true, rooms[id := NewRoom(cfg, stamp, secret)])
  }

  // ---- What every room keeps ----

  /**
   At most two IDs ever hold a seat; the first is the caller, the second the callee; seats and
   tokens go together; and the empty stamp is set exactly while a used room stands empty.
   */
  ghost predicate TwoParties<P>(room: Room<P>) {
    && Seated(room)
    && (room.hadParticipants <==> |room.roles| > 0)
    && (room.emptySince.Some? <==> room.hadParticipants && |room.peers| == 0)
  }

  ghost predicate Seated<P>(room: Room<P>) {
    && room.peers.Keys <= room.roles.Keys == room.tokens.Keys
    && Seating(room.roles)
    && (forall a :: a in room.tokens ==> |room.tokens[a]| > 0)
  }

  /** Nobody, a caller alone, or one caller and one callee. */
  ghost predicate Seating(roles: map<ClientId, Role>) {
    && |roles| <= 2
    && (forall a, b :: a in roles && b in roles && a != b ==> roles[a] != roles[b])
    && (|roles| == 1 ==> forall a :: a in roles ==> roles[a] == Caller)
  }

  /** `later` has every seat of `earlier`, with the same role and token, and the same terms. */
  ghost predicate SeatsKept<P>(earlier: Room<P>, later: Room<P>) {
    && later.expiresAt == earlier.expiresAt
    && later.secretHash == earlier.secretHash
    && (forall id :: id in earlier.roles ==> id in later.roles && later.roles[id] == earlier.roles[id])
    && (forall id :: id in earlier.tokens ==> id in later.tokens && later.tokens[id] == earlier.tokens[id])
  }

  lemma SeatKeepsSeating(roles: map<ClientId, Role>, id: ClientId)
    requires Seating(roles) && id !in roles && |roles| < 2
    ensures Seating(Assign(roles, id)) && Assign(roles, id).Keys == roles.Keys + {id}
  {
    var roles' := Assign(roles, id);
    assert roles'.Keys == roles.Keys + {id};
    if |roles| == 1 {
      var first :| first in roles;
      assert roles.Keys == {first} by {
        assert |roles.Keys - {first}| == 0;
      }
    } else {
      assert roles.Keys == {};
    }
  }

  lemma SeatKeepsSeated<P>(room: Room<P>, id: ClientId, token: Token)
    requires Seated(room) && id !in room.roles && |room.roles| < 2 && |token| > 0
    ensures Seated(Seat(room, id, token))
  {
    SeatKeepsSeating(room.roles, id);
    var s := Seat(room, id, token);
    assert s.tokens.Keys == room.tokens.Keys + {id};
  }

  lemma SeatKeepsSeats<P>(room: Room<P>, id: ClientId, token: Token)
    requires id !in room.roles && id !in room.tokens
    ensures SeatsKept(room, Seat(room, id, token))
  {
  }

  lemma EnterKeepsSeated<P>(room: Room<P>, id: ClientId, peer: P)
    requires Seated(room) && id in room.roles
    ensures TwoParties(Enter(room, id, peer))
  {
    var e := Enter(room, id, peer);
    assert e.peers.Keys == room.peers.Keys + {id};
    assert id in e.peers.Keys && id in e.roles.Keys;
  }

  /** Admission keeps the room invariant, and changes nothing when it refuses. */
  lemma AdmitKeepsRoom<P>(cfg: Config, room: Room<P>, req: JoinRequest, peer: P)
    requires TwoParties(room)
    requires req.minted.Some? ==> |req.minted.value| > 0
    ensures var (reply, room') := Admit(cfg, room, req, peer);
            TwoParties(room') && (reply.Refused? ==> room' == room)
  {
    if req.id in room.roles {
      EnterKeepsSeated(room, req.id, peer);
    } else if |room.roles| < 2 && req.minted.Some? {
      SeatKeepsSeated(room, req.id, req.minted.value);
      EnterKeepsSeated(Seat(room, req.id, req.minted.value), req.id, peer);
    }
  }

  /** Admission keeps every seat, and an admitted connection holds the seat the reply names. */
  lemma AdmitSeats<P>(cfg: Config, room: Room<P>, req: JoinRequest, peer: P)
    requires TwoParties(room)
    ensures var (reply, room') := Admit(cfg, room, req, peer);
            && SeatsKept(room, room')
            && (reply.Joined? ==>
                  && IsSeated(room', req.id, peer, reply)
                  && room'.peers == room.peers[req.id := peer])
  {
    if req.id !in room.roles && req.minted.Some? {
      SeatKeepsSeats(room, req.id, req.minted.value);
    }
  }

  ghost predicate IsSeated<P>(room: Room<P>, id: ClientId, peer: P, reply: JoinReply)
    requires reply.Joined?
  {
    && id in room.peers && room.peers[id] == peer
    && id in room.roles && room.roles[id] == reply.role
    && id in room.tokens && room.tokens[id] == reply.token
    && reply.participants == |room.peers|
  }

  lemma VacateKeepsRoom<P>(room: Room<P>, id: ClientId, now: Time)
    requires TwoParties(room) && id in room.peers
    ensures TwoParties(Vacate(room, id, now)) && SeatsKept(room, Vacate(room, id, now))
  {
    assert |room.peers| > 0 && |room.roles| > 0;
  }

  // ---- Reconnecting ----

  /**
   In a room that is present and unexpired, an ID that holds a seat is admitted exactly when it
   presents the room secret and its own token; then it gets its own role and token back, and
   otherwise nothing changes.
   */
  lemma SeatIsGuarded<P>(cfg: Config, rooms: Directory<P>, now: Time, req: JoinRequest, peer: P)
    requires req.room in rooms && TwoParties(rooms[req.room])
    requires now < rooms[req.room].expiresAt && req.id in rooms[req.room].roles
    ensures var room := rooms[req.room];
            var (reply, rooms') := Join(cfg, rooms, now, req, peer);
            && (reply.Joined? <==> cfg.hash(req.secret) == room.secretHash && req.presented == TokenOf(room, req.id))
            && (reply.Joined? ==>
                  && reply.role == room.roles[req.id]
                  && reply.token == TokenOf(room, req.id)
                  && IsCurrent(rooms', req.room, req.id, peer))
            && (reply.Refused? ==> reply.error == Unauthorized && rooms' == rooms)
  {
  }

  /** Two seats are all there are: nobody else gets in, whatever they present. */
  lemma ThirdPartyIsRefused<P>(cfg: Config, rooms: Directory<P>, now: Time, req: JoinRequest, peer: P)
    requires req.room in rooms && now < rooms[req.room].expiresAt
    requires |rooms[req.room].roles| >= 2 && req.id !in rooms[req.room].roles
    ensures var (reply, rooms') := Join(cfg, rooms, now, req, peer);
            && rooms' == rooms && reply.Refused?
            && reply.error == (if cfg.hash(req.secret) == rooms[req.room].secretHash then RoomFull else Unauthorized)
  {
  }

  // ---- Entering ----

  /**
   A newcomer to a present, unexpired room with a free seat is admitted exactly when it presents the
   room secret and a token can be drawn; the first is the caller, the second the callee. A refusal
   changes nothing.
   */
  lemma NewcomerIsGuarded<P>(cfg: Config, rooms: Directory<P>, now: Time, req: JoinRequest, peer: P)
    requires req.room in rooms && now < rooms[req.room].expiresAt
    requires |rooms[req.room].roles| < 2 && req.id !in rooms[req.room].roles
    ensures var room := rooms[req.room];
            var (reply, rooms') := Join(cfg, rooms, now, req, peer);
            && (reply.Joined? <==> cfg.hash(req.secret) == room.secretHash && req.minted.Some?)
            && (reply.Joined? ==> reply.token == req.minted.value && (reply.role == Caller <==> room.roles == map[]))
            && (reply.Refused? ==>
                  && rooms' == rooms && reply.participants == 0
                  && reply.error == if cfg.hash(req.secret) == room.secretHash then NoEntropy else Unauthorized)
  {
    assert |rooms[req.room].roles| == 0 <==> rooms[req.room].roles == map[];
  }

  /** Nobody is admitted without the secret of the room. */
  lemma SecretIsNeeded<P>(cfg: Config, rooms: Directory<P>, now: Time, req: JoinRequest, peer: P)
    ensures Join(cfg, rooms, now, req, peer).0.Joined? ==>
              req.room in rooms && cfg.hash(req.secret) == rooms[req.room].secretHash
  {
  }

  /** Whoever is admitted is in the room under its ID, and nothing else about the directory changes. */
  lemma JoinChangesOneRoom<P>(cfg: Config, rooms: Directory<P>, now: Time, req: JoinRequest, peer: P)
    requires Join(cfg, rooms, now, req, peer).0.Joined?
    ensures var (reply, rooms') := Join(cfg, rooms, now, req, peer);
            && req.room in rooms && now < rooms[req.room].expiresAt
            && var room := rooms[req.room];
               rooms' == rooms[req.room := Room(
                                             room.expiresAt, room.secretHash, room.peers[req.id := peer],
                                             room.roles[req.id := reply.role], room.tokens[req.id := reply.token],
                                             true, None)]
               && reply.participants == |room.peers.Keys + {req.id}|
  {
    var room := rooms[req.room];
    assert room.peers[req.id := peer].Keys == room.peers.Keys + {req.id};
    if req.id in room.roles {
      assert room.roles[req.id := room.roles[req.id]] == room.roles;
      assert room.tokens[req.id := room.tokens[req.id]] == room.tokens;
    }
  }

  /** A room that is not there is not found; an expired one is dropped, and no other. */
  lemma AbsentOrExpired<P>(cfg: Config, rooms: Directory<P>, now: Time, req: JoinRequest, peer: P)
    requires req.room in rooms ==> now >= rooms[req.room].expiresAt
    ensures var (reply, rooms') := Join(cfg, rooms, now, req, peer);
            && reply == Refused(if req.room in rooms then RoomExpired else RoomNotFound, 0)
            && rooms' == map id | id in rooms && id != req.room :: rooms[id]
  {
  }

  /**
   The secret given to Create admits its holder, as the caller, until the stamp plus the ttl; from
   then on nobody.
   */
  lemma CreatedRoomAdmits<P>(
    cfg: Config, rooms: Directory<P>, stamp: Time, id: RoomId, secret: string, now: Time, req: JoinRequest, peer: P)
    requires Create(cfg, rooms, stamp, id, secret).0 && req.room == id && req.minted.Some?
    ensures var reply := Join(cfg, Create(cfg, rooms, stamp, id, secret).1, now, req, peer).0;
            if now >= stamp + cfg.ttl then reply == Refused(RoomExpired, 0)
            else if cfg.hash(req.secret) != cfg.hash(secret) then reply == Refused(Unauthorized, 0)
            else reply == Joined(Caller, 1, req.minted.value)
  {
    var room := Create(cfg, rooms, stamp, id, secret).1[id];
    var made := NewRoom<P>(cfg, stamp, secret);
    assert room == made && made.peers == map[];
    assert made.peers[req.id := peer].Keys == {req.id};
  }

  // ---- Leaving and eviction ----

  /** Exactly the connection a room holds under its ID can leave it, and nothing else changes but the stamp. */
  lemma LeaveExactly<P>(rooms: Directory<P>, now: Time, room: RoomId, id: ClientId, peer: P)
    ensures var (reply, rooms') := Leave(rooms, now, room, id, peer);
            && (reply.removed <==> room in rooms && id in rooms[room].peers && rooms[room].peers[id] == peer)
            && (!reply.removed ==> rooms' == rooms)
            && (reply.removed ==>
                  && rooms'.Keys == rooms.Keys
                  && (forall r :: r in rooms && r != room ==> rooms'[r] == rooms[r])
                  && rooms'[room].peers == rooms[room].peers - {id}
                  && reply.remaining == |rooms[room].peers| - 1
                  && rooms'[room] == rooms[room].(
                                     peers := rooms'[room].peers, emptySince := rooms'[room].emptySince)
                  && rooms'[room].emptySince ==
                     if reply.remaining == 0 && rooms[room].hadParticipants then Some(now) else rooms[room].emptySince)
  {
    if room in rooms && id in rooms[room].peers {
      var peers := rooms[room].peers;
      assert (peers - {id}).Keys == peers.Keys - {id};
    }
  }

  /** Eviction keeps exactly the rooms before their expiry that have not stood empty for the grace period. */
  lemma EvictExactly<P>(cfg: Config, rooms: Directory<P>, now: Time)
    ensures var kept := Evict(cfg, rooms, now);
            && (forall id :: id in kept ==> id in rooms && kept[id] == rooms[id])
            && (forall id :: id in rooms ==>
                  (id in kept <==>
                   now < rooms[id].expiresAt &&
                   (rooms[id].emptySince == None || now < rooms[id].emptySince.value + cfg.emptyGrace)))
  {
  }

  // ---- Capacity ----

  /** Within the bound before means within the bound after; a refusal means the bound is really used up. */
  lemma CreateRespectsCapacity<P>(cfg: Config, rooms: Directory<P>, stamp: Time, id: RoomId, secret: string)
    requires cfg.maxRooms > 0 && |rooms| <= cfg.maxRooms && id !in rooms
    ensures var (ok, rooms') := Create(cfg, rooms, stamp, id, secret);
            && |rooms'| <= cfg.maxRooms
            && (ok <==> |set r | r in rooms && !Collectable(cfg, rooms[r], stamp)| < cfg.maxRooms)
            && (ok ==> id in rooms')
  {
    var live := set r | r in rooms && !Collectable(cfg, rooms[r], stamp);
    var kept := Evict(cfg, rooms, stamp);
    assert kept.Keys == live;
    assert live <= rooms.Keys;
    SubsetSize(live, rooms.Keys);
    var (ok, rooms') := Create(cfg, rooms, stamp, id, secret);
    if ok {
      if |rooms| >= cfg.maxRooms {
        assert rooms'.Keys == kept.Keys + {id};
      } else {
        assert rooms'.Keys == rooms.Keys + {id};
      }
    }
  }

  /**
   Create reclaims only when the bound is reached, and then exactly what is expired or has stood empty
   too long at its stamp; otherwise it adds the new room and touches no other.
   */
  lemma CreateChanges<P>(cfg: Config, rooms: Directory<P>, stamp: Time, id: RoomId, secret: string)
    requires id !in rooms
    ensures var (ok, rooms') := Create(cfg, rooms, stamp, id, secret);
            var full := cfg.maxRooms > 0 && |rooms| >= cfg.maxRooms;
            && (ok <==> id in rooms')
            && (!full ==> ok)
            && (forall r :: r in rooms' && r != id ==> r in rooms && rooms'[r] == rooms[r])
            && (forall r :: r in rooms ==>
                  (r in rooms' <==>
                   !full ||
                   (stamp < rooms[r].expiresAt &&
                    (rooms[r].emptySince == None || stamp < rooms[r].emptySince.value + cfg.emptyGrace))))
  {
    EvictExactly(cfg, rooms, stamp);
  }

  lemma SubsetSize<T>(a: set<T>, b: set<T>)
    requires a <= b
    ensures |a| <= |b|
  {
    assert b == a + (b - a);
  }
}
