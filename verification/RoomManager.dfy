/**
 The room manager as the program has it: objects updated in place (internal/rooms/manager.go).
 Every method is proved to do to the directory exactly what its critical section does in module
 Rooms, so that what the protocol model proves about those sections holds of these objects.
 */
module RoomManager {
  import opened Wrappers
  import R = Rooms
  import M = Mailbox

  class Peer {
    const id: R.ClientId
    const capacity: nat
    var send: seq<Bytes>
    var dead: bool

    constructor (id: R.ClientId, sendBuffer: nat)
      ensures this.id == id && capacity == sendBuffer && send == [] && !dead
    {
      this.id := id;
      capacity := sendBuffer;
      send := [];
      dead := false;
    }

    ghost predicate Accepts()
      reads this
    {
      !dead && |send| < capacity
    }

    /** A mailbox of the transition system with this queue and this flag. */
    static ghost predicate Mirrors(send: seq<Bytes>, dead: bool, box: M.Mailbox<Bytes>) {
      send == box.queue && dead == box.dead
    }

    /**
     Queues the payload, or marks the peer dead; nothing else. It is the two selects of the transition
     system taken one after the other.
     */
    method Enqueue(payload: Bytes) returns (ok: bool)
      modifies this
      ensures ok == old(Accepts())
      ensures send == if ok then old(send) + [payload] else old(send)
      ensures dead == !ok
      ensures capacity == M.SEND_BUFFER ==> forall box :: Mirrors(old(send), old(dead), box) ==>
                ok == M.Offer(box, payload).0 && Mirrors(send, dead, M.Offer(box, payload).1)
    {
      if dead {
        return false;
      }
      if |send| < capacity {
        send := send + [payload];
        return true;
      }
      Kill();
      return false;
    }

    method Kill()
      modifies this`dead
      ensures dead
      ensures forall box :: Mirrors(send, old(dead), box) ==> Mirrors(send, dead, M.Kill(box))
    {
      dead := true;
    }
  }

  class Room {
    const id: R.RoomId
    const createdAt: R.Time
    const expiresAt: R.Time
    const secretHash: R.Digest
    var peers: map<R.ClientId, Peer>
    var roles: map<R.ClientId, R.Role>
    var tokens: map<R.ClientId, R.Token>
    var hadParticipants: bool
    var emptySince: Option<R.Time>

    ghost function Value(): R.Room<Peer>
      reads this
    {
      R.Room(expiresAt, secretHash, peers, roles, tokens, hadParticipants, emptySince)
    }

    constructor (id: R.RoomId, now: R.Time, cfg: R.Config, secret: string)
      ensures this.id == id && createdAt == now && Value() == R.NewRoom(cfg, now, secret)
    {
      this.id := id;
      createdAt := now;
      expiresAt := now + cfg.ttl;
      secretHash := cfg.hash(secret);
      peers, roles, tokens := map[], map[], map[];
      hadParticipants, emptySince := false, None;
    }
  }

  class Manager {
    const cfg: R.Config
    var rooms: map<R.RoomId, Room>

    /** Rooms stand under their own IDs, hence are distinct objects; peers likewise. */
    ghost predicate Valid()
      reads this, rooms.Values
    {
      && (forall id :: id in rooms ==> rooms[id].id == id)
      && Named(Directory())
    }

    /** Peers stand under their own IDs. */
    static ghost predicate Named(dir: R.Directory<Peer>) {
      forall id :: id in dir ==> NamedRoom(dir[id])
    }

    static ghost predicate NamedRoom(room: R.Room<Peer>) {
      forall p :: p in room.peers ==> room.peers[p].id == p
    }

    ghost function Directory(): R.Directory<Peer>
      reads this, rooms.Values
    {
      map id | id in rooms :: rooms[id].Value()
    }

    ghost function Peers(): set<Peer>
      reads this, rooms.Values
    {
      R.Occupants(Directory(), rooms.Keys)
    }

    /** The rooms of `all` have the values of `dir`. */
    static ghost predicate RoomsAre(all: map<R.RoomId, Room>, dir: R.Directory<Peer>)
      reads all.Values
    {
      forall id :: id in all ==> id in dir && all[id].Value() == dir[id]
    }

    lemma DirectoryIs(dir: R.Directory<Peer>)
      requires dir.Keys == rooms.Keys && RoomsAre(rooms, dir)
      ensures Directory() == dir
    {
    }

    lemma InDirectory()
      ensures Directory().Keys == rooms.Keys && |Directory()| == |rooms| && RoomsAre(rooms, Directory())
    {
      assert Directory().Keys == rooms.Keys;
    }

    static ghost function PeersOf(peers: map<R.ClientId, Peer>): set<Peer> {
      peers.Values
    }

    /** Of the given peers exactly the victims, and those dead before, are dead now. */
    static twostate predicate Killed(peers: set<Peer>, victims: set<Peer>)
      reads peers
    {
      forall p :: p in peers ==> p.dead == (old(p.dead) || p in victims)
    }

    constructor (cfg: R.Config)
      ensures Valid() && this.cfg == cfg && Directory() == map[]
    {
      this.cfg := cfg;
      rooms := map[];
    }

    method Create(now: R.Time, id: R.RoomId, secret: string) returns (room: Room?)
      requires Valid() && id !in rooms
      modifies this`rooms, Peers()`dead
      ensures Valid()
      ensures (room != null) == R.Create(cfg, old(Directory()), now, id, secret).0
      ensures Directory() == R.Create(cfg, old(Directory()), now, id, secret).1
      ensures room != null ==> fresh(room) && id in rooms && rooms[id] == room
      ensures Killed(old(Peers()), R.Occupants(old(Directory()), old(rooms).Keys - rooms.Keys))
    {
      hide Directory, Peers, R.Occupants, R.Evict, Valid;
      var made := new Room(id, now, cfg, secret);
      ghost var dir, peers := Directory(), Peers();
      assert dir == old(Directory()) && peers == old(Peers());
      var ok := Reserve(now);
      assert Killed(peers, R.Occupants(dir, old(rooms).Keys - rooms.Keys));
      if !ok {
        return null;
      }
      ghost var kept := rooms.Keys;
      Insert(made);
      assert old(rooms).Keys - rooms.Keys == old(rooms).Keys - kept;
      assert Killed(peers, R.Occupants(dir, old(rooms).Keys - kept));
      return made;
    }

    /** The capacity check of Create: reclaims what is collectable before giving up. */
    method Reserve(now: R.Time) returns (ok: bool)
      requires Valid()
      modifies this`rooms, Peers()`dead
      ensures Valid() && rooms.Keys <= old(rooms).Keys
      ensures Directory() == if cfg.maxRooms > 0 && |old(Directory())| >= cfg.maxRooms
                             then R.Evict(cfg, old(Directory()), now) else old(Directory())
      ensures ok <==> !(cfg.maxRooms > 0 && |Directory()| >= cfg.maxRooms)
      ensures Killed(old(Peers()), R.Occupants(old(Directory()), old(rooms).Keys - rooms.Keys))
    {
      InDirectory();
      NoOccupants(Directory());
      hide Directory, Peers, R.Occupants, R.Evict, Valid;
      if cfg.maxRooms > 0 && |rooms| >= cfg.maxRooms {
        var _ := EvictLocked(now);
        InDirectory();
        if |rooms| >= cfg.maxRooms {
          return false;
        }
      } else {
        assert old(rooms).Keys - rooms.Keys == {};
      }
      return true;
    }

    method Insert(room: Room)
      requires Valid() && room.id !in rooms && room.peers == map[]
      modifies this`rooms
      ensures Valid() && rooms == old(rooms)[room.id := room]
      ensures Directory() == old(Directory())[room.id := room.Value()]
    {
      ghost var dir, all := Directory(), rooms;
      InDirectory();
      OneRoomNamed(dir, room.id, room.Value());
      hide Directory, Named, NamedRoom;
      rooms := rooms[room.id := room];
      MoreRoomsAre(all, dir, room);
      hide RoomsAre;
      DirectoryIs(dir[room.id := room.Value()]);
    }

    static lemma MoreRoomsAre(all: map<R.RoomId, Room>, dir: R.Directory<Peer>, room: Room)
      requires RoomsAre(all, dir)
      ensures RoomsAre(all[room.id := room], dir[room.id := room.Value()])
    {
    }

    method Join(req: R.JoinRequest, peer: Peer, now: R.Time) returns (reply: R.JoinReply)
      requires Valid() && peer.id == req.id
      modifies this, rooms.Values
      ensures Valid()
      ensures reply == R.Join(cfg, old(Directory()), now, req, peer).0
      ensures Directory() == R.Join(cfg, old(Directory()), now, req, peer).1
      ensures rooms.Values <= old(rooms.Values)
    {
      if req.room !in rooms {
        return R.Refused(R.RoomNotFound, 0);
      }
      ghost var dir := Directory();
      InDirectory();
      FewerRoomsAre(rooms, dir, req.room);
      FewerStayNamed(dir, req.room);
      hide Directory, NamedRoom, R.Admit;
      var room := rooms[req.room];
      if now >= room.expiresAt {
        rooms := rooms - {req.room};
        DirectoryIs(dir - {req.room});
        return R.Refused(R.RoomExpired, 0);
      }
      reply := AdmitLocked(room, req, peer);
      RoomChanged(dir, req.room);
      OneRoomNamed(dir, req.room, room.Value());
    }

    /** The part of Join that works on one unexpired room. */
    method AdmitLocked(room: Room, req: R.JoinRequest, peer: Peer) returns (reply: R.JoinReply)
      requires NamedRoom(room.Value()) && peer.id == req.id
      modifies room
      ensures (reply, room.Value()) == R.Admit(cfg, old(room.Value()), req, peer)
      ensures NamedRoom(room.Value())
    {
      if cfg.hash(req.secret) != room.secretHash {
        return R.Refused(R.Unauthorized, 0);
      }
      var role: R.Role;
      if req.id !in room.roles {
        if |room.roles| >= 2 {
          return R.Refused(R.RoomFull, |room.peers|);
        }
        role := if |room.roles| == 0 then R.Caller else R.Callee;
        if req.minted.None? {
          return R.Refused(R.NoEntropy, 0);
        }
        room.roles := room.roles[req.id := role];
        room.tokens := room.tokens[req.id := req.minted.value];
      } else {
        role := room.roles[req.id];
        var expected := if req.id in room.tokens then room.tokens[req.id] else "";
        if expected == "" || req.presented != expected {
          return R.Refused(R.Unauthorized, |room.peers|);
        }
      }
      room.peers := room.peers[req.id := peer];
      room.hadParticipants := true;
      room.emptySince := None;
      return R.Joined(role, |room.peers|, room.tokens[req.id]);
    }

    method Leave(roomId: R.RoomId, peerId: R.ClientId, current: Peer, now: R.Time) returns (reply: R.LeaveReply)
      requires Valid()
      modifies rooms.Values
      ensures Valid()
      ensures reply == R.Leave(old(Directory()), now, roomId, peerId, current).0
      ensures Directory() == R.Leave(old(Directory()), now, roomId, peerId, current).1
    {
      if roomId !in rooms {
        return R.LeaveReply(0, false);
      }
      ghost var dir := Directory();
      InDirectory();
      hide Directory, R.Vacate, NamedRoom;
      var room := rooms[roomId];
      if peerId !in room.peers || room.peers[peerId] != current {
        return R.LeaveReply(|room.peers|, false);
      }
      VacateLocked(room, peerId, now);
      RoomChanged(dir, roomId);
      OneRoomNamed(dir, roomId, room.Value());
      return R.LeaveReply(|room.peers|, true);
    }

    /** The part of Leave that works on the room. */
    method VacateLocked(room: Room, peerId: R.ClientId, now: R.Time)
      requires NamedRoom(room.Value())
      modifies room
      ensures room.Value() == R.Vacate(old(room.Value()), peerId, now)
      ensures NamedRoom(room.Value())
    {
      room.peers := room.peers - {peerId};
      if |room.peers| == 0 && room.hadParticipants {
        room.emptySince := Some(now);
      }
    }

    /** Only one room has a new value. */
    lemma RoomChanged(dir: R.Directory<Peer>, id: R.RoomId)
      requires dir.Keys == rooms.Keys && id in rooms
      requires forall r :: r in rooms && r != id ==> rooms[r].Value() == dir[r]
      ensures Directory() == dir[id := rooms[id].Value()]
    {
    }

    static lemma OneRoomNamed(dir: R.Directory<Peer>, id: R.RoomId, room: R.Room<Peer>)
      requires Named(dir) && NamedRoom(room)
      ensures Named(dir[id := room])
    {
    }

    method IsCurrent(roomId: R.RoomId, peerId: R.ClientId, current: Peer) returns (ok: bool)
      requires Valid()
      ensures ok == R.IsCurrent(Directory(), roomId, peerId, current)
    {
      if roomId !in rooms {
        return false;
      }
      ok := peerId in rooms[roomId].peers && rooms[roomId].peers[peerId] == current;
    }

    method Delete(roomId: R.RoomId)
      requires Valid()
      modifies this`rooms, Peers()`dead
      ensures Valid()
      ensures Directory() == old(Directory()) - {roomId}
      ensures Killed(old(Peers()), R.Occupants(old(Directory()), {roomId}))
    {
      InDirectory();
      OneRoom(Directory(), roomId);
      FewerStayNamed(Directory(), roomId);
      NoSuchRoom(Directory(), roomId);
      hide Directory, Named, Killed, Peers, PeersOf, RoomsAre, R.Occupants;
      if roomId in rooms {
        PeersOfRoom(roomId);
        DropFrom(roomId, Peers());
      }
    }

    static lemma NoSuchRoom(dir: R.Directory<Peer>, id: R.RoomId)
      ensures id !in dir ==> dir - {id} == dir
    {
    }

    lemma PeersOfRoom(id: R.RoomId)
      requires id in rooms
      ensures id in Directory() && PeersOf(rooms[id].peers) == PeersOf(Directory()[id].peers)
    {
    }

    method DropFrom(id: R.RoomId, ghost peers: set<Peer>)
      requires Valid() && id in rooms
      modifies this`rooms, PeersOf(rooms[id].peers)`dead
      ensures rooms == old(rooms) - {id}
      ensures Directory() == old(Directory()) - {id}
      ensures Killed(peers, old(PeersOf(rooms[id].peers)))
    {
      ghost var dir, all := Directory(), rooms;
      InDirectory();
      hide Directory, RoomsAre;
      Drop(id);
      FewerRoomsAre(all, dir, id);
      DirectoryIs(dir - {id});
    }

    static lemma FewerRoomsAre(all: map<R.RoomId, Room>, dir: R.Directory<Peer>, id: R.RoomId)
      requires RoomsAre(all, dir)
      ensures RoomsAre(all - {id}, dir - {id})
    {
    }

    static lemma FewerStayNamed(dir: R.Directory<Peer>, id: R.RoomId)
      requires Named(dir)
      ensures Named(dir - {id})
    {
    }

    static lemma OneRoom(dir: R.Directory<Peer>, id: R.RoomId)
      ensures id in dir ==> R.Occupants(dir, {id}) == PeersOf(dir[id].peers) <= R.Occupants(dir, dir.Keys)
      ensures id !in dir ==> R.Occupants(dir, {id}) == {}
    {
      NoOccupants(dir);
      if id in dir {
        OccupantsGrow(dir, {}, id);
        assert {} + {id} == {id};
      }
    }

    method Cleanup(now: R.Time) returns (removed: nat)
      requires Valid()
      modifies this`rooms, Peers()`dead
      ensures Valid()
      ensures Directory() == R.Evict(cfg, old(Directory()), now)
      ensures removed + |rooms| == |old(rooms)|
      ensures Killed(old(Peers()), R.Occupants(old(Directory()), old(rooms).Keys - rooms.Keys))
    {
      removed := EvictLocked(now);
    }

    /** The rooms of `all` still to be looked at, and those already found not collectable. */
    static ghost predicate Swept(
      cfg: R.Config, dir: R.Directory<Peer>, now: R.Time, all: map<R.RoomId, Room>,
      rooms: map<R.RoomId, Room>, pending: set<R.RoomId>, lost: set<R.RoomId>)
    {
      && dir.Keys == all.Keys
      && lost == all.Keys - rooms.Keys
      && pending <= rooms.Keys
      && rooms == map id | id in all && (id in pending || !R.Collectable(cfg, dir[id], now)) :: all[id]
    }

    static lemma SweptStep(
      cfg: R.Config, dir: R.Directory<Peer>, now: R.Time, all: map<R.RoomId, Room>,
      rooms: map<R.RoomId, Room>, pending: set<R.RoomId>, lost: set<R.RoomId>, id: R.RoomId)
      requires Swept(cfg, dir, now, all, rooms, pending, lost) && id in pending
      ensures id in rooms && id in all && id in dir && rooms[id] == all[id]
      ensures if R.Collectable(cfg, dir[id], now)
              then Swept(cfg, dir, now, all, rooms - {id}, pending - {id}, lost + {id})
              else Swept(cfg, dir, now, all, rooms, pending - {id}, lost)
      ensures |rooms - {id}| + 1 == |rooms|
    {
      assert (rooms - {id}).Keys == rooms.Keys - {id};
    }

    /** Kills the peers of one room and drops it. */
    method Drop(id: R.RoomId)
      requires id in rooms
      modifies this`rooms, PeersOf(rooms[id].peers)`dead
      ensures rooms == old(rooms) - {id}
      ensures forall p :: p in old(PeersOf(rooms[id].peers)) ==> p.dead
    {
      KillPeersLocked(rooms[id]);
      rooms := rooms - {id};
    }

    /** Exactly the peers of `dead` are dead. */
    static ghost predicate DeadAre(peers: set<Peer>, dead: set<Peer>)
      reads peers
    {
      forall p :: p in peers ==> (p.dead <==> p in dead)
    }

    /** Removes exactly the collectable rooms, counts them, and kills exactly their peers. */
    method EvictLocked(now: R.Time) returns (removed: nat)
      requires Valid()
      modifies this`rooms, Peers()`dead
      ensures Valid()
      ensures Directory() == R.Evict(cfg, old(Directory()), now)
      ensures rooms.Keys <= old(rooms).Keys && removed + |rooms| == |old(rooms)|
      ensures Killed(old(Peers()), R.Occupants(old(Directory()), old(rooms).Keys - rooms.Keys))
    {
      ghost var all, dir, peers := rooms, Directory(), Peers();
      ghost var dead := set p | p in peers && p.dead;
      InDirectory();
      forall id | id in all ensures PeersOf(dir[id].peers) <= peers {
        OccupantsGrow(dir, {}, id);
      }
      EvictedStaysNamed(cfg, dir, now);
      hide R.Occupants, PeersOf, Directory, Named;
      removed := EvictLoop(now, dir, peers, dead);
      SweptEnd(cfg, dir, now, all, rooms, all.Keys - rooms.Keys);
      DirectoryIs(R.Evict(cfg, dir, now));
      assert Named(Directory());
    }

    static lemma EvictedStaysNamed(cfg: R.Config, dir: R.Directory<Peer>, now: R.Time)
      requires Named(dir)
      ensures Named(R.Evict(cfg, dir, now))
    {
    }

    /**
     The loop over the rooms. `dir`, `peers` and `dead` are the directory, the peers and the dead
     peers before it.
     */
    method EvictLoop(now: R.Time, ghost dir: R.Directory<Peer>, ghost peers: set<Peer>, ghost dead: set<Peer>)
      returns (removed: nat)
      requires dir.Keys == rooms.Keys && RoomsAre(rooms, dir) && DeadAre(peers, dead)
      requires forall id :: id in dir ==> PeersOf(dir[id].peers) <= peers
      modifies this`rooms, peers`dead
      ensures RoomsAre(old(rooms), dir)
      ensures Swept(cfg, dir, now, old(rooms), rooms, {}, old(rooms).Keys - rooms.Keys)
      ensures removed + |rooms| == |old(rooms)|
      ensures DeadAre(peers, dead + R.Occupants(dir, old(rooms).Keys - rooms.Keys))
    {
      removed := 0;
      ghost var all := rooms;
      ghost var lost: set<R.RoomId> := {};
      var pending := rooms.Keys;
      assert Swept(cfg, dir, now, all, rooms, pending, lost);
      NoOccupants(dir);
      assert dead + {} == dead;
      hide *;
      while pending != {}
        invariant Swept(cfg, dir, now, all, rooms, pending, lost)
        invariant removed + |rooms| == |all|
        invariant RoomsAre(all, dir) && DeadAre(peers, dead + R.Occupants(dir, lost))
        decreases pending
      {
        var id :| id in pending;
        SweptStep(cfg, dir, now, all, rooms, pending, lost, id);
        pending := pending - {id};
        var gone := EvictOne(id, now, all, dir, peers, dead, lost);
        if gone {
          removed := removed + 1;
          lost := lost + {id};
        }
      }
      SweptEnd(cfg, dir, now, all, rooms, lost);
    }

    method EvictOne(
      id: R.RoomId, now: R.Time,
      ghost all: map<R.RoomId, Room>, ghost dir: R.Directory<Peer>, ghost peers: set<Peer>, ghost dead: set<Peer>,
      ghost lost: set<R.RoomId>)
      returns (gone: bool)
      requires id in rooms && id in all && id in dir && rooms[id] == all[id] && PeersOf(dir[id].peers) <= peers
      requires RoomsAre(all, dir) && DeadAre(peers, dead + R.Occupants(dir, lost))
      modifies this`rooms, peers`dead
      ensures gone == R.Collectable(cfg, dir[id], now)
      ensures rooms == if gone then old(rooms) - {id} else old(rooms)
      ensures RoomsAre(all, dir) && DeadAre(peers, dead + R.Occupants(dir, if gone then lost + {id} else lost))
    {
      OccupantsGrow(dir, lost, id);
      var room := rooms[id];
      assert room.Value() == dir[id];
      hide R.Occupants, RoomsAre;
      var expired := now >= room.expiresAt;
      var emptyTooLong := room.emptySince.Some? && now - room.emptySince.value >= cfg.emptyGrace;
      gone := expired || emptyTooLong;
      if gone {
        Drop(id);
      }
    }

    static lemma SweptEnd(
      cfg: R.Config, dir: R.Directory<Peer>, now: R.Time, all: map<R.RoomId, Room>,
      rooms: map<R.RoomId, Room>, lost: set<R.RoomId>)
      requires Swept(cfg, dir, now, all, rooms, {}, lost)
      ensures lost == all.Keys - rooms.Keys
      ensures rooms.Keys == R.Evict(cfg, dir, now).Keys && rooms.Keys <= all.Keys
      ensures forall id :: id in rooms ==> rooms[id] == all[id]
    {
    }

    static lemma NoOccupants(dir: R.Directory<Peer>)
      ensures R.Occupants(dir, {}) == {}
    {
    }

    static lemma OccupantsGrow(dir: R.Directory<Peer>, gone: set<R.RoomId>, id: R.RoomId)
      requires id in dir
      ensures R.Occupants(dir, gone + {id}) == R.Occupants(dir, gone) + PeersOf(dir[id].peers)
      ensures PeersOf(dir[id].peers) <= R.Occupants(dir, dir.Keys)
    {
      forall p | p in dir[id].peers.Values
        ensures p in R.Occupants(dir, gone + {id}) && p in R.Occupants(dir, dir.Keys)
      {
        var k :| k in dir[id].peers && dir[id].peers[k] == p;
      }
      forall p | p in R.Occupants(dir, gone) ensures p in R.Occupants(dir, gone + {id}) {
        var r, k :| r in gone && r in dir && k in dir[r].peers && dir[r].peers[k] == p;
      }
    }

    method KillPeersLocked(room: Room)
      modifies PeersOf(room.peers)`dead
      ensures forall p :: p in PeersOf(room.peers) ==> p.dead
    {
      var pending := room.peers.Keys;
      while pending != {}
        invariant pending <= room.peers.Keys
        invariant forall id :: id in room.peers && id !in pending ==> room.peers[id].dead
        decreases pending
      {
        var id :| id in pending;
        room.peers[id].Kill();
        pending := pending - {id};
      }
    }

    lemma InSnapshot(roomId: R.RoomId, except: R.ClientId, p: Peer)
      requires Valid() && roomId in rooms
      ensures p in R.Snapshot(Directory(), roomId, except) <==>
                p.id in rooms[roomId].peers && p.id != except && rooms[roomId].peers[p.id] == p
    {
      assert NamedRoom(Directory()[roomId]);
    }

    /**
     Every peer of the room but the excepted one is offered the payload once; those that cannot take
     it are dead afterwards; the count is the number of those that could.
     */
    method Broadcast(roomId: R.RoomId, except: R.ClientId, payload: Bytes) returns (sent: nat)
      requires Valid()
      modifies R.Snapshot(Directory(), roomId, except)
      ensures forall p :: p in old(R.Snapshot(Directory(), roomId, except)) ==>
                && p.send == (if old(p.Accepts()) then old(p.send) + [payload] else old(p.send))
                && p.dead == !old(p.Accepts())
      ensures sent == |set p | p in old(R.Snapshot(Directory(), roomId, except)) && old(p.Accepts())|
    {
      sent := 0;
      if roomId !in rooms {
        return;
      }
      var room := rooms[roomId];
      var peers: seq<Peer> := [];
      var pending := room.peers.Keys;
      while pending != {}
        invariant pending <= room.peers.Keys
        invariant Distinct(peers)
        invariant forall p :: p in peers <==>
                              && p.id in room.peers && room.peers[p.id] == p
                              && p.id !in pending && p.id != except
        decreases pending
      {
        var id :| id in pending;
        pending := pending - {id};
        if id != except {
          peers := peers + [room.peers[id]];
        }
      }
      ghost var targets := R.Snapshot(Directory(), roomId, except);
      forall p: Peer ensures p in targets <==> p in peers {
        InSnapshot(roomId, except, p);
      }
      sent := EnqueueAll(peers, payload);
      assert (set p | p in targets && old(p.Accepts())) == set p | p in peers && old(p.Accepts());
    }

    static method EnqueueAll(peers: seq<Peer>, payload: Bytes) returns (sent: nat)
      requires Distinct(peers)
      modifies peers
      ensures forall p :: p in peers ==>
                && p.send == (if old(p.Accepts()) then old(p.send) + [payload] else old(p.send))
                && p.dead == !old(p.Accepts())
      ensures sent == |set p | p in peers && old(p.Accepts())|
    {
      sent := 0;
      ghost var done: set<Peer> := {};
      for i := 0 to |peers|
        invariant done == set p | p in peers[..i] && old(p.Accepts())
        invariant sent == |done|
        invariant forall p :: p in peers[..i] ==>
                    && p.send == (if old(p.Accepts()) then old(p.send) + [payload] else old(p.send))
                    && p.dead == !old(p.Accepts())
        invariant forall p :: p in peers[i..] ==> p.send == old(p.send) && p.dead == old(p.dead)
      {
        assert peers[i] !in peers[..i] && peers[i] !in peers[i + 1..];
        assert peers[..i + 1] == peers[..i] + [peers[i]];
        var ok := peers[i].Enqueue(payload);
        if ok {
          done := done + {peers[i]};
          sent := sent + 1;
        }
      }
      assert peers[..|peers|] == peers;
      assert done == set p | p in peers && old(p.Accepts());
    }

    static ghost predicate Distinct(peers: seq<Peer>) {
      forall i, j :: 0 <= i < j < |peers| ==> peers[i] != peers[j]
    }
  }
}
