/**
 What every step keeps about rooms and seats, whoever takes it: seats and tokens are for life,
 a room has at most two parties over the whole run, currency once lost is never regained, and a
 room that is gone stays gone.
 */
module ProtocolRooms {
  import opened Rooms
  import opened Mailbox
  import opened Protocol

  ghost predicate RoomsOk(s: State) {
    forall r :: r in s.rooms ==> TwoParties(s.rooms[r]) && r in s.used
  }

  /** A room holds, under an ID, a connection that joined that room with that ID. */
  ghost predicate PeersOk(s: State) {
    forall r, id :: r in s.rooms && id in s.rooms[r].peers ==> Sits(s, s.rooms[r].peers[id], r, id)
  }

  ghost predicate Sits(s: State, c: Conn, room: RoomId, id: ClientId) {
    c < |s.links| && s.links[c].place.room == room && s.links[c].place.id == id
  }

  /** Every connection's role is the one its room has on record for its ID. */
  ghost predicate PlacesOk(s: State) {
    forall c :: 0 <= c < |s.links| ==> PlaceOk(s, s.links[c].place)
  }

  ghost predicate PlaceOk(s: State, place: Place) {
    && place.room in s.used
    && (place.room in s.rooms ==>
          place.id in s.rooms[place.room].roles && s.rooms[place.room].roles[place.id] == place.role)
  }

  /** Over the whole run, within one room, IDs and roles correspond one to one. */
  ghost predicate SeatsOk(s: State) {
    forall c, d :: 0 <= c < |s.links| && 0 <= d < |s.links| ==> SameSeat(s.links[c].place, s.links[d].place)
  }

  ghost predicate SameSeat(a: Place, b: Place) {
    a.room == b.room ==> (a.id == b.id <==> a.role == b.role)
  }

  ghost predicate Inv(s: State) {
    RoomsOk(s) && PeersOk(s) && PlacesOk(s) && SeatsOk(s)
  }

  // ---- One step ----

  /** A room after a step: an old room with its seats, or a new room under an ID never used before. */
  ghost predicate RoomFollows(s: State, s': State, r: RoomId)
    requires r in s'.rooms
  {
    && r in s'.used
    && TwoParties(s'.rooms[r])
    && (if r in s.rooms then SeatsKept(s.rooms[r], s'.rooms[r])
        else r !in s.used && s'.rooms[r].roles == map[])
    && (forall id :: id in s'.rooms[r].peers ==>
          var c := s'.rooms[r].peers[id];
          || (r in s.rooms && id in s.rooms[r].peers && s.rooms[r].peers[id] == c)
          || (c == |s.links| && Sits(s', c, r, id)))
  }

  ghost predicate RoomsFollow(s: State, s': State) {
    && s.used <= s'.used
    && forall r :: r in s'.rooms ==> RoomFollows(s, s', r)
  }

  /** Connections are never forgotten or moved; mailboxes and leave marks only progress. */
  ghost predicate LinkFollows(link: Link, later: Link) {
    && later.place == link.place
    && Extends(link.box, later.box)
    && (link.left ==> later.left)
  }

  ghost predicate LinksFollow(s: State, s': State) {
    && |s.links| <= |s'.links| <= |s.links| + 1
    && forall c :: 0 <= c < |s.links| ==> LinkFollows(s.links[c], s'.links[c])
  }

  /** A connection added by a step sits in a room that was already there. */
  ghost predicate NewcomerOk(s: State, s': State) {
    |s'.links| == |s.links| + 1 ==>
      var place := s'.links[|s.links|].place;
      && place.room in s.rooms && place.room in s'.rooms && PlaceOk(s', place)
      && Faithful(s'.links[|s.links|].box)
  }

  ghost predicate Boxes(s: State) {
    forall c :: 0 <= c < |s.links| ==> Faithful(s.links[c].box)
  }

  lemma SeatsKeptByThemselves(s: State)
    ensures forall r :: r in s.rooms ==> SeatsKept(s.rooms[r], s.rooms[r])
  {
  }

  lemma JoinRoomsFollow(cfg: Config, s: State, req: JoinRequest)
    requires RoomsOk(s) && Enabled(s, JoinRoom(req))
    ensures RoomsFollow(s, AfterJoin(cfg, s, req))
  {
    hide TwoParties, SeatsKept, Admit;
    var s' := AfterJoin(cfg, s, req);
    SeatsKeptByThemselves(s);
    if req.room in s.rooms && s.now < s.rooms[req.room].expiresAt {
      AdmitKeepsRoom(cfg, s.rooms[req.room], req, |s.links|);
      AdmitSeats(cfg, s.rooms[req.room], req, |s.links|);
    }
  }

  lemma LeaveRoomsFollow(s: State, c: Conn)
    requires RoomsOk(s) && Enabled(s, LeaveRoom(c))
    ensures RoomsFollow(s, AfterLeave(s, c))
  {
    hide TwoParties, SeatsKept;
    var place := s.links[c].place;
    SeatsKeptByThemselves(s);
    if IsCurrent(s.rooms, place.room, place.id, c) {
      VacateKeepsRoom(s.rooms[place.room], place.id, s.now);
    }
  }

  lemma CreateRoomsFollow(cfg: Config, s: State, stamp: Time, id: RoomId, secret: string)
    requires RoomsOk(s) && Enabled(s, CreateRoom(stamp, id, secret))
    ensures RoomsFollow(s, AfterCreate(cfg, s, stamp, id, secret))
  {
    var made := NewRoom<Conn>(cfg, stamp, secret);
    assert TwoParties(made) && made.roles == map[] && made.peers == map[];
    SeatsKeptByThemselves(s);
    hide SeatsKept, TwoParties, NewRoom, Collectable, Occupants;
  }

  /** Steps that leave the directory alone. */
  predicate Local(step: Step) {
    !step.CreateRoom? && !step.JoinRoom? && !step.Sweep? && !step.DeleteRoom? && !step.LeaveRoom?
  }

  lemma LocalSteps(cfg: Config, s: State, step: Step)
    requires Enabled(s, step) && Local(step)
    ensures var s' := Next(cfg, s, step);
            s'.rooms == s.rooms && s'.used == s.used && |s'.links| == |s.links|
  {
  }

  lemma DropRoomsFollow(s: State, s': State)
    requires RoomsOk(s) && s'.used == s.used
    requires forall r :: r in s'.rooms ==> r in s.rooms && s'.rooms[r] == s.rooms[r]
    ensures RoomsFollow(s, s')
  {
  }

  lemma StepRooms(cfg: Config, s: State, step: Step)
    requires RoomsOk(s) && Enabled(s, step)
    ensures RoomsFollow(s, Next(cfg, s, step))
  {
    hide RoomsOk, RoomsFollow, AfterCreate, AfterJoin, AfterLeave;
    match step
    case CreateRoom(stamp, id, secret) => CreateRoomsFollow(cfg, s, stamp, id, secret);
    case JoinRoom(req) => JoinRoomsFollow(cfg, s, req);
    case LeaveRoom(c) => LeaveRoomsFollow(s, c);
    case Sweep => DropRoomsFollow(s, Next(cfg, s, step));
    case DeleteRoom(_) => DropRoomsFollow(s, Next(cfg, s, step));
    case _ =>
      LocalSteps(cfg, s, step);
      DropRoomsFollow(s, Next(cfg, s, step));
  }

  lemma EveryBoxExtendsItself(s: State)
    ensures forall c :: 0 <= c < |s.links| ==> LinkFollows(s.links[c], s.links[c])
  {
  }

  lemma BoxReplaced(s: State, c: Conn, box: Mailbox<Payload>)
    requires Boxes(s) && c < |s.links| && Faithful(box) && Extends(s.links[c].box, box)
    ensures LinksFollow(s, WithBox(s, c, box)) && Boxes(WithBox(s, c, box))
  {
    EveryBoxExtendsItself(s);
    hide Faithful, Extends;
  }

  lemma StepBoxes(cfg: Config, s: State, step: Step)
    requires Boxes(s) && Enabled(s, step)
    requires step.Probing? || step.Pushing? || step.PumpTake? || step.PumpStop?
    ensures LinksFollow(s, Next(cfg, s, step)) && Boxes(Next(cfg, s, step))
  {
    match step
    case Probing(c, target) =>
      BoxReplaced(s, target, Probe(s.links[target].box).1);
    case Pushing(c) =>
      var box := s.links[At(s, c).probed.value].box;
      PushIsFaithful(box, At(s, c).payload);
      hide Push, Faithful, Extends;
      BoxReplaced(s, At(s, c).probed.value, Push(box, At(s, c).payload).1);
    case PumpTake(c, ok) =>
      PumpIsFaithful(s.links[c].box, ok);
      hide Pump, Faithful, Extends;
      BoxReplaced(s, c, Pump(s.links[c].box, ok));
    case PumpStop(c) =>
      BoxReplaced(s, c, s.links[c].box.(pumping := false));
  }

  lemma StepHandlers(cfg: Config, s: State, step: Step)
    requires Enabled(s, step)
    requires || step.Finish? || step.SnapReady? || step.ReadFails? || step.ReadArrives? || step.Handle?
             || step.SnapLeft? || step.Tick?
    ensures LinksFollow(s, Next(cfg, s, step))
    ensures Boxes(s) ==> Boxes(Next(cfg, s, step))
  {
    EveryBoxExtendsItself(s);
    hide Faithful, Extends, Snapshot;
  }

  lemma StepDirectory(cfg: Config, s: State, step: Step)
    requires Enabled(s, step) && Boxes(s)
    requires step.CreateRoom? || step.Sweep? || step.DeleteRoom?
    ensures LinksFollow(s, Next(cfg, s, step)) && Boxes(Next(cfg, s, step))
  {
    hide Create, Evict, Occupants;
  }

  lemma StepJoin(cfg: Config, s: State, req: JoinRequest)
    requires RoomsOk(s) && Boxes(s) && Enabled(s, JoinRoom(req))
    ensures var s' := AfterJoin(cfg, s, req);
            LinksFollow(s, s') && Boxes(s') && NewcomerOk(s, s')
  {
    EveryBoxExtendsItself(s);
    assert Faithful(Fresh<Payload>());
    hide TwoParties, SeatsKept, Admit, Faithful, Extends;
    if req.room in s.rooms && s.now < s.rooms[req.room].expiresAt {
      AdmitSeats(cfg, s.rooms[req.room], req, |s.links|);
    }
  }

  lemma StepLeave(s: State, c: Conn)
    requires Boxes(s) && Enabled(s, LeaveRoom(c))
    ensures LinksFollow(s, AfterLeave(s, c)) && Boxes(AfterLeave(s, c))
  {
    EveryBoxExtendsItself(s);
    hide Faithful, Extends, Leave;
  }

  lemma StepLinks(cfg: Config, s: State, step: Step)
    requires RoomsOk(s) && Boxes(s) && Enabled(s, step)
    ensures var s' := Next(cfg, s, step);
            LinksFollow(s, s') && Boxes(s') && NewcomerOk(s, s')
  {
    hide RoomsOk, Boxes, LinksFollow, PlaceOk;
    hide AfterCreate, AfterJoin, AfterLeave, AfterMessage, AfterFanout, AfterPush, AfterProbe;
    match step
    case JoinRoom(req) => StepJoin(cfg, s, req);
    case LeaveRoom(c) => StepLeave(s, c); LeaveKeepsCount(s, c);
    case CreateRoom(stamp, id, secret) => StepDirectory(cfg, s, step); CreateKeepsCount(cfg, s, stamp, id, secret);
    case Sweep => StepDirectory(cfg, s, step);
    case DeleteRoom(_) => StepDirectory(cfg, s, step);
    case _ =>
      LocalSteps(cfg, s, step);
      if step.Probing? || step.Pushing? || step.PumpTake? || step.PumpStop? {
        StepBoxes(cfg, s, step);
      } else {
        StepHandlers(cfg, s, step);
      }
  }

  lemma LeaveKeepsCount(s: State, c: Conn)
    requires Enabled(s, LeaveRoom(c))
    ensures |AfterLeave(s, c).links| == |s.links|
  {
  }

  lemma CreateKeepsCount(cfg: Config, s: State, stamp: Time, id: RoomId, secret: string)
    ensures |AfterCreate(cfg, s, stamp, id, secret).links| == |s.links|
  {
  }

  // ---- The invariant ----

  lemma KeepsPeers(s: State, s': State)
    requires PeersOk(s) && RoomsFollow(s, s') && LinksFollow(s, s')
    ensures PeersOk(s')
  {
    hide TwoParties, SeatsKept, Extends;
    forall r, id | r in s'.rooms && id in s'.rooms[r].peers
      ensures Sits(s', s'.rooms[r].peers[id], r, id)
    {
      assert RoomFollows(s, s', r);
      var c := s'.rooms[r].peers[id];
      if r in s.rooms && id in s.rooms[r].peers && s.rooms[r].peers[id] == c {
        assert Sits(s, c, r, id) && LinkFollows(s.links[c], s'.links[c]);
      }
    }
  }

  lemma KeepsPlaces(s: State, s': State)
    requires PlacesOk(s) && RoomsFollow(s, s') && LinksFollow(s, s') && NewcomerOk(s, s')
    ensures PlacesOk(s')
  {
    hide TwoParties, Extends, Faithful;
    forall c | 0 <= c < |s'.links| ensures PlaceOk(s', s'.links[c].place) {
      if c < |s.links| {
        var r := s.links[c].place.room;
        assert PlaceOk(s, s.links[c].place) && LinkFollows(s.links[c], s'.links[c]);
        if r in s'.rooms {
          assert RoomFollows(s, s', r);
        }
      }
    }
  }

  /** In a room that exists, roles on record tell IDs apart. */
  lemma LiveSeats(s: State, a: Place, b: Place)
    requires a.room == b.room && a.room in s.rooms && TwoParties(s.rooms[a.room])
    requires PlaceOk(s, a) && PlaceOk(s, b)
    ensures SameSeat(a, b)
  {
  }

  lemma KeepsSeats(s: State, s': State)
    requires SeatsOk(s) && PlacesOk(s') && RoomsFollow(s, s') && LinksFollow(s, s') && NewcomerOk(s, s')
    ensures SeatsOk(s')
  {
    hide TwoParties, Extends, Faithful, SeatsKept, PlaceOk, SameSeat;
    forall c, d | 0 <= c < |s'.links| && 0 <= d < |s'.links|
      ensures SameSeat(s'.links[c].place, s'.links[d].place)
    {
      var a, b := s'.links[c].place, s'.links[d].place;
      if c < |s.links| && d < |s.links| {
        assert LinkFollows(s.links[c], s'.links[c]) && LinkFollows(s.links[d], s'.links[d]);
        assert SameSeat(s.links[c].place, s.links[d].place);
      } else if a.room == b.room {
        assert RoomFollows(s, s', a.room);
        assert PlaceOk(s', a) && PlaceOk(s', b);
        LiveSeats(s', a, b);
      } else {
        DifferentRooms(a, b);
      }
    }
  }

  lemma DifferentRooms(a: Place, b: Place)
    requires a.room != b.room
    ensures SameSeat(a, b)
  {
  }

  /** Every step of anybody keeps the room invariant. */
  lemma StepKeepsInv(cfg: Config, s: State, step: Step)
    requires Inv(s) && Boxes(s) && Enabled(s, step)
    ensures Inv(Next(cfg, s, step)) && Boxes(Next(cfg, s, step))
  {
    var s' := Next(cfg, s, step);
    hide Next, TwoParties, SeatsKept, Extends, PeersOk, PlacesOk, SeatsOk, Boxes, LinksFollow, NewcomerOk;
    StepRooms(cfg, s, step);
    StepLinks(cfg, s, step);
    KeepsPeers(s, s');
    KeepsPlaces(s, s');
    KeepsSeats(s, s');
    forall r | r in s'.rooms ensures TwoParties(s'.rooms[r]) && r in s'.used {
      assert RoomFollows(s, s', r);
    }
  }
}
