/** The main results about the signaling server, each for every run. */
module ProtocolTheorems {
  import opened Wrappers
  import opened Rooms
  import opened Mailbox
  import opened Protocol
  import opened ProtocolRooms
  import opened ProtocolMessages
  import opened ProtocolIsolation
  import opened ProtocolRuns

  // ---- Pairing ----

  /**
   Two connections current in one room, the later of which is past its peer-ready broadcast: each of
   them is dead or has accepted the peer-ready of the later one. (Handler `b` exists only since its
   own Join, and `a` joined before it: see NoReadyBeforeJoin.)
   */
  lemma Pairing(cfg: Config, s: State, a: Conn, b: Conn)
    requires Reachable(cfg, s) && a < b < |s.links|
    requires Current(s, a) && Current(s, b) && s.links[a].place.room == s.links[b].place.room
    requires !Announcing(s.links[b].pc)
    ensures forall x :: x in {a, b} ==> s.links[x].box.dead || PeerReady(b) in s.links[x].box.accepted
  {
    ReachableIsSound(cfg, s);
    assert Together(s, a, b);
    assert Promised(s, b, a) && Promised(s, b, b);
  }

  /** Nobody holds a peer-ready of a connection that has not joined yet. */
  lemma NoReadyBeforeJoin(cfg: Config, s: State, b: Conn, x: Conn)
    requires Reachable(cfg, s) && b >= |s.links| && x < |s.links|
    ensures PeerReady(b) !in s.links[x].box.accepted
  {
    ReachableIsSound(cfg, s);
    assert LogOk(s, x);
    forall k | 0 <= k < |s.links[x].box.accepted| ensures s.links[x].box.accepted[k] != PeerReady(b) {
      assert EntryOk(s, x, s.links[x].box.accepted[k]);
    }
  }

  // ---- Supersession ----

  /**
   A connection that is not current stays so; from then on it relays at most one more client message;
   and if it lost its place to another connection, its Leave changes nothing and its departure is
   never announced to anybody.
   */
  lemma SupersessionIsFinal(cfg: Config, s: State, steps: seq<Step>, c: Conn)
    requires Reachable(cfg, s) && Legal(cfg, s, steps)
    requires c < |s.links| && !Current(s, c)
    ensures var s' := Exec(cfg, s, steps);
            && c < |s'.links|
            && !Current(s', c)
            && s'.links[c].relayed <= s.links[c].relayed + 1
            && (var place := s.links[c].place;
                Leave(s'.rooms, s'.now, place.room, place.id, c).1 == s'.rooms
                && !Leave(s'.rooms, s'.now, place.room, place.id, c).0.removed)
            && (!s.links[c].left ==>
                  forall x :: 0 <= x < |s'.links| ==> PeerLeft(c) !in s'.links[x].box.accepted)
  {
    var s' := Exec(cfg, s, steps);
    ReachableIsSound(cfg, s);
    RunEvolves(cfg, s, steps);
    RunKeepsSound(cfg, s, steps);
    assert ConnFollows(s, s', c);
    if !s.links[c].left {
      forall x | 0 <= x < |s'.links| ensures PeerLeft(c) !in s'.links[x].box.accepted {
        NoDepartureWithoutLeave(s', c, x);
      }
    }
  }

  lemma NoDepartureWithoutLeave(s: State, c: Conn, x: Conn)
    requires LogsOk(s) && c < |s.links| && x < |s.links| && !s.links[c].left
    ensures PeerLeft(c) !in s.links[x].box.accepted
  {
    assert LogOk(s, x);
    forall k | 0 <= k < |s.links[x].box.accepted| ensures s.links[x].box.accepted[k] != PeerLeft(c) {
      assert EntryOk(s, x, s.links[x].box.accepted[k]);
    }
  }

  // ---- Two parties for life ----

  /** Every ID ever admitted to the room, in the whole run. */
  ghost function Admitted(s: State, room: RoomId): set<ClientId> {
    set c | 0 <= c < |s.links| && s.links[c].place.room == room :: s.links[c].place.id
  }

  lemma ThreeElements<T>(ids: set<T>)
    requires |ids| > 2
    ensures exists a, b, c :: a in ids && b in ids && c in ids && a != b && b != c && a != c
  {
    var a :| a in ids;
    assert |ids - {a}| > 1;
    var b :| b in ids - {a};
    assert |ids - {a} - {b}| > 0;
    var c :| c in ids - {a} - {b};
    assert a in ids && b in ids && c in ids;
  }

  /**
   Over the whole run, whatever happened to the room, at most two IDs were ever admitted to it; one
   ID always has one role, and different IDs have different roles.
   */
  lemma TwoPartiesForLife(cfg: Config, s: State, room: RoomId)
    requires Reachable(cfg, s)
    ensures |Admitted(s, room)| <= 2
    ensures forall c, d ::
              (0 <= c < |s.links| && 0 <= d < |s.links| && s.links[c].place.room == s.links[d].place.room) ==>
              (s.links[c].place.id == s.links[d].place.id <==> s.links[c].place.role == s.links[d].place.role)
    ensures room in s.rooms ==> TwoParties(s.rooms[room]) && Admitted(s, room) <= s.rooms[room].roles.Keys
  {
    ReachableIsSound(cfg, s);
    forall c, d | 0 <= c < |s.links| && 0 <= d < |s.links|
      ensures SameSeat(s.links[c].place, s.links[d].place)
    {
    }
    AtMostTwoAdmitted(s, room);
    if room in s.rooms {
      AdmittedHoldSeats(s, room);
    }
  }

  lemma AtMostTwoAdmitted(s: State, room: RoomId)
    requires SeatsOk(s)
    ensures |Admitted(s, room)| <= 2
  {
    var ids := Admitted(s, room);
    forall i, j, k | i in ids && j in ids && k in ids ensures i == j || j == k || i == k {
      var a :| 0 <= a < |s.links| && s.links[a].place.room == room && s.links[a].place.id == i;
      var b :| 0 <= b < |s.links| && s.links[b].place.room == room && s.links[b].place.id == j;
      var c :| 0 <= c < |s.links| && s.links[c].place.room == room && s.links[c].place.id == k;
      PigeonRoles(s.links[a].place, s.links[b].place, s.links[c].place);
    }
    if |ids| > 2 {
      ThreeElements(ids);
    }
  }

  lemma AdmittedHoldSeats(s: State, room: RoomId)
    requires PlacesOk(s) && room in s.rooms
    ensures Admitted(s, room) <= s.rooms[room].roles.Keys
  {
    forall id | id in Admitted(s, room) ensures id in s.rooms[room].roles.Keys {
      var c :| 0 <= c < |s.links| && s.links[c].place.room == room && s.links[c].place.id == id;
      assert PlaceOk(s, s.links[c].place);
    }
  }

  lemma PigeonRoles(a: Place, b: Place, c: Place)
    requires a.room == b.room == c.room && SameSeat(a, b) && SameSeat(b, c) && SameSeat(a, c)
    ensures a.id == b.id || b.id == c.id || a.id == c.id
  {
  }

  /** A seat, its role and its token never change while the room exists. */
  lemma SeatsNeverChange(cfg: Config, s: State, steps: seq<Step>, room: RoomId, id: ClientId)
    requires Reachable(cfg, s) && Legal(cfg, s, steps)
    requires room in s.rooms && room in Exec(cfg, s, steps).rooms && id in s.rooms[room].roles
    ensures var later := Exec(cfg, s, steps).rooms[room];
            && id in later.roles && later.roles[id] == s.rooms[room].roles[id]
            && TokenOf(later, id) == TokenOf(s.rooms[room], id) != ""
  {
    ReachableIsSound(cfg, s);
    RunEvolves(cfg, s, steps);
    assert SeatsKept(s.rooms[room], Exec(cfg, s, steps).rooms[room]);
    assert TwoParties(s.rooms[room]);
  }

  /**
   After any run of anybody's steps, provided the room is still there and unexpired, an ID that held a
   seat is readmitted exactly when it presents the room secret and the token it was issued; it then
   gets its old role and token back and is current; otherwise it is turned away and nothing changes.
   */
  lemma ReconnectAlwaysWorks(cfg: Config, s: State, steps: seq<Step>, req: JoinRequest)
    requires Reachable(cfg, s) && Legal(cfg, s, steps)
    requires req.room in s.rooms && req.id in s.rooms[req.room].roles
    requires var s' := Exec(cfg, s, steps);
             req.room in s'.rooms && s'.now < s'.rooms[req.room].expiresAt
    ensures var s' := Exec(cfg, s, steps);
            var seat := s.rooms[req.room];
            var (reply, rooms) := Join(cfg, s'.rooms, s'.now, req, |s'.links|);
            && (reply.Joined? <==> cfg.hash(req.secret) == seat.secretHash && req.presented == TokenOf(seat, req.id))
            && (reply.Joined? ==>
                  && reply.role == seat.roles[req.id]
                  && reply.token == TokenOf(seat, req.id)
                  && IsCurrent(rooms, req.room, req.id, |s'.links|))
            && (reply.Refused? ==> reply.error == Unauthorized && rooms == s'.rooms)
  {
    var s' := Exec(cfg, s, steps);
    SeatsNeverChange(cfg, s, steps, req.room, req.id);
    ReachableIsSound(cfg, s);
    RunKeepsSound(cfg, s, steps);
    RunEvolves(cfg, s, steps);
    assert SeatsKept(s.rooms[req.room], s'.rooms[req.room]);
    assert TwoParties(s'.rooms[req.room]);
    hide Join, Sound, Evolves, TwoParties;
    SeatIsGuarded(cfg, s'.rooms, s'.now, req, |s'.links|);
  }

  /** Once two IDs hold the seats, no third one is admitted after any run, with or without the secret. */
  lemma NoThirdParty(cfg: Config, s: State, steps: seq<Step>, req: JoinRequest)
    requires Reachable(cfg, s) && Legal(cfg, s, steps)
    requires req.room in s.rooms && |s.rooms[req.room].roles| == 2 && req.id !in s.rooms[req.room].roles
    ensures var s' := Exec(cfg, s, steps);
            Join(cfg, s'.rooms, s'.now, req, |s'.links|).0.Refused?
  {
    var s' := Exec(cfg, s, steps);
    ReachableIsSound(cfg, s);
    RunKeepsSound(cfg, s, steps);
    RunEvolves(cfg, s, steps);
    if req.room in s'.rooms && s'.now < s'.rooms[req.room].expiresAt {
      var roles, roles' := s.rooms[req.room].roles, s'.rooms[req.room].roles;
      assert SeatsKept(s.rooms[req.room], s'.rooms[req.room]);
      assert TwoParties(s'.rooms[req.room]);
      assert roles.Keys <= roles'.Keys;
      hide Join, Sound, Evolves, TwoParties;
      SameWhenSubsetAsLarge(roles.Keys, roles'.Keys);
      ThirdPartyIsRefused(cfg, s'.rooms, s'.now, req, |s'.links|);
    }
  }

  lemma SameWhenSubsetAsLarge<T>(a: set<T>, b: set<T>)
    requires a <= b && |b| <= |a|
    ensures a == b
  {
    assert b == a + (b - a);
  }

  // ---- Delivery ----

  /**
   For every connection at every moment: what the pump wrote is a prefix, in order, of what Enqueue
   accepted; the buffer is within its capacity; a refusal implies death. And over any further run,
   both logs only grow and death is permanent.
   */
  lemma Delivery(cfg: Config, s: State, steps: seq<Step>, c: Conn)
    requires Reachable(cfg, s) && Legal(cfg, s, steps) && c < |s.links|
    ensures var box := s.links[c].box;
            && box.written <= box.accepted
            && |box.queue| <= SEND_BUFFER
            && (box.refused ==> box.dead)
    ensures var s' := Exec(cfg, s, steps);
            && c < |s'.links|
            && s.links[c].box.accepted <= s'.links[c].box.accepted
            && s.links[c].box.written <= s'.links[c].box.written
            && (s.links[c].box.dead ==> s'.links[c].box.dead)
  {
    ReachableIsSound(cfg, s);
    RunEvolves(cfg, s, steps);
    assert Faithful(s.links[c].box);
    WrittenIsPrefixOfAccepted(s.links[c].box);
    assert ConnFollows(s, Exec(cfg, s, steps), c);
  }

  /**
   Rooms are isolated: whatever a connection has accepted from a broadcast was broadcast in its own
   room, and relayed messages, hangups and departures always come from the other client ID.
   */
  lemma RoomsAreIsolated(cfg: Config, s: State, x: Conn, p: Payload)
    requires Reachable(cfg, s) && x < |s.links| && p in s.links[x].box.accepted && !p.Welcome? && !p.Reply?
    ensures p.sender < |s.links|
    ensures s.links[p.sender].place.room == s.links[x].place.room
    ensures !p.PeerReady? ==> s.links[p.sender].place.id != s.links[x].place.id
  {
    ReachableIsSound(cfg, s);
    assert HeardOk(s, x);
  }

  // ---- Hangup ----

  /** Whoever accepts both a hangup and the same sender's peer-left accepts the hangup first. */
  lemma HangupBeforePeerLeft(cfg: Config, s: State, x: Conn, c: Conn, i: nat, j: nat)
    requires Reachable(cfg, s) && x < |s.links|
    requires i < |s.links[x].box.accepted| && s.links[x].box.accepted[i] == HungUp(c)
    requires j < |s.links[x].box.accepted| && s.links[x].box.accepted[j] == PeerLeft(c)
    ensures i < j
  {
    ReachableIsSound(cfg, s);
    assert HangupFirst(s.links[x].box.accepted);
  }

  /**
   The delayed deletion is final: everyone current in the room at that moment is dead for good, and
   in every later state the room is absent and any Join to it is told so.
   */
  lemma DeletionIsFinal(cfg: Config, s: State, doom: Doom, steps: seq<Step>, req: JoinRequest)
    requires Reachable(cfg, s) && Enabled(s, DeleteRoom(doom))
    requires Legal(cfg, Next(cfg, s, DeleteRoom(doom)), steps)
    requires req.room == doom.room
    ensures var s' := Exec(cfg, Next(cfg, s, DeleteRoom(doom)), steps);
            && |s.links| <= |s'.links|
            && (forall c :: 0 <= c < |s.links| && s.links[c].place.room == doom.room && Current(s, c) ==>
                  s'.links[c].box.dead && !Current(s', c))
            && doom.room !in s'.rooms
            && Join(cfg, s'.rooms, s'.now, req, |s'.links|) == (Refused(RoomNotFound, 0), s'.rooms)
  {
    var m := Next(cfg, s, DeleteRoom(doom));
    var s' := Exec(cfg, m, steps);
    ReachableIsSound(cfg, s);
    StepKeepsSound(cfg, s, DeleteRoom(doom));
    RunEvolves(cfg, m, steps);
    assert doom.room in m.used && doom.room !in m.rooms;
    forall c | 0 <= c < |s.links| && s.links[c].place.room == doom.room && Current(s, c)
      ensures s'.links[c].box.dead && !Current(s', c)
    {
      DeletionKills(cfg, s, doom, c);
      assert ConnFollows(m, s', c);
    }
  }

  lemma DeletionKills(cfg: Config, s: State, doom: Doom, c: Conn)
    requires Enabled(s, DeleteRoom(doom)) && c < |s.links| && s.links[c].place.room == doom.room && Current(s, c)
    ensures var m := Next(cfg, s, DeleteRoom(doom));
            c < |m.links| && m.links[c].box.dead && !Current(m, c)
  {
    var gone := s.rooms.Keys - (s.rooms - {doom.room}).Keys;
    assert doom.room in gone && s.rooms[doom.room].peers[s.links[c].place.id] == c;
    assert c in Occupants(s.rooms, gone);
  }

  // ---- The grace window ----

  /** What one step can do to a room: each kind of step on its own. */
  lemma CollectedFate(cfg: Config, s: State, step: Step, room: RoomId)
    requires Enabled(s, step) && room in s.rooms && room in s.used && (step.CreateRoom? || step.Sweep?)
    ensures var s' := Next(cfg, s, step);
            if room in s'.rooms then s'.rooms[room] == s.rooms[room]
            else Collectable(cfg, s.rooms[room], s.now)
  {
    hide Occupants, KillAll;
  }

  lemma JoinFate(cfg: Config, s: State, req: JoinRequest, room: RoomId)
    requires Enabled(s, JoinRoom(req)) && room in s.rooms
    ensures var s' := Next(cfg, s, JoinRoom(req));
            if room !in s'.rooms then s.now >= s.rooms[room].expiresAt
            else if room != req.room then s'.rooms[room] == s.rooms[room]
            else
              && s'.rooms[room] == Admit(cfg, s.rooms[room], req, |s.links|).1
              && Join(cfg, s.rooms, s.now, req, |s.links|).0 == Admit(cfg, s.rooms[room], req, |s.links|).0
  {
    hide Admit;
  }

  lemma LeaveFate(cfg: Config, s: State, c: Conn, room: RoomId)
    requires Enabled(s, LeaveRoom(c)) && room in s.rooms
    ensures var s' := Next(cfg, s, LeaveRoom(c));
            && room in s'.rooms
            && (s'.rooms[room] == s.rooms[room]
                || (s.links[c].place.id in s.rooms[room].peers
                    && s'.rooms[room] == Vacate(s.rooms[room], s.links[c].place.id, s.now)))
  {
    hide Vacate;
  }

  lemma OtherFate(cfg: Config, s: State, step: Step, room: RoomId)
    requires Enabled(s, step) && room in s.rooms && (Local(step) || step.DeleteRoom?)
    ensures var s' := Next(cfg, s, step);
            if room in s'.rooms then s'.rooms[room] == s.rooms[room]
            else step.DeleteRoom? && step.doom.room == room
  {
    if Local(step) {
      LocalSteps(cfg, s, step);
    }
    hide Occupants, KillAll, Snapshot, Push, Pump, AfterProbe, AfterFanout, AfterMessage;
  }

  lemma ExpiredIsCollectable(cfg: Config, room: Room<Conn>, now: Time)
    ensures now >= room.expiresAt ==> Collectable(cfg, room, now)
  {
  }

  lemma KnownRoom(cfg: Config, s: State, room: RoomId)
    requires Sound(cfg, s) && room in s.rooms
    ensures room in s.used && TwoParties(s.rooms[room])
  {
    hide TwoParties;
  }

  /** The room is deleted on a hangup, expired, or empty for long enough. */
  ghost predicate Due(cfg: Config, s: State, step: Step, room: RoomId)
    requires room in s.rooms
  {
    (step.DeleteRoom? && step.doom.room == room) || Collectable(cfg, s.rooms[room], s.now)
  }

  lemma FateOfCollected(cfg: Config, s: State, step: Step, room: RoomId)
    requires Enabled(s, step) && room in s.rooms && room in s.used && (step.CreateRoom? || step.Sweep?)
    requires room !in Next(cfg, s, step).rooms
    ensures Due(cfg, s, step, room)
  {
    hide Next, Enabled, Collectable;
    CollectedFate(cfg, s, step, room);
  }

  lemma FateOnJoin(cfg: Config, s: State, req: JoinRequest, room: RoomId)
    requires Enabled(s, JoinRoom(req)) && room in s.rooms
    requires room !in Next(cfg, s, JoinRoom(req)).rooms
    ensures Due(cfg, s, JoinRoom(req), room)
  {
    hide Next, Enabled, Admit, Collectable;
    JoinFate(cfg, s, req, room);
    ExpiredIsCollectable(cfg, s.rooms[room], s.now);
  }

  lemma Fate(cfg: Config, s: State, step: Step, room: RoomId)
    requires Sound(cfg, s) && Enabled(s, step) && room in s.rooms && room !in Next(cfg, s, step).rooms
    ensures Due(cfg, s, step, room)
  {
    hide Next, Enabled, Sound, Collectable, Vacate;
    KnownRoom(cfg, s, room);
    match step
    case CreateRoom(_, _, _) => FateOfCollected(cfg, s, step, room);
    case Sweep => FateOfCollected(cfg, s, step, room);
    case JoinRoom(req) => FateOnJoin(cfg, s, req, room);
    case LeaveRoom(c) => LeaveFate(cfg, s, c, room);
    case _ => OtherFate(cfg, s, step, room);
  }

  /** Why a room disappears: a hangup's deletion, its expiry, or the grace period after emptying. */
  lemma RemovalHasCause(cfg: Config, s: State, step: Step, room: RoomId)
    requires Reachable(cfg, s) && Enabled(s, step)
    requires room in s.rooms && room !in Next(cfg, s, step).rooms
    ensures || (step.DeleteRoom? && step.doom.room == room)
            || s.now >= s.rooms[room].expiresAt
            || (s.rooms[room].emptySince.Some? && |s.rooms[room].peers| == 0
                && s.now >= s.rooms[room].emptySince.value + cfg.emptyGrace)
  {
    ReachableIsSound(cfg, s);
    assert TwoParties(s.rooms[room]);
    hide Next, Sound;
    Fate(cfg, s, step, room);
  }

  /** The stamp is the moment at which the room became empty. */
  lemma EmptyStampIsExact(cfg: Config, s: State, step: Step, room: RoomId)
    requires Reachable(cfg, s) && Enabled(s, step)
    requires room in s.rooms && room in Next(cfg, s, step).rooms
    requires |s.rooms[room].peers| > 0 && |Next(cfg, s, step).rooms[room].peers| == 0
    ensures Next(cfg, s, step).rooms[room].emptySince == Some(s.now)
  {
    ReachableIsSound(cfg, s);
    assert TwoParties(s.rooms[room]) && room in s.used;
    hide Next, Sound, Admit;
    match step
    case CreateRoom(_, _, _) => CollectedFate(cfg, s, step, room);
    case Sweep => CollectedFate(cfg, s, step, room);
    case JoinRoom(req) =>
      JoinFate(cfg, s, req, room);
      if req.room == room {
        AdmissionFills(cfg, s.rooms[room], req, |s.links|);
      }
    case LeaveRoom(c) =>
      LeaveFate(cfg, s, c, room);
      assert |s.rooms[room].roles| > 0 by {
        SubsetSize(s.rooms[room].peers.Keys, s.rooms[room].roles.Keys);
      }
    case _ => OtherFate(cfg, s, step, room);
  }

  lemma AdmissionFills(cfg: Config, room: Room<Conn>, req: JoinRequest, c: Conn)
    requires TwoParties(room)
    ensures |Admit(cfg, room, req, c).1.peers| >= |room.peers|
  {
    AdmitSeats(cfg, room, req, c);
    SubsetSize(room.peers.Keys, Admit(cfg, room, req, c).1.peers.Keys);
  }

  /** No step of the run admits anybody to the room or deletes it on a hangup. */
  ghost predicate Undisturbed(cfg: Config, s: State, steps: seq<Step>, room: RoomId)
    requires Legal(cfg, s, steps)
    decreases |steps|
  {
    steps == [] ||
    (&& !Disturbs(cfg, s, steps[0], room)
     && Undisturbed(cfg, Next(cfg, s, steps[0]), steps[1..], room))
  }

  ghost predicate Disturbs(cfg: Config, s: State, step: Step, room: RoomId) {
    match step
    case JoinRoom(req) => req.room == room && Join(cfg, s.rooms, s.now, req, |s.links|).0.Joined?
    case DeleteRoom(doom) => doom.room == room
    case _ => false
  }

  lemma DormantStep(cfg: Config, s: State, step: Step, room: RoomId)
    requires Sound(cfg, s) && Enabled(s, step) && !Disturbs(cfg, s, step, room)
    requires room in s.rooms && s.rooms[room].emptySince.Some?
    ensures var s' := Next(cfg, s, step);
            if room in s'.rooms then s'.rooms[room] == s.rooms[room]
            else s.now >= s.rooms[room].expiresAt || s.now >= s.rooms[room].emptySince.value + cfg.emptyGrace
  {
    assert TwoParties(s.rooms[room]) && room in s.used;
    assert |s.rooms[room].peers| == 0;
    hide Next, Sound, TwoParties, Admit, Vacate;
    match step
    case CreateRoom(_, _, _) => CollectedFate(cfg, s, step, room);
    case Sweep => CollectedFate(cfg, s, step, room);
    case JoinRoom(req) =>
      JoinFate(cfg, s, req, room);
      AdmitKeepsRoom(cfg, s.rooms[room], req, |s.links|);
    case LeaveRoom(c) => LeaveFate(cfg, s, c, room);
    case _ => OtherFate(cfg, s, step, room);
  }

  /** Induction over the run of an emptied room. */
  lemma {:induction false} DormantRun(cfg: Config, s: State, steps: seq<Step>, room: RoomId)
    requires Sound(cfg, s) && Legal(cfg, s, steps) && Undisturbed(cfg, s, steps, room)
    requires room in s.rooms && s.rooms[room].emptySince.Some?
    ensures Survives(cfg, s.rooms[room], Exec(cfg, s, steps), room)
    decreases |steps|
  {
    if steps == [] {
      LastSweep(cfg, s, room);
    } else {
      var m := Next(cfg, s, steps[0]);
      DormantStep(cfg, s, steps[0], room);
      StepKeepsSound(cfg, s, steps[0]);
      if room in m.rooms {
        hide Next, Sound, Disturbs, Survives;
        DormantRun(cfg, m, steps[1..], room);
      } else {
        StepEvolves(cfg, s, steps[0]);
        RunEvolves(cfg, m, steps[1..]);
        assert room in s.used;
        assert s.now <= m.now <= Exec(cfg, s, steps).now;
        hide Next, Sound, Evolves;
        LastSweep(cfg, Exec(cfg, s, steps), room);
      }
    }
  }

  /** What an undisturbed empty room was, it is, until its grace or its expiry is over. */
  ghost predicate Survives(cfg: Config, was: Room<Conn>, s: State, room: RoomId)
    requires was.emptySince.Some?
  {
    var end := was.emptySince.value + cfg.emptyGrace;
    && (room in s.rooms ==> s.rooms[room] == was)
    && (s.now < end && s.now < was.expiresAt ==> room in s.rooms)
    && (s.now >= end ==> room !in Next(cfg, s, Sweep).rooms)
  }

  lemma LastSweep(cfg: Config, s: State, room: RoomId)
    ensures room in Next(cfg, s, Sweep).rooms <==> room in s.rooms && !Collectable(cfg, s.rooms[room], s.now)
  {
  }

  /**
   An emptied room, as long as nobody is admitted and no hangup deletes it: while it exists it does
   not change; before its grace and its expiry are over it exists; and the first sweep after the
   grace removes it.
   */
  lemma GraceWindow(cfg: Config, s: State, steps: seq<Step>, room: RoomId)
    requires Reachable(cfg, s) && Legal(cfg, s, steps) && Undisturbed(cfg, s, steps, room)
    requires room in s.rooms && s.rooms[room].emptySince.Some?
    ensures var s' := Exec(cfg, s, steps);
            var end := s.rooms[room].emptySince.value + cfg.emptyGrace;
            && (room in s'.rooms ==> s'.rooms[room] == s.rooms[room])
            && (s'.now < end && s'.now < s.rooms[room].expiresAt ==> room in s'.rooms)
            && (s'.now >= end ==> room !in Next(cfg, s', Sweep).rooms)
  {
    ReachableIsSound(cfg, s);
    DormantRun(cfg, s, steps, room);
  }

  // ---- Capacity ----

  /**
   With a positive bound, no reachable state has more rooms than that; and a Create is refused
   exactly when that many rooms are live at its clock reading.
   */
  lemma Capacity(cfg: Config, s: State, stamp: Time, id: RoomId, secret: string)
    requires Reachable(cfg, s) && cfg.maxRooms > 0 && Enabled(s, CreateRoom(stamp, id, secret))
    ensures |s.rooms| <= cfg.maxRooms
    ensures var (ok, _) := Create(cfg, s.rooms, stamp, id, secret);
            !ok <==> |set r | r in s.rooms && !Collectable(cfg, s.rooms[r], stamp)| >= cfg.maxRooms
  {
    ReachableIsSound(cfg, s);
    assert forall r :: r in s.rooms ==> r in s.used;
    CreateRespectsCapacity(cfg, s.rooms, stamp, id, secret);
  }
}
