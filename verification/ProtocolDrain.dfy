/**
 Between a hangup and the deletion of its room (internal/signaling/handler.go:134-142): for two
 seconds everybody who hears of the hangup still finds the room.
 */
module ProtocolDrain {
  import opened Wrappers
  import opened Rooms
  import opened Mailbox
  import opened Protocol
  import opened ProtocolRuns
  import opened ProtocolTheorems

  /** The room is there, has not been empty since before `t`, and no deletion of it is due within the drain. */
  ghost predicate Standing(s: State, room: RoomId, t: Time) {
    && room in s.rooms && t <= s.now
    && (s.rooms[room].emptySince.Some? ==> s.rooms[room].emptySince.value >= t)
    && DoomsLater(s, room, t)
  }

  ghost predicate DoomsLater(s: State, room: RoomId, t: Time) {
    forall d :: d in s.doomed && d.room == room ==> d.due >= t + HANGUP_DRAIN
  }

  /** A moment within the drain and the grace of something that happens at `t`, and before the expiry. */
  predicate Within(cfg: Config, room: Room<Conn>, t: Time, now: Time) {
    now < t + HANGUP_DRAIN && now < t + cfg.emptyGrace && now < room.expiresAt
  }

  lemma NothingIsDue(cfg: Config, s: State, step: Step, room: RoomId, t: Time)
    requires Enabled(s, step) && Standing(s, room, t) && Within(cfg, s.rooms[room], t, s.now)
    ensures !Due(cfg, s, step, room)
  {
    hide HANGUP_DRAIN;
  }

  lemma StepKeepsDoomsLater(cfg: Config, s: State, step: Step, room: RoomId, t: Time)
    requires Enabled(s, step) && DoomsLater(s, room, t) && t <= s.now
    ensures DoomsLater(Next(cfg, s, step), room, t)
  {
    hide Create, Evict, Occupants, Join, Leave, Snapshot, Push, Pump;
  }

  lemma AdmittedStamp(cfg: Config, room: Room<Conn>, req: JoinRequest, c: Conn)
    ensures var later := Admit(cfg, room, req, c).1; later.emptySince == room.emptySince || later.emptySince.None?
  {
  }

  /** A stamp is never older than the step that sets it. */
  lemma StampIsNow(cfg: Config, s: State, step: Step, room: RoomId)
    requires Sound(cfg, s) && Enabled(s, step) && room in s.rooms && room in Next(cfg, s, step).rooms
    ensures var later := Next(cfg, s, step).rooms[room].emptySince;
            later == s.rooms[room].emptySince || later.None? || later == Some(s.now)
  {
    KnownRoom(cfg, s, room);
    hide Next, Enabled, Sound, Admit;
    match step
    case CreateRoom(_, _, _) => CollectedFate(cfg, s, step, room);
    case Sweep => CollectedFate(cfg, s, step, room);
    case JoinRoom(req) =>
      JoinFate(cfg, s, req, room);
      AdmittedStamp(cfg, s.rooms[room], req, |s.links|);
    case LeaveRoom(c) => LeaveFate(cfg, s, c, room);
    case _ => OtherFate(cfg, s, step, room);
  }

  lemma StandingStep(cfg: Config, s: State, step: Step, room: RoomId, t: Time)
    requires Sound(cfg, s) && Enabled(s, step) && Standing(s, room, t) && Within(cfg, s.rooms[room], t, s.now)
    ensures Standing(Next(cfg, s, step), room, t)
    ensures Next(cfg, s, step).rooms[room].expiresAt == s.rooms[room].expiresAt
  {
    var s' := Next(cfg, s, step);
    NothingIsDue(cfg, s, step, room, t);
    StepKeepsDoomsLater(cfg, s, step, room, t);
    StepEvolves(cfg, s, step);
    hide Next, Sound, Enabled, Due, DoomsLater, Within, HANGUP_DRAIN;
    if room !in s'.rooms {
      Fate(cfg, s, step, room);
    }
    StampIsNow(cfg, s, step, room);
  }

  lemma {:induction false} StandingRun(cfg: Config, s: State, steps: seq<Step>, room: RoomId, t: Time)
    requires Sound(cfg, s) && Legal(cfg, s, steps) && Standing(s, room, t)
    requires Within(cfg, s.rooms[room], t, Exec(cfg, s, steps).now)
    ensures room in Exec(cfg, s, steps).rooms
    decreases |steps|
  {
    if steps == [] {
    } else {
      var m := Next(cfg, s, steps[0]);
      NowNeverFalls(cfg, s, steps);
      Stands(s, room, t);
      hide Next, Sound, Enabled, Standing, Within;
      EarlierIsWithin(cfg, s.rooms[room], t, s.now, Exec(cfg, s, steps).now);
      StepKeepsSound(cfg, s, steps[0]);
      StandingStep(cfg, s, steps[0], room, t);
      Stands(m, room, t);
      SameExpiry(cfg, s.rooms[room], m.rooms[room], t, Exec(cfg, s, steps).now);
      StandingRun(cfg, m, steps[1..], room, t);
    }
  }

  lemma EarlierIsWithin(cfg: Config, room: Room<Conn>, t: Time, now: Time, later: Time)
    requires now <= later && Within(cfg, room, t, later)
    ensures Within(cfg, room, t, now)
  {
  }

  lemma SameExpiry(cfg: Config, room: Room<Conn>, later: Room<Conn>, t: Time, now: Time)
    requires later.expiresAt == room.expiresAt && Within(cfg, room, t, now)
    ensures Within(cfg, later, t, now)
  {
  }

  lemma Stands(s: State, room: RoomId, t: Time)
    requires Standing(s, room, t)
    ensures room in s.rooms
  {
  }

  lemma NowNeverFalls(cfg: Config, s: State, steps: seq<Step>)
    requires Sound(cfg, s) && Legal(cfg, s, steps)
    ensures s.now <= Exec(cfg, s, steps).now
  {
    hide Sound;
    RunEvolves(cfg, s, steps);
  }

  lemma HangupKeepsRooms(cfg: Config, s: State, c: Conn)
    requires Enabled(s, Handle(c, HangUp))
    ensures var m := Next(cfg, s, Handle(c, HangUp)); m.rooms == s.rooms && m.now == s.now && m.doomed == s.doomed
  {
  }

  lemma StandingFromNow(s: State, m: State, room: RoomId)
    requires m.rooms == s.rooms && m.now == s.now && m.doomed == s.doomed
    requires room in s.rooms && s.rooms[room].emptySince.None? && forall d :: d in s.doomed ==> d.room != room
    ensures Standing(m, room, s.now)
  {
  }

  /**
   A hangup in a room with somebody in it, on which no earlier hangup's deletion is coming: until two
   seconds later, the grace period and the expiry permitting, the room is there after any run, and so
   for everybody who hears of the hangup by then.
   */
  lemma HangupLeavesTheRoom(cfg: Config, s: State, c: Conn, steps: seq<Step>)
    requires Reachable(cfg, s) && Enabled(s, Handle(c, HangUp)) && c < |s.links|
    requires Legal(cfg, Next(cfg, s, Handle(c, HangUp)), steps)
    requires var room := s.links[c].place.room;
             && room in s.rooms && |s.rooms[room].peers| > 0 && (forall d :: d in s.doomed ==> d.room != room)
             && Within(cfg, s.rooms[room], s.now, Exec(cfg, Next(cfg, s, Handle(c, HangUp)), steps).now)
    ensures s.links[c].place.room in Exec(cfg, Next(cfg, s, Handle(c, HangUp)), steps).rooms
  {
    var room := s.links[c].place.room;
    ReachableIsSound(cfg, s);
    assert TwoParties(s.rooms[room]);
    var m := Next(cfg, s, Handle(c, HangUp));
    HangupKeepsRooms(cfg, s, c);
    hide Next, Sound, Enabled, Within;
    StepKeepsSound(cfg, s, Handle(c, HangUp));
    StandingFromNow(s, m, room);
    StandingRun(cfg, m, steps, room, s.now);
  }
}
