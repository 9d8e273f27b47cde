/**
 Who gets in, over whole runs (internal/rooms/manager.go:107-197): every connection there ever was
 presented the secret its room was created with.
 */
module ProtocolEntry {
  import opened Rooms
  import opened Mailbox
  import opened Protocol
  import opened ProtocolRooms
  import opened ProtocolMessages
  import opened ProtocolIsolation
  import opened ProtocolRuns

  /** Step `j` is the one creation of the room in `past`. */
  ghost predicate Creation(past: seq<Step>, j: nat, room: RoomId) {
    && j < |past| && past[j].CreateRoom? && past[j].id == room
    && forall k :: 0 <= k < |past| && past[k].CreateRoom? && past[k].id == room ==> k == j
  }

  /** The room has the terms of its creation. */
  ghost predicate Founded(cfg: Config, past: seq<Step>, id: RoomId, room: Room<Conn>) {
    exists j: nat :: Creation(past, j, id) &&
                room.secretHash == cfg.hash(past[j].secret) && room.expiresAt == past[j].stamp + cfg.ttl
  }

  /** Somebody with this ID asked to join the room after its creation, with a secret of the same digest. */
  ghost predicate Entered(cfg: Config, past: seq<Step>, place: Place) {
    exists i: nat, j: nat ::
      Creation(past, j, place.room) && j < i < |past| && past[i].JoinRoom? &&
      past[i].req.room == place.room && past[i].req.id == place.id &&
      cfg.hash(past[i].req.secret) == cfg.hash(past[j].secret)
  }

  ghost predicate RoomsFounded(cfg: Config, s: State, past: seq<Step>) {
    forall r :: r in s.rooms ==> Founded(cfg, past, r, s.rooms[r])
  }

  ghost predicate LinksEntered(cfg: Config, s: State, past: seq<Step>) {
    forall c :: 0 <= c < |s.links| ==> Entered(cfg, past, s.links[c].place)
  }

  ghost predicate IdsUsed(s: State, past: seq<Step>) {
    forall k :: 0 <= k < |past| && past[k].CreateRoom? ==> past[k].id in s.used
  }

  ghost predicate History(cfg: Config, s: State, past: seq<Step>) {
    RoomsFounded(cfg, s, past) && LinksEntered(cfg, s, past) && IdsUsed(s, past)
  }

  // ---- A step further ----

  lemma CreationStays(s: State, past: seq<Step>, step: Step, j: nat, room: RoomId)
    requires Enabled(s, step) && IdsUsed(s, past) && Creation(past, j, room)
    ensures Creation(past + [step], j, room)
  {
    assert room in s.used;
    assert (past + [step])[j] == past[j];
    hide Enabled;
    NewIdIsNew(s, step);
  }

  lemma NewIdIsNew(s: State, step: Step)
    requires Enabled(s, step)
    ensures step.CreateRoom? ==> step.id !in s.used
  {
  }

  lemma FirstCreation(s: State, past: seq<Step>, step: Step)
    requires Enabled(s, step) && IdsUsed(s, past) && step.CreateRoom?
    ensures Creation(past + [step], |past|, step.id)
  {
    NewIdIsNew(s, step);
    hide Enabled;
    var all := past + [step];
    assert all[|past|] == step;
    assert forall k :: 0 <= k < |past| ==> all[k] == past[k];
    forall k | 0 <= k < |all| && all[k].CreateRoom? && all[k].id == step.id ensures k == |past| {
    }
  }

  lemma FoundedStays(
    cfg: Config, s: State, past: seq<Step>, step: Step, id: RoomId, room: Room<Conn>, later: Room<Conn>)
    requires Enabled(s, step) && IdsUsed(s, past) && Founded(cfg, past, id, room) && SeatsKept(room, later)
    ensures Founded(cfg, past + [step], id, later)
  {
    var j: nat :| Creation(past, j, id) &&
             room.secretHash == cfg.hash(past[j].secret) && room.expiresAt == past[j].stamp + cfg.ttl;
    CreationStays(s, past, step, j, id);
    assert (past + [step])[j] == past[j];
    hide Creation, Enabled;
  }

  lemma EnteredStays(cfg: Config, s: State, past: seq<Step>, step: Step, place: Place)
    requires Enabled(s, step) && IdsUsed(s, past) && Entered(cfg, past, place)
    ensures Entered(cfg, past + [step], place)
  {
    var i: nat, j: nat :| Creation(past, j, place.room) && j < i < |past| && past[i].JoinRoom? &&
                past[i].req.room == place.room && past[i].req.id == place.id &&
                cfg.hash(past[i].req.secret) == cfg.hash(past[j].secret);
    CreationStays(s, past, step, j, place.room);
    assert (past + [step])[j] == past[j] && (past + [step])[i] == past[i];
    hide Creation, Enabled;
  }

  /** Only a creation adds a room. */
  lemma NewRoomIsCreated(cfg: Config, s: State, step: Step, r: RoomId)
    requires Enabled(s, step) && r !in s.rooms && r in Next(cfg, s, step).rooms
    ensures step.CreateRoom? && r == step.id
    ensures var room := Next(cfg, s, step).rooms[r];
            room.secretHash == cfg.hash(step.secret) && room.expiresAt == step.stamp + cfg.ttl
  {
    if !step.CreateRoom? {
      OnlyCreateAddsRooms(cfg, s, step);
    }
    hide Occupants, KillAll, AfterJoin, AfterLeave, AfterMessage, AfterFanout, AfterProbe, AfterPush, Pump, Snapshot;
  }

  lemma StepFounds(cfg: Config, s: State, step: Step, past: seq<Step>)
    requires Sound(cfg, s) && Enabled(s, step) && RoomsFounded(cfg, s, past) && IdsUsed(s, past)
    ensures RoomsFounded(cfg, Next(cfg, s, step), past + [step])
  {
    var s' := Next(cfg, s, step);
    StepRooms(cfg, s, step) by { assert RoomsOk(s); }
    hide Next, Sound, Enabled, IdsUsed, Founded, TwoParties, SeatsKept;
    forall r | r in s'.rooms ensures Founded(cfg, past + [step], r, s'.rooms[r]) {
      assert RoomFollows(s, s', r);
      if r in s.rooms {
        FoundedStays(cfg, s, past, step, r, s.rooms[r], s'.rooms[r]);
      } else {
        NewRoomIsCreated(cfg, s, step, r);
        FirstCreation(s, past, step);
        FoundedNow(cfg, past, step, s'.rooms[r]);
      }
    }
  }

  lemma FoundedNow(cfg: Config, past: seq<Step>, step: Step, room: Room<Conn>)
    requires step.CreateRoom? && Creation(past + [step], |past|, step.id)
    requires room.secretHash == cfg.hash(step.secret) && room.expiresAt == step.stamp + cfg.ttl
    ensures Founded(cfg, past + [step], step.id, room)
  {
    hide Creation;
    assert (past + [step])[|past|] == step;
  }

  /** A connection is only ever added by a request with the secret of the room. */
  lemma NewcomerKnew(cfg: Config, s: State, step: Step)
    requires Enabled(s, step) && |Next(cfg, s, step).links| == |s.links| + 1
    ensures step.JoinRoom?
    ensures var place := Next(cfg, s, step).links[|s.links|].place;
            && place.room == step.req.room && place.id == step.req.id
            && place.room in s.rooms && cfg.hash(step.req.secret) == s.rooms[place.room].secretHash
  {
    if step.JoinRoom? {
      SecretIsNeeded(cfg, s.rooms, s.now, step.req, |s.links|);
    }
    hide Create, Evict, Occupants, Leave, Snapshot, Push, Pump, Join;
  }

  lemma EnteredNow(cfg: Config, s: State, past: seq<Step>, step: Step, place: Place)
    requires Enabled(s, step) && IdsUsed(s, past) && step.JoinRoom?
    requires place.room == step.req.room && place.id == step.req.id && place.room in s.rooms
    requires Founded(cfg, past, place.room, s.rooms[place.room])
    requires cfg.hash(step.req.secret) == s.rooms[place.room].secretHash
    ensures Entered(cfg, past + [step], place)
  {
    var j: nat :| Creation(past, j, place.room) &&
             s.rooms[place.room].secretHash == cfg.hash(past[j].secret) &&
             s.rooms[place.room].expiresAt == past[j].stamp + cfg.ttl;
    CreationStays(s, past, step, j, place.room);
    var all := past + [step];
    assert all[j] == past[j] && all[|past|] == step && j < |past| < |all|;
    hide Creation, Enabled;
  }

  lemma StepEnters(cfg: Config, s: State, step: Step, past: seq<Step>)
    requires Sound(cfg, s) && Enabled(s, step) && History(cfg, s, past)
    ensures LinksEntered(cfg, Next(cfg, s, step), past + [step])
  {
    var s' := Next(cfg, s, step);
    StepLinks(cfg, s, step) by { assert RoomsOk(s) && Boxes(s); }
    LinkCount(s, s');
    hide Next, Sound, Enabled, IdsUsed, Founded, Entered, NewcomerOk;
    forall c | 0 <= c < |s'.links| ensures Entered(cfg, past + [step], s'.links[c].place) {
      if c < |s.links| {
        PlaceStays(s, s', c);
        EnteredStays(cfg, s, past, step, s.links[c].place);
      } else {
        NewcomerKnew(cfg, s, step);
        EnteredNow(cfg, s, past, step, s'.links[c].place);
      }
    }
  }

  lemma StepUses(cfg: Config, s: State, step: Step, past: seq<Step>)
    requires Enabled(s, step) && IdsUsed(s, past)
    ensures IdsUsed(Next(cfg, s, step), past + [step])
  {
    UsedGrows(cfg, s, step);
    hide Next, Enabled;
  }

  lemma UsedGrows(cfg: Config, s: State, step: Step)
    requires Enabled(s, step)
    ensures Next(cfg, s, step).used == s.used + if step.CreateRoom? then {step.id} else {}
  {
    assert s.used + {} == s.used;
    hide Create, Evict, Occupants, Join, Leave, Snapshot, Push, Pump;
  }

  lemma {:induction false} RunKeepsHistory(cfg: Config, s: State, past: seq<Step>, steps: seq<Step>)
    requires Sound(cfg, s) && Legal(cfg, s, steps) && History(cfg, s, past)
    ensures History(cfg, Exec(cfg, s, steps), past + steps)
    decreases |steps|
  {
    if steps == [] {
      assert past + [] == past;
    } else {
      StepFounds(cfg, s, steps[0], past);
      StepEnters(cfg, s, steps[0], past);
      StepUses(cfg, s, steps[0], past);
      assert History(cfg, Next(cfg, s, steps[0]), past + [steps[0]]);
      hide Sound, History, Next, Enabled;
      StepKeepsSound(cfg, s, steps[0]);
      RunKeepsHistory(cfg, Next(cfg, s, steps[0]), past + [steps[0]], steps[1..]);
      assert past + [steps[0]] + steps[1..] == past + steps;
    }
  }

  /**
   In any run, every connection was added by a request for its room and ID whose secret has the digest
   of the secret given to the one creation of that room, which came before; and every room has the
   digest and the expiry of its creation.
   */
  lemma EverybodyKnewTheSecret(cfg: Config, steps: seq<Step>)
    requires Legal(cfg, INIT, steps)
    ensures var s := Exec(cfg, INIT, steps);
            && (forall c :: 0 <= c < |s.links| ==> Entered(cfg, steps, s.links[c].place))
            && (forall r :: r in s.rooms ==> Founded(cfg, steps, r, s.rooms[r]))
  {
    InitSound(cfg);
    RunKeepsHistory(cfg, INIT, [], steps);
    assert [] + steps == steps;
    hide Next, Enabled;
  }
}
