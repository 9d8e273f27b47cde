/**
 The signaling protocol as a transition system (internal/signaling/handler.go over
 internal/rooms/manager.go). Every critical section of the room manager, each of the two selects of
 an Enqueue, each pump receive and each clock tick is one step, so a run is any interleaving of
 them. A connection is a number, given out in the order of successful joins; that order stands for
 the identity of the `*Peer` pointer.
 */
module Protocol {
  import opened Wrappers
  import opened Rooms
  import opened Mailbox

  type Conn = nat

  /** Delay between a hangup and the deletion of the room. */
  const HANGUP_DRAIN: Time := 2_000_000_000

  /**
   Messages as queued. `sender` names the handler whose broadcast queued the message, `nth` tells its
   relayed messages apart; neither is part of what travels.
   */
  datatype Payload =
    | Welcome(role: Role, participants: nat, token: Token)
    | PeerReady(sender: Conn)
    | PeerLeft(sender: Conn)
    | HungUp(sender: Conn)
    | Relayed(sender: Conn, nth: nat, body: string)
    | Reply(body: string)

  /** What a handler does once its current fan-out is over. */
  datatype After = AfterWelcome | AfterReady | AfterRelay | AfterReply | AfterHangup | AfterLeft

  datatype Pc =
    | Fanout(targets: set<Conn>, probed: Option<Conn>, payload: Payload, sent: nat, after: After)
    | ReadyDue
    | Reading
    | Checked
    | Leaving
    | LeftDue
    | Done

  /** Where a connection sits: fixed by its Join. */
  datatype Place = Place(room: RoomId, id: ClientId, role: Role, participants: nat)

  /**
   One accepted connection and its handler. `relayed` counts the client messages it has broadcast;
   `left` records that its own Leave removed it from the room.
   */
  datatype Link = Link(place: Place, pc: Pc, box: Mailbox<Payload>, relayed: nat, left: bool)

  datatype Doom = Doom(room: RoomId, due: Time)

  /** `used` holds every room ID ever drawn, so that IDs are never reused. */
  datatype State = State(
    now: Time, rooms: Directory<Conn>, used: set<RoomId>, links: seq<Link>, doomed: set<Doom>)

  /** How the handler classifies a message read from a socket. */
  datatype Incoming = BadJson | Ping | HangUp | Rejected | Signal(body: string)

  datatype Step =
    | Tick(now: Time)
    | CreateRoom(stamp: Time, id: RoomId, secret: string)
    | JoinRoom(req: JoinRequest)
    | Sweep
    | DeleteRoom(doom: Doom)
    | Probing(c: Conn, target: Conn)
    | Pushing(c: Conn)
    | Finish(c: Conn)
    | SnapReady(c: Conn)
    | ReadFails(c: Conn)
    | ReadArrives(c: Conn)
    | Handle(c: Conn, msg: Incoming)
    | LeaveRoom(c: Conn)
    | SnapLeft(c: Conn)
    | PumpTake(c: Conn, ok: bool)
    | PumpStop(c: Conn)

  const INIT := State(0, map[], {}, [], {})

  // ---- Steps ----

  predicate Enabled(s: State, step: Step) {
    match step
    case Tick(now) => s.now <= now
    case CreateRoom(stamp, id, _) => stamp <= s.now && id !in s.used
    case JoinRoom(req) =>
      req.id != "" && (req.minted.Some? ==> |req.minted.value| > 0)
    case Sweep => true
    case DeleteRoom(doom) => doom in s.doomed && s.now >= doom.due
    case Probing(c, target) =>
      At(s, c).Fanout? && At(s, c).probed.None? && target in At(s, c).targets && target < |s.links|
    case Pushing(c) => At(s, c).Fanout? && At(s, c).probed.Some? && At(s, c).probed.value < |s.links|
    case Finish(c) => c < |s.links| && At(s, c).Fanout? && At(s, c).probed.None? && At(s, c).targets == {}
    case SnapReady(c) => At(s, c).ReadyDue?
    case ReadFails(c) => At(s, c).Reading?
    case ReadArrives(c) => At(s, c).Reading?
    case Handle(c, _) => At(s, c).Checked?
    case LeaveRoom(c) => At(s, c).Leaving?
    case SnapLeft(c) => At(s, c).LeftDue?
    case PumpTake(c, _) => c < |s.links| && s.links[c].box.pumping && |s.links[c].box.queue| > 0
    case PumpStop(c) => c < |s.links|
  }

  function At(s: State, c: Conn): Pc {
    if c < |s.links| then s.links[c].pc else Done
  }

  function Broadcast(targets: set<Conn>, payload: Payload, after: After): Pc {
    Fanout(targets, None, payload, 0, after)
  }

  function WithPc(s: State, c: Conn, pc: Pc): State
    requires c < |s.links|
  {
    s.(links := s.links[c := s.links[c].(pc := pc)])
  }

  function WithBox(s: State, c: Conn, box: Mailbox<Payload>): State
    requires c < |s.links|
  {
    s.(links := s.links[c := s.links[c].(box := box)])
  }

  /** Kills the connections in `victims`. */
  function KillAll(links: seq<Link>, victims: set<Conn>): (r: seq<Link>)
    ensures |r| == |links|
    ensures forall c | 0 <= c < |links| ::
      r[c] == if c in victims then links[c].(box := Kill(links[c].box)) else links[c]
  {
    seq(|links|, c requires 0 <= c < |links| =>
      if c in victims then links[c].(box := Kill(links[c].box)) else links[c])
  }

  /** Replaces the directory, killing everybody in the rooms that disappear. */
  function Drop(s: State, rooms: Directory<Conn>): State {
    s.(rooms := rooms, links := KillAll(s.links, Occupants(s.rooms, s.rooms.Keys - rooms.Keys)))
  }

  function Next(cfg: Config, s: State, step: Step): State
    requires Enabled(s, step)
  {
    match step
    case Tick(now) => s.(now := now)
    case CreateRoom(stamp, id, secret) => AfterCreate(cfg, s, stamp, id, secret)
    case JoinRoom(req) => AfterJoin(cfg, s, req)
    case Sweep => Drop(s, Evict(cfg, s.rooms, s.now))
    case DeleteRoom(doom) => Drop(s, s.rooms - {doom.room}).(doomed := s.doomed - {doom})
    case Probing(c, target) => AfterProbe(s, c, target)
    case Pushing(c) => AfterPush(s, c)
    case Finish(c) => AfterFanout(s, c)
    case SnapReady(c) =>
      WithPc(s, c, Broadcast(Snapshot(s.rooms, s.links[c].place.room, ""), PeerReady(c), AfterReady))
    case ReadFails(c) => WithPc(s, c, Leaving)
    case ReadArrives(c) => WithPc(s, c, if Current(s, c) then Checked else Leaving)
    case Handle(c, msg) => AfterMessage(s, c, msg)
    case LeaveRoom(c) => AfterLeave(s, c)
    case SnapLeft(c) =>
      var place := s.links[c].place;
      WithPc(s, c, Broadcast(Snapshot(s.rooms, place.room, place.id), PeerLeft(c), AfterLeft))
    case PumpTake(c, ok) => WithBox(s, c, Pump(s.links[c].box, ok))
    case PumpStop(c) => WithBox(s, c, s.links[c].box.(pumping := false))
  }

  function AfterCreate(cfg: Config, s: State, stamp: Time, id: RoomId, secret: string): State {
    var (_, rooms) := Create(cfg, s.rooms, stamp, id, secret);
    Drop(s, rooms).(used := s.used + {id})
  }

  function AfterJoin(cfg: Config, s: State, req: JoinRequest): State {
    var c := |s.links|;
    var (reply, rooms) := Join(cfg, s.rooms, s.now, req, c);
    match reply
    case Refused(_, _) => s.(rooms := rooms)
    case Joined(role, participants, token) =>
      var place := Place(req.room, req.id, role, participants);
      var pc := Broadcast({c}, Welcome(role, participants, token), AfterWelcome);
      s.(rooms := rooms, links := s.links + [Link(place, pc, Fresh(), 0, false)])
  }

  function AfterProbe(s: State, c: Conn, target: Conn): State
    requires Enabled(s, Probing(c, target))
  {
    var (alive, box) := Probe(s.links[target].box);
    WithPc(WithBox(s, target, box), c, At(s, c).(
      targets := At(s, c).targets - {target}, probed := if alive then Some(target) else None))
  }

  function AfterPush(s: State, c: Conn): State
    requires Enabled(s, Pushing(c))
  {
    var target := At(s, c).probed.value;
    var (ok, box) := Push(s.links[target].box, At(s, c).payload);
    WithPc(WithBox(s, target, box), c, At(s, c).(
      probed := None, sent := At(s, c).sent + if ok then 1 else 0))
  }

  function AfterFanout(s: State, c: Conn): State
    requires Enabled(s, Finish(c))
  {
    var link := s.links[c];
    match link.pc.after
    case AfterWelcome => WithPc(s, c, if link.place.participants == 2 then ReadyDue else Reading)
    case AfterReady => WithPc(s, c, Reading)
    case AfterRelay =>
      WithPc(s, c, if link.pc.sent == 0 then Broadcast({c}, Reply("peer_unavailable"), AfterReply) else Reading)
    case AfterReply => WithPc(s, c, Reading)
    case AfterHangup => WithPc(s, c, Leaving).(doomed := s.doomed + {Doom(link.place.room, s.now + HANGUP_DRAIN)})
    case AfterLeft => WithPc(s, c, Done)
  }

  function AfterMessage(s: State, c: Conn, msg: Incoming): State
    requires Enabled(s, Handle(c, msg))
  {
    var link := s.links[c];
    var others := Snapshot(s.rooms, link.place.room, link.place.id);
    match msg
    case BadJson => WithPc(s, c, Broadcast({c}, Reply("bad_json"), AfterReply))
    case Ping => WithPc(s, c, Broadcast({c}, Reply("pong"), AfterReply))
    case Rejected => WithPc(s, c, Broadcast({c}, Reply("rejected"), AfterReply))
    case HangUp =>
      s.(links := s.links[c := link.(
        pc := Broadcast(others, HungUp(c), AfterHangup), relayed := link.relayed + 1)])
    case Signal(body) =>
      s.(links := s.links[c := link.(
        pc := Broadcast(others, Relayed(c, link.relayed, body), AfterRelay), relayed := link.relayed + 1)])
  }

  function AfterLeave(s: State, c: Conn): State
    requires Enabled(s, LeaveRoom(c))
  {
    var link := s.links[c];
    var (reply, rooms) := Leave(s.rooms, s.now, link.place.room, link.place.id, c);
    s.(rooms := rooms, links := s.links[c := link.(
      pc := if reply.removed && reply.remaining > 0 then LeftDue else Done,
      left := link.left || reply.removed)])
  }

  // ---- Runs ----

  /** `steps` can be taken one after another from `s`. */
  predicate Legal(cfg: Config, s: State, steps: seq<Step>)
    decreases |steps|
  {
    steps == [] || (Enabled(s, steps[0]) && Legal(cfg, Next(cfg, s, steps[0]), steps[1..]))
  }

  function Exec(cfg: Config, s: State, steps: seq<Step>): State
    requires Legal(cfg, s, steps)
    decreases |steps|
  {
    if steps == [] then s else Exec(cfg, Next(cfg, s, steps[0]), steps[1..])
  }

  /** The connection its client ID stands for in its room right now. */
  predicate Current(s: State, c: Conn) {
    c < |s.links| && IsCurrent(s.rooms, s.links[c].place.room, s.links[c].place.id, c)
  }
}
