/**
 One run that contradicts two comments of the program: x is alone in a room and reads from its socket,
 y joins, and before y is welcomed, x relays a message or hangs up.
 */
module ProtocolExamples {
  import opened Wrappers
  import opened Rooms
  import opened Mailbox
  import opened Protocol
  import opened ProtocolRuns

  const X: ClientId := "x"
  const Y: ClientId := "y"
  const ROOM: RoomId := "r"
  const TOKEN: Token := "t"

  function Entry(id: ClientId): JoinRequest {
    JoinRequest(ROOM, id, "", "", Some(TOKEN))
  }

  // ---- Runs grow at the end ----

  lemma {:induction false} ExecOneMore(cfg: Config, s: State, steps: seq<Step>, step: Step)
    requires Legal(cfg, s, steps) && Enabled(Exec(cfg, s, steps), step)
    ensures Legal(cfg, s, steps + [step])
    ensures Exec(cfg, s, steps + [step]) == Next(cfg, Exec(cfg, s, steps), step)
    decreases |steps|
  {
    hide Next, Enabled;
    var more := steps + [step];
    if steps == [] {
      assert more[1..] == [] && more[0] == step;
    } else {
      assert more[0] == steps[0] && more[1..] == steps[1..] + [step];
      ExecOneMore(cfg, Next(cfg, s, steps[0]), steps[1..], step);
    }
  }

  lemma ReachableNext(cfg: Config, s: State, step: Step)
    requires Reachable(cfg, s) && Enabled(s, step)
    ensures Reachable(cfg, Next(cfg, s, step))
  {
    hide Next, Enabled;
    var steps :| Legal(cfg, INIT, steps) && Exec(cfg, INIT, steps) == s;
    ExecOneMore(cfg, INIT, steps, step);
  }

  /** The state after handler `c` offered its payload to `x`, its only target, which took it. */
  function Delivered(s: State, c: Conn, x: Conn): State
    requires c < |s.links| && x < |s.links| && s.links[c].pc.Fanout?
  {
    var pc := s.links[c].pc;
    WithPc(
      WithBox(s, x, Push(s.links[x].box, pc.payload).1),
      c, Fanout({}, None, pc.payload, 1, pc.after))
  }

  lemma Delivers(cfg: Config, s: State, c: Conn, x: Conn, payload: Payload, after: After)
    requires c < |s.links| && x < |s.links| && s.links[c].pc == Broadcast({x}, payload, after)
    requires s.links[x].box == Fresh()
    ensures Enabled(s, Probing(c, x)) && Enabled(Next(cfg, s, Probing(c, x)), Pushing(c))
    ensures Next(cfg, Next(cfg, s, Probing(c, x)), Pushing(c)) == Delivered(s, c, x)
  {
    assert {x} - {x} == {};
    var m := Next(cfg, s, Probing(c, x));
    assert m == s.(links := s.links[c := s.links[c].(pc := Fanout({}, Some(x), payload, 0, after))]);
    hide Push;
  }

  lemma ReachableDelivered(cfg: Config, s: State, c: Conn, x: Conn, payload: Payload, after: After)
    requires Reachable(cfg, s)
    requires c < |s.links| && x < |s.links| && s.links[c].pc == Broadcast({x}, payload, after)
    requires s.links[x].box == Fresh()
    ensures Reachable(cfg, Delivered(s, c, x))
  {
    Delivers(cfg, s, c, x, payload, after);
    hide Reachable, Next, Enabled, Delivered;
    ReachableNext(cfg, s, Probing(c, x));
    ReachableNext(cfg, Next(cfg, s, Probing(c, x)), Pushing(c));
  }

  // ---- The room ----

  function Empty(cfg: Config): Room<Conn> {
    NewRoom(cfg, 0, "")
  }

  function Half(cfg: Config): Room<Conn> {
    Enter(Seat(Empty(cfg), X, TOKEN), X, 0)
  }

  function Full(cfg: Config): Room<Conn> {
    Enter(Seat(Half(cfg), Y, TOKEN), Y, 1)
  }

  lemma Peers(cfg: Config)
    ensures Half(cfg).peers == map[X := 0] && Half(cfg).roles == map[X := Caller]
    ensures Full(cfg).peers == map[X := 0, Y := 1] && Full(cfg).roles == map[X := Caller, Y := Callee]
  {
  }

  lemma OnlyTheOther(cfg: Config)
    ensures Snapshot(map[ROOM := Full(cfg)], ROOM, X) == {1}
  {
    Peers(cfg);
    assert Y in Full(cfg).peers && Full(cfg).peers[Y] == 1;
  }

  function NewLink(c: Conn, id: ClientId, role: Role, size: nat): Link {
    Link(Place(ROOM, id, role, size), Broadcast({c}, Welcome(role, size, TOKEN), AfterWelcome), Fresh(), 0, false)
  }

  // ---- The run ----

  lemma XJoins(cfg: Config) returns (s: State)
    requires cfg.ttl > 0
    ensures Reachable(cfg, s) && s == State(0, map[ROOM := Half(cfg)], {ROOM}, [NewLink(0, X, Caller, 1)], {})
  {
    assert Legal(cfg, INIT, []) && Exec(cfg, INIT, []) == INIT;
    ReachableNext(cfg, INIT, CreateRoom(0, ROOM, ""));
    s := Next(cfg, INIT, CreateRoom(0, ROOM, ""));
    assert s == State(0, map[ROOM := Empty(cfg)], {ROOM}, [], {});
    Peers(cfg);
    ReachableNext(cfg, s, JoinRoom(Entry(X)));
    s := Next(cfg, s, JoinRoom(Entry(X)));
  }

  /** X is welcomed and has read a message that it has yet to handle. */
  lemma XReads(cfg: Config) returns (s: State, x: Link)
    requires cfg.ttl > 0
    ensures Reachable(cfg, s) && s == State(0, map[ROOM := Half(cfg)], {ROOM}, [x], {})
    ensures x.place == Place(ROOM, X, Caller, 1) && x.pc == Checked && x.relayed == 0
  {
    s := XJoins(cfg);
    Peers(cfg);
    hide Reachable;
    ReachableDelivered(cfg, s, 0, 0, Welcome(Caller, 1, TOKEN), AfterWelcome);
    s := Delivered(s, 0, 0);
    ReachableNext(cfg, s, Finish(0));
    s := Next(cfg, s, Finish(0));
    assert s.links[0].pc == Reading && |s.links| == 1;
    ReachableNext(cfg, s, ReadArrives(0));
    s := Next(cfg, s, ReadArrives(0));
    x := s.links[0];
  }

  lemma YJoins(cfg: Config) returns (s: State, x: Link)
    requires cfg.ttl > 0
    ensures Reachable(cfg, s)
    ensures s == State(0, map[ROOM := Full(cfg)], {ROOM}, [x, NewLink(1, Y, Callee, 2)], {})
    ensures x.place == Place(ROOM, X, Caller, 1) && x.pc == Checked && x.relayed == 0
  {
    s, x := XReads(cfg);
    Peers(cfg);
    hide Reachable;
    ReachableNext(cfg, s, JoinRoom(Entry(Y)));
    s := Next(cfg, s, JoinRoom(Entry(Y)));
  }

  /** What a relay or a hangup of x broadcasts. */
  function Said(msg: Incoming): Payload
    requires msg.Signal? || msg.HangUp?
  {
    if msg.Signal? then Relayed(0, 0, msg.body) else HungUp(0)
  }

  /** It is the first thing y accepts. */
  lemma YHears(cfg: Config, msg: Incoming) returns (s: State)
    requires cfg.ttl > 0 && (msg.Signal? || msg.HangUp?)
    ensures Reachable(cfg, s) && ROOM in s.rooms && |s.links| == 2
    ensures s.links[1].place == Place(ROOM, Y, Callee, 2)
    ensures s.links[1].pc == NewLink(1, Y, Callee, 2).pc
    ensures s.links[1].box == Push<Payload>(Fresh(), Said(msg)).1
  {
    var x;
    s, x := YJoins(cfg);
    OnlyTheOther(cfg);
    var y := s.links[1];
    hide Reachable, Snapshot;
    ReachableNext(cfg, s, Handle(0, msg));
    s := Next(cfg, s, Handle(0, msg));
    ReachableDelivered(cfg, s, 0, 1, Said(msg), s.links[0].pc.after);
    s := Delivered(s, 0, 1);
  }

  /** The welcome need not lead: here it is the second message accepted. */
  lemma WelcomeComesSecond(cfg: Config, body: string)
    requires cfg.ttl > 0
    ensures exists s ::
              Reachable(cfg, s) && |s.links| == 2 && !s.links[1].box.dead &&
              s.links[1].box.accepted == [Relayed(0, 0, body), Welcome(Callee, 2, TOKEN)]
  {
    var s := YHears(cfg, Signal(body));
    hide Reachable;
    assert {1} - {1} == {};
    ReachableNext(cfg, s, Probing(1, 1));
    s := Next(cfg, s, Probing(1, 1));
    assert At(s, 1).probed == Some(1) && |s.links| == 2;
    ReachableNext(cfg, s, Pushing(1));
    s := Next(cfg, s, Pushing(1));
    assert s.links[1].box.accepted == [Relayed(0, 0, body), Welcome(Callee, 2, TOKEN)];
  }

  /** Whoever reads a hangup may find the room still there. */
  lemma HangupFindsTheRoom(cfg: Config)
    requires cfg.ttl > 0
    ensures exists s ::
              Reachable(cfg, s) && |s.links| == 2 && s.links[1].box.written == [HungUp(0)] &&
              s.links[1].place.room in s.rooms
  {
    var s := YHears(cfg, HangUp);
    hide Reachable;
    ReachableNext(cfg, s, PumpTake(1, true));
    s := Next(cfg, s, PumpTake(1, true));
    assert s.links[1].box.written == [HungUp(0)];
  }
}
