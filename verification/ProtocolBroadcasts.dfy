/**
 Broadcasts are complete: everybody a broadcast was meant for has accepted its payload or is dead by
 the time the handler goes on.
 */
module ProtocolBroadcasts {
  import opened Wrappers
  import opened Rooms
  import opened Protocol
  import opened ProtocolRooms
  import opened ProtocolMessages
  import opened ProtocolRuns

  /** Handler `c` is still on its way to offering `p` to `d`. */
  ghost predicate Owed(s: State, c: Conn, d: Conn, p: Payload) {
    && c < |s.links| && s.links[c].pc.Fanout? && s.links[c].pc.payload == p
    && (d in s.links[c].pc.targets || s.links[c].pc.probed == Some(d))
  }

  ghost predicate Served(s: State, d: Conn, p: Payload) {
    d < |s.links| && (s.links[d].box.dead || p in s.links[d].box.accepted)
  }

  lemma ServedStays(s: State, s': State, d: Conn, p: Payload)
    requires LinksFollow(s, s') && Served(s, d, p)
    ensures Served(s', d, p)
  {
    assert LinkFollows(s.links[d], s'.links[d]);
  }

  lemma ProbeServes(cfg: Config, s: State, c: Conn, target: Conn, d: Conn, p: Payload)
    requires Enabled(s, Probing(c, target)) && Owed(s, c, d, p) && d < |s.links|
    ensures var s' := Next(cfg, s, Probing(c, target)); Owed(s', c, d, p) || Served(s', d, p)
  {
  }

  lemma PushServes(cfg: Config, s: State, c: Conn, d: Conn, p: Payload)
    requires Enabled(s, Pushing(c)) && Owed(s, c, d, p) && d < |s.links|
    ensures var s' := Next(cfg, s, Pushing(c)); Owed(s', c, d, p) || Served(s', d, p)
  {
  }

  /** A handler with somebody left to serve can only probe or push. */
  lemma OwingHandlerSends(s: State, step: Step, c: Conn, d: Conn, p: Payload)
    requires Enabled(s, step) && Owed(s, c, d, p) && Actor(step) == Some(c)
    ensures step.Pushing? || step.Probing?
  {
  }

  lemma OwedOrServed(cfg: Config, s: State, step: Step, c: Conn, d: Conn, p: Payload)
    requires Sound(cfg, s) && Enabled(s, step) && d < |s.links|
    requires Owed(s, c, d, p) || Served(s, d, p)
    ensures var s' := Next(cfg, s, step); d < |s'.links| && (Owed(s', c, d, p) || Served(s', d, p))
  {
    var s' := Next(cfg, s, step);
    assert RoomsOk(s) && Boxes(s);
    hide Sound, RoomsOk, Boxes, Next, Enabled;
    StepLinks(cfg, s, step);
    if Served(s, d, p) {
      ServedStays(s, s', d, p);
    } else if Actor(step) == Some(c) {
      OwingHandlerSends(s, step, c, d, p);
      if step.Pushing? {
        PushServes(cfg, s, c, d, p);
      } else {
        ProbeServes(cfg, s, c, step.target, d, p);
      }
    } else {
      OnlyTheActorMoves(cfg, s, step, c);
    }
  }

  lemma {:induction false} RunKeepsOwing(cfg: Config, s: State, steps: seq<Step>, c: Conn, d: Conn, p: Payload)
    requires Sound(cfg, s) && Legal(cfg, s, steps) && d < |s.links|
    requires Owed(s, c, d, p) || Served(s, d, p)
    ensures var s' := Exec(cfg, s, steps); Owed(s', c, d, p) || Served(s', d, p)
    decreases |steps|
  {
    hide Sound, Next, Owed, Served, Enabled;
    if steps == [] {
    } else {
      StepKeepsSound(cfg, s, steps[0]);
      OwedOrServed(cfg, s, steps[0], c, d, p);
      RunKeepsOwing(cfg, Next(cfg, s, steps[0]), steps[1..], c, d, p);
    }
  }

  /** The step starts a broadcast of `p` by handler `c`. */
  predicate Starts(s: State, step: Step, c: Conn, p: Payload) {
    match step
    case SnapReady(b) => b == c && p == PeerReady(c)
    case SnapLeft(b) => b == c && p == PeerLeft(c)
    case Handle(b, HangUp) => b == c && p == HungUp(c)
    case Handle(b, Signal(body)) => b == c && c < |s.links| && p == Relayed(c, s.links[c].relayed, body)
    case _ => false
  }

  /** `d` is current in the room of `c`, under another ID unless the broadcast excepts nobody. */
  ghost predicate MeantFor(s: State, c: Conn, d: Conn, p: Payload)
    requires c < |s.links|
  {
    && Current(s, d) && s.links[d].place.room == s.links[c].place.room
    && (p.PeerReady? || s.links[d].place.id != s.links[c].place.id)
  }

  lemma StartOwes(cfg: Config, s: State, step: Step, c: Conn, d: Conn, p: Payload)
    requires Enabled(s, step) && Starts(s, step, c, p) && c < |s.links| && MeantFor(s, c, d, p)
    requires s.links[d].place.id != ""
    ensures Owed(Next(cfg, s, step), c, d, p)
  {
    var place := s.links[c].place;
    var except := if p.PeerReady? then "" else place.id;
    assert d in Snapshot(s.rooms, place.room, except);
    hide Snapshot;
  }

  /** Nobody holds the payload before: every broadcast is told from all earlier ones. */
  lemma BroadcastIsNew(s: State, step: Step, c: Conn, p: Payload, x: Conn)
    requires LogsOk(s) && Enabled(s, step) && Starts(s, step, c, p) && c < |s.links| && x < |s.links|
    ensures p !in s.links[x].box.accepted
  {
    assert LogOk(s, x);
    forall k | 0 <= k < |s.links[x].box.accepted| ensures s.links[x].box.accepted[k] != p {
      assert EntryOk(s, x, s.links[x].box.accepted[k]);
    }
  }

  /**
   Whoever was current in the room when handler `c` started a broadcast (a peer-ready, a peer-left, a
   hangup or a relayed message) is, at any later moment, dead or has accepted it, unless the handler
   is still busy with that very broadcast and has not come to it yet.
   */
  lemma BroadcastIsComplete(cfg: Config, s: State, step: Step, steps: seq<Step>, c: Conn, d: Conn, p: Payload)
    requires Reachable(cfg, s) && Enabled(s, step) && Starts(s, step, c, p)
    requires c < |s.links| && MeantFor(s, c, d, p)
    requires Legal(cfg, Next(cfg, s, step), steps)
    ensures p !in s.links[d].box.accepted
    ensures var s' := Exec(cfg, Next(cfg, s, step), steps); Owed(s', c, d, p) || Served(s', d, p)
  {
    ReachableIsSound(cfg, s);
    BroadcastIsNew(s, step, c, p, d);
    assert s.links[d].place.id != "" by { assert IdsOk(s); }
    StepKeepsSound(cfg, s, step);
    hide Sound, Enabled, Starts, MeantFor, Served, Current;
    StartOwes(cfg, s, step, c, d, p);
    OwedTargetExists(cfg, s, step, c, d, p);
    hide Next;
    RunKeepsOwing(cfg, Next(cfg, s, step), steps, c, d, p);
  }

  lemma OwedTargetExists(cfg: Config, s: State, step: Step, c: Conn, d: Conn, p: Payload)
    requires Enabled(s, step) && Sound(cfg, Next(cfg, s, step)) && Owed(Next(cfg, s, step), c, d, p)
    ensures d < |Next(cfg, s, step).links|
  {
    var s' := Next(cfg, s, step);
    assert PcsOk(s');
    hide Next, Enabled, Sound;
    assert PcOk(s'.links[c], c, |s'.links|);
  }

  /** A departure that leaves somebody behind is on its way to being announced. */
  lemma LeavingSomebodyIsAnnounced(cfg: Config, s: State, c: Conn, d: Conn)
    requires Enabled(s, LeaveRoom(c)) && c < |s.links| && Current(s, c) && Current(s, d)
    requires s.links[d].place.room == s.links[c].place.room && s.links[d].place.id != s.links[c].place.id
    ensures var s' := Next(cfg, s, LeaveRoom(c));
            c < |s'.links| && s'.links[c].pc.LeftDue? && s'.links[c].left && !Current(s', c)
  {
    var place := s.links[c].place;
    var peers := s.rooms[place.room].peers;
    assert s.links[d].place.id in peers - {place.id};
  }
}
