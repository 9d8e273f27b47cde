/**
 Who can receive what: a broadcast stays inside its room, and everything but a peer-ready is heard by
 the other party only.
 */
module ProtocolIsolation {
  import opened Wrappers
  import opened Rooms
  import opened Mailbox
  import opened Protocol
  import opened ProtocolRooms
  import opened ProtocolMessages

  ghost predicate OtherParty(a: Place, b: Place) {
    a.room == b.room && a.id != b.id
  }

  /** `x` is a legitimate recipient of `p`. */
  ghost predicate Reaches(s: State, p: Payload, x: Conn)
    requires x < |s.links|
  {
    match p
    case PeerReady(c) => c < |s.links| && s.links[c].place.room == s.links[x].place.room
    case PeerLeft(c) => c < |s.links| && OtherParty(s.links[c].place, s.links[x].place)
    case HungUp(c) => c < |s.links| && OtherParty(s.links[c].place, s.links[x].place)
    case Relayed(c, _, _) => c < |s.links| && OtherParty(s.links[c].place, s.links[x].place)
    case Welcome(_, _, _) => true
    case Reply(_) => true
  }

  ghost predicate AimsAt(pc: Pc, x: Conn) {
    pc.Fanout? && (x in pc.targets || pc.probed == Some(x))
  }

  /** Every fan-out is aimed at legitimate recipients. */
  ghost predicate AimsOk(s: State) {
    forall c, x :: 0 <= c < |s.links| && 0 <= x < |s.links| && AimsAt(s.links[c].pc, x) ==>
                     Reaches(s, s.links[c].pc.payload, x)
  }

  ghost predicate HeardOk(s: State, x: Conn)
    requires x < |s.links|
  {
    forall k :: 0 <= k < |s.links[x].box.accepted| ==> Reaches(s, s.links[x].box.accepted[k], x)
  }

  ghost predicate IsolationOk(s: State) {
    AimsOk(s) && forall x :: 0 <= x < |s.links| ==> HeardOk(s, x)
  }

  /** Places are for life, so a legitimate recipient stays one. */
  lemma ReachesStill(s: State, s': State, p: Payload, x: Conn)
    requires LinksFollow(s, s') && x < |s.links| && Reaches(s, p, x)
    ensures Reaches(s', p, x)
  {
    hide Extends;
    assert LinkFollows(s.links[x], s'.links[x]);
    if !p.Welcome? && !p.Reply? {
      assert LinkFollows(s.links[p.sender], s'.links[p.sender]);
    }
  }

  lemma SnapshotSits(s: State, room: RoomId, except: ClientId, x: Conn)
    requires PeersOk(s) && x in Snapshot(s.rooms, room, except)
    ensures x < |s.links| && s.links[x].place.room == room && s.links[x].place.id != except
  {
    var id :| id in s.rooms[room].peers && id != except && s.rooms[room].peers[id] == x;
    assert Sits(s, s.rooms[room].peers[id], room, id);
  }

  /** A handler starting a broadcast aims at the connections of its own room. */
  lemma NewAim(s: State, c: Conn, payload: Payload, x: Conn, except: ClientId)
    requires PeersOk(s) && c < |s.links| && x in Snapshot(s.rooms, s.links[c].place.room, except)
    requires match payload
             case PeerReady(d) => d == c
             case PeerLeft(d) => d == c && except == s.links[c].place.id
             case HungUp(d) => d == c && except == s.links[c].place.id
             case Relayed(d, _, _) => d == c && except == s.links[c].place.id
             case _ => false
    ensures x < |s.links| && Reaches(s, payload, x)
  {
    SnapshotSits(s, s.links[c].place.room, except, x);
  }

  lemma ActorAims(cfg: Config, s: State, step: Step, c: Conn, x: Conn)
    requires PeersOk(s) && AimsOk(s) && Enabled(s, step) && Actor(step) == Some(c)
    requires c < |s.links| && x < |s.links| && c < |Next(cfg, s, step).links|
    requires AimsAt(Next(cfg, s, step).links[c].pc, x)
    ensures Reaches(s, Next(cfg, s, step).links[c].pc.payload, x)
  {
    var place := s.links[c].place;
    match step
    case SnapReady(_) =>
      hide Snapshot;
      NewAim(s, c, PeerReady(c), x, "");
    case SnapLeft(_) =>
      hide Snapshot;
      NewAim(s, c, PeerLeft(c), x, place.id);
    case Handle(_, msg) =>
      hide Snapshot;
      if msg.HangUp? {
        NewAim(s, c, HungUp(c), x, place.id);
      } else if msg.Signal? {
        NewAim(s, c, Relayed(c, s.links[c].relayed, msg.body), x, place.id);
      }
    case Probing(_, target) =>
      hide Snapshot, Probe;
      assert AimsAt(s.links[c].pc, x);
    case _ =>
      hide Snapshot, Leave, Push, Reaches;
  }

  lemma NewcomerAims(cfg: Config, s: State, step: Step, x: Conn)
    requires Enabled(s, step) && x < |Next(cfg, s, step).links|
    ensures var s' := Next(cfg, s, step);
            |s'.links| == |s.links| + 1 && AimsAt(s'.links[|s.links|].pc, x) ==>
              s'.links[|s.links|].pc.payload.Welcome? && x == |s.links|
  {
    hide Create, Evict, Occupants, Join, Leave, Snapshot, Push, Pump;
  }

  lemma WelcomeReaches(s: State, p: Payload, x: Conn)
    requires x < |s.links| && p.Welcome?
    ensures Reaches(s, p, x)
  {
  }

  lemma StepKeepsAims(cfg: Config, s: State, step: Step)
    requires PeersOk(s) && PcsOk(s) && AimsOk(s) && Enabled(s, step) && LinksFollow(s, Next(cfg, s, step))
    ensures AimsOk(Next(cfg, s, step))
  {
    var s' := Next(cfg, s, step);
    hide Next, Reaches, LinksFollow;
    assert |s.links| <= |s'.links| <= |s.links| + 1 by { LinkCount(s, s'); }
    forall c, x | 0 <= c < |s'.links| && 0 <= x < |s'.links| && AimsAt(s'.links[c].pc, x)
      ensures Reaches(s', s'.links[c].pc.payload, x)
    {
      if c == |s.links| {
        NewcomerAims(cfg, s, step, x);
        WelcomeReaches(s', s'.links[c].pc.payload, x);
      } else {
        OldAim(cfg, s, step, c, x);
        if Actor(step) == Some(c) {
          ActorAims(cfg, s, step, c, x);
        } else {
          OnlyTheActorMoves(cfg, s, step, c);
        }
        ReachesStill(s, s', s'.links[c].pc.payload, x);
      }
    }
  }

  lemma LinkCount(s: State, s': State)
    requires LinksFollow(s, s')
    ensures |s.links| <= |s'.links| <= |s.links| + 1
  {
  }

  /** Nobody can be aiming at a connection that is only just being made, except itself. */
  lemma OldAim(cfg: Config, s: State, step: Step, c: Conn, x: Conn)
    requires PeersOk(s) && PcsOk(s) && Enabled(s, step) && LinksFollow(s, Next(cfg, s, step))
    requires c < |s.links| && AimsAt(Next(cfg, s, step).links[c].pc, x)
    ensures x < |s.links|
  {
    var s' := Next(cfg, s, step);
    hide Next, LinkFollows;
    if Actor(step) == Some(c) {
      ActorPcOk(cfg, s, step, c);
      assert PcOk(s'.links[c], c, |s.links|);
    } else {
      OnlyTheActorMoves(cfg, s, step, c);
      assert PcOk(s.links[c], c, |s.links|);
    }
  }

  lemma StepKeepsHeard(cfg: Config, s: State, step: Step, x: Conn)
    requires Boxes(s) && IsolationOk(s) && Enabled(s, step) && LinksFollow(s, Next(cfg, s, step))
    requires x < |Next(cfg, s, step).links|
    ensures HeardOk(Next(cfg, s, step), x)
  {
    var s' := Next(cfg, s, step);
    hide Next, Reaches, Boxes, LinksFollow;
    LinkCount(s, s');
    if x == |s.links| {
      NewcomerLogEmpty(cfg, s, step);
    } else {
      LogsGrowByPushing(cfg, s, step, x);
      assert HeardOk(s, x);
      var log := s'.links[x].box.accepted;
      forall k | 0 <= k < |log| ensures Reaches(s', log[k], x) {
        if k == |s.links[x].box.accepted| {
          assert AimsAt(s.links[step.c].pc, x);
        }
        ReachesStill(s, s', log[k], x);
      }
    }
  }

  lemma StepKeepsIsolation(cfg: Config, s: State, step: Step)
    requires PeersOk(s) && Boxes(s) && PcsOk(s) && IsolationOk(s) && Enabled(s, step)
    requires LinksFollow(s, Next(cfg, s, step))
    ensures IsolationOk(Next(cfg, s, step))
  {
    var s' := Next(cfg, s, step);
    StepKeepsAims(cfg, s, step);
    hide Next, PeersOk, Boxes, PcsOk, LinksFollow, AimsOk, HeardOk;
    forall x | 0 <= x < |s'.links| ensures HeardOk(s', x) {
      StepKeepsHeard(cfg, s, step, x);
    }
  }
}
