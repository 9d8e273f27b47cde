/**
 Who may queue which message, in which order, and who has been told that the other party is there.
 */
module ProtocolMessages {
  import opened Wrappers
  import opened Rooms
  import opened Mailbox
  import opened Protocol
  import opened ProtocolRooms

  // ---- What a handler is about to say ----

  /** The message a fan-out carries is the one its continuation belongs to. */
  ghost predicate FanoutOk(link: Link, c: Conn, n: nat)
    requires link.pc.Fanout?
  {
    var pc := link.pc;
    && (forall t :: t in pc.targets ==> t < n)
    && (pc.probed.Some? ==> pc.probed.value < n)
    && match pc.after
       case AfterWelcome =>
         && pc.payload.Welcome? && pc.payload.role == link.place.role
         && pc.targets <= {c} && (pc.probed.Some? ==> pc.probed.value == c)
       case AfterReady => pc.payload == PeerReady(c)
       case AfterRelay => pc.payload.Relayed? && pc.payload.sender == c && pc.payload.nth < link.relayed
       case AfterReply => pc.payload.Reply?
       case AfterHangup => pc.payload == HungUp(c)
       case AfterLeft => pc.payload == PeerLeft(c) && link.left
  }

  ghost predicate PcOk(link: Link, c: Conn, n: nat) {
    && (link.pc.Fanout? ==> FanoutOk(link, c, n))
    && (link.pc.LeftDue? ==> link.left)
  }

  ghost predicate PcsOk(s: State) {
    forall c :: 0 <= c < |s.links| ==> PcOk(s.links[c], c, |s.links|)
  }

  lemma SnapshotInRange(s: State, room: RoomId, except: ClientId)
    requires PeersOk(s)
    ensures forall t :: t in Snapshot(s.rooms, room, except) ==> t < |s.links|
  {
    forall t | t in Snapshot(s.rooms, room, except) ensures t < |s.links| {
      var id :| id in s.rooms[room].peers && id != except && s.rooms[room].peers[id] == t;
      assert Sits(s, s.rooms[room].peers[id], room, id);
    }
  }

  /** The handler a step belongs to. */
  function Actor(step: Step): Option<Conn> {
    match step
    case Probing(c, _) => Some(c)
    case Pushing(c) => Some(c)
    case Finish(c) => Some(c)
    case SnapReady(c) => Some(c)
    case ReadFails(c) => Some(c)
    case ReadArrives(c) => Some(c)
    case Handle(c, _) => Some(c)
    case LeaveRoom(c) => Some(c)
    case SnapLeft(c) => Some(c)
    case _ => None
  }

  /** Nobody else's handler moves, and nobody else's counters change. */
  lemma OnlyTheActorMoves(cfg: Config, s: State, step: Step, c: Conn)
    requires Enabled(s, step) && c < |s.links| && Actor(step) != Some(c)
    ensures var s' := Next(cfg, s, step);
            && c < |s'.links| && s'.links[c].pc == s.links[c].pc
            && s'.links[c].relayed == s.links[c].relayed && s'.links[c].left == s.links[c].left
            && s'.links[c].place == s.links[c].place
  {
    hide Create, Evict, Occupants, Join, Leave, Snapshot, Push, Pump;
  }

  lemma MoreLinks(link: Link, c: Conn, n: nat, m: nat)
    requires PcOk(link, c, n) && n <= m
    ensures PcOk(link, c, m)
  {
  }

  lemma ActorPcOk(cfg: Config, s: State, step: Step, c: Conn)
    requires PeersOk(s) && PcsOk(s) && Enabled(s, step) && Actor(step) == Some(c)
    ensures c < |s.links| && c < |Next(cfg, s, step).links|
    ensures PcOk(Next(cfg, s, step).links[c], c, |s.links|)
  {
    assert PcOk(s.links[c], c, |s.links|);
    SnapshotInRange(s, s.links[c].place.room, "");
    SnapshotInRange(s, s.links[c].place.room, s.links[c].place.id);
    hide Snapshot, Leave, Push;
  }

  lemma NewcomerPcOk(cfg: Config, s: State, step: Step)
    requires Enabled(s, step)
    ensures var s' := Next(cfg, s, step);
            |s'.links| == |s.links| + 1 ==> PcOk(s'.links[|s.links|], |s.links|, |s'.links|)
  {
    hide Create, Evict, Occupants, Join, Leave, Snapshot, Push, Pump;
  }

  lemma StepKeepsPcs(cfg: Config, s: State, step: Step)
    requires PeersOk(s) && PcsOk(s) && Enabled(s, step) && LinksFollow(s, Next(cfg, s, step))
    ensures PcsOk(Next(cfg, s, step))
  {
    var s' := Next(cfg, s, step);
    hide Next, FanoutOk, LinkFollows;
    forall c | 0 <= c < |s'.links| ensures PcOk(s'.links[c], c, |s'.links|) {
      if c == |s.links| {
        NewcomerPcOk(cfg, s, step);
      } else if Actor(step) == Some(c) {
        ActorPcOk(cfg, s, step, c);
        MoreLinks(s'.links[c], c, |s.links|, |s'.links|);
      } else {
        OnlyTheActorMoves(cfg, s, step, c);
        assert PcOk(s.links[c], c, |s.links|);
        SamePcOk(s.links[c], s'.links[c], c, |s.links|);
        MoreLinks(s'.links[c], c, |s.links|, |s'.links|);
      }
    }
  }

  lemma SamePcOk(link: Link, link': Link, c: Conn, n: nat)
    requires PcOk(link, c, n)
    requires link'.pc == link.pc && link'.place == link.place && link'.left == link.left
    requires link'.relayed == link.relayed
    ensures PcOk(link', c, n)
  {
  }

  // ---- What has been accepted ----

  /** A handler that is announcing its departure, or is finished, does nothing else ever after. */
  predicate Closed(pc: Pc) {
    pc.Done? || (pc.Fanout? && pc.after.AfterLeft?)
  }

  /** Past the point at which its peer-ready broadcast starts. */
  predicate Introduced(pc: Pc) {
    !pc.ReadyDue? && !(pc.Fanout? && pc.after.AfterWelcome?)
  }

  /** Past the point at which a hangup could start. */
  predicate HangingUp(pc: Pc) {
    || pc.Leaving? || pc.LeftDue? || pc.Done?
    || (pc.Fanout? && (pc.after.AfterHangup? || pc.after.AfterLeft?))
  }

  ghost predicate EntryOk(s: State, x: Conn, p: Payload)
    requires x < |s.links|
  {
    match p
    case PeerLeft(c) => c < |s.links| && Closed(s.links[c].pc) && s.links[c].left
    case Welcome(role, _, _) => role == s.links[x].place.role
    case PeerReady(c) => c < |s.links| && Introduced(s.links[c].pc)
    case HungUp(c) => c < |s.links| && HangingUp(s.links[c].pc)
    case Relayed(c, nth, _) => c < |s.links| && nth < s.links[c].relayed
    case Reply(_) => true
  }

  ghost predicate LogOk(s: State, x: Conn)
    requires x < |s.links|
  {
    forall k :: 0 <= k < |s.links[x].box.accepted| ==> EntryOk(s, x, s.links[x].box.accepted[k])
  }

  ghost predicate LogsOk(s: State) {
    forall x :: 0 <= x < |s.links| ==> LogOk(s, x)
  }

  /** A sender's hangup comes before the same sender's departure. */
  ghost predicate HangupFirst(log: seq<Payload>) {
    forall i, j :: 0 <= i < |log| && 0 <= j < |log| && log[i].PeerLeft? && log[j] == HungUp(log[i].sender) ==> j < i
  }

  ghost predicate OrderOk(s: State) {
    forall x :: 0 <= x < |s.links| ==> HangupFirst(s.links[x].box.accepted)
  }

  predicate TouchesBox(step: Step) {
    step.Probing? || step.Pushing? || step.PumpTake? || step.PumpStop?
  }

  lemma OtherStepsKeepLogs(cfg: Config, s: State, step: Step, x: Conn)
    requires Enabled(s, step) && x < |s.links| && !TouchesBox(step)
    ensures x < |Next(cfg, s, step).links|
    ensures Next(cfg, s, step).links[x].box.accepted == s.links[x].box.accepted
  {
    hide Create, Evict, Occupants, Join, Leave, Snapshot;
  }

  /** Only a push lengthens a log, and only by the payload of its fan-out. */
  lemma LogsGrowByPushing(cfg: Config, s: State, step: Step, x: Conn)
    requires Boxes(s) && Enabled(s, step) && x < |s.links|
    ensures var s' := Next(cfg, s, step);
            && x < |s'.links|
            && (s'.links[x].box.accepted == s.links[x].box.accepted
                || (step.Pushing? && At(s, step.c).probed == Some(x)
                    && s'.links[x].box.accepted == s.links[x].box.accepted + [At(s, step.c).payload]))
  {
    if TouchesBox(step) {
      if step.PumpTake? {
        PumpIsFaithful(s.links[step.c].box, step.ok);
      }
      hide Pump, Faithful, AfterCreate, AfterJoin, AfterLeave, AfterMessage, AfterFanout;
    } else {
      hide Next, Enabled;
      OtherStepsKeepLogs(cfg, s, step, x);
    }
  }

  lemma NewcomerLogEmpty(cfg: Config, s: State, step: Step)
    requires Enabled(s, step)
    ensures var s' := Next(cfg, s, step);
            |s'.links| == |s.links| + 1 ==> s'.links[|s.links|].box.accepted == []
  {
    hide Create, Evict, Occupants, Join, Leave, Snapshot, Push, Pump;
  }

  lemma ClosedStays(cfg: Config, s: State, step: Step, c: Conn)
    requires Enabled(s, step) && c < |s.links| && c < |Next(cfg, s, step).links| && Closed(s.links[c].pc)
    ensures Closed(Next(cfg, s, step).links[c].pc)
  {
    if Actor(step) != Some(c) {
      OnlyTheActorMoves(cfg, s, step, c);
    } else {
      hide Create, Evict, Occupants, Join, Leave, Snapshot, Push, Pump;
    }
  }

  /** A handler never goes back to an earlier stage of its connection. */
  lemma StagesStay(cfg: Config, s: State, step: Step, c: Conn)
    requires Enabled(s, step) && c < |s.links| && c < |Next(cfg, s, step).links|
    ensures var link, later := s.links[c], Next(cfg, s, step).links[c];
            && (Introduced(link.pc) ==> Introduced(later.pc))
            && (HangingUp(link.pc) ==> HangingUp(later.pc))
            && link.relayed <= later.relayed
  {
    if Actor(step) != Some(c) {
      OnlyTheActorMoves(cfg, s, step, c);
    } else {
      hide Create, Evict, Occupants, Join, Leave, Snapshot, Push, Pump;
    }
  }

  lemma EntryStaysOk(cfg: Config, s: State, step: Step, x: Conn, p: Payload)
    requires Enabled(s, step) && x < |s.links| && LinksFollow(s, Next(cfg, s, step)) && EntryOk(s, x, p)
    ensures EntryOk(Next(cfg, s, step), x, p)
  {
    var s' := Next(cfg, s, step);
    hide Next, Extends, Closed, Introduced, HangingUp;
    assert LinkFollows(s.links[x], s'.links[x]);
    if p.PeerLeft? {
      assert LinkFollows(s.links[p.sender], s'.links[p.sender]);
      ClosedStays(cfg, s, step, p.sender);
    } else if p.PeerReady? || p.HungUp? || p.Relayed? {
      StagesStay(cfg, s, step, p.sender);
    }
  }

  /** What a fan-out pushes is a legitimate entry at its target. */
  lemma PushedEntryOk(s: State, c: Conn)
    requires PcsOk(s) && Enabled(s, Pushing(c))
    ensures EntryOk(s, At(s, c).probed.value, At(s, c).payload)
  {
    assert PcOk(s.links[c], c, |s.links|);
  }

  lemma StepKeepsLogs(cfg: Config, s: State, step: Step)
    requires Boxes(s) && PcsOk(s) && LogsOk(s) && Enabled(s, step) && LinksFollow(s, Next(cfg, s, step))
    ensures LogsOk(Next(cfg, s, step))
  {
    var s' := Next(cfg, s, step);
    hide Next, EntryOk, Boxes, PcsOk, LinkFollows;
    forall x | 0 <= x < |s'.links| ensures LogOk(s', x) {
      if x == |s.links| {
        NewcomerLogEmpty(cfg, s, step);
      } else {
        LogsGrowByPushing(cfg, s, step, x);
        assert LogOk(s, x);
        var log := s'.links[x].box.accepted;
        forall k | 0 <= k < |log| ensures EntryOk(s', x, log[k]) {
          if k == |s.links[x].box.accepted| {
            PushedEntryOk(s, step.c);
          }
          EntryStaysOk(cfg, s, step, x, log[k]);
        }
      }
    }
  }

  /** A handler still fanning out a hangup has not announced a departure to anybody. */
  lemma HangupPrecedesDeparture(s: State, c: Conn)
    requires PcsOk(s) && LogsOk(s) && OrderOk(s) && Enabled(s, Pushing(c))
    ensures HangupFirst(s.links[At(s, c).probed.value].box.accepted + [At(s, c).payload])
  {
    var x := At(s, c).probed.value;
    var log := s.links[x].box.accepted;
    assert PcOk(s.links[c], c, |s.links|) && LogOk(s, x) && HangupFirst(log);
    if At(s, c).payload.HungUp? {
      forall i | 0 <= i < |log| && log[i].PeerLeft? ensures log[i].sender != c {
        assert EntryOk(s, x, log[i]);
      }
    }
  }

  lemma StepKeepsOrder(cfg: Config, s: State, step: Step)
    requires Boxes(s) && PcsOk(s) && LogsOk(s) && OrderOk(s) && Enabled(s, step)
    requires LinksFollow(s, Next(cfg, s, step))
    ensures OrderOk(Next(cfg, s, step))
  {
    var s' := Next(cfg, s, step);
    hide Next, HangupFirst, LogsOk, PcsOk, Boxes, LinkFollows;
    forall x | 0 <= x < |s'.links| ensures HangupFirst(s'.links[x].box.accepted) {
      if x == |s.links| {
        NewcomerLogEmpty(cfg, s, step);
        EmptyLogOrdered();
      } else {
        LogsGrowByPushing(cfg, s, step, x);
        assert HangupFirst(s.links[x].box.accepted);
        if s'.links[x].box.accepted != s.links[x].box.accepted {
          HangupPrecedesDeparture(s, step.c);
        }
      }
    }
  }

  lemma EmptyLogOrdered()
    ensures HangupFirst([])
  {
  }

  // ---- Pairing ----

  /** `x` is dead or has accepted the peer-ready of handler `b`. */
  ghost predicate Told(s: State, b: Conn, x: Conn)
    requires x < |s.links|
  {
    s.links[x].box.dead || PeerReady(b) in s.links[x].box.accepted
  }

  /** Handler `b` has told `x`, or is still on its way to doing so. */
  ghost predicate Promised(s: State, b: Conn, x: Conn)
    requires b < |s.links| && x < |s.links|
  {
    match s.links[b].pc
    case ReadyDue => true
    case Fanout(targets, probed, _, _, after) =>
      if after.AfterWelcome? then s.links[b].place.participants == 2
      else if after.AfterReady? then x in targets || probed == Some(x) || Told(s, b, x)
      else Told(s, b, x)
    case _ => Told(s, b, x)
  }

  /** Between its Join and the end of its peer-ready broadcast. */
  predicate Announcing(pc: Pc) {
    pc.ReadyDue? || (pc.Fanout? && (pc.after.AfterWelcome? || pc.after.AfterReady?))
  }

  ghost predicate PairOk(s: State) {
    forall a, b :: 0 <= a < b < |s.links| && Together(s, a, b) ==> Promised(s, b, a) && Promised(s, b, b)
  }

  ghost predicate Together(s: State, a: Conn, b: Conn) {
    Current(s, a) && Current(s, b) && s.links[a].place.room == s.links[b].place.room
  }

  lemma ToldStays(s: State, s': State, b: Conn, x: Conn)
    requires x < |s.links| && LinksFollow(s, s') && Told(s, b, x)
    ensures Told(s', b, x)
  {
    assert LinkFollows(s.links[x], s'.links[x]);
  }

  lemma PushTells(s: State, c: Conn)
    requires PcsOk(s) && Enabled(s, Pushing(c)) && At(s, c).after.AfterReady?
    ensures Told(AfterPush(s, c), c, At(s, c).probed.value)
  {
    assert PcOk(s.links[c], c, |s.links|);
  }

  lemma OwnPromise(cfg: Config, s: State, step: Step, b: Conn, x: Conn)
    requires PcsOk(s) && Enabled(s, step) && LinksFollow(s, Next(cfg, s, step))
    requires b < |s.links| && x < |s.links| && Promised(s, b, x) && Actor(step) == Some(b)
    requires step.SnapReady? ==> x in Snapshot(s.rooms, s.links[b].place.room, "")
    ensures Promised(Next(cfg, s, step), b, x)
  {
    var s' := Next(cfg, s, step);
    if Told(s, b, x) {
      ToldStays(s, s', b, x);
    }
    if step.Pushing? && At(s, b).after.AfterReady? {
      PushTells(s, b);
    }
    hide Snapshot, Leave, Push, LinksFollow, PcsOk;
    if step.Probing? && x == step.target {
      ProbeTells(s, b, x);
    }
  }

  lemma ProbeTells(s: State, b: Conn, x: Conn)
    requires Enabled(s, Probing(b, x))
    ensures var s' := AfterProbe(s, b, x);
            At(s', b).probed == Some(x) || s'.links[x].box.dead
  {
  }

  /** Two connections that are current together are both in a snapshot of their room. */
  lemma TogetherInSnapshot(s: State, a: Conn, b: Conn)
    requires Together(s, a, b) && s.links[a].place.id != ""
    ensures a in Snapshot(s.rooms, s.links[b].place.room, "")
  {
  }

  lemma StepKeepsPromise(cfg: Config, s: State, step: Step, a: Conn, b: Conn, x: Conn)
    requires PcsOk(s) && IdsOk(s) && Enabled(s, step) && LinksFollow(s, Next(cfg, s, step))
    requires a < b < |s.links| && Together(s, a, b) && (x == a || x == b) && Promised(s, b, x)
    ensures Promised(Next(cfg, s, step), b, x)
  {
    var s' := Next(cfg, s, step);
    TogetherInSnapshot(s, x, b);
    if Actor(step) == Some(b) {
      OwnPromise(cfg, s, step, b, x);
    } else {
      OnlyTheActorMoves(cfg, s, step, b);
      hide Next;
      if Told(s, b, x) {
        ToldStays(s, s', b, x);
      }
    }
  }

  ghost predicate IdsOk(s: State) {
    forall c :: 0 <= c < |s.links| ==> s.links[c].place.id != ""
  }

  lemma StepKeepsIds(cfg: Config, s: State, step: Step)
    requires IdsOk(s) && Enabled(s, step) && LinksFollow(s, Next(cfg, s, step))
    ensures IdsOk(Next(cfg, s, step))
  {
    var s' := Next(cfg, s, step);
    forall c | 0 <= c < |s'.links| ensures s'.links[c].place.id != "" {
      if c < |s.links| {
        assert LinkFollows(s.links[c], s'.links[c]);
      }
    }
  }

  /** Currency is lost for good: only a Join gives it, and only to the connection that joins. */
  lemma CurrencyIsNeverRegained(s: State, s': State, c: Conn)
    requires RoomsFollow(s, s') && LinksFollow(s, s') && c < |s.links| && Current(s', c)
    ensures Current(s, c)
  {
    assert LinkFollows(s.links[c], s'.links[c]);
    assert RoomFollows(s, s', s.links[c].place.room);
  }

  /** The last to join a room that has the other party in it is told that there are two. */
  lemma NewcomerPromises(cfg: Config, s: State, step: Step, a: Conn)
    requires RoomsOk(s) && Enabled(s, step) && step.JoinRoom?
    requires var s' := Next(cfg, s, step);
             |s'.links| == |s.links| + 1 && a < |s.links| && Together(s', a, |s.links|)
             && s'.links[a].place == s.links[a].place
    ensures var s' := Next(cfg, s, step);
            Promised(s', |s.links|, a) && Promised(s', |s.links|, |s.links|)
  {
    var req := step.req;
    var s' := Next(cfg, s, step);
    var b := |s.links|;
    AdmitKeepsRoom(cfg, s.rooms[req.room], req, b);
    AdmitSeats(cfg, s.rooms[req.room], req, b);
    var peers := s'.rooms[req.room].peers;
    TwoKeys(peers, s'.links[a].place.id, req.id, s'.rooms[req.room].roles);
  }

  lemma TwoKeys(peers: map<ClientId, Conn>, a: ClientId, b: ClientId, roles: map<ClientId, Role>)
    requires a in peers && b in peers && a != b && peers.Keys <= roles.Keys && |roles| <= 2
    ensures |peers| == 2
  {
    SubsetSize({a, b}, peers.Keys);
    SubsetSize(peers.Keys, roles.Keys);
  }

  ghost predicate PairContext(cfg: Config, s: State, step: Step) {
    && Enabled(s, step)
    && RoomsOk(s) && PcsOk(s) && IdsOk(s) && PairOk(s)
    && RoomsFollow(s, Next(cfg, s, step)) && LinksFollow(s, Next(cfg, s, step))
  }

  lemma StepKeepsOldPair(cfg: Config, s: State, step: Step, a: Conn, b: Conn)
    requires PairContext(cfg, s, step) && a < b < |s.links| && Together(Next(cfg, s, step), a, b)
    ensures Promised(Next(cfg, s, step), b, a) && Promised(Next(cfg, s, step), b, b)
  {
    var s' := Next(cfg, s, step);
    hide Next, Promised, RoomsFollow, LinkFollows, PcsOk, IdsOk;
    CurrencyIsNeverRegained(s, s', a);
    CurrencyIsNeverRegained(s, s', b);
    PlaceStays(s, s', a);
    PlaceStays(s, s', b);
    StepKeepsPromise(cfg, s, step, a, b, a);
    StepKeepsPromise(cfg, s, step, a, b, b);
  }

  lemma StepKeepsPair(cfg: Config, s: State, step: Step, a: Conn, b: Conn)
    requires PairContext(cfg, s, step) && a < b < |Next(cfg, s, step).links| && Together(Next(cfg, s, step), a, b)
    ensures Promised(Next(cfg, s, step), b, a) && Promised(Next(cfg, s, step), b, b)
  {
    hide Next, Promised, Together, RoomsFollow, LinkFollows, RoomsOk, PcsOk, IdsOk, PairOk;
    if b < |s.links| {
      StepKeepsOldPair(cfg, s, step, a, b);
    } else {
      OnlyJoinsAdd(cfg, s, step);
      PlaceStays(s, Next(cfg, s, step), a);
      NewcomerPromises(cfg, s, step, a);
    }
  }

  lemma StepKeepsPairs(cfg: Config, s: State, step: Step)
    requires PairContext(cfg, s, step)
    ensures PairOk(Next(cfg, s, step))
  {
    var s' := Next(cfg, s, step);
    assert |s.links| <= |s'.links|;
    hide Next, PairContext, Promised, Together;
    forall a, b | 0 <= a < b < |s'.links| && Together(s', a, b)
      ensures Promised(s', b, a) && Promised(s', b, b)
    {
      StepKeepsPair(cfg, s, step, a, b);
    }
  }

  lemma PlaceStays(s: State, s': State, c: Conn)
    requires LinksFollow(s, s') && c < |s.links|
    ensures s'.links[c].place == s.links[c].place
  {
    assert LinkFollows(s.links[c], s'.links[c]);
  }

  lemma OnlyJoinsAdd(cfg: Config, s: State, step: Step)
    requires Enabled(s, step) && |Next(cfg, s, step).links| > |s.links|
    ensures step.JoinRoom?
  {
    hide Create, Evict, Occupants, Join, Leave, Snapshot, Push, Pump;
  }
}
