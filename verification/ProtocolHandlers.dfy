/**
 What a connection's handler does next (internal/signaling/handler.go:93-166), over whole runs: whom a
 broadcast reached and what follows from it, how a handler ends, and that a hangup deletes the room.
 */
module ProtocolHandlers {
  import opened Wrappers
  import opened Rooms
  import opened Mailbox
  import opened Protocol
  import opened ProtocolRooms
  import opened ProtocolMessages
  import opened ProtocolIsolation
  import opened ProtocolRuns
  import opened ProtocolBroadcasts

  // ---- Whom a broadcast reached ----

  /** The connections that have accepted the payload. */
  function Hearers(s: State, p: Payload): set<Conn> {
    set x | 0 <= x < |s.links| && p in s.links[x].box.accepted
  }

  predicate IsBroadcast(p: Payload) {
    !p.Welcome? && !p.Reply?
  }

  /** A broadcast counts exactly those that accepted it, and has yet to offer it to others only. */
  ghost predicate CountOk(s: State, pc: Pc) {
    pc.Fanout? && IsBroadcast(pc.payload) ==>
      var heard := Hearers(s, pc.payload);
      && pc.sent == |heard| && pc.targets !! heard
      && (pc.probed.Some? ==> pc.probed.value !in heard && pc.probed.value !in pc.targets)
  }

  /** A peer-ready is only ever announced by the second of two. */
  ghost predicate ReadyOk(s: State, c: Conn)
    requires c < |s.links|
  {
    var link := s.links[c];
    link.pc.ReadyDue? || (link.pc.Fanout? && link.pc.payload.PeerReady?) ==> link.place.participants == 2
  }

  ghost predicate HeardReadyOk(s: State, x: Conn)
    requires x < |s.links|
  {
    forall k :: 0 <= k < |s.links[x].box.accepted| && s.links[x].box.accepted[k].PeerReady? ==>
                  var b := s.links[x].box.accepted[k].sender; b < |s.links| && s.links[b].place.participants == 2
  }

  ghost predicate HandlersOk(s: State) {
    forall c :: 0 <= c < |s.links| ==> CountOk(s, s.links[c].pc) && ReadyOk(s, c) && HeardReadyOk(s, c)
  }

  /** No step but a push of the payload's own handler changes who has heard it. */
  lemma HearersStay(cfg: Config, s: State, step: Step, c: Conn, p: Payload)
    requires Boxes(s) && PcsOk(s) && Enabled(s, step) && IsBroadcast(p) && p.sender == c && c < |s.links|
    requires LinksFollow(s, Next(cfg, s, step)) && step != Pushing(c)
    ensures Hearers(Next(cfg, s, step), p) == Hearers(s, p)
  {
    var s' := Next(cfg, s, step);
    LinkCount(s, s');
    hide Next, Enabled, LinksFollow, Boxes, PcsOk;
    forall x | 0 <= x < |s'.links|
      ensures p in s'.links[x].box.accepted <==> x < |s.links| && p in s.links[x].box.accepted
    {
      if x == |s.links| {
        NewcomerLogEmpty(cfg, s, step);
      } else {
        LogsGrowByPushing(cfg, s, step, x);
        if step.Pushing? {
          PushesItsOwn(s, step.c);
        }
      }
    }
  }

  lemma PushesItsOwn(s: State, d: Conn)
    requires PcsOk(s) && Enabled(s, Pushing(d))
    ensures IsBroadcast(At(s, d).payload) ==> At(s, d).payload.sender == d
  {
    assert PcOk(s.links[d], d, |s.links|);
  }

  lemma HearersGrow(s: State, s': State, x: Conn, p: Payload)
    requires |s'.links| == |s.links| && x < |s.links|
    requires forall y :: 0 <= y < |s.links| && y != x ==> s'.links[y].box == s.links[y].box
    requires s'.links[x].box.accepted == s.links[x].box.accepted + [p]
    ensures Hearers(s', p) == Hearers(s, p) + {x}
  {
    var log := s.links[x].box.accepted;
    assert (log + [p])[|log|] == p;
  }

  lemma HearersSame(s: State, s': State, x: Conn, p: Payload)
    requires |s'.links| == |s.links| && x < |s.links|
    requires forall y :: 0 <= y < |s.links| && y != x ==> s'.links[y].box == s.links[y].box
    requires s'.links[x].box.accepted == s.links[x].box.accepted
    ensures Hearers(s', p) == Hearers(s, p)
  {
  }

  lemma AfterOnePush(cfg: Config, s: State, c: Conn)
    requires Enabled(s, Pushing(c))
    ensures var s' := Next(cfg, s, Pushing(c));
            var x := s.links[c].pc.probed.value;
            var (ok, box) := Push(s.links[x].box, s.links[c].pc.payload);
            && |s'.links| == |s.links|
            && (forall y :: 0 <= y < |s.links| && y != x ==> s'.links[y].box == s.links[y].box)
            && s'.links[x].box == box
            && s'.links[c].pc ==
               s.links[c].pc.(probed := None, sent := s.links[c].pc.sent + if ok then 1 else 0)
  {
    hide Push;
  }

  lemma PushCounts(cfg: Config, s: State, c: Conn)
    requires Boxes(s) && Enabled(s, Pushing(c)) && CountOk(s, s.links[c].pc)
    ensures var s' := Next(cfg, s, Pushing(c)); c < |s'.links| && CountOk(s', s'.links[c].pc)
  {
    var s' := Next(cfg, s, Pushing(c));
    var x := s.links[c].pc.probed.value;
    var p := s.links[c].pc.payload;
    AfterOnePush(cfg, s, c);
    assert Faithful(s.links[x].box);
    hide Push, Faithful, Boxes, Hearers, Next, Enabled;
    PushIsFaithful(s.links[x].box, p);
    if Push(s.links[x].box, p).0 {
      HearersGrow(s, s', x, p);
    } else {
      HearersSame(s, s', x, p);
    }
  }

  lemma ProbeCounts(cfg: Config, s: State, c: Conn, target: Conn)
    requires Enabled(s, Probing(c, target)) && CountOk(s, s.links[c].pc)
    requires Hearers(Next(cfg, s, Probing(c, target)), At(s, c).payload) == Hearers(s, At(s, c).payload)
    ensures var s' := Next(cfg, s, Probing(c, target)); c < |s'.links| && CountOk(s', s'.links[c].pc)
  {
    hide Hearers;
  }

  lemma StartCounts(cfg: Config, s: State, step: Step, c: Conn)
    requires LogsOk(s) && Enabled(s, step) && Actor(step) == Some(c) && !step.Probing? && !step.Pushing?
    requires c < |s.links| && c < |Next(cfg, s, step).links|
    requires forall x :: 0 <= x < |Next(cfg, s, step).links| ==>
                           Next(cfg, s, step).links[x].box.accepted ==
                           if x < |s.links| then s.links[x].box.accepted else []
    ensures CountOk(Next(cfg, s, step), Next(cfg, s, step).links[c].pc)
  {
    var s' := Next(cfg, s, step);
    var pc := s'.links[c].pc;
    NewFanout(cfg, s, step, c);
    if pc.Fanout? && IsBroadcast(pc.payload) {
      hide Next, Enabled, Starts, LogsOk;
      forall x | 0 <= x < |s.links| ensures pc.payload !in s.links[x].box.accepted {
        BroadcastIsNew(s, step, c, pc.payload, x);
      }
      assert Hearers(s', pc.payload) == {};
    }
  }

  lemma NewFanout(cfg: Config, s: State, step: Step, c: Conn)
    requires Enabled(s, step) && Actor(step) == Some(c) && !step.Probing? && !step.Pushing?
    requires c < |s.links| && c < |Next(cfg, s, step).links|
    ensures var pc := Next(cfg, s, step).links[c].pc;
            pc.Fanout? ==>
              pc.sent == 0 && pc.probed == None && (IsBroadcast(pc.payload) ==> Starts(s, step, c, pc.payload))
  {
    hide Create, Evict, Occupants, Join, Leave, Snapshot, Push, Pump;
  }

  lemma NoNewEntries(cfg: Config, s: State, step: Step, x: Conn)
    requires Boxes(s) && Enabled(s, step) && LinksFollow(s, Next(cfg, s, step)) && !step.Pushing?
    requires x < |Next(cfg, s, step).links|
    ensures Next(cfg, s, step).links[x].box.accepted == if x < |s.links| then s.links[x].box.accepted else []
  {
    LinkCount(s, Next(cfg, s, step));
    hide Next, Enabled, Boxes, LinksFollow;
    if x < |s.links| {
      LogsGrowByPushing(cfg, s, step, x);
    } else {
      NewcomerLogEmpty(cfg, s, step);
    }
  }

  lemma ActorCounts(cfg: Config, s: State, step: Step, c: Conn)
    requires Boxes(s) && LogsOk(s) && Enabled(s, step) && c < |s.links| && CountOk(s, s.links[c].pc)
    requires LinksFollow(s, Next(cfg, s, step)) && Actor(step) == Some(c) && !step.Pushing?
    ensures CountOk(Next(cfg, s, step), Next(cfg, s, step).links[c].pc)
  {
    var s' := Next(cfg, s, step);
    LinkCount(s, s');
    hide Next, Enabled, Boxes, LogsOk, LinksFollow, CountOk;
    if step.Probing? {
      ProbeStays(cfg, s, step, At(s, c).payload);
      ProbeCounts(cfg, s, c, step.target);
    } else {
      forall x | 0 <= x < |s'.links|
        ensures s'.links[x].box.accepted == if x < |s.links| then s.links[x].box.accepted else []
      {
        NoNewEntries(cfg, s, step, x);
      }
      StartCounts(cfg, s, step, c);
    }
  }

  lemma StepKeepsCount(cfg: Config, s: State, step: Step, c: Conn)
    requires Sound(cfg, s) && HandlersOk(s) && Enabled(s, step) && c < |s.links|
    requires LinksFollow(s, Next(cfg, s, step))
    ensures CountOk(Next(cfg, s, step), Next(cfg, s, step).links[c].pc)
  {
    assert Boxes(s) && PcsOk(s) && LogsOk(s) && CountOk(s, s.links[c].pc);
    LinkCount(s, Next(cfg, s, step));
    hide Next, Enabled, Sound, HandlersOk, Boxes, PcsOk, LogsOk, LinksFollow, CountOk;
    if step == Pushing(c) {
      PushCounts(cfg, s, c);
    } else if Actor(step) == Some(c) {
      ActorCounts(cfg, s, step, c);
    } else {
      OnlyTheActorMoves(cfg, s, step, c);
      OthersCount(cfg, s, step, c);
    }
  }

  lemma PayloadIsOwn(s: State, c: Conn)
    requires PcsOk(s) && c < |s.links| && s.links[c].pc.Fanout?
    ensures IsBroadcast(s.links[c].pc.payload) ==> s.links[c].pc.payload.sender == c
  {
    assert PcOk(s.links[c], c, |s.links|);
  }

  lemma ProbeStays(cfg: Config, s: State, step: Step, p: Payload)
    requires Boxes(s) && Enabled(s, step) && LinksFollow(s, Next(cfg, s, step)) && step.Probing?
    ensures Hearers(Next(cfg, s, step), p) == Hearers(s, p)
  {
    var s' := Next(cfg, s, step);
    LinkCount(s, s');
    hide Next, Enabled, LinksFollow, Boxes;
    forall x | 0 <= x < |s'.links|
      ensures p in s'.links[x].box.accepted <==> x < |s.links| && p in s.links[x].box.accepted
    {
      if x < |s.links| {
        LogsGrowByPushing(cfg, s, step, x);
      } else {
        NewcomerLogEmpty(cfg, s, step);
      }
    }
  }

  lemma OthersCount(cfg: Config, s: State, step: Step, c: Conn)
    requires Boxes(s) && PcsOk(s) && Enabled(s, step) && LinksFollow(s, Next(cfg, s, step))
    requires c < |s.links| && Actor(step) != Some(c) && CountOk(s, s.links[c].pc)
    ensures CountOk(Next(cfg, s, step), s.links[c].pc)
  {
    var pc := s.links[c].pc;
    hide Next, Enabled, LinksFollow, Boxes, PcsOk, Hearers;
    if pc.Fanout? && IsBroadcast(pc.payload) {
      PayloadIsOwn(s, c);
      HearersStay(cfg, s, step, c, pc.payload);
    }
  }

  // ---- Who is told to be ready ----

  lemma ReadyStep(cfg: Config, s: State, step: Step, c: Conn)
    requires PcsOk(s) && Enabled(s, step) && c < |s.links| && c < |Next(cfg, s, step).links| && ReadyOk(s, c)
    ensures ReadyOk(Next(cfg, s, step), c)
  {
    assert PcOk(s.links[c], c, |s.links|);
    if Actor(step) != Some(c) {
      OnlyTheActorMoves(cfg, s, step, c);
    }
    hide Create, Evict, Occupants, Join, Leave, Snapshot, Push, Pump;
  }

  lemma NewcomerReady(cfg: Config, s: State, step: Step)
    requires Enabled(s, step)
    ensures var s' := Next(cfg, s, step);
            |s'.links| == |s.links| + 1 ==>
              ReadyOk(s', |s.links|) && CountOk(s', s'.links[|s.links|].pc)
  {
    hide Create, Evict, Occupants, Join, Leave, Snapshot, Push, Pump, Hearers;
  }

  lemma HeardReadyStep(cfg: Config, s: State, step: Step, x: Conn)
    requires Sound(cfg, s) && HandlersOk(s) && Enabled(s, step) && LinksFollow(s, Next(cfg, s, step))
    requires x < |s.links|
    ensures HeardReadyOk(Next(cfg, s, step), x)
  {
    var s' := Next(cfg, s, step);
    assert Boxes(s) && PcsOk(s) && HeardReadyOk(s, x);
    PlacesStay(s, s');
    hide Next, Sound, Boxes, PcsOk, LinksFollow;
    LogsGrowByPushing(cfg, s, step, x);
    var log := s'.links[x].box.accepted;
    forall k | 0 <= k < |log| && log[k].PeerReady?
      ensures log[k].sender < |s'.links| && s'.links[log[k].sender].place.participants == 2
    {
      if k == |s.links[x].box.accepted| {
        PayloadIsOwn(s, step.c);
        assert ReadyOk(s, step.c);
      } else {
        assert log[k] == s.links[x].box.accepted[k];
      }
    }
  }

  lemma PlacesStay(s: State, s': State)
    requires LinksFollow(s, s')
    ensures |s.links| <= |s'.links| && forall c :: 0 <= c < |s.links| ==> s'.links[c].place == s.links[c].place
  {
    hide Extends;
    forall c | 0 <= c < |s.links| ensures s'.links[c].place == s.links[c].place {
      assert LinkFollows(s.links[c], s'.links[c]);
    }
  }

  lemma StepKeepsHandlers(cfg: Config, s: State, step: Step)
    requires Sound(cfg, s) && HandlersOk(s) && Enabled(s, step)
    ensures HandlersOk(Next(cfg, s, step))
  {
    var s' := Next(cfg, s, step);
    assert RoomsOk(s) && Boxes(s) && PcsOk(s);
    StepLinks(cfg, s, step);
    LinkCount(s, s');
    assert forall c :: 0 <= c < |s.links| ==> ReadyOk(s, c);
    hide Next, Enabled, Sound, HandlersOk, CountOk, ReadyOk, HeardReadyOk, RoomsOk, Boxes, PcsOk, LinksFollow;
    hide NewcomerOk;
    forall c | 0 <= c < |s'.links| ensures CountOk(s', s'.links[c].pc) && ReadyOk(s', c) && HeardReadyOk(s', c) {
      if c == |s.links| {
        NewcomerReady(cfg, s, step);
        NewcomerLogEmpty(cfg, s, step);
        NothingHeard(s', c);
      } else {
        StepKeepsCount(cfg, s, step, c);
        ReadyStep(cfg, s, step, c);
        HeardReadyStep(cfg, s, step, c);
      }
    }
    AllHandlersOk(s');
  }

  lemma NothingHeard(s: State, x: Conn)
    requires x < |s.links| && s.links[x].box.accepted == []
    ensures HeardReadyOk(s, x)
  {
  }

  lemma AllHandlersOk(s: State)
    requires forall c :: 0 <= c < |s.links| ==> CountOk(s, s.links[c].pc) && ReadyOk(s, c) && HeardReadyOk(s, c)
    ensures HandlersOk(s)
  {
  }

  lemma {:induction false} RunKeepsHandlers(cfg: Config, s: State, steps: seq<Step>)
    requires Sound(cfg, s) && HandlersOk(s) && Legal(cfg, s, steps)
    ensures HandlersOk(Exec(cfg, s, steps))
    decreases |steps|
  {
    hide Sound, HandlersOk, Next, Enabled;
    if steps == [] {
    } else {
      StepKeepsSound(cfg, s, steps[0]);
      StepKeepsHandlers(cfg, s, steps[0]);
      RunKeepsHandlers(cfg, Next(cfg, s, steps[0]), steps[1..]);
    }
  }

  lemma ReachableHandlers(cfg: Config, s: State)
    requires Reachable(cfg, s)
    ensures HandlersOk(s)
  {
    var steps :| Legal(cfg, INIT, steps) && Exec(cfg, INIT, steps) == s;
    InitSound(cfg);
    RunKeepsHandlers(cfg, INIT, steps);
  }

  /** A peer-ready is only ever accepted of a connection that was told on joining that there are two. */
  lemma ReadyMeansTwo(cfg: Config, s: State, b: Conn, x: Conn)
    requires Reachable(cfg, s) && x < |s.links| && PeerReady(b) in s.links[x].box.accepted
    ensures b < |s.links| && s.links[b].place.participants == 2
  {
    ReachableHandlers(cfg, s);
    assert HeardReadyOk(s, x);
    var k :| 0 <= k < |s.links[x].box.accepted| && s.links[x].box.accepted[k] == PeerReady(b);
  }

  // ---- What follows a broadcast ----

  /**
   What a handler does once everybody has been offered its payload. After the welcome it announces
   itself exactly when there are two; it answers a relay nobody accepted, and no other, with
   "peer_unavailable"; after its hangup it leaves, with the deletion of its room due two seconds later;
   after its departure it is done; otherwise it reads on.
   */
  lemma WhatFollows(cfg: Config, s: State, c: Conn)
    requires Reachable(cfg, s) && Enabled(s, Finish(c))
    ensures var s' := Next(cfg, s, Finish(c));
            var link := s.links[c];
            && |s'.links| == |s.links|
            && s'.doomed ==
               s.doomed + (if link.pc.payload == HungUp(c) then {Doom(link.place.room, s.now + 2_000_000_000)} else {})
            && s'.links[c].pc ==
               match link.pc.payload
               case Welcome(_, _, _) => if link.place.participants == 2 then ReadyDue else Reading
               case Relayed(_, _, _) =>
                 if forall x :: 0 <= x < |s.links| ==> link.pc.payload !in s.links[x].box.accepted
                 then Fanout({c}, None, Reply("peer_unavailable"), 0, AfterReply) else Reading
               case HungUp(_) => Leaving
               case PeerLeft(_) => Done
               case PeerReady(_) => Reading
               case Reply(_) => Reading
  {
    ReachableIsSound(cfg, s);
    ReachableHandlers(cfg, s);
    assert PcsOk(s) && CountOk(s, s.links[c].pc);
    FanoutEnds(cfg, s, c);
    hide Sound, HandlersOk, Reachable, Next, PcsOk, Hearers;
    NobodyHeard(s, s.links[c].pc.payload);
  }

  lemma FanoutEnds(cfg: Config, s: State, c: Conn)
    requires PcsOk(s) && Enabled(s, Finish(c))
    ensures var s' := Next(cfg, s, Finish(c));
            var link := s.links[c];
            && |s'.links| == |s.links|
            && s'.doomed ==
               s.doomed + (if link.pc.payload == HungUp(c) then {Doom(link.place.room, s.now + 2_000_000_000)} else {})
            && s'.links[c].pc ==
               match link.pc.payload
               case Welcome(_, _, _) => if link.place.participants == 2 then ReadyDue else Reading
               case Relayed(_, _, _) =>
                 if link.pc.sent == 0 then Fanout({c}, None, Reply("peer_unavailable"), 0, AfterReply) else Reading
               case HungUp(_) => Leaving
               case PeerLeft(_) => Done
               case PeerReady(_) => Reading
               case Reply(_) => Reading
  {
    assert PcOk(s.links[c], c, |s.links|);
    assert s.doomed + {} == s.doomed;
    hide PcsOk;
  }

  lemma NobodyHeard(s: State, p: Payload)
    ensures |Hearers(s, p)| == 0 <==> forall x :: 0 <= x < |s.links| ==> p !in s.links[x].box.accepted
  {
    forall x | 0 <= x < |s.links| && p in s.links[x].box.accepted ensures |Hearers(s, p)| != 0 {
      assert x in Hearers(s, p);
    }
    if forall x :: 0 <= x < |s.links| ==> p !in s.links[x].box.accepted {
      assert Hearers(s, p) == {};
    }
  }

  /** The client is told of what it sent that could not be used, and a ping is answered. */
  lemma RepliesAreOwed(cfg: Config, s: State, c: Conn, msg: Incoming, steps: seq<Step>)
    requires Reachable(cfg, s) && Enabled(s, Handle(c, msg)) && c < |s.links| && !msg.HangUp? && !msg.Signal?
    requires Legal(cfg, Next(cfg, s, Handle(c, msg)), steps)
    ensures var s' := Exec(cfg, Next(cfg, s, Handle(c, msg)), steps);
            var p := Reply(match msg case BadJson => "bad_json" case Ping => "pong" case _ => "rejected");
            Owed(s', c, c, p) || Served(s', c, p)
  {
    ReachableIsSound(cfg, s);
    StepKeepsSound(cfg, s, Handle(c, msg));
    var m := Next(cfg, s, Handle(c, msg));
    var p := Reply(match msg case BadJson => "bad_json" case Ping => "pong" case _ => "rejected");
    assert Owed(m, c, c, p) && c < |m.links|;
    hide Next, Sound, Owed, Served;
    RunKeepsOwing(cfg, m, steps, c, c, p);
  }

  // ---- How a handler ends ----

  /** About to leave, or gone from its room, with nothing left but to announce that. */
  ghost predicate Ending(s: State, c: Conn) {
    && c < |s.links|
    && (s.links[c].pc.Leaving? ||
        (!Current(s, c) &&
         (s.links[c].pc.LeftDue? || s.links[c].pc.Done? || (s.links[c].pc.Fanout? && s.links[c].pc.after.AfterLeft?))))
  }

  lemma LeavingEnds(cfg: Config, s: State, c: Conn)
    requires Enabled(s, LeaveRoom(c))
    ensures Ending(Next(cfg, s, LeaveRoom(c)), c)
  {
    var place := s.links[c].place;
    LeaveExactly(s.rooms, s.now, place.room, place.id, c);
    hide Leave;
  }

  lemma EndingActs(cfg: Config, s: State, step: Step, c: Conn)
    requires Enabled(s, step) && Ending(s, c) && Actor(step) == Some(c) && !step.LeaveRoom?
    ensures Ending(Next(cfg, s, step), c)
  {
    hide Leave, Snapshot, Push, Current;
    hide AfterCreate, AfterJoin, AfterMessage, AfterLeave;
    var s' := Next(cfg, s, step);
    assert s'.rooms == s.rooms && s'.links[c].place == s.links[c].place;
    StillGone(s, s', c);
  }

  lemma EndingStep(cfg: Config, s: State, step: Step, c: Conn)
    requires Sound(cfg, s) && Enabled(s, step) && Ending(s, c)
    ensures Ending(Next(cfg, s, step), c)
  {
    var s' := Next(cfg, s, step);
    if step == LeaveRoom(c) {
      hide Next, Current, Sound;
      LeavingEnds(cfg, s, c);
    } else {
      hide Next, Sound, Current, Enabled;
      if Actor(step) == Some(c) {
        hide Ending;
        EndingActs(cfg, s, step, c);
      } else {
        NeverRegained(cfg, s, step, c);
        OnlyTheActorMoves(cfg, s, step, c);
      }
    }
  }

  lemma NeverRegained(cfg: Config, s: State, step: Step, c: Conn)
    requires Sound(cfg, s) && Enabled(s, step) && c < |s.links|
    ensures Current(Next(cfg, s, step), c) ==> Current(s, c)
  {
    hide Next, Sound, Current, Enabled;
    StepEvolves(cfg, s, step);
    assert ConnFollows(s, Next(cfg, s, step), c);
  }

  lemma StillGone(s: State, s': State, c: Conn)
    requires c < |s.links| && c < |s'.links| && s'.rooms == s.rooms && s'.links[c].place == s.links[c].place
    ensures Current(s', c) == Current(s, c)
  {
  }

  lemma {:induction false} EndingRun(cfg: Config, s: State, steps: seq<Step>, c: Conn)
    requires Sound(cfg, s) && Legal(cfg, s, steps) && Ending(s, c)
    ensures Ending(Exec(cfg, s, steps), c)
    decreases |steps|
  {
    hide Sound, Ending, Next, Enabled;
    if steps == [] {
    } else {
      StepKeepsSound(cfg, s, steps[0]);
      EndingStep(cfg, s, steps[0], c);
      EndingRun(cfg, Next(cfg, s, steps[0]), steps[1..], c);
    }
  }

  /**
   Leaving takes a connection out of its room exactly when it is current there, and has its departure
   announced exactly when somebody else is then still in the room.
   */
  lemma LeavesExactly(cfg: Config, s: State, c: Conn)
    requires Enabled(s, LeaveRoom(c))
    ensures var s' := Next(cfg, s, LeaveRoom(c));
            var place := s.links[c].place;
            && c < |s'.links| && !Current(s', c)
            && (s'.links[c].left <==> s.links[c].left || Current(s, c))
            && s'.links[c].pc ==
               if Current(s, c) && |s.rooms[place.room].peers| > 1 then LeftDue else Done
  {
    var place := s.links[c].place;
    LeaveExactly(s.rooms, s.now, place.room, place.id, c);
    hide Leave;
  }

  /** The step is a failed read of `c`, a read after it lost its place, or the end of its hangup. */
  ghost predicate Ends(s: State, step: Step, c: Conn) {
    match step
    case ReadFails(b) => b == c
    case ReadArrives(b) => b == c && !Current(s, c)
    case Finish(b) => b == c && c < |s.links| && s.links[c].pc.Fanout? && s.links[c].pc.payload == HungUp(c)
    case _ => false
  }

  /** From then on a handler only leaves, and when it has left it does not hold a place in its room. */
  lemma HandlerEnds(cfg: Config, s: State, step: Step, c: Conn, steps: seq<Step>)
    requires Reachable(cfg, s) && Enabled(s, step) && Ends(s, step, c) && Legal(cfg, Next(cfg, s, step), steps)
    ensures Ending(Exec(cfg, Next(cfg, s, step), steps), c)
  {
    ReachableIsSound(cfg, s);
    if step.Finish? {
      WhatFollows(cfg, s, c);
    }
    assert Ending(Next(cfg, s, step), c);
    hide Next, Sound, Ending, Ends;
    StepKeepsSound(cfg, s, step);
    EndingRun(cfg, Next(cfg, s, step), steps, c);
  }

  /** A message that was read is handled, whatever it is, exactly when the connection is current. */
  lemma CurrentReadsAreHandled(cfg: Config, s: State, c: Conn, msg: Incoming)
    requires Enabled(s, ReadArrives(c))
    ensures Enabled(Next(cfg, s, ReadArrives(c)), Handle(c, msg)) <==> Current(s, c)
  {
  }

  // ---- A hangup deletes the room ----

  /** The deletion is pending, or the room is gone, and then for good. */
  ghost predicate Doomed(s: State, doom: Doom) {
    doom.room in s.used && (doom in s.doomed || doom.room !in s.rooms)
  }

  lemma DoomStep(cfg: Config, s: State, step: Step, doom: Doom)
    requires Sound(cfg, s) && Enabled(s, step) && Doomed(s, doom)
    ensures Doomed(Next(cfg, s, step), doom)
  {
    var s' := Next(cfg, s, step);
    StepEvolves(cfg, s, step);
    assert DirectoryFollows(s, s');
    hide Next, Sound, Evolves, Enabled;
    if doom in s.doomed {
      DoomsStay(cfg, s, step, doom);
    }
  }

  lemma DoomsStay(cfg: Config, s: State, step: Step, doom: Doom)
    requires Enabled(s, step) && doom in s.doomed
    ensures doom in Next(cfg, s, step).doomed || doom.room !in Next(cfg, s, step).rooms
  {
    hide Create, Evict, Occupants, Join, Leave, Snapshot, Push, Pump;
  }

  lemma {:induction false} DoomRun(cfg: Config, s: State, steps: seq<Step>, doom: Doom)
    requires Sound(cfg, s) && Legal(cfg, s, steps) && Doomed(s, doom)
    ensures Doomed(Exec(cfg, s, steps), doom)
    decreases |steps|
  {
    hide Sound, Doomed, Next, Enabled;
    if steps == [] {
    } else {
      StepKeepsSound(cfg, s, steps[0]);
      DoomStep(cfg, s, steps[0], doom);
      DoomRun(cfg, Next(cfg, s, steps[0]), steps[1..], doom);
    }
  }

  /**
   Once the hangup of `c` has been broadcast, its room has a deletion due exactly two seconds later.
   After any run that is still pending or the room is gone; from its due time on it can be taken, and
   then the room is gone.
   */
  lemma HangupIsDeletion(cfg: Config, s: State, c: Conn, steps: seq<Step>)
    requires Reachable(cfg, s) && Enabled(s, Finish(c)) && s.links[c].pc.payload == HungUp(c)
    requires Legal(cfg, Next(cfg, s, Finish(c)), steps)
    ensures var s' := Exec(cfg, Next(cfg, s, Finish(c)), steps);
            var doom := Doom(s.links[c].place.room, s.now + 2_000_000_000);
            && (doom in s'.doomed || doom.room !in s'.rooms)
            && (doom in s'.doomed && s'.now >= s.now + 2_000_000_000 ==> Enabled(s', DeleteRoom(doom)))
            && (Enabled(s', DeleteRoom(doom)) ==>
                  var gone := Next(cfg, s', DeleteRoom(doom)); doom.room !in gone.rooms && doom !in gone.doomed)
  {
    var m := Next(cfg, s, Finish(c));
    var doom := Doom(s.links[c].place.room, s.now + 2_000_000_000);
    ReachableIsSound(cfg, s);
    WhatFollows(cfg, s, c);
    RoomIsUsed(cfg, s, c);
    StepKeepsSound(cfg, s, Finish(c));
    StepEvolves(cfg, s, Finish(c));
    assert DirectoryFollows(s, m);
    assert Doomed(m, doom);
    DoomRun(cfg, m, steps, doom);
    hide Sound, Evolves, Reachable;
  }

  lemma RoomIsUsed(cfg: Config, s: State, c: Conn)
    requires Sound(cfg, s) && c < |s.links|
    ensures s.links[c].place.room in s.used
  {
    assert PlaceOk(s, s.links[c].place);
  }

  /** The hangup of `c` is being broadcast, or a deletion that it caused is pending, or the room is gone. */
  ghost predicate HungUpOn(s: State, c: Conn, t: Time) {
    && c < |s.links| && t <= s.now
    && var room := s.links[c].place.room;
       && room in s.used
       && (|| room !in s.rooms
           || (s.links[c].pc.Fanout? && s.links[c].pc.payload == HungUp(c))
           || exists d :: d in s.doomed && d.room == room && t + 2_000_000_000 <= d.due <= s.now + 2_000_000_000)
  }

  lemma HangingUpGoesOn(cfg: Config, s: State, step: Step, c: Conn)
    requires PcsOk(s) && Enabled(s, step) && c < |s.links|
    requires s.links[c].pc.Fanout? && s.links[c].pc.payload == HungUp(c)
    ensures var s' := Next(cfg, s, step);
            c < |s'.links| &&
            ((s'.links[c].pc.Fanout? && s'.links[c].pc.payload == HungUp(c)) ||
             Doom(s.links[c].place.room, s.now + 2_000_000_000) in s'.doomed)
  {
    assert PcOk(s.links[c], c, |s.links|);
    if Actor(step) != Some(c) {
      OnlyTheActorMoves(cfg, s, step, c);
    } else {
      hide Create, Evict, Occupants, Join, Leave, Snapshot, Push, Pump;
    }
  }

  lemma HungUpOnStep(cfg: Config, s: State, step: Step, c: Conn, t: Time)
    requires Sound(cfg, s) && Enabled(s, step) && HungUpOn(s, c, t)
    ensures HungUpOn(Next(cfg, s, step), c, t)
  {
    var s' := Next(cfg, s, step);
    var room := s.links[c].place.room;
    StepEvolves(cfg, s, step);
    assert ConnFollows(s, s', c) && DirectoryFollows(s, s') && s.now <= s'.now;
    assert PcsOk(s);
    hide Next, Sound, Evolves, Enabled, PcsOk, Current, Extends;
    if room in s'.rooms {
      if s.links[c].pc.Fanout? && s.links[c].pc.payload == HungUp(c) {
        HangingUpGoesOn(cfg, s, step, c);
      } else {
        var d :| d in s.doomed && d.room == room && t + 2_000_000_000 <= d.due <= s.now + 2_000_000_000;
        DoomsStay(cfg, s, step, d);
        assert d in s'.doomed && d.due <= s'.now + 2_000_000_000;
      }
    }
  }

  lemma {:induction false} HungUpOnRun(cfg: Config, s: State, steps: seq<Step>, c: Conn, t: Time)
    requires Sound(cfg, s) && Legal(cfg, s, steps) && HungUpOn(s, c, t)
    ensures HungUpOn(Exec(cfg, s, steps), c, t)
    decreases |steps|
  {
    hide Sound, HungUpOn, Next, Enabled;
    if steps == [] {
    } else {
      StepKeepsSound(cfg, s, steps[0]);
      HungUpOnStep(cfg, s, steps[0], c, t);
      HungUpOnRun(cfg, Next(cfg, s, steps[0]), steps[1..], c, t);
    }
  }

  /**
   A hangup leads to the deletion of the room: at any later moment it is still being broadcast, or the
   room is gone, or its deletion is pending, due two seconds after some moment since the hangup.
   */
  lemma HangupLeadsToDeletion(cfg: Config, s: State, c: Conn, steps: seq<Step>)
    requires Reachable(cfg, s) && Enabled(s, Handle(c, HangUp)) && c < |s.links|
    requires Legal(cfg, Next(cfg, s, Handle(c, HangUp)), steps)
    ensures var s' := Exec(cfg, Next(cfg, s, Handle(c, HangUp)), steps);
            var room := s.links[c].place.room;
            && c < |s'.links|
            && (|| room !in s'.rooms
                || (s'.links[c].pc.Fanout? && s'.links[c].pc.payload == HungUp(c))
                || exists d :: d in s'.doomed && d.room == room &&
                               s.now + 2_000_000_000 <= d.due <= s'.now + 2_000_000_000)
  {
    var m := Next(cfg, s, Handle(c, HangUp));
    ReachableIsSound(cfg, s);
    RoomIsUsed(cfg, s, c);
    StepKeepsSound(cfg, s, Handle(c, HangUp));
    assert m.links[c].place == s.links[c].place && HungUpOn(m, c, s.now);
    hide Next, Sound, Enabled, Reachable;
    HungUpOnRun(cfg, m, steps, c, s.now);
    RunEvolves(cfg, m, steps);
    SamePlaceAfter(m, Exec(cfg, m, steps), c);
  }

  lemma SamePlaceAfter(s: State, s': State, c: Conn)
    requires Evolves(s, s') && c < |s.links|
    ensures c < |s'.links| && s'.links[c].place == s.links[c].place
  {
    assert ConnFollows(s, s', c);
  }

  // ---- Death ----

  /**
   A connection dies in exactly two ways: a payload is pushed to it while its buffer is full, or its
   room is reclaimed or deleted while it is current in it.
   */
  lemma DiesExactly(cfg: Config, s: State, step: Step, c: Conn)
    requires Reachable(cfg, s) && Enabled(s, step) && c < |s.links| && !s.links[c].box.dead
    ensures var s' := Next(cfg, s, step);
            && c < |s'.links|
            && (s'.links[c].box.dead <==>
                || (step.Pushing? && s.links[step.c].pc.probed == Some(c) && |s.links[c].box.queue| >= 64)
                || ((step.CreateRoom? || step.Sweep? || step.DeleteRoom?)
                    && Current(s, c) && s.links[c].place.room !in s'.rooms))
  {
    ReachableIsSound(cfg, s);
    assert PeersOk(s);
    hide Sound, Reachable;
    if step.CreateRoom? || step.Sweep? || step.DeleteRoom? {
      DropKills(cfg, s, step, c);
    } else {
      OthersKillByPushing(cfg, s, step, c);
    }
  }

  lemma OccupantIsCurrent(s: State, gone: set<RoomId>, c: Conn)
    requires PeersOk(s) && c < |s.links|
    ensures c in Occupants(s.rooms, gone) <==> Current(s, c) && s.links[c].place.room in gone
  {
    if c in Occupants(s.rooms, gone) {
      var r, id :| r in gone && r in s.rooms && id in s.rooms[r].peers && s.rooms[r].peers[id] == c;
      assert Sits(s, s.rooms[r].peers[id], r, id);
    }
    if Current(s, c) && s.links[c].place.room in gone {
      var r, id := s.links[c].place.room, s.links[c].place.id;
      assert r in gone && r in s.rooms && id in s.rooms[r].peers && s.rooms[r].peers[id] == c;
    }
  }

  lemma DropKills(cfg: Config, s: State, step: Step, c: Conn)
    requires PeersOk(s) && Enabled(s, step) && c < |s.links| && !s.links[c].box.dead
    requires step.CreateRoom? || step.Sweep? || step.DeleteRoom?
    ensures var s' := Next(cfg, s, step);
            c < |s'.links| && (s'.links[c].box.dead <==> Current(s, c) && s.links[c].place.room !in s'.rooms)
  {
    var s' := Next(cfg, s, step);
    OccupantIsCurrent(s, s.rooms.Keys - s'.rooms.Keys, c);
    if Current(s, c) {
      CurrentRoomExists(s, c);
    }
    hide Occupants, PeersOk, Current, Create, Evict;
  }

  lemma CurrentRoomExists(s: State, c: Conn)
    requires Current(s, c)
    ensures s.links[c].place.room in s.rooms
  {
  }

  lemma OthersKillByPushing(cfg: Config, s: State, step: Step, c: Conn)
    requires Enabled(s, step) && c < |s.links| && !s.links[c].box.dead
    requires !step.CreateRoom? && !step.Sweep? && !step.DeleteRoom?
    ensures var s' := Next(cfg, s, step);
            c < |s'.links| &&
            (s'.links[c].box.dead <==>
             step.Pushing? && s.links[step.c].pc.probed == Some(c) && |s.links[c].box.queue| >= 64)
  {
    hide Join, Leave, Snapshot;
  }

  // ---- Pumps ----

  lemma SilentStep(cfg: Config, s: State, step: Step, c: Conn)
    requires Enabled(s, step) && c < |s.links| && !s.links[c].box.pumping
    ensures var s' := Next(cfg, s, step);
            c < |s'.links| && !s'.links[c].box.pumping && s'.links[c].box.written == s.links[c].box.written
  {
    hide Create, Evict, Occupants, Join, Leave, Snapshot;
  }

  lemma {:induction false} SilentRun(cfg: Config, s: State, steps: seq<Step>, c: Conn)
    requires Legal(cfg, s, steps) && c < |s.links| && !s.links[c].box.pumping
    ensures var s' := Exec(cfg, s, steps);
            c < |s'.links| && !s'.links[c].box.pumping && s'.links[c].box.written == s.links[c].box.written
    decreases |steps|
  {
    hide Next, Enabled;
    if steps == [] {
    } else {
      SilentStep(cfg, s, steps[0], c);
      SilentRun(cfg, Next(cfg, s, steps[0]), steps[1..], c);
    }
  }

  /** A pump that stopped, or whose write failed, writes nothing more in any run; that write was not one either. */
  lemma StoppedPumpIsSilent(cfg: Config, s: State, step: Step, c: Conn, steps: seq<Step>)
    requires Enabled(s, step) && c < |s.links| && (step == PumpStop(c) || step == PumpTake(c, false))
    requires Legal(cfg, Next(cfg, s, step), steps)
    ensures var s' := Exec(cfg, Next(cfg, s, step), steps);
            c < |s'.links| && s'.links[c].box.written == s.links[c].box.written
  {
    var m := Next(cfg, s, step);
    assert c < |m.links| && !m.links[c].box.pumping && m.links[c].box.written == s.links[c].box.written;
    hide Next;
    SilentRun(cfg, m, steps, c);
  }

  // ---- Nothing gets stuck ----

  /**
   A handler that is not done can always go on: it can offer its payload to whoever is left, or finish;
   it can read whatever the socket brings, or its failure; it can handle any message it has read; and it
   can announce itself, leave, and announce its departure when that is due.
   */
  lemma NeverStuck(cfg: Config, s: State, c: Conn)
    requires Reachable(cfg, s) && c < |s.links|
    ensures match s.links[c].pc
            case Fanout(targets, probed, _, _, _) =>
              if probed.Some? then Enabled(s, Pushing(c))
              else if targets == {} then Enabled(s, Finish(c))
              else forall t :: t in targets ==> Enabled(s, Probing(c, t))
            case ReadyDue => Enabled(s, SnapReady(c))
            case Reading => Enabled(s, ReadFails(c)) && Enabled(s, ReadArrives(c))
            case Checked => forall msg :: Enabled(s, Handle(c, msg))
            case Leaving => Enabled(s, LeaveRoom(c))
            case LeftDue => Enabled(s, SnapLeft(c))
            case Done => true
    ensures s.links[c].box.pumping && s.links[c].box.queue != [] ==> forall ok :: Enabled(s, PumpTake(c, ok))
  {
    ReachableIsSound(cfg, s);
    assert PcOk(s.links[c], c, |s.links|) by { assert PcsOk(s); }
    hide Sound, Reachable;
  }

  /** Time, newcomers and sweeps need nobody's leave; the clock moves by ticks and by nothing else. */
  lemma AlwaysOpen(cfg: Config, s: State, step: Step, now: Time, req: JoinRequest)
    requires Enabled(s, step)
    ensures Enabled(s, Sweep) && (Enabled(s, Tick(now)) <==> s.now <= now)
    ensures Enabled(s, JoinRoom(req)) <==> req.id != "" && (req.minted.Some? ==> req.minted.value != "")
    ensures Next(cfg, s, step).now == if step.Tick? then step.now else s.now
  {
    hide Create, Evict, Occupants, Join, Leave, Snapshot, Push, Pump;
  }
}
