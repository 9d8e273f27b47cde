/**
 What a connection hears first (internal/signaling/handler.go:93). Its handler queues the welcome
 before anything else of its own, but the connection can be addressed by everybody in the room as soon
 as Join returns.
 */
module ProtocolWelcome {
  import opened Wrappers
  import opened Rooms
  import opened Mailbox
  import opened Protocol
  import opened ProtocolRooms
  import opened ProtocolMessages
  import opened ProtocolIsolation
  import opened ProtocolRuns

  /** Queued for connection `c` by its own handler. */
  predicate Own(c: Conn, p: Payload) {
    p.Welcome? || p.Reply? || p == PeerReady(c)
  }

  ghost predicate HasWelcome(log: seq<Payload>) {
    exists k :: 0 <= k < |log| && log[k].Welcome?
  }

  /** The handler's own messages come after a welcome. */
  ghost predicate WelcomeFirst(c: Conn, log: seq<Payload>) {
    forall k :: 0 <= k < |log| && Own(c, log[k]) ==> HasWelcome(log[..k + 1])
  }

  predicate Greeting(pc: Pc) {
    pc.Fanout? && pc.after.AfterWelcome?
  }

  ghost predicate Greeted(box: Mailbox<Payload>) {
    box.dead || HasWelcome(box.accepted)
  }

  /** Where the handler of `c` is, and what it has let its own connection hear so far. */
  ghost predicate PcLeads(link: Link, c: Conn) {
    && (link.pc.Fanout? && link.pc.payload.Reply? ==> AimsOnlyAt(link.pc, c))
    && (if Greeting(link.pc) then c in link.pc.targets || link.pc.probed == Some(c) || Greeted(link.box)
        else Greeted(link.box))
    && (link.pc.Fanout? && !Greeting(link.pc) && link.pc.probed == Some(c) ==> HasWelcome(link.box.accepted))
  }

  predicate AimsOnlyAt(pc: Pc, c: Conn)
    requires pc.Fanout?
  {
    pc.targets <= {c} && (pc.probed.Some? ==> pc.probed.value == c)
  }

  ghost predicate LeadOk(link: Link, c: Conn) {
    PcLeads(link, c) && WelcomeFirst(c, link.box.accepted)
  }

  ghost predicate LeadsOk(s: State) {
    forall c :: 0 <= c < |s.links| ==> LeadOk(s.links[c], c)
  }

  // ---- Logs ----

  lemma WelcomeStays(log: seq<Payload>, later: seq<Payload>)
    requires log <= later && HasWelcome(log)
    ensures HasWelcome(later)
  {
    var k :| 0 <= k < |log| && log[k].Welcome?;
    assert later[k] == log[k];
  }

  lemma GreetedStays(box: Mailbox<Payload>, later: Mailbox<Payload>)
    requires Extends(box, later) && Greeted(box)
    ensures Greeted(later)
  {
    hide HasWelcome;
    if HasWelcome(box.accepted) {
      WelcomeStays(box.accepted, later.accepted);
    }
  }

  lemma WelcomeAtEnd(log: seq<Payload>, p: Payload)
    requires p.Welcome?
    ensures HasWelcome(log + [p])
  {
    assert (log + [p])[|log|] == p;
  }

  lemma OneMoreEntry(c: Conn, log: seq<Payload>, p: Payload)
    requires WelcomeFirst(c, log) && (Own(c, p) ==> p.Welcome? || HasWelcome(log))
    ensures WelcomeFirst(c, log + [p])
  {
    var all := log + [p];
    forall k | 0 <= k < |all| && Own(c, all[k]) ensures HasWelcome(all[..k + 1]) {
      if k < |log| {
        assert all[..k + 1] == log[..k + 1];
      } else {
        assert all[..k + 1] == all;
        if p.Welcome? {
          WelcomeAtEnd(log, p);
        } else {
          WelcomeStays(log, all);
        }
      }
    }
  }

  /** What a fan-out pushes to `x` as its own comes from the handler of `x`, which has welcomed it. */
  lemma PushedIsLater(s: State, d: Conn, x: Conn)
    requires PcsOk(s) && LeadsOk(s) && Enabled(s, Pushing(d)) && At(s, d).probed == Some(x)
    ensures Own(x, At(s, d).payload) ==> At(s, d).payload.Welcome? || HasWelcome(s.links[x].box.accepted)
  {
    hide HasWelcome, Greeted, WelcomeFirst;
    assert PcOk(s.links[d], d, |s.links|);
    assert LeadOk(s.links[d], d);
  }

  lemma StepKeepsFirst(cfg: Config, s: State, step: Step, x: Conn)
    requires Boxes(s) && PcsOk(s) && LeadsOk(s) && Enabled(s, step) && x < |s.links|
    requires x < |Next(cfg, s, step).links|
    ensures WelcomeFirst(x, Next(cfg, s, step).links[x].box.accepted)
  {
    assert LeadOk(s.links[x], x);
    hide Next, LeadsOk, PcsOk, Boxes, WelcomeFirst, HasWelcome, PcLeads;
    LogsGrowByPushing(cfg, s, step, x);
    if Next(cfg, s, step).links[x].box.accepted != s.links[x].box.accepted {
      PushedIsLater(s, step.c, x);
      OneMoreEntry(x, s.links[x].box.accepted, At(s, step.c).payload);
    }
  }

  // ---- Handlers ----

  lemma ProbingLeads(cfg: Config, s: State, c: Conn, target: Conn)
    requires PcsOk(s) && c < |s.links| && PcLeads(s.links[c], c) && Enabled(s, Probing(c, target))
    ensures c < |Next(cfg, s, Probing(c, target)).links| && PcLeads(Next(cfg, s, Probing(c, target)).links[c], c)
  {
    hide HasWelcome;
    assert PcOk(s.links[c], c, |s.links|);
  }

  lemma PushingLeads(cfg: Config, s: State, c: Conn)
    requires PcsOk(s) && c < |s.links| && PcLeads(s.links[c], c) && Enabled(s, Pushing(c))
    ensures c < |Next(cfg, s, Pushing(c)).links| && PcLeads(Next(cfg, s, Pushing(c)).links[c], c)
  {
    assert PcOk(s.links[c], c, |s.links|);
    var log := s.links[c].box.accepted;
    if At(s, c).payload.Welcome? {
      WelcomeAtEnd(log, At(s, c).payload);
    }
    if HasWelcome(log) {
      WelcomeStays(log, log + [At(s, c).payload]);
    }
    hide HasWelcome;
  }

  lemma OtherwiseLeads(cfg: Config, s: State, step: Step, c: Conn)
    requires PcsOk(s) && c < |s.links| && PcLeads(s.links[c], c) && Enabled(s, step) && Actor(step) == Some(c)
    requires !step.Probing? && !step.Pushing?
    ensures c < |Next(cfg, s, step).links| && PcLeads(Next(cfg, s, step).links[c], c)
  {
    hide HasWelcome, Create, Evict, Occupants, Join, Leave, Snapshot, Push, Pump;
    assert PcOk(s.links[c], c, |s.links|);
  }

  lemma SamePcLeads(link: Link, later: Link, c: Conn)
    requires PcLeads(link, c) && later.pc == link.pc && Extends(link.box, later.box)
    ensures PcLeads(later, c)
  {
    hide HasWelcome, Greeted;
    if Greeted(link.box) {
      GreetedStays(link.box, later.box);
    }
    if HasWelcome(link.box.accepted) {
      WelcomeStays(link.box.accepted, later.box.accepted);
    }
  }

  lemma StepKeepsPcLeads(cfg: Config, s: State, step: Step, c: Conn)
    requires PcsOk(s) && Enabled(s, step) && LinksFollow(s, Next(cfg, s, step))
    requires c < |s.links| && PcLeads(s.links[c], c)
    ensures PcLeads(Next(cfg, s, step).links[c], c)
  {
    var s' := Next(cfg, s, step);
    assert LinkFollows(s.links[c], s'.links[c]);
    hide Next, PcsOk, PcLeads, LinksFollow, Extends;
    if Actor(step) == Some(c) {
      match step
      case Probing(_, target) => ProbingLeads(cfg, s, c, target);
      case Pushing(_) => PushingLeads(cfg, s, c);
      case _ => OtherwiseLeads(cfg, s, step, c);
    } else {
      OnlyTheActorMoves(cfg, s, step, c);
      SamePcLeads(s.links[c], s'.links[c], c);
    }
  }

  lemma NewcomerLeads(cfg: Config, s: State, step: Step)
    requires Enabled(s, step)
    ensures var s' := Next(cfg, s, step);
            |s'.links| == |s.links| + 1 ==> LeadOk(s'.links[|s.links|], |s.links|)
  {
    hide Create, Evict, Occupants, Join, Leave, Snapshot, Push, Pump;
  }

  lemma StepKeepsLeads(cfg: Config, s: State, step: Step)
    requires Sound(cfg, s) && LeadsOk(s) && Enabled(s, step)
    ensures LeadsOk(Next(cfg, s, step))
  {
    var s' := Next(cfg, s, step);
    assert RoomsOk(s) && Boxes(s) && PcsOk(s);
    hide Next, Sound, RoomsOk, Boxes, PcsOk, LinksFollow, NewcomerOk, PcLeads, WelcomeFirst;
    StepLinks(cfg, s, step);
    LinkCount(s, s');
    forall c | 0 <= c < |s'.links| ensures LeadOk(s'.links[c], c) {
      if c == |s.links| {
        NewcomerLeads(cfg, s, step);
      } else {
        assert LeadOk(s.links[c], c);
        StepKeepsPcLeads(cfg, s, step, c);
        StepKeepsFirst(cfg, s, step, c);
      }
    }
  }

  lemma {:induction false} RunKeepsLeads(cfg: Config, s: State, steps: seq<Step>)
    requires Sound(cfg, s) && LeadsOk(s) && Legal(cfg, s, steps)
    ensures LeadsOk(Exec(cfg, s, steps))
    decreases |steps|
  {
    hide Sound, LeadsOk, Next, Enabled;
    if steps == [] {
    } else {
      StepKeepsSound(cfg, s, steps[0]);
      StepKeepsLeads(cfg, s, steps[0]);
      RunKeepsLeads(cfg, Next(cfg, s, steps[0]), steps[1..]);
    }
  }

  lemma ReachableLeads(cfg: Config, s: State)
    requires Reachable(cfg, s)
    ensures LeadsOk(s)
  {
    var steps :| Legal(cfg, INIT, steps) && Exec(cfg, INIT, steps) == s;
    InitSound(cfg);
    RunKeepsLeads(cfg, INIT, steps);
  }

  // ---- The result ----

  /** A broadcast of another handler in the same room. */
  ghost predicate Foreign(s: State, c: Conn, p: Payload)
    requires c < |s.links|
  {
    && !p.Welcome? && !p.Reply?
    && p.sender != c && p.sender < |s.links| && s.links[p.sender].place.room == s.links[c].place.room
  }

  /**
   The first message a connection accepts is its own welcome exactly when it is not a broadcast of
   another handler in its room; whatever else its own handler queued comes after a welcome, which
   carries its own role; and a handler that is done greeting has been heard or its connection is dead.
   */
  lemma WelcomeLeadsExactly(cfg: Config, s: State, c: Conn)
    requires Reachable(cfg, s) && c < |s.links|
    ensures var log := s.links[c].box.accepted;
            && (log != [] ==> (log[0].Welcome? <==> !Foreign(s, c, log[0])))
            && (forall k :: 0 <= k < |log| && Own(c, log[k]) ==> HasWelcome(log[..k + 1]))
            && (forall k :: 0 <= k < |log| && log[k].Welcome? ==> log[k].role == s.links[c].place.role)
    ensures Greeting(s.links[c].pc) || s.links[c].box.dead || HasWelcome(s.links[c].box.accepted)
  {
    ReachableIsSound(cfg, s);
    ReachableLeads(cfg, s);
    assert LeadOk(s.links[c], c);
    var log := s.links[c].box.accepted;
    assert LogOk(s, c) && HeardOk(s, c);
    hide Sound, LeadsOk, Reachable;
    if log != [] {
      assert EntryOk(s, c, log[0]) && Reaches(s, log[0], c);
      assert log[..1] == [log[0]];
    }
    forall k | 0 <= k < |log| && log[k].Welcome? ensures log[k].role == s.links[c].place.role {
      assert EntryOk(s, c, log[k]);
    }
  }
}
