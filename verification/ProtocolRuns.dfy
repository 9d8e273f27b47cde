/**
 The promises of the signaling server over whole runs: any interleaving of any steps of any number
 of connections, from the initial state on.
 */
module ProtocolRuns {
  import opened Wrappers
  import opened Rooms
  import opened Mailbox
  import opened Protocol
  import opened ProtocolRooms
  import opened ProtocolMessages
  import opened ProtocolIsolation

  // ---- The inductive invariant ----

  ghost predicate CapacityOk(cfg: Config, s: State) {
    cfg.maxRooms > 0 ==> |s.rooms| <= cfg.maxRooms
  }

  /** A deletion is only ever scheduled for a room that existed. */
  ghost predicate DoomsOk(s: State) {
    forall d :: d in s.doomed ==> d.room in s.used
  }

  ghost predicate Sound(cfg: Config, s: State) {
    && Inv(s) && Boxes(s) && PcsOk(s) && LogsOk(s) && OrderOk(s) && IdsOk(s) && PairOk(s)
    && IsolationOk(s) && CapacityOk(cfg, s) && DoomsOk(s)
  }

  ghost predicate Reachable(cfg: Config, s: State) {
    exists steps :: Legal(cfg, INIT, steps) && Exec(cfg, INIT, steps) == s
  }

  lemma SmallerDirectory(rooms: Directory<Conn>, rooms': Directory<Conn>)
    requires rooms'.Keys <= rooms.Keys
    ensures |rooms'| <= |rooms|
  {
    SubsetSize(rooms'.Keys, rooms.Keys);
  }

  lemma OnlyCreateAddsRooms(cfg: Config, s: State, step: Step)
    requires Enabled(s, step) && !step.CreateRoom?
    ensures Next(cfg, s, step).rooms.Keys <= s.rooms.Keys
  {
    hide Admit, Vacate, Occupants, Snapshot, Push, Pump, AfterProbe, AfterFanout, AfterMessage;
    if Local(step) {
      LocalSteps(cfg, s, step);
    }
  }

  lemma StepKeepsCapacity(cfg: Config, s: State, step: Step)
    requires Inv(s) && CapacityOk(cfg, s) && Enabled(s, step)
    ensures CapacityOk(cfg, Next(cfg, s, step))
  {
    hide TwoParties, Admit, Vacate;
    if step.CreateRoom? {
      hide Create, Evict;
      if cfg.maxRooms > 0 {
        CreateRespectsCapacity(cfg, s.rooms, step.stamp, step.id, step.secret);
      }
    } else {
      OnlyCreateAddsRooms(cfg, s, step);
      SmallerDirectory(s.rooms, Next(cfg, s, step).rooms);
    }
  }

  lemma StepKeepsDooms(cfg: Config, s: State, step: Step)
    requires PlacesOk(s) && DoomsOk(s) && Enabled(s, step)
    ensures DoomsOk(Next(cfg, s, step))
  {
    if step.Finish? {
      assert PlaceOk(s, s.links[step.c].place);
    }
    hide Create, Evict, Occupants, Join, Leave, Snapshot, Push, Pump;
  }

  lemma StepKeepsSound(cfg: Config, s: State, step: Step)
    requires Sound(cfg, s) && Enabled(s, step)
    ensures Sound(cfg, Next(cfg, s, step))
  {
    var s' := Next(cfg, s, step);
    hide Next, Boxes, PcsOk, LogsOk, OrderOk, IdsOk, PairOk, IsolationOk, CapacityOk, DoomsOk;
    hide RoomsOk, PeersOk, PlacesOk, SeatsOk, RoomsFollow, LinksFollow, NewcomerOk;
    StepRooms(cfg, s, step);
    StepLinks(cfg, s, step);
    StepKeepsInv(cfg, s, step);
    StepKeepsPcs(cfg, s, step);
    StepKeepsLogs(cfg, s, step);
    StepKeepsOrder(cfg, s, step);
    StepKeepsIds(cfg, s, step);
    StepKeepsPairs(cfg, s, step);
    StepKeepsIsolation(cfg, s, step);
    StepKeepsCapacity(cfg, s, step);
    StepKeepsDooms(cfg, s, step);
  }

  lemma {:induction false} RunKeepsSound(cfg: Config, s: State, steps: seq<Step>)
    requires Sound(cfg, s) && Legal(cfg, s, steps)
    ensures Sound(cfg, Exec(cfg, s, steps))
    decreases |steps|
  {
    hide Sound, Next;
    if steps == [] {
    } else {
      StepKeepsSound(cfg, s, steps[0]);
      RunKeepsSound(cfg, Next(cfg, s, steps[0]), steps[1..]);
    }
  }

  lemma InitSound(cfg: Config)
    ensures Sound(cfg, INIT)
  {
  }

  lemma ReachableIsSound(cfg: Config, s: State)
    requires Reachable(cfg, s)
    ensures Sound(cfg, s)
  {
    var steps :| Legal(cfg, INIT, steps) && Exec(cfg, INIT, steps) == s;
    InitSound(cfg);
    RunKeepsSound(cfg, INIT, steps);
  }

  // ---- What a run never takes back ----

  /** Client messages relayed so far, counting one already let through by the currency check. */
  function Spent(link: Link): nat {
    link.relayed + if link.pc.Checked? then 1 else 0
  }

  ghost predicate ConnFollows(s: State, s': State, c: Conn)
    requires c < |s.links| && c < |s'.links|
  {
    && LinkFollows(s.links[c], s'.links[c])
    && (Current(s', c) ==> Current(s, c))
    && (!Current(s, c) ==> Spent(s'.links[c]) <= Spent(s.links[c]))
    && (!Current(s, c) && !s.links[c].left ==> !s'.links[c].left)
  }

  ghost predicate DirectoryFollows(s: State, s': State) {
    && s.used <= s'.used
    && (forall r :: r in s.used && r !in s.rooms ==> r !in s'.rooms)
    && (forall r :: r in s.rooms && r in s'.rooms ==> SeatsKept(s.rooms[r], s'.rooms[r]))
  }

  ghost predicate Evolves(s: State, s': State) {
    && s.now <= s'.now
    && DirectoryFollows(s, s')
    && |s.links| <= |s'.links|
    && (forall c :: 0 <= c < |s.links| ==> ConnFollows(s, s', c))
  }

  lemma SpendsNothing(cfg: Config, s: State, step: Step, c: Conn)
    requires Enabled(s, step) && c < |s.links| && c < |Next(cfg, s, step).links|
    ensures var s' := Next(cfg, s, step);
            !Current(s, c) ==>
              && Spent(s'.links[c]) <= Spent(s.links[c])
              && (!s.links[c].left ==> !s'.links[c].left)
  {
    if Actor(step) != Some(c) {
      OnlyTheActorMoves(cfg, s, step, c);
    } else {
      hide Create, Evict, Occupants, Join, Snapshot, Push, Pump;
    }
  }

  lemma ClockAdvances(cfg: Config, s: State, step: Step)
    requires Enabled(s, step)
    ensures s.now <= Next(cfg, s, step).now
  {
    hide Create, Evict, Occupants, Join, Leave, Snapshot, Push, Pump;
  }

  lemma StepDirectoryFollows(s: State, s': State)
    requires RoomsFollow(s, s')
    ensures DirectoryFollows(s, s')
  {
    hide SeatsKept, TwoParties;
    forall r | r in s'.rooms ensures r in s.rooms || r !in s.used {
      assert RoomFollows(s, s', r);
    }
    forall r | r in s.rooms && r in s'.rooms ensures SeatsKept(s.rooms[r], s'.rooms[r]) {
      assert RoomFollows(s, s', r);
    }
  }

  lemma StepEvolves(cfg: Config, s: State, step: Step)
    requires Sound(cfg, s) && Enabled(s, step)
    ensures Evolves(s, Next(cfg, s, step))
  {
    var s' := Next(cfg, s, step);
    StepRooms(cfg, s, step);
    StepLinks(cfg, s, step);
    StepDirectoryFollows(s, s');
    ClockAdvances(cfg, s, step);
    hide Next, RoomsFollow, DirectoryFollows, Sound, LinkFollows, Current, Spent, NewcomerOk;
    forall c | 0 <= c < |s.links| ensures ConnFollows(s, s', c) {
      SpendsNothing(cfg, s, step, c);
      if Current(s', c) {
        CurrencyIsNeverRegained(s, s', c);
      }
    }
  }

  lemma SeatsKeptCompose(a: Room<Conn>, b: Room<Conn>, c: Room<Conn>)
    requires SeatsKept(a, b) && SeatsKept(b, c)
    ensures SeatsKept(a, c)
  {
  }

  lemma DirectoryFollowsComposes(s: State, m: State, s': State)
    requires RoomsOk(s) && DirectoryFollows(s, m) && DirectoryFollows(m, s')
    ensures DirectoryFollows(s, s')
  {
    hide SeatsKept, TwoParties;
    forall r | r in s.rooms && r in s'.rooms ensures SeatsKept(s.rooms[r], s'.rooms[r]) {
      assert r in s.used;
      SeatsKeptCompose(s.rooms[r], m.rooms[r], s'.rooms[r]);
    }
  }

  lemma ConnFollowsComposes(s: State, m: State, s': State, c: Conn)
    requires c < |s.links| && c < |m.links| && c < |s'.links|
    requires ConnFollows(s, m, c) && ConnFollows(m, s', c)
    ensures ConnFollows(s, s', c)
  {
    hide Current;
  }

  lemma EvolvesComposes(s: State, m: State, s': State)
    requires RoomsOk(s) && Evolves(s, m) && Evolves(m, s')
    ensures Evolves(s, s')
  {
    hide ConnFollows, DirectoryFollows, RoomsOk;
    DirectoryFollowsComposes(s, m, s');
    forall c | 0 <= c < |s.links| ensures ConnFollows(s, s', c) {
      assert ConnFollows(s, m, c) && ConnFollows(m, s', c);
      ConnFollowsComposes(s, m, s', c);
    }
  }

  lemma EvolvesToItself(s: State)
    ensures Evolves(s, s)
  {
    EveryBoxExtendsItself(s);
    SeatsKeptByThemselves(s);
    hide Current, SeatsKept, LinkFollows;
  }

  lemma {:induction false} RunEvolves(cfg: Config, s: State, steps: seq<Step>)
    requires Sound(cfg, s) && Legal(cfg, s, steps)
    ensures Evolves(s, Exec(cfg, s, steps))
    decreases |steps|
  {
    if steps == [] {
      EvolvesToItself(s);
    } else {
      var m := Next(cfg, s, steps[0]);
      StepEvolves(cfg, s, steps[0]);
      StepKeepsSound(cfg, s, steps[0]);
      hide Next, Evolves, Sound;
      RunEvolves(cfg, m, steps[1..]);
      SoundHasRooms(cfg, s);
      EvolvesComposes(s, m, Exec(cfg, m, steps[1..]));
    }
  }

  lemma SoundHasRooms(cfg: Config, s: State)
    requires Sound(cfg, s)
    ensures RoomsOk(s)
  {
  }
}
