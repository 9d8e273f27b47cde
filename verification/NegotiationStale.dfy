/**
 What a page takes along when it changes its room (web/ui.go, `handleRoute`, `handleJoinInput`): the
 role it learned in the old room, until the new one answers, and an offer it is still making
 (`makeOffer` looks at nothing again after its awaits). Either can make it offer in a room that seats it
 as the callee; here is exactly when, and a run for each.
 */
module NegotiationStale {
  import opened Wrappers
  import opened Rooms
  import opened Mailbox
  import opened Protocol
  import opened ProtocolRooms
  import opened Negotiation

  const X: ClientId := "x"
  const Y: ClientId := "y"
  const OLD: RoomId := "old"
  const NEW: RoomId := "new"
  const TOKEN: Token := "t"

  function Opened(cfg: Config): Directory<Conn> {
    map[OLD := NewRoom(cfg, 0, ""), NEW := NewRoom(cfg, 0, "")]
  }

  function Entry(room: RoomId, id: ClientId): JoinRequest {
    JoinRequest(room, id, "", "", Some(TOKEN))
  }

  // ---- Runs grow at the end ----

  lemma {:induction false} PlayOneMore(cfg: Config, w: World, actions: seq<Action>, a: Action)
    requires Playable(cfg, w, actions) && Possible(Play(cfg, w, actions), a)
    ensures Playable(cfg, w, actions + [a])
    ensures Play(cfg, w, actions + [a]) == Act(cfg, Play(cfg, w, actions), a)
    decreases |actions|
  {
    hide Act, Possible;
    var more := actions + [a];
    if actions == [] {
      assert more[1..] == [] && more[0] == a;
    } else {
      assert more[0] == actions[0] && more[1..] == actions[1..] + [a];
      PlayOneMore(cfg, Act(cfg, w, actions[0]), actions[1..], a);
    }
  }

  lemma ArisesNext(cfg: Config, w: World, a: Action)
    requires Arises(cfg, w) && Possible(w, a)
    ensures Arises(cfg, Act(cfg, w, a))
  {
    hide Act, Possible;
    var actions :| Playable(cfg, START, actions) && Play(cfg, START, actions) == w;
    PlayOneMore(cfg, START, actions, a);
  }

  // ---- The run ----

  lemma RoomsAreOpened(cfg: Config) returns (w: World)
    requires cfg.maxRooms <= 0 || cfg.maxRooms >= 2
    ensures Arises(cfg, w) && w == World(State(0, Opened(cfg), {OLD, NEW}, [], {}), [], [])
  {
    var one := Serve(CreateRoom(0, OLD, ""));
    assert Playable(cfg, START, []) && Play(cfg, START, []) == START;
    ArisesNext(cfg, START, one);
    w := Act(cfg, START, one);
    assert w.server == State(0, map[OLD := NewRoom(cfg, 0, "")], {OLD}, [], {});
    var two := Serve(CreateRoom(0, NEW, ""));
    ArisesNext(cfg, w, two);
    w := Act(cfg, w, two);
    assert w.server == State(0, Opened(cfg), {OLD, NEW}, [], {});
  }

  /** Nobody has joined the room, which is open to all comers. */
  predicate Vacant(cfg: Config, s: State, room: RoomId) {
    room in s.rooms && s.rooms[room] == NewRoom(cfg, 0, "") && s.now == 0 && cfg.ttl > 0
  }

  /** Only `id` has joined the room. */
  predicate HeldBy(cfg: Config, s: State, room: RoomId, id: ClientId, c: Conn) {
    && room in s.rooms && s.now == 0 && cfg.ttl > 0
    && s.rooms[room] == Enter(Seat(NewRoom(cfg, 0, ""), id, TOKEN), id, c)
  }

  /** A page's request to the room it has a socket to. */
  predicate Asking(page: Page, room: RoomId, id: ClientId) {
    page.online && page.link.None? && page.bound == room && page.id == id
  }

  /** A connection that was just admitted. */
  function NewLink(c: Conn, room: RoomId, id: ClientId, role: Role, size: nat): Link {
    Link(Place(room, id, role, size), Broadcast({c}, Welcome(role, size, TOKEN), AfterWelcome), Fresh(), 0, false)
  }

  /** The world after the server admitted page `p`. */
  function Seated(w: World, p: nat, room: RoomId, id: ClientId, role: Role, size: nat, rooms: Directory<Conn>): World
    requires p < |w.pages|
  {
    var c := |w.server.links|;
    World(
      w.server.(rooms := rooms, links := w.server.links + [NewLink(c, room, id, role, size)]),
      w.pages[p := w.pages[p].(link := Some(c), read := 0)],
      w.owner + [p])
  }

  lemma FirstEnters(cfg: Config, w: World, p: nat, room: RoomId, id: ClientId)
    requires p < |w.pages| && Asking(w.pages[p], room, id) && id != "" && Vacant(cfg, w.server, room)
    ensures Possible(w, JoinAs(p, Entry(room, id)))
    ensures var c := |w.server.links|;
            var rooms := w.server.rooms[room := Enter(Seat(NewRoom(cfg, 0, ""), id, TOKEN), id, c)];
            Connect(cfg, w, p, Entry(room, id)) == Seated(w, p, room, id, Caller, 1, rooms)
  {
    var room' := Enter(Seat(NewRoom(cfg, 0, ""), id, TOKEN), id, |w.server.links|);
    assert room'.peers == map[id := |w.server.links|] && room'.roles == map[id := Caller];
  }

  lemma SecondEnters(cfg: Config, w: World, p: nat, room: RoomId, id: ClientId, first: ClientId, d: Conn)
    requires p < |w.pages| && Asking(w.pages[p], room, id) && id != "" && id != first
    requires HeldBy(cfg, w.server, room, first, d)
    ensures Possible(w, JoinAs(p, Entry(room, id)))
    ensures exists rooms :: Connect(cfg, w, p, Entry(room, id)) == Seated(w, p, room, id, Callee, 2, rooms)
  {
    var c := |w.server.links|;
    var held := w.server.rooms[room];
    assert held.peers == map[first := d] && held.roles == map[first := Caller];
    var room' := Enter(Seat(held, id, TOKEN), id, c);
    assert room'.peers == map[first := d, id := c];
    assert room'.roles == map[first := Caller, id := Callee];
    var rooms := w.server.rooms[room := room'];
    assert Connect(cfg, w, p, Entry(room, id)) == Seated(w, p, room, id, Callee, 2, rooms);
  }

  /** A page opens, opens its socket and is the first to join the room. */
  lemma FirstComes(cfg: Config, w: World, room: RoomId, id: ClientId) returns (w': World)
    requires Arises(cfg, w) && id != "" && Vacant(cfg, w.server, room)
    ensures Arises(cfg, w')
    ensures var page := NewPage(room, id).(online := true);
            var rooms := w.server.rooms[room := Enter(Seat(NewRoom(cfg, 0, ""), id, TOKEN), id, |w.server.links|)];
            w' == Seated(w.(pages := w.pages + [page]), |w.pages|, room, id, Caller, 1, rooms)
  {
    hide Arises, Connect, Seated, Vacant;
    var p := |w.pages|;
    ArisesNext(cfg, w, OpenPage(room, id));
    w' := w.(pages := w.pages + [NewPage(room, id)]);
    ArisesNext(cfg, w', OpenSocket(p));
    var asking := NewPage(room, id).(online := true);
    w' := w'.(pages := w'.pages[p := asking]);
    assert w'.pages == w.pages + [asking];
    FirstEnters(cfg, w', p, room, id);
    ArisesNext(cfg, w', JoinAs(p, Entry(room, id)));
    w' := Connect(cfg, w', p, Entry(room, id));
  }

  function Probed(link: Link, c: Conn, msg: Payload): Link {
    link.(pc := Fanout({}, Some(c), msg, 0, AfterWelcome))
  }

  function Queued(link: Link, msg: Payload): Link {
    link.(pc := Fanout({}, None, msg, 1, AfterWelcome), box := Push<Payload>(Fresh(), msg).1)
  }

  function Written(link: Link, msg: Payload): Link {
    Queued(link, msg).(box := Pump(Push<Payload>(Fresh(), msg).1, true))
  }

  /** The server queues a new connection's welcome and its pump writes it out. */
  lemma Welcomes(cfg: Config, s: State, c: Conn, link: Link, msg: Payload)
    requires c < |s.links| && s.links[c] == link && link.box == Fresh()
    requires link.pc == Broadcast({c}, msg, AfterWelcome)
    ensures var probed := s.(links := s.links[c := Probed(link, c, msg)]);
            var queued := s.(links := s.links[c := Queued(link, msg)]);
            && Enabled(s, Probing(c, c)) && Next(cfg, s, Probing(c, c)) == probed
            && Enabled(probed, Pushing(c)) && Next(cfg, probed, Pushing(c)) == queued
            && Enabled(queued, PumpTake(c, true))
            && Next(cfg, queued, PumpTake(c, true)) == s.(links := s.links[c := Written(link, msg)])
  {
    assert {c} - {c} == {};
  }

  /** A page reads the welcome of the connection it was just given. */
  lemma Learns(cfg: Config, w: World, p: nat, c: Conn, role: Role, size: nat) returns (w': World)
    requires Arises(cfg, w) && p < |w.pages| && c < |w.server.links|
    requires w.pages[p].link == Some(c) && w.pages[p].read == 0
    requires w.server.links[c].pc == Broadcast({c}, Welcome(role, size, TOKEN), AfterWelcome)
    requires w.server.links[c].box == Fresh()
    ensures Arises(cfg, w')
    ensures w' == World(
                    w.server.(links := w.server.links[c := Written(w.server.links[c], Welcome(role, size, TOKEN))]),
                    w.pages[p := w.pages[p].(role := Some(role), learned := w.pages[p].bound, read := 1)],
                    w.owner)
  {
    var msg := Welcome(role, size, TOKEN);
    var link := w.server.links[c];
    Welcomes(cfg, w.server, c, link, msg);
    hide Arises, Next, Enabled;
    ArisesNext(cfg, w, Serve(Probing(c, c)));
    w' := w.(server := w.server.(links := w.server.links[c := Probed(link, c, msg)]));
    ArisesNext(cfg, w', Serve(Pushing(c)));
    w' := w.(server := w.server.(links := w.server.links[c := Queued(link, msg)]));
    ArisesNext(cfg, w', Serve(PumpTake(c, true)));
    w' := w.(server := w.server.(links := w.server.links[c := Written(link, msg)]));
    WelcomeIsRead(w', p, c, link, role, size);
    ArisesNext(cfg, w', Receive(p, true, true));
    w' := Act(cfg, w', Receive(p, true, true));
  }

  lemma WelcomeIsRead(w: World, p: nat, c: Conn, link: Link, role: Role, size: nat)
    requires p < |w.pages| && c < |w.server.links| && w.server.links[c] == Written(link, Welcome(role, size, TOKEN))
    requires w.pages[p].link == Some(c) && w.pages[p].read == 0
    ensures Possible(w, Receive(p, true, true))
    ensures PageAfter(w, Receive(p, true, true)) ==
            w.pages[p].(role := Some(role), learned := w.pages[p].bound, read := 1)
  {
  }

  /** Page 0 goes to the other page's room and joins it, with whatever it has. */
  lemma Moves(cfg: Config, w: World, room: RoomId, first: ClientId, d: Conn) returns (w': World)
    requires Arises(cfg, w) && |w.pages| > 0 && w.pages[0].id != "" && w.pages[0].id != first
    requires HeldBy(cfg, w.server, room, first, d)
    ensures Arises(cfg, w')
    ensures var c := |w.server.links|;
            && w'.server.links == w.server.links + [NewLink(c, room, w.pages[0].id, Callee, 2)]
            && w'.pages == w.pages[0 := w.pages[0].(
                                          room := room, bound := room, online := true, link := Some(c), read := 0)]
  {
    hide Arises, Connect, HeldBy;
    ArisesNext(cfg, w, ChangeRoom(0, room));
    w' := Act(cfg, w, ChangeRoom(0, room));
    ArisesNext(cfg, w', OpenSocket(0));
    w' := Act(cfg, w', OpenSocket(0));
    SecondEnters(cfg, w', 0, room, w.pages[0].id, first, d);
    ArisesNext(cfg, w', JoinAs(0, Entry(room, w.pages[0].id)));
    w' := Connect(cfg, w', 0, Entry(room, w.pages[0].id));
  }

  // ---- What a page can do on its own ----

  /** What the page and its browser do without a message, a new socket or a new room. */
  predicate Own(a: Action, p: nat) {
    && (a.RestartIce? || a.OfferMade? || a.AnswerMade? || a.NewPeer? || a.LoseSocket? || a.ClosePage?)
    && a.p == p
  }

  predicate OwnRun(cfg: Config, w: World, p: nat, actions: seq<Action>) {
    Playable(cfg, w, actions) && forall a :: a in actions ==> Own(a, p)
  }

  /** The page has an open socket and either an offer on its way or a caller's licence to make one. */
  predicate MayOffer(page: Page) {
    page.online && (page.making || (page.role == Some(Caller) && !page.terminal && !page.restarting))
  }

  /** Later on the page has sent one more offer to the room its socket goes to. */
  ghost predicate OffersAnew(page: Page, later: Page) {
    exists i :: |page.sent| <= i < |later.sent| && later.sent[i].room == page.bound && later.sent[i].body == OFFER
  }

  /** It has sent none. */
  ghost predicate StillSilent(page: Page, later: Page) {
    page.sent <= later.sent && forall i :: |page.sent| <= i < |later.sent| ==> later.sent[i].body != OFFER
  }

  lemma OwnStepIsSilent(w: World, a: Action, p: nat)
    requires Possible(w, a) && Own(a, p) && !MayOffer(w.pages[p])
    ensures !MayOffer(PageAfter(w, a)) && StillSilent(w.pages[p], PageAfter(w, a))
  {
  }

  lemma {:induction false} OwnRunIsSilent(cfg: Config, w: World, p: nat, actions: seq<Action>)
    requires p < |w.pages| && OwnRun(cfg, w, p, actions) && !MayOffer(w.pages[p])
    ensures p < |Play(cfg, w, actions).pages| && StillSilent(w.pages[p], Play(cfg, w, actions).pages[p])
    decreases |actions|
  {
    if actions == [] {
    } else {
      var a := actions[0];
      OwnStepIsSilent(w, a, p);
      var m := Act(cfg, w, a);
      assert m.pages[p] == PageAfter(w, a);
      hide Act, PageAfter, MayOffer, Possible;
      OwnRunIsSilent(cfg, m, p, actions[1..]);
      SilenceComposes(w.pages[p], m.pages[p], Play(cfg, m, actions[1..]).pages[p]);
    }
  }

  lemma SilenceComposes(a: Page, b: Page, c: Page)
    requires StillSilent(a, b) && StillSilent(b, c)
    ensures StillSilent(a, c)
  {
    forall i | |a.sent| <= i < |c.sent| ensures c.sent[i].body != OFFER {
      if i < |b.sent| {
        assert c.sent[i] == b.sent[i];
      }
    }
  }

  /** Renewing the peer connection, restarting ICE unless an offer is on its way, and finishing it. */
  function OwnOffer(page: Page, p: nat): seq<Action> {
    [NewPeer(p)] + (if page.making then [] else [RestartIce(p)]) + [OfferMade(p, true)]
  }

  lemma OwnOfferIsMade(cfg: Config, w: World, p: nat)
    requires p < |w.pages| && MayOffer(w.pages[p])
    ensures var page := w.pages[p];
            var actions := OwnOffer(page, p);
            && OwnRun(cfg, w, p, actions)
            && var w' := Play(cfg, w, actions);
               w'.server == w.server && |w'.pages| == |w.pages|
               && w'.pages[p] == page.(
                  signaling := HaveLocalOffer, making := false, restarting := false, basis := Ground(page),
                  sent := w'.pages[p].sent)
               && w'.pages[p].sent == page.sent + [Sent(page.bound, OFFER, Ground(page))]
  {
    var page := w.pages[p];
    var one := Act(cfg, w, NewPeer(p));
    var begun := if page.making then one else Act(cfg, one, RestartIce(p));
    assert begun.pages[p].making && begun.pages[p].basis == Ground(page) && begun.pages[p].signaling.Stable?;
    var done := [OfferMade(p, true)];
    PlayOne(cfg, begun, done[0]);
    var rest := if page.making then done else [RestartIce(p)] + done;
    hide Act;
    if !page.making {
      PlayMore(cfg, one, RestartIce(p), done);
    }
    PlayMore(cfg, w, NewPeer(p), rest);
    assert OwnOffer(page, p) == [NewPeer(p)] + rest;
  }

  /** The room in which the page learned the role on which its next offer is made. */
  function Ground(page: Page): RoomId {
    if page.making then page.basis else page.learned
  }

  lemma PlayOne(cfg: Config, w: World, a: Action)
    requires Possible(w, a)
    ensures Playable(cfg, w, [a]) && Play(cfg, w, [a]) == Act(cfg, w, a)
  {
    hide Act, Possible;
    assert [a][1..] == [];
  }

  lemma PlayMore(cfg: Config, w: World, a: Action, rest: seq<Action>)
    requires Possible(w, a) && Playable(cfg, Act(cfg, w, a), rest)
    ensures Playable(cfg, w, [a] + rest) && Play(cfg, w, [a] + rest) == Play(cfg, Act(cfg, w, a), rest)
  {
    hide Act, Possible;
    assert ([a] + rest)[1..] == rest;
  }

  // ---- The results ----

  /** The run leaves the page with one more offer sent to the room its socket goes to. */
  ghost predicate Delivers(cfg: Config, w: World, p: nat, actions: seq<Action>)
    requires Playable(cfg, w, actions) && p < |w.pages|
  {
    var w' := Play(cfg, w, actions);
    p < |w'.pages| && OffersAnew(w.pages[p], w'.pages[p])
  }

  /**
   On its own, before it reads another message, a page can send one more offer to the room its socket
   goes to exactly when the socket is open and either an offer is on its way or the page takes itself
   for the caller, the call is not over and no restart is in flight. This is so in every world.
   */
  lemma OffersExactlyWhenItMay(cfg: Config, w: World, p: nat)
    requires p < |w.pages|
    ensures MayOffer(w.pages[p]) <==>
            exists actions :: OwnRun(cfg, w, p, actions) && Delivers(cfg, w, p, actions)
  {
    var page := w.pages[p];
    hide MayOffer, Playable, Play;
    if MayOffer(page) {
      var actions := OwnOffer(page, p);
      OwnOfferIsMade(cfg, w, p);
      assert Play(cfg, w, actions).pages[p].sent[|page.sent|].body == OFFER;
      assert Delivers(cfg, w, p, actions);
    } else {
      forall actions | OwnRun(cfg, w, p, actions) ensures !Delivers(cfg, w, p, actions) {
        OwnRunIsSilent(cfg, w, p, actions);
      }
    }
  }

  /** The run ends with the page having sent one more offer to a room that seats its ID as the callee. */
  ghost predicate Intrudes(cfg: Config, w: World, p: nat, actions: seq<Action>)
    requires Playable(cfg, w, actions) && p < |w.pages|
  {
    && Delivers(cfg, w, p, actions)
    && HoldsRole(Play(cfg, w, actions).server, w.pages[p].bound, w.pages[p].id, Callee)
  }

  /**
   So one offerer per room fails by the next thing a page does exactly when its room seats it as the
   callee and it may offer; no matter what role it takes itself for.
   */
  lemma IntrudesExactlyWhenItMay(cfg: Config, w: World, p: nat)
    requires p < |w.pages|
    ensures (exists actions :: OwnRun(cfg, w, p, actions) && Intrudes(cfg, w, p, actions)) <==>
            MayOffer(w.pages[p]) && HoldsRole(w.server, w.pages[p].bound, w.pages[p].id, Callee)
  {
    hide MayOffer, Playable, Play, Delivers, HoldsRole, Own;
    OffersExactlyWhenItMay(cfg, w, p);
    forall actions | OwnRun(cfg, w, p, actions) ensures Play(cfg, w, actions).server == w.server {
      OwnRunKeepsServer(cfg, w, p, actions);
    }
    if MayOffer(w.pages[p]) && HoldsRole(w.server, w.pages[p].bound, w.pages[p].id, Callee) {
      var actions :| OwnRun(cfg, w, p, actions) && Delivers(cfg, w, p, actions);
      assert Intrudes(cfg, w, p, actions);
    }
  }

  lemma OwnStepKeepsServer(cfg: Config, w: World, a: Action, p: nat)
    requires Possible(w, a) && Own(a, p)
    ensures Act(cfg, w, a).server == w.server
  {
    hide PageAfter;
  }

  lemma {:induction false} OwnRunKeepsServer(cfg: Config, w: World, p: nat, actions: seq<Action>)
    requires OwnRun(cfg, w, p, actions)
    ensures Play(cfg, w, actions).server == w.server
    decreases |actions|
  {
    if actions == [] {
    } else {
      hide Act, Possible;
      OwnStepKeepsServer(cfg, w, actions[0], p);
      OwnRunKeepsServer(cfg, Act(cfg, w, actions[0]), p, actions[1..]);
    }
  }

  /** A page that may offer as the callee does so on a role it learned in another room. */
  lemma IntruderCameFromElsewhere(cfg: Config, w: World, p: nat)
    requires Arises(cfg, w) && p < |w.pages| && MayOffer(w.pages[p])
    requires HoldsRole(w.server, w.pages[p].bound, w.pages[p].id, Callee)
    ensures Ground(w.pages[p]) != w.pages[p].bound
  {
    var page := w.pages[p];
    hide Arises, HoldsRole;
    ArisesIsConsistent(cfg, w, page.bound, false);
    PageIsOk(cfg, w, p, page.bound, false);
    assert SeatsOk(w.server);
    hide Consistent, SeatsOk;
    if Ground(page) == page.bound {
      RolesAreUnique(w.server, page.bound, page.id, page.id, Caller, Callee);
    }
  }

  // ---- A run for each ----

  /** X is the caller of the old room and knows it, Y has the new one to itself. */
  lemma BothComeFirst(cfg: Config) returns (w: World)
    requires cfg.ttl > 0 && (cfg.maxRooms <= 0 || cfg.maxRooms >= 2)
    ensures Arises(cfg, w) && |w.pages| == 2
    ensures w.pages[0] == NewPage(OLD, X).(role := Some(Caller), online := true, link := Some(0), read := 1)
    ensures |w.server.links| == 2 && SeatIs(w.server.links[1].place, NEW, Y, Caller)
    ensures HeldBy(cfg, w.server, NEW, Y, 1)
  {
    hide Arises;
    w := RoomsAreOpened(cfg);
    w := FirstComes(cfg, w, OLD, X);
    w := Learns(cfg, w, 0, 0, Caller, 1);
    w := FirstComes(cfg, w, NEW, Y);
  }

  /** The callee of the new room sent it an offer, next to the caller it has. */
  ghost predicate Intruded(w: World) {
    && |w.pages| > 0 && Says(w.pages[0], NEW, OFFER)
    && HoldsRole(w.server, NEW, w.pages[0].id, Callee) && HoldsRole(w.server, NEW, Y, Caller)
  }

  lemma {:induction false} ArisesPlay(cfg: Config, w: World, actions: seq<Action>)
    requires Arises(cfg, w) && Playable(cfg, w, actions)
    ensures Arises(cfg, Play(cfg, w, actions))
    decreases |actions|
  {
    if actions == [] {
    } else {
      hide Act, Possible, Arises;
      ArisesNext(cfg, w, actions[0]);
      ArisesPlay(cfg, Act(cfg, w, actions[0]), actions[1..]);
    }
  }

  /** Page 0, seated as the callee of the new room but able to offer, offers there. */
  lemma Offers(cfg: Config, w: World) returns (w': World)
    requires Arises(cfg, w) && |w.pages| > 0 && MayOffer(w.pages[0]) && w.pages[0].bound == NEW
    requires HoldsRole(w.server, NEW, w.pages[0].id, Callee) && HoldsRole(w.server, NEW, Y, Caller)
    ensures Arises(cfg, w') && Intruded(w') && w'.pages[0].role == w.pages[0].role
    ensures w'.pages[0].learned == w.pages[0].learned && w'.pages[0].bound == w.pages[0].bound
    ensures w'.pages[0].sent == w.pages[0].sent + [Sent(NEW, OFFER, Ground(w.pages[0]))]
  {
    var actions := OwnOffer(w.pages[0], 0);
    OwnOfferIsMade(cfg, w, 0);
    hide Arises, HoldsRole, Playable, Play, MayOffer;
    ArisesPlay(cfg, w, actions);
    w' := Play(cfg, w, actions);
    assert w'.pages[0].sent[|w.pages[0].sent|] == Sent(NEW, OFFER, Ground(w.pages[0]));
    assert Says(w'.pages[0], NEW, OFFER);
    assert w'.pages[0].id == w.pages[0].id;
  }

  /** Page 0 starts to make an offer. */
  lemma Begins(cfg: Config, w: World) returns (w': World)
    requires Arises(cfg, w) && |w.pages| > 0 && MayOffer(w.pages[0]) && !w.pages[0].making
    ensures Arises(cfg, w') && w'.server == w.server
    ensures w'.pages == w.pages[0 := w.pages[0].(
                                  signaling := Stable, making := true, basis := w.pages[0].learned, restarting := true)]
  {
    hide Arises;
    ArisesNext(cfg, w, NewPeer(0));
    w' := Act(cfg, w, NewPeer(0));
    ArisesNext(cfg, w', RestartIce(0));
    w' := Act(cfg, w', RestartIce(0));
  }

  lemma BothAreSeated(w: World)
    requires |w.server.links| >= 3
    requires SeatIs(w.server.links[1].place, NEW, Y, Caller) && SeatIs(w.server.links[2].place, NEW, X, Callee)
    ensures HoldsRole(w.server, NEW, X, Callee) && HoldsRole(w.server, NEW, Y, Caller)
  {
  }

  /** Not told otherwise yet, the caller of the old room offers in the new one. */
  lemma StaleRolesOffer(cfg: Config)
    requires cfg.ttl > 0 && (cfg.maxRooms <= 0 || cfg.maxRooms >= 2)
    ensures exists w :: Arises(cfg, w) && Intruded(w)
  {
    hide Arises, HoldsRole, HeldBy, Intruded;
    var w := BothComeFirst(cfg);
    w := Moves(cfg, w, NEW, Y, 1);
    BothAreSeated(w);
    w := Offers(cfg, w);
  }

  /** A page whose room told it that it is the callee. */
  predicate KnowsBetter(page: Page) {
    page.role == Some(Callee) && page.learned == page.bound
  }

  /** X, with an offer to the old room on its way, moves to the new one and reads there that it is the callee. */
  lemma MovesInFlight(cfg: Config) returns (w: World)
    requires cfg.ttl > 0 && (cfg.maxRooms <= 0 || cfg.maxRooms >= 2)
    ensures Arises(cfg, w) && |w.pages| > 0 && |w.server.links| >= 3
    ensures SeatIs(w.server.links[1].place, NEW, Y, Caller) && SeatIs(w.server.links[2].place, NEW, X, Callee)
    ensures var page := w.pages[0];
            page.id == X && page.bound == NEW && KnowsBetter(page) && page.online && page.making && page.basis == OLD
  {
    hide Arises, HeldBy;
    w := BothComeFirst(cfg);
    w := Begins(cfg, w);
    w := Moves(cfg, w, NEW, Y, 1);
    w := Learns(cfg, w, 0, 2, Callee, 2);
  }

  /** Even after it was told that it is the callee, an offer still on its way goes out to the new room. */
  lemma InFlightOffers(cfg: Config)
    requires cfg.ttl > 0 && (cfg.maxRooms <= 0 || cfg.maxRooms >= 2)
    ensures exists w :: Arises(cfg, w) && Intruded(w) && KnowsBetter(w.pages[0])
  {
    hide Arises, HoldsRole, Intruded;
    var w := MovesInFlight(cfg);
    BothAreSeated(w);
    w := Offers(cfg, w);
  }
}
