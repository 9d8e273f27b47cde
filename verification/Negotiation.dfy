/**
 Who may offer: the client pages (web/ui.go) composed with the signaling server. Any number of pages
 join, reconnect, receive and negotiate, in any interleaving with the server's own steps. Every
 connection belongs to a page, and a page sends nothing but what its negotiation code sends.
 */
module Negotiation {
  import opened Wrappers
  import opened Rooms
  import opened Mailbox
  import opened Protocol
  import opened ProtocolRooms
  import opened ProtocolMessages
  import opened ProtocolIsolation
  import opened ProtocolRuns

  /** A description is represented by the type of the message that carries it. */
  const OFFER := "offer"
  const ANSWER := "answer"

  type Description = body: string | Describes(body) witness OFFER

  /** State of the page's peer connection; `NoPeer` when there is none. */
  datatype Signaling = NoPeer | Stable | HaveLocalOffer | HaveRemoteOffer

  /**
   A description a page sent: the room it went to, its type, and the room in which the page had learned
   the role it offers on, or had heard the offer it answers.
   */
  datatype Sent = Sent(room: RoomId, body: Description, basis: RoomId)

  /**
   One page. `room` is where its next socket goes, `bound` where its current one goes. `online` says
   that the socket is open, `link` which connection it became once the server admitted it, and `read`
   how much of it was handled. `making` is true while an offer is being made. `learned`, `basis` and
   `heard` keep the rooms in which the page learned its role, learned the role its latest offer is
   made on, and heard the latest remote offer; `sent` holds every description it ever sent.
   */
  datatype Page = Page(
    room: RoomId, id: ClientId, role: Option<Role>, online: bool, bound: RoomId, link: Option<Conn>, read: nat,
    making: bool, restarting: bool, terminal: bool, signaling: Signaling,
    learned: RoomId, basis: RoomId, heard: RoomId, sent: seq<Sent>)

  /** `owner[c]` is the page that connection `c` belongs to. */
  datatype World = World(server: State, pages: seq<Page>, owner: seq<nat>)

  const START := World(INIT, [], [])

  datatype Action =
    | Serve(step: Step)
    | OpenPage(room: RoomId, id: ClientId)
    | ChangeRoom(p: nat, room: RoomId)
    | OpenSocket(p: nat)
    | JoinAs(p: nat, req: JoinRequest)
    | Receive(p: nat, healthy: bool, applies: bool)
    | RestartIce(p: nat)
    | OfferMade(p: nat, ok: bool)
    | AnswerMade(p: nat, ok: bool)
    | NewPeer(p: nat)
    | LoseSocket(p: nat)
    | ClosePage(p: nat)

  predicate Describes(body: string) {
    body == OFFER || body == ANSWER
  }

  /** The page sent such a description to that room. */
  predicate Says(page: Page, room: RoomId, body: string) {
    exists i :: 0 <= i < |page.sent| && page.sent[i].room == room && page.sent[i].body == body
  }

  /** A description the server relays for a connection is one that the page behind it sent to its room. */
  predicate Honest(w: World, step: Step) {
    match step
    case Handle(c, msg) =>
      msg.Signal? && Describes(msg.body) ==>
        && c < |w.server.links| && c < |w.owner| && w.owner[c] < |w.pages|
        && Says(w.pages[w.owner[c]], w.server.links[c].place.room, msg.body)
    case _ => true
  }

  predicate Unread(w: World, page: Page) {
    && page.link.Some? && page.link.value < |w.server.links|
    && page.read < |w.server.links[page.link.value].box.written|
  }

  predicate Possible(w: World, a: Action) {
    match a
    case Serve(step) => Enabled(w.server, step) && !step.JoinRoom? && Honest(w, step)
    case OpenPage(_, _) => true
    case JoinAs(p, req) =>
      && p < |w.pages| && w.pages[p].online && w.pages[p].link.None?
      && req.room == w.pages[p].bound && req.id == w.pages[p].id && Enabled(w.server, JoinRoom(req))
    case Receive(p, _, _) => p < |w.pages| && Unread(w, w.pages[p])
    case OfferMade(p, _) => p < |w.pages| && w.pages[p].making
    case AnswerMade(p, _) => p < |w.pages| && w.pages[p].signaling.HaveRemoteOffer?
    case _ => a.p < |w.pages|
  }

  // ---- The page ----

  /** The entry of makeOffer: one at a time, with a socket to carry it, from the stable state only. */
  function BeginOffer(page: Page): Page {
    if page.making || !page.online || !page.signaling.Stable? then page
    else page.(making := true, basis := page.learned)
  }

  function OfferAsCaller(page: Page): Page {
    if page.role == Some(Caller) then BeginOffer(page) else page
  }

  function RestartIceOn(page: Page): Page {
    if page.signaling.NoPeer? || page.restarting || page.terminal || page.role != Some(Caller) || !page.online
    then page
    else
      var begun := BeginOffer(page);
      begun.(restarting := begun.making && !page.making)
  }

  /** `healthy`: the media path is up; `applies`: the browser accepts the remote description. */
  function Handled(page: Page, msg: Payload, healthy: bool, applies: bool): Page {
    match msg
    case Welcome(role, participants, _) =>
      var welcomed := page.(role := Some(role), learned := page.bound);
      if participants == 2 && !healthy then OfferAsCaller(welcomed) else welcomed
    case PeerReady(_) => OfferAsCaller(page)
    case Relayed(_, _, body) =>
      if !applies then page
      else if body == OFFER && !page.signaling.NoPeer? then
        page.(signaling := HaveRemoteOffer, heard := page.bound)
      else if body == ANSWER && page.signaling.HaveLocalOffer? then page.(signaling := Stable)
      else page
    case HungUp(_) => page.(terminal := true)
    case PeerLeft(_) => page
    case Reply(_) => page
  }

  function Sends(page: Page, body: Description, basis: RoomId): Page {
    if page.online then page.(sent := page.sent + [Sent(page.bound, body, basis)]) else page
  }

  /** The end of makeOffer; when the browser refuses, nothing is set and nothing is sent. */
  function OfferFinished(page: Page, ok: bool): Page {
    var idle := page.(making := false, restarting := false);
    if ok && (page.signaling.Stable? || page.signaling.HaveLocalOffer?)
    then Sends(idle.(signaling := HaveLocalOffer), OFFER, page.basis)
    else idle
  }

  function AnswerFinished(page: Page, ok: bool): Page {
    if ok then Sends(page.(signaling := Stable), ANSWER, page.heard) else page
  }

  /** What an action other than the server's does to the page it belongs to. */
  function PageAfter(w: World, a: Action): Page
    requires Possible(w, a) && !a.Serve? && !a.OpenPage? && !a.JoinAs?
  {
    var page := w.pages[a.p];
    match a
    case Receive(_, healthy, applies) =>
      var msg := w.server.links[page.link.value].box.written[page.read];
      Handled(page.(read := page.read + 1), msg, healthy, applies)
    case RestartIce(_) => RestartIceOn(page)
    case OfferMade(_, ok) => OfferFinished(page, ok)
    case AnswerMade(_, ok) => AnswerFinished(page, ok)
    case NewPeer(_) => page.(signaling := Stable)
    case ChangeRoom(_, room) => page.(room := room)
    case OpenSocket(_) => page.(online := true, bound := page.room, link := None)
    case LoseSocket(_) => page.(online := false, link := None)
    case ClosePage(_) => page.(online := false, link := None, signaling := NoPeer)
  }

  function NewPage(room: RoomId, id: ClientId): Page {
    Page(room, id, None, false, room, None, 0, false, false, false, NoPeer, room, room, room, [])
  }

  function Act(cfg: Config, w: World, a: Action): World
    requires Possible(w, a)
  {
    match a
    case Serve(step) => w.(server := Next(cfg, w.server, step))
    case OpenPage(room, id) =>
      w.(pages := w.pages + [NewPage(room, id)])
    case JoinAs(p, req) => Connect(cfg, w, p, req)
    case _ => w.(pages := w.pages[a.p := PageAfter(w, a)])
  }

  /** The first message on a new socket; an admitted page listens to the connection it is given. */
  function Connect(cfg: Config, w: World, p: nat, req: JoinRequest): World
    requires Possible(w, JoinAs(p, req))
  {
    var c := |w.server.links|;
    var server := Next(cfg, w.server, JoinRoom(req));
    if |server.links| > c then
      World(server, w.pages[p := w.pages[p].(link := Some(c), read := 0)], w.owner + [p])
    else
      w.(server := server)
  }

  predicate Playable(cfg: Config, w: World, actions: seq<Action>)
    decreases |actions|
  {
    actions == [] || (Possible(w, actions[0]) && Playable(cfg, Act(cfg, w, actions[0]), actions[1..]))
  }

  function Play(cfg: Config, w: World, actions: seq<Action>): World
    requires Playable(cfg, w, actions)
    decreases |actions|
  {
    if actions == [] then w else Play(cfg, Act(cfg, w, actions[0]), actions[1..])
  }

  ghost predicate Arises(cfg: Config, w: World) {
    exists actions :: Playable(cfg, START, actions) && Play(cfg, START, actions) == w
  }

  // ---- The invariant ----

  /** At some time the server admitted `id` to `room` with `role`. */
  ghost predicate HoldsRole(s: State, room: RoomId, id: ClientId, role: Role) {
    exists c :: 0 <= c < |s.links| && SeatIs(s.links[c].place, room, id, role)
  }

  predicate SeatIs(place: Place, room: RoomId, id: ClientId, role: Role) {
    place.room == room && place.id == id && place.role == role
  }

  /** The page makes, has outstanding, or ever sent an offer on the role it learned in that room. */
  predicate Offering(page: Page, room: RoomId) {
    || ((page.making || page.signaling.HaveLocalOffer?) && page.basis == room)
    || SentOn(page, OFFER, room)
  }

  /** The page holds a remote offer heard in that room, or ever answered one. */
  predicate Answering(page: Page, room: RoomId) {
    (page.signaling.HaveRemoteOffer? && page.heard == room) || SentOn(page, ANSWER, room)
  }

  predicate SentOn(page: Page, body: string, basis: RoomId) {
    exists i :: 0 <= i < |page.sent| && page.sent[i].body == body && page.sent[i].basis == basis
  }

  /** Descriptions sent to the room were based on what was learned or heard in that room. */
  ghost predicate NothingStale(w: World, room: RoomId) {
    forall p, i :: 0 <= p < |w.pages| && 0 <= i < |w.pages[p].sent| && w.pages[p].sent[i].room == room ==>
                     w.pages[p].sent[i].basis == room
  }

  /** The party whose descriptions are of the other type. */
  function WrongRole(body: string): Role {
    if body == OFFER then Callee else Caller
  }

  /** The ID behind the page has the seat in the room that does not send such descriptions. */
  ghost predicate Unfit(w: World, room: RoomId, p: nat, one: Sent)
    requires p < |w.pages|
  {
    HoldsRole(w.server, room, w.pages[p].id, WrongRole(one.body))
  }

  /** No stale offer was sent to the room by its callee, and no stale answer by its caller. */
  ghost predicate NothingMisplaced(w: World, room: RoomId) {
    forall p, i :: 0 <= p < |w.pages| && 0 <= i < |w.pages[p].sent| && w.pages[p].sent[i].room == room ==>
                     w.pages[p].sent[i].basis == room || !Unfit(w, room, p, w.pages[p].sent[i])
  }

  /** `all`: also what depends on nobody having sent the room a misplaced description. */
  ghost predicate PageOk(s: State, room: RoomId, all: bool, page: Page) {
    && (page.role.Some? && page.learned == room ==> HoldsRole(s, room, page.id, page.role.value))
    && (Offering(page, room) ==> HoldsRole(s, room, page.id, Caller))
    && (all && Answering(page, room) ==> HoldsRole(s, room, page.id, Callee))
    && (page.link.Some? ==> Sits(s, page.link.value, page.bound, page.id))
  }

  ghost predicate PagesOk(w: World, room: RoomId, all: bool) {
    forall p :: 0 <= p < |w.pages| ==> PageOk(w.server, room, all, w.pages[p])
  }

  ghost predicate OwnersOk(w: World) {
    && |w.owner| == |w.server.links|
    && forall c :: 0 <= c < |w.owner| ==>
                     w.owner[c] < |w.pages| && w.server.links[c].place.id == w.pages[w.owner[c]].id
  }

  /** A relayed description was sent to its sender's room by the page behind the sender. */
  ghost predicate Spoken(w: World, msg: Payload) {
    msg.Relayed? && Describes(msg.body) ==>
      && msg.sender < |w.server.links| && msg.sender < |w.owner| && w.owner[msg.sender] < |w.pages|
      && Says(w.pages[w.owner[msg.sender]], w.server.links[msg.sender].place.room, msg.body)
  }

  ghost predicate SayingOk(w: World) {
    forall c :: 0 <= c < |w.server.links| && w.server.links[c].pc.Fanout? ==> Spoken(w, w.server.links[c].pc.payload)
  }

  ghost predicate SaidOk(w: World) {
    forall x, k :: 0 <= x < |w.server.links| && 0 <= k < |w.server.links[x].box.accepted| ==>
                     Spoken(w, w.server.links[x].box.accepted[k])
  }

  ghost predicate Consistent(cfg: Config, w: World, room: RoomId, all: bool) {
    Sound(cfg, w.server) && PagesOk(w, room, all) && OwnersOk(w) && SayingOk(w) && SaidOk(w)
  }

  // ---- Roles ----

  lemma RolesStay(s: State, s': State, room: RoomId, id: ClientId, role: Role)
    requires LinksFollow(s, s') && HoldsRole(s, room, id, role)
    ensures HoldsRole(s', room, id, role)
  {
    hide Extends;
    var c :| 0 <= c < |s.links| && SeatIs(s.links[c].place, room, id, role);
    assert LinkFollows(s.links[c], s'.links[c]);
    assert SeatIs(s'.links[c].place, room, id, role);
  }

  /** One ID, one role; one role, one ID. */
  lemma RolesAreUnique(s: State, room: RoomId, a: ClientId, b: ClientId, ra: Role, rb: Role)
    requires SeatsOk(s) && HoldsRole(s, room, a, ra) && HoldsRole(s, room, b, rb)
    ensures a == b <==> ra == rb
  {
    var c :| 0 <= c < |s.links| && SeatIs(s.links[c].place, room, a, ra);
    var d :| 0 <= d < |s.links| && SeatIs(s.links[d].place, room, b, rb);
    assert SameSeat(s.links[c].place, s.links[d].place);
  }

  lemma LinkHoldsRole(s: State, c: Conn)
    requires c < |s.links|
    ensures HoldsRole(s, s.links[c].place.room, s.links[c].place.id, s.links[c].place.role)
  {
    var place := s.links[c].place;
    assert SeatIs(place, place.room, place.id, place.role);
  }

  lemma RoleIsOnRecord(s: State, room: RoomId, id: ClientId, role: Role)
    requires PlacesOk(s) && HoldsRole(s, room, id, role)
    ensures room in s.rooms ==> id in s.rooms[room].roles && s.rooms[room].roles[id] == role
  {
    var c :| 0 <= c < |s.links| && SeatIs(s.links[c].place, room, id, role);
    assert PlaceOk(s, s.links[c].place);
  }

  /** Only a caller's connection relays offers, and only a callee's answers. */
  lemma RelayerRole(w: World, room: RoomId, msg: Payload)
    requires SeatsOk(w.server) && PagesOk(w, room, true) && OwnersOk(w) && Spoken(w, msg) && NothingMisplaced(w, room)
    requires msg.Relayed? && Describes(msg.body) && msg.sender < |w.server.links|
    requires w.server.links[msg.sender].place.room == room
    ensures w.server.links[msg.sender].place.role == if msg.body == OFFER then Caller else Callee
  {
    var page := w.pages[w.owner[msg.sender]];
    var place := w.server.links[msg.sender].place;
    assert PageOk(w.server, room, true, page) && place.id == page.id;
    LinkHoldsRole(w.server, msg.sender);
    var i :| 0 <= i < |page.sent| && page.sent[i].room == room && page.sent[i].body == msg.body;
    if page.sent[i].basis == room {
      assert SentOn(page, msg.body, room);
      hide HoldsRole, SeatsOk, NothingMisplaced;
      RolesAreUnique(w.server, room, place.id, page.id, place.role, if msg.body == OFFER then Caller else Callee);
    } else {
      assert !Unfit(w, room, w.owner[msg.sender], page.sent[i]);
    }
  }

  /** So an offer is only ever accepted by a callee's connection, and an answer by a caller's. */
  lemma HearerRole(cfg: Config, w: World, x: Conn, msg: Payload)
    requires x < |w.server.links| && Consistent(cfg, w, w.server.links[x].place.room, true)
    requires NothingMisplaced(w, w.server.links[x].place.room)
    requires msg in w.server.links[x].box.accepted && msg.Relayed? && Describes(msg.body)
    ensures w.server.links[x].place.role == if msg.body == OFFER then Callee else Caller
  {
    assert HeardOk(w.server, x) && Reaches(w.server, msg, x);
    assert Spoken(w, msg) && SeatsOk(w.server);
    assert SameSeat(w.server.links[msg.sender].place, w.server.links[x].place);
    RelayerRole(w, w.server.links[x].place.room, msg);
  }

  // ---- Server steps ----

  lemma PagesStay(w: World, w': World, room: RoomId, all: bool)
    requires PagesOk(w, room, all) && LinksFollow(w.server, w'.server) && w'.pages == w.pages
    ensures PagesOk(w', room, all)
  {
    hide PageOk;
    forall p | 0 <= p < |w'.pages| ensures PageOk(w'.server, room, all, w'.pages[p]) {
      assert PageOk(w.server, room, all, w.pages[p]);
      PageStays(w.server, w'.server, room, all, w.pages[p]);
    }
  }

  lemma PageStays(s: State, s': State, room: RoomId, all: bool, page: Page)
    requires PageOk(s, room, all, page) && LinksFollow(s, s')
    ensures PageOk(s', room, all, page)
  {
    hide HoldsRole, Offering, Answering;
    if page.link.Some? {
      assert LinkFollows(s.links[page.link.value], s'.links[page.link.value]);
    }
    hide LinksFollow;
    if page.role.Some? && page.learned == room {
      RolesStay(s, s', room, page.id, page.role.value);
    }
    if Offering(page, room) {
      RolesStay(s, s', room, page.id, Caller);
    }
    if all && Answering(page, room) {
      RolesStay(s, s', room, page.id, Callee);
    }
  }

  /** A larger world still knows who said what. */
  ghost predicate Remembers(w: World, w': World) {
    && w.owner <= w'.owner
    && |w.server.links| <= |w'.server.links|
    && (forall c :: 0 <= c < |w.server.links| ==> w'.server.links[c].place == w.server.links[c].place)
    && |w.pages| <= |w'.pages|
    && (forall p :: 0 <= p < |w.pages| ==> KeepsPast(w.pages[p], w'.pages[p]))
  }

  predicate KeepsPast(page: Page, later: Page) {
    later.id == page.id && page.sent <= later.sent
  }

  lemma SaysStill(page: Page, later: Page, room: RoomId, body: string)
    requires KeepsPast(page, later) && Says(page, room, body)
    ensures Says(later, room, body)
  {
    var i :| 0 <= i < |page.sent| && page.sent[i].room == room && page.sent[i].body == body;
    assert later.sent[i] == page.sent[i];
  }

  lemma SpokenStays(w: World, w': World, msg: Payload)
    requires Remembers(w, w') && Spoken(w, msg)
    ensures Spoken(w', msg)
  {
    hide Says;
    if msg.Relayed? && Describes(msg.body) {
      var p := w.owner[msg.sender];
      assert w'.owner[msg.sender] == p && KeepsPast(w.pages[p], w'.pages[p]);
      SaysStill(w.pages[p], w'.pages[p], w.server.links[msg.sender].place.room, msg.body);
    }
  }

  lemma NothingMisplacedBefore(w: World, w': World, room: RoomId)
    requires Remembers(w, w') && NothingMisplaced(w', room)
    ensures NothingMisplaced(w, room)
  {
    hide HoldsRole;
    forall p, i | 0 <= p < |w.pages| && 0 <= i < |w.pages[p].sent| && w.pages[p].sent[i].room == room
      ensures w.pages[p].sent[i].basis == room || !Unfit(w, room, p, w.pages[p].sent[i])
    {
      assert KeepsPast(w.pages[p], w'.pages[p]);
      assert w'.pages[p].sent[i] == w.pages[p].sent[i];
      if Unfit(w, room, p, w.pages[p].sent[i]) {
        RememberedRole(w, w', room, w.pages[p].id, WrongRole(w.pages[p].sent[i].body));
      }
    }
  }

  lemma RememberedRole(w: World, w': World, room: RoomId, id: ClientId, role: Role)
    requires Remembers(w, w') && HoldsRole(w.server, room, id, role)
    ensures HoldsRole(w'.server, room, id, role)
  {
    var c :| 0 <= c < |w.server.links| && SeatIs(w.server.links[c].place, room, id, role);
    assert SeatIs(w'.server.links[c].place, room, id, role);
  }

  lemma SamePagesRemember(w: World, w': World)
    requires LinksFollow(w.server, w'.server) && w'.pages == w.pages && w.owner <= w'.owner
    ensures Remembers(w, w')
  {
    hide Extends;
    forall c | 0 <= c < |w.server.links| ensures w'.server.links[c].place == w.server.links[c].place {
      assert LinkFollows(w.server.links[c], w'.server.links[c]);
    }
  }

  /** A handler that starts relaying a description relays what its page sent. */
  lemma ActorSays(cfg: Config, w: World, step: Step, c: Conn)
    requires SayingOk(w) && Enabled(w.server, step) && Honest(w, step) && Actor(step) == Some(c)
    requires c < |w.server.links| && c < |Next(cfg, w.server, step).links|
    requires Next(cfg, w.server, step).links[c].pc.Fanout?
    ensures Spoken(w, Next(cfg, w.server, step).links[c].pc.payload)
  {
    hide Create, Evict, Occupants, Join, Leave, Snapshot, Push, Pump;
  }

  lemma NewcomerSays(cfg: Config, s: State, step: Step)
    requires Enabled(s, step)
    ensures var s' := Next(cfg, s, step);
            |s'.links| == |s.links| + 1 && s'.links[|s.links|].pc.Fanout? ==> s'.links[|s.links|].pc.payload.Welcome?
  {
    hide Create, Evict, Occupants, Join, Leave, Snapshot, Push, Pump;
  }

  lemma StepKeepsSaying(cfg: Config, w: World, step: Step, w': World)
    requires SayingOk(w) && Enabled(w.server, step) && Honest(w, step) && w'.server == Next(cfg, w.server, step)
    requires Remembers(w, w') && LinksFollow(w.server, w'.server)
    ensures SayingOk(w')
  {
    var s, s' := w.server, w'.server;
    LinkCount(s, s');
    hide Next, Spoken, Remembers, LinksFollow, Honest;
    forall c | 0 <= c < |s'.links| && s'.links[c].pc.Fanout? ensures Spoken(w', s'.links[c].pc.payload) {
      if c == |s.links| {
        NewcomerSays(cfg, s, step);
        OtherMessages(w', s'.links[c].pc.payload);
      } else {
        if Actor(step) == Some(c) {
          ActorSays(cfg, w, step, c);
        } else {
          OnlyTheActorMoves(cfg, s, step, c);
        }
        SpokenStays(w, w', s'.links[c].pc.payload);
      }
    }
  }

  lemma OtherMessages(w: World, msg: Payload)
    requires !msg.Relayed?
    ensures Spoken(w, msg)
  {
  }

  lemma StepKeepsSaid(cfg: Config, w: World, step: Step, w': World)
    requires SayingOk(w) && SaidOk(w) && Boxes(w.server)
    requires Enabled(w.server, step) && w'.server == Next(cfg, w.server, step)
    requires Remembers(w, w') && LinksFollow(w.server, w'.server)
    ensures SaidOk(w')
  {
    var s, s' := w.server, w'.server;
    LinkCount(s, s');
    hide Next, Spoken, Remembers, LinksFollow, Boxes;
    forall x, k | 0 <= x < |s'.links| && 0 <= k < |s'.links[x].box.accepted|
      ensures Spoken(w', s'.links[x].box.accepted[k])
    {
      if x == |s.links| {
        NewcomerLogEmpty(cfg, s, step);
      } else {
        LogsGrowByPushing(cfg, s, step, x);
        SpokenStays(w, w', s'.links[x].box.accepted[k]);
      }
    }
  }

  /** Where the connection a step adds belongs. */
  lemma NewcomerPlace(cfg: Config, s: State, step: Step)
    requires Enabled(s, step)
    ensures var s' := Next(cfg, s, step);
            |s'.links| > |s.links| ==>
              && step.JoinRoom? && |s'.links| == |s.links| + 1
              && s'.links[|s.links|].place.room == step.req.room && s'.links[|s.links|].place.id == step.req.id
  {
    hide Create, Evict, Occupants, Join, Leave, Snapshot, Push, Pump;
  }

  lemma StepKeepsOwners(cfg: Config, w: World, step: Step, p: nat, w': World)
    requires OwnersOk(w) && Enabled(w.server, step) && w'.server == Next(cfg, w.server, step)
    requires LinksFollow(w.server, w'.server)
    requires step.JoinRoom? ==> p < |w.pages| && step.req.id == w.pages[p].id
    requires w'.owner == if |w'.server.links| > |w.server.links| then w.owner + [p] else w.owner
    requires w'.pages == w.pages
    ensures OwnersOk(w')
  {
    var s, s' := w.server, w'.server;
    NewcomerPlace(cfg, s, step);
    LinkCount(s, s');
    hide Next, Extends;
    forall c | 0 <= c < |w'.owner|
      ensures w'.owner[c] < |w'.pages| && s'.links[c].place.id == w'.pages[w'.owner[c]].id
    {
      if c < |s.links| {
        assert LinkFollows(s.links[c], s'.links[c]);
        assert s.links[c].place.id == w.pages[w.owner[c]].id;
      }
    }
  }

  lemma ServeKeeps(cfg: Config, w: World, step: Step, room: RoomId, all: bool)
    requires Consistent(cfg, w, room, all) && Possible(w, Serve(step))
    ensures Consistent(cfg, w.(server := Next(cfg, w.server, step)), room, all)
  {
    var w' := w.(server := Next(cfg, w.server, step));
    StepLinks(cfg, w.server, step);
    StepKeepsSound(cfg, w.server, step);
    NewcomerPlace(cfg, w.server, step);
    LinkCount(w.server, w'.server);
    assert Boxes(w.server);
    hide Next, Sound, PageOk, LinksFollow, SayingOk, SaidOk, OwnersOk, PagesOk, NewcomerOk, Honest, Remembers;
    SamePagesRemember(w, w');
    PagesStay(w, w', room, all);
    StepKeepsOwners(cfg, w, step, 0, w');
    StepKeepsSaying(cfg, w, step, w');
    StepKeepsSaid(cfg, w, step, w');
  }

  // ---- Page steps ----

  lemma SpokenStaysEverywhere(w: World, w': World)
    requires SayingOk(w) && SaidOk(w) && Remembers(w, w') && w'.server == w.server
    ensures SayingOk(w') && SaidOk(w')
  {
    hide Remembers, Spoken;
    forall c | 0 <= c < |w.server.links| && w.server.links[c].pc.Fanout?
      ensures Spoken(w', w.server.links[c].pc.payload)
    {
      SpokenStays(w, w', w.server.links[c].pc.payload);
    }
    forall x, k | 0 <= x < |w.server.links| && 0 <= k < |w.server.links[x].box.accepted|
      ensures Spoken(w', w.server.links[x].box.accepted[k])
    {
      SpokenStays(w, w', w.server.links[x].box.accepted[k]);
    }
  }

  lemma ReplacedRemembers(w: World, p: nat, page: Page)
    requires p < |w.pages| && KeepsPast(w.pages[p], page)
    ensures Remembers(w, w.(pages := w.pages[p := page]))
  {
  }

  /** Replacing one page by a later version of itself. */
  lemma PageReplaced(cfg: Config, w: World, p: nat, page: Page, room: RoomId, all: bool)
    requires Consistent(cfg, w, room, all) && p < |w.pages|
    requires KeepsPast(w.pages[p], page)
    requires PageOk(w.server, room, all, page)
    ensures Consistent(cfg, w.(pages := w.pages[p := page]), room, all)
  {
    var w' := w.(pages := w.pages[p := page]);
    ReplacedRemembers(w, p, page);
    hide Sound, PageOk, Remembers, SayingOk, SaidOk;
    SpokenStaysEverywhere(w, w');
  }

  /** What a page reads was accepted for its connection. */
  lemma ReadIsAccepted(cfg: Config, w: World, page: Page, room: RoomId, all: bool)
    requires Consistent(cfg, w, room, all) && PageOk(w.server, room, all, page) && Unread(w, page)
    ensures var box := w.server.links[page.link.value].box; box.written[page.read] in box.accepted
  {
    assert Faithful(w.server.links[page.link.value].box);
    WrittenIsPrefixOfAccepted(w.server.links[page.link.value].box);
  }

  /** The role a welcome carries is the one the server gave the page's ID. */
  lemma WelcomeIsTrue(cfg: Config, w: World, page: Page, msg: Payload, room: RoomId, all: bool)
    requires Consistent(cfg, w, room, all) && PageOk(w.server, room, all, page) && page.link.Some?
    requires msg in w.server.links[page.link.value].box.accepted && msg.Welcome?
    ensures HoldsRole(w.server, page.bound, page.id, msg.role)
  {
    var c := page.link.value;
    LinkHoldsRole(w.server, c);
    assert LogOk(w.server, c) && EntryOk(w.server, c, msg);
  }

  /** An offer heard by a page is heard by a callee. */
  lemma OfferIsForMe(cfg: Config, w: World, page: Page, msg: Payload)
    requires Consistent(cfg, w, page.bound, true) && PageOk(w.server, page.bound, true, page) && page.link.Some?
    requires NothingMisplaced(w, page.bound)
    requires msg in w.server.links[page.link.value].box.accepted && msg.Relayed? && msg.body == OFFER
    ensures HoldsRole(w.server, page.bound, page.id, Callee)
  {
    HearerRole(cfg, w, page.link.value, msg);
    LinkHoldsRole(w.server, page.link.value);
  }

  lemma HandledOk(s: State, room: RoomId, all: bool, page: Page, msg: Payload, healthy: bool, applies: bool)
    requires PageOk(s, room, all, page)
    requires msg.Welcome? && page.bound == room ==> HoldsRole(s, room, page.id, msg.role)
    requires msg.Relayed? && msg.body == OFFER && page.bound == room && all ==> HoldsRole(s, room, page.id, Callee)
    ensures PageOk(s, room, all, Handled(page, msg, healthy, applies))
  {
    HandledSendsNothing(page, msg, healthy, applies, room);
    hide HoldsRole, Sits, SentOn;
    match msg
    case Welcome(role, _, _) => WelcomedOk(s, room, all, page, role);
    case _ => hide Describes;
  }

  lemma WelcomedOk(s: State, room: RoomId, all: bool, page: Page, role: Role)
    requires PageOk(s, room, all, page)
    requires page.bound == room ==> HoldsRole(s, room, page.id, role)
    ensures var welcomed := page.(role := Some(role), learned := page.bound);
            PageOk(s, room, all, welcomed) && PageOk(s, room, all, OfferAsCaller(welcomed))
  {
    var welcomed := page.(role := Some(role), learned := page.bound);
    SameSent(page, welcomed, OFFER, room);
    SameSent(page, welcomed, ANSWER, room);
    SameSent(page, OfferAsCaller(welcomed), OFFER, room);
    SameSent(page, OfferAsCaller(welcomed), ANSWER, room);
    hide HoldsRole, Sits, SentOn;
  }

  lemma HandledSends(page: Page, msg: Payload, healthy: bool, applies: bool)
    ensures Handled(page, msg, healthy, applies).sent == page.sent
  {
  }

  lemma HandledSendsNothing(page: Page, msg: Payload, healthy: bool, applies: bool, room: RoomId)
    ensures var later := Handled(page, msg, healthy, applies);
            && SentOn(later, OFFER, room) == SentOn(page, OFFER, room)
            && SentOn(later, ANSWER, room) == SentOn(page, ANSWER, room)
  {
    HandledSends(page, msg, healthy, applies);
    hide Handled;
  }

  lemma PageIsOk(cfg: Config, w: World, p: nat, room: RoomId, all: bool)
    requires Consistent(cfg, w, room, all) && p < |w.pages|
    ensures PageOk(w.server, room, all, w.pages[p])
  {
    hide Sound, PageOk, OwnersOk, SayingOk, SaidOk;
  }

  lemma MessageIsOk(cfg: Config, w: World, page: Page, healthy: bool, applies: bool, room: RoomId, all: bool)
    requires Consistent(cfg, w, room, all) && PageOk(w.server, room, all, page) && Unread(w, page)
    requires all ==> NothingMisplaced(w, room)
    ensures var msg := w.server.links[page.link.value].box.written[page.read];
            PageOk(w.server, room, all, Handled(page.(read := page.read + 1), msg, healthy, applies))
  {
    hide Consistent, PageOk, HoldsRole, Handled, NothingMisplaced;
    var msg := w.server.links[page.link.value].box.written[page.read];
    ReadIsAccepted(cfg, w, page, room, all);
    if msg.Welcome? {
      WelcomeIsTrue(cfg, w, page, msg, room, all);
    } else if msg.Relayed? && msg.body == OFFER && page.bound == room && all {
      OfferIsForMe(cfg, w, page, msg);
    }
    OnlyTheCursor(w.server, room, all, page);
    HandledOk(w.server, room, all, page.(read := page.read + 1), msg, healthy, applies);
  }

  lemma OnlyTheCursor(s: State, room: RoomId, all: bool, page: Page)
    requires PageOk(s, room, all, page)
    ensures PageOk(s, room, all, page.(read := page.read + 1))
  {
    hide HoldsRole, Sits;
  }

  lemma RestartOk(s: State, room: RoomId, all: bool, page: Page)
    requires PageOk(s, room, all, page)
    ensures PageOk(s, room, all, RestartIceOn(page))
  {
    hide HoldsRole, Sits, SentOn;
    var later := RestartIceOn(page);
    SameSent(page, later, OFFER, room);
    SameSent(page, later, ANSWER, room);
  }

  lemma SameSent(page: Page, later: Page, body: string, room: RoomId)
    requires later.sent == page.sent
    ensures SentOn(later, body, room) == SentOn(page, body, room)
  {
  }

  lemma SentMore(page: Page, later: Page, one: Sent, body: string, room: RoomId)
    requires later.sent == page.sent + [one]
    ensures SentOn(later, body, room) <==> SentOn(page, body, room) || (one.body == body && one.basis == room)
  {
    assert later.sent[|page.sent|] == one;
    assert forall i :: 0 <= i < |page.sent| ==> later.sent[i] == page.sent[i];
  }

  lemma SendsOn(page: Page, body: Description, basis: RoomId, room: RoomId)
    ensures var later := Sends(page, body, basis);
            && (SentOn(later, OFFER, room) ==> SentOn(page, OFFER, room) || (body == OFFER && basis == room))
            && (SentOn(later, ANSWER, room) ==> SentOn(page, ANSWER, room) || (body == ANSWER && basis == room))
  {
    hide SentOn;
    if page.online {
      SentMore(page, Sends(page, body, basis), Sent(page.bound, body, basis), OFFER, room);
      SentMore(page, Sends(page, body, basis), Sent(page.bound, body, basis), ANSWER, room);
    }
  }

  lemma OfferOk(s: State, room: RoomId, all: bool, page: Page, ok: bool)
    requires PageOk(s, room, all, page) && page.making
    ensures PageOk(s, room, all, OfferFinished(page, ok))
  {
    var idle := page.(making := false, restarting := false);
    SameSent(page, idle, OFFER, room);
    SameSent(page, idle, ANSWER, room);
    SameSent(page, idle.(signaling := HaveLocalOffer), OFFER, room);
    SameSent(page, idle.(signaling := HaveLocalOffer), ANSWER, room);
    SendsOn(idle.(signaling := HaveLocalOffer), OFFER, page.basis, room);
    hide HoldsRole, Sits, SentOn;
  }

  lemma AnswerOk(s: State, room: RoomId, all: bool, page: Page, ok: bool)
    requires PageOk(s, room, all, page) && page.signaling.HaveRemoteOffer?
    ensures PageOk(s, room, all, AnswerFinished(page, ok))
  {
    SameSent(page, page.(signaling := Stable), OFFER, room);
    SameSent(page, page.(signaling := Stable), ANSWER, room);
    SendsOn(page.(signaling := Stable), ANSWER, page.heard, room);
    hide HoldsRole, Sits, SentOn;
  }

  /** Changing the room, losing or opening a socket, or renewing the peer connection claims nothing new. */
  lemma SocketOk(s: State, room: RoomId, all: bool, page: Page, later: Page)
    requires PageOk(s, room, all, page)
    requires later.id == page.id && later.role == page.role && later.learned == page.learned
    requires later.making == page.making && later.basis == page.basis && later.heard == page.heard
    requires later.sent == page.sent
    requires later.signaling == page.signaling || later.signaling.NoPeer? || later.signaling.Stable?
    requires later.link.None? || (later.link == page.link && later.bound == page.bound)
    ensures PageOk(s, room, all, later)
  {
    hide HoldsRole, Sits, SentOn;
    SameSent(page, later, OFFER, room);
    SameSent(page, later, ANSWER, room);
  }

  lemma PageAfterOk(cfg: Config, w: World, a: Action, room: RoomId, all: bool)
    requires Consistent(cfg, w, room, all) && Possible(w, a) && !a.Serve? && !a.OpenPage? && !a.JoinAs?
    requires all ==> NothingMisplaced(w, room)
    ensures PageOk(w.server, room, all, PageAfter(w, a))
  {
    hide Enabled, Honest, PageOk, Consistent, Handled, RestartIceOn, OfferFinished, AnswerFinished, NothingMisplaced;
    PageIsOk(cfg, w, a.p, room, all);
    var page := w.pages[a.p];
    match a
    case Receive(_, healthy, applies) => MessageIsOk(cfg, w, page, healthy, applies, room, all);
    case RestartIce(_) => RestartOk(w.server, room, all, page);
    case OfferMade(_, ok) => OfferOk(w.server, room, all, page, ok);
    case AnswerMade(_, ok) => AnswerOk(w.server, room, all, page, ok);
    case NewPeer(_) => SocketOk(w.server, room, all, page, page.(signaling := Stable));
    case ChangeRoom(_, r) => SocketOk(w.server, room, all, page, page.(room := r));
    case OpenSocket(_) =>
      SocketOk(w.server, room, all, page, page.(online := true, bound := page.room, link := None));
    case LoseSocket(_) => SocketOk(w.server, room, all, page, page.(online := false, link := None));
    case ClosePage(_) =>
      SocketOk(w.server, room, all, page, page.(online := false, link := None, signaling := NoPeer));
  }

  lemma HandledKeepsPast(page: Page, msg: Payload, healthy: bool, applies: bool)
    ensures KeepsPast(page, Handled(page.(read := page.read + 1), msg, healthy, applies))
  {
  }

  lemma PageKeepsItsPast(w: World, a: Action)
    requires Possible(w, a) && !a.Serve? && !a.OpenPage? && !a.JoinAs?
    ensures KeepsPast(w.pages[a.p], PageAfter(w, a))
  {
    hide Enabled, Honest, Handled;
    var page := w.pages[a.p];
    match a
    case Receive(_, healthy, applies) =>
      hide KeepsPast;
      HandledKeepsPast(page, w.server.links[page.link.value].box.written[page.read], healthy, applies);
    case _ =>
  }

  lemma NewPageOk(s: State, room: RoomId, all: bool, r: RoomId, id: ClientId)
    ensures PageOk(s, room, all, NewPage(r, id))
  {
  }

  lemma OpenPageKeeps(cfg: Config, w: World, r: RoomId, id: ClientId, room: RoomId, all: bool)
    requires Consistent(cfg, w, room, all)
    ensures Consistent(cfg, w.(pages := w.pages + [NewPage(r, id)]), room, all)
  {
    var w' := w.(pages := w.pages + [NewPage(r, id)]);
    NewPageOk(w.server, room, all, r, id);
    assert Remembers(w, w');
    hide Sound, PageOk, Remembers, SayingOk, SaidOk;
    SpokenStaysEverywhere(w, w');
  }

  lemma AdmissionKeeps(cfg: Config, w: World, p: nat, req: JoinRequest, m: World, room: RoomId, all: bool)
    requires Consistent(cfg, w, room, all) && Possible(w, JoinAs(p, req))
    requires m.server == Next(cfg, w.server, JoinRoom(req)) && m.pages == w.pages
    requires m.owner == if |m.server.links| > |w.server.links| then w.owner + [p] else w.owner
    ensures Consistent(cfg, m, room, all)
  {
    var step := JoinRoom(req);
    StepLinks(cfg, w.server, step);
    StepKeepsSound(cfg, w.server, step);
    assert Boxes(w.server);
    hide Next, Sound, PageOk, LinksFollow, SayingOk, SaidOk, OwnersOk, PagesOk, NewcomerOk, Enabled, Remembers;
    SamePagesRemember(w, m);
    PagesStay(w, m, room, all);
    StepKeepsOwners(cfg, w, step, p, m);
    StepKeepsSaying(cfg, w, step, m);
    StepKeepsSaid(cfg, w, step, m);
  }

  lemma AdmittedKeeps(cfg: Config, w: World, p: nat, req: JoinRequest, m: World, room: RoomId, all: bool)
    requires Consistent(cfg, w, room, all) && Possible(w, JoinAs(p, req)) && Consistent(cfg, m, room, all)
    requires m.server == Next(cfg, w.server, JoinRoom(req)) && m.pages == w.pages
    requires |m.server.links| > |w.server.links|
    ensures var page := w.pages[p].(link := Some(|w.server.links|), read := 0);
            Consistent(cfg, m.(pages := m.pages[p := page]), room, all)
  {
    hide Next, PageOk, Consistent, Enabled;
    PageIsOk(cfg, m, p, room, all);
    NewLinkOk(cfg, w.server, w.pages[p], req, room, all);
    PageReplaced(cfg, m, p, w.pages[p].(link := Some(|w.server.links|), read := 0), room, all);
  }

  lemma JoinKeeps(cfg: Config, w: World, p: nat, req: JoinRequest, room: RoomId, all: bool)
    requires Consistent(cfg, w, room, all) && Possible(w, JoinAs(p, req))
    ensures Consistent(cfg, Connect(cfg, w, p, req), room, all)
  {
    var server := Next(cfg, w.server, JoinRoom(req));
    var owner := if |server.links| > |w.server.links| then w.owner + [p] else w.owner;
    var m := World(server, w.pages, owner);
    hide Next, Consistent, Enabled;
    AdmissionKeeps(cfg, w, p, req, m, room, all);
    if |server.links| > |w.server.links| {
      AdmittedKeeps(cfg, w, p, req, m, room, all);
    }
  }

  lemma NewLinkOk(cfg: Config, s: State, page: Page, req: JoinRequest, room: RoomId, all: bool)
    requires Enabled(s, JoinRoom(req)) && req.room == page.bound && req.id == page.id
    requires PageOk(Next(cfg, s, JoinRoom(req)), room, all, page)
    requires |Next(cfg, s, JoinRoom(req)).links| > |s.links|
    ensures PageOk(Next(cfg, s, JoinRoom(req)), room, all, page.(link := Some(|s.links|), read := 0))
  {
    NewcomerPlace(cfg, s, JoinRoom(req));
    var later := page.(link := Some(|s.links|), read := 0);
    SameSent(page, later, OFFER, room);
    SameSent(page, later, ANSWER, room);
    hide Next, HoldsRole, SentOn;
  }

  /** Every action of anybody keeps the composed invariant. */
  lemma ActKeeps(cfg: Config, w: World, a: Action, room: RoomId, all: bool)
    requires Consistent(cfg, w, room, all) && Possible(w, a) && (all ==> NothingMisplaced(w, room))
    ensures Consistent(cfg, Act(cfg, w, a), room, all)
  {
    hide Consistent, PageAfter, Connect, Next, PageOk, NothingMisplaced;
    match a
    case Serve(step) => ServeKeeps(cfg, w, step, room, all);
    case OpenPage(r, id) => OpenPageKeeps(cfg, w, r, id, room, all);
    case JoinAs(p, req) => JoinKeeps(cfg, w, p, req, room, all);
    case _ =>
      PageAfterOk(cfg, w, a, room, all);
      PageKeepsItsPast(w, a);
      PageReplaced(cfg, w, a.p, PageAfter(w, a), room, all);
  }

  lemma ServeRemembers(cfg: Config, w: World, step: Step, owner: seq<nat>)
    requires RoomsOk(w.server) && Boxes(w.server) && Enabled(w.server, step) && w.owner <= owner
    ensures Remembers(w, World(Next(cfg, w.server, step), w.pages, owner))
  {
    hide Next, Enabled, RoomsOk, Boxes, LinksFollow, Remembers, NewcomerOk;
    StepLinks(cfg, w.server, step);
    SamePagesRemember(w, World(Next(cfg, w.server, step), w.pages, owner));
  }

  lemma RemembersComposes(w: World, m: World, w': World)
    requires Remembers(w, m) && Remembers(m, w')
    ensures Remembers(w, w')
  {
    forall p | 0 <= p < |w.pages| ensures KeepsPast(w.pages[p], w'.pages[p]) {
      assert KeepsPast(w.pages[p], m.pages[p]) && KeepsPast(m.pages[p], w'.pages[p]);
    }
    hide KeepsPast;
  }

  lemma ConnectRemembers(cfg: Config, w: World, p: nat, req: JoinRequest)
    requires RoomsOk(w.server) && Boxes(w.server) && Possible(w, JoinAs(p, req))
    ensures Remembers(w, Connect(cfg, w, p, req))
  {
    var s' := Next(cfg, w.server, JoinRoom(req));
    var owner := if |s'.links| > |w.server.links| then w.owner + [p] else w.owner;
    var m := World(s', w.pages, owner);
    hide Next, RoomsOk, Boxes, Remembers, Enabled;
    ServeRemembers(cfg, w, JoinRoom(req), owner);
    if |s'.links| > |w.server.links| {
      var page := w.pages[p].(link := Some(|w.server.links|), read := 0);
      ReplacedRemembers(m, p, page);
      RemembersComposes(w, m, m.(pages := m.pages[p := page]));
    }
  }

  lemma ActRemembers(cfg: Config, w: World, a: Action)
    requires RoomsOk(w.server) && Boxes(w.server) && Possible(w, a)
    ensures Remembers(w, Act(cfg, w, a))
  {
    hide PageAfter, Connect, Next, RoomsOk, Boxes, Enabled, Honest, KeepsPast;
    match a
    case Serve(step) => hide Remembers; ServeRemembers(cfg, w, step, w.owner);
    case OpenPage(_, _) => PastIsKept(w);
    case JoinAs(p, req) => hide Remembers; ConnectRemembers(cfg, w, p, req);
    case _ =>
      hide Remembers;
      PageKeepsItsPast(w, a);
      ReplacedRemembers(w, a.p, PageAfter(w, a));
  }

  lemma PastIsKept(w: World)
    ensures forall p :: 0 <= p < |w.pages| ==> KeepsPast(w.pages[p], w.pages[p])
  {
  }

  lemma ServerIsSound(cfg: Config, w: World, room: RoomId, all: bool)
    requires Consistent(cfg, w, room, all)
    ensures RoomsOk(w.server) && Boxes(w.server)
  {
  }

  lemma {:induction false} PlayRemembers(cfg: Config, w: World, actions: seq<Action>)
    requires Consistent(cfg, w, "", false) && Playable(cfg, w, actions)
    ensures Remembers(w, Play(cfg, w, actions))
    decreases |actions|
  {
    if actions == [] {
      PastIsKept(w);
    } else {
      hide Consistent, Act, Remembers, NothingMisplaced;
      var m := Act(cfg, w, actions[0]);
      ServerIsSound(cfg, w, "", false);
      ActRemembers(cfg, w, actions[0]);
      ActKeeps(cfg, w, actions[0], "", false);
      PlayRemembers(cfg, m, actions[1..]);
      RemembersComposes(w, m, Play(cfg, m, actions[1..]));
    }
  }

  lemma {:induction false} PlayKeeps(cfg: Config, w: World, actions: seq<Action>, room: RoomId, all: bool)
    requires Consistent(cfg, w, room, all) && Consistent(cfg, w, "", false) && Playable(cfg, w, actions)
    requires all ==> NothingMisplaced(Play(cfg, w, actions), room)
    ensures Consistent(cfg, Play(cfg, w, actions), room, all)
    decreases |actions|
  {
    hide Consistent, Act, NothingMisplaced, Remembers;
    if actions == [] {
    } else {
      if all {
        PlayRemembers(cfg, w, actions);
        NothingMisplacedBefore(w, Play(cfg, w, actions), room);
      }
      ActKeeps(cfg, w, actions[0], room, all);
      ActKeeps(cfg, w, actions[0], "", false);
      PlayKeeps(cfg, Act(cfg, w, actions[0]), actions[1..], room, all);
    }
  }

  lemma StartIsConsistent(cfg: Config, room: RoomId, all: bool)
    ensures Consistent(cfg, START, room, all)
  {
    InitSound(cfg);
    hide Sound;
  }

  lemma ArisesIsConsistent(cfg: Config, w: World, room: RoomId, all: bool)
    requires Arises(cfg, w) && (all ==> NothingMisplaced(w, room))
    ensures Consistent(cfg, w, room, all)
  {
    hide Consistent, NothingMisplaced;
    var actions :| Playable(cfg, START, actions) && Play(cfg, START, actions) == w;
    StartIsConsistent(cfg, room, all);
    StartIsConsistent(cfg, "", false);
    PlayKeeps(cfg, START, actions, room, all);
  }

  // ---- Main results ----

  /**
   One offerer per room: whatever happens, a page that makes, has outstanding or ever sent an offer on
   the role it learned in a room belongs to the one client ID that the server admitted there as caller.
   */
  lemma SingleOfferer(cfg: Config, w: World, room: RoomId, p: nat, q: nat)
    requires Arises(cfg, w) && p < |w.pages| && q < |w.pages| && Offering(w.pages[p], room)
    ensures HoldsRole(w.server, room, w.pages[p].id, Caller)
    ensures var rooms := w.server.rooms;
            room in rooms ==> w.pages[p].id in rooms[room].roles && rooms[room].roles[w.pages[p].id] == Caller
    ensures Offering(w.pages[q], room) ==> w.pages[q].id == w.pages[p].id
  {
    ArisesIsConsistent(cfg, w, room, false);
    var a, b := w.pages[p], w.pages[q];
    assert PageOk(w.server, room, false, a) && PageOk(w.server, room, false, b) && SeatsOk(w.server);
    RoleIsOnRecord(w.server, room, a.id, Caller) by { assert PlacesOk(w.server); }
    hide HoldsRole, Consistent, SeatsOk, Offering;
    if Offering(b, room) {
      RolesAreUnique(w.server, room, a.id, b.id, Caller, Caller);
    }
  }

  /** Every offer sent to a room that was sent nothing stale came from the ID admitted there as caller. */
  lemma OffersComeFromTheCaller(cfg: Config, w: World, room: RoomId, p: nat)
    requires Arises(cfg, w) && NothingStale(w, room) && p < |w.pages| && Says(w.pages[p], room, OFFER)
    ensures HoldsRole(w.server, room, w.pages[p].id, Caller)
  {
    var page := w.pages[p];
    var i :| 0 <= i < |page.sent| && page.sent[i].room == room && page.sent[i].body == OFFER;
    assert page.sent[i].basis == room;
    assert SentOn(page, OFFER, room);
    SingleOfferer(cfg, w, room, p, p);
  }

  /** Nobody with the callee's seat ever sent the room an offer, nor anybody with the caller's an answer. */
  ghost predicate EverybodyFits(w: World, room: RoomId) {
    forall p, i :: 0 <= p < |w.pages| && 0 <= i < |w.pages[p].sent| && w.pages[p].sent[i].room == room ==>
                     !Unfit(w, room, p, w.pages[p].sent[i])
  }

  /**
   Whether everybody keeps to the part their seat in the room gives them is decided by the stale
   descriptions alone: as long as those were sent by the party they suit, so were all the others.
   */
  lemma EverybodyFitsExactly(cfg: Config, w: World, room: RoomId)
    requires Arises(cfg, w)
    ensures EverybodyFits(w, room) <==> NothingMisplaced(w, room)
  {
    hide Arises, Unfit;
    if NothingMisplaced(w, room) {
      forall p, i | 0 <= p < |w.pages| && 0 <= i < |w.pages[p].sent| && w.pages[p].sent[i].room == room
        ensures !Unfit(w, room, p, w.pages[p].sent[i])
      {
        if w.pages[p].sent[i].basis == room {
          ArisesIsConsistent(cfg, w, room, true);
          FreshOnesFit(cfg, w, room, p, i);
        }
      }
    }
  }

  lemma FreshOnesFit(cfg: Config, w: World, room: RoomId, p: nat, i: nat)
    requires Consistent(cfg, w, room, true) && p < |w.pages| && i < |w.pages[p].sent|
    requires w.pages[p].sent[i].basis == room
    ensures !Unfit(w, room, p, w.pages[p].sent[i])
  {
    var page := w.pages[p];
    assert SentOn(page, page.sent[i].body, room);
    assert PageOk(w.server, room, true, page) && SeatsOk(w.server);
    hide HoldsRole, SeatsOk, Consistent, SentOn;
    if Unfit(w, room, p, page.sent[i]) {
      RolesAreUnique(w.server, room, page.id, page.id, Caller, Callee);
    }
  }

  /**
   In a room to which nothing misplaced was sent, nobody with the caller's ID ever answers, and
   everybody who answers has the callee's.
   */
  lemma CallerNeverAnswers(cfg: Config, w: World, room: RoomId, p: nat, q: nat)
    requires Arises(cfg, w) && NothingMisplaced(w, room) && p < |w.pages| && q < |w.pages|
    requires Offering(w.pages[p], room) && Answering(w.pages[q], room)
    ensures HoldsRole(w.server, room, w.pages[q].id, Callee) && w.pages[q].id != w.pages[p].id
  {
    ArisesIsConsistent(cfg, w, room, true);
    var a, b := w.pages[p], w.pages[q];
    assert PageOk(w.server, room, true, a) && PageOk(w.server, room, true, b) && SeatsOk(w.server);
    hide HoldsRole, Consistent, SeatsOk, Offering, Answering;
    RolesAreUnique(w.server, room, a.id, b.id, Caller, Callee);
  }

  /**
   Whatever was sent to the room before, a description that reaches a page comes from a page of the
   other client ID which sent it there; and that one is out of its part exactly when the hearer is.
   */
  lemma HeardFromTheOther(cfg: Config, w: World, p: nat, msg: Payload)
    requires Arises(cfg, w) && p < |w.pages| && w.pages[p].link.Some?
    requires w.pages[p].link.value < |w.server.links|
    requires msg in w.server.links[w.pages[p].link.value].box.written && msg.Relayed? && Describes(msg.body)
    ensures exists q :: 0 <= q < |w.pages| && Heard(w.pages[p], w.pages[q], msg.body) &&
                        (InPart(w, w.pages[p].bound, w.pages[q].id, msg.body) <==>
                         InPart(w, w.pages[p].bound, w.pages[p].id, if msg.body == OFFER then ANSWER else OFFER))
  {
    var page := w.pages[p];
    var c := page.link.value;
    var room := page.bound;
    ArisesIsConsistent(cfg, w, room, false);
    assert PageOk(w.server, room, false, page) && Faithful(w.server.links[c].box) && SeatsOk(w.server);
    WrittenIsPrefixOfAccepted(w.server.links[c].box);
    assert msg in w.server.links[c].box.accepted;
    assert HeardOk(w.server, c) && Reaches(w.server, msg, c) && Spoken(w, msg);
    var q := w.owner[msg.sender];
    assert w.server.links[msg.sender].place.id == w.pages[q].id;
    hide Arises, Consistent, HeardOk, HoldsRole, Faithful, Says;
    LinkHoldsRole(w.server, c);
    LinkHoldsRole(w.server, msg.sender);
    OppositeSeats(w, room, page.id, w.pages[q].id, w.server.links[c].place.role, w.server.links[msg.sender].place.role);
    assert Heard(page, w.pages[q], msg.body);
  }

  /** The ID has the seat in the room that sends such descriptions. */
  ghost predicate InPart(w: World, room: RoomId, id: ClientId, body: Description) {
    HoldsRole(w.server, room, id, if body == OFFER then Caller else Callee)
  }

  lemma OppositeSeats(w: World, room: RoomId, a: ClientId, b: ClientId, ra: Role, rb: Role)
    requires SeatsOk(w.server) && HoldsRole(w.server, room, a, ra) && HoldsRole(w.server, room, b, rb) && a != b
    ensures InPart(w, room, a, ANSWER) <==> InPart(w, room, b, OFFER)
    ensures InPart(w, room, a, OFFER) <==> InPart(w, room, b, ANSWER)
  {
    hide HoldsRole, SeatsOk;
    RolesAreUnique(w.server, room, a, b, ra, rb);
    forall r | HoldsRole(w.server, room, a, r) ensures r == ra {
      RolesAreUnique(w.server, room, a, a, r, ra);
    }
    forall r | HoldsRole(w.server, room, b, r) ensures r == rb {
      RolesAreUnique(w.server, room, b, b, r, rb);
    }
  }

  /**
   No glare: in such a room, an offer or answer that reaches a page comes from a page of the other
   client ID which sent it there; and an offer never reaches a page that is making one or has one
   outstanding, nor an answer one that answers.
   */
  lemma NoGlare(cfg: Config, w: World, p: nat, msg: Payload)
    requires Arises(cfg, w) && p < |w.pages| && w.pages[p].link.Some? && NothingMisplaced(w, w.pages[p].bound)
    requires w.pages[p].link.value < |w.server.links|
    requires msg in w.server.links[w.pages[p].link.value].box.written && msg.Relayed? && Describes(msg.body)
    ensures exists q :: 0 <= q < |w.pages| && Heard(w.pages[p], w.pages[q], msg.body)
    ensures msg.body == OFFER ==> !Offering(w.pages[p], w.pages[p].bound)
    ensures msg.body == ANSWER ==> !Answering(w.pages[p], w.pages[p].bound)
  {
    var page := w.pages[p];
    var c := page.link.value;
    var room := page.bound;
    ArisesIsConsistent(cfg, w, room, true);
    assert PageOk(w.server, room, true, page) && Faithful(w.server.links[c].box) && SeatsOk(w.server);
    WrittenIsPrefixOfAccepted(w.server.links[c].box);
    assert msg in w.server.links[c].box.accepted;
    HearerRole(cfg, w, c, msg);
    LinkHoldsRole(w.server, c);
    assert HeardOk(w.server, c) && Reaches(w.server, msg, c) && Spoken(w, msg);
    var q := w.owner[msg.sender];
    assert w.server.links[msg.sender].place.id == w.pages[q].id;
    assert Heard(page, w.pages[q], msg.body);
    hide HoldsRole, Consistent, SeatsOk, HeardOk, Offering, Answering, NothingMisplaced;
    if msg.body == OFFER && Offering(page, room) {
      RolesAreUnique(w.server, room, page.id, page.id, Caller, Callee);
    }
    if msg.body == ANSWER && Answering(page, room) {
      RolesAreUnique(w.server, room, page.id, page.id, Caller, Callee);
    }
  }

  predicate Heard(hearer: Page, speaker: Page, body: string) {
    hearer.id != speaker.id && Says(speaker, hearer.bound, body)
  }

  // ---- Pages that stay where they are ----

  /** Everything the page knows and ever sent belongs to its one room. */
  ghost predicate Stays(page: Page) {
    && page.learned == page.bound == page.basis == page.heard == page.room
    && forall i :: 0 <= i < |page.sent| ==> page.sent[i].room == page.room && page.sent[i].basis == page.room
  }

  ghost predicate AllStay(w: World) {
    forall p :: 0 <= p < |w.pages| ==> Stays(w.pages[p])
  }

  lemma HandledStays(page: Page, msg: Payload, healthy: bool, applies: bool)
    requires Stays(page)
    ensures Stays(Handled(page.(read := page.read + 1), msg, healthy, applies))
  {
    HandledSends(page.(read := page.read + 1), msg, healthy, applies);
    hide Describes;
    match msg
    case Welcome(role, _, _) =>
      WelcomedStays(page.(read := page.read + 1, role := Some(role), learned := page.bound));
    case _ =>
  }

  lemma WelcomedStays(page: Page)
    requires Stays(page)
    ensures Stays(OfferAsCaller(page))
  {
  }

  lemma PageAfterStays(w: World, a: Action)
    requires Possible(w, a) && !a.Serve? && !a.OpenPage? && !a.JoinAs? && !a.ChangeRoom?
    requires Stays(w.pages[a.p])
    ensures Stays(PageAfter(w, a))
  {
    hide Enabled, Honest, Handled;
    match a
    case Receive(_, healthy, applies) =>
      var page := w.pages[a.p];
      hide Stays;
      HandledStays(page, w.server.links[page.link.value].box.written[page.read], healthy, applies);
    case _ =>
  }

  lemma NewPageStays(room: RoomId, id: ClientId)
    ensures Stays(NewPage(room, id))
  {
  }

  lemma LinkedStays(page: Page, c: Conn)
    requires Stays(page)
    ensures Stays(page.(link := Some(c), read := 0))
  {
  }

  lemma ActStays(cfg: Config, w: World, a: Action)
    requires Possible(w, a) && !a.ChangeRoom? && AllStay(w)
    ensures AllStay(Act(cfg, w, a))
  {
    hide Enabled, Honest, Next, PageAfter, Stays;
    match a
    case OpenPage(room, id) => NewPageStays(room, id);
    case JoinAs(p, req) => LinkedStays(w.pages[p], |w.server.links|);
    case Serve(_) =>
    case _ => PageAfterStays(w, a);
  }

  lemma {:induction false} PlayStays(cfg: Config, w: World, actions: seq<Action>)
    requires Playable(cfg, w, actions) && forall a :: a in actions ==> !a.ChangeRoom?
    requires AllStay(w)
    ensures AllStay(Play(cfg, w, actions))
    decreases |actions|
  {
    hide AllStay, Act;
    if actions == [] {
    } else {
      ActStays(cfg, w, actions[0]);
      PlayStays(cfg, Act(cfg, w, actions[0]), actions[1..]);
    }
  }

  /**
   As long as no page changes its room, nothing stale is ever sent to any room, and every offer a page
   makes is one on the role it learned in its own room.
   */
  lemma StayingPagesSendNothingStale(cfg: Config, actions: seq<Action>, room: RoomId)
    requires Playable(cfg, START, actions) && forall a :: a in actions ==> !a.ChangeRoom?
    ensures var w := Play(cfg, START, actions);
            && Arises(cfg, w) && NothingStale(w, room)
            && forall p :: 0 <= p < |w.pages| ==>
                 (w.pages[p].making || w.pages[p].signaling.HaveLocalOffer? ==> Offering(w.pages[p], w.pages[p].room))
  {
    PlayStays(cfg, START, actions);
    hide Act;
  }

  /** So every offer ever sent to a room then came from the ID admitted there as caller. */
  lemma StayingPagesOfferAsCaller(cfg: Config, actions: seq<Action>, room: RoomId, p: nat)
    requires Playable(cfg, START, actions) && forall a :: a in actions ==> !a.ChangeRoom?
    requires var w := Play(cfg, START, actions); p < |w.pages| && Says(w.pages[p], room, OFFER)
    ensures var w := Play(cfg, START, actions); HoldsRole(w.server, room, w.pages[p].id, Caller)
  {
    StayingPagesSendNothingStale(cfg, actions, room);
    hide Act, Says, HoldsRole, NothingStale, Arises;
    OffersComeFromTheCaller(cfg, Play(cfg, START, actions), room, p);
  }
}
