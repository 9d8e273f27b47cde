/**
 How a negotiation moves forward (web/ui.go:4623-4645 and 4791-4870): what makes a page begin an offer,
 what each message changes, and that offer and answer bring both pages to the stable state.
 */
module NegotiationSteps {
  import opened Wrappers
  import opened Rooms
  import opened Protocol
  import opened Negotiation

  /** An offer is on its way after the message that was not before. */
  predicate Begins(page: Page, later: Page) {
    later.making && !page.making
  }

  /**
   A page begins an offer on a message exactly when it can (its socket is open, its peer connection is
   stable and no offer is on its way) and the message is a peer-ready and it is the caller, or a welcome
   as the caller of two with no media flowing. It offers on the role it has then.
   */
  lemma BeginsExactly(page: Page, msg: Payload, healthy: bool, applies: bool)
    ensures var later := Handled(page, msg, healthy, applies);
            && (Begins(page, later) <==>
                && page.online && page.signaling == Stable && !page.making
                && (|| (msg.PeerReady? && page.role == Some(Caller))
                    || (msg.Welcome? && msg.role == Caller && msg.participants == 2 && !healthy)))
            && (Begins(page, later) ==> later.basis == if msg.Welcome? then page.bound else page.learned)
            && (page.making ==> later.making && later.basis == page.basis)
  {
    hide Describes;
  }

  /** Everything of a page but its role, its offers and its peer connection. */
  predicate SameElse(page: Page, later: Page) {
    && later.sent == page.sent && later.online == page.online && later.bound == page.bound && later.room == page.room
    && later.id == page.id && later.link == page.link && later.read == page.read && later.restarting == page.restarting
  }

  /** An offer that applies to a page with a peer connection. */
  predicate TakesOffer(page: Page, msg: Payload, applies: bool) {
    msg.Relayed? && applies && msg.body == "offer" && page.signaling != NoPeer
  }

  /** An answer that applies to a page with an offer outstanding. */
  predicate TakesAnswer(page: Page, msg: Payload, applies: bool) {
    msg.Relayed? && applies && msg.body == "answer" && page.signaling == HaveLocalOffer
  }

  /**
   Nothing else follows from a message but this: a welcome tells the role; a hangup ends the call; an
   offer, if it applies and there is a peer connection, awaits its answer; an answer settles an offer
   that awaits one. No message makes the page send anything by itself.
   */
  lemma HandlesExactly(page: Page, msg: Payload, healthy: bool, applies: bool)
    ensures var later := Handled(page, msg, healthy, applies);
            && later.role == (if msg.Welcome? then Some(msg.role) else page.role)
            && later.learned == (if msg.Welcome? then page.bound else page.learned)
            && (later.terminal <==> page.terminal || msg.HungUp?)
            && later.signaling ==
               (if TakesOffer(page, msg, applies) then HaveRemoteOffer
                else if TakesAnswer(page, msg, applies) then Stable
                else page.signaling)
            && later.heard == (if TakesOffer(page, msg, applies) then page.bound else page.heard)
            && SameElse(page, later)
  {
    if msg.Relayed? {
      RelayedChanges(page, msg, healthy, applies);
    } else {
      OthersTakeNothing(page, msg, applies);
      hide TakesOffer, TakesAnswer, Describes, OfferAsCaller;
      match msg
      case Welcome(role, _, _) => OnlyOffers(page.(role := Some(role), learned := page.bound));
      case PeerReady(_) => OnlyOffers(page);
      case _ =>
    }
  }

  lemma OthersTakeNothing(page: Page, msg: Payload, applies: bool)
    requires !msg.Relayed?
    ensures !TakesOffer(page, msg, applies) && !TakesAnswer(page, msg, applies)
  {
  }

  lemma RelayedChanges(page: Page, msg: Payload, healthy: bool, applies: bool)
    requires msg.Relayed?
    ensures Handled(page, msg, healthy, applies) ==
            if TakesOffer(page, msg, applies) then page.(signaling := HaveRemoteOffer, heard := page.bound)
            else if TakesAnswer(page, msg, applies) then page.(signaling := Stable)
            else page
  {
    hide OfferAsCaller;
  }

  lemma OnlyOffers(page: Page)
    ensures var later := OfferAsCaller(page); later == page.(making := later.making, basis := later.basis)
  {
  }

  /** Idle, connected and with a peer connection. */
  predicate Ready(page: Page) {
    page.online && page.signaling == Stable && !page.making
  }

  /** The caller reads that the other party is there, and its offer is made. */
  function AfterReady(caller: Page, ready: Payload): Page {
    OfferFinished(Handled(caller, ready, true, true), true)
  }

  /** The callee reads the offer, and its answer is made. */
  function AfterOffer(callee: Page, offer: Payload): Page {
    AnswerFinished(Handled(callee, offer, true, true), true)
  }

  /**
   A negotiation: on the peer-ready the caller sends one offer, on the offer the callee sends one answer,
   and on the answer the caller is stable again, as the callee is; nothing else about them changes.
   */
  lemma NegotiationSettles(caller: Page, callee: Page, ready: Payload, offer: Payload, answer: Payload)
    requires Ready(caller) && caller.role == Some(Caller) && Ready(callee)
    requires ready.PeerReady? && offer.Relayed? && offer.body == "offer" && answer.Relayed? && answer.body == "answer"
    ensures var offered, answered := AfterReady(caller, ready), AfterOffer(callee, offer);
            && offered.signaling == HaveLocalOffer
            && offered.sent == caller.sent + [Sent(caller.bound, "offer", caller.learned)]
            && answered.sent == callee.sent + [Sent(callee.bound, "answer", callee.bound)]
            && answered == callee.(sent := answered.sent, heard := callee.bound)
            && var settled := Handled(offered, answer, true, true);
               settled == caller.(sent := offered.sent, basis := caller.learned, restarting := false)
  {
  }

  /**
   An offer is sent exactly when the browser made it, the peer connection is stable or has only an offer
   of this page outstanding, and the socket is still open; it then awaits its answer, sent or not. Any
   other outcome changes nothing but that another offer can be begun.
   */
  lemma OfferFinishesExactly(page: Page, ok: bool)
    ensures var later := OfferFinished(page, ok);
            var made := ok && (page.signaling == Stable || page.signaling == HaveLocalOffer);
            later == page.(
                     making := false, restarting := false, signaling := if made then HaveLocalOffer else page.signaling,
                     sent := page.sent + if made && page.online then [Sent(page.bound, "offer", page.basis)] else [])
  {
    assert page.sent + [] == page.sent;
  }

  /** An answer is sent exactly when the browser made it and the socket is still open; made, it settles the offer. */
  lemma AnswerFinishesExactly(page: Page, ok: bool)
    ensures var later := AnswerFinished(page, ok);
            later == page.(
                     signaling := if ok then Stable else page.signaling,
                     sent := page.sent + if ok && page.online then [Sent(page.bound, "answer", page.heard)] else [])
  {
    assert page.sent + [] == page.sent;
  }
}
