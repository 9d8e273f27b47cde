/**
 One connection's outgoing side (internal/rooms/manager.go, `Peer`; internal/signaling/handler.go,
 `writePump`): a bounded queue that any goroutine may push to and one pump drains.

 Besides the queue and the dead flag the value keeps what happened: every payload for which Enqueue
 returned true, every payload the pump took out, every payload it wrote to the socket, and whether
 any Enqueue was refused.
 */
module Mailbox {
  /** Capacity of the send channel. */
  const SEND_BUFFER := 64

  datatype Mailbox<M> = Mailbox(
    queue: seq<M>, dead: bool, refused: bool,
    accepted: seq<M>, taken: seq<M>, written: seq<M>, pumping: bool)

  function Fresh<M>(): Mailbox<M> {
    Mailbox([], false, false, [], [], [], true)
  }

  function Kill<M>(box: Mailbox<M>): Mailbox<M> {
    box.(dead := true)
  }

  /** The first select of Enqueue: a dead mailbox refuses, a live one lets the caller go on. */
  function Probe<M>(box: Mailbox<M>): (bool, Mailbox<M>) {
    if box.dead then (false, box.(refused := true)) else (true, box)
  }

  /**
   The second select of Enqueue. It does not look at the dead flag again, so a payload may still be
   accepted when the mailbox was killed between the two selects.
   */
  function Push<M>(box: Mailbox<M>, payload: M): (bool, Mailbox<M>) {
    if |box.queue| < SEND_BUFFER then
      (true, box.(queue := box.queue + [payload], accepted := box.accepted + [payload]))
    else
      (false, Kill(box).(refused := true))
  }

  /** Both selects at once: Enqueue when nothing comes between them. */
  function Offer<M>(box: Mailbox<M>, payload: M): (bool, Mailbox<M>) {
    var (alive, probed) := Probe(box);
    if alive then Push(probed, payload) else (false, probed)
  }

  /** The pump takes the oldest payload; when the socket write fails it stops for good. */
  function Pump<M>(box: Mailbox<M>, ok: bool): Mailbox<M>
    requires |box.queue| > 0
  {
    var taken := box.(queue := box.queue[1..], taken := box.taken + [box.queue[0]]);
    if ok then taken.(written := taken.written + [box.queue[0]]) else taken.(pumping := false)
  }

  /**
   What the pump wrote is a prefix, in order, of what Enqueue accepted; nothing accepted is lost or
   doubled; the buffer stays within its capacity; and a refusal implies death.
   */
  ghost predicate Faithful<M>(box: Mailbox<M>) {
    && box.taken + box.queue == box.accepted
    && (if box.pumping then box.written == box.taken else box.written <= box.taken)
    && |box.queue| <= SEND_BUFFER
    && (box.refused ==> box.dead)
  }

  /** Everything permanent about a mailbox: its two logs only grow, death and refusals stay. */
  ghost predicate Extends<M>(box: Mailbox<M>, later: Mailbox<M>) {
    && box.accepted <= later.accepted
    && box.written <= later.written
    && (box.dead ==> later.dead)
    && (box.refused ==> later.refused)
  }

  lemma PumpIsFaithful<M>(box: Mailbox<M>, ok: bool)
    requires Faithful(box) && |box.queue| > 0 && box.pumping
    ensures Faithful(Pump(box, ok)) && Extends(box, Pump(box, ok))
    ensures Pump(box, ok).accepted == box.accepted
  {
    assert [box.queue[0]] + box.queue[1..] == box.queue;
    assert (box.taken + [box.queue[0]]) + box.queue[1..] == box.taken + box.queue;
  }

  lemma PushIsFaithful<M>(box: Mailbox<M>, payload: M)
    requires Faithful(box)
    ensures var (ok, box') := Push(box, payload);
            && Faithful(box') && Extends(box, box')
            && box'.accepted == (if ok then box.accepted + [payload] else box.accepted)
            && (!ok ==> box'.dead)
  {
    assert box.taken + (box.queue + [payload]) == (box.taken + box.queue) + [payload];
  }

  /** Undisturbed, Enqueue accepts exactly when the mailbox is alive with room, and never after a refusal. */
  lemma OfferIsAllOrDeath<M>(box: Mailbox<M>, payload: M)
    requires Faithful(box)
    ensures var (ok, box') := Offer(box, payload);
            && Faithful(box') && Extends(box, box')
            && (ok <==> !box.dead && |box.queue| < SEND_BUFFER)
            && box'.accepted == (if ok then box.accepted + [payload] else box.accepted)
            && box'.dead == !ok
            && (box.refused ==> !ok)
  {
    PushIsFaithful(box, payload);
  }

  lemma WrittenIsPrefixOfAccepted<M>(box: Mailbox<M>)
    requires Faithful(box)
    ensures box.written <= box.accepted
  {
    assert box.taken <= box.taken + box.queue;
  }
}
