/**
 * The development routes. `send/{from_handle}/{peer_handle}` stores and
 * pushes a fixed test message from one actor to every listed link of
 * another, without the target check of the messages route;
 * `dev/actor/{handle}` creates an actor with a fixed password.
 */
module DevelopmentApi {
  import opened Common
  import opened Api
  import opened Installations
  import opened Actors
  import opened Messages
  import opened Messaging
  import opened MessagesApi

  /** The payload of every test packet: the bytes of "SGk=", the Base64 text of "Hi". */
  const TestPayload: Bytes := [0x53, 0x47, 0x6b, 0x3d]

  /** The password of actors made by `dev/actor`. */
  const DevPassword := "password"

  /** One test packet per link, addressed to it, with `dup` and `seqno` 0, in link order. */
  function TestPackets(links: seq<InstallationLink>): (r: seq<MessagePacket>)
    ensures |r| == |links|
    ensures forall i :: 0 <= i < |r| ==> r[i] == MessagePacket(links[i].id, 0, 0, TestPayload, None)
    ensures Recipients(r) == LinkIds(links)
  {
    seq(|links|, i requires 0 <= i < |links| => MessagePacket(links[i].id, 0, 0, TestPayload, None))
  }

  /**
   * With distinct link ids the test packets would pass the messages route's
   * target check exactly when the peer has a link; a peer without links
   * still gets an (empty) message stored here.
   */
  lemma TestPacketsPassCheck(links: seq<InstallationLink>)
    requires Distinct(LinkIds(links))
    ensures TargetCheck(TestPackets(links), links).None? <==> links != []
  {
    TargetCheckPermutation(TestPackets(links), links);
  }

  /**
   * The body of the send route once both actors are known: the test message
   * to the peer, with one packet per link of the peer, is added under the
   * sender's link and each stored packet is pushed.
   */
  method SendTest(store: MessagesService, messaging: MessagingService, net: Sockets, selfId: Uuid,
                  senderLinkId: Uuid, peerId: Uuid, peerLinks: seq<InstallationLink>, msgId: Uuid,
                  sentAt: Instant, now: Instant)
    returns (msg: Message)
    requires store.Valid() && messaging.Valid()
    modifies store, net
    ensures store.Valid()
    ensures store.Get(msgId) == Some(msg)
    ensures msgId in MessageIds(old(store.messages)) ==>
              && old(store.Get(msgId)) == Some(msg)
              && store.messages == old(store.messages) && store.packets == old(store.packets)
              && store.receipts == old(store.receipts)
    ensures var req := CreateMessage(msgId, peerId, sentAt, TestPackets(peerLinks));
            msgId !in MessageIds(old(store.messages)) ==>
              && msg == Submitted(req, selfId, now)
              && store.messages == old(store.messages) + [NewMessageRow(req, selfId, now)]
              && store.packets == old(store.packets) + PacketRowsFor(req, senderLinkId)
              && store.receipts == old(store.receipts) + ReceiptRowsFor(req)
    ensures net.sent == old(net.sent) + Deliveries(messaging.clients, Sends(msg))
    ensures net.closed == old(net.closed)
  {
    var createMsg := CreateMessage(msgId, peerId, sentAt, TestPackets(peerLinks));
    msg := store.Add(selfId, senderLinkId, createMsg, now);
    Dispatch(messaging, net, msg);
  }

  /**
   * The send route. Unknown sender: Reference "from_handle"; sender without
   * links: Reference "sender_links"; unknown peer: Reference "peer_handle".
   * Otherwise the test message is added with the sender's first link as
   * sending device and dispatched like a submitted one. The message's own
   * timestamp (`sentAt`) and the time it is stored (`now`) are two reads of
   * the clock.
   */
  method DevSend(actors: ActorsService, installations: InstallationsService, store: MessagesService,
                 messaging: MessagingService, net: Sockets, fromHandle: string, peerHandle: string,
                 msgId: Uuid, sentAt: Instant, now: Instant)
    returns (r: Reply<Message>)
    requires actors.Valid() && store.Valid() && messaging.Valid()
    modifies store, net
    ensures store.Valid()
    ensures r.Thrown? || r.Created?
    ensures actors.GetByHandle(fromHandle).None? ==> r == Thrown(Validation(Code.Reference, ["from_handle"]))
    ensures actors.GetByHandle(fromHandle).Some? && installations.ListLinks(actors.GetByHandle(fromHandle).value.id) == [] ==>
              r == Thrown(Validation(Code.Reference, ["sender_links"]))
    ensures actors.GetByHandle(fromHandle).Some? && installations.ListLinks(actors.GetByHandle(fromHandle).value.id) != []
            && actors.GetByHandle(peerHandle).None? ==>
              r == Thrown(Validation(Code.Reference, ["peer_handle"]))
    ensures r.Thrown? ==> && store.messages == old(store.messages) && store.packets == old(store.packets)
                          && store.receipts == old(store.receipts) && net.sent == old(net.sent)
    ensures r.Created? ==>
              && actors.GetByHandle(fromHandle).Some? && actors.GetByHandle(peerHandle).Some?
              && var self := actors.GetByHandle(fromHandle).value;
                 var peer := actors.GetByHandle(peerHandle).value;
                 var senderLinks := installations.ListLinks(self.id);
                 var req := CreateMessage(msgId, peer.id, sentAt, TestPackets(installations.ListLinks(peer.id)));
                 && senderLinks != []
                 && store.Get(msgId) == Some(r.data)
                 && (msgId in MessageIds(old(store.messages)) ==>
                       && old(store.Get(msgId)) == Some(r.data)
                       && store.messages == old(store.messages) && store.packets == old(store.packets)
                       && store.receipts == old(store.receipts))
                 && (msgId !in MessageIds(old(store.messages)) ==>
                       && r.data == Submitted(req, self.id, now)
                       && store.messages == old(store.messages) + [NewMessageRow(req, self.id, now)]
                       && store.packets == old(store.packets) + PacketRowsFor(req, senderLinks[0].id)
                       && store.receipts == old(store.receipts) + ReceiptRowsFor(req))
                 && net.sent == old(net.sent) + Deliveries(messaging.clients, Sends(r.data))
    ensures net.closed == old(net.closed)
  {
    var self := actors.GetByHandle(fromHandle);
    if self.None? {
      return Thrown(Validation(Code.Reference, ["from_handle"]));
    }
    var senderLinks := installations.ListLinks(self.value.id);
    if senderLinks == [] {
      return Thrown(Validation(Code.Reference, ["sender_links"]));
    }
    var peer := actors.GetByHandle(peerHandle);
    if peer.None? {
      return Thrown(Validation(Code.Reference, ["peer_handle"]));
    }
    var links := installations.ListLinks(peer.value.id);
    var msg := SendTest(store, messaging, net, self.value.id, senderLinks[0].id, peer.value.id, links, msgId, sentAt, now);
    return Created(msg);
  }

  /** `dev/actor/{handle}`: an actor named after its handle, with the fixed password. */
  method DevCreateActor(actors: ActorsService, handle: string, newId: Uuid, now: Instant)
    returns (r: Result<Actor, Failure>)
    requires actors.Valid()
    requires newId !in ActorIds(actors.actors)
    modifies actors
    ensures actors.Valid()
    ensures r.Err? <==> !Actors.FitsColumns(SanitizeHandle(handle), handle, None, DevPassword)
                        || HandleTaken(old(actors.actors), SanitizeHandle(handle))
    ensures actors.secretUpdates == old(actors.secretUpdates)
    ensures r.Err? ==> actors.actors == old(actors.actors)
    ensures r.Ok? ==> && r.value == Actor(newId, Account, Default, SanitizeHandle(handle), handle, None, DevPassword,
                                          None, None, now, None)
                      && actors.actors == old(actors.actors) + [r.value]
  {
    r := actors.Create(handle, handle, DevPassword, newId, now);
  }
}
