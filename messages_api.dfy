/**
 * POST `messages`: a device submits one message for an actor as a list of
 * packets, one per installation link of the recipient. The route checks
 * that the packets address exactly the recipient's listed links, stores
 * the message (idempotently on its id), and pushes one real-time frame per
 * stored packet to whichever link is connected.
 */
module MessagesApi {
  import opened Common
  import opened Api
  import opened Installations
  import opened Messages
  import opened Messaging

  /** The link ids a packet list addresses, in packet order. */
  function Recipients(packets: seq<MessagePacket>): (r: seq<Uuid>)
    ensures |r| == |packets|
    ensures forall i :: 0 <= i < |r| ==> r[i] == packets[i].rcptIOID
  {
    seq(|packets|, i requires 0 <= i < |packets| => packets[i].rcptIOID)
  }

  /** `removeIf { it.id == id }` on the list of expected links. */
  function RemoveLink(links: seq<InstallationLink>, id: Uuid): (r: seq<InstallationLink>)
    ensures forall l :: l in r <==> l in links && l.id != id
  {
    Filter(links, (l: InstallationLink) => l.id != id)
  }

  /** The links none of the given ids addresses, in list order. */
  function Unaddressed(links: seq<InstallationLink>, targets: seq<Uuid>): (r: seq<InstallationLink>)
    ensures forall l :: l in r <==> l in links && l.id !in targets
  {
    Filter(links, (l: InstallationLink) => l.id !in targets)
  }

  /** Removing one more addressed link from the unaddressed ones. */
  lemma {:induction false} RemoveUnaddressed(links: seq<InstallationLink>, targets: seq<Uuid>, id: Uuid)
    ensures RemoveLink(Unaddressed(links, targets), id) == Unaddressed(links, targets + [id])
  {
    if links != [] {
      RemoveUnaddressed(links[1..], targets, id);
      var rest := Unaddressed(links[1..], targets);
      if links[0].id !in targets {
        assert Unaddressed(links, targets) == [links[0]] + rest;
        assert ([links[0]] + rest)[1..] == rest;
      }
    }
  }

  /** Nothing is unaddressed yet before any packet is looked at. */
  lemma NoTargetsLeaveAll(links: seq<InstallationLink>)
    ensures Unaddressed(links, []) == links
  {
    FilterAll(links, (l: InstallationLink) => l.id !in []);
  }

  /** "too many / few" and "missing required targets". */
  const CountMismatch := Validation2(Status(Code.Reference, Some("too many / few")), ["packets"])
  const MissingTargets := Validation2(Status(Code.Reference, Some("missing required targets")), ["packets"])

  /**
   * The outcome of the packet-target check against the recipient's listed
   * links, in the order the route makes its decisions: no packets, no
   * links, a count mismatch, then a link no packet addresses.
   */
  function TargetCheck(packets: seq<MessagePacket>, links: seq<InstallationLink>): Option<Failure>
  {
    if packets == [] then Some(Validation(Code.Required, ["packets"]))
    else if links == [] then Some(Validation(Code.Reference, ["links"]))
    else if |packets| != |links| then Some(CountMismatch)
    else if Unaddressed(links, Recipients(packets)) != [] then Some(MissingTargets)
    else None
  }

  /** A subset as large as its superset is the superset. */
  lemma SubsetSameSize<T>(a: set<T>, b: set<T>)
    requires a <= b && |a| >= |b|
    ensures a == b
  {
    assert b == a + (b - a);
    assert |b| == |a| + |b - a|;
  }

  /** A link's id is among the list's ids. */
  lemma LinkIdListed(links: seq<InstallationLink>, l: InstallationLink)
    requires l in links
    ensures l.id in LinkIds(links)
  {
    var i :| 0 <= i < |links| && links[i] == l;
    assert LinkIds(links)[i] == l.id;
  }

  /**
   * With distinct link ids, the check passes exactly when the recipient has
   * links and the packets address each of them once: their recipients are
   * a permutation of the link ids (no duplicate, no stranger, none missing).
   */
  lemma {:induction false} TargetCheckPermutation(packets: seq<MessagePacket>, links: seq<InstallationLink>)
    requires Distinct(LinkIds(links))
    ensures TargetCheck(packets, links).None? <==>
              links != [] && multiset(Recipients(packets)) == multiset(LinkIds(links))
  {
    var rs := Recipients(packets);
    var ids := LinkIds(links);
    if TargetCheck(packets, links).None? {
      assert Elements(ids) <= Elements(rs) by {
        forall x | x in Elements(ids) ensures x in Elements(rs) {
          var i :| 0 <= i < |ids| && ids[i] == x;
          assert links[i] in links;
          assert links[i] !in Unaddressed(links, rs);
        }
      }
      ElementsSize(ids);
      ElementsSize(rs);
      SubsetSameSize(Elements(ids), Elements(rs));
      DistinctSameElements(rs, ids);
    }
    if links != [] && multiset(rs) == multiset(ids) {
      assert |rs| == |multiset(rs)| == |multiset(ids)| == |ids|;
      forall l | l in links ensures l.id in rs {
        LinkIdListed(links, l);
        assert l.id in multiset(ids);
      }
      FilterNone(links, (l: InstallationLink) => l.id !in rs);
    }
  }

  /**
   * The check as the route performs it: early rejections, then every
   * addressed link is removed from a mutable copy of the link list, and
   * anything left over is a missing target.
   */
  method CheckTargets(packets: seq<MessagePacket>, links: seq<InstallationLink>) returns (failure: Option<Failure>)
    ensures failure == TargetCheck(packets, links)
  {
    if packets == [] {
      return Some(Validation(Code.Required, ["packets"]));
    }
    var expected := links;
    if expected == [] {
      return Some(Validation(Code.Reference, ["links"]));
    }
    if |packets| != |expected| {
      return Some(CountMismatch);
    }
    NoTargetsLeaveAll(links);
    var i := 0;
    while i < |packets|
      invariant 0 <= i <= |packets|
      invariant expected == Unaddressed(links, Recipients(packets[..i]))
    {
      RemoveUnaddressed(links, Recipients(packets[..i]), packets[i].rcptIOID);
      assert Recipients(packets[..i + 1]) == Recipients(packets[..i]) + [packets[i].rcptIOID];
      expected := RemoveLink(expected, packets[i].rcptIOID);
      i := i + 1;
    }
    assert packets[..i] == packets;
    if expected != [] {
      return Some(MissingTargets);
    }
    return None;
  }

  /**
   * A request that passed against a recipient's links is refused with a
   * count mismatch once another link is listed for the recipient, even when
   * the message is already stored: the check runs before the idempotent add.
   */
  lemma RetryAfterNewLink(packets: seq<MessagePacket>, links: seq<InstallationLink>, l: InstallationLink)
    requires TargetCheck(packets, links).None?
    ensures TargetCheck(packets, links + [l]) == Some(CountMismatch)
  {
  }

  /** The `send` calls of the dispatch loop: one per packet, to its link, with the packet-less message. */
  function Sends(msg: Message): (r: seq<(Uuid, RTMessage)>)
    ensures |r| == |msg.packets|
    ensures forall i :: 0 <= i < |r| ==>
              && r[i].0 == msg.packets[i].rcptIOID
              && r[i].1.packet == msg.packets[i]
              && r[i].1.msg == msg.(packets := [])
  {
    seq(|msg.packets|, i requires 0 <= i < |msg.packets| =>
          (msg.packets[i].rcptIOID, ChatMessage(msg.(packets := []), msg.packets[i])))
  }

  /** The frames a list of `send` calls writes against a fixed registry, in call order. */
  function Deliveries(clients: map<Uuid, Connection>, sends: seq<(Uuid, RTMessage)>): (r: seq<Frame>)
    ensures |r| <= |sends|
  {
    if sends == [] then []
    else Delivery(clients, sends[0].0, sends[0].1) + Deliveries(clients, sends[1..])
  }

  /**
   * Every frame the dispatch writes goes to the connection of a link a
   * packet addresses and carries that packet; every packet addressed to a
   * connected link produces such a frame.
   */
  lemma {:induction false} DeliveriesReachConnected(clients: map<Uuid, Connection>, sends: seq<(Uuid, RTMessage)>)
    ensures forall f :: f in Deliveries(clients, sends) ==>
              exists s :: s in sends && s.0 in clients && f == Frame(clients[s.0].session, s.1)
    ensures forall s :: s in sends && s.0 in clients ==> Frame(clients[s.0].session, s.1) in Deliveries(clients, sends)
  {
    if sends != [] {
      DeliveriesReachConnected(clients, sends[1..]);
      assert forall s :: s in sends[1..] ==> s in sends;
      assert forall s :: s in sends ==> s == sends[0] || s in sends[1..];
    }
  }

  /** The dispatch loop: `messagingService.send` once per stored packet, in stored order. */
  method Dispatch(messaging: MessagingService, net: Sockets, msg: Message)
    requires messaging.Valid()
    modifies net
    ensures net.sent == old(net.sent) + Deliveries(messaging.clients, Sends(msg))
    ensures net.closed == old(net.closed)
  {
    var sends := Sends(msg);
    var rawMsg := msg.(packets := []);
    var i := 0;
    while i < |msg.packets|
      invariant 0 <= i <= |msg.packets|
      invariant net.sent + Deliveries(messaging.clients, sends[i..]) == old(net.sent) + Deliveries(messaging.clients, sends)
      invariant net.closed == old(net.closed)
    {
      var packet := msg.packets[i];
      assert sends[i..][0] == (packet.rcptIOID, ChatMessage(rawMsg, packet)) && sends[i..][1..] == sends[i + 1..];
      messaging.Send(packet.rcptIOID, ChatMessage(rawMsg, packet), net);
      i := i + 1;
    }
  }

  /**
   * The POST handler, for the sender's actor and link from the token. A
   * request that fails the target check is refused before anything is
   * stored or sent. Otherwise the message is added (or the stored one with
   * that id is taken), one frame per packet of the returned message is
   * pushed, and the returned message is the response.
   */
  method PostMessage(installations: InstallationsService, store: MessagesService, messaging: MessagingService,
                     net: Sockets, selfId: Uuid, selfIOID: Uuid, req: CreateMessage, now: Instant)
    returns (r: Reply<Message>)
    requires store.Valid() && messaging.Valid()
    modifies store, net
    ensures store.Valid()
    ensures r.Thrown? || r.Created?
    ensures r.Thrown? <==> TargetCheck(req.packets, installations.ListLinks(req.rcptId)).Some?
    ensures r.Thrown? ==> && r.failure == TargetCheck(req.packets, installations.ListLinks(req.rcptId)).value
                          && store.messages == old(store.messages) && store.packets == old(store.packets)
                          && store.receipts == old(store.receipts)
                          && net.sent == old(net.sent)
    ensures r.Created? ==> && store.Get(req.id) == Some(r.data)
                           && net.sent == old(net.sent) + Deliveries(messaging.clients, Sends(r.data))
    ensures r.Created? && req.id in MessageIds(old(store.messages)) ==>
              && old(store.Get(req.id)) == Some(r.data)
              && store.messages == old(store.messages) && store.packets == old(store.packets)
              && store.receipts == old(store.receipts)
    ensures r.Created? && req.id !in MessageIds(old(store.messages)) ==>
              && r.data == Submitted(req, selfId, now)
              && store.messages == old(store.messages) + [NewMessageRow(req, selfId, now)]
              && store.packets == old(store.packets) + PacketRowsFor(req, selfIOID)
              && store.receipts == old(store.receipts) + ReceiptRowsFor(req)
    ensures net.closed == old(net.closed)
  {
    var links := installations.ListLinks(req.rcptId);
    var failure := CheckTargets(req.packets, links);
    if failure.Some? {
      return Thrown(failure.value);
    }
    var msg := store.Add(selfId, selfIOID, req, now);
    Dispatch(messaging, net, msg);
    return Created(msg);
  }
}
