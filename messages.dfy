/**
 * The message store: a message row per message, one packet row per
 * recipient link (the end-to-end encrypted copy for that device) and one
 * receipt row per packet. Adding is idempotent on the message id; the
 * backlog of a link is every packet addressed to it, receipts or not.
 */
module Messages {
  import opened Common

  /** A packet as sent by a client and as returned; `msg` is only set on backlog packets. */
  datatype MessagePacket = MessagePacket(
    rcptIOID: Uuid, dup: int, seqno: int, payloadEnc: Bytes, msg: Option<Message>)

  /** A message as returned by the service, with its packets and receipts. */
  datatype Message = Message(
    id: Uuid, fromId: Uuid, rcptId: Uuid, attCnt: int,
    packets: seq<MessagePacket>, receipts: seq<MessageReceipt>,
    createdAt: Instant, deletedAt: Option<Instant>)

  datatype MessageReceipt = MessageReceipt(
    msgId: Uuid, rcptIOID: Uuid, dup: int,
    recvAt: Option<Instant>, rjctAt: Option<Instant>, readAt: Option<Instant>)

  /** The request body of a message submission; the id is chosen by the client. */
  datatype CreateMessage = CreateMessage(id: Uuid, rcptId: Uuid, timestamp: Instant, packets: seq<MessagePacket>)

  /** Stored rows. Packet and receipt rows also carry a random row id, which nothing reads. */
  datatype MessageRow = MessageRow(
    id: Uuid, fromId: Uuid, rcptId: Uuid, attCnt: int, createdAt: Instant, deletedAt: Option<Instant>)

  datatype PacketRow = PacketRow(
    msgId: Uuid, fromIOID: Uuid, rcptId: Uuid, rcptIOID: Uuid, dup: int, seqno: int,
    timestamp: Instant, payloadEnc: Bytes)

  datatype ReceiptRow = ReceiptRow(
    msgId: Uuid, rcptIOID: Uuid, dup: int,
    recvAt: Option<Instant>, rjctAt: Option<Instant>, readAt: Option<Instant>)

  /** The ids of the message table, in order. */
  function MessageIds(rows: seq<MessageRow>): (r: seq<Uuid>)
    ensures |r| == |rows|
  {
    seq(|rows|, i requires 0 <= i < |rows| => rows[i].id)
  }

  /** The packet rows of one message, in table order (`referrersOn`). */
  function PacketsOf(rows: seq<PacketRow>, msgId: Uuid): (r: seq<PacketRow>)
    ensures forall p :: p in r <==> p in rows && p.msgId == msgId
  {
    Filter(rows, (p: PacketRow) => p.msgId == msgId)
  }

  /** The receipt rows of one message, in table order. */
  function ReceiptsOf(rows: seq<ReceiptRow>, msgId: Uuid): (r: seq<ReceiptRow>)
    ensures forall x :: x in r <==> x in rows && x.msgId == msgId
  {
    Filter(rows, (x: ReceiptRow) => x.msgId == msgId)
  }

  /** The packet rows addressed to one link, in table order. */
  function PacketsTo(rows: seq<PacketRow>, ioid: Uuid): (r: seq<PacketRow>)
    ensures forall p :: p in r <==> p in rows && p.rcptIOID == ioid
  {
    Filter(rows, (p: PacketRow) => p.rcptIOID == ioid)
  }

  /** `toMessagePacket`: the columns a client sees, and no nested message. */
  function ToMessagePacket(p: PacketRow): (r: MessagePacket)
    ensures r.msg == None
    ensures r.rcptIOID == p.rcptIOID && r.dup == p.dup && r.seqno == p.seqno && r.payloadEnc == p.payloadEnc
  {
    MessagePacket(p.rcptIOID, p.dup, p.seqno, p.payloadEnc, None)
  }

  /** `toMessageReceipt`. */
  function ToMessageReceipt(x: ReceiptRow): (r: MessageReceipt)
    ensures r.msgId == x.msgId && r.rcptIOID == x.rcptIOID && r.dup == x.dup
    ensures r.recvAt == x.recvAt && r.rjctAt == x.rjctAt && r.readAt == x.readAt
  {
    MessageReceipt(x.msgId, x.rcptIOID, x.dup, x.recvAt, x.rjctAt, x.readAt)
  }

  /** `toRawMessage`: the message columns with empty packet and receipt lists. */
  function ToRawMessage(m: MessageRow): (r: Message)
    ensures r.packets == [] && r.receipts == []
    ensures r.id == m.id && r.fromId == m.fromId && r.rcptId == m.rcptId && r.attCnt == m.attCnt
    ensures r.createdAt == m.createdAt && r.deletedAt == m.deletedAt
  {
    Message(m.id, m.fromId, m.rcptId, m.attCnt, [], [], m.createdAt, m.deletedAt)
  }

  /** `toMessage`: the message columns with the projections of its own packet and receipt rows, in table order. */
  function ToMessage(m: MessageRow, packets: seq<PacketRow>, receipts: seq<ReceiptRow>): (r: Message)
    ensures r.id == m.id && r.fromId == m.fromId && r.rcptId == m.rcptId && r.attCnt == m.attCnt
    ensures r.createdAt == m.createdAt && r.deletedAt == m.deletedAt
    ensures |r.packets| == |PacketsOf(packets, m.id)|
    ensures forall i :: 0 <= i < |r.packets| ==> r.packets[i] == ToMessagePacket(PacketsOf(packets, m.id)[i])
    ensures |r.receipts| == |ReceiptsOf(receipts, m.id)|
    ensures forall i :: 0 <= i < |r.receipts| ==> r.receipts[i] == ToMessageReceipt(ReceiptsOf(receipts, m.id)[i])
  {
    var ps := PacketsOf(packets, m.id);
    var rs := ReceiptsOf(receipts, m.id);
    Message(m.id, m.fromId, m.rcptId, m.attCnt,
            seq(|ps|, i requires 0 <= i < |ps| => ToMessagePacket(ps[i])),
            seq(|rs|, i requires 0 <= i < |rs| => ToMessageReceipt(rs[i])),
            m.createdAt, m.deletedAt)
  }

  /** `toFullMessagePacket`: the packet together with its parent message, raw. */
  function ToFullMessagePacket(p: PacketRow, m: MessageRow): (r: MessagePacket)
    requires m.id == p.msgId
    ensures r.(msg := None) == ToMessagePacket(p)
    ensures r.msg == Some(ToRawMessage(m))
  {
    MessagePacket(p.rcptIOID, p.dup, p.seqno, p.payloadEnc, Some(ToRawMessage(m)))
  }

  /** The message row `add` creates: the sender as author, no attachments. */
  function NewMessageRow(req: CreateMessage, aid: Uuid, now: Instant): MessageRow
  {
    MessageRow(req.id, aid, req.rcptId, 0, now, None)
  }

  /** The packet row `add` stores for one request packet. */
  function PacketRowFor(req: CreateMessage, ioid: Uuid, p: MessagePacket): PacketRow
  {
    PacketRow(req.id, ioid, req.rcptId, p.rcptIOID, p.dup, p.seqno, req.timestamp, p.payloadEnc)
  }

  /** The receipt row `add` stores for one request packet: nothing received, rejected or read yet. */
  function ReceiptRowFor(req: CreateMessage, p: MessagePacket): ReceiptRow
  {
    ReceiptRow(req.id, p.rcptIOID, p.dup, None, None, None)
  }

  function PacketRowsFor(req: CreateMessage, ioid: Uuid): (r: seq<PacketRow>)
    ensures |r| == |req.packets|
    ensures forall i :: 0 <= i < |r| ==> r[i] == PacketRowFor(req, ioid, req.packets[i])
  {
    seq(|req.packets|, i requires 0 <= i < |req.packets| => PacketRowFor(req, ioid, req.packets[i]))
  }

  function ReceiptRowsFor(req: CreateMessage): (r: seq<ReceiptRow>)
    ensures |r| == |req.packets|
    ensures forall i :: 0 <= i < |r| ==> r[i] == ReceiptRowFor(req, req.packets[i])
  {
    seq(|req.packets|, i requires 0 <= i < |req.packets| => ReceiptRowFor(req, req.packets[i]))
  }

  /**
   * What a client reads back after submitting `req` as a new message: the
   * request's packets in request order, each without a nested message,
   * and one untouched receipt per packet.
   */
  function Submitted(req: CreateMessage, aid: Uuid, now: Instant): Message
  {
    Message(req.id, aid, req.rcptId, 0,
            seq(|req.packets|, i requires 0 <= i < |req.packets| => req.packets[i].(msg := None)),
            seq(|req.packets|, i requires 0 <= i < |req.packets| =>
                  MessageReceipt(req.id, req.packets[i].rcptIOID, req.packets[i].dup, None, None, None)),
            now, None)
  }

  /** Storing a packet and projecting it back gives the request packet without its nested message. */
  lemma PacketRoundTrip(req: CreateMessage, ioid: Uuid, p: MessagePacket)
    ensures ToMessagePacket(PacketRowFor(req, ioid, p)) == p.(msg := None)
  {
  }

  /** Rows appended for a new id are exactly that id's rows, when no earlier row had the id. */
  lemma AppendedPackets(packets: seq<PacketRow>, stored: seq<PacketRow>, id: Uuid)
    requires forall p :: p in packets ==> p.msgId != id
    requires forall p :: p in stored ==> p.msgId == id
    ensures PacketsOf(packets + stored, id) == stored
  {
    FilterAppend(packets, stored, (p: PacketRow) => p.msgId == id);
    FilterNone(packets, (p: PacketRow) => p.msgId == id);
    FilterAll(stored, (p: PacketRow) => p.msgId == id);
  }

  lemma AppendedReceipts(receipts: seq<ReceiptRow>, stored: seq<ReceiptRow>, id: Uuid)
    requires forall x :: x in receipts ==> x.msgId != id
    requires forall x :: x in stored ==> x.msgId == id
    ensures ReceiptsOf(receipts + stored, id) == stored
  {
    FilterAppend(receipts, stored, (x: ReceiptRow) => x.msgId == id);
    FilterNone(receipts, (x: ReceiptRow) => x.msgId == id);
    FilterAll(stored, (x: ReceiptRow) => x.msgId == id);
  }

  /** The new message read back from the tables right after `add` is the submitted one. */
  lemma {:induction false} ReadBackSubmitted(packets: seq<PacketRow>, receipts: seq<ReceiptRow>,
                                             req: CreateMessage, aid: Uuid, ioid: Uuid, now: Instant)
    requires forall p :: p in packets ==> p.msgId != req.id
    requires forall x :: x in receipts ==> x.msgId != req.id
    ensures ToMessage(NewMessageRow(req, aid, now), packets + PacketRowsFor(req, ioid), receipts + ReceiptRowsFor(req))
            == Submitted(req, aid, now)
  {
    var stored := PacketRowsFor(req, ioid);
    var storedReceipts := ReceiptRowsFor(req);
    AppendedPackets(packets, stored, req.id);
    AppendedReceipts(receipts, storedReceipts, req.id);
    var m := ToMessage(NewMessageRow(req, aid, now), packets + stored, receipts + storedReceipts);
    var s := Submitted(req, aid, now);
    assert m.packets == s.packets by {
      forall i | 0 <= i < |m.packets| ensures m.packets[i] == s.packets[i] {
        PacketRoundTrip(req, ioid, req.packets[i]);
      }
    }
    assert m.receipts == s.receipts;
  }

  /** The message row with this id (`findById`). */
  function RowIn(messages: seq<MessageRow>, id: Uuid): (m: MessageRow)
    requires id in MessageIds(messages)
    ensures m in messages && m.id == id
  {
    assert exists m :: m in messages && m.id == id by {
      var i :| 0 <= i < |messages| && MessageIds(messages)[i] == id;
      assert messages[i] in messages;
    }
    First(messages, (m: MessageRow) => m.id == id).value
  }

  /** Each packet row with its parent message attached raw (`toFullMessagePacket` over a query). */
  function WithParents(rows: seq<PacketRow>, messages: seq<MessageRow>): (r: seq<MessagePacket>)
    requires forall p :: p in rows ==> p.msgId in MessageIds(messages)
    ensures |r| == |rows|
    ensures forall i :: 0 <= i < |rows| ==> r[i] == ToFullMessagePacket(rows[i], RowIn(messages, rows[i].msgId))
  {
    seq(|rows|, i requires 0 <= i < |rows| => ToFullMessagePacket(rows[i], RowIn(messages, rows[i].msgId)))
  }

  /** The message, packet and receipt tables. */
  class MessagesService {
    var messages: seq<MessageRow>
    var packets: seq<PacketRow>
    var receipts: seq<ReceiptRow>

    /** Message ids are unique and every packet and receipt row references a stored message. */
    ghost predicate Valid()
      reads this
    {
      && Distinct(MessageIds(messages))
      && (forall p :: p in packets ==> p.msgId in MessageIds(messages))
      && (forall x :: x in receipts ==> x.msgId in MessageIds(messages))
    }

    constructor ()
      ensures Valid() && messages == [] && packets == [] && receipts == []
    {
      messages := [];
      packets := [];
      receipts := [];
    }

    /** `get`: the message with this id and its packets and receipts, or None. */
    function Get(id: Uuid): (r: Option<Message>)
      reads this
      ensures r.None? <==> id !in MessageIds(messages)
      ensures r.Some? ==> exists m :: m in messages && m.id == id && r.value == ToMessage(m, packets, receipts)
    {
      if id in MessageIds(messages) then Some(ToMessage(RowIn(messages, id), packets, receipts)) else None
    }

    /**
     * `add`. A message whose id is already stored is returned as stored and
     * nothing changes. Otherwise one message row, then one packet row and one
     * receipt row per request packet, in request order, are inserted, and the
     * result is the submitted message as a later `get` returns it.
     */
    method Add(aid: Uuid, ioid: Uuid, req: CreateMessage, now: Instant) returns (r: Message)
      requires Valid()
      modifies this
      ensures Valid()
      ensures Get(req.id) == Some(r)
      ensures req.id in MessageIds(old(messages)) ==>
                && messages == old(messages) && packets == old(packets) && receipts == old(receipts)
      ensures req.id !in MessageIds(old(messages)) ==>
                && messages == old(messages) + [NewMessageRow(req, aid, now)]
                && packets == old(packets) + PacketRowsFor(req, ioid)
                && receipts == old(receipts) + ReceiptRowsFor(req)
                && r == Submitted(req, aid, now)
    {
      if req.id in MessageIds(messages) {
        return ToMessage(RowIn(messages, req.id), packets, receipts);
      }
      var row := NewMessageRow(req, aid, now);
      ghost var oldPackets := packets;
      ghost var oldReceipts := receipts;
      assert MessageIds(messages + [row]) == MessageIds(messages) + [req.id];
      messages := messages + [row];

      var i := 0;
      while i < |req.packets|
        invariant 0 <= i <= |req.packets|
        invariant messages == old(messages) + [row]
        invariant packets == oldPackets + PacketRowsFor(req, ioid)[..i]
        invariant receipts == oldReceipts + ReceiptRowsFor(req)[..i]
      {
        packets := packets + [PacketRowFor(req, ioid, req.packets[i])];
        receipts := receipts + [ReceiptRowFor(req, req.packets[i])];
        assert PacketRowsFor(req, ioid)[..i + 1] == PacketRowsFor(req, ioid)[..i] + [PacketRowFor(req, ioid, req.packets[i])];
        assert ReceiptRowsFor(req)[..i + 1] == ReceiptRowsFor(req)[..i] + [ReceiptRowFor(req, req.packets[i])];
        i := i + 1;
      }
      assert PacketRowsFor(req, ioid)[..i] == PacketRowsFor(req, ioid);
      assert ReceiptRowsFor(req)[..i] == ReceiptRowsFor(req);

      forall p | p in oldPackets ensures p.msgId != req.id {
        var k :| 0 <= k < |MessageIds(old(messages))| && MessageIds(old(messages))[k] == p.msgId;
        assert old(messages)[k] in old(messages);
      }
      forall x | x in oldReceipts ensures x.msgId != req.id {
        var k :| 0 <= k < |MessageIds(old(messages))| && MessageIds(old(messages))[k] == x.msgId;
        assert old(messages)[k] in old(messages);
      }
      ReadBackSubmitted(oldPackets, oldReceipts, req, aid, ioid, now);
      forall y | y in old(messages) ensures y.id != req.id {
        var k :| 0 <= k < |old(messages)| && old(messages)[k] == y;
        assert MessageIds(old(messages))[k] == y.id;
      }
      assert MessageIds(messages)[|messages| - 1] == req.id;
      FirstUnique(messages, (m: MessageRow) => m.id == req.id, row);
      r := ToMessage(row, packets, receipts);
    }

    /**
     * `listUnacknowledged`: every packet addressed to the link, in table
     * order, each carrying its parent message raw. Neither the actor id
     * `aid` nor the receipts are consulted.
     */
    function ListUnacknowledged(aid: Uuid, ioid: Uuid): (r: seq<MessagePacket>)
      reads this
      requires Valid()
      ensures |r| == |PacketsTo(packets, ioid)|
      ensures forall i :: 0 <= i < |r| ==>
                && r[i].rcptIOID == ioid
                && r[i].(msg := None) == ToMessagePacket(PacketsTo(packets, ioid)[i])
                && r[i].msg.Some? && r[i].msg.value.id == PacketsTo(packets, ioid)[i].msgId
                && r[i].msg.value.packets == [] && r[i].msg.value.receipts == []
      ensures forall p :: p in packets && p.rcptIOID == ioid ==>
                exists q :: q in r && q.(msg := None) == ToMessagePacket(p) && q.msg.Some? && q.msg.value.id == p.msgId
    {
      var rows := PacketsTo(packets, ioid);
      var r := WithParents(rows, messages);
      assert forall p :: p in packets && p.rcptIOID == ioid ==>
               exists q :: q in r && q.(msg := None) == ToMessagePacket(p) && q.msg.Some? && q.msg.value.id == p.msgId by {
        forall p | p in packets && p.rcptIOID == ioid
          ensures exists q :: q in r && q.(msg := None) == ToMessagePacket(p) && q.msg.Some? && q.msg.value.id == p.msgId
        {
          var k :| 0 <= k < |rows| && rows[k] == p;
          assert r[k] in r;
        }
      }
      r
    }
  }
}
