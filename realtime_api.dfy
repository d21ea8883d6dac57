/**
 * The `/rt` WebSocket endpoint: a device connects with its access token,
 * is registered under the token's `ioid`, receives its backlog (every
 * packet addressed to that link), ignores anything the client sends, and
 * is unregistered however the session ends.
 */
module RealTimeApi {
  import opened Common
  import opened Messages
  import opened Messaging
  import opened AuthSessions

  /** The backlog frame for one pulled packet: its parent message, and the packet without it. */
  function BacklogFrame(p: MessagePacket): (m: RTMessage)
    requires p.msg.Some?
    ensures m.msg == p.msg.value && m.packet.msg == None
    ensures m.packet.rcptIOID == p.rcptIOID && m.packet.dup == p.dup
    ensures m.packet.seqno == p.seqno && m.packet.payloadEnc == p.payloadEnc
  {
    ChatMessage(p.msg.value, p.(msg := None))
  }

  /** The frames written to `session` for a list of pulled packets, in order. */
  function BacklogFrames(session: SessionId, packets: seq<MessagePacket>): (r: seq<Frame>)
    requires forall p :: p in packets ==> p.msg.Some?
    ensures |r| == |packets|
    ensures forall i :: 0 <= i < |r| ==> r[i] == Frame(session, BacklogFrame(packets[i]))
  {
    seq(|packets|, i requires 0 <= i < |packets| => Frame(session, BacklogFrame(packets[i])))
  }

  /** How many backlog frames get out when the write at position `failAt` (if any) throws. */
  function Written(failAt: Option<nat>, n: nat): (k: nat)
    ensures k <= n
    ensures failAt.None? ==> k == n
  {
    if failAt.Some? && failAt.value < n then failAt.value else n
  }

  /**
   * Every backlog frame of a link carries a packet addressed to that link
   * with no nested message, paired with its parent message stripped of
   * packets and receipts.
   */
  lemma {:induction false} BacklogFramesShape(store: MessagesService, aid: Uuid, ioid: Uuid, session: SessionId)
    requires store.Valid()
    ensures var frames := BacklogFrames(session, store.ListUnacknowledged(aid, ioid));
            && |frames| == |PacketsTo(store.packets, ioid)|
            && forall f :: f in frames ==>
                 && f.session == session && f.message.packet.rcptIOID == ioid && f.message.packet.msg == None
                 && f.message.msg.packets == [] && f.message.msg.receipts == []
  {
    var backlog := store.ListUnacknowledged(aid, ioid);
    var frames := BacklogFrames(session, backlog);
    forall f | f in frames
      ensures && f.session == session && f.message.packet.rcptIOID == ioid && f.message.packet.msg == None
              && f.message.msg.packets == [] && f.message.msg.receipts == []
    {
      var i :| 0 <= i < |frames| && frames[i] == f;
      assert f == Frame(session, BacklogFrame(backlog[i]));
    }
  }

  /**
   * The backlog loop: one frame per pulled packet, in order, until the
   * write at `failAt` throws and ends the session.
   */
  method DrainBacklog(net: Sockets, session: SessionId, outstanding: seq<MessagePacket>, failAt: Option<nat>)
    returns (failed: bool)
    requires forall p :: p in outstanding ==> p.msg.Some?
    modifies net
    ensures failed <==> failAt.Some? && failAt.value < |outstanding|
    ensures var frames := BacklogFrames(session, outstanding);
            net.sent == old(net.sent) + frames[..Written(failAt, |outstanding|)]
    ensures net.closed == old(net.closed)
  {
    ghost var frames := BacklogFrames(session, outstanding);
    var i := 0;
    failed := false;
    while i < |outstanding| && !failed
      invariant 0 <= i <= |outstanding|
      invariant failed ==> failAt == Some(i) && i < |outstanding|
      invariant !failed ==> failAt.None? || failAt.value >= i
      invariant net.sent == old(net.sent) + frames[..i]
      invariant net.closed == old(net.closed)
      decreases |outstanding| - i, if failed then 0 else 1
    {
      if failAt == Some(i) {
        failed := true;
      } else {
        net.Send(session, BacklogFrame(outstanding[i]));
        assert frames[..i + 1] == frames[..i] + [frames[i]];
        i := i + 1;
      }
    }
  }

  /**
   * One `/rt` session. The claims are the access token's (`actor_id`,
   * `ioid`, `handle`); `incoming` is what the client sends before the socket
   * closes, and `failAt` the position of a backlog write that throws, if
   * one does. The connection takes the next number, is registered, the
   * backlog of its link is written in order until a write fails, incoming
   * frames change nothing, and the link's slot is cleared at the end on
   * every path.
   */
  method Session(messaging: MessagingService, store: MessagesService, net: Sockets, counter: ConnectionCounter,
                 session: SessionId, claims: AccessToken, incoming: seq<RTMessage>, failAt: Option<nat>)
    returns (conn: Connection)
    requires messaging.Valid() && store.Valid() && counter.Valid()
    modifies messaging, net, counter
    ensures messaging.Valid() && counter.Valid()
    ensures conn == Connection(session, claims.actorId, claims.ioid, claims.handle, old(counter.lastId))
    ensures counter.lastId == Int32Inc(old(counter.lastId))
    ensures messaging.clients == Unregistered(Registered(old(messaging.clients), conn), conn)
    ensures claims.ioid in old(messaging.clients) ==>
              net.closed == old(net.closed) + [Closing(old(messaging.clients)[claims.ioid].session, Duplicate)]
    ensures claims.ioid !in old(messaging.clients) ==> net.closed == old(net.closed)
    ensures var backlog := BacklogFrames(session, store.ListUnacknowledged(claims.actorId, claims.ioid));
            net.sent == old(net.sent) + backlog[..Written(failAt, |backlog|)]
  {
    var serial := counter.GetAndIncrement();
    conn := Connection(session, claims.actorId, claims.ioid, claims.handle, serial);

    messaging.RegisterClient(conn, net);

    var outstanding := store.ListUnacknowledged(conn.aid, conn.ioid);
    var failed := DrainBacklog(net, session, outstanding, failAt);

    if !failed {
      // Frames from the client are logged and otherwise ignored.
      var j := 0;
      while j < |incoming|
        invariant 0 <= j <= |incoming|
        modifies {}
      {
        j := j + 1;
      }
    }

    messaging.UnregisterClient(conn);
  }
}
