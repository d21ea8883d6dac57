/**
 * The live-delivery registry: at most one open WebSocket connection per
 * installation link (ioid). Registering a connection evicts and closes
 * the previous one for the same link; unregistering removes whatever sits
 * under the link; sending writes one frame to the connection registered
 * under the target link, if any. The transport is a pair of logs.
 */
module Messaging {
  import opened Common
  import opened Messages

  /** A real-time frame: a chat message for one device, the message plus that device's packet. */
  datatype RTMessage = ChatMessage(msg: Message, packet: MessagePacket)

  /** An open WebSocket session, known by a number. */
  type SessionId = nat

  /** A connection: the session and the token claims it was opened with, plus its sequence number. */
  datatype Connection = Connection(session: SessionId, aid: Uuid, ioid: Uuid, handle: string, serial: int)

  /** Close code 1008, "policy violation", of section 7.4.1 of RFC 6455. */
  const ViolatedPolicy := 1008

  datatype CloseReason = CloseReason(code: int, message: string)

  /** The reason an evicted connection is closed with. */
  const Duplicate := CloseReason(ViolatedPolicy, "duplicate")

  /** A frame written to a session, and a close issued on a session. */
  datatype Frame = Frame(session: SessionId, message: RTMessage)
  datatype Closing = Closing(session: SessionId, reason: CloseReason)

  /** What has been written to and closed on the sockets, in order. */
  class Sockets {
    var sent: seq<Frame>
    var closed: seq<Closing>

    constructor ()
      ensures sent == [] && closed == []
    {
      sent := [];
      closed := [];
    }

    /** Writes one frame to a session. */
    method Send(session: SessionId, message: RTMessage)
      modifies this
      ensures sent == old(sent) + [Frame(session, message)] && closed == old(closed)
    {
      sent := sent + [Frame(session, message)];
    }

    /** Closes a session with a reason. */
    method Close(session: SessionId, reason: CloseReason)
      modifies this
      ensures closed == old(closed) + [Closing(session, reason)] && sent == old(sent)
    {
      closed := closed + [Closing(session, reason)];
    }
  }

  /** The bounds of a 32-bit `Int`. */
  const Int32Min := -0x8000_0000
  const Int32Max := 0x7fff_ffff

  predicate IsInt32(n: int)
  {
    Int32Min <= n <= Int32Max
  }

  /** 32-bit two's-complement increment: past the largest value it wraps to the smallest. */
  function Int32Inc(n: int): (r: int)
    requires IsInt32(n)
    ensures IsInt32(r)
    ensures n < Int32Max ==> r == n + 1
    ensures n == Int32Max ==> r == Int32Min
  {
    if n == Int32Max then Int32Min else n + 1
  }

  /** The values handed out by `k` successive draws starting at `n`. */
  function Draws(n: int, k: nat): (r: seq<int>)
    requires IsInt32(n)
    ensures |r| == k
    decreases k
  {
    if k == 0 then [] else [n] + Draws(Int32Inc(n), k - 1)
  }

  /**
   * Connection numbers are strictly increasing as long as the counter does
   * not pass the largest `Int`.
   */
  lemma {:induction false} DrawsIncrease(n: int, k: nat)
    requires IsInt32(n) && n + k - 1 <= Int32Max
    ensures forall i :: 0 <= i < k ==> Draws(n, k)[i] == n + i
    ensures forall i, j :: 0 <= i < j < k ==> Draws(n, k)[i] < Draws(n, k)[j]
    decreases k
  {
    if k > 0 {
      if k > 1 {
        DrawsIncrease(n + 1, k - 1);
      }
      forall i | 0 <= i < k ensures Draws(n, k)[i] == n + i {
        if i > 0 {
          assert Draws(n, k)[i] == Draws(Int32Inc(n), k - 1)[i - 1];
        }
      }
    }
  }

  /** The draw after the largest `Int` is the smallest: the numbering then restarts below zero. */
  lemma DrawsWrap()
    ensures Draws(Int32Max, 2) == [Int32Max, Int32Min]
  {
  }

  /** The shared `lastId` counter that numbers connections. */
  class ConnectionCounter {
    var lastId: int

    ghost predicate Valid()
      reads this
    {
      IsInt32(lastId)
    }

    constructor ()
      ensures Valid() && lastId == 0
    {
      lastId := 0;
    }

    /** `getAndIncrement`: hands out the current value and advances with 32-bit wrap-around. */
    method GetAndIncrement() returns (id: int)
      requires Valid()
      modifies this
      ensures Valid()
      ensures id == old(lastId) && lastId == Int32Inc(old(lastId))
      ensures id == Draws(old(lastId), 1)[0]
    {
      id := lastId;
      lastId := Int32Inc(lastId);
    }
  }

  /** Every registered connection sits under its own link id. */
  predicate Keyed(clients: map<Uuid, Connection>)
  {
    forall k :: k in clients ==> clients[k].ioid == k
  }

  /** The registry after `registerClient(conn)`. */
  function Registered(clients: map<Uuid, Connection>, conn: Connection): (r: map<Uuid, Connection>)
    ensures Keyed(clients) ==> Keyed(r)
    ensures conn.ioid in r && r[conn.ioid] == conn
    ensures forall k :: k != conn.ioid ==> (k in r <==> k in clients) && (k in r ==> r[k] == clients[k])
  {
    clients[conn.ioid := conn]
  }

  /** The registry after `unregisterClient(conn)`: the slot is cleared whoever holds it. */
  function Unregistered(clients: map<Uuid, Connection>, conn: Connection): (r: map<Uuid, Connection>)
    ensures Keyed(clients) ==> Keyed(r)
    ensures conn.ioid !in r
    ensures forall k :: k != conn.ioid ==> (k in r <==> k in clients) && (k in r ==> r[k] == clients[k])
  {
    clients - {conn.ioid}
  }

  /**
   * Unregistering is not compare-and-remove: when an older connection for a
   * link ends after a newer one replaced it, the newer one is dropped from
   * the registry although its socket stays open.
   */
  lemma StaleUnregisterDropsSuccessor(clients: map<Uuid, Connection>, older: Connection, newer: Connection)
    requires older.ioid == newer.ioid && older != newer
    ensures var r := Unregistered(Registered(Registered(clients, older), newer), older);
            newer.ioid !in r
  {
  }

  /** The registered connections whose link is `rcpt`. */
  function Matches(clients: map<Uuid, Connection>, rcpt: Uuid): set<Uuid>
  {
    set k | k in clients && clients[k].ioid == rcpt
  }

  /** In a keyed registry at most one connection matches a link: the one under that key. */
  lemma {:induction false} MatchesAtMostOne(clients: map<Uuid, Connection>, rcpt: Uuid)
    requires Keyed(clients)
    ensures Matches(clients, rcpt) == if rcpt in clients then {rcpt} else {}
    ensures |Matches(clients, rcpt)| <= 1
  {
    assert forall k :: k in Matches(clients, rcpt) ==> k == rcpt;
    if rcpt in clients {
      assert rcpt in Matches(clients, rcpt);
    }
  }

  /** The frames one `send(rcpt, msg)` writes: one to the link's connection, or none. */
  function Delivery(clients: map<Uuid, Connection>, rcpt: Uuid, msg: RTMessage): (r: seq<Frame>)
    ensures |r| <= 1
    ensures r != [] <==> rcpt in clients
  {
    if rcpt in clients then [Frame(clients[rcpt].session, msg)] else []
  }

  /** The registry of live connections (`ConcurrentHashMap<ioid, Connection>`). */
  class MessagingService {
    var clients: map<Uuid, Connection>

    ghost predicate Valid()
      reads this
    {
      Keyed(clients)
    }

    constructor ()
      ensures Valid() && clients == map[]
    {
      clients := map[];
    }

    /**
     * `registerClient`: the connection takes its link's slot; a previous
     * occupant is closed once with (1008, "duplicate"); nothing else changes.
     */
    method RegisterClient(conn: Connection, net: Sockets)
      requires Valid()
      modifies this, net
      ensures Valid()
      ensures clients == Registered(old(clients), conn)
      ensures net.sent == old(net.sent)
      ensures conn.ioid in old(clients) ==>
                net.closed == old(net.closed) + [Closing(old(clients)[conn.ioid].session, Duplicate)]
      ensures conn.ioid !in old(clients) ==> net.closed == old(net.closed)
    {
      if conn.ioid in clients {
        net.Close(clients[conn.ioid].session, Duplicate);
      }
      clients := clients[conn.ioid := conn];
    }

    /** `unregisterClient`: clears the connection's link slot, whoever holds it. */
    method UnregisterClient(conn: Connection)
      requires Valid()
      modifies this
      ensures Valid()
      ensures clients == Unregistered(old(clients), conn)
    {
      clients := clients - {conn.ioid};
    }

    /**
     * `send`: walks the registry and writes the frame to every connection
     * whose link is `rcpt`, which is at most the one under that key; with
     * no match nothing happens. The registry is not changed.
     */
    method Send(rcpt: Uuid, msg: RTMessage, net: Sockets)
      requires Valid()
      modifies net
      ensures net.sent == old(net.sent) + Delivery(clients, rcpt, msg)
      ensures net.closed == old(net.closed)
    {
      var pending := clients.Keys;
      while pending != {}
        invariant pending <= clients.Keys
        invariant net.closed == old(net.closed)
        invariant net.sent == old(net.sent) + (if rcpt in clients && rcpt !in pending then Delivery(clients, rcpt, msg) else [])
        decreases |pending|
      {
        var k :| k in pending;
        if clients[k].ioid == rcpt {
          net.Send(clients[k].session, msg);
        }
        pending := pending - {k};
      }
    }
  }
}
