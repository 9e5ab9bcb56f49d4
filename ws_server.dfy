/**
 * The signaling WebSocket server: start/stop guards, the session tables
 * (one for plain sessions, one for TLS sessions, the server using the one
 * its mode selects), connection ids handed out from 1 upwards, sends,
 * broadcasts, closes, and each session's read loop. Sockets, the TLS
 * handshake and the I/O thread are not modelled: their outcomes are
 * parameters, and the callbacks the signaling server registers appear as a
 * log of the events they are handed.
 */
module WsServer {
  import opened Wrappers

  type ConnId = nat

  /** A session's side of the socket: the messages posted for writing. */
  datatype Session = Session(outbox: seq<string>)

  const NEW_SESSION := Session([])

  /** What a registered callback is handed. */
  datatype Event = Connected(id: ConnId) | Received(id: ConnId, text: string) | Disconnected(id: ConnId)

  /** How a pending read completes: the peer closed the socket, the read failed, or a message arrived. */
  datatype ReadResult = Closed | ReadFailed | Text(text: string)

  /** How the listening socket comes up: the certificate and key load, the IPv6-or-IPv4 open, bind and listen. */
  datatype SocketSetup = SocketSetup(tlsLoaded: bool, socketOpen: bool, bound: bool, listening: bool)

  /** How many reads a session performs: up to and including the first close or failure, or all of them. */
  function ReadsConsumed(results: seq<ReadResult>): (n: nat)
    ensures n <= |results|
    ensures forall i :: 0 <= i < n - 1 ==> results[i].Text?
    ensures n < |results| ==> n >= 1 && !results[n - 1].Text?
    ensures n == |results| && n > 0 ==> forall i :: 0 <= i < n - 1 ==> results[i].Text?
  {
    if results == [] then 0
    else if results[0].Text? then 1 + ReadsConsumed(results[1..])
    else 1
  }

  /**
   * What the callbacks see of one session's reads: each message, until the
   * first close or failure, which is reported once as a disconnect and
   * ends the reading. A callback that is not set sees nothing.
   */
  function ReadEvents(id: ConnId, results: seq<ReadResult>, onMessage: bool, onDisconnect: bool): seq<Event>
  {
    if results == [] then []
    else match results[0]
      case Text(t) => (if onMessage then [Received(id, t)] else []) + ReadEvents(id, results[1..], onMessage, onDisconnect)
      case _ => if onDisconnect then [Disconnected(id)] else []
  }

  /**
   * The callbacks hear about this session only, at most one event per read,
   * and every event but the last is a message: a disconnect, if any, comes
   * last. Without a message callback only the disconnect is heard, without
   * a disconnect callback only messages.
   */
  lemma {:induction false} ReadEventsShape(id: ConnId, results: seq<ReadResult>, onMessage: bool, onDisconnect: bool)
    ensures var events := ReadEvents(id, results, onMessage, onDisconnect);
      |events| <= |results|
      && (forall i :: 0 <= i < |events| - 1 ==> events[i].Received?)
      && (forall i :: 0 <= i < |events| ==> events[i].id == id)
      && (!onMessage ==> forall i :: 0 <= i < |events| ==> events[i].Disconnected?)
      && (!onDisconnect ==> forall i :: 0 <= i < |events| ==> events[i].Received?)
  {
    if results != [] && results[0].Text? {
      ReadEventsShape(id, results[1..], onMessage, onDisconnect);
    }
  }

  /** A session whose reads all deliver messages hands each one over, in order, and never disconnects. */
  lemma {:induction false} AllTextDelivered(id: ConnId, results: seq<ReadResult>)
    requires forall i :: 0 <= i < |results| ==> results[i].Text?
    ensures ReadEvents(id, results, true, true) == seq(|results|, i requires 0 <= i < |results| => Received(id, results[i].text))
    ensures ReadsConsumed(results) == |results|
  {
    if results != [] {
      AllTextDelivered(id, results[1..]);
    }
  }

  /** A close or a failure is reported exactly once, as the last event, and nothing after it is read. */
  lemma {:induction false} DisconnectOnce(id: ConnId, results: seq<ReadResult>, k: nat)
    requires k < |results| && !results[k].Text? && forall i :: 0 <= i < k ==> results[i].Text?
    ensures ReadsConsumed(results) == k + 1
    ensures ReadEvents(id, results, true, true) == ReadEvents(id, results[..k], true, true) + [Disconnected(id)]
    ensures ReadEvents(id, results, true, true) == ReadEvents(id, results[..k + 1], true, true)
  {
    if k > 0 {
      DisconnectOnce(id, results[1..], k - 1);
      assert results[1..][..k - 1] == results[..k][1..];
      assert results[1..][..k] == results[..k + 1][1..];
    }
  }

  /** The session table after `msg` is posted to session `id`, if it is there. */
  function PostTo(table: map<ConnId, Session>, id: ConnId, msg: string): (r: map<ConnId, Session>)
    ensures r.Keys == table.Keys
    ensures forall c :: c in table && c != id ==> r[c] == table[c]
    ensures id in table ==> r[id].outbox == table[id].outbox + [msg]
  {
    if id in table then table[id := table[id].(outbox := table[id].outbox + [msg])] else table
  }

  /** Whether some read closes or fails, which ends the session. */
  function EndsSession(results: seq<ReadResult>): (b: bool)
    ensures b <==> exists k :: 0 <= k < |results| && !results[k].Text?
  {
    if results == [] then false
    else if !results[0].Text? then true
    else
      assert forall k :: 0 < k < |results| ==> results[k] == results[1..][k - 1];
      EndsSession(results[1..])
  }

  /** One read of the loop: a message is handed over and reading goes on; anything else ends it. */
  lemma ReadStep(id: ConnId, results: seq<ReadResult>, onMessage: bool, onDisconnect: bool)
    requires results != []
    ensures results[0].Text? ==>
      ReadEvents(id, results, onMessage, onDisconnect)
        == (if onMessage then [Received(id, results[0].text)] else []) + ReadEvents(id, results[1..], onMessage, onDisconnect)
      && ReadsConsumed(results) == 1 + ReadsConsumed(results[1..])
      && EndsSession(results) == EndsSession(results[1..])
    ensures !results[0].Text? ==>
      ReadEvents(id, results, onMessage, onDisconnect) == (if onDisconnect then [Disconnected(id)] else [])
      && ReadsConsumed(results) == 1 && EndsSession(results)
  {
  }
  /** One message read: its event joins those already recorded, and the rest of the reads still owe theirs. */
  lemma TextStep(id: ConnId, rest: seq<ReadResult>, onMessage: bool, onDisconnect: bool, before: seq<Event>)
    requires rest != [] && rest[0].Text?
    ensures (before + (if onMessage then [Received(id, rest[0].text)] else [])) + ReadEvents(id, rest[1..], onMessage, onDisconnect)
      == before + ReadEvents(id, rest, onMessage, onDisconnect)
    ensures ReadsConsumed(rest) == 1 + ReadsConsumed(rest[1..]) && EndsSession(rest) == EndsSession(rest[1..])
  {
    ReadStep(id, rest, onMessage, onDisconnect);
    var m := if onMessage then [Received(id, rest[0].text)] else [];
    assert (before + m) + ReadEvents(id, rest[1..], onMessage, onDisconnect) == before + (m + ReadEvents(id, rest[1..], onMessage, onDisconnect));
  }


  /** The session table after `msg` is posted to every session in it. */
  function Posted(table: map<ConnId, Session>, msg: string): map<ConnId, Session>
  {
    map id | id in table :: table[id].(outbox := table[id].outbox + [msg])
  }

  class WebSocketServer {
    var running: bool
    var useSsl: bool
    var port: nat
    var sessions: map<ConnId, Session>
    var sslSessions: map<ConnId, Session>
    var nextConnId: ConnId
    var hasMessageCallback: bool
    var hasConnectCallback: bool
    var hasDisconnectCallback: bool
    /** What the registered callbacks have been handed, in order. */
    var events: seq<Event>

    /** Ids are handed out once: every id in use is below the next one, and no id is in both tables. */
    ghost predicate Valid()
      reads this
    {
      nextConnId >= 1
      && (forall id :: id in sessions ==> 1 <= id < nextConnId)
      && (forall id :: id in sslSessions ==> 1 <= id < nextConnId)
      && sessions.Keys !! sslSessions.Keys
    }

    /** The table the server's mode selects. */
    function Current(): map<ConnId, Session>
      reads this
    {
      if useSsl then sslSessions else sessions
    }

    constructor()
      ensures Valid()
      ensures !running && !useSsl && port == 0 && nextConnId == 1
      ensures sessions == map[] && sslSessions == map[] && events == []
      ensures !hasMessageCallback && !hasConnectCallback && !hasDisconnectCallback
    {
      running := false;
      useSsl := false;
      port := 0;
      sessions := map[];
      sslSessions := map[];
      nextConnId := 1;
      hasMessageCallback := false;
      hasConnectCallback := false;
      hasDisconnectCallback := false;
      events := [];
    }

    /**
     * A running server refuses to start again. Otherwise the mode and port
     * are taken, and the server runs only when the TLS files load (in TLS
     * mode), the socket opens, binds and listens.
     */
    method Start(p: nat, ssl: bool, setup: SocketSetup) returns (ok: bool)
      requires Valid()
      modifies this
      ensures Valid()
      ensures old(running) ==> !ok && running && useSsl == old(useSsl) && port == old(port)
      ensures !old(running) ==>
        useSsl == ssl && port == p
        && (ok <==> (!ssl || setup.tlsLoaded) && setup.socketOpen && setup.bound && setup.listening)
        && running == ok
      ensures sessions == old(sessions) && sslSessions == old(sslSessions) && nextConnId == old(nextConnId)
      ensures events == old(events)
      ensures hasMessageCallback == old(hasMessageCallback) && hasConnectCallback == old(hasConnectCallback)
      ensures hasDisconnectCallback == old(hasDisconnectCallback)
    {
      if running {
        return false;
      }
      useSsl := ssl;
      port := p;
      if ssl && !setup.tlsLoaded {
        return false;
      }
      if !setup.socketOpen || !setup.bound || !setup.listening {
        return false;
      }
      running := true;
      return true;
    }

    /** Stopping a stopped server does nothing; otherwise it stops and forgets every session of both kinds. */
    method Stop()
      requires Valid()
      modifies this
      ensures Valid()
      ensures !running
      ensures !old(running) ==> sessions == old(sessions) && sslSessions == old(sslSessions)
      ensures old(running) ==> sessions == map[] && sslSessions == map[]
      ensures useSsl == old(useSsl) && port == old(port) && nextConnId == old(nextConnId) && events == old(events)
      ensures hasMessageCallback == old(hasMessageCallback) && hasConnectCallback == old(hasConnectCallback)
      ensures hasDisconnectCallback == old(hasDisconnectCallback)
    {
      if !running {
        return;
      }
      running := false;
      sessions := map[];
      sslSessions := map[];
    }

    function IsRunning(): (r: bool)
      reads this
      ensures r <==> running
    {
      running
    }

    /** A message is posted only to a session in the table of the server's mode. */
    method Send(id: ConnId, msg: string) returns (ok: bool)
      requires Valid()
      modifies this
      ensures Valid()
      ensures ok <==> id in old(Current())
      ensures !useSsl ==> sslSessions == old(sslSessions) && sessions == PostTo(old(sessions), id, msg)
      ensures useSsl ==> sessions == old(sessions) && sslSessions == PostTo(old(sslSessions), id, msg)
      ensures running == old(running) && useSsl == old(useSsl) && port == old(port)
      ensures nextConnId == old(nextConnId) && events == old(events)
      ensures hasMessageCallback == old(hasMessageCallback) && hasConnectCallback == old(hasConnectCallback)
      ensures hasDisconnectCallback == old(hasDisconnectCallback)
    {
      if useSsl {
        if id in sslSessions {
          sslSessions := sslSessions[id := sslSessions[id].(outbox := sslSessions[id].outbox + [msg])];
          return true;
        }
      } else {
        if id in sessions {
          sessions := sessions[id := sessions[id].(outbox := sessions[id].outbox + [msg])];
          return true;
        }
      }
      return false;
    }

    /** Posts the message to every session of the table the mode selects, one at a time. */
    method Broadcast(msg: string)
      requires Valid()
      modifies this
      ensures Valid()
      ensures !useSsl ==> sessions == Posted(old(sessions), msg) && sslSessions == old(sslSessions)
      ensures useSsl ==> sslSessions == Posted(old(sslSessions), msg) && sessions == old(sessions)
      ensures running == old(running) && useSsl == old(useSsl) && port == old(port)
      ensures nextConnId == old(nextConnId) && events == old(events)
      ensures hasMessageCallback == old(hasMessageCallback) && hasConnectCallback == old(hasConnectCallback)
      ensures hasDisconnectCallback == old(hasDisconnectCallback)
    {
      var table := Current();
      var rest := table.Keys;
      var done: map<ConnId, Session> := map[];
      while rest != {}
        invariant rest <= table.Keys
        invariant done.Keys == table.Keys - rest
        invariant forall id :: id in done ==> done[id] == table[id].(outbox := table[id].outbox + [msg])
        decreases rest
      {
        var id :| id in rest;
        done := done[id := table[id].(outbox := table[id].outbox + [msg])];
        rest := rest - {id};
      }
      assert done == Posted(table, msg);
      if useSsl {
        sslSessions := done;
      } else {
        sessions := done;
      }
    }

    /** A session of the mode's table is told to close and forgotten; an unknown id changes nothing. */
    method CloseConnection(id: ConnId)
      requires Valid()
      modifies this
      ensures Valid()
      ensures !useSsl ==> sessions == old(sessions) - {id} && sslSessions == old(sslSessions)
      ensures useSsl ==> sslSessions == old(sslSessions) - {id} && sessions == old(sessions)
      ensures id !in old(Current()) ==> sessions == old(sessions) && sslSessions == old(sslSessions)
      ensures running == old(running) && useSsl == old(useSsl) && port == old(port)
      ensures nextConnId == old(nextConnId) && events == old(events)
      ensures hasMessageCallback == old(hasMessageCallback) && hasConnectCallback == old(hasConnectCallback)
      ensures hasDisconnectCallback == old(hasDisconnectCallback)
    {
      if useSsl {
        if id in sslSessions {
          sslSessions := sslSessions - {id};
        }
      } else {
        if id in sessions {
          sessions := sessions - {id};
        }
      }
    }

    method SetMessageCallback()
      modifies this
      ensures hasMessageCallback
      ensures hasConnectCallback == old(hasConnectCallback) && hasDisconnectCallback == old(hasDisconnectCallback)
      ensures running == old(running) && useSsl == old(useSsl) && port == old(port) && events == old(events)
      ensures sessions == old(sessions) && sslSessions == old(sslSessions) && nextConnId == old(nextConnId)
    {
      hasMessageCallback := true;
    }

    method SetConnectCallback()
      modifies this
      ensures hasConnectCallback
      ensures hasMessageCallback == old(hasMessageCallback) && hasDisconnectCallback == old(hasDisconnectCallback)
      ensures running == old(running) && useSsl == old(useSsl) && port == old(port) && events == old(events)
      ensures sessions == old(sessions) && sslSessions == old(sslSessions) && nextConnId == old(nextConnId)
    {
      hasConnectCallback := true;
    }

    method SetDisconnectCallback()
      modifies this
      ensures hasDisconnectCallback
      ensures hasMessageCallback == old(hasMessageCallback) && hasConnectCallback == old(hasConnectCallback)
      ensures running == old(running) && useSsl == old(useSsl) && port == old(port) && events == old(events)
      ensures sessions == old(sessions) && sslSessions == old(sslSessions) && nextConnId == old(nextConnId)
    {
      hasDisconnectCallback := true;
    }

    /** The number of sessions in the table the mode selects. */
    function ConnectionCount(): (n: nat)
      reads this
      ensures n == if useSsl then |sslSessions| else |sessions|
    {
      |Current()|
    }

    /** A session ended: it leaves both tables before the disconnect callback hears of it. */
    method OnDisconnect(id: ConnId)
      requires Valid()
      modifies this
      ensures Valid()
      ensures sessions == old(sessions) - {id} && sslSessions == old(sslSessions) - {id}
      ensures events == old(events) + (if hasDisconnectCallback then [Disconnected(id)] else [])
      ensures running == old(running) && useSsl == old(useSsl) && port == old(port) && nextConnId == old(nextConnId)
      ensures hasMessageCallback == old(hasMessageCallback) && hasConnectCallback == old(hasConnectCallback)
      ensures hasDisconnectCallback == old(hasDisconnectCallback)
    {
      sessions := sessions - {id};
      sslSessions := sslSessions - {id};
      if hasDisconnectCallback {
        events := events + [Disconnected(id)];
      }
    }

    /**
     * A session that completed its handshake is filed under the next id, in
     * the table of its kind; ids start at 1 and go up by one, so the new id
     * is in neither table.
     */
    method Register(ssl: bool) returns (id: ConnId)
      requires Valid()
      modifies this
      ensures Valid()
      ensures id == old(nextConnId) && nextConnId == id + 1
      ensures id !in old(sessions) && id !in old(sslSessions)
      ensures !ssl ==> sessions == old(sessions)[id := NEW_SESSION] && sslSessions == old(sslSessions)
      ensures ssl ==> sslSessions == old(sslSessions)[id := NEW_SESSION] && sessions == old(sessions)
      ensures running == old(running) && useSsl == old(useSsl) && port == old(port) && events == old(events)
      ensures hasMessageCallback == old(hasMessageCallback) && hasConnectCallback == old(hasConnectCallback)
      ensures hasDisconnectCallback == old(hasDisconnectCallback)
    {
      id := nextConnId;
      nextConnId := nextConnId + 1;
      if ssl {
        sslSessions := sslSessions[id := NEW_SESSION];
      } else {
        sessions := sessions[id := NEW_SESSION];
      }
    }

    /**
     * A connection was accepted: a session of the mode's kind is created and,
     * once its handshake succeeds, registered and announced. A failed
     * handshake leaves no trace.
     */
    method Accept(handshakeOk: bool) returns (id: Option<ConnId>)
      requires Valid()
      modifies this
      ensures Valid()
      ensures !handshakeOk ==>
        id.None? && sessions == old(sessions) && sslSessions == old(sslSessions)
        && nextConnId == old(nextConnId) && events == old(events)
      ensures handshakeOk ==>
        id == Some(old(nextConnId)) && nextConnId == old(nextConnId) + 1
        && Current() == old(Current())[id.value := NEW_SESSION]
        && events == old(events) + (if hasConnectCallback then [Connected(id.value)] else [])
      ensures running == old(running) && useSsl == old(useSsl) && port == old(port)
      ensures hasMessageCallback == old(hasMessageCallback) && hasConnectCallback == old(hasConnectCallback)
      ensures hasDisconnectCallback == old(hasDisconnectCallback)
    {
      if !handshakeOk {
        return None;
      }
      var c := Register(useSsl);
      if hasConnectCallback {
        events := events + [Connected(c)];
      }
      return Some(c);
    }

    /** The messages at the head of the reads, each handed to the message callback; stops at the first close or failure. */
    method DeliverMessages(id: ConnId, results: seq<ReadResult>) returns (consumed: nat)
      modifies this`events
      ensures consumed <= |results| && (consumed < |results| ==> !results[consumed].Text?)
      ensures events + ReadEvents(id, results[consumed..], hasMessageCallback, hasDisconnectCallback)
              == old(events) + ReadEvents(id, results, hasMessageCallback, hasDisconnectCallback)
      ensures ReadsConsumed(results) == consumed + ReadsConsumed(results[consumed..])
      ensures EndsSession(results) == EndsSession(results[consumed..])
    {
      ghost var target := old(events) + ReadEvents(id, results, hasMessageCallback, hasDisconnectCallback);
      consumed := 0;
      var rest := results;
      while rest != [] && rest[0].Text?
        invariant 0 <= consumed <= |results| && rest == results[consumed..]
        invariant EndsSession(results) == EndsSession(rest)
        invariant ReadsConsumed(results) == consumed + ReadsConsumed(rest)
        invariant events + ReadEvents(id, rest, hasMessageCallback, hasDisconnectCallback) == target
        decreases |rest|
      {
        TextStep(id, rest, hasMessageCallback, hasDisconnectCallback, events);
        events := events + (if hasMessageCallback then [Received(id, rest[0].text)] else []);
        consumed := consumed + 1;
        rest := rest[1..];
      }
    }

    /**
     * A session's read loop: each message is handed to the message
     * callback and the next read is started; the first close or failure
     * ends the session through `OnDisconnect` and stops the reading.
     */
    method ReadLoop(id: ConnId, results: seq<ReadResult>) returns (consumed: nat)
      requires Valid()
      modifies this
      ensures Valid()
      ensures consumed == ReadsConsumed(results)
      ensures events == old(events) + ReadEvents(id, results, hasMessageCallback, hasDisconnectCallback)
      ensures EndsSession(results) ==> sessions == old(sessions) - {id} && sslSessions == old(sslSessions) - {id}
      ensures !EndsSession(results) ==> sessions == old(sessions) && sslSessions == old(sslSessions)
      ensures running == old(running) && useSsl == old(useSsl) && port == old(port) && nextConnId == old(nextConnId)
      ensures hasMessageCallback == old(hasMessageCallback) && hasConnectCallback == old(hasConnectCallback)
      ensures hasDisconnectCallback == old(hasDisconnectCallback)
    {
      consumed := DeliverMessages(id, results);
      if consumed < |results| {
        ReadStep(id, results[consumed..], hasMessageCallback, hasDisconnectCallback);
        OnDisconnect(id);
        consumed := consumed + 1;
      }
    }
  }
}
