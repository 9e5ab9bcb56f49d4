/**
 * The GCP deployment's proxy process. Besides the header rewrite shared with
 * the other proxies it keeps what the auto-shutdown logic asks for: the set
 * of open signaling sessions, the time of the last activity on any of them
 * or on the HTTP side, and a ring of the 200 most recent server log entries.
 *
 * The wall clock is a parameter: times are milliseconds since the epoch.
 */
module GcpProxy {
  import opened Bytes
  import opened Wrappers
  import opened Proxy

  const MAX_LOGS: nat := 200
  const MS_PER_SECOND: int := 1000

  datatype LogEntry = LogEntry(time: int, level: string, message: string)

  /** The last MAX_LOGS entries of `s`: what a `deque(maxlen=200)` holds after appending all of `s`. */
  function Recent<T>(s: seq<T>): (r: seq<T>)
    ensures |r| <= MAX_LOGS
  {
    if |s| <= MAX_LOGS then s else s[|s| - MAX_LOGS..]
  }

  /**
   * Appending to a full ring drops its oldest entry; appending to a ring
   * with room keeps every entry.
   */
  lemma RecentSnoc<T>(s: seq<T>, e: T)
    ensures Recent(s + [e]) == if |Recent(s)| == MAX_LOGS then Recent(s)[1..] + [e] else Recent(s) + [e]
  {
    var t := s + [e];
    if |s| < MAX_LOGS {
    } else if |s| == MAX_LOGS {
      assert t[|t| - MAX_LOGS..] == s[1..] + [e];
    } else {
      assert t[|t| - MAX_LOGS..] == s[|s| - MAX_LOGS..][1..] + [e];
    }
  }

  /**
   * A `deque(maxlen=200)` after the entries of `s` were appended to an
   * empty one, one at a time: when full, an append first drops the oldest.
   */
  function Ring<T>(s: seq<T>): seq<T>
  {
    if s == [] then []
    else
      var d := Ring(s[..|s| - 1]);
      if |d| == MAX_LOGS then d[1..] + [s[|s| - 1]] else d + [s[|s| - 1]]
  }

  /** The closed form is the deque: the last MAX_LOGS entries, in append order. */
  lemma {:induction false} RecentIsRing<T>(s: seq<T>)
    ensures Recent(s) == Ring(s)
  {
    if s != [] {
      var front := s[..|s| - 1];
      RecentIsRing(front);
      RecentSnoc(front, s[|s| - 1]);
      assert front + [s[|s| - 1]] == s;
    }
  }

  /** A message that reaches the proxy on one side of a relayed session. */
  datatype Arrival = FromClient(event: ClientEvent) | FromUpstream(frame: Frame)

  /** The relay state after some arrivals: whether the client direction still runs, what was forwarded and when. */
  datatype RelayState = RelayState(clientOpen: bool, toUpstream: seq<string>, toClient: seq<Frame>, last: int)

  /**
   * One arrival: a client text is forwarded and counts as activity while the
   * client direction runs; anything else from the client ends that
   * direction; an upstream message is always forwarded and counts as activity.
   */
  function Step(s: RelayState, time: int, a: Arrival): RelayState
  {
    match a
    case FromClient(ClientText(t)) =>
      if s.clientOpen then s.(toUpstream := s.toUpstream + [t], last := time) else s
    case FromClient(_) => s.(clientOpen := false)
    case FromUpstream(f) => s.(toClient := s.toClient + [f], last := time)
  }

  /** All arrivals, in the order the two relay directions saw them. */
  function Run(start: int, arrivals: seq<(int, Arrival)>): RelayState
  {
    if arrivals == [] then RelayState(true, [], [], start)
    else
      var n := |arrivals| - 1;
      Step(Run(start, arrivals[..n]), arrivals[n].0, arrivals[n].1)
  }

  function ClientSide(arrivals: seq<(int, Arrival)>): seq<ClientEvent>
  {
    if arrivals == [] then []
    else
      var n := |arrivals| - 1;
      ClientSide(arrivals[..n]) + (if arrivals[n].1.FromClient? then [arrivals[n].1.event] else [])
  }

  function UpstreamSide(arrivals: seq<(int, Arrival)>): seq<Frame>
  {
    if arrivals == [] then []
    else
      var n := |arrivals| - 1;
      UpstreamSide(arrivals[..n]) + (if arrivals[n].1.FromUpstream? then [arrivals[n].1.frame] else [])
  }

  lemma {:induction false} TextsBeforeStopSnoc(cs: seq<ClientEvent>, e: ClientEvent)
    ensures TextsBeforeStop(cs + [e]) ==
      if |TextsBeforeStop(cs)| == |cs| && e.ClientText? then TextsBeforeStop(cs) + [e.text]
      else TextsBeforeStop(cs)
  {
    TextsBeforeStopMeaning(cs);
    if cs != [] && cs[0].ClientText? {
      assert (cs + [e])[1..] == cs[1..] + [e];
      TextsBeforeStopSnoc(cs[1..], e);
    } else if cs != [] {
      assert (cs + [e])[0] == cs[0];
    }
  }

  /**
   * However the two directions interleave, the upstream receives exactly the
   * client's texts up to its first non-text message, and the client receives
   * every upstream message in order: the interleaving changes neither side.
   */
  lemma {:induction false} RunProjects(start: int, arrivals: seq<(int, Arrival)>)
    ensures var s := Run(start, arrivals);
      s.toUpstream == TextsBeforeStop(ClientSide(arrivals))
      && s.clientOpen == (|TextsBeforeStop(ClientSide(arrivals))| == |ClientSide(arrivals)|)
      && s.toClient == UpstreamSide(arrivals)
  {
    if arrivals != [] {
      var n := |arrivals| - 1;
      RunProjects(start, arrivals[..n]);
      var cs := ClientSide(arrivals[..n]);
      if arrivals[n].1.FromClient? {
        var e := arrivals[n].1.event;
        assert ClientSide(arrivals) == cs + [e];
        TextsBeforeStopSnoc(cs, e);
        TextsBeforeStopMeaning(cs);
      } else {
        assert ClientSide(arrivals) == cs + [] == cs;
      }
    }
  }

  /**
   * The recorded activity time is the start time when nothing was relayed,
   * and the arrival time of an upstream message that arrived last.
   */
  lemma {:induction false} RunActivity(start: int, arrivals: seq<(int, Arrival)>)
    ensures var s := Run(start, arrivals);
      (s.toUpstream == [] && s.toClient == [] ==> s.last == start)
      && (arrivals != [] && arrivals[|arrivals| - 1].1.FromUpstream? ==> s.last == arrivals[|arrivals| - 1].0)
  {
    if arrivals != [] {
      var n := |arrivals| - 1;
      RunActivity(start, arrivals[..n]);
      var p := Run(start, arrivals[..n]);
      assert |Run(start, arrivals).toUpstream| >= |p.toUpstream|;
      assert |Run(start, arrivals).toClient| >= |p.toClient|;
    }
  }

  class ActivityTracker {
    var activeConnections: set<nat>
    var lastActivity: int
    var serverLogs: seq<LogEntry>
    /** Every entry ever logged, oldest first. */
    ghost var allLogs: seq<LogEntry>

    ghost predicate Valid()
      reads this
    {
      serverLogs == Recent(allLogs)
    }

    constructor(now: int)
      ensures Valid()
      ensures activeConnections == {} && lastActivity == now && serverLogs == [] && allLogs == []
    {
      activeConnections := {};
      lastActivity := now;
      serverLogs := [];
      allLogs := [];
    }

    /** Appends to the ring, dropping the oldest entry when it is full. */
    method AddServerLog(now: int, level: string, message: string)
      requires Valid()
      modifies this
      ensures Valid()
      ensures allLogs == old(allLogs) + [LogEntry(now, level, message)]
      ensures |serverLogs| <= MAX_LOGS && serverLogs[|serverLogs| - 1] == LogEntry(now, level, message)
      ensures activeConnections == old(activeConnections) && lastActivity == old(lastActivity)
    {
      var e := LogEntry(now, level, message);
      RecentSnoc(allLogs, e);
      if |serverLogs| == MAX_LOGS {
        serverLogs := serverLogs[1..] + [e];
      } else {
        serverLogs := serverLogs + [e];
      }
      allLogs := allLogs + [e];
    }

    method UpdateActivity(now: int)
      modifies this
      ensures lastActivity == now
      ensures activeConnections == old(activeConnections)
      ensures serverLogs == old(serverLogs) && allLogs == old(allLogs)
    {
      lastActivity := now;
    }

    /**
     * The number of open sessions, the whole seconds since the last
     * activity, truncated toward zero as `int()` truncates a float, and the
     * time of the last activity.
     */
    method GetStatus(now: int) returns (count: nat, idleSeconds: int, last: int)
      ensures count == |activeConnections| && last == lastActivity
      ensures now >= lastActivity ==>
        0 <= idleSeconds && idleSeconds * MS_PER_SECOND <= now - lastActivity < (idleSeconds + 1) * MS_PER_SECOND
      ensures now < lastActivity ==>
        idleSeconds <= 0 && (idleSeconds - 1) * MS_PER_SECOND < now - lastActivity <= idleSeconds * MS_PER_SECOND
    {
      count := |activeConnections|;
      idleSeconds := CDiv(now - lastActivity, MS_PER_SECOND);
      last := lastActivity;
    }

    /** The retained log entries: the most recent MAX_LOGS ones, oldest first. */
    method GetServerLogs() returns (logs: seq<LogEntry>)
      requires Valid()
      ensures logs == Recent(allLogs)
    {
      logs := serverLogs;
    }

    /** Opening a session: its id joins the set, activity is recorded, and the new total is logged. */
    method Accept(id: nat, now: int)
      requires Valid()
      modifies this
      ensures Valid()
      ensures activeConnections == old(activeConnections) + {id} && lastActivity == now
      ensures allLogs == old(allLogs) + [LogEntry(now, "info",
        "WebSocket client connected (total: " + Decimal(|activeConnections|) + ")")]
    {
      activeConnections := activeConnections + {id};
      UpdateActivity(now);
      AddServerLog(now, "info", "WebSocket client connected (total: " + Decimal(|activeConnections|) + ")");
    }

    /** Both relay directions, with every forwarded message recorded as activity. */
    method RelayMessages(arrivals: seq<(int, Arrival)>) returns (toUpstream: seq<string>, toClient: seq<Frame>)
      modifies this
      ensures toUpstream == TextsBeforeStop(ClientSide(arrivals))
      ensures toClient == UpstreamSide(arrivals)
      ensures lastActivity == Run(old(lastActivity), arrivals).last
      ensures activeConnections == old(activeConnections)
      ensures serverLogs == old(serverLogs) && allLogs == old(allLogs)
    {
      ghost var start := lastActivity;
      var clientOpen := true;
      toUpstream, toClient := [], [];
      var i := 0;
      while i < |arrivals|
        invariant 0 <= i <= |arrivals|
        invariant Run(start, arrivals[..i]) == RelayState(clientOpen, toUpstream, toClient, lastActivity)
        invariant activeConnections == old(activeConnections)
        invariant serverLogs == old(serverLogs) && allLogs == old(allLogs)
      {
        var (time, a) := arrivals[i];
        match a {
          case FromClient(ClientText(t)) =>
            if clientOpen {
              UpdateActivity(time);
              toUpstream := toUpstream + [t];
            }
          case FromClient(_) =>
            clientOpen := false;
          case FromUpstream(f) =>
            UpdateActivity(time);
            toClient := toClient + [f];
        }
        assert arrivals[..i + 1][..i] == arrivals[..i];
        i := i + 1;
      }
      assert arrivals[..i] == arrivals;
      RunProjects(start, arrivals);
    }

    /**
     * Closing a session on any exit path: the error, if any, is logged, the
     * id leaves the set, activity is recorded and the remaining total is logged.
     */
    method Finish(id: nat, now: int, error: Option<string>)
      requires Valid()
      modifies this
      ensures Valid()
      ensures activeConnections == old(activeConnections) - {id} && lastActivity == now
      ensures allLogs == old(allLogs)
        + (if error.Some? then [LogEntry(now, "error", "WebSocket proxy error: " + error.value)] else [])
        + [LogEntry(now, "info", "WebSocket client disconnected (remaining: " + Decimal(|activeConnections|) + ")")]
    {
      if error.Some? {
        AddServerLog(now, "error", "WebSocket proxy error: " + error.value);
      }
      activeConnections := activeConnections - {id};
      UpdateActivity(now);
      AddServerLog(now, "info", "WebSocket client disconnected (remaining: " + Decimal(|activeConnections|) + ")");
    }

    /**
     * One signaling session from accept to the `finally` block. A failed
     * upstream connection closes the client with 1011 and the error text;
     * otherwise the session ends only when both directions have ended.
     * Whatever happens, the id is gone from the set afterwards and the last
     * activity is the close time.
     */
    method WebsocketProxy(id: nat, openedAt: int, connect: Result<(), string>,
                          arrivals: seq<(int, Arrival)>, closedAt: int)
      returns (s: Session)
      requires Valid()
      modifies this
      ensures Valid()
      ensures activeConnections == old(activeConnections) - {id}
      ensures lastActivity == closedAt
      ensures connect.Err? ==> s == Session([], [], Some((CLOSE_INTERNAL_ERROR, connect.error)))
      ensures connect.Ok? ==>
        s == Session(TextsBeforeStop(ClientSide(arrivals)), UpstreamSide(arrivals), None)
      ensures |allLogs| == |old(allLogs)| + (if connect.Err? then 3 else 2)
    {
      Accept(id, openedAt);
      if connect.Err? {
        s := Session([], [], Some((CLOSE_INTERNAL_ERROR, connect.error)));
        Finish(id, closedAt, Some(connect.error));
      } else {
        var up, down := RelayMessages(arrivals);
        s := Session(up, down, None);
        Finish(id, closedAt, None);
      }
    }

    /** An HTTP request counts as activity, then is proxied with the framing rewrite. */
    method HttpProxy(now: int, req: Request, upstream: Result<UpstreamReply, string>)
      returns (sent: Upstream, reply: Reply)
      modifies this
      ensures lastActivity == now
      ensures activeConnections == old(activeConnections) && allLogs == old(allLogs) && serverLogs == old(serverLogs)
      ensures sent == UpstreamRequest(req)
      ensures upstream.Err? ==>
        reply == Reply(BAD_GATEWAY, map[], Text("Proxy error: " + upstream.error), Some("text/plain"))
      ensures upstream.Ok? ==>
        reply.status == upstream.value.status && reply.body == Bytes(upstream.value.body)
        && reply.mediaType == (if "content-type" in upstream.value.headers
                               then Some(upstream.value.headers["content-type"]) else None)
        && reply.headers == Framed(upstream.value.headers)
    {
      UpdateActivity(now);
      sent, reply := Proxy.HttpProxy(req, upstream, true);
    }
  }
}
