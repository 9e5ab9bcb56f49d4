/**
 * The reverse proxies that put Sunshine's HTTPS configuration server and its
 * secure-websocket signaling server behind one public port. The same proxy is
 * written three times for the Modal deployment (the Discord activity app, the
 * plain app and the stand-alone proxy) and once more for GCP, which also
 * rewrites the framing headers; this module models what they share:
 * the upstream URL, the request and response header filters, the websocket
 * relay and the 502 reply.
 */
module Proxy {
  import opened Bytes
  import opened Wrappers

  const UPSTREAM_HTTP_BASE: string := "https://127.0.0.1:47990/"
  const UPSTREAM_SIGNALING: string := "wss://127.0.0.1:47991"

  /** Hop-by-hop headers (section 13.5.1 of RFC 2616) plus `host`, never forwarded. */
  const HOP_BY_HOP: seq<string> :=
    ["connection", "keep-alive", "proxy-authenticate", "proxy-authorization",
     "te", "trailers", "transfer-encoding", "upgrade", "host"]
  /** Body-framing headers the proxy recomputes. */
  const ENCODING_HEADERS: seq<string> := ["content-encoding", "content-length"]
  /** Headers that would stop the page from being embedded in a frame. */
  const FRAMING_HEADERS: seq<string> := ["x-frame-options", "content-security-policy"]
  const CSP: string := "content-security-policy"
  const CSP_VALUE: string := "frame-ancestors 'self' https://*.sels.tech"
  /** Websocket close code for an internal error (section 7.4.1 of RFC 6455). */
  const CLOSE_INTERNAL_ERROR: int := 1011
  const BAD_GATEWAY: int := 502

  type Headers = map<string, string>

  function LowerChar(c: char): (d: char)
    ensures 'A' <= c <= 'Z' ==> d as int == c as int + 32
    ensures !('A' <= c <= 'Z') ==> d == c
  {
    if 'A' <= c <= 'Z' then (c as int + 32) as char else c
  }

  /** ASCII lower-casing, which is all header names need (they are ASCII tokens). */
  function Lower(s: string): (r: string)
    ensures |r| == |s| && forall i :: 0 <= i < |s| ==> r[i] == LowerChar(s[i])
  {
    if s == [] then [] else [LowerChar(s[0])] + Lower(s[1..])
  }

  lemma {:induction false} LowerIdempotent(s: string)
    ensures Lower(Lower(s)) == Lower(s)
  {
    var l := Lower(s);
    assert forall i :: 0 <= i < |s| ==> Lower(l)[i] == LowerChar(LowerChar(s[i])) == l[i];
  }

  /** The headers forwarded upstream: every one whose lower-cased name is not hop-by-hop. */
  function FilterRequestHeaders(h: Headers): (r: Headers)
    ensures r.Keys <= h.Keys
  {
    map k | k in h && Lower(k) !in HOP_BY_HOP :: h[k]
  }

  /**
   * No hop-by-hop header reaches the upstream server, whatever the case of
   * its name; every other header is forwarded with its value unchanged; and
   * filtering twice removes nothing more.
   */
  lemma RequestFilterSound(h: Headers)
    ensures var r := FilterRequestHeaders(h);
      (forall k :: k in r ==> Lower(k) !in HOP_BY_HOP && r[k] == h[k])
      && (forall k :: k in h && Lower(k) !in HOP_BY_HOP ==> k in r)
      && FilterRequestHeaders(r) == r
  {
  }

  /** The headers left after removing each of `names` by exact name. */
  function Without(h: Headers, names: seq<string>): (r: Headers)
    ensures r.Keys <= h.Keys
  {
    map k | k in h && k !in names :: h[k]
  }

  /** `response_headers.pop(name, None)` for each name, in order. */
  method PopAll(h: Headers, names: seq<string>) returns (r: Headers)
    ensures r == Without(h, names)
  {
    r := h;
    var i := 0;
    while i < |names|
      invariant 0 <= i <= |names|
      invariant r == Without(h, names[..i])
    {
      r := r - {names[i]};
      assert names[..i + 1] == names[..i] + [names[i]];
      i := i + 1;
    }
    assert names[..i] == names;
  }

  /**
   * Response headers as the Modal proxies return them. The HTTP client
   * hands them over with lower-cased names, so removal by exact name removes
   * every hop-by-hop and body-framing header.
   */
  function Sanitized(h: Headers): Headers
  {
    Without(h, HOP_BY_HOP + ENCODING_HEADERS)
  }

  /**
   * Response headers as the GCP proxy returns them: sanitised as above,
   * the upstream framing policy removed and replaced by one that lets the
   * page be framed by the deployment's own sites.
   */
  function Framed(h: Headers): Headers
  {
    Without(Sanitized(h), FRAMING_HEADERS)[CSP := CSP_VALUE]
  }

  method SanitizeResponse(h: Headers) returns (r: Headers)
    ensures r == Sanitized(h)
  {
    r := PopAll(h, HOP_BY_HOP + ENCODING_HEADERS);
  }

  method SanitizeResponseForFraming(h: Headers) returns (r: Headers)
    ensures r == Framed(h)
  {
    r := SanitizeResponse(h);
    r := PopAll(r, FRAMING_HEADERS);
    r := r[CSP := CSP_VALUE];
  }

  /**
   * A sanitised response keeps every end-to-end header with its value and
   * none of the hop-by-hop or body-framing ones; sanitising again changes
   * nothing.
   */
  lemma SanitizedMeaning(h: Headers)
    ensures forall k :: k in Sanitized(h) <==> k in h && k !in HOP_BY_HOP && k !in ENCODING_HEADERS
    ensures forall k :: k in Sanitized(h) ==> Sanitized(h)[k] == h[k]
    ensures Sanitized(Sanitized(h)) == Sanitized(h)
  {
  }

  /**
   * The GCP response always carries exactly the deployment's framing policy
   * and no `x-frame-options`; every other header it carries came from
   * upstream unchanged; every end-to-end header other than the framing ones
   * survives; and rewriting twice gives the same headers as rewriting once.
   */
  lemma FramedMeaning(h: Headers)
    ensures var r := Framed(h);
      CSP in r && r[CSP] == CSP_VALUE && "x-frame-options" !in r
      && (forall k :: k in r && k != CSP ==> k in h && r[k] == h[k])
      && (forall k :: k in h && k !in HOP_BY_HOP && k !in ENCODING_HEADERS && k !in FRAMING_HEADERS ==> k in r)
      && (forall k :: k in HOP_BY_HOP || k in ENCODING_HEADERS ==> k !in r)
  {
  }

  lemma FramedIdempotent(h: Headers)
    ensures Framed(Framed(h)) == Framed(h)
  {
    var r := Framed(h);
    assert CSP !in HOP_BY_HOP + ENCODING_HEADERS;
    assert Sanitized(r) == r;
    assert Without(r, FRAMING_HEADERS) == Without(Sanitized(h), FRAMING_HEADERS);
  }

  /** The upstream URL for a proxied request: `path` under the base, then the query if any. */
  function TargetUrl(path: string, query: string): (url: string)
    ensures |url| >= |UPSTREAM_HTTP_BASE| && url[..|UPSTREAM_HTTP_BASE|] == UPSTREAM_HTTP_BASE
  {
    UPSTREAM_HTTP_BASE + path + (if query != [] then "?" + query else "")
  }

  /** Where the first `?` is, if any. */
  function FindQuestion(s: string): (r: Option<nat>)
    ensures r.Some? ==> r.value < |s| && s[r.value] == '?' && '?' !in s[..r.value]
    ensures r.None? ==> '?' !in s
  {
    if s == [] then None
    else if s[0] == '?' then Some(0)
    else match FindQuestion(s[1..])
      case None => None
      case Some(i) => assert s[..i + 1] == [s[0]] + s[1..][..i]; Some(i + 1)
  }

  /** How the upstream server reads a URL back into path and query. */
  function SplitTarget(url: string): (pq: (string, string))
    requires |url| >= |UPSTREAM_HTTP_BASE|
  {
    var rest := url[|UPSTREAM_HTTP_BASE|..];
    match FindQuestion(rest)
      case None => (rest, "")
      case Some(i) => (rest[..i], rest[i + 1..])
  }

  /**
   * The upstream server reads back the path and query as the framework
   * handed them to the proxy, as long as the path holds no `?` of its own.
   */
  lemma TargetUrlRoundTrip(path: string, query: string)
    requires '?' !in path
    ensures SplitTarget(TargetUrl(path, query)) == (path, query)
  {
    var url := TargetUrl(path, query);
    var rest := url[|UPSTREAM_HTTP_BASE|..];
    if query == [] {
      assert rest == path;
    } else {
      assert rest == path + "?" + query;
      QuestionAfter(path, query);
      assert rest[..|path|] == path && rest[|path| + 1..] == query;
    }
  }

  lemma {:induction false} QuestionAfter(path: string, query: string)
    requires '?' !in path
    ensures FindQuestion(path + "?" + query) == Some(|path|)
  {
    if path != [] {
      assert (path + "?" + query)[1..] == path[1..] + "?" + query;
      QuestionAfter(path[1..], query);
    }
  }

  datatype Body = Bytes(data: seq<Byte>) | Text(text: string)

  /**
   * A client request as the framework hands it over: `path` is already
   * percent-decoded and `query` is the framework's re-encoding of the parsed
   * query parameters.
   */
  datatype Request = Request(verb: string, path: string, query: string, headers: Headers, body: seq<Byte>)

  /** What the proxy sends upstream. */
  datatype Upstream = Upstream(verb: string, url: string, headers: Headers, body: seq<Byte>)

  datatype UpstreamReply = UpstreamReply(status: int, headers: Headers, body: seq<Byte>)

  datatype Reply = Reply(status: int, headers: Headers, body: Body, mediaType: Option<string>)

  /** The request the proxy makes of the upstream server for a client request. */
  function UpstreamRequest(req: Request): (u: Upstream)
    ensures u.verb == req.verb && u.body == req.body
    ensures u.headers.Keys <= req.headers.Keys
  {
    Upstream(req.verb, TargetUrl(req.path, req.query), FilterRequestHeaders(req.headers), req.body)
  }

  /**
   * The reply to the client: the upstream status and body with sanitised
   * headers and the upstream content type, or 502 with the error text when
   * the upstream request failed. `framing` selects the GCP header rewrite.
   */
  method HttpProxy(req: Request, upstream: Result<UpstreamReply, string>, framing: bool)
    returns (sent: Upstream, reply: Reply)
    ensures sent == UpstreamRequest(req)
    ensures upstream.Err? ==>
      reply == Reply(BAD_GATEWAY, map[], Text("Proxy error: " + upstream.error), Some("text/plain"))
    ensures upstream.Ok? ==>
      reply.status == upstream.value.status && reply.body == Bytes(upstream.value.body)
      && reply.mediaType == (if "content-type" in upstream.value.headers
                             then Some(upstream.value.headers["content-type"]) else None)
      && reply.headers == (if framing then Framed(upstream.value.headers) else Sanitized(upstream.value.headers))
  {
    sent := UpstreamRequest(req);
    if upstream.Err? {
      reply := Reply(BAD_GATEWAY, map[], Text("Proxy error: " + upstream.error), Some("text/plain"));
      return;
    }
    var resp := upstream.value;
    var headers;
    if framing {
      headers := SanitizeResponseForFraming(resp.headers);
    } else {
      headers := SanitizeResponse(resp.headers);
    }
    var mediaType := if "content-type" in resp.headers then Some(resp.headers["content-type"]) else None;
    reply := Reply(resp.status, headers, Bytes(resp.body), mediaType);
  }

  /** A websocket message as the upstream signaling server sends it. */
  datatype Frame = TextFrame(text: string) | BinaryFrame(data: seq<Byte>)

  /** What the browser side of the websocket delivers to `receive_text`. */
  datatype ClientEvent = ClientText(text: string) | ClientBinary(data: seq<Byte>) | ClientGone

  /** The texts the client sent before its first binary message or its disconnect. */
  function TextsBeforeStop(events: seq<ClientEvent>): seq<string>
  {
    if events == [] || !events[0].ClientText? then []
    else [events[0].text] + TextsBeforeStop(events[1..])
  }

  /**
   * The forwarded texts are, in order, the client's messages up to the
   * first one that is not text (on which `receive_text` raises) or to the
   * disconnect; nothing after that point is forwarded.
   */
  lemma {:induction false} TextsBeforeStopMeaning(events: seq<ClientEvent>)
    ensures var t := TextsBeforeStop(events);
      |t| <= |events|
      && (forall i :: 0 <= i < |t| ==> events[i] == ClientText(t[i]))
      && (|t| < |events| ==> !events[|t|].ClientText?)
  {
    if events != [] && events[0].ClientText? {
      TextsBeforeStopMeaning(events[1..]);
    }
  }

  /** The client-to-upstream half of the relay. */
  method ClientToUpstream(events: seq<ClientEvent>) returns (sent: seq<string>)
    ensures sent == TextsBeforeStop(events)
  {
    sent := [];
    var i := 0;
    while i < |events| && events[i].ClientText?
      invariant 0 <= i <= |events|
      invariant sent + TextsBeforeStop(events[i..]) == TextsBeforeStop(events)
    {
      assert events[i..][1..] == events[i + 1..];
      sent := sent + [events[i].text];
      i := i + 1;
    }
  }

  /**
   * The upstream-to-client half: each upstream message is passed on in
   * order and keeps its kind, text as text and binary as binary.
   */
  method UpstreamToClient(frames: seq<Frame>) returns (sent: seq<Frame>)
    ensures |sent| == |frames|
    ensures forall i :: 0 <= i < |frames| ==>
      (frames[i].TextFrame? ==> sent[i] == TextFrame(frames[i].text))
      && (frames[i].BinaryFrame? ==> sent[i] == BinaryFrame(frames[i].data))
  {
    sent := [];
    for i := 0 to |frames|
      invariant |sent| == i
      invariant forall j :: 0 <= j < i ==>
        (frames[j].TextFrame? ==> sent[j] == TextFrame(frames[j].text))
        && (frames[j].BinaryFrame? ==> sent[j] == BinaryFrame(frames[j].data))
    {
      match frames[i]
      case TextFrame(t) => sent := sent + [TextFrame(t)];
      case BinaryFrame(b) => sent := sent + [BinaryFrame(b)];
    }
  }

  /** The outcome of one proxied websocket session. */
  datatype Session = Session(toUpstream: seq<string>, toClient: seq<Frame>, close: Option<(int, string)>)

  /**
   * A relay session: when the upstream connection cannot be made the client
   * is closed with 1011 and the error text; otherwise both directions run to
   * their own end (the session waits for both) and nothing is closed.
   */
  method Relay(connect: Result<(), string>, events: seq<ClientEvent>, frames: seq<Frame>)
    returns (s: Session)
    ensures connect.Err? ==> s == Session([], [], Some((CLOSE_INTERNAL_ERROR, connect.error)))
    ensures connect.Ok? ==> s.close == None && s.toUpstream == TextsBeforeStop(events) && s.toClient == frames
  {
    if connect.Err? {
      return Session([], [], Some((CLOSE_INTERNAL_ERROR, connect.error)));
    }
    var up := ClientToUpstream(events);
    var down := UpstreamToClient(frames);
    assert down == frames by {
      forall i | 0 <= i < |frames| ensures down[i] == frames[i] {
        match frames[i]
        case TextFrame(_) =>
        case BinaryFrame(_) =>
      }
    }
    s := Session(up, down, None);
  }
}
