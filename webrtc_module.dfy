/**
 * The WebRTC module's start-up: reading the configuration once, clamping
 * the player limit, building the ICE server list (a STUN server, Google's
 * public one by default, and an optional TURN server whose URL is split
 * into host and port when credentials come with it), the UDP port range,
 * and the guards on start and stop. Starting and stopping the sub-modules
 * is recorded as flags; stopping closes every WebRTC peer.
 */
module WebrtcModule {
  import opened Wrappers
  import opened Peers

  /** How a TURN relay is reached. */
  datatype RelayType = TurnUdp | TurnTls

  /** An ICE server: a bare URL, or a TURN relay given by its parts and credentials. */
  datatype IceServer =
    | Url(url: string)
    | Relay(hostname: string, port: string, username: string, password: string, relay: RelayType)

  /** The `webrtc_*` settings of the configuration file. */
  datatype Settings = Settings(enabled: bool, maxPlayers: int, stunServer: string, turnServer: string,
                               turnUsername: string, turnPassword: string, portRangeMin: int, portRangeMax: int)

  /** What the peers are created with: the ICE servers, and the UDP port range if one is set. */
  datatype RtcConfiguration = RtcConfiguration(iceServers: seq<IceServer>, portRange: Option<(int, int)>)

  const DEFAULT_TURN_PORT: string := "3478"
  const DEFAULT_TURNS_PORT: string := "5349"

  /** `std::clamp(max_players, 1, 4)`. */
  function ClampPlayers(n: int): (r: int)
    ensures 1 <= r <= 4
    ensures 1 <= n <= 4 ==> r == n
    ensures n < 1 ==> r == 1
    ensures n > 4 ==> r == 4
  {
    if n < 1 then 1 else if n > 4 then 4 else n
  }

  predicate HasPrefix(s: string, prefix: string)
  {
    |prefix| <= |s| && s[..|prefix|] == prefix
  }

  /** `find(c)`: the first position of `c`, if any. */
  function Find(s: string, c: char): (r: Option<nat>)
    ensures r.None? <==> c !in s
    ensures r.Some? ==> r.value < |s| && s[r.value] == c && c !in s[..r.value]
  {
    if s == [] then None
    else if s[0] == c then Some(0)
    else match Find(s[1..], c)
      case None => None
      case Some(i) =>
        assert s[..i + 1] == [s[0]] + s[1..][..i];
        Some(i + 1)
  }

  /**
   * Splits `host:port` at the first colon; without a colon the whole text
   * is the host and the port is the default.
   */
  function SplitHostPort(hostname: string, defaultPort: string): (r: (string, string))
    ensures ':' !in hostname ==> r == (hostname, defaultPort)
    ensures ':' in hostname ==> r.0 + [':'] + r.1 == hostname && ':' !in r.0
  {
    match Find(hostname, ':')
    case None => (hostname, defaultPort)
    case Some(i) =>
      assert hostname == hostname[..i] + [':'] + hostname[i + 1..];
      (hostname[..i], hostname[i + 1..])
  }

  /** A host without a colon and any port come back apart from `host:port`. */
  lemma SplitJoined(host: string, port: string, defaultPort: string)
    requires ':' !in host
    ensures SplitHostPort(host + [':'] + port, defaultPort) == (host, port)
  {
    var s := host + [':'] + port;
    assert s[|host|] == ':';
    assert s[..|host|] == host;
    var i := Find(s, ':').value;
    assert i == |host|;
    assert s[i + 1..] == port;
  }

  /**
   * The TURN entry. Without a username the URL is passed on unchanged.
   * With one, "turns:" selects TLS on 5349 by default and "turn:" (or no
   * scheme) UDP on 3478, and a port after the first colon of the rest
   * replaces the default.
   */
  function TurnServer(url: string, username: string, password: string): (s: IceServer)
    ensures username == "" ==> s == Url(url)
    ensures username != "" ==> s.Relay? && s.username == username && s.password == password
    ensures username != "" ==> (s.relay == TurnTls <==> HasPrefix(url, "turns:"))
  {
    if username == "" then Url(url)
    else
      var relay := if HasPrefix(url, "turns:") then TurnTls else TurnUdp;
      var rest := if HasPrefix(url, "turns:") then url[6..] else if HasPrefix(url, "turn:") then url[5..] else url;
      var hostPort := SplitHostPort(rest, if relay == TurnTls then DEFAULT_TURNS_PORT else DEFAULT_TURN_PORT);
      Relay(hostPort.0, hostPort.1, username, password, relay)
  }

  /** "turn:host:port" with credentials is the relay at that host and port, over UDP. */
  lemma TurnUrlParsed(host: string, port: string, username: string, password: string)
    requires ':' !in host && username != ""
    ensures TurnServer("turn:" + host + ":" + port, username, password) == Relay(host, port, username, password, TurnUdp)
  {
    var url := "turn:" + host + ":" + port;
    assert !HasPrefix(url, "turns:") by {
      assert url[4] == ':';
    }
    assert HasPrefix(url, "turn:");
    assert url[5..] == host + [':'] + port;
    SplitJoined(host, port, DEFAULT_TURN_PORT);
  }

  /** "turns:host" with credentials is the relay at that host on the TURNS default port, over TLS. */
  lemma TurnsDefaultPort(host: string, username: string, password: string)
    requires ':' !in host && username != ""
    ensures TurnServer("turns:" + host, username, password) == Relay(host, DEFAULT_TURNS_PORT, username, password, TurnTls)
  {
    var url := "turns:" + host;
    assert HasPrefix(url, "turns:");
    assert url[6..] == host;
  }

  /** The peers' configuration: the STUN server first, the TURN server if set, and the port range only when both bounds are positive. */
  function RtcConfigFor(settings: Settings): (c: RtcConfiguration)
    ensures |c.iceServers| == if settings.turnServer == "" then 1 else 2
    ensures c.iceServers[0] == Url(if settings.stunServer == "" then DEFAULT_STUN_SERVER else settings.stunServer)
    ensures settings.turnServer != "" ==>
      c.iceServers[1] == TurnServer(settings.turnServer, settings.turnUsername, settings.turnPassword)
    ensures c.portRange.Some? <==> settings.portRangeMin > 0 && settings.portRangeMax > 0
    ensures c.portRange.Some? ==> c.portRange.value == (settings.portRangeMin, settings.portRangeMax)
  {
    var stun := Url(if settings.stunServer != "" then settings.stunServer else DEFAULT_STUN_SERVER);
    var turn := if settings.turnServer != "" then [TurnServer(settings.turnServer, settings.turnUsername, settings.turnPassword)] else [];
    var range := if settings.portRangeMin > 0 && settings.portRangeMax > 0 then Some((settings.portRangeMin, settings.portRangeMax)) else None;
    RtcConfiguration([stun] + turn, range)
  }

  class WebrtcModule {
    var initialized: bool
    var enabled: bool
    var maxPlayers: int
    /** The configuration handed to the peer manager, once set. */
    var rtcConfig: Option<RtcConfiguration>
    /** Whether the signaling server, input handler, video and audio senders were initialized. */
    var subModulesReady: bool
    /** Whether the signaling server and both senders have been started and not stopped since. */
    var streaming: bool

    constructor()
      ensures !initialized && !enabled && maxPlayers == 4 && rtcConfig.None? && !subModulesReady && !streaming
    {
      initialized := false;
      enabled := false;
      maxPlayers := 4;
      rtcConfig := None;
      subModulesReady := false;
      streaming := false;
    }

    /**
     * Reads the settings once: a second call changes nothing. A disabled
     * module is marked initialized and nothing else is set up; an enabled
     * one clamps the player limit, configures the peers and initializes the
     * sub-modules. The result is 0 on every path.
     */
    method Init(settings: Settings) returns (status: int)
      modifies this
      ensures status == 0
      ensures initialized
      ensures old(initialized) ==>
        enabled == old(enabled) && maxPlayers == old(maxPlayers) && rtcConfig == old(rtcConfig)
        && subModulesReady == old(subModulesReady)
      ensures !old(initialized) ==> enabled == settings.enabled
      ensures !old(initialized) && !settings.enabled ==>
        maxPlayers == old(maxPlayers) && rtcConfig == old(rtcConfig) && subModulesReady == old(subModulesReady)
      ensures !old(initialized) && settings.enabled ==>
        maxPlayers == ClampPlayers(settings.maxPlayers) && rtcConfig == Some(RtcConfigFor(settings)) && subModulesReady
      ensures streaming == old(streaming)
    {
      if initialized {
        return 0;
      }
      enabled := settings.enabled;
      if !enabled {
        initialized := true;
        return 0;
      }
      maxPlayers := ClampPlayers(settings.maxPlayers);
      rtcConfig := Some(RtcConfigFor(settings));
      subModulesReady := true;
      initialized := true;
      return 0;
    }

    /** Starts streaming only once the module is initialized and enabled. */
    method Start()
      modifies this
      ensures streaming == (old(streaming) || (initialized && enabled))
      ensures initialized == old(initialized) && enabled == old(enabled) && maxPlayers == old(maxPlayers)
      ensures rtcConfig == old(rtcConfig) && subModulesReady == old(subModulesReady)
    {
      if !initialized || !enabled {
        return;
      }
      streaming := true;
    }

    /** What closing a peer keeps: its connection, stats, outboxes, descriptions and candidates. */
    twostate predicate ClosingKept(p: Peer)
      reads p
    {
      p.hasConnection == old(p.hasConnection) && p.stats == old(p.stats)
      && p.videoOut == old(p.videoOut) && p.audioOut == old(p.audioOut) && p.channelOut == old(p.channelOut)
      && p.remoteDescription == old(p.remoteDescription) && p.remoteCandidates == old(p.remoteCandidates)
      && p.localDescriptions == old(p.localDescriptions)
    }

    /** Stops streaming and closes every WebRTC peer, only once the module is initialized and enabled. */
    method Stop(peerMgr: PeerManager)
      modifies this, peerMgr.peers.Values
      ensures initialized == old(initialized) && enabled == old(enabled) && maxPlayers == old(maxPlayers)
      ensures rtcConfig == old(rtcConfig) && subModulesReady == old(subModulesReady)
      ensures !(initialized && enabled) ==> streaming == old(streaming) && unchanged(peerMgr.peers.Values)
      ensures initialized && enabled ==> !streaming
      ensures initialized && enabled ==>
        forall p :: p in peerMgr.peers.Values ==>
          p.state == DISCONNECTED && p.channels == map[] && p.videoTrack == None && p.audioTrack == None
      ensures initialized && enabled ==>
        forall p :: p in peerMgr.peers.Values ==> ClosingKept(p)
    {
      if !initialized || !enabled {
        return;
      }
      streaming := false;
      var rest := peerMgr.peers.Values;
      while rest != {}
        modifies peerMgr.peers.Values
        invariant rest <= peerMgr.peers.Values
        invariant initialized && enabled && !streaming
        invariant maxPlayers == old(maxPlayers) && rtcConfig == old(rtcConfig) && subModulesReady == old(subModulesReady)
        invariant forall p :: p in peerMgr.peers.Values - rest ==>
          p.state == DISCONNECTED && p.channels == map[] && p.videoTrack == None && p.audioTrack == None
        invariant forall p :: p in peerMgr.peers.Values ==> ClosingKept(p)
        decreases rest
      {
        var p :| p in rest;
        p.Close();
        rest := rest - {p};
      }
    }

    function IsEnabled(): (r: bool)
      reads this
      ensures r == enabled
    {
      enabled
    }

    /** The player limit: 4 until an enabled module reads its settings, then the clamped setting. */
    function MaxPlayers(): (r: int)
      reads this
      ensures r == maxPlayers
    {
      maxPlayers
    }
  }
}
