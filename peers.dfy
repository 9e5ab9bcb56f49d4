/**
 * One WebRTC peer connection per browser and the manager that owns them.
 * A peer has a connection state mapped from the library's, an optional
 * video track (H.264, H.265 or AV1 on payload type 96, the peer's SSRC) and
 * audio track (Opus on payload type 111, the next SSRC), named data channels
 * and send statistics. The manager keys peers by id, hands out one peer per
 * id, and broadcasts media to the connected ones.
 */
module Peers {
  import opened Bytes
  import opened Wrappers

  /** The connection states the WebRTC library reports. */
  datatype LibraryState = New | Connecting | Connected | Disconnected | Failed | Closed | Other

  datatype PeerState = CONNECTING | CONNECTED | DISCONNECTED | FAILED

  /** The state-change callback's translation of the library's state. */
  function MapState(s: LibraryState): (r: PeerState)
    ensures r == CONNECTED <==> s == Connected
    ensures r == DISCONNECTED <==> s == Disconnected
    ensures r == FAILED <==> s == Failed || s == Closed
    ensures r == CONNECTING <==> s in {New, Connecting, Other}
  {
    match s
    case New | Connecting => CONNECTING
    case Connected => CONNECTED
    case Disconnected => DISCONNECTED
    case Failed | Closed => FAILED
    case Other => CONNECTING
  }

  datatype MediaCodec = H264 | H265 | AV1 | Opus

  const VIDEO_PAYLOAD_TYPE: nat := 96
  const AUDIO_PAYLOAD_TYPE: nat := 111

  /** The codec a video track offers for the configured codec name; anything unknown falls back to H.264. */
  function VideoCodecFor(name: string): (c: MediaCodec)
    ensures c != Opus
    ensures c == H265 <==> name == "HEVC" || name == "H265"
    ensures c == AV1 <==> name == "AV1"
    ensures c == H264 <==> name != "HEVC" && name != "H265" && name != "AV1"
  {
    if name == "H264" then H264
    else if name == "HEVC" || name == "H265" then H265
    else if name == "AV1" then AV1
    else H264
  }

  /** `ssrc_ + 1` in 32 bits: the audio stream's SSRC, always different from the video stream's. */
  function AudioSsrc(ssrc: U32): (a: U32)
    ensures a != ssrc
    ensures ssrc < TWO_32 - 1 ==> a == ssrc + 1
    ensures ssrc == TWO_32 - 1 ==> a == 0
  {
    (ssrc + 1) % TWO_32
  }

  datatype DescriptionType = Offer | Answer

  /** Anything but "offer" is taken for an answer. */
  function DescriptionTypeOf(t: string): (d: DescriptionType)
    ensures d == Offer <==> t == "offer"
  {
    if t == "offer" then Offer else Answer
  }

  /** A send-only media track, and whether the library reports it open. */
  datatype Track = Track(codec: MediaCodec, payloadType: nat, ssrc: U32, open: bool)

  datatype ChannelMessage = Text(text: string) | Binary(bytes: seq<Byte>)

  /** `Peer::Stats`, with unbounded counters. */
  datatype Stats = Stats(bytesSentVideo: nat, bytesSentAudio: nat, packetsSentVideo: nat, packetsSentAudio: nat,
                         bytesReceived: nat)

  const NO_STATS := Stats(0, 0, 0, 0, 0)

  class Peer {
    const id: string
    /** Drawn at random by the source; a parameter here. */
    const ssrc: U32
    var state: PeerState
    /** Whether the library's peer connection exists. */
    var hasConnection: bool
    var videoTrack: Option<Track>
    var audioTrack: Option<Track>
    /** Data channels by label, and whether each is open. */
    var channels: map<string, bool>
    var remoteDescription: Option<(string, DescriptionType)>
    var remoteCandidates: seq<(string, string)>
    /** The local descriptions the library has been asked to generate. */
    var localDescriptions: seq<DescriptionType>
    var stats: Stats
    /** What the tracks and channels have been handed to send, in order. */
    var videoOut: seq<seq<Byte>>
    var audioOut: seq<seq<Byte>>
    var channelOut: seq<(string, ChannelMessage)>

    /** Everything a media send leaves alone. */
    function Link(): (PeerState, bool, Option<Track>, Option<Track>, map<string, bool>,
                      Option<(string, DescriptionType)>, seq<(string, string)>, seq<DescriptionType>,
                      seq<(string, ChannelMessage)>)
      reads this
    {
      (state, hasConnection, videoTrack, audioTrack, channels, remoteDescription, remoteCandidates, localDescriptions,
       channelOut)
    }

    /** Everything the signalling exchange leaves alone: the connection, tracks, channels, stats and what was sent. */
    function Media(): (PeerState, bool, Option<Track>, Option<Track>, map<string, bool>, Stats,
                       seq<seq<Byte>>, seq<seq<Byte>>, seq<(string, ChannelMessage)>)
      reads this
    {
      (state, hasConnection, videoTrack, audioTrack, channels, stats, videoOut, audioOut, channelOut)
    }

    /** What closing leaves: disconnected, no channels, no open track. */
    predicate Closed()
      reads this
    {
      state == DISCONNECTED && channels == map[] && !VideoOpen() && !AudioOpen()
    }

    predicate VideoOpen()
      reads this
    {
      videoTrack.Some? && videoTrack.value.open
    }

    predicate AudioOpen()
      reads this
    {
      audioTrack.Some? && audioTrack.value.open
    }

    /** `Peer::create`: a new peer is connecting, has its peer connection and nothing else. */
    constructor(peerId: string, randomSsrc: U32)
      ensures id == peerId && ssrc == randomSsrc
      ensures state == CONNECTING && hasConnection
      ensures videoTrack == None && audioTrack == None && channels == map[]
      ensures remoteDescription == None && remoteCandidates == [] && localDescriptions == []
      ensures stats == NO_STATS && videoOut == [] && audioOut == [] && channelOut == []
    {
      id := peerId;
      ssrc := randomSsrc;
      state := CONNECTING;
      hasConnection := true;
      videoTrack := None;
      audioTrack := None;
      channels := map[];
      remoteDescription := None;
      remoteCandidates := [];
      localDescriptions := [];
      stats := NO_STATS;
      videoOut := [];
      audioOut := [];
      channelOut := [];
    }

    /** The library reports a new connection state. */
    method OnStateChange(s: LibraryState)
      modifies this
      ensures state == MapState(s)
      ensures hasConnection == old(hasConnection) && videoTrack == old(videoTrack) && audioTrack == old(audioTrack)
      ensures channels == old(channels) && stats == old(stats)
      ensures videoOut == old(videoOut) && audioOut == old(audioOut) && channelOut == old(channelOut)
      ensures remoteDescription == old(remoteDescription) && remoteCandidates == old(remoteCandidates)
      ensures localDescriptions == old(localDescriptions)
    {
      state := MapState(s);
    }

    method SetRemoteDescription(sdp: string, t: string) returns (ok: bool)
      modifies this
      ensures ok == old(hasConnection)
      ensures ok ==> remoteDescription == Some((sdp, DescriptionTypeOf(t)))
      ensures !ok ==> remoteDescription == old(remoteDescription)
      ensures state == old(state) && hasConnection == old(hasConnection) && videoTrack == old(videoTrack)
      ensures audioTrack == old(audioTrack) && channels == old(channels) && stats == old(stats)
      ensures videoOut == old(videoOut) && audioOut == old(audioOut) && channelOut == old(channelOut)
      ensures remoteCandidates == old(remoteCandidates)
      ensures localDescriptions == old(localDescriptions)
    {
      if !hasConnection {
        return false;
      }
      remoteDescription := Some((sdp, DescriptionTypeOf(t)));
      return true;
    }

    method AddIceCandidate(candidate: string, mid: string) returns (ok: bool)
      modifies this
      ensures ok == old(hasConnection)
      ensures remoteCandidates == old(remoteCandidates) + (if ok then [(candidate, mid)] else [])
      ensures state == old(state) && hasConnection == old(hasConnection) && videoTrack == old(videoTrack)
      ensures audioTrack == old(audioTrack) && channels == old(channels) && stats == old(stats)
      ensures videoOut == old(videoOut) && audioOut == old(audioOut) && channelOut == old(channelOut)
      ensures remoteDescription == old(remoteDescription) && localDescriptions == old(localDescriptions)
    {
      if !hasConnection {
        return false;
      }
      remoteCandidates := remoteCandidates + [(candidate, mid)];
      return true;
    }

    /** Asks the library for a local offer ("offer") or answer (anything else). */
    method CreateDescription(t: string) returns (ok: bool)
      modifies this
      ensures ok == old(hasConnection)
      ensures localDescriptions == old(localDescriptions) + (if ok then [DescriptionTypeOf(t)] else [])
      ensures state == old(state) && hasConnection == old(hasConnection) && videoTrack == old(videoTrack)
      ensures audioTrack == old(audioTrack) && channels == old(channels) && stats == old(stats)
      ensures videoOut == old(videoOut) && audioOut == old(audioOut) && channelOut == old(channelOut)
      ensures remoteDescription == old(remoteDescription) && remoteCandidates == old(remoteCandidates)
    {
      if !hasConnection {
        return false;
      }
      localDescriptions := localDescriptions + [DescriptionTypeOf(t)];
      return true;
    }

    /** A send-only video track with the configured codec on payload type 96 and the peer's SSRC. */
    method AddVideoTrack(codec: string) returns (ok: bool)
      modifies this
      ensures ok == old(hasConnection)
      ensures ok ==> videoTrack == Some(Track(VideoCodecFor(codec), VIDEO_PAYLOAD_TYPE, ssrc, false))
      ensures !ok ==> videoTrack == old(videoTrack)
      ensures state == old(state) && hasConnection == old(hasConnection) && audioTrack == old(audioTrack)
      ensures channels == old(channels) && stats == old(stats)
      ensures videoOut == old(videoOut) && audioOut == old(audioOut) && channelOut == old(channelOut)
      ensures remoteDescription == old(remoteDescription) && remoteCandidates == old(remoteCandidates)
      ensures localDescriptions == old(localDescriptions)
    {
      if !hasConnection {
        return false;
      }
      videoTrack := Some(Track(VideoCodecFor(codec), VIDEO_PAYLOAD_TYPE, ssrc, false));
      return true;
    }

    /** A send-only Opus track on payload type 111 whose SSRC follows the video one. */
    method AddAudioTrack() returns (ok: bool)
      modifies this
      ensures ok == old(hasConnection)
      ensures ok ==> audioTrack == Some(Track(Opus, AUDIO_PAYLOAD_TYPE, AudioSsrc(ssrc), false))
      ensures !ok ==> audioTrack == old(audioTrack)
      ensures state == old(state) && hasConnection == old(hasConnection) && videoTrack == old(videoTrack)
      ensures channels == old(channels) && stats == old(stats)
      ensures videoOut == old(videoOut) && audioOut == old(audioOut) && channelOut == old(channelOut)
      ensures remoteDescription == old(remoteDescription) && remoteCandidates == old(remoteCandidates)
      ensures localDescriptions == old(localDescriptions)
    {
      if !hasConnection {
        return false;
      }
      audioTrack := Some(Track(Opus, AUDIO_PAYLOAD_TYPE, AudioSsrc(ssrc), false));
      return true;
    }

    /** The library opens the video track (its `onOpen` event). */
    method OnVideoOpen()
      modifies this
      ensures videoTrack == (if old(videoTrack).Some? then Some(old(videoTrack).value.(open := true)) else None)
      ensures state == old(state) && hasConnection == old(hasConnection) && audioTrack == old(audioTrack)
      ensures channels == old(channels) && stats == old(stats)
      ensures videoOut == old(videoOut) && audioOut == old(audioOut) && channelOut == old(channelOut)
      ensures remoteDescription == old(remoteDescription) && remoteCandidates == old(remoteCandidates)
      ensures localDescriptions == old(localDescriptions)
    {
      if videoTrack.Some? {
        videoTrack := Some(videoTrack.value.(open := true));
      }
    }

    /** The library opens the audio track (its `onOpen` event). */
    method OnAudioOpen()
      modifies this
      ensures audioTrack == (if old(audioTrack).Some? then Some(old(audioTrack).value.(open := true)) else None)
      ensures state == old(state) && hasConnection == old(hasConnection) && videoTrack == old(videoTrack)
      ensures channels == old(channels) && stats == old(stats)
      ensures videoOut == old(videoOut) && audioOut == old(audioOut) && channelOut == old(channelOut)
      ensures remoteDescription == old(remoteDescription) && remoteCandidates == old(remoteCandidates)
      ensures localDescriptions == old(localDescriptions)
    {
      if audioTrack.Some? {
        audioTrack := Some(audioTrack.value.(open := true));
      }
    }

    /**
     * Only an open video track sends: the packet is handed to it and the
     * video byte and packet counters grow. Nothing else changes.
     */
    method SendVideo(data: seq<Byte>) returns (ok: bool)
      modifies this
      ensures ok == old(VideoOpen())
      ensures videoOut == old(videoOut) + (if ok then [data] else [])
      ensures stats == (if ok then VideoSent(old(stats), |data|) else old(stats))
      ensures Link() == old(Link()) && audioOut == old(audioOut)
    {
      if !VideoOpen() {
        return false;
      }
      videoOut := videoOut + [data];
      stats := VideoSent(stats, |data|);
      return true;
    }

    /** Only an open audio track sends: the packet is handed to it and the audio counters grow. */
    method SendAudio(data: seq<Byte>) returns (ok: bool)
      modifies this
      ensures ok == old(AudioOpen())
      ensures audioOut == old(audioOut) + (if ok then [data] else [])
      ensures stats == (if ok then AudioSent(old(stats), |data|) else old(stats))
      ensures Link() == old(Link()) && videoOut == old(videoOut)
    {
      if !AudioOpen() {
        return false;
      }
      audioOut := audioOut + [data];
      stats := AudioSent(stats, |data|);
      return true;
    }

    /** A new data channel, closed until the library opens it. */
    method CreateDataChannel(channel: string) returns (ok: bool)
      modifies this
      ensures ok == old(hasConnection)
      ensures channels == (if ok then old(channels)[channel := false] else old(channels))
      ensures state == old(state) && hasConnection == old(hasConnection) && videoTrack == old(videoTrack)
      ensures audioTrack == old(audioTrack) && stats == old(stats)
      ensures videoOut == old(videoOut) && audioOut == old(audioOut) && channelOut == old(channelOut)
      ensures remoteDescription == old(remoteDescription) && remoteCandidates == old(remoteCandidates)
      ensures localDescriptions == old(localDescriptions)
    {
      if !hasConnection {
        return false;
      }
      channels := channels[channel := false];
      return true;
    }

    /** The browser announced a data channel, or the library opened one (its `onOpen` event). */
    method OnChannelOpen(channel: string)
      modifies this
      ensures channels == old(channels)[channel := true]
      ensures state == old(state) && hasConnection == old(hasConnection) && videoTrack == old(videoTrack)
      ensures audioTrack == old(audioTrack) && stats == old(stats)
      ensures videoOut == old(videoOut) && audioOut == old(audioOut) && channelOut == old(channelOut)
      ensures remoteDescription == old(remoteDescription) && remoteCandidates == old(remoteCandidates)
      ensures localDescriptions == old(localDescriptions)
    {
      channels := channels[channel := true];
    }

    /** `send_data` and `send_binary`: only an open channel of that label takes the message. */
    method SendOnChannel(channel: string, message: ChannelMessage) returns (ok: bool)
      modifies this
      ensures ok <==> channel in old(channels) && old(channels)[channel]
      ensures channelOut == old(channelOut) + (if ok then [(channel, message)] else [])
      ensures state == old(state) && hasConnection == old(hasConnection) && videoTrack == old(videoTrack)
      ensures audioTrack == old(audioTrack) && channels == old(channels) && stats == old(stats)
      ensures videoOut == old(videoOut) && audioOut == old(audioOut)
      ensures remoteDescription == old(remoteDescription) && remoteCandidates == old(remoteCandidates)
      ensures localDescriptions == old(localDescriptions)
    {
      if channel !in channels || !channels[channel] {
        return false;
      }
      channelOut := channelOut + [(channel, message)];
      return true;
    }

    /**
     * Closing drops the channels and both tracks and marks the peer
     * disconnected, so nothing more can be sent on it.
     */
    method Close()
      modifies this
      ensures state == DISCONNECTED && channels == map[] && videoTrack == None && audioTrack == None
      ensures !VideoOpen() && !AudioOpen()
      ensures hasConnection == old(hasConnection) && stats == old(stats)
      ensures videoOut == old(videoOut) && audioOut == old(audioOut) && channelOut == old(channelOut)
      ensures remoteDescription == old(remoteDescription) && remoteCandidates == old(remoteCandidates)
      ensures localDescriptions == old(localDescriptions)
    {
      channels := map[];
      videoTrack := None;
      audioTrack := None;
      state := DISCONNECTED;
    }
  }

  function VideoSent(s: Stats, size: nat): Stats
  {
    s.(bytesSentVideo := s.bytesSentVideo + size, packetsSentVideo := s.packetsSentVideo + 1)
  }

  function AudioSent(s: Stats, size: nat): Stats
  {
    s.(bytesSentAudio := s.bytesSentAudio + size, packetsSentAudio := s.packetsSentAudio + 1)
  }

  /**
   * Once a peer is closed, every video, audio and channel send on it is
   * refused and hands nothing to the library, whatever it carries.
   */
  method ClosedPeerSendsNothing(p: Peer, video: seq<Byte>, audio: seq<Byte>, channel: string, message: ChannelMessage)
    returns (videoSent: bool, audioSent: bool, channelSent: bool)
    modifies p
    ensures !videoSent && !audioSent && !channelSent
    ensures p.videoOut == old(p.videoOut) && p.audioOut == old(p.audioOut) && p.channelOut == old(p.channelOut)
    ensures p.stats == old(p.stats)
  {
    p.Close();
    videoSent := p.SendVideo(video);
    audioSent := p.SendAudio(audio);
    channelSent := p.SendOnChannel(channel, message);
  }

  const DEFAULT_STUN_SERVER: string := "stun:stun.l.google.com:19302"

  /**
   * The peer a broadcast reached, judged against its state when the
   * broadcast began: a connected peer with an open track took the packet.
   */
  twostate predicate VideoBroadcastTo(p: Peer, data: seq<Byte>)
    reads p
  {
    var sent := old(p.state) == CONNECTED && old(p.VideoOpen());
    p.Link() == old(p.Link()) && p.audioOut == old(p.audioOut)
    && p.videoOut == old(p.videoOut) + (if sent then [data] else [])
    && p.stats == (if sent then VideoSent(old(p.stats), |data|) else old(p.stats))
  }

  twostate predicate AudioBroadcastTo(p: Peer, data: seq<Byte>)
    reads p
  {
    var sent := old(p.state) == CONNECTED && old(p.AudioOpen());
    p.Link() == old(p.Link()) && p.videoOut == old(p.videoOut)
    && p.audioOut == old(p.audioOut) + (if sent then [data] else [])
    && p.stats == (if sent then AudioSent(old(p.stats), |data|) else old(p.stats))
  }

  class PeerManager {
    var peers: map<string, Peer>
    /** The ICE servers of the configuration new peers are created with. */
    var iceServers: seq<string>

    /** Each peer is filed under its own id, so distinct ids are distinct peers. */
    ghost predicate Valid()
      reads this
    {
      forall id :: id in peers ==> peers[id].id == id
    }

    /** Ids of the peers whose connection is up. */
    function ConnectedIds(): set<string>
      reads this, peers.Values
    {
      set id | id in peers && peers[id].state == CONNECTED
    }

    /** A fresh manager has no peers and Google's public STUN server. */
    constructor()
      ensures peers == map[] && iceServers == [DEFAULT_STUN_SERVER]
      ensures Valid()
    {
      peers := map[];
      iceServers := [DEFAULT_STUN_SERVER];
    }

    /** The existing peer of that id, or a new one filed under it. */
    method CreatePeer(id: string, randomSsrc: U32) returns (p: Peer)
      requires Valid()
      modifies this
      ensures Valid()
      ensures id in old(peers) ==> p == old(peers)[id] && peers == old(peers)
      ensures id !in old(peers) ==> fresh(p) && peers == old(peers)[id := p] && p.state == CONNECTING
      ensures p.id == id && peers == old(peers)[id := p] && iceServers == old(iceServers)
    {
      if id in peers {
        return peers[id];
      }
      p := new Peer(id, randomSsrc);
      peers := peers[id := p];
    }

    function FindPeer(id: string): (r: Option<Peer>)
      reads this
      ensures r.Some? <==> id in peers
      ensures r.Some? ==> r.value == peers[id]
    {
      if id in peers then Some(peers[id]) else None
    }

    /** A known peer is closed and forgotten; an unknown id changes nothing. */
    method RemovePeer(id: string)
      requires Valid()
      modifies this, if id in peers then {peers[id]} else {}
      ensures Valid()
      ensures peers == old(peers) - {id} && iceServers == old(iceServers)
      ensures id in old(peers) ==>
        old(peers)[id].state == DISCONNECTED && !old(peers)[id].VideoOpen()
        && !old(peers)[id].AudioOpen() && old(peers)[id].channels == map[]
    {
      if id in peers {
        var p := peers[id];
        p.Close();
        peers := peers - {id};
      }
    }

    /** Every connected peer with an open video track is handed the packet; no other peer changes. */
    method BroadcastVideo(data: seq<Byte>)
      requires Valid()
      modifies peers.Values
      ensures forall id :: id in peers ==> VideoBroadcastTo(peers[id], data)
    {
      var rest := peers.Keys;
      ghost var done: set<string> := {};
      while rest != {}
        invariant rest + done == peers.Keys && rest !! done
        invariant forall id :: id in done ==> VideoBroadcastTo(peers[id], data)
        invariant forall id :: id in rest ==> unchanged(peers[id])
        decreases rest
      {
        var id :| id in rest;
        var p := peers[id];
        if p.state == CONNECTED {
          var _ := p.SendVideo(data);
        }
        rest := rest - {id};
        done := done + {id};
      }
    }

    /** Every connected peer with an open audio track is handed the packet; no other peer changes. */
    method BroadcastAudio(data: seq<Byte>)
      requires Valid()
      modifies peers.Values
      ensures forall id :: id in peers ==> AudioBroadcastTo(peers[id], data)
    {
      var rest := peers.Keys;
      ghost var done: set<string> := {};
      while rest != {}
        invariant rest + done == peers.Keys && rest !! done
        invariant forall id :: id in done ==> AudioBroadcastTo(peers[id], data)
        invariant forall id :: id in rest ==> unchanged(peers[id])
        decreases rest
      {
        var id :| id in rest;
        var p := peers[id];
        if p.state == CONNECTED {
          var _ := p.SendAudio(data);
        }
        rest := rest - {id};
        done := done + {id};
      }
    }

    /** Counts, one peer at a time, the peers whose connection is up. */
    method ConnectedCount() returns (count: nat)
      ensures count == |ConnectedIds()|
    {
      count := 0;
      var rest := peers.Keys;
      ghost var counted: set<string> := {};
      while rest != {}
        invariant rest <= peers.Keys
        invariant counted == set id | id in peers && id !in rest && peers[id].state == CONNECTED
        invariant count == |counted|
        decreases rest
      {
        var id :| id in rest;
        if peers[id].state == CONNECTED {
          counted := counted + {id};
          count := count + 1;
        }
        rest := rest - {id};
      }
      assert counted == ConnectedIds();
    }
  }
}
