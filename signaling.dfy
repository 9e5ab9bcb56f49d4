/**
 * The WebSocket signaling server. Each WebSocket connection gets the peer id
 * "peer_<connection id>"; both directions of that pairing are kept. Client
 * messages are JSON objects dispatched on their "type": joining the single
 * session "STREAM" (the first peer creates it and becomes host, later ones
 * are spectators), leaving, becoming a player, claiming and releasing
 * gamepads, SDP and ICE exchange, the host's keyboard, mouse and quality
 * settings. Replies and notices go out through the peer's connection.
 */
module Signaling {
  import opened Wrappers
  import opened Bytes
  import opened Rooms
  import opened Peers

  type ConnId = nat

  /** Fixed room code of the single-session mode. */
  const SINGLE_SESSION_CODE: string := "STREAM"
  const INPUT_CHANNEL: string := "input"

  // ---------------------------------------------------------------- peer ids

  function PeerIdFor(conn: ConnId): PeerId
  {
    "peer_" + Decimal(conn)
  }

  /** Distinct connections get distinct peer ids. */
  lemma PeerIdInjective(a: ConnId, b: ConnId)
    requires PeerIdFor(a) == PeerIdFor(b)
    ensures a == b
  {
    assert PeerIdFor(a)[5..] == Decimal(a) && PeerIdFor(b)[5..] == Decimal(b);
    DecimalInjective(a, b);
  }

  /** The two connection maps are each other's inverse, and each peer id is derived from its connection id. */
  ghost predicate ConnectionsValid(wsToPeer: map<ConnId, PeerId>, peerToWs: map<PeerId, ConnId>)
  {
    (forall c {:trigger PeerIdFor(c)} :: c in wsToPeer ==> wsToPeer[c] == PeerIdFor(c))
    && (forall c :: c in wsToPeer ==> wsToPeer[c] in peerToWs && peerToWs[wsToPeer[c]] == c)
    && (forall id :: id in peerToWs ==> peerToWs[id] in wsToPeer && wsToPeer[peerToWs[id]] == id)
  }

  // ---------------------------------------------------------------- messages

  /**
   * A JSON value as far as the dispatcher looks into it. An integer literal
   * is a `JInt`; a number with a fraction or an exponent is a `JFloat`.
   */
  datatype Json = JString(s: string) | JInt(i: int) | JFloat(r: real) | JBool(b: bool) | JNull | JCompound

  /** A parsed message; `None` when the text is not JSON or not a JSON object. */
  type JsonObject = map<string, Json>

  /**
   * `msg.value(key, default)` for a string: the default when the key is
   * absent, the string when it is one, and a type error otherwise.
   */
  function StringField(msg: JsonObject, key: string, default: string): (r: Option<string>)
    ensures key !in msg ==> r == Some(default)
    ensures key in msg ==> (r.Some? <==> msg[key].JString?)
  {
    if key !in msg then Some(default)
    else if msg[key].JString? then Some(msg[key].s)
    else None
  }

  /**
   * `msg.value(key, default)` for an int: numbers and booleans convert,
   * anything else is a type error. The conversion is `static_cast<int>`:
   * a number with a fraction is truncated toward zero, and an integer
   * outside `int` keeps its low 32 bits.
   */
  function IntField(msg: JsonObject, key: string, default: int): (r: Option<int>)
    ensures key !in msg ==> r == Some(default)
    ensures key in msg ==> (r.Some? <==> msg[key].JInt? || msg[key].JFloat? || msg[key].JBool?)
    ensures key in msg && r.Some? ==> -0x8000_0000 <= r.value < 0x8000_0000
    ensures key in msg && msg[key].JInt? ==> (r.value - msg[key].i) % TWO_32 == 0
    ensures key in msg && msg[key].JInt? && -0x8000_0000 <= msg[key].i < 0x8000_0000 ==> r == Some(msg[key].i)
    ensures key in msg && msg[key].JFloat? && -0x8000_0000 as real < msg[key].r < 0x8000_0000 as real ==>
      r.value as real - 1.0 < msg[key].r < r.value as real + 1.0 && (r.value < 0 ==> msg[key].r < 0.0)
      && (r.value > 0 ==> msg[key].r > 0.0)
  {
    if key !in msg then Some(default)
    else match msg[key]
      case JInt(i) => Some(ToInt32(i))
      case JFloat(x) => Some(ToInt32(Truncate(x)))
      case JBool(b) => Some(if b then 1 else 0)
      case _ => None
  }

  /**
   * The three conversions `msg.value(key, 0)` performs on numbers: 2500.7
   * gives 2500, -2.5 gives -2, and 4294968296 (2^32 + 1000) gives 1000.
   */
  lemma IntFieldConversions()
    ensures IntField(map["bitrate" := JFloat(2500.7)], "bitrate", 0) == Some(2500)
    ensures IntField(map["bitrate" := JFloat(-2.5)], "bitrate", 0) == Some(-2)
    ensures IntField(map["bitrate" := JInt(4294968296)], "bitrate", 0) == Some(1000)
  {
  }

  /** `msg.value(key, default)` for a bool: only a boolean converts. */
  function BoolField(msg: JsonObject, key: string, default: bool): (r: Option<bool>)
    ensures key !in msg ==> r == Some(default)
    ensures key in msg ==> (r.Some? <==> msg[key].JBool?)
  {
    if key !in msg then Some(default)
    else if msg[key].JBool? then Some(msg[key].b)
    else None
  }

  datatype Request =
    | Join(playerName: string)
    | Leave
    | JoinAsPlayer
    | ClaimGamepad(gamepadId: int)
    | ReleaseGamepad(serverSlot: int)
    | Sdp(sdp: string, sdpType: string)
    | Ice(candidate: string, mid: string)
    | SetGuestKeyboard(target: PeerId, enabled: bool)
    | SetGuestMouse(target: PeerId, enabled: bool)
    | SetQuality(bitrate: int, framerate: int, width: int, height: int)
    | Unknown(kind: string)

  /**
   * `on_message`'s dispatch: the request a message asks for, or `None` when
   * parsing or reading a field throws (the client then gets `parse_error`).
   */
  function Decode(raw: Option<JsonObject>): Option<Request>
  {
    if raw.None? then None
    else
      var msg := raw.value;
      var kind :- StringField(msg, "type", "");
      if kind == "join" || kind == "create_room" || kind == "join_room" then
        var name :- StringField(msg, "player_name", "Player");
        Some(Join(name))
      else if kind == "leave_room" || kind == "leave" then Some(Leave)
      else if kind == "join_as_player" then Some(JoinAsPlayer)
      else if kind == "claim_gamepad" then
        var id :- IntField(msg, "gamepad_id", 0);
        Some(ClaimGamepad(id))
      else if kind == "release_gamepad" then
        var slot :- IntField(msg, "server_slot", 0);
        Some(ReleaseGamepad(slot))
      else if kind == "sdp" then
        var sdp :- StringField(msg, "sdp", "");
        var t :- StringField(msg, "sdp_type", "");
        Some(Sdp(sdp, t))
      else if kind == "ice" then
        var candidate :- StringField(msg, "candidate", "");
        var mid :- StringField(msg, "mid", "");
        Some(Ice(candidate, mid))
      else if kind == "set_guest_keyboard" then
        var target :- StringField(msg, "peer_id", "");
        var enabled :- BoolField(msg, "enabled", false);
        Some(SetGuestKeyboard(target, enabled))
      else if kind == "set_guest_mouse" then
        var target :- StringField(msg, "peer_id", "");
        var enabled :- BoolField(msg, "enabled", false);
        Some(SetGuestMouse(target, enabled))
      else if kind == "set_quality" then
        var bitrate :- IntField(msg, "bitrate", 10000);
        var framerate :- IntField(msg, "framerate", 60);
        var width :- IntField(msg, "width", 1920);
        var height :- IntField(msg, "height", 1080);
        Some(SetQuality(bitrate, framerate, width, height))
      else Some(Unknown(kind))
  }

  const KNOWN_TYPES: set<string> := {"join", "create_room", "join_room", "leave_room", "leave", "join_as_player",
                                      "claim_gamepad", "release_gamepad", "sdp", "ice", "set_guest_keyboard",
                                      "set_guest_mouse", "set_quality"}

  /** The three join spellings all join the session, with "Player" as the default name. */
  lemma JoinAliases(msg: JsonObject, kind: string)
    requires kind in {"join", "create_room", "join_room"} && "type" in msg && msg["type"] == JString(kind)
    ensures "player_name" !in msg ==> Decode(Some(msg)) == Some(Join("Player"))
    ensures "player_name" in msg && msg["player_name"].JString? ==> Decode(Some(msg)) == Some(Join(msg["player_name"].s))
    ensures "player_name" in msg && !msg["player_name"].JString? ==> Decode(Some(msg)) == None
  {
  }

  /** "leave" and "leave_room" both leave. */
  lemma LeaveAliases(msg: JsonObject)
    requires "type" in msg && msg["type"] in {JString("leave"), JString("leave_room")}
    ensures Decode(Some(msg)) == Some(Leave)
  {
  }

  /** A message whose type is a string no handler knows is answered with `unknown_type`, a missing type being "". */
  lemma UnknownTypes(msg: JsonObject)
    requires "type" !in msg || (msg["type"].JString? && msg["type"].s !in KNOWN_TYPES)
    ensures Decode(Some(msg)) == Some(Unknown(if "type" in msg then msg["type"].s else ""))
  {
  }

  /** Text that is not a JSON object, or a type field that is not a string, is a parse error. */
  lemma ParseErrors(raw: Option<JsonObject>)
    requires raw.None? || ("type" in raw.value && !raw.value["type"].JString?)
    ensures Decode(raw) == None
  {
  }

  /** `std::clamp`. */
  function Clamp(v: int, lo: int, hi: int): (r: int)
    requires lo <= hi
    ensures lo <= r <= hi
    ensures lo <= v <= hi ==> r == v
    ensures v < lo ==> r == lo
    ensures v > hi ==> r == hi
  {
    if v < lo then lo else if v > hi then hi else v
  }

  const MIN_BITRATE := 1000
  const MAX_BITRATE := 150000
  const MIN_FRAMERATE := 30
  const MAX_FRAMERATE := 240
  const MIN_WIDTH := 640
  const MAX_WIDTH := 7680
  const MIN_HEIGHT := 480
  const MAX_HEIGHT := 4320

  /** The server's JSON messages to a client. */
  datatype Message =
    | Error(text: string, code: string)
    | Joined(created: bool, roomCode: string, peerId: PeerId, playerSlot: int, isHost: bool, isSpectator: bool,
             keyboardEnabled: bool, mouseEnabled: bool, players: map<PeerId, PlayerInfo>)
    | PlayerJoined(peerId: PeerId, name: string, slot: int, isSpectator: bool)
    | RoomClosed(reason: string)
    | PlayerLeft(peerId: PeerId, slot: int)
    | RoomUpdated(players: map<PeerId, PlayerInfo>)
    | LeftRoom
    | PromotedToPlayer(slot: int, keyboardEnabled: bool, mouseEnabled: bool)
    | GamepadClaimed(gamepadId: int, serverSlot: int)
    | GamepadReleased(serverSlot: int)
    | KeyboardPermission(enabled: bool)
    | MousePermission(enabled: bool)
    | QualityUpdated(bitrate: int, framerate: int, width: int, height: int)
    | StreamReady
    | LocalSdp(sdp: string, sdpType: string)
    | LocalIce(candidate: string, mid: string)

  /** The reply to `set_quality`: every setting clamped to its range. */
  function QualityReply(bitrate: int, framerate: int, width: int, height: int): (m: Message)
    ensures m.QualityUpdated?
    ensures MIN_BITRATE <= m.bitrate <= MAX_BITRATE && MIN_FRAMERATE <= m.framerate <= MAX_FRAMERATE
    ensures MIN_WIDTH <= m.width <= MAX_WIDTH && MIN_HEIGHT <= m.height <= MAX_HEIGHT
  {
    QualityUpdated(Clamp(bitrate, MIN_BITRATE, MAX_BITRATE), Clamp(framerate, MIN_FRAMERATE, MAX_FRAMERATE),
                   Clamp(width, MIN_WIDTH, MAX_WIDTH), Clamp(height, MIN_HEIGHT, MAX_HEIGHT))
  }

  /** Settings already in range are echoed unchanged, so asking again for the reply's values changes nothing. */
  lemma QualityReplyIdempotent(bitrate: int, framerate: int, width: int, height: int)
    ensures var m := QualityReply(bitrate, framerate, width, height);
      QualityReply(m.bitrate, m.framerate, m.width, m.height) == m
  {
  }

  /** The video codec name the peer's track is set up with, from the encoder's codec. */
  datatype EncoderCodec = EncoderH264 | EncoderHevc | EncoderAv1

  function CodecName(c: EncoderCodec): (name: string)
    ensures VideoCodecFor(name) == (match c case EncoderH264 => H264 case EncoderHevc => H265 case EncoderAv1 => AV1)
  {
    match c
    case EncoderHevc => "HEVC"
    case EncoderAv1 => "AV1"
    case EncoderH264 => "H264"
  }

  /** Removing a key just written undoes the write, whatever the key held before. */
  lemma RemoveUpdated<K, V>(m: map<K, V>, k: K, v: V)
    ensures m[k := v] - {k} == m - {k}
  {
  }

  /** The messages handed to each peer's WebSocket connection, in order. */
  type Mailboxes = map<PeerId, seq<Message>>

  function Mailbox(sent: Mailboxes, id: PeerId): seq<Message>
  {
    if id in sent then sent[id] else []
  }

  /** The mailboxes once `msg` has gone once to each of `targets`. */
  function Deliver(sent: Mailboxes, targets: set<PeerId>, msg: Message): Mailboxes
  {
    map id | id in sent.Keys + targets :: Mailbox(sent, id) + (if id in targets then [msg] else [])
  }

  /** Each target gets the message appended, exactly once; every other mailbox is left alone. */
  lemma DeliverEffect(sent: Mailboxes, targets: set<PeerId>, msg: Message, id: PeerId)
    ensures id in targets ==> Mailbox(Deliver(sent, targets, msg), id) == Mailbox(sent, id) + [msg]
    ensures id !in targets ==> Mailbox(Deliver(sent, targets, msg), id) == Mailbox(sent, id)
  {
  }

  /** Delivering to one more peer is delivering to the others, then to it. */
  lemma DeliverOneMore(sent: Mailboxes, targets: set<PeerId>, id: PeerId, msg: Message)
    requires id !in targets
    ensures Deliver(sent, targets + {id}, msg) == Deliver(sent, targets, msg)[id := Mailbox(sent, id) + [msg]]
  {
  }

  /** Delivering to nobody changes nothing. */
  lemma DeliverNone(sent: Mailboxes, msg: Message)
    ensures Deliver(sent, {}, msg) == sent
  {
    var d := Deliver(sent, {}, msg);
    assert d.Keys == sent.Keys;
    forall id | id in d
      ensures d[id] == sent[id]
    {
    }
  }

  /** A joined peer's media: the video track in the given codec, the Opus track, and the unopened "input" channel. */
  ghost predicate PeerSetUp(p: Peer, codec: string)
    reads p
  {
    p.hasConnection ==>
      p.videoTrack == Some(Track(VideoCodecFor(codec), VIDEO_PAYLOAD_TYPE, p.ssrc, false))
      && p.audioTrack == Some(Track(Opus, AUDIO_PAYLOAD_TYPE, AudioSsrc(p.ssrc), false))
      && INPUT_CHANNEL in p.channels && !p.channels[INPUT_CHANNEL]
  }

  /** Adds the video and audio tracks and the "input" data channel to a joining peer. */
  method SetUpPeer(p: Peer, codec: string)
    modifies p
    ensures PeerSetUp(p, codec)
    ensures p.state == old(p.state) && p.hasConnection == old(p.hasConnection)
  {
    var _ := p.AddVideoTrack(codec);
    var _ := p.AddAudioTrack();
    var _ := p.CreateDataChannel(INPUT_CHANNEL);
  }

  class SignalingServer {
    var wsToPeer: map<ConnId, PeerId>
    var peerToWs: map<PeerId, ConnId>
    /** What has been handed to the WebSocket server for each peer's connection. */
    var sent: Mailboxes
    /** Whether video and audio capture (and the audio sender) have been started. */
    var capturing: bool
    /** How many key frames have been asked of the encoder. */
    var idrRequests: nat
    /** The configured maximum bitrate, in kbit/s. */
    var maxBitrate: int
    /** The encoder's codec, read when a peer joins. */
    var encoderCodec: EncoderCodec
    const rooms: RoomManager
    const peerMgr: PeerManager

    ghost predicate Valid()
      reads this`wsToPeer, this`peerToWs, rooms, rooms.rooms.Values, peerMgr
    {
      rooms.Valid() && peerMgr.Valid() && ConnectionsValid(wsToPeer, peerToWs)
    }

    /** Everything but the mailboxes. */
    function Config(): (map<ConnId, PeerId>, map<PeerId, ConnId>, bool, nat, int, EncoderCodec)
      reads this`wsToPeer, this`peerToWs, this`capturing, this`idrRequests, this`maxBitrate, this`encoderCodec
    {
      (wsToPeer, peerToWs, capturing, idrRequests, maxBitrate, encoderCodec)
    }

    /** Those of the peers that have a connection. */
    function Reachable(ids: set<PeerId>): set<PeerId>
      reads this`peerToWs
    {
      ids * peerToWs.Keys
    }

    /** The peer's room as a frame: empty when the peer has none. */
    function RoomFrame(peer: PeerId): set<Room>
      reads rooms
    {
      var r := rooms.FindRoomByPeer(peer);
      if r.Some? then {r.value} else {}
    }

    /** The session room as a frame: empty before the first join. */
    function SessionFrame(): set<Room>
      reads rooms
    {
      if SINGLE_SESSION_CODE in rooms.rooms then {rooms.rooms[SINGLE_SESSION_CODE]} else {}
    }

    /** The peer's WebRTC peer as a frame: empty when it has none. */
    function PeerFrame(peer: PeerId): set<Peer>
      reads peerMgr
    {
      if peer in peerMgr.peers then {peerMgr.peers[peer]} else {}
    }

    constructor(roomManager: RoomManager, peerManager: PeerManager, codec: EncoderCodec, bitrate: int)
      requires roomManager.Valid() && peerManager.Valid()
      ensures Valid()
      ensures rooms == roomManager && peerMgr == peerManager
      ensures wsToPeer == map[] && peerToWs == map[] && sent == map[]
      ensures !capturing && idrRequests == 0 && maxBitrate == bitrate && encoderCodec == codec
    {
      rooms := roomManager;
      peerMgr := peerManager;
      wsToPeer := map[];
      peerToWs := map[];
      sent := map[];
      capturing := false;
      idrRequests := 0;
      maxBitrate := bitrate;
      encoderCodec := codec;
    }

    /** A new connection's peer id is filed in both directions. */
    method OnWsConnect(conn: ConnId)
      requires Valid()
      modifies this
      ensures Valid()
      ensures wsToPeer == old(wsToPeer)[conn := PeerIdFor(conn)]
      ensures peerToWs == old(peerToWs)[PeerIdFor(conn) := conn]
      ensures sent == old(sent) && capturing == old(capturing) && idrRequests == old(idrRequests)
      ensures maxBitrate == old(maxBitrate) && encoderCodec == old(encoderCodec)
    {
      var id := PeerIdFor(conn);
      forall c | c in wsToPeer && c != conn
        ensures wsToPeer[c] != id
      {
        if wsToPeer[c] == id {
          PeerIdInjective(c, conn);
        }
      }
      wsToPeer := wsToPeer[conn := id];
      peerToWs := peerToWs[id := conn];
    }

    function ConnectionCount(): (n: nat)
      reads this
      ensures n == |peerToWs|
    {
      |peerToWs|
    }

    /** A message goes out only to a peer that has a connection. */
    method SendToPeer(peer: PeerId, msg: Message) returns (ok: bool)
      modifies this
      ensures ok <==> peer in peerToWs
      ensures sent == Deliver(old(sent), Reachable({peer}), msg)
      ensures unchanged(this`wsToPeer, this`peerToWs, this`capturing, this`idrRequests, this`maxBitrate, this`encoderCodec)
    {
      if peer !in peerToWs {
        assert Reachable({peer}) == {};
        DeliverNone(sent, msg);
        return false;
      }
      assert Reachable({peer}) == {} + {peer};
      DeliverOneMore(sent, {}, peer, msg);
      DeliverNone(sent, msg);
      sent := sent[peer := Mailbox(sent, peer) + [msg]];
      return true;
    }

    method SendError(peer: PeerId, text: string, code: string)
      modifies this
      ensures sent == Deliver(old(sent), Reachable({peer}), Error(text, code))
      ensures unchanged(this`wsToPeer, this`peerToWs, this`capturing, this`idrRequests, this`maxBitrate, this`encoderCodec)
    {
      var _ := SendToPeer(peer, Error(text, code));
    }

    /** Sends the message to each of the peers in turn; each one that has a connection gets it once. */
    method SendToAll(ids: set<PeerId>, msg: Message)
      modifies this
      ensures unchanged(this`wsToPeer, this`peerToWs, this`capturing, this`idrRequests, this`maxBitrate, this`encoderCodec)
      ensures sent == Deliver(old(sent), Reachable(ids), msg)
    {
      var rest := ids;
      DeliverNone(sent, msg);
      while rest != {}
        invariant rest <= ids
        invariant unchanged(this`wsToPeer, this`peerToWs, this`capturing, this`idrRequests, this`maxBitrate, this`encoderCodec)
        invariant sent == Deliver(old(sent), Reachable(ids - rest), msg)
        decreases rest
      {
        var id :| id in rest;
        ghost var before := sent;
        var ok := SendToPeer(id, msg);
        if ok {
          assert Reachable({id}) == {} + {id};
          DeliverOneMore(before, {}, id, msg);
          DeliverNone(before, msg);
          DeliverEffect(old(sent), Reachable(ids - rest), msg, id);
          DeliverOneMore(old(sent), Reachable(ids - rest), id, msg);
          assert Reachable(ids - (rest - {id})) == Reachable(ids - rest) + {id};
        } else {
          assert Reachable({id}) == {};
          DeliverNone(before, msg);
          assert Reachable(ids - (rest - {id})) == Reachable(ids - rest);
        }
        rest := rest - {id};
      }
    }

    /** The players of a room, none for an unknown code. */
    function PlayersOf(code: string): (players: map<PeerId, PlayerInfo>)
      reads this, rooms, rooms.rooms.Values
      ensures code in rooms.rooms ==> players == rooms.rooms[code].players
      ensures code !in rooms.rooms ==> players == map[]
    {
      if code in rooms.rooms then rooms.rooms[code].players else map[]
    }

    /** Sends the message to every peer of the room except `exclude`; an unknown room sends nothing. */
    method BroadcastToRoom(code: string, msg: Message, exclude: PeerId)
      modifies this
      ensures unchanged(this`wsToPeer, this`peerToWs, this`capturing, this`idrRequests, this`maxBitrate, this`encoderCodec)
      ensures code !in rooms.rooms ==> sent == old(sent)
      ensures code in rooms.rooms ==> sent == Deliver(old(sent), Reachable(rooms.rooms[code].peers - {exclude}), msg)
    {
      var room := rooms.FindRoom(code);
      if room.None? {
        return;
      }
      SendToAll(room.value.peers - {exclude}, msg);
    }

    /**
     * A peer's connection closed. Its WebRTC peer goes first, then its room
     * membership (see `LeaveOnClose`), last the connection pairing.
     */
    method OnClose(peer: PeerId)
      requires Valid()
      modifies this, rooms, RoomFrame(peer), peerMgr, PeerFrame(peer)
      ensures Valid()
      ensures peerMgr.peers == old(peerMgr.peers) - {peer} && peerMgr.iceServers == old(peerMgr.iceServers)
      ensures peer in old(peerMgr.peers) ==> old(peerMgr.peers)[peer].Closed()
      ensures peer in old(peerToWs) ==> wsToPeer == old(wsToPeer) - {old(peerToWs)[peer]} && peerToWs == old(peerToWs) - {peer}
      ensures peer !in old(peerToWs) ==> wsToPeer == old(wsToPeer) && peerToWs == old(peerToWs)
      ensures idrRequests == old(idrRequests) && maxBitrate == old(maxBitrate) && encoderCodec == old(encoderCodec)
      ensures old(rooms.FindRoomByPeer(peer)).None? || peer !in old(rooms.FindRoomByPeer(peer).value.players) ==>
        sent == old(sent) && unchanged(rooms) && capturing == old(capturing)
      ensures var r := old(rooms.FindRoomByPeer(peer));
        r.Some? && peer !in old(r.value.players) ==> unchanged(r.value)
      ensures var r := old(rooms.FindRoomByPeer(peer));
        r.Some? && peer in old(r.value.players) ==>
          RoomLeft(r.value, peer, old(r.value.players), old(r.value.peerGamepadMappings), old(r.value.gamepadSlotOwners))
          && r.value.nextGamepadSlot == old(r.value.nextGamepadSlot) && r.value.Defaults() == old(r.value.Defaults())
      ensures var r := old(rooms.FindRoomByPeer(peer));
        r.Some? && peer in old(r.value.players) && old(r.value.players[peer].isHost) ==>
          rooms.rooms == old(rooms.rooms) - {r.value.code}
          && rooms.peerToRoom == WithoutRoom(old(rooms.peerToRoom), r.value.code)
          && sent == Deliver(old(sent), (old(r.value.peers) - {peer}) * old(peerToWs).Keys, RoomClosed("host_left"))
          && capturing == (old(capturing) && rooms.rooms != map[])
      ensures var r := old(rooms.FindRoomByPeer(peer));
        r.Some? && peer in old(r.value.players) && !old(r.value.players[peer].isHost) ==>
          rooms.rooms == old(rooms.rooms) && rooms.peerToRoom == old(rooms.peerToRoom)
          && capturing == old(capturing)
          && sent == Deliver(Deliver(old(sent), r.value.peers * old(peerToWs).Keys, PlayerLeft(peer, old(r.value.players[peer].slot))),
                             (r.value.peers - {""}) * old(peerToWs).Keys, RoomUpdated(r.value.players))
    {
      ghost var r := rooms.FindRoomByPeer(peer);
      ghost var players := if r.Some? then r.value.players else map[];
      ghost var peers := if r.Some? then r.value.peers else {};
      peerMgr.RemovePeer(peer);
      assert r == rooms.FindRoomByPeer(peer) && r.Some? ==> r.value.players == players && r.value.peers == peers;
      LeaveOnClose(peer);
      DropConnection(peer);
    }

    /**
     * The room side of a closed connection: the host leaving closes the
     * room (the others are told `room_closed`, and capture stops once no
     * room is left); a player leaving is announced to the others, followed
     * by the new player list.
     */
    method LeaveOnClose(peer: PeerId)
      requires Valid()
      modifies this, rooms, RoomFrame(peer)
      ensures Valid()
      ensures wsToPeer == old(wsToPeer) && peerToWs == old(peerToWs)
      ensures idrRequests == old(idrRequests) && maxBitrate == old(maxBitrate) && encoderCodec == old(encoderCodec)
      ensures old(rooms.FindRoomByPeer(peer)).None? || peer !in old(rooms.FindRoomByPeer(peer).value.players) ==>
        sent == old(sent) && unchanged(rooms) && capturing == old(capturing)
      ensures var r := old(rooms.FindRoomByPeer(peer));
        r.Some? && peer !in old(r.value.players) ==> unchanged(r.value)
      ensures var r := old(rooms.FindRoomByPeer(peer));
        r.Some? && peer in old(r.value.players) ==>
          RoomLeft(r.value, peer, old(r.value.players), old(r.value.peerGamepadMappings), old(r.value.gamepadSlotOwners))
          && r.value.nextGamepadSlot == old(r.value.nextGamepadSlot) && r.value.Defaults() == old(r.value.Defaults())
      ensures var r := old(rooms.FindRoomByPeer(peer));
        r.Some? && peer in old(r.value.players) && old(r.value.players[peer].isHost) ==>
          rooms.rooms == old(rooms.rooms) - {r.value.code}
          && rooms.peerToRoom == WithoutRoom(old(rooms.peerToRoom), r.value.code)
          && sent == Deliver(old(sent), Reachable(old(r.value.peers) - {peer}), RoomClosed("host_left"))
          && capturing == (old(capturing) && rooms.rooms != map[])
      ensures var r := old(rooms.FindRoomByPeer(peer));
        r.Some? && peer in old(r.value.players) && !old(r.value.players[peer].isHost) ==>
          rooms.rooms == old(rooms.rooms) && rooms.peerToRoom == old(rooms.peerToRoom)
          && capturing == old(capturing)
          && sent == Deliver(Deliver(old(sent), Reachable(r.value.peers), PlayerLeft(peer, old(r.value.players[peer].slot))),
                             Reachable(r.value.peers - {""}), RoomUpdated(r.value.players))
    {
      var room := rooms.FindRoomByPeer(peer);
      if room.None? {
        return;
      }
      var r := room.value;
      var player := r.GetPlayer(peer);
      var hostLeft := r.RemovePeer(peer);
      if hostLeft {
        CloseRoom(r, "host_left");
      } else if player.Some? {
        AnnounceLeave(r, peer, player.value.slot);
      }
    }

    /** Tells every remaining peer that the room is closing, removes it, and stops capture once no room is left. */
    method CloseRoom(r: Room, reason: string)
      requires Valid() && r.code in rooms.rooms && rooms.rooms[r.code] == r
      modifies this, rooms
      ensures Valid()
      ensures wsToPeer == old(wsToPeer) && peerToWs == old(peerToWs)
      ensures idrRequests == old(idrRequests) && maxBitrate == old(maxBitrate) && encoderCodec == old(encoderCodec)
      ensures rooms.rooms == old(rooms.rooms) - {r.code}
      ensures rooms.peerToRoom == WithoutRoom(old(rooms.peerToRoom), r.code)
      ensures sent == Deliver(old(sent), Reachable(r.peers), RoomClosed(reason))
      ensures capturing == (old(capturing) && rooms.rooms != map[])
    {
      SendToAll(r.peers, RoomClosed(reason));
      rooms.RemoveRoom(r.code);
      if rooms.RoomCount() == 0 {
        capturing := false;
      }
    }

    /** Tells the room's other peers that a player left, then sends everyone the new player list. */
    method AnnounceLeave(r: Room, peer: PeerId, slot: Slot)
      requires Valid() && r.code in rooms.rooms && rooms.rooms[r.code] == r && peer !in r.peers
      modifies this
      ensures Valid()
      ensures unchanged(this`wsToPeer, this`peerToWs, this`capturing, this`idrRequests, this`maxBitrate, this`encoderCodec)
      ensures sent == Deliver(Deliver(old(sent), Reachable(r.peers), PlayerLeft(peer, slot)),
                              Reachable(r.peers - {""}), RoomUpdated(r.players))
    {
      BroadcastToRoom(r.code, PlayerLeft(peer, slot), peer);
      assert r.peers - {peer} == r.peers;
      BroadcastToRoom(r.code, RoomUpdated(PlayersOf(r.code)), "");
    }

    /** Drops the peer's connection pairing, if it has one. */
    method DropConnection(peer: PeerId)
      requires Valid()
      modifies this
      ensures Valid()
      ensures peer in old(peerToWs) ==> wsToPeer == old(wsToPeer) - {old(peerToWs)[peer]} && peerToWs == old(peerToWs) - {peer}
      ensures peer !in old(peerToWs) ==> wsToPeer == old(wsToPeer) && peerToWs == old(peerToWs)
      ensures sent == old(sent) && capturing == old(capturing) && idrRequests == old(idrRequests)
      ensures maxBitrate == old(maxBitrate) && encoderCodec == old(encoderCodec)
    {
      if peer in peerToWs {
        wsToPeer := wsToPeer - {peerToWs[peer]};
        peerToWs := peerToWs - {peer};
      }
    }

    /**
     * `join` (also `create_room`, `join_room`). The first peer starts
     * capture and opens the session room "STREAM" as its host in slot 1;
     * later peers join it as spectators, are announced to the others, and a
     * key frame is requested. Either way the peer gets its WebRTC peer with
     * the encoder's video codec, Opus audio and the "input" data channel,
     * and a `room_created`/`room_joined` reply in which only the host has
     * keyboard and mouse. A peer the room refuses (already in it, or the
     * room is full) loses its WebRTC peer and gets `join_error`.
     */
    method HandleJoin(peer: PeerId, name: string, ssrc: U32)
      requires Valid()
      modifies this, rooms, SessionFrame(), peerMgr, PeerFrame(peer)
      ensures Valid()
      ensures wsToPeer == old(wsToPeer) && peerToWs == old(peerToWs)
      ensures maxBitrate == old(maxBitrate) && encoderCodec == old(encoderCodec)
      ensures peerMgr.iceServers == old(peerMgr.iceServers)
      ensures SINGLE_SESSION_CODE !in old(rooms.rooms) ==>
        SINGLE_SESSION_CODE in rooms.rooms && fresh(rooms.rooms[SINGLE_SESSION_CODE])
        && rooms.rooms == old(rooms.rooms)[SINGLE_SESSION_CODE := rooms.rooms[SINGLE_SESSION_CODE]]
        && OpenedBy(rooms.rooms[SINGLE_SESSION_CODE], peer, name)
        && rooms.peerToRoom == old(rooms.peerToRoom)[peer := SINGLE_SESSION_CODE]
        && capturing && idrRequests == old(idrRequests)
        && sent == Deliver(old(sent), Reachable({peer}), Joined(true, SINGLE_SESSION_CODE, peer, PLAYER_1, true, false, true, true,
                                                                 rooms.rooms[SINGLE_SESSION_CODE].players))
        && peer in peerMgr.peers && peerMgr.peers == old(peerMgr.peers)[peer := peerMgr.peers[peer]]
        && PeerSetUp(peerMgr.peers[peer], CodecName(encoderCodec))
        && peerMgr.peers[peer].state == (if peer in old(peerMgr.peers) then old(peerMgr.peers[peer].state) else CONNECTING)
      ensures var r := old(rooms.FindRoom(SINGLE_SESSION_CODE));
        r.Some? && (peer in old(r.value.players) || |old(r.value.peers)| >= MAX_PEERS) ==>
          peerMgr.peers == old(peerMgr.peers) - {peer}
          && rooms.rooms == old(rooms.rooms) && rooms.peerToRoom == old(rooms.peerToRoom)
          && unchanged(r.value)
          && capturing == old(capturing) && idrRequests == old(idrRequests)
          && sent == Deliver(old(sent), Reachable({peer}), Error("Failed to join session", "join_error"))
      ensures var r := old(rooms.FindRoom(SINGLE_SESSION_CODE));
        r.Some? && peer !in old(r.value.players) && |old(r.value.peers)| < MAX_PEERS ==>
          rooms.rooms == old(rooms.rooms) && rooms.peerToRoom == old(rooms.peerToRoom)[peer := SINGLE_SESSION_CODE]
          && r.value.players == old(r.value.players)[peer := PlayerInfo(peer, name, NONE, false, true, [], false, false)]
          && r.value.peers == old(r.value.peers) + {peer}
          && r.value.Gamepads() == old(r.value.Gamepads()) && r.value.Defaults() == old(r.value.Defaults())
          && capturing == old(capturing) && idrRequests == old(idrRequests) + 1
          && sent == Deliver(Deliver(old(sent), Reachable({peer}),
                                     Joined(false, SINGLE_SESSION_CODE, peer, NONE, false, true, false, false, r.value.players)),
                             Reachable(r.value.peers - {peer}), PlayerJoined(peer, name, 0, true))
          && peer in peerMgr.peers && peerMgr.peers == old(peerMgr.peers)[peer := peerMgr.peers[peer]]
          && PeerSetUp(peerMgr.peers[peer], CodecName(encoderCodec))
          && peerMgr.peers[peer].state == (if peer in old(peerMgr.peers) then old(peerMgr.peers[peer].state) else CONNECTING)
    {
      var existing := rooms.FindRoom(SINGLE_SESSION_CODE);
      if existing.None? {
        JoinAsHost(peer, name, ssrc);
      } else {
        JoinAsGuest(existing.value, peer, name, ssrc);
      }
    }

    /** The first peer: capture starts and the peer opens the session as its host. */
    method JoinAsHost(peer: PeerId, name: string, ssrc: U32)
      requires Valid() && SINGLE_SESSION_CODE !in rooms.rooms
      modifies this, rooms, peerMgr, PeerFrame(peer)
      ensures Valid()
      ensures wsToPeer == old(wsToPeer) && peerToWs == old(peerToWs)
      ensures maxBitrate == old(maxBitrate) && encoderCodec == old(encoderCodec)
      ensures SINGLE_SESSION_CODE in rooms.rooms && fresh(rooms.rooms[SINGLE_SESSION_CODE])
        && rooms.rooms == old(rooms.rooms)[SINGLE_SESSION_CODE := rooms.rooms[SINGLE_SESSION_CODE]]
        && OpenedBy(rooms.rooms[SINGLE_SESSION_CODE], peer, name)
        && rooms.peerToRoom == old(rooms.peerToRoom)[peer := SINGLE_SESSION_CODE]
      ensures capturing && idrRequests == old(idrRequests)
      ensures sent == Deliver(old(sent), Reachable({peer}), Joined(true, SINGLE_SESSION_CODE, peer, PLAYER_1, true, false, true, true,
                                                                  rooms.rooms[SINGLE_SESSION_CODE].players))
      ensures peer in peerMgr.peers && peerMgr.peers == old(peerMgr.peers)[peer := peerMgr.peers[peer]]
      ensures peerMgr.iceServers == old(peerMgr.iceServers)
      ensures PeerSetUp(peerMgr.peers[peer], CodecName(encoderCodec))
      ensures peerMgr.peers[peer].state == (if peer in old(peerMgr.peers) then old(peerMgr.peers[peer].state) else CONNECTING)
    {
      capturing := true;
      var p := peerMgr.CreatePeer(peer, ssrc);
      OpenSession(peer, name);
      FinishJoin(p, true);
    }

    /**
     * A later peer joins the session as a spectator and is announced to the
     * others, and a key frame is requested; a peer the room refuses loses
     * its WebRTC peer and gets `join_error`.
     */
    method JoinAsGuest(room: Room, peer: PeerId, name: string, ssrc: U32)
      requires Valid() && SINGLE_SESSION_CODE in rooms.rooms && rooms.rooms[SINGLE_SESSION_CODE] == room
      modifies this, rooms, room, peerMgr, PeerFrame(peer)
      ensures Valid()
      ensures wsToPeer == old(wsToPeer) && peerToWs == old(peerToWs) && capturing == old(capturing)
      ensures maxBitrate == old(maxBitrate) && encoderCodec == old(encoderCodec) && rooms.rooms == old(rooms.rooms)
      ensures peerMgr.iceServers == old(peerMgr.iceServers)
      ensures peer in old(room.players) || |old(room.peers)| >= MAX_PEERS ==>
        peerMgr.peers == old(peerMgr.peers) - {peer} && rooms.peerToRoom == old(rooms.peerToRoom)
        && unchanged(room) && idrRequests == old(idrRequests)
        && sent == Deliver(old(sent), Reachable({peer}), Error("Failed to join session", "join_error"))
      ensures peer !in old(room.players) && |old(room.peers)| < MAX_PEERS ==>
        rooms.peerToRoom == old(rooms.peerToRoom)[peer := SINGLE_SESSION_CODE]
        && room.players == old(room.players)[peer := PlayerInfo(peer, name, NONE, false, true, [], false, false)]
        && room.peers == old(room.peers) + {peer}
        && room.Gamepads() == old(room.Gamepads()) && room.Defaults() == old(room.Defaults())
        && idrRequests == old(idrRequests) + 1
        && sent == Deliver(Deliver(old(sent), Reachable({peer}),
                                   Joined(false, SINGLE_SESSION_CODE, peer, NONE, false, true, false, false, room.players)),
                           Reachable(room.peers - {peer}), PlayerJoined(peer, name, 0, true))
        && peer in peerMgr.peers && peerMgr.peers == old(peerMgr.peers)[peer := peerMgr.peers[peer]]
        && PeerSetUp(peerMgr.peers[peer], CodecName(encoderCodec))
        && peerMgr.peers[peer].state == (if peer in old(peerMgr.peers) then old(peerMgr.peers[peer].state) else CONNECTING)
    {
      var ok, p := JoinSession(room, peer, name, ssrc);
      if !ok {
        RejectJoin(p);
        RemoveUpdated(old(peerMgr.peers), peer, p);
        return;
      }
      WelcomeGuest(p, name);
    }

    /** An admitted spectator gets its media and its `room_joined` reply, and is announced to the others. */
    method WelcomeGuest(p: Peer, name: string)
      requires Valid() && SINGLE_SESSION_CODE in rooms.rooms && p.id in peerMgr.peers && peerMgr.peers[p.id] == p
      modifies this, p
      ensures Valid()
      ensures wsToPeer == old(wsToPeer) && peerToWs == old(peerToWs) && capturing == old(capturing)
      ensures maxBitrate == old(maxBitrate) && encoderCodec == old(encoderCodec)
      ensures idrRequests == old(idrRequests) + 1
      ensures PeerSetUp(p, CodecName(encoderCodec)) && p.state == old(p.state)
      ensures sent == Deliver(Deliver(old(sent), Reachable({p.id}),
                                      Joined(false, SINGLE_SESSION_CODE, p.id, NONE, false, true, false, false,
                                             rooms.rooms[SINGLE_SESSION_CODE].players)),
                              Reachable(rooms.rooms[SINGLE_SESSION_CODE].peers - {p.id}), PlayerJoined(p.id, name, 0, true))
    {
      FinishJoin(p, false);
      AnnounceJoin(p.id, name);
    }

    /** A peer the session refused loses its WebRTC peer and is told `join_error`. */
    method RejectJoin(p: Peer)
      requires Valid() && p.id in peerMgr.peers && peerMgr.peers[p.id] == p
      modifies this, peerMgr, p
      ensures Valid()
      ensures unchanged(this`wsToPeer, this`peerToWs, this`capturing, this`idrRequests, this`maxBitrate, this`encoderCodec)
      ensures peerMgr.peers == old(peerMgr.peers) - {p.id} && peerMgr.iceServers == old(peerMgr.iceServers) && p.Closed()
      ensures sent == Deliver(old(sent), Reachable({p.id}), Error("Failed to join session", "join_error"))
    {
      peerMgr.RemovePeer(p.id);
      SendError(p.id, "Failed to join session", "join_error");
    }

    /**
     * The rest of a successful join: the peer's media is set up and it gets
     * the `room_created` (host) or `room_joined` (spectator) reply, in which
     * only the host has keyboard and mouse.
     */
    method FinishJoin(p: Peer, host: bool)
      requires Valid() && SINGLE_SESSION_CODE in rooms.rooms && p.id in peerMgr.peers && peerMgr.peers[p.id] == p
      modifies this, p
      ensures Valid()
      ensures unchanged(this`wsToPeer, this`peerToWs, this`capturing, this`idrRequests, this`maxBitrate, this`encoderCodec)
      ensures PeerSetUp(p, CodecName(encoderCodec)) && p.state == old(p.state)
      ensures sent == Deliver(old(sent), Reachable({p.id}),
                              Joined(host, SINGLE_SESSION_CODE, p.id, if host then PLAYER_1 else NONE,
                                     host, !host, host, host, rooms.rooms[SINGLE_SESSION_CODE].players))
    {
      SetUpPeer(p, CodecName(encoderCodec));
      var slot := if host then PLAYER_1 else NONE;
      var _ := SendToPeer(p.id, Joined(host, SINGLE_SESSION_CODE, p.id, slot, host, !host, host, host,
                                       PlayersOf(SINGLE_SESSION_CODE)));
    }

    /** A new spectator is announced to the session's other peers, and a key frame is requested. */
    method AnnounceJoin(peer: PeerId, name: string)
      requires Valid() && SINGLE_SESSION_CODE in rooms.rooms
      modifies this
      ensures Valid()
      ensures wsToPeer == old(wsToPeer) && peerToWs == old(peerToWs) && capturing == old(capturing)
      ensures maxBitrate == old(maxBitrate) && encoderCodec == old(encoderCodec)
      ensures idrRequests == old(idrRequests) + 1
      ensures sent == Deliver(old(sent), Reachable(rooms.rooms[SINGLE_SESSION_CODE].peers - {peer}), PlayerJoined(peer, name, 0, true))
    {
      BroadcastToRoom(SINGLE_SESSION_CODE, PlayerJoined(peer, name, 0, true), peer);
      idrRequests := idrRequests + 1;
    }

    /** Opens the session room with the peer as its host. */
    method OpenSession(peer: PeerId, name: string)
      requires Valid() && SINGLE_SESSION_CODE !in rooms.rooms
      modifies rooms
      ensures Valid()
      ensures SINGLE_SESSION_CODE in rooms.rooms && fresh(rooms.rooms[SINGLE_SESSION_CODE])
      ensures rooms.rooms == old(rooms.rooms)[SINGLE_SESSION_CODE := rooms.rooms[SINGLE_SESSION_CODE]]
      ensures OpenedBy(rooms.rooms[SINGLE_SESSION_CODE], peer, name)
      ensures rooms.peerToRoom == old(rooms.peerToRoom)[peer := SINGLE_SESSION_CODE]
    {
      var room := new Room(SINGLE_SESSION_CODE, peer, name);
      rooms.AddRoom(room);
    }

    /**
     * Creates the peer's WebRTC peer, then seats the peer in the session room
     * as a spectator and files its room; false when the room refuses it.
     */
    method JoinSession(room: Room, peer: PeerId, name: string, ssrc: U32) returns (ok: bool, p: Peer)
      requires Valid() && SINGLE_SESSION_CODE in rooms.rooms && rooms.rooms[SINGLE_SESSION_CODE] == room
      modifies rooms, room, peerMgr
      ensures Valid()
      ensures p.id == peer && peerMgr.peers == old(peerMgr.peers)[peer := p]
      ensures fresh(p) || p in old(PeerFrame(peer))
      ensures p.state == (if peer in old(peerMgr.peers) then old(peerMgr.peers[peer].state) else CONNECTING)
      ensures ok <==> peer !in old(room.players) && |old(room.peers)| < MAX_PEERS
      ensures rooms.rooms == old(rooms.rooms)
      ensures peerMgr.iceServers == old(peerMgr.iceServers)
      ensures ok ==> room.players == old(room.players)[peer := PlayerInfo(peer, name, NONE, false, true, [], false, false)]
                     && room.peers == old(room.peers) + {peer}
                     && room.Gamepads() == old(room.Gamepads()) && room.Defaults() == old(room.Defaults())
                     && rooms.peerToRoom == old(rooms.peerToRoom)[peer := SINGLE_SESSION_CODE]
      ensures !ok ==> unchanged(room) && rooms.peerToRoom == old(rooms.peerToRoom)
    {
      p := peerMgr.CreatePeer(peer, ssrc);
      ok := room.AddSpectator(peer, name);
      assert Valid();
      if ok {
        rooms.RegisterPeer(peer, SINGLE_SESSION_CODE);
        assert Valid();
      }
    }

    /** A closed connection of a known id closes its peer; an unknown id is ignored. */
    method OnWsDisconnect(conn: ConnId)
      requires Valid()
      modifies this, rooms, RoomFrame(PeerIdFor(conn)), peerMgr, PeerFrame(PeerIdFor(conn))
      ensures Valid()
      ensures conn !in old(wsToPeer) ==>
        unchanged(this, rooms, peerMgr) && unchanged(RoomFrame(PeerIdFor(conn))) && unchanged(PeerFrame(PeerIdFor(conn)))
      ensures conn in old(wsToPeer) ==>
        wsToPeer == old(wsToPeer) - {conn} && peerToWs == old(peerToWs) - {PeerIdFor(conn)}
        && peerMgr.peers == old(peerMgr.peers) - {PeerIdFor(conn)}
    {
      if conn !in wsToPeer {
        return;
      }
      OnClose(wsToPeer[conn]);
    }

    /** A text message on a known connection is handled for its peer; an unknown id is ignored. */
    method OnWsMessage(conn: ConnId, raw: Option<JsonObject>, ssrc: U32)
      requires Valid()
      modifies this, rooms, RoomFrame(PeerIdFor(conn)), SessionFrame(), peerMgr, PeerFrame(PeerIdFor(conn))
      ensures Valid()
      ensures wsToPeer == old(wsToPeer) && peerToWs == old(peerToWs)
      ensures conn !in old(wsToPeer) ==>
        unchanged(this, rooms, peerMgr)
        && unchanged(RoomFrame(PeerIdFor(conn))) && unchanged(SessionFrame()) && unchanged(PeerFrame(PeerIdFor(conn)))
      ensures conn in old(wsToPeer) && Decode(raw).None? ==>
        sent == Deliver(old(sent), {PeerIdFor(conn)}, Error("Invalid JSON message", "parse_error"))
    {
      if conn !in wsToPeer {
        return;
      }
      OnMessage(wsToPeer[conn], raw, ssrc);
    }

    /**
     * `on_message`: a message that is not a JSON object, or whose fields
     * have the wrong types, gets `parse_error`; an unknown type gets
     * `unknown_type`; every other request goes to its handler. `ssrc` is
     * the random video SSRC a new WebRTC peer would get.
     */
    method OnMessage(peer: PeerId, raw: Option<JsonObject>, ssrc: U32)
      requires Valid()
      modifies this, rooms, RoomFrame(peer), SessionFrame(), peerMgr, PeerFrame(peer)
      ensures Valid()
      ensures wsToPeer == old(wsToPeer) && peerToWs == old(peerToWs)
      ensures Decode(raw).None? || Decode(raw).value.Unknown? ==>
        Config() == old(Config()) && unchanged(rooms, peerMgr)
        && unchanged(RoomFrame(peer)) && unchanged(SessionFrame()) && unchanged(PeerFrame(peer))
      ensures Decode(raw).None? ==>
        sent == Deliver(old(sent), Reachable({peer}), Error("Invalid JSON message", "parse_error"))
      ensures Decode(raw).Some? && Decode(raw).value.Unknown? ==>
        sent == Deliver(old(sent), Reachable({peer}), Error("Unknown message type: " + Decode(raw).value.kind, "unknown_type"))
    {
      var request := Decode(raw);
      if request.None? {
        SendError(peer, "Invalid JSON message", "parse_error");
        return;
      }
      match request.value
      case Join(name) => HandleJoin(peer, name, ssrc);
      case Leave => HandleLeaveRoom(peer);
      case JoinAsPlayer => HandleJoinAsPlayer(peer);
      case ClaimGamepad(id) => HandleClaimGamepad(peer, id);
      case ReleaseGamepad(slot) => HandleReleaseGamepad(peer, slot);
      case Sdp(sdp, t) => HandleSdp(peer, sdp, t);
      case Ice(candidate, mid) => HandleIce(peer, candidate, mid);
      case SetGuestKeyboard(target, enabled) => HandleSetGuestKeyboard(peer, target, enabled);
      case SetGuestMouse(target, enabled) => HandleSetGuestMouse(peer, target, enabled);
      case SetQuality(bitrate, framerate, width, height) => HandleSetQuality(peer, bitrate, framerate, width, height);
      case Unknown(kind) => SendError(peer, "Unknown message type: " + kind, "unknown_type");
    }

    /**
     * `leave_room`. A peer without a room gets `not_in_room`. Otherwise it
     * is told `left_room` first, loses its WebRTC peer, then leaves the
     * room (see `LeaveRoom`); its connection stays paired.
     */
    method HandleLeaveRoom(peer: PeerId)
      requires Valid()
      modifies this, rooms, RoomFrame(peer), peerMgr, PeerFrame(peer)
      ensures Valid()
      ensures wsToPeer == old(wsToPeer) && peerToWs == old(peerToWs)
      ensures idrRequests == old(idrRequests) && maxBitrate == old(maxBitrate) && encoderCodec == old(encoderCodec)
      ensures old(rooms.FindRoomByPeer(peer)).None? ==>
        sent == Deliver(old(sent), Reachable({peer}), Error("Not in a room", "not_in_room"))
        && unchanged(rooms, peerMgr) && unchanged(PeerFrame(peer)) && capturing == old(capturing)
      ensures old(rooms.FindRoomByPeer(peer)).Some? ==>
        peerMgr.peers == old(peerMgr.peers) - {peer} && peerMgr.iceServers == old(peerMgr.iceServers)
        && (peer in old(peerMgr.peers) ==> old(peerMgr.peers)[peer].Closed())
      ensures var r := old(rooms.FindRoomByPeer(peer));
        r.Some? && peer !in old(r.value.players) ==>
          sent == Deliver(old(sent), Reachable({peer}), LeftRoom)
          && rooms.rooms == old(rooms.rooms) && rooms.peerToRoom == old(rooms.peerToRoom) && capturing == old(capturing)
          && unchanged(r.value)
      ensures var r := old(rooms.FindRoomByPeer(peer));
        r.Some? && peer in old(r.value.players) ==>
          RoomLeft(r.value, peer, old(r.value.players), old(r.value.peerGamepadMappings), old(r.value.gamepadSlotOwners))
          && r.value.nextGamepadSlot == old(r.value.nextGamepadSlot) && r.value.Defaults() == old(r.value.Defaults())
      ensures var r := old(rooms.FindRoomByPeer(peer));
        r.Some? && peer in old(r.value.players) && old(r.value.players[peer].isHost) ==>
          rooms.rooms == old(rooms.rooms) - {r.value.code}
          && rooms.peerToRoom == WithoutRoom(old(rooms.peerToRoom), r.value.code)
          && sent == Deliver(Deliver(old(sent), Reachable({peer}), LeftRoom),
                             Reachable(old(r.value.peers) - {peer}), RoomClosed("host_left"))
          && capturing == (old(capturing) && rooms.rooms != map[])
      ensures var r := old(rooms.FindRoomByPeer(peer));
        r.Some? && peer in old(r.value.players) && !old(r.value.players[peer].isHost) ==>
          rooms.rooms == old(rooms.rooms) && rooms.peerToRoom == old(rooms.peerToRoom)
          && capturing == old(capturing)
          && sent == Deliver(Deliver(old(sent), Reachable({peer}), LeftRoom),
                             Reachable(r.value.peers), PlayerLeft(peer, old(r.value.players[peer].slot)))
    {
      var found := rooms.FindRoomByPeer(peer);
      if found.None? {
        SendError(peer, "Not in a room", "not_in_room");
        return;
      }
      LeaveFoundRoom(found.value, peer);
    }

    /** The part of `handle_leave_room` once the peer's room is found: `left_room`, the WebRTC peer removed, the room left. */
    method LeaveFoundRoom(r: Room, peer: PeerId)
      requires Valid() && r.code in rooms.rooms && rooms.rooms[r.code] == r
      modifies this, rooms, r, peerMgr, PeerFrame(peer)
      ensures Valid()
      ensures wsToPeer == old(wsToPeer) && peerToWs == old(peerToWs)
      ensures idrRequests == old(idrRequests) && maxBitrate == old(maxBitrate) && encoderCodec == old(encoderCodec)
      ensures peerMgr.peers == old(peerMgr.peers) - {peer} && peerMgr.iceServers == old(peerMgr.iceServers)
      ensures peer in old(peerMgr.peers) ==> old(peerMgr.peers)[peer].Closed()
      ensures peer !in old(r.players) ==>
        sent == Deliver(old(sent), Reachable({peer}), LeftRoom)
        && rooms.rooms == old(rooms.rooms) && rooms.peerToRoom == old(rooms.peerToRoom) && capturing == old(capturing)
        && unchanged(r)
      ensures peer in old(r.players) ==>
        RoomLeft(r, peer, old(r.players), old(r.peerGamepadMappings), old(r.gamepadSlotOwners))
        && r.nextGamepadSlot == old(r.nextGamepadSlot) && r.Defaults() == old(r.Defaults())
      ensures peer in old(r.players) && old(r.players[peer].isHost) ==>
        rooms.rooms == old(rooms.rooms) - {r.code}
        && rooms.peerToRoom == WithoutRoom(old(rooms.peerToRoom), r.code)
        && sent == Deliver(Deliver(old(sent), Reachable({peer}), LeftRoom),
                           Reachable(old(r.peers) - {peer}), RoomClosed("host_left"))
        && capturing == (old(capturing) && rooms.rooms != map[])
      ensures peer in old(r.players) && !old(r.players[peer].isHost) ==>
        rooms.rooms == old(rooms.rooms) && rooms.peerToRoom == old(rooms.peerToRoom)
        && capturing == old(capturing)
        && sent == Deliver(Deliver(old(sent), Reachable({peer}), LeftRoom),
                           Reachable(r.peers), PlayerLeft(peer, old(r.players[peer].slot)))
    {
      var _ := SendToPeer(peer, LeftRoom);
      peerMgr.RemovePeer(peer);
      LeaveRoom(r, peer);
    }

    /**
     * The room side of `leave_room`: the host leaving closes the room as on
     * a closed connection; a player leaving is announced to the others, but
     * no new player list follows.
     */
    method LeaveRoom(r: Room, peer: PeerId)
      requires Valid() && r.code in rooms.rooms && rooms.rooms[r.code] == r
      modifies this, rooms, r
      ensures Valid()
      ensures wsToPeer == old(wsToPeer) && peerToWs == old(peerToWs)
      ensures idrRequests == old(idrRequests) && maxBitrate == old(maxBitrate) && encoderCodec == old(encoderCodec)
      ensures peer !in old(r.players) ==>
        sent == old(sent) && rooms.rooms == old(rooms.rooms) && rooms.peerToRoom == old(rooms.peerToRoom)
        && capturing == old(capturing) && unchanged(r)
      ensures peer in old(r.players) ==>
        RoomLeft(r, peer, old(r.players), old(r.peerGamepadMappings), old(r.gamepadSlotOwners))
        && r.nextGamepadSlot == old(r.nextGamepadSlot) && r.Defaults() == old(r.Defaults())
      ensures peer in old(r.players) && old(r.players[peer].isHost) ==>
        rooms.rooms == old(rooms.rooms) - {r.code}
        && rooms.peerToRoom == WithoutRoom(old(rooms.peerToRoom), r.code)
        && sent == Deliver(old(sent), Reachable(old(r.peers) - {peer}), RoomClosed("host_left"))
        && capturing == (old(capturing) && rooms.rooms != map[])
      ensures peer in old(r.players) && !old(r.players[peer].isHost) ==>
        rooms.rooms == old(rooms.rooms) && rooms.peerToRoom == old(rooms.peerToRoom)
        && capturing == old(capturing)
        && sent == Deliver(old(sent), Reachable(r.peers), PlayerLeft(peer, old(r.players[peer].slot)))
    {
      var player := r.GetPlayer(peer);
      var hostLeft := r.RemovePeer(peer);
      assert Valid();
      if hostLeft {
        CloseRoom(r, "host_left");
      } else if player.Some? {
        BroadcastToRoom(r.code, PlayerLeft(peer, player.value.slot), peer);
        assert r.peers - {peer} == r.peers;
      }
    }

    /**
     * `join_as_player`. A peer without a room gets `not_in_room`; otherwise
     * see `Promote`.
     */
    method HandleJoinAsPlayer(peer: PeerId)
      requires Valid()
      modifies this, RoomFrame(peer)
      ensures Valid()
      ensures wsToPeer == old(wsToPeer) && peerToWs == old(peerToWs) && capturing == old(capturing)
      ensures maxBitrate == old(maxBitrate) && encoderCodec == old(encoderCodec)
      ensures old(rooms.FindRoomByPeer(peer)).None? ==>
        sent == Deliver(old(sent), Reachable({peer}), Error("Not in a room", "not_in_room"))
        && idrRequests == old(idrRequests)
      ensures var r := old(rooms.FindRoomByPeer(peer));
        r.Some? ==> PromoteOutcome(r.value, peer, old(r.value.players), old(sent), old(idrRequests))
                    && r.value.peers == old(r.value.peers) && r.value.Gamepads() == old(r.value.Gamepads())
                    && r.value.Defaults() == old(r.value.Defaults())
      ensures var r := old(rooms.FindRoomByPeer(peer));
        r.Some? && peer in old(r.value.players) && !old(r.value.players[peer].isSpectator) ==>
          r.value.players == old(r.value.players)
      ensures var r := old(rooms.FindRoomByPeer(peer));
        r.Some? && peer in old(r.value.players) && old(r.value.players[peer].isSpectator)
        && r.value.players != old(r.value.players) ==>
          r.value.players == old(r.value.players)[peer := old(r.value.players[peer]).(slot := r.value.players[peer].slot,
                                                                                    isSpectator := false)]
    {
      var found := rooms.FindRoomByPeer(peer);
      if found.None? {
        SendError(peer, "Not in a room", "not_in_room");
        return;
      }
      Promote(found.value, peer);
    }

    /**
     * What `join_as_player` does in the peer's room: a peer that is (or now
     * becomes) a player is told its slot and the room's default keyboard and
     * mouse access, everyone gets the new player list, and a key frame is
     * requested; with no slot to give, the peer gets `room_full`.
     */
    ghost predicate PromoteOutcome(r: Room, peer: PeerId, before: map<PeerId, PlayerInfo>, sentBefore: Mailboxes, idrBefore: nat)
      reads this, r
    {
      if peer in r.players && !r.players[peer].isSpectator then
        sent == Deliver(Deliver(sentBefore, Reachable({peer}),
                                PromotedToPlayer(r.players[peer].slot, r.defaultKeyboardAccess, r.defaultMouseAccess)),
                        Reachable(r.peers - {""}), RoomUpdated(r.players))
        && idrRequests == idrBefore + 1
      else
        sent == Deliver(sentBefore, Reachable({peer}), Error("No player slots available", "room_full"))
        && r.players == before && idrRequests == idrBefore
    }

    /** Promotes the peer in its room and reports the outcome. */
    method Promote(r: Room, peer: PeerId)
      requires Valid() && r.code in rooms.rooms && rooms.rooms[r.code] == r
      modifies this, r
      ensures Valid()
      ensures wsToPeer == old(wsToPeer) && peerToWs == old(peerToWs) && capturing == old(capturing)
      ensures maxBitrate == old(maxBitrate) && encoderCodec == old(encoderCodec)
      ensures PromoteOutcome(r, peer, old(r.players), old(sent), old(idrRequests))
      ensures r.peers == old(r.peers) && r.Gamepads() == old(r.Gamepads()) && r.Defaults() == old(r.Defaults())
      ensures peer in old(r.players) && !old(r.players[peer].isSpectator) ==> r.players == old(r.players)
      ensures peer in old(r.players) && old(r.players[peer].isSpectator) && r.players != old(r.players) ==>
        r.players == old(r.players)[peer := old(r.players[peer]).(slot := r.players[peer].slot, isSpectator := false)]
    {
      var slot := r.PromoteToPlayer(peer);
      assert Valid();
      if slot == NONE {
        SendError(peer, "No player slots available", "room_full");
        return;
      }
      AnnouncePromotion(r, peer, slot);
    }

    /** The promoted peer is told its slot and access, everyone the new player list, and a key frame is requested. */
    method AnnouncePromotion(r: Room, peer: PeerId, slot: Slot)
      requires Valid() && r.code in rooms.rooms && rooms.rooms[r.code] == r
      modifies this
      ensures Valid()
      ensures wsToPeer == old(wsToPeer) && peerToWs == old(peerToWs) && capturing == old(capturing)
      ensures maxBitrate == old(maxBitrate) && encoderCodec == old(encoderCodec)
      ensures idrRequests == old(idrRequests) + 1
      ensures sent == Deliver(Deliver(old(sent), Reachable({peer}), PromotedToPlayer(slot, r.defaultKeyboardAccess, r.defaultMouseAccess)),
                              Reachable(r.peers - {""}), RoomUpdated(r.players))
    {
      var _ := SendToPeer(peer, PromotedToPlayer(slot, r.defaultKeyboardAccess, r.defaultMouseAccess));
      BroadcastToRoom(r.code, RoomUpdated(PlayersOf(r.code)), "");
      idrRequests := idrRequests + 1;
    }

    /**
     * `claim_gamepad`. A peer without a room gets `not_in_room`; a peer the
     * room gives no server slot (see `Room.ClaimGamepad`) gets
     * `gamepad_error`; otherwise the peer is told its browser gamepad's
     * server slot.
     */
    method HandleClaimGamepad(peer: PeerId, gamepadId: int)
      requires Valid()
      modifies this, RoomFrame(peer)
      ensures Valid()
      ensures Config() == old(Config())
      ensures old(rooms.FindRoomByPeer(peer)).None? ==>
        sent == Deliver(old(sent), Reachable({peer}), Error("Not in a room", "not_in_room"))
      ensures var r := old(rooms.FindRoomByPeer(peer));
        r.Some? ==> ClaimOutcome(r.value, peer, gamepadId, old(r.value.players), old(r.value.peerGamepadMappings),
                                 old(r.value.gamepadSlotOwners), old(r.value.nextGamepadSlot), old(sent))
      ensures var r := old(rooms.FindRoomByPeer(peer));
        r.Some? ==> r.value.peers == old(r.value.peers) && r.value.Defaults() == old(r.value.Defaults())
    {
      var found := rooms.FindRoomByPeer(peer);
      if found.None? {
        SendError(peer, "Not in a room", "not_in_room");
        return;
      }
      var r := found.value;
      var slot := r.ClaimGamepad(peer, gamepadId);
      assert Valid();
      if slot < 0 {
        SendError(peer, "Failed to claim gamepad", "gamepad_error");
      } else {
        var _ := SendToPeer(peer, GamepadClaimed(gamepadId, slot));
      }
    }

    /**
     * The reply to a claim and the room's gamepad tables after it, given
     * the tables before. A spectator or a peer without a player entry gets
     * `gamepad_error` and nothing changes; a browser gamepad claimed before
     * gets its server slot again and nothing changes. A new one gets the
     * next server slot, which the peer now owns, maps and lists, and the
     * counter moves on; once all sixteen have been handed out it gets
     * `gamepad_error` instead, and only an empty mapping may be added.
     */
    ghost predicate ClaimOutcome(r: Room, peer: PeerId, gamepadId: int, players: map<PeerId, PlayerInfo>,
                                 mappings: map<PeerId, map<int, int>>, owners: map<int, PeerId>, next: int,
                                 sentBefore: Mailboxes)
      reads this, r
    {
      var error := Deliver(sentBefore, Reachable({peer}), Error("Failed to claim gamepad", "gamepad_error"));
      var kept := r.players == players && r.gamepadSlotOwners == owners && r.nextGamepadSlot == next;
      if peer !in players || players[peer].isSpectator then
        sent == error && kept && r.peerGamepadMappings == mappings
      else if Mapped(mappings, peer, gamepadId) then
        sent == Deliver(sentBefore, Reachable({peer}), GamepadClaimed(gamepadId, mappings[peer][gamepadId]))
        && kept && r.peerGamepadMappings == mappings
      else if next >= MAX_GAMEPADS then
        sent == error && kept && r.peerGamepadMappings == mappings[peer := MappingOf(mappings, peer)]
      else
        sent == Deliver(sentBefore, Reachable({peer}), GamepadClaimed(gamepadId, next))
        && r.nextGamepadSlot == next + 1
        && r.gamepadSlotOwners == owners[next := peer]
        && r.peerGamepadMappings == mappings[peer := MappingOf(mappings, peer)[gamepadId := next]]
        && r.players == players[peer := players[peer].(gamepadIds := players[peer].gamepadIds + [next])]
    }

    /**
     * `release_gamepad`. A peer without a room gets `not_in_room`; otherwise
     * the room releases the slot if the peer owns it, and the peer is told
     * `gamepad_released` for the slot either way.
     */
    method HandleReleaseGamepad(peer: PeerId, slot: int)
      requires Valid()
      modifies this, RoomFrame(peer)
      ensures Valid()
      ensures Config() == old(Config())
      ensures old(rooms.FindRoomByPeer(peer)).None? ==>
        sent == Deliver(old(sent), Reachable({peer}), Error("Not in a room", "not_in_room"))
      ensures var r := old(rooms.FindRoomByPeer(peer));
        r.Some? ==> sent == Deliver(old(sent), Reachable({peer}), GamepadReleased(slot))
      ensures var r := old(rooms.FindRoomByPeer(peer));
        r.Some? && slot in old(r.value.gamepadSlotOwners) && old(r.value.gamepadSlotOwners[slot]) == peer ==>
          r.value.gamepadSlotOwners == old(r.value.gamepadSlotOwners) - {slot}
      ensures var r := old(rooms.FindRoomByPeer(peer));
        r.Some? && slot in old(r.value.gamepadSlotOwners) && old(r.value.gamepadSlotOwners[slot]) == peer
        && MapsTo(old(MappingOf(r.value.peerGamepadMappings, peer)), slot) ==>
          exists b :: b in old(r.value.peerGamepadMappings)[peer] && old(r.value.peerGamepadMappings)[peer][b] == slot
            && r.value.peerGamepadMappings == old(r.value.peerGamepadMappings)[peer := old(r.value.peerGamepadMappings)[peer] - {b}]
      ensures var r := old(rooms.FindRoomByPeer(peer));
        r.Some? && slot in old(r.value.gamepadSlotOwners) && old(r.value.gamepadSlotOwners[slot]) == peer && peer in old(r.value.players) ==>
          r.value.players == old(r.value.players)[peer := old(r.value.players)[peer].(gamepadIds := RemoveAll(old(r.value.players)[peer].gamepadIds, slot))]
      ensures var r := old(rooms.FindRoomByPeer(peer));
        r.Some? && !(slot in old(r.value.gamepadSlotOwners) && old(r.value.gamepadSlotOwners[slot]) == peer) ==>
          r.value.gamepadSlotOwners == old(r.value.gamepadSlotOwners) && r.value.players == old(r.value.players)
          && r.value.peerGamepadMappings == old(r.value.peerGamepadMappings)
      ensures var r := old(rooms.FindRoomByPeer(peer));
        r.Some? && !MapsTo(old(MappingOf(r.value.peerGamepadMappings, peer)), slot) ==>
          r.value.peerGamepadMappings == old(r.value.peerGamepadMappings)
      ensures var r := old(rooms.FindRoomByPeer(peer));
        r.Some? ==> r.value.peers == old(r.value.peers) && r.value.nextGamepadSlot == old(r.value.nextGamepadSlot)
                    && r.value.Defaults() == old(r.value.Defaults())
    {
      var found := rooms.FindRoomByPeer(peer);
      if found.None? {
        SendError(peer, "Not in a room", "not_in_room");
        return;
      }
      var r := found.value;
      r.ReleaseGamepad(peer, slot);
      assert Valid();
      var _ := SendToPeer(peer, GamepadReleased(slot));
    }

    /**
     * `sdp`. A peer without a WebRTC peer gets `peer_not_found`. Otherwise
     * the remote description is applied, and an offer is answered with a
     * local answer; a peer whose connection is gone takes neither.
     */
    method HandleSdp(peer: PeerId, sdp: string, sdpType: string)
      requires Valid()
      modifies this, PeerFrame(peer)
      ensures Valid()
      ensures Config() == old(Config())
      ensures peer !in peerMgr.peers ==>
        sent == Deliver(old(sent), Reachable({peer}), Error("Peer not found", "peer_not_found"))
      ensures peer in peerMgr.peers ==> sent == old(sent)
      ensures peer in peerMgr.peers && old(peerMgr.peers[peer].hasConnection) ==>
        peerMgr.peers[peer].remoteDescription == Some((sdp, DescriptionTypeOf(sdpType)))
        && peerMgr.peers[peer].localDescriptions
           == old(peerMgr.peers[peer].localDescriptions) + (if sdpType == "offer" then [Answer] else [])
      ensures peer in peerMgr.peers && !old(peerMgr.peers[peer].hasConnection) ==>
        peerMgr.peers[peer].remoteDescription == old(peerMgr.peers[peer].remoteDescription)
        && peerMgr.peers[peer].localDescriptions == old(peerMgr.peers[peer].localDescriptions)
      ensures peer in peerMgr.peers ==>
        peerMgr.peers[peer].Media() == old(peerMgr.peers[peer].Media())
        && peerMgr.peers[peer].remoteCandidates == old(peerMgr.peers[peer].remoteCandidates)
    {
      var found := peerMgr.FindPeer(peer);
      if found.None? {
        SendError(peer, "Peer not found", "peer_not_found");
        return;
      }
      var p := found.value;
      var _ := p.SetRemoteDescription(sdp, sdpType);
      if sdpType == "offer" {
        var _ := p.CreateDescription("answer");
      }
    }

    /** `ice`: a peer without a WebRTC peer gets `peer_not_found`; otherwise the candidate is added. */
    method HandleIce(peer: PeerId, candidate: string, mid: string)
      requires Valid()
      modifies this, PeerFrame(peer)
      ensures Valid()
      ensures Config() == old(Config())
      ensures peer !in peerMgr.peers ==>
        sent == Deliver(old(sent), Reachable({peer}), Error("Peer not found", "peer_not_found"))
      ensures peer in peerMgr.peers ==>
        sent == old(sent)
        && peerMgr.peers[peer].remoteCandidates
           == old(peerMgr.peers[peer].remoteCandidates)
              + (if old(peerMgr.peers[peer].hasConnection) then [(candidate, mid)] else [])
        && peerMgr.peers[peer].Media() == old(peerMgr.peers[peer].Media())
        && peerMgr.peers[peer].remoteDescription == old(peerMgr.peers[peer].remoteDescription)
        && peerMgr.peers[peer].localDescriptions == old(peerMgr.peers[peer].localDescriptions)
    {
      var found := peerMgr.FindPeer(peer);
      if found.None? {
        SendError(peer, "Peer not found", "peer_not_found");
        return;
      }
      var _ := found.value.AddIceCandidate(candidate, mid);
    }

    /**
     * `set_guest_keyboard`. A peer without a room gets `not_in_room`, one
     * that is not the room's host gets `not_host`; otherwise see
     * `SetGuestKeyboard`.
     */
    method HandleSetGuestKeyboard(peer: PeerId, target: PeerId, enabled: bool)
      requires Valid()
      modifies this, RoomFrame(peer)
      ensures Valid()
      ensures Config() == old(Config())
      ensures old(rooms.FindRoomByPeer(peer)).None? ==>
        sent == Deliver(old(sent), Reachable({peer}), Error("Not in a room", "not_in_room"))
      ensures var r := old(rooms.FindRoomByPeer(peer));
        r.Some? && peer != r.value.hostPeerId ==>
          sent == Deliver(old(sent), Reachable({peer}), Error("Only host can modify permissions", "not_host"))
          && unchanged(r.value)
      ensures var r := old(rooms.FindRoomByPeer(peer));
        r.Some? && peer == r.value.hostPeerId ==>
          r.value.defaultKeyboardAccess == enabled && r.value.defaultMouseAccess == old(r.value.defaultMouseAccess)
          && r.value.peers == old(r.value.peers) && r.value.Gamepads() == old(r.value.Gamepads())
          && AccessOutcome(r.value, target, old(r.value.players), old(sent), KeyboardPermission(enabled))
          && (target in old(r.value.players) && !old(r.value.players[target].isHost) ==>
                r.value.players == old(r.value.players)[target := old(r.value.players[target]).(canUseKeyboard := enabled)])
    {
      var found := rooms.FindRoomByPeer(peer);
      if found.None? {
        SendError(peer, "Not in a room", "not_in_room");
        return;
      }
      var r := found.value;
      if !r.IsHost(peer) {
        SendError(peer, "Only host can modify permissions", "not_host");
        return;
      }
      SetGuestKeyboard(r, target, enabled);
    }

    /**
     * A permission change in a room: a target with a player entry is told
     * its new permission and everyone gets the new player list; an unknown
     * target changes nothing and hears nothing. The host's own entry keeps
     * its access.
     */
    ghost predicate AccessOutcome(r: Room, target: PeerId, before: map<PeerId, PlayerInfo>, sentBefore: Mailboxes, notice: Message)
      reads this, r
    {
      if target in before then
        sent == Deliver(Deliver(sentBefore, Reachable({target}), notice), Reachable(r.peers - {""}), RoomUpdated(r.players))
        && (before[target].isHost ==> r.players == before)
      else sent == sentBefore && r.players == before
    }

    /** The host's keyboard toggle: the default for guests to come, then the target's access. */
    method SetGuestKeyboard(r: Room, target: PeerId, enabled: bool)
      requires Valid() && r.code in rooms.rooms && rooms.rooms[r.code] == r
      modifies this, r
      ensures Valid()
      ensures Config() == old(Config())
      ensures r.defaultKeyboardAccess == enabled && r.defaultMouseAccess == old(r.defaultMouseAccess)
      ensures r.peers == old(r.peers) && r.Gamepads() == old(r.Gamepads())
      ensures AccessOutcome(r, target, old(r.players), old(sent), KeyboardPermission(enabled))
      ensures target in old(r.players) && !old(r.players[target].isHost) ==>
        r.players == old(r.players)[target := old(r.players[target]).(canUseKeyboard := enabled)]
    {
      r.SetDefaultKeyboardAccess(enabled);
      var ok := r.SetKeyboardAccess(target, enabled);
      assert Valid();
      if ok {
        var _ := SendToPeer(target, KeyboardPermission(enabled));
        BroadcastToRoom(r.code, RoomUpdated(PlayersOf(r.code)), "");
      }
    }

    /** `set_guest_mouse`, as `HandleSetGuestKeyboard` for the mouse. */
    method HandleSetGuestMouse(peer: PeerId, target: PeerId, enabled: bool)
      requires Valid()
      modifies this, RoomFrame(peer)
      ensures Valid()
      ensures Config() == old(Config())
      ensures old(rooms.FindRoomByPeer(peer)).None? ==>
        sent == Deliver(old(sent), Reachable({peer}), Error("Not in a room", "not_in_room"))
      ensures var r := old(rooms.FindRoomByPeer(peer));
        r.Some? && peer != r.value.hostPeerId ==>
          sent == Deliver(old(sent), Reachable({peer}), Error("Only host can modify permissions", "not_host"))
          && unchanged(r.value)
      ensures var r := old(rooms.FindRoomByPeer(peer));
        r.Some? && peer == r.value.hostPeerId ==>
          r.value.defaultMouseAccess == enabled && r.value.defaultKeyboardAccess == old(r.value.defaultKeyboardAccess)
          && r.value.peers == old(r.value.peers) && r.value.Gamepads() == old(r.value.Gamepads())
          && AccessOutcome(r.value, target, old(r.value.players), old(sent), MousePermission(enabled))
          && (target in old(r.value.players) && !old(r.value.players[target].isHost) ==>
                r.value.players == old(r.value.players)[target := old(r.value.players[target]).(canUseMouse := enabled)])
    {
      var found := rooms.FindRoomByPeer(peer);
      if found.None? {
        SendError(peer, "Not in a room", "not_in_room");
        return;
      }
      var r := found.value;
      if !r.IsHost(peer) {
        SendError(peer, "Only host can modify permissions", "not_host");
        return;
      }
      SetGuestMouse(r, target, enabled);
    }

    /** The host's mouse toggle: the default for guests to come, then the target's access. */
    method SetGuestMouse(r: Room, target: PeerId, enabled: bool)
      requires Valid() && r.code in rooms.rooms && rooms.rooms[r.code] == r
      modifies this, r
      ensures Valid()
      ensures Config() == old(Config())
      ensures r.defaultMouseAccess == enabled && r.defaultKeyboardAccess == old(r.defaultKeyboardAccess)
      ensures r.peers == old(r.peers) && r.Gamepads() == old(r.Gamepads())
      ensures AccessOutcome(r, target, old(r.players), old(sent), MousePermission(enabled))
      ensures target in old(r.players) && !old(r.players[target].isHost) ==>
        r.players == old(r.players)[target := old(r.players[target]).(canUseMouse := enabled)]
    {
      r.SetDefaultMouseAccess(enabled);
      var ok := r.SetMouseAccess(target, enabled);
      assert Valid();
      if ok {
        var _ := SendToPeer(target, MousePermission(enabled));
        BroadcastToRoom(r.code, RoomUpdated(PlayersOf(r.code)), "");
      }
    }

    /**
     * `set_quality`. A peer without a room gets `not_in_room`, one that is
     * not the host `not_host`; for the host the settings are clamped, the
     * clamped bitrate becomes the maximum bitrate, and the host is told the
     * clamped values.
     */
    method HandleSetQuality(peer: PeerId, bitrate: int, framerate: int, width: int, height: int)
      requires Valid()
      modifies this
      ensures Valid()
      ensures wsToPeer == old(wsToPeer) && peerToWs == old(peerToWs) && capturing == old(capturing)
      ensures idrRequests == old(idrRequests) && encoderCodec == old(encoderCodec)
      ensures rooms.FindRoomByPeer(peer).None? ==>
        sent == Deliver(old(sent), Reachable({peer}), Error("Not in a room", "not_in_room")) && maxBitrate == old(maxBitrate)
      ensures rooms.FindRoomByPeer(peer).Some? && peer != rooms.FindRoomByPeer(peer).value.hostPeerId ==>
        sent == Deliver(old(sent), Reachable({peer}), Error("Only host can modify quality settings", "not_host"))
        && maxBitrate == old(maxBitrate)
      ensures rooms.FindRoomByPeer(peer).Some? && peer == rooms.FindRoomByPeer(peer).value.hostPeerId ==>
        sent == Deliver(old(sent), Reachable({peer}), QualityReply(bitrate, framerate, width, height))
        && maxBitrate == QualityReply(bitrate, framerate, width, height).bitrate
        && MIN_BITRATE <= maxBitrate <= MAX_BITRATE
    {
      var found := rooms.FindRoomByPeer(peer);
      if found.None? {
        SendError(peer, "Not in a room", "not_in_room");
        return;
      }
      if !found.value.IsHost(peer) {
        SendError(peer, "Only host can modify quality settings", "not_host");
        return;
      }
      var reply := QualityReply(bitrate, framerate, width, height);
      maxBitrate := reply.bitrate;
      var _ := SendToPeer(peer, reply);
    }

    /** A peer's connection came up: a key frame is requested and the peer is told `stream_ready`. */
    method OnPeerStateChange(peer: PeerId, state: PeerState)
      requires Valid()
      modifies this
      ensures Valid()
      ensures wsToPeer == old(wsToPeer) && peerToWs == old(peerToWs) && capturing == old(capturing)
      ensures maxBitrate == old(maxBitrate) && encoderCodec == old(encoderCodec)
      ensures state == CONNECTED ==>
        idrRequests == old(idrRequests) + 1 && sent == Deliver(old(sent), Reachable({peer}), StreamReady)
      ensures state != CONNECTED ==> idrRequests == old(idrRequests) && sent == old(sent)
    {
      if state == CONNECTED {
        idrRequests := idrRequests + 1;
        var _ := SendToPeer(peer, StreamReady);
      }
    }

    /** The peer's local description goes to its client as an `sdp` message. */
    method OnLocalDescription(peer: PeerId, sdp: string, sdpType: string)
      requires Valid()
      modifies this
      ensures Valid()
      ensures Config() == old(Config())
      ensures sent == Deliver(old(sent), Reachable({peer}), LocalSdp(sdp, sdpType))
    {
      var _ := SendToPeer(peer, LocalSdp(sdp, sdpType));
    }

    /** The peer's local ICE candidate goes to its client as an `ice` message. */
    method OnLocalCandidate(peer: PeerId, candidate: string, mid: string)
      requires Valid()
      modifies this
      ensures Valid()
      ensures Config() == old(Config())
      ensures sent == Deliver(old(sent), Reachable({peer}), LocalIce(candidate, mid))
    {
      var _ := SendToPeer(peer, LocalIce(candidate, mid));
    }
  }
}
