/**
 * Browser input over the "input" data channel. A message is a type byte
 * followed by little-endian fields: gamepad state, keyboard key, mouse
 * move (absolute or relative), mouse button and mouse scroll. Decoded
 * events pass a room gate (keyboard and mouse permission, gamepad seats and
 * server slots, with gamepads claimed on first use) and are then handed to
 * the host input system, which the model records as a list of calls.
 * Rumble goes the other way, as an 8-byte message to the peer.
 */
module Input {
  import opened Wrappers
  import opened Bytes
  import opened Rooms
  import opened Peers
  import Signaling

  type I16 = x: int | -0x8000 <= x < 0x8000

  /** `InputType` codes. Rumble and touch have codes but are not decoded from the browser. */
  const GAMEPAD_STATE: Byte := 0x01
  const GAMEPAD_RUMBLE: Byte := 0x02
  const KEYBOARD_KEY: Byte := 0x10
  const MOUSE_MOVE: Byte := 0x20
  const MOUSE_BUTTON: Byte := 0x21
  const MOUSE_SCROLL: Byte := 0x22
  const TOUCH: Byte := 0x30

  /** Packet type of Sunshine's multi-controller packet, and its header size. */
  const MULTI_CONTROLLER: Byte := 0x0D
  const GAMEPAD_HEADER_SIZE: U16 := 22
  const STICK_MID: Byte := 0x7F

  datatype GamepadState = GamepadState(gamepadId: Byte, buttons: U16, leftTrigger: Byte, rightTrigger: Byte,
                                       leftStickX: I16, leftStickY: I16, rightStickX: I16, rightStickY: I16)
  datatype KeyboardEvent = KeyboardEvent(keyCode: U16, modifiers: Byte, pressed: bool)
  datatype MouseMoveEvent = MouseMoveEvent(deltaX: I16, deltaY: I16, absX: U16, absY: U16, isAbsolute: bool)
  datatype MouseButtonEvent = MouseButtonEvent(button: Byte, pressed: bool)
  datatype MouseScrollEvent = MouseScrollEvent(deltaX: I16, deltaY: I16, highResolution: bool)

  datatype InputEvent =
    | Gamepad(gamepad: GamepadState)
    | Keyboard(key: KeyboardEvent)
    | MouseMove(move: MouseMoveEvent)
    | MouseButton(click: MouseButtonEvent)
    | MouseScroll(scroll: MouseScrollEvent)

  /** The type byte an event travels under. */
  function TypeOf(e: InputEvent): Byte
  {
    match e
    case Gamepad(_) => GAMEPAD_STATE
    case Keyboard(_) => KEYBOARD_KEY
    case MouseMove(_) => MOUSE_MOVE
    case MouseButton(_) => MOUSE_BUTTON
    case MouseScroll(_) => MOUSE_SCROLL
  }

  /** The types the decoder handles; every other byte is an unknown type. */
  predicate Handled(t: Byte)
  {
    t == GAMEPAD_STATE || t == KEYBOARD_KEY || t == MOUSE_MOVE || t == MOUSE_BUTTON || t == MOUSE_SCROLL
  }

  /** The shortest message of a handled type: 14, 5, 6, 3 and 6 bytes. */
  function MinLength(t: Byte): nat
  {
    if t == GAMEPAD_STATE then 14
    else if t == KEYBOARD_KEY then 5
    else if t == MOUSE_MOVE || t == MOUSE_SCROLL then 6
    else if t == MOUSE_BUTTON then 3
    else 0
  }

  /**
   * The events the decoder can produce: an absolute move carries no
   * deltas, a relative one no position, and every scroll is high-resolution.
   */
  predicate Canonical(e: InputEvent)
  {
    match e
    case MouseMove(m) => if m.isAbsolute then m.deltaX == 0 && m.deltaY == 0 else m.absX == 0 && m.absY == 0
    case MouseScroll(s) => s.highResolution
    case _ => true
  }

  function Signed(lo: Byte, hi: Byte): I16
  {
    ToInt16(Le16(lo, hi))
  }

  /** The two bytes of an `int16_t`, least significant first. */
  function SignedLe16(x: I16): (r: seq<Byte>)
    ensures |r| == 2 && Signed(r[0], r[1]) == x
  {
    ToLe16(FromInt16(x))
  }

  /**
   * `process_input`'s decoding: nothing for an empty message, an unknown
   * type or a message shorter than its type needs; bytes past that length
   * are ignored.
   */
  function Decode(data: seq<Byte>): (r: Option<InputEvent>)
    ensures r.Some? <==> |data| >= 1 && Handled(data[0]) && |data| >= MinLength(data[0])
    ensures r.Some? ==> TypeOf(r.value) == data[0] && Canonical(r.value)
  {
    if |data| < 1 then None
    else if data[0] == GAMEPAD_STATE then
      if |data| >= 14 then
        Some(Gamepad(GamepadState(data[1], Le16(data[2], data[3]), data[4], data[5],
                                  Signed(data[6], data[7]), Signed(data[8], data[9]),
                                  Signed(data[10], data[11]), Signed(data[12], data[13]))))
      else None
    else if data[0] == KEYBOARD_KEY then
      if |data| >= 5 then Some(Keyboard(KeyboardEvent(Le16(data[1], data[2]), data[3], data[4] != 0))) else None
    else if data[0] == MOUSE_MOVE then
      if |data| >= 6 then
        var absolute := data[1] % 2 == 1;
        if absolute then Some(MouseMove(MouseMoveEvent(0, 0, Le16(data[2], data[3]), Le16(data[4], data[5]), true)))
        else Some(MouseMove(MouseMoveEvent(Signed(data[2], data[3]), Signed(data[4], data[5]), 0, 0, false)))
      else None
    else if data[0] == MOUSE_BUTTON then
      if |data| >= 3 then Some(MouseButton(MouseButtonEvent(data[1], data[2] != 0))) else None
    else if data[0] == MOUSE_SCROLL then
      if |data| >= 6 then Some(MouseScroll(MouseScrollEvent(Signed(data[2], data[3]), Signed(data[4], data[5]), true)))
      else None
    else None
  }

  /**
   * The browser's side of the format: the shortest message for an event,
   * with the absolute flag as 1 or 0, `pressed` as 1 or 0 and a zero
   * reserved scroll byte.
   */
  function Encode(e: InputEvent): (m: seq<Byte>)
    ensures |m| == MinLength(TypeOf(e)) && m[0] == TypeOf(e)
  {
    match e
    case Gamepad(s) =>
      [GAMEPAD_STATE, s.gamepadId] + ToLe16(s.buttons) + [s.leftTrigger, s.rightTrigger]
      + SignedLe16(s.leftStickX) + SignedLe16(s.leftStickY) + SignedLe16(s.rightStickX) + SignedLe16(s.rightStickY)
    case Keyboard(k) => [KEYBOARD_KEY] + ToLe16(k.keyCode) + [k.modifiers, if k.pressed then 1 else 0]
    case MouseMove(mv) =>
      if mv.isAbsolute then [MOUSE_MOVE, 1] + ToLe16(mv.absX) + ToLe16(mv.absY)
      else [MOUSE_MOVE, 0] + SignedLe16(mv.deltaX) + SignedLe16(mv.deltaY)
    case MouseButton(b) => [MOUSE_BUTTON, b.button, if b.pressed then 1 else 0]
    case MouseScroll(s) => [MOUSE_SCROLL, 0] + SignedLe16(s.deltaX) + SignedLe16(s.deltaY)
  }

  /** Every event the decoder can produce comes back from its encoding. */
  lemma DecodeEncode(e: InputEvent)
    requires Canonical(e)
    ensures Decode(Encode(e)) == Some(e)
  {
    var m := Encode(e);
    match e
    case Gamepad(s) =>
      assert Le16(m[2], m[3]) == s.buttons;
      assert Signed(m[6], m[7]) == s.leftStickX;
      assert Signed(m[8], m[9]) == s.leftStickY;
      assert Signed(m[10], m[11]) == s.rightStickX;
      assert Signed(m[12], m[13]) == s.rightStickY;
    case Keyboard(k) =>
      assert Le16(m[1], m[2]) == k.keyCode;
    case MouseMove(mv) =>
      assert mv.isAbsolute ==> Le16(m[2], m[3]) == mv.absX && Le16(m[4], m[5]) == mv.absY;
      assert !mv.isAbsolute ==> Signed(m[2], m[3]) == mv.deltaX && Signed(m[4], m[5]) == mv.deltaY;
    case MouseButton(b) =>
    case MouseScroll(s) =>
      assert Signed(m[2], m[3]) == s.deltaX && Signed(m[4], m[5]) == s.deltaY;
  }

  /** Bytes after the decoded ones change nothing. */
  lemma DecodeIgnoresTail(data: seq<Byte>, tail: seq<Byte>)
    requires Decode(data).Some?
    ensures Decode(data + tail) == Decode(data)
  {
    var n := MinLength(data[0]);
    assert (data + tail)[..n] == data[..n];
    assert forall i :: 0 <= i < n ==> (data + tail)[i] == data[..n][i];
  }

  /** `1 << slot` for the sixteen server slots. */
  function Bit(slot: nat): (b: nat)
    requires slot < 16
    ensures 1 <= b < TWO_16
    ensures slot > 0 ==> b == 2 * Bit(slot - 1)
  {
    if slot == 0 then 1 else 2 * Bit(slot - 1)
  }

  /**
   * The first 8 bytes of Sunshine's multi-controller packet for a server
   * slot: packet type, header size 22, the slot, the active mask with only
   * the slot's bit set, and two mid bytes.
   */
  function GamepadHeader(slot: nat): (h: seq<Byte>)
    requires slot < 16
    ensures |h| == 8 && h[0] == MULTI_CONTROLLER && Le16(h[1], h[2]) == GAMEPAD_HEADER_SIZE && h[3] == slot
    ensures Le16(h[4], h[5]) == Bit(slot) && h[6] == STICK_MID && h[7] == STICK_MID
  {
    var header, mask := ToLe16(GAMEPAD_HEADER_SIZE), ToLe16(Bit(slot));
    [MULTI_CONTROLLER, header[0], header[1], slot, mask[0], mask[1], STICK_MID, STICK_MID]
  }

  /** The 12 bytes of controller state: buttons, both triggers and the four stick axes, least significant byte first. */
  function ControllerState(s: GamepadState): (c: seq<Byte>)
    ensures |c| == 12 && Le16(c[0], c[1]) == s.buttons && c[2] == s.leftTrigger && c[3] == s.rightTrigger
    ensures Signed(c[4], c[5]) == s.leftStickX && Signed(c[6], c[7]) == s.leftStickY
    ensures Signed(c[8], c[9]) == s.rightStickX && Signed(c[10], c[11]) == s.rightStickY
  {
    var buttons := ToLe16(s.buttons);
    var lx, ly := SignedLe16(s.leftStickX), SignedLe16(s.leftStickY);
    var rx, ry := SignedLe16(s.rightStickX), SignedLe16(s.rightStickY);
    [buttons[0], buttons[1], s.leftTrigger, s.rightTrigger, lx[0], lx[1], ly[0], ly[1], rx[0], rx[1], ry[0], ry[1]]
  }

  /** The 20-byte multi-controller packet Sunshine's input system takes for one gamepad. */
  function GamepadPacket(slot: nat, s: GamepadState): (p: seq<Byte>)
    requires slot < 16
    ensures |p| == 20 && p[..8] == GamepadHeader(slot) && p[8..] == ControllerState(s)
  {
    GamepadHeader(slot) + ControllerState(s)
  }

  /**
   * The rumble message: type 2, the slot cut to a byte, then the low and
   * high frequency motors and the duration, each least significant byte first.
   */
  function RumbleMessage(slot: int, lowFreq: U16, highFreq: U16, durationMs: U16): (m: seq<Byte>)
    ensures |m| == 8 && m[0] == GAMEPAD_RUMBLE && m[1] == slot % 0x100
    ensures Le16(m[2], m[3]) == lowFreq && Le16(m[4], m[5]) == highFreq && Le16(m[6], m[7]) == durationMs
  {
    var low, high, duration := ToLe16(lowFreq), ToLe16(highFreq), ToLe16(durationMs);
    [GAMEPAD_RUMBLE, slot % 0x100, low[0], low[1], high[0], high[1], duration[0], duration[1]]
  }

  /** What the input system receives: the direct `input::` calls, and gamepad packets. */
  datatype SystemInput =
    | Key(keyCode: U16, release: bool)
    | MouseRelative(deltaX: I16, deltaY: I16)
    | MouseAbsolute(x: U16, y: U16)
    | MouseButtonInput(button: Byte, pressed: bool)
    | MouseScrollInput(amount: I16, horizontal: bool)
    | GamepadPacketInput(packet: seq<Byte>)

  function KeyboardAllowed(rm: RoomManager, peer: PeerId): bool
    reads rm, rm.rooms.Values
  {
    rm.FindRoomByPeer(peer).Some? && rm.FindRoomByPeer(peer).value.CanUseKeyboard(peer)
  }

  function MouseAllowed(rm: RoomManager, peer: PeerId): bool
    reads rm, rm.rooms.Values
  {
    rm.FindRoomByPeer(peer).Some? && rm.FindRoomByPeer(peer).value.CanUseMouse(peer)
  }

  /**
   * The server slot a peer's browser gamepad goes to: none without a room
   * or a player seat, the claimed slot if there is one, otherwise the next
   * free slot, and none once all sixteen are handed out.
   */
  function GamepadRoute(rm: RoomManager, peer: PeerId, browserId: Byte): (r: Option<int>)
    requires rm.Valid()
    reads rm, rm.rooms.Values
    ensures r.Some? ==> 0 <= r.value < MAX_GAMEPADS
  {
    match rm.FindRoomByPeer(peer)
    case None => None
    case Some(room) =>
      assert room in rm.rooms.Values;
      SlotRoute(room, peer, browserId)
  }

  /** GamepadRoute within the peer's room. */
  function SlotRoute(room: Room, peer: PeerId, browserId: Byte): (r: Option<int>)
    requires room.Valid()
    reads room
    ensures r.Some? ==> 0 <= r.value < MAX_GAMEPADS
  {
    if peer !in room.players || room.players[peer].isSpectator then None
    else if Mapped(room.peerGamepadMappings, peer, browserId) then Some(room.peerGamepadMappings[peer][browserId])
    else if room.nextGamepadSlot < MAX_GAMEPADS then Some(room.nextGamepadSlot)
    else None
  }

  /** The vertical scroll first, then the horizontal one, each only when its delta is not zero. */
  function ScrollInputs(s: MouseScrollEvent): seq<SystemInput>
  {
    (if s.deltaY != 0 then [MouseScrollInput(s.deltaY, false)] else [])
    + (if s.deltaX != 0 then [MouseScrollInput(s.deltaX, true)] else [])
  }

  /**
   * What one decoded event makes the input system do, given the rooms:
   * keys need keyboard permission and are passed as key-up when not pressed;
   * mouse events need mouse permission, buttons are numbered from 1 (as a
   * byte); gamepad state becomes a packet for its server slot.
   */
  function Routed(rm: RoomManager, peer: PeerId, e: InputEvent): seq<SystemInput>
    requires rm.Valid()
    reads rm, rm.rooms.Values
  {
    match e
    case Keyboard(k) => if KeyboardAllowed(rm, peer) then [Key(k.keyCode, !k.pressed)] else []
    case MouseMove(m) =>
      if !MouseAllowed(rm, peer) then []
      else if m.isAbsolute then [MouseAbsolute(m.absX, m.absY)]
      else [MouseRelative(m.deltaX, m.deltaY)]
    case MouseButton(b) => if MouseAllowed(rm, peer) then [MouseButtonInput((b.button + 1) % 0x100, b.pressed)] else []
    case MouseScroll(s) => if MouseAllowed(rm, peer) then ScrollInputs(s) else []
    case Gamepad(s) =>
      var route := GamepadRoute(rm, peer, s.gamepadId);
      if route.Some? then [GamepadPacketInput(GamepadPacket(route.value, s))] else []
  }

  /** A peer without a room reaches nothing: no key, no mouse, no gamepad. */
  lemma RoomlessPeerIgnored(rm: RoomManager, peer: PeerId, e: InputEvent)
    requires rm.Valid() && rm.FindRoomByPeer(peer).None?
    ensures Routed(rm, peer, e) == []
  {
  }

  /** A spectator's gamepad state is never forwarded, whatever its mappings. */
  lemma SpectatorGamepadIgnored(rm: RoomManager, peer: PeerId, s: GamepadState)
    requires rm.Valid() && rm.FindRoomByPeer(peer).Some?
    requires var room := rm.FindRoomByPeer(peer).value; peer in room.players && room.players[peer].isSpectator
    ensures Routed(rm, peer, Gamepad(s)) == []
  {
  }

  /** The host of a room is always let through with keyboard and mouse. */
  lemma HostInputForwarded(rm: RoomManager, peer: PeerId, e: InputEvent)
    requires rm.Valid() && rm.FindRoomByPeer(peer).Some?
    requires var room := rm.FindRoomByPeer(peer).value; peer in room.players && room.players[peer].isHost
    requires e.Keyboard? || e.MouseMove? || e.MouseButton?
    ensures |Routed(rm, peer, e)| == 1
  {
    var room := rm.FindRoomByPeer(peer).value;
    assert room in rm.rooms.Values;
    room.HostHasAccess();
  }

  class InputHandler {
    const rooms: RoomManager
    const peerMgr: PeerManager
    /** Every call made to the input system, oldest first. */
    var forwarded: seq<SystemInput>

    constructor(rooms: RoomManager, peerMgr: PeerManager)
      ensures this.rooms == rooms && this.peerMgr == peerMgr && forwarded == []
    {
      this.rooms := rooms;
      this.peerMgr := peerMgr;
      forwarded := [];
    }

    /** The room a gamepad claim by the peer could change. */
    function RoomOf(peer: PeerId): set<object>
      reads rooms
    {
      if rooms.FindRoomByPeer(peer).Some? then {rooms.FindRoomByPeer(peer).value} else {}
    }

    /** Decodes a message and routes the event, if any, through its gate. */
    method ProcessInput(peer: PeerId, data: seq<Byte>)
      requires rooms.Valid()
      modifies this, RoomOf(peer)
      ensures rooms.Valid()
      ensures forwarded == old(forwarded) + (if Decode(data).Some? then old(Routed(rooms, peer, Decode(data).value)) else [])
    {
      var event := Decode(data);
      if event.None? {
        return;
      }
      match event.value
      case Gamepad(s) => ProcessGamepad(peer, s);
      case Keyboard(k) => ProcessKeyboard(peer, k);
      case MouseMove(m) => ProcessMouseMove(peer, m);
      case MouseButton(b) => ProcessMouseButton(peer, b);
      case MouseScroll(s) => ProcessMouseScroll(peer, s);
    }

    /**
     * Gamepad state from a seated player goes to its server slot, claiming
     * the next slot on first use; when no slot is left the state is dropped.
     * Only the claimed browser gamepad's slot changes.
     */
    method ProcessGamepad(peer: PeerId, s: GamepadState)
      requires rooms.Valid()
      modifies this, RoomOf(peer)
      ensures rooms.Valid()
      ensures forwarded == old(forwarded) + old(Routed(rooms, peer, Gamepad(s)))
      ensures var route := old(GamepadRoute(rooms, peer, s.gamepadId));
        route.Some? ==> rooms.FindRoomByPeer(peer).value.GamepadSlot(peer, s.gamepadId) == route.value
      ensures forall b :: b != s.gamepadId && rooms.FindRoomByPeer(peer).Some? ==>
        rooms.FindRoomByPeer(peer).value.GamepadSlot(peer, b) == old(rooms.FindRoomByPeer(peer).value.GamepadSlot(peer, b))
    {
      var room := rooms.FindRoomByPeer(peer);
      if room.None? {
        return;
      }
      assert room.value in rooms.rooms.Values;
      GamepadInRoom(room.value, peer, s);
    }

    /** ProcessGamepad once the peer's room is found. */
    method GamepadInRoom(r: Room, peer: PeerId, s: GamepadState)
      requires r.Valid()
      modifies this, r
      ensures r.Valid()
      ensures var route := old(SlotRoute(r, peer, s.gamepadId));
        forwarded == old(forwarded) + (if route.Some? then [GamepadPacketInput(GamepadPacket(route.value, s))] else [])
        && (route.Some? ==> r.GamepadSlot(peer, s.gamepadId) == route.value)
      ensures forall b :: b != s.gamepadId ==> r.GamepadSlot(peer, b) == old(r.GamepadSlot(peer, b))
    {
      var player := r.GetPlayer(peer);
      if player.None? || player.value.isSpectator {
        return;
      }
      var slot := r.GamepadSlot(peer, s.gamepadId);
      if slot < 0 {
        slot := r.ClaimGamepad(peer, s.gamepadId);
        if slot < 0 {
          return;
        }
      }
      var packet := BuildGamepadPacket(slot, s);
      forwarded := forwarded + [GamepadPacketInput(packet)];
    }

    method ProcessKeyboard(peer: PeerId, k: KeyboardEvent)
      modifies this
      ensures forwarded == old(forwarded) + (if KeyboardAllowed(rooms, peer) then [Key(k.keyCode, !k.pressed)] else [])
    {
      var room := rooms.FindRoomByPeer(peer);
      if room.None? {
        return;
      }
      if !room.value.CanUseKeyboard(peer) {
        return;
      }
      forwarded := forwarded + [Key(k.keyCode, !k.pressed)];
    }

    method ProcessMouseMove(peer: PeerId, m: MouseMoveEvent)
      modifies this
      ensures forwarded == old(forwarded) +
        (if !MouseAllowed(rooms, peer) then [] else if m.isAbsolute then [MouseAbsolute(m.absX, m.absY)]
         else [MouseRelative(m.deltaX, m.deltaY)])
    {
      var room := rooms.FindRoomByPeer(peer);
      if room.None? {
        return;
      }
      if !room.value.CanUseMouse(peer) {
        return;
      }
      if m.isAbsolute {
        forwarded := forwarded + [MouseAbsolute(m.absX, m.absY)];
      } else {
        forwarded := forwarded + [MouseRelative(m.deltaX, m.deltaY)];
      }
    }

    method ProcessMouseButton(peer: PeerId, b: MouseButtonEvent)
      modifies this
      ensures forwarded == old(forwarded) +
        (if MouseAllowed(rooms, peer) then [MouseButtonInput((b.button + 1) % 0x100, b.pressed)] else [])
    {
      var room := rooms.FindRoomByPeer(peer);
      if room.None? {
        return;
      }
      if !room.value.CanUseMouse(peer) {
        return;
      }
      forwarded := forwarded + [MouseButtonInput((b.button + 1) % 0x100, b.pressed)];
    }

    method ProcessMouseScroll(peer: PeerId, s: MouseScrollEvent)
      modifies this
      ensures forwarded == old(forwarded) + (if MouseAllowed(rooms, peer) then ScrollInputs(s) else [])
    {
      var room := rooms.FindRoomByPeer(peer);
      if room.None? {
        return;
      }
      if !room.value.CanUseMouse(peer) {
        return;
      }
      if s.deltaY != 0 {
        forwarded := forwarded + [MouseScrollInput(s.deltaY, false)];
      }
      if s.deltaX != 0 {
        forwarded := forwarded + [MouseScrollInput(s.deltaX, true)];
      }
    }

    /**
     * Writes the rumble message into an 8-byte buffer and sends it on the
     * peer's input channel; an unknown peer gets nothing, and a closed
     * channel drops the message.
     */
    method SendRumble(peer: PeerId, slot: int, lowFreq: U16, highFreq: U16, durationMs: U16)
      modifies if peer in peerMgr.peers then {peerMgr.peers[peer]} else {}
      ensures peer in peerMgr.peers ==>
        var p := peerMgr.peers[peer];
        p.channelOut == old(p.channelOut)
          + (if Signaling.INPUT_CHANNEL in p.channels && p.channels[Signaling.INPUT_CHANNEL]
             then [(Signaling.INPUT_CHANNEL, Binary(RumbleMessage(slot, lowFreq, highFreq, durationMs)))] else [])
        && p.channels == old(p.channels) && p.state == old(p.state)
    {
      var found := peerMgr.FindPeer(peer);
      if found.None? {
        return;
      }
      var message := WriteRumble(slot, lowFreq, highFreq, durationMs);
      var _ := found.value.SendOnChannel(Signaling.INPUT_CHANNEL, Binary(message));
    }

    /** Fills an 8-byte buffer with the rumble message, field by field. */
    method WriteRumble(slot: int, lowFreq: U16, highFreq: U16, durationMs: U16) returns (message: seq<Byte>)
      ensures message == RumbleMessage(slot, lowFreq, highFreq, durationMs)
    {
      var buffer := new Byte[8](_ => 0);
      var low, high, duration := ToLe16(lowFreq), ToLe16(highFreq), ToLe16(durationMs);
      buffer[0] := GAMEPAD_RUMBLE;
      buffer[1] := slot % 0x100;
      buffer[2], buffer[3] := low[0], low[1];
      buffer[4], buffer[5] := high[0], high[1];
      buffer[6], buffer[7] := duration[0], duration[1];
      message := buffer[..];
    }

    /** Builds the multi-controller packet byte by byte. */
    method BuildGamepadPacket(slot: int, s: GamepadState) returns (packet: seq<Byte>)
      requires 0 <= slot < MAX_GAMEPADS
      ensures packet == GamepadPacket(slot, s)
    {
      packet := [MULTI_CONTROLLER];
      packet := packet + [GAMEPAD_HEADER_SIZE % 0x100, GAMEPAD_HEADER_SIZE / 0x100];
      packet := packet + [slot];
      var mask := Bit(slot);
      packet := packet + [mask % 0x100, mask / 0x100];
      packet := packet + [STICK_MID, STICK_MID];
      assert packet == GamepadHeader(slot);
      var state := [s.buttons % 0x100, s.buttons / 0x100];
      state := state + [s.leftTrigger, s.rightTrigger];
      var lx, ly := FromInt16(s.leftStickX), FromInt16(s.leftStickY);
      state := state + [lx % 0x100, lx / 0x100, ly % 0x100, ly / 0x100];
      var rx, ry := FromInt16(s.rightStickX), FromInt16(s.rightStickY);
      state := state + [rx % 0x100, rx / 0x100, ry % 0x100, ry / 0x100];
      assert state == ControllerState(s);
      packet := packet + state;
    }
  }
}
