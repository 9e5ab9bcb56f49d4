/**
 * The session's room table. A room knows its host, a player entry per
 * connected peer (player slot 1-4 for players, none for spectators, the
 * host's and guests' keyboard and mouse permissions), and which of the
 * sixteen server gamepad slots each peer has claimed for which of its
 * browser gamepads. The room manager maps room codes to rooms and peers to
 * the code of the room they are in.
 */
module Rooms {
  import opened Wrappers

  type PeerId = string

  /** `PlayerSlot`: 0 is NONE, 1-4 are PLAYER_1 to PLAYER_4. */
  type Slot = s: int | 0 <= s <= 4

  const NONE: Slot := 0
  const PLAYER_1: Slot := 1
  /** A room refuses a seventeenth connection. */
  const MAX_PEERS: nat := 16
  /** Server gamepad slots are 0-15. */
  const MAX_GAMEPADS: int := 16

  datatype PlayerInfo = PlayerInfo(peerId: PeerId, name: string, slot: Slot, isHost: bool, isSpectator: bool,
                                   gamepadIds: seq<int>, canUseKeyboard: bool, canUseMouse: bool)

  /** The slots held by players (not spectators). */
  function UsedSlots(players: map<PeerId, PlayerInfo>): set<int>
  {
    set p | p in players && !players[p].isSpectator :: players[p].slot
  }

  /** No two players share a slot. */
  ghost predicate SlotsDistinct(players: map<PeerId, PlayerInfo>)
  {
    forall p, q :: p in players && q in players && p != q && !players[p].isSpectator && !players[q].isSpectator
      ==> players[p].slot != players[q].slot
  }

  /** A player entry is filed under its own peer, and only the host's entry has the host's rights. */
  ghost predicate EntryOk(p: PeerId, info: PlayerInfo, host: PeerId)
  {
    info.peerId == p
    && (info.isSpectator <==> info.slot == NONE)
    && (info.isHost ==> p == host && !info.isSpectator && info.canUseKeyboard && info.canUseMouse)
  }

  ghost predicate WellFormed(players: map<PeerId, PlayerInfo>, host: PeerId)
  {
    (forall p :: p in players ==> EntryOk(p, players[p], host)) && SlotsDistinct(players)
  }

  ghost predicate MappingsInRange(mappings: map<PeerId, map<int, int>>)
  {
    forall p, b :: p in mappings && b in mappings[p] ==> 0 <= mappings[p][b] < MAX_GAMEPADS
  }

  /** `peer_gamepad_mappings_[peer]`: the peer's mapping, empty when it has none. */
  function MappingOf(mappings: map<PeerId, map<int, int>>, peer: PeerId): map<int, int>
  {
    if peer in mappings then mappings[peer] else map[]
  }

  /** Some browser gamepad of the mapping is mapped to server slot `slot`. */
  predicate MapsTo(mapping: map<int, int>, slot: int)
  {
    exists b :: b in mapping && mapping[b] == slot
  }

  predicate Mapped(mappings: map<PeerId, map<int, int>>, peer: PeerId, browserId: int)
  {
    peer in mappings && browserId in mappings[peer]
  }

  /** Replacing one peer's mapping by one that names only server slots keeps every mapping in range. */
  lemma MappingReplaced(mappings: map<PeerId, map<int, int>>, peer: PeerId, m: map<int, int>)
    requires MappingsInRange(mappings) && forall b :: b in m ==> 0 <= m[b] < MAX_GAMEPADS
    ensures MappingsInRange(mappings[peer := m])
  {
  }

  /** The owner table once every server slot a mapping names has been erased from it, one entry at a time. */
  method ReleaseAll(owners: map<int, PeerId>, mapping: map<int, int>) returns (r: map<int, PeerId>)
    ensures r == owners - (set b | b in mapping :: mapping[b])
  {
    r := owners;
    var rest := mapping.Keys;
    ghost var done: set<int> := {};
    while rest != {}
      invariant rest + done == mapping.Keys && rest !! done
      invariant r == owners - (set b | b in done :: mapping[b])
      decreases rest
    {
      HasMember(rest);
      var b :| b in rest;
      r := r - {mapping[b]};
      rest := rest - {b};
      done := done + {b};
    }
  }

  /** A set of integers that is not empty has a member. */
  lemma HasMember(a: set<int>)
    ensures a == {} || exists x :: x in a
  {
    if forall x :: x !in a {
      assert a == {};
    }
  }

  /** Changing an entry without moving its seat keeps the table well formed. */
  lemma SeatKept(a: map<PeerId, PlayerInfo>, p: PeerId, info: PlayerInfo, host: PeerId)
    requires WellFormed(a, host) && p in a && EntryOk(p, info, host)
    requires info.slot == a[p].slot && info.isSpectator == a[p].isSpectator
    ensures WellFormed(a[p := info], host)
  {
    var b := a[p := info];
    forall x, y | x in b && y in b && x != y && !b[x].isSpectator && !b[y].isSpectator
      ensures b[x].slot != b[y].slot
    {
      assert b[x].slot == a[x].slot && b[y].slot == a[y].slot;
    }
  }

  /** A new spectator takes no seat. */
  lemma SeatlessAdded(a: map<PeerId, PlayerInfo>, p: PeerId, info: PlayerInfo, host: PeerId)
    requires WellFormed(a, host) && EntryOk(p, info, host) && info.isSpectator
    ensures WellFormed(a[p := info], host)
  {
    var b := a[p := info];
    forall x, y | x in b && y in b && x != y && !b[x].isSpectator && !b[y].isSpectator
      ensures b[x].slot != b[y].slot
    {
      assert x != p && y != p;
    }
  }

  lemma SeatRemoved(a: map<PeerId, PlayerInfo>, p: PeerId, host: PeerId)
    requires WellFormed(a, host)
    ensures WellFormed(a - {p}, host)
  {
    DistinctRemoved(a, p);
  }

  /** The server slots a peer's browser gamepads are mapped to. */
  function MappedSlots(mappings: map<PeerId, map<int, int>>, peer: PeerId): set<int>
  {
    if peer in mappings then (set b | b in mappings[peer] :: mappings[peer][b]) else {}
  }

  /** The peer-to-room entries that do not name the room `code`. */
  function WithoutRoom(peerToRoom: map<PeerId, string>, code: string): map<PeerId, string>
  {
    map p | p in peerToRoom && peerToRoom[p] != code :: peerToRoom[p]
  }

  /**
   * The room after `peer`, one of `players`, has left it: its player and
   * peer entries go, its browser gamepad mappings go, and so does the
   * ownership of every server slot they named.
   */
  ghost predicate RoomLeft(r: Room, peer: PeerId, players: map<PeerId, PlayerInfo>,
                           mappings: map<PeerId, map<int, int>>, owners: map<int, PeerId>)
    reads r
  {
    r.players == players - {peer} && r.peers == players.Keys - {peer}
    && r.peerGamepadMappings == mappings - {peer}
    && r.gamepadSlotOwners == owners - MappedSlots(mappings, peer)
  }

  /**
   * A room as it is opened: `host`, called `name`, alone in it as player 1
   * with keyboard and mouse, no gamepad handed out, both defaults on.
   */
  ghost predicate OpenedBy(r: Room, host: PeerId, name: string)
    reads r
  {
    r.hostPeerId == host
    && r.players == map[host := PlayerInfo(host, name, PLAYER_1, true, false, [], true, true)]
    && r.peers == {host}
    && r.Gamepads() == (map[], map[], 0) && r.Defaults() == (true, true)
  }

  /** `std::remove` of every occurrence of `x`, keeping the order of the rest. */
  function RemoveAll(ids: seq<int>, x: int): (r: seq<int>)
    ensures x !in r && forall y :: y in r <==> y in ids && y != x
  {
    if ids == [] then []
    else if ids[0] == x then RemoveAll(ids[1..], x)
    else [ids[0]] + RemoveAll(ids[1..], x)
  }

  class Room {
    const code: string
    const hostPeerId: PeerId
    var players: map<PeerId, PlayerInfo>
    /** The keys of `peers_`: the peer objects themselves are not modelled. */
    var peers: set<PeerId>
    var gamepadSlotOwners: map<int, PeerId>
    var peerGamepadMappings: map<PeerId, map<int, int>>
    var nextGamepadSlot: int
    var defaultKeyboardAccess: bool
    var defaultMouseAccess: bool

    /**
     * Every peer has one player entry, spectators hold no slot and players
     * distinct slots, a host entry keeps both permissions, every mapped
     * gamepad names a server slot, and the gamepad counter stays within the
     * sixteen server slots.
     */
    ghost predicate Valid()
      reads this
    {
      players.Keys == peers
      && WellFormed(players, hostPeerId)
      && MappingsInRange(peerGamepadMappings)
      && 0 <= nextGamepadSlot <= MAX_GAMEPADS
    }

    /** The host joins as player 1 with keyboard and mouse. */
    constructor(roomCode: string, hostId: PeerId, hostName: string)
      ensures Valid()
      ensures code == roomCode && hostPeerId == hostId
      ensures players == map[hostId := PlayerInfo(hostId, hostName, PLAYER_1, true, false, [], true, true)]
      ensures peers == {hostId}
      ensures gamepadSlotOwners == map[] && peerGamepadMappings == map[] && nextGamepadSlot == 0
      ensures defaultKeyboardAccess && defaultMouseAccess
    {
      code := roomCode;
      hostPeerId := hostId;
      players := map[hostId := PlayerInfo(hostId, hostName, PLAYER_1, true, false, [], true, true)];
      peers := {hostId};
      gamepadSlotOwners := map[];
      peerGamepadMappings := map[];
      nextGamepadSlot := 0;
      defaultKeyboardAccess := true;
      defaultMouseAccess := true;
    }

    /** The host's defaults for guests to come: keyboard, then mouse. */
    function Defaults(): (bool, bool)
      reads this
    {
      (defaultKeyboardAccess, defaultMouseAccess)
    }

    /** The gamepad tables: slot owners, browser mappings and the slot counter. */
    function Gamepads(): (map<int, PeerId>, map<PeerId, map<int, int>>, int)
      reads this
    {
      (gamepadSlotOwners, peerGamepadMappings, nextGamepadSlot)
    }

    predicate IsHost(peer: PeerId)
      reads this
    {
      peer == hostPeerId
    }

    function GetPlayer(peer: PeerId): (r: Option<PlayerInfo>)
      reads this
      ensures r.Some? <==> peer in players
      ensures r.Some? ==> r.value == players[peer]
    {
      if peer in players then Some(players[peer]) else None
    }

    /** The server slot of a browser gamepad, -1 when it is not claimed. */
    function GamepadSlot(peer: PeerId, browserId: int): int
      reads this
    {
      if peer in peerGamepadMappings && browserId in peerGamepadMappings[peer] then peerGamepadMappings[peer][browserId]
      else -1
    }

    predicate CanUseKeyboard(peer: PeerId)
      reads this
    {
      peer in players && players[peer].canUseKeyboard
    }

    predicate CanUseMouse(peer: PeerId)
      reads this
    {
      peer in players && players[peer].canUseMouse
    }

    /** A present host can always use the keyboard and the mouse. */
    lemma HostHasAccess()
      requires Valid() && hostPeerId in players && players[hostPeerId].isHost
      ensures CanUseKeyboard(hostPeerId) && CanUseMouse(hostPeerId)
    {
    }

    /**
     * A new peer joins as a spectator without slot or permissions; a peer
     * already present, or a room of sixteen, refuses and changes nothing.
     */
    method AddSpectator(peer: PeerId, name: string) returns (ok: bool)
      requires Valid()
      modifies this
      ensures Valid()
      ensures ok <==> peer !in old(players) && |old(peers)| < MAX_PEERS
      ensures ok ==> (players == old(players)[peer := PlayerInfo(peer, name, NONE, false, true, [], false, false)]
                      && peers == old(peers) + {peer})
      ensures !ok ==> unchanged(this)
      ensures gamepadSlotOwners == old(gamepadSlotOwners) && peerGamepadMappings == old(peerGamepadMappings)
      ensures nextGamepadSlot == old(nextGamepadSlot)
      ensures defaultKeyboardAccess == old(defaultKeyboardAccess) && defaultMouseAccess == old(defaultMouseAccess)
    {
      if peer in players {
        return false;
      }
      if |peers| >= MAX_PEERS {
        return false;
      }
      SeatlessAdded(players, peer, PlayerInfo(peer, name, NONE, false, true, [], false, false), hostPeerId);
      players := players[peer := PlayerInfo(peer, name, NONE, false, true, [], false, false)];
      peers := peers + {peer};
      return true;
    }

    /** `next_available_slot`: gathers the players' slots, then takes the lowest free one of 1-4. */
    method NextAvailableSlot() returns (slot: Slot)
      ensures slot == NONE <==> forall k :: 1 <= k <= 4 ==> k in UsedSlots(players)
      ensures slot != NONE ==> slot !in UsedSlots(players) && forall k :: 1 <= k < slot ==> k in UsedSlots(players)
    {
      var used: set<int> := {};
      var rest := players.Keys;
      while rest != {}
        invariant rest <= players.Keys
        invariant used == set p | p in players && p !in rest && !players[p].isSpectator :: players[p].slot
        decreases rest
      {
        var p :| p in rest;
        if !players[p].isSpectator {
          used := used + {players[p].slot};
        }
        rest := rest - {p};
      }
      assert used == UsedSlots(players);
      for i := 1 to 5
        invariant forall k :: 1 <= k < i ==> k in used
      {
        if i !in used {
          return i;
        }
      }
      return NONE;
    }

    /**
     * An unknown peer gets NONE; a player keeps its own slot; a spectator
     * becomes the player of the lowest free slot, or stays a spectator and
     * gets NONE when all four are taken. Slots stay distinct.
     */
    method PromoteToPlayer(peer: PeerId) returns (slot: Slot)
      requires Valid()
      modifies this
      ensures Valid()
      ensures peer !in old(players) ==> slot == NONE && unchanged(this)
      ensures peer in old(players) && !old(players)[peer].isSpectator ==>
        slot == old(players)[peer].slot && unchanged(this)
      ensures peer in old(players) && old(players)[peer].isSpectator ==>
        (slot == NONE <==> forall k :: 1 <= k <= 4 ==> k in UsedSlots(old(players)))
        && (slot == NONE ==> unchanged(this))
        && (slot != NONE ==>
              slot !in UsedSlots(old(players)) && (forall k :: 1 <= k < slot ==> k in UsedSlots(old(players)))
              && players == old(players)[peer := old(players)[peer].(slot := slot, isSpectator := false)])
      ensures peers == old(peers) && gamepadSlotOwners == old(gamepadSlotOwners)
      ensures peerGamepadMappings == old(peerGamepadMappings) && nextGamepadSlot == old(nextGamepadSlot)
      ensures defaultKeyboardAccess == old(defaultKeyboardAccess) && defaultMouseAccess == old(defaultMouseAccess)
    {
      if peer !in players {
        return NONE;
      }
      var info := players[peer];
      if !info.isSpectator {
        return info.slot;
      }
      slot := NextAvailableSlot();
      if slot == NONE {
        return NONE;
      }
      PromotedSlotFree(players, peer, slot, hostPeerId);
      players := players[peer := info.(slot := slot, isSpectator := false)];
    }

    /**
     * An unknown peer: false, nothing changes. Otherwise the peer's player
     * entry, its peer entry, its gamepad mappings and the ownership of the
     * slots they name go, and the result says whether it was the host.
     */
    method RemovePeer(peer: PeerId) returns (wasHost: bool)
      requires Valid()
      modifies this
      ensures Valid()
      ensures peer !in old(players) ==> !wasHost && unchanged(this)
      ensures peer in old(players) ==>
        wasHost == old(players)[peer].isHost
        && players == old(players) - {peer} && peers == old(peers) - {peer}
        && peerGamepadMappings == old(peerGamepadMappings) - {peer}
        && gamepadSlotOwners == old(gamepadSlotOwners) - MappedSlots(old(peerGamepadMappings), peer)
      ensures nextGamepadSlot == old(nextGamepadSlot)
      ensures defaultKeyboardAccess == old(defaultKeyboardAccess) && defaultMouseAccess == old(defaultMouseAccess)
    {
      if peer !in players {
        return false;
      }
      wasHost := players[peer].isHost;
      if peer in peerGamepadMappings {
        gamepadSlotOwners := ReleaseAll(gamepadSlotOwners, peerGamepadMappings[peer]);
        peerGamepadMappings := peerGamepadMappings - {peer};
      }
      SeatRemoved(players, peer, hostPeerId);
      players := players - {peer};
      peers := peers - {peer};
    }

    /**
     * Unknown peers and spectators get -1. A browser gamepad the peer has
     * already claimed gets its slot again. Otherwise the counter's value is
     * the new slot if it is below 16 (the counter moves on), and -1 if not
     * (the counter is put back); either way the peer now has a mapping.
     */
    method ClaimGamepad(peer: PeerId, browserId: int) returns (slot: int)
      requires Valid()
      modifies this
      ensures Valid()
      ensures peer !in old(players) || old(players)[peer].isSpectator ==>
        slot == -1 && unchanged(this)
      ensures peer in old(players) && !old(players)[peer].isSpectator && Mapped(old(peerGamepadMappings), peer, browserId) ==>
        slot == old(peerGamepadMappings)[peer][browserId] && unchanged(this)
      ensures (peer in old(players) && !old(players)[peer].isSpectator && !Mapped(old(peerGamepadMappings), peer, browserId)
               && old(nextGamepadSlot) >= MAX_GAMEPADS) ==>
          slot == -1 && nextGamepadSlot == old(nextGamepadSlot) && players == old(players)
          && gamepadSlotOwners == old(gamepadSlotOwners)
          && peerGamepadMappings == old(peerGamepadMappings)[peer := MappingOf(old(peerGamepadMappings), peer)]
      ensures (peer in old(players) && !old(players)[peer].isSpectator && !Mapped(old(peerGamepadMappings), peer, browserId)
               && old(nextGamepadSlot) < MAX_GAMEPADS) ==>
          slot == old(nextGamepadSlot) && nextGamepadSlot == slot + 1
          && gamepadSlotOwners == old(gamepadSlotOwners)[slot := peer]
          && peerGamepadMappings == old(peerGamepadMappings)[peer := MappingOf(old(peerGamepadMappings), peer)[browserId := slot]]
          && players == old(players)[peer := old(players)[peer].(gamepadIds := old(players)[peer].gamepadIds + [slot])]
      ensures slot != -1 ==> 0 <= slot < MAX_GAMEPADS && GamepadSlot(peer, browserId) == slot
      ensures peers == old(peers)
      ensures defaultKeyboardAccess == old(defaultKeyboardAccess) && defaultMouseAccess == old(defaultMouseAccess)
    {
      if peer !in players || players[peer].isSpectator {
        return -1;
      }
      var mapping := MappingOf(peerGamepadMappings, peer);
      if browserId in mapping {
        return mapping[browserId];
      }
      slot := nextGamepadSlot;
      nextGamepadSlot := nextGamepadSlot + 1;
      if slot >= MAX_GAMEPADS {
        nextGamepadSlot := nextGamepadSlot - 1;
        MappingReplaced(peerGamepadMappings, peer, mapping);
        peerGamepadMappings := peerGamepadMappings[peer := mapping];
        return -1;
      }
      gamepadSlotOwners := gamepadSlotOwners[slot := peer];
      MappingReplaced(peerGamepadMappings, peer, mapping[browserId := slot]);
      peerGamepadMappings := peerGamepadMappings[peer := mapping[browserId := slot]];
      var info := players[peer];
      SeatKept(players, peer, info.(gamepadIds := info.gamepadIds + [slot]), hostPeerId);
      players := players[peer := info.(gamepadIds := info.gamepadIds + [slot])];
    }

    /**
     * Nothing changes unless the peer owns the slot. Then the ownership
     * goes, one browser gamepad mapped to the slot is unmapped, and the
     * slot leaves the player's gamepad list.
     */
    method ReleaseGamepad(peer: PeerId, slot: int)
      requires Valid()
      modifies this
      ensures Valid()
      ensures !(slot in old(gamepadSlotOwners) && old(gamepadSlotOwners)[slot] == peer) ==> unchanged(this)
      ensures slot in old(gamepadSlotOwners) && old(gamepadSlotOwners)[slot] == peer ==>
        gamepadSlotOwners == old(gamepadSlotOwners) - {slot}
      ensures slot in old(gamepadSlotOwners) && old(gamepadSlotOwners)[slot] == peer && MapsTo(old(MappingOf(peerGamepadMappings, peer)), slot) ==>
        exists b :: b in old(peerGamepadMappings)[peer] && old(peerGamepadMappings)[peer][b] == slot
          && peerGamepadMappings == old(peerGamepadMappings)[peer := old(peerGamepadMappings)[peer] - {b}]
      ensures !MapsTo(old(MappingOf(peerGamepadMappings, peer)), slot) ==> peerGamepadMappings == old(peerGamepadMappings)
      ensures slot in old(gamepadSlotOwners) && old(gamepadSlotOwners)[slot] == peer && peer in old(players) ==>
        players == old(players)[peer := old(players)[peer].(gamepadIds := RemoveAll(old(players)[peer].gamepadIds, slot))]
      ensures peer !in old(players) ==> players == old(players)
      ensures peers == old(peers) && nextGamepadSlot == old(nextGamepadSlot)
      ensures defaultKeyboardAccess == old(defaultKeyboardAccess) && defaultMouseAccess == old(defaultMouseAccess)
    {
      if slot !in gamepadSlotOwners || gamepadSlotOwners[slot] != peer {
        return;
      }
      gamepadSlotOwners := gamepadSlotOwners - {slot};
      if peer in peerGamepadMappings {
        var mapping := peerGamepadMappings[peer];
        if MapsTo(mapping, slot) {
          var b :| b in mapping && mapping[b] == slot;
          MappingReplaced(peerGamepadMappings, peer, mapping - {b});
          peerGamepadMappings := peerGamepadMappings[peer := mapping - {b}];
          assert b in old(peerGamepadMappings)[peer] && old(peerGamepadMappings)[peer][b] == slot;
        }
      }
      if peer in players {
        var info := players[peer];
        SeatKept(players, peer, info.(gamepadIds := RemoveAll(info.gamepadIds, slot)), hostPeerId);
        players := players[peer := info.(gamepadIds := RemoveAll(info.gamepadIds, slot))];
      }
    }

    /** Unknown peer: false. The host: true, and its access stays. Anyone else: true, with the new setting. */
    method SetKeyboardAccess(peer: PeerId, enabled: bool) returns (ok: bool)
      requires Valid()
      modifies this
      ensures Valid()
      ensures ok <==> peer in old(players)
      ensures ok && !old(players)[peer].isHost ==>
        players == old(players)[peer := old(players)[peer].(canUseKeyboard := enabled)] && CanUseKeyboard(peer) == enabled
      ensures !ok || old(players)[peer].isHost ==> unchanged(this)
      ensures peers == old(peers) && gamepadSlotOwners == old(gamepadSlotOwners)
      ensures peerGamepadMappings == old(peerGamepadMappings) && nextGamepadSlot == old(nextGamepadSlot)
      ensures defaultKeyboardAccess == old(defaultKeyboardAccess) && defaultMouseAccess == old(defaultMouseAccess)
    {
      if peer !in players {
        return false;
      }
      if players[peer].isHost {
        return true;
      }
      SeatKept(players, peer, players[peer].(canUseKeyboard := enabled), hostPeerId);
      players := players[peer := players[peer].(canUseKeyboard := enabled)];
      return true;
    }

    /** Unknown peer: false. The host: true, and its access stays. Anyone else: true, with the new setting. */
    method SetMouseAccess(peer: PeerId, enabled: bool) returns (ok: bool)
      requires Valid()
      modifies this
      ensures Valid()
      ensures ok <==> peer in old(players)
      ensures ok && !old(players)[peer].isHost ==>
        players == old(players)[peer := old(players)[peer].(canUseMouse := enabled)] && CanUseMouse(peer) == enabled
      ensures !ok || old(players)[peer].isHost ==> unchanged(this)
      ensures peers == old(peers) && gamepadSlotOwners == old(gamepadSlotOwners)
      ensures peerGamepadMappings == old(peerGamepadMappings) && nextGamepadSlot == old(nextGamepadSlot)
      ensures defaultKeyboardAccess == old(defaultKeyboardAccess) && defaultMouseAccess == old(defaultMouseAccess)
    {
      if peer !in players {
        return false;
      }
      if players[peer].isHost {
        return true;
      }
      SeatKept(players, peer, players[peer].(canUseMouse := enabled), hostPeerId);
      players := players[peer := players[peer].(canUseMouse := enabled)];
      return true;
    }

    /** The host's toggle for guests yet to come; the source declares it without a body. */
    method SetDefaultKeyboardAccess(enabled: bool)
      modifies this
      ensures defaultKeyboardAccess == enabled && defaultMouseAccess == old(defaultMouseAccess)
      ensures players == old(players) && peers == old(peers) && gamepadSlotOwners == old(gamepadSlotOwners)
      ensures peerGamepadMappings == old(peerGamepadMappings) && nextGamepadSlot == old(nextGamepadSlot)
    {
      defaultKeyboardAccess := enabled;
    }

    /** The host's toggle for guests yet to come; the source declares it without a body. */
    method SetDefaultMouseAccess(enabled: bool)
      modifies this
      ensures defaultMouseAccess == enabled && defaultKeyboardAccess == old(defaultKeyboardAccess)
      ensures players == old(players) && peers == old(peers) && gamepadSlotOwners == old(gamepadSlotOwners)
      ensures peerGamepadMappings == old(peerGamepadMappings) && nextGamepadSlot == old(nextGamepadSlot)
    {
      defaultMouseAccess := enabled;
    }
  }

  /** Promoting a spectator into a free slot keeps the table well formed. */
  lemma PromotedSlotFree(players: map<PeerId, PlayerInfo>, peer: PeerId, slot: Slot, host: PeerId)
    requires peer in players && players[peer].isSpectator && slot != NONE && slot !in UsedSlots(players)
    requires WellFormed(players, host)
    ensures WellFormed(players[peer := players[peer].(slot := slot, isSpectator := false)], host)
  {
    var after := players[peer := players[peer].(slot := slot, isSpectator := false)];
    forall p, q | p in after && q in after && p != q && !after[p].isSpectator && !after[q].isSpectator
      ensures after[p].slot != after[q].slot
    {
      if p == peer {
        assert players[q].slot in UsedSlots(players);
      } else if q == peer {
        assert players[p].slot in UsedSlots(players);
      }
    }
  }

  /** The peers seated as players. */
  ghost function Seated(players: map<PeerId, PlayerInfo>): set<PeerId>
  {
    set p | p in players && !players[p].isSpectator
  }

  /** Every player holds a slot of its own, so there is one player per used slot. */
  lemma {:induction false} SeatedCount(players: map<PeerId, PlayerInfo>)
    requires SlotsDistinct(players)
    ensures |Seated(players)| == |UsedSlots(players)|
    decreases |players|
  {
    if Seated(players) == {} {
      assert UsedSlots(players) == {};
    } else {
      var p :| p in Seated(players);
      var rest := players - {p};
      DistinctRemoved(players, p);
      SeatedCount(rest);
      assert Seated(rest) == Seated(players) - {p};
      UsedSlotsRemoved(players, p);
    }
  }

  lemma DistinctRemoved(players: map<PeerId, PlayerInfo>, p: PeerId)
    requires SlotsDistinct(players)
    ensures SlotsDistinct(players - {p})
  {
    var b := players - {p};
    forall x, y | x in b && y in b && x != y && !b[x].isSpectator && !b[y].isSpectator
      ensures b[x].slot != b[y].slot
    {
      assert b[x] == players[x] && b[y] == players[y];
    }
  }

  /** Unseating a player frees exactly that player's slot. */
  lemma UsedSlotsRemoved(players: map<PeerId, PlayerInfo>, p: PeerId)
    requires SlotsDistinct(players) && p in players && !players[p].isSpectator
    ensures UsedSlots(players - {p}) == UsedSlots(players) - {players[p].slot}
    ensures players[p].slot in UsedSlots(players)
  {
    var rest := players - {p};
    forall s | s in UsedSlots(players) && s != players[p].slot
      ensures s in UsedSlots(rest)
    {
      var q :| q in players && !players[q].isSpectator && players[q].slot == s;
      assert q in rest && rest[q] == players[q];
    }
    forall s | s in UsedSlots(rest)
      ensures s in UsedSlots(players) && s != players[p].slot
    {
      var q :| q in rest && !rest[q].isSpectator && rest[q].slot == s;
      assert players[q] == rest[q] && q != p;
    }
  }

  /** A room never seats more than four players. */
  lemma AtMostFourPlayers(room: Room)
    requires room.Valid()
    ensures |Seated(room.players)| <= 4
  {
    SeatedCount(room.players);
    var used := UsedSlots(room.players);
    assert used <= {1, 2, 3, 4};
    SubsetCard(used, {1, 2, 3, 4});
  }

  lemma {:induction false} SubsetCard(a: set<int>, b: set<int>)
    requires a <= b
    ensures |a| <= |b|
    decreases |b|
  {
    HasMember(a);
    if a != {} {
      var x :| x in a;
      SubsetCard(a - {x}, b - {x});
    }
  }

  class RoomManager {
    var rooms: map<string, Room>
    /** peer id -> room code */
    var peerToRoom: map<PeerId, string>

    ghost predicate Valid()
      reads this, rooms.Values
    {
      forall c :: c in rooms ==> rooms[c].code == c && rooms[c].Valid()
    }

    constructor()
      ensures rooms == map[] && peerToRoom == map[]
      ensures Valid()
    {
      rooms := map[];
      peerToRoom := map[];
    }

    function FindRoom(code: string): (r: Option<Room>)
      reads this
      ensures r.Some? <==> code in rooms
      ensures r.Some? ==> r.value == rooms[code]
    {
      if code in rooms then Some(rooms[code]) else None
    }

    /** The peer's room: none when the peer is not registered or its room is gone. */
    function FindRoomByPeer(peer: PeerId): (r: Option<Room>)
      reads this
      ensures r.Some? <==> peer in peerToRoom && peerToRoom[peer] in rooms
      ensures r.Some? ==> r.value == rooms[peerToRoom[peer]]
    {
      if peer in peerToRoom && peerToRoom[peer] in rooms then Some(rooms[peerToRoom[peer]]) else None
    }

    /** `add_room`: declared without a body in the source; registers the room under its code, and its host. */
    method AddRoom(room: Room)
      requires Valid() && room.Valid()
      modifies this
      ensures Valid()
      ensures rooms == old(rooms)[room.code := room]
      ensures peerToRoom == old(peerToRoom)[room.hostPeerId := room.code]
    {
      rooms := rooms[room.code := room];
      peerToRoom := peerToRoom[room.hostPeerId := room.code];
    }

    /** `register_peer`: declared without a body in the source; maps the peer to the room code. */
    method RegisterPeer(peer: PeerId, code: string)
      requires Valid()
      modifies this
      ensures Valid()
      ensures peerToRoom == old(peerToRoom)[peer := code] && rooms == old(rooms)
    {
      peerToRoom := peerToRoom[peer := code];
    }

    /**
     * An unknown code changes nothing. Otherwise the room goes, and so does
     * every peer mapping that names it; the other mappings stay.
     */
    method RemoveRoom(code: string)
      requires Valid()
      modifies this
      ensures Valid()
      ensures code !in old(rooms) ==> rooms == old(rooms) && peerToRoom == old(peerToRoom)
      ensures code in old(rooms) ==>
        rooms == old(rooms) - {code}
        && peerToRoom == map p | p in old(peerToRoom) && old(peerToRoom)[p] != code :: old(peerToRoom)[p]
      ensures forall p :: FindRoomByPeer(p).Some? ==> p in old(peerToRoom) && FindRoomByPeer(p) == old(FindRoomByPeer(p))
    {
      if code !in rooms {
        return;
      }
      var remaining := peerToRoom;
      var keys := peerToRoom.Keys;
      while keys != {}
        invariant keys <= peerToRoom.Keys
        invariant remaining == map p | p in peerToRoom && (p in keys || peerToRoom[p] != code) :: peerToRoom[p]
        decreases keys
      {
        var p :| p in keys;
        if remaining[p] == code {
          remaining := remaining - {p};
        }
        keys := keys - {p};
      }
      peerToRoom := remaining;
      rooms := rooms - {code};
    }

    function RoomCount(): nat
      reads this
    {
      |rooms|
    }
  }
}
