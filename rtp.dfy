/**
 * The RTP fixed header of section 5.1 of RFC 3550, as both media senders
 * write it: version 2 with no padding, extension or CSRCs, then the marker
 * bit and payload type, the 16-bit sequence number, the 32-bit timestamp and
 * the 32-bit SSRC, all big-endian, followed by the payload.
 */
module Rtp {
  import opened Bytes

  const HEADER_SIZE: nat := 12
  /** Version 2, no padding, no extension, no CSRC. */
  const VERSION_BYTE: Byte := 0x80
  const MARKER_BIT: nat := 0x80

  type PayloadType = pt: nat | pt < 0x80

  /** A payload waiting for its header, with the marker bit it is to carry. */
  datatype Unit = Unit(marker: bool, payload: seq<Byte>)

  /** `uint16_t` increment: the sequence number wraps from 65535 to 0. */
  function NextSeq(s: U16): (n: U16)
    ensures n == (s + 1) % TWO_16
  {
    if s == TWO_16 - 1 then 0 else s + 1
  }

  function Header(pt: PayloadType, marker: bool, sequence: U16, timestamp: U32, ssrc: U32): (h: seq<Byte>)
    ensures |h| == HEADER_SIZE
  {
    [VERSION_BYTE, pt + (if marker then MARKER_BIT else 0)] + ToBe16(sequence) + ToBe32(timestamp) + ToBe32(ssrc)
  }

  function Packet(pt: PayloadType, u: Unit, sequence: U16, timestamp: U32, ssrc: U32): seq<Byte>
  {
    Header(pt, u.marker, sequence, timestamp, ssrc) + u.payload
  }

  /**
   * A receiver reading the fixed header back gets every field the sender
   * wrote, and the payload is the rest of the packet.
   */
  lemma PacketFields(pt: PayloadType, u: Unit, sequence: U16, timestamp: U32, ssrc: U32)
    ensures var p := Packet(pt, u, sequence, timestamp, ssrc);
      |p| == HEADER_SIZE + |u.payload|
      && p[0] == 0x80
      && p[1] % 0x80 == pt && (p[1] >= 0x80 <==> u.marker)
      && p[2] as int * 0x100 + p[3] as int == sequence
      && Be32(p[4..8]) == timestamp && Be32(p[8..12]) == ssrc
      && p[HEADER_SIZE..] == u.payload
  {
    var p := Packet(pt, u, sequence, timestamp, ssrc);
    assert p[4..8] == ToBe32(timestamp);
    assert p[8..12] == ToBe32(ssrc);
  }

  /**
   * The packets for a run of units sent one after another: the first gets
   * `sequence` and each next one the following sequence number.
   */
  function Stamp(units: seq<Unit>, pt: PayloadType, sequence: U16, timestamp: U32, ssrc: U32): seq<seq<Byte>>
  {
    if units == [] then []
    else [Packet(pt, units[0], sequence, timestamp, ssrc)] + Stamp(units[1..], pt, NextSeq(sequence), timestamp, ssrc)
  }

  lemma {:induction false} StampLength(units: seq<Unit>, pt: PayloadType, sequence: U16, timestamp: U32, ssrc: U32)
    ensures |Stamp(units, pt, sequence, timestamp, ssrc)| == |units|
  {
    if units != [] {
      StampLength(units[1..], pt, NextSeq(sequence), timestamp, ssrc);
    }
  }

  lemma {:induction false} StampAt(units: seq<Unit>, pt: PayloadType, sequence: U16, timestamp: U32, ssrc: U32, i: nat)
    requires i < |units|
    ensures i < |Stamp(units, pt, sequence, timestamp, ssrc)|
    ensures Stamp(units, pt, sequence, timestamp, ssrc)[i] == Packet(pt, units[i], (sequence + i) % TWO_16, timestamp, ssrc)
  {
    StampLength(units, pt, sequence, timestamp, ssrc);
    if i > 0 {
      StampAt(units[1..], pt, NextSeq(sequence), timestamp, ssrc, i - 1);
      NextSeqShift(sequence, i - 1);
    }
  }

  /** Consecutive packets carry consecutive sequence numbers, modulo 2^16. */
  lemma StampMeaning(units: seq<Unit>, pt: PayloadType, sequence: U16, timestamp: U32, ssrc: U32)
    ensures |Stamp(units, pt, sequence, timestamp, ssrc)| == |units|
    ensures forall i :: 0 <= i < |units| ==>
      Stamp(units, pt, sequence, timestamp, ssrc)[i] == Packet(pt, units[i], (sequence + i) % TWO_16, timestamp, ssrc)
  {
    StampLength(units, pt, sequence, timestamp, ssrc);
    forall i | 0 <= i < |units|
      ensures Stamp(units, pt, sequence, timestamp, ssrc)[i] == Packet(pt, units[i], (sequence + i) % TWO_16, timestamp, ssrc)
    {
      StampAt(units, pt, sequence, timestamp, ssrc, i);
    }
  }

  lemma NextSeqShift(s: U16, k: nat)
    ensures (NextSeq(s) + k) % TWO_16 == (s + 1 + k) % TWO_16
  {
    if s == TWO_16 - 1 {
      assert s + 1 + k == k + TWO_16;
    }
  }

  /**
   * Sending the first of the remaining units moves its packet to the sent
   * list: what has been sent followed by the packets still due is unchanged.
   */
  lemma EmitHead(sent: seq<seq<Byte>>, rest: seq<Unit>, pt: PayloadType, sequence: U16, timestamp: U32, ssrc: U32)
    requires rest != []
    ensures (sent + [Packet(pt, rest[0], sequence, timestamp, ssrc)]) + Stamp(rest[1..], pt, NextSeq(sequence), timestamp, ssrc)
      == sent + Stamp(rest, pt, sequence, timestamp, ssrc)
  {
    StampHead(sent, [Packet(pt, rest[0], sequence, timestamp, ssrc)], Stamp(rest[1..], pt, NextSeq(sequence), timestamp, ssrc),
              Stamp(rest, pt, sequence, timestamp, ssrc));
  }

  /** After one packet of a run of `n`, the rest of the run ends at the same sequence number. */
  lemma NextSeqAfter(s: U16, n: nat)
    requires n >= 1
    ensures (NextSeq(s) + (n - 1)) % TWO_16 == (s + n) % TWO_16
  {
    NextSeqShift(s, n - 1);
  }

  lemma StampHead(sent: seq<seq<Byte>>, head: seq<seq<Byte>>, tail: seq<seq<Byte>>, all: seq<seq<Byte>>)
    requires all == head + tail
    ensures (sent + head) + tail == sent + all
  {
    AppendAssoc(sent, head, tail);
  }

  /** Writes the fixed header into the first twelve bytes of a packet buffer, field by field. */
  method WriteHeader(buf: array<Byte>, pt: PayloadType, marker: bool, sequence: U16, timestamp: U32, ssrc: U32)
    requires buf.Length >= HEADER_SIZE
    modifies buf
    ensures buf[..HEADER_SIZE] == Header(pt, marker, sequence, timestamp, ssrc)
    ensures buf[HEADER_SIZE..] == old(buf[HEADER_SIZE..])
  {
    buf[0] := VERSION_BYTE;
    buf[1] := pt;
    if marker {
      buf[1] := pt + MARKER_BIT;
    }
    buf[2] := sequence / 0x100;
    buf[3] := sequence % 0x100;
    var ts := ToBe32(timestamp);
    buf[4], buf[5], buf[6], buf[7] := ts[0], ts[1], ts[2], ts[3];
    var id := ToBe32(ssrc);
    buf[8], buf[9], buf[10], buf[11] := id[0], id[1], id[2], id[3];
  }

  /** Fills a fresh packet buffer: the header, then the payload copied behind it. */
  method BuildPacket(pt: PayloadType, u: Unit, sequence: U16, timestamp: U32, ssrc: U32) returns (p: seq<Byte>)
    ensures p == Packet(pt, u, sequence, timestamp, ssrc)
  {
    var buf := new Byte[HEADER_SIZE + |u.payload|];
    WriteHeader(buf, pt, u.marker, sequence, timestamp, ssrc);
    ghost var header := buf[..HEADER_SIZE];
    for i := 0 to |u.payload|
      invariant buf[..HEADER_SIZE] == header
      invariant forall j :: 0 <= j < i ==> buf[HEADER_SIZE + j] == u.payload[j]
    {
      buf[HEADER_SIZE + i] := u.payload[i];
    }
    p := buf[..];
    assert p == header + u.payload;
  }
}
