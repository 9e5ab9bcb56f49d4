/**
 * The audio sender: every Opus packet from the encoder goes out as one RTP
 * packet (RFC 7587) with payload type 111 and the marker bit set, the next
 * sequence number, and a 48 kHz timestamp that the sender loop advances by
 * 480 samples (10 ms) per packet it sends.
 */
module AudioRtp {
  import opened Bytes
  import opened Wrappers
  import opened Rtp

  const OPUS_PT: PayloadType := 111
  const SAMPLES_PER_PACKET: nat := 480
  const SAMPLE_RATE: int := 48000

  datatype AudioParams = AudioParams(sampleRate: int, channels: int, bitrate: int)

  const DEFAULT_PARAMS := AudioParams(SAMPLE_RATE, 2, 128000)

  datatype AudioStats = AudioStats(packetsSent: nat, bytesSent: nat)

  /** `uint32_t` addition of one packet's samples, wrapping at 2^32. */
  function NextTimestamp(ts: U32): (n: U32)
    ensures n == (ts + SAMPLES_PER_PACKET) % TWO_32
  {
    if ts + SAMPLES_PER_PACKET < TWO_32 then ts + SAMPLES_PER_PACKET else ts + SAMPLES_PER_PACKET - TWO_32
  }

  /**
   * The packets for a run of Opus payloads sent one after another: each
   * gets the next sequence number and a timestamp 480 samples later.
   */
  function OpusPackets(payloads: seq<seq<Byte>>, sequence: U16, timestamp: U32, ssrc: U32): seq<seq<Byte>>
  {
    if payloads == [] then []
    else
      [Packet(OPUS_PT, Unit(true, payloads[0]), sequence, timestamp, ssrc)]
      + OpusPackets(payloads[1..], NextSeq(sequence), NextTimestamp(timestamp), ssrc)
  }

  function TotalSize(payloads: seq<seq<Byte>>): nat
  {
    if payloads == [] then 0 else |payloads[0]| + TotalSize(payloads[1..])
  }

  lemma {:induction false} OpusPacketsLength(payloads: seq<seq<Byte>>, sequence: U16, timestamp: U32, ssrc: U32)
    ensures |OpusPackets(payloads, sequence, timestamp, ssrc)| == |payloads|
  {
    if payloads != [] {
      OpusPacketsLength(payloads[1..], NextSeq(sequence), NextTimestamp(timestamp), ssrc);
    }
  }

  /** The timestamp after `k` packets: NextTimestamp applied `k` times. */
  function TimestampAfter(ts: U32, k: nat): U32
    decreases k
  {
    if k == 0 then ts else TimestampAfter(NextTimestamp(ts), k - 1)
  }

  /** After `k` packets the timestamp has moved on by 480 k samples, modulo 2^32. */
  lemma {:induction false} TimestampAfterValue(ts: U32, k: nat)
    ensures TimestampAfter(ts, k) == (ts + SAMPLES_PER_PACKET * k) % TWO_32
    decreases k
  {
    if k > 0 {
      var t := NextTimestamp(ts);
      TimestampAfterValue(t, k - 1);
      var m := SAMPLES_PER_PACKET * (k - 1);
      assert SAMPLES_PER_PACKET * k == m + SAMPLES_PER_PACKET;
      if ts + SAMPLES_PER_PACKET >= TWO_32 {
        WrapOnce(t + m);
      }
    }
  }

  lemma WrapOnce(x: nat)
    ensures (x + TWO_32) % TWO_32 == x % TWO_32
  {
  }

  /**
   * The i-th audio packet carries the i-th payload verbatim behind a header
   * with the marker set, sequence number `sequence + i` modulo 2^16 and
   * the timestamp of i packets later.
   */
  lemma {:induction false} OpusPacketAt(payloads: seq<seq<Byte>>, sequence: U16, timestamp: U32, ssrc: U32, i: nat)
    requires i < |payloads|
    ensures i < |OpusPackets(payloads, sequence, timestamp, ssrc)|
    ensures OpusPackets(payloads, sequence, timestamp, ssrc)[i]
      == Packet(OPUS_PT, Unit(true, payloads[i]), (sequence + i) % TWO_16, TimestampAfter(timestamp, i), ssrc)
  {
    OpusPacketsLength(payloads, sequence, timestamp, ssrc);
    if i > 0 {
      OpusPacketAt(payloads[1..], NextSeq(sequence), NextTimestamp(timestamp), ssrc, i - 1);
      NextSeqShift(sequence, i - 1);
      assert payloads[1..][i - 1] == payloads[i];
    }
  }

  /** Byte 1 of every audio packet is 111 | 0x80: Opus, marker set; the payload follows the 12-byte header. */
  lemma OpusPacketBytes(payload: seq<Byte>, sequence: U16, timestamp: U32, ssrc: U32)
    ensures var p := Packet(OPUS_PT, Unit(true, payload), sequence, timestamp, ssrc);
      |p| == HEADER_SIZE + |payload| && p[0] == 0x80 && p[1] == 0xEF && p[HEADER_SIZE..] == payload
  {
    PacketFields(OPUS_PT, Unit(true, payload), sequence, timestamp, ssrc);
  }

  /** What the encoder queue hands the sender loop: a packet or a timeout, and how many peers are connected then. */
  datatype Pop = Pop(packet: Option<seq<Byte>>, connectedPeers: nat)

  /** The payloads the sender loop sends: non-empty packets popped while some peer is connected. */
  function Delivered(pops: seq<Pop>): (d: seq<seq<Byte>>)
    ensures forall i :: 0 <= i < |d| ==> d[i] != []
  {
    if pops == [] then []
    else
      var p := pops[0];
      if p.packet.Some? && p.connectedPeers > 0 && p.packet.value != [] then [p.packet.value] + Delivered(pops[1..])
      else Delivered(pops[1..])
  }

  /** A popped payload is delivered exactly when it is non-empty and some peer is connected. */
  lemma {:induction false} DeliveredMeaning(pops: seq<Pop>, payload: seq<Byte>)
    ensures payload in Delivered(pops) <==>
      exists i :: 0 <= i < |pops| && pops[i].packet == Some(payload) && pops[i].connectedPeers > 0 && payload != []
  {
    if pops != [] {
      DeliveredMeaning(pops[1..], payload);
      var p := pops[0];
      if exists i :: 0 <= i < |pops| && pops[i].packet == Some(payload) && pops[i].connectedPeers > 0 && payload != [] {
        var i :| 0 <= i < |pops| && pops[i].packet == Some(payload) && pops[i].connectedPeers > 0 && payload != [];
        if i > 0 {
          assert pops[1..][i - 1] == pops[i];
        }
      }
      if payload in Delivered(pops[1..]) {
        var i :| 0 <= i < |pops[1..]| && pops[1..][i].packet == Some(payload) && pops[1..][i].connectedPeers > 0 && payload != [];
        assert pops[i + 1] == pops[1..][i];
      }
    }
  }

  class AudioSender {
    var running: bool
    var sequenceNumber: U16
    var ssrc: U32
    var params: AudioParams
    /** Every packet handed to the peers' audio broadcast, oldest first. */
    var sent: seq<seq<Byte>>
    var stats: AudioStats

    constructor()
      ensures !running && sequenceNumber == 0 && ssrc == 0 && params == DEFAULT_PARAMS
      ensures sent == [] && stats == AudioStats(0, 0)
    {
      running := false;
      sequenceNumber := 0;
      ssrc := 0;
      params := DEFAULT_PARAMS;
      sent := [];
      stats := AudioStats(0, 0);
    }

    /** `init`: a random SSRC, here a parameter, and the default Opus parameters. */
    method Init(randomSsrc: U32)
      modifies this
      ensures ssrc == randomSsrc && params == DEFAULT_PARAMS
      ensures running == old(running) && sequenceNumber == old(sequenceNumber)
      ensures sent == old(sent) && stats == old(stats)
    {
      ssrc := randomSsrc;
      params := DEFAULT_PARAMS;
    }

    /** Starting a running sender does nothing. */
    method Start()
      modifies this
      ensures running
      ensures sequenceNumber == old(sequenceNumber) && ssrc == old(ssrc) && params == old(params)
      ensures sent == old(sent) && stats == old(stats)
    {
      if running {
        return;
      }
      running := true;
    }

    /** Stopping a stopped sender does nothing. */
    method Stop()
      modifies this
      ensures !running
      ensures sequenceNumber == old(sequenceNumber) && ssrc == old(ssrc) && params == old(params)
      ensures sent == old(sent) && stats == old(stats)
    {
      if !running {
        return;
      }
      running := false;
    }

    method SetParams(p: AudioParams)
      modifies this
      ensures params == p
      ensures running == old(running) && sequenceNumber == old(sequenceNumber) && ssrc == old(ssrc)
      ensures sent == old(sent) && stats == old(stats)
    {
      params := p;
    }

    /** `send_rtp_packet`: the header with the marker set, then the Opus payload. */
    method SendRtpPacket(payload: seq<Byte>, timestamp: U32)
      modifies this
      ensures sent == old(sent) + [Packet(OPUS_PT, Unit(true, payload), old(sequenceNumber), timestamp, ssrc)]
      ensures sequenceNumber == NextSeq(old(sequenceNumber))
      ensures running == old(running) && ssrc == old(ssrc) && params == old(params) && stats == old(stats)
    {
      var p := BuildPacket(OPUS_PT, Unit(true, payload), sequenceNumber, timestamp, ssrc);
      sequenceNumber := NextSeq(sequenceNumber);
      sent := sent + [p];
    }

    /**
     * `process_packet`: a missing or empty packet, or a stopped sender,
     * sends nothing and counts nothing; otherwise one packet is sent and
     * counted with its size.
     */
    method ProcessPacket(data: Option<seq<Byte>>, timestamp: U32)
      modifies this
      ensures data.None? || data.value == [] || !running ==>
        sent == old(sent) && sequenceNumber == old(sequenceNumber) && stats == old(stats)
      ensures data.Some? && data.value != [] && running ==>
        sent == old(sent) + [Packet(OPUS_PT, Unit(true, data.value), old(sequenceNumber), timestamp, ssrc)]
        && sequenceNumber == NextSeq(old(sequenceNumber))
        && stats == AudioStats(old(stats.packetsSent) + 1, old(stats.bytesSent) + |data.value|)
      ensures running == old(running) && ssrc == old(ssrc) && params == old(params)
    {
      if data.None? || |data.value| == 0 || !running {
        return;
      }
      SendRtpPacket(data.value, timestamp);
      stats := AudioStats(stats.packetsSent + 1, stats.bytesSent + |data.value|);
    }

    /** One pop of `sender_loop`: a delivered payload is sent and moves the timestamp on; the outlook is kept. */
    method SendPop(p: Pop, timestamp: U32, ghost rest: seq<Pop>) returns (next: U32)
      requires running
      modifies this
      ensures Outlook(sent, sequenceNumber, stats, ssrc, Delivered(rest), next)
           == old(Outlook(sent, sequenceNumber, stats, ssrc, Delivered([p] + rest), timestamp))
      ensures next == if |Delivered([p])| == 1 then NextTimestamp(timestamp) else timestamp
      ensures running == old(running) && ssrc == old(ssrc) && params == old(params)
    {
      assert ([p] + rest)[1..] == rest;
      next := timestamp;
      if p.packet.Some? && p.connectedPeers > 0 && |p.packet.value| > 0 {
        ghost var due := Delivered([p] + rest);
        assert due == [p.packet.value] + Delivered(rest);
        OutlookStep(sent, sequenceNumber, stats, ssrc, due, timestamp);
        ProcessPacket(p.packet, timestamp);
        assert due[1..] == Delivered(rest);
        next := NextTimestamp(timestamp);
      }
      assert Delivered([p]) == (if p.packet.Some? && p.connectedPeers > 0 && |p.packet.value| > 0 then [p.packet.value] else []);
    }

    /**
     * `sender_loop`, for one run of queue pops while the sender is running:
     * the timestamp starts at 0, and each non-empty packet popped while a
     * peer is connected is sent and moves the timestamp on by 480.
     */
    method SenderLoop(pops: seq<Pop>) returns (timestamp: U32)
      requires running
      modifies this
      ensures sent == old(sent) + OpusPackets(Delivered(pops), old(sequenceNumber), 0, ssrc)
      ensures sequenceNumber == (old(sequenceNumber) + |Delivered(pops)|) % TWO_16
      ensures stats == AudioStats(old(stats.packetsSent) + |Delivered(pops)|, old(stats.bytesSent) + TotalSize(Delivered(pops)))
      ensures timestamp == SAMPLES_PER_PACKET * |Delivered(pops)| % TWO_32
      ensures running == old(running) && ssrc == old(ssrc) && params == old(params)
    {
      ghost var goal := Outlook(sent, sequenceNumber, stats, ssrc, Delivered(pops), 0);
      timestamp := 0;
      ghost var count := 0;
      var rest := pops;
      while rest != []
        invariant Outlook(sent, sequenceNumber, stats, ssrc, Delivered(rest), timestamp) == goal
        invariant count + |Delivered(rest)| == |Delivered(pops)|
        invariant timestamp == TimestampAfter(0, count)
        invariant running && ssrc == old(ssrc) && params == old(params)
        decreases |rest|
      {
        assert rest == [rest[0]] + rest[1..];
        DeliveredSplit(rest[0], rest[1..]);
        timestamp := SendPop(rest[0], timestamp, rest[1..]);
        if |Delivered([rest[0]])| == 1 {
          TimestampAfterSnoc(0, count);
          count := count + 1;
        }
        rest := rest[1..];
      }
      TimestampAfterValue(0, count);
      OutlookDone(sent, sequenceNumber, stats, ssrc, timestamp, goal);
    }
  }

  /**
   * The packets and counters a sender with this state reaches after
   * sending `due` from timestamp `timestamp` on.
   */
  ghost function Outlook(sent: seq<seq<Byte>>, sequence: U16, stats: AudioStats, ssrc: U32,
                         due: seq<seq<Byte>>, timestamp: U32): (seq<seq<Byte>>, int, AudioStats)
  {
    (sent + OpusPackets(due, sequence, timestamp, ssrc),
     (sequence + |due|) % TWO_16,
     AudioStats(stats.packetsSent + |due|, stats.bytesSent + TotalSize(due)))
  }

  /** Sending the first payload due moves it from the packets due to the packets sent. */
  lemma OutlookStep(sent: seq<seq<Byte>>, sequence: U16, stats: AudioStats, ssrc: U32,
                    due: seq<seq<Byte>>, timestamp: U32)
    requires due != []
    ensures Outlook(sent + [Packet(OPUS_PT, Unit(true, due[0]), sequence, timestamp, ssrc)], NextSeq(sequence),
                    AudioStats(stats.packetsSent + 1, stats.bytesSent + |due[0]|), ssrc, due[1..], NextTimestamp(timestamp))
      == Outlook(sent, sequence, stats, ssrc, due, timestamp)
  {
    var head := [Packet(OPUS_PT, Unit(true, due[0]), sequence, timestamp, ssrc)];
    AppendAssoc(sent, head, OpusPackets(due[1..], NextSeq(sequence), NextTimestamp(timestamp), ssrc));
    NextSeqShift(sequence, |due| - 1);
  }

  /** The payloads delivered from one pop and then the rest. */
  lemma DeliveredSplit(p: Pop, rest: seq<Pop>)
    ensures |Delivered([p] + rest)| == |Delivered([p])| + |Delivered(rest)|
    ensures |Delivered([p])| <= 1
  {
    assert ([p] + rest)[1..] == rest;
    assert [p][1..] == [];
  }

  /** With nothing due, the outlook is the state itself. */
  lemma OutlookDone(sent: seq<seq<Byte>>, sequence: U16, stats: AudioStats, ssrc: U32, timestamp: U32,
                    goal: (seq<seq<Byte>>, int, AudioStats))
    requires Outlook(sent, sequence, stats, ssrc, Delivered([]), timestamp) == goal
    ensures sent == goal.0 && sequence == goal.1 && stats == goal.2
  {
    assert sent + [] == sent;
  }

  lemma {:induction false} TimestampAfterSnoc(ts: U32, k: nat)
    ensures TimestampAfter(ts, k + 1) == NextTimestamp(TimestampAfter(ts, k))
    decreases k
  {
    if k > 0 {
      TimestampAfterSnoc(NextTimestamp(ts), k - 1);
    }
  }
}
