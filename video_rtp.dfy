/**
 * The video sender's RTP packetisers. An encoded frame arrives as an Annex B
 * byte stream (H.264 or HEVC) or as a run of AV1 OBUs; it is cut into
 * payloads of at most MAX_RTP_PAYLOAD bytes, and every payload goes out
 * with the RTP fixed header, the next sequence number and the frame's
 * timestamp:
 *   - H.264: a NAL unit that fits is a single-NAL packet (section 5.6 of
 *     RFC 6184), a larger one is cut into FU-A fragments (section 5.8);
 *   - HEVC: the same, with the FU of section 4.4.3 of RFC 7798;
 *   - AV1: one byte of aggregation header (section 4.4 of the AV1 RTP
 *     payload format) in front of the frame or of each fragment.
 */
module VideoRtp {
  import opened Bytes
  import opened Wrappers
  import opened Rtp

  const MAX_RTP_PAYLOAD: nat := 1200
  const VIDEO_PT: PayloadType := 96
  /** NAL unit type of an H.264 FU-A fragment. */
  const FU_A: nat := 28
  /** NAL unit type of an HEVC fragmentation unit. */
  const HEVC_FU: nat := 49
  const START_BIT: nat := 0x80
  const END_BIT: nat := 0x40
  /** The 90 kHz video clock advances this much per frame. */
  const TICKS_PER_FRAME: nat := 3000
  /** AV1 aggregation header bits: Z (continues an OBU), Y (continued in the next packet), W = 1, N (new sequence). */
  const AV1_Z: nat := 0x80
  const AV1_Y: nat := 0x40
  const AV1_W1: nat := 0x10
  const AV1_N: nat := 0x08

  datatype VideoCodec = H264 | HEVC | AV1

  // ---------------------------------------------------------------- NAL units

  /** A 3-byte `00 00 01` or 4-byte `00 00 00 01` start code at `i`, checked only with 4 bytes in view. */
  predicate IsStartCodeAt(data: seq<Byte>, i: nat)
    requires i + 3 < |data|
  {
    data[i] == 0 && data[i + 1] == 0 && (data[i + 2] == 1 || (data[i + 2] == 0 && data[i + 3] == 1))
  }

  predicate IsStartCode(s: seq<Byte>)
  {
    s == [] || s == [0, 0, 1] || s == [0, 0, 0, 1]
  }

  /** The length of the start code skipped at `offset`: 0, 3 or 4. */
  function StartCodeLength(data: seq<Byte>, offset: nat): (n: nat)
    requires offset < |data|
    ensures offset + n <= |data| && IsStartCode(data[offset..offset + n])
    ensures n == 0 <==> !(offset + 3 < |data| && IsStartCodeAt(data, offset))
  {
    if offset + 4 <= |data| && data[offset] == 0 && data[offset + 1] == 0 then
      if data[offset + 2] == 1 then 3
      else if data[offset + 2] == 0 && data[offset + 3] == 1 then 4
      else 0
    else 0
  }

  /**
   * Where the NAL unit that starts at `from` ends: at the first start code
   * found by the scan `i + 3 < size`, or at the end of the frame.
   */
  function NalEnd(data: seq<Byte>, from: nat): (e: nat)
    requires from <= |data|
    ensures from <= e <= |data|
    ensures e < |data| ==> e + 3 < |data| && IsStartCodeAt(data, e)
    ensures forall i :: from <= i < e && i + 3 < |data| ==> !IsStartCodeAt(data, i)
    decreases |data| - from
  {
    if from + 3 < |data| then
      if IsStartCodeAt(data, from) then from else NalEnd(data, from + 1)
    else |data|
  }

  /** The scan limit `size - 3` as the source computes it, on a 64-bit `size_t`. */
  function ScanLimitAsWritten(size: nat): nat
  {
    (size - 3) % TWO_64
  }

  /**
   * The source's scan `for (i = from; i < size - 3; ++i)`, byte read by
   * byte read; None when it reads past the end of the frame.
   */
  function ScanAsWritten(data: seq<Byte>, i: nat): Option<nat>
    decreases ScanLimitAsWritten(|data|) - i
  {
    if i >= ScanLimitAsWritten(|data|) then Some(|data|)
    else if i >= |data| then None
    else if data[i] != 0 then ScanAsWritten(data, i + 1)
    else if i + 1 >= |data| then None
    else if data[i + 1] != 0 then ScanAsWritten(data, i + 1)
    else if i + 2 >= |data| then None
    else if data[i + 2] == 1 then Some(i)
    else if data[i + 2] != 0 then ScanAsWritten(data, i + 1)
    else if i + 3 >= |data| then None
    else if data[i + 3] == 1 then Some(i)
    else ScanAsWritten(data, i + 1)
  }

  /** On frames of three bytes or more the scan as written finds the same NAL end and stays in bounds. */
  lemma {:induction false} ScanAsWrittenAgrees(data: seq<Byte>, from: nat)
    requires 3 <= |data| < TWO_64 && from <= |data|
    ensures ScanAsWritten(data, from) == Some(NalEnd(data, from))
    decreases |data| - from
  {
    assert ScanLimitAsWritten(|data|) == |data| - 3;
    if from + 3 < |data| && !IsStartCodeAt(data, from) {
      ScanAsWrittenAgrees(data, from + 1);
    }
  }

  /**
   * On a one- or two-byte frame `size - 3` wraps to nearly 2^64, and the
   * scan reads past the end of the frame before it can stop.
   */
  lemma {:induction false} ShortFrameScanReadsPastEnd(data: seq<Byte>, i: nat)
    requires 1 <= |data| <= 2 && i <= |data|
    ensures ScanAsWritten(data, i) == None
    decreases |data| - i
  {
    assert ScanLimitAsWritten(|data|) == TWO_64 + |data| - 3;
    if i < |data| && (data[i] != 0 || (i + 1 < |data| && data[i + 1] != 0)) {
      ShortFrameScanReadsPastEnd(data, i + 1);
    }
  }

  /** A NAL unit: the start code skipped in front of it, its bytes, and whether it ends the frame. */
  datatype Nal = Nal(startCode: seq<Byte>, body: seq<Byte>, last: bool)

  /** The NAL units from `offset` on, as the packetiser's outer loop walks them. */
  function SplitNals(data: seq<Byte>, offset: nat): seq<Nal>
    requires offset <= |data|
    decreases |data| - offset
  {
    if offset == |data| then []
    else
      var s := offset + StartCodeLength(data, offset);
      var e := NalEnd(data, s);
      [Nal(data[offset..s], data[s..e], e == |data|)] + SplitNals(data, e)
  }

  function Joined(nals: seq<Nal>): seq<Byte>
  {
    if nals == [] then [] else nals[0].startCode + nals[0].body + Joined(nals[1..])
  }

  lemma JoinedCons(n: Nal, rest: seq<Nal>)
    ensures Joined([n] + rest) == n.startCode + n.body + Joined(rest)
  {
    assert ([n] + rest)[1..] == rest;
  }

  /** The first NAL unit from `offset` on covers the bytes up to the offset `e` where the rest of the split starts. */
  lemma NalStep(data: seq<Byte>, offset: nat) returns (e: nat)
    requires offset < |data|
    ensures offset < e <= |data| && Joined(SplitNals(data, offset)) == data[offset..e] + Joined(SplitNals(data, e))
  {
    var s := offset + StartCodeLength(data, offset);
    e := NalEnd(data, s);
    var n := Nal(data[offset..s], data[s..e], e == |data|);
    var tail := SplitNals(data, e);
    NalAdvances(data, offset);
    calc {
      Joined(SplitNals(data, offset));
      { assert SplitNals(data, offset) == [n] + tail; }
      Joined([n] + tail);
      { JoinedCons(n, tail); }
      n.startCode + n.body + Joined(tail);
      { assert n.startCode + n.body == data[offset..e]; }
      data[offset..e] + Joined(tail);
    }
  }

  /** Each NAL unit takes at least one byte, so the split moves forward. */
  lemma NalAdvances(data: seq<Byte>, offset: nat)
    requires offset < |data|
    ensures offset < NalEnd(data, offset + StartCodeLength(data, offset))
  {
    if StartCodeLength(data, offset) == 0 && offset + 3 < |data| {
      assert NalEnd(data, offset) == NalEnd(data, offset + 1);
    }
  }

  /** Splitting loses and reorders nothing: start codes and NAL bodies together are the frame. */
  lemma {:induction false} SplitNalsJoined(data: seq<Byte>, offset: nat)
    requires offset <= |data|
    ensures Joined(SplitNals(data, offset)) == data[offset..]
    decreases |data| - offset
  {
    if offset < |data| {
      var e := NalStep(data, offset);
      SplitNalsJoined(data, e);
      PrefixThenRest(Joined(SplitNals(data, offset)), Joined(SplitNals(data, e)), data, offset, e);
    }
  }

  /** `x` is the bytes from `a` to `b` followed by `y`, and `y` is everything from `b`: so `x` is everything from `a`. */
  lemma PrefixThenRest(x: seq<Byte>, y: seq<Byte>, data: seq<Byte>, a: nat, b: nat)
    requires a <= b <= |data| && x == data[a..b] + y && y == data[b..]
    ensures x == data[a..]
  {
    assert data[a..] == data[a..b] + data[b..];
  }

  /**
   * Each skipped prefix is empty or a start code, only the final NAL unit
   * ends the frame, and a non-empty frame has at least one NAL unit.
   */
  lemma {:induction false} SplitNalsShape(data: seq<Byte>, offset: nat)
    requires offset <= |data|
    ensures var nals := SplitNals(data, offset);
      (offset < |data| <==> nals != [])
      && (forall i :: 0 <= i < |nals| ==> IsStartCode(nals[i].startCode))
      && (forall i :: 0 <= i < |nals| ==> (nals[i].last <==> i == |nals| - 1))
    decreases |data| - offset
  {
    if offset < |data| {
      var s := offset + StartCodeLength(data, offset);
      var e := NalEnd(data, s);
      SplitNalsShape(data, e);
      var nals := SplitNals(data, offset);
      var rest := SplitNals(data, e);
      assert nals == [Nal(data[offset..s], data[s..e], e == |data|)] + rest;
      forall i | 1 <= i < |nals|
        ensures IsStartCode(nals[i].startCode) && (nals[i].last <==> i == |nals| - 1)
      {
        assert nals[i] == rest[i - 1];
      }
    }
  }

  // ---------------------------------------------------------------- fragmentation units

  /** The FU header of both RFC 6184 and RFC 7798: S bit, E bit, then the fragmented NAL unit's type. */
  function FuHeader(nalType: nat, first: bool, last: bool): Byte
    requires nalType < 0x40
  {
    nalType + (if first then START_BIT else 0) + (if last then END_BIT else 0)
  }

  /**
   * The fragments of `nal` from byte `from` on: each carries `prefix`, the
   * FU header and at most `maxFragment` bytes of the NAL unit.
   */
  function Fragments(nal: seq<Byte>, from: nat, firstAt: nat, prefix: seq<Byte>, nalType: nat,
                     maxFragment: nat, lastNal: bool): seq<Unit>
    requires from <= |nal| && nalType < 0x40 && maxFragment > 0
    decreases |nal| - from
  {
    if from == |nal| then []
    else
      var size := Min(maxFragment, |nal| - from);
      var last := from + size >= |nal|;
      [Unit(last && lastNal, prefix + [FuHeader(nalType, from == firstAt, last)] + nal[from..from + size])]
        + Fragments(nal, from + size, firstAt, prefix, nalType, maxFragment, lastNal)
  }

  /** What a receiver gets back by dropping the first `k` bytes of every payload and joining the rest. */
  function Reassemble(units: seq<Unit>, k: nat): seq<Byte>
  {
    if units == [] then []
    else (if |units[0].payload| >= k then units[0].payload[k..] else []) + Reassemble(units[1..], k)
  }

  /**
   * Fragmentation: every fragment carries the prefix, an FU header whose
   * start bit is set on the first fragment only and whose end bit is set on
   * the last only, and between one and `maxFragment` bytes; the marker is on
   * the last fragment of the frame's last NAL unit only.
   */
  lemma {:induction false} FragmentsShape(nal: seq<Byte>, from: nat, firstAt: nat, prefix: seq<Byte>,
                                          nalType: nat, maxFragment: nat, lastNal: bool)
    requires firstAt <= from <= |nal| && nalType < 0x40 && maxFragment > 0
    ensures var us := Fragments(nal, from, firstAt, prefix, nalType, maxFragment, lastNal);
      (from < |nal| <==> us != [])
      && (forall i :: 0 <= i < |us| ==>
            |prefix| + 1 < |us[i].payload| <= |prefix| + 1 + maxFragment
            && us[i].payload[..|prefix|] == prefix
            && us[i].payload[|prefix|] == FuHeader(nalType, i == 0 && from == firstAt, i == |us| - 1)
            && (us[i].marker <==> lastNal && i == |us| - 1))
    decreases |nal| - from
  {
    if from < |nal| {
      var size := Min(maxFragment, |nal| - from);
      var us := Fragments(nal, from, firstAt, prefix, nalType, maxFragment, lastNal);
      var rest := Fragments(nal, from + size, firstAt, prefix, nalType, maxFragment, lastNal);
      FragmentsShape(nal, from + size, firstAt, prefix, nalType, maxFragment, lastNal);
      assert us == [us[0]] + rest;
      forall i | 1 <= i < |us|
        ensures us[i].payload[|prefix|] == FuHeader(nalType, i == 0 && from == firstAt, i == |us| - 1)
      {
        assert us[i] == rest[i - 1];
      }
    }
  }

  /** The fragments' bytes, without prefix and FU header, joined are the NAL unit from `from` on. */
  lemma {:induction false} FragmentsReassemble(nal: seq<Byte>, from: nat, firstAt: nat, prefix: seq<Byte>,
                                               nalType: nat, maxFragment: nat, lastNal: bool)
    requires from <= |nal| && nalType < 0x40 && maxFragment > 0
    ensures Reassemble(Fragments(nal, from, firstAt, prefix, nalType, maxFragment, lastNal), |prefix| + 1) == nal[from..]
    decreases |nal| - from
  {
    if from < |nal| {
      var size := Min(maxFragment, |nal| - from);
      var us := Fragments(nal, from, firstAt, prefix, nalType, maxFragment, lastNal);
      FragmentsReassemble(nal, from + size, firstAt, prefix, nalType, maxFragment, lastNal);
      assert us[0].payload[|prefix| + 1..] == nal[from..from + size];
      assert nal[from..] == nal[from..from + size] + nal[from + size..];
    }
  }

  // ---------------------------------------------------------------- H.264

  /** FU indicator: the NAL unit's NRI bits with type 28 (FU-A). */
  function FuIndicator(header: Byte): Byte
  {
    header / 0x20 % 4 * 0x20 + FU_A
  }

  /** One H.264 NAL unit: a single-NAL packet if it fits, FU-A fragments of the bytes after its header otherwise. */
  function H264NalUnits(nal: seq<Byte>, lastNal: bool): seq<Unit>
  {
    if |nal| <= MAX_RTP_PAYLOAD then [Unit(lastNal, nal)]
    else Fragments(nal, 1, 1, [FuIndicator(nal[0])], nal[0] % 0x20, MAX_RTP_PAYLOAD - 2, lastNal)
  }

  /**
   * A receiver rebuilds a fragmented NAL unit per section 5.8 of RFC 6184:
   * the header from the indicator's F and NRI bits and the FU header's type,
   * then the fragments' bytes. For a NAL unit with its forbidden bit clear
   * this gives back the NAL unit.
   */
  lemma H264FuRoundTrip(nal: seq<Byte>, lastNal: bool)
    requires |nal| > MAX_RTP_PAYLOAD && nal[0] < 0x80
    ensures var us := H264NalUnits(nal, lastNal);
      us != [] && |us[0].payload| >= 2
      && [us[0].payload[0] / 0x20 * 0x20 + us[0].payload[1] % 0x20] + Reassemble(us, 2) == nal
  {
    var us := H264NalUnits(nal, lastNal);
    FragmentsShape(nal, 1, 1, [FuIndicator(nal[0])], nal[0] % 0x20, MAX_RTP_PAYLOAD - 2, lastNal);
    FragmentsReassemble(nal, 1, 1, [FuIndicator(nal[0])], nal[0] % 0x20, MAX_RTP_PAYLOAD - 2, lastNal);
    var p := us[0].payload;
    assert p[..1] == [FuIndicator(nal[0])];
    H264HeaderBack(nal[0], p[0], p[1]);
    HeadThenRest(nal, p[0] / 0x20 * 0x20 + p[1] % 0x20, Reassemble(us, 2));
  }

  /** The NAL unit header a receiver rebuilds from the FU indicator and an FU header is the original one. */
  lemma H264HeaderBack(header: Byte, indicator: Byte, fuHeader: Byte)
    requires header < 0x80 && indicator == FuIndicator(header)
    requires fuHeader == FuHeader(header % 0x20, true, false) || fuHeader == FuHeader(header % 0x20, true, true)
    ensures indicator / 0x20 * 0x20 + fuHeader % 0x20 == header
  {
    assert indicator / 0x20 == header / 0x20;
    assert fuHeader % 0x20 == header % 0x20;
  }

  lemma HeadThenRest(s: seq<Byte>, head: Byte, rest: seq<Byte>)
    requires s != [] && s[0] == head && rest == s[1..]
    ensures [head] + rest == s
  {
  }

  // ---------------------------------------------------------------- HEVC

  /** The fields of the two-byte HEVC NAL unit header (section 1.1.4 of RFC 7798). */
  function HevcType(h0: Byte): nat { h0 / 2 % 0x40 }
  function HevcLayerId(h0: Byte, h1: Byte): nat { h0 % 2 * 0x20 + h1 / 8 }
  function HevcTid(h1: Byte): nat { h1 % 8 }

  /**
   * The FU payload header as the source writes it: `layer_id` is
   * `nal_header & 0x1F8` kept in a `uint8_t`, neither shifted nor wide
   * enough for the six LayerId bits.
   */
  function HevcPayloadHeaderAsWritten(h0: Byte, h1: Byte): seq<Byte>
  {
    var nalHeader: bv16 := (h0 as bv16 << 8) | h1 as bv16;
    var layerId: bv8 := (nalHeader & 0x1F8 & 0xFF) as bv8;
    var tid: bv8 := (nalHeader & 0x7) as bv8;
    [((49 as bv8 << 1) | (layerId >> 5)) as int, (((layerId & 0x1F) << 3) | tid) as int]
  }

  /** The FU payload header of section 4.4.3 of RFC 7798: type 49 with the NAL unit's LayerId and TID. */
  function HevcPayloadHeader(h0: Byte, h1: Byte): (p: seq<Byte>)
    ensures |p| == 2
  {
    var layerId := HevcLayerId(h0, h1);
    [HEVC_FU * 2 + layerId / 0x20, layerId % 0x20 * 8 + HevcTid(h1)]
  }

  /** The corrected payload header carries type 49 and exactly the NAL unit's LayerId and TID. */
  lemma HevcPayloadHeaderFields(h0: Byte, h1: Byte)
    ensures var p := HevcPayloadHeader(h0, h1);
      p[0] < 0x80 && HevcType(p[0]) == HEVC_FU
      && HevcLayerId(p[0], p[1]) == HevcLayerId(h0, h1) && HevcTid(p[1]) == HevcTid(h1)
  {
    HevcPayloadHeaderBytes(h0, h1);
  }

  /** The payload header is the NAL unit header with its type replaced by 49. */
  lemma HevcPayloadHeaderBytes(h0: Byte, h1: Byte)
    ensures HevcPayloadHeader(h0, h1) == [HEVC_FU * 2 + h0 % 2, h1]
  {
    var layerId := HevcLayerId(h0, h1);
    var hi, lo := h0 % 2, h1 / 8;
    assert lo < 0x20 && layerId == hi * 0x20 + lo;
    assert layerId / 0x20 == hi && layerId % 0x20 == lo;
    assert lo * 8 + h1 % 8 == h1;
  }

  /** For the base layer (LayerId 0, nearly every stream) the source's header is the correct one. */
  lemma HevcPayloadHeaderAsWrittenBaseLayer(h0: Byte, h1: Byte)
    requires HevcLayerId(h0, h1) == 0
    ensures HevcPayloadHeaderAsWritten(h0, h1) == HevcPayloadHeader(h0, h1)
  {
    assert h1 < 8;
    var nalHeader: bv16 := (h0 as bv16 << 8) | h1 as bv16;
    assert nalHeader & 0x1F8 & 0xFF == 0;
    assert nalHeader & 0x7 == h1 as bv16;
  }

  /**
   * With LayerId 1 and TID 1 the source writes 0x41 where RFC 7798 puts
   * 0x09: the receiver reads LayerId 8 and TID 1.
   */
  lemma HevcPayloadHeaderAsWrittenLayerOne()
    ensures HevcPayloadHeaderAsWritten(0x26, 0x09) == [0x62, 0x41]
    ensures HevcPayloadHeader(0x26, 0x09) == [0x62, 0x09]
    ensures HevcLayerId(0x62, 0x41) == 8 && HevcLayerId(0x26, 0x09) == 1
  {
    var nalHeader: bv16 := (0x26 as bv16 << 8) | 0x09 as bv16;
    assert nalHeader == 0x2609;
  }

  /** One HEVC NAL unit: a single-NAL packet if it fits, FUs of the bytes after its two-byte header otherwise. */
  function HevcNalUnits(nal: seq<Byte>, lastNal: bool): seq<Unit>
  {
    if |nal| <= MAX_RTP_PAYLOAD then [Unit(lastNal, nal)]
    else Fragments(nal, 2, 2, HevcPayloadHeader(nal[0], nal[1]), HevcType(nal[0]), MAX_RTP_PAYLOAD - 3, lastNal)
  }

  /**
   * A receiver rebuilds a fragmented HEVC NAL unit per section 4.4.3 of
   * RFC 7798: the payload header with its type replaced by the FU header's,
   * then the fragments' bytes. With the forbidden bit clear this gives back
   * the NAL unit.
   */
  lemma HevcFuRoundTrip(nal: seq<Byte>, lastNal: bool)
    requires |nal| > MAX_RTP_PAYLOAD && nal[0] < 0x80
    ensures var us := HevcNalUnits(nal, lastNal);
      us != [] && |us[0].payload| >= 3
      && [us[0].payload[0] % 2 + us[0].payload[2] % 0x40 * 2, us[0].payload[1]] + Reassemble(us, 3) == nal
  {
    var ph := HevcPayloadHeader(nal[0], nal[1]);
    HevcPayloadHeaderBytes(nal[0], nal[1]);
    FragmentsShape(nal, 2, 2, ph, HevcType(nal[0]), MAX_RTP_PAYLOAD - 3, lastNal);
    FragmentsReassemble(nal, 2, 2, ph, HevcType(nal[0]), MAX_RTP_PAYLOAD - 3, lastNal);
    var us := HevcNalUnits(nal, lastNal);
    var p := us[0].payload;
    assert p[..2] == ph;
    HevcHeaderBack(nal[0], p[0], p[2]);
    TwoThenRest(nal, p[0] % 2 + p[2] % 0x40 * 2, p[1], Reassemble(us, 3));
  }

  /** The first header byte a receiver rebuilds from the payload header and an FU header is the original one. */
  lemma HevcHeaderBack(h0: Byte, payload0: Byte, fuHeader: Byte)
    requires h0 < 0x80 && payload0 == HEVC_FU * 2 + h0 % 2
    requires fuHeader == FuHeader(HevcType(h0), true, false) || fuHeader == FuHeader(HevcType(h0), true, true)
    ensures payload0 % 2 + fuHeader % 0x40 * 2 == h0
  {
    assert fuHeader % 0x40 == HevcType(h0) == h0 / 2;
  }

  lemma TwoThenRest(s: seq<Byte>, first: Byte, second: Byte, rest: seq<Byte>)
    requires |s| >= 2 && s[0] == first && s[1] == second && rest == s[2..]
    ensures [first, second] + rest == s
  {
  }


  // ---------------------------------------------------------------- frames

  function NalUnits(codec: VideoCodec, nal: seq<Byte>, lastNal: bool): seq<Unit>
  {
    if codec == HEVC then HevcNalUnits(nal, lastNal) else H264NalUnits(nal, lastNal)
  }

  function NalsUnits(codec: VideoCodec, nals: seq<Nal>): seq<Unit>
  {
    if nals == [] then [] else NalUnits(codec, nals[0].body, nals[0].last) + NalsUnits(codec, nals[1..])
  }

  /** Every unit of a NAL unit; the marker only on its last unit, and only when it ends the frame. */
  predicate MarksEnd(us: seq<Unit>, lastNal: bool)
  {
    us != [] && forall i :: 0 <= i < |us| ==> (us[i].marker <==> lastNal && i == |us| - 1)
  }

  lemma NalUnitsMarksEnd(codec: VideoCodec, nal: seq<Byte>, lastNal: bool)
    ensures MarksEnd(NalUnits(codec, nal, lastNal), lastNal)
  {
    if |nal| > MAX_RTP_PAYLOAD {
      if codec == HEVC {
        FragmentsShape(nal, 2, 2, HevcPayloadHeader(nal[0], nal[1]), HevcType(nal[0]), MAX_RTP_PAYLOAD - 3, lastNal);
      } else {
        FragmentsShape(nal, 1, 1, [FuIndicator(nal[0])], nal[0] % 0x20, MAX_RTP_PAYLOAD - 2, lastNal);
      }
    }
  }

  lemma {:induction false} NalsUnitsMarker(codec: VideoCodec, nals: seq<Nal>)
    requires nals != [] && forall i :: 0 <= i < |nals| ==> (nals[i].last <==> i == |nals| - 1)
    ensures var us := NalsUnits(codec, nals);
      us != [] && forall i :: 0 <= i < |us| ==> (us[i].marker <==> i == |us| - 1)
  {
    var head := NalUnits(codec, nals[0].body, nals[0].last);
    NalUnitsMarksEnd(codec, nals[0].body, nals[0].last);
    if |nals| == 1 {
      assert NalsUnits(codec, nals) == head + [];
    } else {
      NalsUnitsMarker(codec, nals[1..]);
      var us := NalsUnits(codec, nals);
      var tail := NalsUnits(codec, nals[1..]);
      assert us == head + tail;
      forall i | 0 <= i < |us| ensures us[i].marker <==> i == |us| - 1 {
        if i < |head| { assert us[i] == head[i]; } else { assert us[i] == tail[i - |head|]; }
      }
    }
  }

  /** The units of a whole H.264 or HEVC frame. */
  function AnnexBUnits(codec: VideoCodec, data: seq<Byte>): seq<Unit>
  {
    NalsUnits(codec, SplitNals(data, 0))
  }

  /** The marker bit is on the packet that carries the frame's last byte, and on no other. */
  lemma AnnexBMarker(codec: VideoCodec, data: seq<Byte>)
    requires data != []
    ensures var us := AnnexBUnits(codec, data);
      us != [] && forall i :: 0 <= i < |us| ==> (us[i].marker <==> i == |us| - 1)
  {
    SplitNalsShape(data, 0);
    NalsUnitsMarker(codec, SplitNals(data, 0));
  }

  /** With the scan kept in bounds, a one- or two-byte frame is a single NAL unit in a single packet. */
  lemma ShortFrameIsOnePacket(codec: VideoCodec, data: seq<Byte>)
    requires 1 <= |data| <= 2
    ensures AnnexBUnits(codec, data) == [Unit(true, data)]
  {
    assert data[0..0] == [] && data[0..|data|] == data;
    assert SplitNals(data, 0) == [Nal([], data, true)] + SplitNals(data, |data|);
    assert NalsUnits(codec, SplitNals(data, 0)) == [Unit(true, data)] + NalsUnits(codec, []);
  }

  // ---------------------------------------------------------------- AV1

  /** The aggregation header of one AV1 fragment. */
  function Av1Header(first: bool, last: bool, keyframe: bool): Byte
  {
    (if first then 0 else AV1_Z) + (if last then 0 else AV1_Y) + (if first && keyframe then AV1_N else 0)
  }

  function Av1Fragments(data: seq<Byte>, from: nat, keyframe: bool): seq<Unit>
    requires from <= |data|
    decreases |data| - from
  {
    if from == |data| then []
    else
      var size := Min(MAX_RTP_PAYLOAD - 1, |data| - from);
      var last := from + size >= |data|;
      [Unit(last, [Av1Header(from == 0, last, keyframe)] + data[from..from + size])]
        + Av1Fragments(data, from + size, keyframe)
  }

  /** An AV1 frame: one packet with W = 1 (and N on a keyframe) if it fits, fragments otherwise. */
  function Av1Units(data: seq<Byte>, keyframe: bool): seq<Unit>
  {
    if |data| <= MAX_RTP_PAYLOAD - 1 then [Unit(true, [AV1_W1 + (if keyframe then AV1_N else 0)] + data)]
    else Av1Fragments(data, 0, keyframe)
  }

  /**
   * AV1 fragmentation: every fragment holds between 1 and 1199 bytes of the
   * frame; Z is set on all but the first, Y on all but the last, N only on
   * the first of a keyframe; and the marker is on the last only.
   */
  lemma {:induction false} Av1FragmentsShape(data: seq<Byte>, from: nat, keyframe: bool)
    requires from <= |data|
    ensures var us := Av1Fragments(data, from, keyframe);
      (from < |data| <==> us != [])
      && (forall i :: 0 <= i < |us| ==>
            1 < |us[i].payload| <= MAX_RTP_PAYLOAD
            && us[i].payload[0] == Av1Header(i == 0 && from == 0, i == |us| - 1, keyframe)
            && (us[i].marker <==> i == |us| - 1))
    decreases |data| - from
  {
    if from < |data| {
      var size := Min(MAX_RTP_PAYLOAD - 1, |data| - from);
      var us := Av1Fragments(data, from, keyframe);
      var rest := Av1Fragments(data, from + size, keyframe);
      Av1FragmentsShape(data, from + size, keyframe);
      assert us == [us[0]] + rest;
      forall i | 1 <= i < |us|
        ensures us[i].payload[0] == Av1Header(i == 0 && from == 0, i == |us| - 1, keyframe)
      {
        assert us[i] == rest[i - 1];
      }
    }
  }

  lemma {:induction false} Av1FragmentsReassemble(data: seq<Byte>, from: nat, keyframe: bool)
    requires from <= |data|
    ensures Reassemble(Av1Fragments(data, from, keyframe), 1) == data[from..]
    decreases |data| - from
  {
    if from < |data| {
      var size := Min(MAX_RTP_PAYLOAD - 1, |data| - from);
      Av1FragmentsReassemble(data, from + size, keyframe);
      assert Av1Fragments(data, from, keyframe)[0].payload[1..] == data[from..from + size];
      assert data[from..] == data[from..from + size] + data[from + size..];
    }
  }

  /** A receiver joining the AV1 payloads without their aggregation headers gets the frame back. */
  lemma Av1RoundTrip(data: seq<Byte>, keyframe: bool)
    ensures Reassemble(Av1Units(data, keyframe), 1) == data
  {
    if |data| <= MAX_RTP_PAYLOAD - 1 {
      var u := Unit(true, [AV1_W1 + (if keyframe then AV1_N else 0)] + data);
      assert Reassemble([u], 1) == u.payload[1..] + Reassemble([], 1);
    } else {
      Av1FragmentsReassemble(data, 0, keyframe);
    }
  }

  /** The units of a frame for the configured codec. */
  function FrameUnits(codec: VideoCodec, data: seq<Byte>, keyframe: bool): seq<Unit>
  {
    if codec == AV1 then Av1Units(data, keyframe) else AnnexBUnits(codec, data)
  }

  /** `static_cast<uint32_t>(frame_index * 3000)`: the 90 kHz timestamp, wrapped to 32 bits. */
  function FrameTimestamp(frameIndex: int): (ts: U32)
    ensures frameIndex >= 0 && frameIndex * TICKS_PER_FRAME < TWO_32 ==> ts == frameIndex * TICKS_PER_FRAME
  {
    (frameIndex * TICKS_PER_FRAME) % TWO_32
  }

  // ---------------------------------------------------------------- the sender

  /** An encoded frame from the capture pipeline. */
  datatype EncodedFrame = EncodedFrame(data: seq<Byte>, keyframe: bool, frameIndex: int)

  datatype Stats = Stats(framesSent: nat, bytesSent: nat, keyFramesSent: nat)

  class VideoSender {
    var codec: VideoCodec
    var running: bool
    var sequenceNumber: U16
    var ssrc: U32
    /** Every packet handed to the peers' broadcast, oldest first. */
    var sent: seq<seq<Byte>>
    var stats: Stats

    constructor()
      ensures codec == H264 && !running && sequenceNumber == 0 && ssrc == 0
      ensures sent == [] && stats == Stats(0, 0, 0)
    {
      codec := H264;
      running := false;
      sequenceNumber := 0;
      ssrc := 0;
      sent := [];
      stats := Stats(0, 0, 0);
    }

    /** `init`: takes a random SSRC, here a parameter. */
    method Init(randomSsrc: U32)
      modifies this
      ensures ssrc == randomSsrc
      ensures codec == old(codec) && running == old(running) && sequenceNumber == old(sequenceNumber)
      ensures sent == old(sent) && stats == old(stats)
    {
      ssrc := randomSsrc;
    }

    /** Starting a running sender does nothing. */
    method Start()
      modifies this
      ensures running
      ensures codec == old(codec) && ssrc == old(ssrc) && sequenceNumber == old(sequenceNumber)
      ensures sent == old(sent) && stats == old(stats)
    {
      if running {
        return;
      }
      running := true;
    }

    /** Stopping a stopped sender does nothing. */
    method Stop()
      modifies this
      ensures !running
      ensures codec == old(codec) && ssrc == old(ssrc) && sequenceNumber == old(sequenceNumber)
      ensures sent == old(sent) && stats == old(stats)
    {
      if !running {
        return;
      }
      running := false;
    }

    method SetCodec(c: VideoCodec)
      modifies this
      ensures codec == c
      ensures running == old(running) && ssrc == old(ssrc) && sequenceNumber == old(sequenceNumber)
      ensures sent == old(sent) && stats == old(stats)
    {
      codec := c;
    }

    /** The settings and counters that sending packets leaves alone. */
    function Config(): (VideoCodec, bool, U32, Stats)
      reads this
    {
      (codec, running, ssrc, stats)
    }

    /**
     * The packets sent so far followed by those still due for `due`, and
     * the sequence number that will follow them.
     */
    ghost function Outlook(due: seq<Unit>, timestamp: U32): (seq<seq<Byte>>, int)
      reads this
    {
      (sent + Stamp(due, VIDEO_PT, sequenceNumber, timestamp, ssrc), (sequenceNumber + |due|) % TWO_16)
    }

    /** Puts the header on one payload, sends it, and moves to the next sequence number. */
    method SendUnit(u: Unit, timestamp: U32)
      modifies this
      ensures sent == old(sent) + [Packet(VIDEO_PT, u, old(sequenceNumber), timestamp, ssrc)]
      ensures sequenceNumber == NextSeq(old(sequenceNumber))
      ensures Config() == old(Config())
    {
      var p := BuildPacket(VIDEO_PT, u, sequenceNumber, timestamp, ssrc);
      sequenceNumber := NextSeq(sequenceNumber);
      sent := sent + [p];
    }

    /** Sending the first of the units due leaves the outlook unchanged. */
    method SendNext(u: Unit, timestamp: U32, ghost due: seq<Unit>)
      requires due != [] && due[0] == u
      modifies this
      ensures Outlook(due[1..], timestamp) == old(Outlook(due, timestamp))
      ensures Config() == old(Config())
    {
      EmitHead(sent, due, VIDEO_PT, sequenceNumber, timestamp, ssrc);
      NextSeqAfter(sequenceNumber, |due|);
      SendUnit(u, timestamp);
    }

    /** The scan for the next start code, bounded by `i + 3 < size`. */
    method FindNalEnd(data: seq<Byte>, from: nat) returns (e: nat)
      requires from <= |data|
      ensures e == NalEnd(data, from)
    {
      var i := from;
      while i + 3 < |data|
        invariant from <= i <= |data|
        invariant NalEnd(data, i) == NalEnd(data, from)
        decreases |data| - i
      {
        if data[i] == 0 && data[i + 1] == 0 && (data[i + 2] == 1 || (data[i + 2] == 0 && data[i + 3] == 1)) {
          return i;
        }
        i := i + 1;
      }
      return |data|;
    }

    /**
     * The fragmentation loop: sends `nal` from byte `firstAt` on as
     * fragments. `rest` is what the frame still has to send after them.
     */
    method SendFragments(nal: seq<Byte>, firstAt: nat, prefix: seq<Byte>, nalType: nat, maxFragment: nat,
                         lastNal: bool, timestamp: U32, ghost rest: seq<Unit>)
      requires firstAt <= |nal| && nalType < 0x40 && maxFragment > 0
      modifies this
      ensures Outlook(rest, timestamp)
        == old(Outlook(Fragments(nal, firstAt, firstAt, prefix, nalType, maxFragment, lastNal) + rest, timestamp))
      ensures Config() == old(Config())
    {
      ghost var goal := Outlook(Fragments(nal, firstAt, firstAt, prefix, nalType, maxFragment, lastNal) + rest, timestamp);
      var fragOffset := firstAt;
      var first := true;
      while fragOffset < |nal|
        invariant firstAt <= fragOffset <= |nal|
        invariant first == (fragOffset == firstAt)
        invariant Outlook(Fragments(nal, fragOffset, firstAt, prefix, nalType, maxFragment, lastNal) + rest, timestamp) == goal
        invariant Config() == old(Config())
        decreases |nal| - fragOffset
      {
        var fragSize := Min(maxFragment, |nal| - fragOffset);
        var last := fragOffset + fragSize >= |nal|;
        var fuHeader := nalType;
        if first {
          fuHeader := fuHeader + START_BIT;
        }
        if last {
          fuHeader := fuHeader + END_BIT;
        }
        var u := Unit(last && lastNal, prefix + [fuHeader] + nal[fragOffset..fragOffset + fragSize]);
        ghost var later := Fragments(nal, fragOffset + fragSize, firstAt, prefix, nalType, maxFragment, lastNal);
        ghost var due := Fragments(nal, fragOffset, firstAt, prefix, nalType, maxFragment, lastNal) + rest;
        AppendAssoc([u], later, rest);
        assert due == [u] + (later + rest);
        SendNext(u, timestamp, due);
        assert due[1..] == later + rest;
        fragOffset := fragOffset + fragSize;
        first := false;
      }
      assert Fragments(nal, fragOffset, firstAt, prefix, nalType, maxFragment, lastNal) + rest == rest;
    }

    /** One NAL unit of the outer loop: whole when it fits, in fragments otherwise. */
    method SendNal(c: VideoCodec, nal: seq<Byte>, lastNal: bool, timestamp: U32, ghost rest: seq<Unit>)
      requires c != AV1
      modifies this
      ensures Outlook(rest, timestamp) == old(Outlook(NalUnits(c, nal, lastNal) + rest, timestamp))
      ensures Config() == old(Config())
    {
      if |nal| <= MAX_RTP_PAYLOAD {
        ghost var due := [Unit(lastNal, nal)] + rest;
        SendNext(Unit(lastNal, nal), timestamp, due);
        assert due[1..] == rest;
      } else if c == HEVC {
        SendFragments(nal, 2, HevcPayloadHeader(nal[0], nal[1]), HevcType(nal[0]), MAX_RTP_PAYLOAD - 3,
                      lastNal, timestamp, rest);
      } else {
        SendFragments(nal, 1, [FuIndicator(nal[0])], nal[0] % 0x20, MAX_RTP_PAYLOAD - 2,
                      lastNal, timestamp, rest);
      }
    }

    /**
     * `packetize_h264` and `packetize_hevc`: walks the frame NAL unit by
     * NAL unit, skipping each start code, and sends every unit whole or in
     * fragments.
     */
    method PacketizeAnnexB(c: VideoCodec, data: seq<Byte>, timestamp: U32)
      requires c != AV1
      modifies this
      ensures Outlook([], timestamp) == old(Outlook(AnnexBUnits(c, data), timestamp))
      ensures Config() == old(Config())
    {
      ghost var goal := Outlook(AnnexBUnits(c, data), timestamp);
      var offset := 0;
      while offset < |data|
        invariant offset <= |data|
        invariant Outlook(NalsUnits(c, SplitNals(data, offset)), timestamp) == goal
        invariant Config() == old(Config())
        decreases |data| - offset
      {
        var nalStart := offset;
        if offset + 4 <= |data| && data[offset] == 0 && data[offset + 1] == 0 {
          if data[offset + 2] == 1 {
            nalStart := offset + 3;
          } else if data[offset + 2] == 0 && data[offset + 3] == 1 {
            nalStart := offset + 4;
          }
        }
        assert nalStart == offset + StartCodeLength(data, offset);
        var nalEnd := FindNalEnd(data, nalStart);
        NalsUnitsStep(c, data, offset);
        SendNal(c, data[nalStart..nalEnd], nalEnd >= |data|, timestamp, NalsUnits(c, SplitNals(data, nalEnd)));
        offset := nalEnd;
      }
    }

    /** `packetize_av1`: the frame whole if it fits, fragments otherwise. */
    method PacketizeAv1(data: seq<Byte>, timestamp: U32, keyframe: bool)
      modifies this
      ensures Outlook([], timestamp) == old(Outlook(Av1Units(data, keyframe), timestamp))
      ensures Config() == old(Config())
    {
      ghost var goal := Outlook(Av1Units(data, keyframe), timestamp);
      if |data| <= MAX_RTP_PAYLOAD - 1 {
        var aggregation := AV1_W1;
        if keyframe {
          aggregation := AV1_W1 + AV1_N;
        }
        SendNext(Unit(true, [aggregation] + data), timestamp, Av1Units(data, keyframe));
        return;
      }
      var offset := 0;
      var first := true;
      while offset < |data|
        invariant offset <= |data|
        invariant first == (offset == 0)
        invariant Outlook(Av1Fragments(data, offset, keyframe), timestamp) == goal
        invariant Config() == old(Config())
        decreases |data| - offset
      {
        var fragSize := Min(MAX_RTP_PAYLOAD - 1, |data| - offset);
        var last := offset + fragSize >= |data|;
        var aggregation := 0;
        if !first {
          aggregation := aggregation + AV1_Z;
        }
        if !last {
          aggregation := aggregation + AV1_Y;
        }
        if first && keyframe {
          aggregation := aggregation + AV1_N;
        }
        ghost var due := Av1Fragments(data, offset, keyframe);
        SendNext(Unit(last, [aggregation] + data[offset..offset + fragSize]), timestamp, due);
        assert due[1..] == Av1Fragments(data, offset + fragSize, keyframe);
        offset := offset + fragSize;
        first := false;
      }
    }

    /** Packetises one frame for the configured codec. */
    method SendFrame(data: seq<Byte>, keyframe: bool, timestamp: U32)
      modifies this
      ensures sent == old(sent) + Stamp(FrameUnits(codec, data, keyframe), VIDEO_PT, old(sequenceNumber), timestamp, ssrc)
      ensures sequenceNumber == (old(sequenceNumber) + |FrameUnits(codec, data, keyframe)|) % TWO_16
      ensures Config() == old(Config())
    {
      ghost var units := FrameUnits(codec, data, keyframe);
      ghost var s0, q0 := sent, sequenceNumber;
      if codec == AV1 {
        PacketizeAv1(data, timestamp, keyframe);
      } else {
        PacketizeAnnexB(codec, data, timestamp);
      }
      OutlookReached(sent, sequenceNumber, s0, q0, units, timestamp, ssrc);
    }

    /**
     * `process_packet`: nothing happens without a packet or while stopped;
     * otherwise the frame is packetised for the configured codec with its
     * 90 kHz timestamp, and the frame, its bytes and a keyframe are counted.
     */
    method ProcessPacket(packet: Option<EncodedFrame>)
      modifies this
      ensures packet.None? || !old(running) ==>
        sent == old(sent) && sequenceNumber == old(sequenceNumber) && stats == old(stats)
      ensures packet.Some? && old(running) ==>
        var f := packet.value;
        var us := FrameUnits(codec, f.data, f.keyframe);
        sent == old(sent) + Stamp(us, VIDEO_PT, old(sequenceNumber), FrameTimestamp(f.frameIndex), ssrc)
        && sequenceNumber == (old(sequenceNumber) + |us|) % TWO_16
        && stats == Stats(old(stats.framesSent) + 1, old(stats.bytesSent) + |f.data|,
                          old(stats.keyFramesSent) + (if f.keyframe then 1 else 0))
      ensures codec == old(codec) && running == old(running) && ssrc == old(ssrc)
    {
      if packet.None? || !running {
        return;
      }
      var f := packet.value;
      SendFrame(f.data, f.keyframe, FrameTimestamp(f.frameIndex));
      var key := if f.keyframe then 1 else 0;
      stats := Stats(stats.framesSent + 1, stats.bytesSent + |f.data|, stats.keyFramesSent + key);
    }
  }

  /** Once nothing is due, the outlook is what has been sent and the sequence number that follows it. */
  lemma OutlookReached(sent: seq<seq<Byte>>, sequence: U16, sent0: seq<seq<Byte>>, sequence0: U16, units: seq<Unit>,
                       timestamp: U32, ssrc: U32)
    requires (sent + Stamp([], VIDEO_PT, sequence, timestamp, ssrc), (sequence + 0) % TWO_16)
          == (sent0 + Stamp(units, VIDEO_PT, sequence0, timestamp, ssrc), (sequence0 + |units|) % TWO_16)
    ensures sent == sent0 + Stamp(units, VIDEO_PT, sequence0, timestamp, ssrc)
    ensures sequence == (sequence0 + |units|) % TWO_16
  {
    assert sent + [] == sent;
  }

  lemma NalsUnitsStep(c: VideoCodec, data: seq<Byte>, offset: nat)
    requires offset < |data|
    ensures var s := offset + StartCodeLength(data, offset);
      var e := NalEnd(data, s);
      NalsUnits(c, SplitNals(data, offset)) == NalUnits(c, data[s..e], e >= |data|) + NalsUnits(c, SplitNals(data, e))
  {
    var s := offset + StartCodeLength(data, offset);
    var e := NalEnd(data, s);
    var nals := SplitNals(data, offset);
    assert nals == [Nal(data[offset..s], data[s..e], e == |data|)] + SplitNals(data, e);
    assert nals[1..] == SplitNals(data, e);
  }
}
