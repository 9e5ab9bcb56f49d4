# Sunshine WebRTC streaming core — a Dafny model

This project models the browser-streaming core of this Sunshine fork: the
parts that take the host's encoded video and audio, packetise it as RTP and
send it to every connected WebRTC peer, run the signaling protocol that
seats browsers in a room as host, players or spectators, turn the input
they send back over data channels into gamepad, keyboard and mouse events on
the Linux input back-ends, and the Python deployment proxies that sit in
front of the server.

Each component is a module:

- `Bytes`, `Wrappers` — byte values (the subset type `Byte` over `int`),
  big- and little-endian fields, C-style integer conversions, `Option` and
  `Result`.
- `Fmp4` — the fragmented-MP4 streamer of the Discord activity: the box
  cutter over a growing buffer, the initialisation segment kept for late
  clients, and the broadcaster (`FMP4Streamer`).
- `Proxy`, `GcpProxy` — the HTTP and WebSocket reverse proxies: request and
  response header filtering, target URLs, the relay loops, the 502 path and
  the activity tracker with its bounded server log.
- `Rtp`, `VideoRtp`, `AudioRtp` — the RTP header writer and the video
  (H.264 FU-A, HEVC FU, AV1) and Opus audio senders (`VideoSender`,
  `AudioSender`).
- `Input` — the binary input-message codec and the `InputHandler` that
  routes gamepad, keyboard and mouse messages by room permissions.
- `Rooms` — `Room` (host, player slots, spectators, gamepad mappings,
  permissions) and `RoomManager`.
- `Peers` — the WebRTC `Peer` and `PeerManager` over a connection state.
- `Signaling` — the `SignalingServer`: message parsing, join, leave,
  promotion, gamepad claims, SDP and ICE relaying, guest permissions and
  quality settings, each broadcast specified through per-peer mailboxes.
- `WsServer` — the WebSocket server's sessions, callbacks and read loop.
- `WebrtcModule` — configuration (player count, TURN servers) and the
  start/stop of the whole module.
- `InputDevices`, `Keyboard`, `Mouse` — the Linux back-ends: device
  selection (XTEST under Xvfb), key-code lookup, xdotool command lines,
  Unicode entry by hexadecimal key taps, mouse buttons and wheel clicks.

Side effects the core performs on sockets, threads or devices are recorded
as sequences of values (packets sent, messages queued, input events
forwarded, commands issued), so that each method's contract states exactly
what went out.

## Model

| member | source | states |
|---|---|---|
| Fmp4.CutAsWritten | modal_deploy/discord_app.py:365-385 | the inner loop's cut as written: a box is never longer than the buffer, and the end-of-data stop happens exactly when the 32-bit size is 0 |
| Fmp4.LargeSizeZeroMakesNoProgress | modal_deploy/discord_app.py:373-385 | a largesize of 0 cuts an empty box and leaves the buffer as it was, so the inner loop never ends |
| Fmp4.ShortSizeGivesBoxShorterThanHeader | modal_deploy/discord_app.py:367-385 | a 32-bit size of 2 is cut as a 2-byte "box", shorter than its own 8-byte header |
| Fmp4.CutBox | modal_deploy/discord_app.py:365-385 | the corrected cut: every box is at least a header long and fits in the buffer; size 0 is end of data |
| Fmp4.CutBoxAgreesOnWellFormed | modal_deploy/discord_app.py:365-385 | the corrected cut differs from the code only on the malformed sizes (2-7, or a largesize below 16), which it rejects |
| Fmp4.CutExtends | modal_deploy/discord_app.py:365-385 | once a cut is decided, more bytes after it do not change it |
| Fmp4.ParseBoxesKeepsBytes | modal_deploy/discord_app.py:362-385 | the boxes cut from the buffer, followed by what remains, are the buffer, byte for byte and in order |
| Fmp4.ParseBoxesStep | modal_deploy/discord_app.py:384-385 | a complete box is taken off the front and parsing goes on with the bytes after it |
| Fmp4.ParseBoxesNone | modal_deploy/discord_app.py:365-381 | with fewer than 8 bytes, a size of 0, a short largesize header or a short box, nothing is cut |
| Fmp4.ParseBoxesStops | modal_deploy/discord_app.py:365-381 | parsing stops only where no complete box remains, and says why (waiting, end of data, malformed) |
| Fmp4.ParseBoxesWellFormed | modal_deploy/discord_app.py:365-385 | no partial box is ever emitted: every box has exactly its declared size and at least a header |
| Fmp4.CutPrefix | modal_deploy/discord_app.py:384 | a cut box, taken on its own, declares exactly its own length |
| Fmp4.ParseAppend | modal_deploy/discord_app.py:356-396 | parsing a + b is parsing a, then parsing what a left over followed by b |
| Fmp4.ParseAppendBox | modal_deploy/discord_app.py:356-396 | the same, when a starts with a complete box |
| Fmp4.ParseAppendStopped | modal_deploy/discord_app.py:370-372 | after a size-0 or malformed stop, later bytes only pile up in the buffer |
| Fmp4.ChunkIndependence | modal_deploy/discord_app.py:356-396 | reading chunk by chunk emits the boxes of the concatenated stream |
| Fmp4.SplittingDoesNotMatter | modal_deploy/discord_app.py:357 | two ways of splitting the same stream into reads emit the same boxes |
| Fmp4.InitBoxes | modal_deploy/discord_app.py:388 | only `ftyp` and `moov` boxes go into the init segment |
| Fmp4.InitSegmentIsInitBoxes | modal_deploy/discord_app.py:388-392 | the init segment is absent until the first `ftyp`/`moov` box, then the concatenation of all of them in arrival order |
| Fmp4.TakeUntilEof | modal_deploy/discord_app.py:356-360 | the reader consumes the process's outputs up to the first empty read and no further |
| Fmp4.TakeUntilEofStops | modal_deploy/discord_app.py:358-360 | the reader stops at the first empty read |
| Fmp4.TakeUntilEofGoesOn | modal_deploy/discord_app.py:356-358 | the reader goes on past every non-empty read |
| Fmp4.ReaderSeesWholeStream | modal_deploy/discord_app.py:356-396 | what the reader has parsed when it stops is the parse of everything it read |
| Fmp4.FeedAllSnoc | modal_deploy/discord_app.py:362-365 | one more read appends the chunk to the buffer and parses on |
| Fmp4.DeliverMeaning | modal_deploy/discord_app.py:405-417 | a broadcast appends the data to each target client's inbox and leaves the other inboxes alone |
| Fmp4.DeliverTwice | modal_deploy/discord_app.py:396 | broadcasting two runs of boxes to the same clients is broadcasting them in one run, in order |
| Fmp4.DeliverNothing | modal_deploy/discord_app.py:405-417 | broadcasting nothing changes no inbox |
| Fmp4.EmitTwice | modal_deploy/discord_app.py:365-396 | emitting two runs of boxes one after the other, the second starting where the first ended in the run, is emitting their concatenation |
| Fmp4.EmitSnoc | modal_deploy/discord_app.py:384-396 | one more box extends the init segment if it is `ftyp`/`moov`, then reaches every remaining client whose send of that box does not fail, and those whose send fails are dropped |
| Fmp4.FirstFailure | modal_deploy/discord_app.py:405-417 | the position of the first box of a run whose send to a client fails: no earlier send to it fails, and the send at that position does |
| Fmp4.EmitShape | modal_deploy/discord_app.py:384-417 | over a run the init segment is built from its `ftyp`/`moov` boxes, no client is added, every inbox is kept and a client already gone receives nothing |
| Fmp4.EmitClient | modal_deploy/discord_app.py:394-417 | a connected client receives the run's boxes in order up to the first whose send to it fails, is dropped at that box, and stays connected exactly when no send to it fails |
| Fmp4.WithInitSnoc | modal_deploy/discord_app.py:388-392 | the init segment after one more box is that box added to it |
| Fmp4.WithInitAppend | modal_deploy/discord_app.py:388-392 | the init segment after two runs of boxes is the second run added to the first's |
| Fmp4.FMP4Streamer.constructor | modal_deploy/discord_app.py:269-275 | no process, no clients, not running, no init segment, no reader task |
| Fmp4.FMP4Streamer.Start | modal_deploy/discord_app.py:277-334 | a no-op while running; otherwise the process exists, the streamer is running and the reader task starts |
| Fmp4.FMP4Streamer.Broadcast | modal_deploy/discord_app.py:405-417 | every client present at entry is offered the data; afterwards the clients are the old ones minus those whose send failed, none added |
| Fmp4.FMP4Streamer.DrainBoxes | modal_deploy/discord_app.py:365-396 | (corrected cut) the buffer loses exactly the complete boxes at its front; each box updates the init segment and is offered to the remaining clients with the failures of its own position in the run, in order |
| Fmp4.FMP4Streamer.ReadChunk | modal_deploy/discord_app.py:356-396 | (corrected cut) one read is appended to the buffer and the boxes it completes are cut and broadcast |
| Fmp4.FMP4Streamer.ReadAndBroadcast | modal_deploy/discord_app.py:352-403 | (corrected cut) the leftover buffer and the emitted boxes are those of the concatenated stream up to the first empty read, each box meeting the send failures of its position; `running` is false on exit |
| Fmp4.FMP4Streamer.AddClient | modal_deploy/discord_app.py:419-430 | the client is added and gets the init segment iff it is non-empty and the send succeeds |
| Fmp4.FMP4Streamer.RemoveClient | modal_deploy/discord_app.py:432-435 | the client is discarded; removing an absent client changes nothing |
| Fmp4.FMP4Streamer.Stop | modal_deploy/discord_app.py:437-446 | not running, no process, and the reader task, if any, is cancelled |
| Proxy.LowerChar | modal_deploy/proxy.py:113 | ASCII lower-casing of one character (A-Z to a-z, everything else kept), which decides membership in the nine hop-by-hop names exactly as `str.lower` does |
| Proxy.Lower | modal_deploy/proxy.py:113 | lower-casing keeps the length and lower-cases each character |
| Proxy.LowerIdempotent | modal_deploy/proxy.py:113 | lower-casing twice is lower-casing once |
| Proxy.FilterRequestHeaders | modal_deploy/proxy.py:108-113 | the forwarded request headers are among the incoming ones |
| Proxy.RequestFilterSound | modal_deploy/app.py:189-193 | a header is forwarded, with its value, iff its lower-cased name is not one of the nine hop-by-hop/host names; filtering again changes nothing |
| Proxy.Without | modal_deploy/discord_app.py:843-845 | popping names only removes headers |
| Proxy.PopAll | modal_deploy/discord_app.py:843-845 | the in-place `pop` loop leaves the headers minus every listed name |
| Proxy.SanitizeResponse | modal_deploy/proxy.py:125-128 | the response headers lose the hop-by-hop names, content-encoding and content-length |
| Proxy.SanitizeResponseForFraming | gcp_deploy/proxy.py:202-211 | the GCP response headers additionally lose the framing headers and then carry the fixed `frame-ancestors` policy |
| Proxy.SanitizedMeaning | modal_deploy/app.py:205-207 | a response header survives, unchanged, iff it is not hop-by-hop, content-encoding or content-length; sanitising twice changes nothing; no CSP is added |
| Proxy.FramedMeaning | gcp_deploy/proxy.py:203-211 | the policy header holds exactly the fixed value, x-frame-options is gone, every other header kept is an incoming one with its value, and every header outside the removed lists is kept |
| Proxy.FramedIdempotent | gcp_deploy/proxy.py:203-211 | rewriting the GCP response headers twice gives the same headers |
| Proxy.TargetUrl | gcp_deploy/proxy.py:178-180 | the upstream URL starts with the internal HTTPS base |
| Proxy.FindQuestion | modal_deploy/proxy.py:101-103 | the first '?' of a URL, if any |
| Proxy.TargetUrlRoundTrip | modal_deploy/proxy.py:101-103 | the path and the query, as the framework hands them over, can be read back from the URL: base + path, then "?" + query only when the query is non-empty, for a path without a `?` |
| Proxy.QuestionAfter | modal_deploy/app.py:183-185 | with a path free of '?', the first '?' is the one placed before the query |
| Proxy.UpstreamRequest | modal_deploy/proxy.py:106-123 | the upstream request keeps the method and the body and forwards only incoming headers |
| Proxy.HttpProxy | modal_deploy/proxy.py:95-143 | an upstream failure gives 502, text/plain, "Proxy error: " + message; a success gives the upstream status, body and content type with sanitised headers (framing-rewritten on GCP) |
| Proxy.TextsBeforeStopMeaning | modal_deploy/proxy.py:58-67 | client text messages are forwarded in order until the first event that is not a text message |
| Proxy.ClientToUpstream | modal_deploy/app.py:147-155 | the client-to-upstream loop sends exactly the client texts received before the client goes |
| Proxy.UpstreamToClient | modal_deploy/proxy.py:69-78 | every upstream message reaches the client, in order, text as text and bytes as binary |
| Proxy.Relay | modal_deploy/proxy.py:40-92 | a failed upstream connect closes the client with code 1011 and the error text; otherwise both directions run to their end (`gather`) with no close |
| GcpProxy.Recent | gcp_deploy/proxy.py:47 | the log buffer never holds more than 200 entries |
| GcpProxy.RecentSnoc | gcp_deploy/proxy.py:53-60 | appending to a full buffer drops the oldest entry; otherwise the entry is simply appended |
| GcpProxy.RecentIsRing | gcp_deploy/proxy.py:47 | the closed form equals appending the entries one at a time to an empty `deque(maxlen=200)`, which drops its oldest entry when full |
| GcpProxy.TextsBeforeStopSnoc | gcp_deploy/proxy.py:98-106 | one more client event forwards its text only while the client is still sending text |
| GcpProxy.RunProjects | gcp_deploy/proxy.py:96-125 | interleaving the two directions does not change what each forwards: client texts up to the first stop, and every upstream message with its kind |
| GcpProxy.RunActivity | gcp_deploy/proxy.py:101-112 | the activity time moves only with a relayed message, and an upstream message sets it to that message's time |
| GcpProxy.ActivityTracker.constructor | gcp_deploy/proxy.py:42-48 | no connections, no logs, and the activity time is the start time |
| GcpProxy.ActivityTracker.AddServerLog | gcp_deploy/proxy.py:53-60 | the entry is logged and is the newest one kept; at most 200 are kept |
| GcpProxy.ActivityTracker.UpdateActivity | gcp_deploy/proxy.py:63-67 | the activity time becomes now and nothing else changes |
| GcpProxy.ActivityTracker.GetStatus | gcp_deploy/proxy.py:148-160 | the count is the number of live connections, the idle time is the elapsed time in whole seconds truncated toward zero, and the last-activity time is returned as recorded |
| GcpProxy.ActivityTracker.GetServerLogs | gcp_deploy/proxy.py:162-167 | the logs returned are the kept (most recent) entries |
| GcpProxy.ActivityTracker.Accept | gcp_deploy/proxy.py:75-83 | the connection id is added, activity is now, and a "connected (total: n)" entry is logged |
| GcpProxy.ActivityTracker.RelayMessages | gcp_deploy/proxy.py:96-125 | the relay forwards the client texts up to the first stop and every upstream message in order and kind, and the activity time is that of the last relayed message |
| GcpProxy.ActivityTracker.Finish | gcp_deploy/proxy.py:127-139 | the connection id is discarded, activity is now, and an error entry (on failure) then a "disconnected (remaining: n)" entry are logged |
| GcpProxy.ActivityTracker.WebsocketProxy | gcp_deploy/proxy.py:70-139 | on every exit path the id leaves the live set; a failed connect closes the client with 1011 and the error text; otherwise the relay runs to its end |
| GcpProxy.ActivityTracker.HttpProxy | gcp_deploy/proxy.py:170-226 | every request updates the activity time; on success the reply has the upstream status, body and content type with the framing-rewritten headers, otherwise the 502 text/plain "Proxy error" reply |
| Bytes.Be32 | modal_deploy/discord_app.py:367 | a big-endian 32-bit field is below 2^32 |
| Bytes.Be64 | modal_deploy/discord_app.py:377 | a big-endian 64-bit field is below 2^64 |
| Bytes.ToBe16 | src/webrtc/video_sender.cpp:192-193 | the two bytes written for a 16-bit value read back, big-endian, as that value |
| Bytes.ToBe32 | src/webrtc/video_sender.cpp:197-200 | the four bytes written for a 32-bit value read back, big-endian, as that value |
| Bytes.Le16 | src/webrtc/input.cpp:44 | a little-endian 16-bit value has the first byte as its low byte and the second as its high byte |
| Bytes.ToLe16 | src/webrtc/input.cpp:258-263 | the two bytes written for a 16-bit value read back, little-endian, as that value |
| Bytes.Le16RoundTrip | src/webrtc/input.cpp:44 | encoding then decoding a 16-bit value gives it back, and decoding then encoding two bytes gives them back (also lines 258-263) |
| Bytes.ToInt16 | src/webrtc/input.cpp:48-51 | reading 16 bits as `int16_t` gives a value in [-32768, 32767] congruent to them mod 2^16 |
| Bytes.FromInt16 | src/webrtc/input.cpp:316-322 | every `int16_t` value has the 16-bit pattern that reads back as it |
| Bytes.CDiv | src/platform/linux/input/inputtino_mouse.cpp:113 | C++ integer division: truncation toward zero for either sign |
| Bytes.ToInt32 | src/webrtc/signaling.cpp:254-255 | `static_cast<int>` of a wider integer lands in [-2^31, 2^31), congruent to it mod 2^32, and keeps a value that already fits |
| Bytes.Truncate | src/webrtc/signaling.cpp:254-255 | a floating value converts to the integer next to it on the side of zero |
| Bytes.Min | src/webrtc/video_sender.cpp:223 | `std::min`: no greater than either argument and equal to one of them |
| Rtp.NextSeq | src/webrtc/video_sender.cpp:194 | the 16-bit sequence number increments modulo 2^16 |
| Rtp.Header | src/webrtc/video_sender.cpp:184-206 | the RTP fixed header is 12 bytes |
| Rtp.PacketFields | src/webrtc/video_sender.cpp:182-209 | a packet is 12 + payload bytes: byte 0 is 0x80 (version 2), byte 1 is the payload type with the marker bit, then the sequence number, timestamp and SSRC big-endian, then the payload verbatim (section 5.1 of RFC 3550) |
| Rtp.StampLength | src/webrtc/video_sender.cpp:194-237 | stamping a run of payloads gives one packet each |
| Rtp.StampAt | src/webrtc/video_sender.cpp:235-237 | the i-th packet of a run carries the starting sequence number + i, modulo 2^16 |
| Rtp.StampMeaning | src/webrtc/video_sender.cpp:192-237 | consecutive packets carry consecutive sequence numbers, modulo 2^16 |
| Rtp.NextSeqShift | src/webrtc/video_sender.cpp:194 | incrementing and then counting on k is counting on k + 1 |
| Rtp.EmitHead | src/webrtc/video_sender.cpp:211-261 | sending the first packet of a run, then the rest from the next sequence number, sends the whole run |
| Rtp.NextSeqAfter | src/webrtc/video_sender.cpp:194 | after n packets the sequence number has advanced by n, modulo 2^16 |
| Rtp.WriteHeader | src/webrtc/video_sender.cpp:184-206 | the first 12 bytes of the buffer become the RTP header and the rest is untouched |
| Rtp.BuildPacket | src/webrtc/video_sender.cpp:182-209 | the bytes filled in are exactly the packet's header followed by its payload |
| VideoRtp.StartCodeLength | src/webrtc/video_sender.cpp:161-168 | the start code skipped at `offset` is `00 00 01` or `00 00 00 01`, it is skipped only with four bytes left, and nothing is skipped otherwise |
| VideoRtp.NalEnd | src/webrtc/video_sender.cpp:170-176 | the NAL ends at the first start code at or after its start, or at the end of the frame |
| VideoRtp.ScanAsWrittenAgrees | src/webrtc/video_sender.cpp:171-176 | for frames of at least 3 bytes the `size - 3` scan finds the same end as the corrected scan |
| VideoRtp.ShortFrameScanReadsPastEnd | src/webrtc/video_sender.cpp:171 | for a 1- or 2-byte frame `size - 3` wraps around and the scan reads past the end of the frame (also line 294) |
| VideoRtp.NalStep | src/webrtc/video_sender.cpp:155-268 | one round of the outer loop consumes a start code and one NAL, and `offset` moves forward to the next NAL start |
| VideoRtp.NalAdvances | src/webrtc/video_sender.cpp:268 | `offset` always moves forward, so the outer loop ends |
| VideoRtp.SplitNalsJoined | src/webrtc/video_sender.cpp:155-269 | the start codes and NAL bodies found, put back together, are the frame: nothing is lost or duplicated |
| VideoRtp.SplitNalsShape | src/webrtc/video_sender.cpp:155-187 | a non-empty frame has NALs, each preceded by a (possibly empty) start code, and only the last reaches the end of the frame |
| VideoRtp.FragmentsShape | src/webrtc/video_sender.cpp:222-265 | each fragment carries the prefix, an FU header with the start bit only on the first and the end bit only on the last, at most the fragment limit of data, and the marker only on the frame's last fragment |
| VideoRtp.FragmentsReassemble | src/webrtc/video_sender.cpp:219-264 | the fragment data, concatenated, is the NAL after its header |
| VideoRtp.H264FuRoundTrip | src/webrtc/video_sender.cpp:213-265 | a receiver rebuilds a large H.264 NAL from its FU-A packets: NRI from the indicator, type from the FU header, and the fragment data (section 5.8 of RFC 6184) |
| VideoRtp.H264HeaderBack | src/webrtc/video_sender.cpp:215-256 | the indicator (NRI, type 28) and the FU header (type) give back the NAL header |
| VideoRtp.HevcPayloadHeader | src/webrtc/video_sender.cpp:334-371 | the corrected HEVC payload header is two bytes |
| VideoRtp.HevcPayloadHeaderFields | src/webrtc/video_sender.cpp:369-371 | the corrected payload header has type 49 and the NAL's own LayerId and TID (section 4.4.3 of RFC 7798) |
| VideoRtp.HevcPayloadHeaderBytes | src/webrtc/video_sender.cpp:369-371 | the corrected payload header is the NAL header with its type replaced by 49 |
| VideoRtp.HevcPayloadHeaderAsWrittenBaseLayer | src/webrtc/video_sender.cpp:336-371 | for LayerId 0 the header as written agrees with the corrected one |
| VideoRtp.HevcPayloadHeaderAsWrittenLayerOne | src/webrtc/video_sender.cpp:336-371 | for NAL header 0x26 0x09 (LayerId 1) the code writes 0x62 0x41, which claims LayerId 8 |
| VideoRtp.HevcFuRoundTrip | src/webrtc/video_sender.cpp:332-385 | a receiver rebuilds a large HEVC NAL from its FU packets (corrected payload header) |
| VideoRtp.HevcHeaderBack | src/webrtc/video_sender.cpp:334-377 | the payload header and the FU type give back the first NAL header byte |
| VideoRtp.NalUnitsMarksEnd | src/webrtc/video_sender.cpp:180-266 | a NAL's packets carry the marker only on the last packet of the frame's last NAL |
| VideoRtp.NalsUnitsMarker | src/webrtc/video_sender.cpp:187-189 | over a whole frame, exactly the final packet carries the marker (also lines 231-233, 351-353) |
| VideoRtp.NalsUnitsStep | src/webrtc/video_sender.cpp:155-268 | the packets of a frame are those of its first NAL followed by those of the rest |
| VideoRtp.AnnexBMarker | src/webrtc/video_sender.cpp:149-270 | (corrected HEVC payload header and short-frame scan) for H.264 and HEVC the marker is set on exactly the packet carrying the frame's last byte |
| VideoRtp.ShortFrameIsOnePacket | src/webrtc/video_sender.cpp:155-211 | the corrected packetiser sends a 1- or 2-byte frame as one marked packet |
| VideoRtp.Av1FragmentsShape | src/webrtc/video_sender.cpp:433-478 | each AV1 fragment carries at most 1199 data bytes and the aggregation header with Z on non-first, Y on non-last and N only on a keyframe's first fragment; the marker only on the last |
| VideoRtp.Av1FragmentsReassemble | src/webrtc/video_sender.cpp:435-478 | the AV1 fragment data, concatenated, is the frame from the current offset |
| VideoRtp.Av1RoundTrip | src/webrtc/video_sender.cpp:400-479 | every AV1 frame, whole (header 0x10, 0x18 on a keyframe) or fragmented, is rebuilt from its packets |
| VideoRtp.FrameTimestamp | src/webrtc/video_sender.cpp:121 | the 90 kHz timestamp is the frame index times 3000, truncated to 32 bits |
| VideoRtp.VideoSender.constructor | src/webrtc/video_sender.h:171-186 | H.264, stopped, sequence number 0, nothing sent, zero statistics |
| VideoRtp.VideoSender.Init | src/webrtc/video_sender.cpp:25-34 | the SSRC becomes the random value and nothing else changes |
| VideoRtp.VideoSender.Start | src/webrtc/video_sender.cpp:36-46 | the sender is running afterwards, whether or not it was before |
| VideoRtp.VideoSender.Stop | src/webrtc/video_sender.cpp:48-61 | the sender is stopped afterwards, whether or not it was running |
| VideoRtp.VideoSender.SetCodec | src/webrtc/video_sender.cpp:63-67 | only the codec changes |
| VideoRtp.VideoSender.SendUnit | src/webrtc/video_sender.cpp:182-211 | one packet with the current sequence number is sent and the number increments |
| VideoRtp.VideoSender.SendNext | src/webrtc/video_sender.cpp:182-211 | sending the next due packet leaves the rest of the outcome unchanged |
| VideoRtp.VideoSender.FindNalEnd | src/webrtc/video_sender.cpp:170-176 | the scan loop finds the end of the NAL |
| VideoRtp.VideoSender.SendFragments | src/webrtc/video_sender.cpp:219-265 | the fragmentation loop sends exactly the fragments of the NAL, in order |
| VideoRtp.VideoSender.SendNal | src/webrtc/video_sender.cpp:178-266 | (corrected HEVC payload header) one NAL is sent whole if it fits in 1200 bytes, otherwise as FU-A (H.264) or FU (HEVC) fragments (also lines 301-386) |
| VideoRtp.VideoSender.PacketizeAnnexB | src/webrtc/video_sender.cpp:148-390 | (corrected HEVC payload header and short-frame scan) `packetize_h264`/`packetize_hevc` send exactly the packets of each NAL of the frame, in order |
| VideoRtp.VideoSender.PacketizeAv1 | src/webrtc/video_sender.cpp:392-480 | `packetize_av1` sends exactly the AV1 packets of the frame |
| VideoRtp.VideoSender.SendFrame | src/webrtc/video_sender.cpp:123-134 | (corrected HEVC payload header and short-frame scan) the frame's packets are sent with consecutive sequence numbers, and the number advances by their count modulo 2^16 |
| VideoRtp.VideoSender.ProcessPacket | src/webrtc/video_sender.cpp:112-146 | (corrected HEVC payload header and short-frame scan) nothing happens without a packet or while stopped; otherwise the frame is packetised for the codec at its timestamp and the frame, byte and keyframe counts go up |
| AudioRtp.NextTimestamp | src/webrtc/audio_sender.cpp:116 | the 32-bit timestamp advances by 480 samples, wrapping modulo 2^32 |
| AudioRtp.OpusPacketsLength | src/webrtc/audio_sender.cpp:140-172 | one RTP packet per Opus payload sent |
| AudioRtp.TimestampAfterValue | src/webrtc/audio_sender.cpp:91-116 | after k packets the timestamp is 480·k past the start, modulo 2^32 |
| AudioRtp.TimestampAfterSnoc | src/webrtc/audio_sender.cpp:116 | one more packet advances the timestamp by one step |
| AudioRtp.OpusPacketAt | src/webrtc/audio_sender.cpp:140-168 | the i-th packet carries the i-th payload, sequence number start + i and timestamp start + 480·i, with the marker set |
| AudioRtp.OpusPacketBytes | src/webrtc/audio_sender.cpp:144-168 | an Opus packet is 12 + size bytes: byte 0 is 0x80, byte 1 is 111 with the marker bit (0xEF), and the payload follows verbatim (RFC 7587) |
| AudioRtp.Delivered | src/webrtc/audio_sender.cpp:94-117 | only non-empty payloads are processed |
| AudioRtp.DeliveredMeaning | src/webrtc/audio_sender.cpp:96-117 | a payload is processed iff it was popped, is non-empty, and some peer was connected at the time |
| AudioRtp.DeliveredSplit | src/webrtc/audio_sender.cpp:94-117 | each pop processes at most one payload, so the processed payloads of a run add up pop by pop |
| AudioRtp.OutlookStep | src/webrtc/audio_sender.cpp:114-136 | sending one payload moves it from the outstanding ones to the sent ones with the next sequence number, timestamp and statistics |
| AudioRtp.OutlookDone | src/webrtc/audio_sender.cpp:94-118 | with nothing outstanding, the current packets, sequence number and statistics are the planned ones |
| AudioRtp.AudioSender.constructor | src/webrtc/audio_sender.h:111-122 | stopped, sequence number 0, 48 kHz stereo at 128 kbit/s, nothing sent |
| AudioRtp.AudioSender.Init | src/webrtc/audio_sender.cpp:24-38 | a random SSRC and the default Opus parameters |
| AudioRtp.AudioSender.Start | src/webrtc/audio_sender.cpp:40-50 | running afterwards; a second start changes nothing |
| AudioRtp.AudioSender.Stop | src/webrtc/audio_sender.cpp:52-65 | stopped afterwards; stopping a stopped sender changes nothing |
| AudioRtp.AudioSender.SetParams | src/webrtc/audio_sender.cpp:72-75 | only the parameters change |
| AudioRtp.AudioSender.SendRtpPacket | src/webrtc/audio_sender.cpp:139-172 | one Opus packet with the current sequence number is sent and the number increments modulo 2^16 |
| AudioRtp.AudioSender.ProcessPacket | src/webrtc/audio_sender.cpp:123-137 | a missing or empty payload, or a stopped sender, sends nothing and keeps the statistics; otherwise one packet is sent, packets + 1, bytes + size |
| AudioRtp.AudioSender.SendPop | src/webrtc/audio_sender.cpp:96-117 | one pop sends its payload if it is delivered, and the timestamp advances exactly then |
| AudioRtp.AudioSender.SenderLoop | src/webrtc/audio_sender.cpp:83-121 | from timestamp 0, every delivered payload is sent in order with consecutive sequence numbers and timestamps 480 apart, and the statistics count them |
| Input.SignedLe16 | src/webrtc/input.cpp:48-51 | the two little-endian bytes of a 16-bit signed value read back as that value |
| Input.Decode | src/webrtc/input.cpp:29-122 | a message decodes iff it is non-empty, its type byte is one of the five handled types, and it is at least that type's length (14, 5, 6, 3, 6); the result has that type |
| Input.Encode | src/webrtc/input.cpp:41 | the wire layout of each event has its type's length and starts with its type byte (also lines 58, 70, 97, 108) |
| Input.DecodeEncode | src/webrtc/input.cpp:40-117 | every event the decoder can produce round-trips: decoding its wire bytes gives it back (LE16 and signed LE16 fields, flag bit 0 choosing absolute or relative motion) |
| Input.DecodeIgnoresTail | src/webrtc/input.cpp:42 | bytes after the fixed layout are ignored (also lines 59, 72, 98, 109) |
| Input.Bit | src/webrtc/input.cpp:288 | the active mask `1 << slot` is a power of two within 16 bits |
| Input.GamepadHeader | src/webrtc/input.cpp:276-294 | the packet header is 0x0D, header size 22 little-endian, the slot, the mask `1 << slot` little-endian, then 0x7F 0x7F |
| Input.ControllerState | src/webrtc/input.cpp:296-320 | the state part is the buttons little-endian, the two triggers, and the four sticks as signed little-endian values |
| Input.GamepadPacket | src/webrtc/input.cpp:268-323 | the gamepad packet is 20 bytes: the header then the state |
| Input.RumbleMessage | src/webrtc/input.cpp:247-263 | the rumble message is 8 bytes: 0x02, the slot's low byte, then low frequency, high frequency and duration little-endian |
| Input.GamepadRoute | src/webrtc/input.cpp:126-149 | a gamepad input is routed only to a slot in 0..15 |
| Input.SlotRoute | src/webrtc/input.cpp:134-149 | within a room, the slot is the peer's existing mapping or a fresh claim, always in 0..15 |
| Input.RoomlessPeerIgnored | src/webrtc/input.cpp:128-181 | input from a peer in no room is dropped |
| Input.SpectatorGamepadIgnored | src/webrtc/input.cpp:134-137 | gamepad input from a spectator is dropped |
| Input.HostInputForwarded | src/webrtc/input.cpp:156-211 | the host's keyboard, mouse-move and mouse-button input is always forwarded, as exactly one call |
| Input.InputHandler.constructor | src/webrtc/input.cpp:23-26 | the handler works on the given room and peer registries and has forwarded nothing |
| Input.InputHandler.ProcessInput | src/webrtc/input.cpp:28-123 | a decodable message is routed by its type; an empty, unknown or short message does nothing |
| Input.InputHandler.ProcessGamepad | src/webrtc/input.cpp:125-153 | the packet goes to the claimed or auto-claimed slot, the peer's mapping then names that slot, and no other browser gamepad's mapping changes |
| Input.InputHandler.GamepadInRoom | src/webrtc/input.cpp:133-152 | in a room: spectators and failed claims send nothing; otherwise the packet for the slot is forwarded |
| Input.InputHandler.ProcessKeyboard | src/webrtc/input.cpp:155-174 | the key is forwarded with `release = !pressed` iff the peer is in a room with keyboard permission |
| Input.InputHandler.ProcessMouseMove | src/webrtc/input.cpp:176-194 | with mouse permission, absolute motion forwards the coordinates and relative motion the deltas; otherwise nothing |
| Input.InputHandler.ProcessMouseButton | src/webrtc/input.cpp:196-212 | with mouse permission the button is forwarded as button + 1 (8-bit) with its pressed flag; otherwise nothing |
| Input.InputHandler.ProcessMouseScroll | src/webrtc/input.cpp:214-234 | with mouse permission, a vertical scroll iff delta_y is non-zero, then a horizontal one iff delta_x is non-zero |
| Input.InputHandler.SendRumble | src/webrtc/input.cpp:236-266 | a known peer whose input channel is open gets exactly the rumble message on it; an unknown peer gets nothing |
| Input.InputHandler.WriteRumble | src/webrtc/input.cpp:247-263 | the bytes written are the rumble message |
| Input.InputHandler.BuildGamepadPacket | src/webrtc/input.cpp:268-323 | the bytes pushed are the 20-byte gamepad packet |
| InputDevices.ShouldUseXtest | src/platform/linux/input/inputtino_common.h:46-70 | XTEST is chosen iff SUNSHINE_USE_XTEST is exactly "1" or DISPLAY is set and contains ":99"; ":98" or a ":1" prefix alone does not choose it |
| InputDevices.XvfbDisplaySelected | src/platform/linux/input/inputtino_common.h:59-65 | ":99" and ":99.0" choose XTEST |
| InputDevices.OtherDisplaysNotSelected | src/platform/linux/input/inputtino_common.h:48-69 | ":98", ":1", and SUNSHINE_USE_XTEST="true" with ":0" do not choose XTEST |
| InputDevices.RawInput.constructor | src/platform/linux/input/inputtino_common.h:73-111 | XTEST stays in use only if it was chosen, the display opened and has the extension; XTEST in use always comes with an open display |
| Mouse.XButtonFor | src/platform/linux/input/inputtino_mouse.cpp:56-78 | the XTEST button exists iff the button is one of the five known ones, and it is one of 1, 2, 3, 8, 9 |
| Mouse.MouseKeyFor | src/platform/linux/input/inputtino_mouse.cpp:83-104 | the virtual-mouse button exists iff the button is one of the five known ones |
| Mouse.ButtonMapsInjective | src/platform/linux/input/inputtino_mouse.cpp:56-104 | distinct known buttons press distinct X buttons and distinct virtual-mouse buttons |
| Mouse.Clicks | src/platform/linux/input/inputtino_mouse.cpp:121-124 | n clicks are 2n button events |
| Mouse.ClicksAlternate | src/platform/linux/input/inputtino_mouse.cpp:121-124 | each click is a press followed by the release of the same button |
| Mouse.WheelClicksBounds | src/platform/linux/input/inputtino_mouse.cpp:113-145 | a scroll gives at most 10 clicks; nothing under 120 units either way; 1200 units or more give exactly 10 clicks of the positive button; a negative scroll clicks the negative button min(|d|/120, 10) times |
| Mouse.Move | src/platform/linux/input/inputtino_mouse.cpp:26-37 | relative motion goes through XTEST when active, else to the virtual mouse if it exists |
| Mouse.Button | src/platform/linux/input/inputtino_mouse.cpp:54-111 | a known button is pressed or released through XTEST or the virtual mouse; an unknown one does nothing |
| Mouse.ClickWheel | src/platform/linux/input/inputtino_mouse.cpp:118-124 | the XTEST loop sends exactly the wheel clicks for the distance |
| Mouse.Scroll | src/platform/linux/input/inputtino_mouse.cpp:113-131 | through XTEST: buttons 4 (clicks > 0) or 5; otherwise the virtual mouse's vertical scroll by the full distance |
| Mouse.HorizontalScrollBy | src/platform/linux/input/inputtino_mouse.cpp:133-150 | through XTEST: buttons 7 (clicks > 0) or 6; otherwise the virtual mouse's horizontal scroll |
| Mouse.GetLocation | src/platform/linux/input/inputtino_mouse.cpp:152-160 | the location is (0, 0) whatever the state |
| Keyboard.LetterKeyNames | src/platform/linux/input/inputtino_keyboard.cpp:34-143 | virtual keys 0x41-0x5A are named "a".."z" |
| Keyboard.DigitKeyNames | src/platform/linux/input/inputtino_keyboard.cpp:34-143 | virtual keys 0x30-0x39 are named "0".."9" |
| Keyboard.FunctionKeyNames | src/platform/linux/input/inputtino_keyboard.cpp:34-143 | virtual keys 0x70-0x7B are named "F1".."F12" |
| Keyboard.OutsideTableUnnamed | src/platform/linux/input/inputtino_keyboard.cpp:141 | codes below 0x08 or above 0xDE have no name |
| Keyboard.JoinArgsAppend | src/platform/linux/input/inputtino_keyboard.cpp:26-28 | joining the arguments of two lists is joining each and concatenating |
| Keyboard.TwoArgumentLine | src/platform/linux/input/inputtino_keyboard.cpp:24-31 | a key command reads "xdotool <verb> <key> 2>/dev/null" |
| Keyboard.XdotoolCmd | src/platform/linux/input/inputtino_keyboard.cpp:24-31 | exactly one command is run: "xdotool", then " " + each argument, then " 2>/dev/null" |
| Keyboard.UnescapeEscaped | src/platform/linux/input/inputtino_keyboard.cpp:300-306 | removing the backslash before each escaped character gives the text back |
| Keyboard.EscapedSnoc | src/platform/linux/input/inputtino_keyboard.cpp:301-306 | escaping one more character appends its escape |
| Keyboard.EscapeText | src/platform/linux/input/inputtino_keyboard.cpp:300-306 | the loop builds exactly the escaped text: a backslash before every ' and \ |
| Keyboard.QuotedAsWrittenBreaks | src/platform/linux/input/inputtino_keyboard.cpp:300-307 | as written, the text "'" gives a shell word with an unterminated quote and the text "\" reaches xdotool as two backslashes |
| Keyboard.EscapedQuoteRead | src/platform/linux/input/inputtino_keyboard.cpp:307 | inside single quotes, the sequence '\'' reads as one quote and quoting resumes |
| Keyboard.QuotedCharRead | src/platform/linux/input/inputtino_keyboard.cpp:307 | inside single quotes, any other character reads as itself |
| Keyboard.QuotedBodyRead | src/platform/linux/input/inputtino_keyboard.cpp:300-307 | the corrected quoted body reads back as the text, followed by whatever follows |
| Keyboard.ShellQuoteRoundTrip | src/platform/linux/input/inputtino_keyboard.cpp:300-307 | the corrected quoting makes the shell hand xdotool exactly the text |
| Keyboard.QuoteText | src/platform/linux/input/inputtino_keyboard.cpp:300-307 | the corrected quoting loop builds a single-quoted word that the shell reads back as exactly the text |
| Keyboard.Hex | src/platform/linux/input/inputtino_keyboard.cpp:156 | unpadded hex has at least one digit |
| Keyboard.UpperCase | src/platform/linux/input/inputtino_keyboard.cpp:160 | upper-casing keeps the length and maps each character |
| Keyboard.UpperHex | src/platform/linux/input/inputtino_keyboard.cpp:153-160 | upper-casing lower-case hex gives upper-case hex |
| Keyboard.UpperLowerHex | src/platform/linux/input/inputtino_keyboard.cpp:152-161 | the stream of lower-case hex, upper-cased, is the concatenation of each code point's upper-case hex |
| Keyboard.DigitValue | src/platform/linux/input/inputtino_keyboard.cpp:156 | a hex digit's value is below 16 |
| Keyboard.ParseHexRoundTrip | src/platform/linux/input/inputtino_keyboard.cpp:156-160 | one code point's hex reads back as the code point |
| Keyboard.HexStringAmbiguous | src/platform/linux/input/inputtino_keyboard.cpp:152-162 | without padding or separators, [U+1, U+23] and [U+12, U+3] both give "123" |
| Keyboard.ToHex | src/platform/linux/input/inputtino_keyboard.cpp:152-162 | the result is each code point's unpadded hex, concatenated and upper-cased |
| Keyboard.KeyCodeFor | src/platform/linux/input/inputtino_keyboard.cpp:187-222 | a character has a virtual key iff it is a digit or an upper-case letter (also lines 324-328) |
| Keyboard.BalancedJoin | src/platform/linux/input/inputtino_keyboard.cpp:317-338 | two balanced key sequences in a row are balanced |
| Keyboard.TapsBalanced | src/platform/linux/input/inputtino_keyboard.cpp:324-334 | tapping the hex digits presses and releases each key equally often |
| Keyboard.ModifiersBalanced | src/platform/linux/input/inputtino_keyboard.cpp:317-338 | Ctrl, Shift and U are each released as often as pressed |
| Keyboard.UnicodeKeysBalanced | src/platform/linux/input/inputtino_keyboard.cpp:317-338 | the whole Unicode key sequence leaves every key released |
| Keyboard.HexUpperDigits | src/platform/linux/input/inputtino_keyboard.cpp:156-160 | upper-case hex uses only 0-9 and A-F |
| Keyboard.HexStringDigits | src/platform/linux/input/inputtino_keyboard.cpp:152-162 | the hex string uses only 0-9 and A-F |
| Keyboard.HexDigitsTyped | src/platform/linux/input/inputtino_keyboard.cpp:324-334 | every hex digit has a key and is tapped, none skipped |
| Keyboard.HexDigitsAllTyped | src/platform/linux/input/inputtino_keyboard.cpp:314-334 | every digit of the hex string is typed |
| Keyboard.Update | src/platform/linux/input/inputtino_keyboard.cpp:274-293 | in xdotool mode a named key runs "keyup"/"keydown" and an unnamed one nothing; otherwise the virtual keyboard, if any, releases or presses the code |
| Keyboard.TypeHex | src/platform/linux/input/inputtino_keyboard.cpp:317-338 | press Ctrl, Shift, tap U, tap each mapped hex digit, release Shift then Ctrl |
| Keyboard.Unicode | src/platform/linux/input/inputtino_keyboard.cpp:295-340 | in xdotool mode one "type --" command whose last word the shell reads back as exactly the text (corrected quoting); otherwise, with a virtual keyboard, the key sequence for the upper-case hex of the code points |
| Peers.MapState | src/webrtc/peer.cpp:55-74 | each library connection state maps to one peer state: Connected to CONNECTED, Disconnected to DISCONNECTED, Failed and Closed to FAILED, and New, Connecting and anything else to CONNECTING |
| Peers.VideoCodecFor | src/webrtc/peer.cpp:207-224 | "HEVC" and "H265" choose H.265, "AV1" chooses AV1, and every other name, "H264" included, falls back to H.264; never Opus |
| Peers.AudioSsrc | src/webrtc/peer.cpp:263 | the audio SSRC is the video SSRC plus one in 32-bit arithmetic, so it always differs from the video SSRC and wraps to 0 after 0xFFFFFFFF |
| Peers.DescriptionTypeOf | src/webrtc/peer.cpp:138-166 | "offer" means an offer and every other type string an answer |
| Peers.Peer.constructor | src/webrtc/peer.cpp:21-34 | a new peer has its id and a random SSRC, is CONNECTING, has a connection but no tracks, channels, descriptions or candidates, and zero statistics |
| Peers.Peer.OnStateChange | src/webrtc/peer.cpp:48-77 | the state-change callback stores the mapped state and changes nothing else |
| Peers.Peer.SetRemoteDescription | src/webrtc/peer.cpp:157-176 | succeeds exactly when the connection exists; then the remote description is the given SDP with its type |
| Peers.Peer.AddIceCandidate | src/webrtc/peer.cpp:178-194 | succeeds exactly when the connection exists; then the candidate and its mid are appended to the remote candidates |
| Peers.Peer.CreateDescription | src/webrtc/peer.cpp:130-155 | succeeds exactly when the connection exists; then a local description of the requested type is generated |
| Peers.Peer.AddVideoTrack | src/webrtc/peer.cpp:196-248 | succeeds exactly when the connection exists; then the video track carries the chosen codec, payload type 96 and the peer's SSRC, not yet open |
| Peers.Peer.AddAudioTrack | src/webrtc/peer.cpp:250-285 | succeeds exactly when the connection exists; then the audio track carries Opus, payload type 111 and the SSRC after the peer's, not yet open |
| Peers.Peer.OnVideoOpen | src/webrtc/peer.cpp:233-289 | the library opening the video track makes it open; with no track nothing changes |
| Peers.Peer.OnAudioOpen | src/webrtc/peer.cpp:270-311 | the library opening the audio track makes it open; with no track nothing changes |
| Peers.Peer.SendVideo | src/webrtc/peer.cpp:287-307 | sends exactly when a video track exists and is open; a send appends the packet to the video output and adds its size and one packet to the video statistics; otherwise nothing changes |
| Peers.Peer.SendAudio | src/webrtc/peer.cpp:309-329 | sends exactly when an audio track exists and is open; a send appends the packet to the audio output and adds its size and one packet to the audio statistics; otherwise nothing changes |
| Peers.Peer.CreateDataChannel | src/webrtc/peer.cpp:331-347 | succeeds exactly when the connection exists; then the channel is recorded under its label, not yet open (also lines 390-393) |
| Peers.Peer.OnChannelOpen | src/webrtc/peer.cpp:357-359 | the library opening a channel marks it open |
| Peers.Peer.SendOnChannel | src/webrtc/peer.cpp:396-432 | a text or binary message is sent exactly when a channel of that label exists and is open, and is then appended to the channel output |
| Peers.Peer.Close | src/webrtc/peer.cpp:434-449 | closing drops every channel and both tracks and leaves the peer DISCONNECTED, so neither track is open |
| Peers.ClosedPeerSendsNothing | src/webrtc/peer.cpp:434-449 | after `close`, a video, audio or channel send on the peer is refused and hands nothing to the library, and the statistics stay as they were (sends at lines 288, 310, 397, 416) |
| Peers.PeerManager.constructor | src/webrtc/peer.cpp:484-487 | a new manager has no peers and Google's public STUN server as its only ICE server |
| Peers.PeerManager.CreatePeer | src/webrtc/peer.cpp:495-510 | an existing id returns its peer and changes nothing; a new id gets a fresh CONNECTING peer filed under it |
| Peers.PeerManager.FindPeer | src/webrtc/peer.cpp:512-522 | a peer is found exactly when its id is registered, and it is that peer |
| Peers.PeerManager.RemovePeer | src/webrtc/peer.cpp:524-534 | the id leaves the manager; a known peer is closed first, so it is DISCONNECTED with no open track or channel |
| Peers.PeerManager.BroadcastVideo | src/webrtc/peer.cpp:550-559 | every peer that was CONNECTED with an open video track is handed the packet once and counts it; every other peer is unchanged |
| Peers.PeerManager.BroadcastAudio | src/webrtc/peer.cpp:561-570 | every peer that was CONNECTED with an open audio track is handed the packet once and counts it; every other peer is unchanged |
| Peers.PeerManager.ConnectedCount | src/webrtc/peer.cpp:584-595 | the count is the number of registered peers whose state is CONNECTED |
| Rooms.ReleaseAll | src/webrtc/room.cpp:164-169 | erasing, one by one, every server slot a peer's mapping names leaves the owner table minus exactly those slots |
| Rooms.RemoveAll | src/webrtc/room.cpp:244-246 | the erase-remove of a slot from a gamepad list keeps every other entry and drops every copy of that slot |
| Rooms.SeatRemoved | src/webrtc/room.cpp:171-172 | removing a player entry keeps the table well formed (entries under their own peer, distinct slots, host rights) |
| Rooms.PromotedSlotFree | src/webrtc/room.cpp:139-143 | seating a spectator in a slot no player holds keeps the slots distinct and the table well formed |
| Rooms.SeatedCount | src/webrtc/room.cpp:378-389 | with distinct slots, the number of seated players equals the number of used slots |
| Rooms.AtMostFourPlayers | src/webrtc/room.cpp:391-414 | a valid room never seats more than four players, the bound is_full checks |
| Rooms.Room.constructor | src/webrtc/room.cpp:55-74 | a new room holds only its host, as player 1, not a spectator, with keyboard and mouse; no gamepads are claimed; both default permissions are on |
| Rooms.Room.GetPlayer | src/webrtc/room.cpp:345-356 | a player entry is returned exactly when the peer is in the room, and it is that peer's entry |
| Rooms.Room.HostHasAccess | src/webrtc/room.cpp:277-299 | in a valid room the host can always use the keyboard and the mouse |
| Rooms.Room.AddSpectator | src/webrtc/room.cpp:90-121 | succeeds exactly when the peer is not yet in the room and fewer than 16 peers are; then the peer is added as a spectator with no slot and no permissions; on failure nothing changes; the room stays valid |
| Rooms.Room.NextAvailableSlot | src/webrtc/room.cpp:395-415 | returns the lowest of slots 1-4 no player holds, and NONE exactly when all four are held |
| Rooms.Room.PromoteToPlayer | src/webrtc/room.cpp:123-150 | an unknown peer gets NONE; a player keeps and gets its slot; a spectator is seated in the lowest free slot, or gets NONE and stays a spectator when all four are taken; the room stays valid |
| Rooms.Room.RemovePeer | src/webrtc/room.cpp:152-179 | an unknown peer changes nothing and reports false; otherwise the peer's entry, its mapping and every slot it mapped are released and the result says whether it was the host; the room stays valid |
| Rooms.Room.ClaimGamepad | src/webrtc/room.cpp:181-215 | spectators and unknown peers get -1; an already mapped browser gamepad gets its slot back; otherwise the next of the 16 server slots is taken and recorded in the owner table, the mapping and the player's list, or -1 once all 16 are used; a returned slot is what get_gamepad_slot then reports (also lines 253-267) |
| Rooms.Room.ReleaseGamepad | src/webrtc/room.cpp:217-250 | a slot the peer does not own changes nothing; otherwise the slot leaves the owner table, one browser mapping to it leaves the peer's mapping, and every copy leaves the player's list |
| Rooms.Room.SetKeyboardAccess | src/webrtc/room.cpp:269-318 | reports whether the peer is in the room; a guest's keyboard permission becomes the given value and can_use_keyboard then reports it; the host's never changes |
| Rooms.Room.SetMouseAccess | src/webrtc/room.cpp:288-330 | reports whether the peer is in the room; a guest's mouse permission becomes the given value and can_use_mouse then reports it; the host's never changes |
| Rooms.Room.SetDefaultKeyboardAccess | src/webrtc/room.h:192-196 | sets the default keyboard permission for new guests and nothing else (also line 287) |
| Rooms.Room.SetDefaultMouseAccess | src/webrtc/room.h:198-202 | sets the default mouse permission for new guests and nothing else (also line 288) |
| Rooms.RoomManager.constructor | src/webrtc/room.h:364 | the manager starts with no rooms and no peer mappings |
| Rooms.RoomManager.FindRoom | src/webrtc/room.cpp:438-449 | a room is found exactly when its code is registered, and it is that room |
| Rooms.RoomManager.FindRoomByPeer | src/webrtc/room.cpp:450-466 | a room is found exactly when the peer is mapped to a code and that code is still registered |
| Rooms.RoomManager.AddRoom | src/webrtc/room.h:310-317 | registers the room under its code and maps its host to it, as create_room does at room.cpp:432-433 |
| Rooms.RoomManager.RegisterPeer | src/webrtc/room.h:319-326 | maps the peer to the room code and leaves the rooms unchanged |
| Rooms.RoomManager.RemoveRoom | src/webrtc/room.cpp:467-489 | an unknown code changes nothing; otherwise the room and every peer mapping naming it go and the other mappings stay, so no peer finds a room it did not find before |
| Bytes.Digit | src/webrtc/signaling.cpp:90 | a decimal digit is one of the characters '0' to '9' |
| Bytes.Decimal | src/webrtc/signaling.cpp:90 | the decimal spelling of a connection id (and of the connection counts in the Cloud Run proxy's log lines) is never empty, and has two or more digits exactly when the number is at least 10 |
| Bytes.DecimalInjective | src/webrtc/signaling.cpp:90 | different numbers have different decimal spellings |
| Signaling.PeerIdInjective | src/webrtc/signaling.cpp:88-99 | distinct WebSocket connections get distinct "peer_" ids, so the two connection maps stay inverse |
| Signaling.StringField | src/webrtc/signaling.cpp:213-248 | reading a string field yields the default when the key is absent, and fails (a JSON type error) exactly when the key holds something other than a string |
| Signaling.IntField | src/webrtc/signaling.cpp:236-255 | reading an integer field yields the default when the key is absent, and fails exactly when the key holds neither a number nor a boolean; the value always lies in `int`'s range, an integer that fits is kept and a wider one keeps its value modulo 2^32, and a fractional number is truncated toward zero |
| Signaling.IntFieldConversions | src/webrtc/signaling.cpp:254-255 | `"bitrate": 2500.7` is read as 2500, -2.5 as -2, and 4294968296 as 1000 |
| Signaling.BoolField | src/webrtc/signaling.cpp:248-251 | reading a boolean field yields the default when the key is absent, and fails exactly when the key holds something other than a boolean |
| Signaling.JoinAliases | src/webrtc/signaling.cpp:218-228 | "join", "create_room" and "join_room" all ask to join the session, with "Player" as the default name; a non-string name is a parse error |
| Signaling.LeaveAliases | src/webrtc/signaling.cpp:229-231 | "leave" and "leave_room" both ask to leave |
| Signaling.UnknownTypes | src/webrtc/signaling.cpp:213-259 | a message without a type, or with a type none of the handlers knows, is an unknown request carrying that type (empty when absent) |
| Signaling.ParseErrors | src/webrtc/signaling.cpp:211-264 | text that is not a JSON object, or a type that is not a string, decodes to no request |
| Signaling.Clamp | src/webrtc/signaling.cpp:924-927 | std::clamp: the result lies in the range, equals the value when it already does, and is the nearer bound otherwise |
| Signaling.QualityReply | src/webrtc/signaling.cpp:923-943 | the quality_updated reply carries a bitrate in 1000-150000, a frame rate in 30-240, a width in 640-7680 and a height in 480-4320 |
| Signaling.QualityReplyIdempotent | src/webrtc/signaling.cpp:923-927 | clamping the clamped settings again changes nothing |
| Signaling.CodecName | src/webrtc/signaling.cpp:358-370 | the codec name chosen from the encoder selects, on the peer's video track, the encoder's own codec |
| Signaling.DeliverEffect | src/webrtc/signaling.cpp:852-868 | a message delivered to a set of peers is appended to each target's mailbox and leaves every other mailbox unchanged |
| Signaling.DeliverOneMore | src/webrtc/signaling.cpp:879-883 | delivering to one more peer appends the message to that peer's mailbox alone |
| Signaling.DeliverNone | src/webrtc/signaling.cpp:874-877 | delivering to no peer changes no mailbox |
| Signaling.SetUpPeer | src/webrtc/signaling.cpp:372-375 | a joining peer with a connection gets the video track in the given codec, the Opus track and the unopened "input" channel; its state is unchanged |
| Signaling.SignalingServer.constructor | src/webrtc/signaling.h:183-188 | the server starts with no connections, no messages sent, capture stopped and no key frame requested |
| Signaling.SignalingServer.OnWsConnect | src/webrtc/signaling.cpp:88-99 | a new connection is paired both ways with the peer id "peer_" followed by its number; nothing is sent |
| Signaling.SignalingServer.ConnectionCount | src/webrtc/signaling.cpp:886-890 | the count is the number of paired peers |
| Signaling.SignalingServer.SendToPeer | src/webrtc/signaling.cpp:852-868 | succeeds exactly when the peer has a connection, and only then is the message handed to it |
| Signaling.SignalingServer.SendError | src/webrtc/signaling.cpp:892-902 | the peer, if connected, gets an error message with the text and the code |
| Signaling.SignalingServer.SendToAll | src/webrtc/signaling.cpp:164-166 | every connected peer of the set gets the message once; nothing but the mailboxes changes (also lines 654-656) |
| Signaling.SignalingServer.PlayersOf | src/webrtc/signaling.cpp:951-974 | the player list of a room is its players, and empty for an unknown room |
| Signaling.SignalingServer.BroadcastToRoom | src/webrtc/signaling.cpp:870-884 | an unknown room sends nothing; otherwise every connected peer of the room except the excluded one gets the message once |
| Signaling.SignalingServer.OnClose | src/webrtc/signaling.cpp:136-207 | the closed peer's WebRTC peer and connection pairing go; a host leaving tells the rest room_closed with reason host_left, removes the room and stops capture once no room is left; a player leaving tells the rest player_left with its slot and then the new player list; the host leaving erases every peer-to-room entry naming the room, while any other outcome leaves the peer-to-room map as it was, and a non-host's player and peer entries, browser gamepad mappings and the slots they named leave its room; no other room or WebRTC peer changes, and the room keeps its gamepad counter and default permissions |
| Signaling.SignalingServer.LeaveOnClose | src/webrtc/signaling.cpp:146-195 | the room part of a closed connection, with the same three outcomes (no room, host left, player left), the same peer-to-room map afterwards, and the same removal of a non-host from its room's player, peer and gamepad tables; no other room changes, and the room keeps its gamepad counter and default permissions |
| Signaling.SignalingServer.CloseRoom | src/webrtc/signaling.cpp:157-177 | every connected peer left in the room gets room_closed, the room and every peer-to-room entry naming it are removed, and capture stops exactly when no room remains |
| Signaling.SignalingServer.AnnounceLeave | src/webrtc/signaling.cpp:178-194 | the room's other peers get player_left with the slot, then every peer gets room_updated with the new player list |
| Signaling.SignalingServer.DropConnection | src/webrtc/signaling.cpp:197-205 | the peer's pairing, if any, is removed in both directions; nothing else changes |
| Signaling.SignalingServer.HandleJoin | src/webrtc/signaling.cpp:270-412 | the first peer starts capture and opens the session room "STREAM" as its host in slot 1 and gets room_created; a later peer joins as a spectator without keyboard or mouse, gets room_joined, is announced as player_joined to the others and a key frame is requested; a peer the room refuses loses its WebRTC peer and gets join_error; every admitted peer has its tracks and input channel; only the session room and the joining peer's WebRTC peer can change, the room's gamepad tables and defaults are kept, and a reused WebRTC peer keeps its connection state |
| Signaling.SignalingServer.JoinAsHost | src/webrtc/signaling.cpp:276-313 | the first peer starts capture, opens the session room as its host and gets room_created with slot 1 and both permissions; no existing room and no other WebRTC peer changes, and a reused WebRTC peer keeps its connection state |
| Signaling.SignalingServer.JoinAsGuest | src/webrtc/signaling.cpp:314-326 | a later peer is seated as a spectator, registered, welcomed and announced; a refused one loses its WebRTC peer and gets join_error (also lines 396-409); only the session room and the joining peer's WebRTC peer can change, the room's gamepad tables and defaults are kept, and a reused WebRTC peer keeps its connection state |
| Signaling.SignalingServer.WelcomeGuest | src/webrtc/signaling.cpp:372-409 | an admitted spectator gets its media and room_joined, the others get player_joined with slot 0, and one key frame is requested |
| Signaling.SignalingServer.RejectJoin | src/webrtc/signaling.cpp:317-320 | the refused peer loses its WebRTC peer and gets join_error |
| Signaling.SignalingServer.FinishJoin | src/webrtc/signaling.cpp:372-394 | the peer's media is set up and it gets room_created or room_joined, in which only the host has keyboard and mouse and slot 1 |
| Signaling.SignalingServer.AnnounceJoin | src/webrtc/signaling.cpp:396-409 | the session's other peers get player_joined as a spectator in slot 0, and one key frame is requested |
| Signaling.SignalingServer.OpenSession | src/webrtc/signaling.cpp:308-311 | a fresh "STREAM" room with the peer as host in slot 1 is registered, and the peer is mapped to it |
| Signaling.SignalingServer.JoinSession | src/webrtc/signaling.cpp:293-323 | the peer's WebRTC peer is created (or reused); the room admits it exactly when it is new and the room has fewer than 16 peers, and only then is it registered with the session; the room's gamepad tables and defaults are kept, and a reused WebRTC peer keeps its connection state |
| Signaling.SignalingServer.OnWsDisconnect | src/webrtc/signaling.cpp:101-114 | an unknown connection changes nothing; a known one loses its pairing and its WebRTC peer; only that peer's room and WebRTC peer can change |
| Signaling.SignalingServer.OnWsMessage | src/webrtc/signaling.cpp:116-129 | a message on an unknown connection changes nothing; on a known one a message that does not decode gets parse_error; only that peer's room, the session room and the peer's WebRTC peer can change |
| Signaling.SignalingServer.OnMessage | src/webrtc/signaling.cpp:209-265 | a message that does not decode gets "Invalid JSON message" with parse_error, an unknown type gets "Unknown message type: " and the type with unknown_type, and neither changes rooms, peers or capture; every other request goes to its handler; only the peer's room, the session room and the peer's WebRTC peer can change |
| Signaling.SignalingServer.HandleLeaveRoom | src/webrtc/signaling.cpp:623-677 | a peer without a room gets not_in_room; otherwise it gets left_room first and loses its WebRTC peer; a host leaving closes the room with host_left and stops capture once no room is left; a player leaving is announced as player_left to the rest; the host leaving erases the room's peer-to-room entries, otherwise the map is unchanged, and a non-host leaves the room's player, peer and gamepad tables; no other room or WebRTC peer changes, and the room keeps its gamepad counter and default permissions |
| Signaling.SignalingServer.LeaveFoundRoom | src/webrtc/signaling.cpp:631-677 | left_room is sent, the WebRTC peer is removed, then the room is left with the same outcomes, peer-to-room map and room tables; no other room or WebRTC peer changes, and the room keeps its gamepad counter and default permissions |
| Signaling.SignalingServer.LeaveRoom | src/webrtc/signaling.cpp:645-676 | a host leaving closes the room; a player leaving is removed and announced as player_left, with no new player list; a peer not in the room changes nothing; the host leaving erases the room's peer-to-room entries, a player leaving keeps its own entry and leaves the room's player, peer and gamepad tables; the room keeps its gamepad counter and default permissions |
| Signaling.SignalingServer.HandleJoinAsPlayer | src/webrtc/signaling.cpp:679-715 | a peer without a room gets not_in_room; otherwise a peer that is or becomes a player is told its slot and the room's default permissions, everyone gets the new player list and a key frame is requested; with no free slot the peer gets room_full and the players are unchanged; the room's peers, gamepad tables and defaults are kept, and no other room changes |
| Signaling.SignalingServer.Promote | src/webrtc/signaling.cpp:687-710 | the outcome of join_as_player in the room; a seated player keeps its entry, and a promoted spectator changes only its slot and spectator flag; the room's peers, gamepad tables and defaults are kept |
| Signaling.SignalingServer.AnnouncePromotion | src/webrtc/signaling.cpp:693-710 | the peer gets promoted_to_player with its slot and the default permissions, every peer gets room_updated, and one key frame is requested |
| Signaling.SignalingServer.HandleClaimGamepad | src/webrtc/signaling.cpp:717-737 | a peer without a room gets not_in_room; a spectator, an unknown player, or a new claim once all 16 server slots are used gets gamepad_error; a gamepad claimed before gets its slot again; a new one gets the next server slot in gamepad_claimed, and the room records it: the peer owns the slot, maps the browser gamepad to it and lists it, and the counter moves on; in every other case the room's players, owners and counter are unchanged, and only an empty mapping may be added once all 16 slots are used; the room's default permissions are kept and no other room changes |
| Signaling.SignalingServer.HandleReleaseGamepad | src/webrtc/signaling.cpp:739-754 | a peer without a room gets not_in_room; otherwise the slot is released if the peer owns it and left alone if not, and either way the peer gets gamepad_released for it; releasing an owned slot removes it from the owner table, unmaps one browser gamepad mapped to it and drops it from the player's list; the room's peers and counter stay as they were; the room's default permissions are kept and no other room changes |
| Signaling.SignalingServer.HandleSdp | src/webrtc/signaling.cpp:756-772 | a peer without a WebRTC peer gets peer_not_found; otherwise the remote description is applied and an offer, and only an offer, is answered with a local answer; no other WebRTC peer changes, and the peer keeps its connection state, tracks, channels, candidates and counters |
| Signaling.SignalingServer.HandleIce | src/webrtc/signaling.cpp:774-785 | a peer without a WebRTC peer gets peer_not_found; otherwise the candidate with its mid is added and nothing is sent; no other WebRTC peer changes, and the peer keeps its connection state, tracks, channels, descriptions and counters |
| Signaling.SignalingServer.HandleSetGuestKeyboard | src/webrtc/signaling.cpp:787-819 | a peer without a room gets not_in_room, a guest gets not_host and nothing changes; for the host the default keyboard access becomes the value, and a target guest gets the permission, permission_changed and a new player list for everyone; the mouse default, the room's peers and gamepad tables are kept, and no other room changes |
| Signaling.SignalingServer.SetGuestKeyboard | src/webrtc/signaling.cpp:803-818 | the default is set; a known target is told permission_changed and everyone the new player list; an unknown target hears nothing; the host's own access never changes; the mouse default, the room's peers and gamepad tables are kept |
| Signaling.SignalingServer.HandleSetGuestMouse | src/webrtc/signaling.cpp:821-850 | as for the keyboard, with the mouse permission and the mouse default; the keyboard default, the room's peers and gamepad tables are kept, and no other room changes |
| Signaling.SignalingServer.SetGuestMouse | src/webrtc/signaling.cpp:836-849 | as for the keyboard, with the mouse permission and the mouse default; the keyboard default, the room's peers and gamepad tables are kept |
| Signaling.SignalingServer.HandleSetQuality | src/webrtc/signaling.cpp:904-949 | a peer without a room gets not_in_room, a guest gets not_host, and neither changes the bitrate; for the host the clamped bitrate becomes the maximum bitrate and the host gets the clamped settings |
| Signaling.SignalingServer.OnPeerStateChange | src/webrtc/signaling.cpp:345-356 | a peer whose connection comes up gets stream_ready and one key frame is requested; any other state does nothing |
| Signaling.SignalingServer.OnLocalDescription | src/webrtc/signaling.cpp:329-335 | the peer's local description goes to its client as an sdp message |
| Signaling.SignalingServer.OnLocalCandidate | src/webrtc/signaling.cpp:337-343 | the peer's local ICE candidate goes to its client as an ice message |
| WsServer.ReadsConsumed | src/webrtc/ws_server.cpp:391-416 | the read loop consumes every leading text frame and stops right after the first read that fails or reports a close |
| WsServer.ReadEventsShape | src/webrtc/ws_server.cpp:395-416 | the events of one connection's reads all carry its id, are text deliveries except possibly the last, which is its disconnect, and appear only when the matching callback is set |
| WsServer.AllTextDelivered | src/webrtc/ws_server.cpp:410-415 | when every read returns text, each message is delivered in order to the message callback and the loop keeps reading |
| WsServer.DisconnectOnce | src/webrtc/ws_server.cpp:398-406 | the first failed or closing read ends the loop with exactly one disconnect event; reads after it are never made |
| WsServer.PostTo | src/webrtc/ws_server.cpp:188-206 | posting to a session appends the message to that session's outbox alone; the set of sessions does not change (also lines 366-368) |
| WsServer.EndsSession | src/webrtc/ws_server.cpp:398-406 | a connection ends exactly when one of its reads fails or reports a close |
| WsServer.WebSocketServer.constructor | src/webrtc/ws_server.cpp:85-90 | a new server is not running, plain, on port 0, with no sessions, no callbacks and 1 as the next connection id (also lines 333-334) |
| WsServer.WebSocketServer.Start | src/webrtc/ws_server.cpp:96-158 | a running server refuses; otherwise the TLS flag and port are recorded and the start succeeds exactly when (without TLS, or with the certificate and key loaded) the socket opens, binds and listens, and then the server runs |
| WsServer.WebSocketServer.Stop | src/webrtc/ws_server.cpp:160-182 | afterwards the server is not running; stopping a running server drops every session; stopping a stopped one changes nothing |
| WsServer.WebSocketServer.IsRunning | src/webrtc/ws_server.cpp:184-186 | reports whether the server is running |
| WsServer.WebSocketServer.Send | src/webrtc/ws_server.cpp:188-206 | succeeds exactly when the connection is in the table of the server's mode, and then only that session's outbox gains the message |
| WsServer.WebSocketServer.Broadcast | src/webrtc/ws_server.cpp:208-219 | every session of the server's mode gains the message; the other table is unchanged |
| WsServer.WebSocketServer.CloseConnection | src/webrtc/ws_server.cpp:221-237 | the connection leaves the table of the server's mode; an unknown id changes nothing |
| WsServer.WebSocketServer.SetMessageCallback | src/webrtc/ws_server.cpp:239-241 | installs the message callback and changes nothing else |
| WsServer.WebSocketServer.SetConnectCallback | src/webrtc/ws_server.cpp:243-245 | installs the connect callback and changes nothing else |
| WsServer.WebSocketServer.SetDisconnectCallback | src/webrtc/ws_server.cpp:247-249 | installs the disconnect callback and changes nothing else |
| WsServer.WebSocketServer.ConnectionCount | src/webrtc/ws_server.cpp:251-254 | the count is the size of the table of the server's mode |
| WsServer.WebSocketServer.OnDisconnect | src/webrtc/ws_server.cpp:269-278 | the connection leaves both tables, and the disconnect callback hears of it when one is set |
| WsServer.WebSocketServer.Register | src/webrtc/ws_server.cpp:280-296 | a new session gets the next connection id, which no session holds, in the table for its kind; the counter moves on by one |
| WsServer.WebSocketServer.Accept | src/webrtc/ws_server.cpp:377-389 | a failed handshake changes nothing; otherwise the session is registered under a new id and the connect callback hears of it when one is set (also lines 472-484) |
| WsServer.WebSocketServer.DeliverMessages | src/webrtc/ws_server.cpp:410-415 | the text frames read so far have been delivered in order, and the loop stops only at a read that is not text |
| WsServer.WebSocketServer.ReadLoop | src/webrtc/ws_server.cpp:391-416 | the loop consumes the reads up to and including the first that ends the session, delivers every text frame to the message callback, and on that end drops the session and reports the disconnect (also lines 486-511) |
| WebrtcModule.ClampPlayers | src/webrtc/webrtc.cpp:51 | the configured player limit is clamped into 1-4: kept when already there, else the nearer bound |
| WebrtcModule.Find | src/webrtc/webrtc.cpp:93 | std::string::find of a character: absent exactly when the character does not occur, else its first position |
| WebrtcModule.SplitHostPort | src/webrtc/webrtc.cpp:92-97 | without a colon the whole text is the host and the port is the default; with one, host, colon and port rebuild the text and the host holds no colon |
| WebrtcModule.SplitJoined | src/webrtc/webrtc.cpp:92-97 | splitting "host:port" for a colon-free host gives back the host and the port |
| WebrtcModule.TurnServer | src/webrtc/webrtc.cpp:67-112 | without a username the TURN URL is passed on as it is; with one, a relay server with those credentials is built, using TLS exactly when the URL starts with "turns:" |
| WebrtcModule.TurnUrlParsed | src/webrtc/webrtc.cpp:85-105 | "turn:host:port" with credentials becomes a UDP relay at that host and port |
| WebrtcModule.TurnsDefaultPort | src/webrtc/webrtc.cpp:79-105 | "turns:host" without a port becomes a TLS relay at that host on the default port 5349 |
| WebrtcModule.RtcConfigFor | src/webrtc/webrtc.cpp:53-121 | the ICE servers are the configured STUN server, or Google's public one when none is set, followed by the TURN server only when one is configured; a port range is set exactly when both bounds are positive |
| WebrtcModule.WebrtcModule.constructor | src/webrtc/webrtc.cpp:24-28 | the module starts uninitialised, disabled, with a limit of 4 players and no configuration |
| WebrtcModule.WebrtcModule.Init | src/webrtc/webrtc.cpp:30-139 | always returns 0 and leaves the module initialised; a second call changes nothing; a disabled configuration records only that; an enabled one records the clamped player limit and the ICE configuration and initialises the sub-modules |
| WebrtcModule.WebrtcModule.Start | src/webrtc/webrtc.cpp:141-152 | streaming starts exactly when the module is initialised and enabled; otherwise nothing changes |
| WebrtcModule.WebrtcModule.Stop | src/webrtc/webrtc.cpp:154-170 | for an initialised and enabled module streaming stops and every peer is closed: disconnected, with no channels and no tracks, while its connection, stats, outboxes, descriptions and candidates are kept; otherwise neither the module's flags nor any peer changes |
| WebrtcModule.WebrtcModule.IsEnabled | src/webrtc/webrtc.cpp:172-175 | reports whether the configuration enabled WebRTC |
| WebrtcModule.WebrtcModule.MaxPlayers | src/webrtc/webrtc.cpp:177-180 | reports the configured player limit |

Some specification functions carry no contract of their own: each says what the code computes, and the lemmas and methods named with it in the table state its properties.

- `Fmp4.ParseBoxes` (modal_deploy/discord_app.py:365-396): the boxes the loop cuts from a buffer and what it leaves; see `Fmp4.ParseBoxesKeepsBytes`, `Fmp4.ParseBoxesStep`, `Fmp4.ParseBoxesNone`, `Fmp4.ChunkIndependence` and `Fmp4.ReaderSeesWholeStream`.
- `Proxy.Sanitized` (modal_deploy/app.py:205-207) and `Proxy.Framed` (gcp_deploy/proxy.py:203-211): the response headers after the pop loop, and after the framing rewrite; see `Proxy.SanitizedMeaning`, `Proxy.FramedMeaning` and `Proxy.FramedIdempotent`.
- `Rtp.Stamp` (src/webrtc/video_sender.cpp:185-206): RTP headers put on a run of payloads; see `Rtp.StampMeaning`.
- `VideoRtp.SplitNals` (src/webrtc/video_sender.cpp:155-187) and `VideoRtp.NalUnits` (src/webrtc/video_sender.cpp:180-266): the NAL units of an Annex B frame, and the payloads of one unit; see `VideoRtp.SplitNalsShape`, `VideoRtp.SplitNalsJoined` and `VideoRtp.NalUnitsMarksEnd`.
- `VideoRtp.Fragments` (src/webrtc/video_sender.cpp:222-265) and `VideoRtp.Av1Fragments` (src/webrtc/video_sender.cpp:433-478): the FU and AV1 fragments; see `VideoRtp.FragmentsShape`, `VideoRtp.FragmentsReassemble`, `VideoRtp.Av1FragmentsShape` and `VideoRtp.Av1FragmentsReassemble`.
- `VideoRtp.ScanAsWritten` (src/webrtc/video_sender.cpp:171-176) and `VideoRtp.HevcPayloadHeaderAsWritten` (src/webrtc/video_sender.cpp:334-371): the code's own start-code scan and HEVC payload header; see `VideoRtp.ScanAsWrittenAgrees`, `VideoRtp.ShortFrameScanReadsPastEnd` and `VideoRtp.HevcPayloadHeaderAsWrittenLayerOne`.
- `AudioRtp.OpusPackets` (src/webrtc/audio_sender.cpp:140-172): the packets of a run of Opus frames; see `AudioRtp.OpusPacketsLength`, `AudioRtp.OpusPacketAt` and `AudioRtp.AudioSender.SenderLoop`.
- `Input.Routed` (src/webrtc/input.cpp:125-234) and `Input.ScrollInputs` (src/webrtc/input.cpp:226-233): what an input event becomes once the room's permissions are applied, and the two scroll directions; see `Input.RoomlessPeerIgnored`, `Input.SpectatorGamepadIgnored`, `Input.HostInputForwarded` and `Input.InputHandler.ProcessMouseScroll`.
- `Signaling.Decode` (src/webrtc/signaling.cpp:209-265) and `Signaling.PeerIdFor` (src/webrtc/signaling.cpp:90): the request a message asks for, and a connection's peer id; see `Signaling.JoinAliases`, `Signaling.LeaveAliases`, `Signaling.UnknownTypes`, `Signaling.ParseErrors` and `Signaling.PeerIdInjective`.
- `WsServer.ReadEvents` (src/webrtc/ws_server.cpp:395-416): the callbacks a run of reads makes; see `WsServer.ReadEventsShape`, `WsServer.AllTextDelivered` and `WsServer.DisconnectOnce`.
- `Keyboard.VkToXdotool` (src/platform/linux/input/inputtino_keyboard.cpp:34-143), `Keyboard.XdotoolLine` (src/platform/linux/input/inputtino_keyboard.cpp:24-31), `Keyboard.QuotedAsWritten` and `Keyboard.ShellQuote` (src/platform/linux/input/inputtino_keyboard.cpp:300-307), and `Keyboard.UnicodeKeys` (src/platform/linux/input/inputtino_keyboard.cpp:317-338): the key-name table, the command line, the two quotings and the key taps of Unicode entry; see `Keyboard.LetterKeyNames`, `Keyboard.TwoArgumentLine`, `Keyboard.QuotedAsWrittenBreaks`, `Keyboard.ShellQuoteRoundTrip` and `Keyboard.UnicodeKeysBalanced`.
- `Mouse.WheelClicks` (src/platform/linux/input/inputtino_mouse.cpp:113-145): the button presses of an XTEST scroll; see `Mouse.WheelClicksBounds`.

## Left out

- The fMP4 streamer's `start` does not clear `init_segment` (modal_deploy/discord_app.py:277-334, 437-446), so after a stop and a restart a new client first receives the earlier producer's `ftyp`/`moov` followed by the new ones; `Fmp4.FMP4Streamer.Start` keeps it as the code does.
- Fmp4.FMP4Streamer.DrainBoxes, Fmp4.FMP4Streamer.ReadChunk and Fmp4.FMP4Streamer.ReadAndBroadcast cut boxes with the corrected `Fmp4.CutBox` (first row of the findings): on a 32-bit size of 2-7 or a largesize below 16 they stop, where the code cuts a short box or loops forever (`Fmp4.CutAsWritten`).
- VideoRtp.VideoSender.SendNal, VideoRtp.VideoSender.PacketizeAnnexB, VideoRtp.VideoSender.SendFrame, VideoRtp.VideoSender.ProcessPacket and VideoRtp.AnnexBMarker use the corrected HEVC payload header and the corrected end-of-NAL scan (second and third rows of the findings); they differ from the code for HEVC units with a non-zero layer id and for frames of 1 or 2 bytes.
- GcpProxy.ActivityTracker.GetStatus returns `last_activity` as the recorded time; its rendering as an ISO 8601 local date-time is not modelled.
- Proxy.TargetUrl takes the request's path as the framework hands it over, already percent-decoded, and its query as the framework's re-encoding of the parsed parameters (`flag` arrives as `flag=`, `a=b%20c` as `a=b+c`); a `%3F` in the path decodes to a `?` that splits the upstream URL, and that case is left out of `Proxy.TargetUrlRoundTrip`.
- Proxy.LowerChar lower-cases ASCII letters only, where Python's `str.lower` also lower-cases other letters; no such letter lower-cases into one of the nine hop-by-hop names, so the filtering decisions are the same.
- Keyboard.Unicode hands xdotool the text quoted by the corrected `Keyboard.ShellQuote` (fourth row of the findings); the code's own quoting, which breaks on a single quote, is `Keyboard.QuotedAsWritten`.
- Signaling.IntField takes an integer literal of any size as a `JInt`; the JSON parser stores one wider than 64 bits as a double, and converting a double outside `int`'s range is undefined behaviour in C++; the model truncates such a double toward zero and, as for every integer, keeps the result modulo 2^32.
- `RoomManager::add_room`, `RoomManager::register_peer` and the `Room` default-permission setters are declared in src/webrtc/room.h but have no definition in the sources: `Rooms.RoomManager.AddRoom` maps the room's code and its host peer (as room creation needs), `Rooms.RoomManager.RegisterPeer` maps a peer to a room code, and the setters assign the default. `has_active_host`, `promote_to_host` and `update_peer` are declared only and are not part of this model.
- `Room::create` and the room-code generator draw random characters: the single session always uses the code "STREAM" (`Signaling.SINGLE_SESSION_CODE`), and random codes are not modelled.
- WebrtcModule.RtcConfigFor keeps the configured port bounds as unbounded integers; libdatachannel stores them in 16-bit fields, so a bound outside 0-65535 would be truncated there, and that truncation is not modelled.
- Random SSRCs enter as parameters (`VideoRtp.VideoSender.Init`, `AudioRtp.AudioSender.Init`).
- The UTF-8 decoding of typed text is given as the `codePoints` parameter of `Keyboard.Unicode`; libevdev's key-name lookup is the table `Keyboard.KeyCodeFor`.
- `Keyboard.Update`: the `flags` argument is accepted and, as in the code, unused.
- WsServer.WebSocketServer.Register: connection ids are unbounded; the 64-bit counter's wrap-around is not modelled.
- `use_xdotool` is read by the keyboard back-end but not declared in src/platform/linux/input/inputtino_common.h; it is a constant of `InputDevices.RawInput` set by its constructor.
- `build_keyboard_packet` and the `build_mouse_*_packet` helpers (src/webrtc/input.cpp:325-471) are never called; `send_to_input_system` is a placeholder. Neither is modelled.
- Floating point: the average frame size of the video sender, absolute mouse moves in screen coordinates and the degree-to-radian conversion of motion sensors are not modelled.
- A WebRTC peer whose creation fails (src/webrtc/signaling.cpp:294-302) and a capture start that fails are not modelled: creation and capture always succeed.
- Library events are inputs: a track or data channel becomes open only through `Peers.Peer.OnVideoOpen`, `Peers.Peer.OnAudioOpen` and `Peers.Peer.OnChannelOpen`; the dispatch of data-channel messages to the input handler is not modelled.
- The `handle_create_room` and `handle_join_room` bodies behind an early return (src/webrtc/signaling.cpp:420-515 and 526-620) cannot run and are not modelled.
- The signaling server's own init, start and stop (port choice, thread start) are not modelled; the WebSocket server they drive is (`WsServer`).
- I/O and concurrency: Boost.Beast sockets, TLS and threads; libdatachannel; the send queues and sender threads of the RTP senders (their queue is a sequence drained in order); X11, XTEST, uinput and the xdotool process (each becomes a recorded event or command); asyncio, locks and timeouts of the Python proxies; Discord OAuth; HTML page serving; the xdotool loop of the input WebSocket of the Discord app. The wall clock (`time.time()`) is an integer parameter.

## Findings

| source | as written | input that shows it | evidently intended | confidence | as-written member | corrected member |
|---|---|---|---|---|---|---|
| modal_deploy/discord_app.py:365-385 | the box loop trusts the size field: a 64-bit largesize of 0 cuts an empty box, and a 32-bit size from 2 to 7 cuts a box shorter than its own header | the buffer `00 00 00 01 'mdat'` followed by eight zero bytes (the loop never ends); a box whose size field is 2 | a size smaller than the box header is malformed and stops the stream instead of being cut | not executed | Fmp4.LargeSizeZeroMakesNoProgress | Fmp4.ParseBoxesWellFormed |
| src/webrtc/video_sender.cpp:171 | the start-code scan bound `size - 3` is computed on an unsigned size (also line 294) | a 1- or 2-byte Annex B frame: the bound wraps around and the scan reads past the end of the frame | a frame shorter than a start code holds one NAL unit ending at the frame's end | not executed | VideoRtp.ShortFrameScanReadsPastEnd | VideoRtp.ShortFrameIsOnePacket |
| src/webrtc/video_sender.cpp:336 | the layer id is taken as `nal_header & 0x1F8` into 8 bits, unshifted and truncated, and then placed into the FU payload header as if it were the 6-bit field | NAL header `26 09` (layer id 1) gives payload header `62 41`, whose layer id reads as 8 | the payload header carries type 49 with the NAL unit's own layer id and TID (section 4.4.3 of RFC 7798) | not executed | VideoRtp.HevcPayloadHeaderAsWrittenLayerOne | VideoRtp.HevcPayloadHeaderFields |
| src/platform/linux/input/inputtino_keyboard.cpp:300-307 | typed text is put in single quotes with a backslash before each quote and backslash, but a backslash does not escape inside single quotes | the text `'` gives an unterminated quote and nothing is typed; the text `\` is typed as two backslashes | the shell hands xdotool exactly the text: each quote written as `'\''` (section 2.2 of the POSIX Shell Command Language) | not executed | Keyboard.QuotedAsWrittenBreaks | Keyboard.ShellQuoteRoundTrip |
