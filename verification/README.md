# OpenWinBlue verification model

OpenWinBlue is a Bluetooth A2DP source for Windows: a kernel driver that negotiates a codec
with a headset over AVDTP and frames media packets, a user-mode service that captures,
encodes and forwards audio, and a GUI that talks to the service over a named pipe. This
project models the parts of it that carry state and wire formats, and proves what they keep.

`dafny verify dfyconfig.toml` checks everything. Code that updates state in place is a class or
a method with loops, proved against a specification function; lemmas about those functions
state the properties. The Bluetooth stack, codec libraries, audio capture and pipe peer appear
as parameters that may answer in any way their interface allows. Lemmas named `...Octets`,
`...Table` or `...Exactly` state layouts, look-ups and limits in plain numbers, so that they do
not rest on the constants and tables the model shares between its two sides.

| file | component |
|---|---|
| `ByteTypes.dfy`, `TextFields.dfy` | integer widths, byte orders, fixed-size strings |
| `AvdtpPackets.dfy` | AVDTP packet parsers and builders |
| `MediaFraming.dfy` | frame request, its validation, media packet and RTP header |
| `A2dpDriver.dfy` | the driver: one atomic step per callback, and the device extension class |
| `DriverSafety.dfy` | what every run keeps against an arbitrary peer |
| `ConformingSession.dfy` | what every run keeps against a conforming peer |
| `StalledSession.dfy` | which sessions can still reach Streaming |
| `CodecSwitch.dfy` | codec switch from the service's request to streaming again |
| `SwitchAgreement.dfy` | when the codec that streams is the one switched to |
| `Latm.dfy` | LATM packer, decoder and closed byte form |
| `AptxCodec.dfy`, `StreamPipeline.dfy` | aptX block loop; accumulate, drain, swap codecs |
| `IpcLifecycle.dfy` | start / serve_one / stop handshake between threads |
| `IpcProtocol.dfy`, `IpcSession.dfy` | message layouts on both sides; the session loop |
| `BtAddress.dfy`, `PnputilParser.dfy` | address text; pnputil listings |
| `EndToEnd.dfy` | properties through GUI, service and driver together |

## Two peers

*Arbitrary peer* (`DriverSafety.dfy`): any packet of any content at any time. The framework is
assumed to run a work item only when queued, and a read to need an open signalling channel.

*Conforming peer* (`ConformingSession.dfy`): a delivered packet answers an outstanding command
of this session, by accepting or rejecting it; answers to earlier commands are then lost, and
any answer may be lost altogether. Transaction labels need not match and payloads are
arbitrary, which only makes the results stronger. Sends, opens and reads may fail; disconnects,
codec switches and media frames may come at any time.

## Where the code falls short of its own description

- `service/src/ipc_server.h:25-28` says stop() returns once serve_one() has left the pipe.
  That holds for the caller that cleared `running`, and for one that found nobody starting or
  tearing the server down; any other returns at once (`IpcLifecycle.ReturnsStoppedExactly`,
  with a run in `IpcLifecycle.LateCallerReturnsEarly`).
- `driver/src/owb_a2dp.h:66-68` says the timer re-opens the channel when AVDTP is Idle. It does
  so exactly when the channel is closed (`DriverSafety.ReconnectDueExactly`). Idle with an open
  channel, after a failed media channel or a failed restart, is a dead end until the peer
  disconnects, and so is any non-streaming state in which the last command is no longer
  outstanding (`StalledSession.StreamsAgainExactly`, `StalledSession.IdleOpenIsStalled`, with a run
  in `StalledSession.IdleOpenReached`).
- `service/src/ipc_server.cpp:335-340` switches the pipeline and then asks the driver for the same
  codec. The pipeline keeps it; the driver takes it as a preference, which counts only when the
  next GET_CAPABILITIES answer arrives. Whenever the driver streams after a switch, frames fit
  the negotiated configuration exactly when (`EndToEnd.SwitchedFrameMatches`):
  - the switch came too late for the round (after the capabilities were answered and before
    START was, or SUSPEND could not be sent), no disconnect followed, and the codec is the one
    pending already; the service is told a switch before START succeeded even so;
  - or else, the codec is SBC or among the capabilities answered last. LC3 and aptX Adaptive
    never are.

  `EndToEnd.LdacOverSbc` reaches each of the failing cases.
- The driver asks the first free sink only, so a codec that another sink offers is not used
  (`CodecSwitch.FirstSinkDecides`, with an input in `CodecSwitch.SecondSinkIgnored`). A switch
  never sends CLOSE: a peer whose only sink then counts as in use stalls the session
  (`StalledSession.SinkDecides`, with a run in `SwitchAgreement.SinkInUseStalls`).
- A parameter request names a codec, but changes whichever one runs
  (`EndToEnd.ParamReachesLiveCodec`).
- aptX is fed at most 2048 samples per pass (`service/src/stream_pipeline.cpp:33`), while a read
  may return 4096 of stereo or 8192 from mono: at a steady pace above 2048 the backlog grows
  until audio is dropped (`StreamPipeline.BlobPaceExactly`).
- The driver reports its internal AVDTP state (`driver/src/ioctl.c:133`), in which streaming is
  6; the service compares it with `OWB_STATE_STREAMING`, which is 3. Without a pipeline the
  status says "capturing" exactly in Configuring (`IpcSession.FallbackCapturing`).
- Ping and GetStatus ignore their length field, so a payload behind them is taken for the next
  header (`IpcSession.InSyncExactly`).
- A DISCOVER response whose first free sink carries the forbidden SEID 0 hides later ones
  (`AvdtpPackets.SinkFoundExactly`, with an input in `AvdtpPackets.ForbiddenSeidHides`).

## Model

| member | source | states |
|---|---|---|
| AvdtpPackets.FindCodecConfig | driver/src/avdtp_packets.c:72-85 | the loop finds the entry of exactly the five configurable codecs |
| AvdtpPackets.EndpointsRoundTrip | driver/src/avdtp_packets.c:102-116 | every endpoint list survives serialization; an odd last octet is ignored |
| AvdtpPackets.FirstFreeSinkIsFirst | driver/src/avdtp_packets.h:17-19 | the answer is the SEID of the first endpoint that is free, a sink and audio; none when there is none |
| AvdtpPackets.SinkFoundExactly | driver/src/avdtp_packets.c:109-116 | an endpoint is found exactly when the first free audio sink has a SEID other than 0 |
| AvdtpPackets.ForbiddenSeidHides | driver/src/avdtp_packets.c:109-116 | a response in which SEID 0 hides the usable endpoint behind it |
| AvdtpPackets.FindFreeAudioSinkSeid | driver/src/avdtp_packets.c:109-116 | the octet loop answers the list question |
| AvdtpPackets.FreeSinkOctets | driver/src/avdtp_packets.c:102-116 | the search bit by bit: SEID, in-use, media type and sink positions |
| AvdtpPackets.ParseSerialize | driver/src/avdtp_packets.c:128-138 | reading a serialized capability list and any truncated rest gives back list and rest |
| AvdtpPackets.SerializeParse | driver/src/avdtp_packets.c:128-138 | every byte string is such a list followed by a truncated rest |
| AvdtpPackets.CapabilitiesContainConfig | driver/src/avdtp_packets.c:118-138 | the walk finds a match exactly when some complete capability matches |
| AvdtpPackets.WalkerAgreesWithList | driver/src/avdtp_packets.c:128-145 | on a serialized list the walker answers whether some element matches; octets from a truncated capability on never count |
| AvdtpPackets.AdvertisedOctets | driver/src/avdtp_packets.c:20-85 | for each codec id the octets a capability must hold to advertise it |
| AvdtpPackets.SelectCodec | driver/src/avdtp_packets.c:140-152 | the preferred codec if advertised and configurable, SBC otherwise |
| AvdtpPackets.SelectedExactly | driver/src/avdtp_packets.c:147-152 | on any list of capabilities: the preferred codec if one of them is its, and SBC in every other case |
| AvdtpPackets.SelectionIgnoresOrder | driver/src/avdtp_packets.c:147-152 | selection is the same for every permutation of the capabilities and every truncated rest |
| AvdtpPackets.PayloadLayout | driver/src/avdtp_packets.c:160-172 | the configuration list serializes to the documented octets, within 19 |
| AvdtpPackets.PayloadOctets | driver/src/avdtp_packets.c:154-174 | the SET_CONFIGURATION payload of each codec, octet by octet |
| AvdtpPackets.BuildSetConfiguration | driver/src/avdtp_packets.c:154-174 | the buffer holds the payload and is untouched behind it; on an unknown codec or a short buffer nothing is written and 0 returned |
| AvdtpPackets.BuilderAgreesWithWalker | driver/src/avdtp_packets.c:72-174 | the built list advertises its own codec and no other, decodes to it, names both SEIDs and leaves no rest |
| MediaFraming.MediaFramingPolicy | driver/src/l2cap_stream.c:231-249 | RTP, payload header and timestamp increment per codec |
| MediaFraming.PacketOctets | driver/src/l2cap_stream.c:231-300 | the packet of each codec, octet by octet: bare, with RTP header, or with header and frame count; and its samples per frame |
| MediaFraming.WriteMediaPacket | driver/src/l2cap_stream.c:289-300 | the buffer filled in place is header, optional count octet and frame |
| MediaFraming.MediaPacketRoundTrip | driver/src/l2cap_stream.c:274-300 | a receiver reading per RFC 3550 recovers version 2, payload type 96, sequence number, timestamp, SSRC 1 and the frame |
| MediaFraming.BuildSendFrameRequest | service/src/a2dp_stream.cpp:58-69 | request buffer layout; closed device and empty frame refused |
| MediaFraming.RequestOctets | service/src/a2dp_stream.cpp:58-69 | the request octet by octet |
| MediaFraming.ValidatedExactly | driver/src/ioctl.c:41-62 | for every buffer, which octets are handed on and when the request is refused |
| MediaFraming.FrameTransparency | driver/src/ioctl.c:41-62 | a non-empty frame passes validation exactly up to 65522 octets, then loses nothing in the 16-bit cast, fits a packet for every codec and is recovered |
| A2dpDriver.DeviceExtension.EvtDeviceAdd | driver/src/owb_a2dp.c:136-292 | the initial state, after one best-effort channel open |
| DriverSafety.FreshDevice | driver/src/avdtp.c:10-17 | the values a new device starts with, and its first packet, 10 01 |
| A2dpDriver.DeviceExtension.AvdtpSendCommand | driver/src/avdtp.c:20-50 | label consumed once the packet exists; packet on the wire only on success |
| A2dpDriver.DeviceExtension.L2capSendSignaling | driver/src/l2cap_stream.c:192-224 | needs interface and open handle; success puts exactly this packet on the wire |
| A2dpDriver.DeviceExtension.AvdtpConnect | driver/src/avdtp.c:52-67 | DISCOVER from Idle or Connecting only |
| A2dpDriver.DeviceExtension.HandleDiscoverResponse | driver/src/avdtp.c:69-86 | picks the endpoint and asks for its capabilities |
| A2dpDriver.DeviceExtension.HandleGetCapabilitiesResponse | driver/src/avdtp.c:90-116 | selects, builds and sends; pending codec and state only on success |
| A2dpDriver.DeviceExtension.HandleSetConfigurationResponse | driver/src/avdtp.c:118-126 | pending codec becomes active even when OPEN fails |
| A2dpDriver.DeviceExtension.HandleOpenResponse | driver/src/avdtp.c:128-140 | media channel first, START only with it, Idle otherwise |
| A2dpDriver.DeviceExtension.AvdtpSetPreferredCodec | driver/src/avdtp.c:148-169 | SUSPEND and DISCOVER when streaming, only the preference otherwise |
| A2dpDriver.DeviceExtension.AvdtpHandleSignalingPacket | driver/src/avdtp.c:171-214 | dispatch of accepted responses; everything else ignored |
| A2dpDriver.DeviceExtension.L2capOpenSignalingChannel | driver/src/l2cap_stream.c:105-147 | handle, Connecting and DISCOVER on success, nothing on failure; succeeds only when DISCOVER went out too |
| A2dpDriver.DeviceExtension.L2capOpenMediaChannel | driver/src/l2cap_stream.c:150-189 | media handle on success only |
| A2dpDriver.DeviceExtension.OwbReconnectTimer | driver/src/owb_a2dp.c:95-101 | queues the work item when due |
| A2dpDriver.DeviceExtension.OwbReconnectWorkCallback | driver/src/owb_a2dp.c:104-112 | rechecks before opening |
| A2dpDriver.DeviceExtension.IndicationRecvPacket | driver/src/l2cap_stream.c:79-85 | one pending length, the latest |
| A2dpDriver.DeviceExtension.IndicationRemoteDisconnect | driver/src/l2cap_stream.c:87-96 | both handles, RTP counters and state reset |
| A2dpDriver.DeviceExtension.OwbAvdtpWorkCallback | driver/src/owb_a2dp.c:36-78 | reads once per announced packet |
| A2dpDriver.DeviceExtension.L2capSendMediaFrame | driver/src/l2cap_stream.c:252-330 | only while streaming; counters advance per stamped packet whether or not the transfer succeeds |
| A2dpDriver.DeviceExtension.IoctlSendAudioFrame | driver/src/ioctl.c:35-74 | validation, then the media path |
| A2dpDriver.DeviceExtension.IoctlSetCodecConfig | driver/src/ioctl.c:97-118 | keys starting with "sw" switch, others do nothing |
| DriverSafety.StepKeepsSafe | driver/src/l2cap_stream.c:87-147 | every step of the driver keeps the invariant behind the next four results |
| DriverSafety.EveryRunSafe | driver/src/owb_a2dp.c:85-112 | over every run with any peer: no signalling handle means Idle, no media handle, zero RTP counters; active and pending codec are configurable |
| DriverSafety.HandleNeverOverwritten | driver/src/owb_a2dp.c:103-112 | a handle only changes from or to zero, and a new session starts clean |
| DriverSafety.ReconnectDueExactly | driver/src/owb_a2dp.c:83-112 | over every run a reconnect is due exactly when a known device has no signalling channel; then timer and work item re-open it and send DISCOVER |
| DriverSafety.EveryRunNumbersRtp | driver/src/l2cap_stream.c:289-300 | since the last disconnect, a packet preceded by k stamped ones carries k mod 2^16 and the sum of their increments mod 2^32; aptX packets are bare frames and count for nothing |
| DriverSafety.NegotiatedConfiguration | driver/src/avdtp.c:90-116 | building SET_CONFIGURATION never fails, fits 19 octets, configures exactly the pending codec, which is the preferred one if advertised |
| DriverSafety.CommandOnTheWire | driver/src/avdtp.c:35-43 | each command is a single-packet AVDTP command with its signal and payload and a label other than the previous |
| DriverSafety.PacketEffect | driver/src/avdtp.c:69-214 | whatever arrives: only a GET_CAPABILITIES answer changes the pending codec, only a SET_CONFIGURATION answer the active one, and at most one command is sent |
| DriverSafety.OthersIgnored | driver/src/avdtp.c:171-214 | in octets: rejects, commands, short packets and other signals change nothing |
| DriverSafety.AnswerOctets | driver/src/avdtp.c:69-214 | in octets: what each accepted answer makes the driver send, and the state, codec and endpoint it leaves |
| DriverSafety.SwitchOctets | driver/src/avdtp.c:148-169 | in octets: SUSPEND and DISCOVER of a switch |
| DriverSafety.LabelsCount | driver/src/avdtp.c:31-43 | labels count the commands that were given a buffer, sent or not, modulo 16 |
| DriverSafety.UnsentCommands | driver/src/avdtp.c:20-50 | when a command leaves no trace, and when it uses up a label only |
| DriverSafety.WorkItems | driver/src/owb_a2dp.c:36-112 | when work items are queued and run, and how much is read |
| DriverSafety.OneReadPerAnnouncement | driver/src/owb_a2dp.c:36-53 | each announcement is read once, and of two the later counts |
| DriverSafety.AcrossDisconnect | driver/src/l2cap_stream.c:87-96 | what a disconnect leaves, and the label the next session starts with |
| DriverSafety.ShortRequestsRefused | driver/src/ioctl.c:35-118 | requests shorter than their structures change nothing |
| ConformingSession.StepKeepsInv | driver/src/avdtp.c:52-214 | every step against a conforming peer keeps the invariant over wire, outstanding commands and codecs |
| ConformingSession.CommandsFollowTheCycle | driver/src/avdtp.c:52-169 | the commands of a session are a prefix of (DISCOVER GET_CAPABILITIES SET_CONFIGURATION OPEN START SUSPEND)*, and one round addresses one endpoint |
| ConformingSession.StreamingIsSound | driver/src/avdtp.c:90-169 | Streaming implies both channels open, nothing outstanding, START sent to the current endpoint, and an active codec equal to the one the accepted SET_CONFIGURATION payload configures |
| ConformingSession.OutstandingLabelsDiffer | driver/src/avdtp.c:31-43 | over every run at most two commands await an answer, two only as SUSPEND and DISCOVER, under different labels |
| StalledSession.StalledUntilDisconnect | driver/src/avdtp.c:171-214 | with an open channel, not streaming and nothing but SUSPEND outstanding, no step but a disconnect changes state, handles, endpoint, codecs or the packets sent |
| StalledSession.StreamsAgainExactly | driver/src/avdtp.c:52-214 | from every reachable state some continuation without a disconnect reaches Streaming exactly when the device is known and the session is not stalled |
| StalledSession.StateFollowsCommands | driver/src/avdtp.c:52-169 | over every run the reported state tells how many commands of the round were sent |
| StalledSession.EntersIdleOpen | driver/src/avdtp.c:128-169 | Idle with an open channel is entered exactly when the media channel fails after OPEN, or a switch sends SUSPEND but not DISCOVER |
| StalledSession.IdleOpenIsStalled | driver/src/owb_a2dp.h:66-68 | every reachable Idle state with an open channel is stalled, and the timer does nothing about it |
| StalledSession.IdleOpenReached | driver/src/avdtp.c:158-166 | a run that ends there |
| StalledSession.SinkDecides | driver/src/avdtp.c:69-86 | after a DISCOVER answer Streaming can be reached exactly when it offers a first free sink with a permitted SEID and GET_CAPABILITIES goes out |
| CodecSwitch.BuildCodecConfig | service/src/a2dp_stream.cpp:129-136 | request layout: id, key of at most 15 octets, value; closed device refused |
| CodecSwitch.ConfigOctets | service/src/a2dp_stream.cpp:129-136 | the request octet by octet |
| CodecSwitch.RequestDispatch | driver/src/ioctl.c:107-117 | the driver recovers the id and switches exactly on keys that begin with "sw" |
| CodecSwitch.RoundStreams | driver/src/avdtp.c:69-146 | from any connected state and any point of a round, accepted answers end Streaming, with the codec selected, pending or active at that point; the endpoint is the first free sink, if there is one |
| CodecSwitch.SwitchAnswered | driver/src/avdtp.c:148-169 | a switch is refused exactly when it interrupts a stream and SUSPEND or DISCOVER cannot be sent; the preference changes either way |
| CodecSwitch.SwitchTakesEffect | driver/src/avdtp.c:148-169 | a switch in any state with any send outcome, then answers from any point of a round: when exactly the requested codec streams |
| CodecSwitch.FirstSinkDecides | driver/src/avdtp.c:69-116 | for a peer with any list of endpoints the round ends with the preferred codec exactly when that is SBC or the first free sink advertises it |
| CodecSwitch.SecondSinkIgnored | driver/src/avdtp.c:69-116 | a peer whose second sink alone advertises LDAC: SBC |
| SwitchAgreement.ReachableTrack | driver/src/avdtp.c:52-214 | over every run the invariant behind the next results holds: from SET_CONFIGURATION on the pending codec is the one chosen, from OPEN on it is active |
| SwitchAgreement.StreamsTheChoice | driver/src/avdtp.c:90-126 | in every reachable Streaming state the active codec is the one selected from the capabilities answered last and the preference at that moment |
| SwitchAgreement.SwitchMatchesExactly | driver/src/avdtp.c:148-169 | a switch at any moment of any run with any send outcome, then anything but another switch: when exactly the codec that streams is the requested one |
| SwitchAgreement.UnadvertisedSwitch | driver/src/avdtp_packets.c:147-152 | a run: LDAC requested, not advertised, SBC streams |
| SwitchAgreement.LateSwitch | driver/src/avdtp.c:152-168 | a run: LDAC advertised and requested before START, success reported, SBC streams |
| SwitchAgreement.UnsentSuspend | driver/src/avdtp.c:158-164 | a run: SUSPEND cannot be sent, failure reported, SBC goes on streaming |
| SwitchAgreement.SinkInUseStalls | driver/src/avdtp.c:148-169 | a run: after a switch the only sink is in use, and the session is stalled |
| Latm.BitWriter.PutBit | service/codecs/latm.cpp:23-28 | the byte vector is always the packed bit string |
| Latm.BitWriter.Put | service/codecs/latm.cpp:12-14 | appends the low bits, most significant first |
| Latm.BitWriter.PutBytes | service/codecs/latm.cpp:16-18 | appends whole bytes |
| Latm.WriteStreamMuxConfig | service/codecs/latm.cpp:34-45 | the fixed fields around the configuration |
| Latm.WritePayloadLengthInfo | service/codecs/latm.cpp:47-51 | 255 for each full 255, then the rest |
| Latm.LatmPack | service/codecs/latm.cpp:55-63 | the output is the packed AudioMuxElement |
| Latm.UnpackPack | service/codecs/latm.cpp:23-31 | packing only adds up to seven zero bits |
| Latm.PackedDecodes | service/codecs/latm.cpp:55-63 | a field-by-field decoder recovers configuration and access unit for every length, leaving under eight zero bits |
| Latm.ClosedForm | service/codecs/latm.cpp:34-63 | the bit-serial output equals 20 00, configuration, 1F, then length bytes and unit shifted by five bits behind 11100 |
| Latm.PackedSize | service/codecs/latm.cpp:47-63 | exact size: configuration + unit + unit/255 + 5 |
| AptxCodec.WriteS24le | service/codecs/codec_aptx.cpp:37-42 | three octets of the shifted sample, nothing else touched |
| AptxCodec.S24leValue | service/codecs/codec_aptx.cpp:36-42 | they read back, sign included, as 256 times the sample |
| AptxCodec.PackBlock | service/codecs/codec_aptx.cpp:52-60 | the block is the eight samples in order |
| AptxCodec.PackedSampleAt | service/codecs/codec_aptx.cpp:44-60 | octets 3i to 3i+2 are sample i: left and right neither swapped nor mixed |
| AptxCodec.CodecAptx.Encode | service/codecs/codec_aptx.cpp:77-120 | all whole blocks through the threaded context until one fails or does not fit; -1 for none |
| AptxCodec.EncodesEveryBlock | service/codecs/codec_aptx.cpp:94-117 | with a library that keeps its contract and enough room no block is dropped |
| AptxCodec.EncodesPrefix | service/codecs/codec_aptx.cpp:94-120 | whatever the library answers: the longest run of whole blocks it took, and why it ended |
| AptxCodec.StreamSplits | service/codecs/codec_aptx.cpp:94-117 | cutting the stream between blocks changes nothing |
| StreamPipeline.ToStereo | service/src/stream_pipeline.cpp:40-52 | appends the stereo reduction |
| StreamPipeline.StereoAt | service/src/stream_pipeline.cpp:39-52 | frame f gives channels 0 and 1 of frame f, channel 0 twice without a second |
| StreamPipeline.StreamPipeline.RebuildCodec | service/src/stream_pipeline.cpp:74-88 | codec and id change together |
| StreamPipeline.StreamPipeline.DrainCodec | service/src/stream_pipeline.cpp:111-154 | framed or blob drain of the accumulator |
| StreamPipeline.StreamPipeline.RunPass | service/src/stream_pipeline.cpp:165-204 | one pass of the streaming loop, other threads changing the codec before the drain |
| StreamPipeline.EveryRunConserves | service/src/stream_pipeline.cpp:111-204 | since the last overflow clear, samples fed followed by the accumulator are the samples read, in order, whatever codecs return and whenever they are swapped; at most 2^18 wait |
| StreamPipeline.NothingDropped | service/src/stream_pipeline.cpp:117-153 | framed codecs and any read, or any mix of framed and blob codecs and at most 2048 samples a read: the clear never fires, across swaps, and the residue stays below the largest frame, or at most 7 for blob codecs alone |
| StreamPipeline.BlobResidue | service/src/stream_pipeline.cpp:140-153 | a blob drain leaves at most 7 samples exactly when it found at most 2055 |
| StreamPipeline.BlobPaceExactly | service/src/stream_pipeline.cpp:140-203 | reading the same amount every pass, a blob codec never drops anything exactly when that is at most 2048 samples |
| StreamPipeline.EveryFrameTagged | service/src/stream_pipeline.cpp:74-126 | every frame reaches the sink under the id of a codec that encodes its samples to those bytes |
| StreamPipeline.EveryFrameSent | service/src/stream_pipeline.cpp:111-138 | since a switch to a framed codec, the packets sent are exactly the non-empty results of encode on the consecutive frames of the samples fed, in order, its state threaded |
| StreamPipeline.StreamingTells | service/src/stream_pipeline.cpp:111-172 | the streaming flag tells whether a frame was sent since the sink was last down |
| StreamPipeline.OverflowExactly | service/src/stream_pipeline.cpp:196-201 | the clear fires exactly beyond 2^18 samples |
| StreamPipeline.ParamNeedsCodec | service/src/stream_pipeline.cpp:98-102 | a parameter needs a codec |
| StreamPipeline.FromTheStart | service/src/stream_pipeline.cpp:111-212 | conservation and tagging hold over every run from the constructor on |
| StreamPipeline.ChunkingPreservesMeaning | service/src/stream_pipeline.cpp:140-153 | since a switch to aptX, across parameter changes, the bytes sent equal one pass of the block encoder over all samples fed |
| IpcLifecycle.RunKeepsInv | service/src/ipc_server.cpp:237-262 | the invariant over all threads holds after every interleaving |
| IpcLifecycle.EveryInterleavingSafe | service/src/ipc_server.cpp:208-262 | only open handles are used, signalled or closed; none is closed twice per start; at most one message is finished after running was cleared |
| IpcLifecycle.ServerPath | service/src/ipc_server.cpp:208-262 | the way of the serving thread: a session only after a completed connect, and disconnected before it leaves |
| IpcLifecycle.OnlyStopCancels | service/src/ipc_server.cpp:224-229 | the serving thread is cancelled only after running was cleared, after a restart too |
| IpcLifecycle.WinnerReturnsStopped | service/src/ipc_server.cpp:370-376 | when the caller that cleared running returns, the server is out and each handle has been closed once |
| IpcLifecycle.ServerLeaves | service/src/ipc_server.cpp:107-116 | once running is cleared every server action brings it closer to leaving |
| IpcLifecycle.WaitingStopNotStuck | service/src/ipc_server.cpp:254-257 | a waiting stop() may go on or the server has a next action, its I/O being cancellable |
| IpcLifecycle.StopGetsThrough | service/src/ipc_server.cpp:370-376 | from every reachable waiting state server actions alone let stop() through |
| IpcLifecycle.ReturnsStoppedExactly | service/src/ipc_server.h:25-28 | a returning stop() finds the server out and every handle closed exactly when it cleared running itself, or nobody was starting or tearing down |
| IpcLifecycle.LateCallerReturnsEarly | service/src/ipc_server.cpp:370-371 | a run in which a second caller returns while the server awaits an operation of a client's message and the pipe is open |
| IpcProtocol.ParseEncode | service/src/ipc_protocol.h:22-28 | a message sequence survives its encoding |
| IpcProtocol.MessageOctets | service/src/ipc_protocol.h:22-28 | a message octet by octet |
| IpcProtocol.ReadSetCodecOctets | service/src/ipc_protocol.h:40-45 | which octets the server reads as names and value |
| IpcProtocol.GuiSetCodecOctets | gui/OpenWinBlue/Models/IpcProtocol.cs:64-73 | the GUI's payload octet by octet |
| IpcProtocol.AsciiOctetsExactly | gui/OpenWinBlue/Models/IpcProtocol.cs:64-73 | one octet a character, 63 outside ASCII |
| ByteTypes.LittleEndian64Octets | service/src/ipc_protocol.h:40-45 | a 64-bit value travels lowest half first |
| TextFields.TwosComplement | service/src/ipc_protocol.h:40-45 | a 64-bit value travels modulo 2^64 |
| IpcProtocol.GuiNameBytes | gui/OpenWinBlue/Models/IpcProtocol.cs:64-73 | 16-octet field with at most 15 characters |
| IpcProtocol.GuiSetCodecArrives | gui/OpenWinBlue/Models/IpcProtocol.cs:64-124 | the server reads the first 15 characters of both names, up to a NUL, and the same 64-bit value |
| IpcProtocol.StatusArrives | gui/OpenWinBlue/Models/IpcProtocol.cs:27-49 | the GUI reads the name, bitrate and capture flag the server wrote, nothing of the default name showing through |
| IpcProtocol.StatusOctets | service/src/ipc_protocol.h:31-38 | the status octet by octet |
| IpcSession.CodecNamesInverse | service/src/ipc_server.cpp:43-63 | id to name to id, exactly for the seven ids; names fit their field |
| IpcSession.CodecIdsInverse | service/src/ipc_server.cpp:53-63 | name to id to name |
| IpcSession.CodecNamesTable | service/src/ipc_server.cpp:43-51 | the seven names letter by letter |
| IpcSession.NormalizeParam | service/src/ipc_server.cpp:77-80 | bitpool becomes the nearest value in 2..53, other keys keep theirs |
| IpcSession.PipeSession.ReadExactly | service/src/ipc_server.cpp:129-138 | however the bytes arrive, exactly len of them or failure with the stream used up |
| IpcSession.PipeSession.SendMessage | service/src/ipc_server.cpp:147-151 | header, then payload if any |
| IpcSession.PipeSession.Apply | service/src/ipc_server.cpp:318-344 | which calls a request makes, in which order, and its success |
| IpcSession.PipeSession.OnSetCodec | service/src/ipc_server.cpp:308-316 | payload consumed whatever its length; wrong length refused without effect |
| IpcSession.PipeSession.OnMessage | service/src/ipc_server.cpp:269-276 | dispatch; an unknown type ends the session |
| IpcSession.PipeSession.ServeSession | service/src/ipc_server.cpp:259-267 | messages one after another while running |
| IpcSession.EveryRequestAnswered | service/src/ipc_server.cpp:259-327 | n requests, cut anyhow, get n replies in order, have their effects in order, and leave the stream exactly behind them |
| IpcSession.RepliesMatch | service/src/ipc_server.cpp:269-316 | the replies parse back, each of the type its request calls for; a wrong length is answered with a first octet of 0 |
| IpcSession.RequestOctets | service/src/ipc_protocol.h:10-20 | the requests octet by octet |
| IpcSession.CodecRequestAnswered | service/src/ipc_server.cpp:308-344 | for AI, unknown codec, switch and parameter: the calls made, and the first octet of the ack, 1 exactly when the deciding call answered true |
| IpcSession.SessionEnds | service/src/ipc_server.cpp:264-276 | what ends a session, with nothing answered and nothing called |
| IpcSession.InSyncExactly | service/src/ipc_server.cpp:269-276 | a request leaves the stream in sync exactly when it is a SetCodec or has no payload |
| IpcSession.GuiSwitchReaches | service/src/ipc_server.cpp:318-340 | a GUI switch makes two calls, pipeline then driver, with the same codec id |
| IpcSession.ControllerStatusArrives | service/src/ipc_server.cpp:293-298 | the GUI shows the pipeline's codec, "SBC" when it has none, with bitrate and streaming flag |
| IpcSession.FallbackCapturing | service/src/ipc_server.cpp:300-306 | without a pipeline it shows capturing exactly when the driver answers Configuring, and the active codec's name, empty if unknown, "SBC" without an answer |
| BtAddress.ParseBtAddrHex | driver/src/owb_a2dp.c:18-31 | the wrapping fold is the value of the hex digits mod 2^48, whatever separates them and however many there are |
| BtAddress.PrintedParses | gui/OpenWinBlue/ViewModels/DevicesViewModel.cs:183-187 | parsing the printed address, bare or with colons, gives it back mod 2^48 |
| BtAddress.FormatKeepsDigits | gui/OpenWinBlue/ViewModels/DevicesViewModel.cs:488-491 | colons and capitals do not change the digits of any key |
| BtAddress.FormatMacText | gui/OpenWinBlue/ViewModels/DevicesViewModel.cs:488-491 | the printed form character by character |
| BtAddress.HexDigitTable | driver/src/owb_a2dp.c:18-31 | the 22 hexadecimal characters and their values |
| BtAddress.UpperTable | gui/OpenWinBlue/ViewModels/DevicesViewModel.cs:488-491 | capitals of the 26 letters |
| BtAddress.ParsedPrints | gui/OpenWinBlue/ViewModels/DevicesViewModel.cs:183-187 | printing what twelve digits parsed to gives the digits in capitals |
| PnputilParser.SplitBlocks | gui/OpenWinBlue/Services/PnputilParser.cs:24-38 | the loop yields the blocks of the lines |
| PnputilParser.TextReadBack | gui/OpenWinBlue/Services/PnputilParser.cs:24-46 | the text of any listing of non-empty blocks of plain values is read back exactly, whatever the label |
| PnputilParser.CrlfInvariant | gui/OpenWinBlue/Services/PnputilParser.cs:24-46 | CRLF and LF line ends give the same blocks |
| PnputilParser.LabelsIrrelevant | gui/OpenWinBlue/Services/PnputilParser.cs:40-46 | replacing text before the first colon of any line leaves the blocks as they are |
| PnputilParser.PublishedNamesExact | gui/OpenWinBlue/Services/PnputilParser.cs:10-16 | the result lists, in block order and as first spelt, the published names of exactly the blocks that mention the original name and publish one no earlier block does, up to case |
| PnputilParser.PublishedExactly | gui/OpenWinBlue/Services/PnputilParser.cs:10-16 | what one block publishes: the first of its values that is a published name, if it mentions the original name |
| PnputilParser.DeviceDriversExact | gui/OpenWinBlue/Services/PnputilParser.cs:18-22 | one entry for each block: its first value, and its first .inf value or the empty string |
| PnputilParser.TrimExactly | gui/OpenWinBlue/Services/PnputilParser.cs:40-46 | trimming takes white space off both ends and nothing else |
| PnputilParser.WhiteSpaceTable | gui/OpenWinBlue/Services/PnputilParser.cs:24-46 | the 25 white-space characters |
| PnputilParser.QueriesInvariant | gui/OpenWinBlue/Services/PnputilParser.cs:10-22 | both queries are blind to line ends and label language |
| EndToEnd.GuiSwitchStreams | service/src/ipc_server.cpp:335-340 | from the GUI's message to the headset: a switch in any driver state, with any send outcome and from any point of a round, ends Streaming, and when exactly with the pipeline's codec |
| EndToEnd.SwitchedFrameMatches | driver/src/l2cap_stream.c:252-300 | over every run, after a GUI switch at any moment: when exactly the codec a packet is framed for is the negotiated one |
| EndToEnd.NeverNegotiated | driver/src/avdtp_packets.c:147-152 | LC3 and aptX Adaptive are negotiated as SBC whatever the peer advertises |
| EndToEnd.LdacOverSbc | service/src/ipc_server.cpp:335-340 | three reachable states in which LDAC packets go out over an SBC configuration: not advertised, switched too late, SUSPEND not sent |
| EndToEnd.ParamReachesLiveCodec | service/src/ipc_server.cpp:318-344 | a parameter request makes the same call whichever codec it names, and changes the one switched to last |
| EndToEnd.FrameReachesChannel | driver/src/l2cap_stream.c:252-330 | a frame of 1 to 65522 octets becomes one packet from which the receiver recovers it |
| EndToEnd.FrameRefused | driver/src/ioctl.c:52-58 | a longer frame, or one sent while not streaming, changes nothing |

## Left out

- Interleavings inside one driver callback, locks, pool and BRB plumbing: a callback is one step; allocation, open, send and read may fail.
- An open that returns a zero handle, a media transfer without an open media channel: the stack's business.
- Codec libraries, Media Foundation AAC, ONNX and RNNoise stages: unknown functions with the contract the wrapper relies on.
- Codec parameters (bitpool, rates, modes, the pipeline's guard on rate and mono): a parameter change is any change of codec state.
- Blob codecs with reads above 2048 stereo samples that vary, or swapped with framed ones: conservation and the cap hold; when exactly the clear fires is stated for a steady pace only.
- A failing start() and the pipe's security descriptor: start() either opens all three handles or changes nothing.
- Concurrent serve_one() callers and a start() that overlaps a stop() in progress: outside the documented use.
- Zero-length pipe messages: a read of nothing counts as the client being gone.
- MediaFraming.BuildSendFrameRequest: frames whose 32-bit buffer size would wrap are excluded, because the source then writes past its buffer.
- StreamPipeline.ToStereo: needs a buffer that holds the frames, as the capture side guarantees.
- IpcProtocol.GuiNameBytes: one '?' per UTF-16 unit outside ASCII; how .NET replaces surrogate pairs is not modelled.
- BtAddress.FormatKeepsDigits: capitalisation is that of ASCII letters.
- PnputilParser.PublishedNamesExact: case folding and the two file-name patterns are parameters.
- WASAPI capture, HFP guard, service control, logging counters, views, installer: plumbing and UI.
