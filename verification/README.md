# DLNA cast service — a Dafny model of its core

The service finds UPnP/DLNA media renderers on the local network. A caller selects one
and casts either a file or a live capture of the screen to it. This project models the
core of that service as pure Dafny functions over immutable values, and proves what the
code promises about them. The core has four parts:

- **The status register** (`Status`, from `lib/status.go`). One 32-bit integer that
  changes only by compare-and-swap. Its resting values are 0 (uninitialised), 1 (ready),
  2 (device selected), 3 (casting a file) and 4 (casting the screen). The value -1 marks
  a transition in progress. Each atomic operation is one step from one register value to
  the next.
- **The device registry** (`Registry`). Renderer records keyed by UDN, each with an
  absolute expiry time. Covered: how discovery files a record it has found, how listing
  evicts expired records, and the lookup by friendly name.
- **The live relay.** `Bytes` and `Flv` hold the byte and FLV framing helpers.
  - `FlvIngest` is the four-state `POST /live` parser. It caches the header, the script
    tag and the first video tag, and gates later video tags on a keyframe.
  - `FlvEgress` is the `GET /live` writer. It replays the cached stream start, frames
    every live tag with the size of the tag before it, and rebases timestamps.
  - `Admission` holds the single-producer and single-consumer admission flags.
  - `RelayPipeline` joins ingest to egress end to end.
- **The orchestrator** (`CastService`). Init, device selection, file and screen casting
  and their cancellation, each bracketed by the register's lock and unlock. An `Op`
  datatype and `Run` make arbitrary sequences of these operations available to lemmas.

The model follows the code as written, including four behaviours a reader might not
expect:

- **Upsert.** Discovery replaces an existing record only while that record has not yet
  expired (`lib/cast_service.go:143`). A record that has reached its expiry stays as it
  is until listing evicts it (`Registry.ReachedExpiryIsSticky`,
  `Registry.DiscoveredRecordLifetime`).
- **ListDevices.** It deletes expired records from the map, but still appends them to
  the list it returns (`lib/cast_service.go:319-324`).
- **Egress bootstrap.** The cached first video tag is written verbatim, with its original
  timestamp (`lib/cast_service.go:284`). Only the live tags that follow it are rebased.
- **Unsupported platform.** A screen cast on a platform other than Linux or Windows
  returns without unlocking (`lib/cast_service.go:466`). The register stays at -1, and
  every later transition fails (`CastService.UnsupportedPlatformWedges`).

The ingest side's "consumer attached" test is the admission flag `consumer == 1`
(`Admission.Attached`, `RelayPipeline.AdmissionDrivesGate`). The service value carries
the relay session, whose header buffer Init resets.

Side effects the model cannot compute are parameters. These are: whether the discovery
socket opened (`listen`), whether the encoder process started (`start`), and the
renderer's answer to SetAVTransportURI (`setUrl`, a function of the device and the
media URL). Wall-clock time is an integer `now` in seconds. Bytes are the integers
0..255 (`Bytes.byte`), and Go's `uint32` arithmetic is written out modulo 2^32. Go's map iteration order is
arbitrary, so the methods that iterate a map pick keys nondeterministically.

## Model

| member | source | states |
|---|---|---|
| Bytes.Uint24 | lib/cast_service.go:485-488 | the helper named `Uint32` reads three bytes big-endian, so its value is below 2^24 |
| Bytes.PutUint32 | lib/cast_service.go:297-298 | four bytes, most significant first, whose big-endian value is x |
| Bytes.LowBytesOfPutUint32 | lib/cast_service.go:297-299 | the low three bytes of a written uint32 read back as x mod 2^24 |
| Bytes.PutUint32OfUint24 | lib/cast_service.go:297-299 | writing a 24-bit value read from three bytes and dropping the zero top byte gives back those bytes |
| Bytes.HighNibble | lib/cast_service.go:234 | `b >> 4` is the nibble n with 16n <= b < 16n+16 |
| Status.LockStatus | lib/status.go:18-23 | succeeds exactly when the register holds the expected value and then leaves it at -1; otherwise "Lock Failed" with the register unchanged |
| Status.UnLockStatus | lib/status.go:25-30 | succeeds exactly from -1 and sets the new value; otherwise "UnLock Failed" with the register unchanged |
| Status.LockMultiStatus | lib/status.go:32-39 | succeeds exactly when the register's value is among the candidates, returns that value as the match and leaves the register locked; otherwise (0, "Lock Failed") with no change |
| Status.Assign | lib/status.go:41-46 | succeeds exactly from `cur` and sets the new value directly; otherwise "Assign Failed" with no change |
| Status.GetStatus | lib/status.go:14-16 | the value read is the one value LockStatus would succeed from |
| Status.LockThenUnlockRestores | lib/status.go:18-30 | lock from s followed by unlock to s restores the register exactly |
| Status.LockExcludes | lib/status.go:18-46 | while the register is locked, every lock, multi-lock and assign from a value other than -1 fails and changes nothing |
| Status.AssignIsAtomicBracket | lib/status.go:41-46 | Assign(cur, s) succeeds and ends where LockStatus(cur) then UnLockStatus(s) would, with no intermediate -1 |
| Status.LockMultiOfOne | lib/status.go:32-39 | with a single candidate, LockMultiStatus behaves as LockStatus |
| Registry.NewDevice | lib/cast_service.go:100-141 | a discovered record expires max-age seconds after now, 100 when no max-age parses, and keeps the descriptor's fields |
| Registry.Upsert | lib/cast_service.go:134-148 | a new UDN is inserted; an existing record is replaced only while its expiry is after now and kept once it has reached it; no other key changes |
| Registry.UpsertKeepsConsistent | lib/cast_service.go:141-147 | filing under the record's own UDN keeps every key equal to its record's UDN |
| Registry.ReachedExpiryIsSticky | lib/cast_service.go:141-147 | a record whose expiry has been reached survives any run of rediscoveries at that time unchanged |
| Registry.DiscoveredRecordLifetime | lib/cast_service.go:134-148 | a new record filed at t with max-age a is replaced by a rediscovery before t + a, kept unchanged by one from t + a on, and survives listing exactly up to t + a |
| Registry.Evict | lib/cast_service.go:319-323 | the map left behind holds exactly the records not expired at now, unchanged |
| Registry.ListDevices | lib/cast_service.go:317-326 | the map afterwards is the evicted map; the list has one entry per record present before the call, expired ones included; when every record is filed under its own UDN, no UDN appears twice |
| Registry.FindUdnByName | lib/cast_service.go:345-352 | the UDN of some record with that name, or "" when no record has it |
| Flv.Timestamp | lib/cast_service.go:294-297 | a tag's 24-bit Timestamp field, below 2^24 |
| Flv.IsKeyFrame | lib/cast_service.go:233-236 | a tag is a keyframe exactly when its first data byte lies in 16..31, i.e. its high nibble is 1 |
| Flv.StreamAppend | lib/cast_service.go:277-303 | framing two runs of tags in sequence frames their concatenation, the second run starting from the last size of the first |
| FlvIngest.Next | lib/cast_service.go:171-243 | the parser moves 0 -> 1 -> 2 -> 3 and stays in 3 |
| FlvIngest.InitialRelay | lib/cast_service.go:61 | Init leaves a zeroed 9-byte header buffer |
| FlvIngest.ReadFull | lib/cast_service.go:172 | all n bytes when available; EOF when nothing is left; UnexpectedEOF with the partial bytes otherwise |
| FlvIngest.ReadTag | lib/cast_service.go:177-195 | a tag is read exactly when 15 bytes are there, the type byte matches and the payload is complete; the tag is the header bytes 4..15 and the payload, well formed; a short header gives EOF or UnexpectedEOF, a wrong type gives its error, and a short payload gives EOF when nothing follows the header and UnexpectedEOF otherwise |
| FlvIngest.ReadTagOfFramed | lib/cast_service.go:196-214 | any well-formed tag of the wanted type behind a 4-byte size field is read whole and the rest is left as it was |
| FlvIngest.IngestStepOutcome | lib/cast_service.go:170-248 | state 0 fills the header buffer in place or stops leaving the partial read over it; in states 1-3 a failed tag read stops with its reason and no change; states 1 and 2 cache the tag read; state 3 stops on an empty payload, and otherwise sends the tag read exactly when the gate says so |
| FlvIngest.GateTag | lib/cast_service.go:233-243 | a live tag is sent exactly when a consumer is attached and it is a keyframe or none is pending; sending clears the flag, withholding leaves it |
| FlvIngest.IngestStep | lib/cast_service.go:170-248 | one loop iteration advances the state by one, consumes input, sends only live video tags in state 3 to an attached consumer, and leaves the cached tags alone once streaming or after an error (the outcome of each state in terms of ReadTag is FlvIngest.IngestStepOutcome) |
| FlvIngest.Ingest | lib/cast_service.go:163-252 | over a whole stream the state never moves back and only live video tags are sent |
| FlvIngest.IngestDetached | lib/cast_service.go:237-243 | without a consumer nothing is sent over a whole stream and the keyframe flag keeps its value |
| FlvIngest.IngestKeepsCache | lib/cast_service.go:215-243 | once streaming, the cached header, script tag and first video tag stay as they are; only the keyframe flag changes |
| FlvIngest.GateAll | lib/cast_service.go:233-243 | without a consumer nothing passes the gate; with a consumer and no keyframe pending every tag passes |
| FlvIngest.GateWaitsForKeyFrame | lib/cast_service.go:237-243 | a consumer needing a keyframe gets the tags from the first keyframe on; the flag stays set exactly when there is no keyframe |
| FlvIngest.IngestOfStream | lib/cast_service.go:215-248 | streaming a correctly framed body of live tags sends what the gate lets through and stops at EOF |
| FlvIngest.IngestOfFile | lib/cast_service.go:163-248 | a correctly framed FLV file is cached as header, script tag and first video tag, its live tags are gated, and ingest stops at EOF |
| FlvEgress.Attach | lib/cast_service.go:271-288 | the bootstrap is the header followed by the framed script tag and cached video tag; the pending size is the video tag's length, and a keyframe becomes needed |
| FlvEgress.Latch | lib/cast_service.go:294-296 | the start timestamp latches to the first tag's timestamp while it is 0 and never changes afterwards |
| FlvEgress.Rebase | lib/cast_service.go:297-299 | only bytes 4..7 of a tag change, and they hold the uint32 difference to the start, mod 2^24 |
| FlvEgress.Forward | lib/cast_service.go:291-303 | one received tag is framed by the pending size and written rebased against the start as latched by it: four more bytes than the tag, its type, size and data kept, its timestamp the difference mod 2^24; the tag's length becomes the pending size |
| FlvEgress.RebaseAll | lib/cast_service.go:289-303 | rebasing a run keeps every tag's length and all bytes outside its timestamp field (which timestamps are written is FlvEgress.RebaseAllAgainstLatch and FlvEgress.RebasedTimestamps) |
| FlvEgress.RebaseAllAgainstLatch | lib/cast_service.go:289-303 | the i-th live tag is rebased against the start as latched after the first i+1 tags, threading `start_timestamp` through the loop |
| FlvEgress.RebasedTimestamps | lib/cast_service.go:294-299 | the i-th live tag is written with (its timestamp minus the start latched after i+1 tags) mod 2^24, Go's uint32 subtraction truncated to three bytes |
| FlvEgress.LatchSticks | lib/cast_service.go:294-296 | once the start is nonzero, no later tag changes it |
| FlvEgress.LatchIsFirstNonzero | lib/cast_service.go:294-296 | from 0, the start latched after a run is the first nonzero timestamp in it, and stays 0 exactly when every timestamp is 0 |
| FlvEgress.ForwardAll | lib/cast_service.go:289-303 | the receive loop writes a correct FLV body of the rebased tags, framed from the pending size |
| FlvEgress.EgressOutput | lib/cast_service.go:271-303 | a consumer receives the bootstrap followed by the rebased live tags, framed on from the cached video tag's length |
| FlvEgress.EgressIsFlvFile | lib/cast_service.go:271-303 | a consumer receives one correctly framed FLV file: header, script tag, cached video tag, rebased live tags |
| FlvEgress.RebaseKeepsLive | lib/cast_service.go:297-300 | rebasing keeps a live video tag live and keeps its frame type |
| FlvEgress.RebaseAllKeepsLive | lib/cast_service.go:289-303 | rebasing keeps a run of live video tags live |
| FlvEgress.RebaseAllFromStart | lib/cast_service.go:294-299 | once latched, timestamps not below the start come out as plain differences |
| FlvEgress.RebasedClockStartsAtZero | lib/cast_service.go:294-299 | with a nonzero first timestamp and a non-decreasing clock, the rebased clock starts at 0, does not decrease and is offset by the first timestamp |
| FlvEgress.ZeroTimestampDoesNotLatch | lib/cast_service.go:294-296 | a first timestamp of 0 does not latch, so the next nonzero timestamp becomes the start and is also written as 0 |
| FlvEgress.EarlierTimestampWraps | lib/cast_service.go:294-299 | live timestamps 0, 5, 3 are written as 0, 0 and 2^24-2: a tag stamped before the start wraps around |
| Admission.AdmitProducer | lib/cast_service.go:163 | a stream is admitted exactly when no producer is active, and then marks one active |
| Admission.ReleaseProducer | lib/cast_service.go:165 | the end of an ingest stream frees the producer slot and leaves the consumer flag |
| Admission.AdmitConsumer | lib/cast_service.go:257 | a consumer is admitted exactly when a producer is active and the consumer slot is free |
| Admission.DetachConsumer | lib/cast_service.go:260 | a disconnecting consumer first marks the slot draining (-1) |
| Admission.ReleaseConsumer | lib/cast_service.go:265 | after the drain, the consumer slot is free again |
| Admission.AdmissionIsExclusive | lib/cast_service.go:163-265 | a second admission on either side fails while the first holds it, and a draining slot admits no one and is not attached |
| Admission.ReleaseReopens | lib/cast_service.go:163-265 | a released producer slot admits the next stream; a released consumer slot admits the next consumer while a producer is active |
| RelayPipeline.AdmissionDrivesGate | lib/cast_service.go:237-265 | an admitted consumer is attached; with the consumer slot free or draining, ingest hands on nothing and leaves the keyframe flag |
| RelayPipeline.EgressReparses | lib/cast_service.go:163-303 | the egress output parsed again by ingest gives back the cached start and exactly the rebased live tags |
| RelayPipeline.CachedBeforeAttach | lib/cast_service.go:163-243 | before a consumer attaches, the stream start is cached as read and nothing is sent |
| RelayPipeline.NeedKeyFrameWithholdsUntilKey | lib/cast_service.go:233-243 | a consumer needing a keyframe receives every live tag from the first keyframe on and nothing before it |
| RelayPipeline.RelaySession | lib/cast_service.go:163-303 | after attach, the consumer receives nothing before the first live keyframe, then one well-framed FLV file of the cached start followed by those tags rebased |
| CastService.Init | lib/cast_service.go:50-72 | only from 0: with the socket open the registry is emptied, the relay header buffer is zeroed and the register ends at 1; otherwise it returns to 0 with the socket error and nothing else changes |
| CastService.SelectDevice | lib/cast_service.go:328-343 | succeeds exactly from 1 or 2 with the UDN registered, then records the device and ends at 2; an unknown UDN restores the value it locked from with "No Such Device"; any other value fails with no change |
| CastService.CallbackUrl | lib/cast_service.go:408 | the URL sent to the renderer is `http://`, the device's local address, `:12345`, then the path (the same format for `/live` at line 437) |
| CastService.SelectDeviceByName | lib/cast_service.go:345-354 | selects the UDN field of some record with that name, or selects "" when none has it; when every record is filed under its own UDN and the register is 1 or 2, the named device is selected |
| CastService.CastFile | lib/cast_service.go:404-416 | only from 2: the path is recorded even if the call fails; the device is sent the `/file` URL, and the register ends at 3 on success and at 2 on failure |
| CastService.CancelCastFile | lib/cast_service.go:418-420 | succeeds exactly from 3 and goes to 2; otherwise "Assign Failed" with no change |
| CastService.CastScreen | lib/cast_service.go:422-476 | only from 2: an unsupported platform leaves the register at -1; a failed encoder start returns to 2; otherwise the encoder is kept and the `/live` URL is sent, ending at 4 on success and at 2 on failure |
| CastService.EncoderExited | lib/cast_service.go:441-444 | encoder exit moves 4 to 2 and otherwise fails with no change |
| CastService.CancelCastScreen | lib/cast_service.go:478-483 | Kill is sent to any encoder whatever the status; the register moves 4 to 2, otherwise it is unchanged with "Assign Failed" |
| CastService.ApplyKeepsResting | lib/cast_service.go:50-483 | every operation except an unsupported-platform screen cast takes a resting register to a resting one |
| CastService.RunKeepsResting | lib/cast_service.go:50-483 | any run of such operations from a resting register ends resting, and GetStatus never reads -1 after it |
| CastService.RunKeepsConsistent | lib/cast_service.go:142-147 | every run of operations keeps each record filed under its own UDN, so the conditions of SelectDeviceByName and ListDevices hold for every service a run reaches from such a registry, an empty one included |
| CastService.LockedStaysLocked | lib/cast_service.go:50-483 | from -1, every run of operations leaves the register at -1 |
| CastService.UnsupportedPlatformWedges | lib/cast_service.go:464-467 | a screen cast on an unsupported platform leaves the register at -1 for every later run of operations |
| CastService.CastFileThenCancel | lib/cast_service.go:404-420 | a successful file cast followed by its cancel returns to 2 and changes only the recorded path |
| CastService.CancelAfterEncoderExit | lib/cast_service.go:441-444 | cancelling after the encoder has exited by itself reports "Assign Failed", yet the register rests at 2 |

## Left out

- SSDP discovery (`lib/cast_service.go:78-133`) is left out: the M-SEARCH loop, the UDP
  reads, HTTP and XML parsing of the descriptor, and the regexp probe for
  SetAVTransportURI. Only the record it builds (`Registry.NewDevice`) and how the record
  is filed (`Registry.Upsert`) are modelled.
- Registry.NewDevice: `fmt.Sscanf` parsing of `CACHE-CONTROL` is a parameter
  (`Option<int>`), and `time.Duration` overflow for huge max-age values is not modelled.
- Registry.Upsert: discovery calls the clock twice, once for the expiry and once for the
  comparison. The model uses one `now` for both.
- Registry.ListDevices: the code reads the clock afresh for every entry
  (`lib/cast_service.go:320`). The model uses one `now` for the whole listing, so it does
  not cover a record that expires while the listing is in progress.
- setURL (`lib/cast_service.go:356-394`) is left out: the SOAP envelope, its marshalling
  and the HTTP POST. Only its error or success reaches the model, as the `setUrl`
  parameter.
- The ffmpeg command lines (`lib/cast_service.go:425-430, 446-450`) are left out: they
  are I/O with no effect on the state.
- stopService (`lib/cast_service.go:396-402`) is not part of this model: nothing in the
  repository calls it.
- CastService.CancelCastScreen: models Kill as a flag on the handle. The process and its
  Wait are not modelled.
- CastService.CastScreen: the watcher goroutine it starts is `CastService.EncoderExited`,
  an operation that may come at any point in a run. The model does not tie it to an
  earlier successful start.
- Concurrency is not modelled. There are no goroutines, no interleaving of operations,
  no blocking on the single-slot hand-off channel (a sent tag is handed over directly,
  in order), and no 2-second drain timer in the egress handler. The atomic operations
  are sequential steps. A consumer is either attached for the whole ingest stream or not.
- The gin HTTP wiring, `GET /file`, response headers, Flush, and `main.go` are left out.
- Status.LockStatus: Go converts its `int` arguments to `int32`. This truncation is not
  modelled, because the arguments are `int32` and every caller passes a constant
  between -1 and 4.
- Flv.Timestamp: TimestampExtended (byte 7 of a tag) is neither read nor rebased, as in
  the code. The model does not give it a meaning.
- FlvIngest.Ingest: a live tag whose DataSize is 0 makes the code index an empty payload
  and panic. The model ends the stream with `EmptyPayload` instead of modelling the
  panic and gin's recovery from it.
