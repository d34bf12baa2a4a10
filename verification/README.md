# Verified models of the ESP flasher, the device registry and the sleep manager

This Dafny project models three parts of the repository and proves what they promise.

**The serial flash stack** (`internal/espflash`, and the image container of `internal/flash/convert.go`).
`Slip` holds the framing as byte strings, `Serial` the port and the streaming reader as classes; how many bytes a
read returns is left open, so what is proved of the reader holds for every way of cutting the stream. The chip is
any function from its state and a packet to a new state and its answers. `Command` sends commands and matches
replies, `PipelineLag` is the ESP32-P4 ROM that holds each reply back until the next command, `ReadFlash` reads
flash back through the stub. `LateReplies` is about replies that come after their attempt has ended: they are matched
by opcode only, so it asks whose acknowledgement was taken. `FlashChip` is a chip whose commands and acknowledgements
may be lost at any time, unless it is `healthy`, and `Flasher` drives it: numbered blocks with resends, whole parts
with retries, the compressed path and its fallback. `Image` patches image headers in place, `Blocks` is the 32-bit
block arithmetic, `RamUpload` the stub upload and `Container` the multi-part container.

**The device registry and the leader** (`internal/cluster`). `DeviceLock`, `Registry` and `Leader` are classes for
one call at a time: a lock, the registry of locks, and the leader's device table whose status mirrors the locks.
`Locking` and `Cluster` are the same operations as threads in small steps. Every mutex operation is a step, a
waiting writer keeps new readers out as Go's `sync.RWMutex` does, and a device lock is read and written in
separate steps. `Balance` proves that the steps keep the lock order, `Permissions` what the scripts of each role may
contain; `Interleaving`, `History`, `Reservations`, `JobFlow` and `Settlement` prove what holds of every interleaving,
workers, result handler and bounded job channels included: no deadlock, one owner at a time, no job lost, and no device
left held by a job that is settled. `Solo`, `Descent`, `Agreement` and `Calls` prove that a call or event nobody
interferes with does in small steps what it does in one go, in whatever order its map iterations go.

**The sleep manager and the port watcher** (`internal/devicesleep`, `internal/device/watcher.go`). `Sleep` drives a
power controller that may fail; `Ports` and `Watcher` are the deduplication of port entries and the diff of scans,
`EventQueue` the ten-slot channel the scans announce to, which drops an event that finds it full, and `BoardRow` a scan
that finds many boards at once.

Loops that the source writes as loops are loops here, proved against recursive functions; the promises are lemmas
about those functions. Where a promise fails on some inputs, the exact condition is proved instead
(`Blocks.AnnouncedCountIsExact`, `PipelineLag.AwaitBehindStale`, `Container.RoundTrip`, `Image.CodesReadBack`,
`ReadFlash.ReadReturnsFlash`, `RamUpload.PanicsAbove`, `LateReplies.AcksAreOwnIff`, `Leader.AddedMirror`,
`Sleep.WakingNeedsItsOwnPort` and its neighbours, `Watcher.AllAnnouncedIff`, `Watcher.FoundByPathIff`).

Two places where the code and its comments differ are modelled as the code stands: `CleanupStaleReservations` fires
its hooks without the registry's mutex although `fireReleaseHook` is described for callers that hold it, and
`verifyMD5` accepts an image when the digest command itself fails.

## Model

| member | source | states |
|---|---|---|
| Slip.TwoPassesEscapeEachByte | internal/espflash/slip.go:28-37 | The two replace-all passes of the encoder equal one escape per byte (RFC 1055, PROTOCOL) |
| Slip.EncodedByte | internal/espflash/slip.go:14-37 | Wherever a byte stands, 0xC0 becomes 0xDB 0xDC, 0xDB becomes 0xDB 0xDD, and every other byte stays |
| Slip.InteriorHasNoDelimiter | internal/espflash/slip.go:28-37 | An encoded packet has the delimiter at its two ends and nowhere else |
| Slip.Decode | internal/espflash/slip.go:40-69 | The decoding loop computes what stripping delimiters and undoing escapes means |
| Slip.DecodeInvertsEncode | internal/espflash/slip.go:28-69 | Decoding an encoded packet gives the packet back |
| Slip.FeedAppend | internal/espflash/slip.go:100-188 | The reader's automaton may be interrupted anywhere: inside an escape pair, on a delimiter, between frames |
| Slip.FeedFrame | internal/espflash/slip.go:100-188 | From any state between frames an encoded non-empty packet yields that packet and leaves exactly what followed it |
| Slip.BadEscapeIsInvalid | internal/espflash/slip.go:106-119 | In a frame, an escape followed by neither code is an error at that byte, after any escaped data before it |
| Slip.NoiseIsSkipped | internal/espflash/slip.go:100-150 | Whatever comes before the first delimiter is passed over |
| Slip.FramesOfEncodedPackets | internal/espflash/slip.go:90-188 | Successive frames of concatenated encodings are exactly the non-empty packets, in order |
| Serial.SlipReader.ProcessBytes | internal/espflash/slip.go:100-150 | The buffer loop is the automaton; only a completed packet stores the unread rest as leftover |
| Serial.SlipReader.ReadFrame | internal/espflash/slip.go:90-188 | However reads cut the stream, a frame is the stream's first packet and leftover plus unread bytes are what remains; an error or a timeout is accounted for too |
| Serial.ReadAll | internal/espflash/slip.go:90-188 | Reading until nothing comes returns exactly the frames of the whole stream |
| Serial.PiecesDoNotMatter | internal/espflash/protocol.go:226-247 | A chip reacts to what it receives in pieces as to the whole |
| Serial.ServeFrame | internal/espflash/protocol.go:212-247 | A chip between frames unframes an encoded packet exactly and reacts to it once |
| Command.Checksum | internal/espflash/protocol.go:201-207 | The loop computes the exclusive-or of all bytes with the seed |
| Command.ChecksumDetectsOneWrongByte | internal/espflash/protocol.go:201-207 | Changing any one byte changes the checksum |
| Bytes.ByteOrders | internal/espflash/protocol.go:212-224 | Which end of a word comes first, in literal bytes, little-endian and big-endian |
| Command.RequestLayout | internal/espflash/protocol.go:209-224 | The bytes of a request: 0x00, opcode, 16-bit length and 32-bit checksum with the least significant byte first, payload |
| Command.RequestRecovered | internal/espflash/protocol.go:212-224 | Opcode, checksum and payload are always recovered, the length field exactly when the payload is under 64 KiB |
| Command.ChipRecoversCommand | internal/espflash/protocol.go:212-247 | The same for a command sent in any pieces over a line between frames |
| Command.ChunksConcat | internal/espflash/protocol.go:226-247 | The 64-byte pieces are the frame |
| Command.Conn.SendCommand | internal/espflash/protocol.go:212-247 | One write, or writes of at most 64 bytes over USB, with the same effect on the chip and the line |
| Command.Conn.Command | internal/espflash/protocol.go:266-368 | After the command and the poke, the answer is the one the reply search over the whole stream determines, and what is left unread is what follows it |
| Command.Conn.ReadReply | internal/espflash/protocol.go:296-368 | The read loop skips short, foreign and failed frames up to the limit and frames that are no responses without limit |
| Command.Conn.CheckCommand | internal/espflash/protocol.go:373-414 | On the bytes of the first reply on the line: behind the expected data a zero status accepts the command and anything else refuses it with the byte after it; a reply too short for that can only refuse or be reported short |
| Command.StatusOnTheWire | internal/espflash/protocol.go:296-414 | The same from the wire: the status bytes of the framed reply decide, whatever follows on the line |
| PipelineLag.AwaitBehindStale | internal/espflash/protocol.go:296-368 | A reply behind non-matching frames is found exactly when at most 256 of them are ahead |
| PipelineLag.LaggingExchange | internal/espflash/command_p4.go:17-25 | With the poke a lagging ROM's reply reaches its own command exactly when at most 256 SYNC frames are ahead, and nothing but SYNC replies stays held |
| PipelineLag.LaggingRunReturnsOwnReplies | internal/espflash/protocol.go:266-368 | Over any list of commands every command gets its own reply |
| PipelineLag.LaggingRomEqualsPromptRom | internal/espflash/command_p4.go:17-25 | The poked lagging ROM gives the replies of a ROM that answers at once, repeated opcodes included |
| PipelineLag.UnpokedReplyIsThePreviousOne | internal/espflash/command_p4.go:10-25 | Without the poke a command that repeats its predecessor's opcode gets the predecessor's reply |
| PipelineLag.Exchanged | internal/espflash/protocol.go:266-368 | A command on a connection is one exchange over its whole unread stream |
| PipelineLag.Converses | internal/espflash/protocol.go:266-368 | A list of commands sent over a poked connection to a lagging ROM returns each command's own reply and leaves nothing unread |
| LateReplies.Sender.SendBlock | internal/espflash/flasher.go:1343-1365 | The resend loop over the bytes on the line: up to five attempts, the input flushed after each that fails |
| LateReplies.AttemptTakesFirst | internal/espflash/protocol.go:296-368 | Of the replies on the line the first is taken, whichever block it answers |
| LateReplies.AckIsOwnIff | internal/espflash/flasher.go:1343-1365 | The acknowledgement that ends the attempts at a block is its own exactly when no reply to an earlier block is outstanding |
| LateReplies.OwnWhenNoneIsLate | internal/espflash/flasher.go:1343-1365 | With no reply to an earlier block outstanding it is, whatever status the replies have and however often the block is sent |
| LateReplies.RefusalsDoNotAcknowledge | internal/espflash/protocol.go:373-414 | Over the whole block loop, whatever comes late, only a reply whose status byte is zero acknowledges a block |
| LateReplies.AcksAreOwnIff | internal/espflash/flasher.go:1316-1372 | Every acknowledgement of the block loop belongs to its own block exactly when none is outstanding at the start of a block that is acknowledged |
| LateReplies.AllReceived | internal/espflash/flasher.go:1316-1372 | Such a loop has got every acknowledged block to the chip |
| LateReplies.PromptRepliesAreNotLate | internal/espflash/flasher.go:1343-1365 | So has one whose chip replies before the wait ends or not at all |
| LateReplies.FirstAttemptsAreNotLate | internal/espflash/flasher.go:1343-1365 | And one that never has to send a block again |
| LateReplies.LateReplyHidesALoss | internal/espflash/flasher.go:1343-1365 | One late reply and one resend let a block that never reached the chip be acknowledged |
| ReadFlash.Read | internal/espflash/protocol.go:751-793 | The method fetches what the exchange over the whole line determines, acknowledging frame by frame |
| ReadFlash.ReadReturnsFlash | internal/espflash/protocol.go:751-793 | Against an honest stub reading returns exactly flash[offset, offset + size) and leaves the line at a frame boundary if and only if the size leaves room for one block below 2^32; for larger sizes the block count wraps to 0 and no data are returned |
| ReadFlash.ReadBeyondFlashFails | internal/espflash/protocol.go:751-793 | The stub refuses a range that reaches beyond its flash, and reading then returns nothing |
| ReadFlash.BlocksArrive | internal/espflash/protocol.go:764-782 | From any number of bytes received on, with acknowledgements equal to the bytes so far, the loop fetches exactly the rest |
| Blocks.AnnouncedCountIsExact | internal/espflash/protocol.go:537-539 | The announced 32-bit count equals the number of blocks sent exactly for sizes that leave room for one block below 2^32 |
| Blocks.CountIsExact | internal/espflash/protocol.go:602-604 | The wrapped count equals the mathematical one exactly under that bound |
| Blocks.BlocksConcat | internal/espflash/flasher.go:1218-1253 | The unpadded blocks concatenate to the data; padding adds erased bytes after the last byte only |
| RamUpload.UploadToRAM | internal/espflash/protocol.go:863-892 | In 32-bit arithmetic, for every length: the count is announced, then the blocks are sent once each in order, numbered from 0; after an error the blocks sent are the first ones, and where the last block's end wraps all others are sent before the slice expression panics |
| RamUpload.PanicsAbove | internal/espflash/protocol.go:876-885 | That happens exactly for sizes above 2^32 - 4096, over USB above 2^32 - 1024 |
| Flasher.Flasher.SendBlock | internal/espflash/flasher.go:1330-1356 | A block is sent up to the first send the chip acknowledges, and given up after five that it does not; the call succeeds exactly with an acknowledgement. On a chip that stores what it acknowledges, acknowledged means stored; nothing outside the block changes; a healthy chip needs one send |
| Flasher.Flasher.FlashUncompressed | internal/espflash/flasher.go:1288-1395 | Under any loss: success leaves the data and 0xFF up to the block boundary, failure at a block leaves the blocks before it, nothing outside the sectors changes, and each block is sent in order, at most five times, up to its first acknowledgement. Success with an answered digest means that the digests agree; without collisions the data is then in flash even if the chip did not store a block it acknowledged. On a healthy chip with room the data is skipped exactly when the option is on, the stub runs and the flash has its digest; otherwise the download succeeds with every block sent once |
| Flasher.Flasher.FlashCompressed | internal/espflash/flasher.go:1172-1285 | Success without the skip leaves the data in flash when inflating undoes deflating, and an answered digest vouches for the data as on the uncompressed path; data that does not shrink takes that path. On a healthy chip it succeeds, with every block sent once |
| Flasher.Flasher.Unchanged | internal/espflash/flasher.go:1190-1208 | A part is taken for unchanged exactly when the option is on, the stub runs, and the chip answers with the digest of the data |
| Flasher.Flasher.EraseMeans | internal/espflash/protocol.go:537-547 | What a begin command asks to erase: a ROM that is to erase is told whole blocks, otherwise the size of the image is announced |
| Flasher.Flasher.VerifyMD5 | internal/espflash/flasher.go:1397-1412 | The digest of the image's range is requested of the flash as it is then; if the chip answers, the image passes exactly when the digests agree, and if it does not, the image passes |
| Flasher.Flasher.Finish | internal/espflash/flasher.go:1374-1393 | The stub's success and mismatch both follow a digest request; if it is answered, success means exactly that the digests agree, and a mismatch is reported only on an answer |
| Flasher.Flasher.FlashPart | internal/espflash/flasher.go:1060-1090 | A part is tried one to three times, three if it fails, with one new connection between two attempts and none after the last; on a healthy chip with room one attempt is enough |
| Flasher.Flasher.FlashParts | internal/espflash/flasher.go:1031-1093 | After success every part is in flash at the same time, if no part's sectors reach an earlier part's data; on a healthy chip with room for all parts and known header options it succeeds with one attempt for each part |
| Flasher.Flasher.FlashImages | internal/espflash/flasher.go:987-1096 | The same for the whole call: all parts patched, padded and landed, bytes outside all sectors unchanged, no part tried more than three times, for any pattern of failures; once attached, a healthy chip with room and known options gives success with every part tried once. The options used are the caller's, but for a header size that was not set and DOUT on an ESP8266 that leaves the mode open; a failed attach changes nothing |
| Image.ImageDataLength | internal/espflash/image.go:145-175 | The parsing loop computes the data length, or -1 for an image that is cut short |
| Image.DigestIsAligned | internal/espflash/image.go:165-175 | The length is a multiple of 16 in (end of segments, end of segments + 16] |
| Image.SegmentsAreFound | internal/espflash/image.go:145-165 | The parser finds the end of the segments an image was built from, whatever precedes and follows them |
| Image.PatchImageHeader | internal/espflash/image.go:40-140 | Patching the copy in place computes the patched image or refuses an unknown option |
| Image.PatchKeepsImage | internal/espflash/image.go:40-140 | Only bytes 2 and 3 and the digest may change and the parsed length stays; when an option is set, a digest is the hash of the patched content |
| Image.PatchIsIdempotent | internal/espflash/image.go:40-140 | Patching twice with the same options is patching once |
| Image.RefusedIff | internal/espflash/image.go:40-85 | An ESP image is refused exactly for an option that is set and unknown: a mode of another name, a frequency or size the chip lacks |
| Image.ModeAsAsked | internal/espflash/image.go:40-95 | Byte 2 becomes 0, 1, 2 or 3 for qio, qout, dio or dout, and stays when no mode is set |
| Image.SizeAndFreqAsAsked | internal/espflash/image.go:40-110 | The nibbles of byte 3 are the chip's codes for the size and the frequency asked for, each the old one where none is set |
| Image.OnlyHeaderChanges | internal/espflash/image.go:112-140 | Without digest flag, cut short before the digest, or for an ESP8266 or an unknown chip, no other byte changes |
| Image.DigestIsRenewed | internal/espflash/image.go:112-140 | Any other ESP image for which an option is set carries the hash of its patched content |
| Image.CodesReadBack | internal/espflash/image.go:86-110 | Size and frequency read back from their byte exactly when the codes stay in their nibbles |
| Container.FrameParts | internal/flash/convert.go:116-138 | The framing loop writes each part behind its eight-byte header |
| Container.FrameOneParts | internal/flash/convert.go:120-135 | A framed part is its offset and its length, most significant byte first, and then its data |
| Container.ParseMultiPartImage | internal/flash/convert.go:146-176 | The parsing loop computes the parts or refuses a cut header or cut data |
| Container.RoundTrip | internal/flash/convert.go:116-176 | Parsing the framing gives the parts back exactly when offsets and lengths fit 32 bits |
| Container.AcceptsExactlyFramings | internal/flash/convert.go:146-176 | The parser accepts exactly the framings of such parts |
| DeviceLock.Device.Reserve | internal/cluster/device_lock.go:38-53 | Only an available lock is reserved, with the new owner and time; otherwise nothing changes |
| DeviceLock.Device.Release | internal/cluster/device_lock.go:55-69 | Only the owner's name frees a lock; otherwise nothing changes |
| DeviceLock.Device.Acquire | internal/cluster/device_lock.go:71-93 | A reservation becomes busy for its owner only, who may acquire again |
| DeviceLock.Device.ForceRelease | internal/cluster/device_lock.go:95-104 | The lock is freed whoever holds it, and that owner is returned |
| DeviceLock.CallIsAllowed | internal/cluster/device_lock.go:38-104 | Every call obeys the ownership rules, keeps a free lock without owner, and lets a reservation lapse only after the cutoff |
| Registry.Registry.Register | internal/cluster/device_lock.go:176-184 | A known path keeps its lock and its reservation |
| Registry.Registry.Reserve | internal/cluster/device_lock.go:194-212 | An unknown path is refused; other locks are untouched |
| Registry.Registry.Release | internal/cluster/device_lock.go:214-229 | Exactly the named lock is released, by its owner only |
| Registry.Registry.ForceRelease | internal/cluster/device_lock.go:236-251 | Exactly the named lock is freed |
| Registry.Registry.AvailableDevices | internal/cluster/device_lock.go:276-287 | Exactly the paths of available locks |
| Registry.Registry.CleanupStaleReservations | internal/cluster/device_lock.go:317-354 | In fields: a reserved or busy lock whose time is before the cutoff becomes available with no owner, every other lock stays as it is; exactly the freed paths are reported, each once with its last owner |
| Balance.HookRuns | internal/cluster/device_lock.go:148-174 | A hook starts with no mutex held, takes the leader's mutex and gives everything back |
| Balance.ScriptRuns | internal/cluster/leader.go:763-934 | Every call and event takes mutexes in the order leader, registry, device and gives all of them back |
| Balance.ExpandRuns | internal/cluster/device_lock.go:194-354 | So does every step, whatever the shared data makes it do |
| Interleaving.StepKeepsInvariant | internal/cluster/device_lock.go:19-104 | Every step of every thread keeps mutual exclusion, the lock order, the value read under a device mutex and the account of owners |
| Interleaving.WaiterUnblocks | internal/cluster/device_lock.go:317-347 | A thread that waits for a mutex waits, along the lock order, for a thread that can go on |
| Interleaving.ChannelsUnblock | internal/cluster/executor.go:69-148 | With no thread waiting for a mutex the result handler, then a worker, then a submitter can go on |
| Reservations.NoDeadlock | internal/cluster/device_lock.go:317-354 | In every state any run reaches, either all work is done or some thread can take a step, for any number of threads and any calls |
| Reservations.HooksRunUnlocked | internal/cluster/device_lock.go:236-251 | A thread about to lock the leader holds neither registry nor device mutex |
| Reservations.WritersExclude | internal/cluster/device_lock.go:38-104 | In every reachable state a mutex held for writing is held by no other thread |
| Reservations.ReservationsAreLegal | internal/cluster/device_lock.go:38-104 | The locks' history in every interleaving is one of a single owner at a time, and its last owner is the one the lock names |
| Reservations.LateReleaseIsHarmless | internal/cluster/leader_jobs.go:79-131 | A reservation ends only by its own owner's release, a forced release or its own expiry, so a late release of a cancelled or failed job frees nobody else's |
| Reservations.EntriesTellCalls | internal/cluster/device_lock.go:38-104 | Every entry of a lock's history was made by a thread's call to that lock, and tells which: whose reservation and when, whose release, a forced release, a cleanup with its cutoff |
| Reservations.LapsesAreStale | internal/cluster/device_lock.go:317-347 | In every run a reservation lapses only if it was made in that name before the cutoff and not given up since |
| Reservations.ReservationsDoNotOverlap | internal/cluster/device_lock.go:38-53 | Between two reservations of a lock its first owner has lost it |
| Reservations.AvailableIffUnowned | internal/cluster/device_lock.go:38-104 | In every interleaving of calls with non-empty names a lock is available exactly when its owner is empty |
| Reservations.ReserveKeepsAgreement | internal/cluster/device_lock.go:48-50 | Reserving keeps that agreement exactly when the name is not empty |
| History.HolderKeepsLock | internal/cluster/device_lock.go:55-69 | In any legal history a holder keeps a lock until an entry that may free it |
| History.LapsesAreOverdue | internal/cluster/device_lock.go:335-343 | In any legal history each lapse follows the reservation it ends, made before the cutoff |
| JobFlow.JobsAreConserved | internal/cluster/executor.go:69-148 | In every interleaving each submitted job is counted once: waiting, being worked on, finished or settled; and the jobs submitted or still to be are those of the dispatch calls |
| JobFlow.EveryJobIsSettled | internal/cluster/leader_jobs.go:79-102 | When all work is done the result handler has settled exactly the jobs that were dispatched, each as often as it was |
| JobFlow.ChannelsKeepOrder | internal/cluster/executor.go:39-99 | In every interleaving both channels are first in, first out and stay within their capacity |
| Settlement.SettledJobFreesDevice | internal/cluster/leader_jobs.go:79-102 | In every finished run no lock is held in the name of a settled job, if the path keeps its lock and nobody reserves it in that name again |
| Settlement.CancelledJobFreesDevice | internal/cluster/leader_jobs.go:104-131 | The same for a job some thread is about to cancel: at every later point it is released, or its release is still due |
| Calls.CallsAgree | internal/cluster/device_lock.go:194-354 | Every run in which nobody interferes with a call or event of any kind, and which ends with the call done, leaves devices and locks as the single call does, status hooks included, in whatever order maps are gone through |
| Calls.CallsEnd | internal/cluster/device_lock.go:194-354 | Such a run exists whenever no other thread holds a mutex |
| Calls.HandlerReleases | internal/cluster/leader_jobs.go:79-102 | A turn of the result handler that nobody interferes with releases the device in the job's name, stamps it as the hook does, and settles the job |
| Calls.HeartbeatIsAggregated | internal/cluster/leader.go:473-524 | The heartbeat in small steps makes of the table what the heartbeat call is proved to make of it |
| Agreement.SweepEnd | internal/cluster/device_lock.go:317-354 | In whatever order the registry is gone through, a sweep ends, and every way to its end frees exactly the stale locks and stamps exactly their devices |
| Agreement.OrphansEnd | internal/cluster/leader.go:1983-1998 | In whatever order the table is gone through, every way to the end reclaims exactly the busy devices without an active job |
| Descent.NoReturn | internal/cluster/device_lock.go:194-354 | No thread comes back to a script it has left, so the end of a call is reached once |
| Agreement.RunOwnsLocks | internal/cluster/device_lock.go:176-192 | In every reachable state no two paths share a lock object, and no thread is about to update a lock not yet made |
| Leader.Leader.ReserveDevice | internal/cluster/leader.go:134-158 | A successful reservation stamps the device busy, a failed one changes nothing |
| Leader.Leader.ReleaseDevice | internal/cluster/leader.go:134-158 | A successful release stamps the device available, a denied one changes nothing |
| Leader.Leader.CleanupStaleReservations | internal/cluster/device_lock.go:317-354 | In fields: exactly the locks whose reservation is older than the cutoff are freed, exactly their devices are stamped available, and nothing else changes |
| Leader.Leader.DeviceAdded | internal/cluster/leader.go:879-889 | A device still in memory has its lock reset, a new one is registered without touching a lock it already has |
| Leader.Leader.CleanupOrphanedDevices | internal/cluster/leader.go:1969-1999 | Exactly the busy devices without an active job become available, lock included |
| Leader.MirrorKept | internal/cluster/leader.go:134-158 | Over any run of reservations, releases, stale cleanups, in-memory reconnects, orphan cleanups and cleanups of unidentified boards a live registered device is busy exactly when its lock is held |
| Leader.AddedMirror | internal/cluster/leader.go:883-889 | A device that comes up keeps the mirror exactly when it is still in memory, was not registered, or nobody holds its lock |
| Leader.ReleaseByOwnerOnly | internal/cluster/leader_jobs.go:79-131 | After a job's reservation another job's release changes nothing, and the device is free for it only after the owner's release |
| Leader.Leader.UpdateHeartbeat | internal/cluster/leader.go:473-524 | The node's entries become exactly the listed ones, other nodes' entries at other paths stay, existing locks keep their state and new paths get free locks |
| Leader.AggregatedIsFunction | internal/cluster/leader.go:490-518 | Those conditions determine the table |
| Leader.AggregatedAgain | internal/cluster/leader.go:490-518 | Repeating a heartbeat changes nothing |
| Leader.Leader.CleanupStaleNodes | internal/cluster/leader.go:1736-1781 | Exactly the timed-out nodes other than the leader and exactly their devices are removed |
| Leader.Leader.CleanupUnidentifiedDevices | internal/cluster/leader.go:2003-2038 | Exactly the physical boards unidentified for more than an hour are removed, together with their locks |
| Sleep.Manager.Wake | internal/devicesleep/manager.go:250-270 | Success switches the port on and records the board awake, failure changes nothing |
| Sleep.Manager.Sleep | internal/devicesleep/manager.go:274-297 | A board that is awake is switched off and recorded; one recorded as sleeping is not switched |
| Sleep.Manager.PowerCycle | internal/devicesleep/manager.go:308-342 | Off and on again; a busy board is left alone, and a failure to switch on leaves the port off |
| Sleep.Manager.Sweep | internal/devicesleep/manager.go:348-373 | Only boards that are idle, awake and unused for the timeout are switched off, each once; exactly those are returned, and with a healthy controller all of them |
| Sleep.SleepingStaysOff | internal/devicesleep/manager.go:203-373 | With every board on its own port, any run of calls, failed ones included, keeps every board recorded as sleeping off |
| Sleep.WakingNeedsItsOwnPort | internal/devicesleep/manager.go:250-266 | Waking keeps that exactly when no other sleeping board shares the port |
| Sleep.MovingNeedsAPortThatIsOff | internal/devicesleep/manager.go:161-172 | Registering keeps that exactly when the board is awake or its new port is off |
| Sleep.MarkingNeedsAPortThatIsOff | internal/devicesleep/manager.go:239-245 | Recording a board as sleeping keeps that exactly when its port is off already |
| Sleep.SweptIsNotIdle | internal/devicesleep/manager.go:348-373 | A sweep at the same instant does not switch the same boards again |
| Ports.DeduplicatePorts | internal/device/watcher.go:278-330 | The grouping and choosing loops compute the deduplicated list |
| Ports.DeduplicationKeeps | internal/device/watcher.go:271-330 | Exactly one port is kept for each tty/cu name, a cu port whenever there is one; all other ports stay in order |
| Ports.DeduplicationIsIdempotent | internal/device/watcher.go:278-330 | Deduplicating twice is deduplicating once |
| Ports.PairsAreMerged | internal/device/watcher.go:278-345 | On the paths: of /dev/cu. and /dev/tty. entries of one name (ttyUSB and ttyACM apart) exactly one is kept, a cu entry whenever there is one |
| Ports.SinglesStay | internal/device/watcher.go:278-345 | Ports of any other path are all kept, in order |
| EventQueue.Channel.Send | internal/device/watcher.go:61-67 | An event gets in exactly when fewer than ten are queued, whatever the receiver takes before; otherwise it is dropped and the queue stays |
| EventQueue.FirstThatFit | internal/device/watcher.go:61-67 | With nobody receiving, exactly the first events of a series that fit get in, in order |
| EventQueue.ReceivingOnlyHelps | internal/device/watcher.go:61-67 | Whatever the receiver takes in between, at least those get in |
| EventQueue.EverythingFitsIff | internal/device/watcher.go:61-67 | A whole series gets in exactly when it and the queued events are at most ten |
| Watcher.PortWatcher.Scan | internal/device/watcher.go:135-236 | After an unpaused successful scan the known devices are the current ones; one event for each likely new and each gone device is sent to the channel, in order, which keeps those that fit; a path leads to a device that was or is there, and to none where a device that is gone was known |
| Watcher.AllAnnouncedIff | internal/device/watcher.go:61-67 | With nobody receiving, all events of a scan get into the channel exactly when the queued events, the new boards and the gone devices are at most ten; otherwise exactly the first that fit |
| Watcher.AnnouncedWhenThereIsRoom | internal/device/watcher.go:61-67 | With that room every event gets in, whatever the receiver does |
| Watcher.NothingIsAnnouncedTwice | internal/device/watcher.go:188-220 | A device is known whether or not its event was dropped, and a scan that finds the same devices sends nothing |
| Watcher.KnownIsNotAnnounced | internal/device/watcher.go:188-194 | A known device that stays plugged in is in no later scan's announcements |
| Watcher.AnnouncementsMean | internal/device/watcher.go:188-235 | Announced are exactly the boards that were not known and look like one, as added, and the known devices that are gone, as removed |
| Watcher.KeysTellApart | internal/device/watcher.go:352-361 | Devices without serial number are told apart by path, others by serial number, vendor and product |
| Watcher.MovedBoardIsKnown | internal/device/watcher.go:188-220 | A board with a serial number that turns up at another port is neither new nor gone and keeps its record |
| BoardRow.RowFound | internal/device/watcher.go:165-186 | A scan of n serial ports with a board on each, and a serial number for each board, finds exactly these n boards |
| BoardRow.RowAnnounced | internal/device/watcher.go:188-212 | The first scan of such a row with nobody listening gets the first ten announcements into the channel; all n boards are known, so no later scan of them announces any |
| BoardRow.ScanTwice | internal/device/watcher.go:135-236 | A new watcher that scans a row twice knows all its boards, and if nobody receives during the first scan at most ten announcements have got into the channel in the end |
| BoardRow.EleventhBoardIsLost | internal/device/watcher.go:61-67 | Of eleven boards on ports of their own ten are announced, and the eleventh is not announced later |
| Watcher.KnownKeysAreCurrent | internal/device/watcher.go:186-235 | After any series of scans the known keys are those of the last scan that told something |
| Watcher.FoundByPathIff | internal/device/watcher.go:188-220 | After a scan a current device's path is in the index exactly when no device that is gone was known there, and it then leads to a current device at that path |
| Watcher.ReplacedDeviceIsForgotten | internal/device/watcher.go:216-220 | A device found where another has gone in the same scan is known, but its path is not in the index |

## Left out

- Time: deadlines are bounds on the number of reads (`polls`) and frames (`tries`); ages and timeouts are integers that are only compared; sleeps, erase timeouts and progress reports are not modelled.
- Context cancellation, closing and reopening the port, baud changes, DTR/RTS resets and stub loading: reconnecting is a step that changes the stub flag and the chip's session but not flash.
- Read errors of the port other than end of data, and short writes.
- MD5, SHA-256, deflate and inflate are parameters; inflating is assumed to undo deflating where the compressed path needs it.
- The chip: it may or may not store a block it acknowledges; claims that an acknowledgement alone supports are made for chips that do (`storesAcknowledged`), and that a download succeeds at all is claimed for chips that carry out and answer every command that fits their flash (`healthy`). A stub counts a block that is sent again once, and a digest it reports is that of its flash. In `Flasher` an acknowledgement answers the block just sent; `LateReplies` says exactly when that is so, for links that carry no other replies than those to blocks of flash data.
- Images of 2^32 bytes or more, or with compression on of that deflated length: the block loops use the length modulo 2^32 as the code does, and what is claimed about the flash contents is claimed for shorter images.
- Flasher.Flasher.FlashImages: a part flashed later may share sectors with an earlier part only outside its data; otherwise the earlier part is not claimed to survive. With the skip option on, a skipped part is claimed to have the right digest only.
- Aliasing of Go slices: padding a part with `append` may reuse the caller's array; values have no such sharing.
- Encrypted flashing flags, chip constant tables, other commands (registers, security info, erase, JEDEC identification).
- Leader.Leader.UpdateHeartbeat: cameras and flash hashes of the payload are not modelled, and a heartbeat stamps statuses from its payload, so the status mirror is not claimed across heartbeats.
- Cluster.Script: a dispatch to a device that is not in the table changes nothing here, where the source dereferences the missing record and panics (`internal/cluster/leader.go:1827-1830`).
- Calls.CallsAgree: records of the interleaved model have no identities and times, so a cleanup of unidentified boards is compared for the boards it is given; a dispatch is compared when the job channel has room.
- The status mirror under overlapping calls: hooks run after the locks are given back, so it is stated for calls one at a time.
- Device records are values in a map, not shared pointers; persistence, configuration, logging and metrics are left out. A device disabled in the configuration, whose event is ignored, is left out.
- The job queue's data and job statuses are not modelled in `Cluster`, only its mutexes; which jobs are cancelled, completed or active is arbitrary. Executor shutdown is not modelled, so submitting waits for room in the channel.
- Peer execution, HTTP, mDNS, monitors and the browser side.
- Sleep.Manager.Sweep: calls do not overlap, so the board found idle is still awake when it is switched; the background goroutine is not modelled.
- Watcher.PortWatcher.Scan: the receiver may take any number of events before each send; stopping and closing the channel is not modelled. Which ports are ignored, what a port resolves to and which boards are likely are parameters; device keys are tuples instead of formatted strings, so two devices with equal formatted keys by accident are not considered.
