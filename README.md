# orbuculum trace decoding, modelled in Dafny

orbuculum collects and decodes the trace output of ARM Cortex-M processors.
This project models the core of that decoding pipeline and proves properties of the model:

- **Deframing.** The TPIU formatter deframer (`TpiuDecoder`) splits 16-byte CoreSight formatter frames into per-stream data, following the stream-ID changes inside each frame.
- **COBS framing.** Consistent Overhead Byte Stuffing (Cheshire and Baker, IEEE/ACM Transactions on Networking 7(2), 1999) is used by the orbuculum network protocol. `Cobs` models the encoder, the streaming decoder and the simple decoder.
- **ITM and DWT packets.** The ITM packet layer (`ItmDecoder`) finds sync and assembles packets byte by byte, as Appendix D4 of the ARMv7-M Architecture Reference Manual lays them out. `MsgDecoder` turns a packet into a message. The timestamp re-sequencer (`MsgSeq`) queues messages and releases each timestamp message before them.
- **Instruction trace.** The dispatcher (`TraceDecoder`) pumps bytes into one of three engines and keeps a record of what changed in the decoded CPU state (`TraceCpu`). The engines are the MTB word-pair engine (`TraceMtb`), the ETMv3.5 byte engine (`TraceEtm35`) and the ETMv4 engine (`TraceEtm4`, after ARM IHI0064H.a). Each engine is a class clocked one byte (or word pair) at a time and proved against a step function on its registers. `TraceEtm35Run` and `TraceEtm4Run` prove facts about whole byte streams.
- **Statistics.**
  - exception nesting and timing in `Exceptions` (the RTOS support library) and `OrbTop` (orbtop's exception stack);
  - RTOS thread CPU accounting with a 32-bit cycle counter in `RtosApi`;
  - orbmortem's post-mortem ring buffer and editor command in `OrbMortem`.
- **Helpers and configuration.**
  - string escape, unescape and basename, and the report level, in `Generics`;
  - the orbtrace probe interface checks and request encodings in `OrbtraceIf`;
  - the orbtrace action flags and option checks in `OrbTrace`.
- **CMSIS-DAP gateware.** The command state machine of the orbtrace FPGA (`CmsisDap`) is modelled register by register, one clock at a time. It follows ARM's CMSIS-DAP command set.
- **Shared arithmetic.** `Bytes` holds octets, little-endian words, decimal text and `strcmp`.

**How each file is modelled.**

- *State changed in place:* a C structure whose fields change in place is a `class`, and each function that updates it is a `method`. Each method's `ensures` ties the new state to a pure step function of the old state, and lemmas prove the properties of that function. A C array is an `array`; a buffer reassigned as a whole is a `seq`.
- *Pure code:* code that only computes is modelled as functions and lemmas.
- *C integer arithmetic:* it is written out where it matters. Examples are 8-bit index wrap-around, 32-bit casts, truncating shifts and `%` on unsigned values.

Where the code as written does something evidently unintended, the model keeps a member for the code as written, a lemma with an input that shows the difference, and a corrected member that the rest of the model uses (see "## Findings").

## Model

| member | source | states |
|---|---|---|
| Cobs.Blocks | Src/cobs.c:61-91 | the code blocks of a pending run and the rest of the message hold no sync byte and are longer than the bytes they carry |
| Cobs.Encoded | Src/cobs.c:61-96 | an encoding ends with exactly one sync byte, holds none before it, and is the single sync byte exactly for the empty message |
| Cobs.Encode | Src/cobs.c:49-97 | `COBSEncode` writes the encoding of the front matter followed by the message into the frame; the combined length may not exceed COBS_OVERALL_MAX_PACKET_LEN |
| Cobs.StuffBlocks | Src/cobs.c:61-91 | the encoder loop leaves exactly the code blocks of the non-empty message in the frame, with room for the terminator |
| Cobs.EncodeByte | Src/cobs.c:66-88 | one pass of the loop keeps the frame cells in step with the encoder state: closed blocks, the pending code cell, then the open run |
| Cobs.SetCode | Src/cobs.c:90 | the final `*cp = seglen` completes the open run's block |
| Cobs.EncRunBlocks | Src/cobs.c:66-88 | after any number of bytes, the closed blocks plus the blocks of the open run and the unread bytes are the encoding's blocks |
| Cobs.EncRunRoom | Src/cobs.c:73-86 | while a run is open, its bytes and one more code byte still fit in the encoding |
| Cobs.BlocksLengthBound | Src/cobs.c:77-86 | a run is cut every 254 bytes, so the blocks are at most one code byte per started 254 bytes longer than the message |
| Cobs.BlocksLengthNoZero | Src/cobs.c:77-86 | for a message with no zero byte the blocks have exactly that length |
| Cobs.EncodedFits | Src/cobs.c:59 | every message the length check admits encodes into ENC_FRAME_LEN bytes |
| Cobs.EncodeOverrunsDeclaredFrame | Inc/cobs.h:23 | a maximal zero-free message encodes to ENC_FRAME_LEN bytes, two more than `Frame.d` declares |
| Cobs.DropSync | Src/cobs.c:191-194 | skipping leading sync bytes leaves a suffix that does not start with one |
| Cobs.Unstuff | Src/cobs.c:196-223 | a successful decode is never longer than its input |
| Cobs.SimpleDecode | Src/cobs.c:176-227 | `COBSSimpleDecode` fails with length 0 exactly when a block holds a sync byte or runs past the input; otherwise it yields the decoded frame and returns true iff the frame is non-empty |
| Cobs.SkipSync | Src/cobs.c:191-194 | the first loop stops at the first byte that is not a sync byte |
| Cobs.DecodeBlock | Src/cobs.c:196-222 | one pass of the main loop appends the block's body and its implied sync byte, or fails as the whole decode does |
| Cobs.CopyRun | Src/cobs.c:206-217 | the inner loop copies the block body, failing on a sync byte inside it |
| Cobs.UnstuffAt | Src/cobs.c:206-222 | decoding a well-formed block is its body, then a sync byte unless the code was 0xFF or the next byte is a sync, then the rest |
| Cobs.UnstuffZero | Src/cobs.c:209-214 | a sync byte inside the first block makes the whole decode fail |
| Cobs.DecodedSkipsSync | Src/cobs.c:191-194 | leading sync bytes do not change the decode |
| Cobs.UnstuffBlocks | Src/cobs.c:196-223 | decoding undoes the blocks of any pending run followed by the rest of the message |
| Cobs.DecodeEncoded | Src/cobs.c:176-227 | for every non-empty message, the one-shot decoder applied to the encoding yields the message |
| Cobs.FrameExtent | Src/cobs.c:231-243 | `COBSgetFrameExtent` returns the first sync byte within `len` bytes, else the last byte examined |
| Cobs.OnesGrowFrame | Src/cobs.c:147-150 | as written, a run of 0x01 codes stores one implicit zero per byte with no length check |
| Cobs.PumpOverrunsFrameAsWritten | Src/cobs.c:134-155 | as written, 0x01 repeated drives the frame under construction past the end of `Frame.d` |
| Cobs.PumpStepKeepsFrameBounded | Src/cobs.c:147-166 | with the length check also guarding the implicit zero, the frame never exceeds COBS_MAX_PACKET_LEN + 1 bytes |
| Cobs.PumpDeliversOnSync | Src/cobs.c:137-144 | a frame is delivered exactly when a block count expires on a sync byte, and the pump then idles |
| Cobs.PumpRejects | Src/cobs.c:158-163 | a sync byte inside a block, or an over-long frame, counts an error and returns to idle without delivering |
| Cobs.Pump.constructor | Src/cobs.c:21-33 | `COBSInit` gives an idle pump with an empty frame and no errors |
| Cobs.Pump.Step | Src/cobs.c:121-171 | one byte of `COBSPump` updates the registers and delivers the frame as PumpStep says |
| Cobs.Pump.Feed | Src/cobs.c:109-173 | `COBSPump` over a buffer updates the pump as the byte-by-byte run and delivers the frames in order |
| ItmDecoder.Shift | Src/itmDecoder.c:127 | the sync monitor shifts in the new octet as its last byte and drops its oldest |
| ItmDecoder.ForceSync | Src/itmDecoder.c:71-88 | from UNSYNCED with `isSynced`, idle with the sync count bumped and the packet emptied; from a synced state without it, UNSYNCED with the lost-sync count bumped; any other call changes nothing |
| ItmDecoder.IdleStep | Src/itmDecoder.c:148-291 | the IDLE case keeps the packet indices inside `d` and leaves the monitor alone |
| ItmDecoder.SourceHeaderStep | Src/itmDecoder.c:163-183 | a source header keeps the packet indices inside `d` |
| ItmDecoder.TimestampHeaderStep | Src/itmDecoder.c:198-214 | a timestamp header keeps the packet indices inside `d` |
| ItmDecoder.ExtensionHeaderStep | Src/itmDecoder.c:238-254 | an extension header keeps the packet indices inside `d` |
| ItmDecoder.ReservedHeaderStep | Src/itmDecoder.c:257-275 | a reserved header keeps the packet indices inside `d` |
| ItmDecoder.SourceStep | Src/itmDecoder.c:310-331 | collecting a SW or HW payload keeps the packet indices inside `d` |
| ItmDecoder.ContinuedStep | Src/itmDecoder.c:334-370 | collecting a timestamp, reserved or extension packet keeps the packet indices inside `d` |
| ItmDecoder.NISyncStep | Src/itmDecoder.c:373-382 | collecting an I-sync packet keeps the packet indices inside `d` |
| ItmDecoder.Dispatch | Src/itmDecoder.c:142-384 | every state's case keeps the packet indices inside `d` |
| ItmDecoder.Step | Src/itmDecoder.c:116-393 | `ITMPump` keeps the packet indices inside `d` in every reachable state and shifts the octet into the monitor |
| ItmDecoder.ReservedCatchesRest | Src/itmDecoder.c:257-260 | every header byte that the earlier IDLE tests miss passes the reserved test, so the error branch is never taken |
| ItmDecoder.FeedKeepsLast | Src/itmDecoder.c:127 | the monitor holds the last eight octets received, whatever it held before |
| ItmDecoder.SyncSequence | Src/itmDecoder.c:24-25 | five zero bytes then 0x80 complete the sync pattern from any monitor value |
| ItmDecoder.SyncFromAnyState | Src/itmDecoder.c:133-139 | from any state, a sync is reported exactly when the monitor ends in the pattern, and then the decoder is idle on page 0 with the sync count bumped |
| ItmDecoder.UnsyncedIgnores | Src/itmDecoder.c:144-145 | while unsynchronised, a byte that does not complete a sync changes neither state nor packet and reports nothing |
| ItmDecoder.SourceHeader | Src/itmDecoder.c:163-183 | a source header sets the address to `c >> 3`, the payload length to 1, 2 or 4 (code 3 means 4), and bit 2 selects HW over SW |
| ItmDecoder.SourceCompletes | Src/itmDecoder.c:310-331 | each payload byte is stored; the packet is complete, typed SW or HW, exactly when the payload count is reached, and the decoder idles |
| ItmDecoder.ContinuedCompletes | Src/itmDecoder.c:334-370 | timestamp, reserved and extension packets end on a byte with bit 7 clear or at MAX_PACKET bytes |
| ItmDecoder.OverflowPacket | Src/itmDecoder.c:190-195 | 0x70 in IDLE counts an overflow and reports ITM_EV_OVERFLOW |
| ItmDecoder.Decoder.constructor | Src/itmDecoder.c:33-39 | `ITMDecoderCreate` gives a zero-filled, unsynchronised decoder |
| ItmDecoder.Decoder.Init | Src/itmDecoder.c:41-52 | `ITMDecoderInit` loads SYNCMASK, empties the packet on page 7, applies the requested sync and zeroes the statistics |
| ItmDecoder.Decoder.ForceSyncTo | Src/itmDecoder.c:71-88 | the decoder's new state is ForceSync of its old state |
| ItmDecoder.Decoder.IsSynced | Src/itmDecoder.c:60-64 | synchronised iff not UNSYNCED |
| ItmDecoder.Decoder.GetPacket | Src/itmDecoder.c:90-102 | a packet is available exactly while IDLE, and it is the packet under construction |
| ItmDecoder.Image | Inc/itmDecoder.h:83-92 | the 24 bytes of a packet in memory: the type code, source address, length and page register, then the data bytes at offset 7 |
| ItmDecoder.Parse | Inc/itmDecoder.h:83-92 | reading a packet from its bytes takes the address, length, page register and data from their offsets |
| ItmDecoder.ParseImage | Inc/itmDecoder.h:83-92 | reading back the image of a packet gives the same packet |
| ItmDecoder.CopyPacketAsWritten | Src/itmDecoder.c:100 | the copy of `ITMGetPacket` as written puts the packet's image at the caller's `d`, offset 7, leaves the seven bytes before it alone and changes nothing past the image |
| ItmDecoder.CopyPacketAsWrittenOverruns | Src/itmDecoder.c:100 | the caller's type and length are never set and the last seven bytes of the image land past the caller's packet; a one-octet packet reads back with length 0 |
| ItmDecoder.CopyPacket | Src/itmDecoder.c:100 | the intended copy: the caller reads back exactly the packet under construction and nothing past the caller's packet changes |
| ItmDecoder.Decoder.Pump | Src/itmDecoder.c:116-393 | the decoder's new state and the event are those of Step |
| ItmDecoder.Decoder.PumpDispatch | Src/itmDecoder.c:142-384 | the `switch` updates the decoder as Dispatch |
| ItmDecoder.Decoder.PumpIdle | Src/itmDecoder.c:148-291 | the IDLE case updates the decoder as IdleStep |
| ItmDecoder.Decoder.PumpContinued | Src/itmDecoder.c:334-370 | the TS, RSVD and XTN cases update the decoder as ContinuedStep |
| ItmDecoder.Decoder.PumpSourceHeader | Src/itmDecoder.c:163-183 | updates the decoder as SourceHeaderStep |
| ItmDecoder.Decoder.PumpTimestampHeader | Src/itmDecoder.c:198-214 | updates the decoder as TimestampHeaderStep |
| ItmDecoder.Decoder.PumpExtensionHeader | Src/itmDecoder.c:238-254 | updates the decoder as ExtensionHeaderStep |
| ItmDecoder.Decoder.PumpReservedHeader | Src/itmDecoder.c:257-275 | updates the decoder as ReservedHeaderStep |
| MsgDecoder.HandleException | Src/msgDecoder.c:25-33 | an exception message carries the 9-bit exception number (low byte from the first payload byte) and a 4-bit event type from the top nibble of the second |
| MsgDecoder.HandleDWTEvent | Src/msgDecoder.c:35-41 | a DWT event keeps bits 0-3 and 5 of the second payload byte, so the event is at most 0x2F and is at least 0x20 exactly when bit 5 is set |
| MsgDecoder.HandlePCSample | Src/msgDecoder.c:43-58 | a one-byte sample means the core sleeps and carries no PC; otherwise the PC's little-endian bytes are the first four payload bytes |
| MsgDecoder.Comparator | Src/msgDecoder.c:66 | the comparator number is bits 1-2 of the source address, below 4 |
| MsgDecoder.HandleDataRWWP | Src/msgDecoder.c:60-84 | a data trace message names the comparator and the read/write bit, and its data is one, two or four little-endian payload bytes by packet length |
| MsgDecoder.HandleDataAccessWP | Src/msgDecoder.c:86-95 | a watchpoint access message names the comparator and carries the four payload bytes little-endian |
| MsgDecoder.HandleDataOffsetWP | Src/msgDecoder.c:97-106 | an offset message names the comparator and carries a 16-bit little-endian offset |
| MsgDecoder.HandleHW | Src/msgDecoder.c:108-147 | a hardware packet decodes exactly when its address is 0, 1, 2 or its masked address is 0x10, 0x11, 0x08 or 0x09, each to its own message kind; otherwise nothing is decoded and the message stays MSG_NONE |
| MsgDecoder.HandleSW | Src/msgDecoder.c:149-164 | a software message keeps channel and length and its value's little-endian bytes are the first four payload bytes |
| MsgDecoder.HandleNISync | Src/msgDecoder.c:166-177 | a synchronisation message carries the type byte and an even address whose bytes are payload bytes 1-4 with bit 0 cleared |
| MsgDecoder.TimeGroups | Src/msgDecoder.c:191-205 | the format-1 timestamp is assembled from up to four 7-bit groups and stays below 2^28 |
| MsgDecoder.TimeInc | Src/msgDecoder.c:193-205 | the corrected format-1 increment is the concatenation of the 7-bit groups |
| MsgDecoder.HandleTS | Src/msgDecoder.c:179-210 | corrected, format 2 (bit 7 clear) gives the increment from the top nibble and no status; format 1 gives status bits 4-5 and the 7-bit group increment |
| MsgDecoder.Decode | Src/msgDecoder.c:218-262 | corrected, a packet decodes exactly for timestamp, software, hardware (known address) and sync packets; empty, extension and reserved packets yield MSG_NONE, MSG_UNKNOWN and MSG_RESERVED undecoded |
| MsgDecoder.SoftwareRoundTrip | Src/msgDecoder.c:149-164 | a software packet whose payload is the little-endian form of v decodes to a message with value v |
| MsgDecoder.NISyncRoundTrip | Src/msgDecoder.c:166-177 | a sync packet carrying the bytes of an even address decodes to that address |
| MsgDecoder.ExceptionRoundTrip | Src/msgDecoder.c:25-33 | every 9-bit exception number and 4-bit event encoded on source address 1 decodes back to the same pair |
| MsgDecoder.PCSampleRoundTrip | Src/msgDecoder.c:43-58 | a PC sample packet of more than one byte decodes back to the PC it carries |
| MsgDecoder.TimestampRoundTrip | Src/msgDecoder.c:179-210 | every 2-bit status and 28-bit increment encoded as a five-byte format-1 packet decodes back to the same pair |
| MsgDecoder.TimestampFields | Src/msgDecoder.c:187-205 | the five-byte encoding sets bit 7 of the header and its fields read back as status and increment |
| MsgDecoder.SevenBitGroups | Src/msgDecoder.c:193-203 | any value below 2^28 is the sum of its four 7-bit groups |
| MsgDecoder.Format2Timestamp | Src/msgDecoder.c:187-189 | a header with bit 7 clear decodes to a status-less increment of its top nibble |
| MsgDecoder.TimeIncAsWrittenSetsBit14 | Src/msgDecoder.c:196 | with the unmasked third byte (continuation bit set) the packet C0 81 80 02 decodes to 0xC001 instead of 0x8001 |
| MsgDecoder.UndecodedKinds | Src/msgDecoder.c:218-262 | the decoder reports failure exactly when the message kind is none, unknown or reserved |
| TpiuDecoder.Monitor | Src/tpiuDecoder.c:189 | the monitor keeps the last four bytes: the oldest drops out and the new byte is last |
| TpiuDecoder.SyncPatternDetected | Src/tpiuDecoder.c:189-191 | the bytes FF FF FF 7F leave the full sync pattern in the monitor whatever came before |
| TpiuDecoder.DecodeCommsStats | Src/tpiuDecoder.c:171-180 | the pending count, lost frames and total frames are the little-endian fields at bytes 1-2, 6-7 and 8-11; the LEDs are byte 5 |
| TpiuDecoder.SyncStep | Src/tpiuDecoder.c:191-222 | a full sync restarts the frame at byte 0 in RXING, counts a sync and reports NEWSYNC from UNSYNCED and SYNCED otherwise |
| TpiuDecoder.RxStep | Src/tpiuDecoder.c:231-279 | a low byte is stored and waits for its partner; the high byte always clears the pair flag; the frame index stays inside the buffer |
| TpiuDecoder.Step | Src/tpiuDecoder.c:182-288 | each byte shifts the monitor and keeps the frame index inside the buffer |
| TpiuDecoder.ForcedSync | Src/tpiuDecoder.c:80-95 | a forced sync receives from the given offset, counts a sync only when the decoder was unsynced and changes nothing else |
| TpiuDecoder.SyncFromAnyState | Src/tpiuDecoder.c:191-222 | from every state a completed sync pattern restarts the frame; the event is NEWSYNC exactly when the decoder was unsynced |
| TpiuDecoder.UnsyncedIgnores | Src/tpiuDecoder.c:227-228 | unsynced, a byte that does not complete the pattern only shifts the monitor |
| TpiuDecoder.HalfSyncDropped | Src/tpiuDecoder.c:243-248 | a 7F completing a stored FF is counted as a half-sync and nothing is stored |
| TpiuDecoder.FrameCompletes | Src/tpiuDecoder.c:250-279 | a completed pair is stored; before the end of the frame it reports RXING; at the end it restarts the frame and reports a packet when in time and loss of sync (going UNSYNCED) otherwise |
| TpiuDecoder.PairStep | Src/tpiuDecoder.c:113-159 | one pair yields at most two data bytes, none on stream 0; an odd first byte selects stream `byte/2`, an even one keeps the stream |
| TpiuDecoder.Deframe | Src/tpiuDecoder.c:113-159 | the pairs of a frame yield at most fifteen data bytes, none on stream 0 |
| TpiuDecoder.StreamChange | Src/tpiuDecoder.c:115-155 | an immediate stream change tags its pair's data byte with the new stream, a delayed one with the old stream |
| TpiuDecoder.LowBitsFrom | Src/tpiuDecoder.c:111 | the low bits of the remaining pairs fit the bits the last byte holds for them |
| TpiuDecoder.LowBitsStep | Src/tpiuDecoder.c:158 | shifting the last byte right after a pair leaves the low bits of the later pairs |
| TpiuDecoder.Format | Src/tpiuDecoder.c:97-162 | the frame an ID byte and fourteen data bytes produce is laid out as the deframing loop reads it |
| TpiuDecoder.FormatRoundTrip | Src/tpiuDecoder.c:97-162 | deframing a formatted frame gives back all fourteen data bytes on the stream it selects |
| TpiuDecoder.PairBytes | Src/tpiuDecoder.c:139-148 | every pair after the first gives two data bytes, the last pair one |
| TpiuDecoder.TaggedPrefix | Src/tpiuDecoder.c:132-146 | the first `n` data bytes, each tagged with the selected stream |
| TpiuDecoder.FormatPair | Src/tpiuDecoder.c:113-159 | a pair of a formatted frame restores its low bit and gives back its data bytes on the same stream |
| TpiuDecoder.FormatFirstPair | Src/tpiuDecoder.c:113-159 | the first pair of a formatted frame selects its stream and gives back the first data byte |
| TpiuDecoder.FormatPrefix | Src/tpiuDecoder.c:113-159 | the first `k` pairs of a formatted frame give back its first `2k - 1` data bytes, all fourteen at the end |
| TpiuDecoder.FormatNextPair | Src/tpiuDecoder.c:113-159 | one more pair extends what is given back by two bytes, one for the last pair |
| TpiuDecoder.TaggedPrefixExtend | Src/tpiuDecoder.c:132-146 | the bytes a pair gives back continue the tagged prefix |
| TpiuDecoder.Decoder.constructor | Src/tpiuDecoder.c:40-62 | a zero-filled instance, then reset: unsynced, empty monitor, no statistics |
| TpiuDecoder.Decoder.Init | Src/tpiuDecoder.c:48-62 | reset to UNSYNCED with an empty monitor and zeroed statistics, all else unchanged |
| TpiuDecoder.Decoder.ZeroStats | Src/tpiuDecoder.c:64-68 | only the statistics are zeroed |
| TpiuDecoder.Decoder.Synced | Src/tpiuDecoder.c:70-73 | synced exactly when the state is not UNSYNCED |
| TpiuDecoder.Decoder.ForceSync | Src/tpiuDecoder.c:80-95 | the new state is the forced sync of the old one |
| TpiuDecoder.Decoder.GetPacket | Src/tpiuDecoder.c:97-162 | refuses (changing nothing) while a frame is in progress; otherwise returns the deframed data bytes with their streams and updates only the current stream |
| TpiuDecoder.Decoder.TakePair | Src/tpiuDecoder.c:113-159 | one loop pass yields the pair's bytes and stream as the pair function says |
| TpiuDecoder.Decoder.Pump | Src/tpiuDecoder.c:182-288 | the new state and event are those of the byte step of the old state |
| TpiuDecoder.Decoder.PumpSync | Src/tpiuDecoder.c:191-222 | the new state and event are those of the sync step |
| TpiuDecoder.Decoder.PumpRxing | Src/tpiuDecoder.c:231-279 | the new state and event are those of the receiving step |
| MsgSeq.Next | Src/msgSeq.c:50 | the next slot of a ring of `n` slots stays inside the ring |
| MsgSeq.Count | Src/msgSeq.c:50-55 | the number of slots from reader to writer is below `n`, zero exactly when they meet, and reaches the writer, wrapping at most once |
| MsgSeq.Queue | Src/msgSeq.c:76-97 | the queued messages number exactly the slots from reader to writer |
| MsgSeq.QueueFrame | Src/msgSeq.c:40 | writing the free slot at `wp` leaves the queue unchanged |
| MsgSeq.QueueAppend | Src/msgSeq.c:40-55 | writing the free slot and advancing the writer appends exactly that message to the queue |
| MsgSeq.QueuePop | Src/msgSeq.c:88-96 | a non-empty queue starts at the read slot, and advancing the reader drops exactly that message |
| MsgSeq.Sequencer.constructor | Src/msgSeq.c:65-74 | a new sequencer reads from the given ITM decoder with an empty queue and no held timestamp |
| MsgSeq.Sequencer.BufferPacket | Src/msgSeq.c:27-57 | nothing decoded: nothing changes; a timestamp is held for release first; any other message is appended to the queue, the answer says the queue is one short of full, and a timestamp still held is overwritten, the next slot becoming the one held |
| MsgSeq.Sequencer.GetPacket | Src/msgSeq.c:76-97 | a held timestamp comes first and leaves the queue alone; else the oldest queued message is removed and returned; else nothing |
| MsgSeq.Sequencer.Pump | Src/msgSeq.c:99-141 | the ITM decoder takes its byte step; only a completed packet that decodes is buffered, as above, and every other event leaves the buffer alone |
| TraceCpu.ChangeIndex | Inc/traceDecoder.h:45-81 | the flags take the values 0 to 32 in order, and only EV_CH_EVENT3 takes 32 |
| TraceCpu.StateChanged | Src/traceDecoder.c:75-80 | the answer is whether the flag was raised; the flag is lowered and every other flag is kept |
| TraceCpu.RaiseThenAsk | Src/traceDecoder.c:75-80 | a flag raised by the engine is then reported as raised, and asking lowers only it |
| TraceCpu.MaskAsWritten | Src/traceDecoder_etm35.c:76-79 | the bit the engine ORs into the 32-bit change record for a flag |
| TraceCpu.Event3HasNoBit | Src/traceDecoder_etm35.c:76-79 | every flag but EV_CH_EVENT3 has a bit of its own in the 32-bit record; EV_CH_EVENT3 has none, so raising it is lost |
| TraceCpu.U64 | Inc/traceDecoder.h:106-116 | a `uint64_t` field keeps its value modulo 2^64 |
| TraceCpu.Put32 | Src/traceDecoder_etm35.c:747 | a field replacement in a 32-bit construction register stays within 32 bits |
| TraceCpu.Put64 | Src/traceDecoder_etm4.c:659-664 | a field replacement in a 64-bit register stays within 64 bits |
| TraceDecoder.ExceptionName | Src/traceDecoder.c:66-72 | the name is "IRQ" exactly from 16 up and "???" exactly for the reserved numbers 0, 8, 9, 10 and 13 |
| TraceDecoder.MtbRun | Src/traceDecoder.c:126-141 | the MTB engine reports at most once per eight bytes of the buffer |
| TraceDecoder.MtbIgnoresRemainder | Src/traceDecoder.c:128-140 | fewer than eight trailing bytes make no difference to the MTB engine |
| TraceDecoder.MtbRunFirst | Src/traceDecoder.c:128-140 | the first eight bytes are one source/destination pair, little-endian, and the rest continues from the state it leaves |
| TraceDecoder.Etm35Byte | Src/traceDecoder.c:116-123 | one byte through the ETMv3.5 engine agrees with the run over the buffer from there on, reporting when the engine says so |
| TraceDecoder.Etm4Byte | Src/traceDecoder.c:116-123 | one byte through the ETMv4 engine agrees with the run over the buffer from there on |
| TraceDecoder.Etm35Bytes | Src/traceDecoder.c:114-124 | feeding a buffer byte by byte leaves the ETMv3.5 engine, the processor state and the reports of its run |
| TraceDecoder.MtbPairs | Src/traceDecoder.c:126-141 | feeding a buffer eight bytes at a time leaves the MTB engine, the processor state and the reports of its run |
| TraceDecoder.Etm4Bytes | Src/traceDecoder.c:114-124 | feeding a buffer byte by byte leaves the ETMv4 engine, the processor state and the reports of its run |
| TraceDecoder.Decoder.constructor | Src/traceDecoder.c:144-165 | zero statistics, the initial processor state with unknown address and cycle count, an unsynced engine for the protocol, told the address encoding when it has the choice |
| TraceDecoder.Decoder.IsSynced | Src/traceDecoder.c:47-53 | synced exactly when the engine of the protocol is out of its unsynced state |
| TraceDecoder.Decoder.ZeroStats | Src/traceDecoder.c:40-45 | the statistics are zeroed and the processor state kept |
| TraceDecoder.Decoder.StateChanged | Src/traceDecoder.c:75-80 | answers and updates the change record as the record function says and changes nothing else |
| TraceDecoder.Decoder.ForceSync | Src/traceDecoder.c:82-103 | a forced sync always counts a sync, a forced loss counts only when the engine was synced, and the engine ends in the state asked for |
| TraceDecoder.Decoder.Pump | Src/traceDecoder.c:105-142 | the buffer runs through the engine of the protocol; engine, processor state and the list of reports are those of the run, and statistics are kept |
| TraceMtb.ClearBit0 | Src/traceDecoder_mtb.c:91 | masking with 0xFFFFFFFE gives an even 32-bit value, the value less its bit 0 when it already fits 32 bits |
| TraceMtb.NextAddr | Src/traceDecoder_mtb.c:65 | the resume address is the destination with bit 0 taken from the source |
| TraceMtb.FirstPair | Src/traceDecoder_mtb.c:62-74 | unsynced, only the resume address changes, and TRACESTART is raised exactly when the destination's bit 0 is set |
| TraceMtb.LinearPair | Src/traceDecoder_mtb.c:78-98 | the run goes from the previous resume address (bit 0 cleared) to the source (bit 0 cleared), exception zero; ADDRESS and LINEAR are raised, EX_ENTRY exactly when the previous resume address was odd, TRACESTART exactly when the destination is odd, and nothing else |
| TraceMtb.PairStep | Src/traceDecoder_mtb.c:46-113 | every pair leaves the engine idle, and there is something to report exactly when it was idle already |
| TraceMtb.LinearRun | Src/traceDecoder_mtb.c:58-98 | of two pairs in a row, the second reports the run from the first destination to the second source, flagged as exception entry exactly when the first source was odd (or, already idle, the earlier resume address was) |
| TraceMtb.Engine.constructor | Src/traceDecoder_mtb.c:147-157 | a new engine is unsynced |
| TraceMtb.Engine.Synced | Src/traceDecoder_mtb.c:125-130 | synced exactly when not in the unsynced state |
| TraceMtb.Engine.ForceSync | Src/traceDecoder_mtb.c:133-137 | afterwards the engine is synced exactly when asked to be |
| TraceMtb.Engine.ActionPair | Src/traceDecoder_mtb.c:46-113 | the new engine state, processor state and report are those of the pair step |
| TraceEtm35.Terminate | Src/traceDecoder_etm35.c:452-489 | an address ends without continuation or at its fifth byte: then the processor address is the assembled one and the machine goes idle (reporting) or to exception collection; otherwise it keeps collecting and the address is unchanged |
| TraceEtm35.LegacyException | Src/traceDecoder_etm35.c:459-469 | a continued fifth ARM byte carries exception bits 6:4, raises EX_ENTRY, and CANCELLED exactly when bit 6 is set |
| TraceEtm35.ExceptionFollows | Src/traceDecoder_etm35.c:479-486 | an address followed by exception bytes raises EX_ENTRY and clears the resume field |
| TraceEtm35.FirstAddrBits | Src/traceDecoder_etm35.c:128-141 | the first address bits land in a 32-bit construction register |
| TraceEtm35.BranchStep | Src/traceDecoder_etm35.c:124-149 | a branch header raises ADDRESS; without continuation it reports at once with the assembled address, otherwise it collects further bytes in the encoding in use |
| TraceEtm35.AltStep | Src/traceDecoder_etm35.c:422-435 | a byte in the alternative encoding continues collecting, or ends the address (idle or exception bytes next) |
| TraceEtm35.StdStep | Src/traceDecoder_etm35.c:439-446 | a byte in the standard encoding continues collecting, or ends the address (idle or exception bytes next) |
| TraceEtm35.ExceptionStep | Src/traceDecoder_etm35.c:493-560 | exception bytes continue or end the packet, and it reports exactly when it goes idle |
| TraceEtm35.VmidStep | Src/traceDecoder_etm35.c:566-576 | the VMID byte is taken, VMID is raised exactly when it differs, and the packet reports |
| TraceEtm35.TStampStep | Src/traceDecoder_etm35.c:582-604 | a timestamp ends on a byte with bit 7 clear or at the ninth byte, then the timestamp is taken and TSTAMP raised |
| TraceEtm35.CycleBits | Src/traceDecoder_etm35.c:611 | a cycle count byte's seven bits land in the 32-bit construction register |
| TraceEtm35.CycleCountStep | Src/traceDecoder_etm35.c:610-624 | a cycle count ends on bit 7 clear or at the fifth byte with the count taken and CYCLECOUNT raised; until then the processor state is untouched |
| TraceEtm35.ICycleCountStep | Src/traceDecoder_etm35.c:799-815 | the cycle count of an I-sync never reports; once complete the context or information byte is next |
| TraceEtm35.ContextBits | Src/traceDecoder_etm35.c:632 | a context byte is added in at its byte position, within 32 bits |
| TraceEtm35.TakeContext | Src/traceDecoder_etm35.c:637-641 | the context is taken and CONTEXTID raised exactly when it differs |
| TraceEtm35.ContextIdStep | Src/traceDecoder_etm35.c:631-648 | a context ID packet reports and goes idle exactly when its byte count reaches the configured length |
| TraceEtm35.ContextByteStep | Src/traceDecoder_etm35.c:673-688 | an I-sync context byte never reports; after the last one the information byte is next |
| TraceEtm35.DecodeInfo | Src/traceDecoder_etm35.c:692-727 | the information byte read as laid out by the architecture: bit 7 load/store in progress, bits 6:5 reason, bits 4 to 1 Jazelle, non-secure, alternative ISA and hypervisor |
| TraceEtm35.DecodeInfoAsWritten | Src/traceDecoder_etm35.c:692-727 | with the masks as written only bit 4 of the byte is read, and it lands in the hypervisor flag although the architecture puts Jazelle there; every other field reads zero |
| TraceEtm35.InfoAsWrittenLosesLSiP | Src/traceDecoder_etm35.c:693-727 | with the masks as written the byte 0x80 is read as no load/store in progress, although it announces one, and 0x10 (Jazelle) is read as hypervisor mode |
| TraceEtm35.InfoChanges | Src/traceDecoder_etm35.c:692-727 | exactly the flags of the fields that differ from the processor state are raised |
| TraceEtm35.TakeInfo | Src/traceDecoder_etm35.c:692-727 | every field of the information byte is taken and the flags of the changed ones raised |
| TraceEtm35.InfoByteStep | Src/traceDecoder_etm35.c:692-742 | the information byte is taken; in data-only mode the packet reports and goes idle, otherwise the address follows |
| TraceEtm35.ThumbOrArm | Src/traceDecoder_etm35.c:761-780 | bit 0 of the I-sync address selects Thumb (address with bit 0 cleared) or ARM (bits 1:0 cleared) |
| TraceEtm35.IAddressCpu | Src/traceDecoder_etm35.c:750-780 | the complete I-sync address raises ADDRESS; in Jazelle it is taken whole |
| TraceEtm35.IAddressStep | Src/traceDecoder_etm35.c:746-795 | the first three address bytes only collect, without touching the processor state |
| TraceEtm35.IAddressLast | Src/traceDecoder_etm35.c:750-795 | after the fourth byte the address is taken; with a load/store in progress a branch address follows, otherwise the packet reports |
| TraceEtm35.WaitISyncStep | Src/traceDecoder_etm35.c:655-669 | waiting for an I-sync skips every other byte and reports sync exactly on the first I-sync header |
| TraceEtm35.WithAtoms | Src/traceDecoder_etm35.c:296-302 | the atoms are recorded, counted into the instructions executed, and ENATOMS raised |
| TraceEtm35.PHeader | Src/traceDecoder_etm35.c:293-323 | a format-1 header gives `(c >> 2) & 0xF` executed atoms and at most one not executed, a disposition of that many ones, counted into the instructions; any other byte changes nothing |
| TraceEtm35.PHeaderFormat2 | Src/traceDecoder_etm35.c:308-323 | a format-2 header has two atoms, the first executed when bit 3 is clear and the second when bit 2 is |
| TraceEtm35.WithWaitAtoms | Src/traceDecoder_etm35.c:329-406 | the atoms and wait atoms are recorded and ENATOMS and WATOMS raised |
| TraceEtm35.PHeaderCA | Src/traceDecoder_etm35.c:329-410 | a cycle-accurate header raises ENATOMS and WATOMS with at most eight atoms; any other byte changes nothing |
| TraceEtm35.PHeaderCAFormat4 | Src/traceDecoder_etm35.c:392-407 | 0x92 and 0x96 are format 4, one atom (executed for 0x96) and no wait with the instruction count unchanged; 0x9A is not a cycle-accurate header |
| TraceEtm35.HeaderStep | Src/traceDecoder_etm35.c:155-284 | the cycle count headers start collecting from zero without reporting |
| TraceEtm35.ISyncStep | Src/traceDecoder_etm35.c:175-192 | an I-sync header marks the I-sync received and never reports; the first one since sync was lost clears the change record |
| TraceEtm35.IdleStep | Src/traceDecoder_etm35.c:119-415 | in IDLE the I-sync flag is set exactly by an I-sync header |
| TraceEtm35.Dispatch | Src/traceDecoder_etm35.c:111-817 | the I-sync flag is set only by an I-sync header in IDLE or WAIT_ISYNC, and the configuration is kept |
| TraceEtm35.Step | Src/traceDecoder_etm35.c:87-831 | after five zero bytes a 0x80 goes idle and changes nothing else; otherwise the zero count grows on zero and restarts on any other byte; reports only once an I-sync was received; configuration kept |
| TraceEtm35.ForceSync | Src/traceDecoder_etm35.c:861-871 | forcing sync goes idle and changes nothing else; forcing loss goes unsynced and forgets the zero count and the I-sync |
| TraceEtm35.Engine.constructor | Src/traceDecoder_etm35.c:881-892 | a new engine is all zero and unsynced |
| TraceEtm35.Engine.Synced | Src/traceDecoder_etm35.c:844-849 | synced exactly when not in the unsynced state |
| TraceEtm35.Engine.SetAltAddrEncode | Src/traceDecoder_etm35.c:853-857 | only the address encoding changes |
| TraceEtm35.Engine.ForceSyncTo | Src/traceDecoder_etm35.c:861-871 | the registers become the forced-sync ones and the engine is synced exactly when asked |
| TraceEtm35.Engine.Pump | Src/traceDecoder_etm35.c:87-831 | registers, processor state and report are those of the byte step |
| TraceEtm35.Engine.PumpDispatch | Src/traceDecoder_etm35.c:111-817 | the dispatch function's registers, processor state and report |
| TraceEtm35.Engine.PumpIdle | Src/traceDecoder_etm35.c:119-415 | the IDLE step's registers, processor state and report |
| TraceEtm35.Engine.PumpBranch | Src/traceDecoder_etm35.c:124-149 | the branch header step |
| TraceEtm35.Engine.TerminateAddr | Src/traceDecoder_etm35.c:452-489 | the address termination step |
| TraceEtm35.Engine.PumpAlt | Src/traceDecoder_etm35.c:422-435 | the alternative-encoding address step |
| TraceEtm35.Engine.PumpStd | Src/traceDecoder_etm35.c:439-446 | the standard-encoding address step |
| TraceEtm35.Engine.PumpException | Src/traceDecoder_etm35.c:493-560 | the exception byte step |
| TraceEtm35.Engine.PumpVmid | Src/traceDecoder_etm35.c:566-576 | the VMID step |
| TraceEtm35.Engine.PumpTStamp | Src/traceDecoder_etm35.c:582-604 | the timestamp step |
| TraceEtm35.Engine.PumpCycleCount | Src/traceDecoder_etm35.c:610-624 | the cycle count step |
| TraceEtm35.Engine.PumpICycleCount | Src/traceDecoder_etm35.c:799-815 | the I-sync cycle count step |
| TraceEtm35.Engine.PumpContextId | Src/traceDecoder_etm35.c:631-648 | the context ID step |
| TraceEtm35.Engine.PumpContextByte | Src/traceDecoder_etm35.c:673-688 | the I-sync context byte step |
| TraceEtm35.Engine.PumpInfoByte | Src/traceDecoder_etm35.c:692-742 | the information byte step, with the byte read as the architecture lays it out |
| TraceEtm35.Engine.PumpIAddress | Src/traceDecoder_etm35.c:746-795 | the I-sync address step |
| TraceEtm35.Engine.PumpIAddressLast | Src/traceDecoder_etm35.c:750-795 | the last I-sync address byte step |
| TraceEtm35.Engine.PumpWaitISync | Src/traceDecoder_etm35.c:655-669 | the WAIT_ISYNC step |
| TraceEtm35.Engine.PumpISync | Src/traceDecoder_etm35.c:175-192 | the I-sync header step |
| TraceEtm35.Engine.PumpHeader | Src/traceDecoder_etm35.c:155-284 | the other header steps |
| TraceEtm35Run.Run | Src/traceDecoder.c:116-123 | the ETMv3.5 engine fed a stream keeps its invariant, reports at most once per byte, never loses the I-sync flag, and reports only once an I-sync was received |
| TraceEtm35Run.RunFirst | Src/traceDecoder.c:116-123 | the first byte is one engine step, its report if any comes first, and the rest runs from the state it leaves |
| TraceEtm35Run.ZerosThenSync | Src/traceDecoder_etm35.c:102-109 | enough zero bytes and then 0x80 leave the machine idle whatever state it was in |
| TraceEtm35Run.NothingBeforeISync | Src/traceDecoder_etm35.c:655-669 | until an I-sync header byte arrives nothing is reported and the machine still has no I-sync |
| TraceEtm35Run.Sum7Below | Src/traceDecoder_etm35.c:611 | `k` seven-bit groups stay below 2^(7k) |
| TraceEtm35Run.CycleBitsAppend | Src/traceDecoder_etm35.c:611 | one more cycle count byte extends the value assembled so far by its seven bits |
| TraceEtm35Run.CycleCountByte | Src/traceDecoder_etm35.c:610-624 | one cycle count byte inserts its seven bits, and ends the packet on bit 7 clear or at the fifth byte, taking the count and raising CYCLECOUNT |
| TraceEtm35Run.CycleCountBytes | Src/traceDecoder_etm35.c:610-624 | the remaining bytes of a cycle count packet complete it with the count their seven-bit groups make, reporting once if an I-sync was received |
| TraceEtm35Run.CycleCountPacket | Src/traceDecoder_etm35.c:163-170 | a 0x04 header and up to five value bytes set the cycle count to their seven-bit value (modulo 2^32) and go idle |
| TraceEtm4.U8 | Src/traceDecoder_etm4.c:620 | a `uint8_t` index keeps its value below 256 and loses 256 above it |
| TraceEtm4.InitInv | Src/traceDecoder_etm4.c:1013-1023 | the zero-filled engine is unsynced, without I-sync, and keeps the register widths |
| TraceEtm4.StackQ | Src/traceDecoder_etm4.c:155-161 | pushing keeps three entries |
| TraceEtm4.StackQKeeps | Src/traceDecoder_etm4.c:155-161 | after a push entries 0 and 1 are found one place further down, entry 0 is still there, and 64-bit addresses stay 64-bit |
| TraceEtm4.Flushed | Src/traceDecoder_etm4.c:146-151 | after a flush every entry is address 0 in the word-aligned set |
| TraceEtm4.AlignLow | Src/traceDecoder_etm4.c:421-500 | aligning an address clears its bits below 2 or 4 and its upper word, never increasing it |
| TraceEtm4.AtomFormat | Src/traceDecoder_etm4.c:207-366 | every header byte from 0xC0 up is one of the six atom formats |
| TraceEtm4.AtomFields | Src/traceDecoder_etm4.c:207-366 | the executed and not-executed counts, the 32-bit disposition and the instruction count of each atom format; its promises are stated by AtomsConsistent |
| TraceEtm4.Atoms | Src/traceDecoder_etm4.c:207-366 | an atom packet reports, raising ENATOMS, exactly when an address is known, and leaves address and cycle count alone; the fields it records keep the promises of AtomsConsistent |
| TraceEtm4.RecordAtoms | Src/traceDecoder_etm4.c:208-221 | the atom counts, disposition and instruction count are recorded, ENATOMS raised exactly when an address is known |
| TraceEtm4.AtomsConsistent | Src/traceDecoder_etm4.c:207-366 | every atom packet keeps the promises of its format: as many atoms as the format's number (three to 23 for format 6), and a 32-bit disposition whose set bits are exactly the executed atoms among the first 32 |
| TraceEtm4.AtomFormat1 | Src/traceDecoder_etm4.c:207-221 | format 1 carries one atom, counted into the instructions |
| TraceEtm4.AtomFormat2 | Src/traceDecoder_etm4.c:223-238 | format 2 carries two atoms |
| TraceEtm4.AtomFormat3 | Src/traceDecoder_etm4.c:240-255 | format 3 carries three atoms |
| TraceEtm4.AtomFormat4 | Src/traceDecoder_etm4.c:257-292 | format 4 carries four atoms |
| TraceEtm4.AtomFormat5 | Src/traceDecoder_etm4.c:294-335 | format 5 carries five atoms |
| TraceEtm4.AtomFormat6 | Src/traceDecoder_etm4.c:337-366 | format 6 carries `(c & 0x1F) + 3` atoms, and as its header bytes have `c & 0x1F` at most 20 that is three to 23; at most the last is not executed, the instruction count becomes that number, and the disposition is `(1 << eatoms) - 1` exactly, so the cut to 32 bits never takes effect |
| TraceEtm4.Events | Src/traceDecoder_etm4.c:373-394 | an event packet raises EVENT0 to EVENT3 exactly for its set low bits |
| TraceEtm4.ExactMatch | Src/traceDecoder_etm4.c:401-407 | an exact-match packet leaves the engine registers unchanged |
| TraceEtm4.ExactMatchFindsQueue | Src/traceDecoder_etm4.c:401-407 | indices 0 to 2 report the queue entry's address and raise ADDRESS; the reserved index 3 changes nothing |
| TraceEtm4.ExactMatchAsWritten | Src/traceDecoder_etm4.c:401-407 | as written the guard always passes and the queue is read at `c & 3`, in range only below the queue length |
| TraceEtm4.ExactMatchAsWrittenOverruns | Src/traceDecoder_etm4.c:403-404 | the header 0x93 passes the guard and reads a fourth entry of a three-entry queue |
| TraceEtm4.ShortHeader | Src/traceDecoder_etm4.c:409-419 | a short address header pushes the queue and collects the low address bits next |
| TraceEtm4.LongHeader | Src/traceDecoder_etm4.c:421-502 | a long address header pushes the queue, notes whether context follows (headers below 0x90), and collects a 32- or 64-bit address by header |
| TraceEtm4.IdleCpu | Src/traceDecoder_etm4.c:373-553 | the flag-only header bytes report, except event packets, and keep address and cycle count |
| TraceEtm4.Goto | Src/traceDecoder_etm4.c:975 | only the protocol state changes |
| TraceEtm4.IdleOther | Src/traceDecoder_etm4.c:197-563 | payload headers never report and keep the queue; 0x08 drops the I-sync and goes unsynced |
| TraceEtm4.IdleStep | Src/traceDecoder_etm4.c:197-563 | in IDLE only the resynchronisation byte 0x08 drops the I-sync, and then the engine is unsynced |
| TraceEtm4.LongField | Src/traceDecoder_etm4.c:679-760 | corrected, each long-address byte advances the index by its field width or to bit 16 |
| TraceEtm4.LongFieldAsWritten | Src/traceDecoder_etm4.c:721-741 | as written the index stays a `uint8_t` |
| TraceEtm4.Is0AsWrittenRunsOn | Src/traceDecoder_etm4.c:730-739 | as written an IS0 long address never reaches bit 32 or 64 within its bytes or the 27 after |
| TraceEtm4.LongAddressesEnd | Src/traceDecoder_etm4.c:679-760 | corrected, both instruction sets end a 32-bit address after four bytes and a 64-bit one after eight, and not earlier |
| TraceEtm4.KeepPut | Src/traceDecoder_etm4.c:725 | the field update as written stays within 64 bits |
| TraceEtm4.KeepPutClearsAbove | Src/traceDecoder_etm4.c:765 | the field update as written leaves nothing above the field: a field ending at bit `lo + w` gives a value below 2^(lo + w) |
| TraceEtm4.OrBelow | Src/traceDecoder_etm4.c:765 | the bitwise or of two values of `k` bits has `k` bits |
| TraceEtm4.KeepPutLosesLowBits | Src/traceDecoder_etm4.c:738 | as written an address with low byte 2 reads 0 after a zero byte at bit 8; corrected it keeps 2 |
| TraceEtm4.PutKeepsBelow | Src/traceDecoder_etm4.c:683 | corrected, a field update keeps every bit below the field |
| TraceEtm4.SetAddr | Src/traceDecoder_etm4.c:659-665 | only entry 0's address, the index and the state change |
| TraceEtm4.ShortAddrStep | Src/traceDecoder_etm4.c:655-677 | the first byte adds seven bits and the second eight, the bits below stay; the address ends on bit 7 clear or after the second byte, then it is reported with ADDRESS raised |
| TraceEtm4.ShortCommit | Src/traceDecoder_etm4.c:668-675 | the address ends unless the byte asks for more within the first nine bits |
| TraceEtm4.LongFieldShape | Src/traceDecoder_etm4.c:679-760 | corrected, every field starts on a field boundary and the last ends at bit 32 or 64 |
| TraceEtm4.LongAddrStep | Src/traceDecoder_etm4.c:679-760 | corrected, a long-address byte keeps the bits below its field; the address ends exactly at bit 32 or 64, then it is current with ADDRESS raised and reported unless context follows |
| TraceEtm4.AddrRegs | Src/traceDecoder_etm4.c:701-716 | at the end of the address the packet goes to context or idle |
| TraceEtm4.ContextStep | Src/traceDecoder_etm4.c:569-596 | exception level, 64-bit and secure state are taken; a virtual context, a context ID or nothing follows by bits 6 and 7, reporting exactly when nothing follows |
| TraceEtm4.VContextStep | Src/traceDecoder_etm4.c:618-636 | a virtual context byte keeps the widths and the queue |
| TraceEtm4.VContextOneByte | Src/traceDecoder_etm4.c:618-636 | entered fresh, the collector takes one byte and moves on to the context ID without reporting |
| TraceEtm4.ContextIdStep | Src/traceDecoder_etm4.c:640-653 | each byte advances the index by 8; at bit 32 the context ID is set from the virtual context register, CONTEXTID is raised and the packet reports |
| TraceEtm4.ExceptionInfo1Step | Src/traceDecoder_etm4.c:598-601 | the first exception byte is kept for the second, without reporting |
| TraceEtm4.ExceptionInfo2Step | Src/traceDecoder_etm4.c:605-614 | the exception number is bits 1-5 of the first byte and bits 0-4 of the second above them, seriousness is bit 5, EX_ENTRY is raised, and nothing is reported |
| TraceEtm4.TimestampStepAsWritten | Src/traceDecoder_etm4.c:763-770 | as written, the timestamp after a byte fits in the bits up to the end of that byte's field, everything above is cleared; registers, next state and every other processor field are those of the corrected step |
| TraceEtm4.TimestampAsWrittenLosesBits | Src/traceDecoder_etm4.c:765 | as written, a timestamp 0x80 reads 0x05 after a byte 0x05 at bit 0 where the corrected step gives 0x85, and old low bits 3 under a byte 0x04 read 7 where the corrected step gives 4 |
| TraceEtm4.TimestampBytesAbove | Src/traceDecoder_etm4.c:765 | the update as written takes 0x80 to 0x05 under a byte 0x05 at bit 0, where the corrected update gives 0x85 |
| TraceEtm4.TimestampBytesOver | Src/traceDecoder_etm4.c:765 | the update as written takes 0x03 to 0x07 under a byte 0x04 at bit 0, where the corrected update gives 0x04 |
| TraceEtm4.TimestampStep | Src/traceDecoder_etm4.c:762-802 | the corrected step (see Findings): a timestamp byte replaces its own field and keeps the bits below it; the packet ends on bit 7 clear or at the ninth byte, with the cycle count packet next when counting is on and it follows |
| TraceEtm4.TsCommit | Src/traceDecoder_etm4.c:774-800 | the timestamp is taken and the next state chosen as above |
| TraceEtm4.TsCcStep | Src/traceDecoder_etm4.c:805-826 | the cycle count ends after three bytes or on bit 7 set, then it is added to the 64-bit count with CYCLECOUNT raised; before that nothing changes in the processor state |
| TraceEtm4.TsCcCommit | Src/traceDecoder_etm4.c:815-823 | the assembled count is added at the end of the packet |
| TraceEtm4.ExtensionStep | Src/traceDecoder_etm4.c:829-851 | an extension reports; DISCARD is raised exactly by 0x03 and OVERFLOW exactly by 0x05 |
| TraceEtm4.WaitInfoStep | Src/traceDecoder_etm4.c:854-860 | waiting for trace info skips every byte but 0x01 |
| TraceEtm4.InfoNext | Src/traceDecoder_etm4.c:867-888 | the sections after a payload control byte follow in order: info, key, speculation, threshold, then idle |
| TraceEtm4.PlctlStep | Src/traceDecoder_etm4.c:862-890 | the payload control byte is stored, the key reset and the queue flushed; the announced sections follow, and with none the info reports |
| TraceEtm4.Plctl | Src/traceDecoder_etm4.c:863-883 | the registers after the payload control byte |
| TraceEtm4.InfoStep | Src/traceDecoder_etm4.c:892-917 | cycle counting is bit 0, conditional tracing `(c << 1) & 7`, load and store tracing bits 4 and 5 |
| TraceEtm4.KeyStep | Src/traceDecoder_etm4.c:919-937 | the return-stack key is taken and the next section follows |
| TraceEtm4.SpecStep | Src/traceDecoder_etm4.c:939-954 | the speculation depth is taken and the next section follows |
| TraceEtm4.Dispatch | Src/traceDecoder_etm4.c:190-961 | the I-sync flag is dropped only by 0x08 in IDLE |
| TraceEtm4.Step | Src/traceDecoder_etm4.c:165-979 | eleven zero bytes then 0x80 set the I-sync flag and wait for trace info, changing nothing else; other bytes update the zero count; a report needs the I-sync flag |
| TraceEtm4.ForceSync | Src/traceDecoder_etm4.c:999-1003 | only the protocol state changes: idle or unsynced |
| TraceEtm4.Engine.constructor | Src/traceDecoder_etm4.c:1013-1023 | a new engine is zero-filled and unsynced |
| TraceEtm4.Engine.Synced | Src/traceDecoder_etm4.c:991-996 | synced exactly when not unsynced |
| TraceEtm4.Engine.ForceSyncTo | Src/traceDecoder_etm4.c:999-1003 | the registers become the forced ones |
| TraceEtm4.Engine.PushQ | Src/traceDecoder_etm4.c:155-161 | the queue array is pushed in place |
| TraceEtm4.Engine.FlushQ | Src/traceDecoder_etm4.c:146-151 | the queue array is flushed in place |
| TraceEtm4.Engine.Pump | Src/traceDecoder_etm4.c:165-979 | registers, processor state and report are those of the byte step |
| TraceEtm4.Engine.PumpDispatch | Src/traceDecoder_etm4.c:190-961 | the dispatch step |
| TraceEtm4.Engine.PumpIdle | Src/traceDecoder_etm4.c:197-563 | the IDLE step |
| TraceEtm4.Engine.PumpExactMatch | Src/traceDecoder_etm4.c:401-407 | the exact-match step |
| TraceEtm4.Engine.PumpLongHeader | Src/traceDecoder_etm4.c:421-502 | the long-header step |
| TraceEtm4.Engine.PumpIdleOther | Src/traceDecoder_etm4.c:197-563 | the payload header step |
| TraceEtm4.Engine.PumpShortAddr | Src/traceDecoder_etm4.c:655-677 | the short address step |
| TraceEtm4.Engine.PumpLongAddr | Src/traceDecoder_etm4.c:679-760 | the long address step |
| TraceEtm4.Engine.PumpContext | Src/traceDecoder_etm4.c:569-596 | the context step |
| TraceEtm4.Engine.PumpVContext | Src/traceDecoder_etm4.c:618-636 | the virtual context step |
| TraceEtm4.Engine.PumpContextId | Src/traceDecoder_etm4.c:640-653 | the context ID step |
| TraceEtm4.Engine.PumpExceptionInfo1 | Src/traceDecoder_etm4.c:598-601 | the first exception byte step |
| TraceEtm4.Engine.PumpExceptionInfo2 | Src/traceDecoder_etm4.c:605-614 | the second exception byte step |
| TraceEtm4.Engine.PumpTimestamp | Src/traceDecoder_etm4.c:762-802 | updates the registers and the processor state as the corrected timestamp step (see Findings) |
| TraceEtm4.Engine.PumpTsCc | Src/traceDecoder_etm4.c:805-826 | the timestamp cycle count step |
| TraceEtm4.Engine.PumpExtension | Src/traceDecoder_etm4.c:829-851 | the extension step |
| TraceEtm4.Engine.PumpWaitInfo | Src/traceDecoder_etm4.c:854-860 | the WAIT_INFO step |
| TraceEtm4.Engine.PumpPlctl | Src/traceDecoder_etm4.c:862-890 | the payload control step |
| TraceEtm4.Engine.PumpInfo | Src/traceDecoder_etm4.c:892-917 | the info section step |
| TraceEtm4.Engine.PumpKey | Src/traceDecoder_etm4.c:919-937 | the key section step |
| TraceEtm4.Engine.PumpSpec | Src/traceDecoder_etm4.c:939-954 | the speculation section step |
| TraceEtm4Run.Run | Src/traceDecoder.c:116-123 | the ETMv4 engine fed a stream keeps its invariant and reports at most once per byte |
| TraceEtm4Run.RunFirst | Src/traceDecoder.c:116-123 | the first byte is one engine step, its report if any comes first, and the rest runs from the state it leaves |
| TraceEtm4Run.ElevenZerosThenSync | Src/traceDecoder_etm4.c:180-188 | zero bytes bringing the count to eleven and then 0x80 leave the machine waiting for trace info with the sync flag set, whatever it was doing |
| TraceEtm4Run.NothingWithoutSync | Src/traceDecoder_etm4.c:975-978 | without the sync flag and without a 0x80 byte nothing is reported and the flag stays clear |
| TraceEtm4Run.ResyncSilences | Src/traceDecoder_etm4.c:508-511 | the resynchronisation byte in IDLE silences the engine until the next A-sync |
| Generics.LetterControl | Src/generics.c:48-81 | the escape letters and the control characters they stand for are inverse tables, and no letter is a backslash, NUL or octal digit |
| Generics.EscChar | Src/generics.c:43-85 | one character is written as one character or a backslash and a letter |
| Generics.EscapeRun | Src/generics.c:41-89 | the escape loop writes a prefix of the whole escape and stops at most one character past its limit; when it leaves out escapes that would not fit, it stays within the limit |
| Generics.EscapeAll | Src/generics.c:41-87 | the escape of a string is at most twice as long |
| Generics.EscapeAsWritten | Src/generics.c:34-91 | as written the output is a prefix of the escape and, without its terminator, can fill the whole 4096-character buffer |
| Generics.EscapeBounded | Src/generics.c:34-91 | corrected, the output is a prefix of the escape that leaves room for its terminator in the buffer |
| Generics.EscapeRunAgrees | Src/generics.c:41-89 | a loop that stays within its limit writes the same whether or not it leaves out escapes that would not fit |
| Generics.EscapeBoundedAgrees | Src/generics.c:34-91 | the corrected escape differs from the code as written only where that overruns the buffer |
| Generics.EscapeLongPlain | Src/generics.c:83-89 | a plain string of 4095 characters or more is cut to 4095 characters, as written and corrected alike |
| Generics.Plain | Src/generics.c:83-84 | a run of ordinary characters |
| Generics.EscapePlain | Src/generics.c:83-87 | ordinary characters within the limit are copied one for one |
| Generics.EscapeAsWrittenOverruns | Src/generics.c:63-89 | 4094 ordinary characters and a newline escape to 4096 characters, so the terminator is written one place past the buffer; the corrected escape stops before the newline |
| Generics.EscapeRunAll | Src/generics.c:41-87 | below the limit the loop writes the whole escape |
| Generics.Escape | Src/generics.c:34-91 | the buffer written a character at a time, stopping before an escape that would not fit, holds the bounded escape |
| Generics.OctalLen | Src/generics.c:143-146 | the octal digits read are a prefix of the input |
| Generics.UnescapeRun | Src/generics.c:100-160 | the unescape loop only appends to what is written and stays within its limit |
| Generics.UnescapeAsWritten | Src/generics.c:93-164 | as written the unescape fits the buffer with its terminator |
| Generics.UnescapeFixed | Src/generics.c:93-164 | corrected, the unescape fits the buffer with its terminator |
| Generics.OctalStep | Src/generics.c:140-160 | an octal escape before more input writes the byte its digits spell and goes on right after the digits, or one character further when the character after them is skipped |
| Generics.OctalEscapeThen | Src/generics.c:140-160 | after an octal escape and a non-digit, the code as written drops that character while the corrected reading keeps it |
| Generics.OctalLenOf | Src/generics.c:143-146 | the digit loop stops exactly at the first non-octal character |
| Generics.UnescapeOctalExample | Src/generics.c:140-160 | "\101B" unescapes to "A" as written and to "AB" corrected |
| Generics.Unescape | Src/generics.c:93-164 | the buffer written a character at a time holds the corrected unescape |
| Generics.ReadOctal | Src/generics.c:143-146 | the inner loop reads exactly the leading octal digits and their byte value |
| Generics.UnescapeEscapeAll | Src/generics.c:34-164 | unescaping the escape of a string without backslashes or NUL gives it back |
| Generics.RoundTrip | Src/generics.c:34-164 | a string without backslashes that escapes within the buffer comes back unchanged through escape and unescape |
| Generics.EscapeAllLonger | Src/generics.c:41-87 | the escape of a string is never shorter than the string |
| Generics.Slashes | Src/generics.c:246-249 | the slash count is at most the length |
| Generics.BasenameStart | Src/generics.c:220-233 | the answer is where the last path element starts: just after the last '/', or 0 with none |
| Generics.BasenameUnique | Src/generics.c:220-233 | that place is unique |
| Generics.BasenameNAsWritten | Src/generics.c:235-253 | as written, a zero count gives the empty suffix and any other count the plain basename |
| Generics.BasenameN | Src/generics.c:235-253 | corrected, the answer is where the last `c + 1` elements start, or 0 when the path has fewer |
| Generics.SlashesFront | Src/generics.c:242-250 | counting slashes from the front agrees with counting them from the back |
| Generics.NoSlashes | Src/generics.c:227 | no slash is counted exactly when the path has none |
| Generics.BasenameNZero | Src/generics.c:220-253 | with no extra elements asked for, the corrected BasenameN agrees with Basename |
| Generics.BasenameNExample | Src/generics.c:242-250 | for "a/b" and one more element the code answers "b", the corrected reading "a/b" |
| Generics.Reporting.constructor | Src/generics.c:166 | the report level starts at V_WARN |
| Generics.Reporting.SetReportLevel | Src/generics.c:168-180 | the level is stored whatever it is, and the answer is true exactly when it lies from V_ERROR to V_MAX_VERBLEVEL |
| Generics.Reporting.GetReportLevel | Src/generics.c:182-186 | the stored level is returned |
| Exceptions.GetName | Src/rtos/exceptions.c:24-34 | the system exceptions 0 to 15 get their fixed names, and from 16 up the name is "IRQ " followed by one to eleven characters |
| Exceptions.IrqNameReads | Src/rtos/exceptions.c:32 | below 2^31 + 16 the decimal after "IRQ " reads back as the exception number less 16 |
| Exceptions.Entered | Src/rtos/exceptions.c:48-55 | an entered record remembers what ran before and when it started, clears its times, and its deepest nesting is at least one more than that of the exception it interrupted |
| Exceptions.Exited | Src/rtos/exceptions.c:66-84 | a closed record has one more visit, its time less the stolen time as this visit and added to the total, within the new minimum and maximum, with the maxima only growing and the wall time covered |
| Exceptions.Stats.constructor | Src/rtos/exceptions.c:36-40 | every record zero and nothing running |
| Exceptions.Stats.IsActive | Src/rtos/exceptions.c:101-104 | true exactly when some exception is running |
| Exceptions.Stats.Enter | Src/rtos/exceptions.c:42-58 | a number out of range changes nothing; otherwise only that record changes, to the entered record, and it becomes the running exception |
| Exceptions.Stats.Exit | Src/rtos/exceptions.c:60-91 | with nothing running nothing changes; otherwise the running record is closed, the interrupted exception runs again and the whole wall time is added to its stolen time, and the links stay valid |
| Exceptions.Stats.Reset | Src/rtos/exceptions.c:93-99 | every record zero and nothing running |
| Exceptions.EnterExitRestores | Src/rtos/exceptions.c:42-91 | an enter followed by an exit makes the interrupted exception current again, and the visit's time is the time between them |
| OrbTop.EnterDeepens | Src/orbtop.c:313-327 | after entering, the chain of interrupted exceptions from the new one is one longer than it was from the previous one, so the depth stays within the chain |
| OrbTop.Left | Src/orbtop.c:237-268 | the record being left gets the time since its last (re)entry added to this visit, one more visit, the total grown by this visit, the entry time cleared, and minimum, maxima and depth brought up to date |
| OrbTop.ExitSpec | Src/orbtop.c:227-284 | with nothing current nothing changes; otherwise the current exception is left, the one it interrupted becomes current at one level less, and no other record changes |
| OrbTop.ExitKeepsDepth | Src/orbtop.c:271-276 | after leaving, the depth is still no deeper than the chain of interrupted exceptions from the new current one |
| OrbTop.NoneIsShallow | Src/orbtop.c:230-234 | with nothing current the depth is 0 |
| OrbTop.Unwind | Src/orbtop.c:330-335 | a resume repeats the exit while the resumed exception is not current and the depth is above 0, ending with that exception current or the depth 0, no deeper than it started, the chain of interrupted exceptions still bounding the depth, and no change at all when it is already current or nothing is nested |
| OrbTop.UnwindStep | Src/orbtop.c:331-334 | each unwound level has a record: its exit counts one more visit of it, makes its interrupted exception current and takes the depth down by exactly one |
| OrbTop.Top.constructor | Src/orbtop.c:138-140 | every record zero, nothing current, depth 0 |
| OrbTop.Top.ExitEx | Src/orbtop.c:227-284 | the records, the current exception and the depth become those of the exit specification |
| OrbTop.Top.HandleException | Src/orbtop.c:295-347 | an enter of a live exception is ignored, otherwise it charges the current one and nests the new one one level deeper; an exit leaves one level; a resume leaves exactly the records, current exception and depth of the unwinding specification, so that exception is current or the depth is 0, never deeper than before; an unknown event changes nothing |
| OrbTop.Top.EndInterval | Src/orbtop.c:1524-1536 | every record's interval statistics are cleared and its live state kept, and after an overflow the depth restarts at 0 |
| OrbTop.Cleared | Src/orbtop.c:1527 | visits, depth, total, minimum and maxima are 0 and the entry, visit and stolen times and the link are kept |
| OrbTop.EnterThenExit | Src/orbtop.c:303-339 | an enter and an exit at the same time stamp make the interrupted exception current again at the old depth, with one more visit of no time |
| OrbMortem.Ring | Src/orbmortem.c:910 | the ring holds at most one byte less than the buffer, counted from the read index to the write index with wrap-around |
| OrbMortem.NextMod | Src/orbmortem.c:445 | the index after `i` wraps to 0 at the end of the buffer |
| OrbMortem.AvailableCounts | Src/orbmortem.c:910 | the available-bytes formula counts exactly the bytes held in the ring |
| OrbMortem.StoreOutside | Src/orbmortem.c:444 | storing at the write index leaves the ring's bytes unchanged |
| OrbMortem.Push | Src/orbmortem.c:444-460 | with room left, a stored byte and an advanced write index append that byte to the ring |
| OrbMortem.PushFull | Src/orbmortem.c:447-460 | in a full ring, advancing both indices drops the oldest byte and appends the new one |
| OrbMortem.DumpAsWritten | Src/orbmortem.c:910-922 | as written, a full ring that is not single-shot asks for a resync, and the decoder gets the bytes from the read index to the end and then from the start to the write index; this is the ring only once it has wrapped |
| OrbMortem.DumpAsWrittenRepeats | Src/orbmortem.c:919-922 | from read index 0 with one byte held in four, the code as written hands over all four buffer bytes and then the held byte again |
| OrbMortem.Dump | Src/orbmortem.c:910-922 | corrected, the resync request is the same and exactly the available bytes are handed over; when the ring has wrapped this agrees with the code as written |
| OrbMortem.Capture.constructor | Src/orbmortem.c:1344 | a zeroed buffer of the given nonzero length, empty and not held |
| OrbMortem.Capture.RxAdd | Src/orbmortem.c:439-461 | the byte is counted and stored at the write index; a full single-shot ring holds, answers true and keeps its contents; a full ring otherwise drops its oldest byte; the new byte then joins the ring |
| OrbMortem.ExpandAsWritten | Src/orbmortem.c:1004-1029 | as written, the expansion fails only when the template has a '%' from which the loop would read past the terminator |
| OrbMortem.ExpandAgrees | Src/orbmortem.c:1004-1029 | wherever the code as written gives an answer, the corrected expansion gives the same one |
| OrbMortem.TrailingPercentOverruns | Src/orbmortem.c:1012-1026 | the template "vi %" makes the code as written read past its end, while the corrected expansion stops at "vi " |
| OrbMortem.PlainTemplate | Src/orbmortem.c:1006-1008 | a template without '%' is copied unchanged |
| OrbMortem.Placeholders | Src/orbmortem.c:1012-1027 | `%f` becomes the file name, `%l` the line in decimal, and `%%` a single '%' |
| OrbMortem.OpenFileCommand | Src/orbmortem.c:991-1033 | with no template there is no command; otherwise it is the expanded template followed by " &" |
| RtosApi.Find | Src/rtos/rtos_api.c:283 | a position found holds the thread with that control block address, and no position is found only when no thread has it |
| RtosApi.Delta | Src/rtos/rtos_api.c:326-333 | both branches of the wrap-around give the difference of the two readings modulo 2^32 |
| RtosApi.CreditWindow | Src/rtos/rtos_api.c:335 | a reading that moved forward by less than 2^31 is credited, while one that stayed still or moved back by up to 2^31 is not |
| RtosApi.DeltaTimeAsWritten | Src/rtos/rtos_api.c:336 | as written, the conversion divides by zero exactly when the clock is known but below 1 MHz |
| RtosApi.SlowClockDividesByZero | Src/rtos/rtos_api.c:336 | a 500 kHz clock makes the code as written divide by zero, where the corrected conversion makes 1000 cycles 2000 microseconds |
| RtosApi.PerMicrosecond | Src/rtos/rtos_api.c:336 | from 1 MHz up the time is the number of whole cycles-per-microsecond periods in the delta, never more than the cycles |
| RtosApi.SlowQuotient | Src/rtos/rtos_api.c:336 | below 1 MHz the corrected time is the cycles scaled by 1000000 over the clock, rounded down, and never less than the cycles |
| RtosApi.DeltaTime | Src/rtos/rtos_api.c:336 | from 1 MHz up the microseconds are the whole number of cycles-per-microsecond periods in the delta, never more than the cycles; below 1 MHz they are the delta times 1000000 over the clock, rounded down, never less than the cycles; with no clock known, 0; wherever the code as written answers, the corrected conversion agrees |
| RtosApi.Fresh | Src/rtos/rtos_api.c:286-317 | a new record has the address and zero counters, and is named "UNNAMED" offline, "UNKNOWN" with no reader, or whatever the reader gave |
| RtosApi.Charged | Src/rtos/rtos_api.c:343-344 | the thread's cycles grow by the delta and its microseconds by the delta's time, and nothing else changes |
| RtosApi.CpuPctAsWritten | Src/rtos/rtos_api.c:830-832 | as written the share is capped at 10000 hundredths of a percent |
| RtosApi.CpuPctWraps | Src/rtos/rtos_api.c:831 | 429497 microseconds in a 1-microsecond window wrap to 2704 in the code as written, where the corrected share is 10000 |
| RtosApi.CpuPct | Src/rtos/rtos_api.c:830-832 | the share is capped at 10000, reaches it exactly when the time fills the window, is otherwise the rounded-down share, and agrees with the code as written wherever the quotient fits 32 bits |
| RtosApi.WithMax | Src/rtos/rtos_api.c:836-839 | the thread's maximum share becomes the larger of its old maximum and its current share, and nothing else changes |
| RtosApi.PrefixStep | Src/rtos/rtos_api.c:842-858 | one more thread adds its time to the active sum unless it is idle, and makes the idle test true if it is idle |
| RtosApi.ActiveIsAll | Src/rtos/rtos_api.c:851-854 | with no idle thread every thread's time counts as active |
| RtosApi.ActiveWithinTotal | Src/rtos/rtos_api.c:842-854 | the active time never exceeds the total time |
| RtosApi.Desc | Src/rtos/rtos_api.c:28-35 | the comparison is positive exactly when the second key is larger, and negative exactly when it is smaller |
| RtosApi.Asc | Src/rtos/rtos_api.c:46-53 | the comparison is positive exactly when the first key is larger, and negative exactly when it is smaller |
| RtosApi.Compare | Src/rtos/rtos_api.c:28-87 | each order puts the thread with the larger CPU time, maximum share, priority or switch count first, the smaller address first, names equal exactly when they compare equal, and a thread without an entry function name before one with a name |
| RtosApi.CompareAntisymmetric | Src/rtos/rtos_api.c:28-87 | swapping two threads turns "before" into "after" for every sort order |
| RtosApi.Admitted | Src/rtos/rtos_api.c:283-318 | a known thread leaves the table unchanged; an unknown one is appended as a fresh record; either way the addresses stay distinct and the thread is found |
| RtosApi.Credited | Src/rtos/rtos_api.c:320-349 | only the current thread's record can change, only when a thread is current, a reading exists and the delta is creditable, and then it is charged with that delta |
| RtosApi.Scheduled | Src/rtos/rtos_api.c:351-356 | the scheduled thread gets the new reading and, on a switch, one more all-time and window switch; no other record changes |
| RtosApi.Rtos.constructor | Src/rtos/rtos_api.c:116-165 | an empty table with the given enable flag and clock frequency |
| RtosApi.Rtos.HandleDWTMatch | Src/rtos/rtos_api.c:273-382 | when disabled nothing changes; otherwise an unknown thread is counted; a thread whose details fail to read changes nothing else; otherwise the table is admitted, credited and scheduled in that order, and the thread becomes current with the new reading |
| RtosApi.Rtos.UpdateThreadCpuMetrics | Src/rtos/rtos_api.c:813-873 | with an empty table or an empty window nothing changes; otherwise every thread keeps its largest share, and when some thread is idle the overall maximum takes the share of the threads that are not idle |
| RtosApi.Rtos.ResetThreadCounters | Src/rtos/rtos_api.c:875-887 | when enabled every thread's window time, cycles and switch count become 0 and everything else stays |
| RtosApi.FindLast | Src/rtos/rtos_api.c:289 | a thread appended to a table without its address keeps the addresses distinct and is found at the end |
| OrbtraceIf.ValidateVoltage | Src/orbtraceIf.c:239-245 | a voltage is kept exactly when it lies from the minimum generic voltage to the maximum plus the allowed difference, and is 0 otherwise |
| OrbtraceIf.ValidateVoltageIdempotent | Src/orbtraceIf.c:239-245 | validating an already validated voltage changes nothing |
| OrbtraceIf.ChannelCode | Inc/orbtraceIf.h:43 | only the "all" channel is sent as 0xff |
| OrbtraceIf.Folded | Src/orbtraceIf.c:692 | upper-case letters become lower-case letters and every other character stays |
| OrbtraceIf.NameToChannel | Src/orbtraceIf.c:681-701 | the loop over the table answers the channel of the first entry that the text names |
| OrbtraceIf.ChannelIgnoresCase | Src/orbtraceIf.c:683-692 | two texts that agree once lower-cased name the same channel |
| OrbtraceIf.NoCommaInNames | Inc/orbtraceIf.h:45-47 | no table name holds a ',' |
| OrbtraceIf.CommaEndsName | Src/orbtraceIf.c:694 | whatever follows a ',' does not change the channel |
| OrbtraceIf.UnknownIsNone | Src/orbtraceIf.c:688-700 | CH_NONE comes back exactly when no table name is the first word of the text |
| OrbtraceIf.EachNameNamesItsChannel | Inc/orbtraceIf.h:45-47 | "vtpwr", "vtref" and "all" each give their own channel |
| OrbtraceIf.TraceWidthAsWritten | Src/orbtraceIf.c:633-638 | as written a width is let through exactly when it is 4 or its low 16 bits are 1 to 3 |
| OrbtraceIf.TraceWidthAsWrittenAliases | Src/orbtraceIf.c:633-635 | width 3 is sent like width 4, and 65537 like width 1 |
| OrbtraceIf.WidthOfCode | Src/orbtraceIf.c:633 | code 3 stands for width 4 |
| OrbtraceIf.TraceWidth | Src/orbtraceIf.c:630-638 | corrected, exactly the widths 1, 2 and 4 are accepted, with a code from 1 to 3 that stands for that width |
| OrbtraceIf.TraceWidthOnto | Src/orbtraceIf.c:633 | every code from 1 to 3 is the code of an accepted width |
| OrbtraceIf.SetTraceWidth | Src/orbtraceIf.c:630-649 | corrected, a request is sent exactly for an accepted width, as a width request whose value stands for that width, with no data |
| OrbtraceIf.SetTraceSWO | Src/orbtraceIf.c:651-663 | a width request with no data, whose value is 0x10 for Manchester and 0x12 for UART |
| OrbtraceIf.ShiftsOfHalves | Src/orbtraceIf.c:668 | shifting the speed by 8 and 24 bits takes the same octets as taking them from its two 16-bit halves |
| OrbtraceIf.SpeedBytes | Src/orbtraceIf.c:668 | the four octets read back, lowest first, as the speed |
| OrbtraceIf.SpeedBytesRoundTrip | Src/orbtraceIf.c:668 | any four octets are the octets of the speed they spell |
| OrbtraceIf.SetSWOBaudrate | Src/orbtraceIf.c:665-679 | a speed request with value 0 whose four data octets spell the speed |
| OrbtraceIf.StrCmpInt | Src/orbtraceIf.c:105-121 | 0 exactly for equal strings or two missing ones (two NULLs are undefined in C and completed as 0); a present string sorts before a missing one; two present strings compare as strcmp does |
| OrbtraceIf.StrCmpIntAntisymmetric | Src/orbtraceIf.c:105-121 | swapping the strings reverses the answer |
| OrbtraceIf.StrCmpIntTransitive | Src/orbtraceIf.c:105-121 | sorting before is transitive |
| OrbtraceIf.CompareDevices | Src/orbtraceIf.c:123-158 | 0 exactly for devices equal in every compared field |
| OrbtraceIf.CompareDevicesByTypeThenMaker | Src/orbtraceIf.c:132-140 | a lower device type comes first, and within one type a named manufacturer comes before an unnamed one |
| OrbtraceIf.CompareDevicesAntisymmetric | Src/orbtraceIf.c:123-158 | swapping the devices reverses the answer |
| OrbtraceIf.CompareDevicesTransitive | Src/orbtraceIf.c:123-158 | sorting before is transitive, so the devices are sorted in a strict total order |
| OrbTrace.HasBound | Src/orbtrace.c:100 | a value with bit `x` set is at least 2^x |
| OrbTrace.AddBit | Src/orbtrace.c:84 | adding a clear bit's value sets that bit and leaves every other bit as it was |
| OrbTrace.SubBit | Src/orbtrace.c:92 | taking away a set bit's value clears that bit and leaves every other bit as it was |
| OrbTrace.SetBitBits | Src/orbtrace.c:79-85 | setting an action sets that bit and no other |
| OrbTrace.ClrBitBits | Src/orbtrace.c:87-93 | clearing an action clears that bit and no other |
| OrbTrace.PopcountAddBit | Src/orbtrace.c:124 | a newly set bit adds one to the count |
| OrbTrace.PopcountSetClr | Src/orbtrace.c:79-124 | the count of actions goes up by one exactly when a new action is set, and down by one exactly when a set one is cleared |
| OrbTrace.PopcountCounts | Src/orbtrace.c:124 | a value with a bit set counts at least one, and a value counting none is 0 |
| OrbTrace.SingleBit | Src/orbtrace.c:84 | `1 << x` has bit `x` set and no other |
| OrbTrace.OnlyAction | Src/orbtrace.c:453-478 | when action `x` is set and at most one action is, `x` is the only action |
| OrbTrace.SetBitBound | Src/orbtrace.c:52-57 | setting an action bit below `n` keeps the actions below 2^n |
| OrbTrace.RunTime.constructor | Src/orbtrace.c:65 | no action is asked for at first |
| OrbTrace.RunTime.SetAction | Src/orbtrace.c:79-85 | the actions become the old ones with bit `x` set |
| OrbTrace.RunTime.ClrAction | Src/orbtrace.c:87-93 | the actions become the old ones with bit `x` clear |
| OrbTrace.RunTime.TstAction | Src/orbtrace.c:95-101 | true exactly when bit `x` is set |
| OrbTrace.RunTime.TclAction | Src/orbtrace.c:103-117 | the answer is whether the action was set, and afterwards it is clear and every other action is as it was |
| OrbTrace.RunTime.NumActions | Src/orbtrace.c:119-125 | the number of actions set |
| OrbTrace.CheckOptionsAsWritten | Src/orbtrace.c:452-493 | as written the baud rate and UART mode check never fails, because its condition asks for both at once to be missing and present |
| OrbTrace.CheckOptions | Src/orbtrace.c:452-493 | corrected, the options pass exactly when they meet every sanity condition: exclusive reset and listing, baud rate and UART mode together, no clashing trace configurations when the trace is set, a legal width and a brightness from 0 to 255 |
| OrbTrace.ExclusiveActions | Src/orbtrace.c:453-478 | once accepted, resetting the parameters or listing the devices is the only action asked for |
| OrbTrace.CheckOptionsAgree | Src/orbtrace.c:452-493 | when baud rate and UART mode come together the two versions agree, and whatever the corrected check accepts the code as written accepts too |
| OrbTrace.SpeedWithoutUartPasses | Src/orbtrace.c:459-464 | a baud rate of 115200 without UART mode passes the code as written and is refused by the corrected check |
| CmsisDap.Write | orbtrace/nmigen/cmsis_dap.py:81-94 | the bytes land at the given place in the block and every other byte is kept |
| CmsisDap.Invalid | orbtrace/nmigen/cmsis_dap.py:61-64 | the answer becomes the single byte 0xFF, the engine turns busy and moves to RESPOND, and nothing else changes |
| CmsisDap.PacketLen | orbtrace/nmigen/cmsis_dap.py:227-267 | no packet is longer than seven bytes, and exactly the single-byte commands have length 1 |
| CmsisDap.LongState | orbtrace/nmigen/cmsis_dap.py:268-290 | the commands of variable length have no fixed length and move to a state of their own |
| CmsisDap.StepIdle | orbtrace/nmigen/cmsis_dap.py:218-293 | without a starting byte only the transmit count and busy flag are cleared; a starting byte is stored as the command, and a fixed-length command moves to RxParams unless it is cut short (then ProtocolError), while an unknown one is answered with 0xFF |
| CmsisDap.InfoAnswer | orbtrace/nmigen/cmsis_dap.py:77-96 | every information answer is one to five bytes long |
| CmsisDap.InfoLenAsWritten | orbtrace/nmigen/cmsis_dap.py:80-94 | as written the answer length is one more than the answer, except for the packet count and packet size, whose lengths are set to 6 |
| CmsisDap.RespInfoAsWritten | orbtrace/nmigen/cmsis_dap.py:72-96 | the engine as written moves to RESPOND |
| CmsisDap.PacketCountSendsStaleBytes | orbtrace/nmigen/cmsis_dap.py:91-92 | asking for the packet count just after the firmware version makes the code as written send six bytes, three of them left over from the version string |
| CmsisDap.RespInfo | orbtrace/nmigen/cmsis_dap.py:72-96 | corrected, a known item is answered with the Info command byte and exactly its answer, and an unknown one with 0xFF; the receive block, the sent count and the lights are unchanged |
| CmsisDap.RespHostStatus | orbtrace/nmigen/cmsis_dap.py:98-111 | sub-command 0 sets the connected light and 1 the running light, each to whether the value byte is 1, and the answer is the HostStatus byte and 0; any other sub-command is answered with 0xFF |
| CmsisDap.RespConnect | orbtrace/nmigen/cmsis_dap.py:113-130 | a request for port 0 (the default, SWD) or port 1 (SWD) is answered with the Connect byte and 1, anything else with 0xFF; the lights are unchanged |
| CmsisDap.Reply | orbtrace/nmigen/cmsis_dap.py:132-172 | a fixed answer is loaded and the engine moves to RESPOND, with nothing else changed |
| CmsisDap.Dispatch | orbtrace/nmigen/cmsis_dap.py:321-355 | corrected, a complete packet moves the engine to RESPOND, or to SWJ sequence processing, with the receive registers kept and the engine busy |
| CmsisDap.StepRxParams | orbtrace/nmigen/cmsis_dap.py:318-367 | a clock of parameter reception keeps the registers well formed |
| CmsisDap.StepRespond | orbtrace/nmigen/cmsis_dap.py:297-314 | while bytes remain and the host is ready, the next byte is offered, marked last when it is the final one; when all are sent the engine clears its receive count and goes idle |
| CmsisDap.StepSwj | orbtrace/nmigen/cmsis_dap.py:184-197 | as written, a byte offered counts eight bits off the count, modulo 256; a beat marked last, valid or not, moves to RESPOND with status 1 exactly when the count before this byte was not 0; any other byte moves to RESPOND with status 1 exactly when the count was below 9; the command byte and answer length are kept |
| CmsisDap.SwjLastClock | orbtrace/nmigen/cmsis_dap.py:194-197 | as written, a clock offering a byte marked last ends the sequence whether or not the busy engine takes it, with status 1 exactly when the count before that byte was not 0, nothing taken and nothing sent |
| CmsisDap.SwjDeliveredAsWritten | orbtrace/nmigen/cmsis_dap.py:184-197 | as written, feeding the data bytes one after another keeps the registers well formed and the command byte and answer length |
| CmsisDap.SwjDeliveredAsWrittenAnswers | orbtrace/nmigen/cmsis_dap.py:184-197 | as written, even with every data byte delivered the status is 1 for every count from 1 to 255, whatever the number of bytes; only a count of 0 with one data byte gives 0 |
| CmsisDap.SwjDeliveredResetVector | orbtrace/nmigen/cmsis_test.py:132 | as written, the reset sequence with all seven data bytes delivered is still answered `12 01` |
| CmsisDap.SwjOwed | orbtrace/nmigen/cmsis_dap.py:180 | the bits a count byte asks for are 1 to 256, a count of 0 standing for 256 |
| CmsisDap.StepSwjFixed | orbtrace/nmigen/cmsis_dap.py:184-197 | corrected, a byte counts eight bits off only when it is delivered; the engine answers exactly when the byte completes the bits or ends the packet, with status 0 only when both happen at once, and otherwise owes eight bits fewer; this replaces the status test of a last byte as written (`swjbits != 0` on the count before the byte) |
| CmsisDap.SwjFixedRun | orbtrace/nmigen/cmsis_dap.py:184-197 | corrected, feeding the data bytes one after another keeps the registers well formed and the command byte and answer length |
| CmsisDap.Step | orbtrace/nmigen/cmsis_dap.py:217-397 | corrected, each clock keeps the registers well formed, and a state the engine does not carry out answers 0xFF |
| CmsisDap.Engine.constructor | orbtrace/nmigen/cmsis_dap.py:43-58 | every register at zero and the engine idle |
| CmsisDap.Engine.RespInvalid | orbtrace/nmigen/cmsis_dap.py:61-64 | the registers become those of the 0xFF answer |
| CmsisDap.Engine.IdleClock | orbtrace/nmigen/cmsis_dap.py:218-293 | the registers become those of the IDLE step |
| CmsisDap.Engine.RxParamsClock | orbtrace/nmigen/cmsis_dap.py:318-367 | the registers become those of the RxParams step |
| CmsisDap.Engine.RespondClock | orbtrace/nmigen/cmsis_dap.py:297-314 | the registers become those of the RESPOND step |
| CmsisDap.Engine.SwjClock | orbtrace/nmigen/cmsis_dap.py:184-197 | the registers become those of the SWJ sequence step |
| CmsisDap.Engine.Clock | orbtrace/nmigen/cmsis_dap.py:217-397 | corrected, the registers become those of one clock step |
| CmsisDap.Tick | orbtrace/nmigen/cmsis_dap.py:209-213 | with a host that is always ready, a clock keeps the registers well formed |
| CmsisDap.IterateWf | orbtrace/nmigen/cmsis_dap.py:217-397 | any number of clocks keeps the registers well formed |
| CmsisDap.Packet | orbtrace/nmigen/cmsis_dap.py:222 | a packet is offered one byte a beat, the first beat marked first and the last marked last |
| CmsisDap.Response | orbtrace/nmigen/cmsis_dap.py:72-172 | every answer the engine gives at once is one to six bytes long |
| CmsisDap.TakeCommand | orbtrace/nmigen/cmsis_dap.py:218-293 | the first clock of a packet stores its command byte, and moves to RxParams, to ProtocolError for a packet cut short, or to the 0xFF answer for an unknown command |
| CmsisDap.StoreByte | orbtrace/nmigen/cmsis_dap.py:357-367 | a clock in RxParams stores the next byte offered, and a last byte that leaves the packet short gives 0xFF |
| CmsisDap.ReceiveRest | orbtrace/nmigen/cmsis_dap.py:357-362 | while parameters arrive, each clock stores the next packet byte, until the whole packet is in |
| CmsisDap.Receive | orbtrace/nmigen/cmsis_dap.py:218-362 | a whole packet of its command's length is taken in, one byte a clock, with the lights unchanged |
| CmsisDap.DispatchResponse | orbtrace/nmigen/cmsis_dap.py:321-355 | corrected, dispatching a complete packet loads exactly the CMSIS-DAP answer to it, and only a host status packet changes a light |
| CmsisDap.DispatchAnswers | orbtrace/nmigen/cmsis_dap.py:321-355 | with the packet complete, one clock dispatches it and loads its answer |
| CmsisDap.SendByte | orbtrace/nmigen/cmsis_dap.py:297-314 | one clock of an answering engine sends the next answer byte, or ends the answer and leaves the engine ready; the busy engine takes none of the beats offered |
| CmsisDap.RejectCommand | orbtrace/nmigen/cmsis_dap.py:372-397 | a protocol error or a command the engine does not carry out is answered with 0xFF |
| CmsisDap.Drain | orbtrace/nmigen/cmsis_dap.py:297-314 | once the answer is sent the engine is idle and ready again, with the lights and the beats still offered unchanged |
| CmsisDap.DrainSends | orbtrace/nmigen/cmsis_dap.py:297-305 | the rest of the answer goes out one byte a clock, in order |
| CmsisDap.Exchange | orbtrace/nmigen/cmsis_dap.py:217-367 | corrected, a packet of its command's length sent to an idle engine is answered with exactly the CMSIS-DAP answer, after which the engine is ready again; only a host status packet changes a light (a packet one byte longer is answered 0xFF, see OverlongPacket) |
| CmsisDap.UnknownCommand | orbtrace/nmigen/cmsis_dap.py:292-293 | a packet starting with a command the engine does not know is answered with the single byte 0xFF |
| CmsisDap.ShortPacket | orbtrace/nmigen/cmsis_dap.py:235-267 | a packet that ends before all its command's parameters arrive is answered with 0xFF |
| CmsisDap.StoreEarly | orbtrace/nmigen/cmsis_dap.py:357-362 | in a packet longer than its command's length, a parameter byte that is not the last is stored and counted |
| CmsisDap.ReceiveOver | orbtrace/nmigen/cmsis_dap.py:357-362 | the parameters of a packet one byte too long arrive one a clock until the command's length is reached |
| CmsisDap.ExtraByteClock | orbtrace/nmigen/cmsis_dap.py:321-367 | the dispatching clock still takes the offered byte (input is refused only once busy is set); a last byte there makes the answer 0xFF |
| CmsisDap.OverlongPacket | orbtrace/nmigen/cmsis_dap.py:321-367 | a packet one byte longer than its command's length is answered with the single byte 0xFF, after which the engine is ready again |
| CmsisDap.SwjDispatchClock | orbtrace/nmigen/cmsis_dap.py:351-352 | the clock that dispatches a bit sequence takes the first data byte, which is lost, and starts the sequence with the packet's bit count, the answer being the command byte and one status byte |
| CmsisDap.SwjHeldClock | orbtrace/nmigen/cmsis_dap.py:184-197 | as written, a busy engine in SWJ sequence processing refuses the byte offered yet counts it: eight bits come off the count, and the engine answers with status 1 once at most eight bits remained |
| CmsisDap.SwjClocks | orbtrace/nmigen/cmsis_dap.py:186-191 | a held byte is counted once for each eight bits of the count (once for a count of 0), each count above 8 taking one clock more than eight bits fewer |
| CmsisDap.SwjCountsHeldBeat | orbtrace/nmigen/cmsis_dap.py:184-197 | as written, a held byte not marked last is counted every clock until the engine answers with status 1, with nothing taken and nothing sent |
| CmsisDap.SwjSequenceAsWritten | orbtrace/nmigen/cmsis_dap.py:175-197 | as written, every bit-sequence packet of five bytes or more is answered `12 01`, whatever its count, after which the engine is ready again with the packet's last bytes still offered |
| CmsisDap.SwjResetVector | orbtrace/nmigen/cmsis_test.py:132 | as written, the reset sequence `12 33 01 01 01 01 01 ff 00` is answered `12 01`, where the test script expects `12 00` |
| CmsisDap.SwjFixedDelivers | orbtrace/nmigen/cmsis_dap.py:184-197 | corrected, with every data byte delivered the engine answers with status 0 exactly when the packet carries the bytes its count needs, no fewer and no more, and with status 1 otherwise |
| CmsisDap.SwjFixedResetVector | orbtrace/nmigen/cmsis_test.py:132 | corrected, the reset sequence of the test script is answered `12 00`, as the script expects |
| CmsisDap.SwjSequenceVector | orbtrace/nmigen/cmsis_test.py:78 | the one-data-byte bit sequence `12 03 01` of the unused `tests2` list is answered 0xFF by the engine, where that list expects `12 00` |
| CmsisDap.ProtocolErrorAnswer | orbtrace/nmigen/cmsis_dap.py:396-397 | a protocol error is answered with 0xFF |
| CmsisDap.ShortRest | orbtrace/nmigen/cmsis_dap.py:364-367 | the bytes of a short packet are stored until the last, which gives 0xFF |
| CmsisDap.InfoVectors | orbtrace/nmigen/cmsis_test.py:59-65 | the firmware version, capabilities, timer, buffer size, packet count and packet size requests give the answers the unit's test script expects |
| CmsisDap.NumericItems | orbtrace/nmigen/cmsis_dap.py:6-7 | the timer frequency and the trace buffer size are sent as their four bytes, lowest first |
| CmsisDap.CommandVectors | orbtrace/nmigen/cmsis_test.py:66-76 | the LED, connect, disconnect, reset and pin requests give the answers the test script expects, 0xFF for the illegal ones |

## Left out

- Input and output: sockets, USB transfers, serial ports, files, child processes, terminal and graphical output, and the report printing of `orbtop` and `orbmortem` are not part of this model.
- Concurrency: the feeder threads and FIFOs are not modelled; every operation runs to completion on its own.
- Wall-clock time: the TPIU packet-interval check (`gettimeofday`) is the boolean parameter `inTime` of `TpiuDecoder.Step`, and the host timestamp stamped on each decoded message is left out.
- `TPIUPump2`, the callback wrapper around the TPIU pump, is not modelled; the model pumps bytes and hands frames back to the caller.
- Floating point: the utilisation percentages printed by `orbtop` and the `atof` parsing of voltages in `orbtrace` are left out; voltages enter the model as millivolts.
- OrbtraceIf: device discovery through libusb and the control transfers are left out; each setter yields the request it would send.
- RtosApi: the probe that reads thread details from the target over telnet is the function parameter `Probe`; the set of idle-thread addresses is a parameter too.
- The uthash tables of `orbtop` and `rtos_api` are sequences or maps; HASH_SORT itself is not modelled, only the comparators it is given.
- Thread fields that are only read by the report writers (names, priorities as text, stack details) are carried unchanged or not at all.
- `COBSDelete` (a `free`) is not modelled; `COBSisEOFRAME` is inlined into the pump.
- Cobs.SimpleDecode: `COBSSimpleDecode` can read up to 253 bytes past `len`, as its inner copy loop never checks the end of the input; the model reads zeros there.
- OrbtraceIf.NameToChannel: when the argument text is a proper prefix of a table name, `tolower( *y++ )` consumes the text's terminating NUL and the `!*y` test then reads the byte after it, past the end of the argument; the model stops at the end of the sequence.
- OrbtraceIf.StrCmpInt: NULL strings are `None`; two NULL strings reach `strcmp(NULL, NULL)`, which is undefined in C, and the model completes that case as 0.
- ItmDecoder.Decoder.GetPacket: returns the packet under construction, as `ITMGetPacket` evidently intends; the copy as written, which lands at the caller's `d` and overruns the caller's packet (see Findings), is `ItmDecoder.CopyPacketAsWritten`, with a 4-byte enum and zero padding assumed for the layout.
- TpiuDecoder.Decoder.ForceSync: requires an even offset below 16, which callers are expected to pass but the C code does not check.
- MsgSeq.Sequencer.Pump: requires a free slot in the ring and a ring of at least two entries, which the C code only asserts.
- OrbTop: the exception number is required to be below `MAX_EXCEPTIONS`, which the C code asserts rather than checks.
- Unsigned counters that could wrap after 2^32 or 2^64 events (`instCount`, `asyncCount`, the statistics, the thread counters) are unbounded integers; the 32-bit cycle counter of the RTOS view and the address and timestamp registers of the trace engines are wrapped explicitly.
- Shifts by 32 or more bits, undefined in C, are modelled as truncation to the register width; sign extension is not modelled anywhere.
- TraceEtm4: `contextID` is set from `vcontext`, the virtual-context packet moves on after one byte, and `ForceSync` leaves `rxedISYNC` as it is, all as written; the never-written `cyct` threshold is left out.
- TraceEtm35: the standard-branch mask without shift, the timestamp shift by `byteCount`, the Thumb flip, the cancelled-exception quirk, context IDs with `contextBytes` 0 and the unreachable `WAIT_ISYNC` state are modelled as written; `contextBytes`, `dataOnlyMode` and `cycleAccurate` are always zero, as nothing in the decoder sets them.
- TraceDecoder.ExceptionName: negative exception numbers cannot arise in the model (numbers are `nat`).
- TraceMtb: the MTB words are taken as already-assembled 32-bit values; the little-endian read from the byte buffer is in `TraceDecoder.MtbPairs`.
- The static result buffers of the string helpers are sequences; their size limit is kept explicitly.
- Generics.Unescape: an octal escape "\0" yields a NUL, which in C ends the string; the model keeps it in the sequence.
- Generics.BasenameN: the count of path elements is a `nat`; negative counts are not modelled.
- Generics.Reporting.SetReportLevel: the levels are numbers up to `V_MAX_VERBLEVEL`; the output it controls is not modelled.
- OrbMortem.OpenFileCommand: the truncation at `SCRATCH_STRING_LEN` is not modelled; the command is unbounded.
- OrbMortem: symbol loading and the screen interface are not modelled.
- OrbTop: the `prev` links may form a cycle when an enter overwrites a link in use; the model allows it, as the C code does.
- RtosApi: `thread_count` also counts threads whose probe failed, as written.
- MsgDecoder: the `MSG_ERROR` default of the packet dispatch cannot be reached from a packet type the decoder produces.
- CmsisDap: the quiet idle beats of the USB streams are not modelled; the host's IN side is always ready.
- CmsisDap.Exchange: `DAP_SWJ_Sequence` is excluded; its packets are covered by `CmsisDap.SwjSequenceAsWritten` (five bytes or more) and `CmsisDap.SwjSequenceVector` (three bytes), and a four-byte packet has no lemma of its own.
- CmsisDap.StepSwjFixed: the corrected step counts only delivered bytes and also replaces the status test of a last byte (orbtrace/nmigen/cmsis_dap.py:194-196); it is stated on registers fed with delivered bytes (`CmsisDap.SwjFixedRun`); it is not wired into `CmsisDap.Tick`, whose readiness (orbtrace/nmigen/cmsis_dap.py:211-213) still refuses input while the engine is busy. The bits themselves are not shifted out to a pin in this model.
- CmsisDap.Exchange: packets of exactly the command's length are covered, and `CmsisDap.OverlongPacket` covers packets one byte longer; for packets two or more bytes longer, no lemma states what happens to the surplus bytes.
- CmsisDap: the SWO, JTAG, transfer and command-queue commands are answered with 0xFF by this state machine (`CmsisDap.Dispatch`, `CmsisDap.Step`); the test-script vectors that expect other answers for them (orbtrace/nmigen/cmsis_test.py:80-100) are not modelled; the canary register is left out.
- CmsisDap: the properties of whole runs are stated for any clocked input stream, not for the test bench's particular timing.
- Duplicated or stale decoders (`etmDecoder.c`, `etmdec.c`, `itmSeq.c`, `orbtop_rtos.c`, `otag.c`) and the small command-line parsers listed as lower priority (`filewriter.c` command bytes, channel-list parsing, `_parseHWEventsArg`, `rtx5GetPriorityName`, `_paintPixels`, the `sump2` helpers) are not part of this model.

## Findings

| source | as written | input that shows it | evidently intended | confidence | as-written member | corrected member |
|---|---|---|---|---|---|---|
| Inc/cobs.h:23 | the frame buffer is declared `COBS_MAX_ENC_PACKET_LEN` (4122) bytes long | a packet of 4106 bytes of 0x01 encodes to 4124 bytes, 2 more than the buffer | a buffer large enough for every packet `COBSEncode` accepts | high, not executed | Cobs.EncodeOverrunsDeclaredFrame | Cobs.EncodedFits |
| Src/cobs.c:147-159 | the implicit zero at the end of a full block is stored without checking the frame length | 0x01 repeated 4124 times leaves a frame longer than the buffer | every store into the frame is bounded by the length check | high, not executed | Cobs.PumpOverrunsFrameAsWritten | Cobs.PumpStepKeepsFrameBounded |
| Src/msgDecoder.c:196 | the third byte of a long local timestamp is shifted in without masking its continuation bit | C0 81 80 02 gives 0xC001 instead of 0x8001 | 7 bits from each continued byte | high, not executed | MsgDecoder.TimeIncAsWrittenSetsBit14 | MsgDecoder.TimeInc |
| Src/traceDecoder_etm4.c:401-404 | the reserved-value guard compares the header with 3 rather than its low two bits | header 0x93 reads a fourth entry of the three-entry address queue | reject the reserved index 3 | high, not executed | TraceEtm4.ExactMatchAsWrittenOverruns | TraceEtm4.ExactMatchFindsQueue |
| Src/traceDecoder_etm4.c:689-739 | the index of an `IS0` long address, in the 32-bit collector (689-699) and in the 64-bit one (723-739), starts at 2 and advances by 7 and then by 8, so it never equals 32 or 64 | an `IS0` long address packet never ends | the packet ends after its four or eight address bytes | high, not executed | TraceEtm4.Is0AsWrittenRunsOn | TraceEtm4.LongAddressesEnd |
| Src/traceDecoder_etm4.c:765,769 | the timestamp byte goes in with the same mask, which keeps the old bits of the byte's own field instead of clearing them and clears every other bit | a timestamp 0x80 followed by a one-byte timestamp 0x05 reads 0x05, and old low bits 3 under a byte 0x04 read 7 | the byte replaces the seven (or eight) bits of its field and the other bits are kept; the corrected step is proved to keep every bit below the field | high, not executed | TraceEtm4.TimestampAsWrittenLosesBits | TraceEtm4.TimestampStep |
| Src/traceDecoder_etm4.c:725,738 | the mask that is meant to keep the other bits of the address keeps only the bits of the field being written | an address with low byte 2 reads 0 after a zero byte at bit 8 | update one field and keep every other bit | high, not executed | TraceEtm4.KeepPutLosesLowBits | TraceEtm4.PutKeepsBelow |
| Src/traceDecoder_etm35.c:693-727 | the field masks of the information byte are hex constants such as `0x10000000` with the digits of binary masks, so only `0x10` (bit 4) reads a bit of the byte, and it sets the hypervisor flag | byte 0x80 is read as no load or store in progress; byte 0x10 (Jazelle) is read as hypervisor mode | bit 7 load/store in progress, bits 6:5 reason, bits 4 to 1 Jazelle, non-secure, alternative ISA and hypervisor | medium, not executed | TraceEtm35.InfoAsWrittenLosesLSiP | TraceEtm35.DecodeInfo |
| Src/traceDecoder_etm35.c:76-79 | each change sets bit `1 << c` of a 32-bit record, but there are 33 changes | raising `EV_CH_EVENT3` sets no bit | one flag per change | high, not executed | TraceCpu.Event3HasNoBit | TraceCpu.RaiseThenAsk |
| Src/itmDecoder.c:100 | the packet is copied to the caller's `d` field rather than to the caller's packet, `sizeof( struct ITMPacket )` bytes from offset 7 | any packet: 7 bytes past a 24-byte caller packet are overwritten, and a one-octet packet reads back with its caller's old length | `memcpy( p, &i->pk, sizeof( struct ITMPacket ) )` | high, not executed | ItmDecoder.CopyPacketAsWrittenOverruns | ItmDecoder.CopyPacket |
| Src/generics.c:63-89 | the limit check lets a two-character escape start at the last free place of the buffer | 4094 plain characters followed by a newline put the terminator one place past the end of the buffer | an escape that does not fit is left out, so the output never exceeds the buffer less its terminator | high, not executed | Generics.EscapeAsWrittenOverruns | Generics.EscapeBounded |
| Src/generics.c:140-160 | after an octal escape, the character that ended the digits is skipped | "\101B" unescapes to "A" | "AB" | high, not executed | Generics.UnescapeOctalExample | Generics.RoundTrip |
| Src/generics.c:246 | the slash test looks at the character the loop has just found not to be a slash, so the count never goes down | "a/b" asked for one element before the last | "a/b" | medium, not executed | Generics.BasenameNExample | Generics.BasenameN |
| Src/orbmortem.c:919-922 | a wrapped buffer is dumped from `rp` to the end and then from 0 to `wp`, even when the buffer has not wrapped | [1,2,3,4] with `rp` 0 and `wp` 1 hands over 1,2,3,4,1 | only the bytes between `rp` and `wp` | high, not executed | OrbMortem.DumpAsWrittenRepeats | OrbMortem.Dump |
| Src/orbmortem.c:1012-1026 | a `%` at the end of the template reads the terminator as the placeholder letter and carries on past it | "vi %" | stop at the end of the template | high, not executed | OrbMortem.TrailingPercentOverruns | OrbMortem.ExpandAgrees |
| Src/rtos/rtos_api.c:336 | cycles are turned into microseconds by dividing by `cpu_freq / 1000000` | a clock of 500 kHz divides by zero | a clock below 1 MHz yields `delta * 1000000 / cpu_freq` microseconds | high, not executed | RtosApi.SlowClockDividesByZero | RtosApi.DeltaTime |
| Src/rtos/rtos_api.c:831,865 | the share of each thread (831) and the overall usage (865) are cast to 32 bits before they are capped | 429497 µs in a 1 µs window gives 2704 | the cap of 10000 | high, not executed | RtosApi.CpuPctWraps | RtosApi.CpuPct |
| Src/orbtraceIf.c:633-635 | the width is truncated to 16 bits and 3 is accepted as well as 4 | widths 3 and 65537 are sent as 3 and 1; orbtrace itself never passes them, as it refuses every width but 0, 1, 2 and 4 (Src/orbtrace.c:480-483) before the call at Src/orbtrace.c:650 | only widths 1, 2 and 4 | high, not executed | OrbtraceIf.TraceWidthAsWrittenAliases | OrbtraceIf.TraceWidthOnto |
| Src/orbtrace.c:459-460 | the SWO/UART consistency check joins two contradictory conditions with `&&` | a serial speed without UART SWO passes | reject a speed without UART and UART without a speed | high, not executed | OrbTrace.SpeedWithoutUartPasses | OrbTrace.CheckOptionsAgree |
| orbtrace/nmigen/cmsis_dap.py:91-94 | the packet-count and packet-size answers set a length of 6 but fill only 3 or 4 bytes | 0xFE after a version request sends the version's stale bytes | lengths 3 and 4 | high, not executed | CmsisDap.PacketCountSendsStaleBytes | CmsisDap.InfoVectors |
| orbtrace/nmigen/cmsis_dap.py:184-197 | the sequence state counts every byte offered, though the busy engine refuses them, so the one byte held is counted again and again; the dispatching clock has already taken and dropped the first data byte; the status is 1 whenever a byte not marked last meets the end of the count; and a byte marked last sets the status to `swjbits != 0` on the count before that byte, so even with every byte delivered a count from 1 to 255 is answered 1 (`CmsisDap.SwjDeliveredAsWrittenAnswers`) | `12 33 01 01 01 01 01 ff 00` is answered `12 01` | count only delivered bytes, and replace the last-byte status test so that the answer is `12 00` when the packet carries exactly the bytes its count needs | high, not executed | CmsisDap.SwjResetVector | CmsisDap.SwjFixedDelivers |
