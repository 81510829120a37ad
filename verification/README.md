# Verified model of the tracker gateway

The gateway takes TCP connections from AVT110 trackers (binary frames that end in `#`) and StarLink
trackers (text lines), cuts the byte streams into messages, decodes them, keeps a registry of connected
devices, acknowledges and stores reports, and hands device events to pollers. This project models that
path in Dafny and proves what each part promises over all inputs and all runs.

`dafny verify dfyconfig.toml` checks everything.

## Layout

| file | what it models |
|---|---|
| `Bytes.dfy`, `Wrappers.dfy`, `Commas.dfy` | buffers, `indexOf`, big-endian integers; `Option` and `Result`; splitting on commas |
| `FrameSplitter.dfy` | the AVT110 frame splitter: length decision, drain loop, overflow; the class and its runs |
| `Schema.dfy` | field shapes as data, with a decoder and an encoder as their meaning; the round trip for every shape |
| `Truncation.dfy` | what any shape decodes to from a cut buffer |
| `ReportLayout.dfy`, `ReportTheorems.dfy`, `PhantomField.dfy` | the `+RPT` data zone as shapes, bit by bit; round trip and truncation of whole zones; a cut zone that shows a field the device never sent |
| `WireFormat.dfy`, `WireReports.dfy`, `WireCuts.dfy` | the same zone written out independently, as bytes: what each bit carries, and that the decoder reads exactly that |
| `BufferCursor.dfy`, `FieldReader.dfy`, `BlockSwitches.dfy`, `ReportParser.dfy` | the decoder as the service writes it: a mutable cursor, a loop per mask, a switch per bit, a shared warning list; each method refines the schema meaning |
| `PeoFences.dfy`, `AsciiZone.dfy` | the `PEO` fence scanner and the ASCII data zone |
| `FrameParser.dfy`, `FrameContents.dfy` | `parseFrame`, the fixture encoder, agreement with the splitter, the whole pipeline; frames byte for byte, by the bytes of their head tokens |
| `Server.dfy`, `ConnectionTimes.dfy` | registry, connections, saves and acknowledgements as a state machine; connection and activity times |
| `Gateway.dfy`, `TcpServer.dfy` | sockets that deliver chunks, each with its own splitter: from messages to acknowledgements; the server and its connection objects, whose handlers take the steps |
| `LineSplitter.dfy`, `StarlinkLine.dfy`, `StarlinkReport.dfy`, `StarlinkFrame.dfy`, `StarlinkPayload.dfy` | StarLink lines, their grammar, the event report decoder, whole messages; every payload field by its tag string |
| `Outbox.dfy` | the find-then-mark poll under interleaving |
| `DeviceStore.dfy`, `CutSnapshot.dfy`, `SnapshotFields.dfy` | the device snapshot as a fold of partial patches, interleaved saves; what a cut report can put into it; which mask bit each column comes from |

Each method that loops or changes state is proved against a function of its inputs or of the old state;
the lemmas then say what the source promises about that function. Socket events, the settling of a save and
query results among rows of equal time are choices of the environment: the state machines quantify over all
of them. `Number()`, the StarLink number and time parsers and the clock are parameters.

## Results that differ from what the source says of itself

- Framing is not independent of how the stream is cut. With an honest Length but only part of the frame
  buffered, the fallback scan can stop at a `#` in the data zone, time or serial number.
  `FrameSplitter.ChunkIndependence` gives the exact condition for frames with right and wrong Lengths and
  `FrameSplitter.InnerHashWitness` a heartbeat that breaks it.
- Resync discards garbage up to a `#`, but only if no colon comes within the first 8 bytes. Shorter
  garbage is taken for part of the next head token and delivered with the frame behind it
  (`FrameSplitter.ResyncExactly`, `FrameSplitter.JunkSticks`).
- The fast path emits frames that are too short to parse (`FrameParser.ShortFrameWitness`). `parseFrame` throws
  on them, although its class comment (src/tracker/parser/tracker-parser.service.ts:72-75) says it never does;
  `FrameParser.ThrowsExactly` says on which inputs.
- The fallback exists for devices that declare the total frame size. A stream of frames comes out whole exactly
  if each of them survives what follows it: it has a head token and ends in `#`, and either its Length is right,
  or the scan finds no `#` in it before the last byte and its wrong end does not land on a `#`
  (`FrameSplitter.RecoveredExactly`). Devices that declare the total size, with equally long head tokens, come
  out whole in every chunking exactly if no frame holds a `#` within reach of the scan, each fits the buffer,
  and no IMEI but the first begins with 35 (`FrameParser.TotalSizeStream`). The IMEI in the class comment begins
  with 35: the frame before it swallows its head (`FrameParser.SwallowWitness`). A `#` in the serial number cuts
  such a frame short even when it is delivered whole (`FrameSplitter.TotalSizeHashWitness`).
- The repository's README (README.md:215) says that a truncated report keeps everything decoded up to that
  point. A cut inside a nested block is caught by that block's own loop and the Data Mask loop goes on, so later
  blocks are read from the rest of the broken one. `ReportTheorems.PhantomsExactly` says by the layout of the
  whole zone when such phantom blocks appear, `ReportTheorems.TruncatedReport` what they follow,
  `ReportTheorems.PhantomsComeFromWideFields` in which fields the cut must fall, and
  `PhantomField.PhantomWitness` shows one. They never reach the device snapshot
  (`CutSnapshot.CutReportNeverWrong`).
- A comment (src/tracker/tcp/tracker-tcp-server.service.ts:103-104) says a socket always belongs to one IMEI;
  nothing enforces it, and `close` unregisters by IMEI, not by socket. `Server.SoundExactly`,
  `Server.TruthfulExactly`, `Server.BalancedExactly` and `Server.OrderlyExactly` say for which runs the registry
  and the events are right; `Server.OverlapWitness` and `Server.ReidentifiedWitness` are runs for which they are
  not.

## Model

| member | source | states |
|---|---|---|
| `Bytes.IndexOf` | src/tracker/tcp/tracker-frame-splitter.ts:159-162 | `indexOf` from an offset: the first occurrence at or after it, or -1 and no occurrence |
| `Bytes.UIntRoundTrip` | src/tracker/parser/utils/buffer-cursor.ts:91-96 | a big-endian unsigned read inverts the write, for any width |
| `Bytes.SIntRoundTrip` | src/tracker/parser/utils/buffer-cursor.ts:99-104 | a big-endian two's complement read inverts the write, negative numbers included |
| `FrameSplitter.Resolve` | src/tracker/tcp/tracker-frame-splitter.ts:122-167 | a decided frame is non-empty, fully buffered and ends in `#` |
| `FrameSplitter.DecisionStability` | src/tracker/tcp/tracker-frame-splitter.ts:122-167 | under more input a desync stays one, a trusted boundary stays, and a fallback boundary stays or becomes the declared one, which it can no longer do once the declared end was buffered |
| `FrameSplitter.DrainConserves` | src/tracker/tcp/tracker-frame-splitter.ts:73-92 | the loop cuts the buffer into consecutive segments and a rest and loses no byte |
| `FrameSplitter.DrainSettles` | src/tracker/tcp/tracker-frame-splitter.ts:73-92 | what the loop leaves holds nothing more to extract |
| `FrameSplitter.DrainLawful` | src/tracker/tcp/tracker-frame-splitter.ts:73-92 | each frame was cut by the length decision and each resync discard has exactly one `#`, its last byte |
| `FrameSplitter.PushConserves` | src/tracker/tcp/tracker-frame-splitter.ts:68-101 | one push: segments and pending bytes are exactly pending plus chunk, pending never exceeds the limit, nothing extractable is left |
| `FrameSplitter.RunConserves` | src/tracker/tcp/tracker-frame-splitter.ts:68-101 | the same over every run of pushes: bytes received equal frames, discards, overflow drops and pending, in order |
| `FrameSplitter.EmptyPushIsIdle` | src/tracker/tcp/tracker-frame-splitter.ts:68-101 | after any push an empty push emits nothing and changes nothing |
| `FrameSplitter.OnePushDelivers` | src/tracker/tcp/tracker-frame-splitter.ts:140-147 | honest frames delivered in one push come out whole whatever bytes they hold, nothing stays pending |
| `FrameSplitter.ChunkIndependence` | src/tracker/tcp/tracker-frame-splitter.ts:68-167 | for every list of byte strings: every way of cutting their stream into pushes delivers exactly this list if and only if each survives what follows it, none holds a `#` within reach of the scan, and each fits the buffer without its terminator |
| `FrameSplitter.HonestChunks` | src/tracker/tcp/tracker-frame-splitter.ts:68-167 | for frames with a right Length the condition is on each frame alone: no `#` within reach of the scan, and it fits the buffer |
| `FrameSplitter.InnerHashBreaks` | src/tracker/tcp/tracker-frame-splitter.ts:149-166 | in a stream whose frames survive in one push, right or wrong in Length, a frame with a `#` within reach of the scan gives a cutting that is not delivered |
| `FrameSplitter.OversizeBreaks` | src/tracker/tcp/tracker-frame-splitter.ts:94-98 | in such a stream a frame that does not fit the buffer without its terminator, with no `#` within reach of the scan, gives a cutting that is not delivered |
| `FrameSplitter.InnerHashWitness` | src/tracker/tcp/tracker-frame-splitter.ts:149-166 | a heartbeat with serial number 0x2301, split behind 0x23, is cut two bytes short |
| `FrameSplitter.FallbackRecovers` | src/tracker/tcp/tracker-frame-splitter.ts:149-166 | for all bytes: a frame is cut whole before what follows it if and only if it survives, that is, it has a head token and ends in `#`, and its Length is right or the scan finds no earlier `#` in it and its declared end does not land on a `#` |
| `FrameSplitter.RecoveredExactly` | src/tracker/tcp/tracker-frame-splitter.ts:140-166 | for every list of byte strings: their concatenation drains to exactly this list if and only if each survives what follows it; no other condition on Lengths or on `#` bytes |
| `FrameSplitter.OnePushRecovers` | src/tracker/tcp/tracker-frame-splitter.ts:68-101 | the same for a push into an empty buffer, with nothing left pending |
| `FrameSplitter.TotalSizeHashWitness` | src/tracker/tcp/tracker-frame-splitter.ts:149-166 | a heartbeat that declares its total size and has serial number 0x2301 is cut short although nothing follows it and its Length lands nowhere |
| `FrameSplitter.ResyncExactly` | src/tracker/tcp/tracker-frame-splitter.ts:78-86 | garbage that ends in its only `#`, with no colon in its first 8 bytes, before frames that survive, the first with a right Length: exactly these frames come out if and only if the first colon behind it is out of the search window; otherwise the first frame comes out with the garbage in front |
| `FrameSplitter.JunkSticks` | src/tracker/tcp/tracker-frame-splitter.ts:122-147 | shorter garbage and the frame behind it are cut as one frame, and its end is believed |
| `FrameSplitter.TrackerFrameSplitter.ExtractFrames` | src/tracker/tcp/tracker-frame-splitter.ts:72-92 | the loop returns the frames and leaves the rest of the drain specification |
| `FrameSplitter.TrackerFrameSplitter.Push` | src/tracker/tcp/tracker-frame-splitter.ts:68-101 | returns and keeps what the push specification says, and keeps the ledger: all bytes ever received are the lawful history followed by the buffer |
| `FrameSplitter.TrackerFrameSplitter.PendingByteCount` | src/tracker/tcp/tracker-frame-splitter.ts:104-106 | pending bytes never exceed the limit and are what the history does not account for |
| `FrameSplitter.TrackerFrameSplitter.Reset` | src/tracker/tcp/tracker-frame-splitter.ts:108-110 | drops the buffer, recorded as dropped in the ledger |
| `BufferCursors.BufferCursor.ReadBytes` | src/tracker/parser/utils/buffer-cursor.ts:36-41 | fails exactly when fewer bytes remain and then moves nothing; otherwise returns the bytes and advances by their number |
| `BufferCursors.BufferCursor.Skip` | src/tracker/parser/utils/buffer-cursor.ts:43-46 | the same without a value |
| `BufferCursors.BufferCursor.ReadUInt` | src/tracker/parser/utils/buffer-cursor.ts:48-96 | the same, with the big-endian unsigned integer at the offset |
| `BufferCursors.BufferCursor.ReadInt` | src/tracker/parser/utils/buffer-cursor.ts:55-104 | the same, with the two's complement integer at the offset |
| `Schema.RoundTrip` | src/tracker/parser/tracker-parser.service.ts:377-479 | for every shape and every value of it, decoding the encoding anywhere in a buffer gives the value back, without warnings, cursor at its end |
| `Schema.RoundTripBits` | src/tracker/parser/tracker-parser.service.ts:550-671 | the same for a mask loop: fields encoded lowest bit first come back as the same entries with nothing unsupported |
| `Schema.RoundTripRecords` | src/tracker/parser/tracker-parser.service.ts:491-499 | the same for records that share one mask |
| `Truncation.Lockstep` | src/tracker/parser/utils/buffer-cursor.ts:30-46 | a field whose reads all end within the cut decodes to the same outcome from the cut buffer, for every shape |
| `Truncation.LockstepBits` | src/tracker/parser/tracker-parser.service.ts:377-479 | the same for any mask loop, nested blocks included |
| `Truncation.Straddle` | src/tracker/parser/tracker-parser.service.ts:491-541 | a block-free field the cut goes through fails; only complete items of a kept list survive, as a prefix of the true ones |
| `Truncation.StraddleBits` | src/tracker/parser/tracker-parser.service.ts:550-671 | a block's own loop, cut anywhere, stops with a warning and has decoded a prefix of the true entries, the last of which may be a partial list of complete readings |
| `Truncation.FindCut` | src/tracker/parser/tracker-parser.service.ts:377-479 | a cut goes through exactly one announced field; all entries before it are identical |
| `Truncation.BlocksNeedMask` | src/tracker/parser/tracker-parser.service.ts:469-478 | from a given offset on, nested blocks are found if and only if a field bit is left and four bytes remain |
| `Truncation.BlockCut` | src/tracker/parser/tracker-parser.service.ts:664-670 | a cut nested block keeps its complete fields, warns, and the outer loop goes on behind the failed read |
| `Truncation.WideStop` | src/tracker/parser/utils/buffer-cursor.ts:30-46 | a loop that leaves four bytes behind its failed read stopped at a field with a read wider than four bytes |
| `Truncation.PhantomNeedsWideRead` | src/tracker/parser/tracker-parser.service.ts:664-670 | anything decoded behind a broken block means that the cut fell into such a field of it |
| `Truncation.StopsAtRead` | src/tracker/parser/utils/buffer-cursor.ts:30-46 | a cut plain field stops its cursor at the start, in the whole buffer, of the read the cut goes through |
| `Truncation.PhantomExactly` | src/tracker/parser/tracker-parser.service.ts:664-670 | something is decoded behind a cut block if and only if the cut comes four bytes or more behind the start of the read it goes through, and a later field bit is set |
| `ReportLayout.EventDataRule` | src/tracker/parser/tracker-parser.service.ts:555-663 | what each Event Data Mask bit carries; every field is block-free |
| `ReportLayout.CanInfo1Rule` | src/tracker/parser/tracker-parser.service.ts:698-802 | what each CAN Info Mask 1 bit carries |
| `ReportLayout.CanInfo2Rule` | src/tracker/parser/tracker-parser.service.ts:834-954 | what each CAN Info Mask 2 bit carries |
| `ReportLayout.ElectricInfo1Rule` | src/tracker/parser/tracker-parser.service.ts:990-1033 | what each Electric Info Mask 1 bit carries |
| `ReportLayout.CanInfo3Rule` | src/tracker/parser/tracker-parser.service.ts:1065-1084 | what each CAN Info Mask 3 bit carries |
| `ReportLayout.ReportRule` | src/tracker/parser/tracker-parser.service.ts:382-468 | what each Data Mask bit carries: block-free fields below bit 8, only self-catching blocks from there on |
| `ReportLayout.ReportUnfolds` | src/tracker/parser/tracker-parser.service.ts:358-376 | a zone misses part of its 8-byte header and fails, or is its header and the scan of its mask |
| `WireReports.ReportOnWire` | src/tracker/parser/tracker-parser.service.ts:358-489 | the report zone byte for byte: for every Data Mask, nested mask, fix mask, satellite mask and sensor mask, the literal big-endian bytes of the fields they announce, in bit order, decode to exactly these values, cursor at the end, with one warning per block for exactly the announced bits that no field is known for |
| `WireReports.FieldNames` | src/tracker/parser/tracker-parser.service.ts:382-1084 | every decoded bit fills the payload field of its own name, for all masks |
| `WireFormat.FieldsRead` | src/tracker/parser/tracker-parser.service.ts:550-671 | for any table whose rules agree bit by bit: the mask loop reads the bytes of the announced fields as their values |
| `WireCuts.SensorsCut` | src/tracker/parser/tracker-parser.service.ts:591-610 | a 1-wire list cut anywhere behind its count decodes to exactly the sensors wholly in front of the cut, with the warning that the block stopped at bit 9 |
| `WireCuts.CodesCut` | src/tracker/parser/tracker-parser.service.ts:904-946 | a trouble code or tyre list cut anywhere keeps nothing, with the warning that the block stopped at its bit |
| `ReportTheorems.ReportRoundTrip` | src/tracker/parser/tracker-parser.service.ts:358-489 | every report built from supported bits decodes back to itself, without warnings, cursor at the very end |
| `ReportTheorems.HeaderOfZone` | src/tracker/parser/test-fixtures.ts:72-88 | the fixture header holds version, event type, event state and mask, with the field bytes behind it |
| `ReportTheorems.UncutReport` | src/tracker/parser/tracker-parser.service.ts:377-479 | a zone whose reads all end within the cut decodes the same from the cut zone |
| `ReportTheorems.TruncatedReport` | src/tracker/parser/tracker-parser.service.ts:377-479 | any cut behind the header: fields before it unchanged, a cut plain field absent with all that follows, a cut block keeps its complete fields; phantom blocks follow exactly when another field bit is set and four bytes are left |
| `ReportTheorems.PhantomsComeFromWideFields` | src/tracker/parser/tracker-parser.service.ts:586-615 | phantom blocks come only from cuts in prefixed bytes or text, 1-wire readings and hour meters, never from an Electric Info 1 or CAN Info 3 block |
| `ReportTheorems.PhantomsExactly` | src/tracker/parser/tracker-parser.service.ts:469-478 | the same for every report zone and every cut that goes through one of its nested blocks, by the layout of the whole zone |
| `PhantomField.PhantomWitness` | src/tracker/parser/tracker-parser.service.ts:664-670 | a 24-byte zone that, cut to 17 bytes, decodes to a CAN block with a mask the device never sent |
| `Truncation.PlainQuiet` | src/tracker/parser/tracker-parser.service.ts:491-541 | only self-catching blocks push warnings |
| `FieldReader.ReadPrefixed` | src/tracker/parser/utils/buffer-cursor.ts:107-110 | refines the meaning of length-prefixed bytes and text; a failed read leaves the cursor behind the length byte |
| `FieldReader.ReadShape` | src/tracker/parser/tracker-parser.service.ts:698-802 | table-driven reads refine the meaning of their shape |
| `FieldReader.ReadTuple` | src/tracker/parser/tracker-parser.service.ts:559-578 | several reads in a row refine the meaning of a tuple |
| `FieldReader.ReadItems` | src/tracker/parser/tracker-parser.service.ts:905-912 | a counted list is read item by item; a failure leaves the complete items |
| `FieldReader.ParseGnssFix` | src/tracker/parser/tracker-parser.service.ts:501-541 | straight-line flag reads return exactly the fields the mask announces, or throw where the mask loop would stop |
| `FieldReader.ParseGnssBlock` | src/tracker/parser/tracker-parser.service.ts:491-499 | all fixes share one mask; a cut fix throws the whole block away |
| `FieldReader.ReadOneWire` | src/tracker/parser/tracker-parser.service.ts:591-610 | a cut sensor list keeps the complete readings |
| `BlockSwitches.ReadEventDataField` | src/tracker/parser/tracker-parser.service.ts:555-663 | the switch over Event Data Mask bits does what the layout says of the bit |
| `BlockSwitches.ReadCanInfo1Field` | src/tracker/parser/tracker-parser.service.ts:698-802 | the same for CAN Info Mask 1 |
| `BlockSwitches.ReadCanInfo2Field` | src/tracker/parser/tracker-parser.service.ts:834-954 | the same for CAN Info Mask 2 |
| `BlockSwitches.ReadElectricInfo1Field` | src/tracker/parser/tracker-parser.service.ts:990-1033 | the same for Electric Info Mask 1 |
| `BlockSwitches.ReadCanInfo3Field` | src/tracker/parser/tracker-parser.service.ts:1065-1084 | the same for CAN Info Mask 3 |
| `ReportParser.ScanBits` | src/tracker/parser/tracker-parser.service.ts:550-671 | the loop over a mutable cursor and warning list refines the recursive scan: entries, unsupported bits, cursor and warnings in order |
| `ReportParser.ScanMask` | src/tracker/parser/tracker-parser.service.ts:469-486 | the same with the closing warning about unsupported bits |
| `ReportParser.ParseBlock` | src/tracker/parser/tracker-parser.service.ts:543-680 | a nested block: only its mask can throw, failures behind it are caught and reported |
| `ReportParser.ReadReportField` | src/tracker/parser/tracker-parser.service.ts:382-468 | the switch over Data Mask bits, nested blocks with their warnings |
| `ReportParser.ParseReportDataZone` | src/tracker/parser/tracker-parser.service.ts:358-489 | the imperative decoder returns and warns exactly what the schema meaning of the zone says, for every buffer |
| `Commas.SplitExactly` | src/tracker/parser/tracker-parser.service.ts:245-246 | splitting on commas gives the only comma-free fields that join to the text |
| `Commas.SplitCounts` | src/tracker/parser/tracker-parser.service.ts:245-246 | there is one field more than there are commas |
| `PeoFences.ParsePeoFenceList` | src/tracker/parser/tracker-parser.service.ts:267-352 | the nested index loops with early exits return the fences and warnings of the scan, in no more point-loop turns than there are fields |
| `PeoFences.ReadPointList` | src/tracker/parser/tracker-parser.service.ts:297-313 | the point loop returns the complete points, the cursor and whether it was cut |
| `PeoFences.TurnsBounded` | src/tracker/parser/tracker-parser.service.ts:282-313 | whatever start and end a record declares, all point-loop turns together are bounded by the fields left |
| `PeoFences.FencesLie` | src/tracker/parser/tracker-parser.service.ts:267-352 | for any field list: the fences lie in it one behind the other, each value at its own field; without a warning every marker belongs to one of them, and a warning names the first marker that starts no record and the field where reading failed |
| `PeoFences.RecordScan` | src/tracker/parser/tracker-parser.service.ts:273-349 | one record at any offset, whole or cut behind any of its fields |
| `PeoFences.PrefixScan` | src/tracker/parser/tracker-parser.service.ts:267-352 | any whole-field prefix decodes to exactly the fences wholly inside it, with one warning exactly when a record is cut behind its marker |
| `PeoFences.PeoRoundTrip` | src/tracker/parser/tracker-parser.service.ts:267-352 | any fences, with any other fields around them, decode to themselves without warnings |
| `AsciiZone.ParseAsciiDataZone` | src/tracker/parser/tracker-parser.service.ts:241-259 | raw text, fields, command key, fences and fence warnings of an ASCII zone |
| `AsciiZone.TextDecodes` | src/tracker/parser/tracker-parser.service.ts:241-259 | any text of comma-free fields: the fields, the first one as command key unless empty, and the fences and warnings of the fields, where exactly the text `PEO` is the marker |
| `AsciiZone.FenceTextDecodes` | src/tracker/parser/tracker-parser.service.ts:241-352 | the text of any fence records among other fields, markers spelled `PEO`, decodes to those fences |
| `FrameParser.DecodeImeiLoop` | src/tracker/parser/utils/binary-codec.util.ts:12-22 | the loop builds two digits for each of seven bytes and the last digit of the eighth |
| `FrameParser.ImeiRoundTrip` | src/tracker/parser/test-fixtures.ts:7-17 | every 15-digit IMEI survives encoding and decoding |
| `FrameParser.ReadHeader` | src/tracker/parser/tracker-parser.service.ts:166-222 | fails exactly when the section is shorter than header and trailer; otherwise header fields, data zone and mismatch flag at their offsets in the frame |
| `FrameParser.ReadBody` | src/tracker/parser/tracker-parser.service.ts:116-138 | the data zone by kind, with the warnings it adds in order |
| `FrameParser.Parse` | src/tracker/parser/tracker-parser.service.ts:81-141 | `parseFrame` as written equals its specification, errors and warning order included |
| `FrameSplitter.CutGeometry` | src/tracker/tcp/tracker-frame-splitter.ts:140-166 | what a cut leaves for the parser: a colon in reach, a `#` at the end, a boundary that is the declared one exactly when the fast path chose it |
| `FrameParser.ParserOnFrame` | src/tracker/parser/tracker-parser.service.ts:192-199 | a parsed frame reports a mismatch exactly when it does not end at its declared end, for any decoder of data zones that pushes no such warning |
| `FrameParser.ParserAgrees` | src/tracker/parser/tracker-parser.service.ts:81-107 | splitter and parser agree on every cut frame: same colon, throws exactly below 18 bytes, which only the fast path lets through, mismatch warning exactly when the fallback chose |
| `FrameParser.EmittedFramesAgree` | src/tracker/parser/tracker-parser.service.ts:81-199 | the agreement for every frame of every run of pushes |
| `FrameParser.ThrowsExactly` | src/tracker/parser/tracker-parser.service.ts:81-187 | for every buffer: throws if and only if it is empty, has no colon in its first 8 bytes, or has fewer than 20 bytes between head token and terminator; and which error it is |
| `FrameParser.KindOfToken` | src/tracker/parser/tracker-parser.service.ts:159-164 | a head token is of a known kind exactly if it is one of the 23 tokens, with or without a colon behind it |
| `FrameParser.KindOfHead` | src/tracker/parser/tracker-parser.service.ts:110-131 | report, heartbeat and undecoded kinds by the bytes of the head token, up to the high bit that the ASCII reading drops |
| `FrameParser.ShortFrameWitness` | src/tracker/tcp/tracker-frame-splitter.ts:140-147 | an 8-byte frame that the splitter emits and the parser throws on |
| `FrameParser.FrameLayout` | src/tracker/parser/test-fixtures.ts:42-69 | every field of a built frame lies where the header and trailer say |
| `FrameParser.FrameRoundTrip` | src/tracker/parser/tracker-parser.service.ts:81-222 | header, IMEI, device id, time, serial number and exact data zone come back, and the kind is that of the head token; an overridden Length adds exactly the mismatch warning |
| `FrameContents.HeaderOnWire` | src/tracker/parser/tracker-parser.service.ts:81-222 | any frame byte for byte, with or without terminator: token, declared length, IMEI digits, device id, time (absent for year, month or day 0), serial number and zone lie where they should, with exactly the framing warnings |
| `FrameContents.ImeiOnWire` | src/tracker/parser/utils/binary-codec.util.ts:12-22 | two digits for each of seven bytes below 100 and one for the eighth |
| `FrameContents.ReportFrame` | src/tracker/parser/tracker-parser.service.ts:116-121 | a frame that spells `+RPT:` or `-RPT:` with the bytes of a report is parsed to that report and its warnings |
| `FrameContents.HeadlessReportFrame` | src/tracker/parser/tracker-parser.service.ts:132-138 | such a frame with fewer than 8 bytes of zone has no report and one warning |
| `FrameContents.HeartbeatFrame` | src/tracker/parser/tracker-parser.service.ts:228-235 | a frame that spells `+HBD:` carries the two bytes of its protocol version, or fails with one warning |
| `FrameContents.OpaqueFrame` | src/tracker/parser/tracker-parser.service.ts:124-128 | frames that spell `+LDP:`, `-LDP:`, `+BMR:` or `-BMR:` are kept undecoded with one warning |
| `FrameContents.ListFrame` | src/tracker/parser/tracker-parser.service.ts:129-131 | every other frame is the list of its comma-separated fields, with command key, fences and their warnings |
| `FrameParser.RobustMessage` | src/tracker/parser/test-fixtures.ts:42-69 | a built frame is framed and, unless its Length is overridden, honest; whatever Length it declares, it meets the chunking condition exactly when it fits and has no `#` from the tenth byte behind the device id on |
| `FrameParser.TotalSizeDeclared` | src/tracker/tcp/tracker-frame-splitter.ts:24-46 | a frame that declares its total size, followed by any frame with an equally long head token, is cut whole if and only if it has no `#` within reach of the scan and the second IMEI does not begin with 35; with 35 it takes the head and the first byte of the IMEI along |
| `FrameParser.TotalSizeStream` | src/tracker/tcp/tracker-frame-splitter.ts:24-46 | for every list of such messages: every chunking delivers all their frames if and only if none has a `#` within reach of the scan, each fits the buffer without its terminator, and no IMEI but the first begins with 35 |
| `FrameParser.SwallowWitness` | src/tracker/tcp/tracker-frame-splitter.ts:140-147 | two frames of which the first swallows eight bytes of the second |
| `FrameParser.EndToEnd` | src/tracker/tcp/tracker-tcp-server.service.ts:138-167 | messages with no `#` from the tenth byte behind the device id on, whose frames fit the buffer, concatenated and cut into any chunks, come out of splitter and parser as the same messages in order |
| `FrameContents.ReportMessageDecodes` | src/tracker/parser/tracker-parser.service.ts:116-121 | a message whose head spells `+RPT:` or `-RPT:` and whose zone encodes a report reaches the parsed frame as the same report, without any warning |
| `FrameContents.FenceMessageDecodes` | src/tracker/parser/tracker-parser.service.ts:129-131 | a list frame, by the bytes of its head, whose zone is the text of fence records reaches the parsed frame as its fences, without any warning |
| `Server.ConnectionRegistry.Register` | src/tracker/tcp/tracker-connection-registry.service.ts:25-41 | both maps get the IMEI; the first connection time of a live entry is kept |
| `Server.ConnectionRegistry.Touch` | src/tracker/tcp/tracker-connection-registry.service.ts:43-48 | moves the activity time of a known IMEI and nothing else |
| `Server.ConnectionRegistry.Unregister` | src/tracker/tcp/tracker-connection-registry.service.ts:50-53 | both maps lose the IMEI |
| `Server.ExactInvariant` | src/tracker/tcp/tracker-tcp-server.service.ts:114-205 | from steps to runs: a property holds in every state of a run if and only if every step meets the condition that exactly keeps it |
| `Server.RegistryMirrorsEvents` | src/tracker/tcp/tracker-tcp-server.service.ts:114-205 | in every reachable state the two maps have equal keys and the registry is the fold of the event log: an IMEI is in it iff its latest event is a connection, and then points to that socket |
| `Server.SoundExactly` | src/tracker/tcp/tracker-tcp-server.service.ts:182-205 | every entry points to an open socket identified as its IMEI throughout a run, if and only if no socket reports another IMEI while registered under its own |
| `Server.TruthfulExactly` | src/tracker/tcp/tracker-connection-registry.service.ts:55-57 | `isConnected` is true exactly for the IMEIs of open identified sockets throughout a run, if and only if no socket closes while another has its IMEI and none leaves an IMEI without a socket |
| `Server.BalancedExactly` | src/tracker/tcp/tracker-tcp-server.service.ts:114-205 | connected minus disconnected events is the number of open sockets identified as the IMEI, if and only if no socket changes IMEI |
| `Server.OrderlyExactly` | src/tracker/tcp/tracker-tcp-server.service.ts:114-205 | each socket's events are at most one connected followed by at most one disconnected of the same IMEI, if and only if no socket changes IMEI |
| `Server.OverlapWitness` | src/tracker/tcp/tracker-tcp-server.service.ts:182-189 | a device that reconnects before its old socket closes ends with that socket open and identified and its IMEI in neither map, though no socket changed its IMEI |
| `Server.ReidentifiedWitness` | src/tracker/tcp/tracker-tcp-server.service.ts:114-120 | a socket that reports two IMEIs: the first stays registered with it, events do not balance, and it has connected twice |
| `ConnectionTimes.RegistryTimes` | src/tracker/tcp/tracker-connection-registry.service.ts:25-53 | in every reachable state each registered device has the socket of its registration, the time of its last frame as activity, and as connection time that of the frame since which it is registered without interruption, whatever sockets it changed to |
| `Server.AcksConserved` | src/tracker/tcp/tracker-tcp-server.service.ts:273-307 | in every reachable state, for every socket and serial number, the report frames received in the run are the saves in flight and the `+SACK` writes together |
| `Server.WritesMirrorRun` | src/tracker/tcp/tracker-tcp-server.service.ts:273-317 | one `+SHBD` per received heartbeat, in order; one `+SACK` per settled save, in settling order; the published events are the saves that settled with a stored report, each asked for by a received frame that held one |
| `Gateway.HistoryIsRun` | src/tracker/tcp/tracker-tcp-server.service.ts:138-167 | any history of opened sockets, chunks, closes and settled saves is a run of the connection model |
| `Gateway.NextIs` | src/tracker/tcp/tracker-tcp-server.service.ts:94-205 | each event changes the connection model and the splitter buffers as the handlers of the server object do |
| `Gateway.SocketReceives` | src/tracker/tcp/tracker-tcp-server.service.ts:138-167 | whatever other sockets do, a socket receives what its own splitter cuts from its own chunks, in order |
| `Gateway.MessageReceived` | src/tracker/tcp/tracker-tcp-server.service.ts:238-260 | by the bytes of its head a message is received as a report, a heartbeat or neither, with its IMEI and serial number; it holds a report exactly when it is a report message whose zone has the 8-byte header |
| `Gateway.FrameReceived` | src/tracker/tcp/tracker-tcp-server.service.ts:238-260 | any frame is received with the kind its head bytes spell, its IMEI digits and its serial number, whatever Length it declares and with or without a terminator |
| `Gateway.UnparseableExactly` | src/tracker/tcp/tracker-tcp-server.service.ts:213-236 | a frame is dropped exactly if it is empty, has no colon in its first 8 bytes, or has fewer than 20 bytes between head token and terminator |
| `Gateway.GatewayDelivers` | src/tracker/tcp/tracker-tcp-server.service.ts:138-317 | if the chunks of a socket make up, cut anywhere, the frames of messages with no `#` from the tenth byte behind the device id on that fit the buffer, the server receives exactly these; its `+SHBD` writes to the socket are the serial numbers of the messages that spell `+HBD:`, in order; and per serial number the messages that spell `+RPT:` or `-RPT:` are the saves in flight and the `+SACK` writes together |
| `TcpServer.TrackerTcpServer.HandleConnection` | src/tracker/tcp/tracker-tcp-server.service.ts:94-112 | a new connection with a fresh splitter is the open step |
| `TcpServer.TrackerTcpServer.HandleReportFrame` | src/tracker/tcp/tracker-tcp-server.service.ts:273-280 | starts one save with the report found in the frame, if any, and writes nothing |
| `TcpServer.TrackerTcpServer.HandleHeartbeatFrame` | src/tracker/tcp/tracker-tcp-server.service.ts:309-317 | touches the registry and writes one `+SHBD` |
| `TcpServer.TrackerTcpServer.ExecuteUpsert` | src/tracker/persistence/tracker-persistence.service.ts:121 | the first statement of a save, any time after its start; no frame, event or write of the server changes |
| `TcpServer.TrackerTcpServer.SettleSave` | src/tracker/tcp/tracker-tcp-server.service.ts:281-306 | settles as stored exactly if the frame held a report and both statements succeeded, and then inserts that report; as `null` exactly without a report; one `+SACK` in any case |
| `TcpServer.TrackerTcpServer.FinishSave` | src/tracker/tcp/tracker-tcp-server.service.ts:281-306 | publishing a stored report, writing its `+SACK` and ending the save are the settle step, whatever the outcome |
| `TcpServer.ClientConnection.RegisterDevice` | src/tracker/tcp/tracker-tcp-server.service.ts:114-136 | touches a known identity, otherwise registers and emits, as the model says |
| `TcpServer.ClientConnection.HandleFrame` | src/tracker/tcp/tracker-tcp-server.service.ts:213-271 | handling a frame is the receive step for what the parser makes of it |
| `TcpServer.ClientConnection.HandleData` | src/tracker/tcp/tracker-tcp-server.service.ts:138-167 | a chunk goes through this connection's splitter and its frames are handled in order, one receive step each |
| `TcpServer.ClientConnection.HandleClose` | src/tracker/tcp/tracker-tcp-server.service.ts:182-205 | closing is the close step |
| `LineSplitter.SplitAppend` | src/starlink/tcp/starlink-line-splitter.ts:32-42 | splitting a longer stream goes on behind the unterminated tail |
| `LineSplitter.RunSplits` | src/starlink/tcp/starlink-line-splitter.ts:26-51 | over any run, segments handed out are suffixes of the true ones, equal while nothing overflowed |
| `LineSplitter.RefinesSplit` | src/starlink/tcp/starlink-line-splitter.ts:26-51 | without overflow the pushes return the non-empty stripped newline-terminated segments of the stream, for every chunking |
| `LineSplitter.SuffixesSurvive` | src/starlink/tcp/starlink-line-splitter.ts:44-48 | with overflows each emitted line is still a suffix of the corresponding true stripped line |
| `LineSplitter.OverflowExactly` | src/starlink/tcp/starlink-line-splitter.ts:44-48 | no chunking of a stream overflows if and only if every segment and the tail fit the buffer |
| `LineSplitter.LinesOnWire` | src/starlink/tcp/starlink-line-splitter.ts:26-42 | texts that end in a line feed, each with or without a carriage return in front of it, are exactly the lines of their stream, empty ones left out |
| `LineSplitter.StarlinkLineSplitter.Push` | src/starlink/tcp/starlink-line-splitter.ts:26-51 | returns and keeps what the push specification says |
| `LineSplitter.StarlinkLineSplitter.ExtractLines` | src/starlink/tcp/starlink-line-splitter.ts:30-42 | the loop returns the lines of the buffer and leaves its tail |
| `StarlinkLine.ExecIsTheMatch` | src/starlink/parser/starlink-parser.service.ts:30-31 | the reader finds captures exactly when the line is in the language of the pattern with those captures |
| `StarlinkLine.Unambiguous` | src/starlink/parser/starlink-parser.service.ts:30-31 | a line has at most one reading |
| `StarlinkLine.PatternIs` | src/starlink/parser/starlink-parser.service.ts:30-31 | the pattern, character by character: optional head, `SLU`, 6 hex digits or 15 digits, two numbers, data, a star, 2 hex digits, and the captures |
| `StarlinkLine.ParsesExactly` | src/starlink/parser/starlink-parser.service.ts:65-76 | a line parses to these pieces exactly if white space, by code point, surrounds a core that is spelled so |
| `StarlinkLine.EmptyExactly` | src/starlink/parser/starlink-parser.service.ts:65-68 | the error for an empty line is thrown exactly for white space |
| `StarlinkLine.LineRoundTrip` | src/starlink/parser/starlink-parser.service.ts:65-101 | a printed line, with any white space around it, gives back all six parts; a head that is white space reads as absent |
| `StarlinkLine.DecimalRoundTrip` | src/starlink/parser/starlink-parser.service.ts:90-91 | the decimal reading of a printed number is the number |
| `StarlinkLine.DecimalIs` | src/starlink/parser/starlink-parser.service.ts:90-91 | the decimal reading, digit by digit |
| `StarlinkReport.TagKeepsText` | src/starlink/parser/starlink-parser.service.ts:174-242 | every format string is read as one tag that still knows its text; inputs and outputs are numbered 1 to 4 and all other strings are unsupported tags |
| `StarlinkReport.EventReportDecoder.ApplyTag` | src/starlink/parser/starlink-parser.service.ts:169-243 | converts before it stores: a throw leaves the payload as it was |
| `StarlinkReport.EventReportDecoder.ParseEventReport` | src/starlink/parser/starlink-parser.service.ts:124-167 | the loop yields the payload and warnings of the field-by-field specification |
| `StarlinkReport.ThrowingActsAsAbsent` | src/starlink/parser/starlink-parser.service.ts:137-151 | blanking a value whose codec throws gives the same payload and the same warnings but that one |
| `StarlinkReport.IgnitionIsLast` | src/starlink/parser/starlink-parser.service.ts:178-189 | final ignition is that of the last valid ignition-bearing field in format order, absent without one |
| `StarlinkPayload.EveryFieldIsLast` | src/starlink/parser/starlink-parser.service.ts:137-243 | for any format and any values every payload field (times, event id, position, speed, course, odometer in whole metres, cells, voltages, destination, ignition, each input and output) is what the last non-empty value under its tag string means to its parser, and absent without one |
| `StarlinkPayload.WarningsAre` | src/starlink/parser/starlink-parser.service.ts:137-164 | the unsupported tags are the unknown tag strings with a value, in order; the warnings are one per value whose parser throws, in order, then one for more values than tags, then one for unsupported tags |
| `StarlinkFrame.Parse` | src/starlink/parser/starlink-parser.service.ts:61-122 | a line to header, report and warnings equals its specification |
| `StarlinkFrame.EventReportRoundTrip` | src/starlink/parser/starlink-parser.service.ts:87-105 | a printed event report comes back with the same header and the decoding of exactly its fields |
| `StarlinkFrame.OtherTypesUndecoded` | src/starlink/parser/starlink-parser.service.ts:106-119 | a line of any message type but 6 comes back with its header, its data undecoded and one warning |
| `StarlinkFrame.PiecesOfLine` | src/starlink/parser/starlink-parser.service.ts:78-119 | header, raw data and report of any line, by its pieces |
| `Outbox.EventOutbox.Record` | src/tracker/events/tracker-event-outbox.service.ts:13-27 | a new row is unread |
| `Outbox.EventOutbox.FindUnread` | src/tracker/events/tracker-event-outbox.service.ts:29-35 | returns distinct unread rows, as many as the limit allows, the earliest ones, in order of time |
| `Outbox.EventOutbox.MarkDelivered` | src/tracker/events/tracker-event-outbox.service.ts:37-45 | marks exactly the given rows |
| `Outbox.EventOutbox.ListUnreadEvents` | src/tracker/tracker.controller.ts:140-146 | a poll on its own returns what a find with the given limit, or 100 for none, may return and marks exactly that |
| `Outbox.DeliveredOnlyIfFetched` | src/tracker/tracker.controller.ts:140-146 | under any interleaving of records, finds and marks of many pollers an event is delivered only if some poll fetched it |
| `Outbox.LateEventSurvives` | src/tracker/tracker.controller.ts:140-146 | an event recorded while any polls are between their find and their mark stays unread through everything any pollers do afterwards, until one fetches it |
| `Outbox.FetchedTwiceExactly` | src/tracker/tracker.controller.ts:140-146 | a poll fetches an event again if and only if another poll in progress still holds it; never with polls one at a time |
| `Outbox.NonEmptyPolls` | src/tracker/tracker.controller.ts:140-146 | with no new records exactly the first ceil(n / limit) polls are non-empty |
| `Outbox.PollsDrain` | src/tracker/tracker.controller.ts:140-146 | polls one at a time return each unread event once, ordered by time across batches, all of them after ceil(n / limit) polls |
| `DeviceStore.PersistenceService.UpsertDevice` | src/tracker/persistence/tracker-persistence.service.ts:47-51 | one more patch is applied to the device row |
| `DeviceStore.PersistenceService.MarkDeviceConnected` | src/tracker/persistence/tracker-persistence.service.ts:53-59 | sets the connection flag and the time seen, no snapshot column |
| `DeviceStore.PersistenceService.MarkDeviceDisconnected` | src/tracker/persistence/tracker-persistence.service.ts:61-63 | clears the connection flag, no snapshot column |
| `DeviceStore.PersistenceService.BuildPatch` | src/tracker/persistence/tracker-persistence.service.ts:86-120 | the patch sets every snapshot column exactly when the report carries it, to the carried value; report time falls back to the clock |
| `DeviceStore.PersistenceService.UpsertReport` | src/tracker/persistence/tracker-persistence.service.ts:86-121 | the first half of a save leaves the upsert of its report behind |
| `DeviceStore.PersistenceService.InsertReport` | src/tracker/persistence/tracker-persistence.service.ts:123-163 | the second half, with any statements in between, adds the report row |
| `DeviceStore.PersistenceService.SaveReport` | src/tracker/persistence/tracker-persistence.service.ts:71-164 | a frame without a report writes nothing; otherwise one upsert, then the report row, unless one of them is rejected |
| `DeviceStore.ReportsHaveDevices` | src/tracker/persistence/tracker-persistence.service.ts:121-163 | every stored report's IMEI has a device row, however the statements of any saves and connection marks interleave |
| `DeviceStore.RowsAreInserts` | src/tracker/persistence/tracker-persistence.service.ts:123-163 | after any statements a report is stored exactly as many times as it was inserted |
| `DeviceStore.SavedExactly` | src/tracker/persistence/tracker-persistence.service.ts:71-75 | a report frame yields a report to save exactly when its data zone holds the 8-byte header, wherever else it is cut |
| `DeviceStore.LastWriterWins` | src/tracker/persistence/tracker-persistence.service.ts:47-51 | a column holds the value of the latest patch that set it, and is empty if none did |
| `DeviceStore.SnapshotIsLatestCarried` | src/tracker/persistence/tracker-persistence.service.ts:98-121 | after any writes each snapshot field is its value in the latest applied report that carried it, whatever came between |
| `DeviceStore.BatteryFromOneReport` | src/tracker/persistence/tracker-persistence.service.ts:114-117 | battery level and voltage always come from the same report |
| `SnapshotFields.SnapshotSource` | src/tracker/persistence/tracker-persistence.service.ts:71-120 | for every report zone, cut or not: network type is Data Mask bit 1, battery voltage and level the two items of bit 2, speed, altitude, latitude and longitude bits 2, 4, 5 and 6 of the first fix of bit 3, each carried exactly if decoded; event type is the third byte; report time the frame's or else the clock's |
| `CutSnapshot.CutReportNeverWrong` | src/tracker/persistence/tracker-persistence.service.ts:98-121 | for any report zone and any cut behind its header, every snapshot column the cut report carries has the value the whole report carries |

## Left out

- Scaling and unit conversion (`* 0.4`, `/ 1e6`, minutes to degrees, `- 125`): values are the raw integers.
- `Date` arithmetic: the time of a frame or a fix is its seven raw bytes; a frame time is absent exactly when year, month or day is zero.
- Digit-level decoding inside a field (trouble codes, hour meters, nibbles of the fix type, the version text): such fields are their raw bytes.
- Mobileye flags derived from CAN advanced readings, event and alarm names, warning texts and offsets: warnings are tagged values.
- The serial number as hexadecimal text: acknowledgements carry the number.
- `Number()` on an ASCII field is a parameter of the model, fields hold real numbers; floating-point rounding in `end - start + 1` is not modelled.
- The six nested mask loops share one method, whose switch over bits is chosen by the block's kind.
- `markDeviceConnected` and `markDeviceDisconnected` are methods of the store that the server object does not call: their writes are fire-and-forget and interleave with all others.
- The StarLink number, coordinate and time parsers are parameters; text is a sequence of Unicode scalar values, of which `.` matches those of one UTF-16 unit; the decoding of line bytes as UTF-8 is not part of this model.
- Message type and index of a StarLink line are unbounded numbers; `parseInt` loses precision beyond 2^53.
- The columns of a report row that only copy decoded values.
- The order of fire-and-forget database writes of the connection flag: a late save can set it after a disconnect, so only the in-memory registry supports a guarantee.
- Sockets, timeouts, failed socket writes, logging, the configuration, HTTP endpoints other than the poll, event publishing and the database itself.
- The StarLink server and registry: the same shape as the AVT110 ones, without acknowledgements.
- Frame kinds whose data zone the service does not decode (`+LDP`, `+BMR`): nothing beyond the header.
