# iotsploit-usb: byte paths, proved

A Dafny model of the code that moves bytes between an instrument and its host,
with proofs that what arrives does not depend on how the bytes were cut,
interleaved or interrupted on the way. `dafny verify dfyconfig.toml` checks all
of it.

What is modelled, one module per component:

- **Receive engine** (`RxEngine`, `Separator`, `RxTheorems`, `RxFaults`, `BlockCodec`,
  `DataRead`): the device's byte state machine with its line array, the
  quote- and block-aware splitting at `;` (IEEE 488.2 sections 7.4.1, 7.7.5 and
  7.7.6), streamed `DATA:WRITE` payloads, and the block replies of section 8.7.9
  with their MTU arithmetic.
- **Descriptor** (`DescriptorPrinter`, `DescriptorWritten`, `DescriptorParser`,
  `DescriptorKeys`, `DescriptorColumns`, `LineText`, `Quoting`, `DescriptorParts`,
  `DescriptorLines`, `DescriptorRoundTrip`): the device's bounded all-or-nothing
  printer and the host's parser, proved inverse on what the text can carry, and
  exactly what that is, value by value and key by key.
- **Ring and record stream** (`Wrapping`, `RingBuffer`, `RingThreads`,
  `StreamServe`, `StreamSessions`, `DataPlane`, `CanStream`, `GapAccounting`,
  `HostLosses`):
  the ring as one thread sees it; the same ring as a machine of load, copy and
  publish steps of two threads, where a load returns any value the other side's
  index had since the last load; the consumer sessions over that machine; the
  host's record reader behind a session; the loss totals carried in the records,
  and what the host makes of them.
- **Host reframers** (`Session`, `SessionTheorems`, `MsgReader`, `Framing`), and the
  checked command from the host's message through engine and error queue back to
  the host's report (`CheckedCommand`).
- **Protocol machines** (`UsbtmcDevice`, `UsbtmcHost`, `GsUsb`, `GsUsbProgress`,
  `GsUsbRx`, `Nimble`, `WifiStation`): the firmware state with its callbacks as
  classes, and state machines in which hardware, host, radio and the other thread act
  at any time.
- **Suggestion** (`EditDistance`), and what the small scanners of both ends accept
  (`TextExact`).

Where the source changes state in place, a class with the same fields has one
method per function, proved equal to a function of the old state; lemmas then
speak about that function, or about every run of a machine built from it.

Conventions. A byte of text is the `char` with its code (so the text modules
allow more characters than there are bytes); a byte of a binary record is a
number below 256. Counters that the code assumes never overflow (the session
counter, the 64-bit totals) are unbounded, index and kernel counters wrap. What
a callback, a socket, a driver call or the hardware answers is a parameter, a
script the method consumes, or an arbitrary step of the machine.

What the proofs found:

- The comment above `realign` (glue/usbscpi_stream.c:34-45) argues that the head
  is a multiple of the stride. Once the index wraps that holds exactly when the
  stride divides the index range (`StreamSessions.HeadAlignmentExact`), which 88
  does not (`StreamSessions.HeadOf88NotAligned`); but the code takes the count
  modulo the stride, which is right all the same (`StreamSessions.RoundsUp`).
- `send_checked` returns early, leaving part of the reply for the next command,
  exactly when some item before the last, as the host itself cuts the bytes, has
  the shape of an error entry (`SessionTheorems.FramingIndependence`, for any bytes
  that end with an entry). When no text line of the output starts like a block
  header these items are the lines and blocks the device wrote
  (`SessionTheorems.DeviceFraming`), and only a line can have that shape. A line
  that does start like a block header is cut where the number in its length field
  says (`SessionTheorems.HashLineCut`): the line `#12ab0,"x"` is no entry, yet the
  exchange stops at it (`SessionTheorems.HashLineStops`); and when that length runs
  past the end, every cut of the reply is read to its end and more is asked for,
  until a read fails or the limit is reached, unless an earlier item is an entry
  (`SessionTheorems.Unfinished`).
- A reply of one text line comes out as text exactly when the line is empty, does not
  start with a hash, or starts like a block header whose block ends inside the line or
  is followed by what starts like another (`SessionTheorems.LoneLineExact`):
  `#12abXYZ` comes out (`HashTextComesOut`). Any other comes out as the payload of a
  block, as `#12ab` does, or is refused (`LoneBlockLine`); a line with a hash that is
  no block header is always refused (`HashLineRefused`). Which of these lines make a
  complete reply at all, `LoneLineCompletes` says.
- The tokenizer and `unquote` both resolve escapes, and the printer writes none.
  So a quoted text comes back exactly when each backslash in it stands before
  something other than a backslash or a quote, the closing one included, and the
  quotes in it leave the closing one to close, with no white space between
  (`Quoting.QuotedExact`; for a text without quotes, `Quoting.PlainSurvives`). A
  printer that escaped would be read back exactly when no backslash of the text
  stands before a backslash or a quote (`Quoting.EscapedExact`): two backslashes
  come back as one (`Quoting.TwoBackslashes`).
- An unquoted value comes back exactly when the scan `Loose` admits it and it is not
  itself in quotes (`Quoting.LooseExact`; `NameExact` for the name of a record): no
  white space but between quotes of its own, no backslash between these before a
  backslash or a quote, no quote left open but in the last value of a line. A
  parameter comes back exactly when its name and kind have neither a colon nor a bar
  and, where both options are printed, they have no bar (`DescriptorParts.ParamExact`).
  A prompt of a known kind does exactly when its state, its query and its value have no
  bar; one of another kind is skipped exactly when what is cut out as its kind is no
  known one either (`DescriptorParts.PromptExact`). The host cuts `done=` as it was
  joined exactly when `done_value` has no colon, and `fetch=` exactly when
  `fetch_query` has no hash (`DescriptorRoundTrip.DoneExact`, `FetchExact`).
- The block clamp can be one byte short of the largest payload that fits
  (`DataRead.OneByteConservative`); `DataRead.ClampIsLargest` says for which wishes
  and MTUs it is not, and `DataRead.BlockFit` bounds the shortfall.
- A length of ten digits leaves no room for the terminator in libscpi's block
  header (third_party/libscpi/src/parser.c:616-630), so the reply to a read is known
  exactly below 10^9 bytes (`DataRead.Respond`).
- The overflow branch of the line execution and the second `block_started` test
  in the receive engine are never taken (`RxEngine.ByteKeepsInv`). The newline
  that ends a block write is fed as an empty line (`RxTheorems.BlockWriteRoundTrip`).
- A write to the BLE glue is all or nothing but for one case: if the packet buffer
  yields only part of it, the pieces before stay queued although the client is told
  of the failure. All writes are whole exactly when that never happened
  (`Nimble.WritesAreWhole`); a write that is cut is in `Nimble.CutWrite`.
- The echo of one pass goes to the first finished mailbox
  (`GsUsbProgress.PassEchoesFirst`, `EchoedExactly`). So a finished frame is echoed
  within one pass more than there are busy mailboxes before it as long as these are not
  filled again (`EchoedWithin`); but if the host keeps the first channel busy, a
  finished frame of the second is never echoed (`MayWaitForEver`), and that state is
  reached from reset (`StarvingIsReached`).

## Model

| member | source | states |
|---|---|---|
| RxEngine.Engine.OnRx | src/usbscpi.c:570-673 | one receive call on the engine in place (mode, line array, block counters): its whole effect and status are those of the byte-at-a-time specification with payload handed over in chunks |
| RxEngine.Engine.Turn | src/usbscpi.c:577-661 | one pass of the receive loop takes at least one byte and does what the specification does with what it took |
| RxEngine.Engine.TextStep | src/usbscpi.c:577-606 | one text byte: separators execute the line, a hash after a write prefix opens a block, anything else is kept, and a line that would not leave room for its newline is a fault |
| RxEngine.Engine.LengthStep | src/usbscpi.c:622-637 | one byte of the length field, including the checks made when its last digit arrives |
| RxEngine.Engine.PayloadStep | src/usbscpi.c:639-660 | as much payload as the block still needs goes to the application, and the block closes when it is complete |
| RxEngine.Engine.Clear | src/usbscpi.c:679-693 | a clear leaves the engine in its initial mode with nothing assembled, and the error queue emptied |
| RxEngine.LineIsDataWritePrefix | src/usbscpi.c:431-441 | the index loop accepts exactly blanks followed by the write prefix, in any case, with or without a leading colon |
| RxEngine.ByteKeepsInv | src/usbscpi.c:443-456 | after any byte, with any callbacks, the line and its newline fit the line buffer, and a block that has begun is within the limit: the overflow branch of the line execution is never taken |
| RxEngine.ChunkIsItsBytes | src/usbscpi.c:639-660 | handing the payload over in one call does what handing it over byte by byte does |
| RxEngine.ChunkedIsBytewise | src/usbscpi.c:570-673 | a receive call is the byte-at-a-time machine run over its buffer |
| RxEngine.Fragmentation | src/usbscpi.c:570-673 | every split of a byte stream into receive calls feeds the same lines, begins and ends the same blocks, delivers the same payload, stops at the same first fault and ends in the same state, whatever the begin and end callbacks answer |
| Separator.LineSeparator | src/usbscpi.c:458-479 | the rescan of the retained line answers exactly what a one-pass lexer of quotes, block headers and payloads answers, on every line |
| Separator.HeaderRead | src/usbscpi.c:468-475 | what a block header at the front of a text does to the lexer: undecided, broken, or its payload skipped |
| RxTheorems.UnitsArriveWhole | src/usbscpi.c:577-606 | balanced units joined by semicolons and ended by a newline are fed exactly as written, in order |
| RxTheorems.BatchedUnits | src/usbscpi.c:570-673 | the same when the message is cut into receive calls in any way |
| RxTheorems.MarkEndsMessage | src/usbscpi.c:663-665 | a message that no newline ends: with the transport's end-of-message mark its last unit is executed too, unless it is empty; without the mark it waits as the pending line; for any cut |
| RxTheorems.FaultResets | src/usbscpi.c:666-670 | after a fault the engine is idle, and the next call starts as such |
| RxFaults.StrayBytes | src/usbscpi.c:588-590 | carriage returns and NULs anywhere in a unit are not kept |
| RxFaults.LineTooLong | src/usbscpi.c:597-602 | the byte that would leave no room for the newline is refused with an execution error, and the line with it |
| RxFaults.BadDigitCount | src/usbscpi.c:608-615 | after the prefix and the hash, anything but a digit from 1 to 9 is a protocol fault with invalid block data |
| RxFaults.BadLength | src/usbscpi.c:622-629 | so is a byte in the length field that is no digit |
| RxFaults.BlockOutcome | src/usbscpi.c:481-514 | a block write, in any cut, ends in one of four ways: too large, and the application is never asked; refused at its beginning; refused at its end with all its data handed over; or accepted; after each the engine is idle |
| RxFaults.DataRefused | src/usbscpi.c:639-652 | data the application refuses ends the block with an execution error, and no end is reported |
| RxTheorems.WrittenIsBalanced | src/usbscpi.c:458-479 | every text built from plain characters, quoted strings with doubled quotes and complete inline blocks is balanced |
| RxTheorems.WriteBlock | host/rust/src/session.rs:203-213 | what the host sends for a block write: with the prefix `DATA:WRITE` it is the message the next theorem is about |
| RxTheorems.BlockWriteRoundTrip | src/usbscpi.c:577-661 | a block write from an idle engine, in any fragmentation, gives begin, data concatenating to the payload, end, and an idle engine |
| BlockCodec.ParseBlock | host/rust/src/block.rs:64-111 | the walk with checked accumulation returns what the wire format dictates, error by error; nine digits never overflow |
| BlockCodec.EncodeBlock | host/rust/src/block.rs:116-127 | the encoding is the header for the length and then the payload |
| BlockCodec.RoundTrip | host/rust/src/block.rs:64-127 | parsing an encoded payload followed by anything returns the payload exactly when it is within the cap, else the too-large error |
| BlockCodec.PrefixIsShort | host/rust/src/block.rs:64-127 | a proper prefix of an encoded block is reported as short, never as a shorter payload |
| DataRead.BlockFit | src/usbscpi.c:177-195 | the clamped payload never grows, fits whenever any block can, is unchanged when it fits, and is within the lost length digits of the largest that fits |
| DataRead.Respond | src/usbscpi.c:197-227 | every byte taken from the source is in the one reply, and the reply is within the MTU; the reply is known exactly when its length has at most nine digits |
| DataRead.ReplyParses | src/usbscpi.c:197-227 | the host parses exactly the bytes that left the source |
| DataRead.OneByteConservative | src/usbscpi.c:170-195 | an input for which the clamp is one byte short of the largest payload that fits |
| DataRead.ClampIsLargest | src/usbscpi.c:170-195 | the clamp is the largest payload that fits exactly when all that is wanted fits, or no more than an empty block does, or one byte more than what the MTU leaves needs as many length digits as what was wanted |
| DescriptorPrinter.Printer.Format | src/usbscpi.c:235-244 | one bounded print: the text is appended and terminated, or the printer fails without writing past the buffer |
| DescriptorPrinter.Printer.EmitWorkflow | src/usbscpi.c:250-288 | a workflow adds exactly its record, under the name given, with every optional key |
| DescriptorPrinter.Printer.EmitCommand | src/usbscpi.c:306-325 | a command adds exactly its record, parameters included |
| DescriptorPrinter.EmitDescriptor | src/usbscpi.c:293-338 | the full text and its length when text and NUL fit the buffer, and zero otherwise |
| LineText.Tokenize | host/rust/src/descriptor.rs:265-314 | the character loop yields the tokens of the recursive lexer: whitespace splits outside quotes, escapes are resolved inside |
| LineText.Unquote | host/rust/src/descriptor.rs:335-358 | the unescaping loop is the recursive unescaping of what lies between the quotes |
| Quoting.UnquotedExact | host/rust/src/descriptor.rs:335-358 | unescaping leaves a text alone exactly when no backslash in it stands before a backslash or a quote |
| Quoting.QuotedExact | host/rust/src/descriptor.rs:265-358 | a value printed between quotes is read back, and the rest of the line found again, exactly when its text survives: backslashes, quotes and white space as the scan `Survives` admits them, last on the line or not |
| Quoting.LooseExact | host/rust/src/descriptor.rs:265-332 | a value printed without quotes is read back, and the rest of the line found again, exactly when the scan `Loose` admits it and it does not itself look quoted: white space between its own quotes, and a quote left open in the last value of a line, included |
| Quoting.NameExact | host/rust/src/descriptor.rs:265-332 | the name of a record, under the same condition |
| Quoting.PlainSurvives | host/rust/src/descriptor.rs:265-358 | a text without quotes survives exactly when each backslash is followed by something other than a backslash |
| Quoting.EscapedExact | host/rust/src/descriptor.rs:265-358 | a value printed with escapes is unescaped twice, and comes back exactly when no backslash of the text stands before a backslash or a quote |
| Quoting.TwoBackslashes | host/rust/src/descriptor.rs:265-358 | two backslashes, escaped as four, are read as one |
| DescriptorParser.ParseKeyValues | host/rust/src/descriptor.rs:317-332 | tokens with an equals sign become pairs, values unquoted, in order |
| DescriptorParser.ParseDev | host/rust/src/descriptor.rs:449-469 | the device record keeps its last readable value for each key |
| DescriptorParser.ParseCmd | host/rust/src/descriptor.rs:471-502 | the command record: later keys win, parameters accumulate |
| DescriptorParser.ParseWf | host/rust/src/descriptor.rs:504-556 | the workflow record: defaults, last-colon and first-hash splits, failed list, prompts, columns |
| DescriptorParser.ParseOne | host/rust/src/descriptor.rs:389-436 | one line: blank, comment and unknown tags are skipped, a command or workflow without a name is an error |
| DescriptorParser.ParseStr | host/rust/src/descriptor.rs:387-439 | the line loop builds the profile of the recursive specification or reports the failing line and what it lacks |
| DescriptorParser.FirstNamelessLine | host/rust/src/descriptor.rs:387-439 | a text is refused exactly when some line is a command or workflow tag alone, and the first such line is the one reported, with its complaint |
| DescriptorParser.RefusedLine | host/rust/src/descriptor.rs:387-439 | so of a whole text, the lines counted from one |
| DescriptorRoundTrip.RoundTrip | host/rust/src/descriptor.rs:387-585 | for every descriptor and device each of whose printed values can stand where it stands on its line (`Loose`, `Survives`, and the parts as the rows below have it), parsing the emitted text gives back the descriptor, with any number of commands, parameters, workflows, prompts and renamed copies |
| DescriptorRoundTrip.DoneExact | host/rust/src/descriptor.rs:519-527 | the query and value of a done key are read back exactly when the value has no colon |
| DescriptorRoundTrip.FetchExact | host/rust/src/descriptor.rs:529-537 | the fetch query is read back exactly when it has no hash |
| DescriptorParts.ParamExact | host/rust/src/descriptor.rs:480-496 | a parameter, with or without options, is read back as written exactly when no part of it holds a character it is cut at |
| DescriptorParts.PromptExact | host/rust/src/descriptor.rs:562-585 | a prompt of a known kind is read back as written exactly when no part of it holds a bar; one of an unknown kind is skipped exactly when what is cut out as the kind is unknown too |
| DescriptorColumns.ColumnsReadBack | host/rust/src/descriptor.rs:224-250 | a list of columns in any spelling is read back as what the spellings denote: each of the ten type names its type, any other or missing type a string, an empty or missing unit none, a missing name no column |
| DescriptorColumns.EveryTextReadBack | host/rust/src/descriptor.rs:224-250 | every text is such a list, so that is what the host reads of it |
| DescriptorKeys.DeviceExact | host/rust/src/descriptor.rs:449-469 | what a DEV record says, key by key: the last value of each of the six keys, a number that cannot be read being none |
| DescriptorKeys.CommandExact | host/rust/src/descriptor.rs:471-502 | what a CMD record says, key by key, with its parameters in order and the defaults for what is missing |
| DescriptorKeys.WorkflowExact | host/rust/src/descriptor.rs:504-556 | what a WF record says, key by key: last values, lists in order, `done` cut at its last colon, `fetch` at its first hash, 15000 and 250 ms where nothing readable was given |
| DescriptorWritten.DeviceWritten | src/usbscpi.c:300-304 | the DEV line, piece by piece |
| DescriptorWritten.CommandWritten | src/usbscpi.c:306-325 | the CMD line with every key that is there, in order, quoted or not |
| DescriptorWritten.WorkflowWritten | src/usbscpi.c:250-288 | the WF line with every key that is there, in order, quoted or not |
| DescriptorLines.RecordsAreLines | src/usbscpi.c:293-338 | the emitted text splits into one line per record |
| RingBuffer.Init | helpers/ring_buffer.c:20-33 | a ring is made exactly when the size is a power of two, and is empty |
| Wrapping.SizeTestExact | helpers/ring_buffer.c:20-22 | the bit test accepts the powers of two and nothing else |
| Wrapping.WrappedDistance | helpers/ring_buffer.c:35-44 | unsigned subtraction of wrapped indices gives the true distance |
| Wrapping.WrappedCell | helpers/ring_buffer.c:64-67 | masking a wrapped index addresses the cell of the unwrapped position |
| RingBuffer.Ring.Count | helpers/ring_buffer.c:35-44 | the number of queued elements, across index wrap |
| RingBuffer.Ring.Free | helpers/ring_buffer.c:46-48 | the room left |
| RingBuffer.Ring.Write | helpers/ring_buffer.c:50-71 | as much of the data as there is room for is appended to the queue |
| RingBuffer.Ring.Read | helpers/ring_buffer.c:73-88 | as much as asked for and available leaves the front of the queue, in order |
| RingBuffer.Ring.PeekLinear | helpers/ring_buffer.c:90-107 | the front of the queue in place, up to the end of the storage; empty exactly when the queue is |
| RingBuffer.Ring.Advance | helpers/ring_buffer.c:109-116 | drops the asked-for elements, at most all, off the front |
| RingBuffer.Ring.Clear | helpers/ring_buffer.c:118-124 | an empty queue |
| RingThreads.ReadIsPrefixOfAccepted | helpers/ring_buffer.c:35-116 | under every interleaving with stale index views, the elements read are the elements accepted, in order, and the distance of the wrapped indices is the number queued and at most the size |
| RingThreads.NoRace | helpers/ring_buffer.c:50-88 | no cell is read before a head covering it was observed, none overwritten before a tail freeing it was observed, and the two sides never hold the same cell |
| RingThreads.CheckedWriteIsWhole | helpers/ring_buffer.c:50-71 | after a check reported room, the write takes the whole record, whatever the consumer does in between |
| RingThreads.AdvanceIsExact | helpers/ring_buffer.c:90-116 | advancing by part of what was peeked releases exactly that part |
| RingThreads.LoadsAreExact | helpers/ring_buffer.c:50-107 | a write takes what fits by the tail it saw, a read what was asked for and is there by the head it saw, a peek the front of that up to the end of the storage |
| RingThreads.WriteCompletes | helpers/ring_buffer.c:50-71 | a write that fits by the tail it saw runs to its end and its data is accepted whole, with nothing of the consumer's changed |
| RingThreads.ReadCompletes | helpers/ring_buffer.c:73-88 | a read runs to its end and hands over as much as was asked for and is there, with nothing of the producer's changed |
| RingThreads.StepKeepsInv | helpers/ring_buffer.c:35-116 | each load, copy and publish step keeps what every run keeps |
| RingThreads.SkipKeepsInv | helpers/ring_buffer.c:109-116 | so does advancing over elements that were never read |
| StreamServe.Server.Drain | glue/usbscpi_stream.c:59-92 | what the socket took, and only that, leaves the ring in order; how much, in how many sends, and with what answer, is `Flow` of the results of the sends, for which the next rows stand; the socket owes a sign exactly when the consumer is behind |
| StreamServe.FlowTells | glue/usbscpi_stream.c:59-92 | a drain is idle exactly when everything was sent, behind only after a send that would block, gone only after a broken send or one that took nothing, and every send before that took something or was interrupted |
| StreamServe.FlowSends | glue/usbscpi_stream.c:72-76 | it sends no more than the sends took, and something with each |
| StreamServe.TakingEmpties | glue/usbscpi_stream.c:59-92 | as many taking sends as there are elements, interrupted or not, send the whole queue |
| StreamServe.TwoSendsEmpty | glue/usbscpi_stream.c:59-76 | sends that take all they are offered empty any queue in one, or in two if it wraps |
| StreamServe.InterruptedIsNothing | glue/usbscpi_stream.c:85-87 | an interrupted send changes nothing |
| StreamServe.ServeEnds | glue/usbscpi_stream.c:112-147 | a session ends only by a failed poll, a hang-up, a close, a broken send or one of nothing |
| StreamServe.PolledIsServed | glue/usbscpi_stream.c:112-147 | a session with one ordinary poll and taking sends is sent the whole queue, and no send ends it |
| StreamServe.Server.Realign | glue/usbscpi_stream.c:46-55 | the part of a record left at the front is dropped and counted as torn |
| StreamServe.Server.ServeConsumer | glue/usbscpi_stream.c:94-155 | a session sends the front of the queue, as much as its polls and sends make it (`Serve`), leaves whole records behind, and counts itself torn exactly when it ended inside one |
| StreamSessions.EverySessionIsWholeRecords | glue/usbscpi_stream.c:46-155 | under every interleaving, every session is sent a contiguous run of whole records from a record boundary and at most one part; torn counts the sessions that ended mid-record |
| StreamSessions.EveryRecordHasOneFate | glue/usbscpi_stream.c:46-155 | in every reachable state each published record was delivered whole to one closed session, torn by one, belongs to the running session, whole or in part, or is still queued, across index wrap and for any stride |
| StreamSessions.RecordDelivered | glue/usbscpi_stream.c:46-155 | a record that fits a fresh stream is written, published, peeked at, taken and delivered whole: every step of the way is possible |
| StreamSessions.RoundsUp | glue/usbscpi_stream.c:46-55 | the count modulo the stride is the distance to the next record boundary |
| StreamSessions.HeadAlignmentExact | glue/usbscpi_stream.c:34-45 | the head is on a record boundary after any number of records exactly when the stride divides the index range |
| StreamSessions.HeadOf88NotAligned | glue/usbscpi_stream.c:34-45 | 88 divides no index range, so with 88-byte records some head is off the boundary |
| StreamSessions.RealignMovesRing | glue/usbscpi_stream.c:46-55 | what realign does to the ring and the counter with the head views it loads |
| StreamSessions.BeginKeepsInv | glue/usbscpi_stream.c:34-45 | a producer that checked for room writes a whole record |
| StreamSessions.StepKeepsInv | glue/usbscpi_stream.c:46-155 | each step of producer and session keeps what every run keeps |
| DataPlane.Reader.NextRecord | host/rust/src/dataplane.rs:141-170 | one call: a record, a clean end, a short stream with its byte count, a timeout or an error, and what stays buffered |
| DataPlane.RecordsAreTheStream | host/rust/src/dataplane.rs:141-170 | however the stream is cut into reads, the records are the stream cut at the stride |
| DataPlane.StoppedShort | host/rust/src/dataplane.rs:141-170 | a time limit or a failed read before the next whole record is reported as such, and the bytes so far stay buffered |
| DataPlane.NothingLost | host/rust/src/dataplane.rs:141-170 | no call loses a byte: what is left buffered and unread is what there was but for the record handed out |
| DataPlane.HostReadsTheRecords | host/rust/src/dataplane.rs:141-170 | end to end: the host of any session reads exactly the records published from its first on, and learns whether the last was cut |
| GapAccounting.Producer.OnFrame | examples/can/main.c:86-186 | a frame is queued whole, stamped with the losses so far, or counted as one loss with the queue untouched |
| GapAccounting.Producer.OnKernelOvfl | examples/can/main.c:164-174 | the step of the 32-bit kernel counter is added to the losses after the first report: what was dropped in between, exactly when that is less than a full turn |
| GapAccounting.RecordLayout | examples/can/main.c:86-114 | every field of the record is at its place in the schema with what the frame carried, flag by flag |
| GapAccounting.RecordStamp | examples/can/main.c:86-114 | the total can be read back at offset 8 of the record |
| GapAccounting.GapTracker.Observe | host/rust/src/dataplane.rs:199-215 | the reported gap and the running total for one record |
| GapAccounting.ObserveExact | host/rust/src/dataplane.rs:199-215 | a record too short for the total is passed over; the first total, and one that is not above the last, is no loss; any other step is one |
| GapAccounting.LossesAreReported | host/rust/src/dataplane.rs:199-220 | over any history the tracker reports at each record exactly the losses since the one before, and in total those between the first and the last |
| HostLosses.HostReportsTheLosses | host/rust/src/bin/iotsploit-host.rs:941-980 | end to end: whatever the threads, the sessions and the network did, the tracker of a session's host reports at each record that host read exactly what the producer lost since the one before, and in all what it lost between the first and the last |
| CanStream.CanStream.Push | examples/stm32f4disco/can_stream.h:102-119 | a record is queued whole and counted, or counted as lost with the queue untouched |
| CanStream.PushExact | examples/stm32f4disco/can_stream.h:102-119 | the record is queued exactly when its 32 bytes fit behind those queued |
| CanStream.FillsUp | examples/stm32f4disco/can_stream.h:102-119 | an empty ring takes the first of the records, as many as it has room for, and counts the rest as lost |
| CanStream.CanStream.Send | examples/stm32f4disco/can_stream.h:133-144 | with a host listening: one record after another leaves in its envelope while there is one and the endpoint has room, whatever the receive interrupt pushes before each and whatever room each finds |
| CanStream.CanStream.Discard | examples/stm32f4disco/can_stream.h:124-132 | with nobody listening: what was queued when it was counted is dropped, and nothing an interrupt adds after that |
| CanStream.CanStream.Pump | examples/stm32f4disco/can_stream.h:124-144 | one pass is the one or the other |
| CanStream.PumpIsFifo | examples/stm32f4disco/can_stream.h:124-144 | what was queued and what interrupts queued during the pass are, in order, what was sent and what is queued after it |
| CanStream.UndisturbedPump | examples/stm32f4disco/can_stream.h:124-144 | left alone, a pass sends as many records as are queued and fit the endpoint |
| CanStream.PumpedRecordsDecode | examples/stm32f4disco/can_stream.h:124-144 | what the pump sends decodes to the records in ring order with nothing skipped |
| CanStream.RecordLayout | examples/stm32f4disco/can_stream.h:102-119 | every field of the record, the loss total included, is at its place in the schema with what was received |
| Framing.FrameDecoder.NextFrame | host/rust/src/framing.rs:49-75 | one call: the first plausible whole frame, what stays buffered and how many bytes were skipped |
| Framing.HeaderExact | host/rust/src/framing.rs:53-60 | what passes for a header: a log or record type, a zero, and a length from 1 to 512, low byte first |
| Framing.DecodeAppend | host/rust/src/framing.rs:49-75 | decoding a string and then what was left with more behind it is decoding the two together |
| Framing.OnlyTheStreamCounts | host/rust/src/framing.rs:39-75 | from a fresh decoder, for every series of pushes and takes: frames, residue and skipped count, so far and to come, are those of the bytes pushed decoded at once; once drained they are there to see |
| Framing.SameBytesSameFrames | host/rust/src/framing.rs:39-75 | two series of calls that push the same bytes in any pieces, takes anywhere, each ending with a take that hands out nothing, agree on frames, residue and skipped count |
| Framing.BytesAreConserved | host/rust/src/framing.rs:39-75 | from a fresh decoder, every byte pushed was skipped, is buffered, or was part of a frame |
| Framing.FramesRoundTrip | host/rust/src/framing.rs:49-75 | whole frames decode back in order with nothing skipped, whatever follows |
| Framing.LocksOn | host/rust/src/framing.rs:49-75 | after noise in which no window looks like a header, decoding starts at the first real frame and skips exactly the noise |
| Framing.TextIsNoise | host/rust/src/framing.rs:5-9 | text without the two type bytes is such noise |
| Session.SplitItems | host/rust/src/session.rs:46-68 | the item loop yields the recursive split, or nothing while the last item is incomplete |
| Session.ScpiSession.SendChecked | host/rust/src/session.rs:242-307 | one write, `CheckedMessage`, for which `CheckedCommand.MessageIsExecuted` stands, reads until the bytes end with an error entry, at most 4096, and after an error the further ones |
| Session.ScpiSession.CollectReply | host/rust/src/session.rs:242-262 | the read loop is the recursive exchange: items split at every read, stopped by an entry, a failure or the limit |
| Session.ScpiSession.DrainErrors | host/rust/src/session.rs:284-308 | the queries sent, the errors fetched and the reads used are those of the recursive drain, at most 64 errors |
| SessionTheorems.DrainFails | host/rust/src/session.rs:284-308 | a reply of the drain that failed, is a malformed block or is no text fails it with that reason, after as many queries as it took |
| SessionTheorems.FailureIsFinal | host/rust/src/session.rs:242-262 | a reply that comes to no answer is reported with its reason and nothing further is asked; a drain that fails fails the whole command |
| CheckedCommand.MessageIsExecuted | host/rust/src/session.rs:233-243 | the message of a checked command, cut into receive calls in any way, makes an idle engine execute exactly the clearing of the error queue, the units of the command, and the error query |
| CheckedCommand.OldErrorsPlayNoPart | host/rust/src/session.rs:229-243 | so what the instrument answers, and what it then has queued, is what the command alone makes of an empty queue, whatever was queued before |
| CheckedCommand.QueryIsExecuted | host/rust/src/session.rs:287-291 | the query for a further error is executed as one, and takes the oldest |
| CheckedCommand.ReportsItsOwn | host/rust/src/session.rs:229-262 | end to end: the host returns what this command put out and exactly the errors this command queued, through the engine, the eight-place error queue with its overflow, any cut both ways, and any errors left over from before |
| SessionTheorems.FramingIndependence | host/rust/src/session.rs:242-262 | for any bytes that end with an error entry: every cut into at most 4096 reads gives the outcome of the whole and leaves nothing unread, if and only if no item before the last, as the host cuts them, has the shape of an entry |
| SessionTheorems.DeviceFraming | host/rust/src/session.rs:242-262 | for the replies a device writes, with no line that starts like a block header, the condition is that no line of the output has the shape of an entry |
| SessionTheorems.Unfinished | host/rust/src/session.rs:46-262 | bytes whose last item is not all there are read to the end however they are cut, and more is asked for, if and only if none of the whole items is an entry |
| SessionTheorems.HashLineCut | host/rust/src/session.rs:46-68 | a line that starts like a block header, wherever it stands in a reply, is cut where the number in its length field says, inside the line or after it; with no number there, or one past the end, nothing from it on is an item |
| SessionTheorems.HashLineStops | host/rust/src/session.rs:33-262 | an output line that is no entry at which the exchange stops, the error entry of the command unread |
| SessionTheorems.AllErrorsReturned | host/rust/src/session.rs:242-308 | the checked command returns its output and every error queued, in order: of 65 or more the first 65, the rest staying queued; and asks nothing more when there was none |
| SessionTheorems.PartIsNotEnding | host/rust/src/session.rs:33-68 | a reply received in part, with no entry before its last item, never looks complete, also when cut inside a block or between it and its newline |
| SessionTheorems.WholeReply | host/rust/src/session.rs:46-68 | a reply received whole splits into exactly the items written |
| SessionTheorems.HashIsNoEntry | host/rust/src/session.rs:33-42 | a block never passes for an error entry, whatever its payload |
| SessionTheorems.EntryRoundTrip | host/rust/src/session.rs:33-42 | an entry is read back as its code and message, for every 32-bit code and every message |
| SessionTheorems.TextReply | host/rust/src/session.rs:264-284 | text lines, but for a lone one that starts with a hash, come out as they are with the line ends at the end dropped, no output as none, and invalid UTF-8 as an error |
| SessionTheorems.LoneLineExact | host/rust/src/session.rs:46-284 | in a completed reply, a lone line of text comes out as text if and only if it is empty, starts with no hash, or starts like a block header whose block ends inside the line or is followed by what starts like another; otherwise it comes out as what the block parser makes of it |
| SessionTheorems.LoneLineCompletes | host/rust/src/session.rs:46-262 | which lone lines make a complete reply: always those that are no block header and those whose block ends inside them; never one with no number or one past the end; of the others what follows the block decides |
| SessionTheorems.LoneBlockLine | host/rust/src/session.rs:264-284 | a lone line that is just what its header declares is taken for that block within the cap, or refused for a sign in the length field |
| SessionTheorems.HashTextComesOut | host/rust/src/session.rs:46-284 | a line that starts with a hash and does come out as text |
| SessionTheorems.HashLineRefused | host/rust/src/session.rs:264-271 | a lone text line that starts with a hash, but not like a block header, is refused as a malformed block |
| SessionTheorems.BlockReply | host/rust/src/session.rs:264-284 | a lone block comes out as its payload exactly when it is within the cap |
| MsgReader.ScanFrame | host/rust/src/stream.rs:87-145 | the scan decides what the wire format dictates, error by error |
| MsgReader.VerdictExact | host/rust/src/stream.rs:87-145 | each verdict by what stands at the front: newline, digit count, digits, length against the limit, terminator; and only as much as that takes is waited for |
| MsgReader.ReadLength | host/rust/src/stream.rs:87-145 | the length field with saturating accumulation is its value, or refused at a byte that is no digit |
| MsgReader.Reader.ReadMsg | host/rust/src/stream.rs:51-80 | one call: message, error and what stays buffered, as specified |
| MsgReader.DecisionIsStable | host/rust/src/stream.rs:87-145 | once the front of a stream is decided, more bytes do not change it |
| MsgReader.PartOfMessage | host/rust/src/stream.rs:87-145 | part of a message is never taken for a whole one or for a bad one |
| MsgReader.ReadsNext | host/rust/src/stream.rs:51-80 | one call returns the next message and keeps the rest of the stream |
| MsgReader.MessagesComeBack | host/rust/src/stream.rs:51-145 | for any cut of a stream of messages into reads, successive calls return exactly the messages in order and the remainder stays |
| UsbtmcDevice.Glue.QueueResponse | glue/usbscpi_tinyusb.c:49-65 | a reply is appended whole and raises MAV, or is refused and changes nothing |
| UsbtmcDevice.Glue.RequestIn | glue/usbscpi_tinyusb.c:119-140 | the front of what is undelivered, at most the size requested, with end-of-message when it is the last; a newline when there is nothing |
| UsbtmcDevice.Glue.CompleteIn | glue/usbscpi_tinyusb.c:146-158 | a completed transfer is forgotten, and with the last one MAV falls |
| UsbtmcDevice.Glue.GetStb | glue/usbscpi_tinyusb.c:160-165 | the status byte: MAV is up exactly while something is undelivered, and the service request is cleared |
| UsbtmcDevice.Glue.ClearOut | glue/usbscpi_tinyusb.c:167-179 | everything is dropped |
| UsbtmcDevice.Glue.ClearIn | glue/usbscpi_tinyusb.c:183-190 | everything but a service request is dropped |
| UsbtmcDevice.DeliveredOnceInOrder | glue/usbscpi_tinyusb.c:49-190 | over every run of callbacks, clears at any moment included, the accepted bytes are, once and in order, those in the transfers, those a clear dropped and those still queued; MAV is exact, and a transfer ends the message exactly when it leaves nothing |
| UsbtmcDevice.AcceptedExactly | glue/usbscpi_tinyusb.c:49-65 | on every run a reply is taken exactly when it is empty, or nothing is in flight and it fits behind what was queued since the queue was last empty; taken, it is queued whole; refused, nothing changes |
| UsbtmcDevice.AnsweredExactly | glue/usbscpi_tinyusb.c:119-140 | on every run a request is answered with the front of what is undelivered, as much as was asked for, and the end of the message exactly when that is all; with one newline when there is nothing |
| UsbtmcDevice.OneMessage | glue/usbscpi_tinyusb.c:49-158 | replies that fit, queued one after another, go out as one message and leave nothing |
| UsbtmcDevice.OnlyClearsDrop | glue/usbscpi_tinyusb.c:49-190 | without a clear nothing is dropped |
| UsbtmcHost.Host.NextBtag | host/rust/src/usbtmc_raw.rs:248-254 | the next tag, never zero |
| UsbtmcHost.TagsRotate | host/rust/src/usbtmc_raw.rs:248-254 | the tags run through 1 to 255 and round |
| UsbtmcHost.StaleTagsDiffer | host/rust/src/usbtmc_raw.rs:248-254 | the tags of any 255 successive transfers are different |
| UsbtmcHost.BuildMsgOut | host/rust/src/usbtmc_raw.rs:264-283 | header, data and zeros up to a multiple of four |
| UsbtmcHost.HeadReads | host/rust/src/usbtmc_raw.rs:355-371 | the fields of a header are read back |
| UsbtmcHost.Host.TakeAnswer | host/rust/src/usbtmc_raw.rs:346-393 | the payload, or the error the code returns, for any series of reads: too short, wrong id, wrong tag, ended early, or failed |
| UsbtmcHost.AnswerErrors | host/rust/src/usbtmc_raw.rs:350-368 | which error an answer gets that cannot be taken: failed, too short, wrong kind, wrong tag, in that order |
| UsbtmcHost.GatherErrors | host/rust/src/usbtmc_raw.rs:382-393 | a declared payload is taken at its size; it fails only if the reads do not bring it or one failed, and ends early only at an empty one |
| UsbtmcHost.ConformingAnswer | host/rust/src/usbtmc_raw.rs:346-393 | an answer that is what it declares is taken whole however the bus cuts it, with none of the errors |
| UsbtmcHost.Host.Exchange | host/rust/src/usbtmc_raw.rs:326-393 | one request and its completed answer |
| UsbtmcHost.Host.ReadMsgIn | host/rust/src/usbtmc_raw.rs:322-400 | a read returns the front of what is undelivered, at most the size asked and at least one byte, leaves the rest queued, and ends |
| UsbtmcHost.EmptyRead | host/rust/src/usbtmc_raw.rs:322-400 | with nothing queued a read returns the one newline |
| UsbtmcHost.ReadsReassemble | host/rust/src/usbtmc_raw.rs:322-400 | successive reads of any sizes concatenate to exactly the queued bytes |
| GsUsb.Adapter.Poll | examples/stm32f4disco-socketcan/main.c:644-692 | one pass of the main loop: reap, take, place, echo |
| GsUsb.Adapter.Reap | examples/stm32f4disco-socketcan/main.c:647-658 | every sent mailbox of an owned channel whose request finished is marked done, and no other |
| GsUsb.Adapter.Place | examples/stm32f4disco-socketcan/main.c:665-679 | the waiting frame goes to the first free and empty mailbox of its channel, is dropped if the channel is down, or keeps waiting |
| GsUsb.PlaceExact | examples/stm32f4disco-socketcan/main.c:665-679 | a frame for a channel that is up goes on waiting exactly when none of the channel's three boxes is both free and empty; otherwise it is requested in the lowest that is, and every other box is as it was; for any other channel it is dropped |
| GsUsb.ReapExact | examples/stm32f4disco-socketcan/main.c:647-658 | box by box, what reaping changes |
| GsUsb.DoneExact | examples/stm32f4disco-socketcan/main.c:685-694 | the box whose echo is due is the first finished one, and there is none exactly when no box is finished |
| GsUsb.StopExact | examples/stm32f4disco-socketcan/main.c:531-559 | a stop frees the channel's three boxes and takes its waiting frame, and leaves the other channel alone; a start is a stop and then ownership if the controller answered |
| GsUsb.OthersExact | examples/stm32f4disco-socketcan/main.c:272-330 | what the other user of the buses and the controllers do: take a channel the host does not have, send through an empty box of one's own, finish a request |
| GsUsb.Adapter.Echo | examples/stm32f4disco-socketcan/main.c:685-694 | the first finished frame returns to the host and its mailbox is free |
| GsUsb.Adapter.Transmit | examples/stm32f4disco-socketcan/main.c:625-639 | a request in one mailbox, with a copy kept for the echo |
| GsUsb.Adapter.Stop | examples/stm32f4disco-socketcan/main.c:531-539 | the channel is released, its mailboxes free and its waiting frame gone |
| GsUsb.Adapter.Start | examples/stm32f4disco-socketcan/main.c:542-559 | a stop, then ownership exactly when the controller initialised |
| GsUsb.Adapter.constructor | examples/stm32f4disco-socketcan/main.c:525-529 | the adapter after reset |
| GsUsb.BootIsInitial | examples/stm32f4disco-socketcan/main.c:525-529 | that state is an initial one of the machine |
| GsUsb.PollIsSteps | examples/stm32f4disco-socketcan/main.c:644-694 | a pass of the main loop is a sequence of steps of the machine with the same state and the same echo |
| GsUsb.EchoExactlyOnce | examples/stm32f4disco-socketcan/main.c:625-694 | over all interleavings no frame is echoed twice, none before its own request finished, and every frame is in exactly the place its fate names |
| GsUsb.EchoReturnsTheFrame | examples/stm32f4disco-socketcan/main.c:685-694 | in every reachable state the next echo carries the frame its mailbox was given, finished and not returned before |
| GsUsb.UndeliveredEchoKeepsBox | examples/stm32f4disco-socketcan/main.c:641-679 | in no reachable state does a step request, refill or renumber a mailbox with an undelivered echo |
| GsUsb.FateMoves | examples/stm32f4disco-socketcan/main.c:531-694 | a frame in a mailbox ends as an echo unless its channel is stopped first, and an end is final |
| GsUsb.FramesAreConserved | examples/stm32f4disco-socketcan/main.c:531-694 | on every run from an initial state the frames whose fate is echoed, dropped or given up are as many as the echoes and the two counters say, and with the one waiting and those in mailboxes they are all the frames read |
| GsUsbProgress.PassEchoesFirst | examples/stm32f4disco-socketcan/main.c:644-694 | a pass with room echoes a finished mailbox exactly when none before it is finished; otherwise it and its frame stay |
| GsUsbProgress.EchoedExactly | examples/stm32f4disco-socketcan/main.c:644-694 | over any series of passes with room, a finished frame is echoed if and only if one of them finds no mailbox before it finished |
| GsUsbProgress.EchoedWithin | examples/stm32f4disco-socketcan/main.c:644-694 | as long as no mailbox before it is filled again, a finished frame is echoed within one pass more than there are busy mailboxes before it |
| GsUsbProgress.MayWaitForEver | examples/stm32f4disco-socketcan/main.c:680-694 | without that condition: a state in which a finished frame of the second channel is not echoed however many passes follow |
| GsUsbProgress.StarvingIsReached | examples/stm32f4disco-socketcan/main.c:525-694 | that state is reached from reset |
| GsUsbRx.Receiver.Enqueue | examples/stm32f4disco-socketcan/main.c:191-206 | a received frame waits whole, or its channel's 32-bit drop counter moves |
| GsUsbRx.Receiver.Deliver | examples/stm32f4disco-socketcan/main.c:695-705 | one pass hands over at most one frame, passing over those of stopped channels |
| GsUsbRx.Receiver.constructor | examples/stm32f4disco-socketcan/main.c:186-189 | the receiver after reset, which is where every run starts |
| GsUsbRx.DeliveredIsFirstUp | examples/stm32f4disco-socketcan/main.c:695-705 | the frame handed over is the first whose channel is up, and nothing is handed over only if none is |
| GsUsbRx.LossesAreMarked | examples/stm32f4disco-socketcan/main.c:191-706 | over every run from reset the next frame out is marked exactly when its channel lost frames since the last one or the start, up to a full turn of the counter; the frames sent are frames taken, in order, and none accepted disappears |
| GsUsbRx.AllComeOut | examples/stm32f4disco-socketcan/main.c:191-706 | as many frames as the queue holds, on a channel that is up, all come out in as many passes, in order and unmarked |
| GsUsbRx.StoppedIsSilent | examples/stm32f4disco-socketcan/main.c:531-539 | after a stop no frame of the channel comes out |
| Nimble.ChunksOfWrite | glue/usbscpi_nimble.c:78-87 | the pieces of a write are as many as the room test counts, and make up the write |
| Nimble.HostTask.RxAccess | glue/usbscpi_nimble.c:68-91 | a write on a secure link is queued whole under the current session, or refused and nothing is queued, but for a copy that fails part way |
| Nimble.WriteAnswers | glue/usbscpi_nimble.c:68-91 | which answer the client gets, by security, room for the pieces and the packet buffer; only what is accepted is queued whole |
| Nimble.HostTask.OnConnect | glue/usbscpi_nimble.c:237-250 | after the handler the shared state is the one the machine's connect steps lead to (`ConnectIsSteps`) |
| Nimble.HostTask.OnDisconnect | glue/usbscpi_nimble.c:252-260 | after the handler the shared state is the one the machine's disconnect steps lead to (`DisconnectIsSteps`) |
| Nimble.ConnectIsSteps | glue/usbscpi_nimble.c:237-250 | what the connect handler does is the four assignments of the machine |
| Nimble.DisconnectIsSteps | glue/usbscpi_nimble.c:252-260 | and the disconnect handler |
| Nimble.WriteIsSteps | glue/usbscpi_nimble.c:68-91 | what the write handler does is the steps of the machine, piece by piece, the failed copy included |
| Nimble.Transmit | glue/usbscpi_nimble.c:138-163 | a reply goes out in order in pieces within the MTU, each while its session is current and subscribed; success is exactly the whole reply sent; which passes it makes is `Notifying`, for which the next rows stand |
| Nimble.NotifyingExact | glue/usbscpi_nimble.c:138-163 | a reply fails only at a pass that finds another session, no subscription, no room in the MTU or a refusal, or when no pass is left; it is sent whole exactly when the pieces taken before that have room for it |
| Nimble.FullIsRetried | glue/usbscpi_nimble.c:157-158 | a pass that finds the stack full changes nothing |
| Nimble.SessionsAreIsolated | glue/usbscpi_nimble.c:68-163 | in every interleaving the bytes being assembled belong to the session the worker recorded, and every fragment goes to that session's own link or to none |
| Nimble.ItemIsAnswered | glue/usbscpi_nimble.c:115-163 | a queued item of the current, subscribed session is executed and its reply goes out to that session: every step of the way is possible |
| Nimble.StaleIsNotAnswered | glue/usbscpi_nimble.c:142-147 | once its session is over, or nobody subscribed, a reply stops at the check |
| Nimble.WritesAreWhole | glue/usbscpi_nimble.c:68-136 | in every interleaving no piece is refused by the queue, the bytes executed, held and queued are exactly those taken of the writes under their sessions, and of each write a front is taken, of all of them all if and only if no copy has failed |
| Nimble.CutWrite | glue/usbscpi_nimble.c:68-91 | a run in which the copy of the second piece fails: the first stays queued, the write is cut |
| Nimble.StepKeepsInv | glue/usbscpi_nimble.c:68-262 | each shared access of either side keeps what every run keeps |
| WifiStation.Station.BeginConnect | examples/components/wlan/wifi_scan.c:45-58 | an attempt with its deadline, or its failure |
| WifiStation.Station.DisconnectFor | examples/components/wlan/wifi_scan.c:62-75 | draining towards a result, or an error |
| WifiStation.Station.OnDeadlineTimer | examples/components/wlan/wifi_scan.c:77-87 | a passed deadline drains with its cause |
| WifiStation.Station.OnStaStop | examples/components/wlan/wifi_scan.c:105-113 | the driver stopped: the next attempt, the result drained for, or an error |
| WifiStation.Station.OnStaDisconnected | examples/components/wlan/wifi_scan.c:117-148 | a lost link reconnects once, a missing access point is retried within the deadline, anything else ends the attempt with its cause |
| WifiStation.Station.OnGotIp | examples/components/wlan/wifi_scan.c:156-164 | an address ends the attempt as connected |
| WifiStation.Station.OnLostIp | examples/components/wlan/wifi_scan.c:165-171 | a lost address waits for another with a new deadline |
| WifiStation.Station.Connect | examples/components/wlan/wifi_scan.c:175-200 | an accepted connect starts or switches; a busy or malformed one changes nothing |
| WifiStation.Station.Stop | examples/components/wlan/wifi_scan.c:202-214 | what a stop does in each phase |
| WifiStation.Station.Clear | examples/components/wlan/wifi_scan.c:216-228 | the result is cleared only offline |
| WifiStation.ReachableStates | examples/components/wlan/wifi_scan.c:36-228 | in every state reachable from reset a deadline is set iff connecting or waiting for DHCP, an address is held iff online, RUNNING is shown iff neither offline nor online |
| WifiStation.RetriesKeepTheDeadline | examples/components/wlan/wifi_scan.c:117-134 | on every run from reset, retries never move the association deadline, and an attempt enters DHCP from it at most once |
| WifiStation.DrainEndsAsTold | examples/components/wlan/wifi_scan.c:62-113 | after any events from reset, draining ends as the last event that asked for an end said, or as an error if the driver does not restart |
| WifiStation.DeadlineEnds | examples/components/wlan/wifi_scan.c:77-87 | in every reachable state the timer ends any attempt it finds past its deadline |
| WifiStation.LossEndsAs | examples/components/wlan/wifi_scan.c:124-145 | in every reachable state, what a lost link ends an attempt as, cause by cause |
| WifiStation.AttemptSucceeds | examples/components/wlan/wifi_scan.c:45-200 | from every reachable idle or online state, a connect with acceptable credentials, an association and an address lead online with them |
| WifiStation.AttemptBegins | examples/components/wlan/wifi_scan.c:45-58 | each of the three ways into an attempt starts it with its deadline, or ends it with the driver's code, as wrong credentials or as an error |
| WifiStation.RetryExact | examples/components/wlan/wifi_scan.c:125-134 | a missing access point is tried again under the same deadline, or ends as an error if the driver refuses |
| WifiStation.StopFails | examples/components/wlan/wifi_scan.c:62-113 | a driver that does not stop, or not start again, ends it all as an error |
| WifiStation.AddressLost | examples/components/wlan/wifi_scan.c:165-171 | a lost address is waited for again, and another brings the station back online |
| WifiStation.CommandsExact | examples/components/wlan/wifi_scan.c:175-228 | commands that are refused change nothing; a scan keeps connects out until it is done |
| WifiStation.StopIsFinal | examples/components/wlan/wifi_scan.c:202-214 | after a stop in any reachable state the attempt can only end as STOPPED or ERROR, whatever events arrive |
| EditDistance.Compute | host/rust/src/bin/iotsploit-host.rs:403-416 | the rolling-row loop computes the recursive distance |
| EditDistance.DistIsShortest | host/rust/src/bin/iotsploit-host.rs:403-416 | that distance is the length of a shortest series of single-character insertions, deletions and substitutions: one of that length exists and none is shorter |
| EditDistance.DistanceIsEdits | host/rust/src/bin/iotsploit-host.rs:419-427 | a candidate is within n exactly when n edits or fewer turn what was typed into its long or its short form |
| EditDistance.NoScriptIsShorter | host/rust/src/bin/iotsploit-host.rs:403-416 | no series of edits, at any positions, is shorter |
| EditDistance.ScriptExists | host/rust/src/bin/iotsploit-host.rs:403-416 | a series of exactly that length exists |
| EditDistance.ClosestIsFirstMinimiser | host/rust/src/bin/iotsploit-host.rs:419-431 | a suggestion is the first least distant candidate within the threshold, and there is none exactly when no candidate is within it |
| EditDistance.NothingToSuggest | host/rust/src/bin/iotsploit-host.rs:419-431 | a candidate is at distance zero exactly when it was typed, in any case, in its long or its short form |
| EditDistance.ShortOfHeader | host/rust/src/bin/iotsploit-host.rs:386-390 | the short form of a header, segment by segment, is its text without lower-case letters |
| TextExact.TrimExact | host/rust/src/session.rs:33-42 | trimming takes white space off both ends, all of it and nothing else |
| TextExact.EolExact | host/rust/src/session.rs:264-284 | so do line ends at the end |
| TextExact.UnsignedExact | host/rust/src/descriptor.rs:449-469 | an unsigned number is digits, with or without a plus, within the bound |
| TextExact.SignedExact | host/rust/src/session.rs:33-42 | a signed one may have a minus, and has the range of 32 bits |
| TextExact.EntryExact | host/rust/src/session.rs:33-42 | a line is an error entry exactly when it is text and, its line ends dropped, a signed number, a comma and a text in quotes, with white space about them |
| TextExact.NoErrorExact | host/rust/src/session.rs:292-300 | the drain ends at code 0, and at the text of an empty queue in any case |
| TextExact.LenientExact | host/rust/src/session.rs:292-294 | the drain takes any text for an entry: a code that is no number is -1, and without a comma there is no message |
| TextExact.PrefixExact | src/usbscpi.c:431-441 | the write prefix is exactly blanks, perhaps a colon, and the word with one blank, in any case |
| TextExact.UpperExact | host/rust/src/bin/iotsploit-host.rs:420 | upper case goes by the alphabet and leaves everything else alone |
| TextExact.ShortFormExact | host/rust/src/bin/iotsploit-host.rs:388-390 | a short form leaves the lower-case letters out and keeps the rest |

## Left out

- The SCPI parser and its result functions: a handler that may answer anything; only the newline it appends after output is kept.
- Sockets, poll, TinyUSB, nusb, NimBLE, ESP-IDF and RTOS calls: environment steps with the contract the code relies on.
- A fault in the receive engine: the rest of that call's buffer is discarded, so what follows a fault does depend on the cut; `RxEngine.Fragmentation` speaks up to and including the first fault.
- RxEngine.Fragmentation: payload callbacks succeed; a payload callback that refuses sees chunks whose size is the cut itself.
- DescriptorRoundTrip.RoundTrip: speaks of ASCII text without newlines, which would end the record.
- Non-ASCII text in descriptors and error entries: the host pushes such text byte by byte and trims Unicode white space; the trimming is modelled on ASCII. Which byte strings are UTF-8 is a parameter of `Session`.
- `query_multiline` and `query_block` of the session.
- `build_trigger`, `build_fetch`, `validate_against_headers` and the file loading of the descriptor module: short and easy.
- RingBuffer.Ring.Clear: for use by one thread only, as its header demands; it is not a step of the two-thread machine.
- StreamServe.Server.ServeConsumer: as one thread sees it, with no producer writing meanwhile; the producer is in `StreamSessions`.
- CheckedCommand.ReportsItsOwn: the handlers of the commands put out lines and blocks, none of them like an error entry, and do not look at the error queue themselves.
- Zero-length packets that end a USB transfer, transfer timeouts and `clear_failed_exchange`: the bus delivers each transfer completely.
- UsbtmcHost.Host.Exchange: the bus never splits the header, as a first packet of at least 64 bytes guarantees, and each read returns something; the reads may cut the answer anywhere, and the sizes the host asks for in them are not modelled.
- The register encodings of `gs_transmit` and the control requests of the gs_usb adapter other than start and reset: one-step copies.
- GsUsbRx.LossesAreMarked: the two rings of the adapter are bounded queues here; that a ring is one is `RingThreads`.
- GsUsb.FateMoves: says what may happen to a frame; when a finished one is echoed is `GsUsbProgress`, and that the bus takes it at all is the hardware's.
- GsUsbProgress.EchoedWithin: the pipe to the host has room in each of the passes, and no channel starts or stops between them.
- HostLosses.HostReportsTheLosses: that the records of the log are those of the machine is a hypothesis; the producer class and the machine are not one object.
- Nimble.SessionsAreIsolated: one link at a time and no wrap of the session counter; pairing and bonding are one step that may secure the current link.
- WifiStation.StopIsFinal: until the host connects again or clears the result; the scan results themselves and the credentials' use are not modelled.
- Replies longer than the limit in `MsgReader`, counter resets between captures, and reuse of a BLE handle: outside what the code promises.
- Command-line parsing and printing, discovery, capabilities, board set-up, timestamps and wall-clock scheduling.
