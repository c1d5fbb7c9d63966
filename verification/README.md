# PowerAdvertiser firmware core, modelled in Dafny

This project models the self-contained logic of the PowerAdvertiser nRF52
firmware and proves properties of it. It covers three parts.

**The debug trace port (`src/adv_trace.c`).**
- A bit-packed store of per-source verbosity levels: 32 sources, 4 bits each, in four 32-bit words.
- A 128-slot ring of trace messages that always keeps one slot unused.
- The three producers that fill the ring: `pa_print`, `pa_trace_printf` and `pa_printf`.
- The drain state machine. It hands one message at a time to the UART and moves on when the driver reports the end of a transfer.
- The fatal-error path.
- The hex formatter `pa_trace_build_hex`.

**The little-endian byte codecs and arithmetic macros (`src/adv_tools.h`).**

**The BLE service logic (`src/adv_ble.c`).**
- UUID-to-attribute lookup.
- The error record exposed through the ADV_ERROR characteristic.
- The single pending-request record.
- The GATT write and read authorisation handlers and their completions.
- The background-worker engine and its stalled-connection watchdog.
- SoftDevice version packing and decoding.
- The MAC-address formatter.

## How the model is built

**Trace state.** `Trace.Trace` is a class whose fields are the fields of `struct pa_trace`:
- `masks` is a `bv32` array, so the shift-and-mask updates read as in C;
- `slots` holds each slot's payload, meaning the `tm_length` characters that will be transmitted;
- the two cursors, `pt_count` (wrapping at 256), `pt_initialized` and `pt_que_active`.

Ghost state records three things:
- every payload committed to the ring (`pushed`);
- for each message taken from the ring head, whether the UART accepted it (`fates`);
- whether the fatal-error path has abandoned the queue protocol (`halted`).

The invariant `Valid` ties the UART's log of started transfers to this history. That is how FIFO delivery and "at most one transfer in flight" are proved.

**The UART stand-in.** `Trace.Uart` records started transfers and counts attempts. It refuses a transfer while one is in flight, which is the driver's busy error. Otherwise it accepts or refuses according to an arbitrary oracle, which stands for every other synchronous failure of `nrfx_uarte_tx`. The driver's TX_DONE/ERROR callback is a separate method, `OnUartEvent`. The timestamp, the interrupt context and the already-formatted text are inputs.

**Trace payloads.** The formatted message body is an input text. Its length is the "would-be" length `vsnprintf` returns. `TracePayload` reproduces the truncation arithmetic of `pa_trace_printf` exactly. This includes the case where the would-be total is exactly 126: the text is then cut by one character and gets no `...` mark.

**BLE attribute engine.** `BleAttr.AdvBle` holds:
- the attribute table, as constant size/writer/reader facts plus the `pa_length` values;
- the pending-request record `bp_attr_event`;
- the error descriptor;
- the 16-byte transient buffer, as an `array`;
- the sleep, reboot and connection flags.

SoftDevice calls are recorded, not executed: every authorisation reply is appended to `replies`, and every disconnection request increments `disconnects`. Application writers and readers are callbacks whose return code is an input. A reader also supplies the length it leaves in the attribute. The constructor takes the attribute table as a parameter. The firmware's own table, `AdvAttributes` (ADV_ERROR only, with neither writer nor reader), is covered by `ErrorAttributeReadOnly`.

**Consequences the contracts make explicit.**
- The completions test the record before they test the code. So a request refused before the record was filled is reported with `PE_INTERNAL`. This covers an unknown UUID, a non-zero read offset, and a request that arrives while the firmware is entering sleep. The `-PE_ABORT` "unlikely error" marker therefore reaches the peer only from a writer or reader that returns it, or when a write arrives during sleep entry while a deferred write's data is still in the record (`ae_data` set): the write's refusal then completes that record with `-PE_ABORT`. A pending deferred read, or a deferred zero-length write, leaves no data in the record, so that refusal is reported as `PE_INTERNAL` too.
- Any refused request is completed against whatever record is pending, which wipes that record. This holds for a write refused for its operation, offset, size, read-only attribute, unknown UUID, sleep or busy record, and for any refused read.
- A deferred zero-length write has no data left in the record, so its completion always reports `PE_INTERNAL`.
- After `pa_trace_fatal_error` has sent its message from an empty ring, the driver's TX_DONE still advances the read cursor. The cursors then span 127 stale slots, which the drain hands to the UART (`OnUartEvent`, `ReleaseEmpty`). A release build resets the chip right after the fatal message; a debug build waits in a loop while interrupts are still served (`src/adv_main.c:111-135`).

**Integer widths.** Fixed-width integers are `int` subset types. Wrap-around is written out wherever the source relies on it:
- `pt_count`;
- the worker clock, and the unsigned difference the watchdog takes;
- `BLE_LINK_VERSION_IDX` for codes below 6;
- the `(int8_t)` cast of a stored error code;
- the `(uint8_t)` length cast of `pa_trace_fatal_error`.

## Model

| member | source | states |
|---|---|---|
| Tools.Min | src/adv_tools.h:63 | the result is no larger than either operand and is one of them |
| Tools.Max | src/adv_tools.h:68 | the result is no smaller than either operand and is one of them |
| Tools.Abs | src/adv_tools.h:72 | the result is non-negative and is the operand or its negation |
| Tools.NAbs | src/adv_tools.h:75 | the result is never positive and is the operand or its negation |
| Tools.ZArraySize | src/adv_tools.h:34-38 | the count is the array's capacity less one, the terminator's place |
| Tools.LiteralSize | src/adv_tools.h:34-38 | for a string literal the count is the length of its text: the first ZARRAY_SIZE characters are the text and the next is its NUL |
| Tools.GetUint8 | src/adv_tools.h:119-122 | the value is the first byte of the buffer |
| Tools.GetUint16 | src/adv_tools.h:131-134 | encoding the decoded value little-endian gives back buf[0..2) |
| Tools.GetUint32 | src/adv_tools.h:143-148 | encoding the decoded value little-endian gives back buf[0..4); the value is below 2^32 |
| Tools.GetUint64 | src/adv_tools.h:157-163 | encoding the decoded value (low word from buf[0..4), high word from buf[4..8)) gives back buf[0..8) |
| Tools.GetSetUint16 | src/adv_tools.h:184-188 | get_uint16 reads back every value set_uint16 stores |
| Tools.GetSetUint32 | src/adv_tools.h:197-203 | get_uint32 reads back every value set_uint32 stores |
| Tools.GetSetUint64 | src/adv_tools.h:212-216 | get_uint64 reads back every value set_uint64 stores |
| Tools.SetUint8 | src/adv_tools.h:172-175 | the byte at the cursor becomes the value; nothing else in the buffer changes |
| Tools.SetUint16 | src/adv_tools.h:184-188 | buf[0..2) becomes the value least significant byte first; nothing else changes |
| Tools.SetUint32 | src/adv_tools.h:197-203 | buf[0..4) becomes the value least significant byte first; nothing else changes |
| Tools.SetUint64 | src/adv_tools.h:212-216 | buf[0..4) gets the low word and buf[4..8) the high word; nothing else changes |
| LevelStore.WordOf | src/adv_trace.c:416 | a source's field lies in one of the PTN_WORDS words |
| LevelStore.ShiftOf | src/adv_trace.c:418 | a source's field offset is a multiple of 4 below 32 |
| LevelStore.LevelOf | src/adv_trace.c:433-441 | a stored level is at most PTL_MASK (7) |
| LevelStore.PlaceSameField | src/adv_trace.c:421-423 | clearing then OR-ing a level into a field makes the field read that level and keeps its reserved bit |
| LevelStore.PlaceOtherField | src/adv_trace.c:421-423 | the same store leaves every other field of the word, reserved bit included, unchanged |
| LevelStore.FieldPosition | src/adv_trace.c:416-418 | source s lives in word s / 8 at bit offset 4 * (s % 8) |
| LevelStore.DistinctFields | src/adv_trace.c:48-56 | two distinct sources never share a field |
| LevelStore.WithLevelEffect | src/adv_trace.c:405-424 | after set_source the source reads back the level, admits exactly the levels at or above it, keeps its reserved bit, and every other source's level and reserved bit are unchanged |
| LevelStore.AllDisabled | src/adv_trace.c:310-312 | after the fill with DISABLE_ALL_TRACES_MASK every source reads 7 and no level up to PTL_FUNC is admitted |
| TraceQueue.CountFree | src/adv_trace.c:219-229 | the free count lies in 0..127 |
| TraceQueue.CountAvail | src/adv_trace.c:238-248 | the available count lies in 0..127 |
| TraceQueue.Next | src/adv_trace.c:280-294 | a cursor advances by one and the last slot wraps to the first |
| TraceQueue.Window | src/adv_trace.c:238-248 | the queued messages number exactly count_avail |
| TraceQueue.Accounting | src/adv_trace.c:219-272 | free + avail == 127; empty iff avail == 0; full iff avail == 127 |
| TraceQueue.ReadNext | src/adv_trace.c:280-283 | advancing the read cursor of a non-empty ring drops exactly the oldest message, which is the slot at the read cursor |
| TraceQueue.ReleaseEmpty | src/adv_trace.c:280-283 | advancing the read cursor of an empty ring makes the cursors read as a full ring of 127 messages |
| TraceQueue.WriteNext | src/adv_trace.c:291-294 | storing into the write slot of a non-full ring and advancing appends exactly that message |
| TraceFormat.RawPayload | src/adv_trace.c:477-478 | pa_print keeps a prefix of the message of at most 127 characters, the whole message when it fits |
| Printf.HexRoundTrip | src/adv_trace.c:64 | for v below 16^width, the width digits "%0<width>x" prints read back as v: they are v in hexadecimal |
| TraceFormat.Header | src/adv_trace.c:530-541 | the header is '^', eight hex digits whose value is the time stamp, " :", two hex digits whose value is the counter, and a space |
| TraceFormat.Prefix | src/adv_trace.c:544-547 | the level letter from "CDIWEF." and a space follow the header exactly for levels below PTL_COUNT |
| TraceFormat.TracePayload | src/adv_trace.c:500-575 | the slot length is min(prefix + would-be text length, 127) |
| TraceFormat.TracePayloadShape | src/adv_trace.c:549-563 | a line is header, marker and text; under 126 it is complete; at exactly 126 the last text character is replaced by NUL with no mark; from 127 it is cut at 122 and ends "...\n" NUL |
| TraceFormat.PlainPayload | src/adv_trace.c:592-623 | pa_printf's slot length is min(would-be length, 127) |
| TraceFormat.PlainPayloadShape | src/adv_trace.c:592-623 | an untagged line is kept whole below 127 characters, otherwise cut to 126 characters and a NUL |
| Trace.DeliveredAll | src/adv_trace.c:746-780 | with no refused transfer every message taken from the ring reaches the UART, in order |
| Trace.HistoryStep | src/adv_trace.c:763-775 | taking the next message off the ring extends what reached the UART by that message exactly when the UART accepts it |
| Trace.DrainSkip | src/adv_trace.c:750-779 | the drain skips only refused messages, stops at the first accepted one, and skips no more than are queued |
| Trace.Uart.Tx | src/adv_trace.c:765-766 | a transfer starts iff none is in flight and the attempt is not refused; only a started transfer is logged |
| Trace.Trace.constructor | src/adv_trace.c:170-173 | the static state starts uninitialised with an empty ring, nothing sent and count 0 |
| Trace.Trace.InFlight | src/adv_trace.c:738-780 | while the queue is active exactly one transfer is in flight, the ring is non-empty, and the last transfer started carries the slot at the read cursor |
| Trace.Trace.Lossless | src/adv_trace.c:716-780 | when no attempt is refused, the UART has received every message taken from the ring, in push order |
| Trace.Trace.GetSource | src/adv_trace.c:433-441 | the level read is the source's 3-bit field of pt_masks |
| Trace.Trace.IsTraceable | src/adv_trace.c:358-372 | true iff initialised, the source is below 32 and the level is at or above the source's level |
| Trace.Trace.IsFuncable | src/adv_trace.c:382-385 | true iff initialised, the source is below 32 and its level is PTL_CHATTY |
| Trace.Trace.SetSource | src/adv_trace.c:405-424 | an in-range source and level set that source's field and nothing else; anything out of range leaves pt_masks untouched |
| Trace.Trace.TryHead | src/adv_trace.c:757-778 | one iteration of the drain: an accepted transfer of the head leaves it queued and in flight; a refused one drops it |
| Trace.Trace.PopQueue | src/adv_trace.c:746-780 | it skips exactly the refused messages, then either leaves the queue active with the first accepted message in flight or ends with an empty ring and the queue inactive; the port stays valid |
| Trace.Trace.DrainHead | src/adv_trace.c:750-777 | the loop ends; it drops exactly the refused heads, and reports a started transfer of the first accepted message or an empty ring |
| Trace.Trace.StartQueue | src/adv_trace.c:738-743 | with a drain under way nothing happens; otherwise it drains as PopQueue does |
| Trace.Trace.ReleaseHead | src/adv_trace.c:729-732 | the transfer is over and the read cursor moves one slot on: the head message leaves the ring, or an empty ring then reads as 127 stale slots |
| Trace.Trace.OnUartEvent | src/adv_trace.c:716-735 | RX_DONE changes nothing; TX_DONE or ERROR advances the read cursor and drains the slots it then spans: the queued messages after the head, or, once the fatal-error path has sent from an empty ring, 127 stale slots |
| Trace.Trace.Enqueue | src/adv_trace.c:476-484 | the payload is appended to the ring and to the push history, then the drain starts unless one is under way |
| Trace.Trace.Print | src/adv_trace.c:451-486 | uninitialised: returns 0, changes nothing; from an ISR or into a full ring: returns 0, counts the loss only; otherwise counts, returns the untruncated length, and stores at most 127 characters as Enqueue does: the ring gains the message and the drain starts unless one is under way |
| Trace.Trace.TracePrintf | src/adv_trace.c:500-575 | same guards as pa_print; TracePayload, with the counter before the increment, is stored as Enqueue does (ring contents, active flag, UART log); returns the slot length, 1..127 |
| Trace.Trace.Printf | src/adv_trace.c:592-623 | no interrupt check; a full ring counts the loss and changes nothing else; a stored message leaves the counter alone and is stored as Enqueue does (ring contents, active flag, UART log); returns the would-be length |
| Trace.Trace.FatalError | src/adv_trace.c:626-631 | the queue is marked active, so producers start no drain until a driver event runs one; the cursors are kept; the message (length cast to 8 bits) reaches the UART iff no transfer is in flight and the attempt is not refused |
| Trace.Trace.DisableAll | src/adv_trace.c:310-312 | every word of pt_masks becomes DISABLE_ALL_TRACES_MASK (all ones); AllDisabled then gives every source level 7 |
| Trace.Trace.ApplyDefaults | src/adv_trace.c:343-345 | from all-ones masks, each source ends at its initial level, and every source past the default table admits no level up to PTL_FUNC |
| Trace.Trace.Announce | src/adv_trace.c:323-341 | the port is marked initialised, the counter advances once, and the banner (newline, header with time 0 and the counter, location) is stored as Enqueue does (ring contents, active flag, UART log) unless called from an ISR or into a full ring, in which case the ring and the UART are untouched |
| Trace.Trace.Init | src/adv_trace.c:307-346 | every source ends at its initial level; sources 3..31 trace nothing; the counter advances once; the banner is stored and drained as Announce states, or, from an ISR or into a full ring, the ring and the UART are untouched |
| TraceHex.HexCells | src/adv_trace.c:697-704 | three characters per byte |
| TraceHex.HexCellsAt | src/adv_trace.c:697-704 | cell j is the two lower-case hex digits of byte j then a space |
| TraceHex.Trimmed | src/adv_trace.c:705-707 | the trailing separator is dropped |
| TraceHex.HexCount | src/adv_trace.c:697-704 | the loop completes min(blen, (dlen-1)/3) cells: each kept cell leaves room for a terminator, and the next one would not |
| TraceHex.HexStep | src/adv_trace.c:695-696 | a cell that fits with its terminator extends the cells written so far by the next byte's cell; nothing before the cursor or past the remaining size changes |
| TraceHex.WriteCells | src/adv_trace.c:693-704 | the buffer starts with exactly HexCount cells and nothing at or beyond dlen changes |
| TraceHex.BuildHex | src/adv_trace.c:690-709 | returns 3k when k > 0, else 1; the output is the k cells without the last space, then NUL; with dlen == 0 it still writes dst[0] |
| TraceHex.BuildHexChecked | src/adv_trace.c:690-709 | same result for dlen >= 1; never writes at or beyond dlen, and returns 0 for dlen == 0 |
| BleVersion.SoftDeviceVersion | src/adv_ble.c:96-98 | a packed version with non-zero SoftDevice byte is at least 2^24 |
| BleVersion.VersionRoundTrip | src/adv_ble.c:806-812 | unpacking NORDIC_SOFTDEVICE_VERSION(sd, maj, min, patch) gives back all four, for 100 <= sd <= 355 and byte-sized parts |
| BleVersion.LinkIndex | src/adv_ble.c:93 | codes 6 and above map to code - 6; lower codes wrap to huge unsigned indices |
| BleVersion.LinkVersionTable | src/adv_ble.c:357-362 | codes 6..9 map to Bluetooth 4.0, 4.1, 4.2, 5.0; every other code maps to 0.0 |
| BleVersion.SdVersionFromFound | src/adv_ble.c:795-800 | the search yields 0 when no row matches and otherwise the version of the first matching row |
| BleVersion.SdVersionKnown | src/adv_ble.c:370-384 | the version found is non-zero iff the code is in BLE_SD_VERSIONS |
| BleVersion.FindSdVersion | src/adv_ble.c:794-800 | the linear search returns the first matching row's version, or 0 |
| BleVersion.DecodeStackVersion | src/adv_ble.c:782-815 | a non-Nordic company gives no version; otherwise the six numbers come from the found SoftDevice version and the link-layer table |
| BleVersion.DecodedRelease | src/adv_ble.c:795-812 | code 0xB7 decodes to S132 6.1.1; an unknown code decodes to 0.0.0 of SoftDevice 100 |
| BleMac.MacCell | src/adv_ble.c:1761-1764 | a step prints three characters ("%02x:"), the last step two ("%02x") |
| BleMac.CellInText | src/adv_ble.c:1759-1771 | the six steps, in order, print exactly the 17-character text: step bix fills characters 3*bix up to the next step's start |
| BleMac.MacTextOrder | src/adv_ble.c:1759-1771 | the most significant byte comes first and the least significant last, groups separated by ':' |
| BleMac.MacStep | src/adv_ble.c:1761-1767 | a step that fits with its terminator extends the text written so far by one group and terminates it; nothing before the cursor or past the remaining size changes |
| BleMac.MacAddrToStrAsWritten | src/adv_ble.c:1757-1772 | for length >= 18 the buffer holds the 17-character text and NUL; for length in {0,3,...,15} a NUL lands at str[length] |
| BleMac.MacCut | src/adv_ble.c:1759-1771 | the cut lies below the buffer length at a group boundary |
| BleMac.MacAddrToStr | src/adv_ble.c:1757-1772 | the full text and NUL for length >= 18; the whole groups that fit and NUL for 1..17; nothing written at or past str[length] |
| BleAttr.LookupAttribute | src/adv_ble.c:1221-1248 | an index is found iff the UUID type is VENDOR_BEGIN and 0x1001 <= uuid < 0x1001 + ADV_COUNT, and it is uuid - 0x1001 |
| BleAttr.AttributeChar | src/adv_ble.c:640-650 | a missing or out-of-table attribute yields ADV_COUNT, a valid one its index |
| BleAttr.ToInt8 | src/adv_ble.c:1691 | the int8 cast agrees with the code modulo 256 and keeps codes in -128..127 |
| BleAttr.StoreError | src/adv_ble.c:1676-1694 | only pe_errno and pe_attr change; an invalid attribute is recorded as ADV_ERROR |
| BleAttr.WriteCheck | src/adv_ble.c:1378-1408 | a write passes iff it is a WRITE_REQ at offset 0, of acceptable size, to a writable attribute, with no pending request; every refusal is negative |
| BleAttr.WriteCheckOrder | src/adv_ble.c:1378-1408 | the first failing check decides the code: INVALID_COMMAND, NOT_SUPPORTED, OVERFLOW, INVALID_REQUEST, READ_ONLY, then BUSY |
| BleAttr.ErrorAttributeReadOnly | src/adv_ble.c:584-598 | with the firmware's table no write is ever accepted; a well-formed one is refused as READ_ONLY |
| BleAttr.Elapsed | src/adv_ble.c:1859 | the unsigned difference of the worker clocks, wrapping when the clock has wrapped |
| BleAttr.WorkerEngine.Start | src/adv_ble.c:1813-1824 | both clocks restart at 0 |
| BleAttr.WorkerEngine.UpdateBleStatus | src/adv_ble.c:1834-1844 | workers are enabled iff no connection is active |
| BleAttr.WorkerEngine.Feed | src/adv_ble.c:1894-1898 | the last-request time becomes the current time |
| BleAttr.WorkerEngine.RunNext | src/adv_ble.c:1906-1912 | the worker session ends |
| BleAttr.AdvBle.SetErrorOnAttr | src/adv_ble.c:1676-1694 | the error record becomes StoreError of the code and attribute; nothing else changes |
| BleAttr.AdvBle.RetrieveAttribute | src/adv_ble.c:1221-1248 | returns LookupAttribute; a refused UUID records PE_INVALID_UUID on ADV_ERROR |
| BleAttr.AdvBle.Disconnect | src/adv_ble.c:1778-1788 | a disconnection is requested iff the connection handle is valid |
| BleAttr.AdvBle.HandleDisconnect | src/adv_ble.c:1723-1727 | the pending-request record is emptied |
| BleAttr.AdvBle.EnterSleep | src/adv_ble.c:1735-1742 | the entering-sleep flag is set; nothing else modelled changes |
| BleAttr.AdvBle.WriteAttribute | src/adv_ble.c:1374-1451 | a refusal returns WriteCheck's code and leaves the record, watchdog and transient buffer alone; an accepted write feeds the watchdog and fills the record; over 16 bytes gives NOT_SUPPORTED; a deferred write keeps its data in the transient buffer, or drops the data reference when empty; otherwise the transient buffer is untouched |
| BleAttr.AdvBle.CompleteWriteReq | src/adv_ble.c:1459-1511 | a record without data or attribute forces PE_INTERNAL; non-negative codes succeed and set pa_length, with update only for 0; PE_ABORT gives UNLIKELY_ERROR without touching the error record; other errors give WRITE_NOT_PERMITTED and are stored; the record is always wiped |
| BleAttr.AdvBle.WriteRequest | src/adv_ble.c:1293-1362 | queued/execute writes get APP_FEATURE_NOT_SUPPORTED and nothing else changes; every other outcome (refusal, oversize, deferral, writer result, reboot disconnect) gives the exact reply, error record, lengths and record; an accepted write feeds the watchdog and a refused one leaves its last-request time; a deferred write's record holds its data in the transient buffer, or no data when it is empty; the transient buffer changes only then; the worker clock and enable flag never change |
| BleAttr.AdvBle.CompleteReadReq | src/adv_ble.c:1601-1666 | no attribute, or success with length 0, becomes PE_INTERNAL; success replies with the length; PE_ABORT gives UNLIKELY_ERROR; other errors give READ_NOT_PERMITTED and are stored; the record is always wiped |
| BleAttr.AdvBle.ServeRead | src/adv_ble.c:1553-1592 | an accepted read feeds the watchdog; with a reader the length is the reader's, and a deferral leaves the record naming the attribute with nothing replied; otherwise the reply and error record follow the reader's code (0 with length 0 becomes INTERNAL); without a reader the length is reset by size kind and a zero length is refused with INTERNAL |
| BleAttr.AdvBle.ReadRequest | src/adv_ble.c:1522-1593 | a refused read (unknown UUID, offset, sleep, busy) gets READ_NOT_PERMITTED with BUSY or INTERNAL stored; an accepted read feeds the watchdog, resets the length by size kind, runs the reader, and replies or defers accordingly |
| BleAttr.AdvBle.WorkerTimer | src/adv_ble.c:1853-1887 | the clock advances by 5 with wrap-around; with workers disabled a disconnection is requested iff the idle time exceeds 120 s and the handle is valid; the engine never stays running |

## Left out

- The UART driver itself (`nrfx_uarte_init`/`uninit`, DMA, baud configuration): it is represented by `Trace.Uart`; the driver re-initialisation inside `pa_trace_init` is not modelled.
- `app_timer_cnt_get` and `__get_IPSR`: the timestamp and the interrupt context are parameters.
- printf formatting: the header is concrete, but the format string and arguments of a trace are an already-formatted input text; `pa_trace_init`'s banner is modelled as a newline, the header and a location text.
- Critical sections and real interrupt preemption: the driver callback is a separate method, interleavings are at method granularity.
- `pa_trace_dump_hex` (compiled out), the `pa_printf_ext` alias, `_pa_trace_queue_flush` (unused), `pa_trace_is_irq`.
- Trace.Trace.GetSource: requires a source below 32; the C code does not range-check and would read past `pt_masks`.
- Trace.Trace.SetSource: sources are natural numbers; a negative `int source` is not modelled.
- Tools.Abs: `ABS(INT_MIN)` overflow is not modelled, integers are unbounded.
- Trace.Trace.OnUartEvent: after `pa_trace_fatal_error` the push history and the delivered log are no longer related (only `Valid` is kept); the cursors, the active flag and what reaches the UART still are.
- All SoftDevice and SDK calls in `src/adv_ble.c` (stack, GAP, GATT, DIS and advertising setup, timer creation, the event dispatcher, the unrequested write handler `_adv_ble_write_attr`): replies and disconnections are only recorded.
- The firmware-version string itself: `DecodeStackVersion` yields the six numbers `snprintf` prints, not the text.
- Application writers and readers: only their return code (and, for a reader, the length it leaves) is modelled, not the attribute values they produce.
- BleAttr.AdvBle.EnterSleep: the restore of the advertising fast timeout is not modelled.
- Attribute values (`pa_var`) other than the error descriptor's `pe_errno`/`pe_attr`, and the fields of `ble_gatts_rw_authorize_reply_params_t` the firmware leaves at zero, are not modelled.

## Findings

| source | as written | input that shows it | evidently intended | confidence | as-written member | corrected member |
|---|---|---|---|---|---|---|
| src/adv_trace.c:690-709 | with `dlen == 0` the loop does nothing and the final store writes the NUL at `dst[0]`, returning 1 | `dlen = 0`, any buffer: `dst[0]` is overwritten | a zero-sized destination is left untouched and 0 is returned | not executed; high | TraceHex.BuildHex | TraceHex.BuildHexChecked |
| src/adv_ble.c:1757-1772 | a step is abandoned only when `len > rem`; when `rem` equals a `"%02x:"` count the truncated step is accepted, `rem` becomes 0 and the next `snprintf(str, 0, …)` writes nothing, but the failure path then writes `str[0] = '\0'` one past the buffer | `length = 3`: the second step stores `'\0'` at `str[3]` | abandon a step that does not fit with its terminator (`len >= rem`) and never write at or past `str[length]` | not executed; high | BleMac.MacAddrToStrAsWritten | BleMac.MacAddrToStr |
