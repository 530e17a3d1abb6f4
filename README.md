# DMX512 bridge: channel buffer, datagram decision and frame sender

This project models the core of a small UDP-to-DMX512 bridge written in C. It comes in
two variants: `server_com.c` drives a termios serial device and `server.c` drives an FTDI
USB adapter. Both hold one 512-channel universe in a byte buffer that starts zero-filled.
The receive loop takes datagrams of the form `{"channel":<n>,"value":<n>}`, NUL-terminates
them, parses them with `sscanf` and range-checks them. It then stores the value in the
buffer. A sender thread copies the buffer and sends it as a DMX512 frame: a 0x00 byte at
9600 baud serves as the break, followed by a 100 µs gap and then the buffer at 250000 baud.

Modules:

- `Bytes`: the `Byte` type (`unsigned char`).
- `ChannelBuffer`: the buffer as a class over an array (`Universe`: zero-fill, validated
  update, snapshot). It also holds the pure specification of an update (`Store`,
  `StoreAll`) and the update as the source writes it (`StoreAsWritten`).
- `Datagram`: the `sscanf` accept decision over bytes (`Parse`), the text a client sends
  (`Command`) and the C-string view of a buffer (`CString`).
- `Listener`: one pass of the receive loop (`Serve`, specified by `Decide`) and the
  NUL-termination step, both as written and corrected.
- `Transport`: the operations both senders issue. `Timeline` interprets a list of them
  as line activity, and `IsDmxPacket` judges that activity against the DMX512 limits a
  receiver must accept: a break of at least 88 µs, a mark-after-break of at least 8 µs,
  slots at 250 kbit/s in 8N2 framing, and the null start code (ANSI E1.11, DMX512-A).
- `SerialServer` and `FtdiServer`: `send_dmx` of each variant as a pure list of
  operations, with what it puts on the line, plus one iteration of `send_dmx_thread`.

The buffer, update, parse and receive code is the same in both C files. It is modelled
once and cited at `server_com.c`. The matching lines of `server.c` are 12-19 for the
buffer and its zero-fill, 41-51 for the sender thread and 101-123 for the receive loop.

Three points where the code departs from DMX512 (ANSI E1.11) practice:

- A DMX512 packet carries the start code in slot 0 and channels 1–512 in slots 1–512,
  513 slots in all. The code declares 512 cells and guards `channel <= 512`, so
  channel 512 has no cell. See the first finding below.
- The code checks none of the results of its writes and of its port configuration
  calls, so every operation of `send_dmx` is issued unconditionally. Operations in the
  model have no result.
- DMX512 data uses 2 stop bits. `server.c` sets them (`server.c:23`). `server_com.c`
  keeps the framing of `open_serial_port`, which clears `CSTOPB` (`server_com.c:50`).
  `SerialServer.SendsDmxPacketIff` states the consequence.

`server_com.c` does not compile as written: `send_dmx` uses `tty`, which is a local of
`open_serial_port`. `SerialServer.SendDmx` models the evident intent. Each speed change
re-applies the port's own settings with only the speed changed.

## Model

| member | source | states |
|---|---|---|
| `ChannelBuffer.Universe.constructor` | server_com.c:13-20 | the buffer is allocated with its full size and every slot is 0 |
| `ChannelBuffer.Universe.Initialize` | server_com.c:16-20 | after the loop every one of the buffer's cells is 0 (same at server.c:15-19) |
| `ChannelBuffer.Store` | server_com.c:146-153 | an accepted update sets cell `channel` to `value`; every other cell, including the start-code slot 0, keeps its value; a rejected update leaves the whole buffer unchanged |
| `ChannelBuffer.Universe.Apply` | server_com.c:146-149 | reports acceptance exactly when 1 ≤ channel ≤ 512 and 0 ≤ value ≤ 255; the new buffer is `Store` of the old one; the start code stays null (same at server.c:112-118) |
| `ChannelBuffer.StartCodeStaysNull` | server_com.c:146-148 | from a buffer with a null start code, any run of updates leaves slot 0 at the null start code |
| `ChannelBuffer.UntouchedChannelKeepsLevel` | server_com.c:146-148 | a run of updates none of which names a channel leaves that channel's cell as it was |
| `ChannelBuffer.AcceptedIndexInBounds` | server_com.c:146-148 | every update the guard accepts indexes a cell of the 513-slot buffer (start code plus 512 channels) |
| `ChannelBuffer.StoreAsWritten` | server_com.c:146-148 | over the source's 512-cell array: ignored exactly when the guard rejects; out of bounds exactly when the guard accepts a channel ≥ 512; otherwise the value is stored at the channel's cell and every other cell keeps its value |
| `ChannelBuffer.UpdateOverflow` | server_com.c:10-13 | for every valid level, channel 512 passes the guard and its store falls outside the 512-cell array |
| `ChannelBuffer.Universe.Snapshot` | server_com.c:88-91 | the copy has every slot of the buffer at the moment of copying and starts with the null start code (same at server.c:44-47) |
| `Datagram.SpaceEnd` | server_com.c:145 | the white space a `%d` skips ends at the end of the text or at a byte that is not white space |
| `Datagram.SpaceEndIsSpace` | server_com.c:145 | every byte a `%d` skips before its number is white space |
| `Datagram.SpaceEndAt` | server_com.c:145 | the skip stops at the first byte that is not white space and nowhere else |
| `Datagram.DigitEnd` | server_com.c:145 | the digits a `%d` takes end at the end of the text or at a byte that is not a digit |
| `Datagram.DigitEndIsDigits` | server_com.c:145 | every byte a `%d` takes as part of its number is a decimal digit |
| `Datagram.DigitEndAt` | server_com.c:145 | the digit run stops at the first byte that is not a digit and nowhere else |
| `Datagram.ScanInt` | server_com.c:145 | a `%d` fails exactly when no digit follows the white space and optional sign; when it succeeds it consumes at least one digit and stops at the end or at a byte that is not a digit |
| `Datagram.ScanIntReadsText` | server_com.c:145 | the bytes a successful `%d` consumes are white space, an optional sign and digits spelling the number it returns |
| `Datagram.ScanIntOfParts` | server_com.c:145 | a `%d` over white space, an optional `+` or `-` and digits, followed by a byte that is not a digit, returns the signed value of the digits and stops after them |
| `Datagram.ScanIntText` | server_com.c:145 | a `%d` reads any integer text as its number and stops exactly at its end when the next byte does not continue it |
| `Datagram.Parse` | server_com.c:145 | an accepted datagram starts with the literal `{"channel":` |
| `Datagram.ParseAccepts` | server_com.c:145 | `{"channel":`, integer text for c, `,"value":`, integer text for v, then any tail that does not continue the number, is accepted as `(c, v)`; the closing `}` is never checked |
| `Datagram.ParseOnlyAccepts` | server_com.c:145 | every accepted datagram has that layout: `{"channel":`, integer text for the channel, `,"value":`, integer text for the value, and a tail that does not continue the number |
| `Datagram.ParseIff` | server_com.c:145 | the decision accepts `(c, v)` if and only if the datagram has that layout |
| `Datagram.DecimalIsIntText` | server_com.c:145 | white space followed by a number in decimal is integer text for that number |
| `Datagram.ParseReadsNumbers` | server_com.c:145 | `{"channel":` + spaces + channel + `,"value":` + spaces + value + any tail that does not continue the number is accepted with those two numbers |
| `Datagram.ParseCommand` | server_com.c:145 | round trip: the text `{"channel":c,"value":v}` a client sends, followed by anything, parses back to `(c, v)` |
| `Datagram.CString` | server_com.c:142-145 | the string `sscanf` reads is the prefix of the buffer before its first NUL |
| `Listener.Decide` | server_com.c:137-156 | a negative receive count fails; otherwise the datagram is unparsed exactly when `Parse` of its C string fails, applied when the parsed pair passes the range check and rejected when it does not |
| `Listener.TerminatedText` | server_com.c:142 | after storing NUL at index `n`, the C string of the buffer is the C string of the first `n` received bytes |
| `Listener.Terminate` | server_com.c:142 | on the enlarged buffer the NUL store is in bounds for every count `recvfrom` can return, changes only index `n`, and leaves the received text as the C string |
| `Listener.Serve` | server_com.c:135-157 | one pass of the receive loop returns `Decide` of the received bytes; the channel buffer changes by `Store` exactly when the outcome is applied and is otherwise unchanged; the receive buffer gains a NUL at index `n` when the receive succeeded and is untouched when it failed |
| `Listener.TerminateAsWritten` | server_com.c:137-142 | over the source's 1024-byte buffer the NUL store falls outside the array exactly when the count is 1024 |
| `Listener.ReceiveOverflow` | server_com.c:114-142 | a full-size (1024-byte) datagram makes the terminating store overflow the buffer |
| `Listener.CommandDecision` | server_com.c:145-153 | a well-formed command is applied exactly when its numbers pass the range check, and rejected otherwise |
| `Listener.ChannelOverflowDatagram` | server_com.c:145-148 | the datagram `{"channel":512,"value":255}` is applied, and on the 512-cell array its store is out of bounds |
| `Transport.Sent` | server_com.c:76 | a write puts its bytes on the line in ascending index order, each at the speed and framing in force |
| `Transport.SlowZeroIsBreak` | server_com.c:67-71 | a 0x00 character at 9600 baud holds the line low for at least 88 µs whatever the framing |
| `SerialServer.SendDmx` | server_com.c:62-76 | six operations with the frame written last; nothing in the list depends on another operation's result |
| `SerialServer.SendDmxTimeline` | server_com.c:62-76 | on the line: the 0x00 break at 9600 baud, a 100 µs gap, then the frame at 250000 baud, all in the framing the port was opened with |
| `SerialServer.SendsDmxPacketIff` | server_com.c:62-76 | a frame of 1 to 513 slots starting with the null start code goes out as a DMX512 packet carrying it exactly when the port was opened with 8N2 framing |
| `SerialServer.TransmitCycle` | server_com.c:85-95 | one sender iteration issues `send_dmx` of the buffer contents at copy time, then a 25 ms sleep |
| `FtdiServer.SendDmx` | server.c:21-32 | eight operations with the frame written last; nothing in the list depends on another operation's result |
| `FtdiServer.SendDmxTimeline` | server.c:21-32 | whatever the adapter's earlier settings, the line carries the 0x00 break at 9600 baud, a 100 µs gap, then the frame at 250000 baud, all in 8N2 framing |
| `FtdiServer.SendsDmxPacket` | server.c:21-32 | every frame of 1 to 513 slots starting with the null start code goes out as a DMX512 packet carrying exactly that frame |
| `FtdiServer.DeclaredBufferOmitsLastChannel` | server.c:21-32 | the source's 512-cell buffer goes out as a DMX512 packet carrying channels 1–511 in their slots and ending before any slot for channel 512 |
| `FtdiServer.CommandReachesWire` | server.c:108-114 | for an in-range command: the datagram is applied, and the next frame is a DMX512 packet carrying the value in the channel's slot and every other slot unchanged |
| `FtdiServer.TransmitCycle` | server.c:41-51 | one sender iteration issues `send_dmx` of the buffer contents at copy time, then a 25 ms sleep |

## Findings

| source | as written | input that shows it | evidently intended | confidence | as-written member | corrected member |
|---|---|---|---|---|---|---|
| server_com.c:146-148 | the guard admits channel 512, but `dmx_data` has 512 cells (indices 0–511, line 13), so `dmx_data[512] = value` writes past the array; the same holds at server.c:112-114 with server.c:12 | the datagram `{"channel":512,"value":255}` | slot 0 for the start code plus one slot per channel 1–512 (513 cells), with the whole buffer sent | high, not executed | `Listener.ChannelOverflowDatagram` | `ChannelBuffer.Universe.Apply` |
| server_com.c:137-142 | `recvfrom(..., 1024)` into `char buffer[1024]` may return 1024, and `buffer[n] = '\0'` then writes `buffer[1024]`; the same holds at server.c:103-108 | any 1024-byte datagram | a buffer with room for the largest datagram plus its terminator (1025 bytes) | high, not executed | `Listener.ReceiveOverflow` | `Listener.Terminate` |

## Left out

- Sockets: `socket`, `bind` and `recvfrom` are network I/O. `Listener.Serve` takes the bytes and the count that `recvfrom` produced.
- Threads and the mutex: the update and the snapshot are modelled as sequential, atomic steps. Interleavings and per-cell atomicity under concurrency are not modelled.
- The `while (1)` loops: one iteration of each is modelled (`Listener.Serve`, `SerialServer.TransmitCycle`, `FtdiServer.TransmitCycle`).
- Real time: `usleep` becomes a `Delay` operation. `Transport.Timeline` treats every write as going out at once and in order. It does not capture UART queueing, so a speed change that takes effect while the break byte is still queued is not modelled.
- `open_serial_port` and the `ftdi_new`/`ftdi_usb_open`/`ftdi_usb_close`/`ftdi_free` calls: these configure and open the device. They are not modelled. The serial port's framing is the starting `Port` given to `SerialServer.SendDmxTimeline`.
- Flush and purge: `FlushOutput` and `Purge` leave nothing on the line. In this model no output is ever pending for them to discard.
- Results of `write`, `tcsetattr`, `tcflush` and `ftdi_*`: the source ignores all of them, so the operations have no results.
- Logging: `printf`, `fprintf` and `perror` are not modelled.
- `Datagram.ScanInt`: a number outside the range of C's `int` is undefined behaviour for `%d`. The model keeps its exact value, so the range check rejects it.
- `ChannelBuffer.Universe.Snapshot`: the copy is returned as a value, not as a separate local array.
- The source's 512-cell buffer appears only in `ChannelBuffer.StoreAsWritten`. The rest of the model uses the corrected 513-slot buffer, so the frames it sends are 513 bytes long, where the source writes 512. `FtdiServer.DeclaredBufferOmitsLastChannel` states what the source's 512-byte frame carries.
