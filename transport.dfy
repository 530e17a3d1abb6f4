/**
 * The operations the two senders issue on their transport (a termios serial
 * device or an FTDI USB adapter), and what those operations put on the DMX
 * line: characters, each sent at the speed and framing in force when it was
 * written, and idle gaps.
 *
 * A packet on the line is judged against the DMX512 timing limits a receiver
 * must accept (a break of at least 88 microseconds, a mark-after-break of at
 * least 8 microseconds, slots at 250 kbit/s with 8 data bits, 2 stop bits and
 * no parity, a null start code in slot 0).
 */
module Transport {
  import opened Bytes
  import opened ChannelBuffer

  datatype Parity = NoParity | OddParity | EvenParity

  /** Character framing: data bits, stop bits, parity. */
  datatype Line = Line(dataBits: nat, stopBits: nat, parity: Parity)

  datatype Op =
    | SetLine(line: Line)      // ftdi_set_line_property
    | SetBaud(baud: nat)       // ftdi_set_baudrate; cfset[io]speed + tcsetattr
    | FlushOutput              // tcflush(fd, TCOFLUSH)
    | Purge                    // ftdi_usb_purge_buffers
    | Write(bytes: seq<Byte>)  // write; ftdi_write_data
    | Delay(micros: nat)       // usleep

  /** The settings of the transport between operations. */
  datatype Port = Port(baud: nat, line: Line)

  /** What appears on the DMX line. */
  datatype Event =
    | Tx(baud: nat, line: Line, byte: Byte)
    | Idle(micros: nat)

  const DmxBaud: nat := 250000
  const DmxLine: Line := Line(8, 2, NoParity)
  const MinBreakMicros: nat := 88
  const MinMarkAfterBreakMicros: nat := 8

  function Step(p: Port, op: Op): (q: Port)
  {
    match op
    case SetLine(line) => p.(line := line)
    case SetBaud(baud) => p.(baud := baud)
    case _ => p
  }

  /** The characters of `bytes`, in order, at the port's settings. */
  function Sent(p: Port, bytes: seq<Byte>): (t: seq<Event>)
    ensures |t| == |bytes|
    ensures forall i :: 0 <= i < |bytes| ==> t[i] == Tx(p.baud, p.line, bytes[i])
  {
    seq(|bytes|, i requires 0 <= i < |bytes| => Tx(p.baud, p.line, bytes[i]))
  }

  function Effect(p: Port, op: Op): (t: seq<Event>)
  {
    match op
    case Write(bytes) => Sent(p, bytes)
    case Delay(micros) => [Idle(micros)]
    case _ => []
  }

  /** The line activity produced by running `ops` from settings `p`. */
  function Timeline(p: Port, ops: seq<Op>): (t: seq<Event>)
    decreases |ops|
  {
    if ops == [] then [] else Effect(p, ops[0]) + Timeline(Step(p, ops[0]), ops[1..])
  }

  lemma TimelineCons(p: Port, op: Op, ops: seq<Op>)
    ensures Timeline(p, [op] + ops) == Effect(p, op) + Timeline(Step(p, op), ops)
  {
    assert ([op] + ops)[1..] == ops;
  }

  /**
   * How long the line is held low by a 0x00 character: the start bit, the
   * data bits and, under even parity, the parity bit.
   */
  function ZeroLowBits(line: Line): (bits: nat)
    ensures bits >= 1 + line.dataBits
  {
    1 + line.dataBits + (if line.parity == EvenParity then 1 else 0)
  }

  /** A 0x00 character slow enough to hold the line low for a whole break. */
  predicate IsBreak(e: Event)
  {
    e.Tx? && e.byte == 0 && 0 < e.baud && ZeroLowBits(e.line) * 1000000 >= MinBreakMicros * e.baud
  }

  /**
   * A DMX512 packet carrying `slots`: a break, an idle mark-after-break, then
   * the slots at DMX speed and framing, starting with the null start code.
   */
  predicate IsDmxPacket(t: seq<Event>, slots: seq<Byte>)
  {
    && 1 <= |slots| <= Slots
    && slots[0] == NullStartCode
    && |t| == 2 + |slots|
    && IsBreak(t[0])
    && t[1].Idle? && t[1].micros >= MinMarkAfterBreakMicros
    && forall i :: 0 <= i < |slots| ==> t[2 + i] == Tx(DmxBaud, DmxLine, slots[i])
  }

  /** Any framing gives a break when a 0x00 is sent at 9600 baud. */
  lemma SlowZeroIsBreak(line: Line)
    ensures IsBreak(Tx(9600, line, 0))
  {
  }
}
