/**
 * The sender of server_com.c: a termios serial device.
 *
 * As written, `send_dmx` passes `tty`, a local of `open_serial_port`, to the
 * speed changes, so the file does not compile. The evident intent is to
 * re-apply the port's own settings with only the speed changed, so each speed
 * change is a `SetBaud` that leaves the framing chosen when the port was
 * opened.
 */
module SerialServer {
  import opened Bytes
  import opened ChannelBuffer
  import opened Transport

  const BreakBaud: nat := 9600
  const MarkAfterBreakMicros: nat := 100
  const RefreshMicros: nat := 25000

  /** `send_dmx`: the operations issued for one frame, none depending on the result of another. */
  function SendDmx(frame: seq<Byte>): (ops: seq<Op>)
    ensures |ops| == 6 && ops[5] == Write(frame)
  {
    [ FlushOutput,
      SetBaud(BreakBaud),
      Write([0]),
      Delay(MarkAfterBreakMicros),
      SetBaud(DmxBaud),
      Write(frame) ]
  }

  /**
   * On the line: the 0x00 break character at 9600 baud, the 100 microsecond
   * gap, then the frame at 250000 baud, all in the framing the port already
   * had. The port's speed is left at 250000 baud.
   */
  lemma {:induction false} SendDmxTimeline(p: Port, frame: seq<Byte>)
    ensures Timeline(p, SendDmx(frame))
         == [Tx(BreakBaud, p.line, 0), Idle(MarkAfterBreakMicros)] + Sent(Port(DmxBaud, p.line), frame)
  {
    var ops := SendDmx(frame);
    var fast := Port(DmxBaud, p.line);
    var slow := Port(BreakBaud, p.line);
    TimelineCons(fast, Write(frame), []);
    assert [Write(frame)] + [] == ops[5..];
    TimelineCons(slow, SetBaud(DmxBaud), ops[5..]);
    assert ops[4..] == [SetBaud(DmxBaud)] + ops[5..];
    TimelineCons(slow, Delay(MarkAfterBreakMicros), ops[4..]);
    assert ops[3..] == [Delay(MarkAfterBreakMicros)] + ops[4..];
    TimelineCons(slow, Write([0]), ops[3..]);
    assert ops[2..] == [Write([0])] + ops[3..];
    TimelineCons(p, SetBaud(BreakBaud), ops[2..]);
    assert ops[1..] == [SetBaud(BreakBaud)] + ops[2..];
    TimelineCons(p, FlushOutput, ops[1..]);
    assert ops == [FlushOutput] + ops[1..];
    assert Sent(slow, [0]) == [Tx(BreakBaud, p.line, 0)];
  }

  /**
   * A frame of up to 513 slots that starts with the null start code goes out
   * as a DMX512 packet exactly when the port was opened with DMX framing
   * (8 data bits, 2 stop bits, no parity).
   */
  lemma SendsDmxPacketIff(p: Port, frame: seq<Byte>)
    requires 1 <= |frame| <= Slots && frame[0] == NullStartCode
    ensures IsDmxPacket(Timeline(p, SendDmx(frame)), frame) <==> p.line == DmxLine
  {
    SendDmxTimeline(p, frame);
    SlowZeroIsBreak(p.line);
    var t := Timeline(p, SendDmx(frame));
    if IsDmxPacket(t, frame) {
      assert t[2] == Tx(DmxBaud, DmxLine, frame[0]);
    }
  }

  /**
   * One iteration of `send_dmx_thread`: copy the buffer, send it, sleep 25 ms.
   */
  method TransmitCycle(universe: Universe) returns (ops: seq<Op>)
    requires universe.Valid()
    ensures ops == SendDmx(universe.Contents()) + [Delay(RefreshMicros)]
  {
    var frame := universe.Snapshot();
    assert frame == universe.Contents();
    ops := SendDmx(frame) + [Delay(RefreshMicros)];
  }
}
