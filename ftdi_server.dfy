/**
 * The sender of server.c: an FTDI USB-to-serial adapter driven through
 * libftdi.
 */
module FtdiServer {
  import opened Bytes
  import opened ChannelBuffer
  import opened Transport
  import opened Datagram
  import opened Listener

  const BreakBaud: nat := 9600
  const MarkAfterBreakMicros: nat := 100
  const RefreshMicros: nat := 25000

  /** `send_dmx`: the operations issued for one frame, none depending on the result of another. */
  function SendDmx(frame: seq<Byte>): (ops: seq<Op>)
    ensures |ops| == 8 && ops[7] == Write(frame)
  {
    [ SetLine(DmxLine),
      SetBaud(DmxBaud),
      Purge,
      SetBaud(BreakBaud),
      Write([0]),
      Delay(MarkAfterBreakMicros),
      SetBaud(DmxBaud),
      Write(frame) ]
  }

  /**
   * On the line, whatever the adapter's earlier settings: the 0x00 break
   * character at 9600 baud, the 100 microsecond gap, then the frame at
   * 250000 baud, all with 8 data bits, 2 stop bits and no parity.
   */
  lemma {:induction false} SendDmxTimeline(p: Port, frame: seq<Byte>)
    ensures Timeline(p, SendDmx(frame))
         == [Tx(BreakBaud, DmxLine, 0), Idle(MarkAfterBreakMicros)] + Sent(Port(DmxBaud, DmxLine), frame)
  {
    var ops := SendDmx(frame);
    var fast := Port(DmxBaud, DmxLine);
    var slow := Port(BreakBaud, DmxLine);
    TimelineCons(fast, Write(frame), []);
    assert [Write(frame)] + [] == ops[7..];
    TimelineCons(slow, SetBaud(DmxBaud), ops[7..]);
    assert ops[6..] == [SetBaud(DmxBaud)] + ops[7..];
    TimelineCons(slow, Delay(MarkAfterBreakMicros), ops[6..]);
    assert ops[5..] == [Delay(MarkAfterBreakMicros)] + ops[6..];
    TimelineCons(slow, Write([0]), ops[5..]);
    assert ops[4..] == [Write([0])] + ops[5..];
    TimelineCons(fast, SetBaud(BreakBaud), ops[4..]);
    assert ops[3..] == [SetBaud(BreakBaud)] + ops[4..];
    TimelineCons(fast, Purge, ops[3..]);
    assert ops[2..] == [Purge] + ops[3..];
    TimelineCons(p.(line := DmxLine), SetBaud(DmxBaud), ops[2..]);
    assert ops[1..] == [SetBaud(DmxBaud)] + ops[2..];
    TimelineCons(p, SetLine(DmxLine), ops[1..]);
    assert ops == [SetLine(DmxLine)] + ops[1..];
    assert Sent(slow, [0]) == [Tx(BreakBaud, DmxLine, 0)];
  }

  /**
   * Every frame of up to 513 slots that starts with the null start code goes
   * out as a DMX512 packet carrying it.
   */
  lemma SendsDmxPacket(p: Port, frame: seq<Byte>)
    requires 1 <= |frame| <= Slots && frame[0] == NullStartCode
    ensures IsDmxPacket(Timeline(p, SendDmx(frame)), frame)
  {
    SendDmxTimeline(p, frame);
    SlowZeroIsBreak(DmxLine);
  }

  /**
   * The 512 cells the source declares, sent as they are: the start code in
   * cell 0, channels 1 to 511 in their slots, and no slot at all for
   * channel 512, so a level written for it never reaches the line.
   */
  lemma DeclaredBufferOmitsLastChannel(p: Port, cells: seq<Byte>)
    requires |cells| == Channels && cells[0] == NullStartCode
    ensures var t := Timeline(p, SendDmx(cells));
            && IsDmxPacket(t, cells)
            && (forall c :: 1 <= c < Channels ==> t[2 + c] == Tx(DmxBaud, DmxLine, cells[c]))
            && 2 + Channels == |t|
  {
    SendsDmxPacket(p, cells);
  }

  /**
   * From datagram to wire: a command for an in-range channel and value is
   * applied, and the next frame carries the value in that channel's slot and
   * every other slot as it was.
   */
  lemma CommandReachesWire(p: Port, slots: seq<Byte>, channel: int, value: int)
    requires |slots| == Slots && slots[0] == NullStartCode
    requires Accepts(channel, value)
    ensures Decide(|Command(channel, value)|, Command(channel, value)) == Applied(channel, value)
    ensures var t := Timeline(p, SendDmx(Store(slots, channel, value)));
            && IsDmxPacket(t, Store(slots, channel, value))
            && t[2 + channel] == Tx(DmxBaud, DmxLine, value)
            && forall i :: 0 <= i < Slots && i != channel ==> t[2 + i] == Tx(DmxBaud, DmxLine, slots[i])
  {
    CommandDecision(channel, value);
    SendsDmxPacket(p, Store(slots, channel, value));
  }

  /**
   * One iteration of `send_dmx_thread`: copy the buffer, send it, sleep
   * 25 ms. With `SendsDmxPacket`, the copy goes out as a DMX512 packet.
   */
  method TransmitCycle(universe: Universe) returns (ops: seq<Op>)
    requires universe.Valid()
    ensures ops == SendDmx(universe.Contents()) + [Delay(RefreshMicros)]
  {
    var frame := universe.Snapshot();
    assert frame == universe.Contents();
    ops := SendDmx(frame) + [Delay(RefreshMicros)];
  }
}
