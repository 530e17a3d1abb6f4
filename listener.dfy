/**
 * One pass of the receive loop in `main`: the result of `recvfrom` into the
 * datagram buffer, NUL-termination, the accept decision and the update of the
 * channel buffer.
 *
 * The source receives up to 1024 bytes into a 1024-byte buffer and then
 * stores the terminating NUL at index `n`, one past the end when a full-size
 * datagram arrives. `TerminateAsWritten` models that as written; the buffer
 * used by `Serve` has room for the largest datagram plus its terminator.
 */
module Listener {
  import opened Wrappers
  import opened Bytes
  import opened Datagram
  import opened ChannelBuffer

  /** The length limit passed to `recvfrom`: the largest datagram kept. */
  const DatagramCapacity: nat := 1024

  /** The datagram buffer with room for the terminating NUL. */
  const ReceiveBufferLength: nat := DatagramCapacity + 1

  /** What one pass of the receive loop did. */
  datatype Outcome =
    | ReceiveFailed                           // `recvfrom` returned a negative count
    | Unparsed                                // the text does not match the command format
    | Rejected(channel: int, value: int)      // parsed, but outside the accepted ranges
    | Applied(channel: int, value: int)       // parsed and stored

  /**
   * The decision for a datagram of `n` bytes (`n < 0` is a failed receive),
   * made on the C string `sscanf` sees.
   */
  function Decide(n: int, datagram: seq<Byte>): (o: Outcome)
    ensures o.ReceiveFailed? <==> n < 0
    ensures o.Applied? ==> Accepts(o.channel, o.value) && Parse(CString(datagram)) == Some((o.channel, o.value))
    ensures o.Rejected? ==> !Accepts(o.channel, o.value) && Parse(CString(datagram)) == Some((o.channel, o.value))
    ensures o.Unparsed? <==> n >= 0 && Parse(CString(datagram)).None?
  {
    if n < 0 then ReceiveFailed
    else
      match Parse(CString(datagram))
      case None => Unparsed
      case Some((channel, value)) =>
        if Accepts(channel, value) then Applied(channel, value) else Rejected(channel, value)
  }

  /**
   * After the NUL is stored at index `n`, the C string in the buffer is the
   * received text up to its first NUL: nothing left over from an earlier
   * datagram is read.
   */
  lemma {:induction false} TerminatedText(buffer: seq<Byte>, n: nat)
    requires n < |buffer|
    ensures CString(buffer[n := 0]) == CString(buffer[..n])
    decreases n
  {
    if n > 0 && buffer[0] != 0 {
      TerminatedText(buffer[1..], n - 1);
      assert buffer[n := 0][1..] == buffer[1..][n - 1 := 0];
      assert buffer[..n][1..] == buffer[1..][..n - 1];
    }
  }

  /** `buffer[n] = '\0'` on the enlarged buffer. */
  method Terminate(buffer: array<Byte>, n: int)
    requires buffer.Length == ReceiveBufferLength
    requires 0 <= n <= DatagramCapacity
    modifies buffer
    ensures buffer[..] == old(buffer[..])[n := 0]
    ensures CString(buffer[..]) == CString(old(buffer[..n]))
  {
    buffer[n] := 0;
    TerminatedText(old(buffer[..]), n);
  }

  /**
   * One pass of the receive loop, given what `recvfrom` stored in `buffer`
   * and returned in `n` (never more than the length limit it was given).
   */
  method Serve(universe: Universe, buffer: array<Byte>, n: int) returns (o: Outcome)
    requires universe.Valid()
    requires buffer.Length == ReceiveBufferLength
    requires n <= DatagramCapacity
    requires buffer != universe.slots
    modifies universe.slots, buffer
    ensures universe.Valid()
    ensures o == Decide(n, old(buffer[..if n < 0 then 0 else n]))
    ensures universe.Contents()
         == if o.Applied? then Store(old(universe.Contents()), o.channel, o.value) else old(universe.Contents())
    ensures n >= 0 ==> buffer[..] == old(buffer[..])[n := 0]
    ensures n < 0 ==> buffer[..] == old(buffer[..])
  {
    if n < 0 {
      return ReceiveFailed;
    }
    ghost var datagram := buffer[..n];
    Terminate(buffer, n);
    var text := CString(buffer[..]);
    assert text == CString(datagram);
    match Parse(text)
    case None =>
      o := Unparsed;
    case Some((channel, value)) =>
      var applied := universe.Apply(channel, value);
      o := if applied then Applied(channel, value) else Rejected(channel, value);
  }

  // ---------------------------------------------------------------------
  // The source as written.

  /** The source's datagram buffer: `char buffer[1024]`. */
  const SourceBufferLength: nat := 1024

  /**
   * `buffer[n] = '\0'` on the 1024-byte buffer, for any count `recvfrom` can
   * return: None when the store falls outside the array.
   */
  function TerminateAsWritten(buffer: seq<Byte>, n: nat): (r: Option<seq<Byte>>)
    requires |buffer| == SourceBufferLength && n <= DatagramCapacity
    ensures r.None? <==> n == SourceBufferLength
    ensures r.Some? ==> r.value == buffer[n := 0]
  {
    if n < |buffer| then Some(buffer[n := 0]) else None
  }

  /** A full-size datagram makes the terminating store overflow the buffer. */
  lemma ReceiveOverflow(buffer: seq<Byte>)
    requires |buffer| == SourceBufferLength
    ensures TerminateAsWritten(buffer, DatagramCapacity).None?
  {
  }

  /**
   * A well-formed command reaches the range check with the numbers it spells
   * and is applied exactly when they are in range.
   */
  lemma CommandDecision(channel: int, value: int)
    ensures Decide(|Command(channel, value)|, Command(channel, value))
         == if Accepts(channel, value) then Applied(channel, value) else Rejected(channel, value)
  {
    var text := Command(channel, value);
    CommandHasNoNul(channel, value);
    CStringOfText(text);
    ParseCommand(channel, value, []);
    assert text + [] == text;
  }

  lemma CommandHasNoNul(channel: int, value: int)
    ensures forall i :: 0 <= i < |Command(channel, value)| ==> Command(channel, value)[i] != 0
  {
    var a := ChannelKey + Decimal(channel);
    var b := a + ValueKey;
    var c := b + Decimal(value);
    assert forall i :: 0 <= i < |a| ==> a[i] != 0;
    assert forall i :: 0 <= i < |b| ==> b[i] != 0;
    assert forall i :: 0 <= i < |c| ==> c[i] != 0;
  }

  /**
   * The command `{"channel":512,"value":255}` passes the receive loop's checks
   * and, on the source's 512-cell array, its store overflows the array.
   */
  lemma ChannelOverflowDatagram()
    ensures Decide(|Command(512, 255)|, Command(512, 255)) == Applied(512, 255)
    ensures StoreAsWritten(Zeros(Channels), 512, 255) == OutOfBounds
  {
    CommandDecision(512, 255);
  }

  /** A text without NUL bytes is its own C string. */
  lemma CStringOfText(text: seq<Byte>)
    requires forall i :: 0 <= i < |text| ==> text[i] != 0
    ensures CString(text) == text
  {
  }
}
