/**
 * The one-universe DMX512 channel buffer (`dmx_data` in server_com.c and
 * server.c), its zero-fill, the validating update path of the receive loop and
 * the copy the sender thread takes before every frame.
 *
 * Slot 0 of the buffer is the DMX512 start code and slot `c` holds channel `c`.
 * The source declares the buffer with DMX_CHANNELS (512) cells while its update
 * guard admits channel 512; the defect is modelled as written by
 * `StoreAsWritten`, and the buffer used everywhere else has the 513 slots the
 * guard and the start-code convention call for.
 */
module ChannelBuffer {
  import opened Bytes

  /** DMX_CHANNELS: the number of addressable channels of one universe. */
  const Channels: nat := 512

  /** Start code plus one slot per channel. */
  const Slots: nat := Channels + 1

  /** The null start code of a DMX512 packet carrying dimmer levels. */
  const NullStartCode: Byte := 0

  /** The largest intensity a channel can hold. */
  const MaxLevel: int := 255

  /** A buffer of `n` cells, every one 0. */
  function Zeros(n: nat): (r: seq<Byte>)
    ensures |r| == n
    ensures forall i :: 0 <= i < n ==> r[i] == 0
  {
    seq(n, i => 0)
  }

  /** The range check the receive loop applies to a parsed update. */
  predicate Accepts(channel: int, value: int)
  {
    1 <= channel <= Channels && 0 <= value <= MaxLevel
  }

  /**
   * The buffer after the validate-and-set step: an accepted update replaces
   * exactly the cell of its channel, a rejected one changes nothing.
   */
  function Store(slots: seq<Byte>, channel: int, value: int): (r: seq<Byte>)
    requires |slots| == Slots
    ensures |r| == Slots
    ensures r[0] == slots[0]
    ensures forall i :: 0 <= i < Slots && i != channel ==> r[i] == slots[i]
    ensures Accepts(channel, value) ==> r[channel] == value
    ensures !Accepts(channel, value) ==> r == slots
  {
    if Accepts(channel, value) then slots[channel := value] else slots
  }

  /** The buffer after a run of updates, applied in arrival order. */
  function StoreAll(slots: seq<Byte>, updates: seq<(int, int)>): (r: seq<Byte>)
    requires |slots| == Slots
    ensures |r| == Slots
    decreases |updates|
  {
    if updates == [] then slots
    else StoreAll(Store(slots, updates[0].0, updates[0].1), updates[1..])
  }

  /**
   * No update ever reaches slot 0: from the zero-filled buffer, whatever
   * updates arrive, the start code stays null.
   */
  lemma {:induction false} StartCodeStaysNull(slots: seq<Byte>, updates: seq<(int, int)>)
    requires |slots| == Slots && slots[0] == NullStartCode
    ensures StoreAll(slots, updates)[0] == NullStartCode
    decreases |updates|
  {
    if updates != [] {
      StartCodeStaysNull(Store(slots, updates[0].0, updates[0].1), updates[1..]);
    }
  }

  /**
   * The last accepted update of a channel decides its cell: a run of updates
   * of which none names `channel` leaves that cell as it was.
   */
  lemma {:induction false} UntouchedChannelKeepsLevel(slots: seq<Byte>, updates: seq<(int, int)>, channel: int)
    requires |slots| == Slots && 0 <= channel < Slots
    requires forall k :: 0 <= k < |updates| ==> updates[k].0 != channel
    ensures StoreAll(slots, updates)[channel] == slots[channel]
    decreases |updates|
  {
    if updates != [] {
      UntouchedChannelKeepsLevel(Store(slots, updates[0].0, updates[0].1), updates[1..], channel);
    }
  }

  /** Every update the guard accepts indexes a cell of the 513-slot buffer. */
  lemma AcceptedIndexInBounds(channel: int, value: int)
    requires Accepts(channel, value)
    ensures 0 < channel < Slots
  {
  }

  // ---------------------------------------------------------------------
  // The update path as the source writes it, over a buffer of DMX_CHANNELS
  // cells.

  /** What the C assignment `dmx_data[channel] = value` does. */
  datatype WriteResult = Written(slots: seq<Byte>) | Ignored | OutOfBounds

  /**
   * The validate-and-set step over the source's 512-cell array: the guard
   * admits channel 512, whose store lands one past the end of the array.
   */
  function StoreAsWritten(cells: seq<Byte>, channel: int, value: int): (r: WriteResult)
    requires |cells| == Channels
    ensures r.Ignored? <==> !Accepts(channel, value)
    ensures r.OutOfBounds? <==> Accepts(channel, value) && channel >= |cells|
    ensures r.Written? ==> |r.slots| == Channels && r.slots[channel] == value
    ensures r.Written? ==> forall i :: 0 <= i < Channels && i != channel ==> r.slots[i] == cells[i]
  {
    if !Accepts(channel, value) then Ignored
    else if channel < |cells| then Written(cells[channel := value])
    else OutOfBounds
  }

  /** The update `(512, v)` passes the guard and writes past the array. */
  lemma UpdateOverflow(value: int)
    requires 0 <= value <= MaxLevel
    ensures Accepts(Channels, value)
    ensures StoreAsWritten(Zeros(Channels), Channels, value) == OutOfBounds
  {
  }

  // ---------------------------------------------------------------------
  // The buffer itself, updated in place.

  class Universe {
    var slots: array<Byte>

    /** The buffer has its full size and carries the null start code. */
    ghost predicate Valid()
      reads this, slots
    {
      slots.Length == Slots && slots[0] == NullStartCode
    }

    ghost function Contents(): (s: seq<Byte>)
      reads this, slots
      requires Valid()
      ensures |s| == Slots && s[0] == NullStartCode
    {
      slots[..]
    }

    /** Allocates the buffer and zero-fills it, as `main` does at start-up. */
    constructor ()
      ensures Valid() && fresh(slots)
      ensures Contents() == Zeros(Slots)
    {
      slots := new Byte[Slots];
      new;
      Initialize();
    }

    /** `initialize_dmx_data`: writes 0 into every cell, lowest index first. */
    method Initialize()
      requires slots.Length == Slots
      modifies slots
      ensures Valid()
      ensures slots[..] == Zeros(Slots)
    {
      var i := 0;
      while i < slots.Length
        invariant 0 <= i <= slots.Length
        invariant forall k :: 0 <= k < i ==> slots[k] == 0
      {
        slots[i] := 0;
        i := i + 1;
      }
    }

    /**
     * The validate-and-set block of the receive loop: stores `value` at
     * `channel` when the range check passes and reports whether it did.
     */
    method Apply(channel: int, value: int) returns (applied: bool)
      requires Valid()
      modifies slots
      ensures Valid()
      ensures applied <==> Accepts(channel, value)
      ensures Contents() == Store(old(Contents()), channel, value)
    {
      applied := 1 <= channel <= Channels && 0 <= value <= MaxLevel;
      if applied {
        slots[channel] := value;
      }
    }

    /** The sender thread's copy of the whole buffer, taken in one step. */
    method Snapshot() returns (frame: seq<Byte>)
      requires Valid()
      ensures |frame| == Slots && frame[0] == NullStartCode
      ensures forall i :: 0 <= i < Slots ==> frame[i] == slots[i]
    {
      frame := slots[..];
    }
  }
}
