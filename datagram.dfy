/**
 * The accept decision of the receive loop:
 * `sscanf(buffer, "{\"channel\":%d,\"value\":%d}", &channel, &value) == 2`
 * over the bytes of a received datagram.
 *
 * Each `%d` skips leading white space, takes an optional sign and then the
 * longest run of decimal digits (at least one). Literal characters of the
 * format must match byte for byte. The decision is "two conversions", so the
 * closing `}` and anything after the second number are never looked at.
 */
module Datagram {
  import opened Wrappers
  import opened Bytes

  /** `{"channel":` in ASCII. */
  const ChannelKey: seq<Byte> := [0x7B, 0x22, 0x63, 0x68, 0x61, 0x6E, 0x6E, 0x65, 0x6C, 0x22, 0x3A]

  /** `,"value":` in ASCII. */
  const ValueKey: seq<Byte> := [0x2C, 0x22, 0x76, 0x61, 0x6C, 0x75, 0x65, 0x22, 0x3A]

  const CloseBrace: Byte := 0x7D
  const Minus: Byte := 0x2D
  const Plus: Byte := 0x2B
  const Zero: Byte := 0x30

  /** The bytes C's `isspace` accepts: space, tab, newline, vertical tab, form feed, carriage return. */
  predicate IsSpace(b: Byte)
  {
    b == 0x20 || (0x09 <= b <= 0x0D)
  }

  predicate IsDigit(b: Byte)
  {
    Zero <= b <= 0x39
  }

  predicate IsSign(b: Byte)
  {
    b == Minus || b == Plus
  }

  predicate AllSpace(w: seq<Byte>)
  {
    forall i :: 0 <= i < |w| ==> IsSpace(w[i])
  }

  predicate AllDigits(d: seq<Byte>)
  {
    forall i :: 0 <= i < |d| ==> IsDigit(d[i])
  }

  function DigitValue(b: Byte): (d: nat)
    requires IsDigit(b)
    ensures d < 10
  {
    b - Zero
  }

  function DigitByte(d: nat): (b: Byte)
    requires d < 10
    ensures IsDigit(b) && DigitValue(b) == d
  {
    Zero + d
  }

  /** The number a run of decimal digits spells, most significant first. */
  function ValueOf(ds: seq<Byte>): (n: nat)
    requires AllDigits(ds)
    decreases |ds|
  {
    if ds == [] then 0 else ValueOf(ds[..|ds| - 1]) * 10 + DigitValue(ds[|ds| - 1])
  }

  // ---------------------------------------------------------------------
  // The text a `%d` accepts, as a grammar.

  /** No sign, or a single `+` or `-`. */
  predicate IsSignPart(sg: seq<Byte>)
  {
    sg == [] || (|sg| == 1 && IsSign(sg[0]))
  }

  /** The number an optional sign `sg` followed by the digits `ds` spells. */
  function Signed(sg: seq<Byte>, ds: seq<Byte>): (n: int)
    requires AllDigits(ds)
  {
    if sg == [Minus] then -(ValueOf(ds) as int) else ValueOf(ds)
  }

  /** Text a `%d` reads as `n`: white space, an optional sign, at least one digit. */
  ghost predicate IsIntText(a: seq<Byte>, n: int)
  {
    exists ws, sg, ds :: a == ws + sg + ds && AllSpace(ws) && IsSignPart(sg)
                         && |ds| > 0 && AllDigits(ds) && n == Signed(sg, ds)
  }

  /** The layout the format string asks for, with integer texts `a` and `b`. */
  function Fields(a: seq<Byte>, b: seq<Byte>, tail: seq<Byte>): (s: seq<Byte>)
    ensures |s| == |ChannelKey| + |a| + |ValueKey| + |b| + |tail|
  {
    ChannelKey + a + ValueKey + b + tail
  }

  // ---------------------------------------------------------------------
  // The scanner, which works on positions within the text.

  /** The end of the white space that starts at position `i` of `s`. */
  function SpaceEnd(s: seq<Byte>, i: nat): (k: nat)
    requires i <= |s|
    ensures i <= k <= |s|
    ensures k == |s| || !IsSpace(s[k])
    decreases |s| - i
  {
    if i < |s| && IsSpace(s[i]) then SpaceEnd(s, i + 1) else i
  }

  /** The end of the run of digits that starts at position `i` of `s`. */
  function DigitEnd(s: seq<Byte>, i: nat): (k: nat)
    requires i <= |s|
    ensures i <= k <= |s|
    ensures k == |s| || !IsDigit(s[k])
    decreases |s| - i
  {
    if i < |s| && IsDigit(s[i]) then DigitEnd(s, i + 1) else i
  }

  /** Every byte `SpaceEnd` skips is white space. */
  lemma {:induction false} SpaceEndIsSpace(s: seq<Byte>, i: nat)
    requires i <= |s|
    ensures forall k :: i <= k < SpaceEnd(s, i) ==> IsSpace(s[k])
    decreases |s| - i
  {
    if i < |s| && IsSpace(s[i]) {
      SpaceEndIsSpace(s, i + 1);
    }
  }

  /** Every byte `DigitEnd` passes over is a digit. */
  lemma {:induction false} DigitEndIsDigits(s: seq<Byte>, i: nat)
    requires i <= |s|
    ensures forall k :: i <= k < DigitEnd(s, i) ==> IsDigit(s[k])
    decreases |s| - i
  {
    if i < |s| && IsDigit(s[i]) {
      DigitEndIsDigits(s, i + 1);
    }
  }

  /** `SpaceEnd` stops exactly at the first byte that is not white space. */
  lemma {:induction false} SpaceEndAt(s: seq<Byte>, i: nat, e: nat)
    requires i <= e <= |s|
    requires forall k :: i <= k < e ==> IsSpace(s[k])
    requires e == |s| || !IsSpace(s[e])
    ensures SpaceEnd(s, i) == e
    decreases e - i
  {
    if i < e {
      SpaceEndAt(s, i + 1, e);
    }
  }

  /** `DigitEnd` stops exactly at the first byte that is not a digit. */
  lemma {:induction false} DigitEndAt(s: seq<Byte>, i: nat, e: nat)
    requires i <= e <= |s|
    requires forall k :: i <= k < e ==> IsDigit(s[k])
    requires e == |s| || !IsDigit(s[e])
    ensures DigitEnd(s, i) == e
    decreases e - i
  {
    if i < e {
      DigitEndAt(s, i + 1, e);
    }
  }

  /** Where the digits of a `%d` start: after white space and an optional sign. */
  function DigitsStart(s: seq<Byte>): (j: nat)
    ensures j <= |s|
  {
    var w := SpaceEnd(s, 0);
    if w < |s| && IsSign(s[w]) then w + 1 else w
  }

  /**
   * One `%d` conversion: the number read and where it stopped, or None when
   * no digit follows the white space and sign. What it reads is stated by
   * `ScanIntReadsText` and `ScanIntText`.
   */
  function ScanInt(s: seq<Byte>): (r: Option<(int, nat)>)
    ensures r.None? <==> DigitsStart(s) == |s| || !IsDigit(s[DigitsStart(s)])
    ensures r.Some? ==> DigitsStart(s) < r.value.1 <= |s|
    ensures r.Some? ==> r.value.1 == |s| || !IsDigit(s[r.value.1])
  {
    var j := DigitsStart(s);
    var e := DigitEnd(s, j);
    if e == j then None
    else
      DigitEndIsDigits(s, j);
      var w := SpaceEnd(s, 0);
      var magnitude := ValueOf(s[j..e]);
      Some((if j > w && s[w] == Minus then -(magnitude as int) else magnitude, e))
  }

  /** The bytes a successful `%d` consumes are integer text for the number it returns. */
  lemma ScanIntReadsText(s: seq<Byte>)
    requires ScanInt(s).Some?
    ensures IsIntText(s[..ScanInt(s).value.1], ScanInt(s).value.0)
  {
    var w, j := SpaceEnd(s, 0), DigitsStart(s);
    var e, n := ScanInt(s).value.1, ScanInt(s).value.0;
    var ws, sg, ds := s[..w], s[w..j], s[j..e];
    SpaceEndIsSpace(s, 0);
    DigitEndIsDigits(s, j);
    assert AllSpace(ws) && AllDigits(ds);
    assert IsSignPart(sg) && (sg == [Minus] <==> j > w && s[w] == Minus) by {
      if j > w { assert sg == [s[w]]; } else { assert sg == []; }
    }
    assert s[..e] == ws + sg + ds;
  }

  /**
   * The accept decision: `Some((channel, value))` exactly when both
   * conversions of the format succeed.
   */
  function Parse(s: seq<Byte>): (r: Option<(int, int)>)
    ensures r.Some? ==> ChannelKey <= s
  {
    if !(ChannelKey <= s) then None
    else
      var x := s[|ChannelKey|..];
      match ScanInt(x)
      case None => None
      case Some((channel, i)) =>
        var rest := x[i..];
        if !(ValueKey <= rest) then None
        else
          match ScanInt(rest[|ValueKey|..])
          case None => None
          case Some((value, _)) => Some((channel, value))
  }

  // ---------------------------------------------------------------------
  // What the scanner and the decision accept.

  /** A `%d` over white space `ws`, an optional sign `sg`, digits `ds`, then `rest`. */
  lemma ScanIntOfParts(ws: seq<Byte>, sg: seq<Byte>, ds: seq<Byte>, rest: seq<Byte>)
    requires AllSpace(ws)
    requires IsSignPart(sg)
    requires |ds| > 0 && AllDigits(ds)
    requires rest == [] || !IsDigit(rest[0])
    ensures ScanInt(ws + sg + ds + rest) == Some((Signed(sg, ds), |ws| + |sg| + |ds|))
  {
    var s := ws + sg + ds + rest;
    var j := |ws| + |sg|;
    var e := j + |ds|;
    assert SpaceEnd(s, 0) == |ws| by {
      assert !IsSpace(s[|ws|]) by {
        if sg == [] { assert s[|ws|] == ds[0]; } else { assert s[|ws|] == sg[0]; }
      }
      SpaceEndAt(s, 0, |ws|);
    }
    assert DigitsStart(s) == j by {
      if sg == [] { assert s[|ws|] == ds[0]; } else { assert s[|ws|] == sg[0]; }
    }
    assert DigitEnd(s, j) == e by {
      assert forall k :: j <= k < e ==> s[k] == ds[k - j];
      assert e < |s| ==> s[e] == rest[0];
      DigitEndAt(s, j, e);
    }
    assert s[j..e] == ds;
  }

  /**
   * A `%d` reads any integer text, and stops at its end when the next byte
   * does not continue the number.
   */
  lemma ScanIntText(a: seq<Byte>, n: int, rest: seq<Byte>)
    requires IsIntText(a, n)
    requires rest == [] || !IsDigit(rest[0])
    ensures ScanInt(a + rest) == Some((n, |a|))
  {
    var ws, sg, ds :| a == ws + sg + ds && AllSpace(ws) && IsSignPart(sg)
                      && |ds| > 0 && AllDigits(ds) && n == Signed(sg, ds);
    ScanIntOfParts(ws, sg, ds, rest);
  }

  /** Parse in terms of its two conversions. */
  lemma ParseFields(x: seq<Byte>, channel: int, i: nat, y: seq<Byte>, value: int, j: nat)
    requires ScanInt(x) == Some((channel, i)) && i <= |x| && x[i..] == ValueKey + y
    requires ScanInt(y) == Some((value, j))
    ensures Parse(ChannelKey + x) == Some((channel, value))
  {
    assert (ChannelKey + x)[|ChannelKey|..] == x;
    assert (ValueKey + y)[|ValueKey|..] == y;
  }

  lemma Regroup(a: seq<Byte>, b: seq<Byte>, c: seq<Byte>, d: seq<Byte>, e: seq<Byte>)
    ensures a + b + c + d + e == a + (b + (c + (d + e)))
  {
  }

  /**
   * The "if" half of the decision: `{"channel":`, integer text, `,"value":`,
   * integer text, then anything that does not continue the second number, is
   * accepted with those two numbers. The closing brace is never checked.
   */
  lemma ParseAccepts(a: seq<Byte>, channel: int, b: seq<Byte>, value: int, tail: seq<Byte>)
    requires IsIntText(a, channel) && IsIntText(b, value)
    requires tail == [] || !IsDigit(tail[0])
    ensures Parse(Fields(a, b, tail)) == Some((channel, value))
  {
    var y := b + tail;
    var x := a + (ValueKey + y);
    Regroup(ChannelKey, a, ValueKey, b, tail);
    assert Fields(a, b, tail) == ChannelKey + x;
    ScanIntText(a, channel, ValueKey + y);
    assert x[|a|..] == ValueKey + y;
    ScanIntText(b, value, tail);
    ParseFields(x, channel, |a|, y, value, |b|);
  }

  /**
   * The "only if" half: an accepted datagram is `{"channel":`, integer text
   * for the channel, `,"value":`, integer text for the value, and a tail that
   * does not continue the second number.
   */
  lemma ParseOnlyAccepts(s: seq<Byte>, channel: int, value: int)
    requires Parse(s) == Some((channel, value))
    ensures exists a, b, tail :: s == Fields(a, b, tail) && IsIntText(a, channel) && IsIntText(b, value)
                                 && (tail == [] || !IsDigit(tail[0]))
  {
    var x := s[|ChannelKey|..];
    assert s == ChannelKey + x;
    var a, rest := ScanIntSplits(x);
    assert rest == x[ScanInt(x).value.1..];
    var y := rest[|ValueKey|..];
    assert rest == ValueKey + y;
    var b, tail := ScanIntSplits(y);
    Regroup(ChannelKey, a, ValueKey, b, tail);
    assert s == Fields(a, b, tail);
  }

  /** A successful `%d` splits its input into integer text and what follows it. */
  lemma ScanIntSplits(x: seq<Byte>) returns (a: seq<Byte>, after: seq<Byte>)
    requires ScanInt(x).Some?
    ensures x == a + after && |a| == ScanInt(x).value.1
    ensures IsIntText(a, ScanInt(x).value.0)
    ensures after == [] || !IsDigit(after[0])
  {
    a, after := x[..ScanInt(x).value.1], x[ScanInt(x).value.1..];
    ScanIntReadsText(x);
  }

  /** Both halves together: the exact set of datagrams the decision accepts. */
  lemma ParseIff(s: seq<Byte>, channel: int, value: int)
    ensures Parse(s) == Some((channel, value))
        <==> exists a, b, tail :: s == Fields(a, b, tail) && IsIntText(a, channel) && IsIntText(b, value)
                                  && (tail == [] || !IsDigit(tail[0]))
  {
    if Parse(s) == Some((channel, value)) {
      ParseOnlyAccepts(s, channel, value);
    }
    if exists a, b, tail :: s == Fields(a, b, tail) && IsIntText(a, channel) && IsIntText(b, value)
                           && (tail == [] || !IsDigit(tail[0])) {
      var a, b, tail :| s == Fields(a, b, tail) && IsIntText(a, channel) && IsIntText(b, value)
                        && (tail == [] || !IsDigit(tail[0]));
      ParseAccepts(a, channel, b, value, tail);
    }
  }

  // ---------------------------------------------------------------------
  // The command text a client sends, as `printf("%d")` would spell it.

  /** The decimal digits of `n`, most significant first, without leading zeros. */
  function Digits(n: nat): (r: seq<Byte>)
    ensures |r| >= 1
    ensures AllDigits(r)
    decreases n
  {
    if n < 10 then [DigitByte(n)] else Digits(n / 10) + [DigitByte(n % 10)]
  }

  function Decimal(n: int): (r: seq<Byte>)
    ensures |r| >= 1 && !IsSpace(r[0])
  {
    if n < 0 then [Minus] + Digits(-n) else Digits(n)
  }

  /** `{"channel":<channel>,"value":<value>}` */
  function Command(channel: int, value: int): (r: seq<Byte>)
    ensures r == Fields(Decimal(channel), Decimal(value), [CloseBrace])
  {
    ChannelKey + Decimal(channel) + ValueKey + Decimal(value) + [CloseBrace]
  }

  lemma {:induction false} ValueOfDigits(n: nat)
    ensures ValueOf(Digits(n)) == n
    decreases n
  {
    if n >= 10 {
      var ds := Digits(n);
      assert ds[..|ds| - 1] == Digits(n / 10);
      ValueOfDigits(n / 10);
    }
  }

  /** White space followed by `n` in decimal is integer text for `n`. */
  lemma DecimalIsIntText(ws: seq<Byte>, n: int)
    requires AllSpace(ws)
    ensures IsIntText(ws + Decimal(n), n)
  {
    if n < 0 {
      ValueOfDigits(-n);
      assert ws + Decimal(n) == ws + [Minus] + Digits(-n);
      assert Signed([Minus], Digits(-n)) == n;
    } else {
      ValueOfDigits(n);
      assert ws + Decimal(n) == ws + [] + Digits(n);
      assert Signed([], Digits(n)) == n;
    }
  }

  /**
   * The datagram is accepted with the numbers it spells, whatever follows the
   * second number so long as it does not continue it: the closing brace is
   * never checked.
   */
  lemma ParseReadsNumbers(ws1: seq<Byte>, channel: int, ws2: seq<Byte>, value: int, tail: seq<Byte>)
    requires AllSpace(ws1) && AllSpace(ws2)
    requires tail == [] || !IsDigit(tail[0])
    ensures Parse(Fields(ws1 + Decimal(channel), ws2 + Decimal(value), tail)) == Some((channel, value))
  {
    DecimalIsIntText(ws1, channel);
    DecimalIsIntText(ws2, value);
    ParseAccepts(ws1 + Decimal(channel), channel, ws2 + Decimal(value), value, tail);
  }

  /** Round trip: the text a client sends parses back to the update it names. */
  lemma ParseCommand(channel: int, value: int, trailer: seq<Byte>)
    ensures Parse(Command(channel, value) + trailer) == Some((channel, value))
  {
    var tail := [CloseBrace] + trailer;
    assert Command(channel, value) + trailer == Fields(Decimal(channel), Decimal(value), tail);
    assert [] + Decimal(channel) == Decimal(channel) && [] + Decimal(value) == Decimal(value);
    ParseReadsNumbers([], channel, [], value, tail);
  }

  // ---------------------------------------------------------------------

  /** The C string held in a byte buffer: the bytes before the first NUL. */
  function CString(s: seq<Byte>): (r: seq<Byte>)
    ensures r <= s
    ensures forall i :: 0 <= i < |r| ==> r[i] != 0
    ensures |r| == |s| || s[|r|] == 0
    decreases |s|
  {
    if s == [] || s[0] == 0 then [] else [s[0]] + CString(s[1..])
  }
}
