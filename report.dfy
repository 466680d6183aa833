/**
 The serial output of the Mandelbrot demo: `ascii`, which writes a byte as
 three decimal digits, and the frame-timing line built from it.

 A transmitted byte is an integer in 0..255. `ascii` takes a `char`, which is
 unsigned on the ARM EABI target, so its argument is a Byte as well.
 */
module Report {

  type Byte = b: int | 0 <= b < 256

  datatype Option<T> = None | Some(value: T)

  const DigitZero: Byte := 48   // '0'
  const Space: Byte := 32       // ' '
  const CR: Byte := 13          // '\r'
  const LF: Byte := 10          // '\n'

  /** Length of one timing line: four three-digit groups, three spaces, CR LF. */
  const LineLength: nat := 17

  predicate IsDigit(c: Byte)
  {
    DigitZero <= c <= DigitZero + 9
  }

  /** The value of three ASCII digits read as hundreds, tens and ones. */
  function GroupValue(g: seq<Byte>): int
    requires |g| == 3
  {
    (g[0] - DigitZero) * 100 + (g[1] - DigitZero) * 10 + (g[2] - DigitZero)
  }

  /** Three ASCII digits whose value fits in a byte. */
  predicate IsGroup(g: seq<Byte>)
  {
    |g| == 3 && IsDigit(g[0]) && IsDigit(g[1]) && IsDigit(g[2]) && GroupValue(g) <= 255
  }

  /** The characters `ascii(b)` sends: hundreds, tens and ones digit, with no
      leading-zero suppression. */
  function Ascii(b: Byte): (r: seq<Byte>)
    ensures |r| == 3
    ensures IsGroup(r) && r[0] <= DigitZero + 2
    ensures GroupValue(r) == b
  {
    var hunds := b / 100;
    var tens := (b - hunds * 100) / 10;
    var ones := b - hunds * 100 - tens * 10;
    [hunds + DigitZero, tens + DigitZero, ones + DigitZero]
  }

  /** Every group of three digits with a value up to 255 is what `ascii` sends
      for that value: the encoding is onto the valid groups. */
  lemma AsciiOfGroup(g: seq<Byte>)
    requires IsGroup(g)
    ensures Ascii(GroupValue(g)) == g
  {
    var v := GroupValue(g);
    assert v / 100 == g[0] - DigitZero;
    assert (v - (v / 100) * 100) / 10 == g[1] - DigitZero;
  }

  /** Two bytes are sent alike only if they are equal. */
  lemma AsciiInjective(a: Byte, b: Byte)
    requires Ascii(a) == Ascii(b)
    ensures a == b
  {
    assert GroupValue(Ascii(a)) == GroupValue(Ascii(b));
  }

  /** Byte k (0 = least significant) of `time`: the C expression `(time >> 8k) & 0xFF`
      on a non-negative value. */
  function ByteOf(time: nat, k: nat): Byte
    requires k < 4
  {
    if k == 0 then time % 0x100
    else if k == 1 then (time / 0x100) % 0x100
    else if k == 2 then (time / 0x1_0000) % 0x100
    else (time / 0x100_0000) % 0x100
  }

  /** The timing line sent for a tick delta: the four bytes of `time`, most
      significant first, each through `ascii`, separated by single spaces and
      ended by CR LF. */
  function FormatReport(time: nat): (r: seq<Byte>)
    ensures |r| == LineLength
    ensures r[3] == Space && r[7] == Space && r[11] == Space
    ensures r[15] == CR && r[16] == LF
    ensures IsGroup(r[0..3]) && IsGroup(r[4..7]) && IsGroup(r[8..11]) && IsGroup(r[12..15])
  {
    var r := Ascii(ByteOf(time, 3)) + [Space] + Ascii(ByteOf(time, 2)) + [Space]
             + Ascii(ByteOf(time, 1)) + [Space] + Ascii(ByteOf(time, 0)) + [CR, LF];
    assert r[0..3] == Ascii(ByteOf(time, 3));
    assert r[4..7] == Ascii(ByteOf(time, 2));
    assert r[8..11] == Ascii(ByteOf(time, 1));
    assert r[12..15] == Ascii(ByteOf(time, 0));
    r
  }

  /** A reader of timing lines: it accepts exactly four byte-valued digit
      groups separated by single spaces and ended by CR LF, and reads them as
      a base-256 number, most significant group first. */
  function ParseReport(s: seq<Byte>): (r: Option<nat>)
    ensures r.Some? ==> r.value < 0x1_0000_0000
  {
    if |s| == LineLength && s[3] == Space && s[7] == Space && s[11] == Space
       && s[15] == CR && s[16] == LF
       && IsGroup(s[0..3]) && IsGroup(s[4..7]) && IsGroup(s[8..11]) && IsGroup(s[12..15])
    then Some(Join(GroupValue(s[0..3]), GroupValue(s[4..7]), GroupValue(s[8..11]), GroupValue(s[12..15])))
    else None
  }

  /** The base-256 number with digits b3 b2 b1 b0, most significant first. */
  function Join(b3: Byte, b2: Byte, b1: Byte, b0: Byte): (v: nat)
    ensures v < 0x1_0000_0000
  {
    b3 * 0x100_0000 + b2 * 0x1_0000 + b1 * 0x100 + b0
  }

  /** Splitting off the byte above the low 8, 16 or 24 bits. */
  lemma SplitLow16(t: nat)
    ensures t % 0x1_0000 == ByteOf(t, 1) * 0x100 + t % 0x100
  {
    var q := t / 0x1_0000;
    assert t == q * 0x1_0000 + t % 0x1_0000;
    assert t / 0x100 == q * 0x100 + (t % 0x1_0000) / 0x100;
  }

  lemma SplitLow24(t: nat)
    ensures t % 0x100_0000 == ByteOf(t, 2) * 0x1_0000 + t % 0x1_0000
  {
    var q := t / 0x100_0000;
    assert t == q * 0x100_0000 + t % 0x100_0000;
    assert t / 0x1_0000 == q * 0x100 + (t % 0x100_0000) / 0x1_0000;
  }

  lemma SplitLow32(t: nat)
    ensures t % 0x1_0000_0000 == ByteOf(t, 3) * 0x100_0000 + t % 0x100_0000
  {
    var q := t / 0x1_0000_0000;
    assert t == q * 0x1_0000_0000 + t % 0x1_0000_0000;
    assert t / 0x100_0000 == q * 0x100 + (t % 0x1_0000_0000) / 0x100_0000;
  }

  /** The four bytes of a number join back to its low 32 bits. */
  lemma JoinBytes(time: nat)
    ensures Join(ByteOf(time, 3), ByteOf(time, 2), ByteOf(time, 1), ByteOf(time, 0)) == time % 0x1_0000_0000
  {
    SplitLow16(time);
    SplitLow24(time);
    SplitLow32(time);
  }

  /** The bytes of a joined number are the digits it was joined from. */
  lemma BytesOfJoin(b3: Byte, b2: Byte, b1: Byte, b0: Byte)
    ensures ByteOf(Join(b3, b2, b1, b0), 0) == b0
    ensures ByteOf(Join(b3, b2, b1, b0), 1) == b1
    ensures ByteOf(Join(b3, b2, b1, b0), 2) == b2
    ensures ByteOf(Join(b3, b2, b1, b0), 3) == b3
  {
    var v := Join(b3, b2, b1, b0);
    assert v / 0x100 == b3 * 0x1_0000 + b2 * 0x100 + b1;
    assert v / 0x1_0000 == b3 * 0x100 + b2;
    assert v / 0x100_0000 == b3;
  }

  /** Reading a timing line gives back the low 32 bits of the delta it reports. */
  lemma ReportRoundTrip(time: nat)
    ensures ParseReport(FormatReport(time)) == Some(time % 0x1_0000_0000)
  {
    var s := FormatReport(time);
    assert s[0..3] == Ascii(ByteOf(time, 3));
    assert s[4..7] == Ascii(ByteOf(time, 2));
    assert s[8..11] == Ascii(ByteOf(time, 1));
    assert s[12..15] == Ascii(ByteOf(time, 0));
    JoinBytes(time);
  }

  /** Every line the reader accepts is the line sent for the value it reads:
      the line format has no other spellings. */
  lemma ParsedReportIsFormatted(s: seq<Byte>)
    requires ParseReport(s).Some?
    ensures FormatReport(ParseReport(s).value) == s
  {
    var g3, g2, g1, g0 := s[0..3], s[4..7], s[8..11], s[12..15];
    var v := ParseReport(s).value;
    BytesOfJoin(GroupValue(g3), GroupValue(g2), GroupValue(g1), GroupValue(g0));
    AsciiOfGroup(g3);
    AsciiOfGroup(g2);
    AsciiOfGroup(g1);
    AsciiOfGroup(g0);
    var r := FormatReport(v);
    assert r[0..3] == g3 && r[4..7] == g2 && r[8..11] == g1 && r[12..15] == g0;
    assert r == r[0..3] + [r[3]] + r[4..7] + [r[7]] + r[8..11] + [r[11]] + r[12..15] + r[15..];
    assert s == s[0..3] + [s[3]] + s[4..7] + [s[7]] + s[8..11] + [s[11]] + s[12..15] + s[15..];
  }
}
