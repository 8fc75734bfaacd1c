/** The payload and frame headers (payload.h). */
module Payload {
  import opened Common

  const TWO31 := 0x8000_0000
  const TWO32 := 0x1_0000_0000

  // ---------------------------------------------------------------- bits

  /** x | y, bit by bit. */
  function BitOr(x: nat, y: nat): nat
    decreases x + y
  {
    if x == 0 then y
    else if y == 0 then x
    else 2 * BitOr(x / 2, y / 2) + (if x % 2 == 1 || y % 2 == 1 then 1 else 0)
  }

  /** x << n */
  function ShiftLeft(x: nat, n: nat): nat {
    if n == 0 then x else 2 * ShiftLeft(x, n - 1)
  }

  /** x >> n, which keeps the sign. */
  function ShiftRight(x: int, n: nat): int {
    if n == 0 then x else ShiftRight(x, n - 1) / 2
  }

  /** Conversion to an unsigned byte; x & 0xFF is the same value. */
  function LowByte(x: int): byte {
    x % 256
  }

  /** Bit `n` of `x`. */
  predicate Bit(x: nat, n: nat) {
    if n == 0 then x % 2 == 1 else Bit(x / 2, n - 1)
  }

  /** A bit is set in the or exactly if it is set in one of the operands. */
  lemma {:induction false} OrBits(x: nat, y: nat, n: nat)
    ensures Bit(BitOr(x, y), n) <==> Bit(x, n) || Bit(y, n)
    ensures Bit(x, 0) <==> x % 2 == 1
    ensures Bit(x, n + 1) <==> Bit(x / 2, n)
    decreases n
  {
    if x == 0 {
      ZeroBits(n);
    } else if y == 0 {
      ZeroBits(n);
    } else if n > 0 {
      OrBits(x / 2, y / 2, n - 1);
    }
  }

  lemma {:induction false} ZeroBits(n: nat)
    ensures !Bit(0, n)
  {
    if n > 0 {
      ZeroBits(n - 1);
    }
  }

  /** Or-ing something small into freshly shifted-in zeros adds it. */
  lemma {:induction false} OrShifted(x: nat, n: nat, y: nat)
    requires y < ShiftLeft(1, n)
    ensures BitOr(ShiftLeft(x, n), y) == ShiftLeft(x, n) + y
  {
    if n > 0 && x > 0 && y > 0 {
      ShiftPositive(x, n);
      OrShifted(x, n - 1, y / 2);
    } else if x == 0 {
      ShiftZero(n);
    }
  }

  lemma {:induction false} ShiftPositive(x: nat, n: nat)
    requires x > 0
    ensures ShiftLeft(x, n) > 0
  {
    if n > 0 {
      ShiftPositive(x, n - 1);
    }
  }

  lemma {:induction false} ShiftZero(n: nat)
    ensures ShiftLeft(0, n) == 0
  {
    if n > 0 {
      ShiftZero(n - 1);
    }
  }

  lemma {:induction false} ShiftByByte(x: nat, y: byte)
    ensures BitOr(ShiftLeft(x, 8), y) == 256 * x + y as int
  {
    ShiftEight(x);
    ShiftEight(1);
    OrShifted(x, 8, y);
  }

  lemma {:induction false} ShiftEight(x: nat)
    ensures ShiftLeft(x, 8) == 256 * x
  {
    assert ShiftLeft(x, 1) == 2 * x;
    assert ShiftLeft(x, 2) == 4 * x;
    assert ShiftLeft(x, 3) == 8 * x;
    assert ShiftLeft(x, 4) == 16 * x;
    assert ShiftLeft(x, 5) == 32 * x;
    assert ShiftLeft(x, 6) == 64 * x;
    assert ShiftLeft(x, 7) == 128 * x;
  }

  lemma {:induction false} ShiftRightBytes(x: int)
    ensures ShiftRight(x, 8) == x / 256 && ShiftRight(x, 16) == x / 65536 && ShiftRight(x, 24) == x / 16777216
  {
    ShiftRightEight(x, 0);
    ShiftRightEight(x, 8);
    ShiftRightEight(x, 16);
  }

  lemma {:induction false} ShiftRightEight(x: int, n: nat)
    ensures ShiftRight(x, n + 8) == ShiftRight(x, n) / 256
  {
    var y := ShiftRight(x, n);
    assert ShiftRight(x, n + 1) == y / 2;
    assert ShiftRight(x, n + 2) == y / 4;
    assert ShiftRight(x, n + 3) == y / 8;
    assert ShiftRight(x, n + 4) == y / 16;
    assert ShiftRight(x, n + 5) == y / 32;
    assert ShiftRight(x, n + 6) == y / 64;
    assert ShiftRight(x, n + 7) == y / 128;
  }

  /** The number that `s` writes in base 256, most significant byte first. */
  function BigEndian(s: seq<byte>): nat {
    if s == [] then 0 else 256 * BigEndian(s[..|s| - 1]) + s[|s| - 1] as int
  }

  lemma {:induction false} BigEndianPush(s: seq<byte>, b: byte)
    ensures BigEndian(s + [b]) == 256 * BigEndian(s) + b as int
  {
    assert (s + [b])[..|s|] == s;
  }

  lemma {:induction false} TwoLowBytes(x: int)
    ensures 256 * LowByte(x / 256) as int + LowByte(x) as int == x % 65536
  {
  }

  lemma {:induction false} ThreeLowBytes(x: int)
    ensures 65536 * LowByte(x / 65536) as int + 256 * LowByte(x / 256) as int + LowByte(x) as int == x % 0x100_0000
  {
    hide LowByte;
    TwoLowBytes(x);
    NextLowByte(x, x / 65536, x % 65536, 65536);
  }

  lemma {:induction false} FourLowBytes(x: int)
    ensures 16777216 * LowByte(x / 16777216) as int + 65536 * LowByte(x / 65536) as int
            + 256 * LowByte(x / 256) as int + LowByte(x) as int == x % TWO32
  {
    hide LowByte;
    ThreeLowBytes(x);
    NextLowByte(x, x / 16777216, x % 16777216, 16777216);
  }

  lemma {:induction false} NextLowByte(x: int, q: int, r: int, m: int)
    requires 0 <= r < m && x == m * q + r
    ensures m * LowByte(q) as int + r == x % (256 * m)
  {
    var d := LowByte(q) as int;
    assert q == 256 * (q / 256) + d;
    assert m * q == 256 * m * (q / 256) + m * d;
    assert m * d <= m * 255;
    Division(x, q / 256, m * d + r, 256 * m);
  }

  lemma {:induction false} BigEndianTwo(a: byte, b: byte)
    ensures BigEndian([a, b]) == 256 * a as int + b as int
  {
    BigEndianPush([a], b);
    BigEndianPush([], a);
    assert [] + [a] == [a] && [a] + [b] == [a, b];
  }

  lemma {:induction false} BigEndianThree(a: byte, b: byte, c: byte)
    ensures BigEndian([a, b, c]) == 65536 * a as int + 256 * b as int + c as int
  {
    BigEndianTwo(a, b);
    BigEndianPush([a, b], c);
    assert [a, b] + [c] == [a, b, c];
  }

  lemma {:induction false} BigEndianFour(a: byte, b: byte, c: byte, d: byte)
    ensures BigEndian([a, b, c, d]) == 16777216 * a as int + 65536 * b as int + 256 * c as int + d as int
  {
    BigEndianThree(a, b, c);
    BigEndianPush([a, b, c], d);
    assert [a, b, c] + [d] == [a, b, c, d];
  }

  // ---------------------------------------------------------------- frame header

  const FRAME_HEADER_SIZE := 8

  /** A frame's size and time stamps; pts -1 stands for "none". */
  datatype Frame = Frame(size: int, pts: int, dts: int)

  /** 32-bit two's complement. */
  function ToInt32(x: int): int {
    (x + TWO31) % TWO32 - TWO31
  }

  predicate IsInt32(x: int) {
    -TWO31 <= x < TWO31
  }

  function FrameBytes(f: Frame): (r: seq<byte>)
    ensures |r| == FRAME_HEADER_SIZE
  {
    [LowByte(f.size / 65536), LowByte(f.size / 256), LowByte(f.size),
     LowByte(f.dts / 16777216), LowByte(f.dts / 65536), LowByte(f.dts / 256), LowByte(f.dts),
     if f.pts != -1 then LowByte(f.pts - f.dts) else 255]
  }

  method FrameHeaderWrite(data: array<byte>, size: int, pts: int, dts: int)
    requires data.Length >= FRAME_HEADER_SIZE
    requires IsInt32(size) && IsInt32(pts) && IsInt32(dts)
    modifies data
    ensures data[..FRAME_HEADER_SIZE] == FrameBytes(Frame(size, pts, dts))
    ensures data[FRAME_HEADER_SIZE..] == old(data[FRAME_HEADER_SIZE..])
  {
    hide ShiftRight, LowByte;
    ShiftRightBytes(size);
    ShiftRightBytes(dts);
    data[0] := LowByte(ShiftRight(size, 16));
    data[1] := LowByte(ShiftRight(size, 8));
    data[2] := LowByte(size);
    data[3] := LowByte(ShiftRight(dts, 24));
    data[4] := LowByte(ShiftRight(dts, 16));
    data[5] := LowByte(ShiftRight(dts, 8));
    data[6] := LowByte(dts);
    if pts != -1 {
      data[7] := LowByte(pts - dts);
    } else {
      data[7] := 255;
    }
  }

  function ParsedFrame(s: seq<byte>): Frame
    requires |s| >= FRAME_HEADER_SIZE
  {
    var dts := BigEndian(s[3..7]);
    Frame(BigEndian(s[..3]), if s[7] != 255 then dts + s[7] as int else -1, dts)
  }

  method FrameHeaderParse(data: array<byte>) returns (size: int, pts: int, dts: int)
    requires data.Length >= FRAME_HEADER_SIZE
    ensures Frame(size, pts, dts) == ParsedFrame(data[..])
  {
    hide BitOr, ShiftLeft, BigEndian;
    var n: nat := 0;
    BigEndianNone();
    for i := 0 to 3
      invariant n == BigEndian(data[..i])
    {
      assert data[..i + 1] == data[..i] + [data[i]];
      BigEndianPush(data[..i], data[i]);
      ShiftByByte(n, data[i]);
      n := BitOr(ShiftLeft(n, 8), data[i]);
    }
    size, n := n, 0;
    assert data[3..3 + 0] == [];
    for i := 0 to 4
      invariant n == BigEndian(data[3..3 + i])
    {
      assert data[3..3 + (i + 1)] == data[3..3 + i] + [data[3 + i]];
      BigEndianPush(data[3..3 + i], data[3 + i]);
      ShiftByByte(n, data[3 + i]);
      n := BitOr(ShiftLeft(n, 8), data[3 + i]);
    }
    dts := n;
    if data[7] != 255 {
      pts := dts + data[7] as int;
    } else {
      pts := -1;
    }
    assert data[..][..3] == data[..3] && data[..][3..7] == data[3..7];
  }

  lemma {:induction false} BigEndianNone()
    ensures BigEndian([]) == 0
  {
  }

  /** Which byte stands where: three bytes of size, four of dts, each most significant first, and the distance of pts,
      or 255 for none. */
  lemma {:induction false} FramePlaces(f: Frame)
    ensures var b := FrameBytes(f);
            && 0x1_0000 * b[0] as int + 0x100 * b[1] as int + b[2] as int == f.size % 0x100_0000
            && 0x100_0000 * b[3] as int + 0x1_0000 * b[4] as int + 0x100 * b[5] as int + b[6] as int
               == f.dts % 0x1_0000_0000
            && b[7] as int == if f.pts == -1 then 255 else (f.pts - f.dts) % 256
  {
    ThreeLowBytes(f.size);
    FourLowBytes(f.dts);
  }

  lemma {:induction false} ParsedPlaces(b: seq<byte>)
    requires |b| >= 8
    ensures var f := ParsedFrame(b);
            && f.size == 0x1_0000 * b[0] as int + 0x100 * b[1] as int + b[2] as int
            && f.dts == 0x100_0000 * b[3] as int + 0x1_0000 * b[4] as int + 0x100 * b[5] as int + b[6] as int
            && f.pts == if b[7] == 255 then -1 else f.dts + b[7] as int
  {
    hide BigEndian;
    assert b[..3] == [b[0], b[1], b[2]] && b[3..7] == [b[3], b[4], b[5], b[6]];
    BigEndianThree(b[0], b[1], b[2]);
    BigEndianFour(b[3], b[4], b[5], b[6]);
  }

  /** Reading back what was written gives the same frame exactly when the size fits three bytes, dts is not negative
      and pts is missing or at most 254 after it. */
  lemma {:induction false} FrameRoundTrip(f: Frame)
    requires IsInt32(f.size) && IsInt32(f.pts) && IsInt32(f.dts)
    ensures ParsedFrame(FrameBytes(f)) == f <==>
      0 <= f.size < 0x100_0000 && 0 <= f.dts && (f.pts == -1 || 0 <= f.pts - f.dts < 255)
  {
    hide FrameBytes, ParsedFrame, LowByte, IsInt32, LowThree, LowFour;
    ReadBack(f);
    LowParts(f.size, f.dts, f.pts - f.dts);
  }

  /** The value of the three low bytes. */
  function LowThree(x: int): nat {
    x % 0x100_0000
  }

  /** The value of the four low bytes. */
  function LowFour(x: int): nat {
    x % TWO32
  }

  lemma {:induction false} LowParts(size: int, dts: int, d: int)
    requires IsInt32(dts)
    ensures LowThree(size) == size <==> 0 <= size < 0x100_0000
    ensures LowFour(dts) == dts <==> 0 <= dts
    ensures LowByte(d) as int == d && LowByte(d) != 255 <==> 0 <= d < 255
  {
  }

  /** A pts 255 after dts reads back as "none". */
  lemma {:induction false} FrameNotReadBack(size: int, dts: int)
    requires 0 <= size < 0x100_0000 && 0 <= dts && IsInt32(dts + 255)
    ensures ParsedFrame(FrameBytes(Frame(size, dts + 255, dts))) == Frame(size, -1, dts)
  {
    hide FrameBytes, ParsedFrame, LowByte, LowThree, LowFour;
    ReadBack(Frame(size, dts + 255, dts));
    LowParts(size, dts, 255);
    TopByte(255);
  }

  lemma {:induction false} ReadBack(f: Frame)
    ensures var last := if f.pts != -1 then LowByte(f.pts - f.dts) else 255;
            ParsedFrame(FrameBytes(f)) ==
            Frame(LowThree(f.size), if last != 255 then LowFour(f.dts) + last as int else -1, LowFour(f.dts))
  {
    hide BigEndian, LowByte;
    var s := FrameBytes(f);
    assert s[..3] == [s[0], s[1], s[2]] && s[3..7] == [s[3], s[4], s[5], s[6]];
    BigEndianThree(s[0], s[1], s[2]);
    BigEndianFour(s[3], s[4], s[5], s[6]);
    ThreeLowBytes(f.size);
    FourLowBytes(f.dts);
  }

  /** What the parser found, converted to the 32 bits of the writer's parameters. */
  function Narrowed(f: Frame): Frame {
    Frame(f.size, ToInt32(f.pts), ToInt32(f.dts))
  }

  /** Writing what was read gives the same bytes unless a present pts is 2^32 - 1, which narrows to "none". With a
      pts, the writer's subtraction stays within 32 bits unless dts lies below 2^31 and pts does not. */
  lemma {:induction false} FrameBytesRoundTrip(s: seq<byte>)
    requires |s| == FRAME_HEADER_SIZE
    ensures var f := ParsedFrame(s);
            && (FrameBytes(Narrowed(f)) == s <==> f.pts != TWO32 - 1)
            && (f.pts != -1 ==> (IsInt32(Narrowed(f).pts - Narrowed(f).dts) <==> !(f.dts < TWO31 <= f.pts)))
  {
    hide BigEndian, LowByte, ToInt32, IsInt32;
    var f := ParsedFrame(s);
    assert s[..3] == [s[0], s[1], s[2]] && s[3..7] == [s[3], s[4], s[5], s[6]];
    BigEndianThree(s[0], s[1], s[2]);
    BigEndianFour(s[3], s[4], s[5], s[6]);
    Digits(f.size, 0, s[0], s[1], s[2]);
    Narrow(f.dts);
    Digits(ToInt32(f.dts), if f.dts < TWO31 then s[3] as int else s[3] as int - 256, s[4], s[5], s[6]);
    TopByte(s[3]);
    if f.pts != -1 {
      LastByte(f.dts, s[7]);
    } else {
      Narrow(-1);
    }
    var t := FrameBytes(Narrowed(f));
    assert t[..7] == s[..7];
    assert t == t[..7] + [t[7]] && s == s[..7] + [s[7]];
  }

  /** These eight bytes hold dts = pts = 2^32 - 1; written again their last byte changes. */
  lemma {:induction false} BytesNotRewritten()
    ensures var s := [0, 0, 0, 255, 255, 255, 255, 0];
            && ParsedFrame(s) == Frame(0, TWO32 - 1, TWO32 - 1)
            && FrameBytes(Narrowed(ParsedFrame(s))) == [0, 0, 0, 255, 255, 255, 255, 255]
  {
    hide BigEndian;
    var s := [0, 0, 0, 255, 255, 255, 255, 0];
    assert s[..3] == [0, 0, 0] && s[3..7] == [255, 255, 255, 255];
    BigEndianThree(0, 0, 0);
    BigEndianFour(255, 255, 255, 255);
    assert Narrowed(ParsedFrame(s)) == Frame(0, -1, -1);
  }

  lemma {:induction false} TopByte(b: byte)
    ensures LowByte(0) == 0 && LowByte(b as int) == b && LowByte(b as int - 256) == b
  {
  }

  lemma {:induction false} Narrow(x: int)
    requires -TWO31 <= x < TWO31 + TWO32
    ensures ToInt32(x) == if x < TWO31 then x else x - TWO32
  {
  }

  lemma {:induction false} LastByte(dts: int, last: byte)
    requires 0 <= dts < TWO32 && last != 255
    ensures ToInt32(dts + last as int) == -1 <==> dts + last as int == TWO32 - 1
    ensures LowByte(ToInt32(dts + last as int) - ToInt32(dts)) == last
    ensures IsInt32(ToInt32(dts + last as int) - ToInt32(dts)) <==> !(dts < TWO31 <= dts + last as int)
  {
    hide ToInt32;
    Narrow(dts);
    Narrow(dts + last as int);
  }

  lemma {:induction false} Digits(x: int, a: int, b: byte, c: byte, d: byte)
    requires x == 16777216 * a + 65536 * b as int + 256 * c as int + d as int
    ensures LowByte(x) == d && LowByte(x / 256) == c && LowByte(x / 65536) == b && x / 16777216 == a
  {
    LastDigit(x, 65536 * a + 256 * b as int + c as int, d);
    LastDigit(x / 256, 256 * a + b as int, c);
    LastDigit(x / 65536, a, b);
  }

  lemma {:induction false} LastDigit(x: int, q: int, d: byte)
    requires x == 256 * q + d as int
    ensures LowByte(x) == d && x / 256 == q
  {
  }

  // ---------------------------------------------------------------- payload header

  const PAYLOAD_FIELDS_SIZE := 9

  datatype PayloadHeader = PayloadHeader(codec: byte, width: int, height: int, rateN: int, rateD: int)

  function PayloadBytes(h: PayloadHeader): (r: seq<byte>)
    ensures |r| == PAYLOAD_FIELDS_SIZE
  {
    [h.codec, LowByte(h.width / 256), LowByte(h.width), LowByte(h.height / 256), LowByte(h.height),
     LowByte(h.rateN / 256), LowByte(h.rateN), LowByte(h.rateD / 256), LowByte(h.rateD)]
  }

  method PayloadHeaderWrite(data: array<byte>, codec: byte, width: int, height: int, num: int, den: int)
    requires data.Length >= PAYLOAD_FIELDS_SIZE
    modifies data
    ensures data[..PAYLOAD_FIELDS_SIZE] == PayloadBytes(PayloadHeader(codec, width, height, num, den))
    ensures data[PAYLOAD_FIELDS_SIZE..] == old(data[PAYLOAD_FIELDS_SIZE..])
  {
    hide ShiftRight, LowByte;
    ShiftRightBytes(width);
    ShiftRightBytes(height);
    ShiftRightBytes(num);
    ShiftRightBytes(den);
    data[0] := codec;
    data[1] := LowByte(ShiftRight(width, 8));
    data[2] := LowByte(width);
    data[3] := LowByte(ShiftRight(height, 8));
    data[4] := LowByte(height);
    data[5] := LowByte(ShiftRight(num, 8));
    data[6] := LowByte(num);
    data[7] := LowByte(ShiftRight(den, 8));
    data[8] := LowByte(den);
  }

  function ParsedPayload(s: seq<byte>): PayloadHeader
    requires |s| >= PAYLOAD_FIELDS_SIZE
  {
    PayloadHeader(s[0], BigEndian(s[1..3]), BigEndian(s[3..5]), BigEndian(s[5..7]), BigEndian(s[7..9]))
  }

  method PayloadHeaderParse(data: array<byte>) returns (codec: byte, width: int, height: int, num: int, den: int)
    requires data.Length >= PAYLOAD_FIELDS_SIZE
    ensures PayloadHeader(codec, width, height, num, den) == ParsedPayload(data[..])
  {
    hide BitOr, ShiftLeft, BigEndian;
    codec := data[0];
    width := BitOr(ShiftLeft(data[1], 8), data[2]);
    height := BitOr(ShiftLeft(data[3], 8), data[4]);
    num := BitOr(ShiftLeft(data[5], 8), data[6]);
    den := BitOr(ShiftLeft(data[7], 8), data[8]);
    PairAt(data[..], 1);
    PairAt(data[..], 3);
    PairAt(data[..], 5);
    PairAt(data[..], 7);
  }

  lemma {:induction false} PairAt(s: seq<byte>, i: nat)
    requires i + 2 <= |s|
    ensures BigEndian(s[i..i + 2]) == BitOr(ShiftLeft(s[i], 8), s[i + 1]) == 256 * s[i] as int + s[i + 1] as int
  {
    hide BigEndian, BitOr, ShiftLeft;
    assert s[i..i + 2] == [s[i], s[i + 1]];
    BigEndianTwo(s[i], s[i + 1]);
    ShiftByByte(s[i], s[i + 1]);
  }

  /** Which byte stands where: the codec, then width, height and the two parts of the frame rate, each most significant
      byte first. */
  lemma {:induction false} PayloadPlaces(h: PayloadHeader)
    ensures var b := PayloadBytes(h);
            && b[0] == h.codec
            && 256 * b[1] as int + b[2] as int == h.width % 65536 && 256 * b[3] as int + b[4] as int == h.height % 65536
            && 256 * b[5] as int + b[6] as int == h.rateN % 65536 && 256 * b[7] as int + b[8] as int == h.rateD % 65536
  {
    TwoLowBytes(h.width);
    TwoLowBytes(h.height);
    TwoLowBytes(h.rateN);
    TwoLowBytes(h.rateD);
  }

  lemma {:induction false} ParsedFields(b: seq<byte>)
    requires |b| >= 9
    ensures var h := ParsedPayload(b);
            && h.codec == b[0]
            && h.width == 256 * b[1] as int + b[2] as int && h.height == 256 * b[3] as int + b[4] as int
            && h.rateN == 256 * b[5] as int + b[6] as int && h.rateD == 256 * b[7] as int + b[8] as int
  {
    hide BigEndian, BitOr, ShiftLeft;
    PairAt(b, 1);
    PairAt(b, 3);
    PairAt(b, 5);
    PairAt(b, 7);
  }

  predicate IsUint16(x: int) {
    0 <= x < 65536
  }

  /** Reading back what was written gives the same header exactly when its fields fit 16 bits; writing what was read
      always gives the same bytes. */
  lemma {:induction false} PayloadRoundTrip(h: PayloadHeader, s: seq<byte>)
    requires |s| == PAYLOAD_FIELDS_SIZE
    ensures ParsedPayload(PayloadBytes(h)) == h <==>
      IsUint16(h.width) && IsUint16(h.height) && IsUint16(h.rateN) && IsUint16(h.rateD)
    ensures PayloadBytes(ParsedPayload(s)) == s
  {
    hide BigEndian, BitOr, ShiftLeft, LowByte;
    var t := PayloadBytes(h);
    FieldAt(t, 1, h.width);
    FieldAt(t, 3, h.height);
    FieldAt(t, 5, h.rateN);
    FieldAt(t, 7, h.rateD);
    BytesAt(s, 1);
    BytesAt(s, 3);
    BytesAt(s, 5);
    BytesAt(s, 7);
  }

  lemma {:induction false} FieldAt(t: seq<byte>, i: nat, x: int)
    requires i + 2 <= |t| && t[i] == LowByte(x / 256) && t[i + 1] == LowByte(x)
    ensures BigEndian(t[i..i + 2]) == x <==> IsUint16(x)
  {
    hide BigEndian, BitOr, ShiftLeft, LowByte;
    PairAt(t, i);
    TwoLowBytes(x);
  }

  lemma {:induction false} BytesAt(s: seq<byte>, i: nat)
    requires i + 2 <= |s|
    ensures LowByte(BigEndian(s[i..i + 2]) / 256) == s[i] && LowByte(BigEndian(s[i..i + 2])) == s[i + 1]
  {
    hide BigEndian, BitOr, ShiftLeft;
    PairAt(s, i);
  }
}
