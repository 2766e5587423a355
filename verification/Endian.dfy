/** Words and their bytes. */
module Endian {
  import opened Bits

  function BigEndian16(b: seq<u8>): u16
    requires |b| == 2
  {
    var b0: int, b1: int := b[0], b[1];
    b0 * 0x100 + b1
  }

  function LittleEndian16(b: seq<u8>): u16
    requires |b| == 2
  {
    BigEndian16([b[1], b[0]])
  }

  function PutBigEndian16(w: u16): (b: seq<u8>)
    ensures |b| == 2
  {
    [w / 0x100, w % 0x100]
  }

  function BigEndian32(b: seq<u8>): u32
    requires |b| == 4
  {
    var b0: int, b1: int, b2: int, b3: int := b[0], b[1], b[2], b[3];
    b0 * 0x1000000 + b1 * 0x10000 + b2 * 0x100 + b3
  }

  function PutBigEndian32(w: u32): (b: seq<u8>)
    ensures |b| == 4
  {
    [w / 0x1000000, w / 0x10000 % 0x100, w / 0x100 % 0x100, w % 0x100]
  }

  function LittleEndian32(b: seq<u8>): u32
    requires |b| == 4
  {
    BigEndian32([b[3], b[2], b[1], b[0]])
  }

  function PutLittleEndian32(w: u32): (b: seq<u8>)
    ensures |b| == 4
  {
    var b := PutBigEndian32(w);
    [b[3], b[2], b[1], b[0]]
  }

  lemma BigEndian16RoundTrip(b: seq<u8>)
    requires |b| == 2
    ensures PutBigEndian16(BigEndian16(b)) == b
  {
    Digit(b[1], b[0], BigEndian16(b));
  }

  lemma BigEndian32RoundTrip(w: u32, b: seq<u8>)
    requires |b| == 4
    ensures BigEndian32(PutBigEndian32(w)) == w
    ensures PutBigEndian32(BigEndian32(b)) == b
  {
    Digits(w);
    DigitsBack(b);
  }

  lemma LittleEndian32RoundTrip(w: u32, b: seq<u8>)
    requires |b| == 4
    ensures LittleEndian32(PutLittleEndian32(w)) == w
    ensures PutLittleEndian32(LittleEndian32(b)) == b
  {
    var p := PutBigEndian32(w);
    BigEndian32RoundTrip(w, [b[3], b[2], b[1], b[0]]);
    assert [p[0], p[1], p[2], p[3]] == p;
  }

  lemma Digits(w: u32)
    ensures w % 0x100 + w / 0x100 % 0x100 * 0x100 + w / 0x10000 % 0x100 * 0x10000 + w / 0x1000000 * 0x1000000 == w
  {
    var x := w / 0x100;
    var y := x / 0x100;
    assert w / 0x10000 == y && w / 0x1000000 == y / 0x100;
    assert w == w % 0x100 + 0x100 * x && x == x % 0x100 + 0x100 * y && y == y % 0x100 + 0x100 * (y / 0x100);
  }

  lemma DigitsBack(b: seq<u8>)
    requires |b| == 4
    ensures PutBigEndian32(BigEndian32(b)) == b
  {
    var w: int := BigEndian32(b);
    var z: int := b[0];
    var y: int := b[1] + 0x100 * z;
    var x: int := b[2] + 0x100 * y;
    assert w == b[3] + 0x100 * x;
    Digit(b[3], x, w);
    Digit(b[2], y, x);
    Digit(b[1], z, y);
    assert w / 0x10000 == y && w / 0x1000000 == z;
  }

  lemma Digit(low: u8, high: nat, w: nat)
    requires w == low + 0x100 * high
    ensures w % 0x100 == low && w / 0x100 == high
  {
  }
}
