/** Byteswapping of images and of streams: groups of two or four bytes are reversed. */
module ByteSwap {
  import opened Bits
  import opened Endian
  import opened Errors
  import opened Streams

  datatype ByteSwapper = BSNone | BSTwo | BSFour {

    /** Bytes in a group. */
    function Group(): nat {
      match this
      case BSNone => 1
      case BSTwo => 2
      case BSFour => 4
    }

    predicate Fits(n: nat) {
      match this
      case BSNone => true
      case BSTwo => n % 2 == 0
      case BSFour => n % 4 == 0
    }

    /** n - n % Group() */
    function WholeGroups(n: nat): (w: nat)
      ensures Fits(w) && w <= n < w + Group()
    {
      match this
      case BSNone => n
      case BSTwo => n - n % 2
      case BSFour => n - n % 4
    }

    /** The position byte i is swapped with. */
    function Mirror(i: nat): nat {
      match this
      case BSNone => i
      case BSTwo => i - i % 2 + (1 - i % 2)
      case BSFour => i - i % 4 + (3 - i % 4)
    }

    /** An image of whole groups with the bytes of each group reversed. */
    function Swapped(s: seq<u8>): (r: seq<u8>)
      requires Fits(|s|)
      ensures |r| == |s|
    {
      seq(|s|, i requires 0 <= i < |s| => (MirrorShifts(this, |s|, i); s[Mirror(i)]))
    }

    /** Swaps buf[..n] in place, or reports that n is not a whole number of groups. */
    method ByteSwap(buf: array<u8>, n: nat) returns (err: DriverError)
      requires n <= buf.Length
      modifies buf
      ensures err == Nil <==> Fits(n)
      ensures err == Nil ==> buf[..n] == Swapped(old(buf[..n]))
      ensures err != Nil ==> err == ErrInvalidBufferForByteswap && buf[..] == old(buf[..])
      ensures buf[n..] == old(buf[n..])
    {
      if !Fits(n) {
        return ErrInvalidBufferForByteswap;
      }
      err := Nil;
      match this {
        case BSNone =>
          assert buf[..n] == Swapped(old(buf[..n]));
        case BSTwo =>
          SwapTwos(buf, n);
        case BSFour =>
          SwapFours(buf, n);
      }
    }
  }

  method SwapTwos(buf: array<u8>, n: nat)
    requires n <= buf.Length && n % 2 == 0
    modifies buf
    ensures buf[..n] == BSTwo.Swapped(old(buf[..n])) && buf[n..] == old(buf[n..])
  {
    hide ByteSwapper.Swapped;
    ghost var s := buf[..];
    var i := 0;
    SwapNothing(BSTwo, s[..0]);
    while i < n
      invariant 0 <= i <= n && i % 2 == 0
      invariant buf[..i] == BSTwo.Swapped(s[..i]) && buf[i..] == s[i..]
    {
      assert buf[i] == buf[i..][0] == s[i] && buf[i + 1] == buf[i..][1] == s[i + 1];
      var x := LittleEndian16(buf[i..i + 2]);
      BigEndian16RoundTrip([buf[i + 1], buf[i]]);
      SwapMore(BSTwo, s, i, [s[i + 1], s[i]]);
      Write(buf, i, PutBigEndian16(x));
      i := i + 2;
    }
  }

  method SwapFours(buf: array<u8>, n: nat)
    requires n <= buf.Length && n % 4 == 0
    modifies buf
    ensures buf[..n] == BSFour.Swapped(old(buf[..n])) && buf[n..] == old(buf[n..])
  {
    hide ByteSwapper.Swapped;
    ghost var s := buf[..];
    var i := 0;
    SwapNothing(BSFour, s[..0]);
    while i < n
      invariant 0 <= i <= n && i % 4 == 0
      invariant buf[..i] == BSFour.Swapped(s[..i]) && buf[i..] == s[i..]
    {
      assert buf[i] == buf[i..][0] == s[i] && buf[i + 1] == buf[i..][1] == s[i + 1];
      assert buf[i + 2] == buf[i..][2] == s[i + 2] && buf[i + 3] == buf[i..][3] == s[i + 3];
      var x := LittleEndian32(buf[i..i + 4]);
      BigEndian32RoundTrip(0, [buf[i + 3], buf[i + 2], buf[i + 1], buf[i]]);
      SwapMore(BSFour, s, i, [s[i + 3], s[i + 2], s[i + 1], s[i]]);
      Write(buf, i, PutBigEndian32(x));
      i := i + 4;
    }
  }

  lemma SwapNothing(bs: ByteSwapper, s: seq<u8>)
    requires s == []
    ensures bs.Fits(|s|) && bs.Swapped(s) == []
  {
  }

  /** One more group. */
  lemma SwapMore(bs: ByteSwapper, s: seq<u8>, i: nat, group: seq<u8>)
    requires bs.Fits(i) && i + bs.Group() <= |s| && |group| == bs.Group()
    requires forall k :: 0 <= k < bs.Group() ==> group[k] == s[i + bs.Group() - 1 - k]
    ensures bs.Fits(i + bs.Group())
    ensures bs.Swapped(s[..i + bs.Group()]) == bs.Swapped(s[..i]) + group
  {
    var g := s[i..i + bs.Group()];
    assert s[..i + bs.Group()] == s[..i] + g;
    SwapConcat(bs, s[..i], g);
    assert bs.Swapped(g) == group;
  }

  /** Writes bytes at position at of a buffer. */
  method Write(buf: array<u8>, at: nat, bytes: seq<u8>)
    requires at + |bytes| <= buf.Length
    modifies buf
    ensures buf[..at] == old(buf[..at]) && buf[at..at + |bytes|] == bytes
    ensures buf[at + |bytes|..] == old(buf[at + |bytes|..])
  {
    for i := 0 to |bytes|
      invariant forall k :: 0 <= k < buf.Length ==> buf[k] == if at <= k < at + i then bytes[k - at] else old(buf[k])
    {
      buf[at + i] := bytes[i];
    }
  }

  // ---------------------------------------------------------------- laws

  /** Swapping twice gives the image back. */
  lemma SwapInvolution(bs: ByteSwapper, s: seq<u8>)
    requires bs.Fits(|s|)
    ensures bs.Swapped(bs.Swapped(s)) == s
  {
    hide ByteSwapper.Mirror, ByteSwapper.Fits;
    forall i | 0 <= i < |s|
      ensures bs.Mirror(i) < |s| && bs.Mirror(bs.Mirror(i)) == i
    {
      MirrorShifts(bs, |s|, i);
      MirrorBack(bs, i);
    }
  }

  lemma MirrorBack(bs: ByteSwapper, i: nat)
    ensures bs.Mirror(bs.Mirror(i)) == i
  {
    match bs {
      case BSNone =>
      case BSTwo =>
        Remainders(i, 2);
        QuotientUnique(bs.Mirror(i), 2, i / 2, 1 - i % 2);
      case BSFour =>
        Remainders(i, 4);
        QuotientUnique(bs.Mirror(i), 4, i / 4, 3 - i % 4);
    }
  }

  /** Swapping chunk by chunk is swapping the whole, if the chunks are whole groups. */
  lemma SwapConcat(bs: ByteSwapper, a: seq<u8>, b: seq<u8>)
    requires bs.Fits(|a|) && bs.Fits(|b|)
    ensures bs.Fits(|a + b|) && bs.Swapped(a + b) == bs.Swapped(a) + bs.Swapped(b)
  {
    hide ByteSwapper.Mirror, ByteSwapper.Fits, ByteSwapper.Swapped;
    FitsSum(bs, |a|, |b|);
    forall i | 0 <= i < |a + b|
      ensures bs.Swapped(a + b)[i] == (bs.Swapped(a) + bs.Swapped(b))[i]
    {
      SwapConcatAt(bs, a, b, i);
    }
    assert bs.Swapped(a + b) == bs.Swapped(a) + bs.Swapped(b);
  }

  lemma SwapConcatAt(bs: ByteSwapper, a: seq<u8>, b: seq<u8>, i: nat)
    requires bs.Fits(|a|) && bs.Fits(|b|) && bs.Fits(|a + b|) && i < |a + b|
    ensures bs.Swapped(a + b)[i] == (bs.Swapped(a) + bs.Swapped(b))[i]
  {
    hide ByteSwapper.Mirror, ByteSwapper.Fits;
    MirrorShifts(bs, |a|, i);
    if i >= |a| {
      MirrorShifts(bs, |b|, i - |a|);
    }
  }

  lemma FitsSum(bs: ByteSwapper, m: nat, n: nat)
    requires bs.Fits(m) && bs.Fits(n)
    ensures bs.Fits(m + n)
  {
    match bs {
      case BSNone =>
      case BSTwo =>
        Remainders(m, 2);
        Remainders(n, 2);
        QuotientUnique(m + n, 2, m / 2 + n / 2, 0);
      case BSFour =>
        Remainders(m, 4);
        Remainders(n, 4);
        QuotientUnique(m + n, 4, m / 4 + n / 4, 0);
    }
  }

  /** Mirroring stays within whole groups. */
  lemma MirrorShifts(bs: ByteSwapper, n: nat, i: nat)
    requires bs.Fits(n)
    ensures i < n ==> bs.Mirror(i) < n
    ensures i >= n ==> bs.Mirror(i) == n + bs.Mirror(i - n)
  {
    match bs {
      case BSNone =>
      case BSTwo =>
        Remainders(i, 2);
        Remainders(n, 2);
        if i >= n {
          QuotientUnique(i - n, 2, i / 2 - n / 2, i % 2);
        }
      case BSFour =>
        Remainders(i, 4);
        Remainders(n, 4);
        if i >= n {
          QuotientUnique(i - n, 4, i / 4 - n / 4, i % 4);
        }
    }
  }

  lemma FitsGap(bs: ByteSwapper, m: nat, n: nat)
    requires bs.Fits(m) && bs.Fits(n) && m <= n
    ensures bs.Fits(n - m)
  {
    match bs {
      case BSNone =>
      case BSTwo =>
        Gap(m, n, 2);
      case BSFour =>
        Gap(m, n, 4);
    }
  }

  lemma Gap(m: nat, n: nat, g: nat)
    requires g > 0 && m % g == 0 && n % g == 0 && m <= n
    ensures (n - m) % g == 0
  {
    Remainders(m, g);
    Remainders(n, g);
    var a, b := m / g, n / g;
    assert n - m == (b - a) * g;
    if b < a {
      MulSign(b - a, g);
    }
    QuotientUnique(n - m, g, b - a, 0);
  }

  lemma Remainders(i: nat, m: nat)
    requires m > 0
    ensures i == i / m * m + i % m && i % m < m
  {
  }

  // ---------------------------------------------------------------- detection

  const MAGIC: seq<u8> := [0x80, 0x37, 0x12, 0x40]

  datatype Detected = Format(bs: ByteSwapper) | Failed(error: DriverError)

  function ByteSwapDetect(header: seq<u8>): Detected {
    if |header| >= 4 then
      var word := BigEndian32(header[..4]);
      if word == 0x80371240 then Format(BSNone)
      else if word == 0x37804012 then Format(BSTwo)
      else if word == 0x40123780 then Format(BSFour)
      else Format(BSNone)
    else Failed(ErrCannotDetectByteswap)
  }

  /** The format of an image that was byteswapped in any way is detected, so that swapping it again restores
      the image. */
  lemma DetectUndoes(bs: ByteSwapper, image: seq<u8>)
    requires |image| >= 4 && bs.Fits(|image|) && image[..4] == MAGIC
    ensures ByteSwapDetect(bs.Swapped(image)) == Format(bs)
    ensures bs.Swapped(bs.Swapped(image)) == image
  {
    hide ByteSwapper.Swapped, ByteSwapper.Fits, BigEndian32, PutBigEndian32;
    FourFits(bs, |image|);
    SwapInvolution(bs, image);
    SwapConcat(bs, MAGIC, image[4..]);
    assert MAGIC + image[4..] == image;
    assert bs.Swapped(image)[..4] == bs.Swapped(MAGIC);
    MagicForms();
  }

  lemma FourFits(bs: ByteSwapper, n: nat)
    requires n >= 4 && bs.Fits(n)
    ensures bs.Fits(4) && bs.Fits(n - 4)
  {
    assert (n - 4) % 2 == n % 2 && (n - 4) % 4 == n % 4;
  }

  /** Headers of less than four bytes are refused, and of others the first four bytes decide. Whatever is
      detected, swapping them accordingly yields the magic number exactly when they are one of its three forms;
      anything else is taken not to be swapped. */
  lemma DetectSound(header: seq<u8>)
    ensures var d := ByteSwapDetect(header);
            && (d.Failed? <==> |header| < 4)
            && (d.Failed? ==> d.error == ErrCannotDetectByteswap)
            && (d.Format? ==>
                  && d.bs.Fits(4)
                  && (d.bs.Swapped(header[..4]) == MAGIC <==>
                      exists bs: ByteSwapper :: header[..4] == bs.Swapped(MAGIC))
                  && (d.bs.Swapped(header[..4]) != MAGIC ==> d.bs == BSNone))
  {
    if |header| >= 4 {
      FirstFour(header, header[..4]);
    }
  }

  lemma FirstFour(header: seq<u8>, four: seq<u8>)
    requires |header| >= 4 && four == header[..4]
    ensures var d := ByteSwapDetect(header);
            && d.Format? && d.bs.Fits(4)
            && (d.bs.Swapped(four) == MAGIC <==> exists bs: ByteSwapper :: four == bs.Swapped(MAGIC))
            && (d.bs.Swapped(four) != MAGIC ==> d.bs == BSNone)
  {
    hide ByteSwapper.Swapped, BigEndian32, PutBigEndian32;
    MagicForms();
    BigEndian32RoundTrip(0, four);
    var d := ByteSwapDetect(header).bs;
    SwapInvolution(d, four);
    SwapInvolution(d, MAGIC);
    assert d.Swapped(four) == MAGIC ==> four == d.Swapped(MAGIC);
    forall bs: ByteSwapper | four == bs.Swapped(MAGIC)
      ensures d == bs
    {
    }
  }

  /** The magic number in its three forms, and as read by the detection. */
  lemma MagicForms()
    ensures BSNone.Swapped(MAGIC) == PutBigEndian32(0x80371240) && BigEndian32(BSNone.Swapped(MAGIC)) == 0x80371240
    ensures BSTwo.Swapped(MAGIC) == PutBigEndian32(0x37804012) && BigEndian32(BSTwo.Swapped(MAGIC)) == 0x37804012
    ensures BSFour.Swapped(MAGIC) == PutBigEndian32(0x40123780) && BigEndian32(BSFour.Swapped(MAGIC)) == 0x40123780
  {
    assert PutBigEndian32(0x80371240) == BSNone.Swapped(MAGIC);
    assert PutBigEndian32(0x37804012) == BSTwo.Swapped(MAGIC);
    assert PutBigEndian32(0x40123780) == BSFour.Swapped(MAGIC);
  }

  // ---------------------------------------------------------------- streams

  /** How a read of n bytes ends when so many are left. */
  function Ending(n: nat, left: nat): DriverError {
    if n <= left then Nil else if left == 0 then ErrEOF else ErrUnexpectedEOF
  }

  /** A reader that swaps what it reads. */
  class BsReader {
    const r: Reader
    const bs: ByteSwapper
    ghost var source: seq<u8>     // what the underlying reader held at first
    ghost var consumed: seq<u8>   // the part of it read so far
    ghost var delivered: seq<u8>  // what error-free reads have delivered

    ghost predicate Valid()
      reads this, r
    {
      source == consumed + r.rest
    }

    /** The bytes delivered are the swapped prefix consumed: so as long as no read has failed, whatever the sizes
        of the buffers were. */
    ghost predicate InStep()
      reads this
    {
      bs.Fits(|consumed|) && delivered == bs.Swapped(consumed)
    }

    constructor (r: Reader, bs: ByteSwapper)
      ensures Valid() && InStep() && this.r == r && this.bs == bs && source == r.rest && delivered == []
    {
      this.r, this.bs := r, bs;
      source, consumed, delivered := r.rest, [], [];
    }

    method SwapPrefix(buf: array<u8>, n: nat, ghost chunk: seq<u8>) returns (err: DriverError)
      requires n <= buf.Length && bs.Fits(n) && buf[..n] == chunk
      modifies buf
      ensures err == Nil && buf[..n] == bs.Swapped(chunk)
      ensures forall i :: n <= i < buf.Length ==> buf[i] == old(buf[i])
    {
      err := bs.ByteSwap(buf, n);
      assert forall i :: n <= i < buf.Length ==> buf[i] == buf[n..][i - n];
    }

    /** Reads n bytes as they are. */
    method Take(buf: array<u8>, n: nat) returns (read: nat, err: DriverError)
      requires Valid() && n <= buf.Length
      modifies this, r, buf
      ensures Valid() && source == old(source) && delivered == old(delivered)
      ensures read <= n && read <= |old(r.rest)| && r.rest == old(r.rest)[read..]
      ensures buf[..read] == old(r.rest)[..read] && consumed == old(consumed) + buf[..read]
      ensures err == Nil ==> read == n
      ensures (err == ErrIo && !r.reliable) || err == Ending(n, |old(r.rest)|)
      ensures err == ErrEOF || err == ErrUnexpectedEOF ==> r.rest == []
      ensures forall i :: read <= i < buf.Length ==> buf[i] == old(buf[i])
    {
      read, err := r.ReadFull(buf, n);
      assert old(r.rest) == buf[..read] + r.rest;
      consumed := consumed + buf[..read];
    }

    /** Fills whole groups of the buffer. With an error the bytes read are raw. */
    method Read(buf: array<u8>) returns (n: nat, err: DriverError)
      requires Valid()
      modifies this, r, buf
      ensures n <= buf.Length && n <= |old(r.rest)| && r.rest == old(r.rest)[n..]
      ensures source == old(source) && consumed == old(consumed) + old(r.rest)[..n]
      ensures err == Nil ==> n == bs.WholeGroups(buf.Length)
      ensures (err == ErrIo && !r.reliable) || err == Ending(bs.WholeGroups(buf.Length), |old(r.rest)|)
      ensures err == Nil ==> buf[..n] == bs.Swapped(old(r.rest)[..n])
      ensures Valid()
      ensures err == Nil ==> delivered == old(delivered) + buf[..n] && (old(InStep()) ==> InStep())
      ensures err != Nil ==> buf[..n] == old(r.rest)[..n] && delivered == old(delivered)
      ensures err == ErrEOF || err == ErrUnexpectedEOF ==> r.rest == []
      ensures forall i :: n <= i < buf.Length ==> buf[i] == old(buf[i])
    {
      hide ByteSwapper.Swapped;
      n := buf.Length;
      if bs != BSNone {
        n := bs.WholeGroups(n);
      }
      var read;
      read, err := Take(buf, n);
      if err != Nil {
        return read, err;
      }
      ghost var chunk := buf[..n];
      if old(InStep()) {
        assert bs.Fits(|consumed|) && bs.Swapped(consumed) == old(delivered) + bs.Swapped(chunk) by {
          FitsSum(bs, |old(consumed)|, |chunk|);
          SwapConcat(bs, old(consumed), chunk);
        }
      }
      err := SwapPrefix(buf, n, chunk);
      delivered := delivered + buf[..n];
    }
  }

  /** A writer that swaps what it is given, in place, and appends it to a sink that may fail. */
  class BsWriter {
    const bs: ByteSwapper
    const reliable: bool   // the sink does not fail
    var out: seq<u8>

    constructor (bs: ByteSwapper, reliable: bool)
      ensures this.bs == bs && this.reliable == reliable && out == []
    {
      this.bs, this.reliable, out := bs, reliable, [];
    }

    method Write(buf: array<u8>, n: nat) returns (written: nat, err: DriverError)
      requires n <= buf.Length
      modifies this, buf
      ensures !bs.Fits(n) ==> written == 0 && err == ErrInvalidBufferForByteswap && out == old(out)
      ensures err == Nil ==> bs.Fits(n) && written == n && out == old(out) + bs.Swapped(old(buf[..n]))
      ensures err != Nil && bs.Fits(n) ==>
                err == ErrIo && !reliable && written < n && out == old(out) + bs.Swapped(old(buf[..n]))[..written]
    {
      err := bs.ByteSwap(buf, n);
      if err != Nil {
        return 0, err;
      }
      written := n;
      var stop: int := *;
      if !reliable && 0 <= stop < n {
        written, err := stop, ErrIo;
      }
      out := out + buf[..written];
    }
  }
}
