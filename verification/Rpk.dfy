/** RPK containers: trees of length-prefixed, checksummed, optionally compressed blobs. The checksum, the
    decompressor and the metadata format are parameters. */
module Rpk {
  import opened Bits
  import opened Errors
  import opened Wrappers
  import opened Streams
  import opened Endian

  const HEAD_SIZE := 20
  const EOB: seq<u8> := [0x45, 0x4f, 0x42, 0x00]  // "EOB\0"

  const CHAR_P: u8 := 0x50
  const CHAR_0: u8 := 0x30
  const CHAR_C: u8 := 0x43
  const CHAR_U: u8 := 0x55
  const CHAR_F: u8 := 0x46
  const CHAR_M: u8 := 0x4d
  const CHAR_A: u8 := 0x41

  datatype Head = Head(magic0: u8, magic1: u8, version: u8, compress: u8,
                       children: u32, length: u32, ulength: u32, crc: u32)

  datatype Blob = Blob(head: Head, body: seq<u8>, children: seq<Blob>)

  datatype Unpacked = Fails | Gives(bytes: seq<u8>)

  /** The functions the parser relies on: the checksum, and decompression into a buffer of a given size. */
  datatype Codec = Codec(crc: seq<u8> -> u32, lzf: (seq<u8>, nat) -> Unpacked)

  /** A value parsed from the front of the input, and the input left. */
  datatype Parsed<T> = Parsed(value: T, rest: seq<u8>) | Bad(error: Error)

  // ---------------------------------------------------------------- heads

  function ParseHead(b: seq<u8>): Head
    requires |b| == HEAD_SIZE
  {
    Head(b[0], b[1], b[2], b[3],
         LittleEndian32(b[4..8]), LittleEndian32(b[8..12]), LittleEndian32(b[12..16]), LittleEndian32(b[16..20]))
  }

  function PrintHead(h: Head): (b: seq<u8>)
    ensures |b| == HEAD_SIZE
  {
    [h.magic0, h.magic1, h.version, h.compress]
    + PutLittleEndian32(h.children) + PutLittleEndian32(h.length)
    + PutLittleEndian32(h.ulength) + PutLittleEndian32(h.crc)
  }

  lemma HeadRoundTrip(h: Head, b: seq<u8>)
    requires |b| == HEAD_SIZE
    ensures ParseHead(PrintHead(h)) == h
    ensures PrintHead(ParseHead(b)) == b
  {
    var p := PrintHead(h);
    assert p[4..8] == PutLittleEndian32(h.children) && p[8..12] == PutLittleEndian32(h.length);
    assert p[12..16] == PutLittleEndian32(h.ulength) && p[16..20] == PutLittleEndian32(h.crc);
    LittleEndian32RoundTrip(h.children, b[4..8]);
    LittleEndian32RoundTrip(h.length, b[8..12]);
    LittleEndian32RoundTrip(h.ulength, b[12..16]);
    LittleEndian32RoundTrip(h.crc, b[16..20]);
  }

  predicate ValidHead(h: Head) {
    h.magic0 == CHAR_P && h.version == CHAR_0 && (h.compress == CHAR_C || h.compress == CHAR_U)
  }

  // ---------------------------------------------------------------- the format

  /** Why n bytes cannot be read from s. */
  function Short(s: seq<u8>): Error {
    if s == [] then ErrEOF else ErrUnexpectedEOF
  }

  /** The body of a blob, decompressed if required. */
  function Decode(c: Codec, h: Head, body: seq<u8>): Result<seq<u8>> {
    if h.compress != CHAR_C then Ok(body)
    else match c.lzf(body, h.ulength)
      case Fails => Err(ErrDecompress)
      case Gives(bytes) => if |bytes| == h.ulength then Ok(bytes) else Err(ErrInvalidULength)
  }

  /** One blob from the front of s, with blobs nested at most `depth` levels below it. */
  function ParseBlob(c: Codec, depth: nat, s: seq<u8>): Parsed<Blob>
    decreases depth, 0
  {
    if |s| < HEAD_SIZE then Bad(Short(s))
    else
      var h, r := ParseHead(s[..HEAD_SIZE]), s[HEAD_SIZE..];
      if !ValidHead(h) then Bad(ErrInvalidHead)
      else if |r| < h.length then Bad(Short(r))
      else if c.crc(r[..h.length]) != h.crc then Bad(ErrInvalidCrc)
      else match Decode(c, h, r[..h.length])
        case Err(e) => Bad(e)
        case Ok(inner) =>
          match ParseChildren(c, depth, h.children, inner)
          case Bad(e) => Bad(e)
          case Parsed(children, body) =>
            var t := r[h.length..];
            if |t| < |EOB| then Bad(Short(t))
            else if t[..|EOB|] != EOB then Bad(ErrInvalidEndOfBlob)
            else Parsed(Blob(h, body, children), t[|EOB|..])
  }

  /** The n children in the inner bytes of a blob. */
  function ParseChildren(c: Codec, depth: nat, n: nat, s: seq<u8>): Parsed<seq<Blob>>
    decreases depth, 0, n
  {
    if n == 0 then Parsed([], s) else if depth == 0 then Bad(ErrNesting) else ParseMany(c, depth - 1, n, s)
  }

  /** n blobs, one after the other. */
  function ParseMany(c: Codec, depth: nat, n: nat, s: seq<u8>): Parsed<seq<Blob>>
    decreases depth, 1, n
  {
    if n == 0 then Parsed([], s)
    else match ParseBlob(c, depth, s)
      case Bad(e) => Bad(e)
      case Parsed(b, r) => Prepend([b], ParseMany(c, depth, n - 1, r))
  }

  function Prepend(bs: seq<Blob>, p: Parsed<seq<Blob>>): Parsed<seq<Blob>> {
    match p
    case Bad(e) => Bad(e)
    case Parsed(cs, r) => Parsed(bs + cs, r)
  }

  lemma PrependNone(p: Parsed<seq<Blob>>)
    ensures Prepend([], p) == p
  {
    if p.Parsed? {
      assert [] + p.value == p.value;
    }
  }

  lemma PrependMore(bs: seq<Blob>, b: Blob, p: Parsed<seq<Blob>>)
    ensures Prepend(bs + [b], p) == Prepend(bs, Prepend([b], p))
  {
    if p.Parsed? {
      assert bs + [b] + p.value == bs + ([b] + p.value);
    }
  }

  // ---------------------------------------------------------------- the printer

  /** Levels of blobs below b. */
  function Height(b: Blob): nat
    decreases b, 1
  {
    if b.children == [] then 0 else 1 + MaxHeight(b.children)
  }

  function MaxHeight(bs: seq<Blob>): nat
    decreases bs, 0
  {
    if bs == [] then 0 else if Height(bs[0]) >= MaxHeight(bs[1..]) then Height(bs[0]) else MaxHeight(bs[1..])
  }

  /** The bytes between the head of an uncompressed blob and its end marker. */
  function Inner(b: Blob): seq<u8>
    decreases b, 1
  {
    PrintAll(b.children) + b.body
  }

  function Print(b: Blob): seq<u8>
    decreases b, 2
  {
    PrintHead(b.head) + Inner(b) + EOB
  }

  function PrintAll(bs: seq<Blob>): seq<u8>
    decreases bs, 0
  {
    if bs == [] then [] else Print(bs[0]) + PrintAll(bs[1..])
  }

  /** An uncompressed tree whose heads tell the truth. */
  predicate Proper(c: Codec, b: Blob)
    decreases b, 1
  {
    && ValidHead(b.head) && b.head.compress == CHAR_U
    && b.head.children == |b.children| && b.head.length == |Inner(b)| && b.head.crc == c.crc(Inner(b))
    && AllProper(c, b.children)
  }

  predicate AllProper(c: Codec, bs: seq<Blob>)
    decreases bs, 0
  {
    bs == [] || (Proper(c, bs[0]) && AllProper(c, bs[1..]))
  }

  /** No blob of the tree is compressed. */
  predicate Plain(b: Blob)
    decreases b, 1
  {
    b.head.compress != CHAR_C && AllPlain(b.children)
  }

  predicate AllPlain(bs: seq<Blob>)
    decreases bs, 0
  {
    bs == [] || (Plain(bs[0]) && AllPlain(bs[1..]))
  }

  // ---------------------------------------------------------------- encodings

  /** The bytes s encode the tree b: a head, the stored bytes, which have the length and the checksum the head says,
      and the end marker. If the head says so, the stored bytes decompress to the inner ones. */
  ghost predicate Encodes(c: Codec, s: seq<u8>, b: Blob)
    decreases b, 2
  {
    && |s| == HEAD_SIZE + b.head.length + |EOB|
    && var z := s[HEAD_SIZE..HEAD_SIZE + b.head.length];
    && s == PrintHead(b.head) + z + EOB
    && ValidHead(b.head) && c.crc(z) == b.head.crc && b.head.children == |b.children|
    && (if b.head.compress == CHAR_C then
          exists inner ::
            c.lzf(z, b.head.ulength) == Gives(inner) && |inner| == b.head.ulength && EncodesInner(c, inner, b)
        else EncodesInner(c, z, b))
  }

  /** The encodings of the children, then the body. */
  ghost predicate EncodesInner(c: Codec, inner: seq<u8>, b: Blob)
    decreases b, 1
  {
    && |b.body| <= |inner|
    && inner[|inner| - |b.body|..] == b.body
    && EncodesAll(c, inner[..|inner| - |b.body|], b.children)
  }

  ghost predicate EncodesAll(c: Codec, s: seq<u8>, bs: seq<Blob>)
    decreases bs, 0
  {
    if bs == [] then s == []
    else exists k :: 0 <= k <= |s| && Encodes(c, s[..k], bs[0]) && EncodesAll(c, s[k..], bs[1..])
  }

  /** Parsing an encoding gives the tree, and leaves the bytes that follow. */
  lemma {:induction false} EncodesParses(c: Codec, depth: nat, s: seq<u8>, b: Blob, rest: seq<u8>)
    requires Encodes(c, s, b) && Height(b) <= depth
    ensures ParseBlob(c, depth, s + rest) == Parsed(b, rest)
    decreases b, 1
  {
    hide ParseMany, PrintHead, ParseHead, EncodesAll;
    var n := b.head.length;
    var z, t := s[HEAD_SIZE..HEAD_SIZE + n], s + rest;
    assert t[..HEAD_SIZE] == PrintHead(b.head) && t[HEAD_SIZE..] == z + (EOB + rest);
    assert t[HEAD_SIZE..][..n] == z && t[HEAD_SIZE..][n..] == EOB + rest;
    assert (EOB + rest)[..|EOB|] == EOB && (EOB + rest)[|EOB|..] == rest;
    HeadRoundTrip(b.head, t[..HEAD_SIZE]);
    var inner: seq<u8> := z;
    if b.head.compress == CHAR_C {
      inner :| c.lzf(z, b.head.ulength) == Gives(inner) && |inner| == b.head.ulength && EncodesInner(c, inner, b);
    }
    assert Decode(c, b.head, z) == Ok(inner);
    InnerParses(c, depth, inner, b);
  }

  lemma {:induction false} InnerParses(c: Codec, depth: nat, inner: seq<u8>, b: Blob)
    requires EncodesInner(c, inner, b) && Height(b) <= depth
    ensures ParseChildren(c, depth, |b.children|, inner) == Parsed(b.children, b.body)
    decreases b, 0
  {
    hide ParseMany;
    var blobs := inner[..|inner| - |b.body|];
    assert inner == blobs + b.body;
    if b.children != [] {
      AllParse(c, depth - 1, blobs, b.children, b.body);
    }
  }

  lemma {:induction false} AllParse(c: Codec, depth: nat, s: seq<u8>, bs: seq<Blob>, rest: seq<u8>)
    requires EncodesAll(c, s, bs) && MaxHeight(bs) <= depth
    ensures ParseMany(c, depth, |bs|, s + rest) == Parsed(bs, rest)
    decreases bs, 0
  {
    hide ParseBlob, Encodes;
    if bs != [] {
      var k :| 0 <= k <= |s| && Encodes(c, s[..k], bs[0]) && EncodesAll(c, s[k..], bs[1..]);
      assert s + rest == s[..k] + (s[k..] + rest);
      EncodesParses(c, depth, s[..k], bs[0], s[k..] + rest);
      AllParse(c, depth, s[k..], bs[1..], rest);
      assert [bs[0]] + bs[1..] == bs;
    } else {
      assert s + rest == rest;
    }
  }

  /** A successful parse consumed exactly an encoding of its result. */
  lemma {:induction false} ParseEncodes(c: Codec, depth: nat, s: seq<u8>)
    requires ParseBlob(c, depth, s).Parsed?
    ensures var p := ParseBlob(c, depth, s);
            && |p.rest| <= |s| && s[|s| - |p.rest|..] == p.rest
            && Encodes(c, s[..|s| - |p.rest|], p.value) && Height(p.value) <= depth
    decreases depth, 0
  {
    hide ParseBlob, ParseChildren, ParseHead, PrintHead, EncodesInner, Decode, ValidHead;
    var p := ParseBlob(c, depth, s);
    ParsedParts(c, depth, s);
    var b, h, r := p.value, p.value.head, s[HEAD_SIZE..];
    var z := r[..h.length];
    var inner := Decode(c, h, z).value;
    HeadRoundTrip(h, s[..HEAD_SIZE]);
    ParseChildrenEncodes(c, depth, inner, b);
    DecodeStores(c, h, z);
    var e := s[..|s| - |p.rest|];
    assert e == s[..HEAD_SIZE] + z + EOB by {
      Pieces(s, HEAD_SIZE, h.length, |EOB|);
    }
    assert e[HEAD_SIZE..HEAD_SIZE + h.length] == z;
  }

  /** What a successful parse has checked. */
  lemma ParsedParts(c: Codec, depth: nat, s: seq<u8>)
    requires ParseBlob(c, depth, s).Parsed?
    ensures var p := ParseBlob(c, depth, s);
            var b, h := p.value, p.value.head;
            && |s| >= HEAD_SIZE && ParseHead(s[..HEAD_SIZE]) == h && ValidHead(h)
            && var r := s[HEAD_SIZE..];
            && |r| >= h.length
            && var z, t := r[..h.length], r[h.length..];
            && c.crc(z) == h.crc && Decode(c, h, z).Ok?
            && ParseChildren(c, depth, h.children, Decode(c, h, z).value) == Parsed(b.children, b.body)
            && |t| >= |EOB| && t[..|EOB|] == EOB && p.rest == t[|EOB|..]
  {
    hide ParseChildren, ParseHead, Decode, ValidHead;
  }

  lemma DecodeStores(c: Codec, h: Head, z: seq<u8>)
    requires Decode(c, h, z).Ok?
    ensures var inner := Decode(c, h, z).value;
            if h.compress == CHAR_C then c.lzf(z, h.ulength) == Gives(inner) && |inner| == h.ulength else inner == z
  {
  }

  lemma Pieces(s: seq<u8>, a: nat, b: nat, c: nat)
    requires a + b + c <= |s|
    ensures s[..a + b + c] == s[..a] + s[a..][..b] + s[a..][b..][..c] && s[a + b + c..] == s[a..][b..][c..]
  {
  }

  lemma {:induction false} ParseChildrenEncodes(c: Codec, depth: nat, s: seq<u8>, b: Blob)
    requires ParseChildren(c, depth, b.head.children, s) == Parsed(b.children, b.body)
    ensures EncodesInner(c, s, b) && b.head.children == |b.children| && Height(b) <= depth
    decreases depth, 0, b.head.children
  {
    hide ParseMany, EncodesAll;
    if b.head.children > 0 {
      ParseManyEncodes(c, depth - 1, b.head.children, s);
    } else {
      NoneEncoded(c);
      assert s[..0] == [];
    }
  }

  lemma NoneEncoded(c: Codec)
    ensures EncodesAll(c, [], [])
  {
  }

  lemma {:induction false} ParseManyEncodes(c: Codec, depth: nat, n: nat, s: seq<u8>)
    requires ParseMany(c, depth, n, s).Parsed?
    ensures var p := ParseMany(c, depth, n, s);
            && |p.value| == n && MaxHeight(p.value) <= depth
            && |p.rest| <= |s| && s[|s| - |p.rest|..] == p.rest && EncodesAll(c, s[..|s| - |p.rest|], p.value)
    decreases depth, 1, n
  {
    hide ParseBlob, Encodes, EncodesAll;
    if n > 0 {
      var first := ParseBlob(c, depth, s);
      var others := ParseMany(c, depth, n - 1, first.rest);
      assert ParseMany(c, depth, n, s) == Parsed([first.value] + others.value, others.rest);
      ParseEncodes(c, depth, s);
      ParseManyEncodes(c, depth, n - 1, first.rest);
      EncodesMore(c, s, first.value, |s| - |first.rest|, others.value, |s| - |others.rest|);
      OneMoreBlob(c, first.value, others.value);
    } else {
      NoneEncoded(c);
      assert s[..0] == [];
    }
  }

  lemma EncodesMore(c: Codec, s: seq<u8>, b: Blob, k: nat, bs: seq<Blob>, n: nat)
    requires k <= n <= |s| && Encodes(c, s[..k], b) && EncodesAll(c, s[k..][..n - k], bs)
    ensures EncodesAll(c, s[..n], [b] + bs)
  {
    hide Encodes;
    assert s[..n][..k] == s[..k] && s[..n][k..] == s[k..][..n - k] && ([b] + bs)[1..] == bs;
  }

  /** Stored bytes with another checksum are refused, compressed or not, before anything else is looked at; so is
      what does not decompress, or to another length, and a wrong end marker. */
  lemma Refusals(c: Codec, depth: nat, h: Head, z: seq<u8>, rest: seq<u8>)
    requires ValidHead(h) && |z| == h.length
    ensures var p := ParseBlob(c, depth, PrintHead(h) + z + rest);
            && (c.crc(z) != h.crc ==> p == Bad(ErrInvalidCrc))
            && (c.crc(z) == h.crc && h.compress == CHAR_C ==>
                  && (c.lzf(z, h.ulength) == Fails ==> p == Bad(ErrDecompress))
                  && (forall inner :: c.lzf(z, h.ulength) == Gives(inner) && |inner| != h.ulength ==>
                        p == Bad(ErrInvalidULength)))
            && (p.Parsed? ==> c.crc(z) == h.crc && EOB <= rest && p.rest == rest[|EOB|..])
  {
    hide ParseChildren, PrintHead, ParseHead;
    var s := PrintHead(h) + z + rest;
    assert s[..HEAD_SIZE] == PrintHead(h) && s[HEAD_SIZE..] == z + rest;
    assert s[HEAD_SIZE..][..h.length] == z && s[HEAD_SIZE..][h.length..] == rest;
    HeadRoundTrip(h, s[..HEAD_SIZE]);
  }

  // ---------------------------------------------------------------- printing and parsing

  /** Printing, then parsing, gives the tree back and leaves the bytes that follow. */
  lemma PrintParses(c: Codec, depth: nat, b: Blob, rest: seq<u8>)
    requires Proper(c, b) && Height(b) <= depth
    ensures ParseBlob(c, depth, Print(b) + rest) == Parsed(b, rest)
  {
    hide Print, Encodes, ParseBlob;
    PrintEncodes(c, b);
    EncodesParses(c, depth, Print(b), b, rest);
  }

  /** What is printed is an encoding. */
  lemma {:induction false} PrintEncodes(c: Codec, b: Blob)
    requires Proper(c, b)
    ensures Encodes(c, Print(b), b)
    decreases b, 1
  {
    hide PrintHead, EncodesAll;
    var inner := Inner(b);
    AllPrintEncodes(c, b.children);
    assert Print(b)[HEAD_SIZE..HEAD_SIZE + |inner|] == inner;
    assert inner[..|inner| - |b.body|] == PrintAll(b.children) && inner[|inner| - |b.body|..] == b.body;
  }

  lemma {:induction false} AllPrintEncodes(c: Codec, bs: seq<Blob>)
    requires AllProper(c, bs)
    ensures EncodesAll(c, PrintAll(bs), bs)
    decreases bs, 0
  {
    hide Encodes, Print;
    if bs != [] {
      var first, others := Print(bs[0]), PrintAll(bs[1..]);
      PrintEncodes(c, bs[0]);
      AllPrintEncodes(c, bs[1..]);
      assert (first + others)[..|first|] == first && (first + others)[|first|..] == others;
    }
  }

  /** A successful parse of an uncompressed tree consumed exactly what printing the tree gives. */
  lemma ParsePrints(c: Codec, depth: nat, s: seq<u8>)
    requires ParseBlob(c, depth, s).Parsed? && Plain(ParseBlob(c, depth, s).value)
    ensures var p := ParseBlob(c, depth, s);
            Proper(c, p.value) && Height(p.value) <= depth && s == Print(p.value) + p.rest
  {
    hide ParseBlob, Encodes, Proper, Plain, Print;
    var p := ParseBlob(c, depth, s);
    ParseEncodes(c, depth, s);
    PlainPrints(c, s[..|s| - |p.rest|], p.value);
  }

  /** An uncompressed tree has no other encoding than its print. */
  lemma {:induction false} PlainPrints(c: Codec, s: seq<u8>, b: Blob)
    requires Encodes(c, s, b) && Plain(b)
    ensures Proper(c, b) && s == Print(b)
    decreases b, 1
  {
    hide PrintHead, EncodesAll, PrintAll, AllProper, AllPlain;
    var z := s[HEAD_SIZE..HEAD_SIZE + b.head.length];
    var blobs := z[..|z| - |b.body|];
    assert z == blobs + b.body;
    AllPlainPrint(c, blobs, b.children);
  }

  lemma {:induction false} AllPlainPrint(c: Codec, s: seq<u8>, bs: seq<Blob>)
    requires EncodesAll(c, s, bs) && AllPlain(bs)
    ensures AllProper(c, bs) && s == PrintAll(bs)
    decreases bs, 0
  {
    hide Encodes, Print, Proper, Plain;
    if bs != [] {
      var k :| 0 <= k <= |s| && Encodes(c, s[..k], bs[0]) && EncodesAll(c, s[k..], bs[1..]);
      PlainPrints(c, s[..k], bs[0]);
      AllPlainPrint(c, s[k..], bs[1..]);
      assert s == s[..k] + s[k..];
    }
  }

  lemma OneMoreBlob(c: Codec, b: Blob, bs: seq<Blob>)
    ensures MaxHeight([b] + bs) == if Height(b) >= MaxHeight(bs) then Height(b) else MaxHeight(bs)
  {
    assert ([b] + bs)[1..] == bs;
  }

  // ---------------------------------------------------------------- sizes and nesting

  /** Each blob takes at least a head and an end marker, so that a blob's children fit its decoded body. */
  lemma {:induction false} BlobSize(c: Codec, depth: nat, s: seq<u8>)
    requires ParseBlob(c, depth, s).Parsed?
    ensures |ParseBlob(c, depth, s).rest| + HEAD_SIZE + |EOB| <= |s|
  {
  }

  lemma {:induction false} ManySize(c: Codec, depth: nat, n: nat, s: seq<u8>)
    requires ParseMany(c, depth, n, s).Parsed?
    ensures |ParseMany(c, depth, n, s).value| == n
    ensures |ParseMany(c, depth, n, s).rest| + 24 * n <= |s|
    decreases n
  {
    hide ParseBlob;
    if n > 0 {
      BlobSize(c, depth, s);
      ManySize(c, depth, n - 1, ParseBlob(c, depth, s).rest);
    }
  }

  /** On success the head's count of children is their number, and 24 times that is at most the length of the
      decoded body, compressed or not. */
  lemma ChildrenFit(c: Codec, depth: nat, s: seq<u8>)
    requires ParseBlob(c, depth, s).Parsed?
    ensures var b := ParseBlob(c, depth, s).value;
            && |s| >= HEAD_SIZE + b.head.length && |b.children| == b.head.children
            && var inner := Decode(c, b.head, s[HEAD_SIZE..][..b.head.length]);
            inner.Ok? && 24 * |b.children| + |b.body| <= |inner.value|
  {
    var b := ParseBlob(c, depth, s).value;
    var inner := Decode(c, b.head, s[HEAD_SIZE..][..b.head.length]).value;
    if b.head.children > 0 {
      ManySize(c, depth - 1, b.head.children, inner);
    }
  }

  /** A nesting bound that is not reached does not matter. */
  lemma {:induction false} DeeperBlob(c: Codec, depth: nat, more: nat, s: seq<u8>)
    requires depth <= more && ParseBlob(c, depth, s) != Bad(ErrNesting)
    ensures ParseBlob(c, more, s) == ParseBlob(c, depth, s)
    decreases depth, 0
  {
    hide ParseMany, ParseHead, ValidHead, Short, Decode;
    if |s| >= HEAD_SIZE {
      var h, r := ParseHead(s[..HEAD_SIZE]), s[HEAD_SIZE..];
      if |r| >= h.length {
        var inner := Decode(c, h, r[..h.length]);
        if inner.Ok? && h.children > 0 && depth > 0
           && ParseMany(c, depth - 1, h.children, inner.value) != Bad(ErrNesting) {
          DeeperMany(c, depth - 1, more - 1, h.children, inner.value);
        }
      }
    }
  }

  lemma {:induction false} DeeperMany(c: Codec, depth: nat, more: nat, n: nat, s: seq<u8>)
    requires depth <= more && ParseMany(c, depth, n, s) != Bad(ErrNesting)
    ensures ParseMany(c, more, n, s) == ParseMany(c, depth, n, s)
    decreases depth, 1, n
  {
    hide ParseBlob;
    if n > 0 {
      DeeperBlob(c, depth, more, s);
      var first := ParseBlob(c, depth, s);
      if first.Parsed? {
        DeeperMany(c, depth, more, n - 1, first.rest);
      }
    }
  }

  /** Decompression does not lengthen; so it is in particular when nothing can be decompressed. */
  ghost predicate NeverExpands(c: Codec) {
    forall body, size :: c.lzf(body, size).Gives? ==> |c.lzf(body, size).bytes| <= |body|
  }

  /** Without expansion the recursion is bounded by the input: each level takes a head off it. */
  lemma {:induction false} NestingBounded(c: Codec, depth: nat, s: seq<u8>)
    requires NeverExpands(c) && |s| < HEAD_SIZE * (depth + 1)
    ensures ParseBlob(c, depth, s) != Bad(ErrNesting)
    decreases depth, 0
  {
    if |s| >= HEAD_SIZE {
      var h, r := ParseHead(s[..HEAD_SIZE]), s[HEAD_SIZE..];
      if |r| >= h.length {
        var inner := Decode(c, h, r[..h.length]);
        if inner.Ok? && h.children > 0 && depth > 0 {
          ManyNestingBounded(c, depth - 1, h.children, inner.value);
        }
      }
    }
  }

  lemma {:induction false} ManyNestingBounded(c: Codec, depth: nat, n: nat, s: seq<u8>)
    requires NeverExpands(c) && |s| < HEAD_SIZE * (depth + 1)
    ensures ParseMany(c, depth, n, s) != Bad(ErrNesting)
    decreases depth, 1, n
  {
    hide ParseBlob;
    if n > 0 {
      NestingBounded(c, depth, s);
      if ParseBlob(c, depth, s).Parsed? {
        BlobSize(c, depth, s);
        ManyNestingBounded(c, depth, n - 1, ParseBlob(c, depth, s).rest);
      }
    }
  }

  /** A head that announces one child in a body to be decompressed. */
  const BOTTOMLESS: Head := Head(CHAR_P, CHAR_F, CHAR_0, CHAR_C, 1, 0, HEAD_SIZE, 0)

  /** Gives that head, whatever it is to decompress. */
  function Mirage(): Codec {
    Codec(_ => 0, (body, size) => Gives(PrintHead(BOTTOMLESS)))
  }

  /** A decompressor that lengthens its input may give the recursion no end: a head alone exceeds every bound. */
  lemma {:induction false} Bottomless(depth: nat)
    ensures ParseBlob(Mirage(), depth, PrintHead(BOTTOMLESS)) == Bad(ErrNesting)
    ensures !NeverExpands(Mirage())
  {
    hide PrintHead, ParseHead;
    var c, s := Mirage(), PrintHead(BOTTOMLESS);
    assert s[..HEAD_SIZE] == s && s[HEAD_SIZE..][..0] == [];
    HeadRoundTrip(BOTTOMLESS, s);
    assert c.lzf([], HEAD_SIZE) == Gives(s);
    if depth > 0 {
      Bottomless(depth - 1);
      assert ParseMany(c, depth - 1, 1, s) == Bad(ErrNesting);
    }
  }

  /** The same checksum, and a decompressor that refuses everything. */
  function Without(c: Codec): Codec {
    Codec(c.crc, (body, size) => Fails)
  }

  /** Input whose blobs are all uncompressed is parsed the same whatever the decompressor does; with
      NestingBounded, its length bounds the recursion. */
  lemma {:induction false} UncompressedBlob(c: Codec, depth: nat, s: seq<u8>)
    requires ParseBlob(Without(c), depth, s) != Bad(ErrDecompress)
    ensures ParseBlob(c, depth, s) == ParseBlob(Without(c), depth, s)
    decreases depth, 0
  {
    if |s| >= HEAD_SIZE {
      var h, r := ParseHead(s[..HEAD_SIZE]), s[HEAD_SIZE..];
      if ValidHead(h) && |r| >= h.length && c.crc(r[..h.length]) == h.crc && h.compress == CHAR_U
         && h.children > 0 && depth > 0 {
        UncompressedMany(c, depth - 1, h.children, r[..h.length]);
      }
    }
  }

  lemma {:induction false} UncompressedMany(c: Codec, depth: nat, n: nat, s: seq<u8>)
    requires ParseMany(Without(c), depth, n, s) != Bad(ErrDecompress)
    ensures ParseMany(c, depth, n, s) == ParseMany(Without(c), depth, n, s)
    decreases depth, 1, n
  {
    hide ParseBlob;
    if n > 0 {
      UncompressedBlob(c, depth, s);
      var first := ParseBlob(c, depth, s);
      if first.Parsed? {
        UncompressedMany(c, depth, n - 1, first.rest);
      }
    }
  }

  /** Hence at depth |s| the bound is never reached on such input. */
  lemma UncompressedBounded(c: Codec, s: seq<u8>)
    requires ParseBlob(Without(c), |s|, s) != Bad(ErrDecompress)
    ensures ParseBlob(c, |s|, s) != Bad(ErrNesting)
    ensures forall depth: nat :: depth >= |s| ==> ParseBlob(c, depth, s) == ParseBlob(c, |s|, s)
  {
    hide ParseBlob;
    UncompressedBlob(c, |s|, s);
    NestingBounded(Without(c), |s|, s);
    forall depth: nat | depth >= |s|
      ensures ParseBlob(c, depth, s) == ParseBlob(c, |s|, s)
    {
      DeeperBlob(c, |s|, depth, s);
    }
  }

  // ---------------------------------------------------------------- reading

  /** What a parse result means to a caller that wants the value. */
  function Outcome<T>(p: Parsed<T>): Result<T> {
    match p
    case Parsed(value, _) => Ok(value)
    case Bad(e) => Err(e)
  }

  /** Reads exactly n bytes. */
  method ReadBytes(r: Reader, n: nat) returns (bytes: seq<u8>, err: DriverError)
    modifies r
    ensures err == Nil ==> n <= |old(r.rest)| && bytes == old(r.rest)[..n] && r.rest == old(r.rest)[n..]
    ensures err != Nil ==> (n > |old(r.rest)| && err == Short(old(r.rest))) || (!r.reliable && err == ErrIo)
  {
    var buf := new u8[n];
    var read;
    read, err := r.ReadFull(buf, n);
    bytes := buf[..];
  }

  /** Reads one blob. Blobs may nest `depth` levels. */
  method NewBlobFromReader(c: Codec, depth: nat, r: Reader) returns (res: Result<Blob>)
    modifies r
    ensures res == Outcome(ParseBlob(c, depth, old(r.rest))) || (!r.reliable && res == Err(ErrIo))
    ensures res.Ok? ==> ParseBlob(c, depth, old(r.rest)) == Parsed(res.value, r.rest)
    decreases depth
  {
    hide ParseChildren, Decode, ParseHead, ValidHead, Short;
    var head, err := ReadBytes(r, HEAD_SIZE);
    if err != Nil {
      return Err(err);
    }
    var h := ParseHead(head);
    if !ValidHead(h) {
      return Err(ErrInvalidHead);
    }
    var body;
    body, err := ReadBytes(r, h.length);
    if err != Nil {
      return Err(err);
    }
    if c.crc(body) != h.crc {
      return Err(ErrInvalidCrc);
    }
    var inner := Decode(c, h, body);
    if inner.Err? {
      return Err(inner.error);
    }
    var parsed := ReadChildren(c, depth, h.children, inner.value);
    if parsed.Bad? {
      return Err(parsed.error);
    }
    var eob;
    eob, err := ReadBytes(r, |EOB|);
    if err != Nil {
      return Err(err);
    }
    if eob != EOB {
      return Err(ErrInvalidEndOfBlob);
    }
    res := Ok(Blob(h, parsed.rest, parsed.value));
  }

  /** The loop over the children, and the bytes left after them. */
  method ReadChildren(c: Codec, depth: nat, n: nat, inner: seq<u8>) returns (p: Parsed<seq<Blob>>)
    ensures p == ParseChildren(c, depth, n, inner)
    decreases depth, n
  {
    hide ParseBlob;
    if n > 0 && depth == 0 {
      return Bad(ErrNesting);
    }
    var bodyR := new Reader(inner, true);
    var children: seq<Blob> := [];
    if depth > 0 {
      PrependNone(ParseMany(c, depth - 1, n, inner));
    }
    for i := 0 to n
      invariant depth == 0 ==> bodyR.rest == inner
      invariant fresh(bodyR) && bodyR.reliable && |children| == i
      invariant depth > 0 ==>
        Prepend(children, ParseMany(c, depth - 1, n - i, bodyR.rest)) == ParseMany(c, depth - 1, n, inner)
    {
      var res := NewBlobFromReader(c, depth - 1, bodyR);
      if res.Err? {
        return Bad(res.error);
      }
      PrependMore(children, res.value, ParseMany(c, depth - 1, n - i - 1, bodyR.rest));
      children := children + [res.value];
    }
    assert children + [] == children;
    p := Parsed(children, bodyR.rest);
  }

  // ---------------------------------------------------------------- the archive

  datatype Archive<M> = Archive(metadata: Option<M>, asset: seq<u8>)

  /** The children of a kind, in order. */
  function OfKind(bs: seq<Blob>, kind: u8): seq<Blob> {
    if bs == [] then []
    else OfKind(bs[..|bs| - 1], kind) + (if bs[|bs| - 1].head.magic1 == kind then [bs[|bs| - 1]] else [])
  }

  /** At most one child of a kind, and that a leaf. */
  predicate SingleLeaf(bs: seq<Blob>, kind: u8) {
    var ks := OfKind(bs, kind);
    |ks| <= 1 && (|ks| == 1 ==> ks[0].children == [])
  }

  /** The metadata can be unpacked. */
  predicate Unpacks<M>(unpack: seq<u8> -> Option<M>, bs: seq<Blob>) {
    forall b :: b in OfKind(bs, CHAR_M) ==> unpack(b.body).Some?
  }

  predicate Acceptable<M>(unpack: seq<u8> -> Option<M>, bs: seq<Blob>) {
    SingleLeaf(bs, CHAR_M) && SingleLeaf(bs, CHAR_A) && Unpacks(unpack, bs)
  }

  /** The archive described by acceptable children. */
  function ArchiveOf<M>(unpack: seq<u8> -> Option<M>, bs: seq<Blob>): Archive<M> {
    var ms, assets := OfKind(bs, CHAR_M), OfKind(bs, CHAR_A);
    Archive(if ms == [] then None else unpack(ms[0].body), if assets == [] then [] else assets[0].body)
  }

  /** Once a prefix is not acceptable, nothing after it repairs that. */
  lemma {:induction false} OfKindPrefix(bs: seq<Blob>, kind: u8, i: nat)
    requires i <= |bs|
    ensures OfKind(bs[..i], kind) <= OfKind(bs, kind)
  {
    if i < |bs| {
      var init := bs[..|bs| - 1];
      OfKindPrefix(init, kind, i);
      assert init[..i] == bs[..i];
    } else {
      assert bs[..i] == bs;
    }
  }

  lemma OfKindNext(bs: seq<Blob>, kind: u8, i: nat)
    requires i < |bs|
    ensures OfKind(bs[..i + 1], kind) == OfKind(bs[..i], kind) + (if bs[i].head.magic1 == kind then [bs[i]] else [])
    ensures OfKind(bs[..i + 1], kind) <= OfKind(bs, kind)
  {
    assert bs[..i + 1][..i] == bs[..i];
    OfKindPrefix(bs, kind, i + 1);
  }

  /** What child i adds to an acceptable prefix, and what makes the children unacceptable. */
  lemma Considered<M>(unpack: seq<u8> -> Option<M>, bs: seq<Blob>, i: nat)
    requires i < |bs| && Acceptable(unpack, bs[..i])
    ensures forall kind :: kind == CHAR_M || kind == CHAR_A ==>
              && (bs[i].head.magic1 != kind ==> OfKind(bs[..i + 1], kind) == OfKind(bs[..i], kind))
              && (bs[i].head.magic1 == kind ==> bs[i] in OfKind(bs, kind))
              && (bs[i].head.magic1 == kind && OfKind(bs[..i], kind) == [] ==> OfKind(bs[..i + 1], kind) == [bs[i]])
              && (bs[i].head.magic1 == kind && OfKind(bs[..i], kind) != [] ==> |OfKind(bs, kind)| > 1)
    ensures bs[i].head.magic1 == CHAR_M && bs[i].children != [] ==> !Acceptable(unpack, bs)
    ensures bs[i].head.magic1 == CHAR_A && bs[i].children != [] ==> !Acceptable(unpack, bs)
    ensures bs[i].head.magic1 != CHAR_M ==> Unpacks(unpack, bs[..i + 1])
    ensures bs[i].head.magic1 == CHAR_M && OfKind(bs[..i], CHAR_M) == [] ==>
              (Unpacks(unpack, bs[..i + 1]) <==> unpack(bs[i].body).Some?)
    ensures bs[i].head.magic1 == CHAR_M && unpack(bs[i].body).None? ==> !Unpacks(unpack, bs)
  {
    forall kind: u8 | kind == CHAR_M || kind == CHAR_A
      ensures OfKind(bs[..i + 1], kind) == OfKind(bs[..i], kind) + (if bs[i].head.magic1 == kind then [bs[i]] else [])
      ensures OfKind(bs[..i + 1], kind) <= OfKind(bs, kind)
      ensures bs[i].head.magic1 == kind ==> bs[i] in OfKind(bs, kind)
    {
      OfKindNext(bs, kind, i);
      if bs[i].head.magic1 == kind {
        var k := |OfKind(bs[..i], kind)|;
        assert OfKind(bs[..i + 1], kind)[k] == bs[i] == OfKind(bs, kind)[k];
      }
    }
  }

  lemma NoChildren<M>(unpack: seq<u8> -> Option<M>, bs: seq<Blob>)
    requires bs == []
    ensures OfKind(bs, CHAR_M) == OfKind(bs, CHAR_A) == []
    ensures Acceptable(unpack, bs) && ArchiveOf(unpack, bs) == Archive(None, [])
  {
  }

  /** Why children may be refused. */
  predicate Refused<M>(unpack: seq<u8> -> Option<M>, bs: seq<Blob>, error: Error) {
    match error
    case ErrDuplicateMetadata => |OfKind(bs, CHAR_M)| > 1
    case ErrMetadataChildren => exists b :: b in OfKind(bs, CHAR_M) && b.children != []
    case ErrMetadataFormat => !Unpacks(unpack, bs)
    case ErrDuplicateAsset => |OfKind(bs, CHAR_A)| > 1
    case ErrAssetChildren => exists b :: b in OfKind(bs, CHAR_A) && b.children != []
    case _ => false
  }

  /** Builds an archive from the children of the root. */
  method Assemble<M>(unpack: seq<u8> -> Option<M>, bs: seq<Blob>) returns (res: Result<Archive<M>>)
    ensures res.Ok? <==> Acceptable(unpack, bs)
    ensures res.Ok? ==> res.value == ArchiveOf(unpack, bs)
    ensures res.Err? ==> Refused(unpack, bs, res.error)
  {
    hide OfKind, Unpacks;
    var rpk: Archive<M> := Archive(None, []);
    var foundMetadata, foundAsset := false, false;
    NoChildren(unpack, bs[..0]);
    for i := 0 to |bs|
      invariant Acceptable(unpack, bs[..i]) && rpk == ArchiveOf(unpack, bs[..i])
      invariant foundMetadata == (OfKind(bs[..i], CHAR_M) != [])
      invariant foundAsset == (OfKind(bs[..i], CHAR_A) != [])
    {
      var b := bs[i];
      Considered(unpack, bs, i);
      if b.head.magic1 == CHAR_M {
        if foundMetadata {
          return Err(ErrDuplicateMetadata);
        }
        foundMetadata := true;
        if |b.children| != 0 {
          return Err(ErrMetadataChildren);
        }
        var metadata := unpack(b.body);
        if metadata.None? {
          return Err(ErrMetadataFormat);
        }
        rpk := rpk.(metadata := metadata);
      } else if b.head.magic1 == CHAR_A {
        if foundAsset {
          return Err(ErrDuplicateAsset);
        }
        foundAsset := true;
        if |b.children| != 0 {
          return Err(ErrAssetChildren);
        }
        rpk := rpk.(asset := b.body);
      }
    }
    assert bs[..|bs|] == bs;
    res := Ok(rpk);
  }

  /** Reads an archive. */
  method NewRPKFromReader<M>(c: Codec, unpack: seq<u8> -> Option<M>, depth: nat, r: Reader)
    returns (res: Result<Archive<M>>)
    modifies r
    ensures var p := ParseBlob(c, depth, old(r.rest));
            || (!r.reliable && res == Err(ErrIo))
            || (p.Bad? && res == Err(p.error))
            || (p.Parsed? && p.value.head.magic1 != CHAR_F && res == Err(ErrInvalidRoot))
            || (&& p.Parsed? && p.value.head.magic1 == CHAR_F && r.rest == p.rest
                && (res.Ok? <==> Acceptable(unpack, p.value.children))
                && (res.Ok? ==> res.value == ArchiveOf(unpack, p.value.children))
                && (res.Err? ==> Refused(unpack, p.value.children, res.error)))
  {
    var root := NewBlobFromReader(c, depth, r);
    if root.Err? {
      return Err(root.error);
    }
    if root.value.head.magic1 != CHAR_F {
      return Err(ErrInvalidRoot);
    }
    res := Assemble(unpack, root.value.children);
  }
}
