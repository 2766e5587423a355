/** Uploads of byteswapped images: a copier between the byteswapping reader and the upload. */
module Pipes {
  import opened Bits
  import opened ByteSwap
  import opened Contexts
  import opened Device
  import opened Errors
  import opened Streams
  import opened Transfers

  /** The copier's buffer. */
  const COPY_SIZE: nat := 32768

  /** What the copier passes on: whole buffers swapped, and a last part as it is, since the byteswapping reader
      does not swap what it returns with an error. */
  function Piped(bs: ByteSwapper, data: seq<u8>): (r: seq<u8>)
    ensures |r| == |data|
  {
    var w := RoundDown(|data|, COPY_SIZE);
    WholeBuffers(bs, |data|);
    bs.Swapped(data[..w]) + data[w..]
  }

  lemma {:induction false} WholeBuffers(bs: ByteSwapper, n: nat)
    ensures bs.Fits(RoundDown(n, COPY_SIZE))
  {
    if n >= COPY_SIZE {
      WholeBuffers(bs, n - COPY_SIZE);
      BufferFits(bs);
      FitsSum(bs, COPY_SIZE, RoundDown(n - COPY_SIZE, COPY_SIZE));
    }
  }

  lemma BufferFits(bs: ByteSwapper)
    ensures bs.Fits(COPY_SIZE) && bs.WholeGroups(COPY_SIZE) == COPY_SIZE
  {
  }

  /** Images of n bytes are passed on wholly swapped if and only if nothing is to be swapped or n is a multiple of
      the copier's buffer. */
  lemma PipedExactly(bs: ByteSwapper, n: nat)
    requires bs.Fits(n)
    ensures (forall data: seq<u8> :: |data| == n ==> Piped(bs, data) == bs.Swapped(data))
            <==> bs == BSNone || RoundDown(n, COPY_SIZE) == n
  {
    hide RoundDown, Piped, ByteSwapper.Swapped, ByteSwapper.Fits;
    var w := RoundDown(n, COPY_SIZE);
    if bs == BSNone || w == n {
      forall data: seq<u8> | |data| == n
        ensures Piped(bs, data) == bs.Swapped(data)
      {
        PipedWhole(bs, data);
      }
    } else {
      var data: seq<u8> := seq(n, i => if i == w then 1 else 0);
      LastPartKept(bs, data, w);
      assert Piped(bs, data) != bs.Swapped(data);
    }
  }

  /** The smallest image that is passed on as it is. */
  lemma ShortImage()
    ensures Piped(BSTwo, [1, 0]) == [1, 0] && BSTwo.Swapped([1, 0]) == [0, 1]
  {
    assert BSTwo.Swapped([1, 0])[0] == 0 && BSTwo.Swapped([1, 0])[1] == 1;
  }

  lemma PipedWhole(bs: ByteSwapper, data: seq<u8>)
    requires bs.Fits(|data|) && (bs == BSNone || RoundDown(|data|, COPY_SIZE) == |data|)
    ensures Piped(bs, data) == bs.Swapped(data)
  {
    hide RoundDown;
    var w := RoundDown(|data|, COPY_SIZE);
    WholeBuffers(bs, |data|);
    if w == |data| {
      assert data[..w] == data;
    } else {
      assert bs.Swapped(data[..w]) == data[..w] && bs.Swapped(data) == data;
    }
  }

  lemma LastPartKept(bs: ByteSwapper, data: seq<u8>, w: nat)
    requires bs.Fits(|data|) && bs != BSNone && w == RoundDown(|data|, COPY_SIZE) < |data|
    requires forall i :: 0 <= i < |data| ==> data[i] == if i == w then 1 else 0
    ensures Piped(bs, data)[w] == 1 && bs.Swapped(data)[w] == 0
  {
    hide RoundDown, ByteSwapper.Fits;
    WholeBuffers(bs, |data|);
    MirrorShifts(bs, w, w);
    MirrorShifts(bs, |data|, w);
    assert bs.Mirror(0) != 0;
  }

  /** One more buffer. */
  lemma PipedMore(bs: ByteSwapper, a: seq<u8>, b: seq<u8>)
    requires RoundDown(|a|, COPY_SIZE) == |a| && |b| == COPY_SIZE
    ensures RoundDown(|a + b|, COPY_SIZE) == |a + b|
    ensures bs.Fits(|b|) && Piped(bs, a + b) == Piped(bs, a) + bs.Swapped(b)
  {
    hide RoundDown, Piped, ByteSwapper.Swapped, ByteSwapper.Fits;
    RoundDownNext(|a|, COPY_SIZE);
    WholeBuffers(bs, |a|);
    BufferFits(bs);
    FitsSum(bs, |a|, |b|);
    PipedWhole(bs, a);
    PipedWhole(bs, a + b);
    SwapConcat(bs, a, b);
  }

  /** The last part. */
  lemma PipedLast(bs: ByteSwapper, a: seq<u8>, b: seq<u8>)
    requires RoundDown(|a|, COPY_SIZE) == |a| && |b| < COPY_SIZE
    ensures RoundDown(|a + b|, COPY_SIZE) == |a| && Piped(bs, a + b) == Piped(bs, a) + b
  {
    hide RoundDown, ByteSwapper.Swapped, ByteSwapper.Fits;
    WholeBuffers(bs, |a|);
    RoundDownWithin(|a|, COPY_SIZE, |b|);
    assert (a + b)[..|a|] == a && (a + b)[|a|..] == b;
    assert a[..|a|] == a && a[|a|..] == [];
  }

  /** Copies a byteswapping reader to its end. Its end between two buffers is no error. */
  method Copy(r: BsReader) returns (out: seq<u8>, err: Error)
    requires r.Valid()
    modifies r, r.r
    ensures var data := old(r.r.rest);
            || (err == ErrIo && !r.r.reliable)
            || (&& out == Piped(r.bs, data)
                && err == if RoundDown(|data|, COPY_SIZE) == |data| then Nil else ErrUnexpectedEOF)
  {
    hide RoundDown, Piped, ByteSwapper.Swapped, ByteSwapper.Fits;
    out := [];
    var buf := new u8[COPY_SIZE];
    ghost var data, done := r.r.rest, [];
    NothingPiped(r.bs);
    BufferFits(r.bs);
    while true
      invariant fresh(buf) && buf.Length == COPY_SIZE && r.Valid()
      invariant data == done + r.r.rest && RoundDown(|done|, COPY_SIZE) == |done| && out == Piped(r.bs, done)
      decreases |r.r.rest|
    {
      ghost var rest := r.r.rest;
      var n, e := r.Read(buf);
      assert data == (done + rest[..n]) + r.r.rest;
      out := out + buf[..n];
      if e != Nil {
        if e != ErrIo {
          PipedLast(r.bs, done, rest[..n]);
          assert data == done + rest[..n];
        }
        return out, if e == ErrEOF then Nil else e;
      }
      assert buf[..] == buf[..n];
      PipedMore(r.bs, done, rest[..n]);
      done := done + rest[..n];
    }
  }

  lemma NothingPiped(bs: ByteSwapper)
    ensures Piped(bs, []) == [] && RoundDown(0, COPY_SIZE) == 0
  {
  }

  lemma FetchPiped(after: Memory, before: Memory, bank: u8, offset: nat, data: seq<u8>)
    requires SameMemory(after, Store(before, bank, offset, Padded(data)))
    ensures Fetch(after, bank, offset, |data|) == data
  {
    hide Padded;
    FetchSame(after, Store(before, bank, offset, Padded(data)), bank, offset, |data|);
    FetchStored(before, bank, offset, Padded(data), |data|);
  }

  /** Uploads a whole image through a byteswapping reader and the copier. */
  method UploadImage(ctx: Context, d: Drive, image: seq<u8>, bs: ByteSwapper, bank: u8, offset: u32)
    returns (err: Error)
    modifies ctx, d
    ensures old(d.replies) == [] && InRange(|image|, offset) && err == Nil ==>
              && SameMemory(d.mem, Store(old(d.mem), bank, offset, Padded(Piped(bs, image))))
              && Fetch(d.mem, bank, offset, |image|) == Piped(bs, image)
    ensures old(d.replies) == [] && d.faults == old(d.faults) ==> err == Nil || err == ctx.done
  {
    hide PaddedSize, Padded, Store;
    ghost var known := d.replies == [] && InRange(|image|, offset);
    var source := new Reader(image, true);
    var swapping := new BsReader(source, bs);
    var out, _ := Copy(swapping);
    var r := new Reader(out, true);
    ghost var k;
    err, k := CmdUpload(ctx, d, r, |image|, bank, offset);
    assert out[..|image|] == out;
    if known && err == Nil {
      FetchPiped(d.mem, old(d.mem), bank, offset, out);
    }
  }
}
