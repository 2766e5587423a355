/** Uploads to and downloads from a memory bank in padded chunks. */
module Transfers {
  import opened Bits
  import opened ByteSwap
  import opened Contexts
  import opened Device
  import opened Errors
  import opened Streams

  function IdealChunkSize(size: int): (chunk: nat)
    ensures 0 < chunk < 0x1000000 && chunk % 512 == 0
  {
    if size >= 16 * 1024 * 1024 then 32 * 128 * 1024
    else if size >= 2 * 1024 * 1024 then 16 * 128 * 1024
    else 4 * 128 * 1024
  }

  /** 512 KiB below 2 MiB, then 2 MiB, and 4 MiB from 16 MiB on. */
  lemma ChunkSizes(size: int)
    ensures IdealChunkSize(size) == 0x80000 <==> size < 0x200000
    ensures IdealChunkSize(size) == 0x200000 <==> 0x200000 <= size < 0x1000000
    ensures IdealChunkSize(size) == 0x400000 <==> size >= 0x1000000
  {
  }

  /** n rounded up to a multiple of 512. */
  function PaddedSize(n: nat): (p: nat)
    ensures n <= p
  {
    (n + 511) / 512 * 512
  }

  /** Data padded with 0xff to a multiple of 512 bytes. */
  function Padded(data: seq<u8>): (r: seq<u8>)
    ensures |r| == PaddedSize(|data|) && r[..|data|] == data
  {
    data + seq(PaddedSize(|data|) - |data|, _ => 0xff)
  }

  /** The chunks a transfer of the first k bytes is cut into. */
  function Chunks(cmd: u8, bank: u8, offset: nat, chunk: nat, k: nat): seq<Transfer>
    requires chunk > 0
  {
    if k == 0 then []
    else
      var last := RoundDown(k - 1, chunk);
      Chunks(cmd, bank, offset, chunk, last) + [Transfer(cmd, bank, offset + last, PaddedSize(k - last))]
  }

  /** Where the transfer after number i starts; after the last one, the end of the plan. */
  function NextAddr(ts: seq<Transfer>, i: nat, end: nat): nat
    requires i < |ts|
  {
    if i + 1 < |ts| then ts[i + 1].addr else end
  }

  /** The transfers of a plan follow one another without gap or overlap from `offset` on, all in one bank, each
      a positive multiple of 512 bytes and at most a chunk. */
  ghost predicate Tiles(ts: seq<Transfer>, cmd: u8, bank: u8, offset: nat, chunk: nat, size: nat) {
    && (forall i :: 0 <= i < |ts| ==> ts[i].cmd == cmd && ts[i].bank == bank
                                      && 0 < ts[i].len <= chunk && ts[i].len % 512 == 0)
    && (forall i :: 0 <= i < |ts| ==> ts[i].addr + ts[i].len == NextAddr(ts, i, offset + size))
    && (ts == [] ==> size == 0)
    && (ts != [] ==> ts[0].addr == offset)
  }

  lemma {:induction false} ChunksTile(cmd: u8, bank: u8, offset: nat, chunk: nat, k: nat)
    requires chunk > 0 && chunk % 512 == 0
    ensures Tiles(Chunks(cmd, bank, offset, chunk, k), cmd, bank, offset, chunk, PaddedSize(k))
  {
    hide Tiles, PaddedSize, RoundDown;
    if k == 0 {
      NoTiles(cmd, bank, offset, chunk);
    } else {
      var last := RoundDown(k - 1, chunk);
      ChunksTile(cmd, bank, offset, chunk, last);
      assert last % 512 == 0 && PaddedSize(last) == last && PaddedSize(k) == last + PaddedSize(k - last)
             && 0 < PaddedSize(k - last) <= chunk by {
        WholeChunks(k - 1, chunk);
        PaddedSum(last, k - last);
        PaddedWithin(k - last, chunk);
      }
      PaddedMultiple(k - last);
      TilesMore(Chunks(cmd, bank, offset, chunk, last), cmd, bank, offset, chunk, last, PaddedSize(k - last));
    }
  }

  lemma NoTiles(cmd: u8, bank: u8, offset: nat, chunk: nat)
    ensures Tiles([], cmd, bank, offset, chunk, PaddedSize(0))
  {
  }

  lemma TilesMore(ts: seq<Transfer>, cmd: u8, bank: u8, offset: nat, chunk: nat, size: nat, len: nat)
    requires Tiles(ts, cmd, bank, offset, chunk, size) && 0 < len <= chunk && len % 512 == 0
    ensures Tiles(ts + [Transfer(cmd, bank, offset + size, len)], cmd, bank, offset, chunk, size + len)
  {
    var t := Transfer(cmd, bank, offset + size, len);
    var us := ts + [t];
    forall i | 0 <= i < |us|
      ensures us[i].addr + us[i].len == NextAddr(us, i, offset + (size + len))
    {
      if i < |ts| {
        assert us[i] == ts[i] && ts[i].addr + ts[i].len == NextAddr(ts, i, offset + size);
      }
    }
    assert us[0] == if ts == [] then t else ts[0];
  }

  lemma {:induction false} WholeChunks(x: nat, chunk: nat)
    requires chunk > 0 && chunk % 512 == 0
    ensures RoundDown(x, chunk) % 512 == 0
  {
    if x >= chunk {
      WholeChunks(x - chunk, chunk);
    }
  }

  lemma PaddedMultiple(n: nat)
    ensures n <= PaddedSize(n) < n + 512 && PaddedSize(n) % 512 == 0
  {
  }

  lemma PaddedSum(a: nat, b: nat)
    requires a % 512 == 0
    ensures PaddedSize(a) == a && PaddedSize(a + b) == a + PaddedSize(b)
  {
  }

  lemma PaddedWithin(a: nat, chunk: nat)
    requires a <= chunk && chunk % 512 == 0
    ensures PaddedSize(a) <= chunk
  {
  }

  /** After k whole chunks, or all n bytes, one more chunk. */
  lemma ChunksMore(cmd: u8, bank: u8, offset: nat, chunk: nat, k: nat, size: nat)
    requires chunk > 0 && 0 < size <= chunk && RoundDown(k, chunk) == k
    ensures Chunks(cmd, bank, offset, chunk, k + size)
         == Chunks(cmd, bank, offset, chunk, k) + [Transfer(cmd, bank, offset + k, PaddedSize(size))]
    ensures size == chunk ==> RoundDown(k + size, chunk) == k + size
  {
    RoundDownWithin(k, chunk, size - 1);
    RoundDownNext(k, chunk);
  }

  lemma LogMore(log: seq<Transfer>, cmd: u8, bank: u8, offset: nat, chunk: nat, k: nat, size: nat)
    requires chunk > 0 && 0 < size <= chunk && RoundDown(k, chunk) == k
    ensures log + Chunks(cmd, bank, offset, chunk, k) + [Transfer(cmd, bank, offset + k, PaddedSize(size))]
         == log + Chunks(cmd, bank, offset, chunk, k + size)
  {
    ChunksMore(cmd, bank, offset, chunk, k, size);
    var t := [Transfer(cmd, bank, offset + k, PaddedSize(size))];
    assert log + Chunks(cmd, bank, offset, chunk, k) + t == log + (Chunks(cmd, bank, offset, chunk, k) + t);
  }

  /** Two adjoining writes are one. */
  lemma StoreJoin(mem: Memory, bank: u8, addr: nat, a: seq<u8>, b: seq<u8>)
    ensures SameMemory(Store(Store(mem, bank, addr, a), bank, addr + |a|, b), Store(mem, bank, addr, a + b))
  {
  }

  /** Reading back what was written. */
  lemma FetchStored(mem: Memory, bank: u8, addr: nat, data: seq<u8>, n: nat)
    requires n <= |data|
    ensures Fetch(Store(mem, bank, addr, data), bank, addr, n) == data[..n]
  {
  }

  // ---------------------------------------------------------------- upload

  /** Appends 0xff bytes up to a multiple of 512. */
  method Pad(data: seq<u8>) returns (padded: seq<u8>)
    ensures padded == Padded(data)
  {
    padded := data;
    while |padded| % 512 != 0
      invariant |data| <= |padded| <= PaddedSize(|data|)
      invariant padded == data + seq(|padded| - |data|, _ => 0xff)
      decreases PaddedSize(|data|) - |padded|
    {
      padded := padded + [0xff];
    }
    assert |padded| == PaddedSize(|data|);
  }

  /** The memory after the first k bytes of data were uploaded. */
  function Uploaded(mem: Memory, bank: u8, offset: nat, data: seq<u8>, k: nat): Memory
    requires k <= |data|
  {
    Store(mem, bank, offset, Padded(data[..k]))
  }

  /** One more chunk after k bytes, k a multiple of 512. */
  lemma UploadMore(mem: Memory, bank: u8, offset: nat, data: seq<u8>, k: nat, sz: nat, m1: Memory)
    requires k % 512 == 0 && k + sz <= |data|
    requires SameMemory(m1, Uploaded(mem, bank, offset, data, k))
    ensures SameMemory(Store(m1, bank, offset + k, Padded(data[k..][..sz])), Uploaded(mem, bank, offset, data, k + sz))
  {
    PaddedSum(k, sz);
    assert Padded(data[..k]) == data[..k];
    assert Padded(data[..k + sz]) == data[..k] + Padded(data[k..][..sz]);
    StoreJoin(mem, bank, offset, data[..k], Padded(data[k..][..sz]));
  }

  /** What the loop of an upload maintains after k bytes. */
  ghost predicate Progress(n: int, left: int, data: seq<u8>, rest: seq<u8>, k: nat) {
    && k <= Size(n) && k <= |data| && rest == data[k..]
    && left == n - PaddedSize(k)
    && (k < Size(n) ==> RoundDown(k, IdealChunkSize(n)) == k && k % 512 == 0)
  }

  lemma Unfinished(n: int, left: int, data: seq<u8>, rest: seq<u8>, k: nat)
    requires Progress(n, left, data, rest, k) && left > 0
    ensures k < Size(n) && k <= |data| && RoundDown(k, IdealChunkSize(n)) == k && k % 512 == 0
    ensures rest == data[k..] && (rest == [] ==> k == |data|)
  {
    PaddedSum(k, Size(n) - k);
  }

  lemma ShortOfChunk(n: int, left: int, data: seq<u8>, rest: seq<u8>, k: nat, sz: nat)
    requires Progress(n, left, data, rest, k) && left > 0 && 0 < |rest| < sz
    requires sz == if IdealChunkSize(n) > left then left else IdealChunkSize(n)
    ensures |data| < Size(n) && !EndsBetweenChunks(n, |data|)
  {
    hide PaddedSize, RoundDown, IdealChunkSize, EndsBetweenChunks;
    Unfinished(n, left, data, rest, k);
    PaddedSum(k, 0);
    EndsInChunk(n, |data|, k);
  }

  lemma ProgressDone(n: int, left: int, data: seq<u8>, rest: seq<u8>, k: nat)
    requires Progress(n, left, data, rest, k) && left <= 0
    ensures k == Size(n)
  {
    if k < Size(n) {
      PaddedSum(k, Size(n) - k);
    }
  }

  lemma ProgressMore(n: int, left: int, data: seq<u8>, rest: seq<u8>, k: nat, sz: nat)
    requires Progress(n, left, data, rest, k) && left > 0
    requires sz == (if IdealChunkSize(n) > left then left else IdealChunkSize(n)) && sz <= |rest|
    ensures k < Size(n) && k == n - left && k % 512 == 0 && RoundDown(k, IdealChunkSize(n)) == k
    ensures PaddedSize(sz) <= IdealChunkSize(n) && k + PaddedSize(sz) <= PaddedSize(Size(n))
    ensures k + sz == NextChunk(n, k)
    ensures Progress(n, left - PaddedSize(sz), data, rest[sz..], k + sz)
    ensures k + sz < Size(n) ==> PaddedSize(sz) == sz
  {
    hide PaddedSize, RoundDown, Chunks, IdealChunkSize;
    PaddedSum(k, sz);
    PaddedSum(k, Size(n) - k);
    PaddedWithin(sz, IdealChunkSize(n));
    ChunksMore(0, 0, 0, IdealChunkSize(n), k, sz);
  }

  /** What an upload of k bytes of data has done to the device, provided its addresses do not wrap and no
      stale reply was pending. */
  ghost predicate Sent(known: bool, now: Memory, replies: seq<u8>, sent: seq<Transfer>, mem: Memory,
                       log: seq<Transfer>, bank: u8, offset: nat, data: seq<u8>, n: int, k: nat)
    requires k <= |data|
  {
    known ==> && replies == []
              && SameMemory(now, Uploaded(mem, bank, offset, data, k))
              && sent == log + Chunks(CMD_LOAD_FROM_PC, bank, offset, IdealChunkSize(n), k)
  }

  /** What a failed or cancelled upload has done to the memory, k bytes being confirmed. */
  ghost predicate Interrupted(known: bool, after: Memory, before: Memory, bank: u8, offset: nat, data: seq<u8>,
                              n: int, k: nat)
    requires k <= |data| && k <= Size(n)
  {
    var next := NextChunk(n, k);
    known ==>
      || SameMemory(after, Uploaded(before, bank, offset, data, k))
      || (next <= |data| && SameMemory(after, Uploaded(before, bank, offset, data, next)))
  }

  lemma SentInterrupted(known: bool, now: Memory, replies: seq<u8>, sent: seq<Transfer>, mem: Memory,
                        log: seq<Transfer>, bank: u8, offset: nat, data: seq<u8>, n: int, k: nat)
    requires k <= |data| && k <= Size(n) && Sent(known, now, replies, sent, mem, log, bank, offset, data, n, k)
    ensures Interrupted(known, now, mem, bank, offset, data, n, k)
  {
  }

  /** One more chunk, confirmed or not. */
  lemma ChunkSent(known: bool, m1: Memory, replies: seq<u8>, log1: seq<Transfer>, mem: Memory, log: seq<Transfer>,
                  bank: u8, offset: u32, data: seq<u8>, n: int, k: nat, sz: nat, addr: u32, rest: seq<u8>, left: int,
                  replies2: seq<u8>)
    requires Progress(n, left, data, rest, k) && left > 0 && sz <= |rest|
    requires sz == if IdealChunkSize(n) > left then left else IdealChunkSize(n)
    requires Sent(known, m1, replies, log1, mem, log, bank, offset, data, n, k) && (known ==> addr == offset + k)
    ensures k + sz <= |data| && k + sz <= Size(n)
    ensures var m2 := Store(m1, bank, addr, Padded(rest[..sz]));
            && ((known ==> replies2 == []) ==>
                  Sent(known, m2, replies2, log1 + [Transfer(CMD_LOAD_FROM_PC, bank, addr, PaddedSize(sz))], mem, log,
                       bank, offset, data, n, k + sz))
            && Interrupted(known, m2, mem, bank, offset, data, n, k)
  {
    hide SameMemory, Store, Padded, Chunks, PaddedSize, RoundDown, IdealChunkSize;
    ProgressMore(n, left, data, rest, k, sz);
    if known {
      LogMore(log, CMD_LOAD_FROM_PC, bank, offset, IdealChunkSize(n), k, sz);
      UploadMore(mem, bank, offset, data, k, sz, m1);
    }
  }

  lemma NothingSent(known: bool, mem: Memory, replies: seq<u8>, log: seq<Transfer>, bank: u8, offset: nat,
                    data: seq<u8>, n: int)
    requires known ==> replies == []
    ensures Sent(known, mem, replies, log, mem, log, bank, offset, data, n, 0)
    ensures Progress(n, n, data, data, 0)
  {
    assert Padded(data[..0]) == [];
  }

  /** An error of the reader itself, the link, the device or the context, rather than of a reader that ends. */
  predicate Faulted(err: Error) {
    err == ErrIo || err == ErrInvalidCompletion || err == ErrCanceled || err == ErrDeadlineExceeded
  }

  /** A reader of d bytes ends before n bytes, between two chunks. */
  predicate EndsBetweenChunks(n: int, d: nat) {
    d < Size(n) && RoundDown(d, IdealChunkSize(n)) == d
  }

  /** Such readers: an empty one, and one of 512 KiB when 1 MiB was announced. */
  lemma ShortReaders()
    ensures EndsBetweenChunks(1, 0) && EndsBetweenChunks(0x100000, 0x80000)
  {
    assert IdealChunkSize(0x100000) == 0x80000;
    assert RoundDown(0x80000, 0x80000) == 0x80000 + RoundDown(0, 0x80000);
  }

  /** A reader that ends within a chunk does not end between two. */
  lemma EndsInChunk(n: int, d: nat, k: nat)
    requires RoundDown(k, IdealChunkSize(n)) == k && k < d < k + IdealChunkSize(n)
    ensures !EndsBetweenChunks(n, d)
  {
    hide RoundDown, IdealChunkSize;
    if RoundDown(d, IdealChunkSize(n)) == d {
      MultiplesGap(k, d, IdealChunkSize(n));
    }
  }

  /** How an upload of n bytes from a reader of d bytes ends, k of them being confirmed: nil with all n bytes exactly
      when the reader has them, nil with fewer exactly when it ends between two chunks, else an unexpected end; or
      with a fault. */
  predicate UploadEnds(n: int, d: nat, k: nat, err: Error) {
    && k <= d && k <= Size(n)
    && (err == Nil && k < Size(n) ==> k == d)
    && (err == Nil || err == ErrUnexpectedEOF || Faulted(err))
    && (!Faulted(err) ==>
          && (err == Nil && k < Size(n) <==> EndsBetweenChunks(n, d))
          && (err == Nil && k == Size(n) <==> d >= Size(n)))
  }

  /** Whose fault an error of a transfer is: that of the link, of the reader or writer, or of the context. */
  predicate Blamed(err: Error, faults0: nat, faults1: nat, reliable: bool, done: ContextError) {
    && (faults1 == faults0 || (faults1 > faults0 && err == ErrIo))
    && err != ErrInvalidCompletion
    && (err == ErrIo ==> faults1 > faults0 || !reliable)
    && (err == ErrCanceled || err == ErrDeadlineExceeded ==> err == done)
  }

  /** The same of one chunk, and that no reply is pending after it. */
  predicate ChunkBlamed(err: Error, faults0: nat, faults1: nat, reliable: bool, replies0: seq<u8>, replies1: seq<u8>) {
    && (faults1 == faults0 || (faults1 > faults0 && err == ErrIo))
    && (replies0 == [] ==>
          && err != ErrInvalidCompletion && (err == ErrIo ==> faults1 > faults0 || !reliable)
          && (err == Nil ==> replies1 == []))
  }

  lemma TurnBlamed(err: Error, faults0: nat, faults1: nat, reliable: bool, replies0: seq<u8>, replies1: seq<u8>,
                   done: ContextError)
    requires ChunkBlamed(err, faults0, faults1, reliable, replies0, replies1)
    requires err != ErrCanceled && err != ErrDeadlineExceeded
    ensures faults1 == faults0 || err == ErrIo
    ensures replies0 == [] ==> Blamed(err, faults0, faults1, reliable, done) && (err == Nil ==> replies1 == [])
  {
  }

  lemma NotBlamed(done: ContextError, faults: nat, reliable: bool)
    ensures Blamed(done, faults, faults, reliable, done)
  {
  }

  lemma EofEnds(n: int, left: int, data: seq<u8>, rest: seq<u8>, k: nat)
    requires Progress(n, left, data, rest, k) && left > 0 && rest == []
    ensures k == |data| && UploadEnds(n, |data|, k, Nil)
  {
    hide PaddedSize, RoundDown, IdealChunkSize;
    Unfinished(n, left, data, rest, k);
  }

  lemma ErrorEnds(n: int, d: nat, k: nat, err: Error)
    requires k <= d && k <= Size(n)
    requires err == ErrIo || err == ErrInvalidCompletion
             || (err == ErrUnexpectedEOF && d < Size(n) && !EndsBetweenChunks(n, d))
    ensures UploadEnds(n, d, k, err)
  {
  }

  /** Nothing was transferred after the context became done. */
  twostate predicate Hushed(ctx: Context, d: Drive)
    reads ctx, d
  {
    old(ctx.done) == Nil && ctx.done != Nil && ctx.watch == OnDrive(d) ==> ctx.mark == DriveAt(d.log)
  }

  /** Reads sz bytes and loads them, padded, into the device. */
  method UploadChunk(d: Drive, r: Reader, sz: nat, bank: u8, addr: u32) returns (size: nat, eof: bool, err: DriverError)
    requires 0 < sz && PaddedSize(sz) < 0x1000000
    modifies d, r
    ensures size == PaddedSize(sz)
    ensures eof ==> err == Nil && old(r.rest) == [] && r.rest == [] && d.replies == old(d.replies)
    // an exhausted reader is the end, one that ends within the chunk is an error, unless it fails
    ensures old(r.rest) == [] ==> eof || err == ErrIo
    ensures err == ErrUnexpectedEOF ==> 0 < |old(r.rest)| < sz
    ensures 0 < |old(r.rest)| < sz ==> err == ErrUnexpectedEOF || err == ErrIo
    ensures err == Nil || err == ErrUnexpectedEOF || err == ErrIo || err == ErrInvalidCompletion
    ensures err == Nil && !eof ==> sz <= |old(r.rest)| && r.rest == old(r.rest)[sz..]
    ensures var loaded := sz <= |old(r.rest)| && d.log == old(d.log) + [Transfer(CMD_LOAD_FROM_PC, bank, addr, size)]
                          && d.mem == Store(old(d.mem), bank, addr, Padded(old(r.rest)[..sz]));
            || (loaded && !eof)
            || ((err != Nil || eof) && d.log == old(d.log) && d.mem == old(d.mem))
    // over a working link and with a reader that does not fail, nothing else fails
    ensures ChunkBlamed(err, old(d.faults), d.faults, r.reliable, old(d.replies), d.replies)
  {
    hide PaddedSize, BankAndLength, Or, Packet, Respond;
    size, eof := PaddedSize(sz), false;
    var buf := new u8[sz];
    var read;
    read, err := r.ReadFull(buf, sz);
    if err != Nil {
      if err == ErrEOF {
        return size, true, Nil;
      }
      return;
    }
    assert buf[..] == old(r.rest)[..sz];
    var data := Pad(buf[..]);
    size := |data|;
    var none := new u8[0];
    PaddedMultiple(sz);
    TransferDecodes(d.mem, CMD_LOAD_FROM_PC, bank, addr, size, data);
    err := d.SendCmd(CMD_LOAD_FROM_PC, [addr, BankAndLength(bank, size)], data, none);
  }

  /** What the loop of an upload maintains. */
  ghost predicate Uploading(known: bool, now: Memory, replies: seq<u8>, sent: seq<Transfer>, mem: Memory,
                            log: seq<Transfer>, bank: u8, offset: nat, addr: nat, data: seq<u8>, rest: seq<u8>, n: int,
                            left: int, k: nat, replies0: seq<u8>) {
    && Progress(n, left, data, rest, k)
    && (k == 0 ==> now == mem && replies == replies0 && sent == log && rest == data)
    && (known && k < Size(n) ==> addr == offset + k) && (known ==> replies == [])
    && Sent(known, now, replies, sent, mem, log, bank, offset, data, n, k)
  }

  lemma NothingUploaded(known: bool, mem: Memory, replies: seq<u8>, log: seq<Transfer>, bank: u8, offset: nat,
                        data: seq<u8>, n: int)
    requires known ==> replies == []
    ensures Uploading(known, mem, replies, log, mem, log, bank, offset, offset, data, data, n, n, 0, replies)
  {
    hide Progress, Sent;
    NothingSent(known, mem, replies, log, bank, offset, data, n);
  }

  /** One more chunk. */
  lemma UploadingMore(known: bool, m1: Memory, replies1: seq<u8>, log1: seq<Transfer>, mem: Memory,
                      log: seq<Transfer>, bank: u8, offset: u32, addr: u32, data: seq<u8>, rest: seq<u8>, n: int,
                      left: int, k: nat, replies0: seq<u8>, sz: nat, size: nat, m2: Memory, replies2: seq<u8>,
                      log2: seq<Transfer>, rest2: seq<u8>, addr2: u32, left2: int, k2: nat)
    requires Uploading(known, m1, replies1, log1, mem, log, bank, offset, addr, data, rest, n, left, k, replies0)
    requires left > 0 && sz == (if IdealChunkSize(n) > left then left else IdealChunkSize(n)) && sz <= |rest|
    requires size == PaddedSize(sz) && m2 == Store(m1, bank, addr, Padded(rest[..sz])) && rest2 == rest[sz..]
    requires log2 == log1 + [Transfer(CMD_LOAD_FROM_PC, bank, addr, size)]
    requires known ==> replies2 == [] && InRange(n, offset)
    requires addr2 == Add32(addr, size) && left2 == left - size && k2 == k + sz
    ensures left2 < left && k2 <= |data| && k2 <= Size(n)
    ensures Uploading(known, m2, replies2, log2, mem, log, bank, offset, addr2, data, rest2, n, left2, k2, replies0)
  {
    hide Sent, Store, Padded, RoundDown, IdealChunkSize, PaddedSize, Progress;
    Unfinished(n, left, data, rest, k);
    ProgressMore(n, left, data, rest, k, sz);
    ChunkSent(known, m1, replies1, log1, mem, log, bank, offset, data, n, k, sz, addr, rest, left, replies2);
  }

  lemma UploadingEnds(known: bool, now: Memory, replies: seq<u8>, sent: seq<Transfer>, mem: Memory,
                      log: seq<Transfer>, bank: u8, offset: nat, addr: nat, data: seq<u8>, rest: seq<u8>, n: int,
                      left: int, k: nat, replies0: seq<u8>, err: ContextError)
    requires Uploading(known, now, replies, sent, mem, log, bank, offset, addr, data, rest, n, left, k, replies0)
    requires left > 0 ==> err != Nil
    ensures UploadEnds(n, |data|, k, err) && k <= |data| && k <= Size(n)
    ensures err == Nil ==> k == Size(n) && rest == data[k..]
    ensures Sent(known, now, replies, sent, mem, log, bank, offset, data, n, k)
    ensures Interrupted(known, now, mem, bank, offset, data, n, k)
    ensures k == 0 ==> now == mem && replies == replies0 && sent == log && rest == data
  {
    hide Sent, UploadEnds, Interrupted;
    LoopEnds(n, left, data, rest, k, err);
    SentInterrupted(known, now, replies, sent, mem, log, bank, offset, data, n, k);
  }

  lemma LoopEnds(n: int, left: int, data: seq<u8>, rest: seq<u8>, k: nat, err: ContextError)
    requires Progress(n, left, data, rest, k) && (left > 0 ==> err != Nil)
    ensures UploadEnds(n, |data|, k, err)
    ensures err == Nil ==> k == Size(n) && rest == data[k..]
  {
    hide PaddedSize, RoundDown, IdealChunkSize;
    if left <= 0 {
      ProgressDone(n, left, data, rest, k);
    }
  }

  /** Uploads n bytes from a reader into a bank. `k` is the number of bytes confirmed uploaded. */
  method CmdUpload(ctx: Context, d: Drive, r: Reader, n: int, bank: u8, offset: u32)
    returns (err: DriverError, ghost k: nat)
    modifies ctx, d, r
    ensures ctx.Later() && Hushed(ctx, d)
    ensures UploadEnds(n, |old(r.rest)|, k, err)
    ensures err == Nil ==> r.rest == old(r.rest)[k..]
    ensures err == Nil && k == Size(n) ==> ctx.done == Nil
    ensures err == ErrCanceled || err == ErrDeadlineExceeded ==> err == ctx.done
    ensures err == Nil ==>
              Sent(InOrder(n, offset, old(d.replies)), d.mem, d.replies, d.log, old(d.mem), old(d.log),
                   bank, offset, old(r.rest), n, k)
    // otherwise: the chunks confirmed, and perhaps the next one
    ensures err != Nil ==>
              Interrupted(InOrder(n, offset, old(d.replies)), d.mem, old(d.mem), bank, offset,
                          old(r.rest), n, k)
    ensures d.faults == old(d.faults) || err == ErrIo
    ensures old(d.replies) == [] ==> Blamed(err, old(d.faults), d.faults, r.reliable, ctx.done)
    // a cancelled call does nothing
    ensures old(ctx.done) != Nil && n > 0 ==>
              && err == old(ctx.done) && k == 0 && r.rest == old(r.rest)
              && d.mem == old(d.mem) && d.log == old(d.log) && d.replies == old(d.replies)
  {
    hide RoundDown, IdealChunkSize, Sent, Interrupted, PaddedSize, NextChunk, InRange, UploadEnds, EndsBetweenChunks,
         Blamed, ChunkBlamed, Uploading;
    var left, addr, chunkSize := n, offset, IdealChunkSize(n);
    k := 0;
    ghost var data, mem, log := r.rest, d.mem, d.log;
    ghost var known := InOrder(n, offset, d.replies);
    var e: ContextError := Nil;
    if left > 0 {
      e := ctx.Err();
    }
    NothingUploaded(known, d.mem, d.replies, d.log, bank, offset, data, n);
    while left > 0 && e == Nil
      invariant ctx.Later() && Hushed(ctx, d) && (left > 0 ==> e == ctx.done)
      invariant d.faults == old(d.faults) && (old(d.replies) == [] ==> d.replies == [])
      invariant old(ctx.done) != Nil && n > 0 ==> left == n && k == 0
      invariant Uploading(known, d.mem, d.replies, d.log, mem, log, bank, offset, addr, data, r.rest, n, left, k,
                          old(d.replies))
      decreases left
    {
      var eof;
      ghost var faults1, replies1 := d.faults, d.replies;
      left, addr, eof, err, k := UploadTurn(d, r, n, left, bank, addr, chunkSize, k, offset, data, mem, log, known,
                                              old(d.replies));
      TurnBlamed(err, faults1, d.faults, r.reliable, replies1, d.replies, ctx.done);
      if eof {
        return Nil, k;
      }
      if err != Nil {
        return;
      }
      e := ctx.Err();
    }
    err := ctx.Err();
    NotBlamed(ctx.done, d.faults, r.reliable);
    UploadingEnds(known, d.mem, d.replies, d.log, mem, log, bank, offset, addr, data, r.rest, n, left, k,
                  old(d.replies), err);
  }

  /** One turn of the upload loop. */
  method UploadTurn(d: Drive, r: Reader, ghost n: int, left: int, bank: u8, addr: u32, chunkSize: nat, ghost k: nat,
                    ghost offset: u32, ghost data: seq<u8>, ghost mem: Memory, ghost log: seq<Transfer>,
                    ghost known: bool, ghost replies0: seq<u8>)
    returns (left': int, addr': u32, eof: bool, err: DriverError, ghost k': nat)
    requires left > 0 && chunkSize == IdealChunkSize(n) && (known ==> InRange(n, offset))
    requires Uploading(known, d.mem, d.replies, d.log, mem, log, bank, offset, addr, data, r.rest, n, left,
                       k, replies0)
    modifies d, r
    ensures k < Size(n) && RoundDown(k, chunkSize) == k && k' <= |data| && k' <= Size(n)
    ensures eof ==> err == Nil && k' == k == |data| && r.rest == []
                    && Sent(known, d.mem, d.replies, d.log, mem, log, bank, offset, data, n, k)
    ensures err == Nil && !eof ==>
              && left' < left
              && Uploading(known, d.mem, d.replies, d.log, mem, log, bank, offset, addr', data, r.rest, n, left',
                           k', replies0)
    ensures err != Nil ==> k' == k
    ensures err == Nil || err == ErrIo || err == ErrInvalidCompletion || err == ErrUnexpectedEOF
    ensures eof || err != Nil ==> UploadEnds(n, |data|, k, err)
    ensures err != Nil ==> Interrupted(known, d.mem, mem, bank, offset, data, n, k)
    ensures ChunkBlamed(err, old(d.faults), d.faults, r.reliable, old(d.replies), d.replies)
  {
    hide Sent, Interrupted, Progress, Store, Padded, PaddedSize, RoundDown, IdealChunkSize, EndsBetweenChunks,
         UploadEnds, ChunkBlamed;
    left', addr', k' := left, addr, k;
    var sz := chunkSize;
    if sz > left {
      sz := left;
    }
    Unfinished(n, left, data, r.rest, k);
    assert PaddedSize(sz) <= chunkSize by {
      PaddedWithin(sz, chunkSize);
    }
    ghost var m1, rest1, replies1, log1, faults1 := d.mem, r.rest, d.replies, d.log, d.faults;
    var size;
    size, eof, err := UploadChunk(d, r, sz, bank, addr);
    TurnBlamed(err, faults1, d.faults, r.reliable, replies1, d.replies, Nil);
    if err != Nil {
      assert Interrupted(known, d.mem, mem, bank, offset, data, n, k) by {
        SentInterrupted(known, m1, replies1, log1, mem, log, bank, offset, data, n, k);
        if sz <= |rest1| {
          ChunkSent(known, m1, replies1, log1, mem, log, bank, offset, data, n, k, sz, addr, rest1, left, []);
        }
      }
      if err == ErrUnexpectedEOF {
        ShortOfChunk(n, left, data, rest1, k, sz);
      }
      ErrorEnds(n, |data|, k, err);
      return;
    }
    if eof {
      EofEnds(n, left, data, rest1, k);
      return;
    }
    addr', left', k' := Add32(addr, size), left - size, k + sz;
    UploadingMore(known, m1, replies1, log1, mem, log, bank, offset, addr, data, rest1, n, left, k, replies0, sz, size,
                  d.mem, d.replies, d.log, r.rest, addr', left', k');
  }

  function Size(n: int): nat {
    if n > 0 then n else 0
  }

  /** No address of the padded range exceeds 32 bits. */
  predicate InRange(n: int, offset: u32) {
    offset + PaddedSize(Size(n)) <= 0x1_0000_0000
  }

  /** No reply is pending, and no address of the padded range exceeds 32 bits. */
  predicate InOrder(n: int, offset: u32, replies: seq<u8>) {
    InRange(n, offset) && replies == []
  }

  /** The end of the chunk after the first k bytes. */
  function NextChunk(n: int, k: nat): nat
    requires k <= Size(n)
  {
    if k + IdealChunkSize(n) <= Size(n) then k + IdealChunkSize(n) else Size(n)
  }

  // ---------------------------------------------------------------- download

  /** The image delivered for n bytes of a bank. */
  function Image(mem: Memory, bank: u8, offset: nat, n: nat, bs: ByteSwapper): seq<u8>
    requires bs.Fits(n)
  {
    bs.Swapped(Fetch(mem, bank, offset, n))
  }

  /** Of the image of n bytes, or of as many as can be swapped, a first part was written. */
  ghost predicate Partial(out0: seq<u8>, out1: seq<u8>, mem: Memory, bank: u8, offset: nat, n: int, bs: ByteSwapper) {
    exists m: nat :: m <= Size(n) && bs.Fits(m) && out1 <= out0 + Image(mem, bank, offset, m, bs)
  }

  /** Downloads n bytes of a bank into a writer. Success delivers exactly the image, swapped as a whole, and
      leaves the memory as it was; it requires whole groups. In any case what was written before stays. */
  method CmdDownload(ctx: Context, d: Drive, w: BsWriter, n: int, bank: u8, offset: u32) returns (err: DriverError)
    modifies ctx, d, w
    ensures ctx.Later() && Hushed(ctx, d)
    ensures old(w.out) <= w.out && d.mem == old(d.mem)
    ensures err == Nil ==> ctx.done == Nil
    // absent other faults, the length decides
    ensures err == Nil || err == ErrInvalidBufferForByteswap || Faulted(err)
    ensures !Faulted(err) ==> (err == Nil <==> w.bs.Fits(Size(n)))
    ensures err == ErrCanceled || err == ErrDeadlineExceeded ==> err == ctx.done
    ensures InOrder(n, offset, old(d.replies)) && err == Nil ==>
              && w.out == old(w.out) + Image(d.mem, bank, offset, Size(n), w.bs)
              && d.replies == []
              && d.log == old(d.log) + Chunks(CMD_DUMP_TO_PC, bank, offset, IdealChunkSize(n), Size(n))
    ensures d.faults == old(d.faults) || err == ErrIo
    ensures old(d.replies) == [] ==> Blamed(err, old(d.faults), d.faults, w.reliable, ctx.done)
    // a cancelled call does nothing
    ensures old(ctx.done) != Nil && n > 0 ==>
              err == old(ctx.done) && w.out == old(w.out) && d.log == old(d.log) && d.replies == old(d.replies)
    // in any case a first part of the image was written
    ensures InOrder(n, offset, old(d.replies)) ==> Partial(old(w.out), w.out, d.mem, bank, offset, n, w.bs)
  {
    hide RoundDown, IdealChunkSize, Chunks, ByteSwapper.Swapped, Received, PaddedSize, InRange, Image,
         ByteSwapper.Fits, Blamed, ChunkBlamed, Downloading, Partial;
    var left, addr, chunkSize := n, offset, IdealChunkSize(n);
    ghost var k, out, log := 0, w.out, d.log;
    ghost var known := InOrder(n, offset, d.replies);
    NothingDownloaded(known, d.replies, d.mem, log, bank, offset, n, w.bs, out);
    var e: ContextError := Nil;
    if left > 0 {
      e := ctx.Err();
    }
    while left > 0 && e == Nil
      invariant ctx.Later() && Hushed(ctx, d) && (left > 0 ==> e == ctx.done)
      invariant d.faults == old(d.faults) && (old(d.replies) == [] ==> d.replies == [])
      invariant d.mem == old(d.mem) && (old(ctx.done) != Nil && n > 0 ==> left == n && k == 0)
      invariant Downloading(known, d.replies, d.log, w.out, d.mem, log, bank, offset, addr, w.bs, out, n, left, k,
                            old(d.replies))
      decreases left
    {
      ghost var faults1, replies1 := d.faults, d.replies;
      left, addr, err, k := DownloadTurn(d, w, n, left, bank, addr, chunkSize, k, offset, out, log, known,
                                           old(d.replies));
      TurnBlamed(err, faults1, d.faults, w.reliable, replies1, d.replies, ctx.done);
      if err != Nil {
        return;
      }
      e := ctx.Err();
    }
    err := ctx.Err();
    NotBlamed(ctx.done, d.faults, w.reliable);
    DownloadingEnds(known, d.replies, d.log, w.out, d.mem, log, bank, offset, addr, w.bs, out, n, left, k,
                    old(d.replies));
  }

  /** What the loop of a download maintains. */
  ghost predicate Downloading(known: bool, replies: seq<u8>, sent: seq<Transfer>, written: seq<u8>, mem: Memory,
                              log: seq<Transfer>, bank: u8, offset: nat, addr: nat, bs: ByteSwapper, out: seq<u8>,
                              n: int, left: int, k: nat, replies0: seq<u8>) {
    && out <= written && (k == 0 ==> replies == replies0 && sent == log && written == out)
    && k <= Size(n) && left == n - k && (k < Size(n) ==> RoundDown(k, IdealChunkSize(n)) == k)
    && (known && k < Size(n) ==> addr == offset + k)
    && bs.Fits(k)
    && Received(known, replies, sent, written, mem, log, bank, offset, bs, out, n, k)
  }

  lemma NothingDownloaded(known: bool, replies: seq<u8>, mem: Memory, log: seq<Transfer>, bank: u8, offset: nat,
                          n: int, bs: ByteSwapper, out: seq<u8>)
    requires known ==> replies == []
    ensures Downloading(known, replies, log, out, mem, log, bank, offset, offset, bs, out, n, n, 0, replies)
  {
    hide Received, RoundDown, IdealChunkSize;
    NothingReceived(known, replies, mem, log, bank, offset, n, bs, out);
  }

  lemma DownloadingEnds(known: bool, replies: seq<u8>, sent: seq<Transfer>, written: seq<u8>, mem: Memory,
                        log: seq<Transfer>, bank: u8, offset: nat, addr: nat, bs: ByteSwapper, out: seq<u8>,
                        n: int, left: int, k: nat, replies0: seq<u8>)
    requires Downloading(known, replies, sent, written, mem, log, bank, offset, addr, bs, out, n, left, k, replies0)
    ensures k <= Size(n) && out <= written
    ensures left == n > 0 ==> replies == replies0 && sent == log && written == out
    ensures left <= 0 ==> bs.Fits(Size(n))
    ensures known ==> Partial(out, written, mem, bank, offset, n, bs)
    ensures left <= 0 && known ==>
              && replies == [] && sent == log + Chunks(CMD_DUMP_TO_PC, bank, offset, IdealChunkSize(n), Size(n))
              && written == out + Image(mem, bank, offset, Size(n), bs)
  {
    hide Received, RoundDown, IdealChunkSize, Image, Chunks, ByteSwapper.Fits;
    ReceivedAll(known, replies, sent, written, mem, log, bank, offset, bs, out, n, k);
  }

  /** What a download of k bytes has delivered. */
  ghost predicate Received(known: bool, replies: seq<u8>, sent: seq<Transfer>, written: seq<u8>, mem: Memory,
                           log: seq<Transfer>, bank: u8, offset: nat, bs: ByteSwapper, out: seq<u8>, n: int, k: nat)
  {
    known ==> && replies == []
              && sent == log + Chunks(CMD_DUMP_TO_PC, bank, offset, IdealChunkSize(n), k)
              && bs.Fits(k)
              && written == out + Image(mem, bank, offset, k, bs)
  }

  lemma NothingReceived(known: bool, replies: seq<u8>, mem: Memory, log: seq<Transfer>, bank: u8, offset: nat, n: int,
                        bs: ByteSwapper, out: seq<u8>)
    requires known ==> replies == []
    ensures Received(known, replies, log, out, mem, log, bank, offset, bs, out, n, 0)
    ensures IdealChunkSize(n) > 0 && RoundDown(0, IdealChunkSize(n)) == 0 && bs.Fits(0)
  {
    assert Image(mem, bank, offset, 0, bs) == [];
    assert Chunks(CMD_DUMP_TO_PC, bank, offset, IdealChunkSize(n), 0) == [];
  }

  /** One turn of the download loop. */
  method DownloadTurn(d: Drive, w: BsWriter, ghost n: int, left: int, bank: u8, addr: u32, chunkSize: nat,
                      ghost k: nat, ghost offset: u32, ghost out: seq<u8>, ghost log: seq<Transfer>, ghost known: bool,
                      ghost replies0: seq<u8>)
    returns (left': int, addr': u32, err: DriverError, ghost k': nat)
    requires left > 0 && chunkSize == IdealChunkSize(n) && (known ==> InRange(n, offset))
    requires Downloading(known, d.replies, d.log, w.out, d.mem, log, bank, offset, addr, w.bs, out, n, left, k,
                         replies0)
    modifies d, w
    ensures d.mem == old(d.mem) && old(w.out) <= w.out && out <= w.out
    ensures || err == Nil || err == ErrIo || err == ErrInvalidCompletion
            || (err == ErrInvalidBufferForByteswap && !w.bs.Fits(Size(n)))
    ensures err == Nil ==>
              && left' < left
              && Downloading(known, d.replies, d.log, w.out, d.mem, log, bank, offset, addr', w.bs, out, n, left', k',
                             replies0)
    ensures ChunkBlamed(err, old(d.faults), d.faults, w.reliable, old(d.replies), d.replies)
    ensures err != Nil && known ==> Partial(out, w.out, d.mem, bank, offset, n, w.bs)
  {
    hide RoundDown, IdealChunkSize, Received, Image, PaddedSize, ByteSwapper.Fits, ChunkBlamed, Downloading, Partial;
    left', addr', k' := left, addr, k;
    var sz := chunkSize;
    if sz > left {
      sz := left;
    }
    ghost var replies1, log1, out1 := d.replies, d.log, w.out;
    StillDownloading(known, replies1, log1, out1, d.mem, log, bank, offset, addr, w.bs, out, n, left, k, replies0, sz);
    err := DownloadChunk(d, w, sz, bank, addr);
    if err != Nil {
      PartlyDownloaded(known, replies1, log1, out1, d.mem, log, bank, offset, addr, w.bs, out, n, left, k, replies0, sz,
                       w.out);
      return;
    }
    addr', left', k' := Add32(addr, sz), left - sz, k + sz;
    DownloadingMore(known, replies1, log1, out1, d.mem, log, bank, offset, addr, w.bs, out, n, left, k, replies0, sz,
                    d.replies, d.log, w.out, addr', left', k');
  }

  lemma PartlyDownloaded(known: bool, replies: seq<u8>, sent: seq<Transfer>, written: seq<u8>, mem: Memory,
                         log: seq<Transfer>, bank: u8, offset: nat, addr: nat, bs: ByteSwapper, out: seq<u8>,
                         n: int, left: int, k: nat, replies0: seq<u8>, sz: nat, out2: seq<u8>)
    requires Downloading(known, replies, sent, written, mem, log, bank, offset, addr, bs, out, n, left, k, replies0)
    requires left > 0 && sz == if IdealChunkSize(n) > left then left else IdealChunkSize(n)
    requires known ==> out2 == written || (bs.Fits(sz) && out2 <= written + Image(mem, bank, addr, sz, bs))
    ensures known ==> Partial(out, out2, mem, bank, offset, n, bs)
  {
    hide RoundDown, IdealChunkSize, Image, ByteSwapper.Fits;
    if known {
      assert written == out + Image(mem, bank, offset, k, bs);
      if bs.Fits(sz) {
        ImageMore(mem, bank, offset, k, sz, bs, out);
      }
    }
  }

  /** There is a chunk left to download. */
  lemma StillDownloading(known: bool, replies: seq<u8>, sent: seq<Transfer>, written: seq<u8>, mem: Memory,
                         log: seq<Transfer>, bank: u8, offset: nat, addr: nat, bs: ByteSwapper, out: seq<u8>,
                         n: int, left: int, k: nat, replies0: seq<u8>, sz: nat)
    requires Downloading(known, replies, sent, written, mem, log, bank, offset, addr, bs, out, n, left, k, replies0)
    requires left > 0 && sz == if IdealChunkSize(n) > left then left else IdealChunkSize(n)
    ensures out <= written && (known ==> replies == []) && 0 < sz && PaddedSize(sz) < 0x1000000
    ensures bs.Fits(Size(n)) ==> bs.Fits(sz)
  {
    hide RoundDown, IdealChunkSize, Received, ByteSwapper.Fits, PaddedSize;
    PaddedWithin(sz, IdealChunkSize(n));
    ReceivedAll(known, replies, sent, written, mem, log, bank, offset, bs, out, n, k);
    if bs.Fits(Size(n)) {
      ChunkFits(bs, n, k, sz);
    }
  }

  /** One more chunk. */
  lemma DownloadingMore(known: bool, replies1: seq<u8>, log1: seq<Transfer>, out1: seq<u8>, mem: Memory,
                        log: seq<Transfer>, bank: u8, offset: u32, addr: u32, bs: ByteSwapper, out: seq<u8>,
                        n: int, left: int, k: nat, replies0: seq<u8>, sz: nat, replies2: seq<u8>,
                        log2: seq<Transfer>, out2: seq<u8>, addr2: u32, left2: int, k2: nat)
    requires Downloading(known, replies1, log1, out1, mem, log, bank, offset, addr, bs, out, n, left, k, replies0)
    requires left > 0 && sz == if IdealChunkSize(n) > left then left else IdealChunkSize(n)
    requires bs.Fits(sz) && out1 <= out2
    requires known ==>
               && InRange(n, offset) && replies2 == [] && out2 == out1 + Image(mem, bank, addr, sz, bs)
               && log2 == log1 + [Transfer(CMD_DUMP_TO_PC, bank, addr, PaddedSize(sz))]
    requires addr2 == Add32(addr, sz) && left2 == left - sz && k2 == k + sz
    ensures left2 < left && out <= out2
    ensures Downloading(known, replies2, log2, out2, mem, log, bank, offset, addr2, bs, out, n, left2, k2, replies0)
  {
    hide RoundDown, IdealChunkSize, Received, Image, PaddedSize, ByteSwapper.Fits;
    FitsSum(bs, k, sz);
    assert sz == IdealChunkSize(n) ==> RoundDown(k2, IdealChunkSize(n)) == k2 by {
      ChunksMore(0, 0, 0, IdealChunkSize(n), k, sz);
    }
    ChunkReceived(known, replies1, log1, out1, mem, log, bank, offset, bs, out, n, k, sz, replies2, log2, out2);
  }

  lemma ReceivedAll(known: bool, replies: seq<u8>, sent: seq<Transfer>, written: seq<u8>, mem: Memory,
                    log: seq<Transfer>, bank: u8, offset: nat, bs: ByteSwapper, out: seq<u8>, n: int, k: nat)
    requires Received(known, replies, sent, written, mem, log, bank, offset, bs, out, n, k)
    ensures known ==>
              && replies == [] && sent == log + Chunks(CMD_DUMP_TO_PC, bank, offset, IdealChunkSize(n), k)
              && bs.Fits(k) && written == out + Image(mem, bank, offset, k, bs)
  {
  }

  /** A transfer of whole groups consists of chunks of whole groups. */
  lemma ChunkFits(bs: ByteSwapper, n: int, k: nat, sz: nat)
    requires k < n && RoundDown(k, IdealChunkSize(n)) == k && bs.Fits(n)
    requires sz == if IdealChunkSize(n) > n - k then n - k else IdealChunkSize(n)
    ensures bs.Fits(sz)
  {
    hide RoundDown, IdealChunkSize;
    if sz < n - k {
      Halves(sz);
    } else {
      WholeChunks(k, IdealChunkSize(n));
      Halves(k);
      FitsGap(bs, k, n);
    }
  }

  lemma Halves(n: nat)
    requires n % 512 == 0
    ensures n % 2 == 0 && n % 4 == 0
  {
    var q := n / 512;
    QuotientUnique(n, 2, 256 * q, 0);
    QuotientUnique(n, 4, 128 * q, 0);
  }

  lemma ChunkReceived(known: bool, replies: seq<u8>, sent: seq<Transfer>, written: seq<u8>, mem: Memory,
                      log: seq<Transfer>, bank: u8, offset: nat, bs: ByteSwapper, out: seq<u8>, n: int, k: nat, sz: nat,
                      replies2: seq<u8>, sent2: seq<Transfer>, written2: seq<u8>)
    requires 0 < sz <= IdealChunkSize(n) && RoundDown(k, IdealChunkSize(n)) == k
    requires Received(known, replies, sent, written, mem, log, bank, offset, bs, out, n, k)
    requires known ==>
               && replies2 == [] && bs.Fits(sz) && written2 == written + Image(mem, bank, offset + k, sz, bs)
               && sent2 == sent + [Transfer(CMD_DUMP_TO_PC, bank, offset + k, PaddedSize(sz))]
    ensures Received(known, replies2, sent2, written2, mem, log, bank, offset, bs, out, n, k + sz)
  {
    hide Image, PaddedSize, RoundDown, IdealChunkSize, ByteSwapper.Fits, Chunks;
    if known {
      LogMore(log, CMD_DUMP_TO_PC, bank, offset, IdealChunkSize(n), k, sz);
      ImageMore(mem, bank, offset, k, sz, bs, out);
    }
  }

  lemma ImageMore(mem: Memory, bank: u8, offset: nat, k: nat, sz: nat, bs: ByteSwapper, out: seq<u8>)
    requires bs.Fits(k) && bs.Fits(sz)
    ensures bs.Fits(k + sz)
    ensures out + Image(mem, bank, offset, k, bs) + Image(mem, bank, offset + k, sz, bs)
         == out + Image(mem, bank, offset, k + sz, bs)
  {
    var a, b := Fetch(mem, bank, offset, k), Fetch(mem, bank, offset + k, sz);
    SwapConcat(bs, a, b);
    assert Fetch(mem, bank, offset, k + sz) == a + b;
    assert out + bs.Swapped(a) + bs.Swapped(b) == out + (bs.Swapped(a) + bs.Swapped(b));
  }

  /** Dumps sz bytes, padded, and writes them without the padding. */
  method DownloadChunk(d: Drive, w: BsWriter, sz: nat, bank: u8, addr: u32) returns (err: DriverError)
    requires 0 < sz && PaddedSize(sz) < 0x1000000
    modifies d, w
    ensures d.mem == old(d.mem) && old(w.out) <= w.out
    ensures || err == Nil || err == ErrIo || err == ErrInvalidCompletion
            || (err == ErrInvalidBufferForByteswap && !w.bs.Fits(sz))
    ensures err == Nil ==> w.bs.Fits(sz)
    ensures old(d.replies) == [] && err == Nil ==>
              && d.replies == []
              && w.out == old(w.out) + Image(d.mem, bank, addr, sz, w.bs)
              && d.log == old(d.log) + [Transfer(CMD_DUMP_TO_PC, bank, addr, PaddedSize(sz))]
    ensures ChunkBlamed(err, old(d.faults), d.faults, w.reliable, old(d.replies), d.replies)
    ensures old(d.replies) == [] && err != Nil ==>
              w.out == old(w.out) || (w.bs.Fits(sz) && w.out <= old(w.out) + Image(d.mem, bank, addr, sz, w.bs))
  {
    hide BankAndLength, Packet, Respond, Or;
    var paddedSz := sz;
    if paddedSz % 512 != 0 {
      paddedSz := paddedSz + (512 - paddedSz % 512);
    }
    assert paddedSz == PaddedSize(sz);
    var buf := new u8[paddedSz];
    TransferDecodes(d.mem, CMD_DUMP_TO_PC, bank, addr, paddedSz, []);
    err := d.SendCmd(CMD_DUMP_TO_PC, [addr, BankAndLength(bank, paddedSz)], [], buf);
    if err != Nil {
      return;
    }
    ghost var dump := buf[..];
    if old(d.replies) == [] {
      var reply := Fetch(d.mem, bank, addr, paddedSz) + Completion(CMD_DUMP_TO_PC);
      assert dump == reply[..paddedSz];
      assert buf[..sz] == Fetch(d.mem, bank, addr, sz);
    }
    var written;
    written, err := w.Write(buf, sz);
  }

  // ---------------------------------------------------------------- upload, then download

  /** What an upload of n bytes leaves behind: a download delivers them, swapped as the writer swaps, and a
      download through the same byteswapper again gives them back; up to the next multiple of 512 the memory is
      0xff, and all else is as it was. */
  lemma UploadedImage(after: Memory, before: Memory, bank: u8, offset: nat, data: seq<u8>, n: nat, bs: ByteSwapper)
    requires n <= |data| && bs.Fits(n) && SameMemory(after, Uploaded(before, bank, offset, data, n))
    ensures Image(after, bank, offset, n, bs) == bs.Swapped(data[..n])
    ensures bs.Swapped(Image(after, bank, offset, n, bs)) == data[..n]
    ensures forall a: nat :: offset + n <= a < offset + PaddedSize(n) ==> after(bank, a) == 0xff
    ensures forall b: u8, a: nat :: b != bank || !(offset <= a < offset + PaddedSize(n)) ==> after(b, a) == before(b, a)
  {
    hide ByteSwapper.Swapped, ByteSwapper.Fits, PaddedSize;
    var padded := Padded(data[..n]);
    FetchSame(after, Store(before, bank, offset, padded), bank, offset, n);
    FetchStored(before, bank, offset, padded, n);
    SwapInvolution(bs, data[..n]);
  }

  /** Uploads an asset, downloads it again and compares checksums. Over a working device the comparison cannot
      fail: what is downloaded is what was uploaded. */
  method UploadAndVerify(ctx: Context, d: Drive, asset: seq<u8>, crc: seq<u8> -> u32, bank: u8, offset: u32)
    returns (err: Error)
    requires d.replies == [] && InRange(|asset|, offset)
    modifies ctx, d
    ensures err != ErrTransferFailed
    ensures err == Nil ==> Fetch(d.mem, bank, offset, |asset|) == asset
    ensures err == Nil ==> SameMemory(d.mem, Store(old(d.mem), bank, offset, Padded(asset)))
    ensures d.faults == old(d.faults) ==> err == Nil || err == ctx.done
    // the asset was loaded, and dumped again
    ensures err == Nil ==>
              d.log == old(d.log) + Chunks(CMD_LOAD_FROM_PC, bank, offset, IdealChunkSize(|asset|), |asset|)
                       + Chunks(CMD_DUMP_TO_PC, bank, offset, IdealChunkSize(|asset|), |asset|)
  {
    var r := new Reader(asset, true);
    ghost var k;
    err, k := CmdUpload(ctx, d, r, |asset|, bank, offset);
    if err != Nil {
      return;
    }
    assert k == |asset| && asset[..k] == asset;
    var w := new BsWriter(BSNone, true);
    err := CmdDownload(ctx, d, w, |asset|, bank, offset);
    if err != Nil {
      return;
    }
    UploadedImage(d.mem, old(d.mem), bank, offset, asset, |asset|, BSNone);
    assert w.out == asset by {
      assert BSNone.Swapped(asset) == asset;
    }
    if crc(w.out) != crc(asset) {
      return ErrTransferFailed;
    }
  }

  lemma FetchSame(m: Memory, n: Memory, bank: u8, addr: nat, len: nat)
    requires SameMemory(m, n)
    ensures Fetch(m, bank, addr, len) == Fetch(n, bank, addr, len)
  {
  }
}
