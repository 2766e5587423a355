/** Byte sources, read as io.ReadFull reads them. */
module Streams {
  import opened Bits
  import opened Errors

  /** A source of finitely many bytes. An unreliable one may fail at any byte. */
  class Reader {
    var rest: seq<u8>
    const reliable: bool

    constructor (data: seq<u8>, reliable: bool)
      ensures rest == data && this.reliable == reliable
    {
      this.rest, this.reliable := data, reliable;
    }

    /** Fills buf[..n]: the end of the source is ErrEOF before the first byte and ErrUnexpectedEOF after it. */
    method ReadFull(buf: array<u8>, n: nat) returns (read: nat, err: DriverError)
      requires n <= buf.Length
      modifies this, buf
      ensures read <= n && read <= |old(rest)|
      ensures buf[..read] == old(rest)[..read] && rest == old(rest)[read..]
      ensures forall i :: read <= i < buf.Length ==> buf[i] == old(buf[i])
      ensures err == Nil <==> read == n
      ensures err == ErrEOF ==> read == 0 && |old(rest)| == 0
      ensures err == ErrUnexpectedEOF ==> 0 < read && read == |old(rest)|
      ensures err == Nil || err == ErrEOF || err == ErrUnexpectedEOF || (err == ErrIo && !reliable)
    {
      var stop: int := *;
      read := if n <= |rest| then n else |rest|;
      err := if read == n then Nil else if read == 0 then ErrEOF else ErrUnexpectedEOF;
      if !reliable && 0 <= stop < read {
        read, err := stop, ErrIo;
      }
      for i := 0 to read
        invariant rest == old(rest)
        invariant buf[..i] == rest[..i]
        invariant forall k :: i <= k < buf.Length ==> buf[k] == old(buf[k])
      {
        buf[i] := rest[i];
      }
      rest := rest[read..];
    }
  }
}
