/** The 64drive cartridge behind its USB link: memory banks, the command protocol, and the driver's two ways of
    sending a command. */
module Device {
  import opened Bits
  import opened Endian
  import opened Errors

  const CMD_LOAD_FROM_PC: u8 := 0x20
  const CMD_DUMP_TO_PC: u8 := 0x30

  const SIGNATURE: seq<u8> := [0x43, 0x4d, 0x44]  // "CMD"

  /** Contents of all banks. */
  type Memory = (u8, nat) -> u8

  /** A transfer command the device accepted. */
  datatype Transfer = Transfer(cmd: u8, bank: u8, addr: nat, len: nat)

  function Completion(cmd: u8): (r: seq<u8>)
    ensures |r| == 4
  {
    [0x43, 0x4d, 0x50, cmd]  // "CMP" and the command
  }

  /** Memory with data written to a bank. */
  function Store(mem: Memory, bank: u8, addr: nat, data: seq<u8>): Memory {
    (b: u8, a: nat) => if b == bank && addr <= a < addr + |data| then data[a - addr] else mem(b, a)
  }

  function Fetch(mem: Memory, bank: u8, addr: nat, len: nat): (data: seq<u8>)
    ensures |data| == len
  {
    seq(len, i requires 0 <= i < len => mem(bank, addr + i))
  }

  /** Equal contents. */
  ghost predicate SameMemory(m: Memory, n: Memory) {
    forall b: u8, a: nat :: m(b, a) == n(b, a)
  }

  /** A command on the wire: the command byte, the signature, big-endian arguments, then the data. */
  function Packet(cmd: u8, args: seq<u32>, data: seq<u8>): seq<u8> {
    [cmd] + SIGNATURE + Words(args) + data
  }

  function Words(args: seq<u32>): (b: seq<u8>)
    ensures |b| == 4 * |args|
  {
    if args == [] then [] else Words(args[..|args| - 1]) + PutBigEndian32(args[|args| - 1])
  }

  /** `uint32(bank)<<24 | uint32(len)` */
  function BankAndLength(bank: u8, len: nat): u32 {
    Or(bank * 0x1000000, len % 0x1_0000_0000) % 0x1_0000_0000
  }

  /** Below 2^24 the packed word decodes to its bank and length, so that no two transfers share a word. */
  lemma BankAndLengthDecodes(bank: u8, len: nat)
    requires len < 0x1000000
    ensures BankAndLength(bank, len) / 0x1000000 == bank && BankAndLength(bank, len) % 0x1000000 == len
  {
    hide BankAndLength;
    BankAndLengthIs(bank, len);
    Fields(bank, len, BankAndLength(bank, len));
  }

  lemma BankAndLengthIs(bank: u8, len: nat)
    requires len < 0x1000000
    ensures BankAndLength(bank, len) == bank * 0x1000000 + len
  {
    hide Or;
    OrTopByte(bank, len);
  }

  lemma Fields(hi: u8, lo: nat, w: u32)
    requires lo < 0x1000000 && w == hi * 0x1000000 + lo
    ensures w / 0x1000000 == hi && w % 0x1000000 == lo
  {
  }

  /** What a packet does to the memory, what is replied, and the transfer it is, if any. */
  datatype Effect = Effect(mem: Memory, reply: seq<u8>, transfers: seq<Transfer>)

  /** The device's side of the two transfer commands. Transfers must be multiples of 512 bytes; to anything
      else the device does not reply. */
  function Respond(mem: Memory, packet: seq<u8>): Effect {
    if |packet| < 12 || packet[1..4] != SIGNATURE then Effect(mem, [], [])
    else
      var cmd, addr, word := packet[0], BigEndian32(packet[4..8]), BigEndian32(packet[8..12]);
      var bank, len, data := word / 0x1000000, word % 0x1000000, packet[12..];
      if len % 512 != 0 then Effect(mem, [], [])
      else if cmd == CMD_LOAD_FROM_PC && |data| == len then
        Effect(Store(mem, bank, addr, data), Completion(cmd), [Transfer(cmd, bank, addr, len)])
      else if cmd == CMD_DUMP_TO_PC && data == [] then
        Effect(mem, Fetch(mem, bank, addr, len) + Completion(cmd), [Transfer(cmd, bank, addr, len)])
      else Effect(mem, [], [])
  }

  /** The device decodes the transfer the driver encoded. */
  lemma TransferDecodes(mem: Memory, cmd: u8, bank: u8, addr: u32, len: nat, data: seq<u8>)
    requires len < 0x1000000 && len % 512 == 0
    requires (cmd == CMD_LOAD_FROM_PC && |data| == len) || (cmd == CMD_DUMP_TO_PC && data == [])
    ensures var e := Respond(mem, Packet(cmd, [addr, BankAndLength(bank, len)], data));
            && e.transfers == [Transfer(cmd, bank, addr, len)]
            && e.mem == (if cmd == CMD_LOAD_FROM_PC then Store(mem, bank, addr, data) else mem)
            && e.reply == (if cmd == CMD_LOAD_FROM_PC then [] else Fetch(mem, bank, addr, len)) + Completion(cmd)
  {
    var word := BankAndLength(bank, len);
    var args := [addr, word];
    var p := Packet(cmd, args, data);
    assert args[..1] == [addr] && [addr][..0] == [];
    assert Words(args) == PutBigEndian32(addr) + PutBigEndian32(word);
    assert p[1..4] == SIGNATURE && p[4..8] == PutBigEndian32(addr) && p[8..12] == PutBigEndian32(word);
    assert p[12..] == data;
    BigEndian32RoundTrip(addr, [0, 0, 0, 0]);
    BigEndian32RoundTrip(word, [0, 0, 0, 0]);
    BankAndLengthDecodes(bank, len);
    assert [] + Completion(cmd) == Completion(cmd);
  }

  /** What bytes replied mean to a command that awaits n bytes and then its completion packet. */
  function Verdict(replied: seq<u8>, n: nat, cmd: u8): DriverError {
    if |replied| < n + 4 then ErrIo
    else if replied[n..n + 4] == Completion(cmd) then Nil
    else ErrInvalidCompletion
  }

  lemma NothingPending(replies: seq<u8>, reply: seq<u8>, n: nat, cmd: u8)
    requires replies == []
    ensures replies + reply == reply
    ensures |reply| == n + 4 && reply[n..] == Completion(cmd) ==> Verdict(replies + reply, n, cmd) == Nil
  {
    assert |reply| == n + 4 ==> reply[n..] == reply[n..n + 4];
  }

  lemma RepliedWhole(all: seq<u8>, n: nat, completion: seq<u8>, rest: seq<u8>)
    requires n <= |all| && all[n..] == completion + rest
    ensures |all| == n + |completion| ==> all == all[..n] + completion && rest == []
    ensures |all| >= |completion|
  {
    assert all == all[..n] + all[n..];
  }

  lemma LaterVerdict(replied: seq<u8>, n: nat, cmd: u8)
    ensures if n <= |replied| then Verdict(replied[n..], 0, cmd) == Verdict(replied, n, cmd)
            else Verdict(replied, n, cmd) == ErrIo
  {
    if n + 4 <= |replied| {
      assert replied[n..][0..4] == replied[n..n + 4];
    }
  }

  /** No reply is pending, and the device will reply n bytes and the completion packet. */
  predicate Answers(mem: Memory, replies: seq<u8>, cmd: u8, args: seq<u32>, data: seq<u8>, n: nat) {
    var reply := Respond(mem, Packet(cmd, args, data)).reply;
    replies == [] && |reply| == n + 4 && reply[n..] == Completion(cmd)
  }

  class Drive {
    var mem: Memory
    var replies: seq<u8>              // bytes the device has sent and the driver has not read
    ghost var log: seq<Transfer>      // transfers accepted so far
    ghost var faults: nat             // USB transactions that failed

    constructor (mem: Memory)
      ensures this.mem == mem && replies == [] && log == [] && faults == 0
    {
      this.mem, replies, log, faults := mem, [], [], 0;
    }

    /** One USB write. A failed one may still have reached the device. */
    method UsbWrite(packet: seq<u8>) returns (err: DriverError)
      modifies this
      ensures var e := Respond(old(mem), packet);
              || (mem == e.mem && replies == old(replies) + e.reply && log == old(log) + e.transfers)
              || (err != Nil && mem == old(mem) && replies == old(replies) && log == old(log))
      ensures err == Nil || err == ErrIo
      ensures faults == old(faults) + if err == Nil then 0 else 1
    {
      var lost: bool, late: bool := *, *;
      err := Nil;
      if !lost {
        var e := Respond(mem, packet);
        mem, replies, log := e.mem, replies + e.reply, log + e.transfers;
      }
      if lost || late {
        faults := faults + 1;
        err := ErrIo;
      }
    }

    /** Reads n bytes of replies; when there are fewer, the device seems frozen. */
    method UsbReadFull(buf: array<u8>, n: nat) returns (err: DriverError)
      requires n <= buf.Length
      modifies this`replies, this`faults, buf
      ensures err == Nil ==> n <= |old(replies)| && buf[..n] == old(replies)[..n] && replies == old(replies)[n..]
      ensures err == Nil || err == ErrIo
      ensures faults == old(faults) || (faults == old(faults) + 1 && err == ErrIo)
      ensures faults == old(faults) ==> (err == Nil <==> n <= |old(replies)|)
    {
      var broken: bool := *;
      if broken {
        faults := faults + 1;
        return ErrIo;
      }
      if |replies| < n {
        return ErrIo;
      }
      for i := 0 to n
        invariant replies == old(replies) && faults == old(faults)
        invariant buf[..i] == replies[..i]
      {
        buf[i] := replies[i];
      }
      replies := replies[n..];
      err := Nil;
    }

    /** Sends a command without waiting for its completion, and reads |out| bytes of reply. */
    method SendCmdNoCmp(cmd: u8, args: seq<u32>, data: seq<u8>, out: array<u8>) returns (err: DriverError)
      modifies this, out
      ensures var e := Respond(old(mem), Packet(cmd, args, data));
              && ((mem == e.mem && log == old(log) + e.transfers) || (err != Nil && mem == old(mem) && log == old(log)))
              && (err == Nil ==> var replied := old(replies) + e.reply;
                                 out.Length <= |replied| && out[..] == replied[..out.Length]
                                 && replies == replied[out.Length..])
      ensures err == Nil || err == ErrIo
      // what decides, absent a fault: a reply of the length
      ensures faults == old(faults) || (faults == old(faults) + 1 && err == ErrIo)
      ensures faults == old(faults) ==>
                var e := Respond(old(mem), Packet(cmd, args, data));
                && mem == e.mem && log == old(log) + e.transfers
                && (err == Nil <==> out.Length <= |old(replies) + e.reply|)
    {
      var buf := [cmd] + SIGNATURE;
      for i := 0 to |args|
        invariant buf == [cmd] + SIGNATURE + Words(args[..i])
      {
        assert args[..i + 1][..i] == args[..i];
        buf := buf + PutBigEndian32(args[i]);
      }
      assert args[..|args|] == args;
      if |data| != 0 {
        buf := buf + data;
      }
      assert buf == Packet(cmd, args, data);
      err := UsbWrite(buf);
      if err == Nil && out.Length > 0 {
        err := UsbReadFull(out, out.Length);
        assert err == Nil ==> out[..] == out[..out.Length];
      }
    }

    /** Sends a command, reads |out| bytes of reply and checks the completion packet. When no earlier reply is
        pending and the reply has the expected length, success means that the device did what was asked, `out`
        is its reply, and nothing is pending again. */
    method SendCmd(cmd: u8, args: seq<u32>, data: seq<u8>, out: array<u8>) returns (err: DriverError)
      modifies this, out
      ensures var e := Respond(old(mem), Packet(cmd, args, data));
              && ((mem == e.mem && log == old(log) + e.transfers) || (err != Nil && mem == old(mem) && log == old(log)))
              && (err == Nil && old(replies) == [] && (e.reply == [] || |e.reply| == out.Length + 4) ==>
                    e.reply == out[..] + Completion(cmd) && replies == [])
      ensures err == Nil || err == ErrIo || err == ErrInvalidCompletion
      // absent a fault the command is carried out, and what was replied decides
      ensures faults == old(faults) || (faults == old(faults) + 1 && err == ErrIo)
      ensures faults == old(faults) ==>
                var e := Respond(old(mem), Packet(cmd, args, data));
                && mem == e.mem && log == old(log) + e.transfers
                && err == Verdict(old(replies) + e.reply, out.Length, cmd)
      // so a command that is answered as it should be succeeds over a working link
      ensures Answers(old(mem), old(replies), cmd, args, data, out.Length) ==>
                (err == Nil <==> faults == old(faults)) && (err == Nil || err == ErrIo)
    {
      hide Respond, Packet, Completion, Verdict;
      if replies == [] {
        NothingPending(replies, Respond(mem, Packet(cmd, args, data)).reply, out.Length, cmd);
      }
      ghost var e := Respond(mem, Packet(cmd, args, data));
      ghost var all, n := replies + e.reply, out.Length;
      LaterVerdict(all, n, cmd);
      err := SendCmdNoCmp(cmd, args, data, out);
      if err != Nil {
        return;
      }
      assert out[..] == all[..n] && replies == all[n..];
      err := AwaitCompletion(cmd);
      if err == Nil {
        RepliedWhole(all, n, Completion(cmd), replies);
      }
    }

    /** Reads and checks the completion packet. */
    method AwaitCompletion(cmd: u8) returns (err: DriverError)
      modifies this`replies, this`faults
      ensures err == Nil || err == ErrIo || err == ErrInvalidCompletion
      ensures err == Nil ==> old(replies) == Completion(cmd) + replies
      ensures faults == old(faults) || (faults == old(faults) + 1 && err == ErrIo)
      ensures faults == old(faults) ==> err == Verdict(old(replies), 0, cmd)
    {
      var abuf := new u8[4];
      err := UsbReadFull(abuf, 4);
      if err != Nil {
        return;
      }
      assert abuf[..] == abuf[..4] == old(replies)[..4] == old(replies)[0..4];
      if abuf[0] != 0x43 || abuf[1] != 0x4d || abuf[2] != 0x50 || abuf[3] != cmd {
        return ErrInvalidCompletion;
      }
      assert abuf[..] == Completion(cmd);
    }
  }
}
