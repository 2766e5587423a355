/** The flash driver: status polling, erase, program, page loads, page reads, and linear reads and writes. */
module FlashDriver {
  import opened Bits
  import opened Endian
  import opened Errors
  import opened Wrappers
  import opened Layout
  import opened FlashChip
  import opened Protocol
  import opened Contexts
  import opened Bursts
  import opened Sectors
  import opened Safety

  const DEFAULT_BASE_ADDRESS: u32 := 0x08000000
  const NO_LAYOUT := Layout(0, 0, 0, 0, 0)

  /** An operation with a page number in its low bits. */
  function PageCommand(cmd: u32, page: nat): u32 {
    Or(cmd, page % 0x1_0000_0000) % 0x1_0000_0000
  }

  /** The command word setting up the erasure of the sector of a page, or of the whole chip. */
  function SetupEraseCmd(page: Option<nat>): u32 {
    if page.None? then CMD_CHIP_ERASE else PageCommand(CMD_SECTOR_ERASE, page.value)
  }

  function ProgramPageCmd(page: nat): u32 {
    PageCommand(CMD_PROGRAM_PAGE, page)
  }

  /** The chip decodes from a command word exactly the operation and the page the driver put in. */
  lemma PageCommandDecodes(op: u8, cmd: u32, page: nat)
    requires page < 0x400 && cmd == op * 0x1000000
    ensures Opcode(PageCommand(cmd, page)) == cmd && PageField(PageCommand(cmd, page)) == page
  {
    PageCommandIs(op, cmd, page);
    Fields(op, page, PageCommand(cmd, page));
  }

  lemma PageCommandIs(op: u8, cmd: u32, page: nat)
    requires page < 0x400 && cmd == op * 0x1000000
    ensures PageCommand(cmd, page) == op * 0x1000000 + page
  {
    hide Or;
    OrTopByte(op, page);
  }

  lemma Fields(op: u8, page: nat, w: u32)
    requires page < 0x400 && w == op * 0x1000000 + page
    ensures w / 0x1000000 == op && w % 0x400 == page
  {
  }

  function SetupOf(page: Option<nat>): Setup {
    if page.None? then ChipSetup else SectorSetup(page.value)
  }

  /** An erase set-up writes nothing, and arms the chip. */
  lemma SetupQuiet(l: Layout, clearsOnly: bool, page: Option<nat>, log0: seq<Step>, s0: State, act: Act,
                   log1: seq<Step>, s1: State)
    requires Erasable(l, page) && l.TotalPages() <= 0x400
    requires Transaction(l, clearsOnly, log0, s0, act, log1, s1)
    requires act == Tick || act == Cir(SetupEraseCmd(page))
    ensures Quiet(l, log0, s0, log1, s1)
    ensures act != Tick ==> s1.setup == SetupOf(page)
  {
    hide PageCommand;
    if page.Some? {
      PageCommandDecodes(0x4b, CMD_SECTOR_ERASE, page.value);
    }
    if act == Tick {
      TickSettles(log1[|log0|].post, s1);
    }
    QuietStep(l, clearsOnly, log0, s0, act, log1, s1);
  }

  lemma EraseAccepted(l: Layout, page: Option<nat>, a: State, b: State)
    requires l.Fits() && Erasable(l, page) && |a.mem| == l.ChipSize()
    requires !a.work.Busy? && a.setup == SetupOf(page) && Commands(l, a, CMD_ERASE, b)
    ensures var u := EraseUnit(l, page); Starts(a, EraseOp, u.lo, u.hi, Blank(u.hi - u.lo), b)
  {
    hide Times, RoundDown, Pow2, And;
    var u := EraseUnit(l, page);
    assert u.lo == (if a.setup == ChipSetup then 0 else l.PageStart(SectorFirst(l, a.setup.page)))
        && u.hi == (if a.setup == ChipSetup then |a.mem|
                    else l.PageStart(SectorFirst(l, a.setup.page) + l.PagesPerSector())) by {
      if page.Some? {
        SectorBounds(l, page.value);
      }
    }
  }

  /** The confirmation of an erase, after quiet steps of an idle chip. */
  lemma EraseBegins(l: Layout, clearsOnly: bool, page: Option<nat>, log0: seq<Step>, s0: State,
                    log1: seq<Step>, s1: State, act: Act, log2: seq<Step>, s2: State)
    requires l.Fits() && Erasable(l, page) && |s0.mem| == l.ChipSize() && !s0.work.Busy?
    requires Quiet(l, log0, s0, log1, s1) && s1.setup == SetupOf(page)
    requires Transaction(l, clearsOnly, log1, s1, act, log2, s2) && (act == Tick || act == Cir(CMD_ERASE))
    ensures var u := EraseUnit(l, page);
            && Confined(l, log0, s0, log2, s2, u, Blank(u.hi - u.lo), Strict)
            && (act != Tick ==> Begun(s0, s2, u, Blank(u.hi - u.lo)))
  {
    hide EraseUnit, Confined, Begun, Blank, Starts, Transaction;
    var u := EraseUnit(l, page);
    IdleStep(l, clearsOnly, log1, s1, act, log2, s2);
    if act != Tick {
      EraseAccepted(l, page, s1, s2);
    }
    BeginUnit(l, log0, s0, log1, s1, act, log2, s2, u, Blank(u.hi - u.lo), Strict);
  }

  /** The same from a chip that may be busy: nothing but the unit asked for is touched. */
  lemma EraseFenced(l: Layout, clearsOnly: bool, page: Option<nat>, log0: seq<Step>, s0: State,
                    log1: seq<Step>, s1: State, act: Act, log2: seq<Step>, s2: State)
    requires l.Fits() && Erasable(l, page) && |s0.mem| == l.ChipSize()
    requires Quiet(l, log0, s0, log1, s1) && s1.setup == SetupOf(page)
    requires Transaction(l, clearsOnly, log1, s1, act, log2, s2) && (act == Tick || act == Cir(CMD_ERASE))
    ensures Fenced(log0, s0, log2, s2, EraseUnit(l, page))
  {
    hide EraseUnit, Blank, Starts, Fenced, Drifts, Untouched, Times, Pow2, RoundDown, And;
    var u := EraseUnit(l, page);
    QuietDrifts(l, log0, s0, log1, s1);
    if act == Tick {
      DriftStep(l, clearsOnly, log1, s1, act, log2, s2);
      DriftsTrans(log0, s0, log1, s1, log2, s2);
      DriftsFenced(log0, s0, log2, s2, u);
    } else {
      var mid := log2[|log1|].post;
      TickSettles(s1, mid);
      if !mid.work.Busy? {
        EraseAccepted(l, page, mid, s2);
      }
      FencedStart(l, clearsOnly, log0, s0, log1, s1, act, log2, s2, u, Blank(u.hi - u.lo));
    }
  }

  lemma PagesFit(l: Layout)
    requires l.pageBits + l.sectorBits <= 10
    ensures l.TotalPages() <= 0x400
  {
    Pow2Monotone(l.pageBits + l.sectorBits, 10);
    Pow2Values();
  }

  predicate Erasable(l: Layout, page: Option<int>) {
    page.Some? ==> 0 <= page.value < l.TotalPages()
  }

  /** The unit an erase command is about: the sector of the page as the driver bounds it, or the chip. */
  function EraseUnit(l: Layout, page: Option<int>): (u: Unit)
    requires l.Fits() && Erasable(l, page)
    ensures u.kind == EraseOp && u.lo <= u.hi <= l.ChipSize()
  {
    if page.None? then Unit(EraseOp, 0, l.ChipSize())
    else
      SectorBounds(l, page.value);
      Unit(EraseOp, l.PageStart(l.SectorBegin(page.value)), l.PageStart(l.SectorEnd(page.value)))
  }

  lemma PageSizeFits(l: Layout)
    requires l.unitBits + l.offsetBits <= 16
    ensures l.PageSize() <= CIR_OFFSET
  {
    Pow2Monotone(l.unitBits + l.offsetBits, 16);
    Pow2Values();
  }

  function PageUnit(l: Layout, page: nat): (u: Unit)
    requires page < l.TotalPages()
    ensures u.kind == ProgramOp && u.lo + l.PageSize() == u.hi <= l.ChipSize()
  {
    PageBounds(l, page);
    Unit(ProgramOp, l.PageStart(page), l.PageStart(page) + l.PageSize())
  }

  /** Programming the page of the target into the next page of a job makes it part of the job. */
  lemma NextPage(l: Layout, j: Job, mem: seq<u8>, p: nat, page: seq<u8>)
    requires JobFits(l, j) && j.begin <= p < j.end && ProgrammedUpTo(l, j, mem, p)
    requires page == PageOf(l, j.target, p)
    ensures var u := PageUnit(l, p);
            && u.hi <= |mem| && Intact(l, j, mem)
            && OnCells(mem[u.lo..u.hi]) == Strict
            && |page| == u.hi - u.lo && Programmed(mem[u.lo..u.hi], page) == page
            && UnitOfJob(l, j, u, p, p + 1, page)
            && ProgrammedUpTo(l, j, Replace(mem, u.lo, page), p + 1)
  {
    hide Programmed, Replace, UnitOfJob, Intact, Times, Pow2;
    var u := PageUnit(l, p);
    NextPageBlank(l, j, mem, p);
    ProgrammedIntact(l, j, mem, p);
    ProgrammedBlank(mem[u.lo..u.hi], page);
    ProgramMore(l, j, mem, p, page);
    PageUnitOfJob(l, j, p, page);
  }

  lemma PageStarted(l: Layout, begin: nat, p: nat, end: nat, before: seq<Unit>, sofar: seq<Unit>, after: seq<Unit>)
    requires begin <= p < end <= l.TotalPages() && sofar == before + PageUnits(l, begin, p)
    requires after == sofar || after == sofar + [PageUnit(l, p)]
    ensures StartedPart(before, after, PageUnits(l, begin, end))
    ensures after == sofar + [PageUnit(l, p)] ==> after == before + PageUnits(l, begin, p + 1)
  {
    PagesStarted(l, begin, p, end, before, sofar, after);
  }

  lemma ProgramAccepted(l: Layout, w: u32, page: nat, a: State, b: State)
    requires page < l.TotalPages() && |a.mem| == l.ChipSize() && |a.buf| == l.PageSize() && !a.work.Busy?
    requires Opcode(w) == CMD_PROGRAM_PAGE && PageField(w) == page && Commands(l, a, w, b)
    ensures var u := PageUnit(l, page);
            Starts(a, ProgramOp, u.lo, u.hi, Programmed(a.mem[u.lo..u.hi], a.buf), b)
  {
  }

  /** What programming these cells promises. */
  function OnCells(cells: seq<u8>): Rule {
    if IsBlank(cells) then Strict else Free
  }

  /** A program command on an idle chip. */
  lemma ProgramBegins(l: Layout, clearsOnly: bool, page: nat, log0: seq<Step>, s0: State, act: Act,
                      log1: seq<Step>, s1: State)
    requires page < l.TotalPages() <= 0x400
    requires |s0.mem| == l.ChipSize() && |s0.buf| == l.PageSize() && !s0.work.Busy?
    requires Transaction(l, clearsOnly, log0, s0, act, log1, s1)
    requires act == Tick || act == Cir(ProgramPageCmd(page))
    ensures var u := PageUnit(l, page);
            var cells := s0.mem[u.lo..u.hi];
            && Confined(l, log0, s0, log1, s1, u, Programmed(cells, s0.buf), OnCells(cells))
            && (act != Tick ==> Begun(s0, s1, u, Programmed(cells, s0.buf)))
  {
    hide PageCommand, Confined, Begun, Programmed, Starts, IsBlank, Transaction;
    var u := PageUnit(l, page);
    var cells := s0.mem[u.lo..u.hi];
    PageCommandDecodes(0xa5, CMD_PROGRAM_PAGE, page);
    assert PageOf(l, s0.mem, page) == cells;
    IdleStep(l, clearsOnly, log0, s0, act, log1, s1);
    if act != Tick {
      ProgramAccepted(l, ProgramPageCmd(page), page, s0, s1);
    }
    BeginUnit(l, log0, s0, log0, s0, act, log1, s1, u, Programmed(cells, s0.buf), OnCells(cells));
  }

  lemma ProgramFenced(l: Layout, clearsOnly: bool, page: nat, log0: seq<Step>, s0: State, act: Act,
                      log1: seq<Step>, s1: State)
    requires page < l.TotalPages() <= 0x400 && |s0.mem| == l.ChipSize() && |s0.buf| == l.PageSize()
    requires Transaction(l, clearsOnly, log0, s0, act, log1, s1)
    requires act == Tick || act == Cir(ProgramPageCmd(page))
    ensures Fenced(log0, s0, log1, s1, PageUnit(l, page))
  {
    hide PageCommand, Programmed, Starts, Fenced, Drifts, Untouched;
    var u := PageUnit(l, page);
    PageCommandDecodes(0xa5, CMD_PROGRAM_PAGE, page);
    if act == Tick {
      DriftStep(l, clearsOnly, log0, s0, act, log1, s1);
      DriftsFenced(log0, s0, log1, s1, u);
    } else {
      var mid := log1[|log0|].post;
      TickSettles(s0, mid);
      NoDrift(log0, s0);
      if !mid.work.Busy? {
        ProgramAccepted(l, ProgramPageCmd(page), page, mid, s1);
      }
      FencedStart(l, clearsOnly, log0, s0, log0, s0, act, log1, s1, u, Programmed(mid.mem[u.lo..u.hi], mid.buf));
    }
  }

  /** The command that enters LoadPage mode. */
  lemma LoadEntered(l: Layout, clearsOnly: bool, log0: seq<Step>, s0: State, act: Act, log1: seq<Step>, s1: State)
    requires Transaction(l, clearsOnly, log0, s0, act, log1, s1)
    requires !s0.work.Busy? && LoadsAtOnce(s0)
    requires act == Tick || act == Cir(CMD_LOAD_BYTE_PAGE)
    ensures Loading(l, log0, s0, log1, s1, LoadRule(s0)) && s1.buf == s0.buf && s1.work == s0.work
    ensures act != Tick ==> s1.mode == LoadPage
  {
    hide IsBlank;
    IdleStep(l, clearsOnly, log0, s0, act, log1, s1);
    LoadingStep(l, log0, s0, act, log1, s1, LoadRule(s0));
  }

  /** The mode commands start nothing, wherever they are written. */
  lemma ModeHarmless(cmd: u32, to: Mode)
    requires cmd == ModeCmd(to)
    ensures Harmless(Cir(cmd))
  {
  }

  /** A write to the page buffer. */
  lemma BufferLoaded(l: Layout, clearsOnly: bool, log0: seq<Step>, s0: State, act: Act, at: nat, data: seq<u8>,
                     log1: seq<Step>, s1: State, rule: Rule)
    requires Transaction(l, clearsOnly, log0, s0, act, log1, s1)
    requires !s0.work.Busy? && s0.mode == LoadPage && at + |data| <= |s0.buf| == l.PageSize()
    requires || act == Tick || act == Torn || act == WriteRun(at, data)
             || (act.Poke? && act.at == at && PutBigEndian32(act.word) == data)
    ensures Loading(l, log0, s0, log1, s1, rule) && s1.work == s0.work
    ensures act == Tick ==> s1 == s0
    ensures act.WriteRun? || act.Poke? ==> s1.mode == LoadPage && s1.buf == Loaded(clearsOnly, s0.buf, at, data)
  {
    hide Loaded, PutBigEndian32;
    IdleStep(l, clearsOnly, log0, s0, act, log1, s1);
    LoadingStep(l, log0, s0, act, log1, s1, rule);
  }

  // ---------------------------------------------------------------- what idle chips and mode writes are needed for

  /** The log after a bus transaction before which no time mattered. */
  function Bus(log: seq<Step>, s: State, act: Act, t: State): seq<Step> {
    log + [Step(s, Tick, s), Step(s, act, t)]
  }

  /** The one mode write of a load is sure to enter the load mode if and only if the chip switches at once, or
      was asked before. */
  lemma LoadsAtOnceExactly(l: Layout, clearsOnly: bool, s: State)
    ensures (forall t :: Next(l, clearsOnly, Step(s, Cir(CMD_LOAD_BYTE_PAGE), t)) ==> t.mode == LoadPage)
            <==> LoadsAtOnce(s)
  {
    assert Opcode(CMD_LOAD_BYTE_PAGE) == CMD_LOAD_BYTE_PAGE;
    if !LoadsAtOnce(s) {
      var t := s.(asked := LoadPage);
      assert Next(l, clearsOnly, Step(s, Cir(CMD_LOAD_BYTE_PAGE), t));
    }
  }

  /** In array mode a load may fail unnoticed: the mode write and the burst succeed, and the page buffer does
      not hold the data. */
  lemma LoadMissed(l: Layout, clearsOnly: bool, log: seq<Step>, s: State, data: seq<u8>) returns (s1: State, s2: State)
    requires s.mode == ReadArray && !LoadsAtOnce(s) && !s.work.Busy? && 0 < |data| <= |s.buf|
    ensures var log1 := Bus(log, s, Cir(CMD_LOAD_BYTE_PAGE), s1);
            && Transaction(l, clearsOnly, log, s, Cir(CMD_LOAD_BYTE_PAGE), log1, s1)
            && Transaction(l, clearsOnly, log1, s1, WriteRun(0, data), Bus(log1, s1, WriteRun(0, data), s2), s2)
    ensures s2.buf != Loaded(clearsOnly, s.buf, 0, data)
  {
    hide Loaded;
    assert Opcode(CMD_LOAD_BYTE_PAGE) == CMD_LOAD_BYTE_PAGE;
    var loaded := Loaded(clearsOnly, s.buf, 0, data);
    s1 := s.(asked := LoadPage);
    s2 := s1.(buf := loaded[0 := if loaded[0] == 0 then 1 else 0]);
    assert s2.buf[0] != loaded[0];
  }

  /** On a busy chip an erasure may be lost unnoticed: the chip ignores the confirmation, the operation that
      was running ends, and its success is taken for the erasure's. The transactions are those of Erase; none
      fails, and the status passes both tests, but no erasure was started. This may happen in every mode. */
  lemma EraseLost(l: Layout, clearsOnly: bool, log: seq<Step>, s: State, page: Option<nat>)
    returns (s1: State, s2: State, s3: State)
    requires l.Fits() && l.TotalPages() <= 0x400 && Erasable(l, page) && WellFormed(l, s)
    requires s.work.Busy?
    ensures var setup, erase := Cir(SetupEraseCmd(page)), Cir(CMD_ERASE);
            var log1 := Bus(log, s, setup, s1);
            var log2 := Bus(log1, s1, erase, s1);
            var log3 := log2 + [Step(s1, Tick, s2), Step(s2, Peek, s2)];
            && Transaction(l, clearsOnly, log, s, setup, log1, s1)
            && Transaction(l, clearsOnly, log1, s1, erase, log2, s1)
            && Transaction(l, clearsOnly, log2, s1, Peek, log3, s2)
            && Transaction(l, clearsOnly, log3, s2, Poke(0, 0), Bus(log3, s2, Poke(0, 0), s3), s3)
    ensures And(s2.status, STATUS_ERASE_BUSY) == 0 && And(s2.status, STATUS_ERASE_OK) != 0
    ensures s3.started == s.started
  {
    hide PageCommand, And, Times, Pow2, RoundDown, Replace, Loaded, PutBigEndian32;
    if page.Some? {
      PageCommandDecodes(0x4b, CMD_SECTOR_ERASE, page.value);
    }
    StatusBits();
    s1 := s.(setup := SetupOf(page), asked := s.mode);
    s2 := Completed(l, s1);
    s3 := Cleared(clearsOnly, s2);
  }

  /** The state after a running operation was completed; both OK bits may then be set. */
  function Completed(l: Layout, a: State): (b: State)
    requires WellFormed(l, a) && a.work.Busy?
    ensures Elapses(a, b) && WellFormed(l, b) && b.work.Idle? && b.status == 0x8c && b.started == a.started
    ensures b.mode == a.mode && b.buf == if a.work.kind == ProgramOp then Blank(|a.buf|) else a.buf
  {
    StatusValues();
    ReplaceOnly(a.mem, a.work.lo, a.work.result);
    a.(mem := Replace(a.mem, a.work.lo, a.work.result), work := Idle, status := 0x8c,
       buf := if a.work.kind == ProgramOp then Blank(|a.buf|) else a.buf)
  }

  /** The state after the write that clears the status in status mode; in load mode it reaches the buffer. */
  function Cleared(clearsOnly: bool, a: State): (b: State)
    requires !a.work.Busy?
    ensures Accepts(clearsOnly, a, 0, PutBigEndian32(0), b) && b.started == a.started && b.mem == a.mem
  {
    if a.mode == LoadPage && 4 <= |a.buf| then a.(buf := Loaded(clearsOnly, a.buf, 0, PutBigEndian32(0)))
    else if a.mode == ReadStatus then a.(status := ClearedStatus(clearsOnly))
    else a
  }

  /** The same for programming: on a busy chip the program command may be lost unnoticed. */
  lemma ProgramLost(l: Layout, clearsOnly: bool, log: seq<Step>, s: State, page: nat) returns (s2: State, s3: State)
    requires page < l.TotalPages() <= 0x400 && WellFormed(l, s) && s.work.Busy?
    ensures var program := Cir(ProgramPageCmd(page));
            var log1 := Bus(log, s, program, s);
            var log2 := log1 + [Step(s, Tick, s2), Step(s2, Peek, s2)];
            && Transaction(l, clearsOnly, log, s, program, log1, s)
            && Transaction(l, clearsOnly, log1, s, Peek, log2, s2)
            && Transaction(l, clearsOnly, log2, s2, Poke(0, 0), Bus(log2, s2, Poke(0, 0), s3), s3)
    ensures And(s2.status, STATUS_PROGRAM_BUSY) == 0 && And(s2.status, STATUS_PROGRAM_OK) != 0
    ensures s3.started == s.started
  {
    hide PageCommand, And, Times, Pow2, RoundDown, Replace, Loaded, PutBigEndian32;
    PageCommandDecodes(0xa5, CMD_PROGRAM_PAGE, page);
    StatusBits();
    s2 := Completed(l, s);
    s3 := Cleared(clearsOnly, s2);
  }

  /** And for page loads: when a page is being programmed, the buffer turns blank as that ends. If this happens
      between two words of a load, the first is lost, though every transaction succeeds. */
  lemma LoadLost(l: Layout, clearsOnly: bool, log: seq<Step>, s: State, w0: u32, w1: u32)
    returns (s1: State, s2: State, s3: State, s4: State)
    requires WellFormed(l, s) && s.work.Busy? && s.work.kind == ProgramOp && |s.buf| >= 8
    requires PutBigEndian32(w0)[0] != 0xff
    ensures var log1 := Bus(log, s, Cir(CMD_LOAD_BYTE_PAGE), s1);
            var log2 := Bus(log1, s1, Tick, s1);
            var log3 := Bus(log2, s1, Poke(0, w0), s2);
            var log4 := log3 + [Step(s2, Tick, s3), Step(s3, Poke(4, w1), s4)];
            && Transaction(l, clearsOnly, log, s, Cir(CMD_LOAD_BYTE_PAGE), log1, s1)
            && Transaction(l, clearsOnly, log1, s1, Tick, log2, s1)
            && Transaction(l, clearsOnly, log2, s1, Poke(0, w0), log3, s2)
            && Transaction(l, clearsOnly, log3, s2, Poke(4, w1), log4, s4)
    ensures s4.buf != Loaded(clearsOnly, s.buf, 0, PutBigEndian32(w0) + PutBigEndian32(w1))
  {
    hide PutBigEndian32, Times, Pow2, RoundDown, Replace, StatusShows;
    assert Opcode(CMD_LOAD_BYTE_PAGE) == CMD_LOAD_BYTE_PAGE;
    s1 := s.(mode := LoadPage, asked := LoadPage);
    s2 := s1.(buf := Loaded(clearsOnly, s1.buf, 0, PutBigEndian32(w0)));
    s3 := Completed(l, s2);
    s4 := s3.(buf := Loaded(clearsOnly, s3.buf, 4, PutBigEndian32(w1)));
    assert s4.buf[0] == 0xff;
  }

  lemma BurstDone(l: Layout, clearsOnly: bool, log0: seq<Step>, s0: State, act: Act, log1: seq<Step>, s1: State)
    requires Transaction(l, clearsOnly, log0, s0, act, log1, s1)
    requires || act == Tick
             || (act.ReadRun? && s0.mode == ReadArray && InOneWindow(l, Times(act.at, l.UnitSize()), act.len))
             || (act.ReadRun? && s0.mode == ReadSilicon && act.len == 8)
    ensures Quiet(l, log0, s0, log1, s1) && s1.mode == s0.mode
    ensures act.ReadRun? ==> BurstsOf(log1) == BurstsOf(log0) + [act]
  {
    hide Transaction, Quiet, InOneWindow, Times, BurstsOf;
    if act == Tick {
      QuietPeek(l, clearsOnly, log0, s0, act, log1, s1);
    } else {
      BurstsOfTransaction(l, clearsOnly, log0, s0, act, log1, s1);
      QuietRead(l, clearsOnly, log0, s0, act, log1, s1);
    }
  }

  /** What the status last read says of an operation that is over. */
  lemma Concluded(l: Layout, s0: State, log1: seq<Step>, s1: State, log2: seq<Step>, s2: State, log3: seq<Step>,
                  s3: State, u: Unit, result: seq<u8>, busy: u8, good: u8, status: u8, polled: Error, err: Error)
    requires Begun(s0, s1, u, result) && Quiet(l, log1, s1, log2, s2)
    requires Reported(s1, s2) && StatusShows(s2.status, s2.work)
    requires busy == BusyBit(u.kind) && good == (if u.kind == EraseOp then STATUS_ERASE_OK else STATUS_PROGRAM_OK)
    requires polled == Nil ==> status == s2.status && And(status, busy) == 0 && Quiet(l, log2, s2, log3, s3)
    requires err == Nil ==> polled == Nil && And(status, good) != 0
    requires err == ErrOperationNOK ==> polled == Nil && And(status, good) == 0
    ensures err == Nil ==> s3.work.Idle?
    ensures err == ErrOperationNOK ==> LastFailed(s0, s3) && !Succeeded(s2.status, u.kind) && !s3.work.Busy?
  {
    hide And, Quiet, Reported, StatusShows, Begun;
    if err == ErrOperationNOK {
      Fails(l, s0, log1, s1, log2, s2, log3, s3, u, result);
    }
    if err == Nil {
      Succeeds(l, s0, log1, s1, log2, s2, log3, s3, u, result);
    }
  }

  lemma BegunShows(s0: State, s1: State, u: Unit, result: seq<u8>)
    ensures Begun(s0, s1, u, result) ==> s1.work.Busy? && s1.work.kind == u.kind && s1.mode == ReadStatus
  {
  }

  /** The second half of an operation that was accepted. */
  lemma ConcludeUnit(l: Layout, log0: seq<Step>, s0: State, log1: seq<Step>, s1: State, log2: seq<Step>, s2: State,
                     log3: seq<Step>, s3: State, u: Unit, result: seq<u8>, rule: Rule, busy: u8, good: u8, status: u8,
                     polled: Error, err: Error, done: ContextError, since: nat, now: nat, timeout: nat, smooth: bool,
                     waits: int, pace: Pace)
    requires Confined(l, log0, s0, log1, s1, u, result, rule) && Begun(s0, s1, u, result)
    requires u.lo + |result| == u.hi <= |s0.mem| && StatusShows(s2.status, s2.work)
    requires busy == BusyBit(u.kind) && good == (if u.kind == EraseOp then STATUS_ERASE_OK else STATUS_PROGRAM_OK)
    requires PollEnds(l, log1, s1, log2, s2, busy, status, polled, done, since, now, timeout, waits, pace)
    requires if polled == Nil
             then && Quiet(l, log2, s2, log3, s3) && s3.mode == s2.mode
                  && (err == Nil || err == ErrIo || err == ErrOperationNOK)
                  && (err == Nil ==> And(status, good) != 0) && (err == ErrOperationNOK ==> And(status, good) == 0)
             else log3 == log2 && s3 == s2 && err == polled
    requires smooth ==> pace.Known?
    ensures Confined(l, log0, s0, log3, s3, u, result, rule)
    ensures err == Nil ==> Done(s0, s3, u, result)
    ensures err == Nil || err == ErrOperationNOK ==> !s3.work.Busy?
    ensures Excused(l, err, s0, s3, done, since, now, timeout, smooth)
    ensures s3.started == s0.started + [u]
    ensures err != Nil && err != ErrIo && err != ErrOperationNOK ==> s3.work.Busy? && |log3| == |log1| + 2 * waits
  {
    hide And, Quiet, Confined, Done, Reported, StatusShows, Excused, LastFailed, Succeeded, PollEnds, BusyBit,
         Expired;
    PollShows(l, log1, s1, log2, s2, busy, status, polled, done, since, now, timeout, waits, pace);
    EndPolled(l, log1, s1, log2, s2, busy, status, polled, done, since, now, timeout, waits, pace);
    if polled == Nil {
      QuietTrans(l, log1, s1, log2, s2, log3, s3);
    }
    Concluded(l, s0, log1, s1, log2, s2, log3, s3, u, result, busy, good, status, polled, err);
    QuietStarts(l, log1, s1, log3, s3);
    Excuses(l, err, s0, s3, done, since, now, timeout, smooth);
    Finish(l, log0, s0, log1, s1, log3, s3, u, result, rule);
  }

  /** Pages of whole words make bursts of whole words. */
  lemma PagesOfWords(l: Layout, count: nat)
    ensures WholeWords(l.PageSize()) ==> WholeWords(l.PageStart(count))
  {
    hide Times, Pow2;
    PageStartIs(l, count);
    if l.PageSize() % 4 == 0 {
      assert l.PageStart(count) == 4 * (count * (l.PageSize() / 4));
    }
  }

  datatype FlashOption = WithBaseAddress(address: u32) | WithLayout(layout: Layout)

  /** The base address and the layout that options, applied in order, leave. */
  function BaseOf(opts: seq<FlashOption>): u32 {
    if opts == [] then DEFAULT_BASE_ADDRESS
    else match opts[|opts| - 1]
      case WithBaseAddress(address) => address
      case WithLayout(_) => BaseOf(opts[..|opts| - 1])
  }

  function LayoutOf(opts: seq<FlashOption>): Layout {
    if opts == [] then NO_LAYOUT
    else match opts[|opts| - 1]
      case WithBaseAddress(_) => LayoutOf(opts[..|opts| - 1])
      case WithLayout(l) => l
  }

  datatype SiliconID = SiliconID(typeID: u32, manufacturerID: u16, deviceID: u16) {
    /** Manufacturer and device in one word. */
    function DeviceWord(): u32 {
      Or(manufacturerID * 0x10000, deviceID) % 0x1_0000_0000
    }
  }

  const NO_SILICON_ID := SiliconID(0, 0, 0)

  function NewSiliconID(b: seq<u8>): SiliconID
    requires |b| == 8
  {
    SiliconID(BigEndian32(b[0..4]), BigEndian16(b[4..6]), BigEndian16(b[6..8]))
  }

  function LayoutFromSiliconID(id: SiliconID): Layout {
    if id.DeviceWord() in {0x00c20000, 0x00c20001, 0x00c2001e} then LAYOUT_64W_128_8 else LAYOUT_128B_128_8
  }

  /** Exactly three Macronix chips are addressed in words; on all others an address is a byte. */
  lemma WordAddressed(id: SiliconID)
    ensures LayoutFromSiliconID(id) == LAYOUT_64W_128_8
            <==> id.manufacturerID == 0xc2 && id.deviceID in {0x00, 0x01, 0x1e}
    ensures LayoutFromSiliconID(id).UnitSize() == (if LayoutFromSiliconID(id) == LAYOUT_64W_128_8 then 2 else 1)
    ensures LayoutFromSiliconID(id).PageSize() == 128 && LayoutFromSiliconID(id).TotalPages() == 1024
    ensures var l := LayoutFromSiliconID(id);
            && l.PagesPerSector() == 128 && l.SectorSize() == 16384 && l.SectorsPerChip() == 8 && l.ChipSize() == 131072
            && l.ReadPageBoundary() == 256 && l.WindowSize() == 32768
  {
    DeviceWordIs(id);
    Pow2Values();
    Pow2Add(8, 7);
    Pow2Add(7, 7);
    Pow2Add(14, 3);
  }

  lemma DeviceWordIs(id: SiliconID)
    ensures id.DeviceWord() == id.manufacturerID * 0x10000 + id.deviceID
  {
    hide Or, Pow2;
    Pow2Values();
    OrDisjoint(16, id.manufacturerID, id.deviceID);
  }

  class Flash {
    const pi: Chip
    var baseAddress: u32
    var layout: Layout

    /** A driver without a layout, at the address flash chips are usually mapped at. */
    constructor (pi: Chip)
      ensures this.pi == pi && baseAddress == DEFAULT_BASE_ADDRESS && layout == NO_LAYOUT
    {
      this.pi, baseAddress, layout := pi, DEFAULT_BASE_ADDRESS, NO_LAYOUT;
    }

    /** The driver addresses the chip that is there. */
    ghost predicate Valid()
      reads this, pi
    {
      pi.Valid() && layout == pi.layout && baseAddress == pi.base
    }

    /** What Valid says, for proofs that hide it. */
    lemma IsValid()
      requires Valid()
      ensures SmallChip(layout) && layout.Fits() && WellFormed(layout, pi.s)
      ensures |pi.s.mem| == layout.ChipSize() && |pi.s.buf| == layout.PageSize()
    {
    }

    /** Operations end well before that many polls, and only sleeping takes time. */
    predicate Smooth(ctx: Context, polls: nat) {
      ctx.steady && pi.Within(polls)
    }

    /** No transaction was made after the context became done. */
    twostate predicate Silent(ctx: Context)
      reads pi, ctx
    {
      old(ctx.done) == Nil && ctx.done != Nil && ctx.watch == OnChip(pi) ==> ctx.mark == ChipAt(pi.log, pi.s)
    }

    /** A reader stops: it reports a context that is done, and issues no burst with one. */
    twostate predicate Stops(ctx: Context, new err: Error)
      reads pi, ctx
    {
      && (err == Nil ==> ctx.done == Nil)
      && (ctx.done != Nil ==> err == ErrIo || err == ctx.done)
      && (old(ctx.done) != Nil ==> BurstsOf(pi.log) == BurstsOf(old(pi.log)))
    }

    function Address(offset: u32): u32
      reads this
    {
      Add32(baseAddress, offset)
    }

    /** Writes a word where the driver takes the command register to be. */
    method WriteCIR(cmd: u32) returns (err: DriverError)
      requires pi.Valid()
      modifies pi
      ensures pi.Valid()
      ensures pi.Counted(err)
      ensures err == Nil || err == ErrIo
      ensures pi.Did(pi.WriteAct(Address(CIR_OFFSET), cmd)) || (err != Nil && pi.Did(Tick))
      ensures baseAddress == pi.base ==> pi.Did(Cir(cmd)) || (err != Nil && pi.Did(Tick))
      ensures (!old(pi.s.work.Busy?) ==> pi.age == 0) && |pi.log| == |old(pi.log)| + 2
    {
      hide IsRun, Transaction;
      assert baseAddress == pi.base ==> pi.Offset(Address(CIR_OFFSET)) == CIR_OFFSET;
      err := pi.Write32(Address(CIR_OFFSET), cmd);
    }

    /** A mode command: nothing is written, and the mode is reached at once or by the second write. With a base
        address that is not the chip's, no more is promised than that no cell is written. */
    method WriteMode(cmd: u32, ghost to: Mode) returns (err: DriverError)
      requires pi.Valid()
      requires to != LoadPage && cmd == ModeCmd(to)
      modifies pi
      ensures pi.Valid()
      ensures pi.Counted(err)
      ensures err == Nil || err == ErrIo
      ensures Drifts(old(pi.log), old(pi.s), pi.log, pi.s)
      ensures baseAddress == pi.base ==>
                && Quiet(pi.layout, old(pi.log), old(pi.s), pi.log, pi.s)
                && (err == Nil ==> pi.s.asked == to)
                && (err == Nil && (old(pi.s.asked) == to || SwitchesAtOnce(old(pi.s.mode), to)) ==> pi.s.mode == to)
                && BurstsOf(pi.log) == BurstsOf(old(pi.log))
    {
      hide Drifts, IsRun, Transaction, Quiet, SwitchesAtOnce, WellFormed, BurstsOf;
      err := WriteCIR(cmd);
      ghost var act := pi.WriteAct(Address(CIR_OFFSET), cmd);
      ModeHarmless(cmd, to);
      DriftStep(pi.layout, pi.clearsOnly, old(pi.log), old(pi.s), if pi.Did(act) then act else Tick, pi.log, pi.s);
      if baseAddress != pi.base {
        return;
      }
      BurstsOfTransaction(pi.layout, pi.clearsOnly, old(pi.log), old(pi.s), if pi.Did(Cir(cmd)) then Cir(cmd) else Tick,
                          pi.log, pi.s);
      if pi.Did(Cir(cmd)) {
        QuietMode(pi.layout, pi.clearsOnly, old(pi.log), old(pi.s), to, pi.log, pi.s);
      } else {
        QuietPeek(pi.layout, pi.clearsOnly, old(pi.log), old(pi.s), Tick, pi.log, pi.s);
      }
    }

    // -------------------------------------------------------------- status

    method Status() returns (status: u8, err: DriverError)
      requires Valid()
      modifies pi
      ensures Valid()
      ensures pi.Counted(err)
      ensures Quiet(layout, old(pi.log), old(pi.s), pi.log, pi.s)
      ensures err == Nil ==> pi.s.mode == ReadStatus && status == pi.s.status
      ensures err == Nil || err == ErrIo
    {
      hide IsRun, Quiet, WellFormed, Pow2, Times, And, RoundDown;
      status := 0;
      err := WriteMode(CMD_STATUS, ReadStatus);
      if err != Nil {
        return;
      }
      ghost var log1, s1 := pi.log, pi.s;
      err := WriteMode(CMD_STATUS, ReadStatus);
      QuietTrans(layout, old(pi.log), old(pi.s), log1, s1, pi.log, pi.s);
      if err != Nil {
        return;
      }
      ghost var log2, s2 := pi.log, pi.s;
      status, err := StatusNow();
      QuietTrans(layout, old(pi.log), old(pi.s), log2, s2, pi.log, pi.s);
    }

    method ClearStatus() returns (err: DriverError)
      requires Valid()
      modifies pi
      ensures Valid()
      ensures pi.Counted(err)
      ensures Quiet(layout, old(pi.log), old(pi.s), pi.log, pi.s)
      ensures err == Nil ==> pi.s.mode == ReadStatus
                             && (!pi.s.work.Busy? ==> pi.s.status == ClearedStatus(pi.clearsOnly))
      ensures err == Nil || err == ErrIo
    {
      hide IsRun, Quiet, WellFormed, Pow2, Times, And, RoundDown;
      err := WriteMode(CMD_STATUS, ReadStatus);
      if err != Nil {
        return;
      }
      ghost var log1, s1 := pi.log, pi.s;
      err := WriteMode(CMD_STATUS, ReadStatus);
      QuietTrans(layout, old(pi.log), old(pi.s), log1, s1, pi.log, pi.s);
      if err != Nil {
        return;
      }
      ghost var log2, s2 := pi.log, pi.s;
      err := ClearStatusNow();
      QuietTrans(layout, old(pi.log), old(pi.s), log2, s2, pi.log, pi.s);
    }

    /** Reads the status, if the status mode is effective. */
    method StatusNow() returns (status: u8, err: DriverError)
      requires Valid()
      modifies pi
      ensures Valid()
      ensures pi.Counted(err)
      ensures Drifts(old(pi.log), old(pi.s), pi.log, pi.s) && pi.s.mode == old(pi.s.mode)
      ensures old(pi.s.mode) == ReadStatus ==>
                && Quiet(layout, old(pi.log), old(pi.s), pi.log, pi.s)
                && Elapses(old(pi.s), pi.s)
                && (err == Nil ==> status == pi.s.status)
      ensures err == Nil || err == ErrIo
      ensures pi.Aged() && |pi.log| == |old(pi.log)| + 2
    {
      hide IsRun, Transaction, Quiet, Elapses, Drifts, WellFormed;
      var w;
      w, err := pi.Read32(baseAddress);
      ghost var act := if err == Nil then Peek else Tick;
      DriftStep(layout, pi.clearsOnly, old(pi.log), old(pi.s), act, pi.log, pi.s);
      if old(pi.s.mode) == ReadStatus {
        QuietPeek(layout, pi.clearsOnly, old(pi.log), old(pi.s), act, pi.log, pi.s);
      }
      status := if err == Nil then w % 0x100 else 0;
    }

    /** Clears the status, if the status mode is effective: then the write does not reach the page buffer. */
    method ClearStatusNow() returns (err: DriverError)
      requires Valid()
      modifies pi
      ensures Valid()
      ensures pi.Counted(err)
      ensures Drifts(old(pi.log), old(pi.s), pi.log, pi.s) && pi.s.mode == old(pi.s.mode)
      ensures old(pi.s.mode) == ReadStatus ==>
                && Quiet(layout, old(pi.log), old(pi.s), pi.log, pi.s)
                && (err == Nil && !pi.s.work.Busy? ==> pi.s.status == ClearedStatus(pi.clearsOnly))
      ensures err == Nil || err == ErrIo
    {
      hide IsRun, Transaction, Quiet, Drifts, WellFormed;
      err := pi.Write32(baseAddress, 0);
      ghost var poke := pi.WriteAct(baseAddress, 0);
      ghost var act := if pi.Did(poke) then poke else Tick;
      DriftStep(layout, pi.clearsOnly, old(pi.log), old(pi.s), act, pi.log, pi.s);
      if old(pi.s.mode) == ReadStatus {
        QuietClear(layout, pi.clearsOnly, old(pi.log), old(pi.s), act, pi.log, pi.s);
      }
    }

    /** What is known of the end of an operation that was just started. */
    ghost function PaceOf(ctx: Context, mask: u8, period: nat, timeout: nat): Pace
      reads pi, ctx
    {
      if && ctx.steady && pi.InTime(period, timeout) && pi.s.mode == ReadStatus
         && pi.s.work.Busy? && mask == BusyBit(pi.s.work.kind) && pi.age == 0
      then Known(pi.delay.value, ctx.now, period)
      else Unknown
    }

    /** Polls until the mask bits are clear, the bus fails, or the context or the timeout expires. */
    method WaitStatusBitsCleared(ctx: Context, mask: u8, period: nat, timeout: nat)
      returns (status: u8, err: DriverError)
      requires Valid() && period > 0
      modifies pi, ctx
      ensures Valid() && ctx.Later() && Silent(ctx)
      ensures pi.Counted(err)
      ensures PollEnds(layout, old(pi.log), old(pi.s), pi.log, pi.s, mask, status, err, ctx.done, old(ctx.now), ctx.now,
                       timeout, ctx.naps - old(ctx.naps), old(PaceOf(ctx, mask, period, timeout)))
    {
      hide IsRun, And, WellFormed, Waits, PollEnds, BusyBit, Times, Pow2, RoundDown;
      ghost var polls: nat, t: nat, since, pace := 0, ctx.now, ctx.now, PaceOf(ctx, mask, period, timeout);
      var deadline := ctx.now + timeout;
      NotWaited(layout, pi.log, pi.s, mask, pace, pi.age, t);
      err := ctx.ErrUntil(deadline);
      status := 0;
      if err != Nil {
        WaitsEnd(layout, pi.log, pi.s, pi.log, pi.s, mask, 0, pace, pi.age, t, status, err, ctx.done, since, ctx.now,
                 timeout);
      }
      var over := err != Nil;
      while !over
        invariant Valid() && ctx.Later() && Silent(ctx) && ctx.naps == old(ctx.naps) + polls
        invariant pi.Counted(err)
        invariant over ==> PollEnds(layout, old(pi.log), old(pi.s), pi.log, pi.s, mask, status, err, ctx.done, since,
                                    ctx.now, timeout, polls, pace)
        invariant !over ==> Waits(layout, old(pi.log), old(pi.s), pi.log, pi.s, mask, polls, pace, pi.age, t)
        invariant !over ==> err == Nil && ctx.done == Nil && ctx.now < deadline && (pace.Known? ==> t == ctx.now)
        decreases !over, deadline - ctx.now
      {
        status, err, over, polls, t := PollTurn(ctx, mask, period, deadline, old(pi.log), old(pi.s), polls, pace, t,
                                                since, timeout);
      }
    }

    /** One turn of the polling loop: reads the status and, if it shows a bit of the mask, waits. */
    method PollTurn(ctx: Context, mask: u8, period: nat, deadline: nat, ghost log0: seq<Step>, ghost s0: State,
                    ghost polls: nat, ghost pace: Pace, ghost t: nat, ghost since: nat, ghost timeout: nat)
      returns (status: u8, err: DriverError, over: bool, ghost polls': nat, ghost next: nat)
      requires Valid() && period > 0 && ctx.done == Nil && ctx.now < deadline == since + timeout
      requires pace.Known? ==> && pi.delay == Some(pace.delay) && ctx.steady && t == ctx.now && pace.since == since
                               && pace.period == period && Times(pace.delay, period) < timeout
      requires Waits(layout, log0, s0, pi.log, pi.s, mask, polls, pace, pi.age, t)
      modifies pi, ctx
      ensures Valid() && ctx.Later() && Silent(ctx)
      ensures pi.Counted(err)
      ensures ctx.naps == old(ctx.naps) + polls' - polls
      ensures over ==> PollEnds(layout, log0, s0, pi.log, pi.s, mask, status, err, ctx.done, since, ctx.now, timeout,
                                polls', pace)
      ensures !over ==> Waits(layout, log0, s0, pi.log, pi.s, mask, polls', pace, pi.age, next)
      ensures !over ==> err == Nil && ctx.done == Nil && old(ctx.now) < ctx.now < deadline
                        && (pace.Known? ==> next == ctx.now)
    {
      hide IsRun, And, WellFormed, Waits, PollEnds, BusyBit, Times, Pow2, RoundDown;
      polls', over := polls, true;
      status, err, next := PollOnce(log0, s0, mask, polls, pace, t, ctx.done, since, ctx.now, timeout);
      if err != Nil || And(status, mask) == 0 {
        return;
      }
      ctx.Sleep(period, deadline);
      polls' := polls + 1;
      err := ctx.ErrUntil(deadline);
      over := err != Nil;
      if over {
        status := 0;
        WaitsEnd(layout, log0, s0, pi.log, pi.s, mask, polls', pace, pi.age, next, status, err, ctx.done, since,
                 ctx.now, timeout);
      }
    }

    /** One poll, after those since state s0 and log log0. */
    method PollOnce(ghost log0: seq<Step>, ghost s0: State, ghost mask: u8, ghost polls: nat, ghost pace: Pace,
                    ghost t: nat, ghost done: ContextError, ghost since: nat, ghost now: nat, ghost timeout: nat)
      returns (status: u8, err: DriverError, ghost next: nat)
      requires Valid() && (pace.Known? ==> pi.delay == Some(pace.delay)) && done == Nil
      requires Waits(layout, log0, s0, pi.log, pi.s, mask, polls, pace, pi.age, t)
      modifies pi
      ensures Valid()
      ensures pi.Counted(err)
      ensures err == Nil || err == ErrIo
      ensures next == if pace.Known? then t + pace.period else t
      ensures err == Nil && And(status, mask) != 0 ==>
                Waits(layout, log0, s0, pi.log, pi.s, mask, polls + 1, pace, pi.age, next)
      ensures err != Nil || And(status, mask) == 0 ==>
                PollEnds(layout, log0, s0, pi.log, pi.s, mask, status, err, done, since, now, timeout, polls, pace)
    {
      hide IsRun, And, WellFormed, Drifts, Quiet, Waits, Reported, Elapses, StatusShows, Times, Pow2, RoundDown;
      next := if pace.Known? then t + pace.period else t;
      WaitsShows(layout, log0, s0, pi.log, pi.s, mask, polls, pace, pi.age, t);
      status, err := StatusNow();
      FormShows(layout, pi.s);
      WaitsMore(layout, log0, s0, old(pi.log), old(pi.s), mask, polls, pace, old(pi.age), t,
                pi.log, pi.s, pi.age, next);
    }

    // -------------------------------------------------------------- erase

    /** Erases the sector of a page, or the whole chip. On a busy chip the command is ignored, and nothing is
        promised but that no other unit is touched. */
    method Erase(ctx: Context, page: Option<int>) returns (err: DriverError)
      requires Valid()
      modifies pi, ctx
      ensures Valid() && ctx.Later() && Silent(ctx) && (err == Nil ==> ctx.done == Nil)
      ensures pi.Counted(err)
      ensures !Erasable(layout, page) ==>
                err == ErrInvalidPage && pi.s == old(pi.s) && pi.log == old(pi.log)
      ensures Erasable(layout, page) ==>
                var u := EraseUnit(layout, page);
                && Fenced(old(pi.log), old(pi.s), pi.log, pi.s, u)
                && (!old(pi.s.work.Busy?) ==>
                      && Confined(layout, old(pi.log), old(pi.s), pi.log, pi.s, u, Blank(u.hi - u.lo), Strict)
                      && (err == Nil ==> Done(old(pi.s), pi.s, u, Blank(u.hi - u.lo)))
                      && (err == Nil || err == ErrOperationNOK ==> pi.s.status == ClearedStatus(pi.clearsOnly)))
      ensures Erasable(layout, page) ==>
                || err == Nil || err == ErrIo || err == ErrOperationNOK
                || Expired(err, ctx.done, old(ctx.now), ctx.now, 2000)
      ensures Erasable(layout, page) && !old(pi.s.work.Busy?) ==>
                Excused(layout, err, old(pi.s), pi.s, ctx.done, old(ctx.now), ctx.now, 2000, Smooth(ctx, 200))
      // from an idle chip: an operation was started unless the bus failed, and is running when the context ends it,
      // the status having been read before every wait
      ensures Erasable(layout, page) && !old(pi.s.work.Busy?) && err != ErrIo ==>
                && pi.s.started == old(pi.s.started) + [EraseUnit(layout, page)]
                && (err != Nil && err != ErrOperationNOK ==>
                      pi.s.work.Busy? && |pi.log| == |old(pi.log)| + 4 + 2 * (ctx.naps - old(ctx.naps)))
    {
      hide IsRun, Fenced, Confined, Done, Blank, EraseUnit, WellFormed, And, Times, Pow2, RoundDown, LastFailed,
           Excused;
      FormShows(layout, pi.s);
      err := StartErase(page);
      if err != Nil {
        if err == ErrIo {
          Excuses(layout, err, old(pi.s), pi.s, ctx.done, old(ctx.now), ctx.now, 2000, Smooth(ctx, 200));
        }
        return;
      }
      ghost var u := EraseUnit(layout, page);
      Polls(10, 2000, 200);
      err := Conclude(ctx, u, Blank(u.hi - u.lo), STATUS_ERASE_BUSY, STATUS_ERASE_OK, 10, 2000,
                      old(pi.log), old(pi.s), Strict);
      if !old(pi.s.work.Busy?) {
        ExcusedPart(layout, err, old(pi.s), old(pi.s), pi.s, ctx.done, old(ctx.now), old(ctx.now), ctx.now,
                    2000, ctx.steady && pi.InTime(10, 2000), 2000, Smooth(ctx, 200));
      }
    }

    /** Fewer polls than fit the timeout. */
    lemma Polls(period: nat, timeout: nat, polls: nat)
      requires timeout == polls * period && period > 0
      ensures pi.Within(polls) ==> pi.InTime(period, timeout)
    {
      if pi.Within(polls) {
        TimesIs(pi.delay.value, period);
        MulOrder(pi.delay.value + 1, polls, period);
      }
    }

    /** Second half of Erase and of ProgramPage, after an operation on u was started from state s0 and log log0:
        waits for its end, clears the status, and fails if the operation did. */
    method Conclude(ctx: Context, ghost u: Unit, ghost result: seq<u8>, busy: u8, good: u8, period: nat, timeout: nat,
                    ghost log0: seq<Step>, ghost s0: State, ghost rule: Rule) returns (err: DriverError)
      requires Valid() && period > 0 && Fenced(log0, s0, pi.log, pi.s, u)
      requires !s0.work.Busy? ==>
                 && Confined(layout, log0, s0, pi.log, pi.s, u, result, rule) && Begun(s0, pi.s, u, result)
                 && u.lo + |result| == u.hi <= |s0.mem|
                 && busy == BusyBit(u.kind)
                 && good == (if u.kind == EraseOp then STATUS_ERASE_OK else STATUS_PROGRAM_OK)
      requires !s0.work.Busy? ==> pi.age == 0
      modifies pi, ctx
      ensures Valid() && ctx.Later() && Silent(ctx) && (err == Nil ==> ctx.done == Nil)
      ensures pi.Counted(err)
      ensures Fenced(log0, s0, pi.log, pi.s, u)
      ensures !s0.work.Busy? ==>
                && Confined(layout, log0, s0, pi.log, pi.s, u, result, rule)
                && (err == Nil ==> Done(s0, pi.s, u, result))
                && (err == Nil || err == ErrOperationNOK ==> pi.s.status == ClearedStatus(pi.clearsOnly))
      ensures || err == Nil || err == ErrIo || err == ErrOperationNOK
              || Expired(err, ctx.done, old(ctx.now), ctx.now, timeout)
      ensures !s0.work.Busy? ==> Excused(layout, err, s0, pi.s, ctx.done, old(ctx.now), ctx.now, timeout,
                                         ctx.steady && pi.InTime(period, timeout))
      ensures !s0.work.Busy? ==>
                && pi.s.started == s0.started + [u]
                && (err != Nil && err != ErrIo && err != ErrOperationNOK ==>
                      pi.s.work.Busy? && |pi.log| == |old(pi.log)| + 2 * (ctx.naps - old(ctx.naps)))
    {
      hide IsRun, And, WellFormed, Quiet, Confined, Done, Reported, StatusShows, Drifts, Fenced, Excused, Begun,
           PollEnds, BusyBit, Pow2, Times, RoundDown;
      ghost var log1, s1, since, naps := pi.log, pi.s, ctx.now, ctx.naps;
      ghost var smooth, pace := ctx.steady && pi.InTime(period, timeout), PaceOf(ctx, busy, period, timeout);
      BegunShows(s0, s1, u, result);
      var status;
      status, err := WaitStatusBitsCleared(ctx, busy, period, timeout);
      ghost var log2, s2, polled, waits := pi.log, pi.s, err, ctx.naps - naps;
      PollShows(layout, log1, s1, log2, s2, busy, status, err, ctx.done, since, ctx.now, timeout, waits, pace);
      FormShows(layout, s2);
      if err == Nil {
        err := ClearStatusNow();
        DriftsTrans(log1, s1, log2, s2, pi.log, pi.s);
        if err == Nil && And(status, good) == 0 {
          err := ErrOperationNOK;
        }
      }
      FencedDrifts(log0, s0, log1, s1, pi.log, pi.s, u);
      if !s0.work.Busy? {
        ConcludeUnit(layout, log0, s0, log1, s1, log2, s2, pi.log, pi.s, u, result, rule, busy, good, status,
                     polled, err, ctx.done, since, ctx.now, timeout, smooth, waits, pace);
      }
    }

    method StartErase(page: Option<int>) returns (err: DriverError)
      requires Valid()
      modifies pi
      ensures Valid()
      ensures pi.Counted(err)
      ensures !Erasable(layout, page) ==> err == ErrInvalidPage && pi.s == old(pi.s) && pi.log == old(pi.log)
      ensures Erasable(layout, page) ==>
                var u := EraseUnit(layout, page);
                && Fenced(old(pi.log), old(pi.s), pi.log, pi.s, u)
                && (!old(pi.s.work.Busy?) ==>
                      && Confined(layout, old(pi.log), old(pi.s), pi.log, pi.s, u, Blank(u.hi - u.lo), Strict)
                      && (err == Nil ==> Begun(old(pi.s), pi.s, u, Blank(u.hi - u.lo))))
      ensures Erasable(layout, page) ==> err == Nil || err == ErrIo
      ensures !old(pi.s.work.Busy?) && err == Nil ==> pi.age == 0 && |pi.log| == |old(pi.log)| + 4
    {
      hide IsRun, Quiet, Confined, Begun, Fenced, Drifts, EraseUnit, Blank, WellFormed, And, Times, Pow2, RoundDown,
           Layout.TotalPages;
      FormShows(layout, pi.s);
      if page.Some? && (page.value < 0 || page.value >= layout.TotalPages()) {
        return ErrInvalidPage;
      }
      err := WriteSetup(page);
      if err != Nil {
        ghost var u := EraseUnit(layout, page);
        QuietDrifts(layout, old(pi.log), old(pi.s), pi.log, pi.s);
        DriftsFenced(old(pi.log), old(pi.s), pi.log, pi.s, u);
        if !old(pi.s.work.Busy?) {
          QuietConfined(layout, old(pi.log), old(pi.s), pi.log, pi.s, u, Blank(u.hi - u.lo), Strict);
        }
        return;
      }
      if !old(pi.s.work.Busy?) {
        QuietIdle(layout, old(pi.log), old(pi.s), pi.log, pi.s);
      }
      err := Confirm(page, old(pi.log), old(pi.s));
    }

    /** First half of startErase. */
    method WriteSetup(page: Option<nat>) returns (err: DriverError)
      requires Valid() && Erasable(layout, page)
      modifies pi
      ensures Valid()
      ensures pi.Counted(err)
      ensures Quiet(layout, old(pi.log), old(pi.s), pi.log, pi.s)
      ensures err == Nil ==> pi.s.setup == SetupOf(page)
      ensures err == Nil || err == ErrIo
      ensures |pi.log| == |old(pi.log)| + 2
    {
      hide IsRun, Transaction, Quiet, WellFormed, SetupEraseCmd;
      PagesFit(layout);
      ghost var cir := Cir(SetupEraseCmd(page));
      err := WriteCIR(SetupEraseCmd(page));
      SetupQuiet(layout, pi.clearsOnly, page, old(pi.log), old(pi.s), if pi.Did(cir) then cir else Tick,
                 pi.log, pi.s);
    }

    /** Second half of startErase, after quiet steps from state s0 and log log0. */
    method Confirm(ghost page: Option<nat>, ghost log0: seq<Step>, ghost s0: State) returns (err: DriverError)
      requires Valid() && Erasable(layout, page) && pi.s.setup == SetupOf(page)
      requires Quiet(layout, log0, s0, pi.log, pi.s) && |s0.mem| == layout.ChipSize()
      modifies pi
      ensures Valid()
      ensures pi.Counted(err)
      ensures var u := EraseUnit(layout, page);
              && Fenced(log0, s0, pi.log, pi.s, u)
              && (!s0.work.Busy? ==>
                    && Confined(layout, log0, s0, pi.log, pi.s, u, Blank(u.hi - u.lo), Strict)
                    && (err == Nil ==> Begun(s0, pi.s, u, Blank(u.hi - u.lo))))
      ensures err == Nil || err == ErrIo
      ensures (!old(pi.s.work.Busy?) ==> pi.age == 0) && |pi.log| == |old(pi.log)| + 2
    {
      hide IsRun, Transaction, Quiet, Confined, Begun, Fenced, EraseUnit, Blank, Erasable, And, Times, Pow2,
           RoundDown;
      ghost var act := Cir(CMD_ERASE);
      err := WriteCIR(CMD_ERASE);
      if !pi.Did(act) {
        act := Tick;
      }
      EraseFenced(layout, pi.clearsOnly, page, log0, s0, old(pi.log), old(pi.s), act, pi.log, pi.s);
      if !s0.work.Busy? {
        EraseBegins(layout, pi.clearsOnly, page, log0, s0, old(pi.log), old(pi.s), act, pi.log, pi.s);
      }
    }

    // -------------------------------------------------------------- program

    /** Programs the page buffer into a page. On a busy chip the command is ignored, and nothing is promised
        but that no other unit is touched. */
    method ProgramPage(ctx: Context, page: int) returns (err: DriverError)
      requires Valid()
      modifies pi, ctx
      ensures Valid() && ctx.Later() && Silent(ctx) && (err == Nil ==> ctx.done == Nil)
      ensures pi.Counted(err)
      ensures !(0 <= page < layout.TotalPages()) ==>
                err == ErrInvalidPage && pi.s == old(pi.s) && pi.log == old(pi.log)
      ensures 0 <= page < layout.TotalPages() ==>
                var u := PageUnit(layout, page);
                var cells := old(pi.s.mem)[u.lo..u.hi];
                var result := Programmed(cells, old(pi.s.buf));
                && Fenced(old(pi.log), old(pi.s), pi.log, pi.s, u)
                && (!old(pi.s.work.Busy?) ==>
                      && Confined(layout, old(pi.log), old(pi.s), pi.log, pi.s, u, result, OnCells(cells))
                      && (err == Nil ==> Done(old(pi.s), pi.s, u, result))
                      && (err == Nil || err == ErrOperationNOK ==> pi.s.status == ClearedStatus(pi.clearsOnly)))
      ensures 0 <= page < layout.TotalPages() ==>
                || err == Nil || err == ErrIo || err == ErrOperationNOK
                || Expired(err, ctx.done, old(ctx.now), ctx.now, 500)
      ensures 0 <= page < layout.TotalPages() && !old(pi.s.work.Busy?) ==>
                Excused(layout, err, old(pi.s), pi.s, ctx.done, old(ctx.now), ctx.now, 500, Smooth(ctx, 500))
      // from an idle chip, as for Erase
      ensures 0 <= page < layout.TotalPages() && !old(pi.s.work.Busy?) && err != ErrIo ==>
                && pi.s.started == old(pi.s.started) + [PageUnit(layout, page)]
                && (err != Nil && err != ErrOperationNOK ==>
                      pi.s.work.Busy? && |pi.log| == |old(pi.log)| + 2 + 2 * (ctx.naps - old(ctx.naps)))
    {
      hide IsRun, Fenced, Confined, Done, Programmed, OnCells, PageUnit, WellFormed, LastFailed, Excused;
      FormShows(layout, pi.s);
      err := StartProgramPage(page);
      if err != Nil {
        if err == ErrIo {
          Excuses(layout, err, old(pi.s), pi.s, ctx.done, old(ctx.now), ctx.now, 500, Smooth(ctx, 500));
        }
        return;
      }
      ghost var u := PageUnit(layout, page);
      ghost var cells := old(pi.s.mem)[u.lo..u.hi];
      ghost var result := Programmed(cells, old(pi.s.buf));
      Polls(1, 500, 500);
      err := Conclude(ctx, u, result, STATUS_PROGRAM_BUSY, STATUS_PROGRAM_OK, 1, 500, old(pi.log), old(pi.s),
                      OnCells(cells));
      if !old(pi.s.work.Busy?) {
        ExcusedPart(layout, err, old(pi.s), old(pi.s), pi.s, ctx.done, old(ctx.now), old(ctx.now), ctx.now,
                    500, ctx.steady && pi.InTime(1, 500), 500, Smooth(ctx, 500));
      }
    }

    method StartProgramPage(page: int) returns (err: DriverError)
      requires Valid()
      modifies pi
      ensures Valid()
      ensures pi.Counted(err)
      ensures !(0 <= page < layout.TotalPages()) ==>
                err == ErrInvalidPage && pi.s == old(pi.s) && pi.log == old(pi.log)
      ensures 0 <= page < layout.TotalPages() ==>
                var u := PageUnit(layout, page);
                var cells := old(pi.s.mem)[u.lo..u.hi];
                var result := Programmed(cells, old(pi.s.buf));
                && Fenced(old(pi.log), old(pi.s), pi.log, pi.s, u)
                && (!old(pi.s.work.Busy?) ==>
                      && Confined(layout, old(pi.log), old(pi.s), pi.log, pi.s, u, result, OnCells(cells))
                      && (err == Nil ==> Begun(old(pi.s), pi.s, u, result)))
      ensures 0 <= page < layout.TotalPages() ==> err == Nil || err == ErrIo
      ensures !old(pi.s.work.Busy?) && err == Nil ==> pi.age == 0 && |pi.log| == |old(pi.log)| + 2
    {
      hide IsRun, Transaction, Confined, Begun, Fenced, PageUnit, Programmed, OnCells, ProgramPageCmd;
      if page < 0 || page >= layout.TotalPages() {
        return ErrInvalidPage;
      }
      PagesFit(layout);
      ghost var act := Cir(ProgramPageCmd(page));
      err := WriteCIR(ProgramPageCmd(page));
      if !pi.Did(act) {
        act := Tick;
      }
      ProgramFenced(layout, pi.clearsOnly, page, old(pi.log), old(pi.s), act, pi.log, pi.s);
      if !old(pi.s.work.Busy?) {
        ProgramBegins(layout, pi.clearsOnly, page, old(pi.log), old(pi.s), act, pi.log, pi.s);
      }
    }

    // -------------------------------------------------------------- load

    /** Loads up to a page of data into the page buffer, by a burst or, where bursts are not supported, word
        by word. No cell is written. The data arrives if the chip is idle and one write of the command
        register suffices to enter the load mode. */
    method LoadBytePage(data: seq<u8>) returns (err: DriverError)
      requires Valid()
      modifies pi
      ensures Valid()
      ensures pi.Counted(err)
      ensures |data| > layout.PageSize() || |data| % 4 != 0 ==>
                err == ErrInvalidPageSize && pi.s == old(pi.s) && pi.log == old(pi.log)
      ensures err == Nil ==> |data| <= |old(pi.s.buf)|
      ensures Drifts(old(pi.log), old(pi.s), pi.log, pi.s)
      ensures !old(pi.s.work.Busy?) && LoadsAtOnce(old(pi.s)) ==>
                && Loading(layout, old(pi.log), old(pi.s), pi.log, pi.s, LoadRule(old(pi.s)))
                && (err == Nil ==> pi.s.mode == LoadPage
                                   && pi.s.buf == Loaded(pi.clearsOnly, old(pi.s.buf), 0, data))
      ensures |data| <= layout.PageSize() && |data| % 4 == 0 ==> err == Nil || err == ErrIo
    {
      hide IsRun, Drifts, Loading, LoadRule, LoadsAtOnce, Loaded, WellFormed;
      FormShows(layout, pi.s);
      if |data| > layout.PageSize() || |data| % 4 != 0 {
        NoDrift(pi.log, pi.s);
        NothingLoading(layout, pi.log, pi.s, LoadRule(pi.s));
        return ErrInvalidPageSize;
      }
      ghost var ready, rule := !pi.s.work.Busy? && LoadsAtOnce(pi.s), LoadRule(pi.s);
      err := EnterLoadPage();
      if err != Nil {
        return;
      }
      ghost var log1, s1 := pi.log, pi.s;
      err := BurstPage(data, rule);
      DriftsTrans(old(pi.log), old(pi.s), log1, s1, pi.log, pi.s);
      if ready {
        LoadingTrans(layout, old(pi.log), old(pi.s), log1, s1, pi.log, pi.s, rule);
      }
      if err == ErrUnsupported {
        ghost var log2, s2 := pi.log, pi.s;
        err := LoadWords(data, rule);
        DriftsTrans(old(pi.log), old(pi.s), log2, s2, pi.log, pi.s);
        if ready {
          LoadingTrans(layout, old(pi.log), old(pi.s), log2, s2, pi.log, pi.s, rule);
        }
      }
    }

    /** The fallback: the page in 32-bit words. */
    method LoadWords(data: seq<u8>, ghost rule: Rule) returns (err: DriverError)
      requires Valid() && |data| <= layout.PageSize() && |data| % 4 == 0
      modifies pi
      ensures Valid()
      ensures pi.Counted(err)
      ensures Drifts(old(pi.log), old(pi.s), pi.log, pi.s)
      ensures !old(pi.s.work.Busy?) && old(pi.s.mode) == LoadPage ==>
                && Loading(layout, old(pi.log), old(pi.s), pi.log, pi.s, rule)
                && (err == Nil ==> pi.s.mode == LoadPage
                                   && pi.s.buf == Loaded(pi.clearsOnly, old(pi.s.buf), 0, data))
      ensures err == Nil || err == ErrIo
    {
      hide IsRun, Drifts, Loading, Loaded, WellFormed, And, Times, Pow2, RoundDown;
      ghost var ready := !pi.s.work.Busy? && pi.s.mode == LoadPage;
      var i := 0;
      NoDrift(pi.log, pi.s);
      NothingLoading(layout, pi.log, pi.s, rule);
      assert |pi.s.buf| == layout.PageSize() by {
        FormShows(layout, pi.s);
      }
      LoadedNothing(pi.clearsOnly, pi.s.buf, data);
      while i < |data|
        invariant 0 <= i <= |data| && i % 4 == 0
        invariant Valid() && Drifts(old(pi.log), old(pi.s), pi.log, pi.s) && pi.faults == old(pi.faults)
        invariant ready ==>
          && !pi.s.work.Busy? && pi.s.mode == LoadPage
          && Loading(layout, old(pi.log), old(pi.s), pi.log, pi.s, rule)
          && pi.s.buf == Loaded(pi.clearsOnly, old(pi.s.buf), 0, data[..i])
      {
        ghost var log1, s1 := pi.log, pi.s;
        NextWord(|data|, i);
        var word := data[i..i + 4];
        err := LoadWord(i, word, rule);
        DriftsTrans(old(pi.log), old(pi.s), log1, s1, pi.log, pi.s);
        if ready {
          LoadingTrans(layout, old(pi.log), old(pi.s), log1, s1, pi.log, pi.s, rule);
        }
        if err != Nil {
          return;
        }
        LoadedWord(pi.clearsOnly, old(pi.s.buf), data, i);
        i := i + 4;
      }
      assert data[..i] == data;
      err := Nil;
    }

    method EnterLoadPage() returns (err: DriverError)
      requires Valid()
      modifies pi
      ensures Valid()
      ensures pi.Counted(err)
      ensures Drifts(old(pi.log), old(pi.s), pi.log, pi.s)
      ensures !old(pi.s.work.Busy?) && LoadsAtOnce(old(pi.s)) ==>
                && Loading(layout, old(pi.log), old(pi.s), pi.log, pi.s, LoadRule(old(pi.s)))
                && pi.s.buf == old(pi.s.buf) && !pi.s.work.Busy?
                && (err == Nil ==> pi.s.mode == LoadPage)
      ensures err == Nil || err == ErrIo
    {
      hide IsRun, Transaction, Loading, LoadRule, WellFormed, LoadsAtOnce, Drifts;
      ghost var act := Cir(CMD_LOAD_BYTE_PAGE);
      err := WriteCIR(CMD_LOAD_BYTE_PAGE);
      if !pi.Did(act) {
        act := Tick;
      }
      DriftStep(layout, pi.clearsOnly, old(pi.log), old(pi.s), act, pi.log, pi.s);
      if !old(pi.s.work.Busy?) && LoadsAtOnce(old(pi.s)) {
        LoadEntered(layout, pi.clearsOnly, old(pi.log), old(pi.s), act, pi.log, pi.s);
      }
    }

    method BurstPage(data: seq<u8>, ghost rule: Rule) returns (err: DriverError)
      requires Valid() && |data| <= layout.PageSize()
      modifies pi
      ensures Valid()
      ensures pi.Counted(err)
      ensures Drifts(old(pi.log), old(pi.s), pi.log, pi.s)
      ensures !old(pi.s.work.Busy?) && old(pi.s.mode) == LoadPage ==>
                && Loading(layout, old(pi.log), old(pi.s), pi.log, pi.s, rule)
                && (err == Nil ==> pi.s.mode == LoadPage
                                   && pi.s.buf == Loaded(pi.clearsOnly, old(pi.s.buf), 0, data))
                && (err == ErrUnsupported ==> pi.s == old(pi.s))
      ensures err == Nil || err == ErrIo || err == ErrUnsupported
    {
      hide IsRun, Transaction, Loading, Loaded, Drifts, WellFormed, Times, Pow2, And, RoundDown;
      FormShows(layout, pi.s);
      err := pi.WriteBurst(baseAddress, data);
      ghost var act := if err == Nil then WriteRun(0, data) else if err == ErrIo then Torn else Tick;
      DriftStep(layout, pi.clearsOnly, old(pi.log), old(pi.s), act, pi.log, pi.s);
      if !old(pi.s.work.Busy?) && old(pi.s.mode) == LoadPage {
        BufferLoaded(layout, pi.clearsOnly, old(pi.log), old(pi.s), act, 0, data, pi.log, pi.s, rule);
      }
    }

    method LoadWord(i: nat, bytes: seq<u8>, ghost rule: Rule) returns (err: DriverError)
      requires Valid() && |bytes| == 4 && i + 4 <= layout.PageSize()
      modifies pi
      ensures Valid()
      ensures pi.Counted(err)
      ensures Drifts(old(pi.log), old(pi.s), pi.log, pi.s)
      ensures !old(pi.s.work.Busy?) && old(pi.s.mode) == LoadPage ==>
                && Loading(layout, old(pi.log), old(pi.s), pi.log, pi.s, rule)
                && !pi.s.work.Busy?
                && (err == Nil ==> pi.s.mode == LoadPage
                                   && pi.s.buf == Loaded(pi.clearsOnly, old(pi.s.buf), i, bytes))
      ensures err == Nil || err == ErrIo
    {
      hide IsRun, Transaction, Loading, Loaded, Drifts, WellFormed, BigEndian32, PutBigEndian32, Times, Pow2, And,
           RoundDown;
      FormShows(layout, pi.s);
      assert i + 4 <= CIR_OFFSET by {
        PageSizeFits(layout);
      }
      var w := BigEndian32(bytes);
      assert PutBigEndian32(w) == bytes by {
        BigEndian32RoundTrip(0, bytes);
      }
      var address := Address(i);
      assert pi.Offset(address) == i;
      err := pi.Write32(address, w);
      ghost var act := if pi.Did(Poke(i, w)) then Poke(i, w) else Tick;
      DriftStep(layout, pi.clearsOnly, old(pi.log), old(pi.s), act, pi.log, pi.s);
      if !old(pi.s.work.Busy?) && old(pi.s.mode) == LoadPage {
        BufferLoaded(layout, pi.clearsOnly, old(pi.log), old(pi.s), act, i, bytes, pi.log, pi.s, rule);
      }
    }

    // -------------------------------------------------------------- read

    /** Reads the consecutive pages [begin, end) in bursts that stay within a read window. */
    method ReadPages(ctx: Context, begin: int, end: int) returns (data: array<u8>, err: DriverError)
      requires Valid()
      modifies pi, ctx
      ensures Valid() && ctx.Later() && Silent(ctx) && fresh(data)
      ensures pi.Counted(err)
      ensures Quiet(layout, old(pi.log), old(pi.s), pi.log, pi.s)
      ensures layout.ValidatePageRange(begin, end) != Nil ==> err == ErrInvalidPageRange && pi.log == old(pi.log)
      ensures layout.ValidatePageRange(begin, end) == Nil && begin == end ==> err == Nil || err == ErrIo
      ensures err == Nil ==> data.Length == layout.PageStart(end - begin)
      ensures err == Nil ==>
                BurstsOf(pi.log) == BurstsOf(old(pi.log)) + Issued(layout, BurstPlan(layout, begin, end))
      ensures err == Nil && !old(pi.s.work.Busy?) ==>
                data[..] == PagesOf(layout, old(pi.s.mem), begin, end)
      ensures layout.ValidatePageRange(begin, end) == Nil ==> ReadExcused(layout, err, ctx.done)
      ensures layout.ValidatePageRange(begin, end) == Nil && begin < end ==> Stops(ctx, err)
      ensures layout.ValidatePageRange(begin, end) == Nil && begin == end ==> ctx.done == old(ctx.done)
    {
      hide IsRun, And, Times, Pow2, RoundDown, PagesOf, BurstsOf, Issued, BurstPlan, Quiet, Layout.PageStart,
           WellFormed, ReadExcused, AtPage;
      data := new u8[0];
      NothingQuiet(layout, pi.log, pi.s);
      err := layout.ValidatePageRange(begin, end);
      if err != Nil {
        return;
      }
      err := WriteMode(CMD_READ_ARRAY, ReadArray);
      ReadEnds(layout, err, ctx.done);
      if err != Nil {
        return;
      }
      var size := BytesIn(end - begin);
      data := new u8[size];
      var idx, page := 0, begin;
      assert data[..idx] == PagesOf(layout, old(pi.s.mem), begin, page) by {
        NoPages(layout, old(pi.s.mem), begin);
      }
      AtEnds(layout, begin, end, size);
      NothingRead(layout, old(pi.log), pi.log, begin, end);
      while page < end
        invariant begin <= page <= end && 0 <= idx <= size && AtPage(layout, begin, page, idx)
        invariant fresh(data) && data.Length == size
        invariant Valid() && ctx.Later() && pi.s.mode == ReadArray && pi.faults == old(pi.faults)
        invariant Quiet(layout, old(pi.log), old(pi.s), pi.log, pi.s)
        invariant err == Nil && Silent(ctx)
        invariant if page == begin then ctx.done == old(ctx.done) && BurstsOf(pi.log) == BurstsOf(old(pi.log))
                  else ctx.done == Nil
        invariant ReadSoFar(layout, old(pi.log), pi.log, begin, page, end)
        invariant !old(pi.s.work.Busy?) ==> data[..idx] == PagesOf(layout, old(pi.s.mem), begin, page)
      {
        ghost var log1, s1 := pi.log, pi.s;
        assert !old(pi.s.work.Busy?) ==> !s1.work.Busy? && s1.mem == old(pi.s.mem) by {
          if !old(pi.s.work.Busy?) {
            QuietIdle(layout, old(pi.log), old(pi.s), log1, s1);
          }
        }
        page, idx, err := ReadOn(ctx, data, idx, begin, page, end, old(pi.log));
        QuietTrans(layout, old(pi.log), old(pi.s), log1, s1, pi.log, pi.s);
        if err != Nil {
          data := new u8[0];
          return;
        }
      }
      ReadEnds(layout, err, ctx.done);
      assert page == end && idx == data.Length;
      assert data[..idx] == data[..] by {
        ArrayWhole(data);
      }
    }

    /** One turn of the loop of ReadPages: what is read so far is extended by one burst. */
    method ReadOn(ctx: Context, data: array<u8>, idx: nat, ghost begin: nat, page: nat, end: nat, ghost log0: seq<Step>)
      returns (page': nat, idx': nat, err: DriverError)
      requires Valid() && pi.s.mode == ReadArray
      requires begin <= page < end <= layout.TotalPages()
      requires AtPage(layout, begin, page, idx) && AtPage(layout, begin, end, data.Length) && idx <= data.Length
      requires ReadSoFar(layout, log0, pi.log, begin, page, end)
      modifies pi, ctx, data
      ensures Valid() && ctx.Later() && Silent(ctx) && pi.s.mode == ReadArray
      ensures pi.Counted(err)
      ensures Quiet(layout, old(pi.log), old(pi.s), pi.log, pi.s)
      ensures err == Nil ==> page < page' <= end && AtPage(layout, begin, page', idx') && idx' <= data.Length
      ensures err == Nil ==> ReadSoFar(layout, log0, pi.log, begin, page', end)
      ensures err == Nil && !old(pi.s.work.Busy?)
                && old(data[..idx]) == PagesOf(layout, old(pi.s.mem), begin, page) ==>
                data[..idx'] == PagesOf(layout, old(pi.s.mem), begin, page')
      ensures ReadExcused(layout, err, ctx.done)
      ensures (err == Nil ==> ctx.done == Nil) && (ctx.done != Nil ==> err == ctx.done)
      ensures old(ctx.done) != Nil ==> pi.log == old(pi.log)
    {
      hide IsRun, And, Times, Pow2, PagesOf, BurstsOf, ReadSoFar, Quiet, RoundDown, Layout.PageStart, WellFormed,
           AtPage;
      page', idx' := page, idx;
      err := ctx.Err();
      ReadEnds(layout, err, ctx.done);
      if err != Nil {
        NothingQuiet(layout, pi.log, pi.s);
        return;
      }
      page', idx', err := ReadRunAt(data, idx, begin, page, end, log0);
      ReadEnds(layout, err, ctx.done);
    }

    /** The burst of one turn. */
    method ReadRunAt(data: array<u8>, idx: nat, ghost begin: nat, page: nat, end: nat, ghost log0: seq<Step>)
      returns (page': nat, idx': nat, err: DriverError)
      requires Valid() && pi.s.mode == ReadArray
      requires begin <= page < end <= layout.TotalPages()
      requires AtPage(layout, begin, page, idx) && AtPage(layout, begin, end, data.Length) && idx <= data.Length
      requires ReadSoFar(layout, log0, pi.log, begin, page, end)
      modifies pi, data
      ensures Valid() && pi.s.mode == ReadArray
      ensures pi.Counted(err)
      ensures Quiet(layout, old(pi.log), old(pi.s), pi.log, pi.s)
      ensures page < page' <= end && AtPage(layout, begin, page', idx') && idx' <= data.Length
      ensures err == Nil ==> ReadSoFar(layout, log0, pi.log, begin, page', end)
      ensures err == Nil && !old(pi.s.work.Busy?)
                && old(data[..idx]) == PagesOf(layout, old(pi.s.mem), begin, page) ==>
                data[..idx'] == PagesOf(layout, old(pi.s.mem), begin, page')
      ensures ReadExcused(layout, err, Nil)
    {
      hide IsRun, And, Times, Pow2, PagesOf, BurstsOf, ReadSoFar, Quiet, RoundDown, Or, Layout.PageStart, AtPage,
           ReadExcused;
      ghost var mem, done := pi.s.mem, data[..idx];
      page' := NextBurstEnd(page, end);
      var bytes := BytesIn(page' - page);
      idx' := idx + bytes;
      AtPageMore(layout, begin, page, page', end, idx, bytes, data.Length);
      err := BurstPages(data, idx, page, page');
      if err == Nil {
        assert ReadSoFar(layout, log0, pi.log, begin, page', end) by {
          layout.TotalBound();
          ReadMore(layout, log0, old(pi.log), pi.log, begin, page, page', end);
        }
        if !old(pi.s.work.Busy?) && done == PagesOf(layout, mem, begin, page) {
          assert data[..idx'] == PagesOf(layout, mem, begin, page') by {
            ArrayPrefix(data, idx, idx');
            Extent(layout, mem, begin, page, page');
          }
        }
      }
    }

    static lemma ArrayWhole(a: array<u8>)
      ensures a[..a.Length] == a[..]
    {
    }

    static lemma ArrayPrefix(a: array<u8>, i: nat, j: nat)
      requires i <= j <= a.Length
      ensures a[..j] == a[..i] + a[i..j]
    {
    }

    method NextBurstEnd(page: nat, end: nat) returns (burstEnd: nat)
      requires Valid() && page < end <= layout.TotalPages()
      ensures page < burstEnd <= end && burstEnd <= layout.ReadBurstEnd(page)
      ensures burstEnd < end ==> burstEnd == layout.ReadBurstEnd(page)
    {
      layout.TotalBound();
      BurstAdvances(layout, page);
      burstEnd := layout.ReadBurstEnd(page);
      if burstEnd >= end {
        burstEnd := end;
      }
    }

    /** One burst, over pages [page, burstEnd) of one window. */
    method BurstPages(data: array<u8>, idx: nat, page: nat, burstEnd: nat) returns (err: DriverError)
      requires Valid() && pi.s.mode == ReadArray
      requires page < burstEnd <= layout.TotalPages() && burstEnd <= layout.ReadBurstEnd(page)
      requires idx + layout.PageStart(burstEnd - page) <= data.Length
      modifies pi, data
      ensures Valid() && pi.s.mode == ReadArray
      ensures pi.Counted(err)
      ensures Quiet(layout, old(pi.log), old(pi.s), pi.log, pi.s)
      ensures data[..idx] == old(data[..idx])
      ensures err == Nil ==>
                BurstsOf(pi.log) == BurstsOf(old(pi.log)) + [BurstAct(layout, Run(page, burstEnd - page))]
      ensures err == Nil && !old(pi.s.work.Busy?) ==>
                data[idx..idx + layout.PageStart(burstEnd - page)] == PagesOf(layout, old(pi.s.mem), page, burstEnd)
      ensures ReadExcused(layout, err, Nil)
    {
      hide IsRun, And, Times, Pow2, RoundDown, BurstsOf, PagesOf, Quiet, BurstShows, InOneWindow, Layout.ReadBurstEnd,
           Layout.PageStart, WellFormed;
      IsValid();
      var len := BytesIn(burstEnd - page);
      var offset := layout.PageReadAddress(page);
      assert pi.Offset(Address(offset)) == offset;
      assert InOneWindow(layout, Times(offset, layout.UnitSize()), len) by {
        BurstFits(layout, page, burstEnd);
      }
      assert BurstAct(layout, Run(page, burstEnd - page)) == ReadRun(offset, len);
      ghost var s0 := pi.s;
      err := BurstAt(data, idx, idx + len, Address(offset), offset);
      PagesOfWords(layout, burstEnd - page);
      if err == Nil && !s0.work.Busy? {
        QuietIdle(layout, old(pi.log), s0, pi.log, pi.s);
        assert BurstShows(layout, pi.id, pi.s, Times(offset, layout.UnitSize()), data[idx..idx + len]);
        assert data[idx..idx + len] == PagesOf(layout, s0.mem, page, burstEnd) by {
          BurstReads(layout, pi.id, pi.s, page, burstEnd, data[idx..idx + len]);
        }
      }
    }

    /** count * pageSize */
    method BytesIn(count: nat) returns (n: nat)
      ensures n == layout.PageStart(count)
    {
      PageStartIs(layout, count);
      n := count * layout.PageSize();
    }

    method BurstAt(data: array<u8>, lo: nat, hi: nat, address: u32, ghost offset: u32) returns (err: DriverError)
      requires pi.Valid() && lo <= hi <= data.Length && pi.Offset(address) == offset
      requires || (pi.s.mode == ReadArray && InOneWindow(pi.layout, Times(offset, pi.layout.UnitSize()), hi - lo))
               || (pi.s.mode == ReadSilicon && hi - lo == 8)
      modifies pi, data
      ensures pi.Valid() && pi.s.mode == old(pi.s.mode)
      ensures pi.Counted(err)
      ensures Quiet(pi.layout, old(pi.log), old(pi.s), pi.log, pi.s)
      ensures data[..lo] == old(data[..lo])
      ensures err == Nil ==>
                && BurstShows(pi.layout, pi.id, pi.s, Times(offset, pi.layout.UnitSize()), data[lo..hi])
                && BurstsOf(pi.log) == BurstsOf(old(pi.log)) + [ReadRun(offset, hi - lo)]
      ensures err == Nil || err == ErrIo || (err == ErrUnsupported && !WholeWords(hi - lo))
    {
      hide IsRun, Transaction, Quiet, BurstShows, InOneWindow, WellFormed, Times, BurstsOf, Chip.Offset, WholeWords,
           Pow2, And, RoundDown;
      ghost var run := ReadRun(offset, hi - lo);
      err := pi.ReadBurst(address, data, lo, hi);
      BurstDone(pi.layout, pi.clearsOnly, old(pi.log), old(pi.s), if err == Nil then run else Tick, pi.log, pi.s);
    }

    // -------------------------------------------------------------- linear reads and writes

    /** Erases the sectors of pages [sbegin, send): all at once when they are the whole chip, otherwise one by
        one until the context is done. */
    method EraseSectors(ctx: Context, sbegin: nat, send: nat, ghost j: Job) returns (err: DriverError)
      requires Valid() && !pi.s.work.Busy? && pi.s.mode == ReadStatus
      requires JobFits(layout, j) && j.begin == sbegin && j.end == send
      requires pi.s.mem == j.before && pi.s.started == j.started
      requires Aligned(layout, sbegin) && Aligned(layout, send)
      modifies pi, ctx
      ensures Valid() && ctx.Later() && Silent(ctx)
      ensures pi.Counted(err)
      ensures SafeRun(layout, j, old(pi.log), pi.log, pi.s, Strict)
      ensures StartedPart(old(pi.s.started), pi.s.started, ErasePlan(layout, sbegin, send))
      ensures err == Nil ==> !pi.s.work.Busy? && pi.s.mode == ReadStatus && pi.s.buf == old(pi.s.buf)
      ensures err == Nil && ctx.done == Nil ==>
                Erased(layout, j, pi.s.mem, send)
                && pi.s.started == old(pi.s.started) + ErasePlan(layout, sbegin, send)
      ensures Excused(layout, err, old(pi.s), pi.s, ctx.done, old(ctx.now), ctx.now, 2000, Smooth(ctx, 200))
      // a cancelled call starts nothing, unless the sectors are the whole chip
      ensures old(ctx.done) != Nil && !(sbegin == 0 && send == layout.TotalPages()) ==>
                err == Nil && pi.s == old(pi.s) && pi.log == old(pi.log)
      ensures sbegin == 0 && send == layout.TotalPages() && err != ErrIo ==>
                pi.s.started == old(pi.s.started) + [Unit(EraseOp, 0, layout.ChipSize())]
      ensures sbegin == 0 && send == layout.TotalPages() && err == Nil ==> ctx.done == Nil
    {
      hide IsRun, Excused, LastFailed, Expired;
      if sbegin == 0 && send == layout.TotalPages() {
        err := EraseChip(ctx, j);
      } else {
        err := EraseEach(ctx, sbegin, send, j);
      }
    }

    method EraseChip(ctx: Context, ghost j: Job) returns (err: DriverError)
      requires Valid() && !pi.s.work.Busy?
      requires JobFits(layout, j) && j.begin == 0 && j.end == layout.TotalPages()
      requires pi.s.mem == j.before && pi.s.started == j.started
      modifies pi, ctx
      ensures Valid() && ctx.Later() && Silent(ctx)
      ensures pi.Counted(err)
      ensures SafeRun(layout, j, old(pi.log), pi.log, pi.s, Strict)
      ensures StartedPart(old(pi.s.started), pi.s.started, [Unit(EraseOp, 0, layout.ChipSize())])
      ensures err == Nil ==> pi.s.work.Idle? && pi.s.mode == ReadStatus && pi.s.buf == old(pi.s.buf)
      ensures err == Nil ==> Erased(layout, j, pi.s.mem, j.end)
                             && pi.s.started == old(pi.s.started) + [Unit(EraseOp, 0, layout.ChipSize())]
      ensures Excused(layout, err, old(pi.s), pi.s, ctx.done, old(ctx.now), ctx.now, 2000, Smooth(ctx, 200))
      ensures err != ErrIo ==> pi.s.started == old(pi.s.started) + [Unit(EraseOp, 0, layout.ChipSize())]
      ensures err == Nil ==> ctx.done == Nil
    {
      hide IsRun, Excused, LastFailed, Expired;
      JobBounds(layout, j);
      SafeAtFirst(layout, j, pi.s);
      ErasedIntact(layout, j, pi.s.mem, 0);
      PageStartTotal(layout);
      ghost var u := EraseUnit(layout, None);
      err := Erase(ctx, None);
      ConfinedIsSafe(layout, j, old(pi.log), old(pi.s), pi.log, pi.s, u, 0, j.end, Blank(u.hi - u.lo), Strict);
    }

    method EraseEach(ctx: Context, sbegin: nat, send: nat, ghost j: Job) returns (err: DriverError)
      requires Valid() && !pi.s.work.Busy? && pi.s.mode == ReadStatus
      requires JobFits(layout, j) && j.begin == sbegin && j.end == send
      requires pi.s.mem == j.before && pi.s.started == j.started
      requires Aligned(layout, sbegin) && Aligned(layout, send)
      modifies pi, ctx
      ensures Valid() && ctx.Later() && Silent(ctx)
      ensures pi.Counted(err)
      ensures SafeRun(layout, j, old(pi.log), pi.log, pi.s, Strict)
      ensures StartedPart(old(pi.s.started), pi.s.started, SectorUnits(layout, sbegin, send))
      ensures err == Nil ==> !pi.s.work.Busy? && pi.s.mode == ReadStatus && pi.s.buf == old(pi.s.buf)
      ensures err == Nil && ctx.done == Nil ==>
                Erased(layout, j, pi.s.mem, send)
                && pi.s.started == old(pi.s.started) + SectorUnits(layout, sbegin, send)
      ensures Excused(layout, err, old(pi.s), pi.s, ctx.done, old(ctx.now), ctx.now, 2000, Smooth(ctx, 200))
      ensures old(ctx.done) != Nil ==> err == Nil && pi.s == old(pi.s) && pi.log == old(pi.log)
    {
      hide IsRun, Erased, Excused, LastFailed, Expired, Erasing, Safe, SafeRun, StartedPart, SectorUnits, Aligned,
           Times, Pow2, Smooth;
      assert Erased(layout, j, pi.s.mem, sbegin) by {
        JobBounds(layout, j);
      }
      SafeAtFirst(layout, j, pi.s);
      NothingErased(layout, j, pi.log, pi.s);
      var p := sbegin;
      var e := ctx.Err();
      err := Nil;
      while e == Nil && p < send
        invariant sbegin <= p <= send && Aligned(layout, p) && e == ctx.done
        invariant Valid() && ctx.Later() && Silent(ctx) && pi.faults == old(pi.faults)
        invariant old(ctx.done) != Nil ==> pi.s == old(pi.s) && pi.log == old(pi.log)
        invariant err == Nil && !pi.s.work.Busy? && pi.s.mode == ReadStatus && pi.s.buf == old(pi.s.buf)
        invariant Erased(layout, j, pi.s.mem, p)
        invariant Erasing(layout, j, old(pi.log), old(pi.s), pi.log, pi.s, p)
        decreases send - p
      {
        ghost var s1, now := pi.s, ctx.now;
        ErasingShows(layout, j, old(pi.log), old(pi.s), pi.log, pi.s, p);
        var next;
        next, err := EraseTurn(ctx, p, old(pi.log), old(pi.s), j);
        if err != Nil {
          ExcusedPart(layout, err, old(pi.s), s1, pi.s, ctx.done, old(ctx.now), now, ctx.now,
                      2000, Smooth(ctx, 200), 2000, Smooth(ctx, 200));
          return;
        }
        p := next;
        e := ctx.Err();
      }
      ErasingShows(layout, j, old(pi.log), old(pi.s), pi.log, pi.s, p);
      Excuses(layout, err, old(pi.s), pi.s, ctx.done, old(ctx.now), ctx.now, 2000, Smooth(ctx, 200));
    }

    /** One turn of the erase loop. */
    method EraseTurn(ctx: Context, p: nat, ghost log0: seq<Step>, ghost s0: State, ghost j: Job)
      returns (next: nat, err: DriverError)
      requires Valid() && !pi.s.work.Busy? && pi.s.mode == ReadStatus
      requires JobFits(layout, j) && j.begin <= p < j.end && Aligned(layout, p)
      requires Erased(layout, j, pi.s.mem, p) && Aligned(layout, j.begin) && Aligned(layout, j.end)
      requires Erasing(layout, j, log0, s0, pi.log, pi.s, p)
      modifies pi, ctx
      ensures Valid() && ctx.Later() && Silent(ctx)
      ensures pi.Counted(err)
      ensures p < next <= j.end && Aligned(layout, next)
      ensures SafeRun(layout, j, log0, pi.log, pi.s, Strict)
      ensures StartedPart(s0.started, pi.s.started, SectorUnits(layout, j.begin, j.end))
      ensures err == Nil ==> Erased(layout, j, pi.s.mem, next)
      ensures err == Nil ==> Erasing(layout, j, log0, s0, pi.log, pi.s, next)
      ensures err == Nil ==> pi.s.work.Idle? && pi.s.mode == ReadStatus && pi.s.buf == old(pi.s.buf)
      ensures Excused(layout, err, old(pi.s), pi.s, ctx.done, old(ctx.now), ctx.now, 2000, Smooth(ctx, 200))
      ensures err == Nil ==> ctx.done == Nil
    {
      hide IsRun, Excused, LastFailed, Expired;
      next := layout.SectorEnd(p);
      assert p < next <= j.end && Aligned(layout, next) by {
        SectorAhead(layout, j.begin, p, j.end);
      }
      err := EraseNext(ctx, p, next, j);
      SafeRunTrans(layout, j, log0, old(pi.log), old(pi.s), pi.log, pi.s, Strict);
      SectorsStarted(layout, j.begin, p, j.end, s0.started, old(pi.s.started), pi.s.started);
    }

    /** Erases one sector of a job. */
    method EraseNext(ctx: Context, p: nat, ghost next: nat, ghost j: Job) returns (err: DriverError)
      requires Valid() && !pi.s.work.Busy? && pi.s.mode == ReadStatus
      requires JobFits(layout, j) && j.begin <= p < j.end && Aligned(layout, p)
      requires next == layout.SectorEnd(p) <= j.end
      requires Erased(layout, j, pi.s.mem, p) && Safe(layout, j, pi.s)
      modifies pi, ctx
      ensures Valid() && ctx.Later() && Silent(ctx)
      ensures pi.Counted(err)
      ensures SafeRun(layout, j, old(pi.log), pi.log, pi.s, Strict)
      ensures var started := old(pi.s.started) + [Unit(EraseOp, layout.PageStart(p), layout.PageStart(next))];
              pi.s.started == started || (err != Nil && pi.s.started == old(pi.s.started))
      ensures err == Nil ==> Erased(layout, j, pi.s.mem, next)
      ensures err == Nil ==> pi.s.work.Idle? && pi.s.mode == ReadStatus && pi.s.buf == old(pi.s.buf)
      ensures Excused(layout, err, old(pi.s), pi.s, ctx.done, old(ctx.now), ctx.now, 2000, Smooth(ctx, 200))
      ensures err == Nil ==> ctx.done == Nil
    {
      hide IsRun, And, Pow2, RoundDown, Times, Excused, LastFailed, Expired;
      ghost var u := EraseUnit(layout, Some(p));
      assert next > p && u == Unit(EraseOp, layout.PageStart(p), layout.PageStart(next)) by {
        SectorSteps(layout, p);
      }
      ErasedIntact(layout, j, pi.s.mem, p);
      ghost var mem := Replace(pi.s.mem, u.lo, Blank(u.hi - u.lo));
      EraseMore(layout, j, pi.s.mem, p, next);
      BlankUnit(layout, j, p, next);
      err := Erase(ctx, Some(p));
      ConfinedStarts(layout, old(pi.log), old(pi.s), pi.log, pi.s, u, Blank(u.hi - u.lo), Strict);
      ConfinedIsSafe(layout, j, old(pi.log), old(pi.s), pi.log, pi.s, u, p, next, Blank(u.hi - u.lo), Strict);
    }

    /** Loads and programs pages [sbegin, send) until the context is done. */
    method ProgramSectors(ctx: Context, sbegin: nat, send: nat, sectorsData: seq<u8>, ghost rule: Rule, ghost j: Job)
      returns (err: DriverError)
      requires Valid() && !pi.s.work.Busy? && pi.s.mode == ReadStatus
      requires JobFits(layout, j) && j.begin == sbegin && j.end == send
      requires layout.PageStart(sbegin) + |sectorsData| == layout.PageStart(send)
      requires layout.PageStart(send) <= |j.before|
      requires j.target == Replace(j.before, layout.PageStart(sbegin), Burned(pi.clearsOnly, pi.s.buf, sectorsData))
      requires ctx.done == Nil ==> Erased(layout, j, pi.s.mem, send) && MayLoad(rule, pi.s)
      requires Safe(layout, j, pi.s)
      modifies pi, ctx
      ensures Valid() && ctx.Later() && Silent(ctx)
      ensures pi.Counted(err)
      ensures SafeRun(layout, j, old(pi.log), pi.log, pi.s, rule)
      ensures StartedPart(old(pi.s.started), pi.s.started, PageUnits(layout, sbegin, send))
      ensures err == Nil ==> ctx.done == Nil && pi.s.mode == ReadStatus && !pi.s.work.Busy?
      ensures err == Nil ==> pi.s.started == old(pi.s.started) + PageUnits(layout, sbegin, send)
      ensures err == Nil && sbegin < send ==> IsBlank(pi.s.buf)
      ensures err == Nil ==> pi.s.mem == j.target
      ensures old(ctx.done) != Nil ==> err == old(ctx.done) && pi.s == old(pi.s) && pi.log == old(pi.log)
      ensures Excused(layout, err, old(pi.s), pi.s, ctx.done, old(ctx.now), ctx.now, 500, Smooth(ctx, 500))
    {
      hide IsRun, And, Times, Pow2, RoundDown, WellFormed, Burned, IsBlank, Replace, ProgrammedUpTo, Erased,
           Layout.PageStart, Excused, LastFailed, Expired, Safe, SafeRun, StartedPart, MayLoad, PageUnits,
           Programming;
      FormShows(layout, pi.s);
      var p, idx := sbegin, 0;
      var e := ctx.Err();
      if e == Nil {
        assert ProgrammedUpTo(layout, j, pi.s.mem, sbegin) by {
          ErasedProgrammed(layout, j, pi.s.mem);
        }
      }
      NothingProgrammed(layout, j, pi.log, pi.s, rule);
      while e == Nil && p < send
        invariant sbegin <= p <= send && layout.PageStart(sbegin) + idx == layout.PageStart(p)
        invariant old(ctx.done) != Nil ==> p == sbegin
        invariant Valid() && ctx.Later() && Silent(ctx) && e == ctx.done && pi.faults == old(pi.faults)
        invariant old(ctx.done) != Nil ==> pi.s == old(pi.s) && pi.log == old(pi.log)
        invariant !pi.s.work.Busy? && pi.s.mode == ReadStatus
        invariant e == Nil ==> ProgrammedUpTo(layout, j, pi.s.mem, p)
        invariant Programming(layout, j, old(pi.log), old(pi.s), pi.log, pi.s, p, rule)
        decreases send - p
      {
        ghost var s1, now := pi.s, ctx.now;
        ProgrammingShows(layout, j, old(pi.log), old(pi.s), pi.log, pi.s, p, rule);
        p, idx, err := ProgramTurn(ctx, p, idx, sectorsData, old(pi.log), old(pi.s), rule, j);
        if err != Nil {
          ExcusedPart(layout, err, old(pi.s), s1, pi.s, ctx.done, old(ctx.now), now, ctx.now,
                      500, Smooth(ctx, 500), 500, Smooth(ctx, 500));
          return;
        }
        e := ctx.Err();
      }
      err := e;
      ProgrammingShows(layout, j, old(pi.log), old(pi.s), pi.log, pi.s, p, rule);
      Excuses(layout, err, old(pi.s), pi.s, ctx.done, old(ctx.now), ctx.now, 500, Smooth(ctx, 500));
      if err == Nil {
        ProgrammedTarget(layout, j, pi.s.mem, Burned(pi.clearsOnly, old(pi.s.buf), sectorsData));
      }
    }

    /** One turn of the program loop: loads a page of data and programs it. */
    method ProgramTurn(ctx: Context, p: nat, idx: nat, data: seq<u8>, ghost log0: seq<Step>, ghost s0: State,
                       ghost rule: Rule, ghost j: Job) returns (page: nat, next: nat, err: DriverError)
      requires Valid() && !pi.s.work.Busy? && pi.s.mode == ReadStatus
      requires JobFits(layout, j) && j.begin <= p < j.end
      requires layout.PageStart(j.begin) + |data| == layout.PageStart(j.end)
      requires layout.PageStart(j.begin) + idx == layout.PageStart(p)
      requires layout.PageStart(j.end) <= |j.before| && |s0.buf| == layout.PageSize()
      requires j.target == Replace(j.before, layout.PageStart(j.begin), Burned(pi.clearsOnly, s0.buf, data))
      requires ProgrammedUpTo(layout, j, pi.s.mem, p)
      requires Programming(layout, j, log0, s0, pi.log, pi.s, p, rule) && MayLoad(rule, pi.s)
      modifies pi, ctx
      ensures Valid() && ctx.Later() && Silent(ctx)
      ensures pi.Counted(err)
      ensures page == p + 1 && next == idx + layout.PageSize()
      ensures layout.PageStart(j.begin) + next == layout.PageStart(page)
      ensures SafeRun(layout, j, log0, pi.log, pi.s, rule)
      ensures StartedPart(s0.started, pi.s.started, PageUnits(layout, j.begin, j.end))
      ensures err == Nil ==> Programming(layout, j, log0, s0, pi.log, pi.s, page, rule)
      ensures err == Nil ==> ProgrammedUpTo(layout, j, pi.s.mem, page)
      ensures err == Nil ==> !pi.s.work.Busy? && pi.s.mode == ReadStatus
      ensures Excused(layout, err, old(pi.s), pi.s, ctx.done, old(ctx.now), ctx.now, 500, Smooth(ctx, 500))
      ensures err == Nil ==> ctx.done == Nil
    {
      hide IsRun, And, Times, Pow2, RoundDown, Replace, ProgrammedUpTo, WellFormed, SafeRun, IsBlank, Loaded, Burned,
           StartedPart, Excused, LastFailed, Expired, PageUnit, PageUnits;
      IsValid();
      page := p + 1;
      assert idx + layout.PageSize() <= |data| && layout.PageStart(p) + layout.PageSize() == layout.PageStart(page) by {
        PageStartOrder(layout, p, j.end);
      }
      next := idx + layout.PageSize();
      assert Loaded(pi.clearsOnly, pi.s.buf, 0, data[idx..next]) == PageOf(layout, j.target, p) by {
        LoadedIsTarget(layout, j, pi.clearsOnly, s0.buf, data, p, idx, pi.s.buf);
      }
      SafeAtLast(layout, j, log0, pi.log, pi.s, rule);
      err := LoadAndProgram(ctx, p, data[idx..next], rule, j);
      SafeRunTrans(layout, j, log0, old(pi.log), old(pi.s), pi.log, pi.s, rule);
      assert && StartedPart(s0.started, pi.s.started, PageUnits(layout, j.begin, j.end))
             && (err == Nil ==> pi.s.started == s0.started + PageUnits(layout, j.begin, page)) by {
        PageStarted(layout, j.begin, p, j.end, s0.started, old(pi.s.started), pi.s.started);
      }
    }

    method LoadAndProgram(ctx: Context, p: nat, data: seq<u8>, ghost rule: Rule, ghost j: Job)
      returns (err: DriverError)
      requires Valid() && !pi.s.work.Busy? && pi.s.mode == ReadStatus
      requires JobFits(layout, j) && j.begin <= p < j.end && |data| == layout.PageSize() == |pi.s.buf|
      requires ProgrammedUpTo(layout, j, pi.s.mem, p)
      requires Loaded(pi.clearsOnly, pi.s.buf, 0, data) == PageOf(layout, j.target, p)
      requires MayLoad(rule, pi.s) && Safe(layout, j, pi.s)
      modifies pi, ctx
      ensures Valid() && ctx.Later() && Silent(ctx)
      ensures pi.Counted(err)
      ensures SafeRun(layout, j, old(pi.log), pi.log, pi.s, rule)
      ensures || pi.s.started == old(pi.s.started) + [PageUnit(layout, p)]
              || (err != Nil && pi.s.started == old(pi.s.started))
      ensures err == Nil ==> ProgrammedUpTo(layout, j, pi.s.mem, p + 1) && IsBlank(pi.s.buf)
      ensures err == Nil ==> !pi.s.work.Busy? && pi.s.mode == ReadStatus
      ensures Excused(layout, err, old(pi.s), pi.s, ctx.done, old(ctx.now), ctx.now, 500, Smooth(ctx, 500))
      ensures err == Nil ==> ctx.done == Nil
    {
      hide IsRun, And, Times, Pow2, RoundDown, ProgrammedUpTo, WellFormed, SafeRun, Safe, IsBlank, Loaded, MayLoad,
           Excused, LastFailed, Expired;
      err := LoadNext(p, data, rule, j);
      Excuses(layout, err, old(pi.s), pi.s, ctx.done, old(ctx.now), ctx.now, 500, Smooth(ctx, 500));
      if err != Nil {
        return;
      }
      ghost var log1, s1 := pi.log, pi.s;
      SafeAtLast(layout, j, old(pi.log), log1, s1, rule);
      err := ProgramNext(ctx, p, rule, j);
      ExcusedPart(layout, err, old(pi.s), s1, pi.s, ctx.done, old(ctx.now), old(ctx.now), ctx.now,
                  500, Smooth(ctx, 500), 500, Smooth(ctx, 500));
      SafeRunTrans(layout, j, old(pi.log), log1, s1, pi.log, pi.s, rule);
    }

    method LoadNext(p: nat, data: seq<u8>, ghost rule: Rule, ghost j: Job) returns (err: DriverError)
      requires Valid() && !pi.s.work.Busy? && pi.s.mode == ReadStatus
      requires JobFits(layout, j) && j.begin <= p < j.end
      requires ProgrammedUpTo(layout, j, pi.s.mem, p) && |data| == layout.PageSize()
      requires MayLoad(rule, pi.s) && Safe(layout, j, pi.s)
      modifies pi
      ensures Valid()
      ensures pi.Counted(err)
      ensures SafeRun(layout, j, old(pi.log), pi.log, pi.s, rule)
      ensures Loads(old(pi.s), pi.s)
      ensures err == Nil ==> pi.s.buf == Loaded(pi.clearsOnly, old(pi.s.buf), 0, data)
      ensures err == Nil || err == ErrIo || (err == ErrInvalidPageSize && !WholeWords(layout.PageSize()))
    {
      hide IsRun;
      assert Intact(layout, j, pi.s.mem) by {
        ProgrammedIntact(layout, j, pi.s.mem, p);
      }
      err := LoadBytePage(data);
      LoadingIsSafe(layout, j, old(pi.log), old(pi.s), pi.log, pi.s, LoadRule(old(pi.s)));
      Lenient(layout, j, old(pi.log), pi.log, pi.s, LoadRule(old(pi.s)), rule);
    }

    method ProgramNext(ctx: Context, p: nat, ghost rule: Rule, ghost j: Job) returns (err: DriverError)
      requires Valid() && !pi.s.work.Busy?
      requires JobFits(layout, j) && j.begin <= p < j.end
      requires ProgrammedUpTo(layout, j, pi.s.mem, p) && Safe(layout, j, pi.s)
      requires pi.s.buf == PageOf(layout, j.target, p)
      modifies pi, ctx
      ensures Valid() && ctx.Later() && Silent(ctx)
      ensures pi.Counted(err)
      ensures SafeRun(layout, j, old(pi.log), pi.log, pi.s, rule)
      ensures || pi.s.started == old(pi.s.started) + [PageUnit(layout, p)]
              || (err != Nil && pi.s.started == old(pi.s.started))
      ensures err == Nil ==> ProgrammedUpTo(layout, j, pi.s.mem, p + 1) && IsBlank(pi.s.buf)
      ensures err == Nil ==> !pi.s.work.Busy? && pi.s.mode == ReadStatus
      ensures Excused(layout, err, old(pi.s), pi.s, ctx.done, old(ctx.now), ctx.now, 500, Smooth(ctx, 500))
      ensures err == Nil ==> ctx.done == Nil
    {
      hide IsRun, And, Times, Pow2, RoundDown, ProgrammedUpTo, Replace, Programmed, UnitOfJob, Confined, SafeRun,
           Safe, Intact, Fenced, Excused, LastFailed, Expired, PageUnit;
      ghost var u, page := PageUnit(layout, p), pi.s.buf;
      NextPage(layout, j, pi.s.mem, p, page);
      err := ProgramPage(ctx, p);
      ConfinedStarts(layout, old(pi.log), old(pi.s), pi.log, pi.s, u, page, Strict);
      ConfinedIsSafe(layout, j, old(pi.log), old(pi.s), pi.log, pi.s, u, p, p + 1, page, Strict);
      Lenient(layout, j, old(pi.log), pi.log, pi.s, Strict, rule);
    }

    /** Reads size bytes from offset. Slicing an empty page buffer at a positive index panics. */
    method Read(ctx: Context, offset: int, size: int) returns (data: seq<u8>, err: Error)
      requires Valid()
      modifies pi, ctx
      ensures Valid() && ctx.Later() && Silent(ctx)
      ensures pi.Counted(err)
      ensures Quiet(layout, old(pi.log), old(pi.s), pi.log, pi.s)
      ensures layout.ValidateOffsetSize(offset, size) != Nil ==> err == ErrInvalidOffsetSize && pi.log == old(pi.log)
      // unless the bus fails, the slice panics exactly for size 0 inside a page
      ensures err == Panic ==> InsidePage(layout, offset, size)
      ensures InsidePage(layout, offset, size) ==> err == Panic || err == ErrIo
      ensures err == Nil ==> layout.ValidateOffsetSize(offset, size) == Nil && |data| == size
      ensures err == Nil && !old(pi.s.work.Busy?) ==> data == old(pi.s.mem)[offset..offset + size]
      ensures layout.ValidateOffsetSize(offset, size) == Nil ==> err == Panic || ReadExcused(layout, err, ctx.done)
      ensures layout.ValidateOffsetSize(offset, size) == Nil && size > 0 ==> Stops(ctx, err)
    {
      hide IsRun, And, Times, Pow2, PagesOf, Quiet, RoundDown, Layout.PageStart, BurstPlan, Issued, BurstsOf,
           InsidePage, Layout.ValidatePageRange, Layout.ConvertAddressRange, WellFormed, Quotient, Flash.Valid,
           Chip.Valid;
      data := [];
      IsValid();
      NothingQuiet(layout, pi.log, pi.s);
      InsidePageIs(layout, offset, size);
      var r := layout.ConvertAddressRange(offset, size);
      if r.Err? {
        return [], r.error;
      }
      var c := r.value;
      assert layout.ValidatePageRange(c.begin, c.end) == Nil && (size == 0 ==> c.begin == c.end)
             && (size > 0 ==> c.begin < c.end) by {
        WriteRanges(layout, offset, size);
      }
      ghost var mem := pi.s.mem;
      data, err := ReadPart(ctx, c, size);
      ReadSlice(layout, mem, offset, size);
    }

    /** Reads size bytes of the pages of a range, from its first byte on. */
    method ReadPart(ctx: Context, c: Range, size: nat) returns (data: seq<u8>, err: Error)
      requires Valid() && layout.ValidatePageRange(c.begin, c.end) == Nil
      modifies pi, ctx
      ensures Valid() && ctx.Later() && Silent(ctx)
      ensures pi.Counted(err)
      ensures Quiet(layout, old(pi.log), old(pi.s), pi.log, pi.s)
      ensures err == Panic ==> c.skip + size > layout.PageStart(c.end - c.begin)
      ensures c.begin == c.end && c.skip + size > 0 ==> err == Panic || err == ErrIo
      ensures err == Nil ==> c.skip + size <= layout.PageStart(c.end - c.begin) && |data| == size
      ensures err == Nil && !old(pi.s.work.Busy?) ==>
                var pages := PagesOf(layout, old(pi.s.mem), c.begin, c.end);
                c.skip + size <= |pages| && data == pages[c.skip..c.skip + size]
      ensures err == Panic || ReadExcused(layout, err, ctx.done)
      ensures c.begin < c.end && err != Panic ==> Stops(ctx, err)
    {
      hide IsRun, And, Times, Pow2, PagesOf, Quiet, RoundDown, Layout.PageStart, BurstPlan, Issued, BurstsOf,
           WellFormed, Layout.ValidatePageRange;
      data := [];
      assert c.begin == c.end ==> layout.PageStart(c.end - c.begin) == 0 by {
        NoPages(layout, pi.s.mem, c.begin);
      }
      var pages;
      pages, err := ReadPages(ctx, c.begin, c.end);
      if err != Nil {
        return;
      }
      if c.skip + size > pages.Length {
        return [], Panic;
      }
      data := pages[c.skip..c.skip + size];
    }

    /** The data to program: the sectors as they are with the new data spliced in, or the data itself when it
        is whole sectors. */
    method Prepare(ctx: Context, offset: int, data: seq<u8>, c: Range, b: Range)
      returns (sectorsData: seq<u8>, err: Error)
      requires Valid() && layout.ValidateOffsetSize(offset, |data|) == Nil
      requires layout.ConvertAddressRange(offset, |data|) == Ok(c)
      requires layout.PageRangeSectorBoundaries(c.begin, c.end) == Ok(b)
      modifies pi, ctx
      ensures Valid() && ctx.Later() && Silent(ctx)
      ensures pi.Counted(err)
      ensures Quiet(layout, old(pi.log), old(pi.s), pi.log, pi.s)
      ensures err == Panic ==> InsidePage(layout, offset, |data|)
      ensures InsidePage(layout, offset, |data|) ==> err == Panic || err == ErrIo
      ensures err == Nil ==> SectorsPrepared(layout, old(pi.s), offset, data, b, sectorsData)
      ensures err == Panic || ReadExcused(layout, err, ctx.done)
      ensures FillsWhole(layout, offset, |data|) ==> err == Nil && pi.log == old(pi.log) && pi.s == old(pi.s)
      ensures FillsWhole(layout, offset, |data|) || |data| == 0 ==> ctx.done == old(ctx.done)
      ensures !FillsWhole(layout, offset, |data|) && |data| > 0 ==> Stops(ctx, err)
    {
      hide IsRun, And, Times, Pow2, PagesOf, Replace, Quiet, RoundDown, InsidePage, SectorsPrepared, Layout.PageStart,
           ReadExcused, Layout.ConvertAddressRange, Layout.PageRangeSectorBoundaries, Layout.SectorBegin,
           Layout.SectorEnd;
      NothingQuiet(layout, pi.log, pi.s);
      InsidePageIs(layout, offset, |data|);
      assert b.begin <= b.end <= layout.TotalPages() && b.begin < layout.TotalPages()
             && (|data| == 0 ==> b.begin == b.end) && (|data| > 0 ==> b.begin < b.end) by {
        WriteRanges(layout, offset, |data|);
      }
      ghost var mem := old(pi.s.mem);
      var sectorSize := layout.SectorSize();
      if offset % sectorSize == 0 && |data| % sectorSize == 0 {
        assert SectorsPrepared(layout, pi.s, offset, data, b, data) && c.skip == 0 by {
          WholePrepares(layout, pi.s, offset, data, c, b);
        }
        ReadEnds(layout, Nil, ctx.done);
        return data, Nil;
      }
      sectorsData, err := ReadAndSplice(ctx, b, c.skip, data);
      if err == Nil {
        SplicePrepares(layout, old(pi.s), offset, data, c, b, sectorsData);
      } else if err == Panic {
        assert |data| == 0 by {
          SectorData(layout, mem, offset, |data|);
        }
      }
    }

    /** Reads the sectors and copies the data into them. */
    method ReadAndSplice(ctx: Context, b: Range, skip: nat, data: seq<u8>) returns (sectorsData: seq<u8>, err: Error)
      requires Valid() && b.begin <= b.end <= layout.TotalPages() && b.begin < layout.TotalPages()
      modifies pi, ctx
      ensures Valid() && ctx.Later() && Silent(ctx)
      ensures pi.Counted(err)
      ensures Quiet(layout, old(pi.log), old(pi.s), pi.log, pi.s)
      ensures err == Panic ==> skip + |data| > layout.PageStart(b.end - b.begin)
      ensures b.begin == b.end && skip + |data| > 0 ==> err == Panic || err == ErrIo
      ensures err == Nil ==> skip + |data| <= layout.PageStart(b.end - b.begin) == |sectorsData|
      ensures err == Nil && !old(pi.s.work.Busy?) ==>
                && |PagesOf(layout, old(pi.s.mem), b.begin, b.end)| == |sectorsData|
                && sectorsData == Replace(PagesOf(layout, old(pi.s.mem), b.begin, b.end), skip, data)
      ensures err == Panic || ReadExcused(layout, err, ctx.done)
      ensures b.begin < b.end && err != Panic ==> Stops(ctx, err)
      ensures b.begin == b.end ==> ctx.done == old(ctx.done)
    {
      hide IsRun, Replace, Quiet, PagesOf, Times, Pow2, RoundDown, And, BurstPlan, Issued, BurstsOf, Layout.PageStart,
           WellFormed;
      sectorsData := [];
      assert b.begin == b.end ==> layout.PageStart(b.end - b.begin) == 0 by {
        NoPages(layout, pi.s.mem, b.begin);
      }
      var buffer;
      buffer, err := ReadPages(ctx, b.begin, b.end);
      if err != Nil {
        return;
      }
      if skip + |data| > buffer.Length {
        return [], Panic;
      }
      ghost var pages := buffer[..];
      Copy(buffer, skip, data);
      sectorsData := buffer[..];
      assert sectorsData == Replace(pages, skip, data);
    }

    /** copy(buffer[at:at+len(data)], data) */
    static method Copy(buffer: array<u8>, at: nat, data: seq<u8>)
      requires at + |data| <= buffer.Length
      modifies buffer
      ensures buffer[..] == Replace(old(buffer[..]), at, data)
    {
      for i := 0 to |data|
        invariant forall k :: 0 <= k < buffer.Length ==>
          buffer[k] == if at <= k < at + i then data[k - at] else old(buffer[k])
      {
        buffer[at + i] := data[i];
      }
    }

    /** Makes sure that the chip accepts erase and program commands. */
    method CheckReady() returns (err: DriverError)
      requires Valid()
      modifies pi
      ensures Valid()
      ensures pi.Counted(err)
      ensures Quiet(layout, old(pi.log), old(pi.s), pi.log, pi.s)
      ensures err == Nil ==> !pi.s.work.Busy? && pi.s.mode == ReadStatus
      ensures err == Nil || err == ErrIo || (err.ErrNotReady? && old(pi.s.work.Busy?) && pi.s.work.Busy?)
      ensures err.ErrNotReady? ==> err.status == pi.s.status
    {
      hide IsRun;
      err := ClearStatus();
      if err != Nil {
        return;
      }
      ghost var log1, s1 := pi.log, pi.s;
      var status;
      status, err := Status();
      QuietTrans(layout, old(pi.log), old(pi.s), log1, s1, pi.log, pi.s);
      if err == Nil && And(status, STATUS_WSM_READY) != STATUS_WSM_READY {
        err := ErrNotReady(status);
      }
    }

    /** The first half of a write: prepares the data, and makes sure that the chip is ready. */
    method PrepareAndCheck(ctx: Context, offset: int, data: seq<u8>, c: Range, b: Range)
      returns (sectorsData: seq<u8>, err: Error)
      requires Valid() && layout.ValidateOffsetSize(offset, |data|) == Nil
      requires layout.ConvertAddressRange(offset, |data|) == Ok(c)
      requires layout.PageRangeSectorBoundaries(c.begin, c.end) == Ok(b)
      modifies pi, ctx
      ensures Valid() && ctx.Later() && Silent(ctx)
      ensures pi.Counted(err)
      ensures Quiet(layout, old(pi.log), old(pi.s), pi.log, pi.s)
      ensures err == Panic ==> InsidePage(layout, offset, |data|)
      ensures InsidePage(layout, offset, |data|) ==> err == Panic || err == ErrIo
      ensures err == Nil ==> SectorsPrepared(layout, old(pi.s), offset, data, b, sectorsData)
      ensures err == Nil ==> !pi.s.work.Busy? && pi.s.mode == ReadStatus
      ensures err == Panic || Excused(layout, err, old(pi.s), pi.s, ctx.done, old(ctx.now), ctx.now, 500,
                                      Smooth(ctx, 200))
      ensures FillsWhole(layout, offset, |data|) ==> err == Nil || err == ErrIo || old(pi.s.work.Busy?)
      ensures FillsWhole(layout, offset, |data|) || |data| == 0 ==> ctx.done == old(ctx.done)
      ensures !FillsWhole(layout, offset, |data|) && |data| > 0 ==> Stops(ctx, err)
    {
      hide IsRun, And, Times, Pow2, Quiet, RoundDown, InsidePage, SectorsPrepared, FillsWhole, BurstsOf, WellFormed,
           Layout.ConvertAddressRange, Layout.PageRangeSectorBoundaries, Layout.ValidateOffsetSize, LastFailed;
      sectorsData, err := Prepare(ctx, offset, data, c, b);
      ghost var log1, s1 := pi.log, pi.s;
      if err == Nil {
        err := CheckReady();
        QuietTrans(layout, old(pi.log), old(pi.s), log1, s1, pi.log, pi.s);
        if err.ErrNotReady? && !old(pi.s.work.Busy?) {
          QuietIdle(layout, old(pi.log), old(pi.s), log1, s1);
        }
      }
      if err != Panic && !err.ErrNotReady? {
        ReadExcuses(layout, err, old(pi.s), pi.s, ctx.done, old(ctx.now), ctx.now, 500, Smooth(ctx, 200));
      }
    }

    /** Writes data at offset. */
    method Write(ctx: Context, offset: int, data: seq<u8>) returns (err: Error)
      requires Valid()
      modifies pi, ctx
      ensures Valid() && ctx.Later() && Silent(ctx)
      ensures pi.Counted(err)
      // arguments out of range: nothing happens
      ensures layout.ValidateOffsetSize(offset, |data|) != Nil ==>
                err == ErrInvalidOffsetSize && pi.log == old(pi.log) && pi.s == old(pi.s)
      // unless the bus fails, the splice panics exactly for no data at an offset inside a page
      ensures err == Panic ==> InsidePage(layout, offset, |data|)
      ensures InsidePage(layout, offset, |data|) ==> err == Panic || err == ErrIo
      // every step, and what success means
      ensures layout.ValidateOffsetSize(offset, |data|) == Nil ==>
                Written(layout, pi.clearsOnly, old(pi.s), old(pi.log), pi.s, pi.log, offset, data, err == Nil)
      ensures err == Nil ==> ctx.done == Nil
      // any other error has its cause
      ensures layout.ValidateOffsetSize(offset, |data|) == Nil ==>
                err == Panic || Excused(layout, err, old(pi.s), pi.s, ctx.done, old(ctx.now), ctx.now, 500,
                                        Smooth(ctx, 200))
      // a write cancelled before the call fails; it starts nothing, unless it erases the whole chip, which is not read
      ensures layout.ValidateOffsetSize(offset, |data|) == Nil && old(ctx.done) != Nil ==>
                && err != Nil
                && (!WholeChip(layout, offset, |data|) ==> pi.s.started == old(pi.s.started))
                && (WholeChip(layout, offset, |data|) && !old(pi.s.work.Busy?) && err != ErrIo ==>
                      pi.s.started == old(pi.s.started) + [Unit(EraseOp, 0, layout.ChipSize())])
      ensures layout.ValidateOffsetSize(offset, |data|) == Nil && old(ctx.done) != Nil
                && !FillsWhole(layout, offset, |data|) && |data| > 0 ==>
                Stops(ctx, err)
      // a write that nothing stands in the way of succeeds
      ensures layout.ValidateOffsetSize(offset, |data|) == Nil && !InsidePage(layout, offset, |data|)
                && WholeWords(layout.PageSize()) && !old(pi.s.work.Busy?)
                && old(ctx.done) == Nil && Smooth(ctx, 200) ==>
                err == Nil || err == ErrIo
    {
      hide IsRun, And, Pow2, Times, Written, Committed, SectorsPrepared, Aligned, Layout.SectorBegin,
           Layout.SectorEnd;
      var r := layout.ConvertAddressRange(offset, |data|);
      if r.Err? {
        return r.error;
      }
      var c := r.value;
      assert layout.PageRangeSectorBoundaries(c.begin, c.end).Ok? by {
        WriteRanges(layout, offset, |data|);
      }
      var b := layout.PageRangeSectorBoundaries(c.begin, c.end).value;
      WholeChipExactly(layout, offset, |data|);
      var sectorsData;
      sectorsData, err := PrepareAndCheck(ctx, offset, data, c, b);
      if err != Nil {
        QuietStarts(layout, old(pi.log), old(pi.s), pi.log, pi.s);
        WriteRefused(layout, pi.clearsOnly, old(pi.s), old(pi.log), pi.s, pi.log, offset, data);
        return;
      }
      ghost var log2, s2, now := pi.log, pi.s, ctx.now;
      assert Aligned(layout, b.begin) && Aligned(layout, b.end) && b.begin <= b.end <= layout.TotalPages()
             && layout.PageStart(b.begin) + |sectorsData| == layout.PageStart(b.end) <= |pi.s.mem| by {
        PreparedFits(layout, old(pi.s), offset, data, b, sectorsData);
      }
      err := Commit(ctx, b.begin, b.end, sectorsData);
      ExcusedPart(layout, err, old(pi.s), s2, pi.s, ctx.done, old(ctx.now), now, ctx.now,
                  500, Smooth(ctx, 200), 500, Smooth(ctx, 200));
      WriteCarriedOut(layout, pi.clearsOnly, old(pi.s), old(pi.log), s2, log2, pi.s, pi.log,
                      offset, data, b, sectorsData, err == Nil);
    }

    /** Writes data at offset and reads it back. On an idle chip what comes back is what was written, whenever the
        first page starts a sector and no bit can be lost in the page buffer. */
    method WriteAndRead(ctx: Context, offset: int, data: seq<u8>) returns (back: seq<u8>, err: Error)
      requires Valid()
      modifies pi, ctx
      ensures Valid() && ctx.Later()
      ensures pi.Counted(err)
      ensures err == Nil ==> layout.ValidateOffsetSize(offset, |data|) == Nil && |back| == |data|
      ensures err == Nil && !old(pi.s.work.Busy?)
                && Aligned(layout, Quotient(offset, layout.PageSize()))
                && (!pi.clearsOnly || IsBlank(old(pi.s.buf))) ==>
                back == data
      ensures layout.ValidateOffsetSize(offset, |data|) == Nil && !InsidePage(layout, offset, |data|)
                && WholeWords(layout.PageSize()) && !old(pi.s.work.Busy?)
                && old(ctx.done) == Nil && Smooth(ctx, 200) ==>
                err == Nil || err == ErrIo
    {
      hide IsRun, WellFormed, Written, Aligned, Quiet, Excused, LastFailed, Expired, InsidePage, Pow2, Times,
           RoundDown, And;
      IsValid();
      back := [];
      err := Write(ctx, offset, data);
      if err != Nil {
        return;
      }
      ghost var s1 := pi.s;
      assert s1.mode == ReadStatus && !s1.work.Busy? by {
        WrittenIdle(layout, pi.clearsOnly, old(pi.s), old(pi.log), s1, pi.log, offset, data);
      }
      if !old(pi.s.work.Busy?)
          && Aligned(layout, Quotient(offset, layout.PageSize())) && (!pi.clearsOnly || IsBlank(old(pi.s.buf))) {
        LinearWrite(layout, pi.clearsOnly, old(pi.s), old(pi.log), s1, pi.log, offset, data);
      }
      back, err := Read(ctx, offset, |data|);
    }

    /** Erases and programs the sectors of pages [sbegin, send). */
    method Commit(ctx: Context, sbegin: nat, send: nat, sectorsData: seq<u8>) returns (err: DriverError)
      requires Valid() && !pi.s.work.Busy? && pi.s.mode == ReadStatus
      requires Aligned(layout, sbegin) && Aligned(layout, send) && sbegin <= send <= layout.TotalPages()
      requires layout.PageStart(sbegin) + |sectorsData| == layout.PageStart(send) <= |pi.s.mem|
      modifies pi, ctx
      ensures Valid() && ctx.Later() && Silent(ctx)
      ensures pi.Counted(err)
      ensures Committed(layout, pi.clearsOnly, old(pi.s), old(pi.log), pi.s, pi.log,
                        sbegin, send, sectorsData, err == Nil)
      ensures err == Nil ==> ctx.done == Nil
      ensures Excused(layout, err, old(pi.s), pi.s, ctx.done, old(ctx.now), ctx.now, 500, Smooth(ctx, 200))
      // a cancelled call starts nothing, unless the sectors are the whole chip
      ensures old(ctx.done) != Nil && !(sbegin == 0 && send == layout.TotalPages()) ==>
                err == old(ctx.done) && pi.s == old(pi.s) && pi.log == old(pi.log)
      ensures old(ctx.done) != Nil && sbegin == 0 && send == layout.TotalPages() && err != ErrIo ==>
                pi.s.started == old(pi.s.started) + [Unit(EraseOp, 0, layout.ChipSize())]
    {
      hide IsRun, Excused, LastFailed, Expired;
      ghost var j := SectorJob(layout, pi.clearsOnly, old(pi.s), sbegin, send, sectorsData);
      ghost var rule := CommitRule(layout, old(pi.s), sbegin, send);
      err := EraseSectors(ctx, sbegin, send, j);
      Lenient(layout, j, old(pi.log), pi.log, pi.s, Strict, rule);
      ghost var log1, s1, now := pi.log, pi.s, ctx.now;
      ExcusedPart(layout, err, old(pi.s), old(pi.s), pi.s, ctx.done, old(ctx.now), old(ctx.now), ctx.now,
                  2000, Smooth(ctx, 200), 500, Smooth(ctx, 200));
      if err == Nil {
        err := ProgramSectors(ctx, sbegin, send, sectorsData, rule, j);
        ExcusedPart(layout, err, old(pi.s), s1, pi.s, ctx.done, old(ctx.now), now, ctx.now,
                    500, Smooth(ctx, 500), 500, Smooth(ctx, 200));
        SafeRunTrans(layout, j, old(pi.log), log1, s1, pi.log, pi.s, rule);
      }
      PlanParts(old(pi.s.started), s1.started, pi.s.started,
                ErasePlan(layout, sbegin, send), PageUnits(layout, sbegin, send));
    }

    // -------------------------------------------------------------- identification

    /** Reads the silicon ID. With a base address that is not the chip's, anything may be read. */
    method SiliconID() returns (id: SiliconID, err: DriverError)
      requires pi.Valid()
      modifies pi
      ensures pi.Valid()
      ensures pi.Counted(err)
      ensures err == Nil || err == ErrIo
      ensures Drifts(old(pi.log), old(pi.s), pi.log, pi.s)
      ensures baseAddress == pi.base ==>
                && Quiet(pi.layout, old(pi.log), old(pi.s), pi.log, pi.s)
                && (err == Nil ==> pi.s.mode == ReadSilicon && id == NewSiliconID(pi.id))
    {
      hide IsRun, Drifts, Times, Pow2, BurstShows, InOneWindow, BurstsOf, BigEndian32, BigEndian16, Quiet, WellFormed,
           And, RoundDown, NewSiliconID;
      id := NO_SILICON_ID;
      err := WriteMode(CMD_SILICON_ID, ReadSilicon);
      if err != Nil {
        return;
      }
      ghost var log1, s1 := pi.log, pi.s;
      err := WriteMode(CMD_SILICON_ID, ReadSilicon);
      DriftsTrans(old(pi.log), old(pi.s), log1, s1, pi.log, pi.s);
      if baseAddress == pi.base {
        QuietTrans(pi.layout, old(pi.log), old(pi.s), log1, s1, pi.log, pi.s);
      }
      if err != Nil {
        return;
      }
      ghost var log2, s2 := pi.log, pi.s;
      var data := new u8[8];
      err := BurstID(data);
      DriftsTrans(old(pi.log), old(pi.s), log2, s2, pi.log, pi.s);
      if baseAddress == pi.base {
        QuietTrans(pi.layout, old(pi.log), old(pi.s), log2, s2, pi.log, pi.s);
      }
      if err == Nil {
        id := NewSiliconID(data[..]);
      }
    }

    /** The burst of SiliconID. */
    method BurstID(data: array<u8>) returns (err: DriverError)
      requires pi.Valid() && data.Length == 8
      modifies pi, data
      ensures pi.Valid()
      ensures pi.Counted(err)
      ensures err == Nil || err == ErrIo
      ensures Drifts(old(pi.log), old(pi.s), pi.log, pi.s) && pi.s.mode == old(pi.s.mode)
      ensures baseAddress == pi.base && old(pi.s.mode) == ReadSilicon ==>
                && Quiet(pi.layout, old(pi.log), old(pi.s), pi.log, pi.s)
                && (err == Nil ==> data[..] == pi.id)
    {
      hide IsRun, Drifts, Transaction, Times, Pow2, BurstShows, InOneWindow, BurstsOf, Quiet, WellFormed, And,
           RoundDown;
      err := pi.ReadBurst(baseAddress, data, 0, 8);
      ghost var act := if err == Nil then ReadRun(pi.Offset(baseAddress), 8) else Tick;
      DriftStep(pi.layout, pi.clearsOnly, old(pi.log), old(pi.s), act, pi.log, pi.s);
      if old(pi.s.mode) == ReadSilicon {
        BurstDone(pi.layout, pi.clearsOnly, old(pi.log), old(pi.s), act, pi.log, pi.s);
        if err == Nil {
          assert data[..] == data[0..8];
          IdShown(pi.layout, pi.id, pi.s, pi.StartByte(baseAddress), data[0..8]);
        }
      }
    }

    /** A driver for a chip, with the layout deduced from the silicon ID unless one is given. */
    static method New(pi: Chip, opts: seq<FlashOption>) returns (f: Flash, err: DriverError)
      requires pi.Valid()
      modifies pi
      ensures pi.Valid() && fresh(f) && f.pi == pi && f.baseAddress == BaseOf(opts)
      ensures pi.Counted(err)
      ensures Drifts(old(pi.log), old(pi.s), pi.log, pi.s)
      ensures BaseOf(opts) == pi.base ==> Quiet(pi.layout, old(pi.log), old(pi.s), pi.log, pi.s)
      ensures LayoutOf(opts) != NO_LAYOUT ==>
                err == Nil && f.layout == LayoutOf(opts) && pi.s == old(pi.s) && pi.log == old(pi.log)
      ensures LayoutOf(opts) == NO_LAYOUT && err == Nil ==> f.layout in {LAYOUT_64W_128_8, LAYOUT_128B_128_8}
      ensures LayoutOf(opts) == NO_LAYOUT && BaseOf(opts) == pi.base && err == Nil ==>
                f.layout == LayoutFromSiliconID(NewSiliconID(pi.id)) && pi.s.mode == ReadArray
      ensures err == Nil && f.layout == pi.layout && BaseOf(opts) == pi.base ==> f.Valid()
      ensures err == Nil || err == ErrIo
    {
      hide IsRun, Drifts, Quiet, WellFormed, Times, Pow2, And, RoundDown;
      f := new Flash(pi);
      for i := 0 to |opts|
        modifies f
        invariant fresh(f) && f.pi == pi && pi.Valid() && pi.s == old(pi.s) && pi.log == old(pi.log)
        invariant pi.faults == old(pi.faults)
        invariant f.baseAddress == BaseOf(opts[..i]) && f.layout == LayoutOf(opts[..i])
      {
        assert opts[..i + 1][..i] == opts[..i];
        match opts[i]
        case WithBaseAddress(address) => f.baseAddress := address;
        case WithLayout(l) => f.layout := l;
      }
      assert opts[..|opts|] == opts;
      err := Nil;
      NoDrift(pi.log, pi.s);
      NothingQuiet(pi.layout, pi.log, pi.s);
      if f.layout == NO_LAYOUT {
        var id;
        id, err := f.SiliconID();
        if err != Nil {
          return;
        }
        f.layout := LayoutFromSiliconID(id);
        ghost var log1, s1 := pi.log, pi.s;
        err := f.WriteMode(CMD_READ_ARRAY, ReadArray);
        DriftsTrans(old(pi.log), old(pi.s), log1, s1, pi.log, pi.s);
        if f.baseAddress == pi.base {
          QuietTrans(pi.layout, old(pi.log), old(pi.s), log1, s1, pi.log, pi.s);
        }
      }
    }
  }
}
