/** The flash chip as the driver's environment: a state machine whose steps are the passing of time and the
    bus transactions, and a class that runs it behind the parallel interface.

    A cell can be cleared by programming and set only by erasing. Erase and program operations take
    time, may fail, and leave their unit undefined until they succeed. Switching modes may need two writes
    of the command register. Every bus transaction may fail, with or without having taken effect. */
module FlashChip {
  import opened Bits
  import opened Endian
  import opened Errors
  import opened Layout
  import opened Wrappers

  const STATUS_PROGRAM_BUSY: u8 := 0x01
  const STATUS_ERASE_BUSY: u8 := 0x02
  const STATUS_PROGRAM_OK: u8 := 0x04
  const STATUS_ERASE_OK: u8 := 0x08
  const STATUS_WSM_READY: u8 := 0x80

  const CMD_CHIP_ERASE: u32 := 0x3c000000
  const CMD_SECTOR_ERASE: u32 := 0x4b000000
  const CMD_ERASE: u32 := 0x78000000
  const CMD_PROGRAM_PAGE: u32 := 0xa5000000
  const CMD_LOAD_BYTE_PAGE: u32 := 0xb4000000
  const CMD_STATUS: u32 := 0xd2000000
  const CMD_SILICON_ID: u32 := 0xe1000000
  const CMD_READ_ARRAY: u32 := 0xf0000000

  const CIR_OFFSET: u32 := 0x00010000

  // ---------------------------------------------------------------- bytes and words

  /** n erased bytes. */
  function Blank(n: nat): (r: seq<u8>)
    ensures |r| == n
  {
    seq(n, _ => 0xff)
  }

  /** m with d written at position at. */
  function Replace(m: seq<u8>, at: nat, d: seq<u8>): (r: seq<u8>)
    requires at + |d| <= |m|
    ensures |r| == |m|
  {
    m[..at] + d + m[at + |d|..]
  }

  /** Equal outside [lo, hi). */
  ghost predicate SameOutside(a: seq<u8>, b: seq<u8>, lo: nat, hi: nat) {
    |a| == |b| && forall i :: 0 <= i < |a| && !(lo <= i < hi) ==> a[i] == b[i]
  }

  lemma ReplaceOnly(m: seq<u8>, at: nat, d: seq<u8>)
    requires at + |d| <= |m|
    ensures SameOutside(m, Replace(m, at, d), at, at + |d|)
    ensures Replace(m, at, d)[at..at + |d|] == d
  {
  }

  /** The cells after programming `load` over `cells`: bits can only be cleared. */
  function Programmed(cells: seq<u8>, load: seq<u8>): (r: seq<u8>)
    requires |cells| == |load|
    ensures |r| == |cells|
  {
    seq(|cells|, i requires 0 <= i < |cells| => And(cells[i], load[i]))
  }

  /** The page buffer after data was written at `at`. On some chips such writes only clear bits. */
  function Loaded(clearsOnly: bool, buf: seq<u8>, at: nat, data: seq<u8>): (r: seq<u8>)
    requires at + |data| <= |buf|
    ensures |r| == |buf|
  {
    seq(|buf|, i requires 0 <= i < |buf| =>
      if at <= i < at + |data| then
        if clearsOnly then And(buf[i], data[i - at]) else data[i - at]
      else buf[i])
  }

  // ---------------------------------------------------------------- state

  datatype Mode = ReadArray | ReadStatus | ReadSilicon | LoadPage

  datatype Setup = NoSetup | ChipSetup | SectorSetup(page: nat)

  datatype Kind = EraseOp | ProgramOp

  /** What the write state machine is doing. A busy or failed operation leaves bytes [lo, hi) undefined. */
  datatype Work =
    | Idle
    | Busy(kind: Kind, lo: nat, hi: nat, result: seq<u8>)
    | Failed(lo: nat, hi: nat)

  /** An accepted operation on bytes [lo, hi). */
  datatype Unit = Unit(kind: Kind, lo: nat, hi: nat)

  datatype State = State(
    mem: seq<u8>,          // the cells
    buf: seq<u8>,          // the page buffer
    mode: Mode,            // what reads return
    asked: Mode,           // the mode last written to the command register
    setup: Setup,          // erase set-up awaiting its confirmation
    work: Work,
    status: u8,
    started: seq<Unit>)    // all operations accepted so far

  /** Operations as the status register shows them. */
  predicate StatusShows(status: u8, work: Work) {
    match work
    case Busy(EraseOp, _, _, _) => And(status, STATUS_WSM_READY) == 0 && And(status, STATUS_ERASE_BUSY) != 0
    case Busy(ProgramOp, _, _, _) => And(status, STATUS_WSM_READY) == 0 && And(status, STATUS_PROGRAM_BUSY) != 0
    case _ => And(status, STATUS_WSM_READY) == STATUS_WSM_READY
              && And(status, STATUS_ERASE_BUSY) == 0 && And(status, STATUS_PROGRAM_BUSY) == 0
  }

  predicate Succeeded(status: u8, kind: Kind) {
    And(status, if kind == EraseOp then STATUS_ERASE_OK else STATUS_PROGRAM_OK) != 0
  }

  /** The status after clearing: the OK bits of one kind of chip rest cleared, those of the other set. */
  function ClearedStatus(clearsOnly: bool): u8 {
    if clearsOnly then 0x80 else 0x8c
  }

  lemma StatusValues()
    ensures StatusShows(0x80, Idle) && StatusShows(0x84, Idle) && StatusShows(0x88, Idle) && StatusShows(0x8c, Idle)
    ensures forall k :: !Succeeded(0x80, k)
    ensures Succeeded(0x84, ProgramOp) && Succeeded(0x88, EraseOp) && forall k :: Succeeded(0x8c, k)
  {
    hide And;
    StatusBits();
  }

  lemma StatusBits()
    ensures And(0x80, 0x80) == 0x80 && And(0x80, 0x01) == And(0x80, 0x02) == And(0x80, 0x04) == And(0x80, 0x08) == 0
    ensures And(0x84, 0x80) == 0x80 && And(0x84, 0x01) == And(0x84, 0x02) == 0 && And(0x84, 0x04) == 0x04
    ensures And(0x88, 0x80) == 0x80 && And(0x88, 0x01) == And(0x88, 0x02) == 0 && And(0x88, 0x08) == 0x08
    ensures And(0x8c, 0x80) == 0x80 && And(0x8c, 0x01) == And(0x8c, 0x02) == 0
    ensures And(0x8c, 0x04) == 0x04 && And(0x8c, 0x08) == 0x08
  {
    hide And;
    HighBit(0x80);
    HighBit(0x84);
    HighBit(0x88);
    HighBit(0x8c);
    LowBits(0x80, 0x00);
    LowBits(0x84, 0x04);
    LowBits(0x88, 0x08);
    LowBits(0x8c, 0x0c);
  }

  lemma HighBit(x: u8)
    requires x >= 0x80
    ensures And(x, 0x80) == 0x80
  {
    hide And;
    assert 1 <= x / 2 / 2 / 2 / 2 / 2 / 2 / 2 < 2;
    AndHalf(x, 0x80);
    AndHalf(x / 2, 0x40);
    AndHalf(x / 2 / 2, 0x20);
    AndHalf(x / 2 / 2 / 2, 0x10);
    AndLow(x / 2 / 2 / 2 / 2, 0x08);
  }

  /** A status and its four low bits. */
  lemma LowBits(status: u8, low: u8)
    requires (status == 0x80 || status == 0x84 || status == 0x88 || status == 0x8c) && low == status - 0x80
    ensures And(status, 0x01) == And(status, 0x02) == 0
    ensures And(status, 0x04) == (if low >= 0x0c || low == 0x04 then 0x04 else 0)
    ensures And(status, 0x08) == if low >= 0x08 then 0x08 else 0
  {
    hide And;
    AndLow(status, 0x01);
    AndLow(status, 0x02);
    AndLow(status, 0x04);
    AndLow(status, 0x08);
  }

  lemma AndLow(status: u8, mask: u8)
    requires mask == 0x01 || mask == 0x02 || mask == 0x04 || mask == 0x08
    ensures And(status, mask) == if status / mask % 2 == 1 then mask else 0
  {
  }

  predicate WellFormed(l: Layout, s: State) {
    && |s.mem| == l.ChipSize()
    && |s.buf| == l.PageSize()
    && StatusShows(s.status, s.work)
    && (s.work.Busy? ==> s.work.lo + |s.work.result| == s.work.hi <= |s.mem|)
    && (s.setup.SectorSetup? ==> s.setup.page < l.TotalPages())
  }

  /** The state after power-up: array mode, nothing running, a blank page buffer. */
  function Reset(l: Layout, clearsOnly: bool, mem: seq<u8>): (s: State)
    requires |mem| == l.ChipSize()
    ensures WellFormed(l, s)
  {
    StatusValues();
    State(mem, Blank(l.PageSize()), ReadArray, ReadArray, NoSetup, Idle, ClearedStatus(clearsOnly), [])
  }

  lemma FormShows(l: Layout, s: State)
    requires WellFormed(l, s)
    ensures StatusShows(s.status, s.work) && |s.mem| == l.ChipSize() && |s.buf| == l.PageSize()
  {
  }

  // ---------------------------------------------------------------- steps

  /** A mode command certainly switches from one mode to another with a single write. */
  predicate SwitchesAtOnce(from: Mode, to: Mode) {
    || from == to
    || to == ReadArray
    || from == ReadStatus
    || (from == ReadSilicon && to == LoadPage)
  }

  datatype Act =
    | Tick                                // time passes; also a transaction that failed without effect
    | Cir(word: u32)                      // 32-bit write of the command register
    | Peek                                // 32-bit read
    | Poke(at: nat, word: u32)            // 32-bit write elsewhere
    | ReadRun(at: nat, len: nat)          // read burst
    | WriteRun(at: nat, data: seq<u8>)    // write burst
    | Torn                                // a failed write burst

  datatype Step = Step(pre: State, act: Act, post: State)

  /** Time passes: a running operation may complete, well or badly. */
  ghost predicate Elapses(a: State, b: State) {
    || b == a
    || (&& a.work.Busy?
        && b == a.(mem := b.mem, buf := b.buf, work := b.work, status := b.status)
        && a.work.lo <= a.work.hi <= |a.mem|
        && SameOutside(a.mem, b.mem, a.work.lo, a.work.hi)
        && |b.buf| == |a.buf|
        && StatusShows(b.status, b.work)
        && (Succeeded(b.status, a.work.kind) <==> b.work.Idle?)
        && (if b.work.Idle? then
              && b.mem[a.work.lo..a.work.hi] == a.work.result
              && b.buf == (if a.work.kind == ProgramOp then Blank(|a.buf|) else a.buf)
            else b.work == Failed(a.work.lo, a.work.hi)))
  }

  /** Operation field and page field of a command word; only the low ten page bits are decoded. */
  function Opcode(w: u32): u32 { w / 0x1000000 * 0x1000000 }

  function PageField(w: u32): nat { w % 0x400 }

  ghost predicate ModeChanges(a: State, to: Mode, b: State) {
    && b == a.(mode := b.mode, asked := to, setup := b.setup)
    && (b.setup == a.setup || b.setup == NoSetup)
    && (b.mode == to || (b.mode == a.mode && !SwitchesAtOnce(a.mode, to) && a.asked != to))
  }

  /** An operation on [lo, hi) starts: its unit is undefined from now on, and reads return the status. */
  ghost predicate Starts(a: State, kind: Kind, lo: nat, hi: nat, result: seq<u8>, b: State) {
    && b == a.(mem := b.mem, mode := ReadStatus, asked := ReadStatus, setup := NoSetup,
               work := Busy(kind, lo, hi, result), status := b.status,
               started := a.started + [Unit(kind, lo, hi)])
    && SameOutside(a.mem, b.mem, lo, hi)
    && StatusShows(b.status, b.work)
  }

  /** First page of the sector of a page. */
  function SectorFirst(l: Layout, page: nat): nat {
    RoundDown(page, l.PagesPerSector())
  }

  /** Effect of a command word. */
  ghost predicate Commands(l: Layout, a: State, w: u32, b: State) {
    var op, page := Opcode(w), PageField(w);
    if op == CMD_READ_ARRAY then ModeChanges(a, ReadArray, b)
    else if op == CMD_STATUS then ModeChanges(a, ReadStatus, b)
    else if op == CMD_SILICON_ID then ModeChanges(a, ReadSilicon, b)
    else if op == CMD_LOAD_BYTE_PAGE then ModeChanges(a, LoadPage, b)
    else if op == CMD_CHIP_ERASE then b == a.(setup := ChipSetup, asked := a.mode)
    else if op == CMD_SECTOR_ERASE && page < l.TotalPages() then b == a.(setup := SectorSetup(page), asked := a.mode)
    else if op == CMD_ERASE && !a.work.Busy? && a.setup != NoSetup then
      var lo := if a.setup == ChipSetup then 0 else l.PageStart(SectorFirst(l, a.setup.page));
      var hi := if a.setup == ChipSetup then |a.mem|
                else l.PageStart(SectorFirst(l, a.setup.page) + l.PagesPerSector());
      lo <= hi <= |a.mem| && Starts(a, EraseOp, lo, hi, Blank(hi - lo), b)
    else if op == CMD_PROGRAM_PAGE && !a.work.Busy? && page < l.TotalPages() then
      var lo := l.PageStart(page);
      lo + |a.buf| <= |a.mem|
      && Starts(a, ProgramOp, lo, lo + |a.buf|, Programmed(a.mem[lo..lo + |a.buf|], a.buf), b)
    else b == a  // a confirmation without set-up, and operations while busy, are ignored
  }

  /** The write of zeros at the base address that clears the status on every chip. */
  predicate ClearsPlainly(at: nat, data: seq<u8>) {
    at == 0 && data == PutBigEndian32(0)
  }

  /** Effect of writing data outside the command register: in LoadPage mode it goes to the page buffer, in
      ReadStatus mode it clears the status; elsewhere it is undefined for the page buffer. So it is in ReadStatus
      mode, on some chips, for other data than zeros or at another address. */
  ghost predicate Accepts(clearsOnly: bool, a: State, at: nat, data: seq<u8>, b: State) {
    if a.mode == LoadPage && at + |data| <= |a.buf| then
      b == a.(buf := Loaded(clearsOnly, a.buf, at, data))
    else if a.mode == ReadStatus then
      && b == a.(buf := b.buf, status := if a.work.Busy? then a.status else ClearedStatus(clearsOnly))
      && |b.buf| == |a.buf|
      && (clearsOnly || ClearsPlainly(at, data) ==> b.buf == a.buf)
    else
      b == a.(buf := b.buf) && |b.buf| == |a.buf|
  }

  /** The transitions of the chip. */
  ghost predicate Next(l: Layout, clearsOnly: bool, st: Step) {
    match st.act
    case Tick => Elapses(st.pre, st.post)
    case Cir(w) => Commands(l, st.pre, w, st.post)
    case Peek => st.post == st.pre
    case Poke(at, w) => Accepts(clearsOnly, st.pre, at, PutBigEndian32(w), st.post)
    case ReadRun(_, _) => st.post == st.pre
    case WriteRun(at, data) => Accepts(clearsOnly, st.pre, at, data, st.post)
    case Torn => st.post == st.pre.(buf := st.post.buf) && |st.post.buf| == |st.pre.buf|
  }

  /** Every transition keeps the state well formed. */
  lemma StepKeepsForm(l: Layout, clearsOnly: bool, st: Step)
    requires l.Fits() && WellFormed(l, st.pre) && Next(l, clearsOnly, st)
    ensures WellFormed(l, st.post)
  {
    hide And, Times, Pow2, RoundDown, Loaded, Programmed, Opcode, PageField, PutBigEndian32;
    StatusValues();
  }

  /** The steps of the bus operations, for proofs that need not know what they mean. */
  lemma Stays(l: Layout, clearsOnly: bool, s: State, act: Act)
    requires act.Tick? || act.Peek? || act.ReadRun?
    ensures Next(l, clearsOnly, Step(s, act, s))
  {
  }

  lemma Commanded(l: Layout, clearsOnly: bool, a: State, w: u32, b: State)
    requires Commands(l, a, w, b)
    ensures Next(l, clearsOnly, Step(a, Cir(w), b))
  {
  }

  lemma Accepted(l: Layout, clearsOnly: bool, a: State, at: nat, data: seq<u8>, b: State)
    requires Accepts(clearsOnly, a, at, data, b)
    ensures Next(l, clearsOnly, Step(a, WriteRun(at, data), b))
  {
  }

  lemma Poked(l: Layout, clearsOnly: bool, a: State, at: nat, word: u32, b: State)
    requires Accepts(clearsOnly, a, at, PutBigEndian32(word), b)
    ensures Next(l, clearsOnly, Step(a, Poke(at, word), b))
  {
  }

  lemma Tore(l: Layout, clearsOnly: bool, a: State, buf: seq<u8>)
    requires |buf| == |a.buf|
    ensures Next(l, clearsOnly, Step(a, Torn, a.(buf := buf)))
  {
  }

  /** The log grew from log0 to log1 by one bus transaction: time passing, then the act. */
  ghost predicate Transaction(l: Layout, clearsOnly: bool, log0: seq<Step>, s0: State, act: Act,
                              log1: seq<Step>, s1: State) {
    && |log1| == |log0| + 2 && log0 <= log1
    && log1[|log0|].pre == s0 && log1[|log0|].act == Tick
    && log1[|log0| + 1] == Step(log1[|log0|].post, act, s1)
    && Next(l, clearsOnly, log1[|log0|]) && Next(l, clearsOnly, log1[|log0| + 1])
  }

  /** The state after the first k steps of a log that began in state `first`. */
  function StateAt(first: State, log: seq<Step>, k: nat): State
    requires k <= |log|
  {
    if k == 0 then first else log[k - 1].post
  }

  /** Step k of a log is a transition from where the step before it led. */
  ghost predicate Linked(l: Layout, clearsOnly: bool, first: State, log: seq<Step>, k: nat)
    requires k < |log|
  {
    log[k].pre == StateAt(first, log, k) && Next(l, clearsOnly, log[k])
  }

  /** The log is a run of the chip from one state to another. */
  ghost predicate IsRun(l: Layout, clearsOnly: bool, first: State, log: seq<Step>, s: State) {
    && s == StateAt(first, log, |log|)
    && forall k :: 0 <= k < |log| ==> Linked(l, clearsOnly, first, log, k)
  }

  lemma RunMoves(l: Layout, clearsOnly: bool, first: State, log: seq<Step>, s: State, act: Act, b: State)
    requires IsRun(l, clearsOnly, first, log, s) && Next(l, clearsOnly, Step(s, act, b))
    ensures IsRun(l, clearsOnly, first, log + [Step(s, act, b)], b)
  {
    hide Next;
    var longer := log + [Step(s, act, b)];
    forall k | 0 <= k < |longer|
      ensures Linked(l, clearsOnly, first, longer, k)
    {
      if k < |log| {
        assert Linked(l, clearsOnly, first, log, k);
      }
    }
  }

  /** Between two points of a run, the steps logged lead from the one state to the other, each a transition from
      where the one before it led; if none was logged, nothing has changed. */
  lemma StepsLead(l: Layout, clearsOnly: bool, first: State, log0: seq<Step>, s0: State, log1: seq<Step>, s1: State)
    requires IsRun(l, clearsOnly, first, log0, s0) && IsRun(l, clearsOnly, first, log1, s1) && log0 <= log1
    ensures IsRun(l, clearsOnly, s0, log1[|log0|..], s1)
  {
    hide Next;
    var n, steps := |log0|, log1[|log0|..];
    assert n > 0 ==> log1[n - 1] == log0[n - 1];
    forall k | 0 <= k < |steps|
      ensures Linked(l, clearsOnly, s0, steps, k)
    {
      assert Linked(l, clearsOnly, first, log1, n + k);
    }
  }

  lemma TwoSteps(l: Layout, clearsOnly: bool, log0: seq<Step>, s0: State, log1: seq<Step>, s1: State, act: Act,
                 log2: seq<Step>, s2: State)
    requires |log1| == |log0| + 1 && log0 <= log1 && log2 == log1 + [Step(s1, act, s2)]
    requires log1[|log0|] == Step(s0, Tick, s1) && Next(l, clearsOnly, log1[|log0|])
    requires Next(l, clearsOnly, Step(s1, act, s2))
    ensures Transaction(l, clearsOnly, log0, s0, act, log2, s2)
  {
    hide Next;
  }

  /** Where byte j of a read burst comes from: bursts wrap inside the read window they start in. */
  function BurstByte(l: Layout, start: nat, j: nat): nat {
    var window := RoundDown(start, l.WindowSize());
    var within := start - window + j;
    window + within - RoundDown(within, l.WindowSize())
  }

  /** What a burst read from `start` shows. While an operation runs, beyond the array and in other modes the
      bytes are arbitrary. */
  ghost predicate BurstShows(l: Layout, id: seq<u8>, s: State, start: nat, bytes: seq<u8>) {
    && (s.mode == ReadArray && !s.work.Busy? ==>
          forall j :: 0 <= j < |bytes| && BurstByte(l, start, j) < |s.mem| ==>
            bytes[j] == s.mem[BurstByte(l, start, j)])
    && (s.mode == ReadSilicon ==> forall j :: 0 <= j < |bytes| && j < |id| ==> bytes[j] == id[j])
  }

  /** Bytes [start, start+len) lie in one read window. */
  predicate InOneWindow(l: Layout, start: nat, len: nat) {
    start + len <= RoundDown(start, l.WindowSize()) + l.WindowSize()
  }

  /** The chip's sectors, found by counting, are those the driver's masks compute, and lie in the chip. */
  lemma SectorBounds(l: Layout, page: nat)
    requires l.Fits() && page < l.TotalPages()
    ensures page < Pow2(63)
    ensures SectorFirst(l, page) == l.SectorBegin(page) <= page
    ensures SectorFirst(l, page) + l.PagesPerSector() == l.SectorEnd(page) <= l.TotalPages()
    ensures l.PageStart(l.SectorBegin(page)) <= l.PageStart(l.SectorEnd(page)) <= l.ChipSize()
  {
    l.TotalBound();
    MasksAreMultiples(l, page);
    RoundDownIs(page, l.PagesPerSector());
    SizesAreProducts(l);
    WithinTotal(page, l.PagesPerSector(), l.SectorsPerChip());
    PageStartOrder(l, l.SectorBegin(page), l.SectorEnd(page));
    PageStartOrder(l, l.SectorEnd(page), l.TotalPages());
    PageStartTotal(l);
  }

  lemma WithinTotal(page: nat, pps: nat, sectors: nat)
    requires pps > 0 && page < pps * sectors
    ensures page / pps * pps <= page < (page / pps + 1) * pps == page / pps * pps + pps <= pps * sectors
  {
    Interval(page, pps);
    var q := page / pps;
    if q >= sectors {
      MulOrder(sectors, q, pps);
    }
    MulOrder(q + 1, sectors, pps);
  }

  lemma PageBounds(l: Layout, page: nat)
    requires page < l.TotalPages()
    ensures l.PageStart(page) + l.PageSize() == l.PageStart(page + 1) <= l.ChipSize()
  {
    PageStartOrder(l, page, l.TotalPages());
    PageStartTotal(l);
  }

  // ---------------------------------------------------------------- the device on the bus

  /** n bytes are whole 32-bit words. */
  predicate WholeWords(n: nat) {
    n % 4 == 0
  }

  /** A chip mapped at `base` of the parallel interface. */
  class Chip {
    const layout: Layout
    const base: u32
    const clearsOnly: bool   // page buffer writes only clear bits
    const id: seq<u8>        // silicon ID
    const delay: Option<nat> // ticks an operation may last, on a chip whose operations always end well
    var s: State
    var age: nat             // ticks the running operation has lasted
    ghost const first: State // the state after power-up
    ghost var log: seq<Step> // every step since
    ghost var faults: nat    // transactions that were reported to have failed

    /** A chip after power-up. */
    constructor (layout: Layout, base: u32, clearsOnly: bool, id: seq<u8>, mem: seq<u8>,
                 delay: Option<nat>)
      requires layout.Fits() && layout.pageBits + layout.sectorBits <= 10 && layout.unitBits + layout.offsetBits <= 16
      requires |id| == 8 && |mem| == layout.ChipSize()
      ensures Valid() && s == first == Reset(layout, clearsOnly, mem) && log == [] && faults == 0
      ensures this.layout == layout && this.base == base && this.clearsOnly == clearsOnly && this.id == id
      ensures this.delay == delay
    {
      this.layout, this.base, this.clearsOnly, this.id, this.delay := layout, base, clearsOnly, id, delay;
      s, log, faults, age := Reset(layout, clearsOnly, mem), [], 0, 0;
      first := Reset(layout, clearsOnly, mem);
    }

    /** At most 1024 pages are addressable by commands, and page buffer addresses lie below the command
        register. The log is the run of the chip that led to its state. */
    ghost predicate Valid()
      reads this
    {
      && layout.Fits()
      && layout.pageBits + layout.sectorBits <= 10
      && layout.unitBits + layout.offsetBits <= 16
      && |id| == 8
      && WellFormed(layout, s)
      && IsRun(layout, clearsOnly, first, log, s)
    }

    /** ErrIo reports exactly one failed transaction, the last of an operation; without it none has failed. */
    twostate predicate Counted(new err: Error)
      reads this
    {
      faults == old(faults) + if err == ErrIo then 1 else 0
    }

    /** Operations end well, after less than n ticks without an end. */
    predicate Within(n: nat) {
      delay.Some? && delay.value < n
    }

    /** Operations end well before polls at this period reach the timeout. */
    predicate InTime(period: nat, timeout: nat) {
      delay.Some? && Times(delay.value, period) < timeout
    }

    /** Time has passed: the age of a running operation, and what is sure about its end. */
    twostate predicate Aged()
      reads this
    {
      && age == (if s.work.Busy? then old(age) + 1 else 0)
      && (s.work.Busy? ==> old(s.work.Busy?))
      && (delay.Some? ==>
            && (s.work.Busy? ==> age <= delay.value)
            && (old(s.work.Busy?) ==> !s.work.Failed?))
    }

    /** One bus transaction, `act`. */
    twostate predicate Did(new act: Act)
      reads this
    {
      Transaction(layout, clearsOnly, old(log), old(s), act, log, s)
    }

    /** Offset of a bus address in the chip's window. */
    function Offset(address: u32): u32 {
      Sub32(address, base)
    }

    /** The state moves to b. */
    method Move(act: Act, b: State)
      requires Valid() && Next(layout, clearsOnly, Step(s, act, b))
      modifies this`s, this`log
      ensures Valid() && s == b
      ensures log == old(log) + [Step(old(s), act, b)]
    {
      hide IsRun, Next, WellFormed;
      StepKeepsForm(layout, clearsOnly, Step(s, act, b));
      RunMoves(layout, clearsOnly, first, log, s, act, b);
      log := log + [Step(s, act, b)];
      s := b;
    }

    /** A transaction fails. */
    method Fault() returns (err: DriverError)
      modifies this`faults
      ensures err == ErrIo && faults == old(faults) + 1
    {
      faults := faults + 1;
      err := ErrIo;
    }

    static method Garbage(n: nat) returns (g: seq<u8>)
      ensures |g| == n
    {
      g := *;
      if |g| != n {
        g := Blank(n);
      }
    }

    /** Time passes before every transaction. */
    method Elapse()
      requires Valid()
      modifies this`s, this`log, this`age
      ensures Valid() && Aged()
      ensures |log| == |old(log)| + 1 && old(log) <= log
      ensures log[|log| - 1] == Step(old(s), Tick, s) && Next(layout, clearsOnly, log[|log| - 1])
    {
      hide And, Times, Pow2, RoundDown;
      var b := s;
      StatusValues();
      if s.work.Busy? {
        var lo, hi := s.work.lo, s.work.hi;
        var ends: bool, fails: bool := *, *;
        if ends || (delay.Some? && age >= delay.value) {
          var status := if s.work.kind == EraseOp then 0x88 else 0x84;
          ReplaceOnly(s.mem, lo, s.work.result);
          b := s.(mem := Replace(s.mem, lo, s.work.result), work := Idle, status := status,
                  buf := if s.work.kind == ProgramOp then Blank(|s.buf|) else s.buf);
        } else if fails && delay.None? {
          var cells := Garbage(hi - lo);
          var buf := Garbage(|s.buf|);
          ReplaceOnly(s.mem, lo, cells);
          b := s.(mem := Replace(s.mem, lo, cells), work := Failed(lo, hi), status := 0x80, buf := buf);
        }
      }
      Move(Tick, b);
      age := if s.work.Busy? then age + 1 else 0;
    }

    method Start(kind: Kind, lo: nat, hi: nat, result: seq<u8>) returns (b: State)
      requires Valid() && lo + |result| == hi <= |s.mem|
      ensures Starts(s, kind, lo, hi, result, b)
    {
      var cells := Garbage(hi - lo);
      b := s.(mem := Replace(s.mem, lo, cells), mode := ReadStatus, asked := ReadStatus, setup := NoSetup,
              work := Busy(kind, lo, hi, result), status := if kind == EraseOp then 0x02 else 0x01,
              started := s.started + [Unit(kind, lo, hi)]);
    }

    /** Effect of a mode command; a switch that may need two writes happens or not. */
    method Switch(to: Mode) returns (b: State)
      ensures ModeChanges(s, to, b)
    {
      b := s.(asked := to);
      if SwitchesAtOnce(s.mode, to) || s.asked == to {
        b := b.(mode := to);
      } else if * {
        b := b.(mode := to);
      }
      if * {
        b := b.(setup := NoSetup);
      }
    }

    method ArmedUnit() returns (lo: nat, hi: nat)
      requires Valid() && s.setup != NoSetup
      ensures lo == if s.setup == ChipSetup then 0 else layout.PageStart(SectorFirst(layout, s.setup.page))
      ensures hi == if s.setup == ChipSetup then |s.mem|
                    else layout.PageStart(SectorFirst(layout, s.setup.page) + layout.PagesPerSector())
      ensures lo <= hi <= |s.mem|
    {
      hide Times, Pow2, RoundDown, And, Or;
      lo, hi := 0, |s.mem|;
      if s.setup.SectorSetup? {
        SectorBounds(layout, s.setup.page);
        lo := layout.PageStart(SectorFirst(layout, s.setup.page));
        hi := layout.PageStart(SectorFirst(layout, s.setup.page) + layout.PagesPerSector());
      }
    }

    method Command(w: u32) returns (b: State)
      requires Valid()
      ensures Commands(layout, s, w, b)
    {
      hide And, Times, Pow2, RoundDown;
      var op, page := Opcode(w), PageField(w);
      if op == CMD_READ_ARRAY {
        b := Switch(ReadArray);
      } else if op == CMD_STATUS {
        b := Switch(ReadStatus);
      } else if op == CMD_SILICON_ID {
        b := Switch(ReadSilicon);
      } else if op == CMD_LOAD_BYTE_PAGE {
        b := Switch(LoadPage);
      } else if op == CMD_CHIP_ERASE {
        b := s.(setup := ChipSetup, asked := s.mode);
      } else if op == CMD_SECTOR_ERASE && page < layout.TotalPages() {
        b := s.(setup := SectorSetup(page), asked := s.mode);
      } else if op == CMD_ERASE && !s.work.Busy? && s.setup != NoSetup {
        var lo, hi := ArmedUnit();
        b := Start(EraseOp, lo, hi, Blank(hi - lo));
      } else if op == CMD_PROGRAM_PAGE && !s.work.Busy? && page < layout.TotalPages() {
        PageBounds(layout, page);
        var lo := layout.PageStart(page);
        b := Start(ProgramOp, lo, lo + |s.buf|, Programmed(s.mem[lo..lo + |s.buf|], s.buf));
      } else {
        b := s;
      }
    }

    method Accept(at: nat, data: seq<u8>) returns (b: State)
      requires Valid()
      ensures Accepts(clearsOnly, s, at, data, b)
    {
      if s.mode == LoadPage && at + |data| <= |s.buf| {
        b := s.(buf := Loaded(clearsOnly, s.buf, at, data));
      } else if s.mode == ReadStatus {
        b := s;
        if !s.work.Busy? {
          b := s.(status := ClearedStatus(clearsOnly));
        }
        if !clearsOnly && !(at == 0 && data == PutBigEndian32(0)) {
          var buf := Garbage(|s.buf|);
          b := b.(buf := buf);
        }
      } else {
        var buf := Garbage(|s.buf|);
        b := s.(buf := buf);
      }
    }

    method Write32(address: u32, data: u32) returns (err: DriverError)
      requires Valid()
      modifies this
      ensures Valid()
      ensures err == Nil || err == ErrIo
      ensures Did(WriteAct(address, data)) || (err != Nil && Did(Tick))
      ensures Counted(err)
      ensures (!old(s.work.Busy?) ==> age == 0) && |log| == |old(log)| + 2
    {
      hide And, Commands, Accepts, Next, WellFormed, IsRun, Transaction;
      Elapse();
      ghost var log1, s1 := log, s;
      var b;
      if Offset(address) == CIR_OFFSET {
        b := Command(data);
        Commanded(layout, clearsOnly, s, data, b);
      } else {
        b := Accept(Offset(address), PutBigEndian32(data));
        Poked(layout, clearsOnly, s, Offset(address), data, b);
      }
      if * {
        Stays(layout, clearsOnly, s, Tick);
        Move(Tick, s);
        TwoSteps(layout, clearsOnly, old(log), old(s), log1, s1, Tick, log, s);
        err := Fault();
        return;
      }
      Move(WriteAct(address, data), b);
      TwoSteps(layout, clearsOnly, old(log), old(s), log1, s1, WriteAct(address, data), log, s);
      err := Nil;
      if * {
        err := Fault();
      }
    }

    function WriteAct(address: u32, data: u32): Act {
      if Offset(address) == CIR_OFFSET then Cir(data) else Poke(Offset(address), data)
    }

    static method StatusWord(status: u8) returns (w: u32)
      ensures w % 0x100 == status
    {
      var high: int := *;
      w := (if 0 <= high < 0x100_0000 then high * 0x100 else 0) + status;
    }

    /** In ReadStatus mode the low eight bits are the status register; the others may be stale. */
    method Read32(address: u32) returns (w: u32, err: DriverError)
      requires Valid()
      modifies this
      ensures Valid()
      ensures err == Nil || err == ErrIo
      ensures Did(if err == Nil then Peek else Tick) && |log| == |old(log)| + 2
      ensures err == Nil && s.mode == ReadStatus ==> w % 0x100 == s.status
      ensures Counted(err) && Aged()
    {
      hide And, Commands, Accepts, Next, WellFormed;
      Elapse();
      w := StatusWord(s.status);
      err := Nil;
      if * {
        err := Fault();
      }
      Stays(layout, clearsOnly, s, if err == Nil then Peek else Tick);
      Move(if err == Nil then Peek else Tick, s);
    }

    /** The interface bursts whole 32-bit words only, and firmware before 2.04 cannot write bursts. */
    method WriteBurst(address: u32, data: seq<u8>) returns (err: DriverError)
      requires Valid()
      modifies this
      ensures Valid()
      ensures err == Nil || err == ErrUnsupported || err == ErrIo
      ensures err == Nil ==> Did(WriteRun(Offset(address), data)) && |data| % 4 == 0
      ensures err == ErrUnsupported ==> Did(Tick)
      ensures err == ErrIo ==> Did(Torn)
      ensures Counted(err)
    {
      hide And, Commands, Accepts, Next, WellFormed, IsRun, Chip.Offset, Transaction, Times, Pow2, RoundDown;
      Elapse();
      ghost var log1, s1 := log, s;
      var supported: bool := *;
      if !supported || |data| % 4 != 0 {
        Stays(layout, clearsOnly, s, Tick);
        Move(Tick, s);
        TwoSteps(layout, clearsOnly, old(log), old(s), log1, s1, Tick, log, s);
        return ErrUnsupported;
      }
      if * {
        var buf := Garbage(|s.buf|);
        Tore(layout, clearsOnly, s, buf);
        Move(Torn, s.(buf := buf));
        TwoSteps(layout, clearsOnly, old(log), old(s), log1, s1, Torn, log, s);
        err := Fault();
        return;
      }
      var b := Accept(Offset(address), data);
      Accepted(layout, clearsOnly, s, Offset(address), data, b);
      Move(WriteRun(Offset(address), data), b);
      TwoSteps(layout, clearsOnly, old(log), old(s), log1, s1, WriteRun(Offset(address), data), log, s);
      err := Nil;
    }

    /** Byte position of a read address: addresses count units of data. */
    function StartByte(address: u32): nat {
      Times(Offset(address), layout.UnitSize())
    }

    method Output(start: nat, n: nat) returns (bytes: seq<u8>)
      requires Valid()
      ensures |bytes| == n && BurstShows(layout, id, s, start, bytes)
    {
      var junk := Garbage(n);
      bytes := seq(n, j requires 0 <= j < n && Valid() reads this =>
        var from := BurstByte(layout, start, j);
        if s.mode == ReadArray && from < |s.mem| then s.mem[from]
        else if s.mode == ReadSilicon && j < 8 then id[j]
        else junk[j]);
    }

    static method Fill(data: array<u8>, lo: nat, bytes: seq<u8>)
      requires lo + |bytes| <= data.Length
      modifies data
      ensures forall i :: 0 <= i < data.Length && !(lo <= i < lo + |bytes|) ==> data[i] == old(data[i])
      ensures data[lo..lo + |bytes|] == bytes
    {
      for j := 0 to |bytes|
        invariant forall i :: 0 <= i < data.Length && !(lo <= i < lo + j) ==> data[i] == old(data[i])
        invariant forall i :: 0 <= i < j ==> data[lo + i] == bytes[i]
      {
        data[lo + j] := bytes[j];
      }
    }

    /** Fills data[lo..hi) with a burst of whole 32-bit words. */
    method ReadBurst(address: u32, data: array<u8>, lo: nat, hi: nat) returns (err: DriverError)
      requires Valid() && lo <= hi <= data.Length
      modifies this, data
      ensures Valid()
      ensures err == Nil || err == ErrUnsupported || err == ErrIo
      ensures Did(if err == Nil then ReadRun(Offset(address), hi - lo) else Tick)
      ensures err == Nil ==> WholeWords(hi - lo)
      ensures err == ErrUnsupported ==> !WholeWords(hi - lo)
      ensures Counted(err)
      ensures forall i :: 0 <= i < data.Length && !(lo <= i < hi) ==> data[i] == old(data[i])
      ensures err == Nil ==> BurstShows(layout, id, s, StartByte(address), data[lo..hi])
    {
      hide And, Commands, Accepts, Next, WellFormed, IsRun, Chip.Offset, BurstShows, Transaction, Times, Pow2,
           RoundDown;
      Elapse();
      ghost var log1, s1 := log, s;
      var ok: bool := *;
      if !ok || !WholeWords(hi - lo) {
        Stays(layout, clearsOnly, s, Tick);
        Move(Tick, s);
        TwoSteps(layout, clearsOnly, old(log), old(s), log1, s1, Tick, log, s);
        err := ErrUnsupported;
        if !ok {
          err := Fault();
        }
        return;
      }
      var bytes := Output(StartByte(address), hi - lo);
      Fill(data, lo, bytes);
      assert data[lo..hi] == bytes;
      Stays(layout, clearsOnly, s, ReadRun(Offset(address), hi - lo));
      Move(ReadRun(Offset(address), hi - lo), s);
      TwoSteps(layout, clearsOnly, old(log), old(s), log1, s1, ReadRun(Offset(address), hi - lo), log, s);
      err := Nil;
    }
  }
}
