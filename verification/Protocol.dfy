/** What the driver's transactions may do to the chip: vocabulary for the contracts of the driver. */
module Protocol {
  import opened Bits
  import opened Errors
  import opened Layout
  import opened FlashChip

  /** From a to b no operation was started and no data written: time passed and modes changed. */
  ghost predicate Settled(a: State, b: State) {
    && b.started == a.started && |b.mem| == |a.mem| && |b.buf| == |a.buf|
    && (if a.work.Busy? && b.work != a.work then
          && a.work.lo <= a.work.hi <= |a.mem|
          && SameOutside(a.mem, b.mem, a.work.lo, a.work.hi)
          && (|| b.work == Failed(a.work.lo, a.work.hi)
              || (&& b.work.Idle?
                  && b.mem[a.work.lo..a.work.hi] == a.work.result
                  && b.buf == (if a.work.kind == ProgramOp then Blank(|a.buf|) else a.buf)))
        else b.mem == a.mem && b.buf == a.buf && b.work == a.work)
  }

  /** The unit [lo, hi) is under operation, or was and failed. */
  predicate InFlight(w: Work, lo: nat, hi: nat) {
    !w.Idle? && w.lo == lo && w.hi == hi
  }

  /** Since s0, either nothing was started and no cell changed, or the operation on u was started, nothing
      outside u changed, and u is `result` or in flight. */
  ghost predicate UnitState(s0: State, u: Unit, result: seq<u8>, s: State) {
    && u.lo <= u.hi <= |s0.mem|
    && (if s.started == s0.started then s.mem == s0.mem
        else
          && s.started == s0.started + [u]
          && SameOutside(s0.mem, s.mem, u.lo, u.hi)
          && (s.mem[u.lo..u.hi] == result || InFlight(s.work, u.lo, u.hi)))
  }

  predicate IsBlank(b: seq<u8>) {
    forall i :: 0 <= i < |b| ==> b[i] == 0xff
  }

  /** The bytes of pages [begin, end), in an image of the chip. */
  function PagesOf(l: Layout, mem: seq<u8>, begin: nat, end: nat): seq<u8> {
    if l.PageStart(begin) <= l.PageStart(end) <= |mem| then mem[l.PageStart(begin)..l.PageStart(end)] else []
  }

  lemma NoPages(l: Layout, mem: seq<u8>, page: nat)
    ensures l.PageStart(page - page) == 0 && PagesOf(l, mem, page, page) == []
  {
  }

  /** Lengths and contents of adjoining page ranges add up. */
  lemma Extent(l: Layout, mem: seq<u8>, a: nat, b: nat, c: nat)
    requires a <= b <= c <= l.TotalPages() && |mem| == l.ChipSize()
    ensures l.PageStart(c - a) == l.PageStart(b - a) + l.PageStart(c - b)
    ensures PagesOf(l, mem, a, b) + PagesOf(l, mem, b, c) == PagesOf(l, mem, a, c)
    ensures |PagesOf(l, mem, a, c)| == l.PageStart(c - a)
  {
    PageStartSplit(l, a, b);
    PageStartSplit(l, b, c);
    PageStartSplit(l, a, c);
    PageStartOrder(l, c, l.TotalPages());
    PageStartTotal(l);
  }

  /** The bytes of a page, in an image of the chip. */
  function PageOf(l: Layout, mem: seq<u8>, page: nat): seq<u8> {
    if l.PageStart(page) + l.PageSize() <= |mem| then mem[l.PageStart(page)..l.PageStart(page) + l.PageSize()] else []
  }

  /** What is promised of page loads and programming. Strict: pages are loaded into a blank buffer and
      programmed onto blank cells. BlankAfter: the same, except for the load that follows the operations
      `started`, whose buffer may hold anything. Free: nothing. */
  datatype Rule = Free | Strict | BlankAfter(started: seq<Unit>)

  predicate MayLoad(rule: Rule, s: State) {
    rule.Free? || IsBlank(s.buf) || (rule.BlankAfter? && s.started == rule.started)
  }

  predicate MayProgram(rule: Rule, cells: seq<u8>) {
    rule.Free? || IsBlank(cells)
  }

  /** The rule that a load in state s and blank buffers from then on obey. */
  function LoadRule(s: State): Rule {
    if IsBlank(s.buf) then Strict else BlankAfter(s.started)
  }

  /** The rule q promises no more than r. */
  predicate Weaker(q: Rule, r: Rule) {
    q == r || q.Free? || r.Strict?
  }

  /** A single write of the command register certainly enters LoadPage mode. */
  predicate LoadsAtOnce(s: State) {
    SwitchesAtOnce(s.mode, LoadPage) || s.asked == LoadPage
  }

  /** A transaction happens in the mode it assumes, and loads and programs as the rule says. */
  ghost predicate Disciplined(l: Layout, rule: Rule, st: Step) {
    match st.act
    case Peek => st.pre.mode == ReadStatus
    case Poke(at, w) =>
      || (st.pre.mode == ReadStatus && at == 0 && w == 0)
      || (st.pre.mode == LoadPage && at + 4 <= l.PageSize())
    case WriteRun(at, data) => st.pre.mode == LoadPage && at + |data| <= l.PageSize()
    case ReadRun(at, len) =>
      || (st.pre.mode == ReadArray && InOneWindow(l, Times(at, l.UnitSize()), len))
      || (st.pre.mode == ReadSilicon && len == 8)
    case Cir(w) =>
      && (Opcode(w) == CMD_LOAD_BYTE_PAGE ==>
            LoadsAtOnce(st.pre) && MayLoad(rule, st.pre))
      && (Opcode(w) == CMD_ERASE ==> !st.pre.work.Busy? && st.pre.setup != NoSetup)
      && (Opcode(w) == CMD_PROGRAM_PAGE ==>
            !st.pre.work.Busy? && MayProgram(rule, PageOf(l, st.pre.mem, PageField(w))))
    case Torn => st.pre.mode == LoadPage
    case Tick => true
  }

  /** The log grew from log0 to log1 by disciplined steps between which nothing was written. */
  ghost predicate Quiet(l: Layout, log0: seq<Step>, s0: State, log1: seq<Step>, s1: State) {
    && log0 <= log1
    && Settled(s0, s1)
    && forall k :: |log0| <= k < |log1| ==> Settled(s0, log1[k].post) && Disciplined(l, Strict, log1[k])
  }

  lemma SettledTrans(a: State, b: State, c: State)
    requires Settled(a, b) && Settled(b, c)
    ensures Settled(a, c)
  {
  }

  /** One transaction that writes nothing. */
  lemma QuietStep(l: Layout, clearsOnly: bool, log0: seq<Step>, s0: State, act: Act, log1: seq<Step>, s1: State)
    requires Transaction(l, clearsOnly, log0, s0, act, log1, s1)
    requires Settled(log1[|log0|].post, s1) && Disciplined(l, Strict, log1[|log0| + 1])
    ensures Quiet(l, log0, s0, log1, s1)
  {
    TickSettles(s0, log1[|log0|].post);
    SettledTrans(s0, log1[|log0|].post, s1);
  }

  /** A read of the status, or a transaction without effect. */
  lemma QuietPeek(l: Layout, clearsOnly: bool, log0: seq<Step>, s0: State, act: Act, log1: seq<Step>, s1: State)
    requires Transaction(l, clearsOnly, log0, s0, act, log1, s1)
    requires act.Tick? || (act.Peek? && s0.mode == ReadStatus)
    ensures Quiet(l, log0, s0, log1, s1) && Elapses(s0, s1) && s1.mode == s0.mode
  {
    TickSettles(s0, log1[|log0|].post);
    TickSettles(log1[|log0|].post, s1);
    QuietStep(l, clearsOnly, log0, s0, act, log1, s1);
  }

  /** A read burst. */
  lemma QuietRead(l: Layout, clearsOnly: bool, log0: seq<Step>, s0: State, act: Act, log1: seq<Step>, s1: State)
    requires Transaction(l, clearsOnly, log0, s0, act, log1, s1) && act.ReadRun?
    requires || (s0.mode == ReadArray && InOneWindow(l, Times(act.at, l.UnitSize()), act.len))
             || (s0.mode == ReadSilicon && act.len == 8)
    ensures Quiet(l, log0, s0, log1, s1) && s1.mode == s0.mode
  {
    TickSettles(s0, log1[|log0|].post);
    QuietStep(l, clearsOnly, log0, s0, act, log1, s1);
  }

  /** A mode command other than LoadPage's: the mode is reached at once or by the second write. */
  lemma QuietMode(l: Layout, clearsOnly: bool, log0: seq<Step>, s0: State, to: Mode, log1: seq<Step>, s1: State)
    requires to != LoadPage && Transaction(l, clearsOnly, log0, s0, Cir(ModeCmd(to)), log1, s1)
    ensures Quiet(l, log0, s0, log1, s1) && s1.asked == to
    ensures s0.asked == to || SwitchesAtOnce(s0.mode, to) ==> s1.mode == to
  {
    TickSettles(s0, log1[|log0|].post);
    ModeSettles(log1[|log0|].post, to, s1);
    QuietStep(l, clearsOnly, log0, s0, Cir(ModeCmd(to)), log1, s1);
  }

  /** A write that clears the status, in the status mode. */
  lemma QuietClear(l: Layout, clearsOnly: bool, log0: seq<Step>, s0: State, act: Act, log1: seq<Step>, s1: State)
    requires Transaction(l, clearsOnly, log0, s0, act, log1, s1)
    requires act.Tick? || (act == Poke(0, 0) && s0.mode == ReadStatus)
    ensures Quiet(l, log0, s0, log1, s1) && s1.mode == s0.mode
    ensures act.Poke? && !s1.work.Busy? ==> s1.status == ClearedStatus(clearsOnly)
  {
    TickSettles(s0, log1[|log0|].post);
    if act.Tick? {
      TickSettles(log1[|log0|].post, s1);
    }
    QuietStep(l, clearsOnly, log0, s0, act, log1, s1);
  }

  function ModeCmd(mode: Mode): u32 {
    match mode
    case ReadArray => CMD_READ_ARRAY
    case ReadStatus => CMD_STATUS
    case ReadSilicon => CMD_SILICON_ID
    case LoadPage => CMD_LOAD_BYTE_PAGE
  }

  lemma QuietTrans(l: Layout, log0: seq<Step>, s0: State, log1: seq<Step>, s1: State, log2: seq<Step>, s2: State)
    requires Quiet(l, log0, s0, log1, s1) && Quiet(l, log1, s1, log2, s2)
    ensures Quiet(l, log0, s0, log2, s2)
  {
    SettledTrans(s0, s1, s2);
    forall k | |log0| <= k < |log2|
      ensures Settled(s0, log2[k].post) && Disciplined(l, Strict, log2[k])
    {
      if k < |log1| {
        assert log2[k] == log1[k];
      } else {
        SettledTrans(s0, s1, log2[k].post);
      }
    }
  }

  /** Quiet steps leave an idle chip as it is. */
  lemma QuietIdle(l: Layout, log0: seq<Step>, s0: State, log1: seq<Step>, s1: State)
    requires Quiet(l, log0, s0, log1, s1) && !s0.work.Busy?
    ensures s1.mem == s0.mem && s1.buf == s0.buf && s1.work == s0.work && s1.started == s0.started
  {
  }

  lemma QuietStarts(l: Layout, log0: seq<Step>, s0: State, log1: seq<Step>, s1: State)
    requires Quiet(l, log0, s0, log1, s1)
    ensures s1.started == s0.started
  {
  }

  lemma NothingQuiet(l: Layout, log: seq<Step>, s: State)
    ensures Quiet(l, log, s, log, s)
  {
  }

  /** Time and mode commands settle. */
  lemma TickSettles(a: State, b: State)
    requires Elapses(a, b)
    ensures Settled(a, b) && b.mode == a.mode && b.asked == a.asked && b.setup == a.setup
    ensures !a.work.Busy? ==> b == a
  {
  }

  lemma ModeSettles(a: State, to: Mode, b: State)
    requires ModeChanges(a, to, b)
    ensures Settled(a, b) && b.asked == to
  {
  }

  /** The bit that the status shows while an operation runs. */
  function BusyBit(kind: Kind): u8 {
    if kind == EraseOp then STATUS_ERASE_BUSY else STATUS_PROGRAM_BUSY
  }

  lemma BusyShows(status: u8, work: Work)
    requires StatusShows(status, work)
    ensures work.Busy? ==> And(status, BusyBit(work.kind)) != 0
    ensures !work.Busy? ==> forall kind :: And(status, BusyBit(kind)) == 0
  {
  }

  lemma QuietWork(l: Layout, log0: seq<Step>, s0: State, log1: seq<Step>, s1: State)
    requires Quiet(l, log0, s0, log1, s1)
    ensures s1.work.Busy? ==> s1.work == s0.work
  {
  }

  /** Once a running operation is over, the status tells how it ended. */
  predicate Reported(a: State, b: State) {
    a.work.Busy? && !b.work.Busy? ==> (Succeeded(b.status, a.work.kind) <==> b.work.Idle?)
  }

  lemma StillReported(l: Layout, log0: seq<Step>, s0: State, log1: seq<Step>, s1: State, s2: State)
    requires Quiet(l, log0, s0, log1, s1) && Reported(s0, s1) && Elapses(s1, s2)
    ensures Reported(s0, s2)
  {
    hide And;
  }

  /** An operation that was accepted, waited for and reported as successful is over. */
  lemma Succeeds(l: Layout, s0: State, log1: seq<Step>, s1: State, log2: seq<Step>, s2: State,
                 log3: seq<Step>, s3: State, u: Unit, result: seq<u8>)
    requires Begun(s0, s1, u, result) && Quiet(l, log1, s1, log2, s2) && Quiet(l, log2, s2, log3, s3)
    requires Reported(s1, s2) && StatusShows(s2.status, s2.work) && Succeeded(s2.status, u.kind)
    requires And(s2.status, if u.kind == EraseOp then STATUS_ERASE_BUSY else STATUS_PROGRAM_BUSY) == 0
    ensures s3.work.Idle?
  {
    hide And;
  }

  /** An operation that was accepted, waited for and not reported as successful has failed. */
  lemma Fails(l: Layout, s0: State, log1: seq<Step>, s1: State, log2: seq<Step>, s2: State,
              log3: seq<Step>, s3: State, u: Unit, result: seq<u8>)
    requires Begun(s0, s1, u, result) && Quiet(l, log1, s1, log2, s2) && Quiet(l, log2, s2, log3, s3)
    requires Reported(s1, s2) && StatusShows(s2.status, s2.work) && !Succeeded(s2.status, u.kind)
    requires And(s2.status, if u.kind == EraseOp then STATUS_ERASE_BUSY else STATUS_PROGRAM_BUSY) == 0
    ensures LastFailed(s0, s3)
  {
    hide And;
  }

  /** Disciplined steps from s0 to s1 that concern unit u only, and start at most the operation on it. */
  ghost predicate Confined(l: Layout, log0: seq<Step>, s0: State, log1: seq<Step>, s1: State,
                           u: Unit, result: seq<u8>, rule: Rule)
  {
    && log0 <= log1
    && UnitState(s0, u, result, s1)
    && forall k :: |log0| <= k < |log1| ==>
         UnitState(s0, u, result, log1[k].post) && Disciplined(l, rule, log1[k])
  }

  lemma ConfinedStarts(l: Layout, log0: seq<Step>, s0: State, log1: seq<Step>, s1: State,
                       u: Unit, result: seq<u8>, rule: Rule)
    requires Confined(l, log0, s0, log1, s1, u, result, rule)
    ensures log0 <= log1 && (s1.started == s0.started || s1.started == s0.started + [u])
  {
  }

  /** The operation on u was accepted. */
  ghost predicate Begun(s0: State, s1: State, u: Unit, result: seq<u8>) {
    && s1.work == Busy(u.kind, u.lo, u.hi, result)
    && s1.mode == ReadStatus
    && s1.buf == s0.buf
    && s1.started == s0.started + [u]
  }

  /** The operation on u succeeded: its cells are `result`, all others are as before. */
  ghost predicate Done(s0: State, s1: State, u: Unit, result: seq<u8>) {
    && u.lo + |result| <= |s0.mem|
    && s1.work.Idle?
    && s1.mode == ReadStatus
    && s1.mem == Replace(s0.mem, u.lo, result)
    && s1.buf == (if u.kind == ProgramOp then Blank(|s0.buf|) else s0.buf)
    && s1.started == s0.started + [u]
  }

  lemma QuietConfined(l: Layout, log0: seq<Step>, s0: State, log1: seq<Step>, s1: State,
                      u: Unit, result: seq<u8>, rule: Rule)
    requires Quiet(l, log0, s0, log1, s1) && !s0.work.Busy? && u.lo <= u.hi <= |s0.mem|
    ensures Confined(l, log0, s0, log1, s1, u, result, rule)
  {
  }

  /** One transaction on an idle chip. */
  ghost predicate LastStep(log1: seq<Step>, s1: State, act: Act, log2: seq<Step>, s2: State) {
    log2 == log1 + [Step(s1, Tick, s1), Step(s1, act, s2)]
  }

  lemma IdleStep(l: Layout, clearsOnly: bool, log1: seq<Step>, s1: State, act: Act, log2: seq<Step>, s2: State)
    requires Transaction(l, clearsOnly, log1, s1, act, log2, s2) && !s1.work.Busy?
    ensures LastStep(log1, s1, act, log2, s2) && Next(l, clearsOnly, Step(s1, act, s2))
  {
    TickSettles(s1, log2[|log1|].post);
  }

  /** After quiet steps of an idle chip, a last disciplined transaction starts the operation on u or does
      nothing. */
  lemma BeginUnit(l: Layout, log0: seq<Step>, s0: State, log1: seq<Step>, s1: State, act: Act,
                  log2: seq<Step>, s2: State, u: Unit, result: seq<u8>, rule: Rule)
    requires Quiet(l, log0, s0, log1, s1) && !s0.work.Busy?
    requires u.lo + |result| == u.hi <= |s0.mem|
    requires LastStep(log1, s1, act, log2, s2)
    requires Disciplined(l, rule, Step(s1, act, s2))
    requires s2 == s1 || Starts(s1, u.kind, u.lo, u.hi, result, s2)
    ensures Confined(l, log0, s0, log2, s2, u, result, rule)
    ensures Starts(s1, u.kind, u.lo, u.hi, result, s2) ==> Begun(s0, s2, u, result)
  {
    forall k | |log0| <= k < |log2|
      ensures UnitState(s0, u, result, log2[k].post) && Disciplined(l, rule, log2[k])
    {
      if k < |log1| {
        assert log2[k] == log1[k];
      }
    }
  }

  /** An accepted operation, however it goes on. */
  lemma Finish(l: Layout, log0: seq<Step>, s0: State, log1: seq<Step>, s1: State, log2: seq<Step>, s2: State,
               u: Unit, result: seq<u8>, rule: Rule)
    requires Confined(l, log0, s0, log1, s1, u, result, rule) && Begun(s0, s1, u, result)
    requires u.lo + |result| == u.hi <= |s0.mem|
    requires Quiet(l, log1, s1, log2, s2)
    ensures Confined(l, log0, s0, log2, s2, u, result, rule)
    ensures s2.work.Idle? && s2.mode == ReadStatus ==> Done(s0, s2, u, result)
  {
    SettlesUnit(s0, s1, s2, u, result);
    forall k | |log0| <= k < |log2|
      ensures UnitState(s0, u, result, log2[k].post) && Disciplined(l, rule, log2[k])
    {
      if k < |log1| {
        assert log2[k] == log1[k];
      } else {
        SettlesUnit(s0, s1, log2[k].post, u, result);
      }
    }
  }

  lemma SettlesUnit(s0: State, s1: State, c: State, u: Unit, result: seq<u8>)
    requires u.lo + |result| == u.hi <= |s0.mem|
    requires SameOutside(s0.mem, s1.mem, u.lo, u.hi) && Begun(s0, s1, u, result) && Settled(s1, c)
    ensures UnitState(s0, u, result, c)
    ensures c.work.Idle? ==> c.mem == Replace(s0.mem, u.lo, result)
  {
    if c.work.Idle? {
      var r := Replace(s0.mem, u.lo, result);
      assert forall i :: u.lo <= i < u.hi ==> c.mem[i] == c.mem[u.lo..u.hi][i - u.lo] == result[i - u.lo];
      assert c.mem == r;
    }
  }

  /** From a to b only the page buffer, the modes and the status changed. */
  ghost predicate Loads(a: State, b: State) {
    b.mem == a.mem && b.work == a.work && b.started == a.started && |b.buf| == |a.buf|
  }

  /** Disciplined steps that concern the page buffer only. */
  ghost predicate Loading(l: Layout, log0: seq<Step>, s0: State, log1: seq<Step>, s1: State, rule: Rule) {
    && log0 <= log1
    && Loads(s0, s1)
    && forall k :: |log0| <= k < |log1| ==> Loads(s0, log1[k].post) && Disciplined(l, rule, log1[k])
  }

  lemma LoadingStep(l: Layout, log0: seq<Step>, s0: State, act: Act, log1: seq<Step>, s1: State, rule: Rule)
    requires LastStep(log0, s0, act, log1, s1) && Loads(s0, s1) && Disciplined(l, rule, Step(s0, act, s1))
    ensures Loading(l, log0, s0, log1, s1, rule)
  {
  }

  lemma LoadingTrans(l: Layout, log0: seq<Step>, s0: State, log1: seq<Step>, s1: State,
                     log2: seq<Step>, s2: State, rule: Rule)
    requires Loading(l, log0, s0, log1, s1, rule) && Loading(l, log1, s1, log2, s2, rule)
    ensures Loading(l, log0, s0, log2, s2, rule)
  {
    forall k | |log0| <= k < |log2|
      ensures Loads(s0, log2[k].post) && Disciplined(l, rule, log2[k])
    {
      if k < |log1| {
        assert log2[k] == log1[k];
      }
    }
  }

  lemma NothingLoading(l: Layout, log: seq<Step>, s: State, rule: Rule)
    ensures Loading(l, log, s, log, s, rule)
  {
  }

  /** Words written one after the other load the same page as a burst. */
  lemma LoadedAppend(clearsOnly: bool, buf: seq<u8>, at: nat, a: seq<u8>, b: seq<u8>)
    requires at + |a| + |b| <= |buf|
    ensures Loaded(clearsOnly, Loaded(clearsOnly, buf, at, a), at + |a|, b) == Loaded(clearsOnly, buf, at, a + b)
  {
  }

  lemma LoadedNothing(clearsOnly: bool, buf: seq<u8>, data: seq<u8>)
    ensures Loaded(clearsOnly, buf, 0, data[..0]) == buf
  {
  }

  lemma NextWord(n: nat, i: nat)
    requires i < n && n % 4 == 0 && i % 4 == 0
    ensures i + 4 <= n && (i + 4) % 4 == 0
  {
  }

  lemma LoadedWord(clearsOnly: bool, buf: seq<u8>, data: seq<u8>, i: nat)
    requires i + 4 <= |data| <= |buf|
    ensures Loaded(clearsOnly, Loaded(clearsOnly, buf, 0, data[..i]), i, data[i..i + 4])
         == Loaded(clearsOnly, buf, 0, data[..i + 4])
  {
    hide Loaded;
    assert data[..i + 4] == data[..i] + data[i..i + 4];
    LoadedAppend(clearsOnly, buf, 0, data[..i], data[i..i + 4]);
  }

  // ---------------------------------------------------------------- how operations end

  /** The operation started last, since s0, failed. */
  predicate LastFailed(s0: State, s1: State) {
    && |s1.started| > |s0.started|
    && var u := s1.started[|s1.started| - 1];
    s1.work == Failed(u.lo, u.hi)
  }

  /** The context is done, or the timeout of an operation has passed. */
  predicate Expired(err: Error, done: ContextError, since: nat, now: nat, timeout: nat) {
    (done != Nil && err == done) || (err == ErrDeadlineExceeded && now >= since + timeout)
  }

  /** The reasons for which something that began in s0 may have ended in s1 with an error: a transaction
      failed; the chip failed the operation started last; the chip was busy; pages are not whole words; the
      context is done; or the operation started last has outlasted its timeout and is still running. When
      operations end well and in time, and only sleeping takes time (smooth), none fails and none outlasts. */
  predicate Excused(l: Layout, err: Error, s0: State, s1: State, done: ContextError, since: nat, now: nat,
                    timeout: nat, smooth: bool) {
    match err
    case Nil => true
    case ErrIo => true
    case ErrOperationNOK => LastFailed(s0, s1) && !smooth
    case ErrNotReady(_) => s0.work.Busy? && s1.work.Busy?
    case ErrUnsupported => !WholeWords(l.PageSize())
    case ErrInvalidPageSize => !WholeWords(l.PageSize())
    case ErrCanceled => err == done
    case ErrDeadlineExceeded =>
      || err == done
      || (now >= since + timeout && |s1.started| > |s0.started| && s1.work.Busy? && !smooth)
    case _ => false
  }

  /** The same for reading. */
  predicate ReadExcused(l: Layout, err: Error, done: ContextError) {
    || err == Nil || err == ErrIo
    || (err == ErrUnsupported && !WholeWords(l.PageSize()))
    || (done != Nil && err == done)
  }

  /** What excuses a part excuses the whole. */
  lemma ExcusedPart(l: Layout, err: Error, s0: State, s1: State, s2: State, done: ContextError, t0: nat, t1: nat,
                    now: nat, timeout: nat, smooth: bool, least: nat, smoother: bool)
    requires Excused(l, err, s1, s2, done, t1, now, timeout, smooth) && (smoother ==> smooth)
    requires |s0.started| <= |s1.started|
    requires s1.work.Busy? ==> s0.work.Busy?
    requires t0 <= t1 && least <= timeout
    ensures Excused(l, err, s0, s2, done, t0, now, least, smoother)
  {
  }

  lemma Excuses(l: Layout, err: Error, s0: State, s1: State, done: ContextError, since: nat, now: nat,
                timeout: nat, smooth: bool)
    requires || err == Nil || err == ErrIo || (err == ErrOperationNOK && LastFailed(s0, s1) && !smooth)
             || (err == ErrInvalidPageSize && !WholeWords(l.PageSize()))
             || (done != Nil && err == done)
             || (Expired(err, done, since, now, timeout) && |s1.started| > |s0.started| && s1.work.Busy? && !smooth)
    ensures Excused(l, err, s0, s1, done, since, now, timeout, smooth)
  {
  }

  lemma ReadEnds(l: Layout, err: Error, done: ContextError)
    requires err == Nil || err == ErrIo || (done != Nil && err == done) || ReadExcused(l, err, Nil)
    ensures ReadExcused(l, err, done)
  {
  }

  lemma ReadExcuses(l: Layout, err: Error, s0: State, s1: State, done: ContextError, since: nat,
                     now: nat, timeout: nat, smooth: bool)
    requires ReadExcused(l, err, done)
    ensures Excused(l, err, s0, s1, done, since, now, timeout, smooth)
  {
  }

  // ---------------------------------------------------------------- from any state, in any mode

  /** Equal outside [lo, hi) and outside the unit of the operation running in s, if any. */
  ghost predicate FrameAround(s: State, mem: seq<u8>, lo: nat, hi: nat) {
    && |mem| == |s.mem|
    && forall i :: 0 <= i < |mem| && !(lo <= i < hi) && !(s.work.Busy? && s.work.lo <= i < s.work.hi) ==>
         mem[i] == s.mem[i]
  }

  /** No operation was started, and no cells were written but those of an operation running in a. */
  ghost predicate Untouched(a: State, b: State) {
    && b.started == a.started && |b.buf| == |a.buf|
    && FrameAround(a, b.mem, 0, 0)
    && (b.work == a.work || (a.work.Busy? && !b.work.Busy?))
  }

  ghost predicate Drifts(log0: seq<Step>, s0: State, log1: seq<Step>, s1: State) {
    && log0 <= log1
    && Untouched(s0, s1)
    && forall k :: |log0| <= k < |log1| ==> Untouched(s0, log1[k].post)
  }

  lemma NoDrift(log: seq<Step>, s: State)
    ensures Drifts(log, s, log, s)
  {
  }

  lemma UntouchedTrans(a: State, b: State, c: State)
    requires Untouched(a, b) && Untouched(b, c)
    ensures Untouched(a, c)
  {
  }

  lemma DriftsTrans(log0: seq<Step>, s0: State, log1: seq<Step>, s1: State, log2: seq<Step>, s2: State)
    requires Drifts(log0, s0, log1, s1) && Drifts(log1, s1, log2, s2)
    ensures Drifts(log0, s0, log2, s2)
  {
    hide Untouched;
    UntouchedTrans(s0, s1, s2);
    forall k | |log0| <= k < |log2|
      ensures Untouched(s0, log2[k].post)
    {
      if k < |log1| {
        assert log2[k] == log1[k];
      } else {
        UntouchedTrans(s0, s1, log2[k].post);
      }
    }
  }

  lemma QuietDrifts(l: Layout, log0: seq<Step>, s0: State, log1: seq<Step>, s1: State)
    requires Quiet(l, log0, s0, log1, s1)
    ensures Drifts(log0, s0, log1, s1)
  {
    SettledDrifts(s0, s1);
    forall k | |log0| <= k < |log1|
      ensures Untouched(s0, log1[k].post)
    {
      SettledDrifts(s0, log1[k].post);
    }
  }

  lemma SettledDrifts(a: State, b: State)
    requires Settled(a, b)
    ensures Untouched(a, b)
  {
  }

  /** After so many polls, each followed by a wait: the log has grown accordingly, and the status last shown has a
      bit of the mask. */
  ghost predicate Polled(log0: seq<Step>, s0: State, log1: seq<Step>, s1: State, mask: u8, polls: nat) {
    && |log1| == |log0| + 2 * polls
    && (if polls == 0 then log1 == log0 && s1 == s0 else s0.mode == ReadStatus ==> And(s1.status, mask) != 0)
  }

  /** What is known of the end of an operation: nothing, or that it ends well after at most `delay` ticks, while time
      passes between the polls only. */
  datatype Pace = Unknown | Known(delay: nat, since: nat, period: nat)

  /** What so many polls since state s0 and log log0 have shown. */
  ghost predicate Waits(l: Layout, log0: seq<Step>, s0: State, log1: seq<Step>, s1: State, mask: u8, polls: nat,
                        pace: Pace, age: nat, t: nat) {
    && Drifts(log0, s0, log1, s1) && s1.mode == s0.mode
    && (s0.mode == ReadStatus ==> Quiet(l, log0, s0, log1, s1) && Reported(s0, s1))
    && Polled(log0, s0, log1, s1, mask, polls)
    && (pace.Known? ==> OnTime(s0, s1, mask, polls, pace, age, t))
  }

  /** The operation is running, and not overdue at time t. */
  ghost predicate OnTime(s0: State, s1: State, mask: u8, polls: nat, pace: Pace, age: nat, t: nat)
    requires pace.Known?
  {
    && s0.mode == ReadStatus && s0.work.Busy? && mask == BusyBit(s0.work.kind) && s1.work == s0.work
    && age == polls && (polls > 0 ==> polls <= pace.delay)
    && t == pace.since + Times(polls, pace.period)
  }

  lemma NotWaited(l: Layout, log: seq<Step>, s: State, mask: u8, pace: Pace, age: nat, t: nat)
    requires pace.Known? ==> s.mode == ReadStatus && s.work.Busy? && mask == BusyBit(s.work.kind)
    requires pace.Known? ==> age == 0 && t == pace.since
    ensures Waits(l, log, s, log, s, mask, 0, pace, age, t)
  {
    hide Quiet, Drifts;
    NoDrift(log, s);
    NothingQuiet(l, log, s);
  }

  /** One more poll. */
  lemma WaitsMore(l: Layout, log0: seq<Step>, s0: State, log1: seq<Step>, s1: State, mask: u8, polls: nat,
                  pace: Pace, age: nat, t: nat, log2: seq<Step>, s2: State, age2: nat, t2: nat)
    requires Waits(l, log0, s0, log1, s1, mask, polls, pace, age, t)
    requires Drifts(log1, s1, log2, s2) && s2.mode == s1.mode && |log2| == |log1| + 2
    requires StatusShows(s2.status, s2.work)
    requires s0.mode == ReadStatus ==> Quiet(l, log1, s1, log2, s2) && Elapses(s1, s2)
    requires pace.Known? ==> t2 == t + pace.period && (s2.work.Busy? ==> age2 == age + 1 <= pace.delay)
    ensures Drifts(log0, s0, log2, s2) && |log2| == |log0| + 2 * polls + 2
    ensures s0.mode == ReadStatus ==> Quiet(l, log0, s0, log2, s2) && Reported(s0, s2)
    ensures (s0.mode == ReadStatus ==> And(s2.status, mask) != 0) ==>
              Waits(l, log0, s0, log2, s2, mask, polls + 1, pace, age2, t2)
    ensures pace.Known? && And(s2.status, mask) == 0 ==> s1.work.Busy? && !s2.work.Busy?
  {
    hide Quiet, Drifts, And, Reported, StatusShows, BusyBit, Elapses;
    DriftsTrans(log0, s0, log1, s1, log2, s2);
    BusyShows(s2.status, s2.work);
    if s0.mode == ReadStatus {
      QuietTrans(l, log0, s0, log1, s1, log2, s2);
      QuietWork(l, log0, s0, log2, s2);
      StillReported(l, log0, s0, log1, s1, s2);
    }
  }

  lemma WaitsShows(l: Layout, log0: seq<Step>, s0: State, log1: seq<Step>, s1: State, mask: u8, polls: nat,
                   pace: Pace, age: nat, t: nat)
    requires Waits(l, log0, s0, log1, s1, mask, polls, pace, age, t)
    ensures s1.mode == s0.mode
    ensures pace.Known? ==> s0.mode == ReadStatus && t <= pace.since + Times(pace.delay, pace.period)
  {
    hide Quiet, Drifts, And, Reported;
    if pace.Known? && polls > 0 {
      TimesOrder(polls, pace.delay, pace.period);
    }
  }

  /** How polling for the mask bits ends. The status was read before each of the waits. Success means that the bits
      are clear, and that the context is not done; an error of the context that it was done, or late, at the first
      look, or that the status last read shows a bit. An operation known to end well and in time was seen to end,
      unless the bus failed or the context was done. */
  ghost predicate PollEnds(l: Layout, log0: seq<Step>, s0: State, log1: seq<Step>, s1: State, mask: u8, status: u8,
                           err: Error, done: ContextError, since: nat, now: nat, timeout: nat, waits: int,
                           pace: Pace) {
    && Drifts(log0, s0, log1, s1) && s1.mode == s0.mode
    && (s0.mode == ReadStatus ==>
          Quiet(l, log0, s0, log1, s1) && Reported(s0, s1) && (err == Nil ==> status == s1.status))
    && (err == Nil || err == ErrIo || Expired(err, done, since, now, timeout))
    && (err == Nil ==> And(status, mask) == 0 && done == Nil)
    && |log1| == |log0| + 2 * waits + (if err == Nil || err == ErrIo then 2 else 0)
    && (err != Nil && err != ErrIo ==>
          (log1 == log0 && s1 == s0) || (s0.mode == ReadStatus ==> And(s1.status, mask) != 0))
    && (pace.Known? ==> (err == Nil && s1.work.Idle?) || err == ErrIo || (done != Nil && err == done))
  }

  /** The context ends it. */
  lemma WaitsEnd(l: Layout, log0: seq<Step>, s0: State, log1: seq<Step>, s1: State, mask: u8, polls: nat,
                 pace: Pace, age: nat, t: nat, status: u8, err: Error, done: ContextError, since: nat, now: nat,
                 timeout: nat)
    requires Waits(l, log0, s0, log1, s1, mask, polls, pace, age, t)
    requires err != Nil && Expired(err, done, since, now, timeout)
    requires pace.Known? ==> t == now && pace.since == since && Times(pace.delay, pace.period) < timeout
    ensures PollEnds(l, log0, s0, log1, s1, mask, status, err, done, since, now, timeout, polls, pace)
  {
    hide Quiet, Drifts, And, Reported;
    WaitsShows(l, log0, s0, log1, s1, mask, polls, pace, age, t);
  }

  lemma PollShows(l: Layout, log0: seq<Step>, s0: State, log1: seq<Step>, s1: State, mask: u8, status: u8,
                  err: Error, done: ContextError, since: nat, now: nat, timeout: nat, waits: int, pace: Pace)
    requires PollEnds(l, log0, s0, log1, s1, mask, status, err, done, since, now, timeout, waits, pace)
    ensures Drifts(log0, s0, log1, s1) && s1.mode == s0.mode
    ensures s0.mode == ReadStatus ==>
              Quiet(l, log0, s0, log1, s1) && Reported(s0, s1) && (err == Nil ==> status == s1.status)
    ensures err == Nil || err == ErrIo || Expired(err, done, since, now, timeout)
    ensures err != ErrOperationNOK
    ensures err == Nil ==> And(status, mask) == 0 && done == Nil
    ensures err != Nil && err != ErrIo ==> |log1| == |log0| + 2 * waits
  {
    hide Quiet, Drifts, And, Reported;
  }

  /** Polling for the end of the operation that runs. */
  lemma EndPolled(l: Layout, log0: seq<Step>, s0: State, log1: seq<Step>, s1: State, mask: u8, status: u8,
                  err: Error, done: ContextError, since: nat, now: nat, timeout: nat, waits: int, pace: Pace)
    requires PollEnds(l, log0, s0, log1, s1, mask, status, err, done, since, now, timeout, waits, pace)
    requires s0.mode == ReadStatus && s0.work.Busy? && mask == BusyBit(s0.work.kind)
    requires StatusShows(s1.status, s1.work)
    ensures err != Nil && err != ErrIo ==> s1.work.Busy?
    ensures pace.Known? ==>
              (err == Nil && Succeeded(s1.status, s0.work.kind)) || err == ErrIo || (done != Nil && err == done)
  {
    hide Quiet, Drifts, And, Expired, Succeeded;
    BusyShows(s1.status, s1.work);
  }

  /** The acts that neither start an operation nor write cells: all but two commands. */
  predicate Harmless(act: Act) {
    act.Cir? ==> Opcode(act.word) != CMD_ERASE && Opcode(act.word) != CMD_PROGRAM_PAGE
  }

  lemma DriftStep(l: Layout, clearsOnly: bool, log0: seq<Step>, s0: State, act: Act, log1: seq<Step>, s1: State)
    requires Transaction(l, clearsOnly, log0, s0, act, log1, s1) && Harmless(act)
    ensures Drifts(log0, s0, log1, s1)
    ensures !act.Cir? ==> s1.mode == s0.mode
  {
    hide Opcode, PageField, StatusShows;
    var mid := log1[|log0|].post;
    TickDrifts(s0, mid);
    HarmlessDrifts(l, clearsOnly, mid, act, s1);
    UntouchedTrans(s0, mid, s1);
    assert log1[|log0|].post == mid && log1[|log0| + 1].post == s1;
  }

  lemma TickDrifts(a: State, b: State)
    requires Elapses(a, b)
    ensures Untouched(a, b) && b.mode == a.mode
  {
  }

  lemma HarmlessDrifts(l: Layout, clearsOnly: bool, a: State, act: Act, b: State)
    requires Next(l, clearsOnly, Step(a, act, b)) && Harmless(act)
    ensures Untouched(a, b)
    ensures !act.Cir? ==> b.mode == a.mode
  {
    hide StatusShows, And, Times, Pow2, RoundDown;
  }

  /** From s0 to s1 at most one operation was started, that on u; no cells were written outside u and outside
      the unit of an operation running in s0. */
  ghost predicate Fenced(log0: seq<Step>, s0: State, log1: seq<Step>, s1: State, u: Unit) {
    && log0 <= log1
    && FrameAround(s0, s1.mem, u.lo, u.hi)
    && (s1.started == s0.started || s1.started == s0.started + [u])
    && (s1.work.Busy? ==> s1.work == s0.work || (s1.work.lo == u.lo && s1.work.hi == u.hi))
    && forall k :: |log0| <= k < |log1| ==> FrameAround(s0, log1[k].post.mem, u.lo, u.hi)
  }

  lemma DriftsFenced(log0: seq<Step>, s0: State, log1: seq<Step>, s1: State, u: Unit)
    requires Drifts(log0, s0, log1, s1)
    ensures Fenced(log0, s0, log1, s1, u)
  {
    forall k | |log0| <= k < |log1|
      ensures FrameAround(s0, log1[k].post.mem, u.lo, u.hi)
    {
      assert Untouched(s0, log1[k].post);
    }
  }

  lemma FencedDrifts(log0: seq<Step>, s0: State, log1: seq<Step>, s1: State, log2: seq<Step>, s2: State, u: Unit)
    requires Fenced(log0, s0, log1, s1, u) && Drifts(log1, s1, log2, s2)
    ensures Fenced(log0, s0, log2, s2, u)
  {
    forall k | |log0| <= k < |log2|
      ensures FrameAround(s0, log2[k].post.mem, u.lo, u.hi)
    {
      if k < |log1| {
        assert log2[k] == log1[k];
      } else {
        assert Untouched(s1, log2[k].post);
      }
    }
  }

  /** A command that starts the operation on u, or is ignored. */
  lemma FencedStart(l: Layout, clearsOnly: bool, log0: seq<Step>, s0: State, log1: seq<Step>, s1: State, act: Act,
                    log2: seq<Step>, s2: State, u: Unit, result: seq<u8>)
    requires Drifts(log0, s0, log1, s1) && Transaction(l, clearsOnly, log1, s1, act, log2, s2)
    requires var mid := log2[|log1|].post; s2 == mid || Starts(mid, u.kind, u.lo, u.hi, result, s2)
    ensures Fenced(log0, s0, log2, s2, u)
  {
    hide Next;
    var mid := log2[|log1|].post;
    assert Untouched(s0, mid) by {
      assert Elapses(s1, mid) by {
        TickIs(l, clearsOnly, log2[|log1|]);
      }
      TickDrifts(s1, mid);
      UntouchedTrans(s0, s1, mid);
    }
    forall k | |log0| <= k < |log2|
      ensures FrameAround(s0, log2[k].post.mem, u.lo, u.hi)
    {
      if k < |log1| {
        assert log2[k] == log1[k] && Untouched(s0, log1[k].post);
      }
    }
  }

  lemma TickIs(l: Layout, clearsOnly: bool, st: Step)
    requires Next(l, clearsOnly, st) && st.act == Tick
    ensures Elapses(st.pre, st.post)
  {
  }
}
