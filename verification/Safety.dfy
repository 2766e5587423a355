/** What holds of the chip at every step of a write, whether or not it succeeds. */
module Safety {
  import opened Bits
  import opened Errors
  import opened Wrappers
  import opened Layout
  import opened FlashChip
  import opened Protocol
  import opened Sectors

  /** A write job: the image it starts from, the operations started until then, the image it is to produce, and
      the pages it may touch. */
  datatype Job = Job(before: seq<u8>, started: seq<Unit>, target: seq<u8>, begin: nat, end: nat)

  predicate JobFits(l: Layout, j: Job) {
    && j.begin <= j.end <= l.TotalPages()
    && |j.before| == |j.target| == l.ChipSize()
  }

  /** A page is as before, blank, or as it is to be. */
  ghost predicate PageSettled(l: Layout, j: Job, mem: seq<u8>, page: nat) {
    || PageOf(l, mem, page) == PageOf(l, j.before, page)
    || IsBlank(PageOf(l, mem, page))
    || PageOf(l, mem, page) == PageOf(l, j.target, page)
  }

  /** A page belongs to the unit of the operation the job started last, which is running or has failed. */
  predicate Covered(l: Layout, j: Job, s: State, page: nat) {
    && |s.started| > |j.started|
    && var u := s.started[|s.started| - 1];
    && InFlight(s.work, u.lo, u.hi)
    && u.lo <= l.PageStart(page) && l.PageStart(page) + l.PageSize() <= u.hi
  }

  ghost predicate Intact(l: Layout, j: Job, mem: seq<u8>) {
    && SameOutside(j.before, mem, l.PageStart(j.begin), l.PageStart(j.end))
    && forall p :: j.begin <= p < j.end ==> PageSettled(l, j, mem, p)
  }

  /** Nothing outside the job's pages has changed, and nothing at all before its first operation was started;
      each of its pages is old, blank or new, except in the unit of the operation started last, as long as that
      runs or if it failed. */
  ghost predicate Safe(l: Layout, j: Job, s: State) {
    && j.started <= s.started
    && (s.started == j.started ==> s.mem == j.before)
    && SameOutside(j.before, s.mem, l.PageStart(j.begin), l.PageStart(j.end))
    && forall p :: j.begin <= p < j.end ==> Covered(l, j, s, p) || PageSettled(l, j, s.mem, p)
  }

  lemma SafeAtFirst(l: Layout, j: Job, s: State)
    requires s.mem == j.before && s.started == j.started
    ensures Safe(l, j, s)
  {
  }

  /** Disciplined steps after each of which the chip is safe, up to the state s1, safe as well. */
  ghost predicate SafeRun(l: Layout, j: Job, log0: seq<Step>, log1: seq<Step>, s1: State, rule: Rule) {
    && log0 <= log1
    && Safe(l, j, s1)
    && forall k :: |log0| <= k < |log1| ==> Safe(l, j, log1[k].post) && Disciplined(l, rule, log1[k])
  }

  lemma SafeRunTrans(l: Layout, j: Job, log0: seq<Step>, log1: seq<Step>, s1: State, log2: seq<Step>, s2: State,
                     rule: Rule)
    requires SafeRun(l, j, log0, log1, s1, rule) && SafeRun(l, j, log1, log2, s2, rule)
    ensures SafeRun(l, j, log0, log2, s2, rule)
  {
    hide Safe, Disciplined;
    forall k | |log0| <= k < |log2|
      ensures Safe(l, j, log2[k].post) && Disciplined(l, rule, log2[k])
    {
      if k < |log1| {
        assert log2[k] == log1[k];
      }
    }
  }

  lemma SafeAtLast(l: Layout, j: Job, log0: seq<Step>, log1: seq<Step>, s1: State, rule: Rule)
    requires SafeRun(l, j, log0, log1, s1, rule)
    ensures Safe(l, j, s1)
  {
  }

  /** What obeys a rule obeys every weaker one. */
  lemma Lenient(l: Layout, j: Job, log0: seq<Step>, log1: seq<Step>, s1: State, r: Rule, q: Rule)
    requires SafeRun(l, j, log0, log1, s1, r) && Weaker(q, r)
    ensures SafeRun(l, j, log0, log1, s1, q)
  {
    hide Safe;
  }

  /** A unit of whole pages [first, last) of the job, to become `result`, which is blank or the target. */
  predicate UnitOfJob(l: Layout, j: Job, u: Unit, first: nat, last: nat, result: seq<u8>) {
    && j.begin <= first < last <= j.end
    && u.lo == l.PageStart(first) && u.hi == l.PageStart(last)
    && u.lo + |result| == u.hi <= |j.target|
    && (IsBlank(result) || result == j.target[u.lo..u.hi])
  }

  lemma BlankUnit(l: Layout, j: Job, first: nat, last: nat)
    requires JobFits(l, j) && j.begin <= first < last <= j.end
    ensures l.PageStart(first) <= l.PageStart(last)
    ensures UnitOfJob(l, j, Unit(EraseOp, l.PageStart(first), l.PageStart(last)), first, last,
                      Blank(l.PageStart(last) - l.PageStart(first)))
  {
    PageStartOrder(l, first, last);
    PageStartOrder(l, last, l.TotalPages());
    PageStartTotal(l);
  }

  lemma PageUnitOfJob(l: Layout, j: Job, p: nat, page: seq<u8>)
    requires JobFits(l, j) && j.begin <= p < j.end && |page| == l.PageSize()
    requires page == PageOf(l, j.target, p)
    ensures UnitOfJob(l, j, Unit(ProgramOp, l.PageStart(p), l.PageStart(p) + l.PageSize()), p, p + 1, page)
  {
    PageBounds(l, p);
  }

  /** Inside one unit at a time, an intact image stays safe. */
  lemma UnitIsSafe(l: Layout, j: Job, s0: State, u: Unit, first: nat, last: nat, result: seq<u8>, s: State)
    requires JobFits(l, j) && Safe(l, j, s0) && Intact(l, j, s0.mem) && UnitOfJob(l, j, u, first, last, result)
    requires UnitState(s0, u, result, s)
    ensures Safe(l, j, s)
  {
    hide PageSettled, Covered;
    PageStartOrder(l, j.begin, first);
    PageStartOrder(l, last, j.end);
    forall p | j.begin <= p < j.end
      ensures Covered(l, j, s, p) || PageSettled(l, j, s.mem, p)
    {
      if s.started != s0.started {
        PageInUnit(l, j, s0, u, first, last, result, s, p);
      }
    }
  }

  lemma PageInUnit(l: Layout, j: Job, s0: State, u: Unit, first: nat, last: nat, result: seq<u8>, s: State, p: nat)
    requires JobFits(l, j) && |j.started| <= |s0.started| && Intact(l, j, s0.mem)
    requires UnitOfJob(l, j, u, first, last, result) && s.started != s0.started
    requires UnitState(s0, u, result, s) && j.begin <= p < j.end
    ensures Covered(l, j, s, p) || PageSettled(l, j, s.mem, p)
  {
    hide Times, Pow2, RoundDown, Layout.PageStart, Layout.TotalPages, Layout.PageSize, IsBlank;
    PageBounds(l, p);
    assert PageSettled(l, j, s0.mem, p);
    var lo, hi := l.PageStart(p), l.PageStart(p) + l.PageSize();
    if p < first || last <= p {
      assert hi <= u.lo || u.hi <= lo by {
        if p < first {
          PageStartOrder(l, p, first);
        } else {
          PageStartOrder(l, last, p);
        }
      }
      assert PageOf(l, s.mem, p) == PageOf(l, s0.mem, p);
    } else {
      assert u.lo <= lo && hi <= u.hi by {
        PageStartOrder(l, first, p);
        PageStartOrder(l, p, last);
      }
      if s.mem[u.lo..u.hi] == result {
        if IsBlank(result) {
          BlankSlice(s.mem, u.lo, u.hi, lo, hi);
        } else {
          SameSlice(s.mem, j.target, u.lo, u.hi, lo, hi);
        }
      }
    }
  }

  lemma SameSlice(m: seq<u8>, n: seq<u8>, a: nat, d: nat, b: nat, c: nat)
    requires a <= b <= c <= d <= |m| && d <= |n| && m[a..d] == n[a..d]
    ensures m[b..c] == n[b..c]
  {
    forall i | b <= i < c
      ensures m[i] == n[i]
    {
      assert m[i] == m[a..d][i - a] && n[i] == n[a..d][i - a];
    }
  }

  lemma BlankSlice(m: seq<u8>, a: nat, d: nat, b: nat, c: nat)
    requires a <= b <= c <= d <= |m| && IsBlank(m[a..d])
    ensures IsBlank(m[b..c])
  {
    forall i | b <= i < c
      ensures m[i] == 0xff
    {
      assert m[i] == m[a..d][i - a];
    }
  }

  /** The steps of one operation on a unit are safe. */
  lemma ConfinedIsSafe(l: Layout, j: Job, log0: seq<Step>, s0: State, log1: seq<Step>, s1: State,
                       u: Unit, first: nat, last: nat, result: seq<u8>, rule: Rule)
    requires JobFits(l, j) && Safe(l, j, s0) && Intact(l, j, s0.mem) && UnitOfJob(l, j, u, first, last, result)
    requires Confined(l, log0, s0, log1, s1, u, result, rule)
    ensures SafeRun(l, j, log0, log1, s1, rule)
  {
    hide UnitState, Safe, Intact, UnitOfJob, Disciplined;
    UnitIsSafe(l, j, s0, u, first, last, result, s1);
    forall k | |log0| <= k < |log1|
      ensures Safe(l, j, log1[k].post) && Disciplined(l, rule, log1[k])
    {
      UnitIsSafe(l, j, s0, u, first, last, result, log1[k].post);
    }
  }

  /** Loading a page keeps a safe chip safe. */
  lemma LoadingIsSafe(l: Layout, j: Job, log0: seq<Step>, s0: State, log1: seq<Step>, s1: State, rule: Rule)
    requires Safe(l, j, s0) && Intact(l, j, s0.mem) && Loading(l, log0, s0, log1, s1, rule)
    ensures SafeRun(l, j, log0, log1, s1, rule)
  {
  }

  /** A partly erased job is intact. */
  lemma ErasedIntact(l: Layout, j: Job, mem: seq<u8>, p: nat)
    requires JobFits(l, j) && j.begin <= p <= j.end
    requires Erased(l, j, mem, p)
    ensures Intact(l, j, mem)
  {
    hide PageSettled;
    forall q | j.begin <= q < j.end
      ensures PageSettled(l, j, mem, q)
    {
      ErasedPage(l, j, mem, p, q);
    }
  }

  lemma ErasedPage(l: Layout, j: Job, mem: seq<u8>, p: nat, q: nat)
    requires JobFits(l, j) && j.begin <= p <= j.end && j.begin <= q < j.end
    requires Erased(l, j, mem, p)
    ensures PageSettled(l, j, mem, q)
  {
    hide Replace, Blank, IsBlank, Times, Pow2;
    PageBounds(l, q);
    PageStartOrder(l, j.begin, q);
    if q < p {
      PageStartOrder(l, q + 1, p);
    } else {
      PageStartOrder(l, p, q);
    }
    BlankedSlice(j.before, l.PageStart(j.begin), l.PageStart(p), l.PageStart(q), l.PageStart(q) + l.PageSize());
  }

  lemma BlankedSlice(mem: seq<u8>, lo: nat, mid: nat, a: nat, b: nat)
    requires lo <= mid <= |mem| && a <= b <= |mem|
    ensures lo <= a && b <= mid ==> IsBlank(Replace(mem, lo, Blank(mid - lo))[a..b])
    ensures mid <= a ==> Replace(mem, lo, Blank(mid - lo))[a..b] == mem[a..b]
  {
  }

  /** A partly programmed job: target up to page p, blank from there on. */
  ghost predicate ProgrammedUpTo(l: Layout, j: Job, mem: seq<u8>, p: nat) {
    && l.PageStart(j.begin) <= l.PageStart(p) <= l.PageStart(j.end) <= |j.before| == |j.target| == |mem|
    && SameOutside(j.before, mem, l.PageStart(j.begin), l.PageStart(j.end))
    && (forall i :: l.PageStart(j.begin) <= i < l.PageStart(p) ==> mem[i] == j.target[i])
    && (forall i :: l.PageStart(p) <= i < l.PageStart(j.end) ==> mem[i] == 0xff)
  }

  lemma ProgrammedIntact(l: Layout, j: Job, mem: seq<u8>, p: nat)
    requires JobFits(l, j) && j.begin <= p <= j.end && ProgrammedUpTo(l, j, mem, p)
    ensures Intact(l, j, mem)
  {
    forall q | j.begin <= q < j.end
      ensures PageSettled(l, j, mem, q)
    {
      PageBounds(l, q);
      PageStartOrder(l, j.begin, q);
      if q < p {
        PageStartOrder(l, q, p);
        assert PageOf(l, mem, q) == PageOf(l, j.target, q);
      } else {
        PageStartOrder(l, p, q);
        PageStartOrder(l, q, j.end);
        assert IsBlank(PageOf(l, mem, q));
      }
    }
  }

  /** One more sector erased. */
  lemma EraseMore(l: Layout, j: Job, mem: seq<u8>, p: nat, q: nat)
    requires JobFits(l, j) && j.begin <= p < q <= j.end
    requires Erased(l, j, mem, p)
    ensures l.PageStart(p) <= l.PageStart(q) <= |mem|
    ensures Erased(l, j, Replace(mem, l.PageStart(p), Blank(l.PageStart(q) - l.PageStart(p))), q)
  {
    hide Replace, Blank;
    PageStartOrder(l, j.begin, p);
    PageStartOrder(l, p, q);
    PageStartOrder(l, q, j.end);
    BlankJoin(j.before, l.PageStart(j.begin), l.PageStart(p), l.PageStart(q));
  }

  /** The job's pages before p are blank, all else is as before. */
  ghost predicate Erased(l: Layout, j: Job, mem: seq<u8>, p: nat) {
    && l.PageStart(j.begin) <= l.PageStart(p) <= l.PageStart(j.end) <= |j.before|
    && mem == Replace(j.before, l.PageStart(j.begin), Blank(l.PageStart(p) - l.PageStart(j.begin)))
  }

  lemma JobBounds(l: Layout, j: Job)
    requires JobFits(l, j)
    ensures l.PageStart(j.begin) <= l.PageStart(j.end) <= l.ChipSize()
    ensures Erased(l, j, j.before, j.begin)
  {
    PageStartOrder(l, j.begin, j.end);
    PageStartOrder(l, j.end, l.TotalPages());
    PageStartTotal(l);
    assert Replace(j.before, l.PageStart(j.begin), Blank(0)) == j.before;
  }

  /** What sector data is programmed as: its first page is loaded over what the page buffer holds, every later
      one over the blank buffer programming leaves. */
  function Burned(clearsOnly: bool, buf: seq<u8>, data: seq<u8>): (r: seq<u8>)
    ensures |r| == |data|
  {
    if |data| < |buf| then data else Loaded(clearsOnly, buf, 0, data[..|buf|]) + data[|buf|..]
  }

  /** Sector data is programmed as it is exactly when no bit of its first page is lost in the page buffer: when
      buffer writes take any value, or when the buffer has every bit set that the page has. */
  lemma BurnedExactly(clearsOnly: bool, buf: seq<u8>, data: seq<u8>)
    requires |data| >= |buf|
    ensures Burned(clearsOnly, buf, data) == data
            <==> !clearsOnly || forall i :: 0 <= i < |buf| ==> And(buf[i], data[i]) == data[i]
  {
    var r := Burned(clearsOnly, buf, data);
    assert forall i :: 0 <= i < |buf| ==> r[i] == Loaded(clearsOnly, buf, 0, data[..|buf|])[i];
    assert forall i :: |buf| <= i < |data| ==> r[i] == data[i];
  }

  /** No data is altered exactly when buffer writes take any value or the buffer is blank. */
  lemma BurnedAlways(clearsOnly: bool, buf: seq<u8>)
    ensures (forall data :: |data| >= |buf| ==> Burned(clearsOnly, buf, data) == data)
            <==> !clearsOnly || IsBlank(buf)
  {
    if !clearsOnly || IsBlank(buf) {
      forall data: seq<u8> | |data| >= |buf|
        ensures Burned(clearsOnly, buf, data) == data
      {
        BurnedExactly(clearsOnly, buf, data);
        if clearsOnly {
          forall i | 0 <= i < |buf|
            ensures And(buf[i], data[i]) == data[i]
          {
            AndOnes8(data[i]);
          }
        }
      }
    } else {
      var data := Blank(|buf|);
      BurnedExactly(clearsOnly, buf, data);
      var i :| 0 <= i < |buf| && buf[i] != 0xff;
      AndOnes8(buf[i]);
      assert And(buf[i], data[i]) != data[i];
    }
  }

  /** What a load leaves in the page buffer is the page of the target to be programmed next. */
  lemma LoadedIsTarget(l: Layout, j: Job, clearsOnly: bool, buf0: seq<u8>, data: seq<u8>,
                       p: nat, idx: nat, buf: seq<u8>)
    requires JobFits(l, j) && j.begin <= p < j.end
    requires l.PageStart(j.begin) + |data| == l.PageStart(j.end) && l.PageStart(j.begin) + idx == l.PageStart(p)
    requires l.PageStart(j.end) <= |j.before|
    requires j.target == Replace(j.before, l.PageStart(j.begin), Burned(clearsOnly, buf0, data))
    requires |buf| == |buf0| == l.PageSize() && if p == j.begin then buf == buf0 else IsBlank(buf)
    ensures idx + l.PageSize() <= |data|
    ensures Loaded(clearsOnly, buf, 0, data[idx..idx + l.PageSize()]) == PageOf(l, j.target, p)
  {
    hide Loaded, Replace, Burned, IsBlank;
    var burned := Burned(clearsOnly, buf0, data);
    PageStartOrder(l, p, j.end);
    PageStartOrder(l, j.begin, p);
    var n := l.PageSize();
    assert burned[idx..idx + n] == PageOf(l, j.target, p) by {
      DataOfPage(l, j, burned, p, idx);
    }
    if p == j.begin {
      BurnedParts(clearsOnly, buf0, data, 0);
    } else {
      PageStartOrder(l, j.begin + 1, p);
      PageBounds(l, j.begin);
      BurnedParts(clearsOnly, buf0, data, idx);
      LoadedWhole(clearsOnly, buf, data[idx..idx + n]);
    }
  }

  lemma BurnedParts(clearsOnly: bool, buf: seq<u8>, data: seq<u8>, idx: nat)
    requires idx + |buf| <= |data|
    ensures idx == 0 ==> Burned(clearsOnly, buf, data)[..|buf|] == Loaded(clearsOnly, buf, 0, data[..|buf|])
    ensures idx >= |buf| ==> Burned(clearsOnly, buf, data)[idx..idx + |buf|] == data[idx..idx + |buf|]
  {
    hide Loaded;
  }

  /** A whole page loaded into a blank buffer is what the buffer holds. */
  lemma LoadedWhole(clearsOnly: bool, buf: seq<u8>, data: seq<u8>)
    requires |data| == |buf| && IsBlank(buf)
    ensures Loaded(clearsOnly, buf, 0, data) == data
  {
    forall i | 0 <= i < |data|
      ensures Loaded(clearsOnly, buf, 0, data)[i] == data[i]
    {
      AndOnes8(data[i]);
    }
  }

  /** Programming blank cells writes the page buffer. */
  lemma ProgrammedBlank(cells: seq<u8>, buf: seq<u8>)
    requires |cells| == |buf| && IsBlank(cells)
    ensures Programmed(cells, buf) == buf
  {
    forall i | 0 <= i < |cells|
      ensures Programmed(cells, buf)[i] == buf[i]
    {
      AndOnes8(buf[i]);
    }
  }

  /** The next page of a job being programmed is blank. */
  lemma NextPageBlank(l: Layout, j: Job, mem: seq<u8>, p: nat)
    requires JobFits(l, j) && j.begin <= p < j.end && ProgrammedUpTo(l, j, mem, p)
    ensures l.PageStart(p) + l.PageSize() == l.PageStart(p + 1) <= l.PageStart(j.end) <= |mem|
    ensures IsBlank(mem[l.PageStart(p)..l.PageStart(p) + l.PageSize()])
  {
    PageStartOrder(l, p, j.end);
  }

  lemma ProgramMore(l: Layout, j: Job, mem: seq<u8>, p: nat, page: seq<u8>)
    requires JobFits(l, j) && j.begin <= p < j.end && ProgrammedUpTo(l, j, mem, p)
    requires |page| == l.PageSize() && l.PageStart(p) + l.PageSize() <= |mem|
    requires page == j.target[l.PageStart(p)..l.PageStart(p) + l.PageSize()]
    ensures ProgrammedUpTo(l, j, Replace(mem, l.PageStart(p), page), p + 1)
  {
    NextPageBlank(l, j, mem, p);
    var lo, r := l.PageStart(p), Replace(mem, l.PageStart(p), page);
    forall i | lo <= i < lo + |page|
      ensures r[i] == j.target[i]
    {
      assert r[i] == page[i - lo];
    }
  }

  /** The part of the sector data for a page is the target's page. */
  lemma DataOfPage(l: Layout, j: Job, data: seq<u8>, p: nat, idx: nat)
    requires JobFits(l, j) && j.begin <= p < j.end
    requires l.PageStart(j.begin) + |data| == l.PageStart(j.end) && l.PageStart(j.begin) + idx == l.PageStart(p)
    requires l.PageStart(j.end) <= |j.before| && j.target == Replace(j.before, l.PageStart(j.begin), data)
    ensures idx + l.PageSize() <= |data| && data[idx..idx + l.PageSize()] == PageOf(l, j.target, p)
  {
    PageStartOrder(l, p, j.end);
  }

  lemma ErasedProgrammed(l: Layout, j: Job, mem: seq<u8>)
    requires JobFits(l, j) && Erased(l, j, mem, j.end)
    ensures ProgrammedUpTo(l, j, mem, j.begin)
  {
  }

  /** What the erase loop has done when it comes to page p. */
  ghost predicate Erasing(l: Layout, j: Job, log0: seq<Step>, s0: State, log1: seq<Step>, s1: State, p: nat) {
    && SafeRun(l, j, log0, log1, s1, Strict)
    && s1.started == s0.started + SectorUnits(l, j.begin, p)
    && StartedPart(s0.started, s1.started, SectorUnits(l, j.begin, j.end))
  }

  lemma ErasingShows(l: Layout, j: Job, log0: seq<Step>, s0: State, log1: seq<Step>, s1: State, p: nat)
    requires Erasing(l, j, log0, s0, log1, s1, p)
    ensures SafeRun(l, j, log0, log1, s1, Strict)
    ensures StartedPart(s0.started, s1.started, SectorUnits(l, j.begin, j.end)) && |s0.started| <= |s1.started|
    ensures p == j.end ==> s1.started == s0.started + SectorUnits(l, j.begin, j.end)
  {
    hide SafeRun, StartedPart;
  }

  lemma NothingErased(l: Layout, j: Job, log: seq<Step>, s: State)
    requires Safe(l, j, s)
    ensures Erasing(l, j, log, s, log, s, j.begin)
  {
    hide Safe;
    assert s.started + [] == s.started;
  }

  /** What the program loop has done when it comes to page p. */
  ghost predicate Programming(l: Layout, j: Job, log0: seq<Step>, s0: State, log1: seq<Step>, s1: State, p: nat,
                              rule: Rule) {
    && SafeRun(l, j, log0, log1, s1, rule)
    && s1.started == s0.started + PageUnits(l, j.begin, p)
    && StartedPart(s0.started, s1.started, PageUnits(l, j.begin, j.end))
    && (if p == j.begin then s1.buf == s0.buf else IsBlank(s1.buf))
  }

  lemma ProgrammingShows(l: Layout, j: Job, log0: seq<Step>, s0: State, log1: seq<Step>, s1: State, p: nat, rule: Rule)
    requires Programming(l, j, log0, s0, log1, s1, p, rule)
    ensures SafeRun(l, j, log0, log1, s1, rule)
    ensures StartedPart(s0.started, s1.started, PageUnits(l, j.begin, j.end)) && |s0.started| <= |s1.started|
    ensures p == j.end ==> s1.started == s0.started + PageUnits(l, j.begin, j.end)
    ensures p == j.begin ==> s1.started == s0.started && s1.buf == s0.buf
    ensures p != j.begin ==> IsBlank(s1.buf)
    ensures MayLoad(rule, s0) ==> MayLoad(rule, s1)
  {
    hide SafeRun, IsBlank, StartedPart;
    NoPagesStarted(l, j.begin, j.end, s0.started);
  }

  lemma NothingProgrammed(l: Layout, j: Job, log: seq<Step>, s: State, rule: Rule)
    requires Safe(l, j, s)
    ensures Programming(l, j, log, s, log, s, j.begin, rule)
  {
    hide Safe, StartedPart;
    NoPagesStarted(l, j.begin, j.end, s.started);
  }

  /** A job programmed to its end has reached its target. */
  lemma ProgrammedTarget(l: Layout, j: Job, mem: seq<u8>, data: seq<u8>)
    requires JobFits(l, j) && ProgrammedUpTo(l, j, mem, j.end)
    requires l.PageStart(j.begin) + |data| == l.PageStart(j.end)
    requires j.target == Replace(j.before, l.PageStart(j.begin), data)
    ensures mem == j.target
  {
  }

  // ---------------------------------------------------------------- whole writes

  /** The image with data at the position the driver computes for it. */
  function Spliced(l: Layout, mem: seq<u8>, offset: int, data: seq<u8>): (r: seq<u8>)
    requires l.Fits() && l.ValidateOffsetSize(offset, |data|) == Nil && |mem| == l.ChipSize()
    ensures |r| == |mem|
  {
    WriteRanges(l, offset, |data|);
    Replace(mem, SplicePosition(l, offset), data)
  }

  /** The job of writing data at offset on a chip in state s. */
  function WriteJob(l: Layout, clearsOnly: bool, s: State, offset: int, data: seq<u8>): (j: Job)
    requires l.Fits() && l.ValidateOffsetSize(offset, |data|) == Nil && |s.mem| == l.ChipSize()
    ensures JobFits(l, j) && Aligned(l, j.begin) && Aligned(l, j.end)
    ensures j.before == s.mem && j.started == s.started
  {
    WriteRanges(l, offset, |data|);
    var c := l.ConvertAddressRange(offset, |data|).value;
    var b := l.PageRangeSectorBoundaries(c.begin, c.end).value;
    var spliced, lo, hi := Spliced(l, s.mem, offset, data), l.PageStart(b.begin), l.PageStart(b.end);
    Job(s.mem, s.started, Replace(spliced, lo, Burned(clearsOnly, s.buf, spliced[lo..hi])), b.begin, b.end)
  }

  /** The target is the spliced image whenever no bit can be lost in the page buffer. */
  lemma TargetIsSpliced(l: Layout, clearsOnly: bool, s: State, offset: int, data: seq<u8>)
    requires l.Fits() && l.ValidateOffsetSize(offset, |data|) == Nil && |s.mem| == l.ChipSize()
    requires !clearsOnly || IsBlank(s.buf)
    ensures WriteJob(l, clearsOnly, s, offset, data).target == Spliced(l, s.mem, offset, data)
  {
    hide Burned, Spliced;
    var j := WriteJob(l, clearsOnly, s, offset, data);
    JobBounds(l, j);
    var spliced, lo, hi := Spliced(l, s.mem, offset, data), l.PageStart(j.begin), l.PageStart(j.end);
    BurnedNothing(clearsOnly, s.buf, spliced[lo..hi]);
    assert spliced == Replace(spliced, lo, spliced[lo..hi]);
  }

  lemma BurnedNothing(clearsOnly: bool, buf: seq<u8>, data: seq<u8>)
    requires !clearsOnly || IsBlank(buf)
    ensures Burned(clearsOnly, buf, data) == data
  {
    if |data| >= |buf| {
      BurnedAlways(clearsOnly, buf);
    }
  }

  /** The rule a write obeys. No page is ever programmed onto cells that are not blank, and every load but the
      first, which follows the erasures, finds a blank buffer; the first one too, if the buffer was blank from
      the start. */
  function WriteRule(l: Layout, s0: State, j: Job): Rule {
    if !s0.work.Busy? && IsBlank(s0.buf) then Strict else BlankAfter(s0.started + ErasePlan(l, j.begin, j.end))
  }

  /** The same for replacing sectors, from an idle chip. */
  function CommitRule(l: Layout, s: State, begin: nat, end: nat): Rule {
    if IsBlank(s.buf) then Strict else BlankAfter(s.started + ErasePlan(l, begin, end))
  }

  /** The chip at any time during a write: if it was idle at the start the job is safe, and in any case nothing
      has changed outside the job's pages and the unit of an operation that was still running. */
  ghost predicate WriteState(l: Layout, s0: State, j: Job, s: State) {
    && FrameAround(s0, s.mem, l.PageStart(j.begin), l.PageStart(j.end))
    && (!s0.work.Busy? ==> Safe(l, j, s))
  }

  /** The steps of a write: each is disciplined, and leaves the chip as above; so does the last, in s1. */
  ghost predicate WriteTrace(l: Layout, s0: State, j: Job, log0: seq<Step>, log1: seq<Step>, s1: State) {
    && log0 <= log1
    && WriteState(l, s0, j, s1)
    && forall k :: |log0| <= k < |log1| ==>
         Disciplined(l, WriteRule(l, s0, j), log1[k]) && WriteState(l, s0, j, log1[k].post)
  }

  lemma QuietWrite(l: Layout, log0: seq<Step>, s0: State, log1: seq<Step>, s1: State, j: Job)
    requires JobFits(l, j) && j.before == s0.mem && j.started == s0.started && Quiet(l, log0, s0, log1, s1)
    ensures WriteTrace(l, s0, j, log0, log1, s1)
  {
    JobBounds(l, j);
  }

  /** Reading, then changing the chip by a job. */
  lemma WriteRuns(l: Layout, log0: seq<Step>, s0: State, log1: seq<Step>, s1: State, log2: seq<Step>, s2: State,
                  j: Job, j1: Job)
    requires JobFits(l, j) && j.before == s0.mem && j.started == s0.started && Quiet(l, log0, s0, log1, s1)
    requires j1.before == s1.mem && j1.begin == j.begin && j1.end == j.end && (!s0.work.Busy? ==> j1 == j)
    requires SafeRun(l, j1, log1, log2, s2, CommitRule(l, s1, j.begin, j.end))
    ensures WriteTrace(l, s0, j, log0, log2, s2)
  {
    QuietWrite(l, log0, s0, log1, s1, j);
    forall k | |log0| <= k < |log2|
      ensures Disciplined(l, WriteRule(l, s0, j), log2[k]) && WriteState(l, s0, j, log2[k].post)
    {
      if k < |log1| {
        assert log2[k] == log1[k];
      }
    }
  }

  /** The units a job erases, then those it programs. */
  function WritePlan(l: Layout, j: Job): seq<Unit> {
    ErasePlan(l, j.begin, j.end) + PageUnits(l, j.begin, j.end)
  }

  /** A first part of the erasures, or all of them and then a first part of the rest. */
  lemma PlanParts(s0: seq<Unit>, s1: seq<Unit>, s2: seq<Unit>, erase: seq<Unit>, program: seq<Unit>)
    requires StartedPart(s0, s1, erase)
    requires s2 == s1 || (s1 == s0 + erase && StartedPart(s1, s2, program))
    ensures StartedPart(s0, s2, erase + program)
    ensures s1 == s0 + erase && s2 == s1 + program ==> s2 == s0 + (erase + program)
  {
    assert s0 + erase + program == s0 + (erase + program);
  }

  /** The job of replacing whole sectors. */
  function SectorJob(l: Layout, clearsOnly: bool, s: State, begin: nat, end: nat, data: seq<u8>): Job
    requires l.PageStart(begin) + |data| <= |s.mem|
  {
    Job(s.mem, s.started, Replace(s.mem, l.PageStart(begin), Burned(clearsOnly, s.buf, data)), begin, end)
  }

  /** The sectors [b.begin, b.end) of a write, as they were in s0, with the data spliced in at the index the
      driver computes. */
  predicate SectorsPrepared(l: Layout, s0: State, offset: int, data: seq<u8>, b: Range, sectors: seq<u8>)
    requires l.Fits() && l.ValidateOffsetSize(offset, |data|) == Nil && |s0.mem| == l.ChipSize()
  {
    WriteRanges(l, offset, |data|);
    var c := l.ConvertAddressRange(offset, |data|).value;
    && l.PageRangeSectorBoundaries(c.begin, c.end) == Ok(b)
    && l.PageStart(b.begin) + |sectors| == l.PageStart(b.end)
    && (FillsWhole(l, offset, |data|) ==> sectors == data && (|data| > 0 ==> l.PageStart(b.begin) == offset))
    && (!s0.work.Busy? ==>
          var pages := PagesOf(l, s0.mem, b.begin, b.end);
          c.skip + |data| <= |pages| && sectors == Replace(pages, c.skip, data))
  }

  /** Sectors read and spliced are prepared. */
  lemma SplicePrepares(l: Layout, s0: State, offset: int, data: seq<u8>, c: Range, b: Range, sectors: seq<u8>)
    requires l.Fits() && l.ValidateOffsetSize(offset, |data|) == Nil && |s0.mem| == l.ChipSize()
    requires l.ConvertAddressRange(offset, |data|) == Ok(c) && !FillsWhole(l, offset, |data|)
    requires l.PageRangeSectorBoundaries(c.begin, c.end) == Ok(b) && b.begin <= b.end
    requires c.skip + |data| <= |sectors| == l.PageStart(b.end - b.begin)
    requires !s0.work.Busy? ==>
               var pages := PagesOf(l, s0.mem, b.begin, b.end);
               |pages| == |sectors| && sectors == Replace(pages, c.skip, data)
    ensures SectorsPrepared(l, s0, offset, data, b, sectors)
  {
    hide PagesOf, Replace, Times, Pow2, RoundDown, And;
    SectorData(l, s0.mem, offset, |data|);
  }

  /** Data of whole sectors needs no reading. */
  lemma WholePrepares(l: Layout, s0: State, offset: int, data: seq<u8>, c: Range, b: Range)
    requires l.Fits() && l.ValidateOffsetSize(offset, |data|) == Nil && |s0.mem| == l.ChipSize()
    requires l.ConvertAddressRange(offset, |data|) == Ok(c) && FillsWhole(l, offset, |data|)
    requires l.PageRangeSectorBoundaries(c.begin, c.end) == Ok(b)
    ensures SectorsPrepared(l, s0, offset, data, b, data) && c.skip == 0
  {
    hide PagesOf, Replace, Times, Pow2, RoundDown, And;
    FillsSectors(l, s0.mem, offset, data);
  }

  lemma PreparedFits(l: Layout, s0: State, offset: int, data: seq<u8>, b: Range, sectors: seq<u8>)
    requires l.Fits() && l.ValidateOffsetSize(offset, |data|) == Nil && |s0.mem| == l.ChipSize()
    requires SectorsPrepared(l, s0, offset, data, b, sectors)
    ensures Aligned(l, b.begin) && Aligned(l, b.end) && b.begin <= b.end <= l.TotalPages()
    ensures l.PageStart(b.begin) + |sectors| == l.PageStart(b.end) <= l.ChipSize()
  {
    WriteRanges(l, offset, |data|);
  }

  /** Replacing the prepared sectors is the job of the write, unless an operation was still running when they
      were read. */
  lemma JobIsSectorJob(l: Layout, clearsOnly: bool, s0: State, s1: State, offset: int, data: seq<u8>,
                       b: Range, sectors: seq<u8>)
    requires l.Fits() && l.ValidateOffsetSize(offset, |data|) == Nil && |s0.mem| == l.ChipSize() && Settled(s0, s1)
    requires |data| == 0 ==> offset % l.PageSize() == 0
    requires SectorsPrepared(l, s0, offset, data, b, sectors) && l.PageStart(b.begin) + |sectors| <= |s1.mem|
    ensures var j := WriteJob(l, clearsOnly, s0, offset, data);
            var j1 := SectorJob(l, clearsOnly, s1, b.begin, b.end, sectors);
            j1.begin == j.begin && j1.end == j.end && (!s0.work.Busy? ==> j1 == j)
  {
    hide Burned, PagesOf;
    WrittenBack(l, s0.mem, offset, data);
    if !s0.work.Busy? {
      var lo := l.PageStart(b.begin);
      ReplacedTwice(s0.mem, lo, sectors, Burned(clearsOnly, s0.buf, sectors));
    }
  }

  lemma ReplacedTwice(mem: seq<u8>, at: nat, a: seq<u8>, b: seq<u8>)
    requires at + |a| <= |mem| && |b| == |a|
    ensures Replace(mem, at, a)[at..at + |a|] == a && Replace(Replace(mem, at, a), at, b) == Replace(mem, at, b)
  {
  }

  /** What a write of data at a valid offset does, from the chip in state s0 with log log0 to s1 and log1. */
  ghost predicate Written(l: Layout, clearsOnly: bool, s0: State, log0: seq<Step>, s1: State, log1: seq<Step>,
                          offset: int, data: seq<u8>, ok: bool)
    requires l.Fits() && l.ValidateOffsetSize(offset, |data|) == Nil && |s0.mem| == l.ChipSize()
  {
    var j := WriteJob(l, clearsOnly, s0, offset, data);
    // every step and the state reached, however the write ends
    && WriteTrace(l, s0, j, log0, log1, s1)
    && StartedPart(s0.started, s1.started, WritePlan(l, j))
    // success: every sector erased and every page programmed, once each and in order, and the target reached
    && (ok ==>
          && s1.started == s0.started + WritePlan(l, j)
          && s1.mode == ReadStatus && !s1.work.Busy?
          && (|data| > 0 ==> IsBlank(s1.buf))
          && (!s0.work.Busy? ==> s1.mem == j.target)
          // also when an operation was still running at the start
          && (FillsWhole(l, offset, |data|) ==> Landed(l, clearsOnly, s1.mem, offset, data)))
  }

  /** The data was programmed at its offset, its first page loaded over some page buffer. */
  ghost predicate Landed(l: Layout, clearsOnly: bool, mem: seq<u8>, offset: nat, data: seq<u8>) {
    && offset + |data| <= |mem|
    && exists buf: seq<u8> :: |buf| == l.PageSize() && mem[offset..offset + |data|] == Burned(clearsOnly, buf, data)
  }

  /** What replacing whole sectors does. */
  ghost predicate Committed(l: Layout, clearsOnly: bool, s0: State, log0: seq<Step>, s1: State, log1: seq<Step>,
                            begin: nat, end: nat, data: seq<u8>, ok: bool)
    requires l.PageStart(begin) + |data| <= |s0.mem|
  {
    var j := SectorJob(l, clearsOnly, s0, begin, end, data);
    && SafeRun(l, j, log0, log1, s1, CommitRule(l, s0, begin, end))
    && StartedPart(s0.started, s1.started, WritePlan(l, j))
    && (ok ==>
          && s1.started == s0.started + WritePlan(l, j)
          && s1.mode == ReadStatus && !s1.work.Busy?
          && (begin < end ==> IsBlank(s1.buf))
          && s1.mem == j.target)
  }

  /** A write that fails before it changes anything. */
  lemma WriteRefused(l: Layout, clearsOnly: bool, s0: State, log0: seq<Step>, s1: State, log1: seq<Step>,
                     offset: int, data: seq<u8>)
    requires l.Fits() && l.ValidateOffsetSize(offset, |data|) == Nil && |s0.mem| == l.ChipSize()
    requires Quiet(l, log0, s0, log1, s1)
    ensures Written(l, clearsOnly, s0, log0, s1, log1, offset, data, false)
  {
    QuietWrite(l, log0, s0, log1, s1, WriteJob(l, clearsOnly, s0, offset, data));
  }

  /** A write that gets as far as replacing the prepared sectors. */
  lemma WriteCarriedOut(l: Layout, clearsOnly: bool, s0: State, log0: seq<Step>, s1: State, log1: seq<Step>,
                        s2: State, log2: seq<Step>, offset: int, data: seq<u8>, b: Range, sectors: seq<u8>, ok: bool)
    requires l.Fits() && l.ValidateOffsetSize(offset, |data|) == Nil && |s0.mem| == |s1.mem| == l.ChipSize()
    requires |s1.buf| == l.PageSize() && (|data| == 0 ==> offset % l.PageSize() == 0)
    requires Quiet(l, log0, s0, log1, s1)
    requires SectorsPrepared(l, s0, offset, data, b, sectors)
    requires l.PageStart(b.begin) + |sectors| <= |s1.mem|
    requires Committed(l, clearsOnly, s1, log1, s2, log2, b.begin, b.end, sectors, ok)
    ensures Written(l, clearsOnly, s0, log0, s2, log2, offset, data, ok)
  {
    hide SafeRun, WriteTrace, PagesOf, Replace;
    var j, j1 := WriteJob(l, clearsOnly, s0, offset, data), SectorJob(l, clearsOnly, s1, b.begin, b.end, sectors);
    WriteRanges(l, offset, |data|);
    JobIsSectorJob(l, clearsOnly, s0, s1, offset, data, b, sectors);
    WriteRuns(l, log0, s0, log1, s1, log2, s2, j, j1);
    if ok {
      if FillsWhole(l, offset, |data|) {
        assert Landed(l, clearsOnly, s2.mem, offset, data) by {
          DataLanded(l, clearsOnly, s1, offset, data, l.PageStart(b.begin), s2.mem);
        }
      }
    }
  }

  lemma DataLanded(l: Layout, clearsOnly: bool, s: State, offset: int, data: seq<u8>, lo: nat, mem: seq<u8>)
    requires l.ValidateOffsetSize(offset, |data|) == Nil && |s.mem| == l.ChipSize() && |s.buf| == l.PageSize()
    requires lo + |data| <= |s.mem| && mem == Replace(s.mem, lo, Burned(clearsOnly, s.buf, data))
    requires |data| > 0 ==> lo == offset
    ensures Landed(l, clearsOnly, mem, offset, data)
  {
    hide Replace, Burned;
    var burned := Burned(clearsOnly, s.buf, data);
    ReplaceOnly(s.mem, lo, burned);
    assert mem[offset..offset + |data|] == burned;
  }

  // ---------------------------------------------------------------- the linear memory

  /** A successful write to an idle chip acts on linear memory, if its first page starts a sector and no bit can
      be lost in the page buffer: the data is where it was to be put, and no other byte has changed. */
  lemma LinearWrite(l: Layout, clearsOnly: bool, s0: State, log0: seq<Step>, s1: State, log1: seq<Step>,
                    offset: int, data: seq<u8>)
    requires l.Fits() && l.ValidateOffsetSize(offset, |data|) == Nil && |s0.mem| == l.ChipSize()
    requires Written(l, clearsOnly, s0, log0, s1, log1, offset, data, true) && !s0.work.Busy?
    requires Aligned(l, Quotient(offset, l.PageSize())) && (!clearsOnly || IsBlank(s0.buf))
    ensures s1.mem == Replace(s0.mem, offset, data)
    ensures s1.mem[offset..offset + |data|] == data
    ensures forall i :: 0 <= i < |s0.mem| && !(offset <= i < offset + |data|) ==> s1.mem[i] == s0.mem[i]
  {
    hide WriteJob, WriteTrace, WritePlan, StartedPart, SplicePosition;
    TargetIsSpliced(l, clearsOnly, s0, offset, data);
    SplicePositionExact(l, offset);
    ReplaceOnly(s0.mem, offset, data);
  }

  lemma WrittenIdle(l: Layout, clearsOnly: bool, s0: State, log0: seq<Step>, s1: State, log1: seq<Step>,
                    offset: int, data: seq<u8>)
    requires l.Fits() && l.ValidateOffsetSize(offset, |data|) == Nil && |s0.mem| == l.ChipSize()
    requires Written(l, clearsOnly, s0, log0, s1, log1, offset, data, true)
    ensures s1.mode == ReadStatus && !s1.work.Busy?
  {
    hide WriteJob, WriteTrace, WritePlan, StartedPart, FrameAround, Landed;
  }

  /** The linear law of Write, decided: over all contents of the chip and all data of a size, what a write is to
      produce is the image with the data at its offset if and only if its first page starts a sector and no bit
      can be lost in the page buffer. */
  lemma WriteIsLinear(l: Layout, clearsOnly: bool, s: State, offset: int, size: nat)
    requires l.Fits() && l.ValidateOffsetSize(offset, size) == Nil && size > 0 && |s.buf| == l.PageSize()
    ensures (forall mem: seq<u8>, data: seq<u8> :: |mem| == l.ChipSize() && |data| == size ==>
               WriteJob(l, clearsOnly, s.(mem := mem), offset, data).target == Replace(mem, offset, data))
            <==> Aligned(l, Quotient(offset, l.PageSize())) && (!clearsOnly || IsBlank(s.buf))
  {
    hide WriteJob, SplicePosition, Replace, Blank, IsBlank, Pow2, Times, RoundDown;
    SplicePositionExact(l, offset);
    if clearsOnly && !IsBlank(s.buf) {
      var mem, data := Blank(l.ChipSize()), Blank(size);
      BitsLost(l, s, offset, size);
      assert Replace(mem, offset, data) == mem by {
        BlankSplice(l.ChipSize(), offset, size);
      }
      assert WriteJob(l, clearsOnly, s.(mem := mem), offset, data).target != Replace(mem, offset, data);
    } else {
      forall mem: seq<u8>, data: seq<u8> | |mem| == l.ChipSize() && |data| == size
        ensures WriteJob(l, clearsOnly, s.(mem := mem), offset, data).target == Spliced(l, mem, offset, data)
      {
        TargetIsSpliced(l, clearsOnly, s.(mem := mem), offset, data);
      }
      if !Aligned(l, Quotient(offset, l.PageSize())) {
        var data := Blank(size);
        LinearIffAligned(l, offset, data);
        var mem: seq<u8> :| |mem| == l.ChipSize()
                            && Replace(mem, SplicePosition(l, offset), data) != Replace(mem, offset, data);
        assert WriteJob(l, clearsOnly, s.(mem := mem), offset, data).target != Replace(mem, offset, data);
      }
    }
  }

  /** Wherever the data goes, none of it is altered, over all contents of the chip and all data of a size, if
      and only if the page buffer takes any value or is blank. */
  lemma WriteKeepsBits(l: Layout, clearsOnly: bool, s: State, offset: int, size: nat)
    requires l.Fits() && l.ValidateOffsetSize(offset, size) == Nil && size > 0 && |s.buf| == l.PageSize()
    ensures (forall mem: seq<u8>, data: seq<u8> :: |mem| == l.ChipSize() && |data| == size ==>
               WriteJob(l, clearsOnly, s.(mem := mem), offset, data).target == Spliced(l, mem, offset, data))
            <==> !clearsOnly || IsBlank(s.buf)
  {
    hide WriteJob, SplicePosition, Spliced, Replace, Blank, IsBlank, Pow2, Times, RoundDown;
    if clearsOnly && !IsBlank(s.buf) {
      var mem, data := Blank(l.ChipSize()), Blank(size);
      BitsLost(l, s, offset, size);
      assert WriteJob(l, clearsOnly, s.(mem := mem), offset, data).target != Spliced(l, mem, offset, data);
    } else {
      forall mem: seq<u8>, data: seq<u8> | |mem| == l.ChipSize() && |data| == size
        ensures WriteJob(l, clearsOnly, s.(mem := mem), offset, data).target == Spliced(l, mem, offset, data)
      {
        TargetIsSpliced(l, clearsOnly, s.(mem := mem), offset, data);
      }
    }
  }

  /** Writing blank data to a blank chip through a page buffer that lacks a bit loses that bit. */
  lemma BitsLost(l: Layout, s: State, offset: int, size: nat)
    requires l.Fits() && l.ValidateOffsetSize(offset, size) == Nil && size > 0
    requires |s.buf| == l.PageSize() && !IsBlank(s.buf)
    ensures var mem, data := Blank(l.ChipSize()), Blank(size);
            && Spliced(l, mem, offset, data) == mem
            && WriteJob(l, true, s.(mem := mem), offset, data).target != mem
  {
    hide Burned, Replace, Pow2, Times, RoundDown, And, SplicePosition, Blank, IsBlank;
    var mem, data := Blank(l.ChipSize()), Blank(size);
    var j := WriteJob(l, true, s.(mem := mem), offset, data);
    var lo, hi := l.PageStart(j.begin), l.PageStart(j.end);
    assert lo + l.PageSize() <= hi <= |mem| by {
      FirstPageOfJob(l, true, s.(mem := mem), offset, data);
    }
    assert Spliced(l, mem, offset, data) == mem by {
      WriteRanges(l, offset, size);
      BlankSplice(l.ChipSize(), SplicePosition(l, offset), size);
    }
    assert mem[lo..hi] == Blank(hi - lo) by {
      BlankPart(l.ChipSize(), lo, hi);
    }
    var burned := Burned(true, s.buf, Blank(hi - lo));
    assert burned != Blank(hi - lo) by {
      BlankBurned(s.buf, hi - lo);
    }
    ReplaceOnly(mem, lo, burned);
    assert j.target == Replace(mem, lo, burned);
  }

  lemma FirstPageOfJob(l: Layout, clearsOnly: bool, s: State, offset: int, data: seq<u8>)
    requires l.Fits() && l.ValidateOffsetSize(offset, |data|) == Nil && |data| > 0 && |s.mem| == l.ChipSize()
    ensures var j := WriteJob(l, clearsOnly, s, offset, data);
            l.PageStart(j.begin) + l.PageSize() <= l.PageStart(j.end) <= l.ChipSize()
  {
    hide Pow2, Times, RoundDown, Burned, Replace;
    SectorCover(l, offset, |data|);
    var j := WriteJob(l, clearsOnly, s, offset, data);
    JobBounds(l, j);
    PageBounds(l, j.begin);
    PageStartOrder(l, j.begin + 1, j.end);
  }

  lemma BlankSplice(n: nat, at: nat, size: nat)
    requires at + size <= n
    ensures Replace(Blank(n), at, Blank(size)) == Blank(n)
  {
  }

  lemma BlankPart(n: nat, lo: nat, hi: nat)
    requires lo <= hi <= n
    ensures Blank(n)[lo..hi] == Blank(hi - lo)
  {
  }

  lemma BlankBurned(buf: seq<u8>, n: nat)
    requires !IsBlank(buf) && n >= |buf|
    ensures Burned(true, buf, Blank(n)) != Blank(n)
  {
    hide Burned, And;
    BurnedExactly(true, buf, Blank(n));
    var i :| 0 <= i < |buf| && buf[i] != 0xff;
    AndOnes8(buf[i]);
    assert And(buf[i], Blank(n)[i]) != Blank(n)[i];
  }

  /** A successful write of whole sectors puts the data at its offset and touches nothing else, also when an
      operation was running at the start; the unit of that operation is its own affair. Where page buffer writes
      only clear bits, the first page may lack bits, unless the buffer was blank and the chip idle. */
  lemma WholeSectorWrite(l: Layout, clearsOnly: bool, s0: State, log0: seq<Step>, s1: State, log1: seq<Step>,
                         offset: int, data: seq<u8>)
    requires l.Fits() && l.ValidateOffsetSize(offset, |data|) == Nil && |s0.mem| == l.ChipSize()
    requires Written(l, clearsOnly, s0, log0, s1, log1, offset, data, true)
    requires FillsWhole(l, offset, |data|)
    ensures forall i :: offset + l.PageSize() <= i < offset + |data| ==> s1.mem[i] == data[i - offset]
    ensures !clearsOnly || (!s0.work.Busy? && IsBlank(s0.buf)) ==> s1.mem[offset..offset + |data|] == data
    ensures |data| > 0 ==> FrameAround(s0, s1.mem, offset, offset + |data|)
  {
    hide WriteTrace, WritePlan, StartedPart, Spliced, FrameAround, Landed, Pow2, Times, RoundDown;
    WrittenLands(l, clearsOnly, s0, log0, s1, log1, offset, data);
    DataLands(l, clearsOnly, s1.mem, offset, data);
    if !s0.work.Busy? && IsBlank(s0.buf) {
      BlankLands(l, clearsOnly, s0, log0, s1, log1, offset, data);
    }
  }

  lemma WrittenLands(l: Layout, clearsOnly: bool, s0: State, log0: seq<Step>, s1: State, log1: seq<Step>,
                     offset: int, data: seq<u8>)
    requires l.Fits() && l.ValidateOffsetSize(offset, |data|) == Nil && |s0.mem| == l.ChipSize()
    requires Written(l, clearsOnly, s0, log0, s1, log1, offset, data, true) && FillsWhole(l, offset, |data|)
    ensures Landed(l, clearsOnly, s1.mem, offset, data)
    ensures |data| > 0 ==> FrameAround(s0, s1.mem, offset, offset + |data|)
  {
    hide Safe, Disciplined, WritePlan, StartedPart, Spliced, FrameAround, Landed, Burned, Replace, Pow2, Times,
         RoundDown;
    if |data| > 0 {
      WholeSectors(l, offset, |data|);
    }
  }

  lemma DataLands(l: Layout, clearsOnly: bool, mem: seq<u8>, offset: nat, data: seq<u8>)
    requires Landed(l, clearsOnly, mem, offset, data)
    ensures offset + |data| <= |mem|
    ensures forall i :: offset + l.PageSize() <= i < offset + |data| ==> mem[i] == data[i - offset]
    ensures !clearsOnly ==> mem[offset..offset + |data|] == data
  {
    hide Loaded;
    var buf: seq<u8> :| |buf| == l.PageSize() && mem[offset..offset + |data|] == Burned(clearsOnly, buf, data);
    BurnedNothing(false, buf, data);
    forall i | offset + l.PageSize() <= i < offset + |data|
      ensures mem[i] == data[i - offset]
    {
      assert mem[i] == mem[offset..offset + |data|][i - offset] == data[|buf|..][i - offset - |buf|];
    }
  }

  lemma BlankLands(l: Layout, clearsOnly: bool, s0: State, log0: seq<Step>, s1: State, log1: seq<Step>,
                   offset: int, data: seq<u8>)
    requires l.Fits() && l.ValidateOffsetSize(offset, |data|) == Nil && |s0.mem| == l.ChipSize()
    requires Written(l, clearsOnly, s0, log0, s1, log1, offset, data, true) && FillsWhole(l, offset, |data|)
    requires !s0.work.Busy? && IsBlank(s0.buf)
    ensures |s1.mem| == |s0.mem| && s1.mem[offset..offset + |data|] == data
  {
    hide WriteTrace, WritePlan, StartedPart, Landed, Burned, Replace, PagesOf, IsBlank, Pow2, Times, RoundDown;
    TargetIsSpliced(l, clearsOnly, s0, offset, data);
    FillsSectors(l, s0.mem, offset, data);
    if |data| > 0 {
      assert s1.mem == Replace(s0.mem, offset, data);
      ReplaceOnly(s0.mem, offset, data);
    }
  }

  /** Where it fails: a byte successfully written at the start of the second page of a chip is found at offset 0,
      and the second page is as before. */
  lemma MisplacedWrite(l: Layout, clearsOnly: bool, s0: State, log0: seq<Step>, s1: State, log1: seq<Step>, x: u8)
    requires l.Fits() && l.pageBits > 0 && |s0.mem| == l.ChipSize()
    requires l.ValidateOffsetSize(l.PageSize(), 1) == Nil
    requires Written(l, clearsOnly, s0, log0, s1, log1, l.PageSize(), [x], true) && !s0.work.Busy?
    requires !clearsOnly || IsBlank(s0.buf)
    ensures |s1.mem| > l.PageSize() && s1.mem[0] == x && s1.mem[l.PageSize()] == s0.mem[l.PageSize()]
  {
    hide WriteJob, WriteTrace, WritePlan, StartedPart, Spliced, FrameAround, Landed, Pow2;
    TargetIsSpliced(l, clearsOnly, s0, l.PageSize(), [x]);
    SplicedAway(l, s0.mem, x);
  }

  lemma SplicedAway(l: Layout, mem: seq<u8>, x: u8)
    requires l.Fits() && l.pageBits > 0 && |mem| == l.ChipSize()
    ensures l.ValidateOffsetSize(l.PageSize(), 1) == Nil
    ensures Spliced(l, mem, l.PageSize(), [x])[0] == x
    ensures Spliced(l, mem, l.PageSize(), [x])[l.PageSize()] == mem[l.PageSize()]
  {
    hide Pow2, Times, RoundDown, And, Or;
    var ps := l.PageSize();
    assert 2 <= l.PagesPerSector() <= l.TotalPages() by {
      TwoPages(l);
    }
    assert l.PageStart(0) == 0 && l.PageStart(1) == ps && ps < l.ChipSize() by {
      FirstPages(l);
    }
    assert Quotient(ps, ps) == 1 && ps % ps == 0 by {
      QuotientUnique(ps, ps, 1, 0);
    }
    assert l.SectorBegin(1) == 0 by {
      l.TotalBound();
      MasksAreMultiples(l, 1);
      QuotientUnique(1, l.PagesPerSector(), 0, 1);
    }
    assert SplicePosition(l, ps) == 0;
  }

  lemma TwoPages(l: Layout)
    requires l.pageBits > 0
    ensures 2 <= l.PagesPerSector() <= l.TotalPages()
  {
    Pow2Monotone(1, l.pageBits);
    Pow2Monotone(l.pageBits, l.pageBits + l.sectorBits);
  }

  lemma FirstPages(l: Layout)
    requires l.TotalPages() >= 2
    ensures l.PageStart(0) == 0 && l.PageStart(1) == l.PageSize() < l.ChipSize()
  {
    assert l.PageStart(1) == l.PageStart(0) + l.PageSize();
    PageBounds(l, 1);
  }

  /** On the chips addressed in bytes: offset 128. */
  lemma MisplacedByte(clearsOnly: bool, s0: State, log0: seq<Step>, s1: State, log1: seq<Step>)
    requires |s0.mem| == LAYOUT_128B_128_8.ChipSize()
    requires LAYOUT_128B_128_8.ValidateOffsetSize(128, 1) == Nil
    requires Written(LAYOUT_128B_128_8, clearsOnly, s0, log0, s1, log1, 128, [0x2a], true) && !s0.work.Busy?
    requires !clearsOnly || IsBlank(s0.buf)
    ensures |s1.mem| > 128 && s1.mem[0] == 0x2a && s1.mem[128] == s0.mem[128]
  {
    hide Written, Pow2;
    Pow2Values();
    assert LAYOUT_128B_128_8.PageSize() == 128;
    MisplacedWrite(LAYOUT_128B_128_8, clearsOnly, s0, log0, s1, log1, 0x2a);
  }
}
