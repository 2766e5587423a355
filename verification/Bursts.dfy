/** Read bursts wrap inside the read window; the bursts the driver issues never reach the wrap. */
module Bursts {
  import opened Bits
  import opened Layout
  import opened FlashChip
  import opened Protocol

  /** A burst from page b to page e, not beyond the window of b, stays in the window, so that it reads the
      bytes from the start of page b on. */
  lemma BurstIsLinear(l: Layout, b: nat, e: nat)
    requires l.Fits() && b < Pow2(63) && b < e <= l.ReadBurstEnd(b)
    ensures var start, len := l.PageStart(b), l.PageStart(e) - l.PageStart(b);
            && 0 <= len && InOneWindow(l, start, len)
            && forall j :: 0 <= j < len ==> BurstByte(l, start, j) == start + j
  {
    hide Times, Pow2, Or;
    MasksAreMultiples(l, b);
    PageStartIs(l, b);
    PageStartIs(l, e);
    WindowIsProduct(l);
    var start := l.PageStart(b);
    var window := RoundDown(start, l.WindowSize());
    RoundDownIs(start, l.WindowSize());
    Window(b, e, l.ReadPageBoundary(), l.PageSize());
    forall j | 0 <= j < l.PageStart(e) - start
      ensures BurstByte(l, start, j) == start + j
    {
      assert start - window + j < l.WindowSize();
    }
  }

  /** The chip lies in the bus addresses below 2^26, and a burst of whole pages fits its window. */
  lemma BurstFits(l: Layout, b: nat, e: nat)
    requires SmallChip(l) && b < e <= l.TotalPages() && e <= l.ReadBurstEnd(b)
    ensures l.PageReadAddress(b) < 0x400_0000
    ensures l.PageStart(b) + l.PageStart(e - b) == l.PageStart(e) <= l.ChipSize()
    ensures InOneWindow(l, Times(l.PageReadAddress(b), l.UnitSize()), l.PageStart(e - b))
  {
    l.TotalBound();
    BurstIsLinear(l, b, e);
    PageAddressReads(l, b);
    PageStartSplit(l, b, e);
    PageStartOrder(l, e, l.TotalPages());
    PageStartTotal(l);
  }

  predicate SmallChip(l: Layout) {
    l.Fits() && l.pageBits + l.sectorBits <= 10 && l.unitBits + l.offsetBits <= 16
  }

  lemma BurstReads(l: Layout, id: seq<u8>, s: State, b: nat, e: nat, bytes: seq<u8>)
    requires SmallChip(l) && b < e <= l.TotalPages() && e <= l.ReadBurstEnd(b)
    requires s.mode == ReadArray && !s.work.Busy? && |s.mem| == l.ChipSize()
    requires |bytes| == l.PageStart(e - b)
    requires BurstShows(l, id, s, Times(l.PageReadAddress(b), l.UnitSize()), bytes)
    ensures bytes == PagesOf(l, s.mem, b, e)
  {
    l.TotalBound();
    BurstFits(l, b, e);
    BurstIsLinear(l, b, e);
    PageAddressReads(l, b);
    forall j | 0 <= j < |bytes|
      ensures bytes[j] == s.mem[l.PageStart(b) + j]
    {
      assert BurstByte(l, l.PageStart(b), j) == l.PageStart(b) + j;
    }
  }

  /** A burst of the identification's length, in identification mode, shows all of it. */
  lemma IdShown(l: Layout, id: seq<u8>, s: State, start: nat, bytes: seq<u8>)
    requires BurstShows(l, id, s, start, bytes) && s.mode == ReadSilicon && |bytes| == |id|
    ensures bytes == id
  {
  }

  lemma BurstAdvances(l: Layout, page: nat)
    requires l.Fits() && page < Pow2(63)
    ensures page < l.ReadBurstEnd(page)
  {
    MasksAreMultiples(l, page);
    Interval(page, l.ReadPageBoundary());
  }

  lemma Window(b: nat, e: nat, r: nat, ps: nat)
    requires r > 0 && ps > 0 && b < e <= (b / r + 1) * r
    ensures r * ps > 0 && b * ps <= e * ps
    ensures e * ps <= (b * ps) / (r * ps) * (r * ps) + r * ps
  {
    var q := b / r;
    Interval(b, r);
    WindowOf(b, q, b - q * r, r, ps);
    MulOrder(b, e, ps);
    MulOrder(e, q * r + r, ps);
    Distribute(q, r, r, ps);
  }

  lemma Distribute(q: nat, r: nat, x: nat, ps: nat)
    ensures (q * r + x) * ps == q * (r * ps) + x * ps
  {
    Rotate(q, r, ps);
    assert (q * r + x) * ps == (q * r) * ps + x * ps;
  }

  lemma WindowOf(b: nat, q: nat, x: nat, r: nat, ps: nat)
    requires ps > 0 && x < r && b == q * r + x
    ensures r * ps > 0 && (b * ps) / (r * ps) == q
  {
    MulSign(r, ps);
    MulOrder(0, x, ps);
    MulOrder(x + 1, r, ps);
    Distribute(q, r, x, ps);
    QuotientUnique(b * ps, r * ps, q, x * ps);
  }

  /** The bus address of a page fits the chip's window and leads back to its first byte. */
  lemma PageAddressReads(l: Layout, page: nat)
    requires page < l.TotalPages() && l.pageBits + l.sectorBits <= 10 && l.unitBits + l.offsetBits <= 16
    ensures l.PageReadAddress(page) < 0x400_0000
    ensures Times(l.PageReadAddress(page), l.UnitSize()) == l.PageStart(page)
  {
    Pow2Monotone(l.pageBits + l.sectorBits, 10);
    Pow2Monotone(l.offsetBits, 16);
    Pow2Values();
    SmallProduct(page, l.AddressesPerPage());
    assert l.PageReadAddress(page) == page * l.AddressesPerPage();
    PageStartIs(l, page);
    SizesAreProducts(l);
    Rotate(page, l.UnitSize(), l.AddressesPerPage());
    TimesIs(l.PageReadAddress(page), l.UnitSize());
  }

  lemma SmallProduct(page: nat, a: nat)
    requires page < 0x400 && a <= 0x10000
    ensures 0 <= page * a < 0x400_0000
  {
    MulOrder(0, page, a);
    MulOrder(page, 0x3ff, a);
  }

  // ---------------------------------------------------------------- the bursts of a read

  /** Consecutive pages, read by one burst. */
  datatype Run = Run(first: nat, count: nat) {
    function Last(): nat { first + count }
  }

  /** The bursts pages [begin, p) are read in: cut wherever a read window starts. */
  function BurstPlan(l: Layout, begin: nat, p: nat): seq<Run> {
    if p <= begin then []
    else
      var window := RoundDown(p - 1, l.ReadPageBoundary());
      var first := if window > begin then window else begin;
      BurstPlan(l, begin, first) + [Run(first, p - first)]
  }

  /** The page the burst after number i starts with; after the last one, the end of the plan. */
  function NextFirst(plan: seq<Run>, i: nat, end: nat): nat
    requires i < |plan|
  {
    if i + 1 < |plan| then plan[i + 1].first else end
  }

  /** Bursts that follow one another without gap or overlap from page begin to page end, none empty, and none
      beyond the window of its first page. */
  ghost predicate TilesPages(l: Layout, plan: seq<Run>, begin: nat, end: nat) {
    && (forall i :: 0 <= i < |plan| ==> plan[i].first < plan[i].Last() <= l.ReadBurstEnd(plan[i].first))
    && (forall i :: 0 <= i < |plan| ==> plan[i].Last() == NextFirst(plan, i, end))
    && (if plan == [] then begin == end else plan[0].first == begin)
  }

  lemma {:induction false} BurstPlanTiles(l: Layout, begin: nat, p: nat)
    requires l.Fits() && begin <= p < Pow2(63)
    ensures TilesPages(l, BurstPlan(l, begin, p), begin, p)
    decreases p
  {
    hide TilesPages, RoundDown, Pow2, Or;
    if p == begin {
      assert TilesPages(l, [], begin, begin) by {
        NoBursts(l, begin);
      }
    } else {
      var window := RoundDown(p - 1, l.ReadPageBoundary());
      var first := if window > begin then window else begin;
      BurstPlanTiles(l, begin, first);
      assert first < p <= l.ReadBurstEnd(first) by {
        WindowEnd(l, first, p);
      }
      TilesMorePages(l, BurstPlan(l, begin, first), begin, first, p);
    }
  }

  lemma NoBursts(l: Layout, page: nat)
    ensures TilesPages(l, [], page, page)
  {
  }

  lemma TilesMorePages(l: Layout, plan: seq<Run>, begin: nat, first: nat, p: nat)
    requires TilesPages(l, plan, begin, first) && first < p <= l.ReadBurstEnd(first)
    ensures TilesPages(l, plan + [Run(first, p - first)], begin, p)
  {
    hide Or, Pow2;
    var more := plan + [Run(first, p - first)];
    forall i | 0 <= i < |more|
      ensures more[i].Last() == NextFirst(more, i, p)
    {
      if i < |plan| {
        assert more[i] == plan[i] && plan[i].Last() == NextFirst(plan, i, first);
      }
    }
    assert more[0] == if plan == [] then Run(first, p - first) else plan[0];
  }

  /** A page at or after the start of the window of page p - 1 has that window's end as its burst end. */
  lemma WindowEnd(l: Layout, first: nat, p: nat)
    requires l.Fits() && first < p < Pow2(63)
    requires first >= RoundDown(p - 1, l.ReadPageBoundary())
    ensures p <= l.ReadBurstEnd(first)
  {
    hide RoundDown, Or, Pow2;
    var r := l.ReadPageBoundary();
    BurstEndIs(l, first);
    var w := RoundDown(p - 1, r);
    RoundDownAgain(p - 1, r);
    RoundDownWithin(w, r, first - w);
  }

  /** After a page where a window starts, or the first one, the plan goes on with one burst up to any page of
      the same window; at the burst end the next window starts. */
  lemma BurstPlanMore(l: Layout, begin: nat, page: nat, e: nat)
    requires l.Fits() && begin <= page < e <= l.ReadBurstEnd(page) && page < Pow2(63)
    requires page == begin || RoundDown(page, l.ReadPageBoundary()) == page
    ensures BurstPlan(l, begin, e) == BurstPlan(l, begin, page) + [Run(page, e - page)]
    ensures e == l.ReadBurstEnd(page) ==> RoundDown(e, l.ReadPageBoundary()) == e
  {
    hide RoundDown, Or, Pow2, BurstPlan;
    var r := l.ReadPageBoundary();
    var w := RoundDown(page, r);
    BurstEndIs(l, page);
    RoundDownAgain(page, r);
    RoundDownWithin(w, r, e - 1 - w);
    LastBurst(l, begin, page, e);
  }

  lemma LastBurst(l: Layout, begin: nat, first: nat, p: nat)
    requires begin < p
    requires var window := RoundDown(p - 1, l.ReadPageBoundary()); first == if window > begin then window else begin
    ensures BurstPlan(l, begin, p) == BurstPlan(l, begin, first) + [Run(first, p - first)]
  {
  }

  lemma BurstEndIs(l: Layout, page: nat)
    requires l.Fits() && page < Pow2(63)
    ensures l.ReadBurstEnd(page) == RoundDown(page, l.ReadPageBoundary()) + l.ReadPageBoundary()
  {
    hide RoundDown, Or, Pow2;
    var r := l.ReadPageBoundary();
    BurstEndIsMultiple(l, page);
    RoundDownIs(page, r);
    Interval(page, r);
  }

  /** The read bursts of a log. */
  function BurstsOf(log: seq<Step>): seq<Act> {
    if log == [] then []
    else
      var act := log[|log| - 1].act;
      BurstsOf(log[..|log| - 1]) + if act.ReadRun? then [act] else []
  }

  /** The bus transactions of a plan. */
  function Issued(l: Layout, plan: seq<Run>): seq<Act> {
    if plan == [] then []
    else Issued(l, plan[..|plan| - 1]) + [BurstAct(l, plan[|plan| - 1])]
  }

  function BurstAct(l: Layout, run: Run): Act {
    ReadRun(l.PageReadAddress(run.first), l.PageStart(run.count))
  }

  lemma BurstsOfTransaction(l: Layout, clearsOnly: bool, log0: seq<Step>, s0: State, act: Act,
                            log1: seq<Step>, s1: State)
    requires Transaction(l, clearsOnly, log0, s0, act, log1, s1)
    ensures BurstsOf(log1) == BurstsOf(log0) + if act.ReadRun? then [act] else []
  {
    var tick, last := log1[|log0|], log1[|log0| + 1];
    assert log1[..|log1| - 1] == log0 + [tick] && (log0 + [tick])[..|log0|] == log0;
  }

  /** Byte idx of what is read from page `begin` on is the first of a page. */
  predicate AtPage(l: Layout, begin: nat, page: nat, idx: nat) {
    begin <= page && idx == l.PageStart(page - begin)
  }

  lemma AtPageMore(l: Layout, begin: nat, page: nat, next: nat, end: nat, idx: nat, size: nat, len: nat)
    requires AtPage(l, begin, page, idx) && AtPage(l, begin, end, len) && page <= next <= end
    requires size == l.PageStart(next - page)
    ensures AtPage(l, begin, next, idx + size) && idx + size <= len
  {
    PageStartAdd(l, page - begin, next - page);
    PageStartOrder(l, next - begin, end - begin);
  }

  lemma AtEnds(l: Layout, begin: nat, end: nat, len: nat)
    requires begin <= end && len == l.PageStart(end - begin)
    ensures AtPage(l, begin, begin, 0) && AtPage(l, begin, end, len)
    ensures forall idx :: AtPage(l, begin, end, idx) ==> idx == len
  {
  }

  /** Pages [begin, page) were read by the planned bursts, and the next burst starts where a window does. */
  ghost predicate ReadSoFar(l: Layout, log0: seq<Step>, log1: seq<Step>, begin: nat, page: nat, end: nat) {
    && BurstsOf(log1) == BurstsOf(log0) + Issued(l, BurstPlan(l, begin, page))
    && (page < end ==> page == begin || RoundDown(page, l.ReadPageBoundary()) == page)
  }

  lemma NothingRead(l: Layout, log0: seq<Step>, log1: seq<Step>, begin: nat, end: nat)
    requires BurstsOf(log1) == BurstsOf(log0)
    ensures ReadSoFar(l, log0, log1, begin, begin, end)
  {
    assert BurstPlan(l, begin, begin) == [];
  }

  lemma ReadMore(l: Layout, log0: seq<Step>, log1: seq<Step>, log2: seq<Step>,
                 begin: nat, page: nat, e: nat, end: nat)
    requires l.Fits() && begin <= page < e <= end && page < Pow2(63)
    requires e <= l.ReadBurstEnd(page) && (e < end ==> e == l.ReadBurstEnd(page))
    requires ReadSoFar(l, log0, log1, begin, page, end)
    requires BurstsOf(log2) == BurstsOf(log1) + [BurstAct(l, Run(page, e - page))]
    ensures ReadSoFar(l, log0, log2, begin, e, end)
  {
    hide BurstsOf, RoundDown, Or, Pow2, BurstPlan, BurstAct;
    BurstPlanMore(l, begin, page, e);
    var plan, run := BurstPlan(l, begin, page), Run(page, e - page);
    assert (plan + [run])[..|plan|] == plan;
    assert Issued(l, plan + [run]) == Issued(l, plan) + [BurstAct(l, run)];
  }
}
