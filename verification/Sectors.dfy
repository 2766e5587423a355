/** Page and sector ranges of linear writes: where the data goes, which units are erased and programmed, and
    what every intermediate image of the chip may look like. */
module Sectors {
  import opened Bits
  import opened Errors
  import opened Wrappers
  import opened Layout
  import opened FlashChip
  import opened Protocol

  // ---------------------------------------------------------------- sector alignment

  predicate Aligned(l: Layout, page: nat) {
    RoundDown(page, l.PagesPerSector()) == page
  }

  /** Sectors start at aligned pages and end at the next one. */
  lemma SectorSteps(l: Layout, page: nat)
    requires l.Fits() && page < l.TotalPages()
    ensures page < Pow2(63)
    ensures Aligned(l, l.SectorBegin(page)) && Aligned(l, l.SectorEnd(page))
    ensures l.SectorBegin(page) <= page < l.SectorEnd(page) <= l.TotalPages()
    ensures l.SectorEnd(page) == l.SectorBegin(page) + l.PagesPerSector()
    ensures Aligned(l, page) ==> l.SectorBegin(page) == page && l.SectorEnd(page) == page + l.PagesPerSector()
  {
    hide Pow2, And, Or, RoundDown;
    SectorBounds(l, page);
    RoundDownAgain(page, l.PagesPerSector());
  }

  /** Between aligned pages there is room for a whole sector. */
  lemma AlignedGap(l: Layout, p: nat, q: nat)
    requires Aligned(l, p) && Aligned(l, q) && p < q
    ensures p + l.PagesPerSector() <= q
  {
    MultiplesGap(p, q, l.PagesPerSector());
  }

  /** The sectors around a non-empty valid byte range: aligned, within the chip, around the pages of the
      range, and no wider than needed. */
  lemma SectorCover(l: Layout, offset: int, size: int)
    requires l.Fits() && l.ValidateOffsetSize(offset, size) == Nil && size > 0
    ensures var c := l.ConvertAddressRange(offset, size);
            && c.Ok?
            && var b := l.PageRangeSectorBoundaries(c.value.begin, c.value.end);
            && b.Ok?
            && Aligned(l, b.value.begin) && Aligned(l, b.value.end)
            && b.value.begin <= c.value.begin < c.value.end <= b.value.end <= l.TotalPages()
            && c.value.begin < b.value.begin + l.PagesPerSector()
            && b.value.end < c.value.end + l.PagesPerSector()
            && l.PageStart(c.value.begin) + c.value.skip == offset
            && offset + size <= l.PageStart(c.value.end) <= l.PageStart(b.value.end)
            && l.PageStart(b.value.begin) <= l.PageStart(c.value.begin)
  {
    MinimalCover(l, offset, size);
    var c := l.ConvertAddressRange(offset, size).value;
    SectorRange(l, c.begin, c.end);
    assert l.PageStart(c.begin) + c.skip == offset && offset + size <= l.PageStart(c.end) by {
      PageStartIs(l, c.begin);
      PageStartIs(l, c.end);
    }
    var b := l.PageRangeSectorBoundaries(c.begin, c.end).value;
    PageStartOrder(l, b.begin, c.begin);
    PageStartOrder(l, c.end, b.end);
  }

  lemma SectorRange(l: Layout, begin: nat, end: nat)
    requires l.Fits() && begin < end <= l.TotalPages()
    ensures var b := l.PageRangeSectorBoundaries(begin, end);
            && b.Ok?
            && Aligned(l, b.value.begin) && Aligned(l, b.value.end)
            && b.value.begin <= begin < end <= b.value.end <= l.TotalPages()
            && begin < b.value.begin + l.PagesPerSector()
            && b.value.end < end + l.PagesPerSector()
  {
    hide Aligned, RoundDown, Pow2, Or, And, Not;
    var last := end - 1;
    assert l.ValidatePageRange(begin, end) == Nil;
    assert l.PageRangeSectorBoundaries(begin, end) == Ok(Range(l.SectorBegin(begin), l.SectorEnd(last), 0)) by {
      SectorSteps(l, begin);
    }
    SectorSteps(l, begin);
    SectorSteps(l, last);
  }

  /** No sector-aligned page range narrower than the computed one contains the pages of the byte range. */
  lemma SectorCoverMinimal(l: Layout, offset: int, size: int, p: nat, q: nat)
    requires l.Fits() && l.ValidateOffsetSize(offset, size) == Nil && size > 0
    requires Aligned(l, p) && Aligned(l, q)
    requires l.PageStart(p) <= offset && offset + size <= l.PageStart(q)
    ensures var c := l.ConvertAddressRange(offset, size).value;
            var b := l.PageRangeSectorBoundaries(c.begin, c.end);
            b.Ok? && p <= b.value.begin && b.value.end <= q
  {
    SectorCover(l, offset, size);
    MinimalCover(l, offset, size);
    var c := l.ConvertAddressRange(offset, size).value;
    var b := l.PageRangeSectorBoundaries(c.begin, c.end).value;
    PageStartIs(l, c.begin);
    PageStartIs(l, c.end);
    if p > c.begin {
      PageStartOrder(l, c.begin, p);
    }
    if p > b.begin {
      AlignedGap(l, b.begin, p);
    }
    if q < c.end {
      PageStartOrder(l, q, c.end);
    }
    if q < b.end {
      AlignedGap(l, q, b.end);
    }
  }

  // ---------------------------------------------------------------- where the data goes

  /** Where the driver puts the first byte of data written at `offset`: the offset within the page is
      applied to the start of the sector. */
  function SplicePosition(l: Layout, offset: nat): nat
    requires l.Fits() && offset < l.ChipSize()
  {
    FirstPage(l, offset);
    l.PageStart(l.SectorBegin(Quotient(offset, l.PageSize()))) + offset % l.PageSize()
  }

  lemma FirstPage(l: Layout, offset: nat)
    requires l.Fits() && offset < l.ChipSize()
    ensures Quotient(offset, l.PageSize()) < l.TotalPages() <= Pow2(62) < Pow2(63)
    ensures l.PageStart(Quotient(offset, l.PageSize())) + offset % l.PageSize() == offset
  {
    l.TotalBound();
    MinimalCover(l, offset, 1);
    PageStartIs(l, Quotient(offset, l.PageSize()));
  }

  /** The data is put where it belongs exactly when its first page is the first page of a sector, and
      otherwise before that. */
  lemma SplicePositionExact(l: Layout, offset: nat)
    requires l.Fits() && offset < l.ChipSize()
    ensures SplicePosition(l, offset) == offset <==> Aligned(l, Quotient(offset, l.PageSize()))
    ensures SplicePosition(l, offset) <= offset
  {
    FirstPage(l, offset);
    var page := Quotient(offset, l.PageSize());
    SectorBounds(l, page);
    PageStartOrder(l, l.SectorBegin(page), page);
  }

  /** Splicing data into the sector buffer at k and writing the sectors back splices the image at lo + k. */
  lemma SpliceBack(mem: seq<u8>, lo: nat, hi: nat, k: nat, data: seq<u8>)
    requires lo <= hi <= |mem| && lo + k + |data| <= hi
    ensures Replace(mem, lo, Replace(mem[lo..hi], k, data)) == Replace(mem, lo + k, data)
  {
  }

  /** The linear-memory law of Write, decided: over all chip contents, writing non-empty data has the effect
      of splicing it at `offset` if and only if the first page touched is the first page of its sector. */
  lemma LinearIffAligned(l: Layout, offset: nat, data: seq<u8>)
    requires l.Fits() && l.ValidateOffsetSize(offset, |data|) == Nil && |data| > 0
    ensures SplicePosition(l, offset) + |data| <= l.ChipSize()
    ensures Aligned(l, Quotient(offset, l.PageSize())) <==>
              forall mem: seq<u8> :: |mem| == l.ChipSize() ==>
                Replace(mem, SplicePosition(l, offset), data) == Replace(mem, offset, data)
  {
    SplicePositionExact(l, offset);
    var at := SplicePosition(l, offset);
    if at != offset {
      var other: u8 := if data[0] == 0 then 1 else 0;
      var mem: seq<u8> := seq(l.ChipSize(), _ => other);
      assert Replace(mem, at, data)[at] == data[0];
      assert Replace(mem, offset, data)[at] == other;
    }
  }

  /** With the offset within the sector instead, the effect is linear for every valid range. */
  lemma IntendedIndex(l: Layout, offset: nat, data: seq<u8>, mem: seq<u8>)
    requires l.Fits() && l.ValidateOffsetSize(offset, |data|) == Nil && |data| > 0 && |mem| == l.ChipSize()
    ensures var c := l.ConvertAddressRange(offset, |data|).value;
            var b := l.PageRangeSectorBoundaries(c.begin, c.end);
            && b.Ok?
            && var lo, hi := l.PageStart(b.value.begin), l.PageStart(b.value.end);
            && lo <= offset && offset + |data| <= hi <= |mem|
            && Replace(mem, lo, Replace(mem[lo..hi], offset - lo, data)) == Replace(mem, offset, data)
  {
    hide Times, Pow2, RoundDown, And, Or;
    SectorCover(l, offset, |data|);
    var c := l.ConvertAddressRange(offset, |data|).value;
    var b := l.PageRangeSectorBoundaries(c.begin, c.end).value;
    PageStartOrder(l, b.end, l.TotalPages());
    PageStartTotal(l);
    SpliceBack(mem, l.PageStart(b.begin), l.PageStart(b.end), offset - l.PageStart(b.begin), data);
  }

  predicate FillsWhole(l: Layout, offset: int, size: int) {
    offset % l.SectorSize() == 0 && size % l.SectorSize() == 0
  }

  predicate WholeChip(l: Layout, offset: int, size: int) {
    offset == 0 && size == l.ChipSize()
  }

  /** Exactly a write of the whole chip is one of whole sectors that are all of the chip. */
  lemma WholeChipExactly(l: Layout, offset: int, size: int)
    requires l.Fits() && l.ValidateOffsetSize(offset, size) == Nil
    ensures var c := l.ConvertAddressRange(offset, size).value;
            var b := l.PageRangeSectorBoundaries(c.begin, c.end);
            b.Ok? && (WholeChip(l, offset, size) <==>
                      FillsWhole(l, offset, size) && b.value.begin == 0 && b.value.end == l.TotalPages())
  {
    hide Times, Pow2, RoundDown, And, Or, Not, FillsWhole, Aligned, SplicePosition, Layout.ConvertAddressRange,
         Layout.PageRangeSectorBoundaries;
    WriteRanges(l, offset, size);
    ChipFills(l);
    var c := l.ConvertAddressRange(offset, size).value;
    var b := l.PageRangeSectorBoundaries(c.begin, c.end).value;
    if FillsWhole(l, offset, size) && size > 0 {
      WholeSectors(l, offset, size);
      EndsOfChip(l, b.begin);
      EndsOfChip(l, b.end);
    }
  }

  lemma EndsOfChip(l: Layout, page: nat)
    requires page <= l.TotalPages()
    ensures l.PageStart(page) == 0 <==> page == 0
    ensures l.PageStart(page) == l.ChipSize() <==> page == l.TotalPages()
  {
    PageStartOrder(l, 0, page);
    PageStartOrder(l, page, l.TotalPages());
    PageStartTotal(l);
  }

  lemma ChipFills(l: Layout)
    ensures FillsWhole(l, 0, l.ChipSize())
  {
    SizesAreProducts(l);
    Multiple(l.SectorsPerChip(), l.SectorSize());
    Multiple(0, l.SectorSize());
  }

  lemma Multiple(q: nat, m: nat)
    requires m > 0
    ensures q * m % m == 0
  {
    QuotientUnique(q * m, m, q, 0);
  }

  /** When offset and size are whole sectors, data fills its sectors exactly, so that they need not be read. */
  lemma WholeSectors(l: Layout, offset: nat, size: nat)
    requires l.Fits() && l.ValidateOffsetSize(offset, size) == Nil && size > 0
    requires FillsWhole(l, offset, size)
    ensures var c := l.ConvertAddressRange(offset, size).value;
            var b := l.PageRangeSectorBoundaries(c.begin, c.end);
            && c.skip == 0 && b.Ok?
            && l.PageStart(b.value.begin) == offset && l.PageStart(b.value.end) == offset + size
  {
    var first := SectorStart(l, offset);
    WholeSum(offset, size, l.SectorSize());
    var next := SectorStart(l, offset + size);
    SectorCover(l, offset, size);
    SectorCoverMinimal(l, offset, size, first, next);
    var c := l.ConvertAddressRange(offset, size).value;
    var b := l.PageRangeSectorBoundaries(c.begin, c.end).value;
    PageStartOrder(l, first, b.begin);
    PageStartOrder(l, b.begin, c.begin);
    PageStartOrder(l, b.end, next);
  }

  lemma WholeSum(a: nat, b: nat, m: nat)
    requires m > 0 && a % m == 0 && b % m == 0
    ensures (a + b) % m == 0
  {
    assert a + b == (a / m + b / m) * m + 0;
    QuotientUnique(a + b, m, a / m + b / m, 0);
  }

  /** A multiple of the sector size is where an aligned page starts. */
  lemma SectorStart(l: Layout, x: nat) returns (page: nat)
    requires x % l.SectorSize() == 0
    ensures Aligned(l, page) && l.PageStart(page) == x
  {
    var m, ps := l.PagesPerSector(), l.PageSize();
    SizesAreProducts(l);
    page := WholeBlocks(x, m, ps, l.SectorSize());
    RoundDownIs(page, m);
    PageStartIs(l, page);
  }

  lemma WholeBlocks(x: nat, m: nat, ps: nat, ss: nat) returns (page: nat)
    requires m > 0 && ss == m * ps > 0 && x % ss == 0
    ensures page / m * m == page && page * ps == x
  {
    var k := Quotient(x, ss);
    assert x == k * ss;
    MulOrder(0, k, m);
    page := k * m;
    QuotientUnique(page, m, k, 0);
    Rotate(k, m, ps);
  }

  // ---------------------------------------------------------------- the units a write operates on

  /** The sectors of aligned pages [begin, p), in order. */
  function SectorUnits(l: Layout, begin: nat, p: nat): seq<Unit> {
    if p <= begin || p < l.PagesPerSector() then []
    else SectorUnits(l, begin, p - l.PagesPerSector())
         + [Unit(EraseOp, l.PageStart(p - l.PagesPerSector()), l.PageStart(p))]
  }

  /** The pages [begin, p), in order. */
  function PageUnits(l: Layout, begin: nat, p: nat): seq<Unit> {
    if p <= begin then []
    else PageUnits(l, begin, p - 1) + [Unit(ProgramOp, l.PageStart(p - 1), l.PageStart(p - 1) + l.PageSize())]
  }

  /** What is erased for the sectors [begin, end): the chip at once, or sector by sector. */
  function ErasePlan(l: Layout, begin: nat, end: nat): seq<Unit> {
    if begin == 0 && end == l.TotalPages() then [Unit(EraseOp, 0, l.ChipSize())] else SectorUnits(l, begin, end)
  }

  lemma {:induction false} SectorUnitsGrow(l: Layout, begin: nat, p: nat, q: nat)
    requires Aligned(l, begin) && Aligned(l, p) && Aligned(l, q) && begin <= p <= q
    ensures SectorUnits(l, begin, p) <= SectorUnits(l, begin, q)
    ensures p < q ==>
              var next := p + l.PagesPerSector();
              next <= q && SectorUnits(l, begin, next)
                             == SectorUnits(l, begin, p) + [Unit(EraseOp, l.PageStart(p), l.PageStart(next))]
    decreases q
  {
    if p < q {
      AlignedGap(l, p, q);
      AlignedGap(l, begin, q);
      var r := q - l.PagesPerSector();
      if p < r {
        AlignedGap(l, p, r);
      }
      SectorUnitsGrow(l, begin, p, r);
    }
  }

  /** Of a plan, a first part was started. */
  ghost predicate StartedPart(before: seq<Unit>, after: seq<Unit>, plan: seq<Unit>) {
    before <= after <= before + plan
  }

  lemma StartsPart(before: seq<Unit>, part: seq<Unit>, plan: seq<Unit>)
    requires part <= plan
    ensures StartedPart(before, before + part, plan)
  {
  }

  /** The erase loop started the sectors before p, and perhaps the next one. */
  lemma SectorsStarted(l: Layout, begin: nat, p: nat, end: nat, before: seq<Unit>, sofar: seq<Unit>, after: seq<Unit>)
    requires l.Fits() && Aligned(l, begin) && Aligned(l, p) && Aligned(l, end) && begin <= p < end <= l.TotalPages()
    requires sofar == before + SectorUnits(l, begin, p)
    requires after == sofar || after == sofar + [Unit(EraseOp, l.PageStart(p), l.PageStart(l.SectorEnd(p)))]
    ensures StartedPart(before, after, SectorUnits(l, begin, end))
    ensures after == sofar + [Unit(EraseOp, l.PageStart(p), l.PageStart(l.SectorEnd(p)))] ==>
              after == before + SectorUnits(l, begin, l.SectorEnd(p))
  {
    SectorAhead(l, begin, p, end);
    var part, u := SectorUnits(l, begin, p), Unit(EraseOp, l.PageStart(p), l.PageStart(l.SectorEnd(p)));
    StartsPart(before, part, SectorUnits(l, begin, end));
    StartsPart(before, part + [u], SectorUnits(l, begin, end));
    assert before + part + [u] == before + (part + [u]);
  }

  /** The sector an erase loop at aligned page p comes to next. */
  lemma SectorAhead(l: Layout, begin: nat, p: nat, end: nat)
    requires l.Fits() && Aligned(l, begin) && Aligned(l, p) && Aligned(l, end) && begin <= p < end <= l.TotalPages()
    ensures l.SectorEnd(p) == p + l.PagesPerSector() <= end && Aligned(l, l.SectorEnd(p))
    ensures SectorUnits(l, begin, l.SectorEnd(p))
         == SectorUnits(l, begin, p) + [Unit(EraseOp, l.PageStart(p), l.PageStart(l.SectorEnd(p)))]
    ensures SectorUnits(l, begin, p) <= SectorUnits(l, begin, l.SectorEnd(p)) <= SectorUnits(l, begin, end)
  {
    SectorSteps(l, p);
    SectorUnitsGrow(l, begin, p, end);
    SectorUnitsGrow(l, begin, l.SectorEnd(p), end);
  }

  lemma {:induction false} PageUnitsGrow(l: Layout, begin: nat, p: nat, q: nat)
    requires begin <= p <= q
    ensures PageUnits(l, begin, p) <= PageUnits(l, begin, q)
  {
    if p < q {
      PageUnitsGrow(l, begin, p, q - 1);
    }
  }

  lemma NoPagesStarted(l: Layout, begin: nat, end: nat, started: seq<Unit>)
    ensures started + PageUnits(l, begin, begin) == started
    ensures StartedPart(started, started, PageUnits(l, begin, end))
  {
    assert started + [] == started;
  }

  /** The program loop started the pages before p, and perhaps page p. */
  lemma PagesStarted(l: Layout, begin: nat, p: nat, end: nat, before: seq<Unit>, sofar: seq<Unit>, after: seq<Unit>)
    requires begin <= p < end && sofar == before + PageUnits(l, begin, p)
    requires after == sofar || after == sofar + [Unit(ProgramOp, l.PageStart(p), l.PageStart(p) + l.PageSize())]
    ensures StartedPart(before, after, PageUnits(l, begin, end))
    ensures after == sofar + [Unit(ProgramOp, l.PageStart(p), l.PageStart(p) + l.PageSize())] ==>
              after == before + PageUnits(l, begin, p + 1)
  {
    var part, u := PageUnits(l, begin, p), Unit(ProgramOp, l.PageStart(p), l.PageStart(p) + l.PageSize());
    PageUnitsGrow(l, begin, p, end);
    PageUnitsGrow(l, begin, p + 1, end);
    assert PageUnits(l, begin, p + 1) == part + [u];
    StartsPart(before, part, PageUnits(l, begin, end));
    StartsPart(before, part + [u], PageUnits(l, begin, end));
    assert before + part + [u] == before + (part + [u]);
  }

  /** The units of a plan lie within n bytes. */
  predicate UnitsFit(plan: seq<Unit>, n: nat) {
    plan == [] || (plan[|plan| - 1].lo <= plan[|plan| - 1].hi <= n && UnitsFit(plan[..|plan| - 1], n))
  }

  /** The image after the units of a plan were erased, in order. */
  function EraseAll(mem: seq<u8>, plan: seq<Unit>): (r: seq<u8>)
    requires UnitsFit(plan, |mem|)
    ensures |r| == |mem|
  {
    if plan == [] then mem
    else
      var u := plan[|plan| - 1];
      Replace(EraseAll(mem, plan[..|plan| - 1]), u.lo, Blank(u.hi - u.lo))
  }

  lemma EraseAllAppend(mem: seq<u8>, plan: seq<Unit>, u: Unit)
    requires UnitsFit(plan, |mem|) && u.lo <= u.hi <= |mem|
    ensures UnitsFit(plan + [u], |mem|)
    ensures EraseAll(mem, plan + [u]) == Replace(EraseAll(mem, plan), u.lo, Blank(u.hi - u.lo))
  {
    hide Replace, Blank;
    var p := plan + [u];
    assert |p| == |plan| + 1 && p[|plan|] == u && p[..|plan|] == plan;
    assert forall j | 0 <= j < |plan| :: p[j] == plan[j];
  }

  /** The sectors of a plan are within bounds, and erasing them one by one leaves exactly the range between the
      plan's ends blank. */
  lemma {:induction false} EraseSectorsEffect(l: Layout, begin: nat, end: nat, mem: seq<u8>)
    requires Aligned(l, begin) && Aligned(l, end) && begin <= end <= l.TotalPages() && |mem| == l.ChipSize()
    ensures l.PageStart(begin) <= l.PageStart(end) <= |mem| && UnitsFit(SectorUnits(l, begin, end), |mem|)
    ensures EraseAll(mem, SectorUnits(l, begin, end))
         == Replace(mem, l.PageStart(begin), Blank(l.PageStart(end) - l.PageStart(begin)))
    decreases end
  {
    hide Replace, Blank, EraseAll, UnitsFit, SectorUnits, Aligned;
    assert l.PageStart(begin) <= l.PageStart(end) <= |mem| by {
      PageStartOrder(l, begin, end);
      PageStartOrder(l, end, l.TotalPages());
      PageStartTotal(l);
    }
    if begin < end {
      LastSector(l, begin, end);
      var p := end - l.PagesPerSector();
      EraseSectorsEffect(l, begin, p, mem);
      var lo, mid, hi := l.PageStart(begin), l.PageStart(p), l.PageStart(end);
      assert mid <= hi by {
        PageStartOrder(l, p, end);
      }
      EraseAllAppend(mem, SectorUnits(l, begin, p), Unit(EraseOp, mid, hi));
      BlankJoin(mem, lo, mid, hi);
    } else {
      EraseNothing(l, begin, mem);
    }
  }

  lemma LastSector(l: Layout, begin: nat, end: nat)
    requires Aligned(l, begin) && Aligned(l, end) && begin < end
    ensures var p := end - l.PagesPerSector();
            && begin <= p && Aligned(l, p)
            && SectorUnits(l, begin, end)
                 == SectorUnits(l, begin, p) + [Unit(EraseOp, l.PageStart(p), l.PageStart(end))]
  {
    AlignedGap(l, begin, end);
  }

  lemma EraseNothing(l: Layout, page: nat, mem: seq<u8>)
    requires l.PageStart(page) <= |mem|
    ensures SectorUnits(l, page, page) == [] && UnitsFit([], |mem|)
    ensures EraseAll(mem, []) == mem == Replace(mem, l.PageStart(page), Blank(0))
  {
  }

  lemma BlankJoin(mem: seq<u8>, a: nat, b: nat, c: nat)
    requires a <= b <= c <= |mem|
    ensures Replace(Replace(mem, a, Blank(b - a)), b, Blank(c - b)) == Replace(mem, a, Blank(c - a))
  {
  }

  /** Erasing the chip at once or all its sectors one by one leaves the same cells. */
  lemma ChipEraseIsSectorErase(l: Layout, mem: seq<u8>)
    requires |mem| == l.ChipSize()
    ensures UnitsFit(SectorUnits(l, 0, l.TotalPages()), |mem|) && UnitsFit(ErasePlan(l, 0, l.TotalPages()), |mem|)
    ensures EraseAll(mem, SectorUnits(l, 0, l.TotalPages())) == EraseAll(mem, ErasePlan(l, 0, l.TotalPages()))
  {
    TotalAligned(l);
    EraseSectorsEffect(l, 0, l.TotalPages(), mem);
    PageStartTotal(l);
    EraseOnce(mem);
  }

  lemma EraseOnce(mem: seq<u8>)
    ensures UnitsFit([Unit(EraseOp, 0, |mem|)], |mem|)
    ensures EraseAll(mem, [Unit(EraseOp, 0, |mem|)]) == Replace(mem, 0, Blank(|mem|))
  {
    var u := Unit(EraseOp, 0, |mem|);
    assert [u][..0] == [];
    EraseAllAppend(mem, [], u);
    assert [] + [u] == [u];
  }

  lemma TotalAligned(l: Layout)
    ensures Aligned(l, l.TotalPages()) && Aligned(l, 0)
  {
    SizesAreProducts(l);
    var k, m := l.SectorsPerChip(), l.PagesPerSector();
    QuotientUnique(l.TotalPages(), m, k, 0);
    RoundDownIs(l.TotalPages(), m);
  }

  // ---------------------------------------------------------------- the ranges of a write

  /** The ranges computed for any valid offset and size, empty ones included. */
  lemma WriteRanges(l: Layout, offset: int, size: int)
    requires l.Fits() && l.ValidateOffsetSize(offset, size) == Nil
    ensures var c := l.ConvertAddressRange(offset, size);
            && c.Ok? && c.value.begin <= c.value.end <= l.TotalPages() && c.value.begin < l.TotalPages()
            && c.value.skip == offset % l.PageSize()
            && var b := l.PageRangeSectorBoundaries(c.value.begin, c.value.end);
            && b.Ok?
            && Aligned(l, b.value.begin) && Aligned(l, b.value.end)
            && b.value.begin <= b.value.end <= l.TotalPages() && b.value.begin < l.TotalPages()
            && l.PageStart(b.value.begin) + c.value.skip == SplicePosition(l, offset)
            && l.PageStart(b.value.begin) <= l.PageStart(b.value.end) <= l.ChipSize()
            && (size > 0 ==> SplicePosition(l, offset) + size <= l.PageStart(b.value.end))
            && (size > 0 ==> c.value.begin < c.value.end && b.value.begin < b.value.end)
            && (size == 0 ==> c.value.begin == c.value.end && b.value.begin == b.value.end)
            && SplicePosition(l, offset) + size <= l.ChipSize()
  {
    hide Times, Pow2, RoundDown, And, Or, Not;
    FirstPage(l, offset);
    var c := l.ConvertAddressRange(offset, size).value;
    SplicePositionExact(l, offset);
    SectorSteps(l, c.begin);
    if size > 0 {
      SectorCover(l, offset, size);
    }
    var b := l.PageRangeSectorBoundaries(c.begin, c.end).value;
    PageStartOrder(l, b.begin, b.end);
    PageStartOrder(l, b.end, l.TotalPages());
    PageStartTotal(l);
  }

  /** A valid range of no bytes that does not start a page: the source slices an empty buffer at its offset
      within the page, beyond the end. */
  predicate InsidePage(l: Layout, offset: int, size: int) {
    l.ValidateOffsetSize(offset, size) == Nil && size == 0 && offset % l.PageSize() != 0
  }

  lemma InsidePageIs(l: Layout, offset: int, size: int)
    ensures var r := l.ConvertAddressRange(offset, size);
            && (InsidePage(l, offset, size) <==> r.Ok? && size == 0 && r.value.skip != 0)
            && (r.Ok? <==> l.ValidateOffsetSize(offset, size) == Nil)
            && (r.Ok? ==> 0 <= offset && 0 <= size)
            && (r.Err? ==> r.error == ErrInvalidOffsetSize)
  {
  }

  /** Such a range: no bytes at offset 1, on the chips addressed in bytes. */
  lemma InsideFirstPage()
    ensures InsidePage(LAYOUT_128B_128_8, 1, 0)
  {
    hide Pow2;
    Pow2Values();
    Pow2Monotone(7, 17);
  }

  /** The bytes read for a range are the bytes of the range; of an empty range there are none. */
  lemma ReadSlice(l: Layout, mem: seq<u8>, offset: int, size: int)
    requires l.Fits() && l.ValidateOffsetSize(offset, size) == Nil && |mem| == l.ChipSize()
    ensures var c := l.ConvertAddressRange(offset, size).value;
            && c.begin <= c.end
            && var pages := PagesOf(l, mem, c.begin, c.end);
            && |pages| == l.PageStart(c.end - c.begin)
            && (size > 0 ==> c.skip + size <= |pages|)
            && (size == 0 ==> |pages| == 0)
            && (c.skip + size <= |pages| ==> pages[c.skip..c.skip + size] == mem[offset..offset + size])
  {
    hide Times, Pow2, RoundDown, And, Layout.PageStart;
    WriteRanges(l, offset, size);
    var c := l.ConvertAddressRange(offset, size).value;
    Extent(l, mem, c.begin, c.begin, c.end);
    var lo, hi := l.PageStart(c.begin), l.PageStart(c.end);
    if size > 0 {
      assert lo + c.skip == offset && offset + size <= hi by {
        SectorCover(l, offset, size);
      }
      assert hi <= l.ChipSize() by {
        PageStartOrder(l, c.end, l.TotalPages());
        PageStartTotal(l);
      }
      SliceOfSlice(mem, lo, hi, c.skip, size);
    }
  }

  lemma SliceOfSlice(mem: seq<u8>, lo: nat, hi: nat, skip: nat, size: nat)
    requires lo + skip + size <= hi <= |mem|
    ensures mem[lo..hi][skip..skip + size] == mem[lo + skip..lo + skip + size]
  {
    var a, b := mem[lo..hi][skip..skip + size], mem[lo + skip..lo + skip + size];
    assert |a| == |b| && forall i :: 0 <= i < size ==> a[i] == b[i];
  }

  /** A sector-aligned offset is page-aligned. */
  lemma SectorAlignedOffset(l: Layout, offset: nat)
    requires offset % l.SectorSize() == 0
    ensures offset % l.PageSize() == 0
  {
    var page := SectorStart(l, offset);
    PageStartIs(l, page);
    QuotientUnique(offset, l.PageSize(), page, 0);
  }

  /** Sector data spliced at the driver's index, written back. */
  lemma WrittenBack(l: Layout, mem: seq<u8>, offset: nat, data: seq<u8>)
    requires l.Fits() && l.ValidateOffsetSize(offset, |data|) == Nil && |mem| == l.ChipSize()
    requires |data| == 0 ==> offset % l.PageSize() == 0
    ensures var c := l.ConvertAddressRange(offset, |data|).value;
            var b := l.PageRangeSectorBoundaries(c.begin, c.end);
            && b.Ok?
            && var pages := PagesOf(l, mem, b.value.begin, b.value.end);
            && c.skip + |data| <= |pages|
            && l.PageStart(b.value.begin) + |pages| == l.PageStart(b.value.end) <= |mem|
            && SplicePosition(l, offset) + |data| <= |mem|
            && Replace(mem, l.PageStart(b.value.begin), Replace(pages, c.skip, data))
                 == Replace(mem, SplicePosition(l, offset), data)
  {
    WriteRanges(l, offset, |data|);
    var c := l.ConvertAddressRange(offset, |data|).value;
    var b := l.PageRangeSectorBoundaries(c.begin, c.end).value;
    SpliceBack(mem, l.PageStart(b.begin), l.PageStart(b.end), c.skip, data);
  }

  /** The sectors read for a write hold the data at the driver's index. */
  lemma SectorData(l: Layout, mem: seq<u8>, offset: int, size: int)
    requires l.Fits() && l.ValidateOffsetSize(offset, size) == Nil && |mem| == l.ChipSize()
    ensures var c := l.ConvertAddressRange(offset, size).value;
            var b := l.PageRangeSectorBoundaries(c.begin, c.end);
            && b.Ok? && b.value.begin <= b.value.end
            && var pages := PagesOf(l, mem, b.value.begin, b.value.end);
            && |pages| == l.PageStart(b.value.end - b.value.begin)
            && l.PageStart(b.value.begin) + |pages| == l.PageStart(b.value.end)
            && (size > 0 ==> c.skip + size <= |pages|)
            && (size == 0 ==> |pages| == 0)
  {
    WriteRanges(l, offset, size);
    var c := l.ConvertAddressRange(offset, size).value;
    var b := l.PageRangeSectorBoundaries(c.begin, c.end).value;
    Extent(l, mem, b.begin, b.begin, b.end);
  }

  /** Data of whole sectors replaces them altogether. */
  lemma FillsSectors(l: Layout, mem: seq<u8>, offset: int, data: seq<u8>)
    requires l.Fits() && l.ValidateOffsetSize(offset, |data|) == Nil && |mem| == l.ChipSize()
    requires FillsWhole(l, offset, |data|)
    ensures var c := l.ConvertAddressRange(offset, |data|).value;
            var b := l.PageRangeSectorBoundaries(c.begin, c.end);
            && offset % l.PageSize() == 0 && b.Ok? && c.skip == 0
            && var pages := PagesOf(l, mem, b.value.begin, b.value.end);
            && l.PageStart(b.value.begin) + |data| == l.PageStart(b.value.end)
            && (|data| > 0 ==> l.PageStart(b.value.begin) == offset)
            && c.skip + |data| <= |pages| && data == Replace(pages, c.skip, data)
  {
    WriteRanges(l, offset, |data|);
    SectorAlignedOffset(l, offset);
    if |data| > 0 {
      WholeSectors(l, offset, |data|);
    }
    var c := l.ConvertAddressRange(offset, |data|).value;
    var b := l.PageRangeSectorBoundaries(c.begin, c.end).value;
    var pages := PagesOf(l, mem, b.begin, b.end);
    assert |pages| == |data|;
    assert Replace(pages, 0, data) == data;
  }
}
