/** The geometry of a flash chip: units of data, pages, sectors, and the read window a burst may not leave. */
module Layout {
  import opened Bits
  import opened Errors
  import opened Wrappers

  datatype Range = Range(begin: nat, end: nat, skip: nat)

  function Quotient(x: nat, m: nat): nat
    requires m > 0
  {
    x / m
  }

  datatype Layout = Layout(unitBits: nat, offsetBits: nat, pageBits: nat, sectorBits: nat, readPageBits: nat) {

    /** Every size and page number of the chip fits a signed machine word. */
    predicate Fits() {
      unitBits + offsetBits + pageBits + sectorBits <= 62 && readPageBits <= 62
    }

    function UnitSize(): nat { Pow2(unitBits) }

    function AddressesPerPage(): nat { Pow2(offsetBits) }

    function PagesPerSector(): nat { Pow2(pageBits) }

    function SectorsPerChip(): nat { Pow2(sectorBits) }

    function ReadPageBoundary(): nat { Pow2(readPageBits) }

    /** Bytes in a read window. */
    function WindowSize(): nat { Pow2(unitBits + offsetBits + readPageBits) }

    // The products below are powers of two again (SizesAreProducts).
    function TotalPages(): nat { Pow2(pageBits + sectorBits) }

    function PageSize(): nat { Pow2(unitBits + offsetBits) }

    function SectorSize(): nat { Pow2(unitBits + offsetBits + pageBits) }

    function ChipSize(): nat { Pow2(unitBits + offsetBits + pageBits + sectorBits) }

    /** Position of the first byte of a page: page * PageSize() (PageStartIs). */
    function PageStart(page: nat): nat {
      Times(page, PageSize())
    }

    /** `uint(page) & ^mask` on 64-bit words. */
    function SectorBegin(page: nat): nat
      requires Fits() && page < Pow2(63)
    {
      Pow2Monotone(pageBits, WORD_BITS);
      And(page, Not(WORD_BITS, PagesPerSector() - 1))
    }

    /** `(uint(page) | mask) + 1`. */
    function SectorEnd(page: nat): nat {
      Or(page, PagesPerSector() - 1) + 1
    }

    function ReadBurstEnd(page: nat): nat {
      Or(page, ReadPageBoundary() - 1) + 1
    }

    function ReadAddress(offset: nat): u32 {
      offset / UnitSize() % 0x1_0000_0000
    }

    function PageReadAddress(page: nat): u32 {
      page * AddressesPerPage() % 0x1_0000_0000
    }

    function ValidateOffsetSize(offset: int, size: int): Error {
      if offset < 0 || offset >= ChipSize() then ErrInvalidOffsetSize
      else if size < 0 || size > ChipSize() then ErrInvalidOffsetSize
      else if offset + size > ChipSize() then ErrInvalidOffsetSize
      else Nil
    }

    function ValidatePageRange(begin: int, end: int): Error {
      if begin < 0 || begin >= TotalPages() then ErrInvalidPageRange
      else if end < 0 || end > TotalPages() then ErrInvalidPageRange
      else if end < begin then ErrInvalidPageRange
      else Nil
    }

    /** The pages [begin, end) a byte range touches, and the offset of its first byte in its first page. */
    function ConvertAddressRange(offset: int, size: int): Result<Range> {
      if ValidateOffsetSize(offset, size) != Nil then Err(ErrInvalidOffsetSize)
      else
        var ps := PageSize();
        var begin := Quotient(offset, ps);
        var end := if size > 0 then Quotient(offset + size - 1, ps) + 1 else begin;
        Ok(Range(begin, end, offset % ps))
    }

    /** The sector-aligned pages [begin, end) around a page range. */
    function PageRangeSectorBoundaries(begin: int, end: int): Result<Range>
      requires Fits()
    {
      if ValidatePageRange(begin, end) != Nil then Err(ErrInvalidPageRange)
      else
        TotalBound();
        var sbegin := SectorBegin(begin);
        Ok(Range(sbegin, if end > begin then SectorEnd(end - 1) else sbegin, 0))
    }

    lemma TotalBound()
      requires Fits()
      ensures TotalPages() <= Pow2(62) < Pow2(63)
    {
      Pow2Monotone(pageBits + sectorBits, 62);
    }
  }

  const LAYOUT_128B_128_8 := Layout(0, 7, 7, 3, 8)
  const LAYOUT_64W_128_8 := Layout(1, 6, 7, 3, 8)

  /** The sizes are the products the driver computes. */
  lemma SizesAreProducts(l: Layout)
    ensures l.PageSize() == l.UnitSize() * l.AddressesPerPage()
    ensures l.TotalPages() == l.PagesPerSector() * l.SectorsPerChip()
    ensures l.SectorSize() == l.PagesPerSector() * l.PageSize()
    ensures l.ChipSize() == l.SectorsPerChip() * l.SectorSize() == l.TotalPages() * l.PageSize()
  {
    Pow2Add(l.unitBits, l.offsetBits);
    Pow2Add(l.pageBits, l.sectorBits);
    Pow2Add(l.pageBits, l.unitBits + l.offsetBits);
    Pow2Add(l.sectorBits, l.unitBits + l.offsetBits + l.pageBits);
    Pow2Add(l.pageBits + l.sectorBits, l.unitBits + l.offsetBits);
  }

  lemma WindowIsProduct(l: Layout)
    ensures l.WindowSize() == l.ReadPageBoundary() * l.PageSize()
  {
    Pow2Add(l.readPageBits, l.unitBits + l.offsetBits);
  }

  lemma PageStartIs(l: Layout, page: nat)
    ensures l.PageStart(page) == page * l.PageSize()
  {
    TimesIs(page, l.PageSize());
  }

  lemma {:induction false} PageStartAdd(l: Layout, a: nat, b: nat)
    ensures l.PageStart(a + b) == l.PageStart(a) + l.PageStart(b)
  {
    if b > 0 {
      PageStartAdd(l, a, b - 1);
    }
  }

  lemma PageStartSplit(l: Layout, a: nat, b: nat)
    requires a <= b
    ensures l.PageStart(b) == l.PageStart(a) + l.PageStart(b - a)
  {
    PageStartAdd(l, a, b - a);
  }

  lemma PageStartOrder(l: Layout, a: nat, b: nat)
    requires a <= b
    ensures l.PageStart(a) <= l.PageStart(b)
    ensures a < b ==> l.PageStart(a) + l.PageSize() == l.PageStart(a + 1) <= l.PageStart(b)
  {
    PageStartAdd(l, a, b - a);
    if a < b {
      PageStartAdd(l, a + 1, b - a - 1);
    }
  }

  lemma PageStartTotal(l: Layout)
    ensures l.PageStart(l.TotalPages()) == l.ChipSize()
  {
    SizesAreProducts(l);
    PageStartIs(l, l.TotalPages());
  }

  /** The masks compute exactly the neighbouring multiples of the sector and window sizes. */
  lemma MasksAreMultiples(l: Layout, page: nat)
    requires l.Fits() && page < Pow2(63)
    ensures l.SectorBegin(page) == page / l.PagesPerSector() * l.PagesPerSector()
    ensures l.SectorEnd(page) == (page / l.PagesPerSector() + 1) * l.PagesPerSector()
    ensures l.ReadBurstEnd(page) == (page / l.ReadPageBoundary() + 1) * l.ReadPageBoundary()
  {
    hide Layout.SectorBegin, Layout.SectorEnd, Layout.ReadBurstEnd, Pow2;
    SectorBeginIs(l, page);
    SectorEndIs(l, page);
    BurstEndIsMultiple(l, page);
  }

  lemma SectorBeginIs(l: Layout, page: nat)
    requires l.Fits() && page < Pow2(63)
    ensures l.SectorBegin(page) == page / l.PagesPerSector() * l.PagesPerSector()
  {
    hide And, Not, Pow2;
    Pow2Monotone(63, WORD_BITS);
    ClearLowBits(WORD_BITS, l.pageBits, page);
  }

  lemma SectorEndIs(l: Layout, page: nat)
    ensures l.SectorEnd(page) == (page / l.PagesPerSector() + 1) * l.PagesPerSector()
  {
    hide Or, Pow2;
    SetLowBits(l.pageBits, page);
  }

  lemma BurstEndIsMultiple(l: Layout, page: nat)
    ensures l.ReadBurstEnd(page) == (page / l.ReadPageBoundary() + 1) * l.ReadPageBoundary()
  {
    hide Or, Pow2;
    SetLowBits(l.readPageBits, page);
  }

  /** Sectors partition the pages: a page is in its sector, and a page lies within the sector bounds of
      another exactly when the two have the same sector bounds. */
  lemma SectorsPartition(l: Layout, p: nat, q: nat)
    requires l.Fits() && p < Pow2(63) && q < Pow2(63)
    ensures l.SectorBegin(p) <= p < l.SectorEnd(p) == l.SectorBegin(p) + l.PagesPerSector()
    ensures l.SectorBegin(p) <= q < l.SectorEnd(p) <==> l.SectorBegin(q) == l.SectorBegin(p)
    ensures l.SectorBegin(p) <= q < l.SectorEnd(p) <==> l.SectorEnd(q) == l.SectorEnd(p)
  {
    MasksAreMultiples(l, p);
    MasksAreMultiples(l, q);
    Blocks(p, q, l.PagesPerSector());
  }

  lemma Interval(x: nat, m: nat)
    requires m > 0
    ensures x / m * m <= x < (x / m + 1) * m == x / m * m + m
  {
    DivRemainder(x, m);
  }

  lemma Blocks(p: nat, q: nat, m: nat)
    requires m > 0
    ensures p / m * m <= p < (p / m + 1) * m == p / m * m + m
    ensures p / m * m <= q < (p / m + 1) * m <==> q / m * m == p / m * m
    ensures p / m * m <= q < (p / m + 1) * m <==> (q / m + 1) * m == (p / m + 1) * m
  {
    Interval(p, m);
    Interval(q, m);
    var d := q / m - p / m;
    assert d * m == q / m * m - p / m * m;
    MulSign(d, m);
  }

  lemma MulOrder(a: int, b: int, m: nat)
    requires a <= b
    ensures a * m <= b * m
  {
    assert (b - a) * m >= 0;
  }

  lemma Rotate(a: nat, b: nat, c: nat)
    ensures a * (b * c) == (a * b) * c == (a * c) * b
  {
  }

  /** A page's bus address is the bus address of its first byte, on byte- and word-addressed chips alike. */
  lemma PageAddressAgrees(l: Layout, page: nat)
    ensures l.PageReadAddress(page) == l.ReadAddress(page * l.PageSize())
  {
    SizesAreProducts(l);
    AddressOf(page, l.UnitSize(), l.AddressesPerPage());
  }

  lemma AddressOf(page: nat, u: nat, a: nat)
    requires u > 0
    ensures page * (u * a) / u == page * a
  {
    Rotate(page, u, a);
    QuotientUnique(page * (u * a), u, page * a, 0);
  }

  lemma Cover(offset: nat, size: nat, ps: nat, total: nat)
    requires ps > 0 && size > 0 && offset + size <= total * ps
    ensures var begin, end := offset / ps, (offset + size - 1) / ps + 1;
            && begin < end <= total
            && offset == begin * ps + offset % ps
            && offset < begin * ps + ps
            && end * ps - ps < offset + size <= end * ps
  {
    var last := offset + size - 1;
    Interval(offset, ps);
    Interval(last, ps);
    var begin, end := offset / ps, last / ps + 1;
    assert (begin - (end - 1)) * ps == begin * ps - (end - 1) * ps;
    MulSign(begin - (end - 1), ps);
    assert (end - 1 - total) * ps == (end - 1) * ps - total * ps;
    if end - 1 - total >= 0 {
      MulOrder(0, end - 1 - total, ps);
    }
  }

  /** The page range computed for a non-empty byte range contains it, with its first and its last byte in its
      first and its last page. */
  lemma MinimalCover(l: Layout, offset: int, size: int)
    requires l.ValidateOffsetSize(offset, size) == Nil && size > 0
    ensures var c := l.ConvertAddressRange(offset, size);
            && c.Ok?
            && c.value.begin < c.value.end <= l.TotalPages()
            && c.value.skip < l.PageSize()
            && offset == c.value.begin * l.PageSize() + c.value.skip
            && c.value.end * l.PageSize() - l.PageSize() < offset + size <= c.value.end * l.PageSize()
  {
    SizesAreProducts(l);
    Cover(offset, size, l.PageSize(), l.TotalPages());
  }

  /** Every page range that contains the bytes contains the computed one. */
  lemma PageCoverMinimal(l: Layout, offset: int, size: int, p: nat, q: nat)
    requires l.ValidateOffsetSize(offset, size) == Nil && size > 0
    requires p * l.PageSize() <= offset && offset + size <= q * l.PageSize()
    ensures var c := l.ConvertAddressRange(offset, size); c.Ok? && p <= c.value.begin && c.value.end <= q
  {
    hide Layout.PageSize, Layout.ValidateOffsetSize, Quotient;
    MinimalCover(l, offset, size);
    var c, ps := l.ConvertAddressRange(offset, size).value, l.PageSize();
    NotBefore(c.begin, p, ps, offset);
    NotAfter(c.end, q, ps, offset + size);
  }

  lemma NotBefore(begin: nat, p: nat, ps: nat, offset: nat)
    requires p * ps <= offset < begin * ps + ps
    ensures p <= begin
  {
    if p > begin {
      MulOrder(begin + 1, p, ps);
    }
  }

  lemma NotAfter(end: nat, q: nat, ps: nat, last: nat)
    requires end * ps - ps < last <= q * ps
    ensures end <= q
  {
    if q < end {
      MulOrder(q, end - 1, ps);
    }
  }
}
