/**
 * The page arithmetic of the file listing: defaulting of `page` and `pageSize`
 * and the row offset, in Go's 64-bit `int`, whose arithmetic wraps around.
 */
module Paging {

  const Int64Min: int := -0x8000_0000_0000_0000
  const Int64Max: int := 0x7fff_ffff_ffff_ffff
  const Two64: int := 0x1_0000_0000_0000_0000

  /** A value of Go's `int` on a 64-bit platform. */
  type int64 = x: int | -0x8000_0000_0000_0000 <= x <= 0x7fff_ffff_ffff_ffff

  const DefaultPage: int64 := 1
  const DefaultPageSize: int64 := 10

  /** Two's-complement wrap-around of an exact result into 64 bits. */
  function Wrap(x: int): (r: int64)
    ensures Int64Min <= x <= Int64Max ==> r == x
    ensures (x - r) % Two64 == 0
  {
    ((x - Int64Min) % Two64) + Int64Min
  }

  /** The effective page, page size, and the number of rows skipped. */
  datatype Page = Page(page: int64, pageSize: int64, offset: int64)

  /** `listFilesHandler`'s arithmetic on the already-parsed query values. */
  function Paginate(page: int64, pageSize: int64): (p: Page)
    ensures p.page != 0 && p.pageSize != 0
    ensures page != 0 ==> p.page == page
    ensures pageSize != 0 ==> p.pageSize == pageSize
    ensures page == 0 ==> p.page == DefaultPage
    ensures pageSize == 0 ==> p.pageSize == DefaultPageSize
    ensures p.page != Int64Min && Int64Min <= (p.page - 1) * p.pageSize <= Int64Max ==>
      p.offset == (p.page - 1) * p.pageSize
    ensures (p.offset - (p.page - 1) * p.pageSize) % Two64 == 0
  {
    var page' := if page == 0 then DefaultPage else page;
    var pageSize' := if pageSize == 0 then DefaultPageSize else pageSize;
    WrappedProductIsCongruent(page' - 1, pageSize');
    Page(page', pageSize', Wrap(Wrap(page' - 1) * pageSize'))
  }

  /** Wrapping a factor before multiplying and wrapping again still lands on the exact product modulo 2^64. */
  lemma WrappedProductIsCongruent(a: int, b: int)
    ensures (Wrap(Wrap(a) * b) - a * b) % Two64 == 0
  {
    var x := Wrap(a) * b;
    var k1 := (a - Wrap(a)) / Two64;
    var k2 := (x - Wrap(x)) / Two64;
    assert a - Wrap(a) == Two64 * k1;
    assert x - Wrap(x) == Two64 * k2;
    calc {
      Wrap(x) - a * b;
      x - Two64 * k2 - a * b;
      (a - Two64 * k1) * b - Two64 * k2 - a * b;
      { assert (a - Two64 * k1) * b == a * b - Two64 * (k1 * b); }
      Two64 * (-(k1 * b) - k2);
    }
  }

  /** Consecutive pages are adjacent: page p+1 starts right where page p ends, as long as nothing overflows. */
  lemma PagesAreAdjacent(page: int64, pageSize: int64)
    requires 1 <= page < Int64Max && 1 <= pageSize
    requires page * pageSize <= Int64Max
    ensures Paginate(page + 1, pageSize).offset == Paginate(page, pageSize).offset + pageSize
  {
    assert 0 <= (page - 1) * pageSize <= page * pageSize;
    assert (page + 1 - 1) * pageSize == (page - 1) * pageSize + pageSize;
  }

  /** Negative values are passed through, so page -1 of size 10 asks for offset -20. */
  lemma NegativesAreNotClamped()
    ensures Paginate(-1, 10) == Page(-1, 10, -20)
    ensures Paginate(0, 0) == Page(1, 10, 0)
  {
  }

  /** The offset product wraps: page 2^62 + 1 of size 4 lands on offset 0, the same rows as page 1. */
  lemma OffsetWrapsAround()
    ensures Paginate(0x4000_0000_0000_0001, 4).offset == 0 == Paginate(1, 4).offset
  {
  }
}
