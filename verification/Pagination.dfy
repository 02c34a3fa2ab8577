/** Page arithmetic of data/basic_master.h and the page links of data/basic_master.cpp. */
module Pagination {

  datatype State = State(records: nat, size: int, current: int, total: int)

  function Ceil(x: real): int {
    -((-x).Floor)
  }

  /** What `calc_pages` leaves in the content object. */
  function Calc(s: State): State {
    if s.records != 0 then
      var size := if s.size <= 0 then 10 else s.size;
      var total := Ceil(s.records as real / size as real);
      State(s.records, size,
            if s.current < 0 then 0 else if s.current >= total then total - 1 else s.current, total)
    else State(s.records, s.size, 0, 1)
  }

  class Pager {
    var pageRecords: nat
    var pageSize: int
    var curPage: int
    var pageTotal: int

    function Abs(): State
      reads this
    {
      State(pageRecords, pageSize, curPage, pageTotal)
    }

    constructor (records: nat, size: int, current: int)
      ensures Abs() == State(records, size, current, 1)
    {
      pageRecords, pageSize, curPage, pageTotal := records, size, current, 1;
    }

    /** The page exists afterwards, and the pages hold all records, the last one at least one. */
    method CalcPages()
      modifies this
      ensures Abs() == Calc(old(Abs()))
      ensures pageRecords == old(pageRecords) && 0 <= curPage < pageTotal
      ensures pageRecords > 0 ==> pageSize > 0 && (pageTotal - 1) * pageSize < pageRecords <= pageTotal * pageSize
      ensures old(pageSize) > 0 ==> pageSize == old(pageSize)
      ensures 0 <= old(curPage) < pageTotal <==> curPage == old(curPage)
      ensures old(curPage) < 0 ==> curPage == 0
      ensures old(curPage) >= pageTotal ==> curPage == pageTotal - 1
      ensures pageRecords == 0 ==> pageTotal == 1 && pageSize == old(pageSize)
      ensures pageRecords > 0 && old(pageSize) <= 0 ==> pageSize == 10
    {
      if pageRecords > 0 {
        CeilCounts(pageRecords, if pageSize <= 0 then 10 else pageSize);
      }
      if pageRecords != 0 {
        if pageSize <= 0 {
          pageSize := 10;
        }
        pageTotal := Ceil(pageRecords as real / pageSize as real);
        curPage := if curPage < 0 then 0 else if curPage >= pageTotal then pageTotal - 1 else curPage;
      } else {
        pageTotal := 1;
        curPage := 0;
      }
    }
  }

  lemma MulDiv(n: int, d: int, r: real)
    requires d > 0 && r == n as real / d as real
    ensures r * d as real == n as real
  {
  }

  lemma ScaleLe(a: real, b: real, d: real)
    requires d > 0.0
    ensures a <= b <==> a * d <= b * d
    ensures a < b <==> a * d < b * d
  {
  }

  lemma CastProduct(a: int, b: int)
    ensures (a * b) as real == a as real * b as real
  {
  }

  lemma PositiveFactor(t: int, d: int)
    requires d > 0 && t * d > 0
    ensures t >= 1
  {
  }

  /** The rounded-up quotient is the number of pages: the last one is not empty. */
  lemma CeilCounts(records: nat, size: int)
    requires records > 0 && size > 0
    ensures var t := Ceil(records as real / size as real);
            t >= 1 && (t - 1) * size < records <= t * size
  {
    var r := records as real / size as real;
    var t := Ceil(r);
    MulDiv(records, size, r);
    assert (t - 1) as real < r <= t as real;
    ScaleLe((t - 1) as real, r, size as real);
    ScaleLe(r, t as real, size as real);
    CastProduct(t - 1, size);
    CastProduct(t, size);
    PositiveFactor(t, size);
  }

  /** After the clamp the page exists and its rows start within the records. */
  lemma CalcInRange(s: State)
    requires s.size > 0
    ensures var c := Calc(s);
            && 0 <= c.current < c.total && c.size > 0
            && 0 <= c.current * c.size <= s.records
            && (s.records > 0 ==> c.current * c.size < s.records <= c.total * c.size)
  {
    if s.records > 0 {
      CeilCounts(s.records, s.size);
      var c := Calc(s);
      Monotone(c.current, c.total - 1, s.size);
    }
  }

  lemma Monotone(a: int, b: int, d: int)
    requires 0 <= a <= b && d > 0
    ensures 0 <= a * d <= b * d
  {
  }

  /** The clamp keeps a page exactly when it exists, and a second clamp changes nothing: a listing
      redirects at most once, and only from a page out of range. */
  lemma RedirectOnce(records: nat, page: int)
    ensures var c := Calc(State(records, 10, page, 1));
            && (c.current == page <==> 0 <= page < c.total)
            && Calc(State(records, 10, c.current, 1)).current == c.current
  {
  }

  // ----- the rows of a page

  function Min(a: int, b: int): int {
    if a <= b then a else b
  }

  /** LIMIT size OFFSET page * size. */
  function Slice<T>(rows: seq<T>, page: nat, size: nat): seq<T>
    requires page * size <= |rows|
  {
    rows[page * size..Min(page * size + size, |rows|)]
  }

  /** The rows of the first `pages` pages, one page after the other. */
  function Concat<T>(rows: seq<T>, size: nat, pages: nat): seq<T> {
    if pages == 0 then []
    else Concat(rows, size, pages - 1) + (if (pages - 1) * size <= |rows| then Slice(rows, pages - 1, size) else [])
  }

  /** The pages together hold every record once, in order. */
  lemma {:induction false} ConcatPrefix<T>(rows: seq<T>, size: nat, pages: nat)
    requires size > 0 && (pages > 0 ==> (pages - 1) * size <= |rows|)
    ensures pages * size >= 0 && Concat(rows, size, pages) == rows[..Min(pages * size, |rows|)]
  {
    if pages > 0 {
      assert (pages - 1) * size + size == pages * size;
      if pages > 1 {
        assert (pages - 2) * size + size == (pages - 1) * size;
      }
      ConcatPrefix(rows, size, pages - 1);
    }
  }

  lemma PagesPartition<T>(rows: seq<T>, size: nat)
    requires size > 0
    ensures Concat(rows, size, Calc(State(|rows|, size, 0, 1)).total) == rows
  {
    if |rows| > 0 {
      CeilCounts(|rows|, size);
      ConcatPrefix(rows, size, Calc(State(|rows|, size, 0, 1)).total);
    } else {
      assert Concat(rows, size, 0) == [];
      assert 0 * size == 0;
    }
  }

  // ----- page links

  datatype Link = First | Here(page: int) | To(page: int) | Last(page: int)

  /** The links of `MULTI_PAGE`, which are drawn when there is more than one page. */
  method MultiPage(curPage: int, pageTotal: int) returns (links: seq<Link>, ghost b: int, ghost e: int)
    requires 0 <= curPage < pageTotal
    ensures pageTotal > 1 ==>
              && 0 <= b <= curPage <= e < pageTotal && e - b < 10 && b == (if curPage < 5 then 0 else curPage - 5)
              && (e - b == 9 || e == pageTotal - 1)
              && links == (if b > 0 then [First] else []) + Window(b, e, curPage)
                          + (if e < pageTotal - 1 then [Last(pageTotal - 1)] else [])
    ensures pageTotal <= 1 ==> links == [Here(0)]
  {
    links, b, e := [], 0, 0;
    if pageTotal > 1 {
      var i := curPage - 5;
      if i < 0 {
        i := 0;
      }
      var last := i + 9;
      if last >= pageTotal {
        last := pageTotal - 1;
      }
      b, e := i, last;
      if i > 0 {
        links := links + [First];
      }
      ghost var prefix := links;
      while i <= last
        invariant b <= i <= last + 1 && links == prefix + Window(b, i - 1, curPage)
      {
        links := links + [if i == curPage then Here(i) else To(i)];
        i := i + 1;
      }
      if last < pageTotal - 1 {
        links := links + [Last(pageTotal - 1)];
      }
    } else {
      links := [Here(0)];
    }
  }

  /** One link for each page from `b` to `e`, the current one marked. */
  function Window(b: int, e: int, current: int): (w: seq<Link>)
    ensures |w| == if e < b then 0 else e - b + 1
    ensures forall k :: 0 <= k < |w| ==> w[k] == if b + k == current then Here(b + k) else To(b + k)
    decreases e - b
  {
    if e < b then [] else Window(b, e - 1, current) + [if e == current then Here(e) else To(e)]
  }
}
