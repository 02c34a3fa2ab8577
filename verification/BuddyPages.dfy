/** The page layout of the buddy allocator, without headers or free lists: which
    offsets hold pages, of what order, free or in use. */
module BuddyPages {
  import opened PowersOfTwo

  datatype Page = Page(bits: nat, used: bool)

  /** The pages by offset from the start of the arena. */
  type Pages = map<int, Page>

  /** Smallest order whose pages can hold a header and an aligned block. */
  const MIN_BITS: nat := 5

  function Buddy(o: nat, b: nat): nat {
    Xor(Pow2(b), o)
  }

  predicate Holds(pages: Pages, o: int, x: int) {
    o in pages && o <= x < o + Pow2(pages[o].bits)
  }

  ghost predicate Placed(pages: Pages, total: int) {
    forall o :: o in pages ==>
      && 0 <= o && MIN_BITS <= pages[o].bits
      && Aligned(o, pages[o].bits) && o + Pow2(pages[o].bits) <= total
  }

  ghost predicate Apart(pages: Pages) {
    forall o, o' :: o in pages && o' in pages && o < o' ==> o + Pow2(pages[o].bits) <= o'
  }

  ghost predicate Covered(pages: Pages, x: int) {
    exists o :: Holds(pages, o, x)
  }

  ghost predicate Covers(pages: Pages, total: int) {
    forall x :: 0 <= x < total ==> Covered(pages, x)
  }

  predicate Twins(pages: Pages, o: int, o': int) {
    && o in pages && !pages[o].used && 0 <= o && o' == Buddy(o, pages[o].bits)
    && o' in pages && !pages[o'].used && pages[o'].bits == pages[o].bits
  }

  ghost predicate NoTwins(pages: Pages) {
    forall o, o' :: !Twins(pages, o, o')
  }

  /** Aligned pages tile [0, total) and no two free buddies are left unmerged. */
  ghost predicate Inv(pages: Pages, total: int) {
    Placed(pages, total) && Apart(pages) && Covers(pages, total) && NoTwins(pages)
  }

  function Used(pages: Pages): map<int, nat> {
    map o | o in pages && pages[o].used :: pages[o].bits
  }

  /** Some free page has order at least `k`. */
  ghost predicate HasFree(pages: Pages, k: nat) {
    exists o :: o in pages && !pages[o].used && k <= pages[o].bits
  }

  lemma UsedShared(p: Pages, p': Pages, o: int)
    requires Used(p) == Used(p') && o in p && p[o].used
    ensures o in p' && p'[o] == p[o]
  {
    assert o in Used(p);
    assert o in Used(p') && Used(p')[o] == Used(p)[o];
  }

  lemma HoldsUnique(pages: Pages, o: int, o': int, x: int)
    requires Apart(pages) && Holds(pages, o, x) && Holds(pages, o', x)
    ensures o == o'
  {
  }

  /** The buddy region of a page, when it lies in the arena, begins with a page of
      no larger order: the buddy address is never inside another page. */
  lemma BuddyLive(pages: Pages, total: int, o: int)
    requires Placed(pages, total) && Apart(pages) && Covers(pages, total)
    requires o in pages && Buddy(o, pages[o].bits) + Pow2(pages[o].bits) <= total
    ensures var x := Buddy(o, pages[o].bits); x in pages && pages[x].bits <= pages[o].bits
  {
    var b := pages[o].bits;
    var x := Buddy(o, b);
    XorBuddy(o, b);
    assert Covered(pages, x);
    var y :| Holds(pages, y, x);
    var c := pages[y].bits;
    if c > b {
      var q := if x < o then x else o;
      DyadicContains(y, c, q, b + 1, x);
      HoldsUnique(pages, y, o, o);
      assert false;
    }
    AlignedWeaken(x, b, c);
    AlignedApart(y, x, c);
  }

  /** A block all of whose pages are free is not cut into smaller pages: the least
      of them would have a free twin. */
  lemma {:induction false} FreeBlockWhole(pages: Pages, total: int, o: int, q: int, n: nat)
    requires Inv(pages, total)
    requires Aligned(q, n) && 0 <= q && q + Pow2(n) <= total
    requires forall p :: p in pages && q <= p < q + Pow2(n) ==> !pages[p].used
    requires o in pages && q <= o < q + Pow2(n)
    ensures pages[o].bits >= n
    decreases pages[o].bits
  {
    var b := pages[o].bits;
    if b < n {
      var x := Buddy(o, b);
      XorBuddy(o, b);
      var m := if x < o then x else o;
      DyadicContains(q, n, m, b + 1, o);
      BuddyLive(pages, total, o);
      assert !Twins(pages, o, x);
      FreeBlockWhole(pages, total, x, q, n);
    }
  }

  /** A free page of one layout is a page of any other layout with the same pages in use. */
  lemma FreePageShared(p: Pages, p': Pages, total: int, o: int)
    requires Inv(p, total) && Inv(p', total) && Used(p) == Used(p')
    requires o in p && !p[o].used
    ensures o in p' && p'[o] == p[o]
  {
    var b := p[o].bits;
    assert Covered(p', o);
    var y :| Holds(p', y, o);
    if p'[y].used {
      UsedShared(p', p, y);
      HoldsUnique(p, y, o, o);
      assert false;
    }
    var c := p'[y].bits;
    if c > b {
      DyadicContains(y, c, o, b, o);
      FreeRegionShared(p', p, y);
      FreeBlockWhole(p, total, o, y, c);
    } else {
      AlignedWeaken(o, b, c);
      AlignedApart(y, o, c);
      FreeRegionShared(p, p', o);
      FreeBlockWhole(p', total, o, o, b);
    }
  }

  /** The block of a free page holds no page in use of a layout with the same used pages. */
  lemma FreeRegionShared(p: Pages, p': Pages, o: int)
    requires Apart(p) && Used(p) == Used(p')
    requires o in p && !p[o].used
    ensures forall y :: y in p' && o <= y < o + Pow2(p[o].bits) ==> !p'[y].used
  {
    forall y | y in p' && o <= y < o + Pow2(p[o].bits)
      ensures !p'[y].used
    {
      if p'[y].used {
        UsedShared(p', p, y);
        HoldsUnique(p, y, o, y);
      }
    }
  }

  /** The layout is a function of the pages in use: coalescing leaves no trace of
      the order in which blocks were allocated and freed. */
  lemma Canonical(p: Pages, p': Pages, total: int)
    requires Inv(p, total) && Inv(p', total) && Used(p) == Used(p')
    ensures p == p'
  {
    forall o | o in p
      ensures o in p' && p'[o] == p[o]
    {
      if p[o].used {
        UsedShared(p, p', o);
      } else {
        FreePageShared(p, p', total, o);
      }
    }
    forall o | o in p'
      ensures o in p
    {
      if p'[o].used {
        UsedShared(p', p, o);
      } else {
        FreePageShared(p', p, total, o);
      }
    }
  }

  /** Cut the used page at `r` in two: the lower half stays in use, the upper is free. */
  function Split(pages: Pages, r: nat): Pages
    requires r in pages && pages[r].bits > 0
  {
    var k := pages[r].bits - 1;
    pages[r := Page(k, true)][r + Pow2(k) := Page(k, false)]
  }

  lemma SplitPlaced(pages: Pages, total: int, r: int)
    requires Placed(pages, total) && Apart(pages) && r in pages && pages[r].bits > MIN_BITS
    ensures r + Pow2(pages[r].bits - 1) !in pages
    ensures Placed(Split(pages, r), total) && Apart(Split(pages, r))
  {
    hide Pow2, Aligned, Xor;
    var k := pages[r].bits - 1;
    Pow2Step(k);
    AlignedWeaken(r, k + 1, k);
    AlignedAdd(r, k);
  }

  lemma SplitCovers(pages: Pages, total: int, r: nat)
    requires Covers(pages, total) && r in pages && pages[r].bits > 0 && r + Pow2(pages[r].bits - 1) !in pages
    ensures Covers(Split(pages, r), total)
  {
    hide Pow2, Aligned, Xor;
    Pow2Step(pages[r].bits - 1);
    var u := r + Pow2(pages[r].bits - 1);
    var q := Split(pages, r);
    forall x | 0 <= x < total
      ensures Covered(q, x)
    {
      assert Covered(pages, x);
      var o :| Holds(pages, o, x);
      assert Holds(q, if o == r && u <= x then u else o, x);
    }
  }

  /** The buddy of the upper half is the lower one, which is in use, and no other twins arise. */
  lemma SplitNoTwins(pages: Pages, total: int, r: nat)
    requires r in pages && pages[r].used && pages[r].bits > 0 && Aligned(r, pages[r].bits)
    requires Placed(Split(pages, r), total) && NoTwins(pages) && r + Pow2(pages[r].bits - 1) !in pages
    ensures NoTwins(Split(pages, r))
  {
    hide Pow2, Aligned, Xor, Placed;
    var k := pages[r].bits - 1;
    var q := Split(pages, r);
    BuddyOfHalf(r, k);
    forall o, o' | Twins(q, o, o')
      ensures Twins(pages, o, o')
    {
      if o' == r + Pow2(k) {
        PlacedAt(q, total, o);
        BuddyInvolution(o, k);
      }
    }
    assert forall o, o' :: !Twins(pages, o, o');
  }

  lemma PlacedAt(pages: Pages, total: int, o: int)
    requires Placed(pages, total) && o in pages
    ensures 0 <= o && MIN_BITS <= pages[o].bits && Aligned(o, pages[o].bits) && o + Pow2(pages[o].bits) <= total
  {
  }

  lemma BuddyOfHalf(r: nat, k: nat)
    requires Aligned(r, k + 1)
    ensures Buddy(r, k) == r + Pow2(k) && Buddy(r + Pow2(k), k) == r && Aligned(r, k)
  {
    AlignedWeaken(r, k + 1, k);
    XorBuddy(r, k);
    BuddyInvolution(r, k);
  }

  lemma SplitUsed(pages: Pages, r: nat)
    requires r in pages && pages[r].used && pages[r].bits > 0 && r + Pow2(pages[r].bits - 1) !in pages
    ensures Used(Split(pages, r)) == Used(pages)[r := pages[r].bits - 1]
  {
    hide Pow2;
  }

  lemma SplitKeeps(pages: Pages, total: int, r: int)
    requires Inv(pages, total) && r in pages && pages[r].used && pages[r].bits > MIN_BITS
    ensures r + Pow2(pages[r].bits - 1) !in pages
    ensures Inv(Split(pages, r), total)
    ensures Used(Split(pages, r)) == Used(pages)[r := pages[r].bits - 1]
  {
    PlacedAt(pages, total, r);
    hide Pow2, Aligned, Xor, Placed, Apart, Covers, NoTwins, Split, Used;
    SplitPlaced(pages, total, r);
    SplitCovers(pages, total, r);
    SplitNoTwins(pages, total, r);
    SplitUsed(pages, r);
  }

  /** A change of flags leaves the tiling alone. */
  lemma SameSizes(pages: Pages, q: Pages, total: int)
    requires Placed(pages, total) && Apart(pages) && Covers(pages, total)
    requires forall o :: (o in pages <==> o in q) && (o in q ==> q[o].bits == pages[o].bits)
    ensures Placed(q, total) && Apart(q) && Covers(q, total)
  {
    hide Pow2, Aligned;
    forall x | 0 <= x < total
      ensures Covered(q, x)
    {
      assert Covered(pages, x);
      var o :| Holds(pages, o, x);
      assert Holds(q, o, x);
    }
  }

  /** Taking a free page into use, or giving it back when its buddy is not free. */
  lemma MarkUsed(pages: Pages, total: int, r: int)
    requires Inv(pages, total) && r in pages && !pages[r].used
    ensures var q := pages[r := Page(pages[r].bits, true)];
            Inv(q, total) && Used(q) == Used(pages)[r := pages[r].bits]
  {
    hide Pow2, Xor, Placed, Apart, Covers;
    var q := pages[r := Page(pages[r].bits, true)];
    SameSizes(pages, q, total);
    forall o, o'
      ensures !Twins(q, o, o')
    {
      assert !Twins(pages, o, o');
    }
  }

  lemma MarkFreeNoTwins(pages: Pages, total: int, r: nat)
    requires Placed(pages, total) && NoTwins(pages) && r in pages && pages[r].used
    requires var x := Buddy(r, pages[r].bits);
             x in pages ==> pages[x] != Page(pages[r].bits, false)
    ensures NoTwins(pages[r := Page(pages[r].bits, false)])
  {
    hide Pow2, Aligned, Xor, Placed;
    var q := pages[r := Page(pages[r].bits, false)];
    forall o, o' | Twins(q, o, o')
      ensures Twins(pages, o, o')
    {
      PlacedAt(pages, total, o);
      BuddyInvolution(o, q[o].bits);
    }
    assert forall o, o' :: !Twins(pages, o, o');
  }

  lemma MarkFree(pages: Pages, total: int, r: nat)
    requires Inv(pages, total) && r in pages && pages[r].used
    requires var x := Buddy(r, pages[r].bits);
             x in pages ==> pages[x] != Page(pages[r].bits, false)
    ensures var q := pages[r := Page(pages[r].bits, false)];
            Inv(q, total) && Used(q) == Used(pages) - {r}
  {
    PlacedAt(pages, total, r);
    hide Pow2, Xor, Placed, Apart, Covers, NoTwins;
    var q := pages[r := Page(pages[r].bits, false)];
    SameSizes(pages, q, total);
    MarkFreeNoTwins(pages, total, r);
  }

  lemma BuddyInvolution(o: nat, b: nat)
    requires Aligned(o, b)
    ensures Buddy(Buddy(o, b), b) == o && Buddy(o, b) != o
  {
    var x := Buddy(o, b);
    XorBuddy(o, b);
    XorBuddy(x, b);
    if Aligned(o, b + 1) && Aligned(x, b + 1) {
      AlignedApart(o, x, b + 1);
    }
  }

  /** Join the used page at `r` with its free buddy into one used page of the next order. */
  function Merge(pages: Pages, r: nat): Pages
    requires r in pages
  {
    var b := pages[r].bits;
    var x := Buddy(r, b);
    if x < r then (pages - {r})[x := Page(b + 1, true)] else (pages - {x})[r := Page(b + 1, true)]
  }

  lemma OneFewer(pages: Pages, m: int, h: int, p: Page)
    requires m in pages && h in pages && m != h
    ensures |(pages - {h})[m := p]| < |pages|
  {
    var q := (pages - {h})[m := p];
    assert q.Keys == pages.Keys - {h};
    assert |q.Keys| < |pages.Keys|;
  }

  /** What `Merge` does, in terms of the lower half `m` and the upper half `h`. */
  lemma MergeHalves(pages: Pages, total: int, r: nat) returns (m: int, h: int)
    requires Inv(pages, total) && r in pages && pages[r].used
    requires var x := Buddy(r, pages[r].bits); x in pages && pages[x] == Page(pages[r].bits, false)
    ensures var b := pages[r].bits;
            && m == (if Buddy(r, b) < r then Buddy(r, b) else r)
            && h == (if Buddy(r, b) < r then r else Buddy(r, b))
            && m in pages && h in pages && h == m + Pow2(b)
            && pages[m].bits == pages[h].bits == b && Aligned(m, b + 1)
            && Merge(pages, r) == (pages - {h})[m := Page(b + 1, true)]
            && |Merge(pages, r)| < |pages|
  {
    PlacedAt(pages, total, r);
    XorBuddy(r, pages[r].bits);
    hide Pow2, Aligned, Xor, Inv;
    var b := pages[r].bits;
    var x := Buddy(r, b);
    m, h := if x < r then x else r, if x < r then r else x;
    OneFewer(pages, m, h, Page(b + 1, true));
  }

  lemma MergeCovers(pages: Pages, q: Pages, total: int, m: int, h: int)
    requires Covers(pages, total) && m in pages && h in pages
    requires pages[m].bits == pages[h].bits && h == m + Pow2(pages[m].bits)
    requires q == (pages - {h})[m := Page(pages[m].bits + 1, true)]
    ensures Covers(q, total)
  {
    hide Pow2, Aligned;
    Pow2Step(pages[m].bits);
    forall y | 0 <= y < total
      ensures Covered(q, y)
    {
      assert Covered(pages, y);
      var o :| Holds(pages, o, y);
      assert Holds(q, if o == h then m else o, y);
    }
  }

  lemma MergePlaced(pages: Pages, q: Pages, total: int, m: int, h: int)
    requires Placed(pages, total) && Apart(pages) && m in pages && h in pages
    requires pages[m].bits == pages[h].bits && h == m + Pow2(pages[m].bits) && Aligned(m, pages[m].bits + 1)
    requires q == (pages - {h})[m := Page(pages[m].bits + 1, true)]
    ensures Placed(q, total) && Apart(q)
  {
    hide Pow2, Aligned;
    Pow2Step(pages[m].bits);
    PlacedAt(pages, total, h);
    forall o, o' | o in q && o' in q && o < o'
      ensures o + Pow2(q[o].bits) <= o'
    {
      if o == m {
        assert h < o' by { assert o + Pow2(pages[o].bits) <= o'; }
      }
    }
  }

  lemma MergeNoTwins(pages: Pages, q: Pages, m: int, h: int)
    requires NoTwins(pages) && m in pages
    requires q == (pages - {h})[m := Page(pages[m].bits + 1, true)]
    ensures NoTwins(q)
  {
    hide Buddy;
    forall o, o'
      ensures !Twins(q, o, o')
    {
      assert !Twins(pages, o, o');
    }
  }

  lemma MergeUsed(pages: Pages, q: Pages, r: int, x: int, m: int, h: int, p: Page)
    requires r in pages && x in pages && !pages[x].used && q == (pages - {h})[m := p]
    requires (m == r && h == x) || (m == x && h == r)
    ensures Used(q) - {m} == Used(pages) - {r}
  {
  }

  lemma MergeInv(pages: Pages, q: Pages, total: int, m: int, h: int)
    requires Inv(pages, total) && m in pages && h in pages
    requires pages[m].bits == pages[h].bits && h == m + Pow2(pages[m].bits) && Aligned(m, pages[m].bits + 1)
    requires q == (pages - {h})[m := Page(pages[m].bits + 1, true)]
    ensures Inv(q, total)
  {
    hide Pow2, Aligned, Buddy, Placed, Apart, Covers, NoTwins;
    MergePlaced(pages, q, total, m, h);
    MergeCovers(pages, q, total, m, h);
    MergeNoTwins(pages, q, m, h);
  }

  lemma MergeKeeps(pages: Pages, total: int, r: nat)
    requires Inv(pages, total) && r in pages && pages[r].used
    requires var x := Buddy(r, pages[r].bits); x in pages && pages[x] == Page(pages[r].bits, false)
    ensures var x := Buddy(r, pages[r].bits);
            var q := Merge(pages, r);
            var m := if x < r then x else r;
            && Inv(q, total)
            && m in q && q[m] == Page(pages[r].bits + 1, true)
            && Used(q) - {m} == Used(pages) - {r}
            && |q| < |pages|
  {
    hide Pow2, Aligned, Buddy, Inv, Merge, Used;
    var q := Merge(pages, r);
    var m, h := MergeHalves(pages, total, r);
    MergeInv(pages, q, total, m, h);
    MergeUsed(pages, q, r, Buddy(r, pages[r].bits), m, h, Page(pages[r].bits + 1, true));
  }

  /** `o` is `total` with its low b + 1 bits cleared, and bit `b` of `total` is set:
      the place of the order-`b` chunk in the greedy decomposition of the arena. */
  predicate Root(total: int, b: nat, o: int) {
    0 <= o && Aligned(o, b + 1) && o + Pow2(b) <= total < o + Pow2(b + 1)
  }

  lemma RootUnique(total: int, b: nat, o: int, o': int)
    requires Root(total, b, o) && Root(total, b, o')
    ensures o == o'
  {
    if o <= o' {
      AlignedApart(o, o', b + 1);
    } else {
      AlignedApart(o', o, b + 1);
    }
  }

  /** With nothing in use every page is the chunk the constructor would put there. */
  lemma AllFreeIsRoot(pages: Pages, total: int, o: int)
    requires Inv(pages, total) && Used(pages) == map[] && o in pages
    ensures Root(total, pages[o].bits, o)
  {
    var b := pages[o].bits;
    XorBuddy(o, b);
    var x := Buddy(o, b);
    var m := if x < o then x else o;
    if m + Pow2(b + 1) <= total {
      assert forall p :: p in Used(pages) <==> p in pages && pages[p].used;
      FreeBlockWhole(pages, total, o, m, b + 1);
    }
  }

  /** With nothing in use the layout is exactly the greedy power-of-two decomposition. */
  lemma AllFreeIsGreedy(pages: Pages, total: int, o: int, b: nat)
    requires Inv(pages, total) && Used(pages) == map[]
    ensures o in pages && pages[o] == Page(b, false) <==> MIN_BITS <= b && Root(total, b, o)
  {
    if o in pages {
      AllFreeIsRoot(pages, total, o);
      assert pages[o].used ==> o in Used(pages);
    }
    if MIN_BITS <= b && Root(total, b, o) {
      assert Covered(pages, o);
      var y :| Holds(pages, y, o);
      AllFreeIsRoot(pages, total, y);
      var c := pages[y].bits;
      if c > b {
        AlignedAdd(y, c);
        AlignedWeaken(y + Pow2(c), c, b + 1);
        AlignedApart(o, y + Pow2(c), b + 1);
      } else {
        AlignedWeaken(o, b + 1, c);
        AlignedApart(y, o, c);
        if c < b {
          Pow2Monotone(c + 1, b);
        }
      }
    }
  }

  /** Allocating and then freeing restores the layout exactly. */
  lemma AllocFreeRoundTrip(before: Pages, during: Pages, after: Pages, total: int, r: int, k: nat)
    requires Inv(before, total) && Inv(during, total) && Inv(after, total)
    requires r !in Used(before)
    requires Used(during) == Used(before)[r := k]
    requires Used(after) == Used(during) - {r}
    ensures after == before
  {
    assert Used(after) == Used(before);
    Canonical(after, before, total);
  }
}
