/** Page headers and free lists of the buddy allocator in lib/cppcms/private/buddy_allocator.h,
    and the effect of each of its pointer manipulations on them.

    Pointers are offsets from the start of the arena.  Raw memory is a map from offset
    to the header that would be read there; what it holds at offsets that are not the
    start of a page is arbitrary. */
module BuddyHeaders {
  import opened PowersOfTwo
  import opened BuddyPages
  import opened Sequences

  const PAGE_IN_USE: int := 0x100
  const WORD_BITS: nat := 64

  datatype Header = Header(bits: int, next: int, prev: int)

  type Headers = map<int, Header>

  /** The bytes the constructor carves into pages; `containts_bits` does not recognise
      sizes of 2^63 and more. */
  function Usable(memorySize: nat): nat {
    if memorySize < 0x8000_0000_0000_0000 then memorySize - memorySize % 32 else 0
  }

  /** Less than two alignments are left over, except in arenas too large to be carved at all. */
  lemma UsableIs(memorySize: nat)
    ensures Usable(memorySize) % 32 == 0
    ensures memorySize < 0x8000_0000_0000_0000 ==> Usable(memorySize) <= memorySize < Usable(memorySize) + 32
    ensures memorySize >= 0x8000_0000_0000_0000 ==> Usable(memorySize) == 0
  {
  }

  function Tag(p: Page): int {
    if p.used then p.bits + PAGE_IN_USE else p.bits
  }

  // ----- linked lists threaded through the headers

  /** `l` is linked both ways through `headers`, ending in null on both sides. */
  ghost predicate Chain(headers: Headers, l: seq<int>) {
    forall i :: 0 <= i < |l| ==>
      && l[i] in headers
      && headers[l[i]].next == At(l, i + 1) && headers[l[i]].prev == At(l, i - 1)
  }

  ghost predicate Tagged(pages: Pages, headers: Headers) {
    forall o :: o in pages ==> o in headers && headers[o].bits == Tag(pages[o])
  }

  /** Free list `b` is a well-formed doubly linked list of exactly the free pages of order `b`. */
  ghost predicate ListOk(pages: Pages, headers: Headers, head: int, l: seq<int>, b: nat) {
    && head == At(l, 0) && Distinct(l) && Chain(headers, l)
    && forall o :: o in l <==> o in pages && pages[o] == Page(b, false)
  }

  ghost predicate ListsOk(pages: Pages, headers: Headers, heads: seq<int>, lists: seq<seq<int>>) {
    && |heads| == |lists| == WORD_BITS
    && forall b :: 0 <= b < WORD_BITS ==> ListOk(pages, headers, heads[b], lists[b], b)
  }

  /** A list survives changes to headers and pages that are not on it. */
  lemma ListFrame(pages: Pages, headers: Headers, pages': Pages, headers': Headers, head: int, l: seq<int>, b: nat)
    requires ListOk(pages, headers, head, l, b)
    requires forall o :: o in l ==>
               o in headers' && headers'[o].next == headers[o].next && headers'[o].prev == headers[o].prev
    requires forall o :: (o in pages && pages[o] == Page(b, false)) <==> (o in pages' && pages'[o] == Page(b, false))
    ensures ListOk(pages', headers', head, l, b)
  {
  }

  function SetNext(headers: Headers, o: int, next: int): Headers
    requires o in headers
  {
    headers[o := headers[o].(next := next)]
  }

  function SetPrev(headers: Headers, o: int, prev: int): Headers
    requires o in headers
  {
    headers[o := headers[o].(prev := prev)]
  }

  function SetBits(headers: Headers, o: int, bits: int): Headers
    requires o in headers
  {
    headers[o := headers[o].(bits := bits)]
  }

  /** Take the node `x` out of the middle of its list, as `free_page` does. */
  function Unlinked(headers: Headers, x: int): Headers
    requires x in headers
    requires headers[x].next != NULL ==> headers[x].next in headers
    requires headers[x].prev != NULL ==> headers[x].prev in headers
  {
    var n, p := headers[x].next, headers[x].prev;
    var h := if n != NULL then SetPrev(headers, n, p) else headers;
    if p != NULL then SetNext(h, p, n) else h
  }

  /** The links of a node other than `l[i]` once `l[i]` has been taken out. */
  lemma UnlinkNode(headers: Headers, l: seq<int>, i: nat, k: nat)
    requires Chain(headers, l) && Distinct(l) && i < |l| && NULL !in l && k < |l| && k != i
    ensures var x := l[i];
            && (headers[x].next != NULL ==> headers[x].next in headers)
            && (headers[x].prev != NULL ==> headers[x].prev in headers)
            && l[k] in Unlinked(headers, x)
            && Unlinked(headers, x)[l[k]].next == (if k + 1 == i then At(l, i + 1) else At(l, k + 1))
            && Unlinked(headers, x)[l[k]].prev == (if k == i + 1 then At(l, i - 1) else At(l, k - 1))
  {
  }

  lemma UnlinkChain(headers: Headers, l: seq<int>, i: nat)
    requires Chain(headers, l) && Distinct(l) && i < |l| && NULL !in l
    ensures var x := l[i];
            var l' := RemoveAt(l, i);
            && (headers[x].next != NULL ==> headers[x].next in headers)
            && (headers[x].prev != NULL ==> headers[x].prev in headers)
            && Chain(Unlinked(headers, x), l') && Distinct(l')
            && (forall o :: o in l' <==> o in l && o != x)
  {
    var x := l[i];
    var l' := RemoveAt(l, i);
    RemoveAtElements(l, i);
    assert i > 0 ==> l[i - 1] in headers;
    assert i + 1 < |l| ==> l[i + 1] in headers;
    var headers' := Unlinked(headers, x);
    forall j | 0 <= j < |l'|
      ensures && l'[j] in headers'
              && headers'[l'[j]].next == At(l', j + 1) && headers'[l'[j]].prev == At(l', j - 1)
    {
      AtRemoved(l, i, j);
      UnlinkNode(headers, l, i, if j < i then j else j + 1);
    }
  }

  // ----- buddies

  function GetBuddy(memorySize: nat, p: nat, bits: nat): int {
    var b := Buddy(p, bits);
    if b + Pow2(bits) > memorySize then NULL else b
  }

  lemma AlignedBy32(o: int)
    requires Aligned(o, 5)
    ensures o % 32 == 0
  {
  }

  lemma NextMultiple(memorySize: nat, e: int)
    requires e % 32 == 0 && 0 < Usable(memorySize) < e
    ensures e > memorySize
  {
  }

  /** Page ends are multiples of 32, so one beyond the usable bytes is beyond the arena. */
  lemma EndBeyond(memorySize: nat, o: int, b: nat)
    requires Aligned(o, b) && b >= MIN_BITS
    requires 0 < Usable(memorySize) < o + Pow2(b)
    ensures o + Pow2(b) > memorySize
  {
    AlignedAdd(o, b);
    AlignedWeaken(o + Pow2(b), b, 5);
    var e := o + Pow2(b);
    AlignedBy32(e);
    NextMultiple(memorySize, e);
  }

  /** `get_buddy` yields null or the header of a live page of no larger order. */
  lemma GetBuddyLive(pages: Pages, memorySize: nat, p: int)
    requires Inv(pages, Usable(memorySize)) && p in pages
    ensures var b := pages[p].bits;
            var x := GetBuddy(memorySize, p, b);
            && (x != NULL ==> x == Buddy(p, b) && x in pages && pages[x].bits <= b)
            && (x == NULL ==> Buddy(p, b) !in pages || pages[Buddy(p, b)].bits != b)
  {
    var b := pages[p].bits;
    XorBuddy(p, b);
    if Usable(memorySize) < Buddy(p, b) + Pow2(b) {
      EndBeyond(memorySize, Buddy(p, b), b);
    } else {
      BuddyLive(pages, Usable(memorySize), p);
    }
  }

  /** What the test in the loop of `free_page` finds out: whether page `p` can be merged. */
  lemma BuddyTest(pages: Pages, headers: Headers, memorySize: nat, p: nat)
    requires Inv(pages, Usable(memorySize)) && Tagged(pages, headers)
    requires p in pages && pages[p].used && pages[p].bits < WORD_BITS
    ensures p in headers && headers[p].bits == pages[p].bits + PAGE_IN_USE
    ensures var b := pages[p].bits;
            var x := GetBuddy(memorySize, p, b);
            && (x != NULL ==> x in headers && x != p)
            && (x != NULL && headers[x].bits == b ==> x == Buddy(p, b) && x in pages && pages[x] == Page(b, false))
            && (x == NULL || headers[x].bits != b ==> Buddy(p, b) in pages ==> pages[Buddy(p, b)] != Page(b, false))
  {
    GetBuddyLive(pages, memorySize, p);
    PlacedAt(pages, Usable(memorySize), p);
    BuddyInvolution(p, pages[p].bits);
    hide Inv, Pow2, Aligned, Buddy;
  }

  /** The chunks of the initial decomposition have no buddy, so they never merge. */
  lemma RootHasNoBuddy(memorySize: nat, b: nat, o: int)
    requires MIN_BITS <= b && Root(Usable(memorySize), b, o)
    ensures GetBuddy(memorySize, o, b) == NULL
  {
    AlignedWeaken(o, b + 1, b);
    XorBuddy(o, b);
    EndBeyond(memorySize, o, b + 1);
  }

  // ----- free lists as a whole

  /** `pages'` has the free pages of `pages` except `x`. */
  ghost predicate LosesFree(pages: Pages, pages': Pages, x: int) {
    && (forall o :: (o in pages' && !pages'[o].used) <==> (o in pages && !pages[o].used && o != x))
    && (forall o :: o in pages' && o in pages && !pages'[o].used ==> pages'[o] == pages[o])
  }

  /** Unlinking free page `x` of order `b` leaves every list well formed. */
  lemma RemoveFree(pages: Pages, headers: Headers, heads: seq<int>, lists: seq<seq<int>>,
                   pages': Pages, x: int, b: nat) returns (lists': seq<seq<int>>)
    requires NULL !in pages && ListsOk(pages, headers, heads, lists)
    requires b < WORD_BITS && x in pages && pages[x] == Page(b, false)
    requires LosesFree(pages, pages', x)
    ensures x in headers
    ensures headers[x].next != NULL ==>
              headers[x].next in pages && pages[headers[x].next] == Page(b, false) && headers[x].next in headers
    ensures headers[x].prev != NULL ==>
              headers[x].prev in pages && pages[headers[x].prev] == Page(b, false) && headers[x].prev in headers
    ensures ListsOk(pages', Unlinked(headers, x),
                    if headers[x].prev == NULL then heads[b := headers[x].next] else heads, lists')
    ensures heads[b] == x <==> headers[x].prev == NULL
  {
    var l := lists[b];
    assert ListOk(pages, headers, heads[b], l, b);
    assert x in l;
    var i :| 0 <= i < |l| && l[i] == x;
    assert NULL !in l;
    UnlinkChain(headers, l, i);
    var l' := RemoveAt(l, i);
    lists' := lists[b := l'];
    var headers' := Unlinked(headers, x);
    var heads' := if headers[x].prev == NULL then heads[b := headers[x].next] else heads;
    assert i > 0 ==> l[i - 1] in l && headers[x].prev == l[i - 1];
    assert i + 1 < |l| ==> l[i + 1] in l && headers[x].next == l[i + 1];
    forall c | 0 <= c < WORD_BITS
      ensures ListOk(pages', headers', heads'[c], lists'[c], c)
    {
      assert ListOk(pages, headers, heads[c], lists[c], c);
      if c != b {
        ListFrame(pages, headers, pages', headers', heads[c], lists[c], c);
      }
    }
  }

  /** Push `p` on the front of list `b`, as `free_page` and `page_alloc` do. */
  function Pushed(headers: Headers, p: int, b: nat, head: int): Headers
    requires head != NULL ==> head in headers
  {
    var h := headers[p := Header(b, head, NULL)];
    if head != NULL then SetPrev(h, head, p) else h
  }

  lemma AddFree(pages: Pages, headers: Headers, heads: seq<int>, lists: seq<seq<int>>,
                p: nat, b: nat) returns (lists': seq<seq<int>>)
    requires NULL !in pages && ListsOk(pages, headers, heads, lists) && b < WORD_BITS
    requires p in pages ==> pages[p].used
    ensures heads[b] != NULL ==> heads[b] in headers && heads[b] in pages && pages[heads[b]] == Page(b, false)
    ensures ListsOk(pages[p := Page(b, false)], Pushed(headers, p, b, heads[b]), heads[b := p], lists')
  {
    var l := lists[b];
    assert ListOk(pages, headers, heads[b], l, b);
    assert heads[b] != NULL ==> heads[b] in l;
    var l' := [p] + l;
    lists' := lists[b := l'];
    var headers' := Pushed(headers, p, b, heads[b]);
    var heads' := heads[b := p];
    var pages' := pages[p := Page(b, false)];
    assert p !in l;
    forall i | 0 <= i < |l'|
      ensures && l'[i] in headers'
              && headers'[l'[i]].next == At(l', i + 1) && headers'[l'[i]].prev == At(l', i - 1)
    {
      if i > 0 {
        assert l[i - 1] in headers;
      }
    }
    forall c | 0 <= c < WORD_BITS
      ensures ListOk(pages', headers', heads'[c], lists'[c], c)
    {
      assert ListOk(pages, headers, heads[c], lists[c], c);
      if c != b {
        ListFrame(pages, headers, pages', headers', heads[c], lists[c], c);
      }
    }
  }

  /** The lists do not depend on headers of pages that are not free, nor on those pages. */
  lemma OffList(pages: Pages, headers: Headers, heads: seq<int>, lists: seq<seq<int>>, pages': Pages, o: int, h: Header)
    requires ListsOk(pages, headers, heads, lists)
    requires o in pages ==> pages[o].used
    requires forall p :: (p in pages && !pages[p].used) <==> (p in pages' && !pages'[p].used)
    requires forall p :: p in pages && !pages[p].used ==> pages'[p] == pages[p]
    ensures ListsOk(pages', headers[o := h], heads, lists)
  {
  }

  /** Raw memory inside every page in use other than `except` is the same in both states. */
  ghost predicate ClientKept(pages: Pages, before: Headers, after: Headers, except: int) {
    forall u, o :: u in pages && pages[u].used && u != except && Holds(pages, u, o) ==> Same(before, after, o)
  }

  predicate Same(before: Headers, after: Headers, o: int) {
    (o in before <==> o in after) && (o in before ==> before[o] == after[o])
  }

  /** Layout, headers and free lists describe the same pages. */
  ghost predicate Coherent(pages: Pages, headers: Headers, heads: seq<int>, lists: seq<seq<int>>, total: int) {
    Inv(pages, total) && Tagged(pages, headers) && ListsOk(pages, headers, heads, lists)
  }

  /** Headers written at the starts of free pages leave client memory alone. */
  lemma FreeHeadersOnly(pages: Pages, before: Headers, after: Headers, except: int)
    requires Apart(pages)
    requires forall o :: !Same(before, after, o) ==>
               exists f :: Holds(pages, f, o) && (!pages[f].used || f == except)
    ensures ClientKept(pages, before, after, except)
  {
  }

  lemma ClientKeptStep(p: Pages, p': Pages, h0: Headers, h1: Headers, h2: Headers, e: int, r: int)
    requires ClientKept(p, h0, h1, e) && ClientKept(p', h1, h2, r)
    requires forall u :: u in p && p[u].used && u != e ==> u in p' && p'[u] == p[u] && u != r
    ensures ClientKept(p, h0, h2, e)
  {
    forall u, o | u in p && p[u].used && u != e && Holds(p, u, o)
      ensures Same(h0, h2, o)
    {
      assert Holds(p', u, o);
      assert Same(h0, h1, o) && Same(h1, h2, o);
    }
  }

  lemma HeadIsFree(pages: Pages, headers: Headers, heads: seq<int>, lists: seq<seq<int>>, b: nat)
    requires ListsOk(pages, headers, heads, lists) && b < WORD_BITS
    ensures heads[b] == NULL ==> lists[b] == [] || lists[b][0] == NULL
    ensures heads[b] != NULL ==> heads[b] in pages && pages[heads[b]] == Page(b, false) && heads[b] in headers
  {
  }

  /** The headers after the head of a list has been unlinked and flagged. */
  function TakenHeaders(headers: Headers, r: int, b: nat): Headers
    requires r in headers && (headers[r].next != NULL ==> headers[r].next in headers)
  {
    var n := headers[r].next;
    (if n != NULL then SetPrev(headers, n, NULL) else headers)[r := Header(b + PAGE_IN_USE, NULL, NULL)]
  }

  lemma TakeLists(pages: Pages, headers: Headers, heads: seq<int>, lists: seq<seq<int>>, b: nat)
    returns (lists': seq<seq<int>>)
    requires NULL !in pages && ListsOk(pages, headers, heads, lists) && b < WORD_BITS && heads[b] != NULL
    ensures var r := heads[b];
            && r in pages && pages[r] == Page(b, false) && r in headers
            && var n := headers[r].next;
               && (n != NULL ==> n in headers && FreeAt(pages, n))
               && ListsOk(pages[r := Page(b, true)], TakenHeaders(headers, r, b), heads[b := n], lists')
  {
    HeadIsFree(pages, headers, heads, lists, b);
    var r := heads[b];
    var pages' := pages[r := Page(b, true)];
    hide ListsOk;
    lists' := RemoveFree(pages, headers, heads, lists, pages', r, b);
    var n := headers[r].next;
    var h1 := Unlinked(headers, r);
    OffList(pages', h1, heads[b := n], lists', pages', r, Header(b + PAGE_IN_USE, NULL, NULL));
    assert h1[r := Header(b + PAGE_IN_USE, NULL, NULL)] == TakenHeaders(headers, r, b);
  }

  /** Only headers of free pages are written. */
  lemma TakeKeepsClients(pages: Pages, headers: Headers, r: int, b: nat)
    requires Apart(pages) && Tagged(pages, headers) && FreeAt(pages, r)
    requires headers[r].next != NULL ==> headers[r].next in headers && FreeAt(pages, headers[r].next)
    ensures Tagged(pages[r := Page(b, true)], TakenHeaders(headers, r, b))
    ensures ClientKept(pages, headers, TakenHeaders(headers, r, b), NULL)
  {
    hide Pow2;
    forall o | !Same(headers, TakenHeaders(headers, r, b), o)
      ensures exists f :: Holds(pages, f, o) && (!pages[f].used || f == NULL)
    {
      assert Holds(pages, o, o);
    }
    FreeHeadersOnly(pages, headers, TakenHeaders(headers, r, b), NULL);
  }

  /** Unlinking the head of list `b` and marking it in use. */
  lemma TakeFirstOk(pages: Pages, headers: Headers, heads: seq<int>, lists: seq<seq<int>>, b: nat, total: int)
    returns (lists': seq<seq<int>>)
    requires Coherent(pages, headers, heads, lists, total) && b < WORD_BITS && heads[b] != NULL
    ensures var r := heads[b];
            && r in pages && pages[r] == Page(b, false) && r in headers
            && (headers[r].next != NULL ==> headers[r].next in headers)
            && Coherent(pages[r := Page(b, true)], TakenHeaders(headers, r, b), heads[b := headers[r].next], lists',
                        total)
            && ClientKept(pages, headers, TakenHeaders(headers, r, b), NULL)
  {
    assert NULL !in pages;
    hide Placed, Apart, Covers, NoTwins, Tagged, ListOk, TakenHeaders, ClientKept;
    lists' := TakeLists(pages, headers, heads, lists, b);
    MarkUsed(pages, total, heads[b]);
    TakeKeepsClients(pages, headers, heads[b], b);
  }

  /** The headers after the upper half of page `r` has been listed and the lower one flagged. */
  function SplitHeaders(headers: Headers, r: int, b: nat): Headers {
    headers[r + Pow2(b) := Header(b, NULL, NULL)][r := Header(b + PAGE_IN_USE, NULL, NULL)]
  }

  lemma SplitLists(pages: Pages, headers: Headers, heads: seq<int>, lists: seq<seq<int>>, r: nat, b: nat)
    returns (lists': seq<seq<int>>)
    requires NULL !in pages && ListsOk(pages, headers, heads, lists) && b < WORD_BITS && heads[b] == NULL
    requires r in pages && pages[r] == Page(b + 1, true) && r in headers && r + Pow2(b) !in pages
    ensures ListsOk(Split(pages, r), SplitHeaders(headers, r, b), heads[b := r + Pow2(b)], lists')
  {
    hide Pow2, ListsOk;
    var u := r + Pow2(b);
    var p1 := pages[r := Page(b, true)];
    OffList(pages, headers, heads, lists, p1, r, headers[r]);
    assert headers[r := headers[r]] == headers;
    assert |heads| == WORD_BITS by { ListsLength(pages, headers, heads, lists); }
    lists' := AddFree(p1, headers, heads, lists, u, b);
    OffList(Split(pages, r), headers[u := Header(b, NULL, NULL)], heads[b := u], lists', Split(pages, r), r,
            Header(b + PAGE_IN_USE, NULL, NULL));
  }

  lemma ListsLength(pages: Pages, headers: Headers, heads: seq<int>, lists: seq<seq<int>>)
    requires ListsOk(pages, headers, heads, lists)
    ensures |heads| == |lists| == WORD_BITS
  {
  }

  lemma SplitKeepsClients(pages: Pages, headers: Headers, r: nat, b: nat)
    requires Apart(pages) && Tagged(pages, headers)
    requires r in pages && pages[r] == Page(b + 1, true) && r + Pow2(b) !in pages
    ensures Tagged(Split(pages, r), SplitHeaders(headers, r, b))
    ensures ClientKept(pages, headers, SplitHeaders(headers, r, b), r)
  {
    Pow2Step(b);
    hide Pow2;
    forall o | !Same(headers, SplitHeaders(headers, r, b), o)
      ensures exists f :: Holds(pages, f, o) && (!pages[f].used || f == r)
    {
      assert Holds(pages, r, o);
    }
    FreeHeadersOnly(pages, headers, SplitHeaders(headers, r, b), r);
  }

  /** Cutting the used page `r` of order b + 1 in two and listing the upper half. */
  lemma SplitOk(pages: Pages, headers: Headers, heads: seq<int>, lists: seq<seq<int>>, r: nat, b: nat, total: int)
    returns (lists': seq<seq<int>>)
    requires Coherent(pages, headers, heads, lists, total)
    requires MIN_BITS <= b && b < WORD_BITS && heads[b] == NULL
    requires r in pages && pages[r] == Page(b + 1, true)
    ensures && Coherent(Split(pages, r), SplitHeaders(headers, r, b), heads[b := r + Pow2(b)], lists', total)
            && Used(Split(pages, r)) == Used(pages)[r := b]
            && ClientKept(pages, headers, SplitHeaders(headers, r, b), r)
  {
    assert NULL !in pages && r in headers;
    hide Placed, Apart, Covers, NoTwins, Tagged, ListOk, SplitHeaders, Split, Used, ClientKept, Pow2;
    SplitKeeps(pages, total, r);
    lists' := SplitLists(pages, headers, heads, lists, r, b);
    SplitKeepsClients(pages, headers, r, b);
  }

  /** Page `r` was a free page of the least sufficient order and is now the only new page
      in use, with order `b`. */
  ghost predicate TakenFrom(before: Pages, after: Pages, r: int, b: nat) {
    && r in before && !before[r].used && b <= before[r].bits
    && (forall o :: o in before && !before[o].used && b <= before[o].bits ==> before[r].bits <= before[o].bits)
    && Used(after) == Used(before)[r := b]
  }

  lemma TakenUsed(before: Pages, after: Pages, r: int, b: nat)
    requires TakenFrom(before, after, r, b)
    ensures r in after && after[r] == Page(b, true)
    ensures forall u :: u in before && before[u].used ==> u in after && after[u] == before[u] && u != r
  {
    assert r in Used(after) && Used(after)[r] == b;
    forall u | u in before && before[u].used
      ensures u in after && after[u] == before[u] && u != r
    {
      assert u in Used(before) && u != r;
      assert u in Used(after) && Used(after)[u] == Used(before)[u];
    }
  }

  lemma SplitUsedTwice(p0: Pages, pages: Pages, r: int, b: nat)
    requires TakenFrom(p0, pages, r, b + 1)
    ensures Used(pages)[r := b] == Used(p0)[r := b]
  {
  }

  lemma TakenHead(pages: Pages, r: int, b: nat)
    requires r in pages && pages[r] == Page(b, false)
    ensures TakenFrom(pages, pages[r := Page(b, true)], r, b) && HasFree(pages, b)
  {
  }

  /** With no page of order `b`, one of order b + 1 is needed and has the least sufficient order. */
  lemma TakenLarger(before: Pages, b: nat)
    requires forall o :: o in before ==> before[o] != Page(b, false)
    ensures HasFree(before, b) <==> HasFree(before, b + 1)
  {
  }

  lemma TakenSmaller(before: Pages, after: Pages, after': Pages, r: int, b: nat)
    requires forall o :: o in before ==> before[o] != Page(b, false)
    requires TakenFrom(before, after, r, b + 1) && Used(after') == Used(before)[r := b]
    ensures TakenFrom(before, after', r, b)
  {
  }

  /** Splitting the page that the recursive call returned. */
  lemma SplitRestOk(p0: Pages, h0: Headers, pages: Pages, headers: Headers, heads: seq<int>, lists: seq<seq<int>>,
                    r: nat, b: nat, total: int) returns (lists': seq<seq<int>>)
    requires Coherent(pages, headers, heads, lists, total)
    requires MIN_BITS <= b && b < WORD_BITS && heads[b] == NULL
    requires TakenFrom(p0, pages, r, b + 1)
    requires ClientKept(p0, h0, headers, NULL)
    ensures r in pages && pages[r] == Page(b + 1, true)
    ensures && Coherent(Split(pages, r), SplitHeaders(headers, r, b), heads[b := r + Pow2(b)], lists', total)
            && Used(Split(pages, r)) == Used(p0)[r := b]
            && ClientKept(p0, h0, SplitHeaders(headers, r, b), NULL)
  {
    hide Coherent, Split, SplitHeaders, ClientKept, Used, Pow2;
    TakenUsed(p0, pages, r, b + 1);
    lists' := SplitOk(pages, headers, heads, lists, r, b, total);
    ClientKeptStep(p0, pages, h0, headers, SplitHeaders(headers, r, b), NULL, r);
    SplitUsedTwice(p0, pages, r, b);
  }

  predicate FreeAt(pages: Pages, o: int) {
    o in pages && !pages[o].used
  }

  ghost predicate CanMerge(pages: Pages, p: nat) {
    && p in pages && pages[p].used && pages[p].bits < WORD_BITS
    && var x := Buddy(p, pages[p].bits); x in pages && pages[x] == Page(pages[p].bits, false)
  }

  /** The headers after the links of buddy `x` are taken out, the flag of `p` cleared and the
      lower half `m` marked in use with the next order. */
  function MergedHeaders(headers: Headers, p: int, x: int, m: int, b: nat): Headers
    requires p in headers && x in headers && x != p && (m == p || m == x)
    requires headers[x].next != NULL ==> headers[x].next in headers
    requires headers[x].prev != NULL ==> headers[x].prev in headers
  {
    SetBits(Unlinked(SetBits(headers, p, b), x), m, b + 1 + PAGE_IN_USE)
  }

  lemma MergeLists(pages: Pages, headers: Headers, heads: seq<int>, lists: seq<seq<int>>, p: nat, total: int)
    returns (lists': seq<seq<int>>)
    requires Inv(pages, total) && NULL !in pages && p in headers
    requires ListsOk(pages, headers, heads, lists) && CanMerge(pages, p) && Aligned(p, pages[p].bits)
    ensures var b := pages[p].bits;
            var x := Buddy(p, b);
            && x in headers && x != p
            && (headers[x].next != NULL ==> headers[x].next in headers && FreeAt(pages, headers[x].next))
            && (headers[x].prev != NULL ==> headers[x].prev in headers && FreeAt(pages, headers[x].prev))
            && |heads| == WORD_BITS
            && ListsOk(Merge(pages, p), Unlinked(SetBits(headers, p, b), x),
                       if headers[x].prev == NULL then heads[b := headers[x].next] else heads, lists')
  {
    hide Pow2, Aligned, Buddy, Inv, Merge, ListsOk, Unlinked, SetBits, LosesFree;
    var b := pages[p].bits;
    var x := Buddy(p, b);
    BuddyInvolution(p, b);
    MergeLoses(pages, total, p);
    lists' := RemoveCleared(pages, headers, heads, lists, Merge(pages, p), p, x, b);
  }

  /** Unlinking a free page while the flag of a page in use is already cleared. */
  lemma RemoveCleared(pages: Pages, headers: Headers, heads: seq<int>, lists: seq<seq<int>>, q: Pages, p: int, x: int,
                      b: nat)
    returns (lists': seq<seq<int>>)
    requires NULL !in pages && ListsOk(pages, headers, heads, lists) && b < WORD_BITS
    requires p in pages && pages[p].used && p in headers && x in pages && pages[x] == Page(b, false)
              && LosesFree(pages, q, x)
    ensures && x in headers && x != p
            && (headers[x].next != NULL ==> headers[x].next in headers && FreeAt(pages, headers[x].next))
            && (headers[x].prev != NULL ==> headers[x].prev in headers && FreeAt(pages, headers[x].prev))
            && |heads| == WORD_BITS
            && ListsOk(q, Unlinked(SetBits(headers, p, b), x),
                       if headers[x].prev == NULL then heads[b := headers[x].next] else heads, lists')
  {
    hide ListsOk, LosesFree, Unlinked;
    FlagCleared(pages, headers, heads, lists, p, b);
    ListsLength(pages, headers, heads, lists);
    lists' := RemoveFree(pages, SetBits(headers, p, b), heads, lists, q, x, b);
  }

  lemma FlagCleared(pages: Pages, headers: Headers, heads: seq<int>, lists: seq<seq<int>>, p: int, b: int)
    requires ListsOk(pages, headers, heads, lists) && p in pages && pages[p].used && p in headers
    ensures ListsOk(pages, SetBits(headers, p, b), heads, lists)
  {
    hide ListsOk;
    OffList(pages, headers, heads, lists, pages, p, headers[p].(bits := b));
  }

  lemma MergeLoses(pages: Pages, total: int, p: nat)
    requires Inv(pages, total) && CanMerge(pages, p) && Buddy(p, pages[p].bits) != p
    ensures LosesFree(pages, Merge(pages, p), Buddy(p, pages[p].bits))
  {
    hide Pow2, Aligned, Buddy, Inv;
    var m, g := MergeHalves(pages, total, p);
  }

  lemma MergeTagged(pages: Pages, headers: Headers, p: nat, total: int)
    requires Inv(pages, total) && Tagged(pages, headers) && CanMerge(pages, p)
    requires var x := Buddy(p, pages[p].bits);
             && x != p
             && (headers[x].next != NULL ==> headers[x].next in headers)
             && (headers[x].prev != NULL ==> headers[x].prev in headers)
    ensures var b := pages[p].bits;
            var x := Buddy(p, b);
            Tagged(Merge(pages, p), MergedHeaders(headers, p, x, if x < p then x else p, b))
  {
  }

  /** One turn of the coalescing loop: page `p`, its flag cleared, absorbs its free buddy. */
  lemma MergeOk(pages: Pages, headers: Headers, heads: seq<int>, lists: seq<seq<int>>, p: nat, total: int)
    returns (lists': seq<seq<int>>)
    requires Coherent(pages, headers, heads, lists, total) && CanMerge(pages, p)
    ensures var b := pages[p].bits;
            var x := Buddy(p, b);
            var m := if x < p then x else p;
            && p in headers && x in headers && x != p
            && (headers[x].next != NULL ==> headers[x].next in headers)
            && (headers[x].prev != NULL ==> headers[x].prev in headers)
            && var h := MergedHeaders(headers, p, x, m, b);
               && Coherent(Merge(pages, p), h,
                           if headers[x].prev == NULL then heads[b := headers[x].next] else heads, lists', total)
               && ClientKept(pages, headers, h, p)
  {
    var b := pages[p].bits;
    var x := Buddy(p, b);
    MergeKeeps(pages, total, p);
    PlacedAt(pages, total, p);
    lists' := MergeLists(pages, headers, heads, lists, p, total);
    MergeTagged(pages, headers, p, total);
    var pages' := Merge(pages, p);
    var m := if x < p then x else p;
    var h1 := Unlinked(SetBits(headers, p, b), x);
    var heads' := if headers[x].prev == NULL then heads[b := headers[x].next] else heads;
    OffList(pages', h1, heads', lists', pages', m, h1[m].(bits := b + 1 + PAGE_IN_USE));
    MergeKeepsClients(pages, headers, p, total);
  }

  lemma MergeKeepsClients(pages: Pages, headers: Headers, p: nat, total: int)
    requires Inv(pages, total) && Tagged(pages, headers) && CanMerge(pages, p)
    requires var x := Buddy(p, pages[p].bits);
            && x != p
            && (headers[x].next != NULL ==> headers[x].next in headers && FreeAt(pages, headers[x].next))
            && (headers[x].prev != NULL ==> headers[x].prev in headers && FreeAt(pages, headers[x].prev))
    ensures var b := pages[p].bits;
            var x := Buddy(p, b);
            ClientKept(pages, headers, MergedHeaders(headers, p, x, if x < p then x else p, b), p)
  {
  }

  /** The last turn of the loop: page `p` has no free buddy and goes on its free list. */
  lemma ReleaseOk(pages: Pages, headers: Headers, heads: seq<int>, lists: seq<seq<int>>, p: nat, total: int)
    returns (lists': seq<seq<int>>)
    requires Coherent(pages, headers, heads, lists, total)
    requires p in pages && pages[p].used && pages[p].bits < WORD_BITS
    requires var x := Buddy(p, pages[p].bits); x in pages ==> pages[x] != Page(pages[p].bits, false)
    ensures var b := pages[p].bits;
            && (heads[b] != NULL ==> heads[b] in headers && heads[b] != p)
            && var h := Pushed(headers, p, b, heads[b]);
               && Coherent(pages[p := Page(b, false)], h, heads[b := p], lists', total)
               && Used(pages[p := Page(b, false)]) == Used(pages) - {p}
               && ClientKept(pages, headers, h, p)
  {
    hide Pow2, Aligned, Buddy, Covers, NoTwins, Used;
    var b := pages[p].bits;
    MarkFree(pages, total, p);
    lists' := AddFree(pages, headers, heads, lists, p, b);
    var h := Pushed(headers, p, b, heads[b]);
    forall o | !Same(headers, h, o)
      ensures exists f :: Holds(pages, f, o) && (!pages[f].used || f == p)
    {
      assert Holds(pages, o, o);
    }
    FreeHeadersOnly(pages, headers, h, p);
  }

  /** The pages in use besides the one being freed are those of the start. */
  lemma OthersInUse(p0: Pages, p1: Pages, start: int, p: int)
    requires Used(p1) - {p} == Used(p0) - {start}
    ensures forall u :: u in p0 && p0[u].used && u != start ==> u in p1 && p1[u] == p0[u] && u != p
  {
    forall u | u in p0 && p0[u].used && u != start
      ensures u in p1 && p1[u] == p0[u] && u != p
    {
      assert u in Used(p0) - {start};
      assert (Used(p1) - {p})[u] == Used(p0)[u];
    }
  }

  lemma MergeTurn(p0: Pages, p1: Pages, p2: Pages, start: int, p: int, m: int, h0: Headers, h1: Headers, h2: Headers)
    requires Used(p1) - {p} == Used(p0) - {start} && Used(p2) - {m} == Used(p1) - {p}
    requires ClientKept(p0, h0, h1, start) && ClientKept(p1, h1, h2, p)
    ensures Used(p2) - {m} == Used(p0) - {start} && ClientKept(p0, h0, h2, start)
  {
    OthersInUse(p0, p1, start, p);
    ClientKeptStep(p0, p1, h0, h1, h2, start, p);
  }

  lemma ReleaseTurn(p0: Pages, p1: Pages, p2: Pages, start: int, p: int, h0: Headers, h1: Headers, h2: Headers)
    requires Used(p1) - {p} == Used(p0) - {start} && Used(p2) == Used(p1) - {p}
    requires ClientKept(p0, h0, h1, start) && ClientKept(p1, h1, h2, p)
    ensures Used(p2) == Used(p0) - {start} && ClientKept(p0, h0, h2, start)
  {
    OthersInUse(p0, p1, start, p);
    ClientKeptStep(p0, p1, h0, h1, h2, start, p);
  }

  /** Appending a free chunk at the end of a layout without pages of its order. */
  lemma AddChunk(pages: Pages, headers: Headers, heads: seq<int>, lists: seq<seq<int>>, pos: nat, b: nat)
    returns (lists': seq<seq<int>>)
    requires Coherent(pages, headers, heads, lists, pos)
    requires MIN_BITS <= b < WORD_BITS && Aligned(pos, b)
    requires forall o :: o in pages ==> pages[o].bits != b
    ensures Coherent(pages[pos := Page(b, false)], headers[pos := Header(b, NULL, NULL)], heads[b := pos], lists',
                     pos + Pow2(b))
  {
    assert pos !in pages;
    HeadIsFree(pages, headers, heads, lists, b);
    lists' := AddFree(pages, headers, heads, lists, pos, b);
    var q := pages[pos := Page(b, false)];
    forall x | 0 <= x < pos + Pow2(b)
      ensures Covered(q, x)
    {
      if x < pos {
        assert Covered(pages, x);
        var o :| Holds(pages, o, x);
        assert Holds(q, o, x);
      } else {
        assert Holds(q, pos, x);
      }
    }
    forall o, o'
      ensures !Twins(q, o, o')
    {
      assert !Twins(pages, o, o');
      if Twins(q, o, o') {
        BuddyInvolution(o, q[o].bits);
      }
    }
  }

  lemma NothingCarved(headers: Headers, heads: seq<int>, lists: seq<seq<int>>)
    requires |heads| == |lists| == WORD_BITS
    requires forall i :: 0 <= i < WORD_BITS ==> heads[i] == NULL && lists[i] == []
    ensures Coherent(map[], headers, heads, lists, 0)
  {
  }
}
