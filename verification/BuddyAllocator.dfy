/** The buddy allocator of lib/cppcms/private/buddy_allocator.h on a 64-bit platform:
    recursive splitting on allocation and a coalescing loop on release. */
module BuddyAllocator {
  import opened PowersOfTwo
  import opened BuddyPages
  import opened BuddyHeaders
  import opened Sequences

  const ALIGNMENT: nat := 16
  const WORD: nat := 0x1_0000_0000_0000_0000
  /** sizeof(buddy_allocator): 64 list heads, size, order and padding. */
  const OBJECT_SIZE: nat := 544

  // ----- page orders

  /** The order of the largest power of two in `n`, or -1. */
  method ContainsBits(n: nat) returns (r: int)
    requires n < WORD
    ensures r == -1 <==> n < 2 || n >= Pow2(63)
    ensures r != -1 ==> 0 < r < 63 && Pow2(r) <= n < Pow2(r + 1)
  {
    Pow2Constants();
    var i := 62;
    while i > 0
      invariant 0 <= i <= 62
      invariant n < Pow2(63) ==> n < Pow2(i + 1)
    {
      if Pow2(i) <= n < Pow2(i + 1) {
        Pow2Monotone(1, i);
        Pow2Monotone(i + 1, 63);
        return i;
      }
      i := i - 1;
    }
    return -1;
  }

  /** The least order whose pages hold `n` bytes; 64 when none does. */
  method GetBits(n: nat) returns (i: nat)
    requires n < WORD
    ensures i <= 64 && n <= Pow2(i)
    ensures forall j: nat :: j < i ==> Pow2(j) < n
  {
    i := 0;
    while i < 64
      invariant i <= 64
      invariant forall j: nat :: j < i ==> Pow2(j) < n
    {
      if Pow2(i) >= n {
        return;
      }
      i := i + 1;
    }
    Pow2Constants();
  }

  /** The size computed by `malloc`, in 64-bit unsigned arithmetic. */
  function PaddedSize(request: nat): nat {
    (((request + ALIGNMENT - 1) % WORD / ALIGNMENT + 1) * ALIGNMENT) % WORD
  }

  /** The padded size has room for the header and the request, in a page large enough for a
      free-list header, exactly for requests from 1 to 2^64 - 32: a request of zero yields a
      16-byte page and one in the last 31 values wraps around. */
  lemma PaddedSizeFits(request: nat)
    requires request < WORD
    ensures PaddedSize(request) > Pow2(MIN_BITS - 1) && PaddedSize(request) >= request + ALIGNMENT
            <==> 1 <= request <= WORD - 32
  {
    Pow2Constants();
  }

  /** The padded size is the least multiple of the alignment with that room. */
  lemma PaddedSizeIs(request: nat)
    requires 1 <= request <= WORD - 32
    ensures PaddedSize(request) % ALIGNMENT == 0
    ensures request + ALIGNMENT <= PaddedSize(request) < request + 2 * ALIGNMENT
  {
  }

  lemma CarvedIs(memorySize: nat, pos: nat)
    requires memorySize < 0x8000_0000_0000_0000
    requires pos % 32 == 0 && pos <= memorySize < pos + 32
    ensures pos == Usable(memorySize)
  {
  }

  lemma NothingUsed(pages: Pages)
    requires forall o :: o in pages ==> !pages[o].used
    ensures Used(pages) == map[]
  {
    var u := Used(pages);
    assert forall o :: o !in u;
  }

  lemma OrderForSize(n: nat, bits: nat)
    requires Pow2(MIN_BITS - 1) < n <= Pow2(bits)
    requires forall j: nat :: j < bits ==> Pow2(j) < n
    ensures MIN_BITS <= bits && Pow2(bits) < 2 * n
    ensures forall j: nat :: n <= Pow2(j) <==> bits <= j
  {
    if bits < MIN_BITS {
      Pow2Monotone(bits, MIN_BITS - 1);
    }
    forall j: nat
      ensures n <= Pow2(j) <==> bits <= j
    {
      if bits <= j {
        Pow2Monotone(bits, j);
      }
    }
    assert Pow2(bits - 1) < n;
  }

  lemma NothingWritten(pages: Pages, headers: Headers)
    ensures forall e :: ClientKept(pages, headers, headers, e)
  {
  }

  /** Some free page has at least `n` bytes. */
  ghost predicate HasRoom(pages: Pages, n: nat) {
    exists o :: o in pages && !pages[o].used && n <= Pow2(pages[o].bits)
  }

  lemma EnoughFree(pages: Pages, n: nat, bits: nat)
    requires forall j: nat :: n <= Pow2(j) <==> bits <= j
    ensures HasFree(pages, bits) <==> HasRoom(pages, n)
  {
  }

  /** The block at `ptr` is aligned and holds `request` bytes inside its page, which is no
      more than twice the padded size and in use. */
  ghost predicate BlockOk(pages: Pages, total: int, ptr: int, request: nat) {
    var r := ptr - ALIGNMENT;
    && ptr % ALIGNMENT == 0 && 0 <= r && r in pages && pages[r].used
    && ptr + request <= r + Pow2(pages[r].bits) <= total
    && PaddedSize(request) <= Pow2(pages[r].bits) < 2 * PaddedSize(request)
  }

  lemma BlockFits(before: Pages, after: Pages, total: int, r: int, b: nat, request: nat)
    requires Placed(after, total) && TakenFrom(before, after, r, b)
    requires request + ALIGNMENT <= PaddedSize(request) <= Pow2(b) < 2 * PaddedSize(request)
    ensures BlockOk(after, total, r + ALIGNMENT, request) && after[r].bits == b
  {
    hide Pow2, Aligned, PaddedSize, Placed, TakenFrom;
    TakenUsed(before, after, r, b);
    PlacedAt(after, total, r);
    AlignedWeaken(r, b, 4);
    AlignedAdd(r, 4);
    AlignedIsMultiple(r + ALIGNMENT, 4);
    Pow2Constants();
  }

  /** The arithmetic of the constructor's loop: chunks of orders `last` and up end at `pos`. */
  predicate CarvedTo(memorySize: nat, maxBits: int, pos: nat, last: nat) {
    && MIN_BITS <= last <= 63 && Aligned(pos, last)
    && (if memorySize < Pow2(63) then memorySize - pos < Pow2(last) else pos == 0)
    && (if pos == 0 then maxBits == -1 && last == 63
        else MIN_BITS <= maxBits < 63 && Pow2(maxBits) <= pos && memorySize < Pow2(maxBits + 1))
  }

  lemma CarveNext(memorySize: nat, maxBits: int, pos: nat, last: nat, bits: nat)
    requires CarvedTo(memorySize, maxBits, pos, last) && pos <= memorySize
    requires MIN_BITS <= bits < 63 && Pow2(bits) <= memorySize - pos < Pow2(bits + 1)
    ensures bits < last && Aligned(pos, bits)
    ensures CarvedTo(memorySize, if maxBits == -1 then bits else maxBits, pos + Pow2(bits), bits)
  {
    if last <= bits {
      Pow2Monotone(last, bits);
    }
    Pow2Monotone(bits + 1, 63);
    AlignedWeaken(pos, last, bits);
    AlignedAdd(pos, bits);
  }

  lemma CarvedAll(memorySize: nat, maxBits: int, pos: nat, last: nat, bits: int)
    requires CarvedTo(memorySize, maxBits, pos, last) && pos <= memorySize
    requires -1 <= bits < MIN_BITS
    requires bits == -1 <==> memorySize - pos < 2 || memorySize - pos >= Pow2(63)
    requires bits != -1 ==> memorySize - pos < Pow2(bits + 1)
    ensures pos == Usable(memorySize)
  {
    Pow2Constants();
    if memorySize < Pow2(63) {
      if bits != -1 {
        Pow2Monotone(bits + 1, MIN_BITS);
      }
      AlignedWeaken(pos, last, 5);
      AlignedBy32(pos);
      CarvedIs(memorySize, pos);
    }
  }

  class Allocator {
    const memorySize: nat
    const freeList: array<int>
    var maxBits: int
    var headers: Headers
    ghost var pages: Pages
    ghost var lists: seq<seq<int>>

    ghost function Total(): nat {
      Usable(memorySize)
    }

    ghost predicate Valid()
      reads this, freeList
    {
      && memorySize < WORD && freeList.Length == WORD_BITS
      && Coherent(pages, headers, freeList[..], lists, Total())
      && (if Total() == 0 then maxBits == -1
          else MIN_BITS <= maxBits < 63 && Pow2(maxBits) <= Total() < Pow2(maxBits + 1))
    }

    lemma OrderBounded(o: int)
      requires Valid() && o in pages
      ensures MIN_BITS <= pages[o].bits <= maxBits < 63
    {
      if pages[o].bits > maxBits {
        Pow2Monotone(maxBits + 1, pages[o].bits);
      }
    }

    lemma NoneBeyond(b: nat)
      requires Valid() && b > maxBits
      ensures !HasFree(pages, b)
    {
      forall o | o in pages
        ensures pages[o].bits < b
      {
        OrderBounded(o);
      }
    }

    lemma NoneListed(b: nat)
      requires Valid() && b < WORD_BITS && freeList[b] == NULL
      ensures forall o :: o in pages ==> pages[o] != Page(b, false)
    {
      assert ListOk(pages, headers, freeList[..][b], lists[b], b);
    }

    lemma HasInv()
      requires Valid()
      ensures Inv(pages, Total())
    {
    }

    lemma NullIsNoPage()
      requires Valid()
      ensures NULL !in pages
    {
    }

    lemma BlocksBegin(r: int)
      requires Valid() && r in pages
      ensures r >= 0
    {
    }

    /** Remove and return a page of order `bitSize`, splitting a larger one if needed. */
    method PageAlloc(bitSize: nat) returns (result: int)
      requires Valid() && MIN_BITS <= bitSize <= 64
      modifies this`headers, this`pages, this`lists, freeList
      ensures Valid()
      ensures result == NULL <==> !HasFree(old(pages), bitSize)
      ensures result == NULL ==>
                pages == old(pages) && headers == old(headers) && freeList[..] == old(freeList[..])
      ensures result != NULL ==> TakenFrom(old(pages), pages, result, bitSize)
      ensures ClientKept(old(pages), old(headers), headers, NULL)
      ensures forall c :: 0 <= c < bitSize && c < WORD_BITS ==> freeList[c] == old(freeList[c])
      decreases 64 - bitSize
    {
      hide Coherent, Pow2, HasFree, TakenFrom, ClientKept;
      if bitSize > maxBits {
        NoneBeyond(bitSize);
        NothingWritten(pages, headers);
        return NULL;
      }
      if freeList[bitSize] == NULL {
        result := SplitLarger(bitSize);
      } else {
        result := TakeFirst(bitSize);
      }
    }

    /** The branch of `page_alloc` that unlinks the head of a non-empty list. */
    method TakeFirst(b: nat) returns (result: int)
      requires Valid() && b < WORD_BITS && freeList[b] != NULL
      modifies this`headers, this`pages, this`lists, freeList
      ensures Valid()
      ensures result in old(pages) && old(pages)[result] == Page(b, false) && result == old(freeList[b])
      ensures pages == old(pages)[result := Page(b, true)]
      ensures HasFree(old(pages), b) && TakenFrom(old(pages), pages, result, b) && result != NULL
      ensures forall c :: 0 <= c < b ==> freeList[c] == old(freeList[c])
      ensures ClientKept(old(pages), old(headers), headers, NULL)
    {
      ghost var lists' := TakeFirstOk(pages, headers, freeList[..], lists, b, Total());
      TakenHead(pages, freeList[b], b);
      PlacedAt(pages, Total(), freeList[b]);
      hide Coherent, Pow2, HasFree, TakenFrom, ClientKept;
      result := freeList[b];
      ghost var heads := freeList[..];
      freeList[b] := headers[result].next;
      if freeList[b] != NULL {
        headers := SetPrev(headers, freeList[b], NULL);
      }
      headers := headers[result := Header(b + PAGE_IN_USE, NULL, NULL)];
      pages, lists := pages[result := Page(b, true)], lists';
      assert freeList[..] == heads[b := freeList[b]];
    }

    /** The branch of `page_alloc` that splits a page of the next order. */
    method SplitLarger(b: nat) returns (result: int)
      requires Valid() && MIN_BITS <= b <= maxBits && freeList[b] == NULL
      modifies this`headers, this`pages, this`lists, freeList
      ensures Valid()
      ensures result == NULL <==> !HasFree(old(pages), b)
      ensures result == NULL ==>
                pages == old(pages) && headers == old(headers) && freeList[..] == old(freeList[..])
      ensures result != NULL ==> TakenFrom(old(pages), pages, result, b)
      ensures ClientKept(old(pages), old(headers), headers, NULL)
      ensures forall c :: 0 <= c < b ==> freeList[c] == old(freeList[c])
      decreases 64 - b, 0
    {
      hide Coherent, Pow2, HasFree, ClientKept;
      NoneListed(b);
      TakenLarger(pages, b);
      result := PageAlloc(b + 1);
      if result == NULL {
        return;
      }
      ghost var p1 := pages;
      TakenUsed(old(pages), pages, result, b + 1);
      BlocksBegin(result);
      SplitRest(result, b, old(pages), old(headers));
      TakenSmaller(old(pages), p1, pages, result, b);
    }

    method SplitRest(result: nat, b: nat, ghost p0: Pages, ghost h0: Headers)
      requires Valid() && MIN_BITS <= b <= maxBits && freeList[b] == NULL
      requires TakenFrom(p0, pages, result, b + 1)
      requires ClientKept(p0, h0, headers, NULL)
      modifies this`headers, this`pages, this`lists, freeList
      ensures Valid()
      ensures Used(pages) == Used(p0)[result := b]
      ensures ClientKept(p0, h0, headers, NULL)
      ensures forall c :: 0 <= c < b ==> freeList[c] == old(freeList[c])
    {
      TakenUsed(p0, pages, result, b + 1);
      hide Coherent, Pow2, ClientKept, Used, TakenFrom, Split, Usable;
      ghost var heads := freeList[..];
      ghost var lists' := SplitRestOk(p0, h0, pages, headers, heads, lists, result, b, Total());
      var unused := result + Pow2(b);
      headers := headers[unused := Header(b, NULL, NULL)];
      freeList[b] := unused;
      headers := headers[result := Header(b + PAGE_IN_USE, NULL, NULL)];
      assert freeList[..] == heads[b := unused];
      pages, lists := Split(pages, result), lists';
    }

    /** The merging branch of `free_page`: unlink the buddy and move to the lower half. */
    method MergeWithBuddy(p: nat, bits: nat, buddy: nat, ghost h1: Headers) returns (lower: nat)
      requires CanMerge(pages, p) && pages[p].bits == bits && buddy == Buddy(p, bits)
      requires p in h1 && headers == SetBits(h1, p, bits)
      requires memorySize < WORD && freeList.Length == WORD_BITS
      requires Coherent(pages, h1, freeList[..], lists, Total())
      modifies this`headers, this`pages, this`lists, freeList
      ensures Coherent(pages, headers, freeList[..], lists, Total())
      ensures lower == (if buddy < p then buddy else p) && pages == Merge(old(pages), p)
      ensures ClientKept(old(pages), h1, headers, p)
    {
      ghost var heads := freeList[..];
      ghost var lists' := MergeOk(pages, h1, heads, lists, p, Total());
      var next, prev := headers[buddy].next, headers[buddy].prev;
      if next != NULL {
        headers := SetPrev(headers, next, prev);
      }
      if prev != NULL {
        headers := SetNext(headers, prev, next);
      }
      if prev == NULL {
        freeList[bits] := next;
        assert freeList[..] == heads[bits := next];
      }
      lower := p;
      if buddy < p {
        lower := buddy;
      }
      headers := SetBits(headers, lower, bits + 1 + PAGE_IN_USE);
      pages, lists := Merge(pages, p), lists';
    }

    /** The last branch of `free_page`: push the page on its free list. */
    method PushFree(p: nat, bits: nat, ghost h1: Headers)
      requires p in pages && pages[p] == Page(bits, true) && bits < WORD_BITS
      requires p in h1 && headers == SetBits(h1, p, bits)
      requires memorySize < WORD && freeList.Length == WORD_BITS
      requires Coherent(pages, h1, freeList[..], lists, Total())
      requires Buddy(p, bits) in pages ==> pages[Buddy(p, bits)] != Page(bits, false)
      modifies this`headers, this`pages, this`lists, freeList
      ensures Coherent(pages, headers, freeList[..], lists, Total())
      ensures Used(pages) == Used(old(pages)) - {p}
      ensures ClientKept(old(pages), h1, headers, p)
      ensures freeList[..] == old(freeList[..])[bits := p] && p in headers && headers[p].next == old(freeList[bits])
      ensures pages == old(pages)[p := Page(bits, false)]
    {
      hide Coherent, Pow2, Buddy, ClientKept, Used, Usable;
      ghost var heads := freeList[..];
      ghost var lists' := ReleaseOk(pages, h1, heads, lists, p, Total());
      headers := SetNext(headers, p, freeList[bits]);
      headers := SetPrev(headers, p, NULL);
      if headers[p].next != NULL {
        headers := SetPrev(headers, headers[p].next, p);
      }
      freeList[bits] := p;
      assert freeList[..] == heads[bits := p];
      assert headers == Pushed(h1, p, bits, heads[bits]);
      pages, lists := pages[p := Page(bits, false)], lists';
    }

    /** The facts on which the loop of `free_page` relies. */
    lemma CanTest(p: nat)
      requires Valid() && p in pages && pages[p].used
      ensures p in headers && headers[p].bits == pages[p].bits + PAGE_IN_USE
      ensures var b := pages[p].bits;
              var x := GetBuddy(memorySize, p, b);
              && (x != NULL ==> x in headers && x != p)
              && (x != NULL && headers[x].bits == b ==> x == Buddy(p, b) && CanMerge(pages, p))
              && (x == NULL || headers[x].bits != b ==> Buddy(p, b) in pages ==> pages[Buddy(p, b)] != Page(b, false))
      ensures Inv(pages, Total())
    {
      OrderBounded(p);
      BuddyTest(pages, headers, memorySize, p);
    }

    /** Give back page `start`, coalescing with free buddies as long as there are any. */
    method FreePage(start: nat)
      requires Valid() && start in pages && pages[start].used
      modifies this`headers, this`pages, this`lists, freeList
      ensures Valid()
      ensures Used(pages) == Used(old(pages)) - {start}
      ensures ClientKept(old(pages), old(headers), headers, start)
    {
      hide Coherent, Pow2, Aligned, Buddy, GetBuddy, ClientKept, Used, Merge;
      var p := start;
      NothingWritten(pages, headers);
      while true
        invariant Valid() && p in pages && pages[p].used
        invariant Used(pages) - {p} == Used(old(pages)) - {start}
        invariant ClientKept(old(pages), old(headers), headers, start)
        decreases |pages|
      {
        ghost var p1, h1 := pages, headers;
        OrderBounded(p);
        CanTest(p);
        var bits := headers[p].bits - PAGE_IN_USE;
        headers := SetBits(headers, p, bits);
        var buddy := GetBuddy(memorySize, p, bits);
        if buddy != NULL && headers[buddy].bits == bits {
          MergeKeeps(p1, Total(), p);
          ghost var p' := p;
          p := MergeWithBuddy(p, bits, buddy, h1);
          MergeTurn(old(pages), p1, pages, start, p', p, old(headers), h1, headers);
        } else {
          PushFree(p, bits, h1);
          ReleaseTurn(old(pages), p1, pages, start, p, old(headers), h1, headers);
          return;
        }
      }
    }

    constructor (size: nat, raw: Headers)
      requires OBJECT_SIZE <= size < WORD
      ensures Valid() && fresh(freeList)
      ensures memorySize == size - OBJECT_SIZE && Used(pages) == map[]
      ensures memorySize < 0x8000_0000_0000_0000 ==> memorySize - Total() < 2 * ALIGNMENT
    {
      memorySize := size - OBJECT_SIZE;
      maxBits := -1;
      freeList := new int[WORD_BITS](_ => NULL);
      headers, pages := raw, map[];
      lists := seq(WORD_BITS, _ => []);
      new;
      CarveChunks();
      UsableIs(memorySize);
    }

    /** The constructor's loop: one free chunk for each power of two in the arena size. */
    method CarveChunks()
      requires memorySize < WORD && freeList.Length == WORD_BITS && maxBits == -1
      requires pages == map[] && lists == seq(WORD_BITS, _ => []) && forall i :: 0 <= i < WORD_BITS ==>
                  freeList[i] == NULL
      modifies this, freeList
      ensures Valid() && Used(pages) == map[]
    {
      hide Coherent, Pow2, Aligned;
      ghost var last: nat := 63;
      var pos: nat, rest: nat := 0, memorySize;
      AlignedZero(63);
      NothingCarved(headers, freeList[..], lists);
      while true
        invariant pos + rest == memorySize
        invariant CarvedTo(memorySize, maxBits, pos, last)
        invariant Coherent(pages, headers, freeList[..], lists, pos)
        invariant forall o :: o in pages ==> !pages[o].used && last <= pages[o].bits
        decreases rest
      {
        var bits := ContainsBits(rest);
        if bits < MIN_BITS {
          CarvedAll(memorySize, maxBits, pos, last, bits);
          break;
        }
        CarveNext(memorySize, maxBits, pos, last, bits);
        PutChunk(pos, bits);
        if maxBits == -1 {
          maxBits := bits;
        }
        pos, rest := pos + Pow2(bits), rest - Pow2(bits);
        last := bits;
      }
      NothingUsed(pages);
    }

    method PutChunk(pos: nat, bits: nat)
      requires freeList.Length == WORD_BITS && Coherent(pages, headers, freeList[..], lists, pos)
      requires MIN_BITS <= bits < WORD_BITS && Aligned(pos, bits)
      requires forall o :: o in pages ==> pages[o].bits != bits
      modifies this`headers, this`pages, this`lists, freeList
      ensures Coherent(pages, headers, freeList[..], lists, pos + Pow2(bits))
      ensures pages == old(pages)[pos := Page(bits, false)]
    {
      ghost var heads := freeList[..];
      ghost var lists' := AddChunk(pages, headers, heads, lists, pos, bits);
      headers := headers[pos := Header(bits, NULL, NULL)];
      freeList[bits] := pos;
      assert freeList[..] == heads[bits := pos];
      pages, lists := pages[pos := Page(bits, false)], lists';
    }

    /** A block of `request` bytes, sixteen bytes into a fresh page, or null. */
    method Malloc(request: nat) returns (ptr: int)
      requires Valid() && 1 <= request <= WORD - 32
      modifies this`headers, this`pages, this`lists, freeList
      ensures Valid()
      ensures ptr == NULL <==> !HasRoom(old(pages), PaddedSize(request))
      ensures ptr == NULL ==>
                pages == old(pages) && headers == old(headers) && freeList[..] == old(freeList[..])
      ensures ptr != NULL ==>
                && BlockOk(pages, Total(), ptr, request)
                && TakenFrom(old(pages), pages, ptr - ALIGNMENT, pages[ptr - ALIGNMENT].bits)
      ensures ClientKept(old(pages), old(headers), headers, NULL)
    {
      PaddedSizeFits(request);
      var n := PaddedSize(request);
      var bits := GetBits(n);
      OrderForSize(n, bits);
      EnoughFree(pages, n, bits);
      var p := PageAlloc(bits);
      if p == NULL {
        return NULL;
      }
      BlockFits(old(pages), pages, Total(), p, bits, request);
      return p + ALIGNMENT;
    }

    /** Give a block back; null is ignored. */
    method Free(ptr: int)
      requires Valid()
      requires ptr != NULL ==> ptr >= ALIGNMENT && ptr - ALIGNMENT in pages && pages[ptr - ALIGNMENT].used
      modifies this`headers, this`pages, this`lists, freeList
      ensures Valid()
      ensures ptr == NULL ==>
                pages == old(pages) && headers == old(headers) && freeList[..] == old(freeList[..])
      ensures ptr != NULL ==> Used(pages) == Used(old(pages)) - {ptr - ALIGNMENT}
      ensures ptr != NULL ==> ClientKept(old(pages), old(headers), headers, ptr - ALIGNMENT)
    {
      if ptr == NULL {
        return;
      }
      FreePage(ptr - ALIGNMENT);
    }

    /** A client stores into its blocks: anything strictly inside a page in use, including
        the `prev` field of the page header, which overlaps the block. */
    method ClientStore(w: Headers)
      requires Valid()
      requires forall o :: o in w ==>
                 (exists u :: Holds(pages, u, o) && pages[u].used)
                 && (o in pages ==> w[o] == headers[o].(prev := w[o].prev))
      modifies this`headers
      ensures Valid() && headers == old(headers) + w
    {
      forall o | o in w && o in pages
        ensures pages[o].used
      {
        var u :| Holds(pages, u, o) && pages[u].used;
        HoldsUnique(pages, u, o, o);
      }
      forall c | 0 <= c < WORD_BITS
        ensures ListOk(pages, headers + w, freeList[..][c], lists[c], c)
      {
        ListFrame(pages, headers, pages, headers + w, freeList[..][c], lists[c], c);
      }
      headers := headers + w;
    }

    /** A client stores into the block in page `p`; what would fall outside of it is ignored. */
    method Fill(p: nat, data: Headers) returns (w: Headers)
      requires Valid() && p in pages && pages[p].used
      modifies this`headers
      ensures Valid() && headers == old(headers) + w
      ensures forall o :: o in w <==> o in data && Holds(pages, p, o)
      ensures forall o :: o in w ==> if o == p then w[o] == old(headers)[o].(prev := data[o].prev) else w[o] == data[o]
    {
      var size := Pow2(headers[p].bits - PAGE_IN_USE);
      w := map o | o in data && p <= o < p + size :: if o == p then headers[p].(prev := data[o].prev) else data[o];
      forall o | o in w
        ensures o in pages ==> o == p
      {
        if o in pages {
          HoldsUnique(pages, p, o, o);
        }
      }
      ClientStore(w);
    }

    /** A block taken and given back at once leaves the layout and all blocks as they were. */
    method AllocateAndFree(request: nat)
      requires Valid() && 1 <= request <= WORD - 32
      modifies this`headers, this`pages, this`lists, freeList
      ensures Valid() && pages == old(pages)
      ensures ClientKept(old(pages), old(headers), headers, NULL)
    {
      var ptr := Malloc(request);
      if ptr != NULL {
        ghost var p1, h1, r := pages, headers, ptr - ALIGNMENT;
        TakenUsed(old(pages), p1, r, p1[r].bits);
        assert r !in Used(old(pages));
        Free(ptr);
        AllocFreeRoundTrip(old(pages), p1, pages, Total(), r, p1[r].bits);
        ClientKeptStep(old(pages), p1, old(headers), h1, headers, NULL, r);
      }
    }

    /** With nothing in use the free lists hold exactly the chunks of the greedy decomposition,
        each alone on its list: coalescing recovers what the constructor built. */
    lemma AllFreed(b: nat)
      requires Valid() && Used(pages) == map[] && b < WORD_BITS
      ensures freeList[b] == NULL ==> forall o :: !(MIN_BITS <= b && Root(Total(), b, o))
      ensures freeList[b] != NULL ==>
                && MIN_BITS <= b && Root(Total(), b, freeList[b])
                && freeList[b] in headers && headers[freeList[b]] == Header(b, NULL, NULL)
    {
      var l := lists[b];
      assert ListOk(pages, headers, freeList[..][b], l, b);
      forall o
        ensures o in l <==> MIN_BITS <= b && Root(Total(), b, o)
      {
        AllFreeIsGreedy(pages, Total(), o, b);
      }
      if |l| > 0 {
        assert l[0] in l;
        if |l| > 1 {
          assert l[1] in l;
          RootUnique(Total(), b, l[0], l[1]);
        }
      }
    }
  }

  // ----- whole runs

  datatype Op = Alloc(request: nat) | Release(index: nat) | Fill(index: nat, data: Headers)

  /** What came of an operation; a failed allocation takes null. */
  datatype Event = Took(ptr: int) | Gave(ptr: int) | Wrote(ptr: int, w: Headers) | Nothing

  /** The layout, and the blocks handed out and not given back, in order. */
  datatype Snapshot = Snapshot(pages: Pages, live: seq<int>)

  /** `live` lists the blocks in use, each once. */
  ghost predicate Tracks(pages: Pages, live: seq<int>) {
    Distinct(live) && NULL !in live && forall o :: o in Used(pages) <==> o + ALIGNMENT in live
  }

  /** The layout is one the allocator can have, and its pages in use are those of the live blocks. */
  ghost predicate Legal(total: int, s: Snapshot) {
    Inv(s.pages, total) && Tracks(s.pages, s.live)
  }

  ghost predicate Allocates(total: int, s: Snapshot, n: nat, ptr: int, s': Snapshot) {
    if !HasRoom(s.pages, PaddedSize(n)) then ptr == NULL && s' == s
    else
      && ptr != NULL && s'.live == s.live + [ptr] && BlockOk(s'.pages, total, ptr, n)
      && TakenFrom(s.pages, s'.pages, ptr - ALIGNMENT, s'.pages[ptr - ALIGNMENT].bits)
  }

  ghost predicate Writes(s: Snapshot, k: nat, data: Headers, w: Headers)
    requires k < |s.live|
  {
    var r := s.live[k] - ALIGNMENT;
    && (forall o :: o in w <==> o in data && Holds(s.pages, r, o))
    && (forall o :: o in w ==> if o == r then w[o].prev == data[o].prev else w[o] == data[o])
  }

  /** What each operation does to the layout and the live blocks, and what comes of it.  Releases
      and stores name a block by its place among the live ones; out of range they do nothing. */
  ghost predicate Moves(total: int, s: Snapshot, op: Op, e: Event, s': Snapshot) {
    match op
    case Alloc(n) => e.Took? && Allocates(total, s, n, e.ptr, s')
    case Release(k) =>
      if k >= |s.live| then e == Nothing && s' == s
      else
        && e == Gave(s.live[k]) && s'.live == RemoveAt(s.live, k)
        && Used(s'.pages) == Used(s.pages) - {s.live[k] - ALIGNMENT}
    case Fill(k, data) =>
      s' == s && if k >= |s.live| then e == Nothing else e.Wrote? && e.ptr == s.live[k] && Writes(s, k, data, e.w)
  }

  /** The operations lead from an empty arena through the layouts and live blocks of `steps`. */
  ghost predicate Follows(total: int, ops: seq<Op>, log: seq<Event>, steps: seq<Snapshot>) {
    && |log| == |ops| && |steps| == |ops| + 1
    && steps[0].live == [] && (forall i :: 0 <= i <= |ops| ==> Legal(total, steps[i]))
    && (forall i :: 0 <= i < |ops| ==> Moves(total, steps[i], ops[i], log[i], steps[i + 1]))
  }

  lemma OrderUnique(n: nat, b: nat, c: nat)
    requires n <= Pow2(b) < 2 * n && n <= Pow2(c) < 2 * n
    ensures b == c
  {
    if b < c {
      Pow2Monotone(b, c);
    } else if c < b {
      Pow2Monotone(c, b);
    }
  }

  lemma MoveUnique(total: int, s: Snapshot, op: Op, e: Event, a: Snapshot, b: Snapshot)
    requires Moves(total, s, op, e, a) && Moves(total, s, op, e, b) && Legal(total, a) && Legal(total, b)
    ensures a == b
  {
    match op
    case Alloc(n) =>
      if HasRoom(s.pages, PaddedSize(n)) {
        var r := e.ptr - ALIGNMENT;
        OrderUnique(PaddedSize(n), a.pages[r].bits, b.pages[r].bits);
        Canonical(a.pages, b.pages, total);
      }
    case Release(k) =>
      if k < |s.live| {
        Canonical(a.pages, b.pages, total);
      }
    case Fill(_, _) =>
  }

  /** The layout and the live blocks at any point of a run are determined by its operations and
      what came of them. */
  lemma {:induction false} StepsUnique(total: int, ops: seq<Op>, log: seq<Event>, a: seq<Snapshot>, b: seq<Snapshot>,
                                       i: nat)
    requires Follows(total, ops, log, a) && Follows(total, ops, log, b) && i <= |ops|
    ensures a[i] == b[i]
  {
    if i == 0 {
      NoneInUse(a[0].pages);
      NoneInUse(b[0].pages);
      Canonical(a[0].pages, b[0].pages, total);
    } else {
      StepsUnique(total, ops, log, a, b, i - 1);
      MoveUnique(total, a[i - 1], ops[i - 1], log[i - 1], a[i], b[i]);
    }
  }

  /** What clients have stored, by page, since the block was handed out. */
  function Written(log: seq<Event>): map<int, Headers> {
    if log == [] then map[]
    else
      var before := Written(log[..|log| - 1]);
      match log[|log| - 1]
      case Gave(ptr) => before - {ptr - ALIGNMENT}
      case Wrote(ptr, w) =>
        var r := ptr - ALIGNMENT;
        before[r := (if r in before then before[r] else map[]) + w]
      case _ => before
  }

  /** The memory at `o`, in the page at `r`, holds `h`; of the page header only the part that
      belongs to the client counts. */
  predicate Holding(pages: Pages, headers: Headers, r: int, o: int, h: Header) {
    Holds(pages, r, o) && o in headers && (if o == r then headers[o].prev == h.prev else headers[o] == h)
  }

  ghost predicate BlockIntact(pages: Pages, headers: Headers, r: int, data: Headers) {
    r in pages && pages[r].used && forall o :: o in data ==> Holding(pages, headers, r, o, data[o])
  }

  /** Every block still holds what its client has stored in it. */
  ghost predicate Intact(pages: Pages, headers: Headers, written: map<int, Headers>) {
    forall r :: r in written ==> BlockIntact(pages, headers, r, written[r])
  }

  lemma BlockKept(p0: Pages, p1: Pages, h0: Headers, h1: Headers, r: int, data: Headers, except: int)
    requires BlockIntact(p0, h0, r, data) && ClientKept(p0, h0, h1, except) && r != except
    requires r in p1 && p1[r] == p0[r]
    ensures BlockIntact(p1, h1, r, data)
  {
    forall o | o in data
      ensures Holding(p1, h1, r, o, data[o])
    {
      assert Holding(p0, h0, r, o, data[o]) && Same(h0, h1, o);
    }
  }

  lemma IntactTaken(p0: Pages, p1: Pages, h0: Headers, h1: Headers, written: map<int, Headers>, r: int, b: nat)
    requires Intact(p0, h0, written) && ClientKept(p0, h0, h1, NULL) && TakenFrom(p0, p1, r, b)
    requires NULL !in p0
    ensures Intact(p1, h1, written)
  {
    TakenUsed(p0, p1, r, b);
    forall u | u in written
      ensures BlockIntact(p1, h1, u, written[u])
    {
      assert BlockIntact(p0, h0, u, written[u]);
      BlockKept(p0, p1, h0, h1, u, written[u], NULL);
    }
  }

  lemma IntactFreed(p0: Pages, p1: Pages, h0: Headers, h1: Headers, written: map<int, Headers>, r: int)
    requires Intact(p0, h0, written) && ClientKept(p0, h0, h1, r) && Used(p1) == Used(p0) - {r}
    ensures Intact(p1, h1, written - {r})
  {
    forall u | u in written - {r}
      ensures BlockIntact(p1, h1, u, written[u])
    {
      assert BlockIntact(p0, h0, u, written[u]) && u in Used(p0) && u in Used(p1);
      assert Used(p1)[u] == Used(p0)[u];
      BlockKept(p0, p1, h0, h1, u, written[u], r);
    }
  }

  lemma IntactFilled(pages: Pages, h0: Headers, w: Headers, written: map<int, Headers>, r: int)
    requires Apart(pages) && Intact(pages, h0, written) && r in pages && pages[r].used
    requires forall o :: o in w ==> Holds(pages, r, o)
    ensures Intact(pages, h0 + w, written[r := (if r in written then written[r] else map[]) + w])
  {
    var written' := written[r := (if r in written then written[r] else map[]) + w];
    forall u | u in written'
      ensures BlockIntact(pages, h0 + w, u, written'[u])
    {
      assert u in written ==> BlockIntact(pages, h0, u, written[u]);
      forall o | o in written'[u]
        ensures Holding(pages, h0 + w, u, o, written'[u][o])
      {
        if u in written && o in written[u] {
          assert Holding(pages, h0, u, o, written[u][o]);
          if o in w {
            HoldsUnique(pages, u, r, o);
          }
        }
      }
    }
  }

  lemma TracksTaken(before: Pages, after: Pages, live: seq<int>, ptr: int, b: nat)
    requires Tracks(before, live) && ptr != NULL && TakenFrom(before, after, ptr - ALIGNMENT, b)
    ensures Tracks(after, live + [ptr])
  {
    assert ptr - ALIGNMENT !in Used(before);
  }

  lemma TracksFreed(before: Pages, after: Pages, live: seq<int>, k: nat)
    requires Tracks(before, live) && k < |live| && Used(after) == Used(before) - {live[k] - ALIGNMENT}
    ensures Tracks(after, RemoveAt(live, k))
  {
  }

  lemma LiveUsed(pages: Pages, live: seq<int>, k: nat)
    requires Tracks(pages, live) && k < |live|
    ensures live[k] - ALIGNMENT in pages && pages[live[k] - ALIGNMENT].used && live[k] != NULL
  {
    assert live[k] - ALIGNMENT in Used(pages);
  }

  lemma WrittenMore(log: seq<Event>, e: Event)
    ensures Written(log + [e]) == match e
                                  case Gave(ptr) => Written(log) - {ptr - ALIGNMENT}
                                  case Wrote(ptr, w) =>
                                    var r := ptr - ALIGNMENT;
                                    Written(log)[r := (if r in Written(log) then Written(log)[r] else map[]) + w]
                                  case _ => Written(log)
  {
    assert (log + [e])[..|log|] == log;
  }

  method PerformAlloc(a: Allocator, live: seq<int>, n: nat, ghost log: seq<Event>) returns (live': seq<int>, ptr: int)
    requires a.Valid() && Tracks(a.pages, live) && Intact(a.pages, a.headers, Written(log)) && 1 <= n <= WORD - 32
    modifies a`headers, a`pages, a`lists, a.freeList
    ensures a.Valid() && Tracks(a.pages, live') && Intact(a.pages, a.headers, Written(log + [Took(ptr)]))
    ensures Allocates(a.Total(), Snapshot(old(a.pages), live), n, ptr, Snapshot(a.pages, live'))
  {
    assert NULL !in a.pages by { a.NullIsNoPage(); }
    hide Coherent, Intact, BlockOk, HasRoom, ClientKept, TakenFrom, Tracks, Written, Pow2;
    live' := live;
    ptr := a.Malloc(n);
    WrittenMore(log, Took(ptr));
    if ptr != NULL {
      ghost var r := ptr - ALIGNMENT;
      TracksTaken(old(a.pages), a.pages, live, ptr, a.pages[r].bits);
      IntactTaken(old(a.pages), a.pages, old(a.headers), a.headers, Written(log), r, a.pages[r].bits);
      live' := live + [ptr];
    }
  }

  method PerformRelease(a: Allocator, live: seq<int>, k: nat, ghost log: seq<Event>) returns (live': seq<int>, e: Event)
    requires a.Valid() && Tracks(a.pages, live) && Intact(a.pages, a.headers, Written(log))
    modifies a`headers, a`pages, a`lists, a.freeList
    ensures a.Valid() && Tracks(a.pages, live') && Intact(a.pages, a.headers, Written(log + [e]))
    ensures Moves(a.Total(), Snapshot(old(a.pages), live), Release(k), e, Snapshot(a.pages, live'))
  {
    hide Coherent, Intact, ClientKept, Tracks, Written, Used, Pow2;
    live', e := live, Nothing;
    if k < |live| {
      LiveUsed(a.pages, live, k);
      a.BlocksBegin(live[k] - ALIGNMENT);
      a.Free(live[k]);
      e := Gave(live[k]);
      TracksFreed(old(a.pages), a.pages, live, k);
      IntactFreed(old(a.pages), a.pages, old(a.headers), a.headers, Written(log), live[k] - ALIGNMENT);
      live' := RemoveAt(live, k);
    }
    WrittenMore(log, e);
  }

  method PerformFill(a: Allocator, live: seq<int>, k: nat, data: Headers, ghost log: seq<Event>) returns (e: Event)
    requires a.Valid() && Tracks(a.pages, live) && Intact(a.pages, a.headers, Written(log))
    modifies a`headers
    ensures a.Valid() && Intact(a.pages, a.headers, Written(log + [e]))
    ensures Moves(a.Total(), Snapshot(a.pages, live), Fill(k, data), e, Snapshot(a.pages, live))
  {
    hide Intact, Tracks, Written, Pow2;
    e := Nothing;
    if k < |live| {
      LiveUsed(a.pages, live, k);
      assert Apart(a.pages);
      hide Coherent, Apart;
      var w := a.Fill(live[k] - ALIGNMENT, data);
      e := Wrote(live[k], w);
      IntactFilled(a.pages, old(a.headers), w, Written(log), live[k] - ALIGNMENT);
    }
    WrittenMore(log, e);
  }

  method Perform(a: Allocator, live: seq<int>, op: Op, ghost log: seq<Event>) returns (live': seq<int>, e: Event)
    requires a.Valid() && Tracks(a.pages, live) && Intact(a.pages, a.headers, Written(log))
    requires op.Alloc? ==> 1 <= op.request <= WORD - 32
    modifies a`headers, a`pages, a`lists, a.freeList
    ensures a.Valid() && Tracks(a.pages, live') && Intact(a.pages, a.headers, Written(log + [e]))
    ensures Moves(a.Total(), Snapshot(old(a.pages), live), op, e, Snapshot(a.pages, live'))
  {
    hide Coherent, Intact, Tracks, Written, Allocates, Writes, Used, Pow2;
    match op
    case Alloc(n) =>
      var ptr;
      live', ptr := PerformAlloc(a, live, n, log);
      e := Took(ptr);
    case Release(k) => live', e := PerformRelease(a, live, k, log);
    case Fill(k, data) =>
      live' := live;
      e := PerformFill(a, live, k, data, log);
  }

  /** Run any sequence of allocations, releases and stores into blocks on a new arena.  What comes of
      each is what the layout at that point demands, every block still holds what was stored in it,
      and if none is left every chunk is back on its list. */
  method Run(size: nat, raw: Headers, ops: seq<Op>)
    returns (a: Allocator, live: seq<int>, log: seq<Event>, ghost steps: seq<Snapshot>)
    requires OBJECT_SIZE <= size < WORD
    requires forall i :: 0 <= i < |ops| && ops[i].Alloc? ==> 1 <= ops[i].request <= WORD - 32
    ensures a.Valid() && a.memorySize == size - OBJECT_SIZE
    ensures Follows(a.Total(), ops, log, steps) && steps[|ops|] == Snapshot(a.pages, live)
    ensures Intact(a.pages, a.headers, Written(log))
    ensures live == [] ==> forall b: nat :: b < WORD_BITS ==>
              if a.freeList[b] == NULL then forall o :: !(MIN_BITS <= b && Root(a.Total(), b, o))
              else MIN_BITS <= b && Root(a.Total(), b, a.freeList[b])
                   && a.freeList[b] in a.headers && a.headers[a.freeList[b]] == Header(b, NULL, NULL)
  {
    hide Moves, Intact, Tracks, Coherent, Pow2, Used, Written;
    a := new Allocator(size, raw);
    live, log := [], [];
    steps := [Snapshot(a.pages, live)];
    NothingLive(a.pages);
    WrittenNothing();
    a.HasInv();
    for i := 0 to |ops|
      invariant a.Valid() && fresh(a) && fresh(a.freeList) && Tracks(a.pages, live)
      invariant a.memorySize == size - OBJECT_SIZE && Intact(a.pages, a.headers, Written(log))
      invariant Follows(a.Total(), ops[..i], log, steps) && steps[i] == Snapshot(a.pages, live)
    {
      var e;
      ghost var p0, l0 := a.pages, live;
      live, e := Perform(a, live, ops[i], log);
      a.HasInv();
      log, steps := log + [e], steps + [Snapshot(a.pages, live)];
    }
    assert ops[..|ops|] == ops;
    if live == [] {
      NoneInUse(a.pages);
      forall b: nat | b < WORD_BITS {
        a.AllFreed(b);
      }
    }
  }

  lemma NothingLive(pages: Pages)
    requires Used(pages) == map[]
    ensures Tracks(pages, [])
    ensures forall headers :: Intact(pages, headers, map[])
  {
  }

  lemma WrittenNothing()
    ensures Written([]) == map[]
  {
  }

  lemma NoneInUse(pages: Pages)
    requires Tracks(pages, [])
    ensures Used(pages) == map[]
  {
    assert forall o :: o in pages && pages[o].used ==> o in Used(pages);
    NothingUsed(pages);
  }
}
