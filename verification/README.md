# Verified models of CppBlog and its CppCMS support classes

The project models the parts of the blog engine and of the CppCMS support library whose
correctness spans several operations, and proves what they promise over all inputs, all runs or
all reachable states. `dafny verify dfyconfig.toml` checks everything.

## What is modelled

* **Buddy allocator** (`PowersOfTwo`, `Sequences`, `BuddyPages`, `BuddyHeaders`,
  `BuddyAllocator`). A 64-bit arena in which pointers are offsets and raw memory is a map from
  offset to the header that would be read there. `BuddyPages` is the layout: aligned pages that
  tile the arena, with no two free buddies. `BuddyHeaders` adds flags and doubly linked free
  lists. The class `Allocator` holds list heads and headers and runs the recursion of
  `page_alloc` and the loop of `free_page`; its ghost fields record the layout. The central
  result is `BuddyPages.Canonical`: the pages in use determine the free pages. Hence freeing
  everything restores the lists the constructor built.
* **Hash map** (`IntrusiveLists`, `HashMap`). One doubly linked list of nodes in a store shared by
  all lists; each bucket is a pair of pointers around a contiguous segment of it. It refines a
  finite map.
* **Upload buffer** (`FileBuffer`). A stream that starts in memory and moves to a file. It refines
  the pair (bytes written, read position), whatever the limit and whenever it moves; unless told to, it moves
  exactly when the contents exceed the limit. A seek sum past the signed 64-bit range, which C++
  leaves undefined, is taken to wrap.
* **Number formatting** (`FormatNumber`), **search and LIKE escaping** (`Text`), the **`[tex]`
  scanner** (`LatexFilter`), **page arithmetic** (`Pagination`) and the **chunked upload protocol**
  (`Upload`).
* **The blog** (`CacheTags`, `BlogTables`, `BlogCache`, `BlogState`, `BlogInvariant`, `BlogTexts`,
  `BlogLimits`, `BlogEffects`, `BlogServer`). The tables and the page cache form a state machine
  whose steps are whole requests. What the database is free to choose (ids of new rows, the order of
  ties and of unordered rows) is part of the request and constrained by `Allowed`; `BlogLimits` shows
  that an allowed choice always exists. Cached pages carry what the skin puts around them: the blog's texts and the cached
  frame of the sidebar. `BlogServer` holds the handlers as they run, statement by statement and loop
  by loop, with nested trigger recorders; `Serve` is proved to take the steps of the state machine.
  `BlogEffects` says of every request what it does, row by row, without naming the functions that
  specify the handlers. Times, texts of forms and the identity of the user are parameters.

Names of cache keys are structured values; `CacheTags.TextInjective` shows that their texts never
collide, so nothing is lost by that.

## Where the code does not keep a promise

* `malloc` is right exactly for requests from 1 to 2^64 - 32 (`BuddyAllocator.PaddedSizeFits`): a
  request of 0 gets a 16-byte page, too small for a free-list header, and the last 31 values wrap.
* The page of a post asked for under an id with leading zeros is cached under the text of the URL,
  while changes raise the trigger of the number. After the post was removed or commented on, the old
  page is still served exactly when the id is not canonical (`BlogLimits.RemovedPostStays`,
  `BlogLimits.CommentedPostStays`). After an edit it is still served exactly when, in addition, the
  edit raises no trigger of the sidebar that the page embeds: no category was added, and no change
  of status met a category of the post (`BlogLimits.EditedPostStays`). Static pages are not affected,
  because every change of an open page also raises the trigger of the page list.
* In the same way the feed of a removed category is still served under non-canonical ids, and only
  there (`BlogLimits.RemovedFeedStays`).
* A post of the configuration form on a configured blog redirects but goes on, and changes title,
  description and contact without raising a trigger. Cached pages, feeds and options then show the
  old texts (`BlogTexts.ConfigureOutdates`). While they are current, a request outdates some exactly
  when it is such a post that changes the texts while something that shows them is cached
  (`BlogTexts.TextsStayRight`); saving the options mends it (`BlogTexts.TextsHealed`).
* Asking for a category before it exists, on a new blog too, can cache its name as empty. Creating
  the category does not raise that entry's trigger, and its listing stays refused (`BlogLimits.EmptyNameStays`). While all
  cached names are right, a request makes one wrong exactly when it creates a category whose name is
  in the cache (`BlogLimits.NamesStayRight`).
* Putting back another byte than the one just read is refused by the upload buffer in memory, as a
  stream should, but ignored in file mode once the get area begins past the start of the file
  (`FileBuffer.FileBuffer.PutBack`, with a reachable case in `FileBuffer.IgnoredPutBack`).

Every stale page above goes when the whole cache is cleared, which the first request of a session or
a change of language does (apps/main.cpp:82-85); in the model these are requests of their own.

## Model

| member | source | states |
|---|---|---|
| BuddyAllocator.Run | lib/cppcms/private/buddy_allocator.h:35-88 | Any sequence of allocations, releases and client stores on a new arena goes through legal layouts in which each operation does and returns exactly what the layout before it demands: an allocation fails exactly for want of room and else takes one page of the right order, a release gives back exactly its block, a store reaches exactly its block. At the end every block still holds what its client last stored in it, and if none is left each free list is empty or holds alone the chunk the constructor put there. |
| BuddyAllocator.StepsUnique | lib/cppcms/private/buddy_allocator.h:222-307 | The layout and the live blocks at any point of a run are determined by its operations and what came of them. |
| BuddyAllocator.MoveUnique | lib/cppcms/private/buddy_allocator.h:222-307 | The layout after one operation is determined by the layout before it and the address returned. |
| BuddyAllocator.Perform | lib/cppcms/private/buddy_allocator.h:65-88 | One allocation, release or client store does and returns what the layout demands, keeps the allocator coherent and what clients stored intact. |
| BuddyAllocator.IntactTaken | lib/cppcms/private/buddy_allocator.h:222-263 | Handing out a page, with all its splits, leaves what clients stored in their blocks. |
| BuddyAllocator.IntactFreed | lib/cppcms/private/buddy_allocator.h:273-307 | Freeing a page, with all its merges, leaves what clients stored in the other blocks. |
| BuddyAllocator.IntactFilled | lib/cppcms/private/buddy_allocator.h:65-78 | Storing into one block changes no other. |
| BuddyAllocator.Allocator.AllocateAndFree | lib/cppcms/private/buddy_allocator.h:65-88 | A malloc followed by a free of its result restores the layout exactly and leaves all blocks alone. |
| BuddyAllocator.Allocator.Fill | lib/cppcms/private/buddy_allocator.h:65-78 | A store into a block keeps the allocator coherent and reaches exactly the offsets of that block, of the page header only the overlapping field. |
| BuddyAllocator.Allocator.AllFreed | lib/cppcms/private/buddy_allocator.h:115-126 | With nothing in use, list `b` is empty when the arena has no chunk of order `b` in its binary decomposition, and otherwise holds exactly that chunk with null links. |
| BuddyPages.Canonical | lib/cppcms/private/buddy_allocator.h:222-307 | Two reachable layouts of an arena with the same pages in use are equal: free pages are determined by the used ones, whatever the history of splits and merges. |
| BuddyPages.AllFreeIsGreedy | lib/cppcms/private/buddy_allocator.h:35-62 | With no page in use, the free pages are exactly the chunks of the greedy decomposition, at their offsets. |
| BuddyPages.AllFreeIsRoot | lib/cppcms/private/buddy_allocator.h:45-61 | With no page in use every page sits where the constructor would place the chunk of its order. |
| BuddyPages.AllocFreeRoundTrip | lib/cppcms/private/buddy_allocator.h:222-307 | Two layouts between which exactly one page was taken and given back are equal, splits and merges included. |
| BuddyPages.FreeBlockWhole | lib/cppcms/private/buddy_allocator.h:273-307 | An aligned block without used pages is never cut below its own order: coalescing is complete. |
| BuddyPages.FreePageShared | lib/cppcms/private/buddy_allocator.h:273-307 | A free page of one layout is the same free page in any other layout with the same pages in use. |
| BuddyPages.BuddyLive | lib/cppcms/private/buddy_allocator.h:264-272 | In a tiled arena the XOR address of a page, if it fits, is the start of a live page of no larger order, never inside another page. |
| BuddyHeaders.GetBuddyLive | lib/cppcms/private/buddy_allocator.h:264-272 | `get_buddy` yields null or the start of a live page of no larger order; when it yields null there is no page to merge with. |
| BuddyHeaders.RootHasNoBuddy | lib/cppcms/private/buddy_allocator.h:45-61 | The initial chunks have no buddy inside the arena, so they never merge with each other. |
| BuddyHeaders.EndBeyond | lib/cppcms/private/buddy_allocator.h:264-272 | A page end beyond the carved bytes is beyond the whole arena, so the remainder of less than 32 bytes never makes `get_buddy` accept a region without pages. |
| PowersOfTwo.XorBuddy | lib/cppcms/private/buddy_allocator.h:264-272 | XOR with the page size turns the aligned offset of one half of a doubled block into that of the other half. |
| PowersOfTwo.AlignedIsMultiple | lib/cppcms/private/buddy_allocator.h:45-61 | The bitwise alignment used for pages is divisibility of the offset by the page size. |
| BuddyPages.BuddyInvolution | lib/cppcms/private/buddy_allocator.h:264-272 | The buddy of the buddy is the page itself, and never the page itself. |
| BuddyPages.SplitKeeps | lib/cppcms/private/buddy_allocator.h:234-247 | Cutting a used page in two keeps the tiling, alignment and absence of free twins, and only halves the used page. |
| BuddyPages.MarkUsed | lib/cppcms/private/buddy_allocator.h:249-261 | Taking a free page into use keeps the layout invariant and adds exactly that page to those in use. |
| BuddyPages.MarkFree | lib/cppcms/private/buddy_allocator.h:295-303 | Giving back a page whose buddy is not free keeps the layout invariant and removes exactly that page from those in use. |
| BuddyPages.MergeKeeps | lib/cppcms/private/buddy_allocator.h:281-293 | Joining a page with its free buddy keeps the layout invariant, leaves one used page of the next order at the lower offset, and there are fewer pages than before: the loop ends. |
| BuddyPages.RootUnique | lib/cppcms/private/buddy_allocator.h:45-61 | The greedy decomposition has at most one chunk of each order. |
| BuddyHeaders.UnlinkChain | lib/cppcms/private/buddy_allocator.h:281-289 | Taking a node out of the middle of a doubly linked free list leaves a well-formed list of the other nodes. |
| BuddyHeaders.RemoveFree | lib/cppcms/private/buddy_allocator.h:281-289 | Unlinking a free buddy leaves all 64 lists well formed, each with exactly the free pages of its order; the list head changes exactly when the node had no predecessor. |
| BuddyHeaders.AddFree | lib/cppcms/private/buddy_allocator.h:295-303 | Pushing a page on its list leaves all lists well formed, with that page added. |
| BuddyHeaders.TakeFirstOk | lib/cppcms/private/buddy_allocator.h:249-261 | Unlinking the head of a list and flagging it in use keeps layout, headers and lists in agreement and touches no memory of blocks in use. |
| BuddyHeaders.SplitOk | lib/cppcms/private/buddy_allocator.h:234-261 | Writing the header of the upper half and listing it keeps layout, headers and lists in agreement and touches no memory of other blocks in use. |
| BuddyHeaders.SplitRestOk | lib/cppcms/private/buddy_allocator.h:234-261 | Splitting what the recursive call returned leaves a page of the requested order as the only new page in use. |
| BuddyHeaders.MergeOk | lib/cppcms/private/buddy_allocator.h:276-293 | One merging turn of the loop keeps layout, headers and lists in agreement and touches no memory of other blocks in use. |
| BuddyHeaders.ReleaseOk | lib/cppcms/private/buddy_allocator.h:294-304 | The final turn of the loop keeps layout, headers and lists in agreement, frees exactly this page and touches no memory of other blocks in use. |
| BuddyHeaders.AddChunk | lib/cppcms/private/buddy_allocator.h:45-61 | Adding a chunk of a new order at the end of the carved bytes keeps layout, headers and lists in agreement. |
| BuddyAllocator.ContainsBits | lib/cppcms/private/buddy_allocator.h:200-210 | The order of the largest power of two within the size; none for sizes below 2 and from 2^63 on. |
| BuddyAllocator.GetBits | lib/cppcms/private/buddy_allocator.h:211-219 | The least order whose page holds the size, 64 when none does. |
| BuddyAllocator.PaddedSizeFits | lib/cppcms/private/buddy_allocator.h:67 | The padded size computed in wrapping 64-bit arithmetic has room for header and request exactly for requests from 1 to 2^64 - 32. |
| BuddyAllocator.PaddedSizeIs | lib/cppcms/private/buddy_allocator.h:67 | The padded size is the least multiple of 16 with room for header and request. |
| BuddyHeaders.UsableIs | lib/cppcms/private/buddy_allocator.h:45-61 | Less than two alignments of the arena are left uncarved (all of it from 2^63 bytes on). |
| BuddyAllocator.OrderForSize | lib/cppcms/private/buddy_allocator.h:67-68 | The page order chosen is at least the minimum and wastes less than half: an order holds the request exactly if it is not smaller. |
| BuddyAllocator.BlockFits | lib/cppcms/private/buddy_allocator.h:65-78 | The returned block is 16-aligned, holds the request inside its own page inside the arena, and the page is under twice the padded size. |
| BuddyAllocator.CarveNext | lib/cppcms/private/buddy_allocator.h:45-61 | Each chunk carved is smaller than all before it and starts at a multiple of its size. |
| BuddyAllocator.CarvedAll | lib/cppcms/private/buddy_allocator.h:45-49 | Carving stops with less than 32 bytes left over; from 2^63 bytes on nothing is carved. |
| BuddyAllocator.Allocator.constructor | lib/cppcms/private/buddy_allocator.h:35-62 | A new arena is coherent and has no page in use, whatever the raw memory held. |
| BuddyAllocator.Allocator.CarveChunks | lib/cppcms/private/buddy_allocator.h:45-61 | The loop carves the arena into free chunks so that layout, headers, lists and the largest order agree. |
| BuddyAllocator.Allocator.PageAlloc | lib/cppcms/private/buddy_allocator.h:222-263 | Null, with nothing changed, exactly when no free page of sufficient order exists; otherwise a page of the least sufficient order is taken, it is the only new page in use and has the requested order; memory of blocks in use is untouched. |
| BuddyAllocator.Allocator.TakeFirst | lib/cppcms/private/buddy_allocator.h:249-261 | The head of a non-empty list becomes the page in use; lower lists stay as they are. |
| BuddyAllocator.Allocator.SplitLarger | lib/cppcms/private/buddy_allocator.h:234-247 | Same promise as the whole operation for the branch with an empty list, through recursion on the next order. |
| BuddyAllocator.Allocator.MergeWithBuddy | lib/cppcms/private/buddy_allocator.h:281-293 | The pointer assignments of the merging branch produce the merged layout and continue with the lower half. |
| BuddyAllocator.Allocator.PushFree | lib/cppcms/private/buddy_allocator.h:294-304 | The pointer assignments of the last branch put exactly this page on its list. |
| BuddyAllocator.Allocator.FreePage | lib/cppcms/private/buddy_allocator.h:273-307 | Exactly the freed page leaves the pages in use, the allocator stays coherent (no free twins), and memory of other blocks is untouched. |
| BuddyAllocator.Allocator.Malloc | lib/cppcms/private/buddy_allocator.h:65-78 | Null, with nothing changed, exactly when no free page has the padded size; otherwise an aligned block of the requested size in a page that was not in use, all blocks in use untouched. |
| BuddyAllocator.Allocator.Free | lib/cppcms/private/buddy_allocator.h:80-88 | Null is ignored; otherwise exactly the page of the block is given back. |
| BuddyAllocator.Allocator.ClientStore | lib/cppcms/private/buddy_allocator.h:65-88 | Whatever clients write inside their own blocks, including the `prev` field of their own header, the allocator stays coherent. |
| BuddyAllocator.Allocator.OrderBounded | lib/cppcms/private/buddy_allocator.h:228-231 | Every page has an order between 5 and the largest chunk order, so neither recursion nor coalescing leaves the table of lists. |
| HashMap.Run | lib/cppcms/private/hash_map.h:171-363 | Any run of insert, find, erase, size, clear and rehash returns what a finite map returns and ends with its contents; without manual rehash it has fewer entries than buckets. |
| HashMap.Perform | lib/cppcms/private/hash_map.h:171-328 | Each operation does to the table what it does to a finite map, returns the same, and keeps the load condition unless it is a manual rehash. |
| HashMap.ApplyIs | lib/cppcms/private/hash_map.h:171-260 | What each operation does to a finite map and returns, spelled out: the first value put under a key stays until it is dropped. |
| HashMap.BasicMap.Insert | lib/cppcms/private/hash_map.h:205-229 | Adds the entry exactly when its key is absent, otherwise changes no entry; the returned node carries the key and its mapped value; one node is allocated or none; afterwards there are fewer entries than buckets. |
| HashMap.BasicMap.Find | lib/cppcms/private/hash_map.h:195-202 | Null exactly when the key is absent, otherwise the node with that key and its value. |
| HashMap.BasicMap.FindInRange | lib/cppcms/private/hash_map.h:332-344 | The walk over one bucket decides presence in the whole map. |
| HashMap.BasicMap.Link | lib/cppcms/private/hash_map.h:216-224 | Linking a node after its bucket, or at the end of the list, adds exactly its entry. |
| HashMap.BasicMap.Erase | lib/cppcms/private/hash_map.h:171-189 | Removes exactly the entry of the node and its position in the iteration order, frees exactly that node and returns its successor; null is ignored. |
| HashMap.BasicMap.EraseNode | lib/cppcms/private/hash_map.h:175-188 | The non-null case of erase, by position in the iteration order. |
| HashMap.BasicMap.ShrinkBucket | lib/cppcms/private/hash_map.h:175-183 | The bucket of the erased node loses it at the end it sits at; all other buckets stay. |
| HashMap.BasicMap.Clear | lib/cppcms/private/hash_map.h:231-260 | The map becomes empty with as many buckets as before, and exactly the nodes of its entries are freed, on either branch. |
| HashMap.BasicMap.FreeNodesAndBuckets | lib/cppcms/private/hash_map.h:247-257 | Emptying only the buckets of the entries empties every bucket, and every node is freed. |
| HashMap.BasicMap.FreeNodes | lib/cppcms/private/hash_map.h:239-245 | Every node of the list is freed and no other. |
| HashMap.BasicMap.Rehash | lib/cppcms/private/hash_map.h:308-328 | Contents and set of nodes are the same in a table of the new size, which may be zero when there are no entries; only links change. |
| HashMap.BasicMap.MoveFirst | lib/cppcms/private/hash_map.h:312-324 | Each turn moves the first node to the new table, keeping both lists and all buckets well formed. |
| HashMap.BasicMap.RehashIfNeeded | lib/cppcms/private/hash_map.h:353-363 | Contents stay, one more entry still leaves fewer entries than buckets, and the table grows to twice the next number of entries exactly when it is needed. |
| HashMap.BasicMap.Entries | lib/cppcms/private/hash_map.h:262-269 | Iteration meets every entry exactly once. |
| HashMap.RangesInsert | lib/cppcms/private/hash_map.h:209-224 | Putting a new node right after its bucket, or at the end, keeps every bucket one contiguous segment of the list delimited by its pair of pointers. |
| HashMap.RangesErase | lib/cppcms/private/hash_map.h:175-185 | The range update of erase keeps every bucket one contiguous segment. |
| HashMap.EntriesInsert | lib/cppcms/private/hash_map.h:205-229 | After linking, every node still carries its key and mapped value and the new one the new entry. |
| HashMap.EntriesErase | lib/cppcms/private/hash_map.h:171-189 | After unlinking, the remaining nodes carry exactly the other entries. |
| HashMap.EraseTable | lib/cppcms/private/hash_map.h:171-189 | Unlink, range update and release of the node together give the table of the map without that key. |
| HashMap.AllBucketsSwept | lib/cppcms/private/hash_map.h:247-257 | A walk over all entries reaches every non-empty bucket. |
| IntrusiveLists.IntrusiveList.PushBack | lib/cppcms/private/hash_map.h:65-75 | Appends the node; no other data or link outside the list changes. |
| IntrusiveLists.IntrusiveList.Erase | lib/cppcms/private/hash_map.h:86-99 | Removes the node from the sequence; no other data or link outside the list changes. |
| IntrusiveLists.IntrusiveList.InsertAfter | lib/cppcms/private/hash_map.h:101-112 | Inserts the node right behind the given one, also at the end of the list. |
| IntrusiveLists.BetweenChain | lib/cppcms/private/hash_map.h:101-112 | Relinking two neighbours around a node gives a doubly linked list with it inserted there. |
| IntrusiveLists.WithoutChain | lib/cppcms/private/hash_map.h:86-99 | Relinking the neighbours of a node gives a doubly linked list without it. |
| IntrusiveLists.ErasedEnds | lib/cppcms/private/hash_map.h:94-97 | The begin and end pointers kept by erase are the ends of the shortened list. |
| FileBuffer.Run | lib/cppcms/private/http_file_buffer.h:35-42 | Over any run of writes, reads, peeks, steps back, seeks, size queries, spills, flushes and limit changes the buffer returns what a plain pair (bytes written, read position) returns, ends with its contents and position, and is in memory or file mode, with the limit, as the operations demand. |
| FileBuffer.InMemoryExactly | lib/cppcms/private/http_file_buffer.h:265-285 | Without spills and limit changes the contents are in memory exactly while they fit the limit. |
| FileBuffer.InMemoryAllAlong | lib/cppcms/private/http_file_buffer.h:265-285 | With them, exactly when never spilled and never larger than the limit of the moment. |
| FileBuffer.StepIs | lib/cppcms/private/http_file_buffer.h:183-264 | What each operation does to bytes written and read position and returns, spelled out. |
| FileBuffer.ReadBack | lib/cppcms/private/http_file_buffer.h:244-264 | After any run, a seek to the start and reads give back the bytes written, in order, and then end of file. |
| FileBuffer.Perform | lib/cppcms/private/http_file_buffer.h:183-308 | Each operation does to the buffer what it does to the plain pair, with the same result. |
| FileBuffer.CompareRuns | lib/cppcms/private/http_file_buffer.h:133-147 | Two buffers with different limits run the same operations, one of them also with spills, flushes and new limits at any moment: both follow the plain pair, end with the same bytes and read position, and all other operations return the same. |
| FileBuffer.SpillsInvisible | lib/cppcms/private/http_file_buffer.h:133-147 | On the plain pair, dropping all spills, flushes and limit changes from a run changes nothing that can be observed. |
| FileBuffer.TraceBounds | lib/cppcms/private/http_file_buffer.h:35-42 | The read position never passes the bytes written. |
| FileBuffer.FileBuffer.InMemoryFits | lib/cppcms/private/http_file_buffer.h:265-272 | Contents are in memory only while they fit the limit. |
| FileBuffer.FileBuffer.SetLimit | lib/cppcms/private/http_file_buffer.h:69-74 | Changes neither bytes nor position; the limit becomes the new one exactly when that is larger and the contents are in memory. |
| FileBuffer.FileBuffer.Size | lib/cppcms/private/http_file_buffer.h:129-132 | The number of bytes written so far, in either mode. |
| FileBuffer.FileBuffer.ToFile | lib/cppcms/private/http_file_buffer.h:133-147 | Moving to the file keeps bytes and read position and leaves an empty put area. |
| FileBuffer.FileBuffer.WriteBuffer | lib/cppcms/private/http_file_buffer.h:309-327 | The put area is appended to the file and emptied. |
| FileBuffer.FileBuffer.Sync | lib/cppcms/private/http_file_buffer.h:299-308 | Flushing changes neither bytes nor position nor mode. |
| FileBuffer.FileBuffer.Overflow | lib/cppcms/private/http_file_buffer.h:265-298 | A byte written to a full put area is appended, and the buffer leaves memory exactly when the contents then exceed the limit. |
| FileBuffer.FileBuffer.Grow | lib/cppcms/private/http_file_buffer.h:274-285 | Enlarging the memory buffer keeps bytes and position and doubles the room, from 64 and up to the limit. |
| FileBuffer.FileBuffer.Put | lib/cppcms/private/http_file_buffer.h:265-298 | Writing appends the byte, leaves the read position, and leaves memory exactly when the contents then exceed the limit. |
| FileBuffer.FileBuffer.Underflow | lib/cppcms/private/http_file_buffer.h:244-264 | Yields the byte at the read position, or end of file exactly at the end of what was written, moving nothing. |
| FileBuffer.FileBuffer.FillInput | lib/cppcms/private/http_file_buffer.h:251-259 | The get area becomes the next block of everything written so far, unflushed bytes included. |
| FileBuffer.FileBuffer.Get | lib/cppcms/private/http_file_buffer.h:244-264 | Reading yields the byte at the read position and moves past it; at the end it moves nothing. |
| FileBuffer.FileBuffer.Peek | lib/cppcms/private/http_file_buffer.h:244-264 | Peeking yields the byte at the read position and moves nothing. |
| FileBuffer.FileBuffer.SeekRead | lib/cppcms/private/http_file_buffer.h:183-224 | In either mode the read position becomes the target when it lies within the bytes written, else the seek fails and moves nothing. |
| FileBuffer.FileBuffer.SeekMemory | lib/cppcms/private/http_file_buffer.h:190-203 | The same in memory, where negative targets wrap to huge unsigned ones. |
| FileBuffer.FileBuffer.SeekFile | lib/cppcms/private/http_file_buffer.h:204-223 | The same in file mode, where targets past the signed range wrap to negative ones, with the get area discarded. |
| FileBuffer.FileBuffer.SeekWrite | lib/cppcms/private/http_file_buffer.h:185-189 | The write side only reports the size. |
| FileBuffer.FileBuffer.Unget | lib/cppcms/private/http_file_buffer.h:225-243 | Stepping back moves the position from R to exactly R - 1 and yields the byte there, across buffer boundaries, and fails only at 0. |
| FileBuffer.FileBuffer.PbackFail | lib/cppcms/private/http_file_buffer.h:225-243 | Fails, moving nothing, exactly in memory or when the get area begins at the start of the file; otherwise moves one byte back, reading a block before the position again. |
| FileBuffer.FileBuffer.PutBack | lib/cppcms/private/http_file_buffer.h:225-243 | Putting back a byte moves one back exactly when it is the byte before the read position or the get area begins past the start of the file, where another byte is ignored; otherwise it fails and moves nothing. |
| FileBuffer.IgnoredPutBack | lib/cppcms/private/http_file_buffer.h:225-243 | A buffer reaches that state: after writing 1, a spill and a seek to 1, putting back 2 succeeds and returns 1. |
| FormatNumber.Format | lib/cppcms/private/format_number.h:23-56 | For every value the type can hold the output is the canonical decimal text, cut to the room there is and NUL terminated. |
| FormatNumber.FormatLocal | lib/cppcms/private/format_number.h:27-52 | The canonical text and its terminator fit the local buffer, the most negative value included. |
| FormatNumber.DecimalParses | lib/cppcms/private/format_number.h:25-55 | Parsing the text of a value gives the value back. |
| FormatNumber.ParseFormats | lib/cppcms/private/format_number.h:25-55 | Every canonical numeral is the text of the value it parses to. |
| FormatNumber.NextDigit | lib/cppcms/private/format_number.h:38-45 | Truncating remainder and quotient take off the last digit of the absolute value, for either sign. |
| FormatNumber.WriteDigits | lib/cppcms/private/format_number.h:37-46 | The loop leaves the digits of the absolute value, reversed, and nothing before them changes. |
| FormatNumber.WriteDigit | lib/cppcms/private/format_number.h:38-45 | One turn moves one digit from the value to the buffer. |
| FormatNumber.ReverseInPlace | lib/cppcms/private/format_number.h:46-51 | Swapping from both ends reverses exactly the given range. |
| FormatNumber.CopyText | lib/cppcms/private/format_number.h:53-54 | Copies up to the terminator and pads with NULs. |
| FormatNumber.DigitsCanonical | lib/cppcms/private/format_number.h:37-46 | Digit strings have no superfluous zero and parse to their number. |
| FormatNumber.CanonicalDigitsUnique | lib/cppcms/private/format_number.h:37-46 | A digit string without superfluous zeros is the only one for its number. |
| FormatNumber.DigitsLength | lib/cppcms/private/format_number.h:27 | A number below 10^(k+1) has at most k + 1 digits. |
| Text.StrReplace | data/basic_master.cpp:58-66 | The in-place loop ends for every non-empty source and yields leftmost non-overlapping replacement. |
| Text.ReplaceIsJoin | data/basic_master.cpp:58-66 | Replacement keeps the pieces between the leftmost matches and exchanges only the separators. |
| Text.PiecesUnique | data/basic_master.cpp:58-66 | There is only one way of cutting a text at leftmost matches. |
| Text.FindFirst | data/basic_master.cpp:62 | The search yields the first match at or after a position, or none when there is none. |
| Text.ReplaceStep | data/basic_master.cpp:62-65 | A turn of the loop never disturbs text already replaced, even when the replacement contains the source. |
| Text.MysqlLike | data/basic_master.cpp:68-73 | The four passes put one backslash before each backslash, underscore, bar and percent sign and change nothing else. |
| Text.FourPassesEscape | data/basic_master.cpp:68-73 | Four successive replacements equal one pass over the characters: later passes do not touch earlier backslashes. |
| Text.EscapeRoundTrip | data/basic_master.cpp:68-73 | Taking the escaping back gives the text: different texts have different escapings. |
| Text.LikePrefix | data/basic_master.cpp:68-73 | The escaped query followed by a percent sign matches exactly the texts that begin with the query. |
| Text.SearchMatches | apps/blog/summary.cpp:88-92 | The search pattern matches, under LIKE with backslash escape, exactly the texts that contain the query. |
| Pagination.Pager.CalcPages | data/basic_master.h:46-58 | Afterwards the page exists, it is the one asked for exactly when that exists, the pages hold all records and the last one at least one; a page size that makes sense is kept. |
| Pagination.CeilCounts | data/basic_master.h:52 | The rounded-up quotient is the number of pages: one fewer would leave records out, and the last is not empty. |
| Pagination.CalcInRange | data/basic_master.h:46-58 | The clamped page exists and its offset never exceeds the number of records. |
| Pagination.RedirectOnce | apps/blog/summary.cpp:127-133 | A page is kept exactly when it exists, and clamping again changes nothing. |
| BlogLimits.RedirectLands | apps/blog/summary.cpp:117-146 | When a listing redirects to another page, the next request for that page is not redirected or refused and leaves it in the cache, by the count and category name cached in between. |
| Pagination.ConcatPrefix | apps/blog/summary.cpp:127-146 | The rows of the first pages, one page after the other, are a prefix of all rows. |
| Pagination.PagesPartition | apps/blog/summary.cpp:127-146 | The LIMIT/OFFSET slices over all pages are all rows, in order, without gap or overlap. |
| Pagination.MultiPage | data/basic_master.cpp:18-42 | The links form a window of at most ten existing pages that contains the current page and is shorter only at the end, with first and last links exactly when the window does not reach them. |
| LatexFilter.Apply | apps/basic_master.cpp:297-325 | The output is the input when there is no filter or no tag pair; else the text before the first pair, the rendered formula, and the rendering of the rest. |
| LatexFilter.RenderedIs | apps/basic_master.cpp:304-323 | The same equation for the rendering of any text, which determines it. |
| LatexFilter.RenderIs | apps/basic_master.cpp:310-320 | A formula becomes its escaped text exactly when conversion fails, else an image element with the file as source and the escaped formula as alternative text. |
| LatexFilter.HasPairWhen | apps/basic_master.cpp:306 | A pair is a first opening tag followed by the first closing tag. |
| LatexFilter.TagsApart | apps/basic_master.cpp:306-309 | A closing tag found after an opening tag does not overlap it, so no negative length is taken. |
| LatexFilter.PairAt | apps/basic_master.cpp:306-321 | A matched pair splits the text into five parts that make up the text again. |
| LatexFilter.CutSource | apps/basic_master.cpp:304-323 | The plain parts, tags and formulas in order are the input: nothing is lost. |
| LatexFilter.CutUnique | apps/basic_master.cpp:304-323 | There is only one way of cutting a text at first opening and first closing tags. |
| LatexFilter.ScanStep | apps/basic_master.cpp:306-321 | A turn of the scanner takes the next plain part and formula of that cut and advances. |
| LatexFilter.ScanEnd | apps/basic_master.cpp:306 | The loop stops exactly when the rest has no tag pair left. |
| Upload.Server.Post | apps/admin/upload.cpp:89-166 | A chunk post, with its block-wise copying and loops over part files, has exactly the specified effect on parts, target and reply. |
| Upload.Server.ReadBlocks | apps/admin/upload.cpp:95-99 | Reading in blocks until a short read yields the whole file, also when its length is a multiple of the block. |
| Upload.Server.SavePart | apps/admin/upload.cpp:102-109 | Writing under a lock name and renaming replaces exactly that part. |
| Upload.Server.AllPartsExist | apps/admin/upload.cpp:111-119 | Completed exactly when every part file exists. |
| Upload.Server.MergeParts | apps/admin/upload.cpp:121-141 | The target is the parts in index order and exactly those parts are removed. |
| Upload.MergeFires | apps/admin/upload.cpp:101-166 | In any serial order and with repeats, the merge fires exactly at the post that completes the chunks sent since the last merge; until then only the part posted changes; then the parts are gone, success is reported exactly when digest and size match, and the target is the latest contents in index order or removed. |
| Upload.SingleChunk | apps/admin/upload.cpp:89-100 | A file sent in one chunk is verified at every post: success exactly when digest and size match, else the file is removed; part files are not involved. |
| Upload.NoChunks | apps/admin/upload.cpp:111-153 | Announced as having no chunks, it is verified as an empty file at every post, and parts stay. |
| Upload.LatestIs | apps/admin/upload.cpp:101-109 | The latest content of a chunk is that of its last post. |
| Upload.AssembledIs | apps/admin/upload.cpp:124-138 | The assembled file is the latest contents of the chunks in index order. |
| Upload.CoversWhen | apps/admin/upload.cpp:111-119 | All chunks have been sent exactly when each has a post. |
| Upload.FirstMerge | apps/admin/upload.cpp:101-166 | Starting without parts, the first merge happens exactly at the first post after which every chunk has been sent, with the same outcome. |
| Upload.PartsAreLatest | apps/admin/upload.cpp:101-119 | The part files are always the latest contents of the posts since the last merge. |
| Upload.NothingMergedYet | apps/admin/upload.cpp:111-121 | Until every chunk has been sent nothing is merged. |
| Upload.MergedIsAssembled | apps/admin/upload.cpp:124-138 | Merging the part files gives the latest contents posted, in index order. |
| CacheTags.SummaryInjective | apps/blog/summary.cpp:72-75 | Listings of different category, page or query never share a cache key. |
| CacheTags.CatCountInjective | apps/blog/summary.cpp:118-212 | Counts of different category or pattern never share a cache key. |
| CacheTags.TextInjective | apps/blog/summary.cpp:72-80 | No two keys or triggers of the blog, those of the options and of the sidebar frame included, have the same text. |
| CacheTags.TextIs | apps/blog/summary.cpp:72-80 | The texts of the keys and triggers of posts, pages, categories, feeds and listings. |
| BlogTables.CreatePostConsistent | apps/admin/post.cpp:121-165 | Creating a post, published or not, keeps every index row and comment count right. |
| BlogTables.AddsAreNew | apps/admin/post.cpp:79-110 | The rows inserted for ticked categories never repeat a (post, category) pair; those removed exist. |
| BlogTables.EditPostConsistent | apps/admin/post.cpp:180-257 | Editing, publishing or unpublishing with category changes keeps every index row equal to its post. |
| BlogTables.RemovePostConsistent | apps/admin/post.cpp:167-179 | Removing a post leaves no comment or index row of it. |
| BlogTables.RecountConsistent | apps/blog/post.cpp:139-143 | Recounting the one post whose comments changed makes every count right. |
| BlogTables.AddCommentConsistent | apps/blog/post.cpp:131-143 | Adding a comment to an existing post keeps all counts and references right. |
| BlogTables.EraseCommentConsistent | apps/admin/comment.cpp:49-56 | Erasing a comment keeps all counts and references right. |
| BlogTables.EditCommentConsistent | apps/admin/comment.cpp:57-64 | Editing a comment needs no recount. |
| BlogTables.CatsConsistent | apps/admin/categories.cpp:58-106 | Adding, renaming, removing and cascading a category leave no dangling index row. |
| BlogTables.IndexIsFaithful | apps/blog/summary.cpp:135-146 | The category query over the index has the rows, times and orderings of the query over posts, up to ties. |
| BlogTables.MatchesContains | apps/blog/summary.cpp:88-92 | A search finds exactly the posts whose title, abstract or content contains the query. |
| BlogTables.PatternInjective | apps/blog/summary.cpp:88-92 | Different queries have different patterns, so their cached counts are kept apart. |
| BlogTables.UpgradeEstablishes | apps/basic_master.cpp:340-357 | The 2-to-3 upgrade makes the index agree with the posts, given that only its status column was not maintained. |
| BlogCache.RiseKeepsFresh | lib/cppcms/cppcms/cache_interface.h:159-162 | If every row that changed is covered by a raised trigger, every cached object that survives agrees with the new tables. |
| BlogCache.EntryKept | lib/cppcms/cppcms/cache_interface.h:98-131 | The same for one cached object of any kind. |
| BlogCache.ListingKept | apps/blog/summary.cpp:241-254 | Listed posts stay current, in order, matching and in their category while no trigger of the listing is raised. |
| BlogCache.ItemsKept | apps/blog/summary.cpp:241-254 | Listed columns stay current while none of the posts' triggers is raised. |
| BlogCache.RankedKept | apps/blog/summary.cpp:135-146 | The order by publish time stays right while none of the posts' triggers is raised. |
| BlogCache.BelongKept | apps/blog/summary.cpp:135-146 | Posts stay in the category and keep matching the query while neither their triggers nor that of the category is raised. |
| BlogCache.RankedFeedKept | apps/feed/feed.cpp:63-72 | Fed posts stay current and in order while none of their triggers is raised. |
| BlogCache.LinksKept | apps/blog/master.cpp:34-73 | A cached list of static pages stays the open pages while the trigger of the page list is not raised. |
| BlogCache.ChromeKept | views/blog/skins/orangesky.tmpl:80-108 | Copyright line and page list of a cached page stay current while none of its triggers is raised. |
| BlogCache.CommentsKept | apps/blog/post.cpp:206-223 | A cached post view stays current while the trigger of the post is not raised. |
| BlogCache.RiseOneMore | lib/cppcms/cppcms/cache_interface.h:159-162 | Raising triggers one after the other drops exactly the entries carrying any of them. |
| BlogCache.RiseReachesPages | lib/cppcms/cppcms/cache_interface.h:206-217 | Raising a trigger drops a page exactly when it is the page's key or was added while the page was built. |
| BlogCache.RiseReachesFetchers | lib/cppcms/cppcms/cache_interface.h:110-131 | A page that fetched an object is dropped whenever that object is, as the documentation promises, and otherwise only by triggers of its own. |
| BlogCache.RiseReachesStorers | lib/cppcms/cppcms/cache_interface.h:231-240 | A page that stored an object depends on the object's key and triggers, and is dropped by nothing else but its own. |
| BlogCache.NewestUnique | apps/feed/feed.cpp:30-34 | The newest ten comments are determined by the table. |
| BlogServer.CacheInterface.Fetch | lib/cppcms/src/cache_interface.cpp:186-200 | A hit yields the value and adds, one by one, the triggers of the object to the page and to every active recorder; a miss changes nothing. |
| BlogServer.CacheInterface.AddTriggers | lib/cppcms/src/cache_interface.cpp:167-173 | Adding triggers in any order leaves the page and every active recorder with exactly these more. |
| BlogInvariant.ReachableListing | apps/blog/summary.cpp:72-290 | In every state reachable by serial requests a cached listing is of an existing category and shows only existing, published posts that match the query and are in the category, none twice, the latest first, with the title, abstract, content flag and publish time of the row and the number of comments there are. |
| BlogInvariant.ReachableFeed | apps/feed/feed.cpp:47-122 | The same for cached feeds of posts, the membership in the category under canonical ids. |
| BlogInvariant.ReachableFresh | apps/admin/post.cpp:154-226 | In every such state the comments feed is the newest ten; post pages (canonical id) match the post and all its comments; static pages, under any id, match an open page; the page list and copyright line around every cached page are current; the cached maximum is right; category names are right unless empty. |
| BlogInvariant.RunOk | apps/admin/post.cpp:121-257 | Any sequence of serial requests keeps the tables consistent and the whole cache in agreement with them. |
| BlogInvariant.StepOk | apps/admin/post.cpp:121-257 | Any single request does. |
| BlogInvariant.EmptyOk | apps/admin/post.cpp:121-165 | A consistent database with an empty cache, such as a new blog, is such a state. |
| BlogEffects.CreateEffect | apps/admin/post.cpp:127-158 | A new post is stored as the form has it, with no comments, and is in exactly the categories ticked; exactly the listings of these, and of all posts if published, are dropped. |
| BlogEffects.EditEffect | apps/admin/post.cpp:180-253 | An edited post has the form's title, abstract and content; its status changes exactly on demand, its publish time exactly when it becomes published, its count not at all; it enters and leaves exactly the ticked categories, and its index rows agree with it. |
| BlogEffects.EditDrops | apps/admin/post.cpp:220-247 | An edit drops exactly what depends on the post, on a category it enters, or, when its status changes, on the list of all posts or a category it was in. |
| BlogEffects.RemoveEffect | apps/admin/post.cpp:167-179 | A removed post goes with exactly its comments and index rows. |
| BlogEffects.NothingSaved | apps/admin/post.cpp:66-125 | Removing a post never saved, or saving one that is gone, does nothing. |
| BlogEffects.PostbackEffect | apps/blog/post.cpp:105-150 | A comment sent to an open post is stored with all its fields and counted once; else nothing happens. |
| BlogEffects.EraseEffect | apps/admin/comment.cpp:49-68 | An erased comment is no longer stored, and the count is one less. |
| BlogEffects.EditCommentEffect | apps/admin/comment.cpp:57-68 | An edited comment keeps post and time; a missing one changes nothing. |
| BlogEffects.NameEffects | apps/admin/categories.cpp:59-64 | A new or renamed category changes exactly its name and drops exactly what depends on it. |
| BlogEffects.RemoveCategoryEffect | apps/admin/categories.cpp:70-96 | A category in use goes, with exactly its index rows, only on a cascade; an unused one always. |
| BlogEffects.SavePageEffect | apps/admin/page.cpp:80-136 | A static page is stored as the form has it and is open exactly as demanded; nothing is dropped exactly when it is closed before and after. |
| BlogEffects.TextEffects | apps/config.cpp:49-62 | The configuration form changes title, description and contact and nothing else; the options form all four texts. |
| BlogEffects.SaveOptionsEffect | apps/admin/options.cpp:28-42 | Saving the options drops exactly what depends on them and caches the new ones. |
| BlogEffects.ClearEffects | apps/main.cpp:82-85 | A new session empties the cache; clearing it in the administration leaves only the options then shown. |
| BlogEffects.UpgradeEffect | apps/basic_master.cpp:340-357 | The upgrade changes nothing but the status in index rows of existing posts. |
| BlogEffects.ViewPostEffect | apps/blog/post.cpp:171-223 | An open post is shown with the row's fields and its comments and cached; a closed or missing one changes nothing; nothing cached is dropped. |
| BlogEffects.ViewPageEffect | apps/blog/page.cpp:30-64 | The same for a static page. |
| BlogEffects.ViewCommentsEffect | apps/feed/feed.cpp:22-46 | The newest comments are cached under the key that comment changes raise, and nothing cached is dropped. |
| BlogEffects.ViewRssEffect | apps/feed/feed.cpp:47-77 | The feed shows the first ten rows of the ranking. |
| BlogEffects.ViewRssCategoryEffect | apps/feed/feed.cpp:78-122 | The same for an existing category; for a missing one nothing happens. |
| BlogEffects.RankingIs | apps/blog/summary.cpp:135-236 | The rows of a listing are exactly the published posts that contain the query, in the category if there is one, the latest first. |
| BlogEffects.FreshShows | apps/blog/summary.cpp:135-254 | A page of a listing that is built is cached and shows rows 10 * page, 10 * page + 1, ... of the ranking, at most ten. |
| BlogEffects.PagesShowAll | apps/blog/summary.cpp:127-146 | The pages of a listing of an unchanged blog together show every row of the ranking once, in order. |
| BlogEffects.FreshWhen | apps/blog/summary.cpp:117-133 | A page not cached is built exactly when it exists, judged by the number of rows unless a number is cached; else the visitor is sent to the nearest page that does. |
| BlogEffects.RefusedWhen | apps/blog/summary.cpp:56-115 | Without cached mistakes a listing is refused exactly when its category does not exist. |
| BlogEffects.ViewSummaryGrows | apps/blog/summary.cpp:51-291 | A request for a listing changes no table, drops and changes nothing cached, and adds at most the page, its count, name and surroundings and the largest category id. |
| BlogEffects.CommentFields | apps/blog/post.cpp:206-223 | Shown comments carry the author, address, time and content of their rows. |
| BlogEffects.PageDependsOn | apps/blog/master.cpp:34-73 | A cached page of a post or static page depends on its own key, the lists of pages and categories, every category, the options and the sidebar, and on nothing else. |
| BlogInvariant.SavePostOk | apps/admin/post.cpp:121-257 | The triggers raised by creating, editing, publishing, unpublishing and removing a post are enough. |
| BlogInvariant.RemovePostCovered | apps/admin/post.cpp:167-176 | The triggers of a removal cover the post, all its comments and its index rows. |
| BlogInvariant.PostsCovered | apps/admin/post.cpp:220-254 | An edit is covered by the trigger of its post. |
| BlogInvariant.PostbackOk | apps/blog/post.cpp:96-157 | Posting a comment keeps tables consistent and cache in agreement. |
| BlogInvariant.CommentsCovered | apps/admin/comment.cpp:65-68 | The triggers of a comment change cover the post, its count and the comments feed. |
| BlogInvariant.SaveCommentOk | apps/admin/comment.cpp:29-75 | Editing or erasing a comment keeps tables consistent and cache in agreement. |
| BlogInvariant.CategoriesOk | apps/admin/categories.cpp:58-106 | Adding, renaming, removing and cascading a category keep tables consistent and cache in agreement. |
| BlogInvariant.CatsCovered | apps/admin/categories.cpp:60-106 | The triggers of a category change cover the categories changed. |
| BlogInvariant.SavePageOk | apps/admin/page.cpp:77-147 | Creating, editing, toggling or removing a static page keeps the cache in agreement, although closed pages raise nothing. |
| BlogInvariant.PagesCovered | apps/admin/page.cpp:110-136 | The triggers of a page change cover the page and the list of open pages. |
| BlogInvariant.LoadSidebarOk | apps/blog/master.cpp:34-73 | The sidebar used is the current list of open pages, and whether it was cached or not the page being built depends on the same triggers. |
| BlogInvariant.LoadInfoOk | apps/basic_master.cpp:398-448 | The copyright line used is the current one, and the page being built depends on the trigger of the texts. |
| BlogInvariant.ConfigureOk | apps/config.cpp:41-66 | A post of the configuration form, which raises nothing, leaves tables consistent and all but title, description and contact in agreement. |
| BlogInvariant.EditOnlyDrops | apps/admin/post.cpp:121-257 | No change of posts, comments, categories or static pages stores anything in the cache. |
| BlogTexts.TextsStayRight | apps/config.cpp:41-66 | While title, description, contact and copyright line shown by cached pages are current, a request outdates some exactly when it is a post of the configuration form that changes them while something that shows them is cached. |
| BlogTexts.TextsRightAfter | apps/basic_master.cpp:398-448 | So they are current after every run in which each such post is harmless. |
| BlogTexts.TextsHealed | apps/admin/options.cpp:24-42 | Saving the options, clearing the cache and a new session make the cached texts current, whatever they were. |
| BlogTexts.ConfigureOutdates | apps/config.cpp:41-66 | A page of the administration followed by a post of the configuration form with another title leaves old options in the cache. |
| BlogTexts.TextsGuarded | apps/basic_master.cpp:398-448 | Everything cached that shows the texts depends on their trigger. |
| BlogTexts.SurroundCurrent | views/blog/skins/orangesky.tmpl:80-108 | Pages are built with current texts while the cached ones are. |
| BlogInvariant.SurroundOk | views/blog/skins/orangesky.tmpl:80-108 | The page list and copyright line that the skin puts around a page are current, and the page depends on the same triggers whichever of options, sidebar frame and sidebar data were cached. |
| BlogInvariant.SaveOptionsOk | apps/admin/options.cpp:24-42 | Changing the blog's texts keeps the cache in agreement. |
| BlogInvariant.ViewCommentsOk | apps/feed/feed.cpp:22-46 | Caching the comments feed keeps the cache in agreement. |
| BlogInvariant.RowsShown | apps/blog/summary.cpp:135-146 | Whatever the query, the rows shown are existing, published posts that match it, in the category, the latest first. |
| BlogInvariant.ViewPostOk | apps/blog/post.cpp:171-236 | Caching a post page keeps the cache in agreement. |
| BlogInvariant.ViewPageOk | apps/blog/page.cpp:30-64 | Caching a static page keeps the cache in agreement. |
| BlogInvariant.ViewRssOk | apps/feed/feed.cpp:47-77 | Caching the posts feed keeps the cache in agreement. |
| BlogInvariant.ViewRssCategoryOk | apps/feed/feed.cpp:78-122 | Caching a category feed keeps the cache in agreement. |
| BlogInvariant.CategoryNameOk | apps/blog/summary.cpp:96-110 | A category name that is not empty is current. |
| BlogInvariant.SummaryBuiltOk | apps/blog/summary.cpp:117-290 | Caching a listing keeps the cache in agreement. |
| BlogInvariant.ViewSummaryOk | apps/blog/summary.cpp:51-291 | A listing request, with its frames, counts, refusals and redirects, keeps the cache in agreement. |
| BlogState.MaxText | apps/blog/summary.cpp:64 | The text of the largest category id, empty when there is no category. |
| BlogLimits.PostPageSurvives | apps/blog/post.cpp:171-181 | In every reachable state a cached post page is dropped exactly by its own key and the triggers of what surrounds it; its key is the trigger of the post exactly for canonical ids. |
| BlogLimits.RemovedPostStays | apps/admin/post.cpp:167-179 | A removed post is still served from the cache exactly under non-canonical ids. |
| BlogLimits.CommentedPostStays | apps/blog/post.cpp:140-150 | After a comment was written, edited or erased the page of its post is still in the cache exactly under non-canonical ids. |
| BlogLimits.CommentOutdates | apps/blog/post.cpp:206-223 | A post page that was right is not once the post has another comment. |
| BlogLimits.EraseOutdates | apps/admin/comment.cpp:49-56 | Nor once one of its comments is erased. |
| BlogLimits.EditCommentOutdates | apps/admin/comment.cpp:57-64 | Editing one of its comments leaves the page right exactly when author, address and content stay. |
| BlogLimits.EditedPostStays | apps/admin/post.cpp:180-257 | After an edit the page of the post is still in the cache exactly when the id is not canonical, no category was added and no change of status met a category of the post. |
| BlogLimits.EditLeavesSidebar | apps/admin/post.cpp:220-254 | An edit raises a trigger that every page with a sidebar carries exactly when it adds a category or changes the status of a post in one. |
| BlogLimits.EditOutdates | apps/admin/post.cpp:180-219 | A post page that was right stays right exactly when the edit changes nothing in the row. |
| BlogLimits.RemovedFeedStays | apps/admin/categories.cpp:70-96 | The feed of a removed category is still served from the cache exactly under non-canonical ids. |
| BlogLimits.CanonicalWhen | apps/blog/post.cpp:171-185 | An id is canonical exactly when it has no superfluous leading zero. |
| BlogLimits.IdCanonical | apps/blog/post.cpp:145-148 | The text put in a trigger is the canonical id of the number. |
| BlogLimits.EmptyNameStays | apps/blog/summary.cpp:96-115 | A name looked up before the category exists stays cached as empty after its creation, so its listing is still refused. |
| BlogLimits.NamesStayRight | apps/admin/categories.cpp:59-64 | While all cached category names are right, a request makes one wrong exactly when it creates a category whose name is in the cache. |
| BlogLimits.NamesRightAfter | apps/blog/summary.cpp:96-110 | So they are right after every run that creates no such category. |
| BlogLimits.RankingExists | apps/blog/summary.cpp:135-146 | Every listing query has an answer, so the state machine is never stuck. |
| BlogLimits.OpenListExists | apps/blog/master.cpp:42-53 | The query for open pages has an answer. |
| BlogLimits.CommentListExists | apps/blog/post.cpp:206-210 | The query for the comments of a post has an answer. |
| BlogLimits.NewestExists | apps/feed/feed.cpp:30-34 | The query for the newest comments has an answer. |
| BlogServer.Server.Serve | apps/admin/post.cpp:121-257 | The running handlers take exactly the steps of the state machine over any sequence of requests, so tables and cache stay right. |
| BlogServer.Server.InsertPost | apps/admin/post.cpp:127-159 | One row for the post and one for each ticked category, and exactly the triggers specified. |
| BlogServer.Server.AddToCategories | apps/admin/post.cpp:228-241 | The loop inserts a row and raises a trigger for exactly the ticked categories on offer. |
| BlogServer.Server.UpdatePost | apps/admin/post.cpp:184-257 | The transaction has exactly the specified effect on posts, index and cache. |
| BlogServer.Server.UpdateRows | apps/admin/post.cpp:187-219 | The UPDATE statements change exactly the post and its index rows, and leave the publish time and status that new rows get. |
| BlogServer.Server.LeaveCategories | apps/admin/post.cpp:242-253 | The loop deletes exactly the ticked rows and raises the trigger of every category of the post when its status changes. |
| BlogServer.Server.Sidebar | apps/blog/master.cpp:34-73 | The sidebar comes from the cache or the tables, and the recorder around it holds exactly the triggers it added, itself recorded or fetched. |
| BlogServer.Server.MakeChrome | views/blog/skins/orangesky.tmpl:80-108 | Nested recorders around frame and data give the frame exactly the triggers specified. |
| BlogServer.Server.AddCategoryTriggers | apps/blog/master.cpp:58-67 | The loop adds a trigger for exactly every category. |
| BlogServer.Server.FeedRows | apps/feed/feed.cpp:63-72 | The loop makes an item and a trigger for exactly the rows given. |
| BlogServer.Server.ListingRows | apps/blog/summary.cpp:240-254 | The loop makes an item and a trigger for exactly the rows given. |
| BlogServer.Server.ViewSummary | apps/blog/summary.cpp:51-291 | The whole listing handler has exactly the specified effect on the cache, and refuses, redirects, serves from the cache or builds the page exactly when specified. |
| BlogServer.Server.BuildPage | apps/blog/summary.cpp:127-290 | A page out of range is redirected and not cached; otherwise rows, sidebar and triggers make up the cached page. |
| BlogServer.Server.Upgrade | apps/basic_master.cpp:359-386 | Succeeds exactly from version 2 or 3; from 2 it recomputes the index status, otherwise the tables stay. |

## Left out

- BuddyAllocator.Allocator.Malloc: requests outside 1 .. 2^64 - 32 are excluded, because the code corrupts its lists or wraps on them; `BuddyAllocator.PaddedSizeFits` states the exact condition.
- BuddyAllocator.Allocator.Free: the pointer must be one that `malloc` returned and that is still in use, as the source asserts.
- HashMap.BasicMap.Rehash: rehashing a map with entries to no buckets is excluded, since the code then divides by zero.
- HashMap.BasicMap.Insert: where the allocator puts a node is a parameter, and allocation does not fail.
- FileBuffer.FileBuffer.SeekRead: streams of 2^63 bytes are excluded, which the size the code keeps cannot count.
- BlogLimits.EmptyNameStays: shows that the fault happens; the exact condition is `BlogLimits.NamesStayRight`.
- BlogInvariant.ReachableFresh: author names, category names and per-category post counts inside cached pages and cached record counts are not claimed to be current, because several handlers do not invalidate them.
- BlogInvariant.ReachableListing: that a cached page of a listing holds all the posts that would be on it now is not claimed, for the same reason.
- Upload.MergeFires: all posts of the file announce the same number of chunks, digest and size.
- Allocator: neighbouring header fields are not modelled byte by byte; a client write to its own block may change the `prev` field of its page header, which is the field that overlaps it. `max_free_chunk` and the totals of free memory are not modelled.
- Hash map: nodes are records in a store indexed by address instead of heap objects. Exceptions of copy constructors, `push_front`, `insert_before`, `swap` and the string hash are not modelled; the hash is any function of the key, and keys are compared by equality.
- Upload buffer: `close`, file names, failing file operations and a put of end-of-file are not modelled; the pointer bumps of the standard stream class do not overflow. Runs step back with `sungetc`; `sputbackc` is a method beside them, since what it does with another byte depends on where the get area begins.
- Number formatting: the floating-point branch.
- Page arithmetic: the quotient is a real number instead of a double; the text and addresses of page links are not modelled.
- LIKE: collation and letter case; the engine's default backslash escape is assumed, as the code does.
- `[tex]` scanner: running LaTeX and HTML escaping are given functions.
- Chunked upload: validation of names, directory creation, the existence query, image processing, file errors and concurrent posts; the message digest is a given function.
- Blog: interleaved requests, among them triggers raised before a commit. Each request is one atomic step.
- Blog: the database engine. Tables are maps by primary key; `post2cat` is keyed by (post, category), and `BlogTables.AddsAreNew` shows that insertions never clash.
- Blog: a page is stored under one of two keys, with the prefix `_Z:` or `_U:` for compressed or plain output (lib/cppcms/src/cache_interface.cpp); both carry the same triggers, and the model keeps one.
- Blog: users. Viewing a post joins its author, so that the page of a post whose author was deleted is refused (apps/blog/post.cpp:187-195), where the model shows it.
- Blog: templates apart from the frame of the sidebar, form validation, captcha, sessions and cache limits and timeouts; error pages store nothing. Pages rendered after a post, preview or admin form contribute only what surrounds them.
- Blog: the configuration form also adds a user, and changes nothing when the name is taken; a blog not configured yet refuses all pages.
- Blog: numbers in URLs are unbounded; overflow of `atoi` is not modelled.
- Upgrade: the version is a number, and the statement that records the new version succeeds.
