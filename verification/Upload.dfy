/** The chunked upload protocol of apps/admin/upload.cpp for the posts of one file: save the
    part, test whether all parts are there, merge them in order, verify, clean up.  The message
    digest is a given function. */
module Upload {
  import Buffer = FileBuffer

  type Bytes = seq<Buffer.byte>

  const BLOCK: nat := 2048

  datatype Option<+T> = None | Some(value: T)

  datatype Reply = BlockSaved | UploadCompleted | HashMismatch

  /** What the client announced about the whole file. */
  datatype Claim = Claim(md5: string, size: nat)

  datatype Disk = Disk(parts: map<nat, Bytes>, target: Option<Bytes>)

  predicate Complete(parts: map<nat, Bytes>, n: nat) {
    forall i: nat :: i < n ==> i in parts
  }

  /** The parts 0 .. n concatenated in index order. */
  function Merged(parts: map<nat, Bytes>, n: nat): Bytes
    requires Complete(parts, n)
  {
    if n == 0 then [] else Merged(parts, n - 1) + parts[n - 1]
  }

  function Without(parts: map<nat, Bytes>, n: nat): map<nat, Bytes> {
    map i | i in parts && n <= i :: parts[i]
  }

  predicate Genuine(digest: Bytes -> string, claim: Claim, all: Bytes) {
    digest(all) == claim.md5 && |all| == claim.size
  }

  /** The outcome of verifying an assembled file. */
  function Verified(digest: Bytes -> string, claim: Claim, parts: map<nat, Bytes>, all: Bytes): (Disk, Reply) {
    if Genuine(digest, claim, all) then (Disk(parts, Some(all)), UploadCompleted)
    else (Disk(parts, None), HashMismatch)
  }

  /** One post of chunk `chunk` out of `chunks`. */
  function Posted(digest: Bytes -> string, claim: Claim, d: Disk, chunk: nat, chunks: nat, content: Bytes)
    : (Disk, Reply)
  {
    if chunks == 1 then Verified(digest, claim, d.parts, content)
    else
      var parts := d.parts[chunk := content];
      if Complete(parts, chunks) then Verified(digest, claim, Without(parts, chunks), Merged(parts, chunks))
      else (Disk(parts, d.target), BlockSaved)
  }

  class Server {
    const digest: Bytes -> string
    var parts: map<nat, Bytes>
    var locks: map<nat, Bytes>
    var target: Option<Bytes>

    ghost function Abs(): Disk
      reads this
    {
      Disk(parts, target)
    }

    constructor (digest: Bytes -> string)
      ensures this.digest == digest && Abs() == Disk(map[], None)
    {
      this.digest := digest;
      parts, locks, target := map[], map[], None;
    }

    /** Read a file block by block until a short read signals its end. */
    method ReadBlocks(source: Bytes, prefix: Bytes) returns (out: Bytes)
      ensures out == prefix + source
    {
      out := prefix;
      var pos := 0;
      var eof := false;
      while !eof
        invariant 0 <= pos <= |source| && out == prefix + source[..pos]
        invariant eof ==> pos == |source|
        decreases !eof, |source| - pos
      {
        var n := if |source| - pos < BLOCK then |source| - pos else BLOCK;
        eof := n < BLOCK;
        out := out + source[pos..pos + n];
        assert source[..pos] + source[pos..pos + n] == source[..pos + n];
        pos := pos + n;
      }
    }

    method SavePart(chunk: nat, content: Bytes)
      modifies this`parts, this`locks
      ensures parts == old(parts)[chunk := content]
    {
      locks := locks[chunk := content];
      parts := parts[chunk := locks[chunk]];
      locks := locks - {chunk};
    }

    method AllPartsExist(chunks: nat) returns (completed: bool)
      ensures completed <==> Complete(parts, chunks)
    {
      completed := true;
      var i: nat := 0;
      while i < chunks
        invariant i <= chunks && completed && Complete(parts, i)
      {
        if i !in parts {
          return false;
        }
        i := i + 1;
      }
    }

    /** Append every part to the target, removing it once copied. */
    method MergeParts(chunks: nat) returns (digested: Bytes)
      requires Complete(parts, chunks)
      modifies this`parts, this`target
      ensures digested == Merged(old(parts), chunks) && target == Some(digested)
      ensures parts == Without(old(parts), chunks)
    {
      digested := [];
      target := Some([]);
      var i: nat := 0;
      while i < chunks
        invariant i <= chunks && parts == Without(old(parts), i)
        invariant digested == Merged(old(parts), i) && target == Some(digested)
      {
        digested := ReadBlocks(parts[i], digested);
        target := Some(digested);
        parts := parts - {i};
        i := i + 1;
      }
    }

    method Post(chunk: nat, chunks: nat, content: Bytes, claim: Claim) returns (reply: Reply)
      modifies this
      ensures (Abs(), reply) == Posted(digest, claim, old(Abs()), chunk, chunks, content)
    {
      var digested: Bytes := [];
      if chunks == 1 {
        target := Some(content);
        digested := ReadBlocks(content, []);
        assert digested == content;
      } else {
        SavePart(chunk, content);
        var completed := AllPartsExist(chunks);
        if !completed {
          return BlockSaved;
        }
        digested := MergeParts(chunks);
      }
      if digest(digested) != claim.md5 || |target.value| != claim.size {
        target := None;
        return HashMismatch;
      }
      reply := UploadCompleted;
    }
  }

  // ----- whole runs

  datatype Part = Part(chunk: nat, content: Bytes)

  /** The disk after a sequence of posts and the reply to the last one. */
  function Run(digest: Bytes -> string, claim: Claim, n: nat, h: seq<Part>): (Disk, Reply) {
    if h == [] then (Disk(map[], None), BlockSaved)
    else
      var last := h[|h| - 1];
      Posted(digest, claim, Run(digest, claim, n, h[..|h| - 1]).0, last.chunk, n, last.content)
  }

  predicate Sent(h: seq<Part>, i: nat) {
    exists k :: 0 <= k < |h| && h[k].chunk == i
  }

  /** Every chunk has been posted at least once. */
  ghost predicate Covers(h: seq<Part>, n: nat) {
    forall i: nat :: i < n ==> Sent(h, i)
  }

  /** The content most recently posted for chunk `i`. */
  function Latest(h: seq<Part>, i: nat): Bytes
    requires Sent(h, i)
    decreases |h|
  {
    var last := h[|h| - 1];
    if last.chunk == i then last.content
    else
      assert Sent(h[..|h| - 1], i) by { var k :| 0 <= k < |h| && h[k].chunk == i; assert h[..|h| - 1][k].chunk == i; }
      Latest(h[..|h| - 1], i)
  }

  ghost function Assembled(h: seq<Part>, n: nat): Bytes
    requires Covers(h, n)
  {
    if n == 0 then [] else Assembled(h, n - 1) + Latest(h, n - 1)
  }

  /** Every chunk has a post, or some chunk has none. */
  lemma CoversWhen(h: seq<Part>, n: nat, i: nat) returns (k: nat, missing: nat)
    requires i < n
    ensures Covers(h, n) ==> k < |h| && h[k].chunk == i
    ensures !Covers(h, n) ==> missing < n && forall j :: 0 <= j < |h| ==> h[j].chunk != missing
  {
    k, missing := 0, 0;
    if Covers(h, n) {
      assert Sent(h, i);
      k :| k < |h| && h[k].chunk == i;
    } else {
      missing :| missing < n && !Sent(h, missing);
    }
  }

  lemma {:induction false} LatestIs(h: seq<Part>, i: nat) returns (k: nat)
    requires Sent(h, i)
    ensures k < |h| && h[k].chunk == i && h[k].content == Latest(h, i)
    ensures forall j :: k < j < |h| ==> h[j].chunk != i
    decreases |h|
  {
    k := |h| - 1;
    if h[k].chunk != i {
      assert Sent(h[..k], i) by { var j :| 0 <= j < |h| && h[j].chunk == i; assert h[..k][j].chunk == i; }
      k := LatestIs(h[..k], i);
    }
  }

  /** The assembled file ends with the latest content of its last chunk, before which come the
      earlier chunks. */
  lemma AssembledIs(h: seq<Part>, n: nat)
    requires Covers(h, n)
    ensures n == 0 ==> Assembled(h, n) == []
    ensures n > 0 ==> Covers(h, n - 1) && Sent(h, n - 1) && Assembled(h, n) == Assembled(h, n - 1) + Latest(h, n - 1)
  {
  }

  /** The posts since the last time every chunk had been sent. */
  ghost function Pending(h: seq<Part>, n: nat): seq<Part> {
    if h == [] then []
    else
      var s := Pending(h[..|h| - 1], n) + [h[|h| - 1]];
      if Covers(s, n) then [] else s
  }

  /** The part files are the latest contents of the pending posts. */
  ghost predicate Matches(parts: map<nat, Bytes>, s: seq<Part>, n: nat) {
    forall i: nat :: i < n ==> (i in parts <==> Sent(s, i)) && (i in parts ==> parts[i] == Latest(s, i))
  }

  lemma SentSnoc(s: seq<Part>, p: Part, i: nat)
    ensures Sent(s + [p], i) <==> Sent(s, i) || p.chunk == i
    ensures Sent(s + [p], i) ==> Latest(s + [p], i) == if p.chunk == i then p.content else Latest(s, i)
  {
    var t := s + [p];
    assert t[..|t| - 1] == s && t[|s|] == p;
    if Sent(s, i) {
      var k :| 0 <= k < |s| && s[k].chunk == i;
      assert t[k].chunk == i;
    }
  }

  lemma MatchesSnoc(parts: map<nat, Bytes>, s: seq<Part>, p: Part, n: nat)
    requires Matches(parts, s, n)
    ensures Matches(parts[p.chunk := p.content], s + [p], n)
    ensures Complete(parts[p.chunk := p.content], n) <==> Covers(s + [p], n)
  {
    forall i: nat | i < n
      ensures var q := parts[p.chunk := p.content];
              (i in q <==> Sent(s + [p], i)) && (i in q ==> q[i] == Latest(s + [p], i))
    {
      SentSnoc(s, p, i);
    }
  }

  lemma {:induction false} MergedIsAssembled(parts: map<nat, Bytes>, s: seq<Part>, n: nat, m: nat)
    requires m <= n && Matches(parts, s, n) && Complete(parts, n) && Covers(s, n)
    ensures Merged(parts, m) == Assembled(s, m)
  {
    if m > 0 {
      MergedIsAssembled(parts, s, n, m - 1);
    }
  }

  /** In any serial order and with repeats: the part files are always the latest contents of the
      posts since the last merge, and the merge fires exactly when those posts cover all chunks. */
  lemma {:induction false} PartsAreLatest(digest: Bytes -> string, claim: Claim, n: nat, h: seq<Part>)
    requires n >= 2
    ensures Matches(Run(digest, claim, n, h).0.parts, Pending(h, n), n)
  {
    if h != [] {
      var before, last := h[..|h| - 1], h[|h| - 1];
      PartsAreLatest(digest, claim, n, before);
      MatchesSnoc(Run(digest, claim, n, before).0.parts, Pending(before, n), last, n);
    }
  }

  lemma MergeFires(digest: Bytes -> string, claim: Claim, n: nat, h: seq<Part>)
    requires n >= 2 && h != []
    ensures var s := Pending(h[..|h| - 1], n) + [h[|h| - 1]];
            var (d0, _) := Run(digest, claim, n, h[..|h| - 1]);
            var (d, reply) := Run(digest, claim, n, h);
            && (reply == BlockSaved <==> !Covers(s, n))
            && (!Covers(s, n) ==> d == d0.(parts := d0.parts[h[|h| - 1].chunk := h[|h| - 1].content]))
            && (forall i: nat :: n <= i ==> (i in d.parts <==> i in d0.parts || i == h[|h| - 1].chunk))
            && (Covers(s, n) ==>
                  && (forall i: nat :: i < n ==> i !in d.parts)
                  && (reply == UploadCompleted <==>
                        digest(Assembled(s, n)) == claim.md5 && |Assembled(s, n)| == claim.size)
                  && d.target == (if reply == UploadCompleted then Some(Assembled(s, n)) else None))
  {
    var before, last := h[..|h| - 1], h[|h| - 1];
    PartsAreLatest(digest, claim, n, before);
    var parts := Run(digest, claim, n, before).0.parts;
    var s := Pending(before, n) + [last];
    MatchesSnoc(parts, Pending(before, n), last, n);
    if Covers(s, n) {
      MergedIsAssembled(parts[last.chunk := last.content], s, n, n);
    }
  }

  /** A file sent in one chunk is verified at every post, and no part file is involved. */
  lemma {:induction false} SingleChunk(digest: Bytes -> string, claim: Claim, h: seq<Part>)
    requires h != []
    ensures var (d, reply) := Run(digest, claim, 1, h);
            var content := h[|h| - 1].content;
            var ok := digest(content) == claim.md5 && |content| == claim.size;
            && reply == (if ok then UploadCompleted else HashMismatch)
            && d == Disk(map[], if ok then Some(content) else None)
  {
    if |h| > 1 {
      SingleChunk(digest, claim, h[..|h| - 1]);
    }
  }

  /** A file announced as having no chunks is an empty file at every post, and parts are never
      removed. */
  lemma NoChunks(digest: Bytes -> string, claim: Claim, h: seq<Part>)
    requires h != []
    ensures var (d0, _) := Run(digest, claim, 0, h[..|h| - 1]);
            var (d, reply) := Run(digest, claim, 0, h);
            var ok := digest([]) == claim.md5 && claim.size == 0;
            && reply == (if ok then UploadCompleted else HashMismatch)
            && d == Disk(d0.parts[h[|h| - 1].chunk := h[|h| - 1].content], if ok then Some([]) else None)
  {
    var parts := Run(digest, claim, 0, h[..|h| - 1]).0.parts[h[|h| - 1].chunk := h[|h| - 1].content];
    assert Without(parts, 0) == parts;
  }

  lemma {:induction false} NothingMergedYet(h: seq<Part>, n: nat)
    requires n >= 1 && !Covers(h, n)
    ensures Pending(h, n) == h
  {
    if h != [] {
      var before, last := h[..|h| - 1], h[|h| - 1];
      assert h == before + [last];
      if Covers(before, n) {
        forall i: nat | i < n
          ensures Sent(h, i)
        {
          SentSnoc(before, last, i);
        }
      }
      NothingMergedYet(before, n);
    }
  }

  /** The first merge happens at the first post after which every chunk has been sent, and it
      yields the latest contents in index order. */
  lemma FirstMerge(digest: Bytes -> string, claim: Claim, n: nat, h: seq<Part>)
    requires n >= 2 && h != [] && !Covers(h[..|h| - 1], n)
    ensures var (d, reply) := Run(digest, claim, n, h);
            && (reply == BlockSaved <==> !Covers(h, n))
            && (Covers(h, n) ==>
                  && (forall i: nat :: i < n ==> i !in d.parts)
                  && (reply == UploadCompleted <==>
                        digest(Assembled(h, n)) == claim.md5 && |Assembled(h, n)| == claim.size)
                  && d.target == (if reply == UploadCompleted then Some(Assembled(h, n)) else None))
  {
    NothingMergedYet(h[..|h| - 1], n);
    MergeFires(digest, claim, n, h);
    assert h == h[..|h| - 1] + [h[|h| - 1]];
  }
}
