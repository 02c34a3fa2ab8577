/** The upload buffer of lib/cppcms/private/http_file_buffer.h: a stream that starts in
    memory and moves to a file when it grows past a limit, or on demand.  It refines a pair of
    the bytes written and an independent read position.

    The FILE is a byte sequence whose operations succeed.  Buffer pointers are offsets from the
    start of their vector; the put area lies in `data` or `output` and the get area in `data`
    or `input`, in memory and file mode respectively. */
module FileBuffer {

  newtype byte = b: int | 0 <= b < 0x100

  const BUFFER_SIZE: nat := 1024
  const EOF: int := -1
  const SIZE_RANGE: int := 0x1_0000_0000_0000_0000
  const OFFSET_LIMIT: int := 0x8000_0000_0000_0000

  /** The 64-bit signed value of a sum. */
  function Signed(x: int): int
    requires -OFFSET_LIMIT <= x < SIZE_RANGE
  {
    if x < OFFSET_LIMIT then x else x - SIZE_RANGE
  }

  datatype Direction = Beg | Cur | End

  /** What a client sees: the bytes written so far and the read position. */
  datatype Stream = Stream(written: seq<byte>, pos: nat) {
    ghost predicate Valid() {
      pos <= |written|
    }

    function Base(way: Direction): nat {
      match way case Beg => 0 case Cur => pos case End => |written|
    }

    /** The byte at the read position, or end of file. */
    function Next(): int {
      if pos < |written| then written[pos] as int else EOF
    }
  }

  class FileBuffer {
    var inMemory: bool
    var limit: nat
    var isOpen: bool
    var file: seq<byte>
    var fileSize: nat
    var readOffset: nat
    var data: seq<byte>
    var output: seq<byte>
    var input: seq<byte>
    var pptr: nat
    var epptr: nat
    var gptr: nat
    var egptr: nat

    ghost predicate Valid()
      reads this
    {
      && pptr <= epptr && gptr <= egptr
      && if inMemory then
           && !isOpen && file == [] && fileSize == 0 && readOffset == 0
           && epptr == |data| <= limit && egptr <= pptr
         else
           && isOpen && fileSize == |file|
           && epptr == |output| == BUFFER_SIZE
           && egptr <= |input| && readOffset + egptr <= |file|
           && input[..egptr] == file[readOffset..readOffset + egptr]
    }

    ghost function Abs(): (s: Stream)
      reads this
      requires Valid()
      ensures s.Valid()
    {
      if inMemory then Stream(data[..pptr], gptr) else Stream(file + output[..pptr], readOffset + gptr)
    }

    constructor (limit: nat)
      ensures Valid() && Abs() == Stream([], 0) && inMemory && this.limit == limit
    {
      this.limit := limit;
      inMemory, isOpen, file, fileSize, readOffset := true, false, [], 0, 0;
      data, output, input := [], [], [];
      pptr, epptr, gptr, egptr := 0, 0, 0, 0;
    }

    /** A buffer is in memory only while its contents fit the limit. */
    lemma InMemoryFits()
      requires Valid() && inMemory
      ensures |Abs().written| <= limit
    {
    }

    method SetLimit(newLimit: nat)
      requires Valid()
      modifies this`limit
      ensures Valid() && Abs() == old(Abs())
      ensures limit == if inMemory && old(limit) < newLimit then newLimit else old(limit)
    {
      if inMemory && limit < newLimit {
        limit := newLimit;
      }
    }

    method Size() returns (n: nat)
      requires Valid()
      ensures n == |Abs().written|
    {
      n := fileSize + pptr;
    }

    /** Append the put area to the file. */
    method WriteBuffer()
      requires pptr <= epptr <= |if inMemory then data else output| && fileSize == |file|
      modifies this`isOpen, this`file, this`fileSize, this`pptr
      ensures isOpen && pptr == 0 && fileSize == |file|
      ensures file == old(file) + old((if inMemory then data else output)[..pptr])
    {
      isOpen := true;
      file := file + (if inMemory then data else output)[..pptr];
      fileSize := fileSize + pptr;
      pptr := 0;
    }

    method ToFile()
      requires Valid()
      modifies this
      ensures Valid() && !inMemory && Abs() == old(Abs())
      ensures pptr < epptr || !old(inMemory)
      ensures limit == old(limit)
    {
      if !inMemory {
        return;
      }
      var offset := gptr;
      WriteBuffer();
      data := [];
      output := seq(BUFFER_SIZE, _ => 0);
      pptr, epptr := 0, BUFFER_SIZE;
      gptr, egptr := 0, 0;
      readOffset := offset;
      inMemory := false;
    }

    method Sync()
      requires Valid()
      modifies this
      ensures Valid() && Abs() == old(Abs()) && inMemory == old(inMemory)
      ensures !inMemory ==> pptr == 0
      ensures gptr == old(gptr) && egptr == old(egptr) && readOffset == old(readOffset)
      ensures limit == old(limit)
    {
      if inMemory {
        return;
      }
      WriteBuffer();
    }

    /** Enlarge the memory buffer, up to the limit, and refresh the pointers into it. */
    method Grow()
      requires Valid() && inMemory && pptr == epptr < limit
      modifies this`data, this`epptr, this`egptr
      ensures Valid() && pptr < epptr && Abs() == old(Abs())
      ensures |data| == limit || |data| == if old(|data|) == 0 then 64 else 2 * old(|data|)
    {
      var newSize := |data| * 2;
      if newSize == 0 {
        newSize := 64;
      }
      if newSize > limit {
        newSize := limit;
      }
      data := data + seq(newSize - |data|, _ => 0);
      epptr := newSize;
      egptr := pptr;
    }

    method StoreByte(c: byte)
      requires Valid() && pptr < epptr
      modifies this`data, this`output, this`pptr
      ensures Valid() && Abs() == Stream(old(Abs()).written + [c], old(Abs()).pos)
    {
      if inMemory {
        data := data[pptr := c];
      } else {
        output := output[pptr := c];
      }
      pptr := pptr + 1;
    }

    /** Make room in a full put area and store `c` there. */
    method Overflow(c: byte)
      requires Valid() && pptr == epptr
      modifies this
      ensures Valid() && Abs() == Stream(old(Abs()).written + [c], old(Abs()).pos)
      ensures limit == old(limit) && inMemory == (old(inMemory) && |Abs().written| <= limit)
    {
      var size := pptr;
      if inMemory {
        if size >= limit {
          ToFile();
        } else {
          Grow();
        }
      } else {
        WriteBuffer();
      }
      StoreByte(c);
    }

    /** Refill the get area; the byte at the read position or end of file. */
    method Underflow() returns (c: int)
      requires Valid() && (inMemory ==> gptr == egptr)
      modifies this
      ensures Valid() && Abs() == old(Abs()) && inMemory == old(inMemory)
      ensures c == Abs().Next()
      ensures c != EOF ==> gptr < egptr
      ensures !inMemory ==> gptr == 0 && readOffset == Abs().pos
                            && egptr == if |Abs().written| - readOffset < BUFFER_SIZE
                                 then |Abs().written| - readOffset else BUFFER_SIZE
      ensures limit == old(limit) && inMemory == old(inMemory)
    {
      if inMemory {
        egptr := pptr;
      } else {
        FillInput();
      }
      if gptr == egptr {
        return EOF;
      }
      c := Current();
    }

    /** Flush, then read the next block of the file into the get area. */
    method FillInput()
      requires Valid() && !inMemory
      modifies this
      ensures Valid() && !inMemory && Abs() == old(Abs())
      ensures gptr == 0 && readOffset == Abs().pos
      ensures egptr == if |Abs().written| - readOffset < BUFFER_SIZE then |Abs().written| - readOffset else BUFFER_SIZE
      ensures limit == old(limit)
    {
      Sync();
      readOffset := readOffset + gptr;
      var n := if |file| - readOffset < BUFFER_SIZE then |file| - readOffset else BUFFER_SIZE;
      input := file[readOffset..readOffset + n] + seq(BUFFER_SIZE - n, _ => 0);
      gptr, egptr := 0, n;
    }

    /** `*gptr()`, the first byte of the get area. */
    function Current(): (c: int)
      requires Valid() && gptr < egptr
      reads this
      ensures c == Abs().Next() && c != EOF
    {
      assert !inMemory ==>
            input[..egptr][gptr] == file[readOffset..readOffset + egptr][gptr] == file[readOffset + gptr];
      (if inMemory then data else input)[gptr] as int
    }

    /** `sputc`: write one byte. */
    method Put(c: byte)
      requires Valid()
      modifies this
      ensures Valid() && Abs() == Stream(old(Abs()).written + [c], old(Abs()).pos)
      ensures limit == old(limit) && inMemory == (old(inMemory) && |Abs().written| <= limit)
    {
      if pptr < epptr {
        StoreByte(c);
      } else {
        Overflow(c);
      }
    }

    /** `sgetc`: the byte at the read position, without moving. */
    method Peek() returns (c: int)
      requires Valid()
      modifies this
      ensures Valid() && Abs() == old(Abs()) && c == Abs().Next()
      ensures c != EOF ==> gptr < egptr
      ensures limit == old(limit) && inMemory == old(inMemory)
    {
      if gptr < egptr {
        return Current();
      }
      c := Underflow();
    }

    /** `sbumpc`: read one byte and move past it. */
    method Get() returns (c: int)
      requires Valid()
      modifies this
      ensures Valid() && c == old(Abs()).Next()
      ensures Abs() == if c == EOF then old(Abs()) else Stream(old(Abs()).written, old(Abs()).pos + 1)
      ensures limit == old(limit) && inMemory == old(inMemory)
    {
      c := Peek();
      if c != EOF {
        gptr := gptr + 1;
      }
    }

    /** `seekoff` on the read side, `off` being a 64-bit offset. */
    method SeekRead(off: int, way: Direction) returns (r: int)
      requires Valid() && |Abs().written| < OFFSET_LIMIT && -OFFSET_LIMIT <= off < OFFSET_LIMIT
      modifies this
      ensures Valid() && inMemory == old(inMemory)
      ensures var target := old(Abs()).Base(way) + off;
              if 0 <= target <= |old(Abs()).written|
              then r == target && Abs() == Stream(old(Abs()).written, target)
              else r == -1 && Abs() == old(Abs())
      ensures !inMemory ==> gptr == egptr == 0
      ensures limit == old(limit) && inMemory == old(inMemory)
    {
      if inMemory {
        r := SeekMemory(off, way);
      } else {
        r := SeekFile(off, way);
      }
    }

    /** In memory positions are unsigned, so a negative one wraps to a huge one. */
    method SeekMemory(off: int, way: Direction) returns (r: int)
      requires Valid() && inMemory && |Abs().written| < OFFSET_LIMIT && -OFFSET_LIMIT <= off < OFFSET_LIMIT
      modifies this`gptr, this`egptr
      ensures Valid()
      ensures var target := old(Abs()).Base(way) + off;
              if 0 <= target <= |old(Abs()).written|
              then r == target && Abs() == Stream(old(Abs()).written, target)
              else r == -1 && Abs() == old(Abs())
    {
      var streamSize := pptr;
      var rpos := match way
        case Beg => off % SIZE_RANGE
        case Cur => (gptr + off) % SIZE_RANGE
        case End => (streamSize + off) % SIZE_RANGE;
      if rpos > streamSize {
        return -1;
      }
      gptr, egptr := rpos, pptr;
      return rpos;
    }

    /** In the file positions are signed, so one past their range wraps to a negative one. */
    method SeekFile(off: int, way: Direction) returns (r: int)
      requires Valid() && !inMemory && |Abs().written| < OFFSET_LIMIT && -OFFSET_LIMIT <= off < OFFSET_LIMIT
      modifies this
      ensures Valid() && !inMemory && gptr == egptr == 0
      ensures var target := old(Abs()).Base(way) + off;
              if 0 <= target <= |old(Abs()).written|
              then r == target && Abs() == Stream(old(Abs()).written, target)
              else r == -1 && Abs() == old(Abs())
      ensures limit == old(limit) && inMemory == old(inMemory)
    {
      Sync();
      readOffset := readOffset + gptr;
      gptr, egptr := 0, 0;
      var newOffset := match way
        case Beg => off
        case Cur => Signed(readOffset + off)
        case End => Signed(fileSize + off);
      if newOffset < 0 || newOffset > fileSize {
        return -1;
      }
      readOffset := newOffset;
      return readOffset;
    }

    /** `seekoff` on the write side only reports the size. */
    method SeekWrite(off: int, way: Direction) returns (r: int)
      requires Valid()
      ensures r == if off == 0 && way == Cur then |Abs().written| else -1
    {
      if off != 0 || way != Cur {
        return -1;
      }
      r := Size();
    }

    /** `sungetc`: step back one byte, across the start of the get area if need be. */
    method Unget() returns (c: int)
      requires Valid() && |Abs().written| < OFFSET_LIMIT
      modifies this
      ensures Valid()
      ensures if old(Abs()).pos == 0 then c == EOF && Abs() == old(Abs())
              else Abs() == Stream(old(Abs()).written, old(Abs()).pos - 1) && c == Abs().Next() && c != EOF
      ensures limit == old(limit) && inMemory == old(inMemory)
    {
      if gptr > 0 {
        gptr := gptr - 1;
        return Current();
      }
      c := PbackFail();
    }

    /** `sputbackc`: step back over `c`.  Another byte than the one before the read position is
        refused or ignored, depending on where the get area begins. */
    method PutBack(c: byte) returns (r: int)
      requires Valid() && |Abs().written| < OFFSET_LIMIT
      modifies this
      ensures Valid()
      ensures var (w, pos) := (old(Abs()).written, old(Abs()).pos);
              if pos > 0 && (w[pos - 1] == c || old(readOffset) > 0)
              then r == w[pos - 1] as int && Abs() == Stream(w, pos - 1)
              else r == EOF && Abs() == old(Abs())
      ensures limit == old(limit) && inMemory == old(inMemory)
    {
      if gptr > 0 {
        gptr := gptr - 1;
        var before := Current();
        if before == c as int {
          return before;
        }
        gptr := gptr + 1;
      }
      r := PbackFail();
    }

    /** Read a block before the read position again. */
    method PbackFail() returns (c: int)
      requires Valid() && |Abs().written| < OFFSET_LIMIT
      modifies this
      ensures Valid()
      ensures if old(readOffset) == 0 then c == EOF && Abs() == old(Abs())
              else
                && old(Abs()).pos > 0 && Abs() == Stream(old(Abs()).written, old(Abs()).pos - 1)
                && c == Abs().Next() && c != EOF
      ensures limit == old(limit) && inMemory == old(inMemory)
    {
      if inMemory {
        return EOF;
      }
      if readOffset == 0 {
        return EOF;
      }
      var back := BUFFER_SIZE / 2;
      if readOffset < back {
        back := readOffset;
      }
      var r := SeekRead(-back, Cur);
      if r < 0 {
        return EOF;
      }
      r := Underflow();
      if r < 0 {
        return EOF;
      }
      gptr := gptr + (back - 1);
      c := Current();
    }
  }

  /** In file mode a put-back of another byte is taken as one of the byte there. */
  method IgnoredPutBack() returns (b: FileBuffer, r: int)
    ensures b.Valid() && b.Abs() == Stream([1], 0) && r == 1
  {
    b := new FileBuffer(64);
    b.Put(1);
    b.ToFile();
    var pos := b.SeekRead(1, Beg);
    r := b.PutBack(2);
  }

  // ----- whole runs

  datatype Op =
    | Write(c: byte)
    | Read
    | Look
    | StepBack
    | Seek(off: int, way: Direction)
    | Tell(off: int, way: Direction)
    | Length
    | Spill
    | Flush
    | Raise(limit: nat)

  /** What an operation does to the stream and what it returns.  Spilling to the file, flushing
      and raising the limit do nothing. */
  function Step(s: Stream, op: Op): (r: (Stream, int)) {
    match op
    case Write(c) => (Stream(s.written + [c], s.pos), 0)
    case Read => (if s.Next() == EOF then s else Stream(s.written, s.pos + 1), s.Next())
    case Look => (s, s.Next())
    case StepBack => if s.pos == 0 then (s, EOF) else var t := Stream(s.written, s.pos - 1); (t, t.Next())
    case Seek(off, way) =>
      var target := s.Base(way) + off;
      if 0 <= target <= |s.written| then (Stream(s.written, target), target) else (s, -1)
    case Tell(off, way) => (s, if off == 0 && way == Cur then |s.written| else -1)
    case Length => (s, |s.written|)
    case Spill | Flush | Raise(_) => (s, 0)
  }

  /** Each operation spelled out. */
  lemma StepIs(w: seq<byte>, pos: nat, c: byte, off: int)
    requires pos <= |w|
    ensures var s := Stream(w, pos);
            && Step(s, Write(c)) == (Stream(w + [c], pos), 0)
            && (pos < |w| ==>
                   Step(s, Read) == (Stream(w, pos + 1), w[pos] as int) && Step(s, Look) == (s, w[pos] as int))
            && (pos == |w| ==> Step(s, Read) == (s, -1) && Step(s, Look) == (s, -1))
            && (pos > 0 ==> Step(s, StepBack) == (Stream(w, pos - 1), w[pos - 1] as int))
            && (pos == 0 ==> Step(s, StepBack) == (s, -1))
            && Step(s, Seek(off, Beg)) == (if 0 <= off <= |w| then (Stream(w, off), off) else (s, -1))
            && Step(s, Seek(off, Cur)) == (if 0 <= pos + off <= |w| then (Stream(w, pos + off), pos + off) else (s, -1))
            && Step(s, Seek(off, End)) == (if -|w| <= off <= 0 then (Stream(w, |w| + off), |w| + off) else (s, -1))
            && Step(s, Length) == (s, |w|) && Step(s, Spill) == Step(s, Flush) == (s, 0)
            && Step(s, Tell(0, Cur)) == (s, |w|)
  {
  }

  /** Where the contents are kept, and the limit for keeping them in memory. */
  datatype Mode = Mode(inMemory: bool, limit: nat)

  /** Contents that outgrow the limit move to the file for good; a limit only rises, and only while
      they are in memory. */
  function ModeStep(s: Stream, m: Mode, op: Op): Mode {
    match op
    case Write(_) => m.(inMemory := m.inMemory && |s.written| + 1 <= m.limit)
    case Spill => m.(inMemory := false)
    case Raise(n) => if m.inMemory && m.limit < n then m.(limit := n) else m
    case _ => m
  }

  /** The mode after some operations. */
  function ModeTrace(limit: nat, ops: seq<Op>): Mode {
    if ops == [] then Mode(true, limit)
    else
      var n := |ops| - 1;
      ModeStep(Trace(ops[..n]).0, ModeTrace(limit, ops[..n]), ops[n])
  }

  /** As long as nobody spills or raises the limit, the contents are in memory exactly while they
      fit the limit. */
  lemma {:induction false} InMemoryExactly(limit: nat, ops: seq<Op>)
    requires forall i :: 0 <= i < |ops| ==> !ops[i].Spill? && !ops[i].Raise?
    ensures ModeTrace(limit, ops) == Mode(|Trace(ops).0.written| <= limit, limit)
  {
    if ops != [] {
      InMemoryExactly(limit, ops[..|ops| - 1]);
    }
  }

  ghost predicate FitsAfter(limit: nat, ops: seq<Op>, i: nat)
    requires i < |ops|
  {
    ops[i] != Spill && |Trace(ops[..i + 1]).0.written| <= ModeTrace(limit, ops[..i + 1]).limit
  }

  /** With spills and new limits, they are in memory exactly when they were never spilled and have
      fitted the limit of the moment all along. */
  lemma {:induction false} InMemoryAllAlong(limit: nat, ops: seq<Op>)
    ensures ModeTrace(limit, ops).inMemory <==> forall i :: 0 <= i < |ops| ==> FitsAfter(limit, ops, i)
    ensures ModeTrace(limit, ops).inMemory ==> |Trace(ops).0.written| <= ModeTrace(limit, ops).limit
  {
    if ops != [] {
      var n := |ops| - 1;
      var before := ops[..n];
      InMemoryAllAlong(limit, before);
      assert ops[..n + 1] == ops;
      forall i: nat | i < n
        ensures FitsAfter(limit, before, i) <==> FitsAfter(limit, ops, i)
      {
        assert before[..i + 1] == ops[..i + 1];
      }
      StaysWhen(Trace(before).0, ModeTrace(limit, before), ops[n]);
      hide Step, ModeStep;
      assert FitsAfter(limit, ops, n)
             <==> ops[n] != Spill && |Trace(ops).0.written| <= ModeTrace(limit, ops).limit;
    }
  }

  lemma StaysWhen(s: Stream, m: Mode, op: Op)
    ensures var m' := ModeStep(s, m, op);
            && (m'.inMemory ==> m.inMemory)
            && (m.inMemory && |s.written| <= m.limit ==>
                  (m'.inMemory <==> op != Spill && |Step(s, op).0.written| <= m'.limit))
  {
  }

  /** The bytes of a run, in order. */
  function WrittenBytes(ops: seq<Op>): seq<byte> {
    if ops == [] then []
    else
      var n := |ops| - 1;
      WrittenBytes(ops[..n]) + (if ops[n].Write? then [ops[n].c] else [])
  }

  lemma {:induction false} WrittenIs(ops: seq<Op>)
    ensures Trace(ops).0.written == WrittenBytes(ops)
  {
    if ops != [] {
      WrittenIs(ops[..|ops| - 1]);
    }
  }

  lemma TraceMore(ops: seq<Op>, op: Op)
    ensures Trace(ops + [op]).0 == Step(Trace(ops).0, op).0
  {
    assert (ops + [op])[..|ops|] == ops;
  }

  /** The stream holds the bytes written, in order: after a seek to the start, reads give them back
      one by one, and the read after the last one gives end of file. */
  lemma {:induction false} ReadBack(ops: seq<Op>, k: nat)
    requires k <= |WrittenBytes(ops)|
    ensures var s := Trace(ops + [Seek(0, Beg)] + seq(k, _ => Read)).0;
            && s == Stream(WrittenBytes(ops), k)
            && Step(s, Read).1 == if k < |WrittenBytes(ops)| then WrittenBytes(ops)[k] as int else EOF
  {
    WrittenIs(ops);
    hide Trace, WrittenBytes;
    if k == 0 {
      TraceMore(ops, Seek(0, Beg));
      assert ops + [Seek(0, Beg)] + seq(0, _ => Read) == ops + [Seek(0, Beg)];
    } else {
      ReadBack(ops, k - 1);
      TraceMore(ops + [Seek(0, Beg)] + seq(k - 1, _ => Read), Read);
      assert ops + [Seek(0, Beg)] + seq(k, _ => Read) == ops + [Seek(0, Beg)] + seq(k - 1, _ => Read) + [Read];
    }
  }

  /** The stream after some operations and everything they returned. */
  function Trace(ops: seq<Op>): (Stream, seq<int>) {
    if ops == [] then (Stream([], 0), [])
    else
      var (s, outs) := Trace(ops[..|ops| - 1]);
      var (t, out) := Step(s, ops[|ops| - 1]);
      (t, outs + [out])
  }

  lemma {:induction false} TraceBounds(ops: seq<Op>)
    ensures var (s, outs) := Trace(ops); s.Valid() && |s.written| <= |ops| && |outs| == |ops|
  {
    if ops != [] {
      TraceBounds(ops[..|ops| - 1]);
    }
  }

  /** Offsets are 64-bit signed integers. */
  predicate Representable(op: Op) {
    op.Seek? ==> -OFFSET_LIMIT <= op.off < OFFSET_LIMIT
  }

  method PerformRead(b: FileBuffer, op: Op) returns (out: int)
    requires b.Valid() && Representable(op) && |b.Abs().written| < OFFSET_LIMIT
    requires op.Read? || op.Look? || op.StepBack? || op.Seek?
    modifies b
    ensures b.Valid() && (b.Abs(), out) == Step(old(b.Abs()), op)
    ensures b.inMemory == old(b.inMemory) && b.limit == old(b.limit)
  {
    match op
    case Read => out := b.Get();
    case Look => out := b.Peek();
    case StepBack => out := b.Unget();
    case Seek(off, way) => out := b.SeekRead(off, way);
  }

  method Perform(b: FileBuffer, op: Op) returns (out: int)
    requires b.Valid() && Representable(op) && |b.Abs().written| < OFFSET_LIMIT
    modifies b
    ensures b.Valid() && (b.Abs(), out) == Step(old(b.Abs()), op)
    ensures Mode(b.inMemory, b.limit) == ModeStep(old(b.Abs()), Mode(old(b.inMemory), old(b.limit)), op)
  {
    out := 0;
    match op
    case Write(c) => b.Put(c);
    case Tell(off, way) => out := b.SeekWrite(off, way);
    case Length => out := b.Size();
    case Spill => b.ToFile();
    case Flush => b.Sync();
    case Raise(n) => b.SetLimit(n);
    case _ => out := PerformRead(b, op);
  }

  /** Whatever the limit and wherever the contents move to the file, a run returns what the
      simple stream returns and ends with its contents and read position. */
  method Run(limit: nat, ops: seq<Op>) returns (b: FileBuffer, outs: seq<int>)
    requires |ops| < OFFSET_LIMIT && forall i :: 0 <= i < |ops| ==> Representable(ops[i])
    ensures b.Valid() && (b.Abs(), outs) == Trace(ops)
    ensures Mode(b.inMemory, b.limit) == ModeTrace(limit, ops)
  {
    hide Step, ModeStep;
    b := new FileBuffer(limit);
    outs := [];
    for i := 0 to |ops|
      invariant fresh(b) && b.Valid() && (b.Abs(), outs) == Trace(ops[..i])
      invariant Mode(b.inMemory, b.limit) == ModeTrace(limit, ops[..i])
    {
      TraceBounds(ops[..i]);
      var out := Perform(b, ops[i]);
      outs := outs + [out];
      assert ops[..i + 1][..i] == ops[..i];
    }
    assert ops[..|ops|] == ops;
  }

  /** The operations that only move bytes between memory and file. */
  predicate Internal(op: Op) {
    op.Spill? || op.Flush? || op.Raise?
  }

  function Visible(ops: seq<Op>): seq<Op> {
    if ops == [] then []
    else
      var last := ops[|ops| - 1];
      Visible(ops[..|ops| - 1]) + (if Internal(last) then [] else [last])
  }

  /** What the other operations of a run returned. */
  function Selected(ops: seq<Op>, outs: seq<int>): seq<int>
    requires |outs| == |ops|
  {
    if ops == [] then []
    else
      var n := |ops| - 1;
      Selected(ops[..n], outs[..n]) + (if Internal(ops[n]) then [] else [outs[n]])
  }

  lemma {:induction false} SpillsInvisible(ops: seq<Op>)
    ensures |Trace(ops).1| == |ops|
    ensures Trace(Visible(ops)) == (Trace(ops).0, Selected(ops, Trace(ops).1))
  {
    TraceBounds(ops);
    if ops != [] {
      var rest, last := ops[..|ops| - 1], ops[|ops| - 1];
      SpillsInvisible(rest);
      assert Trace(ops).1[..|ops| - 1] == Trace(rest).1;
      if Internal(last) {
        assert Visible(ops) == Visible(rest) && Selected(ops, Trace(ops).1) == Selected(rest, Trace(rest).1);
        assert Trace(ops).0 == Step(Trace(rest).0, last).0 == Trace(rest).0;
      } else {
        var v := Visible(ops);
        assert v[..|v| - 1] == Visible(rest);
      }
    }
  }

  lemma {:induction false} VisibleOps(ops: seq<Op>)
    ensures |Visible(ops)| <= |ops| && forall op :: op in Visible(ops) ==> op in ops
  {
    if ops != [] {
      VisibleOps(ops[..|ops| - 1]);
    }
  }

  /** Two buffers that differ in their limits, and one of which is also spilled, flushed and given
      other limits at any moment, end with the same bytes and read position, and all other
      operations return the same. */
  method CompareRuns(limit: nat, limit': nat, ops: seq<Op>)
    returns (b: FileBuffer, outs: seq<int>, b': FileBuffer, outs': seq<int>)
    requires |ops| < OFFSET_LIMIT && forall i :: 0 <= i < |ops| ==> Representable(ops[i])
    ensures b.Valid() && (b.Abs(), outs) == Trace(ops) && Mode(b.inMemory, b.limit) == ModeTrace(limit, ops)
    ensures b'.Valid() && (b'.Abs(), outs') == Trace(Visible(ops))
    ensures b.Abs() == b'.Abs() && |outs| == |ops| && outs' == Selected(ops, outs)
  {
    SpillsInvisible(ops);
    VisibleOps(ops);
    b, outs := Run(limit, ops);
    forall i | 0 <= i < |Visible(ops)|
      ensures Representable(Visible(ops)[i])
    {
      assert Visible(ops)[i] in ops;
    }
    b', outs' := Run(limit', Visible(ops));
  }
}
