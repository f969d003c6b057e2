/**
 The peephole optimizer of datatype descriptions (opal_datatype_optimize.c).

 Runs of data that touch in memory are merged into one byte run; contiguous loops with gaps become a
 two-entry loop or are unrolled; other loops are kept and their bodies optimized in place.
 */
module Optimize {
  import opened Description
  import opened Soundness

  // ---------------------------------------------------------------- the pending run

  /** The last_type, last_length, last_disp and last_extent variables. */
  datatype Pending = Pending(typ: BasicType, len: nat, disp: int, extent: int)

  /** Their values at the start. */
  const NOTHING := Pending(UINT1, 0, 0, 1)

  /** The entry a pending run will be written as, if it is not empty. */
  function Emit(p: Pending): seq<Entry> {
    if p.len == 0 then [] else [Elem(p.typ, true, p.len, p.disp, p.extent)]
  }

  /** A pending run is one gapless piece of memory. */
  predicate Compact(p: Pending) {
    p.len == 0 || (p.typ.size > 0 && (p.len == 1 || p.extent == p.typ.size))
  }

  /** The bytes of a pending run. */
  function RunLen(p: Pending): nat { Times(p.len, p.typ.size) }

  lemma {:induction false} CopiesContiguous(n: nat, at: int, size: nat)
    ensures Flatten(Copies(n, at, size, size)) == Range(at, Times(n, size))
  {
    if n > 0 {
      CopiesContiguous(n - 1, at + size, size);
      assert Copies(n, at, size, size)[1..] == Copies(n - 1, at + size, size, size);
      RangeSplit(at, size, Times(n - 1, size));
    }
  }

  lemma OneBytes(at: int, step: int, size: nat)
    ensures Flatten(Copies(1, at, step, size)) == Range(at, size)
  {
    assert Copies(1, at, step, size) == [MemUnit(at, size)];
    assert Flatten([MemUnit(at, size)]) == Range(at, size) + Flatten([]);
  }

  /** A data entry that is one gapless piece of memory. */
  lemma SolidElem(e: Entry)
    requires e.Elem? && (e.count > 1 ==> e.extent == e.typ.size)
    ensures Bytes([e], ByBlock) == Range(e.disp, Times(e.count, e.typ.size))
  {
    SingleElem(e, 0, ByBlock);
    if e.count == 1 {
      OneBytes(e.disp, e.extent, e.typ.size);
      assert Times(1, e.typ.size) == e.typ.size;
    } else if e.count > 1 {
      CopiesContiguous(e.count, e.disp, e.typ.size);
    }
  }

  lemma RunElem(len: nat, at: int)
    ensures Nested([Elem(UINT1, true, len, at, 1)])
    ensures Bytes([Elem(UINT1, true, len, at, 1)], ByBlock) == Range(at, len)
  {
    SingleElem(Elem(UINT1, true, len, at, 1), 0, ByBlock);
    SolidElem(Elem(UINT1, true, len, at, 1));
    TimesOne(len);
  }

  lemma EmitBytes(p: Pending)
    requires Compact(p)
    ensures Nested(Emit(p)) && Bytes(Emit(p), ByBlock) == Range(p.disp, RunLen(p))
  {
    if p.len != 0 {
      SingleElem(Emit(p)[0], 0, ByBlock);
      SolidElem(Emit(p)[0]);
    }
  }

  // ---------------------------------------------------------------- meaning of a partial output

  /** seg followed by n bytes from displacement at means what x means. */
  ghost predicate Means(x: seq<Entry>, seg: seq<Entry>, at: int, n: nat) {
    Nested(x) && Nested(seg) && Bytes(seg, ByBlock) + Range(at, n) == Bytes(x, ByBlock)
  }

  lemma NothingPending(x: seq<Entry>, seg: seq<Entry>, at: int)
    ensures Means(x, seg, at, 0) <==> Nested(x) && Nested(seg) && Bytes(seg, ByBlock) == Bytes(x, ByBlock)
  {
    assert Bytes(seg, ByBlock) + Range(at, 0) == Bytes(seg, ByBlock);
  }

  /** Writing out the pending bytes. */
  lemma FlushMeans(x: seq<Entry>, seg: seq<Entry>, at: int, n: nat, run: seq<Entry>, at': int)
    requires Means(x, seg, at, n) && Nested(run) && Bytes(run, ByBlock) == Range(at, n)
    ensures Means(x, seg + run, at', 0)
  {
    BytesAppend(seg, run, ByBlock);
    NothingPending(x, seg + run, at');
  }

  /** Writing out a further piece with nothing pending. */
  lemma WriteMeans(x: seq<Entry>, seg: seq<Entry>, at: int, y: seq<Entry>, more: seq<Entry>)
    requires Means(x, seg, at, 0) && Nested(y) && Nested(more) && Bytes(more, ByBlock) == Bytes(y, ByBlock)
    ensures Means(x + y, seg + more, at, 0)
  {
    NothingPending(x, seg, at);
    NothingPending(x + y, seg + more, at);
    BytesAppend(seg, more, ByBlock);
    BytesAppend(x, y, ByBlock);
  }

  lemma RangeGrows(done: seq<int>, a: int, m: nat, n: nat)
    ensures done + Range(a, m) + Range(a + m, n) == done + Range(a, m + n)
  {
    RangeSplit(a, m, n);
    Associate(done, Range(a, m), Range(a + m, n));
  }

  /** Growing the pending bytes by bytes that follow them in memory. */
  lemma GrowMeans(x: seq<Entry>, seg: seq<Entry>, at: int, m: nat, y: seq<Entry>, n: nat)
    requires Means(x, seg, at, m) && Nested(y) && Bytes(y, ByBlock) == Range(at + m, n)
    ensures Means(x + y, seg, at, m + n)
  {
    BytesAppend(x, y, ByBlock);
    RangeGrows(Bytes(seg, ByBlock), at, m, n);
  }

  // ---------------------------------------------------------------- data entries

  predicate Continues(p: Pending, at: int) { p.disp + RunLen(p) == at }

  predicate Absorbs(p: Pending, e: Entry)
    requires e.Elem?
  {
    e.contig && Continues(p, e.disp) && e.extent == e.typ.size
  }

  function Absorb(p: Pending, e: Entry): Pending
    requires e.Elem?
  {
    if e.typ == p.typ then Pending(p.typ, p.len + e.count, p.disp, e.extent)
    else if p.len == 0 then Pending(e.typ, e.count, p.disp, e.extent)
    else Pending(UINT1, Times(p.len, p.typ.size) + Times(e.count, e.typ.size), p.disp, 1)
  }

  function Restart(e: Entry): Pending
    requires e.Elem?
  {
    Pending(e.typ, e.count, e.disp, e.extent)
  }

  /** Pending bytes described by the last_* variables. */
  ghost predicate Tracks(x: seq<Entry>, seg: seq<Entry>, p: Pending) {
    Compact(p) && Means(x, seg, p.disp, RunLen(p))
  }

  lemma AbsorbTracks(x: seq<Entry>, seg: seq<Entry>, p: Pending, e: Entry)
    requires Tracks(x, seg, p) && e.Elem? && e.typ.size > 0 && Absorbs(p, e)
    ensures Tracks(x + [e], seg, Absorb(p, e))
  {
    hide Units, Flatten, Copies, Range, Nested, Times;
    SingleElem(e, 0, ByBlock);
    SolidElem(e);
    GrowMeans(x, seg, p.disp, RunLen(p), [e], Times(e.count, e.typ.size));
    AbsorbLen(p, e);
  }

  lemma AbsorbLen(p: Pending, e: Entry)
    requires e.Elem?
    ensures RunLen(Absorb(p, e)) == RunLen(p) + Times(e.count, e.typ.size)
  {
    TimesAdd(p.len, e.count, p.typ.size);
    TimesOne(RunLen(p) + Times(e.count, e.typ.size));
  }

  lemma RestartTracks(x: seq<Entry>, seg: seq<Entry>, p: Pending, e: Entry)
    requires Tracks(x, seg, p) && e.Elem? && e.typ.size > 0 && (e.count > 1 ==> e.extent == e.typ.size)
    ensures Tracks(x + [e], seg + Emit(p), Restart(e))
  {
    hide Units, Flatten, Copies, Range, Nested, Times;
    EmitBytes(p);
    FlushMeans(x, seg, p.disp, RunLen(p), Emit(p), e.disp);
    SingleElem(e, 0, ByBlock);
    SolidElem(e);
    GrowMeans(x, seg + Emit(p), e.disp, 0, [e], Times(e.count, e.typ.size));
  }

  // ---------------------------------------------------------------- contiguous loops

  /** A CONTIGUOUS loop, exactly. */
  ghost predicate Block(y: seq<Entry>) {
    y != [] && y[0].Loop? && y[0].contig && HeadLen(y) == |y| && TameHead(y)
  }

  lemma BlockEnds(y: seq<Entry>)
    requires Block(y)
    ensures |y| >= 2 && y[0].Loop? && y[0].loops >= 1 && y[|y| - 1].EndLoop?
  {
    hide Tame, FirstNonLoop;
  }

  lemma BlockUnits(y: seq<Entry>)
    requires Block(y)
    ensures Nested(y) && Units(y, 0, ByBlock) == Copies(y[0].loops, y[|y| - 1].first, y[0].extent, y[|y| - 1].size)
  {
    SingleHead(y, 0, ByBlock);
    TameNested(y[1..y[0].items]);
  }

  /** A loop whose extent is its size is one gapless run. */
  lemma WholeBytes(y: seq<Entry>)
    requires Block(y) && y[0].extent == y[|y| - 1].size
    ensures Nested(y) && Bytes(y, ByBlock) == Range(y[|y| - 1].first, Times(y[0].loops, y[|y| - 1].size))
  {
    BlockUnits(y);
    CopiesContiguous(y[0].loops, y[|y| - 1].first, y[|y| - 1].size);
  }

  lemma WholeTracks(x: seq<Entry>, seg: seq<Entry>, p: Pending, y: seq<Entry>)
    requires Tracks(x, seg, p) && Block(y) && y[0].extent == y[|y| - 1].size && Continues(p, y[|y| - 1].first)
    ensures Tracks(x + y, seg, Pending(UINT1, RunLen(p) + Times(y[0].loops, y[|y| - 1].size), p.disp, 1))
  {
    WholeBytes(y);
    GrowMeans(x, seg, p.disp, RunLen(p), y, Times(y[0].loops, y[|y| - 1].size));
    TimesOne(RunLen(p) + Times(y[0].loops, y[|y| - 1].size));
  }

  lemma FlushTracks(x: seq<Entry>, seg: seq<Entry>, p: Pending, q: Pending)
    requires Tracks(x, seg, p) && q.len == 0
    ensures Tracks(x, seg + Emit(p), q)
  {
    EmitBytes(p);
    FlushMeans(x, seg, p.disp, RunLen(p), Emit(p), q.disp);
  }

  /** What is written for the last n blocks of a loop with gaps, the first of them at the given
      displacement; inner is the displacement of the data entry written inside a remaining loop. */
  function Remainder(n: nat, at: int, extent: int, size: nat, inner: int): seq<Entry> {
    if n == 0 then []
    else if n == 1 then [Elem(UINT1, true, size, at, 1)]
    else if n == 2 then [Elem(UINT1, true, size, at, 1)] + [Elem(UINT1, true, size, at + extent, 1)]
    else [Loop(true, n, 2, extent), Elem(UINT1, true, size, inner, 1), EndLoop(2, at, size)]
  }

  lemma CopiesCons(n: nat, at: int, step: int, size: nat)
    requires n > 0
    ensures Flatten(Copies(n, at, step, size)) == Range(at, size) + Flatten(Copies(n - 1, at + step, step, size))
  {
    assert Copies(n, at, step, size)[1..] == Copies(n - 1, at + step, step, size);
  }

  lemma RemainderMeans(n: nat, at: int, extent: int, size: nat, inner: int)
    ensures Blocks(Remainder(n, at, extent, size, inner), n, at, extent, size)
  {
    if n == 1 {
      RunElem(size, at);
      OneBytes(at, extent, size);
    } else if n == 2 {
      RunElem(size, at);
      RunElem(size, at + extent);
      BytesAppend([Elem(UINT1, true, size, at, 1)], [Elem(UINT1, true, size, at + extent, 1)], ByBlock);
      CopiesCons(2, at, extent, size);
      OneBytes(at + extent, extent, size);
    } else if n > 2 {
      RemainderLoop(n, at, extent, size, inner);
    }
  }

  lemma RemainderLoop(n: nat, at: int, extent: int, size: nat, inner: int)
    requires n > 2
    ensures Nested(Remainder(n, at, extent, size, inner))
    ensures Units(Remainder(n, at, extent, size, inner), 0, ByBlock) == Copies(n, at, extent, size)
  {
    var r := Remainder(n, at, extent, size, inner);
    RunElem(size, inner);
    assert r[1..2] == [Elem(UINT1, true, size, inner, 1)];
    SingleHead(r, 0, ByBlock);
  }

  /** rest stands for n blocks of a loop with gaps. */
  ghost predicate Blocks(rest: seq<Entry>, n: nat, at: int, extent: int, size: nat) {
    Nested(rest) && Bytes(rest, ByBlock) == Flatten(Copies(n, at, extent, size))
  }

  /** A loop with gaps, written out with nothing pending. */
  lemma GappedTracks(x: seq<Entry>, seg: seq<Entry>, p: Pending, y: seq<Entry>, rest: seq<Entry>)
    requires Tracks(x, seg, p) && p.len == 0 && Block(y)
    requires Blocks(rest, y[0].loops, y[|y| - 1].first, y[0].extent, y[|y| - 1].size)
    ensures Tracks(x + y, seg + rest, p)
  {
    BlockUnits(y);
    WriteMeans(x, seg, p.disp, y, rest);
  }

  /** Its first block merged into the pending run that it continues. */
  function Merged(p: Pending, size: nat): Pending { Pending(UINT1, RunLen(p) + size, p.disp, 1) }

  lemma MergedRun(p: Pending, size: nat)
    ensures Nested(Emit(Merged(p, size))) && Bytes(Emit(Merged(p, size)), ByBlock) == Range(p.disp, RunLen(p) + size)
  {
    EmitBytes(Merged(p, size));
    TimesOne(RunLen(p) + size);
  }

  lemma BlockSplit(y: seq<Entry>, rest: seq<Entry>)
    requires Block(y) && Blocks(rest, y[0].loops - 1, y[|y| - 1].first + y[0].extent, y[0].extent, y[|y| - 1].size)
    ensures Nested(y) && Bytes(y, ByBlock) == Range(y[|y| - 1].first, y[|y| - 1].size) + Bytes(rest, ByBlock)
  {
    hide Block, HeadLen, TameHead, Nested, Units, Flatten, Copies, Range;
    BlockEnds(y);
    BlockUnits(y);
    CopiesCons(y[0].loops, y[|y| - 1].first, y[0].extent, y[|y| - 1].size);
  }

  lemma MergedTracks(x: seq<Entry>, seg: seq<Entry>, p: Pending, y: seq<Entry>, rest: seq<Entry>, q: Pending)
    requires Tracks(x, seg, p) && Block(y) && Continues(p, y[|y| - 1].first) && q.len == 0
    requires Blocks(rest, y[0].loops - 1, y[|y| - 1].first + y[0].extent, y[0].extent, y[|y| - 1].size)
    ensures Tracks(x + y, seg + Emit(Merged(p, y[|y| - 1].size)) + rest, q)
  {
    hide Tame, Nested, Bytes;
    var run := Emit(Merged(p, y[|y| - 1].size));
    BlockSplit(y, rest);
    MergedRun(p, y[|y| - 1].size);
    MergedMeans(x, seg, p.disp, RunLen(p), y, y[|y| - 1].size, run, rest);
    NothingPending(x + y, seg + run + rest, q.disp);
  }

  lemma MergedMeans(x: seq<Entry>, seg: seq<Entry>, at: int, m: nat, y: seq<Entry>, n: nat, run: seq<Entry>,
          rest: seq<Entry>)
    requires Means(x, seg, at, m) && Nested(y) && Nested(run) && Nested(rest)
    requires Bytes(y, ByBlock) == Range(at + m, n) + Bytes(rest, ByBlock) && Bytes(run, ByBlock) == Range(at, m + n)
    ensures Nested(x + y) && Nested(seg + run + rest) && Bytes(seg + run + rest, ByBlock) == Bytes(x + y, ByBlock)
  {
    BytesAppend(seg, run, ByBlock);
    BytesAppend(seg + run, rest, ByBlock);
    BytesAppend(x, y, ByBlock);
    RangeGrows(Bytes(seg, ByBlock), at, m, n);
    Associate(Bytes(x, ByBlock), Range(at + m, n), Bytes(rest, ByBlock));
  }

  // ---------------------------------------------------------------- other loops

  /** r can stand for y. */
  ghost predicate Replaces(r: seq<Entry>, y: seq<Entry>) {
    Nested(r) && Nested(y) && Bytes(r, ByBlock) == Bytes(y, ByBlock)
  }

  lemma WriteTracks(x: seq<Entry>, seg: seq<Entry>, p: Pending, y: seq<Entry>, r: seq<Entry>)
    requires Tracks(x, seg, p) && p.len == 0 && Replaces(r, y)
    ensures Tracks(x + y, seg + r, p)
  {
    WriteMeans(x, seg, p.disp, y, r);
  }

  /** y is exactly a loop, not CONTIGUOUS, around body b. */
  predicate Around(y: seq<Entry>, b: seq<Entry>) {
    && |y| == |b| + 2 && y[0].Loop? && !y[0].contig && y[0].items == |b| + 1
    && y[1..|y| - 1] == b && y[|y| - 1].EndLoop?
  }

  lemma AroundUnits(y: seq<Entry>, b: seq<Entry>, base: int, how: Reading)
    requires Around(y, b) && Nested(b)
    ensures Nested(y) && Units(y, base, how) == Repeat(b, y[0].loops, y[0].extent, base, how)
  {
    SingleHead(y, base, how);
  }

  lemma {:induction false} RepeatReplaces(b: seq<Entry>, c: seq<Entry>, n: nat, extent: int, base: int)
    requires Replaces(b, c)
    ensures Flatten(Repeat(b, n, extent, base, ByBlock)) == Flatten(Repeat(c, n, extent, base, ByBlock))
    decreases n
  {
    hide Nested, Units;
    if n > 0 {
      BytesAt(b, base, ByBlock);
      BytesAt(c, base, ByBlock);
      RepeatReplaces(b, c, n - 1, extent, base + extent);
      FlattenAppend(Units(b, base, ByBlock), Repeat(b, n - 1, extent, base + extent, ByBlock));
      FlattenAppend(Units(c, base, ByBlock), Repeat(c, n - 1, extent, base + extent, ByBlock));
    }
  }

  /** Optimizing the body optimizes the loop. */
  lemma AroundReplaces(y: seq<Entry>, b: seq<Entry>, z: seq<Entry>, c: seq<Entry>)
    requires Around(y, b) && Around(z, c) && Replaces(b, c) && y[0].loops == z[0].loops && y[0].extent == z[0].extent
    ensures Replaces(y, z)
  {
    AroundUnits(y, b, 0, ByBlock);
    AroundUnits(z, c, 0, ByBlock);
    RepeatReplaces(b, c, y[0].loops, y[0].extent, 0);
  }

  /** A loop around one basic element is a strided element. */
  lemma StridedReplaces(y: seq<Entry>, e: Entry)
    requires Around(y, [e]) && e.Elem? && e.count == 1 && e.typ.size > 0
    ensures Replaces([Elem(e.typ, false, y[0].loops, e.disp, y[0].extent)], y)
  {
    hide Units, Nested, Repeat;
    SingleElem(e, 0, ByBlock);
    AroundUnits(y, [e], 0, ByBlock);
    RepeatSingle(e, y[0].loops, y[0].extent, 0, ByBlock);
    SingleElem(Elem(e.typ, false, y[0].loops, e.disp, y[0].extent), 0, ByBlock);
  }

  /** The entries an unrolled loop around one data entry is written as. */
  function Unrolled(e: Entry, n: nat, extent: int): seq<Entry>
    requires e.Elem?
    decreases n
  {
    if n == 0 then [] else [e] + Unrolled(e.(disp := e.disp + extent), n - 1, extent)
  }

  lemma {:induction false} UnrolledUnits(e: Entry, n: nat, extent: int, base: int)
    requires e.Elem? && e.typ.size > 0
    ensures Nested(Unrolled(e, n, extent))
    ensures Units(Unrolled(e, n, extent), base, ByBlock) == Repeat([e], n, extent, base, ByBlock)
    decreases n
  {
    hide Units, Nested;
    NoUnits(base, ByBlock);
    if n > 0 {
      var f := e.(disp := e.disp + extent);
      UnrolledUnits(f, n - 1, extent, base);
      SingleElem(e, base, ByBlock);
      NestedAppend([e], Unrolled(f, n - 1, extent));
      UnitsAppend([e], Unrolled(f, n - 1, extent), base, ByBlock);
      RepeatMoved(e, n - 1, extent, base, extent);
    }
  }

  lemma {:induction false} RepeatMoved(e: Entry, n: nat, extent: int, base: int, off: int)
    requires e.Elem?
    ensures Repeat([e.(disp := e.disp + off)], n, extent, base, ByBlock) == Repeat([e], n, extent, base + off, ByBlock)
    decreases n
  {
    if n > 0 {
      var f := e.(disp := e.disp + off);
      SingleElem(e, base + off, ByBlock);
      SingleElem(f, base, ByBlock);
      assert base + (e.disp + off) == base + off + e.disp;
      RepeatMoved(e, n - 1, extent, base + extent, off);
      assert base + extent + off == base + off + extent;
    }
  }

  lemma UnrolledReplaces(y: seq<Entry>, e: Entry)
    requires Around(y, [e]) && e.Elem? && e.typ.size > 0
    ensures Replaces(Unrolled(e, y[0].loops, y[0].extent), y)
  {
    SingleElem(e, 0, ByBlock);
    AroundUnits(y, [e], 0, ByBlock);
    UnrolledUnits(e, y[0].loops, y[0].extent, 0);
  }

  // ---------------------------------------------------------------- what each step writes

  /** What one step writes, and the run that is then pending. */
  datatype Piece = Piece(written: seq<Entry>, p: Pending)

  /** A data entry joins the pending run or starts a new one. */
  function DataPiece(p: Pending, e: Entry): Piece
    requires e.Elem?
  {
    if Absorbs(p, e) then Piece([], Absorb(p, e)) else Piece(Emit(p), Restart(e))
  }

  lemma DataTracks(x: seq<Entry>, seg: seq<Entry>, p: Pending, e: Entry)
    requires Tracks(x, seg, p) && e.Elem? && e.typ.size > 0 && (e.count > 1 ==> e.extent == e.typ.size)
    ensures Tracks(x + [e], seg + DataPiece(p, e).written, DataPiece(p, e).p)
  {
    if Absorbs(p, e) {
      AbsorbTracks(x, seg, p, e);
      assert seg + [] == seg;
    } else {
      RestartTracks(x, seg, p, e);
    }
  }

  /** A CONTIGUOUS loop without gaps joins the pending run or starts a new one. */
  function WholePiece(p: Pending, loop: Entry, end: Entry): Piece
    requires loop.Loop? && end.EndLoop?
  {
    if Continues(p, end.first) then Piece([], Pending(UINT1, RunLen(p) + Times(loop.loops, end.size), p.disp, 1))
    else Piece(Emit(p), Pending(UINT1, Times(loop.loops, end.size), end.first, 1))
  }

  lemma WholePieceTracks(x: seq<Entry>, seg: seq<Entry>, p: Pending, y: seq<Entry>)
    requires Tracks(x, seg, p) && Block(y) && y[0].extent == y[|y| - 1].size
    ensures Tracks(x + y, seg + WholePiece(p, y[0], y[|y| - 1]).written, WholePiece(p, y[0], y[|y| - 1]).p)
  {
    hide Tame, Nested, Bytes;
    if Continues(p, y[|y| - 1].first) {
      WholeTracks(x, seg, p, y);
      assert seg + [] == seg;
    } else {
      var q := Pending(p.typ, 0, y[|y| - 1].first, p.extent);
      FlushTracks(x, seg, p, q);
      WholeTracks(x, seg + Emit(p), q, y);
    }
  }

  /** last_type after a loop was written. */
  const NO_TYPE := BasicType(0, 0)

  /** The last_* variables after the pending run was written. */
  function Flushed(p: Pending): Pending {
    if p.len == 0 then p else Pending(NO_TYPE, 0, p.disp + p.len, p.extent)
  }

  /** A CONTIGUOUS loop with gaps is written out, its first block merged into the run it continues. */
  function GappedPiece(p: Pending, loop: Entry, end: Entry): Piece
    requires loop.Loop? && end.EndLoop? && loop.loops >= 1
  {
    if p.len != 0 && Continues(p, end.first) then
      Piece(Emit(Merged(p, end.size))
            + Remainder(loop.loops - 1, end.first + loop.extent, loop.extent, end.size, end.first),
            Flushed(Merged(p, end.size)))
    else
      Piece(Emit(p) + Remainder(loop.loops, end.first, loop.extent, end.size, end.first), Flushed(p))
  }

  lemma GappedPieceTracks(x: seq<Entry>, seg: seq<Entry>, p: Pending, y: seq<Entry>)
    requires Tracks(x, seg, p) && Block(y)
    ensures Tracks(x + y, seg + GappedPiece(p, y[0], y[|y| - 1]).written, GappedPiece(p, y[0], y[|y| - 1]).p)
  {
    hide Tame, Nested, Bytes;
    var loop, end := y[0], y[|y| - 1];
    if p.len != 0 && Continues(p, end.first) {
      var run, rest := Emit(Merged(p, end.size)), Remainder(loop.loops - 1, end.first + loop.extent, loop.extent,
          end.size, end.first);
      RemainderMeans(loop.loops - 1, end.first + loop.extent, loop.extent, end.size, end.first);
      MergedTracks(x, seg, p, y, rest, Flushed(Merged(p, end.size)));
      Associate(seg, run, rest);
    } else {
      var rest := Remainder(loop.loops, end.first, loop.extent, end.size, end.first);
      RemainderMeans(loop.loops, end.first, loop.extent, end.size, end.first);
      FlushTracks(x, seg, p, Flushed(p));
      GappedTracks(x, seg + Emit(p), Flushed(p), y, rest);
      Associate(seg, Emit(p), rest);
    }
  }

  /** What is written for a CONTIGUOUS loop. */
  function ContigPiece(p: Pending, loop: Entry, end: Entry): Piece
    requires loop.Loop? && end.EndLoop? && loop.loops >= 1
  {
    if loop.extent == end.size then WholePiece(p, loop, end) else GappedPiece(p, loop, end)
  }

  lemma ContigPieceTracks(x: seq<Entry>, seg: seq<Entry>, p: Pending, y: seq<Entry>)
    requires Tracks(x, seg, p) && Block(y)
    ensures Tracks(x + y, seg + ContigPiece(p, y[0], y[|y| - 1]).written, ContigPiece(p, y[0], y[|y| - 1]).p)
    ensures |ContigPiece(p, y[0], y[|y| - 1]).written| + |Emit(ContigPiece(p, y[0], y[|y| - 1]).p)| <= |Emit(p)| + 3
  {
    if y[0].extent == y[|y| - 1].size { WholePieceTracks(x, seg, p, y); } else { GappedPieceTracks(x, seg, p, y); }
  }

  /** A loop around a single data entry, when it is small enough to be rewritten. */
  predicate Small(loop: Entry, e: Entry)
    requires loop.Loop?
  {
    loop.items == 2 && e.Elem? && ((e.count == 1 && e.extent == e.typ.size) || loop.loops < 3)
  }

  function SmallPiece(p: Pending, loop: Entry, e: Entry): Piece
    requires loop.Loop? && Small(loop, e)
  {
    if e.count == 1 && e.extent == e.typ.size then
      Piece(Emit(p) + [Elem(e.typ, false, loop.loops, e.disp, loop.extent)], Flushed(p))
    else Piece(Emit(p) + Unrolled(e, loop.loops, loop.extent), Flushed(p))
  }

  lemma SmallPieceTracks(x: seq<Entry>, seg: seq<Entry>, p: Pending, y: seq<Entry>, e: Entry)
    requires Tracks(x, seg, p) && Around(y, [e]) && Small(y[0], e) && e.typ.size > 0
    ensures Tracks(x + y, seg + SmallPiece(p, y[0], e).written, SmallPiece(p, y[0], e).p)
  {
    FlushTracks(x, seg, p, Flushed(p));
    if e.count == 1 && e.extent == e.typ.size {
      var r := [Elem(e.typ, false, y[0].loops, e.disp, y[0].extent)];
      StridedReplaces(y, e);
      WriteTracks(x, seg + Emit(p), Flushed(p), y, r);
      Associate(seg, Emit(p), r);
    } else {
      var r := Unrolled(e, y[0].loops, y[0].extent);
      UnrolledReplaces(y, e);
      WriteTracks(x, seg + Emit(p), Flushed(p), y, r);
      Associate(seg, Emit(p), r);
    }
  }

  // ---------------------------------------------------------------- nesting

  /** A stack entry: index of the first entry written inside the loop (-1 at the bottom), displacement. */
  datatype Frame = Frame(index: int, disp: int)

  /** The open loops, innermost first: the LOOP entry written for each, the output before it inside the
      enclosing loop, and the input position of the loop. */
  datatype Context = Bottom | In(outer: Context, before: seq<Entry>, opening: Entry, at: nat)

  /** Output up to and including the innermost open LOOP. */
  function Out(c: Context): seq<Entry> {
    match c
    case Bottom => []
    case In(outer, before, opening, _) => Out(outer) + before + [opening]
  }

  /** The stack. */
  function Frames(c: Context): seq<Frame> {
    match c
    case Bottom => [Frame(-1, 0)]
    case In(outer, _, _, _) => Frames(outer) + [Frame(|Out(c)|, 0)]
  }

  /** The input positions of the innermost open body: where it starts, and where its END_LOOP is. */
  function Start(c: Context): nat { if c.Bottom? then 0 else c.at + 1 }

  function Stop(d: seq<Entry>, used: nat, c: Context): nat {
    if c.In? && c.at < |d| && d[c.at].Loop? then c.at + d[c.at].items else used
  }

  /** Loop l of d is a plain loop in the innermost body of c. */
  ghost predicate Inside(d: seq<Entry>, used: nat, c: Context, l: nat) {
    && Start(c) <= l < Stop(d, used, c) <= used < |d| && d[l].Loop? && !d[l].contig
    && l + d[l].items < Stop(d, used, c) && Tame(d[l..Stop(d, used, c)]) && d[Stop(d, used, c)].EndLoop?
  }

  /** What was written outside the innermost body stands for what was read. */
  ghost predicate Open(d: seq<Entry>, used: nat, c: Context)
    decreases c
  {
    c.In? ==>
      && Open(d, used, c.outer) && Inside(d, used, c.outer, c.at)
      && c.opening.Loop? && c.opening == Loop(false, d[c.at].loops, c.opening.items, d[c.at].extent)
      && Replaces(c.before, d[Start(c.outer)..c.at]) && |Out(c)| <= c.at + 1
  }

  /** The optimizer's state: Out(c) + seg is the output so far, seg the part of it inside the innermost
      open loop; pos is the input position and p the pending run. */
  datatype State = State(c: Context, seg: seq<Entry>, pos: nat, p: Pending)

  ghost predicate Inv(d: seq<Entry>, used: nat, st: State) {
    && Open(d, used, st.c)
    && Start(st.c) <= st.pos <= Stop(d, used, st.c) <= used < |d| && d[Stop(d, used, st.c)].EndLoop?
    && Tame(d[st.pos..Stop(d, used, st.c)])
    && Tracks(d[Start(st.c)..st.pos], st.seg, st.p)
    && |Out(st.c)| + |st.seg| + |Emit(st.p)| <= st.pos
  }

  /** The first item of a tame description, on its own. */
  lemma TameFirst(s: seq<Entry>)
    requires s != [] && TameHead(s) && HeadLen(s) <= |s|
    ensures HeadLen(s[..HeadLen(s)]) == HeadLen(s) && TameHead(s[..HeadLen(s)])
  {
    var y := s[..HeadLen(s)];
    if s[0].Loop? {
      assert y[1..s[0].items] == s[1..s[0].items];
      if s[0].contig { FirstNonLoopPrefix(s, HeadLen(s)); }
    }
  }

  /** The item at the input position, and what the rest of the level looks like. */
  lemma ItemAt(d: seq<Entry>, pos: nat, e: nat) returns (y: seq<Entry>)
    requires pos < e <= |d| && Tame(d[pos..e])
    ensures !d[pos].EndLoop? && y != [] && |y| == HeadLen(y) && pos + |y| <= e && y == d[pos..pos + |y|]
    ensures y[0] == d[pos]
    ensures TameHead(y) && Tame(d[pos + |y|..e])
  {
    var s := d[pos..e];
    y := s[..HeadLen(s)];
    TameFirst(s);
    assert y == d[pos..pos + |y|];
    assert s[HeadLen(s)..] == d[pos + |y|..e];
  }

  /** y comes next in the body being processed. */
  ghost predicate Ahead(d: seq<Entry>, used: nat, st: State, y: seq<Entry>) {
    && st.pos + |y| <= Stop(d, used, st.c) <= |d| && y == d[st.pos..st.pos + |y|]
    && Tame(d[st.pos + |y|..Stop(d, used, st.c)])
  }

  function After(st: State, piece: Piece, pos: nat): State {
    State(st.c, st.seg + piece.written, pos, piece.p)
  }

  /** Consuming y = d[pos..pos + |y|] at the innermost level. */
  lemma Advance(d: seq<Entry>, used: nat, st: State, y: seq<Entry>, piece: Piece)
    requires Inv(d, used, st)
    requires Ahead(d, used, st, y)
    requires Tracks(d[Start(st.c)..st.pos] + y, st.seg + piece.written, piece.p)
    requires |piece.written| + |Emit(piece.p)| <= |Emit(st.p)| + |y|
    ensures Inv(d, used, After(st, piece, st.pos + |y|))
  {
    hide Tame, Nested, Open, Bytes;
    SliceAppend(d, Start(st.c), st.pos, st.pos + |y|);
  }

  /** The item at the input position. */
  lemma Current(d: seq<Entry>, used: nat, st: State) returns (y: seq<Entry>)
    requires Inv(d, used, st) && !d[st.pos].EndLoop?
    ensures y != [] && |y| == HeadLen(y) && TameHead(y) && y[0] == d[st.pos]
    ensures Ahead(d, used, st, y)
    ensures y[0].Loop? && y[0].contig ==> |y| >= 3 && Block(y)
  {
    hide Nested, Open, Bytes;
    y := ItemAt(d, st.pos, Stop(d, used, st.c));
  }

  lemma CurrentElem(d: seq<Entry>, used: nat, st: State)
    requires Inv(d, used, st) && d[st.pos].Elem?
    ensures Ahead(d, used, st, [d[st.pos]])
    ensures d[st.pos].typ.size > 0 && (d[st.pos].count > 1 ==> d[st.pos].extent == d[st.pos].typ.size)
  {
    var y := Current(d, used, st);
    assert y == [d[st.pos]];
  }

  /** A loop entry as it is first written; its item count is patched when the loop is closed. */
  function Opening(e: Entry): Entry
    requires e.Loop?
  {
    Loop(false, e.loops, e.items, e.extent)
  }

  function Entered(d: seq<Entry>, st: State): State
    requires st.pos < |d| && d[st.pos].Loop?
  {
    State(In(st.c, st.seg, Opening(d[st.pos]), st.pos), [], st.pos + 1, st.p)
  }

  /** The body of the loop at the input position. */
  lemma LoopAt(d: seq<Entry>, used: nat, st: State)
    requires Inv(d, used, st) && d[st.pos].Loop?
    ensures st.pos < Stop(d, used, st.c) && st.pos + d[st.pos].items < Stop(d, used, st.c) && d[st.pos].items >= 1
    ensures d[st.pos + d[st.pos].items].EndLoop? && Tame(d[st.pos + 1..st.pos + d[st.pos].items])
  {
    hide Tame, Nested, Bytes, Open;
    var y := Current(d, used, st);
    SliceOfSlice(d, st.pos, st.pos + |y|, 1, d[st.pos].items);
  }

  lemma EnterOpen(d: seq<Entry>, used: nat, st: State)
    requires Inv(d, used, st) && d[st.pos].Loop? && !d[st.pos].contig && st.p.len == 0
    requires st.pos < Stop(d, used, st.c) && st.pos + d[st.pos].items < Stop(d, used, st.c)
    ensures Open(d, used, Entered(d, st).c)
  {
    NothingPending(d[Start(st.c)..st.pos], st.seg, st.p.disp);
  }

  lemma EnterTracks(d: seq<Entry>, pos: nat, p: Pending)
    requires p.len == 0 && pos <= |d|
    ensures Tracks(d[pos..pos], [], p)
  {
    assert d[pos..pos] == [];
    NothingPending([], [], p.disp);
  }

  lemma EnterInv(d: seq<Entry>, used: nat, st: State)
    requires Inv(d, used, st) && d[st.pos].Loop? && !d[st.pos].contig && st.p.len == 0
    ensures Inv(d, used, Entered(d, st))
  {
    hide Nested, Bytes;
    LoopAt(d, used, st);
    EnterOpen(d, used, st);
    EnterTracks(d, st.pos + 1, st.p);
  }

  /** A closed loop: its LOOP with the item count patched in, the body, and its END_LOOP. */
  function Bracket(e: Entry, body: seq<Entry>, end: Entry): seq<Entry>
    requires e.Loop? && end.EndLoop?
  {
    [Loop(e.contig, e.loops, |body| + 1, e.extent)] + body + [EndLoop(|body| + 1, end.first, end.size)]
  }

  /** The innermost loop closed. */
  function Closed(d: seq<Entry>, st: State): State
    requires st.c.In? && st.c.opening.Loop? && st.pos < |d| && d[st.pos].EndLoop?
  {
    State(st.c.outer, st.c.before + Bracket(st.c.opening, st.seg, d[st.pos]), st.pos + 1, st.p)
  }

  /** An END_LOOP at the input position closes the innermost body. */
  lemma AtStop(d: seq<Entry>, used: nat, st: State)
    requires Inv(d, used, st) && d[st.pos].EndLoop?
    ensures st.pos == Stop(d, used, st.c)
  {
    if st.pos < Stop(d, used, st.c) {
      var y := ItemAt(d, st.pos, Stop(d, used, st.c));
    }
  }

  lemma ReplacesAppend(a: seq<Entry>, x: seq<Entry>, b: seq<Entry>, y: seq<Entry>)
    requires Replaces(a, x) && Replaces(b, y)
    ensures Replaces(a + b, x + y)
  {
    BytesAppend(a, b, ByBlock);
    BytesAppend(x, y, ByBlock);
  }

  lemma BracketReplaces(e: Entry, seg: seq<Entry>, end: Entry, z: seq<Entry>, body: seq<Entry>)
    requires e.Loop? && !e.contig && end.EndLoop? && Around(z, body) && Replaces(seg, body)
    requires e.loops == z[0].loops && e.extent == z[0].extent
    ensures Replaces(Bracket(e, seg, end), z)
  {
    var y := Bracket(e, seg, end);
    assert y[1..|y| - 1] == seg;
    AroundReplaces(y, seg, z, body);
  }

  lemma CloseReplaces(d: seq<Entry>, used: nat, st: State)
    requires Inv(d, used, st) && st.pos == Stop(d, used, st.c) && st.c.In? && st.p.len == 0
    ensures Replaces(Bracket(st.c.opening, st.seg, d[st.pos]), d[st.c.at..st.pos + 1])
  {
    hide Tame, Nested, Bytes;
    var z, body := d[st.c.at..st.pos + 1], d[st.c.at + 1..st.pos];
    NothingPending(body, st.seg, st.p.disp);
    SliceOfSlice(d, st.c.at, st.pos + 1, 1, |z| - 1);
    BracketReplaces(st.c.opening, st.seg, d[st.pos], z, body);
  }

  /** What follows a loop in the body around it. */
  lemma AfterLoop(d: seq<Entry>, used: nat, c: Context, l: nat)
    requires Inside(d, used, c, l)
    ensures Tame(d[l + d[l].items + 1..Stop(d, used, c)])
  {
    var y := ItemAt(d, l, Stop(d, used, c));
  }

  lemma CloseInv(d: seq<Entry>, used: nat, st: State)
    requires Inv(d, used, st) && d[st.pos].EndLoop? && st.c.In? && st.p.len == 0
    ensures Inv(d, used, Closed(d, st))
  {
    hide Tame, Nested, Bytes;
    AtStop(d, used, st);
    CloseReplaces(d, used, st);
    AfterLoop(d, used, st.c.outer, st.c.at);
    var from := Start(st.c.outer);
    ReplacesAppend(st.c.before, d[from..st.c.at], Bracket(st.c.opening, st.seg, d[st.pos]), d[st.c.at..st.pos + 1]);
    SliceAppend(d, from, st.c.at, st.pos + 1);
    NothingPending(d[from..st.pos + 1], Closed(d, st).seg, st.p.disp);
  }

  lemma DataInv(d: seq<Entry>, used: nat, st: State)
    requires Inv(d, used, st) && d[st.pos].Elem?
    ensures Inv(d, used, After(st, DataPiece(st.p, d[st.pos]), st.pos + 1))
  {
    hide Tame, Nested, Open, Bytes;
    CurrentElem(d, used, st);
    DataTracks(d[Start(st.c)..st.pos], st.seg, st.p, d[st.pos]);
    Advance(d, used, st, [d[st.pos]], DataPiece(st.p, d[st.pos]));
  }

  /** The CONTIGUOUS loop at the input position, its END_LOOP and its first data entry. */
  lemma BlockAt(d: seq<Entry>, used: nat, st: State) returns (y: seq<Entry>)
    requires Inv(d, used, st) && d[st.pos].Loop? && d[st.pos].contig
    ensures Block(y) && |y| >= 3 && Ahead(d, used, st, y) && |y| == d[st.pos].items + 1 && y[0] == d[st.pos]
    ensures st.pos + |y| <= used && y[|y| - 1] == d[st.pos + d[st.pos].items] && y[|y| - 1].EndLoop?
    ensures st.pos + FirstNonLoop(d[st.pos..]) < |d| && d[st.pos + FirstNonLoop(d[st.pos..])].Elem?
    ensures d[st.pos + FirstNonLoop(d[st.pos..])].disp == y[|y| - 1].first
  {
    hide Tame, Nested, Bytes, Open;
    y := Current(d, used, st);
    assert y == d[st.pos..][..|y|];
    FirstNonLoopPrefix(d[st.pos..], |y|);
  }

  lemma ContigInv(d: seq<Entry>, used: nat, st: State)
    requires Inv(d, used, st) && d[st.pos].Loop? && d[st.pos].contig
    ensures st.pos + d[st.pos].items < used && d[st.pos + d[st.pos].items].EndLoop? && d[st.pos].loops >= 1
    ensures st.pos + FirstNonLoop(d[st.pos..]) < |d| && d[st.pos + FirstNonLoop(d[st.pos..])].Elem?
    ensures d[st.pos + FirstNonLoop(d[st.pos..])].disp == d[st.pos + d[st.pos].items].first
    ensures |Out(st.c)| + |st.seg| + |ContigPiece(st.p, d[st.pos], d[st.pos + d[st.pos].items]).written| <= used
    ensures Inv(d, used, After(st, ContigPiece(st.p, d[st.pos], d[st.pos + d[st.pos].items]),
                st.pos + d[st.pos].items + 1))
  {
    hide Tame, Nested, Open, Bytes;
    var y := BlockAt(d, used, st);
    ContigPieceTracks(d[Start(st.c)..st.pos], st.seg, st.p, y);
    Advance(d, used, st, y, ContigPiece(st.p, y[0], y[|y| - 1]));
  }

  lemma SmallBody(y: seq<Entry>)
    requires y != [] && y[0].Loop? && !y[0].contig && y[0].items == 2 && HeadLen(y) == |y| && TameHead(y)
    ensures |y| == 3 && Around(y, [y[1]]) && y[1].Elem? && y[1].typ.size > 0
  {
    assert y[1..2] == [y[1]];
    assert Tame([y[1]]) && TameHead([y[1]]);
  }

  /** The loop at the input position, when it is rewritten. */
  lemma SmallInv(d: seq<Entry>, used: nat, st: State)
    requires Inv(d, used, st) && d[st.pos].Loop? && !d[st.pos].contig && st.pos + 1 < |d|
    requires Small(d[st.pos], d[st.pos + 1])
    ensures st.pos + 2 < used && |Out(st.c)| + |st.seg| + |SmallPiece(st.p, d[st.pos], d[st.pos + 1]).written| <= used
    ensures Inv(d, used, After(st, SmallPiece(st.p, d[st.pos], d[st.pos + 1]), st.pos + 3))
  {
    hide Tame, Nested, Open, Bytes;
    var y := Current(d, used, st);
    var e := d[st.pos + 1];
    SmallBody(y);
    SmallPieceTracks(d[Start(st.c)..st.pos], st.seg, st.p, y, e);
    Advance(d, used, st, y, SmallPiece(st.p, y[0], e));
  }

  /** The pending run written. */
  function Wrote(st: State): State { State(st.c, st.seg + Emit(st.p), st.pos, Flushed(st.p)) }

  lemma WroteInv(d: seq<Entry>, used: nat, st: State)
    requires Inv(d, used, st)
    ensures Inv(d, used, Wrote(st))
  {
    FlushTracks(d[Start(st.c)..st.pos], st.seg, st.p, Flushed(st.p));
  }

  lemma PlainInv(d: seq<Entry>, used: nat, st: State)
    requires Inv(d, used, st) && d[st.pos].Loop? && !d[st.pos].contig
    ensures |Out(st.c)| + |st.seg| + |Emit(st.p)| < used && Inv(d, used, Entered(d, Wrote(st)))
  {
    WroteInv(d, used, st);
    EnterInv(d, used, Wrote(st));
  }

  lemma EndInv(d: seq<Entry>, used: nat, st: State)
    requires Inv(d, used, st) && d[st.pos].EndLoop?
    ensures st.c.In? ==> st.pos < used && st.c.opening.Loop? && Inv(d, used, Closed(d, Wrote(st)))
    ensures st.c.Bottom? ==> st.pos == used && Replaces(st.seg + Emit(st.p), d[..used])
  {
    WroteInv(d, used, st);
    if st.c.In? {
      CloseInv(d, used, Wrote(st));
    } else {
      AtStop(d, used, st);
      assert d[0..used] == d[..used];
      NothingPending(d[..used], st.seg + Emit(st.p), Flushed(st.p).disp);
    }
  }

  // ---------------------------------------------------------------- truth of the output

  /** Where the data just before a position ends, if there is any right before it in the same body. */
  datatype Touch = Apart | Touches(at: int)

  function TouchData(t: Touch, e: Entry): Touch
    requires e.Elem?
  {
    if e.count > 0 then Touches(e.disp + Times(e.count, e.typ.size))
    else if t.Touches? && e.contig && t.at == e.disp && e.extent == e.typ.size then t
    else Apart
  }

  function TouchWhole(t: Touch, loop: Entry, end: Entry): Touch
    requires loop.Loop? && end.EndLoop?
  {
    if Times(loop.loops, end.size) > 0 then Touches(end.first + Times(loop.loops, end.size))
    else if t.Touches? && t.at == end.first then t
    else Apart
  }

  /** A CONTIGUOUS loop with gaps that continues the data before it and has three blocks left after the
      first one was merged: it is written with an END_LOOP that no longer matches its body. */
  predicate MergesHere(t: Touch, loop: Entry, end: Entry)
    requires loop.Loop? && end.EndLoop?
  {
    t.Touches? && t.at == end.first && loop.loops >= 4 && loop.extent != 0 && end.size != 0
  }

  /** Some such loop is in description s, which follows data that ends at t. */
  ghost predicate Merges(s: seq<Entry>, t: Touch)
    decreases |s|
  {
    if s == [] || HeadLen(s) > |s| then false else
      match s[0]
      case Elem(_, _, _, _, _) => Merges(s[1..], TouchData(t, s[0]))
      case Loop(contig, loops, items, extent) =>
        if items == 0 || !s[items].EndLoop? then false
        else if !contig then Merges(s[1..items], Apart) || Merges(s[items + 1..], Apart)
        else if extent == s[items].size then Merges(s[items + 1..], TouchWhole(t, s[0], s[items]))
        else MergesHere(t, s[0], s[items]) || Merges(s[items + 1..], Apart)
      case EndLoop(_, _, _) => false
  }

  function Tail(p: Pending): Touch { if p.len == 0 then Apart else Touches(p.disp + RunLen(p)) }

  lemma {:induction false} TimesPositive(n: nat, m: nat)
    ensures Times(n, m) > 0 <==> n > 0 && m > 0
  {
    if n > 0 { TimesPositive(n - 1, m); }
  }

  lemma DataTail(p: Pending, e: Entry)
    requires Compact(p) && e.Elem? && e.typ.size > 0
    ensures Tail(DataPiece(p, e).p) == TouchData(Tail(p), e)
  {
    TimesPositive(p.len, p.typ.size);
    TimesPositive(e.count, e.typ.size);
    AbsorbLen(p, e);
  }

  lemma WholeTail(p: Pending, loop: Entry, end: Entry)
    requires Compact(p) && loop.Loop? && end.EndLoop?
    ensures Tail(WholePiece(p, loop, end).p) == TouchWhole(Tail(p), loop, end)
  {
    TimesPositive(p.len, p.typ.size);
    TimesOne(RunLen(p) + Times(loop.loops, end.size));
    TimesOne(Times(loop.loops, end.size));
  }

  lemma FlushedTail(p: Pending)
    ensures Tail(Flushed(p)) == Apart
  {
  }

  lemma EmitSound(p: Pending, care: Care)
    requires Compact(p)
    ensures Nested(Emit(p)) && Sound(Emit(p), care)
  {
    hide Sound;
    EmitBytes(p);
    if p.len == 0 { NoSound(care); } else { SoundElem(Emit(p)[0], care); }
  }

  lemma SameRange(a: int, b: int, n: nat)
    ensures Range(a, n) == Range(b, n) <==> n == 0 || a == b
  {
    if n > 0 { assert Range(a, n)[0] == a && Range(b, n)[0] == b; }
  }

  /** A remaining loop tells the truth if its body was not left behind. */
  lemma RemainderSound(n: nat, at: int, extent: int, size: nat, inner: int, care: Care)
    ensures Nested(Remainder(n, at, extent, size, inner))
    ensures Sound(Remainder(n, at, extent, size, inner), care)
         <==> n <= 2 || care != Truthful || size == 0 || inner == at
  {
    hide Sound, Bytes, Nested;
    RemainderMeans(n, at, extent, size, inner);
    var r := Remainder(n, at, extent, size, inner);
    if n == 0 {
      NoSound(care);
    } else if n == 1 {
      SoundElem(r[0], care);
    } else if n == 2 {
      SoundElem(Elem(UINT1, true, size, at, 1), care);
      SoundElem(Elem(UINT1, true, size, at + extent, 1), care);
      RunElem(size, at);
      SoundAppend([Elem(UINT1, true, size, at, 1)], [Elem(UINT1, true, size, at + extent, 1)], care);
    } else {
      var e := Elem(UINT1, true, size, inner, 1);
      assert r[1..2] == [e];
      SoundElem(e, care);
      ElemEither(e);
      RunElem(size, inner);
      SameRange(inner, at, size);
      SoundSingle(r, care);
    }
  }

  /** A data entry means the same under both readings. */
  lemma ElemEither(e: Entry)
    requires e.Elem?
    ensures Bytes([e], ByBody) == Bytes([e], ByBlock)
  {
    SingleElem(e, 0, ByBody);
    SingleElem(e, 0, ByBlock);
  }

  lemma GappedSound(p: Pending, loop: Entry, end: Entry, care: Care)
    requires Compact(p) && loop.Loop? && end.EndLoop? && loop.loops >= 1
    ensures Sound(GappedPiece(p, loop, end).written, care) <==> !(care == Truthful && MergesHere(Tail(p), loop, end))
    ensures Tail(GappedPiece(p, loop, end).p) == Apart
  {
    hide Sound, Nested, Bytes;
    if p.len != 0 && Continues(p, end.first) {
      var run := Merged(p, end.size);
      TimesOne(RunLen(p) + end.size);
      EmitSound(run, care);
      RemainderSound(loop.loops - 1, end.first + loop.extent, loop.extent, end.size, end.first, care);
      SoundAppend(Emit(run), Remainder(loop.loops - 1, end.first + loop.extent, loop.extent, end.size, end.first),
          care);
    } else {
      EmitSound(p, care);
      RemainderSound(loop.loops, end.first, loop.extent, end.size, end.first, care);
      SoundAppend(Emit(p), Remainder(loop.loops, end.first, loop.extent, end.size, end.first), care);
    }
  }

  ghost predicate SoundContext(c: Context, care: Care) {
    c.In? ==> SoundContext(c.outer, care) && Sound(c.before, care)
  }

  /** Such a loop is still ahead in an enclosing body. */
  ghost predicate MergesOutside(d: seq<Entry>, used: nat, c: Context) {
    && c.In? && Stop(d, used, c) + 1 <= Stop(d, used, c.outer) <= |d|
    && (Merges(d[Stop(d, used, c) + 1..Stop(d, used, c.outer)], Apart) || MergesOutside(d, used, c.outer))
  }

  ghost predicate MergesAhead(d: seq<Entry>, used: nat, st: State) {
    st.pos <= Stop(d, used, st.c) <= |d| && Merges(d[st.pos..Stop(d, used, st.c)], Tail(st.p))
  }

  /** The output so far is sound and nothing ahead will change that. */
  ghost predicate Fair(d: seq<Entry>, used: nat, st: State, care: Care) {
    && SoundContext(st.c, care) && Sound(st.seg, care)
    && (care == Truthful ==> !MergesAhead(d, used, st) && !MergesOutside(d, used, st.c))
  }

  /** A step inside a body keeps the balance: what it writes is sound exactly if it was not to merge. */
  lemma FairStep(d: seq<Entry>, used: nat, st: State, piece: Piece, pos: nat, care: Care)
    requires Nested(st.seg)
    requires if care != Truthful then Sound(piece.written, care)
      else (Sound(piece.written, care) && !MergesAhead(d, used, After(st, piece, pos))) <==> !MergesAhead(d, used, st)
    ensures Fair(d, used, After(st, piece, pos), care) <==> Fair(d, used, st, care)
  {
    hide Sound, Nested, MergesAhead, MergesOutside, SoundContext;
    SoundAppend(st.seg, piece.written, care);
  }

  /** What Inv says about the output of the innermost body. */
  lemma InvParts(d: seq<Entry>, used: nat, st: State)
    requires Inv(d, used, st)
    ensures Nested(st.seg) && Compact(st.p) && st.pos <= Stop(d, used, st.c) <= used < |d|
  {
  }

  lemma MergesElem(s: seq<Entry>, t: Touch)
    requires s != [] && s[0].Elem?
    ensures Merges(s, t) <==> Merges(s[1..], TouchData(t, s[0]))
  {
  }

  lemma DataFair(d: seq<Entry>, used: nat, st: State, care: Care)
    requires Inv(d, used, st) && d[st.pos].Elem?
    ensures Fair(d, used, After(st, DataPiece(st.p, d[st.pos]), st.pos + 1), care) <==> Fair(d, used, st, care)
  {
    hide Sound, Nested, Merges, Tame, Open, Tracks, Inv, Fair;
    InvParts(d, used, st);
    CurrentElem(d, used, st);
    var e, stop := d[st.pos], Stop(d, used, st.c);
    DataTail(st.p, e);
    EmitSound(st.p, care);
    NoSound(care);
    MergesElem(d[st.pos..stop], Tail(st.p));
    SliceOfSlice(d, st.pos, stop, 1, stop - st.pos);
    assert d[st.pos..stop][1..stop - st.pos] == d[st.pos..stop][1..];
    FairStep(d, used, st, DataPiece(st.p, e), st.pos + 1, care);
  }

  lemma MergesBlock(s: seq<Entry>, t: Touch)
    requires s != [] && s[0].Loop? && s[0].contig && 1 <= s[0].items < |s| && s[s[0].items].EndLoop?
    ensures s[0].extent == s[s[0].items].size ==>
      (Merges(s, t) <==> Merges(s[s[0].items + 1..], TouchWhole(t, s[0], s[s[0].items])))
    ensures s[0].extent != s[s[0].items].size ==>
      (Merges(s, t) <==> MergesHere(t, s[0], s[s[0].items]) || Merges(s[s[0].items + 1..], Apart))
  {
  }

  /** The rest of the innermost body. */
  lemma RestOf(d: seq<Entry>, pos: nat, stop: nat, k: nat)
    requires pos + k <= stop <= |d|
    ensures d[pos..stop][k..] == d[pos + k..stop]
  {
    SliceOfSlice(d, pos, stop, k, stop - pos);
    assert d[pos..stop][k..stop - pos] == d[pos..stop][k..];
  }

  lemma ContigFair(d: seq<Entry>, used: nat, st: State, care: Care)
    requires Inv(d, used, st) && d[st.pos].Loop? && d[st.pos].contig
    requires st.pos + d[st.pos].items < |d| && d[st.pos + d[st.pos].items].EndLoop? && d[st.pos].loops >= 1
    ensures Fair(d, used, st, care)
       <==> Fair(d, used, After(st, ContigPiece(st.p, d[st.pos], d[st.pos + d[st.pos].items]),
                                st.pos + d[st.pos].items + 1), care)
  {
    hide Sound, Nested, Merges, Tame, Open, Tracks, Inv, Fair, Remainder;
    InvParts(d, used, st);
    LoopAt(d, used, st);
    var loop, end, stop := d[st.pos], d[st.pos + d[st.pos].items], Stop(d, used, st.c);
    var s := d[st.pos..stop];
    assert s[0] == loop && s[loop.items] == end;
    MergesBlock(s, Tail(st.p));
    RestOf(d, st.pos, stop, loop.items + 1);
    if loop.extent == end.size {
      WholeTail(st.p, loop, end);
      EmitSound(st.p, care);
      NoSound(care);
    } else {
      GappedSound(st.p, loop, end, care);
    }
    FairStep(d, used, st, ContigPiece(st.p, loop, end), st.pos + loop.items + 1, care);
  }

  lemma MergesPlain(s: seq<Entry>, t: Touch)
    requires s != [] && s[0].Loop? && !s[0].contig && 1 <= s[0].items < |s| && s[s[0].items].EndLoop?
    ensures Merges(s, t) <==> Merges(s[1..s[0].items], Apart) || Merges(s[s[0].items + 1..], Apart)
  {
  }

  lemma MergesOne(e: Entry, t: Touch)
    requires e.Elem?
    ensures !Merges([e], t)
  {
    assert [e][1..] == [];
  }

  lemma {:induction false} UnrolledSound(e: Entry, n: nat, extent: int, care: Care)
    requires e.Elem? && e.typ.size > 0
    ensures Sound(Unrolled(e, n, extent), care) && Nested(Unrolled(e, n, extent))
    decreases n
  {
    hide Sound, Nested, NestedHead;
    NoSound(care);
    NoUnits(0, ByBlock);
    if n > 0 {
      var f := e.(disp := e.disp + extent);
      UnrolledSound(f, n - 1, extent, care);
      SingleElem(e, 0, ByBlock);
      SoundElem(e, care);
      SoundAppend([e], Unrolled(f, n - 1, extent), care);
      NestedAppend([e], Unrolled(f, n - 1, extent));
    }
  }

  lemma SmallSound(p: Pending, loop: Entry, e: Entry, care: Care)
    requires Compact(p) && loop.Loop? && Small(loop, e) && e.typ.size > 0
    ensures Sound(SmallPiece(p, loop, e).written, care) && Tail(SmallPiece(p, loop, e).p) == Apart
  {
    hide Sound, Nested;
    EmitSound(p, care);
    SoundElem(Elem(e.typ, false, loop.loops, e.disp, loop.extent), care);
    UnrolledSound(e, loop.loops, loop.extent, care);
    SoundAppend(Emit(p), [Elem(e.typ, false, loop.loops, e.disp, loop.extent)], care);
    SoundAppend(Emit(p), Unrolled(e, loop.loops, loop.extent), care);
  }

  lemma SmallFair(d: seq<Entry>, used: nat, st: State, care: Care)
    requires Inv(d, used, st) && d[st.pos].Loop? && !d[st.pos].contig && st.pos + 1 < |d|
    requires Small(d[st.pos], d[st.pos + 1])
    ensures Fair(d, used, After(st, SmallPiece(st.p, d[st.pos], d[st.pos + 1]), st.pos + 3), care)
         <==> Fair(d, used, st, care)
  {
    hide Sound, Nested, Merges, Tame, Open, Tracks, Inv, Fair, SmallPiece;
    InvParts(d, used, st);
    LoopAt(d, used, st);
    var y := Current(d, used, st);
    SmallBody(y);
    var loop, e, stop := d[st.pos], d[st.pos + 1], Stop(d, used, st.c);
    var s := d[st.pos..stop];
    assert s[1..2] == [e];
    MergesPlain(s, Tail(st.p));
    MergesOne(e, Apart);
    RestOf(d, st.pos, stop, 3);
    SmallSound(st.p, loop, e, care);
    FairStep(d, used, st, SmallPiece(st.p, loop, e), st.pos + 3, care);
  }

  /** Every loop of the input runs at least once. */
  predicate Positive(d: seq<Entry>, used: nat) {
    forall i :: 0 <= i < used <= |d| && d[i].Loop? ==> d[i].loops >= 1
  }

  lemma WroteSound(st: State, care: Care)
    requires Nested(st.seg) && Compact(st.p)
    ensures Nested(st.seg + Emit(st.p)) && (Sound(st.seg + Emit(st.p), care) <==> Sound(st.seg, care))
  {
    hide Sound, Nested;
    EmitSound(st.p, care);
    NestedAppend(st.seg, Emit(st.p));
    SoundAppend(st.seg, Emit(st.p), care);
  }

  lemma EnterFair(d: seq<Entry>, used: nat, st: State, care: Care)
    requires Inv(d, used, st) && d[st.pos].Loop? && !d[st.pos].contig
    ensures Fair(d, used, Entered(d, Wrote(st)), care) <==> Fair(d, used, st, care)
  {
    hide Sound, Nested, Merges, Tame, Open, Tracks, Inv;
    InvParts(d, used, st);
    LoopAt(d, used, st);
    var items, stop := d[st.pos].items, Stop(d, used, st.c);
    var s := d[st.pos..stop];
    assert s[0] == d[st.pos] && s[items] == d[st.pos + items];
    MergesPlain(s, Tail(st.p));
    RestOf(d, st.pos, stop, items + 1);
    SliceOfSlice(d, st.pos, stop, 1, items);
    WroteSound(st, care);
    NoSound(care);
    FlushedTail(st.p);
  }

  lemma BracketSound(e: Entry, body: seq<Entry>, end: Entry, care: Care)
    requires e.Loop? && !e.contig && e.loops >= 1 && end.EndLoop? && Nested(body)
    ensures Nested(Bracket(e, body, end)) && (Sound(Bracket(e, body, end), care) <==> Sound(body, care))
  {
    hide Sound, Nested;
    var y := Bracket(e, body, end);
    assert y[1..|y| - 1] == body;
    SoundSingle(y, care);
    SingleHead(y, 0, ByBlock);
  }

  /** What Inv says about the enclosing body. */
  lemma OuterParts(d: seq<Entry>, used: nat, st: State)
    requires Inv(d, used, st) && st.c.In?
    ensures Nested(st.c.before) && st.c.at < used && d[st.c.at].Loop?
    ensures Stop(d, used, st.c) < Stop(d, used, st.c.outer) <= used
    ensures st.c.opening.Loop? && !st.c.opening.contig && st.c.opening.loops == d[st.c.at].loops
  {
  }

  lemma CloseFair(d: seq<Entry>, used: nat, st: State, care: Care)
    requires Inv(d, used, st) && d[st.pos].EndLoop? && st.c.In? && st.c.opening.Loop? && Positive(d, used)
    ensures Fair(d, used, Closed(d, Wrote(st)), care) <==> Fair(d, used, st, care)
  {
    hide Sound, Nested, Merges, Tame, Open, Tracks, Inv;
    InvParts(d, used, st);
    OuterParts(d, used, st);
    AtStop(d, used, st);
    WroteSound(st, care);
    var body := st.seg + Emit(st.p);
    BracketSound(st.c.opening, body, d[st.pos], care);
    SoundAppend(st.c.before, Bracket(st.c.opening, body, d[st.pos]), care);
    FlushedTail(st.p);
    NothingAhead(d, st.pos, Tail(st.p));
  }

  lemma NothingAhead(d: seq<Entry>, pos: nat, t: Touch)
    requires pos <= |d|
    ensures !Merges(d[pos..pos], t)
  {
  }

  lemma StartFair(d: seq<Entry>, used: nat, care: Care)
    requires used < |d|
    ensures Fair(d, used, State(Bottom, [], 0, NOTHING), care)
         <==> care != Truthful || !Merges(d[..used], Apart)
  {
    hide Sound, Merges;
    NoSound(care);
    assert d[0..used] == d[..used];
  }

  lemma DoneFair(d: seq<Entry>, used: nat, st: State, care: Care)
    requires Inv(d, used, st) && d[st.pos].EndLoop? && st.c.Bottom?
    ensures Sound(st.seg + Emit(st.p), care) <==> Fair(d, used, st, care)
  {
    hide Sound, Nested, Merges, Tame, Open, Tracks, Inv;
    InvParts(d, used, st);
    AtStop(d, used, st);
    WroteSound(st, care);
    NothingAhead(d, st.pos, Tail(st.p));
  }

  /** The output will be sound, and truthful exactly if the input has no loop that merges. */
  ghost predicate Balanced(d: seq<Entry>, used: nat, st: State) {
    used <= |d| && (Positive(d, used) ==>
      Fair(d, used, st, Plain) && (Fair(d, used, st, Truthful) <==> !Merges(d[..used], Apart)))
  }

  lemma DataBalanced(d: seq<Entry>, used: nat, st: State)
    requires Inv(d, used, st) && d[st.pos].Elem? && Balanced(d, used, st)
    ensures Balanced(d, used, After(st, DataPiece(st.p, d[st.pos]), st.pos + 1))
  {
    hide Fair, Inv, Merges, After, DataPiece, Positive;
    DataFair(d, used, st, Truthful);
    DataFair(d, used, st, Plain);
  }

  lemma ContigBalanced(d: seq<Entry>, used: nat, st: State)
    requires Inv(d, used, st) && d[st.pos].Loop? && d[st.pos].contig && Balanced(d, used, st)
    requires st.pos + d[st.pos].items < |d| && d[st.pos + d[st.pos].items].EndLoop? && d[st.pos].loops >= 1
    ensures Balanced(d, used, After(st, ContigPiece(st.p, d[st.pos], d[st.pos + d[st.pos].items]),
                st.pos + d[st.pos].items + 1))
  {
    hide Fair, Inv, Merges, After, ContigPiece, Positive;
    ContigFair(d, used, st, Truthful);
    ContigFair(d, used, st, Plain);
  }

  lemma SmallBalanced(d: seq<Entry>, used: nat, st: State)
    requires Inv(d, used, st) && d[st.pos].Loop? && !d[st.pos].contig && st.pos + 1 < |d|
    requires Small(d[st.pos], d[st.pos + 1]) && Balanced(d, used, st)
    ensures Balanced(d, used, After(st, SmallPiece(st.p, d[st.pos], d[st.pos + 1]), st.pos + 3))
  {
    hide Fair, Inv, Merges, After, SmallPiece, Positive;
    SmallFair(d, used, st, Truthful);
    SmallFair(d, used, st, Plain);
  }

  lemma EnterBalanced(d: seq<Entry>, used: nat, st: State)
    requires Inv(d, used, st) && d[st.pos].Loop? && !d[st.pos].contig && Balanced(d, used, st)
    ensures Balanced(d, used, Entered(d, Wrote(st)))
  {
    hide Fair, Inv, Merges, Positive;
    EnterFair(d, used, st, Truthful);
    EnterFair(d, used, st, Plain);
  }

  lemma CloseBalanced(d: seq<Entry>, used: nat, st: State)
    requires Inv(d, used, st) && d[st.pos].EndLoop? && st.c.In? && st.c.opening.Loop? && Balanced(d, used, st)
    ensures Balanced(d, used, Closed(d, Wrote(st)))
  {
    hide Fair, Inv, Merges, Positive;
    if Positive(d, used) {
      CloseFair(d, used, st, Truthful);
      CloseFair(d, used, st, Plain);
    }
  }

  /** How sound the output is, and when its bytes are the same if its CONTIGUOUS loops are entered. */
  ghost predicate Verdict(d: seq<Entry>, used: nat, out: seq<Entry>) {
    used <= |d| && (Positive(d, used) ==>
      && Sound(out, Plain) && (Sound(out, Truthful) <==> !Merges(d[..used], Apart))
      && (Bytes(out, ByBody) == Bytes(out, ByBlock) <==> !Merges(d[..used], Apart)))
  }

  lemma DoneBalanced(d: seq<Entry>, used: nat, st: State)
    requires Inv(d, used, st) && d[st.pos].EndLoop? && st.c.Bottom? && Balanced(d, used, st)
    ensures Verdict(d, used, st.seg + Emit(st.p))
  {
    hide Fair, Inv, Merges, Positive, Sound, Bytes;
    DoneFair(d, used, st, Plain);
    DoneFair(d, used, st, Truthful);
    if Positive(d, used) { TruthShows(st.seg + Emit(st.p)); }
  }

  /** Whether a description is truthful shows in its bytes. */
  lemma TruthShows(s: seq<Entry>)
    requires Sound(s, Plain)
    ensures Sound(s, Truthful) <==> Bytes(s, ByBody) == Bytes(s, ByBlock)
  {
    if Sound(s, Truthful) { EitherReading(s, 0); }
    if Bytes(s, ByBody) == Bytes(s, ByBlock) { SameReading(s, 0); }
  }

  // ---------------------------------------------------------------- the optimizer

  /** The entries that the pass has written when it meets the END_LOOP of the whole description. */
  function Pass(d: seq<Entry>, st: State): seq<Entry>
    decreases |d| - st.pos
  {
    if st.pos >= |d| then []
    else if d[st.pos].EndLoop? then
      if st.c.In? && st.c.opening.Loop? then Pass(d, Closed(d, Wrote(st))) else st.seg + Emit(st.p)
    else if d[st.pos].Elem? then Pass(d, After(st, DataPiece(st.p, d[st.pos]), st.pos + 1))
    else if Contig(d, st.pos) then
      Pass(d, After(st, ContigPiece(st.p, d[st.pos], d[st.pos + d[st.pos].items]), st.pos + d[st.pos].items + 1))
    else if st.pos + 1 < |d| && Small(d[st.pos], d[st.pos + 1]) then
      Pass(d, After(st, SmallPiece(st.p, d[st.pos], d[st.pos + 1]), st.pos + 3))
    else Pass(d, Entered(d, Wrote(st)))
  }

  /** A CONTIGUOUS loop that runs. */
  predicate Contig(d: seq<Entry>, pos: nat) {
    && pos < |d| && d[pos].Loop? && d[pos].contig && d[pos].loops >= 1
    && pos + d[pos].items < |d| && d[pos + d[pos].items].EndLoop?
  }

  lemma PassEnd(d: seq<Entry>, st: State)
    requires st.pos < |d| && d[st.pos].EndLoop?
    ensures st.c.In? && st.c.opening.Loop? ==> Pass(d, st) == Pass(d, Closed(d, Wrote(st)))
    ensures st.c.Bottom? ==> Pass(d, st) == st.seg + Emit(st.p)
  {
  }

  lemma PassData(d: seq<Entry>, st: State)
    requires st.pos < |d| && d[st.pos].Elem?
    ensures Pass(d, st) == Pass(d, After(st, DataPiece(st.p, d[st.pos]), st.pos + 1))
  {
  }

  lemma PassContig(d: seq<Entry>, st: State)
    requires Contig(d, st.pos)
    ensures Pass(d, st) == Pass(d, After(st, ContigPiece(st.p, d[st.pos], d[st.pos + d[st.pos].items]),
                                         st.pos + d[st.pos].items + 1))
  {
  }

  lemma PassPlain(d: seq<Entry>, st: State)
    requires st.pos + 1 < |d| && d[st.pos].Loop? && !d[st.pos].contig
    ensures Pass(d, st) == if Small(d[st.pos], d[st.pos + 1])
                           then Pass(d, After(st, SmallPiece(st.p, d[st.pos], d[st.pos + 1]), st.pos + 3))
                           else Pass(d, Entered(d, Wrote(st)))
  {
  }

  /** The program variables and the output array are those of state st. */
  ghost predicate Ready(d: seq<Entry>, used: nat, out: array<Entry>, nb: nat, pos: nat, stack: seq<Frame>,
          last: Pending, st: State)
    reads out
  {
    && Inv(d, used, st) && Balanced(d, used, st) && pos == st.pos && last == st.p && stack == Frames(st.c)
    && out.Length == 2 * used + 1 && nb <= out.Length && out[..nb] == Out(st.c) + st.seg
  }

  /** The output is complete. */
  ghost predicate Done(d: seq<Entry>, used: nat, out: array<Entry>, nb: nat)
    reads out
  {
    && out.Length == 2 * used + 1 && 1 <= nb <= used + 1 && out[nb - 1].EndLoop?
    && used < |d| && Replaces(out[..nb - 1], d[..used]) && Verdict(d, used, out[..nb - 1])
  }

  method Put(out: array<Entry>, nb: nat, e: Entry) returns (n: nat)
    requires nb < out.Length
    modifies out
    ensures n == nb + 1 && out[..n] == old(out[..nb]) + [e]
  {
    out[nb] := e;
    n := nb + 1;
  }

  /** Writes the pending run, if there is one. */
  method Flush(out: array<Entry>, nb: nat, p: Pending) returns (n: nat)
    requires nb + |Emit(p)| <= out.Length
    modifies out
    ensures n == nb + |Emit(p)| && out[..n] == old(out[..nb]) + Emit(p)
  {
    n := nb;
    if p.len != 0 {
      n := Put(out, nb, Elem(p.typ, true, p.len, p.disp, p.extent));
    }
  }

  /** Writes the remaining blocks of a CONTIGUOUS loop with gaps. */
  method WriteRemainder(out: array<Entry>, nb: nat, blocks: nat, merged: int, loop: Entry, end: Entry, loopDisp: int)
    returns (n: nat)
    requires loop.Loop? && loop.contig && end.EndLoop? && nb + 3 <= out.Length
    modifies out
    ensures n == nb + |Remainder(blocks, end.first + merged, loop.extent, end.size, loopDisp)|
    ensures out[..n] == old(out[..nb]) + Remainder(blocks, end.first + merged, loop.extent, end.size, loopDisp)
  {
    if blocks <= 2 {
      var counter: nat, at: int := blocks, merged + end.first;
      n := nb;
      while counter > 0
        invariant nb <= n && n + counter <= nb + 2
        invariant out[..n] + Remainder(counter, at, loop.extent, end.size, loopDisp)
               == old(out[..nb]) + Remainder(blocks, end.first + merged, loop.extent, end.size, loopDisp)
      {
        assert Remainder(counter, at, loop.extent, end.size, loopDisp)
            == [Elem(UINT1, true, end.size, at, 1)]
               + Remainder(counter - 1, at + loop.extent, loop.extent, end.size, loopDisp);
        n := Put(out, n, Elem(UINT1, true, end.size, at, 1));
        counter, at := counter - 1, at + loop.extent;
      }
      assert out[..n] == old(out[..nb]) + Remainder(blocks, end.first + merged, loop.extent, end.size, loopDisp);
    } else {
      n := Put(out, nb, Loop(loop.contig, blocks, 2, loop.extent));
      n := Put(out, n, Elem(UINT1, true, end.size, loopDisp, 1));
      n := Put(out, n, EndLoop(2, end.first + merged, end.size));
    }
  }

  method GetFirstNonLoop(d: seq<Entry>, pos: nat) returns (k: nat)
    requires pos <= |d|
    ensures k == FirstNonLoop(d[pos..])
  {
    k := 0;
    while pos + k < |d| && d[pos + k].Loop?
      invariant pos + k <= |d| && FirstNonLoop(d[pos..]) == k + FirstNonLoop(d[pos + k..])
    {
      assert d[pos + k..][1..] == d[pos + k + 1..];
      k := k + 1;
    }
  }

  /** Writes a CONTIGUOUS loop. */
  method WriteContig(out: array<Entry>, nb: nat, last: Pending, loop: Entry, end: Entry, loopDisp: int)
    returns (n: nat, p: Pending)
    requires loop.Loop? && loop.contig && loop.loops >= 1 && end.EndLoop? && loopDisp == end.first
    requires nb + 4 <= out.Length
    modifies out
    ensures n == nb + |ContigPiece(last, loop, end).written| && n <= out.Length
    ensures out[..n] == old(out[..nb]) + ContigPiece(last, loop, end).written && p == ContigPiece(last, loop, end).p
  {
    var continuity := last.disp + Times(last.len, last.typ.size) == loopDisp;
    n, p := nb, last;
    if loop.extent == end.size {
      if !continuity {
        n := Flush(out, nb, last);
        p := Pending(p.typ, 0, loopDisp, p.extent);
      }
      p := Pending(UINT1, Times(p.len, p.typ.size) + Times(loop.loops, end.size), p.disp, 1);
    } else {
      var counter: nat, merged: int := loop.loops, 0;
      if p.len != 0 {
        if continuity {
          p := Pending(UINT1, Times(p.len, p.typ.size) + end.size, p.disp, 1);
          counter, merged := counter - 1, loop.extent;
        }
        n := Flush(out, n, p);
        p := Flushed(p);
      }
      n := WriteRemainder(out, n, counter, merged, loop, end, loopDisp);
    }
  }

  /** Writes a small loop as a strided element, or unrolls it. */
  method WriteSmall(out: array<Entry>, nb: nat, last: Pending, loop: Entry, e: Entry) returns (n: nat)
    requires loop.Loop? && Small(loop, e) && nb + 3 <= out.Length
    modifies out
    ensures n == nb + |SmallPiece(last, loop, e).written| && n <= out.Length
    ensures out[..n] == old(out[..nb]) + SmallPiece(last, loop, e).written
  {
    n := Flush(out, nb, last);
    if e.count == 1 && e.extent == e.typ.size {
      n := Put(out, n, Elem(e.typ, false, loop.loops, e.disp, loop.extent));
    } else {
      var i, x := 0, e;
      ghost var all := Emit(last) + Unrolled(e, loop.loops, loop.extent);
      while i < loop.loops
        invariant i <= loop.loops && n == nb + |Emit(last)| + i && x.Elem?
        invariant out[..n] + Unrolled(x, loop.loops - i, loop.extent) == old(out[..nb]) + all
      {
        n := Put(out, n, x);
        i, x := i + 1, x.(disp := x.disp + loop.extent);
      }
      assert out[..n] == old(out[..nb]) + all;
    }
  }

  /** Writes the END_LOOP of the innermost loop, and its item count into its LOOP. */
  method WriteEnd(out: array<Entry>, nb: nat, end: Entry, stack: seq<Frame>, ghost c: Context, ghost body: seq<Entry>)
    returns (n: nat)
    requires nb < out.Length && out[..nb] == Out(c) + body && stack == Frames(c) && end.EndLoop?
    requires c.In? ==> c.opening.Loop?
    modifies out
    ensures n == nb + 1 && out[nb].EndLoop?
    ensures c.In? ==> out[..n] == Out(c.outer) + (c.before + Bracket(c.opening, body, end))
    ensures c.Bottom? ==> out[..nb] == body
  {
    TopFrame(c);
    var top := stack[|stack| - 1];
    n := Put(out, nb, EndLoop(nb - top.index + 1, end.first, end.size));
    assert out[nb] == out[..n][nb];
    if |stack| > 1 {
      assert out[top.index - 1] == out[..n][top.index - 1] == c.opening;
      var e := out[top.index - 1];
      out[top.index - 1] := Loop(e.contig, e.loops, out[nb].items, e.extent);
      Patched(Out(c.outer) + c.before, c.opening, body, end, out[..n]);
      Associate(Out(c.outer), c.before, Bracket(c.opening, body, end));
    }
  }

  lemma TopFrame(c: Context)
    ensures Frames(c) != [] && (|Frames(c)| > 1 <==> c.In?)
    ensures Frames(c)[|Frames(c)| - 1] == Frame(if c.In? then |Out(c)| else -1, 0)
    ensures c.In? ==> Frames(c)[..|Frames(c)| - 1] == Frames(c.outer)
  {
  }

  lemma Patched(a: seq<Entry>, e: Entry, body: seq<Entry>, end: Entry, r: seq<Entry>)
    requires e.Loop? && end.EndLoop? && |r| == |a| + |body| + 2
    requires r == (a + [e] + body + [EndLoop(|body| + 1, end.first, end.size)])
                  [|a| := Loop(e.contig, e.loops, |body| + 1, e.extent)]
    ensures r == a + Bracket(e, body, end)
  {
  }

  lemma StartInv(d: seq<Entry>, used: nat)
    requires used < |d| && d[used].EndLoop? && Tame(d[..used])
    ensures Inv(d, used, State(Bottom, [], 0, NOTHING)) && Balanced(d, used, State(Bottom, [], 0, NOTHING))
  {
    assert d[0..used] == d[..used];
    EnterTracks(d, 0, NOTHING);
    StartFair(d, used, Plain);
    StartFair(d, used, Truthful);
  }

  lemma InBounds(d: seq<Entry>, used: nat, st: State)
    requires Inv(d, used, st)
    ensures st.pos <= used < |d|
    ensures !d[st.pos].EndLoop? ==> st.pos < used
  {
  }

  /** An END_LOOP: flushes, closes the innermost loop and patches its item count. */
  method CloseLoop(d: seq<Entry>, used: nat, out: array<Entry>, nb: nat, pos: nat, stack: seq<Frame>, last: Pending,
          ghost st: State)
    returns (n: nat, last': Pending, ghost st': State)
    requires Ready(d, used, out, nb, pos, stack, last, st) && d[pos].EndLoop?
    modifies out
    ensures stack != [] && pos <= used
    ensures |stack| > 1 ==> pos < used && Ready(d, used, out, n, pos + 1, stack[..|stack| - 1], last', st')
    ensures |stack| > 1 ==> Pass(d, st') == Pass(d, st)
    ensures |stack| == 1 ==> Done(d, used, out, n) && out[..n - 1] == Pass(d, st)
  {
    hide Tame, Nested, Open, Bytes, Balanced, Verdict, Pass;
    TopFrame(st.c);
    PassEnd(d, st);
    EndInv(d, used, st);
    if st.c.In? { CloseBalanced(d, used, st); } else { DoneBalanced(d, used, st); }
    n := Flush(out, nb, last);
    Associate(Out(st.c), st.seg, Emit(last));
    n := WriteEnd(out, n, d[pos], stack, st.c, st.seg + Emit(last));
    last' := Flushed(last);
    st' := if st.c.In? then Closed(d, Wrote(st)) else st;
  }

  /** A loop: written out if CONTIGUOUS or small, otherwise opened. */
  method OneLoop(d: seq<Entry>, used: nat, out: array<Entry>, nb: nat, pos: nat, stack: seq<Frame>, last: Pending,
          totalDisp: int, ghost st: State)
    returns (n: nat, pos': nat, stack': seq<Frame>, last': Pending, ghost st': State)
    requires Ready(d, used, out, nb, pos, stack, last, st) && totalDisp == 0 && d[pos].Loop?
    modifies out
    ensures Ready(d, used, out, n, pos', stack', last', st') && pos < pos' <= used && Pass(d, st') == Pass(d, st)
    ensures stack' != [] && stack'[|stack'| - 1].disp == 0
  {
    hide Pass;
    if d[pos].contig {
      stack' := stack;
      n, pos', last', st' := ContigLoop(d, used, out, nb, pos, stack, last, totalDisp, st);
    } else {
      n, pos', stack', last', st' := PlainLoop(d, used, out, nb, pos, stack, last, totalDisp, st);
    }
    TopFrame(st'.c);
    InBounds(d, used, st');
  }

  method ContigLoop(d: seq<Entry>, used: nat, out: array<Entry>, nb: nat, pos: nat, stack: seq<Frame>, last: Pending,
          totalDisp: int, ghost st: State)
    returns (n: nat, pos': nat, last': Pending, ghost st': State)
    requires Ready(d, used, out, nb, pos, stack, last, st) && totalDisp == 0 && d[pos].Loop? && d[pos].contig
    modifies out
    ensures Ready(d, used, out, n, pos', stack, last', st') && pos < pos' && Pass(d, st') == Pass(d, st)
  {
    hide Tame, Nested, Open, Bytes, Tracks, Balanced, Pass;
    ContigInv(d, used, st);
    ContigBalanced(d, used, st);
    PassContig(d, st);
    var end := d[pos + d[pos].items];
    var k := GetFirstNonLoop(d, pos);
    Associate(Out(st.c), st.seg, ContigPiece(last, d[pos], end).written);
    n, last' := WriteContig(out, nb, last, d[pos], end, totalDisp + d[pos + k].disp);
    pos' := pos + d[pos].items + 1;
    st' := After(st, ContigPiece(last, d[pos], end), pos');
  }

  method PlainLoop(d: seq<Entry>, used: nat, out: array<Entry>, nb: nat, pos: nat, stack: seq<Frame>, last: Pending,
          totalDisp: int, ghost st: State)
    returns (n: nat, pos': nat, stack': seq<Frame>, last': Pending, ghost st': State)
    requires Ready(d, used, out, nb, pos, stack, last, st) && totalDisp == 0 && d[pos].Loop? && !d[pos].contig
    modifies out
    ensures Ready(d, used, out, n, pos', stack', last', st') && pos < pos' && Pass(d, st') == Pass(d, st)
  {
    hide Tame, Nested, Open, Bytes, Tracks, Balanced, Pass;
    LoopAt(d, used, st);
    PassPlain(d, st);
    last', stack' := Flushed(last), stack;
    if Small(d[pos], d[pos + 1]) {
      SmallInv(d, used, st);
      SmallBalanced(d, used, st);
      n := WriteSmall(out, nb, last, d[pos], d[pos + 1]);
      Associate(Out(st.c), st.seg, SmallPiece(last, d[pos], d[pos + 1]).written);
      st' := After(st, SmallPiece(last, d[pos], d[pos + 1]), pos + 3);
      pos' := pos + d[pos].items + 1;
    } else {
      PlainInv(d, used, st);
      EnterBalanced(d, used, st);
      n := Flush(out, nb, last);
      n := Put(out, n, Loop(d[pos].contig, d[pos].loops, d[pos].items, d[pos].extent));
      Associate(Out(st.c), st.seg, Emit(last));
      st' := Entered(d, Wrote(st));
      stack' := stack + [Frame(n, totalDisp)];
      pos' := pos + 1;
    }
  }

  /** Joins a data entry to the pending run, or writes the run and starts a new one. */
  method WriteData(out: array<Entry>, nb: nat, last: Pending, totalDisp: int, e: Entry) returns (n: nat, p: Pending)
    requires e.Elem? && totalDisp == 0 && nb < out.Length
    modifies out
    ensures n == nb + |DataPiece(last, e).written| && out[..n] == old(out[..nb]) + DataPiece(last, e).written
    ensures p == DataPiece(last, e).p
  {
    n := nb;
    if e.contig && last.disp + Times(last.len, last.typ.size) == totalDisp + e.disp && e.extent == e.typ.size {
      if e.typ == last.typ {
        p := Pending(last.typ, last.len + e.count, last.disp, e.extent);
      } else if last.len == 0 {
        p := Pending(e.typ, e.count, last.disp, e.extent);
      } else {
        p := Pending(UINT1, Times(last.len, last.typ.size) + Times(e.count, e.typ.size), last.disp, 1);
      }
    } else {
      n := Flush(out, n, last);
      p := Pending(e.typ, e.count, totalDisp + e.disp, e.extent);
    }
  }

  method DataStep(d: seq<Entry>, used: nat, out: array<Entry>, nb: nat, pos: nat, stack: seq<Frame>, last: Pending,
          totalDisp: int, ghost st: State)
    returns (n: nat, last': Pending, ghost st': State)
    requires Ready(d, used, out, nb, pos, stack, last, st) && totalDisp == 0 && d[pos].Elem?
    modifies out
    ensures Ready(d, used, out, n, pos + 1, stack, last', st') && pos < used && Pass(d, st') == Pass(d, st)
  {
    hide Tame, Nested, Open, Bytes, Tracks, Balanced, Pass;
    InBounds(d, used, st);
    PassData(d, st);
    DataInv(d, used, st);
    DataBalanced(d, used, st);
    Associate(Out(st.c), st.seg, DataPiece(last, d[pos]).written);
    n, last' := WriteData(out, nb, last, totalDisp, d[pos]);
    st' := After(st, DataPiece(last, d[pos]), pos + 1);
  }

  /** Consecutive data entries. */
  method DataRun(d: seq<Entry>, used: nat, out: array<Entry>, nb: nat, pos: nat, stack: seq<Frame>, last: Pending,
          totalDisp: int, ghost st: State)
    returns (n: nat, pos': nat, last': Pending, ghost st': State)
    requires Ready(d, used, out, nb, pos, stack, last, st) && totalDisp == 0 && d[pos].Elem?
    modifies out
    ensures Ready(d, used, out, n, pos', stack, last', st') && pos < pos' <= used && Pass(d, st') == Pass(d, st)
  {
    hide Pass;
    n, last', st' := DataStep(d, used, out, nb, pos, stack, last, totalDisp, st);
    pos' := pos + 1;
    while d[pos'].Elem?
      invariant Ready(d, used, out, n, pos', stack, last', st') && pos < pos' <= used < |d|
      invariant Pass(d, st') == Pass(d, st)
      decreases used - pos'
    {
      n, last', st' := DataStep(d, used, out, n, pos', stack, last', totalDisp, st');
      pos' := pos' + 1;
    }
  }

  /** The whole pass. The output means what the input means under the block reading of CONTIGUOUS
      loops, and takes no more entries than the input. Machines that enter such loops can use it exactly
      if no loop with gaps was merged into the data before it. */
  method OptimizeShort(d: seq<Entry>, used: nat) returns (out: array<Entry>, nb: nat)
    requires used < |d| && d[used].EndLoop? && Tame(d[..used])
    ensures fresh(out) && out.Length == 2 * used + 1
    ensures nb <= used && out[nb].EndLoop? && out[..nb] == Pass(d, State(Bottom, [], 0, NOTHING))
    ensures Nested(out[..nb]) && Bytes(out[..nb], ByBlock) == Bytes(d[..used], ByBlock)
    ensures Positive(d, used) ==> Sound(out[..nb], Plain) && (Sound(out[..nb], Truthful) <==> !Merges(d[..used], Apart))
    ensures Positive(d, used) ==> (Bytes(out[..nb], ByBody) == Bytes(d[..used], ByBlock) <==> !Merges(d[..used], Apart))
  {
    hide Merges, Positive, Sound, Fair, Pass;
    out := new Entry[2 * used + 1](_ => EndLoop(0, 0, 0));
    nb := 0;
    var stack, totalDisp, pos, last := [Frame(-1, 0)], 0, 0, NOTHING;
    ghost var st := State(Bottom, [], 0, last);
    StartInv(d, used);
    while stack != []
      invariant stack != [] ==> Ready(d, used, out, nb, pos, stack, last, st) && totalDisp == 0
      invariant stack != [] ==> Pass(d, st) == Pass(d, State(Bottom, [], 0, NOTHING))
      invariant stack == [] ==> Done(d, used, out, nb) && out[..nb - 1] == Pass(d, State(Bottom, [], 0, NOTHING))
      invariant pos <= used + 1 && (stack != [] ==> pos <= used)
      decreases used + 1 - pos
    {
      if d[pos].EndLoop? {
        nb, last, st := CloseLoop(d, used, out, nb, pos, stack, last, st);
        stack := stack[..|stack| - 1];
        pos := pos + 1;
      } else if d[pos].Loop? {
        nb, pos, stack, last, st := OneLoop(d, used, out, nb, pos, stack, last, totalDisp, st);
        totalDisp := stack[|stack| - 1].disp;
      } else {
        nb, pos, last, st := DataRun(d, used, out, nb, pos, stack, last, totalDisp, st);
      }
    }
    nb := nb - 1;
  }

  // ---------------------------------------------------------------- what the pass is for

  /** Contiguous data entries, each of which starts where the one before it ends, the first at the given place. */
  ghost predicate Touching(es: seq<Entry>, at: int) {
    es == [] || (
      && es[0].Elem? && es[0].contig && es[0].typ.size > 0 && es[0].count > 0 && es[0].extent == es[0].typ.size
      && es[0].disp == at && Touching(es[1..], at + Times(es[0].count, es[0].typ.size)))
  }

  /** All of them are absorbed by the pending run. */
  lemma {:induction false} TouchingPass(d: seq<Entry>, used: nat, p: Pending, pos: nat)
    requires pos <= used < |d| && d[used].EndLoop? && p.len > 0 && Touching(d[pos..used], p.disp + RunLen(p))
    ensures exists q: Pending :: q.disp == p.disp && q.len > 0 && Pass(d, State(Bottom, [], pos, p)) == Emit(q)
    decreases used - pos
  {
    hide Times;
    var st := State(Bottom, [], pos, p);
    if pos == used {
      PassEnd(d, st);
      assert [] + Emit(p) == Emit(p);
    } else {
      var e := d[pos];
      assert e == d[pos..used][0] && d[pos..used][1..] == d[pos + 1..used];
      PassData(d, st);
      AbsorbLen(p, e);
      TimesPositive(e.count, e.typ.size);
      TouchingPass(d, used, Absorb(p, e), pos + 1);
    }
  }

  /** A run of touching data entries becomes one entry at the same place. */
  lemma RunJoins(d: seq<Entry>, used: nat)
    requires 0 < used < |d| && d[used].EndLoop? && d[0].Elem? && Touching(d[..used], d[0].disp)
    ensures var out := Pass(d, State(Bottom, [], 0, NOTHING));
      |out| == 1 && out[0].Elem? && out[0].contig && out[0].disp == d[0].disp
  {
    hide Times;
    var st, e, p := State(Bottom, [], 0, NOTHING), d[0], Restart(d[0]);
    assert e == d[..used][0] && d[..used][1..] == d[1..used];
    PassData(d, st);
    NothingPends();
    assert After(st, DataPiece(NOTHING, e), 1).seg == [];
    TouchingPass(d, used, DataPiece(NOTHING, e).p, 1);
  }

  lemma NothingPends()
    ensures RunLen(NOTHING) == 0 && Emit(NOTHING) == []
  {
  }

  /** A loop around one data entry: a plain one becomes a strided entry, is unrolled, or stays a loop, and one without
      gaps becomes a run of bytes. */
  lemma LoopAlone(loop: Entry, e: Entry, end: Entry, fin: Entry)
    requires loop.Loop? && loop.items == 2 && loop.loops >= 1 && e.Elem? && end.EndLoop? && fin.EndLoop?
    requires end.size > 0 && e.count > 0
    ensures var out := Pass([loop, e, end, fin], State(Bottom, [], 0, NOTHING));
      if loop.contig then
        loop.extent == end.size ==> out == [Elem(UINT1, true, Times(loop.loops, end.size), end.first, 1)]
      else if e.count == 1 && e.extent == e.typ.size then out == [Elem(e.typ, false, loop.loops, e.disp, loop.extent)]
      else if loop.loops < 3 then out == Unrolled(e, loop.loops, loop.extent)
      else |out| == 3 && out[0] == loop && out[2] == EndLoop(2, end.first, end.size)
  {
    hide Times, Unrolled, Pass;
    var d, st := [loop, e, end, fin], State(Bottom, [], 0, NOTHING);
    NothingPends();
    if loop.contig {
      PassContig(d, st);
      if loop.extent == end.size { WholeAlone(d, loop, end); }
    } else {
      PassPlain(d, st);
      if Small(loop, e) {
        var st1 := After(st, SmallPiece(NOTHING, loop, e), 3);
        PassEnd(d, st1);
        assert st1.seg + Emit(st1.p) == SmallPiece(NOTHING, loop, e).written;
      } else {
        PlainAlone(d, loop, e, end);
      }
    }
  }

  lemma WholeAlone(d: seq<Entry>, loop: Entry, end: Entry)
    requires loop.Loop? && loop.loops >= 1 && end.EndLoop? && end.size > 0 && |d| == 4 && d[3].EndLoop?
    ensures Pass(d, After(State(Bottom, [], 0, NOTHING), WholePiece(NOTHING, loop, end), 3))
         == [Elem(UINT1, true, Times(loop.loops, end.size), end.first, 1)]
  {
    hide Pass;
    var st := After(State(Bottom, [], 0, NOTHING), WholePiece(NOTHING, loop, end), 3);
    TimesPositive(loop.loops, end.size);
    NothingPends();
    PassEnd(d, st);
  }

  lemma PlainAlone(d: seq<Entry>, loop: Entry, e: Entry, end: Entry)
    requires |d| == 4 && d[0] == loop && d[1] == e && d[2] == end && d[3].EndLoop?
    requires loop.Loop? && !loop.contig && e.Elem? && e.count > 0 && end.EndLoop? && loop.items == 2
    ensures var out := Pass(d, Entered(d, Wrote(State(Bottom, [], 0, NOTHING))));
      |out| == 3 && out[0] == loop && out[2] == EndLoop(2, end.first, end.size)
  {
    hide Pass, Times;
    NothingPends();
    var st1 := Entered(d, Wrote(State(Bottom, [], 0, NOTHING)));
    PassData(d, st1);
    var st2 := After(st1, DataPiece(st1.p, e), 2);
    PassEnd(d, st2);
    var st3 := Closed(d, Wrote(st2));
    PassEnd(d, st3);
    assert |Emit(st2.p)| == 1 && st2.seg == [];
    assert st3.p.len == 0;
  }
}
