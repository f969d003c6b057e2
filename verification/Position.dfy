/**
 Seeking: moving a convertor to a byte position of the packed stream without packing
 (opal_datatype_position.c).
 */
module Position {
  import opened Description
  import opened Soundness
  import opened Engine
  import opened Pack

  // ---------------------------------------------------------------- walking

  /** From c0 the machine visited us, out of a budget of which left bytes remain. */
  ghost predicate Walked(D: Desc, c0: Cursor, us: seq<MemUnit>, c: Cursor, left: nat, space: nat) {
    Ran(D, c0, us, c, ByBody) && left + |Flatten(us)| == space
  }

  lemma WalkMore(us: seq<MemUnit>, vs: seq<MemUnit>)
    ensures |Flatten(us + vs)| == |Flatten(us)| + |Flatten(vs)|
  {
    FlattenAppend(us, vs);
  }

  /** A data entry: skip the elements that are wholly before the target. */
  method WalkElem(D: Desc, c: Cursor, left: nat, ghost space: nat, ghost c0: Cursor, ghost us: seq<MemUnit>)
    returns (c': Cursor, left': nat, full: bool, ghost us': seq<MemUnit>)
    requires Walked(D, c0, us, c, left, space) && c.pos < |D.d| && D.d[c.pos].Elem?
    ensures Walked(D, c0, us', c', left', space)
    ensures !full ==> |Todo(D, c', ByBody)| < |Todo(D, c, ByBody)|
    ensures full ==> Stuck(D, c', left')
  {
    hide Ran, Todo, Flatten, Copies, Moves, Current, Fit, Goto;
    var e := D.d[c.pos];
    var k := Fit(c.cnt, e.typ.size, left);
    ghost var vs := Copies(k, c.disp + e.disp, e.extent, e.typ.size);
    CopiesSize(k, c.disp + e.disp, e.extent, e.typ.size);
    WalkMore(us, vs);
    SomeVisited(D, c0, us, c, k);
    c', left', us' := c.(cnt := c.cnt - k, disp := c.disp + k * e.extent), left - k * e.typ.size, us + vs;
    full := c'.cnt != 0;
    if !full {
      PastData(D, c0, us', c');
      WalkMore(us', [MARK]);
      NoTokens();
      us' := us' + [MARK];
      c' := Goto(D, c'.fs, c'.pos + 1);
    }
  }

  /** A loop: blocks of a CONTIGUOUS one are skipped while they fit; what is left is entered. */
  method WalkLoop(D: Desc, c: Cursor, left: nat, ghost space: nat, ghost c0: Cursor, ghost us: seq<MemUnit>)
    returns (c': Cursor, left': nat, ghost us': seq<MemUnit>)
    requires Walked(D, c0, us, c, left, space) && c.pos < |D.d| && D.d[c.pos].Loop?
    ensures Walked(D, c0, us', c', left', space)
    ensures |Todo(D, c', ByBody)| < |Todo(D, c, ByBody)|
  {
    hide Ran, Todo, Flatten, Copies, Moves, Turns, Rest, Bytes, Valid;
    RanValid(D, c0, us, c);
    SizedAt(D, c);
    LoopAt(D, c, ByBody);
    LoopCount(D, c);
    var loop, end := D.d[c.pos], D.d[c.pos + D.d[c.pos].items];
    var k := 0;
    left' := left;
    if loop.contig {
      k := Fit(c.cnt, end.size, left);
      left' := left - k * end.size;
      BlocksBytes(Body(D, c.pos), k, loop.extent, c.disp, end.first, end.size);
      CopiesSize(k, c.disp + end.first, loop.extent, end.size);
    } else {
      NoTurnsBytes(Body(D, c.pos), loop.extent, c.disp);
    }
    ghost var vs := [MARK] + Turns(Body(D, c.pos), k, loop.extent, c.disp, ByBody);
    WalkMore(us, vs);
    us' := us + vs;
    if k == c.cnt {
      PastMoves(D, c, ByBody);
      c' := Goto(D, c.fs, c.pos + loop.items + 1);
    } else {
      var f := Frame(c.pos, c.cnt - k, c.disp + k * loop.extent);
      PushMoves(D, c, k, f, ByBody);
      c' := Goto(D, c.fs + [f], c.pos + 1);
    }
    RanStep(D, c0, us, c, vs, c', ByBody);
  }

  /** Moves up to space bytes ahead. Either everything is behind the cursor, or the next element does
      not end within the space. */
  method Walk(D: Desc, c: Cursor, space: nat) returns (c': Cursor, left: nat, finished: bool, ghost us: seq<MemUnit>)
    requires Valid(D, c, ByBody) && InInstance(D, c, ByBody)
    ensures left + |Flatten(us)| == space
    ensures finished ==> us == Todo(D, c, ByBody)
    ensures !finished ==> Ran(D, c, us, c', ByBody) && Stuck(D, c', left)
  {
    hide Ran, Todo, Flatten, Moves, Rest, Valid, InInstance;
    RanStart(D, c, ByBody);
    c', left, us := c, space, [];
    NoTokens();
    while true
      invariant Walked(D, c, us, c', left, space)
      decreases |Todo(D, c', ByBody)|
    {
      RanValid(D, c, us, c');
      TopAbove(D, c', ByBody);
      if D.d[c'.pos].EndLoop? {
        WalkMore(us, [MARK]);
        NoTokens();
        if Last(c') {
          LastInstance(D, c', ByBody);
          RanTodo(D, c, us, c');
          us := us + [MARK];
          return c', left, true, us;
        }
        EndMoves(D, c', ByBody);
        RanStep(D, c, us, c', [MARK], EndStep(D, c'), ByBody);
        c', us := EndStep(D, c'), us + [MARK];
      } else if D.d[c'.pos].Loop? {
        c', left, us := WalkLoop(D, c', left, space, c, us);
      } else {
        var full;
        c', left, full, us := WalkElem(D, c', left, space, c, us);
        if full { return c', left, false, us; }
      }
    }
  }

  // ---------------------------------------------------------------- skipping whole datatypes

  /** Every frame moved by off, the outermost with n instances fewer. */
  function Moved(fs: seq<Frame>, n: nat, off: int): seq<Frame> {
    seq(|fs|, i requires 0 <= i < |fs| =>
      Frame(fs[i].index, if i == 0 && n <= fs[0].count then fs[0].count - n else fs[i].count, fs[i].disp + off))
  }

  lemma {:induction false} MovedStacked(D: Desc, fs: seq<Frame>, n: nat, off: int, how: Reading)
    requires Stacked(D, fs, how) && n < fs[0].count
    ensures Stacked(D, Moved(fs, n, off), how)
    decreases |fs|
  {
    var gs := Moved(fs, n, off);
    if |fs| > 1 {
      assert gs[..|fs| - 1] == Moved(fs[..|fs| - 1], n, off);
      MovedStacked(D, fs[..|fs| - 1], n, off, how);
    }
  }

  lemma RealTurnsShift(body: seq<Entry>, n: nat, extent: int, base: int, off: int)
    requires Nested(body)
    ensures Real(Turns(body, n, extent, base + off, ByBody)) == Shift(Real(Turns(body, n, extent, base, ByBody)), off)
  {
    hide Real, Turns, Repeat, Shift, Nested;
    TurnsReal(body, n, extent, base);
    TurnsReal(body, n, extent, base + off);
    RepeatShift(body, n, extent, base, off, ByBody);
  }

  lemma RealTraceShift(s: seq<Entry>, base: int, off: int)
    requires Nested(s)
    ensures Real(Trace(s, base + off, ByBody)) == Shift(Real(Trace(s, base, ByBody)), off)
  {
    hide Real, Trace, Units, Shift, Nested;
    TraceReal(s, base);
    TraceReal(s, base + off);
    UnitsShift(s, base, off, ByBody);
  }

  /** Real tokens of a concatenation, moved. */
  lemma RealShiftAppend(a: seq<MemUnit>, a': seq<MemUnit>, b: seq<MemUnit>, b': seq<MemUnit>, off: int)
    requires Real(a') == Shift(Real(a), off) && Real(b') == Shift(Real(b), off)
    ensures Real(a' + b') == Shift(Real(a + b), off)
  {
    hide Real;
    RealAppend(a, b);
    RealAppend(a', b');
    ShiftAppend(Real(a), Real(b), off);
  }

  lemma RealMark(off: int)
    ensures Real([MARK]) == Shift(Real([MARK]), off)
  {
    MarkReal();
  }

  lemma CurrentShift(D: Desc, c: Cursor, off: int)
    requires Valid(D, c, ByBody)
    ensures Real(Current(D, c.pos, c.cnt, c.disp + off, ByBody))
         == Shift(Real(Current(D, c.pos, c.cnt, c.disp, ByBody)), off)
  {
    hide Stacked, Committed, Later, Sound, Bytes, Copies, Turns, Real, Shift;
    RealMark(off);
    if D.d[c.pos].Loop? {
      LoopAt(D, c, ByBody);
      BodyAt(D, Top(c.fs).index, c.pos, ByBody);
      SoundNested(Body(D, c.pos), Sized);
      RealTurnsShift(Body(D, c.pos), c.cnt, Stride(D, c.pos), c.disp, off);
      RealShiftAppend([MARK], [MARK], Turns(Body(D, c.pos), c.cnt, Stride(D, c.pos), c.disp, ByBody),
                      Turns(Body(D, c.pos), c.cnt, Stride(D, c.pos), c.disp + off, ByBody), off);
    } else if D.d[c.pos].Elem? {
      if c.pos == End(D, Top(c.fs).index) { assert false; }
      ItemAt(D, Top(c.fs).index, c.pos);
      var e := D.d[c.pos];
      var a, b := Copies(c.cnt, c.disp + e.disp, e.extent, e.typ.size), Copies(c.cnt, c.disp + off + e.disp, e.extent,
          e.typ.size);
      CopiesReal(c.cnt, c.disp + e.disp, e.extent, e.typ.size);
      CopiesReal(c.cnt, c.disp + off + e.disp, e.extent, e.typ.size);
      CopiesShift(c.cnt, c.disp + e.disp, e.extent, e.typ.size, off);
      assert c.disp + off + e.disp == c.disp + e.disp + off;
      RealShiftAppend(a, b, [MARK], [MARK], off);
    } else {
      EmptyShift(off);
    }
  }

  lemma EmptyShift(off: int)
    ensures Real([]) == Shift(Real([]), off)
  {
  }

  /** A part of a body that starts at an item. */
  lemma PartNested(D: Desc, i: int, pos: int)
    requires At(D, i, pos)
    ensures Nested(Part(D, pos, End(D, i)))
  {
    SoundNested(D.d[pos..End(D, i)], Sized);
  }

  lemma BeyondShift(D: Desc, c: Cursor, gs: seq<Frame>, off: int)
    requires Valid(D, c, ByBody) && Top(gs).index == Top(c.fs).index && Top(gs).disp == Top(c.fs).disp + off
    ensures Real(Beyond(D, gs, c.pos, ByBody)) == Shift(Real(Beyond(D, c.fs, c.pos, ByBody)), off)
  {
    hide Stacked, Committed, Later, Sound, Bytes, Real, Shift, Trace;
    if c.pos < End(D, Top(c.fs).index) {
      ItemAt(D, Top(c.fs).index, c.pos);
      PartNested(D, Top(c.fs).index, Skip(D, c.pos));
    } else {
      assert Part(D, Skip(D, c.pos), End(D, Top(c.fs).index)) == [];
    }
    RealTraceShift(Part(D, Skip(D, c.pos), End(D, Top(c.fs).index)), Top(c.fs).disp, off);
  }

  lemma {:induction false} LaterShift(D: Desc, fs: seq<Frame>, n: nat, off: int)
    requires Stacked(D, fs, ByBody) && n < fs[0].count
    ensures Real(Later(D, Moved(fs, n, off), ByBody)) == Shift(Real(Later(D, fs, ByBody)), off)
    decreases |fs|
  {
    hide *;
    StackNonEmpty(D, fs, ByBody);
    MovedTop(fs, n, off);
    if |fs| == 1 {
      NoLater(D, fs);
      NoLater(D, Moved(fs, n, off));
      EmptyShift(off);
    } else {
      var rest, top := fs[..|fs| - 1], Top(fs);
      StackedParts(D, fs, rest, ByBody);
      LaterOutside(D, fs, rest, ByBody);
      MovedRest(fs, n, off);
      LaterOutside(D, Moved(fs, n, off), Moved(rest, n, off), ByBody);
      LaterShift(D, rest, n, off);
      OutsideShift(D, fs, rest, n, off);
      BodyAt(D, Top(rest).index, top.index, ByBody);
      BodyNested(D, top.index);
      RealTurnsShift(Body(D, top.index), top.count - 1, Stride(D, top.index), top.disp + Stride(D, top.index), off);
      assert top.disp + off + Stride(D, top.index) == top.disp + Stride(D, top.index) + off;
      RealShiftAppend(Turns(Body(D, top.index), top.count - 1, Stride(D, top.index),
                            top.disp + Stride(D, top.index), ByBody),
                      Turns(Body(D, top.index), top.count - 1, Stride(D, top.index),
                            top.disp + Stride(D, top.index) + off, ByBody),
                      Outside(D, fs, rest, ByBody), Outside(D, Moved(fs, n, off), Moved(rest, n, off), ByBody), off);
    }
  }

  lemma NoLater(D: Desc, fs: seq<Frame>)
    requires |fs| == 1
    ensures Later(D, fs, ByBody) == []
  {
  }

  lemma MovedTop(fs: seq<Frame>, n: nat, off: int)
    requires fs != [] && n <= fs[0].count
    ensures |Moved(fs, n, off)| == |fs|
    ensures Top(Moved(fs, n, off))
         == Frame(Top(fs).index, if |fs| == 1 then Top(fs).count - n else Top(fs).count, Top(fs).disp + off)
    ensures Moved(fs, n, off)[0] == Frame(fs[0].index, fs[0].count - n, fs[0].disp + off)
  {
  }

  lemma MovedRest(fs: seq<Frame>, n: nat, off: int)
    requires |fs| > 1
    ensures fs[..|fs| - 1][0] == fs[0] && |Moved(fs, n, off)| == |fs|
    ensures Moved(fs, n, off)[..|fs| - 1] == Moved(fs[..|fs| - 1], n, off)
  {
  }

  lemma BodyNested(D: Desc, l: int)
    requires At(D, l, l + 1)
    ensures Nested(Body(D, l))
  {
    PartNested(D, l, l + 1);
  }

  lemma OutsideShift(D: Desc, fs: seq<Frame>, rest: seq<Frame>, n: nat, off: int)
    requires |fs| > 1 && rest == fs[..|fs| - 1] && n < fs[0].count
    requires Stacked(D, rest, ByBody) && Within(D, Top(rest).index, Top(fs).index, ByBody) && Top(fs).index >= 0
    requires Real(Later(D, Moved(rest, n, off), ByBody)) == Shift(Real(Later(D, rest, ByBody)), off)
    ensures Real(Outside(D, Moved(fs, n, off), Moved(rest, n, off), ByBody))
         == Shift(Real(Outside(D, fs, rest, ByBody)), off)
  {
    hide Real, Shift, Later, Trace, Stacked, Sound, Moved;
    MovedTop(fs, n, off);
    MovedTop(rest, n, off);
    ItemAt(D, Top(rest).index, Top(fs).index);
    var s := Part(D, End(D, Top(fs).index) + 1, End(D, Top(rest).index));
    PartNested(D, Top(rest).index, End(D, Top(fs).index) + 1);
    RealTraceShift(s, Top(rest).disp, off);
    RealMark(off);
    RealShiftAppend([MARK], [MARK], Later(D, rest, ByBody), Later(D, Moved(rest, n, off), ByBody), off);
    RealShiftAppend(Trace(s, Top(rest).disp, ByBody), Trace(s, Top(rest).disp + off, ByBody),
                    [MARK] + Later(D, rest, ByBody), [MARK] + Later(D, Moved(rest, n, off), ByBody), off);
  }

  function Skipped(c: Cursor, n: nat, off: int): Cursor {
    Cursor(Moved(c.fs, n, off), c.pos, c.cnt, c.disp + off)
  }

  lemma SkippedValid(D: Desc, c: Cursor, n: nat, off: int)
    requires Valid(D, c, ByBody) && c.fs != [] && n < c.fs[0].count
    ensures Valid(D, Skipped(c, n, off), ByBody)
  {
    hide Stacked, Sound, Committed, Moved;
    MovedStacked(D, c.fs, n, off, ByBody);
    MovedTop(c.fs, n, off);
  }

  lemma RestShift(D: Desc, c: Cursor, n: nat, off: int)
    requires Valid(D, c, ByBody) && c.fs != [] && n < c.fs[0].count
    ensures Real(Rest(D, Skipped(c, n, off), ByBody)) == Shift(Real(Rest(D, c, ByBody)), off)
  {
    hide Real, Shift, Valid, Stacked, Current, Beyond, Later, Moved;
    ValidParts(D, c, ByBody);
    var gs := Moved(c.fs, n, off);
    MovedTop(c.fs, n, off);
    CurrentShift(D, c, off);
    BeyondShift(D, c, gs, off);
    LaterShift(D, c.fs, n, off);
    RealMark(off);
    RealShiftAppend([MARK], [MARK], Later(D, c.fs, ByBody), Later(D, gs, ByBody), off);
    RealShiftAppend(Beyond(D, c.fs, c.pos, ByBody), Beyond(D, gs, c.pos, ByBody), [MARK] + Later(D, c.fs, ByBody),
        [MARK] + Later(D, gs, ByBody), off);
    RealShiftAppend(Current(D, c.pos, c.cnt, c.disp, ByBody), Current(D, c.pos, c.cnt, c.disp + off, ByBody),
                    Beyond(D, c.fs, c.pos, ByBody) + ([MARK] + Later(D, c.fs, ByBody)), Beyond(D, gs, c.pos,
                        ByBody) + ([MARK] + Later(D, gs, ByBody)), off);
  }

  lemma {:induction false} RepeatSplit(s: seq<Entry>, a: nat, b: nat, extent: int, base: int)
    ensures Repeat(s, a + b, extent, base, ByBody)
         == Repeat(s, a, extent, base, ByBody) + Repeat(s, b, extent, base + a * extent, ByBody)
    decreases a
  {
    hide Units;
    if a > 0 {
      RepeatSplit(s, a - 1, b, extent, base + extent);
      assert base + extent + (a - 1) * extent == base + a * extent;
      Associate(Units(s, base, ByBody), Repeat(s, a - 1, extent, base + extent, ByBody),
          Repeat(s, b, extent, base + a * extent, ByBody));
    }
  }

  lemma RepeatOne(s: seq<Entry>, extent: int, base: int)
    ensures Repeat(s, 1, extent, base, ByBody) == Units(s, base, ByBody)
  {
    assert Repeat(s, 0, extent, base + extent, ByBody) == [];
  }

  lemma ShiftSize(us: seq<MemUnit>, off: int)
    ensures |Shift(us, off)| == |us| && |Flatten(Shift(us, off))| == |Flatten(us)|
  {
    FlattenShift(us, off);
  }

  /** The rest r of one instance followed by n instances: n instances' worth of elements, then the
      rest of the last of them. */
  lemma {:induction false} SkipUnits(s: seq<Entry>, p: seq<MemUnit>, r: seq<MemUnit>, n: nat, extent: int, disp: int)
    returns (x: seq<MemUnit>)
    requires Units(s, disp, ByBody) == p + r
    ensures r + Repeat(s, n, extent, disp + extent, ByBody) == x + Shift(r, n * extent)
    ensures |Flatten(x)| == n * |Flatten(p + r)|
    decreases n
  {
    hide Units, Flatten, Repeat;
    if n == 0 {
      x := [];
      NoRepeat(s, extent, disp + extent);
      NoTokens();
      assert Shift(r, 0) == r;
      assert r + [] == [] + r;
    } else {
      var y := SkipUnits(s, p, r, n - 1, extent, disp);
      RepeatSplit(s, n - 1, 1, extent, disp + extent);
      RepeatOne(s, extent, disp + extent + (n - 1) * extent);
      assert disp + extent + (n - 1) * extent == disp + n * extent;
      UnitsShift(s, disp, n * extent, ByBody);
      ShiftAppend(p, r, n * extent);
      x := y + Shift(r, (n - 1) * extent) + Shift(p, n * extent);
      SkipSizes(y, p, r, n, extent);
      SkipAlgebra(r, Repeat(s, n - 1, extent, disp + extent, ByBody), y, Shift(r, (n - 1) * extent),
          Shift(p, n * extent), Shift(r, n * extent));
    }
  }

  lemma NoRepeat(s: seq<Entry>, extent: int, base: int)
    ensures Repeat(s, 0, extent, base, ByBody) == []
  {
  }

  lemma SkipSizes(y: seq<MemUnit>, p: seq<MemUnit>, r: seq<MemUnit>, n: nat, extent: int)
    requires n > 0 && |Flatten(y)| == (n - 1) * |Flatten(p + r)|
    ensures |Flatten(y + Shift(r, (n - 1) * extent) + Shift(p, n * extent))| == n * |Flatten(p + r)|
  {
    hide Flatten, Shift;
    var m := |Flatten(p + r)|;
    ShiftSize(r, (n - 1) * extent);
    ShiftSize(p, n * extent);
    FlattenAppend(y, Shift(r, (n - 1) * extent));
    FlattenAppend(y + Shift(r, (n - 1) * extent), Shift(p, n * extent));
    FlattenAppend(p, r);
    assert (n - 1) * m + m == n * m;
  }

  lemma SkipAlgebra(r: seq<MemUnit>, more: seq<MemUnit>, y: seq<MemUnit>, r1: seq<MemUnit>, p2: seq<MemUnit>,
          r2: seq<MemUnit>)
    requires r + more == y + r1
    ensures r + (more + (p2 + r2)) == y + r1 + p2 + r2
  {
    Associate(r, more, p2 + r2);
    Associate(y + r1, p2, r2);
  }

  lemma InstanceUnits(D: Desc, disp: int)
    requires Committed(D)
    ensures Real(Instance(D, disp, ByBody)) == Units(D.d[..D.used], disp, ByBody)
  {
    hide Real, Trace, Units, Nested, Sound;
    CommittedParts(D);
    TraceReal(D.d[..D.used], disp);
    RealAppend(Trace(D.d[..D.used], disp, ByBody), [MARK]);
    MarkReal();
    assert Units(D.d[..D.used], disp, ByBody) + [] == Units(D.d[..D.used], disp, ByBody);
  }

  /** The elements still to be visited: the rest of this instance, then the other instances. */
  lemma TodoUnits(D: Desc, c: Cursor)
    requires Valid(D, c, ByBody) && c.fs != []
    ensures c.fs[0].count >= 1
    ensures Real(Todo(D, c, ByBody)) == Real(Rest(D, c, ByBody))
              + Repeat(D.d[..D.used], c.fs[0].count - 1, D.extent, c.fs[0].disp + D.extent, ByBody)
  {
    hide Real, Repeat, Turns, Rest, Valid, Nested, Sound;
    ValidParts(D, c, ByBody);
    CommittedParts(D);
    BottomCount(D, c.fs);
    TurnsReal(D.d[..D.used], c.fs[0].count - 1, D.extent, c.fs[0].disp + D.extent);
    RealAppend(Rest(D, c, ByBody), More(D, c.fs[0], ByBody));
  }

  lemma {:induction false} BottomCount(D: Desc, fs: seq<Frame>)
    requires Stacked(D, fs, ByBody)
    ensures fs[0].count >= 1 && fs[0].index == -1
    decreases |fs|
  {
    if |fs| > 1 { BottomCount(D, fs[..|fs| - 1]); }
  }

  /** The rest of the current instance, as the end of its elements. */
  lemma RestSuffix(D: Desc, c: Cursor) returns (p: seq<MemUnit>)
    requires Valid(D, c, ByBody) && InInstance(D, c, ByBody)
    ensures c.fs != [] && Units(D.d[..D.used], c.fs[0].disp, ByBody) == p + Real(Rest(D, c, ByBody))
  {
    hide Real, Rest, Valid, Units, Instance;
    ValidParts(D, c, ByBody);
    InstanceUnits(D, c.fs[0].disp);
    p :| Real(Instance(D, c.fs[0].disp, ByBody)) == p + Real(Rest(D, c, ByBody));
  }

  lemma SkippedInInstance(D: Desc, c: Cursor, n: nat, off: int)
    requires Valid(D, c, ByBody) && InInstance(D, c, ByBody) && c.fs != [] && n < c.fs[0].count
    ensures InInstance(D, Skipped(c, n, off), ByBody)
  {
    hide Real, Rest, Valid, Units, Instance, Shift, Moved;
    var p := RestSuffix(D, c);
    ValidParts(D, c, ByBody);
    RestShift(D, c, n, off);
    MovedTop(c.fs, n, off);
    UnitsShift(D.d[..D.used], c.fs[0].disp, off, ByBody);
    ShiftAppend(p, Real(Rest(D, c, ByBody)), off);
    InstanceUnits(D, c.fs[0].disp + off);
    assert Real(Instance(D, Skipped(c, n, off).fs[0].disp, ByBody))
        == Shift(p, off) + Real(Rest(D, Skipped(c, n, off), ByBody));
  }

  /** Skipping n instances. */
  lemma SkipTodo(D: Desc, c: Cursor, n: nat) returns (x: seq<MemUnit>)
    requires Valid(D, c, ByBody) && InInstance(D, c, ByBody) && c.fs != [] && n < c.fs[0].count
    ensures Real(Todo(D, c, ByBody)) == x + Real(Todo(D, Skipped(c, n, n * D.extent), ByBody))
    ensures D.used <= |D.d| && |Flatten(x)| == n * |Bytes(D.d[..D.used], ByBody)|
  {
    hide Real, Rest, Valid, Units, Instance, Shift, Moved, Todo, Flatten, Repeat;
    ValidParts(D, c, ByBody);
    CommittedParts(D);
    var p := RestSuffix(D, c);
    var s, r, off, f := D.d[..D.used], Real(Rest(D, c, ByBody)), n * D.extent, c.fs[0];
    SkippedValid(D, c, n, off);
    MovedTop(c.fs, n, off);
    TodoUnits(D, c);
    TodoUnits(D, Skipped(c, n, off));
    RestShift(D, c, n, off);
    RepeatSplit(s, n, f.count - 1 - n, D.extent, f.disp + D.extent);
    x := SkipUnits(s, p, r, n, D.extent, f.disp);
    assert f.disp + off + D.extent == f.disp + D.extent + off;
    Associate(r, Repeat(s, n, D.extent, f.disp + D.extent, ByBody),
        Repeat(s, f.count - 1 - n, D.extent, f.disp + D.extent + off, ByBody));
    Associate(x, Shift(r, off), Repeat(s, f.count - 1 - n, D.extent, f.disp + D.extent + off, ByBody));
    InstanceSize(s, f.disp, ByBody);
  }
}
