/**
 The stack machine that walks a committed description, shared by packing (opal_datatype_pack.c), seeking
 (opal_datatype_position.c) and copying (opal_datatype_copy.h).

 What a cursor still has to visit is a sequence of tokens: the basic elements in type-map order, with a
 mark for every control step, so that each step of the machine removes a non-empty prefix.
 */
module Engine {
  import opened Description
  import opened Soundness

  /** A stack entry: the loop (-1 for the whole description), iterations left, displacement of this one. */
  datatype Frame = Frame(index: int, count: nat, disp: int)

  /** The machine: its stack, position in the description, what is left of the entry there, and the
      displacement that entry is applied to. */
  datatype Cursor = Cursor(fs: seq<Frame>, pos: nat, cnt: nat, disp: int)

  /** A committed description: entry used is the END_LOOP that ends it. */
  datatype Desc = Desc(d: seq<Entry>, used: nat, extent: int)

  const MARK := MemUnit(0, 0)

  // ---------------------------------------------------------------- tokens

  function HeadTrace(s: seq<Entry>, base: int, how: Reading): seq<MemUnit>
    decreases |s|, 0
  {
    if s == [] then [] else
      match s[0]
      case Elem(typ, _, count, disp, extent) => Copies(count, base + disp, extent, typ.size) + [MARK]
      case Loop(contig, loops, items, extent) =>
        if !(1 <= items < |s| && s[items].EndLoop?) then []
        else if contig && how == ByBlock then Copies(loops, base + s[items].first, extent, s[items].size) + [MARK]
        else [MARK] + Turns(s[1..items], loops, extent, base, how)
      case EndLoop(_, _, _) => []
  }

  function Trace(s: seq<Entry>, base: int, how: Reading): seq<MemUnit>
    decreases |s|, 1
  {
    if s == [] || HeadLen(s) > |s| then [] else HeadTrace(s, base, how) + Trace(s[HeadLen(s)..], base, how)
  }

  /** n iterations of a loop body, each ended by its END_LOOP. */
  function Turns(body: seq<Entry>, n: nat, extent: int, base: int, how: Reading): seq<MemUnit>
    decreases |body|, 2 + n
  {
    if n == 0 then [] else Trace(body, base, how) + [MARK] + Turns(body, n - 1, extent, base + extent, how)
  }

  /** The basic elements among the tokens. */
  function Real(us: seq<MemUnit>): seq<MemUnit> {
    if us == [] then [] else (if us[0].size > 0 then [us[0]] else []) + Real(us[1..])
  }

  lemma {:induction false} RealAppend(us: seq<MemUnit>, vs: seq<MemUnit>)
    ensures Real(us + vs) == Real(us) + Real(vs)
  {
    if us == [] {
      assert us + vs == vs;
    } else {
      assert (us + vs)[1..] == us[1..] + vs;
      RealAppend(us[1..], vs);
    }
  }

  lemma {:induction false} RealBytes(us: seq<MemUnit>)
    ensures Flatten(Real(us)) == Flatten(us)
  {
    if us != [] {
      RealBytes(us[1..]);
      FlattenAppend(if us[0].size > 0 then [us[0]] else [], Real(us[1..]));
      assert Flatten([us[0]]) == Range(us[0].at, us[0].size) + Flatten([]);
    }
  }

  lemma MarkReal()
    ensures Real([MARK]) == []
  {
    assert [MARK][1..] == [];
  }

  lemma {:induction false} CopiesReal(n: nat, at: int, step: int, size: nat)
    requires size > 0
    ensures Real(Copies(n, at, step, size)) == Copies(n, at, step, size)
  {
    if n > 0 {
      CopiesReal(n - 1, at + step, step, size);
      assert Copies(n, at, step, size)[1..] == Copies(n - 1, at + step, step, size);
    }
  }

  /** Entering every loop, the tokens are the units of the description. */
  lemma {:induction false} TraceReal(s: seq<Entry>, base: int)
    requires Nested(s)
    ensures Real(Trace(s, base, ByBody)) == Units(s, base, ByBody)
    decreases |s|, 1
  {
    if s != [] {
      HeadReal(s, base);
      TraceReal(s[HeadLen(s)..], base);
      RealAppend(HeadTrace(s, base, ByBody), Trace(s[HeadLen(s)..], base, ByBody));
    }
  }

  lemma {:induction false} HeadReal(s: seq<Entry>, base: int)
    requires s != [] && NestedHead(s)
    ensures Real(HeadTrace(s, base, ByBody)) == HeadUnits(s, base, ByBody)
    decreases |s|, 0
  {
    MarkReal();
    if s[0].Elem? {
      CopiesReal(s[0].count, base + s[0].disp, s[0].extent, s[0].typ.size);
      RealAppend(Copies(s[0].count, base + s[0].disp, s[0].extent, s[0].typ.size), [MARK]);
    } else {
      var body := s[1..s[0].items];
      TurnsReal(body, s[0].loops, s[0].extent, base);
      RealAppend([MARK], Turns(body, s[0].loops, s[0].extent, base, ByBody));
    }
  }

  lemma {:induction false} TurnsReal(body: seq<Entry>, n: nat, extent: int, base: int)
    requires Nested(body)
    ensures Real(Turns(body, n, extent, base, ByBody)) == Repeat(body, n, extent, base, ByBody)
    decreases |body|, 2 + n
  {
    hide Nested;
    if n > 0 {
      TraceReal(body, base);
      TurnsReal(body, n - 1, extent, base + extent);
      MarkReal();
      RealAppend(Trace(body, base, ByBody), [MARK]);
      RealAppend(Trace(body, base, ByBody) + [MARK], Turns(body, n - 1, extent, base + extent, ByBody));
    }
  }

  lemma MarkBytes(us: seq<MemUnit>)
    ensures Flatten(us + [MARK]) == Flatten(us) && Flatten([MARK] + us) == Flatten(us)
  {
    assert Flatten([MARK]) == Range(0, 0) + Flatten([]);
    FlattenAppend(us, [MARK]);
    FlattenAppend([MARK], us);
  }

  /** Marks carry no bytes: the tokens denote the type map. */
  lemma {:induction false} TraceBytes(s: seq<Entry>, base: int, how: Reading)
    ensures Flatten(Trace(s, base, how)) == Flatten(Units(s, base, how))
    decreases |s|, 1
  {
    if s != [] && HeadLen(s) <= |s| {
      HeadBytes(s, base, how);
      TraceBytes(s[HeadLen(s)..], base, how);
      FlattenAppend(HeadTrace(s, base, how), Trace(s[HeadLen(s)..], base, how));
      FlattenAppend(HeadUnits(s, base, how), Units(s[HeadLen(s)..], base, how));
    }
  }

  lemma {:induction false} HeadBytes(s: seq<Entry>, base: int, how: Reading)
    ensures Flatten(HeadTrace(s, base, how)) == Flatten(HeadUnits(s, base, how))
    decreases |s|, 0
  {
    if s != [] && s[0].Elem? {
      MarkBytes(Copies(s[0].count, base + s[0].disp, s[0].extent, s[0].typ.size));
    } else if s != [] && s[0].Loop? && 1 <= s[0].items < |s| && s[s[0].items].EndLoop? {
      var end, body := s[s[0].items], s[1..s[0].items];
      MarkBytes(Copies(s[0].loops, base + end.first, s[0].extent, end.size));
      TurnsBytes(body, s[0].loops, s[0].extent, base, how);
      MarkBytes(Turns(body, s[0].loops, s[0].extent, base, how));
    }
  }

  lemma {:induction false} TurnsBytes(body: seq<Entry>, n: nat, extent: int, base: int, how: Reading)
    ensures Flatten(Turns(body, n, extent, base, how)) == Flatten(Repeat(body, n, extent, base, how))
    decreases |body|, 2 + n
  {
    if n > 0 {
      TraceBytes(body, base, how);
      TurnsBytes(body, n - 1, extent, base + extent, how);
      MarkBytes(Trace(body, base, how));
      FlattenAppend(Trace(body, base, how) + [MARK], Turns(body, n - 1, extent, base + extent, how));
      FlattenAppend(Units(body, base, how), Repeat(body, n - 1, extent, base + extent, how));
    }
  }

  // ---------------------------------------------------------------- cursors

  function Part(D: Desc, a: int, b: int): seq<Entry> {
    if 0 <= a <= b <= |D.d| then D.d[a..b] else []
  }

  /** Position of the END_LOOP that closes loop i. */
  function End(D: Desc, i: int): int {
    if 0 <= i < |D.d| && D.d[i].Loop? then i + D.d[i].items else D.used
  }

  function Body(D: Desc, i: int): seq<Entry> { Part(D, i + 1, End(D, i)) }

  function Stride(D: Desc, i: int): int {
    if 0 <= i < |D.d| && D.d[i].Loop? then D.d[i].extent else D.extent
  }

  ghost predicate Committed(D: Desc) {
    D.used < |D.d| && D.d[D.used].EndLoop? && Sound(D.d[..D.used], Sized)
  }

  /** Position pos lies in the body of loop i, or at its END_LOOP. */
  ghost predicate At(D: Desc, i: int, pos: int) {
    -1 <= i < pos <= End(D, i) <= D.used < |D.d| && D.d[End(D, i)].EndLoop? && Sound(D.d[pos..End(D, i)], Sized)
  }

  /** Loop l lies in the body of loop i and is entered. */
  ghost predicate Within(D: Desc, i: int, l: int, how: Reading) {
    && At(D, i, l) && l < End(D, i) && D.d[l].Loop? && !(D.d[l].contig && how == ByBlock)
    && l + D.d[l].items < End(D, i) && 1 <= D.d[l].items && D.d[l + D.d[l].items].EndLoop?
  }

  function Top(fs: seq<Frame>): Frame { if fs == [] then Frame(-1, 0, 0) else fs[|fs| - 1] }

  ghost predicate Stacked(D: Desc, fs: seq<Frame>, how: Reading)
    decreases |fs|
  {
    && fs != [] && Top(fs).count >= 1
    && if |fs| == 1 then fs[0].index == -1
       else Stacked(D, fs[..|fs| - 1], how) && Within(D, Top(fs[..|fs| - 1]).index, Top(fs).index, how)
  }

  /** What a count of an entry means: elements of data, iterations of a loop. */
  function Count(e: Entry): nat {
    match e
    case Elem(_, _, count, _, _) => count
    case Loop(_, loops, _, _) => loops
    case EndLoop(items, _, _) => items
  }

  ghost predicate Valid(D: Desc, c: Cursor, how: Reading) {
    && Committed(D) && Stacked(D, c.fs, how) && At(D, Top(c.fs).index, c.pos)
    && (!D.d[c.pos].Elem? ==> c.disp == Top(c.fs).disp) && (D.d[c.pos].Loop? ==> c.cnt >= 1)
  }

  /** What is left of the entry under the cursor. */
  function Current(D: Desc, pos: nat, cnt: nat, disp: int, how: Reading): seq<MemUnit> {
    if pos >= |D.d| then [] else
      match D.d[pos]
      case Elem(typ, _, _, at, extent) => Copies(cnt, disp + at, extent, typ.size) + [MARK]
      case Loop(contig, _, items, extent) =>
        if !(1 <= items < |D.d| - pos && D.d[pos + items].EndLoop?) then []
        else if contig && how == ByBlock then
          Copies(cnt, disp + D.d[pos + items].first, extent, D.d[pos + items].size) + [MARK]
        else [MARK] + Turns(Body(D, pos), cnt, extent, disp, how)
      case EndLoop(_, _, _) => []
  }

  /** The position after the entry at pos. */
  function Skip(D: Desc, pos: nat): nat {
    if pos < |D.d| && D.d[pos].Loop? then pos + D.d[pos].items + 1 else pos + 1
  }

  /** What follows the entry under the cursor in the innermost body. */
  function Beyond(D: Desc, fs: seq<Frame>, pos: nat, how: Reading): seq<MemUnit> {
    Trace(Part(D, Skip(D, pos), End(D, Top(fs).index)), Top(fs).disp, how)
  }

  /** What follows the END_LOOP of the innermost body, within one instance of the description. */
  function Later(D: Desc, fs: seq<Frame>, how: Reading): seq<MemUnit>
    decreases |fs|
  {
    if |fs| <= 1 || Top(fs).count == 0 then []
    else
      var top, rest := Top(fs), fs[..|fs| - 1];
      Turns(Body(D, top.index), top.count - 1, Stride(D, top.index), top.disp + Stride(D, top.index), how)
      + (Trace(Part(D, End(D, top.index) + 1, End(D, Top(rest).index)), Top(rest).disp, how)
         + ([MARK] + Later(D, rest, how)))
  }

  /** What is left of the current instance of the description. */
  function Rest(D: Desc, c: Cursor, how: Reading): seq<MemUnit> {
    Current(D, c.pos, c.cnt, c.disp, how) + (Beyond(D, c.fs, c.pos, how) + ([MARK] + Later(D, c.fs, how)))
  }

  /** The instances after the current one. */
  function More(D: Desc, f: Frame, how: Reading): seq<MemUnit> {
    if f.count == 0 then []
    else Turns(D.d[..if D.used <= |D.d| then D.used else 0], f.count - 1, D.extent, f.disp + D.extent, how)
  }

  /** Everything the machine still has to visit. */
  function Todo(D: Desc, c: Cursor, how: Reading): seq<MemUnit> {
    Rest(D, c, how) + if c.fs == [] then [] else More(D, c.fs[0], how)
  }

  /** The cursor moved to an entry of the innermost body. */
  function Goto(D: Desc, fs: seq<Frame>, pos: nat): Cursor {
    Cursor(fs, pos, if pos < |D.d| then Count(D.d[pos]) else 0, Top(fs).disp)
  }

  /** The first item of a body. */
  lemma ItemAt(D: Desc, i: int, pos: nat)
    requires At(D, i, pos) && pos < End(D, i)
    ensures pos < Skip(D, pos) && At(D, i, Skip(D, pos)) && !D.d[pos].EndLoop?
    ensures SoundHead(D.d[pos..End(D, i)], Sized)
    ensures D.d[pos].Loop? ==>
              D.d[pos].loops >= 1 && 1 <= D.d[pos].items < End(D, i) - pos && D.d[pos + D.d[pos].items].EndLoop?
    ensures D.d[pos].Elem? ==> D.d[pos].typ.size > 0
  {
    var s := D.d[pos..End(D, i)];
    assert s[0] == D.d[pos] && SoundHead(s, Sized);
    SliceOfSlice(D.d, pos, End(D, i), HeadLen(s), |s|);
    assert s[HeadLen(s)..|s|] == s[HeadLen(s)..];
  }

  lemma HeadCurrent(D: Desc, i: int, pos: nat, base: int, how: Reading)
    requires At(D, i, pos) && pos < End(D, i)
    ensures HeadTrace(D.d[pos..End(D, i)], base, how) == Current(D, pos, Count(D.d[pos]), base, how)
  {
    ItemAt(D, i, pos);
    if D.d[pos].Loop? {
      SliceOfSlice(D.d, pos, End(D, i), 1, D.d[pos].items);
    }
  }

  /** Moving to an entry of the innermost body. */
  lemma GotoRest(D: Desc, fs: seq<Frame>, pos: nat, how: Reading)
    requires Committed(D) && Stacked(D, fs, how) && At(D, Top(fs).index, pos)
    ensures Valid(D, Goto(D, fs, pos), how)
    ensures Rest(D, Goto(D, fs, pos), how)
         == Trace(D.d[pos..End(D, Top(fs).index)], Top(fs).disp, how) + ([MARK] + Later(D, fs, how))
  {
    hide Later, Stacked, Sound, Committed;
    var e := End(D, Top(fs).index);
    if pos < e {
      ItemAt(D, Top(fs).index, pos);
      HeadCurrent(D, Top(fs).index, pos, Top(fs).disp, how);
      var s := D.d[pos..e];
      SliceOfSlice(D.d, pos, e, HeadLen(s), |s|);
      assert s[HeadLen(s)..|s|] == s[HeadLen(s)..];
      Associate(HeadTrace(s, Top(fs).disp, how), Trace(s[HeadLen(s)..], Top(fs).disp, how), [MARK] + Later(D, fs, how));
    }
  }

  /** Visiting n elements of the data entry under the cursor. */
  lemma DataSome(D: Desc, c: Cursor, n: nat, how: Reading)
    requires Valid(D, c, how) && D.d[c.pos].Elem? && n <= c.cnt
    ensures Valid(D, c.(cnt := c.cnt - n, disp := c.disp + n * D.d[c.pos].extent), how)
    ensures Rest(D, c, how) == Copies(n, c.disp + D.d[c.pos].disp, D.d[c.pos].extent, D.d[c.pos].typ.size)
                             + Rest(D, c.(cnt := c.cnt - n, disp := c.disp + n * D.d[c.pos].extent), how)
  {
    hide Later, Stacked, Sound, Committed, Trace, Copies;
    var e := D.d[c.pos];
    CopiesSplit(n, c.cnt - n, c.disp + e.disp, e.extent, e.typ.size);
    assert c.disp + e.disp + n * e.extent == c.disp + n * e.extent + e.disp;
    Associate(Copies(n, c.disp + e.disp, e.extent, e.typ.size),
        Copies(c.cnt - n, c.disp + n * e.extent + e.disp, e.extent, e.typ.size), [MARK]);
    Associate(Copies(n, c.disp + e.disp, e.extent, e.typ.size),
        Copies(c.cnt - n, c.disp + n * e.extent + e.disp, e.extent, e.typ.size) + [MARK],
              Beyond(D, c.fs, c.pos, how) + ([MARK] + Later(D, c.fs, how)));
  }

  // ---------------------------------------------------------------- ends of loops

  lemma AtEnd(D: Desc, c: Cursor, how: Reading)
    requires Valid(D, c, how) && D.d[c.pos].EndLoop?
    ensures c.pos == End(D, Top(c.fs).index) && Rest(D, c, how) == [MARK] + Later(D, c.fs, how)
  {
    hide Later, Stacked, Sound, Committed;
    if c.pos < End(D, Top(c.fs).index) { ItemAt(D, Top(c.fs).index, c.pos); }
    assert Current(D, c.pos, c.cnt, c.disp, how) == [] && Beyond(D, c.fs, c.pos, how) == [];
  }

  lemma BodyAt(D: Desc, i: int, l: int, how: Reading)
    requires Within(D, i, l, how)
    ensures At(D, l, l + 1) && Body(D, l) == D.d[l + 1..End(D, l)]
  {
    ItemAt(D, i, l);
    SliceOfSlice(D.d, l, End(D, i), 1, D.d[l].items);
  }

  lemma ValidParts(D: Desc, c: Cursor, how: Reading)
    requires Valid(D, c, how)
    ensures Committed(D) && Stacked(D, c.fs, how) && At(D, Top(c.fs).index, c.pos) && c.pos < |D.d|
    ensures (!D.d[c.pos].Elem? ==> c.disp == Top(c.fs).disp) && (D.d[c.pos].Loop? ==> c.cnt >= 1)
  {
  }

  /** The innermost of several frames. */
  lemma StackedParts(D: Desc, fs: seq<Frame>, rest: seq<Frame>, how: Reading)
    requires Stacked(D, fs, how) && |fs| > 1 && rest == fs[..|fs| - 1]
    ensures Stacked(D, rest, how) && Within(D, Top(rest).index, Top(fs).index, how) && Top(fs).count >= 1
    ensures Top(fs).index >= 0
  {
  }

  /** What follows the whole loop of the innermost frame. */
  function Outside(D: Desc, fs: seq<Frame>, rest: seq<Frame>, how: Reading): seq<MemUnit> {
    Trace(Part(D, End(D, Top(fs).index) + 1, End(D, Top(rest).index)),
          Top(rest).disp, how) + ([MARK] + Later(D, rest, how))
  }

  lemma LaterOutside(D: Desc, fs: seq<Frame>, rest: seq<Frame>, how: Reading)
    requires |fs| > 1 && Top(fs).count > 0 && rest == fs[..|fs| - 1]
    ensures Later(D, fs, how)
         == Turns(Body(D, Top(fs).index), Top(fs).count - 1, Stride(D, Top(fs).index),
                   Top(fs).disp + Stride(D, Top(fs).index), how)
            + Outside(D, fs, rest, how)
  {
  }

  /** Leaving the innermost loop. */
  lemma Leave(D: Desc, fs: seq<Frame>, rest: seq<Frame>, how: Reading)
    requires Committed(D) && Stacked(D, rest, how) && Within(D, Top(rest).index, Top(fs).index, how)
    requires Top(fs).index >= 0
    ensures End(D, Top(fs).index) >= 0 && Valid(D, Goto(D, rest, End(D, Top(fs).index) + 1), how)
    ensures Rest(D, Goto(D, rest, End(D, Top(fs).index) + 1), how) == Outside(D, fs, rest, how)
  {
    hide Sound, Committed, Stacked, Trace, Goto, Rest, Later;
    ItemAt(D, Top(rest).index, Top(fs).index);
    GotoRest(D, rest, End(D, Top(fs).index) + 1, how);
  }

  lemma NoTurns(body: seq<Entry>, extent: int, base: int, how: Reading, us: seq<MemUnit>)
    ensures Turns(body, 0, extent, base, how) + us == us
  {
  }

  /** The last iteration of a loop ends. */
  lemma EndPop(D: Desc, c: Cursor, rest: seq<Frame>, how: Reading)
    requires Valid(D, c, how) && c.pos < |D.d| && D.d[c.pos].EndLoop? && |c.fs| > 1 && Top(c.fs).count == 1
    requires rest == c.fs[..|c.fs| - 1]
    ensures Valid(D, Goto(D, rest, c.pos + 1), how)
    ensures Rest(D, c, how) == [MARK] + Rest(D, Goto(D, rest, c.pos + 1), how)
  {
    hide *;
    ValidParts(D, c, how);
    AtEnd(D, c, how);
    StackedParts(D, c.fs, rest, how);
    LaterOutside(D, c.fs, rest, how);
    Leave(D, c.fs, rest, how);
    NoTurns(Body(D, Top(c.fs).index), Stride(D, Top(c.fs).index), Top(c.fs).disp + Stride(D, Top(c.fs).index), how,
        Outside(D, c.fs, rest, how));
  }

  lemma TurnsCons(body: seq<Entry>, n: nat, extent: int, base: int, how: Reading)
    requires n > 0
    ensures Turns(body, n, extent, base, how)
         == Trace(body, base, how) + ([MARK] + Turns(body, n - 1, extent, base + extent, how))
  {
    Associate(Trace(body, base, how), [MARK], Turns(body, n - 1, extent, base + extent, how));
  }

  lemma Pushed(D: Desc, rest: seq<Frame>, f: Frame, how: Reading)
    requires Stacked(D, rest, how) && Within(D, Top(rest).index, f.index, how) && f.count >= 1
    ensures Stacked(D, rest + [f], how) && Top(rest + [f]) == f && rest != [] && (rest + [f])[..|rest|] == rest
  {
    assert (rest + [f])[..|rest|] == rest;
  }

  /** An iteration of the loop of frame f, on top of rest, starts. */
  lemma Turn(D: Desc, rest: seq<Frame>, f: Frame, fs: seq<Frame>, how: Reading)
    requires Committed(D) && Stacked(D, rest, how) && Within(D, Top(rest).index, f.index, how)
    requires f.count >= 1 && f.index >= 0 && fs == rest + [f]
    ensures Valid(D, Goto(D, fs, f.index + 1), how)
    ensures Rest(D, Goto(D, fs, f.index + 1), how)
         == Turns(Body(D, f.index), f.count, Stride(D, f.index), f.disp, how) + Outside(D, fs, rest, how)
  {
    hide *;
    Pushed(D, rest, f, how);
    BodyAt(D, Top(rest).index, f.index, how);
    GotoRest(D, fs, f.index + 1, how);
    LaterOutside(D, fs, rest, how);
    TurnsCons(Body(D, f.index), f.count, Stride(D, f.index), f.disp, how);
    TurnAlgebra(Trace(Body(D, f.index), f.disp, how),
                Turns(Body(D, f.index), f.count - 1, Stride(D, f.index), f.disp + Stride(D, f.index), how), Outside(D,
                    fs, rest, how));
  }

  lemma TurnAlgebra(body: seq<MemUnit>, turns: seq<MemUnit>, outside: seq<MemUnit>)
    ensures body + ([MARK] + (turns + outside)) == body + ([MARK] + turns) + outside
  {
  }

  /** A further iteration of a loop starts. */
  lemma EndAgain(D: Desc, c: Cursor, rest: seq<Frame>, next: Frame, how: Reading)
    requires Valid(D, c, how) && c.pos < |D.d| && D.d[c.pos].EndLoop? && |c.fs| > 1 && Top(c.fs).count > 1
    requires rest == c.fs[..|c.fs| - 1]
    requires next == Frame(Top(c.fs).index, Top(c.fs).count - 1, Top(c.fs).disp + Stride(D, Top(c.fs).index))
    ensures next.index >= 0 && Valid(D, Goto(D, rest + [next], next.index + 1), how)
    ensures Rest(D, c, how) == [MARK] + Rest(D, Goto(D, rest + [next], next.index + 1), how)
  {
    hide *;
    ValidParts(D, c, how);
    AtEnd(D, c, how);
    StackedParts(D, c.fs, rest, how);
    LaterOutside(D, c.fs, rest, how);
    Pushed(D, rest, next, how);
    SameOutside(D, c.fs, rest + [next], rest, how);
    Turn(D, rest, next, rest + [next], how);
  }

  lemma SameOutside(D: Desc, fs: seq<Frame>, gs: seq<Frame>, rest: seq<Frame>, how: Reading)
    requires Top(fs).index == Top(gs).index
    ensures Outside(D, fs, rest, how) == Outside(D, gs, rest, how)
  {
  }

  // ---------------------------------------------------------------- loops

  lemma {:induction false} TurnsSplit(body: seq<Entry>, a: nat, b: nat, extent: int, base: int, how: Reading)
    ensures Turns(body, a + b, extent, base, how)
         == Turns(body, a, extent, base, how) + Turns(body, b, extent, base + a * extent, how)
    decreases a
  {
    if a > 0 {
      TurnsSplit(body, a - 1, b, extent, base + extent, how);
      assert base + extent + (a - 1) * extent == base + a * extent;
      Associate(Trace(body, base, how) + [MARK], Turns(body, a - 1, extent, base + extent, how),
          Turns(body, b, extent, base + a * extent, how));
    }
  }

  /** A loop under the cursor, when it is entered. */
  lemma LoopAt(D: Desc, c: Cursor, how: Reading)
    requires Valid(D, c, how) && c.pos < |D.d| && D.d[c.pos].Loop? && !(D.d[c.pos].contig && how == ByBlock)
    ensures Within(D, Top(c.fs).index, c.pos, how) && Skip(D, c.pos) == End(D, c.pos) + 1
    ensures Stride(D, c.pos) == D.d[c.pos].extent
    ensures Current(D, c.pos, c.cnt, c.disp, how)
         == [MARK] + Turns(Body(D, c.pos), c.cnt, Stride(D, c.pos), c.disp, how)
  {
    hide Stacked, Committed, Trace, Turns, Later, Sound;
    if c.pos == End(D, Top(c.fs).index) { assert false; }
    ItemAt(D, Top(c.fs).index, c.pos);
  }

  lemma RestAt(D: Desc, c: Cursor, fs: seq<Frame>, how: Reading)
    requires Top(fs).index == c.pos && Skip(D, c.pos) == End(D, c.pos) + 1
    ensures Rest(D, c, how) == Current(D, c.pos, c.cnt, c.disp, how) + Outside(D, fs, c.fs, how)
  {
  }

  /** n iterations visited at once, the rest of the loop entered. */
  lemma LoopPush(D: Desc, c: Cursor, n: nat, f: Frame, how: Reading)
    requires Valid(D, c, how) && c.pos < |D.d| && D.d[c.pos].Loop? && !(D.d[c.pos].contig && how == ByBlock)
    requires n < c.cnt
    requires f == Frame(c.pos, c.cnt - n, c.disp + n * Stride(D, c.pos))
    ensures Valid(D, Goto(D, c.fs + [f], c.pos + 1), how)
    ensures Rest(D, c, how) == [MARK] + Turns(Body(D, c.pos), n, Stride(D, c.pos), c.disp, how)
              + Rest(D, Goto(D, c.fs + [f], c.pos + 1), how)
  {
    hide *;
    ValidParts(D, c, how);
    LoopAt(D, c, how);
    Pushed(D, c.fs, f, how);
    RestAt(D, c, c.fs + [f], how);
    Turn(D, c.fs, f, c.fs + [f], how);
    TurnsSplit(Body(D, c.pos), n, c.cnt - n, Stride(D, c.pos), c.disp, how);
    PushAlgebra(Turns(Body(D, c.pos), n, Stride(D, c.pos), c.disp, how),
                Turns(Body(D, c.pos), c.cnt - n, Stride(D, c.pos), f.disp, how), Outside(D, c.fs + [f], c.fs, how));
  }

  lemma PushAlgebra(some: seq<MemUnit>, rest: seq<MemUnit>, outside: seq<MemUnit>)
    ensures [MARK] + (some + rest) + outside == [MARK] + some + (rest + outside)
  {
  }

  /** Moving past the entry under the cursor. */
  lemma Past(D: Desc, c: Cursor, how: Reading)
    requires Valid(D, c, how) && c.pos < |D.d| && !D.d[c.pos].EndLoop?
    ensures Valid(D, Goto(D, c.fs, Skip(D, c.pos)), how)
    ensures Rest(D, c, how) == Current(D, c.pos, c.cnt, c.disp, how) + Rest(D, Goto(D, c.fs, Skip(D, c.pos)), how)
  {
    hide Stacked, Committed, Trace, Turns, Later, Sound, Copies, Goto, Current;
    if c.pos == End(D, Top(c.fs).index) { assert false; }
    ItemAt(D, Top(c.fs).index, c.pos);
    GotoRest(D, c.fs, Skip(D, c.pos), how);
  }

  /** A CONTIGUOUS loop visited as blocks. */
  lemma BlockAt(D: Desc, c: Cursor)
    requires Valid(D, c, ByBlock) && c.pos < |D.d| && D.d[c.pos].Loop? && D.d[c.pos].contig
    ensures 1 <= D.d[c.pos].items < |D.d| - c.pos && D.d[c.pos + D.d[c.pos].items].EndLoop?
    ensures Current(D, c.pos, c.cnt, c.disp, ByBlock)
         == Copies(c.cnt, c.disp + D.d[c.pos + D.d[c.pos].items].first,
                   D.d[c.pos].extent, D.d[c.pos + D.d[c.pos].items].size) + [MARK]
  {
    hide Stacked, Committed, Trace, Turns, Later, Sound, Copies;
    if c.pos == End(D, Top(c.fs).index) { assert false; }
    ItemAt(D, Top(c.fs).index, c.pos);
  }

  // ---------------------------------------------------------------- the bottom of the stack

  /** The cursor at the start of an instance of the description. */
  lemma Begin(D: Desc, f: Frame, how: Reading)
    requires Committed(D) && f.index == -1 && f.count >= 1
    ensures Valid(D, Goto(D, [f], 0), how)
    ensures Rest(D, Goto(D, [f], 0), how) == Trace(D.d[..D.used], f.disp, how) + [MARK]
    ensures Todo(D, Goto(D, [f], 0), how) == Turns(D.d[..D.used], f.count, D.extent, f.disp, how)
  {
    hide Sound, Trace, Turns, Rest;
    assert D.d[0..D.used] == D.d[..D.used];
    GotoRest(D, [f], 0, how);
    assert [MARK] + Later(D, [f], how) == [MARK];
    TurnsCons(D.d[..D.used], f.count, D.extent, f.disp, how);
    Associate(Trace(D.d[..D.used], f.disp, how), [MARK],
        Turns(D.d[..D.used], f.count - 1, D.extent, f.disp + D.extent, how));
  }

  /** A whole instance ends. */
  lemma EndInstance(D: Desc, c: Cursor, how: Reading)
    requires Valid(D, c, how) && c.pos < |D.d| && D.d[c.pos].EndLoop? && |c.fs| == 1
    ensures c.fs[0].index == -1 && c.fs[0].count >= 1 && Rest(D, c, how) == [MARK]
    ensures Todo(D, c, how) == [MARK] + Turns(D.d[..D.used], c.fs[0].count - 1, D.extent, c.fs[0].disp + D.extent, how)
  {
    hide Sound, Trace, Rest, Turns;
    AtEnd(D, c, how);
    assert [MARK] + Later(D, c.fs, how) == [MARK];
  }

  /** The next instance starts. */
  lemma NextInstance(D: Desc, c: Cursor, f: Frame, how: Reading)
    requires Valid(D, c, how) && c.pos < |D.d| && D.d[c.pos].EndLoop? && |c.fs| == 1 && c.fs[0].count > 1
    requires f == Frame(-1, c.fs[0].count - 1, c.fs[0].disp + D.extent)
    ensures Valid(D, Goto(D, [f], 0), how) && Todo(D, c, how) == [MARK] + Todo(D, Goto(D, [f], 0), how)
  {
    hide *;
    ValidParts(D, c, how);
    EndInstance(D, c, how);
    Begin(D, f, how);
  }

  lemma LastInstance(D: Desc, c: Cursor, how: Reading)
    requires Valid(D, c, how) && c.pos < |D.d| && D.d[c.pos].EndLoop? && |c.fs| == 1 && c.fs[0].count == 1
    ensures Todo(D, c, how) == [MARK]
  {
    EndInstance(D, c, how);
  }

  // ---------------------------------------------------------------- steps

  /** The machine went from c to c', visiting us; it stayed in an instance of the description, or
      started the next one. */
  ghost predicate Moves(D: Desc, c: Cursor, us: seq<MemUnit>, c': Cursor, how: Reading) {
    && Valid(D, c', how) && us != [] && c.fs != [] && c'.fs != []
    && Todo(D, c, how) == us + Todo(D, c', how)
    && ((c'.fs[0] == c.fs[0] && Rest(D, c, how) == us + Rest(D, c', how))
        || (Fresh(D, c', how) && us == [MARK] && Rest(D, c, how) == [MARK]))
  }

  /** The cursor is at the start of an instance. */
  ghost predicate Fresh(D: Desc, c: Cursor, how: Reading) {
    D.used <= |D.d| && c.fs != [] && Rest(D, c, how) == Trace(D.d[..D.used], c.fs[0].disp, how) + [MARK]
  }

  lemma StackNonEmpty(D: Desc, fs: seq<Frame>, how: Reading)
    requires Stacked(D, fs, how)
    ensures fs != [] && fs[|fs| - 1] == Top(fs) && Top(fs).count >= 1 && (|fs| == 1 ==> fs[0].index == -1)
  {
  }

  /** A move within an instance. */
  lemma Within1(D: Desc, c: Cursor, us: seq<MemUnit>, c': Cursor, how: Reading)
    requires Valid(D, c', how) && us != [] && c.fs != [] && c'.fs != [] && c'.fs[0] == c.fs[0]
    requires Rest(D, c, how) == us + Rest(D, c', how)
    ensures Moves(D, c, us, c', how)
  {
    hide Rest, More, Valid;
    Associate(us, Rest(D, c', how), More(D, c.fs[0], how));
  }

  lemma DataMoves(D: Desc, c: Cursor, n: nat, how: Reading)
    requires Valid(D, c, how) && c.pos < |D.d| && D.d[c.pos].Elem? && 0 < n <= c.cnt
    ensures Moves(D, c, Copies(n, c.disp + D.d[c.pos].disp, D.d[c.pos].extent, D.d[c.pos].typ.size),
                  c.(cnt := c.cnt - n, disp := c.disp + n * D.d[c.pos].extent), how)
  {
    hide Valid, Rest, Moves;
    ValidParts(D, c, how);
    StackNonEmpty(D, c.fs, how);
    DataSome(D, c, n, how);
    Within1(D, c, Copies(n, c.disp + D.d[c.pos].disp, D.d[c.pos].extent, D.d[c.pos].typ.size),
            c.(cnt := c.cnt - n, disp := c.disp + n * D.d[c.pos].extent), how);
  }

  lemma PastMoves(D: Desc, c: Cursor, how: Reading)
    requires Valid(D, c, how) && c.pos < |D.d| && !D.d[c.pos].EndLoop? && Current(D, c.pos, c.cnt, c.disp, how) != []
    ensures Moves(D, c, Current(D, c.pos, c.cnt, c.disp, how), Goto(D, c.fs, Skip(D, c.pos)), how)
  {
    hide Valid, Rest, Moves, Current;
    ValidParts(D, c, how);
    StackNonEmpty(D, c.fs, how);
    Past(D, c, how);
    Within1(D, c, Current(D, c.pos, c.cnt, c.disp, how), Goto(D, c.fs, Skip(D, c.pos)), how);
  }

  lemma PushMoves(D: Desc, c: Cursor, n: nat, f: Frame, how: Reading)
    requires Valid(D, c, how) && c.pos < |D.d| && D.d[c.pos].Loop? && !(D.d[c.pos].contig && how == ByBlock)
    requires n < c.cnt
    requires f == Frame(c.pos, c.cnt - n, c.disp + n * Stride(D, c.pos))
    ensures Moves(D, c, [MARK] + Turns(Body(D, c.pos), n, Stride(D, c.pos), c.disp, how),
                  Goto(D, c.fs + [f], c.pos + 1), how)
  {
    hide Valid, Rest, Moves, Turns;
    ValidParts(D, c, how);
    StackNonEmpty(D, c.fs, how);
    LoopPush(D, c, n, f, how);
    Within1(D, c, [MARK] + Turns(Body(D, c.pos), n, Stride(D, c.pos), c.disp, how), Goto(D, c.fs + [f], c.pos + 1),
        how);
  }

  /** The END_LOOP of the outermost frame, in its last instance. */
  predicate Last(c: Cursor) { |c.fs| == 1 && Top(c.fs).count == 1 }

  /** What the machine does at any other END_LOOP: leave the loop, or start its next iteration. */
  function EndStep(D: Desc, c: Cursor): Cursor
    requires c.fs != [] && !Last(c) && Top(c.fs).count >= 1 && Top(c.fs).index >= -1
  {
    var top, rest := Top(c.fs), c.fs[..|c.fs| - 1];
    if top.count == 1 then Goto(D, rest, c.pos + 1)
    else Goto(D, rest + [Frame(top.index, top.count - 1, top.disp + Stride(D, top.index))], top.index + 1)
  }

  lemma TopAbove(D: Desc, c: Cursor, how: Reading)
    requires Valid(D, c, how)
    ensures c.fs != [] && Top(c.fs).count >= 1 && Top(c.fs).index >= -1 && c.pos <= D.used < |D.d|
    ensures |c.fs| == 1 ==> Stride(D, Top(c.fs).index) == D.extent && Top(c.fs) == c.fs[0] && c.fs[0].index == -1
  {
  }

  lemma EndMoves(D: Desc, c: Cursor, how: Reading)
    requires Valid(D, c, how) && c.pos < |D.d| && D.d[c.pos].EndLoop? && !Last(c) && c.fs != [] && Top(c.fs).count >= 1
    requires Top(c.fs).index >= -1
    ensures Moves(D, c, [MARK], EndStep(D, c), how)
  {
    hide Valid, Rest, Moves, Goto, Stride, Todo, Later;
    TopAbove(D, c, how);
    var top, rest := Top(c.fs), c.fs[..|c.fs| - 1];
    var f := Frame(top.index, top.count - 1, top.disp + Stride(D, top.index));
    if |c.fs| == 1 {
      BottomMoves(D, c, f, how);
      assert rest + [f] == [f];
    } else if top.count == 1 {
      EndPop(D, c, rest, how);
      GotoStack(D, rest, c.pos + 1);
      Within1(D, c, [MARK], Goto(D, rest, c.pos + 1), how);
    } else {
      EndAgain(D, c, rest, f, how);
      GotoStack(D, rest + [f], f.index + 1);
      Within1(D, c, [MARK], Goto(D, rest + [f], f.index + 1), how);
    }
  }

  lemma GotoStack(D: Desc, fs: seq<Frame>, pos: nat)
    ensures Goto(D, fs, pos).fs == fs
  {
  }

  lemma BottomMoves(D: Desc, c: Cursor, f: Frame, how: Reading)
    requires Valid(D, c, how) && c.pos < |D.d| && D.d[c.pos].EndLoop? && |c.fs| == 1 && c.fs[0].count > 1
    requires f == Frame(-1, c.fs[0].count - 1, c.fs[0].disp + D.extent)
    ensures Moves(D, c, [MARK], Goto(D, [f], 0), how)
  {
    hide Valid, Rest, Goto, Todo;
    ValidParts(D, c, how);
    EndInstance(D, c, how);
    NextInstance(D, c, f, how);
    Begin(D, f, how);
    GotoStack(D, [f], 0);
    CommittedParts(D);
  }

  lemma CommittedParts(D: Desc)
    requires Committed(D)
    ensures D.used < |D.d| && Sound(D.d[..D.used], Sized) && Nested(D.d[..D.used])
  {
    SoundNested(D.d[..D.used], Sized);
  }

  /** The tokens of one instance. */
  function Instance(D: Desc, disp: int, how: Reading): seq<MemUnit> {
    Trace(D.d[..if D.used <= |D.d| then D.used else 0], disp, how) + [MARK]
  }

  /** The elements left of the current instance are a suffix of its elements. */
  ghost predicate InInstance(D: Desc, c: Cursor, how: Reading) {
    exists pre: seq<MemUnit> :: c.fs != [] && Real(Instance(D, c.fs[0].disp, how)) == pre + Real(Rest(D, c, how))
  }

  /** The machine went from c0 to c, visiting us. */
  ghost predicate Ran(D: Desc, c0: Cursor, us: seq<MemUnit>, c: Cursor, how: Reading) {
    Valid(D, c, how) && InInstance(D, c, how) && Todo(D, c0, how) == us + Todo(D, c, how)
  }

  lemma MovesInInstance(D: Desc, c: Cursor, vs: seq<MemUnit>, c': Cursor, how: Reading)
    requires InInstance(D, c, how) && Moves(D, c, vs, c', how)
    ensures InInstance(D, c', how)
  {
    hide Rest, Valid, Todo, Trace, Real;
    if c'.fs[0] == c.fs[0] && Rest(D, c, how) == vs + Rest(D, c', how) {
      var pre: seq<MemUnit> :| Real(Instance(D, c.fs[0].disp, how)) == pre + Real(Rest(D, c, how));
      RealAppend(vs, Rest(D, c', how));
      Associate(pre, Real(vs), Real(Rest(D, c', how)));
      assert Real(Instance(D, c'.fs[0].disp, how)) == pre + Real(vs) + Real(Rest(D, c', how));
    } else {
      assert Real(Instance(D, c'.fs[0].disp, how)) == [] + Real(Rest(D, c', how));
    }
  }

  lemma RanStep(D: Desc, c0: Cursor, us: seq<MemUnit>, c: Cursor, vs: seq<MemUnit>, c': Cursor, how: Reading)
    requires Ran(D, c0, us, c, how) && Moves(D, c, vs, c', how)
    ensures Ran(D, c0, us + vs, c', how) && |Todo(D, c', how)| < |Todo(D, c, how)|
  {
    hide Rest, Valid, Todo, InInstance;
    MovesInInstance(D, c, vs, c', how);
    Associate(us, vs, Todo(D, c', how));
  }

  lemma RanStart(D: Desc, c: Cursor, how: Reading)
    requires Valid(D, c, how) && InInstance(D, c, how)
    ensures Ran(D, c, [], c, how)
  {
    assert Todo(D, c, how) == [] + Todo(D, c, how);
  }

  /** A CONTIGUOUS loop that may be entered records a block of the size of its body. */
  lemma SizedAt(D: Desc, c: Cursor)
    requires Valid(D, c, ByBody) && c.pos < |D.d| && D.d[c.pos].Loop?
    ensures 1 <= D.d[c.pos].items < |D.d| - c.pos && D.d[c.pos + D.d[c.pos].items].EndLoop?
    ensures D.d[c.pos].contig ==> |Bytes(Body(D, c.pos), ByBody)| == D.d[c.pos + D.d[c.pos].items].size
  {
    hide Stacked, Committed, Later, Sound, Bytes;
    if c.pos == End(D, Top(c.fs).index) { assert false; }
    ItemAt(D, Top(c.fs).index, c.pos);
    SliceOfSlice(D.d, c.pos, End(D, Top(c.fs).index), 1, D.d[c.pos].items);
  }

  /** If the description is truthful, the block is the body. */
  lemma TruthAt(D: Desc, c: Cursor)
    requires Valid(D, c, ByBody) && c.pos < |D.d| && D.d[c.pos].Loop? && D.d[c.pos].contig
    requires D.used <= |D.d| && Sound(D.d[..D.used], Truthful)
    ensures c.pos + D.d[c.pos].items < |D.d| && D.d[c.pos + D.d[c.pos].items].EndLoop?
    ensures Bytes(Body(D, c.pos), ByBody)
         == Range(D.d[c.pos + D.d[c.pos].items].first, D.d[c.pos + D.d[c.pos].items].size)
  {
    hide Stacked, Later, Sound, Bytes;
    SizedAt(D, c);
    Before(D, c);
    var s := D.d[..D.used];
    assert s[c.pos] == D.d[c.pos];
    SoundWithin(s, Truthful, c.pos);
    assert s[c.pos + 1..c.pos + s[c.pos].items] == Body(D, c.pos);
  }

  lemma Before(D: Desc, c: Cursor)
    requires Valid(D, c, ByBody) && c.pos < |D.d| && D.d[c.pos].Loop?
    ensures c.pos < D.used < |D.d|
  {
    hide Stacked, Later, Sound, Bytes;
  }

  /** Iterations of a CONTIGUOUS loop have as many bytes as its blocks; the same ones if it is truthful. */
  lemma BlocksBytes(body: seq<Entry>, n: nat, extent: int, base: int, first: int, size: nat)
    requires |Bytes(body, ByBody)| == size
    ensures |Flatten([MARK] + Turns(body, n, extent, base, ByBody))| == n * size
    ensures Bytes(body, ByBody) == Range(first, size) ==>
      Flatten([MARK] + Turns(body, n, extent, base, ByBody)) == Flatten(Copies(n, base + first, extent, size))
  {
    hide Bytes, Units, Turns;
    TurnsBytes(body, n, extent, base, ByBody);
    MarkBytes(Turns(body, n, extent, base, ByBody));
    RepeatSize(body, n, extent, base, ByBody);
    if Bytes(body, ByBody) == Range(first, size) { RepeatBlocks(body, n, extent, base, first, size, ByBody); }
  }
}
