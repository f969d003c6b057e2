/**
 Packing a described buffer into a sequence of contiguous pieces (opal_datatype_pack.c and .h).
 */
module Pack {
  import opened Description
  import opened Soundness
  import opened Engine

  newtype Byte = x: int | 0 <= x < 256

  /** The user buffer, by displacement from its base. */
  type Memory = int -> Byte

  function Read(mem: Memory, at: seq<int>): seq<Byte> {
    seq(|at|, i requires 0 <= i < |at| => mem(at[i]))
  }

  lemma ReadAppend(mem: Memory, a: seq<int>, b: seq<int>)
    ensures Read(mem, a + b) == Read(mem, a) + Read(mem, b)
  {
  }

  /** How many of cnt pieces of the given size go into a space. */
  function Fit(cnt: nat, size: nat, space: nat): (k: nat)
    ensures k <= cnt && k * size <= space && (k < cnt ==> space - k * size < size)
  {
    if cnt * size > space then FitLess(cnt, size, space); space / size else cnt
  }

  lemma FitLess(cnt: nat, size: nat, space: nat)
    requires cnt * size > space
    ensures size > 0 && space / size < cnt && space / size * size <= space < space / size * size + size
  {
    MulOrder(cnt, space / size, size);
  }

  // ---------------------------------------------------------------- copying

  /** memcpy from the user buffer. */
  method CopyIn(mem: Memory, at: int, len: nat, dest: array<Byte>, n: nat)
    requires n + len <= dest.Length
    modifies dest
    ensures dest[..n + len] == old(dest[..n]) + Read(mem, Range(at, len))
    ensures dest[n + len..] == old(dest[n + len..])
  {
    var i := 0;
    while i < len
      invariant i <= len && dest[n + i..] == old(dest[n + i..])
      invariant dest[..n + i] == old(dest[..n]) + Read(mem, Range(at, i))
    {
      assert Read(mem, Range(at, i + 1)) == Read(mem, Range(at, i)) + [mem(at + i)];
      dest[n + i] := mem(at + i);
      i := i + 1;
    }
  }

  lemma NextCopy(i: nat, k: nat, step: int, size: nat)
    requires i < k
    ensures i * size + size == (i + 1) * size <= k * size && i * step + step == (i + 1) * step
  {
    MulOrder(i + 1, k, size);
  }

  /** Elements, or blocks, a stride apart. */
  method CopyStrided(mem: Memory, at: int, step: int, size: nat, k: nat, dest: array<Byte>, n: nat)
    requires n + k * size <= dest.Length
    modifies dest
    ensures dest[..n + k * size] == old(dest[..n]) + Read(mem, Flatten(Copies(k, at, step, size)))
    ensures dest[n + k * size..] == old(dest[n + k * size..])
  {
    hide Flatten, Copies, Range;
    var i, source, to := 0, at, n;
    NoBytes(at, step, size);
    while i < k
      invariant i <= k && to == n + i * size <= dest.Length && source == at + i * step
      invariant dest[..to] == old(dest[..n]) + Read(mem, Flatten(Copies(i, at, step, size)))
      invariant dest[to..] == old(dest[to..])
    {
      NextCopy(i, k, step, size);
      CopyIn(mem, source, size, dest, to);
      CopiesSnoc(i, at, step, size);
      ReadAppend(mem, Flatten(Copies(i, at, step, size)), Range(source, size));
      Associate(old(dest[..n]), Read(mem, Flatten(Copies(i, at, step, size))), Read(mem, Range(source, size)));
      i, source, to := i + 1, source + step, to + size;
    }
  }

  /** pack_predefined_data: as many elements as fit. */
  method PackData(mem: Memory, e: Entry, cnt: nat, disp: int, dest: array<Byte>, n: nat) returns (k: nat, n': nat)
    requires e.Elem? && n <= dest.Length
    modifies dest
    ensures k == Fit(cnt, e.typ.size, dest.Length - n) && n' == n + k * e.typ.size
    ensures dest[..n'] == old(dest[..n]) + Read(mem, Flatten(Copies(k, disp + e.disp, e.extent, e.typ.size)))
    ensures dest[n'..] == old(dest[n'..])
  {
    k := Fit(cnt, e.typ.size, dest.Length - n);
    n' := n + k * e.typ.size;
    if e.typ.size == e.extent {
      CopiesSolid(k, disp + e.disp, e.typ.size);
      CopyIn(mem, disp + e.disp, k * e.typ.size, dest, n);
    } else {
      CopyStrided(mem, disp + e.disp, e.extent, e.typ.size, k, dest, n);
    }
  }

  /** pack_contiguous_loop: as many blocks as fit. */
  method PackBlocks(mem: Memory, loop: Entry, end: Entry, cnt: nat, disp: int, dest: array<Byte>, n: nat)
    returns (k: nat, n': nat)
    requires loop.Loop? && end.EndLoop? && n <= dest.Length
    modifies dest
    ensures k == Fit(cnt, end.size, dest.Length - n) && n' == n + k * end.size
    ensures dest[..n'] == old(dest[..n]) + Read(mem, Flatten(Copies(k, disp + end.first, loop.extent, end.size)))
    ensures dest[n'..] == old(dest[n'..])
  {
    k := Fit(cnt, end.size, dest.Length - n);
    n' := n + k * end.size;
    CopyStrided(mem, disp + end.first, loop.extent, end.size, k, dest, n);
  }

  // ---------------------------------------------------------------- the machine

  /** What a step leads to: the machine goes on, the space is used up, or everything is packed. */
  datatype Outcome = Goes | Full | Ends

  /** A step: the cursor after it, the displacements of the bytes that it packs, and what it leads to. */
  datatype Step = Step(c: Cursor, at: seq<int>, out: Outcome)

  /** A data entry: pack what fits, and go to the next entry if all of it did. */
  function DataStep(D: Desc, c: Cursor, space: nat): Step
    requires c.pos < |D.d| && D.d[c.pos].Elem?
  {
    var e := D.d[c.pos];
    var k := Fit(c.cnt, e.typ.size, space);
    var at := Flatten(Copies(k, c.disp + e.disp, e.extent, e.typ.size));
    if k == c.cnt then Step(Goto(D, c.fs, c.pos + 1), at, Goes)
    else Step(c.(cnt := c.cnt - k, disp := c.disp + k * e.extent), at, Full)
  }

  /** How many blocks of a loop are packed as its END_LOOP records them. */
  function BlockCount(loop: Entry, end: Entry, cnt: nat, space: nat): nat
    requires loop.Loop? && end.EndLoop?
  {
    if loop.contig then Fit(cnt, end.size, space) else 0
  }

  /** A loop: the blocks of a CONTIGUOUS one are packed while they fit; what is left is entered. */
  function LoopStep(D: Desc, c: Cursor, space: nat): Step
    requires c.pos < |D.d| && D.d[c.pos].Loop? && c.pos + D.d[c.pos].items < |D.d|
    requires D.d[c.pos + D.d[c.pos].items].EndLoop?
  {
    var loop, end := D.d[c.pos], D.d[c.pos + D.d[c.pos].items];
    var k := BlockCount(loop, end, c.cnt, space);
    var at := Flatten(Copies(k, c.disp + end.first, loop.extent, end.size));
    if k >= c.cnt then Step(Goto(D, c.fs, c.pos + loop.items + 1), at, Goes)
    else Step(Goto(D, c.fs + [Frame(c.pos, c.cnt - k, c.disp + k * loop.extent)], c.pos + 1), at, Goes)
  }

  /** An END_LOOP: the loop is left or runs again, unless it is the last one. */
  function EndingStep(D: Desc, c: Cursor): Step {
    if Last(c) || c.fs == [] || Top(c.fs).count < 1 || Top(c.fs).index < -1 then Step(c, [], Ends)
    else Step(EndStep(D, c), [], Goes)
  }

  /** One turn of the loop of opal_generic_simple_pack_function. */
  function OneStep(D: Desc, c: Cursor, space: nat): Step
    requires Bracketed(D, c)
  {
    match D.d[c.pos]
    case Elem(_, _, _, _, _) => DataStep(D, c, space)
    case Loop(_, _, _, _) => LoopStep(D, c, space)
    case EndLoop(_, _, _) => EndingStep(D, c)
  }

  predicate Bracketed(D: Desc, c: Cursor) {
    c.pos < |D.d| && (D.d[c.pos].Loop? ==> c.pos + D.d[c.pos].items < |D.d| && D.d[c.pos + D.d[c.pos].items].EndLoop?)
  }

  /** The cursor is at an element that does not fit. */
  predicate Stuck(D: Desc, c: Cursor, space: nat) {
    c.pos < |D.d| && D.d[c.pos].Elem? && c.cnt > 0 && D.d[c.pos].typ.size > space
  }

  /** A cursor that the machine can go on from. */
  ghost predicate Live(D: Desc, c: Cursor) { Valid(D, c, ByBody) && InInstance(D, c, ByBody) }

  /** The CONTIGUOUS loops of the description tell the truth. */
  ghost predicate Honest(D: Desc) { D.used <= |D.d| && Sound(D.d[..D.used], Truthful) }

  lemma NoTokens()
    ensures Flatten([]) == [] && Flatten([MARK]) == []
  {
    assert Flatten([MARK]) == Range(0, 0) + Flatten([]);
  }

  lemma CurrentData(D: Desc, pos: nat, disp: int, how: Reading)
    requires pos < |D.d| && D.d[pos].Elem?
    ensures Current(D, pos, 0, disp, how) == [MARK] && Skip(D, pos) == pos + 1
  {
  }

  lemma RanValid(D: Desc, c0: Cursor, us: seq<MemUnit>, c: Cursor)
    requires Ran(D, c0, us, c, ByBody)
    ensures Valid(D, c, ByBody) && Live(D, c)
  {
  }

  lemma NoCopies(at: int, step: int, size: nat, us: seq<MemUnit>)
    ensures us + Copies(0, at, step, size) == us
  {
  }

  lemma LoopCount(D: Desc, c: Cursor)
    requires Valid(D, c, ByBody) && c.pos < |D.d| && D.d[c.pos].Loop?
    ensures c.cnt >= 1
  {
  }

  lemma NoTurnsBytes(body: seq<Entry>, extent: int, base: int)
    ensures Flatten([MARK] + Turns(body, 0, extent, base, ByBody)) == []
  {
    MarkBytes(Turns(body, 0, extent, base, ByBody));
  }

  lemma RanTodo(D: Desc, c0: Cursor, us: seq<MemUnit>, c: Cursor)
    requires Ran(D, c0, us, c, ByBody)
    ensures Todo(D, c0, ByBody) == us + Todo(D, c, ByBody)
  {
  }

  /** The units vs have as many bytes as the step packs; the same ones if the description is truthful, no byte is
      packed or no loop is involved. */
  ghost predicate Covers(D: Desc, c: Cursor, s: Step, space: nat, vs: seq<MemUnit>) {
    && |Flatten(vs)| == |s.at| <= space
    && (c.pos < |D.d| && (!D.d[c.pos].Loop? || Honest(D) || space == 0) ==> Flatten(vs) == s.at)
  }

  /** A step that goes on visits vs. */
  ghost predicate Visits(D: Desc, c0: Cursor, us: seq<MemUnit>, c: Cursor, s: Step, vs: seq<MemUnit>) {
    match s.out
    case Goes => Ran(D, c0, us + vs, s.c, ByBody) && |Todo(D, s.c, ByBody)| < |Todo(D, c, ByBody)|
    case Full => Ran(D, c0, us + vs, s.c, ByBody)
    case Ends => Todo(D, c0, ByBody) == us + vs
  }

  lemma DataVisits(D: Desc, c0: Cursor, us: seq<MemUnit>, c: Cursor, space: nat) returns (vs: seq<MemUnit>)
    requires Bracketed(D, c) && Ran(D, c0, us, c, ByBody) && D.d[c.pos].Elem?
    ensures var s := OneStep(D, c, space);
      && Covers(D, c, s, space, vs) && Visits(D, c0, us, c, s, vs) && !s.out.Ends?
      && (s.out.Full? ==> Stuck(D, s.c, space - |s.at|))
  {
    hide Ran, Todo, Flatten, Copies, Moves, Current, Honest, Goto, Fit;
    var e := D.d[c.pos];
    var k := Fit(c.cnt, e.typ.size, space);
    vs := Copies(k, c.disp + e.disp, e.extent, e.typ.size);
    CopiesSize(k, c.disp + e.disp, e.extent, e.typ.size);
    var c1 := c.(cnt := c.cnt - k, disp := c.disp + k * e.extent);
    SomeVisited(D, c0, us, c, k);
    if k == c.cnt {
      PastData(D, c0, us + vs, c1);
      Associate(us, vs, [MARK]);
      FlattenAppend(vs, [MARK]);
      NoTokens();
      vs := vs + [MARK];
    }
  }

  lemma SomeVisited(D: Desc, c0: Cursor, us: seq<MemUnit>, c: Cursor, k: nat)
    requires Ran(D, c0, us, c, ByBody) && c.pos < |D.d| && D.d[c.pos].Elem? && k <= c.cnt
    ensures var e, c1 := D.d[c.pos], c.(cnt := c.cnt - k, disp := c.disp + k * D.d[c.pos].extent);
      && Ran(D, c0, us + Copies(k, c.disp + e.disp, e.extent, e.typ.size), c1, ByBody)
      && |Todo(D, c1, ByBody)| <= |Todo(D, c, ByBody)|
  {
    hide *;
    var e := D.d[c.pos];
    var c1 := c.(cnt := c.cnt - k, disp := c.disp + k * e.extent);
    if k > 0 {
      RanValid(D, c0, us, c);
      DataMoves(D, c, k, ByBody);
      RanStep(D, c0, us, c, Copies(k, c.disp + e.disp, e.extent, e.typ.size), c1, ByBody);
    } else {
      NoCopies(c.disp + e.disp, e.extent, e.typ.size, us);
      assert c1 == c;
    }
  }

  lemma PastData(D: Desc, c0: Cursor, us: seq<MemUnit>, c: Cursor)
    requires Ran(D, c0, us, c, ByBody) && c.pos < |D.d| && D.d[c.pos].Elem? && c.cnt == 0
    ensures Ran(D, c0, us + [MARK], Goto(D, c.fs, c.pos + 1), ByBody)
    ensures |Todo(D, Goto(D, c.fs, c.pos + 1), ByBody)| < |Todo(D, c, ByBody)|
  {
    hide *;
    RanValid(D, c0, us, c);
    CurrentData(D, c.pos, c.disp, ByBody);
    PastMoves(D, c, ByBody);
    RanStep(D, c0, us, c, [MARK], Goto(D, c.fs, c.pos + 1), ByBody);
  }

  lemma LoopVisits(D: Desc, c0: Cursor, us: seq<MemUnit>, c: Cursor, space: nat) returns (vs: seq<MemUnit>)
    requires Bracketed(D, c) && Ran(D, c0, us, c, ByBody) && D.d[c.pos].Loop?
    ensures var s := OneStep(D, c, space);
      Covers(D, c, s, space, vs) && Visits(D, c0, us, c, s, vs) && s.out.Goes?
  {
    hide Ran, Todo, Flatten, Copies, Moves, Turns, Rest, Bytes, Valid, Honest, Live, Fit, Goto;
    RanValid(D, c0, us, c);
    SizedAt(D, c);
    LoopAt(D, c, ByBody);
    LoopCount(D, c);
    var loop, end := D.d[c.pos], D.d[c.pos + D.d[c.pos].items];
    var k := BlockCount(loop, end, c.cnt, space);
    CopiesSize(k, c.disp + end.first, loop.extent, end.size);
    if loop.contig {
      BlocksBytes(Body(D, c.pos), k, loop.extent, c.disp, end.first, end.size);
      if Honest(D) { TrueAt(D, c); }
    } else {
      NoTurnsBytes(Body(D, c.pos), loop.extent, c.disp);
    }
    vs := [MARK] + Turns(Body(D, c.pos), k, loop.extent, c.disp, ByBody);
    var c1;
    if k == c.cnt {
      PastMoves(D, c, ByBody);
      c1 := Goto(D, c.fs, c.pos + loop.items + 1);
    } else {
      var f := Frame(c.pos, c.cnt - k, c.disp + k * loop.extent);
      PushMoves(D, c, k, f, ByBody);
      c1 := Goto(D, c.fs + [f], c.pos + 1);
    }
    RanStep(D, c0, us, c, vs, c1, ByBody);
  }

  lemma TrueAt(D: Desc, c: Cursor)
    requires Valid(D, c, ByBody) && Bracketed(D, c) && D.d[c.pos].Loop? && D.d[c.pos].contig && Honest(D)
    ensures Bytes(Body(D, c.pos), ByBody)
         == Range(D.d[c.pos + D.d[c.pos].items].first, D.d[c.pos + D.d[c.pos].items].size)
  {
    hide Valid, Sound, Bytes;
    TruthAt(D, c);
  }

  lemma EndVisits(D: Desc, c0: Cursor, us: seq<MemUnit>, c: Cursor, space: nat) returns (vs: seq<MemUnit>)
    requires Bracketed(D, c) && Ran(D, c0, us, c, ByBody) && D.d[c.pos].EndLoop?
    ensures var s := OneStep(D, c, space);
      Covers(D, c, s, space, vs) && Visits(D, c0, us, c, s, vs) && !s.out.Full?
  {
    hide Ran, Todo, Flatten, Moves, Rest, Valid;
    RanValid(D, c0, us, c);
    TopAbove(D, c, ByBody);
    NoTokens();
    vs := [MARK];
    if Last(c) {
      LastInstance(D, c, ByBody);
      RanTodo(D, c0, us, c);
    } else {
      EndMoves(D, c, ByBody);
      RanStep(D, c0, us, c, [MARK], EndStep(D, c), ByBody);
    }
  }

  lemma LiveBracketed(D: Desc, c: Cursor)
    requires Live(D, c)
    ensures Bracketed(D, c)
  {
    hide InInstance, Valid;
    TopAbove(D, c, ByBody);
    if D.d[c.pos].Loop? { SizedAt(D, c); }
  }

  /** One step of the machine. */
  lemma StepVisits(D: Desc, c0: Cursor, us: seq<MemUnit>, c: Cursor, space: nat) returns (vs: seq<MemUnit>)
    requires Ran(D, c0, us, c, ByBody)
    ensures Bracketed(D, c)
    ensures var s := OneStep(D, c, space);
      && Covers(D, c, s, space, vs) && Visits(D, c0, us, c, s, vs)
      && (s.out.Full? ==> Stuck(D, s.c, space - |s.at|))
  {
    hide Ran, Covers, Visits, Live, DataStep, LoopStep, EndingStep;
    RanValid(D, c0, us, c);
    LiveBracketed(D, c);
    match D.d[c.pos]
    case Elem(_, _, _, _, _) => vs := DataVisits(D, c0, us, c, space);
    case Loop(_, _, _, _) => vs := LoopVisits(D, c0, us, c, space);
    case EndLoop(_, _, _) => vs := EndVisits(D, c0, us, c, space);
  }

  /** A step leads to a live cursor and is nearer to the end. */
  lemma StepLive(D: Desc, c: Cursor, space: nat)
    requires Live(D, c)
    ensures Bracketed(D, c) && |OneStep(D, c, space).at| <= space
    ensures !OneStep(D, c, space).out.Ends? ==> Live(D, OneStep(D, c, space).c)
    ensures OneStep(D, c, space).out.Goes? ==> |Todo(D, OneStep(D, c, space).c, ByBody)| < |Todo(D, c, ByBody)|
  {
    hide Ran, OneStep, Todo;
    RanStart(D, c, ByBody);
    var vs := StepVisits(D, c, [], c, space);
    if !OneStep(D, c, space).out.Ends? { RanValid(D, c, [] + vs, OneStep(D, c, space).c); }
  }

  // ---------------------------------------------------------------- one iovec

  /** What the machine does with some space: where it stops, what it packed, and whether that was everything. */
  datatype Packing = Packing(c: Cursor, at: seq<int>, finished: bool)

  ghost function Then(at: seq<int>, r: Packing): Packing { r.(at := at + r.at) }

  /** The run of the machine on one iovec. */
  ghost function Packs(D: Desc, c: Cursor, space: nat): (r: Packing)
    requires Live(D, c)
    ensures |r.at| <= space && (!r.finished ==> Live(D, r.c))
    decreases |Todo(D, c, ByBody)|
  {
    StepLive(D, c, space);
    var s := OneStep(D, c, space);
    match s.out
    case Full => Packing(s.c, s.at, false)
    case Ends => Packing(s.c, s.at, true)
    case Goes => Then(s.at, Packs(D, s.c, space - |s.at|))
  }

  /** The units behind a run of the machine: it packs as many bytes as they have and stops at an element that does
      not fit. If the description is truthful, or there is no space, the bytes are those of the units. */
  ghost predicate Behind(D: Desc, c0: Cursor, us: seq<MemUnit>, space: nat, r: Packing, vs: seq<MemUnit>) {
    && |Flatten(vs)| == |r.at| <= space
    && (if r.finished then Todo(D, c0, ByBody) == us + vs
        else Ran(D, c0, us + vs, r.c, ByBody) && Stuck(D, r.c, space - |r.at|))
    && (Honest(D) || space == 0 ==> Flatten(vs) == r.at)
  }

  lemma PacksOnce(D: Desc, c: Cursor, space: nat)
    requires Live(D, c)
    ensures Bracketed(D, c) && |OneStep(D, c, space).at| <= space
    ensures var s := OneStep(D, c, space);
      match s.out
      case Full => Packs(D, c, space) == Packing(s.c, s.at, false)
      case Ends => Packs(D, c, space) == Packing(s.c, s.at, true)
      case Goes =>
        && Live(D, s.c) && |Todo(D, s.c, ByBody)| < |Todo(D, c, ByBody)|
        && Packs(D, c, space) == Then(s.at, Packs(D, s.c, space - |s.at|))
  {
    hide Live, OneStep, Todo;
    StepLive(D, c, space);
  }

  lemma {:induction false} PacksBehind(D: Desc, c0: Cursor, us: seq<MemUnit>, c: Cursor, space: nat)
    returns (vs: seq<MemUnit>)
    requires Ran(D, c0, us, c, ByBody)
    ensures Live(D, c) && Behind(D, c0, us, space, Packs(D, c, space), vs)
    decreases |Todo(D, c, ByBody)|
  {
    hide Ran, Live, OneStep, Packs, Todo, Flatten, Honest;
    RanValid(D, c0, us, c);
    PacksOnce(D, c, space);
    vs := StepVisits(D, c0, us, c, space);
    var s := OneStep(D, c, space);
    if s.out.Goes? {
      var more := PacksBehind(D, c0, us + vs, s.c, space - |s.at|);
      Associate(us, vs, more);
      FlattenAppend(vs, more);
      vs := vs + more;
    }
  }

  /** The space is that of the element at the cursor. */
  predicate Exactly(D: Desc, c: Cursor, space: nat) {
    c.pos < |D.d| && D.d[c.pos].Elem? && c.cnt > 0 && D.d[c.pos].typ.size == space > 0
  }

  lemma FitOne(cnt: nat, size: nat)
    requires cnt > 0 && size > 0
    ensures Fit(cnt, size, size) == 1
  {
    MulOrder(Fit(cnt, size, size), 2, size);
  }

  /** With space for just the element at the cursor, that element is packed and no loop is entered with space
      left: the bytes are those of the units, truthful or not. */
  lemma PacksExactly(D: Desc, c0: Cursor, us: seq<MemUnit>, c: Cursor, space: nat) returns (vs: seq<MemUnit>)
    requires Ran(D, c0, us, c, ByBody) && Exactly(D, c, space)
    ensures Live(D, c) && Behind(D, c0, us, space, Packs(D, c, space), vs)
    ensures Flatten(vs) == Packs(D, c, space).at && |Packs(D, c, space).at| == space
  {
    hide Ran, Live, Packs, Todo, Flatten, Honest, Copies;
    RanValid(D, c0, us, c);
    PacksOnce(D, c, space);
    FitOne(c.cnt, space);
    CopiesSize(1, c.disp + D.d[c.pos].disp, D.d[c.pos].extent, space);
    vs := StepVisits(D, c0, us, c, space);
    var s := OneStep(D, c, space);
    if s.out.Goes? {
      var more := PacksBehind(D, c0, us + vs, s.c, 0);
      Associate(us, vs, more);
      FlattenAppend(vs, more);
      vs := vs + more;
    }
  }

  // ---------------------------------------------------------------- the pack loop

  /** Packs the step's bytes behind the first n of the buffer. */
  method TakeStep(D: Desc, mem: Memory, c: Cursor, dest: array<Byte>, n: nat) returns (s: Step, n': nat)
    requires Bracketed(D, c) && n <= dest.Length && |OneStep(D, c, dest.Length - n).at| <= dest.Length - n
    modifies dest
    ensures s == OneStep(D, c, dest.Length - n) && n' == n + |s.at|
    ensures dest[..n'] == old(dest[..n]) + Read(mem, s.at) && dest[n'..] == old(dest[n'..])
  {
    hide Flatten, Copies, Fit;
    n' := n;
    match D.d[c.pos]
    case Elem(_, _, _, _, _) =>
      var k;
      k, n' := PackData(mem, D.d[c.pos], c.cnt, c.disp, dest, n);
      CopiesSize(k, c.disp + D.d[c.pos].disp, D.d[c.pos].extent, D.d[c.pos].typ.size);
      s := DataStep(D, c, dest.Length - n);
    case Loop(contig, _, items, extent) =>
      var k, end := 0, D.d[c.pos + items];
      if contig {
        k, n' := PackBlocks(mem, D.d[c.pos], end, c.cnt, c.disp, dest, n);
      } else {
        NoBytes(c.disp + end.first, extent, end.size);
      }
      CopiesSize(k, c.disp + end.first, extent, end.size);
      s := LoopStep(D, c, dest.Length - n);
    case EndLoop(_, _, _) =>
      s := EndingStep(D, c);
  }

  /** Fills one iovec. */
  method PackInto(D: Desc, mem: Memory, c: Cursor, dest: array<Byte>) returns (c': Cursor, n: nat, finished: bool)
    requires Live(D, c)
    modifies dest
    ensures Packs(D, c, dest.Length) == Packing(c', Packs(D, c, dest.Length).at, finished)
    ensures n == |Packs(D, c, dest.Length).at| <= dest.Length
    ensures dest[..n] == Read(mem, Packs(D, c, dest.Length).at) && dest[n..] == old(dest[n..])
  {
    hide Live, OneStep, Packs, Todo, Bracketed;
    c', n := c, 0;
    ghost var at := [];
    while true
      invariant Live(D, c') && n == |at| <= dest.Length
      invariant Packs(D, c, dest.Length) == Then(at, Packs(D, c', dest.Length - n))
      invariant dest[..n] == Read(mem, at) && dest[n..] == old(dest[n..])
      decreases |Todo(D, c', ByBody)|
    {
      PacksOnce(D, c', dest.Length - n);
      var s, n' := TakeStep(D, mem, c', dest, n);
      ReadAppend(mem, at, s.at);
      at := at + s.at;
      c', n := s.c, n';
      if !s.out.Goes? {
        finished := s.out.Ends?;
        return;
      }
      Associate(at[..|at| - |s.at|], s.at, Packs(D, s.c, dest.Length - n).at);
    }
  }
}
