/**
 Copying count instances of a datatype between two buffers that do not overlap (opal_datatype_copy.h).
 */
module Copy {
  import opened Description
  import opened Soundness
  import opened Engine
  import opened Pack

  /** A buffer after the bytes at the given displacements (from index base) were copied from mem. */
  function Copied(s: seq<Byte>, base: int, mem: Memory, at: seq<int>): seq<Byte> {
    seq(|s|, i requires 0 <= i < |s| => if i - base in at then mem(i - base) else s[i])
  }

  lemma CopiedAppend(s: seq<Byte>, base: int, mem: Memory, a: seq<int>, b: seq<int>)
    ensures Copied(Copied(s, base, mem, a), base, mem, b) == Copied(s, base, mem, a + b)
  {
  }

  lemma CopiedNothing(s: seq<Byte>, base: int, mem: Memory)
    ensures Copied(s, base, mem, []) == s
  {
  }

  /** The displacements fall inside a buffer of n bytes. */
  ghost predicate Inside(at: seq<int>, base: int, n: nat) {
    forall i :: 0 <= i < |at| ==> 0 <= base + at[i] < n
  }

  lemma InsideAppend(a: seq<int>, b: seq<int>, base: int, n: nat)
    ensures Inside(a + b, base, n) <==> Inside(a, base, n) && Inside(b, base, n)
  {
    assert forall i :: 0 <= i < |a| ==> (a + b)[i] == a[i];
    assert forall i :: 0 <= i < |b| ==> (a + b)[|a| + i] == b[i];
  }

  /** memcpy of len bytes at a displacement. */
  method MemOp(mem: Memory, at: int, len: nat, dest: array<Byte>, base: int)
    requires Inside(Range(at, len), base, dest.Length)
    modifies dest
    ensures dest[..] == Copied(old(dest[..]), base, mem, Range(at, len))
  {
    var i := 0;
    CopiedNothing(dest[..], base, mem);
    while i < len
      invariant i <= len && dest[..] == Copied(old(dest[..]), base, mem, Range(at, i))
    {
      assert Range(at, len)[i] == at + i;
      assert Range(at, i + 1) == Range(at, i) + [at + i];
      ghost var s := dest[..];
      dest[base + at + i] := mem(at + i);
      assert dest[..] == Copied(s, base, mem, [at + i]);
      CopiedAppend(old(dest[..]), base, mem, Range(at, i), [at + i]);
      i := i + 1;
    }
  }

  /** Elements, or blocks, a stride apart. */
  method MemOps(mem: Memory, at: int, step: int, size: nat, k: nat, dest: array<Byte>, base: int)
    requires Inside(Flatten(Copies(k, at, step, size)), base, dest.Length)
    modifies dest
    ensures dest[..] == Copied(old(dest[..]), base, mem, Flatten(Copies(k, at, step, size)))
  {
    hide Flatten, Copies, Inside;
    var i, source := 0, at;
    NoBytes(at, step, size);
    CopiedNothing(dest[..], base, mem);
    while i < k
      invariant i <= k && source == at + i * step
      invariant dest[..] == Copied(old(dest[..]), base, mem, Flatten(Copies(i, at, step, size)))
    {
      CopiesSnoc(i, at, step, size);
      PieceInside(i, k, at, step, size, base, dest.Length);
      MemOp(mem, source, size, dest, base);
      CopiedAppend(old(dest[..]), base, mem, Flatten(Copies(i, at, step, size)), Range(source, size));
      assert (i + 1) * step == i * step + step;
      i, source := i + 1, source + step;
    }
  }

  lemma PieceInside(i: nat, k: nat, at: int, step: int, size: nat, base: int, n: nat)
    requires i < k && Inside(Flatten(Copies(k, at, step, size)), base, n)
    ensures Inside(Range(at + i * step, size), base, n)
  {
    hide Flatten, Copies, Inside;
    CopiesSplit(i + 1, k - i - 1, at, step, size);
    FlattenAppend(Copies(i + 1, at, step, size), Copies(k - i - 1, at + (i + 1) * step, step, size));
    CopiesSnoc(i, at, step, size);
    InsideAppend(Flatten(Copies(i + 1, at, step, size)), Flatten(Copies(k - i - 1, at + (i + 1) * step, step, size)),
        base, n);
    InsideAppend(Flatten(Copies(i, at, step, size)), Range(at + i * step, size), base, n);
  }

  /** _predefined_data and _contiguous_loop: count elements or blocks. */
  method CopyStrided(mem: Memory, at: int, step: int, size: nat, k: nat, dest: array<Byte>, base: int)
    requires Inside(Flatten(Copies(k, at, step, size)), base, dest.Length)
    modifies dest
    ensures dest[..] == Copied(old(dest[..]), base, mem, Flatten(Copies(k, at, step, size)))
  {
    hide Flatten, Copies, Inside;
    if step == size {
      CopiesSolid(k, at, size);
      MemOp(mem, at, k * size, dest, base);
    } else {
      MemOps(mem, at, step, size, k, dest, base);
    }
  }

  // ---------------------------------------------------------------- the stack machine

  /** From c0 the machine visited us, their bytes are copied, and left is what the length counter
      has come down to from total. */
  ghost predicate Stepped(D: Desc, mem: Memory, c0: Cursor, us: seq<MemUnit>, c: Cursor, dest: array<Byte>, base: int,
          before: seq<Byte>, left: int, total: int)
    reads dest
  {
    && Ran(D, c0, us, c, ByBlock) && left == total - |Flatten(us)|
    && dest[..] == Copied(before, base, mem, Flatten(us)) && Inside(Flatten(Todo(D, c0, ByBlock)), base, dest.Length)
  }

  /** A step that visits vs. */
  lemma StepFacts(D: Desc, mem: Memory, c0: Cursor, us: seq<MemUnit>, c: Cursor, vs: seq<MemUnit>, c': Cursor,
          base: int, before: seq<Byte>, n: nat)
    requires Ran(D, c0, us, c, ByBlock) && Moves(D, c, vs, c', ByBlock)
    requires Inside(Flatten(Todo(D, c0, ByBlock)), base, n)
    ensures Ran(D, c0, us + vs, c', ByBlock) && |Todo(D, c', ByBlock)| < |Todo(D, c, ByBlock)|
    ensures Inside(Flatten(vs), base, n) && |Flatten(us + vs)| == |Flatten(us)| + |Flatten(vs)|
    ensures Copied(Copied(before, base, mem, Flatten(us)), base, mem, Flatten(vs))
         == Copied(before, base, mem, Flatten(us + vs))
  {
    hide Moves, Todo, Flatten, Inside, Copied, Valid, InInstance;
    RanStep(D, c0, us, c, vs, c', ByBlock);
    FlattenAppend(us, vs);
    FlattenAppend(us + vs, Todo(D, c', ByBlock));
    InsideAppend(Flatten(us + vs), Flatten(Todo(D, c', ByBlock)), base, n);
    InsideAppend(Flatten(us), Flatten(vs), base, n);
    CopiedAppend(before, base, mem, Flatten(us), Flatten(vs));
  }

  lemma RanIsValid(D: Desc, c0: Cursor, us: seq<MemUnit>, c: Cursor)
    requires Ran(D, c0, us, c, ByBlock)
    ensures Valid(D, c, ByBlock)
  {
  }

  /** A data entry. */
  method CopyElem(D: Desc, mem: Memory, c: Cursor, dest: array<Byte>, base: int, left: int, ghost c0: Cursor,
          ghost us: seq<MemUnit>, ghost before: seq<Byte>, ghost total: int)
    returns (c': Cursor, left': int, ghost us': seq<MemUnit>)
    requires Stepped(D, mem, c0, us, c, dest, base, before, left, total) && c.pos < |D.d| && D.d[c.pos].Elem?
    modifies dest
    ensures Stepped(D, mem, c0, us', c', dest, base, before, left', total)
    ensures |Todo(D, c', ByBlock)| < |Todo(D, c, ByBlock)|
  {
    hide Ran, Todo, Flatten, Copies, Moves, Inside, Copied, Valid;
    var e := D.d[c.pos];
    ghost var vs := Copies(c.cnt, c.disp + e.disp, e.extent, e.typ.size);
    RanIsValid(D, c0, us, c);
    PastMoves(D, c, ByBlock);
    c' := Goto(D, c.fs, c.pos + 1);
    StepFacts(D, mem, c0, us, c, vs + [MARK], c', base, before, dest.Length);
    MarkBytes(vs);
    CopiesSize(c.cnt, c.disp + e.disp, e.extent, e.typ.size);
    CopyStrided(mem, c.disp + e.disp, e.extent, e.typ.size, c.cnt, dest, base);
    left', us' := left - c.cnt * e.typ.size, us + (vs + [MARK]);
  }

  /** A loop: CONTIGUOUS ones are copied block by block, others are entered. */
  method CopyLoop(D: Desc, mem: Memory, c: Cursor, dest: array<Byte>, base: int, left: int, ghost c0: Cursor,
          ghost us: seq<MemUnit>, ghost before: seq<Byte>, ghost total: int)
    returns (c': Cursor, left': int, ghost us': seq<MemUnit>)
    requires Stepped(D, mem, c0, us, c, dest, base, before, left, total) && c.pos < |D.d| && D.d[c.pos].Loop?
    modifies dest
    ensures Stepped(D, mem, c0, us', c', dest, base, before, left', total)
    ensures |Todo(D, c', ByBlock)| < |Todo(D, c, ByBlock)|
  {
    hide Ran, Todo, Flatten, Copies, Moves, Inside, Copied, Valid, Current, Turns;
    RanIsValid(D, c0, us, c);
    ValidParts(D, c, ByBlock);
    if D.d[c.pos].contig {
      BlockAt(D, c);
      var end := D.d[c.pos + D.d[c.pos].items];
      ghost var vs := Copies(c.cnt, c.disp + end.first, D.d[c.pos].extent, end.size);
      PastMoves(D, c, ByBlock);
      c' := Goto(D, c.fs, c.pos + D.d[c.pos].items + 1);
      StepFacts(D, mem, c0, us, c, vs + [MARK], c', base, before, dest.Length);
      MarkBytes(vs);
      CopiesSize(c.cnt, c.disp + end.first, D.d[c.pos].extent, end.size);
      CopyStrided(mem, c.disp + end.first, D.d[c.pos].extent, end.size, c.cnt, dest, base);
      left', us' := left - c.cnt * end.size, us + (vs + [MARK]);
    } else {
      var f := Frame(c.pos, c.cnt, c.disp);
      assert 0 * Stride(D, c.pos) == 0;
      PushMoves(D, c, 0, f, ByBlock);
      c' := Goto(D, c.fs + [f], c.pos + 1);
      ghost var vs := [MARK] + Turns(Body(D, c.pos), 0, Stride(D, c.pos), c.disp, ByBlock);
      StepFacts(D, mem, c0, us, c, vs, c', base, before, dest.Length);
      MarkBytes(Turns(Body(D, c.pos), 0, Stride(D, c.pos), c.disp, ByBlock));
      NoTurnsAtAll(Body(D, c.pos), Stride(D, c.pos), c.disp);
      CopiedNothing(dest[..], base, mem);
      left', us' := left, us + vs;
    }
  }

  lemma NoTurnsAtAll(body: seq<Entry>, extent: int, base: int)
    ensures Flatten(Turns(body, 0, extent, base, ByBlock)) == []
  {
  }

  /** The displacements of count instances. */
  function TypeMap(D: Desc, count: nat): seq<int> {
    Flatten(Repeat(D.d[..if D.used <= |D.d| then D.used else 0], count, D.extent, 0, ByBlock))
  }

  /** The machine, from the first entry to the last END_LOOP; left is the length counter at the end. */
  method CopyWalk(D: Desc, mem: Memory, count: nat, size: nat, dest: array<Byte>, base: int) returns (left: int)
    requires Committed(D) && count > 0 && size == |Bytes(D.d[..D.used], ByBlock)|
    requires Inside(TypeMap(D, count), base, dest.Length)
    modifies dest
    ensures dest[..] == Copied(old(dest[..]), base, mem, TypeMap(D, count)) && left == 0
  {
    hide Ran, Todo, Flatten, Moves, Rest, Valid, InInstance, Inside, Copied, Repeat, Bytes, Turns;
    var c0 := Goto(D, [Frame(-1, count, 0)], 0);
    StartCopy(D, count, c0);
    CopiedNothing(dest[..], base, mem);
    NoTokens();
    left := count * size;
    ghost var us := [];
    var c := c0;
    ghost var before, total := dest[..], left;
    while true
      invariant Stepped(D, mem, c0, us, c, dest, base, before, left, total)
      decreases |Todo(D, c, ByBlock)|
    {
      RanIsValid(D, c0, us, c);
      TopAbove(D, c, ByBlock);
      if D.d[c.pos].Elem? {
        c, left, us := CopyElem(D, mem, c, dest, base, left, c0, us, before, total);
      } else if D.d[c.pos].EndLoop? {
        if Last(c) {
          LastInstance(D, c, ByBlock);
          AllCopied(D, c0, us, c);
          return;
        }
        EndMoves(D, c, ByBlock);
        StepFacts(D, mem, c0, us, c, [MARK], EndStep(D, c), base, before, dest.Length);
        CopiedNothing(dest[..], base, mem);
        NoTokens();
        c, us := EndStep(D, c), us + [MARK];
      } else {
        c, left, us := CopyLoop(D, mem, c, dest, base, left, c0, us, before, total);
      }
    }
  }

  lemma StartCopy(D: Desc, count: nat, c0: Cursor)
    requires Committed(D) && count > 0 && c0 == Goto(D, [Frame(-1, count, 0)], 0)
    ensures Ran(D, c0, [], c0, ByBlock) && Flatten(Todo(D, c0, ByBlock)) == TypeMap(D, count)
    ensures |TypeMap(D, count)| == count * |Bytes(D.d[..D.used], ByBlock)|
  {
    hide Todo, Flatten, Rest, Valid, Repeat, Bytes, Turns, Sound, Real;
    var f := Frame(-1, count, 0);
    Begin(D, f, ByBlock);
    GotoStack(D, [f], 0);
    assert Real(Instance(D, c0.fs[0].disp, ByBlock)) == [] + Real(Rest(D, c0, ByBlock));
    RanStart(D, c0, ByBlock);
    TurnsBytes(D.d[..D.used], count, D.extent, 0, ByBlock);
    RepeatSize(D.d[..D.used], count, D.extent, 0, ByBlock);
  }

  /** At the last END_LOOP everything has been visited. */
  lemma AllCopied(D: Desc, c0: Cursor, us: seq<MemUnit>, c: Cursor)
    requires Ran(D, c0, us, c, ByBlock) && Todo(D, c, ByBlock) == [MARK]
    ensures Flatten(us) == Flatten(Todo(D, c0, ByBlock))
  {
    hide Todo, Flatten, Valid, InInstance;
    MarkBytes(us);
  }

  // ---------------------------------------------------------------- the whole function

  /** _copy_content_same_ddt: CONTIGUOUS datatypes in one run or one piece per instance, others by the
      stack machine; chunk is opal_datatype_memop_block_size. */
  method CopyContent(D: Desc, mem: Memory, count: nat, contiguous: bool, trueLb: int, size: nat, chunk: nat,
          dest: array<Byte>, base: int)
    requires Committed(D) && count > 0 && size == |Bytes(D.d[..D.used], ByBlock)| && chunk > 0
    requires contiguous ==> Bytes(D.d[..D.used], ByBlock) == Range(trueLb, size)
    requires Inside(TypeMap(D, count), base, dest.Length)
    modifies dest
    ensures dest[..] == Copied(old(dest[..]), base, mem, TypeMap(D, count))
  {
    hide Flatten, Inside, Copied, Repeat, Bytes, Copies, Sound;
    if contiguous {
      RepeatBlocks(D.d[..D.used], count, D.extent, 0, trueLb, size, ByBlock);
      if size == D.extent {
        CopiesSolid(count, trueLb, size);
        CopyChunks(mem, trueLb, count * size, chunk, dest, base);
      } else {
        MemOps(mem, trueLb, D.extent, size, count, dest, base);
      }
    } else {
      var left := CopyWalk(D, mem, count, size, dest, base);
    }
  }

  /** One run, in chunks. */
  method CopyChunks(mem: Memory, at: int, len: nat, chunk: nat, dest: array<Byte>, base: int)
    requires chunk > 0 && Inside(Range(at, len), base, dest.Length)
    modifies dest
    ensures dest[..] == Copied(old(dest[..]), base, mem, Range(at, len))
  {
    hide Inside, Copied;
    var done, n := 0, chunk;
    CopiedNothing(dest[..], base, mem);
    NoRange(at);
    while done < len
      invariant done <= len && n > 0 && dest[..] == Copied(old(dest[..]), base, mem, Range(at, done))
    {
      if n > len - done { n := len - done; }
      RangeInside(at, len, done, n, base, dest.Length);
      MemOp(mem, at + done, n, dest, base);
      RangeSplit(at, done, n);
      CopiedAppend(old(dest[..]), base, mem, Range(at, done), Range(at + done, n));
      done := done + n;
    }
  }

  lemma RangeInside(at: int, len: nat, a: nat, n: nat, base: int, size: nat)
    requires a + n <= len && Inside(Range(at, len), base, size)
    ensures Inside(Range(at + a, n), base, size)
  {
    hide Inside, Range;
    RangeSplit(at, a, len - a);
    RangeSplit(at + a, n, len - a - n);
    InsideAppend(Range(at, a), Range(at + a, len - a), base, size);
    InsideAppend(Range(at + a, n), Range(at + a + n, len - a - n), base, size);
  }
}
