/**
 Datatype descriptions (opal_datatype_internal.h) and what they denote.

 A description is a flat array of data elements and bracketed loops. It denotes a sequence of units
 (basic elements, each a displacement and a size) and, flattened, a sequence of byte displacements:
 the type map of section 4.1 of MPI 3.0.
 */
module Description {

  /** An entry of the table of basic types. */
  datatype BasicType = BasicType(id: nat, size: nat)

  const UINT1 := BasicType(9, 1)

  /** A description entry: ddt_elem_desc, ddt_loop_desc or ddt_endloop_desc. */
  datatype Entry =
    | Elem(typ: BasicType, contig: bool, count: nat, disp: int, extent: int)
    | Loop(contig: bool, loops: nat, items: nat, extent: int)
    | EndLoop(items: nat, first: int, size: nat)

  /** A basic element in memory. */
  datatype MemUnit = MemUnit(at: int, size: nat)

  /** A product of counts and sizes, by repeated addition so that proofs stay linear. */
  function Times(n: nat, m: nat): nat {
    if n == 0 then 0 else m + Times(n - 1, m)
  }

  lemma {:induction false} TimesAdd(a: nat, b: nat, m: nat)
    ensures Times(a + b, m) == Times(a, m) + Times(b, m)
  {
    if a > 0 { TimesAdd(a - 1, b, m); }
  }

  lemma {:induction false} TimesOne(n: nat)
    ensures Times(n, 1) == n
  {
    if n > 0 { TimesOne(n - 1); }
  }

  /** The entries of the first item of a description: a data element, or a whole loop. */
  function HeadLen(s: seq<Entry>): nat {
    if s != [] && s[0].Loop? then s[0].items + 1 else 1
  }

  ghost predicate NestedHead(s: seq<Entry>)
    requires s != []
    decreases |s|, 0
  {
    match s[0]
    case Elem(typ, _, _, _, _) => typ.size > 0
    case Loop(_, _, items, _) => 1 <= items < |s| && s[items].EndLoop? && Nested(s[1..items])
    case EndLoop(_, _, _) => false
  }

  /** Loops are bracketed: items entries after a LOOP comes its END_LOOP, and bodies nest. */
  ghost predicate Nested(s: seq<Entry>)
    decreases |s|, 1
  {
    s == [] || (NestedHead(s) && HeadLen(s) <= |s| && Nested(s[HeadLen(s)..]))
  }

  /** n units of the given size, a step apart. */
  function Copies(n: nat, at: int, step: int, size: nat): seq<MemUnit> {
    if n == 0 then [] else [MemUnit(at, size)] + Copies(n - 1, at + step, step, size)
  }

  /** How a CONTIGUOUS loop is read: as its body, or as the block its END_LOOP records. */
  datatype Reading = ByBody | ByBlock

  /** The units of the first item (none if it is malformed). */
  function HeadUnits(s: seq<Entry>, base: int, how: Reading): seq<MemUnit>
    decreases |s|, 0
  {
    if s == [] then [] else
      match s[0]
      case Elem(typ, _, count, disp, extent) => Copies(count, base + disp, extent, typ.size)
      case Loop(contig, loops, items, extent) =>
        if !(1 <= items < |s| && s[items].EndLoop?) then []
        else if contig && how == ByBlock then Copies(loops, base + s[items].first, extent, s[items].size)
        else Repeat(s[1..items], loops, extent, base, how)
      case EndLoop(_, _, _) => []
  }

  function Units(s: seq<Entry>, base: int, how: Reading): seq<MemUnit>
    decreases |s|, 1
  {
    if s == [] || HeadLen(s) > |s| then [] else HeadUnits(s, base, how) + Units(s[HeadLen(s)..], base, how)
  }

  /** n iterations of a loop body, extent apart. */
  function Repeat(body: seq<Entry>, n: nat, extent: int, base: int, how: Reading): seq<MemUnit>
    decreases |body|, 2 + n
  {
    if n == 0 then [] else Units(body, base, how) + Repeat(body, n - 1, extent, base + extent, how)
  }

  function Range(a: int, n: nat): seq<int> { seq(n, k => a + k) }

  lemma RangeSplit(a: int, m: nat, n: nat)
    ensures Range(a, m + n) == Range(a, m) + Range(a + m, n)
  {
  }

  function Flatten(us: seq<MemUnit>): seq<int> {
    if us == [] then [] else Range(us[0].at, us[0].size) + Flatten(us[1..])
  }

  function Shift(us: seq<MemUnit>, off: int): seq<MemUnit> {
    seq(|us|, i requires 0 <= i < |us| => MemUnit(us[i].at + off, us[i].size))
  }

  function ShiftBytes(bs: seq<int>, off: int): seq<int> {
    seq(|bs|, i requires 0 <= i < |bs| => bs[i] + off)
  }

  /** The type map: byte displacements, in order. */
  function Bytes(s: seq<Entry>, how: Reading): seq<int> {
    Flatten(Units(s, 0, how))
  }

  // ---------------------------------------------------------------- structure

  /** The first item does not depend on what follows it. */
  lemma HeadAppend(s: seq<Entry>, t: seq<Entry>, base: int, how: Reading)
    requires s != [] && NestedHead(s)
    ensures NestedHead(s + t) && HeadLen(s + t) == HeadLen(s) && HeadUnits(s + t, base, how) == HeadUnits(s, base, how)
  {
    if s[0].Loop? {
      assert (s + t)[1..s[0].items] == s[1..s[0].items];
    }
  }

  lemma SingleElem(e: Entry, base: int, how: Reading)
    requires e.Elem?
    ensures Units([e], base, how) == Copies(e.count, base + e.disp, e.extent, e.typ.size)
    ensures e.typ.size > 0 ==> Nested([e])
  {
    assert [e][HeadLen([e])..] == [];
  }

  /** A description that is a single item. */
  lemma SingleHead(s: seq<Entry>, base: int, how: Reading)
    requires s != [] && HeadLen(s) == |s|
    ensures Units(s, base, how) == HeadUnits(s, base, how)
    ensures NestedHead(s) ==> Nested(s)
  {
    assert s[HeadLen(s)..] == [];
  }

  lemma {:induction false} NestedAppend(s: seq<Entry>, t: seq<Entry>)
    requires Nested(s) && Nested(t)
    ensures Nested(s + t)
    decreases |s|
  {
    if s == [] {
      assert s + t == t;
    } else {
      HeadAppend(s, t, 0, ByBody);
      assert (s + t)[HeadLen(s)..] == s[HeadLen(s)..] + t;
      NestedAppend(s[HeadLen(s)..], t);
    }
  }

  lemma Associate<T>(a: seq<T>, b: seq<T>, c: seq<T>)
    ensures a + b + c == a + (b + c)
  {
  }

  lemma SliceOfSlice<T>(d: seq<T>, a: nat, b: nat, i: nat, j: nat)
    requires i <= j && a + j <= b <= |d|
    ensures d[a..b][i..j] == d[a + i..a + j]
  {
    assert forall k :: 0 <= k < j - i ==> d[a..b][i..j][k] == d[a..b][i + k] == d[a + i..a + j][k];
  }

  lemma SliceAppend<T>(d: seq<T>, a: nat, b: nat, c: nat)
    requires a <= b <= c <= |d|
    ensures d[a..c] == d[a..b] + d[b..c]
  {
  }

  lemma UnitsCons(s: seq<Entry>, k: nat, base: int, how: Reading)
    requires s != [] && k == HeadLen(s) <= |s|
    ensures Units(s, base, how) == HeadUnits(s, base, how) + Units(s[k..], base, how)
  {
  }

  lemma NoUnits(base: int, how: Reading)
    ensures Nested([]) && Units([], base, how) == []
  {
  }

  lemma UnitsConsAppend(s: seq<Entry>, t: seq<Entry>, base: int, how: Reading)
    requires s != [] && NestedHead(s) && HeadLen(s) <= |s|
    ensures Units(s + t, base, how) == HeadUnits(s, base, how) + Units(s[HeadLen(s)..] + t, base, how)
  {
    HeadAppend(s, t, base, how);
    assert (s + t)[HeadLen(s)..] == s[HeadLen(s)..] + t;
  }

  lemma NestedParts(s: seq<Entry>)
    requires s != [] && Nested(s)
    ensures NestedHead(s) && 1 <= HeadLen(s) <= |s| && Nested(s[HeadLen(s)..])
  {
  }

  lemma {:induction false} UnitsAppend(s: seq<Entry>, t: seq<Entry>, base: int, how: Reading)
    requires Nested(s)
    ensures Units(s + t, base, how) == Units(s, base, how) + Units(t, base, how)
    decreases |s|
  {
    hide *;
    if s == [] {
      assert s + t == t;
      NoUnits(base, how);
      assert [] + Units(t, base, how) == Units(t, base, how);
    } else {
      NestedParts(s);
      UnitsCons(s, HeadLen(s), base, how);
      UnitsConsAppend(s, t, base, how);
      UnitsAppend(s[HeadLen(s)..], t, base, how);
      Associate(HeadUnits(s, base, how), Units(s[HeadLen(s)..], base, how), Units(t, base, how));
    }
  }

  lemma {:induction false} FlattenAppend(us: seq<MemUnit>, vs: seq<MemUnit>)
    ensures Flatten(us + vs) == Flatten(us) + Flatten(vs)
  {
    if us == [] {
      assert us + vs == vs;
    } else {
      assert (us + vs)[1..] == us[1..] + vs;
      FlattenAppend(us[1..], vs);
    }
  }

  lemma BytesAppend(s: seq<Entry>, t: seq<Entry>, how: Reading)
    requires Nested(s) && Nested(t)
    ensures Nested(s + t) && Bytes(s + t, how) == Bytes(s, how) + Bytes(t, how)
  {
    NestedAppend(s, t);
    UnitsAppend(s, t, 0, how);
    FlattenAppend(Units(s, 0, how), Units(t, 0, how));
  }

  // ---------------------------------------------------------------- displacement

  lemma ShiftAppend(us: seq<MemUnit>, vs: seq<MemUnit>, off: int)
    ensures Shift(us + vs, off) == Shift(us, off) + Shift(vs, off)
  {
  }

  lemma {:induction false} CopiesShift(n: nat, at: int, step: int, size: nat, off: int)
    ensures Copies(n, at + off, step, size) == Shift(Copies(n, at, step, size), off)
  {
    if n > 0 {
      CopiesShift(n - 1, at + step, step, size, off);
      assert at + off + step == at + step + off;
      ShiftAppend([MemUnit(at, size)], Copies(n - 1, at + step, step, size), off);
    }
  }

  lemma {:induction false} UnitsShift(s: seq<Entry>, base: int, off: int, how: Reading)
    ensures Units(s, base + off, how) == Shift(Units(s, base, how), off)
    decreases |s|, 1
  {
    if s != [] && HeadLen(s) <= |s| {
      HeadShift(s, base, off, how);
      UnitsShift(s[HeadLen(s)..], base, off, how);
      ShiftAppend(HeadUnits(s, base, how), Units(s[HeadLen(s)..], base, how), off);
    }
  }

  lemma {:induction false} HeadShift(s: seq<Entry>, base: int, off: int, how: Reading)
    ensures HeadUnits(s, base + off, how) == Shift(HeadUnits(s, base, how), off)
    decreases |s|, 0
  {
    if s != [] && s[0].Elem? {
      var e := s[0];
      CopiesShift(e.count, base + e.disp, e.extent, e.typ.size, off);
      assert base + off + e.disp == base + e.disp + off;
    } else if s != [] && s[0].Loop? {
      var Loop(contig, loops, items, extent) := s[0];
      if 1 <= items < |s| && s[items].EndLoop? {
        CopiesShift(loops, base + s[items].first, extent, s[items].size, off);
        assert base + off + s[items].first == base + s[items].first + off;
        RepeatShift(s[1..items], loops, extent, base, off, how);
      }
    }
  }

  lemma {:induction false} RepeatShift(body: seq<Entry>, n: nat, extent: int, base: int, off: int, how: Reading)
    ensures Repeat(body, n, extent, base + off, how) == Shift(Repeat(body, n, extent, base, how), off)
    decreases |body|, 2 + n
  {
    if n > 0 {
      UnitsShift(body, base, off, how);
      RepeatShift(body, n - 1, extent, base + extent, off, how);
      assert base + off + extent == base + extent + off;
      ShiftAppend(Units(body, base, how), Repeat(body, n - 1, extent, base + extent, how), off);
    }
  }

  lemma {:induction false} FlattenShift(us: seq<MemUnit>, off: int)
    ensures Flatten(Shift(us, off)) == ShiftBytes(Flatten(us), off)
  {
    if us != [] {
      assert Shift(us, off)[1..] == Shift(us[1..], off);
      FlattenShift(us[1..], off);
    }
  }

  lemma BytesAt(s: seq<Entry>, base: int, how: Reading)
    ensures Flatten(Units(s, base, how)) == ShiftBytes(Bytes(s, how), base)
  {
    UnitsShift(s, 0, base, how);
    FlattenShift(Units(s, 0, how), base);
  }

  // ---------------------------------------------------------------- strided elements

  lemma {:induction false} CopiesSplit(a: nat, b: nat, at: int, step: int, size: nat)
    ensures Copies(a + b, at, step, size) == Copies(a, at, step, size) + Copies(b, at + a * step, step, size)
  {
    if a > 0 {
      CopiesSplit(a - 1, b, at + step, step, size);
      assert at + step + (a - 1) * step == at + a * step;
    }
  }

  lemma MulOrder(a: nat, b: nat, m: nat)
    ensures a <= b ==> a * m <= b * m
    ensures (a + 1) * m == a * m + m
  {
  }

  lemma {:induction false} CopiesSize(n: nat, at: int, step: int, size: nat)
    ensures |Flatten(Copies(n, at, step, size))| == n * size
  {
    if n > 0 {
      CopiesSize(n - 1, at + step, step, size);
      assert Copies(n, at, step, size)[1..] == Copies(n - 1, at + step, step, size);
      assert n * size == size + (n - 1) * size;
    }
  }

  lemma CopiesSnoc(n: nat, at: int, step: int, size: nat)
    ensures Flatten(Copies(n + 1, at, step, size)) == Flatten(Copies(n, at, step, size)) + Range(at + n * step, size)
  {
    CopiesSplit(n, 1, at, step, size);
    FlattenAppend(Copies(n, at, step, size), Copies(1, at + n * step, step, size));
    assert Copies(1, at + n * step, step, size) == [MemUnit(at + n * step, size)];
    assert Flatten([MemUnit(at + n * step, size)]) == Range(at + n * step, size) + Flatten([]);
  }

  lemma NoBytes(at: int, step: int, size: nat)
    ensures Flatten(Copies(0, at, step, size)) == []
  {
  }

  lemma {:induction false} CopiesSolid(n: nat, at: int, size: nat)
    ensures Flatten(Copies(n, at, size, size)) == Range(at, n * size)
  {
    hide Flatten, Copies, Range;
    if n == 0 {
      NoBytes(at, size, size);
      NoRange(at);
    } else {
      CopiesSolid(n - 1, at, size);
      CopiesSnoc(n - 1, at, size, size);
      MulOrder(n - 1, n, size);
      RangeSplit(at, (n - 1) * size, size);
    }
  }

  lemma NoRange(at: int)
    ensures Range(at, 0) == []
  {
  }

  lemma {:induction false} RepeatSingle(e: Entry, n: nat, extent: int, base: int, how: Reading)
    requires e.Elem? && e.count == 1
    ensures Repeat([e], n, extent, base, how) == Copies(n, base + e.disp, extent, e.typ.size)
    decreases n
  {
    if n > 0 {
      RepeatSingle(e, n - 1, extent, base + extent, how);
      SingleElem(e, base, how);
      assert Copies(1, base + e.disp, e.extent, e.typ.size) == [MemUnit(base + e.disp, e.typ.size)];
      assert base + extent + e.disp == base + e.disp + extent;
    }
  }
}
