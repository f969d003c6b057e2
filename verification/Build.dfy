/**
 Building derived datatypes (opal_datatype_add.c, opal_datatype_create.c).
 */
module Build {
  import opened Description
  import opened Soundness

  // ---------------------------------------------------------------- descriptions that are built

  /** What every description built from basic types looks like: nothing in it is empty, repeated
      elements have no gaps, and CONTIGUOUS loops record the block and the first element of their body. */
  ghost predicate BuiltHead(s: seq<Entry>)
    requires s != []
    decreases |s|, 0
  {
    match s[0]
    case Elem(typ, _, count, _, extent) => typ.size > 0 && count >= 1 && (count > 1 ==> extent == typ.size)
    case Loop(contig, loops, items, _) =>
      && loops >= 1 && 2 <= items < |s| && s[items].EndLoop? && Built(s[1..items])
      && (contig ==> Bytes(s[1..items], ByBody) == Range(s[items].first, s[items].size))
    case EndLoop(_, _, _) => false
  }

  ghost predicate Built(s: seq<Entry>)
    decreases |s|, 1
  {
    s == [] || (BuiltHead(s) && HeadLen(s) <= |s| && Built(s[HeadLen(s)..]))
  }

  lemma BuiltSingle(s: seq<Entry>)
    requires s != [] && HeadLen(s) == |s|
    ensures Built(s) <==> BuiltHead(s)
  {
    hide BuiltHead;
    assert s[HeadLen(s)..] == [];
  }

  lemma {:induction false} BuiltSound(s: seq<Entry>)
    requires Built(s)
    ensures Sound(s, Truthful) && Nested(s)
    decreases |s|
  {
    if s != [] {
      if s[0].Loop? { BuiltSound(s[1..s[0].items]); }
      BuiltSound(s[HeadLen(s)..]);
    }
  }

  lemma BuiltHeadAppend(s: seq<Entry>, t: seq<Entry>)
    requires s != [] && BuiltHead(s)
    ensures BuiltHead(s + t) && HeadLen(s + t) == HeadLen(s)
  {
    if s[0].Loop? {
      assert (s + t)[1..s[0].items] == s[1..s[0].items];
    }
  }

  lemma {:induction false} BuiltAppend(s: seq<Entry>, t: seq<Entry>)
    requires Built(s) && Built(t)
    ensures Built(s + t)
    decreases |s|
  {
    hide BuiltHead;
    if s == [] {
      assert s + t == t;
    } else {
      BuiltHeadAppend(s, t);
      assert (s + t)[HeadLen(s)..] == s[HeadLen(s)..] + t;
      BuiltAppend(s[HeadLen(s)..], t);
    }
  }

  /** The first byte of the type map is where the first data entry is. */
  lemma {:induction false} FirstByte(s: seq<Entry>, base: int)
    requires Built(s) && s != []
    ensures FirstNonLoop(s) < HeadLen(s) <= |s| && s[FirstNonLoop(s)].Elem?
    ensures Units(s, base, ByBody) != [] && Units(s, base, ByBody)[0].at == base + s[FirstNonLoop(s)].disp
    ensures Units(s, base, ByBody)[0].size > 0
    decreases |s|
  {
    if s[0].Loop? {
      var body := s[1..s[0].items];
      FirstByte(body, base);
      assert s[1..][..s[0].items - 1] == body;
      FirstNonLoopPrefix(s[1..], s[0].items - 1);
      assert Repeat(body, s[0].loops, s[0].extent, base, ByBody)[0] == Units(body, base, ByBody)[0];
      assert s[FirstNonLoop(s)] == body[FirstNonLoop(body)];
    }
  }

  /** Truthful loops record their first data entry. */
  lemma {:induction false} BuiltTame(s: seq<Entry>)
    requires Built(s)
    ensures Tame(s)
    decreases |s|
  {
    if s != [] {
      if s[0].Loop? {
        BuiltTame(s[1..s[0].items]);
        if s[0].contig { ContigFirst(s); }
      }
      BuiltTame(s[HeadLen(s)..]);
    }
  }

  lemma ContigFirst(s: seq<Entry>)
    requires s != [] && s[0].Loop? && s[0].contig && BuiltHead(s)
    ensures FirstNonLoop(s) < s[0].items && s[FirstNonLoop(s)].Elem? && s[FirstNonLoop(s)].disp == s[s[0].items].first
  {
    var body := s[1..s[0].items];
    FirstByte(body, 0);
    assert s[1..][..s[0].items - 1] == body;
    FirstNonLoopPrefix(s[1..], s[0].items - 1);
    BlockFirst(Units(body, 0, ByBody), s[s[0].items].first, s[s[0].items].size);
    assert s[FirstNonLoop(s)] == body[FirstNonLoop(body)];
  }

  /** Units that flatten to a block start where the block starts. */
  lemma BlockFirst(us: seq<MemUnit>, first: int, size: nat)
    requires us != [] && us[0].size > 0 && Flatten(us) == Range(first, size)
    ensures size > 0 && us[0].at == first
  {
    assert Flatten(us)[0] == us[0].at;
    assert Range(first, size)[0] == first;
  }

  // ---------------------------------------------------------------- displaced descriptions

  function Displace(e: Entry, off: int): Entry {
    match e
    case Elem(typ, contig, count, disp, extent) => Elem(typ, contig, count, disp + off, extent)
    case Loop(_, _, _, _) => e
    case EndLoop(items, first, size) => EndLoop(items, first + off, size)
  }

  function Displaced(s: seq<Entry>, off: int): seq<Entry> {
    seq(|s|, i requires 0 <= i < |s| => Displace(s[i], off))
  }

  lemma DisplacedSlice(s: seq<Entry>, off: int, a: nat, b: nat)
    requires a <= b <= |s|
    ensures Displaced(s, off)[a..b] == Displaced(s[a..b], off)
  {
  }

  lemma {:induction false} DisplacedUnits(s: seq<Entry>, off: int, base: int, how: Reading)
    ensures Units(Displaced(s, off), base, how) == Units(s, base + off, how)
    decreases |s|, 1
  {
    hide HeadUnits;
    if s != [] && HeadLen(s) <= |s| {
      DisplacedHead(s, off, base, how);
      DisplacedSlice(s, off, HeadLen(s), |s|);
      assert Displaced(s, off)[HeadLen(s)..|s|] == Displaced(s, off)[HeadLen(s)..];
      assert s[HeadLen(s)..|s|] == s[HeadLen(s)..];
      DisplacedUnits(s[HeadLen(s)..], off, base, how);
    }
  }

  lemma {:induction false} DisplacedHead(s: seq<Entry>, off: int, base: int, how: Reading)
    requires s != [] && HeadLen(s) <= |s|
    ensures HeadUnits(Displaced(s, off), base, how) == HeadUnits(s, base + off, how)
    decreases |s|, 0
  {
    if s[0].Elem? {
      assert base + (s[0].disp + off) == base + off + s[0].disp;
    } else if s[0].Loop? && 1 <= s[0].items && s[s[0].items].EndLoop? {
      DisplacedSlice(s, off, 1, s[0].items);
      DisplacedRepeat(s[1..s[0].items], off, s[0].loops, s[0].extent, base, how);
      assert base + (s[s[0].items].first + off) == base + off + s[s[0].items].first;
    }
  }

  lemma {:induction false} DisplacedRepeat(body: seq<Entry>, off: int, n: nat, extent: int, base: int, how: Reading)
    ensures Repeat(Displaced(body, off), n, extent, base, how) == Repeat(body, n, extent, base + off, how)
    decreases |body|, 2 + n
  {
    hide Units;
    if n > 0 {
      DisplacedUnits(body, off, base, how);
      DisplacedRepeat(body, off, n - 1, extent, base + extent, how);
      assert base + extent + off == base + off + extent;
    }
  }

  lemma ShiftRange(first: int, size: nat, off: int)
    ensures ShiftBytes(Range(first, size), off) == Range(first + off, size)
  {
  }

  lemma DisplacedBytes(s: seq<Entry>, off: int, how: Reading)
    ensures Bytes(Displaced(s, off), how) == ShiftBytes(Bytes(s, how), off)
  {
    DisplacedUnits(s, off, 0, how);
    BytesAt(s, off, how);
  }

  lemma {:induction false} DisplacedBuilt(s: seq<Entry>, off: int)
    requires Built(s)
    ensures Built(Displaced(s, off))
    decreases |s|, 1
  {
    hide BuiltHead;
    if s != [] {
      DisplacedBuiltHead(s, off);
      DisplacedSlice(s, off, HeadLen(s), |s|);
      assert Displaced(s, off)[HeadLen(s)..|s|] == Displaced(s, off)[HeadLen(s)..];
      assert s[HeadLen(s)..|s|] == s[HeadLen(s)..];
      DisplacedBuilt(s[HeadLen(s)..], off);
    }
  }

  lemma {:induction false} DisplacedBuiltHead(s: seq<Entry>, off: int)
    requires s != [] && BuiltHead(s)
    ensures BuiltHead(Displaced(s, off)) && HeadLen(Displaced(s, off)) == HeadLen(s)
    decreases |s|, 0
  {
    hide Built, Bytes;
    if s[0].Loop? {
      var body := s[1..s[0].items];
      DisplacedSlice(s, off, 1, s[0].items);
      DisplacedBuilt(body, off);
      DisplacedBytes(body, off, ByBody);
      ShiftRange(s[s[0].items].first, s[s[0].items].size, off);
    }
  }

  // ---------------------------------------------------------------- what is appended

  /** x describes count copies of s, the first displaced by disp. */
  ghost predicate Replicates(x: seq<Entry>, s: seq<Entry>, count: nat, extent: int, disp: int) {
    Built(x) && Bytes(x, ByBody) == Flatten(Repeat(s, count, extent, disp, ByBody))
  }

  lemma BuiltElem(e: Entry)
    requires e.Elem?
    ensures Built([e]) <==> e.typ.size > 0 && e.count >= 1 && (e.count > 1 ==> e.extent == e.typ.size)
  {
    BuiltSingle([e]);
  }

  /** One entry, repeated in place. */
  lemma ElemReplicates(e: Entry, count: nat, extent: int, disp: int)
    requires e.Elem? && e.count == 1 && e.typ.size > 0 && count >= 1 && (count > 1 ==> extent == e.typ.size)
    ensures Replicates([Elem(e.typ, e.contig, count, e.disp + disp, extent)], [e], count, extent, disp)
  {
    hide Repeat, Units, Flatten, Built;
    var x := Elem(e.typ, e.contig, count, e.disp + disp, extent);
    BuiltElem(x);
    SingleElem(x, 0, ByBody);
    RepeatSingle(e, count, extent, disp, ByBody);
    assert disp + e.disp == 0 + (e.disp + disp);
  }

  /** A loop around the displaced description. */
  function Wrapped(contig: bool, count: nat, extent: int, body: seq<Entry>, first: int, size: nat): seq<Entry> {
    [Loop(contig, count, |body| + 1, extent)] + body + [EndLoop(|body| + 1, first, size)]
  }

  lemma LoopReplicates(s: seq<Entry>, contig: bool, count: nat, extent: int, disp: int, first: int, size: nat)
    requires Built(s) && s != [] && count >= 1
    requires contig ==> Bytes(Displaced(s, disp), ByBody) == Range(first, size)
    ensures Replicates(Wrapped(contig, count, extent, Displaced(s, disp), first, size), s, count, extent, disp)
  {
    hide Repeat, Units, Flatten, Built, Bytes, Displaced;
    var body := Displaced(s, disp);
    var x := Wrapped(contig, count, extent, body, first, size);
    DisplacedBuilt(s, disp);
    DisplacedLen(s, disp);
    assert x[1..|body| + 1] == body;
    BuiltSingle(x);
    SingleHead(x, 0, ByBody);
    DisplacedRepeat(s, disp, count, extent, 0, ByBody);
    WrappedBytes(x, body);
  }

  lemma DisplacedLen(s: seq<Entry>, off: int)
    ensures |Displaced(s, off)| == |s|
  {
  }

  lemma WrappedBytes(x: seq<Entry>, body: seq<Entry>)
    requires x != [] && x[0].Loop? && x[0].items == |body| + 1 && |x| == |body| + 2 && x[|body| + 1].EndLoop?
    requires x[1..|body| + 1] == body
    ensures Bytes(x, ByBody) == Flatten(Repeat(body, x[0].loops, x[0].extent, 0, ByBody))
  {
    hide Repeat, Flatten;
    SingleHead(x, 0, ByBody);
  }

  /** A single copy. */
  lemma OnceReplicates(s: seq<Entry>, extent: int, disp: int)
    requires Built(s)
    ensures Replicates(Displaced(s, disp), s, 1, extent, disp)
  {
    hide Units, Flatten, Built;
    DisplacedBuilt(s, disp);
    DisplacedUnits(s, disp, 0, ByBody);
    assert Repeat(s, 0, extent, disp + extent, ByBody) == [];
    assert Repeat(s, 1, extent, disp, ByBody) == Units(s, disp, ByBody);
  }

  // ---------------------------------------------------------------- bounds

  ghost predicate Inside(bs: seq<int>, lo: int, hi: int) { forall i :: 0 <= i < |bs| ==> lo <= bs[i] < hi }

  lemma InsideAppend(a: seq<int>, b: seq<int>, lo: int, hi: int)
    ensures Inside(a + b, lo, hi) <==> Inside(a, lo, hi) && Inside(b, lo, hi)
  {
    assert forall i :: 0 <= i < |a| ==> (a + b)[i] == a[i];
    assert forall i :: 0 <= i < |b| ==> (a + b)[|a| + i] == b[i];
  }

  lemma InsideShift(bs: seq<int>, lo: int, hi: int, off: int, lo': int, hi': int)
    requires Inside(bs, lo, hi) && lo' <= lo + off && hi + off <= hi'
    ensures Inside(ShiftBytes(bs, off), lo', hi')
  {
  }

  /** Displacements of the lowest and of the highest copy. */
  function Lower(disp: int, extent: int, count: nat): int { LMin(disp, disp + extent * (count - 1)) }
  function Upper(disp: int, extent: int, count: nat): int { LMax(disp, disp + extent * (count - 1)) }
  function LMin(a: int, b: int): int { if a < b then a else b }
  function IMax(a: nat, b: nat): (m: nat)
    ensures m >= a && m >= b && (m == a || m == b)
  {
    if a < b then b else a
  }
  function LMax(a: int, b: int): int { if a < b then b else a }

  lemma LowerStep(disp: int, extent: int, count: nat)
    requires count >= 2
    ensures Lower(disp, extent, count) <= disp <= Upper(disp, extent, count)
    ensures Lower(disp, extent, count) <= Lower(disp + extent, extent, count - 1)
    ensures Upper(disp + extent, extent, count - 1) <= Upper(disp, extent, count)
    ensures disp + extent + extent * (count - 2) == disp + extent * (count - 1)
  {
    assert extent * (count - 1) == extent + extent * (count - 2);
    if extent >= 0 { assert extent * (count - 2) >= 0; } else { assert extent * (count - 2) <= 0; }
  }

  lemma {:induction false} RepeatInside(s: seq<Entry>, count: nat, extent: int, disp: int, lo: int, hi: int, lo': int,
          hi': int)
    requires Inside(Bytes(s, ByBody), lo, hi) && count >= 1
    requires lo' <= Lower(disp, extent, count) + lo && Upper(disp, extent, count) + hi <= hi'
    ensures Inside(Flatten(Repeat(s, count, extent, disp, ByBody)), lo', hi')
    decreases count
  {
    hide Bytes, Units, Inside, Flatten, Lower, Upper;
    LowerAt(disp, extent, count);
    BytesAt(s, disp, ByBody);
    InsideShift(Bytes(s, ByBody), lo, hi, disp, lo', hi');
    if count == 1 {
      assert Repeat(s, 0, extent, disp + extent, ByBody) == [];
      assert Units(s, disp, ByBody) + [] == Units(s, disp, ByBody);
    } else {
      LowerStep(disp, extent, count);
      RepeatInside(s, count - 1, extent, disp + extent, lo, hi, lo', hi');
      FlattenAppend(Units(s, disp, ByBody), Repeat(s, count - 1, extent, disp + extent, ByBody));
      InsideAppend(Flatten(Units(s, disp, ByBody)), Flatten(Repeat(s, count - 1, extent, disp + extent, ByBody)), lo',
          hi');
    }
  }

  lemma LowerAt(disp: int, extent: int, count: nat)
    ensures Lower(disp, extent, count) <= disp <= Upper(disp, extent, count)
  {
  }

  /** The first and the last copy are there. */
  lemma {:induction false} RepeatHas(s: seq<Entry>, count: nat, extent: int, disp: int, b: int)
    requires b in Bytes(s, ByBody) && count >= 1
    ensures disp + b in Flatten(Repeat(s, count, extent, disp, ByBody))
    ensures disp + extent * (count - 1) + b in Flatten(Repeat(s, count, extent, disp, ByBody))
    decreases count
  {
    hide Bytes, Units, Flatten;
    BytesAt(s, disp, ByBody);
    FlattenAppend(Units(s, disp, ByBody), Repeat(s, count - 1, extent, disp + extent, ByBody));
    var bs := Bytes(s, ByBody);
    var i :| 0 <= i < |bs| && bs[i] == b;
    assert ShiftBytes(bs, disp)[i] == b + disp;
    if count > 1 {
      RepeatHas(s, count - 1, extent, disp + extent, b);
      assert disp + extent + extent * (count - 2) == disp + extent * (count - 1);
    }
  }

  // ---------------------------------------------------------------- datatypes

  const LONG_MAX := 0x7fff_ffff_ffff_ffff
  const LONG_MIN := -0x8000_0000_0000_0000
  const MAX_COMPONENTS := 0xffff_ffff

  /** The fields of a datatype that opal_datatype_add reads and writes. */
  datatype Type = Type(typ: BasicType, predefined: bool, size: nat, contiguous: bool, noGaps: bool,
                       lb: int, ub: int, trueLb: int, trueUb: int, align: nat, nbElems: nat, desc: seq<Entry>)

  /** A datatype with nothing in it. */
  const EMPTY := Type(BasicType(0, 0), false, 0, true, false, LONG_MAX, LONG_MIN, LONG_MAX, LONG_MIN, 1, 0, [])

  /** A basic datatype; sizes are multiples of alignments. */
  function Basic(typ: BasicType, align: nat): Type {
    Type(typ, true, typ.size, true, true, 0, typ.size, 0, typ.size, align, 1, [Elem(typ, true, 1, 0, typ.size)])
  }

  ghost predicate Bounded(t: Type) {
    && t.lb <= t.trueLb < t.trueUb <= t.ub && t.align >= 1 && (t.ub - t.lb) % t.align == 0
    && Inside(Bytes(t.desc, ByBody), t.trueLb, t.trueUb)
    && t.trueLb in Bytes(t.desc, ByBody) && t.trueUb - 1 in Bytes(t.desc, ByBody)
  }

  /** A type with a single entry has no gaps inside, and none around a single element. */
  ghost predicate Compact(t: Type) {
    |t.desc| == 1 ==>
      && t.desc[0].Elem? && t.trueUb - t.trueLb == t.desc[0].count * t.desc[0].typ.size
      && (t.desc[0].count == 1 ==> t.ub - t.lb == t.desc[0].typ.size)
  }

  /** What holds of every type built from basic types by non-empty adds. */
  ghost predicate Proper(t: Type) {
    && Built(t.desc) && t.size == |Bytes(t.desc, ByBody)| && (t.nbElems == 0 <==> t.desc == [])
    && (t.desc == [] ==> t == EMPTY)
    && (t.desc != [] ==> Bounded(t) && Compact(t))
    && (t.desc != [] && t.contiguous ==> Bytes(t.desc, ByBody) == Range(t.trueLb, t.size))
    && (t.noGaps <==> t.contiguous && t.size == t.ub - t.lb)
    && (t.predefined ==> t == Basic(t.typ, t.align))
  }

  lemma EmptyProper()
    ensures Proper(EMPTY)
  {
    assert Bytes([], ByBody) == [];
  }

  lemma BasicProper(typ: BasicType, align: nat)
    requires typ.size > 0 && align >= 1 && typ.size % align == 0
    ensures Proper(Basic(typ, align))
  {
    var e := Elem(typ, true, 1, 0, typ.size);
    BuiltElem(e);
    SingleElem(e, 0, ByBody);
    CopiesSolid(1, 0, typ.size);
    assert Range(0, typ.size)[0] == 0 && Range(0, typ.size)[typ.size - 1] == typ.size - 1;
  }

  /** The extent argument -1 stands for the natural extent. */
  function ExtentOf(a: Type, extent: int): int { if extent == -1 then a.ub - a.lb else extent }

  /** The upper bound rounded up so that the extent is a multiple of the alignment. */
  function Padded(lb: int, ub: int, align: nat): int
    requires align >= 1
  {
    var epsilon := (ub - lb) % align;
    if epsilon != 0 then ub + (align - epsilon) else ub
  }

  lemma PaddedFits(lb: int, ub: int, align: nat)
    requires align >= 1
    ensures ub <= Padded(lb, ub, align) < ub + align && (Padded(lb, ub, align) - lb) % align == 0
    ensures (ub - lb) % align == 0 ==> Padded(lb, ub, align) == ub
  {
    var n := ub - lb;
    assert n == n / align * align + n % align;
    if n % align != 0 {
      assert Padded(lb, ub, align) - lb == (n / align + 1) * align;
      MultipleMod(n / align + 1, align);
    }
  }

  lemma MultipleMod(k: int, m: nat)
    requires m >= 1
    ensures k * m % m == 0
  {
    var n := k * m;
    var q, r := n / m, n % m;
    var j := k - q;
    assert n == q * m + r;
    assert j * m == r;
    MulSign(j, m);
  }

  lemma MulSign(j: int, m: nat)
    ensures j >= 1 ==> j * m >= m
    ensures j <= -1 ==> j * m + m <= 0
  {
  }

  /** The data stays CONTIGUOUS: both are, nothing is between them, and the copies touch. */
  predicate StaysContiguous(b: Type, a: Type, count: nat, disp: int, extent: int) {
    && b.contiguous && a.contiguous
    && disp + a.trueLb == (if b.nbElems == 0 then disp else b.trueUb)
    && (a.size == extent || count < 2)
  }

  function Product(n: nat, m: nat): nat { n * m }

  /** b after x, which describes count copies of a, was appended. */
  function Added(b: Type, a: Type, count: nat, disp: int, extent: int, x: seq<Entry>): Type
    requires b.align >= 1
  {
    var lb := LMin(b.lb, Lower(disp, extent, count) + a.lb);
    var align := IMax(b.align, a.align);
    var ub := Padded(lb, LMax(b.ub, Upper(disp, extent, count) + a.ub), align);
    var size := b.size + Product(count, a.size);
    var contiguous := StaysContiguous(b, a, count, disp, extent);
    Type(b.typ, b.predefined, size, contiguous, contiguous && size == ub - lb, lb, ub,
         LMin(Lower(disp, extent, count) + a.trueLb, b.trueLb), LMax(Upper(disp, extent, count) + a.trueUb, b.trueUb),
         align, b.nbElems + Product(count, a.nbElems), b.desc + x)
  }

  /** The bounds of the copies are proper longs. */
  predicate Fits(a: Type, count: nat, disp: int, extent: int) {
    LONG_MIN <= Lower(disp, extent, count) + a.lb && Upper(disp, extent, count) + a.ub <= LONG_MAX
  }

  lemma AddedBytes(b: Type, a: Type, count: nat, disp: int, extent: int, x: seq<Entry>)
    requires Proper(b) && Proper(a) && Replicates(x, a.desc, count, extent, disp)
    ensures Built(b.desc + x)
    ensures Bytes(b.desc + x, ByBody) == Bytes(b.desc, ByBody) + Flatten(Repeat(a.desc, count, extent, disp, ByBody))
    ensures |Bytes(b.desc + x, ByBody)| == b.size + count * a.size
  {
    hide Built, Bytes, Repeat, Flatten, Bounded, Compact;
    BuiltAppend(b.desc, x);
    BuiltSound(b.desc);
    BuiltSound(x);
    BytesAppend(b.desc, x, ByBody);
    RepeatSize(a.desc, count, extent, disp, ByBody);
  }

  /** The bounds of the appended copies. */
  lemma CopiesBounded(a: Type, count: nat, disp: int, extent: int, bs: seq<int>)
    requires Proper(a) && a.desc != [] && count >= 1 && bs == Flatten(Repeat(a.desc, count, extent, disp, ByBody))
    ensures Inside(bs, Lower(disp, extent, count) + a.trueLb, Upper(disp, extent, count) + a.trueUb)
    ensures Lower(disp, extent, count) + a.trueLb in bs && Upper(disp, extent, count) + a.trueUb - 1 in bs
    ensures Lower(disp, extent, count) <= Upper(disp, extent, count)
  {
    hide Built, Bytes, Repeat, Flatten, Inside;
    RepeatInside(a.desc, count, extent, disp, a.trueLb, a.trueUb, Lower(disp, extent, count) + a.trueLb,
        Upper(disp, extent, count) + a.trueUb);
    RepeatHas(a.desc, count, extent, disp, a.trueLb);
    RepeatHas(a.desc, count, extent, disp, a.trueUb - 1);
  }

  lemma InsideWider(bs: seq<int>, lo: int, hi: int, lo': int, hi': int)
    requires Inside(bs, lo, hi) && lo' <= lo && hi <= hi'
    ensures Inside(bs, lo', hi')
  {
  }

  lemma InsideNothing(lo: int, hi: int)
    ensures Inside([], lo, hi)
  {
  }

  lemma AddedBounded(b: Type, a: Type, count: nat, disp: int, extent: int, x: seq<Entry>)
    requires Proper(b) && Proper(a) && a.desc != [] && count >= 1 && Replicates(x, a.desc, count, extent, disp)
    requires Fits(a, count, disp, extent)
    requires b.align >= 1
    ensures Bounded(Added(b, a, count, disp, extent, x))
  {
    hide Built, Bytes, Repeat, Flatten, Inside, Padded, Lower, Upper, Compact, Replicates;
    var t := Added(b, a, count, disp, extent, x);
    var bs := Flatten(Repeat(a.desc, count, extent, disp, ByBody));
    CopiesBounded(a, count, disp, extent, bs);
    AddedBytes(b, a, count, disp, extent, x);
    PaddedFits(t.lb, LMax(b.ub, Upper(disp, extent, count) + a.ub), t.align);
    InsideWider(bs, Lower(disp, extent, count) + a.trueLb, Upper(disp, extent, count) + a.trueUb, t.trueLb, t.trueUb);
    if b.desc == [] {
      NoBytesAtAll();
      InsideNothing(t.trueLb, t.trueUb);
    } else {
      InsideWider(Bytes(b.desc, ByBody), b.trueLb, b.trueUb, t.trueLb, t.trueUb);
    }
    InsideAppend(Bytes(b.desc, ByBody), bs, t.trueLb, t.trueUb);
  }

  lemma NoBytesAtAll()
    ensures Bytes([], ByBody) == []
  {
  }

  lemma AddedContiguous(b: Type, a: Type, count: nat, disp: int, extent: int, x: seq<Entry>)
    requires Proper(b) && Proper(a) && a.desc != [] && count >= 1 && Replicates(x, a.desc, count, extent, disp)
    requires StaysContiguous(b, a, count, disp, extent) && b.align >= 1 && Fits(a, count, disp, extent)
    ensures Bytes(b.desc + x, ByBody) == Range(Added(b, a, count, disp, extent, x).trueLb, b.size + count * a.size)
  {
    hide Built, Bytes, Repeat, Flatten, Inside, Padded, Replicates, Compact, Copies, Range;
    AddedBytes(b, a, count, disp, extent, x);
    RepeatBlocks(a.desc, count, extent, disp, a.trueLb, a.size, ByBody);
    TouchingCopies(count, disp + a.trueLb, extent, a.size);
    TouchingLower(count, disp, extent, a.size);
    RangeEnds(b, a);
    if b.desc == [] {
      NoBytesAtAll();
      assert [] + Range(disp + a.trueLb, count * a.size) == Range(disp + a.trueLb, count * a.size);
    } else {
      RangeSplit(b.trueLb, b.size, count * a.size);
    }
  }

  /** Exactly when a type stays CONTIGUOUS: both types are, an empty one only takes copies that start at its origin,
      and the bytes lie in order without a gap. */
  lemma ContiguousExact(b: Type, a: Type, count: nat, disp: int, extent: int, x: seq<Entry>)
    requires Proper(b) && Proper(a) && a.desc != [] && count >= 1 && Replicates(x, a.desc, count, extent, disp)
    requires b.align >= 1 && Fits(a, count, disp, extent)
    ensures StaysContiguous(b, a, count, disp, extent)
       <==> && b.contiguous && a.contiguous && (b.desc == [] ==> a.trueLb == 0)
            && Bytes(b.desc + x, ByBody) == Range(Added(b, a, count, disp, extent, x).trueLb, b.size + count * a.size)
  {
    hide Built, Bytes, Repeat, Flatten, Bounded, Inside, Padded, Replicates, Compact, Copies, Range, Lower, Upper, Fits;
    if StaysContiguous(b, a, count, disp, extent) {
      AddedContiguous(b, a, count, disp, extent, x);
    } else if b.contiguous && a.contiguous && (b.desc == [] ==> a.trueLb == 0) {
      var lo := Added(b, a, count, disp, extent, x).trueLb;
      AddedBytes(b, a, count, disp, extent, x);
      RepeatBlocks(a.desc, count, extent, disp, a.trueLb, a.size, ByBody);
      RangeEnds(b, a);
      NoBytesAtAll();
      NotEmpty(a);
      if b.desc != [] { NotEmpty(b); }
      if Bytes(b.desc + x, ByBody) == Range(lo, b.size + count * a.size) {
        GapShows(b, count, disp + a.trueLb, extent, a.size, lo);
      }
    }
  }

  lemma NotEmpty(a: Type)
    requires Proper(a) && a.desc != []
    ensures a.size > 0
  {
  }

  /** Where copies of a block follow a range without a gap, they start at its end and touch. */
  lemma GapShows(b: Type, count: nat, at: int, extent: int, size: nat, lo: int)
    requires count >= 1 && size > 0 && Bytes(b.desc, ByBody) == (if b.desc == [] then [] else Range(b.trueLb, b.size))
    requires b.desc == [] <==> b.size == 0
    requires Bytes(b.desc, ByBody) + Flatten(Copies(count, at, extent, size)) == Range(lo, b.size + count * size)
    ensures (b.desc != [] ==> at == b.trueLb + b.size) && (extent == size || count < 2)
  {
    hide Bytes, Flatten, Copies;
    var bs, cs := Bytes(b.desc, ByBody), Flatten(Copies(count, at, extent, size));
    var all := bs + cs;
    CopiesFirst(count, at, extent, size);
    CopiesSize(count, at, extent, size);
    assert all[b.size] == cs[0] == Range(at, size)[0] == at;
    assert all[b.size] == lo + b.size;
    if b.desc != [] { assert all[0] == bs[0] == b.trueLb && all[0] == lo; }
    if count >= 2 {
      CopiesFirst(count - 1, at + extent, extent, size);
      CopiesSize(count - 1, at + extent, extent, size);
      MulOrder(2, count, size);
      assert cs[size] == Flatten(Copies(count - 1, at + extent, extent, size))[0] == Range(at + extent, size)[0];
      assert all[b.size + size] == cs[size] == at + extent && all[b.size + size] == lo + b.size + size;
    }
  }

  lemma TouchingCopies(count: nat, at: int, extent: int, size: nat)
    requires count >= 1 && (extent == size || count < 2)
    ensures Flatten(Copies(count, at, extent, size)) == Range(at, count * size)
  {
    if count == 1 {
      assert Copies(1, at, extent, size) == Copies(1, at, size, size);
    }
    CopiesSolid(count, at, size);
  }

  lemma TouchingLower(count: nat, disp: int, extent: int, size: nat)
    requires count >= 1 && (extent == size || count < 2)
    ensures Lower(disp, extent, count) == disp
  {
  }

  /** A CONTIGUOUS type fills its true bounds. */
  lemma RangeEnds(b: Type, a: Type)
    requires Proper(b)
    ensures b.desc != [] && b.contiguous ==> b.trueUb == b.trueLb + b.size
    ensures b.desc == [] ==> b.trueLb == LONG_MAX && b.size == 0
  {
    if b.desc != [] && b.contiguous {
      var bs := Range(b.trueLb, b.size);
      assert b.trueUb - 1 in bs;
      assert b.size > 0 && bs[b.size - 1] == b.trueLb + b.size - 1;
    }
  }

  /** If a single entry x is appended, it repeats the single entry of a. */
  predicate One(x: seq<Entry>, a: Type, count: nat, extent: int) {
    |x| == 1 ==>
      && |a.desc| == 1 && x[0].Elem? && a.desc[0].Elem? && x[0].typ == a.desc[0].typ
      && ((count == 1 && x[0].count == a.desc[0].count)
        || (a.desc[0].count == 1 && x[0].count == count && extent == x[0].typ.size))
  }

  lemma AddedCompact(b: Type, a: Type, count: nat, disp: int, extent: int, x: seq<Entry>)
    requires Proper(b) && Proper(a) && a.desc != [] && count >= 1 && x != [] && One(x, a, count, extent)
    requires Fits(a, count, disp, extent)
    requires b.align >= 1
    ensures Compact(Added(b, a, count, disp, extent, x))
  {
    hide Built, Bytes, Inside, Padded;
    if |b.desc + x| == 1 {
      assert b.desc + x == x;
      PaddedFits(Lower(disp, extent, count) + a.lb, Upper(disp, extent, count) + a.ub, a.align);
      Spread(disp, extent, count);
    }
  }

  /** How far apart the lowest and the highest copy are. */
  lemma Spread(disp: int, extent: int, count: nat)
    requires count >= 1
    ensures count == 1 ==> Lower(disp, extent, count) == Upper(disp, extent, count) == disp
    ensures extent >= 0 ==> Upper(disp, extent, count) - Lower(disp, extent, count) + extent == count * extent
  {
    if extent >= 0 { assert extent * (count - 1) >= 0; }
    assert extent * (count - 1) + extent == count * extent;
  }

  /** Adding keeps everything that is claimed of a type. */
  lemma AddedProper(b: Type, a: Type, count: nat, disp: int, extent: int, x: seq<Entry>)
    requires Proper(b) && Proper(a) && a.desc != [] && count >= 1 && !b.predefined && b.align >= 1
    requires x != [] && One(x, a, count, extent) && Replicates(x, a.desc, count, extent, disp)
    requires Fits(a, count, disp, extent)
    ensures Proper(Added(b, a, count, disp, extent, x))
  {
    hide Built, Bytes, Inside, Padded, Bounded, Compact, Replicates, Lower, Upper, StaysContiguous, Fits;
    AddedBytes(b, a, count, disp, extent, x);
    AddedBounded(b, a, count, disp, extent, x);
    AddedCompact(b, a, count, disp, extent, x);
    MulSign(count, a.nbElems);
    if StaysContiguous(b, a, count, disp, extent) { AddedContiguous(b, a, count, disp, extent, x); }
  }

  /** What n must be if count copies of a are added to b: the bytes of the copies follow, the counters count them, the
      bounds take them in, and the extent is the least multiple of the alignment that does so. */
  ghost predicate Extends(b: Type, a: Type, count: nat, disp: int, extent: int, n: Type) {
    && Bytes(n.desc, ByBody) == Bytes(b.desc, ByBody) + Flatten(Repeat(a.desc, count, extent, disp, ByBody))
    && n.size == b.size + count * a.size && n.nbElems == b.nbElems + count * a.nbElems
    && n.typ == b.typ && n.predefined == b.predefined
    && n.lb == LMin(b.lb, Lower(disp, extent, count) + a.lb)
    && n.align >= 1 && n.align >= b.align && n.align >= a.align && (n.align == b.align || n.align == a.align)
    && (var top := LMax(b.ub, Upper(disp, extent, count) + a.ub); top <= n.ub < top + n.align)
    && (n.ub - n.lb) % n.align == 0
    && (n.contiguous <==>
          && b.contiguous && a.contiguous && (b.desc == [] ==> a.trueLb == 0)
          && Bytes(n.desc, ByBody) == Range(n.trueLb, n.size))
  }

  lemma AddedExtends(b: Type, a: Type, count: nat, disp: int, extent: int, x: seq<Entry>)
    requires Proper(b) && Proper(a) && a.desc != [] && count >= 1 && b.align >= 1
    requires Replicates(x, a.desc, count, extent, disp) && Fits(a, count, disp, extent)
    ensures Extends(b, a, count, disp, extent, Added(b, a, count, disp, extent, x))
    ensures Added(b, a, count, disp, extent, x).predefined == b.predefined
  {
    hide Proper, Bytes, Repeat, Flatten, Fits, Padded, Lower, Upper, StaysContiguous, Replicates, Range, LMin, LMax;
    AddedBytes(b, a, count, disp, extent, x);
    ContiguousExact(b, a, count, disp, extent, x);
    PaddedFits(LMin(b.lb, Lower(disp, extent, count) + a.lb), LMax(b.ub, Upper(disp, extent, count) + a.ub),
        IMax(b.align, a.align));
  }

  // ---------------------------------------------------------------- opal_datatype_add

  /** The entries to append, and that they fit their description. */
  ghost predicate Appendable(x: seq<Entry>, a: Type, count: nat, disp: int, extent: int) {
    x != [] && One(x, a, count, extent) && Replicates(x, a.desc, count, extent, disp)
  }

  /** The entries appended for count copies of a. */
  function EntriesOf(a: Type, count: nat, disp: int, extent: int): seq<Entry> {
    var body := Displaced(a.desc, disp);
    if a.predefined then
      if extent != a.size && count > 1 then
        [Loop(false, count, 2, extent), Elem(a.typ, true, 1, disp, a.size), EndLoop(2, disp, a.size)]
      else [Elem(a.typ, a.contiguous, count, disp, extent)]
    else if OneAgain(a, extent) then
      [Elem(a.desc[0].typ, a.desc[0].contig, a.desc[0].count * count, a.desc[0].disp + disp, a.desc[0].extent)]
    else if count != 1 then Wrapped(a.contiguous, count, extent, body, FirstDisp(body), a.size)
    else body
  }

  /** A type with a single entry whose stride is the extent asked for. */
  predicate OneAgain(a: Type, extent: int) {
    |a.desc| == 1 && extent == a.ub - a.lb && a.desc[0].Elem? && extent == a.desc[0].extent
  }

  /** A basic type: one entry, or a loop around one if there are gaps. */
  method BasicEntries(a: Type, count: nat, disp: int, extent: int) returns (x: seq<Entry>)
    requires Proper(a) && a.predefined && count >= 1
    ensures Appendable(x, a, count, disp, extent) && x == EntriesOf(a, count, disp, extent)
  {
    hide Repeat, Units, Flatten, Bytes;
    var e := Elem(a.typ, true, 1, 0, a.size);
    BuiltElem(e);
    if extent != a.size && count > 1 {
      x := [Loop(false, count, 2, extent), Elem(a.typ, true, 1, disp, a.size), EndLoop(2, disp, a.size)];
      assert Displaced([e], disp) == [Elem(a.typ, true, 1, disp, a.size)];
      assert x == Wrapped(false, count, extent, Displaced([e], disp), disp, a.size);
      LoopReplicates([e], false, count, extent, disp, disp, a.size);
    } else {
      x := [Elem(a.typ, a.contiguous, count, disp, extent)];
      ElemReplicates(e, count, extent, disp);
    }
  }

  /** The entries of a, displaced. */
  method DisplacedEntries(a: Type, disp: int) returns (body: seq<Entry>)
    ensures body == Displaced(a.desc, disp)
  {
    body := [];
    for i := 0 to |a.desc|
      invariant body == Displaced(a.desc[..i], disp)
    {
      body := body + [Displace(a.desc[i], disp)];
    }
    assert a.desc[..|a.desc|] == a.desc;
  }

  /** A derived type: its only entry repeated, or its entries, in a loop if there are several copies. */
  method DerivedEntries(a: Type, count: nat, disp: int, extent: int) returns (x: seq<Entry>)
    requires Proper(a) && !a.predefined && a.desc != [] && count >= 1
    ensures Appendable(x, a, count, disp, extent) && x == EntriesOf(a, count, disp, extent)
  {
    hide Repeat, Units, Flatten, Bytes, Built, Bounded, Replicates;
    if OneAgain(a, extent) {
      var e := a.desc[0];
      OneEntry(a, extent);
      x := [Elem(e.typ, e.contig, e.count * count, e.disp + disp, e.extent)];
      ElemReplicates(e, count, extent, disp);
      assert a.desc == [e];
    } else {
      var body := DisplacedEntries(a, disp);
      if count != 1 {
        x := Wrapped(a.contiguous, count, extent, body, FirstDisp(body), a.size);
        FirstOfBlock(a, disp, body);
        LoopReplicates(a.desc, a.contiguous, count, extent, disp, FirstDisp(body), a.size);
      } else {
        x := body;
        OnceReplicates(a.desc, extent, disp);
        if |a.desc| == 1 { SingleEntry(a); }
      }
    }
  }

  /** Displacement of the first data entry. */
  function FirstDisp(s: seq<Entry>): int {
    if FirstNonLoop(s) < |s| && s[FirstNonLoop(s)].Elem? then s[FirstNonLoop(s)].disp else 0
  }

  /** A single entry whose stride is the extent of its type is a single element. */
  lemma OneEntry(a: Type, extent: int)
    requires Proper(a) && |a.desc| == 1 && a.desc[0].Elem? && extent == a.ub - a.lb == a.desc[0].extent
    ensures a.desc[0].count == 1 && a.desc[0].typ.size > 0 && extent == a.desc[0].typ.size
  {
    var e := a.desc[0];
    assert a.desc == [e];
    BuiltElem(e);
    if e.count > 1 { MulOrder(2, e.count, e.typ.size); }
  }

  lemma SingleEntry(a: Type)
    requires Proper(a) && |a.desc| == 1
    ensures a.desc[0].Elem?
  {
  }

  /** The END_LOOP of a CONTIGUOUS loop records where its block starts. */
  lemma FirstOfBlock(a: Type, disp: int, body: seq<Entry>)
    requires Proper(a) && a.desc != [] && body == Displaced(a.desc, disp)
    ensures a.contiguous ==> Bytes(body, ByBody) == Range(FirstDisp(body), a.size)
  {
    hide Bounded, Compact, Built;
    if a.contiguous {
      DisplacedBytes(a.desc, disp, ByBody);
      ShiftRange(a.trueLb, a.size, disp);
      DisplacedBuilt(a.desc, disp);
      FirstByte(body, 0);
      BlockFirst(Units(body, 0, ByBody), a.trueLb + disp, a.size);
    }
  }

  class Datatype {
    var typ: BasicType
    var predefined: bool
    var size: nat
    var contiguous: bool
    var noGaps: bool
    var lb: int
    var ub: int
    var trueLb: int
    var trueUb: int
    var align: nat
    var nbElems: nat
    var desc: seq<Entry>

    function View(): Type
      reads this
    {
      Type(typ, predefined, size, contiguous, noGaps, lb, ub, trueLb, trueUb, align, nbElems, desc)
    }

    /** opal_datatype_create. */
    constructor Create()
      ensures View() == EMPTY && Proper(View())
    {
      typ, predefined, size, contiguous, noGaps := BasicType(0, 0), false, 0, true, false;
      lb, ub, trueLb, trueUb := LONG_MAX, LONG_MIN, LONG_MAX, LONG_MIN;
      align, nbElems, desc := 1, 0, [];
      new;
      EmptyProper();
    }

    /** A basic datatype. */
    constructor OfBasic(t: BasicType, a: nat)
      requires t.size > 0 && a >= 1 && t.size % a == 0
      ensures View() == Basic(t, a) && Proper(View())
    {
      typ, predefined, size, contiguous, noGaps := t, true, t.size, true, true;
      lb, ub, trueLb, trueUb := 0, t.size, 0, t.size;
      align, nbElems, desc := a, 1, [Elem(t, true, 1, 0, t.size)];
      new;
      BasicProper(t, a);
    }

    /** opal_datatype_add: appends count copies of a, extent apart, the first at displacement disp. */
    method Add(a: Datatype, count: nat, disp: int, extent: int) returns (ok: bool)
      requires a != this && Proper(View()) && Proper(a.View()) && !predefined && a.desc != []
      requires Fits(a.View(), count, disp, ExtentOf(a.View(), extent))
      modifies this
      ensures Proper(View()) && !predefined
      ensures ok <==> count <= 1 || a.predefined || |a.desc| < MAX_COMPONENTS - 2
      ensures !ok || count == 0 ==> View() == old(View())
      ensures ok && count > 0 ==> var ext := ExtentOf(a.View(), extent);
        View() == Added(old(View()), a.View(), count, disp, ext, EntriesOf(a.View(), count, disp, ext))
      ensures ok && count > 0 ==>
        Extends(old(View()), a.View(), count, disp, ExtentOf(a.View(), extent), View())
    {
      hide Proper, Bytes, Repeat, Flatten, Appendable, Fits, Padded, Lower, Upper, StaysContiguous, Replicates;
      hide EntriesOf, Extends, Added;
      if count == 0 { return true; }
      var b, other := View(), a.View();
      ProperAlign(b);
      var ext := ExtentOf(other, extent);
      if !a.predefined && count != 1 && |a.desc| >= MAX_COMPONENTS - 2 { return false; }
      var x;
      if a.predefined {
        x := BasicEntries(other, count, disp, ext);
      } else {
        x := DerivedEntries(other, count, disp, ext);
      }
      AppendableParts(x, other, count, disp, ext);
      AddedProper(b, other, count, disp, ext, x);
      AddedExtends(b, other, count, disp, ext, x);
      Ordered(other, count, disp, ext);
      Append(a, count, disp, ext, x);
      ok := true;
    }

    /** The bounds, flags and counters, and the entries. */
    method Append(a: Datatype, count: nat, disp: int, extent: int, x: seq<Entry>)
      requires a != this && align >= 1 && count >= 1
      requires Lower(disp, extent, count) + a.trueLb < Upper(disp, extent, count) + a.trueUb
      modifies this
      ensures View() == Added(old(View()), a.View(), count, disp, extent, x)
    {
      hide Padded, Lower, Upper, LMin, LMax, Product;
      var b, o := View(), a.View();
      var lower, upper := Lower(disp, extent, count), Upper(disp, extent, count);
      var lo, hi := lower + o.lb, upper + o.ub;
      var trueLo, trueHi := lo - (o.lb - o.trueLb), hi - (o.ub - o.trueUb);
      if trueLo > trueHi { trueLo, trueHi := trueHi, trueLo; }
      var lb', align' := LMin(b.lb, lo), IMax(b.align, o.align);
      var ub' := Padded(lb', LMax(b.ub, hi), align');
      var size' := b.size + Product(count, o.size);
      var contiguous' := b.contiguous && o.contiguous
        && disp + o.trueLb == (if b.nbElems == 0 then disp else b.trueUb) && (o.size == extent || count < 2);
      var n := Type(b.typ, b.predefined, size', contiguous', contiguous' && size' == ub' - lb', lb', ub',
                    LMin(trueLo, b.trueLb), LMax(trueHi, b.trueUb), align', b.nbElems + Product(count,
                        o.nbElems), b.desc + x);
      assert n == Added(b, o, count, disp, extent, x);
      Store(n);
    }

    method Store(n: Type)
      modifies this
      ensures View() == n
    {
      typ, predefined, size, contiguous, noGaps := n.typ, n.predefined, n.size, n.contiguous, n.noGaps;
      lb, ub, trueLb, trueUb := n.lb, n.ub, n.trueLb, n.trueUb;
      align, nbElems, desc := n.align, n.nbElems, n.desc;
    }
  }

  lemma ProperAlign(t: Type)
    requires Proper(t)
    ensures t.align >= 1
  {
  }

  lemma AppendableParts(x: seq<Entry>, a: Type, count: nat, disp: int, extent: int)
    requires Appendable(x, a, count, disp, extent)
    ensures x != [] && One(x, a, count, extent) && Replicates(x, a.desc, count, extent, disp)
  {
  }

  /** The true bounds of the copies need no swapping. */
  lemma Ordered(a: Type, count: nat, disp: int, extent: int)
    requires Proper(a) && a.desc != [] && count >= 1
    ensures Lower(disp, extent, count) + a.trueLb < Upper(disp, extent, count) + a.trueUb
  {
  }
}
