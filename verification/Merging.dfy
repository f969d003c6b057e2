/**
 A datatype whose optimized description is misread by packing: an int, then four ints eight bytes apart that
 start right after it. The optimizer merges the first of the four into the int before them and displaces the
 END_LOOP of the other three, but not the element inside.
 */
module Merging {
  import opened Description
  import opened Soundness
  import opened Build
  import opened Engine
  import opened Pack
  import opened Convertors
  import O = Optimize
  import C = Commit
  import T = Transfer

  const INT4 := BasicType(6, 4)

  /** What opal_datatype_add makes of it. */
  const BUILT := [Elem(INT4, true, 1, 0, 4), Loop(true, 4, 2, 8), Elem(INT4, true, 1, 4, 4), EndLoop(2, 4, 4)]

  /** What opal_datatype_optimize_short makes of it, and the END_LOOP that closes it. */
  const MERGED := [Elem(UINT1, true, 8, 0, 1), Loop(true, 3, 2, 8), Elem(UINT1, true, 4, 4, 1), EndLoop(2, 12, 4)]

  const CLOSED := Desc(MERGED + [EndLoop(4, 0, 20)], 4, 32)

  const ONE := Type(BasicType(0, 0), false, 4, true, true, 0, 4, 0, 4, 4, 1, [Elem(INT4, true, 1, 0, 4)])

  const WHOLE := Type(BasicType(0, 0), false, 20, false, false, 0, 32, 0, 32, 4, 5, BUILT)

  lemma Bounds(disp: int, extent: int, count: nat, last: nat)
    requires extent * (count - 1) == last
    ensures Lower(disp, extent, count) == disp && Upper(disp, extent, count) == disp + last
  {
  }

  lemma Padding()
    ensures Padded(0, 4, 4) == 4 && Padded(0, 32, 4) == 32
  {
  }

  lemma Products()
    ensures Product(1, 4) == 4 && Product(1, 1) == 1 && Product(4, 4) == 16 && Product(4, 1) == 4
  {
  }

  lemma EntriesOne()
    ensures EntriesOf(Basic(INT4, 4), 1, 0, 4) == [Elem(INT4, true, 1, 0, 4)]
  {
  }

  lemma Body()
    ensures Displaced(ONE.desc, 4) == [Elem(INT4, true, 1, 4, 4)] && FirstDisp([Elem(INT4, true, 1, 4, 4)]) == 4
  {
    assert FirstNonLoop([Elem(INT4, true, 1, 4, 4)]) == 0;
  }

  lemma EntriesFour()
    ensures ONE.desc + EntriesOf(ONE, 4, 4, 8) == BUILT
  {
    hide Displaced, FirstDisp;
    Body();
    assert !OneAgain(ONE, 8);
  }

  lemma Extremes()
    ensures LMin(LONG_MAX, 0) == LMin(0, LONG_MAX) == 0 && LMax(LONG_MIN, 4) == LMax(4, LONG_MIN) == 4
    ensures IMax(1, 4) == 4
    ensures StaysContiguous(EMPTY, Basic(INT4, 4), 1, 0, 4)
  {
  }

  lemma AddOne(b: Type, a: Type, n: nat, disp: int, extent: int, x: seq<Entry>)
    requires b == EMPTY && a == Basic(INT4, 4) && x == [Elem(INT4, true, 1, 0, 4)] && n == 1 && disp == 0 && extent == 4
    ensures Added(b, a, n, disp, extent, x) == ONE
  {
    hide Lower, Upper, Padded, Product, StaysContiguous;
    Extremes();
    Bounds(0, 4, 1, 0);
    Padding();
    Products();
    assert b.desc + x == x;
  }

  lemma AddFour()
    ensures Added(ONE, ONE, 4, 4, 8, EntriesOf(ONE, 4, 4, 8)) == WHOLE
  {
    hide EntriesOf, Lower, Upper, Padded, Product;
    Bounds(4, 8, 4, 24);
    Padding();
    Products();
    EntriesFour();
  }

  lemma Fitting()
    ensures ExtentOf(Basic(INT4, 4), -1) == 4 && Fits(Basic(INT4, 4), 1, 0, 4) && ExtentOf(ONE, 8) == 8
    ensures Fits(ONE, 4, 4, 8)
  {
    hide Lower, Upper;
    Bounds(0, 4, 1, 0);
    Bounds(4, 8, 4, 24);
  }

  /** The datatype can be built, with three additions. */
  method Make() returns (t: Datatype)
    ensures fresh(t) && t.View() == WHOLE && Proper(WHOLE)
  {
    hide Proper, Added, Extends, EntriesOf, Fits, Bytes, Repeat, Flatten, Lower;
    EntriesOne();
    AddOne(EMPTY, Basic(INT4, 4), 1, 0, 4, [Elem(INT4, true, 1, 0, 4)]);
    AddFour();
    Fitting();
    var int4 := new Datatype.OfBasic(INT4, 4);
    var one := new Datatype.Create();
    var ok := one.Add(int4, 1, 0, -1);
    t := new Datatype.Create();
    ok := t.Add(int4, 1, 0, -1);
    ok := t.Add(one, 4, 4, 8);
  }

  // ---------------------------------------------------------------- what goes wrong

  /** A description of a data entry and a loop around one. */
  lemma TwoParts(a: Entry, loop: Entry, e: Entry, end: Entry, how: Reading)
    requires a.Elem? && e.Elem? && loop.Loop? && loop.items == 2 && end.EndLoop? && a.typ.size > 0 && e.typ.size > 0
    requires !(loop.contig && how == ByBlock)
    ensures Bytes([a, loop, e, end], how) == Bytes([a], how) + Flatten(Repeat([e], loop.loops, loop.extent, 0, how))
  {
    hide Repeat, Flatten, Copies;
    var s, y := [a, loop, e, end], [loop, e, end];
    assert s == [a] + y && y[1..2] == [e];
    SingleElem(a, 0, how);
    SingleElem(e, 0, how);
    assert NestedHead(y);
    SingleHead(y, 0, how);
    BytesAppend([a], y, how);
  }

  lemma TwoBlocks(a: Entry, loop: Entry, e: Entry, end: Entry)
    requires a.Elem? && e.Elem? && loop.Loop? && loop.items == 2 && end.EndLoop? && a.typ.size > 0 && e.typ.size > 0
    requires loop.contig
    ensures Bytes([a, loop, e, end], ByBlock)
         == Bytes([a], ByBlock) + Flatten(Copies(loop.loops, end.first, loop.extent, end.size))
  {
    hide Repeat, Flatten, Copies;
    var s, y := [a, loop, e, end], [loop, e, end];
    assert s == [a] + y && y[1..2] == [e];
    SingleElem(a, 0, ByBlock);
    SingleElem(e, 0, ByBlock);
    assert NestedHead(y);
    SingleHead(y, 0, ByBlock);
    BytesAppend([a], y, ByBlock);
  }

  /** The type map: eight bytes, and then four at 12, 20 and 28. */
  lemma BuiltMap()
    ensures Bytes(BUILT, ByBody) == Range(0, 8) + Flatten(Copies(3, 12, 8, 4))
  {
    hide Repeat, Flatten, Copies;
    var e := Elem(INT4, true, 1, 4, 4);
    TwoParts(BUILT[0], BUILT[1], e, BUILT[3], ByBody);
    RepeatSingle(e, 4, 8, 0, ByBody);
    CopiesFirst(4, 4, 8, 4);
    SingleElem(BUILT[0], 0, ByBody);
    CopiesSolid(1, 0, 4);
    RangeSplit(0, 4, 4);
    Associate(Range(0, 4), Range(4, 4), Flatten(Copies(3, 12, 8, 4)));
  }

  /** The merged description denotes it if its loop is read by its END_LOOP, and not if the loop is entered. */
  lemma MergedMap()
    ensures Bytes(MERGED, ByBlock) == Bytes(BUILT, ByBody) != Bytes(MERGED, ByBody)
  {
    hide Repeat, Flatten, Copies;
    var a, e := MERGED[0], Elem(UINT1, true, 4, 4, 1);
    BuiltMap();
    TwoBlocks(a, MERGED[1], e, MERGED[3]);
    TwoParts(a, MERGED[1], e, MERGED[3], ByBody);
    SingleElem(a, 0, ByBlock);
    SingleElem(a, 0, ByBody);
    CopiesSolid(8, 0, 1);
    CopiesFirst(3, 12, 8, 4);
    RepeatFirst([e], 3, 8, 0, ByBody);
    SingleElem(e, 0, ByBody);
    CopiesSolid(4, 4, 1);
    assert Bytes(MERGED, ByBlock)[8] == 12 && Bytes(MERGED, ByBody)[8] == 4;
  }

  /** The optimizer makes it: the int is pending, the first block of the loop joins it, and the rest is written. */
  lemma Optimizes()
    ensures C.OptimizedForm(WHOLE) == CLOSED
  {
    hide O.Pass;
    var d := BUILT + [EndLoop(4, 0, 20)];
    var st := O.State(O.Bottom, [], 0, O.NOTHING);
    var st1 := O.State(O.Bottom, [], 1, O.Pending(INT4, 1, 0, 4));
    assert FirstNonLoop(BUILT) == 0;
    assert Times(0, 1) == 0 && Times(1, 4) == 4;
    O.PassData(d, st);
    assert O.After(st, O.DataPiece(st.p, d[0]), 1) == st1;
    O.PassContig(d, st1);
    var st2 := O.After(st1, O.ContigPiece(st1.p, d[1], d[3]), 4);
    assert st2.seg == MERGED && st2.p.len == 0;
    O.PassEnd(d, st2);
    assert MERGED + [] == MERGED;
  }

  lemma HasMerging()
    ensures O.Merges(BUILT, O.Apart)
  {
    var y := BUILT[1..];
    assert y[0] == BUILT[1] && y[2] == BUILT[3];
    assert Times(1, 4) == 4;
    assert O.TouchData(O.Apart, BUILT[0]) == O.Touches(4);
    O.MergesBlock(y, O.Touches(4));
    O.MergesElem(BUILT, O.Apart);
  }

  /** The merged description can be walked: its loop records a block of the right size. */
  lemma Walkable()
    ensures Committed(CLOSED) && CLOSED.d[..CLOSED.used] == MERGED
  {
    hide Bytes, Sound;
    var a, y, e := MERGED[0], MERGED[1..], MERGED[2];
    assert MERGED == [a] + y && y[1..2] == [e];
    SoundElem(a, Sized);
    SoundElem(e, Sized);
    SingleElem(e, 0, ByBody);
    SizeOf(e);
    SoundSingle(y, Sized);
    SingleElem(a, 0, ByBody);
    SoundAppend([a], y, Sized);
    assert CLOSED.d[..CLOSED.used] == MERGED;
  }

  lemma SizeOf(e: Entry)
    requires e.Elem?
    ensures |Bytes([e], ByBody)| == e.count * e.typ.size
  {
    SingleElem(e, 0, ByBody);
    CopiesSize(e.count, e.disp, e.extent, e.typ.size);
  }

  /** With ten bytes of space, the eight bytes of the first entry are packed, no block of four fits into the two
      bytes left, the loop is entered, and the bytes at 4 and 5 are packed where the type map has 12 and 13. */
  lemma TenBytes()
    ensures T.Sending(CLOSED, 1, [[10]]) == Range(0, 8) + Range(4, 2)
    ensures !(T.Sending(CLOSED, 1, [[10]]) <= Bytes(BUILT, ByBody))
  {
    hide Live, Packs, Committed, Bytes, Repeat, Flatten, Copies, On, OneStep, Sent, Todo;
    Walkable();
    StartOn(CLOSED, 1);
    var f := Frame(-1, 1, 0);
    var c0 := Goto(CLOSED, [f], 0);
    OnLive(CLOSED, c0, Repeat(CLOSED.d[..CLOSED.used], 1, CLOSED.extent, 0, ByBody), 0);
    ThreeSteps(c0, Goto(CLOSED, [f], 1), Goto(CLOSED, [f] + [Frame(1, 3, 0)], 2));
    assert [[10]][1..] == [] && Concat([[10]]) == [10] + [] == [10];
    SentNext(CLOSED, c0, [10], []);
    SentStart(CLOSED, Packs(CLOSED, c0, 10).c);
    BuiltMap();
    CopiesFirst(3, 12, 8, 4);
    assert (Range(0, 8) + Range(4, 2))[8] == 4 && Bytes(BUILT, ByBody)[8] == 12;
  }

  /** Built, committed and packed into one buffer of ten bytes. */
  method PackTen(mem: Memory) returns (out: seq<Byte>)
    ensures out == Read(mem, Range(0, 8) + Range(4, 2))
  {
    assert WHOLE.desc != [];
    hide *;
    var t := Make();
    Optimizes();
    TenBytes();
    ghost var opt;
    var completed;
    out, completed, opt := T.PackType(WHOLE, mem, 1, [[10]]);
  }

  lemma ThreeSteps(c0: Cursor, c1: Cursor, c2: Cursor)
    requires Live(CLOSED, c0) && c0 == Goto(CLOSED, [Frame(-1, 1, 0)], 0) && c1 == Goto(CLOSED, [Frame(-1, 1, 0)], 1)
    requires c2 == Goto(CLOSED, [Frame(-1, 1, 0)] + [Frame(1, 3, 0)], 2)
    ensures Packs(CLOSED, c0, 10).at == Range(0, 8) + Range(4, 2) && !Packs(CLOSED, c0, 10).finished
  {
    hide Live, Packs, Flatten, Copies, Todo, OneStep;
    Steps(c0, c1, c2);
    PacksOnce(CLOSED, c0, 10);
    PacksOnce(CLOSED, c1, 2);
    PacksOnce(CLOSED, c2, 2);
    assert [] + Range(4, 2) == Range(4, 2);
  }

  lemma Steps(c0: Cursor, c1: Cursor, c2: Cursor)
    requires c0 == Goto(CLOSED, [Frame(-1, 1, 0)], 0) && c1 == Goto(CLOSED, [Frame(-1, 1, 0)], 1)
    requires c2 == Goto(CLOSED, [Frame(-1, 1, 0)] + [Frame(1, 3, 0)], 2)
    ensures Bracketed(CLOSED, c0) && OneStep(CLOSED, c0, 10) == Step(c1, Range(0, 8), Goes)
    ensures Bracketed(CLOSED, c1) && OneStep(CLOSED, c1, 2) == Step(c2, [], Goes)
    ensures Bracketed(CLOSED, c2) && OneStep(CLOSED, c2, 2).at == Range(4, 2) && OneStep(CLOSED, c2, 2).out.Full?
  {
    hide Flatten, Copies;
    CopiesSolid(8, 0, 1);
    CopiesSolid(2, 4, 1);
    NoBytes(12, 8, 4);
    assert Fit(8, 1, 10) == 8 && Fit(3, 4, 2) == 0 && Fit(4, 1, 2) == 2;
  }
}
