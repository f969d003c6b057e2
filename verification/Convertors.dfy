/**
 Send convertors over non-contiguous datatypes: packing in any number of pieces, and moving to a position
 of the stream (opal_convertor.c, opal_convertor.h).
 */
module Convertors {
  import opened Description
  import opened Soundness
  import opened Engine
  import opened Pack
  import opened Position

  // ---------------------------------------------------------------- elements and bytes

  lemma {:induction false} RealSize(us: seq<MemUnit>)
    ensures forall i :: 0 <= i < |Real(us)| ==> Real(us)[i].size > 0
  {
    if us != [] { RealSize(us[1..]); }
  }

  /** Elements are not empty. */
  lemma RealNonEmpty(us: seq<MemUnit>)
    requires Real(us) != []
    ensures |Flatten(us)| > 0
  {
    RealSize(us);
    RealBytes(us);
    assert Flatten(Real(us)) == Range(Real(us)[0].at, Real(us)[0].size) + Flatten(Real(us)[1..]);
  }

  /** Position done of the stream splits its bytes. */
  lemma SplitBytes(S: seq<MemUnit>, a: nat, b: nat)
    requires a <= b <= |S|
    ensures Flatten(S[..b]) == Flatten(S[..a]) + Flatten(S[a..b])
  {
    assert S[..b] == S[..a] + S[a..b];
    FlattenAppend(S[..a], S[a..b]);
  }

  // ---------------------------------------------------------------- cursors on a stream

  /** The cursor has done elements of stream S behind it. */
  ghost predicate On(D: Desc, c: Cursor, S: seq<MemUnit>, done: nat) {
    Live(D, c) && done <= |S| && Real(Todo(D, c, ByBody)) == S[done..]
  }

  lemma Onward(S: seq<MemUnit>, done: nat, a: seq<MemUnit>, b: seq<MemUnit>)
    requires done <= |S| && S[done..] == a + b
    ensures done + |a| <= |S| && S[done..done + |a|] == a && S[done + |a|..] == b
  {
    assert |a + b| == |a| + |b|;
    assert forall i :: 0 <= i < |a| ==> (a + b)[i] == a[i] == S[done..][i] == S[done + i];
    assert forall i :: 0 <= i < |b| ==>
              (a + b)[|a| + i] == b[i] && (a + b)[|a| + i] == S[done..][|a| + i] == S[done + |a| + i];
  }

  /** A run of the machine moves the cursor along the stream. */
  lemma RanOn(D: Desc, c: Cursor, us: seq<MemUnit>, c': Cursor, S: seq<MemUnit>, done: nat)
    requires On(D, c, S, done) && Ran(D, c, us, c', ByBody)
    ensures On(D, c', S, done + |Real(us)|) && done + |Real(us)| <= |S|
    ensures Flatten(S[done..done + |Real(us)|]) == Flatten(us)
  {
    hide Valid, Todo, Real, InInstance, Flatten;
    RanValid(D, c, us, c');
    RealAppend(us, Todo(D, c', ByBody));
    Onward(S, done, Real(us), Real(Todo(D, c', ByBody)));
    RealBytes(us);
  }

  /** Visiting everything. */
  lemma RanAll(D: Desc, c: Cursor, S: seq<MemUnit>, done: nat)
    requires On(D, c, S, done)
    ensures Flatten(S[done..]) == Flatten(Todo(D, c, ByBody))
  {
    RealBytes(Todo(D, c, ByBody));
  }

  lemma CopiesHead(n: nat, at: int, step: int, size: nat, us: seq<MemUnit>)
    requires n > 0 && size > 0
    ensures Real(Copies(n, at, step, size) + us) != [] && Real(Copies(n, at, step, size) + us)[0].size == size
  {
    assert (Copies(n, at, step, size) + us)[0] == MemUnit(at, size);
  }

  /** The element the cursor is stuck at is the next of the stream. */
  lemma StuckNext(D: Desc, c: Cursor, S: seq<MemUnit>, done: nat, space: nat)
    requires On(D, c, S, done) && Stuck(D, c, space)
    ensures done < |S| && S[done].size == D.d[c.pos].typ.size > space
  {
    hide Valid, Real, InInstance, Live, Copies, Beyond, Later, More;
    var e := D.d[c.pos];
    var more := [MARK] + (Beyond(D, c.fs, c.pos, ByBody) + ([MARK] + Later(D, c.fs, ByBody)))
        + if c.fs == [] then [] else More(D, c.fs[0], ByBody);
    assert Todo(D, c, ByBody) == Copies(c.cnt, c.disp + e.disp, e.extent, e.typ.size) + more;
    CopiesHead(c.cnt, c.disp + e.disp, e.extent, e.typ.size, more);
    assert S[done..][0] == S[done];
  }

  /** The start of the stream. */
  lemma StartOn(D: Desc, count: nat)
    requires Committed(D) && count > 0
    ensures On(D, Goto(D, [Frame(-1, count, 0)], 0), Repeat(D.d[..D.used], count, D.extent, 0, ByBody), 0)
  {
    hide Trace, Turns, Repeat, Rest, Real, Goto, Valid, Sound, Nested, Todo;
    var f := Frame(-1, count, 0);
    Begin(D, f, ByBody);
    CommittedParts(D);
    TurnsReal(D.d[..D.used], count, D.extent, 0);
    GotoStack(D, [f], 0);
    assert Real(Instance(D, 0, ByBody)) == [] + Real(Rest(D, Goto(D, [f], 0), ByBody));
  }

  /** The saved stack: its last entry is the position, the others are the machine's stack. */
  function CursorOf(stack: seq<Frame>): Cursor {
    if stack == [] || Top(stack).index < 0 then Cursor([], 0, 0, 0)
    else Cursor(stack[..|stack| - 1], Top(stack).index, Top(stack).count, Top(stack).disp)
  }

  function StackOf(c: Cursor): seq<Frame> { c.fs + [Frame(c.pos, c.cnt, c.disp)] }

  lemma StackRoundTrip(c: Cursor)
    ensures CursorOf(StackOf(c)) == c
  {
  }

  /** What the iovecs hold, one after the other. */
  ghost function Joined(iov: seq<array<Byte>>, lens: seq<nat>): seq<Byte>
    requires |lens| == |iov| && forall j :: 0 <= j < |lens| ==> lens[j] <= iov[j].Length
    reads iov
    decreases |lens|
  {
    if lens == [] then []
    else
      var k := |lens| - 1;
      Joined(iov[..k], lens[..k]) + iov[k][..lens[k]]
  }

  /** The first iovecs were filled up to the given lengths and together hold the given bytes. */
  ghost predicate Filled(iov: seq<array<Byte>>, lens: seq<nat>, bytes: seq<Byte>)
    reads iov
  {
    && |lens| <= |iov| && (forall j :: 0 <= j < |lens| ==> lens[j] <= iov[j].Length)
    && Joined(iov[..|lens|], lens) == bytes
  }

  lemma JoinMore(iov: seq<array<Byte>>, lens: seq<nat>, k: nat, n: nat)
    requires |lens| == k < |iov| && (forall j :: 0 <= j < k ==> lens[j] <= iov[j].Length) && n <= iov[k].Length
    ensures Joined(iov[..k + 1], lens + [n]) == Joined(iov[..k], lens) + iov[k][..n]
  {
    assert iov[..k + 1][..k] == iov[..k] && (lens + [n])[..k] == lens;
  }

  /** Elements of the stream are not empty. */
  lemma StreamPositive(D: Desc, count: nat)
    requires Committed(D)
    ensures forall i :: 0 <= i < |Repeat(D.d[..D.used], count, D.extent, 0, ByBody)| ==>
              Repeat(D.d[..D.used], count, D.extent, 0, ByBody)[i].size > 0
  {
    hide Nested, Sound, Turns, Repeat, Real;
    CommittedParts(D);
    TurnsReal(D.d[..D.used], count, D.extent, 0);
    RealSize(Turns(D.d[..D.used], count, D.extent, 0, ByBody));
  }

  /** All bytes are behind a position only if all elements are. */
  lemma AllBehind(S: seq<MemUnit>, d: nat)
    requires d <= |S| && forall i :: 0 <= i < |S| ==> S[i].size > 0
    ensures |Flatten(S[..d])| == |Flatten(S)| <==> d == |S|
    ensures |Flatten(S[..d])| <= |Flatten(S)|
  {
    assert S == S[..d] + S[d..];
    FlattenAppend(S[..d], S[d..]);
    if d < |S| {
      assert Flatten(S[d..]) == Range(S[d..][0].at, S[d..][0].size) + Flatten(S[d..][1..]);
    }
  }

  // ---------------------------------------------------------------- packing along a stream

  /** The bytes of the elements from a to b. */
  ghost function Span(S: seq<MemUnit>, a: nat, b: nat): seq<int> { if a <= b <= |S| then Flatten(S[a..b]) else [] }

  /** The machine stops where an element does not fit; its bytes are those of the stream if the description is
      truthful or there is no space. */
  lemma PacksOn(D: Desc, c: Cursor, S: seq<MemUnit>, done: nat, space: nat) returns (d: nat)
    requires On(D, c, S, done)
    ensures Live(D, c) && Reaches(D, S, done, space, Packs(D, c, space), d)
    ensures Honest(D) || space == 0 ==> Packs(D, c, space).at == Flatten(S[done..d])
  {
    hide Live, Todo, Real, Ran, Flatten, Packs, On, Honest;
    OnLive(D, c, S, done);
    RanStart(D, c, ByBody);
    var vs := PacksBehind(D, c, [], c, space);
    d := Arrives(D, c, S, done, space, Packs(D, c, space), vs);
  }

  lemma OnLive(D: Desc, c: Cursor, S: seq<MemUnit>, done: nat)
    requires On(D, c, S, done)
    ensures Live(D, c) && Valid(D, c, ByBody) && InInstance(D, c, ByBody) && done <= |S|
  {
  }

  /** From element done of the stream the machine came to element d. */
  ghost predicate Reaches(D: Desc, S: seq<MemUnit>, done: nat, space: nat, r: Packing, d: nat) {
    && done <= d <= |S| && |r.at| == |Flatten(S[done..d])| <= space
    && (if r.finished then d == |S|
        else On(D, r.c, S, d) && d < |S| && Exactly(D, r.c, S[d].size) && S[d].size > space - |r.at|)
  }

  lemma Arrives(D: Desc, c: Cursor, S: seq<MemUnit>, done: nat, space: nat, r: Packing, vs: seq<MemUnit>)
    returns (d: nat)
    requires On(D, c, S, done) && Behind(D, c, [], space, r, vs)
    ensures Reaches(D, S, done, space, r, d) && Flatten(vs) == Flatten(S[done..d])
  {
    hide *;
    BehindParts(D, c, space, r, vs);
    OnLive(D, c, S, done);
    if r.finished {
      RanAll(D, c, S, done);
      d := |S|;
      assert S[done..|S|] == S[done..];
      ReachesEnd(D, S, done, space, r);
    } else {
      RanOn(D, c, vs, r.c, S, done);
      d := done + |Real(vs)|;
      StuckNext(D, r.c, S, d, space - |r.at|);
      ReachesNext(D, S, done, space, r, d);
    }
  }

  lemma BehindParts(D: Desc, c: Cursor, space: nat, r: Packing, vs: seq<MemUnit>)
    requires Behind(D, c, [], space, r, vs)
    ensures |Flatten(vs)| == |r.at| <= space
    ensures if r.finished then Todo(D, c, ByBody) == vs else Ran(D, c, vs, r.c, ByBody) && Stuck(D, r.c, space - |r.at|)
  {
    hide Todo, Ran, Flatten, Stuck, Honest;
    assert [] + vs == vs;
  }

  lemma ReachesEnd(D: Desc, S: seq<MemUnit>, done: nat, space: nat, r: Packing)
    requires r.finished && done <= |S| && |r.at| == |Flatten(S[done..])| <= space
    ensures Reaches(D, S, done, space, r, |S|)
  {
    assert S[done..|S|] == S[done..];
  }

  lemma ReachesNext(D: Desc, S: seq<MemUnit>, done: nat, space: nat, r: Packing, d: nat)
    requires !r.finished && done <= d < |S| && |r.at| == |Flatten(S[done..d])| <= space && On(D, r.c, S, d)
    requires Stuck(D, r.c, space - |r.at|) && S[d].size == D.d[r.c.pos].typ.size > space - |r.at|
    ensures Reaches(D, S, done, space, r, d)
  {
    hide On, Flatten;
  }

  /** With space for just the next element, that element is packed, as the stream has it. */
  lemma PacksNext(D: Desc, c: Cursor, S: seq<MemUnit>, done: nat)
    requires On(D, c, S, done) && done < |S| && Exactly(D, c, S[done].size)
    requires forall i :: 0 <= i < |S| ==> S[i].size > 0
    ensures Live(D, c) && Reaches(D, S, done, S[done].size, Packs(D, c, S[done].size), done + 1)
    ensures Packs(D, c, S[done].size).at == Flatten(S[done..done + 1])
  {
    hide Live, Todo, Real, Ran, Flatten, Packs, On, Honest;
    var space := S[done].size;
    OnLive(D, c, S, done);
    RanStart(D, c, ByBody);
    var vs := PacksExactly(D, c, [], c, space);
    var d := Arrives(D, c, S, done, space, Packs(D, c, space), vs);
    OneElement(S, done, d);
  }

  lemma FlattenHead(us: seq<MemUnit>)
    requires us != []
    ensures |Flatten(us)| == us[0].size + |Flatten(us[1..])|
  {
  }

  lemma NonEmptyBytes(us: seq<MemUnit>)
    requires forall i :: 0 <= i < |us| ==> us[i].size > 0
    ensures |Flatten(us)| == 0 <==> us == []
  {
    if us != [] { FlattenHead(us); }
  }

  lemma OneElement(S: seq<MemUnit>, a: nat, b: nat)
    requires a <= b <= |S| && a < |S| && |Flatten(S[a..b])| == S[a].size && forall i :: 0 <= i < |S| ==> S[i].size > 0
    ensures b == a + 1
  {
    NonEmptyBytes(S[a..b]);
    assert b > a;
    FlattenHead(S[a..b]);
    assert S[a..b][1..] == S[a + 1..b];
    NonEmptyBytes(S[a + 1..b]);
  }

  /** The run of the machine on several iovecs of the given lengths, in one call or in several. */
  ghost function Sent(D: Desc, c: Cursor, lens: seq<nat>): (r: Packing)
    ensures Live(D, c) && !r.finished ==> Live(D, r.c)
    decreases |lens|
  {
    if lens == [] || !Live(D, c) then Packing(c, [], false)
    else
      var r := Packs(D, c, lens[0]);
      if r.finished then r else Then(r.at, Sent(D, r.c, lens[1..]))
  }

  lemma SentNext(D: Desc, c: Cursor, lens: seq<nat>, rest: seq<nat>)
    requires Live(D, c) && lens != [] && rest == lens[1..]
    ensures var r := Packs(D, c, lens[0]); Sent(D, c, lens) == if r.finished then r else Then(r.at, Sent(D, r.c, rest))
  {
    hide Live, Packs;
  }

  lemma {:induction false} SentAppend(D: Desc, c: Cursor, a: seq<nat>, b: seq<nat>)
    requires Live(D, c)
    ensures var r := Sent(D, c, a); Sent(D, c, a + b) == if r.finished then r else Then(r.at, Sent(D, r.c, b))
    decreases |a|
  {
    hide Live, Packs;
    if a == [] {
      assert a + b == b;
    } else {
      var r := Packs(D, c, a[0]);
      assert (a + b)[1..] == a[1..] + b;
      if !r.finished {
        SentAppend(D, r.c, a[1..], b);
        var q := Sent(D, r.c, a[1..]);
        if !q.finished { Associate(r.at, q.at, Sent(D, q.c, b).at); }
      }
    }
  }

  /** A truthful description is packed as its stream, whatever the lengths; any description as many bytes. */
  lemma {:induction false} SentOn(D: Desc, c: Cursor, S: seq<MemUnit>, done: nat, lens: seq<nat>) returns (d: nat)
    requires On(D, c, S, done) && done < |S|
    ensures Live(D, c) && done <= d <= |S| && |Sent(D, c, lens).at| == |Flatten(S[done..d])|
    ensures Sent(D, c, lens).finished <==> d == |S|
    ensures !Sent(D, c, lens).finished ==> On(D, Sent(D, c, lens).c, S, d)
    ensures Honest(D) ==> Sent(D, c, lens).at == Flatten(S[done..d])
    decreases |lens|
  {
    hide Live, Packs, On, Honest, Flatten;
    OnLive(D, c, S, done);
    d := done;
    NoTokens();
    assert S[done..done] == [];
    if lens != [] {
      d := PacksOn(D, c, S, done, lens[0]);
      var r := Packs(D, c, lens[0]);
      if !r.finished {
        var d' := SentOn(D, r.c, S, d, lens[1..]);
        SplitAt(S, done, d, d');
        d := d';
      }
    }
  }

  lemma SplitAt(S: seq<MemUnit>, a: nat, b: nat, c: nat)
    requires a <= b <= c <= |S|
    ensures Flatten(S[a..c]) == Flatten(S[a..b]) + Flatten(S[b..c])
  {
    assert S[a..c] == S[a..b] + S[b..c];
    FlattenAppend(S[a..b], S[b..c]);
  }

  function Sizes(S: seq<MemUnit>): seq<nat> { seq(|S|, i requires 0 <= i < |S| => S[i].size) }

  lemma SizesNext(S: seq<MemUnit>, done: nat)
    requires done < |S|
    ensures var lens := Sizes(S[done..]); lens != [] && lens[0] == S[done].size && lens[1..] == Sizes(S[done + 1..])
  {
  }

  lemma ReachesParts(D: Desc, S: seq<MemUnit>, done: nat, space: nat, r: Packing, d: nat)
    requires Reaches(D, S, done, space, r, d)
    ensures done <= d <= |S| && |r.at| == |Flatten(S[done..d])| <= space
    ensures if r.finished then d == |S| else On(D, r.c, S, d) && d < |S| && Exactly(D, r.c, S[d].size)
    ensures !r.finished ==> S[d].size > space - |r.at|
  {
    hide On, Flatten;
  }

  /** Element by element every description, truthful or not, is packed as its stream. */
  lemma {:induction false} SentSingly(D: Desc, c: Cursor, S: seq<MemUnit>, done: nat)
    requires On(D, c, S, done) && done < |S| && Exactly(D, c, S[done].size)
    requires forall i :: 0 <= i < |S| ==> S[i].size > 0
    ensures Live(D, c) && Sent(D, c, Sizes(S[done..])).finished && Sent(D, c, Sizes(S[done..])).at == Flatten(S[done..])
    decreases |S| - done
  {
    hide *;
    OnLive(D, c, S, done);
    PacksNext(D, c, S, done);
    var r := Packs(D, c, S[done].size);
    ReachesParts(D, S, done, S[done].size, r, done + 1);
    SizesNext(S, done);
    SentNext(D, c, Sizes(S[done..]), Sizes(S[done + 1..]));
    SplitAt(S, done, done + 1, |S|);
    assert S[done..|S|] == S[done..] && S[done + 1..|S|] == S[done + 1..];
    NoTokens();
    if r.finished {
      assert S[done + 1..] == [];
    } else {
      SentSingly(D, r.c, S, done + 1);
      ThenAt(r.at, Sent(D, r.c, Sizes(S[done + 1..])));
    }
  }

  lemma ThenAt(at: seq<int>, r: Packing)
    ensures Then(at, r).at == at + r.at && Then(at, r).finished == r.finished && Then(at, r).c == r.c
  {
  }

  /** So there are lengths with which every CONTIGUOUS loop is entered: first none, then one element at a time. */
  lemma SentEntering(D: Desc, c: Cursor, S: seq<MemUnit>)
    requires On(D, c, S, 0) && S != [] && forall i :: 0 <= i < |S| ==> S[i].size > 0
    ensures Live(D, c) && Sent(D, c, [0] + Sizes(S)).finished && Sent(D, c, [0] + Sizes(S)).at == Flatten(S)
  {
    hide Live, Packs, On, Flatten, Sent;
    OnLive(D, c, S, 0);
    var d := PacksOn(D, c, S, 0, 0);
    NonEmptyBytes(S[0..d]);
    assert d == 0;
    var r, lens := Packs(D, c, 0), [0] + Sizes(S);
    NoTokens();
    assert S[0..0] == [] && S[0..] == S && lens[1..] == Sizes(S);
    SentNext(D, c, lens, Sizes(S));
    SentSingly(D, r.c, S, 0);
  }

  /** Where iovec j starts in the stream. */
  ghost function From(done: nat, cuts: seq<nat>, j: nat): nat { if j == 0 || j > |cuts| then done else cuts[j - 1] }

  /** A piece of the given length holds the elements between two positions of the stream, and the
      next element does not fit into it. */
  ghost predicate CutAt(S: seq<MemUnit>, a: nat, b: nat, len: nat, room: nat) {
    a <= b <= |S| && len == |Flatten(S[a..b])| && (b == |S| || S[b].size > room - len)
  }

  /** Iovec j holds the elements up to cuts[j]. */
  ghost predicate Cut(S: seq<MemUnit>, done: nat, iov: seq<array<Byte>>, lens: seq<nat>, cuts: seq<nat>) {
    && |lens| == |cuts| <= |iov|
    && forall j :: 0 <= j < |cuts| ==> CutAt(S, From(done, cuts, j), cuts[j], lens[j], iov[j].Length)
  }

  lemma CutMore(S: seq<MemUnit>, done: nat, iov: seq<array<Byte>>, lens: seq<nat>, cuts: seq<nat>, n: nat, d: nat,
          d': nat)
    requires Cut(S, done, iov, lens, cuts) && |cuts| < |iov| && d == From(done, cuts, |cuts|)
    requires CutAt(S, d, d', n, iov[|cuts|].Length)
    ensures Cut(S, done, iov, lens + [n], cuts + [d']) && From(done, cuts + [d'], |cuts| + 1) == d'
  {
    hide CutAt;
    assert forall j :: 0 <= j <= |cuts| ==> From(done, cuts + [d'], j) == From(done, cuts, j);
  }

  function Lengths(iov: seq<array<Byte>>): seq<nat> { seq(|iov|, i requires 0 <= i < |iov| => iov[i].Length) }

  /** Fills the iovecs in turn until everything is packed. */
  method FillAll(D: Desc, mem: Memory, c: Cursor, iov: seq<array<Byte>>, ghost S: seq<MemUnit>, ghost done: nat)
    returns (c': Cursor, lens: seq<nat>, packed: nat, finished: bool, ghost d: nat, ghost cuts: seq<nat>)
    requires Live(D, c) && On(D, c, S, done) && done < |S| && (forall i, j :: 0 <= i < j < |iov| ==> iov[i] != iov[j])
    modifies iov
    ensures done <= d <= |S| && Filled(iov, lens, Read(mem, Sent(D, c, Lengths(iov)).at))
    ensures packed == |Sent(D, c, Lengths(iov)).at| == |Flatten(S[done..d])|
    ensures Honest(D) ==> Sent(D, c, Lengths(iov)).at == Flatten(S[done..d])
    ensures Sent(D, c, Lengths(iov)) == Packing(c', Sent(D, c, Lengths(iov)).at, finished)
    ensures finished ==> d == |S|
    ensures !finished ==> |lens| == |iov| && On(D, c', S, d) && d < |S|
    ensures Cut(S, done, iov, lens, cuts) && d == From(done, cuts, |cuts|)
  {
    hide On, Flatten, Joined, Cut, From, Live, Packs, Honest, Sent, Reaches, Exactly;
    c', lens, packed, finished, d, cuts := c, [], 0, false, done, [];
    ghost var at: seq<int> := [];
    NoCuts(S, done, iov);
    assert S[done..done] == [] && iov[..0] == [] && iov[0..] == iov;
    NoTokens();
    NoneJoined();
    var k := 0;
    while k < |iov| && !finished
      invariant |lens| == k <= |iov| && done <= d <= |S|
      invariant forall j :: 0 <= j < k ==> lens[j] <= iov[j].Length
      invariant Joined(iov[..k], lens) == Read(mem, at) && packed == |at| == |Flatten(S[done..d])|
      invariant Honest(D) ==> at == Flatten(S[done..d])
      invariant finished ==> d == |S| && Sent(D, c, Lengths(iov)) == Packing(c', at, true)
      invariant !finished ==> Live(D, c') && On(D, c', S, d) && d < |S|
      invariant !finished ==> Sent(D, c, Lengths(iov)) == Then(at, Sent(D, c', Lengths(iov[k..])))
      invariant Cut(S, done, iov, lens, cuts) && |cuts| == k && d == From(done, cuts, k)
    {
      ghost var d' := PacksOn(D, c', S, d, iov[k].Length);
      ghost var r := Packs(D, c', iov[k].Length);
      ReachesParts(D, S, d, iov[k].Length, r, d');
      SentFirst(D, c', iov, k);
      var n;
      c', n, finished := PackInto(D, mem, c', iov[k]);
      JoinMore(iov, lens, k, n);
      ReadAppend(mem, at, r.at);
      SplitAt(S, done, d, d');
      CutMore(S, done, iov, lens, cuts, n, d, d');
      if !finished { Associate(at, r.at, Sent(D, r.c, Lengths(iov[k + 1..])).at); }
      at := at + r.at;
      lens, packed, k, d, cuts := lens + [n], packed + n, k + 1, d', cuts + [d'];
    }
    assert iov[|iov|..] == [] && Lengths(iov[|iov|..]) == [];
    SentStart(D, c');
  }

  lemma SentStart(D: Desc, c: Cursor)
    ensures Sent(D, c, []) == Packing(c, [], false)
  {
  }

  lemma SentFirst(D: Desc, c: Cursor, iov: seq<array<Byte>>, k: nat)
    requires Live(D, c) && k < |iov|
    ensures var r := Packs(D, c, iov[k].Length);
      Sent(D, c, Lengths(iov[k..])) == if r.finished then r else Then(r.at, Sent(D, r.c, Lengths(iov[k + 1..])))
  {
    assert Lengths(iov[k..])[1..] == Lengths(iov[k + 1..]);
    SentNext(D, c, Lengths(iov[k..]), Lengths(iov[k + 1..]));
  }

  lemma NoCuts(S: seq<MemUnit>, done: nat, iov: seq<array<Byte>>)
    ensures Cut(S, done, iov, [], []) && From(done, [], 0) == done
  {
  }

  /** Element boundaries: position done of the stream lies at or before byte p, and the next element ends after it. */
  ghost predicate Boundary(S: seq<MemUnit>, done: nat, p: nat) {
    done < |S| && |Flatten(S[..done])| <= p < |Flatten(S[..done])| + S[done].size
  }

  /** There is an instance left for every one that fits before the target. */
  lemma SkipFits(D: Desc, c: Cursor, S: seq<MemUnit>, done: nat, n: nat)
    requires On(D, c, S, done) && D.used <= |D.d| && n * |Bytes(D.d[..D.used], ByBody)| < |Flatten(S[done..])|
    ensures c.fs != [] && n < c.fs[0].count
  {
    hide Valid, InInstance, Real, Todo, Rest, Flatten, Repeat, Bytes, Units;
    var s, m := D.d[..D.used], |Bytes(D.d[..D.used], ByBody)|;
    var p := RestSuffix(D, c);
    var r, f := Real(Rest(D, c, ByBody)), c.fs[0];
    TodoUnits(D, c);
    RepeatSize(s, f.count - 1, D.extent, f.disp + D.extent, ByBody);
    FlattenAppend(r, Repeat(s, f.count - 1, D.extent, f.disp + D.extent, ByBody));
    FlattenAppend(p, r);
    InstanceSize(s, f.disp, ByBody);
    MulOrder(f.count - 1, n, m);
    MulOrder(f.count, n, m);
  }

  lemma SkipOn(D: Desc, c: Cursor, S: seq<MemUnit>, done: nat, n: nat) returns (d: nat)
    requires On(D, c, S, done) && c.fs != [] && n < c.fs[0].count
    ensures On(D, Skipped(c, n, n * D.extent), S, d) && done <= d <= |S| && D.used <= |D.d|
    ensures |Flatten(S[done..d])| == n * |Bytes(D.d[..D.used], ByBody)|
  {
    hide Valid, InInstance, Real, Todo, Rest, Flatten, Bytes;
    var x := SkipTodo(D, c, n);
    Onward(S, done, x, Real(Todo(D, Skipped(c, n, n * D.extent), ByBody)));
    SkippedValid(D, c, n, n * D.extent);
    SkippedInInstance(D, c, n, n * D.extent);
    d := done + |x|;
  }

  /** Walking stops at the last boundary at or before the target. */
  method WalkTo(D: Desc, c: Cursor, space: nat, ghost S: seq<MemUnit>, ghost done: nat)
    returns (c': Cursor, left: nat, finished: bool, ghost d: nat)
    requires On(D, c, S, done) && space < |Flatten(S[done..])|
    ensures !finished && done <= d < |S| && On(D, c', S, d) && left + |Flatten(S[done..d])| == space && S[d].size > left
  {
    hide Valid, InInstance, Real, Todo, Rest, Flatten, Ran;
    ghost var us;
    c', left, finished, us := Walk(D, c, space);
    RanAll(D, c, S, done);
    RanOn(D, c, us, c', S, done);
    d := done + |Real(us)|;
    StuckNext(D, c', S, d, left);
  }

  /** opal_convertor_generic_simple_position: to byte p, from byte from; partial bytes into an element. */
  method Seek(D: Desc, size: nat, c: Cursor, from: nat, p: nat, ghost S: seq<MemUnit>, ghost done: nat)
    returns (c': Cursor, partial: nat, ghost d: nat)
    requires On(D, c, S, done) && D.used <= |D.d| && size == |Bytes(D.d[..D.used], ByBody)|
    requires from == |Flatten(S[..done])| < p < |Flatten(S)|
    ensures On(D, c', S, d) && Boundary(S, d, p) && p - partial == |Flatten(S[..d])|
  {
    hide Valid, InInstance, Real, Todo, Rest, Flatten, On, Bytes;
    var space, cur := p - from, c;
    ghost var mid := done;
    OnBounds(D, c, S, done);
    TailSize(S, done);
    if space > size {
      SizePositive(D, c, S, done);
      var n := space / size;
      Quotient(space, size);
      SkipFits(D, c, S, done, n);
      mid := SkipOn(D, c, S, done, n);
      cur := Skipped(c, n, n * D.extent);
      SplitBytes(S, done, mid);
      TailSize(S, mid);
      space := p - (from + n * size);
    }
    var finished;
    c', partial, finished, d := WalkTo(D, cur, space, S, mid);
    SplitBytes(S, mid, d);
  }

  lemma SizePositive(D: Desc, c: Cursor, S: seq<MemUnit>, done: nat)
    requires On(D, c, S, done) && D.used <= |D.d| && |Flatten(S[done..])| > 0
    ensures |Bytes(D.d[..D.used], ByBody)| > 0
  {
    hide Flatten, On, Bytes;
    var n := if c.fs == [] then 0 else c.fs[0].count;
    if |Bytes(D.d[..D.used], ByBody)| == 0 { SkipFits(D, c, S, done, n); }
  }

  lemma Quotient(space: nat, size: nat)
    requires size > 0
    ensures space / size * size <= space < space / size * size + size
  {
  }

  lemma OnBounds(D: Desc, c: Cursor, S: seq<MemUnit>, done: nat)
    requires On(D, c, S, done)
    ensures done <= |S| && Committed(D)
  {
  }

  lemma TailSize(S: seq<MemUnit>, d: nat)
    requires d <= |S|
    ensures |Flatten(S)| == |Flatten(S[..d])| + |Flatten(S[d..])|
  {
    assert S == S[..d] + S[d..];
    FlattenAppend(S[..d], S[d..]);
  }

  class Convertor {
    const D: Desc
    const count: nat
    const size: nat
    const mem: Memory
    const localSize: nat
    var stack: seq<Frame>
    var bConverted: nat
    var completed: bool

    /** Elements before the position. */
    ghost var done: nat

    /** The elements of count instances, in order. */
    ghost function Stream(): seq<MemUnit> {
      Repeat(D.d[..if D.used <= |D.d| then D.used else 0], count, D.extent, 0, ByBody)
    }

    ghost predicate Valid()
      reads this
    {
      && Committed(D) && size == |Bytes(D.d[..D.used], ByBody)| && localSize == count * size
      && done <= |Stream()| && bConverted == |Flatten(Stream()[..done])|
      && (completed <==> done == |Stream()|)
      && (!completed ==> On(D, CursorOf(stack), Stream(), done))
    }

    /** opal_convertor_prepare_for_send. */
    constructor (D: Desc, count: nat, size: nat, mem: Memory)
      requires Committed(D) && size == |Bytes(D.d[..D.used], ByBody)|
      ensures Valid() && this.D == D && this.count == count && this.mem == mem && bConverted == 0 && done == 0
      ensures completed <==> count == 0 || size == 0
      ensures !completed ==> CursorOf(stack) == Goto(D, [Frame(-1, count, 0)], 0)
    {
      this.D, this.count, this.size, this.mem := D, count, size, mem;
      localSize := count * size;
      bConverted, done := 0, 0;
      completed := count == 0 || size == 0;
      stack := [Frame(-1, count, 0), Frame(0, if 0 < |D.d| then Count(D.d[0]) else 0, 0)];
      new;
      RepeatSize(D.d[..D.used], count, D.extent, 0, ByBody);
      NoTokens();
      EmptyStream(D, count);
      if !completed {
        StartOn(D, count);
        StartStack(D, count);
      }
    }

    /** The displacements that calls with iovecs of the given lengths pack from here. */
    ghost function Sends(lens: seq<nat>): seq<int>
      reads this
    {
      if completed then [] else Sent(D, CursorOf(stack), lens).at
    }

    /** opal_convertor_pack: fills the iovecs in turn, each up to an element boundary. What is packed is the next
        part of the stream if the description is truthful; how much is packed does not depend on that. */
    method Pack(iov: seq<array<Byte>>)
      returns (lens: seq<nat>, packed: nat, finished: bool, ghost at: seq<int>, ghost cuts: seq<nat>)
      requires Valid() && (forall i, j :: 0 <= i < j < |iov| ==> iov[i] != iov[j])
      modifies this, iov
      ensures Valid() && old(done) <= done
      ensures at == old(Sends(Lengths(iov))) && Filled(iov, lens, Read(mem, at))
      ensures forall more: seq<nat> :: old(Sends(Lengths(iov) + more)) == at + Sends(more)
      ensures Honest(D) ==> at == Span(Stream(), old(done), done)
      ensures packed == |at| && bConverted == old(bConverted) + packed
      ensures finished == completed == (bConverted == localSize)
      ensures !completed ==> |lens| == |iov|
      ensures Cut(Stream(), old(done), iov, lens, cuts) && done == From(old(done), cuts, |cuts|)
    {
      hide On, Flatten, Repeat, Real, Bytes, Joined, Sound, Cut, From, Honest, Sent, Live;
      ghost var S := Stream();
      RepeatSize(D.d[..D.used], count, D.extent, 0, ByBody);
      StreamPositive(D, count);
      AllBehind(S, done);
      if completed {
        assert S[done..done] == [] && iov[..0] == [];
        NoTokens();
        NoneJoined();
        NoCuts(S, done, iov);
        return [], 0, true, [], [];
      }
      ghost var c0, all := CursorOf(stack), Lengths(iov);
      OnLive(D, c0, S, done);
      ghost var r := Sent(D, c0, all);
      at := r.at;
      forall more: seq<nat>
        ensures Sent(D, c0, all + more) == if r.finished then r else Then(r.at, Sent(D, r.c, more))
      {
        SentAppend(D, c0, all, more);
      }
      var c;
      ghost var d;
      c, lens, packed, finished, d, cuts := FillAll(D, mem, CursorOf(stack), iov, S, done);
      SplitBytes(S, done, d);
      AllBehind(S, d);
      bConverted, done := bConverted + packed, d;
      completed := bConverted == localSize;
      finished := completed;
      if !completed {
        stack := StackOf(c);
        StackRoundTrip(c);
      }
    }

    /** opal_convertor_set_position: forward or back to the last element boundary at or before p. */
    method SetPosition(p: nat) returns (position: nat)
      requires Valid()
      modifies this
      ensures Valid() && position == bConverted
      ensures completed <==> p >= localSize
      ensures completed ==> bConverted == localSize
      ensures !completed ==> Boundary(Stream(), done, p)
    {
      hide On, Flatten, Repeat, Real, Bytes, Sound;
      ghost var S := Stream();
      RepeatSize(D.d[..D.used], count, D.extent, 0, ByBody);
      StreamPositive(D, count);
      AllBehind(S, done);
      if localSize <= p {
        assert S[..|S|] == S;
        completed, bConverted, done := true, localSize, |S|;
        return bConverted;
      }
      if p == bConverted { return bConverted; }
      completed := false;
      if p == 0 || p < bConverted {
        StartOn(D, count);
        StartStack(D, count);
        NoTokens();
        assert S[..0] == [];
        stack := [Frame(-1, count, 0), Frame(0, Count(D.d[0]), 0)];
        bConverted, done := 0, 0;
        AllBehind(S, 0);
        if p == 0 { return 0; }
      }
      var c, partial;
      ghost var d;
      c, partial, d := Seek(D, size, CursorOf(stack), bConverted, p, S, done);
      StackRoundTrip(c);
      AllBehind(S, d);
      stack, bConverted, done := StackOf(c), p - partial, d;
      position := bConverted;
    }
  }

  lemma NoneJoined()
    ensures Joined([], []) == []
  {
  }

  lemma EmptyStream(D: Desc, count: nat)
    requires Committed(D)
    ensures Repeat(D.d[..D.used], count, D.extent, 0, ByBody) == [] <==> count * |Bytes(D.d[..D.used], ByBody)| == 0
  {
    hide Nested, Sound, Bytes, Turns, Repeat, Real;
    CommittedParts(D);
    RepeatSize(D.d[..D.used], count, D.extent, 0, ByBody);
    TurnsReal(D.d[..D.used], count, D.extent, 0);
    RealBytes(Turns(D.d[..D.used], count, D.extent, 0, ByBody));
    if Repeat(D.d[..D.used], count, D.extent, 0, ByBody) != [] {
      RealNonEmpty(Turns(D.d[..D.used], count, D.extent, 0, ByBody));
    }
  }

  /** The stack opal_convertor_create_stack_at_begining fills in. */
  lemma StartStack(D: Desc, count: nat)
    requires |D.d| > 0
    ensures CursorOf([Frame(-1, count, 0), Frame(0, Count(D.d[0]), 0)]) == Goto(D, [Frame(-1, count, 0)], 0)
  {
  }

  /** Fresh buffers of the given lengths. */
  method Buffers(lens: seq<nat>) returns (iov: seq<array<Byte>>)
    ensures |iov| == |lens| && fresh(iov) && (forall i :: 0 <= i < |iov| ==> iov[i].Length == lens[i])
    ensures forall i, j :: 0 <= i < j < |iov| ==> iov[i] != iov[j]
  {
    iov := [];
    for k := 0 to |lens|
      invariant |iov| == k && fresh(iov) && (forall i :: 0 <= i < k ==> iov[i].Length == lens[i])
      invariant forall i, j :: 0 <= i < j < k ==> iov[i] != iov[j]
    {
      var b := new Byte[lens[k]](_ => 0);
      iov := iov + [b];
    }
  }

  method Collect(iov: seq<array<Byte>>, lens: seq<nat>) returns (out: seq<Byte>)
    requires |lens| <= |iov| && forall j :: 0 <= j < |lens| ==> lens[j] <= iov[j].Length
    ensures Filled(iov, lens, out)
  {
    out := [];
    NoneJoined();
    assert iov[..0] == [] && lens[..0] == [];
    for k := 0 to |lens|
      invariant out == Joined(iov[..k], lens[..k])
    {
      JoinMore(iov, lens[..k], k, lens[k]);
      assert lens[..k] + [lens[k]] == lens[..k + 1];
      out := out + iov[k][..lens[k]];
    }
    assert lens[..|lens|] == lens;
  }

  /** One pack call into fresh buffers. */
  method PackOnce(conv: Convertor, lens: seq<nat>) returns (piece: seq<Byte>)
    requires conv.Valid()
    modifies conv
    ensures conv.Valid() && old(conv.done) <= conv.done && |piece| == conv.bConverted - old(conv.bConverted)
    ensures piece == Read(conv.mem, old(conv.Sends(lens)))
    ensures forall more: seq<nat> :: old(conv.Sends(lens + more)) == old(conv.Sends(lens)) + conv.Sends(more)
    ensures Honest(conv.D) ==> old(conv.Sends(lens)) == Span(conv.Stream(), old(conv.done), conv.done)
  {
    hide Flatten, Repeat, Joined, On, Real, Bytes, Committed, Honest, Sent, Live;
    var iov := Buffers(lens);
    assert Lengths(iov) == lens;
    var got, packed, finished;
    ghost var at, cuts;
    got, packed, finished, at, cuts := conv.Pack(iov);
    piece := Collect(iov, got);
  }

  function Concat(calls: seq<seq<nat>>): seq<nat> { if calls == [] then [] else calls[0] + Concat(calls[1..]) }

  /** Any sequence of pack calls, with any iovec lengths, packs what the machine does with these lengths. If the
      description is truthful, that is the stream from where the convertor was to where it is. */
  method PackCalls(conv: Convertor, calls: seq<seq<nat>>) returns (out: seq<Byte>)
    requires conv.Valid()
    modifies conv
    ensures conv.Valid() && old(conv.done) <= conv.done && |out| == conv.bConverted - old(conv.bConverted)
    ensures out == Read(conv.mem, old(conv.Sends(Concat(calls))))
    ensures Honest(conv.D) ==> out == Read(conv.mem, Span(conv.Stream(), old(conv.done), conv.done))
    ensures Honest(conv.D) && conv.completed && old(conv.done) == 0 ==> out == Read(conv.mem, Flatten(conv.Stream()))
  {
    hide Flatten, Repeat, Joined, On, Real, Bytes, Committed, Honest, Sent, Live;
    out := [];
    ghost var S, at: seq<int> := conv.Stream(), [];
    NoTokens();
    assert S[conv.done..conv.done] == [] && calls[0..] == calls;
    for k := 0 to |calls|
      invariant conv.Valid() && old(conv.done) <= conv.done && |out| == conv.bConverted - old(conv.bConverted)
      invariant out == Read(conv.mem, at) && old(conv.Sends(Concat(calls))) == at + conv.Sends(Concat(calls[k..]))
      invariant Honest(conv.D) ==> at == Flatten(S[old(conv.done)..conv.done])
    {
      ghost var d, next := conv.done, conv.Sends(calls[k]);
      assert calls[k..][1..] == calls[k + 1..];
      var piece := PackOnce(conv, calls[k]);
      SplitAt(S, old(conv.done), d, conv.done);
      ReadAppend(conv.mem, at, next);
      Associate(at, next, conv.Sends(Concat(calls[k + 1..])));
      out, at := out + piece, at + next;
    }
    SendsNothing(conv);
    if conv.completed && old(conv.done) == 0 { assert S[0..|S|] == S; }
  }

  lemma SendsNothing(conv: Convertor)
    requires conv.Valid()
    ensures conv.Sends([]) == []
  {
  }

  /** Seeking equals packing and discarding: after moving to p, any sequence of pack calls yields the
      stream from the last element boundary at or before p. */
  method SeekAndPack(conv: Convertor, p: nat, calls: seq<seq<nat>>) returns (from: nat, out: seq<Byte>)
    requires conv.Valid() && p < conv.localSize
    modifies conv
    ensures conv.Valid() && exists d: nat :: Boundary(conv.Stream(), d, p) && from == |Flatten(conv.Stream()[..d])|
    ensures from + |out| <= |Flatten(conv.Stream())| && (conv.completed <==> from + |out| == |Flatten(conv.Stream())|)
    ensures Honest(conv.D) ==> out == Read(conv.mem, Flatten(conv.Stream()))[from..from + |out|]
  {
    hide Flatten, Repeat, On, Real, Bytes, Committed, Honest, Sent, Live;
    from := conv.SetPosition(p);
    ghost var S, d := conv.Stream(), conv.done;
    assert Boundary(S, d, p);
    out := PackCalls(conv, calls);
    SplitBytes(S, d, conv.done);
    SplitBytes(S, conv.done, |S|);
    assert S[..|S|] == S;
    ConvertedAll(conv);
  }

  lemma ConvertedAll(conv: Convertor)
    requires conv.Valid()
    ensures conv.completed <==> conv.bConverted == |Flatten(conv.Stream())|
    ensures conv.bConverted <= |Flatten(conv.Stream())|
  {
    hide Flatten, Repeat, On, Real, Bytes, Sound;
    StreamPositive(conv.D, conv.count);
    AllBehind(conv.Stream(), conv.done);
  }
}
