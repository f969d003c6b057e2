/**
 Descriptions the stack machines can walk: loops run, and a CONTIGUOUS loop records a block of the size of its
 body. A truthful description means the same however its CONTIGUOUS loops are read.
 */
module Soundness {
  import opened Description

  /** What is asked of CONTIGUOUS loops: that the block recorded in the END_LOOP has the size of the body;
      in addition, that the body is data only, or that the block is the body. */
  datatype Care = Sized | Plain | Truthful

  predicate DataOnly(s: seq<Entry>) { forall i :: 0 <= i < |s| ==> s[i].Elem? }

  ghost predicate SoundBlock(body: seq<Entry>, end: Entry, care: Care)
    requires end.EndLoop?
  {
    && |Bytes(body, ByBody)| == end.size && (care == Plain ==> DataOnly(body))
    && (care == Truthful ==> Bytes(body, ByBody) == Range(end.first, end.size))
  }

  /** Loops run at least once, and CONTIGUOUS ones are described with the given care. */
  ghost predicate SoundHead(s: seq<Entry>, care: Care)
    requires s != []
    decreases |s|, 0
  {
    match s[0]
    case Elem(typ, _, _, _, _) => typ.size > 0
    case Loop(contig, loops, items, _) =>
      && loops >= 1 && 1 <= items < |s| && s[items].EndLoop? && Sound(s[1..items], care)
      && (contig ==> SoundBlock(s[1..items], s[items], care))
    case EndLoop(_, _, _) => false
  }

  ghost predicate Sound(s: seq<Entry>, care: Care)
    decreases |s|, 1
  {
    s == [] || (SoundHead(s, care) && HeadLen(s) <= |s| && Sound(s[HeadLen(s)..], care))
  }

  lemma {:induction false} SoundNested(s: seq<Entry>, care: Care)
    requires Sound(s, care)
    ensures Nested(s)
    decreases |s|
  {
    if s != [] {
      if s[0].Loop? { SoundNested(s[1..s[0].items], care); }
      SoundNested(s[HeadLen(s)..], care);
    }
  }

  lemma NoSound(care: Care)
    ensures Sound([], care)
  {
  }

  lemma SoundParts(s: seq<Entry>, care: Care)
    requires s != [] && HeadLen(s) <= |s|
    ensures Sound(s, care) <==> SoundHead(s, care) && Sound(s[HeadLen(s)..], care)
  {
  }

  /** The first item does not depend on what follows it. */
  lemma SoundHeadAppend(s: seq<Entry>, t: seq<Entry>, care: Care)
    requires s != [] && HeadLen(s) <= |s| && NestedHead(s)
    ensures SoundHead(s + t, care) <==> SoundHead(s, care)
  {
    if s[0].Loop? {
      assert (s + t)[1..s[0].items] == s[1..s[0].items];
    }
  }

  lemma {:induction false} SoundAppend(s: seq<Entry>, t: seq<Entry>, care: Care)
    requires Nested(s)
    ensures Sound(s + t, care) <==> Sound(s, care) && Sound(t, care)
    decreases |s|
  {
    hide *;
    if s == [] {
      NoSound(care);
      assert s + t == t;
    } else {
      NestedParts(s);
      HeadAppend(s, t, 0, ByBody);
      SoundHeadAppend(s, t, care);
      assert (s + t)[HeadLen(s)..] == s[HeadLen(s)..] + t;
      SoundParts(s, care);
      SoundParts(s + t, care);
      SoundAppend(s[HeadLen(s)..], t, care);
    }
  }

  /** An item on its own. */
  lemma SoundSingle(s: seq<Entry>, care: Care)
    requires s != [] && HeadLen(s) == |s|
    ensures Sound(s, care) <==> SoundHead(s, care)
  {
    hide SoundHead;
    assert s[HeadLen(s)..] == [];
  }

  lemma SoundElem(e: Entry, care: Care)
    requires e.Elem?
    ensures Sound([e], care) <==> e.typ.size > 0
  {
    SoundSingle([e], care);
  }

  lemma {:induction false} RepeatBlocks(body: seq<Entry>, n: nat, extent: int, base: int, first: int, size: nat,
          how: Reading)
    requires Bytes(body, how) == Range(first, size)
    ensures Flatten(Repeat(body, n, extent, base, how)) == Flatten(Copies(n, base + first, extent, size))
    decreases n
  {
    hide Bytes, Units;
    if n > 0 {
      RepeatBlocks(body, n - 1, extent, base + extent, first, size, how);
      BytesAt(body, base, how);
      assert ShiftBytes(Range(first, size), base) == Range(base + first, size);
      FlattenAppend(Units(body, base, how), Repeat(body, n - 1, extent, base + extent, how));
      assert base + extent + first == base + first + extent;
      assert Copies(n, base + first, extent, size)[1..] == Copies(n - 1, base + first + extent, extent, size);
    }
  }

  /** A truthful description means the same whether its CONTIGUOUS loops are entered or read as blocks. */
  lemma {:induction false} EitherReading(s: seq<Entry>, base: int)
    requires Sound(s, Truthful)
    ensures Flatten(Units(s, base, ByBody)) == Flatten(Units(s, base, ByBlock))
    decreases |s|, 1
  {
    hide Units, HeadUnits, SoundHead, Flatten;
    if s == [] {
      NoUnits(base, ByBody);
      NoUnits(base, ByBlock);
    } else {
      EitherHead(s, base);
      EitherReading(s[HeadLen(s)..], base);
      UnitsCons(s, HeadLen(s), base, ByBody);
      UnitsCons(s, HeadLen(s), base, ByBlock);
      FlattenAppend(HeadUnits(s, base, ByBody), Units(s[HeadLen(s)..], base, ByBody));
      FlattenAppend(HeadUnits(s, base, ByBlock), Units(s[HeadLen(s)..], base, ByBlock));
    }
  }

  lemma {:induction false} EitherHead(s: seq<Entry>, base: int)
    requires s != [] && SoundHead(s, Truthful)
    ensures Flatten(HeadUnits(s, base, ByBody)) == Flatten(HeadUnits(s, base, ByBlock))
    decreases |s|, 0
  {
    hide Units, Flatten, Sound, Repeat;
    if s[0].Loop? {
      var body, end := s[1..s[0].items], s[s[0].items];
      if s[0].contig {
        RepeatBlocks(body, s[0].loops, s[0].extent, base, end.first, end.size, ByBody);
      } else {
        EitherRepeat(body, s[0].loops, s[0].extent, base);
      }
    }
  }

  lemma {:induction false} EitherRepeat(body: seq<Entry>, n: nat, extent: int, base: int)
    requires Sound(body, Truthful)
    ensures Flatten(Repeat(body, n, extent, base, ByBody)) == Flatten(Repeat(body, n, extent, base, ByBlock))
    decreases |body|, 2 + n
  {
    hide Units, Flatten, Sound;
    if n > 0 {
      EitherReading(body, base);
      EitherRepeat(body, n - 1, extent, base + extent);
      FlattenAppend(Units(body, base, ByBody), Repeat(body, n - 1, extent, base + extent, ByBody));
      FlattenAppend(Units(body, base, ByBlock), Repeat(body, n - 1, extent, base + extent, ByBlock));
    }
  }

  // ---------------------------------------------------------------- less care, and more

  lemma {:induction false} SoundSized(s: seq<Entry>, care: Care)
    requires Sound(s, care)
    ensures Sound(s, Sized)
    decreases |s|
  {
    hide Bytes;
    if s != [] {
      if s[0].Loop? { SoundSized(s[1..s[0].items], care); }
      SoundSized(s[HeadLen(s)..], care);
    }
  }

  /** The loop at position i is bracketed, runs, and is described with the given care. */
  ghost predicate LoopIn(s: seq<Entry>, i: nat, care: Care) {
    && i < |s| && s[i].Loop? && 1 <= s[i].items < |s| - i && s[i + s[i].items].EndLoop? && s[i].loops >= 1
    && (s[i].contig ==> SoundBlock(s[i + 1..i + s[i].items], s[i + s[i].items], care))
  }

  lemma LoopInSlice(s: seq<Entry>, a: nat, b: nat, i: nat, care: Care)
    requires a <= b <= |s| && LoopIn(s[a..b], i, care)
    ensures LoopIn(s, a + i, care)
  {
    hide SoundBlock;
    SliceOfSlice(s, a, b, i + 1, i + s[a..b][i].items);
  }

  lemma SoundHeadLoop(s: seq<Entry>, care: Care)
    requires s != [] && SoundHead(s, care) && s[0].Loop?
    ensures LoopIn(s, 0, care) && HeadLen(s) == s[0].items + 1 && Sound(s[1..s[0].items], care)
  {
    hide SoundBlock;
  }

  /** Every loop of a sound description, however deep. */
  lemma {:induction false} SoundWithin(s: seq<Entry>, care: Care, i: nat)
    requires Sound(s, care) && i < |s| && s[i].Loop?
    ensures LoopIn(s, i, care)
    decreases |s|
  {
    hide LoopIn, SoundHead;
    var k := HeadLen(s);
    if s[0].Loop? { SoundHeadLoop(s, care); }
    if i >= k {
      assert s[k..|s|] == s[k..];
      SoundWithin(s[k..|s|], care, i - k);
      LoopInSlice(s, k, |s|, i - k, care);
    } else if i > 0 {
      LastEnd(s, care);
      SoundWithin(s[1..s[0].items], care, i - 1);
      LoopInSlice(s, 1, s[0].items, i - 1, care);
    }
  }

  lemma LastEnd(s: seq<Entry>, care: Care)
    requires s != [] && SoundHead(s, care) && s[0].Loop?
    ensures s[0].items < |s| && s[s[0].items].EndLoop?
  {
  }

  lemma {:induction false} DataSound(s: seq<Entry>, a: Care, b: Care)
    requires Sound(s, a) && DataOnly(s)
    ensures Sound(s, b)
    decreases |s|
  {
    if s != [] { DataSound(s[1..], a, b); }
  }

  /** Both readings have the same number of bytes. */
  lemma {:induction false} EqualSizes(s: seq<Entry>, base: int)
    requires Sound(s, Sized)
    ensures |Flatten(Units(s, base, ByBody))| == |Flatten(Units(s, base, ByBlock))|
    decreases |s|, 1
  {
    hide Units, HeadUnits, SoundHead, Flatten;
    if s == [] {
      NoUnits(base, ByBody);
      NoUnits(base, ByBlock);
    } else {
      EqualHead(s, base);
      EqualSizes(s[HeadLen(s)..], base);
      UnitsCons(s, HeadLen(s), base, ByBody);
      UnitsCons(s, HeadLen(s), base, ByBlock);
      FlattenAppend(HeadUnits(s, base, ByBody), Units(s[HeadLen(s)..], base, ByBody));
      FlattenAppend(HeadUnits(s, base, ByBlock), Units(s[HeadLen(s)..], base, ByBlock));
    }
  }

  lemma {:induction false} EqualHead(s: seq<Entry>, base: int)
    requires s != [] && SoundHead(s, Sized)
    ensures |Flatten(HeadUnits(s, base, ByBody))| == |Flatten(HeadUnits(s, base, ByBlock))|
    decreases |s|, 0
  {
    hide Units, Flatten, Sound, Repeat, Bytes, Copies;
    if s[0].Loop? {
      var body, end := s[1..s[0].items], s[s[0].items];
      RepeatSize(body, s[0].loops, s[0].extent, base, ByBody);
      if s[0].contig {
        CopiesSize(s[0].loops, base + end.first, s[0].extent, end.size);
      } else {
        RepeatSize(body, s[0].loops, s[0].extent, base, ByBlock);
        EqualSizes(body, 0);
        BytesAt(body, 0, ByBody);
        BytesAt(body, 0, ByBlock);
      }
    }
  }

  lemma SplitEqual(a: seq<int>, b: seq<int>, c: seq<int>, d: seq<int>)
    requires a + b == c + d && |a| == |c|
    ensures a == c && b == d
  {
    assert a == (a + b)[..|a|] && c == (c + d)[..|a|];
    assert b == (a + b)[|a|..] && d == (c + d)[|a|..];
  }

  /** A description that means the same under both readings is truthful, if its CONTIGUOUS loops hold data only:
      a block that is not where the body is shows in the bytes. */
  lemma {:induction false} SameReading(s: seq<Entry>, base: int)
    requires Sound(s, Plain) && Flatten(Units(s, base, ByBody)) == Flatten(Units(s, base, ByBlock))
    ensures Sound(s, Truthful)
    decreases |s|, 1
  {
    hide Units, HeadUnits, SoundHead, Flatten;
    if s != [] {
      SoundSized(s, Plain);
      EqualHead(s, base);
      UnitsCons(s, HeadLen(s), base, ByBody);
      UnitsCons(s, HeadLen(s), base, ByBlock);
      FlattenAppend(HeadUnits(s, base, ByBody), Units(s[HeadLen(s)..], base, ByBody));
      FlattenAppend(HeadUnits(s, base, ByBlock), Units(s[HeadLen(s)..], base, ByBlock));
      SplitEqual(Flatten(HeadUnits(s, base, ByBody)), Flatten(Units(s[HeadLen(s)..], base, ByBody)),
                 Flatten(HeadUnits(s, base, ByBlock)), Flatten(Units(s[HeadLen(s)..], base, ByBlock)));
      SameHead(s, base);
      SameReading(s[HeadLen(s)..], base);
    }
  }

  lemma {:induction false} SameHead(s: seq<Entry>, base: int)
    requires s != [] && SoundHead(s, Plain)
    requires Flatten(HeadUnits(s, base, ByBody)) == Flatten(HeadUnits(s, base, ByBlock))
    ensures SoundHead(s, Truthful)
    decreases |s|, 0
  {
    hide Units, Flatten, Sound, Repeat, Bytes, Copies;
    if s[0].Loop? {
      var body, n, extent, end := s[1..s[0].items], s[0].loops, s[0].extent, s[s[0].items];
      RepeatFirst(body, n, extent, base, ByBody);
      if s[0].contig {
        CopiesFirst(n, base + end.first, extent, end.size);
        InstanceSize(body, base, ByBody);
        SplitEqual(Flatten(Units(body, base, ByBody)), Flatten(Repeat(body, n - 1, extent, base + extent, ByBody)),
                   Range(base + end.first,
                       end.size), Flatten(Copies(n - 1, base + end.first + extent, extent, end.size)));
        BytesAt(body, base, ByBody);
        SameBlock(Bytes(body, ByBody), base, end.first, end.size);
        DataSound(body, Plain, Truthful);
      } else {
        RepeatFirst(body, n, extent, base, ByBlock);
        SoundSized(body, Plain);
        EqualSizes(body, base);
        SplitEqual(Flatten(Units(body, base, ByBody)), Flatten(Repeat(body, n - 1, extent, base + extent, ByBody)),
                   Flatten(Units(body, base, ByBlock)), Flatten(Repeat(body, n - 1, extent, base + extent, ByBlock)));
        SameReading(body, base);
      }
    }
  }

  lemma RepeatFirst(body: seq<Entry>, n: nat, extent: int, base: int, how: Reading)
    requires n >= 1
    ensures Flatten(Repeat(body, n, extent, base, how))
         == Flatten(Units(body, base, how)) + Flatten(Repeat(body, n - 1, extent, base + extent, how))
  {
    FlattenAppend(Units(body, base, how), Repeat(body, n - 1, extent, base + extent, how));
  }

  lemma CopiesFirst(n: nat, at: int, step: int, size: nat)
    requires n >= 1
    ensures Flatten(Copies(n, at, step, size)) == Range(at, size) + Flatten(Copies(n - 1, at + step, step, size))
  {
    assert Copies(n, at, step, size)[1..] == Copies(n - 1, at + step, step, size);
  }

  lemma SameBlock(bs: seq<int>, base: int, first: int, size: nat)
    requires ShiftBytes(bs, base) == Range(base + first, size)
    ensures bs == Range(first, size)
  {
    assert |bs| == |ShiftBytes(bs, base)| == size;
    forall i | 0 <= i < |bs| ensures bs[i] == first + i {
      assert ShiftBytes(bs, base)[i] == base + first + i;
    }
  }

  // ---------------------------------------------------------------- what the optimizer relies on

  /** Position of the first entry that is not a LOOP (GET_FIRST_NON_LOOP). */
  function FirstNonLoop(s: seq<Entry>): nat {
    if s != [] && s[0].Loop? then 1 + FirstNonLoop(s[1..]) else 0
  }

  /** A multi-count data entry is unit stride; a CONTIGUOUS loop runs at least once and its END_LOOP
      records where its first data entry is. */
  ghost predicate TameHead(s: seq<Entry>)
    requires s != []
    decreases |s|, 0
  {
    match s[0]
    case Elem(typ, _, count, _, extent) => typ.size > 0 && (count > 1 ==> extent == typ.size)
    case Loop(contig, loops, items, _) =>
      && 1 <= items < |s| && s[items].EndLoop? && Tame(s[1..items])
      && (contig ==>
          loops >= 1 && FirstNonLoop(s) < items && s[FirstNonLoop(s)].Elem? &&
           s[FirstNonLoop(s)].disp == s[items].first)
    case EndLoop(_, _, _) => false
  }

  ghost predicate Tame(s: seq<Entry>)
    decreases |s|, 1
  {
    s == [] || (TameHead(s) && HeadLen(s) <= |s| && Tame(s[HeadLen(s)..]))
  }

  lemma {:induction false} TameNested(s: seq<Entry>)
    requires Tame(s)
    ensures Nested(s)
    decreases |s|
  {
    if s != [] {
      if s[0].Loop? { TameNested(s[1..s[0].items]); }
      TameNested(s[HeadLen(s)..]);
    }
  }

  lemma {:induction false} FirstNonLoopPrefix(s: seq<Entry>, k: nat)
    requires k <= |s| && (FirstNonLoop(s) < k || FirstNonLoop(s[..k]) < k)
    ensures FirstNonLoop(s[..k]) == FirstNonLoop(s)
    decreases |s|
  {
    if s[0].Loop? {
      assert s[..k][1..] == s[1..][..k - 1];
      FirstNonLoopPrefix(s[1..], k - 1);
    }
  }

  lemma InstanceSize(s: seq<Entry>, disp: int, how: Reading)
    ensures |Flatten(Units(s, disp, how))| == |Bytes(s, how)|
  {
    BytesAt(s, disp, how);
  }

  lemma {:induction false} RepeatSize(s: seq<Entry>, n: nat, extent: int, base: int, how: Reading)
    ensures |Flatten(Repeat(s, n, extent, base, how))| == n * |Bytes(s, how)|
    decreases n
  {
    hide Units, Bytes;
    if n > 0 {
      RepeatSize(s, n - 1, extent, base + extent, how);
      InstanceSize(s, base, how);
      FlattenAppend(Units(s, base, how), Repeat(s, n - 1, extent, base + extent, how));
      assert n * |Bytes(s, how)| == |Bytes(s, how)| + (n - 1) * |Bytes(s, how)|;
    }
  }
}
