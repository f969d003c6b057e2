/**
 From datatype to bytes: what committing a built datatype and then copying or packing with its optimized
 description does, in terms of the type map of the datatype itself.
 */
module Transfer {
  import opened Description
  import opened Soundness
  import opened Engine
  import opened Pack
  import C = Commit
  import opened Convertors
  import Build
  import Copy
  import Optimize

  /** The displacements of count instances of a datatype. */
  ghost function Map(t: Build.Type, count: nat): seq<int> {
    Flatten(Repeat(t.desc, count, t.ub - t.lb, 0, ByBody))
  }

  /** Repetition depends on a description only through its bytes. */
  lemma {:induction false} SameRepeated(s: seq<Entry>, a: Reading, t: seq<Entry>, b: Reading, n: nat, extent: int,
          base: int)
    requires Bytes(s, a) == Bytes(t, b)
    ensures Flatten(Repeat(s, n, extent, base, a)) == Flatten(Repeat(t, n, extent, base, b))
    decreases n
  {
    hide Bytes, Units;
    if n > 0 {
      BytesAt(s, base, a);
      BytesAt(t, base, b);
      SameRepeated(s, a, t, b, n - 1, extent, base + extent);
      FlattenAppend(Units(s, base, a), Repeat(s, n - 1, extent, base + extent, a));
      FlattenAppend(Units(t, base, b), Repeat(t, n - 1, extent, base + extent, b));
    }
  }

  /** Entering the loops of the optimized description gives the type map exactly if nothing was merged. */
  lemma SameMap(t: Build.Type, opt: Desc, count: nat)
    requires C.Optimized(t, opt) && t.size == |Bytes(t.desc, ByBody)| && count > 0
    ensures Flatten(Repeat(opt.d[..opt.used], count, opt.extent, 0, ByBody)) == Map(t, count)
         <==> !Optimize.Merges(t.desc, Optimize.Apart)
  {
    hide Flatten, Repeat, Bytes, Optimize.Merges, Sound, Units;
    var s := opt.d[..opt.used];
    if Optimize.Merges(t.desc, Optimize.Apart) {
      RepeatFirst(s, count, opt.extent, 0, ByBody);
      RepeatFirst(t.desc, count, opt.extent, 0, ByBody);
      BytesOf(s);
      BytesOf(t.desc);
      if Flatten(Repeat(s, count, opt.extent, 0, ByBody)) == Map(t, count) {
        SplitEqual(Bytes(s, ByBody), Flatten(Repeat(s, count - 1, opt.extent, 0 + opt.extent, ByBody)),
                   Bytes(t.desc, ByBody), Flatten(Repeat(t.desc, count - 1, opt.extent, 0 + opt.extent, ByBody)));
      }
    } else {
      SameRepeated(s, ByBody, t.desc, ByBody, count, opt.extent, 0);
    }
  }

  lemma BytesOf(s: seq<Entry>)
    ensures Flatten(Units(s, 0, ByBody)) == Bytes(s, ByBody)
  {
  }

  /** Copying any built datatype by way of its optimized description writes exactly its type map. */
  method CopyType(t: Build.Type, mem: Memory, count: nat, chunk: nat, dest: array<Byte>, base: int)
    requires Build.Proper(t) && t.desc != [] && count > 0 && chunk > 0 && Copy.Inside(Map(t, count), base, dest.Length)
    modifies dest
    ensures dest[..] == Copy.Copied(old(dest[..]), base, mem, Map(t, count))
  {
    hide Flatten, Repeat, Bytes, Copy.Inside, Copy.Copied, Optimize.Merges, Sound, Build.Built, Build.Bounded;
    hide Build.Compact;
    var d, opt := C.Commit(t);
    SameRepeated(opt.d[..opt.used], ByBlock, t.desc, ByBody, count, opt.extent, 0);
    Copy.CopyContent(opt, mem, count, t.contiguous, t.trueLb, t.size, chunk, dest, base);
  }

  // ---------------------------------------------------------------- packing

  /** The displacements that pack calls with iovecs of the given lengths read, from the start of count instances. */
  ghost function Sending(opt: Desc, count: nat, calls: seq<seq<nat>>): seq<int> {
    Sent(opt, Goto(opt, [Frame(-1, count, 0)], 0), Concat(calls)).at
  }

  ghost function StreamOf(opt: Desc, count: nat): seq<MemUnit> {
    Repeat(opt.d[..if opt.used <= |opt.d| then opt.used else 0], count, opt.extent, 0, ByBody)
  }

  /** Without a merged loop every list of calls reads the type map in order. */
  lemma SendingRight(t: Build.Type, opt: Desc, count: nat, calls: seq<seq<nat>>)
    requires Build.Proper(t) && t.desc != [] && C.Optimized(t, opt) && count > 0
    requires !Optimize.Merges(t.desc, Optimize.Apart)
    ensures Sending(opt, count, calls) <= Map(t, count)
  {
    hide Flatten, Repeat, Bytes, Optimize.Merges, Sound, Build.Built, Build.Bounded, Build.Compact, On, Sent, Goto;
    hide Live, Concat;
    SameMap(t, opt, count);
    NotEmpty(t);
    var S, c := StreamOf(opt, count), Goto(opt, [Frame(-1, count, 0)], 0);
    StartOn(opt, count);
    HasElements(opt, count);
    var d := SentOn(opt, c, S, 0, Concat(calls));
    SplitAt(S, 0, d, |S|);
    assert S[0..|S|] == S;
  }

  lemma NotEmpty(t: Build.Type)
    requires Build.Proper(t) && t.desc != []
    ensures t.size > 0
  {
    assert t.trueLb in Bytes(t.desc, ByBody);
  }

  lemma HasElements(opt: Desc, count: nat)
    requires Committed(opt) && count > 0 && |Bytes(opt.d[..opt.used], ByBody)| > 0
    ensures StreamOf(opt, count) != []
    ensures forall i :: 0 <= i < |StreamOf(opt, count)| ==> StreamOf(opt, count)[i].size > 0
  {
    hide Repeat, Bytes, Sound;
    StreamPositive(opt, count);
    EmptyStream(opt, count);
  }

  /** With a merged loop some list of calls reads a wrong place: no space first, then one element at a time, so
      that every loop is entered. */
  lemma SendingWrong(t: Build.Type, opt: Desc, count: nat) returns (calls: seq<seq<nat>>)
    requires Build.Proper(t) && t.desc != [] && C.Optimized(t, opt) && count > 0
    requires Optimize.Merges(t.desc, Optimize.Apart)
    ensures |Sending(opt, count, calls)| == |Map(t, count)| && Sending(opt, count, calls) != Map(t, count)
  {
    hide Flatten, Repeat, Bytes, Optimize.Merges, Sound, Build.Built, Build.Bounded, Build.Compact, On, Sent, Goto;
    hide Live;
    SameMap(t, opt, count);
    NotEmpty(t);
    var S, c := StreamOf(opt, count), Goto(opt, [Frame(-1, count, 0)], 0);
    StartOn(opt, count);
    HasElements(opt, count);
    SentEntering(opt, c, S);
    calls := [[0] + Sizes(S)];
    assert calls[1..] == [] && Concat(calls) == [0] + Sizes(S) + [];
    assert [0] + Sizes(S) + [] == [0] + Sizes(S);
    RepeatSize(opt.d[..opt.used], count, opt.extent, 0, ByBody);
    RepeatSize(t.desc, count, t.ub - t.lb, 0, ByBody);
  }

  /** Packing with the optimized description reads the type map in order, for every list of calls, exactly if the
      datatype has no loop that merges. */
  lemma PackExact(t: Build.Type, opt: Desc, count: nat)
    requires Build.Proper(t) && t.desc != [] && C.Optimized(t, opt) && count > 0
    ensures (forall calls: seq<seq<nat>> :: Sending(opt, count, calls) <= Map(t, count))
         <==> !Optimize.Merges(t.desc, Optimize.Apart)
  {
    hide Map, Sending, Optimize.Merges, Build.Proper, C.Optimized;
    if Optimize.Merges(t.desc, Optimize.Apart) {
      var calls := SendingWrong(t, opt, count);
      assert !(Sending(opt, count, calls) <= Map(t, count));
    } else {
      forall calls: seq<seq<nat>> ensures Sending(opt, count, calls) <= Map(t, count) {
        SendingRight(t, opt, count, calls);
      }
    }
  }

  // ---------------------------------------------------------------- one buffer that holds everything

  /** A step with space for all that is left, read by blocks: it packs what comes next. */
  ghost predicate Roomy(D: Desc, c: Cursor, space: nat, s: Step, vs: seq<MemUnit>) {
    && s.at == Flatten(vs) && |vs| > 0 && |s.at| <= space
    && if s.out.Ends? then Todo(D, c, ByBlock) == vs else s.out.Goes? && Moves(D, c, vs, s.c, ByBlock)
  }

  lemma FitAll(cnt: nat, size: nat, space: nat)
    requires cnt * size <= space
    ensures Fit(cnt, size, space) == cnt
  {
  }

  lemma RoomyElem(D: Desc, c: Cursor, space: nat)
    requires Valid(D, c, ByBlock) && Bracketed(D, c) && D.d[c.pos].Elem? && |Flatten(Todo(D, c, ByBlock))| <= space
    ensures Roomy(D, c, space, OneStep(D, c, space), Current(D, c.pos, c.cnt, c.disp, ByBlock))
  {
    hide Valid, Todo, Flatten, Copies, Moves, Goto, Fit;
    var e := D.d[c.pos];
    var vs := Copies(c.cnt, c.disp + e.disp, e.extent, e.typ.size);
    PastMoves(D, c, ByBlock);
    LeftBytes(D, c, vs + [MARK], Goto(D, c.fs, c.pos + 1));
    MarkBytes(vs);
    CopiesSize(c.cnt, c.disp + e.disp, e.extent, e.typ.size);
    FitAll(c.cnt, e.typ.size, space);
  }

  lemma LeftBytes(D: Desc, c: Cursor, vs: seq<MemUnit>, c': Cursor)
    requires Moves(D, c, vs, c', ByBlock)
    ensures Flatten(Todo(D, c, ByBlock)) == Flatten(vs) + Flatten(Todo(D, c', ByBlock))
  {
    hide Valid, Todo, Rest, Flatten, Fresh;
    FlattenAppend(vs, Todo(D, c', ByBlock));
  }

  lemma RoomyBlocks(D: Desc, c: Cursor, space: nat) returns (vs: seq<MemUnit>)
    requires Valid(D, c, ByBlock) && Bracketed(D, c) && D.d[c.pos].Loop? && D.d[c.pos].contig
    requires |Flatten(Todo(D, c, ByBlock))| <= space
    ensures Roomy(D, c, space, OneStep(D, c, space), vs)
  {
    hide Todo, Flatten, Copies, Moves, Goto, Fit, Current, Valid;
    var loop, end := D.d[c.pos], D.d[c.pos + D.d[c.pos].items];
    var us := Copies(c.cnt, c.disp + end.first, loop.extent, end.size);
    vs := us + [MARK];
    BlockAt(D, c);
    PastMoves(D, c, ByBlock);
    LeftBytes(D, c, vs, Goto(D, c.fs, c.pos + loop.items + 1));
    MarkBytes(us);
    CopiesSize(c.cnt, c.disp + end.first, loop.extent, end.size);
    FitAll(c.cnt, end.size, space);
  }

  lemma RoomyPlain(D: Desc, c: Cursor, space: nat) returns (vs: seq<MemUnit>)
    requires Valid(D, c, ByBlock) && Bracketed(D, c) && D.d[c.pos].Loop? && !D.d[c.pos].contig
    ensures Roomy(D, c, space, OneStep(D, c, space), vs)
  {
    hide Todo, Flatten, Copies, Moves, Goto, Fit, Current, Turns, Valid;
    var loop, f := D.d[c.pos], Frame(c.pos, c.cnt, c.disp);
    RunsOnce(D, c);
    assert Stride(D, c.pos) == loop.extent && 0 * loop.extent == 0;
    PushMoves(D, c, 0, f, ByBlock);
    vs := [MARK] + Turns(Body(D, c.pos), 0, Stride(D, c.pos), c.disp, ByBlock);
    MarkBytes(Turns(Body(D, c.pos), 0, Stride(D, c.pos), c.disp, ByBlock));
    Copy.NoTurnsAtAll(Body(D, c.pos), Stride(D, c.pos), c.disp);
    NoBytes(c.disp + D.d[c.pos + loop.items].first, loop.extent, D.d[c.pos + loop.items].size);
  }

  lemma RunsOnce(D: Desc, c: Cursor)
    requires Valid(D, c, ByBlock) && c.pos < |D.d| && D.d[c.pos].Loop?
    ensures c.cnt >= 1
  {
  }

  lemma RoomyStep(D: Desc, c: Cursor, space: nat) returns (vs: seq<MemUnit>)
    requires Valid(D, c, ByBlock) && Bracketed(D, c) && |Flatten(Todo(D, c, ByBlock))| <= space
    ensures Roomy(D, c, space, OneStep(D, c, space), vs)
  {
    hide Valid, Todo, Flatten, Moves, DataStep, LoopStep, Current;
    match D.d[c.pos]
    case Elem(_, _, _, _, _) =>
      RoomyElem(D, c, space);
      vs := Current(D, c.pos, c.cnt, c.disp, ByBlock);
    case Loop(contig, _, _, _) => if contig { vs := RoomyBlocks(D, c, space); } else { vs := RoomyPlain(D, c, space); }
    case EndLoop(_, _, _) =>
      vs := [MARK];
      NoTokens();
      TopAbove(D, c, ByBlock);
      if Last(c) { LastInstance(D, c, ByBlock); } else { EndMoves(D, c, ByBlock); }
  }

  /** With space for everything, no loop is entered that could be misread. */
  lemma {:induction false} PacksWhole(D: Desc, c: Cursor, space: nat)
    requires Valid(D, c, ByBlock) && InInstance(D, c, ByBlock) && Live(D, c) && |Flatten(Todo(D, c, ByBlock))| <= space
    ensures Packs(D, c, space).finished && Packs(D, c, space).at == Flatten(Todo(D, c, ByBlock))
    decreases |Todo(D, c, ByBody)|
  {
    hide Valid, InInstance, Live, Todo, Flatten, Packs, OneStep, Moves;
    PacksOnce(D, c, space);
    var s := OneStep(D, c, space);
    var vs := RoomyStep(D, c, space);
    if s.out.Goes? {
      RanStart(D, c, ByBlock);
      RanStep(D, c, [], c, vs, s.c, ByBlock);
      LeftBytes(D, c, vs, s.c);
      PacksWhole(D, s.c, space - |s.at|);
    }
  }

  /** One buffer that holds everything is packed right even if loops were merged: only a block that does not fit is
      misread. */
  lemma SendingWhole(t: Build.Type, opt: Desc, count: nat, n: nat)
    requires Build.Proper(t) && t.desc != [] && C.Optimized(t, opt) && count > 0 && n >= |Map(t, count)|
    ensures Sending(opt, count, [[n]]) == Map(t, count)
  {
    hide Flatten, Repeat, Bytes, Optimize.Merges, Sound, Build.Built, Build.Bounded, Build.Compact, On, Sent, Goto;
    hide Live, Packs, Todo, Valid, InInstance;
    var c := Goto(opt, [Frame(-1, count, 0)], 0);
    Copy.StartCopy(opt, count, c);
    SameRepeated(opt.d[..opt.used], ByBlock, t.desc, ByBody, count, opt.extent, 0);
    StartOn(opt, count);
    OnLive(opt, c, Repeat(opt.d[..opt.used], count, opt.extent, 0, ByBody), 0);
    PacksWhole(opt, c, n);
    assert [[n]][1..] == [] && Concat([[n]]) == [n] + [] == [n];
    SentNext(opt, c, [n], []);
  }

  /** A wrong place shows in the bytes packed, for some contents of the buffer. */
  lemma PackWrong(t: Build.Type, opt: Desc, count: nat) returns (calls: seq<seq<nat>>, mem: Memory)
    requires Build.Proper(t) && t.desc != [] && C.Optimized(t, opt) && count > 0
    requires Optimize.Merges(t.desc, Optimize.Apart)
    ensures Read(mem, Sending(opt, count, calls)) != Read(mem, Map(t, count))
  {
    hide Map, Sending, Optimize.Merges, Build.Proper, C.Optimized;
    calls := SendingWrong(t, opt, count);
    var a, b := Sending(opt, count, calls), Map(t, count);
    var i :| 0 <= i < |a| && a[i] != b[i];
    mem := x => if x == b[i] then 1 else 0;
    assert Read(mem, a)[i] == 0 && Read(mem, b)[i] == 1;
  }

  /** Packing a built datatype by way of its optimized description, in any number of calls with buffers of any
      lengths: how much is packed is as the type map says, and so is what is packed unless a loop was merged. */
  method PackType(t: Build.Type, mem: Memory, count: nat, calls: seq<seq<nat>>)
    returns (out: seq<Byte>, completed: bool, ghost opt: Desc)
    requires Build.Proper(t) && t.desc != []
    ensures C.Optimized(t, opt) && opt == C.OptimizedForm(t)
    ensures out == Read(mem, if count == 0 then [] else Sending(opt, count, calls))
    ensures |out| <= |Map(t, count)| && (completed <==> |out| == |Map(t, count)|)
    ensures !Optimize.Merges(t.desc, Optimize.Apart) ==> out <= Read(mem, Map(t, count))
  {
    hide Flatten, Repeat, Bytes, Optimize.Merges, Sound, Build.Built, Build.Bounded, Build.Compact, On, Sent, Goto;
    hide Live, Honest, Concat, C.OptimizedForm;
    var d, o := C.Commit(t);
    opt := o;
    NotEmpty(t);
    var conv := new Convertor(o, count, t.size, mem);
    if count > 0 {
      if !Optimize.Merges(t.desc, Optimize.Apart) { SendingRight(t, o, count, calls); }
    }
    out := PackCalls(conv, calls);
    completed := conv.completed;
    ConvertedAll(conv);
    RepeatSize(o.d[..o.used], count, o.extent, 0, ByBody);
    RepeatSize(t.desc, count, t.ub - t.lb, 0, ByBody);
  }
}
