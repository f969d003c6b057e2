/**
 The 128-bit compare-and-set FIFO (opal_fifo.h), one atomic memory access per step.

 Any number of threads interleave push and pop. A step is a function of the shared words and the
 acting thread's program counter, so a run is a schedule plus the callers' invocations.
 */
module Fifo {
  import opened ContainerSpec

  /** A counted pointer: the update counter and the item word, compared and swapped together. */
  datatype Counted = Counted(cnt: nat, item: Ptr)

  datatype Pc =
    | Idle
    | PushStart(item: Ptr)
    | PushRead(item: Ptr)
    | PushCas(item: Ptr, tail: Counted)
    | PushLink(item: Ptr, prev: Ptr)
    | PushDone(prev: Ptr)
    | PopHead
    | PopTail(head: Counted)
    | PopNext(head: Counted, tail: Counted)
    | PopTry(head: Counted, tail: Counted, next: Ptr)
    | PopFixTail(item: Ptr, tail: Counted)
    | PopWait(item: Ptr)
    | PopReread(item: Ptr)
    | PopFixHead(item: Ptr, next: Ptr)
    | PopClear(item: Ptr)
    | PopDone(result: Ptr)

  /** head, tail, next: shared memory; free: the items callers own and may push. */
  datatype Config = Config(head: Counted, tail: Counted, next: map<Ptr, Ptr>, pcs: map<Tid, Pc>, free: set<Ptr>)

  function NextOf(c: Config, p: Ptr): Ptr { if p in c.next then c.next[p] else Null }

  function Goto(c: Config, t: Tid, pc: Pc): Config { c.(pcs := c.pcs[t := pc]) }

  function Store(c: Config, p: Ptr, q: Ptr): Config { c.(next := c.next[p := q]) }

  predicate Running(c: Config, t: Tid) {
    t in c.pcs && !c.pcs[t].Idle? && !c.pcs[t].PushDone? && !c.pcs[t].PopDone?
  }

  /** One atomic access by thread t, inside an operation. */
  function Step(c: Config, t: Tid): Config
    requires Running(c, t)
  {
    match c.pcs[t]
    case PushStart(x) => Goto(Store(c, x, Ghost), t, PushRead(x))
    case PushRead(x) => Goto(c, t, PushCas(x, c.tail))
    case PushCas(x, tl) =>
      if c.tail == tl then Goto(c.(tail := Counted(tl.cnt + 1, x)), t, PushLink(x, tl.item))
      else Goto(c, t, PushRead(x))
    case PushLink(x, prev) =>
      if prev == Ghost then Goto(c.(head := c.head.(item := x)), t, PushDone(prev))
      else Goto(Store(c, prev, x), t, PushDone(prev))
    case PopHead => Goto(c, t, PopTail(c.head))
    case PopTail(hd) => Goto(c, t, PopNext(hd, c.tail))
    case PopNext(hd, tl) => Goto(c, t, PopTry(hd, tl, NextOf(c, hd.item)))
    case PopTry(hd, tl, nx) =>
      if tl.item == Ghost && hd.item == Ghost then Goto(c, t, PopDone(Null))
      else if tl.item != hd.item && tl.item != Ghost && nx == Ghost then Goto(c, t, PopHead)
      else if c.head != hd then Goto(c, t, PopHead)
      else
        var c' := c.(head := Counted(hd.cnt + 1, nx));
        if nx == Ghost then Goto(c', t, PopFixTail(hd.item, tl)) else Goto(c', t, PopClear(hd.item))
    case PopFixTail(x, tl) =>
      if c.tail == tl then Goto(c.(tail := Counted(tl.cnt + 1, Ghost)), t, PopClear(x))
      else Goto(c, t, PopWait(x))
    case PopWait(x) => if NextOf(c, x) == Ghost then c else Goto(c, t, PopReread(x))
    case PopReread(x) => Goto(c, t, PopFixHead(x, NextOf(c, x)))
    case PopFixHead(x, nx) => Goto(c.(head := c.head.(item := nx)), t, PopClear(x))
    case PopClear(x) => Goto(Store(c, x, Null), t, PopDone(x))
  }

  ghost predicate Moves(c: Config, d: Config, e: Event) {
    match e
    case InvokePush(t, x) =>
      t in c.pcs && c.pcs[t].Idle? && x in c.free && d == Goto(c, t, PushStart(x)).(free := c.free - {x})
    case InvokePop(t) => t in c.pcs && c.pcs[t].Idle? && d == Goto(c, t, PopHead)
    case ReturnPush(t, r) => t in c.pcs && c.pcs[t] == PushDone(r) && d == Goto(c, t, Idle)
    case ReturnPop(t, r) =>
      t in c.pcs && c.pcs[t] == PopDone(r) &&
      d == Goto(c, t, Idle).(free := if r.Node? then c.free + {r} else c.free)
    case Internal => exists t :: Running(c, t) && d == Step(c, t)
  }

  /** opal_fifo_construct: both ends at the sentinel, which points to itself. */
  ghost predicate Start(c: Config) {
    && c.head == Counted(0, Ghost) && c.tail == Counted(0, Ghost)
    && NextOf(c, Ghost) == Ghost
    && (forall t :: t in c.pcs ==> c.pcs[t].Idle?)
    && (forall x :: x in c.free ==> x.Node?)
  }

  ghost predicate Run(run: seq<Config>, events: seq<Event>) {
    && |run| == |events| + 1
    && Start(run[0])
    && forall i :: 0 <= i < |events| ==> Moves(run[i], run[i + 1], events[i])
  }

  // ---------------------------------------------------------------- the invariant

  /** The thread that must repair the head: a pusher that found the sentinel at the tail, or a
      popper that swung the head to the sentinel and still needs the link of the item it removed. */
  datatype Fixer = NoOne | ByPusher(t: Tid) | ByPopper(t: Tid, item: Ptr)

  /** The abstract queue, together with who owes a head update. */
  datatype View = View(queue: seq<Ptr>, fixer: Fixer)

  predicate PopFixing(pc: Pc) { pc.PopFixTail? || pc.PopWait? || pc.PopReread? || pc.PopFixHead? }

  /** The item an operation is responsible for (Null if none): one it has not published, is linking, or has removed. */
  function Mine(pc: Pc): Ptr {
    match pc
    case PushStart(x) => x
    case PushRead(x) => x
    case PushCas(x, _) => x
    case PushLink(x, _) => x
    case PopFixTail(x, _) => x
    case PopWait(x) => x
    case PopReread(x) => x
    case PopFixHead(x, _) => x
    case PopClear(x) => x
    case PopDone(r) => r
    case _ => Null
  }

  /** The linked items: the queue, preceded by the item a fixing popper has already removed. */
  function Chain(v: View): seq<Ptr> {
    if v.fixer.ByPopper? then [v.fixer.item] + v.queue else v.queue
  }

  ghost predicate Shape(c: Config, v: View) {
    var ch := Chain(v);
    && (forall i :: 0 <= i < |ch| ==> ch[i].Node?)
    && (forall i, j :: 0 <= i < j < |ch| ==> ch[i] != ch[j])
    && c.tail.item == (if ch == [] then Ghost else ch[|ch| - 1])
    && c.head.item == (if v.fixer.NoOne? && v.queue != [] then v.queue[0] else Ghost)
    && NextOf(c, Ghost) == Ghost
    && (ch != [] ==> NextOf(c, ch[|ch| - 1]) == Ghost)
    && Linked(c, ch)
    && (v.fixer.ByPusher? ==> v.fixer.t in c.pcs && v.queue != [] && c.pcs[v.fixer.t] == PushLink(v.queue[0], Ghost))
    && (v.fixer.ByPopper? ==>
          v.fixer.t in c.pcs && PopFixing(c.pcs[v.fixer.t]) && c.pcs[v.fixer.t].item == v.fixer.item)
  }

  /** Consecutive items are linked, or their pusher is about to link them. */
  ghost predicate Linked(c: Config, ch: seq<Ptr>) {
    forall i :: 0 <= i < |ch| - 1 ==> NextOf(c, ch[i]) == ch[i + 1] || Unlinked(c, ch[i], ch[i + 1])
  }

  /** The link from prev to item is not there yet, and its pusher is about to write it. */
  ghost predicate Unlinked(c: Config, prev: Ptr, item: Ptr) {
    NextOf(c, prev) == Ghost && exists t :: t in c.pcs && c.pcs[t] == PushLink(item, prev)
  }

  ghost predicate Ownership(c: Config, v: View) {
    && (forall x :: x in c.free ==> x.Node? && x !in Chain(v))
    && (forall t :: t in c.pcs && Mine(c.pcs[t]) != Null ==>
          var x := Mine(c.pcs[t]);
          x.Node? && x !in c.free && (x in Chain(v) ==> c.pcs[t].PushLink? || v.fixer == ByPopper(t, x)))
    && (forall t, u :: t in c.pcs && u in c.pcs && t != u && Mine(c.pcs[t]) != Null ==>
              Mine(c.pcs[t]) != Mine(c.pcs[u]))
  }

  /** A head snapshot with a real item is current as long as the counter has not moved. */
  predicate HeadSnap(c: Config, hd: Counted) {
    hd.item != Null && hd.cnt <= c.head.cnt && (hd.cnt == c.head.cnt && hd.item != Ghost ==> c.head == hd)
  }

  predicate TailSnap(c: Config, tl: Counted) {
    tl.cnt <= c.tail.cnt && (tl.cnt == c.tail.cnt ==> c.tail == tl)
  }

  /** A tail read while the head was already the current one: not the sentinel, and still exact for a single item. */
  predicate TailSeen(c: Config, v: View, tl: Counted) {
    tl.item != Ghost && (|v.queue| == 1 ==> c.tail == tl)
  }

  ghost predicate Adjacent(ch: seq<Ptr>, p: Ptr, q: Ptr) {
    exists i :: 0 < i < |ch| && ch[i - 1] == p && ch[i] == q
  }

  /** What thread t may rely on at its program counter, whatever the others do. */
  ghost predicate Local(c: Config, v: View, t: Tid)
    requires t in c.pcs
  {
    match c.pcs[t]
    case PushStart(x) => x.Node?
    case PushRead(x) => x.Node? && NextOf(c, x) == Ghost
    case PushCas(x, tl) => x.Node? && NextOf(c, x) == Ghost && TailSnap(c, tl)
    case PushLink(x, prev) =>
      if prev == Ghost then v.fixer == ByPusher(t)
      else NextOf(c, prev) == Ghost && Adjacent(Chain(v), prev, x)
    case PopTail(hd) => HeadSnap(c, hd)
    case PopNext(hd, tl) =>
      HeadSnap(c, hd) && TailSnap(c, tl) && (c.head == hd && hd.item != Ghost ==> TailSeen(c, v, tl))
    case PopTry(hd, tl, nx) =>
      && HeadSnap(c, hd) && TailSnap(c, tl)
      && (c.head == hd && hd.item != Ghost ==> TailSeen(c, v, tl) && (nx == Ghost || nx == NextOf(c, hd.item)))
      && (hd.item == Ghost ==> nx == Ghost)
    case PopFixTail(x, tl) =>
      v.fixer == ByPopper(t, x) && tl.item == x && TailSnap(c, tl) && (v.queue == [] ==> c.tail == tl)
    case PopWait(x) => v.fixer == ByPopper(t, x) && v.queue != []
    case PopReread(x) => v.fixer == ByPopper(t, x) && v.queue != [] && NextOf(c, x) == v.queue[0]
    case PopFixHead(x, nx) => v.fixer == ByPopper(t, x) && v.queue != [] && NextOf(c, x) == nx == v.queue[0]
    case PopClear(x) => x.Node?
    case PopDone(r) => r == Null || (r.Node? && NextOf(c, r) == Null)
    case _ => true
  }

  ghost predicate Inv(c: Config, v: View) {
    Shape(c, v) && Ownership(c, v) && forall t :: t in c.pcs ==> Local(c, v, t)
  }

  // ---------------------------------------------------------------- refinement

  function OpOf(pc: Pc): Op {
    match pc
    case Idle => Quiet
    case PushStart(x) => Pushing(x)
    case PushRead(x) => Pushing(x)
    case PushCas(x, _) => Pushing(x)
    case PushLink(_, prev) => Pushed(prev)
    case PushDone(prev) => Pushed(prev)
    case PopHead => Popping
    case PopTail(_) => Popping
    case PopNext(hd, tl) => if tl.item == Ghost && hd.item == Ghost then Popped(Null) else Popping
    case PopTry(hd, tl, _) => if tl.item == Ghost && hd.item == Ghost then Popped(Null) else Popping
    case PopFixTail(x, _) => Popped(x)
    case PopWait(x) => Popped(x)
    case PopReread(x) => Popped(x)
    case PopFixHead(x, _) => Popped(x)
    case PopClear(x) => Popped(x)
    case PopDone(r) => Popped(r)
  }

  function Abs(c: Config, v: View): Object {
    Object(v.queue, map t | t in c.pcs :: OpOf(c.pcs[t]), c.free)
  }

  /** How the abstract queue and the head debt change when t steps. */
  function ViewStep(c: Config, v: View, t: Tid): View
    requires Running(c, t)
  {
    match c.pcs[t]
    case PushCas(x, tl) =>
      if c.tail != tl then v
      else View(v.queue + [x], if tl.item == Ghost then ByPusher(t) else v.fixer)
    case PushLink(x, prev) => if prev == Ghost then v.(fixer := NoOne) else v
    case PopTry(hd, tl, nx) =>
      if Step(c, t).pcs[t].PopFixTail? then View(if v.queue == [] then [] else v.queue[1..], ByPopper(t, hd.item))
      else if Step(c, t).pcs[t].PopClear? then View(if v.queue == [] then [] else v.queue[1..], v.fixer)
      else v
    case PopFixTail(x, tl) => if c.tail == tl then v.(fixer := NoOne) else v
    case PopFixHead(_, _) => v.(fixer := NoOne)
    case _ => v
  }


  /** A pending link stays pending as long as its pusher does not move and nobody writes the predecessor. */
  lemma StillUnlinked(c: Config, c': Config, prev: Ptr, item: Ptr, t: Tid)
    requires Unlinked(c, prev, item) && NextOf(c', prev) == Ghost
    requires t in c.pcs && c.pcs[t] != PushLink(item, prev)
    requires forall u :: u in c.pcs && u != t ==> u in c'.pcs && c'.pcs[u] == c.pcs[u]
    ensures Unlinked(c', prev, item)
  {
    var u :| u in c.pcs && c.pcs[u] == PushLink(item, prev);
    assert u in c'.pcs && c'.pcs[u] == PushLink(item, prev);
  }


  /** Every step leaves the counted words so that a snapshot cannot become current again. */
  predicate Forward(c: Config, c': Config) {
    && c.head.cnt <= c'.head.cnt && (c.head.cnt == c'.head.cnt && c.head.item != Ghost ==> c'.head == c.head)
    && c.tail.cnt <= c'.tail.cnt && (c.tail.cnt == c'.tail.cnt ==> c'.tail == c.tail)
  }

  /** What a step must leave alone for another thread's knowledge to survive. */
  ghost predicate Respects(c: Config, v: View, c': Config, v': View, pc: Pc) {
    && Forward(c, c')
    && NextOf(c', Ghost) == NextOf(c, Ghost)
    && (pc.PushRead? || pc.PushCas? || pc.PopReread? || pc.PopFixHead? ==> NextOf(c', pc.item) == NextOf(c, pc.item))
    && (pc.PopDone? && pc.result != Null ==> NextOf(c', pc.result) == NextOf(c, pc.result))
    && (pc.PushLink? && pc.prev == Ghost ==> v'.fixer == v.fixer)
    && (pc.PushLink? && pc.prev != Ghost ==>
          && NextOf(c', pc.prev) == NextOf(c, pc.prev)
          && (Adjacent(Chain(v), pc.prev, pc.item) ==> Adjacent(Chain(v'), pc.prev, pc.item)))
    && (PopFixing(pc) ==>
          && v'.fixer == v.fixer
          && (v.queue != [] ==> v'.queue != [] && v'.queue[0] == v.queue[0])
          && (v'.queue == [] ==> c'.tail == c.tail))
    && (c'.head == c.head && c.head.item != Ghost ==>
          && (|v'.queue| == 1 ==> |v.queue| == 1 && c'.tail == c.tail)
          && (NextOf(c, c.head.item) != Ghost ==> NextOf(c', c.head.item) == NextOf(c, c.head.item)))
  }

  lemma LocalKept(c: Config, v: View, c': Config, v': View, u: Tid)
    requires u in c.pcs && u in c'.pcs && c'.pcs[u] == c.pcs[u]
    requires Local(c, v, u) && Respects(c, v, c', v', c.pcs[u])
    ensures Local(c', v', u)
  {
  }

  lemma SilentShape(c: Config, v: View, t: Tid, pc: Pc)
    requires Shape(c, v) && t in c.pcs && Mine(pc) == Mine(c.pcs[t])
    requires !pc.PushLink? && !c.pcs[t].PushLink? && (PopFixing(c.pcs[t]) ==> PopFixing(pc))
    ensures Shape(Goto(c, t, pc), v)
  {
    LinksKept(c, Goto(c, t, pc), Chain(v), t);
  }

  lemma SilentOwnership(c: Config, v: View, t: Tid, pc: Pc)
    requires Ownership(c, v) && t in c.pcs && Mine(pc) == Mine(c.pcs[t])
    requires !pc.PushLink? && !c.pcs[t].PushLink?
    ensures Ownership(Goto(c, t, pc), v)
  {
  }

  /** A step that only moves t to pc keeps the invariant if t's own knowledge holds there. */
  lemma Silent(c: Config, v: View, t: Tid, pc: Pc)
    requires Inv(c, v) && t in c.pcs && Mine(pc) == Mine(c.pcs[t])
    requires !pc.PushLink? && !c.pcs[t].PushLink? && (PopFixing(c.pcs[t]) ==> PopFixing(pc))
    requires Local(Goto(c, t, pc), v, t)
    ensures Inv(Goto(c, t, pc), v)
  {
    SilentShape(c, v, t, pc);
    SilentOwnership(c, v, t, pc);
    forall u | u in c.pcs && u != t ensures Local(Goto(c, t, pc), v, u) {
      LocalKept(c, v, Goto(c, t, pc), v, u);
    }
  }

  /** What the lemmas below use of the invariant, for one thread. */
  ghost predicate Knows(c: Config, v: View, t: Tid) {
    Shape(c, v) && t in c.pcs && Local(c, v, t)
  }

  /** An item that is neither being linked nor being repaired around is outside the chain. */
  lemma MineFree(c: Config, v: View, t: Tid)
    requires Ownership(c, v) && t in c.pcs && Mine(c.pcs[t]) != Null
    requires !c.pcs[t].PushLink? && v.fixer != ByPopper(t, Mine(c.pcs[t]))
    ensures Mine(c.pcs[t]) !in Chain(v)
  {
  }

  /** Links survive a step of t that neither rewrites them nor was about to write one. */
  lemma LinksKept(c: Config, c': Config, ch: seq<Ptr>, t: Tid)
    requires t in c.pcs && forall u :: u in c.pcs && u != t ==> u in c'.pcs && c'.pcs[u] == c.pcs[u]
    requires Linked(c, ch)
    requires forall i :: 0 <= i < |ch| - 1 ==>
               NextOf(c', ch[i]) == ch[i + 1] ||
               (NextOf(c', ch[i]) == NextOf(c, ch[i]) && c.pcs[t] != PushLink(ch[i + 1], ch[i]))
    ensures Linked(c', ch)
  {
    forall i | 0 <= i < |ch| - 1 ensures NextOf(c', ch[i]) == ch[i + 1] || Unlinked(c', ch[i], ch[i + 1]) {
      if NextOf(c', ch[i]) != ch[i + 1] {
        StillUnlinked(c, c', ch[i], ch[i + 1], t);
      }
    }
  }

  lemma LinkedSnoc(c: Config, ch: seq<Ptr>, x: Ptr)
    requires Linked(c, ch) && (ch != [] ==> Unlinked(c, ch[|ch| - 1], x))
    ensures Linked(c, ch + [x])
  {
    var ch' := ch + [x];
    forall i | 0 <= i < |ch'| - 1 ensures NextOf(c, ch'[i]) == ch'[i + 1] || Unlinked(c, ch'[i], ch'[i + 1]) {
    }
  }

  /** Writing the next word of an item outside the chain disturbs nobody else. */
  lemma PrivateStore(c: Config, v: View, t: Tid, pc: Pc, q: Ptr)
    requires Inv(c, v) && t in c.pcs && Mine(pc) == Mine(c.pcs[t]) && Mine(pc).Node? && Mine(pc) !in Chain(v)
    requires !pc.PushLink? && !c.pcs[t].PushLink? && !PopFixing(c.pcs[t])
    requires Local(Goto(Store(c, Mine(pc), q), t, pc), v, t)
    ensures Inv(Goto(Store(c, Mine(pc), q), t, pc), v)
  {
    var c' := Goto(Store(c, Mine(pc), q), t, pc);
    LinksKept(c, c', Chain(v), t);
    assert Shape(c', v);
    assert Ownership(c', v) by { SilentOwnership(c, v, t, pc); }
    forall u | u in c.pcs && u != t ensures Local(c', v, u) {
      PrivateStoreOther(c, v, t, pc, q, u);
    }
  }

  lemma PrivateStoreOther(c: Config, v: View, t: Tid, pc: Pc, q: Ptr, u: Tid)
    requires Inv(c, v) && t in c.pcs && Mine(pc) == Mine(c.pcs[t]) && Mine(pc).Node? && Mine(pc) !in Chain(v)
    requires u in c.pcs && u != t
    ensures Local(Goto(Store(c, Mine(pc), q), t, pc), v, u)
  {
    LocalKept(c, v, Goto(Store(c, Mine(pc), q), t, pc), v, u);
  }

  // The tail CAS of a push: the push takes effect.

  lemma PushCasShape(c: Config, v: View, t: Tid)
    requires Knows(c, v, t) && c.pcs[t].PushCas? && c.tail == c.pcs[t].tail && c.pcs[t].item !in Chain(v)
    ensures Shape(Step(c, t), ViewStep(c, v, t))
  {
    var c', v' := Step(c, t), ViewStep(c, v, t);
    var ch, x := Chain(v), Mine(c.pcs[t]);
    assert Chain(v') == ch + [x];
    LinksKept(c, c', ch, t);
    if ch != [] {
      assert c'.pcs[t] == PushLink(x, ch[|ch| - 1]);
      assert Unlinked(c', ch[|ch| - 1], x);
    }
    LinkedSnoc(c', ch, x);
  }

  lemma PushCasOwnership(c: Config, v: View, t: Tid)
    requires Knows(c, v, t) && Ownership(c, v) && c.pcs[t].PushCas? && c.tail == c.pcs[t].tail
    ensures Ownership(Step(c, t), ViewStep(c, v, t))
  {
    assert Chain(ViewStep(c, v, t)) == Chain(v) + [c.pcs[t].item];
  }

  lemma PushCasOther(c: Config, v: View, t: Tid, u: Tid)
    requires Knows(c, v, t) && c.pcs[t].PushCas? && c.tail == c.pcs[t].tail
    requires u != t && Knows(c, v, u)
    ensures Local(Step(c, t), ViewStep(c, v, t), u)
  {
    var c', v' := Step(c, t), ViewStep(c, v, t);
    assert Chain(v') == Chain(v) + [Mine(c.pcs[t])];
    if c.pcs[u].PushLink? && c.pcs[u].prev != Ghost {
      AdjacentSnoc(Chain(v), c.pcs[u].prev, c.pcs[u].item, Mine(c.pcs[t]));
    }
    LocalKept(c, v, c', v', u);
  }

  lemma PushCasSelf(c: Config, v: View, t: Tid)
    requires Knows(c, v, t) && c.pcs[t].PushCas? && c.tail == c.pcs[t].tail
    ensures Local(Step(c, t), ViewStep(c, v, t), t)
  {
    var ch := Chain(ViewStep(c, v, t));
    assert ch == Chain(v) + [c.pcs[t].item];
    if Chain(v) != [] {
      assert ch[|ch| - 2] == c.tail.item && ch[|ch| - 1] == c.pcs[t].item;
    }
  }

  lemma PushCasStep(c: Config, v: View, t: Tid)
    requires Inv(c, v) && Running(c, t) && c.pcs[t].PushCas? && c.tail == c.pcs[t].tail
    ensures Inv(Step(c, t), ViewStep(c, v, t))
  {
    MineFree(c, v, t);
    PushCasShape(c, v, t);
    PushCasOwnership(c, v, t);
    PushCasSelf(c, v, t);
    forall u | u in c.pcs && u != t ensures Local(Step(c, t), ViewStep(c, v, t), u) {
      PushCasOther(c, v, t, u);
    }
  }

  // Publishing the item: as the new head, or behind its predecessor.

  lemma PushHeadShape(c: Config, v: View, t: Tid)
    requires Shape(c, v) && Running(c, t) && Local(c, v, t) && c.pcs[t].PushLink? && c.pcs[t].prev == Ghost
    ensures Shape(Step(c, t), ViewStep(c, v, t))
  {
    assert forall i :: 0 <= i < |v.queue| - 1 ==> c.pcs[t] != PushLink(v.queue[i + 1], v.queue[i]);
    LinksKept(c, Step(c, t), v.queue, t);
  }

  lemma PushBehindLinks(c: Config, ch: seq<Ptr>, i: nat, t: Tid)
    requires forall j, k :: 0 <= j < k < |ch| ==> ch[j] != ch[k]
    requires Linked(c, ch) && 0 < i < |ch| && t in c.pcs && c.pcs[t] == PushLink(ch[i], ch[i - 1]) && ch[i - 1] != Ghost
    ensures Linked(Step(c, t), ch)
    ensures forall j :: 0 <= j < |ch| && j != i - 1 ==> NextOf(Step(c, t), ch[j]) == NextOf(c, ch[j])
  {
    LinksKept(c, Step(c, t), ch, t);
  }

  lemma PushBehindShape(c: Config, v: View, t: Tid)
    requires Shape(c, v) && Running(c, t) && Local(c, v, t) && c.pcs[t].PushLink? && c.pcs[t].prev != Ghost
    ensures Shape(Step(c, t), v)
  {
    var ch := Chain(v);
    var i :| 0 < i < |ch| && ch[i - 1] == c.pcs[t].prev && ch[i] == c.pcs[t].item;
    PushBehindLinks(c, ch, i, t);
  }

  lemma PushHeadOther(c: Config, v: View, t: Tid, u: Tid)
    requires Shape(c, v) && Running(c, t) && Local(c, v, t) && c.pcs[t].PushLink? && c.pcs[t].prev == Ghost
    requires u in c.pcs && u != t && Local(c, v, u)
    ensures Local(Step(c, t), ViewStep(c, v, t), u)
  {
    LocalKept(c, v, Step(c, t), ViewStep(c, v, t), u);
  }

  lemma PushBehindOther(c: Config, v: View, t: Tid, u: Tid)
    requires Shape(c, v) && Running(c, t) && Local(c, v, t) && c.pcs[t].PushLink? && c.pcs[t].prev != Ghost
    requires u in c.pcs && u != t && Local(c, v, u) && Mine(c.pcs[t]) != Mine(c.pcs[u])
    requires Mine(c.pcs[u]) in Chain(v) ==> c.pcs[u].PushLink? || v.fixer == ByPopper(u, Mine(c.pcs[u]))
    ensures Local(Step(c, t), v, u)
  {
    if c.pcs[u].PushLink? && c.pcs[u].prev != Ghost {
      AdjacentUnique(Chain(v), c.pcs[t].prev, c.pcs[t].item, c.pcs[u].prev, c.pcs[u].item);
    }
    AdjacentIn(Chain(v), c.pcs[t].prev, c.pcs[t].item);
    assert v.fixer.ByPopper? && v.queue != [] ==> Chain(v)[1] == v.queue[0];
    LocalKept(c, v, Step(c, t), v, u);
  }

  lemma AdjacentUnique(ch: seq<Ptr>, p: Ptr, q: Ptr, p': Ptr, q': Ptr)
    requires forall j, k :: 0 <= j < k < |ch| ==> ch[j] != ch[k]
    requires Adjacent(ch, p, q) && Adjacent(ch, p', q') && q != q'
    ensures p != p'
  {
  }

  lemma AdjacentIn(ch: seq<Ptr>, p: Ptr, q: Ptr)
    requires Adjacent(ch, p, q)
    ensures p in ch && q in ch
  {
  }

  lemma PushLinkOwnership(c: Config, v: View, t: Tid)
    requires Ownership(c, v) && Running(c, t) && Local(c, v, t) && c.pcs[t].PushLink?
    ensures Ownership(Step(c, t), ViewStep(c, v, t))
  {
  }

  lemma PushLinkSelf(c: Config, v: View, t: Tid)
    requires Shape(c, v) && Running(c, t) && Local(c, v, t) && c.pcs[t].PushLink?
    ensures Shape(Step(c, t), ViewStep(c, v, t))
    ensures Step(c, t).pcs.Keys == c.pcs.Keys && t in c.pcs && Local(Step(c, t), ViewStep(c, v, t), t)
  {
    hide Shape;
    if c.pcs[t].prev == Ghost { PushHeadShape(c, v, t); } else { PushBehindShape(c, v, t); }
  }

  lemma PushLinkOther(c: Config, v: View, t: Tid, u: Tid)
    requires Inv(c, v) && Running(c, t) && c.pcs[t].PushLink? && u in c.pcs && u != t
    ensures u in Step(c, t).pcs && Local(Step(c, t), ViewStep(c, v, t), u)
  {
    hide Shape, Local;
    ChainNodes(c, v);
    if c.pcs[t].prev == Ghost {
      PushHeadOther(c, v, t, u);
    } else {
      PushLinkNode(c, v, t);
      PushBehindOther(c, v, t, u);
    }
  }

  lemma ChainNodes(c: Config, v: View)
    requires Shape(c, v)
    ensures Null !in Chain(v)
  {
  }

  lemma PushLinkNode(c: Config, v: View, t: Tid)
    requires Shape(c, v) && t in c.pcs && Local(c, v, t) && c.pcs[t].PushLink? && c.pcs[t].prev != Ghost
    ensures c.pcs[t].item.Node?
  {
    AdjacentIn(Chain(v), c.pcs[t].prev, c.pcs[t].item);
  }

  lemma PushLinkStep(c: Config, v: View, t: Tid)
    requires Inv(c, v) && Running(c, t) && c.pcs[t].PushLink?
    ensures Inv(Step(c, t), ViewStep(c, v, t))
  {
    hide Shape, Ownership, Local, Step, ViewStep;
    PushLinkSelf(c, v, t);
    PushLinkOwnership(c, v, t);
    forall u | u in c.pcs && u != t ensures Local(Step(c, t), ViewStep(c, v, t), u) {
      PushLinkOther(c, v, t, u);
    }
  }

  // The head CAS of a pop: the pop takes effect.

  predicate Pops(c: Config, t: Tid) {
    Running(c, t) && c.pcs[t].PopTry? && (Step(c, t).pcs[t].PopFixTail? || Step(c, t).pcs[t].PopClear?)
  }

  lemma PopsFront(c: Config, v: View, t: Tid)
    requires Pops(c, t) && Knows(c, v, t)
    ensures v.fixer.NoOne? && v.queue != [] && c.head.item == c.pcs[t].head.item == v.queue[0]
    ensures c.pcs[t].next != Ghost ==> |v.queue| > 1 && c.pcs[t].next == v.queue[1]
    ensures c.pcs[t].next == Ghost ==> c.pcs[t].tail.item == v.queue[0]
    ensures ViewStep(c, v, t).queue == v.queue[1..] && v.queue == [v.queue[0]] + v.queue[1..]
  {
  }

  lemma LinkedRest(c: Config, ch: seq<Ptr>)
    requires ch != [] && Linked(c, ch)
    ensures Linked(c, ch[1..])
  {
    forall i | 0 <= i < |ch| - 2
      ensures NextOf(c, ch[1..][i]) == ch[1..][i + 1] || Unlinked(c, ch[1..][i], ch[1..][i + 1])
    {
      assert ch[1..][i] == ch[i + 1] && ch[1..][i + 1] == ch[i + 2];
    }
  }

  lemma PopEffect(c: Config, v: View, t: Tid)
    requires Pops(c, t) && v.queue != []
    ensures var hd, tl, nx := c.pcs[t].head, c.pcs[t].tail, c.pcs[t].next;
      && Step(c, t) == Goto(c.(head := Counted(hd.cnt + 1, nx)), t,
                            if nx == Ghost then PopFixTail(hd.item, tl) else PopClear(hd.item))
      && ViewStep(c, v, t) == View(v.queue[1..], if nx == Ghost then ByPopper(t, hd.item) else v.fixer)
  {
  }

  lemma PopTryLinks(c: Config, v: View, t: Tid)
    requires Pops(c, t) && v.fixer.NoOne? && Linked(c, Chain(v))
    ensures Linked(Step(c, t), v.queue)
  {
    LinksKept(c, Step(c, t), v.queue, t);
  }

  lemma PopTryShape(c: Config, v: View, t: Tid)
    requires Pops(c, t) && Knows(c, v, t)
    ensures Shape(Step(c, t), ViewStep(c, v, t))
  {
    hide Step, ViewStep, Local, Linked, Mine;
    var c', v' := Step(c, t), ViewStep(c, v, t);
    PopsFront(c, v, t);
    PopEffect(c, v, t);
    PopTryLinks(c, v, t);
    if c.pcs[t].next == Ghost {
      assert Chain(v') == v.queue;
    } else {
      LinkedRest(c', v.queue);
    }
  }

  lemma PopTryOwnership(c: Config, v: View, t: Tid)
    requires Pops(c, t) && Knows(c, v, t) && Ownership(c, v)
    requires forall u :: u in c.pcs && Mine(c.pcs[u]) != Null ==> Mine(c.pcs[u]) != c.head.item
    ensures Ownership(Step(c, t), ViewStep(c, v, t))
  {
    PopsFront(c, v, t);
    assert forall y :: y in Chain(ViewStep(c, v, t)) ==> y in v.queue;
    assert c.head.item in v.queue;
  }

  /** Nobody is responsible for the item at the head. */
  lemma FrontUnclaimed(c: Config, v: View, u: Tid)
    requires Knows(c, v, u) && Ownership(c, v) && v.fixer.NoOne? && v.queue != [] && Mine(c.pcs[u]) != Null
    ensures Mine(c.pcs[u]) != v.queue[0]
  {
  }

  lemma PopTryUnclaimed(c: Config, v: View, t: Tid)
    requires Inv(c, v) && Pops(c, t)
    ensures forall u :: u in c.pcs && Mine(c.pcs[u]) != Null ==> Mine(c.pcs[u]) != c.head.item
  {
    PopsFront(c, v, t);
    forall u | u in c.pcs && Mine(c.pcs[u]) != Null ensures Mine(c.pcs[u]) != c.head.item {
      FrontUnclaimed(c, v, u);
    }
  }

  lemma PopTryOther(c: Config, v: View, t: Tid, u: Tid)
    requires Pops(c, t) && Knows(c, v, t) && u != t && Knows(c, v, u)
    ensures Local(Step(c, t), ViewStep(c, v, t), u)
  {
    PopsFront(c, v, t);
    var v' := ViewStep(c, v, t);
    if c.pcs[u].PushLink? && c.pcs[u].prev != Ghost {
      if c.pcs[t].next == Ghost {
        assert Chain(v') == v.queue;
      } else {
        AdjacentRest(v.queue, c.pcs[u].prev, c.pcs[u].item);
        assert c.pcs[u].prev != v.queue[0];
      }
    }
    LocalKept(c, v, Step(c, t), v', u);
  }

  lemma AdjacentSnoc(ch: seq<Ptr>, p: Ptr, q: Ptr, x: Ptr)
    requires Adjacent(ch, p, q)
    ensures Adjacent(ch + [x], p, q)
  {
    var i :| 0 < i < |ch| && ch[i - 1] == p && ch[i] == q;
    assert (ch + [x])[i - 1] == p && (ch + [x])[i] == q;
  }

  lemma AdjacentRest(ch: seq<Ptr>, p: Ptr, q: Ptr)
    requires Adjacent(ch, p, q) && p != ch[0]
    ensures Adjacent(ch[1..], p, q)
  {
    var i :| 0 < i < |ch| && ch[i - 1] == p && ch[i] == q;
    assert ch[1..][i - 2] == p && ch[1..][i - 1] == q;
  }

  lemma PopTryStep(c: Config, v: View, t: Tid)
    requires Inv(c, v) && Pops(c, t)
    ensures Inv(Step(c, t), ViewStep(c, v, t))
  {
    hide Shape, Ownership, Local, Step, ViewStep, Mine;
    StepThreads(c, t);
    PopTryShape(c, v, t);
    PopTryUnclaimed(c, v, t);
    PopTryOwnership(c, v, t);
    forall u | u in c.pcs && u != t ensures Local(Step(c, t), ViewStep(c, v, t), u) {
      PopTryOther(c, v, t, u);
    }
    PopTrySelf(c, v, t);
  }

  lemma StepThreads(c: Config, t: Tid)
    requires Running(c, t)
    ensures Step(c, t).pcs.Keys == c.pcs.Keys
  {
  }

  lemma PopTrySelf(c: Config, v: View, t: Tid)
    requires Pops(c, t) && Knows(c, v, t)
    ensures Local(Step(c, t), ViewStep(c, v, t), t)
  {
    PopsFront(c, v, t);
  }

  /** The removed item still heads the chain, and its link is either missing or the queue's front. */
  lemma RemovedFirst(c: Config, v: View)
    requires Shape(c, v) && v.fixer.ByPopper?
    ensures v.fixer.item.Node? && v.fixer.item !in v.queue
    ensures Chain(v)[0] == v.fixer.item && Chain(v)[1..] == v.queue
    ensures v.queue != [] ==> NextOf(c, v.fixer.item) in {Ghost, v.queue[0]}
  {
    var ch := Chain(v);
    assert ch[0] == v.fixer.item && ch[1..] == v.queue;
    assert forall i :: 0 <= i < |v.queue| ==> v.queue[i] == ch[i + 1];
  }

  // The popper that emptied the queue settles the tail, or the head.

  lemma SettleTail(c: Config, v: View, t: Tid)
    requires Running(c, t) && Knows(c, v, t) && c.pcs[t].PopFixTail? && c.tail == c.pcs[t].tail
    ensures v.queue == [] && Shape(Step(c, t), ViewStep(c, v, t)) && Local(Step(c, t), ViewStep(c, v, t), t)
  {
    assert Chain(v)[0] == Chain(v)[|Chain(v)| - 1];
  }

  lemma SettleTailOther(c: Config, v: View, t: Tid, u: Tid)
    requires Running(c, t) && Knows(c, v, t) && c.pcs[t].PopFixTail? && c.tail == c.pcs[t].tail
    requires u != t && Knows(c, v, u)
    ensures Local(Step(c, t), ViewStep(c, v, t), u)
  {
    SettleTail(c, v, t);
    LocalKept(c, v, Step(c, t), ViewStep(c, v, t), u);
  }

  lemma SettleHead(c: Config, v: View, t: Tid)
    requires Running(c, t) && Knows(c, v, t) && c.pcs[t].PopFixHead?
    ensures Shape(Step(c, t), ViewStep(c, v, t)) && Local(Step(c, t), ViewStep(c, v, t), t)
  {
    RemovedFirst(c, v);
    LinksKept(c, Step(c, t), Chain(v), t);
    LinkedRest(Step(c, t), Chain(v));
  }

  lemma SettleHeadOther(c: Config, v: View, t: Tid, u: Tid)
    requires Running(c, t) && Knows(c, v, t) && c.pcs[t].PopFixHead? && u != t && Knows(c, v, u)
    ensures Local(Step(c, t), ViewStep(c, v, t), u)
  {
    RemovedFirst(c, v);
    if c.pcs[u].PushLink? && c.pcs[u].prev != Ghost {
      AdjacentRest(Chain(v), c.pcs[u].prev, c.pcs[u].item);
    }
    LocalKept(c, v, Step(c, t), ViewStep(c, v, t), u);
  }

  /** Releasing the removed item from the chain. */
  lemma SettleOwnership(c: Config, v: View, t: Tid)
    requires Running(c, t) && Knows(c, v, t) && Ownership(c, v)
    requires v.fixer == ByPopper(t, Mine(c.pcs[t])) && Step(c, t).pcs[t] == PopClear(Mine(c.pcs[t]))
    ensures Ownership(Step(c, t), v.(fixer := NoOne))
  {
    RemovedFirst(c, v);
  }

  lemma SettleStep(c: Config, v: View, t: Tid)
    requires Inv(c, v) && Running(c, t)
    requires c.pcs[t].PopFixHead? || (c.pcs[t].PopFixTail? && c.tail == c.pcs[t].tail)
    ensures Inv(Step(c, t), ViewStep(c, v, t))
  {
    assert Knows(c, v, t);
    SettleOwnership(c, v, t);
    if c.pcs[t].PopFixHead? { SettleHead(c, v, t); } else { SettleTail(c, v, t); }
    forall u | u in c.pcs && u != t ensures Local(Step(c, t), ViewStep(c, v, t), u) {
      if c.pcs[t].PopFixHead? { SettleHeadOther(c, v, t, u); } else { SettleTailOther(c, v, t, u); }
    }
  }

  lemma PushStepKeeps(c: Config, v: View, t: Tid)
    requires Inv(c, v) && Running(c, t) && OpOf(c.pcs[t]).Pushing?
    ensures Inv(Step(c, t), ViewStep(c, v, t))
  {
    assert Local(c, v, t);
    match c.pcs[t]
    case PushStart(x) => MineFree(c, v, t); PrivateStore(c, v, t, PushRead(x), Ghost);
    case PushRead(x) => Silent(c, v, t, PushCas(x, c.tail));
    case PushCas(x, tl) => if c.tail == tl { PushCasStep(c, v, t); } else { Silent(c, v, t, PushRead(x)); }
  }

  lemma SearchStepKeeps(c: Config, v: View, t: Tid)
    requires Inv(c, v) && Running(c, t) && (c.pcs[t].PopHead? || c.pcs[t].PopTail? || c.pcs[t].PopNext?)
    ensures Inv(Step(c, t), v)
  {
    assert Local(c, v, t);
    match c.pcs[t]
    case PopHead => Silent(c, v, t, PopTail(c.head));
    case PopTail(hd) => Silent(c, v, t, PopNext(hd, c.tail));
    case PopNext(hd, tl) => Silent(c, v, t, PopTry(hd, tl, NextOf(c, hd.item)));
  }

  lemma SettlingStepKeeps(c: Config, v: View, t: Tid)
    requires Inv(c, v) && Running(c, t) && (PopFixing(c.pcs[t]) || c.pcs[t].PopClear?)
    ensures Inv(Step(c, t), ViewStep(c, v, t))
  {
    assert Local(c, v, t);
    match c.pcs[t]
    case PopFixTail(x, tl) => if c.tail == tl { SettleStep(c, v, t); } else { Silent(c, v, t, PopWait(x)); }
    case PopWait(x) => WaitStepKeeps(c, v, t);
    case PopReread(x) => Silent(c, v, t, PopFixHead(x, NextOf(c, x)));
    case PopFixHead(x, nx) => SettleStep(c, v, t);
    case PopClear(x) => ClearStepKeeps(c, v, t);
  }

  lemma WaitStepKeeps(c: Config, v: View, t: Tid)
    requires Inv(c, v) && Running(c, t) && c.pcs[t].PopWait?
    ensures Inv(Step(c, t), v)
  {
    var x := c.pcs[t].item;
    assert Knows(c, v, t);
    RemovedFirst(c, v);
    if NextOf(c, x) != Ghost { Silent(c, v, t, PopReread(x)); }
  }

  lemma ClearStepKeeps(c: Config, v: View, t: Tid)
    requires Inv(c, v) && Running(c, t) && c.pcs[t].PopClear?
    ensures Inv(Step(c, t), v)
  {
    var x := c.pcs[t].item;
    assert Knows(c, v, t);
    MineFree(c, v, t);
    PrivateStore(c, v, t, PopDone(x), Null);
  }

  /** Every atomic step of every thread keeps the invariant. */
  lemma StepKeeps(c: Config, v: View, t: Tid)
    requires Inv(c, v) && Running(c, t)
    ensures Inv(Step(c, t), ViewStep(c, v, t))
  {
    if OpOf(c.pcs[t]).Pushing? {
      PushStepKeeps(c, v, t);
    } else if c.pcs[t].PushLink? {
      PushLinkStep(c, v, t);
    } else if c.pcs[t].PopHead? || c.pcs[t].PopTail? || c.pcs[t].PopNext? {
      SearchStepKeeps(c, v, t);
    } else if Pops(c, t) {
      PopTryStep(c, v, t);
    } else if c.pcs[t].PopTry? {
      Silent(c, v, t, Step(c, t).pcs[t]);
    } else {
      SettlingStepKeeps(c, v, t);
    }
  }

  // ---------------------------------------------------------------- linearizability

  lemma OpsAfter(c: Config, c': Config, v: View, v': View, t: Tid, pc: Pc)
    requires t in c.pcs && c'.pcs == c.pcs[t := pc]
    ensures Abs(c', v').ops == Abs(c, v).ops[t := OpOf(pc)]
  {
  }

  /** The three points at which an operation takes effect: a push at its tail CAS, a successful pop
      at its head CAS, an empty pop at the read that finds the sentinel at the tail. */
  predicate TakesEffect(c: Config, t: Tid) {
    && Running(c, t)
    && (|| (c.pcs[t].PushCas? && c.tail == c.pcs[t].tail)
        || Pops(c, t)
        || (c.pcs[t].PopTail? && c.tail.item == Ghost && c.pcs[t].head.item == Ghost))
  }

  lemma EffectCommits(c: Config, v: View, t: Tid)
    requires Knows(c, v, t) && TakesEffect(c, t)
    ensures Commit(Fifo, Abs(c, v), Abs(Step(c, t), ViewStep(c, v, t)), t)
  {
    var c', v' := Step(c, t), ViewStep(c, v, t);
    OpsAfter(c, c', v, v', t, c'.pcs[t]);
    if Pops(c, t) {
      PopsFront(c, v, t);
    } else if c.pcs[t].PopTail? {
      TailGhostMeansEmpty(c, v);
    } else {
      TailReports(c, v);
    }
  }

  /** What the tail tells a push: the last item, or the item of a pop that is not done with it. */
  lemma TailReports(c: Config, v: View)
    requires Shape(c, v)
    ensures Reports(Fifo, Abs(c, v), c.tail.item)
  {
    var a := Abs(c, v);
    if v.queue == [] && v.fixer.ByPopper? {
      assert Chain(v) == [v.fixer.item];
      assert v.fixer.t in a.ops && a.ops[v.fixer.t] == Popped(v.fixer.item);
    }
  }

  lemma OthersStutter(c: Config, v: View, t: Tid)
    requires Running(c, t) && !TakesEffect(c, t)
    ensures Abs(Step(c, t), ViewStep(c, v, t)) == Abs(c, v)
  {
    hide Step, ViewStep, OpOf, TakesEffect;
    StutterStep(c, v, t);
    OpsAfter(c, Step(c, t), v, ViewStep(c, v, t), t, Step(c, t).pcs[t]);
  }

  lemma StutterStep(c: Config, v: View, t: Tid)
    requires Running(c, t) && !TakesEffect(c, t)
    ensures var c' := Step(c, t);
      && t in c'.pcs && c'.pcs == c.pcs[t := c'.pcs[t]] && OpOf(c'.pcs[t]) == OpOf(c.pcs[t])
      && c'.free == c.free && ViewStep(c, v, t).queue == v.queue
  {
  }

  lemma TailGhostMeansEmpty(c: Config, v: View)
    requires Shape(c, v) && c.tail.item == Ghost
    ensures v.queue == [] && v.fixer.NoOne?
  {
    var ch := Chain(v);
    assert forall i :: 0 <= i < |ch| ==> ch[i] != Ghost;
  }

  // Invocations and returns touch only the caller's program counter and the callers' items.

  lemma CallOwnership(c: Config, d: Config, v: View, e: Event)
    requires Shape(c, v) && Ownership(c, v) && Moves(c, d, e) && !e.Internal?
    ensures Ownership(d, v)
  {
    assert e.ReturnPop? && e.result != Null ==> Mine(c.pcs[e.t]) == e.result;
  }

  lemma CallShape(c: Config, d: Config, v: View, e: Event)
    requires Shape(c, v) && Moves(c, d, e) && !e.Internal?
    ensures Shape(d, v)
  {
    LinksKept(c, d, Chain(v), e.t);
  }

  lemma CallOther(c: Config, d: Config, v: View, e: Event, u: Tid)
    requires Knows(c, v, u) && Moves(c, d, e) && !e.Internal? && u != e.t
    ensures Local(d, v, u)
  {
    LocalKept(c, v, d, v, u);
  }

  lemma CallKeeps(c: Config, d: Config, v: View, e: Event)
    requires Inv(c, v) && Moves(c, d, e) && !e.Internal?
    ensures Inv(d, v)
  {
    CallOwnership(c, d, v, e);
    CallShape(c, d, v, e);
    forall u | u in c.pcs && u != e.t ensures Local(d, v, u) {
      CallOther(c, d, v, e, u);
    }
  }

  lemma CallRefines(c: Config, d: Config, v: View, e: Event)
    requires Moves(c, d, e) && !e.Internal?
    ensures Next(Fifo, Abs(c, v), Abs(d, v), e)
  {
    OpsAfter(c, d, v, v, e.t, d.pcs[e.t]);
  }

  lemma MoveRefines(c: Config, d: Config, v: View, e: Event) returns (w: View)
    requires Inv(c, v) && Moves(c, d, e)
    ensures Inv(d, w) && Next(Fifo, Abs(c, v), Abs(d, w), e)
  {
    if e.Internal? {
      var t :| Running(c, t) && d == Step(c, t);
      w := ViewStep(c, v, t);
      StepKeeps(c, v, t);
      if TakesEffect(c, t) { EffectCommits(c, v, t); } else { OthersStutter(c, v, t); }
    } else {
      w := v;
      CallKeeps(c, d, v, e);
      CallRefines(c, d, v, e);
    }
  }

  lemma StartsWell(c: Config)
    requires Start(c)
    ensures Inv(c, View([], NoOne)) && Initial(Abs(c, View([], NoOne)))
  {
  }

  /** The views along a run, and the abstract run that they give. */
  ghost predicate Viewed(run: seq<Config>, objects: seq<Object>, views: seq<View>) {
    && |views| == |objects| == |run|
    && forall j :: 0 <= j < |run| ==> Inv(run[j], views[j]) && objects[j] == Abs(run[j], views[j])
  }

  lemma ViewedGrows(run: seq<Config>, objects: seq<Object>, views: seq<View>, d: Config, w: View)
    requires Viewed(run, objects, views) && Inv(d, w)
    ensures Viewed(run + [d], objects + [Abs(d, w)], views + [w])
  {
    hide Inv, Abs;
  }

  /** The abstract run that a concrete run implements. */
  lemma {:induction false} Implements(run: seq<Config>, events: seq<Event>)
    returns (objects: seq<Object>, views: seq<View>)
    requires Run(run, events)
    ensures Behaviour(Fifo, objects, events) && objects[0].free == run[0].free && Viewed(run, objects, views)
  {
    hide Inv;
    var n := |events|;
    if n == 0 {
      var v := View([], NoOne);
      objects, views := [Abs(run[0], v)], [v];
      StartsWell(run[0]);
    } else {
      objects, views := Implements(run[..n], events[..n - 1]);
      assert Moves(run[n - 1], run[n], events[n - 1]);
      assert run[..n][n - 1] == run[n - 1];
      var w := MoveRefines(run[n - 1], run[n], views[n - 1], events[n - 1]);
      BehaviourGrows(Fifo, objects, events[..n - 1], Abs(run[n], w), events[n - 1]);
      ViewedGrows(run[..n], objects, views, run[n], w);
      objects, views := objects + [Abs(run[n], w)], views + [w];
      assert events == events[..n - 1] + [events[n - 1]];
      assert run == run[..n] + [run[n]];
    }
  }

  /** Linearizability: whatever the threads do, callers see an atomic queue. */
  lemma Linearizable(run: seq<Config>, events: seq<Event>)
    requires Run(run, events)
    ensures exists objects: seq<Object> :: Behaviour(Fifo, objects, events) && objects[0].free == run[0].free
  {
    var objects, views := Implements(run, events);
  }

  // ---------------------------------------------------------------- consequences at a reachable state

  /** The assertion in pop's repair path: the head is still the sentinel, and the value stored is the queue's front. */
  lemma RepairFindsSentinel(run: seq<Config>, events: seq<Event>, t: Tid)
    requires Run(run, events)
    requires t in run[|events|].pcs && (run[|events|].pcs[t].PopReread? || run[|events|].pcs[t].PopFixHead?)
    ensures run[|events|].head.item == Ghost
  {
    var objects, views := Implements(run, events);
    assert Knows(run[|events|], views[|events|], t);
  }

  /** A spinning pop never waits in vain: while its item has no successor, a pusher is about to write it. */
  lemma WaitHasWriter(run: seq<Config>, events: seq<Event>, t: Tid)
    requires Run(run, events)
    requires t in run[|events|].pcs && run[|events|].pcs[t].PopWait?
    requires NextOf(run[|events|], run[|events|].pcs[t].item) == Ghost
    ensures exists u, y :: u in run[|events|].pcs && run[|events|].pcs[u] == PushLink(y, run[|events|].pcs[t].item)
  {
    var c := run[|events|];
    var objects, views := Implements(run, events);
    assert Knows(c, views[|events|], t);
    WaitsForLink(c, views[|events|], t);
  }

  lemma WaitsForLink(c: Config, v: View, t: Tid)
    requires Knows(c, v, t) && c.pcs[t].PopWait? && NextOf(c, c.pcs[t].item) == Ghost
    ensures exists u, y :: u in c.pcs && c.pcs[u] == PushLink(y, c.pcs[t].item)
  {
    var ch := Chain(v);
    assert ch[0] == c.pcs[t].item && ch[1] == v.queue[0];
    assert Unlinked(c, ch[0], ch[1]);
    var u :| u in c.pcs && c.pcs[u] == PushLink(ch[1], ch[0]);
  }

  /** Some pop has emptied the head and not yet settled the tail. */
  predicate Emptying(c: Config) { exists u :: u in c.pcs && c.pcs[u].PopFixTail? }

  lemma TailTellsEmpty(c: Config, v: View)
    requires Inv(c, v)
    ensures c.tail.item == Ghost <==> v.queue == [] && !Emptying(c)
  {
    if c.tail.item == Ghost {
      TailGhostMeansEmpty(c, v);
    } else if v.queue == [] {
      assert Local(c, v, v.fixer.t);
    }
  }

  /** From its successful tail CAS at position i on, thread t is busy with one and the same push up to position j. */
  ghost predicate OnePush(run: seq<Config>, t: Tid, i: nat, j: nat) {
    && i < j < |run| && t in run[i].pcs && run[i].pcs[t].PushCas?
    && forall k :: i < k <= j ==> t in run[k].pcs && (run[k].pcs[t].PushLink? || run[k].pcs[t].PushDone?)
  }

  /** The predecessor read from the tail stays with the push. */
  lemma {:induction false} PrevKept(run: seq<Config>, events: seq<Event>, t: Tid, i: nat, j: nat)
    requires Run(run, events) && OnePush(run, t, i, j)
    ensures run[j].pcs[t].prev == run[i].tail.item
  {
    hide Start;
    assert Moves(run[j - 1], run[j], events[j - 1]);
    if j > i + 1 { PrevKept(run, events, t, i, j - 1); }
  }

  /**
   What push returns. It is documented to let the caller detect that the list was empty; it is the previous tail, and
   the sentinel exactly when the list was empty at the tail CAS and no pop was still emptying it.
   */
  lemma PushReportsFirst(run: seq<Config>, events: seq<Event>, t: Tid, i: nat, j: nat)
    returns (objects: seq<Object>, views: seq<View>)
    requires Run(run, events) && OnePush(run, t, i, j) && j < |events| && events[j].ReturnPush? && events[j].t == t
    ensures Behaviour(Fifo, objects, events) && objects[0].free == run[0].free && Viewed(run, objects, views)
    ensures events[j].result == run[i].tail.item
    ensures events[j].result == Ghost <==> objects[i].contents == [] && !Emptying(run[i])
    ensures forall w: View :: Inv(run[i], w) ==>
              (events[j].result == Ghost <==> w.queue == [] && !Emptying(run[i]))
  {
    hide Inv, Start, Emptying;
    objects, views := Implements(run, events);
    PrevKept(run, events, t, i, j);
    assert Moves(run[j], run[j + 1], events[j]);
    forall w: View | Inv(run[i], w) ensures events[j].result == Ghost <==> w.queue == [] && !Emptying(run[i]) {
      TailTellsEmpty(run[i], w);
    }
  }

  /** An item that a pop returns points nowhere. */
  lemma PopClears(run: seq<Config>, events: seq<Event>, j: nat)
    requires Run(run, events) && j < |events| && events[j].ReturnPop? && events[j].result != Null
    ensures events[j].result.Node? && NextOf(run[j], events[j].result) == Null
  {
    var objects, views := Implements(run, events);
    assert Moves(run[j], run[j + 1], events[j]);
    assert Local(run[j], views[j], events[j].t);
  }

  /** A run extended by one event. */
  lemma Append(run: seq<Config>, events: seq<Event>, d: Config, e: Event)
    returns (run': seq<Config>, events': seq<Event>)
    requires Run(run, events) && Moves(run[|events|], d, e)
    ensures run' == run + [d] && events' == events + [e] && Run(run', events')
  {
    run', events' := run + [d], events + [e];
  }

  lemma AppendStep(run: seq<Config>, events: seq<Event>, t: Tid) returns (run': seq<Config>, events': seq<Event>)
    requires Run(run, events) && Running(run[|events|], t)
    ensures Run(run', events') && run' == run + [Step(run[|events|], t)] && events' == events + [Internal]
  {
    run', events' := Append(run, events, Step(run[|events|], t), Internal);
  }

  /** A completed push of an item by thread 0. */
  lemma PushAlone(run: seq<Config>, events: seq<Event>, x: Ptr) returns (run': seq<Config>, events': seq<Event>)
    requires Run(run, events) && 0 in run[|events|].pcs && run[|events|].pcs[0].Idle?
    requires x in run[|events|].free && run[|events|].tail.item == Ghost
    ensures Run(run', events')
    ensures var c := run[|events|];
            run'[|events'|] == Config(c.head.(item := x), Counted(c.tail.cnt + 1, x),
                c.next[x := Ghost], c.pcs[0 := Idle], c.free - {x})
  {
    var c := run[|events|];
    run', events' := Append(run, events, Goto(c, 0, PushStart(x)).(free := c.free - {x}), InvokePush(0, x));
    run', events' := AppendStep(run', events', 0);
    run', events' := AppendStep(run', events', 0);
    run', events' := AppendStep(run', events', 0);
    run', events' := AppendStep(run', events', 0);
    run', events' := Append(run', events', Goto(run'[|events'|], 0, Idle), ReturnPush(0, Ghost));
  }

  /** Thread 1 pops the only item as far as its head CAS. */
  lemma PopHalfway(run: seq<Config>, events: seq<Event>, x: Ptr) returns (run': seq<Config>, events': seq<Event>)
    requires Run(run, events) && 1 in run[|events|].pcs && run[|events|].pcs[1].Idle?
    requires x.Node? && run[|events|].head.item == run[|events|].tail.item == x && NextOf(run[|events|], x) == Ghost
    ensures Run(run', events')
    ensures var c := run[|events|];
            run'[|events'|] == Config(Counted(c.head.cnt + 1, Ghost), c.tail, c.next,
                c.pcs[1 := PopFixTail(x, c.tail)], c.free)
  {
    var c := run[|events|];
    run', events' := Append(run, events, Goto(c, 1, PopHead), InvokePop(1));
    run', events' := AppendStep(run', events', 1);
    run', events' := AppendStep(run', events', 1);
    run', events' := AppendStep(run', events', 1);
    run', events' := AppendStep(run', events', 1);
  }

  /** Push a; pop it as far as the head CAS; push b as far as the tail CAS. */
  lemma MissingRun(a: Ptr, b: Ptr) returns (run: seq<Config>, events: seq<Event>)
    requires a.Node? && b.Node? && a != b
    ensures Run(run, events)
    ensures run[|events|].tail == Counted(1, a)
    ensures run[|events|].pcs == map[0 := PushCas(b, Counted(1, a)), 1 := PopFixTail(a, Counted(1, a))]
  {
    run, events := [Config(Counted(0, Ghost), Counted(0, Ghost),
        map[Ghost := Ghost], map[0 := Idle, 1 := Idle], {a, b})], [];
    run, events := PushAlone(run, events, a);
    run, events := PopHalfway(run, events, a);
    var c := run[|events|];
    run, events := Append(run, events, Goto(c, 0, PushStart(b)).(free := c.free - {b}), InvokePush(0, b));
    run, events := AppendStep(run, events, 0);
    run, events := AppendStep(run, events, 0);
  }

  lemma SoleItemRemoved(c: Config, v: View, t: Tid)
    requires Knows(c, v, t) && c.pcs[t].PopFixTail? && c.tail.item == c.pcs[t].item
    ensures v.queue == []
  {
    assert Chain(v)[0] == Chain(v)[|Chain(v)| - 1];
  }

  /** A run in which push finds the queue empty and yet returns an item instead of the sentinel. */
  lemma PushMayMissEmpty() returns (run: seq<Config>, events: seq<Event>, objects: seq<Object>, i: nat, j: nat)
    ensures Run(run, events) && Behaviour(Fifo, objects, events) && objects[0].free == run[0].free
    ensures OnePush(run, 0, i, j) && objects[i].contents == [] && j < |events| && events[j] == ReturnPush(0, Node(0))
  {
    hide Run, Behaviour, Inv;
    run, events := MissingRun(Node(0), Node(1));
    i := |events|;
    RunLength(run, events);
    run, events := AppendStep(run, events, 0);
    run, events := AppendStep(run, events, 0);
    j := |events|;
    run, events := Append(run, events, Goto(run[j], 0, Idle), ReturnPush(0, Node(0)));
    var views;
    objects, views := Implements(run, events);
    InvKnows(run[i], views[i], 1);
    SoleItemRemoved(run[i], views[i], 1);
  }

  lemma RunLength(run: seq<Config>, events: seq<Event>)
    requires Run(run, events)
    ensures |run| == |events| + 1
  {
  }

  // ---------------------------------------------------------------- operations that run alone

  /** n steps of thread t, or fewer if its operation ends before. */
  ghost function Solo(c: Config, t: Tid, n: nat): Config
    decreases n
  {
    if n == 0 || !Running(c, t) then c else Solo(Step(c, t), t, n - 1)
  }

  /** Thread t ends its operation within n steps of its own, with pc. */
  ghost predicate Ends(c: Config, t: Tid, n: nat, pc: Pc) {
    t in Solo(c, t, n).pcs && Solo(c, t, n).pcs[t] == pc && (pc.PushDone? || pc.PopDone?)
  }

  lemma EndsNext(c: Config, t: Tid, n: nat, pc: Pc)
    requires Running(c, t) && Ends(Step(c, t), t, n, pc)
    ensures Ends(c, t, n + 1, pc)
  {
    hide Step;
  }

  lemma {:induction false} EndsLater(c: Config, t: Tid, n: nat, m: nat, pc: Pc)
    requires Ends(c, t, n, pc) && n <= m
    ensures Ends(c, t, m, pc)
    decreases n
  {
    hide Step;
    if n > 0 && Running(c, t) { EndsLater(Step(c, t), t, n - 1, m - 1, pc); }
  }

  /** A push ends after five steps of its own at most, with the tail that it found if nobody else moves. */
  lemma PushEnds(c: Config, t: Tid)
    requires Running(c, t) && (OpOf(c.pcs[t]).Pushing? || c.pcs[t].PushLink?)
    ensures exists r :: Ends(c, t, 5, PushDone(r))
    ensures OpOf(c.pcs[t]).Pushing? ==> Ends(c, t, 5, PushDone(c.tail.item))
  {
    match c.pcs[t]
    case PushStart(x) =>
      ReadEnds(Step(c, t), t);
      EndsNext(c, t, 3, PushDone(c.tail.item));
      EndsLater(c, t, 4, 5, PushDone(c.tail.item));
    case PushRead(x) =>
      ReadEnds(c, t);
      EndsLater(c, t, 3, 5, PushDone(c.tail.item));
    case PushCas(x, tl) =>
      if c.tail == tl {
        CasEnds(c, t);
        EndsLater(c, t, 2, 5, PushDone(c.tail.item));
      } else {
        ReadEnds(Step(c, t), t);
        EndsNext(c, t, 3, PushDone(c.tail.item));
        EndsLater(c, t, 4, 5, PushDone(c.tail.item));
      }
    case PushLink(x, prev) =>
      LinkEnds(c, t);
      EndsLater(c, t, 1, 5, PushDone(prev));
  }

  lemma LinkEnds(c: Config, t: Tid)
    requires Running(c, t) && c.pcs[t].PushLink?
    ensures Ends(c, t, 1, PushDone(c.pcs[t].prev))
  {
    assert Solo(Step(c, t), t, 0) == Step(c, t);
  }

  lemma CasEnds(c: Config, t: Tid)
    requires Running(c, t) && c.pcs[t].PushCas? && c.tail == c.pcs[t].tail
    ensures Ends(c, t, 2, PushDone(c.tail.item))
  {
    LinkEnds(Step(c, t), t);
    EndsNext(c, t, 1, PushDone(c.tail.item));
  }

  lemma ReadEnds(c: Config, t: Tid)
    requires Running(c, t) && c.pcs[t].PushRead?
    ensures Ends(c, t, 3, PushDone(c.tail.item))
  {
    CasEnds(Step(c, t), t);
    EndsNext(c, t, 2, PushDone(c.tail.item));
  }

  /** No other thread owes the list a link or a repair. */
  predicate Calm(c: Config, t: Tid) {
    forall u :: u in c.pcs && u != t ==> !c.pcs[u].PushLink? && !PopFixing(c.pcs[u])
  }

  /** What a pop finds then: the front of the queue, and its links. */
  lemma CalmFront(c: Config, v: View, t: Tid)
    requires Shape(c, v) && Calm(c, t) && t in c.pcs && !c.pcs[t].PushLink? && !PopFixing(c.pcs[t])
    ensures v.fixer.NoOne? && c.head.item == (if v.queue == [] then Ghost else v.queue[0])
    ensures c.tail.item == (if v.queue == [] then Ghost else v.queue[|v.queue| - 1])
    ensures v.queue != [] ==> NextOf(c, v.queue[0]) == (if |v.queue| == 1 then Ghost else v.queue[1])
    ensures v.queue != [] ==> v.queue[0].Node? && (|v.queue| > 1 ==> v.queue[1].Node? && v.queue[0] != c.tail.item)
  {
    assert Chain(v) == v.queue;
    if |v.queue| > 1 { assert NextOf(c, v.queue[0]) == v.queue[1] || Unlinked(c, v.queue[0], v.queue[1]); }
  }

  lemma ClearEnds(c: Config, t: Tid)
    requires Running(c, t) && c.pcs[t].PopClear?
    ensures Ends(c, t, 1, PopDone(c.pcs[t].item))
  {
    assert Solo(Step(c, t), t, 0) == Step(c, t);
  }

  lemma FixTailEnds(c: Config, t: Tid)
    requires Running(c, t) && c.pcs[t].PopFixTail? && c.tail == c.pcs[t].tail
    ensures Ends(c, t, 2, PopDone(c.pcs[t].item))
  {
    ClearEnds(Step(c, t), t);
    EndsNext(c, t, 1, PopDone(c.pcs[t].item));
  }

  /** The front, or NULL if there is none. */
  function Front(q: seq<Ptr>): Ptr { if q == [] then Null else q[0] }

  lemma TryEnds(c: Config, v: View, t: Tid)
    requires Shape(c, v) && Running(c, t) && Calm(c, t)
    requires c.pcs[t] == PopTry(c.head, c.tail, NextOf(c, c.head.item))
    ensures Ends(c, t, 3, PopDone(Front(v.queue)))
  {
    hide Shape;
    CalmFront(c, v, t);
    if v.queue == [] {
      assert Solo(Step(c, t), t, 0) == Step(c, t);
      EndsNext(c, t, 0, PopDone(Null));
      EndsLater(c, t, 1, 3, PopDone(Null));
    } else if |v.queue| == 1 {
      FixTailEnds(Step(c, t), t);
      EndsNext(c, t, 2, PopDone(v.queue[0]));
    } else {
      ClearEnds(Step(c, t), t);
      EndsNext(c, t, 1, PopDone(v.queue[0]));
      EndsLater(c, t, 2, 3, PopDone(v.queue[0]));
    }
  }

  lemma HeadEnds(c: Config, v: View, t: Tid)
    requires Shape(c, v) && Running(c, t) && Calm(c, t) && c.pcs[t].PopHead?
    ensures Ends(c, t, 6, PopDone(Front(v.queue)))
  {
    hide Shape, Ends, Solo;
    var c1 := Step(c, t);
    var c2 := Step(c1, t);
    var c3 := Step(c2, t);
    assert c3 == Goto(c, t, PopTry(c.head, c.tail, NextOf(c, c.head.item)));
    SilentShape(c, v, t, c3.pcs[t]);
    TryEnds(c3, v, t);
    EndsNext(c2, t, 3, PopDone(Front(v.queue)));
    EndsNext(c1, t, 4, PopDone(Front(v.queue)));
    EndsNext(c, t, 5, PopDone(Front(v.queue)));
  }

  lemma CalmKept(c: Config, t: Tid)
    requires Calm(c, t) && Running(c, t)
    ensures Calm(Step(c, t), t)
  {
  }

  /** The end of a pop that took effect. */
  lemma FixingEnds(c: Config, v: View, t: Tid)
    requires Knows(c, v, t) && Running(c, t) && Calm(c, t) && (PopFixing(c.pcs[t]) || c.pcs[t].PopClear?)
    ensures Ends(c, t, 5, PopDone(c.pcs[t].item))
  {
    hide Ends, Solo;
    match c.pcs[t]
    case PopClear(x) =>
      ClearEnds(c, t);
      EndsLater(c, t, 1, 5, PopDone(x));
    case PopFixTail(x, tl) =>
      if c.tail == tl {
        FixTailEnds(c, t);
        EndsLater(c, t, 2, 5, PopDone(x));
      } else {
        RemovedLinked(c, v, t);
        WaitEnds(Step(c, t), t);
        EndsNext(c, t, 4, PopDone(x));
      }
    case PopWait(x) =>
      RemovedLinked(c, v, t);
      WaitEnds(c, t);
      EndsLater(c, t, 4, 5, PopDone(x));
    case PopReread(x) =>
      FixHeadEnds(Step(c, t), t);
      EndsNext(c, t, 2, PopDone(x));
      EndsLater(c, t, 3, 5, PopDone(x));
    case PopFixHead(x, nx) =>
      FixHeadEnds(c, t);
      EndsLater(c, t, 2, 5, PopDone(x));
  }

  lemma RemovedLinked(c: Config, v: View, t: Tid)
    requires Shape(c, v) && Calm(c, t) && t in c.pcs && PopFixing(c.pcs[t]) && Local(c, v, t)
    requires c.pcs[t].PopFixTail? ==> c.tail != c.pcs[t].tail
    ensures NextOf(c, c.pcs[t].item) != Ghost
  {
    var ch := Chain(v);
    assert ch[0] == c.pcs[t].item && ch[1] == v.queue[0];
    assert NextOf(c, ch[0]) == ch[1] || Unlinked(c, ch[0], ch[1]);
  }

  lemma FixHeadEnds(c: Config, t: Tid)
    requires Running(c, t) && c.pcs[t].PopFixHead?
    ensures Ends(c, t, 2, PopDone(c.pcs[t].item))
  {
    ClearEnds(Step(c, t), t);
    EndsNext(c, t, 1, PopDone(c.pcs[t].item));
  }

  lemma WaitEnds(c: Config, t: Tid)
    requires Running(c, t) && c.pcs[t].PopWait? && NextOf(c, c.pcs[t].item) != Ghost
    ensures Ends(c, t, 4, PopDone(c.pcs[t].item))
  {
    hide Ends, Solo;
    var c1 := Step(c, t);
    FixHeadEnds(Step(c1, t), t);
    EndsNext(c1, t, 2, PopDone(c.pcs[t].item));
    EndsNext(c, t, 3, PopDone(c.pcs[t].item));
  }

  /** A pop that has its snapshots ends, or starts over within one step and ends then. */
  lemma TriesEnd(c: Config, v: View, t: Tid)
    requires Inv(c, v) && Running(c, t) && Calm(c, t) && c.pcs[t].PopTry?
    ensures exists r :: Ends(c, t, 7, PopDone(r))
  {
    hide Inv, Shape, Local, Ends, Solo;
    var c', v' := Step(c, t), ViewStep(c, v, t);
    StepKeeps(c, v, t);
    CalmKept(c, t);
    InvKnows(c', v', t);
    if c'.pcs[t].PopDone? {
      DoneEnds(c', t);
      EndsNext(c, t, 0, c'.pcs[t]);
      EndsLater(c, t, 1, 7, c'.pcs[t]);
    } else if c'.pcs[t].PopHead? {
      HeadEnds(c', v', t);
      EndsNext(c, t, 6, PopDone(Front(v'.queue)));
    } else {
      FixingEnds(c', v', t);
      EndsNext(c, t, 5, PopDone(c'.pcs[t].item));
      EndsLater(c, t, 6, 7, PopDone(c'.pcs[t].item));
    }
  }

  lemma DoneEnds(c: Config, t: Tid)
    requires t in c.pcs && c.pcs[t].PopDone?
    ensures Ends(c, t, 0, c.pcs[t])
  {
  }

  lemma InvKnows(c: Config, v: View, t: Tid)
    requires Inv(c, v)
    ensures Shape(c, v) && (t in c.pcs ==> Knows(c, v, t))
  {
  }

  lemma SearchEnds(c: Config, v: View, t: Tid)
    requires Inv(c, v) && Running(c, t) && Calm(c, t) && (c.pcs[t].PopTail? || c.pcs[t].PopNext?)
    ensures exists r :: Ends(c, t, 9, PopDone(r))
  {
    hide Inv, Shape, Local, Ends, Solo, Calm;
    var c1 := Step(c, t);
    StepKeeps(c, v, t);
    CalmKept(c, t);
    if c.pcs[t].PopNext? {
      TriesEnd(c1, v, t);
      var r :| Ends(c1, t, 7, PopDone(r));
      EndsNext(c, t, 7, PopDone(r));
      EndsLater(c, t, 8, 9, PopDone(r));
    } else {
      var c2 := Step(c1, t);
      StepKeeps(c1, v, t);
      CalmKept(c1, t);
      TriesEnd(c2, v, t);
      var r :| Ends(c2, t, 7, PopDone(r));
      EndsNext(c1, t, 7, PopDone(r));
      EndsNext(c, t, 8, PopDone(r));
    }
  }

  /** Progress at any point of any run: a push that runs alone ends, whatever the others have left undone; a pop that
      runs alone ends unless another thread owes the list a link or a repair. A pop that starts then returns the front,
      and NULL only if there is none. */
  lemma EndsAlone(run: seq<Config>, events: seq<Event>, t: Tid) returns (objects: seq<Object>, views: seq<View>)
    requires Run(run, events) && Running(run[|events|], t)
    ensures Behaviour(Fifo, objects, events) && objects[0].free == run[0].free && Viewed(run, objects, views)
    ensures var c := run[|events|];
      && (OpOf(c.pcs[t]).Pushing? ==> Ends(c, t, 5, PushDone(c.tail.item)))
      && (c.pcs[t].PushLink? ==> exists r :: Ends(c, t, 5, PushDone(r)))
      && (c.pcs[t].PopHead? && Calm(c, t) ==> Ends(c, t, 6, PopDone(Front(objects[|events|].contents))))
      && (!OpOf(c.pcs[t]).Pushing? && !c.pcs[t].PushLink? && Calm(c, t) ==> exists r :: Ends(c, t, 9, PopDone(r)))
  {
    hide Inv, Ends, Calm, Start;
    objects, views := Implements(run, events);
    var c, v := run[|events|], views[|events|];
    InvKnows(c, v, t);
    if OpOf(c.pcs[t]).Pushing? || c.pcs[t].PushLink? {
      PushEnds(c, t);
    } else if Calm(c, t) {
      PopEnds(c, v, t);
      if c.pcs[t].PopHead? { HeadEnds(c, v, t); }
    }
  }

  lemma PopEnds(c: Config, v: View, t: Tid)
    requires Inv(c, v) && Running(c, t) && Calm(c, t) && !OpOf(c.pcs[t]).Pushing? && !c.pcs[t].PushLink?
    ensures exists r :: Ends(c, t, 9, PopDone(r))
  {
    hide Inv, Shape, Local, Ends, Solo, Calm, Step;
    InvKnows(c, v, t);
    if c.pcs[t].PopHead? {
      HeadEnds(c, v, t);
      EndsLater(c, t, 6, 9, PopDone(Front(v.queue)));
    } else if c.pcs[t].PopTry? {
      TriesEnd(c, v, t);
      var r :| Ends(c, t, 7, PopDone(r));
      EndsLater(c, t, 7, 9, PopDone(r));
    } else if c.pcs[t].PopTail? || c.pcs[t].PopNext? {
      SearchEnds(c, v, t);
    } else {
      FixingEnds(c, v, t);
      EndsLater(c, t, 5, 9, PopDone(c.pcs[t].item));
    }
  }
}
