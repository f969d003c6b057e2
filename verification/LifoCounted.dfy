/**
 The counted-pointer LIFO (opal_lifo.h, 128-bit compare-and-set), one atomic memory access per step.

 Push swaps only the item word and never touches the counter; pop reads the counter and the item
 separately and swaps both words, bumping the counter.
 */
module LifoCounted {
  import opened ContainerSpec

  datatype Counted = Counted(cnt: nat, item: Ptr)

  datatype Pc =
    | Idle
    | PushRead(item: Ptr)
    | PushStore(item: Ptr, next: Ptr)
    | PushCas(item: Ptr, next: Ptr)
    | PushDone(next: Ptr)
    | PopCount
    | PopItem(cnt: nat)
    | PopNext(cnt: nat, item: Ptr)
    | PopCas(cnt: nat, item: Ptr, next: Ptr)
    | PopClear(item: Ptr)
    | PopDone(result: Ptr)

  datatype Config = Config(head: Counted, next: map<Ptr, Ptr>, pcs: map<Tid, Pc>, free: set<Ptr>)

  function NextOf(c: Config, p: Ptr): Ptr { if p in c.next then c.next[p] else Null }

  function Goto(c: Config, t: Tid, pc: Pc): Config { c.(pcs := c.pcs[t := pc]) }

  function Store(c: Config, p: Ptr, q: Ptr): Config { c.(next := c.next[p := q]) }

  predicate Running(c: Config, t: Tid) {
    t in c.pcs && !c.pcs[t].Idle? && !c.pcs[t].PushDone? && !c.pcs[t].PopDone?
  }

  function Step(c: Config, t: Tid): Config
    requires Running(c, t)
  {
    match c.pcs[t]
    case PushRead(x) => Goto(c, t, PushStore(x, c.head.item))
    case PushStore(x, nx) => Goto(Store(c, x, nx), t, PushCas(x, nx))
    case PushCas(x, nx) =>
      if c.head.item == nx then Goto(c.(head := c.head.(item := x)), t, PushDone(nx)) else Goto(c, t, PushRead(x))
    case PopCount => Goto(c, t, PopItem(c.head.cnt))
    case PopItem(n) => if c.head.item == Ghost then Goto(c, t, PopDone(Null)) else Goto(c, t, PopNext(n, c.head.item))
    case PopNext(n, x) => Goto(c, t, PopCas(n, x, NextOf(c, x)))
    case PopCas(n, x, nx) =>
      if c.head == Counted(n, x) then Goto(c.(head := Counted(n + 1, nx)), t, PopClear(x)) else Goto(c, t, PopCount)
    case PopClear(x) => Goto(Store(c, x, Null), t, PopDone(x))
  }

  ghost predicate Moves(c: Config, d: Config, e: Event) {
    match e
    case InvokePush(t, x) =>
      t in c.pcs && c.pcs[t].Idle? && x in c.free && d == Goto(c, t, PushRead(x)).(free := c.free - {x})
    case InvokePop(t) => t in c.pcs && c.pcs[t].Idle? && d == Goto(c, t, PopCount)
    case ReturnPush(t, r) => t in c.pcs && c.pcs[t] == PushDone(r) && d == Goto(c, t, Idle)
    case ReturnPop(t, r) =>
      t in c.pcs && c.pcs[t] == PopDone(r) &&
      d == Goto(c, t, Idle).(free := if r.Node? then c.free + {r} else c.free)
    case Internal => exists t :: Running(c, t) && d == Step(c, t)
  }

  /** opal_lifo_construct. */
  ghost predicate Start(c: Config) {
    && c.head == Counted(0, Ghost)
    && (forall t :: t in c.pcs ==> c.pcs[t].Idle?)
    && (forall x :: x in c.free ==> x.Node?)
  }

  ghost predicate Run(run: seq<Config>, events: seq<Event>) {
    && |run| == |events| + 1
    && Start(run[0])
    && forall i :: 0 <= i < |events| ==> Moves(run[i], run[i + 1], events[i])
  }

  // ---------------------------------------------------------------- the invariant

  /** How deep the stack was, and how many operations had taken effect, when a pop read its item. */
  datatype Mark = Mark(depth: nat, changes: nat)

  /** The abstract stack, the number of pushes and pops that have taken effect, and the pops' marks. */
  datatype View = View(stack: seq<Ptr>, changes: nat, marks: map<Tid, Mark>)

  function Mine(pc: Pc): Ptr {
    match pc
    case PushRead(x) => x
    case PushStore(x, _) => x
    case PushCas(x, _) => x
    case PopClear(x) => x
    case PopDone(r) => r
    case _ => Null
  }

  function After(s: seq<Ptr>, i: nat): Ptr { if i + 1 < |s| then s[i + 1] else Ghost }

  ghost predicate Shape(c: Config, v: View) {
    && (forall i :: 0 <= i < |v.stack| ==> v.stack[i].Node?)
    && (forall i, j :: 0 <= i < j < |v.stack| ==> v.stack[i] != v.stack[j])
    && c.head.item == (if v.stack == [] then Ghost else v.stack[0])
    && (forall i :: 0 <= i < |v.stack| ==> NextOf(c, v.stack[i]) == After(v.stack, i))
  }

  ghost predicate Ownership(c: Config, v: View) {
    && (forall x :: x in c.free ==> x.Node? && x !in v.stack)
    && (forall t :: t in c.pcs && Mine(c.pcs[t]) != Null ==>
          Mine(c.pcs[t]).Node? && Mine(c.pcs[t]) !in c.free && Mine(c.pcs[t]) !in v.stack)
    && (forall t, u :: t in c.pcs && u in c.pcs && t != u && Mine(c.pcs[t]) != Null ==>
              Mine(c.pcs[t]) != Mine(c.pcs[u]))
  }

  /** The item a pop read is still on the stack, below exactly as many items as have been pushed since. */
  ghost predicate Marked(v: View, t: Tid, x: Ptr) {
    && t in v.marks
    && 0 < v.marks[t].depth <= |v.stack|
    && v.stack[|v.stack| - v.marks[t].depth] == x
    && v.changes - v.marks[t].changes == |v.stack| - v.marks[t].depth
  }

  ghost predicate Local(c: Config, v: View, t: Tid)
    requires t in c.pcs
  {
    match c.pcs[t]
    case PushRead(x) => x.Node?
    case PushStore(x, nx) => x.Node?
    case PushCas(x, nx) => x.Node? && NextOf(c, x) == nx
    case PopItem(n) => n <= c.head.cnt
    case PopNext(n, x) => x.Node? && n <= c.head.cnt && (n == c.head.cnt ==> Marked(v, t, x))
    case PopCas(n, x, nx) =>
      x.Node? && n <= c.head.cnt && (n == c.head.cnt ==> Marked(v, t, x) && nx == NextOf(c, x))
    case PopClear(x) => x.Node?
    case PopDone(r) => r == Null || (r.Node? && NextOf(c, r) == Null)
    case _ => true
  }

  ghost predicate Inv(c: Config, v: View) {
    Shape(c, v) && Ownership(c, v) && forall t :: t in c.pcs ==> Local(c, v, t)
  }

  ghost predicate Knows(c: Config, v: View, t: Tid) {
    Shape(c, v) && t in c.pcs && Local(c, v, t)
  }

  predicate Pushes(c: Config, t: Tid) { Running(c, t) && c.pcs[t].PushCas? && c.head.item == c.pcs[t].next }

  predicate Pops(c: Config, t: Tid) {
    Running(c, t) && c.pcs[t].PopCas? && c.head == Counted(c.pcs[t].cnt, c.pcs[t].item) }

  function ViewStep(c: Config, v: View, t: Tid): View
    requires Running(c, t)
  {
    if Pushes(c, t) then View([c.pcs[t].item] + v.stack, v.changes + 1, v.marks)
    else if Pops(c, t) then View(if v.stack == [] then [] else v.stack[1..], v.changes + 1, v.marks)
    else if c.pcs[t].PopItem? then v.(marks := v.marks[t := Mark(|v.stack|, v.changes)])
    else v
  }

  // ---------------------------------------------------------------- preservation

  /** A successful pop CAS: the popped item is the top, its next pointer is current, and no push or
      pop has taken effect since the item was read, so the stack is the very one it was read from. */
  lemma CasUndisturbed(c: Config, v: View, t: Tid)
    requires Knows(c, v, t) && Pops(c, t)
    ensures v.stack != [] && c.pcs[t].item == v.stack[0]
    ensures c.pcs[t].next == NextOf(c, v.stack[0]) == After(v.stack, 0)
    ensures t in v.marks && v.marks[t] == Mark(|v.stack|, v.changes)
  {
  }

  lemma LocalKept(c: Config, v: View, c': Config, v': View, u: Tid)
    requires u in c.pcs && u in c'.pcs && c'.pcs[u] == c.pcs[u] && Local(c, v, u)
    requires c.head.cnt <= c'.head.cnt
    requires c.pcs[u].PushCas? ==> NextOf(c', c.pcs[u].item) == NextOf(c, c.pcs[u].item)
    requires c.pcs[u].PopDone? && c.pcs[u].result != Null ==>
               NextOf(c', c.pcs[u].result) == NextOf(c, c.pcs[u].result)
    requires (c.pcs[u].PopNext? || c.pcs[u].PopCas?) && c.head.cnt == c'.head.cnt && Marked(v, u, c.pcs[u].item) ==>
               Marked(v', u, c.pcs[u].item) && NextOf(c', c.pcs[u].item) == NextOf(c, c.pcs[u].item)
    ensures Local(c', v', u)
  {
  }

  lemma QuietOwnership(c: Config, v: View, c': Config, v': View, t: Tid)
    requires Ownership(c, v) && t in c.pcs && t in c'.pcs && c'.pcs == c.pcs[t := c'.pcs[t]]
    requires Mine(c'.pcs[t]) == Mine(c.pcs[t]) && c'.free == c.free && v'.stack == v.stack
    ensures Ownership(c', v')
  {
  }

  /** A step that neither pushes nor pops, and at most writes the next word of its own item. */
  lemma QuietStep(c: Config, v: View, t: Tid)
    requires Inv(c, v) && Running(c, t) && !Pushes(c, t) && !Pops(c, t)
    ensures Inv(Step(c, t), ViewStep(c, v, t))
  {
    hide Step, ViewStep, Shape, Local, Ownership, Pushes, Pops, Mine, Running;
    var c', v' := Step(c, t), ViewStep(c, v, t);
    QuietShape(c, v, t);
    QuietOwnership(c, v, c', v', t);
    forall u | u in c.pcs && u != t ensures Local(c', v', u) {
      Apart(c, v, t, u);
      QuietOther(c, v, t, u);
    }
    QuietSelf(c, v, t);
  }

  lemma QuietShape(c: Config, v: View, t: Tid)
    requires Shape(c, v) && Ownership(c, v) && Running(c, t) && !Pushes(c, t) && !Pops(c, t)
    ensures var c', v' := Step(c, t), ViewStep(c, v, t);
      && Shape(c', v') && v'.stack == v.stack && c'.free == c.free && t in c.pcs && t in c'.pcs
      && Mine(c'.pcs[t]) == Mine(c.pcs[t]) && c'.pcs == c.pcs[t := c'.pcs[t]]
  {
  }

  lemma Apart(c: Config, v: View, t: Tid, u: Tid)
    requires Shape(c, v) && Ownership(c, v) && t in c.pcs && u in c.pcs && u != t
    ensures Mine(c.pcs[t]) !in v.stack && (Mine(c.pcs[u]) != Null ==> Mine(c.pcs[u]) != Mine(c.pcs[t]))
  {
  }

  lemma QuietSelf(c: Config, v: View, t: Tid)
    requires Knows(c, v, t) && Running(c, t) && !Pushes(c, t) && !Pops(c, t)
    ensures Local(Step(c, t), ViewStep(c, v, t), t)
  {
  }

  lemma QuietOther(c: Config, v: View, t: Tid, u: Tid)
    requires Knows(c, v, t) && Running(c, t) && !Pushes(c, t) && !Pops(c, t)
    requires u != t && Knows(c, v, u) && Mine(c.pcs[t]) !in v.stack
    requires Mine(c.pcs[u]) != Null ==> Mine(c.pcs[u]) != Mine(c.pcs[t])
    ensures Local(Step(c, t), ViewStep(c, v, t), u)
  {
    var pc := c.pcs[u];
    if pc.PushCas? {
      QuietFrame(c, t, pc.item);
    } else if pc.PopNext? || pc.PopCas? {
      if pc.item in v.stack { QuietFrame(c, t, pc.item); }
    } else if pc.PopDone? {
      QuietFrame(c, t, pc.result);
    }
    QuietFrame(c, t, Null);
    LocalKept(c, v, Step(c, t), ViewStep(c, v, t), u);
  }

  lemma QuietFrame(c: Config, t: Tid, p: Ptr)
    requires Running(c, t) && !Pushes(c, t) && !Pops(c, t)
    ensures Step(c, t).head == c.head
    ensures p != Mine(c.pcs[t]) ==> NextOf(Step(c, t), p) == NextOf(c, p)
  {
  }

  lemma PushStep(c: Config, v: View, t: Tid)
    requires Inv(c, v) && Pushes(c, t)
    ensures Inv(Step(c, t), ViewStep(c, v, t))
  {
    var c', v' := Step(c, t), ViewStep(c, v, t);
    PushShape(c, v, t);
    PushOwnership(c, v, t);
    forall u | u in c.pcs && u != t ensures Local(c', v', u) {
      assert Knows(c, v, u);
      LocalKept(c, v, c', v', u);
    }
  }

  lemma PushShape(c: Config, v: View, t: Tid)
    requires Knows(c, v, t) && Ownership(c, v) && Pushes(c, t)
    ensures Shape(Step(c, t), ViewStep(c, v, t))
  {
    var x, s := Mine(c.pcs[t]), v.stack;
    var s' := [x] + s;
    assert forall i :: 0 <= i < |s'| ==> s'[i] == (if i == 0 then x else s[i - 1]);
    assert forall i :: 0 < i < |s'| ==> After(s', i) == After(s, i - 1);
  }

  lemma PushOwnership(c: Config, v: View, t: Tid)
    requires Ownership(c, v) && Pushes(c, t) && c.pcs[t].item.Node?
    ensures Ownership(Step(c, t), ViewStep(c, v, t))
  {
    var x := Mine(c.pcs[t]);
    assert forall y :: y in [x] + v.stack <==> y == x || y in v.stack;
  }

  lemma PopStep(c: Config, v: View, t: Tid)
    requires Inv(c, v) && Pops(c, t)
    ensures Inv(Step(c, t), ViewStep(c, v, t))
  {
    var c', v' := Step(c, t), ViewStep(c, v, t);
    CasUndisturbed(c, v, t);
    PopShape(c, v, t);
    PopOwnership(c, v, t);
    forall u | u in c.pcs && u != t ensures Local(c', v', u) {
      LocalKept(c, v, c', v', u);
    }
  }

  lemma PopShape(c: Config, v: View, t: Tid)
    requires Knows(c, v, t) && Pops(c, t)
    ensures Shape(Step(c, t), ViewStep(c, v, t))
  {
    CasUndisturbed(c, v, t);
    var s := v.stack;
    assert forall i :: 0 <= i < |s[1..]| ==> s[1..][i] == s[i + 1] && After(s[1..], i) == After(s, i + 1);
  }

  lemma PopOwnership(c: Config, v: View, t: Tid)
    requires Knows(c, v, t) && Ownership(c, v) && Pops(c, t)
    ensures Ownership(Step(c, t), ViewStep(c, v, t))
  {
    CasUndisturbed(c, v, t);
    assert v.stack == [v.stack[0]] + v.stack[1..];
    assert v.stack[0] in v.stack;
  }

  /** Every atomic step of every thread keeps the invariant. */
  lemma StepKeeps(c: Config, v: View, t: Tid)
    requires Inv(c, v) && Running(c, t)
    ensures Inv(Step(c, t), ViewStep(c, v, t))
  {
    if Pushes(c, t) { PushStep(c, v, t); } else if Pops(c, t) { PopStep(c, v, t); } else { QuietStep(c, v, t); }
  }

  // ---------------------------------------------------------------- linearizability

  function OpOf(pc: Pc): Op {
    match pc
    case Idle => Quiet
    case PushRead(x) => Pushing(x)
    case PushStore(x, _) => Pushing(x)
    case PushCas(x, _) => Pushing(x)
    case PushDone(nx) => Pushed(nx)
    case PopClear(x) => Popped(x)
    case PopDone(r) => Popped(r)
    case _ => Popping
  }

  function Abs(c: Config, v: View): Object {
    Object(v.stack, map t | t in c.pcs :: OpOf(c.pcs[t]), c.free)
  }

  lemma OpsAfter(c: Config, c': Config, v: View, v': View, t: Tid)
    requires t in c.pcs && t in c'.pcs && c'.pcs == c.pcs[t := c'.pcs[t]]
    ensures Abs(c', v').ops == Abs(c, v).ops[t := OpOf(c'.pcs[t])]
  {
  }

  /** The points at which operations take effect: a push at its CAS, a successful pop at its CAS, an
      empty pop at its read of the item. */
  predicate TakesEffect(c: Config, t: Tid) {
    Pushes(c, t) || Pops(c, t) || (Running(c, t) && c.pcs[t].PopItem? && c.head.item == Ghost)
  }

  lemma EffectCommits(c: Config, v: View, t: Tid)
    requires Knows(c, v, t) && TakesEffect(c, t)
    ensures Commit(Lifo, Abs(c, v), Abs(Step(c, t), ViewStep(c, v, t)), t)
  {
    OpsAfter(c, Step(c, t), v, ViewStep(c, v, t), t);
    if Pops(c, t) { CasUndisturbed(c, v, t); }
  }

  lemma OthersStutter(c: Config, v: View, t: Tid)
    requires Running(c, t) && !TakesEffect(c, t)
    ensures Abs(Step(c, t), ViewStep(c, v, t)) == Abs(c, v)
  {
    assert OpOf(Step(c, t).pcs[t]) == OpOf(c.pcs[t]);
  }

  lemma CallKeeps(c: Config, d: Config, v: View, e: Event)
    requires Inv(c, v) && Moves(c, d, e) && !e.Internal?
    ensures Inv(d, v)
  {
    CallOwnership(c, d, v, e);
    forall u | u in c.pcs && u != e.t ensures Local(d, v, u) {
      CallOther(c, d, v, e, u);
    }
  }

  lemma CallOther(c: Config, d: Config, v: View, e: Event, u: Tid)
    requires Knows(c, v, u) && Moves(c, d, e) && !e.Internal? && u != e.t
    ensures Local(d, v, u)
  {
    LocalKept(c, v, d, v, u);
  }

  lemma CallOwnership(c: Config, d: Config, v: View, e: Event)
    requires Ownership(c, v) && Moves(c, d, e) && !e.Internal?
    ensures Ownership(d, v)
  {
    assert e.ReturnPop? && e.result != Null ==> Mine(c.pcs[e.t]) == e.result;
  }

  lemma CallRefines(c: Config, d: Config, v: View, e: Event)
    requires Moves(c, d, e) && !e.Internal?
    ensures Next(Lifo, Abs(c, v), Abs(d, v), e)
  {
    OpsAfter(c, d, v, v, e.t);
  }

  /** How a view may change: the stack only with the number of changes, and the mark of a pop only when it
      reads its item. */
  ghost predicate Stepped(c: Config, v: View, d: Config, w: View) {
    && v.changes <= w.changes && (v.changes == w.changes ==> v.stack == w.stack)
    && (forall t :: t in c.pcs && t in d.pcs && c.pcs[t].PopItem? && d.pcs[t].PopNext? ==>
          t in w.marks && w.marks[t].changes == v.changes)
    && (forall t :: t in c.pcs && t in v.marks && !c.pcs[t].PopItem? ==> t in w.marks && w.marks[t] == v.marks[t])
  }

  lemma ViewStepped(c: Config, v: View, t: Tid)
    requires Running(c, t)
    ensures Stepped(c, v, Step(c, t), ViewStep(c, v, t))
  {
  }

  lemma InvKnows(c: Config, v: View, t: Tid)
    requires Inv(c, v) && Running(c, t)
    ensures Knows(c, v, t)
  {
  }

  lemma MoveRefines(c: Config, d: Config, v: View, e: Event) returns (w: View)
    requires Inv(c, v) && Moves(c, d, e)
    ensures Inv(d, w) && Next(Lifo, Abs(c, v), Abs(d, w), e) && Stepped(c, v, d, w)
  {
    hide Inv, Abs, Step, ViewStep, Commit, TakesEffect, Running;
    if e.Internal? {
      var t :| Running(c, t) && d == Step(c, t);
      w := ViewStep(c, v, t);
      StepKeeps(c, v, t);
      InvKnows(c, v, t);
      ViewStepped(c, v, t);
      if TakesEffect(c, t) { EffectCommits(c, v, t); } else { OthersStutter(c, v, t); }
    } else {
      w := v;
      CallKeeps(c, d, v, e);
      CallRefines(c, d, v, e);
    }
  }

  lemma StartsWell(c: Config)
    requires Start(c)
    ensures Inv(c, View([], 0, map[])) && Initial(Abs(c, View([], 0, map[])))
  {
  }

  /** The views along a run. */
  ghost predicate Viewed(run: seq<Config>, objects: seq<Object>, views: seq<View>) {
    && |views| == |objects| == |run|
    && (forall j :: 0 <= j < |run| ==> Inv(run[j], views[j]) && objects[j] == Abs(run[j], views[j]))
    && (forall j :: 0 <= j < |run| - 1 ==> Stepped(run[j], views[j], run[j + 1], views[j + 1]))
  }

  lemma ViewedGrows(run: seq<Config>, objects: seq<Object>, views: seq<View>, d: Config, w: View)
    requires run != [] && Viewed(run, objects, views) && Inv(d, w) && Stepped(run[|run| - 1], views[|run| - 1], d, w)
    ensures Viewed(run + [d], objects + [Abs(d, w)], views + [w])
  {
    hide Inv, Stepped, Abs;
  }

  lemma {:induction false} Implements(run: seq<Config>, events: seq<Event>)
    returns (objects: seq<Object>, views: seq<View>)
    requires Run(run, events)
    ensures Behaviour(Lifo, objects, events) && objects[0].free == run[0].free && Viewed(run, objects, views)
  {
    hide Inv, Stepped;
    var n := |events|;
    if n == 0 {
      var v := View([], 0, map[]);
      objects, views := [Abs(run[0], v)], [v];
      StartsWell(run[0]);
    } else {
      objects, views := Implements(run[..n], events[..n - 1]);
      assert Moves(run[n - 1], run[n], events[n - 1]);
      var v := views[n - 1];
      assert run[..n][n - 1] == run[n - 1];
      var w := MoveRefines(run[n - 1], run[n], v, events[n - 1]);
      BehaviourGrows(Lifo, objects, events[..n - 1], Abs(run[n], w), events[n - 1]);
      ViewedGrows(run[..n], objects, views, run[n], w);
      objects, views := objects + [Abs(run[n], w)], views + [w];
      assert events == events[..n - 1] + [events[n - 1]];
      assert run == run[..n] + [run[n]];
    }
  }

  /** Linearizability: whatever the threads do, callers see an atomic stack. */
  lemma Linearizable(run: seq<Config>, events: seq<Event>)
    requires Run(run, events)
    ensures exists objects: seq<Object> :: Behaviour(Lifo, objects, events) && objects[0].free == run[0].free
  {
    var objects, views := Implements(run, events);
  }

  /** Thread t reads the item of its pop right after position k and has not started over since. */
  ghost predicate ReadsAt(run: seq<Config>, t: Tid, k: nat) {
    && k + 1 < |run| && t in run[k].pcs && run[k].pcs[t].PopItem? && t in run[k + 1].pcs && run[k + 1].pcs[t].PopNext?
    && forall j :: k < j < |run| ==> t in run[j].pcs && (run[j].pcs[t].PopNext? || run[j].pcs[t].PopCas?)
  }

  lemma {:induction false} MarkKept(run: seq<Config>, objects: seq<Object>, views: seq<View>, t: Tid, k: nat, j: nat)
    requires Viewed(run, objects, views) && ReadsAt(run, t, k) && k < j < |run|
    ensures t in views[j].marks && views[j].marks[t].changes == views[k].changes <= views[j].changes
    ensures views[j].changes == views[k].changes ==> forall i :: k <= i <= j ==> views[i].stack == views[j].stack
  {
    hide Inv, Abs;
    assert Stepped(run[j - 1], views[j - 1], run[j], views[j]);
    if j > k + 1 {
      MarkKept(run, objects, views, t, k, j - 1);
    }
  }

  /** Why the counter is enough although push does not touch it: when the compare-and-set of a pop succeeds, the
      stack has not changed at all since the item was read, so what is installed is the true successor. */
  lemma PopUndisturbed(run: seq<Config>, events: seq<Event>, t: Tid, k: nat) returns (objects: seq<Object>)
    requires Run(run, events) && ReadsAt(run, t, k) && Pops(run[|events|], t)
    ensures Behaviour(Lifo, objects, events) && objects[0].free == run[0].free
    ensures forall i :: k <= i <= |events| ==> objects[i].contents == objects[|events|].contents
    ensures objects[|events|].contents != [] && run[|events|].pcs[t].item == objects[|events|].contents[0]
    ensures run[|events|].pcs[t].next == After(objects[|events|].contents, 0)
  {
    var views;
    objects, views := Implements(run, events);
    var n := |events|;
    CasUndisturbed(run[n], views[n], t);
    MarkKept(run, objects, views, t, k, n);
  }

  // ---------------------------------------------------------------- what callers are told

  /** From its successful CAS at position i on, thread t is busy with one and the same push up to position j. */
  ghost predicate OnePush(run: seq<Config>, t: Tid, i: nat, j: nat) {
    && i < j < |run| && t in run[i].pcs && run[i].pcs[t].PushCas?
    && forall k :: i < k <= j ==> t in run[k].pcs && run[k].pcs[t].PushDone?
  }

  lemma {:induction false} NextKept(run: seq<Config>, events: seq<Event>, t: Tid, i: nat, j: nat)
    requires Run(run, events) && OnePush(run, t, i, j)
    ensures run[j].pcs[t].next == run[i].head.item
  {
    hide Start;
    assert Moves(run[j - 1], run[j], events[j - 1]);
    if j > i + 1 { NextKept(run, events, t, i, j - 1); }
  }

  /** What push returns: the item that was on top at its CAS, and the sentinel exactly if the stack was empty. */
  lemma PushReportsTop(run: seq<Config>, events: seq<Event>, t: Tid, i: nat, j: nat)
    returns (objects: seq<Object>, views: seq<View>)
    requires Run(run, events) && OnePush(run, t, i, j) && j < |events| && events[j].ReturnPush? && events[j].t == t
    ensures Behaviour(Lifo, objects, events) && objects[0].free == run[0].free && Viewed(run, objects, views)
    ensures events[j].result == (if objects[i].contents == [] then Ghost else objects[i].contents[0])
    ensures events[j].result == Ghost <==> objects[i].contents == []
  {
    hide Start;
    objects, views := Implements(run, events);
    NextKept(run, events, t, i, j);
    assert Moves(run[j], run[j + 1], events[j]);
    assert Inv(run[i], views[i]);
  }

  /** An item that a pop returns points nowhere. */
  lemma PopClears(run: seq<Config>, events: seq<Event>, j: nat)
    requires Run(run, events) && j < |events| && events[j].ReturnPop? && events[j].result != Null
    ensures events[j].result.Node? && NextOf(run[j], events[j].result) == Null
  {
    var objects, views := Implements(run, events);
    assert Moves(run[j], run[j + 1], events[j]);
    assert Local(run[j], views[j], events[j].t);
  }

  // ---------------------------------------------------------------- operations that run alone

  /** n steps of thread t, or fewer if its operation ends before. */
  ghost function Solo(c: Config, t: Tid, n: nat): Config
    decreases n
  {
    if n == 0 || !Running(c, t) then c else Solo(Step(c, t), t, n - 1)
  }

  /** Thread t ends its operation within n steps of its own, with pc. */
  ghost predicate Ends(c: Config, t: Tid, n: nat, pc: Pc) {
    t in Solo(c, t, n).pcs && Solo(c, t, n).pcs[t] == pc && (pc.PushDone? || pc.PopDone?)
  }

  lemma EndsNow(c: Config, t: Tid)
    requires t in c.pcs && (c.pcs[t].PushDone? || c.pcs[t].PopDone?)
    ensures Ends(c, t, 0, c.pcs[t])
  {
  }

  lemma EndsNext(c: Config, t: Tid, n: nat, pc: Pc)
    requires Running(c, t) && Ends(Step(c, t), t, n, pc)
    ensures Ends(c, t, n + 1, pc)
  {
    hide Step;
  }

  lemma {:induction false} EndsLater(c: Config, t: Tid, n: nat, m: nat, pc: Pc)
    requires Ends(c, t, n, pc) && n <= m
    ensures Ends(c, t, m, pc)
    decreases n
  {
    hide Step;
    if n > 0 && Running(c, t) { EndsLater(Step(c, t), t, n - 1, m - 1, pc); }
  }

  function Top(s: seq<Ptr>): Ptr { if s == [] then Null else s[0] }

  lemma PushCasEnds(c: Config, t: Tid)
    requires Pushes(c, t)
    ensures Ends(c, t, 1, PushDone(c.head.item))
  {
    EndsNow(Step(c, t), t);
    EndsNext(c, t, 0, PushDone(c.head.item));
  }

  lemma PushReadEnds(c: Config, t: Tid)
    requires Running(c, t) && c.pcs[t].PushRead?
    ensures Ends(c, t, 3, PushDone(c.head.item))
  {
    hide Ends, Solo;
    var c1 := Step(c, t);
    PushCasEnds(Step(c1, t), t);
    EndsNext(c1, t, 1, PushDone(c.head.item));
    EndsNext(c, t, 2, PushDone(c.head.item));
  }

  /** A push ends after five steps of its own at most, with the top as it is if nobody else moves. */
  lemma PushEnds(c: Config, t: Tid)
    requires Running(c, t) && OpOf(c.pcs[t]).Pushing?
    ensures Ends(c, t, 5, PushDone(c.head.item))
  {
    hide Ends, Solo;
    var r := PushDone(c.head.item);
    var c1 := Step(c, t);
    match c.pcs[t]
    case PushRead(_) =>
      PushReadEnds(c, t);
      EndsLater(c, t, 3, 5, r);
    case PushStore(_, nx) =>
      if c.head.item == nx {
        PushCasEnds(c1, t);
        EndsNext(c, t, 1, r);
        EndsLater(c, t, 2, 5, r);
      } else {
        PushReadEnds(Step(c1, t), t);
        EndsNext(c1, t, 3, r);
        EndsNext(c, t, 4, r);
      }
    case PushCas(_, nx) =>
      if c.head.item == nx {
        PushCasEnds(c, t);
        EndsLater(c, t, 1, 5, r);
      } else {
        PushReadEnds(c1, t);
        EndsNext(c, t, 3, r);
        EndsLater(c, t, 4, 5, r);
      }
  }

  lemma ClearEnds(c: Config, t: Tid)
    requires Running(c, t) && c.pcs[t].PopClear?
    ensures Ends(c, t, 1, PopDone(c.pcs[t].item))
  {
    EndsNow(Step(c, t), t);
    EndsNext(c, t, 0, PopDone(c.pcs[t].item));
  }

  lemma PopCasEnds(c: Config, t: Tid)
    requires Pops(c, t)
    ensures Ends(c, t, 2, PopDone(c.pcs[t].item))
  {
    ClearEnds(Step(c, t), t);
    EndsNext(c, t, 1, PopDone(c.pcs[t].item));
  }

  lemma CountEnds(c: Config, v: View, t: Tid)
    requires Shape(c, v) && Running(c, t) && c.pcs[t].PopCount?
    ensures Ends(c, t, 5, PopDone(Top(v.stack)))
  {
    hide Ends, Solo;
    var r := PopDone(Top(v.stack));
    var c1 := Step(c, t);
    var c2 := Step(c1, t);
    if v.stack == [] {
      EndsNow(c2, t);
      EndsNext(c1, t, 0, r);
      EndsNext(c, t, 1, r);
      EndsLater(c, t, 2, 5, r);
    } else {
      PopCasEnds(Step(c2, t), t);
      EndsNext(c2, t, 2, r);
      EndsNext(c1, t, 3, r);
      EndsNext(c, t, 4, r);
    }
  }

  lemma QuietPop(c: Config, v: View, t: Tid)
    requires Shape(c, v) && Running(c, t) && OpOf(c.pcs[t]).Popping? && !Pops(c, t)
    ensures Shape(Step(c, t), v)
  {
  }

  /** A pop ends after eight steps of its own at most; one that starts takes the top. */
  lemma PopEnds(c: Config, v: View, t: Tid)
    requires Shape(c, v) && Running(c, t) && !OpOf(c.pcs[t]).Pushing?
    ensures exists r :: Ends(c, t, 8, PopDone(r))
    ensures c.pcs[t].PopCount? ==> Ends(c, t, 8, PopDone(Top(v.stack)))
  {
    hide Ends, Solo, Shape;
    match c.pcs[t]
    case PopCount =>
      CountEnds(c, v, t);
      EndsLater(c, t, 5, 8, PopDone(Top(v.stack)));
    case PopItem(_) => ItemEnds(c, v, t);
    case PopNext(_, _) =>
      QuietPop(c, v, t);
      CasEnds(Step(c, t), v, t);
      var r :| Ends(Step(c, t), t, 6, PopDone(r));
      EndsNext(c, t, 6, PopDone(r));
      EndsLater(c, t, 7, 8, PopDone(r));
    case PopCas(_, _, _) =>
      CasEnds(c, v, t);
      var r :| Ends(c, t, 6, PopDone(r));
      EndsLater(c, t, 6, 8, PopDone(r));
    case PopClear(x) =>
      ClearEnds(c, t);
      EndsLater(c, t, 1, 8, PopDone(x));
  }

  lemma ItemEnds(c: Config, v: View, t: Tid)
    requires Shape(c, v) && Running(c, t) && c.pcs[t].PopItem?
    ensures exists r :: Ends(c, t, 8, PopDone(r))
  {
    hide Ends, Solo, Shape;
    var c1 := Step(c, t);
    if c1.pcs[t].PopDone? {
      EndsNow(c1, t);
      EndsNext(c, t, 0, c1.pcs[t]);
      EndsLater(c, t, 1, 8, c1.pcs[t]);
    } else {
      QuietPop(c, v, t);
      QuietPop(c1, v, t);
      CasEnds(Step(c1, t), v, t);
      var r :| Ends(Step(c1, t), t, 6, PopDone(r));
      EndsNext(c1, t, 6, PopDone(r));
      EndsNext(c, t, 7, PopDone(r));
    }
  }

  lemma CasEnds(c: Config, v: View, t: Tid)
    requires Shape(c, v) && Running(c, t) && c.pcs[t].PopCas?
    ensures exists r :: Ends(c, t, 6, PopDone(r))
  {
    hide Ends, Solo, Shape;
    if Pops(c, t) {
      PopCasEnds(c, t);
      EndsLater(c, t, 2, 6, PopDone(c.pcs[t].item));
    } else {
      QuietPop(c, v, t);
      CountEnds(Step(c, t), v, t);
      EndsNext(c, t, 5, PopDone(Top(v.stack)));
    }
  }

  /** Progress at any point of any run, whatever the other threads have left undone: an operation that runs alone ends,
      a push with the top of the stack, and a pop that starts with the top, or NULL if there is none. */
  lemma EndsAlone(run: seq<Config>, events: seq<Event>, t: Tid) returns (objects: seq<Object>, views: seq<View>)
    requires Run(run, events) && Running(run[|events|], t)
    ensures Behaviour(Lifo, objects, events) && objects[0].free == run[0].free && Viewed(run, objects, views)
    ensures var c := run[|events|];
      if OpOf(c.pcs[t]).Pushing? then Ends(c, t, 5, PushDone(c.head.item))
      else (exists r :: Ends(c, t, 8, PopDone(r)))
           && (c.pcs[t].PopCount? ==> Ends(c, t, 8, PopDone(Top(objects[|events|].contents))))
  {
    hide Ends, Start, Stepped, Shape;
    objects, views := Implements(run, events);
    var c, v := run[|events|], views[|events|];
    assert Inv(c, v);
    if OpOf(c.pcs[t]).Pushing? { PushEnds(c, t); } else { PopEnds(c, v, t); }
  }
}
