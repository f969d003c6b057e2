/**
 The LIFO without a 128-bit compare-and-set (opal_lifo.h): each item's item_free word is a small lock
 that keeps the item from being popped while another thread may still follow its next pointer.
 */
module LifoLocked {
  import opened ContainerSpec

  datatype Pc =
    | Idle
    | PushLock(item: Ptr)
    | PushRead(item: Ptr)
    | PushStore(item: Ptr, next: Ptr)
    | PushCas(item: Ptr, next: Ptr)
    | PushUnlock(item: Ptr, next: Ptr)
    | PushDone(next: Ptr)
    | PopRead
    | PopSwap(item: Ptr)
    | PopNext(item: Ptr)
    | PopCas(item: Ptr, next: Ptr)
    | PopUnlock(item: Ptr)
    | PopClear(item: Ptr)
    | PopDone(result: Ptr)

  /** busy: the items whose item_free word is 1. Items that were never pushed may start either way. */
  datatype Config = Config(head: Ptr, next: map<Ptr, Ptr>, busy: set<Ptr>, pcs: map<Tid, Pc>, free: set<Ptr>)

  function NextOf(c: Config, p: Ptr): Ptr { if p in c.next then c.next[p] else Null }

  function Goto(c: Config, t: Tid, pc: Pc): Config { c.(pcs := c.pcs[t := pc]) }

  function Store(c: Config, p: Ptr, q: Ptr): Config { c.(next := c.next[p := q]) }

  predicate Running(c: Config, t: Tid) {
    t in c.pcs && !c.pcs[t].Idle? && !c.pcs[t].PushDone? && !c.pcs[t].PopDone?
  }

  function Step(c: Config, t: Tid): Config
    requires Running(c, t)
  {
    match c.pcs[t]
    case PushLock(x) => Goto(c.(busy := c.busy + {x}), t, PushRead(x))
    case PushRead(x) => Goto(c, t, PushStore(x, c.head))
    case PushStore(x, nx) => Goto(Store(c, x, nx), t, PushCas(x, nx))
    case PushCas(x, nx) => if c.head == nx then Goto(c.(head := x), t, PushUnlock(x, nx)) else Goto(c, t, PushRead(x))
    case PushUnlock(x, nx) => Goto(c.(busy := c.busy - {x}), t, PushDone(nx))
    case PopRead => if c.head == Ghost then Goto(c, t, PopDone(Null)) else Goto(c, t, PopSwap(c.head))
    case PopSwap(x) => if x in c.busy then Goto(c, t, PopRead) else Goto(c.(busy := c.busy + {x}), t, PopNext(x))
    case PopNext(x) => Goto(c, t, PopCas(x, NextOf(c, x)))
    case PopCas(x, nx) => if c.head == x then Goto(c.(head := nx), t, PopClear(x)) else Goto(c, t, PopUnlock(x))
    case PopUnlock(x) => Goto(c.(busy := c.busy - {x}), t, PopRead)
    case PopClear(x) => Goto(Store(c, x, Null), t, PopDone(x))
  }

  ghost predicate Moves(c: Config, d: Config, e: Event) {
    match e
    case InvokePush(t, x) =>
      t in c.pcs && c.pcs[t].Idle? && x in c.free && d == Goto(c, t, PushLock(x)).(free := c.free - {x})
    case InvokePop(t) => t in c.pcs && c.pcs[t].Idle? && d == Goto(c, t, PopRead)
    case ReturnPush(t, r) => t in c.pcs && c.pcs[t] == PushDone(r) && d == Goto(c, t, Idle)
    case ReturnPop(t, r) =>
      t in c.pcs && c.pcs[t] == PopDone(r) &&
      d == Goto(c, t, Idle).(free := if r.Node? then c.free + {r} else c.free)
    case Internal => exists t :: Running(c, t) && d == Step(c, t)
  }

  ghost predicate Start(c: Config) {
    && c.head == Ghost
    && (forall t :: t in c.pcs ==> c.pcs[t].Idle?)
    && (forall x :: x in c.free ==> x.Node?)
  }

  ghost predicate Run(run: seq<Config>, events: seq<Event>) {
    && |run| == |events| + 1
    && Start(run[0])
    && forall i :: 0 <= i < |events| ==> Moves(run[i], run[i + 1], events[i])
  }

  // ---------------------------------------------------------------- the invariant

  /** The abstract stack, and the items that have ever been on it. */
  datatype View = View(stack: seq<Ptr>, seen: set<Ptr>)

  /** An item the thread owns outright: not published yet, or already removed (Null if none). */
  function Mine(pc: Pc): Ptr {
    match pc
    case PushLock(x) => x
    case PushRead(x) => x
    case PushStore(x, _) => x
    case PushCas(x, _) => x
    case PopClear(x) => x
    case PopDone(r) => r
    case _ => Null
  }

  /** An item on the stack whose lock the thread holds (Null if none). */
  function Holds(pc: Pc): Ptr {
    match pc
    case PushUnlock(x, _) => x
    case PopNext(x) => x
    case PopCas(x, _) => x
    case PopUnlock(x) => x
    case _ => Null
  }

  function After(s: seq<Ptr>, i: nat): Ptr { if i + 1 < |s| then s[i + 1] else Ghost }

  ghost predicate Shape(c: Config, v: View) {
    && (forall i :: 0 <= i < |v.stack| ==> v.stack[i].Node? && v.stack[i] in v.seen)
    && (forall i, j :: 0 <= i < j < |v.stack| ==> v.stack[i] != v.stack[j])
    && c.head == (if v.stack == [] then Ghost else v.stack[0])
    && (forall i :: 0 <= i < |v.stack| ==> NextOf(c, v.stack[i]) == After(v.stack, i))
    && Unlocked(c, v)
  }

  /** An item that has been on the stack and is not busy is on the stack. */
  ghost predicate Unlocked(c: Config, v: View) {
    forall x :: x in v.seen && x !in c.busy ==> x in v.stack
  }

  ghost predicate Ownership(c: Config, v: View) {
    && (forall x :: x in c.free ==> x.Node? && x !in v.stack)
    && (forall t :: t in c.pcs && Mine(c.pcs[t]) != Null ==>
          Mine(c.pcs[t]).Node? && Mine(c.pcs[t]) !in c.free && Mine(c.pcs[t]) !in v.stack)
    && (forall t, u :: t in c.pcs && u in c.pcs && t != u && Mine(c.pcs[t]) != Null ==>
              Mine(c.pcs[t]) != Mine(c.pcs[u]))
  }

  /** No two threads hold the same item. */
  ghost predicate Exclusive(c: Config) {
    forall t, u :: t in c.pcs && u in c.pcs && t != u && Holds(c.pcs[t]) != Null ==> Holds(c.pcs[t]) != Holds(c.pcs[u])
  }

  /** An item on the stack is busy only as long as a thread holds it. */
  ghost predicate BusyHeld(c: Config, v: View) {
    forall x :: x in v.stack && x in c.busy ==> exists t :: t in c.pcs && Holds(c.pcs[t]) == x
  }

  ghost predicate Local(c: Config, v: View, t: Tid)
    requires t in c.pcs
  {
    match c.pcs[t]
    case PushLock(x) => x.Node?
    case PushRead(x) => x.Node? && x in c.busy
    case PushStore(x, nx) => x.Node? && x in c.busy
    case PushCas(x, nx) => x.Node? && x in c.busy && NextOf(c, x) == nx
    case PushUnlock(x, _) => x.Node? && x in c.busy && x in v.stack
    case PopSwap(x) => x.Node? && x in v.seen
    case PopNext(x) => x.Node? && x in c.busy && x in v.stack
    case PopCas(x, nx) => x.Node? && x in c.busy && x in v.stack && NextOf(c, x) == nx
    case PopUnlock(x) => x.Node? && x in c.busy && x in v.stack
    case PopClear(x) => x.Node? && x in c.busy
    case PopDone(r) => r == Null || (r.Node? && NextOf(c, r) == Null)
    case _ => true
  }

  ghost predicate Inv(c: Config, v: View) {
    Shape(c, v) && Ownership(c, v) && Exclusive(c) && BusyHeld(c, v) && forall t :: t in c.pcs ==> Local(c, v, t)
  }

  ghost predicate Knows(c: Config, v: View, t: Tid) {
    Shape(c, v) && t in c.pcs && Local(c, v, t)
  }

  predicate Pushes(c: Config, t: Tid) { Running(c, t) && c.pcs[t].PushCas? && c.head == c.pcs[t].next }

  predicate Pops(c: Config, t: Tid) { Running(c, t) && c.pcs[t].PopCas? && c.head == c.pcs[t].item }

  function ViewStep(c: Config, v: View, t: Tid): View
    requires Running(c, t)
  {
    if Pushes(c, t) then View([c.pcs[t].item] + v.stack, v.seen + {c.pcs[t].item})
    else if Pops(c, t) then v.(stack := if v.stack == [] then [] else v.stack[1..])
    else v
  }

  // ---------------------------------------------------------------- preservation

  /** A successful pop CAS removes the top of the stack and installs its true successor. */
  lemma CasTakesTop(c: Config, v: View, t: Tid)
    requires Knows(c, v, t) && Pops(c, t)
    ensures v.stack != [] && c.pcs[t].item == v.stack[0] && c.pcs[t].next == After(v.stack, 0)
  {
  }

  /** Apart from the stack it may push or pop, a step touches only words of the item it owns or locks. */
  lemma Frame(c: Config, v: View, t: Tid, p: Ptr)
    requires Running(c, t)
    ensures p != Mine(c.pcs[t]) ==> NextOf(Step(c, t), p) == NextOf(c, p)
    ensures p in c.busy && p != Holds(c.pcs[t]) ==> p in Step(c, t).busy
    ensures v.seen <= ViewStep(c, v, t).seen
    ensures p in v.stack && !(Pops(c, t) && p == c.pcs[t].item) && (Pops(c, t) ==> v.stack[0] == c.pcs[t].item) ==>
              p in ViewStep(c, v, t).stack
  {
    if Pops(c, t) && p in v.stack && v.stack[0] == c.pcs[t].item {
      assert v.stack == [v.stack[0]] + v.stack[1..];
    }
  }

  lemma OtherKept(c: Config, v: View, t: Tid, u: Tid)
    requires Knows(c, v, t) && Running(c, t) && u != t && Knows(c, v, u)
    requires Mine(c.pcs[u]) != Null ==> Mine(c.pcs[u]) != Mine(c.pcs[t]) && Mine(c.pcs[u]) !in v.stack
    requires Holds(c.pcs[u]) != Null ==> Holds(c.pcs[u]) != Holds(c.pcs[t])
    requires Mine(c.pcs[t]) != Null ==> Mine(c.pcs[t]) !in v.stack
    ensures Local(Step(c, t), ViewStep(c, v, t), u)
  {
    hide Shape, ViewStep, NextOf;
    if Pops(c, t) { CasTakesTop(c, v, t); }
    Frame(c, v, t, Mine(c.pcs[u]));
    Frame(c, v, t, Holds(c.pcs[u]));
  }

  lemma SelfKept(c: Config, v: View, t: Tid)
    requires Knows(c, v, t) && Running(c, t)
    ensures Local(Step(c, t), ViewStep(c, v, t), t)
  {
    if Pushes(c, t) { assert ViewStep(c, v, t).stack[0] == c.pcs[t].item; }
  }

  lemma PushEffect(c: Config, v: View, t: Tid)
    requires Knows(c, v, t) && Pushes(c, t)
    ensures var x := c.pcs[t].item;
      && Step(c, t) == Goto(c.(head := x), t, PushUnlock(x, c.pcs[t].next)) && x.Node? && NextOf(c, x) == c.head
      && ViewStep(c, v, t) == View([x] + v.stack, v.seen + {x})
  {
  }

  lemma PushShape(c: Config, v: View, t: Tid)
    requires Knows(c, v, t) && Pushes(c, t) && Mine(c.pcs[t]) !in v.stack
    ensures Shape(Step(c, t), ViewStep(c, v, t))
  {
    hide Step, ViewStep, Shape, Local;
    PushEffect(c, v, t);
    TopShape(c, Step(c, t), v, c.pcs[t].item);
  }

  /** The stack with a new top that points to the old one. */
  lemma TopShape(c: Config, c': Config, v: View, x: Ptr)
    requires Shape(c, v) && x.Node? && x !in v.stack && NextOf(c, x) == c.head
    requires c'.next == c.next && c'.busy == c.busy && c'.head == x
    ensures Shape(c', View([x] + v.stack, v.seen + {x}))
  {
    var s, s' := v.stack, [x] + v.stack;
    assert forall i :: 0 < i < |s'| ==> s'[i] == s[i - 1] && After(s', i) == After(s, i - 1);
  }

  lemma PopEffect(c: Config, v: View, t: Tid)
    requires Pops(c, t) && v.stack != []
    ensures Step(c, t) == Goto(c.(head := c.pcs[t].next), t, PopClear(c.pcs[t].item))
    ensures ViewStep(c, v, t) == View(v.stack[1..], v.seen)
  {
  }

  lemma PopBusy(c: Config, v: View, t: Tid)
    requires Knows(c, v, t) && Pops(c, t)
    ensures c.pcs[t].item in c.busy
  {
  }

  lemma PopShape(c: Config, v: View, t: Tid)
    requires Knows(c, v, t) && Pops(c, t)
    ensures Shape(Step(c, t), ViewStep(c, v, t))
  {
    hide Step, ViewStep, Shape, Local;
    CasTakesTop(c, v, t);
    PopEffect(c, v, t);
    PopBusy(c, v, t);
    RestShape(c, Step(c, t), v);
  }

  /** The stack without its top, which is busy. */
  lemma RestShape(c: Config, c': Config, v: View)
    requires Shape(c, v) && v.stack != [] && v.stack[0] in c.busy
    requires c'.next == c.next && c'.busy == c.busy && c'.head == After(v.stack, 0)
    ensures Shape(c', View(v.stack[1..], v.seen))
  {
    var s, s' := v.stack, v.stack[1..];
    forall i | 0 <= i < |s'| ensures s'[i].Node? && s'[i] in v.seen && NextOf(c', s'[i]) == After(s', i) {
      assert s'[i] == s[i + 1] && After(s', i) == After(s, i + 1);
    }
    forall i, j | 0 <= i < j < |s'| ensures s'[i] != s'[j] {
      assert s'[i] == s[i + 1] && s'[j] == s[j + 1];
    }
    assert Unlocked(c', View(s', v.seen)) by { assert s == [s[0]] + s'; }
  }

  lemma QuietShape(c: Config, v: View, t: Tid)
    requires Knows(c, v, t) && Running(c, t) && (Mine(c.pcs[t]) != Null ==> Mine(c.pcs[t]) !in v.stack)
    requires !Pushes(c, t) && !Pops(c, t)
    ensures Shape(Step(c, t), v)
  {
    forall i | 0 <= i < |v.stack| ensures NextOf(Step(c, t), v.stack[i]) == After(v.stack, i) {
      Frame(c, v, t, v.stack[i]);
    }
  }

  /** A thread comes to hold only what it held, what it just published, or an item that was not busy. */
  lemma HoldsAfter(c: Config, t: Tid)
    requires Running(c, t)
    ensures Holds(Step(c, t).pcs[t]) in {Null, Holds(c.pcs[t]), Mine(c.pcs[t])} || Holds(Step(c, t).pcs[t]) !in c.busy
  {
  }

  lemma ExclusiveKept(c: Config, c': Config, t: Tid)
    requires Exclusive(c) && t in c.pcs && t in c'.pcs && c'.pcs == c.pcs[t := c'.pcs[t]]
    requires Holds(c'.pcs[t]) in {Null, Holds(c.pcs[t])} ||
             forall u :: u in c.pcs && Holds(c.pcs[u]) != Null ==> Holds(c.pcs[u]) != Holds(c'.pcs[t])
    ensures Exclusive(c')
  {
  }

  lemma QuietOwnership(c: Config, v: View, c': Config, t: Tid)
    requires Ownership(c, v) && t in c.pcs && t in c'.pcs && c'.pcs == c.pcs[t := c'.pcs[t]]
    requires Mine(c'.pcs[t]) == Mine(c.pcs[t]) && c'.free == c.free
    ensures Ownership(c', v)
  {
  }

  lemma PushOwnership(c: Config, v: View, t: Tid)
    requires Ownership(c, v) && Pushes(c, t) && c.pcs[t].item.Node?
    ensures Ownership(Step(c, t), ViewStep(c, v, t))
  {
    var x := Mine(c.pcs[t]);
    assert forall y :: y in [x] + v.stack <==> y == x || y in v.stack;
  }

  lemma PopOwnership(c: Config, v: View, t: Tid)
    requires Ownership(c, v) && Pops(c, t) && v.stack != [] && c.pcs[t].item == v.stack[0] && v.stack[0].Node?
    requires v.stack[0] !in v.stack[1..]
    ensures Ownership(Step(c, t), ViewStep(c, v, t))
  {
    assert v.stack == [v.stack[0]] + v.stack[1..];
    assert v.stack[0] in v.stack;
  }

  lemma OwnershipKept(c: Config, v: View, t: Tid)
    requires Ownership(c, v) && Knows(c, v, t) && Running(c, t)
    ensures Ownership(Step(c, t), ViewStep(c, v, t))
  {
    hide Ownership, Shape, Unlocked;
    if Pushes(c, t) {
      PushOwnership(c, v, t);
    } else if Pops(c, t) {
      CasTakesTop(c, v, t);
      TopOnce(c, v);
      PopOwnership(c, v, t);
    } else {
      QuietStep(c, v, t);
      QuietOwnership(c, v, Step(c, t), t);
    }
  }

  lemma QuietStep(c: Config, v: View, t: Tid)
    requires Running(c, t) && !Pushes(c, t) && !Pops(c, t)
    ensures t in Step(c, t).pcs && Step(c, t).pcs == c.pcs[t := Step(c, t).pcs[t]] && ViewStep(c, v, t) == v
    ensures Mine(Step(c, t).pcs[t]) == Mine(c.pcs[t]) && Step(c, t).free == c.free
  {
  }

  lemma TopOnce(c: Config, v: View)
    requires Shape(c, v) && v.stack != []
    ensures v.stack[0].Node? && v.stack[0] !in v.stack[1..]
  {
  }

  /** What a step does to the locks: an item that it leaves busy on the stack is held by t, or was so before and
      is not t's. */
  lemma BusyAfter(c: Config, v: View, t: Tid, x: Ptr)
    requires Knows(c, v, t) && Running(c, t) && (Mine(c.pcs[t]) != Null ==> Mine(c.pcs[t]) !in v.stack)
    requires x in ViewStep(c, v, t).stack && x in Step(c, t).busy
    ensures t in Step(c, t).pcs && Step(c, t).pcs == c.pcs[t := Step(c, t).pcs[t]]
    ensures Holds(Step(c, t).pcs[t]) == x || (x in v.stack && x in c.busy && Holds(c.pcs[t]) != x)
  {
    hide NextOf, After, Unlocked;
    if Pops(c, t) {
      CasTakesTop(c, v, t);
      TopOnce(c, v);
    }
  }

  lemma BusyHeldKept(c: Config, v: View, t: Tid)
    requires Knows(c, v, t) && Running(c, t) && (Mine(c.pcs[t]) != Null ==> Mine(c.pcs[t]) !in v.stack)
    requires BusyHeld(c, v)
    ensures BusyHeld(Step(c, t), ViewStep(c, v, t))
  {
    hide Step, ViewStep, Shape, Local;
    forall x | x in ViewStep(c, v, t).stack && x in Step(c, t).busy
      ensures exists u :: u in Step(c, t).pcs && Holds(Step(c, t).pcs[u]) == x
    {
      BusyAfter(c, v, t, x);
      if Holds(Step(c, t).pcs[t]) != x {
        var u :| u in c.pcs && Holds(c.pcs[u]) == x;
        assert u in Step(c, t).pcs && Holds(Step(c, t).pcs[u]) == x;
      }
    }
  }

  /** Every atomic step of every thread keeps the invariant. */
  lemma StepKeeps(c: Config, v: View, t: Tid)
    requires Inv(c, v) && Running(c, t)
    ensures Inv(Step(c, t), ViewStep(c, v, t))
  {
    assert Mine(c.pcs[t]) != Null ==> Mine(c.pcs[t]) !in v.stack;
    if Pushes(c, t) { PushShape(c, v, t); } else if Pops(c, t) { PopShape(c, v, t); } else { QuietShape(c, v, t); }
    HoldsAfter(c, t);
    ExclusiveKept(c, Step(c, t), t);
    OwnershipKept(c, v, t);
    BusyHeldKept(c, v, t);
    SelfKept(c, v, t);
    forall u | u in c.pcs && u != t ensures Local(Step(c, t), ViewStep(c, v, t), u) {
      OtherKept(c, v, t, u);
    }
  }

  // ---------------------------------------------------------------- linearizability

  function OpOf(pc: Pc): Op {
    match pc
    case Idle => Quiet
    case PushLock(x) => Pushing(x)
    case PushRead(x) => Pushing(x)
    case PushStore(x, _) => Pushing(x)
    case PushCas(x, _) => Pushing(x)
    case PushUnlock(_, nx) => Pushed(nx)
    case PushDone(nx) => Pushed(nx)
    case PopClear(x) => Popped(x)
    case PopDone(r) => Popped(r)
    case _ => Popping
  }

  function Abs(c: Config, v: View): Object {
    Object(v.stack, map t | t in c.pcs :: OpOf(c.pcs[t]), c.free)
  }

  lemma OpsAfter(c: Config, c': Config, v: View, v': View, t: Tid)
    requires t in c.pcs && t in c'.pcs && c'.pcs == c.pcs[t := c'.pcs[t]]
    ensures Abs(c', v').ops == Abs(c, v).ops[t := OpOf(c'.pcs[t])]
  {
  }

  /** The points at which operations take effect: a push at its CAS, a successful pop at its CAS, an
      empty pop at its read of the item. */
  predicate TakesEffect(c: Config, t: Tid) {
    Pushes(c, t) || Pops(c, t) || (Running(c, t) && c.pcs[t].PopRead? && c.head == Ghost)
  }

  lemma EffectCommits(c: Config, v: View, t: Tid)
    requires Knows(c, v, t) && TakesEffect(c, t)
    ensures Commit(Lifo, Abs(c, v), Abs(Step(c, t), ViewStep(c, v, t)), t)
  {
    OpsAfter(c, Step(c, t), v, ViewStep(c, v, t), t);
    if Pops(c, t) { CasTakesTop(c, v, t); }
  }

  lemma OthersStutter(c: Config, v: View, t: Tid)
    requires Running(c, t) && !TakesEffect(c, t)
    ensures Abs(Step(c, t), ViewStep(c, v, t)) == Abs(c, v)
  {
    assert OpOf(Step(c, t).pcs[t]) == OpOf(c.pcs[t]);
  }

  lemma CallKeeps(c: Config, d: Config, v: View, e: Event)
    requires Inv(c, v) && Moves(c, d, e) && !e.Internal?
    ensures Inv(d, v)
  {
    hide Shape, Ownership, Exclusive, BusyHeld, Holds, Mine;
    CallOwnership(c, d, v, e);
    CallShape(c, d, v, e);
    CallBusy(c, d, v, e);
    ExclusiveKept(c, d, e.t);
    forall u | u in c.pcs && u != e.t ensures Local(d, v, u) {
      CallOther(c, d, v, e, u);
    }
  }

  lemma CallShape(c: Config, d: Config, v: View, e: Event)
    requires Shape(c, v) && Ownership(c, v) && Moves(c, d, e) && !e.Internal?
    ensures Shape(d, v) && e.t in c.pcs && e.t in d.pcs && d.pcs == c.pcs[e.t := d.pcs[e.t]]
    ensures Holds(d.pcs[e.t]) == Null && Local(d, v, e.t)
  {
  }

  lemma CallBusy(c: Config, d: Config, v: View, e: Event)
    requires BusyHeld(c, v) && Moves(c, d, e) && !e.Internal?
    ensures BusyHeld(d, v)
  {
    forall x | x in v.stack && x in d.busy ensures exists t :: t in d.pcs && Holds(d.pcs[t]) == x {
      var t :| t in c.pcs && Holds(c.pcs[t]) == x;
      assert t != e.t ==> t in d.pcs && Holds(d.pcs[t]) == x;
      if x == Null { assert Holds(d.pcs[e.t]) == x; }
    }
  }

  lemma CallOther(c: Config, d: Config, v: View, e: Event, u: Tid)
    requires Knows(c, v, u) && Moves(c, d, e) && !e.Internal? && u != e.t
    ensures Local(d, v, u)
  {
  }

  lemma CallOwnership(c: Config, d: Config, v: View, e: Event)
    requires Ownership(c, v) && Moves(c, d, e) && !e.Internal?
    ensures Ownership(d, v)
  {
    assert e.ReturnPop? && e.result != Null ==> Mine(c.pcs[e.t]) == e.result;
  }

  lemma CallRefines(c: Config, d: Config, v: View, e: Event)
    requires Moves(c, d, e) && !e.Internal?
    ensures Next(Lifo, Abs(c, v), Abs(d, v), e)
  {
    OpsAfter(c, d, v, v, e.t);
  }

  lemma MoveRefines(c: Config, d: Config, v: View, e: Event) returns (w: View)
    requires Inv(c, v) && Moves(c, d, e)
    ensures Inv(d, w) && Next(Lifo, Abs(c, v), Abs(d, w), e) && v.seen <= w.seen
  {
    if e.Internal? {
      var t :| Running(c, t) && d == Step(c, t);
      w := ViewStep(c, v, t);
      StepKeeps(c, v, t);
      if TakesEffect(c, t) { EffectCommits(c, v, t); } else { OthersStutter(c, v, t); }
    } else {
      w := v;
      CallKeeps(c, d, v, e);
      CallRefines(c, d, v, e);
    }
  }

  lemma StartsWell(c: Config)
    requires Start(c)
    ensures Inv(c, View([], {})) && Initial(Abs(c, View([], {})))
  {
  }

  /** The views along a run, and the abstract run that they give. */
  ghost predicate Viewed(run: seq<Config>, objects: seq<Object>, views: seq<View>) {
    && |views| == |objects| == |run|
    && (forall j :: 0 <= j < |run| ==> Inv(run[j], views[j]) && objects[j] == Abs(run[j], views[j]))
    && (forall j :: 0 <= j < |run| ==> Seen(objects[j], views[|run| - 1]))
  }

  lemma ViewedGrows(run: seq<Config>, objects: seq<Object>, views: seq<View>, d: Config, w: View)
    requires run != [] && Viewed(run, objects, views) && Inv(d, w) && views[|run| - 1].seen <= w.seen
    ensures Viewed(run + [d], objects + [Abs(d, w)], views + [w])
  {
    hide Abs, Seen;
    var r, o, ws := run + [d], objects + [Abs(d, w)], views + [w];
    StackSeen(d, w);
    forall j | 0 <= j < |r| ensures Seen(o[j], ws[|r| - 1]) {
      if j < |run| { SeenMore(objects[j], views[|run| - 1], w); }
    }
  }

  lemma StackSeen(d: Config, w: View)
    requires Shape(d, w)
    ensures Seen(Abs(d, w), w)
  {
  }

  lemma {:induction false} Implements(run: seq<Config>, events: seq<Event>)
    returns (objects: seq<Object>, views: seq<View>)
    requires Run(run, events)
    ensures Behaviour(Lifo, objects, events) && objects[0].free == run[0].free && Viewed(run, objects, views)
  {
    hide Inv;
    var n := |events|;
    if n == 0 {
      var v := View([], {});
      objects, views := [Abs(run[0], v)], [v];
      StartsWell(run[0]);
    } else {
      objects, views := Implements(run[..n], events[..n - 1]);
      assert Moves(run[n - 1], run[n], events[n - 1]);
      assert run[..n][n - 1] == run[n - 1];
      var w := MoveRefines(run[n - 1], run[n], views[n - 1], events[n - 1]);
      BehaviourGrows(Lifo, objects, events[..n - 1], Abs(run[n], w), events[n - 1]);
      ViewedGrows(run[..n], objects, views, run[n], w);
      objects, views := objects + [Abs(run[n], w)], views + [w];
      assert events == events[..n - 1] + [events[n - 1]];
      assert run == run[..n] + [run[n]];
    }
  }

  /** Everything on the stack has been seen there. */
  ghost predicate Seen(a: Object, v: View) { forall x :: x in a.contents ==> x in v.seen }

  lemma SeenMore(a: Object, v: View, w: View)
    requires Seen(a, v) && v.seen <= w.seen
    ensures Seen(a, w)
  {
  }

  /** Linearizability: whatever the threads do, callers see an atomic stack. */
  lemma Linearizable(run: seq<Config>, events: seq<Event>)
    requires Run(run, events)
    ensures exists objects: seq<Object> :: Behaviour(Lifo, objects, events) && objects[0].free == run[0].free
  {
    var objects, views := Implements(run, events);
  }

  /** The item_free discipline, at the end of any run: an item that has ever been on the stack and is not busy
      is on the stack; an item on the stack is busy exactly if a thread holds it; what a thread holds is on the stack
      and held by no other thread. */
  lemma LockDiscipline(run: seq<Config>, events: seq<Event>) returns (objects: seq<Object>)
    requires Run(run, events)
    ensures Behaviour(Lifo, objects, events) && objects[0].free == run[0].free
    ensures forall k, x :: 0 <= k < |objects| && x in objects[k].contents && x !in run[|events|].busy ==>
              x in objects[|events|].contents
    ensures forall x :: x in objects[|events|].contents ==>
              (x in run[|events|].busy <==> exists t :: t in run[|events|].pcs && Holds(run[|events|].pcs[t]) == x)
    ensures forall t :: t in run[|events|].pcs && Holds(run[|events|].pcs[t]) != Null ==>
              Holds(run[|events|].pcs[t]) in objects[|events|].contents
    ensures Exclusive(run[|events|])
  {
    var views;
    objects, views := Implements(run, events);
    var c, v := run[|events|], views[|events|];
    assert Inv(c, v);
    forall k, x | 0 <= k < |objects| && x in objects[k].contents && x !in c.busy
      ensures x in objects[|events|].contents
    {
      assert Seen(objects[k], v);
    }
    forall t | t in c.pcs && Holds(c.pcs[t]) != Null ensures Holds(c.pcs[t]) in c.busy && Holds(c.pcs[t]) in v.stack {
      assert Local(c, v, t);
    }
  }

  /** While a thread holds an item, no step of another one changes its next pointer or unlocks it. */
  lemma HeldStable(run: seq<Config>, events: seq<Event>, t: Tid, u: Tid)
    requires Run(run, events) && t in run[|events|].pcs && u != t && Running(run[|events|], u)
    requires Holds(run[|events|].pcs[t]) != Null
    ensures NextOf(Step(run[|events|], u), Holds(run[|events|].pcs[t]))
         == NextOf(run[|events|], Holds(run[|events|].pcs[t]))
    ensures Holds(run[|events|].pcs[t]) in Step(run[|events|], u).busy
  {
    var objects, views := Implements(run, events);
    assert Inv(run[|events|], views[|events|]);
    assert Knows(run[|events|], views[|events|], t) && Knows(run[|events|], views[|events|], u);
    Frame(run[|events|], views[|events|], u, Holds(run[|events|].pcs[t]));
  }

  // ---------------------------------------------------------------- what callers are told

  /** From its successful CAS at position i on, thread t is busy with one and the same push up to position j. */
  ghost predicate OnePush(run: seq<Config>, t: Tid, i: nat, j: nat) {
    && i < j < |run| && t in run[i].pcs && run[i].pcs[t].PushCas?
    && forall k :: i < k <= j ==> t in run[k].pcs && (run[k].pcs[t].PushUnlock? || run[k].pcs[t].PushDone?)
  }

  lemma {:induction false} NextKept(run: seq<Config>, events: seq<Event>, t: Tid, i: nat, j: nat)
    requires Run(run, events) && OnePush(run, t, i, j)
    ensures run[j].pcs[t].next == run[i].head
  {
    hide Start;
    assert Moves(run[j - 1], run[j], events[j - 1]);
    if j > i + 1 { NextKept(run, events, t, i, j - 1); }
  }

  /** What push returns: the item that was on top at its CAS, and the sentinel exactly if the stack was empty. */
  lemma PushReportsTop(run: seq<Config>, events: seq<Event>, t: Tid, i: nat, j: nat)
    returns (objects: seq<Object>, views: seq<View>)
    requires Run(run, events) && OnePush(run, t, i, j) && j < |events| && events[j].ReturnPush? && events[j].t == t
    ensures Behaviour(Lifo, objects, events) && objects[0].free == run[0].free && Viewed(run, objects, views)
    ensures events[j].result == (if objects[i].contents == [] then Ghost else objects[i].contents[0])
    ensures events[j].result == Ghost <==> objects[i].contents == []
  {
    hide Start;
    objects, views := Implements(run, events);
    NextKept(run, events, t, i, j);
    assert Moves(run[j], run[j + 1], events[j]);
    assert Inv(run[i], views[i]);
  }

  /** An item that a pop returns points nowhere. */
  lemma PopClears(run: seq<Config>, events: seq<Event>, j: nat)
    requires Run(run, events) && j < |events| && events[j].ReturnPop? && events[j].result != Null
    ensures events[j].result.Node? && NextOf(run[j], events[j].result) == Null
  {
    var objects, views := Implements(run, events);
    assert Moves(run[j], run[j + 1], events[j]);
    assert Local(run[j], views[j], events[j].t);
  }

  // ---------------------------------------------------------------- operations that run alone

  /** n steps of thread t, or fewer if its operation ends before. */
  ghost function Solo(c: Config, t: Tid, n: nat): Config
    decreases n
  {
    if n == 0 || !Running(c, t) then c else Solo(Step(c, t), t, n - 1)
  }

  /** Thread t ends its operation within n steps of its own, with pc. */
  ghost predicate Ends(c: Config, t: Tid, n: nat, pc: Pc) {
    t in Solo(c, t, n).pcs && Solo(c, t, n).pcs[t] == pc && (pc.PushDone? || pc.PopDone?)
  }

  lemma EndsNow(c: Config, t: Tid)
    requires t in c.pcs && (c.pcs[t].PushDone? || c.pcs[t].PopDone?)
    ensures Ends(c, t, 0, c.pcs[t])
  {
  }

  lemma EndsNext(c: Config, t: Tid, n: nat, pc: Pc)
    requires Running(c, t) && Ends(Step(c, t), t, n, pc)
    ensures Ends(c, t, n + 1, pc)
  {
    hide Step;
  }

  lemma {:induction false} EndsLater(c: Config, t: Tid, n: nat, m: nat, pc: Pc)
    requires Ends(c, t, n, pc) && n <= m
    ensures Ends(c, t, m, pc)
    decreases n
  {
    hide Step;
    if n > 0 && Running(c, t) { EndsLater(Step(c, t), t, n - 1, m - 1, pc); }
  }

  function Top(s: seq<Ptr>): Ptr { if s == [] then Null else s[0] }

  lemma UnlockEnds(c: Config, t: Tid)
    requires Running(c, t) && c.pcs[t].PushUnlock?
    ensures Ends(c, t, 1, PushDone(c.pcs[t].next))
  {
    EndsNow(Step(c, t), t);
    EndsNext(c, t, 0, PushDone(c.pcs[t].next));
  }

  lemma PushCasEnds(c: Config, t: Tid)
    requires Pushes(c, t)
    ensures Ends(c, t, 2, PushDone(c.head))
  {
    UnlockEnds(Step(c, t), t);
    EndsNext(c, t, 1, PushDone(c.head));
  }

  lemma PushReadEnds(c: Config, t: Tid)
    requires Running(c, t) && c.pcs[t].PushRead?
    ensures Ends(c, t, 4, PushDone(c.head))
  {
    hide Ends, Solo;
    var c1 := Step(c, t);
    PushCasEnds(Step(c1, t), t);
    EndsNext(c1, t, 2, PushDone(c.head));
    EndsNext(c, t, 3, PushDone(c.head));
  }

  /** A push ends after six steps of its own at most, with the top as it is if nobody else moves. */
  lemma PushEnds(c: Config, t: Tid)
    requires Running(c, t) && OpOf(c.pcs[t]).Pushing?
    ensures Ends(c, t, 6, PushDone(c.head))
  {
    hide Ends, Solo;
    var r := PushDone(c.head);
    var c1 := Step(c, t);
    match c.pcs[t]
    case PushLock(_) =>
      PushReadEnds(c1, t);
      EndsNext(c, t, 4, r);
      EndsLater(c, t, 5, 6, r);
    case PushRead(_) =>
      PushReadEnds(c, t);
      EndsLater(c, t, 4, 6, r);
    case PushStore(_, nx) =>
      if c.head == nx {
        PushCasEnds(c1, t);
        EndsNext(c, t, 2, r);
        EndsLater(c, t, 3, 6, r);
      } else {
        PushReadEnds(Step(c1, t), t);
        EndsNext(c1, t, 4, r);
        EndsNext(c, t, 5, r);
      }
    case PushCas(_, nx) =>
      if c.head == nx {
        PushCasEnds(c, t);
        EndsLater(c, t, 2, 6, r);
      } else {
        PushReadEnds(c1, t);
        EndsNext(c, t, 4, r);
        EndsLater(c, t, 5, 6, r);
      }
  }

  /** No other thread holds an item. */
  predicate Calm(c: Config, t: Tid) { forall u :: u in c.pcs && u != t ==> Holds(c.pcs[u]) == Null }

  lemma ClearEnds(c: Config, t: Tid)
    requires Running(c, t) && c.pcs[t].PopClear?
    ensures Ends(c, t, 1, PopDone(c.pcs[t].item))
  {
    EndsNow(Step(c, t), t);
    EndsNext(c, t, 0, PopDone(c.pcs[t].item));
  }

  lemma PopCasEnds(c: Config, t: Tid)
    requires Pops(c, t)
    ensures Ends(c, t, 2, PopDone(c.pcs[t].item))
  {
    ClearEnds(Step(c, t), t);
    EndsNext(c, t, 1, PopDone(c.pcs[t].item));
  }

  /** The top of the stack is not busy then, and what is at the head is the top. */
  lemma CalmTop(c: Config, v: View, t: Tid)
    requires Inv(c, v) && t in c.pcs && Calm(c, t) && Holds(c.pcs[t]) == Null
    ensures c.head == (if v.stack == [] then Ghost else v.stack[0])
    ensures v.stack != [] ==> v.stack[0].Node? && v.stack[0] !in c.busy
  {
    if v.stack != [] { assert v.stack[0] in v.stack; }
  }

  lemma ReadEnds(c: Config, v: View, t: Tid)
    requires Inv(c, v) && Running(c, t) && Calm(c, t) && c.pcs[t].PopRead?
    ensures Ends(c, t, 5, PopDone(Top(v.stack)))
  {
    hide Inv, Ends, Solo;
    CalmTop(c, v, t);
    var r := PopDone(Top(v.stack));
    var c1 := Step(c, t);
    if v.stack == [] {
      EndsNow(c1, t);
      EndsNext(c, t, 0, r);
      EndsLater(c, t, 1, 5, r);
    } else {
      var c2 := Step(c1, t);
      PopCasEnds(Step(c2, t), t);
      EndsNext(c2, t, 2, r);
      EndsNext(c1, t, 3, r);
      EndsNext(c, t, 4, r);
    }
  }

  lemma CalmKept(c: Config, v: View, t: Tid)
    requires Inv(c, v) && Running(c, t) && Calm(c, t)
    ensures Calm(Step(c, t), t) && Inv(Step(c, t), ViewStep(c, v, t)) && t in Step(c, t).pcs
  {
    hide Inv, Holds;
    StepKeeps(c, v, t);
  }

  lemma UnlocksEnd(c: Config, v: View, t: Tid)
    requires Inv(c, v) && Running(c, t) && Calm(c, t) && c.pcs[t].PopUnlock?
    ensures exists r :: Ends(c, t, 6, PopDone(r))
  {
    hide Inv, Ends, Solo, Calm;
    CalmKept(c, v, t);
    ReadEnds(Step(c, t), ViewStep(c, v, t), t);
    EndsNext(c, t, 5, PopDone(Top(ViewStep(c, v, t).stack)));
  }

  lemma CasEnds(c: Config, v: View, t: Tid)
    requires Inv(c, v) && Running(c, t) && Calm(c, t) && c.pcs[t].PopCas?
    ensures exists r :: Ends(c, t, 7, PopDone(r))
  {
    hide Inv, Ends, Solo, Calm;
    if Pops(c, t) {
      PopCasEnds(c, t);
      EndsLater(c, t, 2, 7, PopDone(c.pcs[t].item));
    } else {
      CalmKept(c, v, t);
      UnlocksEnd(Step(c, t), ViewStep(c, v, t), t);
      var r :| Ends(Step(c, t), t, 6, PopDone(r));
      EndsNext(c, t, 6, PopDone(r));
    }
  }

  lemma NextEnds(c: Config, v: View, t: Tid)
    requires Inv(c, v) && Running(c, t) && Calm(c, t) && c.pcs[t].PopNext?
    ensures exists r :: Ends(c, t, 8, PopDone(r))
  {
    hide Inv, Ends, Solo, Calm;
    CalmKept(c, v, t);
    CasEnds(Step(c, t), ViewStep(c, v, t), t);
    var r :| Ends(Step(c, t), t, 7, PopDone(r));
    EndsNext(c, t, 7, PopDone(r));
  }

  lemma SwapEnds(c: Config, v: View, t: Tid)
    requires Inv(c, v) && Running(c, t) && Calm(c, t) && c.pcs[t].PopSwap?
    ensures exists r :: Ends(c, t, 9, PopDone(r))
  {
    hide Inv, Ends, Solo, Calm;
    CalmKept(c, v, t);
    var c', v' := Step(c, t), ViewStep(c, v, t);
    if c'.pcs[t].PopRead? {
      ReadEnds(c', v', t);
      EndsNext(c, t, 5, PopDone(Top(v'.stack)));
      EndsLater(c, t, 6, 9, PopDone(Top(v'.stack)));
    } else {
      NextEnds(c', v', t);
      var r :| Ends(c', t, 8, PopDone(r));
      EndsNext(c, t, 8, PopDone(r));
    }
  }

  /** A pop ends after nine steps of its own at most, if no other thread holds an item. */
  lemma PopEnds(c: Config, v: View, t: Tid)
    requires Inv(c, v) && Running(c, t) && Calm(c, t) && !OpOf(c.pcs[t]).Pushing? && !c.pcs[t].PushUnlock?
    ensures exists r :: Ends(c, t, 9, PopDone(r))
  {
    hide Inv, Ends, Solo, Calm, Step;
    match c.pcs[t]
    case PopRead =>
      ReadEnds(c, v, t);
      EndsLater(c, t, 5, 9, PopDone(Top(v.stack)));
    case PopSwap(_) => SwapEnds(c, v, t);
    case PopNext(_) =>
      NextEnds(c, v, t);
      var r :| Ends(c, t, 8, PopDone(r));
      EndsLater(c, t, 8, 9, PopDone(r));
    case PopCas(_, _) =>
      CasEnds(c, v, t);
      var r :| Ends(c, t, 7, PopDone(r));
      EndsLater(c, t, 7, 9, PopDone(r));
    case PopUnlock(_) =>
      UnlocksEnd(c, v, t);
      var r :| Ends(c, t, 6, PopDone(r));
      EndsLater(c, t, 6, 9, PopDone(r));
    case PopClear(x) =>
      ClearEnds(c, t);
      EndsLater(c, t, 1, 9, PopDone(x));
  }

  /** Progress at any point of any run: a push that runs alone ends with the top of the stack, whatever the others have
      left undone; a pop that runs alone ends unless another thread holds an item, and one that starts then takes the
      top, or returns NULL if there is none. */
  lemma EndsAlone(run: seq<Config>, events: seq<Event>, t: Tid) returns (objects: seq<Object>, views: seq<View>)
    requires Run(run, events) && Running(run[|events|], t)
    ensures Behaviour(Lifo, objects, events) && objects[0].free == run[0].free && Viewed(run, objects, views)
    ensures var c := run[|events|];
      && (OpOf(c.pcs[t]).Pushing? ==> Ends(c, t, 6, PushDone(c.head)))
      && (c.pcs[t].PushUnlock? ==> Ends(c, t, 1, PushDone(c.pcs[t].next)))
      && (c.pcs[t].PopRead? && Calm(c, t) ==> Ends(c, t, 5, PopDone(Top(objects[|events|].contents))))
      && (OpOf(c.pcs[t]).Popping? || c.pcs[t].PopClear? ==> Calm(c, t) ==> exists r :: Ends(c, t, 9, PopDone(r)))
  {
    hide Inv, Ends, Calm, Start;
    objects, views := Implements(run, events);
    var c, v := run[|events|], views[|events|];
    if OpOf(c.pcs[t]).Pushing? {
      PushEnds(c, t);
    } else if c.pcs[t].PushUnlock? {
      UnlockEnds(c, t);
    } else if Calm(c, t) {
      PopEnds(c, v, t);
      if c.pcs[t].PopRead? { ReadEnds(c, v, t); }
    }
  }
}
