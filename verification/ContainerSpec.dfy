/**
 Atomic containers and what it means to implement one.

 The lock-free lists of opal/class are specified by the canonical atomic object: an operation is
 invoked, takes effect at one instant between its invocation and its return, and returns what that
 instant decided. An implementation is linearizable when every event sequence it can produce is an
 event sequence of this object.
 */
module ContainerSpec {

  /** A list pointer: NULL, the container's own sentinel node, or an item supplied by a caller. */
  datatype Ptr = Null | Ghost | Node(id: nat)

  type Tid = nat

  /** Where an insertion goes; a removal always takes the front. */
  datatype Discipline = Fifo | Lifo

  datatype Event =
    | InvokePush(t: Tid, item: Ptr)
    | InvokePop(t: Tid)
    | ReturnPush(t: Tid, result: Ptr)
    | ReturnPop(t: Tid, result: Ptr)
    | Internal

  datatype Op = Quiet | Pushing(item: Ptr) | Pushed(result: Ptr) | Popping | Popped(result: Ptr)

  /** contents: the sequential container; ops: per-thread operation status; free: items held by callers. */
  datatype Object = Object(contents: seq<Ptr>, ops: map<Tid, Op>, free: set<Ptr>)

  function Insert(d: Discipline, s: seq<Ptr>, x: Ptr): seq<Ptr> {
    if d.Fifo? then s + [x] else [x] + s
  }

  /** What an insertion reports: the item it is put next to, or the sentinel if there is none. On an empty queue it
      may also be the item of a removal that has not returned yet. */
  predicate Reports(d: Discipline, a: Object, r: Ptr) {
    match d
    case Lifo => r == (if a.contents == [] then Ghost else a.contents[0])
    case Fifo =>
      if a.contents != [] then r == a.contents[|a.contents| - 1]
      else r == Ghost || (r.Node? && exists u :: u in a.ops && a.ops[u] == Popped(r))
  }

  /** Thread t's pending operation takes effect. */
  predicate Commit(d: Discipline, a: Object, b: Object, t: Tid) {
    && t in a.ops
    && b.free == a.free
    && match a.ops[t]
       case Pushing(x) =>
         && b.contents == Insert(d, a.contents, x) && t in b.ops && b.ops[t].Pushed? && Reports(d, a, b.ops[t].result)
         && b.ops == a.ops[t := b.ops[t]]
       case Popping =>
         if a.contents == [] then b.contents == [] && b.ops == a.ops[t := Popped(Null)]
         else b.contents == a.contents[1..] && b.ops == a.ops[t := Popped(a.contents[0])]
       case _ => false
  }

  ghost predicate Next(d: Discipline, a: Object, b: Object, e: Event) {
    match e
    case InvokePush(t, x) =>
      t in a.ops && a.ops[t].Quiet? && x in a.free &&
      b == Object(a.contents, a.ops[t := Pushing(x)], a.free - {x})
    case InvokePop(t) =>
      t in a.ops && a.ops[t].Quiet? && b == a.(ops := a.ops[t := Popping])
    case ReturnPush(t, r) =>
      t in a.ops && a.ops[t] == Pushed(r) && b == a.(ops := a.ops[t := Quiet])
    case ReturnPop(t, r) =>
      t in a.ops && a.ops[t] == Popped(r) &&
      b == Object(a.contents, a.ops[t := Quiet], if r.Node? then a.free + {r} else a.free)
    case Internal =>
      b == a || exists t :: Commit(d, a, b, t)
  }

  ghost predicate Initial(a: Object) {
    && a.contents == []
    && (forall t :: t in a.ops ==> a.ops[t].Quiet?)
    && (forall x :: x in a.free ==> x.Node?)
  }

  ghost predicate Behaviour(d: Discipline, run: seq<Object>, events: seq<Event>) {
    && |run| == |events| + 1
    && Initial(run[0])
    && forall i :: 0 <= i < |events| ==> Next(d, run[i], run[i + 1], events[i])
  }

  lemma BehaviourGrows(d: Discipline, run: seq<Object>, events: seq<Event>, b: Object, e: Event)
    requires Behaviour(d, run, events) && Next(d, run[|events|], b, e)
    ensures Behaviour(d, run + [b], events + [e])
  {
  }

  /** The item an operation keeps out of both the container and the callers' hands (Null if none). */
  function Held(op: Op): Ptr {
    match op
    case Pushing(x) => x
    case Popped(r) => r
    case _ => Null
  }

  /** No item is in two places: twice in the container, with callers too, or held by an operation too. */
  ghost predicate Unique(a: Object) {
    && (forall i :: 0 <= i < |a.contents| ==> a.contents[i].Node? && a.contents[i] !in a.free)
    && (forall i, j :: 0 <= i < j < |a.contents| ==> a.contents[i] != a.contents[j])
    && (forall x :: x in a.free ==> x.Node?)
    && (forall t :: t in a.ops && Held(a.ops[t]) != Null ==>
          Held(a.ops[t]).Node? && Held(a.ops[t]) !in a.contents && Held(a.ops[t]) !in a.free)
    && (forall t :: t in a.ops && a.ops[t].Pushing? ==> a.ops[t].item.Node?)
    && (forall t, u :: t in a.ops && u in a.ops && t != u && Held(a.ops[t]) != Null ==>
              Held(a.ops[t]) != Held(a.ops[u]))
  }

  /** The item is somewhere: with callers, in the container, or held by an operation. */
  ghost predicate Somewhere(a: Object, x: Ptr) {
    x in a.free || x in a.contents || exists t :: t in a.ops && Held(a.ops[t]) == x
  }

  lemma CommitUnique(d: Discipline, a: Object, b: Object, t: Tid)
    requires Unique(a) && Commit(d, a, b, t)
    ensures Unique(b)
  {
    assert Held(a.ops[t]) == if a.ops[t].Pushing? then a.ops[t].item else Null;
    if a.ops[t].Popping? && a.contents != [] {
      assert a.contents == [a.contents[0]] + b.contents;
    }
  }

  lemma CommitSomewhere(d: Discipline, a: Object, b: Object, t: Tid, x: Ptr)
    requires Commit(d, a, b, t) && x.Node? && Somewhere(a, x)
    ensures Somewhere(b, x)
  {
    if x in a.contents {
      if a.ops[t].Popping? { assert a.contents == [a.contents[0]] + b.contents; }
      assert x in b.contents || Held(b.ops[t]) == x;
    } else if x !in a.free {
      var u :| u in a.ops && Held(a.ops[u]) == x;
      assert if u == t then x in b.contents else u in b.ops && Held(b.ops[u]) == x;
    }
  }

  lemma StepConserves(d: Discipline, a: Object, b: Object, e: Event, x: Ptr)
    requires Unique(a) && Next(d, a, b, e) && x.Node? && Somewhere(a, x)
    ensures Unique(b) && Somewhere(b, x)
  {
    if e.Internal? {
      if b != a {
        var t :| Commit(d, a, b, t);
        CommitUnique(d, a, b, t);
        CommitSomewhere(d, a, b, t, x);
      }
    } else {
      CallUnique(d, a, b, e);
      if e.InvokePush? && x == e.item {
        assert Held(b.ops[e.t]) == x;
      } else if x !in a.free && x !in a.contents {
        var u :| u in a.ops && Held(a.ops[u]) == x;
        assert u == e.t || (u in b.ops && Held(b.ops[u]) == x);
      }
    }
  }

  lemma CallUnique(d: Discipline, a: Object, b: Object, e: Event)
    requires Unique(a) && Next(d, a, b, e) && !e.Internal?
    ensures Unique(b)
  {
    assert Held(a.ops[e.t]) == if e.ReturnPop? then e.result else Null;
  }

  /** No run of the atomic object duplicates an item, and none loses one: every item the callers
      started with is, at any point, in the container once, with callers, or held by one operation. */
  lemma {:induction false} BehaviourConserves(d: Discipline, run: seq<Object>, events: seq<Event>, k: nat, x: Ptr)
    requires Behaviour(d, run, events) && k < |run| && x in run[0].free
    ensures Unique(run[k]) && Somewhere(run[k], x)
  {
    if k > 0 {
      BehaviourConserves(d, run, events, k - 1, x);
      StepConserves(d, run[k - 1], run[k], events[k - 1], x);
    }
  }
}
