/**
 The exhaustive search for the best assignment of local to peer interfaces (btl_tcp2_proc.c). A permutation
 pairs local interface i with peer interface p[i]; it is rated by how many of its pairs can be connected and,
 between equals, by the sum of their connection qualities.
 */
module Interfaces {

  type Matrix = seq<seq<nat>>

  ghost predicate Square(w: Matrix, n: nat) {
    |w| == n && forall i :: 0 <= i < n ==> |w[i]| == n
  }

  /** Every peer interface is paired exactly once. */
  ghost predicate Permutation(p: seq<int>, n: nat) {
    && |p| == n && (forall i :: 0 <= i < n ==> 0 <= p[i] < n)
    && (forall i, j :: 0 <= i < j < n ==> p[i] != p[j])
    && (forall v :: 0 <= v < n ==> v in p)
  }

  /** The number of connectable pairs among the first i. */
  ghost function Cardinality(w: Matrix, p: seq<int>, i: nat): nat
    requires Square(w, |p|) && i <= |p| && forall k :: 0 <= k < |p| ==> 0 <= p[k] < |p|
  {
    if i == 0 then 0 else Cardinality(w, p, i - 1) + if w[i - 1][p[i - 1]] > 0 then 1 else 0
  }

  /** The sum of the qualities of the first i pairs. */
  ghost function Quality(w: Matrix, p: seq<int>, i: nat): nat
    requires Square(w, |p|) && i <= |p| && forall k :: 0 <= k < |p| ==> 0 <= p[k] < |p|
  {
    if i == 0 then 0 else Quality(w, p, i - 1) + w[i - 1][p[i - 1]]
  }

  /** a holds the levels 1 to level, each in one place, and 0 elsewhere. */
  ghost predicate Partial(a: seq<int>, level: int) {
    && (forall i :: 0 <= i < |a| ==> 0 <= a[i] <= level)
    && (forall i, j :: 0 <= i < j < |a| && a[i] != 0 ==> a[i] != a[j])
    && (forall v :: 1 <= v <= level ==> v in a)
    && Zeros(a) == |a| - level
  }

  ghost function Zeros(a: seq<int>): nat {
    if a == [] then 0 else Zeros(a[..|a| - 1]) + if a[|a| - 1] == 0 then 1 else 0
  }

  /** p agrees with what a has placed. */
  ghost predicate Extends(p: seq<int>, a: seq<int>) {
    |p| == |a| && forall i :: 0 <= i < |a| ==> a[i] != 0 ==> p[i] == a[i] - 1
  }

  lemma {:induction false} ZerosUpdate(a: seq<int>, k: nat, v: int)
    requires k < |a|
    ensures Zeros(a[k := v]) == Zeros(a) - (if a[k] == 0 then 1 else 0) + (if v == 0 then 1 else 0)
  {
    var n := |a| - 1;
    if k == n {
      assert a[k := v][..n] == a[..n];
    } else {
      ZerosUpdate(a[..n], k, v);
      assert a[k := v][..n] == a[..n][k := v];
    }
  }

  lemma {:induction false} NoZeros(a: seq<int>, k: nat)
    requires k < |a| && a[k] == 0
    ensures Zeros(a) > 0
  {
    if k < |a| - 1 { NoZeros(a[..|a| - 1], k); }
  }

  lemma {:induction false} AllZeros(a: seq<int>)
    requires forall i :: 0 <= i < |a| ==> a[i] == 0
    ensures Zeros(a) == |a|
  {
    if a != [] { AllZeros(a[..|a| - 1]); }
  }

  /** Placing the next level. */
  lemma Place(a: seq<int>, k: nat, level: int)
    requires k < |a| && a[k] == 0 && level >= 0 && Partial(a, level)
    ensures Partial(a[k := level + 1], level + 1)
  {
    var b := a[k := level + 1];
    ZerosUpdate(a, k, level + 1);
    forall v | 1 <= v <= level + 1 ensures v in b {
      if v == level + 1 {
        assert b[k] == v;
      } else {
        assert v in a;
        var i :| 0 <= i < |a| && a[i] == v;
        assert b[i] == v;
      }
    }
  }

  /** A full placement is a permutation. */
  lemma Full(a: seq<int>, p: seq<int>)
    requires Partial(a, |a|) && |p| == |a| && forall i :: 0 <= i < |a| ==> p[i] == a[i] - 1
    ensures Permutation(p, |a|)
    ensures forall q: seq<int> :: Extends(q, a) ==> q == p
  {
    forall i | 0 <= i < |a| ensures a[i] != 0 {
      if a[i] == 0 { NoZeros(a, i); }
    }
    forall v | 0 <= v < |a| ensures v in p {
      assert v + 1 in a;
      var i :| 0 <= i < |a| && a[i] == v + 1;
      assert p[i] == v;
    }
  }

  /** A permutation puts the next peer in some place that is still free. */
  lemma NextPlace(p: seq<int>, a: seq<int>, level: nat) returns (i: nat)
    requires Permutation(p, |a|) && Extends(p, a) && Partial(a, level) && level < |a|
    ensures i < |a| && a[i] == 0 && p[i] == level && Extends(p, a[i := level + 1])
  {
    assert level in p;
    i :| 0 <= i < |p| && p[i] == level;
  }

  /** There is a permutation of every size. */
  lemma Identity(n: nat) returns (p: seq<int>)
    ensures Permutation(p, n)
  {
    p := seq(n, i => i);
    forall v | 0 <= v < n ensures v in p {
      assert p[v] == v;
    }
  }

  // ---------------------------------------------------------------- the order of the search

  /** p is visited before q: up to some peer both have the same places, and p has an earlier place for that one. */
  ghost predicate Before(p: seq<int>, q: seq<int>) { exists v: nat, i: nat :: Parts(p, q, v, i) }

  ghost predicate Parts(p: seq<int>, q: seq<int>, v: nat, i: nat) {
    && |p| == |q| && i < |p| && p[i] == v && (forall k :: 0 <= k <= i ==> q[k] != v)
    && forall k :: 0 <= k < |p| && (p[k] < v || q[k] < v) ==> p[k] == q[k]
  }

  /** Completions that put the next peer at j come before those that put it at a later place. */
  lemma EarlierPlace(p: seq<int>, q: seq<int>, a: seq<int>, level: nat, j: nat, i: nat)
    requires Permutation(p, |a|) && Permutation(q, |a|) && Partial(a, level) && level < |a| && j < i < |a|
    requires a[j] == 0 && a[i] == 0 && Extends(p, a[j := level + 1]) && Extends(q, a[i := level + 1])
    ensures Before(p, q)
  {
    hide Zeros;
    assert p[j] == level && q[i] == level;
    forall k | 0 <= k < |a| && (p[k] < level || q[k] < level) ensures p[k] == q[k] {
      if p[k] < level { SamePlace(p, q, a, level, j, i, k); } else { SamePlace(q, p, a, level, i, j, k); }
    }
    assert Parts(p, q, level, j);
  }

  lemma SamePlace(p: seq<int>, q: seq<int>, a: seq<int>, level: nat, j: nat, i: nat, k: nat)
    requires Permutation(p, |a|) && Partial(a, level) && |q| == |a| && j < |a| && i < |a| && k < |a|
    requires a[j] == 0 && a[i] == 0 && Extends(p, a[j := level + 1]) && Extends(q, a[i := level + 1]) && p[k] < level
    ensures p[k] == q[k]
  {
    hide Zeros;
    assert p[k] + 1 in a;
    var m :| 0 <= m < |a| && a[m] == p[k] + 1;
    assert a[j := level + 1][m] == a[m] && a[i := level + 1][m] == a[m];
  }

  /** Some of the permutations: the completions of a placement, or those of them that put the next peer at one of the
      first i places. */
  datatype Region = Completions(placed: seq<int>) | Upto(placed: seq<int>, level: nat, i: nat)

  ghost predicate In(p: seq<int>, reg: Region) {
    match reg
    case Completions(a) => Permutation(p, |a|) && Extends(p, a)
    case Upto(a, level, i) =>
      Permutation(p, |a|) && exists j: nat :: j < i && j < |a| && a[j] == 0 && Extends(p, a[j := level + 1])
  }

  /** What the search has recorded. */
  datatype Record = Record(card: int, weight: int, best: seq<int>)

  predicate Higher(r: Record, r0: Record) { r.card > r0.card || (r.card == r0.card && r.weight > r0.weight) }

  predicate SameRating(r: Record, r0: Record) { r.card == r0.card && r.weight == r0.weight }

  ghost function Rating(w: Matrix, p: seq<int>): Record
    requires Square(w, |p|) && Permutation(p, |p|)
  {
    Record(Cardinality(w, p, |p|), Quality(w, p, |p|), p)
  }

  /** r records the first of those rated highest among what r0 records and then the permutations of the region, in the
      order in which they are visited. */
  ghost predicate First(w: Matrix, r0: Record, r: Record, reg: Region) {
    && Square(w, |reg.placed|)
    && (SameRating(r, r0) ==> r == r0)
    && (!SameRating(r, r0) ==> Higher(r, r0) && In(r.best, reg) && Rating(w, r.best) == r)
    && forall q: seq<int> :: In(q, reg) ==>
         && !Higher(Rating(w, q), r)
         && (SameRating(Rating(w, q), r) ==> SameRating(r, r0) || q == r.best || Before(r.best, q))
  }

  /** One region after another. */
  lemma FirstThen(w: Matrix, r0: Record, r1: Record, r2: Record, one: Region, two: Region, both: Region)
    requires First(w, r0, r1, one) && First(w, r1, r2, two) && |one.placed| == |two.placed| == |both.placed|
    requires forall p: seq<int>, q: seq<int> :: In(p, one) && In(q, two) ==> Before(p, q)
    requires forall p: seq<int> :: In(p, both) <==> In(p, one) || In(p, two)
    ensures First(w, r0, r2, both)
  {
    hide In, Before, Cardinality, Quality, Square, Permutation;
  }

  lemma FirstNone(w: Matrix, r: Record, reg: Region)
    requires reg.Upto? && reg.i == 0 && Square(w, |reg.placed|)
    ensures First(w, r, r, reg)
  {
  }

  /** One more place that is free, */
  lemma FirstNext(w: Matrix, r0: Record, r1: Record, r2: Record, a: seq<int>, level: nat, i: nat)
    requires Partial(a, level) && level < |a| && i < |a| && a[i] == 0
    requires First(w, r0, r1, Upto(a, level, i)) && First(w, r1, r2, Completions(a[i := level + 1]))
    ensures First(w, r0, r2, Upto(a, level, i + 1))
  {
    hide First, Permutation, Partial, Extends, Before;
    var one, two, both := Upto(a, level, i), Completions(a[i := level + 1]), Upto(a, level, i + 1);
    forall p: seq<int>, q: seq<int> | In(p, one) && In(q, two) ensures Before(p, q) {
      var j: nat :| j < i && j < |a| && a[j] == 0 && Extends(p, a[j := level + 1]);
      EarlierPlace(p, q, a, level, j, i);
    }
    forall p: seq<int> ensures In(p, both) <==> In(p, one) || In(p, two) {
      if In(p, two) { assert i < i + 1 && i < |a| && a[i] == 0 && Extends(p, a[i := level + 1]); }
    }
    FirstThen(w, r0, r1, r2, one, two, both);
  }

  /** or one that is not, */
  lemma FirstSkip(w: Matrix, r0: Record, r: Record, a: seq<int>, level: nat, i: nat)
    requires i < |a| && a[i] != 0 && First(w, r0, r, Upto(a, level, i))
    ensures First(w, r0, r, Upto(a, level, i + 1))
  {
    hide Permutation, Extends, Before, Cardinality, Quality;
    forall p: seq<int> ensures In(p, Upto(a, level, i + 1)) <==> In(p, Upto(a, level, i)) {
    }
  }

  /** until every completion was visited. */
  lemma FirstAll(w: Matrix, r0: Record, r: Record, a: seq<int>, level: nat)
    requires Partial(a, level) && level < |a| && First(w, r0, r, Upto(a, level, |a|))
    ensures First(w, r0, r, Completions(a))
  {
    hide Permutation, Partial, Before, Cardinality, Quality, Square;
    forall p: seq<int> ensures In(p, Completions(a)) <==> In(p, Upto(a, level, |a|)) {
      if In(p, Completions(a)) {
        var j := NextPlace(p, a, level);
      }
    }
  }

  /** A full placement has one completion. */
  lemma FirstFull(w: Matrix, r0: Record, r: Record, a: seq<int>, p: seq<int>)
    requires Square(w, |a|) && Permutation(p, |a|) && Extends(p, a) && (forall q: seq<int> :: Extends(q, a) ==> q == p)
    requires r == if Higher(Rating(w, p), r0) then Rating(w, p) else r0
    ensures First(w, r0, r, Completions(a))
  {
    hide Permutation, Extends, Cardinality, Quality, Before;
    forall q: seq<int> | In(q, Completions(a)) ensures q == p { }
  }

  /** The statics of btl_tcp2_proc.c that the search works on. */
  class Search {
    const weights: Matrix
    const size: nat
    const a: array<int>
    const best: array<int>
    var maxWeight: int
    var maxCardinality: int

    ghost predicate Shape()
      reads this
    {
      size > 0 && a.Length == size && best.Length == size && a != best && Square(weights, size)
    }

    ghost predicate Valid()
      reads this, best, a
    {
      && Shape() && -1 <= maxCardinality
      && (maxCardinality == -1 ==> maxWeight == -1)
      && (maxCardinality >= 0 ==> Recorded())
    }

    /** What is recorded is a permutation and its rating. */
    ghost predicate Recorded()
      requires Square(weights, size)
      reads this, best
    {
      && Permutation(best[..], size)
      && maxCardinality == Cardinality(weights, best[..], size) && maxWeight == Quality(weights, best[..], size)
    }

    ghost function View(): Record
      reads this, best
    {
      Record(maxCardinality, maxWeight, best[..])
    }

    constructor (weights: Matrix, size: nat)
      requires size > 0 && Square(weights, size)
      ensures Shape() && this.weights == weights && this.size == size && fresh(a) && fresh(best)
    {
      this.weights := weights;
      this.size := size;
      a := new int[size];
      best := new int[size];
    }

    /** evaluate_assignment: the placed permutation is recorded exactly if it is rated higher than what is recorded. */
    method Evaluate(ghost p: seq<int>)
      requires Valid() && Partial(a[..], size) && |p| == size && forall i :: 0 <= i < size ==> p[i] == a[i] - 1
      modifies this, best
      ensures Valid() && Permutation(p, size)
      ensures View() == if Higher(Rating(weights, p), old(View())) then Rating(weights, p) else old(View())
    {
      hide Partial, Zeros;
      Full(a[..], p);
      var weight, cardinality := 0, 0;
      for i := 0 to size
        invariant weight == Quality(weights, p, i) && cardinality == Cardinality(weights, p, i)
      {
        if 0 < weights[i][a[i] - 1] {
          cardinality := cardinality + 1;
          weight := weight + weights[i][a[i] - 1];
        }
      }
      if cardinality > maxCardinality || (cardinality == maxCardinality && weight > maxWeight) {
        for i := 0 to size
          modifies best
          invariant forall k :: 0 <= k < i ==> best[k] == p[k]
        {
          best[i] := a[i] - 1;
        }
        assert best[..] == p;
        maxWeight := weight;
        maxCardinality := cardinality;
      }
    }

    /** visit: tries every way to complete the placement that has the next level at k, and records the first of those
        rated highest if it is rated higher than what is recorded. */
    method Visit(k: nat, level: int)
      requires Valid() && k < size && a[k] == 0 && -1 <= level < size
      requires Partial(a[..], if level < 0 then 0 else level)
      modifies this, best, a
      ensures Valid() && a[..] == old(a[..])
      ensures First(weights, old(View()), View(), Completions(a[..][k := level + 1]))
      decreases size - level
    {
      hide Partial, Permutation, Zeros, Extends, Cardinality, Quality, Square, First;
      ghost var before := a[..];
      var next := level + 1;
      a[k] := next;
      ghost var placed := a[..];
      assert placed == before[k := next];
      if level >= 0 { Place(before, k, level); } else { assert placed == before; }
      assert Partial(placed, next);
      if next == size {
        ghost var p := seq(size, i requires 0 <= i < size => placed[i] - 1);
        Full(placed, p);
        FullExtends(placed, p);
        Evaluate(p);
        FirstFull(weights, old(View()), View(), placed, p);
      } else {
        FirstNone(weights, View(), Upto(placed, next, 0));
        for i := 0 to size
          invariant Valid() && a[..] == placed && First(weights, old(View()), View(), Upto(placed, next, i))
        {
          if a[i] == 0 {
            ghost var was := View();
            Visit(i, next);
            FirstNext(weights, old(View()), was, View(), placed, next, i);
          } else {
            FirstSkip(weights, old(View()), View(), placed, next, i);
          }
        }
        FirstAll(weights, old(View()), View(), placed, next);
      }
      a[k] := 0;
      assert a[..] == before;
    }

    /** The whole search: it records a permutation, no permutation is rated higher, and those rated as high are visited
        later; the array it works on is zero again. */
    method Choose()
      requires Shape()
      modifies this, best, a
      ensures Valid() && Recorded() && forall i :: 0 <= i < size ==> a[i] == 0
      ensures forall p: seq<int> :: Permutation(p, size) ==>
                && !Higher(Rating(weights, p), View())
                && (SameRating(Rating(weights, p), View()) ==> p == best[..] || Before(best[..], p))
    {
      hide Cardinality, Quality, Before;
      for i := 0 to size
        modifies a
        invariant forall k :: 0 <= k < i ==> a[k] == 0
      {
        a[i] := 0;
      }
      maxCardinality := -1;
      maxWeight := -1;
      AllZeros(a[..]);
      Visit(0, -1);
      assert a[..][0 := 0] == a[..];
      ghost var none := a[..];
      forall p: seq<int> | Permutation(p, size)
        ensures In(p, Completions(none)) && Rating(weights, p).card >= 0
      {
      }
      ghost var p := Identity(size);
      assert In(p, Completions(none));
    }
  }

  lemma FullExtends(a: seq<int>, p: seq<int>)
    requires |p| == |a| && forall i :: 0 <= i < |a| ==> p[i] == a[i] - 1
    ensures Extends(p, a)
  {
  }
}
