/**
 Shortest distances in a weighted graph (opal_graph.c): opal_graph_adjacent and opal_graph_dijkstra, with the
 distances kept in 32-bit words and 0x7fffffff standing for infinity.
 */
module Dijkstra {

  /** An unsigned 32-bit word. */
  type Word = x: int | 0 <= x < WORDS

  const WORDS := 0x1_0000_0000

  const INFINITY: Word := 0x7fff_ffff

  /** An edge of an adjacency list. */
  datatype Edge = Edge(end: nat, weight: Word)

  /** A vertex and its edges. */
  datatype Adjacency = Adjacency(vertex: nat, edges: seq<Edge>)

  type Graph = seq<Adjacency>

  /** A vertex of the working queue and its distance so far. */
  datatype Item = Item(vertex: nat, weight: Word)

  function Add32(x: Word, y: Word): Word { (x + y) % WORDS }

  // ---------------------------------------------------------------- what a shortest distance is

  ghost predicate InGraph(g: Graph, v: nat) {
    exists i :: 0 <= i < |g| && g[i].vertex == v
  }

  /** The largest weight that never makes a 32-bit sum wrap; see SumsExact. */
  const HEAVIEST: Word := 0x8000_0000

  /** No edge is heavier than w. */
  ghost predicate Within(g: Graph, w: Word) {
    forall i, j :: 0 <= i < |g| && 0 <= j < |g[i].edges| ==> g[i].edges[j].weight <= w
  }

  /** The edges of v. */
  ghost function Edges(g: Graph, v: nat): seq<Edge> {
    if g == [] then [] else if g[0].vertex == v then g[0].edges else Edges(g[1..], v)
  }

  /** The weight of the first edge that ends in v. */
  ghost function FirstWeight(edges: seq<Edge>, v: nat): Word {
    if edges == [] then INFINITY else if edges[0].end == v then edges[0].weight else FirstWeight(edges[1..], v)
  }

  /** The distance of one step from u to v. */
  ghost function Distance(g: Graph, u: nat, v: nat): Word {
    if !InGraph(g, u) || !InGraph(g, v) then INFINITY
    else if u == v then 0
    else FirstWeight(Edges(g, u), v)
  }

  /** Item i is the first of u, and its edge j the first that ends in v. */
  ghost predicate FirstOf(g: Graph, u: nat, i: nat) {
    i < |g| && g[i].vertex == u && forall k :: 0 <= k < i ==> g[k].vertex != u
  }

  ghost predicate FirstTo(edges: seq<Edge>, v: nat, j: nat) {
    j < |edges| && edges[j].end == v && forall k :: 0 <= k < j ==> edges[k].end != v
  }

  ghost predicate NoneTo(edges: seq<Edge>, v: nat) { forall k :: 0 <= k < |edges| ==> edges[k].end != v }

  /** What one step from u to v weighs, place by place: nothing if they are the same vertex, the weight of the first
      edge between them, and infinity if there is none or one of them is not in the graph. */
  ghost predicate Weighs(g: Graph, u: nat, v: nat, w: Word) {
    && (!InGraph(g, u) || !InGraph(g, v) ==> w == INFINITY)
    && (InGraph(g, u) && u == v ==> w == 0)
    && (InGraph(g, v) && u != v ==>
          forall i: nat :: FirstOf(g, u, i) ==>
            && (NoneTo(g[i].edges, v) ==> w == INFINITY)
            && (forall j: nat :: FirstTo(g[i].edges, v, j) ==> w == g[i].edges[j].weight))
  }

  lemma {:induction false} EdgesAt(g: Graph, u: nat, i: nat)
    requires FirstOf(g, u, i)
    ensures Edges(g, u) == g[i].edges
  {
    if i > 0 {
      assert g[1..][i - 1] == g[i] && forall k :: 0 <= k < i - 1 ==> g[1..][k] == g[k + 1];
      EdgesAt(g[1..], u, i - 1);
    }
  }

  lemma {:induction false} WeightAt(edges: seq<Edge>, v: nat, j: nat)
    requires FirstTo(edges, v, j)
    ensures FirstWeight(edges, v) == edges[j].weight
  {
    if j > 0 {
      assert edges[1..][j - 1] == edges[j] && forall k :: 0 <= k < j - 1 ==> edges[1..][k] == edges[k + 1];
      WeightAt(edges[1..], v, j - 1);
    }
  }

  lemma {:induction false} NoWeight(edges: seq<Edge>, v: nat)
    requires NoneTo(edges, v)
    ensures FirstWeight(edges, v) == INFINITY
  {
    if edges != [] { NoWeight(edges[1..], v); }
  }

  lemma DistanceWeighs(g: Graph, u: nat, v: nat)
    ensures Weighs(g, u, v, Distance(g, u, v))
  {
    hide Edges, FirstWeight, NoneTo;
    if InGraph(g, v) && u != v {
      forall i: nat | FirstOf(g, u, i)
        ensures NoneTo(g[i].edges, v) ==> Distance(g, u, v) == INFINITY
        ensures forall j: nat :: FirstTo(g[i].edges, v, j) ==> Distance(g, u, v) == g[i].edges[j].weight
      {
        EdgesAt(g, u, i);
        if NoneTo(g[i].edges, v) { NoWeight(g[i].edges, v); }
        forall j: nat | FirstTo(g[i].edges, v, j) ensures Distance(g, u, v) == g[i].edges[j].weight {
          WeightAt(g[i].edges, v, j);
        }
      }
    }
  }

  /** A walk through the graph from s to v. */
  ghost predicate Walk(g: Graph, s: nat, v: nat, p: seq<nat>) {
    p != [] && p[0] == s && p[|p| - 1] == v && forall i :: 0 <= i < |p| ==> InGraph(g, p[i])
  }

  ghost function Length(g: Graph, p: seq<nat>): nat {
    if |p| <= 1 then 0 else Length(g, p[..|p| - 1]) + Distance(g, p[|p| - 2], p[|p| - 1])
  }

  ghost predicate Reached(g: Graph, s: nat, v: nat, w: nat) {
    exists p: seq<nat> :: Walk(g, s, v, p) && Length(g, p) == w
  }

  /** w is the smaller of infinity and the least length of a walk from s to v. */
  ghost predicate Shortest(g: Graph, s: nat, v: nat, w: nat) {
    && w <= INFINITY && (w == INFINITY || Reached(g, s, v, w))
    && forall p: seq<nat> :: Walk(g, s, v, p) ==> w <= Length(g, p)
  }

  lemma {:induction false} FirstWeightBounded(edges: seq<Edge>, v: nat)
    requires forall j :: 0 <= j < |edges| ==> edges[j].weight <= HEAVIEST
    ensures FirstWeight(edges, v) <= HEAVIEST
  {
    if edges != [] && edges[0].end != v { FirstWeightBounded(edges[1..], v); }
  }

  lemma {:induction false} EdgesBounded(g: Graph, v: nat)
    requires Within(g, HEAVIEST)
    ensures forall j :: 0 <= j < |Edges(g, v)| ==> Edges(g, v)[j].weight <= HEAVIEST
  {
    if g != [] && g[0].vertex != v { EdgesBounded(g[1..], v); }
  }

  lemma DistanceBounded(g: Graph, u: nat, v: nat)
    requires Within(g, HEAVIEST)
    ensures Distance(g, u, v) <= HEAVIEST
  {
    EdgesBounded(g, u);
    FirstWeightBounded(Edges(g, u), v);
  }

  /** One more step of a walk. */
  lemma Extend(g: Graph, s: nat, u: nat, v: nat, w: nat)
    requires Reached(g, s, u, w) && InGraph(g, v)
    ensures Reached(g, s, v, w + Distance(g, u, v))
  {
    var p :| Walk(g, s, u, p) && Length(g, p) == w;
    var q := p + [v];
    assert q[..|q| - 1] == p;
    assert Walk(g, s, v, q) && Length(g, q) == w + Distance(g, u, v);
  }

  lemma Trivial(g: Graph, s: nat)
    requires InGraph(g, s)
    ensures Reached(g, s, s, 0)
  {
    assert Walk(g, s, s, [s]) && Length(g, [s]) == 0;
  }

  // ---------------------------------------------------------------- the queue

  ghost function Vertices(q: seq<Item>): seq<nat> { seq(|q|, i requires 0 <= i < |q| => q[i].vertex) }

  ghost function GraphVertices(g: Graph): seq<nat> { seq(|g|, i requires 0 <= i < |g| => g[i].vertex) }

  ghost predicate Sorted(q: seq<Item>) {
    forall i, j :: 0 <= i <= j < |q| ==> q[i].weight <= q[j].weight
  }

  ghost predicate Rearranged(q: seq<Item>, r: seq<Item>) {
    |q| == |r| && multiset(q) == multiset(r) && multiset(Vertices(q)) == multiset(Vertices(r))
  }

  /** What holds of an item of the queue once the vertices in done are final: its weight is infinite or the
      length of a walk, no walk by way of a final vertex is shorter, and no final weight is larger. */
  ghost predicate Good(g: Graph, s: nat, done: seq<Item>, x: Item) {
    && InGraph(g, x.vertex) && x.weight <= INFINITY && (x.weight == INFINITY || Reached(g, s, x.vertex, x.weight))
    && forall i :: 0 <= i < |done| ==>
              done[i].weight <= x.weight <= done[i].weight + Distance(g, done[i].vertex, x.vertex)
  }

  /** What holds of the final items: the same, and walks between any two of them are accounted for. */
  ghost predicate Final(g: Graph, s: nat, done: seq<Item>) {
    && (forall i :: 0 <= i < |done| ==> Good(g, s, [], done[i]))
    && (forall i, j :: 0 <= i < |done| && 0 <= j < |done| ==>
              done[j].weight <= done[i].weight + Distance(g, done[i].vertex, done[j].vertex))
    && (done != [] ==> done[0] == Item(s, 0))
  }

  ghost predicate AllGood(g: Graph, s: nat, done: seq<Item>, todo: seq<Item>) {
    forall i :: 0 <= i < |todo| ==> Good(g, s, done, todo[i])
  }

  lemma GoodRearranged(g: Graph, s: nat, done: seq<Item>, q: seq<Item>, r: seq<Item>)
    requires AllGood(g, s, done, q) && Rearranged(q, r)
    ensures AllGood(g, s, done, r)
  {
    hide Good;
    forall i | 0 <= i < |r| ensures Good(g, s, done, r[i]) {
      assert r[i] in multiset(r);
      assert r[i] in q;
    }
  }

  /** The first item of the queue becomes final. */
  lemma Finish(g: Graph, s: nat, done: seq<Item>, x: Item)
    requires Final(g, s, done) && Good(g, s, done, x) && (done == [] ==> x == Item(s, 0))
    ensures Final(g, s, done + [x])
  {
  }

  /** An item after it was compared with the newly final x, in 32-bit arithmetic. */
  ghost function RelaxedItem(g: Graph, x: Item, y: Item): Item {
    var w := Distance(g, x.vertex, y.vertex);
    if Add32(x.weight, w) < y.weight then y.(weight := Add32(w, x.weight)) else y
  }

  /** No sum of a distance so far and an edge weight wraps, exactly if the weight is at most 0x80000000. */
  lemma SumsExact(w: Word)
    ensures (forall d: Word :: d <= INFINITY ==> Add32(d, w) == d + w) <==> w <= HEAVIEST
  {
    if w > HEAVIEST { assert Add32(INFINITY, w) < w; }
  }

  /** An item that was compared with the newly final x. */
  lemma Relaxed(g: Graph, s: nat, done: seq<Item>, x: Item, y: Item, z: Item)
    requires Good(g, s, done, x) && Good(g, s, done, y) && x.weight <= y.weight
    requires x.weight + Distance(g, x.vertex, y.vertex) < WORDS && z == RelaxedItem(g, x, y)
    ensures Good(g, s, done + [x], z)
  {
    hide Distance;
    if z != y { Extend(g, s, x.vertex, y.vertex, x.weight); }
    forall i | 0 <= i < |done|
      ensures done[i].weight <= z.weight <= done[i].weight + Distance(g, done[i].vertex, z.vertex)
    {
      assert done[i].weight <= x.weight;
    }
  }

  /** No walk is shorter than the final weight of its end. */
  lemma {:induction false} WalkBound(g: Graph, s: nat, done: seq<Item>, p: seq<nat>, v: nat, j: nat)
    requires Final(g, s, done) && (forall u :: InGraph(g, u) ==> exists i :: 0 <= i < |done| && done[i].vertex == u)
    requires Walk(g, s, v, p) && j < |done| && done[j].vertex == v
    ensures done[j].weight <= Length(g, p)
    decreases |p|
  {
    hide Good, Edges, FirstWeight;
    if |p| == 1 {
      assert done[j].weight <= done[0].weight + Distance(g, s, v);
    } else {
      var u := p[|p| - 2];
      assert InGraph(g, u);
      var i :| 0 <= i < |done| && done[i].vertex == u;
      WalkBound(g, s, done, p[..|p| - 1], u, i);
    }
  }

  lemma FinalShortest(g: Graph, s: nat, done: seq<Item>, j: nat)
    requires Final(g, s, done) && (forall u :: InGraph(g, u) ==> exists i :: 0 <= i < |done| && done[i].vertex == u)
    requires j < |done|
    ensures Shortest(g, s, done[j].vertex, done[j].weight)
  {
    forall p: seq<nat> | Walk(g, s, done[j].vertex, p) ensures done[j].weight <= Length(g, p) {
      WalkBound(g, s, done, p, done[j].vertex, j);
    }
    assert Good(g, s, [], done[j]);
  }

  /** The queue holds every vertex of the graph. */
  lemma Covers(g: Graph, q: seq<Item>, u: nat)
    requires multiset(Vertices(q)) == multiset(GraphVertices(g)) && InGraph(g, u)
    ensures exists i :: 0 <= i < |q| && q[i].vertex == u
  {
    var k :| 0 <= k < |g| && g[k].vertex == u;
    assert GraphVertices(g)[k] == u;
    assert u in multiset(Vertices(q));
    assert u in Vertices(q);
    var i :| 0 <= i < |Vertices(q)| && Vertices(q)[i] == u;
    assert q[i].vertex == u;
  }

  // ---------------------------------------------------------------- runs of the search

  /** The working queue before the first sort. */
  ghost function Initial(g: Graph, s: nat): seq<Item> {
    seq(|g|, i requires 0 <= i < |g| => Item(g[i].vertex, if g[i].vertex == s then 0 else INFINITY))
  }

  /** The items behind item k after they were compared with it. */
  ghost function RelaxedAll(g: Graph, q: seq<Item>, k: nat): seq<Item>
    requires k < |q|
  {
    seq(|q| - k - 1, i requires 0 <= i < |q| - k - 1 => RelaxedItem(g, q[k], q[k + 1 + i]))
  }

  /** One round: item k becomes final, the items behind it are compared with it and sorted, items of equal weight in any
      order. */
  ghost predicate Turn(g: Graph, q: seq<Item>, r: seq<Item>, k: nat) {
    && k < |q| == |r| && r[..k + 1] == q[..k + 1]
    && Rearranged(RelaxedAll(g, q, k), r[k + 1..]) && Sorted(r[k + 1..])
  }

  /** A run of the search: the queue before each round and after the last one. */
  ghost predicate Search(g: Graph, s: nat, qs: seq<seq<Item>>) {
    && InGraph(g, s) && |qs| == |g| + 1 && Rearranged(Initial(g, s), qs[0]) && Sorted(qs[0])
    && forall k :: 0 <= k < |g| ==> Turn(g, qs[k], qs[k + 1], k)
  }

  /** The queue between two rounds. */
  ghost predicate Queue(g: Graph, s: nat, q: seq<Item>, k: nat) {
    && k <= |q| == |g| && q != [] && q[0] == Item(s, 0) && multiset(Vertices(q)) == multiset(GraphVertices(g))
    && Sorted(q[k..])
  }

  /** After the first sort the source is in front. */
  lemma FirstQueue(g: Graph, s: nat, q: seq<Item>)
    requires InGraph(g, s) && Rearranged(Initial(g, s), q) && Sorted(q)
    ensures Queue(g, s, q, 0)
  {
    var k :| 0 <= k < |g| && g[k].vertex == s;
    var p := Initial(g, s);
    assert p[k] == Item(s, 0);
    assert Item(s, 0) in multiset(q);
    assert q[0] in multiset(p);
    assert Item(s, 0) in q && q[0] in p;
    assert q[0..] == q;
    assert Vertices(p) == GraphVertices(g);
  }

  lemma Joined(q: seq<Item>, r: seq<Item>, k: nat)
    requires |q| == |r| && k <= |q| && q[..k] == r[..k] && multiset(Vertices(q[k..])) == multiset(Vertices(r[k..]))
    ensures multiset(Vertices(q)) == multiset(Vertices(r))
  {
    assert Vertices(q) == Vertices(q[..k]) + Vertices(q[k..]);
    assert Vertices(r) == Vertices(r[..k]) + Vertices(r[k..]);
  }

  lemma RelaxedVertices(g: Graph, q: seq<Item>, k: nat)
    requires k < |q|
    ensures Vertices(RelaxedAll(g, q, k)) == Vertices(q[k + 1..])
  {
    hide RelaxedItem;
    forall i | 0 <= i < |q| - k - 1 ensures RelaxedAll(g, q, k)[i].vertex == q[k + 1..][i].vertex {
      RelaxedParts(g, q[k], q[k + 1 + i]);
    }
  }

  lemma RelaxedParts(g: Graph, x: Item, y: Item)
    ensures RelaxedItem(g, x, y).vertex == y.vertex && RelaxedItem(g, x, y).weight <= y.weight
    ensures x.weight <= y.weight && x.weight + Distance(g, x.vertex, y.vertex) >= WORDS ==>
              RelaxedItem(g, x, y).weight < x.weight
  {
    hide Distance;
  }

  lemma SameVertices(q: seq<Item>, r: seq<Item>)
    requires Rearranged(q, r)
    ensures multiset(Vertices(q)) == multiset(Vertices(r))
  {
  }

  lemma TurnQueue(g: Graph, s: nat, q: seq<Item>, r: seq<Item>, k: nat)
    requires Queue(g, s, q, k) && Turn(g, q, r, k)
    ensures Queue(g, s, r, k + 1)
  {
    hide Vertices, GraphVertices, Sorted, Rearranged, RelaxedItem, RelaxedAll;
    RelaxedVertices(g, q, k);
    SameVertices(RelaxedAll(g, q, k), r[k + 1..]);
    Joined(q, r, k + 1);
    assert r[0] == r[..k + 1][0] == q[..k + 1][0];
  }

  lemma {:induction false} SearchQueue(g: Graph, s: nat, qs: seq<seq<Item>>, k: nat)
    requires Search(g, s, qs) && k <= |g|
    ensures Queue(g, s, qs[k], k)
  {
    hide Queue, Turn, Rearranged, Sorted, Initial;
    if k == 0 {
      FirstQueue(g, s, qs[0]);
    } else {
      SearchQueue(g, s, qs, k - 1);
      assert Turn(g, qs[k - 1], qs[k - 1 + 1], k - 1);
      TurnQueue(g, s, qs[k - 1], qs[k], k - 1);
    }
  }

  /** Every vertex but the source is behind it once. */
  lemma Appended(g: Graph, s: nat, qs: seq<seq<Item>>)
    requires Search(g, s, qs)
    ensures qs[|g|] != [] && |qs[|g|]| == |g|
    ensures multiset(Vertices(qs[|g|][1..])) == multiset(GraphVertices(g)) - multiset{s}
  {
    hide Search, Sorted;
    SearchLength(g, s, qs);
    SearchQueue(g, s, qs, |g|);
    var q := qs[|g|];
    assert Vertices(q) == [s] + Vertices(q[1..]);
  }

  // ---------------------------------------------------------------- runs in which no sum wraps

  /** No sum that round k computes wraps. */
  ghost predicate Exact(g: Graph, q: seq<Item>, k: nat) {
    k < |q| && forall j :: k < j < |q| ==> q[k].weight + Distance(g, q[k].vertex, q[j].vertex) < WORDS
  }

  /** No sum of the first n rounds wraps. */
  ghost predicate AllExact(g: Graph, qs: seq<seq<Item>>, n: nat) {
    n <= |qs| && forall k :: 0 <= k < n ==> Exact(g, qs[k], k)
  }

  /** The first k items are final, and the others are accounted for. */
  ghost predicate Settled(g: Graph, s: nat, q: seq<Item>, k: nat) {
    k <= |q| && Final(g, s, q[..k]) && AllGood(g, s, q[..k], q[k..])
  }

  lemma FirstSettled(g: Graph, s: nat, q: seq<Item>)
    requires InGraph(g, s) && Rearranged(Initial(g, s), q)
    ensures Settled(g, s, q, 0)
  {
    hide Rearranged;
    Trivial(g, s);
    assert AllGood(g, s, [], Initial(g, s));
    GoodRearranged(g, s, [], Initial(g, s), q);
    assert q[..0] == [] && q[0..] == q;
  }

  /** What is known of the items behind item k once they were compared with it. */
  lemma RelaxedGood(g: Graph, s: nat, q: seq<Item>, k: nat)
    requires k < |q| && AllGood(g, s, q[..k], q[k..]) && Sorted(q[k..]) && Exact(g, q, k)
    ensures AllGood(g, s, q[..k + 1], RelaxedAll(g, q, k))
  {
    hide Good, RelaxedItem, Distance;
    assert forall i :: k <= i < |q| ==> q[i] == q[k..][i - k];
    assert q[..k + 1] == q[..k] + [q[k]];
    var rest := RelaxedAll(g, q, k);
    forall i | 0 <= i < |rest| ensures Good(g, s, q[..k + 1], rest[i]) {
      Relaxed(g, s, q[..k], q[k], q[k + 1 + i], rest[i]);
    }
  }

  lemma TurnSettles(g: Graph, s: nat, q: seq<Item>, r: seq<Item>, k: nat)
    requires Queue(g, s, q, k) && Settled(g, s, q, k) && Turn(g, q, r, k) && Exact(g, q, k)
    ensures Settled(g, s, r, k + 1)
  {
    hide Good, Final, Vertices, GraphVertices, Sorted, Rearranged, RelaxedItem, RelaxedAll, Exact;
    assert q[k..][0] == q[k] && q[..k] + [q[k]] == q[..k + 1];
    Finish(g, s, q[..k], q[k]);
    RelaxedGood(g, s, q, k);
    GoodRearranged(g, s, q[..k + 1], RelaxedAll(g, q, k), r[k + 1..]);
  }

  lemma {:induction false} SearchSettles(g: Graph, s: nat, qs: seq<seq<Item>>, k: nat)
    requires Search(g, s, qs) && k <= |g| && AllExact(g, qs, k)
    ensures Settled(g, s, qs[k], k)
  {
    hide Queue, Settled, Turn, Exact, Rearranged, Sorted, Initial;
    if k == 0 {
      FirstSettled(g, s, qs[0]);
    } else {
      SearchQueue(g, s, qs, k - 1);
      SearchSettles(g, s, qs, k - 1);
      assert Turn(g, qs[k - 1], qs[k - 1 + 1], k - 1);
      TurnSettles(g, s, qs[k - 1], qs[k], k - 1);
    }
  }

  /** What is behind the source are shortest distances. */
  ghost predicate Right(g: Graph, s: nat, q: seq<Item>) {
    forall i :: 1 <= i < |q| ==> Shortest(g, s, q[i].vertex, q[i].weight)
  }

  lemma SettledRight(g: Graph, s: nat, q: seq<Item>)
    requires Queue(g, s, q, |q|) && Settled(g, s, q, |q|)
    ensures Right(g, s, q)
  {
    hide Shortest, Good, Vertices, GraphVertices, Sorted;
    assert q[..|q|] == q;
    forall u | InGraph(g, u) ensures exists i :: 0 <= i < |q| && q[i].vertex == u { Covers(g, q, u); }
    forall i | 1 <= i < |q| ensures Shortest(g, s, q[i].vertex, q[i].weight) { FinalShortest(g, s, q, i); }
  }

  lemma NoWrap(g: Graph, q: seq<Item>, s: nat, k: nat)
    requires Within(g, HEAVIEST) && k < |q| && Settled(g, s, q, k)
    ensures Exact(g, q, k)
  {
    hide Distance, Within, Final;
    assert q[k..][0] == q[k];
    assert Good(g, s, q[..k], q[k]);
    forall j | k < j < |q| ensures q[k].weight + Distance(g, q[k].vertex, q[j].vertex) < WORDS {
      DistanceBounded(g, q[k].vertex, q[j].vertex);
      SumsExact(Distance(g, q[k].vertex, q[j].vertex));
    }
  }

  lemma {:induction false} LightExact(g: Graph, s: nat, qs: seq<seq<Item>>, n: nat)
    requires Search(g, s, qs) && Within(g, HEAVIEST) && n <= |g|
    ensures AllExact(g, qs, n)
  {
    hide Search, Within, Exact, Settled, Queue;
    if n > 0 {
      LightExact(g, s, qs, n - 1);
      SearchLength(g, s, qs);
      SearchQueue(g, s, qs, n - 1);
      QueueLength(g, s, qs[n - 1], n - 1);
      SearchSettles(g, s, qs, n - 1);
      NoWrap(g, qs[n - 1], s, n - 1);
    }
  }

  lemma SearchLength(g: Graph, s: nat, qs: seq<seq<Item>>)
    requires Search(g, s, qs)
    ensures InGraph(g, s) && |qs| == |g| + 1
  {
  }

  lemma QueueLength(g: Graph, s: nat, q: seq<Item>, k: nat)
    requires Queue(g, s, q, k)
    ensures |q| == |g|
  {
  }

  /** Without an edge heavier than 0x80000000 every run ends with shortest distances. */
  lemma LightShortest(g: Graph, s: nat, qs: seq<seq<Item>>)
    requires Search(g, s, qs) && Within(g, HEAVIEST)
    ensures Right(g, s, qs[|g|])
  {
    hide Right, Within, AllExact;
    LightExact(g, s, qs, |g|);
    RunExact(g, s, qs);
  }

  // ---------------------------------------------------------------- runs in which a sum wraps

  /** No walk ends behind the final items, or at any of them, before the next one. */
  lemma {:induction false} FrontBound(g: Graph, s: nat, q: seq<Item>, k: nat, v: nat, p: seq<nat>)
    requires Queue(g, s, q, k) && Settled(g, s, q, k) && k < |q| && Walk(g, s, v, p)
    ensures Length(g, p) >= q[k].weight || exists i :: 0 <= i < k && q[i].vertex == v && q[i].weight <= Length(g, p)
    decreases |p|
  {
    hide Edges, FirstWeight, Vertices, GraphVertices;
    if |p| == 1 {
      assert q[0].vertex == v && q[0].weight == 0;
    } else {
      var u := p[|p| - 2];
      FrontBound(g, s, q, k, u, p[..|p| - 1]);
      if Length(g, p) < q[k].weight {
        var j :| 0 <= j < k && q[j].vertex == u && q[j].weight <= Length(g, p[..|p| - 1]);
        Covers(g, q, v);
        var i :| 0 <= i < |q| && q[i].vertex == v;
        FrontStep(g, s, q, k, i, j);
      }
    }
  }

  lemma FrontStep(g: Graph, s: nat, q: seq<Item>, k: nat, i: nat, j: nat)
    requires Queue(g, s, q, k) && Settled(g, s, q, k) && k < |q| && i < |q| && j < k
    ensures q[i].weight <= q[j].weight + Distance(g, q[j].vertex, q[i].vertex)
    ensures i >= k ==> q[j].weight <= q[i].weight && q[k].weight <= q[i].weight
  {
    hide Distance, Vertices, GraphVertices;
    assert q[..k][j] == q[j] && q[k..][0] == q[k];
    if i < k {
      assert q[..k][i] == q[i];
    } else {
      assert q[k..][i - k] == q[i];
      assert Good(g, s, q[..k], q[k..][i - k]);
    }
  }

  /** An item behind the final ones is not nearer than the next of them. */
  lemma NotNearer(g: Graph, s: nat, q: seq<Item>, k: nat, j: nat, w: Word)
    requires Queue(g, s, q, k) && Settled(g, s, q, k) && k < j < |q| && w < q[k].weight
    ensures !Shortest(g, s, q[j].vertex, w)
  {
    hide Queue, Final, Length, Distance;
    assert q[k..][0] == q[k];
    assert Good(g, s, q[..k], q[k]);
    if Shortest(g, s, q[j].vertex, w) {
      var p :| Walk(g, s, q[j].vertex, p) && Length(g, p) == w;
      FrontBound(g, s, q, k, q[j].vertex, p);
      var i :| 0 <= i < k && q[i].vertex == q[j].vertex && q[i].weight <= w;
      FrontStep(g, s, q, k, j, i);
      NoDistance(g, s, q[j].vertex, p);
      assert false;
    }
  }

  lemma NoDistance(g: Graph, s: nat, v: nat, p: seq<nat>)
    requires Walk(g, s, v, p)
    ensures Distance(g, v, v) == 0
  {
  }

  /** Weights never grow, and items behind the source stay there. */
  lemma Lighter(g: Graph, q: seq<Item>, r: seq<Item>, k: nat, j: nat) returns (i: nat)
    requires Turn(g, q, r, k) && j < |q|
    ensures i < |r| && r[i].vertex == q[j].vertex && r[i].weight <= q[j].weight && (j >= 1 ==> i >= 1)
    ensures k < j ==> r[i].weight == RelaxedItem(g, q[k], q[j]).weight
  {
    hide RelaxedItem, Sorted, Vertices;
    if j <= k {
      i := j;
      assert r[j] == r[..k + 1][j] == q[..k + 1][j];
    } else {
      var rest := RelaxedAll(g, q, k);
      RelaxedParts(g, q[k], q[j]);
      assert q[k + 1 + (j - k - 1)] == q[j];
      assert rest[j - k - 1] in multiset(r[k + 1..]);
      var m :| 0 <= m < |r[k + 1..]| && r[k + 1..][m] == rest[j - k - 1];
      i := k + 1 + m;
    }
  }

  lemma {:induction false} LighterOn(g: Graph, s: nat, qs: seq<seq<Item>>, k: nat, j: nat) returns (i: nat)
    requires Search(g, s, qs) && k <= |g| && 1 <= j < |qs[k]|
    ensures 1 <= i < |qs[|g|]| && qs[|g|][i].vertex == qs[k][j].vertex && qs[|g|][i].weight <= qs[k][j].weight
    decreases |g| - k
  {
    hide Turn, Rearranged, Sorted, Initial;
    if k == |g| {
      i := j;
    } else {
      assert Turn(g, qs[k], qs[k + 1], k);
      var m := Lighter(g, qs[k], qs[k + 1], k, j);
      i := LighterOn(g, s, qs, k + 1, m);
    }
  }

  /** A sum that wraps makes an item too light for good. */
  lemma WrapShows(g: Graph, s: nat, qs: seq<seq<Item>>, k: nat)
    requires Search(g, s, qs) && k < |g| && Settled(g, s, qs[k], k) && !Exact(g, qs[k], k)
    ensures !Right(g, s, qs[|g|])
  {
    hide Shortest, Turn, Queue, Settled, Distance, RelaxedItem, Rearranged, Sorted, Initial;
    var q := qs[k];
    SearchQueue(g, s, qs, k);
    QueueLength(g, s, q, k);
    var j :| k < j < |q| && q[k].weight + Distance(g, q[k].vertex, q[j].vertex) >= WORDS;
    assert Turn(g, q, qs[k + 1], k);
    FrontSorted(g, s, q, k, j);
    RelaxedParts(g, q[k], q[j]);
    var m := Lighter(g, q, qs[k + 1], k, j);
    var i := LighterOn(g, s, qs, k + 1, m);
    NotNearer(g, s, q, k, j, qs[|g|][i].weight);
  }

  lemma FrontSorted(g: Graph, s: nat, q: seq<Item>, k: nat, j: nat)
    requires Queue(g, s, q, k) && k < j < |q|
    ensures q[k].weight <= q[j].weight
  {
    assert q[k..][0] == q[k] && q[k..][j - k] == q[j];
  }

  lemma {:induction false} FirstWrap(g: Graph, qs: seq<seq<Item>>, n: nat) returns (k: nat)
    requires n <= |qs| && !AllExact(g, qs, n)
    ensures k < n && AllExact(g, qs, k) && !Exact(g, qs[k], k)
  {
    hide Exact;
    if n > 0 && !AllExact(g, qs, n - 1) {
      k := FirstWrap(g, qs, n - 1);
    } else {
      k := n - 1;
    }
  }

  /** Every run ends with shortest distances if and only if none of its sums wraps. */
  lemma RunExact(g: Graph, s: nat, qs: seq<seq<Item>>)
    requires Search(g, s, qs)
    ensures Right(g, s, qs[|g|]) <==> AllExact(g, qs, |g|)
  {
    hide Right, Exact, Settled, Queue, Search;
    SearchLength(g, s, qs);
    if AllExact(g, qs, |g|) {
      SearchQueue(g, s, qs, |g|);
      SearchSettles(g, s, qs, |g|);
      QueueLength(g, s, qs[|g|], |g|);
      SettledRight(g, s, qs[|g|]);
    } else {
      var k := FirstWrap(g, qs, |g|);
      SearchSettles(g, s, qs, k);
      WrapShows(g, s, qs, k);
    }
  }

  // ---------------------------------------------------------------- which weights are too heavy

  lemma Inserted(q: seq<Item>, r: seq<Item>, j: nat, x: Item)
    requires Rearranged(q, r) && j <= |r|
    ensures Rearranged(q + [x], r[..j] + [x] + r[j..])
  {
    var t := r[..j] + [x] + r[j..];
    assert r == r[..j] + r[j..];
    assert Vertices(r) == Vertices(r[..j]) + Vertices(r[j..]);
    assert Vertices(t) == Vertices(r[..j]) + [x.vertex] + Vertices(r[j..]);
    assert Vertices(q + [x]) == Vertices(q) + [x.vertex];
  }

  /** Where an item can be put among sorted ones. */
  ghost predicate Place(r: seq<Item>, j: nat, x: Item) {
    && j <= |r| && (forall k :: 0 <= k < j ==> r[k].weight <= x.weight)
    && forall k :: j <= k < |r| ==> x.weight <= r[k].weight
  }

  lemma SortedInserted(r: seq<Item>, j: nat, x: Item)
    requires Sorted(r) && Place(r, j, x)
    ensures Sorted(r[..j] + [x] + r[j..])
  {
    var t := r[..j] + [x] + r[j..];
    assert forall i :: 0 <= i < |t| ==> t[i] == if i < j then r[i] else if i == j then x else r[i - 1];
  }

  lemma Nothing()
    ensures Rearranged([], []) && Sorted([])
  {
  }

  lemma {:induction false} HasPlace(t: seq<Item>, x: Item, n: nat) returns (j: nat)
    requires Sorted(t) && n <= |t| && forall k :: n <= k < |t| ==> x.weight <= t[k].weight
    ensures Place(t, j, x)
    decreases n
  {
    if n > 0 && x.weight < t[n - 1].weight { j := HasPlace(t, x, n - 1); } else { j := n; }
  }

  /** Some arrangement by weight. */
  lemma {:induction false} Sortable(q: seq<Item>) returns (r: seq<Item>)
    ensures Sorted(r) && Rearranged(q, r)
  {
    hide Rearranged, Sorted, Place;
    if q == [] {
      r := [];
      Nothing();
    } else {
      var n := |q| - 1;
      var t := Sortable(q[..n]);
      var j := HasPlace(t, q[n], |t|);
      PlaceBounds(t, j, q[n]);
      SortedInserted(t, j, q[n]);
      Inserted(q[..n], t, j, q[n]);
      assert q[..n] + [q[n]] == q;
      r := t[..j] + [q[n]] + t[j..];
    }
  }

  /** Every graph can be searched. */
  lemma SomeSearch(g: Graph, s: nat) returns (qs: seq<seq<Item>>)
    requires InGraph(g, s)
    ensures Search(g, s, qs)
  {
    hide Rearranged, Sorted, RelaxedItem;
    var q := Sortable(Initial(g, s));
    RearrangedLength(Initial(g, s), q);
    qs := [q];
    for n := 0 to |g|
      invariant |qs| == n + 1 && qs[0] == q && |qs[n]| == |g|
      invariant forall k :: 0 <= k < n ==> Turn(g, qs[k], qs[k + 1], k)
    {
      var rest := Sortable(RelaxedAll(g, qs[n], n));
      RearrangedLength(RelaxedAll(g, qs[n], n), rest);
      var next := qs[n][..n + 1] + rest;
      assert next[..n + 1] == qs[n][..n + 1] && next[n + 1..] == rest;
      assert Turn(g, qs[n], next, n);
      qs := qs + [next];
    }
  }

  lemma RearrangedLength(q: seq<Item>, r: seq<Item>)
    requires Rearranged(q, r)
    ensures |q| == |r|
  {
  }

  /** A source without edges, and two vertices joined by edges of weight w. */
  function Pair(w: Word): Graph {
    [Adjacency(0, []), Adjacency(1, [Edge(2, w)]), Adjacency(2, [Edge(1, w)])]
  }

  lemma PairDistances(w: Word)
    ensures Distance(Pair(w), 0, 1) == Distance(Pair(w), 0, 2) == INFINITY
    ensures Distance(Pair(w), 1, 2) == Distance(Pair(w), 2, 1) == w
    ensures forall v :: InGraph(Pair(w), v) <==> 0 <= v <= 2
  {
    var g := Pair(w);
    assert g[0].vertex == 0 && g[1].vertex == 1 && g[2].vertex == 2;
    assert Edges(g, 0) == [];
    assert g[1..][1..] == g[2..];
    assert Edges(g, 1) == Edges(g[1..], 1) == g[1].edges && Edges(g[2..], 2) == g[2].edges;
    assert Edges(g, 2) == Edges(g[1..], 2) == Edges(g[2..], 2);
    assert FirstWeight(g[1].edges, 2) == w && FirstWeight(g[2].edges, 1) == w;
  }

  /** Every walk that leaves the source is too long. */
  lemma {:induction false} PairWalk(w: Word, v: nat, p: seq<nat>)
    requires Walk(Pair(w), 0, v, p) && v != 0
    ensures Length(Pair(w), p) >= INFINITY
    decreases |p|
  {
    hide Distance, InGraph;
    PairDistances(w);
    var u := p[|p| - 2];
    assert InGraph(Pair(w), u) && InGraph(Pair(w), v);
    if u != 0 { PairWalk(w, u, p[..|p| - 1]); }
  }

  lemma PairShortest(w: Word, v: nat, d: Word)
    requires v != 0 && Shortest(Pair(w), 0, v, d)
    ensures d == INFINITY
  {
    hide Length;
    if d != INFINITY {
      var p :| Walk(Pair(w), 0, v, p) && Length(Pair(w), p) == d;
      PairWalk(w, v, p);
    }
  }

  /** The two vertices behind the source. */
  lemma PairQueue(w: Word, q: seq<Item>)
    requires Queue(Pair(w), 0, q, 1)
    ensures |q| == 3 && ((q[1].vertex == 1 && q[2].vertex == 2) || (q[1].vertex == 2 && q[2].vertex == 1))
  {
    var vs := Vertices(q);
    assert GraphVertices(Pair(w)) == [0, 1, 2];
    assert vs == [0, q[1].vertex, q[2].vertex];
    assert multiset(vs) == multiset{0, q[1].vertex, q[2].vertex} == multiset{0, 1, 2};
    assert multiset{0, q[1].vertex, q[2].vertex}[1] == 1 && multiset{0, q[1].vertex, q[2].vertex}[2] == 1;
  }

  /** With an edge that is too heavy, every run from the source returns a wrong distance. */
  lemma HeavyWrong(w: Word, qs: seq<seq<Item>>)
    requires w > HEAVIEST && Search(Pair(w), 0, qs)
    ensures !Right(Pair(w), 0, qs[3])
  {
    hide Queue, Shortest, Distance, Rearranged, Sorted, Initial;
    var g := Pair(w);
    if Right(g, 0, qs[3]) {
      RunExact(g, 0, qs);
      assert Exact(g, qs[1], 1);
      SearchQueue(g, 0, qs, 1);
      PairQueue(w, qs[1]);
      PairDistances(w);
      assert Turn(g, qs[1], qs[2], 1) && Turn(g, qs[2], qs[3], 2);
      assert qs[3][1] == qs[3][..3][1] == qs[2][..3][1] == qs[2][..2][1] == qs[1][..2][1];
      PairShortest(w, qs[3][1].vertex, qs[3][1].weight);
      assert false;
    }
  }

  /** Among graphs with weights up to w, every run returns shortest distances if and only if w is at most 0x80000000. */
  lemma WeightBound(w: Word)
    ensures (forall g: Graph, s: nat, qs: seq<seq<Item>> :: Within(g, w) && Search(g, s, qs) ==> Right(g, s, qs[|g|]))
       <==> w <= HEAVIEST
  {
    hide Right, Search;
    if w <= HEAVIEST {
      forall g: Graph, s: nat, qs: seq<seq<Item>> | Within(g, w) && Search(g, s, qs)
        ensures |qs| == |g| + 1 && Right(g, s, qs[|g|])
      {
        SearchLength(g, s, qs);
        LightShortest(g, s, qs);
      }
    } else {
      PairDistances(w);
      var qs := SomeSearch(Pair(w), 0);
      HeavyWrong(w, qs);
      assert Within(Pair(w), w);
    }
  }

  // ---------------------------------------------------------------- the operations

  method Member(g: Graph, v: nat) returns (found: bool)
    ensures found == InGraph(g, v)
  {
    found := false;
    for i := 0 to |g|
      invariant found == exists k :: 0 <= k < i && g[k].vertex == v
    {
      if g[i].vertex == v { found := true; }
    }
  }

  /** opal_graph_adjacent. */
  method Adjacent(g: Graph, u: nat, v: nat) returns (w: nat)
    ensures w == Distance(g, u, v) && Weighs(g, u, v, w)
  {
    hide Weighs;
    DistanceWeighs(g, u, v);
    var inU := Member(g, u);
    if !inU { return INFINITY; }
    var inV := Member(g, v);
    if !inV { return INFINITY; }
    if u == v { return 0; }
    var k := 0;
    while g[k].vertex != u
      invariant k < |g| && Edges(g, u) == Edges(g[k..], u)
      invariant exists i :: k <= i < |g| && g[i].vertex == u
      decreases |g| - k
    {
      assert g[k..][1..] == g[k + 1..];
      k := k + 1;
    }
    var edges := g[k].edges;
    for i := 0 to |edges|
      invariant FirstWeight(edges, v) == FirstWeight(edges[i..], v)
    {
      assert edges[i..][1..] == edges[i + 1..];
      if edges[i].end == v { return edges[i].weight; }
    }
    return INFINITY;
  }

  method PlaceOf(r: seq<Item>, x: Item) returns (j: nat)
    requires Sorted(r)
    ensures Place(r, j, x)
  {
    j := |r|;
    while j > 0 && x.weight < r[j - 1].weight
      invariant j <= |r| && forall k :: j <= k < |r| ==> x.weight <= r[k].weight
    {
      j := j - 1;
    }
  }

  lemma PlaceBounds(r: seq<Item>, j: nat, x: Item)
    requires Place(r, j, x)
    ensures j <= |r|
  {
  }

  /** qsort with compare_vertex_distance: some arrangement of the items by weight. */
  method SortItems(q: seq<Item>) returns (r: seq<Item>)
    ensures Sorted(r) && Rearranged(q, r)
  {
    hide Rearranged, Sorted, Place;
    r := [];
    Nothing();
    assert q[..0] == [];
    for i := 0 to |q|
      invariant Sorted(r) && Rearranged(q[..i], r)
    {
      var j := PlaceOf(r, q[i]);
      PlaceBounds(r, j, q[i]);
      SortedInserted(r, j, q[i]);
      Inserted(q[..i], r, j, q[i]);
      assert q[..i] + [q[i]] == q[..i + 1];
      r := r[..j] + [q[i]] + r[j..];
    }
    assert q[..|q|] == q;
  }

  method SortFrom(q: array<Item>, start: nat)
    requires start <= q.Length
    modifies q
    ensures q[..start] == old(q[..start]) && Sorted(q[start..]) && Rearranged(old(q[start..]), q[start..])
  {
    var r := SortItems(q[start..]);
    for i := start to q.Length
      modifies q
      invariant q[..start] == old(q[..start]) && forall k :: start <= k < i ==> q[k] == r[k - start]
    {
      q[i] := r[i - start];
    }
    assert q[start..] == r;
  }

  /** The working queue is filled. */
  method Fill(g: Graph, s: nat, q: array<Item>)
    requires q.Length == |g|
    modifies q
    ensures q[..] == Initial(g, s)
  {
    for i := 0 to |g|
      modifies q
      invariant forall k :: 0 <= k < i ==> q[k] == Initial(g, s)[k]
    {
      q[i] := Item(g[i].vertex, if g[i].vertex == s then 0 else INFINITY);
    }
  }

  /** The queue behind a newly final vertex is compared with it. */
  method RelaxFrom(g: Graph, q: array<Item>, start: nat)
    requires 0 < start <= q.Length
    modifies q
    ensures q[..start] == old(q[..start]) && q[start..] == RelaxedAll(g, old(q[..]), start - 1)
  {
    hide Distance;
    var x := q[start - 1];
    for i := start to q.Length
      modifies q
      invariant q[..start] == old(q[..start]) && forall k :: i <= k < q.Length ==> q[k] == old(q[k])
      invariant forall k :: start <= k < i ==> q[k] == RelaxedItem(g, x, old(q[k]))
    {
      var y := q[i];
      var weight := Adjacent(g, x.vertex, y.vertex);
      if Add32(x.weight, weight) < y.weight {
        q[i] := y.(weight := Add32(weight, x.weight));
      }
    }
  }

  /** One round: the nearest vertex becomes final, the others are compared with it and sorted again. */
  method NextRound(g: Graph, q: array<Item>, start: nat)
    requires start < q.Length
    modifies q
    ensures Turn(g, old(q[..]), q[..], start)
  {
    hide RelaxedItem, Rearranged, Sorted;
    ghost var was := q[..];
    assert q[..start + 1] == was[..start + 1];
    RelaxFrom(g, q, start + 1);
    SortFrom(q, start + 1);
    assert q[..][..start + 1] == q[..start + 1] && q[..][start + 1..] == q[start + 1..];
  }

  /** opal_graph_dijkstra: the vertices other than s are appended with the weights that a run of the search ends with,
      each its shortest distance from s unless some edge is heavier than 0x80000000. */
  method Distances(g: Graph, s: nat, distances: seq<Item>) returns (count: nat, result: seq<Item>,
          ghost qs: seq<seq<Item>>)
    ensures !InGraph(g, s) ==> count == 0 && result == distances
    ensures InGraph(g, s) ==> Search(g, s, qs) && qs[|g|] != [] && result == distances + qs[|g|][1..]
    ensures InGraph(g, s) ==> count == |g| - 1 == |result| - |distances|
    ensures InGraph(g, s) ==> multiset(Vertices(result[|distances|..])) == multiset(GraphVertices(g)) - multiset{s}
    ensures InGraph(g, s) && Within(g, HEAVIEST) ==>
              forall i :: |distances| <= i < |result| ==> Shortest(g, s, result[i].vertex, result[i].weight)
  {
    hide Shortest, Sorted, Vertices, GraphVertices, Rearranged, Within, Initial, Turn;
    qs := [];
    var found := Member(g, s);
    if !found { return 0, distances, []; }
    var q := new Item[|g|];
    Fill(g, s, q);
    assert q[0..] == q[..];
    SortFrom(q, 0);
    assert q[0..] == q[..];
    qs := [q[..]];
    for start := 0 to q.Length
      invariant |qs| == start + 1 && qs[start] == q[..] && Rearranged(Initial(g, s), qs[0]) && Sorted(qs[0])
      invariant forall k :: 0 <= k < start ==> Turn(g, qs[k], qs[k + 1], k)
    {
      NextRound(g, q, start);
      qs := qs + [q[..]];
    }
    Appended(g, s, qs);
    result := distances + q[1..];
    count := |g| - 1;
    assert result[|distances|..] == q[1..];
    if Within(g, HEAVIEST) { LightShortest(g, s, qs); }
  }
}
