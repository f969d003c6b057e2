/**
 Whole runs of the red-black tree: every sequence of operations answers as a bag of entries does.
 */
module RbRuns {
  import opened RbShape
  import opened RbTree

  datatype Operation = Insert(key: int, val: int) | Delete(key: int) | Find(key: int)

  datatype Answer = Answer(ok: bool, val: int)

  type Bag = multiset<(int, int)>

  ghost predicate HasKey(b: Bag, key: int) { exists v: int :: (key, v) in b }

  /** What an operation may answer and leave, seen as an operation on a bag; among entries with equal keys
      any one may be found or deleted. */
  ghost predicate Explains(b: Bag, op: Operation, answer: Answer, next: Bag) {
    match op
    case Insert(k, v) => next == b + multiset{(k, v)}
    case Delete(k) =>
      && (answer.ok <==> HasKey(b, k))
      && (if answer.ok then exists v: int :: (k, v) in b && next == b - multiset{(k, v)} else next == b)
    case Find(k) => next == b && (answer.ok <==> HasKey(b, k)) && (answer.ok ==> (k, answer.val) in b)
  }

  ghost function BagOf(items: seq<Item>): Bag { multiset(Entries(items)) }

  lemma EntriesAppend(a: seq<Item>, b: seq<Item>)
    ensures Entries(a + b) == Entries(a) + Entries(b)
  {
  }

  lemma BagInsert(items: seq<Item>, at: nat, x: Item)
    requires at <= |items|
    ensures BagOf(items[..at] + [x] + items[at..]) == BagOf(items) + multiset{(x.key, x.val)}
  {
    EntriesAppend(items[..at] + [x], items[at..]);
    EntriesAppend(items[..at], [x]);
    EntriesAppend(items[..at], items[at..]);
    assert items[..at] + items[at..] == items && Entries([x]) == [(x.key, x.val)];
  }

  lemma BagDelete(items: seq<Item>, at: nat, after: seq<Item>)
    requires at < |items| && Entries(after) == Entries(items)[..at] + Entries(items)[at + 1..]
    ensures (items[at].key, items[at].val) in BagOf(items)
    ensures BagOf(after) == BagOf(items) - multiset{(items[at].key, items[at].val)}
  {
    var e := Entries(items);
    assert e == e[..at] + [e[at]] + e[at + 1..];
  }

  lemma EntryIn(items: seq<Item>, i: nat)
    requires i < |items|
    ensures (items[i].key, items[i].val) in BagOf(items)
  {
    assert Entries(items)[i] == (items[i].key, items[i].val);
  }

  lemma KeyIn(items: seq<Item>, key: int)
    ensures HasKey(BagOf(items), key) <==> exists i :: 0 <= i < |items| && items[i].key == key
  {
    if HasKey(BagOf(items), key) {
      var v: int :| (key, v) in BagOf(items);
      assert (key, v) in Entries(items);
      var i :| 0 <= i < |items| && Entries(items)[i] == (key, v);
      assert items[i].key == key;
    }
    forall i | 0 <= i < |items| && items[i].key == key ensures HasKey(BagOf(items), key) { EntryIn(items, i); }
  }

  lemma AvoidsNew(items: seq<Item>, at: nat, x: Item, n: Ptr)
    requires at <= |items| && Avoids(items, n) && n != x.id
    ensures Avoids(items[..at] + [x] + items[at..], n)
  {
  }

  /** The free list of nodes: those returned, last one first, and behind them nodes never used, from next on. */
  datatype Pool = Pool(returned: seq<Ptr>, next: Ptr)

  predicate InPool(pool: Pool, n: Ptr) { n in pool.returned || n >= pool.next }

  /** No node is there twice. */
  predicate Neat(pool: Pool) {
    && (forall i :: 0 <= i < |pool.returned| ==> pool.returned[i] < pool.next)
    && (forall i, j :: 0 <= i < j < |pool.returned| ==> pool.returned[i] != pool.returned[j])
  }

  /** No node of the pool is in use. */
  ghost predicate Unused(t: RedBlackTree, pool: Pool)
    reads t
  {
    && Neat(pool) && !InPool(pool, t.root) && !InPool(pool, t.nill)
    && forall n: Ptr :: InPool(pool, n) ==> Avoids(Items(t.tree), n)
  }

  /** opal_free_list_get: the node returned last, or else a new one. */
  method Get(pool: Pool) returns (node: Ptr, rest: Pool)
    requires Neat(pool)
    ensures Neat(rest) && node == if pool.returned == [] then pool.next else pool.returned[|pool.returned| - 1]
    ensures forall n: Ptr :: InPool(pool, n) <==> n == node || InPool(rest, n)
    ensures !InPool(rest, node)
  {
    if pool.returned != [] {
      var k := |pool.returned| - 1;
      node, rest := pool.returned[k], pool.(returned := pool.returned[..k]);
      assert pool.returned == rest.returned + [node];
    } else {
      node, rest := pool.next, pool.(next := pool.next + 1);
    }
  }

  /** opal_free_list_return. */
  method Return(pool: Pool, node: Ptr) returns (more: Pool)
    requires Neat(pool) && !InPool(pool, node)
    ensures Neat(more) && more == Pool(pool.returned + [node], pool.next)
    ensures forall n: Ptr :: InPool(more, n) <==> n == node || InPool(pool, n)
  {
    more := pool.(returned := pool.returned + [node]);
  }

  /** One operation; the node of an insert comes from the pool, and that of a delete goes back to it. */
  method Step(t: RedBlackTree, op: Operation, pool: Pool) returns (answer: Answer, pool': Pool)
    requires t.Valid() && Unused(t, pool)
    modifies t
    ensures t.Valid() && Unused(t, pool') && Explains(old(BagOf(Items(t.tree))), op, answer, BagOf(Items(t.tree)))
  {
    hide BagOf, Entries, HasKey, Avoids, RedBlackTree.Valid;
    ghost var items := Items(t.tree);
    pool' := pool;
    match op
    case Insert(k, v) =>
      var node;
      node, pool' := Get(pool);
      assert InPool(pool, node);
      ghost var at := t.Insert(node, k, v);
      BagInsert(items, at, RbShape.Item(node, k, v));
      forall n: Ptr | InPool(pool', n) ensures Avoids(Items(t.tree), n) {
        AvoidsNew(items, at, RbShape.Item(node, k, v), n);
      }
      answer := Answer(true, v);
    case Delete(k) =>
      KeyIn(items, k);
      var ok, freed;
      ghost var at;
      ok, freed, at := t.Delete(k);
      if ok {
        BagDelete(items, at, Items(t.tree));
        assert !InPool(pool, freed);
        pool' := Return(pool, freed);
      }
      answer := Answer(ok, 0);
    case Find(k) =>
      KeyIn(items, k);
      var ok, val := t.Find(k);
      if ok {
        ghost var i: nat :| i < |items| && items[i].key == k && items[i].val == val;
        EntryIn(items, i);
      }
      answer := Answer(ok, val);
  }

  /** Every run of inserts, deletes and finds, with freed nodes used again: each answer is that of a bag of entries,
      and the tree stays a red-black tree that holds the bag and counts its entries. */
  method Run(ops: seq<Operation>) returns (t: RedBlackTree, answers: seq<Answer>, ghost bags: seq<Bag>)
    ensures |answers| == |ops| && |bags| == |ops| + 1 && bags[0] == multiset{}
    ensures forall i :: 0 <= i < |ops| ==> Explains(bags[i], ops[i], answers[i], bags[i + 1])
    ensures fresh(t) && t.Valid() && BagOf(Items(t.tree)) == bags[|ops|] && t.size == |bags[|ops|]|
  {
    hide Explains, RedBlackTree.Valid;
    t := new RedBlackTree(1, 2);
    answers, bags := [], [multiset{}];
    assert Items(t.tree) == [] && Entries([]) == [];
    var pool := Pool([], 3);
    for k := 0 to |ops|
      invariant t.Valid() && fresh(t) && Unused(t, pool)
      invariant |answers| == k && |bags| == k + 1 && bags[0] == multiset{} && bags[k] == BagOf(Items(t.tree))
      invariant forall i :: 0 <= i < k ==> Explains(bags[i], ops[i], answers[i], bags[i + 1])
    {
      var answer;
      answer, pool := Step(t, ops[k], pool);
      answers, bags := answers + [answer], bags + [BagOf(Items(t.tree))];
    }
    SizeIs(t);
  }

  lemma SizeIs(t: RedBlackTree)
    requires t.Valid()
    ensures t.size == |BagOf(Items(t.tree))|
  {
  }
}
