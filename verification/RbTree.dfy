/**
 The red-black tree of opal_rb_tree.c: nodes linked by left, right and parent pointers, a root_ptr sentinel
 above the root and a shared nill below the leaves.
 */
module RbTree {
  import opened RbShape

  datatype Node = Node(red: bool, key: int, val: int, parent: Ptr, left: Ptr, right: Ptr)

  /** Memory: what each node pointer refers to. */
  type Heap = map<Ptr, Node>

  function Child(n: Node, left: bool): Ptr { if left then n.left else n.right }

  function SetChild(n: Node, left: bool, v: Ptr): Node { if left then n.(left := v) else n.(right := v) }

  // ---------------------------------------------------------------- representation

  function Ref(t: Tree, nill: Ptr): Ptr { if t.Leaf? then nill else t.item.id }

  /** The node that holds an item. */
  function NodeOf(item: Item, red: bool, parent: Ptr, left: Ptr, right: Ptr): Node {
    Node(red, item.key, item.val, parent, left, right) }

  ghost predicate Rep(h: Heap, nill: Ptr, t: Tree, parent: Ptr) {
    t.Bin? ==>
      && t.item.id in h && h[t.item.id] == NodeOf(t.item, t.red, parent, Ref(t.l, nill), Ref(t.r, nill))
      && Rep(h, nill, t.l, t.item.id) && Rep(h, nill, t.r, t.item.id)
  }

  function Parent(root: Ptr, p: Path): Ptr { if p.Top? then root else p.item.id }

  /** The nodes above a position, which holds pointer hole. */
  ghost predicate RepPath(h: Heap, root: Ptr, nill: Ptr, p: Path, hole: Ptr) {
    match p
    case Top => root in h && !h[root].red && h[root].left == hole && h[root].right == nill
    case Below(up, left, item, red, other) =>
      && item.id in h
      && h[item.id] == NodeOf(item, red, Parent(root, up),
                               if left then hole else Ref(other, nill), if left then Ref(other, nill) else hole)
      && Rep(h, nill, other, item.id) && RepPath(h, root, nill, up, item.id)
  }

  predicate Avoids(items: seq<Item>, x: Ptr) { forall i :: 0 <= i < |items| ==> items[i].id != x }

  predicate NoDup(items: seq<Item>) { forall i, j :: 0 <= i < j < |items| ==> items[i].id != items[j].id }

  /** Every entry has a node of its own, and none of them is a sentinel. */
  predicate Clean(root: Ptr, nill: Ptr, items: seq<Item>) {
    NoDup(items) && Avoids(items, root) && Avoids(items, nill) && root != nill
  }

  /** The tree with t at position p is in memory. */
  ghost predicate Stored(h: Heap, root: Ptr, nill: Ptr, p: Path, t: Tree) {
    && Clean(root, nill, All(p, t)) && nill in h && !h[nill].red
    && RepPath(h, root, nill, p, Ref(t, nill)) && Rep(h, nill, t, Parent(root, p))
  }

  lemma AvoidsAppend(a: seq<Item>, b: seq<Item>, x: Ptr)
    ensures Avoids(a + b, x) <==> Avoids(a, x) && Avoids(b, x)
  {
    assert forall i :: 0 <= i < |a| ==> (a + b)[i] == a[i];
    assert forall i :: 0 <= i < |b| ==> (a + b)[|a| + i] == b[i];
  }

  predicate Disjoint(a: seq<Item>, b: seq<Item>) { forall i, j :: 0 <= i < |a| && 0 <= j < |b| ==> a[i].id != b[j].id }

  lemma NoDupAppend(a: seq<Item>, b: seq<Item>)
    requires NoDup(a + b)
    ensures NoDup(a) && NoDup(b) && Disjoint(a, b)
  {
    assert forall i :: 0 <= i < |a| ==> (a + b)[i] == a[i];
    assert forall i :: 0 <= i < |b| ==> (a + b)[|a| + i] == b[i];
  }

  /** The items of a joined tree, apart. */
  lemma BinApart(t: Tree)
    requires t.Bin? && NoDup(Items(t))
    ensures NoDup(Items(t.l)) && NoDup(Items(t.r)) && Avoids(Items(t.l), t.item.id) && Avoids(Items(t.r), t.item.id)
    ensures Disjoint(Items(t.l), Items(t.r))
  {
    var l, r := Items(t.l), Items(t.r);
    NoDupAppend(l + [t.item], r);
    NoDupAppend(l, [t.item]);
    assert forall i :: 0 <= i < |l| ==> (l + [t.item])[i] == l[i];
    assert (l + [t.item])[|l|] == t.item;
  }

  lemma BinAvoids(t: Tree, x: Ptr)
    requires t.Bin?
    ensures Avoids(Items(t), x) <==> Avoids(Items(t.l), x) && Avoids(Items(t.r), x) && t.item.id != x
  {
    AvoidsAppend(Items(t.l) + [t.item], Items(t.r), x);
    AvoidsAppend(Items(t.l), [t.item], x);
    assert [t.item][0] == t.item;
  }

  // ---------------------------------------------------------------- frames

  /** Memory is the same at the nodes of these items. */
  ghost predicate Same(h: Heap, g: Heap, items: seq<Item>) {
    forall i :: 0 <= i < |items| && items[i].id in h ==> items[i].id in g && g[items[i].id] == h[items[i].id]
  }

  lemma SameAppend(h: Heap, g: Heap, a: seq<Item>, b: seq<Item>)
    ensures Same(h, g, a + b) <==> Same(h, g, a) && Same(h, g, b)
  {
    assert forall i :: 0 <= i < |a| ==> (a + b)[i] == a[i];
    assert forall i :: 0 <= i < |b| ==> (a + b)[|a| + i] == b[i];
  }

  lemma {:induction false} RepSame(h: Heap, g: Heap, nill: Ptr, t: Tree, parent: Ptr)
    requires Rep(h, nill, t, parent) && Same(h, g, Items(t))
    ensures Rep(g, nill, t, parent)
    decreases t
  {
    hide Same;
    if t.Bin? {
      SameAppend(h, g, Items(t.l) + [t.item], Items(t.r));
      SameAppend(h, g, Items(t.l), [t.item]);
      SameOne(h, g, t.item);
      RepSame(h, g, nill, t.l, t.item.id);
      RepSame(h, g, nill, t.r, t.item.id);
    }
  }

  lemma SameOne(h: Heap, g: Heap, x: Item)
    ensures Same(h, g, [x]) <==> (x.id in h ==> x.id in g && g[x.id] == h[x.id])
  {
    assert [x][0] == x;
  }

  lemma {:induction false} RepPathSame(h: Heap, g: Heap, root: Ptr, nill: Ptr, p: Path, hole: Ptr)
    requires RepPath(h, root, nill, p, hole) && Same(h, g, Before(p)) && Same(h, g, Behind(p)) && root in g && root in h
    requires g[root] == h[root]
    ensures RepPath(g, root, nill, p, hole)
    decreases p
  {
    hide Same;
    if p.Below? {
      PathSame(h, g, p);
      RepSame(h, g, nill, p.other, p.item.id);
      RepPathSame(h, g, root, nill, p.up, p.item.id);
    }
  }

  lemma PathSame(h: Heap, g: Heap, p: Path)
    requires p.Below?
    ensures Same(h, g, Before(p)) && Same(h, g, Behind(p))
        <==> && Same(h, g, Before(p.up)) && Same(h, g, Behind(p.up)) && Same(h, g, Items(p.other))
             && (p.item.id in h ==> p.item.id in g && g[p.item.id] == h[p.item.id])
  {
    hide Same;
    var o := Items(p.other);
    SameOne(h, g, p.item);
    if p.left {
      SameAppend(h, g, [p.item] + o, Behind(p.up));
      SameAppend(h, g, [p.item], o);
    } else {
      SameAppend(h, g, Before(p.up) + o, [p.item]);
      SameAppend(h, g, Before(p.up), o);
    }
  }

  /** Memory changed only at these nodes. */
  ghost predicate SameBut(h: Heap, g: Heap, xs: set<Ptr>) {
    forall k :: k in h && k !in xs ==> k in g && g[k] == h[k]
  }

  lemma SameFrom(h: Heap, g: Heap, xs: set<Ptr>, items: seq<Item>)
    requires SameBut(h, g, xs) && forall x :: x in xs ==> Avoids(items, x)
    ensures Same(h, g, items)
  {
    forall i | 0 <= i < |items| && items[i].id in h ensures items[i].id in g && g[items[i].id] == h[items[i].id] {
      assert items[i].id !in xs;
    }
  }

  lemma DisjointAvoids(a: seq<Item>, b: seq<Item>, x: Item)
    requires Disjoint(a, b) && x in b
    ensures Avoids(a, x.id)
  {
  }

  lemma DisjointFlip(a: seq<Item>, b: seq<Item>)
    requires Disjoint(a, b)
    ensures Disjoint(b, a)
  {
  }

  /** The position and its surroundings have no node in common. */
  lemma PathApart(p: Path, t: Tree)
    requires NoDup(All(p, t))
    ensures NoDup(Items(t)) && Disjoint(Before(p), Items(t)) && Disjoint(Behind(p), Items(t))
  {
    hide Before, Behind, Items, NoDup, Disjoint;
    NoDupAppend(Before(p) + Items(t), Behind(p));
    NoDupAppend(Before(p), Items(t));
    DisjointRight(Before(p), Items(t), Behind(p));
  }

  lemma DisjointRight(a: seq<Item>, b: seq<Item>, c: seq<Item>)
    requires Disjoint(a + b, c)
    ensures Disjoint(c, b)
  {
    assert forall i :: 0 <= i < |b| ==> (a + b)[|a| + i] == b[i];
  }

  lemma CleanParts(root: Ptr, nill: Ptr, p: Path, t: Tree)
    requires Clean(root, nill, All(p, t))
    ensures Avoids(Items(t), root) && Avoids(Items(t), nill) && Avoids(Before(p), root) && Avoids(Behind(p), root)
    ensures Avoids(Before(p), nill) && Avoids(Behind(p), nill)
    ensures NoDup(Items(t)) && Disjoint(Before(p), Items(t)) && Disjoint(Behind(p), Items(t))
  {
    hide Avoids, Disjoint, NoDup;
    PathApart(p, t);
    AvoidsAppend(Before(p) + Items(t), Behind(p), root);
    AvoidsAppend(Before(p), Items(t), root);
    AvoidsAppend(Before(p) + Items(t), Behind(p), nill);
    AvoidsAppend(Before(p), Items(t), nill);
  }

  /** Everything around a node of the tree avoids it. */
  lemma NodeApart(p: Path, t: Tree)
    requires NoDup(All(p, t)) && t.Bin?
    ensures Avoids(Before(p), t.item.id) && Avoids(Behind(p), t.item.id)
    ensures Avoids(Items(t.l), t.item.id) && Avoids(Items(t.r), t.item.id) && Disjoint(Items(t.l), Items(t.r))
    ensures Disjoint(Before(p), Items(t.l)) && Disjoint(Behind(p), Items(t.l)) && Disjoint(Before(p), Items(t.r))
    ensures Disjoint(Behind(p), Items(t.r))
    ensures NoDup(Items(t.l)) && NoDup(Items(t.r))
  {
    hide Avoids, Disjoint, NoDup, Before, Behind;
    PathApart(p, t);
    BinApart(t);
    ItemIn(t);
    DisjointAvoids(Before(p), Items(t), t.item);
    DisjointAvoids(Behind(p), Items(t), t.item);
    DisjointBin(Before(p), t);
    DisjointBin(Behind(p), t);
  }

  lemma ItemIn(t: Tree)
    requires t.Bin?
    ensures t.item in Items(t)
  {
    assert (Items(t.l) + [t.item])[|Items(t.l)|] == t.item;
  }

  lemma DisjointAppend(a: seq<Item>, b: seq<Item>, c: seq<Item>)
    requires Disjoint(a, b + c)
    ensures Disjoint(a, b) && Disjoint(a, c)
  {
    assert forall i :: 0 <= i < |b| ==> (b + c)[i] == b[i];
    assert forall i :: 0 <= i < |c| ==> (b + c)[|b| + i] == c[i];
  }

  lemma DisjointBin(a: seq<Item>, t: Tree)
    requires t.Bin? && Disjoint(a, Items(t))
    ensures Disjoint(a, Items(t.l)) && Disjoint(a, Items(t.r)) && Avoids(a, t.item.id)
  {
    hide Disjoint;
    DisjointAppend(a, Items(t.l) + [t.item], Items(t.r));
    DisjointAppend(a, Items(t.l), [t.item]);
    DisjointAvoids(a, [t.item], t.item);
  }

  // ---------------------------------------------------------------- moving the position

  lemma ZipUp(h: Heap, root: Ptr, nill: Ptr, p: Path, t: Tree)
    requires p.Below?
    ensures Stored(h, root, nill, p, t) <==> Stored(h, root, nill, p.up, Join(p.left, p.item, p.red, t, p.other))
  {
    AllUp(p, t);
  }

  /** The node above the position. */
  lemma ParentApart(root: Ptr, nill: Ptr, p: Path, t: Tree)
    requires Clean(root, nill, All(p, t)) && p.Below?
    ensures p.item.id != root && p.item.id != nill && Avoids(Items(t), p.item.id) && Avoids(Items(p.other), p.item.id)
    ensures Avoids(Before(p.up), p.item.id) && Avoids(Behind(p.up), p.item.id) && Disjoint(Items(t), Items(p.other))
  {
    hide Avoids, Disjoint, NoDup, Before, Behind;
    var u := Join(p.left, p.item, p.red, t, p.other);
    AllUp(p, t);
    NodeApart(p.up, u);
    CleanParts(root, nill, p.up, u);
    BinAvoids(u, root);
    BinAvoids(u, nill);
    if !p.left { DisjointFlip(Items(p.other), Items(t)); }
  }

  // ---------------------------------------------------------------- changing the tree in memory

  /** The parent's pointer to was redirected to v. */
  function Relink(h: Heap, parent: Ptr, was: Ptr, v: Ptr): Heap
    requires parent in h
  {
    h[parent := SetChild(h[parent], h[parent].left == was, v)]
  }

  /** The position now holds v. */
  lemma HolePath(h: Heap, g: Heap, root: Ptr, nill: Ptr, p: Path, t: Tree, was: Ptr, v: Ptr)
    requires Clean(root, nill, All(p, t)) && RepPath(h, root, nill, p, was)
    requires Parent(root, p) in h && g == h[Parent(root, p) := SetChild(h[Parent(root, p)], p.Top? || p.left, v)]
    ensures RepPath(g, root, nill, p, v)
  {
    hide Avoids, NoDup, Before, Behind;
    if p.Below? {
      ParentApart(root, nill, p, t);
      assert SameBut(h, g, {p.item.id});
      SameFrom(h, g, {p.item.id}, Items(p.other));
      SameFrom(h, g, {p.item.id}, Before(p.up));
      SameFrom(h, g, {p.item.id}, Behind(p.up));
      RepSame(h, g, nill, p.other, p.item.id);
      RootIn(h, root, nill, p, was);
      RepPathSame(h, g, root, nill, p.up, p.item.id);
    }
  }

  lemma RelinkPath(h: Heap, g: Heap, root: Ptr, nill: Ptr, p: Path, t: Tree, was: Ptr, v: Ptr)
    requires Clean(root, nill, All(p, t)) && RepPath(h, root, nill, p, was)
    requires (p.Below? && !p.left ==> was != Ref(p.other, nill))
    requires Parent(root, p) in h && g == Relink(h, Parent(root, p), was, v)
    ensures RepPath(g, root, nill, p, v)
  {
    hide Clean;
    HolePath(h, g, root, nill, p, t, was, v);
  }

  lemma {:induction false} RootIn(h: Heap, root: Ptr, nill: Ptr, p: Path, hole: Ptr)
    requires RepPath(h, root, nill, p, hole)
    ensures root in h && Parent(root, p) in h
    decreases p
  {
    if p.Below? { RootIn(h, root, nill, p.up, p.item.id); }
  }

  // ---------------------------------------------------------------- colours

  lemma Recolour(h: Heap, g: Heap, root: Ptr, nill: Ptr, p: Path, t: Tree, red: bool)
    requires Stored(h, root, nill, p, t) && t.Bin? && t.item.id in h && g == h[t.item.id := h[t.item.id].(red := red)]
    ensures Stored(g, root, nill, p, t.(red := red))
  {
    hide Avoids, NoDup, Disjoint, Before, Behind;
    var x := t.item.id;
    CleanParts(root, nill, p, t);
    BinAvoids(t, root);
    BinAvoids(t, nill);
    NodeApart(p, t);
    assert SameBut(h, g, {x});
    SameFrom(h, g, {x}, Items(t.l));
    SameFrom(h, g, {x}, Items(t.r));
    SameFrom(h, g, {x}, Before(p));
    SameFrom(h, g, {x}, Behind(p));
    RepSame(h, g, nill, t.l, x);
    RepSame(h, g, nill, t.r, x);
    RootIn(h, root, nill, p, x);
    RepPathSame(h, g, root, nill, p, x);
  }

  // ---------------------------------------------------------------- rotations

  /** left_rotate (left) and right_rotate (!left) at node x. */
  function Rotate(h: Heap, nill: Ptr, x: Ptr, left: bool): Heap
    requires x in h && Child(h[x], !left) in h && h[x].parent in h
    requires Child(h[Child(h[x], !left)], left) != nill ==> Child(h[Child(h[x], !left)], left) in h
    requires x != Child(h[x], !left)
  {
    var y := Child(h[x], !left);
    var b := Child(h[y], left);
    var h1 := if b != nill then h[b := h[b].(parent := x)] else h;
    var h2 := Relink(h1, h1[x].parent, x, y);
    var h3 := h2[y := h2[y].(parent := h2[x].parent)];
    var h4 := h3[x := h3[x].(parent := y)];
    var h5 := h4[x := SetChild(h4[x], !left, Child(h4[y], left))];
    h5[y := SetChild(h5[y], left, x)]
  }

  /** A tree whose child y is rotated above its root x. */
  function Rotated(t: Tree, left: bool): Tree
    requires t.Bin? && (if left then t.r else t.l).Bin?
  {
    if left then Bin(t.r.item, t.r.red, Bin(t.item, t.red, t.l, t.r.l), t.r.r)
    else Bin(t.l.item, t.l.red, t.l.l, Bin(t.item, t.red, t.l.r, t.r))
  }

  lemma RotatedItems(t: Tree, left: bool)
    requires t.Bin? && (if left then t.r else t.l).Bin?
    ensures Items(Rotated(t, left)) == Items(t)
  {
    if left {
      assert Items(t.l) + [t.item] + Items(t.r.l) + [t.r.item] + Items(t.r.r)
          == Items(t.l) + [t.item] + (Items(t.r.l) + [t.r.item] + Items(t.r.r));
    } else {
      assert Items(t.l.l) + [t.l.item] + (Items(t.l.r) + [t.item] + Items(t.r))
          == Items(t.l.l) + [t.l.item] + Items(t.l.r) + [t.item] + Items(t.r);
    }
  }

  /** A subtree gets a new parent. */
  lemma Reparent(h: Heap, g: Heap, nill: Ptr, t: Tree, was: Ptr, parent: Ptr)
    requires Rep(h, nill, t, was) && NoDup(Items(t))
    requires t.Bin? ==> t.item.id in h && g == h[t.item.id := h[t.item.id].(parent := parent)]
    requires t.Leaf? ==> g == h
    ensures Rep(g, nill, t, parent)
  {
    hide Avoids, NoDup;
    if t.Bin? {
      BinApart(t);
      assert SameBut(h, g, {t.item.id});
      SameFrom(h, g, {t.item.id}, Items(t.l));
      SameFrom(h, g, {t.item.id}, Items(t.r));
      RepSame(h, g, nill, t.l, t.item.id);
      RepSame(h, g, nill, t.r, t.item.id);
    }
  }

  /** Three subtrees and a path in memory. */
  ghost predicate Pieces(h: Heap, root: Ptr, nill: Ptr, p: Path, hole: Ptr, a: Tree, ap: Ptr, b: Tree, bp: Ptr, c: Tree,
          cp: Ptr) {
    RepPath(h, root, nill, p, hole) && Rep(h, nill, a, ap) && Rep(h, nill, b, bp) && Rep(h, nill, c, cp)
  }

  /** None of the pieces uses node x. */
  ghost predicate Clear(p: Path, a: Tree, b: Tree, c: Tree, x: Ptr) {
    Avoids(Before(p), x) && Avoids(Behind(p), x) && Avoids(Items(a), x) && Avoids(Items(b), x) && Avoids(Items(c), x)
  }

  lemma PiecesSame(h: Heap, g: Heap, xs: set<Ptr>, root: Ptr, nill: Ptr, p: Path, hole: Ptr, a: Tree, ap: Ptr, b: Tree,
          bp: Ptr, c: Tree, cp: Ptr)
    requires Pieces(h, root, nill, p, hole, a, ap, b, bp, c, cp) && SameBut(h, g, xs) && root !in xs
    requires forall x :: x in xs ==> Clear(p, a, b, c, x)
    ensures Pieces(g, root, nill, p, hole, a, ap, b, bp, c, cp)
  {
    hide Avoids, Before, Behind, Items, Rep, RepPath, Same, Parent;
    SameFrom(h, g, xs, Before(p));
    SameFrom(h, g, xs, Behind(p));
    SameFrom(h, g, xs, Items(a));
    SameFrom(h, g, xs, Items(b));
    SameFrom(h, g, xs, Items(c));
    RootIn(h, root, nill, p, hole);
    RepPathSame(h, g, root, nill, p, hole);
    RepSame(h, g, nill, a, ap);
    RepSame(h, g, nill, b, bp);
    RepSame(h, g, nill, c, cp);
  }

  /** The parts of a tree that is rotated: x over a and y, y over b and c. */
  ghost predicate Parts(t: Tree, left: bool, a: Tree, y: Tree, b: Tree, c: Tree) {
    && t.Bin? && y.Bin? && y == (if left then t.r else t.l) && a == (if left then t.l else t.r)
    && b == (if left then y.l else y.r) && c == (if left then y.r else y.l)
  }

  lemma PartsApart(root: Ptr, nill: Ptr, p: Path, t: Tree, left: bool, a: Tree, y: Tree, b: Tree, c: Tree)
    requires Clean(root, nill, All(p, t)) && Parts(t, left, a, y, b, c)
    ensures Clear(p, a, b, c, t.item.id) && Clear(p, a, b, c, y.item.id) && t.item.id != y.item.id
    ensures t.item.id != root && t.item.id != nill && y.item.id != root && y.item.id != nill
    ensures b.Bin? ==>
              && Clear(p, a, Leaf, c, b.item.id) && b.item.id != root && b.item.id != nill && b.item.id != t.item.id
              && b.item.id != y.item.id
    ensures NoDup(Items(b)) && Avoids(Items(a), root) && Avoids(Items(b), root) && Avoids(Items(c), root)
  {
    hide Avoids, Disjoint, NoDup, Before, Behind;
    CleanParts(root, nill, p, t);
    NodeApart(p, t);
    BinAvoids(t, root);
    BinAvoids(t, nill);
    BinAvoids(y, root);
    BinAvoids(y, nill);
    BinAvoids(y, t.item.id);
    BinApart(y);
    if left { DisjointBin(Items(a), y); } else { DisjointFlip(Items(y), Items(a)); DisjointBin(Items(a), y); }
    DisjointBin(Before(p), y);
    DisjointBin(Behind(p), y);
    if b.Bin? {
      BinAvoids(b, root);
      BinAvoids(b, nill);
      BinAvoids(b, t.item.id);
      BinAvoids(b, y.item.id);
      DisjointBin(Before(p), b);
      DisjointBin(Behind(p), b);
      DisjointBin(Items(a), b);
      if left { DisjointFlip(Items(b), Items(c)); }
      DisjointBin(Items(c), b);
      NoneAvoids(b.item.id);
    }
  }

  lemma NoneAvoids(x: Ptr)
    ensures Avoids(Items(Leaf), x)
  {
  }

  lemma ReparentStep(h: Heap, g: Heap, root: Ptr, nill: Ptr, p: Path, hole: Ptr, a: Tree, ap: Ptr, b: Tree, bp: Ptr,
          c: Tree, cp: Ptr, v: Ptr)
    requires Pieces(h, root, nill, p, hole, a, ap, b, bp, c, cp) && NoDup(Items(b))
    requires b.Bin? ==>
              && Clear(p, a, Leaf, c, b.item.id) && b.item.id != root && b.item.id in h
              && g == h[b.item.id := h[b.item.id].(parent := v)]
    requires b.Leaf? ==> g == h
    ensures Pieces(g, root, nill, p, hole, a, ap, b, v, c, cp)
  {
    hide Clear, NoDup, RepPath;
    Reparent(h, g, nill, b, bp, v);
    if b.Bin? {
      assert SameBut(h, g, {b.item.id});
      PiecesSame(h, g, {b.item.id}, root, nill, p, hole, a, ap, Leaf, bp, c, cp);
    }
  }

  lemma RelinkStep(h: Heap, g: Heap, root: Ptr, nill: Ptr, p: Path, t: Tree, was: Ptr, v: Ptr, a: Tree, ap: Ptr,
          b: Tree, bp: Ptr, c: Tree, cp: Ptr)
    requires Pieces(h, root, nill, p, was, a, ap, b, bp, c, cp) && Clean(root, nill, All(p, t))
    requires p.Below? && !p.left ==> was != Ref(p.other, nill)
    requires Parent(root, p) in h && g == Relink(h, Parent(root, p), was, v)
    requires Avoids(Items(a), Parent(root, p)) && Avoids(Items(b), Parent(root, p)) && Avoids(Items(c), Parent(root, p))
    ensures Pieces(g, root, nill, p, v, a, ap, b, bp, c, cp)
  {
    hide Clean, RepPath, Rep, Avoids, Same;
    RelinkPath(h, g, root, nill, p, t, was, v);
    var x := Parent(root, p);
    assert SameBut(h, g, {x});
    SameFrom(h, g, {x}, Items(a));
    SameFrom(h, g, {x}, Items(b));
    SameFrom(h, g, {x}, Items(c));
    RepSame(h, g, nill, a, ap);
    RepSame(h, g, nill, b, bp);
    RepSame(h, g, nill, c, cp);
  }

  /** The parent of a position is not in the subtrees there. */
  lemma ParentClear(root: Ptr, nill: Ptr, p: Path, t: Tree, left: bool, a: Tree, y: Tree, b: Tree, c: Tree)
    requires Clean(root, nill, All(p, t)) && Parts(t, left, a, y, b, c)
    ensures Avoids(Items(a), Parent(root, p)) && Avoids(Items(b), Parent(root, p)) && Avoids(Items(c), Parent(root, p))
    ensures t.item.id != Parent(root, p) && y.item.id != Parent(root, p) && Parent(root, p) != nill
    ensures p.Below? ==> t.item.id != Ref(p.other, nill) && y.item.id != Ref(p.other, nill)
  {
    hide Avoids, Disjoint, NoDup, Before, Behind, Items;
    var x := Parent(root, p);
    CleanParts(root, nill, p, t);
    if p.Below? {
      ParentApart(root, nill, p, t);
      if p.other.Bin? {
        DisjointBin(Items(t), p.other);
        BinAvoids(t, p.other.item.id);
        BinAvoids(y, p.other.item.id);
      } else {
        BinAvoids(t, nill);
        BinAvoids(y, nill);
      }
    }
    BinAvoids(t, x);
    BinAvoids(y, x);
  }

  /** Enough of memory is there to rotate. */
  lemma RotateDefined(h: Heap, root: Ptr, nill: Ptr, p: Path, t: Tree, left: bool, a: Tree, y: Tree, b: Tree, c: Tree)
    requires Stored(h, root, nill, p, t) && Parts(t, left, a, y, b, c)
    ensures t.item.id in h && Child(h[t.item.id], !left) == y.item.id && y.item.id in h
    ensures h[t.item.id].parent == Parent(root, p) && Parent(root, p) in h
    ensures Child(h[y.item.id], left) == Ref(b, nill) && (b.Bin? ==> b.item.id in h && b.item.id != nill)
    ensures t.item.id != y.item.id
    ensures h[t.item.id]
         == SetChild(SetChild(NodeOf(t.item, t.red, Parent(root, p), 0, 0), left, Ref(a, nill)), !left, y.item.id)
    ensures h[y.item.id]
         == SetChild(SetChild(NodeOf(y.item, y.red, t.item.id, 0, 0), left, Ref(b, nill)), !left, Ref(c, nill))
    ensures Pieces(h, root, nill, p, t.item.id, a, t.item.id, b, y.item.id, c, y.item.id)
  {
    hide Clean, RepPath;
    PartsApart(root, nill, p, t, left, a, y, b, c);
    RootIn(h, root, nill, p, t.item.id);
    assert Rep(h, nill, a, t.item.id) && Rep(h, nill, y, t.item.id);
    assert Rep(h, nill, b, y.item.id) && Rep(h, nill, c, y.item.id);
  }

  /** The first two assignments of a rotation: b under x, y under the parent. */
  lemma RotateFirst(h: Heap, root: Ptr, nill: Ptr, p: Path, t: Tree, left: bool, a: Tree, y: Tree, b: Tree, c: Tree,
          h1: Heap, h2: Heap)
    requires Stored(h, root, nill, p, t) && Parts(t, left, a, y, b, c)
    requires b.Bin? ==> b.item.id in h && h1 == h[b.item.id := h[b.item.id].(parent := t.item.id)]
    requires b.Leaf? ==> h1 == h
    requires Parent(root, p) in h1 && h2 == Relink(h1, Parent(root, p), t.item.id, y.item.id)
    ensures Pieces(h2, root, nill, p, y.item.id, a, t.item.id, b, t.item.id, c, y.item.id)
    ensures t.item.id in h2 && h2[t.item.id] == h[t.item.id] && y.item.id in h2 && h2[y.item.id] == h[y.item.id]
    ensures nill in h2 && h2[nill] == h[nill]
  {
    hide Clean, RepPath, Clear, Avoids, Items, Before, Behind, Pieces;
    var x, u, par := t.item.id, y.item.id, Parent(root, p);
    PartsApart(root, nill, p, t, left, a, y, b, c);
    ParentClear(root, nill, p, t, left, a, y, b, c);
    RotateDefined(h, root, nill, p, t, left, a, y, b, c);
    ReparentStep(h, h1, root, nill, p, x, a, x, b, u, c, u, x);
    ParentOther(root, p, b);
    RelinkStep(h1, h2, root, nill, p, t, x, u, a, x, b, x, c, u);
  }

  lemma RotateStored(h: Heap, root: Ptr, nill: Ptr, p: Path, t: Tree, left: bool, a: Tree, y: Tree, b: Tree, c: Tree)
    requires Stored(h, root, nill, p, t) && Parts(t, left, a, y, b, c)
    ensures t.item.id in h && Child(h[t.item.id], !left) in h && h[t.item.id].parent in h
    ensures t.item.id != Child(h[t.item.id], !left)
    ensures Child(h[Child(h[t.item.id], !left)], left) != nill ==> Child(h[Child(h[t.item.id], !left)], left) in h
    ensures Stored(Rotate(h, nill, t.item.id, left), root, nill, p, Rotated(t, left))
    ensures nill in h && Rotate(h, nill, t.item.id, left)[nill] == h[nill]
  {
    hide Clean, RepPath, Rep, Clear, Avoids, Items, Before, Behind, Pieces;
    var x, u, par := t.item.id, y.item.id, Parent(root, p);
    PartsApart(root, nill, p, t, left, a, y, b, c);
    ParentClear(root, nill, p, t, left, a, y, b, c);
    ParentOther(root, p, b);
    RotateDefined(h, root, nill, p, t, left, a, y, b, c);
    var h1 := if b.Bin? then h[b.item.id := h[b.item.id].(parent := x)] else h;
    var h2 := Relink(h1, par, x, u);
    RotateFirst(h, root, nill, p, t, left, a, y, b, c, h1, h2);
    var g := Rotate(h, nill, x, left);
    assert SameBut(h2, g, {x, u});
    PiecesSame(h2, g, {x, u}, root, nill, p, u, a, x, b, x, c, u);
    RotateNodes(h, nill, t, left, a, y, b, c, par, g);
    RotatedItems(t, left);
    AllSame(p, t, Rotated(t, left));
    PiecesTree(g, root, nill, p, t, left, a, y, b, c, par);
  }

  /** The parent of the position is not the root of b. */
  lemma ParentOther(root: Ptr, p: Path, b: Tree)
    requires Avoids(Items(b), Parent(root, p))
    ensures b.Bin? ==> b.item.id != Parent(root, p)
  {
    if b.Bin? { BinAvoids(b, Parent(root, p)); }
  }

  lemma RotateNodes(h: Heap, nill: Ptr, t: Tree, left: bool, a: Tree, y: Tree, b: Tree, c: Tree, par: Ptr, g: Heap)
    requires Parts(t, left, a, y, b, c) && t.item.id in h && y.item.id in h && par in h && t.item.id != y.item.id
    requires par != t.item.id && par != y.item.id
    requires h[t.item.id] == SetChild(SetChild(NodeOf(t.item, t.red, par, 0, 0), left, Ref(a, nill)), !left, y.item.id)
    requires h[y.item.id]
         == SetChild(SetChild(NodeOf(y.item, y.red, t.item.id, 0, 0), left, Ref(b, nill)), !left, Ref(c, nill))
    requires b.Bin? ==>
              && b.item.id in h && b.item.id != t.item.id && b.item.id != y.item.id && b.item.id != nill
              && b.item.id != par
    requires g == Rotate(h, nill, t.item.id, left)
    ensures t.item.id in g
    ensures g[t.item.id]
         == SetChild(SetChild(NodeOf(t.item, t.red, y.item.id, 0, 0), left, Ref(a, nill)), !left, Ref(b, nill))
    ensures y.item.id in g
    ensures g[y.item.id] == SetChild(SetChild(NodeOf(y.item, y.red, par, 0, 0), left, t.item.id), !left, Ref(c, nill))
  {
  }

  lemma PiecesTree(g: Heap, root: Ptr, nill: Ptr, p: Path, t: Tree, left: bool, a: Tree, y: Tree, b: Tree, c: Tree,
          par: Ptr)
    requires Parts(t, left, a, y, b, c) && par == Parent(root, p) && t.item.id in g && y.item.id in g
    requires g[t.item.id]
         == SetChild(SetChild(NodeOf(t.item, t.red, y.item.id, 0, 0), left, Ref(a, nill)), !left, Ref(b, nill))
    requires g[y.item.id] == SetChild(SetChild(NodeOf(y.item, y.red, par, 0, 0), left, t.item.id), !left, Ref(c, nill))
    requires Pieces(g, root, nill, p, y.item.id, a, t.item.id, b, t.item.id, c, y.item.id)
    ensures RepPath(g, root, nill, p, Ref(Rotated(t, left), nill)) && Rep(g, nill, Rotated(t, left), par)
  {
    hide RepPath;
  }

  // ---------------------------------------------------------------- adding and removing a node

  lemma AttachStored(h: Heap, g: Heap, root: Ptr, nill: Ptr, p: Path, item: Item)
    requires Stored(h, root, nill, p, Leaf) && Avoids(All(p, Leaf), item.id) && item.id != root && item.id != nill
    requires Parent(root, p) in h
    requires g == h[Parent(root, p) := SetChild(h[Parent(root, p)], p.Top? || p.left, item.id)]
                  [item.id := NodeOf(item, true, Parent(root, p), nill, nill)]
    ensures Stored(g, root, nill, p, Bin(item, true, Leaf, Leaf))
  {
    hide RepPath;
    var par, t := Parent(root, p), Bin(item, true, Leaf, Leaf);
    var h1 := h[par := SetChild(h[par], p.Top? || p.left, item.id)];
    HolePath(h, h1, root, nill, p, Leaf, nill, item.id);
    AvoidsAppend(Before(p) + [], Behind(p), item.id);
    AvoidsAppend(Before(p), [], item.id);
    assert SameBut(h1, g, {item.id});
    SameFrom(h1, g, {item.id}, Before(p));
    SameFrom(h1, g, {item.id}, Behind(p));
    RootIn(h1, root, nill, p, item.id);
    RepPathSame(h1, g, root, nill, p, item.id);
    AttachClean(root, nill, p, item);
    if p.Below? { ParentApart(root, nill, p, Leaf); }
    assert par != nill && Rep(g, nill, t, par);
  }

  lemma AttachClean(root: Ptr, nill: Ptr, p: Path, item: Item)
    requires Clean(root, nill, All(p, Leaf)) && Avoids(All(p, Leaf), item.id) && item.id != root && item.id != nill
    ensures Clean(root, nill, All(p, Bin(item, true, Leaf, Leaf)))
    ensures All(p, Bin(item, true, Leaf, Leaf)) == Before(p) + [item] + Behind(p)
    ensures All(p, Leaf) == Before(p) + Behind(p)
  {
    assert Items(Bin(item, true, Leaf, Leaf)) == [item];
    assert Before(p) + [] + Behind(p) == Before(p) + Behind(p);
    NoDupInsert(Before(p), item, Behind(p));
    AvoidsInsert(Before(p), item, Behind(p), root);
    AvoidsInsert(Before(p), item, Behind(p), nill);
  }

  lemma NoDupInsert(a: seq<Item>, x: Item, b: seq<Item>)
    requires NoDup(a + b) && Avoids(a + b, x.id)
    ensures NoDup(a + [x] + b)
  {
    var s, r := a + b, a + [x] + b;
    assert forall i :: 0 <= i < |a| ==> r[i] == a[i] == s[i];
    assert r[|a|] == x;
    assert forall i :: |a| < i < |r| ==> r[i] == s[i - 1];
  }

  lemma AvoidsInsert(a: seq<Item>, x: Item, b: seq<Item>, k: Ptr)
    requires Avoids(a + b, k) && x.id != k
    ensures Avoids(a + [x] + b, k)
  {
    hide Avoids;
    AvoidsAppend(a, b, k);
    AvoidsAppend(a + [x], b, k);
    AvoidsAppend(a, [x], k);
    AvoidsOne(x, k);
  }

  lemma AvoidsOne(x: Item, k: Ptr)
    ensures Avoids([x], k) <==> x.id != k
  {
    assert [x][0] == x;
  }

  /** Taking out the root of a tree that has at most one child y. */
  lemma UnlinkStored(h: Heap, g: Heap, root: Ptr, nill: Ptr, p: Path, t: Tree, y: Tree)
    requires Stored(h, root, nill, p, t) && t.Bin? && (if t.l.Leaf? then y == t.r else t.r.Leaf? && y == t.l)
    requires Ref(y, nill) in h && Parent(root, p) in h
    requires g == Relink(h[Ref(y, nill) := h[Ref(y, nill)].(parent := Parent(root, p))],
                         Parent(root, p), t.item.id, Ref(y, nill))
    ensures Stored(g, root, nill, p, y) && g[Ref(y, nill)].parent == Parent(root, p)
  {
    hide RepPath, Clean, Avoids, Disjoint, NoDup, Before, Behind, Items;
    var par, x := Parent(root, p), Ref(y, nill);
    var h1 := h[x := h[x].(parent := par)];
    UnlinkApart(root, nill, p, t, y);
    assert SameBut(h, h1, {x});
    SameFrom(h, h1, {x}, Before(p));
    SameFrom(h, h1, {x}, Behind(p));
    RootIn(h, root, nill, p, t.item.id);
    RepPathSame(h, h1, root, nill, p, t.item.id);
    RelinkPath(h1, g, root, nill, p, t, t.item.id, x);
    if y.Bin? {
      Reparent(h, h1, nill, y, t.item.id, par);
      assert SameBut(h1, g, {par});
      SameFrom(h1, g, {par}, Items(y));
      RepSame(h1, g, nill, y, par);
    }
  }

  lemma UnlinkApart(root: Ptr, nill: Ptr, p: Path, t: Tree, y: Tree)
    requires Clean(root, nill, All(p, t)) && t.Bin? && (if t.l.Leaf? then y == t.r else t.r.Leaf? && y == t.l)
    ensures Clean(root, nill, All(p, y)) && Avoids(Items(y), Parent(root, p)) && NoDup(Items(y))
    ensures Ref(y, nill) != root && Ref(y, nill) != Parent(root, p) && Parent(root, p) != nill
    ensures Avoids(Before(p), Ref(y, nill)) && Avoids(Behind(p), Ref(y, nill))
    ensures p.Below? ==> t.item.id != Ref(p.other, nill)
  {
    hide Avoids, Disjoint, NoDup, Before, Behind, Items;
    CleanParts(root, nill, p, t);
    NodeApart(p, t);
    BinAvoids(t, root);
    BinAvoids(t, nill);
    BinAvoids(t, Parent(root, p));
    if p.Below? {
      ParentApart(root, nill, p, t);
      if p.other.Bin? { DisjointBin(Items(t), p.other); BinAvoids(t, p.other.item.id); }
    }
    if y.Bin? {
      DisjointBin(Before(p), y);
      DisjointBin(Behind(p), y);
      BinAvoids(y, root);
      BinAvoids(y, Parent(root, p));
    }
    UnlinkClean(root, nill, p, t, y);
  }

  lemma UnlinkClean(root: Ptr, nill: Ptr, p: Path, t: Tree, y: Tree)
    requires Clean(root, nill, All(p, t)) && t.Bin? && (if t.l.Leaf? then y == t.r else t.r.Leaf? && y == t.l)
    ensures Clean(root, nill, All(p, y))
    ensures All(p, t) ==
              if t.l.Leaf? then Before(p) + [t.item] + (Items(y) + Behind(p))
               else (Before(p) + Items(y)) + [t.item] + Behind(p)
    ensures All(p, y) == Before(p) + (Items(y) + Behind(p)) == (Before(p) + Items(y)) + Behind(p)
  {
    hide Before, Behind, Clean;
    var b, m, e := Before(p), Items(y), Behind(p);
    if t.l.Leaf? {
      assert Items(t) == [t.item] + m;
      assert b + ([t.item] + m) + e == b + [t.item] + (m + e);
      DropClean(root, nill, b, t.item, m + e);
    } else {
      assert Items(t) == m + [t.item];
      assert b + (m + [t.item]) + e == (b + m) + [t.item] + e;
      DropClean(root, nill, b + m, t.item, e);
    }
    assert b + m + e == b + (m + e);
  }

  lemma DropClean(root: Ptr, nill: Ptr, a: seq<Item>, x: Item, b: seq<Item>)
    requires Clean(root, nill, a + [x] + b)
    ensures Clean(root, nill, a + b)
  {
    var s, r := a + [x] + b, a + b;
    assert forall i :: 0 <= i < |a| ==> r[i] == s[i];
    assert forall i :: |a| <= i < |r| ==> r[i] == s[i + 1];
  }

  // ---------------------------------------------------------------- replacing an entry

  lemma SameIds(a: seq<Item>, x: Item, b: seq<Item>, y: Item, root: Ptr, nill: Ptr)
    requires Clean(root, nill, a + [x] + b) && x.id == y.id
    ensures Clean(root, nill, a + [y] + b)
  {
    var s, r := a + [x] + b, a + [y] + b;
    assert forall i :: 0 <= i < |s| ==> r[i].id == s[i].id;
  }

  /** A node gets another key and value. */
  lemma RewriteStored(h: Heap, g: Heap, root: Ptr, nill: Ptr, p: Path, t: Tree, item: Item)
    requires Stored(h, root, nill, p, t) && t.Bin? && t.item.id == item.id && item.id in h
    requires g == h[item.id := h[item.id].(key := item.key, val := item.val)]
    ensures Stored(g, root, nill, p, t.(item := item)) && nill in g && g[nill] == h[nill]
  {
    hide Avoids, NoDup, Disjoint, Before, Behind;
    var x := t.item.id;
    CleanParts(root, nill, p, t);
    BinAvoids(t, root);
    BinAvoids(t, nill);
    NodeApart(p, t);
    assert SameBut(h, g, {x});
    SameFrom(h, g, {x}, Items(t.l));
    SameFrom(h, g, {x}, Items(t.r));
    SameFrom(h, g, {x}, Before(p));
    SameFrom(h, g, {x}, Behind(p));
    RepSame(h, g, nill, t.l, x);
    RepSame(h, g, nill, t.r, x);
    RootIn(h, root, nill, p, x);
    RepPathSame(h, g, root, nill, p, x);
    var b, e := Before(p) + Items(t.l), Items(t.r) + Behind(p);
    assert Before(p) + (Items(t.l) + [t.item] + Items(t.r)) + Behind(p) == b + [t.item] + e;
    assert Before(p) + (Items(t.l) + [item] + Items(t.r)) + Behind(p) == b + [item] + e;
    SameIds(b, t.item, e, item, root, nill);
  }

  /** The position is under the left spine of the right subtree of node q. */
  predicate Spine(p: Path, q: Path) { p == q || (p.Below? && p.left && Spine(p.up, q)) }

  /** The path with the item of node q replaced. */
  function Retitle(p: Path, q: Path, item: Item): Path
    requires q.Below?
  {
    if p == q then q.(item := item) else if p.Below? then p.(up := Retitle(p.up, q, item)) else p
  }

  lemma {:induction false} RetitleAround(p: Path, q: Path, item: Item)
    requires Spine(p, q) && q.Below? && !q.left
    ensures Before(p) == Before(q.up) + Items(q.other) + [q.item]
    ensures Before(Retitle(p, q, item)) == Before(q.up) + Items(q.other) + [item]
    ensures Behind(Retitle(p, q, item)) == Behind(p)
    decreases p
  {
    if p != q { RetitleAround(p.up, q, item); }
  }

  lemma {:induction false} RetitleRules(p: Path, q: Path, item: Item, n: nat)
    requires q.Below?
    ensures BalPath(Retitle(p, q, item), n) <==> BalPath(p, n)
    ensures MildPath(Retitle(p, q, item)) <==> MildPath(p)
    ensures BlackRoot(Retitle(p, q, item)) <==> BlackRoot(p)
    ensures RedAbove(Retitle(p, q, item)) <==> RedAbove(p)
    ensures Retitle(p, q, item).Top? <==> p.Top?
    decreases p
  {
    if p != q && p.Below? { RetitleRules(p.up, q, item, if p.red then n else n + 1); }
  }

  lemma {:induction false} RetitleStored(h: Heap, g: Heap, root: Ptr, nill: Ptr, p: Path, t: Tree, q: Path, item: Item)
    requires Stored(h, root, nill, p, t) && Spine(p, q) && q.Below? && item.id == q.item.id && item.id in h
    requires g == h[item.id := h[item.id].(key := item.key, val := item.val)]
    ensures Stored(g, root, nill, Retitle(p, q, item), t) && nill in g && g[nill] == h[nill]
    decreases p
  {
    hide Stored;
    ZipUp(h, root, nill, p, t);
    var u := Join(p.left, p.item, p.red, t, p.other);
    if p == q {
      RewriteStored(h, g, root, nill, p.up, u, item);
      ZipUp(g, root, nill, q.(item := item), t);
    } else {
      RetitleStored(h, g, root, nill, p.up, u, q, item);
      ZipUp(g, root, nill, Retitle(p, q, item), t);
    }
  }

  // ---------------------------------------------------------------- searching

  predicate Sorted(items: seq<Item>) { forall i, j :: 0 <= i < j < |items| ==> items[i].key <= items[j].key }

  predicate AllBelow(items: seq<Item>, key: int) { forall i :: 0 <= i < |items| ==> items[i].key < key }

  predicate AllAbove(items: seq<Item>, key: int) { forall i :: 0 <= i < |items| ==> key <= items[i].key }

  predicate UpTo(a: seq<Item>, b: seq<Item>) { forall i, j :: 0 <= i < |a| && 0 <= j < |b| ==> a[i].key <= b[j].key }

  lemma SortedAppend(a: seq<Item>, b: seq<Item>)
    ensures Sorted(a + b) <==> Sorted(a) && Sorted(b) && UpTo(a, b)
  {
    var s := a + b;
    assert forall i :: 0 <= i < |a| ==> s[i] == a[i];
    assert forall i :: 0 <= i < |b| ==> s[|a| + i] == b[i];
    assert forall i :: |a| <= i < |s| ==> s[i] == b[i - |a|];
  }

  /** The subtrees of a node, by key. */
  lemma SortedParts(p: Path, t: Tree)
    requires Sorted(All(p, t)) && t.Bin?
    ensures UpTo(Items(t.l), [t.item]) && UpTo([t.item], Items(t.r)) && Sorted(Items(t.l)) && Sorted(Items(t.r))
    ensures UpTo(Before(p), Items(t)) && UpTo(Items(t), Behind(p))
  {
    hide Sorted, UpTo;
    var l, r := Items(t.l), Items(t.r);
    SortedAppend(Before(p) + Items(t), Behind(p));
    SortedAppend(Before(p), Items(t));
    UpToAppend(Before(p), Items(t), Behind(p));
    SortedAppend(l + [t.item], r);
    SortedAppend(l, [t.item]);
    UpToAppend(l, [t.item], r);
  }

  lemma UpToAppend(a: seq<Item>, b: seq<Item>, c: seq<Item>)
    requires UpTo(a + b, c)
    ensures UpTo(a, c) && UpTo(b, c)
  {
    assert forall i :: 0 <= i < |a| ==> (a + b)[i] == a[i];
    assert forall i :: 0 <= i < |b| ==> (a + b)[|a| + i] == b[i];
  }

  predicate StrictlyAbove(items: seq<Item>, key: int) { forall i :: 0 <= i < |items| ==> key < items[i].key }

  lemma BoundsAppend(a: seq<Item>, b: seq<Item>, key: int)
    ensures AllBelow(a + b, key) <==> AllBelow(a, key) && AllBelow(b, key)
    ensures AllAbove(a + b, key) <==> AllAbove(a, key) && AllAbove(b, key)
    ensures StrictlyAbove(a + b, key) <==> StrictlyAbove(a, key) && StrictlyAbove(b, key)
  {
    assert forall i :: 0 <= i < |a| ==> (a + b)[i] == a[i];
    assert forall i :: 0 <= i < |b| ==> (a + b)[|a| + i] == b[i];
  }

  /** Bounds that a node passes on to what is before and behind it. */
  lemma NodeBounds(l: seq<Item>, x: Item, r: seq<Item>, key: int)
    requires UpTo(l, [x]) && UpTo([x], r)
    ensures x.key < key ==> AllBelow(l, key) && AllBelow([x], key)
    ensures key <= x.key ==> AllAbove(r, key) && AllAbove([x], key)
    ensures key < x.key ==> StrictlyAbove(r, key) && StrictlyAbove([x], key)
  {
    assert [x][0] == x;
  }

  /** Going left from a node with a larger key. */
  lemma GoLeft(p: Path, t: Tree, key: int, q: Path)
    requires Sorted(All(p, t)) && t.Bin? && q == Below(p, true, t.item, t.red, t.r)
    ensures Before(q) == Before(p) && All(q, t.l) == All(p, t)
    ensures key <= t.item.key && AllAbove(Behind(p), key) ==> AllAbove(Behind(q), key)
    ensures key < t.item.key && StrictlyAbove(Behind(p), key) ==> StrictlyAbove(Behind(q), key)
  {
    hide AllBelow, AllAbove, StrictlyAbove, Sorted, UpTo;
    SortedParts(p, t);
    AllUp(q, t.l);
    NodeBounds(Items(t.l), t.item, Items(t.r), key);
    BoundsAppend([t.item] + Items(t.r), Behind(p), key);
    BoundsAppend([t.item], Items(t.r), key);
  }

  /** Going right from a node with a smaller key. */
  lemma GoRight(p: Path, t: Tree, key: int, q: Path)
    requires Sorted(All(p, t)) && t.Bin? && q == Below(p, false, t.item, t.red, t.l)
    ensures Behind(q) == Behind(p) && All(q, t.r) == All(p, t)
    ensures t.item.key < key && AllBelow(Before(p), key) ==> AllBelow(Before(q), key)
  {
    hide AllBelow, AllAbove, StrictlyAbove, Sorted, UpTo;
    SortedParts(p, t);
    AllUp(q, t.r);
    NodeBounds(Items(t.l), t.item, Items(t.r), key);
    BoundsAppend(Before(p) + Items(t.l), [t.item], key);
    BoundsAppend(Before(p), Items(t.l), key);
  }

  /** A key that no entry before or behind an empty position has is not stored. */
  lemma NotThere(p: Path, key: int)
    requires AllBelow(Before(p), key) && StrictlyAbove(Behind(p), key)
    ensures forall i :: 0 <= i < |All(p, Leaf)| ==> All(p, Leaf)[i].key != key
  {
    assert All(p, Leaf) == Before(p) + Behind(p);
  }

  // ---------------------------------------------------------------- reading the links

  /** What a node at a position can reach. */
  lemma Links(h: Heap, root: Ptr, nill: Ptr, p: Path, t: Tree)
    requires Stored(h, root, nill, p, t)
    ensures Ref(t, nill) in h && (h[Ref(t, nill)].red <==> Red(t)) && Parent(root, p) in h
    ensures (h[Parent(root, p)].red <==> RedAbove(p))
    ensures t.Bin? ==>
              && t.item.id != nill && t.item.id != root
              && h[t.item.id] == NodeOf(t.item, t.red, Parent(root, p), Ref(t.l, nill), Ref(t.r, nill))
              && Ref(t.l, nill) in h && Ref(t.r, nill) in h
    ensures t.Bin? ==> (h[Ref(t.l, nill)].red <==> Red(t.l)) && (h[Ref(t.r, nill)].red <==> Red(t.r))
    ensures p.Top? ==> h[root].left == Ref(t, nill)
  {
    hide Avoids, NoDup, Disjoint;
    CleanParts(root, nill, p, t);
    if t.Bin? {
      BinAvoids(t, nill);
      BinAvoids(t, root);
      assert Rep(h, nill, t.l, t.item.id) && Rep(h, nill, t.r, t.item.id);
    }
    RootIn(h, root, nill, p, Ref(t, nill));
  }

  /** What the node above a position can reach. */
  lemma ParentLinks(h: Heap, root: Ptr, nill: Ptr, p: Path, t: Tree)
    requires Stored(h, root, nill, p, t) && p.Below?
    ensures p.item.id in h && h[p.item.id].parent == Parent(root, p.up) && Parent(root, p.up) in h
    ensures h[p.item.id].red == p.red
    ensures Child(h[p.item.id], p.left) == Ref(t, nill) && Child(h[p.item.id], !p.left) == Ref(p.other, nill)
    ensures Ref(p.other, nill) in h && (h[Ref(p.other, nill)].red <==> Red(p.other))
    ensures t.Bin? || p.other.Bin? ==> Ref(t, nill) != Ref(p.other, nill)
    ensures (h[Parent(root, p.up)].red <==> RedAbove(p.up)) && p.item.id != nill && p.item.id != root
  {
    hide Avoids, NoDup, Disjoint;
    ZipUp(h, root, nill, p, t);
    Links(h, root, nill, p.up, Join(p.left, p.item, p.red, t, p.other));
    ParentApart(root, nill, p, t);
    CleanParts(root, nill, p, t);
    if t.Bin? {
      BinAvoids(t, nill);
      if p.other.Bin? { DisjointBin(Items(t), p.other); BinAvoids(t, p.other.item.id); }
    } else if p.other.Bin? {
      OtherAvoids(root, nill, p, t);
    }
  }

  lemma OtherAvoids(root: Ptr, nill: Ptr, p: Path, t: Tree)
    requires Clean(root, nill, All(p, t)) && p.Below? && p.other.Bin?
    ensures p.other.item.id != nill
  {
    hide Avoids, NoDup, Disjoint;
    var u := Join(p.left, p.item, p.red, t, p.other);
    AllUp(p, t);
    CleanParts(root, nill, p.up, u);
    BinAvoids(u, nill);
    BinAvoids(p.other, nill);
  }

  // ---------------------------------------------------------------- the operations

  class RedBlackTree {
    const root: Ptr
    const nill: Ptr
    var h: Heap
    var size: nat

    /** The tree that is stored. */
    ghost var tree: Tree

    ghost predicate Holds(p: Path, t: Tree)
      reads this
    {
      Stored(h, root, nill, p, t)
    }

    /** Search order, the two colour rules, equal black heights, consistent links, and the size. */
    ghost predicate Valid()
      reads this
    {
      && Holds(Top, tree) && Mild(tree) && !Red(tree) && (exists n: nat :: Bal(tree, n))
      && Sorted(Items(tree)) && size == |Items(tree)|
    }

    /** opal_rb_tree_init. */
    constructor (r: Ptr, n: Ptr)
      requires r != n
      ensures Valid() && tree == Leaf && root == r && nill == n
    {
      root, nill, size, tree := r, n, 0, Leaf;
      h := map[n := Node(false, 0, 0, n, n, n), r := Node(false, 0, 0, n, n, n)];
      new;
      assert Items(Leaf) == [] && Bal(Leaf, 0);
    }

    method Colour(x: Ptr, red: bool, ghost p: Path, ghost t: Tree)
      requires Holds(p, t) && t.Bin? && t.item.id == x
      modifies this`h
      ensures Holds(p, t.(red := red)) && nill in h && nill in old(h) && h[nill] == old(h)[nill]
    {
      hide Stored;
      Links(h, root, nill, p, t);
      ghost var g := h[x := h[x].(red := red)];
      Recolour(h, g, root, nill, p, t, red);
      NillIn(h, root, nill, p, t);
      h := h[x := h[x].(red := red)];
    }

    /** left_rotate and right_rotate. */
    method Turn(x: Ptr, left: bool, ghost p: Path, ghost t: Tree)
      requires Holds(p, t) && t.Bin? && t.item.id == x && (if left then t.r else t.l).Bin?
      modifies this`h
      ensures Holds(p, Rotated(t, left)) && nill in h && nill in old(h) && h[nill] == old(h)[nill]
    {
      hide Stored, Rotate;
      ghost var y := if left then t.r else t.l;
      RotateStored(h, root, nill, p, t, left, if left then t.l else t.r, y, if left then y.l else y.r,
          if left then y.r else y.l);
      NillIn(h, root, nill, p, t);
      h := Rotate(h, nill, x, left);
      NillIn(h, root, nill, p, Rotated(t, left));
    }

    /** A red uncle: parent and uncle turn black, the grandparent red. */
    method Recolour3(x: Ptr, ghost p: Path, ghost t: Tree)
      requires Holds(p, t) && t.Bin? && t.item.id == x && p.Below? && p.up.Below? && p.up.other.Bin?
      modifies this`h
      ensures Holds(p.up.up, Raise(p, t))
    {
      hide Stored;
      ParentLinks(h, root, nill, p, t);
      Links(h, root, nill, p, t);
      ZipUp(h, root, nill, p, t);
      ghost var t1, g := Join(p.left, p.item, p.red, t, p.other), p.up;
      ParentLinks(h, root, nill, g, t1);
      var parent := h[x].parent;
      var grand := h[parent].parent;
      var uncle := Child(h[grand], parent != h[grand].left);
      Colour(parent, false, p.up, t1);
      ghost var t2 := Join(p.left, p.item, false, t, p.other);
      ghost var side := Below(g.up, !g.left, g.item, g.red, t2);
      ZipUp(h, root, nill, g, t2);
      ZipUp(h, root, nill, side, g.other);
      Colour(uncle, false, side, g.other);
      ZipUp(h, root, nill, side, Blacken(g.other));
      Colour(grand, true, g.up, Join(g.left, g.item, g.red, t2, Blacken(g.other)));
    }

    /** The parent turns black, the grandparent red and is rotated below the parent. */
    method Lift(node: Ptr, side: bool, ghost g: Path, ghost t: Tree)
      requires Holds(g, t) && t.Bin? && g.Below? && g.left == side && Side(t, side).Bin?
      requires node == Side(t, side).item.id
      modifies this`h
      ensures Holds(Lifted(g, t, side), Side(t, side))
    {
      hide Stored;
      ghost var c, o := Side(t, side), Side(t, !side);
      ghost var down := Below(g, side, t.item, t.red, o);
      ZipUp(h, root, nill, down, c);
      Links(h, root, nill, down, c);
      var parent := h[node].parent;
      Colour(parent, false, g, t);
      ghost var t1 := t.(red := false);
      ZipUp(h, root, nill, down.(red := false), c);
      Links(h, root, nill, down.(red := false), c);
      Links(h, root, nill, g, t1);
      ParentLinks(h, root, nill, g, t1);
      var grand := h[h[node].parent].parent;
      ZipUp(h, root, nill, g, t1);
      ghost var t2 := Join(side, g.item, g.red, t1, g.other);
      Colour(grand, true, g.up, t2);
      Turn(grand, !side, g.up, t2.(red := true));
      assert Rotated(t2.(red := true), !side) == Join(side, t.item, false, c, Join(side, g.item, true, o, g.other));
      ZipUp(h, root, nill, Lifted(g, t, side), c);
    }

    /** A black uncle: one or two rotations, after which the parent of the node is black. */
    method Straighten(x: Ptr, ghost p: Path, ghost t: Tree) returns (node: Ptr, ghost q: Path, ghost u: Tree)
      requires Holds(p, t) && t.Bin? && t.item.id == x && p.Below? && p.red && p.up.Below?
      modifies this`h
      ensures Holds(q, u) && u.Bin? && u.item.id == node
      ensures p.left == p.up.left ==> q == Outer(p) && u == t
      ensures p.left != p.up.left ==> q == InnerPath(p, t) && u == InnerTree(p, t)
    {
      hide Stored;
      ghost var g, t1 := p.up, Join(p.left, p.item, p.red, t, p.other);
      Links(h, root, nill, p, t);
      ParentLinks(h, root, nill, p, t);
      ZipUp(h, root, nill, p, t);
      ParentLinks(h, root, nill, g, t1);
      var parent := h[x].parent;
      var side := parent == h[h[parent].parent].left;
      assert side == g.left;
      node := x;
      if x == Child(h[parent], !side) {
        node := parent;
        Turn(parent, side, g, t1);
        t1 := Rotated(t1, side);
      }
      Lift(node, side, g, t1);
      q, u := Lifted(g, t1, side), Side(t1, side);
    }

    /** btree_insert: the empty position where a key goes, and the node that is put there. */
    method Attach(node: Ptr, key: int, val: int) returns (ghost p: Path)
      requires Holds(Top, tree) && Sorted(Items(tree)) && Avoids(Items(tree), node) && node != root && node != nill
      modifies this`h
      ensures Holds(p, Bin(Item(node, key, val), true, Leaf, Leaf)) && Plug(p, Leaf) == tree
      ensures AllBelow(Before(p), key) && AllAbove(Behind(p), key) && Before(p) + Behind(p) == Items(tree)
    {
      hide Stored, Sorted, Avoids, AllBelow, AllAbove;
      p := Top;
      ghost var t := tree;
      AllPlug(Top, tree);
      Nothing(key);
      Links(h, root, nill, p, t);
      var parent := root;
      var n := h[root].left;
      while n != nill
        invariant Holds(p, t) && n == Ref(t, nill) && parent == Parent(root, p) && Plug(p, t) == tree
        invariant All(p, t) == Items(tree)
        invariant AllBelow(Before(p), key) && AllAbove(Behind(p), key)
        invariant p.Below? ==> (p.left <==> key <= p.item.key)
        decreases t
      {
        Links(h, root, nill, p, t);
        parent := n;
        var q := if key <= h[n].key then Below(p, true, t.item, t.red, t.r) else Below(p, false, t.item, t.red, t.l);
        GoLeft(p, t, key, Below(p, true, t.item, t.red, t.r));
        GoRight(p, t, key, Below(p, false, t.item, t.red, t.l));
        ZipUp(h, root, nill, q, Side(t, q.left));
        n := if key <= h[n].key then h[n].left else h[n].right;
        p, t := q, Side(t, q.left);
      }
      LeafAt(h, root, nill, p, t);
      AllLeaf(p);
      Links(h, root, nill, p, t);
      if p.Below? { ParentLinks(h, root, nill, p, t); ParentKey(h, root, nill, p, t); }
      var side := parent == root || key <= h[parent].key;
      ghost var g := h[parent := SetChild(h[parent], side, node)]
          [node := NodeOf(Item(node, key, val), true, parent, nill, nill)];
      AttachStored(h, g, root, nill, p, Item(node, key, val));
      h := h[parent := SetChild(h[parent], side, node)];
      h := h[node := Node(true, key, val, parent, nill, nill)];
    }

    /** opal_rb_tree_insert, with a node that is not in use. */
    method Insert(node: Ptr, key: int, val: int) returns (ghost at: nat)
      requires Valid() && Avoids(Items(tree), node) && node != root && node != nill
      modifies this
      ensures Valid() && size == old(size) + 1
      ensures at <= |old(Items(tree))|
      ensures Items(tree) == old(Items(tree))[..at] + [Item(node, key, val)] + old(Items(tree))[at..]
      // It goes before the entries with an equal key.
      ensures AllBelow(old(Items(tree))[..at], key) && AllAbove(old(Items(tree))[at..], key)
    {
      hide Stored, Sorted, Avoids, AllBelow, AllAbove, Bal, Mild, BalPath, MildPath, BlackRoot;
      ghost var items, n := Items(tree), AnyHeight(tree);
      ghost var p := Attach(node, key, val);
      ghost var t := Bin(Item(node, key, val), true, Leaf, Leaf);
      at := |Before(p)|;
      assert items[..at] == Before(p) && items[at..] == Behind(p);
      NewInserting(p, t.item, tree, n);
      ghost var all := Before(p) + [t.item] + Behind(p);
      ghost var m: nat := 0;
      ghost var first := p;
      var x := node;
      Links(h, root, nill, p, t);
      while h[h[x].parent].red
        invariant Holds(p, t) && Inserting(p, t, m) && t.item.id == x && All(p, t) == all
        invariant x in h && h[x].parent in h && h[x].parent == Parent(root, p) && (h[h[x].parent].red <==> RedAbove(p))
        modifies this`h
        decreases Depth(p)
      {
        RedParent(p, t, m);
        DepthUp(p);
        DepthUp(p.up);
        ParentLinks(h, root, nill, p, t);
        ZipUp(h, root, nill, p, t);
        ParentLinks(h, root, nill, p.up, Join(p.left, p.item, p.red, t, p.other));
        var parent := h[x].parent;
        var grand := h[parent].parent;
        var uncle := Child(h[grand], parent != h[grand].left);
        if h[uncle].red {
          RaiseInserting(p, t, m);
          Recolour3(x, p, t);
          p, t, m := p.up.up, Raise(p, t), m + 1;
          x := grand;
        } else {
          if p.left == p.up.left { OuterInserting(p, t, m); } else { InnerInserting(p, t, m); }
          x, p, t := Straighten(x, p, t);
          DepthUp(p);
        }
        Links(h, root, nill, p, t);
      }
      ghost var whole := Plug(p, t);
      ghost var k := InsertDone(h, root, nill, p, t, m);
      Links(h, root, nill, Top, whole);
      Colour(h[root].left, false, Top, whole);
      tree, size := Blacken(whole), size + 1;
      SortedInsert(Before(first), Item(node, key, val), Behind(first));
      assert Bal(tree, k) && Items(tree) == all;
    }

    /** Deletion, red sibling w: it is rotated above the parent. */
    method LiftSibling(par: Ptr, w: Ptr, side: bool, ghost p: Path, ghost t: Tree)
      requires Holds(p, t) && p.Below? && p.left == side && p.other.Bin? && par == p.item.id && w == p.other.item.id
      modifies this`h
      ensures Holds(RedSibling(p), t) && nill in h && nill in old(h) && h[nill] == old(h)[nill]
    {
      hide Stored;
      ghost var o := p.other.(red := false);
      Flip(h, root, nill, p, t);
      Colour(w, false, Across(p, t), p.other);
      Flip(h, root, nill, p.(other := o), t);
      ZipUp(h, root, nill, p.(other := o), t);
      Colour(par, true, p.up, Join(side, p.item, p.red, t, o));
      Turn(par, side, p.up, Join(side, p.item, true, t, o));
      ghost var q := RedSibling(p);
      assert Rotated(Join(side, p.item, true, t, o), side)
          == Join(q.up.left, q.up.item, q.up.red, Join(q.left, q.item, q.red, t, q.other), q.up.other);
      ZipUp(h, root, nill, q.up, Join(q.left, q.item, q.red, t, q.other));
      ZipUp(h, root, nill, q, t);
    }

    /** Deletion, black sibling w with two black children: it turns red. */
    method RedSide(w: Ptr, ghost p: Path, ghost t: Tree)
      requires Holds(p, t) && p.Below? && p.other.Bin? && w == p.other.item.id
      modifies this`h
      ensures Holds(p.up, PassUp(p, t))
    {
      hide Stored;
      ghost var o := p.other.(red := true);
      Flip(h, root, nill, p, t);
      Colour(w, true, Across(p, t), p.other);
      Flip(h, root, nill, p.(other := o), t);
      ZipUp(h, root, nill, p.(other := o), t);
    }

    /** Deletion, black sibling w with a red near child c: c is rotated above w. */
    method LiftNear(w: Ptr, c: Ptr, side: bool, ghost p: Path, ghost t: Tree)
      requires Holds(p, t) && p.Below? && p.left == side && p.other.Bin? && w == p.other.item.id && Near(p).Bin?
      requires c == Near(p).item.id
      modifies this`h
      ensures Holds(NearRed(p), t) && nill in h && nill in old(h) && h[nill] == old(h)[nill]
    {
      hide Stored;
      ghost var o, n, f, a := p.other, Near(p), Far(p), Across(p, t);
      ghost var d := Below(a, side, o.item, o.red, f);
      Flip(h, root, nill, p, t);
      ZipUp(h, root, nill, d, n);
      Colour(c, false, d, n);
      ZipUp(h, root, nill, d, n.(red := false));
      ghost var o1 := Join(side, o.item, o.red, n.(red := false), f);
      Colour(w, true, a, o1);
      Turn(w, !side, a, o1.(red := true));
      assert Rotated(o1.(red := true), !side) == NearRed(p).other;
      Flip(h, root, nill, NearRed(p), t);
    }

    /** Deletion, black sibling w with a red far child f: w takes the place and colour of the parent. */
    method LiftFar(par: Ptr, w: Ptr, f: Ptr, side: bool, ghost p: Path, ghost t: Tree)
      requires Holds(p, t) && p.Below? && p.left == side && par == p.item.id && p.other.Bin? && w == p.other.item.id
      requires Far(p).Bin? && f == Far(p).item.id
      modifies this`h
      ensures Holds(p.up, FarRed(p, t))
    {
      hide Stored;
      ghost var o, n, far, a := p.other, Near(p), Far(p), Across(p, t);
      ParentLinks(h, root, nill, p, t);
      Flip(h, root, nill, p, t);
      Colour(w, h[par].red, a, o);
      ghost var o1 := o.(red := p.red);
      Flip(h, root, nill, p.(other := o1), t);
      ZipUp(h, root, nill, p.(other := o1), t);
      Colour(par, false, p.up, Join(side, p.item, p.red, t, o1));
      ghost var p1 := p.(red := false, other := o1);
      ZipUp(h, root, nill, p1, t);
      Flip(h, root, nill, p1, t);
      ghost var d := Below(Across(p1, t), !side, o.item, p.red, n);
      ZipUp(h, root, nill, d, far);
      Colour(f, false, d, far);
      ZipUp(h, root, nill, d, far.(red := false));
      ghost var p2 := p1.(other := Join(!side, o.item, p.red, far.(red := false), n));
      Flip(h, root, nill, p2, t);
      ZipUp(h, root, nill, p2, t);
      Turn(par, side, p.up, Join(side, p.item, false, t, p2.other));
      assert Rotated(Join(side, p.item, false, t, p2.other), side) == FarRed(p, t);
    }

    /** The sibling w is black and one of its children is red: the repair ends here. */
    method FixRedChild(par: Ptr, w: Ptr, near: Ptr, far: Ptr, side: bool, rt: Ptr, ghost q: Path, ghost t: Tree,
            ghost n: nat)
      returns (ghost p': Path, ghost t': Tree, ghost n': nat)
      requires Holds(q, t) && Deleting(q, t, n) && q.Below? && !Red(t) && q.other.Bin? && !q.other.red
      requires (Red(Near(q)) || Red(Far(q)))
      requires par == q.item.id && side == q.left && w == q.other.item.id && near == Ref(Near(q), nill)
      requires far == Ref(Far(q), nill)
      requires rt == q.item.id || (q.up.Below? && rt == RootId(q.up))
      modifies this`h
      ensures Holds(p', t') && All(p', t') == All(q, t) && rt in h && !h[rt].red && Repaired(p', t', n')
    {
      hide Stored, Bal, Mild, BalPath, MildPath, BlackRoot;
      ghost var r := q;
      var w', far' := w, far;
      ParentLinks(h, root, nill, q, t);
      SiblingLinks(h, root, nill, q, t);
      if !h[far].red {
        NearRedDeleting(q, t, n);
        LiftNear(w, near, side, q, t);
        r := NearRed(q);
        ParentLinks(h, root, nill, r, t);
        SiblingLinks(h, root, nill, r, t);
        w' := Child(h[par], !side);
        far' := Child(h[w'], !side);
      }
      FarRedDone(r, t, n);
      LiftFar(par, w', far', side, r, t);
      p', t', n' := r.up, FarRed(r, t), if r.red then n + 1 else n + 2;
      OldRootBlack(h, root, nill, r, t, rt, n');
    }

    /** The second half of a round of btree_delete_fixup: the sibling is black. */
    method FixBlack(x: Ptr, par: Ptr, side: bool, rt: Ptr, ghost q: Path, ghost t: Tree, ghost n: nat)
      returns (x': Ptr, ghost closed: bool, ghost p': Path, ghost t': Tree, ghost n': nat)
      requires Holds(q, t) && x == Ref(t, nill) && Deleting(q, t, n) && q.Below? && !Red(t) && !Red(q.other)
      requires par == q.item.id && side == q.left && (rt == q.item.id || (q.up.Below? && rt == RootId(q.up)))
      modifies this`h
      ensures Holds(p', t') && All(p', t') == All(q, t) && x' in h
      ensures !closed ==>
                && x' == Ref(t', nill) && h[x'].parent == Parent(root, p') && Deleting(p', t', n') && p' == q.up
                && q.other.Bin? && t' == PassUp(q, t)
      ensures closed ==> x' == rt && !h[rt].red && Repaired(p', t', n')
    {
      hide Stored, Bal, Mild, BalPath, MildPath, BlackRoot;
      Sibling(q, t, n);
      ParentLinks(h, root, nill, q, t);
      SiblingLinks(h, root, nill, q, t);
      var w := Child(h[par], !side);
      var near, far := Child(h[w], side), Child(h[w], !side);
      if !h[near].red && !h[far].red {
        PassUpDeleting(q, t, n);
        RedSide(w, q, t);
        x', closed, p', t', n' := par, false, q.up, PassUp(q, t), if q.red then n else n + 1;
        Links(h, root, nill, p', t');
      } else {
        closed, x' := true, rt;
        p', t', n' := FixRedChild(par, w, near, far, side, rt, q, t, n);
      }
    }

    /** One round of btree_delete_fixup; rt is the root as it was before the repair started. */
    method FixStep(x: Ptr, rt: Ptr, ghost p: Path, ghost t: Tree, ghost n: nat)
      returns (x': Ptr, ghost closed: bool, ghost p': Path, ghost t': Tree, ghost n': nat)
      requires Holds(p, t) && x == Ref(t, nill) && x in h && h[x].parent == Parent(root, p)
      requires Deleting(p, t, n) && p.Below? && !Red(t) && rt == RootId(p)
      modifies this`h
      ensures Holds(p', t') && All(p', t') == All(p, t) && x' in h
      ensures !closed ==> x' == Ref(t', nill) && h[x'].parent == Parent(root, p') && Deleting(p', t', n')
      ensures !closed ==> Red(t') || (rt == Ref(Plug(p', t'), nill) && Depth(p') < Depth(p))
      ensures closed ==> x' == rt && !h[rt].red && Repaired(p', t', n')
    {
      hide Stored, Bal, Mild, BalPath, MildPath, BlackRoot;
      Sibling(p, t, n);
      ParentLinks(h, root, nill, p, t);
      DepthUp(p);
      var par := h[x].parent;
      var side := x == h[par].left;
      var w := Child(h[par], !side);
      ghost var q := p;
      RootSplit(p);
      if h[w].red {
        LiftSibling(par, w, side, p, t);
        RedSiblingDeleting(p, t, n);
        q := RedSibling(p);
        RootSplit(q);
      }
      x', closed, p', t', n' := FixBlack(x, par, side, rt, q, t, n);
      if !closed && !Red(t') { RootStays(p, t, nill); }
    }

    /** btree_delete_fixup: the subtree at the position is one black node short. */
    method FixDelete(y: Ptr, ghost p: Path, ghost t: Tree, ghost n: nat) returns (ghost whole: Tree)
      requires Holds(p, t) && y == Ref(t, nill) && y in h && h[y].parent == Parent(root, p) && Deleting(p, t, n)
      modifies this`h
      ensures Holds(Top, whole) && Items(whole) == All(p, t) && Mild(whole) && !Red(whole)
      ensures exists k: nat :: Bal(whole, k)
    {
      hide Stored, Bal, Mild, BalPath, MildPath, BlackRoot;
      ghost var all, q, u, m, closed := All(p, t), p, t, n, false;
      PlugStored(h, root, nill, p, t);
      Links(h, root, nill, Top, Plug(p, t));
      NillIn(h, root, nill, p, t);
      var x, rt := y, h[root].left;
      Links(h, root, nill, q, u);
      while x != rt && !h[x].red
        invariant Holds(q, u) && All(q, u) == all && x in h
        invariant !closed ==>
                  x == Ref(u, nill) && h[x].parent == Parent(root, q) && Deleting(q, u, m) && (h[x].red <==> Red(u))
        invariant !closed ==> Red(u) || rt == Ref(Plug(q, u), nill)
        invariant closed ==> x == rt && !h[rt].red && Repaired(q, u, m)
        modifies this`h
        decreases if closed || Red(u) then 0 else 1 + Depth(q)
      {
        if q.Below? { RootRef(q, u, nill); }
        x, closed, q, u, m := FixStep(x, rt, q, u, m);
        Links(h, root, nill, q, u);
      }
      NillIn(h, root, nill, q, u);
      if closed {
        assert h[x := h[x].(red := false)] == h;
      } else {
        NotRootBelow(h, root, nill, q, u, rt);
        BlackenStored(h, h[x := h[x].(red := false)], root, nill, q, u);
        DeleteDone(q, u, m);
        m := if Red(u) then m + 1 else m;
        u := Blacken(u);
      }
      h := h[x := h[x].(red := false)];
      whole := Plug(q, u);
      PlugStored(h, root, nill, q, u);
      ghost var k := RepairedPlug(q, u, m);
    }

    /** opal_rb_tree_find_node. */
    method FindNode(key: int) returns (x: Ptr, found: bool, ghost p: Path, ghost t: Tree)
      requires Valid()
      ensures found ==> Holds(p, t) && t.Bin? && t.item.id == x && t.item.key == key && Plug(p, t) == tree
      ensures !found ==> forall i :: 0 <= i < |Items(tree)| ==> Items(tree)[i].key != key
    {
      hide Stored, Sorted, AllBelow, AllAbove, StrictlyAbove;
      p, t, found := Top, tree, false;
      AllPlug(Top, tree);
      Nothing(key);
      Links(h, root, nill, p, t);
      x := h[root].left;
      while x != nill
        invariant Holds(p, t) && x == Ref(t, nill) && Plug(p, t) == tree && All(p, t) == Items(tree)
        invariant AllBelow(Before(p), key) && StrictlyAbove(Behind(p), key)
        decreases t
      {
        Links(h, root, nill, p, t);
        if key == h[x].key { return x, true, p, t; }
        ghost var q :=
            if key < h[x].key then Below(p, true, t.item, t.red, t.r) else Below(p, false, t.item, t.red, t.l);
        GoLeft(p, t, key, Below(p, true, t.item, t.red, t.r));
        GoRight(p, t, key, Below(p, false, t.item, t.red, t.l));
        ZipUp(h, root, nill, q, Side(t, q.left));
        x := if key < h[x].key then h[x].left else h[x].right;
        p, t := q, Side(t, q.left);
      }
      LeafAt(h, root, nill, p, t);
      NotThere(p, key);
    }

    /** opal_rb_tree_find: succeeds exactly if an equal key is stored. */
    method Find(key: int) returns (found: bool, val: int)
      requires Valid()
      ensures found <==> exists i :: 0 <= i < |Items(tree)| && Items(tree)[i].key == key
      ensures found ==> exists i :: 0 <= i < |Items(tree)| && Items(tree)[i].key == key && Items(tree)[i].val == val
    {
      hide Stored, Sorted;
      var x;
      ghost var p, t;
      val := 0;
      x, found, p, t := FindNode(key);
      if found {
        Links(h, root, nill, p, t);
        val := h[x].val;
        var i := IndexOf(p, t);
      }
    }

    /** btree_successor: the node of the next entry in order, or nill after the last one. */
    method Successor(x: Ptr, ghost p: Path, ghost t: Tree) returns (d: Ptr, ghost q: Path, ghost u: Tree)
      requires Holds(p, t) && t.Bin? && t.item.id == x
      ensures d == NextId(Items(Plug(p, t)), |Before(p) + Items(t.l)|, nill)
      ensures t.r.Bin? ==> Holds(q, u) && u.Bin? && u.item.id == d && u.l.Leaf? && Plug(q, u) == Plug(p, t)
      ensures t.r.Bin? ==> Spine(q, Below(p, false, t.item, t.red, t.l)) && d != x
    {
      hide Stored;
      q, u := p, t;
      ghost var i := IndexOf(p, t);
      Links(h, root, nill, p, t);
      ChildLeaf(h, root, nill, p, t, false);
      if h[x].right == nill {
        d := Climb(x, p, t);
        return;
      }
      d, q, u := Leftmost(x, p, t);
      i := IndexOf(q, u);
      SpineBefore(q, Below(p, false, t.item, t.red, t.l));
    }

    /** Up until a node is a left child: its parent is next. */
    method Climb(x: Ptr, ghost p: Path, ghost t: Tree) returns (d: Ptr)
      requires Holds(p, t) && t.Bin? && t.item.id == x
      ensures d == if Behind(p) == [] then nill else Behind(p)[0].id
    {
      hide Stored;
      ghost var q, u := p, t;
      var node := x;
      Links(h, root, nill, q, u);
      d := h[x].parent;
      ClimbLinks(h, root, nill, q, u);
      while node == h[d].right
        invariant Holds(q, u) && u.Bin? && u.item.id == node && d == Parent(root, q) && d in h && Behind(q) == Behind(p)
        invariant q.Top? ==> node != h[d].right
        invariant q.Below? ==>
                  (node == h[d].right <==> !q.left) && h[d].parent == Parent(root, q.up) && Parent(root, q.up) in h
        decreases q
      {
        ZipUp(h, root, nill, q, u);
        BehindUp(q);
        q, u := q.up, Join(q.left, q.item, q.red, u, q.other);
        node := d;
        d := h[d].parent;
        ClimbLinks(h, root, nill, q, u);
      }
      if q.Below? { ParentLinks(h, root, nill, q, u); BehindUp(q); }
      if d == root { return nill; }
    }

    /** The leftmost node of the right subtree. */
    method Leftmost(x: Ptr, ghost p: Path, ghost t: Tree) returns (d: Ptr, ghost q: Path, ghost u: Tree)
      requires Holds(p, t) && t.Bin? && t.item.id == x && t.r.Bin?
      ensures Holds(q, u) && u.Bin? && u.item.id == d && u.l.Leaf? && Plug(q, u) == Plug(p, t)
      ensures Spine(q, Below(p, false, t.item, t.red, t.l)) && d != x
    {
      hide Stored;
      ghost var base := Below(p, false, t.item, t.red, t.l);
      ZipUp(h, root, nill, base, t.r);
      Links(h, root, nill, p, t);
      q, u, d := base, t.r, h[x].right;
      Links(h, root, nill, q, u);
      while h[d].left != nill
        invariant Holds(q, u) && u.Bin? && d == u.item.id && d in h && h[d].left == Ref(u.l, nill)
        invariant Plug(q, u) == Plug(p, t) && Spine(q, base)
        decreases u
      {
        ghost var down := Below(q, true, u.item, u.red, u.r);
        ZipUp(h, root, nill, down, u.l);
        Links(h, root, nill, q, u);
        if u.l.Leaf? { assert false; }
        d := h[d].left;
        q, u := down, u.l;
        Links(h, root, nill, q, u);
      }
      LeftLeaf(h, root, nill, q, u);
      SpineDiffers(h, root, nill, q, u, base);
    }

    /** Node d, which has at most one child y, is taken out of the links. */
    method Unlink(d: Ptr, y: Ptr, ghost p: Path, ghost t: Tree, ghost c: Tree)
      requires Holds(p, t) && t.Bin? && t.item.id == d && (if t.l.Leaf? then c == t.r else t.r.Leaf? && c == t.l)
      requires y == Ref(c, nill)
      modifies this`h
      ensures Holds(p, c) && y in h && h[y].parent == Parent(root, p) && d in h && d in old(h) && h[d] == old(h)[d]
    {
      hide Stored;
      Links(h, root, nill, p, t);
      UnlinkDefined(h, root, nill, p, t, c);
      var parent := h[d].parent;
      ghost var g := Relink(h[y := h[y].(parent := parent)], parent, d, y);
      UnlinkStored(h, g, root, nill, p, t, c);
      h := h[y := h[y].(parent := parent)];
      if h[y].parent == root {
        h := h[root := h[root].(left := y)];
      } else if d == h[h[d].parent].left {
        h := h[parent := h[parent].(left := y)];
      } else {
        h := h[parent := h[parent].(right := y)];
      }
      assert h == g;
      Links(h, root, nill, p, c);
    }

    /** opal_rb_tree_delete: removes one entry with the given key, if there is one. */
    method Delete(key: int) returns (ok: bool, freed: Ptr, ghost at: nat)
      requires Valid()
      modifies this
      ensures Valid()
      ensures ok <==> exists i :: 0 <= i < |old(Items(tree))| && old(Items(tree))[i].key == key
      ensures !ok ==> tree == old(tree) && size == old(size) && h == old(h)
      ensures ok ==> size == old(size) - 1 && at < |old(Items(tree))| && old(Items(tree))[at].key == key
      ensures ok ==> Entries(Items(tree)) == Entries(old(Items(tree)))[..at] + Entries(old(Items(tree)))[at + 1..]
      ensures ok ==>
                Avoids(Items(tree), freed) && forall n: Ptr :: Avoids(old(Items(tree)), n) ==> Avoids(Items(tree), n)
      ensures ok ==> !Avoids(old(Items(tree)), freed) && freed != root && freed != nill
    {
      hide Stored, Sorted, Bal, Mild, BalPath, MildPath, BlackRoot, Removed, Avoids, NoDup;
      var x;
      ghost var p, t;
      x, ok, p, t := FindNode(key);
      freed, at := x, 0;
      if !ok { return; }
      at := IndexOf(p, t);
      Links(h, root, nill, p, t);
      ghost var q, u := p, t;
      var d := x;
      if h[x].left != nill && h[x].right != nill {
        d, q, u := Successor(x, p, t);
      } else {
        ChildLeaf(h, root, nill, p, t, true);
        ChildLeaf(h, root, nill, p, t, false);
      }
      freed := d;
      InUse(h, root, nill, q, u);
      ghost var whole := Remove(x, d, p, t, q, u, at);
      RemovedParts(Items(tree), Items(whole), at, d);
      tree, size := whole, size - 1;
    }

    /** Takes node d out, moves its entry to node x if that is another node, and repairs the tree. */
    method Remove(x: Ptr, d: Ptr, ghost p: Path, ghost t: Tree, ghost q: Path, ghost u: Tree, ghost at: nat)
      returns (ghost whole: Tree)
      requires Valid() && Holds(p, t) && t.Bin? && t.item.id == x && Plug(p, t) == tree
      requires at == |Before(p) + Items(t.l)|
      requires Holds(q, u) && u.Bin? && u.item.id == d && Plug(q, u) == tree && (u.l.Leaf? || u.r.Leaf?)
      requires if d == x then q == p && u == t else u.l.Leaf? && Spine(q, Below(p, false, t.item, t.red, t.l))
      modifies this`h
      ensures Holds(Top, whole) && Mild(whole) && !Red(whole) && (exists k: nat :: Bal(whole, k))
      ensures Removed(Items(tree), Items(whole), at, d)
    {
      hide Stored, Sorted, Bal, Mild, BalPath, MildPath, BlackRoot, Removed, Avoids, NoDup;
      ghost var c := if u.l.Leaf? then u.r else u.l;
      ghost var k := Unplug(q, u, AnyHeight(tree));
      Links(h, root, nill, q, u);
      ChildLeaf(h, root, nill, q, u, true);
      StoredClean(h, root, nill, p, t);
      StoredClean(h, root, nill, q, u);
      AllPlug(p, t);
      AllPlug(q, u);
      var y := if h[d].left == nill then h[d].right else h[d].left;
      Unlink(d, y, q, u, c);
      ghost var r := q;
      if d != x {
        ghost var base := Below(p, false, t.item, t.red, t.l);
        ghost var item := Item(x, u.item.key, u.item.val);
        SpineIn(h, root, nill, q, c, base);
        ghost var g := h[x := h[x].(key := item.key, val := item.val)];
        RetitleStored(h, g, root, nill, q, c, base, item);
        RetitleRules(q, base, item, k);
        MovedRemoved(root, nill, p, t, q, u, c, at, item);
        Links(h, root, nill, q, c);
        RetitleParent(q, base, item, root);
        h := h[x := h[x].(key := h[d].key, val := h[d].val)];
        r := Retitle(q, base, item);
        Links(h, root, nill, r, c);
      } else {
        DirectRemoved(root, nill, p, t, c, at);
      }
      whole := Plug(r, c);
      if !h[d].red {
        BlackGone(r, u, c, k);
        whole := FixDelete(y, r, c, k - 1);
      } else {
        RedGone(r, u, c, k);
        ghost var m := RepairedPlug(r, c, k);
        PlugStored(h, root, nill, r, c);
      }
    }
  }

  function Entries(items: seq<Item>): seq<(int, int)> {
    seq(|items|, i requires 0 <= i < |items| => (items[i].key, items[i].val))
  }

  /** after is before without entry at, whose node d is free. */
  ghost predicate Removed(before: seq<Item>, after: seq<Item>, at: nat, d: Ptr) {
    && at < |before| && |after| == |before| - 1 && Sorted(after) && Avoids(after, d)
    && Entries(after) == Entries(before)[..at] + Entries(before)[at + 1..]
    && (forall n: Ptr :: Avoids(before, n) ==> Avoids(after, n))
  }

  lemma RemovedParts(before: seq<Item>, after: seq<Item>, at: nat, d: Ptr)
    requires Removed(before, after, at, d)
    ensures at < |before| && |after| == |before| - 1 && Sorted(after) && Avoids(after, d)
    ensures Entries(after) == Entries(before)[..at] + Entries(before)[at + 1..]
    ensures forall n: Ptr :: Avoids(before, n) ==> Avoids(after, n)
  {
  }

  lemma StoredClean(h: Heap, root: Ptr, nill: Ptr, p: Path, t: Tree)
    requires Stored(h, root, nill, p, t)
    ensures Clean(root, nill, All(p, t))
  {
  }

  lemma ChildLeaf(h: Heap, root: Ptr, nill: Ptr, p: Path, t: Tree, left: bool)
    requires Stored(h, root, nill, p, t) && t.Bin?
    ensures Ref(Side(t, left), nill) == nill <==> Side(t, left).Leaf?
  {
    hide Stored;
    if Ref(Side(t, left), nill) == nill {
      var down := Below(p, left, t.item, t.red, Side(t, !left));
      ZipUp(h, root, nill, down, Side(t, left));
      LeafAt(h, root, nill, down, Side(t, left));
    }
  }

  lemma UnlinkDefined(h: Heap, root: Ptr, nill: Ptr, p: Path, t: Tree, c: Tree)
    requires Stored(h, root, nill, p, t) && t.Bin? && (if t.l.Leaf? then c == t.r else t.r.Leaf? && c == t.l)
    ensures Ref(c, nill) in h && Parent(root, p) in h && Ref(c, nill) != t.item.id && Parent(root, p) != t.item.id
    ensures Ref(c, nill) != Parent(root, p)
    ensures p.Top? ==> h[root].left == t.item.id
    ensures p.Below? ==> Parent(root, p) != root
  {
    hide Stored;
    Links(h, root, nill, p, t);
    StoredClean(h, root, nill, p, t);
    UnlinkApart(root, nill, p, t, c);
    NodeApart(p, t);
    if c.Bin? { BinAvoids(c, t.item.id); }
    if p.Below? { ParentApart(root, nill, p, t); BinAvoids(t, p.item.id); }
  }

  /** Removing the found node itself. */
  lemma DirectRemoved(root: Ptr, nill: Ptr, p: Path, t: Tree, c: Tree, at: nat)
    requires Clean(root, nill, All(p, t)) && Sorted(All(p, t)) && t.Bin?
    requires (if t.l.Leaf? then c == t.r else t.r.Leaf? && c == t.l)
    requires at == |Before(p) + Items(t.l)|
    ensures Removed(All(p, t), All(p, c), at, t.item.id)
  {
    hide Clean, Sorted;
    UnlinkClean(root, nill, p, t, c);
    if t.l.Leaf? {
      DropRemoved(root, nill, Before(p), t.item, Items(c) + Behind(p));
    } else {
      DropRemoved(root, nill, Before(p) + Items(c), t.item, Behind(p));
    }
  }

  lemma DropRemoved(root: Ptr, nill: Ptr, a: seq<Item>, x: Item, b: seq<Item>)
    requires Clean(root, nill, a + [x] + b) && Sorted(a + [x] + b)
    ensures Removed(a + [x] + b, a + b, |a|, x.id)
  {
    var s, r := a + [x] + b, a + b;
    assert forall i :: 0 <= i < |a| ==> r[i] == s[i];
    assert forall i :: |a| <= i < |r| ==> r[i] == s[i + 1];
    assert s[|a|] == x;
    forall n: Ptr | Avoids(s, n) ensures Avoids(r, n) { }
  }

  /** Removing the successor after its entry was moved to the found node. */
  lemma MovedRemoved(root: Ptr, nill: Ptr, p: Path, t: Tree, q: Path, u: Tree, c: Tree, at: nat, item: Item)
    requires t.Bin? && u.Bin? && u.l.Leaf? && c == u.r && Clean(root, nill, All(q, u)) && Sorted(All(q, u))
    requires at == |Before(p) + Items(t.l)|
    requires Spine(q, Below(p, false, t.item, t.red, t.l)) && item == Item(t.item.id, u.item.key, u.item.val)
    ensures Removed(All(q, u), All(Retitle(q, Below(p, false, t.item, t.red, t.l), item), c), at, u.item.id)
  {
    hide Clean, Sorted, Removed;
    var base := Below(p, false, t.item, t.red, t.l);
    RetitleAround(q, base, item);
    UnlinkClean(root, nill, q, u, c);
    var a, b := Before(p) + Items(t.l), Items(c) + Behind(q);
    assert a + [item] + Items(c) + Behind(q) == a + [item] + b;
    ShiftRemoved(root, nill, a, t.item, u.item, b, item);
  }

  lemma ShiftRemoved(root: Ptr, nill: Ptr, a: seq<Item>, x: Item, y: Item, b: seq<Item>, z: Item)
    requires Clean(root, nill, a + [x] + [y] + b) && Sorted(a + [x] + [y] + b) && z == Item(x.id, y.key, y.val)
    ensures Removed(a + [x] + [y] + b, a + [z] + b, |a|, y.id)
  {
    hide Entries, Sorted, Avoids;
    var s, r := a + [x] + [y] + b, a + [z] + b;
    ShiftAt(a, x, y, b, z, s, r);
    ShiftSorted(s, r, |a|);
    ShiftEntries(s, r, |a|);
    ShiftAvoids(s, r, |a|, y.id);
  }

  lemma ShiftAt(a: seq<Item>, x: Item, y: Item, b: seq<Item>, z: Item, s: seq<Item>, r: seq<Item>)
    requires s == a + [x] + [y] + b && r == a + [z] + b && z == Item(x.id, y.key, y.val)
    ensures Shifted(s, r, |a|) && s[|a| + 1] == y
  {
  }

  /** The entry at k is overwritten with the next one, whose node is dropped. */
  ghost predicate Shifted(s: seq<Item>, r: seq<Item>, k: nat) {
    && |r| == |s| - 1 && k < |r| && r[k] == Item(s[k].id, s[k + 1].key, s[k + 1].val)
    && (forall i :: 0 <= i < k ==> r[i] == s[i]) && forall i :: k < i < |r| ==> r[i] == s[i + 1]
  }

  lemma ShiftSorted(s: seq<Item>, r: seq<Item>, k: nat)
    requires Shifted(s, r, k) && Sorted(s)
    ensures Sorted(r)
  {
    assert forall i :: 0 <= i < |r| ==> r[i].key == s[if i < k then i else i + 1].key;
  }

  lemma ShiftEntries(s: seq<Item>, r: seq<Item>, k: nat)
    requires Shifted(s, r, k)
    ensures Entries(r) == Entries(s)[..k] + Entries(s)[k + 1..]
  {
  }

  lemma ShiftAvoids(s: seq<Item>, r: seq<Item>, k: nat, d: Ptr)
    requires Shifted(s, r, k) && NoDup(s) && d == s[k + 1].id
    ensures Avoids(r, d) && forall n: Ptr :: Avoids(s, n) ==> Avoids(r, n)
  {
    assert forall i :: 0 <= i < |r| ==> r[i].id == s[if i <= k then i else i + 1].id;
  }

  lemma {:induction false} SpineIn(h: Heap, root: Ptr, nill: Ptr, p: Path, t: Tree, q: Path)
    requires Stored(h, root, nill, p, t) && Spine(p, q) && q.Below?
    ensures q.item.id in h
    decreases p
  {
    if p != q {
      ZipUp(h, root, nill, p, t);
      SpineIn(h, root, nill, p.up, Join(p.left, p.item, p.red, t, p.other), q);
    }
  }

  lemma RetitleParent(p: Path, q: Path, item: Item, root: Ptr)
    requires q.Below? && q.item.id == item.id
    ensures Parent(root, Retitle(p, q, item)) == Parent(root, p)
  {
  }

  lemma BlackGone(p: Path, u: Tree, c: Tree, k: nat)
    requires u.Bin? && !u.red && Bal(u, k) && Mild(u) && BalPath(p, k) && MildPath(p) && BlackRoot(p)
    requires c == u.l || c == u.r
    ensures k > 0 && Deleting(p, c, k - 1)
  {
  }

  lemma RedGone(p: Path, u: Tree, c: Tree, k: nat)
    requires u.Bin? && u.red && Bal(u, k) && Mild(u) && BalPath(p, k) && MildPath(p) && BlackRoot(p) && p.Below?
    requires c == u.l || c == u.r
    ensures Repaired(p, c, k)
  {
  }

  lemma IndexOf(p: Path, t: Tree) returns (i: nat)
    requires t.Bin?
    ensures i < |Items(Plug(p, t))| && Items(Plug(p, t))[i] == t.item && i == |Before(p) + Items(t.l)|
    ensures Items(Plug(p, t)) == Before(p) + Items(t.l) + [t.item] + (Items(t.r) + Behind(p))
  {
    AllPlug(p, t);
    i := |Before(p) + Items(t.l)|;
    assert Before(p) + (Items(t.l) + [t.item] + Items(t.r)) + Behind(p)
        == Before(p) + Items(t.l) + [t.item] + (Items(t.r) + Behind(p));
  }

  /** The node of the entry after place i, or none. */
  function NextId(items: seq<Item>, i: nat, none: Ptr): Ptr { if i + 1 < |items| then items[i + 1].id else none }

  lemma BehindUp(p: Path)
    requires p.Below?
    ensures Behind(p) == if p.left then [p.item] + Items(p.other) + Behind(p.up) else Behind(p.up)
  {
  }

  lemma {:induction false} SpineBefore(q: Path, base: Path)
    requires Spine(q, base)
    ensures Before(q) == Before(base)
    decreases q
  {
    if q != base { SpineBefore(q.up, base); }
  }

  /** What the climb sees at a node: whether it is a right child, and the next node up. */
  lemma ClimbLinks(h: Heap, root: Ptr, nill: Ptr, p: Path, t: Tree)
    requires Stored(h, root, nill, p, t) && t.Bin?
    ensures Parent(root, p) in h && h[t.item.id].parent == Parent(root, p) && t.item.id in h && t.item.id != nill
    ensures p.Top? ==> h[root].right == nill
    ensures p.Below? ==>
              && (t.item.id == h[p.item.id].right <==> !p.left) && h[p.item.id].parent == Parent(root, p.up)
              && Parent(root, p.up) in h
  {
    Links(h, root, nill, p, t);
    if p.Below? { ParentLinks(h, root, nill, p, t); }
  }

  /** The node of a stored entry is in use and not a sentinel. */
  lemma InUse(h: Heap, root: Ptr, nill: Ptr, p: Path, t: Tree)
    requires Stored(h, root, nill, p, t) && t.Bin?
    ensures !Avoids(Items(Plug(p, t)), t.item.id) && t.item.id != root && t.item.id != nill
  {
    hide Stored;
    var i := IndexOf(p, t);
    StoredClean(h, root, nill, p, t);
    AllPlug(p, t);
  }

  lemma LeftLeaf(h: Heap, root: Ptr, nill: Ptr, p: Path, t: Tree)
    requires Stored(h, root, nill, p, t) && t.Bin? && Ref(t.l, nill) == nill
    ensures t.l.Leaf?
  {
    hide Stored;
    var down := Below(p, true, t.item, t.red, t.r);
    ZipUp(h, root, nill, down, t.l);
    LeafAt(h, root, nill, down, t.l);
  }

  lemma SpineDiffers(h: Heap, root: Ptr, nill: Ptr, p: Path, t: Tree, q: Path)
    requires Stored(h, root, nill, p, t) && t.Bin? && Spine(p, q) && q.Below? && !q.left
    ensures t.item.id != q.item.id
  {
    RetitleAround(p, q, q.item);
    NodeApart(p, t);
    assert Before(p)[|Before(p)| - 1] == q.item;
  }

  /** If the position is not the root, it is not the root's node. */
  lemma NotRootBelow(h: Heap, root: Ptr, nill: Ptr, p: Path, t: Tree, rt: Ptr)
    requires Stored(h, root, nill, p, t) && (Red(t) || rt == Ref(Plug(p, t), nill))
    ensures p.Top? || Red(t) || Ref(t, nill) != rt
  {
    hide Stored;
    if p.Below? && !Red(t) {
      RootRef(p, t, nill);
      RootDiffers(h, root, nill, p, t);
    }
  }

  lemma {:induction false} RootDiffers(h: Heap, root: Ptr, nill: Ptr, p: Path, t: Tree)
    requires Stored(h, root, nill, p, t) && p.Below?
    ensures RootId(p) != Ref(t, nill)
  {
    PathTop(p, t);
    CleanParts(root, nill, p, t);
    var it :| it in Before(p) + Behind(p) && it.id == RootId(p);
    if t.Bin? {
      NodeApart(p, t);
      AvoidsAppend(Before(p), Behind(p), t.item.id);
    } else {
      AvoidsAppend(Before(p), Behind(p), nill);
    }
  }

  lemma {:induction false} PathTop(p: Path, t: Tree)
    requires p.Below?
    ensures exists it :: it in Before(p) + Behind(p) && it.id == RootId(p)
    decreases p
  {
    if p.up.Top? {
      assert p.item in Before(p) + Behind(p);
    } else {
      PathTop(p.up, t);
      var it :| it in Before(p.up) + Behind(p.up) && it.id == RootId(p.up);
      assert it in Before(p) + Behind(p);
    }
  }

  lemma BlackenStored(h: Heap, g: Heap, root: Ptr, nill: Ptr, p: Path, t: Tree)
    requires Stored(h, root, nill, p, t) && Ref(t, nill) in h && g == h[Ref(t, nill) := h[Ref(t, nill)].(red := false)]
    ensures Stored(g, root, nill, p, Blacken(t))
  {
    if t.Bin? { Recolour(h, g, root, nill, p, t, false); } else { assert g == h; }
  }

  lemma DeleteDone(p: Path, t: Tree, n: nat)
    requires Deleting(p, t, n) && (p.Top? || Red(t))
    ensures Repaired(p, Blacken(t), if Red(t) then n + 1 else n) && All(p, Blacken(t)) == All(p, t)
  {
    BlackenItems(t);
  }

  lemma RepairedPlug(p: Path, t: Tree, n: nat) returns (k: nat)
    requires Repaired(p, t, n)
    ensures Bal(Plug(p, t), k) && Mild(Plug(p, t)) && !Red(Plug(p, t)) && Items(Plug(p, t)) == All(p, t)
  {
    PlugMild(p, t);
    k := PlugBalanced(p, t, n);
    AllPlug(p, t);
  }

  /** The node at the top of a path. */
  function RootId(p: Path): Ptr { if p.Top? then 0 else if p.up.Top? then p.item.id else RootId(p.up) }

  /** All rules hold with t at position p. */
  ghost predicate Repaired(p: Path, t: Tree, n: nat) {
    && Bal(t, n) && BalPath(p, n) && Mild(t) && MildPath(p) && BlackRoot(p) && !(Red(t) && RedAbove(p))
    && (p.Top? ==> !Red(t))
  }

  lemma {:induction false} RootRef(p: Path, t: Tree, nill: Ptr)
    requires p.Below?
    ensures Ref(Plug(p, t), nill) == RootId(p)
    decreases p
  {
    if p.up.Below? { RootRef(p.up, Join(p.left, p.item, p.red, t, p.other), nill); }
  }

  lemma RootSplit(p: Path)
    requires p.Below?
    ensures p.up.Top? ==> RootId(p) == p.item.id
    ensures p.up.Below? ==> RootId(p) == RootId(p.up)
    ensures p.other.Bin? && p.up.Below? ==> RootId(RedSibling(p).up) == RootId(p)
  {
  }

  lemma RootStays(p: Path, t: Tree, nill: Ptr)
    requires p.Below? && p.other.Bin?
    ensures Ref(Plug(p.up, PassUp(p, t)), nill) == RootId(p)
  {
    if p.up.Below? { RootRef(p.up, PassUp(p, t), nill); }
  }

  /** The children of the sibling. */
  lemma SiblingLinks(h: Heap, root: Ptr, nill: Ptr, p: Path, t: Tree)
    requires Stored(h, root, nill, p, t) && p.Below? && p.other.Bin? && p.other.item.id in h
    ensures Child(h[p.other.item.id], p.left) == Ref(Near(p), nill) && Ref(Near(p), nill) in h
    ensures (h[Ref(Near(p), nill)].red <==> Red(Near(p)))
    ensures Child(h[p.other.item.id], !p.left) == Ref(Far(p), nill) && Ref(Far(p), nill) in h
    ensures (h[Ref(Far(p), nill)].red <==> Red(Far(p)))
  {
    hide Stored;
    Flip(h, root, nill, p, t);
    Links(h, root, nill, Across(p, t), p.other);
  }

  /** The cached root is black when the repair is over. */
  lemma OldRootBlack(h: Heap, root: Ptr, nill: Ptr, q: Path, t: Tree, rt: Ptr, n: nat)
    requires q.Below? && q.other.Bin? && Stored(h, root, nill, q.up, FarRed(q, t)) && Repaired(q.up, FarRed(q, t), n)
    requires rt == q.item.id || (q.up.Below? && rt == RootId(q.up))
    ensures rt in h && !h[rt].red
  {
    hide Stored, Bal, Mild, BalPath, MildPath, BlackRoot;
    if rt == q.item.id {
      var d := Below(q.up, q.left, q.other.item, q.red, Blacken(Far(q)));
      ZipUp(h, root, nill, d, Join(q.left, q.item, false, t, Near(q)));
      Links(h, root, nill, d, Join(q.left, q.item, false, t, Near(q)));
    } else {
      PlugStored(h, root, nill, q.up, FarRed(q, t));
      PlugMild(q.up, FarRed(q, t));
      RootRef(q.up, FarRed(q, t), nill);
      Links(h, root, nill, Top, Plug(q.up, FarRed(q, t)));
    }
  }

  /** The position of the sibling. */
  function Across(p: Path, t: Tree): Path
    requires p.Below?
  {
    Below(p.up, !p.left, p.item, p.red, t)
  }

  lemma Flip(h: Heap, root: Ptr, nill: Ptr, p: Path, t: Tree)
    requires p.Below?
    ensures Stored(h, root, nill, p, t) <==> Stored(h, root, nill, Across(p, t), p.other)
  {
    hide Stored;
    ZipUp(h, root, nill, p, t);
    ZipUp(h, root, nill, Across(p, t), p.other);
  }

  /** How far down a position is. */
  function Depth(p: Path): nat { if p.Top? then 0 else 1 + Depth(p.up) }

  lemma DepthUp(p: Path)
    requires p.Below?
    ensures Depth(p) == 1 + Depth(p.up)
  {
  }

  ghost function AnyHeight(t: Tree): (n: nat)
    requires exists n: nat :: Bal(t, n)
    ensures Bal(t, n)
  {
    var n: nat :| Bal(t, n); n
  }

  /** The rules of a whole tree, at a position in it. */
  lemma {:induction false} Unplug(p: Path, t: Tree, n: nat) returns (k: nat)
    requires Bal(Plug(p, t), n) && Mild(Plug(p, t)) && (p.Below? ==> !Red(Plug(p, t)))
    ensures Bal(t, k) && BalPath(p, k) && Mild(t) && MildPath(p) && BlackRoot(p) && !(Red(t) && RedAbove(p))
    decreases p
  {
    if p.Below? {
      var u := Join(p.left, p.item, p.red, t, p.other);
      var m := Unplug(p.up, u, n);
      k := if p.red then m else m - 1;
    } else {
      k := n;
    }
  }

  lemma NewInserting(p: Path, item: Item, tree: Tree, n: nat)
    requires Plug(p, Leaf) == tree && Bal(tree, n) && Mild(tree) && !Red(tree)
    ensures Inserting(p, Bin(item, true, Leaf, Leaf), 0)
    ensures All(p, Bin(item, true, Leaf, Leaf)) == Before(p) + [item] + Behind(p)
  {
    var k := Unplug(p, Leaf, n);
    assert Items(Bin(item, true, Leaf, Leaf)) == [item];
  }

  lemma {:induction false} PlugStored(h: Heap, root: Ptr, nill: Ptr, p: Path, t: Tree)
    requires Stored(h, root, nill, p, t)
    ensures Stored(h, root, nill, Top, Plug(p, t))
    decreases p
  {
    hide Stored;
    if p.Below? {
      ZipUp(h, root, nill, p, t);
      PlugStored(h, root, nill, p.up, Join(p.left, p.item, p.red, t, p.other));
    }
  }

  lemma InsertDone(h: Heap, root: Ptr, nill: Ptr, p: Path, t: Tree, n: nat) returns (k: nat)
    requires Stored(h, root, nill, p, t) && Inserting(p, t, n) && !RedAbove(p)
    ensures Stored(h, root, nill, Top, Plug(p, t)) && Plug(p, t).Bin? && Items(Blacken(Plug(p, t))) == All(p, t)
    ensures Bal(Blacken(Plug(p, t)), k) && Mild(Blacken(Plug(p, t))) && !Red(Blacken(Plug(p, t)))
  {
    hide Stored, Bal, Mild, BalPath, MildPath, BlackRoot;
    PlugStored(h, root, nill, p, t);
    AllPlug(p, t);
    PlugMild(p, t);
    var m := PlugBalanced(p, t, n);
    BlackenBal(Plug(p, t), m);
    k := if Red(Plug(p, t)) then m + 1 else m;
  }

  lemma SortedInsert(a: seq<Item>, x: Item, b: seq<Item>)
    requires Sorted(a + b) && AllBelow(a, x.key) && AllAbove(b, x.key)
    ensures Sorted(a + [x] + b)
  {
    SortedAppend(a, b);
    SortedAppend(a, [x]);
    SortedAppend(a + [x], b);
    assert forall i :: 0 <= i < |a| ==> (a + [x])[i] == a[i];
  }

  lemma Nothing(key: int)
    ensures AllBelow([], key) && AllAbove([], key) && StrictlyAbove([], key)
  {
  }

  lemma LeafAt(h: Heap, root: Ptr, nill: Ptr, p: Path, t: Tree)
    requires Stored(h, root, nill, p, t) && Ref(t, nill) == nill
    ensures t.Leaf?
  {
    Links(h, root, nill, p, t);
  }

  lemma AllLeaf(p: Path)
    ensures All(p, Leaf) == Before(p) + Behind(p)
  {
  }

  lemma ParentKey(h: Heap, root: Ptr, nill: Ptr, p: Path, t: Tree)
    requires Stored(h, root, nill, p, t) && p.Below? && p.item.id in h
    ensures h[p.item.id].key == p.item.key
  {
  }

  function Side(t: Tree, left: bool): Tree
    requires t.Bin?
  {
    if left then t.l else t.r
  }

  /** Where the child of t on the given side is after t was rotated above the node over it. */
  function Lifted(g: Path, t: Tree, side: bool): Path
    requires g.Below? && t.Bin?
  {
    Below(g.up, side, t.item, false, Join(side, g.item, true, Side(t, !side), g.other))
  }

  lemma NillIn(h: Heap, root: Ptr, nill: Ptr, p: Path, t: Tree)
    requires Stored(h, root, nill, p, t)
    ensures nill in h && !h[nill].red && root in h
    ensures t.Bin? ==> t.item.id != nill
  {
    Links(h, root, nill, p, t);
    RootIn(h, root, nill, p, Ref(t, nill));
  }
}
