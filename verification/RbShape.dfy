/**
 Red-black trees as values: trees, the path from the root to a position in one, and the balance rules that
 insertion and deletion repair step by step.
 */
module RbShape {

  type Ptr = int

  /** A stored entry: the node that holds it, its key (its place in the comparison order) and value. */
  datatype Item = Item(id: Ptr, key: int, val: int)

  datatype Tree = Leaf | Bin(item: Item, red: bool, l: Tree, r: Tree)

  /** The way down to a position: the node above it, on which side the position is, and the other child. */
  datatype Path = Top | Below(up: Path, left: bool, item: Item, red: bool, other: Tree)

  function Items(t: Tree): seq<Item> {
    match t
    case Leaf => []
    case Bin(item, _, l, r) => Items(l) + [item] + Items(r)
  }

  /** What comes before, and after, the position. */
  function Before(p: Path): seq<Item> {
    match p
    case Top => []
    case Below(up, left, item, _, other) => if left then Before(up) else Before(up) + Items(other) + [item]
  }

  function Behind(p: Path): seq<Item> {
    match p
    case Top => []
    case Below(up, left, item, _, other) => if left then [item] + Items(other) + Behind(up) else Behind(up)
  }

  /** All entries in order, with t at the position. */
  function All(p: Path, t: Tree): seq<Item> { Before(p) + Items(t) + Behind(p) }

  /** The node above the position, with t below it. */
  function Join(left: bool, item: Item, red: bool, t: Tree, other: Tree): Tree {
    if left then Bin(item, red, t, other) else Bin(item, red, other, t)
  }

  function Plug(p: Path, t: Tree): Tree {
    match p
    case Top => t
    case Below(up, left, item, red, other) => Plug(up, Join(left, item, red, t, other))
  }

  /** Moving up does not change the entries. */
  lemma AllUp(p: Path, t: Tree)
    requires p.Below?
    ensures All(p.up, Join(p.left, p.item, p.red, t, p.other)) == All(p, t)
  {
    var b, o, m, e := Before(p.up), Items(p.other), Items(t), Behind(p.up);
    if p.left {
      assert b + (m + [p.item] + o) + e == b + m + ([p.item] + o + e);
    } else {
      assert b + (o + [p.item] + m) + e == b + o + [p.item] + m + e;
    }
  }

  lemma {:induction false} AllPlug(p: Path, t: Tree)
    ensures Items(Plug(p, t)) == All(p, t)
    decreases p
  {
    if p.Below? {
      AllUp(p, t);
      AllPlug(p.up, Join(p.left, p.item, p.red, t, p.other));
    } else {
      assert [] + Items(t) + [] == Items(t);
    }
  }

  /** The entries in order do not depend on how a subtree is arranged. */
  lemma AllSame(p: Path, t: Tree, u: Tree)
    requires Items(t) == Items(u)
    ensures All(p, t) == All(p, u)
  {
  }

  // ---------------------------------------------------------------- balance

  predicate Red(t: Tree) { t.Bin? && t.red }

  /** Every way down t passes n black nodes. */
  predicate Bal(t: Tree, n: nat) {
    match t
    case Leaf => n == 0
    case Bin(_, red, l, r) => if red then Bal(l, n) && Bal(r, n) else n > 0 && Bal(l, n - 1) && Bal(r, n - 1)
  }

  /** No red node has a red child. */
  predicate Mild(t: Tree) {
    t.Bin? ==> Mild(t.l) && Mild(t.r) && (t.red ==> !Red(t.l) && !Red(t.r))
  }

  predicate RedAbove(p: Path) { p.Below? && p.red }

  /** A subtree with n black nodes on each way down keeps the whole tree balanced. */
  predicate BalPath(p: Path, n: nat) {
    p.Below? ==> Bal(p.other, n) && BalPath(p.up, if p.red then n else n + 1)
  }

  /** No red node on the path or beside it has a red child, apart from the position. */
  predicate MildPath(p: Path) {
    p.Below? ==> Mild(p.other) && MildPath(p.up) && (p.red ==> !Red(p.other) && !RedAbove(p.up))
  }

  /** The root is black, if it is on the path. */
  predicate BlackRoot(p: Path) {
    p.Below? ==> if p.up.Top? then !p.red else BlackRoot(p.up)
  }

  lemma {:induction false} PlugBalanced(p: Path, t: Tree, n: nat) returns (m: nat)
    requires Bal(t, n) && BalPath(p, n)
    ensures Bal(Plug(p, t), m)
    decreases p
  {
    if p.Below? {
      m := PlugBalanced(p.up, Join(p.left, p.item, p.red, t, p.other), if p.red then n else n + 1);
    } else {
      m := n;
    }
  }

  lemma {:induction false} PlugMild(p: Path, t: Tree)
    requires Mild(t) && MildPath(p) && !(Red(t) && RedAbove(p)) && BlackRoot(p)
    ensures Mild(Plug(p, t)) && (p.Below? ==> Plug(p, t).Bin? && !Plug(p, t).red)
    decreases p
  {
    if p.Below? {
      PlugMild(p.up, Join(p.left, p.item, p.red, t, p.other));
    }
  }

  function Blacken(t: Tree): Tree { if t.Bin? then t.(red := false) else t }

  lemma BlackenBal(t: Tree, n: nat)
    requires Bal(t, n) && Mild(t)
    ensures Mild(Blacken(t)) && Bal(Blacken(t), if Red(t) then n + 1 else n) && !Red(Blacken(t))
    ensures Items(Blacken(t)) == Items(t)
  {
  }

  lemma JoinRules(left: bool, item: Item, red: bool, t: Tree, other: Tree, n: nat)
    requires red ==> Bal(t, n) && Bal(other, n) && !Red(t) && !Red(other)
    requires !red ==> n > 0 && Bal(t, n - 1) && Bal(other, n - 1)
    requires Mild(t) && Mild(other)
    ensures Bal(Join(left, item, red, t, other), n) && Mild(Join(left, item, red, t, other))
  {
  }

  // ---------------------------------------------------------------- repairing an insertion

  /** The red node t is at the position; the only rule that may be broken is between it and its parent. */
  ghost predicate Inserting(p: Path, t: Tree, n: nat) {
    Red(t) && Bal(t, n) && Mild(t) && BalPath(p, n) && MildPath(p) && BlackRoot(p)
  }

  /** Under a red parent there is a black grandparent. */
  lemma RedParent(p: Path, t: Tree, n: nat)
    requires Inserting(p, t, n) && RedAbove(p)
    ensures p.up.Below? && !p.up.red && !Red(p.other) && n >= 0
  {
  }

  /** A red uncle: the grandparent becomes red instead of parent and uncle. */
  function Raise(p: Path, t: Tree): Tree
    requires p.Below? && p.up.Below?
  {
    Join(p.up.left, p.up.item, true, Join(p.left, p.item, false, t, p.other), Blacken(p.up.other))
  }

  lemma RaiseInserting(p: Path, t: Tree, n: nat)
    requires Inserting(p, t, n) && RedAbove(p) && p.up.Below? && Red(p.up.other)
    ensures Inserting(p.up.up, Raise(p, t), n + 1) && All(p.up.up, Raise(p, t)) == All(p, t)
  {
    AllUp(p, t);
    AllUp(p.up, Join(p.left, p.item, p.red, t, p.other));
    assert BalPath(p.up, n) && MildPath(p.up) && BlackRoot(p.up);
    assert Bal(p.up.other, n) && Mild(p.up.other);
    BlackenBal(p.up.other, n);
    JoinRules(p.left, p.item, false, t, p.other, n + 1);
    JoinRules(p.up.left, p.up.item, true, Join(p.left, p.item, false, t, p.other), Blacken(p.up.other), n + 1);
    assert Items(Raise(p, t))
        == Items(Join(p.up.left, p.up.item, p.up.red, Join(p.left, p.item, p.red, t, p.other), p.up.other));
  }

  /** A black uncle, t on the outer side: the parent takes the place of the grandparent. */
  function Outer(p: Path): Path
    requires p.Below? && p.up.Below?
  {
    Below(p.up.up, p.left, p.item, false, Join(p.left, p.up.item, true, p.other, p.up.other))
  }

  lemma OuterInserting(p: Path, t: Tree, n: nat)
    requires Inserting(p, t, n) && RedAbove(p) && p.up.Below? && !Red(p.up.other) && p.left == p.up.left
    ensures Inserting(Outer(p), t, n) && All(Outer(p), t) == All(p, t)
  {
    assert BalPath(p.up, n) && MildPath(p.up) && BlackRoot(p.up);
    JoinRules(p.left, p.up.item, true, p.other, p.up.other, n);
    OuterAll(p, t);
  }

  lemma OuterAll(p: Path, t: Tree)
    requires p.Below? && p.up.Below? && p.left == p.up.left
    ensures All(Outer(p), t) == All(p, t)
  {
    hide Before, Behind, Items, Join;
    Around(p);
    Around(p.up);
    Around(Outer(p));
    JoinItems(p.left, p.up.item, true, p.other, p.up.other);
    var b, e, o, u := Before(p.up.up), Behind(p.up.up), Items(p.other), Items(p.up.other);
    if p.left {
      assert [p.item] + (o + [p.up.item] + u) + e == [p.item] + o + ([p.up.item] + u + e);
    } else {
      assert b + (u + [p.up.item] + o) + [p.item] == b + u + [p.up.item] + o + [p.item];
    }
  }

  /** A black uncle, t on the inner side: t takes the place of the grandparent. */
  function InnerPath(p: Path, t: Tree): Path
    requires p.Below? && p.up.Below? && t.Bin?
  {
    Below(p.up.up, p.up.left, t.item, false, Join(p.up.left, p.up.item, true, if p.left then t.l else t.r, p.up.other))
  }

  function InnerTree(p: Path, t: Tree): Tree
    requires p.Below? && t.Bin?
  {
    Join(p.left, p.item, true, if p.left then t.r else t.l, p.other)
  }

  lemma InnerInserting(p: Path, t: Tree, n: nat)
    requires Inserting(p, t, n) && RedAbove(p) && p.up.Below? && !Red(p.up.other) && p.left != p.up.left
    ensures Inserting(InnerPath(p, t), InnerTree(p, t), n) && All(InnerPath(p, t), InnerTree(p, t)) == All(p, t)
  {
    assert BalPath(p.up, n) && MildPath(p.up) && BlackRoot(p.up);
    JoinRules(p.left, p.item, true, if p.left then t.r else t.l, p.other, n);
    JoinRules(p.up.left, p.up.item, true, if p.left then t.l else t.r, p.up.other, n);
    InnerAll(p, t);
  }

  /** What surrounds a position, one level up. */
  lemma Around(p: Path)
    requires p.Below?
    ensures p.left ==> Before(p) == Before(p.up) && Behind(p) == [p.item] + Items(p.other) + Behind(p.up)
    ensures !p.left ==> Before(p) == Before(p.up) + Items(p.other) + [p.item] && Behind(p) == Behind(p.up)
  {
  }

  lemma JoinItems(left: bool, item: Item, red: bool, t: Tree, other: Tree)
    ensures Items(Join(left, item, red, t, other))
         == if left then Items(t) + [item] + Items(other) else Items(other) + [item] + Items(t)
  {
  }

  lemma InnerAll(p: Path, t: Tree)
    requires p.Below? && p.up.Below? && t.Bin? && p.left != p.up.left
    ensures All(InnerPath(p, t), InnerTree(p, t)) == All(p, t)
  {
    hide Before, Behind, Items, Join;
    var q := InnerPath(p, t);
    Around(p);
    Around(p.up);
    Around(q);
    JoinItems(p.left, p.item, true, if p.left then t.r else t.l, p.other);
    JoinItems(p.up.left, p.up.item, true, if p.left then t.l else t.r, p.up.other);
    ItemsOf(t);
    var b, e, x, y, o, u := Before(p.up.up), Behind(p.up.up), Items(t.l), Items(t.r), Items(p.other), Items(p.up.other);
    if p.left {
      Regroup(b, u, p.up.item, x, t.item, y, p.item, o, e);
    } else {
      Regroup(b, o, p.item, x, t.item, y, p.up.item, u, e);
    }
  }

  lemma ItemsOf(t: Tree)
    requires t.Bin?
    ensures Items(t) == Items(t.l) + [t.item] + Items(t.r)
  {
  }

  lemma Regroup(b: seq<Item>, u: seq<Item>, g: Item, x: seq<Item>, i: Item, y: seq<Item>, q: Item, o: seq<Item>,
          e: seq<Item>)
    ensures b + u + [g] + (x + [i] + y) + ([q] + o + e) == b + (u + [g] + x) + [i] + (y + [q] + o) + e
    ensures b + (u + [g] + x) + [i] + (y + [q] + o) + e == b + (u + [g] + x) + ([i] + (y + [q] + o) + e)
  {
  }

  // ---------------------------------------------------------------- repairing a deletion

  /** The subtree at the position is one black node short; it may be red over red if it is then blackened. */
  ghost predicate Deleting(p: Path, t: Tree, n: nat) {
    Bal(t, n) && Mild(Blacken(t)) && BalPath(p, n + 1) && MildPath(p) && BlackRoot(p)
  }

  /** The child of the sibling that is next to the position, and the other one. */
  function Near(p: Path): Tree
    requires p.Below? && p.other.Bin?
  {
    if p.left then p.other.l else p.other.r
  }

  function Far(p: Path): Tree
    requires p.Below? && p.other.Bin?
  {
    if p.left then p.other.r else p.other.l
  }

  lemma Sibling(p: Path, t: Tree, n: nat)
    requires Deleting(p, t, n) && p.Below?
    ensures p.other.Bin? && p.other == Join(p.left, p.other.item, p.other.red, Near(p), Far(p)) && Mild(Near(p))
    ensures Mild(Far(p))
    ensures p.other.red ==> !p.red && !Red(Near(p)) && !Red(Far(p)) && Bal(Near(p), n + 1) && Bal(Far(p), n + 1)
    ensures !p.other.red ==> Bal(Near(p), n) && Bal(Far(p), n)
    ensures Bal(p.other, n + 1) && Mild(p.other) && BalPath(p.up, if p.red then n + 1 else n + 2) && MildPath(p.up)
    ensures (p.red ==> !RedAbove(p.up)) && (p.up.Below? ==> BlackRoot(p.up))
    ensures p.up.Top? ==> !p.red
  {
  }

  /** A red sibling is rotated above the parent. */
  function RedSibling(p: Path): Path
    requires p.Below? && p.other.Bin?
  {
    Below(Below(p.up, p.left, p.other.item, false, Far(p)), p.left, p.item, true, Near(p))
  }

  lemma RedSiblingDeleting(p: Path, t: Tree, n: nat)
    requires Deleting(p, t, n) && p.Below? && p.other.Bin? && p.other.red
    ensures Deleting(RedSibling(p), t, n) && All(RedSibling(p), t) == All(p, t)
  {
    Sibling(p, t, n);
    RedSiblingAll(p, t);
  }

  lemma RedSiblingAll(p: Path, t: Tree)
    requires p.Below? && p.other.Bin?
    ensures All(RedSibling(p), t) == All(p, t)
  {
    hide Before, Behind, Items;
    var q := RedSibling(p);
    Around(p);
    Around(q);
    Around(q.up);
    ItemsOf(p.other);
    var b, m, x, y, e := Before(p.up), Items(t), Items(Near(p)), Items(Far(p)), Behind(p.up);
    assert [p.item] + x + ([p.other.item] + y + e) == [p.item] + (x + [p.other.item] + y) + e;
    assert b + y + [p.other.item] + x + [p.item] == b + (y + [p.other.item] + x) + [p.item];
  }

  /** A black sibling with black children turns red; the parent is now one short. */
  function PassUp(p: Path, t: Tree): Tree
    requires p.Below? && p.other.Bin?
  {
    Join(p.left, p.item, p.red, t, p.other.(red := true))
  }

  lemma PassUpDeleting(p: Path, t: Tree, n: nat)
    requires Deleting(p, t, n) && p.Below? && !Red(t) && p.other.Bin? && !p.other.red && !Red(Near(p)) && !Red(Far(p))
    ensures Deleting(p.up, PassUp(p, t), if p.red then n else n + 1) && All(p.up, PassUp(p, t)) == All(p, t)
  {
    Sibling(p, t, n);
    AllUp(p, t);
    assert Items(p.other.(red := true)) == Items(p.other);
    JoinItems(p.left, p.item, p.red, t, p.other.(red := true));
    JoinItems(p.left, p.item, p.red, t, p.other);
    AllSame(p.up, PassUp(p, t), Join(p.left, p.item, p.red, t, p.other));
    JoinRules(p.left, p.other.item, true, Near(p), Far(p), n);
    assert p.other.(red := true) == Join(p.left, p.other.item, true, Near(p), Far(p));
    JoinRules(p.left, p.item, false, t, p.other.(red := true), n + 1);
    BlackJoin(p.left, p.item, p.red, t, p.other.(red := true), n);
  }

  lemma BlackJoin(left: bool, item: Item, red: bool, t: Tree, other: Tree, n: nat)
    requires Bal(t, n) && Bal(other, n)
    ensures Bal(Join(left, item, red, t, other), if red then n else n + 1)
    ensures Blacken(Join(left, item, red, t, other)) == Join(left, item, false, t, other)
  {
  }

  /** A black sibling whose red child is on the near side: that child is rotated above it. */
  function NearRed(p: Path): Path
    requires p.Below? && p.other.Bin? && Near(p).Bin?
  {
    var c := Near(p);
    p.(other := Join(p.left, c.item, false, if p.left then c.l else c.r,
                     Join(p.left, p.other.item, true, if p.left then c.r else c.l, Far(p))))
  }

  lemma NearRedDeleting(p: Path, t: Tree, n: nat)
    requires Deleting(p, t, n) && p.Below? && p.other.Bin? && !p.other.red && Red(Near(p)) && !Red(Far(p))
    ensures Deleting(NearRed(p), t, n) && All(NearRed(p), t) == All(p, t)
    ensures !NearRed(p).other.red && Red(Far(NearRed(p)))
  {
    Sibling(p, t, n);
    var c := Near(p);
    var a, b := if p.left then c.l else c.r, if p.left then c.r else c.l;
    assert Bal(a, n) && Bal(b, n) && Mild(a) && Mild(b) && !Red(a) && !Red(b);
    JoinRules(p.left, p.other.item, true, b, Far(p), n);
    JoinRules(p.left, c.item, false, a, Join(p.left, p.other.item, true, b, Far(p)), n + 1);
    NearRedAll(p, t);
  }

  lemma NearRedAll(p: Path, t: Tree)
    requires p.Below? && p.other.Bin? && Near(p).Bin?
    ensures Items(NearRed(p).other) == Items(p.other) && All(NearRed(p), t) == All(p, t)
  {
    hide Before, Behind, Items;
    var c := Near(p);
    var a, b := if p.left then c.l else c.r, if p.left then c.r else c.l;
    ItemsOf(p.other);
    ItemsOf(c);
    JoinItems(p.left, p.other.item, true, b, Far(p));
    JoinItems(p.left, c.item, false, a, Join(p.left, p.other.item, true, b, Far(p)));
    assert Items(a) + [c.item] + (Items(b) + [p.other.item] + Items(Far(p)))
        == Items(a) + [c.item] + Items(b) + [p.other.item] + Items(Far(p));
    assert Items(Far(p)) + [p.other.item] + Items(b) + [c.item] + Items(a)
        == Items(Far(p)) + [p.other.item] + (Items(b) + [c.item] + Items(a));
    Around(p);
    Around(NearRed(p));
  }

  /** A black sibling whose far child is red takes the place of the parent. */
  function FarRed(p: Path, t: Tree): Tree
    requires p.Below? && p.other.Bin?
  {
    Join(p.left, p.other.item, p.red, Join(p.left, p.item, false, t, Near(p)), Blacken(Far(p)))
  }

  lemma FarRedDone(p: Path, t: Tree, n: nat)
    requires Deleting(p, t, n) && p.Below? && !Red(t) && p.other.Bin? && !p.other.red && Red(Far(p))
    ensures Bal(FarRed(p, t), if p.red then n + 1 else n + 2) && Mild(FarRed(p, t)) && (Red(FarRed(p, t)) <==> p.red)
    ensures BalPath(p.up, if p.red then n + 1 else n + 2) && MildPath(p.up) && BlackRoot(p.up)
    ensures (p.red ==> !RedAbove(p.up) && p.up.Below?)
    ensures All(p.up, FarRed(p, t)) == All(p, t)
  {
    Sibling(p, t, n);
    BlackenBal(Far(p), n);
    JoinRules(p.left, p.item, false, t, Near(p), n + 1);
    JoinRules(p.left, p.other.item, p.red, Join(p.left, p.item, false, t, Near(p)), Blacken(Far(p)),
        if p.red then n + 1 else n + 2);
    FarRedAll(p, t);
  }

  lemma FarRedAll(p: Path, t: Tree)
    requires p.Below? && p.other.Bin?
    ensures All(p.up, FarRed(p, t)) == All(p, t)
  {
    hide Before, Behind, Items, Join;
    AllUp(p, t);
    ItemsOf(p.other);
    JoinItems(p.left, p.item, p.red, t, p.other);
    JoinItems(p.left, p.item, false, t, Near(p));
    JoinItems(p.left, p.other.item, p.red, Join(p.left, p.item, false, t, Near(p)), Blacken(Far(p)));
    BlackenItems(Far(p));
    var m, x, y := Items(t), Items(Near(p)), Items(Far(p));
    assert m + [p.item] + x + [p.other.item] + y == m + [p.item] + (x + [p.other.item] + y);
    assert y + [p.other.item] + (x + [p.item] + m) == y + [p.other.item] + x + [p.item] + m;
    AllSame(p.up, FarRed(p, t), Join(p.left, p.item, p.red, t, p.other));
  }

  lemma BlackenItems(t: Tree)
    ensures Items(Blacken(t)) == Items(t)
  {
  }
}
