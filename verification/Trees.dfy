/**
 The general tree (opal_tree.c): items linked to their parent, siblings and first and last child, and the
 bracketed stream in which a subtree is sent and rebuilt. Items are numbered; 0 is the null pointer.
 */
module Trees {

  const NULL: nat := 0
  const SENTINEL: nat := 1

  datatype Item<D> = Item(data: D, parent: nat, ancestors: int, prev: nat, next: nat, first: nat, last: nat, count: nat)

  type Heap<D> = map<nat, Item<D>>

  /** The children of every item, in order. */
  type Kids = map<nat, seq<nat>>

  /** A subtree without its links. */
  datatype Shape<D> = Shape(data: D, children: seq<Shape<D>>)

  /** What the stream holds: the delimiters and whatever the tree's own function writes for an item. */
  datatype Token<D> = Open | Close | End | Content(data: D)

  datatype Delimiter<D> = None | Some(token: Token<D>)

  // ---------------------------------------------------------------- links

  ghost predicate Child<D>(h: Heap<D>, kids: Kids, p: nat, i: nat)
    requires p in kids && i < |kids[p]| && p in h
  {
    var c := kids[p][i];
    && c in h && c != SENTINEL && h[c].parent == p && h[c].ancestors == h[p].ancestors + 1
    && h[c].prev == (if i == 0 then NULL else kids[p][i - 1])
    && h[c].next == (if i + 1 == |kids[p]| then NULL else kids[p][i + 1])
  }

  ghost predicate Parent<D>(h: Heap<D>, kids: Kids, p: nat)
    requires p in kids && p in h
  {
    var l := kids[p];
    && h[p].count == |l| && (forall i, j :: 0 <= i < j < |l| ==> l[i] != l[j])
    && (if l == [] then p != SENTINEL ==> h[p].first == NULL else h[p].first == l[0] && h[p].last == l[|l| - 1])
  }

  /** The links of the items are those of the ordered lists of children. */
  ghost predicate Linked<D>(h: Heap<D>, kids: Kids) {
    && h.Keys == kids.Keys && NULL !in h && SENTINEL in h
    && (forall p :: p in kids ==> Parent(h, kids, p))
    && (forall p, i :: p in kids && 0 <= i < |kids[p]| ==> Child(h, kids, p, i))
  }

  /** The subtree below an item has the given shape, order and data. */
  ghost predicate Shows<D>(h: Heap<D>, kids: Kids, id: nat, t: Shape<D>)
    decreases t
  {
    && id in h && id in kids && h[id].data == t.data && |kids[id]| == |t.children|
    && forall i :: 0 <= i < |t.children| ==> Shows(h, kids, kids[id][i], t.children[i])
  }

  ghost function Size<D>(t: Shape<D>): nat
    decreases t
  {
    1 + Sizes(t.children)
  }

  ghost function Sizes<D>(ts: seq<Shape<D>>): nat
    decreases ts
  {
    if ts == [] then 0 else Sizes(ts[..|ts| - 1]) + Size(ts[|ts| - 1])
  }

  // ---------------------------------------------------------------- the stream

  ghost function Tokens<D>(t: Shape<D>): seq<Token<D>>
    decreases t
  {
    [Open, Content(t.data)] + Many(t.children) + [Close]
  }

  ghost function Many<D>(ts: seq<Shape<D>>): seq<Token<D>>
    decreases ts
  {
    if ts == [] then [] else Tokens(ts[0]) + Many(ts[1..])
  }

  /** What opal_tree_serialize writes. */
  ghost function Stream<D>(t: Shape<D>): seq<Token<D>> { Tokens(t) + [End] }

  // ---------------------------------------------------------------- growing

  /** New items were added and one of them was appended to the children of p; nothing else changed. */
  ghost predicate Appended<D>(h0: Heap<D>, kids0: Kids, h: Heap<D>, kids: Kids, p: nat) {
    && h0.Keys <= h.Keys && h0.Keys == kids0.Keys && h.Keys == kids.Keys && p in h0
    && |kids[p]| == |kids0[p]| + 1 && kids[p][..|kids0[p]|] == kids0[p] && kids[p][|kids0[p]|] !in h0
    && (forall q :: q in h0 ==> h[q].data == h0[q].data && (q != p ==> kids[q] == kids0[q]))
    && (forall q, i :: q in h && q !in h0 && 0 <= i < |kids[q]| ==> kids[q][i] !in h0)
  }

  /** What was appended is a subtree of shape t. */
  ghost predicate Grown<D>(h0: Heap<D>, kids0: Kids, h: Heap<D>, kids: Kids, p: nat, t: Shape<D>) {
    Appended(h0, kids0, h, kids, p) && Shows(h, kids, kids[p][|kids0[p]|], t)
  }

  /** A subtree is not affected by changes outside a set that it stays within. */
  lemma {:induction false} ShowsFrame<D>(h: Heap<D>, kids: Kids, h2: Heap<D>, kids2: Kids, s: set<nat>, id: nat,
          t: Shape<D>)
    requires forall q :: q in s ==> q in h && q in kids && q in h2 && q in kids2
    requires forall q :: q in s ==> h2[q].data == h[q].data && kids2[q] == kids[q]
    requires forall q, i :: q in s && 0 <= i < |kids[q]| ==> kids[q][i] in s
    requires id in s && Shows(h, kids, id, t)
    ensures Shows(h2, kids2, id, t)
    decreases t
  {
    forall i | 0 <= i < |t.children| ensures Shows(h2, kids2, kids2[id][i], t.children[i]) {
      ShowsFrame(h, kids, h2, kids2, s, kids[id][i], t.children[i]);
    }
  }

  lemma AppendStep<D>(h0: Heap<D>, kids0: Kids, h1: Heap<D>, kids1: Kids, h2: Heap<D>, kids2: Kids, p: nat, id: nat)
    requires Appended(h0, kids0, h1, kids1, p) && id == kids1[p][|kids0[p]|] && Appended(h1, kids1, h2, kids2, id)
    ensures Appended(h0, kids0, h2, kids2, p) && kids2[p] == kids1[p]
  {
    forall q, i | q in h2 && q !in h0 && 0 <= i < |kids2[q]| ensures kids2[q][i] !in h0 {
      if q == id && i < |kids1[id]| { assert kids2[q][i] == kids1[q][i]; }
    }
  }

  /** The new items apart from the appended one are closed under children. */
  lemma Enclosed<D>(h0: Heap<D>, kids0: Kids, h1: Heap<D>, kids1: Kids, p: nat, id: nat, q: nat, i: nat)
    requires Appended(h0, kids0, h1, kids1, p) && id == kids1[p][|kids0[p]|] && Linked(h1, kids1)
    requires q in h1 && q !in h0 && i < |kids1[q]|
    ensures kids1[q][i] in h1 && kids1[q][i] !in h0 && kids1[q][i] != id
  {
    assert Child(h1, kids1, p, |kids0[p]|);
    assert Child(h1, kids1, q, i);
  }

  /** A subtree that was just appended is itself grown by one child. */
  lemma GrowStep<D>(h0: Heap<D>, kids0: Kids, h1: Heap<D>, kids1: Kids, h2: Heap<D>, kids2: Kids,
                    p: nat, id: nat, d: D, cs: seq<Shape<D>>, c: Shape<D>)
    requires Grown(h0, kids0, h1, kids1, p, Shape(d, cs)) && id == kids1[p][|kids0[p]|]
    requires Grown(h1, kids1, h2, kids2, id, c) && Linked(h1, kids1)
    ensures Grown(h0, kids0, h2, kids2, p, Shape(d, cs + [c]))
  {
    hide Linked, Child, Parent;
    AppendStep(h0, kids0, h1, kids1, h2, kids2, p, id);
    var s := set q | q in h1 && q !in h0 && q != id;
    forall q, i | q in h1 && q !in h0 && 0 <= i < |kids1[q]| ensures kids1[q][i] in s {
      Enclosed(h0, kids0, h1, kids1, p, id, q, i);
    }
    var t := Shape(d, cs + [c]);
    forall i | 0 <= i < |t.children| ensures Shows(h2, kids2, kids2[id][i], t.children[i]) {
      if i < |cs| {
        assert kids2[id][i] == kids1[id][i];
        ShowsFrame(h1, kids1, h2, kids2, s, kids1[id][i], cs[i]);
      }
    }
  }

  // ---------------------------------------------------------------- linking

  /** The items after opal_tree_add_child. */
  function Attached<D>(h: Heap<D>, p: nat, id: nat): Heap<D>
    requires p in h && id in h && p != id && (h[p].count > 0 ==> h[p].last in h)
  {
    var h1 := h[id := h[id].(parent := p)];
    var h2 := h1[id := h1[id].(ancestors := h1[p].ancestors + 1)];
    var h4 :=
      if h2[p].count > 0 then
        var h3 := h2[id := h2[id].(prev := h2[p].last)];
        h3[h3[p].last := h3[h3[p].last].(next := id)]
      else h2[p := h2[p].(first := id)];
    var h5 := h4[p := h4[p].(last := id)];
    h5[p := h5[p].(count := h5[p].count + 1)]
  }

  /** id is an item as its constructor leaves it. */
  ghost predicate Unattached<D>(h: Heap<D>, kids: Kids, id: nat) {
    && id in h && id in kids && kids[id] == [] && id != SENTINEL
    && h[id] == Item(h[id].data, NULL, 0, NULL, NULL, NULL, NULL, 0)
  }

  lemma LastChild<D>(h: Heap<D>, kids: Kids, p: nat)
    requires Linked(h, kids) && p in h && h[p].count > 0
    ensures p in kids && kids[p] != [] && h[p].last == kids[p][|kids[p]| - 1] && h[p].last in h && h[p].last != p
    ensures h[p].last != SENTINEL
    ensures h[h[p].last].parent == p
  {
    assert Parent(h, kids, p);
    assert Child(h, kids, p, |kids[p]| - 1);
  }

  /** A new item is nobody's child. */
  lemma NotChild<D>(h: Heap<D>, kids: Kids, id: nat, q: nat, i: nat)
    requires Linked(h, kids) && Unattached(h, kids, id) && q in h && i < |kids[q]|
    ensures kids[q][i] != id
  {
    assert Child(h, kids, q, i);
  }

  lemma AttachedFirst<D>(h: Heap<D>, p: nat, id: nat)
    requires p in h && id in h && p != id && h[p].count == 0
    ensures Attached(h, p, id) == h[id := h[id].(parent := p, ancestors := h[p].ancestors + 1)]
                [p := h[p].(first := id, last := id, count := 1)]
  {
  }

  lemma AttachedNext<D>(h: Heap<D>, p: nat, id: nat, l: nat)
    requires p in h && id in h && p != id && h[p].count > 0 && l == h[p].last && l in h && l != p && l != id
    ensures Attached(h, p, id) == h[id := h[id].(parent := p, ancestors := h[p].ancestors + 1, prev := l)]
                [l := h[l].(next := id)][p := h[p].(last := id, count := h[p].count + 1)]
  {
  }

  /** What attaching changes, item by item. */
  lemma AttachedAt<D>(h: Heap<D>, kids: Kids, p: nat, id: nat)
    requires Linked(h, kids) && p in h && Unattached(h, kids, id) && p != id
    ensures h[p].count > 0 ==> h[p].last in h
    ensures var a := Attached(h, p, id);
      && a.Keys == h.Keys && (forall q :: q in h ==> a[q].data == h[q].data)
      && a[id] == h[id].(parent := p, ancestors := h[p].ancestors + 1,
                  prev := if h[p].count > 0 then h[p].last else NULL)
      && a[p] == h[p].(first := if h[p].count > 0 then h[p].first else id, last := id, count := h[p].count + 1)
      && (h[p].count > 0 ==> a[h[p].last] == h[h[p].last].(next := id))
      && (forall q :: q in h && q != p && q != id && (h[p].count > 0 ==> q != h[p].last) ==> a[q] == h[q])
  {
    hide Linked, Attached;
    if h[p].count > 0 {
      LastChild(h, kids, p);
      NotChild(h, kids, id, p, |kids[p]| - 1);
      AttachedNext(h, p, id, h[p].last);
    } else {
      AttachedFirst(h, p, id);
    }
  }

  lemma ParentOf<D>(h: Heap<D>, kids: Kids, p: nat)
    requires Linked(h, kids) && p in h
    ensures p in kids && Parent(h, kids, p) && h.Keys == kids.Keys
  {
  }

  lemma ChildOf<D>(h: Heap<D>, kids: Kids, q: nat, i: nat)
    requires Linked(h, kids) && q in kids && i < |kids[q]|
    ensures q in h && Child(h, kids, q, i)
  {
  }

  /** The children there were are still children. */
  lemma OldChild<D>(h: Heap<D>, kids: Kids, p: nat, id: nat, q: nat, i: nat)
    requires Linked(h, kids) && p in h && Unattached(h, kids, id) && p != id && q in kids && i < |kids[q]|
    ensures p in kids && (h[p].count > 0 ==> h[p].last in h)
    ensures q in Attached(h, p, id) && Child(Attached(h, p, id), kids[p := kids[p] + [id]], q, i)
  {
    hide Linked, Attached;
    ParentOf(h, kids, p);
    AttachedAt(h, kids, p, id);
    ChildOf(h, kids, q, i);
    NotChild(h, kids, id, q, i);
    if q == p {
      if i + 1 < |kids[p]| { ChildOf(h, kids, p, |kids[p]| - 1); }
    } else if h[p].count > 0 {
      LastChild(h, kids, p);
    }
  }

  /** The new item is the last child. */
  lemma NewChild<D>(h: Heap<D>, kids: Kids, p: nat, id: nat)
    requires Linked(h, kids) && p in h && Unattached(h, kids, id) && p != id
    ensures p in kids && (h[p].count > 0 ==> h[p].last in h)
    ensures p in Attached(h, p, id) && Child(Attached(h, p, id), kids[p := kids[p] + [id]], p, |kids[p]|)
  {
    hide Linked, Attached;
    ParentOf(h, kids, p);
    AttachedAt(h, kids, p, id);
  }

  /** Attaching appends to the list of children and keeps the links. */
  lemma AttachLinked<D>(h: Heap<D>, kids: Kids, p: nat, id: nat)
    requires Linked(h, kids) && p in h && Unattached(h, kids, id) && p != id
    ensures p in kids && (h[p].count > 0 ==> h[p].last in h)
    ensures Linked(Attached(h, p, id), kids[p := kids[p] + [id]])
  {
    hide Attached, Child, Parent;
    AttachedAt(h, kids, p, id);
    var a, kids2 := Attached(h, p, id), kids[p := kids[p] + [id]];
    forall q | q in kids2 ensures Parent(a, kids2, q) {
      AttachParent(h, kids, p, id, q);
    }
    forall q, i | q in kids2 && 0 <= i < |kids2[q]| ensures Child(a, kids2, q, i) {
      if i < |kids[q]| { OldChild(h, kids, p, id, q, i); } else { NewChild(h, kids, p, id); }
    }
  }

  lemma AttachParent<D>(h: Heap<D>, kids: Kids, p: nat, id: nat, q: nat)
    requires Linked(h, kids) && p in h && Unattached(h, kids, id) && p != id && q in h
    ensures p in kids && q in kids && (h[p].count > 0 ==> h[p].last in h)
    ensures q in Attached(h, p, id) && Parent(Attached(h, p, id), kids[p := kids[p] + [id]], q)
  {
    hide Linked, Attached, Unattached, Child;
    ParentOf(h, kids, p);
    ParentOf(h, kids, q);
    AttachedAt(h, kids, p, id);
    forall i | 0 <= i < |kids[p]| ensures kids[p][i] != id { NotChild(h, kids, id, p, i); }
    if h[p].count > 0 { LastChild(h, kids, p); }
  }

  /** Appending a newly made item. */
  lemma GrownItem<D>(h0: Heap<D>, kids0: Kids, h: Heap<D>, kids: Kids, p: nat, id: nat)
    requires Linked(h0, kids0) && p in h0 && id !in h0 && h0.Keys == kids0.Keys
    requires h.Keys == h0.Keys + {id} && kids == kids0[id := []][p := kids0[p] + [id]]
    requires forall q :: q in h0 ==> h[q].data == h0[q].data
    ensures Grown(h0, kids0, h, kids, p, Shape(h[id].data, []))
  {
    hide Linked;
  }

  lemma {:induction false} SizesSnoc<D>(d: D, cs: seq<Shape<D>>, c: Shape<D>)
    ensures Size(Shape(d, cs + [c])) == Size(Shape(d, cs)) + Size(c)
  {
    assert (cs + [c])[..|cs|] == cs;
  }

  /** An item that is not linked yet changes no links. */
  lemma MadeLinked<D>(h: Heap<D>, kids: Kids, id: nat, x: Item<D>)
    requires Linked(h, kids) && id !in h && id != NULL && x == Item(x.data, NULL, 0, NULL, NULL, NULL, NULL, 0)
    ensures Linked(h[id := x], kids[id := []])
  {
    hide Parent, Child;
    var h2, kids2 := h[id := x], kids[id := []];
    forall p | p in kids2 ensures Parent(h2, kids2, p) { MadeParent(h, kids, id, x, p); }
    forall p, i | p in kids2 && 0 <= i < |kids2[p]| ensures Child(h2, kids2, p, i) { MadeChild(h, kids, id, x, p, i); }
  }

  lemma Made<D>(h: Heap<D>, kids: Kids, id: nat, d: D)
    requires Linked(h, kids) && forall q :: q in h ==> q < id
    ensures id !in h && id != NULL && id != SENTINEL && id !in kids
    ensures Linked(h[id := Item(d, NULL, 0, NULL, NULL, NULL, NULL, 0)], kids[id := []])
  {
    MadeLinked(h, kids, id, Item(d, NULL, 0, NULL, NULL, NULL, NULL, 0));
  }

  lemma MadeParent<D>(h: Heap<D>, kids: Kids, id: nat, x: Item<D>, p: nat)
    requires Linked(h, kids) && id !in h && x == Item(x.data, NULL, 0, NULL, NULL, NULL, NULL, 0) && p in kids[id := []]
    ensures p in h[id := x] && Parent(h[id := x], kids[id := []], p)
  {
    if p != id { ParentOf(h, kids, p); }
  }

  lemma MadeChild<D>(h: Heap<D>, kids: Kids, id: nat, x: Item<D>, p: nat, i: nat)
    requires Linked(h, kids) && id !in h && p in kids[id := []] && i < |kids[id := []][p]|
    ensures p in h[id := x] && Child(h[id := x], kids[id := []], p, i)
  {
    ChildOf(h, kids, p, i);
  }

  /** The links that the serializer follows. */
  lemma Follow<D>(h: Heap<D>, kids: Kids, p: nat, i: nat)
    requires Linked(h, kids) && p in kids && i < |kids[p]|
    ensures var c := kids[p][i];
      && c in h && c in kids && h[c].next == (if i + 1 == |kids[p]| then NULL else kids[p][i + 1])
      && (i + 1 < |kids[p]| ==> kids[p][i + 1] != NULL)
      && (if kids[c] == [] then h[c].first == NULL else h[c].first == kids[c][0] != NULL)
  {
    ChildOf(h, kids, p, i);
    if i + 1 < |kids[p]| { ChildOf(h, kids, p, i + 1); }
    var c := kids[p][i];
    ParentOf(h, kids, c);
    if kids[c] != [] { ChildOf(h, kids, c, 0); }
  }

  lemma ShowsParts<D>(h: Heap<D>, kids: Kids, id: nat, t: Shape<D>)
    requires Shows(h, kids, id, t)
    ensures id in h && id in kids && h[id].data == t.data && |kids[id]| == |t.children|
    ensures forall i :: 0 <= i < |t.children| ==> Shows(h, kids, kids[id][i], t.children[i])
    ensures Many<D>([]) == []
  {
  }

  lemma NotRoot<D>(h: Heap<D>, kids: Kids, id: nat)
    requires Linked(h, kids) && Unattached(h, kids, id)
    ensures id != NULL && id in h
  {
  }

  /** The item id, appended to the children of p, has the first k of the children of t. */
  ghost predicate Built<D>(h0: Heap<D>, kids0: Kids, h: Heap<D>, kids: Kids, p: nat, id: nat, t: Shape<D>, k: nat) {
    && k <= |t.children| && Grown(h0, kids0, h, kids, p, Shape(t.data, t.children[..k]))
    && p in kids0 && p in kids && |kids0[p]| < |kids[p]| && id == kids[p][|kids0[p]|] && id in h
  }

  ghost function BuiltSize<D>(t: Shape<D>, k: nat): nat
    requires k <= |t.children|
  {
    Size(Shape(t.data, t.children[..k]))
  }

  lemma BuiltStart<D>(h0: Heap<D>, kids0: Kids, h: Heap<D>, kids: Kids, p: nat, id: nat, t: Shape<D>)
    requires p in kids0 && p in kids && id in h && kids[p] == kids0[p] + [id] && h[id].data == t.data
    requires Grown(h0, kids0, h, kids, p, Shape(h[id].data, []))
    ensures Built(h0, kids0, h, kids, p, id, t, 0) && BuiltSize(t, 0) == 1
  {
    hide Grown;
    assert t.children[..0] == [] && Sizes<D>([]) == 0;
  }

  lemma BuiltStep<D>(h0: Heap<D>, kids0: Kids, h1: Heap<D>, kids1: Kids, h2: Heap<D>, kids2: Kids, p: nat, id: nat,
          t: Shape<D>, k: nat)
    requires Built(h0, kids0, h1, kids1, p, id, t, k) && k < |t.children| && Linked(h1, kids1)
    requires Grown(h1, kids1, h2, kids2, id, t.children[k])
    ensures Built(h0, kids0, h2, kids2, p, id, t, k + 1) && BuiltSize(t, k + 1) == BuiltSize(t, k) + Size(t.children[k])
  {
    hide Linked, Size, Shows;
    var cs, c := t.children[..k], t.children[k];
    assert cs + [c] == t.children[..k + 1];
    GrowStep(h0, kids0, h1, kids1, h2, kids2, p, id, t.data, cs, c);
    AppendStep(h0, kids0, h1, kids1, h2, kids2, p, id);
    SizesSnoc(t.data, cs, c);
  }

  lemma BuiltDone<D>(h0: Heap<D>, kids0: Kids, h: Heap<D>, kids: Kids, p: nat, id: nat, t: Shape<D>)
    requires Built(h0, kids0, h, kids, p, id, t, |t.children|)
    ensures Grown(h0, kids0, h, kids, p, t) && BuiltSize(t, |t.children|) == Size(t)
  {
    hide Grown;
    assert t.children[..|t.children|] == t.children;
  }

  lemma InHeap<D>(h0: Heap<D>, kids0: Kids, h: Heap<D>, kids: Kids, p: nat, id: nat, t: Shape<D>, k: nat)
    requires Built(h0, kids0, h, kids, p, id, t, k)
    ensures id in h
  {
  }

  lemma StreamStart<D>(t: Shape<D>, rest: seq<Token<D>>)
    ensures Stream(t) + rest == Tokens(t) + ([End] + rest) && Stream(t) + rest != []
  {
  }

  /** What follows the opening delimiter of a subtree. */
  lemma TokensStart<D>(t: Shape<D>, d: Token<D>, b: seq<Token<D>>, tail: seq<Token<D>>)
    requires [d] + b == Tokens(t) + tail
    ensures d == Open && b == [Content(t.data)] + (Many(t.children) + [Close] + tail)
  {
    hide Many;
    assert Tokens(t) + tail == [Open] + ([Content(t.data)] + (Many(t.children) + [Close] + tail));
    assert b == ([d] + b)[1..];
  }

  /** Between two children the next delimiter tells whether there is another one. */
  lemma NextDelimiter<D>(ts: seq<Shape<D>>, k: nat, d: Token<D>, b: seq<Token<D>>, tail: seq<Token<D>>)
    requires k <= |ts| && [d] + b == Many(ts[k..]) + [Close] + tail
    ensures k == |ts| ==> d == Close && b == tail
    ensures k < |ts| ==> d == Open && [Open] + b == Tokens(ts[k]) + (Many(ts[k + 1..]) + [Close] + tail)
    ensures k < |ts| ==> |b| > |Many(ts[k + 1..]) + [Close] + tail|
  {
    if k == |ts| {
      assert Many(ts[k..]) + [Close] + tail == [Close] + tail;
      assert b == ([d] + b)[1..];
    } else {
      assert ts[k..][1..] == ts[k + 1..];
      assert Many(ts[k..]) + [Close] + tail == Tokens(ts[k]) + (Many(ts[k + 1..]) + [Close] + tail);
      assert ([d] + b)[0] == Open;
    }
  }

  /** The stream of the subtrees from j on begins with that of subtree j. */
  lemma ManyFrom<D>(ts: seq<Shape<D>>, j: nat, b: seq<Token<D>>)
    requires j < |ts|
    ensures b + Many(ts[j..]) == b + [Open] + [Content(ts[j].data)] + Many(ts[j].children) + [Close] + Many(ts[j + 1..])
  {
    assert ts[j..][1..] == ts[j + 1..];
  }

  // ---------------------------------------------------------------- the operations

  /** The buffer that a tree is packed into and unpacked from. */
  class Buffer<D> {
    var tokens: seq<Token<D>>

    method Pack(t: Token<D>)
      modifies this
      ensures tokens == old(tokens) + [t]
    {
      tokens := tokens + [t];
    }

    method Unpack() returns (t: Token<D>)
      requires tokens != []
      modifies this
      ensures [t] + tokens == old(tokens) && t == old(tokens)[0] && tokens == old(tokens)[1..]
    {
      t := tokens[0];
      tokens := tokens[1..];
    }
  }

  class Tree<D> {
    var items: Heap<D>
    var size: nat
    var unused: nat
    ghost var kids: Kids

    ghost predicate Valid()
      reads this
    {
      Linked(items, kids) && forall q :: q in items ==> q < unused
    }

    /** opal_tree_construct. */
    constructor (d: D)
      ensures Valid() && kids == map[SENTINEL := []] && size == 0 && items[SENTINEL].ancestors == -1
    {
      items := map[SENTINEL := Item(d, SENTINEL, -1, SENTINEL, SENTINEL, SENTINEL, SENTINEL, 0)];
      kids := map[SENTINEL := []];
      size := 0;
      unused := 2;
    }

    /** What the tree's deserialize function makes: an item with the next contents of the buffer. */
    method NewItem(buf: Buffer<D>) returns (id: nat)
      requires Valid() && buf.tokens != [] && buf.tokens[0].Content?
      modifies this, buf
      ensures Valid() && id !in old(items) && Unattached(items, kids, id) && size == old(size)
      ensures items == old(items)[id := items[id]] && kids == old(kids)[id := []]
      ensures [Content(items[id].data)] + buf.tokens == old(buf.tokens)
    {
      hide Linked;
      var t := buf.Unpack();
      id := unused;
      Made(items, kids, id, t.data);
      items := items[id := Item(t.data, NULL, 0, NULL, NULL, NULL, NULL, 0)];
      kids := kids[id := []];
      unused := unused + 1;
    }

    /** The assignments of opal_tree_add_child. */
    method Link(p: nat, id: nat)
      requires p in items && id in items && p != id && (items[p].count > 0 ==> items[p].last in items)
      modifies this`items
      ensures items == Attached(old(items), p, id)
    {
      items := items[id := items[id].(parent := p)];
      items := items[id := items[id].(ancestors := items[p].ancestors + 1)];
      if items[p].count > 0 {
        items := items[id := items[id].(prev := items[p].last)];
        items := items[items[p].last := items[items[p].last].(next := id)];
      } else {
        items := items[p := items[p].(first := id)];
      }
      items := items[p := items[p].(last := id)];
      items := items[p := items[p].(count := items[p].count + 1)];
    }

    /** opal_tree_add_child: the item becomes the last child and the tree counts one more. */
    method AddChild(p: nat, id: nat)
      requires Valid() && p in items && p != id && Unattached(items, kids, id)
      modifies this
      ensures Valid() && items.Keys == old(items.Keys) && size == old(size) + 1
      ensures kids == old(kids)[p := old(kids[p]) + [id]]
      ensures forall q :: q in items ==> items[q].data == old(items)[q].data
    {
      hide Linked, Attached;
      AttachLinked(items, kids, p, id);
      AttachedAt(items, kids, p, id);
      Link(p, id);
      kids := kids[p := kids[p] + [id]];
      size := size + 1;
    }

    /** A new item, with the next contents of the buffer, becomes the last child of p. */
    method AddItem(p: nat, buf: Buffer<D>) returns (id: nat)
      requires Valid() && p in items && p in kids && buf.tokens != [] && buf.tokens[0].Content?
      modifies this, buf
      ensures Valid() && size == old(size) + 1 && p in old(kids) && p in kids && id != NULL && id in items
      ensures Grown(old(items), old(kids), items, kids, p, Shape(items[id].data, []))
      ensures kids[p] == old(kids[p]) + [id]
      ensures [Content(items[id].data)] + buf.tokens == old(buf.tokens)
    {
      hide Linked, Unattached, Grown;
      ParentOf(items, kids, p);
      id := NewItem(buf);
      NotRoot(items, kids, id);
      AddChild(p, id);
      GrownItem(old(items), old(kids), items, kids, p, id);
    }

    /** add_tree_item2buf: at depth 1 the one item, below that the item and the siblings after it. */
    method PackItems(start: nat, buf: Buffer<D>, depth: nat, ghost p: nat, ghost k: nat, ghost ts: seq<Shape<D>>)
      requires Linked(items, kids) && p in items && p in kids && k + |ts| <= |kids[p]| && ts != []
      requires start == kids[p][k]
      requires depth >= 1 && if depth == 1 then |ts| == 1 else k + |ts| == |kids[p]|
      requires forall i :: 0 <= i < |ts| ==> Shows(items, kids, kids[p][k + i], ts[i])
      modifies buf
      ensures buf.tokens == old(buf.tokens) + Many(ts)
      decreases ts
    {
      hide Linked, Shows, Many, Tokens;
      var item := start;
      ghost var j := 0;
      assert ts[0..] == ts;
      while true
        invariant 0 <= j < |ts| && item == kids[p][k + j]
        invariant buf.tokens + Many(ts[j..]) == old(buf.tokens) + Many(ts)
        decreases |ts| - j
      {
        Follow(items, kids, p, k + j);
        ManyFrom(ts, j, buf.tokens);
        ShowsParts(items, kids, item, ts[j]);
        buf.Pack(Open);
        buf.Pack(Content(items[item].data));
        if items[item].first != NULL {
          PackItems(items[item].first, buf, depth + 1, item, 0, ts[j].children);
          buf.Pack(Close);
        } else {
          buf.Pack(Close);
        }
        item := items[item].next;
        j := j + 1;
        if !(item != NULL && 1 < depth) {
          assert ts[j..] == [];
          break;
        }
      }
    }

    /** opal_tree_serialize, for an item of a linked tree. */
    method Serialize(start: nat, buf: Buffer<D>, ghost t: Shape<D>)
      requires Valid() && start in items && Shows(items, kids, start, t)
      requires items[start].parent in kids && start in kids[items[start].parent]
      modifies buf
      ensures buf.tokens == old(buf.tokens) + Stream(t)
    {
      ghost var p := items[start].parent;
      ghost var k: nat :| k < |kids[p]| && kids[p][k] == start;
      PackItems(start, buf, 1, p, k, [t]);
      buf.Pack(End);
    }

    /** deserialize_add_tree_item. At depth 1 it reads a whole stream; below that the opening delimiter was
        read already, and it reads up to the matching closing one. */
    method UnpackItems(parent: nat, buf: Buffer<D>, delim0: Delimiter<D>, depth: nat, ghost t: Shape<D>,
            ghost rest: seq<Token<D>>)
      returns (delim: Delimiter<D>)
      requires Valid() && parent in items && depth >= 1
      requires if depth == 1 then delim0 == None && buf.tokens == Stream(t) + rest
               else delim0 == Some(Open) && [Open] + buf.tokens == Tokens(t) + rest
      modifies this, buf
      ensures Valid() && Grown(old(items), old(kids), items, kids, parent, t) && size == old(size) + Size(t)
      ensures buf.tokens == rest && delim == Some(if depth == 1 then End else Close)
      decreases t
    {
      hide Linked, Grown, Built, BuiltSize, Size, Many, Tokens, Stream;
      var level := 0;
      var id := NULL;
      delim := delim0;
      ghost var tail := if depth == 1 then [End] + rest else rest;
      if delim.None? {
        StreamStart(t, rest);
        var d := buf.Unpack();
        delim := Some(d);
      }
      assert depth == 1 ==> tail[0] == End && tail[1..] == rest;
      ghost var k: nat := 0;
      while !delim.token.End?
        invariant Valid() && delim.Some? && k <= |t.children| && (id == NULL ==> level == 0 && k == 0)
        invariant id == NULL ==>
                  && [delim.token] + buf.tokens == Tokens(t) + tail && items == old(items) && kids == old(kids)
                  && size == old(size)
        invariant id != NULL ==>
                  Built(old(items), old(kids), items, kids, parent, id, t, k) && size == old(size) + BuiltSize(t, k)
        invariant id != NULL && level == 1 ==> [delim.token] + buf.tokens == Many(t.children[k..]) + [Close] + tail
        invariant id != NULL && level != 1 ==>
                  level == 0 && depth == 1 && k == |t.children| && delim == Some(End) && buf.tokens == rest
        decreases |buf.tokens|
      {
        ghost var d0, b0 := delim.token, buf.tokens;
        if id == NULL { TokensStart(t, d0, b0, tail); } else { NextDelimiter(t.children, k, d0, b0, tail); }
        if delim.token.Open? { level := level + 1; } else { level := level - 1; }
        match level {
          case 0 =>
            BuiltDone(old(items), old(kids), items, kids, parent, id, t);
            if 1 < depth { return; }
          case 1 =>
            ParentOf(items, kids, parent);
            id := AddItem(parent, buf);
            assert b0[0] == Content(items[id].data) && b0[1..] == buf.tokens == Many(t.children) + [Close] + tail;
            assert t.children[0..] == t.children;
            BuiltStart(old(items), old(kids), items, kids, parent, id, t);
          case 2 =>
            ghost var h1, kids1 := items, kids;
            InHeap(old(items), old(kids), items, kids, parent, id, t, k);
            delim := UnpackItems(id, buf, delim, depth + 1, t.children[k], Many(t.children[k + 1..]) + [Close] + tail);
            BuiltStep(old(items), old(kids), h1, kids1, items, kids, parent, id, t, k);
            level := level - 1;
            k := k + 1;
          case _ =>
        }
        var d := buf.Unpack();
        delim := Some(d);
      }
      if id == NULL {
        TokensStart(t, delim.token, buf.tokens, tail);
      } else if level == 1 {
        NextDelimiter(t.children, k, delim.token, buf.tokens, tail);
      }
      BuiltDone(old(items), old(kids), items, kids, parent, id, t);
    }

    /** opal_tree_deserialize. */
    method Deserialize(buf: Buffer<D>, start: nat, ghost t: Shape<D>, ghost rest: seq<Token<D>>)
      requires Valid() && start in items && buf.tokens == Stream(t) + rest
      modifies this, buf
      ensures Valid() && Grown(old(items), old(kids), items, kids, start, t) && size == old(size) + Size(t)
      ensures buf.tokens == rest
    {
      var delim := UnpackItems(start, buf, None, 1, t, rest);
    }
  }

  /** A subtree that is sent and rebuilt below any item of any tree, its own included, is appended to the
      children of that item with the same shape, order and data. */
  method RoundTrip<D>(from: Tree<D>, start: nat, to: Tree<D>, parent: nat, ghost t: Shape<D>)
    requires from.Valid() && start in from.items && Shows(from.items, from.kids, start, t)
    requires from.items[start].parent in from.kids && start in from.kids[from.items[start].parent]
    requires to.Valid() && parent in to.items
    modifies to
    ensures to.Valid() && Grown(old(to.items), old(to.kids), to.items, to.kids, parent, t)
    ensures to.size == old(to.size) + Size(t)
  {
    hide *;
    var buf := new Buffer<D>;
    buf.tokens := [];
    from.Serialize(start, buf, t);
    assert buf.tokens == Stream(t) + [];
    to.Deserialize(buf, parent, t, []);
  }
}
