/**
 * The quadtree that narrows sprite-against-sprite tests: each node holds
 * the sprites filed at it and up to four children covering parts of its
 * bounds.
 */
module SpatialIndex {
  import opened Results
  import opened Geometry
  import opened Sprites

  /** The value a quadtree node stands for: its bounds, its own sprites and its children. */
  datatype QTree = QNode(bounds: FloatRect, objects: seq<Sprite>, children: seq<QTree>)

  /** The index of the first child whose bounds contain `p`, if any. */
  function FirstContaining(children: seq<QTree>, p: Vec2): (r: Option<nat>)
    ensures r.Some? ==> r.value < |children| && Contains(children[r.value].bounds, p) &&
                        forall j :: 0 <= j < r.value ==> !Contains(children[j].bounds, p)
    ensures r.None? ==> forall j :: 0 <= j < |children| ==> !Contains(children[j].bounds, p)
  {
    if |children| == 0 then None
    else if Contains(children[0].bounds, p) then Some(0)
    else match FirstContaining(children[1..], p)
      case None => None
      case Some(i) => Some(i + 1)
  }

  /**
   * `insert` on the tree value: a leaf files the sprite; an inner node
   * hands it to its first child containing the anchor `p`, or drops it when
   * no child does.
   */
  function InsertAt(t: QTree, obj: Sprite, p: Vec2): (r: QTree)
    ensures r.bounds == t.bounds && |r.children| == |t.children|
    ensures !Lands(t, p) ==> r == t
    decreases t
  {
    if |t.children| == 0 then t.(objects := t.objects + [obj])
    else match FirstContaining(t.children, p)
      case None => t
      case Some(i) => t.(children := t.children[i := InsertAt(t.children[i], obj, p)])
  }

  /** Whether inserting at anchor `p` files the sprite somewhere rather than dropping it. */
  predicate Lands(t: QTree, p: Vec2)
    decreases t
  {
    if |t.children| == 0 then true
    else match FirstContaining(t.children, p)
      case None => false
      case Some(i) => Lands(t.children[i], p)
  }

  /** Every sprite filed in the tree, node before children, children in order. */
  function AllObjects(t: QTree): seq<Sprite>
    decreases t, |t.children| + 1
  {
    t.objects + ObjectsFrom(t, 0)
  }

  /** The sprites filed under children `k` and later of `t`. */
  function ObjectsFrom(t: QTree, k: nat): seq<Sprite>
    decreases t, |t.children| - k
  {
    if k >= |t.children| then [] else AllObjects(t.children[k]) + ObjectsFrom(t, k + 1)
  }

  /** Two trees with the same bounds everywhere and the same children structure. */
  predicate SameShape(a: QTree, b: QTree)
    decreases a
  {
    a.bounds == b.bounds && |a.children| == |b.children| &&
    forall i :: 0 <= i < |a.children| ==> SameShape(a.children[i], b.children[i])
  }

  /** `insert` never creates, removes or moves a node: the tree keeps its shape. */
  lemma {:induction false} InsertPreservesShape(t: QTree, obj: Sprite, p: Vec2)
    ensures SameShape(InsertAt(t, obj, p), t)
    decreases t
  {
    SameShapeReflexive(t);
    if |t.children| > 0 {
      match FirstContaining(t.children, p)
      case None =>
      case Some(i) =>
        InsertPreservesShape(t.children[i], obj, p);
        var r := InsertAt(t, obj, p);
        forall j | 0 <= j < |t.children|
          ensures SameShape(r.children[j], t.children[j])
        {
          if j != i {
            SameShapeReflexive(t.children[j]);
          }
        }
    }
  }

  lemma {:induction false} SameShapeReflexive(t: QTree)
    ensures SameShape(t, t)
    decreases t
  {
    forall i | 0 <= i < |t.children|
      ensures SameShape(t.children[i], t.children[i])
    {
      SameShapeReflexive(t.children[i]);
    }
  }

  /**
   * `insert` adds exactly one copy of the sprite to the tree when it lands
   * and nothing when it is dropped; no other sprite is added or lost.
   */
  lemma {:induction false} InsertAddsExactlyOnce(t: QTree, obj: Sprite, p: Vec2)
    ensures multiset(AllObjects(InsertAt(t, obj, p))) ==
            multiset(AllObjects(t)) + (if Lands(t, p) then multiset{obj} else multiset{})
    decreases t
  {
    if |t.children| == 0 {
      assert AllObjects(InsertAt(t, obj, p)) == t.objects + [obj];
      assert AllObjects(t) == t.objects;
    } else {
      match FirstContaining(t.children, p)
      case None =>
      case Some(i) =>
        var c' := InsertAt(t.children[i], obj, p);
        var t' := t.(children := t.children[i := c']);
        assert InsertAt(t, obj, p) == t';
        var added := if Lands(t, p) then multiset{obj} else multiset{};
        assert Lands(t, p) == Lands(t.children[i], p);
        InsertAddsExactlyOnce(t.children[i], obj, p);
        ReplaceChild(t, i, c', 0);
        var before := multiset(AllObjects(t.children[i]));
        MultisetCancel(multiset(ObjectsFrom(t', 0)), before, multiset(ObjectsFrom(t, 0)), added);
        assert multiset(AllObjects(t')) == multiset(t.objects) + multiset(ObjectsFrom(t', 0));
        assert multiset(AllObjects(t)) == multiset(t.objects) + multiset(ObjectsFrom(t, 0));
    }
  }

  lemma MultisetCancel(a: multiset<Sprite>, b: multiset<Sprite>, c: multiset<Sprite>, x: multiset<Sprite>)
    requires a + b == c + (b + x)
    ensures a == c + x
  {
    forall y
      ensures a[y] == (c + x)[y]
    {
      assert (a + b)[y] == (c + (b + x))[y];
    }
  }

  /** Children `k..` that two nodes share give the same sprites. */
  lemma {:induction false} ObjectsFromShared(t: QTree, u: QTree, k: nat)
    requires |t.children| == |u.children|
    requires forall j :: k <= j < |t.children| ==> t.children[j] == u.children[j]
    ensures ObjectsFrom(t, k) == ObjectsFrom(u, k)
    decreases |t.children| - k
  {
    if k < |t.children| {
      ObjectsFromShared(t, u, k + 1);
    }
  }

  /** Replacing child `i` changes the sprites under children `k..` (with `k <= i`) by exactly the difference. */
  lemma {:induction false} ReplaceChild(t: QTree, i: nat, c': QTree, k: nat)
    requires k <= i < |t.children|
    ensures multiset(ObjectsFrom(t.(children := t.children[i := c']), k)) + multiset(AllObjects(t.children[i])) ==
            multiset(ObjectsFrom(t, k)) + multiset(AllObjects(c'))
    decreases i - k
  {
    if k == i {
      ReplaceChildHere(t, i, c');
    } else {
      var t' := t.(children := t.children[i := c']);
      ReplaceChild(t, i, c', k + 1);
      var here := multiset(AllObjects(t.children[k]));
      var after, after' := ObjectsFrom(t, k + 1), ObjectsFrom(t', k + 1);
      assert t'.children[k] == t.children[k];
      assert ObjectsFrom(t, k) == AllObjects(t.children[k]) + after;
      assert ObjectsFrom(t', k) == AllObjects(t.children[k]) + after';
      assert multiset(ObjectsFrom(t, k)) == here + multiset(after);
      assert multiset(ObjectsFrom(t', k)) == here + multiset(after');
      MultisetFront(here, multiset(after'), multiset(AllObjects(t.children[i])),
                    multiset(after), multiset(AllObjects(c')));
    }
  }

  lemma ReplaceChildHere(t: QTree, i: nat, c': QTree)
    requires i < |t.children|
    ensures multiset(ObjectsFrom(t.(children := t.children[i := c']), i)) + multiset(AllObjects(t.children[i])) ==
            multiset(ObjectsFrom(t, i)) + multiset(AllObjects(c'))
  {
    var t' := t.(children := t.children[i := c']);
    ObjectsFromShared(t', t, i + 1);
    var rest := multiset(ObjectsFrom(t, i + 1));
    assert ObjectsFrom(t, i) == AllObjects(t.children[i]) + ObjectsFrom(t, i + 1);
    assert ObjectsFrom(t', i) == AllObjects(c') + ObjectsFrom(t, i + 1);
    MultisetSwap(multiset(AllObjects(c')), rest, multiset(AllObjects(t.children[i])));
  }

  lemma MultisetFront(h: multiset<Sprite>, a: multiset<Sprite>, b: multiset<Sprite>,
                      c: multiset<Sprite>, d: multiset<Sprite>)
    requires a + b == c + d
    ensures h + a + b == h + c + d
  {
    assert forall x :: (h + a + b)[x] == h[x] + (a + b)[x];
    assert forall x :: (h + c + d)[x] == h[x] + (c + d)[x];
  }

  lemma MultisetSwap(a: multiset<Sprite>, r: multiset<Sprite>, b: multiset<Sprite>)
    ensures a + r + b == b + r + a
  {
  }

  /**
   * `Quadtree`: the limits and bounds fixed at construction, the sprites
   * filed at this node and the child nodes.
   */
  class Quadtree {
    const maxObjects: nat
    const maxLevels: nat
    const level: nat
    const bounds: FloatRect
    var objects: seq<Sprite>
    var nodes: seq<Quadtree>

    ghost var Repr: set<Quadtree>
    ghost var Model: QTree

    ghost predicate Valid()
      reads this, Repr
      decreases Repr
    {
      this in Repr &&
      Model.bounds == bounds && Model.objects == objects && |Model.children| == |nodes| &&
      (forall i :: 0 <= i < |nodes| ==>
        nodes[i] in Repr && nodes[i].Repr <= Repr && this !in nodes[i].Repr &&
        nodes[i].Valid() && nodes[i].Model == Model.children[i]) &&
      (forall i, j :: 0 <= i < j < |nodes| ==> nodes[i].Repr !! nodes[j].Repr)
    }

    /**
     * A node covering `(x, y, width, height)` at depth `level` with no
     * sprites and no children; the depth and the limits default to 0, 10 and 5.
     */
    constructor(x: real, y: real, width: real, height: real, level: nat := 0,
                maxObjects: nat := 10, maxLevels: nat := 5)
      ensures Valid() && fresh(Repr)
      ensures Model == QNode(FloatRect(x, y, width, height), [], [])
      ensures this.level == level && this.maxObjects == maxObjects && this.maxLevels == maxLevels
    {
      this.maxObjects := maxObjects;
      this.maxLevels := maxLevels;
      this.level := level;
      bounds := FloatRect(x, y, width, height);
      objects := [];
      nodes := [];
      Repr := {this};
      Model := QNode(FloatRect(x, y, width, height), [], []);
    }

    /**
     * `insert`: a node without children appends the sprite; otherwise the
     * sprite goes to the first child whose bounds contain the drawable's
     * position, and is dropped when there is none. No node is created.
     */
    method Insert(obj: Sprite)
      requires Valid()
      modifies Repr
      ensures Valid() && Repr == old(Repr)
      ensures Model == InsertAt(old(Model), obj, obj.drawablePosition)
      decreases Repr
    {
      var p := obj.drawablePosition;
      if |nodes| == 0 {
        objects := objects + [obj];
        Model := Model.(objects := objects);
        return;
      }
      var i := 0;
      while i < |nodes|
        invariant 0 <= i <= |nodes|
        invariant forall j :: 0 <= j < i ==> !Contains(Model.children[j].bounds, p)
      {
        if Contains(nodes[i].bounds, p) {
          assert FirstContaining(Model.children, p) == Some(i) by {
            FirstContainingIsFirst(Model.children, p, i);
          }
          nodes[i].Insert(obj);
          Model := Model.(children := Model.children[i := nodes[i].Model]);
          return;
        }
        i := i + 1;
      }
      assert FirstContaining(Model.children, p) == None;
    }
  }

  /** The first index whose bounds contain `p`, found by a left-to-right scan, is the one `FirstContaining` names. */
  lemma FirstContainingIsFirst(children: seq<QTree>, p: Vec2, i: nat)
    requires i < |children| && Contains(children[i].bounds, p)
    requires forall j :: 0 <= j < i ==> !Contains(children[j].bounds, p)
    ensures FirstContaining(children, p) == Some(i)
  {
  }
}
