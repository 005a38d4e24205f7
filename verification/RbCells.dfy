/** Single pointer operations on a tree in memory, cell by cell: what a
    recolouring, a rotation, an attachment, a splice and a replacement write, and
    the tree that memory holds afterwards. */
module RbCells {
  import opened RbShape
  import opened RbHeap
  import opened RbBalance
  import opened RbSearch

  /** Only the cells of `ids` may have changed, and none has come or gone. */
  ghost predicate Outside(h: Memory, k: Memory, ids: set<nat>) {
    k.Keys == h.Keys && forall id :: id in h && id !in ids ==> k[id] == h[id]
  }

  /** The same items in the same order, in other shape or colours. */
  ghost predicate Reshaped(t: Tree, u: Tree) { Order(u) == Order(t) && Ids(u) == Ids(t) }

  lemma {:induction false} ReshapedIn(t: Tree, u: Tree, path: seq<Crumb>)
    requires Order(u) == Order(t)
    ensures Reshaped(Plug(t, path), Plug(u, path))
  {
    OrderKept(t, u, path);
    SameIds(Plug(t, path), Plug(u, path));
  }

  function WithKid(t: Tree, d: Side, kid: Tree): Tree
    requires t.Node?
  {
    Make(d, t.color, t.item, kid, Kid(t, Other(d)))
  }

  /** Changing a child in place is changing the node. */
  lemma {:induction false} KidPlug(t: Tree, d: Side, kid: Tree, path: seq<Crumb>)
    requires t.Node?
    ensures Plug(kid, [CrumbOf(t, d)] + path) == Plug(WithKid(t, d, kid), path)
  {
    Descend(WithKid(t, d, kid), d, path);
  }

  // ------------------------------------------- pointwise forms of the writes

  lemma {:induction false} Recolored(h: Memory, root: nat, t: Tree, color: Color, k: Memory, path: seq<Crumb>)
    requires Rep(h, root, Plug(t, path)) && t.Node? && t.item.id in h
    requires k == h[t.item.id := h[t.item.id].(color := color)]
    ensures Rep(k, root, Plug(t.(color := color), path))
    ensures Outside(h, k, Ids(Plug(t, path)))
  {
    RepParts(h, root, t, path);
    PlugIds(t, path);
    ModelsInside(h, t, Top(path));
    PathInside(h, path, RootId(t));
    SameModels(h, k, t.left, t.item.id);
    SameModels(h, k, t.right, t.item.id);
    SamePath(h, k, path, RootId(t));
    RepParts(k, root, t.(color := color), path);
  }

  /** Memory after a rotation, cell by cell. */
  ghost predicate RotatedCells(h: Memory, k: Memory, t: Tree, d: Side, path: seq<Crumb>)
    requires t.Node? && Kid(t, Other(d)).Node?
  {
    var up := Kid(t, Other(d));
    var x, y, b := t.item.id, up.item.id, RootId(Kid(up, d));
    && {x, y} <= h.Keys && k.Keys == h.Keys
    && k[x] == Relink(h[x], Other(d), b).(parent := y)
    && k[y] == Relink(h[y], d, x).(parent := Top(path))
    && (b != 0 ==> b in h && k[b] == h[b].(parent := x))
    && (path != [] ==> Top(path) in h && k[Top(path)] == Relink(h[Top(path)], path[0].side, y))
    && forall id :: id in h && id != x && id != y && id != b && id != Top(path) ==> k[id] == h[id]
  }

  /** The cells a rotation reads and writes: where they are and that they differ. */
  lemma {:induction false} RotationCells(h: Memory, root: nat, t: Tree, d: Side, path: seq<Crumb>)
    requires Rep(h, root, Plug(t, path)) && t.Node? && Kid(t, Other(d)).Node?
    ensures var up := Kid(t, Other(d));
      var x, y, b := t.item.id, up.item.id, RootId(Kid(up, d));
      && x in h && y in h && x != y && x != b && y != b && y != Top(path) && (b != 0 ==> b in h && b != Top(path))
      && Link(h[x], Other(d)) == y && Link(h[y], d) == b
  {
    RepParts(h, root, t, path);
    ModelsInside(h, t, Top(path));
    KidsApart(t, d);
    KidsApart(Kid(t, Other(d)), d);
  }

  /** The three subtrees a rotation moves about. */
  lemma {:induction false} RotatedKids(h: Memory, root: nat, t: Tree, d: Side, k: Memory, path: seq<Crumb>)
    requires Rep(h, root, Plug(t, path)) && t.Node? && Kid(t, Other(d)).Node?
    requires RotatedCells(h, k, t, d, path)
    ensures var up := Kid(t, Other(d));
      && Models(k, Kid(t, d), t.item.id) && Models(k, Kid(up, d), t.item.id)
      && Models(k, Kid(up, Other(d)), up.item.id)
  {
    hide Plug;
    RepParts(h, root, t, path);
    ModelsInside(h, t, Top(path));
    var up := Kid(t, Other(d));
    KidsApart(t, d);
    KidsApart(up, d);
    SameModels(h, k, Kid(t, d), t.item.id);
    Reparented(h, k, Kid(up, d), up.item.id, t.item.id);
    SameModels(h, k, Kid(up, Other(d)), up.item.id);
  }

  lemma {:induction false} RotatedModels(h: Memory, root: nat, t: Tree, d: Side, k: Memory, path: seq<Crumb>)
    requires Rep(h, root, Plug(t, path)) && t.Node? && Kid(t, Other(d)).Node?
    requires RotatedCells(h, k, t, d, path)
    ensures Models(k, Rotate(t, d), Top(path))
  {
    hide Plug, Distinct;
    RotatedKids(h, root, t, d, k, path);
    RepParts(h, root, t, path);
  }

  lemma {:induction false} RotatedDistinct(t: Tree, d: Side)
    requires t.Node? && Kid(t, Other(d)).Node? && Distinct(t)
    ensures Distinct(Rotate(t, d)) && Ids(Rotate(t, d)) == Ids(t)
    ensures RootId(Rotate(t, d)) == Kid(t, Other(d)).item.id
  {
    KidsApart(t, d);
    KidsApart(Kid(t, Other(d)), d);
  }

  lemma {:induction false} RotatedElsewhere(h: Memory, root: nat, t: Tree, d: Side, k: Memory, path: seq<Crumb>)
    requires Rep(h, root, Plug(t, path)) && t.Node? && Kid(t, Other(d)).Node?
    requires RotatedCells(h, k, t, d, path)
    ensures Elsewhere(h, k, path, Kid(t, Other(d)).item.id)
  {
    hide Models, Plug;
    RepParts(h, root, t, path);
    PathInside(h, path, RootId(t));
    KidsApart(t, d);
    KidsApart(Kid(t, Other(d)), d);
  }

  lemma {:induction false} Rotated(h: Memory, root: nat, t: Tree, d: Side, k: Memory, newRoot: nat, path: seq<Crumb>)
    requires Rep(h, root, Plug(t, path)) && t.Node? && Kid(t, Other(d)).Node?
    requires RotatedCells(h, k, t, d, path)
    requires newRoot == if path == [] then Kid(t, Other(d)).item.id else root
    ensures Rep(k, newRoot, Plug(Rotate(t, d), path))
    ensures Outside(h, k, Ids(Plug(t, path)))
  {
    hide Models, Rotate, Plug, Elsewhere;
    RotatedModels(h, root, t, d, k, path);
    RotatedElsewhere(h, root, t, d, k, path);
    RepParts(h, root, t, path);
    PlugIds(t, path);
    RotatedDistinct(t, d);
    KidsApart(t, d);
    KidsApart(Kid(t, Other(d)), d);
    Surgery(h, root, t, k, newRoot, Rotate(t, d), path);
  }

  /** What the pointers of a node, its parent, its grandparent and its uncle say. */
  lemma {:induction false} FamilyCells(h: Memory, root: nat, t: Tree, path: seq<Crumb>)
    requires Rep(h, root, Plug(t, path)) && t.Node? && |path| >= 2
    ensures var p, g, u, e := path[0].item.id, path[1].item.id, path[1].sib, path[1].side;
      && p in h && g in h && p != 0 && g != 0 && h[p].parent == g
      && (h[g].left == p <==> e == L)
      && Link(h[g], Other(e)) == RootId(u)
      && (u.Node? ==> u.item.id in h && u.item.id != 0 && h[u.item.id].color == u.color)
      && (Link(h[p], Other(e)) == t.item.id <==> path[0].side == Other(e))
  {
    TopCell(h, root, t, path);
    TopCell(h, root, Join(path[0], t), path[1..]);
    RepParts(h, root, t, path);
    assert path[1..][0] == path[1];
    assert ModelsPath(h, path[1..], path[0].item.id);
    assert Models(h, path[1].sib, path[1].item.id);
    assert DistinctPath(path[1..]);
    NoNull(path[1].sib);
  }

  lemma {:induction false} InnerIsRed(t: Tree, path: seq<Crumb>)
    requires Rising(t, path) && |path| >= 2 && path[0].color == Red
    ensures var e := path[1].side; var p := Kid(Family(t, path), e);
      && p.Node? && p.item == path[0].item
      && (IsRed(Kid(p, Other(e))) <==> path[0].side == Other(e))
      && (path[0].side == Other(e) ==> Kid(p, Other(e)) == t)
  {
    SoundPathTwo(path, Height(t));
  }

  lemma {:induction false} SettledRises(s: Tree, e: Side, rest: seq<Crumb>)
    requires s.Node? && Sound(s) && s.color == Black && IsRed(Kid(s, e)) && SoundPath(rest, Height(s))
    ensures Rising(Kid(s, e), [CrumbOf(s, e)] + rest)
    ensures Plug(Kid(s, e), [CrumbOf(s, e)] + rest) == Plug(s, rest)
  {
    Descend(s, e, rest);
    assert ([CrumbOf(s, e)] + rest)[1..] == rest;
  }

  /** The loop ends at the root or under a black node: blackening the root is enough. */
  lemma {:induction false} RisenRoot(t: Tree, path: seq<Crumb>)
    requires Rising(t, path) && (path != [] ==> path[0].color == Black)
    ensures var w := Plug(t, path);
      w.Node? && RedBlack(w.(color := Black))
  {
    if path != [] {
      PlugSound(t, path);
      PlugNode(t, path);
    }
  }

  lemma {:induction false} PlugNode(t: Tree, path: seq<Crumb>)
    requires t.Node?
    ensures Plug(t, path).Node?
    decreases |path|
  {
    if path != [] { PlugNode(Join(path[0], t), path[1..]); }
  }

  /** Hanging a new red node where there was none. */
  lemma {:induction false} Attached(h: Memory, root: nat, item: Item, k: Memory, newRoot: nat, path: seq<Crumb>)
    requires Rep(h, root, Plug(Leaf, path)) && item.id != 0 && item.id !in Ids(Plug(Leaf, path)) && 0 !in k
    requires item.id in k && k[item.id] == Cell(item.key, Red, 0, 0, Top(path))
    requires Elsewhere(h, k, path, item.id)
    requires newRoot == if path == [] then item.id else root
    ensures Rep(k, newRoot, Plug(Node(Red, Leaf, item, Leaf), path))
  {
    PlugIds(Leaf, path);
    Surgery(h, root, Leaf, k, newRoot, Node(Red, Leaf, item, Leaf), path);
  }

  /** What the pointers above a subtree say, even of an empty one. */
  lemma {:induction false} PathCell(h: Memory, root: nat, t: Tree, path: seq<Crumb>)
    requires Rep(h, root, Plug(t, path))
    ensures (path == []) == (Top(path) == 0)
    ensures path == [] ==> root == RootId(t)
    ensures path != [] ==>
      var c := path[0];
      && c.item.id in h && h[c.item.id] == CrumbCell(c, RootId(t), Top(path[1..]))
      && c.item.id != Top(path[1..]) && root != 0
      && (RootId(t) != 0 || c.sib.Node? ==> (h[c.item.id].left == RootId(t) <==> c.side == L))
      && (RootId(t) != 0 ==> root != RootId(t))
    ensures path != [] && path[0].sib.Node? ==>
      var w := path[0].sib;
      && w.item.id in h && w.item.id != 0
      && h[w.item.id] == Cell(w.item.key, w.color, RootId(w.left), RootId(w.right), path[0].item.id)
  {
    RepParts(h, root, t, path);
    NoNull(t);
    if path != [] {
      NoNull(path[0].sib);
      assert path[1..] != [] ==> Top(path[1..]) in PathIds(path[1..]);
      LastInside(path);
    }
  }

  lemma {:induction false} LastInside(path: seq<Crumb>)
    requires path != [] && DistinctPath(path)
    ensures path[|path| - 1].item.id in PathIds(path) && path[|path| - 1].item.id != 0
    decreases |path|
  {
    if |path| > 1 {
      assert path[1..][|path| - 2] == path[|path| - 1];
      LastInside(path[1..]);
    }
  }

  /** Memory after a node with one child at most gave way to it, cell by cell. */
  ghost predicate SplicedCells(h: Memory, k: Memory, child: nat, path: seq<Crumb>) {
    && k.Keys == h.Keys
    && (child != 0 ==> child in h && k[child] == h[child].(parent := Top(path)))
    && (path != [] ==> Top(path) in h && k[Top(path)] == Relink(h[Top(path)], path[0].side, child))
    && forall id :: id in h && id != child && id != Top(path) ==> k[id] == h[id]
  }

  lemma {:induction false} SpliceCells(h: Memory, root: nat, t: Tree, d: Side, path: seq<Crumb>)
    requires Rep(h, root, Plug(t, path)) && t.Node? && Kid(t, d).Leaf?
    ensures var child := RootId(Kid(t, Other(d)));
      child != 0 ==> child in h && child != Top(path) && child in Ids(Kid(t, Other(d)))
  {
    RepParts(h, root, t, path);
    ModelsInside(h, t, Top(path));
    KidsApart(t, d);
  }

  lemma {:induction false} SplicedModels(h: Memory, root: nat, t: Tree, d: Side, k: Memory, path: seq<Crumb>)
    requires Rep(h, root, Plug(t, path)) && t.Node? && Kid(t, d).Leaf?
    requires SplicedCells(h, k, RootId(Kid(t, Other(d))), path)
    ensures Models(k, Kid(t, Other(d)), Top(path))
    ensures Elsewhere(h, k, path, RootId(Kid(t, Other(d))))
  {
    hide Plug;
    RepParts(h, root, t, path);
    ModelsInside(h, t, Top(path));
    PathInside(h, path, RootId(t));
    KidsApart(t, d);
    Reparented(h, k, Kid(t, Other(d)), t.item.id, Top(path));
  }

  lemma {:induction false} Spliced(h: Memory, root: nat, t: Tree, d: Side, k: Memory, newRoot: nat, path: seq<Crumb>)
    requires Rep(h, root, Plug(t, path)) && t.Node? && Kid(t, d).Leaf?
    requires SplicedCells(h, k, RootId(Kid(t, Other(d))), path)
    requires newRoot == if path == [] then RootId(Kid(t, Other(d))) else root
    ensures Rep(k, newRoot, Plug(Kid(t, Other(d)), path))
    ensures Outside(h, k, Ids(Plug(t, path)) - {t.item.id})
  {
    hide Models, Plug, Elsewhere;
    SplicedModels(h, root, t, d, k, path);
    SpliceCells(h, root, t, d, path);
    RepParts(h, root, t, path);
    PlugIds(t, path);
    KidsApart(t, d);
    assert path != [] ==> Top(path) in PathIds(path);
    Surgery(h, root, t, k, newRoot, Kid(t, Other(d)), path);
  }

  /** Another node takes over a node's place, links and colour. */
  ghost predicate ReplacedCells(h: Memory, k: Memory, t: Tree, item: Item, path: seq<Crumb>)
    requires t.Node?
  {
    var l, r := RootId(t.left), RootId(t.right);
    && k.Keys == h.Keys && item.id in k
    && k[item.id] == Cell(item.key, t.color, l, r, Top(path))
    && (l != 0 ==> l in h && k[l] == h[l].(parent := item.id))
    && (r != 0 ==> r in h && k[r] == h[r].(parent := item.id))
    && (path != [] ==> Top(path) in h && k[Top(path)] == Relink(h[Top(path)], path[0].side, item.id))
    && forall id :: id in h && id != item.id && id != l && id != r && id != Top(path) ==> k[id] == h[id]
  }

  lemma {:induction false} Replaced(h: Memory, root: nat, t: Tree, item: Item,
                                     k: Memory, newRoot: nat, path: seq<Crumb>)
    requires Rep(h, root, Plug(t, path)) && t.Node?
    requires item.id != 0 && item.id !in Ids(Plug(t, path))
    requires ReplacedCells(h, k, t, item, path)
    requires newRoot == if path == [] then item.id else root
    ensures Rep(k, newRoot, Plug(t.(item := item), path))
    ensures Outside(h, k, Ids(Plug(t, path)) + {item.id})
  {
    hide Plug;
    RepParts(h, root, t, path);
    PlugIds(t, path);
    ModelsInside(h, t, Top(path));
    PathInside(h, path, RootId(t));
    KidsApart(t, L);
    Reparented(h, k, t.left, t.item.id, item.id);
    Reparented(h, k, t.right, t.item.id, item.id);
    assert path != [] ==> Top(path) in PathIds(path);
    Surgery(h, root, t, k, newRoot, t.(item := item), path);
  }

  /** What a node's pointer to a child says. */
  lemma {:induction false} KidCell(h: Memory, root: nat, t: Tree, d: Side, path: seq<Crumb>)
    requires Rep(h, root, Plug(t, path)) && t.Node?
    ensures t.item.id in h && Link(h[t.item.id], d) == RootId(Kid(t, d))
    ensures Kid(t, d).Node? ==>
      RootId(Kid(t, d)) != 0 && RootId(Kid(t, d)) in h && h[RootId(Kid(t, d))].color == Kid(t, d).color
  {
    RepParts(h, root, t, path);
    NoNull(Kid(t, d));
  }

  /** The colours of the sibling's children, read through pointers. */
  lemma {:induction false} SiblingKids(h: Memory, root: nat, t: Tree, path: seq<Crumb>)
    requires Rep(h, root, Plug(t, path)) && path != [] && path[0].sib.Node?
    ensures var w := path[0].sib;
      && w.item.id in h && h[w.item.id].left == RootId(w.left) && h[w.item.id].right == RootId(w.right)
      && (w.left.Node? ==> RootId(w.left) != 0 && RootId(w.left) in h && h[RootId(w.left)].color == w.left.color)
      && (w.right.Node? ==> RootId(w.right) != 0 && RootId(w.right) in h && h[RootId(w.right)].color == w.right.color)
  {
    hide Rep;
    var up, rest, d := Join(path[0], t), path[1..], Other(path[0].side);
    assert Plug(t, path) == Plug(up, rest);
    Descend(up, d, rest);
    KidCell(h, root, path[0].sib, L, [CrumbOf(up, d)] + rest);
    KidCell(h, root, path[0].sib, R, [CrumbOf(up, d)] + rest);
  }

  /** What a pointer to a position, perhaps null, says of it. */
  lemma {:induction false} PositionCell(h: Memory, root: nat, t: Tree, path: seq<Crumb>)
    requires Rep(h, root, Plug(t, path))
    ensures (RootId(t) == 0) == t.Leaf? && (root == 0) == Plug(t, path).Leaf?
    ensures root != 0 ==> root in h
    ensures t.Node? ==> RootId(t) in h && h[RootId(t)].color == t.color
    ensures RootId(t) == root <==> path == []
  {
    PathCell(h, root, t, path);
    PathCell(h, root, Plug(t, path), []);
    if t.Node? { TopCell(h, root, t, path); }
    if Plug(t, path).Node? { TopCell(h, root, Plug(t, path), []); }
    if path != [] { PlugNode(Join(path[0], t), path[1..]); }
  }

  /** A new item at the place a search ended. */
  lemma {:induction false} Planted(t: Tree, item: Item, path: seq<Crumb>)
    requires t == Plug(Leaf, path) && RedBlack(t) && Ascending(Order(t)) && Between(path, item.key)
    ensures var x := Node(Red, Leaf, item, Leaf); var u := Plug(x, path);
      && Rising(x, path) && Ascending(Order(u)) && Ids(u) == Ids(t) + {item.id}
      && item.key !in MapOf(Order(t)) && MapOf(Order(u)) == MapOf(Order(t))[item.key := item.id]
  {
    hide Order, MapOf, Ascending, Below, Above, Ids;
    var x := Node(Red, Leaf, item, Leaf);
    UnplugSound(Leaf, path);
    PlantedIds(item, path);
    PlantedOrder(item, path);
    var b, a := Before(path), After(path);
    AscendingIn(b, item, a);
    MapAround(b, item, a);
  }

  lemma {:induction false} PlantedIds(item: Item, path: seq<Crumb>)
    ensures Ids(Plug(Node(Red, Leaf, item, Leaf), path)) == Ids(Plug(Leaf, path)) + {item.id}
  {
    PlugIds(Leaf, path);
    PlugIds(Node(Red, Leaf, item, Leaf), path);
  }

  lemma {:induction false} PlantedOrder(item: Item, path: seq<Crumb>)
    ensures Order(Plug(Leaf, path)) == Before(path) + After(path)
    ensures Order(Plug(Node(Red, Leaf, item, Leaf), path)) == Before(path) + [item] + After(path)
  {
    hide Plug, Before, After;
    var x := Node(Red, Leaf, item, Leaf);
    assert Order(x) == [item] && Order(Leaf) == [];
    hide Order;
    OrderPlug(Leaf, path);
    OrderPlug(x, path);
  }

  /** The nodes the map leads to are nodes. */
  lemma {:induction false} MapIds(s: seq<Item>, key: nat)
    requires key in MapOf(s)
    ensures exists i :: 0 <= i < |s| && s[i] == Item(MapOf(s)[key], key)
    decreases |s|
  {
    var n := |s| - 1;
    if s[n].key == key {
      assert s[n] == Item(MapOf(s)[key], key);
    } else {
      MapIds(s[..n], key);
      var i :| 0 <= i < n && s[..n][i] == Item(MapOf(s[..n])[key], key);
      assert s[i] == Item(MapOf(s)[key], key);
    }
  }

  lemma {:induction false} FoundIsNode(h: Memory, root: nat, t: Tree, key: nat)
    requires Rep(h, root, t)
    ensures key in MapOf(Order(t)) ==> MapOf(Order(t))[key] in Ids(t) && MapOf(Order(t))[key] != 0
  {
    NoNull(t);
    if key in MapOf(Order(t)) {
      MapIds(Order(t), key);
      IdsOfOrder(t, MapOf(Order(t))[key]);
    }
  }

  // ---------------------------------------------------- taking an item out

  /** Colours after a node with an empty side gives way to its other child. */
  lemma {:induction false} SpliceColors(t: Tree, d: Side, path: seq<Crumb>)
    requires RedBlack(Plug(t, path)) && t.Node? && Kid(t, d).Leaf?
    ensures var c := Kid(t, Other(d));
      && (t.color == Red ==> RedBlack(Plug(c, path)) && Sound(c) && SoundPath(path, Height(c)) && !IsRed(c))
      && (t.color == Black ==> Lacking(c, path))
  {
    UnplugSound(t, path);
    var c := Kid(t, Other(d));
    if t.color == Red { PlugSound(c, path); }
  }

  /** Contents after an item has gone from between its two sides. */
  lemma {:induction false} TakenOut(t: Tree, path: seq<Crumb>, u: Tree)
    requires t.Node? && Ascending(Order(Plug(t, path)))
    requires Order(u) == Before(path) + Order(t.left) + Order(t.right) + After(path)
    ensures Ascending(Order(u)) && MapOf(Order(u)) == MapOf(Order(Plug(t, path))) - {t.item.key}
  {
    OrderAround(t, path);
    var a, b := Before(path) + Order(t.left), Order(t.right) + After(path);
    assert Order(u) == a + b;
    AscendingOut(a, t.item, b);
    MapAround(a, t.item, b);
  }

  /** `path` with the item of one crumb changed: `inner`, then `c`, then `outer`. */
  lemma {:induction false} ItemChange(inner: seq<Crumb>, c: Crumb, item: Item, outer: seq<Crumb>, n: nat)
    requires SoundPath(inner + [c] + outer, n)
    ensures SoundPath(inner + [c.(item := item)] + outer, n)
    decreases |inner|
  {
    var p, q := inner + [c] + outer, inner + [c.(item := item)] + outer;
    if inner == [] {
      assert p[1..] == outer && q[1..] == outer;
      assert forall i :: 1 <= i < |p| ==> p[i] == q[i];
    } else {
      assert p[1..] == inner[1..] + [c] + outer && q[1..] == inner[1..] + [c.(item := item)] + outer;
      ItemChange(inner[1..], c, item, outer, n + Weight(inner[0].color));
      assert |p| > 1 ==> p[1].color == q[1].color;
    }
  }

  /** A subtree that hangs under a path that goes on, seen from further up. */
  lemma {:induction false} PlugMiddle(t: Tree, inner: seq<Crumb>, c: Crumb, outer: seq<Crumb>)
    ensures Plug(t, inner + [c] + outer) == Plug(Join(c, Plug(t, inner)), outer)
  {
    PlugConcat(t, inner, [c] + outer);
    assert inner + [c] + outer == inner + ([c] + outer);
    assert ([c] + outer)[1..] == outer;
  }

  /** All left turns: nothing lies before the position. */
  ghost predicate Leftmost(inner: seq<Crumb>) { forall i :: 0 <= i < |inner| ==> inner[i].side == L }

  lemma {:induction false} LeftmostBefore(inner: seq<Crumb>)
    requires Leftmost(inner)
    ensures Before(inner) == []
    decreases |inner|
  {
    if inner != [] { LeftmostBefore(inner[1..]); }
  }

  /** The leftmost item is the first. */
  lemma {:induction false} LeftmostFirst(s: Tree, inner: seq<Crumb>)
    requires s.Node? && s.left.Leaf? && Leftmost(inner)
    ensures Order(Plug(s, inner)) == [s.item] + Order(Plug(s.right, inner))
  {
    LeftmostBefore(inner);
    OrderPlug(s, inner);
    OrderPlug(s.right, inner);
  }

  /** Moving the successor of `t` into its place takes `t`'s item out. */
  lemma {:induction false} SuccessorOrder(t: Tree, outer: seq<Crumb>, s: Tree, inner: seq<Crumb>)
    requires t.Node? && s.Node? && s.left.Leaf? && Plug(s, inner) == t.right && Leftmost(inner)
    ensures var u := Plug(t.(right := Plug(s.right, inner), item := s.item), outer);
      Order(u) == Before(outer) + Order(t.left) + Order(t.right) + After(outer)
  {
    hide Plug, Before, After;
    LeftmostFirst(s, inner);
    var r := Plug(s.right, inner);
    var v := t.(right := r, item := s.item);
    assert Order(v) == Order(t.left) + ([s.item] + Order(r));
    OrderPlug(v, outer);
  }

  /** The cells a replacement touches are apart. */
  lemma {:induction false} ReplaceCells(h: Memory, root: nat, t: Tree, path: seq<Crumb>)
    requires Rep(h, root, Plug(t, path)) && t.Node?
    ensures {RootId(t.left), RootId(t.right), Top(path)} - {0} <= Ids(Plug(t, path))
    ensures t.left.Node? ==> RootId(t.left) != 0 && RootId(t.left) in h
    ensures t.right.Node? ==> RootId(t.right) != 0 && RootId(t.right) in h
    ensures path != [] ==> Top(path) != RootId(t.left) && Top(path) != RootId(t.right)
    ensures t.left.Node? ==> RootId(t.left) != RootId(t.right)
  {
    RepParts(h, root, t, path);
    ModelsInside(h, t, Top(path));
    PlugIds(t, path);
    KidsApart(t, L);
  }

  lemma {:induction false} SpliceOrder(t: Tree, d: Side, path: seq<Crumb>)
    requires t.Node? && Kid(t, d).Leaf?
    ensures Order(Plug(Kid(t, Other(d)), path)) == Before(path) + Order(t.left) + Order(t.right) + After(path)
  {
    OrderPlug(Kid(t, Other(d)), path);
  }

  lemma {:induction false} SpliceIds(t: Tree, d: Side, path: seq<Crumb>)
    requires t.Node? && Kid(t, d).Leaf? && Distinct(Plug(t, path))
    ensures Ids(Plug(Kid(t, Other(d)), path)) == Ids(Plug(t, path)) - {t.item.id}
  {
    PlugIds(t, path);
    PlugIds(Kid(t, Other(d)), path);
    PlugDistinct(t, path);
  }

  lemma {:induction false} ReplaceIds(t: Tree, item: Item, path: seq<Crumb>)
    requires t.Node? && Distinct(Plug(t, path))
    ensures t.item.id in Ids(Plug(t, path))
    ensures Ids(Plug(t.(item := item), path)) == Ids(Plug(t, path)) - {t.item.id} + {item.id}
  {
    PlugIds(t, path);
    PlugIds(t.(item := item), path);
    PlugDistinct(t, path);
  }

  lemma {:induction false} CrumbInside(path: seq<Crumb>, i: nat)
    requires i < |path|
    ensures path[i].item.id in PathIds(path)
    decreases |path|
  {
    if i > 0 { CrumbInside(path[1..], i - 1); }
  }

  /** The successor's parent is the removed node only if it is its right child. */
  lemma {:induction false} InnerTop(h: Memory, root: nat, s: Tree, inner: seq<Crumb>, c: Crumb, outer: seq<Crumb>)
    requires Rep(h, root, Plug(s, inner + [c] + outer)) && s.Node?
    ensures Top(inner + [c] + outer) == c.item.id <==> inner == []
    ensures s.item.id != c.item.id && s.item.id in Ids(Plug(s, inner + [c] + outer))
  {
    var path := inner + [c] + outer;
    RepParts(h, root, s, path);
    PlugIds(s, path);
    CrumbInside(path, |inner|);
    if inner != [] { CrumbInside(path[1..], |inner| - 1); }
  }
}
