/** Red-black trees as values, with the position of a node inside its tree made
    explicit: a subtree and the path of crumbs from it to the root, which is what
    the parent links of inc/sys/tree.h record. The two mirror images of every case
    in the source are one case here, with a side as parameter. */
module RbShape {

  datatype Color = Red | Black
  datatype Side = L | R
  datatype Item = Item(id: nat, key: nat)

  datatype Tree =
    | Leaf
    | Node(color: Color, left: Tree, item: Item, right: Tree)

  /** The node above, the side the subtree hangs on, and what hangs on the other. */
  datatype Crumb = Crumb(side: Side, color: Color, item: Item, sib: Tree)

  function Other(d: Side): Side { if d == L then R else L }

  predicate IsRed(t: Tree) { t.Node? && t.color == Red }

  function RootId(t: Tree): nat { if t.Leaf? then 0 else t.item.id }

  function Kid(t: Tree, d: Side): Tree
    requires t.Node?
  {
    if d == L then t.left else t.right
  }

  /** A node with `near` on side `d` and `far` on the other. */
  function Make(d: Side, color: Color, item: Item, near: Tree, far: Tree): Tree {
    if d == L then Node(color, near, item, far) else Node(color, far, item, near)
  }

  function Join(c: Crumb, t: Tree): Tree { Make(c.side, c.color, c.item, t, c.sib) }

  /** The crumb left behind when descending from `t` to side `d`. */
  function CrumbOf(t: Tree, d: Side): Crumb
    requires t.Node?
  {
    Crumb(d, t.color, t.item, Kid(t, Other(d)))
  }

  function Plug(t: Tree, path: seq<Crumb>): Tree
    decreases |path|
  {
    if path == [] then t else Plug(Join(path[0], t), path[1..])
  }

  /** Descending and coming back up is no change. */
  lemma {:induction false} Descend(t: Tree, d: Side, path: seq<Crumb>)
    requires t.Node?
    ensures Plug(Kid(t, d), [CrumbOf(t, d)] + path) == Plug(t, path)
  {
    var p := [CrumbOf(t, d)] + path;
    assert p[1..] == path;
    assert Join(p[0], Kid(t, d)) == t;
  }

  lemma {:induction false} PlugConcat(t: Tree, p: seq<Crumb>, q: seq<Crumb>)
    ensures Plug(t, p + q) == Plug(Plug(t, p), q)
    decreases |p|
  {
    if p == [] {
      assert p + q == q;
    } else {
      assert (p + q)[1..] == p[1..] + q;
      PlugConcat(Join(p[0], t), p[1..], q);
    }
  }

  // ---------------------------------------------------------------- contents

  /** The items in search order. */
  function Order(t: Tree): seq<Item> {
    if t.Leaf? then [] else Order(t.left) + [t.item] + Order(t.right)
  }

  /** The items before and after a position. */
  function Before(path: seq<Crumb>): seq<Item>
    decreases |path|
  {
    if path == [] then []
    else if path[0].side == L then Before(path[1..])
    else Before(path[1..]) + (Order(path[0].sib) + [path[0].item])
  }

  function After(path: seq<Crumb>): seq<Item>
    decreases |path|
  {
    if path == [] then []
    else if path[0].side == R then After(path[1..])
    else ([path[0].item] + Order(path[0].sib)) + After(path[1..])
  }

  lemma {:induction false} OrderPlug(t: Tree, path: seq<Crumb>)
    ensures Order(Plug(t, path)) == Before(path) + Order(t) + After(path)
    decreases |path|
  {
    if path != [] {
      OrderPlug(Join(path[0], t), path[1..]);
    }
  }

  /** Only the order of the subtree in place matters to the order of the whole. */
  lemma {:induction false} OrderKept(t: Tree, u: Tree, path: seq<Crumb>)
    requires Order(t) == Order(u)
    ensures Order(Plug(t, path)) == Order(Plug(u, path))
  {
    OrderPlug(t, path);
    OrderPlug(u, path);
  }

  // ----------------------------------------------------------------- colours

  /** Black nodes down the left spine; the same along every path of a sound tree. */
  function Height(t: Tree): nat {
    if t.Leaf? then 0 else Height(t.left) + (if t.color == Black then 1 else 0)
  }

  /** Equal black height on all paths and no red node with a red child. */
  ghost predicate Sound(t: Tree) {
    t.Node? ==>
      && Sound(t.left) && Sound(t.right) && Height(t.left) == Height(t.right)
      && (t.color == Red ==> !IsRed(t.left) && !IsRed(t.right))
  }

  ghost predicate RedBlack(t: Tree) { Sound(t) && !IsRed(t) }

  function Weight(c: Color): nat { if c == Black then 1 else 0 }

  /** A path that is sound around any subtree of black height `n`, whatever the
      colour of its root: the root of the whole is black and no red crumb has a red
      neighbour above or beside. */
  ghost predicate SoundPath(path: seq<Crumb>, n: nat)
    decreases |path|
  {
    path != [] ==>
      var c := path[0];
      && Sound(c.sib) && Height(c.sib) == n
      && (c.color == Red ==> !IsRed(c.sib) && |path| > 1 && path[1].color == Black)
      && SoundPath(path[1..], n + Weight(c.color))
  }

  /** A red root needs a black node above it. */
  ghost predicate Fits(t: Tree, path: seq<Crumb>) {
    IsRed(t) ==> path != [] && path[0].color == Black
  }

  lemma {:induction false} PlugSound(t: Tree, path: seq<Crumb>)
    requires Sound(t) && SoundPath(path, Height(t)) && Fits(t, path)
    ensures RedBlack(Plug(t, path))
    decreases |path|
  {
    if path != [] { PlugSound(Join(path[0], t), path[1..]); }
  }

  lemma {:induction false} UnplugSound(t: Tree, path: seq<Crumb>)
    requires RedBlack(Plug(t, path))
    ensures Sound(t) && SoundPath(path, Height(t)) && Fits(t, path)
    decreases |path|
  {
    if path != [] { UnplugSound(Join(path[0], t), path[1..]); }
  }

  // -------------------------------------------------------------- rotations

  /** Rotate `t` towards side `d`: its child on the other side comes up. */
  function Rotate(t: Tree, d: Side): (r: Tree)
    requires t.Node? && Kid(t, Other(d)).Node?
    ensures r.Node? && Order(r) == Order(t)
  {
    var up := Kid(t, Other(d));
    var r := Make(d, up.color, up.item,
                  Make(d, t.color, t.item, Kid(t, d), Kid(up, d)), Kid(up, Other(d)));
    RotateOrder(t, d, r);
    r
  }

  lemma {:induction false} RotateOrder(t: Tree, d: Side, r: Tree)
    requires t.Node? && Kid(t, Other(d)).Node?
    requires var up := Kid(t, Other(d));
      r == Make(d, up.color, up.item, Make(d, t.color, t.item, Kid(t, d), Kid(up, d)), Kid(up, Other(d)))
    ensures Order(r) == Order(t)
  {
    if d == L {
      var up := t.right;
      assert Order(r) == Order(t.left) + [t.item] + Order(up.left) + [up.item] + Order(up.right);
    } else {
      var up := t.left;
      assert Order(r) == Order(up.left) + [up.item] + Order(up.right) + [t.item] + Order(t.right);
    }
  }

  // ---------------------------------------------------------------- identity

  function Ids(t: Tree): set<nat> {
    if t.Leaf? then {} else Ids(t.left) + {t.item.id} + Ids(t.right)
  }

  /** Every node is somewhere once, and none is the null pointer. */
  ghost predicate Distinct(t: Tree) {
    t.Node? ==>
      && t.item.id != 0
      && Distinct(t.left) && Distinct(t.right)
      && t.item.id !in Ids(t.left) && t.item.id !in Ids(t.right)
      && Ids(t.left) !! Ids(t.right)
  }

  function PathIds(path: seq<Crumb>): set<nat>
    decreases |path|
  {
    if path == [] then {} else {path[0].item.id} + Ids(path[0].sib) + PathIds(path[1..])
  }

  ghost predicate DistinctPath(path: seq<Crumb>)
    decreases |path|
  {
    path != [] ==>
      && path[0].item.id != 0 && Distinct(path[0].sib)
      && path[0].item.id !in Ids(path[0].sib)
      && ({path[0].item.id} + Ids(path[0].sib)) !! PathIds(path[1..])
      && DistinctPath(path[1..])
  }

  lemma {:induction false} PlugIds(t: Tree, path: seq<Crumb>)
    ensures Ids(Plug(t, path)) == Ids(t) + PathIds(path)
    decreases |path|
  {
    if path != [] { PlugIds(Join(path[0], t), path[1..]); }
  }

  lemma {:induction false} PlugDistinct(t: Tree, path: seq<Crumb>)
    ensures Distinct(Plug(t, path)) <==> Distinct(t) && DistinctPath(path) && Ids(t) !! PathIds(path)
    decreases |path|
  {
    if path != [] { PlugDistinct(Join(path[0], t), path[1..]); }
  }

  lemma {:induction false} NoNull(t: Tree)
    requires Distinct(t)
    ensures 0 !in Ids(t) && (t.Node? ==> RootId(t) in Ids(t))
  {
    if t.Node? {
      NoNull(t.left);
      NoNull(t.right);
    }
  }

  /** The subtrees and the two nodes that a rotation moves are apart. */
  lemma {:induction false} KidsApart(t: Tree, d: Side)
    requires t.Node? && Distinct(t)
    ensures Ids(t) == Ids(Kid(t, d)) + {t.item.id} + Ids(Kid(t, Other(d)))
    ensures Ids(Kid(t, d)) !! Ids(Kid(t, Other(d)))
    ensures t.item.id !in Ids(Kid(t, d)) && t.item.id !in Ids(Kid(t, Other(d)))
    ensures Distinct(Kid(t, d)) && Distinct(Kid(t, Other(d)))
    ensures 0 !in Ids(t)
    ensures Kid(t, d).Node? ==> RootId(Kid(t, d)) in Ids(Kid(t, d))
    ensures Kid(t, Other(d)).Node? ==> RootId(Kid(t, Other(d))) in Ids(Kid(t, Other(d)))
  {
    NoNull(t);
    NoNull(t.left);
    NoNull(t.right);
  }

  lemma {:induction false} IdsOfOrder(t: Tree, id: nat)
    ensures id in Ids(t) <==> exists i :: 0 <= i < |Order(t)| && Order(t)[i].id == id
  {
    if t.Node? {
      IdsOfOrder(t.left, id);
      IdsOfOrder(t.right, id);
      var o, n := Order(t), |Order(t.left)|;
      assert forall i :: 0 <= i < n ==> o[i] == Order(t.left)[i];
      assert o[n] == t.item;
      assert forall i :: 0 <= i < |Order(t.right)| ==> o[n + 1 + i] == Order(t.right)[i];
    }
  }
}
