/** Memory that holds a red-black tree: cells linked by left, right and parent
    pointers (inc/sys/tree.h:310-324), pointer 0 being null. `Rep` says that a
    memory and a root pointer hold a given tree; the lemmas say that changing a
    subtree in place, and the one link and root that lead to it, changes the tree
    in that place and nowhere else. */
module RbHeap {
  import opened RbShape

  datatype Cell = Cell(key: nat, color: Color, left: nat, right: nat, parent: nat)

  type Memory = map<nat, Cell>

  function Link(c: Cell, d: Side): nat { if d == L then c.left else c.right }

  function Relink(c: Cell, d: Side, to: nat): Cell {
    if d == L then c.(left := to) else c.(right := to)
  }

  ghost predicate Models(h: Memory, t: Tree, parent: nat) {
    t.Node? ==>
      && t.item.id in h
      && h[t.item.id] == Cell(t.item.key, t.color, RootId(t.left), RootId(t.right), parent)
      && Models(h, t.left, t.item.id) && Models(h, t.right, t.item.id)
  }

  ghost predicate Rep(h: Memory, root: nat, t: Tree) {
    0 !in h && Models(h, t, 0) && root == RootId(t) && Distinct(t)
  }

  /** The node a path hangs from. */
  function Top(path: seq<Crumb>): nat { if path == [] then 0 else path[0].item.id }

  /** The cell of a crumb whose subtree has its root at `at`. */
  function CrumbCell(c: Crumb, at: nat, parent: nat): Cell {
    Relink(Relink(Cell(c.item.key, c.color, 0, 0, parent), c.side, at), Other(c.side), RootId(c.sib))
  }

  /** A path in memory, around a subtree with its root at `at`. */
  ghost predicate ModelsPath(h: Memory, path: seq<Crumb>, at: nat)
    decreases |path|
  {
    path != [] ==>
      var c := path[0];
      && c.item.id in h
      && h[c.item.id] == CrumbCell(c, at, Top(path[1..]))
      && Models(h, c.sib, c.item.id)
      && ModelsPath(h, path[1..], c.item.id)
  }

  /** The root pointer of a whole, given where the root of the part is. */
  function WholeRoot(path: seq<Crumb>, at: nat): nat {
    if path == [] then at else path[|path| - 1].item.id
  }

  lemma {:induction false} PlugModels(h: Memory, t: Tree, path: seq<Crumb>)
    ensures Models(h, Plug(t, path), 0) <==> Models(h, t, Top(path)) && ModelsPath(h, path, RootId(t))
    ensures RootId(Plug(t, path)) == WholeRoot(path, RootId(t))
    decreases |path|
  {
    if path != [] { PlugModels(h, Join(path[0], t), path[1..]); }
  }

  /** Everything `Rep` says about a part, its path and their being apart. */
  lemma {:induction false} RepParts(h: Memory, root: nat, t: Tree, path: seq<Crumb>)
    ensures Rep(h, root, Plug(t, path)) <==>
      && 0 !in h && Models(h, t, Top(path)) && ModelsPath(h, path, RootId(t))
      && root == WholeRoot(path, RootId(t))
      && Distinct(t) && DistinctPath(path) && Ids(t) !! PathIds(path)
  {
    PlugModels(h, t, path);
    PlugDistinct(t, path);
  }

  // ------------------------------------------------------- what stays the same

  lemma {:induction false} SameModels(h: Memory, k: Memory, t: Tree, parent: nat)
    requires Models(h, t, parent)
    requires forall id <- Ids(t) :: id in h && id in k && k[id] == h[id]
    ensures Models(k, t, parent)
  {
    if t.Node? {
      SameModels(h, k, t.left, t.item.id);
      SameModels(h, k, t.right, t.item.id);
    }
  }

  lemma {:induction false} ModelsInside(h: Memory, t: Tree, parent: nat)
    requires Models(h, t, parent)
    ensures forall id <- Ids(t) :: id in h
  {
    if t.Node? {
      ModelsInside(h, t.left, t.item.id);
      ModelsInside(h, t.right, t.item.id);
    }
  }

  /** A subtree whose root has been given another parent. */
  lemma {:induction false} Reparented(h: Memory, k: Memory, t: Tree, parent: nat, to: nat)
    requires Models(h, t, parent) && Distinct(t)
    requires t.Node? ==> t.item.id in h && t.item.id in k && k[t.item.id] == h[t.item.id].(parent := to)
    requires forall id <- Ids(t) :: id != RootId(t) ==> id in h && id in k && k[id] == h[id]
    ensures Models(k, t, to)
  {
    if t.Node? {
      SameModels(h, k, t.left, t.item.id);
      SameModels(h, k, t.right, t.item.id);
    }
  }

  lemma {:induction false} SamePath(h: Memory, k: Memory, path: seq<Crumb>, at: nat)
    requires ModelsPath(h, path, at)
    requires forall id <- PathIds(path) :: id in h && id in k && k[id] == h[id]
    ensures ModelsPath(k, path, at)
    decreases |path|
  {
    if path != [] {
      SameModels(h, k, path[0].sib, path[0].item.id);
      SamePath(h, k, path[1..], path[0].item.id);
    }
  }

  /** A path whose subtree has been given another root. */
  lemma {:induction false} Redirected(h: Memory, k: Memory, path: seq<Crumb>, at: nat, to: nat)
    requires ModelsPath(h, path, at) && DistinctPath(path)
    requires path != [] ==> Top(path) in h && Top(path) in k && k[Top(path)] == Relink(h[Top(path)], path[0].side, to)
    requires forall id <- PathIds(path) :: id != Top(path) ==> id in h && id in k && k[id] == h[id]
    ensures ModelsPath(k, path, to)
  {
    if path != [] {
      SameModels(h, k, path[0].sib, path[0].item.id);
      SamePath(h, k, path[1..], path[0].item.id);
    }
  }

  /** Memory outside a part and the link to it is as it was. */
  ghost predicate Elsewhere(h: Memory, k: Memory, path: seq<Crumb>, to: nat) {
    && (path != [] ==> Top(path) in h && Top(path) in k && k[Top(path)] == Relink(h[Top(path)], path[0].side, to))
    && forall id <- PathIds(path) :: id != Top(path) ==> id in h && id in k && k[id] == h[id]
  }

  /** Surgery: a new subtree in memory where the old one hung. */
  lemma {:induction false} Surgery(h: Memory, root: nat, t: Tree, k: Memory, newRoot: nat, u: Tree, path: seq<Crumb>)
    requires Rep(h, root, Plug(t, path))
    requires Models(k, u, Top(path)) && Distinct(u) && Ids(u) !! PathIds(path)
    requires Elsewhere(h, k, path, RootId(u))
    requires 0 !in k && newRoot == if path == [] then RootId(u) else root
    ensures Rep(k, newRoot, Plug(u, path))
  {
    RepParts(h, root, t, path);
    Redirected(h, k, path, RootId(t), RootId(u));
    RepParts(k, newRoot, u, path);
  }

  lemma {:induction false} PathInside(h: Memory, path: seq<Crumb>, at: nat)
    requires ModelsPath(h, path, at)
    ensures forall id <- PathIds(path) :: id in h
    decreases |path|
  {
    if path != [] {
      ModelsInside(h, path[0].sib, path[0].item.id);
      PathInside(h, path[1..], path[0].item.id);
    }
  }

  /** The link from a path to the subtree that hangs from it. */
  lemma {:induction false} TopCell(h: Memory, root: nat, t: Tree, path: seq<Crumb>)
    requires Rep(h, root, Plug(t, path)) && t.Node?
    ensures t.item.id in h && t.item.id != 0 && h[t.item.id].parent == Top(path) && Top(path) != t.item.id
    ensures h[t.item.id].key == t.item.key && h[t.item.id].color == t.color
    ensures h[t.item.id].left == RootId(t.left) && h[t.item.id].right == RootId(t.right)
    ensures (path == []) == (Top(path) == 0)
    ensures path == [] ==> root == t.item.id
    ensures path != [] ==>
      && Top(path) in h && Top(path) !in Ids(t)
      && Link(h[Top(path)], path[0].side) == t.item.id
      && Link(h[Top(path)], Other(path[0].side)) != t.item.id
      && h[Top(path)].color == path[0].color
      && h[Top(path)].parent == Top(path[1..])
  {
    RepParts(h, root, t, path);
    if path != [] { NoNull(path[0].sib); }
  }
}
