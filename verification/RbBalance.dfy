/** Why the recolourings and rotations of RB_INSERT_COLOR and RB_REMOVE_COLOR
    (inc/sys/tree.h:405-525) restore a red-black tree, case by case on values. */
module RbBalance {
  import opened Common
  import opened RbShape

  /** Two levels above a subtree: its parent's node and its grandparent's node. */
  function Family(t: Tree, path: seq<Crumb>): Tree
    requires |path| >= 2
  {
    Join(path[1], Join(path[0], t))
  }

  lemma {:induction false} FamilyPlug(t: Tree, path: seq<Crumb>)
    requires |path| >= 2
    ensures Plug(t, path) == Plug(Family(t, path), path[2..])
  {
    assert path[1..][1..] == path[2..];
    assert Plug(t, path) == Plug(Join(path[0], t), path[1..]);
  }

  lemma {:induction false} SameIds(t: Tree, u: Tree)
    requires Order(t) == Order(u)
    ensures Ids(t) == Ids(u)
  {
    forall id ensures id in Ids(t) <==> id in Ids(u) {
      IdsOfOrder(t, id);
      IdsOfOrder(u, id);
    }
  }

  function Blackened(t: Tree): Tree { if t.Node? then t.(color := Black) else t }

  lemma {:induction false} SoundMake(e: Side, c: Color, item: Item, a: Tree, b: Tree)
    ensures Sound(Make(e, c, item, a, b)) <==>
      Sound(a) && Sound(b) && Height(a) == Height(b) && (c == Red ==> !IsRed(a) && !IsRed(b))
    ensures Height(a) == Height(b) ==> Height(Make(e, c, item, a, b)) == Height(a) + Weight(c)
  {
  }

  /** What a path two crumbs long says of both, without recursion. */
  lemma {:induction false} SoundPathTwo(path: seq<Crumb>, n: nat)
    requires SoundPath(path, n) && |path| >= 2
    ensures Sound(path[0].sib) && Height(path[0].sib) == n && Sound(path[1].sib)
    ensures Height(path[1].sib) == n + Weight(path[0].color)
    ensures path[0].color == Red ==> !IsRed(path[0].sib) && path[1].color == Black
    ensures SoundPath(path[2..], n + Weight(path[0].color) + Weight(path[1].color))
  {
    assert SoundPath(path[1..], n + Weight(path[0].color));
    assert path[1..][1..] == path[2..];
  }

  // ------------------------------------------------------- why it is balanced

  function Depth(t: Tree): nat {
    if t.Leaf? then 0 else 1 + if Depth(t.left) >= Depth(t.right) then Depth(t.left) else Depth(t.right)
  }

  /** No search is longer than twice the binary logarithm of the number of items. */
  lemma {:induction false} Shallow(t: Tree)
    requires Sound(t)
    ensures Depth(t) <= 2 * Height(t) + (if IsRed(t) then 1 else 0)
    ensures Pow2(Height(t)) <= |Order(t)| + 1
  {
    if t.Node? {
      Shallow(t.left);
      Shallow(t.right);
    }
  }

  // ------------------------------------------------------------- insertion

  /** What RB_INSERT_COLOR keeps true of the node it looks at: a sound red subtree in
      a sound path. Only the node above may be red too, or missing. */
  ghost predicate Rising(t: Tree, path: seq<Crumb>) {
    IsRed(t) && Sound(t) && SoundPath(path, Height(t))
  }

  /** Red uncle: the grandparent turns red over two black children. */
  function RecolorUp(g: Tree, e: Side): Tree
    requires g.Node?
  {
    Make(e, Red, g.item, Blackened(Kid(g, e)), Blackened(Kid(g, Other(e))))
  }

  lemma {:induction false} RecolorUpRises(t: Tree, path: seq<Crumb>)
    requires Rising(t, path) && path != [] && path[0].color == Red
    ensures |path| >= 2
    ensures IsRed(path[1].sib) ==>
      var g := RecolorUp(Family(t, path), path[1].side);
      Rising(g, path[2..]) && Order(g) == Order(Family(t, path))
  {
    var p, g, e := Join(path[0], t), Family(t, path), path[1].side;
    SoundPathTwo(path, Height(t));
    if IsRed(path[1].sib) {
      SoundMake(path[0].side, Black, path[0].item, t, path[0].sib);
      SoundMake(e, Red, path[1].item, Blackened(p), Blackened(path[1].sib));
      assert Order(Blackened(p)) == Order(p);
    }
  }

  /** An inner child is turned outward first. */
  function Straighten(p: Tree, e: Side): (r: Tree)
    requires p.Node?
    ensures r.Node?
  {
    if IsRed(Kid(p, Other(e))) then Rotate(p, e) else p
  }

  /** Black uncle: the parent, straightened and blackened, comes up over a red
      grandparent. */
  function Settle(g: Tree, e: Side): (r: Tree)
    requires g.Node? && Kid(g, e).Node?
    ensures r.Node?
  {
    Rotate(Make(e, Red, g.item, Blackened(Straighten(Kid(g, e), e)), Kid(g, Other(e))), Other(e))
  }

  lemma {:induction false} MakeOrder(e: Side, c: Color, item: Item, a: Tree, b: Tree, a': Tree, c': Color)
    requires Order(a) == Order(a')
    ensures Order(Make(e, c, item, a, b)) == Order(Make(e, c', item, a', b))
  {
  }

  lemma {:induction false} SettleSound(t: Tree, path: seq<Crumb>)
    requires Rising(t, path) && path != [] && path[0].color == Red && |path| >= 2 && !IsRed(path[1].sib)
    ensures var e := path[1].side; var s := Settle(Family(t, path), e);
      && Sound(s) && s.color == Black && IsRed(Kid(s, e)) && IsRed(Kid(s, Other(e)))
      && SoundPath(path[2..], Height(s))
      && Kid(s, e).item == (if path[0].side == e then t.item else path[0].item)
  {
    var p, u, e := Join(path[0], t), path[1].sib, path[1].side;
    SoundPathTwo(path, Height(t));
    if path[0].side == e {
      SoundMake(e, Red, path[1].item, path[0].sib, u);
      SoundMake(e, Black, path[0].item, t, Make(e, Red, path[1].item, path[0].sib, u));
    } else {
      SoundMake(e, Red, path[0].item, path[0].sib, Kid(t, e));
      SoundMake(e, Red, path[1].item, Kid(t, Other(e)), u);
      SoundMake(e, Black, t.item, Make(e, Red, path[0].item, path[0].sib, Kid(t, e)),
                Make(e, Red, path[1].item, Kid(t, Other(e)), u));
    }
  }

  // --------------------------------------------------------------- removal

  /** What RB_REMOVE_COLOR keeps true of the node it looks at: one black short of
      what its path expects, and sound once blackened. */
  ghost predicate Lacking(t: Tree, path: seq<Crumb>) {
    Sound(Blackened(t)) && SoundPath(path, Height(t) + 1)
  }

  /** Blackening a red node, or reaching the root, makes up for the lack. */
  lemma {:induction false} LackingEnds(t: Tree, path: seq<Crumb>)
    requires Lacking(t, path) && (IsRed(t) || path == [])
    ensures RedBlack(Plug(Blackened(t), path))
  {
    PlugSound(Blackened(t), path);
  }

  /** The sibling of a node that lacks a black is a node. */
  lemma {:induction false} LackingSibling(t: Tree, path: seq<Crumb>)
    requires Lacking(t, path) && path != [] && !IsRed(t)
    ensures path[0].sib.Node? && Sound(path[0].sib) && Height(path[0].sib) == Height(t) + 1 && Sound(t)
    ensures path[0].color == Red ==> !IsRed(path[0].sib)
  {
  }

  /** Red sibling: it comes up black over a red parent. */
  function SiblingUp(path: seq<Crumb>): seq<Crumb>
    requires path != [] && path[0].sib.Node?
  {
    var p := path[0];
    var w := p.sib;
    [Crumb(p.side, Red, p.item, Kid(w, p.side)), Crumb(p.side, Black, w.item, Kid(w, Other(p.side)))] + path[1..]
  }

  lemma {:induction false} SiblingUpLacks(t: Tree, path: seq<Crumb>)
    requires Lacking(t, path) && path != [] && !IsRed(t) && IsRed(path[0].sib)
    ensures Lacking(t, SiblingUp(path)) && !IsRed(SiblingUp(path)[0].sib)
  {
    var p, w, q := path[0], path[0].sib, SiblingUp(path);
    assert q[1..][1..] == path[1..] && q[1..][0] == q[1];
    assert SoundPath(q[1..], Height(t) + 1);
  }

  /** As rotation: the parent, reddened, goes down under the blackened sibling. */
  lemma {:induction false} SiblingUpRotates(t: Tree, path: seq<Crumb>)
    requires path != [] && path[0].sib.Node?
    ensures var p := path[0];
      Plug(t, SiblingUp(path))
      == Plug(Rotate(Make(p.side, Red, p.item, t, Blackened(p.sib)), p.side), path[1..])
  {
    var q := SiblingUp(path);
    assert q[1..][0] == q[1] && q[1..][1..] == path[1..];
    assert Plug(t, q) == Plug(Join(q[0], t), q[1..]);
  }

  /** Black sibling with black children: it turns red and the lack moves up. */
  lemma {:induction false} LackMovesUp(t: Tree, path: seq<Crumb>)
    requires Lacking(t, path) && path != [] && !IsRed(t) && path[0].sib.Node? && path[0].sib.color == Black
    requires !IsRed(path[0].sib.left) && !IsRed(path[0].sib.right)
    ensures Lacking(Join(path[0].(sib := path[0].sib.(color := Red)), t), path[1..])
  {
    var w := path[0].sib.(color := Red);
    SoundMake(path[0].side, Black, path[0].item, t, w);
    SoundMake(path[0].side, path[0].color, path[0].item, t, w);
    assert Height(w) == Height(t);
  }

  /** A red child of the sibling is turned to its outer side. */
  function Outward(w: Tree, e: Side): (r: Tree)
    requires w.Node? && (IsRed(Kid(w, e)) || IsRed(Kid(w, Other(e))))
    ensures r.Node?
  {
    if IsRed(Kid(w, Other(e))) then w
    else Rotate(Make(e, Red, w.item, Blackened(Kid(w, e)), Kid(w, Other(e))), Other(e))
  }

  /** The sibling takes the parent's colour and place between two black nodes. */
  function Refill(p: Crumb, t: Tree): (r: Tree)
    requires p.sib.Node? && (IsRed(p.sib.left) || IsRed(p.sib.right))
    ensures r.Node?
  {
    var e := p.side;
    var w := Outward(p.sib, e);
    Rotate(Make(e, Black, p.item, t, Make(e, p.color, w.item, Kid(w, e), Blackened(Kid(w, Other(e))))), e)
  }

  lemma {:induction false} OutwardSound(w: Tree, e: Side)
    requires Sound(w) && w.Node? && w.color == Black && (IsRed(w.left) || IsRed(w.right))
    ensures var v := Outward(w, e);
      && Sound(v) && v.color == Black && Height(v) == Height(w) && IsRed(Kid(v, Other(e)))
      && Order(v) == Order(w)
  {
    if !IsRed(Kid(w, Other(e))) {
      var n, f := Kid(w, e), Kid(w, Other(e));
      SoundMake(e, Red, w.item, Kid(n, Other(e)), f);
      SoundMake(e, Black, n.item, Kid(n, e), Make(e, Red, w.item, Kid(n, Other(e)), f));
      MakeOrder(e, Red, w.item, Blackened(n), f, n, Black);
      assert w == Make(e, Black, w.item, n, f);
    }
  }

  lemma {:induction false} RefillSound(t: Tree, path: seq<Crumb>)
    requires Lacking(t, path) && path != [] && !IsRed(t) && path[0].sib.Node? && path[0].sib.color == Black
    requires IsRed(path[0].sib.left) || IsRed(path[0].sib.right)
    ensures RedBlack(Plug(Refill(path[0], t), path[1..]))
  {
    hide Outward;
    var p, e := path[0], path[0].side;
    OutwardSound(p.sib, e);
    var w := Outward(p.sib, e);
    var down := Make(e, Black, p.item, t, Kid(w, e));
    SoundMake(e, Black, p.item, t, Kid(w, e));
    SoundMake(e, p.color, w.item, down, Blackened(Kid(w, Other(e))));
    PlugSound(Refill(p, t), path[1..]);
  }
}
