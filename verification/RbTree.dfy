/** The red-black tree of inc/sys/tree.h, pointer by pointer.

    `RbHead` is the head with the memory its nodes live in. The methods follow the
    RB_ macros statement by statement; ghost arguments name the subtree and path a
    pointer stands for. */
module RbTree {
  import opened RbShape
  import opened RbHeap
  import opened RbBalance
  import opened RbCells
  import opened RbSearch

  // ------------------------------------------------------------- the machine

  class RbHead {
    var mem: Memory
    var root: nat
    ghost var tree: Tree

    method SetColor(id: nat, color: Color, ghost t: Tree, ghost path: seq<Crumb>)
      requires Rep(mem, root, Plug(t, path)) && t.Node? && t.item.id == id
      modifies this`mem
      ensures Rep(mem, root, Plug(t.(color := color), path))
      ensures Outside(old(mem), mem, Ids(Plug(t, path)))
      ensures Reshaped(Plug(t, path), Plug(t.(color := color), path))
    {
      RepParts(mem, root, t, path);
      mem := mem[id := mem[id].(color := color)];
      Recolored(old(mem), root, t, color, mem, path);
      ReshapedIn(t, t.(color := color), path);
    }

    method SetKidColor(id: nat, color: Color, d: Side, ghost t: Tree, ghost path: seq<Crumb>)
      requires Rep(mem, root, Plug(t, path)) && t.Node? && Kid(t, d).Node? && Kid(t, d).item.id == id
      modifies this`mem
      ensures Rep(mem, root, Plug(WithKid(t, d, Kid(t, d).(color := color)), path))
      ensures Outside(old(mem), mem, Ids(Plug(t, path)))
      ensures Reshaped(Plug(t, path), Plug(WithKid(t, d, Kid(t, d).(color := color)), path))
    {
      hide Rep, Plug, Reshaped, Outside;
      Descend(t, d, path);
      KidPlug(t, d, Kid(t, d).(color := color), path);
      SetColor(id, color, Kid(t, d), [CrumbOf(t, d)] + path);
    }

    /** RB_ROTATE_LEFT for side L, RB_ROTATE_RIGHT for side R. */
    method RotateAt(elm: nat, d: Side, ghost t: Tree, ghost path: seq<Crumb>)
      requires Rep(mem, root, Plug(t, path)) && t.Node? && t.item.id == elm && Kid(t, Other(d)).Node?
      modifies this`mem, this`root
      ensures Rep(mem, root, Plug(Rotate(t, d), path))
      ensures Outside(old(mem), mem, Ids(Plug(t, path)))
      ensures Reshaped(Plug(t, path), Plug(Rotate(t, d), path))
    {
      RotatePointers(elm, d, t, path);
      Rotated(old(mem), old(root), t, d, mem, root, path);
      ReshapedIn(t, Rotate(t, d), path);
    }

    method RotateKid(elm: nat, d: Side, e: Side, ghost t: Tree, ghost path: seq<Crumb>)
      requires Rep(mem, root, Plug(t, path)) && t.Node? && Kid(t, e).Node? && Kid(t, e).item.id == elm
      requires Kid(Kid(t, e), Other(d)).Node?
      modifies this`mem, this`root
      ensures Rep(mem, root, Plug(WithKid(t, e, Rotate(Kid(t, e), d)), path))
      ensures Outside(old(mem), mem, Ids(Plug(t, path)))
      ensures Reshaped(Plug(t, path), Plug(WithKid(t, e, Rotate(Kid(t, e), d)), path))
    {
      hide Rep, Plug, Reshaped, Outside, Rotate;
      Descend(t, e, path);
      KidPlug(t, e, Rotate(Kid(t, e), d), path);
      RotateAt(elm, d, Kid(t, e), [CrumbOf(t, e)] + path);
    }

    method RotatePointers(elm: nat, d: Side, ghost t: Tree, ghost path: seq<Crumb>)
      requires Rep(mem, root, Plug(t, path)) && t.Node? && t.item.id == elm && Kid(t, Other(d)).Node?
      modifies this`mem, this`root
      ensures RotatedCells(old(mem), mem, t, d, path)
      ensures root == if path == [] then Kid(t, Other(d)).item.id else old(root)
    {
      hide Models, Plug, Ids, Distinct, Rep, RootId, Kid, Top;
      RotationCells(mem, root, t, d, path);
      TopCell(mem, root, t, path);
      var h := mem;
      var tmp := Link(h[elm], Other(d));
      var inner := Link(h[tmp], d);
      h := h[elm := Relink(h[elm], Other(d), inner)];
      if inner != 0 { h := h[inner := h[inner].(parent := elm)]; }
      var parent := h[elm].parent;
      h := h[tmp := h[tmp].(parent := parent)];
      if parent != 0 {
        if elm == h[parent].left {
          h := h[parent := h[parent].(left := tmp)];
        } else {
          h := h[parent := h[parent].(right := tmp)];
        }
      } else {
        root := tmp;
      }
      h := h[tmp := Relink(h[tmp], d, elm)];
      h := h[elm := h[elm].(parent := tmp)];
      mem := h;
    }

    // ------------------------------------------------------------ insertion

    /** Red uncle. */
    method RecolorFamily(g: nat, p: nat, u: nat, e: Side, ghost t: Tree, ghost path: seq<Crumb>)
      requires Rep(mem, root, Plug(t, path)) && t.Node? && t.item.id == g
      requires Kid(t, e).Node? && Kid(t, e).item.id == p
      requires Kid(t, Other(e)).Node? && Kid(t, Other(e)).item.id == u
      modifies this`mem
      ensures Rep(mem, root, Plug(RecolorUp(t, e), path))
      ensures Outside(old(mem), mem, Ids(Plug(t, path)))
      ensures Reshaped(Plug(t, path), Plug(RecolorUp(t, e), path))
    {
      hide Rep, Plug;
      SetKidColor(u, Black, Other(e), t, path);
      ghost var t1 := WithKid(t, Other(e), Kid(t, Other(e)).(color := Black));
      SetKidColor(p, Black, e, t1, path);
      ghost var t2 := WithKid(t1, e, Kid(t1, e).(color := Black));
      SetColor(g, Red, t2, path);
      assert t2.(color := Red) == RecolorUp(t, e);
    }

    /** Black uncle; `inner` says whether the node hangs on the inner side. */
    method SettleFamily(g: nat, p: nat, inner: nat, e: Side, ghost t: Tree, ghost path: seq<Crumb>)
      requires Rep(mem, root, Plug(t, path)) && t.Node? && t.item.id == g
      requires Kid(t, e).Node? && Kid(t, e).item.id == p
      requires (inner != 0) == IsRed(Kid(Kid(t, e), Other(e)))
      requires inner != 0 ==> inner == Kid(Kid(t, e), Other(e)).item.id
      modifies this`mem, this`root
      ensures Rep(mem, root, Plug(Settle(t, e), path))
      ensures Outside(old(mem), mem, Ids(Plug(t, path)))
      ensures Reshaped(Plug(t, path), Plug(Settle(t, e), path))
    {
      hide Rep, Plug;
      ghost var t1 := t;
      var parent := p;
      if inner != 0 {
        RotateKid(p, e, e, t, path);
        t1 := WithKid(t, e, Rotate(Kid(t, e), e));
        parent := inner;
      }
      assert Kid(t1, e) == Straighten(Kid(t, e), e);
      SetKidColor(parent, Black, e, t1, path);
      ghost var t2 := WithKid(t1, e, Kid(t1, e).(color := Black));
      SetColor(g, Red, t2, path);
      RotateAt(g, Other(e), t2.(color := Red), path);
      assert Rotate(t2.(color := Red), Other(e)) == Settle(t, e);
    }

    /** One round of RB_INSERT_COLOR at a red node under a red parent. */
    method Rise(elm: nat, parent: nat, ghost t: Tree, ghost path: seq<Crumb>)
        returns (next: nat, ghost t': Tree, ghost path': seq<Crumb>)
      requires Rep(mem, root, Plug(t, path)) && Rising(t, path) && t.item.id == elm
      requires path != [] && path[0].color == Red && parent == Top(path)
      modifies this`mem, this`root
      ensures Rep(mem, root, Plug(t', path')) && Rising(t', path') && t'.item.id == next && |path'| < |path|
      ensures Outside(old(mem), mem, Ids(Plug(t, path)))
      ensures Reshaped(Plug(t, path), Plug(t', path'))
    {
      hide Rep, Models, Order, Ids, Rotate, Sound, SoundPath;
      RecolorUpRises(t, path);
      FamilyPlug(t, path);
      TopCell(mem, root, t, path);
      FamilyCells(mem, root, t, path);
      ghost var g, rest := Family(t, path), path[2..];
      var gparent := mem[parent].parent;
      var e := if parent == mem[gparent].left then L else R;
      var tmp := Link(mem[gparent], Other(e));
      if tmp != 0 && mem[tmp].color == Red {
        RecolorFamily(gparent, parent, tmp, e, g, rest);
        return gparent, RecolorUp(g, e), rest;
      }
      var inner := if Link(mem[parent], Other(e)) == elm then elm else 0;
      InnerIsRed(t, path);
      SettleFamily(gparent, parent, inner, e, g, rest);
      SettleSound(t, path);
      ghost var s := Settle(g, e);
      SettledRises(s, e, rest);
      return if inner != 0 then parent else elm, Kid(s, e), [CrumbOf(s, e)] + rest;
    }

    method InsertColor(elm: nat, ghost t0: Tree, ghost path0: seq<Crumb>) returns (ghost whole: Tree)
      requires Rep(mem, root, Plug(t0, path0)) && Rising(t0, path0) && t0.item.id == elm
      modifies this`mem, this`root
      ensures Rep(mem, root, whole) && RedBlack(whole)
      ensures Outside(old(mem), mem, Ids(Plug(t0, path0)))
      ensures Reshaped(Plug(t0, path0), whole)
    {
      hide Rep, Models, Order, Ids, Sound, SoundPath;
      var x := elm;
      ghost var t, path := t0, path0;
      TopCell(mem, root, t, path);
      var parent := mem[x].parent;
      while parent != 0 && mem[parent].color == Red
        invariant Rep(mem, root, Plug(t, path)) && Rising(t, path) && t.item.id == x
        invariant parent == Top(path) && (path == [] <==> parent == 0)
        invariant path != [] ==> parent in mem && mem[parent].color == path[0].color
        invariant Outside(old(mem), mem, Ids(Plug(t0, path0)))
        invariant Reshaped(Plug(t0, path0), Plug(t, path))
        decreases |path|
      {
        x, t, path := Rise(x, parent, t, path);
        TopCell(mem, root, t, path);
        parent := mem[x].parent;
      }
      whole := Plug(t, path);
      RisenRoot(t, path);
      TopCell(mem, root, whole, []);
      SetColor(root, Black, whole, []);
      whole := whole.(color := Black);
    }

    // -------------------------------------------------------------- removal

    /** Red sibling `w`: it comes up. */
    method RaiseSibling(parent: nat, w: nat, e: Side, ghost t: Tree, ghost path: seq<Crumb>)
      requires Rep(mem, root, Plug(t, path)) && path != [] && path[0].sib.Node? && path[0].side == e
      requires path[0].item.id == parent && path[0].sib.item.id == w
      modifies this`mem, this`root
      ensures Rep(mem, root, Plug(t, SiblingUp(path)))
      ensures Outside(old(mem), mem, Ids(Plug(t, path)))
      ensures Reshaped(Plug(t, path), Plug(t, SiblingUp(path)))
    {
      ghost var p, rest := Join(path[0], t), path[1..];
      assert Plug(t, path) == Plug(p, rest);
      hide Rep, Plug, Rotate;
      SiblingUpRotates(t, path);
      SetKidColor(w, Black, Other(e), p, rest);
      ghost var p1 := WithKid(p, Other(e), Kid(p, Other(e)).(color := Black));
      SetColor(parent, Red, p1, rest);
      RotateAt(parent, e, p1.(color := Red), rest);
    }

    /** Turns a red child of the black sibling `w` to the outer side. */
    method TurnOutward(w: nat, e: Side, ghost t: Tree, ghost path: seq<Crumb>) returns (top: nat)
      requires Rep(mem, root, Plug(t, path)) && t.Node? && t.item.id == w
      requires IsRed(Kid(t, e)) || IsRed(Kid(t, Other(e)))
      modifies this`mem, this`root
      ensures Rep(mem, root, Plug(Outward(t, e), path)) && top == Outward(t, e).item.id
      ensures Outside(old(mem), mem, Ids(Plug(t, path)))
      ensures Reshaped(Plug(t, path), Plug(Outward(t, e), path))
    {
      hide Rep, Plug;
      KidCell(mem, root, t, e, path);
      KidCell(mem, root, t, Other(e), path);
      var far := Link(mem[w], Other(e));
      if far == 0 || mem[far].color == Black {
        var near := Link(mem[w], e);
        SetKidColor(near, Black, e, t, path);
        ghost var t1 := WithKid(t, e, Kid(t, e).(color := Black));
        SetColor(w, Red, t1, path);
        RotateAt(w, Other(e), t1.(color := Red), path);
        top := near;
      } else {
        top := w;
      }
    }

    /** The last step: the sibling, turned outward, takes the parent's place. */
    method FillIn(parent: nat, w: nat, e: Side, ghost t: Tree, ghost path: seq<Crumb>)
      requires Rep(mem, root, Plug(t, path)) && path != [] && path[0].side == e && path[0].item.id == parent
      requires path[0].sib.Node? && path[0].sib.item.id == w
      requires IsRed(path[0].sib.left) || IsRed(path[0].sib.right)
      modifies this`mem, this`root
      ensures Rep(mem, root, Plug(Refill(path[0], t), path[1..]))
      ensures Outside(old(mem), mem, Ids(Plug(t, path)))
      ensures Reshaped(Plug(t, path), Plug(Refill(path[0], t), path[1..]))
    {
      ghost var p, rest := Join(path[0], t), path[1..];
      assert Plug(t, path) == Plug(p, rest);
      hide Rep, Plug, Rotate, Outward;
      Descend(p, Other(e), rest);
      ghost var v := Outward(path[0].sib, e);
      KidPlug(p, Other(e), v, rest);
      var tmp := TurnOutward(w, e, path[0].sib, [CrumbOf(p, Other(e))] + rest);
      ghost var p1 := WithKid(p, Other(e), v);
      FillRecolor(parent, tmp, e, p1, rest);
      ghost var v2 := Make(e, p1.color, v.item, Kid(v, e), Blackened(Kid(v, Other(e))));
      RotateAt(parent, e, Make(e, Black, p1.item, Kid(p1, e), v2), rest);
    }

    /** Its recolouring: parent's colour on top, black below on both sides. */
    method FillRecolor(parent: nat, tmp: nat, e: Side, ghost p: Tree, ghost path: seq<Crumb>)
      requires Rep(mem, root, Plug(p, path)) && p.Node? && p.item.id == parent
      requires Kid(p, Other(e)).Node? && Kid(p, Other(e)).item.id == tmp
      modifies this`mem
      ensures var v := Kid(p, Other(e));
        var q := Make(e, Black, p.item, Kid(p, e), Make(e, p.color, v.item, Kid(v, e), Blackened(Kid(v, Other(e)))));
        Rep(mem, root, Plug(q, path)) && Reshaped(Plug(p, path), Plug(q, path))
      ensures Outside(old(mem), mem, Ids(Plug(p, path)))
    {
      hide Rep, Plug;
      TopCell(mem, root, p, path);
      SetKidColor(tmp, mem[parent].color, Other(e), p, path);
      ghost var v := Kid(p, Other(e)).(color := p.color);
      ghost var p1 := WithKid(p, Other(e), v);
      SetColor(parent, Black, p1, path);
      ghost var p2 := p1.(color := Black);
      Descend(p2, Other(e), path);
      KidPlug(p2, Other(e), WithKid(v, Other(e), Blackened(Kid(v, Other(e)))), path);
      ghost var pv := [CrumbOf(p2, Other(e))] + path;
      KidCell(mem, root, v, Other(e), pv);
      if Link(mem[tmp], Other(e)) != 0 {
        SetKidColor(Link(mem[tmp], Other(e)), Black, Other(e), v, pv);
      } else {
        assert WithKid(v, Other(e), Blackened(Kid(v, Other(e)))) == v;
      }
    }

    /** Black, or nothing at all. */
    predicate LooksBlack(id: nat)
      requires id != 0 ==> id in mem
      reads this`mem
    {
      id == 0 || mem[id].color == Black
    }

    /** One round of RB_REMOVE_COLOR at a black node that is not the root; `done` is
        the source's `break`. */
    method Sink(elm: nat, parent: nat, ghost t: Tree, ghost path: seq<Crumb>)
        returns (done: bool, next: nat, above: nat, ghost t': Tree, ghost path': seq<Crumb>)
      requires Rep(mem, root, Plug(t, path)) && Lacking(t, path) && !IsRed(t) && path != []
      requires elm == RootId(t) && parent == Top(path)
      modifies this`mem, this`root
      ensures Rep(mem, root, Plug(t', path')) && Reshaped(Plug(t, path), Plug(t', path'))
      ensures Outside(old(mem), mem, Ids(Plug(t, path)))
      ensures done ==> RedBlack(Plug(t', path'))
      ensures !done ==> Lacking(t', path') && next == RootId(t') && above == Top(path')
      ensures !done ==> IsRed(t') || |path'| < |path|
    {
      hide Rep, Order, Ids, Sound, SoundPath, Refill;
      ghost var p := path;
      LackingSibling(t, p);
      PathCell(mem, root, t, p);
      var e := if mem[parent].left == elm then L else R;
      var tmp := Link(mem[parent], Other(e));
      if mem[tmp].color == Red {
        RaiseSibling(parent, tmp, e, t, p);
        SiblingUpLacks(t, p);
        p := SiblingUp(p);
        LackingSibling(t, p);
        PathCell(mem, root, t, p);
        tmp := Link(mem[parent], Other(e));
      }
      ghost var w, up, rest := p[0].sib, Join(p[0], t), p[1..];
      assert Plug(t, p) == Plug(up, rest);
      SiblingKids(mem, root, t, p);
      if LooksBlack(mem[tmp].left) && LooksBlack(mem[tmp].right) {
        LackMovesUp(t, p);
        SetKidColor(tmp, Red, Other(e), up, rest);
        done, next, t', path' := false, parent, WithKid(up, Other(e), w.(color := Red)), rest;
        TopCell(mem, root, t', path');
        above := mem[parent].parent;
        return;
      }
      FillIn(parent, tmp, e, t, p);
      RefillSound(t, p);
      return true, root, 0, Refill(p[0], t), rest;
    }

    method RemoveColor(parent0: nat, elm0: nat, ghost t0: Tree, ghost path0: seq<Crumb>) returns (ghost whole: Tree)
      requires Rep(mem, root, Plug(t0, path0)) && Lacking(t0, path0)
      requires elm0 == RootId(t0) && parent0 == Top(path0)
      modifies this`mem, this`root
      ensures Rep(mem, root, whole) && RedBlack(whole)
      ensures Outside(old(mem), mem, Ids(Plug(t0, path0)))
      ensures Reshaped(Plug(t0, path0), whole)
    {
      hide Rep, Order, Ids, Sound, SoundPath, Lacking;
      var elm, parent := elm0, parent0;
      ghost var t, path := t0, path0;
      var done := false;
      PositionCell(mem, root, t, path);
      while !done && LooksBlack(elm) && elm != root
        invariant Rep(mem, root, Plug(t, path)) && Reshaped(Plug(t0, path0), Plug(t, path))
        invariant Outside(old(mem), mem, Ids(Plug(t0, path0)))
        invariant done ==> RedBlack(Plug(t, path)) && elm == root
        invariant !done ==> Lacking(t, path) && elm == RootId(t) && parent == Top(path)
        invariant elm != 0 ==> elm in mem
        invariant !done ==> (LooksBlack(elm) <==> !IsRed(t)) && (elm == root <==> path == [])
        decreases !done, if IsRed(t) then 0 else |path|
      {
        done, elm, parent, t, path := Sink(elm, parent, t, path);
        PositionCell(mem, root, t, path);
        if done { elm := root; }
      }
      if done {
        t, path := Plug(t, path), [];
        PositionCell(mem, root, t, path);
      } else {
        LackingEnds(t, path);
      }
      if elm != 0 { SetColor(elm, Black, t, path); }
      whole := Plug(Blackened(t), path);
    }

    // ------------------------------------------------------ public operations

    ghost predicate Valid()
      reads this
    {
      Rep(mem, root, tree) && RedBlack(tree) && Ascending(Order(tree))
    }

    /** The map from keys to nodes that the tree stands for. */
    ghost function Index(): map<nat, nat>
      reads this
    {
      MapOf(Order(tree))
    }

    constructor (memory: Memory)
      requires 0 !in memory
      ensures Valid() && Index() == map[] && mem == memory && Ids(tree) == {}
    {
      mem, root, tree := memory, 0, Leaf;
    }

    /** RB_FIND. */
    method Find(key: nat) returns (node: nat)
      requires Valid()
      ensures node != 0 <==> key in Index()
      ensures node != 0 ==> node == Index()[key]
    {
      hide Rep, Order, MapOf, Ascending;
      var tmp := root;
      ghost var t, path := tree, [];
      PositionCell(mem, root, t, path);
      while tmp != 0
        invariant Plug(t, path) == tree && Between(path, key) && tmp == RootId(t) && (tmp == 0 <==> t.Leaf?)
        decreases t
      {
        TopCell(mem, root, t, path);
        if key < mem[tmp].key {
          tmp := mem[tmp].left;
          StepDown(t, L, path, key);
          t, path := t.left, [CrumbOf(t, L)] + path;
        } else if key > mem[tmp].key {
          tmp := mem[tmp].right;
          StepDown(t, R, path, key);
          t, path := t.right, [CrumbOf(t, R)] + path;
        } else {
          Found(t, path);
          return tmp;
        }
        PositionCell(mem, root, t, path);
      }
      NotFound(path, key);
      return 0;
    }

    /** The descent of RB_INSERT: the node with the key, or where it belongs. */
    method Descent(key: nat) returns (found: nat, parent: nat, comp: int, ghost path: seq<Crumb>)
      requires Valid()
      ensures found != 0 ==> key in Index() && found == Index()[key]
      ensures found == 0 ==> Plug(Leaf, path) == tree && Between(path, key) && parent == Top(path)
      ensures found == 0 && path != [] ==> (comp < 0 <==> path[0].side == L)
    {
      hide Rep, Order, MapOf, Ascending;
      var tmp := root;
      parent, comp := 0, 0;
      ghost var t := tree;
      path := [];
      PositionCell(mem, root, t, path);
      while tmp != 0
        invariant Plug(t, path) == tree && Between(path, key) && tmp == RootId(t) && (tmp == 0 <==> t.Leaf?)
        invariant parent == Top(path) && (path != [] ==> (comp < 0 <==> path[0].side == L))
        decreases t
      {
        parent := tmp;
        TopCell(mem, root, t, path);
        comp := if key < mem[parent].key then -1 else if key > mem[parent].key then 1 else 0;
        if comp < 0 {
          tmp := mem[tmp].left;
          StepDown(t, L, path, key);
          t, path := t.left, [CrumbOf(t, L)] + path;
        } else if comp > 0 {
          tmp := mem[tmp].right;
          StepDown(t, R, path, key);
          t, path := t.right, [CrumbOf(t, R)] + path;
        } else {
          Found(t, path);
          return tmp, parent, comp, path;
        }
        PositionCell(mem, root, t, path);
      }
      found := 0;
    }

    /** RB_SET and the link from the parent. */
    method Attach(elm: nat, parent: nat, comp: int, ghost path: seq<Crumb>)
      requires Rep(mem, root, Plug(Leaf, path)) && elm in mem && elm !in Ids(Plug(Leaf, path))
      requires parent == Top(path) && (path != [] ==> (comp < 0 <==> path[0].side == L))
      modifies this`mem, this`root
      ensures Rep(mem, root, Plug(Node(Red, Leaf, Item(elm, old(mem)[elm].key), Leaf), path))
      ensures Outside(old(mem), mem, Ids(Plug(Leaf, path)) + {elm})
    {
      RepParts(mem, root, Leaf, path);
      PathInside(mem, path, 0);
      PlugIds(Leaf, path);
      var h := mem;
      h := h[elm := Cell(h[elm].key, Red, 0, 0, parent)];
      if parent != 0 {
        if comp < 0 {
          h := h[parent := h[parent].(left := elm)];
        } else {
          h := h[parent := h[parent].(right := elm)];
        }
      } else {
        root := elm;
      }
      mem := h;
      Attached(old(mem), old(root), Item(elm, old(mem)[elm].key), mem, root, path);
    }

    /** RB_INSERT: returns the node that already has the key, and then nothing changes. */
    method Insert(elm: nat) returns (existing: nat)
      requires Valid() && elm in mem && elm !in Ids(tree)
      modifies this
      ensures Valid()
      ensures existing != 0 <==> old(mem)[elm].key in old(Index())
      ensures existing != 0 ==> existing == old(Index())[old(mem)[elm].key]
      ensures existing != 0 ==> mem == old(mem) && root == old(root) && tree == old(tree)
      ensures existing == 0 ==> Index() == old(Index())[old(mem)[elm].key := elm]
      ensures existing == 0 ==> Ids(tree) == old(Ids(tree)) + {elm} && Outside(old(mem), mem, Ids(tree))
    {
      hide Models, Order, MapOf, Ascending, Ids, Sound, Plug;
      var key := mem[elm].key;
      var parent, comp;
      ghost var path;
      existing, parent, comp, path := Descent(key);
      if existing != 0 {
        FoundIsNode(mem, root, tree, key);
        return;
      }
      Attach(elm, parent, comp, path);
      ghost var x := Node(Red, Leaf, Item(elm, key), Leaf);
      Planted(tree, x.item, path);
      ghost var whole := InsertColor(elm, x, path);
      tree := whole;
    }

    /** The unlinking of RB_REMOVE: `child` takes the place of `elm`. */
    method Splice(elm: nat, child: nat, parent: nat, d: Side, ghost t: Tree, ghost path: seq<Crumb>)
      requires Rep(mem, root, Plug(t, path)) && t.Node? && t.item.id == elm && Kid(t, d).Leaf?
      requires child == RootId(Kid(t, Other(d))) && parent == Top(path)
      modifies this`mem, this`root
      ensures Rep(mem, root, Plug(Kid(t, Other(d)), path))
      ensures Outside(old(mem), mem, Ids(Plug(t, path)) - {elm})
    {
      SplicePointers(elm, child, parent, d, t, path);
      Spliced(old(mem), old(root), t, d, mem, root, path);
    }

    method SplicePointers(elm: nat, child: nat, parent: nat, d: Side, ghost t: Tree, ghost path: seq<Crumb>)
      requires Rep(mem, root, Plug(t, path)) && t.Node? && t.item.id == elm && Kid(t, d).Leaf?
      requires child == RootId(Kid(t, Other(d))) && parent == Top(path)
      modifies this`mem, this`root
      ensures SplicedCells(old(mem), mem, child, path)
      ensures root == if path == [] then child else old(root)
    {
      hide Models, Plug, Ids, Distinct, Rep;
      SpliceCells(mem, root, t, d, path);
      TopCell(mem, root, t, path);
      var h := mem;
      if child != 0 { h := h[child := h[child].(parent := parent)]; }
      if parent != 0 {
        if h[parent].left == elm {
          h := h[parent := h[parent].(left := child)];
        } else {
          h := h[parent := h[parent].(right := child)];
        }
      } else {
        root := child;
      }
      mem := h;
    }

    /** RB_REMOVE's second half for a node with two children: its successor `elm`,
        already unlinked, takes over the links and the colour of `gone`. */
    method Replace(gone: nat, elm: nat, ghost t: Tree, ghost path: seq<Crumb>)
      requires Rep(mem, root, Plug(t, path)) && t.Node? && t.item.id == gone && t.left.Node?
      requires elm in mem && elm !in Ids(Plug(t, path))
      modifies this`mem, this`root
      ensures Rep(mem, root, Plug(t.(item := Item(elm, old(mem)[elm].key)), path))
      ensures Outside(old(mem), mem, Ids(Plug(t, path)) + {elm})
    {
      ReplacePointers(gone, elm, t, path);
      Replaced(old(mem), old(root), t, Item(elm, old(mem)[elm].key), mem, root, path);
    }

    method ReplacePointers(gone: nat, elm: nat, ghost t: Tree, ghost path: seq<Crumb>)
      requires Rep(mem, root, Plug(t, path)) && t.Node? && t.item.id == gone && t.left.Node?
      requires elm in mem && elm !in Ids(Plug(t, path))
      modifies this`mem, this`root
      ensures ReplacedCells(old(mem), mem, t, Item(elm, old(mem)[elm].key), path)
      ensures root == if path == [] then elm else old(root)
    {
      hide Plug, Rep, Models, Distinct, Ids, Kid, Top;
      TopCell(mem, root, t, path);
      ReplaceCells(mem, root, t, path);
      var h := mem;
      var cell := h[gone];
      h := h[elm := cell.(key := h[elm].key)];
      if cell.parent != 0 {
        if h[cell.parent].left == gone {
          h := h[cell.parent := h[cell.parent].(left := elm)];
        } else {
          h := h[cell.parent := h[cell.parent].(right := elm)];
        }
      } else {
        root := elm;
      }
      h := h[cell.left := h[cell.left].(parent := elm)];
      if cell.right != 0 { h := h[cell.right := h[cell.right].(parent := elm)]; }
      mem := h;
    }

    /** RB_REMOVE of a node with an empty side. */
    method RemoveSimple(elm: nat, child: nat, d: Side, ghost t: Tree, ghost path: seq<Crumb>)
      requires Valid() && tree == Plug(t, path) && t.Node? && t.item.id == elm
      requires Kid(t, d).Leaf? && child == RootId(Kid(t, Other(d)))
      modifies this
      ensures Valid() && Index() == old(Index()) - {t.item.key}
      ensures Ids(tree) == old(Ids(tree)) - {elm}
      ensures Outside(old(mem), mem, old(Ids(tree)))
    {
      hide Models, Order, MapOf, Ascending, Ids, Sound, SoundPath, Plug, Distinct;
      TopCell(mem, root, t, path);
      var parent, color := mem[elm].parent, mem[elm].color;
      Splice(elm, child, parent, d, t, path);
      ghost var c := Kid(t, Other(d));
      SpliceColors(t, d, path);
      SpliceOrder(t, d, path);
      SpliceIds(t, d, path);
      ghost var whole := Plug(c, path);
      if color == Black {
        whole := RemoveColor(parent, child, c, path);
      }
      TakenOut(t, path, Plug(c, path));
      tree := whole;
    }

    /** RB_REMOVE of a node with two children. */
    method RemoveInner(gone: nat, ghost t: Tree, ghost outer: seq<Crumb>)
      requires Valid() && tree == Plug(t, outer) && t.Node? && t.item.id == gone
      requires t.left.Node? && t.right.Node?
      modifies this
      ensures Valid() && Index() == old(Index()) - {t.item.key}
      ensures Ids(tree) == old(Ids(tree)) - {gone}
      ensures Outside(old(mem), mem, old(Ids(tree)))
    {
      hide Models, Order, MapOf, Ascending, Ids, Sound, SoundPath, Plug, Distinct;
      var elm;
      ghost var s, inner;
      elm, s, inner := Successor(gone, t, outer);
      ghost var c, c' := CrumbOf(t, R), CrumbOf(t, R).(item := s.item);
      ghost var path := inner + [c] + outer;
      TopCell(mem, root, s, path);
      InnerTop(mem, root, s, inner, c, outer);
      var child, parent, color := mem[elm].right, mem[elm].parent, mem[elm].color;
      SpliceColors(s, L, path);
      SpliceIds(s, L, path);
      Splice(elm, child, parent, L, s, path);
      ghost var r := Plug(s.right, inner);
      PlugMiddle(s.right, inner, c, outer);
      PlugMiddle(s.right, inner, c', outer);
      if parent == gone { parent := elm; }
      ReplaceIds(t.(right := r), s.item, outer);
      Replace(gone, elm, t.(right := r), outer);
      SuccessorOrder(t, outer, s, inner);
      ghost var path' := inner + [c'] + outer;
      ghost var whole := Plug(s.right, path');
      ItemChange(inner, c, s.item, outer, Height(s.right) + Weight(s.color));
      if color == Black {
        whole := RemoveColor(parent, child, s.right, path');
      } else {
        PlugSound(s.right, path');
      }
      TakenOut(t, outer, Plug(s.right, path'));
      tree := whole;
    }

    /** The leftmost node to the right of `gone`. */
    method Successor(gone: nat, ghost t: Tree, ghost outer: seq<Crumb>)
        returns (elm: nat, ghost s: Tree, ghost inner: seq<Crumb>)
      requires Rep(mem, root, Plug(t, outer)) && t.Node? && t.item.id == gone && t.right.Node?
      ensures s.Node? && s.left.Leaf? && s.item.id == elm && Plug(s, inner) == t.right && Leftmost(inner)
      ensures Plug(s, inner + [CrumbOf(t, R)] + outer) == Plug(t, outer)
    {
      hide Rep;
      TopCell(mem, root, t, outer);
      elm := mem[gone].right;
      s, inner := t.right, [];
      Descend(t, R, outer);
      ghost var c := CrumbOf(t, R);
      assert [] + [c] + outer == [c] + outer;
      TopCell(mem, root, s, inner + [c] + outer);
      KidCell(mem, root, s, L, inner + [c] + outer);
      while mem[elm].left != 0
        invariant s.Node? && s.item.id == elm && Plug(s, inner) == t.right && Leftmost(inner)
        invariant Plug(s, inner + [c] + outer) == Plug(t, outer)
        invariant elm in mem && mem[elm].left == RootId(s.left) && (s.left.Leaf? <==> RootId(s.left) == 0)
        decreases s
      {
        elm := mem[elm].left;
        Descend(s, L, inner);
        Descend(s, L, inner + [c] + outer);
        assert [CrumbOf(s, L)] + (inner + [c] + outer) == ([CrumbOf(s, L)] + inner) + [c] + outer;
        s, inner := s.left, [CrumbOf(s, L)] + inner;
        TopCell(mem, root, s, inner + [c] + outer);
        KidCell(mem, root, s, L, inner + [c] + outer);
      }
    }

    /** RB_REMOVE. */
    method Remove(elm: nat)
      requires Valid() && elm in Ids(tree)
      modifies this
      ensures Valid()
      ensures elm in old(mem) && Index() == old(Index()) - {old(mem)[elm].key}
      ensures Ids(tree) == old(Ids(tree)) - {elm}
      ensures Outside(old(mem), mem, old(Ids(tree)))
    {
      hide Rep, Order, MapOf, Ascending, Ids, Sound, Plug;
      ghost var t, path := Locate(tree, elm, []);
      PlugNothing(tree);
      TopCell(mem, root, t, path);
      KidCell(mem, root, t, L, path);
      KidCell(mem, root, t, R, path);
      if mem[elm].left == 0 {
        RemoveSimple(elm, mem[elm].right, L, t, path);
      } else if mem[elm].right == 0 {
        RemoveSimple(elm, mem[elm].left, R, t, path);
      } else {
        RemoveInner(elm, t, path);
      }
    }

    /** RB_MIN: the first node in order, if any. */
    method First() returns (node: nat)
      requires Valid()
      ensures node == if Order(tree) == [] then 0 else Order(tree)[0].id
    {
      hide Rep, Ascending, MapOf;
      var tmp := root;
      node := 0;
      ghost var t, path := tree, [];
      PositionCell(mem, root, t, path);
      while tmp != 0
        invariant Plug(t, path) == tree && Leftmost(path) && tmp == RootId(t) && (tmp == 0 <==> t.Leaf?)
        invariant path == [] ==> node == 0
        invariant path != [] ==> node == path[0].item.id
        decreases t
      {
        node := tmp;
        TopCell(mem, root, t, path);
        tmp := mem[tmp].left;
        Descend(t, L, path);
        t, path := t.left, [CrumbOf(t, L)] + path;
        PositionCell(mem, root, t, path);
      }
      OrderPlug(Leaf, path);
      LeftmostBefore(path);
    }

    /** RB_NEXT: the node after the i-th in order, if any. */
    method Next(elm0: nat, ghost i: nat) returns (node: nat)
      requires Valid() && i < |Order(tree)| && elm0 == Order(tree)[i].id
      ensures node == if i + 1 < |Order(tree)| then Order(tree)[i + 1].id else 0
    {
      assert Before([]) == [];
      hide Rep, Ascending, MapOf, Order, Before, After, Plug;
      ghost var t, path := LocateAt(tree, i, []);
      PlugNothing(tree);
      NextInOrder(t, path);
      KidCell(mem, root, t, R, path);
      if mem[elm0].right != 0 {
        ghost var s, inner;
        node, s, inner := Successor(elm0, t, path);
        LeftmostFirst(s, inner);
      } else {
        node := Climb(elm0, t, path);
      }
    }

    method Climb(elm0: nat, ghost t0: Tree, ghost path0: seq<Crumb>) returns (node: nat)
      requires Rep(mem, root, Plug(t0, path0)) && t0.Node? && elm0 == t0.item.id
      ensures node == if After(path0) == [] then 0 else After(path0)[0].id
    {
      hide Rep;
      var elm := elm0;
      ghost var t, path := t0, path0;
      TopCell(mem, root, t, path);
      PathCell(mem, root, t, path);
      if mem[elm].parent != 0 && elm == mem[mem[elm].parent].left {
        elm := mem[elm].parent;
      } else {
        while mem[elm].parent != 0 && elm == mem[mem[elm].parent].right
          invariant Plug(t, path) == Plug(t0, path0) && t.Node? && t.item.id == elm && After(path) == After(path0)
          invariant elm in mem && mem[elm].parent == Top(path) && (Top(path) == 0 <==> path == [])
          invariant path != [] ==> Top(path) in mem && (mem[Top(path)].left == elm <==> path[0].side == L)
          invariant path != [] ==> (mem[Top(path)].right == elm <==> path[0].side == R)
          decreases |path|
        {
          elm := mem[elm].parent;
          t, path := Join(path[0], t), path[1..];
          TopCell(mem, root, t, path);
          PathCell(mem, root, t, path);
        }
        elm := mem[elm].parent;
      }
      node := elm;
    }
  }
}
