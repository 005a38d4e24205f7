/** Search order: where a key lies in a tree, and the map from keys to nodes that
    a tree stands for. */
module RbSearch {
  import opened RbShape

  ghost predicate Ascending(s: seq<Item>) {
    forall i, j :: 0 <= i < j < |s| ==> s[i].key < s[j].key
  }

  ghost predicate Below(s: seq<Item>, key: nat) { forall i :: 0 <= i < |s| ==> s[i].key < key }

  ghost predicate Above(s: seq<Item>, key: nat) { forall i :: 0 <= i < |s| ==> key < s[i].key }

  /** The position can only be where `key` belongs. */
  ghost predicate Between(path: seq<Crumb>, key: nat) { Below(Before(path), key) && Above(After(path), key) }

  /** An ascending sequence around one of its items. */
  lemma {:induction false} AscendingOut(a: seq<Item>, x: Item, b: seq<Item>)
    requires Ascending(a + [x] + b)
    ensures Below(a, x.key) && Above(b, x.key) && Ascending(a + b)
  {
    var s, r := a + [x] + b, a + b;
    assert forall i :: 0 <= i < |a| ==> s[i] == a[i] && s[i] == r[i];
    assert s[|a|] == x;
    forall j | 0 <= j < |b| ensures x.key < b[j].key { assert s[|a| + 1 + j] == b[j]; }
    forall i, j | 0 <= i < j < |r| ensures r[i].key < r[j].key {
      assert r[i] == s[if i < |a| then i else i + 1];
      assert r[j] == s[if j < |a| then j else j + 1];
    }
  }

  lemma {:induction false} AscendingIn(a: seq<Item>, x: Item, b: seq<Item>)
    requires Ascending(a + b) && Below(a, x.key) && Above(b, x.key)
    ensures Ascending(a + [x] + b)
  {
    var s, r := a + [x] + b, a + b;
    forall i, j | 0 <= i < j < |s| ensures s[i].key < s[j].key {
      if i != |a| { assert s[i] == r[if i < |a| then i else i - 1]; }
      if j != |a| { assert s[j] == r[if j < |a| then j else j - 1]; }
      if i == |a| { assert s[j] == b[j - |a| - 1]; }
      if j == |a| { assert s[i] == a[i]; }
    }
  }

  /** The order of a whole around a node. */
  lemma {:induction false} OrderAround(t: Tree, path: seq<Crumb>)
    requires t.Node?
    ensures Order(Plug(t, path)) == (Before(path) + Order(t.left)) + [t.item] + (Order(t.right) + After(path))
  {
    OrderPlug(t, path);
  }

  /** Going down on the side of the key keeps the key's place in view. */
  lemma {:induction false} StepDown(t: Tree, d: Side, path: seq<Crumb>, key: nat)
    requires t.Node? && Ascending(Order(Plug(t, path))) && Between(path, key)
    requires if d == L then key < t.item.key else t.item.key < key
    ensures Between([CrumbOf(t, d)] + path, key)
    ensures Plug(Kid(t, d), [CrumbOf(t, d)] + path) == Plug(t, path)
  {
    Descend(t, d, path);
    OrderAround(t, path);
    AscendingOut(Before(path) + Order(t.left), t.item, Order(t.right) + After(path));
    var p := [CrumbOf(t, d)] + path;
    assert p[1..] == path;
    var s, r := Before(path) + Order(t.left), Order(t.right) + After(path);
    assert forall i :: 0 <= i < |Order(t.left)| ==> s[|Before(path)| + i] == Order(t.left)[i];
    assert forall i :: 0 <= i < |Order(t.right)| ==> r[i] == Order(t.right)[i];
  }

  // ------------------------------------------------------------- as a map

  function MapOf(s: seq<Item>): map<nat, nat> {
    if s == [] then map[] else MapOf(s[..|s| - 1])[s[|s| - 1].key := s[|s| - 1].id]
  }

  lemma {:induction false} MapConcat(a: seq<Item>, b: seq<Item>)
    ensures MapOf(a + b) == MapOf(a) + MapOf(b)
    decreases |b|
  {
    if b == [] {
      assert a + b == a;
    } else {
      assert (a + b)[..|a + b| - 1] == a + b[..|b| - 1];
      MapConcat(a, b[..|b| - 1]);
    }
  }

  lemma {:induction false} MapKeys(s: seq<Item>, key: nat)
    ensures key in MapOf(s) <==> exists i :: 0 <= i < |s| && s[i].key == key
    decreases |s|
  {
    if s != [] {
      var r := s[..|s| - 1];
      MapKeys(r, key);
      assert forall i :: 0 <= i < |r| ==> r[i] == s[i];
      assert key == s[|s| - 1].key ==> exists i :: 0 <= i < |s| && s[i].key == key;
    }
  }

  lemma {:induction false} MapMisses(s: seq<Item>, key: nat)
    requires Below(s, key) || Above(s, key)
    ensures key !in MapOf(s)
  {
    MapKeys(s, key);
  }

  lemma {:induction false} MapThree(a: seq<Item>, x: Item, b: seq<Item>)
    ensures MapOf(a + [x] + b) == MapOf(a)[x.key := x.id] + MapOf(b)
  {
    MapConcat(a + [x], b);
    assert (a + [x])[..|a|] == a;
  }

  /** A new item in its place adds one entry; an item taken out takes one away. */
  lemma {:induction false} MapAround(a: seq<Item>, x: Item, b: seq<Item>)
    requires Below(a, x.key) && Above(b, x.key)
    ensures x.key !in MapOf(a + b)
    ensures MapOf(a + [x] + b) == MapOf(a + b)[x.key := x.id]
    ensures MapOf(a + b) == MapOf(a + [x] + b) - {x.key}
  {
    hide MapOf;
    MapMisses(a, x.key);
    MapMisses(b, x.key);
    MapConcat(a, b);
    MapThree(a, x, b);
  }

  /** A search that ends at an empty position has shown the key to be absent. */
  lemma {:induction false} NotFound(path: seq<Crumb>, key: nat)
    requires Between(path, key)
    ensures key !in MapOf(Order(Plug(Leaf, path)))
  {
    OrderPlug(Leaf, path);
    assert Before(path) + [] + After(path) == Before(path) + After(path);
    MapAround(Before(path), Item(0, key), After(path));
  }

  /** A search that ends at a node with the key has found the map's entry. */
  lemma {:induction false} Found(t: Tree, path: seq<Crumb>)
    requires t.Node? && Ascending(Order(Plug(t, path)))
    ensures t.item.key in MapOf(Order(Plug(t, path)))
    ensures MapOf(Order(Plug(t, path)))[t.item.key] == t.item.id
  {
    OrderAround(t, path);
    AscendingOut(Before(path) + Order(t.left), t.item, Order(t.right) + After(path));
    MapAround(Before(path) + Order(t.left), t.item, Order(t.right) + After(path));
  }

  /** The position of a node of the tree. */
  lemma {:induction false} Locate(t: Tree, id: nat, path: seq<Crumb>) returns (u: Tree, p: seq<Crumb>)
    requires id in Ids(t)
    ensures u.Node? && u.item.id == id && Plug(u, p) == Plug(t, path)
    decreases t
  {
    if t.item.id == id { return t, path; }
    var d := if id in Ids(t.left) then L else R;
    Descend(t, d, path);
    u, p := Locate(Kid(t, d), id, [CrumbOf(t, d)] + path);
  }

  lemma {:induction false} PlugNothing(t: Tree)
    ensures Plug(t, []) == t
  {
  }

  /** The position of the i-th item. */
  lemma {:induction false} LocateAt(t: Tree, i: nat, path: seq<Crumb>) returns (u: Tree, p: seq<Crumb>)
    requires i < |Order(t)|
    ensures u.Node? && u.item == Order(t)[i] && Plug(u, p) == Plug(t, path)
    ensures |Before(p)| + |Order(u.left)| == |Before(path)| + i
    decreases t
  {
    var n := |Order(t.left)|;
    if i == n { return t, path; }
    var d := if i < n then L else R;
    Descend(t, d, path);
    var q := [CrumbOf(t, d)] + path;
    assert q[1..] == path;
    if d == L {
      assert Order(t)[i] == Order(t.left)[i];
      u, p := LocateAt(t.left, i, q);
    } else {
      assert Order(t)[i] == Order(t.right)[i - n - 1];
      u, p := LocateAt(t.right, i - n - 1, q);
    }
  }

  /** What follows an item: the first of its right side, else the first after it. */
  lemma {:induction false} NextInOrder(t: Tree, path: seq<Crumb>)
    requires t.Node?
    ensures var i, o := |Before(path)| + |Order(t.left)|, Order(Plug(t, path));
      && i < |o| && o[i] == t.item
      && (Order(t.right) != [] ==> i + 1 < |o| && o[i + 1] == Order(t.right)[0])
      && (Order(t.right) == [] ==>
            (i + 1 < |o| <==> After(path) != []) && (i + 1 < |o| ==> o[i + 1] == After(path)[0]))
      && (Order(t.right) == [] <==> t.right.Leaf?)
  {
    OrderAround(t, path);
  }
}
