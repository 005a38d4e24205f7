/** The object index of an EDS, an electronic data sheet (src/eds.c): objects under
    the key made of index and subindex, kept in the red-black tree. */
module Eds {
  import opened RbShape
  import opened RbHeap
  import opened RbCells
  import opened RbSearch
  import opened RbTree

  /** src/eds.c:167 and inc/canopen/eds.h:63-71. */
  function KeyOf(index: nat, subindex: nat): nat
    requires index < 0x10000 && subindex < 0x100
  {
    index * 0x100 + subindex
  }

  function IndexOf(key: nat): nat { key / 0x100 }

  function SubindexOf(key: nat): nat { key % 0x100 }

  lemma {:induction false} KeyRoundTrip(index: nat, subindex: nat)
    requires index < 0x10000 && subindex < 0x100
    ensures IndexOf(KeyOf(index, subindex)) == index && SubindexOf(KeyOf(index, subindex)) == subindex
  {
  }

  /** Keys are ordered by index and then by subindex, so that is the order of a visit. */
  lemma {:induction false} KeyOrder(index: nat, subindex: nat, index': nat, subindex': nat)
    requires index < 0x10000 && subindex < 0x100 && index' < 0x10000 && subindex' < 0x100
    ensures KeyOf(index, subindex) < KeyOf(index', subindex')
      <==> index < index' || (index == index' && subindex < subindex')
  {
    if index < index' { assert KeyOf(index, subindex) < (index + 1) * 0x100; }
    if index' < index { assert KeyOf(index', subindex') < (index' + 1) * 0x100; }
  }

  /** Freeing a node that is not in the tree. */
  lemma {:induction false} Forgotten(h: Memory, root: nat, t: Tree, id: nat)
    requires Rep(h, root, t) && id !in Ids(t)
    ensures Rep(h - {id}, root, t)
  {
    ModelsInside(h, t, 0);
    SameModels(h, h - {id}, t, 0);
  }

  /** eds__insert: an object with a key already present replaces the one there, which
      is freed. */
  method InsertObject(eds: RbHead, node: nat)
    requires eds.Valid() && node in eds.mem && node !in Ids(eds.tree)
    modifies eds
    ensures eds.Valid()
    ensures eds.Index() == old(eds.Index())[old(eds.mem)[node].key := node]
    ensures var key, was := old(eds.mem)[node].key, old(eds.Index());
      var gone := if key in was then {was[key]} else {};
      && gone <= old(Ids(eds.tree)) && Ids(eds.tree) == old(Ids(eds.tree)) - gone + {node}
      && eds.mem.Keys == old(eds.mem.Keys) - gone
      && forall id :: id in eds.mem && id !in Ids(eds.tree) ==> eds.mem[id] == old(eds.mem)[id]
  {
    hide Rep, Order, MapOf, Ids, Ascending, RedBlack;
    FoundIsNode(eds.mem, eds.root, eds.tree, eds.mem[node].key);
    var existing := eds.Insert(node);
    if existing == 0 { return; }
    MapNode(eds.mem, eds.root, eds.tree, eds.mem[node].key);
    eds.Remove(existing);
    Forgotten(eds.mem, eds.root, eds.tree, existing);
    eds.mem := eds.mem - {existing};
    var none := eds.Insert(node);
  }

  /** The node the map gives for a key carries that key. */
  lemma {:induction false} MapNode(h: Memory, root: nat, t: Tree, key: nat)
    requires Rep(h, root, t) && key in MapOf(Order(t))
    ensures MapOf(Order(t))[key] in h && h[MapOf(Order(t))[key]].key == key
  {
    MapIds(Order(t), key);
    var i :| 0 <= i < |Order(t)| && Order(t)[i] == Item(MapOf(Order(t))[key], key);
    var u, p := LocateAt(t, i, []);
    PlugNothing(t);
    TopCell(h, root, u, p);
  }

  /** Nodes allocated, distinct and not yet in the tree, from the i-th on. */
  ghost predicate Pending(eds: RbHead, items: seq<Item>, from: nat)
    reads eds
  {
    && (forall i :: from <= i < |items| ==>
          items[i].id in eds.mem && items[i].id !in Ids(eds.tree) && eds.mem[items[i].id].key == items[i].key)
    && (forall i, j :: from <= i < j < |items| ==> items[i].id != items[j].id)
  }

  /** The loop of eds__convert_obj_tree: every sequence of insertions leaves a
      red-black search tree that holds, for each key, the object inserted last. MapOf is
      that map: a later item of a key overrides an earlier one. */
  method Load(eds: RbHead, items: seq<Item>)
    requires eds.Valid() && Pending(eds, items, 0)
    modifies eds
    ensures eds.Valid()
    ensures eds.Index() == old(eds.Index()) + MapOf(items)
  {
    MapOfNothing(items);
    hide Rep, Order, MapOf, Ids, Ascending, RedBlack;
    for i := 0 to |items|
      invariant eds.Valid() && Pending(eds, items, i)
      invariant eds.Index() == old(eds.Index()) + MapOf(items[..i])
    {
      InsertObject(eds, items[i].id);
      MapExtends(items, i);
    }
    assert items[..|items|] == items;
  }

  lemma {:induction false} MapOfNothing(items: seq<Item>)
    ensures MapOf(items[..0]) == map[]
  {
  }

  lemma {:induction false} MapExtends(items: seq<Item>, i: nat)
    requires i < |items|
    ensures MapOf(items[..i + 1]) == MapOf(items[..i])[items[i].key := items[i].id]
  {
    assert items[..i + 1][..i] == items[..i];
  }

  /** eds_obj_find. */
  method FindObject(eds: RbHead, index: nat, subindex: nat) returns (node: nat)
    requires eds.Valid() && index < 0x10000 && subindex < 0x100
    ensures node != 0 <==> KeyOf(index, subindex) in eds.Index()
    ensures node != 0 ==> node == eds.Index()[KeyOf(index, subindex)]
  {
    node := eds.Find(KeyOf(index, subindex));
  }

  /** The loop over eds_obj_first and eds_obj_next: it ends, having visited the
      objects in strictly increasing order of their keys, each exactly once. */
  method Visit(eds: RbHead) returns (visited: seq<nat>)
    requires eds.Valid()
    ensures |visited| == |Order(eds.tree)|
    ensures forall i :: 0 <= i < |visited| ==> visited[i] == Order(eds.tree)[i].id
  {
    visited := [];
    var obj := eds.First();
    OrderHasNoNull(eds.mem, eds.root, eds.tree);
    while obj != 0
      invariant |visited| <= |Order(eds.tree)|
      invariant forall i :: 0 <= i < |visited| ==> visited[i] == Order(eds.tree)[i].id
      invariant obj == if |visited| < |Order(eds.tree)| then Order(eds.tree)[|visited|].id else 0
      decreases |Order(eds.tree)| - |visited|
    {
      visited := visited + [obj];
      obj := eds.Next(obj, |visited| - 1);
    }
  }

  lemma {:induction false} OrderHasNoNull(h: Memory, root: nat, t: Tree)
    requires Rep(h, root, t)
    ensures forall i :: 0 <= i < |Order(t)| ==> Order(t)[i].id != 0
  {
    NoNull(t);
    forall i | 0 <= i < |Order(t)| ensures Order(t)[i].id != 0 {
      IdsOfOrder(t, Order(t)[i].id);
    }
  }

  /** What the visit covers: the items in order are exactly the entries of the map. */
  lemma {:induction false} OrderIsIndex(s: seq<Item>, key: nat, id: nat)
    requires Ascending(s)
    ensures (key in MapOf(s) && MapOf(s)[key] == id) <==> Item(id, key) in s
  {
    MapKeys(s, key);
    if key in MapOf(s) {
      MapIds(s, key);
      var i :| 0 <= i < |s| && s[i] == Item(MapOf(s)[key], key);
      if Item(id, key) in s {
        var j :| 0 <= j < |s| && s[j] == Item(id, key);
        assert i == j;
      }
    }
  }

  /** eds__clear: removes the least object until none is left. */
  method Clear(eds: RbHead)
    requires eds.Valid()
    modifies eds
    ensures eds.Valid() && eds.Index() == map[] && eds.root == 0
    ensures eds.mem.Keys == old(eds.mem.Keys) - old(Ids(eds.tree))
  {
    hide Order, MapOf, Ascending, RedBlack, Ids;
    PositionCell(eds.mem, eds.root, eds.tree, []);
    while eds.root != 0
      invariant eds.Valid() && (eds.root == 0 <==> eds.tree.Leaf?)
      invariant eds.mem.Keys == old(eds.mem.Keys) - (old(Ids(eds.tree)) - Ids(eds.tree))
      invariant Ids(eds.tree) <= old(Ids(eds.tree))
      decreases Ids(eds.tree)
    {
      FirstIsNode(eds.tree);
      var node := eds.First();
      eds.Remove(node);
      Forgotten(eds.mem, eds.root, eds.tree, node);
      eds.mem := eds.mem - {node};
      PositionCell(eds.mem, eds.root, eds.tree, []);
    }
    NothingLeft(eds.tree);
  }

  lemma {:induction false} FirstIsNode(t: Tree)
    requires t.Node?
    ensures Order(t) != [] && Order(t)[0].id in Ids(t)
  {
    IdsOfOrder(t, Order(t)[0].id);
  }

  lemma {:induction false} NothingLeft(t: Tree)
    requires t.Leaf?
    ensures Ids(t) == {} && MapOf(Order(t)) == map[]
  {
  }
}
