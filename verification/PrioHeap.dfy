/** Binary heaps on sequences: what one swap of prioq__bubble_up or prioq__sink_down
    does to a heap that is broken in one place. */
module PrioHeap {
  import opened PrioOrder

  // inc/compat/prioq.h:54-67.
  function Parent(i: nat): nat
    requires i > 0
  {
    (i - 1) / 2
  }

  function LeftChild(i: nat): nat { 2 * i + 1 }

  function RightChild(i: nat): nat { 2 * i + 2 }

  ghost predicate Le<T>(a: Entry<T>, b: Entry<T>) { !Less(b, a) }

  /** An element is at least its parent. */
  ghost predicate Edge<T>(s: seq<Entry<T>>, i: nat)
    requires 0 < i < |s|
  {
    Le(s[Parent(i)], s[i])
  }

  ghost predicate Heap<T>(s: seq<Entry<T>>) { forall i :: 0 < i < |s| ==> Edge(s, i) }

  /** A heap but for the edge above `k`, whose children fit under its parent. */
  ghost predicate HeapUp<T>(s: seq<Entry<T>>, k: nat) {
    && k < |s|
    && (forall i :: 0 < i < |s| && i != k ==> Edge(s, i))
    && (forall i :: 0 < k && 0 < i < |s| && Parent(i) == k ==> Le(s[Parent(k)], s[i]))
  }

  /** A heap but for the edges below `k`, whose children fit under its parent. */
  ghost predicate HeapDown<T>(s: seq<Entry<T>>, k: nat) {
    && (forall i :: 0 < i < |s| && Parent(i) != k ==> Edge(s, i))
    && (forall i :: 0 < k < |s| && 0 < i < |s| && Parent(i) == k ==> Le(s[Parent(k)], s[i]))
  }

  function Swap<T>(s: seq<T>, i: nat, j: nat): (r: seq<T>)
    requires i < |s| && j < |s|
    ensures |r| == |s| && r[i] == s[j] && r[j] == s[i]
    ensures forall k :: 0 <= k < |s| && k != i && k != j ==> r[k] == s[k]
    ensures multiset(r) == multiset(s)
  {
    s[i := s[j]][j := s[i]]
  }

  /** Arrivals differ, so the order is total. */
  ghost predicate Distinct<T>(s: seq<Entry<T>>) {
    forall i, j :: 0 <= i < j < |s| ==> s[i].arrival != s[j].arrival
  }

  lemma {:induction false} BubbleStep<T>(s: seq<Entry<T>>, k: nat)
    requires HeapUp(s, k) && 0 < k && Less(s[k], s[Parent(k)])
    ensures HeapUp(Swap(s, k, Parent(k)), Parent(k))
  {
    var p := Parent(k);
    var r := Swap(s, k, p);
    forall i | 0 < i < |r| && i != p ensures Edge(r, i) {
      assert i != k ==> Edge(s, i);
      if Parent(i) == k { assert Le(s[p], s[i]); }
    }
    forall i | 0 < p && 0 < i < |r| && Parent(i) == p ensures Le(r[Parent(p)], r[i]) {
      assert Edge(s, p);
      assert i != k ==> Edge(s, i);
    }
  }

  lemma {:induction false} BubbleDone<T>(s: seq<Entry<T>>, k: nat)
    requires HeapUp(s, k) && (k == 0 || !Less(s[k], s[Parent(k)]))
    ensures Heap(s)
  {
    assert k > 0 ==> Edge(s, k);
  }

  /** The child sink_down moves up: smaller than `k` and not above its sibling. */
  lemma {:induction false} SinkStep<T>(s: seq<Entry<T>>, k: nat, c: nat)
    requires HeapDown(s, k) && k < |s| && 0 < c < |s| && Parent(c) == k && Less(s[c], s[k])
    requires forall i :: 0 < i < |s| && Parent(i) == k ==> Le(s[c], s[i])
    ensures HeapDown(Swap(s, k, c), c)
  {
    var r := Swap(s, k, c);
    forall i | 0 < i < |r| && Parent(i) != c ensures Edge(r, i) {
      if Parent(i) == k {
        assert Le(s[c], s[i]);
      } else {
        assert Edge(s, i);
      }
    }
    forall i | 0 < i < |r| && Parent(i) == c ensures Le(r[Parent(c)], r[i]) {
      assert Edge(s, i);
    }
  }

  lemma {:induction false} SinkDone<T>(s: seq<Entry<T>>, k: nat)
    requires HeapDown(s, k)
    requires forall i :: 0 < i < |s| && Parent(i) == k && k < |s| ==> Le(s[k], s[i])
    ensures Heap(s)
  {
    forall i | 0 < i < |s| ensures Edge(s, i) {
      if Parent(i) == k { assert Le(s[k], s[i]); }
    }
  }

  /** The root of a heap is its least element. */
  lemma {:induction false} RootIsLeast<T>(s: seq<Entry<T>>, i: nat)
    requires Heap(s) && i < |s|
    ensures Le(s[0], s[i])
    decreases i
  {
    if i > 0 {
      RootIsLeast(s, Parent(i));
      assert Edge(s, i);
    }
  }

  /** Appending breaks the heap at the new end only. */
  lemma {:induction false} AppendedHeap<T>(s: seq<Entry<T>>, e: Entry<T>)
    requires Heap(s)
    ensures HeapUp(s + [e], |s|)
  {
    var r := s + [e];
    forall i | 0 < i < |r| && i != |s| ensures Edge(r, i) {
      assert Edge(s, i);
    }
  }

  /** What is left when the last element overwrites the first. */
  function Popped<T>(s: seq<Entry<T>>): seq<Entry<T>>
    requires |s| > 0
  {
    if |s| == 1 then [] else [s[|s| - 1]] + s[1..|s| - 1]
  }

  lemma {:induction false} PoppedHeap<T>(s: seq<Entry<T>>)
    requires Heap(s) && |s| > 0
    ensures HeapDown(Popped(s), 0)
  {
    var r := Popped(s);
    forall i | 0 < i < |r| && Parent(i) != 0 ensures Edge(r, i) {
      assert Edge(s, i);
    }
  }

  /** A heap and a sorted list of the same elements begin with the same one. */
  lemma {:induction false} SameFirst<T>(s: seq<Entry<T>>, order: seq<Entry<T>>)
    requires Heap(s) && Distinct(s) && Sorted(order) && multiset(s) == multiset(order) && |s| > 0
    ensures |order| > 0 && order[0] == s[0]
    ensures multiset(order[1..]) == multiset(s) - multiset{s[0]}
  {
    assert |multiset(s)| == |s| && |multiset(order)| == |order|;
    assert s[0] in multiset(order) && order[0] in multiset(s);
    var j :| 0 <= j < |s| && s[j] == order[0];
    RootIsLeast(s, j);
    var i :| 0 <= i < |order| && order[i] == s[0];
    assert i > 0 ==> Less(order[0], order[i]);
    assert order == [order[0]] + order[1..];
  }
}
