/** The stable priority queue (src/prioq.c): a binary heap in an array with a
    wrapping sequence number. Three ghost fields keep the truth the array encodes:
    `clock` counts insertions without wrapping, `live` is the array with true
    arrival numbers, `order` the sorted list the queue should stand for. Nothing is
    ever lost or made up; the array stands for the list as long as no element has
    grown older than the comparison can tell. Blocking and locking are not modelled
    here; a pop finds the queue empty or not. */
module PrioQueue {
  import opened Common
  import opened PrioOrder
  import opened PrioHeap

  /** No two arrivals are further apart than the comparison can tell. */
  ghost predicate InWindow<T>(s: seq<Entry<T>>) {
    forall i, j :: 0 <= i < |s| && 0 <= j < |s| ==> s[i].arrival <= s[j].arrival + Window
  }

  /** Elements that have arrived, and their list. */
  ghost predicate Listed<T>(live: seq<Entry<T>>, order: seq<Entry<T>>, clock: nat) {
    && Sorted(order) && multiset(order) == multiset(live)
    && forall i :: 0 <= i < |live| ==> live[i].arrival < clock
  }

  lemma {:induction false} SwapKeeps<T>(s: seq<Entry<T>>, i: nat, j: nat)
    requires i < |s| && j < |s|
    ensures Distinct(s) ==> Distinct(Swap(s, i, j))
    ensures InWindow(s) ==> InWindow(Swap(s, i, j))
  {
  }

  class PrioQ<T(0, ==)> {
    var head: array<Elem<T>>
    var index: nat
    var sequence: nat
    ghost var live: seq<Entry<T>>
    ghost var order: seq<Entry<T>>
    ghost var clock: nat

    /** The array holds `live`. */
    ghost predicate Mirrors()
      reads this, head
    {
      && index == |live| && index <= head.Length && Distinct(live)
      && forall i :: 0 <= i < index ==> head[i] == Stamp(live[i])
    }

    ghost predicate Valid()
      reads this, head
    {
      Mirrors() && sequence == clock % Modulus && Listed(live, order, clock)
    }

    /** A heap of elements on which the comparison is right. */
    ghost predicate Ordered()
      reads this
    {
      Heap(live) && InWindow(live)
    }

    /** prioq_init. */
    constructor (size: nat)
      ensures Valid() && Ordered() && fresh(head) && order == [] && clock == 0 && head.Length == size
    {
      head := new Elem<T>[size];
      index, sequence := 0, 0;
      live, order, clock := [], [], 0;
    }

    /** prioq_grow. */
    method Grow(size: nat)
      requires Mirrors()
      modifies this`head
      ensures Mirrors() && head.Length == if old(head.Length) >= size then old(head.Length) else size
      ensures head == old(head) || fresh(head)
      ensures old(head.Length) >= size ==> head == old(head)
    {
      if head.Length >= size { return; }
      var src := head;
      var newHead := new Elem<T>[size];
      for i := 0 to src.Length
        invariant head == src && forall k :: 0 <= k < i ==> newHead[k] == src[k]
      {
        newHead[i] := src[i];
      }
      head := newHead;
    }

    method SwapElems(i: nat, j: nat)
      requires Mirrors() && i < index && j < index
      modifies head, this`live
      ensures Mirrors() && live == Swap(old(live), i, j)
    {
      SwapKeeps(live, i, j);
      var tmp := head[i];
      head[i] := head[j];
      head[j] := tmp;
      live := Swap(live, i, j);
    }

    /** prioq__bubble_up. */
    method BubbleUp(k: nat)
      requires Mirrors() && k < index
      modifies head, this`live
      ensures Mirrors() && multiset(live) == multiset(old(live))
      ensures old(InWindow(live) && HeapUp(live, k)) ==> Ordered()
      decreases k
    {
      hide Heap, HeapUp, InWindow, Distinct;
      if k == 0 {
        if InWindow(live) && HeapUp(live, k) { BubbleDone(live, k); }
        return;
      }
      if InWindow(live) { RightHere(live, k, Parent(k)); }
      if IsLt(head[k], head[Parent(k)]) {
        if InWindow(live) && HeapUp(live, k) { BubbleStep(live, k); }
        SwapKeeps(live, k, Parent(k));
        SwapElems(k, Parent(k));
        BubbleUp(Parent(k));
      } else if InWindow(live) && HeapUp(live, k) {
        BubbleDone(live, k);
      }
    }

    /** prioq__get_smaller_child: the child to move up, or 0. */
    method SmallerChild(k: nat) returns (c: nat)
      requires Mirrors() && (k < index || index == 0)
      ensures c != 0 ==> k < c < index && Parent(c) == k
      ensures InWindow(live) && c == 0 ==> forall i :: 0 < i < |live| && Parent(i) == k ==> Le(live[k], live[i])
      ensures InWindow(live) && c != 0 ==> Less(live[c], live[k])
      ensures InWindow(live) && c != 0 ==> forall i :: 0 < i < |live| && Parent(i) == k ==> Le(live[c], live[i])
    {
      hide InWindow, Distinct;
      var left, right := LeftChild(k), RightChild(k);
      if InWindow(live) {
        if right < index { RightHere(live, right, k); RightHere(live, right, left); }
        if left < index { RightHere(live, left, k); }
      }
      if right < index && IsLt(head[right], head[k]) {
        return if IsLt(head[right], head[left]) then right else left;
      }
      if left < index && IsLt(head[left], head[k]) { return left; }
      return 0;
    }

    /** prioq__sink_down. */
    method SinkDown(k: nat)
      requires Mirrors() && (k < index || index == 0)
      modifies head, this`live
      ensures Mirrors() && multiset(live) == multiset(old(live))
      ensures old(InWindow(live) && HeapDown(live, k)) ==> Ordered()
      decreases index - k
    {
      hide Heap, HeapDown, InWindow, Distinct;
      var c := SmallerChild(k);
      if c == 0 {
        if InWindow(live) && HeapDown(live, k) { SinkDone(live, k); }
        return;
      }
      if InWindow(live) && HeapDown(live, k) { SinkStep(live, k, c); }
      SwapKeeps(live, k, c);
      SwapElems(k, c);
      SinkDown(c);
    }

    /** The new element at the end of the array. */
    method Append(priority: nat, data: T)
      requires Valid() && index < head.Length
      modifies this`index, this`sequence, this`live, this`clock, head
      ensures Mirrors() && index == old(index) + 1 && clock == old(clock) + 1 && sequence == clock % Modulus
      ensures live == old(live) + [Entry(priority, old(clock), data)]
    {
      head[index] := Elem(priority, sequence, data);
      index := index + 1;
      live := live + [Entry(priority, clock, data)];
      sequence := (sequence + 1) % Modulus;
      clock := clock + 1;
    }

    /** prioq_insert with room for one more. */
    method InsertInPlace(priority: nat, data: T)
      requires Valid() && index < head.Length
      modifies this`index, this`sequence, this`live, this`clock, this`order, head
      ensures Valid() && clock == old(clock) + 1
      ensures order == InsertSorted(old(order), Entry(priority, old(clock), data))
      ensures old(Ordered()) && (forall x <- old(live) :: old(clock) <= x.arrival + Window) ==> Ordered()
    {
      hide Heap, HeapUp, Sorted, InWindow, Distinct, Listed, Stamp, InsertSorted;
      ghost var was, e := live, Entry(priority, clock, data);
      ghost var young := Ordered() && forall x <- live :: clock <= x.arrival + Window;
      if young {
        AppendedHeap(live, e);
        AppendedWindow(live, e, order, clock);
      }
      Append(priority, data);
      BubbleUp(index - 1);
      InsertListed(was, live, order, clock - 1, e);
      order := InsertSorted(order, e);
    }

    /** prioq_insert: the list gets the newcomer behind its equals, and the array stands
        for it if no element is older than the window. A queue of no capacity cannot
        grow, and its first element is written outside the array. */
    method Insert(priority: nat, data: T) returns (inBounds: bool)
      requires Valid()
      modifies this, head
      ensures inBounds <==> old(head.Length) > 0
      ensures Valid() && (head == old(head) || fresh(head))
      ensures inBounds ==> clock == old(clock) + 1
      ensures inBounds ==> order == InsertSorted(old(order), Entry(priority, old(clock), data))
      ensures inBounds && old(Ordered()) && (forall x <- old(live) :: old(clock) <= x.arrival + Window) ==> Ordered()
      ensures !inBounds ==> order == old(order) == [] && clock == old(clock)
    {
      hide Heap, Sorted, InWindow, Distinct, Stamp, InsertSorted;
      SameLength(live, order);
      if index >= head.Length { Grow(head.Length * 2); }
      if index >= head.Length { return false; }
      InsertInPlace(priority, data);
      return true;
    }

    /** The last element over the first. */
    method TakeRoot() returns (elem: Elem<T>)
      requires Mirrors() && index > 0
      modifies this`index, this`live, head
      ensures Mirrors() && elem == Stamp(old(live)[0]) && live == Popped(old(live))
    {
      PoppedKeeps(live);
      elem := head[0];
      index := index - 1;
      head[0] := head[index];
      live := Popped(live);
    }

    /** prioq_pop of a queue with something in it. */
    method PopRoot() returns (elem: Elem<T>)
      requires Mirrors() && index > 0
      modifies this`index, this`live, head
      ensures Mirrors() && elem == Stamp(old(live)[0])
      ensures multiset(live) == multiset(old(live)) - multiset{old(live)[0]}
      ensures old(Ordered()) ==> Ordered()
    {
      hide Heap, HeapDown, InWindow, Distinct, Stamp, Popped;
      PoppedMultiset(live);
      PoppedKeeps(live);
      if Heap(live) { PoppedHeap(live); }
      elem := TakeRoot();
      SinkDown(0);
    }

    /** prioq_pop of what is there: an element of the list, its first if the array stands
        for the list, which it then goes on to do. */
    method Pop() returns (elem: Option<Elem<T>>)
      requires Valid()
      modifies this, head
      ensures Valid() && head == old(head) && clock == old(clock)
      ensures old(order) == [] ==> elem == None && order == []
      ensures old(order) != [] ==> |old(live)| > 0 && old(live)[0] in old(order)
      ensures old(order) != [] ==> elem == Some(Stamp(old(live)[0])) && order == Without(old(order), old(live)[0])
      ensures old(order) != [] && old(Ordered()) ==> elem == Some(Stamp(old(order)[0])) && order == old(order)[1..]
      ensures old(Ordered()) ==> Ordered()
    {
      hide Heap, Sorted, InWindow, Distinct, Listed, Stamp, Without;
      ghost var was := live;
      ListedLength(live, order, clock);
      if index == 0 { return None; }
      if Ordered() { ListHead(live, order, clock); }
      var root := PopRoot();
      elem := Some(root);
      PopListed(was, live, order, clock);
      order := Without(order, was[0]);
    }
  }

  lemma {:induction false} ListedLength<T>(live: seq<Entry<T>>, order: seq<Entry<T>>, clock: nat)
    requires Listed(live, order, clock)
    ensures |live| == |order|
  {
    SameLength(live, order);
  }

  lemma {:induction false} RightHere<T>(s: seq<Entry<T>>, i: nat, j: nat)
    requires InWindow(s) && i < |s| && j < |s|
    ensures IsLt(Stamp(s[i]), Stamp(s[j])) <==> Less(s[i], s[j])
  {
    IsLtIsLess(s[i], s[j]);
  }

  lemma {:induction false} SameLength<T>(live: seq<Entry<T>>, order: seq<Entry<T>>)
    requires multiset(live) == multiset(order)
    ensures |live| == |order|
  {
    assert |multiset(live)| == |live| && |multiset(order)| == |order|;
  }

  lemma {:induction false} AppendedWindow<T>(live: seq<Entry<T>>, e: Entry<T>, order: seq<Entry<T>>, clock: nat)
    requires InWindow(live) && Listed(live, order, clock) && e.arrival == clock
    requires forall x <- live :: clock <= x.arrival + Window
    ensures InWindow(live + [e])
  {
    var s := live + [e];
    forall i, j | 0 <= i < |s| && 0 <= j < |s| ensures s[i].arrival <= s[j].arrival + Window {
      if j < |live| { assert s[j] in live; }
    }
  }

  lemma {:induction false} InsertListed<T>(was: seq<Entry<T>>, live: seq<Entry<T>>,
                                            order: seq<Entry<T>>, clock: nat, e: Entry<T>)
    requires Listed(was, order, clock) && e.arrival == clock && multiset(live) == multiset(was + [e])
    ensures Listed(live, InsertSorted(order, e), clock + 1)
  {
    forall x | x in multiset(order) ensures x.arrival != e.arrival {
      assert x in multiset(was);
    }
    InsertSortedIsSorted(order, e);
    forall i | 0 <= i < |live| ensures live[i].arrival < clock + 1 {
      assert live[i] in multiset(was + [e]);
    }
  }

  lemma {:induction false} PopListed<T>(was: seq<Entry<T>>, live: seq<Entry<T>>, order: seq<Entry<T>>, clock: nat)
    requires Listed(was, order, clock) && |was| > 0 && multiset(live) == multiset(was) - multiset{was[0]}
    ensures was[0] in order && Listed(live, Without(order, was[0]), clock)
  {
    assert was[0] in multiset(order);
    WithoutIsSorted(order, was[0]);
    forall i | 0 <= i < |live| ensures live[i].arrival < clock {
      assert live[i] in multiset(live);
      assert live[i] in multiset(was);
    }
  }

  lemma {:induction false} ListHead<T>(live: seq<Entry<T>>, order: seq<Entry<T>>, clock: nat)
    requires Listed(live, order, clock) && Heap(live) && Distinct(live) && |live| > 0
    ensures |order| > 0 && order[0] == live[0] && Without(order, live[0]) == order[1..]
  {
    SameFirst(live, order);
  }

  lemma {:induction false} PoppedMultiset<T>(s: seq<Entry<T>>)
    requires |s| > 0
    ensures multiset(Popped(s)) == multiset(s) - multiset{s[0]}
  {
    if |s| == 1 {
      assert s == [s[0]];
    } else {
      assert s == [s[0]] + s[1..|s| - 1] + [s[|s| - 1]];
    }
  }

  lemma {:induction false} PoppedKeeps<T>(s: seq<Entry<T>>)
    requires |s| > 0
    ensures Distinct(s) ==> Distinct(Popped(s))
    ensures InWindow(s) ==> InWindow(Popped(s))
  {
  }
}
