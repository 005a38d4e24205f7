/** Arrival order under a sequence number that wraps (src/prioq.c:177-215), and the
    order of queue elements built on it. */
module PrioOrder {

  const Modulus: nat := 0x1_0000_0000_0000_0000
  const UlongMax: nat := Modulus - 1
  const Window: nat := 0x4000_0000_0000_0000

  predicate OnFirstQuarter(i: nat) { i <= UlongMax / 4 }

  predicate OnFourthQuarter(i: nat) { UlongMax / 4 * 3 < i <= UlongMax }

  predicate IsSeqLt(a: nat, b: nat) {
    if OnFourthQuarter(a) && OnFirstQuarter(b) then true
    else if OnFirstQuarter(a) && OnFourthQuarter(b) then false
    else a < b
  }

  /** On any window of arrivals no wider than a quarter of the circle the comparison
      of the wrapped numbers is the order of arrival. */
  lemma {:induction false} SeqLtIsArrivalOrder(x: nat, y: nat)
    requires x <= y + Window && y <= x + Window
    ensures IsSeqLt(x % Modulus, y % Modulus) <==> x < y
  {
    var p, q := x / Modulus, y / Modulus;
    assert x == p * Modulus + x % Modulus && y == q * Modulus + y % Modulus;
    if p < q { EpochsApart(p, q); } else if q < p { EpochsApart(q, p); }
  }

  lemma {:induction false} EpochsApart(p: nat, q: nat)
    requires p < q
    ensures q == p + 1 || q * Modulus >= p * Modulus + 2 * Modulus
    ensures q == p + 1 ==> q * Modulus == p * Modulus + Modulus
  {
  }

  /** Comparison is right on every pair of arrivals at most `w` apart. */
  ghost predicate RightWithin(w: nat) {
    forall x: nat, y: nat :: x <= y + w && y <= x + w ==> (IsSeqLt(x % Modulus, y % Modulus) <==> x < y)
  }

  /** A quarter of the circle is exactly how far it is right. */
  lemma {:induction false} WindowIsTight(w: nat)
    ensures RightWithin(w) <==> w <= Window
  {
    if w <= Window {
      forall x: nat, y: nat | x <= y + w && y <= x + w
        ensures IsSeqLt(x % Modulus, y % Modulus) <==> x < y
      {
        SeqLtIsArrivalOrder(x, y);
      }
    } else {
      var x, y := UlongMax, UlongMax + Window + 1;
      assert x % Modulus == UlongMax && y % Modulus == Window;
      assert !IsSeqLt(x % Modulus, y % Modulus) && x < y;
    }
  }

  // -------------------------------------------------------------- elements

  /** `struct prioq_elem`. */
  datatype Elem<T> = Elem(priority: nat, sequence: nat, data: T)

  /** An element with its true arrival number. */
  datatype Entry<T> = Entry(priority: nat, arrival: nat, data: T)

  predicate IsLt<T>(a: Elem<T>, b: Elem<T>) {
    if a.priority < b.priority then true
    else if a.priority > b.priority then false
    else IsSeqLt(a.sequence, b.sequence)
  }

  function Stamp<T>(e: Entry<T>): Elem<T> { Elem(e.priority, e.arrival % Modulus, e.data) }

  /** By priority, then by arrival. */
  predicate Less<T>(a: Entry<T>, b: Entry<T>) {
    a.priority < b.priority || (a.priority == b.priority && a.arrival < b.arrival)
  }

  lemma {:induction false} IsLtIsLess<T>(a: Entry<T>, b: Entry<T>)
    requires a.arrival <= b.arrival + Window && b.arrival <= a.arrival + Window
    ensures IsLt(Stamp(a), Stamp(b)) <==> Less(a, b)
  {
    SeqLtIsArrivalOrder(a.arrival, b.arrival);
  }

  /** Just beyond the window the later of two equals goes first. */
  lemma {:induction false} LaterFirstBeyondWindow<T>(priority: nat, x: T, y: T)
    ensures var a, b := Entry(priority, UlongMax, x), Entry(priority, UlongMax + Window + 1, y);
      Less(a, b) && IsLt(Stamp(b), Stamp(a))
  {
    assert (UlongMax + Window + 1) % Modulus == Window && UlongMax % Modulus == UlongMax;
  }

  // ------------------------------------------------------- the sorted list

  ghost predicate Sorted<T>(s: seq<Entry<T>>) { forall i, j :: 0 <= i < j < |s| ==> Less(s[i], s[j]) }

  /** Behind everything that is not later or less urgent. */
  function InsertSorted<T>(s: seq<Entry<T>>, e: Entry<T>): seq<Entry<T>> {
    if s == [] || Less(e, s[0]) then [e] + s else [s[0]] + InsertSorted(s[1..], e)
  }

  lemma {:induction false} SortedCons<T>(x: Entry<T>, r: seq<Entry<T>>)
    requires Sorted(r) && forall y <- r :: Less(x, y)
    ensures Sorted([x] + r) && multiset([x] + r) == multiset{x} + multiset(r)
  {
  }

  lemma {:induction false} SortedParts<T>(s: seq<Entry<T>>)
    requires Sorted(s) && s != []
    ensures Sorted(s[1..]) && multiset(s) == multiset{s[0]} + multiset(s[1..])
    ensures forall y <- multiset(s[1..]) :: Less(s[0], y)
  {
    assert s == [s[0]] + s[1..];
  }

  lemma {:induction false} InsertSortedIsSorted<T>(s: seq<Entry<T>>, e: Entry<T>)
    requires Sorted(s) && forall x <- multiset(s) :: x.arrival != e.arrival
    ensures Sorted(InsertSorted(s, e))
    ensures multiset(InsertSorted(s, e)) == multiset(s) + multiset{e}
  {
    hide Sorted;
    if s != [] {
      SortedParts(s);
      if Less(e, s[0]) {
        forall y | y in s ensures Less(e, y) { assert y in multiset(s); }
        SortedCons(e, s);
      } else {
        InsertSortedIsSorted(s[1..], e);
        var r := InsertSorted(s[1..], e);
        assert s[0] in multiset(s);
        forall y | y in r ensures Less(s[0], y) { assert y in multiset(r); }
        SortedCons(s[0], r);
      }
    } else {
      SortedNothing(s);
      SortedCons(e, s);
    }
  }

  lemma {:induction false} SortedNothing<T>(s: seq<Entry<T>>)
    requires s == []
    ensures Sorted(s)
  {
  }

  /** A newcomer goes behind every element of its own priority: first come, first served. */
  lemma {:induction false} InsertSortedIsStable<T>(s: seq<Entry<T>>, e: Entry<T>) returns (k: nat)
    requires Sorted(s) && forall x <- s :: x.arrival < e.arrival
    ensures k <= |s| && InsertSorted(s, e) == s[..k] + [e] + s[k..]
    ensures forall i :: 0 <= i < |s| ==> (i < k <==> s[i].priority <= e.priority)
  {
    if s == [] || Less(e, s[0]) { return 0; }
    k := InsertSortedIsStable(s[1..], e);
    k := k + 1;
    assert s == [s[0]] + s[1..];
    forall i | 0 <= i < |s| ensures i < k <==> s[i].priority <= e.priority {
      if i > 0 { assert s[i] == s[1..][i - 1]; }
    }
  }

  /** The list without its first occurrence of `e`. */
  function Without<T(==)>(s: seq<Entry<T>>, e: Entry<T>): seq<Entry<T>> {
    if s == [] then [] else if s[0] == e then s[1..] else [s[0]] + Without(s[1..], e)
  }

  lemma {:induction false} WithoutIsSorted<T>(s: seq<Entry<T>>, e: Entry<T>)
    requires Sorted(s) && e in multiset(s)
    ensures Sorted(Without(s, e)) && multiset(Without(s, e)) == multiset(s) - multiset{e}
  {
    hide Sorted;
    SortedParts(s);
    if s[0] != e {
      WithoutIsSorted(s[1..], e);
      var r := Without(s[1..], e);
      forall y | y in r ensures Less(s[0], y) { assert y in multiset(r); }
      SortedCons(s[0], r);
    }
  }
}
