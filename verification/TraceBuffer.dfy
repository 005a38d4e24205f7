/** The trace ring buffer (src/trace-buffer.c): a power-of-two ring written with a
    mask and dumped oldest first. Frames carry their timestamp; allocation is taken
    to succeed. */
module TraceBuffer {
  import opened Common

  lemma {:induction false} Pow2Grows(j: nat, k: nat)
    requires j < k
    ensures 2 * Pow2(j) <= Pow2(k)
    decreases k
  {
    if j < k - 1 { Pow2Grows(j, k - 1); }
  }

  /** The number of bits of `n`: the word size less clzl(n). */
  function BitLength(n: nat): nat { if n == 0 then 0 else 1 + BitLength(n / 2) }

  lemma {:induction false} BitLengthBounds(n: nat)
    requires n > 0
    ensures BitLength(n) > 0 && Pow2(BitLength(n) - 1) <= n < Pow2(BitLength(n))
  {
    if n > 1 { BitLengthBounds(n / 2); }
  }

  /** round_up_to_power_of_2, for which clzl(0) is undefined. */
  function RoundUp(x: nat): nat
    requires x >= 2
  {
    Pow2(BitLength(x - 1))
  }

  /** It is the least power of two that is not below `x`. */
  lemma {:induction false} RoundUpIsLeast(x: nat, k: nat)
    requires x >= 2
    ensures x <= RoundUp(x) && (x <= Pow2(k) ==> RoundUp(x) <= Pow2(k))
  {
    BitLengthBounds(x - 1);
    var b := BitLength(x - 1);
    if k < b {
      if k < b - 1 { Pow2Grows(k, b - 1); }
    } else if b < k {
      Pow2Grows(b, k);
    }
  }

  /** Bitwise and. */
  function And(a: nat, b: nat): nat {
    if a == 0 || b == 0 then 0 else (a % 2) * (b % 2) + 2 * And(a / 2, b / 2)
  }

  /** The slot of entry `i` in a ring of `n`. */
  function Slot(i: nat, n: nat): (r: nat)
    requires n > 0
    ensures r < n
  {
    i % n
  }

  lemma {:induction false} SlotUnique(a: nat, n: nat, q: nat, r: nat)
    requires n > 0 && a == n * q + r && r < n
    ensures Slot(a, n) == r
  {
    var d := a / n - q;
    assert a == n * (a / n) + a % n;
    assert n * d == r - a % n;
  }

  /** Masking with a power of two less one is the remainder. */
  lemma {:induction false} MaskIsModulo(a: nat, k: nat)
    ensures And(a, Pow2(k) - 1) == Slot(a, Pow2(k))
    decreases k
  {
    hide And, Slot;
    AndNothing(a);
    AndNothing(Pow2(k) - 1);
    SlotUnique(0, Pow2(k), 0, 0);
    if a > 0 && k > 0 {
      MaskIsModulo(a / 2, k - 1);
      var m := Pow2(k - 1);
      HalvedSlot(a, m);
      AndOdd(a, m - 1);
      assert 2 * (m - 1) + 1 == Pow2(k) - 1;
    }
  }

  lemma {:induction false} AndNothing(a: nat)
    ensures And(0, a) == 0 && And(a, 0) == 0
  {
  }

  lemma {:induction false} AndOdd(a: nat, b: nat)
    requires a > 0
    ensures And(a, 2 * b + 1) == a % 2 + 2 * And(a / 2, b)
  {
    assert (2 * b + 1) % 2 == 1 && (2 * b + 1) / 2 == b;
  }

  lemma {:induction false} HalvedSlot(a: nat, m: nat)
    requires m > 0
    ensures Slot(a, 2 * m) == a % 2 + 2 * Slot(a / 2, m)
  {
    var q, r := (a / 2) / m, (a / 2) % m;
    assert a / 2 == m * q + r;
    assert a == (2 * m) * q + (a % 2 + 2 * r);
    SlotUnique(a, 2 * m, q, a % 2 + 2 * r);
  }

  /** An entry's number as laps and slot. */
  lemma {:induction false} Laps(i: nat, n: nat) returns (q: nat)
    requires n > 0
    ensures i == n * q + Slot(i, n)
  {
    q := i / n;
  }

  lemma {:induction false} NextSlot(i: nat, n: nat)
    requires n > 0
    ensures Slot(Slot(i, n) + 1, n) == Slot(i + 1, n)
  {
    hide Slot;
    var q := Laps(i, n);
    var r := Slot(i, n);
    if r + 1 < n {
      SlotUnique(i + 1, n, q, r + 1);
      SlotUnique(r + 1, n, 0, r + 1);
    } else {
      assert n * (q + 1) == n * q + n;
      SlotUnique(i + 1, n, q + 1, 0);
      SlotUnique(r + 1, n, 1, 0);
    }
  }

  /** Slots of entries less than a lap apart differ. */
  lemma {:induction false} SlotsDiffer(i: nat, j: nat, n: nat)
    requires n > 0 && i < j < i + n
    ensures Slot(i, n) != Slot(j, n)
  {
    hide Slot;
    var q := Laps(i, n);
    var r, d := Slot(i, n), j - i;
    if r + d < n {
      SlotUnique(j, n, q, r + d);
    } else {
      assert n * (q + 1) == n * q + n;
      SlotUnique(j, n, q + 1, r + d - n);
    }
  }

  class Ring<T(0)> {
    const length: nat
    const data: array<T>
    var index: nat
    var count: nat
    var blocked: bool
    ghost const bits: nat
    ghost var log: seq<T>

    /** The ring holds the newest entries of `log`, each in the slot of its number. */
    ghost predicate Valid()
      reads this, data
    {
      && length == Pow2(bits) && data.Length == length
      && index == Slot(|log|, length) && count == (if |log| < length then |log| else length)
      && forall i :: |log| - count <= i < |log| ==> data[Slot(i, length)] == log[i]
    }

    /** tb_init for `size` frames. */
    constructor (size: nat)
      requires size >= 2
      ensures Valid() && log == [] && !blocked && fresh(data)
      ensures length == RoundUp(size)
    {
      length := RoundUp(size);
      bits := BitLength(size - 1);
      data := new T[RoundUp(size)];
      index, count, blocked := 0, 0, false;
      log := [];
      SlotUnique(0, RoundUp(size), 0, 0);
    }

    /** tb_append; while a dump runs, nothing is written. */
    method Append(frame: T)
      requires Valid()
      modifies this`index, this`count, this`log, data
      ensures Valid() && log == (if blocked then old(log) else old(log) + [frame])
    {
      hide Slot, And, Pow2;
      if blocked { return; }
      ghost var n := |log|;
      forall i | n + 1 - length <= i < n && 0 <= i ensures Slot(i, length) != Slot(n, length) {
        SlotsDiffer(i, n, length);
      }
      data[index] := frame;
      index := index + 1;
      MaskIsModulo(index, bits);
      NextSlot(n, length);
      index := And(index, length - 1);
      if count < length { count := count + 1; }
      log := log + [frame];
    }

    /** tb_dump: the newest entries, at most `length`, in order of arrival. */
    method Dump() returns (out: seq<T>)
      requires Valid()
      modifies this`blocked
      ensures Valid() && blocked == old(blocked)
      ensures out == if blocked then [] else log[|log| - (if |log| < length then |log| else length)..]
    {
      hide Slot, Pow2;
      if blocked { return []; }
      blocked := true;
      ghost var n := |log|;
      if count < length {
        out := data[..count];
        forall i | 0 <= i < n ensures Slot(i, length) == i { SlotUnique(i, length, 0, i); }
        assert out == log[0..];
      } else {
        out := data[index..] + data[..index];
        forall k | 0 <= k < length ensures out[k] == log[n - length + k] { FullSlot(n, k); }
        assert out == log[n - length..];
      }
      blocked := false;
    }

    /** In a full ring the k-th entry of the dump sits k slots after the write index. */
    lemma {:induction false} FullSlot(n: nat, k: nat)
      requires Valid() && n == |log| && count == length && k < length
      ensures var s := if k < length - index then index + k else k - (length - index);
        s < length && data[s] == log[n - length + k]
    {
      hide Slot, Pow2;
      var q := Laps(n, length);
      var i := n - length + k;
      if k < length - index {
        assert length * q == length * (q - 1) + length;
        SlotUnique(i, length, q - 1, index + k);
      } else {
        SlotUnique(i, length, q, k - (length - index));
      }
    }
  }
}
