/** CANopen integers of one to eight bytes (src/conversions.c, src/byteorder.c).

    The text side, strtoull and snprintf, is the C library's; the model starts from
    the 64-bit number the one returns and ends at the number given to the other. The
    bus is little-endian; a host of either byte order is a parameter. */
module Conversions {
  import opened Common

  type Byte = x: nat | x < 256

  function Pow256(n: nat): (p: nat)
    ensures p >= 1
  {
    if n == 0 then 1 else 256 * Pow256(n - 1)
  }

  /** The low `n` bytes of `v`, lowest first. */
  function Bytes(v: nat, n: nat): (b: seq<Byte>)
    ensures |b| == n
  {
    if n == 0 then [] else [v % 256] + Bytes(v / 256, n - 1)
  }

  function Val(b: seq<Byte>): nat { if b == [] then 0 else b[0] + 256 * Val(b[1..]) }

  lemma {:induction false} ValBelow(b: seq<Byte>)
    ensures Val(b) < Pow256(|b|)
  {
    if b != [] { ValBelow(b[1..]); }
  }

  lemma {:induction false} BytesOfVal(b: seq<Byte>)
    ensures Bytes(Val(b), |b|) == b
  {
    if b != [] {
      BytesOfVal(b[1..]);
      assert Val(b) % 256 == b[0] && Val(b) / 256 == Val(b[1..]);
    }
  }

  /** What is left of `v` in `n` bytes differs from it by a multiple of their range. */
  lemma {:induction false} ValOfBytes(v: nat, n: nat) returns (q: nat)
    ensures v == Val(Bytes(v, n)) + q * Pow256(n)
    decreases n
  {
    if n == 0 { return v; }
    q := ValOfBytes(v / 256, n - 1);
    assert Bytes(v, n)[1..] == Bytes(v / 256, n - 1);
    calc {
      v;
      v % 256 + 256 * (v / 256);
      v % 256 + 256 * Val(Bytes(v / 256, n - 1)) + 256 * (q * Pow256(n - 1));
      Val(Bytes(v, n)) + 256 * (q * Pow256(n - 1));
      { assert 256 * (q * Pow256(n - 1)) == q * (256 * Pow256(n - 1)); }
      Val(Bytes(v, n)) + q * Pow256(n);
    }
  }

  lemma {:induction false} BytesPrefix(v: nat, n: nat, m: nat)
    requires n <= m
    ensures Bytes(v, m)[..n] == Bytes(v, n)
    decreases n
  {
    if n > 0 {
      BytesPrefix(v / 256, n - 1, m - 1);
      assert Bytes(v, m)[..n] == [v % 256] + Bytes(v / 256, m - 1)[..n - 1];
    }
  }

  lemma {:induction false} ValPadded(b: seq<Byte>, k: nat)
    ensures Val(b + Zeros(k)) == Val(b)
    decreases |b| + k
  {
    if b != [] {
      assert (b + Zeros(k))[1..] == b[1..] + Zeros(k);
      ValPadded(b[1..], k);
    } else if k > 0 {
      assert ([] + Zeros(k))[1..] == [] + Zeros(k - 1);
      ValPadded([], k - 1);
    }
  }

  function Zeros(k: nat): seq<Byte> { seq(k, _ => 0) }

  // ------------------------------------------------------------------- hosts

  function Reversed(b: seq<Byte>): (r: seq<Byte>)
    ensures |r| == |b| && forall i :: 0 <= i < |b| ==> r[i] == b[|b| - 1 - i]
  {
    seq(|b|, i requires 0 <= i < |b| => b[|b| - 1 - i])
  }

  lemma {:induction false} Twice(b: seq<Byte>)
    ensures Reversed(Reversed(b)) == b
  {
  }

  /** The bytes of a 64-bit number in the memory of a host. */
  function InMemory(big: bool, v: nat): seq<Byte> { if big then Reversed(Bytes(v, 8)) else Bytes(v, 8) }

  /** The number a host reads from memory. */
  function Loaded(big: bool, m: seq<Byte>): nat { Val(if big then Reversed(m) else m) }

  /** What byteorder2 leaves in a zeroed destination. */
  function Ordered(big: bool, src: seq<Byte>, size: nat): seq<Byte>
    requires |src| <= size
  {
    if big then Reversed(src + Zeros(size - |src|)) else src + Zeros(size - |src|)
  }

  /** byteorder2: on a big-endian host from the far end of the destination, which
      calls `abort()` for more than eight bytes, else a plain copy. */
  method Byteorder(big: bool, src: seq<Byte>, size: nat) returns (dst: Option<seq<Byte>>)
    requires |src| <= size
    ensures dst == if big && |src| > 8 then None else Some(Ordered(big, src, size))
  {
    if big && |src| > 8 { return None; }
    var out: seq<Byte> := Zeros(size);
    ghost var whole := src + Zeros(size - |src|);
    if big {
      var d, s := size, 0;
      while s < |src|
        invariant 0 <= s <= |src| && d == size - s && |out| == size
        invariant forall i :: 0 <= i < size ==> out[i] == if i >= d then src[size - 1 - i] else 0
      {
        d := d - 1;
        out := out[d := src[s]];
        s := s + 1;
      }
      assert out == Reversed(whole);
    } else {
      for i := 0 to |src|
        invariant |out| == size && forall k :: 0 <= k < size ==> out[k] == if k < i then src[k] else 0
      {
        out := out[i := src[i]];
      }
      assert out == whole;
    }
    return Some(out);
  }

  /** From the bus or to it, the byte order of the host drops out. */
  lemma {:induction false} OrderDropsOut(big: bool, v: nat, src: seq<Byte>)
    requires |src| <= 8
    ensures Ordered(big, InMemory(big, v), 8) == Bytes(v, 8)
    ensures Loaded(big, Ordered(big, src, 8)) == Val(src)
  {
    hide Val, Bytes, Reversed;
    assert InMemory(big, v) + Zeros(0) == InMemory(big, v);
    Twice(Bytes(v, 8));
    Twice(src + Zeros(8 - |src|));
    ValPadded(src, 8 - |src|);
  }

  // ----------------------------------------------------------------- integers

  const Word: nat := 0x1_0000_0000_0000_0000

  /** The bit pattern of a 64-bit number. */
  function Pattern(v: int): nat
    requires -(Word / 2) <= v < Word
  {
    if v < 0 then v + Word else v
  }

  /** canopen_uint_fromstring and canopen_int_fromstring, from the number parsed. */
  function Encode(big: bool, n: nat, v: int): seq<Byte>
    requires n <= 8 && -(Word / 2) <= v < Word
  {
    Ordered(big, InMemory(big, Pattern(v)), 8)[..n]
  }

  /** canopen_uint_tostring, to the number printed. */
  function DecodeUnsigned(big: bool, b: seq<Byte>): nat
    requires |b| <= 8
  {
    Loaded(big, Ordered(big, b, 8))
  }

  /** canopen_int_tostring: the top bit of the last byte makes the number negative. */
  function DecodeSigned(big: bool, b: seq<Byte>): int
    requires 1 <= |b| <= 8
  {
    var value := Loaded(big, Ordered(big, b, 8));
    if |b| != 8 then
      if b[|b| - 1] >= 128 then value - Pow256(|b|) else value
    else if value >= Word / 2 then value - Word else value
  }

  lemma {:induction false} TopByte(b: seq<Byte>)
    requires b != []
    ensures b[|b| - 1] >= 128 <==> 2 * Val(b) >= Pow256(|b|)
  {
    if |b| > 1 {
      TopByte(b[1..]);
      ValBelow(b[1..]);
    }
  }

  lemma {:induction false} Pow256Eight()
    ensures Pow256(8) == Word
  {
    assert Pow256(4) == 0x1_0000_0000;
    assert Pow256(8) == 256 * 256 * 256 * 256 * Pow256(4);
  }

  /** The two's complement of `n` bytes. */
  lemma {:induction false} SignedValue(big: bool, b: seq<Byte>)
    requires 1 <= |b| <= 8
    ensures DecodeSigned(big, b) == if 2 * Val(b) >= Pow256(|b|) then Val(b) - Pow256(|b|) else Val(b)
  {
    OrderDropsOut(big, 0, b);
    TopByte(b);
    Pow256Eight();
  }

  lemma {:induction false} EncodedBytes(big: bool, n: nat, v: int)
    requires n <= 8 && -(Word / 2) <= v < Word
    ensures Encode(big, n, v) == Bytes(Pattern(v), n)
  {
    OrderDropsOut(big, Pattern(v), []);
    BytesPrefix(Pattern(v), n, 8);
  }

  lemma {:induction false} ByteAt(v: nat, n: nat, i: nat)
    requires i < n
    ensures Bytes(v, n)[i] == v / Pow256(i) % 256
    decreases i
  {
    if i > 0 {
      ByteAt(v / 256, n - 1, i - 1);
      Quotients(v, Pow256(i - 1));
    }
  }

  lemma {:induction false} Quotients(v: nat, p: nat)
    requires p >= 1
    ensures v / 256 / p == v / (256 * p)
  {
    var q := v / 256 / p;
    var r := v / 256 % p;
    assert v / 256 == q * p + r;
    assert v == (256 * p) * q + (256 * r + v % 256) by { assert 256 * (q * p) == (256 * p) * q; }
    Divided(v, 256 * p, q, 256 * r + v % 256);
  }

  lemma {:induction false} Divided(v: nat, d: nat, q: nat, r: nat)
    requires d >= 1 && v == d * q + r && r < d
    ensures v / d == q
  {
    var k, m := v / d, v % d;
    assert v == d * k + m;
    assert (q - k) * d == m - r by { assert (q - k) * d == d * q - d * k; }
    Multiples(q - k, d);
  }

  /** On the bus the lowest byte comes first, whatever the host. */
  lemma {:induction false} LowestFirst(big: bool, n: nat, v: int, i: nat)
    requires i < n <= 8 && -(Word / 2) <= v < Word
    ensures |Encode(big, n, v)| == n && Encode(big, n, v)[i] == Pattern(v) / Pow256(i) % 256
  {
    hide Bytes, Ordered, Pow256;
    EncodedBytes(big, n, v);
    ByteAt(Pattern(v), n, i);
  }

  /** A parsed number is printed again, on hosts of either byte order, exactly if it
      fits the type; a number that does not fit is cut off without an error. */
  lemma {:induction false} UnsignedRoundTrip(reader: bool, printer: bool, n: nat, v: nat)
    requires 1 <= n <= 8 && v < Word
    ensures DecodeUnsigned(printer, Encode(reader, n, v)) == v <==> v < Pow256(n)
  {
    hide Bytes, Val, Ordered, Loaded, Pow256;
    EncodedBytes(reader, n, v);
    var b := Bytes(v, n);
    OrderDropsOut(printer, 0, b);
    ValBelow(b);
    var q := ValOfBytes(v, n);
    Multiples(q, Pow256(n));
  }

  lemma {:induction false} SignedRoundTrip(reader: bool, printer: bool, n: nat, v: int)
    requires 1 <= n <= 8 && -(Word / 2) <= v < Word / 2
    ensures DecodeSigned(printer, Encode(reader, n, v)) == v <==> -(Pow256(n) as int) <= 2 * v < Pow256(n)
  {
    EncodedBytes(reader, n, v);
    var b := Bytes(Pattern(v), n);
    SignedValue(printer, b);
    ValBelow(b);
    var q := ValOfBytes(Pattern(v), n);
    WordLaps(n, q, v, Val(b));
  }

  /** With 2^64 a multiple of the range, only one number in range has these bytes. */
  lemma {:induction false} WordLaps(n: nat, q: nat, v: int, u: nat)
    requires 1 <= n <= 8 && -(Word / 2) <= v < Word / 2
    requires Pattern(v) == u + q * Pow256(n) && u < Pow256(n)
    ensures (if 2 * u >= Pow256(n) then u - Pow256(n) else u) == v <==> -(Pow256(n) as int) <= 2 * v < Pow256(n)
  {
    hide Pow256;
    Pow256Split(n);
    var p, k := Pow256(n), Pow256(8 - n);
    var m := if v < 0 then q - k else q;
    assert (q - k) * p == q * p - k * p;
    Unwrapped(u, m, p, v);
  }

  lemma {:induction false} Unwrapped(u: nat, m: int, p: nat, v: int)
    requires u < p && v == u + m * p
    ensures (if 2 * u >= p then u - p else u) == v <==> -(p as int) <= 2 * v < p
  {
    Multiples(m, p);
    if m == -1 { assert m * p == -(p as int); }
  }

  lemma {:induction false} Pow256Split(n: nat)
    requires n <= 8
    ensures Word == Pow256(8 - n) * Pow256(n)
    decreases 8 - n
  {
    if n == 8 {
      Pow256Eight();
    } else {
      Pow256Split(n + 1);
      var a, b := Pow256(7 - n), Pow256(n);
      assert Pow256(8 - n) == 256 * a && Pow256(n + 1) == 256 * b;
      assert (256 * a) * b == a * (256 * b);
    }
  }

  lemma {:induction false} Multiples(q: int, p: nat)
    ensures q >= 1 ==> q * p >= p
    ensures q == 0 ==> q * p == 0
    ensures q <= -1 ==> q * p <= -(p as int)
    ensures q <= -2 ==> q * p <= -2 * (p as int)
  {
    if q >= 1 {
      assert (q - 1) * p >= 0;
    } else if q <= -2 {
      assert (-q - 2) * p >= 0;
    }
  }
}
