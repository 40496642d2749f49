/** Bytes, machine integers, the little-endian 32-bit codec and flattening of chunk lists. */
module Common {

  const TWO_32: int := 0x1_0000_0000

  type Byte = b: int | 0 <= b < 0x100
  type U32 = n: int | 0 <= n < 0x1_0000_0000

  type Bytes = seq<Byte>

  datatype Option<+T> = None | Some(value: T)

  /** The four bytes of a `uint32_t` on the little-endian machines the program targets. */
  function LE32(n: U32): (b: Bytes)
    ensures |b| == 4
  {
    [n % 0x100, n / 0x100 % 0x100, n / 0x1_0000 % 0x100, n / 0x100_0000]
  }

  function FromLE32(b: Bytes): U32
    requires |b| == 4
  {
    var b0: int, b1: int, b2: int, b3: int := b[0], b[1], b[2], b[3];
    b0 + 0x100 * b1 + 0x1_0000 * b2 + 0x100_0000 * b3
  }

  /** Least significant byte first, and no other four bytes are the number. */
  lemma LE32IsLittleEndian(n: U32, b0: Byte, b1: Byte, b2: Byte, b3: Byte)
    ensures LE32(n) == [b0, b1, b2, b3] <==> n == b0 + 0x100 * b1 + 0x1_0000 * b2 + 0x100_0000 * b3
    ensures FromLE32([b0, b1, b2, b3]) == b0 + 0x100 * b1 + 0x1_0000 * b2 + 0x100_0000 * b3
  {
    LE32RoundTrip(n);
    LE32Inverse([b0, b1, b2, b3]);
  }

  lemma LE32RoundTrip(n: U32)
    ensures FromLE32(LE32(n)) == n
  {
    assert n / 0x1_0000 == n / 0x100 / 0x100;
    assert n / 0x100_0000 == n / 0x1_0000 / 0x100;
  }

  lemma LE32Inverse(b: Bytes)
    requires |b| == 4
    ensures LE32(FromLE32(b)) == b
  {
    var b0: int, b1: int, b2: int, b3: int := b[0], b[1], b[2], b[3];
    var n: int := FromLE32(b);
    assert n == b0 + 0x100 * (b1 + 0x100 * (b2 + 0x100 * b3));
    assert n % 0x100 == b0;
    assert n / 0x100 == b1 + 0x100 * b2 + 0x1_0000 * b3;
    assert n / 0x1_0000 == b2 + 0x100 * b3;
    assert n / 0x100_0000 == b3;
  }

  function Flatten<T>(ss: seq<seq<T>>): (s: seq<T>)
  {
    if ss == [] then [] else ss[0] + Flatten(ss[1..])
  }

  lemma {:induction false} FlattenAppend<T>(a: seq<seq<T>>, b: seq<seq<T>>)
    ensures Flatten(a + b) == Flatten(a) + Flatten(b)
  {
    if a == [] {
      assert a + b == b;
    } else {
      assert (a + b)[1..] == a[1..] + b;
      FlattenAppend(a[1..], b);
    }
  }

  lemma FlattenSnoc<T>(a: seq<seq<T>>, x: seq<T>)
    ensures Flatten(a + [x]) == Flatten(a) + x
  {
    FlattenAppend(a, [x]);
    assert Flatten([x]) == x;
  }

  lemma LtFromMul(a: int, b: int, p: nat)
    requires a * p < b * p
    ensures a < b
  {
  }

  /** The quotient of unsigned division, by repeated subtraction. */
  function Div(a: nat, p: nat): nat
    requires 0 < p
    decreases a
  {
    if a < p then 0 else 1 + Div(a - p, p)
  }

  lemma {:induction false} DivBounds(a: nat, p: nat)
    requires 0 < p
    ensures Div(a, p) * p <= a < Div(a, p) * p + p
    ensures Div(a, p) <= a
    decreases a
  {
    if p <= a {
      DivBounds(a - p, p);
      assert (1 + Div(a - p, p)) * p == p + Div(a - p, p) * p;
    }
  }

  lemma QuotientUnique(a: int, p: nat, q: int, d: int)
    requires q * p <= a < q * p + p && d * p <= a < d * p + p
    ensures q == d
  {
    assert (q + 1) * p == q * p + p && (d + 1) * p == d * p + p;
    LtFromMul(d, q + 1, p);
    LtFromMul(q, d + 1, p);
  }

  lemma DivIsQuotient(a: nat, p: nat)
    requires 0 < p
    ensures Div(a, p) == a / p
  {
    DivBounds(a, p);
    var q := a / p;
    assert a == q * p + a % p;
    QuotientUnique(a, p, q, Div(a, p));
  }

  lemma AppendAssoc<T>(a: seq<T>, b: seq<T>, c: seq<T>)
    ensures a + b + c == a + (b + c)
  {
  }

  lemma SubSub<T>(s: seq<T>, p: nat, q: nat, a: nat, b: nat)
    requires p <= q <= |s| && a <= b <= q - p
    ensures s[p..q][a..b] == s[p + a..p + b]
  {
    var x, y := s[p..q][a..b], s[p + a..p + b];
    forall i | 0 <= i < b - a ensures x[i] == y[i] {
      assert x[i] == s[p..q][a + i];
    }
    assert x == y;
  }

  lemma UpdateTwice<K, V>(m: map<K, V>, k: K, x: V, y: V)
    ensures m[k := x][k := y] == m[k := y]
  {
  }
}
