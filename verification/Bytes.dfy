/** Bytes, 32-bit words and their little-endian layout.
    Every mask and shift of the driver is written as division and remainder, so that a
    field of a word is `w / weight % range`. */
module Bytes {
  type byte = n: int | 0 <= n < 0x100

  type word = n: int | 0 <= n < 0x1_0000_0000

  datatype Option<+T> = None | Some(value: T)

  /** The single-bit test `(x & weight) != 0`, for a weight that is a power of two. */
  predicate Bit(x: nat, weight: nat)
    requires weight > 0
  {
    x / weight % 2 == 1
  }

  lemma Multiple(m: nat, k: nat)
    requires k > 0
    ensures m * k >= m
  {
  }

  lemma Distribute(m: nat, a: int, b: int)
    ensures m * a - m * b == m * (a - b)
  {
  }

  /** Division and remainder of a number written as low part plus multiple. */
  lemma DivMod(m: nat, low: nat, q: nat)
    requires low < m
    ensures (low + m * q) / m == q && (low + m * q) % m == low
  {
    var mq := m * q;
    var x := low + mq;
    var d, r := x / m, x % m;
    var md := m * d;
    assert x == md + r;
    if d > q {
      Distribute(m, d, q);
      Multiple(m, d - q);
      assert false;
    } else if d < q {
      Distribute(m, q, d);
      Multiple(m, q - d);
      assert false;
    }
  }

  lemma MixedRadix(a: nat, b: nat, r: nat, s: nat, t: nat)
    requires r < a && s < b
    ensures r + a * (s + b * t) == r + a * s + a * b * t && r + a * s < a * b
  {
    Distribute(a, b, s);
    Multiple(a, b - s);
    assert a * (b * t) == a * b * t;
  }

  lemma Quotient(w: nat, a: nat, b: nat, r: nat, s: nat, t: nat)
    requires r < a && s < b && w == r + a * (s + b * t)
    ensures a * b > 0 && w / (a * b) == t
  {
    MixedRadix(a, b, r, s, t);
    DivMod(a * b, r + a * s, t);
  }

  lemma DivDiv(w: nat, a: nat, b: nat)
    requires a > 0 && b > 0
    ensures a * b > 0 && w / (a * b) == w / a / b
  {
    Quotient(w, a, b, w % a, w / a % b, w / a / b);
  }

  function Enc16(v: nat): (s: seq<byte>)
    ensures |s| == 2
  {
    [v % 0x100, v / 0x100 % 0x100]
  }

  function Enc32(v: nat): (s: seq<byte>)
    ensures |s| == 4
  {
    [v % 0x100, v / 0x100 % 0x100, v / 0x1_0000 % 0x100, v / 0x100_0000 % 0x100]
  }

  /** The word with these bytes, least significant first. */
  function Word(a: int, b: int, c: int, d: int): int {
    a + 0x100 * b + 0x1_0000 * c + 0x100_0000 * d
  }

  lemma Enc32Word(a: byte, b: byte, c: byte, d: byte)
    ensures Enc32(Word(a, b, c, d)) == [a, b, c, d]
  {
    var b', c', d' := b as int, c as int, d as int;
    var v := Word(a, b, c, d);
    DivMod(0x100, a, b' + 0x100 * c' + 0x1_0000 * d');
    DivMod(0x100, b, c' + 0x100 * d');
    DivMod(0x1_0000, a as int + 0x100 * b', c' + 0x100 * d');
    DivMod(0x100, c, d');
    DivMod(0x100_0000, a as int + 0x100 * b' + 0x1_0000 * c', d');
    assert v / 0x100 == b' + 0x100 * c' + 0x1_0000 * d';
  }

  function Le16(s: seq<byte>, off: nat): nat
    requires off + 2 <= |s|
  {
    s[off] as int + 0x100 * (s[off + 1] as int)
  }

  function Le32(s: seq<byte>, off: nat): word
    requires off + 4 <= |s|
  {
    Word(s[off], s[off + 1], s[off + 2], s[off + 3])
  }

  lemma Le32Enc32(v: word)
    ensures Le32(Enc32(v), 0) == v
  {
    var q1 := v / 0x100;
    var q2 := q1 / 0x100;
    var q3 := q2 / 0x100;
    DivMod(0x1_0000, v % 0x100 + 0x100 * (q1 % 0x100), q2);
    DivMod(0x100_0000, v % 0x100 + 0x100 * (q1 % 0x100) + 0x1_0000 * (q2 % 0x100), q3);
  }

  function Enc32All(ws: seq<word>): (s: seq<byte>)
    ensures |s| == 4 * |ws|
    decreases ws
  {
    if ws == [] then [] else Enc32(ws[0]) + Enc32All(ws[1..])
  }

  /** The bytes b stand at idx. */
  ghost predicate Stands(buf: seq<byte>, idx: nat, b: seq<byte>) {
    idx + |b| <= |buf| && forall k :: 0 <= k < |b| ==> b[k] == buf[idx + k]
  }

  lemma StandsSplit(buf: seq<byte>, idx: nat, a: seq<byte>, b: seq<byte>)
    requires Stands(buf, idx, a + b)
    ensures Stands(buf, idx, a) && Stands(buf, idx + |a|, b)
  {
    forall k | 0 <= k < |a|
      ensures a[k] == buf[idx + k]
    {
      assert (a + b)[k] == a[k];
    }
    forall k | 0 <= k < |b|
      ensures b[k] == buf[idx + |a| + k]
    {
      assert (a + b)[|a| + k] == b[k];
    }
  }

  lemma StandsJoin(buf: seq<byte>, idx: nat, a: seq<byte>, b: seq<byte>)
    requires Stands(buf, idx, a) && Stands(buf, idx + |a|, b)
    ensures Stands(buf, idx, a + b)
  {
    forall k | 0 <= k < |a + b|
      ensures (a + b)[k] == buf[idx + k]
    {
      if k >= |a| {
        assert (a + b)[k] == b[k - |a|];
      }
    }
  }

  lemma Le32Stands(buf: seq<byte>, idx: nat, v: word)
    requires Stands(buf, idx, Enc32(v))
    ensures Le32(buf, idx) == v
  {
    Le32Enc32(v);
    var e := Enc32(v);
    assert e[0] == buf[idx] && e[1] == buf[idx + 1] && e[2] == buf[idx + 2] && e[3] == buf[idx + 3];
  }

  function Zeros(n: nat): (s: seq<byte>)
    ensures |s| == n
  {
    seq(n, _ => 0)
  }

  /** The natural numbers below n, in order: the serial numbers handed out so far. */
  function Upto(n: nat): (s: seq<nat>)
    ensures |s| == n && forall i :: 0 <= i < n ==> s[i] == i
  {
    seq(n, i => i)
  }

  lemma UptoSuccessor(n: nat)
    ensures Upto(n + 1) == Upto(n) + [n]
    ensures multiset(Upto(n + 1)) == multiset(Upto(n)) + multiset{n}
  {
    assert Upto(n + 1) == Upto(n) + [n];
  }

  ghost predicate Ascending(s: seq<nat>) {
    forall i, j :: 0 <= i < j < |s| ==> s[i] < s[j]
  }
}
