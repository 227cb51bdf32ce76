/** Byte-addressed memory: the little-endian reading and writing of unsigned words that
    every instruction handler of the virtual machine performs through raw pointers. */
module Bytes {

  type Byte = x: int | 0 <= x < 256

  type Mem = seq<Byte>

  function Pow256(n: nat): (p: nat)
    ensures p >= 1
  {
    if n == 0 then 1 else 256 * Pow256(n - 1)
  }

  lemma Pow256One()
    ensures Pow256(1) == 256
  {
  }

  function Enc(n: nat, v: nat): (b: Mem)
    ensures |b| == n
  {
    if n == 0 then [] else [v % 256] + Enc(n - 1, v / 256)
  }

  function Dec(b: Mem): (v: nat)
    ensures v < Pow256(|b|)
  {
    if b == [] then 0 else b[0] + 256 * Dec(b[1..])
  }

  function Read(m: Mem, off: nat, n: nat): (v: nat)
    requires off + n <= |m|
    ensures v < Pow256(n)
  {
    Dec(m[off..off + n])
  }

  function Write(m: Mem, off: nat, n: nat, v: nat): (r: Mem)
    requires off + n <= |m|
    ensures |r| == |m|
  {
    m[..off] + Enc(n, v) + m[off + n..]
  }

  lemma {:induction false} DecEnc(n: nat, v: nat)
    requires v < Pow256(n)
    ensures Dec(Enc(n, v)) == v
  {
    if n > 0 {
      DecEnc(n - 1, v / 256);
      assert Enc(n, v)[1..] == Enc(n - 1, v / 256);
    }
  }

  lemma {:induction false} EncDec(b: Mem)
    ensures Enc(|b|, Dec(b)) == b
  {
    if b != [] {
      EncDec(b[1..]);
      assert Dec(b) % 256 == b[0] && Dec(b) / 256 == Dec(b[1..]);
      assert b == [b[0]] + b[1..];
    }
  }

  /** Equal-length byte strings are equal exactly when the words they encode are: memcmp is word equality. */
  lemma DecInjective(a: Mem, b: Mem)
    requires |a| == |b|
    ensures a == b <==> Dec(a) == Dec(b)
  {
    EncDec(a);
    EncDec(b);
  }

  lemma ReadBack(m: Mem, off: nat, n: nat, v: nat)
    requires off + n <= |m| && v < Pow256(n)
    ensures Read(Write(m, off, n, v), off, n) == v
  {
    DecEnc(n, v);
    assert Write(m, off, n, v)[off..off + n] == Enc(n, v);
  }

  /** A write changes no byte outside the slot it names. */
  lemma WriteFrame(m: Mem, off: nat, n: nat, v: nat, lo: nat, hi: nat)
    requires off + n <= |m| && lo <= hi <= |m|
    requires hi <= off || off + n <= lo
    ensures Write(m, off, n, v)[lo..hi] == m[lo..hi]
  {
  }

  lemma ReadElsewhere(m: Mem, off: nat, n: nat, v: nat, off': nat, n': nat)
    requires off + n <= |m| && off' + n' <= |m|
    requires off' + n' <= off || off + n <= off'
    ensures Read(Write(m, off, n, v), off', n') == Read(m, off', n')
  {
    WriteFrame(m, off, n, v, off', off' + n');
  }

  lemma SliceSlice(m: Mem, lo: nat, hi: nat, a: nat, b: nat)
    requires lo <= a <= b <= hi <= |m|
    ensures m[lo..hi][a - lo..b - lo] == m[a..b]
  {
    forall k | 0 <= k < b - a ensures m[lo..hi][a - lo..b - lo][k] == m[a..b][k] {
    }
  }

  lemma ReadAgree(m: Mem, m': Mem, lo: nat, hi: nat, off: nat, n: nat)
    requires hi <= |m| && hi <= |m'| && lo <= off && off + n <= hi
    requires m[lo..hi] == m'[lo..hi]
    ensures Read(m, off, n) == Read(m', off, n)
  {
    SliceSlice(m, lo, hi, off, off + n);
    SliceSlice(m', lo, hi, off, off + n);
  }

  lemma {:induction false} Pow256Split(a: nat, b: nat)
    ensures Pow256(a + b) == Pow256(a) * Pow256(b)
  {
    if a > 0 {
      Pow256Split(a - 1, b);
      assert Pow256(a + b) == 256 * (Pow256(a - 1) * Pow256(b));
      assert Pow256(a) * Pow256(b) == (256 * Pow256(a - 1)) * Pow256(b);
    }
  }

  lemma MulMono(p: nat, a: nat, b: nat)
    requires a <= b
    ensures p * a <= p * b
  {
  }

  lemma ModUnique(v: nat, p: nat, q: nat, r: nat)
    requires p > 0 && v == p * q + r && r < p
    ensures v % p == r && v / p == q
  {
    var q', r' := v / p, v % p;
    assert v == p * q' + r';
    if q > q' {
      MulMono(p, q' + 1, q);
    } else if q < q' {
      MulMono(p, q + 1, q');
    }
  }

  lemma ModStep(c: Byte, d: nat, p: nat)
    requires p > 0
    ensures (c + 256 * d) % (256 * p) == c + 256 * (d % p)
  {
    var q, r := d / p, d % p;
    assert 256 * (p * q) == (256 * p) * q;
    ModUnique(c + 256 * d, 256 * p, q, c + 256 * r);
  }

  /** Truncating a byte string keeps the word modulo the shorter width. */
  lemma {:induction false} DecPrefix(b: Mem, n: nat)
    requires n <= |b|
    ensures Dec(b[..n]) == Dec(b) % Pow256(n)
  {
    if n > 0 {
      DecPrefix(b[1..], n - 1);
      assert b[..n][1..] == b[1..][..n - 1];
      ModStep(b[0], Dec(b[1..]), Pow256(n - 1));
    } else {
      assert b[..0] == [];
    }
  }
}
