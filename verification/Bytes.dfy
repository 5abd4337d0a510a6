/** Bytes, little-endian fields, and placing a run of bytes into a larger one. */
module Bytes {

  type byte = x: int | 0 <= x < 256

  const TWO32: nat := 0x1_0000_0000
  const TWO64: nat := 0x1_0000_0000_0000_0000

  /** `v & mask` for a single-bit mask. */
  predicate On(v: byte, mask: byte)
    requires mask > 0
  {
    v as int / mask as int % 2 == 1
  }

  /** The end of a range as 64-bit arithmetic computes it. */
  function End(start: nat, len: nat): nat {
    (start + len) % TWO64
  }

  /** [a, a + n) and [b, b + m) over unbounded integers. */
  predicate RangesMeet(a: nat, n: nat, b: nat, m: nat) {
    a < b + m && b < a + n
  }

  /** Whichever of the two ranges reaches 2^64, the other ends at or below its start. */
  predicate ClearOfWrap(a: nat, n: nat, b: nat, m: nat) {
    (a + n >= TWO64 ==> b + m <= a) && (b + m >= TWO64 ==> a + n <= b)
  }

  /** What the overlap test with 64-bit ends lets through: exactly the ranges that do not meet,
      and those that only meet because the end of one wraps. */
  lemma WrappedTest(a: nat, n: nat, b: nat, m: nat)
    requires a < TWO64 && n < TWO64 && b < TWO64 && m < TWO64
    ensures a < End(b, m) && b < End(a, n) ==> RangesMeet(a, n, b, m)
    ensures !(a < End(b, m) && b < End(a, n)) ==> (RangesMeet(a, n, b, m) <==> !ClearOfWrap(a, n, b, m))
  {
    EndIs(a, n);
    EndIs(b, m);
    hide End;
  }

  lemma EndIs(a: nat, n: nat)
    requires a < TWO64 && n < TWO64
    ensures End(a, n) == if a + n < TWO64 then a + n else a + n - TWO64
  {
  }

  function Pow256(n: nat): (r: nat)
    ensures r > 0
  {
    if n == 0 then 1 else 256 * Pow256(n - 1)
  }

  lemma PowerValues()
    ensures Pow256(1) == 256 && Pow256(2) == 65536 && Pow256(4) == TWO32 && Pow256(8) == TWO64
  {
    assert Pow256(3) == 256 * Pow256(2);
    assert Pow256(5) == 256 * Pow256(4);
    assert Pow256(6) == 256 * Pow256(5);
    assert Pow256(7) == 256 * Pow256(6);
  }

  /** The low `n` bytes of `v`, least significant first: a store truncates to its width. */
  function Le(v: nat, n: nat): (r: seq<byte>)
    ensures |r| == n
  {
    if n == 0 then [] else [v % 256] + Le(v / 256, n - 1)
  }

  function FromLe(b: seq<byte>): nat {
    if b == [] then 0 else b[0] + 256 * FromLe(b[1..])
  }

  lemma {:induction false} FromLeOfLe(v: nat, n: nat)
    requires v < Pow256(n)
    ensures FromLe(Le(v, n)) == v
  {
    if n > 0 {
      FromLeOfLe(v / 256, n - 1);
      assert Le(v, n)[1..] == Le(v / 256, n - 1);
    }
  }

  lemma {:induction false} LeOfFromLe(b: seq<byte>)
    ensures FromLe(b) < Pow256(|b|) && Le(FromLe(b), |b|) == b
  {
    if b != [] {
      LeOfFromLe(b[1..]);
      LowDigit(b[0] as nat, FromLe(b[1..]));
      assert b == [b[0]] + b[1..];
    }
  }

  lemma LowDigit(d: nat, v: nat)
    requires d < 256
    ensures (d + 256 * v) % 256 == d && (d + 256 * v) / 256 == v
  {
  }

  lemma {:induction false} FromLeZeros(b: seq<byte>)
    requires forall k :: 0 <= k < |b| ==> b[k] == 0
    ensures FromLe(b) == 0
  {
    if b != [] {
      FromLeZeros(b[1..]);
    }
  }

  /** `m` with the bytes from `off` replaced by `d`. */
  function Put(m: seq<byte>, off: nat, d: seq<byte>): (r: seq<byte>)
    requires off + |d| <= |m|
    ensures |r| == |m|
    ensures forall k :: 0 <= k < |m| ==> r[k] == if off <= k < off + |d| then d[k - off] else m[k]
  {
    seq(|m|, k requires 0 <= k < |m| => if off <= k < off + |d| then d[k - off] else m[k])
  }

  function Zeros(n: nat): (r: seq<byte>)
    ensures |r| == n && forall k :: 0 <= k < n ==> r[k] == 0
  {
    seq(n, _ => 0)
  }

  /** The `n`-byte little-endian field at `off`. */
  function Load(m: seq<byte>, off: nat, n: nat): nat
    requires off + n <= |m|
  {
    FromLe(m[off..off + n])
  }

  lemma LoadStored(m: seq<byte>, off: nat, v: nat, n: nat)
    requires off + n <= |m| && v < Pow256(n)
    ensures Load(Put(m, off, Le(v, n)), off, n) == v
  {
    FromLeOfLe(v, n);
    assert Put(m, off, Le(v, n))[off..off + n] == Le(v, n);
  }

  /** A field is determined by its own bytes. */
  lemma LoadSame(m: seq<byte>, m': seq<byte>, off: nat, n: nat)
    requires off + n <= |m| && off + n <= |m'|
    requires forall k :: off <= k < off + n ==> m[k] == m'[k]
    ensures Load(m, off, n) == Load(m', off, n)
  {
    assert m[off..off + n] == m'[off..off + n];
  }

  lemma LoadZero(m: seq<byte>, off: nat, n: nat)
    requires off + n <= |m| && forall k :: off <= k < off + n ==> m[k] == 0
    ensures Load(m, off, n) == 0
  {
    FromLeZeros(m[off..off + n]);
  }

  lemma SliceIs(m: seq<byte>, off: nat, d: seq<byte>)
    requires off + |d| <= |m| && forall k :: 0 <= k < |d| ==> m[off + k] == d[k]
    ensures m[off..off + |d|] == d
  {
  }

  lemma SubSlice(m: seq<byte>, a: nat, n: nat, b: nat, k: nat)
    requires a + n <= |m| && b + k <= n
    ensures m[a + b..a + b + k] == m[a..a + n][b..b + k]
  {
    var s, t := m[a + b..a + b + k], m[a..a + n][b..b + k];
    assert |s| == |t| == k;
    forall i | 0 <= i < k ensures s[i] == t[i] {
      assert s[i] == m[a + b + i];
      assert t[i] == m[a..a + n][b + i];
    }
  }

  /** Runs of bytes one after the other. */
  function Flatten(es: seq<seq<byte>>): seq<byte> {
    if es == [] then [] else es[0] + Flatten(es[1..])
  }

  lemma {:induction false} FlattenAppend(es: seq<seq<byte>>, fs: seq<seq<byte>>)
    ensures Flatten(es + fs) == Flatten(es) + Flatten(fs)
  {
    if es == [] {
      assert es + fs == fs;
    } else {
      assert (es + fs)[1..] == es[1..] + fs;
      FlattenAppend(es[1..], fs);
    }
  }

  lemma FlattenOne(es: seq<seq<byte>>, e: seq<byte>)
    ensures Flatten(es + [e]) == Flatten(es) + e
  {
    FlattenAppend(es, [e]);
    assert [e][1..] == [];
    assert Flatten([e]) == e + Flatten([e][1..]);
  }
}
