/**
 The bytes that node hashes are computed over.

 A node header is the prefix length in bits (two bytes, big endian) followed by
 the prefix, packed two nibbles to the byte, with the unused half byte masked out.
 A leaf appends its value; a branch appends a 16-bit vector of its children and
 their hashes.  All variants of the trie share this encoding.
 */
module Digests {

  import opened Nibbles
  import opened Tries

  type Hash = h: Bytes | |h| == 32 witness seq(32, _ => 0)

  function BigEndian16(n: nat): Bytes {
    [n / 256 % 256, n % 256]
  }

  lemma BigEndian16Injective(n: nat, m: nat)
    requires n < 65536 && m < 65536 && BigEndian16(n) == BigEndian16(m)
    ensures n == m
  {
    assert BigEndian16(n)[0] == BigEndian16(m)[0] && BigEndian16(n)[1] == BigEndian16(m)[1];
  }

  function Pair(x: int, y: int): Byte
    requires 0 <= x < 16 && 0 <= y < 16
  {
    16 * x + y
  }

  /** Two nibbles to the byte, an odd last one padded with zero bits. */
  function Packed(p: Key): (bytes: Bytes)
    ensures |bytes| == (|p| + 1) / 2
  {
    if p == [] then []
    else if |p| == 1 then [Pair(p[0], 0)]
    else [Pair(p[0], p[1])] + Packed(p[2..])
  }

  /** The number of bytes to write is kept in an 8-bit variable. */
  function PrefixBytes(p: Key): Bytes {
    Packed(p)[..(|p| + 1) / 2 % 256]
  }

  /** The last byte written loses its lower half when the length is odd. */
  function Masked(bytes: Bytes, odd: bool): Bytes {
    if odd && bytes != [] then
      var last: int := bytes[|bytes| - 1];
      bytes[..|bytes| - 1] + [last - last % 16]
    else bytes
  }

  function Header(p: Key): Bytes {
    Masked(BigEndian16(4 * |p|) + PrefixBytes(p), |p| % 2 == 1)
  }

  /** Longest prefix, in nibbles, that a header holds in full. */
  const HEADER_NIBBLES: nat := 510

  lemma {:induction false} PackedInjective(p: Key, q: Key)
    requires |p| == |q| && Packed(p) == Packed(q)
    ensures p == q
  {
    if |p| == 1 {
      assert Packed(p)[0] == Packed(q)[0];
    } else if |p| > 1 {
      assert Packed(p)[0] == Packed(q)[0];
      assert Packed(p)[1..] == Packed(p[2..]) && Packed(q)[1..] == Packed(q[2..]);
      PackedInjective(p[2..], q[2..]);
      assert p == [p[0], p[1]] + p[2..] && q == [q[0], q[1]] + q[2..];
    }
  }

  /** A header, whatever follows it, determines length and prefix. */
  lemma HeaderInjective(p: Key, q: Key, x: Bytes, y: Bytes)
    requires |p| <= HEADER_NIBBLES && |q| <= HEADER_NIBBLES
    requires Header(p) + x == Header(q) + y
    ensures p == q && x == y
  {
    var a, b := Header(p) + x, Header(q) + y;
    HeaderIsWhole(p, x);
    HeaderIsWhole(q, y);
    assert a[..2] == BigEndian16(4 * |p|) && b[..2] == BigEndian16(4 * |q|);
    BigEndian16Injective(4 * |p|, 4 * |q|);
    PackedInjective(p, q);
  }

  lemma MaskIsIdle(bytes: Bytes, odd: bool)
    requires odd && bytes != [] ==> bytes[|bytes| - 1] % 16 == 0
    ensures Masked(bytes, odd) == bytes
  {
  }

  lemma HeaderIsWhole(p: Key, x: Bytes)
    requires |p| <= HEADER_NIBBLES
    ensures Header(p) == BigEndian16(4 * |p|) + Packed(p)
    ensures var n := (|p| + 1) / 2;
      var a := Header(p) + x;
      |a| >= n + 2 && a[2..n + 2] == Packed(p) && a[n + 2..] == x
  {
    FewBytes(|p|);
    assert PrefixBytes(p) == Packed(p);
    if |p| % 2 == 1 { OddIsPadded(p); }
    MaskAfter(BigEndian16(4 * |p|), Packed(p), |p| % 2 == 1);
    Slices(BigEndian16(4 * |p|), Packed(p), x);
  }

  lemma FewBytes(n: nat)
    requires n <= HEADER_NIBBLES
    ensures (n + 1) / 2 % 256 == (n + 1) / 2
  {
  }

  lemma MaskAfter(len: Bytes, bytes: Bytes, odd: bool)
    requires odd ==> bytes != [] && bytes[|bytes| - 1] % 16 == 0
    ensures Masked(len + bytes, odd) == len + bytes
  {
    if odd { assert (len + bytes)[|len + bytes| - 1] == bytes[|bytes| - 1]; }
    MaskIsIdle(len + bytes, odd);
  }

  lemma Slices(len: Bytes, bytes: Bytes, x: Bytes)
    ensures var a := len + bytes + x;
      && |a| == |len| + |bytes| + |x|
      && a[|len|..|len| + |bytes|] == bytes && a[|len| + |bytes|..] == x
  {
  }

  lemma {:induction false} OddIsPadded(p: Key)
    requires |p| % 2 == 1
    ensures Packed(p)[|Packed(p)| - 1] % 16 == 0
  {
    if |p| > 1 {
      OddIsPadded(p[2..]);
    }
  }

  lemma {:induction false} PackedPrefix(p: Key, x: Nibble, y: Nibble, m: nat)
    requires 2 * m <= |p|
    ensures m <= |Packed(p + [x])| == |Packed(p + [y])|
    ensures Packed(p + [x])[..m] == Packed(p + [y])[..m]
  {
    if m > 0 {
      assert (p + [x])[2..] == p[2..] + [x] && (p + [y])[2..] == p[2..] + [y];
      PackedPrefix(p[2..], x, y, m - 1);
      assert Packed(p + [x])[..m] == [Pair(p[0], p[1])] + Packed(p[2..] + [x])[..m - 1];
      assert Packed(p + [y])[..m] == [Pair(p[0], p[1])] + Packed(p[2..] + [y])[..m - 1];
    }
  }

  /** The bound is sharp: beyond it headers of equal length collide, whatever the rest of the prefix is. */
  lemma LongHeadersCollide(p: Key, x: Nibble, y: Nibble)
    requires |p| + 1 > HEADER_NIBBLES
    ensures Header(p + [x]) == Header(p + [y])
  {
    var n := |p| + 1;
    var m := (n + 1) / 2 % 256;
    assert m < (n + 1) / 2;
    PackedPrefix(p, x, y, m);
  }

  // ----- bit vectors and lists of hashes -----

  /** Bits `b` to `hi - 1` of the vector as a number, bit `b` counting one. */
  function Bits(S: set<Nibble>, b: nat, hi: nat): (n: nat)
    requires b <= hi <= 16
    decreases hi - b
  {
    if b == hi then 0 else (if b in S then 1 else 0) + 2 * Bits(S, b + 1, hi)
  }

  lemma {:induction false} BitsBound(S: set<Nibble>, b: nat, hi: nat, bound: nat)
    requires b <= hi <= 16 && bound == Power(hi - b)
    ensures Bits(S, b, hi) < bound
    decreases hi - b
  {
    if b < hi { BitsBound(S, b + 1, hi, Power(hi - b - 1)); }
  }

  function Power(n: nat): nat {
    if n == 0 then 1 else 2 * Power(n - 1)
  }

  function BitVector(S: set<Nibble>): Bytes {
    BitsBound(S, 8, 16, 256);
    BitsBound(S, 0, 8, 256);
    [Bits(S, 8, 16), Bits(S, 0, 8)]
  }

  lemma {:induction false} BitsInjective(S: set<Nibble>, T: set<Nibble>, b: nat, hi: nat, i: Nibble)
    requires b <= i < hi <= 16 && Bits(S, b, hi) == Bits(T, b, hi)
    ensures i in S <==> i in T
    decreases hi - b
  {
    if b < i { BitsInjective(S, T, b + 1, hi, i); }
  }

  lemma BitVectorInjective(S: set<Nibble>, T: set<Nibble>)
    requires BitVector(S) == BitVector(T)
    ensures S == T
  {
    assert BitVector(S)[0] == BitVector(T)[0] && BitVector(S)[1] == BitVector(T)[1];
    forall i: Nibble ensures i in S <==> i in T {
      if i < 8 { BitsInjective(S, T, 0, 8, i); } else { BitsInjective(S, T, 8, 16, i); }
    }
  }

  /** The hashes of slots `b` and up, in order. */
  function Concat(m: map<Nibble, Hash>, b: nat): Bytes
    requires b <= 16
    decreases 16 - b
  {
    if b == 16 then [] else (if b in m then m[b] else []) + Concat(m, b + 1)
  }

  lemma {:induction false} ConcatInjective(m: map<Nibble, Hash>, n: map<Nibble, Hash>, b: nat, i: Nibble)
    requires m.Keys == n.Keys && b <= i && Concat(m, b) == Concat(n, b)
    ensures i in m ==> m[i] == n[i]
    decreases 16 - b
  {
    if b in m {
      SameHalves(m[b], Concat(m, b + 1), n[b], Concat(n, b + 1));
    } else {
      SameHalves([], Concat(m, b + 1), [], Concat(n, b + 1));
    }
    if b < i { ConcatInjective(m, n, b + 1, i); }
  }

  /** Two splits of one string at the same place are the same. */
  lemma SameHalves(x: Bytes, y: Bytes, z: Bytes, w: Bytes)
    requires x + y == z + w && |x| == |z|
    ensures x == z && y == w
  {
    assert x == (x + y)[..|x|] && z == (z + w)[..|x|];
    assert y == (x + y)[|x|..] && w == (z + w)[|x|..];
  }

  // ----- digests -----

  function LeafDigest(k: Key, value: Bytes): Bytes {
    Header(k) + value
  }

  function BranchDigest(p: Key, m: map<Nibble, Hash>): Bytes {
    Header(p) + (BitVector(m.Keys) + Concat(m, 0))
  }

  /** A branch digest determines prefix, children and their hashes. */
  lemma BranchDigestInjective(p: Key, m: map<Nibble, Hash>, q: Key, n: map<Nibble, Hash>)
    requires |p| <= HEADER_NIBBLES && |q| <= HEADER_NIBBLES && BranchDigest(p, m) == BranchDigest(q, n)
    ensures p == q && m == n
  {
    HeaderInjective(p, q, BitVector(m.Keys) + Concat(m, 0), BitVector(n.Keys) + Concat(n, 0));
    TailInjective(m, n);
  }

  /** What follows the header of a branch determines its children and their hashes. */
  lemma TailInjective(m: map<Nibble, Hash>, n: map<Nibble, Hash>)
    requires BitVector(m.Keys) + Concat(m, 0) == BitVector(n.Keys) + Concat(n, 0)
    ensures m == n
  {
    SameHalves(BitVector(m.Keys), Concat(m, 0), BitVector(n.Keys), Concat(n, 0));
    BitVectorInjective(m.Keys, n.Keys);
    forall i | i in m ensures m[i] == n[i] {
      ConcatInjective(m, n, 0, i);
    }
  }
}
