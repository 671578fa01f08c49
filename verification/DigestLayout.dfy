/**
 The layout of the hashed bytes, position by position.

 The other modules need of a digest only what it determines.  Here is where each
 part of it stands, so that the bytes can be told from any others that would
 determine as much.
 */
module DigestLayout {

  import opened Nibbles
  import opened Tries
  import opened Digests

  /** The number that two bytes stand for, the most significant first. */
  function Read16(d: Bytes): nat
    requires |d| == 2
  {
    var high: int, low: int := d[0], d[1];
    256 * high + low
  }

  /** Nibble `i` of a byte string, upper halves first. */
  function NibbleIn(d: Bytes, i: nat): int
    requires i / 2 < |d|
  {
    if i % 2 == 0 then d[i / 2] / 16 else d[i / 2] % 16
  }

  /** Bit `i` of a number, the least significant being bit zero. */
  predicate Bit(n: nat, i: nat) {
    if i == 0 then n % 2 == 1 else Bit(n / 2, i - 1)
  }

  // ----- headers -----

  lemma {:induction false} PackedAt(p: Key, i: nat)
    requires i < |p|
    ensures i / 2 < |Packed(p)| && NibbleIn(Packed(p), i) == p[i]
  {
    if i >= 2 {
      PackedAt(p[2..], i - 2);
      assert Packed(p)[i / 2] == Packed(p[2..])[(i - 2) / 2];
    }
  }

  lemma HeaderParts(p: Key)
    requires |p| <= HEADER_NIBBLES
    ensures var d := Header(p);
      |d| == 2 + (|p| + 1) / 2 && d[..2] == BigEndian16(4 * |p|) && Read16(d[..2]) == 4 * |p| && d[2..] == Packed(p)
  {
    HeaderIsWhole(p, []);
    TwoParts(BigEndian16(4 * |p|), Packed(p));
    ReadLength(4 * |p|);
  }

  lemma TwoParts(x: Bytes, y: Bytes)
    requires |x| == 2
    ensures |x + y| == 2 + |y| && (x + y)[..2] == x && (x + y)[2..] == y
  {
  }

  lemma ReadLength(n: nat)
    requires n < 0x1_0000
    ensures Read16(BigEndian16(n)) == n
  {
  }

  /** A header is the length in bits, then the nibbles, and zeros in a half byte left over. */
  lemma HeaderLayout(p: Key)
    requires |p| <= HEADER_NIBBLES
    ensures var d := Header(p);
      && |d| == 2 + (|p| + 1) / 2 && Read16(d[..2]) == 4 * |p|
      && (forall i | 0 <= i < |p| :: NibbleIn(d[2..], i) == p[i])
      && (|p| % 2 == 1 ==> NibbleIn(d[2..], |p|) == 0)
  {
    HeaderParts(p);
    var d := Header(p);
    forall i | 0 <= i < |p| ensures NibbleIn(d[2..], i) == p[i] {
      PackedAt(p, i);
    }
    if |p| % 2 == 1 { OddIsPadded(p); }
  }

  // ----- bit vectors -----

  lemma {:induction false} BitOf(S: set<Nibble>, b: nat, hi: nat, i: nat)
    requires b + i < hi <= 16
    ensures Bit(Bits(S, b, hi), i) <==> b + i in S
    decreases i
  {
    if i > 0 {
      BitOf(S, b + 1, hi, i - 1);
      assert Bits(S, b, hi) / 2 == Bits(S, b + 1, hi);
    }
  }

  /** `x` doubled `n` times. */
  function Doubled(n: nat, x: nat): nat {
    if n == 0 then x else 2 * Doubled(n - 1, x)
  }

  lemma {:induction false} BitsApart(S: set<Nibble>, b: nat, mid: nat, hi: nat)
    requires b <= mid <= hi <= 16
    ensures Bits(S, b, hi) == Bits(S, b, mid) + Doubled(mid - b, Bits(S, mid, hi))
    decreases mid - b
  {
    if b < mid { BitsApart(S, b + 1, mid, hi); }
  }

  lemma BitVectorLayout(S: set<Nibble>, i: Nibble)
    ensures |BitVector(S)| == 2 && (Bit(Read16(BitVector(S)), i) <==> i in S)
  {
    ReadVector(S);
    EightTimes(Bits(S, 8, 16));
    WholeVector(S, 0, 8, 16, i);
  }

  lemma WholeVector(S: set<Nibble>, b: nat, mid: nat, hi: nat, i: nat)
    requires b <= mid <= hi <= 16 && b + i < hi
    ensures Bit(Doubled(mid - b, Bits(S, mid, hi)) + Bits(S, b, mid), i) <==> b + i in S
  {
    BitsApart(S, b, mid, hi);
    BitOf(S, b, hi, i);
  }

  lemma EightTimes(x: nat)
    ensures Doubled(8, x) == 256 * x
  {
    assert Doubled(1, x) == 2 * x;
    assert Doubled(2, x) == 4 * x;
    assert Doubled(4, x) == 16 * x;
    assert Doubled(6, x) == 64 * x;
  }

  lemma ReadVector(S: set<Nibble>)
    ensures |BitVector(S)| == 2 && Read16(BitVector(S)) == 256 * Bits(S, 8, 16) + Bits(S, 0, 8)
  {
  }

  // ----- lists of hashes -----

  /** The members of `S` from `b` to before `i`. */
  ghost function Between(S: set<Nibble>, b: nat, i: nat): set<Nibble> {
    set j | j in S && b <= j < i
  }

  lemma BetweenStep(S: set<Nibble>, b: Nibble, i: nat)
    requires b < i
    ensures |Between(S, b, i)| == |Between(S, b + 1, i)| + if b in S then 1 else 0
  {
    assert Between(S, b, i) == Between(S, b + 1, i) + if b in S then {b} else {};
  }

  /** The hash of slot `i` stands after those of the occupied slots before it. */
  lemma {:induction false} ConcatLayout(m: map<Nibble, Hash>, b: nat, i: nat)
    requires b <= i <= 16
    ensures var r := 32 * |Between(m.Keys, b, i)|;
      && r <= |Concat(m, b)|
      && (i in m && i < 16 ==> r + 32 <= |Concat(m, b)| && Concat(m, b)[r..r + 32] == m[i])
      && (i == 16 ==> r == |Concat(m, b)|)
    decreases i - b
  {
    if b < i {
      ConcatLayout(m, b + 1, i);
      BetweenStep(m.Keys, b, i);
      Shifted(if b in m then m[b] else [], Concat(m, b + 1), 32 * |Between(m.Keys, b + 1, i)|);
    } else {
      assert Between(m.Keys, b, i) == {};
      if i in m && i < 16 { assert Concat(m, b)[..32] == m[i]; }
    }
  }

  lemma Shifted(h: Bytes, z: Bytes, r: nat)
    ensures r + 32 <= |z| ==> (h + z)[|h| + r..|h| + r + 32] == z[r..r + 32]
  {
  }

  lemma ConcatLength(m: map<Nibble, Hash>)
    ensures |Concat(m, 0)| == 32 * |m|
  {
    ConcatLayout(m, 0, 16);
    assert Between(m.Keys, 0, 16) == m.Keys && |m| == |m.Keys|;
  }

  lemma Parts(h: Bytes, v: Bytes, c: Bytes)
    requires |v| == 2
    ensures var d := h + (v + c);
      |d| == |h| + 2 + |c| && d[..|h|] == h && d[|h|..|h| + 2] == v && d[|h| + 2..] == c
  {
  }

  lemma BranchParts(p: Key, m: map<Nibble, Hash>)
    ensures var d, n := BranchDigest(p, m), |Header(p)|;
      && |d| == n + 2 + 32 * |m| && d[..n] == Header(p)
      && d[n..n + 2] == BitVector(m.Keys) && d[n + 2..] == Concat(m, 0)
  {
    ConcatLength(m);
    Parts(Header(p), BitVector(m.Keys), Concat(m, 0));
  }

  /**
   A branch digest is the header of the prefix, the set of occupied slots as two bytes,
   and the hashes of these slots in order.
   */
  lemma BranchLayout(p: Key, m: map<Nibble, Hash>, n: nat, bits: Bytes, hashes: Bytes, i: Nibble)
    requires n == |Header(p)| && n + 2 <= |BranchDigest(p, m)|
    requires bits == BranchDigest(p, m)[n..n + 2] && hashes == BranchDigest(p, m)[n + 2..]
    ensures BranchDigest(p, m)[..n] == Header(p) && |bits| == 2 && |hashes| == 32 * |m|
    ensures Bit(Read16(bits), i) <==> i in m
    ensures i in m ==>
      var r := 32 * |Between(m.Keys, 0, i)|; r + 32 <= |hashes| && hashes[r..r + 32] == m[i]
  {
    BranchParts(p, m);
    BitVectorLayout(m.Keys, i);
    PlaceIn(m, 0, i, hashes);
  }

  lemma PlaceIn(m: map<Nibble, Hash>, b: nat, i: Nibble, hashes: Bytes)
    requires b <= i && hashes == Concat(m, b)
    ensures i in m ==>
      var r := 32 * |Between(m.Keys, b, i)|; r + 32 <= |hashes| && hashes[r..r + 32] == m[i]
  {
    ConcatLayout(m, b, i);
  }
}
