/**
 Keys as byte arrays, two nibbles to the byte, and the operations on prefixes that
 the source carries out byte by byte.  Lengths are in bits.
 */
module Prefixes {

  import opened Nibbles
  import opened Tries
  import opened Digests
  import opened BatchItems

  function High(b: Byte): Nibble {
    b as int / 16
  }

  function Low(b: Byte): Nibble {
    b as int % 16
  }

  /** The nibbles of a byte array, the higher half of each byte first. */
  function NibblesOf(data: Bytes): (k: Key)
    ensures |k| == 2 * |data|
  {
    if data == [] then [] else [High(data[0]), Low(data[0])] + NibblesOf(data[1..])
  }

  lemma {:induction false} NibbleAt(data: Bytes, i: nat)
    requires i < |data|
    ensures NibblesOf(data)[2 * i] == High(data[i]) && NibblesOf(data)[2 * i + 1] == Low(data[i])
  {
    if i > 0 { NibbleAt(data[1..], i - 1); }
  }

  lemma HalfAt(data: Bytes, i: nat)
    requires i < 2 * |data|
    ensures i / 2 < |data| && NibblesOf(data)[i] == if i % 2 == 0 then High(data[i / 2]) else Low(data[i / 2])
  {
    var h := i / 2;
    assert i == 2 * h || i == 2 * h + 1;
    NibbleAt(data, h);
  }

  /** Packing the nibbles of an array gives the array back. */
  lemma {:induction false} PackedNibbles(data: Bytes)
    ensures Packed(NibblesOf(data)) == data
  {
    if data != [] {
      PackedNibbles(data[1..]);
      assert NibblesOf(data)[2..] == NibblesOf(data[1..]);
      assert Pair(High(data[0]), Low(data[0])) == data[0];
    }
  }

  lemma HalvesDecide(a: Byte, b: Byte)
    ensures a == b <==> High(a) == High(b) && Low(a) == Low(b)
  {
  }

  lemma Offsets(i: nat)
    ensures 4 * i / 8 == i / 2 && 4 * i % 8 == 4 * (i % 2)
  {
  }

  // ----- where byte arrays part -----

  lemma {:induction false} SameBytes(a: Bytes, b: Bytes, n: nat)
    requires n <= |a| && n <= |b| && forall i | 0 <= i < n :: a[i] == b[i]
    ensures forall i | 0 <= i < 2 * n :: NibblesOf(a)[i] == NibblesOf(b)[i]
  {
    forall i | 0 <= i < 2 * n ensures NibblesOf(a)[i] == NibblesOf(b)[i] {
      NibbleAt(a, i / 2);
      NibbleAt(b, i / 2);
    }
  }

  /** Where the bytes first differ, their halves tell the match length. */
  lemma DifferenceIsMatch(a: Bytes, b: Bytes, j: nat)
    requires |a| == |b| && j < |a| && a[j] != b[j] && forall i | 0 <= i < j :: a[i] == b[i]
    ensures MatchLen(NibblesOf(a), NibblesOf(b)) == 2 * j + if High(a[j]) == High(b[j]) then 1 else 0
  {
    SameBytes(a, b, j);
    NibbleAt(a, j);
    NibbleAt(b, j);
    HalvesDecide(a[j], b[j]);
    MatchInPair(NibblesOf(a), NibblesOf(b), j);
  }

  lemma MatchInPair(x: Key, y: Key, j: nat)
    requires 2 * j + 1 < |x| && |x| == |y| && forall i | 0 <= i < 2 * j :: x[i] == y[i]
    requires x[2 * j] != y[2 * j] || x[2 * j + 1] != y[2 * j + 1]
    ensures MatchLen(x, y) == if x[2 * j] == y[2 * j] then 2 * j + 1 else 2 * j
  {
    var n := if x[2 * j] == y[2 * j] then 2 * j + 1 else 2 * j;
    assert x[..n] == y[..n];
    MatchLenUnique(x, y, n);
  }

  // ----- setting branch bits -----

  /** `set_next_branch_bits`: one byte is masked and filled; a length beyond the end throws. */
  function SetNextBranchBits(data: Bytes, len: nat, bb: Nibble): Option<Bytes> {
    if len / 8 >= |data| then None
    else Some(data[len / 8 := if len % 8 == 0 then Pair(bb, 0) else Pair(High(data[len / 8]), bb)])
  }

  /** `x` is `k` with nibble `i` set to `bb` and, within the same byte, the nibble after it cleared. */
  predicate NibbleSet(k: Key, x: Key, i: nat, bb: Nibble) {
    && |x| == |k|
    && forall j | 0 <= j < |k| :: x[j] == if j == i then bb else if i % 2 == 0 && j == i + 1 then 0 else k[j]
  }

  lemma NextBranchBitsAreSet(data: Bytes, i: nat, bb: Nibble) returns (r: Bytes)
    requires i < 2 * |data|
    ensures SetNextBranchBits(data, 4 * i, bb) == Some(r) && NibbleSet(NibblesOf(data), NibblesOf(r), i, bb)
  {
    Offsets(i);
    var at := i / 2;
    var byte := if i % 2 == 0 then Pair(bb, 0) else Pair(High(data[at]), bb);
    r := data[at := byte];
    PairHalves(bb, 0);
    PairHalves(High(data[at]), bb);
    forall j | 0 <= j < 2 * |data|
      ensures NibblesOf(r)[j] == if j == i then bb else if i % 2 == 0 && j == i + 1 then 0 else NibblesOf(data)[j]
    {
      HalfAt(r, j);
      HalfAt(data, j);
    }
  }

  lemma PairHalves(x: Nibble, y: Nibble)
    ensures High(Pair(x, y)) == x && Low(Pair(x, y)) == y
  {
  }

  /** The one nibble is set and nothing else changes exactly when the rest of its byte is not there to lose. */
  lemma SetsOneNibble(data: Bytes, i: nat, bb: Nibble) returns (r: Bytes)
    requires i < 2 * |data|
    ensures SetNextBranchBits(data, 4 * i, bb) == Some(r)
    ensures NibblesOf(r) == NibblesOf(data)[i := bb] <==> i % 2 == 1 || NibblesOf(data)[i + 1] == 0
  {
    r := NextBranchBitsAreSet(data, i, bb);
    OneNibble(NibblesOf(data), NibblesOf(r), i, bb);
  }

  lemma OneNibble(k: Key, x: Key, i: nat, bb: Nibble)
    requires i < |k| && (i % 2 == 0 ==> i + 1 < |k|) && NibbleSet(k, x, i, bb)
    ensures x == k[i := bb] <==> i % 2 == 1 || k[i + 1] == 0
  {
    if i % 2 == 0 { assert x[i + 1] == 0 && k[i := bb][i + 1] == k[i + 1]; }
  }

  // ----- order -----

  /** `memcmp(a, b) < 0`. */
  predicate BytesLess(a: Bytes, b: Bytes)
    requires |a| == |b|
  {
    a != [] && (a[0] < b[0] || (a[0] == b[0] && BytesLess(a[1..], b[1..])))
  }

  /** Byte order is the lexicographic order of the nibbles. */
  lemma {:induction false} OrderIsLexicographic(a: Bytes, b: Bytes)
    requires |a| == |b|
    ensures BytesLess(a, b) <==> Less(NibblesOf(a), NibblesOf(b))
  {
    if a != [] {
      var x, y := NibblesOf(a), NibblesOf(b);
      if a[0] != b[0] {
        DifferenceIsMatch(a, b, 0);
      } else {
        OrderIsLexicographic(a[1..], b[1..]);
        assert x == [x[0], x[1]] + NibblesOf(a[1..]) && y == [x[0], x[1]] + NibblesOf(b[1..]);
        LessAfter([x[0], x[1]], NibblesOf(a[1..]), NibblesOf(b[1..]));
      }
    }
  }

  /** A common front does not matter. */
  lemma LessAfter(front: Key, x: Key, y: Key)
    requires |x| == |y|
    ensures Less(front + x, front + y) <==> Less(x, y)
  {
    var n := MatchLen(x, y);
    assert (front + x)[..|front| + n] == front + x[..n] && (front + y)[..|front| + n] == front + y[..n];
    MatchLenUnique(front + x, front + y, |front| + n);
  }
}
