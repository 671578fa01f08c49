/**
 Keys as sequences of 4-bit branch values.

 Every trie of the library branches sixteen ways, so a key of `n` bits is a
 sequence of `n / 4` nibbles and a node prefix is an initial part of one.
 `p <= k` is Dafny's prefix order on sequences, `p < k` the proper one.
 */
module Nibbles {

  type Nibble = n: int | 0 <= n < 16

  type Key = seq<Nibble>

  datatype Option<+T> = None | Some(value: T)

  /** Length of the longest common prefix (`get_prefix_match_len` on whole keys). */
  function MatchLen(a: Key, b: Key): (len: nat)
    ensures len <= |a| && len <= |b|
    ensures a[..len] == b[..len]
    ensures len < |a| && len < |b| ==> a[len] != b[len]
  {
    if a == [] || b == [] || a[0] != b[0] then 0
    else
      assert forall n | 0 <= n < |a| :: a[1..][..n] == a[1..n + 1];
      assert forall n | 0 <= n < |b| :: b[1..][..n] == b[1..n + 1];
      var n := MatchLen(a[1..], b[1..]);
      assert a[..n + 1] == [a[0]] + a[1..][..n];
      assert b[..n + 1] == [b[0]] + b[1..][..n];
      n + 1
  }

  lemma SamePrefixAt(a: Key, b: Key, n: nat)
    requires n <= |a| && n <= |b| && a[..n] == b[..n]
    ensures forall i | 0 <= i < n :: a[i] == b[i]
  {
    assert forall i | 0 <= i < n :: a[..n][i] == a[i] && b[..n][i] == b[i];
  }

  /** The match length is the only length with these three properties. */
  lemma MatchLenUnique(a: Key, b: Key, n: nat)
    requires n <= |a| && n <= |b|
    requires a[..n] == b[..n]
    requires n < |a| && n < |b| ==> a[n] != b[n]
    ensures MatchLen(a, b) == n
  {
    var m := MatchLen(a, b);
    SamePrefixAt(a, b, n);
    SamePrefixAt(a, b, m);
  }

  lemma MatchLenAtLeast(a: Key, b: Key, n: nat)
    requires n <= |a| && n <= |b| && forall i | 0 <= i < n :: a[i] == b[i]
    ensures n <= MatchLen(a, b)
  {
  }

  function Least(x: nat, y: nat): nat {
    if x < y then x else y
  }

  /** `q` continues `p` with branch bits `b`. */
  predicate Under(p: Key, b: Nibble, q: Key) {
    p < q && q[|p|] == b
  }

  /** Two prefixes of one key are comparable. */
  lemma PrefixesComparable(p: Key, q: Key, k: Key)
    requires p <= k && q <= k && |p| <= |q|
    ensures p <= q
  {
  }

  /** Two keys that leave a prefix by the same bits agree beyond it. */
  lemma JoinLength(p: Key, b: Nibble, q: Key, k: Key)
    requires Under(p, b, q) && Under(p, b, k) && MatchLen(q, k) < |q|
    ensures Under(p, b, k[..MatchLen(q, k)]) && k[..MatchLen(q, k)] < q
  {
    MatchLenAtLeast(q, k, |p| + 1);
    SamePrefixAt(q, k, MatchLen(q, k));
  }

  /** What the lowest occupied slot from `b` on holds. */
  function Lowest<T>(m: map<Nibble, T>, b: nat): (r: Option<T>)
    requires b <= 16
    ensures r.Some? ==> exists d: Nibble :: d in m && m[d] == r.value
    ensures r.None? ==> forall d: Nibble | b <= d :: d !in m
    decreases 16 - b
  {
    if b == 16 then None else if b in m then Some(m[b]) else Lowest(m, b + 1)
  }

  lemma LowestOfOne<T>(m: map<Nibble, T>, b: Nibble)
    requires b in m && |m| == 1
    ensures Lowest(m, 0) == Some(m[b])
    ensures forall d | d in m :: d == b
  {
    assert |m.Keys - {b}| == 0;
    assert forall d | d in m :: d == b;
  }
}
