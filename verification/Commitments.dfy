/**
 What hashes commit to.

 Two tries with the same node hash hold the same values at the same keys, or two
 different byte strings that were hashed for them have the same hash.  The same
 holds of the hashes that skip entries, and of the root hash of the batch trie, whose
 first four bytes are the number of entries.
 */
module Commitments {

  import opened Nibbles
  import opened Tries
  import opened Digests
  import opened Hashing
  import opened ProofTheorems
  import opened BatchHash
  import opened BatchCounts

  /** The serialised value of a key. */
  ghost function ValueAt<A>(t: Trie<A>, k: Key): Option<Bytes> {
    if Get(t, k).Some? then Some(Get(t, k).value.bytes) else None
  }

  ghost predicate SameValues<A, B>(s: Trie<A>, t: Trie<B>) {
    forall k: Key :: ValueAt(s, k) == ValueAt(t, k)
  }

  /** Different byte strings, one hashed for either side, with one hash. */
  ghost predicate Clash(H: Hasher, X: set<Bytes>, Y: set<Bytes>, x: Bytes, y: Bytes) {
    x != y && H(x) == H(y) && x in X && y in Y
  }

  lemma DigestIsHashed<A>(H: Hasher, t: Trie<A>)
    ensures NodeDigest(H, t) in TrieDigests(H, t) && PlainHash(H, t) == H(NodeDigest(H, t))
    ensures t.Branch? ==> forall b | b in t.children :: TrieDigests(H, t.children[b]) <= TrieDigests(H, t)
  {
  }

  /** The digest of a node determines its prefix, its kind, and its value or its children's hashes. */
  lemma DigestDetermines<A, B>(H: Hasher, K: nat, s: Trie<A>, t: Trie<B>)
    requires WellFormed(s, K) && WellFormed(t, K) && K <= HEADER_NIBBLES && NodeDigest(H, s) == NodeDigest(H, t)
    ensures s.Prefix() == t.Prefix() && (s.Leaf? <==> t.Leaf?)
    ensures s.Leaf? && t.Leaf? ==> s.entry.bytes == t.entry.bytes
    ensures s.Branch? && t.Branch? ==> PlainHashes(H, s) == PlainHashes(H, t)
  {
    assert NodeDigest(H, s) == Header(s.Prefix()) + NodeTail(H, s);
    assert NodeDigest(H, t) == Header(t.Prefix()) + NodeTail(H, t);
    HeaderInjective(s.Prefix(), t.Prefix(), NodeTail(H, s), NodeTail(H, t));
    if s.Branch? && t.Branch? { TailInjective(PlainHashes(H, s), PlainHashes(H, t)); }
  }

  /** Equal hashes bind: the values are the same, or the hash function collides. */
  lemma {:induction false} HashBinds<A, B>(H: Hasher, K: nat, s: Trie<A>, t: Trie<B>) returns (x: Bytes, y: Bytes)
    requires WellFormed(s, K) && WellFormed(t, K) && K <= HEADER_NIBBLES && PlainHash(H, s) == PlainHash(H, t)
    ensures SameValues(s, t) || Clash(H, TrieDigests(H, s), TrieDigests(H, t), x, y)
    decreases s
  {
    x, y := NodeDigest(H, s), NodeDigest(H, t);
    DigestIsHashed(H, s);
    DigestIsHashed(H, t);
    if x == y {
      DigestDetermines(H, K, s, t);
      if s.Branch? {
        assert PlainHashes(H, s).Keys == s.children.Keys && PlainHashes(H, t).Keys == t.children.Keys;
        if b :| b in s.children && !SameValues(s.children[b], t.children[b]) {
          assert PlainHashes(H, s)[b] == PlainHashes(H, t)[b];
          x, y := HashBinds(H, K, s.children[b], t.children[b]);
        } else {
          ChildrenAgree(s, t);
        }
      }
    }
  }

  lemma ChildrenAgree<A, B>(s: Trie<A>, t: Trie<B>)
    requires s.Branch? && t.Branch? && s.prefix == t.prefix && s.children.Keys == t.children.Keys
    requires forall b | b in s.children :: SameValues(s.children[b], t.children[b])
    ensures SameValues(s, t)
  {
    forall k: Key ensures ValueAt(s, k) == ValueAt(t, k) {
      if s.prefix < k && k[|s.prefix|] in s.children {
        var b := k[|s.prefix|];
        assert SameValues(s.children[b], t.children[b]);
        assert ValueAt(s.children[b], k) == ValueAt(t.children[b], k);
      }
    }
  }

  // ----- hashes that skip entries -----

  /** The serialised value of a key whose entry counts. */
  ghost function LiveValueAt<A>(t: Option<Trie<A>>, k: Key): Option<Bytes> {
    if t.Some? && k in LiveContents(t.value) then Some(LiveContents(t.value)[k].bytes) else None
  }

  /** The byte strings hashed for the entries that count. */
  ghost function LiveDigests<A>(H: Hasher, t: Option<Trie<A>>): set<Bytes> {
    if t.Some? && Prune(t.value).Some? then TrieDigests(H, Prune(t.value).value) else {}
  }

  lemma PrunedValues<A>(t: Trie<A>, K: nat, k: Key)
    requires WellFormed(t, K)
    ensures LiveValueAt(Some(t), k) == if Prune(t).Some? then ValueAt(Prune(t).value, k) else None
  {
    PruneIsCanonical(t, K);
    GetFindsLeaves(t, K, k);
    assert LiveOnly(Get(t, k)) == if Prune(t).Some? then Get(Prune(t).value, k) else None;
  }

  /** The same keys count, with the same values. */
  ghost predicate SameLiveValues<A, B>(s: Option<Trie<A>>, t: Option<Trie<B>>) {
    forall k: Key :: LiveValueAt(s, k) == LiveValueAt(t, k)
  }

  /** The hash of what counts binds what counts. */
  lemma LiveHashBinds<A, B>(H: Hasher, K: nat, s: Trie<A>, t: Trie<B>) returns (x: Bytes, y: Bytes)
    requires WellFormed(s, K) && WellFormed(t, K) && K <= HEADER_NIBBLES && LiveHash(H, s) == LiveHash(H, t)
    ensures SameLiveValues(Some(s), Some(t))
      || Clash(H, LiveDigests(H, Some(s)), LiveDigests(H, Some(t)), x, y)
  {
    LiveHashIsOfPruned(H, s);
    LiveHashIsOfPruned(H, t);
    PruneIsCanonical(s, K);
    PruneIsCanonical(t, K);
    x, y := [], [];
    if Prune(s).Some? {
      x, y := HashBinds(H, K, Prune(s).value, Prune(t).value);
    }
    if Prune(s).None? || SameValues(Prune(s).value, Prune(t).value) {
      forall k: Key ensures LiveValueAt(Some(s), k) == LiveValueAt(Some(t), k) {
        PrunedValues(s, K, k);
        PrunedValues(t, K, k);
      }
    }
  }

  // ----- the root hash of the batch trie -----

  /** The number that four bytes stand for, the most significant first. */
  function Read32(d: Bytes): nat
    requires |d| == 4
  {
    var d0: int, d1: int, d2: int, d3: int := d[0], d[1], d[2], d[3];
    ((d0 * 256 + d1) * 256 + d2) * 256 + d3
  }

  lemma ReadBack(n: nat)
    requires n < 0x1_0000_0000
    ensures Read32(BigEndian32(n)) == n
  {
    ShiftTwice(n);
    Bytes4(n, n / 256, n / 256 / 256, n / 256 / 256 / 256);
  }

  lemma ShiftTwice(n: nat)
    ensures n / 0x1_0000 == n / 256 / 256 && n / 0x100_0000 == n / 256 / 256 / 256
  {
  }

  lemma Bytes4(n: nat, c: nat, b: nat, a: nat)
    requires n < 0x1_0000_0000 && c == n / 256 && b == c / 256 && a == b / 256
    ensures Read32([a % 256, b % 256, c % 256, n % 256]) == n
  {
    assert a < 256 && b == a * 256 + b % 256 && c == b * 256 + c % 256 && n == c * 256 + n % 256;
  }

  /** How many entries of the trie count. */
  ghost function LiveSize<A>(t: Option<Trie<A>>): nat {
    if t.Some? then |LiveContents(t.value)| else 0
  }

  /**
   The root hash is over 36 bytes: the number of entries that count, cut to 32 bits, and
   the hash of the trie of these entries, or zeros where that number is zero.
   */
  lemma RootBytesRead<A>(H: Hasher, K: nat, t: Option<Trie<A>>)
    requires t.Some? ==> WellFormed(t.value, K)
    ensures var d, n := RootBytes(H, t), LiveSize(t) % 0x1_0000_0000;
      && |d| == 36 && Read32(d[..4]) == n
      && (n > 0 ==> t.Some? && Prune(t.value).Some? && d[4..] == PlainHash(H, Prune(t.value).value))
      && (n == 0 ==> forall i | 4 <= i < 36 :: d[i] == 0)
  {
    RootParts(H, K, t, LiveSize(t) % 0x1_0000_0000, RootBytes(H, t));
  }

  lemma RootParts<A>(H: Hasher, K: nat, t: Option<Trie<A>>, n: nat, d: Bytes)
    requires t.Some? ==> WellFormed(t.value, K)
    requires n == LiveSize(t) % 0x1_0000_0000 && d == RootBytes(H, t)
    ensures |d| == 36 && Read32(d[..4]) == n
    ensures n > 0 ==> t.Some? && Prune(t.value).Some? && d[4..] == PlainHash(H, Prune(t.value).value)
    ensures n == 0 ==> forall i | 4 <= i < 36 :: d[i] == 0
  {
    if t.Some? {
      CountsAreExact(t.value, K);
      LiveCountIsKept(t.value);
      LiveHashIsOfPruned(H, t.value);
    }
    ReadBack(n);
    assert d[..4] == BigEndian32(n);
  }

  /** The byte strings hashed for a root hash. */
  ghost function RootDigests<A>(H: Hasher, t: Option<Trie<A>>): set<Bytes> {
    LiveDigests(H, t) + {RootBytes(H, t)}
  }

  lemma EmptyValues<A>(t: Option<Trie<A>>, k: Key)
    requires LiveSize(t) == 0
    ensures LiveValueAt(t, k) == None
  {
    assert t.Some? ==> LiveContents(t.value) == map[];
  }

  /** The root bytes of a trie whose number of entries fits in 32 bits. */
  lemma SmallRoot<A>(H: Hasher, K: nat, t: Option<Trie<A>>, d: Bytes)
    requires t.Some? ==> WellFormed(t.value, K)
    requires LiveSize(t) < 0x1_0000_0000 && d == RootBytes(H, t)
    ensures |d| == 36 && Read32(d[..4]) == LiveSize(t)
    ensures LiveSize(t) > 0 ==> t.Some? && LiveHash(H, t.value).Some? && LiveHash(H, t.value).value == d[4..]
  {
    WithinWord(LiveSize(t));
    RootParts(H, K, t, LiveSize(t), d);
    if LiveSize(t) > 0 { LiveHashIsOfPruned(H, t.value); }
  }

  lemma WithinWord(n: nat)
    requires n < 0x1_0000_0000
    ensures n % 0x1_0000_0000 == n
  {
  }

  lemma RestBinds<A, B>(H: Hasher, K: nat, s: Option<Trie<A>>, t: Option<Trie<B>>) returns (x: Bytes, y: Bytes)
    requires s.Some? ==> WellFormed(s.value, K)
    requires t.Some? ==> WellFormed(t.value, K)
    requires K <= HEADER_NIBBLES && 0 < LiveSize(s) == LiveSize(t) < 0x1_0000_0000
    requires RootBytes(H, s) == RootBytes(H, t)
    ensures SameLiveValues(s, t) || Clash(H, LiveDigests(H, s), LiveDigests(H, t), x, y)
  {
    SmallRoot(H, K, s, RootBytes(H, s));
    SmallRoot(H, K, t, RootBytes(H, t));
    x, y := LiveHashBinds(H, K, s.value, t.value);
  }

  lemma SameCount<A, B>(H: Hasher, K: nat, s: Option<Trie<A>>, t: Option<Trie<B>>)
    requires s.Some? ==> WellFormed(s.value, K)
    requires t.Some? ==> WellFormed(t.value, K)
    requires LiveSize(s) < 0x1_0000_0000 && LiveSize(t) < 0x1_0000_0000 && RootBytes(H, s) == RootBytes(H, t)
    ensures LiveSize(s) == LiveSize(t)
  {
    SmallRoot(H, K, s, RootBytes(H, s));
    SmallRoot(H, K, t, RootBytes(H, t));
  }

  lemma ClashGrows(H: Hasher, X: set<Bytes>, Y: set<Bytes>, V: set<Bytes>, W: set<Bytes>, x: Bytes, y: Bytes)
    requires Clash(H, X, Y, x, y) && X <= V && Y <= W
    ensures Clash(H, V, W, x, y)
  {
  }

  /**
   Commitment: with fewer than 2^32 entries, equal root hashes mean that the same keys
   are there with the same values, unless the hash function collides on two of the byte
   strings that were hashed.
   */
  lemma RootHashCommits<A, B>(H: Hasher, K: nat, s: Option<Trie<A>>, t: Option<Trie<B>>) returns (x: Bytes, y: Bytes)
    requires s.Some? ==> WellFormed(s.value, K)
    requires t.Some? ==> WellFormed(t.value, K)
    requires K <= HEADER_NIBBLES && LiveSize(s) < 0x1_0000_0000 && LiveSize(t) < 0x1_0000_0000
    requires RootHashOf(H, s) == RootHashOf(H, t)
    ensures SameLiveValues(s, t) || Clash(H, RootDigests(H, s), RootDigests(H, t), x, y)
  {
    x, y := RootBytes(H, s), RootBytes(H, t);
    if x == y {
      SameCount(H, K, s, t);
      if LiveSize(s) > 0 {
        x, y := RestBinds(H, K, s, t);
        if !SameLiveValues(s, t) {
          ClashGrows(H, LiveDigests(H, s), LiveDigests(H, t), RootDigests(H, s), RootDigests(H, t), x, y);
        }
      } else {
        forall k: Key ensures LiveValueAt(s, k) == LiveValueAt(t, k) {
          EmptyValues(s, k);
          EmptyValues(t, k);
        }
      }
    }
  }
}
