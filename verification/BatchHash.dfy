/**
 Hashing a batch trie: cached node hashes, marked entries skipped, and the root
 hash over the number of live entries and the root node's hash.
 */
module BatchHash {

  import opened Nibbles
  import opened Tries
  import opened Digests
  import opened Hashing
  import opened BatchNodes
  import opened BatchMerge

  // ----- metadata tells which subtrees count -----

  ghost function LiveCount<A>(t: Trie<A>): int {
    Total(t).size - Total(t).deleted
  }

  /** The number of leaves that pruning keeps. */
  ghost function Kept(r: Option<Trie<()>>): int {
    if r.Some? then Total(r.value).size else 0
  }

  lemma {:induction false} SumsAgree(m: map<Nibble, Meta>, n: map<Nibble, Meta>, b: nat)
    requires b <= 16 && n.Keys <= m.Keys
    requires forall i | i in m :: m[i].size - m[i].deleted == if i in n then n[i].size else 0
    requires forall i | i in n :: n[i].size > 0
    ensures SumOf(m, b).size - SumOf(m, b).deleted == SumOf(n, b).size >= 0
    ensures SumOf(n, b).size == 0 ==> forall i | i in n :: b <= i
  {
    if b > 0 { SumsAgree(m, n, b - 1); }
  }

  /** Size minus marks counts what pruning keeps; it is positive exactly when something is kept. */
  lemma {:induction false} LiveCountIsKept<A>(t: Trie<A>)
    ensures LiveCount(t) == Kept(Prune(t)) >= 0
    ensures LiveCount(t) > 0 <==> Prune(t).Some?
    decreases t
  {
    if t.Branch? {
      forall b | b in t.children ensures LiveCount(t.children[b]) == Kept(Prune(t.children[b]))
        ensures LiveCount(t.children[b]) > 0 <==> Prune(t.children[b]).Some?
      {
        LiveCountIsKept(t.children[b]);
      }
      KeptOfBranch(t);
    }
  }

  lemma KeptOfBranch<A>(t: Trie<A>)
    requires t.Branch?
    requires forall b | b in t.children :: LiveCount(t.children[b]) == Kept(Prune(t.children[b]))
    requires forall b | b in t.children :: LiveCount(t.children[b]) > 0 <==> Prune(t.children[b]).Some?
    ensures LiveCount(t) == Kept(Prune(t)) >= 0
    ensures LiveCount(t) > 0 <==> Prune(t).Some?
  {
    var m := Pruned(t);
    var n := map b | b in m :: Total(m[b]);
    SumsAgree(Totals(t), n, 16);
    KeptSum(t.prefix, m, n);
  }

  lemma KeptSum(p: Key, m: map<Nibble, Trie<()>>, n: map<Nibble, Meta>)
    requires n == map b | b in m :: Total(m[b])
    requires forall b | b in m :: Total(m[b]).size > 0
    requires SumOf(n, 16).size == 0 ==> forall i | i in n :: 16 <= i
    requires SumOf(n, 16).size >= 0
    ensures var r := if |m| <= 1 then Lowest(m, 0) else Some(Branch(p, m, ()));
      SumOf(n, 16).size == Kept(r) && (SumOf(n, 16).size > 0 <==> r.Some?)
  {
    if m == map[] {
      SumOfNothing(16);
    } else {
      var b :| b in m;
      assert b in n;
      if |m| <= 1 {
        assert |m.Keys - {b}| == |m.Keys| - 1;
        LowestOfOne(m, b);
        SumOfOne(n, b, 16);
      } else {
        assert n == Totals(Branch(p, m, ()));
      }
    }
  }

  lemma LivesWhenCounted<A>(H: Hasher, t: Trie<A>)
    ensures LiveHash(H, t).Some? <==> LiveCount(t) > 0
    ensures LiveCount(t) >= 0
  {
    LiveHashIsOfPruned(H, t);
    LiveCountIsKept(t);
  }

  // ----- computing hashes -----

  lemma {:induction false} SameLiveHash<A, B>(H: Hasher, s: Trie<A>, t: Trie<B>)
    requires Same(s, t)
    ensures LiveHash(H, s) == LiveHash(H, t)
  {
    if s.Branch? {
      forall b | b in s.children ensures LiveHash(H, s.children[b]) == LiveHash(H, t.children[b]) {
        SameLiveHash(H, s.children[b], t.children[b]);
      }
      assert LiveHashes(H, s) == LiveHashes(H, t);
    }
  }

  /** `z` is `x` with its hash in place. */
  ghost predicate Hashed(H: Hasher, K: nat, x: Node, z: Node) {
    && Good(H, z, K) && Same(x, z) && z.ann.meta == x.ann.meta
    && z.ann.hash.Some? && (LiveHash(H, x).Some? ==> z.ann.hash == LiveHash(H, x))
  }

  ghost predicate SlotHashed(H: Hasher, K: nat, p: Key, b: Nibble, x: Option<Node>, z: Option<Node>) {
    && (x.Some? <==> z.Some?)
    && (x.Some? ==>
          && SlotGood(H, K, p, b, z) && Same(x.value, z.value)
          && (LiveHash(H, x.value).Some? ==> z.value.ann.hash == LiveHash(H, x.value)))
  }

  method HashSlot(H: Hasher, ghost K: nat, ghost p: Key, ghost b: Nibble, x: Node) returns (z: Node)
    requires SlotGood(H, K, p, b, Some(x))
    ensures SlotHashed(H, K, p, b, Some(x), Some(z))
    decreases x, 2
  {
    LivesWhenCounted(H, x);
    SameAsItself(x);
    if x.ann.meta.size > x.ann.meta.deleted {
      z := ComputeHash(H, K, x);
      SamePrefix(x, z);
    } else {
      z := x;
    }
  }

  method HashChildren(H: Hasher, ghost K: nat, t: Node) returns (c: map<Nibble, Node>)
    requires Good(H, t, K) && t.Branch?
    ensures forall b: Nibble {:trigger At(c, b)} :: SlotHashed(H, K, t.prefix, b, At(t.children, b), At(c, b))
    decreases t, 0
  {
    c := t.children;
    GoodSlots(H, t, K);
    for b := 0 to 16
      invariant forall i: Nibble {:trigger At(c, i)} | i < b ::
        SlotHashed(H, K, t.prefix, i, At(t.children, i), At(c, i))
      invariant forall i: Nibble {:trigger At(c, i)} | b <= i :: At(c, i) == At(t.children, i)
    {
      ghost var before := c;
      assert At(before, b) == At(t.children, b);
      if b in c {
        assert c[b] == t.children[b];
        assert SlotGood(H, K, t.prefix, b, At(t.children, b));
        var z := HashSlot(H, K, t.prefix, b, t.children[b]);
        c := c[b := z];
      }
      assert forall i: Nibble {:trigger At(c, i)} | i != b :: At(c, i) == At(before, i);
    }
  }

  /** The hashes of the children that count. */
  function HashesOf(c: map<Nibble, Node>): map<Nibble, Hash> {
    map b | b in c && c[b].ann.meta.size > c[b].ann.meta.deleted && c[b].ann.hash.Some? :: c[b].ann.hash.value
  }

  function BranchHash(H: Hasher, p: Key, m: map<Nibble, Hash>): Hash {
    if |m| == 1 && Lowest(m, 0).Some? then Lowest(m, 0).value else H(BranchDigest(p, m))
  }

  lemma HashesAreLive(H: Hasher, K: nat, t: Node, c: map<Nibble, Node>)
    requires t.Branch?
    requires forall b: Nibble {:trigger At(c, b)} :: SlotHashed(H, K, t.prefix, b, At(t.children, b), At(c, b))
    ensures HashesOf(c) == LiveHashes(H, t)
  {
    forall b: Nibble
      ensures b in HashesOf(c) <==> b in LiveHashes(H, t)
      ensures b in HashesOf(c) ==> HashesOf(c)[b] == LiveHashes(H, t)[b]
    {
      assert SlotHashed(H, K, t.prefix, b, At(t.children, b), At(c, b));
      if b in c {
        LivesWhenCounted(H, c[b]);
        SameLiveHash(H, t.children[b], c[b]);
      }
    }
  }

  lemma HashedBranch(H: Hasher, K: nat, t: Node, c: map<Nibble, Node>)
    requires Good(H, t, K) && t.Branch?
    requires forall b: Nibble {:trigger At(c, b)} :: SlotHashed(H, K, t.prefix, b, At(t.children, b), At(c, b))
    ensures Hashed(H, K, t, Branch(t.prefix, c, Note(t.ann.meta, Some(BranchHash(H, t.prefix, HashesOf(c))))))
  {
    var bare := Branch(t.prefix, c, Note(t.ann.meta, None));
    var z := Branch(t.prefix, c, Note(t.ann.meta, Some(BranchHash(H, t.prefix, HashesOf(c)))));
    HashesAreLive(H, K, t, c);
    SlotsAreSame(H, K, t, bare);
    SameTotal(t, bare);
    GoodFromSlots(H, bare, K);
    SameLiveHash(H, t, bare);
    FilledIn(H, K, bare, z.ann.hash.value);
    SameAsItself(z);
  }

  lemma SlotsAreSame(H: Hasher, K: nat, t: Node, z: Node)
    requires Good(H, t, K) && t.Branch? && z.Branch? && z.prefix == t.prefix
    requires forall b: Nibble {:trigger At(z.children, b)} ::
      SlotHashed(H, K, t.prefix, b, At(t.children, b), At(z.children, b))
    ensures Same(t, z) && SlotsGood(H, K, z.prefix, z.children) && |z.children| == |t.children|
  {
    forall b: Nibble ensures b in t.children <==> b in z.children
      ensures b in t.children ==> Same(t.children[b], z.children[b])
    {
      assert SlotHashed(H, K, t.prefix, b, At(t.children, b), At(z.children, b));
    }
    assert z.children.Keys == t.children.Keys;
    assert |z.children| == |z.children.Keys| && |t.children| == |t.children.Keys|;
  }

  /** Putting the right hash into a node. */
  lemma FilledIn(H: Hasher, K: nat, t: Node, h: Hash)
    requires Good(H, t, K) && t.Branch? && (LiveHash(H, t).Some? ==> LiveHash(H, t) == Some(h))
    ensures var z := Branch(t.prefix, t.children, Note(t.ann.meta, Some(h)));
      Good(H, z, K) && Same(t, z)
  {
    var z := Branch(t.prefix, t.children, Note(t.ann.meta, Some(h)));
    forall b | b in t.children ensures Same(t.children[b], t.children[b]) {
      SameAsItself(t.children[b]);
    }
    SameTotal(t, z);
    SameLiveHash(H, t, z);
  }

  /** `compute_hash`: nothing to do if the cached hash is valid. */
  method ComputeHash(H: Hasher, ghost K: nat, t: Node) returns (r: Node)
    requires Good(H, t, K)
    ensures Hashed(H, K, t, r)
    decreases t, 1
  {
    SameAsItself(t);
    if t.ann.hash.Some? {
      r := t;
    } else if t.Leaf? {
      r := Leaf(t.key, t.entry, Note(t.ann.meta, Some(H(LeafDigest(t.key, t.entry.bytes)))));
    } else {
      var c := HashChildren(H, K, t);
      HashedBranch(H, K, t, c);
      r := Branch(t.prefix, c, Note(t.ann.meta, Some(BranchHash(H, t.prefix, HashesOf(c)))));
    }
  }

  // ----- the root hash -----

  function BigEndian32(n: nat): Bytes {
    [n / 0x100_0000 % 256, n / 0x1_0000 % 256, n / 256 % 256, n % 256]
  }

  /** What the hash part of the root digest holds when nothing was copied into it. */
  function Zeros(): Hash {
    seq(32, _ => 0)
  }

  /** The number of entries is cut to 32 bits; the hash of an empty trie is zero bytes. */
  function RootDigest(count: nat, h: Hash): Bytes {
    var n := count % 0x1_0000_0000;
    BigEndian32(n) + (if n > 0 then h else Zeros())
  }

  /** The bytes that the root hash is computed over; the empty trie has no root node. */
  ghost function RootBytes<A>(H: Hasher, t: Option<Trie<A>>): Bytes {
    if t.Some? && LiveCount(t.value) > 0 && LiveHash(H, t.value).Some? then
      RootDigest(LiveCount(t.value), LiveHash(H, t.value).value)
    else RootDigest(0, Zeros())
  }

  /** What the root hash of a trie ought to be. */
  ghost function RootHashOf<A>(H: Hasher, t: Option<Trie<A>>): Hash {
    H(RootBytes(H, t))
  }

  /** `get_root_hash`, hashing first where hashes are missing. */
  method RootHash(H: Hasher, ghost K: nat, t: Option<Node>) returns (r: Option<Node>, h: Hash)
    requires t.Some? ==> Good(H, t.value, K)
    ensures t.Some? <==> r.Some?
    ensures t.Some? ==> Good(H, r.value, K) && Same(t.value, r.value)
    ensures h == RootHashOf(H, t)
  {
    if t.None? {
      r, h := None, H(RootDigest(0, Zeros()));
    } else {
      var z := ComputeHash(H, K, t.value);
      RootDigestIsRight(H, K, t.value, z);
      r := Some(z);
      h := H(RootDigest(z.ann.meta.size - z.ann.meta.deleted, z.ann.hash.value));
    }
  }

  lemma RootDigestIsRight(H: Hasher, K: nat, t: Node, z: Node)
    requires Good(H, t, K) && Hashed(H, K, t, z)
    ensures z.ann.meta.size - z.ann.meta.deleted == LiveCount(t) >= 0
    ensures H(RootDigest(LiveCount(t), z.ann.hash.value)) == RootHashOf(H, Some(t))
  {
    LivesWhenCounted(H, t);
    if LiveCount(t) == 0 {
      NoHashAtZero(z.ann.hash.value);
    }
  }

  lemma NoHashAtZero(h: Hash)
    ensures RootDigest(0, h) == RootDigest(0, Zeros())
  {
  }

  /** The root hash commits to the live entries and to nothing else. */
  lemma RootHashIsOfMap<A, B>(H: Hasher, s: Option<Trie<A>>, t: Option<Trie<B>>, K: nat)
    requires s.Some? ==> WellFormed(s.value, K)
    requires t.Some? ==> WellFormed(t.value, K)
    requires (if s.Some? then LiveContents(s.value) else map[]) == (if t.Some? then LiveContents(t.value) else map[])
    ensures RootHashOf(H, s) == RootHashOf(H, t)
  {
    if s.Some? && t.Some? {
      PruneIsOfMap(s.value, t.value, K);
      LiveHashIsOfMap(H, s.value, t.value, K);
      LiveCountIsKept(s.value);
      LiveCountIsKept(t.value);
    } else if s.Some? {
      NothingLives(s.value, K);
    } else if t.Some? {
      NothingLives(t.value, K);
    }
  }

  lemma NothingLives<A>(t: Trie<A>, K: nat)
    requires WellFormed(t, K) && LiveContents(t) == map[]
    ensures LiveCount(t) == 0
  {
    PruneIsCanonical(t, K);
    LiveCountIsKept(t);
    if Prune(t).Some? {
      var k := SomeKey(Prune(t).value, K);
      assert LiveOnly(Get(t, k)).Some?;
      GetFindsLeaves(t, K, k);
      var _ := k in LiveContents(t);
      assert false;
    }
  }
}
