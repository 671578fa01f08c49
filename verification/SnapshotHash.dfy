/**
 `compute_hash_and_normalize`, and the snapshot trie as an object.
 */
module SnapshotHash {

  import opened Nibbles
  import opened Tries
  import opened Digests
  import opened Hashing
  import opened Commitments
  import opened ProofTheorems
  import opened SnapshotNodes
  import opened SnapshotTrie

  /** `get_num_children`: a leaf counts as many children or none. */
  function Count(t: Node): nat {
    if t.Branch? then |t.children| else if t.entry.live then 255 else 0
  }

  /** What a parent keeps in the slot of a normalised child. */
  function Kept(t: Node): Option<Node> {
    if Count(t) == 0 then None else if t.Branch? && Count(t) == 1 then Lowest(t.children, 0) else Some(t)
  }

  function At(c: map<Nibble, Node>, b: Nibble): Option<Node> {
    if b in c then Some(c[b]) else None
  }

  /** `z` is what is left of a subtree that prunes to `q`: the same trie, settled. */
  ghost predicate Normal(H: Hasher, K: nat, q: Option<Trie<()>>, z: Option<Node>) {
    && (z.Some? <==> q.Some?)
    && (z.Some? ==> Settled(H, K, z.value) && Same(z.value, q.value))
  }

  ghost function PrunedAt(t: Node, b: Nibble): Option<Trie<()>>
    requires t.Branch?
  {
    if b in Pruned(t) then Some(Pruned(t)[b]) else None
  }

  lemma {:induction false} SettledPrunes(H: Hasher, K: nat, t: Node)
    requires Canonical(t, K) && AllLive(t)
    ensures Prune(t).Some? && Same(t, Prune(t).value)
  {
    if t.Branch? {
      forall b | b in t.children ensures Prune(t.children[b]).Some? && Same(t.children[b], Prune(t.children[b]).value) {
        SettledPrunes(H, K, t.children[b]);
      }
      assert Pruned(t).Keys == t.children.Keys;
      assert |Pruned(t)| == |Pruned(t).Keys| == |t.children.Keys| == |t.children|;
    }
  }

  // ----- the loop over the children -----

  ghost predicate SlotNormal(H: Hasher, K: nat, t: Node, b: Nibble, z: Option<Node>)
    requires t.Branch?
  {
    Normal(H, K, PrunedAt(t, b), z) && (z.Some? ==> Under(t.prefix, b, z.value.Prefix()))
  }

  method NormalizeSlot(H: Hasher, K: nat, t: Node, b: Nibble) returns (z: Option<Node>)
    requires t.Branch? && WellFormed(t, K) && SlotsCoherent(H, K, t) && b in t.children
    ensures SlotNormal(H, K, t, b, z)
    decreases t, 0
  {
    var r := Normalize(H, K, t.children[b]);
    z := Kept(r);
    PruneIsCanonical(t.children[b], K);
    if z.Some? { SamePrefix(z.value, Prune(t.children[b]).value); }
  }

  method NormalizeChildren(H: Hasher, K: nat, t: Node) returns (c: map<Nibble, Node>)
    requires t.Branch? && WellFormed(t, K) && SlotsCoherent(H, K, t)
    ensures forall b: Nibble {:trigger At(c, b)} :: SlotNormal(H, K, t, b, At(c, b))
    decreases t, 1
  {
    c := t.children;
    for b := 0 to 16
      invariant forall i: Nibble {:trigger At(c, i)} | i < b :: SlotNormal(H, K, t, i, At(c, i))
      invariant forall i: Nibble {:trigger At(c, i)} | b <= i :: At(c, i) == At(t.children, i)
    {
      ghost var before := c;
      assert At(before, b) == At(t.children, b);
      if b in c {
        var z := NormalizeSlot(H, K, t, b);
        c := if z.Some? then c[b := z.value] else c - {b};
        assert At(c, b) == z;
      }
      assert SlotNormal(H, K, t, b, At(c, b));
      assert forall i: Nibble {:trigger At(c, i)} | i != b :: At(c, i) == At(before, i);
    }
  }

  /** The hashes of normalised children; all of them are valid. */
  function HashesOf(c: map<Nibble, Node>): map<Nibble, Hash> {
    map b | b in c && c[b].ann.Some? :: c[b].ann.value
  }

  lemma SlotsAreNormal(H: Hasher, K: nat, t: Node, c: map<Nibble, Node>)
    requires t.Branch? && forall b: Nibble {:trigger At(c, b)} :: SlotNormal(H, K, t, b, At(c, b))
    ensures c.Keys == Pruned(t).Keys && |c| == |Pruned(t)|
    ensures forall b | b in c :: Settled(H, K, c[b]) && Same(c[b], Pruned(t)[b]) && Under(t.prefix, b, c[b].Prefix())
  {
    forall b: Nibble ensures b in c <==> b in Pruned(t)
      ensures b in c ==> Settled(H, K, c[b]) && Same(c[b], Pruned(t)[b]) && Under(t.prefix, b, c[b].Prefix())
    {
      assert SlotNormal(H, K, t, b, At(c, b));
    }
    assert c.Keys == Pruned(t).Keys;
    assert |c| == |c.Keys| && |Pruned(t)| == |Pruned(t).Keys|;
  }

  lemma HashesAreRight(H: Hasher, K: nat, r: Node)
    requires r.Branch? && forall b | b in r.children :: Settled(H, K, r.children[b])
    ensures HashesOf(r.children) == PlainHashes(H, r)
  {
  }

  /** A branch of settled children with its own hash. */
  lemma SettledBranch(H: Hasher, K: nat, p: Key, c: map<Nibble, Node>, h: Hash)
    requires |p| < K && |c| >= 2
    requires forall b | b in c :: Settled(H, K, c[b]) && Under(p, b, c[b].Prefix())
    requires h == H(BranchDigest(p, HashesOf(c)))
    ensures Settled(H, K, Branch(p, c, Some(h)))
  {
    var r: Node := Branch(p, c, Some(h));
    HashesAreRight(H, K, r);
    CanonicalBranch(r, K);
    HashedBranch(H, r);
  }

  lemma HashedBranch(H: Hasher, r: Node)
    requires r.Branch? && r.ann == Some(H(BranchDigest(r.prefix, PlainHashes(H, r))))
    requires forall b | b in r.children :: AllLive(r.children[b]) && AllHashed(H, r.children[b])
    ensures AllLive(r) && AllHashed(H, r)
  {
  }

  lemma PrunesToMany(H: Hasher, K: nat, t: Node, r: Node)
    requires t.Branch? && r.Branch? && r.prefix == t.prefix && |r.children| > 1 && Settled(H, K, r)
    requires r.children.Keys == Pruned(t).Keys && |r.children| == |Pruned(t)|
    requires forall b | b in r.children :: Same(r.children[b], Pruned(t)[b])
    ensures Normal(H, K, Prune(t), Some(r))
  {
    var m := Pruned(t);
    assert Prune(t) == Some(Branch(t.prefix, m, ()));
    SameBranches(t.prefix, r, m);
  }

  lemma SameBranches(p: Key, r: Node, m: map<Nibble, Trie<()>>)
    requires r.Branch? && r.prefix == p && r.children.Keys == m.Keys
    requires forall b | b in r.children :: Same(r.children[b], m[b])
    ensures Same(r, Branch(p, m, ()))
  {
  }

  lemma NormalMany(H: Hasher, K: nat, t: Node, c: map<Nibble, Node>, h: Hash)
    requires t.Branch? && |t.prefix| < K && |c| > 1 && h == H(BranchDigest(t.prefix, HashesOf(c)))
    requires forall b: Nibble {:trigger At(c, b)} :: SlotNormal(H, K, t, b, At(c, b))
    ensures Normal(H, K, Prune(t), Some(Branch(t.prefix, c, Some(h))))
  {
    SlotsAreNormal(H, K, t, c);
    SettledBranch(H, K, t.prefix, c, h);
    PrunesToMany(H, K, t, Branch(t.prefix, c, Some(h)));
  }

  lemma NormalFew(H: Hasher, K: nat, t: Node, c: map<Nibble, Node>)
    requires t.Branch? && |c| <= 1
    requires forall b: Nibble {:trigger At(c, b)} :: SlotNormal(H, K, t, b, At(c, b))
    ensures Normal(H, K, Prune(t), Kept(Branch(t.prefix, c, None)))
  {
    SlotsAreNormal(H, K, t, c);
    KeptOfFew(H, K, t.prefix, Pruned(t), c);
  }

  lemma KeptOfFew(H: Hasher, K: nat, p: Key, q: map<Nibble, Trie<()>>, c: map<Nibble, Node>)
    requires c.Keys == q.Keys && |c| == |q| <= 1
    requires forall b | b in c :: Settled(H, K, c[b]) && Same(c[b], q[b])
    ensures Normal(H, K, Lowest(q, 0), Kept(Branch(p, c, None)))
  {
    if |c| == 0 {
      assert q == map[];
    } else {
      assert c.Keys != {};
      var b :| b in c;
      NormalOne(H, K, q, c, b);
    }
  }

  lemma NormalOne(H: Hasher, K: nat, q: map<Nibble, Trie<()>>, c: map<Nibble, Node>, b: Nibble)
    requires b in c && b in q && |c| == 1 && |q| == 1 && Settled(H, K, c[b]) && Same(c[b], q[b])
    ensures Normal(H, K, Lowest(q, 0), Lowest(c, 0))
  {
    LowestOfOne(c, b);
    LowestOfOne(q, b);
  }

  /** `compute_hash_and_normalize` on a node below the root. */
  method Normalize(H: Hasher, K: nat, t: Node) returns (r: Node)
    requires WellFormed(t, K) && Coherent(H, K, t)
    ensures Normal(H, K, Prune(t), Kept(r))
    decreases t, 2
  {
    if t.ann.Some? {
      SettledPrunes(H, K, t);
      r := t;
    } else if t.Leaf? {
      r := Leaf(t.key, t.entry, Some(H(LeafDigest(t.key, t.entry.bytes))));
    } else {
      CoherentSlots(H, K, t);
      var c := NormalizeChildren(H, K, t);
      if |c| > 1 {
        var h := H(BranchDigest(t.prefix, HashesOf(c)));
        NormalMany(H, K, t, c, h);
        r := Branch(t.prefix, c, Some(h));
      } else {
        NormalFew(H, K, t, c);
        r := Branch(t.prefix, c, None);
      }
    }
  }

  // ----- the root -----

  /** The canonical trie of the live entries with a root that is always there. */
  ghost function RootPruned(t: Node): Trie<()>
    requires t.Branch?
  {
    Branch(t.prefix, Pruned(t), ())
  }

  ghost predicate RootOk(H: Hasher, K: nat, t: Node) {
    && t.Branch? && t.prefix == [] && WellFormed(t, K) && SlotsCoherent(H, K, t)
    && (t.ann.Some? ==>
          t.ann.value == PlainHash(H, t) && forall b | b in t.children :: Settled(H, K, t.children[b]))
  }

  /** `r` is the normal form of the root `t`. */
  ghost predicate RootNormal(H: Hasher, K: nat, t: Node, r: Node) {
    t.Branch? && RootOk(H, K, r) && r.ann.Some? && Same(r, RootPruned(t))
  }

  lemma ValidRoot(H: Hasher, K: nat, t: Node)
    requires RootOk(H, K, t) && t.ann.Some?
    ensures RootNormal(H, K, t, t)
  {
    forall b | b in t.children ensures Prune(t.children[b]).Some? && Same(t.children[b], Prune(t.children[b]).value) {
      SettledPrunes(H, K, t.children[b]);
    }
    assert Pruned(t).Keys == t.children.Keys;
  }

  lemma NormalRoot(H: Hasher, K: nat, t: Node, c: map<Nibble, Node>)
    requires RootOk(H, K, t) && forall b: Nibble {:trigger At(c, b)} :: SlotNormal(H, K, t, b, At(c, b))
    ensures RootNormal(H, K, t, Branch([], c, Some(H(BranchDigest([], HashesOf(c))))))
  {
    var r := Branch([], c, Some(H(BranchDigest([], HashesOf(c)))));
    SlotsAreNormal(H, K, t, c);
    HashesAreRight(H, K, r);
    forall b | b in c ensures Coherent(H, K, c[b]) {
      SettledIsCoherent(H, K, c[b]);
    }
  }

  method NormalizeRoot(H: Hasher, K: nat, t: Node) returns (r: Node)
    requires RootOk(H, K, t)
    ensures RootNormal(H, K, t, r)
  {
    if t.ann.Some? {
      ValidRoot(H, K, t);
      r := t;
    } else {
      var c := NormalizeChildren(H, K, t);
      NormalRoot(H, K, t, c);
      r := Branch([], c, Some(H(BranchDigest([], HashesOf(c)))));
    }
  }

  // ----- what the hash depends on -----

  lemma RootPrunedIsCanonical(t: Node, K: nat)
    requires t.Branch? && t.prefix == [] && WellFormed(t, K)
    ensures RootCanonical(RootPruned(t), K)
    ensures forall k: Key :: Get(RootPruned(t), k) == LiveOnly(Get(t, k))
  {
    forall b | b in t.children ensures PrunesTo(t.children[b], K, Prune(t.children[b])) {
      PruneIsCanonical(t.children[b], K);
    }
    forall k: Key ensures Get(RootPruned(t), k) == LiveOnly(Get(t, k)) {
      if [] < k && k[0] in t.children {
        assert LiveOnly(Get(t.children[k[0]], k)) ==
          if Prune(t.children[k[0]]).Some? then Get(Prune(t.children[k[0]]).value, k) else None;
      }
    }
  }

  /** The hash commits to the live entries and to nothing else. */
  lemma SnapshotHashIsOfMap(H: Hasher, K: nat, s: Node, t: Node)
    requires RootOk(H, K, s) && RootOk(H, K, t) && SameLive(s, t)
    ensures RootPruned(s) == RootPruned(t) && PlainHash(H, RootPruned(s)) == PlainHash(H, RootPruned(t))
  {
    RootPrunedIsCanonical(s, K);
    RootPrunedIsCanonical(t, K);
    forall k: Key ensures Get(RootPruned(s), k) == Get(RootPruned(t), k) {
      assert LiveOnly(Get(t, k)) == LiveOnly(Get(s, k));
    }
    RootUnique(RootPruned(s), RootPruned(t), K);
    SameIsEqual(RootPruned(s), RootPruned(t));
  }

  /** Equal hashes mean the same live values, or the hash function collides. */
  lemma SnapshotHashCommits(H: Hasher, K: nat, s: Node, t: Node) returns (x: Bytes, y: Bytes)
    requires RootOk(H, K, s) && RootOk(H, K, t) && K <= HEADER_NIBBLES
    requires PlainHash(H, RootPruned(s)) == PlainHash(H, RootPruned(t))
    ensures (forall k: Key :: LiveValue(s, k) == LiveValue(t, k))
      || Clash(H, TrieDigests(H, RootPruned(s)), TrieDigests(H, RootPruned(t)), x, y)
  {
    RootPrunedIsCanonical(s, K);
    RootPrunedIsCanonical(t, K);
    x, y := HashBinds(H, K, RootPruned(s), RootPruned(t));
    if SameValues(RootPruned(s), RootPruned(t)) {
      forall k: Key ensures LiveValue(s, k) == LiveValue(t, k) {
        assert ValueAt(RootPruned(s), k) == ValueAt(RootPruned(t), k);
        assert LiveOnly(Get(s, k)) == Get(RootPruned(s), k) && LiveOnly(Get(t, k)) == Get(RootPruned(t), k);
      }
    }
  }

  /** The value a lookup finds, if it is live. */
  function LiveValue(t: Node, k: Key): Option<Bytes> {
    if Get(t, k).Some? && Get(t, k).value.live then Some(Get(t, k).value.bytes) else None
  }

  // ----- the trie object -----

  ghost predicate AllOpen(root: Node, refs: set<Key>) {
    forall q | q in refs :: Open(root, q)
  }

  class AtomicMerkleTrie {
    const H: Hasher
    const K: nat
    var root: Node
    /** The prefixes of the nodes that callers hold references to. */
    ghost var refs: set<Key>

    ghost predicate Valid()
      reads this
    {
      K > 0 && RootOk(H, K, root) && AllOpen(root, refs)
    }

    constructor (H: Hasher, K: nat)
      requires K > 0
      ensures Valid() && refs == {} && this.K == K && this.H == H
      ensures forall k: Key :: Get(root, k) == None
    {
      this.H, this.K, root, refs := H, K, Branch([], map[], None), {};
    }

    method GetSubnode(q: Key)
      requires Valid() && |q| <= K
      modifies this
      ensures Valid() && refs == old(refs) + {q} && SameLive(old(root), root)
    {
      ghost var was := root;
      MakeRefCorrect(H, root, K, q);
      forall o | o in refs ensures Open(MakeRef(was, K, q), o) {
        OpenMakeRef(was, K, q, o);
      }
      root := MakeRef(root, K, q);
      OpenRoot(H, K, root);
      refs := refs + {q};
    }

    method InsertThrough(q: Key, key: Key, f: Update)
      requires Valid() && q in refs && |key| == K && q <= key
      modifies this
      ensures Valid() && refs == old(refs) && Puts(old(root), root, key, f(Get(old(root), key)))
    {
      ghost var was := root;
      assert Open(root, q);
      InsertAtIsInsert(root, K, q, key, f);
      InsertCorrect(H, root, K, key, f);
      forall o | o in refs ensures Open(Insert(was, K, key, f), o) {
        OpenInsert(was, K, key, f, o);
      }
      root := InsertAt(root, K, q, key, f);
      OpenRoot(H, K, root);
    }

    /** Fails if the key is not there; a reference to a removed leaf dies. */
    method DeleteThrough(q: Key, key: Key) returns (ok: bool)
      requires Valid() && q in refs && |key| == K && q <= key
      modifies this
      ensures Valid() && refs == (if ok && q != key then old(refs) - {key} else old(refs))
      ensures ok <==> Get(old(root), key).Some?
      ensures Drops(old(root), root, key)
    {
      ghost var was := root;
      assert Open(root, q);
      DeleteAtCorrect(H, root, K, q, key);
      var r := DeleteAt(root, K, q, key);
      ok := r.done;
      forall o | o in refs && (o != key || q == key || !ok) ensures Open(r.node, o) {
        OpenDeleteAt(was, K, q, key, o);
      }
      root := r.node;
      OpenRoot(H, K, root);
      if ok && q != key { refs := refs - {key}; }
    }

    /** Normalises, hashes, and ends all references. */
    method HashAndNormalize() returns (h: Hash)
      requires Valid()
      modifies this
      ensures Valid() && refs == {}
      ensures h == PlainHash(H, RootPruned(old(root)))
      ensures Same(root, RootPruned(old(root))) && SameLive(old(root), root)
    {
      ghost var was := root;
      root := NormalizeRoot(H, K, root);
      refs := {};
      h := root.ann.value;
      SameHash(H, root, RootPruned(was));
      RootPrunedIsCanonical(was, K);
      forall k: Key ensures LiveOnly(Get(root, k)) == LiveOnly(Get(was, k)) {
        SameGet(root, RootPruned(was), k);
      }
    }
  }

  lemma OpenRoot(H: Hasher, K: nat, t: Node)
    requires WellFormed(t, K) && Coherent(H, K, t) && t.Branch? && t.prefix == [] && t.ann.None?
    ensures RootOk(H, K, t)
  {
    CoherentSlots(H, K, t);
  }
}
