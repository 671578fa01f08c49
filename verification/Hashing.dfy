/**
 Node hashes, and what they depend on.

 `PlainHash` hashes every node as it stands.  `LiveHash` is what the batch,
 layered and snapshot tries compute: entries that do not count are skipped,
 branches without live entries vanish, and a branch with one live child passes
 on that child's hash.  `Prune` is the same clean-up done on the trie itself.
 The main result is `LiveHashIsOfMap`: the hash is a function of the live entries.
 */
module Hashing {

  import opened Nibbles
  import opened Tries
  import opened Digests

  type Hasher = Bytes -> Hash

  function PlainHash<A>(H: Hasher, t: Trie<A>): Hash
    decreases t, 1
  {
    match t
    case Leaf(k, e, _) => H(LeafDigest(k, e.bytes))
    case Branch(p, _, _) => H(BranchDigest(p, PlainHashes(H, t)))
  }

  function PlainHashes<A>(H: Hasher, t: Trie<A>): map<Nibble, Hash>
    requires t.Branch?
    decreases t, 0
  {
    map b | b in t.children :: PlainHash(H, t.children[b])
  }

  ghost function LiveHash<A>(H: Hasher, t: Trie<A>): Option<Hash>
    decreases t, 1
  {
    match t
    case Leaf(k, e, _) => if e.live then Some(H(LeafDigest(k, e.bytes))) else None
    case Branch(p, _, _) =>
      var m := LiveHashes(H, t);
      if |m| <= 1 then Lowest(m, 0) else Some(H(BranchDigest(p, m)))
  }

  ghost function LiveHashes<A>(H: Hasher, t: Trie<A>): map<Nibble, Hash>
    requires t.Branch?
    decreases t, 0
  {
    map b | b in t.children && LiveHash(H, t.children[b]).Some? :: LiveHash(H, t.children[b]).value
  }

  /** The canonical trie of the live entries, if there are any. */
  ghost function Prune<A>(t: Trie<A>): Option<Trie<()>>
    decreases t, 1
  {
    match t
    case Leaf(k, e, _) => if e.live then Some(Leaf(k, e, ())) else None
    case Branch(p, _, _) =>
      var m := Pruned(t);
      if |m| <= 1 then Lowest(m, 0) else Some(Branch(p, m, ()))
  }

  /** The children of a branch that survive pruning. */
  ghost function Pruned<A>(t: Trie<A>): map<Nibble, Trie<()>>
    requires t.Branch?
    decreases t, 0
  {
    map b | b in t.children && Prune(t.children[b]).Some? :: Prune(t.children[b]).value
  }

  function LiveOnly(e: Option<Entry>): Option<Entry> {
    if e.Some? && e.value.live then e else None
  }

  /** `r` is the canonical trie of the live entries of `t`. */
  ghost predicate PrunesTo<A>(t: Trie<A>, K: nat, r: Option<Trie<()>>) {
    && (r.Some? ==> Canonical(r.value, K) && t.Prefix() <= r.value.Prefix())
    && forall k: Key :: LiveOnly(Get(t, k)) == if r.Some? then Get(r.value, k) else None
  }

  lemma PrunedBranch<A>(t: Trie<A>, K: nat, m: map<Nibble, Trie<()>>)
    requires t.Branch? && WellFormed(t, K) && m.Keys <= t.children.Keys && |m| > 1
    requires forall b | b in m :: PrunesTo(t.children[b], K, Some(m[b]))
    requires forall b | b in t.children && b !in m :: PrunesTo(t.children[b], K, None)
    ensures PrunesTo(t, K, Some(Branch(t.prefix, m, ())))
  {
    var r := Branch(t.prefix, m, ());
    forall k: Key ensures LiveOnly(Get(t, k)) == Get(r, k) {
      if t.prefix < k && k[|t.prefix|] in t.children {
        var b := k[|t.prefix|];
        assert LiveOnly(Get(t.children[b], k)) == if b in m then Get(m[b], k) else None;
      }
    }
    forall b | b in m ensures Canonical(m[b], K) && Under(t.prefix, b, m[b].Prefix()) {
      assert PrunesTo(t.children[b], K, Some(m[b]));
    }
    CanonicalBranch(r, K);
  }

  lemma PrunedAway<A>(t: Trie<A>, K: nat, m: map<Nibble, Trie<()>>)
    requires t.Branch? && WellFormed(t, K) && m.Keys <= t.children.Keys && |m| <= 1
    requires forall b | b in m :: PrunesTo(t.children[b], K, Some(m[b]))
    requires forall b | b in t.children && b !in m :: PrunesTo(t.children[b], K, None)
    ensures PrunesTo(t, K, Lowest(m, 0))
  {
    if m.Keys == {} {
      forall k: Key ensures LiveOnly(Get(t, k)) == None {
        if t.prefix < k && k[|t.prefix|] in t.children {
          assert LiveOnly(Get(t.children[k[|t.prefix|]], k)) == None;
        }
      }
    } else {
      var b :| b in m;
      assert |m| == |m.Keys| == 1 by {
        assert |m.Keys - {b}| == |m.Keys| - 1;
      }
      LowestOfOne(m, b);
      forall k: Key ensures LiveOnly(Get(t, k)) == Get(m[b], k) {
        assert LiveOnly(Get(t.children[b], k)) == Get(m[b], k);
        if Get(t.children[b], k).Some? { GetPrefix(t.children[b], K, k); }
        if t.prefix < k && k[|t.prefix|] in t.children && k[|t.prefix|] != b {
          assert LiveOnly(Get(t.children[k[|t.prefix|]], k)) == None;
        }
      }
    }
  }

  /** Pruning yields a canonical trie with exactly the live entries. */
  lemma {:induction false} PruneIsCanonical<A>(t: Trie<A>, K: nat)
    requires WellFormed(t, K)
    ensures PrunesTo(t, K, Prune(t))
  {
    if t.Branch? {
      forall b | b in t.children ensures PrunesTo(t.children[b], K, Prune(t.children[b])) {
        PruneIsCanonical(t.children[b], K);
      }
      var m := Pruned(t);
      if |m| <= 1 {
        PrunedAway(t, K, m);
      } else {
        PrunedBranch(t, K, m);
      }
    }
  }

  /** Hashing around what does not count is hashing the pruned trie. */
  lemma {:induction false} LiveHashIsOfPruned<A>(H: Hasher, t: Trie<A>)
    ensures LiveHash(H, t) == if Prune(t).Some? then Some(PlainHash(H, Prune(t).value)) else None
  {
    if t.Branch? {
      forall b | b in t.children
        ensures LiveHash(H, t.children[b])
             == if Prune(t.children[b]).Some? then Some(PlainHash(H, Prune(t.children[b]).value)) else None
      {
        LiveHashIsOfPruned(H, t.children[b]);
      }
      var m, n := Pruned(t), LiveHashes(H, t);
      assert n.Keys == m.Keys;
      assert |n| == |n.Keys| == |m.Keys| == |m|;
      if |m| <= 1 {
        LowestCommutes(H, m, n, 0);
      } else {
        assert n == PlainHashes(H, Branch(t.prefix, m, ()));
      }
    }
  }

  lemma {:induction false} LowestCommutes(H: Hasher, m: map<Nibble, Trie<()>>, n: map<Nibble, Hash>, b: nat)
    requires b <= 16 && m.Keys == n.Keys && forall d | d in m :: n[d] == PlainHash(H, m[d])
    ensures Lowest(n, b) == if Lowest(m, b).Some? then Some(PlainHash(H, Lowest(m, b).value)) else None
    decreases 16 - b
  {
    if b < 16 && b !in m {
      LowestCommutes(H, m, n, b + 1);
    }
  }

  lemma {:induction false} SameHash<A, B>(H: Hasher, s: Trie<A>, t: Trie<B>)
    requires Same(s, t)
    ensures PlainHash(H, s) == PlainHash(H, t)
  {
    if s.Branch? {
      forall b | b in s.children ensures PlainHash(H, s.children[b]) == PlainHash(H, t.children[b]) {
        SameHash(H, s.children[b], t.children[b]);
      }
      assert PlainHashes(H, s) == PlainHashes(H, t);
    }
  }

  /** Two tries with the same live entries prune to the same trie. */
  lemma PruneIsOfMap<A, B>(s: Trie<A>, t: Trie<B>, K: nat)
    requires WellFormed(s, K) && WellFormed(t, K) && LiveContents(s) == LiveContents(t)
    ensures Prune(s) == Prune(t)
  {
    PruneIsCanonical(s, K);
    PruneIsCanonical(t, K);
    forall k: Key ensures LiveOnly(Get(s, k)) == LiveOnly(Get(t, k)) {
      GetFindsLeaves(s, K, k);
      GetFindsLeaves(t, K, k);
      assert k in LiveContents(s) <==> k in LiveContents(t);
    }
    var p, q := Prune(s), Prune(t);
    if p.Some? {
      var k := SomeKey(p.value, K);
      assert LiveOnly(Get(s, k)).Some?;
    }
    if q.Some? {
      var k := SomeKey(q.value, K);
      assert LiveOnly(Get(t, k)).Some?;
    }
    if p.Some? {
      forall k: Key ensures Get(p.value, k) == Get(q.value, k) {
        assert LiveOnly(Get(s, k)) == LiveOnly(Get(t, k));
      }
      CanonicalUnique(p.value, q.value, K);
      SameIsEqual(p.value, q.value);
    }
  }

  /** The hash commits to the live entries and to nothing else. */
  lemma LiveHashIsOfMap<A, B>(H: Hasher, s: Trie<A>, t: Trie<B>, K: nat)
    requires WellFormed(s, K) && WellFormed(t, K) && LiveContents(s) == LiveContents(t)
    ensures LiveHash(H, s) == LiveHash(H, t)
  {
    PruneIsOfMap(s, t, K);
    LiveHashIsOfPruned(H, s);
    LiveHashIsOfPruned(H, t);
  }
}
