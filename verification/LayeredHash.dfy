/**
 Hashing a layer of the layered trie.

 Hashes are cached in the nodes, and nodes are shared between layers.  The cache is
 right for every finalised layer that holds the node and stays right, and the hash
 of a layer is a function of its active entries alone.
 */
module LayeredHash {

  import opened Nibbles
  import opened Tries
  import opened Digests
  import opened Hashing
  import opened Commitments
  import opened SearchTrees
  import opened LayeredTrie
  import opened LayeredSafety
  import opened LayeredSweep
  import opened LayeredMaps

  ghost predicate InLayer(s: State, k: nat, n: Id) {
    LayerOk(s, k) && n in Tree(s, k) && n in s.cells
  }

  /** The subtree of a node, seen from layer `k`. */
  ghost function NodeTrie(s: State, k: nat, n: Id): Trie<()>
    requires InLayer(s, k, n)
  {
    TreeOf(s.cells, Tree(s, k), s.rootIds[k], s.K, n)
  }

  /** A node has the same subtree in all layers that share it. */
  lemma SharedTrie(s: State, k: nat, j: nat, n: Id)
    requires InLayer(s, k, n) && InLayer(s, j, n)
    ensures NodeTrie(s, k, n) == NodeTrie(s, j, n)
  {
    SameTrie(s.cells, Tree(s, j), s.rootIds[j], s.cells, Tree(s, k), s.rootIds[k], s.K, n);
  }

  /** The nodes of a finalised layer stay in it. */
  lemma {:induction false} StaysInLayer(s: State, u: State, k: nat, n: Id)
    requires Frozen(s, u) && k < s.active && InLayer(s, k, n) && LayerOk(u, k) && Inv(s)
    ensures InLayer(u, k, n) && u.cells[n] == s.cells[n]
    decreases |s.cells[n].prefix|
  {
    var r := s.rootIds[k];
    if n != r {
      assert Leads(s.cells, r, n);
      assert [] < s.cells[n].prefix;
      var m, b := Parent(s.cells, Tree(s, k), r, s.K, r, n);
      StaysInLayer(s, u, k, m);
      assert Local(u.cells, Tree(u, k), u.K, m);
    }
  }

  lemma StableTrie(s: State, u: State, k: nat, n: Id)
    requires Frozen(s, u) && k < s.active && InLayer(s, k, n) && LayerOk(u, k) && Inv(s)
    ensures InLayer(u, k, n) && NodeTrie(u, k, n) == NodeTrie(s, k, n)
  {
    StaysInLayer(s, u, k, n);
    SameTrie(s.cells, Tree(s, k), s.rootIds[k], u.cells, Tree(u, k), u.rootIds[k], s.K, n);
  }

  // ----- cached hashes -----

  /** Cached results; none stands for `return_null`. */
  type Cache = map<Id, Option<Hash>>

  ghost predicate CacheOk(H: Hasher, s: State, k: nat, cache: Cache) {
    forall n | n in cache && InLayer(s, k, n) :: cache[n] == LiveHash(H, NodeTrie(s, k, n))
  }

  function HashAt(m: map<Nibble, Hash>, b: Nibble): Option<Hash> {
    if b in m then Some(m[b]) else None
  }

  ghost function ChildHash(H: Hasher, s: State, k: nat, n: Id, b: Nibble): Option<Hash>
    requires InLayer(s, k, n)
  {
    var t := NodeTrie(s, k, n);
    if t.Branch? && b in t.children then LiveHash(H, t.children[b]) else None
  }

  lemma ChildTrie(s: State, k: nat, n: Id, b: Nibble)
    requires InLayer(s, k, n) && b in s.cells[n].slots
    ensures InLayer(s, k, s.cells[n].slots[b]) && |s.cells[n].prefix| < s.K
    ensures |s.cells[n].prefix| < |s.cells[s.cells[n].slots[b]].prefix| <= s.K
    ensures NodeTrie(s, k, n).Branch? && b in NodeTrie(s, k, n).children
    ensures NodeTrie(s, k, n).children[b] == NodeTrie(s, k, s.cells[n].slots[b])
  {
    assert Local(s.cells, Tree(s, k), s.K, n);
    assert Local(s.cells, Tree(s, k), s.K, s.cells[n].slots[b]);
  }

  lemma HashesAreLive(H: Hasher, s: State, k: nat, n: Id, m: map<Nibble, Hash>)
    requires InLayer(s, k, n) && NodeTrie(s, k, n).Branch?
    requires forall b: Nibble :: HashAt(m, b) == ChildHash(H, s, k, n, b)
    ensures m == LiveHashes(H, NodeTrie(s, k, n))
  {
    var t := NodeTrie(s, k, n);
    forall b: Nibble ensures b in m <==> b in LiveHashes(H, t)
      ensures b in m ==> m[b] == LiveHashes(H, t)[b]
    {
      assert HashAt(m, b) == ChildHash(H, s, k, n, b);
    }
  }

  /** `compute_hash` on a node of a layer, with the hashes cached so far. */
  method ComputeHash(H: Hasher, s: State, ghost k: nat, n: Id, cache: Cache) returns (h: Option<Hash>, cache': Cache)
    requires InLayer(s, k, n) && CacheOk(H, s, k, cache)
    ensures h == LiveHash(H, NodeTrie(s, k, n)) && CacheOk(H, s, k, cache')
    decreases s.K - |s.cells[n].prefix|, 2
  {
    assert Local(s.cells, Tree(s, k), s.K, n);
    if n in cache {
      h, cache' := cache[n], cache;
    } else if |s.cells[n].prefix| == s.K {
      var e := s.cells[n].entry.value;
      h := if e.live then Some(H(LeafDigest(s.cells[n].prefix, e.bytes))) else None;
      cache' := cache[n := h];
    } else {
      var m;
      m, cache' := HashSlots(H, s, k, n, cache);
      HashesAreLive(H, s, k, n, m);
      h := if |m| <= 1 then Lowest(m, 0) else Some(H(BranchDigest(s.cells[n].prefix, m)));
      cache' := cache'[n := h];
    }
  }

  method HashSlots(H: Hasher, s: State, ghost k: nat, n: Id, cache: Cache) returns (m: map<Nibble, Hash>, cache': Cache)
    requires InLayer(s, k, n) && CacheOk(H, s, k, cache) && |s.cells[n].prefix| < s.K
    ensures NodeTrie(s, k, n).Branch? && NodeTrie(s, k, n).prefix == s.cells[n].prefix
    ensures forall b: Nibble :: HashAt(m, b) == ChildHash(H, s, k, n, b)
    ensures CacheOk(H, s, k, cache')
    decreases s.K - |s.cells[n].prefix|, 1
  {
    assert Local(s.cells, Tree(s, k), s.K, n);
    m, cache' := map[], cache;
    for b := 0 to 16
      invariant CacheOk(H, s, k, cache')
      invariant HashedTo(H, s, k, n, m, b)
    {
      var h;
      h, cache' := HashSlot(H, s, k, n, b, cache');
      HashedMore(H, s, k, n, m, b, h);
      if h.Some? { m := m[b := h.value]; }
    }
  }

  /** The hashes of the slots below `b` are there, and no others. */
  ghost predicate HashedTo(H: Hasher, s: State, k: nat, n: Id, m: map<Nibble, Hash>, b: nat) {
    InLayer(s, k, n) && forall i: Nibble :: HashAt(m, i) == if i < b then ChildHash(H, s, k, n, i) else None
  }

  lemma HashedMore(H: Hasher, s: State, k: nat, n: Id, m: map<Nibble, Hash>, b: Nibble, h: Option<Hash>)
    requires HashedTo(H, s, k, n, m, b) && h == ChildHash(H, s, k, n, b)
    ensures HashedTo(H, s, k, n, if h.Some? then m[b := h.value] else m, b + 1)
  {
    var z := if h.Some? then m[b := h.value] else m;
    assert HashAt(m, b) == None;
    forall i: Nibble ensures HashAt(z, i) == if i < b + 1 then ChildHash(H, s, k, n, i) else None {
      assert HashAt(m, i) == if i < b then ChildHash(H, s, k, n, i) else None;
      OneMoreHash(m, b, h, i);
    }
  }

  lemma OneMoreHash(m: map<Nibble, Hash>, b: Nibble, h: Option<Hash>, i: Nibble)
    requires HashAt(m, b) == None
    ensures HashAt(if h.Some? then m[b := h.value] else m, i) == if i == b then h else HashAt(m, i)
  {
  }

  method HashSlot(H: Hasher, s: State, ghost k: nat, n: Id, b: Nibble, cache: Cache)
    returns (h: Option<Hash>, cache': Cache)
    requires InLayer(s, k, n) && CacheOk(H, s, k, cache) && |s.cells[n].prefix| < s.K
    ensures h == ChildHash(H, s, k, n, b) && CacheOk(H, s, k, cache')
    decreases s.K - |s.cells[n].prefix|, 0
  {
    assert Local(s.cells, Tree(s, k), s.K, n);
    h, cache' := None, cache;
    if b in s.cells[n].slots {
      ChildTrie(s, k, n, b);
      h, cache' := ComputeHash(H, s, k, s.cells[n].slots[b], cache);
    }
  }

  /** What is cached for a finalised layer stays right through every later run. */
  lemma CacheStays(z: State, K: nat, before: seq<Step>, s: State, after: seq<Step>, u: State, H: Hasher, k: nat, n: Id,
                   h: Option<Hash>)
    requires Init(z, K) && Executes(z, before, s) && Executes(s, after, u) && k < s.active
    requires InLayer(s, k, n) && h == LiveHash(H, NodeTrie(s, k, n))
    ensures InLayer(u, k, n) && h == LiveHash(H, NodeTrie(u, k, n))
  {
    InitInv(z, K);
    RunInv(z, before, s);
    RunInv(s, after, u);
    RunFreezes(s, after, u);
    assert LayerOk(u, k);
    StableTrie(s, u, k, n);
  }

  /** And it is right for every other layer that holds the node. */
  lemma CacheIsShared(H: Hasher, s: State, k: nat, j: nat, n: Id)
    requires InLayer(s, k, n) && InLayer(s, j, n)
    ensures LiveHash(H, NodeTrie(s, k, n)) == LiveHash(H, NodeTrie(s, j, n))
  {
    SharedTrie(s, k, j, n);
  }

  /**
   The hash of a layer is a function of its active entries: inactive leaves,
   emptied branches and chains with one active child leave no trace in it.
   */
  lemma LayerHashIsOfMap(H: Hasher, s: State, k: nat, u: State, j: nat)
    requires LayerOk(s, k) && LayerOk(u, j) && s.K == u.K && LayerMap(s, k) == LayerMap(u, j)
    ensures LiveHash(H, LayerTrie(s, k)) == LiveHash(H, LayerTrie(u, j))
  {
    TreeWellFormed(s.cells, Tree(s, k), s.rootIds[k], s.K, s.rootIds[k]);
    TreeWellFormed(u.cells, Tree(u, j), u.rootIds[j], u.K, u.rootIds[j]);
    LiveHashIsOfMap(H, LayerTrie(s, k), LayerTrie(u, j), s.K);
  }

  /** Layers with one hash hold the same active values, or the hash function collides. */
  lemma LayerHashCommits(H: Hasher, s: State, k: nat, u: State, j: nat) returns (x: Bytes, y: Bytes)
    requires LayerOk(s, k) && LayerOk(u, j) && s.K == u.K <= HEADER_NIBBLES
    requires LiveHash(H, LayerTrie(s, k)) == LiveHash(H, LayerTrie(u, j))
    ensures (LayerMap(s, k).Keys == LayerMap(u, j).Keys
             && forall key | key in LayerMap(s, k) :: LayerMap(s, k)[key].bytes == LayerMap(u, j)[key].bytes)
      || Clash(H, LiveDigests(H, Some(LayerTrie(s, k))), LiveDigests(H, Some(LayerTrie(u, j))), x, y)
  {
    TreeWellFormed(s.cells, Tree(s, k), s.rootIds[k], s.K, s.rootIds[k]);
    TreeWellFormed(u.cells, Tree(u, j), u.rootIds[j], u.K, u.rootIds[j]);
    x, y := LiveHashBinds(H, s.K, LayerTrie(s, k), LayerTrie(u, j));
    if SameLiveValues(Some(LayerTrie(s, k)), Some(LayerTrie(u, j))) {
      SameMapValues(LayerTrie(s, k), LayerTrie(u, j));
    }
  }

  lemma SameMapValues(s: Trie<()>, t: Trie<()>)
    requires SameLiveValues(Some(s), Some(t))
    ensures LiveContents(s).Keys == LiveContents(t).Keys
    ensures forall key | key in LiveContents(s) :: LiveContents(s)[key].bytes == LiveContents(t)[key].bytes
  {
    forall key: Key ensures key in LiveContents(s) <==> key in LiveContents(t)
      ensures key in LiveContents(s) ==> LiveContents(s)[key].bytes == LiveContents(t)[key].bytes
    {
      assert LiveValueAt(Some(s), key) == LiveValueAt(Some(t), key);
    }
  }
}
