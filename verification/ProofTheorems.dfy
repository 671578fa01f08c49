/**
 Soundness and completeness of Merkle proofs.
 */
module ProofTheorems {

  import opened Nibbles
  import opened Tries
  import opened Digests
  import opened Hashing
  import opened Proofs

  /** The bytes hashed for a node of a trie. */
  function NodeDigest<A>(H: Hasher, t: Trie<A>): Bytes {
    if t.Leaf? then LeafDigest(t.key, t.entry.bytes) else BranchDigest(t.prefix, PlainHashes(H, t))
  }

  /** The bytes hashed for all nodes of a trie. */
  ghost function TrieDigests<A>(H: Hasher, t: Trie<A>): set<Bytes>
  {
    match t
    case Leaf(_, _, _) => {NodeDigest(H, t)}
    case Branch(_, c, _) => {NodeDigest(H, t)} + set b, d | b in c && d in TrieDigests(H, c[b]) :: d
  }

  // ----- a layer that hashes the bytes of a node describes that node -----

  lemma ClearedKeepsFront(x: Bytes, y: Bytes, s: nat)
    requires y != [] || s == 0
    ensures |LastCleared(x + y, s)| >= |x| && LastCleared(x + y, s)[..|x|] == x
  {
    ClearedLast(x, y, s);
  }

  lemma SomeBytes(len: nat)
    requires len <= 4 * HEADER_NIBBLES
    ensures (len + 7) / 8 % 256 == 0 ==> len == 0
  {
    assert (len + 7) / 8 < 256;
  }

  lemma HeaderStart(key: Key, len: nat)
    requires 0 < |key| <= HEADER_NIBBLES && len <= 4 * |key|
    ensures |HeaderAt(key, len)| >= 2 && HeaderAt(key, len)[..2] == BigEndian16(len)
  {
    var n := (len + 7) / 8 % 256;
    SomeBytes(len);
    ClearedKeepsFront(BigEndian16(len), if n <= |Packed(key)| then Packed(key)[..n] else Packed(key), len % 8);
  }

  lemma NodeStart(H: Hasher, t: Trie<()>, K: nat)
    requires WellFormed(t, K) && K <= HEADER_NIBBLES
    ensures |NodeDigest(H, t)| >= 2 && NodeDigest(H, t)[..2] == BigEndian16(4 * |t.Prefix()|)
  {
    HeaderIsWhole(t.Prefix(), []);
  }

  /** The part of a node's digest after its header. */
  function NodeTail<A>(H: Hasher, t: Trie<A>): Bytes {
    if t.Leaf? then t.entry.bytes else BitVector(PlainHashes(H, t).Keys) + Concat(PlainHashes(H, t), 0)
  }

  lemma SameHeader(H: Hasher, K: nat, key: Key, len: nat, tail: Bytes, t: Trie<()>)
    requires |key| == K && 0 < K <= HEADER_NIBBLES && len <= 4 * K && WellFormed(t, K)
    requires HeaderAt(key, len) + tail == NodeDigest(H, t)
    ensures len == 4 * |t.Prefix()| && t.Prefix() <= key && tail == NodeTail(H, t)
  {
    var d := NodeDigest(H, t);
    HeaderStart(key, len);
    NodeStart(H, t, K);
    assert d[..2] == HeaderAt(key, len)[..2];
    BigEndian16Injective(len, 4 * |t.Prefix()|);
    var n := |t.Prefix()|;
    HeaderAtIsHeader(key, n);
    HeaderInjective(key[..n], t.Prefix(), tail, NodeTail(H, t));
  }

  lemma {:induction false} FillSelf(bv: set<Nibble>, b: nat, data: seq<Bytes>, idx: nat, self: Nibble,
                                    carried: Option<Hash>)
    requires b <= self && self in bv && Fill(bv, b, data, idx, self, carried).Some?
    ensures carried.Some? && self in Fill(bv, b, data, idx, self, carried).value
    ensures Fill(bv, b, data, idx, self, carried).value[self] == carried.value
    decreases 16 - b
  {
    if b < self {
      FillSelf(bv, b + 1, data, if b in bv then idx + 1 else idx, self, carried);
    }
  }

  /** What a layer that hashes a node's bytes says about that node. */
  ghost predicate Describes(H: Hasher, key: Key, layer: Layer, below: Option<Carry>, t: Trie<()>) {
    && layer.len == 4 * |t.Prefix()| && t.Prefix() <= key
    && if t.Leaf? then below.None? && |layer.data| == 1 && layer.data[0] == t.entry.bytes
       else
         && t.prefix < key
         && (key[|t.prefix|] in t.children <==> below.Some?)
         && (below.Some? ==> below.value.hash == PlainHash(H, t.children[key[|t.prefix|]]))
  }

  lemma LeafLayer(H: Hasher, K: nat, key: Key, layer: Layer, below: Option<Carry>, t: Trie<()>)
    requires |key| == K && 0 < K <= HEADER_NIBBLES && WellFormed(t, K) && layer.len == 4 * K
    requires LayerStep(key, layer, below) == Digest(NodeDigest(H, t))
    ensures Describes(H, key, layer, below, t)
  {
    SameHeader(H, K, key, layer.len, layer.data[0], t);
  }

  /** The hashes behind the digest of a branch layer. */
  lemma BranchStep(key: Key, layer: Layer, below: Option<Carry>, d: Bytes) returns (m: map<Nibble, Hash>)
    requires LayerStep(key, layer, below) == Digest(d) && layer.len < 4 * |key|
    ensures m.Keys == layer.bv && d == HeaderAt(key, layer.len) + (BitVector(layer.bv) + Concat(m, 0))
    ensures BitsAt(key, layer.len) in layer.bv <==> below.Some?
    ensures below.Some? ==> m[BitsAt(key, layer.len)] == below.value.hash
  {
    var self := BitsAt(key, layer.len);
    var carried := if below.Some? then Some(below.value.hash) else None;
    FillBytesIsConcat(layer.bv, 0, layer.data, 0, self, carried);
    m := Fill(layer.bv, 0, layer.data, 0, self, carried).value;
    assert layer.bv == m.Keys;
    if self in layer.bv {
      FillSelf(layer.bv, 0, layer.data, 0, self, carried);
    }
  }

  lemma BranchDescribes(H: Hasher, K: nat, key: Key, layer: Layer, below: Option<Carry>, t: Trie<()>,
                        m: map<Nibble, Hash>)
    requires |key| == K && 0 < K <= HEADER_NIBBLES && WellFormed(t, K) && layer.len < 4 * K && m.Keys == layer.bv
    requires layer.len == 4 * |t.Prefix()| && t.Prefix() <= key && BitVector(layer.bv) + Concat(m, 0) == NodeTail(H, t)
    requires key[|t.Prefix()|] in layer.bv <==> below.Some?
    requires below.Some? ==> m[key[|t.Prefix()|]] == below.value.hash
    ensures Describes(H, key, layer, below, t)
  {
    TailInjective(m, PlainHashes(H, t));
  }

  lemma LayerDescribes(H: Hasher, K: nat, key: Key, layer: Layer, below: Option<Carry>, t: Trie<()>)
    requires |key| == K && 0 < K <= HEADER_NIBBLES && WellFormed(t, K)
    requires LayerStep(key, layer, below) == Digest(NodeDigest(H, t))
    ensures Describes(H, key, layer, below, t)
  {
    if layer.len == 4 * K {
      LeafLayer(H, K, key, layer, below, t);
    } else {
      var m := BranchStep(key, layer, below, NodeDigest(H, t));
      BranchLayer(H, K, key, layer, below, t, m);
    }
  }

  lemma BranchLayer(H: Hasher, K: nat, key: Key, layer: Layer, below: Option<Carry>, t: Trie<()>, m: map<Nibble, Hash>)
    requires |key| == K && 0 < K <= HEADER_NIBBLES && WellFormed(t, K) && layer.len < 4 * K && m.Keys == layer.bv
    requires HeaderAt(key, layer.len) + (BitVector(layer.bv) + Concat(m, 0)) == NodeDigest(H, t)
    requires BitsAt(key, layer.len) in layer.bv <==> below.Some?
    requires below.Some? ==> m[BitsAt(key, layer.len)] == below.value.hash
    ensures Describes(H, key, layer, below, t)
  {
    SameHeader(H, K, key, layer.len, BitVector(layer.bv) + Concat(m, 0), t);
    BitsAtNibble(key, |t.Prefix()|);
    BranchDescribes(H, K, key, layer, below, t, m);
  }

  lemma BitsAtNibble(key: Key, n: nat)
    requires n < |key|
    ensures BitsAt(key, 4 * n) == key[n]
  {
  }

  // ----- soundness -----

  /** What a proof whose first layer is `layer` claims about its key. */
  ghost predicate Claim(t: Trie<()>, key: Key, layer: Layer) {
    if layer.len == 4 * |key| then |layer.data| == 1 && Get(t, key).Some? && Get(t, key).value.bytes == layer.data[0]
    else Get(t, key) == None
  }

  /** Two different byte strings with one hash, the first hashed by the checker and the second in the trie. */
  ghost predicate Collision(H: Hasher, digests: seq<Bytes>, t: Trie<()>, x: Bytes, y: Bytes) {
    x != y && H(x) == H(y) && x in digests && y in TrieDigests(H, t)
  }

  lemma {:induction false} LastStep(H: Hasher, F: Stepper, stack: seq<Layer>, n: nat)
    requires 0 < n <= |stack| && Check(H, F, stack, n).Run?
    ensures Check(H, F, stack, n - 1).Run?
    ensures var ds, es := Check(H, F, stack, n).digests, Check(H, F, stack, n - 1).digests;
      es == ds[..n - 1] && F(stack[n - 1], Below(H, stack, es)) == Digest(ds[n - 1])
  {
  }

  /** The top layer describes the node whose bytes it hashed. */
  lemma TopDescribes(H: Hasher, K: nat, key: Key, stack: seq<Layer>, n: nat, ds: seq<Bytes>, t: Trie<()>)
    requires |key| == K && 0 < K <= HEADER_NIBBLES && WellFormed(t, K) && 0 < n <= |stack|
    requires Check(H, StepOf(key), stack, n) == Run(ds) && ds[n - 1] == NodeDigest(H, t)
    ensures Check(H, StepOf(key), stack, n - 1) == Run(ds[..n - 1])
    ensures Describes(H, key, stack[n - 1], Below(H, stack, ds[..n - 1]), t)
  {
    LastStep(H, StepOf(key), stack, n);
    assert StepOf(key)(stack[n - 1], Below(H, stack, ds[..n - 1]))
      == LayerStep(key, stack[n - 1], Below(H, stack, ds[..n - 1]));
    LayerDescribes(H, K, key, stack[n - 1], Below(H, stack, ds[..n - 1]), t);
  }

  lemma {:induction false} SoundFrom(H: Hasher, K: nat, key: Key, stack: seq<Layer>, n: nat, ds: seq<Bytes>,
                                     t: Trie<()>)
    returns (x: Bytes, y: Bytes)
    requires |key| == K && 0 < K <= HEADER_NIBBLES && WellFormed(t, K) && 0 < n <= |stack|
    requires Check(H, StepOf(key), stack, n) == Run(ds) && H(ds[n - 1]) == PlainHash(H, t)
    ensures Claim(t, key, stack[0]) || Collision(H, ds, t, x, y)
    decreases n, 1
  {
    if ds[n - 1] != NodeDigest(H, t) {
      x, y := ds[n - 1], NodeDigest(H, t);
      TopCollides(H, ds, n - 1, t);
    } else if n == 1 {
      x, y := [], [];
      FirstClaim(H, K, key, stack, ds, t);
    } else {
      x, y := SoundBelow(H, K, key, stack, n, ds, t);
    }
  }

  lemma {:induction false} SoundBelow(H: Hasher, K: nat, key: Key, stack: seq<Layer>, n: nat, ds: seq<Bytes>,
                                      t: Trie<()>)
    returns (x: Bytes, y: Bytes)
    requires |key| == K && 0 < K <= HEADER_NIBBLES && WellFormed(t, K) && 1 < n <= |stack|
    requires Check(H, StepOf(key), stack, n) == Run(ds) && ds[n - 1] == NodeDigest(H, t)
    ensures Claim(t, key, stack[0]) || Collision(H, ds, t, x, y)
    decreases n, 0
  {
    var es, c := TopChild(H, K, key, stack, n, ds, t);
    x, y := SoundFrom(H, K, key, stack, n - 1, es, c);
    SoundAbove(H, key, stack[0], ds, es, t, c, x, y);
  }

  lemma FirstClaim(H: Hasher, K: nat, key: Key, stack: seq<Layer>, ds: seq<Bytes>, t: Trie<()>)
    requires |key| == K && 0 < K <= HEADER_NIBBLES && WellFormed(t, K) && 0 < |stack|
    requires Check(H, StepOf(key), stack, 1) == Run(ds) && ds[0] == NodeDigest(H, t)
    ensures Claim(t, key, stack[0])
  {
    TopDescribes(H, K, key, stack, 1, ds, t);
    DescribedClaim(H, key, stack[0], t);
  }

  /** What is found out about the child the key leads to is found out about the node. */
  lemma SoundAbove(H: Hasher, key: Key, layer: Layer, ds: seq<Bytes>, es: seq<Bytes>, t: Trie<()>, c: Trie<()>,
                   x: Bytes, y: Bytes)
    requires t.Branch? && t.prefix < key && key[|t.prefix|] in t.children && c == t.children[key[|t.prefix|]]
    requires Among(es, ds) && (Claim(c, key, layer) || Collision(H, es, c, x, y))
    ensures Claim(t, key, layer) || Collision(H, ds, t, x, y)
  {
    if Claim(c, key, layer) {
      ClaimAbove(t, key, layer);
    } else {
      CollisionBelow(H, ds, es, t, key[|t.prefix|], x, y);
    }
  }

  ghost predicate Among(es: seq<Bytes>, ds: seq<Bytes>) {
    forall x | x in es :: x in ds
  }

  lemma TopCollides(H: Hasher, ds: seq<Bytes>, i: nat, t: Trie<()>)
    requires i < |ds| && ds[i] != NodeDigest(H, t) && H(ds[i]) == PlainHash(H, t)
    ensures Collision(H, ds, t, ds[i], NodeDigest(H, t))
  {
  }

  lemma ClaimAbove(t: Trie<()>, key: Key, layer: Layer)
    requires t.Branch? && t.prefix < key && key[|t.prefix|] in t.children
    requires Claim(t.children[key[|t.prefix|]], key, layer)
    ensures Claim(t, key, layer)
  {
  }

  /** Where a lower layer exists, it was carried to the child the key leads to. */
  lemma TopChild(H: Hasher, K: nat, key: Key, stack: seq<Layer>, n: nat, ds: seq<Bytes>, t: Trie<()>)
    returns (es: seq<Bytes>, c: Trie<()>)
    requires |key| == K && 0 < K <= HEADER_NIBBLES && WellFormed(t, K) && 1 < n <= |stack|
    requires Check(H, StepOf(key), stack, n) == Run(ds) && ds[n - 1] == NodeDigest(H, t)
    ensures t.Branch? && t.prefix < key && key[|t.prefix|] in t.children && c == t.children[key[|t.prefix|]]
    ensures WellFormed(c, K) && es == ds[..n - 1] && Among(es, ds) && Check(H, StepOf(key), stack, n - 1) == Run(es)
    ensures H(es[n - 2]) == PlainHash(H, c)
  {
    TopDescribes(H, K, key, stack, n, ds, t);
    assert Below(H, stack, ds[..n - 1]) == Some(Carry(H(ds[n - 2]), stack[n - 2].len));
    es, c := ds[..n - 1], t.children[key[|t.prefix|]];
  }

  lemma DescribedClaim(H: Hasher, key: Key, layer: Layer, t: Trie<()>)
    requires Describes(H, key, layer, None, t)
    ensures Claim(t, key, layer)
  {
    if t.Leaf? && layer.len == 4 * |key| { assert t.key == key; }
  }

  lemma CollisionBelow(H: Hasher, ds: seq<Bytes>, es: seq<Bytes>, t: Trie<()>, b: Nibble, x: Bytes, y: Bytes)
    requires Among(es, ds) && t.Branch? && b in t.children && Collision(H, es, t.children[b], x, y)
    ensures Collision(H, ds, t, x, y)
  {
  }

  /**
   Soundness: if a proof is accepted against the root hash of a trie, its claim
   holds of that trie (the key has that value, or the key is absent), unless the
   hash function collides on two byte strings that were hashed.
   */
  lemma ProofSoundness(H: Hasher, K: nat, proof: Proof, t: Trie<()>) returns (digests: seq<Bytes>, x: Bytes, y: Bytes)
    requires |proof.key| == K && 0 < K <= HEADER_NIBBLES && WellFormed(t, K)
    requires VerdictOf(H, proof, PlainHash(H, t)) == Accept
    ensures proof.stack != []
    ensures Check(H, StepOf(proof.key), proof.stack, |proof.stack|) == Run(digests)
    ensures Claim(t, proof.key, proof.stack[0]) || Collision(H, digests, t, x, y)
  {
    digests := Check(H, StepOf(proof.key), proof.stack, |proof.stack|).digests;
    x, y := SoundFrom(H, K, proof.key, proof.stack, |proof.stack|, digests, t);
  }

  // ----- making proofs -----

  /** The hashes of slots `b` and up, without slot `skip`. */
  function HashList(m: map<Nibble, Hash>, b: nat, skip: Nibble): seq<Bytes>
    requires b <= 16
    decreases 16 - b
  {
    if b == 16 then []
    else (if b in m && b != skip then [m[b]] else []) + HashList(m, b + 1, skip)
  }

  function BranchLayerOf(H: Hasher, t: Trie<()>, skip: Nibble): Layer
    requires t.Branch?
  {
    Layer(4 * |t.prefix|, t.children.Keys, HashList(PlainHashes(H, t), 0, skip))
  }

  /** `make_proof` for a whole key: the layers from the node where the search ends up to `t`. */
  function MakeStack(H: Hasher, t: Trie<()>, key: Key): seq<Layer>
  {
    match t
    case Leaf(k, e, _) => [Layer(4 * |k|, {}, [e.bytes])]
    case Branch(p, c, _) =>
      if |p| >= |key| then []
      else if p < key && key[|p|] in c then
        MakeStack(H, c[key[|p|]], key) + [BranchLayerOf(H, t, key[|p|])]
      else
        [Layer(4 * |p|, c.Keys, AllHashes(PlainHashes(H, t), 0))]
  }

  function AllHashes(m: map<Nibble, Hash>, b: nat): seq<Bytes>
    requires b <= 16
    decreases 16 - b
  {
    if b == 16 then [] else (if b in m then [m[b]] else []) + AllHashes(m, b + 1)
  }

  lemma {:induction false} NothingSkipped(m: map<Nibble, Hash>, b: nat, skip: Nibble)
    requires b <= 16 && skip !in m
    ensures AllHashes(m, b) == HashList(m, b, skip)
    decreases 16 - b
  {
    if b < 16 { NothingSkipped(m, b + 1, skip); }
  }

  /** The search for `key` ends at a node that does not prefix it. */
  predicate EndsAside(t: Trie<()>, key: Key)
  {
    match t
    case Leaf(k, _, _) => k != key
    case Branch(p, c, _) => if p < key then key[|p|] in c && EndsAside(c[key[|p|]], key) else true
  }

  function Tail(m: map<Nibble, Hash>, b: nat): map<Nibble, Hash> {
    map i | i in m && b <= i :: m[i]
  }

  /** The checker puts the listed hashes back into their slots. */
  lemma {:induction false} FillHashes(m: map<Nibble, Hash>, b: nat, data: seq<Bytes>, idx: nat, self: Nibble,
                                      carried: Option<Hash>)
    requires b <= 16 && idx <= |data| && data[idx..] == HashList(m, b, self)
    requires self in m ==> carried == Some(m[self])
    ensures Fill(m.Keys, b, data, idx, self, carried) == Some(Tail(m, b))
    decreases 16 - b
  {
    if b == 16 {
      assert Tail(m, b) == map[];
    } else if b in m && b != self {
      assert data[idx..] == [m[b]] + HashList(m, b + 1, self);
      assert data[idx..][0] == data[idx] == m[b];
      assert data[idx..][1..] == data[idx + 1..];
      FillHashes(m, b + 1, data, idx + 1, self, carried);
      TailStep(m, b);
    } else {
      assert HashList(m, b, self) == HashList(m, b + 1, self);
      FillHashes(m, b + 1, data, idx, self, carried);
      TailStep(m, b);
    }
  }

  lemma TailStep(m: map<Nibble, Hash>, b: Nibble)
    ensures Tail(m, b) == if b in m then Tail(m, b + 1)[b := m[b]] else Tail(m, b + 1)
  {
  }

  lemma WholeFill(m: map<Nibble, Hash>, data: seq<Bytes>, self: Nibble, carried: Option<Hash>)
    requires data == HashList(m, 0, self) && (self in m ==> carried == Some(m[self]))
    ensures FillBytes(m.Keys, 0, data, 0, self, carried) == Some(Concat(m, 0))
  {
    assert data[0..] == data && Tail(m, 0) == m;
    FillHashes(m, 0, data, 0, self, carried);
    FillBytesIsConcat(m.Keys, 0, data, 0, self, carried);
  }

  /** A layer made from a node hashes the node's bytes. */
  lemma MadeLayer(H: Hasher, K: nat, key: Key, t: Trie<()>, data: seq<Bytes>, below: Option<Carry>)
    requires |key| == K && 0 < K <= HEADER_NIBBLES && WellFormed(t, K) && t.Branch? && t.prefix < key
    requires data == HashList(PlainHashes(H, t), 0, key[|t.prefix|])
    requires below.Some? <==> key[|t.prefix|] in t.children
    requires below.Some? ==> below.value.hash == PlainHash(H, t.children[key[|t.prefix|]])
    requires below.Some? ==> below.value.len > 4 * |t.prefix|
    ensures LayerStep(key, Layer(4 * |t.prefix|, t.children.Keys, data), below) == Digest(NodeDigest(H, t))
  {
    var m := PlainHashes(H, t);
    assert key[..|t.prefix|] == t.prefix && m.Keys == t.children.Keys;
    ListedLayer(key, |t.prefix|, m, data, below);
  }

  lemma ListedLayer(key: Key, n: nat, m: map<Nibble, Hash>, data: seq<Bytes>, below: Option<Carry>)
    requires n < |key| <= HEADER_NIBBLES && data == HashList(m, 0, key[n])
    requires below.Some? <==> key[n] in m
    requires below.Some? ==> below.value.hash == m[key[n]] && below.value.len > 4 * n
    ensures LayerStep(key, Layer(4 * n, m.Keys, data), below) == Digest(BranchDigest(key[..n], m))
  {
    BitsAtNibble(key, n);
    HeaderAtIsHeader(key, n);
    WholeFill(m, data, key[n], if below.Some? then Some(below.value.hash) else None);
  }

  lemma MadeLeaf(H: Hasher, K: nat, key: Key, t: Trie<()>)
    requires |key| == K && 0 < K <= HEADER_NIBBLES && t.Leaf? && t.key == key
    ensures LayerStep(key, Layer(4 * K, {}, [t.entry.bytes]), None) == Digest(NodeDigest(H, t))
  {
    HeaderAtIsHeader(key, K);
    assert key[..K] == key;
  }

  lemma {:induction false} CheckPrefix(H: Hasher, F: Stepper, stack: seq<Layer>, top: Layer, n: nat)
    requires n <= |stack|
    ensures Check(H, F, stack + [top], n) == Check(H, F, stack, n)
  {
    if n > 0 {
      CheckPrefix(H, F, stack, top, n - 1);
      assert (stack + [top])[n - 1] == stack[n - 1];
      if n > 1 { assert (stack + [top])[n - 2] == stack[n - 2]; }
    }
  }

  /** The proof made below `t` checks up to the hash of `t`. */
  ghost predicate ChecksTo(H: Hasher, key: Key, stack: seq<Layer>, t: Trie<()>) {
    var r := Check(H, StepOf(key), stack, |stack|);
    && |stack| > 0 && stack[|stack| - 1].len == 4 * |t.Prefix()|
    && r.Run? && r.digests[|stack| - 1] == NodeDigest(H, t)
  }

  lemma ChecksOneMore(H: Hasher, key: Key, stack: seq<Layer>, c: Trie<()>, top: Layer, t: Trie<()>)
    requires ChecksTo(H, key, stack, c) && top.len == 4 * |t.Prefix()|
    requires LayerStep(key, top, Some(Carry(PlainHash(H, c), 4 * |c.Prefix()|))) == Digest(NodeDigest(H, t))
    ensures ChecksTo(H, key, stack + [top], t)
  {
    var ds, carry := ChecksInto(H, key, stack, c);
    PushesOne(H, StepOf(key), stack, top, ds, carry, NodeDigest(H, t));
    Appended(stack, top);
    Appended(ds, NodeDigest(H, t));
    EndsIn(H, key, stack + [top], ds + [NodeDigest(H, t)], t);
  }

  lemma Appended<A>(s: seq<A>, x: A)
    ensures |s + [x]| == |s| + 1 && (s + [x])[|s|] == x
  {
  }

  lemma ChecksInto(H: Hasher, key: Key, stack: seq<Layer>, c: Trie<()>) returns (ds: seq<Bytes>, carry: Option<Carry>)
    requires ChecksTo(H, key, stack, c)
    ensures |stack| > 0 && Check(H, StepOf(key), stack, |stack|) == Run(ds)
    ensures carry == Some(Carry(H(ds[|stack| - 1]), stack[|stack| - 1].len))
    ensures carry == Some(Carry(PlainHash(H, c), 4 * |c.Prefix()|))
  {
    ds := Check(H, StepOf(key), stack, |stack|).digests;
    carry := Some(Carry(H(ds[|stack| - 1]), stack[|stack| - 1].len));
  }

  lemma EndsIn(H: Hasher, key: Key, stack: seq<Layer>, ds: seq<Bytes>, t: Trie<()>)
    requires Check(H, StepOf(key), stack, |stack|) == Run(ds) && |stack| > 0
    requires ds[|stack| - 1] == NodeDigest(H, t) && stack[|stack| - 1].len == 4 * |t.Prefix()|
    ensures ChecksTo(H, key, stack, t)
  {
  }

  lemma PushesOne(H: Hasher, F: Stepper, stack: seq<Layer>, top: Layer, ds: seq<Bytes>, carry: Option<Carry>, d: Bytes)
    requires |stack| > 0 && Check(H, F, stack, |stack|) == Run(ds) && F(top, carry) == Digest(d)
    requires carry == Some(Carry(H(ds[|stack| - 1]), stack[|stack| - 1].len))
    ensures Check(H, F, stack + [top], |stack| + 1) == Run(ds + [d])
  {
    CheckPrefix(H, F, stack, top, |stack|);
    BelowTop(H, stack, top, ds);
    StepMore(H, F, stack + [top], |stack|, ds, carry, d);
  }

  lemma BelowTop(H: Hasher, stack: seq<Layer>, top: Layer, ds: seq<Bytes>)
    requires |ds| == |stack| > 0
    ensures Below(H, stack + [top], ds) == Some(Carry(H(ds[|stack| - 1]), stack[|stack| - 1].len))
    ensures (stack + [top])[|stack|] == top
  {
  }

  /** One layer more, from what the layers below came to. */
  lemma StepMore(H: Hasher, F: Stepper, stack: seq<Layer>, n: nat, ds: seq<Bytes>, below: Option<Carry>, d: Bytes)
    requires n < |stack| && Check(H, F, stack, n) == Run(ds) && Below(H, stack, ds) == below
    requires F(stack[n], below) == Digest(d)
    ensures Check(H, F, stack, n + 1) == Run(ds + [d])
  {
  }

  lemma ChecksFirst(H: Hasher, key: Key, layer: Layer, t: Trie<()>)
    requires layer.len == 4 * |t.Prefix()| && LayerStep(key, layer, None) == Digest(NodeDigest(H, t))
    ensures ChecksTo(H, key, [layer], t)
  {
    var F := StepOf(key);
    assert Check(H, F, [layer], 0) == Run([]);
    assert F(layer, Below(H, [layer], [])) == Digest(NodeDigest(H, t));
    assert Check(H, F, [layer], 1) == Run([] + [NodeDigest(H, t)]);
  }

  lemma {:induction false} MadeStackChecks(H: Hasher, K: nat, key: Key, t: Trie<()>)
    requires |key| == K && 0 < K <= HEADER_NIBBLES && WellFormed(t, K) && !EndsAside(t, key)
    ensures ChecksTo(H, key, MakeStack(H, t, key), t)
    decreases t
  {
    if t.Leaf? {
      MadeLeaf(H, K, key, t);
      ChecksFirst(H, key, Layer(4 * K, {}, [t.entry.bytes]), t);
    } else {
      var b := key[|t.prefix|];
      if b in t.children {
        var c := t.children[b];
        MadeStackChecks(H, K, key, c);
        MadeLayer(H, K, key, t, HashList(PlainHashes(H, t), 0, b), Some(Carry(PlainHash(H, c), 4 * |c.Prefix()|)));
        ChecksOneMore(H, key, MakeStack(H, c, key), c, BranchLayerOf(H, t, b), t);
      } else {
        NothingSkipped(PlainHashes(H, t), 0, b);
        MadeLayer(H, K, key, t, AllHashes(PlainHashes(H, t), 0), None);
        ChecksFirst(H, key, Layer(4 * |t.prefix|, t.children.Keys, AllHashes(PlainHashes(H, t), 0)), t);
      }
    }
  }

  /**
   Completeness: the proof made for a key is accepted whenever the search for the
   key ends at its leaf or at an empty slot of a node that prefixes it.
   */
  lemma ProofCompleteness(H: Hasher, K: nat, key: Key, t: Trie<()>)
    requires |key| == K && 0 < K <= HEADER_NIBBLES && WellFormed(t, K) && !EndsAside(t, key)
    ensures VerdictOf(H, Proof(key, MakeStack(H, t, key)), PlainHash(H, t)) == Accept
  {
    MadeStackChecks(H, K, key, t);
  }

  lemma AcceptRuns(H: Hasher, F: Stepper, stack: seq<Layer>, root: Hash) returns (ds: seq<Bytes>)
    requires Verdicts(H, F, stack, root) == Accept
    ensures |ds| == |stack| > 0 && Check(H, F, stack, |stack|) == Run(ds) && H(ds[|stack| - 1]) == root
  {
    ds := Check(H, F, stack, |stack|).digests;
  }

  lemma {:induction false} PresentIsNotAside(t: Trie<()>, key: Key)
    requires Get(t, key).Some?
    ensures !EndsAside(t, key)
  {
    if t.Branch? { PresentIsNotAside(t.children[key[|t.prefix|]], key); }
  }

  lemma {:induction false} AsideFails(H: Hasher, K: nat, key: Key, t: Trie<()>, stack: seq<Layer>, n: nat,
                                      ds: seq<Bytes>)
    returns (x: Bytes, y: Bytes)
    requires |key| == K && 0 < K <= HEADER_NIBBLES && WellFormed(t, K) && EndsAside(t, key)
    requires stack == MakeStack(H, t, key) && n == |stack| > 0
    requires Check(H, StepOf(key), stack, n) == Run(ds) && H(ds[n - 1]) == PlainHash(H, t)
    ensures Collision(H, ds, t, x, y)
    decreases t
  {
    if ds[n - 1] != NodeDigest(H, t) {
      x, y := ds[n - 1], NodeDigest(H, t);
      TopCollides(H, ds, n - 1, t);
    } else {
      var es, c, under := AsideDown(H, K, key, t, stack, n, ds);
      x, y := AsideFails(H, K, key, c, under, n - 1, es);
      CollisionBelow(H, ds, es, t, key[|t.prefix|], x, y);
    }
  }

  /** Where the top layer hashed the bytes of the node, the same holds one level down. */
  lemma AsideDown(H: Hasher, K: nat, key: Key, t: Trie<()>, stack: seq<Layer>, n: nat, ds: seq<Bytes>)
    returns (es: seq<Bytes>, c: Trie<()>, under: seq<Layer>)
    requires |key| == K && 0 < K <= HEADER_NIBBLES && WellFormed(t, K) && EndsAside(t, key)
    requires stack == MakeStack(H, t, key) && n == |stack| > 0
    requires Check(H, StepOf(key), stack, n) == Run(ds) && ds[n - 1] == NodeDigest(H, t)
    ensures t.Branch? && t.prefix < key && key[|t.prefix|] in t.children && c == t.children[key[|t.prefix|]]
    ensures n > 1 && WellFormed(c, K) && EndsAside(c, key) && under == MakeStack(H, c, key) && |under| == n - 1
    ensures Check(H, StepOf(key), under, n - 1) == Run(es) && Among(es, ds) && H(es[n - 2]) == PlainHash(H, c)
  {
    AsideTop(H, K, key, t, stack, n, ds);
    es, c := TopChild(H, K, key, stack, n, ds, t);
    var top;
    under, top := AsideStack(H, t, key, stack);
    CheckPrefix(H, StepOf(key), under, top, n - 1);
  }

  lemma AsideTop(H: Hasher, K: nat, key: Key, t: Trie<()>, stack: seq<Layer>, n: nat, ds: seq<Bytes>)
    requires |key| == K && 0 < K <= HEADER_NIBBLES && WellFormed(t, K) && EndsAside(t, key) && 0 < n <= |stack|
    requires Check(H, StepOf(key), stack, n) == Run(ds) && ds[n - 1] == NodeDigest(H, t)
    ensures n > 1 && t.Branch? && t.prefix < key && key[|t.prefix|] in t.children
  {
    TopDescribes(H, K, key, stack, n, ds, t);
    AsideGoesOn(H, K, key, stack[n - 1], Below(H, stack, ds[..n - 1]), t);
  }

  /** A layer that describes a node does not end the search aside at that node. */
  lemma AsideGoesOn(H: Hasher, K: nat, key: Key, layer: Layer, below: Option<Carry>, t: Trie<()>)
    requires |key| == K && WellFormed(t, K) && EndsAside(t, key) && Describes(H, key, layer, below, t)
    ensures t.Branch? && t.prefix < key && key[|t.prefix|] in t.children && below.Some?
  {
  }

  /** The stack made at a branch on the way is the stack of its child under one more layer. */
  lemma AsideStack(H: Hasher, t: Trie<()>, key: Key, stack: seq<Layer>) returns (under: seq<Layer>, top: Layer)
    requires stack == MakeStack(H, t, key) && EndsAside(t, key)
    requires t.Branch? && t.prefix < key && key[|t.prefix|] in t.children
    ensures var c := t.children[key[|t.prefix|]];
      under == MakeStack(H, c, key) && EndsAside(c, key) && stack == under + [top]
  {
    var b := key[|t.prefix|];
    under, top := MakeStack(H, t.children[b], key), BranchLayerOf(H, t, b);
  }

  /** The condition is exact: where the search ends aside, acceptance would show a collision. */
  lemma AsideIsNotAccepted(H: Hasher, K: nat, key: Key, t: Trie<()>) returns (digests: seq<Bytes>, x: Bytes, y: Bytes)
    requires |key| == K && 0 < K <= HEADER_NIBBLES && WellFormed(t, K) && EndsAside(t, key)
    requires VerdictOf(H, Proof(key, MakeStack(H, t, key)), PlainHash(H, t)) == Accept
    ensures Check(H, StepOf(key), MakeStack(H, t, key), |MakeStack(H, t, key)|) == Run(digests)
    ensures Collision(H, digests, t, x, y)
  {
    var stack := MakeStack(H, t, key);
    digests := AcceptRuns(H, StepOf(key), stack, PlainHash(H, t));
    x, y := AsideFails(H, K, key, t, stack, |stack|, digests);
  }
}
