/**
 Nodes of the batch trie: metadata and cached hashes.

 A node carries the sum of its leaves' metadata, maintained by deltas, and a
 cached hash that may be invalid.  Metadata is a commutative group; the model has
 the number of leaves, the number of leaves marked for deletion, and the endowment.
 Nodes are owned by their parents through unique pointers, so a subtree is a value.
 */
module BatchNodes {

  import opened Nibbles
  import opened Tries
  import opened Digests
  import opened Hashing

  datatype Meta = Meta(size: int, deleted: int, endow: int) {
    function Plus(m: Meta): Meta {
      Meta(size + m.size, deleted + m.deleted, endow + m.endow)
    }

    function Minus(m: Meta): Meta {
      Meta(size - m.size, deleted - m.deleted, endow - m.endow)
    }
  }

  const ZERO := Meta(0, 0, 0)

  /** Metadata and hash of a node; no hash means `hash_valid` is false. */
  datatype Note = Note(meta: Meta, hash: Option<Hash>)

  type Node = Trie<Note>

  function LeafMeta(e: Entry): Meta {
    Meta(1, if e.live then 0 else 1, e.endow)
  }

  // ----- sums -----

  /** Sum over the slots below `b`. */
  function SumOf(m: map<Nibble, Meta>, b: nat): Meta
    requires b <= 16
  {
    if b == 0 then ZERO else if b - 1 in m then SumOf(m, b - 1).Plus(m[b - 1]) else SumOf(m, b - 1)
  }

  function Value(m: map<Nibble, Meta>, b: Nibble): Meta {
    if b in m then m[b] else ZERO
  }

  /** Two sums differ by what differs in the one slot in which the maps differ. */
  lemma {:induction false} SumOfChange(m: map<Nibble, Meta>, n: map<Nibble, Meta>, d: Nibble, b: nat)
    requires b <= 16 && forall i: Nibble | i != d :: (i in m <==> i in n) && (i in m ==> m[i] == n[i])
    ensures SumOf(n, b) == if d < b then SumOf(m, b).Plus(Value(n, d)).Minus(Value(m, d)) else SumOf(m, b)
  {
    if b > 0 {
      SumOfChange(m, n, d, b - 1);
    }
  }

  lemma {:induction false} SumOfNothing(b: nat)
    requires b <= 16
    ensures SumOf(map[], b) == ZERO
  {
    if b > 0 { SumOfNothing(b - 1); }
  }

  lemma {:induction false} SumOfOne(n: map<Nibble, Meta>, d: Nibble, b: nat)
    requires d in n && b <= 16 && forall i | i in n :: i == d
    ensures SumOf(n, b) == if d < b then n[d] else ZERO
  {
    if b > 0 { SumOfOne(n, d, b - 1); }
  }

  /** The metadata a subtree ought to have, computed from its entries. */
  ghost function Total<A>(t: Trie<A>): Meta
    decreases t, 1
  {
    match t
    case Leaf(_, e, _) => LeafMeta(e)
    case Branch(_, _, _) => SumOf(Totals(t), 16)
  }

  ghost function Totals<A>(t: Trie<A>): map<Nibble, Meta>
    requires t.Branch?
    decreases t, 0
  {
    map b | b in t.children :: Total(t.children[b])
  }

  /** Replacing, adding or removing one child changes the total by the difference. */
  lemma TotalChange<A, B>(s: Trie<A>, t: Trie<B>, d: Nibble)
    requires s.Branch? && t.Branch?
    requires forall i: Nibble | i != d :: (i in s.children <==> i in t.children)
    requires forall i: Nibble | i != d && i in s.children && i in t.children ::
      Total(s.children[i]) == Total(t.children[i])
    ensures Total(t) == Total(s).Plus(Value(Totals(t), d)).Minus(Value(Totals(s), d))
  {
    SumOfChange(Totals(s), Totals(t), d, 16);
  }

  lemma {:induction false} SameTotal<A, B>(s: Trie<A>, t: Trie<B>)
    requires Same(s, t)
    ensures Total(s) == Total(t)
  {
    if s.Branch? {
      forall b | b in s.children ensures Total(s.children[b]) == Total(t.children[b]) {
        SameTotal(s.children[b], t.children[b]);
      }
      assert Totals(s) == Totals(t);
    }
  }

  // ----- well-kept nodes -----

  /** Every node's stored metadata is the total of its subtree. */
  ghost predicate Exact(t: Node)
  {
    && t.ann.meta == Total(t)
    && (t.Branch? ==> forall b | b in t.children :: Exact(t.children[b]))
  }

  /** A valid cached hash of a node with live entries is that node's hash. */
  ghost predicate Coherent(H: Hasher, t: Node)
  {
    && (t.ann.hash.Some? && LiveHash(H, t).Some? ==> t.ann.hash == LiveHash(H, t))
    && (t.Branch? ==> forall b | b in t.children :: Coherent(H, t.children[b]))
  }

  ghost predicate Good(H: Hasher, t: Node, K: nat) {
    Canonical(t, K) && Exact(t) && Coherent(H, t)
  }

  /** Like `Good`, but the node itself may have a single child (its parent has to contract it). */
  ghost predicate NearlyGood(H: Hasher, t: Node, K: nat) {
    && WellFormed(t, K) && Exact(t) && Coherent(H, t)
    && (t.Branch? ==> |t.children| >= 1 && forall b | b in t.children :: Dense(t.children[b]))
  }

  lemma GoodChild(H: Hasher, t: Node, K: nat, b: Nibble)
    requires NearlyGood(H, t, K) && t.Branch? && b in t.children
    ensures Good(H, t.children[b], K) && Under(t.prefix, b, t.children[b].Prefix())
    ensures t.ann.meta == Total(t) && t.children[b].ann.meta == Total(t.children[b])
  {
  }

  /** A branch put together from good children. */
  lemma GoodBranch(H: Hasher, t: Node, K: nat)
    requires t.Branch? && |t.prefix| < K && t.ann.hash == None && t.ann.meta == Total(t)
    requires forall b | b in t.children :: Good(H, t.children[b], K) && Under(t.prefix, b, t.children[b].Prefix())
    ensures |t.children| >= 2 ==> Good(H, t, K)
    ensures |t.children| >= 1 ==> NearlyGood(H, t, K)
  {
    ExactBranch(t);
    CoherentBranch(H, t);
    if |t.children| >= 2 { CanonicalBranch(t, K); }
  }

  lemma ExactBranch(t: Node)
    requires t.Branch? && t.ann.meta == Total(t) && forall b | b in t.children :: Exact(t.children[b])
    ensures Exact(t)
  {
  }

  lemma CoherentBranch(H: Hasher, t: Node)
    requires t.Branch? && t.ann.hash == None && forall b | b in t.children :: Coherent(H, t.children[b])
    ensures Coherent(H, t)
  {
  }

  function NewLeaf(k: Key, e: Entry): Node {
    Leaf(k, e, Note(LeafMeta(e), None))
  }

  /** `single_child` and `get_single_child`. */
  function Contract(t: Node): Node {
    if t.Branch? && |t.children| == 1 && Lowest(t.children, 0).Some? then Lowest(t.children, 0).value else t
  }

  lemma OnlyChildTotal(t: Node, b: Nibble)
    requires t.Branch? && b in t.children && forall d | d in t.children :: d == b
    ensures Total(t) == Total(t.children[b])
  {
    SumOfOne(Totals(t), b, 16);
  }

  lemma OnlyChildGet(t: Node, K: nat, b: Nibble, k: Key)
    requires t.Branch? && WellFormed(t, K) && b in t.children && forall d | d in t.children :: d == b
    ensures Get(t.children[b], k) == Get(t, k)
  {
    if Get(t.children[b], k).Some? { GetPrefix(t.children[b], K, k); }
  }

  lemma ContractIsGood(H: Hasher, t: Node, K: nat)
    requires NearlyGood(H, t, K)
    ensures Good(H, Contract(t), K) && t.Prefix() <= Contract(t).Prefix()
    ensures Total(Contract(t)) == Total(t)
    ensures forall k: Key :: Get(Contract(t), k) == Get(t, k)
  {
    if t.Branch? && |t.children| == 1 {
      var b :| b in t.children;
      LowestOfOne(t.children, b);
      GoodChild(H, t, K, b);
      OnlyChildTotal(t, b);
      forall k: Key ensures Get(Contract(t), k) == Get(t, k) {
        OnlyChildGet(t, K, b, k);
      }
    }
  }
}
