/**
 Nodes of the snapshot trie and the operations that change them.

 A node caches its hash; changes are made through references to inner nodes, whose
 ancestors were invalidated when the reference was handed out.  Empty leaves, empty
 branches and one-child branches stay until the next normalisation.
 */
module SnapshotNodes {

  import opened Nibbles
  import opened Tries
  import opened Digests
  import opened Hashing

  /** The annotation is the cached hash; none means `hash_valid` is false. */
  type Node = Trie<Option<Hash>>

  /** A leaf without a value (`std::nullopt`). */
  const EMPTY := Entry([], 0, false)

  // ----- cached hashes -----

  ghost predicate AllLive(t: Node)
  {
    match t
    case Leaf(_, e, _) => e.live
    case Branch(_, c, _) => forall b | b in c :: AllLive(c[b])
  }

  /** Every node below has its hash cached, and it is the right one. */
  ghost predicate AllHashed(H: Hasher, t: Node)
  {
    && t.ann == Some(PlainHash(H, t))
    && (t.Branch? ==> forall b | b in t.children :: AllHashed(H, t.children[b]))
  }

  /** A subtree in normal form with all hashes in place. */
  ghost predicate Settled(H: Hasher, K: nat, t: Node) {
    Canonical(t, K) && AllLive(t) && AllHashed(H, t)
  }

  /** Below the root, a node with a valid hash is settled. */
  ghost predicate Coherent(H: Hasher, K: nat, t: Node)
  {
    && (t.ann.Some? ==> Settled(H, K, t))
    && (t.Branch? ==> forall b | b in t.children :: Coherent(H, K, t.children[b]))
  }

  /** The node with prefix `q` exists, and it and all its ancestors are invalid. */
  ghost predicate Open(t: Node, q: Key)
  {
    && t.ann.None?
    && (t.Prefix() == q || (t.Branch? && t.prefix < q && q[|t.prefix|] in t.children
      && Open(t.children[q[|t.prefix|]], q)))
  }

  lemma {:induction false} SettledIsCoherent(H: Hasher, K: nat, t: Node)
    requires Settled(H, K, t)
    ensures Coherent(H, K, t)
  {
    if t.Branch? {
      forall b | b in t.children ensures Coherent(H, K, t.children[b]) {
        SettledIsCoherent(H, K, t.children[b]);
      }
    }
  }

  /** Invalidating a node leaves its children alone. */
  function Invalid(t: Node): Node {
    t.(ann := None)
  }

  function WithChild(t: Node, b: Nibble, z: Node): Node
    requires t.Branch?
  {
    Branch(t.prefix, t.children[b := z], None)
  }

  // ----- insert -----

  /** What `insert` makes of the value at the key: merged, emplaced, or new. */
  type Update = Option<Entry> -> Entry

  /** A branch put in between, holding the old child. */
  function Between(child: Node, p: Key): Node
    requires p < child.Prefix()
  {
    Branch(p, map[child.Prefix()[|p|] := child], None)
  }

  lemma Joins(p: Key, b: Nibble, q: Key, key: Key)
    requires Under(p, b, q) && Under(p, b, key) && !(q <= key)
    ensures var join := MatchLen(q, key);
      Under(p, b, key[..join]) && key[..join] < q && (!(key <= q) ==> join < |key| && key[join] != q[join])
  {
    JoinLength(p, b, q, key);
    var join := MatchLen(q, key);
    assert join == |key| ==> key[..join] == key && q[..join] == key;
  }

  /** `insert` on a node that prefixes the key; every node on the way is invalidated. */
  function Insert(t: Node, ghost K: nat, key: Key, f: Update): Node
    requires WellFormed(t, K) && |key| == K && t.Prefix() <= key
    decreases K - |t.Prefix()|, |t.Prefix()|
  {
    match t
    case Leaf(k, e, _) => Leaf(k, f(Some(e)), None)
    case Branch(p, c, _) =>
      var b := key[|p|];
      if b !in c then WithChild(t, b, Leaf(key, f(None), None))
      else if c[b].Prefix() <= key then WithChild(t, b, Insert(c[b], K, key, f))
      else
        assert WellFormed(c[b], K);
        Joins(p, b, c[b].Prefix(), key);
        var node := Between(c[b], key[..MatchLen(c[b].Prefix(), key)]);
        WithChild(t, b, WithChild(node, key[|node.prefix|], Leaf(key, f(None), None)))
  }

  // ----- delete -----

  /** Whether the assertions passed, and the node as it is left either way. */
  datatype Removal = Removal(done: bool, node: Node)

  /** `delete_value`; it invalidates its way before it finds out that there is nothing to delete. */
  function Delete(t: Node, ghost K: nat, key: Key): Removal
    requires WellFormed(t, K) && |key| == K
    decreases t
  {
    match t
    case Leaf(k, _, _) => if k == key then Removal(true, Leaf(k, EMPTY, None)) else Removal(false, Invalid(t))
    case Branch(p, c, _) =>
      var b := key[|p|];
      if b !in c then Removal(false, Invalid(t))
      else if c[b].Leaf? && c[b].key == key then Removal(true, Branch(p, c - {b}, None))
      else
        var z := Delete(c[b], K, key);
        Removal(z.done, WithChild(t, b, z.node))
  }

  // ----- references to inner nodes -----

  /**
   `get_or_make_subnode_ref` and `invalidate_hash_to_node`: the node with prefix `q` exists and its path
   is invalid.
   */
  function MakeRef(t: Node, K: nat, q: Key): Node
    requires WellFormed(t, K) && |q| <= K && t.Prefix() <= q
    decreases K - |t.Prefix()|
  {
    if t.Prefix() == q then Invalid(t)
    else
      var Branch(p, c, _) := t;
      var b := q[|p|];
      if b !in c then WithChild(t, b, NewNode(K, q))
      else if c[b].Prefix() <= q then WithChild(t, b, MakeRef(c[b], K, q))
      else
        Joins(p, b, c[b].Prefix(), q);
        var node := Between(c[b], q[..MatchLen(c[b].Prefix(), q)]);
        WithChild(t, b, if node.prefix == q then node else WithChild(node, q[|node.prefix|], NewNode(K, q)))
  }

  function NewNode(K: nat, q: Key): Node {
    if |q| == K then Leaf(q, EMPTY, None) else Branch(q, map[], None)
  }

  // ----- what these do to lookups and caches -----

  ghost predicate SlotsCoherent(H: Hasher, K: nat, t: Node) {
    t.Branch? ==> forall b | b in t.children :: WellFormed(t.children[b], K) && Coherent(H, K, t.children[b])
  }

  lemma WithChildKeeps(H: Hasher, K: nat, t: Node, b: Nibble, z: Node)
    requires t.Branch? && WellFormed(t, K) && SlotsCoherent(H, K, t)
    requires WellFormed(z, K) && Coherent(H, K, z) && Under(t.prefix, b, z.Prefix())
    ensures WellFormed(WithChild(t, b, z), K) && Coherent(H, K, WithChild(t, b, z))
  {
  }

  lemma BetweenKeeps(H: Hasher, K: nat, child: Node, p: Key)
    requires WellFormed(child, K) && Coherent(H, K, child) && p < child.Prefix()
    ensures WellFormed(Between(child, p), K) && Coherent(H, K, Between(child, p))
    ensures forall k: Key :: Get(Between(child, p), k) == Get(child, k)
  {
    forall k: Key ensures Get(Between(child, p), k) == Get(child, k) {
      if Get(child, k).Some? { GetPrefix(child, K, k); }
    }
  }

  ghost predicate Puts(t: Node, r: Node, key: Key, e: Entry) {
    forall k: Key :: Get(r, k) == if k == key then Some(e) else Get(t, k)
  }

  lemma ChildPuts(t: Node, K: nat, b: Nibble, z: Node, key: Key, e: Entry)
    requires t.Branch? && WellFormed(t, K) && Under(t.prefix, b, key)
    requires forall k: Key :: Get(z, k) == if k == key then Some(e)
      else (if b in t.children then Get(t.children[b], k) else None)
    ensures Puts(t, WithChild(t, b, z), key, e)
  {
  }

  lemma {:induction false} InsertCorrect(H: Hasher, t: Node, K: nat, key: Key, f: Update)
    requires WellFormed(t, K) && |key| == K && t.Prefix() <= key && SlotsCoherent(H, K, t)
    ensures var r := Insert(t, K, key, f);
      && WellFormed(r, K) && Coherent(H, K, r) && r.ann.None? && r.Prefix() == t.Prefix()
      && Puts(t, r, key, f(Get(t, key)))
    decreases K - |t.Prefix()|
  {
    if t.Branch? {
      var b := key[|t.prefix|];
      var leaf: Node := Leaf(key, f(None), None);
      if b !in t.children {
        WithChildKeeps(H, K, t, b, leaf);
      } else {
        var c := t.children[b];
        if c.Prefix() <= key {
          CoherentSlots(H, K, c);
          InsertCorrect(H, c, K, key, f);
          WithChildKeeps(H, K, t, b, Insert(c, K, key, f));
          ChildPuts(t, K, b, Insert(c, K, key, f), key, f(Get(c, key)));
        } else {
          InsertBetween(H, t, K, key, f);
        }
      }
    }
  }

  lemma CoherentSlots(H: Hasher, K: nat, t: Node)
    requires WellFormed(t, K) && Coherent(H, K, t)
    ensures SlotsCoherent(H, K, t)
  {
  }

  lemma InsertBetween(H: Hasher, t: Node, K: nat, key: Key, f: Update)
    requires WellFormed(t, K) && |key| == K && t.Branch? && t.prefix < key && SlotsCoherent(H, K, t)
    requires key[|t.prefix|] in t.children && !(t.children[key[|t.prefix|]].Prefix() <= key)
    ensures var r := Insert(t, K, key, f);
      && WellFormed(r, K) && Coherent(H, K, r) && Puts(t, r, key, f(Get(t, key)))
  {
    var b := key[|t.prefix|];
    var c := t.children[b];
    assert |c.Prefix()| <= K;
    Joins(t.prefix, b, c.Prefix(), key);
    var node := Between(c, key[..MatchLen(c.Prefix(), key)]);
    var leaf: Node := Leaf(key, f(None), None);
    var d := key[|node.prefix|];
    BetweenKeeps(H, K, c, node.prefix);
    CoherentSlots(H, K, node);
    WithChildKeeps(H, K, node, d, leaf);
    ChildPuts(node, K, d, leaf, key, f(None));
    WithChildKeeps(H, K, t, b, WithChild(node, d, leaf));
    MissesOutside(c, K, key);
    ChildPuts(t, K, b, WithChild(node, d, leaf), key, f(None));
  }

  // ----- deleting -----

  ghost predicate Drops(t: Node, r: Node, key: Key) {
    forall k: Key :: LiveOnly(Get(r, k)) == if k == key then None else LiveOnly(Get(t, k))
  }

  lemma {:induction false} DeleteFinds(t: Node, K: nat, key: Key)
    requires WellFormed(t, K) && |key| == K
    ensures Delete(t, K, key).done <==> Get(t, key).Some?
  {
    if t.Branch? && key[|t.prefix|] in t.children {
      var c := t.children[key[|t.prefix|]];
      DeleteFinds(c, K, key);
      if Get(c, key).Some? { GetPrefix(c, K, key); }
    }
  }

  lemma {:induction false} DeleteCorrect(H: Hasher, t: Node, K: nat, key: Key)
    requires WellFormed(t, K) && |key| == K && SlotsCoherent(H, K, t)
    ensures var r := Delete(t, K, key).node;
      WellFormed(r, K) && Coherent(H, K, r) && r.ann.None? && r.Prefix() == t.Prefix() && Drops(t, r, key)
  {
    if t.Branch? && key[|t.prefix|] in t.children {
      var b := key[|t.prefix|];
      var c := t.children[b];
      if !(c.Leaf? && c.key == key) {
        CoherentSlots(H, K, c);
        DeleteCorrect(H, c, K, key);
        WithChildKeeps(H, K, t, b, Delete(c, K, key).node);
        ChildDrops(t, K, b, Delete(c, K, key).node, key);
      }
    } else {
      InvalidKeeps(H, K, t);
      NothingToDrop(t, K, key);
    }
  }

  lemma ChildDrops(t: Node, K: nat, b: Nibble, z: Node, key: Key)
    requires t.Branch? && WellFormed(t, K) && b in t.children && Drops(t.children[b], z, key)
    requires t.prefix < key ==> key[|t.prefix|] == b
    ensures Drops(t, WithChild(t, b, z), key)
  {
  }

  lemma InvalidKeeps(H: Hasher, K: nat, t: Node)
    requires WellFormed(t, K) && SlotsCoherent(H, K, t)
    ensures WellFormed(Invalid(t), K) && Coherent(H, K, Invalid(t)) && forall k: Key :: Get(Invalid(t), k) == Get(t, k)
  {
  }

  lemma NothingToDrop(t: Node, K: nat, key: Key)
    requires WellFormed(t, K) && |key| == K && (t.Branch? ==> key[|t.prefix|] !in t.children)
    ensures Drops(t, Delete(t, K, key).node, key)
  {
  }

  // ----- references -----

  /** Live entries are the same. */
  ghost predicate SameLive(t: Node, r: Node) {
    forall k: Key :: LiveOnly(Get(r, k)) == LiveOnly(Get(t, k))
  }

  lemma ChildSameLive(t: Node, K: nat, b: Nibble, z: Node)
    requires t.Branch? && WellFormed(t, K)
    requires forall k: Key :: LiveOnly(Get(z, k)) == (if b in t.children then LiveOnly(Get(t.children[b], k)) else None)
    ensures SameLive(t, WithChild(t, b, z))
  {
  }

  lemma NewNodeKeeps(H: Hasher, K: nat, q: Key)
    requires |q| <= K
    ensures WellFormed(NewNode(K, q), K) && Coherent(H, K, NewNode(K, q)) && NewNode(K, q).Prefix() == q
    ensures Open(NewNode(K, q), q)
    ensures forall k: Key :: LiveOnly(Get(NewNode(K, q), k)) == None
  {
  }

  lemma {:induction false} MakeRefCorrect(H: Hasher, t: Node, K: nat, q: Key)
    requires WellFormed(t, K) && |q| <= K && t.Prefix() <= q && SlotsCoherent(H, K, t)
    ensures var r := MakeRef(t, K, q);
      WellFormed(r, K) && Coherent(H, K, r) && r.Prefix() == t.Prefix() && Open(r, q) && SameLive(t, r)
    decreases K - |t.Prefix()|
  {
    if t.Prefix() != q {
      var b := q[|t.prefix|];
      NewNodeKeeps(H, K, q);
      if b !in t.children {
        WithChildKeeps(H, K, t, b, NewNode(K, q));
        ChildSameLive(t, K, b, NewNode(K, q));
      } else {
        var c := t.children[b];
        if c.Prefix() <= q {
          CoherentSlots(H, K, c);
          MakeRefCorrect(H, c, K, q);
          WithChildKeeps(H, K, t, b, MakeRef(c, K, q));
          ChildSameLive(t, K, b, MakeRef(c, K, q));
        } else {
          MakeBetween(H, t, K, q);
        }
      }
    }
  }

  lemma MakeBetween(H: Hasher, t: Node, K: nat, q: Key)
    requires WellFormed(t, K) && |q| <= K && t.Branch? && t.prefix < q && SlotsCoherent(H, K, t)
    requires q[|t.prefix|] in t.children && !(t.children[q[|t.prefix|]].Prefix() <= q)
    ensures var r := MakeRef(t, K, q);
      WellFormed(r, K) && Coherent(H, K, r) && Open(r, q) && SameLive(t, r)
  {
    var b := q[|t.prefix|];
    var c := t.children[b];
    Joins(t.prefix, b, c.Prefix(), q);
    var node := Between(c, q[..MatchLen(c.Prefix(), q)]);
    BetweenKeeps(H, K, c, node.prefix);
    var z := WithNew(node, K, q);
    WithNewKeeps(H, K, node, q);
    WithChildKeeps(H, K, t, b, z);
    ChildSameLive(t, K, b, z);
  }

  /** A branch put in between, with the new node below it unless it is that node. */
  function WithNew(node: Node, K: nat, q: Key): Node
    requires node.Branch? && node.prefix <= q
  {
    if node.prefix == q then node else WithChild(node, q[|node.prefix|], NewNode(K, q))
  }

  lemma WithNewKeeps(H: Hasher, K: nat, node: Node, q: Key)
    requires node.Branch? && node.ann.None? && WellFormed(node, K) && Coherent(H, K, node)
    requires node.prefix <= q && |q| <= K && (node.prefix < q ==> q[|node.prefix|] !in node.children)
    ensures var z := WithNew(node, K, q);
      WellFormed(z, K) && Coherent(H, K, z) && Open(z, q) && SameLive(node, z) && z.Prefix() == node.prefix
  {
    CoherentSlots(H, K, node);
    NewNodeKeeps(H, K, q);
    if node.prefix != q {
      WithChildKeeps(H, K, node, q[|node.prefix|], NewNode(K, q));
      ChildSameLive(node, K, q[|node.prefix|], NewNode(K, q));
    }
  }
}
