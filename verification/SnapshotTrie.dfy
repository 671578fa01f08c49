/**
 The snapshot trie: changes through references, then one normalising hash.

 Over every sequence of handing out references, inserting and deleting through
 them, and hashing, the hash is the from-scratch hash of the canonical trie of the
 live entries, and that trie is what is left in memory.
 */
module SnapshotTrie {

  import opened Nibbles
  import opened Tries
  import opened Hashing
  import opened SnapshotNodes

  // ----- operations through a reference -----

  /** `insert` called on the node with prefix `q`; nodes above are not touched. */
  function InsertAt(t: Node, ghost K: nat, q: Key, key: Key, f: Update): Node
    requires WellFormed(t, K) && |key| == K && Open(t, q) && q <= key
    decreases t
  {
    if t.Prefix() == q then Insert(t, K, key, f)
    else Branch(t.prefix, t.children[q[|t.prefix|] := InsertAt(t.children[q[|t.prefix|]], K, q, key, f)], t.ann)
  }

  lemma {:induction false} OpenPrefix(t: Node, q: Key)
    requires Open(t, q)
    ensures t.Prefix() <= q
  {
  }

  /** Since the path to it is invalid, inserting through a reference is inserting at the root. */
  lemma {:induction false} InsertAtIsInsert(t: Node, K: nat, q: Key, key: Key, f: Update)
    requires WellFormed(t, K) && |key| == K && Open(t, q) && q <= key
    ensures t.Prefix() <= key && InsertAt(t, K, q, key, f) == Insert(t, K, key, f)
    decreases t
  {
    OpenPrefix(t, q);
    if t.Prefix() != q {
      var c := t.children[q[|t.prefix|]];
      OpenPrefix(c, q);
      InsertAtIsInsert(c, K, q, key, f);
    }
  }

  /** `delete_value` called on the node with prefix `q`. */
  function DeleteAt(t: Node, ghost K: nat, q: Key, key: Key): Removal
    requires WellFormed(t, K) && |key| == K && Open(t, q)
    decreases t
  {
    if t.Prefix() == q then Delete(t, K, key)
    else
      var z := DeleteAt(t.children[q[|t.prefix|]], K, q, key);
      Removal(z.done, Branch(t.prefix, t.children[q[|t.prefix|] := z.node], t.ann))
  }

  lemma {:induction false} DeleteAtCorrect(H: Hasher, t: Node, K: nat, q: Key, key: Key)
    requires WellFormed(t, K) && |key| == K && Open(t, q) && q <= key && SlotsCoherent(H, K, t)
    ensures DeleteAt(t, K, q, key).done <==> Get(t, key).Some?
    ensures var r := DeleteAt(t, K, q, key).node;
      WellFormed(r, K) && Coherent(H, K, r) && r.ann.None? && r.Prefix() == t.Prefix() && Drops(t, r, key)
    decreases t
  {
    if t.Prefix() == q {
      DeleteFinds(t, K, key);
      DeleteCorrect(H, t, K, key);
    } else {
      var b := q[|t.prefix|];
      var c := t.children[b];
      CoherentSlots(H, K, c);
      DeleteAtCorrect(H, c, K, q, key);
      var z := DeleteAt(c, K, q, key).node;
      WithChildKeeps(H, K, t, b, z);
      assert DeleteAt(t, K, q, key).node == WithChild(t, b, z);
      ChildDrops(t, K, b, z, key);
    }
  }

  // ----- other references stay open -----

  lemma {:induction false} OpenInsert(t: Node, K: nat, key: Key, f: Update, q: Key)
    requires WellFormed(t, K) && |key| == K && t.Prefix() <= key && Open(t, q)
    ensures Open(Insert(t, K, key, f), q)
    decreases K - |t.Prefix()|
  {
    if t.Prefix() != q && key[|t.prefix|] == q[|t.prefix|] {
      var b := key[|t.prefix|];
      var c := t.children[b];
      OpenPrefix(c, q);
      if c.Prefix() <= key {
        OpenInsert(c, K, key, f, q);
      } else {
        assert WellFormed(c, K);
        Joins(t.prefix, b, c.Prefix(), key);
        var node := Between(c, key[..MatchLen(c.Prefix(), key)]);
        OpenBetween(c, node.prefix, q, key[|node.prefix|], Leaf(key, f(None), None));
      }
    }
  }

  lemma OpenBetween(c: Node, p: Key, q: Key, d: Nibble, z: Node)
    requires p < c.Prefix() <= q && Open(c, q) && d != c.Prefix()[|p|]
    ensures Open(Between(c, p), q) && Open(WithChild(Between(c, p), d, z), q)
  {
  }

  lemma {:induction false} OpenMakeRef(t: Node, K: nat, q: Key, o: Key)
    requires WellFormed(t, K) && |q| <= K && t.Prefix() <= q && Open(t, o)
    ensures Open(MakeRef(t, K, q), o)
    decreases K - |t.Prefix()|
  {
    if t.Prefix() != q && t.Prefix() != o && q[|t.prefix|] == o[|t.prefix|] {
      var b := q[|t.prefix|];
      var c := t.children[b];
      OpenPrefix(c, o);
      if c.Prefix() <= q {
        OpenMakeRef(c, K, q, o);
      } else {
        Joins(t.prefix, b, c.Prefix(), q);
        var node := Between(c, q[..MatchLen(c.Prefix(), q)]);
        if node.prefix == q {
          OpenBetween(c, node.prefix, o, if c.Prefix()[|node.prefix|] == 0 then 1 else 0, NewNode(K, q));
        } else {
          OpenBetween(c, node.prefix, o, q[|node.prefix|], NewNode(K, q));
        }
      }
    }
  }

  lemma {:induction false} OpenDelete(t: Node, K: nat, key: Key, o: Key)
    requires WellFormed(t, K) && |key| == K && Open(t, o)
    requires o != key || t.Prefix() == key || !Delete(t, K, key).done
    ensures Open(Delete(t, K, key).node, o)
  {
    if t.Prefix() != o && key[|t.prefix|] == o[|t.prefix|] {
      OpenDelete(t.children[key[|t.prefix|]], K, key, o);
    }
  }

  lemma {:induction false} OpenDeleteAt(t: Node, K: nat, q: Key, key: Key, o: Key)
    requires WellFormed(t, K) && |key| == K && Open(t, q) && q <= key && Open(t, o)
    requires o != key || q == key || !DeleteAt(t, K, q, key).done
    ensures Open(DeleteAt(t, K, q, key).node, o)
    decreases t
  {
    if t.Prefix() == q {
      OpenDelete(t, K, key, o);
    } else if t.Prefix() != o && q[|t.prefix|] == o[|t.prefix|] {
      OpenDeleteAt(t.children[q[|t.prefix|]], K, q, key, o);
    }
  }
}
