/**
 Inserting, deleting, and marking for deletion in the batch trie.
 */
module BatchUpdates {

  import opened Nibbles
  import opened Tries
  import opened Hashing
  import opened BatchNodes
  import opened BatchMerge

  // ----- insert -----

  /** The value left at a key: a fresh leaf, or `InsertFn` applied to the old one; never marked. */
  function Inserted(f: Merger, x: Option<Entry>, e: Entry): Entry {
    (if x.Some? then f(x.value, e) else e).(live := true)
  }

  ghost predicate Puts(t: Node, r: Node, key: Key, e: Entry) {
    forall k: Key :: Get(r, k) == if k == key then Some(e) else Get(t, k)
  }

  /** Slot `z` is slot `x` with `e` put at `key`. */
  ghost predicate SlotPuts(x: Option<Node>, z: Node, key: Key, e: Entry) {
    forall k: Key :: Get(z, k) == if k == key then Some(e) else GetAt(x, k)
  }

  lemma BelowIsPut(H: Hasher, t: Node, K: nat, b: Nibble, z: Node, meta: Meta, key: Key, e: Entry)
    requires Good(H, t, K) && t.Branch? && Under(t.prefix, b, key)
    requires SlotGood(H, K, t.prefix, b, Some(z)) && SlotPuts(At(t.children, b), z, key, e)
    requires meta == Total(t).Plus(Total(z)).Minus(TotalAt(At(t.children, b)))
    ensures Good(H, WithSlot(t, b, z, meta), K) && Puts(t, WithSlot(t, b, z, meta), key, e)
    ensures Total(WithSlot(t, b, z, meta)) == meta
  {
    WithSlotTotal(t, b, z, meta);
    WithSlotGood(H, t, K, b, z, meta);
  }

  method InsertSlot(ghost H: Hasher, f: Merger, K: nat, ghost p: Key, ghost b: Nibble, x: Option<Node>, key: Key,
                    e: Entry)
    returns (z: Node, delta: Meta)
    requires SlotGood(H, K, p, b, x) && |key| == K && Under(p, b, key)
    ensures SlotGood(H, K, p, b, Some(z)) && SlotPuts(x, z, key, Inserted(f, GetAt(x, key), e))
    ensures delta == Total(z).Minus(TotalAt(x))
    decreases K - |p| - 1, 2
  {
    if x.Some? {
      z, delta := Insert(H, f, K, x.value, key, e);
      MatchUnder(p, b, x.value.Prefix(), key);
    } else {
      z := NewLeaf(key, Inserted(f, None, e));
      delta := z.ann.meta;
      LeafPuts(H, K, key, z.entry);
    }
  }

  lemma LeafPuts(H: Hasher, K: nat, key: Key, e: Entry)
    requires |key| == K
    ensures Good(H, NewLeaf(key, e), K) && SlotPuts(None, NewLeaf(key, e), key, e)
  {
  }

  method Insert(ghost H: Hasher, f: Merger, K: nat, t: Node, key: Key, e: Entry) returns (r: Node, delta: Meta)
    requires Good(H, t, K) && |key| == K
    ensures Good(H, r, K) && Puts(t, r, key, Inserted(f, Get(t, key), e))
    ensures Get(r, key) == Some((if Get(t, key).Some? then f(Get(t, key).value, e) else e).(live := true))
    ensures forall k: Key | k != key :: Get(r, k) == Get(t, k)
    ensures r.Prefix() == t.Prefix()[..MatchLen(t.Prefix(), key)]
    ensures delta == Total(r).Minus(Total(t))
    decreases K - |t.Prefix()|, 1
  {
    var n := MatchLen(t.Prefix(), key);
    if n < |t.Prefix()| {
      r, delta := InsertApart(H, f, K, t, key, e);
    } else if t.Leaf? {
      assert t.key == key;
      var v := Inserted(f, Some(t.entry), e);
      r, delta := NewLeaf(key, v), LeafMeta(v).Minus(t.ann.meta);
    } else {
      assert t.prefix < key;
      r, delta := InsertBelow(H, f, K, t, key, e);
    }
  }

  method InsertBelow(ghost H: Hasher, f: Merger, K: nat, t: Node, key: Key, e: Entry) returns (r: Node, delta: Meta)
    requires Good(H, t, K) && |key| == K && t.Branch? && t.prefix < key
    ensures Good(H, r, K) && Puts(t, r, key, Inserted(f, Get(t, key), e))
    ensures r.Prefix() == t.prefix
    ensures delta == Total(r).Minus(Total(t))
    decreases K - |t.Prefix()|, 0
  {
    var b := key[|t.prefix|];
    SlotIsGood(H, t, K, b);
    var z, d := InsertSlot(H, f, K, t.prefix, b, At(t.children, b), key, e);
    var meta := t.ann.meta.Plus(d);
    BelowIsPut(H, t, K, b, z, meta, key, Inserted(f, Get(t, key), e));
    r, delta := WithSlot(t, b, z, meta), d;
  }

  /** The node does not prefix the key: it moves down beside a new leaf. */
  method InsertApart(ghost H: Hasher, f: Merger, K: nat, t: Node, key: Key, e: Entry) returns (r: Node, delta: Meta)
    requires Good(H, t, K) && |key| == K && MatchLen(t.Prefix(), key) < |t.Prefix()|
    ensures Good(H, r, K) && Puts(t, r, key, Inserted(f, Get(t, key), e))
    ensures r.Prefix() == t.Prefix()[..MatchLen(t.Prefix(), key)]
    ensures delta == Total(r).Minus(Total(t))
  {
    var n := MatchLen(t.Prefix(), key);
    assert |t.Prefix()| <= K;
    assert t.Prefix()[..n] == key[..n];
    assert !(t.Prefix() <= key);
    MissesOutside(t, K, key);
    var leaf := NewLeaf(key, Inserted(f, None, e));
    r, delta := MergeApart(H, f, K, t, leaf);
    forall k: Key ensures Get(r, k) == if k == key then Some(leaf.entry) else Get(t, k) {
      assert Get(r, k) == Merged(f, Get(t, k), Get(leaf, k));
    }
  }

  // ----- deleting one key -----

  function SetAt(c: map<Nibble, Node>, b: Nibble, z: Option<Node>): map<Nibble, Node> {
    if z.Some? then c[b := z.value] else c - {b}
  }

  lemma ChangeSlotTo(c: map<Nibble, Node>, b: Nibble, z: Option<Node>)
    ensures SumOf(TotalsOf(SetAt(c, b, z)), 16) == SumOf(TotalsOf(c), 16).Plus(TotalAt(z)).Minus(TotalAt(At(c, b)))
    ensures At(SetAt(c, b, z), b) == z
    ensures forall i: Nibble | i != b :: At(SetAt(c, b, z), i) == At(c, i)
  {
    SumOfChange(TotalsOf(c), TotalsOf(SetAt(c, b, z)), b, 16);
  }

  /** A branch with good children is nearly good. */
  lemma NearlyFromSlots(H: Hasher, t: Node, K: nat)
    requires t.Branch? && |t.prefix| < K && t.ann.hash == None && t.ann.meta == Total(t) && |t.children| >= 1
    requires SlotsGood(H, K, t.prefix, t.children)
    ensures NearlyGood(H, t, K)
  {
    forall b | b in t.children ensures Good(H, t.children[b], K) && Under(t.prefix, b, t.children[b].Prefix()) {
      assert SlotGood(H, K, t.prefix, b, At(t.children, b));
    }
    GoodBranch(H, t, K);
  }

  ghost predicate Drops(t: Node, r: Node, key: Key) {
    forall k: Key :: Get(r, k) == if k == key then None else Get(t, k)
  }

  /** What a node looks like after slot `b` became `z`. */
  lemma SlotChanged(H: Hasher, t: Node, K: nat, b: Nibble, z: Option<Node>, r: Node)
    requires Good(H, t, K) && t.Branch? && SlotGood(H, K, t.prefix, b, z)
    requires r.Branch? && r.prefix == t.prefix && r.children == SetAt(t.children, b, z) && r.ann.hash == None
    requires r.ann.meta == Total(t).Plus(TotalAt(z)).Minus(TotalAt(At(t.children, b)))
    ensures NearlyGood(H, r, K) && Total(r) == r.ann.meta
  {
    GoodSlots(H, t, K);
    ChangeSlotTo(t.children, b, z);
    assert Totals(r) == TotalsOf(r.children);
    forall i: Nibble ensures SlotGood(H, K, r.prefix, i, At(r.children, i)) {
      assert SlotGood(H, K, t.prefix, i, At(t.children, i));
    }
    assert r.children.Keys >= t.children.Keys - {b};
    assert |t.children.Keys - {b}| >= |t.children.Keys| - 1;
    assert |r.children.Keys| >= |t.children.Keys - {b}| by {
      CardinalityAtLeast(t.children.Keys - {b}, r.children.Keys);
    }
    NearlyFromSlots(H, r, K);
  }

  lemma CardinalityAtLeast<T>(s: set<T>, t: set<T>)
    requires s <= t
    ensures |s| <= |t|
  {
    assert t == s + (t - s);
  }

  /** Returns whether the parent has to delete this node, the removed value, the node, and the metadata change. */
  method PerformDeletion(ghost H: Hasher, K: nat, t: Node, key: Key)
    returns (gone: bool, removed: Option<Entry>, r: Node, delta: Meta)
    requires Good(H, t, K) && |key| == K
    ensures removed == Get(t, key)
    ensures gone <==> t.Leaf? && t.key == key
    ensures gone ==> delta == ZERO.Minus(Total(t))
    ensures removed.None? ==> r == t && delta == ZERO
    ensures !gone ==> NearlyGood(H, r, K) && r.Prefix() == t.Prefix() && Drops(t, r, key)
    ensures !gone ==> delta == Total(r).Minus(Total(t))
    decreases t
  {
    gone, removed, r, delta := false, None, t, ZERO;
    if !(t.Prefix() <= key) {
      MissesOutside(t, K, key);
    } else if t.Leaf? {
      gone, removed, delta := true, Some(t.entry), ZERO.Minus(t.ann.meta);
    } else if key[|t.prefix|] in t.children {
      var b := key[|t.prefix|];
      GoodChild(H, t, K, b);
      var g, child, d;
      g, removed, child, d := PerformDeletion(H, K, t.children[b], key);
      if removed.Some? {
        r, delta := AfterDeletion(H, K, t, b, key, g, child, d);
      } else {
        assert child.Branch? ==> |child.children| != 1;
      }
    }
  }

  /** The node after its child was deleted, or contracted, or both left alone. */
  method AfterDeletion(ghost H: Hasher, ghost K: nat, t: Node, b: Nibble, ghost key: Key, g: bool, child: Node, d: Meta)
    returns (r: Node, delta: Meta)
    requires Good(H, t, K) && t.Branch? && b in t.children && Under(t.prefix, b, key) && |key| == K
    requires g <==> t.children[b].Leaf? && t.children[b].key == key
    requires g ==> d == ZERO.Minus(Total(t.children[b]))
    requires !g ==> NearlyGood(H, child, K) && child.Prefix() == t.children[b].Prefix()
    requires !g ==> Drops(t.children[b], child, key)
    requires !g ==> d == Total(child).Minus(Total(t.children[b]))
    ensures NearlyGood(H, r, K) && r.Prefix() == t.prefix && Drops(t, r, key) && delta == Total(r).Minus(Total(t))
  {
    var z := if g then None else Some(Contract(child));
    delta := d;
    r := Branch(t.prefix, SetAt(t.children, b, z), Note(t.ann.meta.Plus(d), None));
    DeletedSlot(H, K, t.prefix, b, t.children[b], key, g, child) by {
      GoodChild(H, t, K, b);
    }
    assert t.ann.meta == Total(t);
    SlotDelta(Total(t), Total(t.children[b]), TotalAt(z), d);
    SlotChanged(H, t, K, b, z, r);
    SlotsDrop(t, r, b, z, key);
  }

  lemma SlotDelta(t: Meta, x: Meta, z: Meta, d: Meta)
    requires d == z.Minus(x)
    ensures t.Plus(d) == t.Plus(z).Minus(x) && t.Plus(d).Minus(t) == d
  {
  }

  lemma DeletedSlot(H: Hasher, K: nat, p: Key, b: Nibble, x: Node, key: Key, g: bool, child: Node)
    requires Good(H, x, K) && Under(p, b, x.Prefix()) && (g <==> x.Leaf? && x.key == key)
    requires !g ==> NearlyGood(H, child, K) && child.Prefix() == x.Prefix() && Drops(x, child, key)
    ensures var z := if g then None else Some(Contract(child));
      && SlotGood(H, K, p, b, z) && SlotDrops(Some(x), z, key)
      && TotalAt(z) == (if g then ZERO else Total(child))
  {
    if !g { ContractIsGood(H, child, K); }
  }

  ghost predicate SlotDrops(x: Option<Node>, z: Option<Node>, key: Key) {
    forall k: Key :: GetAt(z, k) == if k == key then None else GetAt(x, k)
  }

  lemma SlotsDrop(t: Node, r: Node, b: Nibble, z: Option<Node>, key: Key)
    requires t.Branch? && r.Branch? && r.prefix == t.prefix
    requires r.children == SetAt(t.children, b, z) && Under(t.prefix, b, key)
    requires SlotDrops(At(t.children, b), z, key)
    ensures Drops(t, r, key)
  {
    forall k: Key ensures Get(r, k) == if k == key then None else Get(t, k) {
      assert GetAt(z, k) == if k == key then None else GetAt(At(t.children, b), k);
    }
  }
}
