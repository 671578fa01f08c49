/**
 Deletion marks of the batch trie: setting, clearing and carrying them out.

 A marked entry stays in the trie but does not count; the hash looks through it.
 Carrying out the marks removes exactly the marked entries and contracts what is
 left, so that the hash before and after is the same.
 */
module BatchMarks {

  import opened Nibbles
  import opened Tries
  import opened Hashing
  import opened BatchNodes
  import opened BatchMerge
  import opened BatchUpdates

  // ----- marks -----

  function Remarked(x: Option<Entry>, live: bool): Option<Entry> {
    if x.Some? then Some(x.value.(live := live)) else None
  }

  /** `r` is `t` with the mark of `key` set or cleared. */
  ghost predicate Marks(t: Node, r: Node, key: Key, live: bool) {
    forall k: Key :: Get(r, k) == if k == key then Remarked(Get(t, k), live) else Get(t, k)
  }

  lemma BelowIsMarked(H: Hasher, t: Node, K: nat, b: Nibble, z: Node, meta: Meta, key: Key, live: bool)
    requires Good(H, t, K) && t.Branch? && Under(t.prefix, b, key) && b in t.children
    requires SlotGood(H, K, t.prefix, b, Some(z)) && Marks(t.children[b], z, key, live)
    requires meta == Total(t).Plus(Total(z)).Minus(Total(t.children[b]))
    ensures Good(H, WithSlot(t, b, z, meta), K) && Marks(t, WithSlot(t, b, z, meta), key, live)
    ensures Total(WithSlot(t, b, z, meta)) == meta
  {
    WithSlotTotal(t, b, z, meta);
    WithSlotGood(H, t, K, b, z, meta);
  }

  /** A leaf's mark flips from `!live` to `live`, if it is there to flip. */
  method FlipMark(ghost H: Hasher, ghost K: nat, t: Node, live: bool)
    returns (value: Option<Entry>, r: Node, delta: Meta)
    requires Good(H, t, K) && t.Leaf?
    ensures Good(H, r, K) && r.Prefix() == t.Prefix() && Marks(t, r, t.key, live)
    ensures delta == Total(r).Minus(Total(t))
    ensures value == (if t.entry.live != live then Some(t.entry) else None)
    ensures value.None? ==> r == t && delta == ZERO
  {
    if t.entry.live != live {
      value, delta := Some(t.entry), Meta(0, if live then -1 else 1, 0);
      r := Leaf(t.key, t.entry.(live := live), Note(t.ann.meta.Plus(delta), None));
    } else {
      value, r, delta := None, t, ZERO;
    }
  }

  method MarkForDeletion(ghost H: Hasher, K: nat, t: Node, key: Key)
    returns (value: Option<Entry>, r: Node, delta: Meta)
    requires Good(H, t, K) && |key| == K
    ensures Good(H, r, K) && r.Prefix() == t.Prefix() && Marks(t, r, key, false)
    ensures delta == Total(r).Minus(Total(t))
    ensures value == LiveOnly(Get(t, key))
    decreases t
  {
    value, r, delta := None, t, ZERO;
    if !(t.Prefix() <= key) {
      MissesOutside(t, K, key);
    } else if t.Leaf? {
      value, r, delta := FlipMark(H, K, t, false);
    } else if key[|t.prefix|] in t.children {
      var b := key[|t.prefix|];
      GoodChild(H, t, K, b);
      var z;
      value, z, delta := MarkForDeletion(H, K, t.children[b], key);
      r := WithSlot(t, b, z, t.ann.meta.Plus(delta));
      BelowIsMarked(H, t, K, b, z, t.ann.meta.Plus(delta), key, false);
    }
  }

  /** A path without a mark to clear keeps its cached hashes. */
  method UnmarkForDeletion(ghost H: Hasher, K: nat, t: Node, key: Key)
    returns (value: Option<Entry>, r: Node, delta: Meta)
    requires Good(H, t, K) && |key| == K
    ensures Good(H, r, K) && r.Prefix() == t.Prefix() && Marks(t, r, key, true)
    ensures delta == Total(r).Minus(Total(t))
    ensures value == (if Get(t, key).Some? && !Get(t, key).value.live then Get(t, key) else None)
    ensures value.None? ==> r == t && delta == ZERO
    decreases t
  {
    value, r, delta := None, t, ZERO;
    if !(t.Prefix() <= key) {
      MissesOutside(t, K, key);
    } else if t.Leaf? {
      value, r, delta := FlipMark(H, K, t, true);
    } else if key[|t.prefix|] in t.children {
      var b := key[|t.prefix|];
      GoodChild(H, t, K, b);
      LedInto(t, key);
      var z;
      value, z, delta := UnmarkForDeletion(H, K, t.children[b], key);
      if value.Some? {
        r := WithSlot(t, b, z, t.ann.meta.Plus(delta));
        BelowIsMarked(H, t, K, b, z, t.ann.meta.Plus(delta), key, true);
      } else {
        NothingMarked(t, key, true);
      }
    } else {
      NothingMarked(t, key, true);
    }
  }

  lemma LedInto(t: Node, key: Key)
    requires t.Branch? && t.prefix < key && key[|t.prefix|] in t.children
    ensures Get(t, key) == Get(t.children[key[|t.prefix|]], key)
  {
  }

  lemma NothingMarked(t: Node, key: Key, live: bool)
    requires Get(t, key).Some? ==> Get(t, key).value.live == live
    ensures Marks(t, t, key, live)
  {
  }

  // ----- carrying out the marks -----

  /** `z` holds the unmarked entries of `x`. */
  ghost predicate Sweeps(x: Option<Node>, z: Option<Node>) {
    forall k: Key :: GetAt(z, k) == LiveOnly(GetAt(x, k))
  }

  lemma {:induction false} NoNegativeMarks(m: map<Nibble, Meta>, b: nat)
    requires b <= 16 && forall i | i in m :: m[i].deleted >= 0
    ensures SumOf(m, b).deleted >= 0
    ensures SumOf(m, b).deleted == 0 ==> forall i | i in m && i < b :: m[i].deleted == 0
  {
    if b > 0 { NoNegativeMarks(m, b - 1); }
  }

  lemma {:induction false} MarksCount<A>(t: Trie<A>)
    ensures Total(t).deleted >= 0
    decreases t
  {
    if t.Branch? {
      forall b | b in t.children ensures Total(t.children[b]).deleted >= 0 {
        MarksCount(t.children[b]);
      }
      NoNegativeMarks(Totals(t), 16);
    }
  }

  /** A count of zero means that nothing below is marked. */
  lemma {:induction false} NoMarks(t: Node, k: Key)
    requires Total(t).deleted == 0
    ensures LiveOnly(Get(t, k)) == Get(t, k)
    decreases t
  {
    if t.Branch? && t.prefix < k && k[|t.prefix|] in t.children {
      forall b | b in t.children ensures Total(t.children[b]).deleted >= 0 {
        MarksCount(t.children[b]);
      }
      NoNegativeMarks(Totals(t), 16);
      assert k[|t.prefix|] in Totals(t);
      NoMarks(t.children[k[|t.prefix|]], k);
    }
  }

  /** What carrying out the marks below a node leaves of it. */
  ghost predicate Swept(H: Hasher, K: nat, t: Node, gone: bool, r: Node, delta: Meta) {
    if gone then Sweeps(Some(t), None) && delta == ZERO.Minus(Total(t))
    else
      && NearlyGood(H, r, K) && r.Prefix() == t.Prefix() && Sweeps(Some(t), Some(r))
      && delta == Total(r).Minus(Total(t))
  }

  ghost predicate SlotSwept(H: Hasher, K: nat, p: Key, b: Nibble, x: Option<Node>, z: Option<Node>) {
    SlotGood(H, K, p, b, z) && Sweeps(x, z)
  }

  method SweepSlot(ghost H: Hasher, K: nat, ghost p: Key, ghost b: Nibble, x: Node)
    returns (z: Option<Node>, delta: Meta)
    requires SlotGood(H, K, p, b, Some(x))
    ensures SlotSwept(H, K, p, b, Some(x), z)
    ensures delta == TotalAt(z).Minus(Total(x))
    decreases x, 2
  {
    var gone, r;
    gone, r, delta := PerformMarkedDeletions(H, K, x);
    if gone {
      z := None;
    } else {
      ContractIsGood(H, r, K);
      z := Some(Contract(r));
    }
  }

  method SweepChildren(ghost H: Hasher, K: nat, t: Node) returns (c: map<Nibble, Node>, delta: Meta)
    requires Good(H, t, K) && t.Branch?
    ensures forall b: Nibble {:trigger At(c, b)} :: SlotSwept(H, K, t.prefix, b, At(t.children, b), At(c, b))
    ensures delta == SumOf(TotalsOf(c), 16).Minus(Total(t))
    decreases t, 0
  {
    c, delta := t.children, ZERO;
    GoodSlots(H, t, K);
    for b := 0 to 16
      invariant forall i: Nibble {:trigger At(c, i)} | i < b ::
        SlotSwept(H, K, t.prefix, i, At(t.children, i), At(c, i))
      invariant forall i: Nibble {:trigger At(c, i)} | b <= i :: At(c, i) == At(t.children, i)
      invariant delta == SumOf(TotalsOf(c), 16).Minus(Total(t))
    {
      ghost var before := c;
      assert At(before, b) == At(t.children, b);
      if b in c {
        assert c[b] == t.children[b];
        assert SlotGood(H, K, t.prefix, b, At(t.children, b));
        var z, d := SweepSlot(H, K, t.prefix, b, t.children[b]);
        ChangeSlotTo(c, b, z);
        c, delta := SetAt(c, b, z), delta.Plus(d);
      } else {
        assert SlotSwept(H, K, t.prefix, b, At(t.children, b), At(c, b));
      }
      assert forall i: Nibble {:trigger At(c, i)} | i != b :: At(c, i) == At(before, i);
    }
  }

  lemma SweptBranch(H: Hasher, K: nat, t: Node, r: Node, delta: Meta)
    requires Good(H, t, K) && t.Branch? && r.Branch? && r.prefix == t.prefix && r.ann.hash == None
    requires forall b: Nibble {:trigger At(r.children, b)} ::
      SlotSwept(H, K, t.prefix, b, At(t.children, b), At(r.children, b))
    requires delta == SumOf(TotalsOf(r.children), 16).Minus(Total(t)) && r.ann.meta == Total(t).Plus(delta)
    ensures Swept(H, K, t, r.children == map[], r, delta)
  {
    SweptLookups(H, K, t, r);
    assert Totals(r) == TotalsOf(r.children);
    if r.children == map[] {
      NothingSwept(t, r, delta);
    } else {
      SweptSlots(H, K, t, r);
      NearlyFromSlots(H, r, K);
    }
  }

  lemma SweptLookups(H: Hasher, K: nat, t: Node, r: Node)
    requires t.Branch? && r.Branch? && r.prefix == t.prefix
    requires forall b: Nibble {:trigger At(r.children, b)} ::
      SlotSwept(H, K, t.prefix, b, At(t.children, b), At(r.children, b))
    ensures Sweeps(Some(t), Some(r))
  {
    forall k: Key ensures Get(r, k) == LiveOnly(Get(t, k)) {
      if t.prefix < k {
        var b := k[|t.prefix|];
        assert SlotSwept(H, K, t.prefix, b, At(t.children, b), At(r.children, b));
        assert GetAt(At(r.children, b), k) == LiveOnly(GetAt(At(t.children, b), k));
      }
    }
  }

  lemma SweptSlots(H: Hasher, K: nat, t: Node, r: Node)
    requires t.Branch? && r.Branch? && r.prefix == t.prefix && r.children != map[]
    requires forall b: Nibble {:trigger At(r.children, b)} ::
      SlotSwept(H, K, t.prefix, b, At(t.children, b), At(r.children, b))
    ensures SlotsGood(H, K, r.prefix, r.children) && |r.children| >= 1
  {
    assert r.children.Keys != {};
  }

  lemma NothingSwept(t: Node, r: Node, delta: Meta)
    requires r.Branch? && r.children == map[] && Sweeps(Some(t), Some(r))
    requires delta == SumOf(TotalsOf(r.children), 16).Minus(Total(t))
    ensures Sweeps(Some(t), None) && delta == ZERO.Minus(Total(t))
  {
    SumOfNothing(16);
    assert TotalsOf(r.children) == map[];
    forall k: Key ensures LiveOnly(Get(t, k)) == None {
      assert GetAt(Some(r), k) == None;
    }
  }

  /** Returns whether the whole subtree goes, what is left of it, and the metadata change. */
  method PerformMarkedDeletions(ghost H: Hasher, K: nat, t: Node) returns (gone: bool, r: Node, delta: Meta)
    requires Good(H, t, K)
    ensures Swept(H, K, t, gone, r, delta)
    ensures t.ann.meta.deleted == 0 ==> !gone && r == t
    decreases t, 1
  {
    if t.ann.meta.deleted == 0 {
      gone, r, delta := false, t, ZERO;
      forall k: Key ensures LiveOnly(Get(t, k)) == Get(t, k) {
        NoMarks(t, k);
      }
    } else if t.Leaf? {
      gone, r, delta := true, t, ZERO.Minus(t.ann.meta);
    } else {
      var c;
      c, delta := SweepChildren(H, K, t);
      r := Branch(t.prefix, c, Note(t.ann.meta.Plus(delta), None));
      SweptBranch(H, K, t, r, delta);
      gone := c == map[];
    }
  }
}
