/**
 Merging one batch trie into another.

 `MergeIn` follows the five cases of the destructive merge, including the swap of
 the third: the union of the two maps, `f` on shared keys, a canonical result,
 exact metadata everywhere, and the exact difference returned to the parent.
 */
module BatchMerge {

  import opened Nibbles
  import opened Tries
  import opened Hashing
  import opened BatchNodes

  /** `MergeFn`: the kept value and the one merged in. */
  type Merger = (Entry, Entry) -> Entry

  function Merged(f: Merger, x: Option<Entry>, y: Option<Entry>): Option<Entry> {
    if x.Some? && y.Some? then Some(f(x.value, y.value)) else if x.Some? then x else y
  }

  ghost predicate Merges(f: Merger, t: Node, o: Node, r: Node) {
    forall k: Key :: Get(r, k) == Merged(f, Get(t, k), Get(o, k))
  }

  ghost function TotalsOf(c: map<Nibble, Node>): map<Nibble, Meta> {
    map b | b in c :: Total(c[b])
  }

  /** A node whose contents were moved to a new node has no valid hash. */
  function Moved(t: Node): Node {
    t.(ann := t.ann.(hash := None))
  }

  lemma MovedIsGood(H: Hasher, t: Node, K: nat)
    requires Good(H, t, K)
    ensures Good(H, Moved(t), K) && Total(Moved(t)) == Total(t)
    ensures forall k: Key :: Get(Moved(t), k) == Get(t, k)
  {
    if t.Branch? {
      assert Totals(Moved(t)) == Totals(t);
    }
  }

  // ----- case 1: equal prefixes -----

  function At(c: map<Nibble, Node>, b: Nibble): Option<Node> {
    if b in c then Some(c[b]) else None
  }

  function GetAt(x: Option<Node>, k: Key): Option<Entry> {
    if x.Some? then Get(x.value, k) else None
  }

  ghost predicate SlotGets(f: Merger, x: Option<Node>, y: Option<Node>, z: Option<Node>) {
    forall k: Key :: GetAt(z, k) == Merged(f, GetAt(x, k), GetAt(y, k))
  }

  /** `z` is the merge of the slots `x` and `y` below prefix `p`. */
  ghost predicate SlotMerged(H: Hasher, f: Merger, K: nat, p: Key, b: Nibble, x: Option<Node>, y: Option<Node>,
                             z: Option<Node>) {
    && (z.Some? <==> x.Some? || y.Some?)
    && (z.Some? ==> Good(H, z.value, K) && Under(p, b, z.value.Prefix()))
    && SlotGets(f, x, y, z)
  }

  ghost predicate SlotGood(H: Hasher, K: nat, p: Key, b: Nibble, x: Option<Node>) {
    x.Some? ==> Good(H, x.value, K) && Under(p, b, x.value.Prefix())
  }

  ghost function TotalAt(x: Option<Node>): Meta {
    if x.Some? then Total(x.value) else ZERO
  }

  method MergeSlot(ghost H: Hasher, f: Merger, K: nat, ghost p: Key, ghost b: Nibble, x: Option<Node>, y: Node)
    returns (z: Node, delta: Meta)
    requires SlotGood(H, K, p, b, x) && SlotGood(H, K, p, b, Some(y))
    ensures SlotMerged(H, f, K, p, b, x, Some(y), Some(z))
    ensures delta == Total(z).Minus(TotalAt(x))
    decreases 2 * K - |(if x.Some? then x.value else y).Prefix()| - |y.Prefix()|, 4
  {
    if x.None? {
      z, delta := y, y.ann.meta;
      OneSided(f, y);
    } else {
      z, delta := MergeIn(H, f, K, x.value, y);
      MatchUnder(p, b, x.value.Prefix(), y.Prefix());
    }
  }

  lemma OneSided(f: Merger, y: Node)
    ensures SlotGets(f, None, Some(y), Some(y))
  {
  }

  lemma MatchUnder(p: Key, b: Nibble, q: Key, k: Key)
    requires Under(p, b, q) && Under(p, b, k)
    ensures |p| < MatchLen(q, k) && Under(p, b, q[..MatchLen(q, k)])
  {
    MatchLenAtLeast(q, k, |p| + 1);
  }

  lemma ChangeSlot(c: map<Nibble, Node>, b: Nibble, z: Node)
    ensures SumOf(TotalsOf(c[b := z]), 16) == SumOf(TotalsOf(c), 16).Plus(Total(z)).Minus(TotalAt(At(c, b)))
  {
    SumOfChange(TotalsOf(c), TotalsOf(c[b := z]), b, 16);
  }

  ghost predicate SlotsGood(H: Hasher, K: nat, p: Key, c: map<Nibble, Node>) {
    forall b: Nibble {:trigger At(c, b)} :: SlotGood(H, K, p, b, At(c, b))
  }

  method MergeChildren(ghost H: Hasher, f: Merger, K: nat, ghost p: Key, x: map<Nibble, Node>, y: map<Nibble, Node>)
    returns (c: map<Nibble, Node>, delta: Meta)
    requires SlotsGood(H, K, p, x) && SlotsGood(H, K, p, y)
    ensures forall b: Nibble {:trigger At(c, b)} :: SlotMerged(H, f, K, p, b, At(x, b), At(y, b), At(c, b))
    ensures delta == SumOf(TotalsOf(c), 16).Minus(SumOf(TotalsOf(x), 16))
    decreases 2 * K - 2 * |p|, 1
  {
    c, delta := x, ZERO;
    for b := 0 to 16
      invariant forall i: Nibble {:trigger At(c, i)} | i < b :: SlotMerged(H, f, K, p, i, At(x, i), At(y, i), At(c, i))
      invariant forall i: Nibble {:trigger At(c, i)} | b <= i :: At(c, i) == At(x, i)
      invariant delta == SumOf(TotalsOf(c), 16).Minus(SumOf(TotalsOf(x), 16))
    {
      ghost var before := c;
      assert At(before, b) == At(x, b);
      if b in y {
        assert SlotGood(H, K, p, b, At(x, b)) && SlotGood(H, K, p, b, At(y, b));
        var z, d := MergeSlot(H, f, K, p, b, At(x, b), y[b]);
        ChangeSlot(c, b, z);
        c, delta := c[b := z], delta.Plus(d);
      } else {
        assert SlotMerged(H, f, K, p, b, At(x, b), At(y, b), At(c, b));
      }
      assert forall i: Nibble {:trigger At(c, i)} | i != b :: At(c, i) == At(before, i);
    }
  }

  lemma SlotsGrow(H: Hasher, f: Merger, K: nat, p: Key, x: map<Nibble, Node>, y: map<Nibble, Node>,
                  c: map<Nibble, Node>)
    requires forall b: Nibble {:trigger At(c, b)} :: SlotMerged(H, f, K, p, b, At(x, b), At(y, b), At(c, b))
    ensures |x| <= |c| && SlotsGood(H, K, p, c)
  {
    forall b | b in x ensures b in c {
      assert SlotMerged(H, f, K, p, b, At(x, b), At(y, b), At(c, b));
    }
    assert c.Keys == x.Keys + (c.Keys - x.Keys);
    assert |c| == |c.Keys| && |x| == |x.Keys|;
  }

  lemma SlotsGet(H: Hasher, f: Merger, K: nat, t: Node, o: Node, r: Node)
    requires t.Branch? && o.Branch? && r.Branch? && t.prefix == o.prefix == r.prefix
    requires forall b: Nibble {:trigger At(r.children, b)} ::
               SlotMerged(H, f, K, r.prefix, b, At(t.children, b), At(o.children, b), At(r.children, b))
    ensures Merges(f, t, o, r)
  {
    forall k: Key ensures Get(r, k) == Merged(f, Get(t, k), Get(o, k)) {
      if t.prefix < k {
        var b := k[|t.prefix|];
        assert SlotMerged(H, f, K, r.prefix, b, At(t.children, b), At(o.children, b), At(r.children, b));
        assert GetAt(At(r.children, b), k) == Merged(f, GetAt(At(t.children, b), k), GetAt(At(o.children, b), k));
      }
    }
  }

  lemma GoodSlots(H: Hasher, t: Node, K: nat)
    requires Good(H, t, K) && t.Branch?
    ensures SlotsGood(H, K, t.prefix, t.children) && TotalsOf(t.children) == Totals(t)
  {
    forall b: Nibble ensures SlotGood(H, K, t.prefix, b, At(t.children, b)) {
      if b in t.children { GoodChild(H, t, K, b); }
    }
  }

  lemma GoodFromSlots(H: Hasher, t: Node, K: nat)
    requires t.Branch? && |t.prefix| < K && t.ann.hash == None && t.ann.meta == Total(t) && |t.children| >= 2
    requires SlotsGood(H, K, t.prefix, t.children)
    ensures Good(H, t, K)
  {
    forall b | b in t.children ensures Good(H, t.children[b], K) && Under(t.prefix, b, t.children[b].Prefix()) {
      assert SlotGood(H, K, t.prefix, b, At(t.children, b));
    }
    GoodBranch(H, t, K);
  }

  method MergeSame(ghost H: Hasher, f: Merger, K: nat, t: Node, o: Node) returns (r: Node, delta: Meta)
    requires Good(H, t, K) && Good(H, o, K) && t.Branch? && o.Branch? && t.prefix == o.prefix
    ensures Good(H, r, K) && Merges(f, t, o, r)
    ensures r.Prefix() == t.prefix
    ensures delta == Total(r).Minus(Total(t))
    decreases 2 * K - |t.Prefix()| - |o.Prefix()|, 2
  {
    GoodSlots(H, t, K);
    GoodSlots(H, o, K);
    var c;
    c, delta := MergeChildren(H, f, K, t.prefix, t.children, o.children);
    r := Branch(t.prefix, c, Note(t.ann.meta.Plus(delta), None));
    assert Totals(r) == TotalsOf(c);
    SlotsGrow(H, f, K, t.prefix, t.children, o.children, c);
    GoodFromSlots(H, r, K);
    SlotsGet(H, f, K, t, o, r);
  }

  // ----- cases 2 and 3: one prefix extends the other -----

  /** A branch whose slot `b` becomes `z`. */
  function WithSlot(t: Node, b: Nibble, z: Node, meta: Meta): Node
    requires t.Branch?
  {
    Branch(t.prefix, t.children[b := z], Note(meta, None))
  }

  lemma WithSlotTotal(t: Node, b: Nibble, z: Node, meta: Meta)
    requires t.Branch?
    ensures Total(WithSlot(t, b, z, meta)) == Total(t).Plus(Total(z)).Minus(TotalAt(At(t.children, b)))
  {
    TotalChange(t, WithSlot(t, b, z, meta), b);
  }

  lemma WithSlotGood(H: Hasher, t: Node, K: nat, b: Nibble, z: Node, meta: Meta)
    requires Good(H, t, K) && t.Branch? && SlotGood(H, K, t.prefix, b, Some(z))
    requires meta == Total(WithSlot(t, b, z, meta))
    ensures Good(H, WithSlot(t, b, z, meta), K)
  {
    var r := WithSlot(t, b, z, meta);
    GoodSlots(H, t, K);
    forall i: Nibble ensures SlotGood(H, K, r.prefix, i, At(r.children, i)) {
      assert SlotGood(H, K, t.prefix, i, At(t.children, i));
    }
    assert r.children.Keys == t.children.Keys + {b};
    assert |r.children| == |r.children.Keys| && |t.children| == |t.children.Keys|;
    GoodFromSlots(H, r, K);
  }

  /** Lookups after slot `b` of `t` became the merge of what was there with `o`. */
  lemma WithSlotGets(f: Merger, t: Node, o: Node, K: nat, b: Nibble, z: Node, meta: Meta, k: Key, left: bool)
    requires t.Branch? && WellFormed(t, K) && WellFormed(o, K) && Under(t.prefix, b, o.Prefix())
    requires if left then SlotGets(f, At(t.children, b), Some(o), Some(z))
      else SlotGets(f, Some(o), At(t.children, b), Some(z))
    ensures Get(WithSlot(t, b, z, meta), k) == if left then Merged(f, Get(t, k), Get(o, k))
      else Merged(f, Get(o, k), Get(t, k))
  {
    assert GetAt(Some(z), k) ==
      if left then Merged(f, GetAt(At(t.children, b), k), Get(o, k))
        else Merged(f, Get(o, k), GetAt(At(t.children, b), k));
    if !(o.Prefix() <= k) {
      MissesOutside(o, K, k);
    }
  }

  lemma BelowIsMerge(H: Hasher, f: Merger, K: nat, t: Node, o: Node, b: Nibble, z: Node, meta: Meta)
    requires Good(H, t, K) && Good(H, o, K) && t.Branch? && Under(t.prefix, b, o.Prefix())
    requires SlotMerged(H, f, K, t.prefix, b, At(t.children, b), Some(o), Some(z))
    requires meta == Total(t).Plus(Total(z)).Minus(TotalAt(At(t.children, b)))
    ensures Good(H, WithSlot(t, b, z, meta), K) && Merges(f, t, o, WithSlot(t, b, z, meta))
    ensures Total(WithSlot(t, b, z, meta)) == meta
  {
    WithSlotTotal(t, b, z, meta);
    WithSlotGood(H, t, K, b, z, meta);
    forall k: Key ensures Get(WithSlot(t, b, z, meta), k) == Merged(f, Get(t, k), Get(o, k)) {
      WithSlotGets(f, t, o, K, b, z, meta, k, true);
    }
  }

  lemma AboveIsMerge(H: Hasher, f: Merger, K: nat, t: Node, o: Node, b: Nibble, z: Node, meta: Meta)
    requires Good(H, t, K) && Good(H, o, K) && o.Branch? && Under(o.prefix, b, t.Prefix())
    requires SlotMerged(H, f, K, o.prefix, b, Some(t), At(o.children, b), Some(z))
    requires meta == Total(o).Plus(Total(z)).Minus(TotalAt(At(o.children, b)))
    ensures Good(H, WithSlot(o, b, z, meta), K) && Merges(f, t, o, WithSlot(o, b, z, meta))
    ensures Total(WithSlot(o, b, z, meta)) == meta
  {
    WithSlotTotal(o, b, z, meta);
    WithSlotGood(H, o, K, b, z, meta);
    forall k: Key ensures Get(WithSlot(o, b, z, meta), k) == Merged(f, Get(t, k), Get(o, k)) {
      WithSlotGets(f, o, t, K, b, z, meta, k, false);
    }
  }

  lemma SlotIsGood(H: Hasher, t: Node, K: nat, b: Nibble)
    requires Good(H, t, K) && t.Branch?
    ensures SlotGood(H, K, t.prefix, b, At(t.children, b)) && t.ann.meta == Total(t)
    ensures b in t.children ==> |t.prefix| < |t.children[b].Prefix()| <= K
  {
    if b in t.children { GoodChild(H, t, K, b); }
  }

  method MergeBelow(ghost H: Hasher, f: Merger, K: nat, t: Node, o: Node) returns (r: Node, delta: Meta)
    requires Good(H, t, K) && Good(H, o, K) && t.Branch? && t.prefix < o.Prefix()
    ensures Good(H, r, K) && Merges(f, t, o, r)
    ensures r.Prefix() == t.prefix
    ensures delta == Total(r).Minus(Total(t))
    decreases 2 * K - |t.Prefix()| - |o.Prefix()|, 2
  {
    var b := o.Prefix()[|t.prefix|];
    SlotIsGood(H, t, K, b);
    ghost var x := At(t.children, b);
    var z;
    z, delta := MergeSlot(H, f, K, t.prefix, b, At(t.children, b), o);
    var meta := t.ann.meta.Plus(delta);
    DeltaIsDifference(Total(t), Total(z), TotalAt(x), delta, meta);
    BelowIsMerge(H, f, K, t, o, b, z, meta);
    r := WithSlot(t, b, z, meta);
  }

  lemma DeltaIsDifference(t: Meta, z: Meta, x: Meta, delta: Meta, meta: Meta)
    requires delta == z.Minus(x) && meta == t.Plus(delta)
    ensures meta == t.Plus(z).Minus(x) && delta == meta.Minus(t)
  {
  }

  lemma MergesMoved(f: Merger, t: Node, o: Node, r: Node)
    requires Merges(f, Moved(t), o, r) && forall k: Key :: Get(Moved(t), k) == Get(t, k)
    ensures Merges(f, t, o, r)
  {
  }

  /** The contents of `t` move to a new node below what was `o`; the two change places. */
  method MergeAbove(ghost H: Hasher, f: Merger, K: nat, t: Node, o: Node) returns (r: Node, delta: Meta)
    requires Good(H, t, K) && Good(H, o, K) && o.Branch? && o.prefix < t.Prefix()
    ensures Good(H, r, K) && Merges(f, t, o, r)
    ensures r.Prefix() == o.prefix
    ensures delta == Total(r).Minus(Total(t))
    decreases 2 * K - |t.Prefix()| - |o.Prefix()|, 2
  {
    var b := t.Prefix()[|o.prefix|];
    var original := Moved(t);
    MovedIsGood(H, t, K);
    var z, meta;
    z, meta, delta := MergeAboveSlot(H, f, K, original, o, b);
    r := WithSlot(o, b, z, meta);
    AboveIsMerge(H, f, K, original, o, b, z, meta);
    MergesMoved(f, t, o, r);
  }

  lemma MatchCases(p: Key, q: Key, n: nat)
    requires n == MatchLen(p, q)
    ensures n <= |p| && n <= |q| && p[..n] == q[..n]
    ensures n == |p| ==> p <= q && p == p[..n]
    ensures n == |q| ==> q <= p && q == q[..n]
  {
  }

  lemma LeavesMerge(H: Hasher, f: Merger, K: nat, t: Node, o: Node)
    requires t.Leaf? && o.Leaf? && |t.key| == K && t.key == o.key
    ensures var r := NewLeaf(t.key, f(t.entry, o.entry)); Good(H, r, K) && Merges(f, t, o, r)
  {
  }

  /** The moved node meets the slot of the new parent; `meta` is what the parent then has to store. */
  method MergeAboveSlot(ghost H: Hasher, f: Merger, K: nat, original: Node, o: Node, b: Nibble)
    returns (z: Node, meta: Meta, delta: Meta)
    requires Good(H, original, K) && Good(H, o, K) && o.Branch? && Under(o.prefix, b, original.Prefix())
    ensures SlotMerged(H, f, K, o.prefix, b, Some(original), At(o.children, b), Some(z))
    ensures meta == Total(o).Plus(Total(z)).Minus(TotalAt(At(o.children, b)))
    ensures delta == meta.Minus(Total(original))
    decreases 2 * K - |original.Prefix()| - |o.Prefix()|, 1
  {
    if b in o.children {
      GoodChild(H, o, K, b);
      var other := o.children[b];
      var reduction := other.ann.meta.Minus(original.ann.meta);
      z, delta := MergeSlot(H, f, K, o.prefix, b, Some(original), other);
      meta := o.ann.meta.Plus(delta.Minus(reduction));
      delta := meta.Minus(original.ann.meta);
    } else {
      z, meta, delta := original, o.ann.meta.Plus(original.ann.meta), o.ann.meta;
    }
  }

  // ----- case 4: a common ancestor -----

  lemma TwoTotals(p: Key, a: Nibble, x: Node, b: Nibble, y: Node, meta: Meta)
    requires a != b
    ensures Total(Branch(p, map[a := x, b := y], Note(meta, None))) == Total(x).Plus(Total(y))
  {
    var one := Branch(p, map[a := x], Note(meta, None));
    var two := Branch(p, map[a := x, b := y], Note(meta, None));
    OnlyChildTotal(one, a);
    assert two.children == one.children[b := y];
    MoreTotal(one, two, b, y);
  }

  lemma MoreTotal(s: Node, t: Node, d: Nibble, y: Node)
    requires s.Branch? && t.Branch? && d !in s.children && t.children == s.children[d := y]
    ensures Total(t) == Total(s).Plus(Total(y))
  {
    TotalChange(s, t, d);
  }

  lemma TwoChildren(H: Hasher, K: nat, p: Key, a: Nibble, x: Node, b: Nibble, y: Node, meta: Meta)
    requires a != b && |p| < K && SlotGood(H, K, p, a, Some(x)) && SlotGood(H, K, p, b, Some(y))
    requires meta == Total(x).Plus(Total(y))
    ensures Good(H, Branch(p, map[a := x, b := y], Note(meta, None)), K)
  {
    var r := Branch(p, map[a := x, b := y], Note(meta, None));
    TwoTotals(p, a, x, b, y, meta);
    assert r.children.Keys == {a, b};
    forall i: Nibble ensures SlotGood(H, K, p, i, At(r.children, i)) {
    }
    GoodFromSlots(H, r, K);
  }

  lemma TwoGets(K: nat, p: Key, a: Nibble, x: Node, b: Nibble, y: Node, note: Note, k: Key)
    requires a != b && WellFormed(x, K) && WellFormed(y, K) && Under(p, a, x.Prefix()) && Under(p, b, y.Prefix())
    ensures Get(Branch(p, map[a := x, b := y], note), k) == (if Get(x, k).Some? then Get(x, k) else Get(y, k))
    ensures Get(x, k).None? || Get(y, k).None?
  {
    if Get(x, k).Some? { GetPrefix(x, K, k); }
    if Get(y, k).Some? { GetPrefix(y, K, k); }
  }

  method MergeApart(ghost H: Hasher, ghost f: Merger, K: nat, t: Node, o: Node) returns (r: Node, delta: Meta)
    requires Good(H, t, K) && Good(H, o, K)
    requires MatchLen(t.Prefix(), o.Prefix()) < |t.Prefix()| && MatchLen(t.Prefix(), o.Prefix()) < |o.Prefix()|
    ensures Good(H, r, K) && Merges(f, t, o, r)
    ensures r.Prefix() == t.Prefix()[..MatchLen(t.Prefix(), o.Prefix())]
    ensures delta == Total(r).Minus(Total(t))
  {
    var n := MatchLen(t.Prefix(), o.Prefix());
    var a, b := t.Prefix()[n], o.Prefix()[n];
    var p := t.Prefix()[..n];
    var original := Moved(t);
    MovedIsGood(H, t, K);
    var meta := t.ann.meta.Plus(o.ann.meta);
    r, delta := Branch(p, map[a := original, b := o], Note(meta, None)), o.ann.meta;
    TwoTotals(p, a, original, b, o, meta);
    TwoChildren(H, K, p, a, original, b, o, meta);
    TwoMerge(f, K, p, a, t, original, b, o, Note(meta, None));
  }

  lemma TwoMerge(f: Merger, K: nat, p: Key, a: Nibble, t: Node, x: Node, b: Nibble, y: Node, note: Note)
    requires a != b && WellFormed(x, K) && WellFormed(y, K) && Under(p, a, x.Prefix()) && Under(p, b, y.Prefix())
    requires forall k: Key :: Get(x, k) == Get(t, k)
    ensures Merges(f, t, y, Branch(p, map[a := x, b := y], note))
  {
    forall k: Key ensures Get(Branch(p, map[a := x, b := y], note), k) == Merged(f, Get(t, k), Get(y, k)) {
      TwoGets(K, p, a, x, b, y, note, k);
    }
  }

  // ----- all cases -----

  method MergeIn(ghost H: Hasher, f: Merger, K: nat, t: Node, o: Node) returns (r: Node, delta: Meta)
    requires Good(H, t, K) && Good(H, o, K)
    ensures Good(H, r, K) && Merges(f, t, o, r)
    ensures r.Prefix() == t.Prefix()[..MatchLen(t.Prefix(), o.Prefix())]
    ensures delta == Total(r).Minus(Total(t))
    decreases 2 * K - |t.Prefix()| - |o.Prefix()|, 3
  {
    var n := MatchLen(t.Prefix(), o.Prefix());
    MatchCases(t.Prefix(), o.Prefix(), n);
    if n == K {
      var e := f(t.entry, o.entry);
      r, delta := NewLeaf(t.key, e), LeafMeta(e).Minus(t.ann.meta);
      LeavesMerge(H, f, K, t, o);
    } else if |t.Prefix()| == n && |o.Prefix()| == n {
      r, delta := MergeSame(H, f, K, t, o);
    } else if |t.Prefix()| == n {
      r, delta := MergeBelow(H, f, K, t, o);
    } else if |o.Prefix()| == n {
      r, delta := MergeAbove(H, f, K, t, o);
    } else {
      r, delta := MergeApart(H, f, K, t, o);
    }
  }
}
