/**
 The order-book operations around a split: the endowment below a key, cleaning
 what came off, and putting it back.
 */
module BatchOrders {

  import opened Nibbles
  import opened Tries
  import opened Hashing
  import opened BatchNodes
  import opened BatchMerge
  import opened BatchUpdates
  import opened BatchItems
  import opened BatchSplit

  // ----- key order -----

  lemma LessAt(a: Key, b: Key, n: nat)
    requires n < |a| && n < |b| && a[..n] == b[..n] && a[n] < b[n]
    ensures Less(a, b) && !Less(b, a)
  {
    MatchLenUnique(a, b, n);
    MatchLenUnique(b, a, n);
  }

  lemma LessTrans(a: Key, b: Key, c: Key)
    requires Less(a, b) && Less(b, c)
    ensures Less(a, c)
  {
    var n, m := MatchLen(a, b), MatchLen(b, c);
    var l := if n < m then n else m;
    SamePrefixAt(a, b, n);
    SamePrefixAt(b, c, m);
    assert forall i | 0 <= i < l :: a[i] == c[i];
    assert a[..l] == c[..l];
    LessAt(a, c, l);
  }

  lemma LessTotal(a: Key, b: Key)
    requires |a| == |b|
    ensures a == b || Less(a, b) || Less(b, a)
    ensures Less(a, b) ==> !Less(b, a)
  {
    var n := MatchLen(a, b);
    if n < |a| {
      MatchLenUnique(b, a, n);
    }
  }

  /** Order of prefixes decides the order of what extends them. */
  lemma LessExtends(p: Key, q: Key, x: Key, k: Key)
    requires |p| == |q| && Less(p, q) && p <= x && q <= k
    ensures Less(x, k) && !Less(k, x)
  {
    var n := MatchLen(p, q);
    SamePrefixAt(p, q, n);
    assert x[..n] == p[..n] && k[..n] == q[..n];
    LessAt(x, k, n);
  }

  // ----- endowment below a key -----

  /** The endowment of the entries with keys below `k`. */
  function LtEndow(s: seq<Item>, k: Key): int {
    if s == [] then 0
    else LtEndow(s[..|s| - 1], k) + if Less(s[|s| - 1].key, k) then s[|s| - 1].entry.endow else 0
  }

  lemma {:induction false} LtConcat(s: seq<Item>, z: seq<Item>, k: Key)
    ensures LtEndow(s + z, k) == LtEndow(s, k) + LtEndow(z, k)
  {
    if z == [] {
      assert s + z == s;
    } else {
      assert (s + z)[..|s + z| - 1] == s + z[..|z| - 1] && (s + z)[|s + z| - 1] == z[|z| - 1];
      LtConcat(s, z[..|z| - 1], k);
    }
  }

  lemma {:induction false} LtAll(s: seq<Item>, k: Key)
    requires forall i | 0 <= i < |s| :: Less(s[i].key, k)
    ensures LtEndow(s, k) == Endow(s)
  {
    if s != [] { LtAll(s[..|s| - 1], k); }
  }

  lemma {:induction false} LtNone(s: seq<Item>, k: Key)
    requires forall i | 0 <= i < |s| :: !Less(s[i].key, k)
    ensures LtEndow(s, k) == 0
  {
    if s != [] { LtNone(s[..|s| - 1], k); }
  }

  lemma LtBeside(t: Node, K: nat, k: Key)
    requires WellFormed(t, K) && |k| == K && t.Branch?
    ensures Less(t.prefix, k[..|t.prefix|]) ==> LtEndow(Items(t), k) == Total(t).endow
    ensures Less(k[..|t.prefix|], t.prefix) ==> LtEndow(Items(t), k) == 0
  {
    var s := Items(t);
    ItemsSorted(t, K);
    TotalIsOfItems(t);
    if Less(t.prefix, k[..|t.prefix|]) {
      forall i | 0 <= i < |s| ensures Less(s[i].key, k) { LessExtends(t.prefix, k[..|t.prefix|], s[i].key, k); }
      LtAll(s, k);
    }
    if Less(k[..|t.prefix|], t.prefix) {
      forall i | 0 <= i < |s| ensures !Less(s[i].key, k) { LessExtends(k[..|t.prefix|], t.prefix, k, s[i].key); }
      LtNone(s, k);
    }
  }

  lemma SlotOrder(p: Key, b: Nibble, x: Key, k: Key)
    requires Under(p, b, x) && p < k
    ensures b < k[|p|] ==> Less(x, k)
    ensures b > k[|p|] ==> !Less(x, k)
  {
    assert x[..|p|] == p == k[..|p|];
    if b < k[|p|] { LessAt(x, k, |p|); }
    if b > k[|p|] { LessAt(k, x, |p|); }
  }

  lemma LtUnder(s: seq<Item>, p: Key, b: Nibble, k: Key)
    requires AllUnder(s, p, b) && p < k
    ensures b < k[|p|] ==> LtEndow(s, k) == Endow(s)
    ensures b > k[|p|] ==> LtEndow(s, k) == 0
  {
    forall i | 0 <= i < |s| ensures (b < k[|p|] ==> Less(s[i].key, k)) && (b > k[|p|] ==> !Less(s[i].key, k)) {
      SlotOrder(p, b, s[i].key, k);
    }
    if b < k[|p|] { LtAll(s, k); }
    if b > k[|p|] { LtNone(s, k); }
  }

  lemma LtSlot(t: Node, K: nat, b: Nibble, k: Key)
    requires WellFormed(t, K) && t.Branch? && b in t.children && t.prefix < k
    ensures b < k[|t.prefix|] ==> LtEndow(Items(t.children[b]), k) == Total(t.children[b]).endow
    ensures b > k[|t.prefix|] ==> LtEndow(Items(t.children[b]), k) == 0
  {
    ItemsSorted(t.children[b], K);
    TotalIsOfItems(t.children[b]);
    LtUnder(Items(t.children[b]), t.prefix, b, k);
  }

  method EndowLtKey(K: nat, t: Node, k: Key) returns (v: int)
    requires WellFormed(t, K) && Exact(t) && |k| == K
    ensures v == LtEndow(Items(t), k)
    decreases t, 2
  {
    if t.Leaf? {
      v := if Less(t.key, k) then t.ann.meta.endow else 0;
      assert Items(t)[..0] == [];
    } else {
      LtBeside(t, K, k);
      LessTotal(t.prefix, k[..|t.prefix|]);
      if Less(t.prefix, k[..|t.prefix|]) {
        v := t.ann.meta.endow;
      } else if Less(k[..|t.prefix|], t.prefix) {
        v := 0;
      } else {
        v := LtChildren(K, t, k);
      }
    }
  }

  method LtChildren(K: nat, t: Node, k: Key) returns (v: int)
    requires WellFormed(t, K) && Exact(t) && |k| == K && t.Branch? && t.prefix < k
    ensures v == LtEndow(Flat(ItemMap(t), 16), k)
    decreases t, 1
  {
    v := 0;
    ghost var front: seq<Item> := [];
    for b := 0 to 16
      invariant front == Flat(ItemMap(t), b) && v == LtEndow(front, k)
    {
      ghost var slot := SlotOf(ItemMap(t), b);
      var d := LtChild(K, t, b, k, slot);
      LtConcat(front, slot, k);
      v, front := v + d, front + slot;
    }
  }

  /** What slot `b` contributes: all, nothing, or the part found by descending. */
  method LtChild(K: nat, t: Node, b: Nibble, k: Key, ghost slot: seq<Item>) returns (d: int)
    requires WellFormed(t, K) && Exact(t) && |k| == K && t.Branch? && t.prefix < k && slot == SlotOf(ItemMap(t), b)
    ensures d == LtEndow(slot, k)
    decreases t, 0
  {
    d := 0;
    if b in t.children {
      LtSlot(t, K, b, k);
      if b == k[|t.prefix|] {
        d := EndowLtKey(K, t.children[b], k);
      } else if b < k[|t.prefix|] {
        d := t.children[b].ann.meta.endow;
      }
    }
  }

  // ----- splitting at a key -----

  /** In a sorted list the keys below `k` come first. */
  lemma {:induction false} LtIsFront(s: seq<Item>, k: Key) returns (c: nat)
    requires Sorted(s)
    ensures c <= |s| && forall j | 0 <= j < |s| :: Less(s[j].key, k) <==> j < c
    ensures LtEndow(s, k) == Endow(s[..c])
  {
    if s == [] {
      c := 0;
    } else {
      var z := s[..|s| - 1];
      if Less(s[|s| - 1].key, k) {
        AllBelow(s, k);
        LtAll(s, k);
        c := |s|;
        assert s[..c] == s;
      } else {
        c := LtIsFront(z, k);
        assert s[..c] == z[..c];
        FrontGrows(s, z, k, c);
      }
    }
  }

  /** If the last item of a sorted list is below `k`, all are. */
  lemma AllBelow(s: seq<Item>, k: Key)
    requires Sorted(s) && s != [] && Less(s[|s| - 1].key, k)
    ensures forall j | 0 <= j < |s| :: Less(s[j].key, k)
  {
    forall j | 0 <= j < |s| ensures Less(s[j].key, k) {
      if j < |s| - 1 { LessTrans(s[j].key, s[|s| - 1].key, k); }
    }
  }

  lemma FrontGrows(s: seq<Item>, z: seq<Item>, k: Key, c: nat)
    requires s != [] && z == s[..|s| - 1] && !Less(s[|s| - 1].key, k) && c <= |z|
    requires forall j | 0 <= j < |z| :: Less(z[j].key, k) <==> j < c
    ensures forall j | 0 <= j < |s| :: Less(s[j].key, k) <==> j < c
  {
    assert forall j | 0 <= j < |z| :: z[j] == s[j];
  }

  /** The first `i` entries are the longest initial segment whose endowment is at most `limit`. */
  ghost predicate Longest(s: seq<Item>, i: nat, limit: int) {
    i <= |s| && forall j | 0 <= j <= |s| :: Endow(s[..j]) <= limit <==> j <= i
  }

  lemma LongestCut(s: seq<Item>, i: nat, limit: int)
    requires Positive(s) && Cut(s, i, limit)
    ensures Longest(s, i, limit)
  {
    forall j | 0 <= j <= |s| ensures Endow(s[..j]) <= limit <==> j <= i {
      CutIsLongest(s, i, limit, j);
    }
  }

  lemma LongestEnds(s: seq<Item>)
    requires Positive(s)
    ensures Longest(s, 0, 0) && Longest(s, |s|, Endow(s))
  {
    forall j | 0 <= j <= |s| ensures Endow(s[..j]) <= Endow(s) && (Endow(s[..j]) <= 0 <==> j <= 0) {
      EndowGrows(s, j);
      EndowGrows(s[..j], 0);
      assert s[..j][..0] == [];
    }
  }

  /** Splitting at the endowment below `k` takes off exactly the keys below `k`. */
  lemma SplitAtKey(s: seq<Item>, k: Key, i: nat)
    requires Sorted(s) && Positive(s) && Longest(s, i, LtEndow(s, k))
    ensures forall j | 0 <= j < |s| :: Less(s[j].key, k) <==> j < i
  {
    var c := LtIsFront(s, k);
    assert Endow(s[..c]) <= LtEndow(s, k) && Endow(s[..i]) <= LtEndow(s, k);
    if c < i {
      assert s[..i][..c] == s[..c];
      EndowGrows(s[..i], c);
    }
  }

  // ----- cleaning what came off -----

  lemma LooseChild(H: Hasher, K: nat, t: Node, path: Key, b: Nibble)
    requires Loose(H, K, t, path) && t.Branch? && b in t.children
    ensures Loose(H, K, t.children[b], path) && Under(t.prefix, b, t.children[b].Prefix())
    ensures b != path[|t.prefix|] ==> Good(H, t.children[b], K)
  {
    if b != path[|t.prefix|] { DenseIsSpine(t.children[b], K, path); }
  }

  /** One-child nodes are skipped until there is none. */
  method Collapse(ghost H: Hasher, ghost K: nat, x: Node, ghost path: Key) returns (z: Node)
    requires Loose(H, K, x, path)
    ensures Loose(H, K, z, path) && x.Prefix() <= z.Prefix() && Items(z) == Items(x)
    ensures z.Branch? ==> |z.children| >= 2
    ensures Good(H, x, K) ==> Good(H, z, K)
  {
    z := x;
    while z.Branch? && |z.children| == 1
      invariant Loose(H, K, z, path) && x.Prefix() <= z.Prefix() && Items(z) == Items(x)
      invariant Good(H, x, K) ==> z == x
      decreases K - |z.Prefix()|
    {
      ghost var b :| b in z.children;
      LowestOfOne(z.children, b);
      LooseChild(H, K, z, path, b);
      ContractItems(z);
      z := Contract(z);
    }
  }

  /** A slot whose node was collapsed. */
  ghost predicate SlotCollapsed(H: Hasher, K: nat, p: Key, b: Nibble, path: Key, x: Option<Node>, z: Option<Node>) {
    && (x.Some? <==> z.Some?)
    && (x.Some? ==>
          && SlotLoose(H, K, p, b, z, path) && Items(z.value) == Items(x.value)
          && (z.value.Branch? ==> |z.value.children| >= 2)
          && (Good(H, x.value, K) ==> Good(H, z.value, K)))
  }

  method CollapseChildren(ghost H: Hasher, ghost K: nat, t: Node, ghost path: Key) returns (c: map<Nibble, Node>)
    requires Loose(H, K, t, path) && t.Branch?
    ensures forall b: Nibble {:trigger At(c, b)} :: SlotCollapsed(H, K, t.prefix, b, path, At(t.children, b), At(c, b))
  {
    c := t.children;
    for b := 0 to 16
      invariant forall i: Nibble {:trigger At(c, i)} | i < b ::
        SlotCollapsed(H, K, t.prefix, i, path, At(t.children, i), At(c, i))
      invariant forall i: Nibble {:trigger At(c, i)} | b <= i :: At(c, i) == At(t.children, i)
    {
      ghost var before := c;
      assert At(before, b) == At(t.children, b);
      if b in c {
        LooseChild(H, K, t, path, b);
        var z := Collapse(H, K, c[b], path);
        c := c[b := z];
      }
      assert SlotCollapsed(H, K, t.prefix, b, path, At(t.children, b), At(c, b));
      assert forall i: Nibble {:trigger At(c, i)} | i != b :: At(c, i) == At(before, i);
    }
  }

  /** Replacing one slot by a node with the same items. */
  lemma SameItems(t: Node, r: Node)
    requires t.Branch? && r.Branch?
    requires forall b: Nibble {:trigger At(r.children, b)} :: ItemsAt(At(r.children, b)) == ItemsAt(At(t.children, b))
    ensures Items(r) == Items(t)
  {
    forall b: Nibble ensures SlotOf(ItemMap(r), b) == SlotOf(ItemMap(t), b) {
      SlotItems(r, b);
      SlotItems(t, b);
      assert ItemsAt(At(r.children, b)) == ItemsAt(At(t.children, b));
    }
    FlatSame(ItemMap(r), ItemMap(t), 16);
  }

  /** A slot after collapsing and, on the path, cleaning. */
  ghost predicate SlotCleaned(H: Hasher, K: nat, p: Key, b: Nibble, x: Option<Node>, z: Option<Node>) {
    && (x.Some? <==> z.Some?) && SlotGood(H, K, p, b, z) && ItemsAt(z) == ItemsAt(x)
  }

  lemma CleanedBranch(H: Hasher, K: nat, t: Node, path: Key, c: map<Nibble, Node>)
    requires Loose(H, K, t, path) && t.Branch?
    requires forall b: Nibble {:trigger At(c, b)} :: SlotCleaned(H, K, t.prefix, b, At(t.children, b), At(c, b))
    ensures var r := Branch(t.prefix, c, Note(t.ann.meta, None));
      NearlyGood(H, r, K) && Items(r) == Items(t) && r.children.Keys == t.children.Keys
  {
    var r := Branch(t.prefix, c, Note(t.ann.meta, None));
    forall b: Nibble ensures b in c <==> b in t.children
      ensures SlotGood(H, K, t.prefix, b, At(c, b)) && ItemsAt(At(c, b)) == ItemsAt(At(t.children, b))
    {
      assert SlotCleaned(H, K, t.prefix, b, At(t.children, b), At(c, b));
    }
    SameItems(t, r);
    TotalIsOfItems(t);
    TotalIsOfItems(r);
    assert c.Keys == t.children.Keys;
    assert |c| == |c.Keys| == |t.children.Keys| == |t.children|;
    NearlyFromSlots(H, r, K);
  }

  /** Removes one-child nodes along `path`. */
  method CleanSingleChild(ghost H: Hasher, K: nat, t: Node, path: Key) returns (r: Node)
    requires Loose(H, K, t, path)
    ensures NearlyGood(H, r, K) && r.Prefix() == t.Prefix() && Items(r) == Items(t)
    ensures t.Branch? ==> r.Branch? && r.children.Keys == t.children.Keys
    ensures t.Leaf? ==> r.Leaf?
    decreases K - |t.Prefix()|
  {
    if t.Leaf? {
      r := Moved(t);
    } else {
      var c := CollapseChildren(H, K, t, path);
      ghost var c0 := c;
      var b := path[|t.prefix|];
      assert SlotCollapsed(H, K, t.prefix, b, path, At(t.children, b), At(c, b));
      if b in c {
        var z := CleanSingleChild(H, K, c[b], path);
        CleanedIsGood(H, K, c[b], z);
        c := c[b := z];
      }
      forall i: Nibble ensures SlotCleaned(H, K, t.prefix, i, At(t.children, i), At(c, i)) {
        assert SlotCollapsed(H, K, t.prefix, i, path, At(t.children, i), At(c0, i));
        if i != b && i in t.children { LooseChild(H, K, t, path, i); }
      }
      CleanedBranch(H, K, t, path, c);
      r := Branch(t.prefix, c, Note(t.ann.meta, None));
    }
  }

  lemma CleanedIsGood(H: Hasher, K: nat, x: Node, z: Node)
    requires NearlyGood(H, z, K) && (x.Branch? ==> |x.children| >= 2 && z.Branch? && z.children.Keys == x.children.Keys)
    requires x.Leaf? ==> z.Leaf?
    ensures Good(H, z, K)
  {
    if x.Branch? {
      assert |z.children| == |z.children.Keys| == |x.children.Keys| == |x.children|;
    }
  }
}
