/**
 Splitting an order book by endowment.

 `EndowSplit` takes the cheapest offers off a trie, up to a threshold of
 endowment: the entries in key order are cut in two.  What stays is canonical with
 exact metadata; what comes off may have one-child nodes, all of them along the
 path to the first entry that stays.
 */
module BatchSplit {

  import opened Nibbles
  import opened Tries
  import opened Hashing
  import opened BatchNodes
  import opened BatchMerge
  import opened BatchUpdates
  import opened BatchItems

  // ----- where the list is cut -----

  /** Cutting before item `i` takes off at most `limit`, and either meets it or could not take one item more. */
  ghost predicate Cut(s: seq<Item>, i: nat, limit: int) {
    && i < |s| && Endow(s[..i]) <= limit
    && (Endow(s[..i]) == limit || Endow(s[..i + 1]) > limit)
  }

  lemma CutShift(a: seq<Item>, x: seq<Item>, z: seq<Item>, j: nat, limit: int)
    requires Cut(x, j, limit - Endow(a))
    ensures Cut(a + x + z, |a| + j, limit)
    ensures (a + x + z)[..|a| + j] == a + x[..j] && (a + x + z)[|a| + j..] == x[j..] + z
    ensures (a + x + z)[|a| + j] == x[j]
  {
    SlicesShift(a, x, z, j);
    SlicesShift(a, x, z, j + 1);
    SumConcat(a, x[..j]);
    SumConcat(a, x[..j + 1]);
    assert (a + x + z)[|a| + j] == x[j];
  }

  lemma SlicesShift(a: seq<Item>, x: seq<Item>, z: seq<Item>, j: nat)
    requires j <= |x|
    ensures (a + x + z)[..|a| + j] == a + x[..j] && (a + x + z)[|a| + j..] == x[j..] + z
  {
  }

  /** For positive endowments the cut takes off the longest initial segment that fits. */
  lemma CutIsLongest(s: seq<Item>, i: nat, limit: int, j: nat)
    requires Positive(s) && Cut(s, i, limit) && j <= |s|
    ensures Endow(s[..j]) <= limit <==> j <= i
  {
    if j <= i {
      EndowGrows(s[..i], j);
      assert s[..i][..j] == s[..j];
    } else {
      EndowGrows(s[..j], i + 1);
      assert s[..j][..i + 1] == s[..i + 1];
      assert s[..i + 1][..i] == s[..i];
    }
  }

  // ----- shapes -----

  /** Dense except along `path`, where one child is enough. */
  ghost predicate Spine(t: Node, path: Key)
  {
    t.Leaf? ||
    (&& |t.children| >= 1 && |t.prefix| < |path|
     && forall b | b in t.children :: if b == path[|t.prefix|] then Spine(t.children[b], path)
       else Dense(t.children[b]))
  }

  /** What comes off: well kept, but not canonical along `path`. */
  ghost predicate Loose(H: Hasher, K: nat, t: Node, path: Key) {
    WellFormed(t, K) && Exact(t) && Coherent(H, t) && Spine(t, path) && |path| == K
  }

  lemma {:induction false} DenseIsSpine(t: Node, K: nat, path: Key)
    requires Canonical(t, K) && |path| == K
    ensures Spine(t, path)
  {
    if t.Branch? {
      forall b | b in t.children && b == path[|t.prefix|] ensures Spine(t.children[b], path) {
        DenseIsSpine(t.children[b], K, path);
      }
    }
  }

  ghost function ItemsAt(x: Option<Node>): seq<Item> {
    if x.Some? then Items(x.value) else []
  }

  /** A node with prefix `p` and items `s` is split before item `i`. */
  ghost predicate Splits(H: Hasher, K: nat, p: Key, s: seq<Item>, limit: int, off: Option<Node>, r: Node, i: nat) {
    && Cut(s, i, limit)
    && ItemsAt(off) == s[..i] && Items(r) == s[i..]
    && NearlyGood(H, r, K) && r.Prefix() == p
    && (off.Some? ==> Loose(H, K, off.value, s[i].key) && off.value.Prefix() == p)
  }

  // ----- assembling the two parts of a branch -----

  /** Slots before `d` have moved from `c` to `n`, slots after it have not; slot `d` is `x1` there and `x2` here. */
  ghost predicate Parted(t: Node, d: Nibble, n: map<Nibble, Node>, c: map<Nibble, Node>, x1: Option<Node>,
                         x2: Option<Node>)
    requires t.Branch?
  {
    && (forall i: Nibble {:trigger At(n, i)} | i != d :: At(n, i) == if i < d then At(t.children, i) else None)
    && (forall i: Nibble {:trigger At(c, i)} | i != d :: At(c, i) == if i < d then None else At(t.children, i))
    && At(n, d) == x1 && At(c, d) == x2
  }

  lemma SlotItems(t: Node, b: Nibble)
    requires t.Branch?
    ensures SlotOf(ItemMap(t), b) == ItemsAt(At(t.children, b))
  {
  }

  lemma PartedItems(t: Node, d: Nibble, off: Node, r: Node, x1: Option<Node>, x2: Option<Node>)
    requires t.Branch? && off.Branch? && r.Branch? && Parted(t, d, off.children, r.children, x1, x2)
    requires ItemsAt(At(t.children, d)) == ItemsAt(x1) + ItemsAt(x2)
    ensures Items(t) == Items(off) + Items(r)
    ensures Items(off) == Flat(ItemMap(t), d) + ItemsAt(x1)
  {
    forall i: Nibble
      ensures SlotOf(ItemMap(t), i) == ItemsAt(At(t.children, i))
      ensures SlotOf(ItemMap(off), i) == ItemsAt(At(off.children, i))
      ensures SlotOf(ItemMap(r), i) == ItemsAt(At(r.children, i))
    {
      SlotItems(t, i);
      SlotItems(off, i);
      SlotItems(r, i);
    }
    assert CutAt(ItemMap(t), ItemMap(off), ItemMap(r), d);
    FlatCut(ItemMap(t), ItemMap(off), ItemMap(r), d, 16);
  }

  /** What stays of a branch. */
  lemma PartedStays(H: Hasher, K: nat, t: Node, d: Nibble, n: map<Nibble, Node>, r: Node, x1: Option<Node>,
                    x2: Option<Node>)
    requires Good(H, t, K) && t.Branch? && r.Branch? && r.prefix == t.prefix && r.ann.hash == None
    requires Parted(t, d, n, r.children, x1, x2) && SlotGood(H, K, t.prefix, d, x2)
    requires r.ann.meta == Total(r) && r.children != map[]
    ensures NearlyGood(H, r, K)
  {
    GoodSlots(H, t, K);
    forall i: Nibble ensures SlotGood(H, K, r.prefix, i, At(r.children, i)) {
      assert SlotGood(H, K, t.prefix, i, At(t.children, i));
    }
    assert |r.children| >= 1 by { assert r.children.Keys != {}; }
    NearlyFromSlots(H, r, K);
  }

  ghost predicate SlotLoose(H: Hasher, K: nat, p: Key, b: Nibble, x: Option<Node>, path: Key) {
    x.Some? ==> Loose(H, K, x.value, path) && Under(p, b, x.value.Prefix())
  }

  /** What comes off a branch. */
  lemma PartedOff(H: Hasher, K: nat, t: Node, d: Nibble, off: Node, c: map<Nibble, Node>, x1: Option<Node>,
                  x2: Option<Node>, path: Key)
    requires Good(H, t, K) && t.Branch? && off.Branch? && off.prefix == t.prefix && off.ann.hash == None && |path| == K
    requires Parted(t, d, off.children, c, x1, x2) && SlotLoose(H, K, t.prefix, d, x1, path)
    requires x1.Some? ==> path[|t.prefix|] == d
    requires off.ann.meta == Total(off) && off.children != map[]
    ensures Loose(H, K, off, path)
  {
    forall i: Nibble | i in off.children
      ensures SlotLoose(H, K, t.prefix, i, At(off.children, i), path)
      ensures i != path[|t.prefix|] ==> Dense(off.children[i])
    {
      assert At(off.children, i) == if i == d then x1 else if i < d then At(t.children, i) else None;
      if i != d {
        GoodChild(H, t, K, i);
        DenseIsSpine(t.children[i], K, path);
      }
    }
    LooseFromSlots(H, K, off, path);
  }

  lemma LooseFromSlots(H: Hasher, K: nat, t: Node, path: Key)
    requires t.Branch? && |t.prefix| < K == |path|
    requires t.ann.hash == None && t.ann.meta == Total(t) && t.children != map[]
    requires forall i: Nibble | i in t.children :: SlotLoose(H, K, t.prefix, i, At(t.children, i), path)
    requires forall i: Nibble | i in t.children && i != path[|t.prefix|] :: Dense(t.children[i])
    ensures Loose(H, K, t, path)
  {
    forall i | i in t.children ensures Loose(H, K, t.children[i], path) && Under(t.prefix, i, t.children[i].Prefix()) {
      assert SlotLoose(H, K, t.prefix, i, At(t.children, i), path);
    }
    assert |t.children| >= 1 by { assert t.children.Keys != {}; }
  }

  // ----- the split -----

  function Before(c: map<Nibble, Node>, b: int): map<Nibble, Node> {
    map i | i in c && i < b :: c[i]
  }

  function From(c: map<Nibble, Node>, b: int): map<Nibble, Node> {
    map i | i in c && b <= i :: c[i]
  }

  lemma MoveSlot(c: map<Nibble, Node>, b: Nibble)
    ensures b in From(c, b) <==> b in c
    ensures b in c ==> Before(c, b)[b := c[b]] == Before(c, b + 1) && From(c, b) - {b} == From(c, b + 1)
    ensures b in c ==> From(c, b)[b] == c[b]
    ensures b !in c ==> Before(c, b) == Before(c, b + 1) && From(c, b) == From(c, b + 1)
  {
  }

  lemma FrontIsParted(t: Node, d: Nibble)
    requires t.Branch?
    ensures Parted(t, d, Before(t.children, d), From(t.children, d), None, At(t.children, d))
  {
  }

  lemma SumToSlot(t: Node, b: nat)
    requires t.Branch? && b <= 16
    ensures SumOf(Totals(t), b) == Sum(Flat(ItemMap(t), b))
  {
    forall i | i in t.children ensures Total(t.children[i]) == Sum(Items(t.children[i])) {
      TotalIsOfItems(t.children[i]);
    }
    FlatSum(ItemMap(t), Totals(t), b);
  }

  /** Moves whole subtrees from `c` to `n` as long as they fit; `d` is the slot where this ends. */
  method TakeWhole(t: Node, limit: int)
    returns (d: Nibble, n: map<Nibble, Node>, c: map<Nibble, Node>, meta: Meta, acc: int)
    requires t.Branch? && 0 < limit < Total(t).endow
    requires t.ann.meta == Total(t) && forall b | b in t.children :: t.children[b].ann.meta == Totals(t)[b]
    ensures n == Before(t.children, d) && c == From(t.children, d)
    ensures acc == SumOf(Totals(t), d).endow <= limit
    ensures meta == Total(t).Minus(SumOf(Totals(t), d))
    ensures acc < limit ==> d in t.children && acc + Total(t.children[d]).endow > limit
  {
    ghost var m := Totals(t);
    var b := 0;
    n, c, meta, acc := map[], t.children, t.ann.meta, 0;
    assert c == From(t.children, 0);
    while b < 16 && acc < limit && !(b in c && acc + c[b].ann.meta.endow > limit)
      invariant 0 <= b <= 16 && Taken(t, m, b, n, c, meta, acc) && acc <= limit
    {
      TakeSlot(t, m, b, n, c, meta, acc);
      if b in c {
        acc, meta := acc + c[b].ann.meta.endow, meta.Minus(c[b].ann.meta);
        n, c := n[b := c[b]], c - {b};
      }
      b := b + 1;
    }
    d := b;
    if b < 16 { MoveSlot(t.children, b); }
  }

  /** The slots below `b` have been moved over. */
  ghost predicate Taken(t: Node, m: map<Nibble, Meta>, b: int, n: map<Nibble, Node>, c: map<Nibble, Node>, meta: Meta,
                        acc: int) {
    && t.Branch? && 0 <= b <= 16
    && n == Before(t.children, b) && c == From(t.children, b)
    && acc == SumOf(m, b).endow && meta == SumOf(m, 16).Minus(SumOf(m, b))
  }

  lemma TakeSlot(t: Node, m: map<Nibble, Meta>, b: Nibble, n: map<Nibble, Node>, c: map<Nibble, Node>, meta: Meta,
                 acc: int)
    requires Taken(t, m, b, n, c, meta, acc) && m.Keys == t.children.Keys
    requires b in m ==> m[b] == t.children[b].ann.meta
    ensures b in c <==> b in t.children
    ensures b in c ==>
      c[b] == t.children[b]
      && Taken(t, m, b + 1, n[b := c[b]], c - {b}, meta.Minus(c[b].ann.meta), acc + c[b].ann.meta.endow)
    ensures b !in c ==> Taken(t, m, b + 1, n, c, meta, acc)
  {
    MoveSlot(t.children, b);
  }

  /** The node that comes off, with freshly computed metadata. */
  function Gathered(p: Key, n: map<Nibble, Node>): Node {
    Branch(p, n, Note(SumOf(map b | b in n :: n[b].ann.meta, 16), None))
  }

  /** There is no node when nothing comes off. */
  function Off(p: Key, n: map<Nibble, Node>): Option<Node> {
    if n == map[] then None else Some(Gathered(p, n))
  }

  lemma GatheredIsExact(p: Key, n: map<Nibble, Node>)
    requires forall b | b in n :: n[b].ann.meta == Total(n[b])
    ensures Gathered(p, n).ann.meta == Total(Gathered(p, n))
  {
    assert (map b | b in n :: n[b].ann.meta) == Totals(Gathered(p, n));
  }

  lemma PartedMetas(H: Hasher, K: nat, t: Node, d: Nibble, n: map<Nibble, Node>, c: map<Nibble, Node>,
                    x1: Option<Node>, x2: Option<Node>)
    requires Good(H, t, K) && t.Branch? && Parted(t, d, n, c, x1, x2) && (x1.Some? ==> Exact(x1.value))
    ensures forall b | b in n :: n[b].ann.meta == Total(n[b])
  {
    forall b: Nibble | b in n ensures n[b].ann.meta == Total(n[b]) {
      assert At(n, b) == if b == d then x1 else if b < d then At(t.children, b) else None;
      if b != d { GoodChild(H, t, K, b); }
    }
  }

  lemma NoItems(t: Node)
    requires t.Branch? && t.children == map[]
    ensures Items(t) == []
  {
    FlatNone(ItemMap(t), 16);
  }

  /** Two parts of a branch, cut in slot `d`. */
  lemma PartsSplit(H: Hasher, K: nat, t: Node, s: seq<Item>, a: seq<Item>, limit: int, d: Nibble, n: map<Nibble, Node>,
                   c: map<Nibble, Node>, x1: Option<Node>, x2: Option<Node>, meta: Meta, i: nat, path: Key)
    requires Good(H, t, K) && t.Branch? && Parted(t, d, n, c, x1, x2) && s == Items(t) && a == Flat(ItemMap(t), d)
    requires SlotGood(H, K, t.prefix, d, x2) && ItemsAt(At(t.children, d)) == ItemsAt(x1) + ItemsAt(x2)
    requires Cut(s, i, limit) && i == |a| + |ItemsAt(x1)|
    requires s[i].key == path && |path| == K && SlotLoose(H, K, t.prefix, d, x1, path)
    requires x1.Some? ==> Under(t.prefix, d, path)
    requires meta == Total(t).Minus(Sum(a)).Minus(Sum(ItemsAt(x1)))
    ensures Splits(H, K, t.prefix, s, limit, Off(t.prefix, n), Branch(t.prefix, c, Note(meta, None)), i)
  {
    var off, r := Gathered(t.prefix, n), Branch(t.prefix, c, Note(meta, None));
    PartedItems(t, d, off, r, x1, x2);
    assert s[..i] == Items(off) && s[i..] == Items(r);
    TotalsAddUp(t, off, r, d, x1);
    if c == map[] { NoItems(r); }
    PartedStays(H, K, t, d, n, r, x1, x2);
    if n == map[] {
      NoItems(off);
    } else {
      PartedMetas(H, K, t, d, n, c, x1, x2);
      GatheredIsExact(t.prefix, n);
      PartedOff(H, K, t, d, off, c, x1, x2, path);
    }
  }

  lemma TotalsAddUp(t: Node, off: Node, r: Node, d: Nibble, x1: Option<Node>)
    requires t.Branch? && Items(t) == Items(off) + Items(r) && Items(off) == Flat(ItemMap(t), d) + ItemsAt(x1)
    ensures Total(r) == Total(t).Minus(Sum(Flat(ItemMap(t), d))).Minus(Sum(ItemsAt(x1)))
  {
    TotalIsOfItems(t);
    TotalIsOfItems(r);
    SumConcat(Items(off), Items(r));
    SumConcat(Flat(ItemMap(t), d), ItemsAt(x1));
    RestOfSum(Sum(Items(t)), Sum(Items(off)), Sum(Items(r)), Sum(Flat(ItemMap(t), d)), Sum(ItemsAt(x1)));
  }

  lemma RestOfSum(s: Meta, off: Meta, rest: Meta, a: Meta, x: Meta)
    requires s == off.Plus(rest) && off == a.Plus(x)
    ensures rest == s.Minus(a).Minus(x)
  {
  }

  /** A cut within slot `d` is a cut of the whole list `s`. */
  lemma SlotCut(t: Node, s: seq<Item>, a: seq<Item>, d: Nibble, limit: int, x: seq<Item>, j: nat)
    requires t.Branch? && s == Items(t) && d in t.children && x == Items(t.children[d]) && a == Flat(ItemMap(t), d)
    requires Cut(x, j, limit - Endow(a))
    ensures Cut(s, |a| + j, limit) && s[|a| + j] == x[j]
  {
    var z := Behind(ItemMap(t), d, 16);
    MidCut(s, a, x, z, j, limit);
  }

  lemma SlotKey(K: nat, t: Node, d: Nibble, x: seq<Item>, j: nat)
    requires t.Branch? && WellFormed(t, K) && d in t.children && x == Items(t.children[d]) && j < |x|
    ensures |x[j].key| == K && Under(t.prefix, d, x[j].key)
    ensures ItemsAt(At(t.children, d)) == x[..j] + x[j..]
  {
    assert x == x[..j] + x[j..];
    ItemsSorted(t.children[d], K);
    UnderTrans(t.prefix, d, t.children[d].Prefix(), x[j].key);
  }

  lemma UnderTrans(p: Key, d: Nibble, q: Key, k: Key)
    requires Under(p, d, q) && q <= k
    ensures Under(p, d, k)
  {
  }

  lemma MidCut(s: seq<Item>, a: seq<Item>, x: seq<Item>, z: seq<Item>, j: nat, limit: int)
    requires s == a + x + z && Cut(x, j, limit - Endow(a))
    ensures Cut(s, |a| + j, limit) && s[|a| + j] == x[j]
  {
    CutShift(a, x, z, j, limit);
  }

  lemma BoundaryCut(K: nat, t: Node, d: Nibble, limit: int)
    requires t.Branch? && WellFormed(t, K) && Endow(Flat(ItemMap(t), d)) == limit < Total(t).endow
    ensures Cut(Items(t), |Flat(ItemMap(t), d)|, limit) && |Items(t)[|Flat(ItemMap(t), d)|].key| == K
  {
    TotalIsOfItems(t);
    var z := Behind(ItemMap(t), d, 16);
    FrontCut(Items(t), Flat(ItemMap(t), d), SlotOf(ItemMap(t), d) + z, limit) by {
      Regroup(Flat(ItemMap(t), d), SlotOf(ItemMap(t), d), z);
    }
    ItemsSorted(t, K);
  }

  lemma FrontCut(s: seq<Item>, a: seq<Item>, z: seq<Item>, limit: int)
    requires s == a + z && Endow(a) == limit < Endow(s)
    ensures Cut(s, |a|, limit)
  {
    assert s[..|a|] == a;
    assert |a| == |s| ==> s == a;
  }

  lemma {:induction false} FlatOfOne(m: map<Nibble, seq<Item>>, d: Nibble, b: nat)
    requires b <= 16 && d in m && forall i | i in m :: i == d
    ensures Flat(m, b) == if d < b then m[d] else []
  {
    if b > 0 { FlatOfOne(m, d, b - 1); }
  }

  lemma ContractItems(t: Node)
    ensures Items(Contract(t)) == Items(t)
  {
    if t.Branch? && |t.children| == 1 {
      var b :| b in t.children;
      LowestOfOne(t.children, b);
      FlatOfOne(ItemMap(t), b, 16);
    }
  }

  lemma SplitIsParted(t: Node, d: Nibble, x1: Option<Node>, x2: Node)
    requires t.Branch?
    ensures Parted(t, d, SetAt(Before(t.children, d), d, x1), SetAt(From(t.children, d), d, Some(x2)), x1, Some(x2))
  {
  }

  /** The two halves of a split subtree with items `x`, seen from its parent's slot. */
  ghost predicate SlotHalves(H: Hasher, K: nat, p: Key, d: Nibble, x: seq<Item>, so: Option<Node>, z: Node, j: nat,
                             path: Key) {
    && j < |x| && x[j].key == path
    && ItemsAt(so) == x[..j] && Items(z) == x[j..]
    && SlotGood(H, K, p, d, Some(z)) && SlotLoose(H, K, p, d, so, path)
  }

  lemma ChildHalves(H: Hasher, K: nat, p: Key, d: Nibble, q: Key, x: seq<Item>, limit: int, so: Option<Node>,
                    rest: Node, j: nat)
    requires Splits(H, K, q, x, limit, so, rest, j) && Under(p, d, q)
    ensures SlotHalves(H, K, p, d, x, so, Contract(rest), j, x[j].key)
  {
    ContractIsGood(H, rest, K);
    ContractItems(rest);
  }

  /** A cut of the subtree in slot `d`, seen from the whole list. */
  lemma CrossingCut(t: Node, s: seq<Item>, a: seq<Item>, d: Nibble, limit: int, x: seq<Item>, j: nat, i: nat, path: Key)
    requires t.Branch? && s == Items(t) && d in t.children && x == Items(t.children[d]) && a == Flat(ItemMap(t), d)
    requires Cut(x, j, limit - Endow(a)) && i == |a| + j && x[j].key == path
    ensures Cut(s, i, limit) && s[i].key == path
  {
    SlotCut(t, s, a, d, limit, x, j);
  }

  lemma HalvesFill(H: Hasher, K: nat, t: Node, d: Nibble, x: seq<Item>, so: Option<Node>, z: Node, j: nat, path: Key)
    requires t.Branch? && WellFormed(t, K) && d in t.children && x == Items(t.children[d])
    requires SlotHalves(H, K, t.prefix, d, x, so, z, j, path)
    ensures |path| == K && Under(t.prefix, d, path) && |ItemsAt(so)| == j
    ensures ItemsAt(At(t.children, d)) == ItemsAt(so) + ItemsAt(Some(z))
    ensures SlotGood(H, K, t.prefix, d, Some(z)) && SlotLoose(H, K, t.prefix, d, so, path)
  {
    SlotKey(K, t, d, x, j);
  }

  /** The subtree in slot `d` fits only in part. */
  method SplitSlot(ghost H: Hasher, K: nat, ghost p: Key, ghost d: Nibble, x: Node, ghost s: seq<Item>, left: int)
    returns (so: Option<Node>, z: Node, meta: Meta, ghost j: nat)
    requires Good(H, x, K) && Under(p, d, x.Prefix()) && s == Items(x) && 0 < left < Total(x).endow
    ensures Cut(s, j, left) && SlotHalves(H, K, p, d, s, so, z, j, s[j].key)
    ensures meta == Sum(ItemsAt(so))
    decreases K - |x.Prefix()|, 3
  {
    var rest;
    so, rest, j := EndowSplit(H, K, x, left);
    ChildHalves(H, K, p, d, x.Prefix(), s, left, so, rest, j);
    z := Contract(rest);
    meta := if so.Some? then so.value.ann.meta else ZERO;
    if so.Some? { TotalIsOfItems(so.value); }
  }

  /** At a slot boundary nothing has to be cut. */
  lemma BoundarySplits(H: Hasher, K: nat, t: Node, s: seq<Item>, d: Nibble, limit: int, meta: Meta)
    requires Good(H, t, K) && t.Branch? && s == Items(t) && Endow(Flat(ItemMap(t), d)) == limit < Total(t).endow
    requires meta == Total(t).Minus(Sum(Flat(ItemMap(t), d))).Minus(Sum(ItemsAt(None)))
    ensures var n, c := Before(t.children, d), From(t.children, d);
      Splits(H, K, t.prefix, s, limit, Off(t.prefix, n), Branch(t.prefix, c, Note(meta, None)),
             |Flat(ItemMap(t), d)|)
  {
    BoundaryCut(K, t, d, limit);
    FrontIsParted(t, d);
    SlotIsGood(H, t, K, d);
    assert ItemsAt(At(t.children, d)) == ItemsAt(None) + ItemsAt(At(t.children, d));
    var a := Flat(ItemMap(t), d);
    PartsSplit(H, K, t, s, a, limit, d, Before(t.children, d), From(t.children, d),
               None, At(t.children, d), meta, |a|, s[|a|].key);
  }

  method EndowSplit(ghost H: Hasher, K: nat, t: Node, limit: int) returns (off: Option<Node>, r: Node, ghost i: nat)
    requires Good(H, t, K) && 0 < limit < Total(t).endow
    ensures Splits(H, K, t.Prefix(), Items(t), limit, off, r, i)
    ensures ItemsAt(off) + Items(r) == Items(t) && NearlyGood(H, r, K)
    decreases K - |t.Prefix()|, 2
  {
    if t.Leaf? {
      off, r, i := None, t, 0;
      LeafSplits(H, K, t, limit);
    } else {
      off, r, i := SplitBranch(H, K, t, limit);
    }
    HalvesMeet(Items(t), i, ItemsAt(off), Items(r));
  }

  lemma HalvesMeet(s: seq<Item>, i: nat, x: seq<Item>, y: seq<Item>)
    requires i <= |s| && x == s[..i] && y == s[i..]
    ensures x + y == s
  {
  }

  lemma LeafSplits(H: Hasher, K: nat, t: Node, limit: int)
    requires Good(H, t, K) && t.Leaf? && 0 < limit < Total(t).endow
    ensures Splits(H, K, t.key, Items(t), limit, None, t, 0)
  {
    assert Items(t)[..0] == [] && Items(t)[..1] == Items(t) && Items(t)[0..] == Items(t);
    TotalIsOfItems(t);
  }

  lemma ChildMetas(H: Hasher, K: nat, t: Node)
    requires Good(H, t, K) && t.Branch?
    ensures t.ann.meta == Total(t) && forall b | b in t.children :: t.children[b].ann.meta == Totals(t)[b]
  {
    forall b | b in t.children ensures t.children[b].ann.meta == Totals(t)[b] {
      GoodChild(H, t, K, b);
    }
  }

  method Cross(ghost H: Hasher, K: nat, t: Node, ghost s: seq<Item>, ghost a: seq<Item>, d: Nibble, ghost limit: int,
               left: int, n: map<Nibble, Node>, c: map<Nibble, Node>, meta: Meta)
    returns (n': map<Nibble, Node>, c': map<Nibble, Node>, meta': Meta, ghost i: nat)
    requires Good(H, t, K) && t.Branch? && s == Items(t) && d in t.children && a == Flat(ItemMap(t), d)
    requires n == Before(t.children, d) && c == From(t.children, d)
    requires left == limit - Endow(a) && 0 < left < Total(t.children[d]).endow
    requires meta == Total(t).Minus(Sum(a))
    ensures Splits(H, K, t.prefix, s, limit, Off(t.prefix, n'), Branch(t.prefix, c', Note(meta', None)), i)
    decreases K - |t.Prefix()|, 0
  {
    GoodChild(H, t, K, d);
    var so, z, m;
    ghost var j;
    ghost var x := Items(t.children[d]);
    so, z, m, j := SplitSlot(H, K, t.prefix, d, t.children[d], x, left);
    n', c', meta' := SetAt(n, d, so), SetAt(c, d, Some(z)), meta.Minus(m);
    i := |a| + j;
    SplitIsParted(t, d, so, z);
    ghost var path := x[j].key;
    CrossingCut(t, s, a, d, limit, x, j, i, path);
    HalvesFill(H, K, t, d, x, so, z, j, path);
    PartsSplit(H, K, t, s, a, limit, d, n', c', so, Some(z), meta', i, path);
  }

  method SplitBranch(ghost H: Hasher, K: nat, t: Node, limit: int) returns (off: Option<Node>, r: Node, ghost i: nat)
    requires Good(H, t, K) && t.Branch? && 0 < limit < Total(t).endow
    ensures Splits(H, K, t.prefix, Items(t), limit, off, r, i)
    decreases K - |t.Prefix()|, 1
  {
    ghost var s := Items(t);
    ChildMetas(H, K, t);
    var d, n, c, meta, acc := TakeWhole(t, limit);
    SumToSlot(t, d);
    if acc == limit {
      i := |Flat(ItemMap(t), d)|;
      BoundarySplits(H, K, t, s, d, limit, meta);
    } else {
      n, c, meta, i := Cross(H, K, t, s, Flat(ItemMap(t), d), d, limit, limit - acc, n, c, meta);
    }
    off := Off(t.prefix, n);
    r := Branch(t.prefix, c, Note(meta, None));
  }
}
