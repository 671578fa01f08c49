/**
 The entries of a trie in key order.

 `Items` lists them; the list is sorted, holds exactly what lookups find, and its
 endowments add up to the stored metadata.  Order-book operations are specified on
 this list.
 */
module BatchItems {

  import opened Nibbles
  import opened Tries
  import opened BatchNodes

  datatype Item = Item(key: Key, entry: Entry)

  /** Lexicographic order on keys of one length, the order of the prefixes. */
  predicate Less(a: Key, b: Key) {
    var n := MatchLen(a, b);
    n < |a| && n < |b| && a[n] < b[n]
  }

  function SlotOf(m: map<Nibble, seq<Item>>, b: Nibble): seq<Item> {
    if b in m then m[b] else []
  }

  /** The lists of the slots below `b`, one after the other. */
  function Flat(m: map<Nibble, seq<Item>>, b: nat): seq<Item>
    requires b <= 16
  {
    if b == 0 then [] else Flat(m, b - 1) + SlotOf(m, b - 1)
  }

  ghost function Items<A>(t: Trie<A>): seq<Item>
    decreases t, 1
  {
    match t
    case Leaf(k, e, _) => [Item(k, e)]
    case Branch(_, _, _) => Flat(ItemMap(t), 16)
  }

  ghost function ItemMap<A>(t: Trie<A>): map<Nibble, seq<Item>>
    requires t.Branch?
    decreases t, 0
  {
    map b | b in t.children :: Items(t.children[b])
  }

  // ----- lists and lookups -----

  lemma {:induction false} InFlat(m: map<Nibble, seq<Item>>, b: nat, x: Item)
    requires b <= 16
    ensures x in Flat(m, b) <==> exists d: Nibble :: d < b && d in m && x in m[d]
  {
    if b > 0 {
      InFlat(m, b - 1, x);
    }
  }

  /** The list holds exactly what lookups find. */
  lemma {:induction false} ItemsAreEntries<A>(t: Trie<A>, K: nat, k: Key, e: Entry)
    requires WellFormed(t, K)
    ensures Item(k, e) in Items(t) <==> Get(t, k) == Some(e)
    decreases t
  {
    if t.Branch? {
      InFlat(ItemMap(t), 16, Item(k, e));
      forall b | b in t.children ensures Item(k, e) in Items(t.children[b]) <==> Get(t.children[b], k) == Some(e)
        ensures Get(t.children[b], k).Some? ==> Under(t.prefix, b, k)
      {
        ItemsAreEntries(t.children[b], K, k, e);
        if Get(t.children[b], k).Some? { GetPrefix(t.children[b], K, k); }
      }
      if Get(t, k) == Some(e) {
        assert Item(k, e) in ItemMap(t)[k[|t.prefix|]];
      }
    }
  }

  ghost predicate Sorted(s: seq<Item>) {
    forall i, j | 0 <= i < j < |s| :: Less(s[i].key, s[j].key)
  }

  /** Keys of the list lie below slot `b` of prefix `p`. */
  ghost predicate AllUnder(s: seq<Item>, p: Key, b: Nibble) {
    forall i | 0 <= i < |s| :: Under(p, b, s[i].key)
  }

  lemma LessBySlot(p: Key, b: Nibble, d: Nibble, x: Key, y: Key)
    requires Under(p, b, x) && Under(p, d, y) && b < d
    ensures Less(x, y)
  {
    assert x[..|p|] == p == y[..|p|];
    MatchLenUnique(x, y, |p|);
  }

  lemma {:induction false} FlatSorted(m: map<Nibble, seq<Item>>, p: Key, b: nat)
    requires b <= 16 && forall d | d in m :: Sorted(m[d]) && AllUnder(m[d], p, d)
    ensures Sorted(Flat(m, b))
    ensures forall i | 0 <= i < |Flat(m, b)| :: p < Flat(m, b)[i].key && Flat(m, b)[i].key[|p|] < b
  {
    if b > 0 {
      FlatSorted(m, p, b - 1);
      var s, z := Flat(m, b - 1), SlotOf(m, b - 1);
      forall i, j | 0 <= i < |s| && 0 <= j < |z| ensures Less(s[i].key, z[j].key) {
        LessBySlot(p, s[i].key[|p|], b - 1, s[i].key, z[j].key);
      }
    }
  }

  /** The list is in strictly increasing key order. */
  lemma {:induction false} ItemsSorted<A>(t: Trie<A>, K: nat)
    requires WellFormed(t, K)
    ensures Sorted(Items(t))
    ensures forall i | 0 <= i < |Items(t)| :: t.Prefix() <= Items(t)[i].key && |Items(t)[i].key| == K
    decreases t
  {
    if t.Branch? {
      forall b | b in t.children ensures Sorted(Items(t.children[b])) && AllUnder(Items(t.children[b]), t.prefix, b) {
        ItemsSorted(t.children[b], K);
      }
      FlatSorted(ItemMap(t), t.prefix, 16);
      forall i | 0 <= i < |Items(t)| ensures |Items(t)[i].key| == K {
        var x := Items(t)[i];
        InFlat(ItemMap(t), 16, x);
        var d: Nibble :| d in ItemMap(t) && x in ItemMap(t)[d];
        ItemsSorted(t.children[d], K);
      }
    }
  }

  /** A canonical branch has several entries, a leaf one. */
  lemma ManyItems<A>(t: Trie<A>, K: nat)
    requires Canonical(t, K)
    ensures |Items(t)| >= 1 && (t.Leaf? <==> |Items(t)| == 1)
  {
    if t.Branch? {
      var k1, k2 := DivergingKeys(t, K);
      var e1, e2 := Get(t, k1).value, Get(t, k2).value;
      ItemsAreEntries(t, K, k1, e1);
      ItemsAreEntries(t, K, k2, e2);
      var i :| 0 <= i < |Items(t)| && Items(t)[i] == Item(k1, e1);
      var j :| 0 <= j < |Items(t)| && Items(t)[j] == Item(k2, e2);
      assert i != j;
    }
  }

  // ----- metadata -----

  /** The metadata of a list of entries. */
  function Sum(s: seq<Item>): Meta {
    if s == [] then ZERO else Sum(s[..|s| - 1]).Plus(LeafMeta(s[|s| - 1].entry))
  }

  function Endow(s: seq<Item>): int {
    Sum(s).endow
  }

  lemma {:induction false} SumConcat(s: seq<Item>, z: seq<Item>)
    ensures Sum(s + z) == Sum(s).Plus(Sum(z))
  {
    if z == [] {
      assert s + z == s;
    } else {
      var x := LeafMeta(z[|z| - 1].entry);
      assert (s + z)[..|s + z| - 1] == s + z[..|z| - 1] && (s + z)[|s + z| - 1] == z[|z| - 1];
      SumConcat(s, z[..|z| - 1]);
      assert Sum(s + z) == Sum(s + z[..|z| - 1]).Plus(x);
      assert Sum(z) == Sum(z[..|z| - 1]).Plus(x);
    }
  }

  lemma {:induction false} FlatSum(m: map<Nibble, seq<Item>>, n: map<Nibble, Meta>, b: nat)
    requires b <= 16 && m.Keys == n.Keys && forall d | d in m :: n[d] == Sum(m[d])
    ensures SumOf(n, b) == Sum(Flat(m, b))
  {
    if b > 0 {
      FlatSum(m, n, b - 1);
      SlotSum(m, n, b - 1, Flat(m, b - 1), SlotOf(m, b - 1));
    }
  }

  lemma SlotSum(m: map<Nibble, seq<Item>>, n: map<Nibble, Meta>, b: nat, a: seq<Item>, s: seq<Item>)
    requires b < 16 && m.Keys == n.Keys && s == SlotOf(m, b) && (b in m ==> n[b] == Sum(s)) && SumOf(n, b) == Sum(a)
    ensures SumOf(n, b + 1) == Sum(a + s)
  {
    SumConcat(a, s);
  }

  /** The stored metadata is that of the list. */
  lemma {:induction false} TotalIsOfItems<A>(t: Trie<A>)
    ensures Total(t) == Sum(Items(t))
    decreases t
  {
    if t.Branch? {
      forall b | b in t.children ensures Total(t.children[b]) == Sum(Items(t.children[b])) {
        TotalIsOfItems(t.children[b]);
      }
      FlatSum(ItemMap(t), Totals(t), 16);
    } else {
      assert Items(t)[..0] == [];
    }
  }

  /** No entry has a negative endowment. */
  ghost predicate NonNegative(s: seq<Item>) {
    forall i | 0 <= i < |s| :: s[i].entry.endow >= 0
  }

  ghost predicate Positive(s: seq<Item>) {
    forall i | 0 <= i < |s| :: s[i].entry.endow > 0
  }

  lemma {:induction false} EndowGrows(s: seq<Item>, i: nat)
    requires NonNegative(s) && i <= |s|
    ensures 0 <= Endow(s[..i]) <= Endow(s)
    ensures Positive(s) && i < |s| ==> Endow(s[..i]) < Endow(s)
    decreases |s|
  {
    if i < |s| {
      EndowGrows(s[..|s| - 1], i);
      assert s[..|s| - 1][..i] == s[..i];
    } else {
      assert s[..i] == s;
      if s != [] { EndowGrows(s[..|s| - 1], |s| - 1); assert s[..|s| - 1][..|s| - 1] == s[..|s| - 1]; }
    }
  }

  // ----- cutting the list at a slot -----

  /** Slots before `d` are all in `m1`, slots after it all in `m2`, and slot `d` is cut in two. */
  ghost predicate CutAt(m: map<Nibble, seq<Item>>, m1: map<Nibble, seq<Item>>, m2: map<Nibble, seq<Item>>, d: Nibble) {
    && (forall i: Nibble | i < d :: SlotOf(m1, i) == SlotOf(m, i) && SlotOf(m2, i) == [])
    && (forall i: Nibble | i > d :: SlotOf(m1, i) == [] && SlotOf(m2, i) == SlotOf(m, i))
    && SlotOf(m, d) == SlotOf(m1, d) + SlotOf(m2, d)
  }

  lemma {:induction false} FlatSame(m: map<Nibble, seq<Item>>, n: map<Nibble, seq<Item>>, b: nat)
    requires b <= 16 && forall i: Nibble | i < b :: SlotOf(m, i) == SlotOf(n, i)
    ensures Flat(m, b) == Flat(n, b)
  {
    if b > 0 { FlatSame(m, n, b - 1); }
  }

  lemma {:induction false} FlatNone(m: map<Nibble, seq<Item>>, b: nat)
    requires b <= 16 && forall i: Nibble | i < b :: SlotOf(m, i) == []
    ensures Flat(m, b) == []
  {
    if b > 0 { FlatNone(m, b - 1); }
  }

  lemma Regroup(f: seq<Item>, g: seq<Item>, h: seq<Item>)
    ensures (f + g) + h == f + (g + h)
  {
  }

  /** The list of the whole is the list of the first part followed by the list of the second. */
  lemma {:induction false} FlatCut(m: map<Nibble, seq<Item>>, m1: map<Nibble, seq<Item>>, m2: map<Nibble, seq<Item>>,
                                   d: Nibble, b: nat)
    requires d < b <= 16 && CutAt(m, m1, m2, d)
    ensures Flat(m, b) == Flat(m1, b) + Flat(m2, b)
    ensures Flat(m1, b) == Flat(m, d) + SlotOf(m1, d)
  {
    if b == d + 1 {
      FlatSame(m, m1, d);
      FlatNone(m2, d);
      GlueHere(Flat(m, d), SlotOf(m, d), SlotOf(m1, d), SlotOf(m2, d));
    } else {
      FlatCut(m, m1, m2, d, b - 1);
      GlueAfter(Flat(m, b - 1), Flat(m1, b - 1), Flat(m2, b - 1), SlotOf(m, b - 1));
    }
  }

  lemma GlueHere(f: seq<Item>, s: seq<Item>, s1: seq<Item>, s2: seq<Item>)
    requires s == s1 + s2
    ensures f + s == (f + s1) + ([] + s2)
  {
  }

  lemma GlueAfter(f: seq<Item>, f1: seq<Item>, f2: seq<Item>, s: seq<Item>)
    requires f == f1 + f2
    ensures f + s == (f1 + []) + (f2 + s) && f1 + [] == f1
  {
  }

  lemma {:induction false} Behind(m: map<Nibble, seq<Item>>, d: Nibble, b: nat) returns (z: seq<Item>)
    requires d < b <= 16
    ensures Flat(m, b) == Flat(m, d) + SlotOf(m, d) + z
  {
    if b == d + 1 {
      z := [];
    } else {
      z := Behind(m, d, b - 1);
      z := z + SlotOf(m, b - 1);
    }
  }
}
