/**
 The shared picture of a trie as a value.

 A node carries its full prefix, as in the library; a leaf's prefix is its key.
 `Get` is the lookup every variant offers and `Contents` the finite map a trie
 denotes.  The main result is `CanonicalUnique`: a canonical trie is determined
 by its map.
 */
module Tries {

  import opened Nibbles

  type Byte = b: int | 0 <= b < 256

  type Bytes = seq<Byte>

  /**
   What a leaf stores: the serialised value, its endowment (order books), and
   whether the entry counts.  An entry is not live when it is marked for
   deletion (batch trie), inactive (layered trie) or logically empty
   (snapshot trie).
   */
  datatype Entry = Entry(bytes: Bytes, endow: int, live: bool)

  datatype Trie<A> =
    | Leaf(key: Key, entry: Entry, ann: A)
    | Branch(prefix: Key, children: map<Nibble, Trie<A>>, ann: A)
  {
    function Prefix(): Key {
      if Leaf? then key else prefix
    }
  }

  /** Leaves sit at depth `K`; a child extends its parent's prefix by its branch bits. */
  ghost predicate WellFormed<A>(t: Trie<A>, K: nat)
  {
    match t
    case Leaf(k, _, _) => |k| == K
    case Branch(p, c, _) =>
      && |p| < K
      && forall b | b in c :: Under(p, b, c[b].Prefix()) && WellFormed(c[b], K)
  }

  /** Every branch has at least two children. */
  ghost predicate Dense<A>(t: Trie<A>)
  {
    match t
    case Leaf(_, _, _) => true
    case Branch(_, c, _) => |c| >= 2 && forall b | b in c :: Dense(c[b])
  }

  ghost predicate Canonical<A>(t: Trie<A>, K: nat) {
    WellFormed(t, K) && Dense(t)
  }

  lemma CanonicalBranch<A>(t: Trie<A>, K: nat)
    requires t.Branch? && |t.prefix| < K && |t.children| >= 2
    requires forall b | b in t.children :: Canonical(t.children[b], K) && Under(t.prefix, b, t.children[b].Prefix())
    ensures Canonical(t, K)
  {
  }

  /** A root that keeps prefix length 0 whatever its number of children. */
  ghost predicate RootCanonical<A>(t: Trie<A>, K: nat) {
    && t.Branch?
    && t.prefix == []
    && WellFormed(t, K)
    && forall b | b in t.children :: Dense(t.children[b])
  }

  function Get<A>(t: Trie<A>, k: Key): Option<Entry>
  {
    match t
    case Leaf(key, e, _) => if k == key then Some(e) else None
    case Branch(p, c, _) => if p < k && k[|p|] in c then Get(c[k[|p|]], k) else None
  }

  /** The keys of the leaves, wherever they are. */
  ghost function Keys<A>(t: Trie<A>): set<Key>
  {
    match t
    case Leaf(k, _, _) => {k}
    case Branch(_, c, _) => set b, k | b in c && k in Keys(c[b]) :: k
  }

  ghost function Contents<A>(t: Trie<A>): map<Key, Entry> {
    map k | k in Keys(t) && Get(t, k).Some? :: Get(t, k).value
  }

  /** The entries that count: what a root hash commits to. */
  ghost function LiveContents<A>(t: Trie<A>): map<Key, Entry> {
    map k | k in Contents(t) && Contents(t)[k].live :: Contents(t)[k]
  }

  lemma {:induction false} GetPrefix<A>(t: Trie<A>, K: nat, k: Key)
    requires WellFormed(t, K)
    requires Get(t, k).Some?
    ensures |k| == K && t.Prefix() <= k
  {
    if t.Branch? {
      GetPrefix(t.children[k[|t.prefix|]], K, k);
    }
  }

  lemma MissesOutside<A>(t: Trie<A>, K: nat, k: Key)
    requires WellFormed(t, K) && !(t.Prefix() <= k)
    ensures Get(t, k) == None
  {
    if Get(t, k).Some? { GetPrefix(t, K, k); }
  }

  /** Lookup finds exactly the leaves: no leaf is misplaced, none is invented. */
  lemma {:induction false} GetFindsLeaves<A>(t: Trie<A>, K: nat, k: Key)
    requires WellFormed(t, K)
    ensures k in Keys(t) <==> Get(t, k).Some?
    ensures k in Contents(t) <==> Get(t, k).Some?
    ensures Get(t, k).Some? ==> Contents(t)[k] == Get(t, k).value
  {
    if t.Branch? {
      forall b | b in t.children
        ensures k in Keys(t.children[b]) <==> Get(t.children[b], k).Some?
        ensures Get(t.children[b], k).Some? ==> Under(t.prefix, b, k)
      {
        GetFindsLeaves(t.children[b], K, k);
        if Get(t.children[b], k).Some? {
          GetPrefix(t.children[b], K, k);
        }
      }
    }
  }

  lemma TwoBranches<T>(c: map<Nibble, T>) returns (b1: Nibble, b2: Nibble)
    requires |c| >= 2
    ensures b1 in c && b2 in c && b1 != b2
  {
    b1 :| b1 in c;
    var rest := c.Keys - {b1};
    assert |rest| == |c.Keys| - 1;
    b2 :| b2 in rest;
  }

  lemma {:induction false} SomeKey<A>(t: Trie<A>, K: nat) returns (k: Key)
    requires Canonical(t, K)
    ensures Get(t, k).Some? && |k| == K && t.Prefix() <= k
  {
    match t
    case Leaf(key, _, _) => k := key;
    case Branch(p, c, _) =>
      var b, _ := TwoBranches(c);
      k := SomeKey(c[b], K);
      GetPrefix(c[b], K, k);
  }

  /** A canonical branch holds two keys that part right after its prefix. */
  lemma DivergingKeys<A>(t: Trie<A>, K: nat) returns (k1: Key, k2: Key)
    requires Canonical(t, K) && t.Branch?
    ensures Get(t, k1).Some? && Get(t, k2).Some?
    ensures |k1| == |k2| == K && t.prefix <= k1 && t.prefix <= k2
    ensures k1[|t.prefix|] != k2[|t.prefix|]
  {
    var b1, b2 := TwoBranches(t.children);
    k1 := SomeKey(t.children[b1], K);
    k2 := SomeKey(t.children[b2], K);
  }

  ghost predicate SameLookups<A, B>(s: Trie<A>, t: Trie<B>) {
    forall k: Key :: Get(s, k) == Get(t, k)
  }

  /** Equality of two tries up to their annotations. */
  ghost predicate Same<A, B>(s: Trie<A>, t: Trie<B>)
  {
    if s.Leaf? then t.Leaf? && s.key == t.key && s.entry == t.entry
    else
      && t.Branch?
      && s.prefix == t.prefix
      && s.children.Keys == t.children.Keys
      && forall b | b in s.children :: Same(s.children[b], t.children[b])
  }

  lemma ChildLookups<A, B>(s: Trie<A>, t: Trie<B>, K: nat, b: Nibble)
    requires WellFormed(s, K) && WellFormed(t, K)
    requires s.Branch? && t.Branch? && s.prefix == t.prefix
    requires b in s.children && b in t.children
    requires SameLookups(s, t)
    ensures SameLookups(s.children[b], t.children[b])
  {
    forall k: Key ensures Get(s.children[b], k) == Get(t.children[b], k) {
      assert Get(s, k) == Get(t, k);
      if Under(s.prefix, b, k) {
        assert k[|s.prefix|] == b;
      } else {
        if Get(s.children[b], k).Some? { GetPrefix(s.children[b], K, k); }
        if Get(t.children[b], k).Some? { GetPrefix(t.children[b], K, k); }
      }
    }
  }

  lemma LeafIsNotBranch<A, B>(s: Trie<A>, t: Trie<B>, K: nat)
    requires WellFormed(s, K) && Canonical(t, K)
    requires SameLookups(s, t)
    ensures s.Leaf? ==> t.Leaf?
  {
    if s.Leaf? && t.Branch? {
      var k1, k2 := DivergingKeys(t, K);
      var _, _ := Get(s, k1), Get(s, k2);
      assert false;
    }
  }

  lemma PrefixNotLonger<A, B>(s: Trie<A>, t: Trie<B>, K: nat)
    requires Canonical(s, K) && Canonical(t, K)
    requires s.Branch? && t.Branch? && SameLookups(s, t)
    ensures |t.prefix| <= |s.prefix|
  {
    var k1, k2 := DivergingKeys(s, K);
    assert Get(t, k1).Some? && Get(t, k2).Some?;
    GetPrefix(t, K, k1);
    GetPrefix(t, K, k2);
  }

  lemma BranchSubset<A, B>(s: Trie<A>, t: Trie<B>, K: nat, b: Nibble)
    requires WellFormed(s, K) && WellFormed(t, K)
    requires s.Branch? && t.Branch? && s.prefix == t.prefix && SameLookups(s, t)
    requires b in s.children && Dense(s.children[b])
    ensures b in t.children
  {
    var k := SomeKey(s.children[b], K);
    assert Get(s, k).Some?;
    assert Get(t, k).Some?;
  }

  /** A canonical trie is the only one of its map: shape, prefixes, keys and values. */
  lemma {:induction false} CanonicalUnique<A, B>(s: Trie<A>, t: Trie<B>, K: nat)
    requires Canonical(s, K) && Canonical(t, K)
    requires SameLookups(s, t)
    ensures Same(s, t)
    decreases s, 1
  {
    LeafIsNotBranch(s, t, K);
    LeafIsNotBranch(t, s, K);
    if s.Leaf? {
      assert Get(s, s.key) == Get(t, s.key);
    } else {
      PrefixNotLonger(s, t, K);
      PrefixNotLonger(t, s, K);
      var k := SomeKey(s, K);
      assert Get(t, k).Some?;
      GetPrefix(t, K, k);
      PrefixesComparable(s.prefix, t.prefix, k);
      ChildrenUnique(s, t, K);
    }
  }

  lemma {:induction false} ChildrenUnique<A, B>(s: Trie<A>, t: Trie<B>, K: nat)
    requires s.Branch? && t.Branch? && s.prefix == t.prefix
    requires WellFormed(s, K) && WellFormed(t, K)
    requires forall b | b in s.children :: Dense(s.children[b])
    requires forall b | b in t.children :: Dense(t.children[b])
    requires SameLookups(s, t)
    ensures Same(s, t)
    decreases s, 0
  {
    forall b: Nibble ensures b in s.children <==> b in t.children {
      if b in s.children { BranchSubset(s, t, K, b); }
      if b in t.children { BranchSubset(t, s, K, b); }
    }
    forall b | b in s.children ensures Same(s.children[b], t.children[b]) {
      ChildLookups(s, t, K, b);
      CanonicalUnique(s.children[b], t.children[b], K);
    }
  }

  /** The same for tries whose root always has the empty prefix. */
  lemma RootUnique<A, B>(s: Trie<A>, t: Trie<B>, K: nat)
    requires RootCanonical(s, K) && RootCanonical(t, K)
    requires SameLookups(s, t)
    ensures Same(s, t)
  {
    ChildrenUnique(s, t, K);
  }

  lemma {:induction false} SameIsEqual(s: Trie<()>, t: Trie<()>)
    requires Same(s, t)
    ensures s == t
  {
    if s.Branch? {
      forall b | b in s.children ensures s.children[b] == t.children[b] {
        SameIsEqual(s.children[b], t.children[b]);
      }
      assert s.children == t.children;
    }
    assert s.ann == t.ann;
  }

  lemma {:induction false} SameGet<A, B>(s: Trie<A>, t: Trie<B>, k: Key)
    requires Same(s, t)
    ensures Get(s, k) == Get(t, k)
  {
    if s.Branch? && s.prefix < k && k[|s.prefix|] in s.children {
      SameGet(s.children[k[|s.prefix|]], t.children[k[|s.prefix|]], k);
    }
  }

  lemma {:induction false} SameAsItself<A>(t: Trie<A>)
    ensures Same(t, t)
    decreases t
  {
    if t.Branch? {
      forall b | b in t.children ensures Same(t.children[b], t.children[b]) {
        SameAsItself(t.children[b]);
      }
    }
  }

  lemma SamePrefix<A, B>(s: Trie<A>, t: Trie<B>)
    requires Same(s, t)
    ensures s.Prefix() == t.Prefix()
  {
  }

  lemma ContentsAreLookups<A>(t: Trie<A>, K: nat)
    requires WellFormed(t, K)
    ensures forall k: Key :: k in Contents(t) <==> Get(t, k).Some?
    ensures forall k: Key :: k in Contents(t) ==> Contents(t)[k] == Get(t, k).value
  {
    forall k: Key ensures k in Contents(t) <==> Get(t, k).Some? {
      GetFindsLeaves(t, K, k);
    }
  }

  lemma SameContents<A, B>(s: Trie<A>, t: Trie<B>, K: nat)
    requires WellFormed(s, K) && WellFormed(t, K)
    requires Contents(s) == Contents(t)
    ensures SameLookups(s, t)
  {
    ContentsAreLookups(s, K);
    ContentsAreLookups(t, K);
    forall k: Key ensures Get(s, k) == Get(t, k) {
      assert k in Contents(s) <==> k in Contents(t);
    }
  }
}
