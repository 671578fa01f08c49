/**
 The stored counts are the numbers of entries: sizes, marks and what a root hash
 commits to, as cardinalities of the map that a trie denotes.
 */
module BatchCounts {

  import opened Nibbles
  import opened Tries
  import opened BatchNodes
  import opened BatchHash
  import opened BatchItems

  ghost function KeysIn(s: seq<Item>): set<Key> {
    set i | 0 <= i < |s| :: s[i].key
  }

  /** The keys with a mark. */
  ghost function MarkedIn(s: seq<Item>): set<Key> {
    set i | 0 <= i < |s| && !s[i].entry.live :: s[i].key
  }

  /** The sum of the endowments. */
  function EndowIn(s: seq<Item>): int {
    if s == [] then 0 else s[0].entry.endow + EndowIn(s[1..])
  }

  lemma OneMore(s: seq<Item>)
    requires s != [] && Sorted(s)
    ensures var r, x := s[..|s| - 1], s[|s| - 1];
      && Sorted(r) && x.key !in KeysIn(r) && KeysIn(s) == KeysIn(r) + {x.key}
      && MarkedIn(s) == MarkedIn(r) + (if x.entry.live then {} else {x.key})
  {
    var r, x := s[..|s| - 1], s[|s| - 1];
    forall i | 0 <= i < |r| ensures r[i].key != x.key {
      assert Less(s[i].key, s[|s| - 1].key);
    }
  }

  lemma {:induction false} SumCounts(s: seq<Item>)
    requires Sorted(s)
    ensures Sum(s).size == |KeysIn(s)| && Sum(s).deleted == |MarkedIn(s)|
  {
    if s != [] {
      OneMore(s);
      SumCounts(s[..|s| - 1]);
    }
  }

  lemma {:induction false} SumEndows(s: seq<Item>)
    ensures Sum(s).endow == EndowIn(s)
  {
    if s != [] {
      SumEndows(s[1..]);
      SumConcat(s[..1], s[1..]);
      assert s == s[..1] + s[1..] && s[..1][..0] == [];
    }
  }

  /** The marked entries of a map. */
  ghost function MarkedContents<A>(t: Trie<A>): map<Key, Entry> {
    map k | k in Contents(t) && !Contents(t)[k].live :: Contents(t)[k]
  }

  lemma ItemKeys<A>(t: Trie<A>, K: nat, k: Key)
    requires WellFormed(t, K)
    ensures k in KeysIn(Items(t)) <==> k in Contents(t)
    ensures k in MarkedIn(Items(t)) <==> k in MarkedContents(t)
  {
    GetFindsLeaves(t, K, k);
    if k in Contents(t) {
      ItemsAreEntries(t, K, k, Contents(t)[k]);
    }
    forall i | 0 <= i < |Items(t)| && Items(t)[i].key == k ensures Get(t, k) == Some(Items(t)[i].entry) {
      ItemsAreEntries(t, K, k, Items(t)[i].entry);
    }
  }

  /**
   The metadata of a node counts: its size is the number of entries below it, its
   marks are the number of marked entries, and the difference, which the root hash
   commits to, is the number of unmarked ones.
   */
  lemma CountsAreExact<A>(t: Trie<A>, K: nat)
    requires WellFormed(t, K)
    ensures Total(t).size == |Contents(t)| && Total(t).deleted == |MarkedContents(t)|
    ensures LiveCount(t) == |LiveContents(t)|
    ensures Total(t).endow == EndowIn(Items(t))
  {
    ItemsSorted(t, K);
    TotalIsOfItems(t);
    SumCounts(Items(t));
    SumEndows(Items(t));
    forall k: Key
      ensures k in KeysIn(Items(t)) <==> k in Contents(t)
      ensures k in MarkedIn(Items(t)) <==> k in MarkedContents(t)
    {
      ItemKeys(t, K, k);
    }
    KeyCounts(t, KeysIn(Items(t)), MarkedIn(Items(t)));
  }

  lemma KeyCounts<A>(t: Trie<A>, all: set<Key>, marked: set<Key>)
    requires forall k: Key :: k in all <==> k in Contents(t)
    requires forall k: Key :: k in marked <==> k in MarkedContents(t)
    ensures |all| == |Contents(t)| && |marked| == |MarkedContents(t)| && |all| - |marked| == |LiveContents(t)|
  {
    assert all == Contents(t).Keys && marked == MarkedContents(t).Keys;
    assert LiveContents(t).Keys == all - marked && marked <= all;
    assert |all - marked| == |all| - |marked|;
    assert |Contents(t)| == |Contents(t).Keys| && |LiveContents(t)| == |LiveContents(t).Keys|;
    assert |MarkedContents(t)| == |MarkedContents(t).Keys|;
  }
}
