/**
 The batch trie as its users see it.

 A trie is its root node, or nothing when empty, and a cached root hash.  Every
 operation is specified by what it does to the map of entries; the root is
 canonical throughout, so the trie and its root hash depend on the map alone and
 not on the operations that led to it.
 */
module BatchTrie {

  import opened Nibbles
  import opened Tries
  import opened Digests
  import opened Hashing
  import opened BatchNodes
  import opened BatchMerge
  import opened BatchUpdates
  import opened BatchMarks
  import opened BatchHash
  import opened BatchItems
  import opened BatchCounts
  import opened BatchSplit
  import opened BatchOrders

  ghost predicate GoodRoot(H: Hasher, K: nat, root: Option<Node>) {
    root.Some? ==> Good(H, root.value, K)
  }

  ghost function MapOf<A>(root: Option<Trie<A>>): map<Key, Entry> {
    if root.Some? then Contents(root.value) else map[]
  }

  ghost function RootItems(root: Option<Node>): seq<Item> {
    if root.Some? then Items(root.value) else []
  }

  lemma MapIsLookups(H: Hasher, K: nat, root: Option<Node>, k: Key)
    requires GoodRoot(H, K, root)
    ensures k in MapOf(root) <==> GetAt(root, k).Some?
    ensures k in MapOf(root) ==> Some(MapOf(root)[k]) == GetAt(root, k)
  {
    if root.Some? { GetFindsLeaves(root.value, K, k); }
  }

  lemma LiveMap(H: Hasher, K: nat, root: Option<Node>)
    requires GoodRoot(H, K, root)
    ensures (if root.Some? then LiveContents(root.value) else map[]) ==
            map k | k in MapOf(root) && MapOf(root)[k].live :: MapOf(root)[k]
  {
  }

  // ----- history independence -----

  lemma NotEmpty(H: Hasher, K: nat, root: Option<Node>)
    requires GoodRoot(H, K, root)
    ensures root.None? <==> MapOf(root) == map[]
  {
    if root.Some? {
      var k := SomeKey(root.value, K);
      MapIsLookups(H, K, root, k);
    }
  }

  /**
   Whatever operations produced them, two tries that hold the same map are the
   same trie, with the same metadata in their roots and the same root hash.
   */
  lemma HistoryIndependence(H: Hasher, K: nat, s: Option<Node>, t: Option<Node>)
    requires GoodRoot(H, K, s) && GoodRoot(H, K, t) && MapOf(s) == MapOf(t)
    ensures s.Some? <==> t.Some?
    ensures s.Some? ==> Same(s.value, t.value) && s.value.ann.meta == t.value.ann.meta
    ensures RootHashOf(H, s) == RootHashOf(H, t)
  {
    NotEmpty(H, K, s);
    NotEmpty(H, K, t);
    LiveMap(H, K, s);
    LiveMap(H, K, t);
    if s.Some? {
      SameContents(s.value, t.value, K);
      CanonicalUnique(s.value, t.value, K);
      SameTotal(s.value, t.value);
    }
    RootHashIsOfMap(H, s, t, K);
  }

  // ----- split round trip -----

  /** `get_lowest_key`. */
  method LowestKey(ghost H: Hasher, ghost K: nat, t: Node) returns (k: Key)
    requires Good(H, t, K)
    ensures |Items(t)| > 0 && k == Items(t)[0].key && |k| == K
    decreases t
  {
    if t.Leaf? {
      k := t.key;
    } else {
      var b := 0;
      while b < 16 && b !in t.children
        invariant 0 <= b <= 16 && forall i: Nibble | i < b :: i !in t.children
      {
        b := b + 1;
      }
      ghost var b1, b2 := TwoBranches(t.children);
      GoodChild(H, t, K, b);
      k := LowestKey(H, K, t.children[b]);
      FirstItems(t, b);
    }
  }

  lemma FirstItems(t: Node, b: Nibble)
    requires t.Branch? && b in t.children
    requires (forall i: Nibble | i < b :: i !in t.children) && |Items(t.children[b])| > 0
    ensures |Items(t)| > 0 && Items(t)[0] == Items(t.children[b])[0]
  {
    var m, x := ItemMap(t), Items(t.children[b]);
    FlatNone(m, b);
    var z := Behind(m, b, 16);
    assert m[b] == x && Flat(m, 16) == [] + x + z;
  }

  lemma InHalves(s: seq<Item>, i: nat, x: Item)
    requires i <= |s|
    ensures x in s <==> x in s[..i] || x in s[i..]
  {
    assert s == s[..i] + s[i..];
  }

  lemma NotInBoth(s: seq<Item>, i: nat, x: Item, y: Item)
    requires Sorted(s) && i <= |s| && x in s[..i] && y in s[i..]
    ensures x.key != y.key
  {
    var a :| 0 <= a < |s[..i]| && s[..i][a] == x;
    var b :| 0 <= b < |s[i..]| && s[i..][b] == y;
    assert s[a] == x && s[i + b] == y;
    assert Less(s[a].key, s[i + b].key);
  }

  /** Lookups in the two halves of a list of entries. */
  lemma HalvesGet(K: nat, s: seq<Item>, i: nat, x: Node, y: Node, t: Node, k: Key, f: Merger)
    requires WellFormed(x, K) && WellFormed(y, K) && WellFormed(t, K) && i <= |s|
    requires Items(x) == s[i..] && Items(y) == s[..i] && Items(t) == s
    ensures Merged(f, Get(x, k), Get(y, k)) == Get(t, k)
  {
    ItemsSorted(t, K);
    forall e ensures Get(t, k) == Some(e) <==> Get(x, k) == Some(e) || Get(y, k) == Some(e) {
      ItemsAreEntries(x, K, k, e);
      ItemsAreEntries(y, K, k, e);
      ItemsAreEntries(t, K, k, e);
      InHalves(s, i, Item(k, e));
    }
    if Get(x, k).Some? && Get(y, k).Some? {
      var d, e := Get(x, k).value, Get(y, k).value;
      ItemsAreEntries(x, K, k, d);
      ItemsAreEntries(y, K, k, e);
      NotInBoth(s, i, Item(k, e), Item(k, d));
      assert false;
    }
    if Get(t, k).Some? {
      assert Get(x, k) == Some(Get(t, k).value) || Get(y, k) == Some(Get(t, k).value);
    }
  }

  /** Merging what came off back in restores the contents. */
  lemma RestoredIsSame(H: Hasher, K: nat, t: Node, x: Node, y: Node, r: Node, i: nat, f: Merger)
    requires Good(H, t, K) && Good(H, x, K) && Good(H, y, K) && Good(H, r, K) && Merges(f, x, y, r)
    requires i <= |Items(t)| && Items(x) == Items(t)[i..] && Items(y) == Items(t)[..i]
    ensures Same(r, t)
  {
    forall k: Key ensures Get(r, k) == Get(t, k) {
      HalvesGet(K, Items(t), i, x, y, t, k, f);
    }
    CanonicalUnique(r, t, K);
  }

  /** Same items, same trie. */
  lemma SameItemsSame(H: Hasher, K: nat, x: Node, t: Node)
    requires Good(H, x, K) && Good(H, t, K) && Items(x) == Items(t)
    ensures Same(x, t)
  {
    forall k: Key ensures Get(x, k) == Get(t, k) {
      if Get(x, k).Some? {
        ItemsAreEntries(x, K, k, Get(x, k).value);
        ItemsAreEntries(t, K, k, Get(x, k).value);
      }
      if Get(t, k).Some? {
        ItemsAreEntries(x, K, k, Get(t, k).value);
        ItemsAreEntries(t, K, k, Get(t, k).value);
      }
    }
    CanonicalUnique(x, t, K);
  }

  /**
   Split round trip: splitting, cleaning what came off along the smallest key
   that stayed, and merging it back gives the original trie.
   */
  method SplitAndRestore(ghost H: Hasher, f: Merger, K: nat, t: Node, limit: int) returns (r: Node)
    requires Good(H, t, K) && 0 < limit < Total(t).endow
    ensures Good(H, r, K) && Same(r, t)
  {
    var off, rest;
    ghost var i;
    off, rest, i := EndowSplit(H, K, t, limit);
    ContractIsGood(H, rest, K);
    ContractItems(rest);
    r := Contract(rest);
    if off.None? {
      assert Items(t)[i..] == Items(t);
      SameItemsSame(H, K, r, t);
    } else {
      var path := LowestKey(H, K, r);
      var cleaned := CleanSingleChild(H, K, off.value, path);
      ContractIsGood(H, cleaned, K);
      ContractItems(cleaned);
      ghost var x := r;
      var delta;
      r, delta := MergeIn(H, f, K, r, Contract(cleaned));
      RestoredIsSame(H, K, t, x, Contract(cleaned), r, i, f);
    }
  }

  // ----- the trie object -----

  ghost function MergedMap(f: Merger, a: map<Key, Entry>, b: map<Key, Entry>): map<Key, Entry> {
    map k | k in a.Keys + b.Keys :: if k in a && k in b then f(a[k], b[k]) else if k in a then a[k] else b[k]
  }

  lemma MergeMaps(H: Hasher, K: nat, f: Merger, x: Option<Node>, y: Option<Node>, z: Option<Node>)
    requires GoodRoot(H, K, x) && GoodRoot(H, K, y) && GoodRoot(H, K, z) && SlotGets(f, x, y, z)
    ensures MapOf(z) == MergedMap(f, MapOf(x), MapOf(y))
  {
    forall k: Key
      ensures k in MapOf(z) <==> k in MergedMap(f, MapOf(x), MapOf(y))
      ensures k in MapOf(z) ==> MapOf(z)[k] == MergedMap(f, MapOf(x), MapOf(y))[k]
    {
      MapIsLookups(H, K, x, k);
      MapIsLookups(H, K, y, k);
      MapIsLookups(H, K, z, k);
      assert GetAt(z, k) == Merged(f, GetAt(x, k), GetAt(y, k));
    }
  }

  /** The map differs at one key only. */
  lemma OneKeyMap(H: Hasher, K: nat, x: Option<Node>, z: Option<Node>, key: Key, e: Option<Entry>)
    requires GoodRoot(H, K, x) && GoodRoot(H, K, z)
    requires forall k: Key :: GetAt(z, k) == if k == key then e else GetAt(x, k)
    ensures MapOf(z) == if e.Some? then MapOf(x)[key := e.value] else MapOf(x) - {key}
  {
    forall k: Key
      ensures k in MapOf(z) <==> if k == key then e.Some? else k in MapOf(x)
      ensures k in MapOf(z) ==> MapOf(z)[k] == if k == key then e.value else MapOf(x)[k]
    {
      OneKeyLookup(H, K, x, z, k, if k == key then e else GetAt(x, k));
    }
  }

  lemma OneKeyLookup(H: Hasher, K: nat, x: Option<Node>, z: Option<Node>, k: Key, e: Option<Entry>)
    requires GoodRoot(H, K, x) && GoodRoot(H, K, z) && GetAt(z, k) == e
    ensures k in MapOf(z) <==> e.Some?
    ensures k in MapOf(z) ==> MapOf(z)[k] == e.value
    ensures k in MapOf(x) <==> GetAt(x, k).Some?
    ensures k in MapOf(x) ==> MapOf(x)[k] == GetAt(x, k).value
  {
    MapIsLookups(H, K, x, k);
    MapIsLookups(H, K, z, k);
  }

  lemma RootSwept(H: Hasher, K: nat, t: Node, gone: bool, r: Node, delta: Meta)
    requires Swept(H, K, t, gone, r, delta)
    ensures var z := if gone then None else Some(Contract(r)); GoodRoot(H, K, z) && Sweeps(Some(t), z)
  {
    if !gone { ContractIsGood(H, r, K); }
  }

  lemma SweptMap(H: Hasher, K: nat, x: Option<Node>, z: Option<Node>)
    requires GoodRoot(H, K, x) && GoodRoot(H, K, z) && Sweeps(x, z)
    ensures MapOf(z) == map k | k in MapOf(x) && MapOf(x)[k].live :: MapOf(x)[k]
    ensures RootHashOf(H, z) == RootHashOf(H, x)
  {
    forall k: Key
      ensures k in MapOf(z) <==> k in MapOf(x) && MapOf(x)[k].live
      ensures k in MapOf(z) ==> MapOf(z)[k] == MapOf(x)[k]
    {
      MapIsLookups(H, K, x, k);
      MapIsLookups(H, K, z, k);
      assert GetAt(z, k) == LiveOnly(GetAt(x, k));
    }
    LiveMap(H, K, x);
    LiveMap(H, K, z);
    RootHashIsOfMap(H, z, x, K);
  }

  /** A split of the root, contracted if one child is left. */
  method SplitRoot(ghost H: Hasher, K: nat, t: Node, limit: int)
    returns (off: Option<Node>, root: Option<Node>, ghost i: nat)
    requires Good(H, t, K) && 0 < limit < Total(t).endow
    ensures GoodRoot(H, K, root) && Cut(Items(t), i, limit)
    ensures ItemsAt(off) == Items(t)[..i] && RootItems(root) == Items(t)[i..]
    ensures Positive(Items(t)) ==> Longest(Items(t), i, limit)
    ensures off.Some? ==> Loose(H, K, off.value, Items(t)[i].key)
  {
    var rest;
    off, rest, i := BatchSplit.EndowSplit(H, K, t, limit);
    if Positive(Items(t)) { LongestCut(Items(t), i, limit); }
    ContractIsGood(H, rest, K);
    ContractItems(rest);
    root := Some(Contract(rest));
  }

  function EntryAt(m: map<Key, Entry>, k: Key): Option<Entry> {
    if k in m then Some(m[k]) else None
  }

  lemma EndSlices(s: seq<Item>)
    ensures s[..0] == [] && s[0..] == s && s[..|s|] == s && s[|s|..] == []
  {
  }

  class MerkleTrie {
    const H: Hasher
    const K: nat
    var root: Option<Node>
    var hash: Option<Hash>
    // Another trie has merged these nodes in.
    var spent: bool

    /** The root is canonical with exact metadata and coherent caches, and a cached root hash is right. */
    ghost predicate Valid()
      reads this
    {
      && K > 0 && !spent && GoodRoot(H, K, root)
      && (hash.Some? ==> hash.value == RootHashOf(H, root))
    }

    ghost function Map(): map<Key, Entry>
      reads this
    {
      MapOf(root)
    }

    constructor (H: Hasher, K: nat)
      requires K > 0
      ensures Valid() && Map() == map[] && this.K == K && this.H == H
    {
      this.H, this.K, root, hash, spent := H, K, None, None, false;
    }

    /**
     The value insert function `f` takes the old value first.  A new key gets the value as
     it is, except in an empty trie: there `f` is applied to an initial one.
     */
    method Insert(f: Merger, initial: Key -> Entry, key: Key, e: Entry)
      requires Valid() && |key| == K
      modifies this
      ensures Valid()
      ensures key in old(Map()) ==> Map() == old(Map())[key := f(old(Map())[key], e).(live := true)]
      ensures key !in old(Map()) && old(Map()) != map[] ==> Map() == old(Map())[key := e.(live := true)]
      ensures old(Map()) == map[] ==> Map() == map[key := f(initial(key), e).(live := true)]
      ensures key !in old(Map()) && f(initial(key), e) == e ==> Map() == old(Map())[key := e.(live := true)]
    {
      MapIsLookups(H, K, root, key);
      NotEmpty(H, K, root);
      ghost var was := root;
      hash := None;
      if root.None? {
        root := Some(NewLeaf(key, f(initial(key), e).(live := true)));
      } else {
        var r, _ := BatchUpdates.Insert(H, f, K, root.value, key, e);
        root := Some(r);
      }
      OneKeyMap(H, K, was, root, key, GetAt(root, key));
    }

    /** The other trie is empty afterwards, or spent if its nodes went into nodes of this one. */
    method MergeIn(f: Merger, other: MerkleTrie)
      requires Valid() && other.Valid() && other != this && other.H == H && other.K == K
      modifies this, other
      ensures Valid() && Map() == MergedMap(f, old(Map()), old(other.Map()))
      ensures other.spent <==> old(root).Some? && old(other.root).Some?
      ensures !other.spent ==> other.Valid() && other.Map() == map[]
    {
      ghost var x, y := root, other.root;
      hash := None;
      if root.None? {
        root, other.root, other.hash := other.root, None, None;
      } else if other.root.Some? {
        var r, _ := BatchMerge.MergeIn(H, f, K, root.value, other.root.value);
        root, other.root, other.spent := Some(r), None, true;
      }
      assert SlotGets(f, x, y, root);
      MergeMaps(H, K, f, x, y, root);
    }

    method PerformDeletion(key: Key) returns (removed: Option<Entry>)
      requires Valid() && |key| == K
      modifies this
      ensures Valid() && Map() == old(Map()) - {key}
      ensures removed == EntryAt(old(Map()), key)
    {
      ghost var was := root;
      MapIsLookups(H, K, root, key);
      removed := None;
      if root.Some? {
        var gone, r, delta;
        gone, removed, r, delta := BatchUpdates.PerformDeletion(H, K, root.value, key);
        if removed.Some? { hash := None; }
        if gone {
          root := None;
          LeafDrops(was.value, key);
        } else {
          ContractIsGood(H, r, K);
          root := Some(Contract(r));
          if removed.None? { ContractOfGood(H, was.value, K); }
        }
      }
      OneKeyMap(H, K, was, root, key, None);
    }

    method MarkForDeletion(key: Key) returns (value: Option<Entry>)
      requires Valid() && |key| == K
      modifies this
      ensures Valid()
      ensures value == LiveOnly(EntryAt(old(Map()), key))
      ensures Map() == if key in old(Map()) then old(Map())[key := old(Map())[key].(live := false)]
        else old(Map()) - {key}
    {
      ghost var was := root;
      MapIsLookups(H, K, root, key);
      value := None;
      if root.Some? {
        var r, delta;
        value, r, delta := BatchMarks.MarkForDeletion(H, K, root.value, key);
        root := Some(r);
        if value.Some? {
          hash := None;
        } else {
          MarkedAgain(H, K, was.value, r, key);
        }
      }
      OneKeyMap(H, K, was, root, key, Remarked(GetAt(was, key), false));
    }

    method UnmarkForDeletion(key: Key) returns (value: Option<Entry>)
      requires Valid() && |key| == K
      modifies this
      ensures Valid()
      ensures value == (if key in old(Map()) && !old(Map())[key].live then Some(old(Map())[key]) else None)
      ensures Map() == if key in old(Map()) then old(Map())[key := old(Map())[key].(live := true)]
        else old(Map()) - {key}
    {
      ghost var was := root;
      MapIsLookups(H, K, root, key);
      value := None;
      if root.Some? {
        var r, delta;
        value, r, delta := BatchMarks.UnmarkForDeletion(H, K, root.value, key);
        root := Some(r);
        if value.Some? { hash := None; }
      }
      OneKeyMap(H, K, was, root, key, Remarked(GetAt(was, key), true));
    }

    /** Removes the marked entries; the root hash does not change. */
    method PerformMarkedDeletions()
      requires Valid()
      modifies this
      ensures Valid()
      ensures Map() == map k | k in old(Map()) && old(Map())[k].live :: old(Map())[k]
      ensures RootHashOf(H, root) == RootHashOf(H, old(root))
    {
      ghost var was := root;
      if root.Some? {
        var gone, r, delta := BatchMarks.PerformMarkedDeletions(H, K, root.value);
        if root.value.ann.meta.deleted != 0 { hash := None; }
        RootSwept(H, K, root.value, gone, r, delta);
        root := if gone then None else Some(Contract(r));
      }
      SweptMap(H, K, was, root);
    }

    /**
     Takes the cheapest entries off, up to `limit` of endowment, or all of them if
     that is their total.  Fails when there is not that much, or on a negative limit
     for a branch.
     */
    method EndowSplit(limit: int) returns (ok: bool, off: Option<Node>, ghost i: nat)
      requires Valid()
      modifies this
      ensures Valid()
      ensures var s := old(RootItems(root));
        && (ok <==> limit == 0 || limit == Endow(s) || (limit < Endow(s) && (limit > 0 || |s| <= 1)))
        && i <= |s| && ItemsAt(off) == s[..i] && RootItems(root) == s[i..]
        && (if !ok || limit == 0 then i == 0
            else if limit == Endow(s) then i == |s|
            else if limit < 0 then i == 0
            else Cut(s, i, limit))
        && (ok && 0 <= limit && Positive(s) ==> Longest(s, i, limit))
        && (off.Some? && i < |s| ==> Loose(H, K, off.value, s[i].key))
        && (i == |s| && off.Some? ==> off == old(root) && Good(H, off.value, K))
    {
      ghost var s := RootItems(root);
      ok, off, i := true, None, 0;
      RootEndow(H, K, root);
      EndSlices(s);
      if limit == 0 {
        if Positive(s) { LongestEnds(s); }
        return;
      }
      hash := None;
      var total := if root.Some? then root.value.ann.meta.endow else 0;
      if limit == total {
        off, root, i := root, None, |s|;
        if Positive(s) { LongestEnds(s); }
      } else if limit > total || (limit < 0 && root.Some? && root.value.Branch?) {
        ok := false;
      } else if limit > 0 {
        off, root, i := SplitRoot(H, K, root.value, limit);
      }
    }

    /** `endow_lt_key`. */
    method EndowLtKey(k: Key) returns (v: int)
      requires Valid() && |k| == K
      ensures v == LtEndow(RootItems(root), k)
    {
      v := 0;
      if root.Some? { v := BatchOrders.EndowLtKey(K, root.value, k); }
    }

    /** Splitting at the endowment below a key: exactly the keys below it come off. */
    method SplitBelow(k: Key) returns (ok: bool, off: Option<Node>, ghost i: nat)
      requires Valid() && |k| == K && Positive(RootItems(root))
      modifies this
      ensures Valid() && ok
      ensures var s := old(RootItems(root));
        && i <= |s| && ItemsAt(off) == s[..i] && RootItems(root) == s[i..]
        && forall j | 0 <= j < |s| :: Less(s[j].key, k) <==> j < i
    {
      ghost var s := RootItems(root);
      RootSorted(H, K, root);
      LtFits(s, k);
      var limit := EndowLtKey(k);
      ok, off, i := EndowSplit(limit);
      BatchOrders.SplitAtKey(s, k, i);
    }

    /** `size`: the number of entries, marked or not, cut to 32 bits. */
    method Size() returns (n: nat)
      requires Valid()
      ensures n == |Map()| % 0x1_0000_0000
    {
      n := 0;
      if root.Some? {
        CountsAreExact(root.value, K);
        n := root.value.ann.meta.size % 0x1_0000_0000;
      }
    }

    /** `hash`: the cached root hash, or a fresh one. */
    method RootHash() returns (h: Hash)
      requires Valid()
      modifies this
      ensures Valid() && Map() == old(Map())
      ensures h == RootHashOf(H, root) == RootHashOf(H, old(root))
    {
      if hash.Some? {
        h := hash.value;
      } else {
        ghost var was := root;
        root, h := BatchHash.RootHash(H, K, root);
        SameMaps(H, K, was, root);
        HistoryIndependence(H, K, was, root);
        hash := Some(h);
      }
    }
  }

  lemma RootEndow(H: Hasher, K: nat, root: Option<Node>)
    requires GoodRoot(H, K, root)
    ensures Endow(RootItems(root)) == if root.Some? then root.value.ann.meta.endow else 0
    ensures root.Some? && root.value.Branch? <==> |RootItems(root)| > 1
  {
    if root.Some? {
      TotalIsOfItems(root.value);
      ManyItems(root.value, K);
    }
  }

  lemma RootSorted(H: Hasher, K: nat, root: Option<Node>)
    requires GoodRoot(H, K, root)
    ensures Sorted(RootItems(root))
  {
    if root.Some? { ItemsSorted(root.value, K); }
  }

  /** The endowment below a key is between zero and the total. */
  lemma LtFits(s: seq<Item>, k: Key)
    requires Sorted(s) && Positive(s)
    ensures 0 <= LtEndow(s, k) <= Endow(s)
  {
    var c := LtIsFront(s, k);
    EndowGrows(s, c);
  }

  lemma SameMaps(H: Hasher, K: nat, x: Option<Node>, z: Option<Node>)
    requires GoodRoot(H, K, x) && GoodRoot(H, K, z) && (x.Some? <==> z.Some?) && (x.Some? ==> Same(x.value, z.value))
    ensures MapOf(z) == MapOf(x)
  {
    forall k: Key ensures k in MapOf(z) <==> k in MapOf(x)
      ensures k in MapOf(z) ==> MapOf(z)[k] == MapOf(x)[k]
    {
      MapIsLookups(H, K, x, k);
      MapIsLookups(H, K, z, k);
      if x.Some? { SameGet(x.value, z.value, k); }
    }
  }

  lemma LeafDrops(t: Node, key: Key)
    requires t.Leaf? && t.key == key
    ensures forall k: Key :: GetAt(None, k) == if k == key then None else GetAt(Some(t), k)
  {
  }

  lemma ContractOfGood(H: Hasher, t: Node, K: nat)
    requires Good(H, t, K)
    ensures Contract(t) == t
  {
  }

  /** Marking an absent or marked key changes no lookup. */
  lemma MarkedAgain(H: Hasher, K: nat, t: Node, r: Node, key: Key)
    requires Good(H, t, K) && Good(H, r, K) && Marks(t, r, key, false) && LiveOnly(Get(t, key)) == None
    ensures RootHashOf(H, Some(r)) == RootHashOf(H, Some(t))
  {
    forall k: Key ensures Get(r, k) == Get(t, k) {
    }
    CanonicalUnique(r, t, K);
    SameMaps(H, K, Some(r), Some(t));
    HistoryIndependence(H, K, Some(r), Some(t));
  }
}
