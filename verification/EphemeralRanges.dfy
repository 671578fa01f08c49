/**
 The ephemeral trie at rest as a value: the trie that the work-splitting ranges, the
 hash and the proofs are about, with each node annotated by the size stored in the
 slot that holds it.
 */
module EphemeralRanges {

  import opened Nibbles
  import opened Tries
  import opened SearchTrees
  import opened EphemeralTrie
  import opened EphemeralSafety
  import opened EphemeralRuns
  import opened EphemeralShape
  import opened BatchItems
  import Ranges

  ghost function SizedTrie(s: State, n: Id, size: nat): Trie<nat>
    requires TreeOk(s) && n in s.cells
    decreases s.K - |s.cells[n].prefix|
  {
    assert Local(s.cells, s.cells.Keys, s.K, n);
    if |s.cells[n].prefix| == s.K then Leaf(s.cells[n].prefix, s.cells[n].entry.value, size)
    else
      assert forall b | b in s.cells[n].slots :: Local(s.cells, s.cells.Keys, s.K, s.cells[n].slots[b]);
      Branch(s.cells[n].prefix,
             map b | b in s.cells[n].slots :: SizedTrie(s, s.cells[n].slots[b], SizeAt(s, n, b)),
             size)
  }

  /** The leaves at or below a node. */
  ghost function LeavesAt(s: State, n: Id): set<Id>
    requires n in s.cells
  {
    set x | x in s.cells && |s.cells[x].prefix| == s.K && s.cells[n].prefix <= s.cells[x].prefix
  }

  /** Those in slots below `b`. */
  ghost function LeavesTo(s: State, n: Id, b: int): set<Id>
    requires n in s.cells
  {
    set x | x in LeavesAt(s, n) && |s.cells[n].prefix| < s.K && s.cells[x].prefix[|s.cells[n].prefix|] < b
  }

  lemma SlotLeaves(s: State, n: Id, b: Nibble)
    requires TreeOk(s) && n in s.cells && b in s.cells[n].slots
    ensures s.cells[n].slots[b] in s.cells && Below(s, n, b) == LeavesAt(s, s.cells[n].slots[b])
  {
    var c := s.cells[n].slots[b];
    assert Local(s.cells, s.cells.Keys, s.K, n);
    forall x | x in s.cells ensures x in Below(s, n, b) <==> x in LeavesAt(s, c) {
      assert Leads(s.cells, n, x);
    }
  }

  lemma NextSlotLeaves(s: State, n: Id, b: Nibble)
    requires TreeOk(s) && n in s.cells && |s.cells[n].prefix| < s.K
    ensures |LeavesTo(s, n, b + 1)| == |LeavesTo(s, n, b)| + |Below(s, n, b)|
  {
    assert LeavesTo(s, n, b + 1) == LeavesTo(s, n, b) + Below(s, n, b);
    assert LeavesTo(s, n, b) !! Below(s, n, b);
  }

  /** Every slot of the node holds its exact number of leaves, as many as its trie has items. */
  ghost predicate SlotsExact(s: State, n: Id, m: map<Nibble, seq<Item>>) {
    && n in s.cells && m.Keys == s.cells[n].slots.Keys
    && forall b | b in m :: |m[b]| == |Below(s, n, b)|
  }

  lemma {:induction false} FlatCounts(s: State, n: Id, m: map<Nibble, seq<Item>>, b: nat)
    requires TreeOk(s) && b <= 16 && SlotsExact(s, n, m) && |s.cells[n].prefix| < s.K
    ensures |Flat(m, b)| == |LeavesTo(s, n, b)|
  {
    if b == 0 {
      assert LeavesTo(s, n, 0) == {};
    } else {
      FlatCounts(s, n, m, b - 1);
      NextSlotLeaves(s, n, b - 1);
      if b - 1 !in m { NothingBelow(s, n, b - 1); }
    }
  }

  /** The trie below a node has its shape, its leaves and the right sizes. */
  ghost predicate Exactly(s: State, n: Id, t: Trie<nat>) {
    && n in s.cells && t.Prefix() == s.cells[n].prefix && WellFormed(t, s.K)
    && |Items(t)| == |LeavesAt(s, n)|
    && (n != ROOT ==> Dense(t))
    && Ranges.Sized(t)
  }

  lemma ExactLeaf(s: State, n: Id, t: Trie<nat>)
    requires TreeOk(s) && n in s.cells && |s.cells[n].prefix| == s.K
    requires t.Leaf? && t.key == s.cells[n].prefix && t.ann == |LeavesAt(s, n)|
    ensures Exactly(s, n, t)
  {
    forall x ensures x in LeavesAt(s, n) <==> x == n {
      if x in s.cells { assert Leads(s.cells, n, x); }
    }
    assert LeavesAt(s, n) == {n};
  }

  lemma ExactBranch(s: State, n: Id, t: Trie<nat>)
    requires TreeOk(s) && n in s.cells && |s.cells[n].prefix| < s.K
    requires t.Branch? && t.prefix == s.cells[n].prefix && t.ann == |LeavesAt(s, n)|
    requires t.children.Keys == s.cells[n].slots.Keys && (n != ROOT ==> |s.cells[n].slots| >= 2)
    requires forall b | b in t.children :: s.cells[n].slots[b] != ROOT && Exactly(s, s.cells[n].slots[b], t.children[b])
    ensures Exactly(s, n, t)
  {
    assert Local(s.cells, s.cells.Keys, s.K, n);
    BranchCounts(s, n, t);
    assert |t.children| == |t.children.Keys| == |s.cells[n].slots.Keys| == |s.cells[n].slots|;
  }

  lemma BranchCounts(s: State, n: Id, t: Trie<nat>)
    requires TreeOk(s) && n in s.cells && |s.cells[n].prefix| < s.K
    requires t.Branch? && t.children.Keys == s.cells[n].slots.Keys
    requires forall b | b in t.children ::
      s.cells[n].slots[b] in s.cells && |Items(t.children[b])| == |LeavesAt(s, s.cells[n].slots[b])|
    ensures |Items(t)| == |LeavesAt(s, n)|
  {
    forall b | b in t.children ensures |ItemMap(t)[b]| == |Below(s, n, b)| {
      SlotLeaves(s, n, b);
    }
    FlatCounts(s, n, ItemMap(t), 16);
    assert LeavesTo(s, n, 16) == LeavesAt(s, n);
  }

  lemma ChildFacts(s: State, n: Id, b: Nibble)
    requires Inv(s) && Quiet(s) && n in s.cells && b in s.cells[n].slots
    ensures var c := s.cells[n].slots[b];
      && c != ROOT && c in s.cells && |s.cells[n].prefix| < |s.cells[c].prefix| <= s.K
      && SizeAt(s, n, b) == |LeavesAt(s, c)|
  {
    QuietSlot(s, n, b);
    SlotLeaves(s, n, b);
    assert Local(s.cells, s.cells.Keys, s.K, n);
    assert Local(s.cells, s.cells.Keys, s.K, s.cells[n].slots[b]);
  }

  lemma {:induction false} SizedTrieExact(s: State, n: Id, size: nat)
    requires Inv(s) && Quiet(s) && n in s.cells && size == |LeavesAt(s, n)|
    ensures Exactly(s, n, SizedTrie(s, n, size))
    decreases s.K - |s.cells[n].prefix|
  {
    var t := SizedTrie(s, n, size);
    NodeFacts(s, n);
    if |s.cells[n].prefix| == s.K {
      ExactLeaf(s, n, t);
    } else {
      forall b | b in s.cells[n].slots
        ensures s.cells[n].slots[b] != ROOT && s.cells[n].slots[b] in s.cells
        ensures Exactly(s, s.cells[n].slots[b], SizedTrie(s, s.cells[n].slots[b], SizeAt(s, n, b)))
      {
        ChildFacts(s, n, b);
        SizedTrieExact(s, s.cells[n].slots[b], SizeAt(s, n, b));
      }
      ExactBranch(s, n, t);
    }
  }

  lemma NodeFacts(s: State, n: Id)
    requires Inv(s) && Quiet(s) && n in s.cells
    ensures |s.cells[n].prefix| <= s.K
    ensures n != ROOT && |s.cells[n].prefix| < s.K ==> |s.cells[n].slots| >= 2
  {
    assert Local(s.cells, s.cells.Keys, s.K, n);
    assert DenseOk(s, n);
  }

  /**
   After every run that came to rest, the trie as a value has the canonical shape and
   the exact sizes that the ranges rely on.
   */
  lemma RestIsSized(s: State, K: nat, run: seq<Step>, u: State)
    requires Init(s, K) && Executes(s, run, u) && Quiet(u)
    ensures TreeOk(u) && ROOT in u.cells
    ensures var t := SizedTrie(u, ROOT, |Leaves(u)|);
      RootCanonical(t, u.K) && Ranges.Sized(t) && |Items(t)| == |Winners(u)|
  {
    InitInv(s, K);
    RunInv(s, run, u);
    assert LeavesAt(u, ROOT) == Leaves(u);
    SizedTrieExact(u, ROOT, |Leaves(u)|);
    RootShape(u);
    LeavesArePublished(u);
    WinnersArePublished(u);
  }

  lemma RootShape(s: State)
    requires Inv(s) && Quiet(s)
    ensures RootCanonical(SizedTrie(s, ROOT, |Leaves(s)|), s.K)
  {
    var t := SizedTrie(s, ROOT, |Leaves(s)|);
    assert LeavesAt(s, ROOT) == Leaves(s);
    SizedTrieExact(s, ROOT, |Leaves(s)|);
    assert Local(s.cells, s.cells.Keys, s.K, ROOT);
    forall b | b in t.children ensures Dense(t.children[b]) {
      ChildFacts(s, ROOT, b);
      SizedTrieExact(s, s.cells[ROOT].slots[b], SizeAt(s, ROOT, b));
    }
  }
}
