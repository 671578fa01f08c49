/**
 Tries laid out in an arena of cells.

 The concurrent variants are modelled over an arena (handle or address to cell)
 in which several trees overlap.  A tree is a set `T` of cells; `SearchTree`
 says, pair by pair and without mentioning paths, that `T` is the trie hanging
 from `root`: descending from any cell towards the prefix of another never
 leaves the cells that prefix it.  Reachability, unique parents and the value
 trie all follow from it, and every CAS of the library keeps it.
 */
module SearchTrees {

  import opened Nibbles
  import opened Tries

  type Id = nat

  /** A leaf has a prefix of full length, an entry and no slots in use. */
  datatype Cell = Cell(prefix: Key, entry: Option<Entry>, slots: map<Nibble, Id>)

  type Arena = map<Id, Cell>

  ghost predicate Shape(c: Cell, K: nat) {
    && |c.prefix| <= K
    && (|c.prefix| == K ==> c.entry.Some? && c.slots == map[])
  }

  /** A cell of the tree is well shaped and its slots stay inside the tree. */
  ghost predicate Local(c: Arena, T: set<Id>, K: nat, n: Id) {
    && n in c
    && Shape(c[n], K)
    && forall b | b in c[n].slots ::
         && c[n].slots[b] in T
         && c[n].slots[b] in c
         && Under(c[n].prefix, b, c[c[n].slots[b]].prefix)
  }

  /**
   Prefixes are distinct, and if `m` lies strictly above `q` then the slot of
   `m` towards `q` holds a cell that is not below `q`.
   */
  ghost predicate Leads(c: Arena, m: Id, q: Id) {
    && m in c && q in c
    && (c[m].prefix == c[q].prefix ==> m == q)
    && (c[m].prefix < c[q].prefix ==>
          && c[q].prefix[|c[m].prefix|] in c[m].slots
          && c[m].slots[c[q].prefix[|c[m].prefix|]] in c
          && c[c[m].slots[c[q].prefix[|c[m].prefix|]]].prefix <= c[q].prefix)
  }

  ghost predicate SearchTree(c: Arena, T: set<Id>, root: Id, K: nat) {
    && K > 0
    && root in T && root in c && c[root].prefix == []
    && (forall n {:trigger Local(c, T, K, n)} | n in T :: Local(c, T, K, n))
    && (forall m, q {:trigger Leads(c, m, q)} | m in T && q in T :: Leads(c, m, q))
  }

  /** Only the prefixes, slots and leaf flags of the tree's own cells matter. */
  lemma Frame(c: Arena, d: Arena, T: set<Id>, root: Id, K: nat)
    requires SearchTree(c, T, root, K)
    requires T <= c.Keys && T <= d.Keys
    requires forall n | n in T :: c[n].prefix == d[n].prefix && c[n].slots == d[n].slots
    requires forall n | n in T :: c[n].entry.Some? == d[n].entry.Some?
    ensures SearchTree(d, T, root, K)
  {
    forall n | n in T ensures Local(d, T, K, n) {
      assert Local(c, T, K, n);
    }
    forall m, q | m in T && q in T ensures Leads(d, m, q) {
      assert Leads(c, m, q) && Local(c, T, K, m);
    }
  }

  /** Each cell hangs in one slot only. */
  lemma UniqueParent(c: Arena, T: set<Id>, root: Id, K: nat, m: Id, b: Nibble, q: Id, d: Nibble)
    requires SearchTree(c, T, root, K) && m in T && q in T && m in c && q in c
    requires b in c[m].slots && d in c[q].slots && c[m].slots[b] == c[q].slots[d]
    ensures m == q && b == d
  {
    var x := c[m].slots[b];
    assert Local(c, T, K, m) && Local(c, T, K, q);
    assert Leads(c, m, q) && Leads(c, q, m);
    var p, r := c[m].prefix, c[q].prefix;
    assert |p| == |r| by {
      if |p| < |r| { PrefixesComparable(p, r, c[x].prefix); }
      if |r| < |p| { PrefixesComparable(r, p, c[x].prefix); }
    }
    assert p == r;
  }

  /** Every cell but the root hangs somewhere below any cell that prefixes it. */
  lemma {:induction false} Parent(c: Arena, T: set<Id>, root: Id, K: nat, m: Id, x: Id) returns (n: Id, b: Nibble)
    requires SearchTree(c, T, root, K) && m in T && x in T && m in c && x in c
    requires c[m].prefix < c[x].prefix
    ensures n in T && n in c && b in c[n].slots && c[n].slots[b] == x
    ensures c[m].prefix <= c[n].prefix < c[x].prefix
    decreases |c[x].prefix| - |c[m].prefix|
  {
    assert Leads(c, m, x) && Local(c, T, K, m);
    b := c[x].prefix[|c[m].prefix|];
    var y := c[m].slots[b];
    if c[y].prefix == c[x].prefix {
      assert Leads(c, y, x);
      n := m;
    } else {
      n, b := Parent(c, T, root, K, y, x);
    }
  }

  predicate HasChild(c: Arena, m: Id, x: Id) {
    m in c && x in c[m].slots.Values
  }

  /** `x` is found from `r` by following `n` slots. */
  ghost predicate ReachIn(c: Arena, r: Id, x: Id, n: nat)
    decreases n
  {
    if n == 0 then r == x
    else exists m :: ReachIn(c, r, m, n - 1) && HasChild(c, m, x)
  }

  ghost predicate Reachable(c: Arena, r: Id, x: Id) {
    exists n: nat :: ReachIn(c, r, x, n)
  }

  lemma {:induction false} ReachedInTree(c: Arena, T: set<Id>, root: Id, K: nat, x: Id, n: nat)
    requires SearchTree(c, T, root, K) && ReachIn(c, root, x, n)
    ensures x in T
    decreases n
  {
    if n > 0 {
      var m :| ReachIn(c, root, m, n - 1) && HasChild(c, m, x);
      ReachedInTree(c, T, root, K, m, n - 1);
      assert Local(c, T, K, m);
    }
  }

  lemma {:induction false} TreeIsReached(c: Arena, T: set<Id>, root: Id, K: nat, x: Id) returns (n: nat)
    requires SearchTree(c, T, root, K) && x in T && x in c
    ensures ReachIn(c, root, x, n)
    decreases |c[x].prefix|
  {
    if c[x].prefix == [] {
      assert Leads(c, x, root);
      n := 0;
    } else {
      var m, b := Parent(c, T, root, K, root, x);
      assert HasChild(c, m, x);
      n := TreeIsReached(c, T, root, K, m);
      n := n + 1;
    }
  }

  /** A search tree is exactly what its root reaches. */
  lemma TreeIsReachable(c: Arena, T: set<Id>, root: Id, K: nat, x: Id)
    requires SearchTree(c, T, root, K)
    ensures x in T <==> Reachable(c, root, x)
  {
    if x in T {
      assert Local(c, T, K, x);
      var n := TreeIsReached(c, T, root, K, x);
    }
    if Reachable(c, root, x) {
      var n: nat :| ReachIn(c, root, x, n);
      ReachedInTree(c, T, root, K, x, n);
    }
  }

  // ----- the four ways a compare-and-swap changes a slot -----

  function SetSlot(c: Arena, n: Id, b: Nibble, x: Id): Arena
    requires n in c
  {
    c[n := c[n].(slots := c[n].slots[b := x])]
  }

  lemma AddLeafPairs(c: Arena, d: Arena, T: set<Id>, root: Id, K: nat, n: Id, x: Id, leaf: Cell, m: Id)
    requires SearchTree(c, T, root, K) && n in T && n in c && x !in c && m in T
    requires |leaf.prefix| == K && c[n].prefix < leaf.prefix && leaf.prefix[|c[n].prefix|] !in c[n].slots
    requires d == SetSlot(c, n, leaf.prefix[|c[n].prefix|], x)[x := leaf]
    ensures Leads(d, m, x) && Leads(d, x, m)
  {
    var k := leaf.prefix;
    assert Local(c, T, K, m) && Leads(c, m, n) && Leads(c, n, m);
    if c[m].prefix <= k {
      if |c[m].prefix| < |c[n].prefix| {
        PrefixesComparable(c[m].prefix, c[n].prefix, k);
      } else {
        PrefixesComparable(c[n].prefix, c[m].prefix, k);
      }
    }
  }

  lemma AddLeafOld(c: Arena, d: Arena, T: set<Id>, root: Id, K: nat, n: Id, x: Id, leaf: Cell, m: Id, q: Id)
    requires SearchTree(c, T, root, K) && n in T && n in c && x !in c && m in T && q in T
    requires c[n].prefix < leaf.prefix && leaf.prefix[|c[n].prefix|] !in c[n].slots
    requires d == SetSlot(c, n, leaf.prefix[|c[n].prefix|], x)[x := leaf]
    ensures Leads(d, m, q)
  {
    assert Leads(c, m, q) && Local(c, T, K, m);
  }

  /** An empty slot receives a new leaf. */
  lemma AddLeaf(c: Arena, T: set<Id>, root: Id, K: nat, n: Id, x: Id, leaf: Cell)
    requires SearchTree(c, T, root, K) && n in T && n in c && x !in c
    requires |leaf.prefix| == K && Shape(leaf, K)
    requires c[n].prefix < leaf.prefix && leaf.prefix[|c[n].prefix|] !in c[n].slots
    ensures SearchTree(SetSlot(c, n, leaf.prefix[|c[n].prefix|], x)[x := leaf], T + {x}, root, K)
  {
    var d := SetSlot(c, n, leaf.prefix[|c[n].prefix|], x)[x := leaf];
    var U := T + {x};
    forall i | i in U ensures Local(d, U, K, i) {
      if i in T {
        assert Local(c, T, K, i);
      }
    }
    forall m, q | m in U && q in U ensures Leads(d, m, q) {
      if m in T && q in T {
        AddLeafOld(c, d, T, root, K, n, x, leaf, m, q);
      } else if m in T {
        AddLeafPairs(c, d, T, root, K, n, x, leaf, m);
      } else if q in T {
        AddLeafPairs(c, d, T, root, K, n, x, leaf, q);
      }
    }
  }

  lemma JoinPairs(c: Arena, d: Arena, T: set<Id>, root: Id, K: nat, n: Id, b: Nibble, x: Id, p: Key, m: Id)
    requires SearchTree(c, T, root, K) && n in T && n in c && x !in c && m in T
    requires b in c[n].slots && c[n].slots[b] in c
    requires Under(c[n].prefix, b, p) && p < c[c[n].slots[b]].prefix
    requires d == SetSlot(c, n, b, x)[x := Cell(p, None, map[c[c[n].slots[b]].prefix[|p|] := c[n].slots[b]])]
    ensures Leads(d, m, x) && Leads(d, x, m)
  {
    var y := c[n].slots[b];
    assert Local(c, T, K, n) && Local(c, T, K, m);
    assert Leads(c, m, n) && Leads(c, n, m) && Leads(c, m, y);
    if c[m].prefix <= p {
      if |c[m].prefix| < |c[n].prefix| {
        PrefixesComparable(c[m].prefix, c[n].prefix, p);
      } else {
        PrefixesComparable(c[n].prefix, c[m].prefix, p);
      }
    }
  }

  lemma JoinOld(c: Arena, d: Arena, T: set<Id>, root: Id, K: nat, n: Id, b: Nibble, x: Id, p: Key, m: Id, q: Id)
    requires SearchTree(c, T, root, K) && n in T && n in c && x !in c && m in T && q in T
    requires b in c[n].slots && c[n].slots[b] in c
    requires Under(c[n].prefix, b, p) && p < c[c[n].slots[b]].prefix
    requires d == SetSlot(c, n, b, x)[x := Cell(p, None, map[c[c[n].slots[b]].prefix[|p|] := c[n].slots[b]])]
    ensures Leads(d, m, q)
  {
    assert Leads(c, m, q) && Local(c, T, K, m);
  }

  /** A slot's cell is pushed below a new cell `x` that takes its place. */
  lemma Join(c: Arena, T: set<Id>, root: Id, K: nat, n: Id, b: Nibble, x: Id, p: Key)
    requires SearchTree(c, T, root, K) && n in T && n in c && x !in c
    requires b in c[n].slots && c[n].slots[b] in c
    requires Under(c[n].prefix, b, p) && p < c[c[n].slots[b]].prefix
    ensures
      var y := c[n].slots[b];
      SearchTree(SetSlot(c, n, b, x)[x := Cell(p, None, map[c[y].prefix[|p|] := y])], T + {x}, root, K)
  {
    var y := c[n].slots[b];
    var d := SetSlot(c, n, b, x)[x := Cell(p, None, map[c[y].prefix[|p|] := y])];
    var U := T + {x};
    assert Local(c, T, K, n) && Local(c, T, K, y);
    forall i | i in U ensures Local(d, U, K, i) {
      if i in T {
        assert Local(c, T, K, i);
      }
    }
    forall m, q | m in U && q in U ensures Leads(d, m, q) {
      if m in T && q in T {
        JoinOld(c, d, T, root, K, n, b, x, p, m, q);
      } else if m in T {
        JoinPairs(c, d, T, root, K, n, b, x, p, m);
      } else if q in T {
        JoinPairs(c, d, T, root, K, n, b, x, p, q);
      }
    }
  }

  /** The slot of a cell without children is emptied. */
  lemma Remove(c: Arena, T: set<Id>, root: Id, K: nat, n: Id, b: Nibble)
    requires SearchTree(c, T, root, K) && n in T && n in c
    requires b in c[n].slots && c[n].slots[b] in c && c[c[n].slots[b]].slots == map[]
    ensures SearchTree(c[n := c[n].(slots := c[n].slots - {b})], T - {c[n].slots[b]}, root, K)
  {
    var y := c[n].slots[b];
    var d := c[n := c[n].(slots := c[n].slots - {b})];
    var U := T - {y};
    assert Local(c, T, K, n);
    forall i | i in U ensures Local(d, U, K, i) {
      assert Local(c, T, K, i);
      forall e | e in d[i].slots ensures d[i].slots[e] != y {
        if d[i].slots[e] == y {
          UniqueParent(c, T, root, K, i, e, n, b);
        }
      }
    }
    forall m, q | m in U && q in U ensures Leads(d, m, q) {
      assert Leads(c, m, q) && Leads(c, y, q) && Local(c, T, K, m);
    }
  }

  /** A cell without children gives way to a new leaf. */
  lemma Refill(c: Arena, T: set<Id>, root: Id, K: nat, n: Id, x: Id, leaf: Cell)
    requires SearchTree(c, T, root, K) && n in T && n in c && x !in c
    requires |leaf.prefix| == K && Shape(leaf, K) && c[n].prefix < leaf.prefix
    requires var b := leaf.prefix[|c[n].prefix|];
      b in c[n].slots && c[n].slots[b] in c && c[c[n].slots[b]].slots == map[]
    ensures var b := leaf.prefix[|c[n].prefix|];
      SearchTree(SetSlot(c, n, b, x)[x := leaf], T - {c[n].slots[b]} + {x}, root, K)
  {
    var b := leaf.prefix[|c[n].prefix|];
    var d := c[n := c[n].(slots := c[n].slots - {b})];
    assert Local(c, T, K, n);
    Remove(c, T, root, K, n, b);
    AddLeaf(d, T - {c[n].slots[b]}, root, K, n, x, leaf);
    assert d[n].slots[b := x] == c[n].slots[b := x];
    assert SetSlot(d, n, b, x)[x := leaf] == SetSlot(c, n, b, x)[x := leaf];
  }

  /**
   The cells a collapse removes: a cell and, while there is exactly one child,
   the next cell down.  The last one is the cell that gets copied.
   */
  ghost predicate Chain(c: Arena, s: seq<Id>) {
    && |s| > 0
    && (forall i | 0 <= i < |s| :: s[i] in c)
    && (forall i | 0 < i < |s| :: OnlySlot(c, s[i - 1], s[i]))
  }

  /** `x` is the only child of `m`. */
  ghost predicate OnlySlot(c: Arena, m: Id, x: Id) {
    HasChild(c, m, x) && |c[m].slots| == 1
  }

  lemma OnlyChild(c: Arena, m: Id, x: Id, d: Nibble)
    requires OnlySlot(c, m, x) && d in c[m].slots
    ensures c[m].slots[d] == x
  {
    var b :| b in c[m].slots && c[m].slots[b] == x;
    assert |c[m].slots.Keys - {b}| == 0;
    assert b == d;
  }

  lemma {:induction false} ChainGrows(c: Arena, T: set<Id>, root: Id, K: nat, s: seq<Id>, i: nat, j: nat)
    requires SearchTree(c, T, root, K) && Chain(c, s) && s[0] in T
    requires i <= j < |s|
    ensures s[i] in T && s[j] in T && c[s[i]].prefix <= c[s[j]].prefix
    ensures i < j ==> c[s[i]].prefix < c[s[j]].prefix
    decreases j
  {
    if j > 0 {
      ChainGrows(c, T, root, K, s, if i < j then i else j - 1, j - 1);
      assert OnlySlot(c, s[j - 1], s[j]);
      assert Local(c, T, K, s[j - 1]);
    }
  }

  /** A cell below the first of a chain and not in it is below the last. */
  lemma {:induction false} BelowChain(c: Arena, T: set<Id>, root: Id, K: nat, s: seq<Id>, i: nat, q: Id)
    requires SearchTree(c, T, root, K) && Chain(c, s) && s[0] in T
    requires q in T && q in c && q !in s && i < |s|
    requires c[s[0]].prefix <= c[q].prefix
    ensures s[i] in T && c[s[i]].prefix < c[q].prefix
  {
    ChainGrows(c, T, root, K, s, 0, i);
    if i > 0 {
      var m := s[i - 1];
      BelowChain(c, T, root, K, s, i - 1, q);
      assert OnlySlot(c, m, s[i]);
      assert Leads(c, m, q);
      OnlyChild(c, m, s[i], c[q].prefix[|c[m].prefix|]);
    }
    assert Leads(c, s[i], q);
  }

  /** Only the slot that holds its head points into a chain from outside. */
  lemma ChainEntry(c: Arena, T: set<Id>, root: Id, K: nat, s: seq<Id>, n: Id, b: Nibble, m: Id, e: Nibble)
    requires SearchTree(c, T, root, K) && Chain(c, s)
    requires n in T && n in c && b in c[n].slots && c[n].slots[b] == s[0]
    requires m in T && m in c && m !in s && e in c[m].slots && c[m].slots[e] in s
    ensures m == n && e == b
  {
    assert Local(c, T, K, n);
    var j :| 0 <= j < |s| && s[j] == c[m].slots[e];
    if j == 0 {
      UniqueParent(c, T, root, K, m, e, n, b);
    } else {
      ChainGrows(c, T, root, K, s, j - 1, j);
      assert OnlySlot(c, s[j - 1], s[j]);
      var d :| d in c[s[j - 1]].slots && c[s[j - 1]].slots[d] == s[j];
      UniqueParent(c, T, root, K, m, e, s[j - 1], d);
    }
  }

  lemma ChainAside(c: Arena, T: set<Id>, root: Id, K: nat, s: seq<Id>, n: Id)
    requires SearchTree(c, T, root, K) && Chain(c, s) && n in T && n in c && HasChild(c, n, s[0])
    ensures n !in s && root !in s
    ensures forall z | HasChild(c, s[|s| - 1], z) :: z !in s
  {
    assert Local(c, T, K, n);
    forall i | 0 <= i < |s| ensures s[i] != n && s[i] != root {
      ChainGrows(c, T, root, K, s, 0, i);
    }
    forall z | HasChild(c, s[|s| - 1], z) ensures z !in s {
      ChainGrows(c, T, root, K, s, 0, |s| - 1);
      assert Local(c, T, K, s[|s| - 1]);
      forall j | 0 <= j < |s| ensures s[j] != z {
        ChainGrows(c, T, root, K, s, j, |s| - 1);
      }
    }
  }

  /** The situation of `Replace`, shared by its two halves. */
  ghost predicate Replacing(c: Arena, d: Arena, T: set<Id>, root: Id, K: nat,
                            n: Id, b: Nibble, s: seq<Id>, x: Id, copy: Cell) {
    && SearchTree(c, T, root, K) && n in T && n in c && x !in c
    && b in c[n].slots && Chain(c, s) && s[0] == c[n].slots[b]
    && Shape(copy, K) && copy.prefix == c[s[|s| - 1]].prefix && copy.slots == c[s[|s| - 1]].slots
    && d == SetSlot(c, n, b, x)[x := copy]
  }

  lemma ReplaceLocal(c: Arena, d: Arena, T: set<Id>, root: Id, K: nat,
                     n: Id, b: Nibble, s: seq<Id>, x: Id, copy: Cell, i: Id)
    requires Replacing(c, d, T, root, K, n, b, s, x, copy)
    requires i == x || (i in T && i !in s)
    ensures Local(d, T - (set j | j in s) + {x}, K, i)
  {
    var z := s[|s| - 1];
    assert Local(c, T, K, n);
    ChainAside(c, T, root, K, s, n);
    ChainGrows(c, T, root, K, s, 0, |s| - 1);
    assert Local(c, T, K, z);
    if i == x {
      forall e | e in d[i].slots ensures d[i].slots[e] !in s && d[i].slots[e] in T {
        assert HasChild(c, z, d[i].slots[e]);
      }
    } else {
      assert Local(c, T, K, i);
      forall e | e in c[i].slots && c[i].slots[e] in s ensures i == n && e == b {
        ChainEntry(c, T, root, K, s, n, b, i, e);
      }
    }
  }

  lemma ReplaceLeads(c: Arena, d: Arena, T: set<Id>, root: Id, K: nat,
                     n: Id, b: Nibble, s: seq<Id>, x: Id, copy: Cell, m: Id, q: Id)
    requires Replacing(c, d, T, root, K, n, b, s, x, copy)
    requires m in T && m !in s && q in T && q !in s
    ensures Leads(d, m, q) && Leads(d, x, q) && Leads(d, m, x)
  {
    var z := s[|s| - 1];
    assert Local(c, T, K, n);
    ChainGrows(c, T, root, K, s, 0, |s| - 1);
    assert Local(c, T, K, m) && Local(c, T, K, z);
    assert Leads(c, m, q) && Leads(c, z, q) && Leads(c, m, z);
    if c[s[0]].prefix <= c[q].prefix {
      BelowChain(c, T, root, K, s, |s| - 1, q);
    }
    LeadsAcross(c, d, T, K, n, b, z, x, copy, m, q);
    LeadsToCopy(c, d, T, K, n, b, z, x, copy, m);
    LeadsFromCopy(c, d, T, K, n, b, z, x, copy, q);
  }

  /** The same cells, with slot `b` of `n` led to a copy `x` of `z`. */
  ghost predicate Relinked(c: Arena, d: Arena, n: Id, b: Nibble, z: Id, x: Id, copy: Cell) {
    && n in c && x !in c && b in c[n].slots && z in c && c[n].slots[b] in c
    && copy.prefix == c[z].prefix && copy.slots == c[z].slots && c[c[n].slots[b]].prefix <= c[z].prefix
    && d == SetSlot(c, n, b, x)[x := copy]
  }

  lemma LeadsAcross(c: Arena, d: Arena, T: set<Id>, K: nat, n: Id, b: Nibble, z: Id, x: Id, copy: Cell, m: Id, q: Id)
    requires Relinked(c, d, n, b, z, x, copy)
    requires m in c && q in c && Local(c, T, K, m) && Leads(c, m, q)
    requires c[c[n].slots[b]].prefix <= c[q].prefix ==> c[z].prefix <= c[q].prefix
    ensures Leads(d, m, q)
  {
  }

  lemma LeadsToCopy(c: Arena, d: Arena, T: set<Id>, K: nat, n: Id, b: Nibble, z: Id, x: Id, copy: Cell, m: Id)
    requires Relinked(c, d, n, b, z, x, copy)
    requires m in c && m != z && Local(c, T, K, m) && Leads(c, m, z)
    ensures Leads(d, m, x)
  {
  }

  lemma LeadsFromCopy(c: Arena, d: Arena, T: set<Id>, K: nat, n: Id, b: Nibble, z: Id, x: Id, copy: Cell, q: Id)
    requires Relinked(c, d, n, b, z, x, copy)
    requires q in c && q != z && Local(c, T, K, z) && Leads(c, z, q)
    ensures Leads(d, x, q)
  {
  }

  /** A slot's chain is replaced by a copy of its last cell. */
  lemma Replace(c: Arena, d: Arena, T: set<Id>, root: Id, K: nat,
                n: Id, b: Nibble, s: seq<Id>, x: Id, copy: Cell)
    requires Replacing(c, d, T, root, K, n, b, s, x, copy)
    ensures SearchTree(d, T - (set i | i in s) + {x}, root, K)
  {
    var U := T - (set i | i in s) + {x};
    assert Local(c, T, K, n);
    ChainAside(c, T, root, K, s, n);
    forall i | i in U ensures Local(d, U, K, i) {
      ReplaceLocal(c, d, T, root, K, n, b, s, x, copy, i);
    }
    forall m, q | m in U && q in U ensures Leads(d, m, q) {
      var m', q' := if m == x then n else m, if q == x then n else q;
      ReplaceLeads(c, d, T, root, K, n, b, s, x, copy, m', q');
    }
  }

  /** A copy of the root takes over its tree. */
  lemma CopyRoot(c: Arena, T: set<Id>, root: Id, K: nat, x: Id)
    requires SearchTree(c, T, root, K) && x !in c
    ensures SearchTree(c[x := c[root]], T - {root} + {x}, x, K)
  {
    var d := c[x := c[root]];
    var U := T - {root} + {x};
    assert Local(c, T, K, root);
    forall i | i in U ensures Local(d, U, K, i) {
      assert Local(c, T, K, if i == x then root else i);
    }
    forall m, q | m in U && q in U ensures Leads(d, m, q) {
      var m', q' := if m == x then root else m, if q == x then root else q;
      assert Leads(c, m', q') && Local(c, T, K, m');
    }
  }

  // ----- the value trie of an arena tree -----

  ghost function TreeOf(c: Arena, T: set<Id>, root: Id, K: nat, n: Id): Trie<()>
    requires SearchTree(c, T, root, K) && n in T && n in c
    decreases K - |c[n].prefix|
  {
    assert Local(c, T, K, n);
    if |c[n].prefix| == K then Leaf(c[n].prefix, c[n].entry.value, ())
    else
      assert forall b | b in c[n].slots :: Local(c, T, K, c[n].slots[b]);
      Branch(c[n].prefix, map b | b in c[n].slots :: TreeOf(c, T, root, K, c[n].slots[b]), ())
  }

  lemma {:induction false} TreeWellFormed(c: Arena, T: set<Id>, root: Id, K: nat, n: Id)
    requires SearchTree(c, T, root, K) && n in T && n in c
    ensures WellFormed(TreeOf(c, T, root, K, n), K)
    ensures TreeOf(c, T, root, K, n).Prefix() == c[n].prefix
    decreases K - |c[n].prefix|
  {
    assert Local(c, T, K, n);
    forall b | b in c[n].slots
      ensures WellFormed(TreeOf(c, T, root, K, c[n].slots[b]), K)
      ensures TreeOf(c, T, root, K, c[n].slots[b]).Prefix() == c[c[n].slots[b]].prefix
    {
      assert Local(c, T, K, c[n].slots[b]);
      TreeWellFormed(c, T, root, K, c[n].slots[b]);
    }
  }

  /** Lookup from any cell above a leaf of the tree finds that leaf. */
  lemma {:induction false} LeafIsFound(c: Arena, T: set<Id>, root: Id, K: nat, m: Id, x: Id)
    requires SearchTree(c, T, root, K) && m in T && x in T && m in c && x in c
    requires |c[x].prefix| == K && c[m].prefix <= c[x].prefix
    ensures c[x].entry.Some? && Get(TreeOf(c, T, root, K, m), c[x].prefix) == c[x].entry
    decreases K - |c[m].prefix|
  {
    assert Local(c, T, K, m) && Local(c, T, K, x) && Leads(c, m, x);
    if c[m].prefix < c[x].prefix {
      LeafIsFound(c, T, root, K, c[m].slots[c[x].prefix[|c[m].prefix|]], x);
    } else {
      assert c[m].prefix == c[x].prefix;
    }
  }

  /** Whatever lookup finds is a leaf of the tree. */
  lemma {:induction false} FoundIsLeaf(c: Arena, T: set<Id>, root: Id, K: nat, m: Id, k: Key) returns (x: Id)
    requires SearchTree(c, T, root, K) && m in T && m in c
    requires Get(TreeOf(c, T, root, K, m), k).Some?
    ensures x in T && x in c && c[x].prefix == k && |k| == K
    ensures c[x].entry.Some? && Get(TreeOf(c, T, root, K, m), k) == c[x].entry
    decreases K - |c[m].prefix|
  {
    assert Local(c, T, K, m);
    if |c[m].prefix| == K {
      x := m;
    } else {
      var y := c[m].slots[k[|c[m].prefix|]];
      assert Local(c, T, K, y);
      x := FoundIsLeaf(c, T, root, K, y, k);
    }
  }
}
