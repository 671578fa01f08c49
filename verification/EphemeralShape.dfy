/**
 The ephemeral trie at rest: exact sizes, canonical shape, no trace of the schedule.
 */
module EphemeralShape {

  import opened Nibbles
  import opened Tries
  import opened SearchTrees
  import opened EphemeralTrie
  import opened EphemeralSafety
  import opened EphemeralRuns

  /** At rest nobody waits, so every slot holds the exact number of leaves below it. */
  lemma QuietSlot(s: State, n: Id, b: Nibble)
    requires Inv(s) && Quiet(s) && n in s.cells && b in s.cells[n].slots
    ensures SizeAt(s, n, b) == |Below(s, n, b)|
  {
    assert SlotOk(s, n, b);
    assert Waiting(s, n, b) == {};
  }

  // ----- the number of winners -----

  lemma {:induction false} ValuesCount<K, V>(m: map<K, V>)
    requires forall i, j | i in m && j in m && m[i] == m[j] :: i == j
    ensures |m.Values| == |m|
  {
    if m.Keys != {} {
      var k :| k in m;
      var rest := m - {k};
      ValuesCount(rest);
      assert m.Values == rest.Values + {m[k]};
      assert m.Keys == rest.Keys + {k};
    } else {
      assert m.Values == {};
    }
  }

  ghost function Leaves(s: State): set<Id> {
    set x | x in s.cells && |s.cells[x].prefix| == s.K
  }

  /** The calls that returned true. */
  function Winners(s: State): set<Tid> {
    set t | t in s.calls && s.calls[t].pc == Done(true)
  }

  lemma LeavesArePublished(s: State)
    requires Inv(s)
    ensures |Leaves(s)| == |s.published|
  {
    var m := map k | k in s.published :: s.published[k].leaf;
    forall i, j | i in m && j in m && m[i] == m[j] ensures i == j {
      assert WinOk(s, i) && WinOk(s, j);
    }
    ValuesCount(m);
    forall x ensures x in Leaves(s) <==> x in m.Values {
      if x in Leaves(s) {
        var k := s.cells[x].prefix;
        assert LeafOk(s, x) && WinOk(s, k);
        assert Leads(s.cells, x, m[k]);
      }
      if x in m.Values {
        var k :| k in m && m[k] == x;
        assert WinOk(s, k);
      }
    }
    assert Leaves(s) == m.Values && m.Keys == s.published.Keys;
  }

  lemma WinnersArePublished(s: State)
    requires Inv(s) && Quiet(s)
    ensures |Winners(s)| == |s.published|
  {
    var m := map k | k in s.published :: s.published[k].tid;
    forall i, j | i in m && j in m && m[i] == m[j] ensures i == j {
      assert WinOk(s, i) && WinOk(s, j);
    }
    ValuesCount(m);
    forall t ensures t in Winners(s) <==> t in m.Values {
      if t in Winners(s) {
        assert CallOk(s, t);
        assert m[s.calls[t].key] == t;
      }
      if t in m.Values {
        var k :| k in m && m[k] == t;
        assert WinOk(s, k);
      }
    }
    assert Winners(s) == m.Values && m.Keys == s.published.Keys;
  }

  /** The leaves whose first nibble is below `b`. */
  ghost function FirstBelow(s: State, b: int): set<Id> {
    set x | x in Leaves(s) && x in s.cells && |s.cells[x].prefix| > 0 && s.cells[x].prefix[0] < b
  }

  lemma NextSlot(s: State, b: Nibble)
    requires Inv(s) && Quiet(s)
    ensures |FirstBelow(s, b + 1)| == |FirstBelow(s, b)| + SizeAt(s, ROOT, b)
  {
    assert FirstBelow(s, b + 1) == FirstBelow(s, b) + Below(s, ROOT, b);
    assert FirstBelow(s, b) !! Below(s, ROOT, b);
    if b in s.cells[ROOT].slots {
      QuietSlot(s, ROOT, b);
    } else {
      NothingBelow(s, ROOT, b);
    }
  }

  lemma AllFirstBelow(s: State)
    requires TreeOk(s)
    ensures FirstBelow(s, 16) == Leaves(s) && |Leaves(s)| <= NULL
  {
    BoundedSet(Leaves(s), NULL);
  }

  lemma FirstBelowFits(s: State, b: int)
    requires TreeOk(s)
    ensures |FirstBelow(s, b)| < HALF
  {
    BoundedSet(FirstBelow(s, b), NULL);
  }

  /**
   `size()` of a trie at rest: the 32-bit sum of the root's slot sizes is the number of inserts that
   returned true.
   */
  method Size(s: State) returns (acc: nat)
    requires Inv(s) && Quiet(s)
    ensures acc == |Leaves(s)| == |Winners(s)|
  {
    acc := 0;
    assert FirstBelow(s, 0) == {};
    for b := 0 to 16
      invariant acc == |FirstBelow(s, b)|
    {
      NextSlot(s, b);
      FirstBelowFits(s, b + 1);
      acc := (acc + SizeAt(s, ROOT, b)) % HALF;
    }
    AllFirstBelow(s);
    LeavesArePublished(s);
    WinnersArePublished(s);
  }

  /** The same as a statement about runs. */
  lemma QuietSizes(s: State, K: nat, run: seq<Step>, u: State, n: Id, b: Nibble)
    requires Init(s, K) && Executes(s, run, u) && Quiet(u) && n in u.cells && b in u.cells[n].slots
    ensures SizeAt(u, n, b) == |Below(u, n, b)|
    ensures |Leaves(u)| == |Winners(u)|
  {
    InitInv(s, K);
    RunInv(s, run, u);
    QuietSlot(u, n, b);
    LeavesArePublished(u);
    WinnersArePublished(u);
  }

  // ----- the shape -----

  const VALUE := Entry([], 0, true)

  /** The nodes with all values forgotten. */
  ghost function Outline(c: Arena): Arena {
    map n | n in c :: c[n].(entry := if c[n].entry.Some? then Some(VALUE) else None)
  }

  ghost predicate OutlineOk(s: State) {
    SearchTree(Outline(s.cells), s.cells.Keys, ROOT, s.K)
  }

  lemma OutlineIsTree(s: State)
    requires TreeOk(s)
    ensures OutlineOk(s)
  {
    forall n | n in s.cells ensures n in Outline(s.cells) {
      assert Local(s.cells, s.cells.Keys, s.K, n);
    }
    Frame(s.cells, Outline(s.cells), s.cells.Keys, ROOT, s.K);
  }

  /** The trie of all published nodes, values forgotten. */
  ghost function Skeleton(s: State): Trie<()>
    requires OutlineOk(s)
  {
    TreeOf(Outline(s.cells), s.cells.Keys, ROOT, s.K, ROOT)
  }

  lemma {:induction false} DenseBelow(c: Arena, T: set<Id>, root: Id, K: nat, n: Id)
    requires SearchTree(c, T, root, K) && n in T && n in c && n != root
    requires forall m | m in T && m in c && m != root && |c[m].prefix| < K :: |c[m].slots| >= 2
    ensures Dense(TreeOf(c, T, root, K, n))
    decreases K - |c[n].prefix|
  {
    assert Local(c, T, K, n);
    if |c[n].prefix| < K {
      var t := TreeOf(c, T, root, K, n);
      assert t.children.Keys == c[n].slots.Keys;
      assert |t.children| == |t.children.Keys| == |c[n].slots.Keys| == |c[n].slots|;
      forall b | b in t.children ensures Dense(t.children[b]) {
        assert Local(c, T, K, c[n].slots[b]);
        assert c[n].slots[b] != root;
        DenseBelow(c, T, root, K, c[n].slots[b]);
      }
    }
  }

  /** At rest every branch but the root has two children or more. */
  lemma QuietIsCanonical(s: State)
    requires Inv(s) && Quiet(s)
    ensures OutlineOk(s) && RootCanonical(Skeleton(s), s.K)
  {
    OutlineIsTree(s);
    var c, T := Outline(s.cells), s.cells.Keys;
    forall m | m in T && m in c && m != ROOT && |c[m].prefix| < s.K ensures |c[m].slots| >= 2 {
      assert DenseOk(s, m);
    }
    TreeWellFormed(c, T, ROOT, s.K, ROOT);
    assert Local(c, T, s.K, ROOT);
    forall b | b in Skeleton(s).children ensures Dense(Skeleton(s).children[b]) {
      assert c[ROOT].slots[b] != ROOT;
      DenseBelow(c, T, ROOT, s.K, c[ROOT].slots[b]);
    }
  }

  lemma SkeletonKeys(s: State, k: Key)
    requires Inv(s) && OutlineOk(s)
    ensures Get(Skeleton(s), k) == if k in s.published then Some(VALUE) else None
  {
    var c, T := Outline(s.cells), s.cells.Keys;
    if k in s.published {
      assert WinOk(s, k);
      LeafIsFound(c, T, ROOT, s.K, ROOT, s.published[k].leaf);
    }
    if Get(Skeleton(s), k).Some? {
      var x := FoundIsLeaf(c, T, ROOT, s.K, ROOT, k);
      assert LeafOk(s, x);
    }
  }

  /**
   The trie at rest is determined by the set of keys: whatever the number of
   threads, the order of inserts and the schedule, two runs that published the
   same keys end in the same tree.
   */
  lemma ShapeIsUnique(s: State, K: nat, run: seq<Step>, u: State, z: State, run': seq<Step>, v: State)
    requires Init(s, K) && Executes(s, run, u) && Quiet(u)
    requires Init(z, K) && Executes(z, run', v) && Quiet(v)
    requires u.published.Keys == v.published.Keys
    ensures OutlineOk(u) && OutlineOk(v)
    ensures RootCanonical(Skeleton(u), K) && Skeleton(u) == Skeleton(v)
  {
    InitInv(s, K);
    InitInv(z, K);
    RunInv(s, run, u);
    RunInv(z, run', v);
    RunLength(s, run, u);
    RunLength(z, run', v);
    QuietIsCanonical(u);
    QuietIsCanonical(v);
    forall k: Key ensures Get(Skeleton(u), k) == Get(Skeleton(v), k) {
      SkeletonKeys(u, k);
      SkeletonKeys(v, k);
    }
    RootUnique(Skeleton(u), Skeleton(v), K);
    SameIsEqual(Skeleton(u), Skeleton(v));
  }

  lemma {:induction false} RunLength(s: State, run: seq<Step>, u: State)
    requires Inv(s) && Executes(s, run, u)
    ensures u.K == s.K
    decreases |run|
  {
    if run != [] {
      StepInv(s, run[0]);
      StepGrows(s, run[0]);
      RunLength(Apply(s, run[0]), run[1..], u);
    }
  }
}
