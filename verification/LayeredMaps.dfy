/**
 What the layered trie stores: one map per layer.

 Finalised layers never change, structural compare-and-swaps never change the
 active entries, and the only writes a reader can notice are the leaf writes of
 `insert`.  The trie therefore refines a list of maps to which a run either adds
 a copy of the last map or changes one key of it.
 */
module LayeredMaps {

  import opened Nibbles
  import opened Tries
  import opened SearchTrees
  import opened LayeredTrie
  import opened LayeredSafety
  import opened LayeredRuns
  import opened LayeredSweep

  /** The trie under the root of layer `k`. */
  ghost function LayerTrie(s: State, k: nat): Trie<()>
    requires LayerOk(s, k)
  {
    TreeOf(s.cells, Tree(s, k), s.rootIds[k], s.K, s.rootIds[k])
  }

  // ----- snapshot isolation -----

  /** Nodes older than layer `k` are as before. */
  ghost predicate OldKept(s: State, u: State, k: nat) {
    forall n | n in s.info && n in s.cells && s.info[n].layer < k ::
      && n in u.info && u.info[n].layer == s.info[n].layer
      && n in u.cells && u.cells[n] == s.cells[n]
  }

  /** Nodes older than the active layer, and the roots, are as before. */
  ghost predicate Frozen(s: State, u: State) {
    && s.active <= u.active && u.K == s.K
    && |s.rootIds| <= |u.rootIds|
    && (forall k | 0 <= k < |s.rootIds| :: u.rootIds[k] == s.rootIds[k])
    && OldKept(s, u, s.active)
  }

  lemma PublishFreezes(s: State, t: Tid, n: Id, b: Nibble, x: Id, cell: Cell, gone: seq<Id>)
    requires t in s.calls && n in s.cells && n in s.info && x !in s.cells && s.info[n].layer == s.active
    ensures Frozen(s, Publish(s, t, n, b, x, cell, gone))
  {
  }

  lemma UnlinkFreezes(s: State, t: Tid, n: Id, b: Nibble, gone: seq<Id>)
    requires t in s.calls && n in s.cells && n in s.info && s.info[n].layer == s.active
    ensures Frozen(s, Unlink(s, t, n, b, gone))
  {
  }

  lemma ChooseFreezes(s: State, t: Tid, x: Id)
    requires Enabled(s, DoChoose(t, x)) && CallOk(s, t)
    ensures Frozen(s, ChooseStep(s, t, x))
  {
    var n, turn := s.calls[t].pc.node, TurnOf(s, t);
    if turn.Put? {
      PublishFreezes(s, t, n, s.calls[t].key[|s.cells[n].prefix|], x, turn.cell, turn.gone);
    } else if turn.Cut? {
      UnlinkFreezes(s, t, n, s.calls[t].key[|s.cells[n].prefix|], turn.gone);
    }
  }

  lemma VisitFreezes(s: State, t: Tid, e: Entry)
    requires Enabled(s, DoVisit(t, e)) && CallOk(s, t)
    ensures Frozen(s, VisitStep(s, t, e))
  {
    var n := s.calls[t].pc.node;
    assert s.info[n].layer == s.active;
  }

  /** The trie itself is as before. */
  ghost predicate SameTree(s: State, u: State) {
    u == s.(lowerBound := u.lowerBound, sweep := u.sweep, roots := u.roots, erased := u.erased,
      dead := u.dead, fault := u.fault)
  }

  predicate OfSweep(step: Step) {
    step.DoRaise? || step.DoClose? || step.DoErase? || step.DoDestruct? || step.DoEnd?
  }

  lemma DestroyKeepsTree(s: State, n: Id)
    requires s.sweep.Sweeping?
    ensures SameTree(s, Destroy(s, n))
  {
    if n in s.dead {
      assert Destroy(s, n) == s.(fault := DoubleFree);
    } else if !Alive(s, n) {
      assert Destroy(s, n) == s.(fault := UseAfterFree);
    }
  }

  lemma SameTreeAfter(s: State, v: State, u: State)
    requires SameTree(s, v) && SameTree(v, u)
    ensures SameTree(s, u)
  {
  }

  lemma EraseKeepsTree(s: State, k: nat)
    requires NextRoot(s, k)
    ensures SameTree(s, EraseStep(s, k))
  {
    var v := s.(roots := s.roots - {k}, erased := s.erased + 1);
    DestroyKeepsTree(v, s.roots[k]);
    assert SameTree(s, v);
    SameTreeAfter(s, v, EraseStep(s, k));
  }

  lemma DestructKeepsTree(s: State)
    requires s.sweep.Sweeping? && |s.sweep.stack| > 0
    ensures SameTree(s, DestructStep(s))
  {
    var Frame(n, b, sup) := Top(s);
    if n in s.cells && !(IsLeaf(s, n) || sup == 0 || b >= 16) && b in s.cells[n].slots {
      VisitChildKeepsTree(s, n, b, sup);
    }
  }

  lemma VisitChildKeepsTree(s: State, n: Id, b: nat, sup: nat)
    requires s.sweep.Sweeping? && |s.sweep.stack| > 0 && Top(s) == Frame(n, b, sup)
    requires n in s.cells && !(IsLeaf(s, n) || sup == 0 || b >= 16) && b in s.cells[n].slots
    ensures SameTree(s, DestructStep(s))
  {
    var c, on := s.cells[n].slots[b], Restack(s, [Frame(n, b + 1, sup)]);
    if !Alive(s, c) {
      assert DestructStep(s) == s.(fault := UseAfterFree);
    } else if sup == s.info[c].superseded {
      DestroyKeepsTree(on, c);
      assert DestructStep(s) == Destroy(on, c);
    } else if sup > s.info[c].superseded {
      assert DestructStep(s) == s.(fault := Terminated);
    } else {
      assert DestructStep(s) == on;
    }
  }

  lemma SweepKeepsTree(s: State, step: Step)
    requires Enabled(s, step) && OfSweep(step)
    ensures SameTree(s, Apply(s, step))
  {
    match step
    case DoRaise(to) =>
    case DoClose =>
    case DoErase(k) => EraseKeepsTree(s, k);
    case DoDestruct => DestructKeepsTree(s);
    case DoEnd =>
  }

  lemma StepFreezes(s: State, step: Step)
    requires CallsOk(s) && Enabled(s, step)
    ensures Frozen(s, Apply(s, step))
  {
    match step
    case DoVisit(t, e) =>
      assert CallOk(s, t);
      VisitFreezes(s, t, e);
    case DoChoose(t, x) =>
      assert CallOk(s, t);
      ChooseFreezes(s, t, x);
    case DoBegin(_, _, _) =>
    case DoCommit(t) => CommitFreezes(s, t);
    case DoStamp(t) => StampFreezes(s, t);
    case DoBump(x) => BumpFreezes(s, x);
    case _ => SweepKeepsTree(s, step);
  }

  lemma CommitFreezes(s: State, t: Tid)
    requires t in s.calls && s.calls[t].pc.Commit?
    ensures Frozen(s, CommitStep(s, t))
  {
  }

  lemma StampFreezes(s: State, t: Tid)
    requires t in s.calls && s.calls[t].pc.Stamp? && |s.calls[t].pc.todo| > 0
    ensures Frozen(s, StampStep(s, t))
  {
  }

  lemma BumpFreezes(s: State, x: Id)
    requires x !in s.cells && s.active < |s.rootIds|
    ensures Frozen(s, BumpStep(s, x))
  {
  }

  lemma {:induction false} RunFreezes(s: State, run: seq<Step>, u: State)
    requires Inv(s) && Executes(s, run, u)
    ensures Frozen(s, u)
    decreases |run|
  {
    if run != [] {
      StepFreezes(s, run[0]);
      StepInv(s, run[0]);
      RunFreezes(Apply(s, run[0]), run[1..], u);
    }
  }

  /** Two search trees that share the cells of one of them below `n` give the same trie there. */
  lemma {:induction false} SameTrie(c: Arena, T: set<Id>, r: Id, d: Arena, U: set<Id>, q: Id, K: nat, n: Id)
    requires SearchTree(c, T, r, K) && SearchTree(d, U, q, K)
    requires n in T && n in U && n in c && n in d
    requires forall m | m in T && m in c :: m in d && d[m] == c[m]
    ensures TreeOf(d, U, q, K, n) == TreeOf(c, T, r, K, n)
    decreases K - |c[n].prefix|
  {
    assert Local(c, T, K, n) && Local(d, U, K, n);
    forall b | b in c[n].slots
      ensures TreeOf(d, U, q, K, d[n].slots[b]) == TreeOf(c, T, r, K, c[n].slots[b])
    {
      assert Local(c, T, K, c[n].slots[b]);
      SameTrie(c, T, r, d, U, q, K, c[n].slots[b]);
    }
  }

  lemma FrozenLayer(s: State, u: State, k: nat)
    requires Inv(s) && LayersOk(u) && Frozen(s, u) && k < s.active
    ensures LayerOk(s, k) && LayerOk(u, k) && LayerTrie(u, k) == LayerTrie(s, k)
  {
    assert LayerOk(s, k) && LayerOk(u, k);
    SameTrie(s.cells, Tree(s, k), s.rootIds[k], u.cells, Tree(u, k), s.rootIds[k], s.K, s.rootIds[k]);
  }

  /**
   Snapshot isolation: once a layer is finalised, the trie under its root stays
   the same through every later insert, collection, bump and sweep.
   */
  lemma SnapshotIsolation(z: State, K: nat, before: seq<Step>, s: State, after: seq<Step>, u: State, k: nat)
    requires Init(z, K) && Executes(z, before, s) && Executes(s, after, u)
    requires k < s.active
    ensures LayerOk(s, k) && LayerOk(u, k) && LayerTrie(u, k) == LayerTrie(s, k)
  {
    InitInv(z, K);
    RunInv(z, before, s);
    RunInv(s, after, u);
    RunFreezes(s, after, u);
    FrozenLayer(s, u, k);
  }

  // ----- the active entries of a layer -----

  ghost function LayerMap(s: State, k: nat): map<Key, Entry>
    requires LayerOk(s, k)
  {
    LiveContents(LayerTrie(s, k))
  }

  /** `n` is the leaf of layer `k` that holds active entry `e` for `key`. */
  ghost predicate Holds(s: State, k: nat, n: Id, key: Key, e: Entry) {
    n in Tree(s, k) && n in s.cells && s.cells[n].prefix == key && |key| == s.K && s.cells[n].entry == Some(e) && e.live
  }

  lemma HeldIsMapped(s: State, k: nat, n: Id, key: Key, e: Entry)
    requires LayerOk(s, k) && Holds(s, k, n, key, e)
    ensures key in LayerMap(s, k) && LayerMap(s, k)[key] == e
  {
    var T, r := Tree(s, k), s.rootIds[k];
    LeafIsFound(s.cells, T, r, s.K, r, n);
    TreeWellFormed(s.cells, T, r, s.K, r);
    GetFindsLeaves(LayerTrie(s, k), s.K, key);
  }

  lemma MappedIsHeld(s: State, k: nat, key: Key) returns (n: Id)
    requires LayerOk(s, k) && key in LayerMap(s, k)
    ensures Holds(s, k, n, key, LayerMap(s, k)[key])
  {
    var T, r := Tree(s, k), s.rootIds[k];
    TreeWellFormed(s.cells, T, r, s.K, r);
    GetFindsLeaves(LayerTrie(s, k), s.K, key);
    n := FoundIsLeaf(s.cells, T, r, s.K, r, key);
  }

  /** Layer maps are equal when the active leaves can be matched. */
  lemma SameHolders(s: State, k: nat, u: State, l: nat)
    requires LayerOk(s, k) && LayerOk(u, l)
    requires forall n, key, e | Holds(s, k, n, key, e) :: exists m :: Holds(u, l, m, key, e)
    requires forall n, key, e | Holds(u, l, n, key, e) :: exists m :: Holds(s, k, m, key, e)
    ensures LayerMap(u, l) == LayerMap(s, k)
  {
    forall key | key in LayerMap(s, k) ensures key in LayerMap(u, l) && LayerMap(u, l)[key] == LayerMap(s, k)[key] {
      var n := MappedIsHeld(s, k, key);
      var m :| Holds(u, l, m, key, LayerMap(s, k)[key]);
      HeldIsMapped(u, l, m, key, LayerMap(s, k)[key]);
    }
    forall key | key in LayerMap(u, l) ensures key in LayerMap(s, k) {
      var n := MappedIsHeld(u, l, key);
      var m :| Holds(s, k, m, key, LayerMap(u, l)[key]);
      HeldIsMapped(s, k, m, key, LayerMap(u, l)[key]);
    }
  }

  // ----- what each step does to the maps -----

  /** The layer maps differ at most as a change of the active leaves from `cut` to `add` does. */
  lemma SwapMap(s: State, u: State, n: Id, cut: set<Id>, add: set<Id>)
    requires LayerOk(s, s.active) && LayerOk(u, u.active) && u.active == s.active && u.K == s.K
    requires Tree(u, s.active) == Tree(s, s.active) - cut + add
    requires forall m | m in s.cells && m != n :: m in u.cells && u.cells[m] == s.cells[m]
    requires n in s.cells && n in u.cells
    requires u.cells[n].prefix == s.cells[n].prefix && u.cells[n].entry == s.cells[n].entry
    requires add !! s.cells.Keys
    requires forall m, key, e | m in cut && Holds(s, s.active, m, key, e) :: exists x ::
      x in add && Holds(u, s.active, x, key, e)
    requires forall x, key, e | x in add && Holds(u, s.active, x, key, e) :: exists m :: Holds(s, s.active, m, key, e)
    ensures LayerMap(u, u.active) == LayerMap(s, s.active)
  {
    var k := s.active;
    forall m, key, e | Holds(s, k, m, key, e) ensures exists x :: Holds(u, k, x, key, e) {
      if m !in cut { assert Holds(u, k, m, key, e); }
    }
    forall m, key, e | Holds(u, k, m, key, e) ensures exists x :: Holds(s, k, x, key, e) {
      if m !in add {
        assert Local(s.cells, Tree(s, k), s.K, m);
        assert Holds(s, k, m, key, e);
      }
    }
    SameHolders(s, k, u, k);
  }

  /** `cell` carries over the active entry of what it replaces, and no other. */
  ghost predicate Carries(s: State, cell: Cell, gone: seq<Id>) {
    && (forall m, key, e | m in Ids(gone) && Holds(s, s.active, m, key, e) ::
      cell.prefix == key && cell.entry == Some(e))
    && (|cell.prefix| == s.K && cell.entry.Some? && cell.entry.value.live ==>
          exists m :: Holds(s, s.active, m, cell.prefix, cell.entry.value))
  }

  lemma PublishTree(s: State, t: Tid, n: Id, b: Nibble, x: Id, cell: Cell, gone: seq<Id>)
    requires Basics(s) && t in s.calls && n in s.cells && x !in s.cells && Outdated(s, Ids(gone))
    ensures Tree(Publish(s, t, n, b, x, cell, gone), s.active) == Tree(s, s.active) - Ids(gone) + {x}
  {
    var u := Publish(s, t, n, b, x, cell, gone);
    PublishSwaps(s, t, n, b, x, cell, gone);
    SwapShifts(s, u, t, n, Ids(gone), {x});
    SwapTrees(s, u, n, Ids(gone), {x}, s.active);
  }

  lemma PublishMap(s: State, t: Tid, n: Id, b: Nibble, x: Id, cell: Cell, gone: seq<Id>)
    requires Basics(s) && t in s.calls && n in s.cells && x !in s.cells && Outdated(s, Ids(gone))
    requires LayerOk(s, s.active) && LayerOk(Publish(s, t, n, b, x, cell, gone), s.active)
    requires Carries(s, cell, gone)
    ensures LayerMap(Publish(s, t, n, b, x, cell, gone), s.active) == LayerMap(s, s.active)
  {
    var u := Publish(s, t, n, b, x, cell, gone);
    PublishTree(s, t, n, b, x, cell, gone);
    PublishCarries(s, u, t, n, b, x, cell, gone);
    PublishCells(s, t, n, b, x, cell, gone);
    SwapMap(s, u, n, Ids(gone), {x});
  }

  lemma PublishCells(s: State, t: Tid, n: Id, b: Nibble, x: Id, cell: Cell, gone: seq<Id>)
    requires t in s.calls && n in s.cells && n in s.info && x !in s.cells
    ensures var u := Publish(s, t, n, b, x, cell, gone);
      && u.active == s.active && u.K == s.K
      && (forall m | m in s.cells && m != n :: m in u.cells && u.cells[m] == s.cells[m])
      && n in u.cells && u.cells[n].prefix == s.cells[n].prefix && u.cells[n].entry == s.cells[n].entry
      && x in u.cells && u.cells[x] == cell
  {
  }

  /** What the replaced nodes held the new one holds, and the other way round. */
  lemma PublishCarries(s: State, u: State, t: Tid, n: Id, b: Nibble, x: Id, cell: Cell, gone: seq<Id>)
    requires Basics(s) && t in s.calls && n in s.cells && x !in s.cells && Carries(s, cell, gone)
    requires u == Publish(s, t, n, b, x, cell, gone) && x in Tree(u, s.active)
    ensures forall m, key, e | m in Ids(gone) && Holds(s, s.active, m, key, e) :: Holds(u, s.active, x, key, e)
    ensures forall key, e | Holds(u, s.active, x, key, e) :: exists m :: Holds(s, s.active, m, key, e)
  {
    PublishCells(s, t, n, b, x, cell, gone);
  }

  lemma UnlinkMap(s: State, t: Tid, n: Id, b: Nibble, c: Id)
    requires Basics(s) && t in s.calls && n in s.cells && Outdated(s, {c})
    requires LayerOk(s, s.active) && LayerOk(Unlink(s, t, n, b, [c]), s.active)
    requires c in s.cells && !IsActiveLeaf(s, c)
    ensures LayerMap(Unlink(s, t, n, b, [c]), s.active) == LayerMap(s, s.active)
  {
    var u := Unlink(s, t, n, b, [c]);
    UnlinkSwaps(s, t, n, b, c);
    SwapShifts(s, u, t, n, {c}, {});
    SwapTrees(s, u, n, {c}, {}, s.active);
    SwapMap(s, u, n, {c}, {});
  }

  /** In a one-child chain only the last node can be a leaf. */
  lemma ChainCarries(s: State, c: Id)
    requires Inv(s) && c in Tree(s, s.active) && c in s.cells && Chain(s.cells, Walk(s, c))
    requires Ids(Walk(s, c)) <= Tree(s, s.active)
    ensures Carries(s, s.cells[Walk(s, c)[|Walk(s, c)| - 1]], Walk(s, c))
  {
    var w := Walk(s, c);
    var z := w[|w| - 1];
    assert LayerOk(s, s.active);
    forall m, key, e | m in Ids(w) && Holds(s, s.active, m, key, e) ensures m == z {
      var i :| 0 <= i < |w| && w[i] == m;
      if i < |w| - 1 {
        assert OnlySlot(s.cells, w[i + 1 - 1], w[i + 1]);
      }
      assert Local(s.cells, Tree(s, s.active), s.K, m);
    }
    assert z in Ids(w);
    if |s.cells[z].prefix| == s.K && s.cells[z].entry.Some? && s.cells[z].entry.value.live {
      assert Holds(s, s.active, z, s.cells[z].prefix, s.cells[z].entry.value);
    }
  }

  lemma ReplaceMap(s: State, t: Tid, n: Id, c: Id, x: Id, cell: Cell)
    requires AtLoop(s, t, n) && x !in s.cells && c in s.cells && SlotHolds(s, n, Bits(s, t, n), c)
    requires s.info[c].layer < s.active && Carries(s, cell, Walk(s, c))
    requires LayerOk(Publish(s, t, n, Bits(s, t, n), x, cell, Walk(s, c)), s.active)
    ensures LayerOk(s, s.active)
    ensures LayerMap(Publish(s, t, n, Bits(s, t, n), x, cell, Walk(s, c)), s.active) == LayerMap(s, s.active)
  {
    ActiveTree(s, n);
    CutIsOutdated(s, c);
    assert LayerOk(s, s.active);
    PublishMap(s, t, n, Bits(s, t, n), x, cell, Walk(s, c));
  }

  lemma EmptyIsOutdated(s: State, n: Id, b: Nibble, c: Id)
    requires Inv(s) && !Closing(s) && Here(s, n) && n in s.cells && c in s.cells && SlotHolds(s, n, b, c)
    requires s.info[c].layer < s.active && s.info[c].kids == 0
    ensures Outdated(s, {c}) && Walk(s, c) == [c]
  {
    ActiveTree(s, n);
    CutIsOutdated(s, c);
    EmptyWalk(s, c);
    assert Ids([c]) == {c};
  }

  lemma BlankMap(s: State, t: Tid, n: Id, b: Nibble, c: Id, x: Id, key: Key)
    requires Basics(s) && t in s.calls && n in s.cells && c in s.cells && x !in s.cells
    requires LayerOk(s, s.active) && Outdated(s, {c}) && !IsActiveLeaf(s, c)
    requires LayerOk(Publish(s, t, n, b, x, Cell(key, Some(BLANK), map[]), [c]), s.active)
    ensures LayerMap(Publish(s, t, n, b, x, Cell(key, Some(BLANK), map[]), [c]), s.active) == LayerMap(s, s.active)
  {
    assert Ids([c]) == {c};
    BlankCarries(s, c, key);
    PublishMap(s, t, n, b, x, Cell(key, Some(BLANK), map[]), [c]);
  }

  lemma BlankCarries(s: State, c: Id, key: Key)
    requires c in s.cells && !IsActiveLeaf(s, c)
    ensures Carries(s, Cell(key, Some(BLANK), map[]), [c])
  {
    assert Ids([c]) == {c};
  }

  lemma CopyCarries(s: State, n: Id, b: Nibble, c: Id)
    requires Inv(s) && !Closing(s) && Here(s, n) && n in s.cells && c in s.cells && SlotHolds(s, n, b, c)
    requires s.info[c].layer < s.active
    ensures Walk(s, c)[|Walk(s, c)| - 1] in s.cells
    ensures Carries(s, s.cells[Walk(s, c)[|Walk(s, c)| - 1]], Walk(s, c))
  {
    ActiveTree(s, n);
    CutIsOutdated(s, c);
    ChainCarries(s, c);
  }

  /** Replacing an older child changes no active entry. */
  lemma SupersedeMap(s: State, t: Tid, n: Id, c: Id, x: Id)
    requires AtLoop(s, t, n) && x !in s.cells && Alive(s, c) && SlotHolds(s, n, Bits(s, t, n), c)
    requires s.info[c].layer < s.active
    requires LayerOk(Take(s, t, n, x, SupersedeTurn(s, t, n, c)), s.active) && AllAlive(s, Walk(s, c))
    ensures LayerOk(s, s.active)
    ensures LayerMap(Take(s, t, n, x, SupersedeTurn(s, t, n, c)), s.active) == LayerMap(s, s.active)
  {
    assert LayerOk(s, s.active);
    if s.info[c].kids == 0 && !IsActiveLeaf(s, c) {
      SupersedeEmptyMap(s, t, n, c, x);
    } else {
      SupersedeCopyMap(s, t, n, c, x);
    }
  }

  lemma SupersedeEmptyMap(s: State, t: Tid, n: Id, c: Id, x: Id)
    requires AtLoop(s, t, n) && x !in s.cells && Alive(s, c) && SlotHolds(s, n, Bits(s, t, n), c)
    requires s.info[c].layer < s.active && s.info[c].kids == 0 && !IsActiveLeaf(s, c) && LayerOk(s, s.active)
    requires LayerOk(Take(s, t, n, x, SupersedeTurn(s, t, n, c)), s.active) && AllAlive(s, Walk(s, c))
    ensures LayerMap(Take(s, t, n, x, SupersedeTurn(s, t, n, c)), s.active) == LayerMap(s, s.active)
  {
    EmptyIsOutdated(s, n, Bits(s, t, n), c);
    if s.calls[t].collect {
      assert SupersedeTurn(s, t, n, c) == Cut([c]);
      UnlinkMap(s, t, n, Bits(s, t, n), c);
    } else {
      assert SupersedeTurn(s, t, n, c) == Put(Cell(s.calls[t].key, Some(BLANK), map[]), [c]);
      BlankMap(s, t, n, Bits(s, t, n), c, x, s.calls[t].key);
    }
  }

  lemma SupersedeCopyMap(s: State, t: Tid, n: Id, c: Id, x: Id)
    requires AtLoop(s, t, n) && x !in s.cells && Alive(s, c) && SlotHolds(s, n, Bits(s, t, n), c)
    requires s.info[c].layer < s.active && (s.info[c].kids != 0 || IsActiveLeaf(s, c)) && LayerOk(s, s.active)
    requires LayerOk(Take(s, t, n, x, SupersedeTurn(s, t, n, c)), s.active) && AllAlive(s, Walk(s, c))
    ensures LayerMap(Take(s, t, n, x, SupersedeTurn(s, t, n, c)), s.active) == LayerMap(s, s.active)
  {
    var w := Walk(s, c);
    CopyCarries(s, n, Bits(s, t, n), c);
    assert SupersedeTurn(s, t, n, c) == Put(s.cells[w[|w| - 1]], w);
    ReplaceMap(s, t, n, c, x, s.cells[w[|w| - 1]]);
  }

  lemma SameCellsMap(s: State, u: State, k: nat)
    requires LayerOk(s, k) && LayerOk(u, k) && u.cells == s.cells && u.rootIds[k] == s.rootIds[k] && u.K == s.K
    ensures LayerMap(u, k) == LayerMap(s, k)
  {
    SameTrie(s.cells, Tree(s, k), s.rootIds[k], u.cells, Tree(u, k), s.rootIds[k], s.K, s.rootIds[k]);
  }

  lemma JoinMap(s: State, t: Tid, n: Id, b: Nibble, c: Id, x: Id, p: Key)
    requires Basics(s) && t in s.calls && n in s.cells && c in s.cells && x !in s.cells
    requires p < s.cells[c].prefix && LayerOk(s, s.active)
    requires LayerOk(Publish(s, t, n, b, x, Cell(p, None, map[s.cells[c].prefix[|p|] := c]), []), s.active)
    ensures LayerMap(Publish(s, t, n, b, x, Cell(p, None, map[s.cells[c].prefix[|p|] := c]), []), s.active)
      == LayerMap(s, s.active)
  {
    PublishMap(s, t, n, b, x, Cell(p, None, map[s.cells[c].prefix[|p|] := c]), []);
  }

  lemma LeafMap(s: State, t: Tid, n: Id, b: Nibble, x: Id, key: Key)
    requires Basics(s) && t in s.calls && n in s.cells && x !in s.cells && LayerOk(s, s.active)
    requires LayerOk(Publish(s, t, n, b, x, Cell(key, Some(BLANK), map[]), []), s.active)
    ensures LayerMap(Publish(s, t, n, b, x, Cell(key, Some(BLANK), map[]), []), s.active) == LayerMap(s, s.active)
  {
    PublishMap(s, t, n, b, x, Cell(key, Some(BLANK), map[]), []);
  }

  lemma OlderChildMap(s: State, t: Tid, n: Id, c: Id, x: Id)
    requires AtLoop(s, t, n) && x !in s.cells && Alive(s, c) && s.calls[t].pc.child == Some(c)
    requires s.info[c].layer < s.active && LayerOk(Take(s, t, n, x, SupersedeTurn(s, t, n, c)), s.active)
    ensures LayerOk(s, s.active)
    ensures LayerMap(Take(s, t, n, x, SupersedeTurn(s, t, n, c)), s.active) == LayerMap(s, s.active)
  {
    assert LayerOk(s, s.active);
    WalkAlive(s, c);
    if SlotHolds(s, n, Bits(s, t, n), c) {
      SupersedeMap(s, t, n, c, x);
    } else {
      SameCellsMap(s, Take(s, t, n, x, SupersedeTurn(s, t, n, c)), s.active);
    }
  }

  lemma ChildMap(s: State, t: Tid, n: Id, c: Id, x: Id)
    requires AtLoop(s, t, n) && x !in s.cells && Alive(s, c) && s.calls[t].pc.child == Some(c)
    requires LayerOk(Take(s, t, n, x, ChildTurn(s, t, n, c)), s.active)
    ensures LayerOk(s, s.active)
    ensures LayerMap(Take(s, t, n, x, ChildTurn(s, t, n, c)), s.active) == LayerMap(s, s.active)
  {
    var key, b := s.calls[t].key, Bits(s, t, n);
    var join := MatchLen(s.cells[c].prefix, key);
    assert LayerOk(s, s.active) && NodeOk(s, c);
    if join == |s.cells[c].prefix| && s.info[c].layer != s.active {
      OlderChildMap(s, t, n, c, x);
    } else if join < |s.cells[c].prefix| && !s.calls[t].collect && SlotHolds(s, n, b, c) {
      assert key[..join] < s.cells[c].prefix;
      JoinMap(s, t, n, b, c, x, key[..join]);
    } else {
      SameCellsMap(s, Take(s, t, n, x, ChildTurn(s, t, n, c)), s.active);
    }
  }

  lemma EmptySlotMap(s: State, t: Tid, n: Id, x: Id)
    requires AtLoop(s, t, n) && x !in s.cells
    requires LayerOk(Take(s, t, n, x, EmptyTurn(s, t, n)), s.active)
    ensures LayerOk(s, s.active)
    ensures LayerMap(Take(s, t, n, x, EmptyTurn(s, t, n)), s.active) == LayerMap(s, s.active)
  {
    assert LayerOk(s, s.active);
    if s.calls[t].collect || Bits(s, t, n) in s.cells[n].slots {
      SameCellsMap(s, Take(s, t, n, x, EmptyTurn(s, t, n)), s.active);
    } else {
      LeafMap(s, t, n, Bits(s, t, n), x, s.calls[t].key);
    }
  }

  /** No turn of the loop of `insert` changes an active entry. */
  lemma ChooseMap(s: State, t: Tid, x: Id)
    requires Inv(s) && Enabled(s, DoChoose(t, x)) && LayerOk(ChooseStep(s, t, x), s.active)
    ensures LayerOk(s, s.active)
    ensures LayerMap(ChooseStep(s, t, x), s.active) == LayerMap(s, s.active)
  {
    var n, child := s.calls[t].pc.node, s.calls[t].pc.child;
    assert CallOk(s, t);
    assert !Closing(s);
    HereFacts(s, n);
    if child.Some? {
      CurrentIsAlive(s, child.value);
      ChildMap(s, t, n, child.value, x);
    } else {
      EmptySlotMap(s, t, n, x);
    }
  }

  // ----- refinement of a list of maps -----

  datatype Effect = Nothing | Write(key: Key, entry: Entry) | NewLayer

  /** What a step means for somebody who sees only the maps. */
  function EffectOf(s: State, step: Step): Effect {
    match step
    case DoVisit(t, e) =>
      if && t in s.calls && s.calls[t].pc.Visit? && s.calls[t].pc.node in s.cells
         && s.cells[s.calls[t].pc.node].prefix == s.calls[t].key && !s.calls[t].collect
      then Write(s.calls[t].key, e)
      else Nothing
    case DoBump(_) => NewLayer
    case _ => Nothing
  }

  function Written(m: map<Key, Entry>, key: Key, e: Entry): map<Key, Entry> {
    if e.live then m[key := e] else m - {key}
  }

  /** What an effect does to the map of the active layer. */
  function OnTop(m: map<Key, Entry>, e: Effect): map<Key, Entry> {
    if e.Write? then Written(m, e.key, e.entry) else m
  }

  function Affected(maps: seq<map<Key, Entry>>, e: Effect): seq<map<Key, Entry>>
    requires |maps| > 0
  {
    var top := OnTop(maps[|maps| - 1], e);
    maps[..|maps| - 1] + [top] + if e.NewLayer? then [top] else []
  }

  ghost predicate Represents(s: State, maps: seq<map<Key, Entry>>) {
    && |maps| == s.active + 1
    && forall k: nat | k <= s.active :: LayerOk(s, k) && LayerMap(s, k) == maps[k]
  }

  /** The write at the end of `insert`. */
  lemma WriteMap(s: State, t: Tid, e: Entry, n: Id)
    requires t in s.calls && n in s.cells && LayerOk(s, s.active)
    requires n in Tree(s, s.active) && |s.cells[n].prefix| == s.K
    requires LayerOk(SetPc(s.(cells := s.cells[n := s.cells[n].(entry := Some(e))]), t, Returned), s.active)
    ensures LayerMap(SetPc(s.(cells := s.cells[n := s.cells[n].(entry := Some(e))]), t, Returned), s.active)
         == Written(LayerMap(s, s.active), s.cells[n].prefix, e)
  {
    var u := SetPc(s.(cells := s.cells[n := s.cells[n].(entry := Some(e))]), t, Returned);
    var k, key := s.active, s.cells[n].prefix;
    var m := Written(LayerMap(s, k), key, e);
    assert Tree(u, k) == Tree(s, k);
    assert u.cells == s.cells[n := s.cells[n].(entry := Some(e))] && u.K == s.K;
    forall j | j in LayerMap(u, k) ensures j in m && LayerMap(u, k)[j] == m[j] {
      WrittenHolds(s, u, k, n, e, j);
    }
    forall j | j in m ensures j in LayerMap(u, k) {
      HoldsWritten(s, u, k, n, e, j);
    }
  }

  lemma WrittenHolds(s: State, u: State, k: nat, n: Id, e: Entry, j: Key)
    requires LayerOk(s, k) && LayerOk(u, k) && Tree(u, k) == Tree(s, k) && n in s.cells && n in Tree(s, k) && u.K == s.K
    requires u.cells == s.cells[n := s.cells[n].(entry := Some(e))] && j in LayerMap(u, k)
    ensures var m := Written(LayerMap(s, k), s.cells[n].prefix, e); j in m && LayerMap(u, k)[j] == m[j]
  {
    var q := MappedIsHeld(u, k, j);
    if q != n {
      HeldIsMapped(s, k, q, j, LayerMap(u, k)[j]);
      assert Leads(s.cells, q, n);
    }
  }

  lemma HoldsWritten(s: State, u: State, k: nat, n: Id, e: Entry, j: Key)
    requires LayerOk(s, k) && LayerOk(u, k) && Tree(u, k) == Tree(s, k) && n in s.cells && n in Tree(s, k) && u.K == s.K
    requires u.cells == s.cells[n := s.cells[n].(entry := Some(e))] && |s.cells[n].prefix| == s.K
    requires j in Written(LayerMap(s, k), s.cells[n].prefix, e)
    ensures j in LayerMap(u, k)
  {
    if j == s.cells[n].prefix {
      HeldIsMapped(u, k, n, j, e);
    } else {
      var q := MappedIsHeld(s, k, j);
      HeldIsMapped(u, k, q, j, LayerMap(s, k)[j]);
    }
  }

  lemma VisitShape(s: State, t: Tid, e: Entry)
    requires Enabled(s, DoVisit(t, e)) && Alive(s, s.calls[t].pc.node)
    requires |s.cells[s.calls[t].pc.node].prefix| <= |s.calls[t].key|
    ensures var n, u := s.calls[t].pc.node, VisitStep(s, t, e);
      if EffectOf(s, DoVisit(t, e)).Write? then
        u == SetPc(s.(cells := s.cells[n := s.cells[n].(entry := Some(e))]), t, Returned)
      else
        u == s.(calls := u.calls)
  {
  }

  lemma VisitMap(s: State, t: Tid, e: Entry)
    requires Inv(s) && Enabled(s, DoVisit(t, e)) && LayerOk(VisitStep(s, t, e), s.active)
    ensures LayerOk(s, s.active)
    ensures LayerMap(VisitStep(s, t, e), s.active) ==
      OnTop(LayerMap(s, s.active), EffectOf(s, DoVisit(t, e)))
  {
    var n := s.calls[t].pc.node;
    assert CallOk(s, t);
    assert !Closing(s);
    HereFacts(s, n);
    assert LayerOk(s, s.active);
    VisitShape(s, t, e);
    if EffectOf(s, DoVisit(t, e)).Write? {
      WriteMap(s, t, e, n);
    } else {
      SameCellsMap(s, VisitStep(s, t, e), s.active);
    }
  }

  lemma CopiedRootTrie(c: Arena, T: set<Id>, r: Id, d: Arena, U: set<Id>, x: Id, K: nat)
    requires SearchTree(c, T, r, K) && SearchTree(d, U, x, K) && x !in c && d == c[x := c[r]]
    ensures TreeOf(d, U, x, K, x) == TreeOf(c, T, r, K, r)
  {
    assert Local(d, U, K, x) && Local(c, T, K, r);
    forall b | b in c[r].slots ensures TreeOf(d, U, x, K, d[x].slots[b]) == TreeOf(c, T, r, K, c[r].slots[b]) {
      assert Local(c, T, K, c[r].slots[b]);
      SameTrie(c, T, r, d, U, x, K, c[r].slots[b]);
    }
  }

  /** A new layer starts as a copy. */
  lemma BumpMap(s: State, u: State, x: Id)
    requires LayerOk(s, s.active) && LayerOk(u, s.active + 1)
    requires u.K == s.K && u.rootIds[s.active + 1] == x && x !in s.cells
    requires u.cells == s.cells[x := s.cells[s.rootIds[s.active]]]
    ensures LayerMap(u, s.active + 1) == LayerMap(s, s.active)
  {
    CopiedRootTrie(s.cells, Tree(s, s.active), s.rootIds[s.active], u.cells, Tree(u, s.active + 1), x, s.K);
  }

  lemma BumpKeeps(s: State, u: State, x: Id)
    requires LayerOk(s, s.active) && LayerOk(u, s.active)
    requires u.K == s.K && u.rootIds[s.active] == s.rootIds[s.active] && x !in s.cells
    requires u.cells == s.cells[x := s.cells[s.rootIds[s.active]]]
    ensures LayerMap(u, s.active) == LayerMap(s, s.active)
  {
    var r, k := s.rootIds[s.active], s.active;
    SameTrie(s.cells, Tree(s, k), r, u.cells, Tree(u, k), r, s.K, r);
  }

  lemma BumpMaps(s: State, x: Id)
    requires Inv(s) && Enabled(s, DoBump(x)) && LayersOk(BumpStep(s, x))
    ensures LayerOk(s, s.active) && LayerOk(BumpStep(s, x), s.active) && LayerOk(BumpStep(s, x), s.active + 1)
    ensures LayerMap(BumpStep(s, x), s.active) == LayerMap(BumpStep(s, x), s.active + 1) == LayerMap(s, s.active)
  {
    var u := BumpStep(s, x);
    assert LayerOk(s, s.active);
    CurrentIsAlive(s, s.rootIds[s.active]);
    assert LayerOk(u, s.active) && LayerOk(u, s.active + 1);
    BumpMap(s, u, x);
    BumpKeeps(s, u, x);
  }

  lemma TopMap(s: State, step: Step)
    requires Inv(s) && Enabled(s, step) && LayersOk(Apply(s, step)) && !step.DoBump?
    ensures Apply(s, step).active == s.active
    ensures LayerOk(s, s.active) && LayerOk(Apply(s, step), s.active)
    ensures LayerMap(Apply(s, step), s.active) == OnTop(LayerMap(s, s.active), EffectOf(s, step))
  {
    assert LayerOk(s, s.active);
    StepActive(s, step);
    assert LayerOk(Apply(s, step), s.active);
    if step.DoVisit? {
      VisitMap(s, step.t, step.e);
    } else if step.DoChoose? {
      ChooseMap(s, step.t, step.x);
    } else {
      OtherKeepsCells(s, step);
      SameCellsMap(s, Apply(s, step), s.active);
    }
  }

  lemma StepActive(s: State, step: Step)
    requires Enabled(s, step) && !step.DoBump?
    ensures Apply(s, step).active == s.active
  {
    if step.DoChoose? {
      ChooseActive(s, step.t, step.x);
    } else if !step.DoVisit? {
      OtherKeepsCells(s, step);
    }
  }

  lemma ChooseActive(s: State, t: Tid, x: Id)
    requires Enabled(s, DoChoose(t, x))
    ensures ChooseStep(s, t, x).active == s.active
  {
  }

  lemma OtherKeepsCells(s: State, step: Step)
    requires Enabled(s, step) && !step.DoVisit? && !step.DoChoose? && !step.DoBump?
    ensures var u := Apply(s, step);
      u.cells == s.cells && u.active == s.active && u.rootIds == s.rootIds && u.K == s.K
  {
    if OfSweep(step) {
      SweepKeepsTree(s, step);
    }
  }

  lemma OldMaps(s: State, u: State, maps: seq<map<Key, Entry>>)
    requires Inv(s) && LayersOk(u) && Frozen(s, u) && Represents(s, maps)
    ensures forall k: nat | k < s.active :: LayerOk(u, k) && LayerMap(u, k) == maps[k]
  {
    forall k: nat | k < s.active ensures LayerOk(u, k) && LayerMap(u, k) == maps[k] {
      FrozenLayer(s, u, k);
    }
  }

  lemma NewMaps(u: State, maps: seq<map<Key, Entry>>, e: Effect, active: nat)
    requires |maps| == active + 1 && u.active == (if e.NewLayer? then active + 1 else active)
    requires forall k: nat | k < active :: LayerOk(u, k) && LayerMap(u, k) == maps[k]
    requires LayerOk(u, active) && LayerMap(u, active) == OnTop(maps[active], e)
    requires e.NewLayer? ==> LayerOk(u, active + 1) && LayerMap(u, active + 1) == maps[active]
    ensures Represents(u, Affected(maps, e))
  {
  }

  lemma StepLayers(s: State, step: Step, u: State)
    requires Inv(s) && Enabled(s, step) && u == Apply(s, step)
    ensures LayersOk(u) && Frozen(s, u)
  {
    StepInv(s, step);
    StepFreezes(s, step);
  }

  lemma StepTop(s: State, step: Step, u: State, maps: seq<map<Key, Entry>>)
    requires Inv(s) && Enabled(s, step) && Represents(s, maps) && u == Apply(s, step) && LayersOk(u)
    ensures u.active == if step.DoBump? then s.active + 1 else s.active
    ensures LayerOk(u, s.active) && LayerMap(u, s.active) == OnTop(maps[s.active], EffectOf(s, step))
    ensures step.DoBump? ==> LayerOk(u, s.active + 1) && LayerMap(u, s.active + 1) == maps[s.active]
  {
    if step.DoBump? {
      BumpTop(s, step.x, maps);
    } else {
      TopMap(s, step);
    }
  }

  lemma BumpTop(s: State, x: Id, maps: seq<map<Key, Entry>>)
    requires Inv(s) && Enabled(s, DoBump(x)) && Represents(s, maps) && LayersOk(BumpStep(s, x))
    ensures var u := BumpStep(s, x);
      && u.active == s.active + 1 && LayerOk(u, s.active) && LayerOk(u, s.active + 1)
      && LayerMap(u, s.active) == LayerMap(u, s.active + 1) == maps[s.active]
  {
    BumpMaps(s, x);
    CurrentIsAlive(s, s.rootIds[s.active]);
  }

  /** One step of the trie is one step, or none, of the list of maps. */
  lemma StepEffect(s: State, step: Step, maps: seq<map<Key, Entry>>)
    requires Inv(s) && Enabled(s, step) && Represents(s, maps)
    ensures Represents(Apply(s, step), Affected(maps, EffectOf(s, step)))
  {
    var u := Apply(s, step);
    StepLayers(s, step, u);
    OldMaps(s, u, maps);
    StepTop(s, step, u, maps);
    NewMaps(u, maps, EffectOf(s, step), s.active);
  }

  /** The effects of a run, applied in order. */
  ghost function Replay(s: State, run: seq<Step>, maps: seq<map<Key, Entry>>): seq<map<Key, Entry>>
    requires |maps| > 0
    decreases |run|
  {
    if run == [] || !Enabled(s, run[0]) then maps
    else Replay(Apply(s, run[0]), run[1..], Affected(maps, EffectOf(s, run[0])))
  }

  lemma {:induction false} RunEffect(s: State, run: seq<Step>, u: State, maps: seq<map<Key, Entry>>)
    requires Inv(s) && Executes(s, run, u) && Represents(s, maps)
    ensures Represents(u, Replay(s, run, maps))
    decreases |run|
  {
    if run != [] {
      StepInv(s, run[0]);
      StepEffect(s, run[0], maps);
      RunEffect(Apply(s, run[0]), run[1..], u, Affected(maps, EffectOf(s, run[0])));
    }
  }

  /**
   Refinement: whatever the schedule, after any run the tries under the roots
   hold exactly what the leaf writes and layer bumps of the run amount to when
   carried out one after the other on plain maps.
   */
  lemma RefinesMaps(s: State, K: nat, run: seq<Step>, u: State)
    requires Init(s, K) && Executes(s, run, u)
    ensures Represents(u, Replay(s, run, [map[]]))
  {
    InitInv(s, K);
    assert LayerOk(s, 0);
    if key :| key in LayerMap(s, 0) {
      var n := MappedIsHeld(s, 0, key);
      assert false;
    }
    assert LayerMap(s, 0) == map[];
    RunEffect(s, run, u, [map[]]);
  }
}
