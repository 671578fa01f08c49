/**
 What a collecting call collects.

 A call with `do_gc` set is meant to take an entry that does not count out of the
 active layer.  It does so only if the entry hangs loose: its leaf belongs to an older
 layer, and the node above is not an older one with this leaf as its only child.  In
 that case the whole one-child chain is replaced by a copy of the leaf instead.
 */
module LayeredCollect {

  import opened Nibbles
  import opened Tries
  import opened SearchTrees
  import opened LayeredTrie
  import opened LayeredSafety
  import opened LayeredRuns
  import opened LayeredSweep
  import opened LayeredMaps
  import opened LayeredCalls
  import opened LayeredTraps
  import opened LayeredProgress

  /** The leaf of the key in the active layer. */
  predicate LeafAt(s: State, z: Id, key: Key) {
    z in Tree(s, s.active) && z in s.cells && s.cells[z].prefix == key && |key| == s.K
  }

  /** `m` is a node of an older layer whose only child is `z`. */
  predicate Holds1(s: State, m: Id, z: Id) {
    && m in Tree(s, s.active) && m in s.cells && m in s.info && s.info[m].layer < s.active
    && |s.cells[m].slots| == 1 && HasChild(s.cells, m, z)
  }

  /** The leaf is of the active layer, or counts, or is the end of an older one-child chain. */
  ghost predicate Fixed(s: State, z: Id)
    requires z in s.cells && z in s.info
  {
    s.info[z].layer == s.active || IsActiveLeaf(s, z) || exists m :: Holds1(s, m, z)
  }

  ghost predicate Has(s: State, key: Key) {
    exists z :: LeafAt(s, z, key)
  }

  /** The key has a leaf in the active layer that a collecting call does not remove. */
  ghost predicate Stuck(s: State, key: Key) {
    s.cells.Keys == s.info.Keys && exists z :: LeafAt(s, z, key) && Fixed(s, z)
  }

  // ----- steps that leave the tree alone -----

  ghost predicate SameLayer(s: State, u: State) {
    && u.active == s.active && u.K == s.K && u.cells == s.cells && Tree(u, u.active) == Tree(s, s.active)
    && u.info.Keys == s.info.Keys
    && forall n | n in s.info :: u.info[n].layer == s.info[n].layer
  }

  lemma SameLayerHas(s: State, u: State, key: Key)
    requires SameLayer(s, u)
    ensures Has(u, key) <==> Has(s, key)
    ensures Stuck(u, key) <==> Stuck(s, key)
  {
    if z :| LeafAt(s, z, key) { assert LeafAt(u, z, key); }
    if z :| LeafAt(u, z, key) { assert LeafAt(s, z, key); }
    forall m, z ensures Holds1(s, m, z) <==> Holds1(u, m, z) {
    }
    if z :| LeafAt(s, z, key) && z in s.info && Fixed(s, z) { SameFixed(s, u, z); }
    if z :| LeafAt(u, z, key) && z in u.info && Fixed(u, z) { SameFixed(s, u, z); }
  }

  lemma SameFixed(s: State, u: State, z: Id)
    requires SameLayer(s, u) && z in s.cells && z in s.info
    ensures Fixed(u, z) <==> Fixed(s, z)
  {
    forall m ensures Holds1(s, m, z) <==> Holds1(u, m, z) {
    }
  }

  lemma VisitSameLayer(s: State, t: Tid, e: Entry)
    requires InFlight(s, t) && Enabled(s, DoVisit(t, e)) && s.calls[t].collect
    ensures SameLayer(s, VisitStep(s, t, e))
  {
  }

  lemma CommitSameLayer(s: State, t: Tid)
    requires InFlight(s, t) && Enabled(s, DoCommit(t))
    ensures SameLayer(s, CommitStep(s, t))
  {
    StillOpen(s, t);
  }

  lemma StampSameLayer(s: State, t: Tid)
    requires InFlight(s, t) && Enabled(s, DoStamp(t))
    ensures SameLayer(s, StampStep(s, t))
  {
    StillOpen(s, t);
    var z := s.calls[t].pc.todo[0];
    assert z == Todo(s.calls[t].pc)[0];
    assert PendingOk(s, z);
  }

  // ----- a chain gives way to a copy of its end -----

  /** The chain of older nodes from `c`, below `n`, has been replaced by `x`, a copy of its end. */
  ghost predicate Collapsed(s: State, u: State, n: Id, c: Id, x: Id) {
    && Inv(s) && !Closing(s) && Here(s, n) && n in s.cells && c in Tree(s, s.active) && c in s.cells && x !in s.cells
    && s.info[c].layer < s.active && HasChild(s.cells, n, c)
    && (s.info[c].kids != 0 || IsActiveLeaf(s, c))
    && ChainEnd(s, c) in s.cells
    && u.active == s.active && u.K == s.K
    && Tree(u, s.active) == Tree(s, s.active) - Ids(Walk(s, c)) + {x}
    && (forall m | m in s.cells && m != n :: m in u.cells && u.cells[m] == s.cells[m])
    && n in u.cells && u.cells[n].prefix == s.cells[n].prefix && u.cells[n].entry == s.cells[n].entry
    && x in u.cells && u.cells[x] == s.cells[ChainEnd(s, c)]
    && u.cells.Keys == u.info.Keys
    && (forall m | m in s.info :: m in u.info && u.info[m].layer == s.info[m].layer)
    && x in u.info && u.info[x].layer == s.active
  }

  /** The nodes of the chain: all but the last have the next one as only child. */
  lemma ChainFacts(s: State, c: Id, i: nat)
    requires Inv(s) && !Closing(s) && c in Tree(s, s.active) && c in s.cells && s.info[c].layer < s.active
    requires i < |Walk(s, c)|
    ensures var w := Walk(s, c);
      && w[i] in Tree(s, s.active) && w[i] in s.cells && w[i] in s.info && s.info[w[i]].layer < s.active
      && (i < |w| - 1 ==> Holds1(s, w[i], w[i + 1]))
      && (i == |w| - 1 ==> |s.cells[w[i]].slots| != 1)
  {
    var w := Walk(s, c);
    CutIsOutdated(s, c);
    WalkIsChain(s, s.active, c);
    assert w[i] in Ids(w);
    assert NodeOk(s, w[i]);
    if i < |w| - 1 { assert OnlySlot(s.cells, w[i + 1 - 1], w[i + 1]); }
  }

  /** A leaf in the chain is its end. */
  lemma LeafIsEnd(s: State, c: Id, z: Id, key: Key)
    requires Inv(s) && !Closing(s) && c in Tree(s, s.active) && c in s.cells && s.info[c].layer < s.active
    requires z in Walk(s, c) && LeafAt(s, z, key)
    ensures z == ChainEnd(s, c)
  {
    var i :| 0 <= i < |Walk(s, c)| && Walk(s, c)[i] == z;
    ChainFacts(s, c, i);
    assert LayerOk(s, s.active);
    assert Local(s.cells, Tree(s, s.active), s.K, z);
  }

  /** What an older node outside the chain holds it still holds. */
  lemma HolderOutside(s: State, u: State, n: Id, c: Id, x: Id, m: Id, z: Id)
    requires Collapsed(s, u, n, c, x) && z !in Walk(s, c)
    ensures Holds1(s, m, z) ==> Holds1(u, m, z)
  {
    if Holds1(s, m, z) && m in Walk(s, c) {
      var i :| 0 <= i < |Walk(s, c)| && Walk(s, c)[i] == m;
      ChainFacts(s, c, i);
      if i < |Walk(s, c)| - 1 {
        assert OnlySlot(s.cells, m, Walk(s, c)[i + 1]);
        var b :| b in s.cells[m].slots && s.cells[m].slots[b] == z;
        OnlyChild(s.cells, m, Walk(s, c)[i + 1], b);
        assert false;
      }
    }
  }

  lemma CollapseKeepsStuck(s: State, u: State, n: Id, c: Id, x: Id, key: Key, z: Id)
    requires Collapsed(s, u, n, c, x) && LeafAt(s, z, key) && z in s.info && Fixed(s, z)
    ensures Stuck(u, key)
  {
    if z in Walk(s, c) {
      LeafIsEnd(s, c, z, key);
      assert LeafAt(u, x, key) && Fixed(u, x);
    } else {
      if m :| Holds1(s, m, z) { HolderOutside(s, u, n, c, x, m, z); }
      assert LeafAt(u, z, key);
      assert z != n ==> u.cells[z] == s.cells[z];
      assert Fixed(u, z);
    }
  }

  lemma CollapseWasStuck(s: State, u: State, n: Id, c: Id, x: Id, key: Key, z: Id)
    requires Collapsed(s, u, n, c, x) && LeafAt(u, z, key)
    ensures Has(s, key)
    ensures z in u.info && Fixed(u, z) ==> Stuck(s, key)
  {
    if z == x {
      var w := Walk(s, c);
      ChainFacts(s, c, |w| - 1);
      assert LeafAt(s, w[|w| - 1], key);
      EndIsFixed(s, c, key);
    } else {
      assert LeafAt(s, z, key);
      if z in u.info && Fixed(u, z) {
        if m :| Holds1(u, m, z) {
          assert m != x && m != n && Holds1(s, m, z);
        }
        assert Fixed(s, z);
      }
    }
  }

  /** A leaf that is copied was fixed. */
  lemma EndIsFixed(s: State, c: Id, key: Key)
    requires Inv(s) && !Closing(s) && c in Tree(s, s.active) && c in s.cells && s.info[c].layer < s.active
    requires LeafAt(s, ChainEnd(s, c), key) && (s.info[c].kids != 0 || IsActiveLeaf(s, c))
    ensures Stuck(s, key)
  {
    var w := Walk(s, c);
    ChainFacts(s, c, |w| - 1);
    if |w| > 1 {
      ChainFacts(s, c, |w| - 2);
    } else {
      assert LayerOk(s, s.active) && NodeOk(s, c);
      assert Local(s.cells, Tree(s, s.active), s.K, c);
    }
    assert Fixed(s, w[|w| - 1]);
  }

  lemma CollapseIsExact(s: State, u: State, n: Id, c: Id, x: Id, key: Key)
    requires Collapsed(s, u, n, c, x)
    ensures Stuck(u, key) <==> Stuck(s, key)
    ensures Has(u, key) ==> Has(s, key)
  {
    if z :| LeafAt(s, z, key) && z in s.info && Fixed(s, z) { CollapseKeepsStuck(s, u, n, c, x, key, z); }
    if z :| LeafAt(u, z, key) && z in u.info && Fixed(u, z) { CollapseWasStuck(s, u, n, c, x, key, z); }
    if z :| LeafAt(u, z, key) { CollapseWasStuck(s, u, n, c, x, key, z); }
  }

  // ----- an empty node is unlinked -----

  /** The node `c` without children, below `n`, has been taken out. */
  ghost predicate Unlinked(s: State, u: State, n: Id, c: Id) {
    && Inv(s) && !Closing(s) && Here(s, n) && n in s.cells && c in Tree(s, s.active) && c in s.cells
    && s.info[c].layer < s.active && HasChild(s.cells, n, c) && s.info[c].kids == 0 && !IsActiveLeaf(s, c)
    && u.active == s.active && u.K == s.K && u.cells.Keys == s.cells.Keys == u.info.Keys
    && Tree(u, s.active) == Tree(s, s.active) - {c}
    && (forall m | m in s.cells && m != n :: u.cells[m] == s.cells[m])
    && u.cells[n].prefix == s.cells[n].prefix && u.cells[n].entry == s.cells[n].entry
    && (forall m | m in s.info :: m in u.info && u.info[m].layer == s.info[m].layer)
  }

  lemma UnlinkKeepsStuck(s: State, u: State, n: Id, c: Id, key: Key, z: Id)
    requires Unlinked(s, u, n, c) && LeafAt(s, z, key) && z in s.info && Fixed(s, z)
    ensures Stuck(u, key)
  {
    assert LayerOk(s, s.active);
    if m :| Holds1(s, m, z) {
      var b :| b in s.cells[m].slots && s.cells[m].slots[b] == z;
      var d :| d in s.cells[n].slots && s.cells[n].slots[d] == c;
      if z == c { UniqueParent(s.cells, Tree(s, s.active), s.rootIds[s.active], s.K, m, b, n, d); }
      assert NodeOk(s, c);
      assert m != c && m != n && Holds1(u, m, z);
    }
    assert z != c && LeafAt(u, z, key);
    assert Fixed(u, z);
  }

  lemma UnlinkIsExact(s: State, u: State, n: Id, c: Id, key: Key)
    requires Unlinked(s, u, n, c)
    ensures Stuck(u, key) <==> Stuck(s, key)
    ensures Has(u, key) ==> Has(s, key)
  {
    if z :| LeafAt(s, z, key) && z in s.info && Fixed(s, z) { UnlinkKeepsStuck(s, u, n, c, key, z); }
    if z :| LeafAt(u, z, key) && z in u.info && Fixed(u, z) { UnlinkWasStuck(s, u, n, c, key, z); }
    UnlinkHas(s, u, n, c, key);
  }

  lemma UnlinkHas(s: State, u: State, n: Id, c: Id, key: Key)
    requires Unlinked(s, u, n, c)
    ensures Has(u, key) ==> Has(s, key)
  {
    if z :| LeafAt(u, z, key) { assert LeafAt(s, z, key); }
  }

  lemma UnlinkWasStuck(s: State, u: State, n: Id, c: Id, key: Key, z: Id)
    requires Unlinked(s, u, n, c) && LeafAt(u, z, key) && z in u.info && Fixed(u, z)
    ensures Stuck(s, key)
  {
    assert LeafAt(s, z, key);
    if m :| Holds1(u, m, z) { assert m != n && Holds1(s, m, z); }
    assert Fixed(s, z);
  }

  lemma NoLeafBelow(s: State, c: Id, z: Id)
    requires Inv(s) && c in Tree(s, s.active) && c in s.cells && s.info[c].kids == 0
    requires z in Tree(s, s.active) && z in s.cells && s.cells[c].prefix <= s.cells[z].prefix
    ensures z == c
  {
    assert LayerOk(s, s.active) && NodeOk(s, c);
    assert Leads(s.cells, c, z);
  }

  /** If the unlinked node was on the way of the key, the key has no leaf any more. */
  lemma UnlinkClears(s: State, u: State, n: Id, c: Id, key: Key)
    requires Unlinked(s, u, n, c) && s.cells[c].prefix <= key
    ensures !Has(u, key)
  {
    if z :| LeafAt(u, z, key) {
      NoLeafBelow(s, c, z);
      assert false;
    }
  }

  // ----- a turn of the loop -----

  /** A collecting call in flight that has seen what its slot holds; once it has unlinked a node its key has no leaf. */
  ghost predicate Watched(s: State, t: Tid) {
    && InFlight(s, t) && s.calls[t].collect
    && (s.calls[t].pc.Choose? ==> UpToDate(s, t))
    && (s.calls[t].pc.Stamp? && s.calls[t].pc.next.None? ==> !Has(s, s.calls[t].key))
  }

  /** No cell on the way of the key is where the key leads next. */
  lemma NoLeafAside(s: State, t: Tid, n: Id, key: Key)
    requires Inv(s) && Here(s, n) && n in s.cells && s.cells[n].prefix < key
    requires var b := key[|s.cells[n].prefix|];
      b in s.cells[n].slots ==> s.cells[n].slots[b] in s.cells && !(s.cells[s.cells[n].slots[b]].prefix <= key)
    ensures !Has(s, key)
  {
    if z :| LeafAt(s, z, key) {
      ActiveTree(s, n);
      var _ := Leads(s.cells, n, z);
      assert false;
    }
  }

  /** What one turn of a watched call does. */
  lemma TurnCollects(s: State, t: Tid, x: Id)
    requires Watched(s, t) && Enabled(s, DoChoose(t, x))
    ensures var u, key := ChooseStep(s, t, x), s.calls[t].key;
      && (Stuck(u, key) <==> Stuck(s, key)) && (Has(u, key) ==> Has(s, key))
      && t in u.calls
      && (u.calls[t].pc.Returned? || (u.calls[t].pc.Stamp? && u.calls[t].pc.next.None?) ==> !Has(u, key))
      && !u.calls[t].pc.Choose?
  {
    var n, u, turn := s.calls[t].pc.node, ChooseStep(s, t, x), TurnOf(s, t);
    StillOpen(s, t);
    HereFacts(s, n);
    TurnLeadsDown(s, t, x);
    TakeMoves(s, t, x);
    match turn
    case Move(pc) =>
      assert u == SetPc(s, t, pc);
      SameLayerHas(s, u, s.calls[t].key);
      if pc.Returned? { MoveReturns(s, t, n); SameLayerHas(s, u, s.calls[t].key); }
    case Put(cell, gone) =>
      var c := PutCollapses(s, t, x, n);
      CollapseIsExact(s, u, n, c, x, s.calls[t].key);
    case Cut(gone) =>
      var c := CutUnlinks(s, t, x, n);
      UnlinkIsExact(s, u, n, c, s.calls[t].key);
      UnlinkClears(s, u, n, c, s.calls[t].key);
  }

  lemma MoveReturns(s: State, t: Tid, n: Id)
    requires Watched(s, t) && s.calls[t].pc.Choose? && s.calls[t].pc.node == n
    requires Alive(s, n) && Here(s, n) && TurnOf(s, t) == Move(Returned)
    ensures !Has(s, s.calls[t].key)
  {
    StillOpen(s, t);
    var key := s.calls[t].key;
    var b := key[|s.cells[n].prefix|];
    if b in s.cells[n].slots {
      var c := s.cells[n].slots[b];
      assert MatchLen(s.cells[c].prefix, key) < |s.cells[c].prefix|;
    }
    NoLeafAside(s, t, n, key);
  }

  /** A collecting call swaps a slot only where it holds a node of an older layer on the way of the key. */
  lemma SwapsOlder(s: State, t: Tid, n: Id) returns (c: Id)
    requires Watched(s, t) && s.calls[t].pc.Choose? && s.calls[t].pc.node == n
    requires TurnOf(s, t).Put? || TurnOf(s, t).Cut?
    ensures AtLoop(s, t, n) && Here(s, n) && c in s.cells && s.info[c].layer < s.active && Alive(s, c)
    ensures SlotHolds(s, n, Bits(s, t, n), c) && s.cells[c].prefix <= s.calls[t].key
    ensures TurnOf(s, t) == SupersedeTurn(s, t, n, c) && AllAlive(s, Walk(s, c)) && c in Tree(s, s.active)
  {
    StillOpen(s, t);
    HereFacts(s, n);
    c := s.calls[t].pc.child.value;
    CurrentIsAlive(s, c);
    assert NodeOk(s, c);
    ActiveTree(s, n);
  }

  lemma PutCollapses(s: State, t: Tid, x: Id, n: Id) returns (c: Id)
    requires Watched(s, t) && Enabled(s, DoChoose(t, x)) && s.calls[t].pc.node == n && TurnOf(s, t).Put?
    ensures Collapsed(s, ChooseStep(s, t, x), n, c, x)
  {
    c := SwapsOlder(s, t, n);
    CutIsOutdated(s, c);
    ChainEndIsLonger(s, c);
    var b, cell, w := Bits(s, t, n), s.cells[ChainEnd(s, c)], Walk(s, c);
    assert ChooseStep(s, t, x) == Publish(s, t, n, b, x, cell, w);
    PublishTree(s, t, n, b, x, cell, w);
    PublishCells(s, t, n, b, x, cell, w);
    PublishLayers(s, t, n, b, x, cell, w);
  }

  lemma PublishLayers(s: State, t: Tid, n: Id, b: Nibble, x: Id, cell: Cell, gone: seq<Id>)
    requires t in s.calls && n in s.cells && n in s.info && s.cells.Keys == s.info.Keys && x !in s.cells
    ensures var u := Publish(s, t, n, b, x, cell, gone);
      && u.cells.Keys == u.info.Keys && x in u.info && u.info[x].layer == s.active
      && forall m | m in s.info :: m in u.info && u.info[m].layer == s.info[m].layer
  {
  }

  lemma CutUnlinks(s: State, t: Tid, x: Id, n: Id) returns (c: Id)
    requires Watched(s, t) && Enabled(s, DoChoose(t, x)) && s.calls[t].pc.node == n && TurnOf(s, t).Cut?
    ensures Unlinked(s, ChooseStep(s, t, x), n, c) && s.cells[c].prefix <= s.calls[t].key
  {
    c := SwapsOlder(s, t, n);
    EmptyIsOutdated(s, n, Bits(s, t, n), c);
    var u := Unlink(s, t, n, Bits(s, t, n), [c]);
    assert ChooseStep(s, t, x) == u;
    UnlinkTree(s, t, n, Bits(s, t, n), c);
    UnlinkCells(s, t, n, Bits(s, t, n), c);
  }

  lemma UnlinkTree(s: State, t: Tid, n: Id, b: Nibble, c: Id)
    requires Basics(s) && t in s.calls && n in s.cells && Outdated(s, {c})
    ensures Tree(Unlink(s, t, n, b, [c]), s.active) == Tree(s, s.active) - {c}
  {
    var u := Unlink(s, t, n, b, [c]);
    UnlinkSwaps(s, t, n, b, c);
    SwapShifts(s, u, t, n, {c}, {});
    SwapTrees(s, u, n, {c}, {}, s.active);
    assert Tree(s, s.active) - {c} + {} == Tree(s, s.active) - {c};
  }

  lemma UnlinkCells(s: State, t: Tid, n: Id, b: Nibble, c: Id)
    requires t in s.calls && n in s.cells && n in s.info && s.cells.Keys == s.info.Keys
    ensures var u := Unlink(s, t, n, b, [c]);
      && u.active == s.active && u.K == s.K && u.cells.Keys == s.cells.Keys == u.info.Keys
      && (forall m | m in s.cells && m != n :: u.cells[m] == s.cells[m])
      && u.cells[n].prefix == s.cells[n].prefix && u.cells[n].entry == s.cells[n].entry
      && forall m | m in s.info :: m in u.info && u.info[m].layer == s.info[m].layer
  {
  }

  // ----- runs -----

  lemma WatchedVisit(s: State, t: Tid, e: Entry)
    requires Watched(s, t) && Enabled(s, DoVisit(t, e))
    ensures var u, key := VisitStep(s, t, e), s.calls[t].key;
      && (Stuck(u, key) <==> Stuck(s, key)) && (Has(u, key) ==> Has(s, key)) && t in u.calls
      && (u.calls[t].pc.Returned? ==> Stuck(u, key))
      && (u.calls[t].pc.Choose? ==> UpToDate(u, t)) && !u.calls[t].pc.Stamp?
  {
    var n, key := s.calls[t].pc.node, s.calls[t].key;
    StillOpen(s, t);
    HereFacts(s, n);
    VisitSameLayer(s, t, e);
    SameLayerHas(s, VisitStep(s, t, e), key);
    VisitOutcome(s, t, e);
    if s.cells[n].prefix == key {
      assert LeafAt(s, n, key) && Fixed(s, n);
    } else if s.cells[n].prefix <= key {
      assert VisitStep(s, t, e) == Reload(s, t, n, key[|s.cells[n].prefix|]);
    }
  }

  lemma WatchedCommit(s: State, t: Tid)
    requires Watched(s, t) && Enabled(s, DoCommit(t))
    ensures var u, key := CommitStep(s, t), s.calls[t].key;
      && (Stuck(u, key) <==> Stuck(s, key)) && (Has(u, key) ==> Has(s, key)) && t in u.calls
      && !Done(u.calls[t]) && !u.calls[t].pc.Choose? && (u.calls[t].pc.Stamp? ==> u.calls[t].pc.next.Some?)
  {
    StillOpen(s, t);
    HereFacts(s, s.calls[t].pc.published);
    CommitSameLayer(s, t);
    SameLayerHas(s, CommitStep(s, t), s.calls[t].key);
  }

  lemma WatchedStamp(s: State, t: Tid)
    requires Watched(s, t) && Enabled(s, DoStamp(t))
    ensures var u, key := StampStep(s, t), s.calls[t].key;
      && (Stuck(u, key) <==> Stuck(s, key)) && (Has(u, key) ==> Has(s, key)) && t in u.calls
      && (u.calls[t].pc.Returned? ==> !Has(u, key)) && !u.calls[t].pc.Choose?
      && (u.calls[t].pc.Stamp? && u.calls[t].pc.next.None? ==> !Has(u, key))
  {
    var z := s.calls[t].pc.todo[0];
    StillOpen(s, t);
    assert z == Todo(s.calls[t].pc)[0];
    assert PendingOk(s, z);
    CurrentIsAlive(s, z);
    StampSameLayer(s, t);
    SameLayerHas(s, StampStep(s, t), s.calls[t].key);
  }

  /** How a step of the call leaves the leaf of its key. */
  ghost predicate Collects(s: State, u: State, t: Tid) {
    && t in s.calls && t in u.calls && u.calls[t].key == s.calls[t].key
    && var key := s.calls[t].key;
    && (Stuck(u, key) <==> Stuck(s, key)) && (Has(u, key) ==> Has(s, key))
    && (u.calls[t].pc.Returned? ==> (Has(u, key) <==> Stuck(u, key)))
    && (!Done(u.calls[t]) ==> Watched(u, t))
  }

  lemma StepCollects(s: State, step: Step, t: Tid)
    requires Watched(s, t) && Enabled(s, step) && By(step, t)
    ensures Collects(s, Apply(s, step), t)
  {
    StepInv(s, step);
    OwnStepKeepsCall(s, step, t);
    StuckIsThere(Apply(s, step), s.calls[t].key);
    match step
    case DoVisit(_, e) => WatchedVisit(s, t, e);
    case DoChoose(_, x) => TurnCollects(s, t, x);
    case DoCommit(_) => WatchedCommit(s, t);
    case DoStamp(_) => WatchedStamp(s, t);
  }

  lemma StuckIsThere(s: State, key: Key)
    ensures Stuck(s, key) ==> Has(s, key)
  {
  }

  lemma {:induction false} AloneCollects(s: State, run: seq<Step>, u: State, t: Tid)
    requires Watched(s, t) && Executes(s, run, u) && Alone(run, t) && t in u.calls && u.calls[t].pc.Returned?
    ensures Has(u, s.calls[t].key) <==> Stuck(s, s.calls[t].key)
    decreases |run|
  {
    var v := Apply(s, run[0]);
    StepCollects(s, run[0], t);
    if Done(v.calls[t]) {
      NothingAfter(v, run[1..], u, t);
    } else {
      AloneCollects(v, run[1..], u, t);
    }
  }

  /** A call that has ended takes no step. */
  lemma NothingAfter(s: State, run: seq<Step>, u: State, t: Tid)
    requires t in s.calls && Done(s.calls[t]) && Executes(s, run, u) && Alone(run, t)
    ensures u == s
  {
    if run != [] {
      assert false;
    }
  }

  /** A leaf counts exactly if its key is in the map of the layer. */
  lemma CountsIfMapped(s: State, z: Id, key: Key)
    requires LayerOk(s, s.active) && LeafAt(s, z, key)
    ensures IsActiveLeaf(s, z) <==> key in LayerMap(s, s.active)
  {
    if IsActiveLeaf(s, z) {
      HeldIsMapped(s, s.active, z, key, s.cells[z].entry.value);
    }
    if key in LayerMap(s, s.active) {
      var y := MappedIsHeld(s, s.active, key);
      assert Leads(s.cells, y, z);
    }
  }

  /** The key has a leaf of the active layer itself, or one that is the only child of an older node. */
  ghost predicate Clings(s: State, key: Key) {
    exists z :: LeafAt(s, z, key) && z in s.info && (s.info[z].layer == s.active || exists m :: Holds1(s, m, z))
  }

  lemma StuckMeans(s: State, key: Key)
    requires Inv(s)
    ensures LayerOk(s, s.active) && (Stuck(s, key) <==> key in LayerMap(s, s.active) || Clings(s, key))
  {
    assert LayerOk(s, s.active);
    if key in LayerMap(s, s.active) {
      var y := MappedIsHeld(s, s.active, key);
      assert LeafAt(s, y, key);
      CountsIfMapped(s, y, key);
      assert Fixed(s, y);
    }
    if z :| LeafAt(s, z, key) && z in s.info && Fixed(s, z) { CountsIfMapped(s, z, key); }
    if z :| LeafAt(s, z, key) && z in s.info && (s.info[z].layer == s.active || exists m :: Holds1(s, m, z)) {
      assert Fixed(s, z);
    }
  }

  /**
   What is collected: once a collecting call that was left alone has returned, the active
   layer has a leaf for its key if and only if the key counted before, or had a leaf that
   belonged to the layer or was the only child of an older node.
   */
  lemma CollectsExactly(z: State, K: nat, before: seq<Step>, s: State, t: Tid, key: Key, run: seq<Step>, u: State)
    requires Init(z, K) && Executes(z, before, s) && Enabled(s, DoBegin(t, key, true))
    requires Executes(Begin(s, t, key, true), run, u) && Alone(run, t) && t in u.calls && u.calls[t].pc.Returned?
    ensures LayerOk(s, s.active)
    ensures Has(u, key) <==> key in LayerMap(s, s.active) || Clings(s, key)
  {
    Reached(z, K, before, s);
    StuckMeans(s, key);
    StuckStays(s, t, key, run, u);
  }

  lemma StuckStays(s: State, t: Tid, key: Key, run: seq<Step>, u: State)
    requires Inv(s) && Enabled(s, DoBegin(t, key, true))
    requires Executes(Begin(s, t, key, true), run, u) && Alone(run, t) && t in u.calls && u.calls[t].pc.Returned?
    ensures Has(u, key) <==> Stuck(s, key)
  {
    var b := Begin(s, t, key, true);
    StepInv(s, DoBegin(t, key, true));
    assert SameLayer(s, b);
    SameLayerHas(s, b, key);
    AloneCollects(b, run, u, t);
  }
}
