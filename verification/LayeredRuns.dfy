/**
 Every step of the layered trie keeps the invariant; what that means for runs.
 */
module LayeredRuns {

  import opened Nibbles
  import opened Tries
  import opened SearchTrees
  import opened LayeredTrie
  import opened LayeredSafety

  // ----- one turn of the loop of `insert` -----

  lemma ReloadInv(s: State, t: Tid, n: Id)
    requires AtLoop(s, t, n)
    ensures Inv(Reload(s, t, n, Bits(s, t, n)))
  {
    ReloadOk(s, t, n);
    var b := Bits(s, t, n);
    PcInv(s, t, Choose(n, if b in s.cells[n].slots then Some(s.cells[n].slots[b]) else None));
  }

  lemma ActiveTree(s: State, n: Id)
    requires Inv(s) && Here(s, n)
    ensures |s.rootIds| == s.active + 1
    ensures SearchTree(s.cells, Tree(s, s.active), s.rootIds[s.active], s.K)
    ensures n in s.cells && Local(s.cells, Tree(s, s.active), s.K, n)
  {
    assert LayerOk(s, s.active);
  }

  lemma EmptySlotInv(s: State, t: Tid, n: Id, x: Id)
    requires AtLoop(s, t, n) && x !in s.cells
    ensures Inv(Take(s, t, n, x, EmptyTurn(s, t, n)))
  {
    var key, b := s.calls[t].key, Bits(s, t, n);
    if s.calls[t].collect {
      PcInv(s, t, Returned);
    } else if b in s.cells[n].slots {
      ReloadInv(s, t, n);
    } else {
      var leaf := Cell(key, Some(BLANK), map[]);
      ActiveTree(s, n);
      AddLeaf(s.cells, Tree(s, s.active), s.rootIds[s.active], s.K, n, x, leaf);
      assert Tree(s, s.active) - Ids([]) + {x} == Tree(s, s.active) + {x};
      PublishInv(s, t, n, x, leaf, []);
    }
  }

  lemma JoinInv(s: State, t: Tid, n: Id, c: Id, x: Id)
    requires AtLoop(s, t, n) && x !in s.cells && c in s.cells
    requires SlotHolds(s, n, Bits(s, t, n), c)
    requires MatchLen(s.cells[c].prefix, s.calls[t].key) < |s.cells[c].prefix|
    ensures
      var join := MatchLen(s.cells[c].prefix, s.calls[t].key);
      Inv(Publish(s, t, n, Bits(s, t, n), x,
                  Cell(s.calls[t].key[..join], None, map[s.cells[c].prefix[join] := c]), []))
  {
    var key, b := s.calls[t].key, Bits(s, t, n);
    var join := MatchLen(s.cells[c].prefix, key);
    var p := key[..join];
    ActiveTree(s, n);
    assert Under(s.cells[n].prefix, b, p) && p < s.cells[c].prefix by {
      JoinLength(s.cells[n].prefix, b, s.cells[c].prefix, key);
    }
    Join(s.cells, Tree(s, s.active), s.rootIds[s.active], s.K, n, b, x, p);
    assert Tree(s, s.active) - Ids([]) + {x} == Tree(s, s.active) + {x};
    PublishInv(s, t, n, x, Cell(p, None, map[s.cells[c].prefix[join] := c]), []);
  }

  lemma CutIsOutdated(s: State, c: Id)
    requires Inv(s) && !Closing(s) && c in Tree(s, s.active) && c in s.cells && s.info[c].layer < s.active
    ensures Outdated(s, Ids(Walk(s, c)))
    ensures forall i, j | 0 <= i < j < |Walk(s, c)| :: Walk(s, c)[i] != Walk(s, c)[j]
    ensures Chain(s.cells, Walk(s, c)) && Ids(Walk(s, c)) <= Tree(s, s.active)
  {
    var w := Walk(s, c);
    WalkDistinct(s, c);
    WalkAlive(s, c);
    forall i | i in Ids(w) ensures i in s.info && i !in s.doomed && s.info[i].superseded == NEVER
      && s.info[i].layer < s.active {
      assert NodeOk(s, i) && PendingOk(s, i);
    }
  }

  lemma EmptyWalk(s: State, c: Id)
    requires Inv(s) && c in s.cells && s.info[c].kids != 1
    ensures Walk(s, c) == [c]
  {
  }

  /** An empty node gives way to a new leaf for the key. */
  lemma RefillInv(s: State, t: Tid, n: Id, c: Id, x: Id)
    requires AtLoop(s, t, n) && x !in s.cells && c in s.cells && SlotHolds(s, n, Bits(s, t, n), c)
    requires s.info[c].kids == 0 && s.info[c].layer < s.active
    ensures Inv(Publish(s, t, n, Bits(s, t, n), x, Cell(s.calls[t].key, Some(BLANK), map[]), Walk(s, c)))
  {
    var key, b := s.calls[t].key, Bits(s, t, n);
    var T, r := Tree(s, s.active), s.rootIds[s.active];
    var leaf := Cell(key, Some(BLANK), map[]);
    ActiveTree(s, n);
    CutIsOutdated(s, c);
    EmptyWalk(s, c);
    assert NodeOk(s, c);
    Refill(s.cells, T, r, s.K, n, x, leaf);
    assert Ids([c]) == {c};
    PublishInv(s, t, n, x, leaf, [c]);
  }

  /** A one-child chain gives way to a copy of its last node. */
  lemma CopyInv(s: State, t: Tid, n: Id, c: Id, x: Id)
    requires AtLoop(s, t, n) && x !in s.cells && c in s.cells && SlotHolds(s, n, Bits(s, t, n), c)
    requires s.info[c].layer < s.active
    requires forall i | 0 <= i < |Walk(s, c)| :: Walk(s, c)[i] in s.cells
    ensures Inv(Publish(s, t, n, Bits(s, t, n), x, s.cells[Walk(s, c)[|Walk(s, c)| - 1]], Walk(s, c)))
  {
    var b := Bits(s, t, n);
    var w := Walk(s, c);
    var z := w[|w| - 1];
    ActiveTree(s, n);
    CutIsOutdated(s, c);
    assert z in Ids(w);
    assert Local(s.cells, Tree(s, s.active), s.K, z);
    Replace(s.cells, SetSlot(s.cells, n, b, x)[x := s.cells[z]], Tree(s, s.active), s.rootIds[s.active], s.K,
            n, b, w, x, s.cells[z]);
    PublishInv(s, t, n, x, s.cells[z], w);
  }

  lemma DropSlot(slots: map<Nibble, Id>, b: Nibble)
    requires b in slots
    ensures |slots - {b}| == |slots| - 1
  {
    assert (slots - {b}).Keys == slots.Keys - {b};
  }

  lemma UnlinkKeeps(s: State, t: Tid, n: Id, b: Nibble, c: Id)
    requires t in s.calls && n in s.cells && s.cells.Keys == s.info.Keys
    ensures Kept(s, Unlink(s, t, n, b, [c]), n, {})
  {
  }

  lemma UnlinkMoves(s: State, t: Tid, n: Id, b: Nibble, c: Id)
    requires t in s.calls && s.calls[t].pc.Choose? && n in s.cells && n in s.info
    requires b in s.cells[n].slots && s.info[n].kids == |s.cells[n].slots|
    requires forall d | d in s.cells[n].slots :: s.cells[n].slots[d] in s.cells
    ensures Moved(s, Unlink(s, t, n, b, [c]), t, {c}, {})
    ensures Counted(Unlink(s, t, n, b, [c]), {} + {n})
  {
    DropSlot(s.cells[n].slots, b);
    assert Ids([c]) == {c};
  }

  lemma UnlinkSwaps(s: State, t: Tid, n: Id, b: Nibble, c: Id)
    requires t in s.calls && n in s.cells && s.cells.Keys == s.info.Keys && Outdated(s, {c})
    ensures Swapped(s, Unlink(s, t, n, b, [c]), t, n, {c}, {})
  {
    UnlinkKeeps(s, t, n, b, c);
    UnionMarks(s.doomed, {c}, t);
    assert Ids([c]) == {c};
  }

  lemma UnlinkCall(s: State, t: Tid, n: Id, b: Nibble, c: Id)
    requires t in s.calls && s.calls[t].collect && n in s.cells && n in s.info && |s.calls[t].key| == s.K
    ensures CallOk(Unlink(s, t, n, b, [c]), t)
  {
    UnionMarks(s.doomed, {c}, t);
    assert Ids([c]) == {c};
  }

  lemma CutOne(s: State, n: Id, b: Nibble, c: Id)
    requires Inv(s) && Here(s, n) && n in s.cells && c in s.cells && SlotHolds(s, n, b, c)
    requires s.info[c].kids == 0
    ensures SearchTree(s.cells[n := s.cells[n].(slots := s.cells[n].slots - {b})],
                       Tree(s, s.active) - {c} + {}, s.rootIds[s.active], s.K)
  {
    ActiveTree(s, n);
    assert NodeOk(s, c);
    Remove(s.cells, Tree(s, s.active), s.rootIds[s.active], s.K, n, b);
    assert Tree(s, s.active) - {c} + {} == Tree(s, s.active) - {c};
  }

  /** An empty node is unlinked by a collecting call. */
  lemma UnlinkInv(s: State, t: Tid, n: Id, c: Id)
    requires AtLoop(s, t, n) && s.calls[t].collect && c in s.cells && SlotHolds(s, n, Bits(s, t, n), c)
    requires s.info[c].kids == 0 && s.info[c].layer < s.active
    ensures Inv(Unlink(s, t, n, Bits(s, t, n), Walk(s, c)))
  {
    var b := Bits(s, t, n);
    assert c in Tree(s, s.active) by { ActiveTree(s, n); }
    CutIsOutdated(s, c);
    EmptyWalk(s, c);
    assert Ids([c]) == {c};
    assert NodeOk(s, n);
    CutOne(s, n, b, c);
    UnlinkSwaps(s, t, n, b, c);
    UnlinkMoves(s, t, n, b, c);
    UnlinkCall(s, t, n, b, c);
    SwapInv(s, Unlink(s, t, n, b, [c]), t, n, {c}, {});
  }

  lemma SupersedeInv(s: State, t: Tid, n: Id, c: Id, x: Id)
    requires AtLoop(s, t, n) && x !in s.cells && Alive(s, c) && s.calls[t].pc.child == Some(c)
    requires s.info[c].layer != s.active
    ensures Inv(Take(s, t, n, x, SupersedeTurn(s, t, n, c)))
  {
    assert NodeOk(s, c);
    WalkAlive(s, c);
    if SlotHolds(s, n, Bits(s, t, n), c) {
      if s.info[c].kids == 0 && !IsActiveLeaf(s, c) {
        SupersedeEmptyInv(s, t, n, c, x);
      } else {
        SupersedeCopyInv(s, t, n, c, x);
      }
    } else {
      assert SupersedeTurn(s, t, n, c) == Move(Loaded(s, n, Bits(s, t, n)));
      ReloadInv(s, t, n);
    }
  }

  lemma SupersedeEmptyInv(s: State, t: Tid, n: Id, c: Id, x: Id)
    requires AtLoop(s, t, n) && x !in s.cells && Alive(s, c) && AllAlive(s, Walk(s, c))
    requires s.info[c].layer < s.active && SlotHolds(s, n, Bits(s, t, n), c)
    requires s.info[c].kids == 0 && !IsActiveLeaf(s, c)
    ensures Inv(Take(s, t, n, x, SupersedeTurn(s, t, n, c)))
  {
    if s.calls[t].collect {
      assert SupersedeTurn(s, t, n, c) == Cut(Walk(s, c));
      UnlinkInv(s, t, n, c);
    } else {
      assert SupersedeTurn(s, t, n, c) == Put(Cell(s.calls[t].key, Some(BLANK), map[]), Walk(s, c));
      RefillInv(s, t, n, c, x);
    }
  }

  lemma SupersedeCopyInv(s: State, t: Tid, n: Id, c: Id, x: Id)
    requires AtLoop(s, t, n) && x !in s.cells && Alive(s, c) && AllAlive(s, Walk(s, c))
    requires s.info[c].layer < s.active && SlotHolds(s, n, Bits(s, t, n), c)
    requires s.info[c].kids != 0 || IsActiveLeaf(s, c)
    ensures Inv(Take(s, t, n, x, SupersedeTurn(s, t, n, c)))
  {
    var w := Walk(s, c);
    assert SupersedeTurn(s, t, n, c) == Put(s.cells[w[|w| - 1]], w);
    CopyInv(s, t, n, c, x);
  }

  lemma ChildInv(s: State, t: Tid, n: Id, c: Id, x: Id)
    requires AtLoop(s, t, n) && x !in s.cells && Alive(s, c) && s.calls[t].pc.child == Some(c)
    ensures Inv(Take(s, t, n, x, ChildTurn(s, t, n, c)))
  {
    if MatchLen(s.cells[c].prefix, s.calls[t].key) == |s.cells[c].prefix| {
      if s.info[c].layer == s.active {
        EnterInv(s, t, n, c);
      } else {
        SupersedeInv(s, t, n, c, x);
      }
    } else {
      BesideInv(s, t, n, c, x);
    }
  }

  /** The child belongs to the active layer and prefixes the key. */
  lemma EnterInv(s: State, t: Tid, n: Id, c: Id)
    requires AtLoop(s, t, n) && Alive(s, c) && s.calls[t].pc.child == Some(c) && s.info[c].layer == s.active
    ensures Inv(SetPc(s, t, Visit(c)))
  {
    assert PendingOk(s, c);
    assert NodeOk(s, c);
    PcInv(s, t, Visit(c));
  }

  /** The child does not prefix the key. */
  lemma BesideInv(s: State, t: Tid, n: Id, c: Id, x: Id)
    requires AtLoop(s, t, n) && x !in s.cells && Alive(s, c) && s.calls[t].pc.child == Some(c)
    requires MatchLen(s.cells[c].prefix, s.calls[t].key) < |s.cells[c].prefix|
    ensures Inv(Take(s, t, n, x, ChildTurn(s, t, n, c)))
  {
    if s.calls[t].collect {
      PcInv(s, t, Returned);
    } else if !SlotHolds(s, n, Bits(s, t, n), c) {
      ReloadInv(s, t, n);
    } else {
      JoinInv(s, t, n, c, x);
    }
  }

  lemma ChooseInv(s: State, t: Tid, x: Id)
    requires Inv(s) && Enabled(s, DoChoose(t, x))
    ensures Inv(ChooseStep(s, t, x))
  {
    var n, child := s.calls[t].pc.node, s.calls[t].pc.child;
    assert CallOk(s, t);
    assert !Closing(s);
    HereFacts(s, n);
    if child.None? {
      EmptySlotInv(s, t, n, x);
    } else {
      CurrentIsAlive(s, child.value);
      ChildInv(s, t, n, child.value, x);
    }
  }

  // ----- commit and stamp -----

  /** `u` writes the pending mark of node `z`, which changes no effective layer. */
  ghost predicate Restamped(s: State, u: State, z: Id) {
    && u == s.(info := u.info, doomed := u.doomed, uncommitted := u.uncommitted, calls := u.calls)
    && u.info.Keys == s.info.Keys && z in s.info
    && u.doomed.Keys <= s.doomed.Keys && u.uncommitted.Keys <= s.uncommitted.Keys
    && (forall n | n in s.info && n != z :: u.info[n] == s.info[n])
    && u.info[z] == s.info[z].(superseded := u.info[z].superseded)
    && (forall n | n in s.info :: Effective(u, n) == Effective(s, n))
    && s.active <= Effective(s, z)
  }

  lemma RestampTree(s: State, u: State, z: Id, k: nat)
    requires Restamped(s, u, z)
    ensures Tree(u, k) == Tree(s, k)
  {
  }

  lemma RestampLayers(s: State, u: State, z: Id)
    requires LayersOk(s) && Restamped(s, u, z) && forall k: nat | k < |s.rootIds| :: s.rootIds[k] != z
    ensures LayersOk(u)
  {
    forall k: nat | k <= u.active ensures LayerOk(u, k) {
      assert LayerOk(s, k);
      RestampTree(s, u, z, k);
    }
  }

  lemma RestampInv(s: State, u: State, z: Id)
    requires Inv(s) && !Closing(s) && Restamped(s, u, z) && z !in s.dead
    requires forall k: nat | k < |s.rootIds| :: s.rootIds[k] != z
    requires NodesOk(u) && PendingsOk(u) && CallsOk(u)
    ensures Inv(u)
  {
    RestampDeaths(s, u, z);
    RestampLayers(s, u, z);
  }

  lemma RestampDeaths(s: State, u: State, z: Id)
    requires DeathsOk(s) && StackOk(s) && Restamped(s, u, z) && z !in s.dead
    ensures DeathsOk(u) && StackOk(u)
  {
    forall n | n in u.cells ensures DeadOk(u, n) {
      assert DeadOk(s, n);
    }
    if s.sweep.Sweeping? && s.sweep.stack != [] {
      forall i | 0 <= i < |u.sweep.stack| ensures FrameOk(u, u.sweep.stack[i]) {
        assert FrameOk(s, s.sweep.stack[i]);
      }
      forall p, b | p in u.cells ensures ScanOk(u, p, b) {
        assert ScanOk(s, p, b);
      }
    }
  }

  lemma RestampCall(s: State, u: State, z: Id, i: Tid)
    requires Restamped(s, u, z) && CallOk(s, i) && i in u.calls && u.calls[i] == s.calls[i]
    requires forall n | n in s.doomed && s.doomed[n] == i :: n in u.doomed && u.doomed[n] == i
    requires forall n | n in s.uncommitted && s.uncommitted[n] == i :: n in u.uncommitted && u.uncommitted[n] == i
    requires s.calls[i].pc.Commit? ==> s.calls[i].pc.published != z
    ensures CallOk(u, i)
  {
    RestampTree(s, u, z, s.active);
  }

  lemma PendingIsNoRoot(s: State, z: Id)
    requires Inv(s) && z in s.info && (z in s.doomed || s.info[z].superseded == 0)
    ensures forall k: nat | k < |s.rootIds| :: s.rootIds[k] != z
  {
    forall k: nat | k < |s.rootIds| ensures s.rootIds[k] != z {
      assert LayerOk(s, k);
      assert PendingOk(s, z);
    }
  }

  lemma CommitMarks(s: State, t: Tid, x: Id)
    requires t in s.calls && s.calls[t].pc.Commit? && s.calls[t].pc.published == x
    requires Alive(s, x) && x !in s.doomed && s.info[x].superseded == 0 && s.info[x].layer == s.active < NEVER
    ensures Restamped(s, CommitStep(s, t), x)
  {
  }

  lemma CommitNodes(s: State, t: Tid, x: Id)
    requires NodesOk(s) && PendingsOk(s)
    requires t in s.calls && s.calls[t].pc.Commit? && s.calls[t].pc.published == x
    requires Alive(s, x) && s.info[x].superseded == 0
    ensures NodesOk(CommitStep(s, t)) && PendingsOk(CommitStep(s, t))
  {
    var u := CommitStep(s, t);
    assert Todo(u.calls[t].pc) == Todo(s.calls[t].pc);
    forall n | n in u.cells ensures NodeOk(u, n) {
      assert NodeOk(s, n);
    }
    forall n | n in u.cells ensures PendingOk(u, n) {
      assert PendingOk(s, n);
    }
  }

  lemma CommitCall(s: State, t: Tid, x: Id)
    requires CallsOk(s) && t in s.calls && s.calls[t].pc.Commit? && s.calls[t].pc.published == x
    requires Alive(s, x) && CallOk(s, t) && Restamped(s, CommitStep(s, t), x)
    ensures CallsOk(CommitStep(s, t))
  {
    var u := CommitStep(s, t);
    RestampTree(s, u, x, s.active);
    assert Todo(u.calls[t].pc) == Todo(s.calls[t].pc);
    assert Here(u, x) by { assert Here(s, x); }
    assert CallOk(u, t);
    forall i | i in u.calls ensures CallOk(u, i) {
      if i != t {
        assert CallOk(s, i);
        RestampCall(s, u, x, i);
      }
    }
  }

  lemma CommitInv(s: State, t: Tid)
    requires Inv(s) && Enabled(s, DoCommit(t))
    ensures Inv(CommitStep(s, t))
  {
    var x := s.calls[t].pc.published;
    assert CallOk(s, t);
    assert !Closing(s);
    HereFacts(s, x);
    assert PendingOk(s, x);
    CommitMarks(s, t, x);
    CommitNodes(s, t, x);
    CommitCall(s, t, x);
    PendingIsNoRoot(s, x);
    RestampInv(s, CommitStep(s, t), x);
  }

  lemma StampMarks(s: State, t: Tid, z: Id)
    requires t in s.calls && s.calls[t].pc.Stamp? && |s.calls[t].pc.todo| > 0 && s.calls[t].pc.todo[0] == z
    requires Alive(s, z) && z in s.doomed && 0 < s.active
    ensures Restamped(s, StampStep(s, t), z)
  {
  }

  lemma StampNodes(s: State, t: Tid, z: Id)
    requires NodesOk(s) && PendingsOk(s) && CallOk(s, t)
    requires t in s.calls && s.calls[t].pc.Stamp? && |s.calls[t].pc.todo| > 0 && s.calls[t].pc.todo[0] == z
    requires Alive(s, z) && s.info[z].layer < s.active
    ensures NodesOk(StampStep(s, t)) && PendingsOk(StampStep(s, t))
  {
    var u := StampStep(s, t);
    var todo := s.calls[t].pc.todo;
    assert Todo(u.calls[t].pc) == todo[1..];
    forall n | n in u.cells ensures NodeOk(u, n) {
      assert NodeOk(s, n);
    }
    forall n | n in u.cells ensures PendingOk(u, n) {
      assert PendingOk(s, n);
      if n in todo && n != z {
        var i :| 0 <= i < |todo| && todo[i] == n;
        assert n == todo[1..][i - 1];
      }
    }
  }

  lemma StampCall(s: State, t: Tid, z: Id)
    requires CallsOk(s) && t in s.calls && s.calls[t].pc.Stamp?
    requires |s.calls[t].pc.todo| > 0 && s.calls[t].pc.todo[0] == z
    requires Alive(s, z) && CallOk(s, t) && Restamped(s, StampStep(s, t), z) && s.info[z].superseded == NEVER
    ensures CallsOk(StampStep(s, t))
  {
    var u := StampStep(s, t);
    RestampTree(s, u, z, s.active);
    var todo, next := s.calls[t].pc.todo, s.calls[t].pc.next;
    assert Todo(u.calls[t].pc) == todo[1..];
    assert next.Some? ==> Here(u, next.value) by { assert next.Some? ==> Here(s, next.value); }
    forall i | 0 <= i < |todo[1..]| ensures todo[1..][i] in u.doomed && u.doomed[todo[1..][i]] == t {
      assert todo[1..][i] == todo[i + 1] == Todo(s.calls[t].pc)[i + 1];
      assert todo[0] == Todo(s.calls[t].pc)[0];
    }
    forall i, j | 0 <= i < j < |todo[1..]| ensures todo[1..][i] != todo[1..][j] {
      assert todo[1..][i] == Todo(s.calls[t].pc)[i + 1] && todo[1..][j] == Todo(s.calls[t].pc)[j + 1];
    }
    assert CallOk(u, t);
    assert z == Todo(s.calls[t].pc)[0] && s.doomed[z] == t;
    forall i | i in u.calls ensures CallOk(u, i) {
      if i != t {
        assert CallOk(s, i);
        RestampCall(s, u, z, i);
      }
    }
  }

  lemma StampInv(s: State, t: Tid)
    requires Inv(s) && Enabled(s, DoStamp(t))
    ensures Inv(StampStep(s, t))
  {
    var z := s.calls[t].pc.todo[0];
    assert CallOk(s, t);
    assert z == Todo(s.calls[t].pc)[0];
    assert !Closing(s);
    assert PendingOk(s, z);
    CurrentIsAlive(s, z);
    StampMarks(s, t, z);
    StampNodes(s, t, z);
    StampCall(s, t, z);
    PendingIsNoRoot(s, z);
    RestampInv(s, StampStep(s, t), z);
  }

  // ----- a new layer -----

  /** With no call in flight every commit and stamp has been written. */
  lemma QuietHasNoPending(s: State, n: Id)
    requires Inv(s) && Quiet(s) && n in s.cells
    ensures n !in s.doomed && s.info[n].superseded != 0
  {
    assert PendingOk(s, n);
  }

  lemma BumpTrees(s: State, x: Id, k: nat)
    requires Basics(s) && NodesOk(s) && s.active + 1 < NEVER && x !in s.cells
    requires forall n | n in s.cells :: n !in s.doomed && s.info[n].superseded != 0
    requires LayerOk(s, s.active) && Alive(s, s.rootIds[s.active])
    ensures k <= s.active ==> Tree(BumpStep(s, x), k) == Tree(s, k)
    ensures k == s.active + 1 ==> Tree(BumpStep(s, x), k) == Tree(s, s.active) - {s.rootIds[s.active]} + {x}
  {
    var u := BumpStep(s, x);
    if k <= s.active {
      forall n | n in u.cells ensures n in Tree(u, k) <==> n in Tree(s, k) { BumpOldTree(s, x, k, n); }
    } else if k == s.active + 1 {
      forall n | n in u.cells ensures n in Tree(u, k) <==> n in Tree(s, s.active) - {s.rootIds[s.active]} + {x} {
        BumpNewTree(s, x, n);
      }
    }
  }

  lemma BumpOldTree(s: State, x: Id, k: nat, n: Id)
    requires Basics(s) && NodesOk(s) && s.active + 1 < NEVER && x !in s.cells
    requires forall n | n in s.cells :: n !in s.doomed && s.info[n].superseded != 0
    requires LayerOk(s, s.active) && Alive(s, s.rootIds[s.active]) && k <= s.active && n in BumpStep(s, x).cells
    ensures n in Tree(BumpStep(s, x), k) <==> n in Tree(s, k)
  {
    if n in s.cells { assert NodeOk(s, n); }
  }

  lemma BumpNewTree(s: State, x: Id, n: Id)
    requires Basics(s) && NodesOk(s) && s.active + 1 < NEVER && x !in s.cells
    requires forall n | n in s.cells :: n !in s.doomed && s.info[n].superseded != 0
    requires LayerOk(s, s.active) && Alive(s, s.rootIds[s.active]) && n in BumpStep(s, x).cells
    ensures n in Tree(BumpStep(s, x), s.active + 1) <==> n in Tree(s, s.active) - {s.rootIds[s.active]} + {x}
  {
    if n in s.cells { assert NodeOk(s, n); }
  }

  lemma BumpOldLayer(s: State, x: Id, k: nat)
    requires LayerOk(s, k) && k <= s.active && x !in s.cells && |s.rootIds| == s.active + 1
    requires Alive(s, s.rootIds[s.active]) && s.info[s.rootIds[s.active]].layer == s.active
    requires s.cells.Keys == s.info.Keys && Tree(BumpStep(s, x), k) == Tree(s, k)
    ensures LayerOk(BumpStep(s, x), k)
  {
    LayerFrame(s, BumpStep(s, x), k);
  }

  lemma BumpLayers(s: State, x: Id)
    requires Inv(s) && Quiet(s) && s.active + 1 < NEVER && x !in s.cells && Alive(s, s.rootIds[s.active])
    ensures LayersOk(BumpStep(s, x))
  {
    var u := BumpStep(s, x);
    assert LayerOk(s, s.active);
    forall n | n in s.cells ensures n !in s.doomed && s.info[n].superseded != 0 {
      QuietHasNoPending(s, n);
    }
    forall k: nat | k <= u.active ensures LayerOk(u, k) {
      BumpTrees(s, x, k);
      if k <= s.active {
        assert LayerOk(s, k);
        BumpOldLayer(s, x, k);
      } else {
        CopyRoot(s.cells, Tree(s, s.active), s.rootIds[s.active], s.K, x);
      }
    }
  }

  lemma BumpNodes(s: State, x: Id)
    requires Inv(s) && Quiet(s) && s.active + 1 < NEVER && x !in s.cells && Alive(s, s.rootIds[s.active])
    requires s.sweep.Idle?
    ensures NodesOk(BumpStep(s, x)) && PendingsOk(BumpStep(s, x)) && DeathsOk(BumpStep(s, x))
  {
    var u := BumpStep(s, x);
    assert LayerOk(s, s.active) && NodeOk(s, s.rootIds[s.active]);
    forall n | n in u.cells ensures NodeOk(u, n) && PendingOk(u, n) && DeadOk(u, n) {
      BumpNode(s, x, u, n);
      BumpDeath(s, x, u, n);
    }
  }

  lemma BumpNode(s: State, x: Id, u: State, n: Id)
    requires Inv(s) && Quiet(s) && s.active + 1 < NEVER && x !in s.cells && Alive(s, s.rootIds[s.active])
    requires s.sweep.Idle? && u == BumpStep(s, x) && n in u.cells && NodeOk(s, s.rootIds[s.active])
    ensures NodeOk(u, n) && PendingOk(u, n)
  {
    if n in s.cells {
      assert NodeOk(s, n);
      QuietHasNoPending(s, n);
    }
  }

  lemma BumpDeath(s: State, x: Id, u: State, n: Id)
    requires Inv(s) && Quiet(s) && s.active + 1 < NEVER && x !in s.cells && Alive(s, s.rootIds[s.active])
    requires s.sweep.Idle? && u == BumpStep(s, x) && n in u.cells && NodeOk(s, s.rootIds[s.active])
    ensures DeadOk(u, n)
  {
    if n in s.cells {
      assert NodeOk(s, n) && DeadOk(s, n);
      QuietHasNoPending(s, n);
    }
  }

  lemma BumpInv(s: State, x: Id)
    requires Inv(s) && Enabled(s, DoBump(x))
    ensures Inv(BumpStep(s, x))
  {
    var u := BumpStep(s, x);
    assert LayerOk(s, s.active);
    CurrentIsAlive(s, s.rootIds[s.active]);
    BumpLayers(s, x);
    BumpNodes(s, x);
    forall i | i in u.calls ensures CallOk(u, i) {
      assert CallOk(s, i);
    }
  }

  // ----- sweeping -----

  lemma FreeBoundFits(lowerBound: nat, active: nat)
    requires active < NEVER
    ensures FreeBound(lowerBound, active) + 2 <= active <==> active >= 2
  {
    if active >= 2 {
      assert active + WORD - 2 == (active - 2) + WORD;
      assert (active + WORD - 2) % WORD == active - 2;
    }
  }

  lemma StartInv(s: State, sweep: Sweep, lb: nat)
    requires Inv(s) && s.sweep.Idle? && sweep.Sweeping? && sweep.stack == []
    requires if sweep.closing then Quiet(s) && sweep.bound == s.active else sweep.bound + 2 <= s.active
    ensures Inv(s.(sweep := sweep, lowerBound := lb))
  {
    var u := s.(sweep := sweep, lowerBound := lb);
    SweepMove(s, u);
  }

  /** Only the sweep and what it destroys differ. */
  ghost predicate Swept(s: State, u: State) {
    u == s.(sweep := u.sweep, lowerBound := u.lowerBound, roots := u.roots, erased := u.erased, dead := u.dead)
  }

  lemma UntouchedNodes(s: State, u: State)
    requires NodesOk(s) && PendingsOk(s) && Swept(s, u)
    ensures NodesOk(u) && PendingsOk(u)
  {
    forall n | n in u.cells ensures NodeOk(u, n) && PendingOk(u, n) {
      assert NodeOk(s, n) && PendingOk(s, n);
    }
  }

  lemma UntouchedLayers(s: State, u: State)
    requires LayersOk(s) && CallsOk(s) && Swept(s, u)
    ensures LayersOk(u) && CallsOk(u)
  {
    forall k: nat | k <= u.active ensures LayerOk(u, k) {
      assert LayerOk(s, k);
    }
    forall i | i in u.calls ensures CallOk(u, i) {
      assert CallOk(s, i);
    }
  }

  /** Nodes, layers and calls do not depend on the sweep. */
  lemma Untouched(s: State, u: State)
    requires Inv(s) && Swept(s, u)
    ensures NodesOk(u) && PendingsOk(u) && LayersOk(u) && CallsOk(u)
  {
    UntouchedNodes(s, u);
    UntouchedLayers(s, u);
  }

  lemma SweepMove(s: State, u: State)
    requires Inv(s) && u == s.(sweep := u.sweep, lowerBound := u.lowerBound)
    requires Finished(s) == Finished(u)
    ensures Basics(u) && NodesOk(u) && PendingsOk(u) && LayersOk(u) && CallsOk(u) && DeathsOk(u)
  {
    Untouched(s, u);
    forall n | n in u.cells ensures DeadOk(u, n) {
      assert DeadOk(s, n);
    }
  }

  lemma EndInv(s: State)
    requires Inv(s) && Enabled(s, DoEnd)
    ensures Inv(EndStep(s))
  {
    SweepMove(s, EndStep(s));
    assert s.erased <= s.active ==> s.erased in s.roots;
  }
}
