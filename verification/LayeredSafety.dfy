/**
 Reclamation safety and snapshot isolation of the layered trie.

 The invariant ties every layer `k` to one set of nodes, those with
 `layer <= k < superseded` once pending stamps are taken into account, and says
 that this set is the search tree under root `k`.  A compare-and-swap changes the
 set of the active layer only; a destructor removes exactly the nodes whose last
 layer is the one being erased.
 */
module LayeredSafety {

  import opened Nibbles
  import opened Tries
  import opened SearchTrees
  import opened LayeredTrie

  function Eff(info: map<Id, Info>, doomed: map<Id, Tid>, active: nat, n: Id): nat
    requires n in info
  {
    if n in doomed then active
    else if info[n].superseded == 0 then NEVER
    else info[n].superseded
  }

  /** The layer that supersedes a node, counting a stamp that is still to be written. */
  function Effective(s: State, n: Id): nat
    requires n in s.info
  {
    Eff(s.info, s.doomed, s.active, n)
  }

  function Members(info: map<Id, Info>, doomed: map<Id, Tid>, active: nat, k: nat): set<Id> {
    set n | n in info && info[n].layer <= k < Eff(info, doomed, active, n)
  }

  /** The nodes of layer `k`. */
  function Tree(s: State, k: nat): set<Id> {
    Members(s.info, s.doomed, s.active, k)
  }

  /** The last layer whose tree holds the node. */
  function Last(s: State, n: Id): int
    requires n in s.info
  {
    if Effective(s, n) == NEVER then s.active else Effective(s, n) - 1
  }

  // ----- the invariant -----

  ghost predicate Basics(s: State) {
    && s.K > 0
    && s.active < NEVER
    && |s.rootIds| == s.active + 1
    && s.cells.Keys == s.info.Keys
    && s.dead <= s.cells.Keys
    && s.doomed.Keys <= s.cells.Keys
    && s.uncommitted.Keys <= s.cells.Keys
    && s.fault == NoFault
  }

  ghost predicate NodeOk(s: State, n: Id) {
    && n in s.cells && n in s.info
    && s.info[n].kids == |s.cells[n].slots|
    && s.info[n].layer <= s.active
    && (s.info[n].superseded == NEVER || s.info[n].superseded == 0
      || s.info[n].layer < s.info[n].superseded <= s.active)
    && (forall b | b in s.cells[n].slots ::
          s.cells[n].slots[b] in s.info && s.info[s.cells[n].slots[b]].layer <= s.info[n].layer)
  }

  /** A missing commit or stamp is on some call's list. */
  ghost predicate PendingOk(s: State, n: Id) {
    && n in s.info
    && (s.info[n].superseded == 0 ==>
          && s.info[n].layer == s.active
          && n in s.uncommitted && s.uncommitted[n] in s.calls
          && s.calls[s.uncommitted[n]].pc.Commit? && s.calls[s.uncommitted[n]].pc.published == n)
    && (n in s.doomed ==>
          && s.info[n].layer < s.active && s.info[n].superseded == NEVER
          && s.doomed[n] in s.calls && n in Todo(s.calls[s.doomed[n]].pc))
  }

  function Todo(pc: Pc): seq<Id> {
    if pc.Commit? || pc.Stamp? then pc.todo else []
  }

  ghost predicate LayerOk(s: State, k: nat) {
    && k < |s.rootIds|
    && SearchTree(s.cells, Tree(s, k), s.rootIds[k], s.K)
    && s.rootIds[k] in s.info
    && s.info[s.rootIds[k]].layer == k
    && s.info[s.rootIds[k]].superseded == if k < s.active then k + 1 else NEVER
  }

  /** A node of the active layer that is in the active tree. */
  ghost predicate Here(s: State, n: Id) {
    n in Tree(s, s.active) && n in s.info && s.info[n].layer == s.active
  }

  ghost predicate CallOk(s: State, t: Tid) {
    && t in s.calls
    && var Call(key, collect, pc) := s.calls[t];
    && |key| == s.K
    && (forall i | 0 <= i < |Todo(pc)| :: Todo(pc)[i] in s.doomed && s.doomed[Todo(pc)[i]] == t)
    && (forall i, j | 0 <= i < j < |Todo(pc)| :: Todo(pc)[i] != Todo(pc)[j])
    && match pc
       case Visit(n) => Here(s, n)
       case Choose(n, child) =>
         && Here(s, n) && n in s.cells && s.cells[n].prefix < key
         && (child.Some? ==>
               && child.value in s.cells && child.value in s.info
               && s.active <= Effective(s, child.value)
               && Under(s.cells[n].prefix, key[|s.cells[n].prefix|], s.cells[child.value].prefix))
       case Commit(x, _) => Here(s, x) && s.info[x].superseded == 0 && x in s.uncommitted && s.uncommitted[x] == t
       case Stamp(todo, next) => |todo| > 0 && (if next.Some? then Here(s, next.value) else collect)
       case Returned => true
       case Threw => true
  }

  /** Roots of layers below `erased` are gone; while a stack is in use the last of them is being destroyed. */
  function Finished(s: State): int {
    if s.sweep.Sweeping? && s.sweep.stack != [] then s.erased - 1 else s.erased
  }

  ghost predicate DeadOk(s: State, n: Id) {
    && n in s.info
    && (Last(s, n) < Finished(s) ==> n in s.dead)
    && (Last(s, n) >= s.erased ==> n !in s.dead)
  }

  /** Slot `b` of `p` lies before the position of every destructor activation of `p`. */
  ghost predicate Scanned(s: State, p: Id, b: nat) {
    s.sweep.Sweeping? ==> forall i | 0 <= i < |s.sweep.stack| :: s.sweep.stack[i].node == p ==>
      b < s.sweep.stack[i].slot
  }

  /** Within the layer being destroyed, a child is dead exactly when its parent's destructor has passed its slot. */
  ghost predicate ScanOk(s: State, p: Id, b: Nibble) {
    && p in s.cells && p in s.info
    && (b in s.cells[p].slots && s.cells[p].slots[b] in s.info
        && Last(s, p) == s.erased - 1 == Last(s, s.cells[p].slots[b]) ==>
          (s.cells[p].slots[b] in s.dead <==> p in s.dead && Scanned(s, p, b)))
  }

  ghost predicate FrameOk(s: State, f: Frame) {
    && f.node in s.cells && f.node in s.info && f.node in s.dead
    && Last(s, f.node) == s.erased - 1
    && f.superseded == s.info[f.node].superseded
    && f.slot <= 16
  }

  ghost predicate StackOk(s: State) {
    s.sweep.Sweeping? && s.sweep.stack != [] ==>
      && 0 < s.erased <= |s.rootIds|
      && s.rootIds[s.erased - 1] in s.dead
      && (forall i | 0 <= i < |s.sweep.stack| :: FrameOk(s, s.sweep.stack[i]))
      && (forall i, j | 0 <= i < j < |s.sweep.stack| ::
            s.cells[s.sweep.stack[i].node].prefix < s.cells[s.sweep.stack[j].node].prefix)
      && (forall p, b {:trigger ScanOk(s, p, b)} | p in s.cells :: ScanOk(s, p, b))
  }

  ghost predicate SweepOk(s: State) {
    && s.erased <= s.active + 1
    && (forall k: nat :: k in s.roots <==> s.erased <= k <= s.active)
    && (forall k | k in s.roots && k < |s.rootIds| :: s.roots[k] == s.rootIds[k])
    && (s.erased == 0 || s.erased < s.active || Closing(s))
    && (s.sweep.Sweeping? && !s.sweep.closing ==> s.sweep.bound + 2 <= s.active)
    && (Closing(s) ==> Quiet(s))
    && (s.sweep.Sweeping? && s.sweep.closing ==> s.sweep.bound == s.active)
    && (s.sweep.Closed? ==> s.erased == s.active + 1)
    && StackOk(s)
  }

  predicate Closing(s: State) {
    s.sweep.Closed? || (s.sweep.Sweeping? && s.sweep.closing)
  }

  ghost predicate NodesOk(s: State) {
    forall n {:trigger NodeOk(s, n)} | n in s.cells :: NodeOk(s, n)
  }

  ghost predicate PendingsOk(s: State) {
    forall n {:trigger PendingOk(s, n)} | n in s.cells :: PendingOk(s, n)
  }

  ghost predicate LayersOk(s: State) {
    forall k: nat {:trigger LayerOk(s, k)} | k <= s.active :: LayerOk(s, k)
  }

  ghost predicate CallsOk(s: State) {
    forall t {:trigger CallOk(s, t)} | t in s.calls :: CallOk(s, t)
  }

  ghost predicate DeathsOk(s: State) {
    forall n {:trigger DeadOk(s, n)} | n in s.cells :: DeadOk(s, n)
  }

  ghost predicate Inv(s: State) {
    Basics(s) && NodesOk(s) && PendingsOk(s) && LayersOk(s) && CallsOk(s) && DeathsOk(s) && SweepOk(s)
  }

  lemma InitInv(s: State, K: nat)
    requires Init(s, K)
    ensures Inv(s)
  {
    InitNodes(s, K);
    InitLayer(s, K);
    assert SweepOk(s);
  }

  lemma InitNodes(s: State, K: nat)
    requires Init(s, K)
    ensures Basics(s) && NodesOk(s) && PendingsOk(s) && DeathsOk(s)
  {
    assert NodeOk(s, 0) && PendingOk(s, 0) && DeadOk(s, 0);
  }

  lemma InitLayer(s: State, K: nat)
    requires Init(s, K)
    ensures LayersOk(s) && CallsOk(s)
  {
    assert Tree(s, 0) == {0};
    assert Local(s.cells, {0}, K, 0) && Leads(s.cells, 0, 0);
    assert LayerOk(s, 0);
  }

  // ----- consequences -----

  /** A child lives at least as long as its parent. */
  lemma ChildOutlives(s: State, p: Id, b: Nibble)
    requires Inv(s) && p in s.cells && b in s.cells[p].slots
    ensures s.cells[p].slots[b] in s.info && Last(s, p) <= Last(s, s.cells[p].slots[b])
  {
    assert NodeOk(s, p) && PendingOk(s, p);
    var k := Last(s, p);
    assert LayerOk(s, k);
    assert p in Tree(s, k);
    assert Local(s.cells, Tree(s, k), s.K, p);
  }

  /** Nothing a call of the active layer can still touch has been destroyed. */
  lemma CurrentIsAlive(s: State, n: Id)
    requires Inv(s) && n in s.info && !Closing(s)
    requires s.active <= Effective(s, n)
    ensures Alive(s, n)
  {
    assert NodeOk(s, n) && PendingOk(s, n) && DeadOk(s, n);
  }

  /** A node of an older layer that an active call may hold is in the tree of the layer before. */
  lemma OldChild(s: State, c: Id)
    requires Inv(s) && c in s.info && s.info[c].layer < s.active <= Effective(s, c)
    ensures c in Tree(s, s.active - 1)
  {
  }

  // ----- steps that only move one call -----

  /** Only the calls differ. */
  ghost predicate SameMemory(s: State, u: State) {
    u == s.(calls := u.calls)
  }

  lemma KeepLayers(s: State, u: State)
    requires LayersOk(s) && SameMemory(s, u)
    ensures LayersOk(u)
  {
    forall k: nat | k <= u.active ensures LayerOk(u, k) {
      assert LayerOk(s, k);
    }
  }

  lemma KeepDeaths(s: State, u: State)
    requires DeathsOk(s) && SameMemory(s, u)
    ensures DeathsOk(u)
  {
    forall n | n in u.cells ensures DeadOk(u, n) {
      assert DeadOk(s, n);
    }
  }

  lemma KeepStack(s: State, u: State)
    requires StackOk(s) && SameMemory(s, u)
    ensures StackOk(u)
  {
    if s.sweep.Sweeping? && s.sweep.stack != [] {
      forall i | 0 <= i < |u.sweep.stack| ensures FrameOk(u, u.sweep.stack[i]) {
        assert FrameOk(s, s.sweep.stack[i]);
      }
      forall p, b | p in u.cells ensures ScanOk(u, p, b) {
        assert ScanOk(s, p, b);
      }
    }
  }

  lemma KeepOtherCalls(s: State, u: State, t: Tid, i: Tid)
    requires SameMemory(s, u) && CallOk(s, i) && i in u.calls && u.calls[i] == s.calls[i]
    ensures CallOk(u, i)
  {
  }

  lemma KeepNodes(s: State, u: State, t: Tid)
    requires NodesOk(s) && PendingsOk(s) && SameMemory(s, u)
    requires s.calls.Keys <= u.calls.Keys
    requires forall i | i in s.calls && i != t :: u.calls[i] == s.calls[i]
    requires t in s.calls ==> Todo(s.calls[t].pc) == [] && !s.calls[t].pc.Commit?
    ensures NodesOk(u) && PendingsOk(u)
  {
    forall n | n in u.cells ensures NodeOk(u, n) && PendingOk(u, n) {
      assert NodeOk(s, n) && PendingOk(s, n);
    }
  }

  /** Changing a program counter that owns no stamp and no commit to another such. */
  lemma PcInv(s: State, t: Tid, pc: Pc)
    requires Inv(s) && t in s.calls && !Closing(s)
    requires Todo(s.calls[t].pc) == [] && !s.calls[t].pc.Commit?
    requires CallOk(SetPc(s, t, pc), t)
    ensures Inv(SetPc(s, t, pc))
  {
    var u := SetPc(s, t, pc);
    KeepNodes(s, u, t);
    KeepLayers(s, u);
    KeepDeaths(s, u);
    KeepStack(s, u);
    forall i | i in u.calls ensures CallOk(u, i) {
      if i != t {
        assert CallOk(s, i);
        KeepOtherCalls(s, u, t, i);
      }
    }
  }

  lemma BeginInv(s: State, t: Tid, key: Key, collect: bool)
    requires Inv(s) && Enabled(s, DoBegin(t, key, collect))
    ensures Inv(Begin(s, t, key, collect))
  {
    var u := Begin(s, t, key, collect);
    KeepNodes(s, u, t);
    KeepLayers(s, u);
    KeepDeaths(s, u);
    KeepStack(s, u);
    assert CallOk(u, t) by {
      assert LayerOk(s, s.active) && NodeOk(s, s.rootIds[s.active]);
    }
    forall i | i in u.calls ensures CallOk(u, i) {
      if i != t {
        assert CallOk(s, i);
        KeepOtherCalls(s, u, t, i);
      }
    }
  }

  // ----- writing a leaf, loading a slot -----

  /** Only entries differ, and no leaf loses its entry. */
  ghost predicate SameShape(s: State, u: State) {
    && u == s.(cells := u.cells)
    && u.cells.Keys == s.cells.Keys
    && forall m | m in s.cells ::
         && u.cells[m].prefix == s.cells[m].prefix && u.cells[m].slots == s.cells[m].slots
         && (u.cells[m].entry.Some? || u.cells[m].entry == s.cells[m].entry)
  }

  lemma ShapeLayers(s: State, u: State)
    requires Basics(s) && LayersOk(s) && SameShape(s, u)
    ensures LayersOk(u)
  {
    forall k: nat | k <= u.active ensures LayerOk(u, k) {
      assert LayerOk(s, k);
      LayerFrame(s, u, k);
    }
  }

  lemma ShapeCalls(s: State, u: State)
    requires CallsOk(s) && SameShape(s, u)
    ensures CallsOk(u)
  {
    forall i | i in u.calls ensures CallOk(u, i) {
      assert CallOk(s, i);
    }
  }

  lemma ShapeNodes(s: State, u: State)
    requires NodesOk(s) && PendingsOk(s) && DeathsOk(s) && SameShape(s, u)
    ensures NodesOk(u) && PendingsOk(u) && DeathsOk(u)
  {
    forall m | m in u.cells ensures NodeOk(u, m) && PendingOk(u, m) && DeadOk(u, m) {
      assert NodeOk(s, m) && PendingOk(s, m) && DeadOk(s, m);
    }
  }

  lemma ShapeInv(s: State, u: State)
    requires Inv(s) && SameShape(s, u)
    ensures Inv(u)
  {
    ShapeLayers(s, u);
    ShapeCalls(s, u);
    ShapeNodes(s, u);
    ShapeStack(s, u);
  }

  lemma ShapeStack(s: State, u: State)
    requires StackOk(s) && SameShape(s, u)
    ensures StackOk(u)
  {
    if s.sweep.Sweeping? && s.sweep.stack != [] {
      forall i | 0 <= i < |u.sweep.stack| ensures FrameOk(u, u.sweep.stack[i]) {
        assert FrameOk(s, s.sweep.stack[i]);
      }
      forall i, j | 0 <= i < j < |u.sweep.stack|
        ensures u.cells[u.sweep.stack[i].node].prefix < u.cells[u.sweep.stack[j].node].prefix
      {
        assert FrameOk(s, s.sweep.stack[i]) && FrameOk(s, s.sweep.stack[j]);
      }
      forall p, b | p in u.cells ensures ScanOk(u, p, b) {
        assert ScanOk(s, p, b);
      }
    }
  }

  /** A layer whose member set and cells keep their shape is kept. */
  lemma LayerFrame(s: State, u: State, k: nat)
    requires LayerOk(s, k) && Tree(u, k) == Tree(s, k)
    requires k < |u.rootIds| && u.rootIds[k] == s.rootIds[k] && u.K == s.K
    requires u.rootIds[k] in u.info
    requires u.info[u.rootIds[k]].layer == k
    requires u.info[u.rootIds[k]].superseded == if k < u.active then k + 1 else NEVER
    requires Tree(s, k) <= s.cells.Keys && Tree(s, k) <= u.cells.Keys
    requires forall n | n in Tree(s, k) ::
      u.cells[n].prefix == s.cells[n].prefix && u.cells[n].slots == s.cells[n].slots
    requires forall n | n in Tree(s, k) :: u.cells[n].entry.Some? || u.cells[n].entry == s.cells[n].entry
    ensures LayerOk(u, k)
  {
    var T := Tree(s, k);
    forall n | n in T ensures Local(u.cells, T, s.K, n) {
      assert Local(s.cells, T, s.K, n);
    }
    forall m, q | m in T && q in T ensures Leads(u.cells, m, q) {
      assert Leads(s.cells, m, q) && Local(s.cells, T, s.K, m);
    }
  }

  lemma ReloadOk(s: State, t: Tid, n: Id)
    requires Inv(s) && t in s.calls && Here(s, n) && n in s.cells && s.cells[n].prefix < s.calls[t].key
    requires |s.calls[t].key| == s.K
    ensures CallOk(Reload(s, t, n, s.calls[t].key[|s.cells[n].prefix|]), t)
  {
    assert LayerOk(s, s.active);
    assert Local(s.cells, Tree(s, s.active), s.K, n);
  }

  lemma HereFacts(s: State, n: Id)
    requires Inv(s) && Here(s, n) && !Closing(s)
    ensures Alive(s, n)
    ensures |s.cells[n].prefix| <= s.K
    ensures s.info[n].kids == |s.cells[n].slots|
  {
    CurrentIsAlive(s, n);
    assert LayerOk(s, s.active) && NodeOk(s, n);
    assert Local(s.cells, Tree(s, s.active), s.K, n);
  }

  lemma WriteInv(s: State, t: Tid, n: Id, e: Entry)
    requires Inv(s) && t in s.calls && s.calls[t].pc == Visit(n) && !Closing(s)
    requires n in s.cells
    ensures Inv(SetPc(s.(cells := s.cells[n := s.cells[n].(entry := Some(e))]), t, Returned))
  {
    var u := s.(cells := s.cells[n := s.cells[n].(entry := Some(e))]);
    WriteShape(s, t, n, e);
    ShapeInv(s, u);
    assert CallOk(u, t);
    PcInv(u, t, Returned);
  }

  lemma WriteShape(s: State, t: Tid, n: Id, e: Entry)
    requires Inv(s) && t in s.calls && s.calls[t].pc == Visit(n) && n in s.cells
    ensures SameShape(s, s.(cells := s.cells[n := s.cells[n].(entry := Some(e))]))
  {
  }

  lemma VisitInv(s: State, t: Tid, e: Entry)
    requires Inv(s) && Enabled(s, DoVisit(t, e))
    ensures Inv(VisitStep(s, t, e))
  {
    var n, key := s.calls[t].pc.node, s.calls[t].key;
    assert CallOk(s, t);
    assert !Closing(s);
    HereFacts(s, n);
    if !(s.cells[n].prefix <= key) {
      PcInv(s, t, Threw);
    } else if |s.cells[n].prefix| >= |key| {
      if s.calls[t].collect {
        PcInv(s, t, Returned);
      } else {
        WriteInv(s, t, n, e);
      }
    } else {
      ReloadOk(s, t, n);
      var b := key[|s.cells[n].prefix|];
      PcInv(s, t, Choose(n, if b in s.cells[n].slots then Some(s.cells[n].slots[b]) else None));
    }
  }

  // ----- compare-and-swap -----

  /** Old nodes keep layer and stamp, and all but `n` keep their cell. */
  ghost predicate Kept(s: State, u: State, n: Id, add: set<Id>) {
    && add !! s.cells.Keys
    && s.cells.Keys == s.info.Keys
    && u.cells.Keys == u.info.Keys == s.cells.Keys + add
    && (forall m | m in s.info :: u.info[m].layer == s.info[m].layer && u.info[m].superseded == s.info[m].superseded)
    && (forall m | m in s.cells && m != n :: u.cells[m] == s.cells[m] && u.info[m] == s.info[m])
    && n in s.cells && u.cells[n].prefix == s.cells[n].prefix
    && (forall x | x in add :: u.info[x].layer == s.active && u.info[x].superseded == 0)
  }

  /** What waits for a stamp or a commit afterwards. */
  ghost predicate Marked(s: State, u: State, t: Tid, cut: set<Id>, add: set<Id>) {
    && u.doomed.Keys == s.doomed.Keys + cut
    && (forall i | i in cut :: u.doomed[i] == t)
    && (forall i | i in s.doomed && i !in cut :: u.doomed[i] == s.doomed[i])
    && u.uncommitted.Keys == s.uncommitted.Keys + add
    && (forall x | x in add :: u.uncommitted[x] == t)
    && (forall x | x in s.uncommitted && x !in add :: u.uncommitted[x] == s.uncommitted[x])
  }

  /** Nodes of older layers in the active tree. */
  ghost predicate Outdated(s: State, cut: set<Id>) {
    forall i | i in cut :: i in s.info && i !in s.doomed && s.info[i].superseded == NEVER && s.info[i].layer < s.active
  }

  /**
   `u` results from `s` by swapping one slot of `n`: `cut` leaves the active
   tree and waits for its stamps, `add` (at most one node) enters it.
   */
  ghost predicate Swapped(s: State, u: State, t: Tid, n: Id, cut: set<Id>, add: set<Id>) {
    && u == s.(cells := u.cells, info := u.info,
               doomed := u.doomed, uncommitted := u.uncommitted, calls := u.calls)
    && Kept(s, u, n, add)
    && Outdated(s, cut)
    && Marked(s, u, t, cut, add)
  }

  /** The effect on the layer that supersedes a node. */
  ghost predicate Shifted(s: State, u: State, cut: set<Id>, add: set<Id>) {
    && u.info.Keys == s.info.Keys + add
    && add !! s.info.Keys
    && (forall m | m in s.info :: Effective(u, m) == if m in cut then s.active else Effective(s, m))
    && (forall m | m in add :: Effective(u, m) == NEVER)
    && (forall m | m in cut :: m in s.info && Effective(s, m) == NEVER)
  }

  lemma SwapShifts(s: State, u: State, t: Tid, n: Id, cut: set<Id>, add: set<Id>)
    requires u.active == s.active && Kept(s, u, n, add) && Outdated(s, cut) && Marked(s, u, t, cut, add)
    requires s.doomed.Keys <= s.cells.Keys
    ensures Shifted(s, u, cut, add)
  {
    forall m | m in s.info ensures Effective(u, m) == if m in cut then s.active else Effective(s, m) {
      assert m in u.doomed <==> m in s.doomed || m in cut;
    }
    forall m | m in add ensures Effective(u, m) == NEVER {
      assert m !in u.doomed;
    }
  }

  lemma SwapTrees(s: State, u: State, n: Id, cut: set<Id>, add: set<Id>, k: nat)
    requires Kept(s, u, n, add) && Shifted(s, u, cut, add)
    requires k <= s.active == u.active < NEVER
    ensures k < s.active ==> Tree(u, k) == Tree(s, k)
    ensures k == s.active ==> Tree(u, k) == Tree(s, k) - cut + add
  {
    forall m | m in u.cells
      ensures k < s.active ==> (m in Tree(u, k) <==> m in Tree(s, k))
      ensures k == s.active ==> (m in Tree(u, k) <==> m in add || (m in Tree(s, k) && m !in cut))
    {
    }
  }

  lemma SwapOldLayers(s: State, u: State, n: Id, cut: set<Id>, add: set<Id>, k: nat)
    requires LayerOk(s, k) && Kept(s, u, n, add) && Shifted(s, u, cut, add)
    requires u.rootIds == s.rootIds && u.K == s.K && s.info[n].layer == s.active
    requires k < s.active == u.active < NEVER
    ensures LayerOk(u, k)
  {
    SwapTrees(s, u, n, cut, add, k);
    LayerFrame(s, u, k);
  }

  lemma SwapLayers(s: State, u: State, n: Id, cut: set<Id>, add: set<Id>)
    requires LayersOk(s) && Kept(s, u, n, add) && Shifted(s, u, cut, add)
    requires u.rootIds == s.rootIds && u.K == s.K && s.info[n].layer == s.active && |s.rootIds| == s.active + 1
    requires s.active == u.active < NEVER
    requires SearchTree(u.cells, Tree(s, s.active) - cut + add, s.rootIds[s.active], s.K)
    ensures LayersOk(u)
  {
    forall k: nat | k <= u.active ensures LayerOk(u, k) {
      assert LayerOk(s, k);
      if k < s.active {
        SwapOldLayers(s, u, n, cut, add, k);
      } else {
        SwapTrees(s, u, n, cut, add, k);
      }
    }
  }

  lemma SwapDeaths(s: State, u: State, cut: set<Id>, add: set<Id>)
    requires DeathsOk(s) && Shifted(s, u, cut, add) && s.cells.Keys == s.info.Keys && u.cells.Keys == u.info.Keys
    requires s.active == u.active < NEVER && u.erased == s.erased && u.sweep == s.sweep && u.dead == s.dead
    requires s.dead <= s.cells.Keys && (s.erased == 0 || s.erased < s.active)
    requires cut == {} || s.active > 0
    ensures DeathsOk(u)
  {
    forall m | m in u.cells ensures DeadOk(u, m) {
      if m in s.cells { assert DeadOk(s, m); }
    }
  }

  lemma SwapScan(s: State, u: State, n: Id, cut: set<Id>, add: set<Id>, p: Id, b: Nibble)
    requires Kept(s, u, n, add) && Shifted(s, u, cut, add) && p in s.cells && p != n
    requires ScanOk(s, p, b) && NodeOk(s, p)
    requires s.active == u.active && u.erased == s.erased && u.sweep == s.sweep && u.dead == s.dead
    requires 0 < s.erased < s.active
    ensures ScanOk(u, p, b)
  {
  }

  lemma SwapFrames(s: State, u: State, n: Id, cut: set<Id>, add: set<Id>)
    requires Kept(s, u, n, add) && Shifted(s, u, cut, add)
    requires s.active == u.active && u.erased == s.erased && u.dead == s.dead && 0 < s.erased < s.active
    ensures forall f | FrameOk(s, f) :: FrameOk(u, f) && u.cells[f.node].prefix == s.cells[f.node].prefix
  {
  }

  lemma SwapStack(s: State, u: State, n: Id, cut: set<Id>, add: set<Id>)
    requires StackOk(s) && Kept(s, u, n, add) && Shifted(s, u, cut, add) && NodesOk(s)
    requires s.active == u.active < NEVER && u.erased == s.erased && u.sweep == s.sweep && u.dead == s.dead
    requires u.rootIds == s.rootIds && (s.erased == 0 || s.erased < s.active)
    requires Effective(s, n) > s.active && n !in cut
    ensures StackOk(u)
  {
    if s.sweep.Sweeping? && s.sweep.stack != [] {
      SwapFrames(s, u, n, cut, add);
      forall i | 0 <= i < |s.sweep.stack| ensures FrameOk(s, s.sweep.stack[i]) {
      }
      forall p, b | p in u.cells ensures ScanOk(u, p, b) {
        if p in s.cells && p != n {
          assert ScanOk(s, p, b) && NodeOk(s, p);
          SwapScan(s, u, n, cut, add, p, b);
        }
      }
    }
  }

  lemma SwapOtherCall(s: State, u: State, t: Tid, n: Id, cut: set<Id>, add: set<Id>, i: Tid)
    requires Kept(s, u, n, add) && Shifted(s, u, cut, add) && Marked(s, u, t, cut, add) && Outdated(s, cut)
    requires s.active == u.active < NEVER && u.K == s.K
    requires CallOk(s, i) && i in u.calls && u.calls[i] == s.calls[i]
    ensures CallOk(u, i)
  {
    SwapTrees(s, u, n, cut, add, s.active);
    forall m | Here(s, m) ensures Here(u, m) {
    }
  }

  /** The call that swapped owns what it cut out and what it published. */
  ghost predicate Moved(s: State, u: State, t: Tid, cut: set<Id>, add: set<Id>) {
    && t in s.calls && s.calls[t].pc.Choose?
    && t in u.calls && u.calls == s.calls[t := u.calls[t]] && Ids(Todo(u.calls[t].pc)) == cut
    && forall x | x in add :: u.calls[t].pc.Commit? && u.calls[t].pc.published == x
  }

  lemma SwapCalls(s: State, u: State, t: Tid, n: Id, cut: set<Id>, add: set<Id>)
    requires CallsOk(s) && Swapped(s, u, t, n, cut, add) && Moved(s, u, t, cut, add) && Shifted(s, u, cut, add)
    requires CallOk(u, t) && s.active < NEVER
    ensures CallsOk(u)
  {
    forall i | i in u.calls ensures CallOk(u, i) {
      if i != t {
        assert CallOk(s, i);
        SwapOtherCall(s, u, t, n, cut, add, i);
      }
    }
  }

  lemma SwapNodes(s: State, u: State, n: Id, add: set<Id>)
    requires NodesOk(s) && Kept(s, u, n, add) && s.info[n].layer == s.active == u.active
    requires Counted(u, add + {n})
    ensures NodesOk(u)
  {
    forall m | m in u.cells ensures NodeOk(u, m) {
      if m in s.cells {
        assert NodeOk(s, m);
      }
      forall b | b in u.cells[m].slots && m in add + {n}
        ensures u.cells[m].slots[b] in u.info && u.info[u.cells[m].slots[b]].layer <= u.active
      {
        if u.cells[m].slots[b] in s.cells { assert NodeOk(s, u.cells[m].slots[b]); }
      }
    }
  }

  lemma SwapPending(s: State, u: State, t: Tid, n: Id, cut: set<Id>, add: set<Id>)
    requires PendingsOk(s) && Kept(s, u, n, add) && Outdated(s, cut) && Marked(s, u, t, cut, add)
    requires Moved(s, u, t, cut, add) && u.active == s.active && s.doomed.Keys <= s.cells.Keys
    requires s.uncommitted.Keys <= s.cells.Keys
    ensures PendingsOk(u)
  {
    forall m | m in u.cells ensures PendingOk(u, m) {
      if m in s.cells {
        assert PendingOk(s, m);
      }
    }
  }

  /** Counters and slots of the touched nodes are in order. */
  ghost predicate Counted(u: State, touched: set<Id>) {
    forall x | x in touched ::
      && x in u.cells && x in u.info && u.info[x].kids == |u.cells[x].slots|
      && forall b | b in u.cells[x].slots :: u.cells[x].slots[b] in u.cells
  }

  lemma SwapMemory(s: State, u: State, t: Tid, n: Id, cut: set<Id>, add: set<Id>)
    requires Inv(s) && Here(s, n) && Swapped(s, u, t, n, cut, add) && Moved(s, u, t, cut, add)
    requires Counted(u, add + {n})
    requires SearchTree(u.cells, Tree(s, s.active) - cut + add, s.rootIds[s.active], s.K)
    ensures NodesOk(u) && PendingsOk(u) && LayersOk(u) && Shifted(s, u, cut, add)
  {
    SwapShifts(s, u, t, n, cut, add);
    SwapNodes(s, u, n, add);
    SwapPending(s, u, t, n, cut, add);
    SwapLayers(s, u, n, cut, add);
  }

  lemma SwapSweep(s: State, u: State, t: Tid, n: Id, cut: set<Id>, add: set<Id>)
    requires Inv(s) && !Closing(s) && Here(s, n)
    requires Swapped(s, u, t, n, cut, add) && Shifted(s, u, cut, add)
    ensures DeathsOk(u) && SweepOk(u)
  {
    SwapDeaths(s, u, cut, add);
    SwapStack(s, u, n, cut, add);
  }

  lemma SwapInv(s: State, u: State, t: Tid, n: Id, cut: set<Id>, add: set<Id>)
    requires Inv(s) && !Closing(s) && Here(s, n)
    requires Swapped(s, u, t, n, cut, add) && Moved(s, u, t, cut, add)
    requires Counted(u, add + {n})
    requires SearchTree(u.cells, Tree(s, s.active) - cut + add, s.rootIds[s.active], s.K)
    requires CallOk(u, t)
    ensures Inv(u)
  {
    SwapMemory(s, u, t, n, cut, add);
    SwapSweep(s, u, t, n, cut, add);
    SwapCalls(s, u, t, n, cut, add);
  }

  // ----- the walk over one-child nodes -----

  lemma OnlyKidIsOnlySlot(s: State, n: Id)
    requires Inv(s) && n in s.cells
    ensures OnlyKid(s, n).Some? ==> OnlySlot(s.cells, n, OnlyKid(s, n).value)
    ensures OnlyKid(s, n).None? ==> s.info[n].kids != 1
  {
    assert NodeOk(s, n);
    if s.cells[n].slots.Keys != {} {
      var b :| b in s.cells[n].slots;
    }
  }

  /** From a node of layer `k`, the walk stays in that layer, is a chain, and stops only where the code stops. */
  lemma {:induction false} WalkIsChain(s: State, k: nat, c: Id)
    requires Inv(s) && k <= s.active && c in Tree(s, k) && c in s.cells
    ensures var w := Walk(s, c);
      && Chain(s.cells, w)
      && (forall i | 0 <= i < |w| :: w[i] in Tree(s, k))
      && s.info[w[|w| - 1]].kids != 1
    decreases s.K - |s.cells[c].prefix|, 1
  {
    assert LayerOk(s, k);
    assert Local(s.cells, Tree(s, k), s.K, c);
    OnlyKidIsOnlySlot(s, c);
    var y := OnlyKid(s, c);
    if y.Some? {
      assert y.value in Tree(s, k) && |s.cells[c].prefix| < |s.cells[y.value].prefix|;
      assert Local(s.cells, Tree(s, k), s.K, y.value);
      WalkIsChain(s, k, y.value);
      var w := Walk(s, y.value);
      assert Walk(s, c) == [c] + w;
      ChainCons(s.cells, c, w);
    }
  }

  lemma ChainCons(cells: map<Id, Cell>, c: Id, w: seq<Id>)
    requires |w| > 0 && Chain(cells, w) && c in cells && OnlySlot(cells, c, w[0])
    ensures Chain(cells, [c] + w)
  {
    forall i | 0 < i < |[c] + w| ensures OnlySlot(cells, ([c] + w)[i - 1], ([c] + w)[i]) {
      if i > 1 { assert OnlySlot(cells, w[i - 2], w[i - 1]); }
    }
  }

  lemma WalkAlive(s: State, c: Id)
    requires Inv(s) && !Closing(s) && c in s.cells && c in s.info
    requires s.info[c].layer < s.active <= Effective(s, c)
    ensures AllAlive(s, Walk(s, c))
    ensures forall i | 0 <= i < |Walk(s, c)| :: s.info[Walk(s, c)[i]].layer < s.active
  {
    OldChild(s, c);
    WalkIsChain(s, s.active - 1, c);
    var w := Walk(s, c);
    forall i | 0 <= i < |w| ensures Alive(s, w[i]) && s.info[w[i]].layer < s.active {
      assert w[i] in Tree(s, s.active - 1);
      CurrentIsAlive(s, w[i]);
    }
  }

  lemma WalkDistinct(s: State, c: Id)
    requires Inv(s) && c in Tree(s, s.active) && c in s.cells
    ensures var w := Walk(s, c);
      && Chain(s.cells, w)
      && (forall i | 0 <= i < |w| :: w[i] in Tree(s, s.active))
      && (forall i, j | 0 <= i < j < |w| :: w[i] != w[j])
  {
    WalkIsChain(s, s.active, c);
    assert LayerOk(s, s.active);
    var w := Walk(s, c);
    forall i, j | 0 <= i < j < |w| ensures w[i] != w[j] {
      ChainGrows(s.cells, Tree(s, s.active), s.rootIds[s.active], s.K, w, i, j);
    }
  }

  // ----- the cases of the loop -----

  /** Call `t` stands at the head of the loop of node `n`. */
  ghost predicate AtLoop(s: State, t: Tid, n: Id) {
    && Inv(s) && !Closing(s)
    && t in s.calls && s.calls[t].pc.Choose? && s.calls[t].pc.node == n
    && CallOk(s, t) && Alive(s, n)
  }

  function Bits(s: State, t: Tid, n: Id): Nibble
    requires t in s.calls && n in s.cells && |s.cells[n].prefix| < |s.calls[t].key|
  {
    s.calls[t].key[|s.cells[n].prefix|]
  }

  lemma PublishKeeps(s: State, t: Tid, n: Id, b: Nibble, x: Id, cell: Cell, gone: seq<Id>)
    requires t in s.calls && n in s.cells && x !in s.cells && s.cells.Keys == s.info.Keys
    ensures Kept(s, Publish(s, t, n, b, x, cell, gone), n, {x})
  {
  }

  lemma UnionMarks(d: map<Id, Tid>, cut: set<Id>, t: Tid)
    ensures var e := d + (map i | i in cut :: t);
      && e.Keys == d.Keys + cut
      && (forall i | i in cut :: e[i] == t)
      && (forall i | i in d && i !in cut :: e[i] == d[i])
  {
  }

  lemma PublishSwaps(s: State, t: Tid, n: Id, b: Nibble, x: Id, cell: Cell, gone: seq<Id>)
    requires t in s.calls && n in s.cells && x !in s.cells && s.cells.Keys == s.info.Keys
    requires Outdated(s, Ids(gone))
    ensures Swapped(s, Publish(s, t, n, b, x, cell, gone), t, n, Ids(gone), {x})
  {
    PublishKeeps(s, t, n, b, x, cell, gone);
    PublishMarks(s, t, n, b, x, cell, gone);
  }

  lemma PublishMarks(s: State, t: Tid, n: Id, b: Nibble, x: Id, cell: Cell, gone: seq<Id>)
    requires t in s.calls && n in s.cells && n in s.info
    ensures Marked(s, Publish(s, t, n, b, x, cell, gone), t, Ids(gone), {x})
  {
    UnionMarks(s.doomed, Ids(gone), t);
    assert s.uncommitted[x := t].Keys == s.uncommitted.Keys + {x};
  }

  lemma PublishMoves(s: State, t: Tid, n: Id, b: Nibble, x: Id, cell: Cell, gone: seq<Id>)
    requires t in s.calls && s.calls[t].pc.Choose? && n in s.cells && n in s.info && x !in s.cells
    requires s.info[n].kids == |s.cells[n].slots|
    requires forall d | d in cell.slots :: cell.slots[d] in s.cells
    requires forall d | d in s.cells[n].slots :: s.cells[n].slots[d] in s.cells
    ensures Moved(s, Publish(s, t, n, b, x, cell, gone), t, Ids(gone), {x})
    ensures Counted(Publish(s, t, n, b, x, cell, gone), {x} + {n})
    ensures Publish(s, t, n, b, x, cell, gone).cells == SetSlot(s.cells, n, b, x)[x := cell]
  {
    PublishMoved(s, t, n, b, x, cell, gone);
    PublishCounted(s, t, n, b, x, cell, gone);
  }

  lemma PublishMoved(s: State, t: Tid, n: Id, b: Nibble, x: Id, cell: Cell, gone: seq<Id>)
    requires t in s.calls && s.calls[t].pc.Choose? && n in s.cells && n in s.info && x !in s.cells
    ensures Moved(s, Publish(s, t, n, b, x, cell, gone), t, Ids(gone), {x})
  {
  }

  lemma PublishCounted(s: State, t: Tid, n: Id, b: Nibble, x: Id, cell: Cell, gone: seq<Id>)
    requires t in s.calls && n in s.cells && n in s.info && x !in s.cells
    requires s.info[n].kids == |s.cells[n].slots|
    requires forall d | d in cell.slots :: cell.slots[d] in s.cells
    requires forall d | d in s.cells[n].slots :: s.cells[n].slots[d] in s.cells
    ensures Counted(Publish(s, t, n, b, x, cell, gone), {x} + {n})
  {
  }

  lemma PublishCall(s: State, t: Tid, n: Id, b: Nibble, x: Id, cell: Cell, gone: seq<Id>)
    requires t in s.calls && n in s.cells && n in s.info && |s.calls[t].key| == s.K && s.active < NEVER
    requires x !in gone && x !in s.doomed
    requires forall i, j | 0 <= i < j < |gone| :: gone[i] != gone[j]
    ensures CallOk(Publish(s, t, n, b, x, cell, gone), t)
  {
    var u := Publish(s, t, n, b, x, cell, gone);
    assert Effective(u, x) == NEVER;
    assert Here(u, x);
    assert Todo(u.calls[t].pc) == gone;
  }

  lemma PublishInv(s: State, t: Tid, n: Id, x: Id, cell: Cell, gone: seq<Id>)
    requires AtLoop(s, t, n) && x !in s.cells
    requires forall d | d in cell.slots :: cell.slots[d] in s.cells
    requires Outdated(s, Ids(gone))
    requires forall i, j | 0 <= i < j < |gone| :: gone[i] != gone[j]
    requires SearchTree(SetSlot(s.cells, n, Bits(s, t, n), x)[x := cell],
                        Tree(s, s.active) - Ids(gone) + {x}, s.rootIds[s.active], s.K)
    ensures Inv(Publish(s, t, n, Bits(s, t, n), x, cell, gone))
  {
    var b := Bits(s, t, n);
    assert NodeOk(s, n) && x !in Ids(gone);
    PublishSwaps(s, t, n, b, x, cell, gone);
    PublishMoves(s, t, n, b, x, cell, gone);
    PublishCall(s, t, n, b, x, cell, gone);
    SwapInv(s, Publish(s, t, n, b, x, cell, gone), t, n, Ids(gone), {x});
  }
}
