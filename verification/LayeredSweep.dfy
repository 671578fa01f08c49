/**
 Destroying a root of the layered trie, one slot at a time, and the theorems
 about whole runs.
 */
module LayeredSweep {

  import opened Nibbles
  import opened Tries
  import opened SearchTrees
  import opened LayeredTrie
  import opened LayeredSafety
  import opened LayeredRuns

  /** A node belongs to the tree of its last layer. */
  lemma InLastTree(s: State, n: Id)
    requires Inv(s) && n in s.cells
    ensures 0 <= Last(s, n) <= s.active && n in Tree(s, Last(s, n))
  {
    assert NodeOk(s, n) && PendingOk(s, n);
  }

  /** A parent in the tree of a node's last layer has the same last layer. */
  lemma ParentClass(s: State, m: Id, e: Nibble)
    requires Inv(s) && m in s.cells && e in s.cells[m].slots && s.cells[m].slots[e] in s.info
    requires 0 <= Last(s, s.cells[m].slots[e]) && m in Tree(s, Last(s, s.cells[m].slots[e]))
    ensures Last(s, m) == Last(s, s.cells[m].slots[e])
  {
    ChildOutlives(s, m, e);
    InLastTree(s, s.cells[m].slots[e]);
  }

  // ----- erasing a root -----

  lemma EraseScan(s: State, u: State, k: nat, p: Id, b: Nibble)
    requires Inv(s) && NextRoot(s, k) && k == s.erased <= s.active && p in s.cells
    requires u == EraseStep(s, k) && Alive(s, s.roots[k]) && s.roots[k] == s.rootIds[k]
    ensures ScanOk(u, p, b)
  {
    EraseEffect(s, u, k);
    if b in s.cells[p].slots {
      var c := s.cells[p].slots[b];
      ChildIsNoRoot(s, k, p, b);
      assert DeadOk(s, c) && DeadOk(s, p);
      assert u.sweep.stack[0].node == s.rootIds[k];
    }
  }

  lemma ChildIsNoRoot(s: State, k: nat, p: Id, b: Nibble)
    requires Inv(s) && k <= s.active && p in s.cells && b in s.cells[p].slots
    ensures s.cells[p].slots[b] in s.cells && s.cells[p].slots[b] in s.info && s.cells[p].slots[b] != s.rootIds[k]
  {
    assert NodeOk(s, p);
    InLastTree(s, p);
    assert LayerOk(s, k) && LayerOk(s, Last(s, p));
    assert Local(s.cells, Tree(s, Last(s, p)), s.K, p);
  }

  lemma EraseEffect(s: State, u: State, k: nat)
    requires NextRoot(s, k) && u == EraseStep(s, k) && Alive(s, s.roots[k])
    ensures u.cells == s.cells && u.info == s.info && u.doomed == s.doomed && u.active == s.active
    ensures u.erased == s.erased + 1 && u.dead == s.dead + {s.roots[k]}
    ensures u.sweep == s.sweep.(stack := [Frame(s.roots[k], 0, s.info[s.roots[k]].superseded)])
  {
  }

  lemma RootClass(s: State, k: nat)
    requires Inv(s) && k <= s.active
    ensures s.rootIds[k] in s.info && Last(s, s.rootIds[k]) == k
  {
    assert LayerOk(s, k);
    assert PendingOk(s, s.rootIds[k]);
  }

  lemma EraseDeaths(s: State, u: State, k: nat)
    requires Inv(s) && NextRoot(s, k) && k == s.erased <= s.active
    requires u == EraseStep(s, k) && Alive(s, s.roots[k]) && s.roots[k] == s.rootIds[k]
    ensures DeathsOk(u)
  {
    RootClass(s, k);
    forall n | n in u.cells ensures DeadOk(u, n) {
      assert DeadOk(s, n);
    }
  }

  lemma EraseStack(s: State, u: State, k: nat)
    requires Inv(s) && NextRoot(s, k) && k == s.erased <= s.active
    requires u == EraseStep(s, k) && Alive(s, s.roots[k]) && s.roots[k] == s.rootIds[k]
    ensures StackOk(u)
  {
    RootClass(s, k);
    var r := s.rootIds[k];
    forall p, b | p in u.cells ensures ScanOk(u, p, b) {
      EraseScan(s, u, k, p, b);
    }
    assert u.sweep.stack == [Frame(r, 0, s.info[r].superseded)];
    assert FrameOk(u, u.sweep.stack[0]);
  }

  lemma EraseInv(s: State, k: nat)
    requires Inv(s) && Enabled(s, DoErase(k))
    ensures Inv(EraseStep(s, k))
  {
    assert k == s.erased by {
      assert s.erased in s.roots;
    }
    RootClass(s, k);
    assert DeadOk(s, s.rootIds[k]);
    var u := EraseStep(s, k);
    Untouched(s, u);
    EraseDeaths(s, u, k);
    EraseStack(s, u, k);
  }

  // ----- inside a destructor -----

  /** The running destructor's activation. */
  function Top(s: State): Frame
    requires s.sweep.Sweeping? && |s.sweep.stack| > 0
  {
    s.sweep.stack[|s.sweep.stack| - 1]
  }

  ghost predicate Destroying(s: State) {
    && Inv(s) && s.sweep.Sweeping? && s.sweep.stack != []
  }

  /** A slot that is still ahead of the running destructor holds a live node. */
  lemma AheadIsAlive(s: State)
    requires Destroying(s) && Top(s).slot < 16 && Top(s).node in s.cells && Top(s).slot in s.cells[Top(s).node].slots
    ensures var c := s.cells[Top(s).node].slots[Top(s).slot];
      && Alive(s, c)
      && Top(s).superseded <= s.info[c].superseded
      && (Top(s).superseded == s.info[c].superseded <==> Last(s, c) == s.erased - 1)
  {
    var f := Top(s);
    var p, b := f.node, f.slot;
    var c := s.cells[p].slots[b];
    assert FrameOk(s, f);
    assert NodeOk(s, p) && PendingOk(s, p);
    assert NodeOk(s, c) && PendingOk(s, c) && DeadOk(s, c);
    ChildOutlives(s, p, b);
    assert ScanOk(s, p, b);
    if Closing(s) {
      QuietHasNoPending(s, p);
      QuietHasNoPending(s, c);
    }
  }

  /** Replacing the top frame by a sequence of frames. */
  function Restack(s: State, frames: seq<Frame>): State
    requires s.sweep.Sweeping? && |s.sweep.stack| > 0
  {
    s.(sweep := s.sweep.(stack := s.sweep.stack[..|s.sweep.stack| - 1] + frames))
  }

  /** Nothing else on the stack belongs to the node of the top frame. */
  lemma TopIsUnique(s: State, i: nat)
    requires Destroying(s) && i < |s.sweep.stack| - 1
    ensures s.sweep.stack[i].node != Top(s).node
  {
    assert FrameOk(s, s.sweep.stack[i]) && FrameOk(s, Top(s));
  }

  /** With the top node's frame at position `b`, its slots before `b` are scanned and the others are not. */
  lemma TopScanned(s: State, d: nat)
    requires Destroying(s)
    ensures Scanned(s, Top(s).node, d) <==> d < Top(s).slot
  {
    forall i: nat | i < |s.sweep.stack| - 1 ensures s.sweep.stack[i].node != Top(s).node {
      TopIsUnique(s, i);
    }
    assert s.sweep.stack[|s.sweep.stack| - 1] == Top(s);
  }

  lemma OthersScanned(s: State, frames: seq<Frame>, p: Id, d: nat)
    requires Destroying(s) && p != Top(s).node
    requires forall i | 0 <= i < |frames| :: frames[i].node != p
    ensures Scanned(s, p, d) <==> Scanned(Restack(s, frames), p, d)
  {
    var st, ut := s.sweep.stack, Restack(s, frames).sweep.stack;
    assert forall i | 0 <= i < |st| - 1 :: ut[i] == st[i];
    assert forall i | |st| - 1 <= i < |ut| :: ut[i] == frames[i - (|st| - 1)];
    assert st[|st| - 1] == Top(s);
  }

  /** The top node after its frame moved to slot `b`, or left the stack. */
  lemma NewTopScanned(s: State, frames: seq<Frame>, d: nat)
    requires Destroying(s)
    requires frames == [] || (frames[0].node == Top(s).node && forall i | 0 < i < |frames| ::
      frames[i].node != Top(s).node)
    ensures Scanned(Restack(s, frames), Top(s).node, d) <==> frames == [] || d < frames[0].slot
  {
    var u := Restack(s, frames);
    var st, ut := s.sweep.stack, u.sweep.stack;
    forall i: nat | i < |st| - 1 ensures ut[i].node != Top(s).node {
      TopIsUnique(s, i);
    }
    assert forall i | |st| - 1 <= i < |ut| :: ut[i] == frames[i - (|st| - 1)];
    if frames != [] {
      assert ut[|st| - 1] == frames[0];
    }
  }

  // The destructor passes a slot that holds nothing of this layer, or it ends.

  lemma PassScan(s: State, frames: seq<Frame>, p: Id, d: Nibble)
    requires Destroying(s) && p in s.cells
    requires frames == [] || (|frames| == 1 && frames[0].node == Top(s).node)
    requires forall e | e in s.cells[Top(s).node].slots && Top(s).slot <= e && (frames == [] || e < frames[0].slot) ::
               s.cells[Top(s).node].slots[e] in s.info && Last(s, s.cells[Top(s).node].slots[e]) != s.erased - 1
    requires frames != [] ==> Top(s).slot <= frames[0].slot
    requires Top(s).node in s.cells
    ensures ScanOk(Restack(s, frames), p, d)
  {
    assert ScanOk(s, p, d);
    if p == Top(s).node {
      TopScanned(s, d);
      NewTopScanned(s, frames, d);
    } else {
      OthersScanned(s, frames, p, d);
    }
  }

  lemma RestackFrames(s: State, frames: seq<Frame>)
    requires Destroying(s) && |frames| <= 1
    requires frames != [] ==> frames[0].node == Top(s).node && frames[0].superseded == Top(s).superseded
    requires frames != [] ==> frames[0].slot <= 16
    ensures var u := Restack(s, frames);
      && (forall i | 0 <= i < |u.sweep.stack| :: FrameOk(u, u.sweep.stack[i]))
      && (forall i, j | 0 <= i < j < |u.sweep.stack| ::
            u.cells[u.sweep.stack[i].node].prefix < u.cells[u.sweep.stack[j].node].prefix)
  {
    var u := Restack(s, frames);
    var st, ut := s.sweep.stack, u.sweep.stack;
    forall i | 0 <= i < |ut| ensures FrameOk(u, ut[i]) && ut[i].node == st[i].node {
      assert FrameOk(s, st[i]);
    }
  }

  lemma AdvanceInv(s: State)
    requires Destroying(s) && Top(s).node in s.cells && Top(s).slot < 16
    requires Top(s).slot in s.cells[Top(s).node].slots ==>
               s.cells[Top(s).node].slots[Top(s).slot] in s.info
               && Last(s, s.cells[Top(s).node].slots[Top(s).slot]) != s.erased - 1
    ensures Inv(Restack(s, [Frame(Top(s).node, Top(s).slot + 1, Top(s).superseded)]))
  {
    var frames := [Frame(Top(s).node, Top(s).slot + 1, Top(s).superseded)];
    var u := Restack(s, frames);
    assert u.sweep.stack != [];
    SweepMove(s, u);
    RestackFrames(s, frames);
    forall p, d | p in u.cells ensures ScanOk(u, p, d) {
      PassScan(s, frames, p, d);
    }
  }

  /** When the last destructor ends, every node of the erased layer is dead. */
  lemma {:induction false} LayerIsDead(s: State, n: Id)
    requires Destroying(s) && |s.sweep.stack| == 1
    requires forall p, d | p in s.cells :: ScanOk(Restack(s, []), p, d)
    requires n in s.cells && Last(s, n) == s.erased - 1
    ensures n in s.dead
    decreases |s.cells[n].prefix|
  {
    var k := s.erased - 1;
    var u := Restack(s, []);
    assert u.sweep.stack == [];
    InLastTree(s, n);
    assert LayerOk(s, k);
    if n != s.rootIds[k] {
      assert Leads(s.cells, s.rootIds[k], n);
      assert [] < s.cells[n].prefix;
      var m, e := Parent(s.cells, Tree(s, k), s.rootIds[k], s.K, s.rootIds[k], n);
      ParentClass(s, m, e);
      LayerIsDead(s, m);
      assert ScanOk(u, m, e);
    }
  }

  lemma PopInv(s: State)
    requires Destroying(s) && Top(s).node in s.cells
    requires Top(s).slot >= 16 || s.cells[Top(s).node].slots == map[]
    ensures Inv(Restack(s, []))
  {
    var u := Restack(s, []);
    Untouched(s, u);
    forall p, d | p in u.cells ensures ScanOk(u, p, d) {
      PassScan(s, [], p, d);
    }
    RestackFrames(s, []);
    forall n | n in u.cells ensures DeadOk(u, n) {
      assert DeadOk(s, n);
      if |s.sweep.stack| == 1 && Last(s, n) == s.erased - 1 {
        LayerIsDead(s, n);
      }
    }
  }

  // The destructor descends into a child of the same layer.

  /** The state after the running destructor passed its slot and deleted the child `c` found there. */
  function Descended(s: State, c: Id): State
    requires s.sweep.Sweeping? && |s.sweep.stack| > 0 && c in s.info
  {
    Restack(s, [Frame(Top(s).node, Top(s).slot + 1, Top(s).superseded), Frame(c, 0, s.info[c].superseded)])
      .(dead := s.dead + {c})
  }

  /** `c` sits in the slot the running destructor looks at, and belongs to the same layer. */
  ghost predicate Next(s: State, c: Id) {
    && Destroying(s) && Top(s).node in s.cells && Top(s).slot < 16
    && Top(s).slot in s.cells[Top(s).node].slots && s.cells[Top(s).node].slots[Top(s).slot] == c
    && Alive(s, c) && Last(s, c) == s.erased - 1
  }

  lemma NextFacts(s: State, c: Id)
    requires Next(s, c)
    ensures Top(s).node != c && s.cells[Top(s).node].prefix < s.cells[c].prefix
    ensures forall p, d | p in s.cells && d in s.cells[p].slots && s.cells[p].slots[d] == c
      && Last(s, p) == s.erased - 1 ::
              p == Top(s).node && d == Top(s).slot
    ensures forall d | d in s.cells[c].slots :: s.cells[c].slots[d] != c
  {
    var k := s.erased - 1;
    var p0 := Top(s).node;
    assert FrameOk(s, Top(s));
    InLastTree(s, p0);
    InLastTree(s, c);
    assert LayerOk(s, k);
    assert Local(s.cells, Tree(s, k), s.K, p0) && Local(s.cells, Tree(s, k), s.K, c);
    forall p, d | p in s.cells && d in s.cells[p].slots && s.cells[p].slots[d] == c && Last(s, p) == k
      ensures p == p0 && d == Top(s).slot
    {
      InLastTree(s, p);
      UniqueParent(s.cells, Tree(s, k), s.rootIds[k], s.K, p, d, p0, Top(s).slot);
    }
  }

  lemma DescendScan(s: State, c: Id, p: Id, d: Nibble)
    requires Next(s, c) && p in s.cells
    ensures ScanOk(Descended(s, c), p, d)
  {
    NextFacts(s, c);
    var u := Descended(s, c);
    var frames := [Frame(Top(s).node, Top(s).slot + 1, Top(s).superseded), Frame(c, 0, s.info[c].superseded)];
    assert ScanOk(s, p, d);
    if p == Top(s).node {
      TopScanned(s, d);
      NewTopScanned(s, frames, d);
    } else if p == c {
      assert u.sweep.stack[|u.sweep.stack| - 1] == Frame(c, 0, s.info[c].superseded);
      assert !Scanned(u, p, d);
    } else {
      OthersScanned(s, frames, p, d);
    }
  }

  lemma DescendFrames(s: State, c: Id)
    requires Next(s, c)
    ensures var u := Descended(s, c);
      && (forall i | 0 <= i < |u.sweep.stack| :: FrameOk(u, u.sweep.stack[i]))
      && (forall i, j | 0 <= i < j < |u.sweep.stack| ::
            u.cells[u.sweep.stack[i].node].prefix < u.cells[u.sweep.stack[j].node].prefix)
  {
    NextFacts(s, c);
    var u := Descended(s, c);
    var st, ut := s.sweep.stack, u.sweep.stack;
    assert |ut| == |st| + 1;
    forall i | 0 <= i < |st| ensures FrameOk(u, ut[i]) && ut[i].node == st[i].node {
      assert FrameOk(s, st[i]);
    }
    assert ut[|st|] == Frame(c, 0, s.info[c].superseded);
    assert FrameOk(u, ut[|st|]);
    forall i, j | 0 <= i < j < |ut| ensures u.cells[ut[i].node].prefix < u.cells[ut[j].node].prefix {
      if j == |st| && i < |st| - 1 {
        assert s.cells[st[i].node].prefix < s.cells[st[|st| - 1].node].prefix;
      }
    }
  }

  lemma DescendInv(s: State, c: Id)
    requires Next(s, c)
    ensures Inv(Descended(s, c))
  {
    var u := Descended(s, c);
    Untouched(s, u);
    DescendFrames(s, c);
    forall p, d | p in u.cells ensures ScanOk(u, p, d) {
      DescendScan(s, c, p, d);
    }
    forall n | n in u.cells ensures DeadOk(u, n) {
      assert DeadOk(s, n);
    }
  }

  /** A node under destruction carries a stamp. */
  lemma TopIsCommitted(s: State)
    requires Destroying(s)
    ensures Top(s).superseded != 0
  {
    assert FrameOk(s, Top(s));
    assert NodeOk(s, Top(s).node) && PendingOk(s, Top(s).node);
    if Closing(s) {
      QuietHasNoPending(s, Top(s).node);
    }
  }

  lemma EndingInv(s: State)
    requires Destroying(s) && Top(s).node in s.cells && (IsLeaf(s, Top(s).node) || Top(s).slot >= 16)
    ensures Inv(Restack(s, []))
  {
    var p := Top(s).node;
    InLastTree(s, p);
    assert LayerOk(s, Last(s, p));
    assert Local(s.cells, Tree(s, Last(s, p)), s.K, p);
    PopInv(s);
  }

  lemma PassingInv(s: State)
    requires Destroying(s) && Top(s).node in s.cells && Top(s).slot < 16 && Top(s).slot in s.cells[Top(s).node].slots
    ensures var c := s.cells[Top(s).node].slots[Top(s).slot];
      && Alive(s, c)
      && Top(s).superseded <= s.info[c].superseded
      && Inv(if Top(s).superseded == s.info[c].superseded then Descended(s, c)
             else Restack(s, [Frame(Top(s).node, Top(s).slot + 1, Top(s).superseded)]))
  {
    var c := s.cells[Top(s).node].slots[Top(s).slot];
    AheadIsAlive(s);
    if Top(s).superseded == s.info[c].superseded {
      DescendInv(s, c);
    } else {
      AdvanceInv(s);
    }
  }

  /** What one turn of the destructor's loop does to the stack when no fault occurs. */
  lemma DestructShape(s: State)
    requires s.sweep.Sweeping? && |s.sweep.stack| > 0 && Top(s).node in s.cells && Top(s).superseded != 0
    ensures var Frame(p, b, sup) := Top(s);
      if IsLeaf(s, p) || b >= 16 then DestructStep(s) == Restack(s, [])
      else if b !in s.cells[p].slots then DestructStep(s) == Restack(s, [Frame(p, b + 1, sup)])
      else
        var c := s.cells[p].slots[b];
        Alive(s, c) && sup <= s.info[c].superseded ==>
          DestructStep(s) == if sup == s.info[c].superseded then Descended(s, c) else Restack(s, [Frame(p, b + 1, sup)])
  {
    var Frame(p, b, sup) := Top(s);
    var rest := s.sweep.stack[..|s.sweep.stack| - 1];
    assert rest + [] == rest;
    if b in s.cells[p].slots && s.cells[p].slots[b] in s.info {
      var f, g := Frame(p, b + 1, sup), Frame(s.cells[p].slots[b], 0, s.info[s.cells[p].slots[b]].superseded);
      assert rest + [f] + [g] == rest + [f, g];
    }
  }

  lemma DestructInv(s: State)
    requires Inv(s) && Enabled(s, DoDestruct)
    ensures Inv(DestructStep(s))
  {
    assert FrameOk(s, Top(s));
    TopIsCommitted(s);
    DestructShape(s);
    if IsLeaf(s, Top(s).node) || Top(s).slot >= 16 {
      EndingInv(s);
    } else if Top(s).slot !in s.cells[Top(s).node].slots {
      AdvanceInv(s);
    } else {
      PassingInv(s);
    }
  }

  // ----- whole runs -----

  lemma StepBefore(s: State, step: Step, v: State, run: seq<Step>, u: State)
    requires Enabled(s, step) && v == Apply(s, step) && Executes(v, run, u)
    ensures Executes(s, [step] + run, u)
  {
    assert ([step] + run)[1..] == run;
  }

  lemma {:induction false} ExecutesConcat(z: State, run: seq<Step>, s: State, more: seq<Step>, u: State)
    requires Executes(z, run, s) && Executes(s, more, u)
    ensures Executes(z, run + more, u)
    decreases |run|
  {
    if run == [] {
      assert run + more == more;
    } else {
      ExecutesConcat(Apply(z, run[0]), run[1..], s, more, u);
      assert (run + more)[1..] == run[1..] + more;
    }
  }

  lemma StepInv(s: State, step: Step)
    requires Inv(s) && Enabled(s, step)
    ensures Inv(Apply(s, step))
  {
    match step
    case DoBegin(t, key, collect) => BeginInv(s, t, key, collect);
    case DoVisit(t, e) => VisitInv(s, t, e);
    case DoChoose(t, x) => ChooseInv(s, t, x);
    case DoCommit(t) => CommitInv(s, t);
    case DoStamp(t) => StampInv(s, t);
    case DoBump(x) => BumpInv(s, x);
    case DoRaise(to) =>
      var lb := if to > s.lowerBound then to else s.lowerBound;
      FreeBoundFits(lb, s.active);
      StartInv(s, Sweeping(FreeBound(lb, s.active), [], false), lb);
    case DoClose => StartInv(s, Sweeping(s.active, [], true), s.lowerBound);
    case DoErase(k) => EraseInv(s, k);
    case DoDestruct => DestructInv(s);
    case DoEnd => EndInv(s);
  }

  lemma {:induction false} RunInv(s: State, run: seq<Step>, u: State)
    requires Inv(s) && Executes(s, run, u)
    ensures Inv(u)
    decreases |run|
  {
    if run != [] {
      StepInv(s, run[0]);
      RunInv(Apply(s, run[0]), run[1..], u);
    }
  }

  /**
   Reclamation is safe: in every interleaving of inserts, collections, layer
   bumps and sweeps nobody touches a destroyed node, no node is destroyed twice,
   and the destructor's `std::terminate` is not reached.
   */
  lemma NoFaults(s: State, K: nat, run: seq<Step>, u: State)
    requires Init(s, K) && Executes(s, run, u)
    ensures u.fault == NoFault
  {
    InitInv(s, K);
    RunInv(s, run, u);
  }

  /**
   Once a layer is finalised, its root reaches exactly the nodes made no later
   than it and superseded after it.
   */
  lemma ReachableExactly(s: State, K: nat, run: seq<Step>, u: State, k: nat, n: Id)
    requires Init(s, K) && Executes(s, run, u) && k < u.active
    ensures k < |u.rootIds|
    ensures Reachable(u.cells, u.rootIds[k], n) <==>
              n in u.info && u.info[n].layer <= k < u.info[n].superseded
  {
    InitInv(s, K);
    RunInv(s, run, u);
    assert LayerOk(u, k);
    TreeIsReachable(u.cells, Tree(u, k), u.rootIds[k], u.K, n);
    if n in u.info {
      assert NodeOk(u, n) && PendingOk(u, n);
    }
  }

  /** Whatever a retained root reaches is intact. */
  lemma RetainedIsAlive(s: State, K: nat, run: seq<Step>, u: State, k: nat, n: Id)
    requires Init(s, K) && Executes(s, run, u) && k in u.roots
    requires Reachable(u.cells, u.roots[k], n)
    ensures Alive(u, n)
  {
    InitInv(s, K);
    RunInv(s, run, u);
    assert u.roots[k] == u.rootIds[k];
    assert LayerOk(u, k);
    TreeIsReachable(u.cells, Tree(u, k), u.rootIds[k], u.K, n);
    assert NodeOk(u, n) && DeadOk(u, n);
  }

  /** After the trie's destructor every node that was ever published has been destroyed (and, by `NoFaults`, once). */
  lemma EverythingIsFreed(s: State, K: nat, run: seq<Step>, u: State)
    requires Init(s, K) && Executes(s, run, u) && u.sweep.Closed?
    ensures u.dead == u.cells.Keys
  {
    InitInv(s, K);
    RunInv(s, run, u);
    ClosedIsDead(u);
  }

  lemma ClosedIsDead(s: State)
    requires Inv(s) && s.sweep.Closed?
    ensures s.dead == s.cells.Keys
  {
    forall n | n in s.cells ensures n in s.dead {
      assert DeadOk(s, n);
      InLastTree(s, n);
    }
  }
}
