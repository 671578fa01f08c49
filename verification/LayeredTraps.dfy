/**
 When `insert` on the layered trie throws, as a condition on the state before the
 call.

 A key is trapped when some node of an older layer that is still in the active
 tree prefixes it, has one child, and starts a one-child chain that ends in a node
 which does not prefix the key.  An untrapped key is safe under every schedule; a
 call for a trapped key that runs alone throws.
 */
module LayeredTraps {

  import opened Nibbles
  import opened Tries
  import opened SearchTrees
  import opened LayeredTrie
  import opened LayeredSafety
  import opened LayeredRuns
  import opened LayeredSweep
  import opened LayeredMaps
  import opened LayeredCalls

  /** The node at which the one-child chain from `n` ends. */
  function ChainEnd(s: State, n: Id): Id {
    var w := Walk(s, n);
    w[|w| - 1]
  }

  predicate TrapAt(s: State, key: Key, z: Id) {
    && z in Tree(s, s.active) && z in s.cells && s.info[z].layer < s.active
    && s.cells[z].prefix <= key && s.info[z].kids == 1
    && ChainEnd(s, z) in s.cells && !(s.cells[ChainEnd(s, z)].prefix <= key)
  }

  ghost predicate Trapped(s: State, key: Key) {
    exists z :: TrapAt(s, key, z)
  }

  // ----- no step within a layer sets a trap -----

  /** Chains of older nodes are as before. */
  lemma {:induction false} WalkFrozen(s: State, u: State, n: Id)
    requires NodesOk(s) && NodesOk(u) && Frozen(s, u) && s.cells.Keys == s.info.Keys
    requires n in s.cells && s.info[n].layer < s.active
    ensures Walk(u, n) == Walk(s, n)
    decreases if |s.cells[n].prefix| <= s.K then s.K - |s.cells[n].prefix| else 0
  {
    assert NodeOk(s, n) && NodeOk(u, n);
    var y := OnlyKid(s, n);
    assert OnlyKid(u, n) == y;
    if y.Some? {
      if |s.cells[n].prefix| < |s.cells[y.value].prefix| <= s.K {
        WalkFrozen(s, u, y.value);
      }
    }
  }

  /** Older nodes of the active tree were there before: that set only shrinks. */
  ghost predicate Aged(s: State, u: State) {
    && u.active == s.active
    && forall n | n in u.info && u.info[n].layer < s.active ::
         && n in s.info && s.info[n].layer == u.info[n].layer
         && (s.active < Effective(u, n) ==> s.active < Effective(s, n))
  }

  lemma PublishAges(s: State, t: Tid, n: Id, b: Nibble, x: Id, cell: Cell, gone: seq<Id>)
    requires t in s.calls && n in s.cells && n in s.info
    ensures Aged(s, Publish(s, t, n, b, x, cell, gone))
  {
  }

  lemma UnlinkAges(s: State, t: Tid, n: Id, b: Nibble, gone: seq<Id>)
    requires t in s.calls && n in s.cells && n in s.info
    ensures Aged(s, Unlink(s, t, n, b, gone))
  {
  }

  lemma ChooseAges(s: State, t: Tid, x: Id)
    requires Enabled(s, DoChoose(t, x)) && CallOk(s, t)
    ensures Aged(s, ChooseStep(s, t, x))
  {
    var n, turn := s.calls[t].pc.node, TurnOf(s, t);
    if turn.Put? {
      PublishAges(s, t, n, s.calls[t].key[|s.cells[n].prefix|], x, turn.cell, turn.gone);
    } else if turn.Cut? {
      UnlinkAges(s, t, n, s.calls[t].key[|s.cells[n].prefix|], turn.gone);
    }
  }

  lemma VisitAges(s: State, t: Tid, e: Entry)
    requires t in s.calls && s.calls[t].pc.Visit?
    ensures Aged(s, VisitStep(s, t, e))
  {
    assert VisitStep(s, t, e).info == s.info && VisitStep(s, t, e).doomed == s.doomed;
  }

  lemma CommitAges(s: State, t: Tid)
    requires Enabled(s, DoCommit(t)) && CallOk(s, t)
    ensures Aged(s, CommitStep(s, t))
  {
  }

  lemma StampAges(s: State, t: Tid)
    requires Inv(s) && Enabled(s, DoStamp(t)) && CallOk(s, t)
    ensures Aged(s, StampStep(s, t))
  {
    var z := s.calls[t].pc.todo[0];
    assert z == Todo(s.calls[t].pc)[0];
    RestampAges(s, StampStep(s, t), z);
  }

  lemma RestampAges(s: State, u: State, z: Id)
    requires u.active == s.active && z in s.doomed && z in s.info
    requires || (u.info == s.info && u.doomed == s.doomed)
             || (u.info == s.info[z := s.info[z].(superseded := s.active)] && u.doomed == s.doomed - {z})
    ensures Aged(s, u)
  {
  }

  lemma StepAges(s: State, step: Step)
    requires Inv(s) && Enabled(s, step) && !step.DoBump?
    ensures Aged(s, Apply(s, step))
  {
    match step
    case DoBegin(_, _, _) =>
    case DoVisit(t, e) => VisitAges(s, t, e);
    case DoChoose(t, x) =>
      assert CallOk(s, t);
      ChooseAges(s, t, x);
    case DoCommit(t) =>
      assert CallOk(s, t);
      CommitAges(s, t);
    case DoStamp(t) =>
      assert CallOk(s, t);
      StampAges(s, t);
    case _ => SweepKeepsTree(s, step);
  }

  lemma TrapWasThere(s: State, u: State, key: Key, z: Id)
    requires Inv(s) && Inv(u) && Frozen(s, u) && Aged(s, u) && TrapAt(u, key, z)
    ensures TrapAt(s, key, z)
  {
    assert NodeOk(u, z);
    OldNodeKept(s, u, z);
    WalkFrozen(s, u, z);
    OldChain(s, z);
    OldNodeKept(s, u, ChainEnd(s, z));
  }

  /** An older node is as it was. */
  lemma OldNodeKept(s: State, u: State, n: Id)
    requires NodesOk(s) && NodesOk(u) && Frozen(s, u) && n in s.cells && n in s.info && s.info[n].layer < s.active
    ensures n in u.cells && n in u.info && u.cells[n] == s.cells[n]
    ensures u.info[n].layer == s.info[n].layer && u.info[n].kids == s.info[n].kids
  {
    assert NodeOk(s, n) && NodeOk(u, n);
  }

  /** The end of a chain of an older node is an older node. */
  lemma OldChain(s: State, z: Id)
    requires Inv(s) && z in Tree(s, s.active) && z in s.cells && s.info[z].layer < s.active
    ensures ChainEnd(s, z) in s.cells && s.info[ChainEnd(s, z)].layer < s.active
  {
    OldChild(s, z);
    WalkIsChain(s, s.active - 1, z);
  }

  lemma NoNewTrap(s: State, step: Step, key: Key)
    requires Inv(s) && Enabled(s, step) && !step.DoBump? && !Trapped(s, key)
    ensures !Trapped(Apply(s, step), key)
  {
    var u := Apply(s, step);
    StepInv(s, step);
    StepFreezes(s, step);
    StepAges(s, step);
    if Trapped(u, key) {
      var z :| TrapAt(u, key, z);
      TrapWasThere(s, u, key, z);
    }
  }

  // ----- an untrapped key is safe -----

  /** A call that collapses a chain aside of its key was trapped. */
  lemma AsideIsTrapped(s: State, t: Tid)
    requires Inv(s) && CollapsesAside(s, t) && CallOk(s, t)
    ensures Trapped(s, s.calls[t].key)
  {
    var n, c := s.calls[t].pc.node, s.calls[t].pc.child.value;
    ActiveTree(s, n);
    assert TrapAt(s, s.calls[t].key, c);
  }

  /** The call is not lost, and while it is in flight its key is not trapped. */
  ghost predicate Safe(s: State, t: Tid, key: Key) {
    && t in s.calls && s.calls[t].key == key && !Lost(s, t)
    && (Done(s.calls[t]) || !Trapped(s, key))
  }

  lemma StepStaysSafe(s: State, step: Step, t: Tid, key: Key)
    requires Inv(s) && Enabled(s, step) && Safe(s, t, key)
    ensures Safe(Apply(s, step), t, key)
  {
    assert CallOk(s, t);
    StepEnds(s, step, t);
    if By(step, t) {
      OwnStepKeepsCall(s, step, t);
    } else {
      OthersStay(s, step, t);
    }
    if Strays(s, step, t) { AsideIsTrapped(s, t); }
    if !Done(s.calls[t]) {
      assert !Quiet(s);
      NoNewTrap(s, step, key);
    }
  }

  lemma {:induction false} RunStaysSafe(s: State, run: seq<Step>, u: State, t: Tid, key: Key)
    requires Inv(s) && Executes(s, run, u) && Safe(s, t, key)
    ensures Safe(u, t, key)
    decreases |run|
  {
    if run != [] {
      StepStaysSafe(s, run[0], t, key);
      StepInv(s, run[0]);
      RunStaysSafe(Apply(s, run[0]), run[1..], u, t, key);
    }
  }

  /** Whatever the schedule, a call whose key is not trapped when it begins does not throw. */
  lemma UntrappedIsSafe(s: State, t: Tid, key: Key, collect: bool, run: seq<Step>, u: State)
    requires Inv(s) && Enabled(s, DoBegin(t, key, collect)) && !Trapped(s, key)
    requires Executes(Begin(s, t, key, collect), run, u)
    ensures t in u.calls && !u.calls[t].pc.Threw?
  {
    var step := DoBegin(t, key, collect);
    StepInv(s, step);
    BeginEnds(s, step, t);
    NoNewTrap(s, step, key);
    RunStaysSafe(Begin(s, t, key, collect), run, u, t, key);
  }

  // ----- a trapped call that runs alone -----

  /** The call is above trap `z` on the way to it, and has seen what its slot holds. */
  ghost predicate Bound(s: State, t: Tid, z: Id) {
    && t in s.calls && TrapAt(s, s.calls[t].key, z)
    && var Call(key, _, pc) := s.calls[t];
    && Target(pc).Some? && Target(pc).value in s.cells
    && var n := Target(pc).value;
    && s.cells[n].prefix < s.cells[z].prefix
    && (pc.Choose? ==> pc == Loaded(s, n, key[|s.cells[n].prefix|]))
  }

  ghost predicate Doomed(s: State, t: Tid) {
    Lost(s, t) || exists z :: Bound(s, t, z)
  }

  lemma TrapStays(s: State, step: Step, key: Key, z: Id)
    requires Inv(s) && Enabled(s, step) && !step.DoBump? && TrapAt(s, key, z)
    requires var u := Apply(s, step); u.active == s.active && z in Tree(u, u.active)
    ensures TrapAt(Apply(s, step), key, z)
  {
    var u := Apply(s, step);
    StepInv(s, step);
    StepFreezes(s, step);
    WalkFrozen(s, u, z);
    OldChain(s, z);
    assert NodeOk(s, z) && NodeOk(u, z);
  }

  /** The child towards a trap. */
  lemma Towards(s: State, t: Tid, z: Id) returns (c: Id)
    requires Inv(s) && Bound(s, t, z) && s.calls[t].pc.Choose?
    ensures s.calls[t].pc.child == Some(c) && c in s.cells && c in Tree(s, s.active)
    ensures var n, key := s.calls[t].pc.node, s.calls[t].key;
      && Below(s, n, key) && SlotHolds(s, n, key[|s.cells[n].prefix|], c)
      && s.cells[n].prefix < s.cells[c].prefix <= s.cells[z].prefix
  {
    assert CallOk(s, t);
    var n, key := s.calls[t].pc.node, s.calls[t].key;
    ActiveTree(s, n);
    assert Leads(s.cells, n, z);
    c := s.cells[n].slots[key[|s.cells[n].prefix|]];
  }

  predicate Below(s: State, n: Id, key: Key) {
    n in s.cells && s.cells[n].prefix < key
  }

  lemma {:induction false} WalkTail(s: State, n: Id, i: nat)
    requires i < |Walk(s, n)|
    ensures Walk(s, Walk(s, n)[i]) == Walk(s, n)[i..]
    decreases i
  {
    if i > 0 {
      var y := OnlyKid(s, n).value;
      assert Walk(s, n) == [n] + Walk(s, y);
      WalkTail(s, y, i - 1);
      assert Walk(s, n)[i..] == Walk(s, y)[i - 1..];
    }
  }

  /** A trap below a chain that does not end aside is below the end of the chain. */
  lemma TrapBelowChain(s: State, key: Key, c: Id, z: Id)
    requires Inv(s) && c in Tree(s, s.active) && c in s.cells && TrapAt(s, key, z)
    requires s.cells[c].prefix <= s.cells[z].prefix
    requires ChainEnd(s, c) in s.cells ==> s.cells[ChainEnd(s, c)].prefix <= key
    ensures z !in Walk(s, c) && ChainEnd(s, c) in s.cells
    ensures s.cells[c].prefix <= s.cells[ChainEnd(s, c)].prefix < s.cells[z].prefix
  {
    var w := Walk(s, c);
    WalkDistinct(s, c);
    assert LayerOk(s, s.active);
    if z in w {
      var i :| 0 <= i < |w| && w[i] == z;
      WalkTail(s, c, i);
      assert false;
    }
    BelowChain(s.cells, Tree(s, s.active), s.rootIds[s.active], s.K, w, |w| - 1, z);
    ChainGrows(s.cells, Tree(s, s.active), s.rootIds[s.active], s.K, w, 0, |w| - 1);
  }

  /** What the loop does on the way to a trap: descend, or copy the end of a chain above the trap. */
  lemma TurnTowards(s: State, t: Tid, x: Id, z: Id) returns (c: Id)
    requires Inv(s) && Enabled(s, DoChoose(t, x)) && Bound(s, t, z) && !CollapsesAside(s, t)
    ensures c in s.cells && c in s.info && c in Tree(s, s.active) && s.calls[t].pc.node in s.cells
    ensures s.cells[s.calls[t].pc.node].prefix < s.cells[c].prefix <= s.cells[z].prefix
    ensures if s.info[c].layer == s.active then TurnOf(s, t) == Move(Visit(c))
      else
        && ChainEnd(s, c) in s.cells && z !in Walk(s, c)
        && TurnOf(s, t) == Put(s.cells[ChainEnd(s, c)], Walk(s, c))
        && s.cells[c].prefix <= s.cells[ChainEnd(s, c)].prefix < s.cells[z].prefix
  {
    c := Towards(s, t, z);
    var n, key := s.calls[t].pc.node, s.calls[t].key;
    TurnEnds(s, t, x);
    assert CallOk(s, t) && NodeOk(s, c);
    MatchLenAtLeast(s.cells[c].prefix, key, |s.cells[c].prefix|);
    if s.info[c].layer != s.active {
      TowardsHasKids(s, c, z);
      CollapseTowards(s, t, c, z);
      TrapBelowChain(s, key, c, z);
    }
  }

  /** A node above a trap, or at it, has a child. */
  lemma TowardsHasKids(s: State, c: Id, z: Id)
    requires Inv(s) && c in Tree(s, s.active) && c in s.cells && z in Tree(s, s.active) && z in s.cells
    requires s.cells[c].prefix <= s.cells[z].prefix && s.info[z].kids == 1
    ensures s.info[c].kids > 0
  {
    assert LayerOk(s, s.active) && NodeOk(s, c);
    assert Leads(s.cells, c, z);
    if c != z { assert s.cells[c].slots != map[]; }
  }

  /** If the chain ends aside, the call collapses it. */
  lemma CollapseTowards(s: State, t: Tid, c: Id, z: Id)
    requires Inv(s) && Bound(s, t, z) && s.calls[t].pc.Choose? && s.calls[t].pc.child == Some(c)
    requires c in s.cells && c in Tree(s, s.active) && s.info[c].layer < s.active
    requires var n, key := s.calls[t].pc.node, s.calls[t].key;
      && Below(s, n, key) && SlotHolds(s, n, key[|s.cells[n].prefix|], c) && s.cells[c].prefix <= key
    ensures ChainEnd(s, c) in s.cells
    ensures CollapsesAside(s, t) || s.cells[ChainEnd(s, c)].prefix <= s.calls[t].key
  {
    OldChain(s, c);
    assert CallOk(s, t);
    if s.info[c].kids != 1 { EmptyWalk(s, c); }
  }

  // ----- progress of a call that runs alone -----

  function Rank(pc: Pc): nat {
    match pc
    case Choose(_, _) => 0
    case Visit(_) => 1
    case Stamp(todo, _) => 1 + |todo|
    case Commit(_, todo) => 2 + |todo|
    case Returned => 0
    case Threw => 0
  }

  /** How far the call is from the leaves. */
  function Left(s: State, t: Tid): nat
    requires t in s.calls
  {
    var n := Target(s.calls[t].pc);
    if n.Some? && n.value in s.cells && |s.cells[n.value].prefix| <= s.K then s.K - |s.cells[n.value].prefix| else 0
  }

  ghost predicate Nearer(s: State, u: State, t: Tid) {
    && t in s.calls && t in u.calls
    && (u.calls[t].pc.Threw? || Left(u, t) < Left(s, t)
        || (Left(u, t) == Left(s, t) && Rank(u.calls[t].pc) < Rank(s.calls[t].pc)))
  }

  /** Commits and stamps bring the call nearer and leave its target alone. */
  lemma CommitNears(s: State, t: Tid)
    requires Inv(s) && Enabled(s, DoCommit(t))
    ensures var u := CommitStep(s, t);
      && Nearer(s, u, t) && Target(u.calls[t].pc) == Target(s.calls[t].pc) && !u.calls[t].pc.Choose?
      && u.calls[t].key == s.calls[t].key && u.cells == s.cells && u.active == s.active
      && forall z | z in Tree(s, s.active) && s.info[z].layer < s.active :: z in Tree(u, u.active)
  {
    assert CallOk(s, t);
    assert !Closing(s);
    HereFacts(s, s.calls[t].pc.published);
  }

  lemma StampNears(s: State, t: Tid)
    requires Inv(s) && Enabled(s, DoStamp(t)) && s.calls[t].pc.next.Some?
    ensures var u := StampStep(s, t);
      && Nearer(s, u, t) && Target(u.calls[t].pc) == Target(s.calls[t].pc) && !u.calls[t].pc.Choose?
      && u.calls[t].key == s.calls[t].key && u.cells == s.cells && u.active == s.active
      && forall z | z in Tree(s, s.active) && s.info[z].layer < s.active :: z in Tree(u, u.active)
  {
    var z := s.calls[t].pc.todo[0];
    assert CallOk(s, t);
    assert z == Todo(s.calls[t].pc)[0];
    assert PendingOk(s, z);
    CurrentIsAlive(s, z);
  }

  lemma CommitDoomed(s: State, t: Tid)
    requires Inv(s) && Enabled(s, DoCommit(t)) && Doomed(s, t)
    ensures Doomed(CommitStep(s, t), t) && Nearer(s, CommitStep(s, t), t)
  {
    CommitNears(s, t);
    CommitEnds(s, t);
    if z :| Bound(s, t, z) {
      TrapStays(s, DoCommit(t), s.calls[t].key, z);
      assert Bound(CommitStep(s, t), t, z);
    }
  }

  lemma StampDoomed(s: State, t: Tid)
    requires Inv(s) && Enabled(s, DoStamp(t)) && Doomed(s, t)
    ensures Doomed(StampStep(s, t), t) && Nearer(s, StampStep(s, t), t)
  {
    StampNears(s, t);
    StampEnds(s, t);
    if z :| Bound(s, t, z) {
      TrapStays(s, DoStamp(t), s.calls[t].key, z);
      assert Bound(StampStep(s, t), t, z);
    }
  }

  lemma VisitDoomed(s: State, t: Tid, e: Entry)
    requires Inv(s) && Enabled(s, DoVisit(t, e)) && Doomed(s, t)
    ensures Doomed(VisitStep(s, t, e), t) && Nearer(s, VisitStep(s, t, e), t)
  {
    VisitEnds(s, t, e);
    if !Lost(s, t) {
      var z :| Bound(s, t, z);
      var n := s.calls[t].pc.node;
      assert CallOk(s, t);
      assert !Closing(s);
      HereFacts(s, n);
      assert VisitStep(s, t, e) == Reload(s, t, n, s.calls[t].key[|s.cells[n].prefix|]);
      ReloadBound(s, t, e, z);
    }
  }

  lemma ReloadBound(s: State, t: Tid, e: Entry, z: Id)
    requires Inv(s) && Enabled(s, DoVisit(t, e)) && Bound(s, t, z)
    requires var n := s.calls[t].pc.node;
      n in s.cells && VisitStep(s, t, e) == Reload(s, t, n, s.calls[t].key[|s.cells[n].prefix|])
    ensures Bound(VisitStep(s, t, e), t, z)
  {
    TrapStays(s, DoVisit(t, e), s.calls[t].key, z);
  }

  lemma PublishKeepsMember(s: State, t: Tid, n: Id, b: Nibble, x: Id, cell: Cell, gone: seq<Id>, z: Id)
    requires t in s.calls && n in s.cells && n in s.info && x !in s.info
    requires z in Tree(s, s.active) && s.info[z].layer < s.active && z !in gone
    ensures z in Tree(Publish(s, t, n, b, x, cell, gone), s.active)
  {
  }

  /** A chain of the active tree leads away from the root. */
  lemma ChainEndIsLonger(s: State, c: Id)
    requires Inv(s) && c in Tree(s, s.active) && c in s.cells
    ensures ChainEnd(s, c) in s.cells && |s.cells[c].prefix| <= |s.cells[ChainEnd(s, c)].prefix| <= s.K
  {
    var w := Walk(s, c);
    WalkDistinct(s, c);
    assert LayerOk(s, s.active);
    ChainGrows(s.cells, Tree(s, s.active), s.rootIds[s.active], s.K, w, 0, |w| - 1);
    assert Local(s.cells, Tree(s, s.active), s.K, w[|w| - 1]);
  }

  /** The call moves its target to a node with a longer prefix. */
  lemma LongerIsNearer(s: State, u: State, t: Tid, n: Id, x: Id)
    requires t in s.calls && t in u.calls && Target(s.calls[t].pc) == Some(n) && Target(u.calls[t].pc) == Some(x)
    requires n in s.cells && x in u.cells && u.K == s.K && |s.cells[n].prefix| < |u.cells[x].prefix| <= s.K
    ensures Nearer(s, u, t)
  {
  }

  lemma AsideDoomed(s: State, t: Tid, x: Id)
    requires Inv(s) && Enabled(s, DoChoose(t, x)) && CollapsesAside(s, t)
    ensures Doomed(ChooseStep(s, t, x), t) && Nearer(s, ChooseStep(s, t, x), t)
  {
    var n, c := s.calls[t].pc.node, s.calls[t].pc.child.value;
    assert CallOk(s, t);
    ActiveTree(s, n);
    ChainEndIsLonger(s, c);
    ChooseEnds(s, t, x);
    AsideTurn(s, t, x);
    TakeMoves(s, t, x);
    LongerIsNearer(s, ChooseStep(s, t, x), t, n, x);
  }

  lemma AsideTurn(s: State, t: Tid, x: Id)
    requires Inv(s) && Enabled(s, DoChoose(t, x)) && CollapsesAside(s, t)
    ensures var c := s.calls[t].pc.child.value;
      ChainEnd(s, c) in s.cells && TurnOf(s, t) == Put(s.cells[ChainEnd(s, c)], Walk(s, c))
  {
    var c, key := s.calls[t].pc.child.value, s.calls[t].key;
    TurnEnds(s, t, x);
    MatchLenAtLeast(s.cells[c].prefix, key, |s.cells[c].prefix|);
  }

  /** Descending to a node of the active layer. */
  lemma DescendBound(s: State, t: Tid, x: Id, z: Id, c: Id)
    requires Inv(s) && Enabled(s, DoChoose(t, x)) && Bound(s, t, z) && TurnOf(s, t) == Move(Visit(c))
    requires c in s.cells && c in s.info && c in Tree(s, s.active) && s.info[c].layer == s.active
    requires s.cells[c].prefix <= s.cells[z].prefix
    ensures Bound(ChooseStep(s, t, x), t, z)
  {
    assert LayerOk(s, s.active);
    assert Leads(s.cells, c, z);
    assert ChooseStep(s, t, x) == SetPc(s, t, Visit(c));
    TrapStays(s, DoChoose(t, x), s.calls[t].key, z);
  }

  /** Copying the end of a chain above the trap. */
  lemma CopyBound(s: State, t: Tid, x: Id, z: Id, c: Id)
    requires Inv(s) && Enabled(s, DoChoose(t, x)) && Bound(s, t, z)
    requires ChainEnd(s, c) in s.cells && z !in Walk(s, c)
    requires TurnOf(s, t) == Put(s.cells[ChainEnd(s, c)], Walk(s, c))
    requires s.cells[ChainEnd(s, c)].prefix < s.cells[z].prefix
    ensures Bound(ChooseStep(s, t, x), t, z)
  {
    PutKeepsTrap(s, t, x, z, s.cells[ChainEnd(s, c)], Walk(s, c));
    TakeMoves(s, t, x);
    ChoosePrefixes(s, t, x);
    BoundByCommit(ChooseStep(s, t, x), t, z, x, Walk(s, c));
  }

  lemma BoundByCommit(u: State, t: Tid, z: Id, x: Id, gone: seq<Id>)
    requires t in u.calls && u.calls[t].pc == Commit(x, gone) && TrapAt(u, u.calls[t].key, z)
    requires x in u.cells && u.cells[x].prefix < u.cells[z].prefix
    ensures Bound(u, t, z)
  {
  }

  lemma PutKeepsTrap(s: State, t: Tid, x: Id, z: Id, cell: Cell, gone: seq<Id>)
    requires Inv(s) && Enabled(s, DoChoose(t, x)) && TrapAt(s, s.calls[t].key, z)
    requires TurnOf(s, t) == Put(cell, gone) && z !in gone
    ensures TrapAt(ChooseStep(s, t, x), s.calls[t].key, z)
  {
    var n := s.calls[t].pc.node;
    assert CallOk(s, t);
    PublishKeepsMember(s, t, n, Bits(s, t, n), x, cell, gone, z);
    TrapStays(s, DoChoose(t, x), s.calls[t].key, z);
  }

  lemma ChooseDoomed(s: State, t: Tid, x: Id)
    requires Inv(s) && Enabled(s, DoChoose(t, x)) && Doomed(s, t)
    ensures Doomed(ChooseStep(s, t, x), t) && Nearer(s, ChooseStep(s, t, x), t)
  {
    assert CallOk(s, t);
    if CollapsesAside(s, t) {
      AsideDoomed(s, t, x);
    } else {
      var z :| Bound(s, t, z);
      BoundMoves(s, t, x, z);
    }
  }

  lemma BoundMoves(s: State, t: Tid, x: Id, z: Id)
    requires Inv(s) && Enabled(s, DoChoose(t, x)) && Bound(s, t, z) && !CollapsesAside(s, t)
    ensures Bound(ChooseStep(s, t, x), t, z) && Nearer(s, ChooseStep(s, t, x), t)
  {
    var c := TurnTowards(s, t, x, z);
    var n, u := s.calls[t].pc.node, ChooseStep(s, t, x);
    TakeMoves(s, t, x);
    ChainEndIsLonger(s, c);
    assert Local(s.cells, Tree(s, s.active), s.K, c) by { assert LayerOk(s, s.active); }
    if s.info[c].layer == s.active {
      DescendBound(s, t, x, z, c);
      LongerIsNearer(s, u, t, n, c);
    } else {
      CopyBound(s, t, x, z, c);
      LongerIsNearer(s, u, t, n, x);
    }
  }

  // ----- the condition is exact -----

  lemma OwnStepDoomed(s: State, step: Step, t: Tid)
    requires Inv(s) && Enabled(s, step) && t in s.calls && By(step, t) && Doomed(s, t)
    ensures Doomed(Apply(s, step), t) && Nearer(s, Apply(s, step), t)
  {
    match step
    case DoVisit(_, e) => VisitDoomed(s, t, e);
    case DoChoose(_, x) => ChooseDoomed(s, t, x);
    case DoCommit(_) => CommitDoomed(s, t);
    case DoStamp(_) => StampDoomed(s, t);
  }

  lemma BeginDoomed(s: State, t: Tid, key: Key, collect: bool)
    requires Inv(s) && Enabled(s, DoBegin(t, key, collect)) && Trapped(s, key)
    ensures Doomed(Begin(s, t, key, collect), t)
  {
    var z :| TrapAt(s, key, z);
    var r := s.rootIds[s.active];
    assert LayerOk(s, s.active);
    assert Leads(s.cells, r, z);
    TrapStays(s, DoBegin(t, key, collect), key, z);
    assert Bound(Begin(s, t, key, collect), t, z);
  }

  /** All steps of the run are steps of call `t`. */
  ghost predicate Alone(run: seq<Step>, t: Tid) {
    forall i | 0 <= i < |run| :: By(run[i], t)
  }

  lemma {:induction false} AloneStaysDoomed(s: State, run: seq<Step>, u: State, t: Tid)
    requires Inv(s) && Executes(s, run, u) && Alone(run, t) && t in s.calls && Doomed(s, t)
    ensures Doomed(u, t)
    decreases |run|
  {
    if run != [] {
      OwnStepDoomed(s, run[0], t);
      StepInv(s, run[0]);
      AloneStaysDoomed(Apply(s, run[0]), run[1..], u, t);
    }
  }

  lemma NewId(c: Arena) returns (x: Id)
    ensures x !in c
  {
    if c.Keys == {} {
      x := 0;
    } else {
      var m := Largest(c.Keys);
      x := m + 1;
    }
  }

  lemma {:induction false} Largest(S: set<Id>) returns (m: Id)
    requires S != {}
    ensures m in S && forall i | i in S :: i <= m
    decreases |S|
  {
    var p :| p in S;
    var rest := S - {p};
    assert forall i | i in S :: i == p || i in rest;
    m := p;
    if rest != {} {
      var k := Largest(rest);
      m := if p < k then k else p;
    }
  }

  /** A doomed call that has not thrown yet can take a step. */
  lemma NextStep(s: State, t: Tid) returns (step: Step)
    requires Inv(s) && Doomed(s, t) && !s.calls[t].pc.Threw?
    ensures By(step, t) && Enabled(s, step)
  {
    assert CallOk(s, t);
    var x := NewId(s.cells);
    match s.calls[t].pc
    case Visit(_) => step := DoVisit(t, BLANK);
    case Choose(_, _) => step := DoChoose(t, x);
    case Commit(_, _) => step := DoCommit(t);
    case Stamp(_, _) => step := DoStamp(t);
  }

  /** Left alone, a doomed call throws. */
  lemma {:induction false} DoomedThrows(s: State, t: Tid) returns (run: seq<Step>, u: State)
    requires Inv(s) && Doomed(s, t)
    ensures Executes(s, run, u) && Alone(run, t) && t in u.calls && u.calls[t].pc.Threw?
    decreases Left(s, t), Rank(s.calls[t].pc)
  {
    if s.calls[t].pc.Threw? {
      run, u := [], s;
    } else {
      var step := NextStep(s, t);
      var v := Apply(s, step);
      OwnStepDoomed(s, step, t);
      StepInv(s, step);
      if v.calls[t].pc.Threw? {
        run, u := [step], v;
        assert run[1..] == [];
      } else {
        var rest;
        rest, u := DoomedThrows(v, t);
        run := [step] + rest;
        assert run[1..] == rest;
      }
    }
  }

  /** Whatever it does on its own, a call for a trapped key does not return. */
  lemma TrappedNeverReturns(s: State, t: Tid, key: Key, collect: bool, run: seq<Step>, u: State)
    requires Inv(s) && Enabled(s, DoBegin(t, key, collect)) && Trapped(s, key)
    requires Executes(Begin(s, t, key, collect), run, u) && Alone(run, t)
    ensures t in u.calls && !u.calls[t].pc.Returned?
  {
    StepInv(s, DoBegin(t, key, collect));
    BeginDoomed(s, t, key, collect);
    AloneStaysDoomed(Begin(s, t, key, collect), run, u, t);
    DoomedIsInFlight(u, t);
  }

  lemma DoomedIsInFlight(s: State, t: Tid)
    requires Doomed(s, t)
    ensures t in s.calls && !s.calls[t].pc.Returned?
  {
  }

  /** Left alone, it throws. */
  lemma TrappedThrows(s: State, t: Tid, key: Key, collect: bool) returns (run: seq<Step>, u: State)
    requires Inv(s) && Enabled(s, DoBegin(t, key, collect)) && Trapped(s, key)
    ensures Executes(Begin(s, t, key, collect), run, u) && Alone(run, t)
    ensures t in u.calls && u.calls[t].pc.Threw? && u.calls[t].collect == collect
  {
    var b := Begin(s, t, key, collect);
    StepInv(s, DoBegin(t, key, collect));
    BeginDoomed(s, t, key, collect);
    run, u := DoomedThrows(b, t);
    RunEnds(b, run, u, t);
  }

  /** Some schedule makes the call throw. */
  ghost predicate MayThrow(s: State, t: Tid) {
    exists run, u :: Executes(s, run, u) && t in u.calls && u.calls[t].pc.Threw?
  }

  /**
   The exact condition: in every reachable state, a call for `key` begun there can
   throw if and only if the key is trapped there.
   */
  lemma ThrowsIfTrapped(z: State, K: nat, before: seq<Step>, s: State, t: Tid, key: Key, collect: bool)
    requires Init(z, K) && Executes(z, before, s) && Enabled(s, DoBegin(t, key, collect))
    ensures MayThrow(Begin(s, t, key, collect), t) <==> Trapped(s, key)
  {
    InitInv(z, K);
    RunInv(z, before, s);
    var b := Begin(s, t, key, collect);
    if Trapped(s, key) {
      var run, u := TrappedThrows(s, t, key, collect);
    } else if MayThrow(b, t) {
      var run, u :| Executes(b, run, u) && t in u.calls && u.calls[t].pc.Threw?;
      UntrappedIsSafe(s, t, key, collect, run, u);
    }
  }
}
