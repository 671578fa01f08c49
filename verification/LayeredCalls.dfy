/**
 How a call to `insert` on the layered trie ends.

 A call that is not collecting returns by writing its leaf and in no other way.
 It throws in exactly one situation: the one-child chain it replaced by a copy
 ended in a node whose prefix does not start its key, so that the nested insert
 fails its first assertion.
 */
module LayeredCalls {

  import opened Nibbles
  import opened Tries
  import opened SearchTrees
  import opened LayeredTrie
  import opened LayeredSafety
  import opened LayeredRuns
  import opened LayeredSweep
  import opened LayeredMaps

  /** The node a call is at, or will descend into when its stamps are written. */
  function Target(pc: Pc): Option<Id> {
    match pc
    case Visit(n) => Some(n)
    case Choose(n, _) => Some(n)
    case Commit(x, _) => Some(x)
    case Stamp(_, next) => next
    case Returned => None
    case Threw => None
  }

  /** The call is bound for a node that does not prefix its key. */
  predicate Astray(s: State, t: Tid) {
    && t in s.calls && Target(s.calls[t].pc).Some?
    && Target(s.calls[t].pc).value in s.cells
    && !(s.cells[Target(s.calls[t].pc).value].prefix <= s.calls[t].key)
  }

  /** The call is about to replace a one-child chain of an older layer that ends aside of its key. */
  predicate CollapsesAside(s: State, t: Tid) {
    && t in s.calls && s.calls[t].pc.Choose? && s.calls[t].pc.child.Some?
    && var n, c, key := s.calls[t].pc.node, s.calls[t].pc.child.value, s.calls[t].key;
    && n in s.cells && c in s.cells && c in s.info && s.cells[n].prefix < key
    && s.cells[c].prefix <= key
    && s.info[c].layer < s.active
    && SlotHolds(s, n, key[|s.cells[n].prefix|], c)
    && s.info[c].kids == 1
    && var w := Walk(s, c);
    && w[|w| - 1] in s.cells && !(s.cells[w[|w| - 1]].prefix <= key)
  }

  // ----- what a step leaves alone -----

  ghost predicate PrefixesStay(s: State, u: State) {
    forall n | n in s.cells :: n in u.cells && u.cells[n].prefix == s.cells[n].prefix
  }

  lemma PublishPrefixes(s: State, t: Tid, n: Id, b: Nibble, x: Id, cell: Cell, gone: seq<Id>)
    requires t in s.calls && n in s.cells && n in s.info && x !in s.cells
    ensures PrefixesStay(s, Publish(s, t, n, b, x, cell, gone))
  {
  }

  lemma ChoosePrefixes(s: State, t: Tid, x: Id)
    requires Enabled(s, DoChoose(t, x))
    ensures PrefixesStay(s, ChooseStep(s, t, x))
  {
    var n, turn := s.calls[t].pc.node, TurnOf(s, t);
    if turn.Put? {
      PublishPrefixes(s, t, n, s.calls[t].key[|s.cells[n].prefix|], x, turn.cell, turn.gone);
    }
  }

  lemma StepPrefixes(s: State, step: Step)
    requires Enabled(s, step)
    ensures PrefixesStay(s, Apply(s, step))
  {
    if step.DoChoose? {
      ChoosePrefixes(s, step.t, step.x);
    } else if !step.DoVisit? && !step.DoBump? {
      OtherKeepsCells(s, step);
    }
  }

  predicate By(step: Step, t: Tid) {
    (step.DoBegin? || step.DoVisit? || step.DoChoose? || step.DoCommit? || step.DoStamp?) && step.t == t
  }

  /** A turn moves its own call and no other. */
  lemma TakeCalls(s: State, t: Tid, n: Id, x: Id, turn: Turn)
    requires t in s.calls
    requires turn.Put? || turn.Cut? ==> n in s.cells && n in s.info && |s.cells[n].prefix| < |s.calls[t].key|
    ensures Take(s, t, n, x, turn).calls.Keys == s.calls.Keys
    ensures forall i | i in s.calls && i != t :: Take(s, t, n, x, turn).calls[i] == s.calls[i]
    ensures !turn.Crash? ==> Take(s, t, n, x, turn).calls[t] == s.calls[t].(pc := After(turn, x))
  {
    match turn
    case Crash =>
    case Move(pc) =>
    case Put(cell, gone) =>
    case Cut(gone) =>
  }

  lemma TurnInBounds(s: State, t: Tid)
    requires t in s.calls && s.calls[t].pc.Choose?
    ensures var n, turn := s.calls[t].pc.node, TurnOf(s, t);
      turn.Put? || turn.Cut? ==> n in s.cells && n in s.info && |s.cells[n].prefix| < |s.calls[t].key|
  {
  }

  lemma ChooseOthers(s: State, t: Tid, x: Id, i: Tid)
    requires t in s.calls && s.calls[t].pc.Choose? && i in s.calls && i != t
    ensures i in ChooseStep(s, t, x).calls && ChooseStep(s, t, x).calls[i] == s.calls[i]
  {
    TurnInBounds(s, t);
    TakeCalls(s, t, s.calls[t].pc.node, x, TurnOf(s, t));
  }

  lemma OthersStay(s: State, step: Step, t: Tid)
    requires Enabled(s, step) && t in s.calls && !By(step, t)
    ensures t in Apply(s, step).calls && Apply(s, step).calls[t] == s.calls[t]
  {
    if OfSweep(step) {
      SweepKeepsTree(s, step);
    } else if step.DoChoose? {
      ChooseOthers(s, step.t, step.x, t);
    }
  }

  // ----- the call's own steps -----

  /** The program counter a turn leads to. */
  function After(turn: Turn, x: Id): Pc
    requires !turn.Crash?
  {
    match turn
    case Move(pc) => pc
    case Put(_, gone) => Commit(x, gone)
    case Cut(gone) => Stamp(gone, None)
  }

  lemma TakeMoves(s: State, t: Tid, x: Id)
    requires Enabled(s, DoChoose(t, x)) && !TurnOf(s, t).Crash?
    ensures t in ChooseStep(s, t, x).calls
    ensures ChooseStep(s, t, x).calls[t] == s.calls[t].(pc := After(TurnOf(s, t), x))
    ensures TurnOf(s, t).Put? ==> x in ChooseStep(s, t, x).cells && ChooseStep(s, t, x).cells[x] == TurnOf(s, t).cell
  {
    TurnInBounds(s, t);
    TakeCalls(s, t, s.calls[t].pc.node, x, TurnOf(s, t));
  }

  /** A turn that sends the call off its key. */
  ghost predicate Stray(s: State, t: Tid, turn: Turn) {
    t in s.calls && turn.Put? && !(turn.cell.prefix <= s.calls[t].key)
  }

  lemma SupersedeTurns(s: State, t: Tid, n: Id, c: Id)
    requires AtLoop(s, t, n) && Alive(s, c) && s.calls[t].pc.child == Some(c)
    requires s.cells[c].prefix <= s.calls[t].key && s.info[c].layer < s.active
    ensures var turn := SupersedeTurn(s, t, n, c);
      && !turn.Crash?
      && (turn.Move? ==> turn.pc.Choose? && turn.pc.node == n)
      && (Stray(s, t, turn) <==> CollapsesAside(s, t))
      && (turn.Cut? ==> s.calls[t].collect)
  {
    WalkAlive(s, c);
    var w := Walk(s, c);
    assert Alive(s, w[|w| - 1]);
    if s.info[c].kids != 1 {
      EmptyWalk(s, c);
    }
  }

  /** A move of the call alone: try again, descend along the key, or give up collecting. */
  ghost predicate Onwards(s: State, t: Tid, pc: Pc) {
    && t in s.calls && s.calls[t].pc.Choose?
    && match pc
       case Choose(n, _) => n == s.calls[t].pc.node
       case Visit(n) => n in s.cells && s.cells[n].prefix <= s.calls[t].key
       case Returned => s.calls[t].collect
       case _ => false
  }

  /** A turn of the loop strays exactly by collapsing a chain aside, and never throws. */
  lemma TurnEnds(s: State, t: Tid, x: Id)
    requires Inv(s) && Enabled(s, DoChoose(t, x))
    ensures Ends(s, t, TurnOf(s, t))
  {
    var n, child := s.calls[t].pc.node, s.calls[t].pc.child;
    assert CallOk(s, t);
    assert !Closing(s);
    HereFacts(s, n);
    if child.Some? {
      CurrentIsAlive(s, child.value);
      ChildTurnEnds(s, t, n, child.value);
    }
  }

  /** What a turn of the loop can come to. */
  ghost predicate Ends(s: State, t: Tid, turn: Turn) {
    && !turn.Crash?
    && (turn.Move? ==> Onwards(s, t, turn.pc))
    && (Stray(s, t, turn) <==> CollapsesAside(s, t))
    && (turn.Cut? ==> t in s.calls && s.calls[t].collect)
  }

  lemma ChildTurnEnds(s: State, t: Tid, n: Id, c: Id)
    requires AtLoop(s, t, n) && Alive(s, c) && s.calls[t].pc.child == Some(c) && s.info[n].kids == |s.cells[n].slots|
    ensures |s.cells[n].prefix| < |s.calls[t].key| && Ends(s, t, ChildTurn(s, t, n, c))
  {
    var key := s.calls[t].key;
    assert NodeOk(s, c);
    assert MatchLen(s.cells[c].prefix, key) == |s.cells[c].prefix| <==> s.cells[c].prefix <= key;
    if s.cells[c].prefix <= key && s.info[c].layer < s.active {
      SupersedeTurns(s, t, n, c);
    }
  }

  lemma TakeEnds(s: State, t: Tid, x: Id, u: State)
    requires Enabled(s, DoChoose(t, x)) && PrefixesStay(s, u)
    requires t in u.calls && !TurnOf(s, t).Crash? && u.calls[t] == s.calls[t].(pc := After(TurnOf(s, t), x))
    requires TurnOf(s, t).Put? ==> x in u.cells && u.cells[x] == TurnOf(s, t).cell
    requires TurnOf(s, t).Move? ==> Onwards(s, t, TurnOf(s, t).pc)
    requires TurnOf(s, t).Cut? ==> s.calls[t].collect
    requires s.calls[t].pc.node in s.cells && s.cells[s.calls[t].pc.node].prefix <= s.calls[t].key
    ensures Astray(u, t) <==> Stray(s, t, TurnOf(s, t))
    ensures !u.calls[t].pc.Threw?
    ensures u.calls[t].pc.Returned? ==> s.calls[t].collect
  {
  }

  /** From the head of the loop. */
  lemma ChooseEnds(s: State, t: Tid, x: Id)
    requires Inv(s) && Enabled(s, DoChoose(t, x))
    ensures t in ChooseStep(s, t, x).calls
    ensures Astray(ChooseStep(s, t, x), t) <==> CollapsesAside(s, t)
    ensures !ChooseStep(s, t, x).calls[t].pc.Threw?
    ensures ChooseStep(s, t, x).calls[t].pc.Returned? ==> s.calls[t].collect
  {
    TurnEnds(s, t, x);
    TakeMoves(s, t, x);
    ChoosePrefixes(s, t, x);
    assert CallOk(s, t);
    TakeEnds(s, t, x, ChooseStep(s, t, x));
  }

  lemma VisitEnds(s: State, t: Tid, e: Entry)
    requires Inv(s) && Enabled(s, DoVisit(t, e))
    ensures var u := VisitStep(s, t, e);
      && t in u.calls
      && !Astray(u, t)
      && (u.calls[t].pc.Threw? <==> Astray(s, t))
      && (!s.calls[t].collect ==> (u.calls[t].pc.Returned? <==> EffectOf(s, DoVisit(t, e)).Write?))
  {
    assert CallOk(s, t);
    assert !Closing(s);
    HereFacts(s, s.calls[t].pc.node);
    VisitOutcome(s, t, e);
  }

  lemma VisitOutcome(s: State, t: Tid, e: Entry)
    requires t in s.calls && s.calls[t].pc.Visit? && |s.calls[t].key| == s.K
    requires var n := s.calls[t].pc.node; Alive(s, n) && |s.cells[n].prefix| <= s.K
    ensures var u, n, key := VisitStep(s, t, e), s.calls[t].pc.node, s.calls[t].key;
      && t in u.calls && n in u.cells && u.cells[n].prefix == s.cells[n].prefix && u.calls[t].key == key
      && (!(s.cells[n].prefix <= key) ==> u.calls[t].pc == Threw)
      && (s.cells[n].prefix == key ==> u.calls[t].pc == Returned)
      && (s.cells[n].prefix < key ==> u.calls[t].pc.Choose? && u.calls[t].pc.node == n)
  {
    var n, key := s.calls[t].pc.node, s.calls[t].key;
    if !(s.cells[n].prefix <= key) {
      PcCalls(s, t, Threw);
    } else if |s.cells[n].prefix| < |key| {
      PcCalls(s, t, Loaded(s, n, key[|s.cells[n].prefix|]));
    } else if s.calls[t].collect {
      PcCalls(s, t, Returned);
    } else {
      PcCalls(s.(cells := s.cells[n := s.cells[n].(entry := Some(e))]), t, Returned);
    }
  }

  lemma CommitEnds(s: State, t: Tid)
    requires Inv(s) && Enabled(s, DoCommit(t))
    ensures var u := CommitStep(s, t);
      && t in u.calls && (Astray(u, t) <==> Astray(s, t)) && !Done(u.calls[t])
  {
    assert CallOk(s, t);
    assert !Closing(s);
    HereFacts(s, s.calls[t].pc.published);
  }

  lemma StampEnds(s: State, t: Tid)
    requires Inv(s) && Enabled(s, DoStamp(t))
    ensures var u := StampStep(s, t);
      && t in u.calls && (Astray(u, t) <==> Astray(s, t)) && !u.calls[t].pc.Threw?
      && (u.calls[t].pc.Returned? ==> s.calls[t].collect)
  {
    var z := s.calls[t].pc.todo[0];
    assert CallOk(s, t);
    assert z == Todo(s.calls[t].pc)[0];
    assert PendingOk(s, z);
    CurrentIsAlive(s, z);
  }

  // ----- steps and runs -----

  /** The call has thrown or is bound to. */
  predicate Lost(s: State, t: Tid) {
    Astray(s, t) || (t in s.calls && s.calls[t].pc.Threw?)
  }

  predicate Strays(s: State, step: Step, t: Tid) {
    step.DoChoose? && step.t == t && CollapsesAside(s, t)
  }

  predicate Writes(s: State, step: Step, t: Tid) {
    step.DoVisit? && step.t == t && EffectOf(s, step).Write?
  }

  predicate Succeeded(s: State, t: Tid) {
    t in s.calls && !s.calls[t].collect && s.calls[t].pc.Returned?
  }

  lemma OwnStepEnds(s: State, step: Step, t: Tid)
    requires Inv(s) && Enabled(s, step) && t in s.calls && By(step, t)
    ensures Lost(Apply(s, step), t) <==> Lost(s, t) || Strays(s, step, t)
    ensures !s.calls[t].collect ==> (Succeeded(Apply(s, step), t) <==> Succeeded(s, t) || Writes(s, step, t))
  {
    OwnStepKeepsCall(s, step, t);
    if step.DoVisit? {
      VisitEnds(s, t, step.e);
    } else if step.DoChoose? {
      ChooseEnds(s, t, step.x);
      assert CallOk(s, t);
    } else if step.DoCommit? {
      CommitEnds(s, t);
    } else {
      StampEnds(s, t);
    }
  }

  lemma OwnStepKeepsCall(s: State, step: Step, t: Tid)
    requires Inv(s) && Enabled(s, step) && t in s.calls && By(step, t)
    ensures t in Apply(s, step).calls && Apply(s, step).calls[t].key == s.calls[t].key
    ensures Apply(s, step).calls[t].collect == s.calls[t].collect
  {
    match step
    case DoVisit(_, e) => VisitCalls(s, t, e);
    case DoChoose(_, x) =>
      TurnEnds(s, t, x);
      TakeMoves(s, t, x);
    case DoCommit(_) => CommitKeepsCall(s, t);
    case DoStamp(_) => StampKeepsCall(s, t);
  }

  lemma CommitKeepsCall(s: State, t: Tid)
    requires t in s.calls && s.calls[t].pc.Commit?
    ensures var u := CommitStep(s, t);
      t in u.calls && u.calls[t].key == s.calls[t].key && u.calls[t].collect == s.calls[t].collect
  {
  }

  lemma StampKeepsCall(s: State, t: Tid)
    requires t in s.calls && s.calls[t].pc.Stamp? && |s.calls[t].pc.todo| > 0
    ensures var u := StampStep(s, t);
      t in u.calls && u.calls[t].key == s.calls[t].key && u.calls[t].collect == s.calls[t].collect
  {
  }

  lemma OtherStepEnds(s: State, step: Step, t: Tid)
    requires Enabled(s, step) && CallOk(s, t) && !By(step, t) && Basics(s)
    ensures t in Apply(s, step).calls && Apply(s, step).calls[t] == s.calls[t]
    ensures Lost(Apply(s, step), t) <==> Lost(s, t)
  {
    OthersStay(s, step, t);
    StepPrefixes(s, step);
    assert Target(s.calls[t].pc).Some? ==> Target(s.calls[t].pc).value in s.cells;
  }

  /** A step makes a call lost exactly by collapsing a chain aside, and successful exactly by writing. */
  lemma StepEnds(s: State, step: Step, t: Tid)
    requires Inv(s) && Enabled(s, step) && t in s.calls
    ensures t in Apply(s, step).calls && Apply(s, step).calls[t].collect == s.calls[t].collect
    ensures Lost(Apply(s, step), t) <==> Lost(s, t) || Strays(s, step, t)
    ensures !s.calls[t].collect ==> (Succeeded(Apply(s, step), t) <==> Succeeded(s, t) || Writes(s, step, t))
  {
    if By(step, t) {
      OwnStepKeepsCall(s, step, t);
      OwnStepEnds(s, step, t);
    } else {
      assert CallOk(s, t);
      OtherStepEnds(s, step, t);
    }
  }

  lemma BeginEnds(s: State, step: Step, t: Tid)
    requires Inv(s) && Enabled(s, step) && t !in s.calls && t in Apply(s, step).calls
    ensures !Lost(Apply(s, step), t) && !Succeeded(Apply(s, step), t)
  {
    if !step.DoBegin? {
      NoNewCall(s, step);
      assert false;
    }
    assert LayerOk(s, s.active);
  }

  lemma NoNewCall(s: State, step: Step)
    requires Enabled(s, step) && !step.DoBegin?
    ensures Apply(s, step).calls.Keys == s.calls.Keys
  {
    if OfSweep(step) {
      SweepKeepsTree(s, step);
    } else if step.DoChoose? {
      ChooseNoNewCall(s, step.t, step.x);
    } else if step.DoVisit? {
      VisitCalls(s, step.t, step.e);
    }
  }

  lemma ChooseNoNewCall(s: State, t: Tid, x: Id)
    requires t in s.calls && s.calls[t].pc.Choose?
    ensures ChooseStep(s, t, x).calls.Keys == s.calls.Keys
  {
    TurnInBounds(s, t);
    TakeCalls(s, t, s.calls[t].pc.node, x, TurnOf(s, t));
  }

  /** Entering a node moves the call alone. */
  lemma VisitCalls(s: State, t: Tid, e: Entry)
    requires t in s.calls && s.calls[t].pc.Visit?
    ensures VisitStep(s, t, e).calls.Keys == s.calls.Keys
    ensures VisitStep(s, t, e).calls[t].key == s.calls[t].key
    ensures VisitStep(s, t, e).calls[t].collect == s.calls[t].collect
  {
    var n, key := s.calls[t].pc.node, s.calls[t].key;
    if !Alive(s, n) {
      assert VisitStep(s, t, e) == s.(fault := UseAfterFree);
    } else if !(s.cells[n].prefix <= key) {
      PcCalls(s, t, Threw);
    } else if |s.cells[n].prefix| < |key| {
      PcCalls(s, t, Loaded(s, n, key[|s.cells[n].prefix|]));
    } else if s.calls[t].collect {
      PcCalls(s, t, Returned);
    } else {
      PcCalls(s.(cells := s.cells[n := s.cells[n].(entry := Some(e))]), t, Returned);
    }
  }

  lemma PcCalls(s: State, t: Tid, pc: Pc)
    requires t in s.calls
    ensures SetPc(s, t, pc).calls.Keys == s.calls.Keys && SetPc(s, t, pc).calls[t] == s.calls[t].(pc := pc)
  {
  }

  /** Some step of the run has the property for call `t`. */
  ghost predicate Occurs(s: State, run: seq<Step>, t: Tid, writes: bool)
    decreases |run|
  {
    && run != [] && Enabled(s, run[0])
    && ((if writes then Writes(s, run[0], t) else Strays(s, run[0], t))
      || Occurs(Apply(s, run[0]), run[1..], t, writes))
  }

  lemma {:induction false} RunEnds(s: State, run: seq<Step>, u: State, t: Tid)
    requires Inv(s) && Executes(s, run, u) && t in u.calls
    ensures Lost(u, t) <==> Lost(s, t) || Occurs(s, run, t, false)
    ensures !u.calls[t].collect ==> (Succeeded(u, t) <==> Succeeded(s, t) || Occurs(s, run, t, true))
    ensures t in s.calls ==> u.calls[t].collect == s.calls[t].collect
    decreases |run|
  {
    if run != [] {
      var v := Apply(s, run[0]);
      StepInv(s, run[0]);
      RunEnds(v, run[1..], u, t);
      if t in s.calls {
        StepEnds(s, run[0], t);
      } else if t in v.calls {
        BeginEnds(s, run[0], t);
      }
    }
  }

  /**
   Over any run, a call has thrown or will throw on its next visit if and only if
   it replaced a one-child chain that ends aside of its key; and a call that is
   not collecting has returned if and only if it wrote its entry.
   */
  lemma ThrowsExactly(s: State, K: nat, run: seq<Step>, u: State, t: Tid)
    requires Init(s, K) && Executes(s, run, u) && t in u.calls
    ensures Lost(u, t) <==> Occurs(s, run, t, false)
    ensures !u.calls[t].collect ==> (u.calls[t].pc.Returned? <==> Occurs(s, run, t, true))
  {
    InitInv(s, K);
    RunEnds(s, run, u, t);
  }
}
