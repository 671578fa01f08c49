/**
 What a sweep frees, and that it ends.

 A sweep leaves exactly the layers above the largest bound that any call has asked
 for so far, and never one of the last two.  Every node that no retained layer can
 reach is destroyed with them.
 */
module LayeredReclaim {

  import opened Tries
  import opened SearchTrees
  import opened LayeredTrie
  import opened LayeredSafety
  import opened LayeredSweep
  import opened LayeredEarly

  // ----- what was asked for -----

  /** The largest argument of `raise_gc_lowerbound` in the run. */
  function Asked(run: seq<Step>): nat {
    if run == [] then 0 else Higher(Asked(run[1..]), if run[0].DoRaise? then run[0].to else 0)
  }

  function Higher(a: nat, b: nat): nat {
    if a < b then b else a
  }

  lemma StepAsked(s: State, step: Step)
    requires Enabled(s, step)
    ensures Apply(s, step).lowerBound == Higher(s.lowerBound, if step.DoRaise? then step.to else 0)
  {
    match step
    case DoVisit(t, e) => VisitKeepsSweep(s, t, e);
    case DoChoose(t, x) => ChooseKeepsSweep(s, t, x);
    case DoErase(k) => DestroyFrees(s.(roots := s.roots - {k}, erased := s.erased + 1), s.roots[k]);
    case DoDestruct => DestructFrees(s);
    case _ =>
  }

  lemma {:induction false} RunAsked(s: State, run: seq<Step>, u: State)
    requires Executes(s, run, u)
    ensures u.lowerBound == Higher(s.lowerBound, Asked(run))
    decreases |run|
  {
    if run != [] {
      StepAsked(s, run[0]);
      RunAsked(Apply(s, run[0]), run[1..], u);
    }
  }

  // ----- what a sweep leaves -----

  predicate NoEnd(run: seq<Step>) {
    forall i | 0 <= i < |run| :: !run[i].DoEnd?
  }

  predicate NoSweep(run: seq<Step>) {
    forall i | 0 <= i < |run| :: !run[i].DoRaise? && !run[i].DoClose?
  }

  /** Roots that are there while no sweep runs stay, and new layers add theirs. */
  lemma {:induction false} IdleKeepsRoots(s: State, run: seq<Step>, u: State)
    requires Inv(s) && s.sweep.Idle? && Executes(s, run, u) && NoSweep(run)
    ensures Inv(u) && u.sweep.Idle? && s.active <= u.active
    ensures forall k: nat :: k in u.roots <==> k in s.roots || s.active < k <= u.active
    decreases |run|
  {
    if run != [] {
      StepInv(s, run[0]);
      IdleStep(s, run[0]);
      IdleKeepsRoots(Apply(s, run[0]), run[1..], u);
    }
  }

  lemma IdleStep(s: State, step: Step)
    requires Inv(s) && s.sweep.Idle? && Enabled(s, step) && !step.DoRaise? && !step.DoClose?
    ensures var u := Apply(s, step);
      && u.sweep.Idle? && s.active <= u.active <= s.active + 1
      && (forall k: nat :: k in u.roots <==> k in s.roots || s.active < k <= u.active)
  {
    match step
    case DoVisit(t, e) => VisitKeepsSweep(s, t, e);
    case DoChoose(t, x) => ChooseKeepsSweep(s, t, x);
    case DoBump(x) => BumpRoots(s, x);
    case _ =>
  }

  lemma BumpRoots(s: State, x: Id)
    requires Inv(s) && Enabled(s, DoBump(x))
    ensures var u := BumpStep(s, x);
      u.sweep == s.sweep && u.active == s.active + 1 && u.roots.Keys == s.roots.Keys + {s.active + 1}
  {
    assert LayerOk(s, s.active);
    CurrentIsAlive(s, s.rootIds[s.active]);
  }

  /** From the start of a sweep to just before its end. */
  lemma SweepLeaves(s: State, to: nat, during: seq<Step>, v: State)
    requires Inv(s) && Enabled(s, DoRaise(to)) && Executes(RaiseStep(s, to), during, v) && NoEnd(during) && SweepOver(v)
    ensures Inv(v) && v.active == s.active && !v.sweep.closing && v.rootIds == s.rootIds
    ensures forall k: nat :: k in v.roots <==> k in s.roots && (k > Higher(s.lowerBound, to) || k + 2 > s.active)
  {
    var lb := Higher(s.lowerBound, to);
    var bound := BoundOf(lb, s.active);
    RaiseStarts(s, to, bound);
    RunFrees(s, bound, RaiseStep(s, to), during, v);
    RunInv(RaiseStep(s, to), during, v);
    NotClosing(RaiseStep(s, to), during, v);
  }

  function BoundOf(lb: nat, active: nat): nat
    requires active >= 2
  {
    if lb < active - 2 then lb else active - 2
  }

  lemma RaiseStarts(s: State, to: nat, bound: nat)
    requires Inv(s) && Enabled(s, DoRaise(to)) && bound == BoundOf(Higher(s.lowerBound, to), s.active)
    ensures Inv(RaiseStep(s, to)) && Freeing(s, bound, RaiseStep(s, to)) && !RaiseStep(s, to).sweep.closing
  {
    StepInv(s, DoRaise(to));
  }

  lemma {:induction false} NotClosing(s: State, run: seq<Step>, u: State)
    requires s.sweep.Sweeping? && !s.sweep.closing && Executes(s, run, u) && NoEnd(run)
    ensures u.sweep.Sweeping? && !u.sweep.closing
    decreases |run|
  {
    if run != [] {
      StillSweeping(s, run[0]);
      NotClosing(Apply(s, run[0]), run[1..], u);
    }
  }

  lemma StillSweeping(s: State, step: Step)
    requires s.sweep.Sweeping? && Enabled(s, step) && !step.DoEnd?
    ensures Apply(s, step).sweep.Sweeping? && Apply(s, step).sweep.closing == s.sweep.closing
  {
    match step
    case DoVisit(t, e) => VisitKeepsSweep(s, t, e);
    case DoChoose(t, x) => ChooseKeepsSweep(s, t, x);
    case DoDestruct => DestructFrees(s);
    case DoErase(k) => DestroyFrees(s.(roots := s.roots - {k}, erased := s.erased + 1), s.roots[k]);
    case _ =>
  }

  /** From the end of the sweep on. */
  lemma AfterSweep(s: State, lb: nat, v: State, after: seq<Step>, u: State)
    requires Inv(v) && Enabled(v, DoEnd) && v.active == s.active && !v.sweep.closing
    requires forall k: nat :: k in v.roots <==> k in s.roots && (k > lb || k + 2 > s.active)
    requires Executes(EndStep(v), after, u) && NoSweep(after)
    ensures Inv(u) && u.sweep.Idle?
    ensures forall k: nat :: k in u.roots <==>
      (k in s.roots && (k > lb || k + 2 > s.active)) || s.active < k <= u.active
  {
    StepInv(v, DoEnd);
    IdleKeepsRoots(EndStep(v), after, u);
  }

  /**
   Reclamation is exact: after a sweep the layers that are left are those above every
   bound asked for so far and the last two, and the layers made since.
   */
  lemma SweepFreesExactly(z: State, K: nat, before: seq<Step>, s: State, to: nat, during: seq<Step>, v: State,
                          after: seq<Step>, u: State)
    requires Init(z, K) && Executes(z, before, s) && s.sweep.Idle? && s.active >= 2
    requires Executes(RaiseStep(s, to), during, v) && NoEnd(during) && Enabled(v, DoEnd)
    requires Executes(EndStep(v), after, u) && NoSweep(after)
    ensures Enabled(s, DoRaise(to))
    ensures forall k: nat :: k in u.roots <==>
      (k in s.roots && ((k > to && k > Asked(before)) || k + 2 > s.active)) || s.active < k <= u.active
  {
    SweepCanStart(z, K, before, s);
    SweepRuns(s, to, during, v, after, u);
  }

  lemma SweepCanStart(z: State, K: nat, before: seq<Step>, s: State)
    requires Init(z, K) && Executes(z, before, s)
    ensures Inv(s) && s.lowerBound == Asked(before)
  {
    InitInv(z, K);
    RunInv(z, before, s);
    RunAsked(z, before, s);
  }

  lemma SweepRuns(s: State, to: nat, during: seq<Step>, v: State, after: seq<Step>, u: State)
    requires Inv(s) && Enabled(s, DoRaise(to)) && Executes(RaiseStep(s, to), during, v) && NoEnd(during)
    requires Enabled(v, DoEnd) && Executes(EndStep(v), after, u) && NoSweep(after)
    ensures forall k: nat :: k in u.roots <==>
      (k in s.roots && ((k > to && k > s.lowerBound) || k + 2 > s.active)) || s.active < k <= u.active
  {
    SweepLeaves(s, to, during, v);
    AfterSweep(s, Higher(s.lowerBound, to), v, after, u);
  }

  // ----- what dies -----

  lemma TreesAreReached(s: State, k: nat, n: Id)
    requires Inv(s) && k <= s.active
    ensures Reachable(s.cells, s.rootIds[k], n) <==> n in Tree(s, k)
  {
    assert LayerOk(s, k);
    TreeIsReachable(s.cells, Tree(s, k), s.rootIds[k], s.K, n);
  }

  /** While no sweep runs, exactly those nodes are destroyed that no root in the map reaches. */
  lemma DeadExactly(s: State, K: nat, run: seq<Step>, u: State, n: Id)
    requires Init(s, K) && Executes(s, run, u) && u.sweep.Idle? && n in u.cells
    ensures n in u.dead <==> forall k | k in u.roots :: !Reachable(u.cells, u.roots[k], n)
  {
    InitInv(s, K);
    RunInv(s, run, u);
    assert NodeOk(u, n) && DeadOk(u, n);
    InLastTree(u, n);
    forall k | k in u.roots ensures u.roots[k] == u.rootIds[k] && k <= u.active
      ensures Reachable(u.cells, u.roots[k], n) <==> n in Tree(u, k)
    {
      TreesAreReached(u, k, n);
    }
  }

  // ----- a sweep ends -----

  /** What is left to scan on the stack of destructors. */
  function Weight(stack: seq<Frame>): nat {
    if stack == [] then 0
    else Weight(stack[..|stack| - 1]) + if stack[|stack| - 1].slot <= 16 then 17 - stack[|stack| - 1].slot else 1
  }

  function Living(s: State): nat {
    |s.cells.Keys - s.dead|
  }

  /** A step of the sweep itself. */
  predicate Sweeps(step: Step) {
    step.DoErase? || step.DoDestruct?
  }

  lemma LessAlive(s: State, u: State, n: Id)
    requires u.cells == s.cells && Alive(s, n) && u.dead == s.dead + {n}
    ensures Living(u) < Living(s)
  {
    assert u.cells.Keys - u.dead == (s.cells.Keys - s.dead) - {n};
  }

  lemma PushWeighs(stack: seq<Frame>, f: Frame)
    ensures Weight(stack + [f]) == Weight(stack) + if f.slot <= 16 then 17 - f.slot else 1
  {
    assert (stack + [f])[..|stack|] == stack;
  }

  lemma RestackWeighs(s: State, slot: nat)
    requires s.sweep.Sweeping? && |s.sweep.stack| > 0 && Top(s).slot < slot <= 16
    ensures Weight(Restack(s, [Frame(Top(s).node, slot, Top(s).superseded)]).sweep.stack) < Weight(s.sweep.stack)
    ensures Weight(Restack(s, []).sweep.stack) < Weight(s.sweep.stack)
  {
    var stack := s.sweep.stack;
    var rest := stack[..|stack| - 1];
    assert rest + [] == rest && stack == rest + [Top(s)];
    PushWeighs(rest, Frame(Top(s).node, slot, Top(s).superseded));
    PushWeighs(rest, Top(s));
  }

  lemma PopWeighs(s: State)
    requires s.sweep.Sweeping? && |s.sweep.stack| > 0
    ensures Weight(Restack(s, []).sweep.stack) < Weight(s.sweep.stack)
  {
    var stack := s.sweep.stack;
    assert stack[..|stack| - 1] + [] == stack[..|stack| - 1];
  }

  ghost predicate Shrinks(s: State, u: State) {
    && s.sweep.Sweeping? && u.sweep.Sweeping?
    && (Living(u) < Living(s) || (Living(u) == Living(s) && Weight(u.sweep.stack) < Weight(s.sweep.stack)))
  }

  lemma DestructShrinks(s: State)
    requires Inv(s) && Enabled(s, DoDestruct)
    ensures Shrinks(s, DestructStep(s))
  {
    assert FrameOk(s, Top(s));
    TopIsCommitted(s);
    DestructShape(s);
    if IsLeaf(s, Top(s).node) || Top(s).slot >= 16 {
      PopWeighs(s);
    } else if Top(s).slot !in s.cells[Top(s).node].slots {
      RestackWeighs(s, Top(s).slot + 1);
    } else {
      PassShrinks(s);
    }
  }

  lemma PassShrinks(s: State)
    requires Inv(s) && Enabled(s, DoDestruct) && Top(s).node in s.cells && Top(s).superseded != 0
    requires !IsLeaf(s, Top(s).node) && Top(s).slot < 16 && Top(s).slot in s.cells[Top(s).node].slots
    ensures Shrinks(s, DestructStep(s))
  {
    var c := s.cells[Top(s).node].slots[Top(s).slot];
    DestructShape(s);
    AheadIsAlive(s);
    if Top(s).superseded == s.info[c].superseded {
      LessAlive(s, Descended(s, c), c);
    } else {
      RestackWeighs(s, Top(s).slot + 1);
    }
  }

  lemma EraseShrinks(s: State, k: nat)
    requires Inv(s) && Enabled(s, DoErase(k))
    ensures Shrinks(s, EraseStep(s, k))
  {
    assert s.erased in s.roots;
    RootClass(s, k);
    assert DeadOk(s, s.rootIds[k]);
    EraseEffect(s, EraseStep(s, k), k);
    LessAlive(s, EraseStep(s, k), s.roots[k]);
  }

  lemma SweepStep(s: State) returns (step: Step, u: State)
    requires Inv(s) && s.sweep.Sweeping? && !SweepOver(s)
    ensures Sweeps(step) && Enabled(s, step) && u == Apply(s, step) && Inv(u) && Shrinks(s, u)
    ensures u.sweep.closing == s.sweep.closing
  {
    if s.sweep.stack != [] {
      step := DoDestruct;
      DestructShrinks(s);
    } else {
      step := DoErase(s.erased);
      EraseShrinks(s, s.erased);
    }
    u := Apply(s, step);
    StepInv(s, step);
    StillSweeping(s, step);
  }

  /** From every state of a sweep, the sweep alone comes to its end. */
  lemma {:induction false} SweepFrom(s: State) returns (run: seq<Step>, u: State)
    requires Inv(s) && s.sweep.Sweeping?
    ensures Executes(s, run, u) && Inv(u) && SweepOver(u) && u.sweep.closing == s.sweep.closing
    ensures forall i | 0 <= i < |run| :: Sweeps(run[i])
    decreases Living(s), Weight(s.sweep.stack)
  {
    if SweepOver(s) {
      run, u := [], s;
    } else {
      var step, v := SweepStep(s);
      var rest;
      rest, u := SweepFrom(v);
      StepBefore(s, step, v, rest, u);
      OneFirst(step, rest);
      run := [step] + rest;
    }
  }

  lemma OneFirst(step: Step, run: seq<Step>)
    requires Sweeps(step) && forall i | 0 <= i < |run| :: Sweeps(run[i])
    ensures forall i | 0 <= i < |[step] + run| :: Sweeps(([step] + run)[i])
  {
  }

  lemma SweepEnds(z: State, K: nat, before: seq<Step>, s: State) returns (run: seq<Step>, u: State)
    requires Init(z, K) && Executes(z, before, s) && s.sweep.Sweeping?
    ensures Executes(s, run, u) && Enabled(u, DoEnd)
    ensures forall i | 0 <= i < |run| :: Sweeps(run[i])
  {
    InitInv(z, K);
    RunInv(z, before, s);
    run, u := SweepFrom(s);
  }

  /**
   Once no call is in flight the trie's destructor can run; it ends, and then every node
   that was ever published has been destroyed.
   */
  lemma TrieIsFreed(z: State, K: nat, before: seq<Step>, s: State) returns (run: seq<Step>, u: State)
    requires Init(z, K) && Executes(z, before, s) && s.sweep.Idle? && Quiet(s)
    ensures Enabled(s, DoClose) && Executes(CloseStep(s), run, u) && u.sweep.Closed? && u.dead == u.cells.Keys
  {
    InitInv(z, K);
    RunInv(z, before, s);
    StepInv(s, DoClose);
    var v;
    run, v := SweepFrom(CloseStep(s));
    u := EndStep(v);
    assert [DoEnd][1..] == [];
    assert Executes(v, [DoEnd], u);
    ExecutesConcat(CloseStep(s), run, v, [DoEnd], u);
    run := run + [DoEnd];
    StepInv(v, DoEnd);
    ClosedIsDead(u);
  }
}
