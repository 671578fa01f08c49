/**
 What `raise_gc_lowerbound` does when the active layer is below two, so that the
 subtraction of two wraps.
 */
module LayeredEarly {

  import opened Nibbles
  import opened Tries
  import opened SearchTrees
  import opened LayeredTrie
  import opened LayeredSafety
  import opened LayeredRuns
  import opened LayeredSweep

  /** The unsigned bound covers the active layer exactly when nothing is subtracted and the caller asked for it. */
  lemma FreeBoundReaches(lowerBound: nat, active: nat)
    requires active < NEVER
    ensures FreeBound(lowerBound, active) >= active <==> active < 2 && lowerBound >= active
  {
    FreeBoundFits(lowerBound, active);
  }

  /** `u` is a state of the sweep up to `bound` that was started in `s`. */
  ghost predicate Freeing(s: State, bound: nat, u: State) {
    && u.sweep.Sweeping? && u.sweep.bound == bound && u.active == s.active && u.rootIds == s.rootIds
    && (forall k | k in u.roots :: k in s.roots && u.roots[k] == s.roots[k])
    && (forall k | k in s.roots && bound < k :: k in u.roots)
    && (u.fault == NoFault ==> forall k | k in s.roots && k !in u.roots :: s.roots[k] in u.dead)
  }

  /** Nothing that a sweep works on differs. */
  ghost predicate SameSweep(s: State, u: State) {
    && u.sweep == s.sweep && u.active == s.active && u.rootIds == s.rootIds && u.roots == s.roots && u.dead == s.dead
    && u.lowerBound == s.lowerBound
  }

  lemma TakeKeepsSweep(s: State, t: Tid, n: Id, x: Id, turn: Turn)
    requires t in s.calls
    requires turn.Put? || turn.Cut? ==> n in s.cells && n in s.info && |s.cells[n].prefix| < |s.calls[t].key|
    ensures SameSweep(s, Take(s, t, n, x, turn))
  {
  }

  lemma ChooseKeepsSweep(s: State, t: Tid, x: Id)
    requires t in s.calls && s.calls[t].pc.Choose?
    ensures SameSweep(s, ChooseStep(s, t, x))
  {
    var n, turn := s.calls[t].pc.node, TurnOf(s, t);
    assert turn.Put? || turn.Cut? ==> n in s.cells && n in s.info && |s.cells[n].prefix| < |s.calls[t].key|;
    TakeKeepsSweep(s, t, n, x, turn);
  }

  lemma VisitKeepsSweep(s: State, t: Tid, e: Entry)
    requires t in s.calls && s.calls[t].pc.Visit?
    ensures SameSweep(s, VisitStep(s, t, e))
  {
    var n, key := s.calls[t].pc.node, s.calls[t].key;
    if Alive(s, n) && s.cells[n].prefix <= key && |s.cells[n].prefix| >= |key| && !s.calls[t].collect {
      assert SameSweep(s, SetPc(s.(cells := s.cells[n := s.cells[n].(entry := Some(e))]), t, Returned));
    }
  }

  /** Roots and layers are as before, and nothing has come back to life. */
  ghost predicate Frees(s: State, u: State) {
    && s.sweep.Sweeping? && u.sweep.Sweeping? && u.sweep.bound == s.sweep.bound && u.active == s.active
    && u.rootIds == s.rootIds && u.roots == s.roots && s.dead <= u.dead
    && u.sweep.closing == s.sweep.closing && u.lowerBound == s.lowerBound
  }

  lemma DestroyFrees(s: State, n: Id)
    requires s.sweep.Sweeping?
    ensures Frees(s, Destroy(s, n)) && (Destroy(s, n).fault == NoFault ==> n in Destroy(s, n).dead)
  {
    if n in s.dead {
      assert Destroy(s, n) == s.(fault := DoubleFree);
    } else if !Alive(s, n) {
      assert Destroy(s, n) == s.(fault := UseAfterFree);
    } else {
      assert Destroy(s, n).dead == s.dead + {n} && Destroy(s, n).sweep.bound == s.sweep.bound;
    }
  }

  lemma DestructFrees(s: State)
    requires s.sweep.Sweeping? && |s.sweep.stack| > 0
    ensures Frees(s, DestructStep(s))
  {
    var Frame(n, b, sup) := Top(s);
    if n !in s.cells {
      assert DestructStep(s) == s.(fault := UseAfterFree);
    } else if IsLeaf(s, n) || sup == 0 || b >= 16 {
      var stack := s.sweep.stack;
      assert DestructStep(s) == s.(sweep := s.sweep.(stack := stack[..|stack| - 1]));
    } else if b !in s.cells[n].slots {
      assert DestructStep(s) == Restack(s, [Frame(n, b + 1, sup)]);
    } else {
      ChildFrees(s, n, b, sup);
    }
  }

  lemma ChildFrees(s: State, n: Id, b: nat, sup: nat)
    requires s.sweep.Sweeping? && |s.sweep.stack| > 0 && Top(s) == Frame(n, b, sup)
    requires n in s.cells && !(IsLeaf(s, n) || sup == 0 || b >= 16) && b in s.cells[n].slots
    ensures Frees(s, DestructStep(s))
  {
    var c, on := s.cells[n].slots[b], Restack(s, [Frame(n, b + 1, sup)]);
    if !Alive(s, c) {
      assert DestructStep(s) == s.(fault := UseAfterFree);
    } else if sup == s.info[c].superseded {
      DestroyFrees(on, c);
      assert DestructStep(s) == Destroy(on, c);
    } else if sup > s.info[c].superseded {
      assert DestructStep(s) == s.(fault := Terminated);
    } else {
      assert DestructStep(s) == on;
    }
  }

  lemma CommitKeepsSweep(s: State, t: Tid)
    requires t in s.calls && s.calls[t].pc.Commit?
    ensures SameSweep(s, CommitStep(s, t))
  {
  }

  lemma StampKeepsSweep(s: State, t: Tid)
    requires t in s.calls && s.calls[t].pc.Stamp? && |s.calls[t].pc.todo| > 0
    ensures SameSweep(s, StampStep(s, t))
  {
  }

  lemma EraseFrees(s: State, bound: nat, v: State, k: nat)
    requires Freeing(s, bound, v) && NextRoot(v, k) && v.fault == NoFault
    ensures Freeing(s, bound, EraseStep(v, k))
  {
    EraseRoots(v, k);
    FreesOne(s, bound, v, k, EraseStep(v, k));
  }

  lemma EraseRoots(v: State, k: nat)
    requires NextRoot(v, k)
    ensures var u := EraseStep(v, k);
      && u.sweep.Sweeping? && u.sweep.bound == v.sweep.bound && u.active == v.active && u.rootIds == v.rootIds
      && u.roots == v.roots - {k} && v.dead <= u.dead && (u.fault == NoFault ==> v.roots[k] in u.dead)
  {
    DestroyFrees(v.(roots := v.roots - {k}, erased := v.erased + 1), v.roots[k]);
  }

  /** One root more is out of the map and destroyed. */
  lemma FreesOne(s: State, bound: nat, v: State, k: nat, u: State)
    requires Freeing(s, bound, v) && k in v.roots && k <= bound && v.fault == NoFault
    requires u.sweep.Sweeping? && u.sweep.bound == v.sweep.bound && u.active == v.active && u.rootIds == v.rootIds
    requires u.roots == v.roots - {k} && v.dead <= u.dead && (u.fault == NoFault ==> v.roots[k] in u.dead)
    ensures Freeing(s, bound, u)
  {
    forall j | u.fault == NoFault && j in s.roots && j !in u.roots ensures s.roots[j] in u.dead {
      if j != k { assert j !in v.roots; }
    }
  }

  lemma StepFrees(s: State, bound: nat, v: State, step: Step)
    requires Freeing(s, bound, v) && Enabled(v, step) && !step.DoEnd?
    ensures Freeing(s, bound, Apply(v, step))
  {
    match step
    case DoBegin(_, _, _) =>
    case DoVisit(t, e) => VisitKeepsSweep(v, t, e);
    case DoChoose(t, x) => ChooseKeepsSweep(v, t, x);
    case DoCommit(t) => CommitKeepsSweep(v, t);
    case DoStamp(t) => StampKeepsSweep(v, t);
    case DoErase(k) => EraseFrees(s, bound, v, k);
    case DoDestruct => DestructFrees(v);
    case _ =>
  }

  lemma {:induction false} RunFrees(s: State, bound: nat, v: State, run: seq<Step>, u: State)
    requires Freeing(s, bound, v) && Executes(v, run, u) && forall i | 0 <= i < |run| :: !run[i].DoEnd?
    ensures Freeing(s, bound, u)
    decreases |run|
  {
    if run != [] {
      StepFrees(s, bound, v, run[0]);
      RunFrees(s, bound, Apply(v, run[0]), run[1..], u);
    }
  }

  /**
   A sweep whose bound covers the active layer, started in any state, cannot end with
   the active root in the map: it destroys it, and the next insert reads it.
   */
  lemma EarlyRaiseFaults(s: State, to: nat, run: seq<Step>, u: State, t: Tid, key: Key, e: Entry)
    requires Inv(s) && s.sweep.Idle? && s.active < 2 && (to >= s.active || s.lowerBound >= s.active)
    requires Executes(RaiseStep(s, to), run, u) && (forall i | 0 <= i < |run| :: !run[i].DoEnd?) && SweepOver(u)
    ensures u.active == s.active && u.active !in u.roots
    ensures u.fault == NoFault ==> u.active < |u.rootIds| && !Alive(u, u.rootIds[u.active])
    ensures u.fault == NoFault && Enabled(u, DoBegin(t, key, false)) ==>
      VisitStep(Begin(u, t, key, false), t, e).fault == UseAfterFree
  {
    var lb := if to > s.lowerBound then to else s.lowerBound;
    var bound := FreeBound(lb, s.active);
    FreeBoundReaches(lb, s.active);
    assert s.active in s.roots && s.roots[s.active] == s.rootIds[s.active];
    RunFrees(s, bound, RaiseStep(s, to), run, u);
  }
}
