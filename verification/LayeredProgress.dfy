/**
 A call on the layered trie that is left alone ends.

 It returns if its key was not trapped when it began, and throws if it was; and when
 it returns, it has done to the map of the active layer what its arguments say.
 */
module LayeredProgress {

  import opened Nibbles
  import opened Tries
  import opened SearchTrees
  import opened LayeredTrie
  import opened LayeredSafety
  import opened LayeredRuns
  import opened LayeredSweep
  import opened LayeredMaps
  import opened LayeredCalls
  import opened LayeredTraps

  ghost predicate InFlight(s: State, t: Tid) {
    Inv(s) && t in s.calls && !Done(s.calls[t])
  }

  /** The call has seen what its slot holds now. */
  predicate UpToDate(s: State, t: Tid) {
    && t in s.calls && s.calls[t].pc.Choose?
    && var n := s.calls[t].pc.node;
    && n in s.cells && |s.cells[n].prefix| < |s.calls[t].key| && s.calls[t].pc == Loaded(s, n, Bits(s, t, n))
  }

  /** What is left to do before the call moves down. */
  function Behind(s: State, t: Tid): nat
    requires t in s.calls
  {
    if s.calls[t].pc.Choose? && !UpToDate(s, t) then 1 else Rank(s.calls[t].pc)
  }

  /** The call has ended, or has less left to do. */
  ghost predicate Closer(s: State, u: State, t: Tid) {
    && t in s.calls && t in u.calls && u.calls[t].key == s.calls[t].key && u.calls[t].collect == s.calls[t].collect
    && (Done(u.calls[t]) || Left(u, t) < Left(s, t) || (Left(u, t) == Left(s, t) && Behind(u, t) < Behind(s, t)))
  }

  lemma StillOpen(s: State, t: Tid)
    requires InFlight(s, t)
    ensures !Closing(s) && CallOk(s, t)
  {
    assert !Quiet(s);
  }

  // ----- entering a node, commits and stamps -----

  lemma VisitCloser(s: State, t: Tid, e: Entry)
    requires InFlight(s, t) && Enabled(s, DoVisit(t, e))
    ensures Closer(s, VisitStep(s, t, e), t)
  {
    var n, key := s.calls[t].pc.node, s.calls[t].key;
    StillOpen(s, t);
    HereFacts(s, n);
    VisitCalls(s, t, e);
    VisitOutcome(s, t, e);
    if s.cells[n].prefix <= key && |s.cells[n].prefix| < |key| {
      assert VisitStep(s, t, e) == Reload(s, t, n, key[|s.cells[n].prefix|]);
    }
  }

  lemma CommitCloser(s: State, t: Tid)
    requires InFlight(s, t) && Enabled(s, DoCommit(t))
    ensures Closer(s, CommitStep(s, t), t)
  {
    CommitNears(s, t);
    CommitKeepsCall(s, t);
    CommitEnds(s, t);
  }

  lemma StampCloser(s: State, t: Tid)
    requires InFlight(s, t) && Enabled(s, DoStamp(t))
    ensures Closer(s, StampStep(s, t), t)
  {
    StampKeepsCall(s, t);
    if s.calls[t].pc.next.Some? {
      StampNears(s, t);
      StampEnds(s, t);
    } else {
      LastStamps(s, t);
    }
  }

  lemma LastStamps(s: State, t: Tid)
    requires InFlight(s, t) && Enabled(s, DoStamp(t)) && s.calls[t].pc.next.None?
    ensures var u := StampStep(s, t);
      && t in u.calls
      && u.calls[t].pc == if |s.calls[t].pc.todo| > 1 then Stamp(s.calls[t].pc.todo[1..], None) else Returned
  {
    var z := s.calls[t].pc.todo[0];
    StillOpen(s, t);
    assert z == Todo(s.calls[t].pc)[0];
    assert PendingOk(s, z);
    CurrentIsAlive(s, z);
  }

  // ----- a turn of the loop -----

  /** A turn leads to a longer prefix, or the call had not seen what its slot holds. */
  ghost predicate LeadsDown(s: State, t: Tid, turn: Turn) {
    && t in s.calls && s.calls[t].pc.Choose? && s.calls[t].pc.node in s.cells
    && var n := s.calls[t].pc.node;
    && |s.cells[n].prefix| < |s.calls[t].key|
    && match turn
       case Crash => false
       case Move(pc) =>
         && (pc.Visit? ==> pc.node in s.cells && |s.cells[n].prefix| < |s.cells[pc.node].prefix| <= s.K)
         && (pc.Choose? ==> pc == Loaded(s, n, Bits(s, t, n)) && !UpToDate(s, t))
         && (pc.Visit? || pc.Choose? || pc.Returned?)
       case Put(cell, _) => |s.cells[n].prefix| < |cell.prefix| <= s.K
       case Cut(_) => true
  }

  lemma TurnLeadsDown(s: State, t: Tid, x: Id)
    requires InFlight(s, t) && Enabled(s, DoChoose(t, x))
    ensures LeadsDown(s, t, TurnOf(s, t))
  {
    var n, child := s.calls[t].pc.node, s.calls[t].pc.child;
    StillOpen(s, t);
    HereFacts(s, n);
    TurnEnds(s, t, x);
    if child.Some? {
      CurrentIsAlive(s, child.value);
      ChildLeadsDown(s, t, n, child.value);
    }
  }

  lemma ChildLeadsDown(s: State, t: Tid, n: Id, c: Id)
    requires AtLoop(s, t, n) && Alive(s, c) && s.calls[t].pc.child == Some(c) && !ChildTurn(s, t, n, c).Crash?
    requires |s.cells[n].prefix| < |s.calls[t].key|
    ensures LeadsDown(s, t, ChildTurn(s, t, n, c))
  {
    var p, q, key := s.cells[n].prefix, s.cells[c].prefix, s.calls[t].key;
    ShapeOf(s, c);
    if MatchLen(q, key) < |q| {
      JoinLength(p, key[|p|], q, key);
    } else if s.info[c].layer != s.active {
      SupersedeLeadsDown(s, t, n, c);
    }
  }

  lemma ShapeOf(s: State, c: Id)
    requires Inv(s) && c in s.cells
    ensures |s.cells[c].prefix| <= s.K
  {
    InLastTree(s, c);
    assert LayerOk(s, Last(s, c));
    assert Local(s.cells, Tree(s, Last(s, c)), s.K, c);
  }

  lemma SupersedeLeadsDown(s: State, t: Tid, n: Id, c: Id)
    requires AtLoop(s, t, n) && Alive(s, c) && s.calls[t].pc.child == Some(c) && !SupersedeTurn(s, t, n, c).Crash?
    requires |s.cells[n].prefix| < |s.calls[t].key|
    ensures LeadsDown(s, t, SupersedeTurn(s, t, n, c))
  {
    if SlotHolds(s, n, Bits(s, t, n), c) {
      ActiveTree(s, n);
      assert Local(s.cells, Tree(s, s.active), s.K, n);
      ChainEndIsLonger(s, c);
    }
  }

  lemma ChooseCloser(s: State, t: Tid, x: Id)
    requires InFlight(s, t) && Enabled(s, DoChoose(t, x))
    ensures Closer(s, ChooseStep(s, t, x), t)
  {
    TurnLeadsDown(s, t, x);
    TakeMoves(s, t, x);
    ChoosePrefixes(s, t, x);
    StillOpen(s, t);
    var u, turn := ChooseStep(s, t, x), TurnOf(s, t);
    KeyLength(s, t, x);
    match turn
    case Move(pc) =>
      assert u == SetPc(s, t, pc);
      MoveCloser(s, u, t, pc);
    case Put(cell, gone) => LongerIsCloser(s, u, t, s.calls[t].pc.node, x);
    case Cut(gone) => CutCloser(s, u, t, gone);
  }

  lemma CutCloser(s: State, u: State, t: Tid, gone: seq<Id>)
    requires LeadsDown(s, t, Cut(gone)) && |s.calls[t].key| == s.K && u.K == s.K
    requires t in u.calls && u.calls[t] == s.calls[t].(pc := Stamp(gone, None))
    ensures Closer(s, u, t)
  {
  }

  lemma KeyLength(s: State, t: Tid, x: Id)
    requires Enabled(s, DoChoose(t, x))
    ensures ChooseStep(s, t, x).K == s.K
  {
  }

  lemma MoveCloser(s: State, u: State, t: Tid, pc: Pc)
    requires LeadsDown(s, t, Move(pc)) && u == SetPc(s, t, pc)
    ensures Closer(s, u, t)
  {
    if pc.Choose? { assert UpToDate(u, t); }
  }

  /** The call moves its target to a node with a longer prefix. */
  lemma LongerIsCloser(s: State, u: State, t: Tid, n: Id, x: Id)
    requires t in s.calls && t in u.calls && Target(s.calls[t].pc) == Some(n) && Target(u.calls[t].pc) == Some(x)
    requires n in s.cells && x in u.cells && u.K == s.K && |s.cells[n].prefix| < |u.cells[x].prefix| <= s.K
    requires u.calls[t].key == s.calls[t].key && u.calls[t].collect == s.calls[t].collect
    ensures Closer(s, u, t)
  {
  }

  // ----- the call by itself -----

  lemma OwnStepCloser(s: State, step: Step, t: Tid)
    requires InFlight(s, t) && Enabled(s, step) && By(step, t)
    ensures Closer(s, Apply(s, step), t)
  {
    match step
    case DoVisit(_, e) => VisitCloser(s, t, e);
    case DoChoose(_, x) => ChooseCloser(s, t, x);
    case DoCommit(_) => CommitCloser(s, t);
    case DoStamp(_) => StampCloser(s, t);
  }

  /** A step that the call can take, with value `e` to write. */
  lemma OwnStep(s: State, t: Tid, e: Entry) returns (step: Step)
    requires InFlight(s, t)
    ensures By(step, t) && Enabled(s, step) && (step.DoVisit? ==> step.e == e)
  {
    StillOpen(s, t);
    var x := NewId(s.cells);
    match s.calls[t].pc
    case Visit(_) => step := DoVisit(t, e);
    case Choose(_, _) => step := DoChoose(t, x);
    case Commit(_, _) => step := DoCommit(t);
    case Stamp(_, _) => step := DoStamp(t);
  }

  /** The active map after a call that has ended: its entry is written if it returned and was not collecting. */
  ghost function Outcome(m: map<Key, Entry>, c: Call, e: Entry): map<Key, Entry> {
    if c.pc.Returned? && !c.collect then Written(m, c.key, e) else m
  }

  /** The active layer as a step of the call leaves it. */
  ghost predicate Wrote(s: State, u: State, t: Tid, e: Entry) {
    && Inv(s) && Inv(u) && u.active == s.active && t in s.calls && t in u.calls
    && u.calls[t].key == s.calls[t].key && u.calls[t].collect == s.calls[t].collect
    && LayerOk(s, s.active) && LayerOk(u, s.active)
    && LayerMap(u, s.active) == Outcome(LayerMap(s, s.active), u.calls[t], e)
  }

  /** What the call by itself has made of the active layer. */
  ghost predicate Ended(s: State, u: State, t: Tid, e: Entry) {
    Wrote(s, u, t, e) && Done(u.calls[t])
  }

  /** One step of the call: nothing is written, or the call has returned. */
  lemma OwnStepMap(s: State, step: Step, t: Tid, e: Entry)
    requires InFlight(s, t) && Enabled(s, step) && By(step, t) && (step.DoVisit? ==> step.e == e)
    ensures Wrote(s, Apply(s, step), t, e)
  {
    var u := Apply(s, step);
    StepInv(s, step);
    TopMap(s, step);
    StepEnds(s, step, t);
    OwnStepKeepsCall(s, step, t);
  }

  lemma {:induction false} AloneEnds(s: State, t: Tid, e: Entry) returns (run: seq<Step>, u: State)
    requires InFlight(s, t)
    ensures Executes(s, run, u) && Alone(run, t) && Ended(s, u, t, e)
    decreases Left(s, t), Behind(s, t)
  {
    var step, v := StepAlone(s, t, e);
    var rest := [];
    u := v;
    if !Done(v.calls[t]) {
      rest, u := AloneEnds(v, t, e);
      EndedBefore(s, v, u, t, e);
    }
    StepBefore(s, step, v, rest, u);
    AloneAfter(step, rest, t);
    run := [step] + rest;
  }

  lemma AloneAfter(step: Step, run: seq<Step>, t: Tid)
    requires By(step, t) && Alone(run, t)
    ensures Alone([step] + run, t)
  {
  }

  /** The next step of the call, and what it comes to. */
  lemma StepAlone(s: State, t: Tid, e: Entry) returns (step: Step, v: State)
    requires InFlight(s, t)
    ensures Enabled(s, step) && By(step, t) && v == Apply(s, step) && Closer(s, v, t) && Wrote(s, v, t, e)
  {
    step := OwnStep(s, t, e);
    v := Apply(s, step);
    OwnStepCloser(s, step, t);
    OwnStepMap(s, step, t, e);
  }

  lemma EndedBefore(s: State, v: State, u: State, t: Tid, e: Entry)
    requires Wrote(s, v, t, e) && !Done(v.calls[t]) && Ended(v, u, t, e)
    ensures Ended(s, u, t, e)
  {
  }

  lemma Reached(z: State, K: nat, before: seq<Step>, s: State)
    requires Init(z, K) && Executes(z, before, s)
    ensures Inv(s) && s.K == K
  {
    InitInv(z, K);
    RunInv(z, before, s);
    RunFreezes(z, before, s);
  }

  /** Between calls and sweeps a new layer can be made, and it starts with what the last one has. */
  lemma BumpCopies(z: State, K: nat, before: seq<Step>, s: State, x: Id)
    requires Init(z, K) && Executes(z, before, s) && s.sweep.Idle? && Quiet(s) && x !in s.cells && s.active + 1 < NEVER
    ensures Enabled(s, DoBump(x))
    ensures var u := BumpStep(s, x);
      && u.active == s.active + 1 && LayerOk(s, s.active) && LayerOk(u, s.active) && LayerOk(u, u.active)
      && LayerMap(u, u.active) == LayerMap(u, s.active) == LayerMap(s, s.active)
  {
    Reached(z, K, before, s);
    BumpFrom(s, x);
  }

  lemma BumpFrom(s: State, x: Id)
    requires Inv(s) && Enabled(s, DoBump(x))
    ensures var u := BumpStep(s, x);
      && u.active == s.active + 1 && LayerOk(s, s.active) && LayerOk(u, s.active) && LayerOk(u, u.active)
      && LayerMap(u, u.active) == LayerMap(u, s.active) == LayerMap(s, s.active)
  {
    StepInv(s, DoBump(x));
    BumpActive(s, x);
    BumpMaps(s, x);
  }

  lemma BumpActive(s: State, x: Id)
    requires Inv(s) && Enabled(s, DoBump(x))
    ensures BumpStep(s, x).active == s.active + 1
  {
    assert LayerOk(s, s.active);
    CurrentIsAlive(s, s.rootIds[s.active]);
  }

  /**
   A call that is left alone ends.  It returns if and only if its key was not trapped
   when it began, and then the active layer has the entry, or what it had if the call
   was collecting.
   */
  lemma CallEnds(z: State, K: nat, before: seq<Step>, s: State, t: Tid, key: Key, collect: bool, e: Entry)
    returns (run: seq<Step>, u: State)
    requires Init(z, K) && Executes(z, before, s) && t !in s.calls && |key| == K && Open(s)
    ensures Enabled(s, DoBegin(t, key, collect)) && s.active < |s.rootIds|
    ensures Executes(Begin(s, t, key, collect), run, u) && Alone(run, t)
    ensures t in u.calls && u.calls[t].pc == if Trapped(s, key) then Threw else Returned
    ensures u.active == s.active && LayerOk(s, s.active) && LayerOk(u, s.active)
    ensures LayerMap(u, s.active) ==
      if Trapped(s, key) || collect then LayerMap(s, s.active) else Written(LayerMap(s, s.active), key, e)
  {
    Reached(z, K, before, s);
    var b := Begin(s, t, key, collect);
    StepInv(s, DoBegin(t, key, collect));
    TopMap(s, DoBegin(t, key, collect));
    run, u := AloneEnds(b, t, e);
    if Trapped(s, key) {
      TrappedNeverReturns(s, t, key, collect, run, u);
    } else {
      UntrappedIsSafe(s, t, key, collect, run, u);
    }
  }
}
