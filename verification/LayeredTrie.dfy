/**
 The layered copy-on-write trie as a transition system.

 Threads insert into (or collect from) the active layer by compare-and-swap while
 old roots are being destroyed node by node.  Loading a slot, a compare-and-swap,
 committing the node it published, each stamp of a superseded node, and each child
 visited by a destructor are separate steps.  Two groups of accesses are one step
 because nobody can tell them apart: a swap is taken together with the reads of the
 older chain it replaces, since older nodes do not change, and together with the
 update of `active_children` that follows it, since the counter of a node is not
 read before its layer is finalised.  An access to destroyed memory, a second
 destruction and the destructor's `std::terminate` are explicit faults, so that
 safety is the claim that no run reaches a fault.

 Addresses are never reused in the model; since no held pointer and no retained
 tree ever meets a destroyed node, reuse of its address could not be observed.
 */
module LayeredTrie {

  import opened Nibbles
  import opened Tries
  import opened SearchTrees

  /** `UINT64_MAX`: not superseded by anything. */
  const NEVER: nat := 0xFFFF_FFFF_FFFF_FFFF

  const WORD: nat := 0x1_0000_0000_0000_0000

  type Tid = nat

  /** Where an `insert` call stands. */
  datatype Pc =
    | Visit(node: Id)                               // entering `insert` on a node
    | Choose(node: Id, child: Option<Id>)           // head of the loop, with the child last seen
    | Commit(published: Id, todo: seq<Id>)          // the swap succeeded, `commit_node` is next
    | Stamp(todo: seq<Id>, next: Option<Id>)        // `set_superseded_layer` on what the swap cut out
    | Returned
    | Threw

  /** `collect` is the `do_gc` flag. */
  datatype Call = Call(key: Key, collect: bool, pc: Pc)

  /** A destructor activation: the node, the next slot to look at, and the layer read on entry. */
  datatype Frame = Frame(node: Id, slot: nat, superseded: nat)

  datatype Sweep =
    | Idle
    | Sweeping(bound: nat, stack: seq<Frame>, closing: bool)
    | Closed

  /** The fields of a node besides its cell; `kids` is `active_children`. */
  datatype Info = Info(layer: nat, superseded: nat, kids: nat)

  datatype Fault = NoFault | UseAfterFree | DoubleFree | Terminated

  /**
   `rootIds`, `doomed`, `uncommitted` and `erased` are history: the root of every layer
   ever made, the owner of each pending stamp and commit, and how many roots have
   left the `roots` map.
   */
  datatype State = State(
    K: nat,
    cells: Arena,
    info: map<Id, Info>,
    rootIds: seq<Id>,
    roots: map<nat, Id>,
    active: nat,
    lowerBound: nat,
    calls: map<Tid, Call>,
    doomed: map<Id, Tid>,
    uncommitted: map<Id, Tid>,
    sweep: Sweep,
    erased: nat,
    dead: set<Id>,
    fault: Fault)

  ghost predicate Init(s: State, K: nat) {
    && K > 0
    && s == State(K, map[0 := Cell([], None, map[])], map[0 := Info(0, NEVER, 0)],
                  [0], map[0 := 0], 0, 0, map[], map[], map[], Idle, 0, {}, NoFault)
  }

  // ----- reading nodes -----

  /** The node was allocated and not destroyed. */
  predicate Alive(s: State, n: Id) {
    n in s.cells && n in s.info && n !in s.dead
  }

  predicate AllAlive(s: State, w: seq<Id>) {
    forall i | 0 <= i < |w| :: Alive(s, w[i])
  }

  /** `get_unique_child` of a node with one child. */
  function OnlyKid(s: State, n: Id): Option<Id> {
    if n in s.cells && n in s.info && s.info[n].kids == 1 then Lowest(s.cells[n].slots, 0) else None
  }

  /**
   The nodes visited while there is exactly one child.  The guard on the prefix
   makes the walk terminate in every state; it never cuts a walk short in a
   reachable one.
   */
  function Walk(s: State, n: Id): (w: seq<Id>)
    ensures |w| > 0 && w[0] == n
    decreases if n in s.cells && |s.cells[n].prefix| <= s.K then s.K - |s.cells[n].prefix| else 0
  {
    var y := OnlyKid(s, n);
    if && y.Some? && n in s.cells && y.value in s.cells
       && |s.cells[n].prefix| < |s.cells[y.value].prefix| <= s.K
    then [n] + Walk(s, y.value)
    else [n]
  }

  predicate IsLeaf(s: State, n: Id)
    requires n in s.cells
  {
    |s.cells[n].prefix| == s.K
  }

  predicate IsActiveLeaf(s: State, n: Id)
    requires n in s.cells
  {
    IsLeaf(s, n) && s.cells[n].entry.Some? && s.cells[n].entry.value.live
  }

  /** `value_t()`: a value nobody has written yet. */
  const BLANK := Entry([], 0, false)

  // ----- steps of a call -----

  function SetPc(s: State, t: Tid, pc: Pc): State
    requires t in s.calls
  {
    s.(calls := s.calls[t := s.calls[t].(pc := pc)])
  }

  function Begin(s: State, t: Tid, key: Key, collect: bool): State
    requires s.active < |s.rootIds|
  {
    s.(calls := s.calls[t := Call(key, collect, Visit(s.rootIds[s.active]))])
  }

  /** Entry of `insert`: the prefix assertion, the leaf case, or the load of a slot. */
  function VisitStep(s: State, t: Tid, e: Entry): State
    requires t in s.calls && s.calls[t].pc.Visit?
  {
    var n, key := s.calls[t].pc.node, s.calls[t].key;
    if !Alive(s, n) then s.(fault := UseAfterFree)
    else if !(s.cells[n].prefix <= key) then SetPc(s, t, Threw)
    else if |s.cells[n].prefix| >= |key| then
      if s.calls[t].collect then SetPc(s, t, Returned)
      else SetPc(s.(cells := s.cells[n := s.cells[n].(entry := Some(e))]), t, Returned)
    else Reload(s, t, n, key[|s.cells[n].prefix|])
  }

  /** The program counter after loading slot `b` of `n`. */
  function Loaded(s: State, n: Id, b: Nibble): Pc
    requires n in s.cells
  {
    Choose(n, if b in s.cells[n].slots then Some(s.cells[n].slots[b]) else None)
  }

  function Reload(s: State, t: Tid, n: Id, b: Nibble): State
    requires t in s.calls && n in s.cells
  {
    SetPc(s, t, Loaded(s, n, b))
  }

  function Ids(w: seq<Id>): set<Id> {
    set i | i in w
  }

  /** A successful swap that publishes node `x` with contents `cell` in slot `b` of `n`. */
  function Publish(s: State, t: Tid, n: Id, b: Nibble, x: Id, cell: Cell, gone: seq<Id>): State
    requires t in s.calls && n in s.cells && n in s.info
  {
    var kids := s.info[n].kids + if b in s.cells[n].slots then 0 else 1;
    SetPc(s.(
      cells := SetSlot(s.cells, n, b, x)[x := cell],
      info := s.info[n := s.info[n].(kids := kids)][x := Info(s.active, 0, |cell.slots|)],
      doomed := s.doomed + (map i | i in Ids(gone) :: t),
      uncommitted := s.uncommitted[x := t]), t, Commit(x, gone))
  }

  /** A successful swap to null. */
  function Unlink(s: State, t: Tid, n: Id, b: Nibble, gone: seq<Id>): State
    requires t in s.calls && n in s.cells && n in s.info
  {
    SetPc(s.(
      cells := s.cells[n := s.cells[n].(slots := s.cells[n].slots - {b})],
      info := s.info[n := s.info[n].(kids := if s.info[n].kids > 0 then s.info[n].kids - 1 else 0)],
      doomed := s.doomed + (map i | i in Ids(gone) :: t)), t, Stamp(gone, None))
  }

  /** What one turn of the loop of `insert` comes to: a swap, or a move of this call alone. */
  datatype Turn =
    | Crash
    | Move(pc: Pc)
    | Put(cell: Cell, gone: seq<Id>)
    | Cut(gone: seq<Id>)

  /** `x` is the address of the node that a `Put` allocates. */
  function Take(s: State, t: Tid, n: Id, x: Id, turn: Turn): State
    requires t in s.calls
    requires turn.Put? || turn.Cut? ==> n in s.cells && n in s.info && |s.cells[n].prefix| < |s.calls[t].key|
  {
    match turn
    case Crash => s.(fault := UseAfterFree)
    case Move(pc) => SetPc(s, t, pc)
    case Put(cell, gone) => Publish(s, t, n, s.calls[t].key[|s.cells[n].prefix|], x, cell, gone)
    case Cut(gone) => Unlink(s, t, n, s.calls[t].key[|s.cells[n].prefix|], gone)
  }

  function ChooseStep(s: State, t: Tid, x: Id): State
    requires t in s.calls && s.calls[t].pc.Choose?
  {
    Take(s, t, s.calls[t].pc.node, x, TurnOf(s, t))
  }

  function TurnOf(s: State, t: Tid): Turn
    requires t in s.calls && s.calls[t].pc.Choose?
  {
    var n, child := s.calls[t].pc.node, s.calls[t].pc.child;
    if !Alive(s, n) then Crash
    else if |s.cells[n].prefix| >= |s.calls[t].key| then Move(Threw)
    else if child.None? then EmptyTurn(s, t, n)
    else if !Alive(s, child.value) then Crash
    else ChildTurn(s, t, n, child.value)
  }

  predicate SlotHolds(s: State, n: Id, b: Nibble, c: Id)
    requires n in s.cells
  {
    b in s.cells[n].slots && s.cells[n].slots[b] == c
  }

  /** The slot was seen empty. */
  function EmptyTurn(s: State, t: Tid, n: Id): Turn
    requires t in s.calls && Alive(s, n) && |s.cells[n].prefix| < |s.calls[t].key|
  {
    var key := s.calls[t].key;
    var b := key[|s.cells[n].prefix|];
    if s.calls[t].collect then Move(Returned)
    else if b in s.cells[n].slots then Move(Loaded(s, n, b))
    else Put(Cell(key, Some(BLANK), map[]), [])
  }

  /** The slot was seen to hold `c`. */
  function ChildTurn(s: State, t: Tid, n: Id, c: Id): Turn
    requires t in s.calls && Alive(s, n) && Alive(s, c) && |s.cells[n].prefix| < |s.calls[t].key|
  {
    var key := s.calls[t].key;
    var b := key[|s.cells[n].prefix|];
    var join := MatchLen(s.cells[c].prefix, key);
    if join == |s.cells[c].prefix| then
      if s.info[c].layer == s.active then Move(Visit(c))
      else SupersedeTurn(s, t, n, c)
    else if s.calls[t].collect then Move(Returned)
    else if !SlotHolds(s, n, b, c) then Move(Loaded(s, n, b))
    else Put(Cell(key[..join], None, map[s.cells[c].prefix[join] := c]), [])
  }

  /** The child belongs to an older layer: replace what one-child chain starts there. */
  function SupersedeTurn(s: State, t: Tid, n: Id, c: Id): Turn
    requires t in s.calls && Alive(s, n) && Alive(s, c) && |s.cells[n].prefix| < |s.calls[t].key|
  {
    var key := s.calls[t].key;
    var b := key[|s.cells[n].prefix|];
    var walk := Walk(s, c);
    if !AllAlive(s, walk) then Crash
    else if !SlotHolds(s, n, b, c) then Move(Loaded(s, n, b))
    else if s.info[c].kids == 0 && !IsActiveLeaf(s, c) then
      if s.calls[t].collect then Cut(walk)
      else Put(Cell(key, Some(BLANK), map[]), walk)
    else Put(s.cells[walk[|walk| - 1]], walk)
  }

  function CommitStep(s: State, t: Tid): State
    requires t in s.calls && s.calls[t].pc.Commit?
  {
    var x, todo := s.calls[t].pc.published, s.calls[t].pc.todo;
    if !Alive(s, x) then s.(fault := UseAfterFree)
    else
      SetPc(s.(info := s.info[x := s.info[x].(superseded := NEVER)], uncommitted := s.uncommitted - {x}), t,
            if todo == [] then Visit(x) else Stamp(todo, Some(x)))
  }

  function StampStep(s: State, t: Tid): State
    requires t in s.calls && s.calls[t].pc.Stamp? && |s.calls[t].pc.todo| > 0
  {
    var Stamp(todo, next) := s.calls[t].pc;
    if !Alive(s, todo[0]) then s.(fault := UseAfterFree)
    else
      SetPc(s.(info := s.info[todo[0] := s.info[todo[0]].(superseded := s.active)], doomed := s.doomed - {todo[0]}), t,
            if |todo| > 1 then Stamp(todo[1..], next)
            else if next.Some? then Visit(next.value)
            else Returned)
  }

  // ----- layers and destruction -----

  predicate Done(c: Call) {
    c.pc.Returned? || c.pc.Threw?
  }

  /** Finalising a layer waits for every reference to it, so no call is in flight. */
  predicate Quiet(s: State) {
    forall t | t in s.calls :: Done(s.calls[t])
  }

  function BumpStep(s: State, x: Id): State
    requires s.active < |s.rootIds|
  {
    var r := s.rootIds[s.active];
    if !Alive(s, r) then s.(fault := UseAfterFree)
    else
      s.(cells := s.cells[x := s.cells[r]],
         info := s.info[r := s.info[r].(superseded := s.active + 1)][x := Info(s.active + 1, NEVER, s.info[r].kids)],
         rootIds := s.rootIds + [x],
         roots := s.roots[s.active + 1 := x],
         active := s.active + 1)
  }

  /** `active_layer - 2` on unsigned 64-bit words. */
  function FreeBound(lowerBound: nat, active: nat): nat {
    var gap := (active + WORD - 2) % WORD;
    if lowerBound < gap then lowerBound else gap
  }

  function RaiseStep(s: State, to: nat): State {
    var lb := if to > s.lowerBound then to else s.lowerBound;
    s.(lowerBound := lb, sweep := Sweeping(FreeBound(lb, s.active), [], false))
  }

  function CloseStep(s: State): State {
    s.(sweep := Sweeping(s.active, [], true))
  }

  /** `delete` on a node: its destructor starts. */
  function Destroy(s: State, n: Id): State
    requires s.sweep.Sweeping?
  {
    if n in s.dead then s.(fault := DoubleFree)
    else if !Alive(s, n) then s.(fault := UseAfterFree)
    else s.(dead := s.dead + {n},
            sweep := s.sweep.(stack := s.sweep.stack + [Frame(n, 0, s.info[n].superseded)]))
  }

  /** Roots leave the map in increasing order of layer. */
  predicate NextRoot(s: State, k: nat) {
    && s.sweep.Sweeping? && s.sweep.stack == []
    && k in s.roots && k <= s.sweep.bound
    && forall j | j in s.roots :: k <= j
  }

  function EraseStep(s: State, k: nat): State
    requires NextRoot(s, k)
  {
    Destroy(s.(roots := s.roots - {k}, erased := s.erased + 1), s.roots[k])
  }

  /** One slot of the destructor's loop, or its end.  The node itself is being destroyed and still readable. */
  function DestructStep(s: State): State
    requires s.sweep.Sweeping? && |s.sweep.stack| > 0
  {
    var stack := s.sweep.stack;
    var Frame(n, b, sup) := stack[|stack| - 1];
    var pop := s.(sweep := s.sweep.(stack := stack[..|stack| - 1]));
    var on := s.(sweep := s.sweep.(stack := stack[..|stack| - 1] + [Frame(n, b + 1, sup)]));
    if n !in s.cells then s.(fault := UseAfterFree)
    else if IsLeaf(s, n) || sup == 0 || b >= 16 then pop
    else if b !in s.cells[n].slots then on
    else
      var c := s.cells[n].slots[b];
      if !Alive(s, c) then s.(fault := UseAfterFree)
      else if sup == s.info[c].superseded then Destroy(on, c)
      else if sup > s.info[c].superseded then s.(fault := Terminated)
      else on
  }

  predicate SweepOver(s: State) {
    && s.sweep.Sweeping? && s.sweep.stack == []
    && forall j | j in s.roots :: s.sweep.bound < j
  }

  function EndStep(s: State): State
    requires s.sweep.Sweeping?
  {
    s.(sweep := if s.sweep.closing then Closed else Idle)
  }

  // ----- the transition relation -----

  datatype Step =
    | DoBegin(t: Tid, key: Key, collect: bool)
    | DoVisit(t: Tid, e: Entry)
    | DoChoose(t: Tid, x: Id)
    | DoCommit(t: Tid)
    | DoStamp(t: Tid)
    | DoBump(x: Id)
    | DoRaise(to: nat)
    | DoClose
    | DoErase(k: nat)
    | DoDestruct
    | DoEnd

  predicate Open(s: State) {
    s.sweep.Idle? || (s.sweep.Sweeping? && !s.sweep.closing)
  }

  /** Locks and program order only; memory safety is never assumed. */
  predicate Enabled(s: State, step: Step) {
    && s.fault == NoFault
    && match step
       case DoBegin(t, key, _) => t !in s.calls && |key| == s.K && Open(s) && s.active < |s.rootIds|
       case DoVisit(t, _) => t in s.calls && s.calls[t].pc.Visit?
       case DoChoose(t, x) => t in s.calls && s.calls[t].pc.Choose? && x !in s.cells
       case DoCommit(t) => t in s.calls && s.calls[t].pc.Commit?
       case DoStamp(t) => t in s.calls && s.calls[t].pc.Stamp? && |s.calls[t].pc.todo| > 0
       case DoBump(x) =>
         && s.sweep.Idle? && Quiet(s) && x !in s.cells && s.active + 1 < NEVER
         && s.active < |s.rootIds|
       case DoRaise(_) => s.sweep.Idle? && s.active >= 2
       case DoClose => s.sweep.Idle? && Quiet(s)
       case DoErase(k) => NextRoot(s, k)
       case DoDestruct => s.sweep.Sweeping? && |s.sweep.stack| > 0
       case DoEnd => SweepOver(s)
  }

  function Apply(s: State, step: Step): State
    requires Enabled(s, step)
  {
    match step
    case DoBegin(t, key, collect) => Begin(s, t, key, collect)
    case DoVisit(t, e) => VisitStep(s, t, e)
    case DoChoose(t, x) => ChooseStep(s, t, x)
    case DoCommit(t) => CommitStep(s, t)
    case DoStamp(t) => StampStep(s, t)
    case DoBump(x) => BumpStep(s, x)
    case DoRaise(to) => RaiseStep(s, to)
    case DoClose => CloseStep(s)
    case DoErase(k) => EraseStep(s, k)
    case DoDestruct => DestructStep(s)
    case DoEnd => EndStep(s)
  }

  /** Performing `run` from `s` ends in `u`. */
  ghost predicate Executes(s: State, run: seq<Step>, u: State)
    decreases |run|
  {
    if run == [] then s == u
    else Enabled(s, run[0]) && Executes(Apply(s, run[0]), run[1..], u)
  }
}
