/**
 The lock-free ephemeral trie as a transition system.

 A child slot is one 64-bit word: a 32-bit handle above a 32-bit size.  `insert`
 publishes leaves and split nodes by compare-and-swap on that word; the call that
 published a key then walks from the root again and adds one to every word on the
 way (`bump_size`), racing with splits that copy words.  `get_value` reads while
 all this happens.

 A node that is not yet published is private to its call, so the model allocates
 it in the step that publishes it.  A failed compare-and-swap, spurious or not,
 is a `DoReload`; the retry loop of `bump_size` is an atomic increment.
 */
module EphemeralTrie {

  import opened Nibbles
  import opened Tries
  import opened SearchTrees

  const HALF: nat := 0x1_0000_0000

  /** `UINT32_MAX`, the handle that means "no child". */
  const NULL: nat := 0xFFFF_FFFF

  /** The root is a member of the trie, not an allocated object: its name is no handle. */
  const ROOT: Id := HALF

  type Tid = nat

  /** The two halves of a slot's word. */
  datatype Slot = Slot(handle: Id, size: nat)

  function Pack(x: Slot): nat {
    x.handle * HALF + x.size
  }

  function Unpack(word: nat): Slot {
    Slot(word / HALF, word % HALF)
  }

  /** `relevant_child + 1` on a 64-bit word. */
  function AddOne(x: Slot): Slot {
    Unpack((Pack(x) + 1) % (HALF * HALF))
  }

  datatype Pc =
    | Visit(node: Id)                        // entering `insert` on a node
    | Choose(node: Id, seen: Option<Slot>)   // in its loop, with the word last seen
    | Climb(node: Id)                        // entering `bump_size` on a node
    | Done(result: bool)
    | Seek(node: Id)                         // entering `get_value` on a node
    | Found(leaf: Id)
    | Missing
    | Threw

  datatype Call = Call(key: Key, pc: Pc)

  /** Who published a key, and as which node (history). */
  datatype Win = Win(tid: Tid, leaf: Id)

  /** `sizes` holds the low halves; a slot without a handle in `cells` is the null word. */
  datatype State = State(
    K: nat,
    cells: Arena,
    sizes: map<(Id, Nibble), nat>,
    calls: map<Tid, Call>,
    published: map<Key, Win>)

  ghost predicate Init(s: State, K: nat) {
    K > 0 && s == State(K, map[ROOT := Cell([], None, map[])], map[], map[], map[])
  }

  function SizeAt(s: State, n: Id, b: Nibble): nat {
    if n in s.cells && b in s.cells[n].slots && (n, b) in s.sizes then s.sizes[(n, b)] else 0
  }

  function Load(s: State, n: Id, b: Nibble): Option<Slot>
    requires n in s.cells
  {
    if b in s.cells[n].slots then Some(Slot(s.cells[n].slots[b], SizeAt(s, n, b))) else None
  }

  function SetPc(s: State, t: Tid, pc: Pc): State
    requires t in s.calls
  {
    s.(calls := s.calls[t := s.calls[t].(pc := pc)])
  }

  // ----- insert -----

  function VisitStep(s: State, t: Tid, e: Entry): State
    requires t in s.calls && s.calls[t].pc.Visit? && s.calls[t].pc.node in s.cells
  {
    var n, key := s.calls[t].pc.node, s.calls[t].key;
    if !(s.cells[n].prefix <= key) then SetPc(s, t, Threw)
    else if |s.cells[n].prefix| >= |key| then
      SetPc(s.(cells := s.cells[n := s.cells[n].(entry := Some(e))]), t, Done(false))
    else SetPc(s, t, Choose(n, Load(s, n, key[|s.cells[n].prefix|])))
  }

  function ReloadStep(s: State, t: Tid): State
    requires t in s.calls && s.calls[t].pc.Choose? && s.calls[t].pc.node in s.cells
    requires |s.cells[s.calls[t].pc.node].prefix| < |s.calls[t].key|
  {
    var n := s.calls[t].pc.node;
    SetPc(s, t, Choose(n, Load(s, n, s.calls[t].key[|s.cells[n].prefix|])))
  }

  /** The slot still holds the null word: publish a leaf. */
  function PublishLeaf(s: State, t: Tid, n: Id, b: Nibble, x: Id, e: Entry): State
    requires t in s.calls && n in s.cells
  {
    var key := s.calls[t].key;
    SetPc(s.(
      cells := SetSlot(s.cells, n, b, x)[x := Cell(key, Some(e), map[])],
      sizes := s.sizes[(n, b) := 0],
      published := s.published[key := Win(t, x)]), t, Climb(ROOT))
  }

  /** The slot still holds `word`: push that word below a new branch node. */
  function Split(s: State, t: Tid, n: Id, b: Nibble, x: Id, word: Slot, p: Key, d: Nibble): State
    requires t in s.calls && n in s.cells
  {
    SetPc(s.(
      cells := SetSlot(s.cells, n, b, x)[x := Cell(p, None, map[d := word.handle])],
      sizes := s.sizes[(n, b) := word.size][(x, d) := word.size]), t, Visit(x))
  }

  /** The swap of the loop succeeds, or no swap is needed. */
  predicate CanChoose(s: State, t: Tid, x: Id) {
    && t in s.calls && s.calls[t].pc.Choose?
    && var n, seen, key := s.calls[t].pc.node, s.calls[t].pc.seen, s.calls[t].key;
    && n in s.cells && |s.cells[n].prefix| < |key|
    && match seen
       case None => Load(s, n, key[|s.cells[n].prefix|]) == None && x !in s.cells && x < NULL
       case Some(word) =>
         && word.handle in s.cells
         && (!(s.cells[word.handle].prefix <= key) ==>
               Load(s, n, key[|s.cells[n].prefix|]) == Some(word) && x !in s.cells && x < NULL
               && MatchLen(s.cells[word.handle].prefix, key) < |s.cells[word.handle].prefix|)
  }

  function ChooseStep(s: State, t: Tid, x: Id, e: Entry): State
    requires CanChoose(s, t, x)
  {
    var n, seen, key := s.calls[t].pc.node, s.calls[t].pc.seen, s.calls[t].key;
    var b := key[|s.cells[n].prefix|];
    if seen.None? then PublishLeaf(s, t, n, b, x, e)
    else
      var word := seen.value;
      var q := s.cells[word.handle].prefix;
      if q <= key then SetPc(s, t, Visit(word.handle))
      else
        var join := MatchLen(q, key);
        Split(s, t, n, b, x, word, key[..join], q[join])
  }

  // ----- bump_size -----

  predicate CanClimb(s: State, t: Tid) {
    && t in s.calls && s.calls[t].pc.Climb?
    && var n, key := s.calls[t].pc.node, s.calls[t].key;
    && n in s.cells
    && (|s.cells[n].prefix| < s.K ==>
          && |s.cells[n].prefix| < |key| && key[|s.cells[n].prefix|] in s.cells[n].slots)
  }

  /** The new word may in principle carry into the handle; the walk goes on from the old one. */
  function ClimbStep(s: State, t: Tid): State
    requires CanClimb(s, t)
  {
    var n, key := s.calls[t].pc.node, s.calls[t].key;
    if |s.cells[n].prefix| >= s.K then SetPc(s, t, Done(true))
    else
      var b := key[|s.cells[n].prefix|];
      var word := Slot(s.cells[n].slots[b], SizeAt(s, n, b));
      var bumped := AddOne(word);
      SetPc(s.(cells := SetSlot(s.cells, n, b, bumped.handle), sizes := s.sizes[(n, b) := bumped.size]),
        t, Climb(word.handle))
  }

  // ----- get_value -----

  predicate CanSeek(s: State, t: Tid) {
    && t in s.calls && s.calls[t].pc.Seek? && s.calls[t].pc.node in s.cells
  }

  function SeekStep(s: State, t: Tid): State
    requires CanSeek(s, t)
  {
    var n, key := s.calls[t].pc.node, s.calls[t].key;
    var p := s.cells[n].prefix;
    if MatchLen(p, key) < |p| then SetPc(s, t, Missing)
    else if MatchLen(p, key) >= s.K then SetPc(s, t, Found(n))
    else if |p| < |key| && key[|p|] in s.cells[n].slots then SetPc(s, t, Seek(s.cells[n].slots[key[|p|]]))
    else SetPc(s, t, Missing)
  }

  // ----- the transition relation -----

  datatype Step =
    | DoInsert(t: Tid, key: Key)
    | DoVisit(t: Tid, e: Entry)
    | DoReload(t: Tid)
    | DoChoose(t: Tid, x: Id, e: Entry)
    | DoClimb(t: Tid)
    | DoLookup(t: Tid, key: Key)
    | DoSeek(t: Tid)

  predicate Enabled(s: State, step: Step) {
    match step
    case DoInsert(t, key) => t !in s.calls && |key| == s.K
    case DoVisit(t, _) => t in s.calls && s.calls[t].pc.Visit? && s.calls[t].pc.node in s.cells
    case DoReload(t) =>
      && t in s.calls && s.calls[t].pc.Choose? && s.calls[t].pc.node in s.cells
      && |s.cells[s.calls[t].pc.node].prefix| < |s.calls[t].key|
    case DoChoose(t, x, _) => CanChoose(s, t, x)
    case DoClimb(t) => CanClimb(s, t)
    case DoLookup(t, key) => t !in s.calls && |key| == s.K
    case DoSeek(t) => CanSeek(s, t)
  }

  function Apply(s: State, step: Step): State
    requires Enabled(s, step)
  {
    match step
    case DoInsert(t, key) => s.(calls := s.calls[t := Call(key, Visit(ROOT))])
    case DoVisit(t, e) => VisitStep(s, t, e)
    case DoReload(t) => ReloadStep(s, t)
    case DoChoose(t, x, e) => ChooseStep(s, t, x, e)
    case DoClimb(t) => ClimbStep(s, t)
    case DoLookup(t, key) => s.(calls := s.calls[t := Call(key, Seek(ROOT))])
    case DoSeek(t) => SeekStep(s, t)
  }

  ghost predicate Executes(s: State, run: seq<Step>, u: State)
    decreases |run|
  {
    if run == [] then s == u
    else Enabled(s, run[0]) && Executes(Apply(s, run[0]), run[1..], u)
  }
}
